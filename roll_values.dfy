/** The per-term value handling of `#swapRollData` in DiceRoller.js
    (lines 461-511): the reroll-with-reserve rule, keep-highest and
    keep-lowest, and the text a term's values are rendered as. */
module RollValues {
  import opened Wrappers
  import opened TextUtil
  import opened DiceGrammar
  import opened ArithEval

  function Sum(v: seq<nat>): nat {
    if v == [] then 0 else v[0] + Sum(v[1..])
  }

  /** `values.slice(0, n)` and `values.slice(n)`: both clamp to the length. */
  function Take(v: seq<nat>, n: nat): (r: seq<nat>)
    ensures |r| == if n <= |v| then n else |v|
  {
    if n <= |v| then v[..n] else v
  }

  function Drop(v: seq<nat>, n: nat): (r: seq<nat>)
    ensures Take(v, n) + r == v
  {
    if n <= |v| then v[n..] else []
  }

  // ----- reroll (lines 471-490) -----

  /** How many of the first `k` primaries satisfy the reroll rule. */
  function Hits(prims: seq<nat>, c: Comparator, th: int, k: nat): nat
    requires k <= |prims|
  {
    if k == 0 then 0
    else Hits(prims, c, th, k - 1) + (if CmpHolds(c, prims[k - 1], th) then 1 else 0)
  }

  /** `rolledValues.map(…)` over the first `k` primaries: the values produced
      so far and the number of reserves `shift()` has consumed; `None` once
      a reroll finds the reserves exhausted. */
  function RerollPrefix(prims: seq<nat>, reserves: seq<nat>, c: Comparator, th: int, k: nat)
    : Option<(seq<nat>, nat)>
    requires k <= |prims|
  {
    if k == 0 then Some(([], 0))
    else match RerollPrefix(prims, reserves, c, th, k - 1)
      case None => None
      case Some(p) =>
        var (acc, used) := p;
        if !CmpHolds(c, prims[k - 1], th) then Some((acc + [prims[k - 1]], used))
        else if used < |reserves| then Some((acc + [reserves[used]], used + 1))
        else None
  }

  function Half(n: nat): nat {
    (n + 1) / 2
  }

  /** The reroll rule on a term's sliced values: the first `ceil(len/2)` are
      the primaries, the rest the reserves. */
  function Reroll(v: seq<nat>, c: Comparator, th: int): Option<seq<nat>> {
    match RerollPrefix(v[..Half(|v|)], v[Half(|v|)..], c, th, Half(|v|))
    case None => None
    case Some(p) => Some(p.0)
  }

  /** Value `i` of the result is the primary when the rule does not hold for
      it, else the next reserve in order; the reserves used are exactly the
      hits; the rule fails exactly when there are more hits than reserves. */
  lemma {:induction false} RerollPrefixSpec(prims: seq<nat>, reserves: seq<nat>, c: Comparator, th: int, k: nat)
    requires k <= |prims|
    ensures RerollPrefix(prims, reserves, c, th, k).None? <==> Hits(prims, c, th, k) > |reserves|
    ensures RerollPrefix(prims, reserves, c, th, k).Some? ==>
      var (acc, used) := RerollPrefix(prims, reserves, c, th, k).value;
      && |acc| == k && used == Hits(prims, c, th, k)
      && forall i | 0 <= i < k ::
           if CmpHolds(c, prims[i], th)
           then Hits(prims, c, th, i) < |reserves| && acc[i] == reserves[Hits(prims, c, th, i)]
           else acc[i] == prims[i]
  {
    if k > 0 {
      RerollPrefixSpec(prims, reserves, c, th, k - 1);
      HitsMonotone(prims, c, th, k - 1);
    }
  }

  lemma {:induction false} HitsMonotone(prims: seq<nat>, c: Comparator, th: int, k: nat)
    requires k <= |prims|
    ensures forall i | 0 <= i <= k :: Hits(prims, c, th, i) <= Hits(prims, c, th, k)
  {
    if k > 0 {
      HitsMonotone(prims, c, th, k - 1);
    }
  }

  /** Once the reserves run out the whole `map` fails. */
  lemma {:induction false} RerollFailureStays(prims: seq<nat>, reserves: seq<nat>, c: Comparator, th: int, k: nat, m: nat)
    requires k <= m <= |prims| && RerollPrefix(prims, reserves, c, th, k).None?
    ensures RerollPrefix(prims, reserves, c, th, m).None?
    decreases m - k
  {
    if k < m {
      RerollFailureStays(prims, reserves, c, th, k + 1, m);
    }
  }

  lemma {:induction false} HitsBound(prims: seq<nat>, c: Comparator, th: int, k: nat)
    requires k <= |prims|
    ensures Hits(prims, c, th, k) <= k
  {
    if k > 0 {
      HitsBound(prims, c, th, k - 1);
    }
  }

  /** With as many reserves as primaries (a `ro` term always asks for twice
      its dice) the reserves never run out. */
  lemma RerollEvenSucceeds(v: seq<nat>, c: Comparator, th: int)
    requires |v| % 2 == 0
    ensures Reroll(v, c, th).Some?
  {
    var h := Half(|v|);
    RerollPrefixSpec(v[..h], v[h..], c, th, h);
    HitsBound(v[..h], c, th, h);
  }

  /** The rerolled values keep the primary count. */
  lemma RerollLength(v: seq<nat>, c: Comparator, th: int)
    requires Reroll(v, c, th).Some?
    ensures |Reroll(v, c, th).value| == Half(|v|)
  {
    RerollPrefixSpec(v[..Half(|v|)], v[Half(|v|)..], c, th, Half(|v|));
  }

  /** The `map` with `shift()`, as a loop over the primaries. */
  method RerollValues(v: seq<nat>, c: Comparator, th: int) returns (r: Option<seq<nat>>)
    ensures r == Reroll(v, c, th)
  {
    var half := Half(|v|);
    var prims := v[..half];
    ghost var reserves0 := v[half..];
    var reserves := v[half..];
    var acc: seq<nat> := [];
    ghost var used: nat := 0;
    for k := 0 to |prims|
      invariant RerollPrefix(prims, reserves0, c, th, k) == Some((acc, used))
      invariant used <= |reserves0| && reserves == reserves0[used..]
    {
      if CmpHolds(c, prims[k], th) {
        if reserves == [] {
          RerollFailureStays(prims, reserves0, c, th, k + 1, |prims|);
          return None;
        }
        acc := acc + [reserves[0]];
        reserves := reserves[1..];
        used := used + 1;
      } else {
        acc := acc + [prims[k]];
      }
    }
    return Some(acc);
  }

  // ----- keep highest / keep lowest (lines 492-504) -----

  /** `a` may stand before `b` in the sorted order. */
  predicate InOrder(a: nat, b: nat, descending: bool) {
    if descending then a >= b else a <= b
  }

  predicate SortedBy(s: seq<nat>, descending: bool) {
    forall i, j | 0 <= i < j < |s| :: InOrder(s[i], s[j], descending)
  }

  lemma SortedCons(x: nat, t: seq<nat>, descending: bool)
    requires SortedBy(t, descending)
    requires forall k | 0 <= k < |t| :: InOrder(x, t[k], descending)
    ensures SortedBy([x] + t, descending)
  {
    var r := [x] + t;
    forall i, j | 0 <= i < j < |r| ensures InOrder(r[i], r[j], descending) {
      if i == 0 {
        assert r[j] == t[j - 1];
      } else {
        assert r[i] == t[i - 1] && r[j] == t[j - 1];
      }
    }
  }

  function Insert(x: nat, s: seq<nat>, descending: bool): (r: seq<nat>)
    requires SortedBy(s, descending)
    ensures SortedBy(r, descending) && multiset(r) == multiset(s) + multiset{x}
  {
    if s == [] then [x]
    else if InOrder(x, s[0], descending) then
      SortedCons(x, s, descending);
      [x] + s
    else
      var t := Insert(x, s[1..], descending);
      assert s == [s[0]] + s[1..];
      InsertHead(x, s, descending, t);
      [s[0]] + t
  }

  /** The head of `s` may precede everything `x` is inserted among. */
  lemma InsertHead(x: nat, s: seq<nat>, descending: bool, t: seq<nat>)
    requires s != [] && SortedBy(s, descending) && !InOrder(x, s[0], descending)
    requires SortedBy(t, descending) && multiset(t) == multiset(s[1..]) + multiset{x}
    ensures SortedBy([s[0]] + t, descending)
  {
    forall k | 0 <= k < |t| ensures InOrder(s[0], t[k], descending) {
      assert t[k] in multiset(t);
      if t[k] != x {
        assert t[k] in multiset(s[1..]);
        var i :| 0 <= i < |s[1..]| && s[1..][i] == t[k];
        assert s[i + 1] == t[k];
      }
    }
    SortedCons(s[0], t, descending);
  }

  /** `values.sort((a, b) => b - a)` (descending) or `(a, b) => a - b`. */
  function Sort(s: seq<nat>, descending: bool): (r: seq<nat>)
    ensures SortedBy(r, descending) && multiset(r) == multiset(s)
  {
    if s == [] then []
    else
      assert s == [s[0]] + s[1..];
      Insert(s[0], Sort(s[1..], descending), descending)
  }

  /** `kh n`, `kl n` or no keep modifier. */
  datatype KeepPlan = KeepAll | Highest(n: nat) | Lowest(n: nat)

  /** The digits right after the first `p`, as
      `parseInt(diceExpression.split(p)[1])` reads them; a missing number
      gives `NaN`, with which `slice(0, NaN)` keeps nothing, as 0 does. */
  function NumberAfter(s: string, p: string): nat
    requires Contains(s, p)
  {
    var k := IndexOf(s, p).value + |p|;
    assert OccursAt(s, p, k - |p|);
    DigitsValue(s[k..k + DigitRun(s, k)])
  }

  /** `kh` is looked for first, so it wins when both appear. */
  function KeepPlanOf(text: string): KeepPlan {
    if Contains(text, "kh") then Highest(NumberAfter(text, "kh"))
    else if Contains(text, "kl") then Lowest(NumberAfter(text, "kl"))
    else KeepAll
  }

  function Keep(v: seq<nat>, plan: KeepPlan): seq<nat> {
    match plan
    case KeepAll => v
    case Highest(n) => Take(Sort(v, true), n)
    case Lowest(n) => Take(Sort(v, false), n)
  }

  /** `kh n` keeps `min(n, len)` of the values, sorted descending, and no
      value it drops is larger than a value it keeps. */
  lemma KeepHighestSpec(v: seq<nat>, n: nat)
    ensures var kept := Keep(v, Highest(n));
      && |kept| == (if n <= |v| then n else |v|)
      && SortedBy(kept, true)
      && multiset(kept) <= multiset(v)
      && forall x, y | x in kept && y in multiset(v) - multiset(kept) :: y <= x
  {
    var kept := Keep(v, Highest(n));
    KeepSpec(v, n, true);
    forall x, y | x in kept && y in multiset(v) - multiset(kept) ensures y <= x {
      assert InOrder(x, y, true);
    }
  }

  /** `kl n` keeps `min(n, len)` of the values, sorted ascending, and no value
      it drops is smaller than a value it keeps. */
  lemma KeepLowestSpec(v: seq<nat>, n: nat)
    ensures var kept := Keep(v, Lowest(n));
      && |kept| == (if n <= |v| then n else |v|)
      && SortedBy(kept, false)
      && multiset(kept) <= multiset(v)
      && forall x, y | x in kept && y in multiset(v) - multiset(kept) :: x <= y
  {
    var kept := Keep(v, Lowest(n));
    KeepSpec(v, n, false);
    forall x, y | x in kept && y in multiset(v) - multiset(kept) ensures x <= y {
      assert InOrder(x, y, false);
    }
  }

  lemma KeepSpec(v: seq<nat>, n: nat, descending: bool)
    ensures var s := Sort(v, descending);
      var kept := Take(s, n);
      && SortedBy(kept, descending)
      && multiset(kept) <= multiset(v)
      && forall x, y | x in kept && y in multiset(v) - multiset(kept) :: InOrder(x, y, descending)
  {
    var s := Sort(v, descending);
    var kept := Take(s, n);
    var dropped := Drop(s, n);
    SplitMultiset(kept, dropped);
    assert multiset(v) - multiset(kept) == multiset(dropped);
    SortedSplit(s, kept, dropped, descending);
  }

  lemma SplitMultiset(a: seq<nat>, b: seq<nat>)
    ensures multiset(a + b) - multiset(a) == multiset(b)
    ensures multiset(a) <= multiset(a + b)
  {
    assert multiset(a + b) == multiset(a) + multiset(b);
  }

  /** A sorted sequence cut in two: everything before the cut may precede
      everything after it. */
  lemma SortedSplit(s: seq<nat>, a: seq<nat>, b: seq<nat>, descending: bool)
    requires s == a + b && SortedBy(s, descending)
    ensures SortedBy(a, descending)
    ensures forall x, y | x in a && y in multiset(b) :: InOrder(x, y, descending)
  {
    forall i, j | 0 <= i < j < |a| ensures InOrder(a[i], a[j], descending) {
      assert a[i] == s[i] && a[j] == s[j];
    }
    forall x, y | x in a && y in multiset(b) ensures InOrder(x, y, descending) {
      var i :| 0 <= i < |a| && a[i] == x;
      assert y in b;
      var j :| 0 <= j < |b| && b[j] == y;
      assert s[i] == x && s[|a| + j] == y;
    }
  }

  // ----- rendering (lines 507-511) -----

  function Strings(v: seq<nat>): (r: seq<string>)
    ensures |r| == |v|
  {
    if v == [] then [] else [NatToString(v[0])] + Strings(v[1..])
  }

  /** A term's replacement text: `v` for one value, `(a+b+…)` for several,
      and the empty string for none. */
  function Render(v: seq<nat>): string {
    if |v| > 1 then "(" + Join(Strings(v), '+') + ")" else Join(Strings(v), '+')
  }

  function PlusLits(v: seq<nat>): (ls: seq<Literal>)
    ensures AllLitsWellFormed(ls) && ChainSum(ls) == Sum(v)
  {
    if v == [] then []
    else
      NatToStringRoundTrip(v[0]);
      [Literal(false, NatToString(v[0]))] + PlusLits(v[1..])
  }

  lemma {:induction false} JoinPlusChain(v: seq<nat>)
    requires v != []
    ensures Join(Strings(v), '+') == NatToString(v[0]) + Chain(PlusLits(v[1..]))
  {
    if |v| > 1 {
      JoinPlusChain(v[1..]);
      assert Strings(v)[1..] == Strings(v[1..]);
    }
  }

  /** The rendered text of a non-empty list of values evaluates to their
      sum: substituting it leaves the total unchanged. */
  lemma RenderEvaluates(v: seq<nat>)
    requires v != []
    ensures Eval(Render(v)) == Some(Sum(v))
  {
    JoinPlusChain(v);
    NatToStringRoundTrip(v[0]);
    if |v| > 1 {
      RenderSeveral(v);
    } else {
      EvalNumberChain(NatToString(v[0]), PlusLits(v[1..]));
    }
  }

  lemma RenderSeveral(v: seq<nat>)
    requires |v| > 1
    ensures Eval(Render(v)) == Some(Sum(v))
  {
    var d := NatToString(v[0]);
    var ls := PlusLits(v[1..]);
    var text := "(" + d + Chain(ls) + ")";
    assert Render(v) == text by {
      JoinPlusChain(v);
    }
    NatToStringRoundTrip(v[0]);
    EvalParenChain(d, ls);
    assert Sum(v) == DigitsValue(d) + ChainSum(ls);
  }
}
