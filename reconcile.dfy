/** `#swapRollData` of DiceRoller.js (lines 419-548): the provider's values
    are bucketed by die size, each term of the pending expression takes its
    share of its bucket, the reroll and keep rules are applied, the term is
    replaced by its rendered values and the substituted expression is
    evaluated. Every way the source can throw is a `None` here. */
module Reconcile {
  import opened Wrappers
  import opened TextUtil
  import opened DiceGrammar
  import opened ArithEval
  import opened DiceParse
  import opened RollValues
  import DiceRolls

  /** `r.result` of one provider roll. */
  datatype RollResult = RollResult(values: seq<nat>, total: int, text: string, constant: int)

  /** One entry of `message.data.rolls`; `notationConstant` is
      `r.diceNotation.constant`. */
  datatype ProviderRoll = ProviderRoll(
    diceNotationStr: string,
    notationConstant: int,
    rollType: string,
    rollKind: string,
    result: RollResult)

  // ----- bucketing (lines 434-451) -----

  /** `matchedValues`: the provider's values by die size. */
  type Buckets = map<DieSize, seq<nat>>

  function Bucket(b: Buckets, size: DieSize): seq<nat> {
    if size in b then b[size] else []
  }

  /** All dice the terms of `ts` ask for, a reroll term counting twice. */
  function TotalNeeded(ts: seq<Term>): nat
    requires AllWellFormed(ts)
  {
    if ts == [] then 0 else TotalNeeded(ts[..|ts| - 1]) + DiceNeeded(ts[|ts| - 1])
  }

  predicate SizeIn(ts: seq<Term>, size: DieSize) {
    exists k | 0 <= k < |ts| :: ts[k].size == size
  }

  /** `matchedValues` and `valuesToMatch` after the provider terms `ts`:
      each term moves its next `count` values into the bucket of its size. */
  function BucketsOf(ts: seq<Term>, values: seq<nat>): (Buckets, seq<nat>)
    requires AllWellFormed(ts)
  {
    if ts == [] then (map[], values)
    else
      var (b, rest) := BucketsOf(ts[..|ts| - 1], values);
      var t := ts[|ts| - 1];
      var n := DiceNeeded(t);
      (b[t.size := Bucket(b, t.size) + Take(rest, n)], Drop(rest, n))
  }

  /** A bucket exists exactly for the sizes the provider notation names. */
  lemma {:induction false} BucketKeys(ts: seq<Term>, values: seq<nat>, size: DieSize)
    requires AllWellFormed(ts)
    ensures size in BucketsOf(ts, values).0 <==> SizeIn(ts, size)
  {
    if ts != [] {
      var init := ts[..|ts| - 1];
      BucketKeys(init, values, size);
      SizeInSnoc(ts, size);
    }
  }

  lemma SizeInSnoc(ts: seq<Term>, size: DieSize)
    requires ts != []
    ensures SizeIn(ts, size) <==> SizeIn(ts[..|ts| - 1], size) || ts[|ts| - 1].size == size
  {
    var init := ts[..|ts| - 1];
    if SizeIn(ts, size) && ts[|ts| - 1].size != size {
      var k :| 0 <= k < |ts| && ts[k].size == size;
      assert init[k] == ts[k];
    }
    if SizeIn(init, size) {
      var k :| 0 <= k < |init| && init[k].size == size;
      assert ts[k] == init[k];
    }
  }

  /** When the provider returned enough values, the bucket of size N holds
      exactly the dice its terms of size N asked for. */
  lemma {:induction false} BucketLengths(ts: seq<Term>, values: seq<nat>, size: DieSize)
    requires AllWellFormed(ts) && TotalNeeded(ts) <= |values|
    ensures |Bucket(BucketsOf(ts, values).0, size)| == NeededFor(ts, size)
    ensures |BucketsOf(ts, values).1| == |values| - TotalNeeded(ts)
  {
    if ts != [] {
      var init := ts[..|ts| - 1];
      BucketLengths(init, values, size);
    }
  }

  const AllSizes: seq<DieSize> := [D4, D6, D8, D10, D12, D20, D100]

  /** The buckets of `sizes`, one after another. */
  function FlattenOver(b: Buckets, sizes: seq<DieSize>): seq<nat> {
    if sizes == [] then [] else Bucket(b, sizes[0]) + FlattenOver(b, sizes[1..])
  }

  /** Every bucket, in a fixed size order. */
  function Flatten(b: Buckets): seq<nat> {
    FlattenOver(b, AllSizes)
  }

  predicate DistinctSizeList(sizes: seq<DieSize>) {
    forall i, j | 0 <= i < j < |sizes| :: sizes[i] != sizes[j]
  }

  /** Appending `x` to one bucket adds exactly `x` to the flattened buckets. */
  lemma {:induction false} FlattenUpdate(b: Buckets, size: DieSize, x: seq<nat>, sizes: seq<DieSize>)
    requires DistinctSizeList(sizes)
    ensures multiset(FlattenOver(b[size := Bucket(b, size) + x], sizes))
      == multiset(FlattenOver(b, sizes)) + (if size in sizes then multiset(x) else multiset{})
  {
    if sizes != [] {
      var b' := b[size := Bucket(b, size) + x];
      var tail := sizes[1..];
      assert DistinctSizeList(tail);
      FlattenUpdate(b, size, x, tail);
      FlattenHead(b, sizes);
      FlattenHead(b', sizes);
      var rest := multiset(FlattenOver(b, tail));
      if size == sizes[0] {
        assert size !in tail;
        assert Bucket(b', size) == Bucket(b, size) + x;
        MultisetSwap(multiset(Bucket(b, size)), multiset(x), rest);
      } else {
        assert size in sizes <==> size in tail;
        MultisetSwap(multiset(Bucket(b, sizes[0])), rest, if size in tail then multiset(x) else multiset{});
      }
    }
  }

  lemma FlattenHead(b: Buckets, sizes: seq<DieSize>)
    requires sizes != []
    ensures multiset(FlattenOver(b, sizes)) == multiset(Bucket(b, sizes[0])) + multiset(FlattenOver(b, sizes[1..]))
  {
  }

  lemma MultisetSwap<T>(a: multiset<T>, b: multiset<T>, c: multiset<T>)
    ensures a + b + c == a + c + b && a + (b + c) == a + b + c
  {
  }

  /** Every size appears in `AllSizes`, once. */
  lemma AllSizesListed(d: DieSize)
    ensures d in AllSizes && DistinctSizeList(AllSizes)
  {
    forall i, j | 0 <= i < j < |AllSizes| ensures AllSizes[i] != AllSizes[j] {
      assert SizeText(AllSizes[i]) != SizeText(AllSizes[j]);
    }
  }

  lemma {:induction false} EmptyFlatten(sizes: seq<DieSize>)
    ensures FlattenOver(map[], sizes) == []
  {
    if sizes != [] {
      EmptyFlatten(sizes[1..]);
    }
  }

  /** Bucketing loses and duplicates no value: the buckets and the values
      left over hold exactly the provider's values. */
  lemma {:induction false} BucketsConserve(ts: seq<Term>, values: seq<nat>)
    requires AllWellFormed(ts)
    ensures multiset(Flatten(BucketsOf(ts, values).0)) + multiset(BucketsOf(ts, values).1) == multiset(values)
  {
    if ts == [] {
      assert Flatten(map[]) == [] by {
        EmptyFlatten(AllSizes);
      }
    } else {
      var init := ts[..|ts| - 1];
      BucketsConserve(init, values);
      var (b, rest) := BucketsOf(init, values);
      var t := ts[|ts| - 1];
      var n := DiceNeeded(t);
      AllSizesListed(t.size);
      FlattenUpdate(b, t.size, Take(rest, n), AllSizes);
      assert multiset(rest) == multiset(Take(rest, n)) + multiset(Drop(rest, n)) by {
        assert Take(rest, n) + Drop(rest, n) == rest;
      }
    }
  }

  /** The first loop of lines 438-450, against `BucketsOf`. */
  method BucketValues(ts: seq<Term>, values: seq<nat>) returns (b: Buckets, rest: seq<nat>)
    requires AllWellFormed(ts)
    ensures (b, rest) == BucketsOf(ts, values)
  {
    b := map[];
    rest := values;
    for i := 0 to |ts|
      invariant (b, rest) == BucketsOf(ts[..i], values)
    {
      assert ts[..i + 1][..i] == ts[..i];
      var t := ts[i];
      var n := DiceNeeded(t);
      var current := if t.size in b then b[t.size] else [];
      b := b[t.size := current + Take(rest, n)];
      rest := Drop(rest, n);
    }
    assert ts[..|ts|] == ts;
  }

  // ----- one pending term (lines 456-511) -----

  /** The first match of `/ro(<|<=|>|>=|=)\d+/` in `s` from `i` on. */
  function RerollRuleFrom(s: string, i: nat): (r: Option<Modifier>)
    requires i <= |s|
    ensures r.Some? ==> r.value.Reroll? && ModWellFormed(r.value)
    decreases |s| - i
  {
    if i + 2 > |s| then None
    else if OccursAt(s, "ro", i) && RerollAt(s, i + 2).Some? then RerollAt(s, i + 2)
    else RerollRuleFrom(s, i + 1)
  }

  /** The `map` of lines 483-490 over a reroll term's values. The comparison
      `value <op> threshold` is evaluated once per primary, so a missing rule
      or a threshold strict mode refuses (`ro<05`) only fails when there is
      a primary at all. */
  function ApplyReroll(text: string, share: seq<nat>): Option<seq<nat>> {
    if share == [] then Some([])
    else match RerollRuleFrom(text, 0)
      case None => None
      case Some(m) =>
        if StrictNumber(m.digits) then RollValues.Reroll(share, m.cmp, DigitsValue(m.digits)) else None
  }

  /** The state the second loop threads: the buckets not yet consumed, the
      expression being rewritten and the values used so far. */
  datatype Progress = Progress(buckets: Buckets, text: string, values: seq<nat>)

  /** One pending term: its bucket must exist (`slice` of `undefined`
      throws), it takes its next `count` values (twice that for `ro`), the
      reroll and keep rules apply, and its first occurrence in the text is
      replaced by the rendered values. */
  function TermStep(p: Progress, t: Term): Option<Progress>
    requires WellFormed(t)
  {
    if t.size !in p.buckets then None
    else
      var n := DiceNeeded(t);
      var pool := p.buckets[t.size];
      var share := Take(pool, n);
      var rolled := if HasReroll(t) then ApplyReroll(TermText(t), share) else Some(share);
      match rolled
      case None => None
      case Some(r) =>
        var kept := Keep(r, KeepPlanOf(TermText(t)));
        Some(Progress(p.buckets[t.size := Drop(pool, n)],
                      ReplaceFirst(p.text, TermText(t), Render(kept)),
                      p.values + kept))
  }

  /** The pending terms one after another. */
  function Substitute(start: Progress, ts: seq<Term>): Option<Progress>
    requires AllWellFormed(ts)
  {
    if ts == [] then Some(start)
    else match Substitute(start, ts[..|ts| - 1])
      case None => None
      case Some(p) => TermStep(p, ts[|ts| - 1])
  }

  lemma {:induction false} SubstituteFailureStays(start: Progress, ts: seq<Term>, k: nat)
    requires AllWellFormed(ts) && k <= |ts| && Substitute(start, ts[..k]).None?
    ensures Substitute(start, ts).None?
    decreases |ts| - k
  {
    if k < |ts| {
      assert ts[..k + 1][..k] == ts[..k];
      SubstituteFailureStays(start, ts, k + 1);
    } else {
      assert ts[..k] == ts;
    }
  }

  /** A term whose reroll rule exists and has a threshold strict mode
      accepts. */
  predicate RerollRuleOk(t: Term) {
    var r := RerollRuleFrom(TermText(t), 0);
    r.Some? && StrictNumber(r.value.digits)
  }

  /** Every bucket a term of `ts` draws from exists and holds at least what
      all terms of that size need. */
  predicate Stocked(b: Buckets, ts: seq<Term>)
    requires AllWellFormed(ts)
  {
    forall k | 0 <= k < |ts| :: ts[k].size in b && |b[ts[k].size]| >= NeededFor(ts, ts[k].size)
  }

  /** One term with enough values in its bucket and a readable reroll rule
      succeeds and consumes exactly its share. */
  lemma TermStepSucceeds(p: Progress, t: Term)
    requires WellFormed(t) && t.size in p.buckets && |p.buckets[t.size]| >= DiceNeeded(t)
    requires HasReroll(t) ==> RerollRuleOk(t)
    ensures TermStep(p, t).Some?
    ensures TermStep(p, t).value.buckets == p.buckets[t.size := Drop(p.buckets[t.size], DiceNeeded(t))]
    ensures |Drop(p.buckets[t.size], DiceNeeded(t))| == |p.buckets[t.size]| - DiceNeeded(t)
  {
    var n := DiceNeeded(t);
    var share := Take(p.buckets[t.size], n);
    assert |share| == n;
    if HasReroll(t) && share != [] {
      var m := RerollRuleFrom(TermText(t), 0).value;
      assert |share| % 2 == 0 by {
        RerollDoubles(t);
      }
      RerollEvenSucceeds(share, m.cmp, DigitsValue(m.digits));
    }
  }

  lemma RerollDoubles(t: Term)
    requires WellFormed(t) && HasReroll(t)
    ensures DiceNeeded(t) % 2 == 0
  {
  }

  lemma StockedPrefix(b: Buckets, ts: seq<Term>)
    requires ts != [] && AllWellFormed(ts) && Stocked(b, ts)
    ensures Stocked(b, ts[..|ts| - 1])
  {
    var init := ts[..|ts| - 1];
    forall k | 0 <= k < |init|
      ensures init[k].size in b && |b[init[k].size]| >= NeededFor(init, init[k].size)
    {
      assert init[k] == ts[k];
    }
  }

  /** With every bucket stocked and every reroll rule readable, each term
      gets its full share of values and the substitution succeeds; what is
      left of a bucket is its stock less what the terms took. */
  lemma {:induction false} SubstituteSucceeds(start: Progress, ts: seq<Term>)
    requires AllWellFormed(ts) && Stocked(start.buckets, ts)
    requires forall k | 0 <= k < |ts| && HasReroll(ts[k]) :: RerollRuleOk(ts[k])
    ensures Substitute(start, ts).Some?
    ensures Substitute(start, ts).value.buckets.Keys == start.buckets.Keys
    ensures forall size | size in start.buckets ::
      |Substitute(start, ts).value.buckets[size]| == |start.buckets[size]| - NeededFor(ts, size)
  {
    if ts != [] {
      var init := ts[..|ts| - 1];
      var t := ts[|ts| - 1];
      StockedPrefix(start.buckets, ts);
      assert forall k | 0 <= k < |init| && HasReroll(init[k]) :: RerollRuleOk(init[k]) by {
        forall k | 0 <= k < |init| && HasReroll(init[k]) ensures RerollRuleOk(init[k]) {
          assert init[k] == ts[k];
        }
      }
      SubstituteSucceeds(start, init);
      var p := Substitute(start, init).value;
      assert t.size in start.buckets && |start.buckets[t.size]| >= NeededFor(ts, t.size);
      TermStepSucceeds(p, t);
    }
  }

  /** The second loop of lines 455-511, against `Substitute`. */
  method SubstituteTerms(start: Progress, ts: seq<Term>) returns (r: Option<Progress>)
    requires AllWellFormed(ts)
    ensures r == Substitute(start, ts)
  {
    var buckets := start.buckets;
    var text := start.text;
    var values := start.values;
    for i := 0 to |ts|
      invariant Substitute(start, ts[..i]) == Some(Progress(buckets, text, values))
    {
      assert ts[..i + 1][..i] == ts[..i];
      var t := ts[i];
      if t.size !in buckets {
        SubstituteFailureStays(start, ts, i + 1);
        return None;
      }
      var n := DiceNeeded(t);
      var share := Take(buckets[t.size], n);
      var rolled := RollShare(t, share);
      if rolled.None? {
        SubstituteFailureStays(start, ts, i + 1);
        return None;
      }
      var kept := Keep(rolled.value, KeepPlanOf(TermText(t)));
      buckets := buckets[t.size := Drop(buckets[t.size], n)];
      text := ReplaceFirst(text, TermText(t), Render(kept));
      values := values + kept;
    }
    assert ts[..|ts|] == ts;
    return Some(Progress(buckets, text, values));
  }

  /** The reroll step of one term, with `shift()` on the reserves. */
  method RollShare(t: Term, share: seq<nat>) returns (r: Option<seq<nat>>)
    ensures r == if HasReroll(t) then ApplyReroll(TermText(t), share) else Some(share)
  {
    if !HasReroll(t) || share == [] {
      return Some(share);
    }
    var rule := RerollRuleFrom(TermText(t), 0);
    if rule.None? || !StrictNumber(rule.value.digits) {
      return None;
    }
    r := RerollValues(share, rule.value.cmp, DigitsValue(rule.value.digits));
  }

  // ----- one provider roll (lines 425-541) -----

  /** `if (rollType)`: a roll type is set and not empty. */
  predicate NonEmptyType(o: Option<string>) {
    o.Some? && o.value != ""
  }

  /** The fields lines 515-534 overwrite once the total is known: the
      pending notation and constant, the substituted text and its total, the
      kind of a plain advantage or disadvantage roll, and the provider's
      values kept for a simple roll. */
  function Relabel(r: ProviderRoll, req: DiceRolls.RollRequest, p: Progress, total: int): (out: ProviderRoll)
    ensures out.diceNotationStr == req.parsed.expression
    ensures out.notationConstant == out.result.constant == req.parsed.constant
    ensures out.result.text == p.text && out.result.total == total
    ensures IsAdvantage(req.parsed) ==> out.rollKind == "advantage"
    ensures IsDisadvantage(req.parsed) ==> out.rollKind == "disadvantage"
    ensures IsComplex(req.parsed) ==> out.result.values == p.values
    ensures !IsComplex(req.parsed) ==> out.result.values == r.result.values
    ensures NonEmptyType(req.rollType) ==> out.rollType == req.rollType.value
    ensures !NonEmptyType(req.rollType) ==> out.rollType == r.rollType
    ensures !IsAdvantage(req.parsed) && !IsDisadvantage(req.parsed) ==> out.rollKind == r.rollKind
  {
    var parsed := req.parsed;
    r.(diceNotationStr := parsed.expression,
       notationConstant := parsed.constant,
       rollType := if NonEmptyType(req.rollType) then req.rollType.value else r.rollType,
       rollKind := if IsAdvantage(parsed) then "advantage"
                   else if IsDisadvantage(parsed) then "disadvantage"
                   else r.rollKind,
       result := r.result.(
         constant := parsed.constant,
         text := p.text,
         total := total,
         values := if IsComplex(parsed) then p.values else r.result.values))
  }

  /** The substitution and the evaluation of one roll of the fulfilled
      message: no dice term in the provider's notation (`forEach` of
      `null`), a failed term or an expression that `Eval` does not read as
      an integer sum is a failure. On success, the final progress and the
      total. */
  function Evaluated(r: ProviderRoll, req: DiceRolls.RollRequest): (out: Option<(Progress, int)>)
    requires AllWellFormed(req.parsed.terms)
    ensures out.Some? ==> Eval(out.value.0.text) == Some(out.value.1)
  {
    var pts := Terms(r.diceNotationStr);
    if pts == [] then None
    else
      var b := BucketsOf(pts, r.result.values).0;
      match Substitute(Progress(b, req.parsed.expression, []), req.parsed.terms)
      case None => None
      case Some(p) =>
        match Eval(p.text)
        case None => None
        case Some(total) => Some((p, total))
  }

  /** One roll of the fulfilled message against the pending roll. A
      reconciled roll carries the pending notation and constant, a text that
      evaluates to its total, the dice values of the substitution when the
      expression is complex, and the kind of a plain advantage or
      disadvantage roll. */
  function ReconcileRoll(r: ProviderRoll, req: DiceRolls.RollRequest): (out: Option<ProviderRoll>)
    requires AllWellFormed(req.parsed.terms)
    ensures out.Some? ==> out.value.diceNotationStr == req.parsed.expression
    ensures out.Some? ==> out.value.notationConstant == out.value.result.constant == req.parsed.constant
    ensures out.Some? ==> Eval(out.value.result.text) == Some(out.value.result.total)
    ensures out.Some? && IsAdvantage(req.parsed) ==> out.value.rollKind == "advantage"
    ensures out.Some? && IsDisadvantage(req.parsed) ==> out.value.rollKind == "disadvantage"
    ensures out.Some? && !IsComplex(req.parsed) ==> out.value.result.values == r.result.values
    ensures out.Some? && IsComplex(req.parsed) ==>
      Evaluated(r, req).Some? && out.value.result.values == Evaluated(r, req).value.0.values
    ensures out.Some? && NonEmptyType(req.rollType) ==> out.value.rollType == req.rollType.value
    ensures out.Some? && !NonEmptyType(req.rollType) ==> out.value.rollType == r.rollType
    ensures out.Some? && !IsAdvantage(req.parsed) && !IsDisadvantage(req.parsed) ==> out.value.rollKind == r.rollKind
  {
    match Evaluated(r, req)
    case None => None
    case Some((p, total)) => Some(Relabel(r, req, p, total))
  }

  /** The body of the `forEach`, against `ReconcileRoll`. */
  method ReconcileOne(r: ProviderRoll, req: DiceRolls.RollRequest) returns (out: Option<ProviderRoll>)
    requires AllWellFormed(req.parsed.terms)
    ensures out == ReconcileRoll(r, req)
  {
    var pts := Terms(r.diceNotationStr);
    if pts == [] {
      return None;
    }
    var b, _ := BucketValues(pts, r.result.values);
    var p := SubstituteTerms(Progress(b, req.parsed.expression, []), req.parsed.terms);
    if p.None? {
      return None;
    }
    var total := Eval(p.value.text);
    if total.None? {
      return None;
    }
    return Some(Relabel(r, req, p.value, total.value));
  }

  /** The provider rolled at least what the pending roll needs: every size
      the pending terms use appears in the provider's notation with enough
      dice, the provider returned all its values, and every reroll rule is
      readable. Then no term fails, and the roll is reconciled unless the
      substituted expression itself is refused. */
  lemma ReconcileSucceeds(r: ProviderRoll, req: DiceRolls.RollRequest)
    requires AllWellFormed(req.parsed.terms)
    requires Terms(r.diceNotationStr) != []
    requires AllWellFormed(Terms(r.diceNotationStr))
    requires TotalNeeded(Terms(r.diceNotationStr)) <= |r.result.values|
    requires forall k | 0 <= k < |req.parsed.terms| ::
      SizeIn(Terms(r.diceNotationStr), req.parsed.terms[k].size)
      && NeededFor(Terms(r.diceNotationStr), req.parsed.terms[k].size)
         >= NeededFor(req.parsed.terms, req.parsed.terms[k].size)
    requires forall k | 0 <= k < |req.parsed.terms| && HasReroll(req.parsed.terms[k]) ::
      RerollRuleOk(req.parsed.terms[k])
    ensures var ts := req.parsed.terms;
      var b := BucketsOf(Terms(r.diceNotationStr), r.result.values).0;
      Substitute(Progress(b, req.parsed.expression, []), ts).Some?
      && (ReconcileRoll(r, req).None?
          <==> Eval(Substitute(Progress(b, req.parsed.expression, []), ts).value.text).None?)
  {
    var pts := Terms(r.diceNotationStr);
    var ts := req.parsed.terms;
    var b := BucketsOf(pts, r.result.values).0;
    forall k | 0 <= k < |ts| ensures ts[k].size in b && |b[ts[k].size]| >= NeededFor(ts, ts[k].size) {
      BucketKeys(pts, r.result.values, ts[k].size);
      BucketLengths(pts, r.result.values, ts[k].size);
    }
    SubstituteSucceeds(Progress(b, req.parsed.expression, []), ts);
  }

  // ----- the message (lines 419-423, 543-578) -----

  /** `message.data.context`. */
  datatype Context = Context(
    entityType: Option<string>,
    entityId: Option<string>,
    avatarUrl: Option<string>,
    name: Option<string>)

  /** `message.data`. */
  datatype MessageData = MessageData(
    rollId: Option<string>,
    action: Option<string>,
    context: Context,
    rolls: seq<ProviderRoll>)

  /** A message of the provider's message broker, with the two fields the
      metadata swap adds. */
  datatype Message = Message(
    eventType: string,
    entityType: Option<string>,
    entityId: Option<string>,
    avttExpression: Option<string>,
    avttExpressionResult: Option<string>,
    data: MessageData)

  /** `isValid`: a non-empty string. */
  predicate NonEmpty(o: Option<string>) {
    o.Some? && |o.value| > 0
  }

  /** `#swapDiceRollMetadata`: each field is overwritten only when the
      pending roll has a value for it. The swap never touches the event type,
      the roll id or the rolls, and every field it sets afterwards agrees with
      the pending roll. */
  function SwapMetadata(m: Message, req: DiceRolls.RollRequest, expressionResult: Option<string>): (out: Message)
    ensures out.eventType == m.eventType
    ensures out.data.rollId == m.data.rollId && out.data.rolls == m.data.rolls
    ensures IsComplex(req.parsed) ==> out.avttExpression == Some(req.parsed.expression)
    ensures !IsComplex(req.parsed) ==> out.avttExpression == m.avttExpression
    ensures req.entityId.Some? ==> out.entityId == out.data.context.entityId == req.entityId
    ensures req.entityId.None? ==> out.entityId == m.entityId && out.data.context.entityId == m.data.context.entityId
    ensures NonEmpty(req.action) ==> out.data.action == req.action
    ensures !NonEmpty(req.action) ==> out.data.action == m.data.action
    ensures NonEmpty(req.name) ==> out.data.context.name == req.name
    ensures !NonEmpty(req.name) ==> out.data.context.name == m.data.context.name
    ensures IsComplex(req.parsed) ==> out.avttExpressionResult == expressionResult
    ensures !IsComplex(req.parsed) ==> out.avttExpressionResult == m.avttExpressionResult
    ensures KnownEntityType(req.entityType) ==> out.entityType == out.data.context.entityType == req.entityType
    ensures !KnownEntityType(req.entityType) ==>
      out.entityType == m.entityType && out.data.context.entityType == m.data.context.entityType
    ensures NonEmpty(req.avatarUrl) ==> out.data.context.avatarUrl == req.avatarUrl
    ensures !NonEmpty(req.avatarUrl) ==> out.data.context.avatarUrl == m.data.context.avatarUrl
  {
    SwapDetails(SwapIdentity(m, req, expressionResult), req)
  }

  /** The entity types the swap copies. */
  predicate KnownEntityType(o: Option<string>) {
    o == Some("character") || o == Some("monster")
  }

  /** The expression, the entity type and the entity id (lines 552-567). */
  function SwapIdentity(m: Message, req: DiceRolls.RollRequest, expressionResult: Option<string>): (out: Message)
    ensures out.eventType == m.eventType && out.data.action == m.data.action
    ensures out.data.rollId == m.data.rollId && out.data.rolls == m.data.rolls
    ensures out.data.context.name == m.data.context.name && out.data.context.avatarUrl == m.data.context.avatarUrl
    ensures IsComplex(req.parsed) ==> out.avttExpression == Some(req.parsed.expression)
    ensures IsComplex(req.parsed) ==> out.avttExpressionResult == expressionResult
    ensures !IsComplex(req.parsed) ==> out.avttExpressionResult == m.avttExpressionResult
    ensures KnownEntityType(req.entityType) ==> out.entityType == out.data.context.entityType == req.entityType
    ensures !KnownEntityType(req.entityType) ==>
      out.entityType == m.entityType && out.data.context.entityType == m.data.context.entityType
    ensures !IsComplex(req.parsed) ==> out.avttExpression == m.avttExpression
    ensures req.entityId.Some? ==> out.entityId == out.data.context.entityId == req.entityId
    ensures req.entityId.None? ==> out.entityId == m.entityId && out.data.context.entityId == m.data.context.entityId
  {
    var m1 :=
      if IsComplex(req.parsed)
      then m.(avttExpression := Some(req.parsed.expression), avttExpressionResult := expressionResult)
      else m;
    var m2 :=
      if KnownEntityType(req.entityType)
      then m1.(entityType := req.entityType,
               data := m1.data.(context := m1.data.context.(entityType := req.entityType)))
      else m1;
    if req.entityId.Some?
    then m2.(entityId := req.entityId,
             data := m2.data.(context := m2.data.context.(entityId := req.entityId)))
    else m2
  }

  /** The action, the avatar and the name (lines 568-577). */
  function SwapDetails(m: Message, req: DiceRolls.RollRequest): (out: Message)
    ensures out.eventType == m.eventType && out.avttExpression == m.avttExpression
    ensures out.avttExpressionResult == m.avttExpressionResult
    ensures out.entityId == m.entityId && out.data.context.entityId == m.data.context.entityId
    ensures out.entityType == m.entityType && out.data.context.entityType == m.data.context.entityType
    ensures out.data.rollId == m.data.rollId && out.data.rolls == m.data.rolls
    ensures NonEmpty(req.action) ==> out.data.action == req.action
    ensures !NonEmpty(req.action) ==> out.data.action == m.data.action
    ensures NonEmpty(req.name) ==> out.data.context.name == req.name
    ensures !NonEmpty(req.name) ==> out.data.context.name == m.data.context.name
    ensures NonEmpty(req.avatarUrl) ==> out.data.context.avatarUrl == req.avatarUrl
    ensures !NonEmpty(req.avatarUrl) ==> out.data.context.avatarUrl == m.data.context.avatarUrl
  {
    var m4 := if NonEmpty(req.action) then m.(data := m.data.(action := req.action)) else m;
    var m5 :=
      if NonEmpty(req.avatarUrl)
      then m4.(data := m4.data.(context := m4.data.context.(avatarUrl := req.avatarUrl)))
      else m4;
    if NonEmpty(req.name)
    then m5.(data := m5.data.(context := m5.data.context.(name := req.name)))
    else m5
  }

  /** Swapping twice is swapping once. */
  lemma SwapMetadataIdempotent(m: Message, req: DiceRolls.RollRequest, x: Option<string>)
    ensures SwapMetadata(SwapMetadata(m, req, x), req, x) == SwapMetadata(m, req, x)
  {
  }

  // ----- all rolls of a message (lines 419-548) -----

  /** What reconciling each roll gives, in order. */
  function Outcomes(rs: seq<ProviderRoll>, req: DiceRolls.RollRequest): (os: seq<Option<ProviderRoll>>)
    requires AllWellFormed(req.parsed.terms)
    ensures |os| == |rs|
  {
    seq(|rs|, i requires 0 <= i < |rs| => ReconcileRoll(rs[i], req))
  }

  /** Every outcome a success, in order, or `None` as soon as one fails. */
  function Collect(os: seq<Option<ProviderRoll>>): (out: Option<seq<ProviderRoll>>)
    ensures out.Some? ==> |out.value| == |os|
  {
    if os == [] then Some([])
    else match os[0]
      case None => None
      case Some(x) =>
        match Collect(os[1..])
        case None => None
        case Some(t) => Some([x] + t)
  }

  /** `Collect` one more outcome at the end: the loop's step. */
  lemma {:induction false} CollectSnoc(os: seq<Option<ProviderRoll>>, o: Option<ProviderRoll>)
    ensures Collect(os + [o]).Some? <==> Collect(os).Some? && o.Some?
    ensures Collect(os + [o]).Some? ==> Collect(os + [o]).value == Collect(os).value + [o.value]
  {
    if os == [] {
      assert os + [o] == [o];
      assert [o][1..] == [];
    } else {
      assert (os + [o])[0] == os[0];
      assert (os + [o])[1..] == os[1..] + [o];
      CollectSnoc(os[1..], o);
      if Collect(os + [o]).Some? {
        assert Collect(os).value == [os[0].value] + Collect(os[1..]).value;
      }
    }
  }

  /** A failure among the first outcomes fails them all. */
  lemma {:induction false} CollectPrefix(os: seq<Option<ProviderRoll>>, more: seq<Option<ProviderRoll>>)
    requires Collect(os).None?
    ensures Collect(os + more).None?
  {
    assert os != [];
    assert (os + more)[0] == os[0];
    if os[0].Some? {
      assert (os + more)[1..] == os[1..] + more;
      CollectPrefix(os[1..], more);
    }
  }

  lemma SliceSnoc<T>(s: seq<T>, i: nat)
    requires i < |s|
    ensures s[..i + 1] == s[..i] + [s[i]]
  {
  }

  lemma SliceAll<T>(s: seq<T>)
    ensures s[..|s|] == s
  {
  }

  lemma SliceSplit<T>(s: seq<T>, i: nat)
    requires i <= |s|
    ensures s == s[..i] + s[i..]
  {
  }

  /** Every roll reconciled, in order, or `None` when one fails. */
  function ReconcileAll(rs: seq<ProviderRoll>, req: DiceRolls.RollRequest): Option<seq<ProviderRoll>>
    requires AllWellFormed(req.parsed.terms)
  {
    Collect(Outcomes(rs, req))
  }

  /** `pendingDiceRoll.expressionResult` after the loop: the text of the last
      roll, `undefined` when there is none. */
  function LastText(rs: seq<ProviderRoll>): Option<string> {
    if rs == [] then None else Some(rs[|rs| - 1].result.text)
  }

  /** The intended behaviour: all rolls reconciled and the metadata swapped,
      or, on any failure, the message exactly as it arrived. */
  function SwappedRolls(m: Message, req: DiceRolls.RollRequest): (out: Message)
    requires AllWellFormed(req.parsed.terms)
    ensures out == m || ReconcileAll(m.data.rolls, req).Some?
    ensures ReconcileAll(m.data.rolls, req).Some? ==> out.data.rolls == ReconcileAll(m.data.rolls, req).value
    ensures |out.data.rolls| == |m.data.rolls|
    ensures out.eventType == m.eventType && out.data.rollId == m.data.rollId
  {
    match ReconcileAll(m.data.rolls, req)
    case None => m
    case Some(rs) => SwapMetadata(m.(data := m.data.(rolls := rs)), req, LastText(rs))
  }

  /** The rolls as the code leaves them: each rewritten in place up to the
      first failure, the failing roll and those after it untouched. */
  function PartialSwap(rs: seq<ProviderRoll>, os: seq<Option<ProviderRoll>>): (out: seq<ProviderRoll>)
    requires |os| == |rs|
    ensures |out| == |rs|
  {
    if rs == [] then []
    else match os[0]
      case None => rs
      case Some(x) => [x] + PartialSwap(rs[1..], os[1..])
  }

  /** Without a failure the in-place rewrite is the full reconciliation. */
  lemma {:induction false} PartialSwapComplete(rs: seq<ProviderRoll>, os: seq<Option<ProviderRoll>>)
    requires |os| == |rs| && Collect(os).Some?
    ensures PartialSwap(rs, os) == Collect(os).value
  {
    if rs != [] {
      PartialSwapComplete(rs[1..], os[1..]);
    }
  }

  /** The code as written: `{ ...ddbMessage }` copies only the top level, so
      `alteredMessage.data.rolls` is the arriving message's own array, and
      the rolls reconciled before a failure stay rewritten in the message the
      `catch` returns; the metadata is not swapped. */
  function SwappedRollsAsWritten(m: Message, req: DiceRolls.RollRequest): Message
    requires AllWellFormed(req.parsed.terms)
  {
    match ReconcileAll(m.data.rolls, req)
    case Some(_) => SwappedRolls(m, req)
    case None => m.(data := m.data.(rolls := PartialSwap(m.data.rolls, Outcomes(m.data.rolls, req))))
  }

  /** The discrepancy: a first roll that reconciles to something new followed
      by a second roll that fails. The intended fallback returns the message
      as it arrived; the code returns it with the first roll rewritten. */
  lemma FallbackKeepsEarlierRolls(m: Message, req: DiceRolls.RollRequest)
    requires AllWellFormed(req.parsed.terms) && |m.data.rolls| >= 2
    requires ReconcileRoll(m.data.rolls[0], req).Some?
    requires m.data.rolls[0].diceNotationStr != req.parsed.expression
    requires ReconcileRoll(m.data.rolls[1], req).None?
    ensures SwappedRolls(m, req) == m
    ensures SwappedRollsAsWritten(m, req) != m
    ensures SwappedRollsAsWritten(m, req).data.rolls
      == [ReconcileRoll(m.data.rolls[0], req).value] + m.data.rolls[1..]
  {
    var rs := m.data.rolls;
    var os := Outcomes(rs, req);
    var x := ReconcileRoll(rs[0], req).value;
    assert os[0] == Some(x);
    assert os[1..][0] == os[1] == None;
    assert Collect(os[1..]).None?;
    assert PartialSwap(rs[1..], os[1..]) == rs[1..];
    assert x != rs[0];
  }

  /** A provider roll whose notation holds no dice term always fails, so such
      a roll in second place triggers the discrepancy above. */
  lemma NoProviderTermFails(r: ProviderRoll, req: DiceRolls.RollRequest)
    requires AllWellFormed(req.parsed.terms) && Terms(r.diceNotationStr) == []
    ensures ReconcileRoll(r, req).None?
  {
  }

  /** The loop over the rolls with the intended fallback, against
      `SwappedRolls`. */
  method SwapRollData(m: Message, req: DiceRolls.RollRequest) returns (out: Message)
    requires AllWellFormed(req.parsed.terms)
    ensures out == SwappedRolls(m, req)
  {
    var rolls := m.data.rolls;
    ghost var os := Outcomes(rolls, req);
    var done: seq<ProviderRoll> := [];
    var last: Option<string> := None;
    for i := 0 to |rolls|
      invariant Collect(os[..i]) == Some(done)
      invariant last == LastText(done)
    {
      var r := ReconcileOne(rolls[i], req);
      assert r == os[i];
      SliceSnoc(os, i);
      CollectSnoc(os[..i], os[i]);
      if r.None? {
        SliceSplit(os, i + 1);
        CollectPrefix(os[..i + 1], os[i + 1..]);
        assert ReconcileAll(rolls, req).None?;
        return m;
      }
      done := done + [r.value];
      last := Some(r.value.result.text);
    }
    SliceAll(os);
    assert Collect(os) == Some(done);
    out := SwapMetadata(m.(data := m.data.(rolls := done)), req, last);
  }
}
