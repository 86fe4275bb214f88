/** The arithmetic that DiceRoller.js hands to `eval`: the string of signed
    constants (line 163) and a dice expression with every term replaced by
    numbers (line 513). The evaluator reads exactly
      sum   := unary (('+' | '-') unary)*
      unary := ('+' | '-') unary | atom
      atom  := digits | '(' sum ')'
    and rejects `++` and `--` anywhere, which JavaScript reads as increment
    and decrement operators on a non-reference (a SyntaxError). Both calls
    are direct `eval`s made from class bodies, which are strict-mode code,
    so a literal of two or more digits that starts with `0` (`05`, `010`)
    is a SyntaxError too. The constant string holds only signed literals.
    The substituted expression may also hold a comparison the character set
    lets through (`15>10`) or be empty (a `kh0` term renders as nothing);
    JavaScript evaluates those to a boolean or `undefined`, and this
    evaluator refuses them. The third `eval`, the reroll comparison of
    line 484, is `DiceGrammar.CmpHolds`. */
module ArithEval {
  import opened Wrappers
  import opened TextUtil

  predicate IsSign(c: char) {
    c == '+' || c == '-'
  }

  /** A value together with the index just after the text that produced it. */
  datatype Parsed = Parsed(value: int, end: nat)

  function ParseSum(s: string, i: nat): (r: Option<Parsed>)
    requires i <= |s|
    ensures r.Some? ==> i < r.value.end <= |s|
    decreases |s| - i, 2
  {
    match ParseUnary(s, i)
    case None => None
    case Some(u) => ParseSumTail(s, u.end, u.value)
  }

  /** The `(('+' | '-') unary)*` loop, folding into `acc` from the left. */
  function ParseSumTail(s: string, j: nat, acc: int): (r: Option<Parsed>)
    requires j <= |s|
    ensures r.Some? ==> j <= r.value.end <= |s|
    decreases |s| - j, 2
  {
    if j < |s| && IsSign(s[j]) then
      match ParseUnary(s, j + 1)
      case None => None
      case Some(u) =>
        ParseSumTail(s, u.end, if s[j] == '+' then acc + u.value else acc - u.value)
    else Some(Parsed(acc, j))
  }

  function ParseUnary(s: string, i: nat): (r: Option<Parsed>)
    requires i <= |s|
    ensures r.Some? ==> i < r.value.end <= |s|
    decreases |s| - i, 1
  {
    if i < |s| && IsSign(s[i]) then
      match ParseUnary(s, i + 1)
      case None => None
      case Some(u) => Some(Parsed(if s[i] == '+' then u.value else -u.value, u.end))
    else ParseAtom(s, i)
  }

  function ParseAtom(s: string, i: nat): (r: Option<Parsed>)
    requires i <= |s|
    ensures r.Some? ==> i < r.value.end <= |s|
    decreases |s| - i, 0
  {
    if i < |s| && IsDigit(s[i]) then
      var n := DigitRun(s, i);
      if n > 1 && s[i] == '0' then None
      else Some(Parsed(DigitsValue(s[i..i + n]), i + n))
    else if i < |s| && s[i] == '(' then
      match ParseSum(s, i + 1)
      case None => None
      case Some(p) =>
        if p.end < |s| && s[p.end] == ')' then Some(Parsed(p.value, p.end + 1)) else None
    else None
  }

  /** `eval(s)` on the fragment above; `None` for every input JavaScript would
      reject or evaluate to something other than an integer (including the
      empty string, whose `eval` is `undefined`). */
  function Eval(s: string): Option<int> {
    if Contains(s, "++") || Contains(s, "--") then None
    else match ParseSum(s, 0)
      case Some(p) => if p.end == |s| then Some(p.value) else None
      case None => None
  }

  /** A signed literal such as `+4` or `-12`. */
  datatype Literal = Literal(negative: bool, digits: string)

  /** A decimal literal strict mode accepts: one digit, or no leading `0`. */
  predicate StrictNumber(d: string) {
    |d| > 0 && AllDigits(d) && (|d| == 1 || d[0] != '0')
  }

  /** What `[+\-]\d+` matches: a sign and at least one digit. */
  predicate LitShaped(l: Literal) {
    |l.digits| > 0 && AllDigits(l.digits)
  }

  predicate AllLitsShaped(ls: seq<Literal>) {
    forall k | 0 <= k < |ls| :: LitShaped(ls[k])
  }

  predicate LitWellFormed(l: Literal) {
    StrictNumber(l.digits)
  }

  predicate AllLitsWellFormed(ls: seq<Literal>) {
    forall k | 0 <= k < |ls| :: LitWellFormed(ls[k])
  }

  function LitText(l: Literal): string {
    [if l.negative then '-' else '+'] + l.digits
  }

  function LitValue(l: Literal): int
    requires LitShaped(l)
  {
    if l.negative then -(DigitsValue(l.digits) as int) else DigitsValue(l.digits)
  }

  /** The literals written one after another, as `reduce((a, b) => a + b)`
      concatenates them. */
  function Chain(ls: seq<Literal>): string {
    if ls == [] then "" else LitText(ls[0]) + Chain(ls[1..])
  }

  function ChainSum(ls: seq<Literal>): int
    requires AllLitsWellFormed(ls)
  {
    if ls == [] then 0 else LitValue(ls[0]) + ChainSum(ls[1..])
  }

  /** No two signs stand next to each other. */
  predicate NoDoubleSign(s: string) {
    forall k | 0 <= k < |s| - 1 :: !(IsSign(s[k]) && IsSign(s[k + 1]))
  }

  lemma NoDoubleSignConcat(a: string, b: string)
    requires NoDoubleSign(a) && NoDoubleSign(b)
    requires a == [] || b == [] || !IsSign(a[|a| - 1]) || !IsSign(b[0])
    ensures NoDoubleSign(a + b)
  {
    var s := a + b;
    forall k | 0 <= k < |s| - 1 ensures !(IsSign(s[k]) && IsSign(s[k + 1])) {
      if k + 1 < |a| {
        assert s[k] == a[k] && s[k + 1] == a[k + 1];
      } else if k + 1 == |a| {
        assert s[k] == a[|a| - 1] && s[k + 1] == b[0];
      } else {
        assert s[k] == b[k - |a|] && s[k + 1] == b[k - |a| + 1];
      }
    }
  }

  lemma NoDoubleSignNoIncrement(s: string)
    requires NoDoubleSign(s)
    ensures !Contains(s, "++") && !Contains(s, "--")
  {
    ContainsIff(s, "++");
    ContainsIff(s, "--");
    forall k: nat ensures !OccursAt(s, "++", k) && !OccursAt(s, "--", k) {
      if k + 2 <= |s| {
        assert s[k..k + 2][0] == s[k] && s[k..k + 2][1] == s[k + 1];
      }
    }
  }

  /** Every sign of a chain of literals is followed by a digit, its first
      character is a sign and its last one a digit. */
  lemma {:induction false} ChainShape(ls: seq<Literal>)
    requires AllLitsShaped(ls)
    ensures NoDoubleSign(Chain(ls))
    ensures ls != [] ==> IsSign(Chain(ls)[0]) && IsDigit(Chain(ls)[|Chain(ls)| - 1])
  {
    if ls != [] {
      var t := LitText(ls[0]);
      assert LitShaped(ls[0]);
      ChainShape(ls[1..]);
      assert NoDoubleSign(t) by {
        forall k | 0 <= k < |t| - 1 ensures !(IsSign(t[k]) && IsSign(t[k + 1])) {
          assert t[k + 1] == ls[0].digits[k];
        }
      }
      NoDoubleSignConcat(t, Chain(ls[1..]));
      assert t[|t| - 1] == ls[0].digits[|ls[0].digits| - 1];
      if ls[1..] != [] {
        assert Chain(ls)[|Chain(ls)| - 1] == Chain(ls[1..])[|Chain(ls[1..])| - 1];
      } else {
        assert Chain(ls) == t;
      }
    }
  }

  /** A non-empty chain opens with the sign of its first literal. */
  lemma ChainOpensWithSign(ls: seq<Literal>)
    requires ls != []
    ensures IsSign(Chain(ls)[0])
  {
    assert Chain(ls)[0] == LitText(ls[0])[0];
  }

  /** The characters that may follow a complete sum. */
  predicate Stops(s: string, e: nat) {
    e == |s| || (e < |s| && !IsSign(s[e]) && !IsDigit(s[e]))
  }

  /** The unsigned literal `d` at `i` evaluates to its value. */
  lemma AtomNumber(s: string, i: nat, d: string)
    requires StrictNumber(d) && OccursAt(s, d, i)
    requires i + |d| == |s| || !IsDigit(s[i + |d|])
    ensures ParseUnary(s, i) == Some(Parsed(DigitsValue(d), i + |d|))
  {
    assert s[i] == d[0];
    DigitRunAt(s, i, d);
  }

  /** One signed literal at `j` is folded into `acc`. */
  lemma LitStep(s: string, j: nat, acc: int, l: Literal)
    requires LitWellFormed(l) && OccursAt(s, LitText(l), j)
    requires j + |LitText(l)| == |s| || !IsDigit(s[j + |LitText(l)|])
    ensures ParseSumTail(s, j, acc)
      == ParseSumTail(s, j + |LitText(l)|, if l.negative then acc - DigitsValue(l.digits) else acc + DigitsValue(l.digits))
  {
    SplitOccurs(s, [LitText(l)[0]], l.digits, j);
    assert s[j] == LitText(l)[0];
    AtomNumber(s, j + 1, l.digits);
  }

  lemma TailStop(s: string, j: nat, acc: int)
    requires j <= |s| && Stops(s, j)
    ensures ParseSumTail(s, j, acc) == Some(Parsed(acc, j))
  {
  }

  /** The first literal of a chain at `j` is folded into `acc`. */
  lemma ChainHead(s: string, j: nat, acc: int, ls: seq<Literal>)
    requires ls != [] && LitWellFormed(ls[0]) && AllLitsShaped(ls)
    requires OccursAt(s, Chain(ls), j) && Stops(s, j + |Chain(ls)|)
    ensures OccursAt(s, Chain(ls[1..]), j + |LitText(ls[0])|)
    ensures ParseSumTail(s, j, acc) == ParseSumTail(s, j + |LitText(ls[0])|, acc + LitValue(ls[0]))
  {
    var l := ls[0];
    var rest := Chain(ls[1..]);
    var e := j + |LitText(l)|;
    SplitOccurs(s, LitText(l), rest, j);
    if rest != [] {
      ChainOpensWithSign(ls[1..]);
      assert s[e] == rest[0];
    }
    LitStep(s, j, acc, l);
  }

  /** A chain of literals at `j` is folded into `acc` one literal at a time. */
  lemma {:induction false} TailChain(s: string, j: nat, acc: int, ls: seq<Literal>)
    requires AllLitsWellFormed(ls)
    requires OccursAt(s, Chain(ls), j) && Stops(s, j + |Chain(ls)|)
    ensures ParseSumTail(s, j, acc) == Some(Parsed(acc + ChainSum(ls), j + |Chain(ls)|))
    decreases |ls|
  {
    if ls != [] {
      assert LitWellFormed(ls[0]);
      assert ChainSum(ls) == LitValue(ls[0]) + ChainSum(ls[1..]);
      assert |Chain(ls)| == |LitText(ls[0])| + |Chain(ls[1..])|;
      ChainHead(s, j, acc, ls);
      TailChain(s, j + |LitText(ls[0])|, acc + LitValue(ls[0]), ls[1..]);
    } else {
      TailStop(s, j, acc);
    }
  }

  /** A literal such as `+05` at `j` makes the sum fail. */
  lemma BadLitFails(s: string, j: nat, acc: int, l: Literal)
    requires LitShaped(l) && !LitWellFormed(l) && OccursAt(s, LitText(l), j)
    ensures ParseSumTail(s, j, acc).None?
    ensures ParseUnary(s, j).None?
  {
    SplitOccurs(s, [LitText(l)[0]], l.digits, j);
    assert IsSign(s[j]) by {
      assert s[j] == LitText(l)[0];
    }
    assert s[j + 1] == '0' && IsDigit(s[j + 2]) by {
      assert l.digits[0] == s[j + 1] && l.digits[1] == s[j + 2];
    }
    assert DigitRun(s, j + 1) > 1;
    assert ParseAtom(s, j + 1).None?;
    assert ParseUnary(s, j + 1).None?;
  }

  /** A chain in which some literal has a leading zero fails to evaluate
      past the literals before it. */
  lemma {:induction false} TailChainFails(s: string, j: nat, acc: int, ls: seq<Literal>)
    requires AllLitsShaped(ls) && !AllLitsWellFormed(ls)
    requires OccursAt(s, Chain(ls), j) && Stops(s, j + |Chain(ls)|)
    ensures ParseSumTail(s, j, acc).None?
    decreases |ls|
  {
    assert ls != [];
    if LitWellFormed(ls[0]) {
      ChainHead(s, j, acc, ls);
      assert !AllLitsWellFormed(ls[1..]) by {
        forall k | 0 <= k < |ls| && k > 0 ensures LitWellFormed(ls[k]) ==> LitWellFormed(ls[1..][k - 1]) {
        }
      }
      TailChainFails(s, j + |LitText(ls[0])|, acc + LitValue(ls[0]), ls[1..]);
    } else {
      SplitOccurs(s, LitText(ls[0]), Chain(ls[1..]), j);
      BadLitFails(s, j, acc, ls[0]);
    }
  }

  /** A signed literal read as a unary expression. */
  lemma UnaryLit(s: string, j: nat, l: Literal)
    requires LitWellFormed(l) && OccursAt(s, LitText(l), j)
    requires j + |LitText(l)| == |s| || !IsDigit(s[j + |LitText(l)|])
    ensures ParseUnary(s, j) == Some(Parsed(LitValue(l), j + |LitText(l)|))
  {
    SplitOccurs(s, [LitText(l)[0]], l.digits, j);
    assert s[j] == LitText(l)[0];
    AtomNumber(s, j + 1, l.digits);
  }

  /** The signed-constant string `+a-b+c…` evaluates to the sum of its
      literals. */
  lemma EvalChain(ls: seq<Literal>)
    requires ls != [] && AllLitsWellFormed(ls)
    ensures Eval(Chain(ls)) == Some(ChainSum(ls))
  {
    var s := Chain(ls);
    var l := ls[0];
    assert LitWellFormed(l);
    var rest := Chain(ls[1..]);
    var e := |LitText(l)|;
    assert !Contains(s, "++") && !Contains(s, "--") by {
      ChainShape(ls);
      NoDoubleSignNoIncrement(s);
    }
    assert OccursAt(s, rest, e) && Stops(s, e + |rest|) by {
      assert OccursAt(s, LitText(l) + rest, 0);
      SplitOccurs(s, LitText(l), rest, 0);
    }
    assert ParseUnary(s, 0) == Some(Parsed(LitValue(l), e)) by {
      assert OccursAt(s, LitText(l) + rest, 0);
      SplitOccurs(s, LitText(l), rest, 0);
      if rest != [] {
        ChainOpensWithSign(ls[1..]);
        assert s[e] == rest[0];
      }
      UnaryLit(s, 0, l);
    }
    UnaryThenChain(s, 0, LitValue(l), e, ls[1..]);
  }

  /** A signed-constant string with a literal such as `+05` in it is a
      SyntaxError. */
  lemma EvalChainFails(ls: seq<Literal>)
    requires AllLitsShaped(ls) && !AllLitsWellFormed(ls)
    ensures Eval(Chain(ls)).None?
  {
    var s := Chain(ls);
    assert OccursAt(s, s, 0);
    ChainShape(ls);
    SignedSumIsTail(s, 0);
    TailChainFails(s, 0, 0, ls);
  }

  /** A sum that opens with a sign reads the same as the sign loop started
      from zero. */
  lemma SignedSumIsTail(s: string, i: nat)
    requires i < |s| && IsSign(s[i])
    ensures ParseSum(s, i) == ParseSumTail(s, i, 0)
  {
  }

  /** `d+…` (an unsigned literal followed by a chain) at `i` evaluates to its
      sum. */
  lemma SumFromNumber(s: string, i: nat, d: string, ls: seq<Literal>)
    requires StrictNumber(d) && AllLitsWellFormed(ls)
    requires OccursAt(s, d + Chain(ls), i) && Stops(s, i + |d| + |Chain(ls)|)
    ensures ParseSum(s, i) == Some(Parsed(DigitsValue(d) + ChainSum(ls), i + |d| + |Chain(ls)|))
  {
    NumberBeforeChain(s, i, d, ls);
    UnaryThenChain(s, i, DigitsValue(d), i + |d|, ls);
  }

  /** The unsigned literal in front of a chain is read as one operand and
      the chain follows it. */
  lemma NumberBeforeChain(s: string, i: nat, d: string, ls: seq<Literal>)
    requires StrictNumber(d) && OccursAt(s, d + Chain(ls), i)
    requires Stops(s, i + |d| + |Chain(ls)|)
    ensures ParseUnary(s, i) == Some(Parsed(DigitsValue(d), i + |d|))
    ensures OccursAt(s, Chain(ls), i + |d|)
  {
    var rest := Chain(ls);
    var e := i + |d|;
    SplitOccurs(s, d, rest, i);
    assert e == |s| || !IsDigit(s[e]) by {
      if rest != [] {
        ChainOpensWithSign(ls);
        assert s[e] == rest[0];
      }
    }
    AtomNumber(s, i, d);
  }

  /** A unary operand followed by a chain of literals sums to the operand
      plus the chain. */
  lemma UnaryThenChain(s: string, i: nat, v: int, e: nat, ls: seq<Literal>)
    requires i <= |s| && ParseUnary(s, i) == Some(Parsed(v, e)) && AllLitsWellFormed(ls)
    requires OccursAt(s, Chain(ls), e) && Stops(s, e + |Chain(ls)|)
    ensures ParseSum(s, i) == Some(Parsed(v + ChainSum(ls), e + |Chain(ls)|))
  {
    SumThenTail(s, i, Parsed(v, e));
    TailChain(s, e, v, ls);
  }

  lemma DigitsNoDoubleSign(d: string)
    requires AllDigits(d)
    ensures NoDoubleSign(d)
  {
    forall k | 0 <= k < |d| - 1 ensures !(IsSign(d[k]) && IsSign(d[k + 1])) {
      assert IsDigit(d[k]);
    }
  }

  /** A number followed by a chain, such as `3+4+1`, evaluates to its sum. */
  lemma EvalNumberChain(d: string, ls: seq<Literal>)
    requires StrictNumber(d) && AllLitsWellFormed(ls)
    ensures Eval(d + Chain(ls)) == Some(DigitsValue(d) + ChainSum(ls))
  {
    var s := d + Chain(ls);
    assert !Contains(s, "++") && !Contains(s, "--") by {
      DigitsNoDoubleSign(d);
      ChainShape(ls);
      NoDoubleSignConcat(d, Chain(ls));
      NoDoubleSignNoIncrement(s);
    }
    assert OccursAt(s, s, 0);
    SumFromNumber(s, 0, d, ls);
  }

  lemma ParenAtom(s: string, i: nat, p: Parsed, q: Parsed)
    requires i < |s| && s[i] == '(' && ParseSum(s, i + 1) == Some(p)
    requires p.end < |s| && s[p.end] == ')' && q == Parsed(p.value, p.end + 1)
    ensures ParseUnary(s, i) == Some(q)
  {
    assert ParseAtom(s, i) == Some(q);
  }

  /** A sum reads its first unary operand, then the sign loop. */
  lemma SumThenTail(s: string, i: nat, u: Parsed)
    requires i <= |s| && ParseUnary(s, i) == Some(u)
    ensures ParseSum(s, i) == ParseSumTail(s, u.end, u.value)
  {
  }

  lemma SumOfUnary(s: string, i: nat, u: Parsed)
    requires i <= |s| && ParseUnary(s, i) == Some(u) && Stops(s, u.end)
    ensures ParseSum(s, i) == Some(u)
  {
    TailStop(s, u.end, u.value);
  }

  lemma EvalWhole(s: string, v: int)
    requires !Contains(s, "++") && !Contains(s, "--")
    requires ParseSum(s, 0) == Some(Parsed(v, |s|))
    ensures Eval(s) == Some(v)
  {
  }

  lemma ParenParseAt(s: string, d: string, ls: seq<Literal>)
    requires StrictNumber(d) && AllLitsWellFormed(ls)
    requires |s| == |d| + |Chain(ls)| + 2 && s[0] == '(' && s[|s| - 1] == ')'
    requires OccursAt(s, d + Chain(ls), 1)
    ensures ParseSum(s, 0) == Some(Parsed(DigitsValue(d) + ChainSum(ls), |s|))
  {
    var v := DigitsValue(d) + ChainSum(ls);
    var inner := Parsed(v, |s| - 1);
    SumFromNumber(s, 1, d, ls);
    assert ParseSum(s, 1) == Some(inner);
    var whole := Parsed(v, |s|);
    ParenAtom(s, 0, inner, whole);
    SumOfUnary(s, 0, whole);
  }

  lemma EvalParenAt(s: string, d: string, ls: seq<Literal>)
    requires StrictNumber(d) && AllLitsWellFormed(ls)
    requires |s| == |d| + |Chain(ls)| + 2 && s[0] == '(' && s[|s| - 1] == ')'
    requires OccursAt(s, d + Chain(ls), 1)
    ensures Eval(s) == Some(DigitsValue(d) + ChainSum(ls))
  {
    var x := d + Chain(ls);
    assert NoDoubleSign(s) by {
      DigitsNoDoubleSign(d);
      ChainShape(ls);
      NoDoubleSignConcat(d, Chain(ls));
      forall k | 0 <= k < |s| - 1 ensures !(IsSign(s[k]) && IsSign(s[k + 1])) {
        if 1 <= k && k + 1 < |s| - 1 {
          assert s[k] == x[k - 1] && s[k + 1] == x[k];
        }
      }
    }
    NoDoubleSignNoIncrement(s);
    ParenParseAt(s, d, ls);
    EvalWhole(s, DigitsValue(d) + ChainSum(ls));
  }

  /** The same sum in parentheses, such as `(3+4+1)`. */
  lemma EvalParenChain(d: string, ls: seq<Literal>)
    requires StrictNumber(d) && AllLitsWellFormed(ls)
    ensures Eval("(" + d + Chain(ls) + ")") == Some(DigitsValue(d) + ChainSum(ls))
  {
    var s := "(" + d + Chain(ls) + ")";
    assert s[1..1 + |d + Chain(ls)|] == d + Chain(ls);
    EvalParenAt(s, d, ls);
  }
}
