/** What the `DiceRoll` constructor of DiceRoller.js (lines 128-184) derives
    from an expression, and the `isComplex`/`isAdvantage`/`isDisadvantage`
    classification of the result (lines 81-115). */
module DiceParse {
  import opened Wrappers
  import opened TextUtil
  import opened DiceGrammar
  import opened ArithEval

  /** The first two rejections throw the same "Invalid Expression" in the
      source, the model keeps the reasons apart; the third is the
      SyntaxError that `eval` of the constants throws through the
      constructor. */
  datatype ParseError = InvalidCharacter | NoDiceTerms | ConstantSyntaxError

  /** One `diceToRoll` entry: the key `dN` and the number of dice. */
  datatype DiceCount = DiceCount(size: DieSize, count: nat)

  /** The read-only part of a constructed `DiceRoll`. */
  datatype ParsedExpression = ParsedExpression(
    expression: string,
    terms: seq<Term>,
    constant: int,
    diceToRoll: seq<DiceCount>)

  /** `diceExpression.includes("ro")`: a term whose dice are doubled. */
  predicate HasReroll(t: Term) {
    Contains(TermText(t), "ro")
  }

  /** `parseInt(diceExpression.split("d")[0])`, doubled for a reroll term. */
  function DiceNeeded(t: Term): nat
    requires WellFormed(t)
  {
    var n := DigitsValue(t.countDigits);
    if HasReroll(t) then 2 * n else n
  }

  /** Adds `n` dice of `size`, keeping the keys in first-seen order. */
  function AddDice(acc: seq<DiceCount>, size: DieSize, n: nat): (r: seq<DiceCount>)
    ensures |r| == |acc| || |r| == |acc| + 1
  {
    if acc == [] then [DiceCount(size, n)]
    else if acc[0].size == size then [DiceCount(size, acc[0].count + n)] + acc[1..]
    else [acc[0]] + AddDice(acc[1..], size, n)
  }

  /** The `diceToRoll` object after the terms of `ts`, in order. */
  function DiceToRoll(ts: seq<Term>): seq<DiceCount>
    requires forall k | 0 <= k < |ts| :: WellFormed(ts[k])
  {
    if ts == [] then []
    else AddDice(DiceToRoll(ts[..|ts| - 1]), ts[|ts| - 1].size, DiceNeeded(ts[|ts| - 1]))
  }

  /** The entry for `size`, or 0 when the key is absent. */
  function CountFor(dice: seq<DiceCount>, size: DieSize): nat {
    if dice == [] then 0
    else if dice[0].size == size then dice[0].count
    else CountFor(dice[1..], size)
  }

  predicate DistinctSizes(dice: seq<DiceCount>) {
    forall i, j | 0 <= i < j < |dice| :: dice[i].size != dice[j].size
  }

  /** The dice that the terms of `ts` of the given size need, added up. */
  function NeededFor(ts: seq<Term>, size: DieSize): nat
    requires forall k | 0 <= k < |ts| :: WellFormed(ts[k])
  {
    if ts == [] then 0
    else
      var last := ts[|ts| - 1];
      NeededFor(ts[..|ts| - 1], size) + (if last.size == size then DiceNeeded(last) else 0)
  }

  lemma {:induction false} AddDiceCounts(acc: seq<DiceCount>, size: DieSize, n: nat, other: DieSize)
    requires DistinctSizes(acc)
    ensures DistinctSizes(AddDice(acc, size, n))
    ensures CountFor(AddDice(acc, size, n), other)
      == CountFor(acc, other) + (if other == size then n else 0)
  {
    if acc != [] && acc[0].size != size {
      AddDiceCounts(acc[1..], size, n, other);
      var r := AddDice(acc, size, n);
      assert r == [acc[0]] + AddDice(acc[1..], size, n);
      forall j | 0 < j < |r| ensures r[j].size != acc[0].size {
        if r[j].size == acc[0].size {
          AddDiceKeys(acc[1..], size, n, j - 1);
        }
      }
    }
  }

  /** Every key of the extended list was already a key or is `size`. */
  lemma {:induction false} AddDiceKeys(acc: seq<DiceCount>, size: DieSize, n: nat, j: nat)
    requires j < |AddDice(acc, size, n)|
    ensures AddDice(acc, size, n)[j].size == size
      || exists k | 0 <= k < |acc| :: acc[k].size == AddDice(acc, size, n)[j].size
  {
    if acc != [] && acc[0].size != size && j > 0 {
      AddDiceKeys(acc[1..], size, n, j - 1);
      var k :| (0 <= k < |acc[1..]| && acc[1..][k].size == AddDice(acc[1..], size, n)[j - 1].size)
        || AddDice(acc[1..], size, n)[j - 1].size == size;
      if AddDice(acc[1..], size, n)[j - 1].size != size {
        assert acc[k + 1].size == AddDice(acc, size, n)[j].size;
      }
    } else if acc != [] && j > 0 {
      assert AddDice(acc, size, n)[j] == acc[j];
    }
  }

  /** `diceToRoll["dN"]` is the number of dice all terms of size N need, a
      reroll term counting twice; each key appears once. */
  lemma {:induction false} DiceToRollCounts(ts: seq<Term>, size: DieSize)
    requires forall k | 0 <= k < |ts| :: WellFormed(ts[k])
    ensures DistinctSizes(DiceToRoll(ts))
    ensures CountFor(DiceToRoll(ts), size) == NeededFor(ts, size)
  {
    if ts != [] {
      var init := ts[..|ts| - 1];
      DiceToRollCounts(init, size);
      AddDiceCounts(DiceToRoll(init), ts[|ts| - 1].size, DiceNeeded(ts[|ts| - 1]), size);
    }
  }

  /** Deleting the first occurrence of each term, one after another. */
  function StripTerms(e: string, ts: seq<Term>): string {
    if ts == [] then e
    else ReplaceFirst(StripTerms(e, ts[..|ts| - 1]), TermText(ts[|ts| - 1]), "")
  }

  /** The matches of `/[+\-]\d+/g`, left to right. */
  function SignedLiterals(s: string): (ls: seq<Literal>)
    ensures AllLitsShaped(ls)
  {
    if s == [] then []
    else if IsSign(s[0]) && DigitRun(s, 1) > 0 then
      var n := DigitRun(s, 1);
      [Literal(s[0] == '-', s[1..1 + n])] + SignedLiterals(s[1 + n..])
    else SignedLiterals(s[1..])
  }

  /** `calculatedConstant` (lines 155-167): the literals are concatenated and
      the string evaluated; nothing found leaves the constant at 0, and
      `None` is an `eval` that throws. */
  function ConstantOf(s: string): Option<int> {
    var ls := SignedLiterals(s);
    if ls == [] then Some(0) else Eval(Chain(ls))
  }

  /** The constant is the sum of the signed literals, 0 when there is none;
      it fails exactly when one of them has a leading zero. */
  lemma ConstantIsSum(s: string)
    ensures ConstantOf(s).Some? <==> AllLitsWellFormed(SignedLiterals(s))
    ensures ConstantOf(s).Some? ==> ConstantOf(s).value == ChainSum(SignedLiterals(s))
  {
    var ls := SignedLiterals(s);
    if ls != [] {
      if AllLitsWellFormed(ls) {
        EvalChain(ls);
      } else {
        EvalChainFails(ls);
      }
    }
  }

  /** Digits at the very start carry no sign and are not a literal, so the
      `1` of `1-1d4` adds nothing. */
  lemma {:induction false} LeadingDigitsIgnored(d: string, rest: string)
    requires AllDigits(d)
    ensures SignedLiterals(d + rest) == SignedLiterals(rest)
    ensures ConstantOf(d + rest) == ConstantOf(rest)
  {
    if d == [] {
      assert d + rest == rest;
    } else {
      assert (d + rest)[1..] == d[1..] + rest;
      assert !IsSign((d + rest)[0]) by { assert (d + rest)[0] == d[0]; }
      LeadingDigitsIgnored(d[1..], rest);
    }
  }

  predicate AllWellFormed(ts: seq<Term>) {
    forall k | 0 <= k < |ts| :: WellFormed(ts[k])
  }

  /** The constructor's derivation, as a whole. */
  function Parse(e: string): (r: Result<ParsedExpression, ParseError>)
    ensures r.Ok? ==> r.value.terms != [] && AllWellFormed(r.value.terms)
    ensures r.Ok? ==> ValidCharset(r.value.expression)
  {
    var s := StripWhitespace(e);
    if !ValidCharset(s) then Err(InvalidCharacter)
    else
      var ts := Terms(s);
      if ts == [] then Err(NoDiceTerms)
      else
        match ConstantOf(StripTerms(s, ts))
        case None => Err(ConstantSyntaxError)
        case Some(c) =>
          Ok(ParsedExpression(s, ts, c, DiceToRoll(ts)))
  }

  /** The constant of a parsed expression is the sum of the signed literals
      left once its terms are deleted, none of them with a leading zero. */
  lemma ParseConstant(e: string)
    requires Parse(e).Ok?
    ensures var p := Parse(e).value;
      var ls := SignedLiterals(StripTerms(p.expression, p.terms));
      AllLitsWellFormed(ls) && p.constant == ChainSum(ls)
  {
    var p := Parse(e).value;
    ConstantIsSum(StripTerms(p.expression, p.terms));
  }

  /** The constructor's two `forEach` loops, against `Parse`. */
  method ParseExpression(e: string) returns (r: Result<ParsedExpression, ParseError>)
    ensures r == Parse(e)
  {
    var s := StripWhitespace(e);
    if !ValidCharset(s) {
      return Err(InvalidCharacter);
    }
    var ts := Terms(s);
    if ts == [] {
      return Err(NoDiceTerms);
    }
    var stripped := StripAll(s, ts);
    var constant := ConstantOf(stripped);
    if constant.None? {
      return Err(ConstantSyntaxError);
    }
    var dice := CountDice(ts);
    return Ok(ParsedExpression(s, ts, constant.value, dice));
  }

  /** `strippedExpression = strippedExpression.replace(diceExpression, "")`
      for each term in turn. */
  method StripAll(s: string, ts: seq<Term>) returns (stripped: string)
    ensures stripped == StripTerms(s, ts)
  {
    stripped := s;
    for i := 0 to |ts|
      invariant stripped == StripTerms(s, ts[..i])
    {
      assert ts[..i + 1][..i] == ts[..i];
      stripped := ReplaceFirst(stripped, TermText(ts[i]), "");
    }
    assert ts[..|ts|] == ts;
  }

  /** The `#separatedDiceToRoll` loop. */
  method CountDice(ts: seq<Term>) returns (dice: seq<DiceCount>)
    requires AllWellFormed(ts)
    ensures dice == DiceToRoll(ts)
  {
    dice := [];
    for i := 0 to |ts|
      invariant dice == DiceToRoll(ts[..i])
    {
      assert ts[..i + 1][..i] == ts[..i];
      dice := AddDice(dice, ts[i].size, DiceNeeded(ts[i]));
    }
    assert ts[..|ts|] == ts;
  }

  /** Whitespace and everything outside `d k h l r o < = > + - ( )` and the
      digits is refused, and so is an expression without a dice term and one
      whose constants, once the terms are deleted, include a literal with a
      leading zero. */
  lemma ParseRejects(e: string)
    ensures Parse(e) == Err(InvalidCharacter) <==> !ValidCharset(StripWhitespace(e))
    ensures Parse(e) == Err(NoDiceTerms)
      <==> ValidCharset(StripWhitespace(e)) && Terms(StripWhitespace(e)) == []
    ensures var s := StripWhitespace(e);
      Parse(e) == Err(ConstantSyntaxError)
      <==> ValidCharset(s) && Terms(s) != [] && !AllLitsWellFormed(SignedLiterals(StripTerms(s, Terms(s))))
  {
    var s := StripWhitespace(e);
    ConstantIsSum(StripTerms(s, Terms(s)));
  }

  /** No `d`, no dice term. */
  lemma NoDieNoTerms(s: string)
    requires 'd' !in s
    ensures Terms(s) == []
  {
    if Scan(s, 0) != [] {
      DieOfTerm(s, Scan(s, 0)[0]);
    }
  }

  lemma DieOfTerm(s: string, l: Lexeme)
    requires OccursAt(s, TermText(l.term), l.start)
    ensures 'd' in s
  {
    var k := l.start + |l.term.countDigits|;
    assert TermText(l.term)[|l.term.countDigits|] == 'd';
    assert s[k] == 'd';
  }

  /** A successful parse keeps the stripped text and rereading it gives the
      same result: the copy `roll` makes of a `DiceRoll` never throws. */
  lemma ParseIdempotent(e: string)
    requires Parse(e).Ok?
    ensures Parse(Parse(e).value.expression) == Parse(e)
  {
    StripWhitespaceIdle(StripWhitespace(e));
  }

  // ----- classification (lines 81-115) -----

  /** The number of matches of `/p\d+/g` in `s` from `i` on. */
  function KeepMatches(s: string, p: string, i: nat): nat
    requires |p| > 0
    decreases |s| - i
  {
    if i >= |s| then 0
    else if OccursAt(s, p, i) && DigitRun(s, i + |p|) > 0 then
      1 + KeepMatches(s, p, i + |p| + DigitRun(s, i + |p|))
    else KeepMatches(s, p, i + 1)
  }

  /** More than one `kh` (or `kl`) match, or a single one not ending the
      term as `kh1` (`kl1`). */
  predicate KeepIrregular(text: string, p: string, single: string)
    requires |p| > 0
  {
    var n := KeepMatches(text, p, 0);
    n > 1 || (n == 1 && !EndsWith(text, single))
  }

  /** A roll the receiving side would misread: several terms, a reroll, a
      term not at the start, or a keep modifier other than a single final
      `kh1` or `kl1`. A simple roll is one term with no reroll. */
  predicate IsComplex(p: ParsedExpression): (r: bool)
    ensures |p.terms| != 1 ==> r
    ensures !r ==> !HasReroll(p.terms[0])
  {
    if |p.terms| != 1 || Contains(p.expression, "ro") || IndexOf(p.expression, TermText(p.terms[0])) != Some(0)
    then true
    else
      RerollInTerm(p.expression, p.terms[0]);
      KeepIrregular(TermText(p.terms[0]), "kh", "kh1") || KeepIrregular(TermText(p.terms[0]), "kl", "kl1")
  }

  /** Advantage: a simple roll of `2d` whose term keeps the highest one;
      never also disadvantage. */
  predicate IsAdvantage(p: ParsedExpression): (r: bool)
    ensures r ==> |p.terms| == 1 && !HasReroll(p.terms[0]) && !IsDisadvantage(p)
  {
    !IsComplex(p) && StartsWith(p.expression, "2d") && EndsWith(TermText(p.terms[0]), "kh1")
  }

  /** Disadvantage: a simple roll of `2d` whose term keeps the lowest one. */
  predicate IsDisadvantage(p: ParsedExpression): (r: bool)
    ensures r ==> |p.terms| == 1 && !HasReroll(p.terms[0]) && !EndsWith(TermText(p.terms[0]), "kh1")
  {
    !IsComplex(p) && StartsWith(p.expression, "2d") && EndsWith(TermText(p.terms[0]), "kl1")
  }

  /** A roll is never both with advantage and with disadvantage. */
  lemma AdvantageExclusive(p: ParsedExpression)
    ensures !(IsAdvantage(p) && IsDisadvantage(p))
  {
  }

  /** Advantage is a single term at the start of the expression, of exactly
      two dice, ending in `kh1`, without a reroll. */
  lemma AdvantageShape(p: ParsedExpression)
    requires IsAdvantage(p) && WellFormed(p.terms[0])
    ensures |p.terms| == 1 && p.terms[0].countDigits == "2"
    ensures EndsWith(TermText(p.terms[0]), "kh1") && !HasReroll(p.terms[0])
  {
    var t := p.terms[0];
    TwoDicePrefix(p.expression, t);
    RerollInTerm(p.expression, t);
  }

  /** Disadvantage is the same shape with `kl1`. */
  lemma DisadvantageShape(p: ParsedExpression)
    requires IsDisadvantage(p) && WellFormed(p.terms[0])
    ensures |p.terms| == 1 && p.terms[0].countDigits == "2"
    ensures EndsWith(TermText(p.terms[0]), "kl1") && !HasReroll(p.terms[0])
  {
    var t := p.terms[0];
    TwoDicePrefix(p.expression, t);
    RerollInTerm(p.expression, t);
  }

  /** An expression that starts with the term and with `2d` rolls two dice. */
  lemma TwoDicePrefix(e: string, t: Term)
    requires WellFormed(t) && IndexOf(e, TermText(t)) == Some(0) && StartsWith(e, "2d")
    ensures t.countDigits == "2"
  {
    var cd := t.countDigits;
    assert OccursAt(e, TermText(t), 0);
    assert e[..|TermText(t)|] == TermText(t);
    assert e[|cd|] == 'd' by { assert TermText(t)[|cd|] == 'd'; }
    assert e[0] == '2' && e[1] == 'd';
    assert e[0] == cd[0];
  }

  /** A term at the start of an expression without `ro` has no reroll. */
  lemma RerollInTerm(e: string, t: Term)
    requires IndexOf(e, TermText(t)) == Some(0) && !Contains(e, "ro")
    ensures !HasReroll(t)
  {
    var tt := TermText(t);
    if HasReroll(t) {
      var k := IndexOf(tt, "ro").value;
      assert OccursAt(e, tt, 0);
      assert e[k..k + 2] == tt[k..k + 2];
      ContainsIff(e, "ro");
      assert OccursAt(e, "ro", k);
    }
  }
}
