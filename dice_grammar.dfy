/** The dice-term grammar of DiceRoller.js line 6,
      \d+ d (100|20|12|10|8|6|4) (kh\d+ | kl\d+ | ro(<|<=|>|>=|=)\d+)*
    written as a greedy left-to-right lexer, and the character set of line 7.
    A global regular-expression match tries each start position in turn and,
    at a position, takes the first alternative that matches and the longest
    digit runs; `Scan` does exactly that. */
module DiceGrammar {
  import opened Wrappers
  import opened TextUtil

  datatype DieSize = D4 | D6 | D8 | D10 | D12 | D20 | D100

  function SizeText(d: DieSize): (s: string)
    ensures |s| > 0 && AllDigits(s)
  {
    match d
    case D4 => "4"
    case D6 => "6"
    case D8 => "8"
    case D10 => "10"
    case D12 => "12"
    case D20 => "20"
    case D100 => "100"
  }

  datatype Comparator = Lt | Le | Gt | Ge | Eq

  function CmpText(c: Comparator): string {
    match c
    case Lt => "<"
    case Le => "<="
    case Gt => ">"
    case Ge => ">="
    case Eq => "="
  }

  /** The reroll test `value <op> threshold`; `=` is equality. */
  predicate CmpHolds(c: Comparator, value: int, threshold: int) {
    match c
    case Lt => value < threshold
    case Le => value <= threshold
    case Gt => value > threshold
    case Ge => value >= threshold
    case Eq => value == threshold
  }

  /** One `kh`, `kl` or `ro` suffix, keeping its digits as written. */
  datatype Modifier =
    | KeepHighest(digits: string)
    | KeepLowest(digits: string)
    | Reroll(cmp: Comparator, digits: string)

  predicate ModWellFormed(m: Modifier) {
    |m.digits| > 0 && AllDigits(m.digits)
  }

  function ModText(m: Modifier): (s: string)
    ensures |s| >= 2
  {
    match m
    case KeepHighest(ds) => "kh" + ds
    case KeepLowest(ds) => "kl" + ds
    case Reroll(c, ds) => "ro" + CmpText(c) + ds
  }

  function ModsText(ms: seq<Modifier>): string {
    if ms == [] then "" else ModText(ms[0]) + ModsText(ms[1..])
  }

  /** One dice term such as `2d20kh1ro<3`. */
  datatype Term = Term(countDigits: string, size: DieSize, mods: seq<Modifier>)

  predicate WellFormed(t: Term) {
    && |t.countDigits| > 0 && AllDigits(t.countDigits)
    && forall k | 0 <= k < |t.mods| :: ModWellFormed(t.mods[k])
  }

  function TermText(t: Term): string {
    t.countDigits + "d" + SizeText(t.size) + ModsText(t.mods)
  }

  /** A matched term together with the index where it starts. */
  datatype Lexeme = Lexeme(term: Term, start: nat)

  function LexemeEnd(l: Lexeme): nat {
    l.start + |TermText(l.term)|
  }

  /** The digits starting at `i`, as `\d+` takes them. */
  function DigitsAt(s: string, i: nat): (ds: string)
    requires i <= |s|
    ensures OccursAt(s, ds, i) && AllDigits(ds)
    ensures i + |ds| == |s| || !IsDigit(s[i + |ds|])
  {
    s[i..i + DigitRun(s, i)]
  }

  /** The die-size alternation `100|20|12|10|8|6|4`, in the order the
      source writes it. */
  const SizeOrder: seq<DieSize> := [D100, D20, D12, D10, D8, D6, D4]

  /** The first size from index `k` of the alternation whose digits occur at
      `i`. */
  function SizeFrom(s: string, i: nat, k: nat): (r: Option<DieSize>)
    requires k <= |SizeOrder|
    ensures r.Some? ==> OccursAt(s, SizeText(r.value), i)
    decreases |SizeOrder| - k
  {
    if k == |SizeOrder| then None
    else if OccursAt(s, SizeText(SizeOrder[k]), i) then Some(SizeOrder[k])
    else SizeFrom(s, i, k + 1)
  }

  /** The size the alternation matches at `i`: `1d100` is a d100 and `1d200`
      only reaches `1d20`. */
  function SizeAt(s: string, i: nat): (r: Option<DieSize>)
    ensures r.Some? ==> OccursAt(s, SizeText(r.value), i)
  {
    SizeFrom(s, i, 0)
  }

  /** The scan from `k` fails exactly when none of the remaining sizes is
      written at `i`. */
  lemma {:induction false} SizeFromNone(s: string, i: nat, k: nat)
    requires k <= |SizeOrder|
    ensures SizeFrom(s, i, k).None? <==> forall m | k <= m < |SizeOrder| :: !OccursAt(s, SizeText(SizeOrder[m]), i)
    decreases |SizeOrder| - k
  {
    if k < |SizeOrder| {
      SizeFromNone(s, i, k + 1);
    }
  }

  /** Where `20` is written the alternation answers d20 even when a further
      digit follows, since `100` cannot start there: `1d200` holds a d20. */
  lemma TwentyBeforeLonger(s: string, i: nat)
    requires OccursAt(s, "20", i)
    ensures SizeAt(s, i) == Some(D20)
  {
    assert s[i] == '2';
  }

  /** The comparator `c` at `j`, followed by at least one digit. */
  function RerollWith(s: string, j: nat, c: Comparator): (r: Option<Modifier>)
    requires j <= |s|
    ensures r.Some? ==> r.value == Reroll(c, r.value.digits) && ModWellFormed(r.value)
    ensures r.Some? ==> OccursAt(s, CmpText(c) + r.value.digits, j)
  {
    var k := j + |CmpText(c)|;
    if OccursAt(s, CmpText(c), j) && DigitRun(s, k) > 0 then
      var ds := DigitsAt(s, k);
      ConcatOccurs(s, CmpText(c), ds, j);
      Some(Reroll(c, ds))
    else None
  }

  /** `ro(<|<=|>|>=|=)\d+` after the `ro` at `j - 2`; each comparator
      alternative must be followed by a digit, as in the regular expression. */
  function RerollAt(s: string, j: nat): (r: Option<Modifier>)
    requires j <= |s|
    ensures r.Some? ==> r.value.Reroll? && ModWellFormed(r.value)
    ensures r.Some? ==> OccursAt(s, CmpText(r.value.cmp) + r.value.digits, j)
  {
    RerollFrom(s, j, 0)
  }

  /** The comparator alternatives in the order the regular expression lists
      them. */
  const RerollOrder: seq<Comparator> := [Lt, Le, Gt, Ge, Eq]

  /** The first of the alternatives `RerollOrder[k..]` that matches at `j`. */
  function RerollFrom(s: string, j: nat, k: nat): (r: Option<Modifier>)
    requires j <= |s|
    ensures r.Some? ==> r.value.Reroll? && ModWellFormed(r.value)
    ensures r.Some? ==> OccursAt(s, CmpText(r.value.cmp) + r.value.digits, j)
    decreases |RerollOrder| - k
  {
    if k >= |RerollOrder| then None else
    var r := RerollWith(s, j, RerollOrder[k]);
    if r.Some? then r else RerollFrom(s, j, k + 1)
  }

  /** `kh\d+` (for `high`) or `kl\d+` at `i`. */
  function KeepAt(s: string, i: nat, high: bool): (r: Option<Modifier>)
    requires i <= |s|
    ensures r.Some? ==> ModWellFormed(r.value) && OccursAt(s, ModText(r.value), i)
    ensures r.Some? ==> r.value == (if high then KeepHighest(r.value.digits) else KeepLowest(r.value.digits))
  {
    var p := if high then "kh" else "kl";
    if OccursAt(s, p, i) && DigitRun(s, i + 2) > 0 then
      var ds := DigitsAt(s, i + 2);
      ConcatOccurs(s, p, ds, i);
      Some(if high then KeepHighest(ds) else KeepLowest(ds))
    else None
  }

  /** One modifier at `i`, alternatives in source order: `kh`, `kl`, `ro`. */
  function ModAt(s: string, i: nat): (r: Option<Modifier>)
    ensures r.Some? ==> ModWellFormed(r.value) && OccursAt(s, ModText(r.value), i)
  {
    if i > |s| then None else
    var kh := KeepAt(s, i, true);
    if kh.Some? then kh else
    var kl := KeepAt(s, i, false);
    if kl.Some? then kl else
    if OccursAt(s, "ro", i) then
      match RerollAt(s, i + 2)
      case None => None
      case Some(m) =>
        assert ModText(m) == "ro" + (CmpText(m.cmp) + m.digits);
        ConcatOccurs(s, "ro", CmpText(m.cmp) + m.digits, i);
        Some(m)
    else None
  }

  /** The greedy `(...)*` over modifiers starting at `i`. */
  function ModsAt(s: string, i: nat): (ms: seq<Modifier>)
    requires i <= |s|
    ensures OccursAt(s, ModsText(ms), i)
    ensures forall k | 0 <= k < |ms| :: ModWellFormed(ms[k])
  {
    RepeatMods(ModAt, s, i)
  }

  /** Applies `step` from `i` for as long as it matches, each match starting
      where the previous one ended. */
  function RepeatMods(step: (string, nat) -> Option<Modifier>, s: string, i: nat): (ms: seq<Modifier>)
    requires i <= |s|
    requires forall j | i <= j <= |s| :: step(s, j).Some? ==>
      ModWellFormed(step(s, j).value) && OccursAt(s, ModText(step(s, j).value), j)
    ensures OccursAt(s, ModsText(ms), i)
    ensures forall k | 0 <= k < |ms| :: ModWellFormed(ms[k])
    decreases |s| - i
  {
    match step(s, i)
    case None => []
    case Some(m) =>
      assert OccursAt(s, ModText(m), i);
      var rest := RepeatMods(step, s, i + |ModText(m)|);
      assert ModsText([m] + rest) == ModText(m) + ModsText(rest) by {
        assert ([m] + rest)[1..] == rest;
      }
      ConcatOccurs(s, ModText(m), ModsText(rest), i);
      [m] + rest
  }

  /** The term that starts at `i`, if the grammar matches there. */
  function TermAt(s: string, i: nat): (r: Option<Term>)
    ensures r.Some? ==> WellFormed(r.value)
    ensures r.Some? ==> OccursAt(s, TermText(r.value), i)
  {
    if i > |s| then None else
    var cd := DigitsAt(s, i);
    if |cd| == 0 then None else TermAfterCount(s, i, cd)
  }

  /** The rest of a term whose count `cd` is written at `i`: a `d`, a size
      and the greedy run of modifiers. */
  function TermAfterCount(s: string, i: nat, cd: string): (r: Option<Term>)
    requires |cd| > 0 && AllDigits(cd) && OccursAt(s, cd, i)
    ensures r.Some? ==> r.value.countDigits == cd
    ensures r.Some? ==> WellFormed(r.value)
    ensures r.Some? ==> OccursAt(s, TermText(r.value), i)
  {
    var j := i + |cd|;
    if j == |s| || s[j] != 'd' then None
    else match SizeAt(s, j + 1)
      case None => None
      case Some(d) => Some(TermWith(s, i, cd, d))
  }

  /** The term with count `cd` and size `d`, whose modifiers are the greedy
      run after the size. */
  function TermWith(s: string, i: nat, cd: string, d: DieSize): (t: Term)
    requires |cd| > 0 && AllDigits(cd) && OccursAt(s, cd, i)
    requires i + |cd| < |s| && s[i + |cd|] == 'd'
    requires OccursAt(s, SizeText(d), i + |cd| + 1)
    ensures t.countDigits == cd && WellFormed(t) && OccursAt(s, TermText(t), i)
  {
    var mods := ModsAt(s, i + |cd| + 1 + |SizeText(d)|);
    PartsOccur(s, i, cd, SizeText(d), ModsText(mods));
    var t := Term(cd, d, mods);
    assert TermText(t) == cd + "d" + SizeText(d) + ModsText(mods);
    t
  }

  /** A count, a `d`, a size and modifiers written one after another make
      the term's text written there. */
  lemma PartsOccur(s: string, i: nat, cd: string, size: string, mods: string)
    requires OccursAt(s, cd, i)
    requires i + |cd| < |s| && s[i + |cd|] == 'd'
    requires OccursAt(s, size, i + |cd| + 1)
    requires OccursAt(s, mods, i + |cd| + 1 + |size|)
    ensures OccursAt(s, cd + "d" + size + mods, i)
  {
    var j := i + |cd|;
    assert s[j..j + 1] == "d";
    ConcatOccurs(s, cd, "d", i);
    ConcatOccurs(s, cd + "d", size, i);
    ConcatOccurs(s, cd + "d" + size, mods, i);
  }

  /** All non-overlapping matches from position `i` on, left to right. */
  function Scan(s: string, i: nat): (ls: seq<Lexeme>)
    requires i <= |s|
    ensures forall k | 0 <= k < |ls| :: i <= ls[k].start && WellFormed(ls[k].term)
    ensures forall k | 0 <= k < |ls| :: OccursAt(s, TermText(ls[k].term), ls[k].start)
    ensures forall k | 0 <= k < |ls| - 1 :: LexemeEnd(ls[k]) <= ls[k + 1].start
  {
    var ls := ScanWith(TermAt, s, i);
    ScanWithSound(TermAt, s, i);
    assert Sound(s, i, ls);
    ls
  }

  /** What a matcher `m` must promise for a scan with it to terminate: every
      term it finds ends inside `s`. */
  predicate FitsMatcher(m: (string, nat) -> Option<Term>, s: string, i: nat) {
    forall j | i <= j <= |s| :: m(s, j).Some? ==> j + |TermText(m(s, j).value)| <= |s|
  }

  /** What a matcher `m` must promise for a scan with it to be sound: every
      term it finds is well formed and written where it was found. */
  predicate SoundMatcher(m: (string, nat) -> Option<Term>, s: string, i: nat) {
    forall j | i <= j <= |s| :: m(s, j).Some? ==>
      WellFormed(m(s, j).value) && OccursAt(s, TermText(m(s, j).value), j)
  }

  /** The global match loop with matcher `m`: try each position in turn and,
      after a match, go on from its end. */
  function ScanWith(m: (string, nat) -> Option<Term>, s: string, i: nat): seq<Lexeme>
    requires i <= |s| && FitsMatcher(m, s, i)
    decreases |s| - i
  {
    if i == |s| then []
    else match m(s, i)
      case Some(t) => [Lexeme(t, i)] + ScanWith(m, s, i + |TermText(t)|)
      case None => ScanWith(m, s, i + 1)
  }

  /** Lexemes from `i` on that are well formed, written where they start and
      do not overlap. */
  predicate Sound(s: string, i: nat, ls: seq<Lexeme>) {
    && (forall k | 0 <= k < |ls| :: i <= ls[k].start && WellFormed(ls[k].term))
    && (forall k | 0 <= k < |ls| :: OccursAt(s, TermText(ls[k].term), ls[k].start))
    && (forall k | 0 <= k < |ls| - 1 :: LexemeEnd(ls[k]) <= ls[k + 1].start)
  }

  lemma {:induction false} ScanWithSound(m: (string, nat) -> Option<Term>, s: string, i: nat)
    requires i <= |s| && FitsMatcher(m, s, i) && SoundMatcher(m, s, i)
    ensures Sound(s, i, ScanWith(m, s, i))
    decreases |s| - i
  {
    if i < |s| {
      match m(s, i)
      case Some(t) =>
        var e := i + |TermText(t)|;
        assert OccursAt(s, TermText(t), i);
        ScanWithSound(m, s, e);
        assert ScanWith(m, s, i) == [Lexeme(t, i)] + ScanWith(m, s, e);
        ScanCons(s, Lexeme(t, i), ScanWith(m, s, e));
      case None =>
        ScanWithSound(m, s, i + 1);
        assert ScanWith(m, s, i) == ScanWith(m, s, i + 1);
        SoundFrom(s, i, ScanWith(m, s, i + 1));
    }
  }

  /** A match followed by sound lexemes from its end is sound. */
  lemma ScanCons(s: string, l: Lexeme, rest: seq<Lexeme>)
    requires WellFormed(l.term) && OccursAt(s, TermText(l.term), l.start)
    requires Sound(s, LexemeEnd(l), rest)
    ensures Sound(s, l.start, [l] + rest)
  {
    var ls := [l] + rest;
    forall k | 0 <= k < |ls| - 1 ensures LexemeEnd(ls[k]) <= ls[k + 1].start {
      if k > 0 { assert ls[k] == rest[k - 1] && ls[k + 1] == rest[k]; }
    }
  }

  /** Sound lexemes from `i + 1` on are sound from `i` on. */
  lemma SoundFrom(s: string, i: nat, ls: seq<Lexeme>)
    requires Sound(s, i + 1, ls)
    ensures Sound(s, i, ls)
  {
  }

  /** `m` finds nothing anywhere in `[a, b)`. */
  predicate NoMatchIn(m: (string, nat) -> Option<Term>, s: string, a: nat, b: nat) {
    forall j | a <= j < b :: m(s, j).None?
  }

  /** The scan with `m` misses nothing: each lexeme is what `m` matches at
      its start, and `m` matches nowhere before the first lexeme, between two
      of them or after the last. */
  predicate Complete(m: (string, nat) -> Option<Term>, s: string, i: nat, ls: seq<Lexeme>) {
    && (forall k | 0 <= k < |ls| :: m(s, ls[k].start) == Some(ls[k].term))
    && (ls == [] ==> NoMatchIn(m, s, i, |s|))
    && (ls != [] ==> NoMatchIn(m, s, i, ls[0].start) && NoMatchIn(m, s, LexemeEnd(ls[|ls| - 1]), |s|))
    && (forall k | 0 <= k < |ls| - 1 :: NoMatchIn(m, s, LexemeEnd(ls[k]), ls[k + 1].start))
  }

  lemma {:induction false} ScanWithComplete(m: (string, nat) -> Option<Term>, s: string, i: nat)
    requires i <= |s| && FitsMatcher(m, s, i)
    ensures Complete(m, s, i, ScanWith(m, s, i))
    decreases |s| - i
  {
    if i < |s| {
      match m(s, i)
      case Some(t) =>
        ScanWithComplete(m, s, i + |TermText(t)|);
        CompleteMatchStep(m, s, i, t);
      case None =>
        ScanWithComplete(m, s, i + 1);
        CompleteSkipStep(m, s, i);
    }
  }

  /** One step of `ScanWithComplete` where `m` matches at `i`. */
  lemma CompleteMatchStep(m: (string, nat) -> Option<Term>, s: string, i: nat, t: Term)
    requires i < |s| && FitsMatcher(m, s, i) && m(s, i) == Some(t)
    requires i + |TermText(t)| <= |s|
    requires Complete(m, s, i + |TermText(t)|, ScanWith(m, s, i + |TermText(t)|))
    ensures Complete(m, s, i, ScanWith(m, s, i))
  {
    ScanWithMatch(m, s, i, t);
    CompleteCons(m, s, i, Lexeme(t, i), ScanWith(m, s, i + |TermText(t)|));
  }

  /** One step of `ScanWithComplete` where `m` matches nowhere at `i`. */
  lemma CompleteSkipStep(m: (string, nat) -> Option<Term>, s: string, i: nat)
    requires i < |s| && FitsMatcher(m, s, i) && m(s, i).None?
    requires Complete(m, s, i + 1, ScanWith(m, s, i + 1))
    ensures Complete(m, s, i, ScanWith(m, s, i))
  {
    ScanWithFirst(m, s, i + 1);
    assert ScanWith(m, s, i) == ScanWith(m, s, i + 1);
    CompleteSkip(m, s, i, ScanWith(m, s, i + 1));
  }

  lemma ScanWithMatch(m: (string, nat) -> Option<Term>, s: string, i: nat, t: Term)
    requires i < |s| && FitsMatcher(m, s, i) && m(s, i) == Some(t)
    ensures i + |TermText(t)| <= |s|
    ensures ScanWith(m, s, i) == [Lexeme(t, i)] + ScanWith(m, s, i + |TermText(t)|)
  {
  }

  /** A position where `m` finds nothing can be put in front of a complete
      scan. */
  lemma CompleteSkip(m: (string, nat) -> Option<Term>, s: string, i: nat, ls: seq<Lexeme>)
    requires m(s, i).None? && Complete(m, s, i + 1, ls)
    requires ls != [] ==> i < ls[0].start
    ensures Complete(m, s, i, ls)
  {
  }

  /** A scan from `i` finds nothing before `i`. */
  lemma {:induction false} ScanWithFirst(m: (string, nat) -> Option<Term>, s: string, i: nat)
    requires i <= |s| && FitsMatcher(m, s, i)
    ensures ScanWith(m, s, i) != [] ==> i <= ScanWith(m, s, i)[0].start
    decreases |s| - i
  {
    if i < |s| && m(s, i).None? {
      ScanWithFirst(m, s, i + 1);
    }
  }

  /** A match at `i` put in front of a complete scan from its end gives a
      complete scan from `i`. */
  lemma CompleteCons(m: (string, nat) -> Option<Term>, s: string, i: nat, l: Lexeme, rest: seq<Lexeme>)
    requires l.start == i && m(s, i) == Some(l.term)
    requires Complete(m, s, LexemeEnd(l), rest)
    ensures Complete(m, s, i, [l] + rest)
  {
    var ls := [l] + rest;
    forall k | 0 <= k < |ls| ensures m(s, ls[k].start) == Some(ls[k].term) {
      if k > 0 { assert ls[k] == rest[k - 1]; }
    }
    forall k | 0 <= k < |ls| - 1 ensures NoMatchIn(m, s, LexemeEnd(ls[k]), ls[k + 1].start) {
      if k > 0 { assert ls[k] == rest[k - 1] && ls[k + 1] == rest[k]; }
    }
    if rest != [] {
      assert ls[|ls| - 1] == rest[|rest| - 1];
    }
  }

  /** `Scan` finds every match of the term grammar, left to right: each
      lexeme is the term `TermAt` reads at its start, and no term starts
      before the first lexeme, between two of them or after the last. */
  lemma ScanComplete(s: string, i: nat)
    requires i <= |s|
    ensures Complete(TermAt, s, i, Scan(s, i))
  {
    ScanWithComplete(TermAt, s, i);
  }

  function TermsOf(ls: seq<Lexeme>): (ts: seq<Term>)
    ensures |ts| == |ls| && forall k | 0 <= k < |ls| :: ts[k] == ls[k].term
  {
    if ls == [] then [] else [ls[0].term] + TermsOf(ls[1..])
  }

  /** `s.match(allDiceRegex)`, with the empty list for `null`. */
  function Terms(s: string): (ts: seq<Term>)
    ensures forall k | 0 <= k < |ts| :: WellFormed(ts[k])
  {
    TermsOf(Scan(s, 0))
  }

  /** The characters of `validExpressionRegex` (line 7). */
  predicate ValidChar(c: char) {
    c in "dkhlro<=>+-()" || IsDigit(c) || IsWhitespace(c)
  }

  predicate ValidCharset(s: string) {
    forall i | 0 <= i < |s| :: ValidChar(s[i])
  }

  /** `replaceAll(/\s+/g, "")`. */
  function StripWhitespace(s: string): (t: string)
    ensures forall i | 0 <= i < |t| :: !IsWhitespace(t[i])
    ensures |t| <= |s|
  {
    if s == [] then []
    else if IsWhitespace(s[0]) then StripWhitespace(s[1..])
    else [s[0]] + StripWhitespace(s[1..])
  }

  /** The pass works character by character: the stripped concatenation is
      the concatenation of the stripped parts. With `StripWhitespaceIdle`
      and the one-character cases this fixes the result: the input's
      non-whitespace characters, in order. */
  lemma {:induction false} StripWhitespaceConcat(a: string, b: string)
    ensures StripWhitespace(a + b) == StripWhitespace(a) + StripWhitespace(b)
  {
    if a != [] {
      assert (a + b)[1..] == a[1..] + b;
      StripWhitespaceConcat(a[1..], b);
    } else {
      assert a + b == b;
    }
  }

  /** A single character is dropped exactly when it is whitespace. */
  lemma StripWhitespaceChar(c: char)
    ensures StripWhitespace([c]) == if IsWhitespace(c) then [] else [c]
  {
    assert [c][1..] == [];
  }

  lemma {:induction false} StripWhitespaceIdle(s: string)
    requires forall i | 0 <= i < |s| :: !IsWhitespace(s[i])
    ensures StripWhitespace(s) == s
  {
    if s != [] {
      StripWhitespaceIdle(s[1..]);
      assert s == [s[0]] + s[1..];
    }
  }
}
