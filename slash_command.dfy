/** Slash commands of DiceRoller.js: `replaceModifiersInSlashCommand`
    (lines 646-683), the modifier arithmetic of `getCharacterStatModifiers`
    (lines 603-612) and `DiceRoll.fromSlashCommand` (lines 194-216), with the
    regular expressions of lines 8, 9 and 11 written as explicit scanners.

    The table of stat modifiers, which the source reads from the page, is a
    parameter: `None` where the source finds no character sheet. */
module SlashCommand {
  import opened Wrappers
  import opened TextUtil
  import opened DiceGrammar
  import opened DiceParse
  import opened DiceRolls

  // ----- `diceRollCommandRegex` (line 9) -----

  const CommandNames: seq<string> := ["r", "roll", "save", "hit", "dmg", "skill", "heal"]

  /** The first name from index `k` on, in source order, that follows the
      leading `/` and is itself followed by a whitespace character. */
  function CommandFrom(s: string, k: nat): (r: Option<string>)
    requires k <= |CommandNames|
    ensures r.Some? ==> r.value in CommandNames[k..]
    ensures r.Some? ==> StartsWith(s, "/" + r.value) && |r.value| + 1 < |s| && IsWhitespace(s[|r.value| + 1])
    decreases |CommandNames| - k
  {
    if k == |CommandNames| then None
    else
      var n := CommandNames[k];
      if StartsWith(s, "/" + n) && |n| + 1 < |s| && IsWhitespace(s[|n| + 1]) then Some(n)
      else CommandFrom(s, k + 1)
  }

  /** The name the regular expression matches at the start of `s`. */
  function CommandOf(s: string): Option<string> {
    CommandFrom(s, 0)
  }

  /** `s.replace(diceRollCommandRegex, "")`: the `/`, the name and the one
      whitespace character go. */
  function StripCommand(s: string): (t: string)
    ensures CommandOf(s).None? ==> t == s
    ensures CommandOf(s).Some? ==> |CommandOf(s).value| + 2 <= |s| && t == s[|CommandOf(s).value| + 2..]
  {
    match CommandOf(s)
    case None => s
    case Some(n) => s[|n| + 2..]
  }

  /** `/roll` is not read as `/r`: the `r` alternative needs a whitespace
      character right after it and backtracking reaches `roll`. */
  lemma RollIsNotR(rest: string)
    ensures CommandOf("/roll " + rest) == Some("roll")
  {
    var s := "/roll " + rest;
    assert s[..5] == "/roll";
    assert s[2] == 'o';
  }

  // ----- `allowedExpressionCharactersRegex` (line 11) -----

  const StatTokens: seq<string> := ["STR", "str", "DEX", "dex", "CON", "con", "INT", "int",
                                    "WIS", "wis", "CHA", "cha", "PB", "pb"]

  /** The whitespace characters from `i` on, as `\s+` takes them. */
  function WhitespaceRun(s: string, i: nat): (n: nat)
    requires i <= |s|
    ensures i + n <= |s| && forall k | i <= k < i + n :: IsWhitespace(s[k])
    ensures i + n == |s| || !IsWhitespace(s[i + n])
    decreases |s| - i
  {
    if i == |s| || !IsWhitespace(s[i]) then 0 else 1 + WhitespaceRun(s, i + 1)
  }

  /** The length of the first stat token from index `k` of the list that is
      written at `i`, case-sensitively; 0 for none. */
  function StatTokenAt(s: string, i: nat, k: nat): (n: nat)
    requires k <= |StatTokens|
    ensures n > 0 ==> i + n <= |s|
    decreases |StatTokens| - k
  {
    if k == |StatTokens| then 0
    else if OccursAt(s, StatTokens[k], i) then |StatTokens[k]|
    else StatTokenAt(s, i, k + 1)
  }

  /** The length of one repetition of the group at `i`, taking the first
      alternative that matches in the order of the source: dice, `kh`, `kl`,
      `ro`, `+`, `-`, a number, whitespace, a stat token; 0 for none (and
      past the end of the text). */
  function AllowedTokenAt(s: string, i: nat): (n: nat)
    ensures i <= |s| ==> i + n <= |s|
  {
    if i > |s| then 0
    else
      var d := DigitRun(s, i);
      if d > 0 && i + d < |s| && s[i + d] == 'd' && DigitRun(s, i + d + 1) > 0 then
        d + 1 + DigitRun(s, i + d + 1)
      else if (OccursAt(s, "kh", i) || OccursAt(s, "kl", i)) && DigitRun(s, i + 2) > 0 then
        2 + DigitRun(s, i + 2)
      else if OccursAt(s, "ro", i) && RerollAt(s, i + 2).Some? then
        var m := RerollAt(s, i + 2).value;
        2 + |CmpText(m.cmp) + m.digits|
      else if i < |s| && (s[i] == '+' || s[i] == '-') then 1
      else if d > 0 then d
      else if WhitespaceRun(s, i) > 0 then WhitespaceRun(s, i)
      else StatTokenAt(s, i, 0)
  }

  /** The greedy `(...)*` from `i` of a group whose repetition at `j` has
      length `step(s, j)`: repetitions until none matches, so the match ends
      at the end of the text or where no alternative fits. */
  function Greedy(step: (string, nat) -> nat, s: string, i: nat): (n: nat)
    requires i <= |s|
    requires forall j | i <= j <= |s| :: j + step(s, j) <= |s|
    ensures i + n <= |s|
    ensures i + n == |s| || step(s, i + n) == 0
    decreases |s| - i
  {
    if i == |s| || step(s, i) == 0 then 0
    else step(s, i) + Greedy(step, s, i + step(s, i))
  }

  /** The length of the anchored match of the allowed-characters pattern. */
  function AllowedLength(s: string): (n: nat)
    ensures n <= |s|
    ensures n == |s| || AllowedTokenAt(s, n) == 0
  {
    Greedy(AllowedTokenAt, s, 0)
  }

  /** `s.match(allowedExpressionCharactersRegex)[0]`: the anchored match,
      possibly empty, always present. */
  function AllowedExpression(s: string): (e: string)
    ensures StartsWith(s, e)
  {
    s[..AllowedLength(s)]
  }

  // ----- `validModifierSubstitutions` (line 8) -----

  const StatNames: seq<string> := ["str", "dex", "con", "int", "wis", "cha", "pb"]

  /** A stat name written at `i` in any letter case. */
  datatype StatMatch = StatMatch(index: nat, text: string)

  /** The first name from index `k` of the list that matches at `i`
      ignoring case, with no word character just before or just after it:
      the text as written. */
  function StatFrom(e: string, i: nat, k: nat): (r: Option<string>)
    requires k <= |StatNames|
    ensures r.Some? ==> OccursAt(e, r.value, i) && ToLower(r.value) in StatNames
    decreases |StatNames| - k
  {
    if k == |StatNames| then None
    else
      var n := StatNames[k];
      var j := i + |n|;
      if j <= |e| && ToLower(e[i..j]) == n
         && (i == 0 || !IsWordChar(e[i - 1])) && (j == |e| || !IsWordChar(e[j]))
      then Some(e[i..j])
      else StatFrom(e, i, k + 1)
  }

  /** `e.matchAll(validModifierSubstitutions)`: the non-overlapping matches
      from `i` on, left to right. */
  function StatMatches(e: string, i: nat): (ms: seq<StatMatch>)
    ensures forall k | 0 <= k < |ms| :: i <= ms[k].index && OccursAt(e, ms[k].text, ms[k].index)
    ensures forall k | 0 <= k < |ms| :: ToLower(ms[k].text) in StatNames
    ensures forall k | 0 <= k < |ms| - 1 :: ms[k].index + |ms[k].text| <= ms[k + 1].index
    decreases |e| - i
  {
    if i >= |e| then []
    else match StatFrom(e, i, 0)
      case Some(t) =>
        assert |t| > 0 by { assert ToLower(t) in StatNames; }
        [StatMatch(i, t)] + StatMatches(e, i + |t|)
      case None => StatMatches(e, i + 1)
  }

  /** `/(\s*[+|-]\s*)$/.test(p)`: after trailing whitespace, `p` ends in `+`,
      `|` or `-`. */
  predicate ValidModifierPrefix(p: string) {
    var q := TrimEnd(p);
    q != [] && q[|q| - 1] in "+|-"
  }

  /** All seven keys of `getCharacterStatModifiers`. */
  predicate HasStats(mods: map<string, int>) {
    forall k | 0 <= k < |StatNames| :: StatNames[k] in mods
  }

  /** `Math.floor((score - 10) / 2)`. */
  function AbilityModifier(score: int): (m: int)
    ensures 2 * m <= score - 10 < 2 * m + 2
  {
    (score - 10) / 2
  }

  /** The modifier table from the six ability scores and the proficiency
      bonus. */
  function StatModifiers(str: int, dex: int, con: int, intel: int, wis: int, cha: int, pb: int)
    : (mods: map<string, int>)
    ensures HasStats(mods) && "pb" in mods && mods["pb"] == pb
    ensures forall key | key in mods :: key in StatNames
    ensures forall k | 0 <= k < 6 ::
      var score := [str, dex, con, intel, wis, cha][k];
      2 * mods[StatNames[k]] <= score - 10 < 2 * mods[StatNames[k]] + 2
  {
    map["str" := AbilityModifier(str), "dex" := AbilityModifier(dex),
        "con" := AbilityModifier(con), "int" := AbilityModifier(intel),
        "wis" := AbilityModifier(wis), "cha" := AbilityModifier(cha), "pb" := pb]
  }

  // ----- `replaceModifiersInSlashCommand` (lines 646-683) -----

  /** The loop over the matches: each match whose preceding text ends in an
      operator replaces the first occurrence of its text in `current` by the
      modifier; the first match that does not stops the loop. */
  function Substituted(e: string, ms: seq<StatMatch>, current: string, mods: map<string, int>): string
    requires HasStats(mods) && forall k | 0 <= k < |ms| :: ToLower(ms[k].text) in StatNames
  {
    if ms == [] then current
    else if ms[0].index <= |e| && ValidModifierPrefix(e[..ms[0].index]) then
      assert ToLower(ms[0].text) in mods;
      Substituted(e, ms[1..], ReplaceFirst(current, ms[0].text, IntToString(mods[ToLower(ms[0].text)])), mods)
    else current
  }

  /** A stat name is always one of the seven keys of a full table. */
  lemma StatKey(mods: map<string, int>, t: string)
    requires HasStats(mods) && t in StatNames
    ensures t in mods
  {
  }

  /** What `replaceModifiersInSlashCommand` returns: the command unchanged
      without an expression or a stat table; otherwise the command with the
      expression put back in which the stat names up to the first one not
      following an operator are replaced, in order, by their modifiers. */
  function ReplacedModifiers(text: string, mods: Option<map<string, int>>): (r: string)
    requires mods.Some? ==> HasStats(mods.value)
    ensures var e := AllowedExpression(StripCommand(text));
      e == "" || mods.None? ==> r == text
    ensures var e := AllowedExpression(StripCommand(text));
      var ms := StatMatches(e, 0);
      e != "" && mods.Some? ==>
        r == ReplaceAll(text, e, ReplaceInOrder(e, ms[..PrecededCount(e, ms)], mods.value))
  {
    var e := AllowedExpression(StripCommand(text));
    if e == "" || mods.None? then text
    else
      SubstitutedInOrder(e, StatMatches(e, 0), e, mods.value);
      ReplaceAll(text, e, Substituted(e, StatMatches(e, 0), e, mods.value))
  }

  /** The loop of the source, with its `break`, against `ReplacedModifiers`. */
  method ReplaceModifiersInSlashCommand(text: string, mods: Option<map<string, int>>) returns (out: string)
    requires mods.Some? ==> HasStats(mods.value)
    ensures out == ReplacedModifiers(text, mods)
  {
    var expression := AllowedExpression(StripCommand(text));
    if expression == "" || mods.None? {
      return text;
    }
    var table := mods.value;
    var matches := StatMatches(expression, 0);
    var modified := expression;
    var i := 0;
    while i < |matches|
      invariant 0 <= i <= |matches|
      invariant Substituted(expression, matches, expression, table)
        == Substituted(expression, matches[i..], modified, table)
    {
      var m := matches[i];
      assert matches[i..][0] == m && matches[i..][1..] == matches[i + 1..];
      if !ValidModifierPrefix(expression[..m.index]) {
        break;
      }
      StatKey(table, ToLower(m.text));
      modified := ReplaceFirst(modified, m.text, IntToString(table[ToLower(m.text)]));
      i := i + 1;
    }
    assert i == |matches| ==> matches[i..] == [];
    out := ReplaceAll(text, expression, modified);
  }

  /** Without a stat name in the expression the command comes back as it was. */
  lemma NoStatUnchanged(text: string, mods: Option<map<string, int>>)
    requires mods.Some? ==> HasStats(mods.value)
    requires StatMatches(AllowedExpression(StripCommand(text)), 0) == []
    ensures ReplacedModifiers(text, mods) == text
  {
    var e := AllowedExpression(StripCommand(text));
    if e != "" && mods.Some? {
      ReplaceAllIdentity(text, e);
    }
  }

  /** When the first stat name does not follow an operator, nothing is
      substituted at all. */
  lemma FirstInvalidStops(text: string, mods: Option<map<string, int>>)
    requires mods.Some? ==> HasStats(mods.value)
    requires var ms := StatMatches(AllowedExpression(StripCommand(text)), 0);
      ms != [] && !ValidModifierPrefix(AllowedExpression(StripCommand(text))[..ms[0].index])
    ensures ReplacedModifiers(text, mods) == text
  {
    var e := AllowedExpression(StripCommand(text));
    if e != "" && mods.Some? {
      ReplaceAllIdentity(text, e);
    }
  }

  /** A substitution step replaces only the first occurrence and keeps the
      text around it. */
  lemma SubstitutionStep(current: string, t: string, v: string)
    requires Contains(current, t)
    ensures var k := IndexOf(current, t).value;
      ReplaceFirst(current, t, v) == current[..k] + v + current[k + |t|..]
      && forall j | 0 <= j < k :: !OccursAt(current, t, j)
  {
  }

  /** `validModifierPrefix.test(expressionUpToThisPoint)` for a match. */
  predicate Preceded(e: string, m: StatMatch) {
    m.index <= |e| && ValidModifierPrefix(e[..m.index])
  }

  /** How many matches, from the first, follow an operator: all before it do
      and, if it is not the end of the list, the match at it does not. */
  function PrecededCount(e: string, ms: seq<StatMatch>): (n: nat)
    ensures n <= |ms|
    ensures forall k | 0 <= k < n :: Preceded(e, ms[k])
    ensures n < |ms| ==> !Preceded(e, ms[n])
  {
    if ms == [] || !Preceded(e, ms[0]) then 0 else 1 + PrecededCount(e, ms[1..])
  }

  /** Each match in turn replaces the first occurrence of its text by its
      modifier, with no check on what precedes it. */
  function ReplaceInOrder(current: string, ms: seq<StatMatch>, mods: map<string, int>): string
    requires HasStats(mods) && forall k | 0 <= k < |ms| :: ToLower(ms[k].text) in StatNames
    decreases |ms|
  {
    if ms == [] then current
    else
      StatKey(mods, ToLower(ms[0].text));
      ReplaceInOrder(ReplaceFirst(current, ms[0].text, IntToString(mods[ToLower(ms[0].text)])), ms[1..], mods)
  }

  /** The substitution loop replaces, in order, exactly the matches before
      the first one that does not follow an operator; that match and every
      later one are left alone. */
  lemma {:induction false} SubstitutedInOrder(e: string, ms: seq<StatMatch>, current: string, mods: map<string, int>)
    requires HasStats(mods) && forall k | 0 <= k < |ms| :: ToLower(ms[k].text) in StatNames
    ensures Substituted(e, ms, current, mods) == ReplaceInOrder(current, ms[..PrecededCount(e, ms)], mods)
  {
    var n := PrecededCount(e, ms);
    if ms != [] && Preceded(e, ms[0]) {
      StatKey(mods, ToLower(ms[0].text));
      var next := ReplaceFirst(current, ms[0].text, IntToString(mods[ToLower(ms[0].text)]));
      SubstitutedInOrder(e, ms[1..], next, mods);
      assert ms[..n][0] == ms[0] && ms[..n][1..] == ms[1..][..n - 1];
    } else {
      assert ms[..n] == [];
    }
  }

  /** Dropping the matches from the first one that does not follow an
      operator on changes nothing: the loop never reaches them. */
  lemma SubstitutionStops(e: string, ms: seq<StatMatch>, current: string, mods: map<string, int>)
    requires HasStats(mods) && forall k | 0 <= k < |ms| :: ToLower(ms[k].text) in StatNames
    ensures var n := PrecededCount(e, ms);
      Substituted(e, ms, current, mods) == Substituted(e, ms[..n], current, mods)
  {
    var n := PrecededCount(e, ms);
    SubstitutedInOrder(e, ms, current, mods);
    SubstitutedInOrder(e, ms[..n], current, mods);
    assert PrecededCount(e, ms[..n]) == n;
    assert ms[..n][..n] == ms[..n];
  }

  // ----- `DiceRoll.fromSlashCommand` (lines 194-216) -----

  datatype SlashError =
    | NotACommand                      // `slashCommand` is undefined and `startsWith` throws
    | InvalidExpression(error: ParseError)

  /** The expression, the action text and the roll type a command splits into. */
  datatype SlashParts = SlashParts(expression: string, action: string, rollType: Option<string>)

  /** The roll type a command name implies, tested with `startsWith` in the
      order of the source. */
  function DefaultRollType(command: string): Option<string> {
    if StartsWith(command, "/hit") then Some("to hit")
    else if StartsWith(command, "/dmg") then Some("damage")
    else if StartsWith(command, "/skill") then Some("check")
    else if StartsWith(command, "/save") then Some("save")
    else if StartsWith(command, "/heal") then Some("heal")
    else None
  }

  /** The split once the command, the rest and the expression are known:
      the action is what follows the expression. */
  function SplitParts(command: string, rest: string, e: string): SlashParts
    requires StartsWith(rest, e)
  {
    var action := rest[|e|..];
    if StartsWith(command, "/r") then
      var parts := Split(action, ':');
      SlashParts(e, parts[0], if |parts| > 1 then Some(parts[1]) else None)
    else SlashParts(e, action, DefaultRollType(command))
  }

  /** Everything `fromSlashCommand` computes before constructing the roll. */
  function SplitSlashCommand(modified: string): (r: Result<SlashParts, SlashError>)
    ensures r.Err? <==> CommandOf(modified).None?
  {
    match CommandOf(modified)
    case None => Err(NotACommand)
    case Some(n) =>
      var rest := StripCommand(modified);
      Ok(SplitParts(modified[..|n| + 2], rest, AllowedExpression(rest)))
  }

  /** Outside `/r` and `/roll` the command text is the expression followed
      by the action, and the roll type is the one the command implies. */
  lemma SplitPartsShape(command: string, rest: string, e: string)
    requires StartsWith(rest, e) && !StartsWith(command, "/r")
    ensures var p := SplitParts(command, rest, e);
      && p.expression == e && rest == p.expression + p.action
      && p.rollType == DefaultRollType(command)
  {
  }

  /** Every roll type a command implies is one the `rollType` setter keeps
      as it is. */
  lemma DefaultRollTypeAccepted(command: string)
    ensures DefaultRollType(command).Some? ==>
      NormalizeRollType(None, DefaultRollType(command)) == DefaultRollType(command)
  {
    if DefaultRollType(command).Some? {
      AcceptedRollTypesStable(None, DefaultRollType(command).value);
    }
  }

  /** `/r` and `/roll` read the action up to the first `:` and the roll type
      up to the second; without a `:` the whole rest is the action. */
  lemma SplitPartsRoll(command: string, rest: string, e: string)
    requires StartsWith(rest, e) && StartsWith(command, "/r")
    ensures var p := SplitParts(command, rest, e);
      var action := rest[|e|..];
      && p.expression == e && ':' !in p.action
      && (':' !in action ==> p.action == action && p.rollType.None?)
      && (':' in action ==> p.rollType.Some? && StartsWith(action, p.action + ":" + p.rollType.value))
  {
    var action := rest[|e|..];
    if ':' !in action {
      SplitNoSeparator(action, ':');
    } else {
      SplitHead(action, ':');
    }
  }

  /** Of the command names, only `r` and `roll` begin with `r`. */
  lemma NamesOpeningWithR(n: string)
    requires n in CommandNames
    ensures |n| > 0 && (n[0] == 'r' <==> n == "r" || n == "roll")
  {
  }

  /** The command's own text, as the regular expression matched it. */
  lemma CommandText(modified: string)
    requires CommandOf(modified).Some?
    ensures var n := CommandOf(modified).value;
      StartsWith(modified[..|n| + 2], "/r") <==> n == "r" || n == "roll"
  {
    var n := CommandOf(modified).value;
    var command := modified[..|n| + 2];
    NamesOpeningWithR(n);
    var slashed := "/" + n;
    assert modified[..|slashed|] == slashed;
    assert command[0] == slashed[0] == '/';
    assert command[1] == slashed[1] == n[0];
    assert command[..2] == [command[0], command[1]];
  }

  /** The first two parts of a split around a separator that occurs. */
  lemma SplitHead(s: string, c: char)
    requires c in s
    ensures |Split(s, c)| > 1
    ensures StartsWith(s, Split(s, c)[0] + [c] + Split(s, c)[1])
  {
    var parts := Split(s, c);
    JoinSplit(s, c);
    assert |parts| > 1;
    JoinFront(parts, c);
  }

  /** The first two parts and their separator open the joined text. */
  lemma JoinFront(parts: seq<string>, c: char)
    requires |parts| > 1
    ensures StartsWith(Join(parts, c), parts[0] + [c] + parts[1])
  {
    var tail := Join(parts[1..], c);
    assert Join(parts, c) == parts[0] + [c] + tail;
    if |parts| == 2 {
      assert tail == parts[1];
    } else {
      assert tail == parts[1] + [c] + Join(parts[2..], c) by {
        assert parts[1..][1..] == parts[2..];
      }
    }
    var j := Join(parts, c);
    var h := parts[0] + [c] + parts[1];
    assert j[..|h|] == h;
  }

  /** `fromSlashCommand`: substitute the modifiers, split the command and
      construct the roll. */
  method FromSlashCommand(text: string, mods: Option<map<string, int>>, name: Option<string>,
                          avatarUrl: Option<string>, entityType: Option<string>,
                          entityId: Option<string>, sendTo: Option<string>)
    returns (r: Result<DiceRoll, SlashError>)
    requires mods.Some? ==> HasStats(mods.value)
    ensures var parts := SplitSlashCommand(ReplacedModifiers(text, mods));
      && (parts.Err? ==> r == Err(NotACommand))
      && (parts.Ok? && Parse(parts.value.expression).Err? ==>
            r == Err(InvalidExpression(Parse(parts.value.expression).error)))
      && (parts.Ok? && Parse(parts.value.expression).Ok? ==>
            r.Ok? && fresh(r.value) && r.value.Valid()
            && r.value.Snapshot() == RollRequest(Parse(parts.value.expression).value,
                 NormalizeAction(Some(parts.value.action)),
                 NormalizeRollType(None, parts.value.rollType),
                 IfTruthy(name), IfTruthy(avatarUrl), IfTruthy(entityType), IfTruthy(entityId),
                 NormalizeSendTo(sendTo)))
  {
    var modified := ReplaceModifiersInSlashCommand(text, mods);
    var parts := SplitSlashCommand(modified);
    if parts.Err? {
      return Err(NotACommand);
    }
    var p := parts.value;
    var d := NewDiceRoll(p.expression, Some(p.action), p.rollType, name, avatarUrl, entityType, entityId, sendTo);
    if d.Err? {
      return Err(InvalidExpression(d.error));
    }
    return Ok(d.value);
  }
}
