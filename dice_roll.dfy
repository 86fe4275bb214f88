/** The `DiceRoll` class of DiceRoller.js (lines 13-217): the parsed
    expression is fixed at construction, the metadata can change afterwards
    through the normalising setters of `action`, `rollType` and
    `sendToOverride` (lines 33-75) or by plain assignment of `name`,
    `avatarUrl`, `entityType` and `entityId`.

    `None` stands for `undefined` and for any argument that is not a string. */
module DiceRolls {
  import opened Wrappers
  import opened TextUtil
  import opened DiceParse

  /** The three gamelog targets `sendToOverride` accepts. */
  datatype SendTo = Self | Everyone | DungeonMaster

  const ValidRollTypes: seq<string> := ["to hit", "damage", "save", "check", "heal", "reroll"]

  /** The `action` setter: blank text becomes `undefined`, anything else is
      trimmed. */
  function NormalizeAction(a: Option<string>): (r: Option<string>)
    ensures r.None? <==> a.None? || AllWhitespace(a.value)
    ensures r.Some? ==> (r.value != [] && !IsWhitespace(r.value[0])
      && !IsWhitespace(r.value[|r.value| - 1]))
  {
    if a.None? || AllWhitespace(a.value) then None
    else
      TrimShape(a.value);
      Some(Trim(a.value))
  }

  /** What the `rollType` setter compares against the accepted list. */
  function AlterRollType(s: string): string {
    ReplaceFirst(ToLower(Trim(s)), "-", " ")
  }

  /** The `rollType` setter: a non-string clears it, an accepted value is
      stored in its normalised form, anything else keeps `current`. */
  function NormalizeRollType(current: Option<string>, input: Option<string>): (r: Option<string>)
    ensures input.None? ==> r.None?
    ensures input.Some? && AlterRollType(input.value) in ValidRollTypes
      ==> r == Some(AlterRollType(input.value))
    ensures input.Some? && AlterRollType(input.value) !in ValidRollTypes ==> r == current
  {
    if input.None? then None
    else
      var t := AlterRollType(input.value);
      if t in ValidRollTypes then Some(t) else current
  }

  /** The `sendToOverride` setter: exactly the three names, else `undefined`. */
  function NormalizeSendTo(v: Option<string>): (r: Option<SendTo>)
    ensures r.Some? <==> v.Some? && v.value in ["Self", "Everyone", "DungeonMaster"]
  {
    if v == Some("Self") then Some(Self)
    else if v == Some("Everyone") then Some(Everyone)
    else if v == Some("DungeonMaster") then Some(DungeonMaster)
    else None
  }

  /** `if (name) this.name = name`: only a non-empty string is stored. */
  function IfTruthy(v: Option<string>): (r: Option<string>)
    ensures r.Some? ==> r == v && r.value != []
    ensures v.Some? && v.value != [] ==> r == v
  {
    if v.Some? && v.value != [] then v else None
  }

  /** Setting an action that came out of the setter changes nothing. */
  lemma NormalizeActionIdempotent(a: Option<string>)
    ensures NormalizeAction(NormalizeAction(a)) == NormalizeAction(a)
  {
    var r := NormalizeAction(a);
    if r.Some? {
      TrimIdempotent(a.value);
      assert !AllWhitespace(r.value) by {
        assert !IsWhitespace(r.value[0]);
      }
    }
  }

  /** Every accepted roll type is a fixed point of its own normalisation. */
  lemma AcceptedRollTypesStable(current: Option<string>, v: string)
    requires v in ValidRollTypes
    ensures NormalizeRollType(current, Some(v)) == Some(v)
  {
    assert v != [] && v[0] != ' ' && v[|v| - 1] != ' ';
    assert forall i | 0 <= i < |v| :: 'a' <= v[i] <= 'z' || v[i] == ' ';
    AlterIdle(v);
  }

  /** Text already trimmed, lower-case and without `-` is left alone. */
  lemma AlterIdle(v: string)
    requires v != [] && v[0] != ' ' && v[|v| - 1] != ' '
    requires forall i | 0 <= i < |v| :: 'a' <= v[i] <= 'z' || v[i] == ' '
    ensures AlterRollType(v) == v
  {
    TrimStartIdle(v);
    TrimEndIdle(v);
    assert ToLower(v) == v;
    NoHyphen(v);
  }

  lemma NoHyphen(v: string)
    requires '-' !in v
    ensures ReplaceFirst(v, "-", " ") == v
  {
  }

  /** The values a `DiceRoll` holds, as a snapshot. */
  datatype RollRequest = RollRequest(
    parsed: ParsedExpression,
    action: Option<string>,
    rollType: Option<string>,
    name: Option<string>,
    avatarUrl: Option<string>,
    entityType: Option<string>,
    entityId: Option<string>,
    sendToOverride: Option<SendTo>)

  class DiceRoll {
    const parsed: ParsedExpression
    var action: Option<string>
    var rollType: Option<string>
    var name: Option<string>
    var avatarUrl: Option<string>
    var entityType: Option<string>
    var entityId: Option<string>
    var sendToOverride: Option<SendTo>

    /** The parsed part came from `Parse`, the action went through its setter
        and the roll type is `undefined` or an accepted value. */
    predicate Valid()
      reads this
    {
      && Parse(parsed.expression) == Ok(parsed)
      && action == NormalizeAction(action)
      && (rollType.None? || rollType.value in ValidRollTypes)
    }

    function Snapshot(): RollRequest
      reads this
    {
      RollRequest(parsed, action, rollType, name, avatarUrl, entityType, entityId, sendToOverride)
    }

    /** The constructor after parsing succeeded (lines 144-151). */
    constructor (p: ParsedExpression, action: Option<string>, rollType: Option<string>,
                 name: Option<string>, avatarUrl: Option<string>, entityType: Option<string>,
                 entityId: Option<string>, sendTo: Option<string>)
      requires Parse(p.expression) == Ok(p)
      ensures Valid()
      ensures Snapshot() == RollRequest(p, NormalizeAction(action), NormalizeRollType(None, rollType),
        IfTruthy(name), IfTruthy(avatarUrl), IfTruthy(entityType), IfTruthy(entityId), NormalizeSendTo(sendTo))
    {
      var a := NormalizeAction(action);
      var t := NormalizeRollType(None, rollType);
      NormalizeActionIdempotent(action);
      assert a == NormalizeAction(a);
      assert t.None? || t.value in ValidRollTypes;
      parsed := p;
      this.action := a;
      this.rollType := t;
      this.sendToOverride := NormalizeSendTo(sendTo);
      this.name := IfTruthy(name);
      this.avatarUrl := IfTruthy(avatarUrl);
      this.entityType := IfTruthy(entityType);
      this.entityId := IfTruthy(entityId);
    }

    method SetAction(a: Option<string>)
      requires Valid()
      modifies this
      ensures Valid() && Snapshot() == old(Snapshot()).(action := NormalizeAction(a))
    {
      action := NormalizeAction(a);
      NormalizeActionIdempotent(a);
    }

    method SetRollType(t: Option<string>)
      requires Valid()
      modifies this
      ensures Valid() && Snapshot() == old(Snapshot()).(rollType := NormalizeRollType(old(rollType), t))
    {
      rollType := NormalizeRollType(rollType, t);
    }

    method SetSendToOverride(v: Option<string>)
      requires Valid()
      modifies this
      ensures Valid() && Snapshot() == old(Snapshot()).(sendToOverride := NormalizeSendTo(v))
    {
      sendToOverride := NormalizeSendTo(v);
    }
  }

  /** `new DiceRoll(expression, …)`: the "Invalid Expression" throw becomes
      an error result. */
  method NewDiceRoll(expression: string, action: Option<string>, rollType: Option<string>,
                     name: Option<string>, avatarUrl: Option<string>, entityType: Option<string>,
                     entityId: Option<string>, sendTo: Option<string>)
    returns (r: Result<DiceRoll, ParseError>)
    ensures r.Err? <==> Parse(expression).Err?
    ensures r.Err? ==> r.error == Parse(expression).error
    ensures r.Ok? ==> (fresh(r.value) && r.value.Valid()
      && r.value.Snapshot() == RollRequest(Parse(expression).value, NormalizeAction(action),
        NormalizeRollType(None, rollType), IfTruthy(name), IfTruthy(avatarUrl),
        IfTruthy(entityType), IfTruthy(entityId), NormalizeSendTo(sendTo)))
  {
    var p := ParseExpression(expression);
    if p.Err? {
      return Err(p.error);
    }
    ParseIdempotent(expression);
    var d := new DiceRoll(p.value, action, rollType, name, avatarUrl, entityType, entityId, sendTo);
    return Ok(d);
  }
}
