/** The `DiceRoller` session of DiceRoller.js (lines 219-579): it arms a
    timeout and stores a copy of the roll, and while armed it captures the
    provider's "pending" and "fulfilled" messages, relabels the first,
    reconciles the second with the stored roll and then returns to idle.

    The timer is the `armed` flag (`#timeoutId !== undefined`) with an
    explicit `Timeout` event; the wrapped `ddbDispatch` is the `dispatched`
    output sequence; the jQuery clicks of `clickDiceButtons` are the
    `clicks` output sequence of abstract actions. */
module DiceSession {
  import opened Wrappers
  import opened DiceGrammar
  import opened DiceParse
  import opened DiceRolls
  import opened Reconcile

  const PendingEvent := "dice/roll/pending"
  const FulfilledEvent := "dice/roll/fulfilled"

  /** One click of `clickDiceButtons`: a die button, a gamelog target in the
      options menu, or the plain roll button. */
  datatype UiAction = ClickDie(size: DieSize) | ChooseTarget(target: SendTo) | SubmitRoll

  /** `count` clicks on the same button. */
  function Repeat(a: UiAction, count: nat): (r: seq<UiAction>)
    ensures |r| == count && forall k | 0 <= k < count :: r[k] == a
  {
    if count == 0 then [] else Repeat(a, count - 1) + [a]
  }

  /** The die clicks for `diceToRoll`, entry by entry in its own order. */
  function DieClicks(dice: seq<DiceCount>): seq<UiAction> {
    if dice == [] then []
    else
      var last := dice[|dice| - 1];
      DieClicks(dice[..|dice| - 1]) + Repeat(ClickDie(last.size), last.count)
  }

  /** The last click: a target from `sendToOverride`, else the roll button. */
  function TargetAction(sendTo: Option<SendTo>): UiAction {
    match sendTo
    case Some(t) => ChooseTarget(t)
    case None => SubmitRoll
  }

  function ClickPlan(dice: seq<DiceCount>, sendTo: Option<SendTo>): seq<UiAction> {
    DieClicks(dice) + [TargetAction(sendTo)]
  }

  /** A size that is not in `diceToRoll` counts zero dice. */
  lemma {:induction false} CountForAbsent(dice: seq<DiceCount>, size: DieSize)
    requires forall k | 0 <= k < |dice| :: dice[k].size != size
    ensures CountFor(dice, size) == 0
  {
    if dice != [] {
      assert forall k | 0 <= k < |dice| - 1 :: dice[1..][k] == dice[k + 1];
      CountForAbsent(dice[1..], size);
    }
  }

  /** `CountFor` builds the entries front to back; the clicks go back to
      front: on distinct sizes both give the last entry's count. */
  lemma {:induction false} CountForLast(dice: seq<DiceCount>, size: DieSize)
    requires dice != [] && DistinctSizes(dice)
    ensures CountFor(dice, size)
      == CountFor(dice[..|dice| - 1], size) + (if dice[|dice| - 1].size == size then dice[|dice| - 1].count else 0)
  {
    var init := dice[..|dice| - 1];
    if |dice| == 1 {
      assert init == [];
    } else {
      assert init[0] == dice[0];
      assert init[1..] == dice[1..][..|dice[1..]| - 1];
      if dice[0].size != size {
        CountForLast(dice[1..], size);
      } else {
        assert forall k | 0 <= k < |init| - 1 :: init[1..][k].size == dice[k + 1].size;
      }
    }
  }

  /** One click per die the dice roll asks for, of every size. */
  lemma {:induction false} DieClicksCount(dice: seq<DiceCount>, size: DieSize)
    requires DistinctSizes(dice)
    ensures multiset(DieClicks(dice))[ClickDie(size)] == CountFor(dice, size)
  {
    if dice != [] {
      var init := dice[..|dice| - 1];
      var last := dice[|dice| - 1];
      DieClicksCount(init, size);
      CountForLast(dice, size);
      RepeatCount(ClickDie(last.size), last.count, ClickDie(size));
    } else {
      CountForAbsent(dice, size);
    }
  }

  lemma {:induction false} RepeatCount(a: UiAction, count: nat, b: UiAction)
    ensures multiset(Repeat(a, count))[b] == if a == b then count else 0
  {
    if count > 0 {
      RepeatCount(a, count - 1, b);
    }
  }

  /** The clicks for a parsed expression: as many die clicks of size N as
      the terms of size N need (doubled for reroll terms), then exactly one
      target or roll action. */
  lemma ClickPlanMatchesTerms(ts: seq<Term>, sendTo: Option<SendTo>, size: DieSize)
    requires AllWellFormed(ts)
    ensures multiset(ClickPlan(DiceToRoll(ts), sendTo))[ClickDie(size)] == NeededFor(ts, size)
    ensures ClickPlan(DiceToRoll(ts), sendTo)[|ClickPlan(DiceToRoll(ts), sendTo)| - 1] == TargetAction(sendTo)
  {
    DiceToRollCounts(ts, size);
    DieClicksCount(DiceToRoll(ts), size);
  }

  /** The copy `roll` stores (line 298): the constructor runs again on the
      roll's own values, which are already normalised, and `sendToOverride`
      is not passed. */
  function CopyForRoll(r: RollRequest): (c: RollRequest)
    ensures c.parsed == r.parsed && c.action == r.action && c.rollType == r.rollType
    ensures c.sendToOverride.None?
    ensures r.name.Some? && r.name.value != [] ==> c.name == r.name
  {
    r.(name := IfTruthy(r.name), avatarUrl := IfTruthy(r.avatarUrl),
       entityType := IfTruthy(r.entityType), entityId := IfTruthy(r.entityId),
       sendToOverride := None)
  }

  /** `this.#pendingMessage?.data?.rollId`. */
  function PendingRollId(pm: Option<Message>): Option<string> {
    if pm.None? then None else pm.value.data.rollId
  }

  /** The four ways `#wrappedDispatch` handles a message (lines 373-416). */
  datatype Route = PassThrough | CapturePending | CaptureFulfilled | Drop

  function RouteOf(armed: bool, pm: Option<Message>, msg: Message): (r: Route)
    ensures r == PassThrough <==> !armed
    ensures r == CapturePending <==> armed && msg.eventType == PendingEvent
    ensures r == CaptureFulfilled <==>
      armed && msg.eventType == FulfilledEvent && PendingRollId(pm) == msg.data.rollId
  {
    if !armed then PassThrough
    else if msg.eventType == PendingEvent then CapturePending
    else if msg.eventType == FulfilledEvent && PendingRollId(pm) == msg.data.rollId then CaptureFulfilled
    else Drop
  }

  /** `undefined === undefined`: while no pending message has been captured,
      a fulfilled message is taken exactly when it has no roll id. */
  lemma FulfilledWithoutPending(msg: Message)
    requires msg.eventType == FulfilledEvent
    ensures RouteOf(true, None, msg) == CaptureFulfilled <==> msg.data.rollId.None?
  {
  }

  /** While armed, a message is forwarded only if it is the pending event or
      the fulfilled event of the captured roll id. */
  lemma ArmedDropsOthers(pm: Option<Message>, msg: Message)
    requires msg.eventType != PendingEvent && msg.eventType != FulfilledEvent
    ensures RouteOf(true, pm, msg) == Drop
  {
  }

  class DiceRoller {
    var pending: Option<RollRequest>
    var pendingMessage: Option<Message>
    var armed: bool
    var dispatched: seq<Message>
    var clicks: seq<UiAction>

    /** Armed exactly while a roll is stored, a captured message only while
        armed, and the stored roll is a parse result. */
    predicate Valid()
      reads this
    {
      && (armed <==> pending.Some?)
      && (pendingMessage.Some? ==> armed)
      && (pending.Some? ==> Parse(pending.value.parsed.expression) == Ok(pending.value.parsed))
    }

    constructor ()
      ensures Valid() && !armed && dispatched == [] && clicks == []
    {
      pending := None;
      pendingMessage := None;
      armed := false;
      dispatched := [];
      clicks := [];
    }

    /** `#resetVariables` (lines 364-370). */
    method ResetVariables()
      modifies this
      ensures Valid() && !armed && pending.None? && pendingMessage.None?
      ensures dispatched == old(dispatched) && clicks == old(clicks)
    {
      armed := false;
      pendingMessage := None;
      pending := None;
    }

    /** The timeout firing (lines 293-296). */
    method Timeout()
      modifies this
      ensures Valid() && !armed && pending.None? && pendingMessage.None?
      ensures dispatched == old(dispatched) && clicks == old(clicks)
    {
      ResetVariables();
    }

    /** `clickDiceButtons` (lines 315-359) as a list of actions. */
    method ClickDiceButtons(dice: seq<DiceCount>, sendTo: Option<SendTo>)
      modifies this
      ensures clicks == old(clicks) + ClickPlan(dice, sendTo)
      ensures pending == old(pending) && pendingMessage == old(pendingMessage)
      ensures armed == old(armed) && dispatched == old(dispatched)
    {
      for j := 0 to |dice|
        invariant clicks == old(clicks) + DieClicks(dice[..j])
        invariant pending == old(pending) && pendingMessage == old(pendingMessage)
        invariant armed == old(armed) && dispatched == old(dispatched)
      {
        var before := clicks;
        for k := 0 to dice[j].count
          invariant clicks == before + Repeat(ClickDie(dice[j].size), k)
          invariant pending == old(pending) && pendingMessage == old(pendingMessage)
          invariant armed == old(armed) && dispatched == old(dispatched)
        {
          clicks := clicks + [ClickDie(dice[j].size)];
        }
        assert dice[..j + 1][..j] == dice[..j];
      }
      assert dice[..|dice|] == dice;
      clicks := clicks + [TargetAction(sendTo)];
    }

    /** `roll` (lines 259-309): refused for a missing or empty expression and
        while armed; otherwise the state is reset, the timer armed, a copy
        stored and the dice clicked. */
    method Roll(d: DiceRoll?) returns (ok: bool)
      requires Valid() && (d != null ==> d.Valid())
      modifies this
      ensures Valid()
      ensures ok <==> d != null && d.parsed.expression != [] && !old(armed)
      ensures !ok ==>
        pending == old(pending) && pendingMessage == old(pendingMessage)
        && armed == old(armed) && clicks == old(clicks)
      ensures ok ==>
        armed && pendingMessage.None? && pending == Some(CopyForRoll(d.Snapshot()))
        && clicks == old(clicks) + ClickPlan(d.parsed.diceToRoll, d.sendToOverride)
      ensures dispatched == old(dispatched)
    {
      if d == null || d.parsed.expression == [] {
        return false;
      }
      if armed {
        return false;
      }
      ResetVariables();
      armed := true;
      if d.rollType.Some? {
        AcceptedRollTypesStable(None, d.rollType.value);
      }
      var copy := NewDiceRoll(d.parsed.expression, d.action, d.rollType, d.name, d.avatarUrl,
                              d.entityType, d.entityId, None);
      assert copy.Ok?;
      pending := Some(copy.value.Snapshot());
      ClickDiceButtons(d.parsed.diceToRoll, d.sendToOverride);
      return true;
    }

    /** `#wrappedDispatch` (lines 373-416). */
    method Dispatch(msg: Message)
      requires Valid()
      modifies this
      ensures Valid() && clicks == old(clicks)
      ensures RouteOf(old(armed), old(pendingMessage), msg) == PassThrough ==>
        dispatched == old(dispatched) + [msg]
        && pending == old(pending) && pendingMessage == old(pendingMessage) && armed == old(armed)
      ensures RouteOf(old(armed), old(pendingMessage), msg) == CapturePending ==>
        pendingMessage == Some(SwapMetadata(msg, old(pending).value, None))
        && dispatched == old(dispatched) + [pendingMessage.value]
        && pending == old(pending) && armed
      ensures RouteOf(old(armed), old(pendingMessage), msg) == CaptureFulfilled ==>
        dispatched == old(dispatched) + [SwappedRolls(msg, old(pending).value)]
        && !armed && pending.None? && pendingMessage.None?
      ensures RouteOf(old(armed), old(pendingMessage), msg) == Drop ==>
        dispatched == old(dispatched)
        && pending == old(pending) && pendingMessage == old(pendingMessage) && armed == old(armed)
    {
      var route := RouteOf(armed, pendingMessage, msg);
      match route
      case PassThrough =>
        dispatched := dispatched + [msg];
      case CapturePending =>
        var relabelled := SwapMetadata(msg, pending.value, None);
        pendingMessage := Some(relabelled);
        dispatched := dispatched + [relabelled];
      case CaptureFulfilled =>
        var req := pending.value;
        var altered := SwapRollData(msg, req);
        dispatched := dispatched + [altered];
        ResetVariables();
      case Drop =>
    }
  }
}
