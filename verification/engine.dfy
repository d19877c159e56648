/**
 * The betting engine of DiceGameClient as a step function: one inbound
 * message, already parsed into a JSON value, and the current UTC time of day
 * take a session state to a new session state and at most one bet.
 */
module Engine {
  import opened Wrappers
  import opened Faults
  import opened Json
  import opened Dice
  import Target
  import Clock
  import Payload
  import Ledger
  import Settings

  /** The retry limit; the source fixes it at 2 and never changes it. */
  const MaxRetry: int := 2

  /** The "no target yet" value of the last bet target. */
  const NoTarget: int := -1

  /** The two values chosen at start-up: the base stake and how many recent rounds to look at. */
  datatype Config = Config(betAmount: int, rowsToCheck: int)

  /**
   * The client's mutable fields: the current round time and game id, the target
   * of the last bet and how many bets in a row went to it, and the balances.
   */
  datatype Session = Session(
    gameTime: string,
    gameId: string,
    lastTarget: int,
    retry: int,
    ledger: Ledger.Ledger)

  /** The fields as the constructor leaves them. */
  const Initial: Session := Session("", "", NoTarget, 0, Ledger.Initial)

  /** The invariant of the escalation state. */
  predicate Valid(s: Session) {
    && 0 <= s.retry <= MaxRetry
    && (s.lastTarget == NoTarget || 1 <= s.lastTarget <= 6)
  }

  /**
   * The outcome of handling one message: the session afterwards, the bet sent
   * (if any), and the exception that ended the handling early (if any). The
   * handler catches every exception, so a fault only means that the rest of
   * this message was skipped; changes made before it stay.
   */
  datatype Reaction = Reaction(session: Session, bet: Option<Payload.Wager>, fault: Option<Fault>)

  /** An intermediate step that may throw after having changed the session. */
  datatype Completion = Done(session: Session) | Threw(session: Session, fault: Fault)

  /**
   * GetBetAmoutByCount: the stake after `count` bets in a row on the same
   * target. The series starts at the base stake and each further bet adds one
   * base stake.
   */
  function StakeForRetry(cfg: Config, count: int): (stake: int)
    ensures count == 0 ==> stake == cfg.betAmount
    ensures count > 0 ==> stake == StakeForRetry(cfg, count - 1) + cfg.betAmount
  {
    assert cfg.betAmount * (count + 1) == cfg.betAmount * count + cfg.betAmount;
    cfg.betAmount * (count + 1)
  }

  /**
   * The guard shared by both message kinds: the root has a "type" whose string
   * is `name` and has "args". Some(args) when it holds, None when it does not,
   * and a fault when an accessor is applied to the wrong kind of value.
   */
  function EventArgs(root: Json, name: string): (r: Result<Option<Json>, Fault>)
    ensures r.Failure? <==>
      !root.JObject? || ("type" in root.properties && !(root.properties["type"].JString? || root.properties["type"].JNull?))
    ensures r.Success? && r.value.Some? <==>
      && root.JObject?
      && "type" in root.properties && root.properties["type"] == JString(name)
      && "args" in root.properties
    ensures r.Success? && r.value.Some? ==> r.value.value == root.properties["args"]
  {
    var ty :- TryGetProperty(root, "type");
    if ty.None? then Success(None)
    else
      var text :- GetString(ty.value);
      if text != Some(name) then Success(None)
      else TryGetProperty(root, "args")
  }

  /** The root of a balanceUpdated message whose args report the balance `b`. */
  predicate ReportsBalance(root: Json, b: Balance) {
    && root.JObject?
    && "type" in root.properties && root.properties["type"] == JString("balanceUpdated")
    && "args" in root.properties && root.properties["args"].JObject?
    && "balance" in root.properties["args"].properties
    && root.properties["args"].properties["balance"] == JNumber(Some(b))
  }

  /** The balanceUpdated branch: records the balance when the message carries one. */
  function BalanceMessage(l: Ledger.Ledger, root: Json): (r: Result<Ledger.Ledger, Fault>)
    ensures forall b :: ReportsBalance(root, b) ==> r == Success(Ledger.Record(l, b))
    ensures r.Success? && r.value != l ==> ReportsBalance(root, r.value.current)
    ensures r.Failure? ==> r.error == WrongValueKind
    ensures r.Failure? <==>
      || EventArgs(root, "balanceUpdated").Failure?
      || (&& EventArgs(root, "balanceUpdated").value.Some?
          && var args := EventArgs(root, "balanceUpdated").value.value;
             || !args.JObject?
             || ("balance" in args.properties && !args.properties["balance"].JNumber?))
    ensures r.Success? && r.value != l ==> !r.value.awaitingFirst
    ensures r.Success? && r.value != l ==> r.value.first == (if l.awaitingFirst then r.value.current else l.first)
    ensures r.Success? && r.value != l ==>
      root.JObject? && "type" in root.properties && root.properties["type"] == JString("balanceUpdated")
  {
    var args :- EventArgs(root, "balanceUpdated");
    if args.None? then Success(l)
    else
      var bal :- TryGetProperty(args.value, "balance");
      if bal.None? then Success(l)
      else
        var d :- TryGetDouble(bal.value);
        if d.None? then Success(l) else Success(Ledger.Record(l, d.value))
  }

  /** The text GetString gives a property, with null read as the empty string. */
  function StringOr(j: Json): Result<string, Fault>
  {
    match GetString(j)
    case Failure(f) => Failure(f)
    case Success(t) => Success(t.GetOr(""))
  }

  /**
   * UpdateGameState: "number" replaces the round time and "gameId" the game id,
   * each only when present. A present value of the wrong kind throws, after
   * any update made before it.
   */
  function UpdateGameState(s: Session, args: map<string, Json>): (c: Completion)
    ensures c.session.lastTarget == s.lastTarget && c.session.retry == s.retry && c.session.ledger == s.ledger
    ensures "number" !in args ==> c.session.gameTime == s.gameTime
    ensures "number" in args && args["number"].JString? ==> c.session.gameTime == args["number"].text
    ensures c.Done? <==>
      && ("number" in args ==> StringOr(args["number"]).Success?)
      && ("gameId" in args ==> StringOr(args["gameId"]).Success?)
    ensures c.Done? && "number" in args ==> c.session.gameTime == StringOr(args["number"]).value
    ensures c.Done? && "gameId" in args ==> c.session.gameId == StringOr(args["gameId"]).value
    ensures "gameId" !in args ==> c.session.gameId == s.gameId
    ensures "number" in args && StringOr(args["number"]).Failure? ==> c.session == s
    ensures "number" in args && StringOr(args["number"]).Success? ==> c.session.gameTime == StringOr(args["number"]).value
    ensures c.Threw? && ("number" !in args || StringOr(args["number"]).Success?) ==> c.session.gameId == s.gameId
    ensures c.Threw? ==> c.fault == WrongValueKind
  {
    var afterTime :=
      if "number" !in args then Done(s)
      else match StringOr(args["number"])
        case Failure(f) => Threw(s, f)
        case Success(t) => Done(s.(gameTime := t));
    if afterTime.Threw? || "gameId" !in args then afterTime
    else match StringOr(args["gameId"])
      case Failure(f) => Threw(afterTime.session, f)
      case Success(id) => Done(afterTime.session.(gameId := id))
  }

  /**
   * The re-arming at the start of a decision: a hit of `best` in the latest
   * round clears the last target and the count; a target other than the last
   * one clears the count.
   */
  function Rearm(s: Session, latest: Round, best: Face): (s': Session)
    ensures s'.gameTime == s.gameTime && s'.gameId == s.gameId && s'.ledger == s.ledger
    ensures s'.lastTarget == (if latest.Shows(best) then NoTarget else s.lastTarget)
    ensures s'.retry == (if latest.Shows(best) || s.lastTarget != best then 0 else s.retry)
  {
    var s1 := if latest.Shows(best) then s.(retry := 0, lastTarget := NoTarget) else s;
    if s1.lastTarget != best then s1.(retry := 0) else s1
  }

  /**
   * The decision on a state message that decoded at least one round: pick the
   * target from the window of recent rounds, re-arm, pass the time gate and
   * the retry limit, and bet only when the round time has just changed.
   */
  function Decide(cfg: Config, s: Session, rounds: seq<Round>, newRound: bool, now: Clock.Instant): (r: Reaction)
    requires |rounds| >= 1
    ensures r.session.gameTime == s.gameTime && r.session.gameId == s.gameId && r.session.ledger == s.ledger
    ensures r.fault.Some? ==> r.bet.None?
    ensures cfg.rowsToCheck < 0 <==> r.fault == Some(RangeOutOfBounds)
    ensures r.bet.Some? ==>
      && newRound
      && r.fault.None?
      && cfg.rowsToCheck >= 0
      && r.bet.value.target == Target.FindBestNumberToBet(Target.Window(rounds, cfg.rowsToCheck))
      && Clock.IsGameTimeValid(s.gameTime, now) == Success(true)
      && r.bet.value.gameTime == s.gameTime && r.bet.value.gameId == s.gameId
      && r.session.lastTarget == r.bet.value.target
      && r.session.retry <= MaxRetry
      && r.bet.value.stake == cfg.betAmount * r.session.retry
    ensures cfg.rowsToCheck >= 1 && r.bet.Some? ==> !rounds[0].Shows(r.bet.value.target)
    ensures !newRound ==> r.bet.None?
    ensures cfg.rowsToCheck < 0 ==> r == Reaction(s, None, Some(RangeOutOfBounds))
    ensures cfg.rowsToCheck >= 0 && Target.FindBestNumberToBet(Target.Window(rounds, cfg.rowsToCheck)) == 0 ==>
      r == Reaction(s, None, None)
    ensures cfg.rowsToCheck >= 0 ==>
      var best := Target.FindBestNumberToBet(Target.Window(rounds, cfg.rowsToCheck));
      best != 0 ==>
        var s1 := Rearm(s, rounds[0], best);
        && (r.bet.Some? <==> newRound && Clock.IsGameTimeValid(s.gameTime, now) == Success(true) && s1.retry < MaxRetry)
        && (r.bet.Some? ==>
              && r.bet.value == Payload.Wager(best, cfg.betAmount * (s1.retry + 1), s.gameTime, s.gameId)
              && r.session == s1.(lastTarget := best, retry := s1.retry + 1))
        && (r.bet.None? ==> r.session == s1)
        && (r.fault.Some? <==> Clock.IsGameTimeValid(s.gameTime, now).Failure?)
        && (r.fault.Some? ==> r.fault == Some(TimeFormat))
  {
    if cfg.rowsToCheck < 0 then Reaction(s, None, Some(RangeOutOfBounds))
    else
      var best := Target.FindBestNumberToBet(Target.Window(rounds, cfg.rowsToCheck));
      if best == 0 then Reaction(s, None, None)
      else
        var s1 := Rearm(s, rounds[0], best);
        match Clock.IsGameTimeValid(s1.gameTime, now)
        case Failure(f) => Reaction(s1, None, Some(f))
        case Success(inTime) =>
          if !inTime || s1.retry >= MaxRetry || !newRound then Reaction(s1, None, None)
          else
            var w := Payload.Wager(best, StakeForRetry(cfg, s1.retry), s1.gameTime, s1.gameId);
            assert cfg.rowsToCheck >= 1 ==> !rounds[0].Shows(best) by {
              if cfg.rowsToCheck >= 1 {
                Target.LatestRoundNeverHit(rounds, cfg.rowsToCheck);
              }
            }
            Reaction(s1.(lastTarget := best, retry := s1.retry + 1), Some(w), None)
  }

  /** The root of a dice.state message whose args is an object. */
  predicate IsDiceState(root: Json) {
    && root.JObject?
    && "type" in root.properties && root.properties["type"] == JString("dice.state")
    && "args" in root.properties && root.properties["args"].JObject?
  }

  /** The properties of a dice.state message's args. */
  function StateArgs(root: Json): map<string, Json>
    requires IsDiceState(root)
  {
    root.properties["args"].properties
  }

  /**
   * The dice.state branch. Any other message leaves the session as it is; a
   * bet goes on the least face missing from the window of the message's own
   * decoded rounds.
   */
  function DiceStateMessage(cfg: Config, s: Session, root: Json, now: Clock.Instant): (r: Reaction)
    ensures r.session.ledger == s.ledger
    ensures r.fault.Some? ==> r.bet.None?
    ensures !IsDiceState(root) ==> r.bet.None? && r.session == s
    ensures && EventArgs(root, "dice.state").Success? && EventArgs(root, "dice.state").value.Some?
            && !EventArgs(root, "dice.state").value.value.JObject?
            ==> r == Reaction(s, None, Some(WrongValueKind))
    ensures r.bet.Some? ==>
      && IsDiceState(root)
      && cfg.rowsToCheck >= 0
      && var rounds := ParseRecentResults(StateArgs(root));
         && |rounds| >= 1
         && r.bet.value.target == Target.FindBestNumberToBet(Target.Window(rounds, cfg.rowsToCheck))
  {
    match EventArgs(root, "dice.state")
    case Failure(f) => Reaction(s, None, Some(f))
    case Success(None) => Reaction(s, None, None)
    case Success(Some(args)) =>
      if !args.JObject? then Reaction(s, None, Some(WrongValueKind))
      else
        match UpdateGameState(s, args.properties)
        case Threw(s1, f) => Reaction(s1, None, Some(f))
        case Done(s1) =>
          var rounds := ParseRecentResults(args.properties);
          if rounds == [] then Reaction(s1, None, None)
          else Decide(cfg, s1, rounds, s.gameTime != s1.gameTime, now)
  }

  /**
   * ProcessMessageAsync: `message` is None when the text is not JSON. The
   * balance branch runs first, then the dice.state branch.
   */
  function Process(cfg: Config, s: Session, message: Option<Json>, now: Clock.Instant): (r: Reaction)
    ensures r.fault.Some? ==> r.bet.None?
    ensures message.None? ==> r == Reaction(s, None, Some(JsonSyntax))
    ensures message.Some? && BalanceMessage(s.ledger, message.value).Failure? ==> r == Reaction(s, None, Some(WrongValueKind))
    ensures r.bet.Some? ==>
      && r.session.gameTime != s.gameTime
      && r.bet.value.gameTime == r.session.gameTime && r.bet.value.gameId == r.session.gameId
      && Clock.IsGameTimeValid(r.session.gameTime, now) == Success(true)
      && r.session.lastTarget == r.bet.value.target
      && r.bet.value.stake == cfg.betAmount * r.session.retry
      && r.session.retry <= MaxRetry
    ensures r.bet.None? ==>
      || (r.session.retry == s.retry && r.session.lastTarget == s.lastTarget)
      || (r.session.retry == 0 && (r.session.lastTarget == s.lastTarget || r.session.lastTarget == NoTarget))
    ensures r.bet.Some? ==>
      && message.Some? && IsDiceState(message.value)
      && cfg.rowsToCheck >= 0
      && var rounds := ParseRecentResults(StateArgs(message.value));
         && |rounds| >= 1
         && r.bet.value.target == Target.FindBestNumberToBet(Target.Window(rounds, cfg.rowsToCheck))
    ensures r.bet.Some? ==>
      || (r.session.retry == 1 && s.lastTarget != r.bet.value.target)
      || (r.session.retry == 1 && s.lastTarget == r.bet.value.target && cfg.rowsToCheck <= 0)
      || (r.session.retry == s.retry + 1 && s.lastTarget == r.bet.value.target)
  {
    match message
    case None => Reaction(s, None, Some(JsonSyntax))
    case Some(root) =>
      match BalanceMessage(s.ledger, root)
      case Failure(f) => Reaction(s, None, Some(f))
      case Success(l) => DiceStateMessage(cfg, s.(ledger := l), root, now)
  }

  /**
   * The hit reset never fires: with at least one row considered, the target
   * never shows in the latest round, so re-arming only clears the count when
   * the target changed.
   */
  lemma HitResetUnreachable(cfg: Config, s: Session, rounds: seq<Round>)
    requires cfg.rowsToCheck >= 1 && |rounds| >= 1
    ensures var best := Target.FindBestNumberToBet(Target.Window(rounds, cfg.rowsToCheck));
      best != 0 ==>
        && !rounds[0].Shows(best)
        && Rearm(s, rounds[0], best) == s.(retry := if s.lastTarget == best then s.retry else 0)
  {
    Target.LatestRoundNeverHit(rounds, cfg.rowsToCheck);
  }

  /**
   * Although the hit test looks at the new target, a hit of the last target
   * in the latest round still clears the count: the new target never shows in
   * that round, so it differs from the last one.
   */
  lemma HitOfLastTargetResetsRetry(cfg: Config, s: Session, rounds: seq<Round>, newRound: bool, now: Clock.Instant)
    requires cfg.rowsToCheck >= 1 && |rounds| >= 1
    requires rounds[0].Shows(s.lastTarget)
    ensures var r := Decide(cfg, s, rounds, newRound, now);
      Target.FindBestNumberToBet(Target.Window(rounds, cfg.rowsToCheck)) != 0 ==>
        && (r.bet.None? ==> r.session.retry == 0)
        && (r.bet.Some? ==> r.session.retry == 1 && r.bet.value.stake == cfg.betAmount)
  {
  }

  /** Every message keeps the retry count within 0..MaxRetry and the last target a face or none. */
  lemma ProcessPreservesValid(cfg: Config, s: Session, message: Option<Json>, now: Clock.Instant)
    requires Valid(s)
    ensures Valid(Process(cfg, s, message, now).session)
  {
  }

  /**
   * A target other than the last one clears the retry count even when nothing
   * is sent; a bet on it is then the first of a new series.
   */
  lemma TargetChangeResetsRetry(cfg: Config, s: Session, rounds: seq<Round>, newRound: bool, now: Clock.Instant)
    requires |rounds| >= 1 && cfg.rowsToCheck >= 0
    requires var best := Target.FindBestNumberToBet(Target.Window(rounds, cfg.rowsToCheck));
      best != 0 && best != s.lastTarget
    ensures var r := Decide(cfg, s, rounds, newRound, now);
      && r.session.retry == (if r.bet.Some? then 1 else 0)
      && (r.bet.Some? ==> r.bet.value.stake == cfg.betAmount)
  {
  }

  /** Once the first balance is captured, no message changes it. */
  lemma FirstBalanceKept(cfg: Config, s: Session, message: Option<Json>, now: Clock.Instant)
    requires !s.ledger.awaitingFirst
    ensures var l := Process(cfg, s, message, now).session.ledger;
      l.first == s.ledger.first && !l.awaitingFirst
  {
  }

  /**
   * A dice.state message with object args is handled in full by the dice.state
   * branch: the fields are updated, and when that does not throw and some
   * rounds decode, the decision is taken on exactly those rounds, with a new
   * round iff the round time changed.
   */
  lemma DiceStateDecides(cfg: Config, s: Session, root: Json, now: Clock.Instant)
    requires IsDiceState(root)
    ensures var c := UpdateGameState(s, StateArgs(root));
      var rounds := ParseRecentResults(StateArgs(root));
      var r := Process(cfg, s, Some(root), now);
      && (c.Threw? ==> r == Reaction(c.session, None, Some(c.fault)))
      && (c.Done? && rounds == [] ==> r == Reaction(c.session, None, None))
      && (c.Done? && rounds != [] ==> r == Decide(cfg, c.session, rounds, s.gameTime != c.session.gameTime, now))
  {
    assert BalanceMessage(s.ledger, root) == Success(s.ledger);
  }

  /** A balanceUpdated message that reports a balance records it, sends nothing, and touches nothing else. */
  lemma BalanceUpdateRecorded(cfg: Config, s: Session, root: Json, b: Balance, now: Clock.Instant)
    requires ReportsBalance(root, b)
    ensures Process(cfg, s, Some(root), now) == Reaction(s.(ledger := Ledger.Record(s.ledger, b)), None, None)
  {
  }

  /** Applying the same game-state fields twice changes nothing the second time. */
  lemma UpdateGameStateIdempotent(s: Session, args: map<string, Json>)
    ensures UpdateGameState(UpdateGameState(s, args).session, args) == UpdateGameState(s, args)
  {
  }

  /** A balance recorded twice is recorded once. */
  lemma BalanceMessageIdempotent(l: Ledger.Ledger, root: Json)
    requires BalanceMessage(l, root).Success?
    ensures BalanceMessage(BalanceMessage(l, root).value, root) == BalanceMessage(l, root)
  {
  }

  /**
   * Handling a message a second time never sends a bet, because the round
   * time it carries is already the current one. With at least one row
   * considered, the second handling also leaves the session as it was.
   */
  lemma ReprocessSendsNothing(cfg: Config, s: Session, message: Option<Json>, now1: Clock.Instant, now2: Clock.Instant)
    ensures var r1 := Process(cfg, s, message, now1);
      Process(cfg, r1.session, message, now2).bet.None?
    ensures var r1 := Process(cfg, s, message, now1);
      cfg.rowsToCheck >= 1 ==> Process(cfg, r1.session, message, now2).session == r1.session
  {
    var r1 := Process(cfg, s, message, now1);
    if message.Some? {
      var root := message.value;
      var b1 := BalanceMessage(s.ledger, root);
      if b1.Success? {
        var t := s.(ledger := b1.value);
        BalanceMessageIdempotent(s.ledger, root);
        assert r1 == DiceStateMessage(cfg, t, root, now1);
        assert BalanceMessage(r1.session.ledger, root) == b1;
        assert r1.session.(ledger := b1.value) == r1.session;
        DiceStateTwice(cfg, t, root, now1, now2);
      }
    }
  }

  /** The dice.state half of ReprocessSendsNothing. */
  lemma DiceStateTwice(cfg: Config, s: Session, root: Json, now1: Clock.Instant, now2: Clock.Instant)
    ensures var r1 := DiceStateMessage(cfg, s, root, now1);
      DiceStateMessage(cfg, r1.session, root, now2).bet.None?
    ensures var r1 := DiceStateMessage(cfg, s, root, now1);
      cfg.rowsToCheck >= 1 ==> DiceStateMessage(cfg, r1.session, root, now2).session == r1.session
  {
    var e := EventArgs(root, "dice.state");
    if e.Success? && e.value.Some? && e.value.value.JObject? {
      var args := e.value.value.properties;
      var c1 := UpdateGameState(s, args);
      UpdateGameStateIdempotent(s, args);
      if c1.Done? {
        var rounds := ParseRecentResults(args);
        if rounds != [] {
          var d1 := Decide(cfg, c1.session, rounds, s.gameTime != c1.session.gameTime, now1);
          assert UpdateGameState(d1.session, args) == Done(d1.session) by {
            assert d1.session == c1.session.(lastTarget := d1.session.lastTarget, retry := d1.session.retry);
          }
          if cfg.rowsToCheck >= 1 {
            HitResetUnreachable(cfg, c1.session, rounds);
            HitResetUnreachable(cfg, d1.session, rounds);
          }
        }
      }
    }
  }

  /** One inbound message and the UTC time of day at which it is handled. */
  datatype Event = Event(message: Option<Json>, now: Clock.Instant)

  /** The session after a sequence of messages, oldest first, and the bets sent, in order. */
  function Run(cfg: Config, s: Session, events: seq<Event>): (Session, seq<Payload.Wager>)
    decreases |events|
  {
    if events == [] then (s, [])
    else
      var (before, bets) := Run(cfg, s, events[..|events| - 1]);
      var e := events[|events| - 1];
      var r := Process(cfg, before, e.message, e.now);
      (r.session, bets + if r.bet.Some? then [r.bet.value] else [])
  }

  /**
   * What the escalation state remembers about the bets sent so far: while the
   * count is positive, the last bet went to the last target with the stake of
   * that count.
   */
  ghost predicate Remembers(cfg: Config, s: Session, bets: seq<Payload.Wager>) {
    && Valid(s)
    && (s.retry > 0 ==>
          && |bets| > 0
          && bets[|bets| - 1].target == s.lastTarget
          && bets[|bets| - 1].stake == cfg.betAmount * s.retry)
  }

  /**
   * Every bet either starts a series at the base stake or continues the
   * previous bet's target with one more base stake.
   */
  ghost predicate LinearStakes(base: int, bets: seq<Payload.Wager>) {
    forall i :: 0 <= i < |bets| ==> StartsOrContinues(base, bets, i)
  }

  /** Bet `i` is at the base stake, or on bet i-1's target with one more base stake. */
  ghost predicate StartsOrContinues(base: int, bets: seq<Payload.Wager>, i: int)
    requires 0 <= i < |bets|
  {
    || bets[i].stake == base
    || (0 < i && bets[i].target == bets[i - 1].target && bets[i].stake == bets[i - 1].stake + base)
  }

  /** Every stake lies between one and MaxRetry base stakes. */
  ghost predicate BoundedStakes(base: int, bets: seq<Payload.Wager>) {
    forall i :: 0 <= i < |bets| ==> base <= bets[i].stake <= base * MaxRetry
  }

  /**
   * Escalation is linear and bounded. From the initial state, every bet either
   * starts a series at the base stake, or continues the previous bet's target
   * with one more base stake; no stake exceeds MaxRetry base stakes, so a
   * target that persists gets base, 2 * base, ..., at most MaxRetry bets in a
   * row.
   */
  lemma {:induction false} EscalationIsLinear(cfg: Config, events: seq<Event>)
    ensures Remembers(cfg, Run(cfg, Initial, events).0, Run(cfg, Initial, events).1)
    ensures Valid(Run(cfg, Initial, events).0)
    ensures LinearStakes(cfg.betAmount, Run(cfg, Initial, events).1)
    ensures cfg.betAmount >= 0 ==> BoundedStakes(cfg.betAmount, Run(cfg, Initial, events).1)
    decreases |events|
  {
    if events != [] {
      var prefix := events[..|events| - 1];
      EscalationIsLinear(cfg, prefix);
      var (before, bets) := Run(cfg, Initial, prefix);
      var e := events[|events| - 1];
      StepKeepsEscalation(cfg, before, bets, e);
    }
  }

  /** One more message keeps what the escalation state remembers, and the stakes linear and bounded. */
  lemma StepKeepsEscalation(cfg: Config, before: Session, bets: seq<Payload.Wager>, e: Event)
    requires Remembers(cfg, before, bets)
    requires LinearStakes(cfg.betAmount, bets)
    requires cfg.betAmount >= 0 ==> BoundedStakes(cfg.betAmount, bets)
    ensures var r := Process(cfg, before, e.message, e.now);
      var bets' := bets + if r.bet.Some? then [r.bet.value] else [];
      && Remembers(cfg, r.session, bets')
      && LinearStakes(cfg.betAmount, bets')
      && (cfg.betAmount >= 0 ==> BoundedStakes(cfg.betAmount, bets'))
  {
    var r := Process(cfg, before, e.message, e.now);
    ProcessPreservesValid(cfg, before, e.message, e.now);
    if r.bet.Some? {
      var w := r.bet.value;
      var bets' := bets + [w];
      assert bets'[|bets'| - 1] == w;
      AppendKeepsLinear(cfg.betAmount, bets, w);
      if cfg.betAmount >= 0 {
        MultiplyMonotone(cfg.betAmount, r.session.retry, MaxRetry);
        MultiplyMonotone(cfg.betAmount, 1, r.session.retry);
        AppendKeepsBounded(cfg.betAmount, bets, w);
      }
    } else {
      assert bets + [] == bets;
    }
  }

  lemma AppendKeepsLinear(base: int, bets: seq<Payload.Wager>, w: Payload.Wager)
    requires LinearStakes(base, bets)
    requires || w.stake == base
             || (|bets| > 0 && w.target == bets[|bets| - 1].target && w.stake == bets[|bets| - 1].stake + base)
    ensures LinearStakes(base, bets + [w])
  {
    var bets' := bets + [w];
    forall i | 0 <= i < |bets'|
      ensures StartsOrContinues(base, bets', i)
    {
      if i < |bets| {
        assert bets'[i] == bets[i];
        assert StartsOrContinues(base, bets, i);
        if 0 < i {
          assert bets'[i - 1] == bets[i - 1];
        }
      } else {
        assert bets'[i] == w;
        if 0 < i {
          assert bets'[i - 1] == bets[|bets| - 1];
        }
      }
    }
  }

  lemma AppendKeepsBounded(base: int, bets: seq<Payload.Wager>, w: Payload.Wager)
    requires BoundedStakes(base, bets)
    requires base <= w.stake <= base * MaxRetry
    ensures BoundedStakes(base, bets + [w])
  {
  }

  lemma MultiplyMonotone(a: int, x: int, y: int)
    requires a >= 0 && x <= y
    ensures a * x <= a * y
  {
  }

  /** The configuration Main builds from the two validated inputs. */
  function ValidatedConfig(betInput: Option<int>, rowsInput: Option<int>): (cfg: Config)
    ensures cfg.rowsToCheck >= 1 && 200 <= cfg.betAmount <= 2000
  {
    Config(Settings.PromptBetAmount(betInput), Settings.PromptSearchRows(rowsInput))
  }

  /**
   * Under a validated configuration every stake is at most 4000, far inside
   * the 32-bit range of the source's int, so no wrap-around can occur.
   */
  lemma ValidatedStakesFitInt32(betInput: Option<int>, rowsInput: Option<int>, events: seq<Event>)
    ensures var cfg := ValidatedConfig(betInput, rowsInput);
      forall w :: w in Run(cfg, Initial, events).1 ==> 200 <= w.stake <= 4000 < 0x8000_0000
  {
    var cfg := ValidatedConfig(betInput, rowsInput);
    EscalationIsLinear(cfg, events);
    var bets := Run(cfg, Initial, events).1;
    forall w | w in bets
      ensures 200 <= w.stake <= 4000
    {
      var i :| 0 <= i < |bets| && bets[i] == w;
      MultiplyMonotone(2, cfg.betAmount, 2000);
    }
  }

  /** A dice.state message with a round time, a game id and the given recent rounds. */
  function StateMessage(time: string, id: string, rounds: seq<Round>): Json
  {
    JObject(map[
      "type" := JString("dice.state"),
      "args" := JObject(map[
        "number" := JString(time),
        "gameId" := JString(id),
        "recentResults" := JArray(RoundEntries(rounds))])])
  }

  /** Handling a well-formed state message decodes its rounds and decides on them. */
  lemma StateMessageDecides(cfg: Config, s: Session, time: string, id: string, rounds: seq<Round>, now: Clock.Instant)
    requires |rounds| >= 1
    ensures Process(cfg, s, Some(StateMessage(time, id, rounds)), now)
         == Decide(cfg, s.(gameTime := time, gameId := id), rounds, s.gameTime != time, now)
  {
    var m := StateMessage(time, id, rounds);
    var args := m.properties["args"].properties;
    DecodeRoundEntries(rounds);
    assert ParseRecentResults(args) == rounds;
    assert BalanceMessage(s.ledger, m) == Success(s.ledger);
    assert UpdateGameState(s, args) == Done(s.(gameTime := time, gameId := id));
  }

  const Scenario1: seq<Round> := [Round(1, 2, 3), Round(4, 5, 1)]
  const Scenario2: seq<Round> := [Round(2, 2, 3), Round(1, 2, 3), Round(4, 5, 1)]
  const Scenario3: seq<Round> := [Round(5, 5, 5), Round(2, 2, 3), Round(1, 4, 3)]

  /** In each scenario message the first five rounds show 1..5 and never 6. */
  lemma ScenarioTargets()
    ensures Target.FindBestNumberToBet(Target.Window(Scenario1, 5)) == 6
    ensures Target.FindBestNumberToBet(Target.Window(Scenario2, 5)) == 6
    ensures Target.FindBestNumberToBet(Target.Window(Scenario3, 5)) == 6
  {
    assert Target.Window(Scenario1, 5) == Scenario1;
    assert Scenario1[..1] == [Round(1, 2, 3)];
    assert Target.Faces(Scenario1) == {1, 2, 3, 4, 5};
    assert Target.Window(Scenario2, 5) == Scenario2;
    assert Scenario2[..2] == [Round(2, 2, 3), Round(1, 2, 3)];
    assert Scenario2[..2][..1] == [Round(2, 2, 3)];
    assert Target.Faces(Scenario2) == {1, 2, 3, 4, 5};
    assert Target.Window(Scenario3, 5) == Scenario3;
    assert Scenario3[..2] == [Round(5, 5, 5), Round(2, 2, 3)];
    assert Scenario3[..2][..1] == [Round(5, 5, 5)];
    assert Target.Faces(Scenario3) == {1, 2, 3, 4, 5};
  }

  const ScenarioConfig: Config := Config(200, 5)
  const AfterFirstBet: Session := Session("12:00:00", "g1", 6, 1, Ledger.Initial)
  const AfterSecondBet: Session := Session("12:00:30", "g2", 6, 2, Ledger.Initial)

  /*
   * A worked scenario, one message at a time: base stake 200
   * and five rows; recent results covering 1..5 make 6 the target and send 200
   * on it; the next round, with 6 still missing, sends 400 on it; the round
   * after that sends nothing, because the retry limit is reached.
   */

  /** First message: the window shows 1..5, so 200 goes on 6. */
  lemma ScenarioFirstBet()
    ensures Process(ScenarioConfig, Initial, Some(StateMessage("12:00:00", "g1", Scenario1)), 43203 * Clock.TicksPerSecond)
         == Reaction(AfterFirstBet, Some(Payload.Wager(6, 200, "12:00:00", "g1")), None)
  {
    ScenarioTargets();
    assert Clock.ParseTimeOfDay("12:00:00") == Some(43200);
    StateMessageDecides(ScenarioConfig, Initial, "12:00:00", "g1", Scenario1, 43203 * Clock.TicksPerSecond);
  }

  /** Second message, a new round with 6 still missing: 400 goes on 6. */
  lemma ScenarioSecondBet()
    ensures Process(ScenarioConfig, AfterFirstBet, Some(StateMessage("12:00:30", "g2", Scenario2)), 43232 * Clock.TicksPerSecond)
         == Reaction(AfterSecondBet, Some(Payload.Wager(6, 400, "12:00:30", "g2")), None)
  {
    ScenarioTargets();
    assert Clock.ParseTimeOfDay("12:00:30") == Some(43230);
    StateMessageDecides(ScenarioConfig, AfterFirstBet, "12:00:30", "g2", Scenario2, 43232 * Clock.TicksPerSecond);
  }

  /** A message for 12:00:01 without results moves the round time on and sends nothing. */
  lemma RoundTimeMovesOn()
    ensures Process(ScenarioConfig, AfterFirstBet, Some(StateMessage("12:00:01", "g1", [])), 43203 * Clock.TicksPerSecond)
         == Reaction(AfterFirstBet.(gameTime := "12:00:01"), None, None)
  {
    var m := StateMessage("12:00:01", "g1", []);
    DiceStateDecides(ScenarioConfig, AfterFirstBet, m, 43203 * Clock.TicksPerSecond);
    assert ParseRecentResults(StateArgs(m)) == [];
    assert UpdateGameState(AfterFirstBet, StateArgs(m)) == Done(AfterFirstBet.(gameTime := "12:00:01"));
  }

  /**
   * The bet guard compares the round time only with the one before: after the
   * first bet on 12:00:00 and a message for 12:00:01 without results
   * (RoundTimeMovesOn), 12:00:00 again sends a second bet for round 12:00:00.
   */
  lemma RevisitedRoundTimeBetsAgain()
    ensures Process(ScenarioConfig, AfterFirstBet.(gameTime := "12:00:01"), Some(StateMessage("12:00:00", "g1", Scenario1)), 43204 * Clock.TicksPerSecond)
         == Reaction(AfterFirstBet.(retry := 2), Some(Payload.Wager(6, 400, "12:00:00", "g1")), None)
  {
    ScenarioTargets();
    assert Clock.ParseTimeOfDay("12:00:00") == Some(43200);
    StateMessageDecides(ScenarioConfig, AfterFirstBet.(gameTime := "12:00:01"), "12:00:00", "g1", Scenario1, 43204 * Clock.TicksPerSecond);
  }

  /** Third message: 6 is still the target, but the retry limit is reached. */
  lemma ScenarioLimitReached()
    ensures Process(ScenarioConfig, AfterSecondBet, Some(StateMessage("12:01:00", "g3", Scenario3)), 43261 * Clock.TicksPerSecond)
         == Reaction(AfterSecondBet.(gameTime := "12:01:00", gameId := "g3"), None, None)
  {
    ScenarioTargets();
    assert Clock.ParseTimeOfDay("12:01:00") == Some(43260);
    StateMessageDecides(ScenarioConfig, AfterSecondBet, "12:01:00", "g3", Scenario3, 43261 * Clock.TicksPerSecond);
  }
}
