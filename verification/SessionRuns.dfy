// Runs of one session: any interleaving of client requests, departures and timers that are
// still pending, however old.
module SessionRuns {
  import opened Geometry
  import opened Fleets
  import opened ShotRules
  import opened EnemyViews
  import opened SessionRules
  import TimerPass

  /** A session with the timers it has queued at the server; turnTimer is the timer the session
      remembers, which it may stop. */
  datatype World = World(s: Session, pending: map<nat, TimerKind>, nextId: nat, turnTimer: int)

  const NO_TIMER: int := -1

  datatype Step =
    | Request(client: Client, endTime: int)
    | Field(client: Client, board: Board, msgId: int)
    | Move(client: Client, point: Point)
    | Leave(client: Client)
    | Fire(id: nat, first: int, shot: Point, endTime: int)

  function Start(): World {
    World(NewSession(), map[], 0, NO_TIMER)
  }

  /** An outcome takes effect: one new timer is queued at most, a turn timer is remembered,
      and the remembered one is stopped on demand. */
  function Applied(w: World, o: Outcome): World {
    var kept := if o.stopTurn then w.pending - {w.turnTimer} else w.pending;
    if o.timers == [] then w.(s := o.session, pending := kept, turnTimer := if o.stopTurn then NO_TIMER else w.turnTimer)
    else
      World(o.session, kept[w.nextId := o.timers[0]], w.nextId + 1,
            if o.timers[0] == TurnEnd then w.nextId else if o.stopTurn then NO_TIMER else w.turnTimer)
  }

  /** What the event of a timer does. */
  ghost function TimerEvent(s: Session, kind: TimerKind, first: int, shot: Point, endTime: int): Outcome
    requires RosterOk(s) && 0 <= first < 2
  {
    match kind
    case PreparationEnd => StopPreparation(s)
    case FieldCheck => CheckStartFields(s)
    case GameStart => StartGame(s, first, endTime)
    case TurnEnd => EndTurn(s)
    case TurnChange => ChangeTurnPlayer(s, shot, endTime)
    case GameEnd => EndGame(s)
  }

  /** The step can happen: a timer must be pending, the draw of the first player is 0 or 1, and
      a shot must be one that the retry loop can end with. */
  ghost predicate Enabled(w: World, step: Step) {
    step.Fire? ==>
      && step.id in w.pending && 0 <= step.first < 2
      && (w.pending[step.id] == TurnChange && w.s.state == ProcessTurn ==> ShotTaken(w.s, step.shot))
  }

  ghost function Do(w: World, step: Step): World
    requires RosterOk(w.s) && Enabled(w, step)
  {
    match step
    case Request(c, endTime) => Applied(w, RequestGame(w.s, c, endTime))
    case Field(c, b, id) => Applied(w, SendField(w.s, c, b, id))
    case Move(c, p) => Applied(w, SendMove(w.s, c, p))
    case Leave(c) => if HasPlayer(w.s, c) then Applied(w, DisconnectPlayer(w.s, c)) else w
    case Fire(id, first, shot, endTime) =>
      Applied(w.(pending := w.pending - {id}), TimerEvent(w.s, w.pending[id], first, shot, endTime))
  }

  // ---------- what every interleaving keeps ----------

  /** The roster rule at rest, and: during a turn the remembered turn timer is still queued, so
      stopping it never touches a timer that is gone. */
  ghost predicate WorldOk(w: World) {
    && RosterOk(w.s) && w.s.state != WaitPreparation
    && (forall id :: id in w.pending ==> id < w.nextId)
    && (w.s.state == GameTurn ==> w.turnTimer in w.pending && w.pending[w.turnTimer] == TurnEnd)
  }

  /** Steps taken one after another. What a step does is only defined where the roster rule
      holds; that it always is, is EveryRunKeepsRoster. */
  ghost predicate IsRun(worlds: seq<World>, steps: seq<Step>) {
    && |worlds| == |steps| + 1
    && forall i :: 0 <= i < |steps| ==>
      Enabled(worlds[i], steps[i]) && (RosterOk(worlds[i].s) ==> worlds[i + 1] == Do(worlds[i], steps[i]))
  }

  ghost predicate Follows(w: World, step: Step, w': World) {
    RosterOk(w.s) && Enabled(w, step) && w' == Do(w, step)
  }

  /** What every operation's outcome has in common: the roster rule, at most one new timer, and
      a turn in progress afterwards is either the one from before or a new one. */
  ghost predicate OutcomeOk(s: Session, o: Outcome) {
    && RosterOk(o.session) && o.session.state != WaitPreparation
    && |o.timers| <= 1
    && (o.session.state == GameTurn ==> o.timers == [TurnEnd] || (s.state == GameTurn && !o.stopTurn))
    && (o.timers == [TurnEnd] ==> o.session.state == GameTurn)
  }

  lemma RequestOk(s: Session, c: Client, endTime: int)
    requires RosterOk(s) && s.state != WaitPreparation
    ensures OutcomeOk(s, RequestGame(s, c, endTime))
  {
  }

  lemma MessageOk(s: Session, c: Client, b: Board, msgId: int, p: Point)
    requires RosterOk(s) && s.state != WaitPreparation
    ensures OutcomeOk(s, SendField(s, c, b, msgId)) && OutcomeOk(s, SendMove(s, c, p))
  {
    hide ValidStart;
  }

  lemma DepartureOk(s: Session, c: Client)
    requires RosterOk(s) && s.state != WaitPreparation
    ensures OutcomeOk(s, DisconnectPlayer(s, c)) && OutcomeOk(s, EndGame(s))
  {
  }

  lemma KickOk(s: Session, i: int)
    requires RosterOk(s) && s.state != WaitPreparation && 0 <= i < 2
    ensures RosterOk(KickInvalid(s, i)) && KickInvalid(s, i).state != WaitPreparation
    ensures KickInvalid(s, i).state == GameTurn ==> s.state == GameTurn
  {
    hide ValidStart;
  }

  lemma CheckOk(s: Session)
    requires RosterOk(s) && s.state != WaitPreparation
    ensures OutcomeOk(s, CheckStartFields(s))
  {
    hide KickInvalid, StartFields;
    KickOk(s, 0);
    KickOk(KickInvalid(s, 0), 1);
  }

  lemma ChangeOk(s: Session, shot: Point, endTime: int)
    requires RosterOk(s) && s.state != WaitPreparation
    ensures OutcomeOk(s, ChangeTurnPlayer(s, shot, endTime))
  {
    hide AfterShot, NoUnharmed, HiddenShips, TurnFields, ShotResult;
  }

  lemma EventOk(s: Session, kind: TimerKind, first: int, shot: Point, endTime: int)
    requires RosterOk(s) && s.state != WaitPreparation && 0 <= first < 2
    ensures OutcomeOk(s, TimerEvent(s, kind, first, shot, endTime))
    ensures kind == TurnEnd ==> TimerEvent(s, kind, first, shot, endTime).session.state != GameTurn
  {
    hide CheckStartFields, ChangeTurnPlayer, EndGame;
    CheckOk(s);
    ChangeOk(s, shot, endTime);
    DepartureOk(s, 0);
  }

  /** No event queues more than one timer, nor one that runs shorter than the waiting time: what
      a pass over the timers relies on. */
  lemma EventsQueueLongTimers(s: Session, kind: TimerKind, first: int, shot: Point, endTime: int)
    requires RosterOk(s) && s.state != WaitPreparation && 0 <= first < 2
    ensures var o := TimerEvent(s, kind, first, shot, endTime);
      |o.timers| <= 1 && forall k :: k in o.timers ==> TimerSeconds(k) >= TimerPass.WAIT_DURATION
  {
    hide TimerEvent;
    EventOk(s, kind, first, shot, endTime);
  }

  lemma AppliedOk(w: World, o: Outcome)
    requires OutcomeOk(w.s, o)
    requires forall id :: id in w.pending ==> id < w.nextId
    requires o.session.state == GameTurn && o.timers != [TurnEnd] ==> w.turnTimer in w.pending && w.pending[w.turnTimer] == TurnEnd
    ensures WorldOk(Applied(w, o))
  {
    hide RosterOk;
  }

  lemma StepKeepsWorld(w: World, step: Step)
    requires WorldOk(w) && Enabled(w, step)
    ensures WorldOk(Do(w, step))
  {
    hide RosterOk, Applied, RequestGame, SendField, SendMove, DisconnectPlayer, TimerEvent;
    match step
    case Request(c, endTime) =>
      RequestOk(w.s, c, endTime);
      AppliedOk(w, RequestGame(w.s, c, endTime));
    case Field(c, b, id) =>
      MessageOk(w.s, c, b, id, NO_SHOT);
      AppliedOk(w, SendField(w.s, c, b, id));
    case Move(c, p) =>
      MessageOk(w.s, c, EmptyBoard(), 0, p);
      AppliedOk(w, SendMove(w.s, c, p));
    case Leave(c) =>
      DepartureOk(w.s, c);
      AppliedOk(w, DisconnectPlayer(w.s, c));
    case Fire(id, first, shot, endTime) =>
      EventOk(w.s, w.pending[id], first, shot, endTime);
      AppliedOk(w.(pending := w.pending - {id}), TimerEvent(w.s, w.pending[id], first, shot, endTime));
  }

  /** In every interleaving of requests, fields, moves, departures and pending timers the number
      of seated players and the state agree, so no message is addressed to an empty seat, and a
      turn timer that is stopped is always still queued. */
  lemma EveryRunKeepsRoster(worlds: seq<World>, steps: seq<Step>)
    requires IsRun(worlds, steps) && worlds[0] == Start()
    ensures forall i :: 0 <= i < |worlds| ==> WorldOk(worlds[i])
    ensures forall i :: 0 <= i < |steps| ==> Follows(worlds[i], steps[i], worlds[i + 1])
  {
    RunKeepsWorld(worlds, steps);
  }

  lemma {:induction false} RunKeepsWorld(worlds: seq<World>, steps: seq<Step>)
    requires IsRun(worlds, steps) && WorldOk(worlds[0])
    ensures forall i :: 0 <= i < |worlds| ==> WorldOk(worlds[i])
    ensures forall i :: 0 <= i < |steps| ==> Follows(worlds[i], steps[i], worlds[i + 1])
  {
    hide Do, Enabled;
    if steps != [] {
      var n := |steps| - 1;
      RunPrefix(worlds, steps);
      RunKeepsWorld(worlds[..n + 1], steps[..n]);
      assert WorldOk(worlds[..n + 1][n]);
      StepKeepsWorld(worlds[n], steps[n]);
      forall i | 0 <= i < |worlds| ensures WorldOk(worlds[i]) {
        assert i == n + 1 || worlds[i] == worlds[..n + 1][i];
      }
    }
  }

  lemma RunPrefix(worlds: seq<World>, steps: seq<Step>)
    requires IsRun(worlds, steps) && steps != []
    ensures IsRun(worlds[..|steps|], steps[..|steps| - 1])
  {
    hide Do, Enabled, RosterOk;
  }

  // ---------- what players are shown ----------

  /** The outcome of a step. */
  ghost function StepOutcome(w: World, step: Step): Outcome
    requires RosterOk(w.s) && Enabled(w, step)
  {
    match step
    case Request(c, endTime) => RequestGame(w.s, c, endTime)
    case Field(c, b, id) => SendField(w.s, c, b, id)
    case Move(c, p) => SendMove(w.s, c, p)
    case Leave(c) => if HasPlayer(w.s, c) then DisconnectPlayer(w.s, c) else Unchanged(w.s)
    case Fire(id, first, shot, endTime) => TimerEvent(w.s, w.pending[id], first, shot, endTime)
  }

  /** A field shown as the receiver's own is the board of its seat; a field shown as the
      opponent's is the board of the other seat with every unharmed cell hidden. */
  ghost predicate ShowsFairly(s: Session, post: Post) {
    post.msg.FieldMsg? ==>
      && HasPlayer(s, post.to)
      && if post.msg.own then post.msg.field == s.fields[SeatOf(s, post.to)]
         else NoUnharmed(post.msg.field) && post.msg.field == HiddenShips(s.fields[Enemy(SeatOf(s, post.to))])
  }

  ghost predicate AllFair(s: Session, sent: seq<Post>) {
    forall k :: 0 <= k < |sent| ==> ShowsFairly(s, sent[k])
  }

  lemma HiddenHasNoUnharmed(b: Board)
    ensures NoUnharmed(HiddenShips(b))
  {
  }

  lemma StartFieldsFair(s: Session)
    requires RosterOk(s)
    ensures AllFair(s, StartFields(s))
  {
    HiddenHasNoUnharmed(s.fields[0]);
    HiddenHasNoUnharmed(s.fields[1]);
    hide NoUnharmed, HiddenShips;
  }

  lemma TurnFieldsFair(s: Session)
    requires RosterOk(s) && PlayersCount(s) == 2
    ensures AllFair(s, TurnFields(s))
  {
    HiddenHasNoUnharmed(s.fields[0]);
    HiddenHasNoUnharmed(s.fields[1]);
    hide NoUnharmed, HiddenShips;
  }

  lemma ChangeFair(s: Session, shot: Point, endTime: int)
    requires RosterOk(s)
    ensures var o := ChangeTurnPlayer(s, shot, endTime); AllFair(o.session, o.sent)
  {
    hide WithShot, AfterShot, NoUnharmed, HiddenShips, TurnFields, ShotResult;
    WithShotRest(s, shot);
    if s.state == ProcessTurn {
      TurnFieldsFair(WithShot(s, shot));
    }
  }

  lemma CheckFair(s: Session)
    requires RosterOk(s)
    ensures var o := CheckStartFields(s); AllFair(o.session, o.sent)
  {
    hide KickInvalid, StartFields, NoUnharmed, HiddenShips;
    StartFieldsFair(KickInvalid(KickInvalid(s, 0), 1));
  }

  /** No message shows a player an opponent's ship that has not been hit. */
  lemma StepShowsFairly(w: World, step: Step)
    requires WorldOk(w) && Enabled(w, step)
    ensures AllFair(StepOutcome(w, step).session, StepOutcome(w, step).sent)
    ensures Do(w, step).s == StepOutcome(w, step).session
  {
    hide NoUnharmed, HiddenShips, ChangeTurnPlayer, CheckStartFields, ValidStart, RosterOk, ShotTaken;
    if step.Fire? {
      ChangeFair(w.s, step.shot, step.endTime);
      CheckFair(w.s);
    }
  }

  /** Nor does any message of a whole run, in whatever order its steps come. */
  lemma NoShipIsShown(worlds: seq<World>, steps: seq<Step>)
    requires IsRun(worlds, steps) && worlds[0] == Start()
    ensures forall i :: 0 <= i < |steps| ==>
      Follows(worlds[i], steps[i], worlds[i + 1]) && AllFair(worlds[i + 1].s, StepOutcome(worlds[i], steps[i]).sent)
  {
    hide AllFair, StepOutcome, Do, WorldOk, Enabled, RosterOk;
    EveryRunKeepsRoster(worlds, steps);
    forall i | 0 <= i < |steps|
      ensures Follows(worlds[i], steps[i], worlds[i + 1]) && AllFair(worlds[i + 1].s, StepOutcome(worlds[i], steps[i]).sent)
    {
      StepShowsFairly(worlds[i], steps[i]);
    }
  }
}
