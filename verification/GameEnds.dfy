// Every game that nobody leaves comes to an end: bounds on the timers that fire and on the
// turns that are played.
module GameEnds {
  import opened Geometry
  import opened Fleets
  import opened ShotRules
  import opened EnemyViews
  import opened BoardRuns
  import opened SessionRules
  import opened SessionRuns
  import opened GameRules
  import opened GameProgress

  /** The kinds of the queued timers of a game. */
  ghost function QueuedKinds(w: World): seq<TimerKind> {
    if exists id :: id in w.pending then
      var id :| id in w.pending; [w.pending[id]]
    else []
  }

  lemma KindsAreQueued(w: World, timers: seq<TimerKind>)
    requires Queued(w, timers)
    ensures QueuedKinds(w) == timers
  {
    if timers != [] {
      var id: nat :| w.pending == map[id := timers[0]];
      assert id in w.pending;
    }
  }

  ghost function WorldRank(w: World): nat {
    Rank(w.s, QueuedKinds(w))
  }

  /** How many turns can still be played at most. */
  ghost function TurnsLeft(s: Session): nat {
    if s.state == GameTurn || s.state == ProcessTurn then FreshOnBoth(s) else 200
  }

  /** How many seconds the timers that are still to come run at most. */
  ghost function SecondsLeft(s: Session, timers: seq<TimerKind>): int {
    match s.state
    case Preparation => 3476
    case WaitStart => if timers == [FieldCheck] then 3406 else 3404
    case GameTurn => 17 * FreshOnBoth(s) + 2
    case ProcessTurn => if timers == [GameEnd] then 2 else 17 * FreshOnBoth(s) - 13
    case _ => 3476
  }

  ghost function WorldSeconds(w: World): int {
    SecondsLeft(w.s, QueuedKinds(w))
  }

  /** A move ends the turn and stops its timer. */
  predicate EndsTurn(w: World, step: Step) {
    step.Move? && w.s.state == GameTurn && IsFirstMove(w.s, step.client)
  }

  /** The full time of the timer that the step fires or stops. */
  function SecondsUsed(w: World, step: Step): int {
    if step.Fire? && step.id in w.pending then TimerSeconds(w.pending[step.id])
    else if EndsTurn(w, step) then TimerSeconds(TurnEnd)
    else 0
  }

  predicate IsTurnChange(w: World, step: Step) {
    step.Fire? && step.id in w.pending && w.pending[step.id] == TurnChange
  }

  lemma RequestRank(s: Session, timers: seq<TimerKind>, c: Client, endTime: int)
    requires RosterOk(s) && Phase(s, timers)
    ensures var o := RequestGame(s, c, endTime);
      && Rank(o.session, timers + o.timers) <= Rank(s, timers) && TurnsLeft(o.session) <= TurnsLeft(s)
      && SecondsLeft(o.session, timers + o.timers) <= SecondsLeft(s, timers)
  {
    hide ValidStart, InPlay, Over, EmptyBoard, FreshOnBoth;
    assert timers + [] == timers;
  }

  lemma FieldRank(s: Session, timers: seq<TimerKind>, c: Client, b: Board, msgId: int)
    requires RosterOk(s) && Phase(s, timers)
    ensures var o := SendField(s, c, b, msgId);
      && Rank(o.session, timers) <= Rank(s, timers) && TurnsLeft(o.session) <= TurnsLeft(s)
      && SecondsLeft(o.session, timers) <= SecondsLeft(s, timers)
  {
    hide ValidStart, InPlay, Over, EmptyBoard, FreshOnBoth;
  }

  lemma MoveRank(s: Session, timers: seq<TimerKind>, c: Client, p: Point)
    requires RosterOk(s) && Phase(s, timers)
    ensures var o := SendMove(s, c, p);
      && Rank(o.session, if o.stopTurn then o.timers else timers) <= Rank(s, timers)
      && TurnsLeft(o.session) <= TurnsLeft(s)
      && (o.stopTurn <==> s.state == GameTurn && IsFirstMove(s, c))
      && SecondsLeft(o.session, if o.stopTurn then o.timers else timers)
        + (if o.stopTurn then TimerSeconds(TurnEnd) else 0) <= SecondsLeft(s, timers)
  {
    hide ValidStart, InPlay, Over, EmptyBoard, FreshCells;
  }

  lemma EventRank(s: Session, kind: TimerKind, first: int, shot: Point, endTime: int)
    requires RosterOk(s) && 0 <= first < 2 && Phase(s, [kind])
    requires SeatsKept(s, TimerEvent(s, kind, first, shot, endTime).session)
    requires kind == TurnChange ==> ShotTaken(s, shot)
    ensures var o := TimerEvent(s, kind, first, shot, endTime);
      && Rank(o.session, o.timers) < Rank(s, [kind])
      && TurnsLeft(o.session) <= TurnsLeft(s)
      && (kind == TurnChange ==> TurnsLeft(o.session) < TurnsLeft(s))
      && SecondsLeft(o.session, o.timers) + TimerSeconds(kind) <= SecondsLeft(s, [kind])
  {
    hide ValidStart, InPlay, Over, EmptyBoard, FreshOnBoth, ChangeTurnPlayer, CheckStartFields, ShotTaken;
    var o := TimerEvent(s, kind, first, shot, endTime);
    match kind
    case FieldCheck =>
      KickChecks(s);
      CheckKeeps(s);
    case TurnChange =>
      ChangeUsesFresh(s, shot, endTime);
      ChangePhase(s, shot, endTime);
      ChangeRank(s, shot, endTime);
    case GameStart => FreshOnBothBound(o.session);
    case GameEnd => EndPhase(s);
    case _ => FreshOnBothSame(s, o.session);
  }

  lemma FreshOnBothSame(s: Session, s': Session)
    ensures s.fields == s'.fields ==> FreshOnBoth(s) == FreshOnBoth(s')
  {
  }

  lemma CheckKeeps(s: Session)
    requires RosterOk(s) && s.state == WaitStart && KickInvalid(KickInvalid(s, 0), 1) == s
    ensures CheckStartFields(s).session == s && CheckStartFields(s).timers == [GameStart]
  {
    hide KickInvalid, StartFields;
  }

  lemma ChangeRank(s: Session, shot: Point, endTime: int)
    requires RosterOk(s) && s.state == ProcessTurn
    requires FreshOnBoth(ChangeTurnPlayer(s, shot, endTime).session) < FreshOnBoth(s)
    ensures var o := ChangeTurnPlayer(s, shot, endTime);
      && Rank(o.session, o.timers) < Rank(s, [TurnChange])
      && TurnsLeft(o.session) < TurnsLeft(s)
      && SecondsLeft(o.session, o.timers) + TimerSeconds(TurnChange) <= SecondsLeft(s, [TurnChange])
  {
    hide FreshOnBoth, AfterShot, NoUnharmed, HiddenShips, TurnFields, PostAt, ShotResult;
  }

  /** One step of a game: no step raises the bounds, every fired timer lowers the rank, and
      every turn change lowers the number of turns left. */
  lemma StepLowers(w: World, step: Step)
    requires GameOk(w) && Enabled(w, step) && NobodyLeft(w, Do(w, step))
    ensures WorldRank(Do(w, step)) + (if step.Fire? then 1 else 0) <= WorldRank(w)
    ensures TurnsLeft(Do(w, step).s) + (if IsTurnChange(w, step) then 1 else 0) <= TurnsLeft(w.s)
    ensures WorldSeconds(Do(w, step)) + SecondsUsed(w, step) <= WorldSeconds(w)
  {
    hide Phase, Rank, TurnsLeft, SecondsLeft, RosterOk, SecondsUsed;
    var timers: seq<TimerKind> :| Queued(w, timers) && Phase(w.s, timers);
    KindsAreQueued(w, timers);
    if step.Fire? {
      FireLowers(w, step, timers);
    } else {
      OtherLowers(w, step, timers);
    }
  }

  lemma FireLowers(w: World, step: Step, timers: seq<TimerKind>)
    requires WorldOk(w) && Queued(w, timers) && Phase(w.s, timers)
    requires step.Fire? && Enabled(w, step) && NobodyLeft(w, Do(w, step))
    ensures WorldRank(Do(w, step)) + 1 <= Rank(w.s, timers)
    ensures TurnsLeft(Do(w, step).s) + (if IsTurnChange(w, step) then 1 else 0) <= TurnsLeft(w.s)
    ensures WorldSeconds(Do(w, step)) + SecondsUsed(w, step) <= SecondsLeft(w.s, timers)
  {
    hide Phase, Rank, TurnsLeft, SecondsLeft, RosterOk, TimerEvent, ShotTaken, Queued, TimerSeconds;
    FiredQueue(w, step.id, timers);
    var kind := w.pending[step.id];
    var o := TimerEvent(w.s, kind, step.first, step.shot, step.endTime);
    ChangeOnlyWhileProcessing(w.s, kind);
    EventRank(w.s, kind, step.first, step.shot, step.endTime);
    EventPhase(w.s, kind, step.first, step.shot, step.endTime);
    PhaseAtMostOne(o.session, o.timers);
    FiredPending(w, step.id, o);
    KindsAreQueued(Do(w, step), o.timers);
    AppliedSession(w.(pending := w.pending - {step.id}), o);
  }

  lemma ChangeOnlyWhileProcessing(s: Session, kind: TimerKind)
    requires Phase(s, [kind])
    ensures kind == TurnChange ==> s.state == ProcessTurn
  {
    hide ValidStart, InPlay, Over, EmptyBoard;
  }

  lemma FiredPending(w: World, id: nat, o: Outcome)
    requires id in w.pending && w.pending - {id} == map[] && |o.timers| <= 1
    ensures Queued(Applied(w.(pending := w.pending - {id}), o), o.timers)
  {
    var bare := w.(pending := w.pending - {id});
    assert o.stopTurn ==> bare.pending - {w.turnTimer} == map[];
    if o.timers != [] {
      assert Applied(bare, o).pending == map[w.nextId := o.timers[0]];
    }
  }

  lemma OtherLowers(w: World, step: Step, timers: seq<TimerKind>)
    requires WorldOk(w) && Queued(w, timers) && Phase(w.s, timers)
    requires !step.Fire? && NobodyLeft(w, Do(w, step))
    ensures WorldRank(Do(w, step)) <= Rank(w.s, timers)
    ensures TurnsLeft(Do(w, step).s) <= TurnsLeft(w.s)
    ensures WorldSeconds(Do(w, step)) + SecondsUsed(w, step) <= SecondsLeft(w.s, timers)
  {
    hide Phase, Rank, TurnsLeft, SecondsLeft, RosterOk, Applied, Queued, RequestGame, SendField, SendMove, IsFirstMove, TimerSeconds;
    assert timers + [] == timers;
    match step
    case Request(c, endTime) =>
      var o := RequestGame(w.s, c, endTime);
      RequestRank(w.s, timers, c, endTime);
      RequestPhase(w.s, timers, c, endTime);
      PhaseAtMostOne(o.session, timers + o.timers);
      AppliedQueue(w, timers, o);
      KindsAreQueued(Do(w, step), timers + o.timers);
      AppliedSession(w, o);
    case Field(c, b, id) =>
      FieldRank(w.s, timers, c, b, id);
      FieldPhase(w.s, timers, c, b, id);
      PhaseAtMostOne(w.s, timers);
      AppliedQueue(w, timers, SendField(w.s, c, b, id));
      KindsAreQueued(Do(w, step), timers);
      AppliedSession(w, SendField(w.s, c, b, id));
    case Move(c, p) =>
      var o := SendMove(w.s, c, p);
      MoveRank(w.s, timers, c, p);
      MovePhase(w.s, timers, c, p);
      PhaseAtMostOne(w.s, timers);
      if o.stopTurn {
        StoppedQueue(w, o);
        KindsAreQueued(Do(w, step), [TurnChange]);
      } else {
        AppliedQueue(w, timers, o);
        KindsAreQueued(Do(w, step), timers);
      }
      AppliedSession(w, o);
    case Leave(c) =>
      LeaveIsStranger(w, c);
      KindsAreQueued(w, timers);
  }

  function Fires(steps: seq<Step>): nat {
    if steps == [] then 0 else Fires(steps[..|steps| - 1]) + if steps[|steps| - 1].Fire? then 1 else 0
  }

  function Turns(worlds: seq<World>, steps: seq<Step>): nat
    requires |worlds| == |steps| + 1
  {
    if steps == [] then 0
    else
      var n := |steps| - 1;
      Turns(worlds[..n + 1], steps[..n]) + if IsTurnChange(worlds[n], steps[n]) then 1 else 0
  }

  /** The full time of all timers that the steps fire or stop, in seconds. */
  function TotalSeconds(worlds: seq<World>, steps: seq<Step>): int
    requires |worlds| == |steps| + 1
  {
    if steps == [] then 0
    else
      var n := |steps| - 1;
      TotalSeconds(worlds[..n + 1], steps[..n]) + SecondsUsed(worlds[n], steps[n])
  }

  /** Steps from anywhere within a game, or from before it, during which everybody keeps the seat. */
  ghost predicate IsGame(worlds: seq<World>, steps: seq<Step>) {
    IsRun(worlds, steps) && GameOk(worlds[0]) && forall i :: 0 <= i < |steps| ==> NobodyLeft(worlds[i], worlds[i + 1])
  }

  /** In any game that nobody leaves, the first of a session or a later one, at most 405 timers
      fire and at most 200 turns are played, however long the players keep sending messages; and
      the timers that drive it run for less than 58 minutes in all. */
  lemma GameIsFinite(worlds: seq<World>, steps: seq<Step>)
    requires IsGame(worlds, steps)
    ensures Fires(steps) <= 405 && Turns(worlds, steps) <= 200
    ensures TotalSeconds(worlds, steps) <= 3476
  {
    hide WorldOk, Phase, Rank, TurnsLeft, SecondsLeft;
    var timers: seq<TimerKind> :| Queued(worlds[0], timers) && Phase(worlds[0].s, timers);
    KindsAreQueued(worlds[0], timers);
    RankBound(worlds[0].s, timers);
    GameLowers(worlds, steps);
    SecondsNotNegative(worlds[|steps|]);
  }

  lemma SecondsNotNegative(w: World)
    requires GameOk(w)
    ensures WorldSeconds(w) >= 0
  {
    hide WorldOk, ValidStart, Over, Reached;
    var timers: seq<TimerKind> :| Queued(w, timers) && Phase(w.s, timers);
    KindsAreQueued(w, timers);
    if timers == [TurnChange] {
      UnharmedIsFresh(w.s.fields[0]);
    }
  }

  lemma UnharmedIsFresh(b: Board)
    requires !NoUnharmed(b)
    ensures |FreshCells(b)| > 0
  {
    var p: Point :| OnField(p) && b[p] == UNHARMED;
    assert p in FreshCells(b);
  }

  lemma RankBound(s: Session, timers: seq<TimerKind>)
    ensures Rank(s, timers) <= 405 && TurnsLeft(s) <= 200
    ensures SecondsLeft(s, timers) <= 3476
  {
    FreshOnBothBound(s);
    hide FreshOnBoth;
  }

  lemma {:induction false} GameLowers(worlds: seq<World>, steps: seq<Step>)
    requires IsGame(worlds, steps)
    ensures GameOk(worlds[|steps|])
    ensures Fires(steps) + WorldRank(worlds[|steps|]) <= WorldRank(worlds[0])
    ensures Turns(worlds, steps) + TurnsLeft(worlds[|steps|].s) <= TurnsLeft(worlds[0].s)
    ensures TotalSeconds(worlds, steps) + WorldSeconds(worlds[|steps|]) <= WorldSeconds(worlds[0])
  {
    hide GameOk, Do, WorldRank, TurnsLeft, WorldSeconds, SecondsUsed, NobodyLeft, Enabled, RosterOk;
    if steps != [] {
      var n := |steps| - 1;
      RunPrefix(worlds, steps);
      assert forall i :: 0 <= i < n ==> NobodyLeft(worlds[i], worlds[i + 1]);
      GameLowers(worlds[..n + 1], steps[..n]);
      GameIsWorld(worlds[n]);
      assert NobodyLeft(worlds[n], worlds[n + 1]) && worlds[n + 1] == Do(worlds[n], steps[n]);
      KeptIsStay(worlds[n], steps[n]);
      StepKeepsGame(worlds[n], steps[n]);
      StepLowers(worlds[n], steps[n]);
    }
  }

  lemma GameIsWorld(w: World)
    requires GameOk(w)
    ensures WorldOk(w) && RosterOk(w.s)
  {
  }

  lemma KeptIsStay(w: World, step: Step)
    requires RosterOk(w.s) && Enabled(w, step) && NobodyLeft(w, Do(w, step))
    ensures StaysInGame(w, step)
  {
    hide TimerEvent, RequestGame, SendField, SendMove;
    if step.Leave? {
      LeaveIsStranger(w, step.client);
    }
  }
}
