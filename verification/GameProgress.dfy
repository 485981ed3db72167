// Games in which nobody leaves: which timer drives each state, who wins, and why every game
// comes to an end.
module GameProgress {
  import opened Geometry
  import opened Ships
  import opened Fleets
  import opened ShotRules
  import opened EnemyViews
  import opened BoardRuns
  import opened SessionRules
  import opened SessionRuns

  /** A board reached by shots from a valid start. */
  ghost predicate Reached(b: Board) {
    exists F: Fleet, shots: set<Point> :: Separate(F) && StandardLengths(F) && b == Settled(F, shots)
  }

  ghost predicate InPlay(b: Board) {
    Reached(b) && !NoUnharmed(b)
  }

  /** Where a game stands, by the state and the kinds of the timers that are still queued: one
      timer in every state with two players, none before. During preparation the boards are
      whatever the last game has left or the players have sent. */
  ghost predicate Phase(s: Session, timers: seq<TimerKind>) {
    match s.state
    case Preparation => timers == [PreparationEnd]
    case WaitStart =>
      || timers == [FieldCheck]
      || (timers == [GameStart] && ValidStart(s.fields[0]) && ValidStart(s.fields[1]))
    case GameTurn => timers == [TurnEnd] && InPlay(s.fields[0]) && InPlay(s.fields[1])
    case ProcessTurn =>
      || (timers == [TurnChange] && InPlay(s.fields[0]) && InPlay(s.fields[1]))
      || (timers == [GameEnd] && Over(s))
    case _ => timers == []
  }

  ghost predicate Queued(w: World, timers: seq<TimerKind>) {
    || (timers == [] && w.pending == map[])
    || (|timers| == 1 && exists id: nat :: w.pending == map[id := timers[0]])
  }

  /** What holds at every point of a game that nobody has left. */
  ghost predicate GameOk(w: World) {
    WorldOk(w) && exists timers: seq<TimerKind> :: Queued(w, timers) && Phase(w.s, timers)
  }

  /** The enemy of the current player has lost every ship, the current player has not. */
  ghost predicate Over(s: Session) {
    && Reached(s.fields[0]) && Reached(s.fields[1])
    && NoUnharmed(s.fields[Enemy(s.cur)]) && !NoUnharmed(s.fields[s.cur])
  }

  /** Everyone seated before is still in the same seat. */
  predicate NobodyLeft(w: World, w': World) {
    SeatsKept(w.s, w'.s)
  }

  /** Nobody leaves a session in which both seats are taken. */
  predicate StaysInGame(w: World, step: Step) {
    step.Leave? && HasPlayer(w.s, step.client) ==> PlayersCount(w.s) == 1
  }

  /** A session at rest: at most one player, and none of its timers is queued. Its boards and its
      remembered shot may be left over from any earlier game. */
  ghost predicate AtRest(w: World) {
    WorldOk(w) && w.pending == map[] && PlayersCount(w.s) <= 1
  }

  /** Any number of games one after another that nobody leaves early. */
  ghost predicate IsPlay(worlds: seq<World>, steps: seq<Step>) {
    IsRun(worlds, steps) && AtRest(worlds[0]) && forall i :: 0 <= i < |steps| ==> StaysInGame(worlds[i], steps[i])
  }

  // ---------- boards ----------

  lemma StartInPlay(b: Board)
    requires ValidStart(b)
    ensures InPlay(b)
  {
    hide Layout, StandardLengths, Settled;
    var F: Fleet :| FleetOf(F, b);
    FleetFacts(F, b);
    StartIsSettled(b, F);
    var p: Point :| OnField(p) && b[p] == UNHARMED;
  }

  lemma FleetFacts(F: Fleet, b: Board)
    requires FleetOf(F, b) && ValidStart(b)
    ensures Layout(F, b) && Separate(F) && StandardLengths(F)
    ensures exists p: Point :: OnField(p) && b[p] == UNHARMED
  {
    hide ValidStart;
    LengthsSize(F);
    assert Covers(F[0], F[0].head) && CoveredBy(F, F[0].head);
    StartCells(b, F);
    assert OnField(F[0].head);
  }

  lemma ReachedByShot(b: Board, p: Point)
    requires Reached(b)
    ensures Reached(AfterShot(b, p))
  {
    hide Separate, StandardLengths, Settled, AfterShot;
    var F: Fleet, shots: set<Point> :| Separate(F) && StandardLengths(F) && b == Settled(F, shots);
    ShotSettles(F, shots, p);
  }

  lemma ReachedHits(b: Board)
    requires Reached(b)
    ensures |DamagedCells(b)| <= 18
    ensures |DamagedCells(b)| == 18 <==> NoUnharmed(b)
  {
    hide Separate, StandardLengths, Settled, NoUnharmed, DamagedCells;
    var F: Fleet, shots: set<Point> :| Separate(F) && StandardLengths(F) && b == Settled(F, shots);
    HitsDecide(F, shots);
  }

  // ---------- each step ----------

  lemma RequestPhase(s: Session, timers: seq<TimerKind>, c: Client, endTime: int)
    requires RosterOk(s) && Phase(s, timers) && s.state != WaitPreparation
    ensures var o := RequestGame(s, c, endTime);
      && !o.stopTurn && Phase(o.session, timers + o.timers)
  {
    hide ValidStart, InPlay, Over, EmptyBoard;
    assert timers + [] == timers;
  }

  lemma FieldPhase(s: Session, timers: seq<TimerKind>, c: Client, b: Board, msgId: int)
    requires RosterOk(s) && Phase(s, timers)
    ensures var o := SendField(s, c, b, msgId);
      && !o.stopTurn && o.timers == [] && Phase(o.session, timers)
  {
    hide ValidStart, InPlay, Over, EmptyBoard;
  }

  lemma MovePhase(s: Session, timers: seq<TimerKind>, c: Client, p: Point)
    requires RosterOk(s) && Phase(s, timers)
    ensures var o := SendMove(s, c, p);
      && (!o.stopTurn ==> o.timers == [] && Phase(o.session, timers))
      && (o.stopTurn ==> s.state == GameTurn && timers == [TurnEnd] && o.timers == [TurnChange] && Phase(o.session, o.timers))
  {
    hide ValidStart, InPlay, EmptyBoard, Reached, NoUnharmed;
  }

  /** The shot of a turn keeps the game in play or ends it. */
  lemma ShotPhase(s: Session, shot: Point)
    requires InPlay(s.fields[0]) && InPlay(s.fields[1])
    ensures var s' := WithShot(s, shot);
      if GameOver(s') then Over(s') else InPlay(s'.fields[0]) && InPlay(s'.fields[1])
  {
    hide Reached, NoUnharmed, AfterShot;
    var e := Enemy(s.cur);
    assert InPlay(s.fields[e]) && InPlay(s.fields[s.cur]);
    ReachedByShot(s.fields[e], shot);
    var s' := WithShot(s, shot);
    assert s'.fields[e] == AfterShot(s.fields[e], shot) && s'.fields[s.cur] == s.fields[s.cur];
  }

  lemma ChangePhase(s: Session, shot: Point, endTime: int)
    requires RosterOk(s) && Phase(s, [TurnChange])
    ensures var o := ChangeTurnPlayer(s, shot, endTime); Phase(o.session, o.timers)
  {
    hide InPlay, GameOver, Over, AfterShot, ShotResult, HiddenShips, TurnFields, PostAt, ValidStart, EmptyBoard, WithShot;
    if s.state == ProcessTurn {
      ShotPhase(s, shot);
      WithShotRest(s, shot);
    }
  }

  /** Nobody loses a seat by the outcome. */
  predicate SeatsKept(s: Session, s': Session) {
    forall i :: 0 <= i < 2 && s.seats[i].Taken? ==> s'.seats[i] == s.seats[i]
  }

  lemma CheckPhase(s: Session)
    requires RosterOk(s) && Phase(s, [FieldCheck]) && SeatsKept(s, CheckStartFields(s).session)
    ensures var o := CheckStartFields(s); Phase(o.session, o.timers)
  {
    hide ValidStart, KickInvalid, StartFields, InPlay, Over, EmptyBoard, RosterOk;
    PhaseOfCheck(s);
    KickChecks(s);
  }

  lemma PhaseOfCheck(s: Session)
    requires RosterOk(s) && Phase(s, [FieldCheck])
    ensures s.state == WaitStart && PlayersCount(s) == 2
  {
    hide ValidStart, InPlay, Over, EmptyBoard;
  }

  /** If nobody is disconnected by the check, both fields are valid starts. */
  lemma KickChecks(s: Session)
    requires RosterOk(s) && s.state == WaitStart && SeatsKept(s, CheckStartFields(s).session)
    ensures ValidStart(s.fields[0]) && ValidStart(s.fields[1])
    ensures KickInvalid(KickInvalid(s, 0), 1) == s
  {
    hide ValidStart, StartFields;
  }

  lemma EventPhase(s: Session, kind: TimerKind, first: int, shot: Point, endTime: int)
    requires RosterOk(s) && 0 <= first < 2 && Phase(s, [kind])
    requires SeatsKept(s, TimerEvent(s, kind, first, shot, endTime).session)
    ensures var o := TimerEvent(s, kind, first, shot, endTime); Phase(o.session, o.timers)
  {
    match kind
    case FieldCheck => CheckPhase(s);
    case TurnChange => ChangePhase(s, shot, endTime);
    case PreparationEnd => StopPhase(s);
    case GameStart => StartPhase(s, first, endTime);
    case TurnEnd => EndTurnPhase(s);
    case GameEnd => EndPhase(s);
  }

  lemma StopPhase(s: Session)
    requires RosterOk(s) && Phase(s, [PreparationEnd])
    ensures var o := StopPreparation(s); Phase(o.session, o.timers)
  {
    hide InPlay, Over, ValidStart, EmptyBoard;
  }

  lemma StartPhase(s: Session, first: int, endTime: int)
    requires RosterOk(s) && Phase(s, [GameStart]) && 0 <= first < 2
    ensures var o := StartGame(s, first, endTime); Phase(o.session, o.timers)
  {
    hide InPlay, Over, ValidStart, EmptyBoard;
    if s.state == WaitStart {
      StartInPlay(s.fields[0]);
      StartInPlay(s.fields[1]);
    }
  }

  lemma EndTurnPhase(s: Session)
    requires RosterOk(s) && Phase(s, [TurnEnd])
    ensures var o := EndTurn(s); Phase(o.session, o.timers)
  {
    hide InPlay, Over, ValidStart, EmptyBoard;
  }

  /** The end of a game always empties the seats. */
  lemma EndPhase(s: Session)
    requires RosterOk(s) && Phase(s, [GameEnd])
    ensures !SeatsKept(s, EndGame(s).session)
  {
    hide InPlay, Over, ValidStart, EmptyBoard;
  }

  // ---------- each step of the world ----------

  lemma AppliedQueue(w: World, timers: seq<TimerKind>, o: Outcome)
    requires Queued(w, timers) && |timers + o.timers| <= 1 && !o.stopTurn
    ensures Queued(Applied(w, o), timers + o.timers)
  {
    if o.timers != [] {
      assert timers + o.timers == o.timers;
      assert Applied(w, o).pending == map[w.nextId := o.timers[0]];
    } else {
      assert timers + o.timers == timers;
    }
  }

  lemma StoppedQueue(w: World, o: Outcome)
    requires WorldOk(w) && w.s.state == GameTurn && Queued(w, [TurnEnd]) && o.stopTurn && o.timers == [TurnChange]
    ensures Queued(Applied(w, o), [TurnChange])
  {
    hide RosterOk;
    var id: nat :| w.pending == map[id := TurnEnd];
    assert id == w.turnTimer;
    assert Applied(w, o).pending == map[w.nextId := TurnChange];
  }

  lemma FiredQueue(w: World, id: nat, timers: seq<TimerKind>)
    requires Queued(w, timers) && id in w.pending
    ensures timers == [w.pending[id]]
    ensures w.pending - {id} == map[]
  {
    var only: nat :| w.pending == map[only := timers[0]];
    assert only == id;
  }

  lemma PhaseAtMostOne(s: Session, timers: seq<TimerKind>)
    requires Phase(s, timers)
    ensures |timers| <= 1
  {
    hide InPlay, Over, ValidStart, EmptyBoard;
  }

  lemma FireKeepsGame(w: World, step: Step, timers: seq<TimerKind>)
    requires WorldOk(w) && Queued(w, timers) && Phase(w.s, timers)
    requires step.Fire? && Enabled(w, step) && NobodyLeft(w, Do(w, step))
    ensures exists after: seq<TimerKind> :: Queued(Do(w, step), after) && Phase(Do(w, step).s, after)
  {
    hide RosterOk, Phase, TimerEvent;
    FiredQueue(w, step.id, timers);
    var o := TimerEvent(w.s, w.pending[step.id], step.first, step.shot, step.endTime);
    EventPhase(w.s, w.pending[step.id], step.first, step.shot, step.endTime);
    PhaseAtMostOne(o.session, o.timers);
    assert Queued(Do(w, step), o.timers) by {
      var bare := w.(pending := w.pending - {step.id});
      assert o.stopTurn ==> bare.pending - {w.turnTimer} == map[];
      if o.timers != [] {
        assert Do(w, step).pending == map[w.nextId := o.timers[0]];
      }
    }
  }

  lemma OtherKeepsGame(w: World, step: Step, timers: seq<TimerKind>)
    requires WorldOk(w) && Queued(w, timers) && Phase(w.s, timers)
    requires !step.Fire? && NobodyLeft(w, Do(w, step))
    ensures exists after: seq<TimerKind> :: Queued(Do(w, step), after) && Phase(Do(w, step).s, after)
  {
    hide RosterOk, Phase, Applied, Queued, RequestGame, SendField, SendMove;
    match step
    case Request(c, endTime) =>
      RequestPhase(w.s, timers, c, endTime);
      PhaseAtMostOne(RequestGame(w.s, c, endTime).session, timers + RequestGame(w.s, c, endTime).timers);
      AppliedQueue(w, timers, RequestGame(w.s, c, endTime));
      AppliedSession(w, RequestGame(w.s, c, endTime));
    case Field(c, b, id) =>
      FieldPhase(w.s, timers, c, b, id);
      PhaseAtMostOne(w.s, timers);
      assert timers + [] == timers;
      AppliedQueue(w, timers, SendField(w.s, c, b, id));
      AppliedSession(w, SendField(w.s, c, b, id));
    case Move(c, p) =>
      MovePhase(w.s, timers, c, p);
      PhaseAtMostOne(w.s, timers);
      assert timers + [] == timers;
      if SendMove(w.s, c, p).stopTurn {
        StoppedQueue(w, SendMove(w.s, c, p));
      } else {
        AppliedQueue(w, timers, SendMove(w.s, c, p));
      }
      AppliedSession(w, SendMove(w.s, c, p));
    case Leave(c) =>
      LeaveIsStranger(w, c);
  }

  lemma AppliedSession(w: World, o: Outcome)
    ensures Applied(w, o).s == o.session
  {
  }

  lemma LeaveIsStranger(w: World, c: Client)
    requires RosterOk(w.s) && NobodyLeft(w, Do(w, Leave(c)))
    ensures Do(w, Leave(c)) == w
  {
  }

  /** If an event takes a seat from somebody, it leaves at most one player and queues nothing. */
  lemma LossOfSeat(s: Session, kind: TimerKind, first: int, shot: Point, endTime: int)
    requires RosterOk(s) && s.state != WaitPreparation && 0 <= first < 2 && Phase(s, [kind])
    requires !SeatsKept(s, TimerEvent(s, kind, first, shot, endTime).session)
    ensures var o := TimerEvent(s, kind, first, shot, endTime);
      RosterOk(o.session) && PlayersCount(o.session) <= 1 && o.timers == [] && !o.stopTurn
  {
    hide InPlay, Over, ValidStart, EmptyBoard, ChangeTurnPlayer, CheckStartFields;
    match kind
    case FieldCheck => CheckLosesSeat(s);
    case TurnChange => ChangeKeepsSeats(s, shot, endTime);
    case _ =>
  }

  lemma CheckLosesSeat(s: Session)
    requires RosterOk(s) && s.state != WaitPreparation && !SeatsKept(s, CheckStartFields(s).session)
    ensures var o := CheckStartFields(s);
      RosterOk(o.session) && PlayersCount(o.session) <= 1 && o.timers == [] && !o.stopTurn
  {
    hide ValidStart, StartFields;
    CheckOk(s);
  }

  lemma ChangeKeepsSeats(s: Session, shot: Point, endTime: int)
    requires RosterOk(s)
    ensures SeatsKept(s, ChangeTurnPlayer(s, shot, endTime).session)
  {
    hide NoUnharmed, WithShot, TurnFields, ShotResult;
    WithShotRest(s, shot);
  }

  /** Where a timer's event takes a seat from somebody, the session is at rest again. */
  lemma FireToRest(w: World, step: Step, timers: seq<TimerKind>)
    requires WorldOk(w) && Queued(w, timers) && Phase(w.s, timers)
    requires step.Fire? && Enabled(w, step) && !NobodyLeft(w, Do(w, step))
    ensures AtRest(Do(w, step))
  {
    hide RosterOk, Phase, TimerEvent;
    StepKeepsWorld(w, step);
    FiredQueue(w, step.id, timers);
    LossOfSeat(w.s, w.pending[step.id], step.first, step.shot, step.endTime);
  }

  lemma RestIsOk(w: World)
    requires AtRest(w)
    ensures GameOk(w)
  {
    assert Queued(w, []) && Phase(w.s, []);
  }

  /** When a player loses its seat other than by leaving another one alone, the session is at rest
      afterwards: so every game ends where the next one can begin. */
  lemma EndsAtRest(w: World, step: Step)
    requires GameOk(w) && Enabled(w, step) && StaysInGame(w, step) && !NobodyLeft(w, Do(w, step))
    ensures AtRest(Do(w, step))
  {
    hide ValidStart, InPlay, Over, TimerEvent, RequestGame, SendField, SendMove;
    var timers: seq<TimerKind> :| Queued(w, timers) && Phase(w.s, timers);
    match step
    case Fire(_, _, _, _) => FireToRest(w, step, timers);
    case Leave(_) => StepKeepsWorld(w, step);
    case Request(c, endTime) => RequestKeepsSeats(w.s, c, endTime); AppliedSession(w, RequestGame(w.s, c, endTime));
    case Field(c, b, id) => MessagesKeepSeats(w.s, c, b, id, NO_SHOT); AppliedSession(w, SendField(w.s, c, b, id));
    case Move(c, p) => MessagesKeepSeats(w.s, c, EmptyBoard(), 0, p); AppliedSession(w, SendMove(w.s, c, p));
  }

  lemma RequestKeepsSeats(s: Session, c: Client, endTime: int)
    requires RosterOk(s)
    ensures SeatsKept(s, RequestGame(s, c, endTime).session)
  {
  }

  lemma MessagesKeepSeats(s: Session, c: Client, b: Board, msgId: int, p: Point)
    requires RosterOk(s)
    ensures SeatsKept(s, SendField(s, c, b, msgId).session) && SeatsKept(s, SendMove(s, c, p).session)
  {
    hide ValidStart;
  }

  lemma StepKeepsGame(w: World, step: Step)
    requires GameOk(w) && Enabled(w, step) && StaysInGame(w, step)
    ensures GameOk(Do(w, step))
  {
    assert RosterOk(w.s);
    hide WorldOk, Queued, Phase, Do, NobodyLeft, AtRest;
    if NobodyLeft(w, Do(w, step)) {
      StepKeepsWorld(w, step);
      var timers: seq<TimerKind> :| Queued(w, timers) && Phase(w.s, timers);
      if step.Fire? {
        FireKeepsGame(w, step, timers);
      } else {
        OtherKeepsGame(w, step, timers);
      }
    } else {
      EndsAtRest(w, step);
      RestIsOk(Do(w, step));
    }
  }

  /** Every point of a run satisfies the game rule, over any number of games, as long as nobody
      leaves a game that has two players: each waiting state has exactly the one timer that will
      take it further. */
  lemma {:induction false} EveryGameIsOk(worlds: seq<World>, steps: seq<Step>)
    requires IsPlay(worlds, steps)
    ensures forall i :: 0 <= i < |worlds| ==> GameOk(worlds[i])
  {
    hide GameOk, Do, AtRest, StaysInGame, Enabled;
    if steps == [] {
      RestIsOk(worlds[0]);
    } else {
      var n := |steps| - 1;
      RestIsWorld(worlds[0]);
      RunKeepsWorld(worlds, steps);
      RunPrefix(worlds, steps);
      EveryGameIsOk(worlds[..n + 1], steps[..n]);
      assert GameOk(worlds[..n + 1][n]);
      assert Follows(worlds[n], steps[n], worlds[n + 1]);
      StepKeepsGame(worlds[n], steps[n]);
      forall i | 0 <= i < |worlds| ensures GameOk(worlds[i]) {
        assert i == n + 1 || worlds[i] == worlds[..n + 1][i];
      }
    }
  }

  lemma RestIsWorld(w: World)
    requires AtRest(w)
    ensures WorldOk(w)
  {
  }

  /** A fresh session is at rest. */
  lemma StartIsAtRest()
    ensures AtRest(Start())
  {
  }

  // ---------- who drives, who wins ----------

  /** In a game with two players exactly one timer is queued, it can fire, and its kind is the
      one its state calls for: nothing is stuck and nothing is driven twice. */
  lemma DrivenByOneTimer(w: World)
    requires GameOk(w) && PlayersCount(w.s) == 2
    ensures |w.pending| == 1
    ensures exists step: Step :: step.Fire? && Enabled(w, step)
    ensures forall id :: id in w.pending ==>
      match w.s.state
      case Preparation => w.pending[id] == PreparationEnd
      case WaitStart => w.pending[id] == FieldCheck || w.pending[id] == GameStart
      case GameTurn => w.pending[id] == TurnEnd && w.turnTimer == id
      case _ => w.pending[id] == if GameOver(w.s) then GameEnd else TurnChange
  {
    hide ValidStart, EmptyBoard, InPlay;
    var timers: seq<TimerKind> :| Queued(w, timers) && Phase(w.s, timers);
    var id: nat :| w.pending == map[id := timers[0]];
    InPlayNotOver(w.s);
    if timers == [TurnChange] {
      var shot := FreshShot(w.s);
      assert Enabled(w, Fire(id, 0, shot, 0));
    } else {
      assert Enabled(w, Fire(id, 0, NO_SHOT, 0));
    }
  }

  lemma InPlayNotOver(s: Session)
    ensures InPlay(s.fields[0]) && InPlay(s.fields[1]) ==> !GameOver(s)
    ensures Over(s) ==> GameOver(s)
  {
    hide Reached, NoUnharmed;
  }

  /** While the game is not over there is always a shot for the retry loop to end with. */
  lemma FreshShot(s: Session) returns (shot: Point)
    requires !GameOver(s)
    ensures ShotTaken(s, shot)
  {
    var b := s.fields[Enemy(s.cur)];
    var p: Point :| OnField(p) && b[p] == UNHARMED;
    shot := if s.lastShot != NO_SHOT && IsFresh(b, s.lastShot) then s.lastShot else p;
  }

  /** When the end of the game is scheduled, exactly the board of the player who is not on turn
      is fully sunk: it has taken eighteen hits, and the winner's board at most seventeen. */
  lemma WinnerHasEighteenHits(w: World)
    requires GameOk(w) && exists id :: id in w.pending && w.pending[id] == GameEnd
    ensures w.s.state == ProcessTurn
    ensures NoUnharmed(w.s.fields[Enemy(w.s.cur)]) && !NoUnharmed(w.s.fields[w.s.cur])
    ensures |DamagedCells(w.s.fields[Enemy(w.s.cur)])| == 18
    ensures |DamagedCells(w.s.fields[w.s.cur])| <= 17
  {
    hide ValidStart, EmptyBoard, Reached, NoUnharmed, WorldOk, DamagedCells;
    var timers: seq<TimerKind> :| Queued(w, timers) && Phase(w.s, timers);
    assert timers == [GameEnd];
    ReachedHits(w.s.fields[0]);
    ReachedHits(w.s.fields[1]);
  }

  /** Until then both boards have unharmed cells left and at most seventeen hits. */
  lemma NobodyLostYet(w: World)
    requires GameOk(w) && (w.s.state == GameTurn || exists id :: id in w.pending && w.pending[id] == TurnChange)
    ensures forall i :: 0 <= i < 2 ==> !NoUnharmed(w.s.fields[i]) && |DamagedCells(w.s.fields[i])| <= 17
  {
    hide ValidStart, EmptyBoard, Reached, NoUnharmed, WorldOk, DamagedCells;
    var timers: seq<TimerKind> :| Queued(w, timers) && Phase(w.s, timers);
    assert timers == [TurnEnd] || timers == [TurnChange];
    ReachedHits(w.s.fields[0]);
    ReachedHits(w.s.fields[1]);
  }

  predicate TellsResult(p: Post) {
    p.msg == StateMsg(WinGame) || p.msg == StateMsg(LoseGame)
  }

  lemma TurnFieldsTellNothing(s: Session)
    requires PlayersCount(s) == 2
    ensures forall p :: p in TurnFields(s) ==> !TellsResult(p)
  {
    hide HiddenShips;
  }

  lemma AfterTurnTells(s: Session, result: Cell, endTime: int)
    requires RosterOk(s) && s.state == ProcessTurn
    ensures var o := AfterTurn(s, result, endTime);
      if GameOver(s) then
        && o.session == s && PlayersCount(s) == 2
        && o.sent == [Post(s.seats[s.cur].client, StateMsg(WinGame)), Post(s.seats[Enemy(s.cur)].client, StateMsg(LoseGame))]
      else o.session.fields == s.fields && forall p :: p in o.sent ==> !TellsResult(p)
  {
    hide NoUnharmed;
  }

  /** If the game is over, the win is told to the player on turn and the loss to the other, and
      nothing else about the result; if not, nothing is. */
  ghost predicate RightResult(s: Session, sent: seq<Post>)
    requires s.seats[0].Taken? && s.seats[1].Taken?
  {
    var win, loss := Post(s.seats[s.cur].client, StateMsg(WinGame)), Post(s.seats[Enemy(s.cur)].client, StateMsg(LoseGame));
    if Over(s) then win in sent && loss in sent && forall p :: p in sent && TellsResult(p) ==> p == win || p == loss
    else forall p :: p in sent ==> !TellsResult(p)
  }

  /** The result of a game is told exactly when it is over: the win to the player whose opponent
      has lost every ship, and the loss to that opponent. */
  lemma ResultIsTold(s: Session, shot: Point, endTime: int)
    requires RosterOk(s) && Phase(s, [TurnChange])
    ensures var o := ChangeTurnPlayer(s, shot, endTime);
      o.session.seats[0].Taken? && o.session.seats[1].Taken? && RightResult(o.session, o.sent)
  {
    hide WithShot, AfterShot, ShotResult, Phase, InPlay, Over, GameOver, TurnFields, AfterTurn, RosterOk, PlayersCount, TellsResult;
    PhaseOfChange(s);
    WithShotRest(s, shot);
    TwoWhileProcessing(s);
    ShotPhase(s, shot);
    var s' := WithShot(s, shot);
    var result := ShotResult(s.fields[Enemy(s.cur)], shot);
    var o := AfterTurn(s', result, endTime);
    TurnFieldsTellNothing(s');
    AfterTurnTells(s', result, endTime);
    AfterTurnSeats(s', result, endTime);
    ResultsTell(s'.seats[s'.cur].client, s'.seats[Enemy(s'.cur)].client);
    InPlayNotOver(s');
    NotOver(o.session);
  }

  lemma ResultsTell(c: Client, d: Client)
    ensures TellsResult(Post(c, StateMsg(WinGame))) && TellsResult(Post(d, StateMsg(LoseGame)))
  {
  }

  lemma AfterTurnSeats(s: Session, result: Cell, endTime: int)
    requires RosterOk(s) && s.state == ProcessTurn
    ensures AfterTurn(s, result, endTime).session.seats == s.seats
  {
    hide NoUnharmed;
  }

  lemma NotOver(s: Session)
    ensures InPlay(s.fields[0]) && InPlay(s.fields[1]) ==> !Over(s)
  {
    hide Reached, NoUnharmed;
  }

  lemma PhaseOfChange(s: Session)
    requires RosterOk(s) && Phase(s, [TurnChange])
    ensures s.state == ProcessTurn && InPlay(s.fields[0]) && InPlay(s.fields[1])
    ensures s.seats[0].Taken? && s.seats[1].Taken?
  {
    hide InPlay, Over, ValidStart, EmptyBoard;
  }

  // ---------- every game ends ----------

  ghost function FreshOnBoth(s: Session): nat {
    |FreshCells(s.fields[0])| + |FreshCells(s.fields[1])|
  }

  /** How many more timers can fire at most before the game has ended. */
  ghost function Rank(s: Session, timers: seq<TimerKind>): nat {
    match s.state
    case Preparation => 404
    case WaitStart => if timers == [FieldCheck] then 403 else 402
    case GameTurn => 2 * FreshOnBoth(s) + 1
    case ProcessTurn => if timers == [GameEnd] then 0 else 2 * FreshOnBoth(s)
    case _ => 405
  }

  lemma FreshOnBothBound(s: Session)
    ensures FreshOnBoth(s) <= 200
  {
    FreshBound(s.fields[0]);
    FreshBound(s.fields[1]);
  }

  /** Each turn change uses up a cell that was fresh. */
  lemma ChangeUsesFresh(s: Session, shot: Point, endTime: int)
    requires RosterOk(s) && s.state == ProcessTurn && ShotTaken(s, shot)
    ensures FreshOnBoth(ChangeTurnPlayer(s, shot, endTime).session) < FreshOnBoth(s)
  {
    var e := Enemy(s.cur);
    ShotUsesFresh(s.fields[e], shot);
    var s' := WithShot(s, shot);
    assert s'.fields[e] == AfterShot(s.fields[e], shot) && s'.fields[s.cur] == s.fields[s.cur];
    hide FreshCells, AfterShot, NoUnharmed, HiddenShips, TurnFields, PostAt, ShotResult;
    assert ChangeTurnPlayer(s, shot, endTime).session.fields == s'.fields;
  }
}
