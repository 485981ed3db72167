// How a whole game goes, whatever messages arrive in between: the boards and the player on turn
// are those of a simple game of alternating shots, each shot is the first move of the player on
// turn if there was one, and the game starts with the fields the players have sent.
module GameStory {
  import opened Geometry
  import opened Fleets
  import opened ShotRules
  import opened EnemyViews
  import opened SessionRules
  import opened SessionRuns
  import opened GameRules
  import opened GameProgress
  import opened GameEnds

  predicate InTurns(s: Session) {
    s.state == GameTurn || s.state == ProcessTurn
  }

  /** Every point of a game is a good one and follows from the one before. */
  lemma {:induction false} GamePoints(worlds: seq<World>, steps: seq<Step>)
    requires IsGame(worlds, steps)
    ensures forall i :: 0 <= i < |worlds| ==> GameOk(worlds[i])
    ensures forall i :: 0 <= i < |steps| ==> Follows(worlds[i], steps[i], worlds[i + 1])
  {
    hide GameOk, Do, NobodyLeft, Enabled, RosterOk;
    GameIsWorld(worlds[0]);
    RunKeepsWorld(worlds, steps);
    if steps != [] {
      var n := |steps| - 1;
      RunPrefix(worlds, steps);
      GamePoints(worlds[..n + 1], steps[..n]);
      GameLowers(worlds, steps);
      forall i | 0 <= i < |worlds| ensures GameOk(worlds[i]) {
        assert i == n + 1 || worlds[i] == worlds[..n + 1][i];
      }
    }
  }

  // ---------- the game the session plays ----------

  /** Two boards and the player whose shot is next, at the other player's board. */
  datatype GameData = Game(boards: seq<Board>, onTurn: int)

  type Game = g: GameData | |g.boards| == 2 && 0 <= g.onTurn < 2 witness Game([EmptyBoard(), EmptyBoard()], 0)

  /** One shot: a player who hits a ship shoots again, and otherwise it is the other's turn. */
  ghost function PlayedOne(g: Game, shot: Point): Game {
    var target := 1 - g.onTurn;
    Game(g.boards[target := AfterShot(g.boards[target], shot)],
         if State(g.boards[target], shot) == UNHARMED then g.onTurn else target)
  }

  ghost function Played(g: Game, shots: seq<Point>): Game {
    if shots == [] then g else PlayedOne(Played(g, shots[..|shots| - 1]), shots[|shots| - 1])
  }

  ghost function GameOf(s: Session): Game {
    Game(s.fields, s.cur)
  }

  /** The shots of the turns that were played, in order. */
  ghost function Shots(worlds: seq<World>, steps: seq<Step>): seq<Point>
    requires |worlds| == |steps| + 1
  {
    if steps == [] then []
    else
      var n := |steps| - 1;
      Shots(worlds[..n + 1], steps[..n]) + if IsTurnChange(worlds[n], steps[n]) then [steps[n].shot] else []
  }

  /** The shot that takes the last unharmed cell is a hit. */
  lemma LastShotHits(b: Board, shot: Point)
    requires !NoUnharmed(b) && NoUnharmed(AfterShot(b, shot))
    ensures State(b, shot) == UNHARMED
  {
    hide Destroyed, NearLine;
    var p: Point :| OnField(p) && b[p] == UNHARMED;
    assert AfterShot(b, shot)[p] != UNHARMED;
  }

  lemma ChangePlaysOne(s: Session, shot: Point, endTime: int)
    requires RosterOk(s) && s.state == ProcessTurn && ShotTaken(s, shot) && InPlay(s.fields[0]) && InPlay(s.fields[1])
    ensures var o := ChangeTurnPlayer(s, shot, endTime);
      InTurns(o.session) && GameOf(o.session) == PlayedOne(GameOf(s), shot) && o.session.lastShot == NO_SHOT
  {
    hide ChangeTurnPlayer, AfterShot, NoUnharmed, State, Reached, IsFresh, RosterOk;
    var e := Enemy(s.cur);
    FreshOnField(s.fields[e], shot);
    HitKeepsTurn(s, shot, endTime);
    if NoUnharmed(AfterShot(s.fields[e], shot)) {
      LastShotHits(s.fields[e], shot);
    }
    assert ChangeTurnPlayer(s, shot, endTime).session.fields == s.fields[e := AfterShot(s.fields[e], shot)];
  }

  lemma FreshOnField(b: Board, p: Point)
    requires IsFresh(b, p)
    ensures OnField(p)
  {
  }

  lemma TurnsPhase(s: Session, kind: TimerKind)
    requires RosterOk(s) && Phase(s, [kind]) && InTurns(s)
    ensures kind == TurnChange ==> s.state == ProcessTurn && InPlay(s.fields[0]) && InPlay(s.fields[1])
    ensures kind == TurnEnd || kind == TurnChange || kind == GameEnd
    ensures kind == TurnEnd ==> s.state == GameTurn
  {
    hide InPlay, Over, ValidStart;
  }

  /** The kind of a timer that fires is the one the phase calls for. */
  lemma FiredPhase(w: World, id: nat)
    requires GameOk(w) && id in w.pending
    ensures Phase(w.s, [w.pending[id]])
  {
    hide Phase, WorldOk;
    var timers: seq<TimerKind> :| Queued(w, timers) && Phase(w.s, timers);
    FiredQueue(w, id, timers);
  }

  /** During the turns, only a change of turn plays a shot; nothing else touches the boards or the
      player on turn. */
  lemma TurnStep(w: World, step: Step)
    requires GameOk(w) && Enabled(w, step) && NobodyLeft(w, Do(w, step)) && InTurns(w.s)
    ensures InTurns(Do(w, step).s)
    ensures GameOf(Do(w, step).s) == if IsTurnChange(w, step) then PlayedOne(GameOf(w.s), step.shot) else GameOf(w.s)
    ensures IsTurnChange(w, step) ==> Do(w, step).s.lastShot == NO_SHOT
    ensures !IsTurnChange(w, step) ==>
      Do(w, step).s.lastShot == if step.Move? && IsFirstMove(w.s, step.client) then step.point else w.s.lastShot
  {
    match step
    case Fire(_, _, _, _) => TurnFire(w, step);
    case _ => TurnMessage(w, step);
  }

  lemma TurnFire(w: World, step: Step)
    requires GameOk(w) && step.Fire? && Enabled(w, step) && NobodyLeft(w, Do(w, step)) && InTurns(w.s)
    ensures InTurns(Do(w, step).s)
    ensures GameOf(Do(w, step).s) == if IsTurnChange(w, step) then PlayedOne(GameOf(w.s), step.shot) else GameOf(w.s)
    ensures Do(w, step).s.lastShot == if IsTurnChange(w, step) then NO_SHOT else w.s.lastShot
  {
    hide GameOk, Phase, RosterOk, ShotTaken, InPlay, PlayedOne, TimerEvent, Applied, InTurns, GameOf;
    GameIsWorld(w);
    var kind := w.pending[step.id];
    FiredPhase(w, step.id);
    TurnsPhase(w.s, kind);
    AppliedSession(w.(pending := w.pending - {step.id}), TimerEvent(w.s, kind, step.first, step.shot, step.endTime));
    TurnEvent(w.s, kind, step.first, step.shot, step.endTime);
  }

  lemma TurnEvent(s: Session, kind: TimerKind, first: int, shot: Point, endTime: int)
    requires RosterOk(s) && InTurns(s) && Phase(s, [kind]) && 0 <= first < 2
    requires kind == TurnChange ==> s.state == ProcessTurn && ShotTaken(s, shot)
    requires SeatsKept(s, TimerEvent(s, kind, first, shot, endTime).session)
    ensures var s' := TimerEvent(s, kind, first, shot, endTime).session;
      && InTurns(s') && GameOf(s') == (if kind == TurnChange then PlayedOne(GameOf(s), shot) else GameOf(s))
      && s'.lastShot == if kind == TurnChange then NO_SHOT else s.lastShot
  {
    TurnsPhase(s, kind);
    hide Phase, ShotTaken, InPlay, PlayedOne, ChangeTurnPlayer, EndGame, EndTurn, RosterOk, CheckStartFields, StartGame, StopPreparation;
    match kind
    case TurnChange => ChangePlaysOne(s, shot, endTime);
    case TurnEnd => StartAndStopTold(s, 0, 0, 0);
    case GameEnd => EndPhase(s);
    case _ =>
  }

  lemma TurnMessage(w: World, step: Step)
    requires WorldOk(w) && !step.Fire? && NobodyLeft(w, Do(w, step)) && InTurns(w.s)
    ensures InTurns(Do(w, step).s) && GameOf(Do(w, step).s) == GameOf(w.s)
    ensures Do(w, step).s.lastShot == if step.Move? && IsFirstMove(w.s, step.client) then step.point else w.s.lastShot
  {
    assert RosterOk(w.s) && w.s.state != WaitPreparation;
    TwoInTurns(w.s);
    hide RosterOk, RequestGame, SendField, SendMove, NobodyLeft;
    match step
    case Request(c, endTime) => RequestAnswered(w.s, c, endTime); AppliedSession(w, RequestGame(w.s, c, endTime));
    case Field(c, b, id) => FieldCounts(w.s, c, b, id); AppliedSession(w, SendField(w.s, c, b, id));
    case Move(c, p) => OnlyFirstMoveCounts(w.s, c, p); AppliedSession(w, SendMove(w.s, c, p));
    case Leave(c) => LeaveIsStranger(w, c);
  }

  lemma TwoInTurns(s: Session)
    requires RosterOk(s) && InTurns(s)
    ensures PlayersCount(s) == 2
  {
  }

  /** From any point of the turns on, whatever messages arrive and whichever timers fire, the
      boards and the player on turn are those of the simple game with the shots that were played. */
  lemma {:induction false} GameIsReplayed(worlds: seq<World>, steps: seq<Step>)
    requires IsGame(worlds, steps) && InTurns(worlds[0].s)
    ensures InTurns(worlds[|steps|].s)
    ensures GameOf(worlds[|steps|].s) == Played(GameOf(worlds[0].s), Shots(worlds, steps))
  {
    hide GameOk, Do, Enabled, RosterOk, NobodyLeft, PlayedOne, GameOf, InTurns;
    if steps == [] {
      assert Shots(worlds, steps) == [];
    } else {
      var n := |steps| - 1;
      RunPrefix(worlds, steps);
      GameIsReplayed(worlds[..n + 1], steps[..n]);
      GamePoints(worlds, steps);
      assert Follows(worlds[n], steps[n], worlds[n + 1]) && NobodyLeft(worlds[n], worlds[n + 1]);
      TurnStep(worlds[n], steps[n]);
      var before := Shots(worlds[..n + 1], steps[..n]);
      assert before + [] == before && forall shot :: (before + [shot])[..|before|] == before;
    }
  }

  // ---------- which move counts ----------

  /** A move of the player on turn. */
  predicate IsTurnMove(s: Session, step: Step) {
    step.Move? && InTurns(s) && s.seats[s.cur] == Taken(step.client) && step.point != NO_SHOT
  }

  /** The first move of the player on turn among the steps from a to b. */
  function FirstMove(worlds: seq<World>, steps: seq<Step>, a: nat, b: nat): Point
    requires a <= b <= |steps| <= |worlds|
    decreases b - a
  {
    if a == b then NO_SHOT
    else if IsTurnMove(worlds[a].s, steps[a]) then steps[a].point
    else FirstMove(worlds, steps, a + 1, b)
  }

  /** As long as no turn is changed, the session remembers the first move of the player on turn. */
  lemma {:induction false} FirstMoveIsRemembered(worlds: seq<World>, steps: seq<Step>, a: nat, b: nat)
    requires IsGame(worlds, steps) && a <= b <= |steps| && InTurns(worlds[a].s)
    requires forall k :: a <= k < b ==> !IsTurnChange(worlds[k], steps[k])
    ensures InTurns(worlds[b].s) && GameOf(worlds[b].s) == GameOf(worlds[a].s)
    ensures worlds[b].s.lastShot
      == if worlds[a].s.lastShot != NO_SHOT then worlds[a].s.lastShot else FirstMove(worlds, steps, a, b)
    decreases b - a
  {
    hide IsGame, Do, GameOk, Enabled, RosterOk, NobodyLeft, IsTurnChange;
    if a < b {
      GameStep(worlds, steps, a);
      TurnStep(worlds[a], steps[a]);
      FirstMoveIsRemembered(worlds, steps, a + 1, b);
    }
  }

  lemma GameStep(worlds: seq<World>, steps: seq<Step>, k: nat)
    requires IsGame(worlds, steps) && k < |steps|
    ensures |worlds| == |steps| + 1 && GameOk(worlds[k]) && RosterOk(worlds[k].s) && Enabled(worlds[k], steps[k])
    ensures worlds[k + 1] == Do(worlds[k], steps[k]) && NobodyLeft(worlds[k], worlds[k + 1])
  {
    hide GameOk, Do, Enabled, RosterOk, NobodyLeft;
    GamePoints(worlds, steps);
    assert Follows(worlds[k], steps[k], worlds[k + 1]);
  }

  /** The shot of a turn is the first move that the player on turn has sent since the last change
      of turn, if it hits a cell that can still change. The turn is the one the last shot has
      left. */
  lemma ShotIsFirstMove(worlds: seq<World>, steps: seq<Step>, i: nat, j: nat)
    requires IsGame(worlds, steps) && i < j < |steps| && InTurns(worlds[i].s)
    requires IsTurnChange(worlds[i], steps[i]) && IsTurnChange(worlds[j], steps[j])
    requires forall k :: i < k < j ==> !IsTurnChange(worlds[k], steps[k])
    ensures GameOf(worlds[j].s) == PlayedOne(GameOf(worlds[i].s), steps[i].shot)
    ensures var move := FirstMove(worlds, steps, i + 1, j);
      var target := worlds[j].s.fields[Enemy(worlds[j].s.cur)];
      && IsFresh(target, steps[j].shot)
      && (move != NO_SHOT && IsFresh(target, move) ==> steps[j].shot == move)
  {
    GameStep(worlds, steps, i);
    GameStep(worlds, steps, j);
    hide IsGame, Do, GameOk, RosterOk, NobodyLeft, IsFresh, PlayedOne;
    TurnStep(worlds[i], steps[i]);
    FirstMoveIsRemembered(worlds, steps, i + 1, j);
    FiredPhase(worlds[j], steps[j].id);
    TurnsPhase(worlds[j].s, TurnChange);
  }

  // ---------- how a game starts ----------

  predicate Collecting(s: Session) {
    s.state == Preparation || s.state == WaitStart
  }

  /** The last valid field that the client in seat i has sent among the steps from a to b, or what
      the session had before. */
  ghost function LastField(worlds: seq<World>, steps: seq<Step>, i: int, a: nat, b: nat): Board
    requires a <= b <= |steps| && |worlds| == |steps| + 1 && 0 <= i < 2
    decreases b
  {
    if a == b then worlds[a].s.fields[i]
    else if SendsField(worlds[b - 1].s, steps[b - 1], i) then steps[b - 1].board
    else LastField(worlds, steps, i, a, b - 1)
  }

  ghost predicate SendsField(s: Session, step: Step, i: int)
    requires 0 <= i < 2
  {
    step.Field? && s.seats[i] == Taken(step.client) && ValidStart(step.board)
  }

  /** While fields are collected, each player's field is the last valid one sent. */
  lemma {:induction false} LastFieldCounts(worlds: seq<World>, steps: seq<Step>, i: int, a: nat, b: nat)
    requires IsGame(worlds, steps) && a <= b <= |steps| && 0 <= i < 2
    requires forall k :: a <= k <= b ==> Collecting(worlds[k].s)
    ensures worlds[b].s.fields[i] == LastField(worlds, steps, i, a, b)
    decreases b
  {
    if a < b {
      LastFieldCounts(worlds, steps, i, a, b - 1);
      GameStep(worlds, steps, b - 1);
      assert Collecting(worlds[b - 1].s) && Collecting(worlds[b].s);
      hide IsGame, Do, GameOk, RosterOk, NobodyLeft, Enabled;
      CollectStep(worlds[b - 1], steps[b - 1], i);
    }
  }

  lemma CollectStep(w: World, step: Step, i: int)
    requires GameOk(w) && Enabled(w, step) && NobodyLeft(w, Do(w, step)) && 0 <= i < 2
    requires Collecting(w.s) && Collecting(Do(w, step).s)
    ensures Do(w, step).s.fields[i] == if SendsField(w.s, step, i) then step.board else w.s.fields[i]
  {
    hide GameOk, RosterOk, ValidStart, RequestGame, SendField, SendMove, TimerEvent, Applied, Phase;
    GameIsWorld(w);
    if step.Fire? {
      FiredPhase(w, step.id);
    }
    match step
    case Request(c, endTime) => RequestAnswered(w.s, c, endTime); AppliedSession(w, RequestGame(w.s, c, endTime));
    case Field(c, b, id) => FieldCounts(w.s, c, b, id); AppliedSession(w, SendField(w.s, c, b, id));
    case Move(c, p) => OnlyFirstMoveCounts(w.s, c, p); AppliedSession(w, SendMove(w.s, c, p));
    case Leave(c) => LeaveIsStranger(w, c);
    case Fire(id, first, shot, endTime) =>
      CollectFire(w.s, w.pending[id], first, shot, endTime);
      AppliedSession(w.(pending := w.pending - {id}), TimerEvent(w.s, w.pending[id], first, shot, endTime));
  }

  lemma CollectFire(s: Session, kind: TimerKind, first: int, shot: Point, endTime: int)
    requires RosterOk(s) && Collecting(s) && Phase(s, [kind]) && 0 <= first < 2
    ensures TimerEvent(s, kind, first, shot, endTime).session.fields == s.fields
  {
    hide ValidStart, InPlay, Over, CheckStartFields, ChangeTurnPlayer;
    CheckKeepsValid(s);
  }

  /** The client in seat i has sent a valid field. */
  ghost predicate HasSent(worlds: seq<World>, steps: seq<Step>, i: int, a: nat, b: nat)
    requires a <= b <= |steps| && |worlds| == |steps| + 1 && 0 <= i < 2
  {
    exists k :: a <= k < b && SendsField(worlds[k].s, steps[k], i)
  }

  /** Whoever has sent a valid field has one. */
  lemma {:induction false} SentIsValid(worlds: seq<World>, steps: seq<Step>, i: int, a: nat, b: nat)
    requires a <= b <= |steps| && |worlds| == |steps| + 1 && 0 <= i < 2
    requires HasSent(worlds, steps, i, a, b)
    ensures ValidStart(LastField(worlds, steps, i, a, b))
    decreases b
  {
    hide ValidStart;
    if !SendsField(worlds[b - 1].s, steps[b - 1], i) {
      SentIsValid(worlds, steps, i, a, b - 1);
    }
  }

  /** A game whose players have both sent a valid field does start: the check keeps both, and the
      one timer that is left then begins the first turn. */
  lemma BothSentStarts(worlds: seq<World>, steps: seq<Step>, check: Step)
    requires IsGame(worlds, steps) && forall k :: 0 <= k <= |steps| ==> Collecting(worlds[k].s)
    requires HasSent(worlds, steps, 0, 0, |steps|) && HasSent(worlds, steps, 1, 0, |steps|)
    requires check.Fire? && check.id in worlds[|steps|].pending && worlds[|steps|].pending[check.id] == FieldCheck
    requires RosterOk(worlds[|steps|].s) && Enabled(worlds[|steps|], check)
    ensures var w := worlds[|steps|];
      var w' := Do(w, check);
      && w'.s == w.s && GameOk(w') && w'.pending == map[w.nextId := GameStart]
      && w.s.fields == [LastField(worlds, steps, 0, 0, |steps|), LastField(worlds, steps, 1, 0, |steps|)]
      && forall first, endTime :: 0 <= first < 2 ==> Starts(w', w.nextId, first, endTime, w.s)
  {
    hide ValidStart, GameOk, Do, Starts, HasSent, LastField, Enabled, RosterOk, IsGame;
    GamesEnd(worlds, steps);
    var n := |steps|;
    LastFieldCounts(worlds, steps, 0, 0, n);
    LastFieldCounts(worlds, steps, 1, 0, n);
    SentIsValid(worlds, steps, 0, 0, n);
    SentIsValid(worlds, steps, 1, 0, n);
    CheckStarts(worlds[n], check);
  }

  lemma GamesEnd(worlds: seq<World>, steps: seq<Step>)
    requires IsGame(worlds, steps)
    ensures |worlds| == |steps| + 1 && GameOk(worlds[|steps|])
  {
    hide GameOk, Do, Enabled, RosterOk, NobodyLeft;
    GamePoints(worlds, steps);
  }

  /** Firing the timer begins the first turn of the session s. */
  ghost predicate Starts(w: World, id: nat, first: int, endTime: int, s: Session)
    requires 0 <= first < 2
  {
    RosterOk(w.s) && Enabled(w, Fire(id, first, NO_SHOT, endTime))
    && Do(w, Fire(id, first, NO_SHOT, endTime)).s == s.(state := GameTurn, cur := first)
  }

  lemma CheckStarts(w: World, check: Step)
    requires GameOk(w) && check.Fire? && Enabled(w, check) && w.pending[check.id] == FieldCheck && Collecting(w.s)
    requires BothValid(w.s)
    ensures var w' := Do(w, check);
      && w'.s == w.s && GameOk(w') && w'.pending == map[w.nextId := GameStart]
      && forall first, endTime :: 0 <= first < 2 ==> Starts(w', w.nextId, first, endTime, w.s)
  {
    hide ValidStart, Phase, CheckStartFields, InPlay, Over;
    FiredPhase(w, check.id);
    var timers: seq<TimerKind> :| Queued(w, timers) && Phase(w.s, timers);
    FiredQueue(w, check.id, timers);
    CheckKeepsValid(w.s);
    CheckPhaseIs(w.s);
    var o := CheckStartFields(w.s);
    assert o.session == w.s && o.timers == [GameStart] && !o.stopTurn;
    CheckQueue(w, check.id, o);
    StepKeepsGame(w, check);
    forall first, endTime | 0 <= first < 2 ensures Starts(Do(w, check), w.nextId, first, endTime, w.s) {
      StartAndStopTold(w.s, first, endTime, 0);
    }
  }

  lemma CheckQueue(w: World, id: nat, o: Outcome)
    requires id in w.pending && w.pending - {id} == map[] && o.timers == [GameStart] && !o.stopTurn
    ensures Applied(w.(pending := w.pending - {id}), o).pending == map[w.nextId := GameStart]
    ensures Applied(w.(pending := w.pending - {id}), o).s == o.session
  {
  }

  lemma CheckPhaseIs(s: Session)
    requires RosterOk(s) && Phase(s, [FieldCheck])
    ensures s.state == WaitStart && PlayersCount(s) == 2
  {
    hide ValidStart, InPlay, Over;
  }
}
