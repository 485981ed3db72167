// What the players have been told last: at every moment of the turns it is how things are.
module PlayerNews {
  import opened Options
  import opened Geometry
  import opened Fleets
  import opened ShotRules
  import opened EnemyViews
  import opened SessionRules
  import opened SessionRuns
  import opened SessionPosts
  import opened GameRules
  import opened GameProgress
  import opened GameEnds
  import opened GameStory

  // ---------- the last news among messages ----------

  /** The last field of the opponent among the messages, if any; otherwise the one from before. */
  function LastView(before: Option<Board>, msgs: seq<ServerMsg>): Option<Board> {
    if msgs == [] then before
    else
      var last := msgs[|msgs| - 1];
      if last.FieldMsg? && !last.own then Some(last.field) else LastView(before, msgs[..|msgs| - 1])
  }

  /** The last message about a turn. */
  function LastTurn(before: Option<ServerMsg>, msgs: seq<ServerMsg>): Option<ServerMsg> {
    if msgs == [] then before
    else
      var last := msgs[|msgs| - 1];
      if last.TurnStart? || last.TurnStop? then Some(last) else LastTurn(before, msgs[..|msgs| - 1])
  }

  lemma {:induction false} LastOfConcat(view: Option<Board>, turn: Option<ServerMsg>, a: seq<ServerMsg>, b: seq<ServerMsg>)
    ensures LastView(view, a + b) == LastView(LastView(view, a), b)
    ensures LastTurn(turn, a + b) == LastTurn(LastTurn(turn, a), b)
  {
    if b == [] {
      assert a + b == a;
    } else {
      LastOfConcat(view, turn, a, b[..|b| - 1]);
      assert (a + b)[..|a + b| - 1] == a + b[..|b| - 1];
    }
  }

  predicate IsNews(msg: ServerMsg) {
    msg.FieldMsg? || msg.TurnStart? || msg.TurnStop?
  }

  predicate Quiet(sent: seq<Post>) {
    forall k :: 0 <= k < |sent| ==> !IsNews(sent[k].msg)
  }

  lemma {:induction false} QuietMsgs(sent: seq<Post>, c: Client)
    requires Quiet(sent)
    ensures forall k :: 0 <= k < |MsgsTo(sent, c)| ==> !IsNews(MsgsTo(sent, c)[k])
  {
    hide IsNews;
    if sent != [] {
      QuietMsgs(sent[1..], c);
    }
  }

  lemma {:induction false} NoNews(view: Option<Board>, turn: Option<ServerMsg>, msgs: seq<ServerMsg>)
    requires forall k :: 0 <= k < |msgs| ==> !IsNews(msgs[k])
    ensures LastView(view, msgs) == view && LastTurn(turn, msgs) == turn
  {
    if msgs != [] {
      NoNews(view, turn, msgs[..|msgs| - 1]);
    }
  }

  lemma QuietKeeps(view: Option<Board>, turn: Option<ServerMsg>, sent: seq<Post>, c: Client)
    requires Quiet(sent)
    ensures LastView(view, MsgsTo(sent, c)) == view && LastTurn(turn, MsgsTo(sent, c)) == turn
  {
    QuietMsgs(sent, c);
    NoNews(view, turn, MsgsTo(sent, c));
  }

  lemma LastOfOne(view: Option<Board>, turn: Option<ServerMsg>, m: ServerMsg)
    ensures LastView(view, [m]) == if m.FieldMsg? && !m.own then Some(m.field) else view
    ensures LastTurn(turn, [m]) == if m.TurnStart? || m.TurnStop? then Some(m) else turn
  {
  }

  lemma LastOfTwo(view: Option<Board>, turn: Option<ServerMsg>, m: ServerMsg, n: ServerMsg)
    ensures LastView(view, [m, n]) == LastView(LastView(view, [m]), [n])
    ensures LastTurn(turn, [m, n]) == LastTurn(LastTurn(turn, [m]), [n])
  {
    LastOfConcat(view, turn, [m], [n]);
    assert [m] + [n] == [m, n];
  }

  // ---------- what holds of the news ----------

  ghost predicate SeesBoard(s: Session, i: int, view: Option<Board>)
    requires 0 <= i < 2
  {
    view == Some(HiddenShips(s.fields[Enemy(i)]))
  }

  predicate KnowsTurn(s: Session, i: int, turn: Option<ServerMsg>)
    requires 0 <= i < 2
  {
    && (s.state == GameTurn ==> turn.Some? && turn.value.TurnStart? && turn.value.own == (i == s.cur))
    && (s.state == ProcessTurn ==> turn.Some? && turn.value == TurnStop(i == s.cur))
  }

  /** With the timers still queued: from the check of the fields on the player in seat i sees the
      opponent's board without its ships, and during the turns knows whose turn it is. */
  ghost predicate NewsOk(s: Session, timers: seq<TimerKind>, i: int, view: Option<Board>, turn: Option<ServerMsg>)
    requires 0 <= i < 2
  {
    && (InTurns(s) || (s.state == WaitStart && timers == [GameStart]) ==> SeesBoard(s, i, view))
    && KnowsTurn(s, i, turn)
  }

  // ---------- each step ----------

  /** A field can still be replaced between the check and the start, by a valid one; the opponent's
      view of it stays the same. */
  lemma FieldNews(s: Session, timers: seq<TimerKind>, c: Client, b: Board, msgId: int, i: int, view: Option<Board>, turn: Option<ServerMsg>)
    requires RosterOk(s) && Phase(s, timers) && 0 <= i < 2 && s.seats[i].Taken? && NewsOk(s, timers, i, view, turn)
    ensures var o := SendField(s, c, b, msgId);
      var msgs := MsgsTo(o.sent, s.seats[i].client);
      NewsOk(o.session, timers, i, LastView(view, msgs), LastTurn(turn, msgs))
  {
    hide ValidStart, HiddenShips, EmptyBoard, MsgsTo, LastView, LastTurn, InPlay, Over, SendField;
    FieldCounts(s, c, b, msgId);
    if ValidStart(b) {
      StartIsHidden(b);
    }
    if ValidStart(s.fields[Enemy(i)]) {
      StartIsHidden(s.fields[Enemy(i)]);
    }
    QuietKeeps(view, turn, SendField(s, c, b, msgId).sent, s.seats[i].client);
  }

  lemma MoveNews(s: Session, timers: seq<TimerKind>, c: Client, p: Point, i: int, view: Option<Board>, turn: Option<ServerMsg>)
    requires RosterOk(s) && 0 <= i < 2 && s.seats[i].Taken? && NewsOk(s, timers, i, view, turn)
    ensures var o := SendMove(s, c, p);
      var msgs := MsgsTo(o.sent, s.seats[i].client);
      NewsOk(o.session, if o.stopTurn then o.timers else timers, i, LastView(view, msgs), LastTurn(turn, msgs))
  {
    hide HiddenShips, MsgsTo, LastView, LastTurn, RosterOk, EndTurn;
    MoveSends(s, c, p);
    if IsFirstMove(s, c) && s.state == GameTurn {
      StartAndStopTold(s.(lastShot := p), 0, 0, i);
      LastOfOne(view, turn, TurnStop(i == s.cur));
    } else {
      QuietKeeps(view, turn, SendMove(s, c, p).sent, s.seats[i].client);
    }
  }

  lemma MoveSends(s: Session, c: Client, p: Point)
    requires RosterOk(s)
    ensures RosterOk(s.(lastShot := p))
    ensures IsFirstMove(s, c) && s.state == GameTurn ==> SendMove(s, c, p) == EndTurn(s.(lastShot := p))
    ensures !(IsFirstMove(s, c) && s.state == GameTurn) ==>
      Quiet(SendMove(s, c, p).sent) && SendMove(s, c, p).session == s.(lastShot := SendMove(s, c, p).session.lastShot)
      && !SendMove(s, c, p).stopTurn
  {
    hide NOT_IN_GAME;
  }

  lemma RequestNews(s: Session, timers: seq<TimerKind>, c: Client, endTime: int, i: int, view: Option<Board>, turn: Option<ServerMsg>)
    requires RosterOk(s) && s.state != WaitPreparation && 0 <= i < 2 && s.seats[i].Taken? && NewsOk(s, timers, i, view, turn)
    ensures var o := RequestGame(s, c, endTime);
      var msgs := MsgsTo(o.sent, s.seats[i].client);
      NewsOk(o.session, timers + o.timers, i, LastView(view, msgs), LastTurn(turn, msgs))
  {
    hide HiddenShips, MsgsTo, LastView, LastTurn;
    assert timers + [] == timers;
    QuietKeeps(view, turn, RequestGame(s, c, endTime).sent, s.seats[i].client);
  }

  lemma ChangeNews(s: Session, shot: Point, endTime: int, i: int, view: Option<Board>, turn: Option<ServerMsg>)
    requires RosterOk(s) && s.state == ProcessTurn && OnField(shot) && 0 <= i < 2 && NewsOk(s, [TurnChange], i, view, turn)
    ensures s.seats[i].Taken?
    ensures var o := ChangeTurnPlayer(s, shot, endTime);
      var msgs := MsgsTo(o.sent, s.seats[i].client);
      NewsOk(o.session, o.timers, i, LastView(view, msgs), LastTurn(turn, msgs))
  {
    hide ChangeTurnPlayer, AfterShot, NoUnharmed, HiddenShips, MsgsTo, LastView, LastTurn, RosterOk, State;
    TurnTold(s, shot, endTime, i);
    HitKeepsTurn(s, shot, endTime);
    var msgs := MsgsTo(ChangeTurnPlayer(s, shot, endTime).sent, s.seats[i].client);
    LastOfTwo(view, turn, msgs[0], msgs[1]);
    LastOfOne(view, turn, msgs[0]);
    LastOfOne(LastView(view, [msgs[0]]), LastTurn(turn, [msgs[0]]), msgs[1]);
  }

  /** The state that each kind of timer belongs to. */
  predicate FitsState(kind: TimerKind, state: GameState) {
    match kind
    case PreparationEnd => state == Preparation
    case FieldCheck => state == WaitStart
    case GameStart => state == WaitStart
    case TurnEnd => state == GameTurn
    case TurnChange => state == ProcessTurn
    case GameEnd => state == ProcessTurn
  }

  lemma EventNews(s: Session, kind: TimerKind, first: int, shot: Point, endTime: int, i: int, view: Option<Board>, turn: Option<ServerMsg>)
    requires RosterOk(s) && FitsState(kind, s.state) && 0 <= first < 2 && 0 <= i < 2 && NewsOk(s, [kind], i, view, turn)
    requires SeatsKept(s, TimerEvent(s, kind, first, shot, endTime).session)
    requires kind == TurnChange ==> s.state == ProcessTurn && OnField(shot)
    requires s.seats[0].Taken? && s.seats[1].Taken?
    ensures var o := TimerEvent(s, kind, first, shot, endTime);
      var msgs := MsgsTo(o.sent, s.seats[i].client);
      NewsOk(o.session, o.timers, i, LastView(view, msgs), LastTurn(turn, msgs))
  {
    hide NewsOk, HiddenShips, MsgsTo, LastView, LastTurn, RosterOk, ChangeTurnPlayer, CheckStartFields, EndTurn, StartGame, StopPreparation, EndGame;
    match kind
    case PreparationEnd => StopNews(s, i, view, turn);
    case FieldCheck => CheckNews(s, i, view, turn);
    case GameStart => StartNews(s, first, endTime, i, view, turn);
    case TurnEnd => EndNews(s, i, view, turn);
    case TurnChange => ChangeNews(s, shot, endTime, i, view, turn);
    case GameEnd => EndLosesSeats(s);
  }

  lemma StopNews(s: Session, i: int, view: Option<Board>, turn: Option<ServerMsg>)
    requires RosterOk(s) && s.state == Preparation && 0 <= i < 2
    ensures s.seats[i].Taken?
    ensures var o := StopPreparation(s);
      var msgs := MsgsTo(o.sent, s.seats[i].client);
      NewsOk(o.session, o.timers, i, LastView(view, msgs), LastTurn(turn, msgs))
  {
    hide HiddenShips, MsgsTo, LastView, LastTurn, RosterOk, StopPreparation;
    StopTold(s, i);
  }

  lemma StartNews(s: Session, first: int, endTime: int, i: int, view: Option<Board>, turn: Option<ServerMsg>)
    requires RosterOk(s) && s.state == WaitStart && 0 <= i < 2 && 0 <= first < 2 && NewsOk(s, [GameStart], i, view, turn)
    ensures s.seats[i].Taken?
    ensures var o := StartGame(s, first, endTime);
      var msgs := MsgsTo(o.sent, s.seats[i].client);
      NewsOk(o.session, o.timers, i, LastView(view, msgs), LastTurn(turn, msgs))
  {
    hide HiddenShips, MsgsTo, LastView, LastTurn, RosterOk, StartGame;
    StartAndStopTold(s, first, endTime, i);
    LastOfOne(view, turn, TurnStart(endTime, i == first));
  }

  lemma EndNews(s: Session, i: int, view: Option<Board>, turn: Option<ServerMsg>)
    requires RosterOk(s) && s.state == GameTurn && 0 <= i < 2 && NewsOk(s, [TurnEnd], i, view, turn)
    ensures s.seats[i].Taken?
    ensures var o := EndTurn(s);
      var msgs := MsgsTo(o.sent, s.seats[i].client);
      NewsOk(o.session, o.timers, i, LastView(view, msgs), LastTurn(turn, msgs))
  {
    hide HiddenShips, MsgsTo, LastView, LastTurn, RosterOk, EndTurn;
    StartAndStopTold(s, 0, 0, i);
    LastOfOne(view, turn, TurnStop(i == s.cur));
  }

  lemma PhaseOfKind(s: Session, kind: TimerKind)
    requires RosterOk(s) && Phase(s, [kind])
    ensures s.seats[0].Taken? && s.seats[1].Taken? && FitsState(kind, s.state)
  {
    hide ValidStart, InPlay, Over;
  }

  lemma EndLosesSeats(s: Session)
    requires RosterOk(s) && s.seats[0].Taken?
    ensures !SeatsKept(s, EndGame(s).session)
  {
    EndFreesSeats(s);
    hide EndGame;
  }

  lemma CheckNews(s: Session, i: int, view: Option<Board>, turn: Option<ServerMsg>)
    requires RosterOk(s) && s.state == WaitStart && 0 <= i < 2 && SeatsKept(s, CheckStartFields(s).session)
    ensures s.seats[i].Taken?
    ensures var o := CheckStartFields(s);
      var msgs := MsgsTo(o.sent, s.seats[i].client);
      NewsOk(o.session, o.timers, i, LastView(view, msgs), LastTurn(turn, msgs))
  {
    hide ValidStart, HiddenShips, MsgsTo, LastView, LastTurn, CheckStartFields;
    KickChecks(s);
    CheckKeepsValid(s);
    FieldsShown(s, i);
    var msgs := MsgsTo(CheckStartFields(s).sent, s.seats[i].client);
    LastOfTwo(view, turn, msgs[0], msgs[1]);
    LastOfOne(view, turn, msgs[0]);
    LastOfOne(LastView(view, [msgs[0]]), LastTurn(turn, [msgs[0]]), msgs[1]);
  }

  // ---------- over a whole game ----------

  /** What the step tells the client. */
  ghost function Told(w: World, step: Step, c: Client): seq<ServerMsg> {
    if RosterOk(w.s) && Enabled(w, step) then MsgsTo(StepOutcome(w, step).sent, c) else []
  }

  /** Everything the client has been told during the steps. */
  ghost function HeardBy(worlds: seq<World>, steps: seq<Step>, c: Client): seq<ServerMsg>
    requires |worlds| == |steps| + 1
  {
    if steps == [] then []
    else
      var n := |steps| - 1;
      HeardBy(worlds[..n + 1], steps[..n], c) + Told(worlds[n], steps[n], c)
  }

  /** The news is right in the world, with the timers that are queued in it. */
  ghost predicate NewsRight(w: World, i: int, view: Option<Board>, turn: Option<ServerMsg>)
    requires 0 <= i < 2
  {
    forall timers: seq<TimerKind> :: Queued(w, timers) ==> NewsOk(w.s, timers, i, view, turn)
  }

  lemma QueuedOnce(w: World, timers: seq<TimerKind>, timers': seq<TimerKind>)
    requires Queued(w, timers) && Queued(w, timers')
    ensures timers == timers'
  {
    KindsAreQueued(w, timers);
    KindsAreQueued(w, timers');
  }

  lemma NewsByQueue(w: World, timers: seq<TimerKind>, i: int, view: Option<Board>, turn: Option<ServerMsg>)
    requires Queued(w, timers) && 0 <= i < 2 && NewsOk(w.s, timers, i, view, turn)
    ensures NewsRight(w, i, view, turn)
  {
    hide Queued, NewsOk;
    forall timers': seq<TimerKind> | Queued(w, timers') ensures NewsOk(w.s, timers', i, view, turn) {
      QueuedOnce(w, timers, timers');
    }
  }

  lemma StepNews(w: World, step: Step, i: int, view: Option<Board>, turn: Option<ServerMsg>)
    requires GameOk(w) && Enabled(w, step) && NobodyLeft(w, Do(w, step)) && 0 <= i < 2 && w.s.seats[i].Taken?
    requires NewsRight(w, i, view, turn)
    ensures var msgs := Told(w, step, w.s.seats[i].client);
      NewsRight(Do(w, step), i, LastView(view, msgs), LastTurn(turn, msgs))
  {
    hide Phase, WorldOk, Do, NobodyLeft, NewsRight, LastView, LastTurn, Told;
    var timers: seq<TimerKind> :| Queued(w, timers) && Phase(w.s, timers);
    GameIsWorld(w);
    if step.Fire? {
      FireNews(w, step, timers, i, view, turn);
    } else {
      OtherNews(w, step, timers, i, view, turn);
    }
  }

  lemma FireNews(w: World, step: Step, timers: seq<TimerKind>, i: int, view: Option<Board>, turn: Option<ServerMsg>)
    requires WorldOk(w) && Queued(w, timers) && Phase(w.s, timers)
    requires step.Fire? && Enabled(w, step) && NobodyLeft(w, Do(w, step)) && 0 <= i < 2 && w.s.seats[i].Taken?
    requires NewsRight(w, i, view, turn)
    ensures var msgs := Told(w, step, w.s.seats[i].client);
      NewsRight(Do(w, step), i, LastView(view, msgs), LastTurn(turn, msgs))
  {
    hide Phase, RosterOk, NewsOk, LastView, LastTurn, TimerEvent, Queued, MsgsTo, IsFresh;
    FiredQueue(w, step.id, timers);
    var kind := w.pending[step.id];
    var o := TimerEvent(w.s, kind, step.first, step.shot, step.endTime);
    PhaseOfKind(w.s, kind);
    if kind == TurnChange {
      FreshOnField(w.s.fields[Enemy(w.s.cur)], step.shot);
    }
    AppliedSession(w.(pending := w.pending - {step.id}), o);
    EventNews(w.s, kind, step.first, step.shot, step.endTime, i, view, turn);
    EventPhase(w.s, kind, step.first, step.shot, step.endTime);
    PhaseAtMostOne(o.session, o.timers);
    FiredPending(w, step.id, o);
    var msgs := MsgsTo(o.sent, w.s.seats[i].client);
    NewsByQueue(Do(w, step), o.timers, i, LastView(view, msgs), LastTurn(turn, msgs));
  }

  lemma OtherNews(w: World, step: Step, timers: seq<TimerKind>, i: int, view: Option<Board>, turn: Option<ServerMsg>)
    requires WorldOk(w) && Queued(w, timers) && Phase(w.s, timers)
    requires !step.Fire? && NobodyLeft(w, Do(w, step)) && 0 <= i < 2 && w.s.seats[i].Taken?
    requires NewsRight(w, i, view, turn)
    ensures var msgs := Told(w, step, w.s.seats[i].client);
      NewsRight(Do(w, step), i, LastView(view, msgs), LastTurn(turn, msgs))
  {
    hide Phase, RosterOk, NewsOk, LastView, LastTurn, Queued, MsgsTo, Applied, RequestGame, SendField, SendMove;
    var client := w.s.seats[i].client;
    assert timers + [] == timers;
    match step
    case Request(c, endTime) =>
      var o := RequestGame(w.s, c, endTime);
      RequestNews(w.s, timers, c, endTime, i, view, turn);
      RequestPhase(w.s, timers, c, endTime);
      PhaseAtMostOne(o.session, timers + o.timers);
      AppliedQueue(w, timers, o);
      AppliedSession(w, o);
      NewsByQueue(Do(w, step), timers + o.timers, i, LastView(view, MsgsTo(o.sent, client)), LastTurn(turn, MsgsTo(o.sent, client)));
    case Field(c, b, id) =>
      var o := SendField(w.s, c, b, id);
      FieldNews(w.s, timers, c, b, id, i, view, turn);
      FieldPhase(w.s, timers, c, b, id);
      PhaseAtMostOne(w.s, timers);
      AppliedQueue(w, timers, o);
      AppliedSession(w, o);
      NewsByQueue(Do(w, step), timers, i, LastView(view, MsgsTo(o.sent, client)), LastTurn(turn, MsgsTo(o.sent, client)));
    case Move(c, p) =>
      var o := SendMove(w.s, c, p);
      MoveNews(w.s, timers, c, p, i, view, turn);
      MovePhase(w.s, timers, c, p);
      PhaseAtMostOne(w.s, timers);
      if o.stopTurn {
        StoppedQueue(w, o);
      } else {
        AppliedQueue(w, timers, o);
      }
      AppliedSession(w, o);
      NewsByQueue(Do(w, step), if o.stopTurn then o.timers else timers, i,
                  LastView(view, MsgsTo(o.sent, client)), LastTurn(turn, MsgsTo(o.sent, client)));
    case Leave(c) =>
      LeaveIsStranger(w, c);
      LeaveTellsNothing(w, c, client);
      NoNews(view, turn, []);
  }

  lemma LeaveTellsNothing(w: World, c: Client, d: Client)
    requires RosterOk(w.s) && NobodyLeft(w, Do(w, Leave(c)))
    ensures Told(w, Leave(c), d) == []
  {
    hide MsgsTo;
    NothingHeard();
  }

  /** Over any game that nobody leaves, whatever else is sent: from the check of the fields on, the
      last field of the opponent that a player was sent is how the opponent's board looks now
      with the ships hidden that were not hit; and during the turns the last thing a player was
      told about a turn is right. */
  lemma {:induction false} NewsIsRight(worlds: seq<World>, steps: seq<Step>, i: int)
    requires IsGame(worlds, steps) && AtRest(worlds[0]) && 0 <= i < 2
    ensures var w := worlds[|steps|];
      w.s.seats[i].Taken? ==>
      var msgs := HeardBy(worlds, steps, w.s.seats[i].client);
      NewsRight(w, i, LastView(None, msgs), LastTurn(None, msgs))
  {
    hide GameOk, Do, Enabled, RosterOk, NewsRight, LastView, LastTurn, Told, AtRest, NobodyLeft;
    if steps == [] {
      RestNews(worlds[0], i);
    } else {
      var n := |steps| - 1;
      RunPrefix(worlds, steps);
      NewsIsRight(worlds[..n + 1], steps[..n], i);
      GameStep(worlds, steps, n);
      var w, w' := worlds[n], worlds[n + 1];
      if w.s.seats[i].Taken? {
        var c := w.s.seats[i].client;
        KeptSeat(w, w', i);
        var before := HeardBy(worlds[..n + 1], steps[..n], c);
        StepNews(w, steps[n], i, LastView(None, before), LastTurn(None, before));
        LastOfConcat(None, None, before, Told(w, steps[n], c));
      } else {
        NewSeatNews(w, steps[n], i, HeardBy(worlds, steps, if w'.s.seats[i].Taken? then w'.s.seats[i].client else 0));
      }
    }
  }

  lemma KeptSeat(w: World, w': World, i: int)
    requires NobodyLeft(w, w') && 0 <= i < 2 && w.s.seats[i].Taken?
    ensures w'.s.seats[i] == w.s.seats[i]
  {
  }

  lemma RestNews(w: World, i: int)
    requires AtRest(w) && 0 <= i < 2
    ensures forall view, turn :: NewsRight(w, i, view, turn)
  {
    forall view, turn ensures NewsRight(w, i, view, turn) {
      NoGameNews(w, i, view, turn);
    }
  }

  /** With a seat free the game has not begun, and neither has it right after the seat is taken. */
  lemma NewSeatNews(w: World, step: Step, i: int, msgs: seq<ServerMsg>)
    requires GameOk(w) && RosterOk(w.s) && Enabled(w, step) && NobodyLeft(w, Do(w, step)) && 0 <= i < 2 && w.s.seats[i].Free?
    ensures NewsRight(Do(w, step), i, LastView(None, msgs), LastTurn(None, msgs))
  {
    hide LastView, LastTurn, GameOk, Do, Enabled, RosterOk, NobodyLeft, NewsRight;
    EarlyStep(w, step);
    NoGameNews(Do(w, step), i, LastView(None, msgs), LastTurn(None, msgs));
  }

  lemma NoGameNews(w: World, i: int, view: Option<Board>, turn: Option<ServerMsg>)
    requires 0 <= i < 2 && !InTurns(w.s) && w.s.state != WaitStart
    ensures NewsRight(w, i, view, turn)
  {
    hide Queued, SeesBoard;
  }

  lemma EarlyStep(w: World, step: Step)
    requires GameOk(w) && RosterOk(w.s) && Enabled(w, step) && NobodyLeft(w, Do(w, step)) && PlayersCount(w.s) < 2
    ensures !InTurns(Do(w, step).s) && Do(w, step).s.state != WaitStart
  {
    var timers: seq<TimerKind> :| Queued(w, timers) && Phase(w.s, timers);
    assert w.pending == map[];
    hide RequestGame, SendField, SendMove, Applied, ValidStart, InPlay, Over, GameOk;
    match step
    case Request(c, endTime) => RequestAnswered(w.s, c, endTime); AppliedSession(w, RequestGame(w.s, c, endTime));
    case Field(c, b, id) => FieldCounts(w.s, c, b, id); AppliedSession(w, SendField(w.s, c, b, id));
    case Move(c, p) => OnlyFirstMoveCounts(w.s, c, p); AppliedSession(w, SendMove(w.s, c, p));
    case Leave(c) => LeaveIsStranger(w, c);
    case Fire(_, _, _, _) =>
  }
}
