// What a player can learn about the opponent's field. Two runs of a session that differ only in
// the fields that the player in one seat sends look the same to everybody else, message by
// message, as long as the answers to the shots at those fields are the same.
module Secrecy {
  import opened Geometry
  import opened Fleets
  import opened ShotRules
  import opened EnemyViews
  import opened SessionRules
  import opened SessionRuns
  import opened GameRules

  // ---------- every board of a session ----------

  /** Ships that do not touch, after some shots. */
  ghost predicate FleetBoard(b: Board) {
    exists F: Fleet, shots: set<Point> :: Separate(F) && b == Settled(F, shots)
  }

  ghost predicate BoardsOk(s: Session) {
    FleetBoard(s.fields[0]) && FleetBoard(s.fields[1])
  }

  lemma EmptyIsFleetBoard()
    ensures FleetBoard(EmptyBoard())
  {
    assert Separate([]) && forall q: Point :: !CoveredBy([], q) && !NearSunk([], {}, q);
    assert EmptyBoard() == Settled([], {});
  }

  lemma StartIsFleetBoard(b: Board)
    requires ValidStart(b)
    ensures FleetBoard(b)
  {
    hide Settled, Separate;
    var F: Fleet :| FleetOf(F, b);
    StartIsSettled(b, F);
  }

  lemma ShotKeepsFleetBoard(b: Board, p: Point)
    requires FleetBoard(b)
    ensures FleetBoard(AfterShot(b, p))
  {
    hide Settled, Separate, AfterShot;
    var F: Fleet, shots: set<Point> :| Separate(F) && b == Settled(F, shots);
    ShotSettles(F, shots, p);
  }

  lemma EventKeepsBoards(s: Session, kind: TimerKind, first: int, shot: Point, endTime: int)
    requires RosterOk(s) && BoardsOk(s) && 0 <= first < 2
    ensures BoardsOk(TimerEvent(s, kind, first, shot, endTime).session)
  {
    hide FleetBoard, AfterShot, ValidStart, StartFields, NoUnharmed, TurnFields, ShotResult;
    ShotKeepsFleetBoard(s.fields[0], shot);
    ShotKeepsFleetBoard(s.fields[1], shot);
  }

  /** A field is only stored if it is a valid start, so every board is one of these at all times. */
  lemma StepKeepsBoards(w: World, step: Step)
    requires RosterOk(w.s) && Enabled(w, step) && BoardsOk(w.s)
    ensures BoardsOk(Do(w, step).s)
  {
    hide FleetBoard, TimerEvent, ValidStart, RosterOk, RequestGame, SendField, SendMove, DisconnectPlayer, ShotTaken;
    match step
    case Request(c, endTime) => FieldsStay(w.s, c, endTime, NO_SHOT);
    case Move(c, p) => FieldsStay(w.s, c, 0, p);
    case Leave(c) => FieldsStay(w.s, c, 0, NO_SHOT);
    case Field(c, b, id) =>
      FieldCounts(w.s, c, b, id);
      if ValidStart(b) {
        StartIsFleetBoard(b);
      }
    case Fire(id, first, shot, endTime) => EventKeepsBoards(w.s, w.pending[id], first, shot, endTime);
  }

  lemma FieldsStay(s: Session, c: Client, endTime: int, p: Point)
    requires RosterOk(s)
    ensures RequestGame(s, c, endTime).session.fields == s.fields && SendMove(s, c, p).session.fields == s.fields
    ensures DisconnectPlayer(s, c).session.fields == s.fields
  {
  }

  // ---------- what looks the same ----------

  /** The sessions differ at most in the ships of the board of seat e that have not been hit. */
  ghost predicate LookSame(e: int, s: Session, t: Session)
    requires 0 <= e < 2
  {
    t == s.(fields := s.fields[e := t.fields[e]]) && HiddenShips(s.fields[e]) == HiddenShips(t.fields[e])
  }

  ghost predicate WorldsLookSame(e: int, w: World, v: World)
    requires 0 <= e < 2
  {
    v == w.(s := v.s) && LookSame(e, w.s, v.s)
  }

  /** The same posts in the same order, but for what is told to the client in the given seat. */
  predicate SameButFor(seat: Seat, a: seq<Post>, b: seq<Post>) {
    |a| == |b| && forall k :: 0 <= k < |a| ==> a[k].to == b[k].to && (seat == Taken(a[k].to) || a[k] == b[k])
  }

  ghost predicate SameOutcome(e: int, s: Session, o: Outcome, o': Outcome)
    requires 0 <= e < 2
  {
    && LookSame(e, o.session, o'.session) && o.timers == o'.timers && o.stopTurn == o'.stopTurn
    && SameButFor(s.seats[e], o.sent, o'.sent)
  }

  /** What the shooter gets to know from a shot. */
  datatype Answer = Answer(result: Cell, sank: bool, last: bool)

  ghost function AnswerTo(b: Board, p: Point): Answer {
    Answer(ShotResult(b, p), Sinks(b, p), NoUnharmed(AfterShot(b, p)))
  }

  /** The events get the same answers from the board of seat e: whether it is a valid start, when
      the fields are checked, and what the shot does, when that board is shot at. */
  ghost predicate SameAnswers(e: int, s: Session, t: Session, kind: TimerKind, shot: Point)
    requires 0 <= e < 2
  {
    && (kind == FieldCheck ==> (ValidStart(s.fields[e]) <==> ValidStart(t.fields[e])))
    && (kind == TurnChange && Enemy(s.cur) == e ==> AnswerTo(s.fields[e], shot) == AnswerTo(t.fields[e], shot))
  }

  /** The same step, but that the client in seat e may send different valid fields. */
  ghost predicate SimilarSteps(e: int, w: World, v: World, step: Step, step': Step)
    requires 0 <= e < 2
  {
    match step
    case Field(c, b, id) =>
      && step'.Field? && step'.client == c && step'.msgId == id
      && (b == step'.board || (w.s.seats[e] == Taken(c) && ValidStart(b) && ValidStart(step'.board)))
    case Fire(id, _, shot, _) =>
      step' == step && (id in w.pending ==> SameAnswers(e, w.s, v.s, w.pending[id], shot))
    case _ => step' == step
  }

  // ---------- each operation ----------

  lemma FieldSame(e: int, s: Session, t: Session, c: Client, b: Board, b': Board, id: int)
    requires 0 <= e < 2 && LookSame(e, s, t)
    requires b == b' || (s.seats[e] == Taken(c) && ValidStart(b) && ValidStart(b'))
    requires RosterOk(s)
    ensures SameOutcome(e, s, SendField(s, c, b, id), SendField(t, c, b', id))
  {
    if b != b' {
      StartIsHidden(b);
      StartIsHidden(b');
    }
    hide ValidStart, HiddenShips, EmptyBoard, LookSame, SameOutcome;
    SameSeats(e, s, t);
    if !HasPlayer(s, c) {
      ReplySame(e, s, s, t, Post(c, ErrorReply(NOT_IN_GAME)));
    } else if !ValidStart(b) {
      ReplySame(e, s, s, t, Post(c, ErrorReply(INVALID_FIELD)));
    } else {
      var (s', ok) := SetField(s, c, b);
      var (t', ok') := SetField(t, c, b');
      StoredSame(e, s, t, SeatOf(s, c), b, b');
      ReplySame(e, s, s', t', Post(c, if ok then ReceiptReply(id) else ErrorReply(FIELD_REFUSED)));
    }
  }

  lemma ReplySame(e: int, s: Session, s': Session, t': Session, post: Post)
    requires 0 <= e < 2 && LookSame(e, s', t')
    ensures SameOutcome(e, s, Unchanged(s').(sent := [post]), Unchanged(t').(sent := [post]))
  {
    hide HiddenShips;
  }

  lemma StoredSame(e: int, s: Session, t: Session, i: int, b: Board, b': Board)
    requires 0 <= e < 2 && 0 <= i < 2 && LookSame(e, s, t)
    requires if i == e then HiddenShips(b) == HiddenShips(b') else b == b'
    ensures LookSame(e, s.(fields := s.fields[i := b]), t.(fields := t.fields[i := b']))
  {
    hide HiddenShips;
    assert t.fields[i := b'] == s.fields[i := b][e := t.fields[i := b'][e]];
  }

  lemma RequestSame(e: int, s: Session, t: Session, c: Client, endTime: int)
    requires 0 <= e < 2 && LookSame(e, s, t)
    ensures SameOutcome(e, s, RequestGame(s, c, endTime), RequestGame(t, c, endTime))
  {
    hide HiddenShips;
  }

  lemma MoveSame(e: int, s: Session, t: Session, c: Client, p: Point)
    requires 0 <= e < 2 && LookSame(e, s, t) && RosterOk(s)
    ensures SameOutcome(e, s, SendMove(s, c, p), SendMove(t, c, p))
  {
    hide HiddenShips;
  }

  lemma LeaveSame(e: int, s: Session, t: Session, c: Client)
    requires 0 <= e < 2 && LookSame(e, s, t)
    ensures SameOutcome(e, s, DisconnectPlayer(s, c), DisconnectPlayer(t, c))
    ensures SameOutcome(e, s, Unchanged(s), Unchanged(t))
    ensures SameOutcome(e, s, EndGame(s), EndGame(t))
  {
    hide HiddenShips;
  }

  lemma PreparationSame(e: int, s: Session, t: Session, first: int, endTime: int)
    requires 0 <= e < 2 && LookSame(e, s, t) && RosterOk(s) && 0 <= first < 2
    ensures SameOutcome(e, s, StopPreparation(s), StopPreparation(t))
    ensures SameOutcome(e, s, StartGame(s, first, endTime), StartGame(t, first, endTime))
    ensures SameOutcome(e, s, EndTurn(s), EndTurn(t))
  {
    hide HiddenShips;
  }

  lemma KickSame(e: int, s: Session, t: Session, i: int)
    requires 0 <= e < 2 && 0 <= i < 2 && LookSame(e, s, t) && RosterOk(s)
    requires ValidStart(s.fields[e]) <==> ValidStart(t.fields[e])
    ensures RosterOk(t) && LookSame(e, KickInvalid(s, i), KickInvalid(t, i))
    ensures KickInvalid(s, i).fields == s.fields && KickInvalid(t, i).fields == t.fields
    ensures KickInvalid(s, i).seats == s.seats || KickInvalid(s, i).seats == s.seats[i := Free]
  {
    hide HiddenShips, ValidStart;
  }

  lemma AfterCheckSame(e: int, s: Session, t: Session)
    requires 0 <= e < 2 && LookSame(e, s, t) && RosterOk(s) && RosterOk(t)
    ensures SameOutcome(e, s, AfterCheck(s), AfterCheck(t))
  {
    hide HiddenShips;
  }

  lemma CheckSame(e: int, s: Session, t: Session)
    requires 0 <= e < 2 && LookSame(e, s, t) && RosterOk(s)
    requires ValidStart(s.fields[e]) <==> ValidStart(t.fields[e])
    ensures SameOutcome(e, s, CheckStartFields(s), CheckStartFields(t))
  {
    hide HiddenShips, ValidStart, KickInvalid, AfterCheck, RosterOk;
    KickSame(e, s, t, 0);
    KickSame(e, KickInvalid(s, 0), KickInvalid(t, 0), 1);
    AfterCheckSame(e, KickInvalid(KickInvalid(s, 0), 1), KickInvalid(KickInvalid(t, 0), 1));
  }

  /** The view after a shot is determined by the view before it and the answer. */
  lemma AnswerDecidesView(b: Board, b': Board, p: Point)
    requires FleetBoard(b) && FleetBoard(b') && HiddenShips(b) == HiddenShips(b')
    requires AnswerTo(b, p) == AnswerTo(b', p)
    ensures HiddenShips(AfterShot(b, p)) == HiddenShips(AfterShot(b', p))
  {
    hide HiddenShips, AfterShot, Settled, Separate, ShotResult, Sinks, ViewAfterShot, NoUnharmed;
    var F: Fleet, shots: set<Point> :| Separate(F) && b == Settled(F, shots);
    var F': Fleet, shots': set<Point> :| Separate(F') && b' == Settled(F', shots');
    ViewCommutes(F, shots, p);
    ViewCommutes(F', shots', p);
  }

  lemma ShotSame(e: int, s: Session, t: Session, shot: Point)
    requires 0 <= e < 2 && LookSame(e, s, t) && BoardsOk(s) && BoardsOk(t)
    requires Enemy(s.cur) == e ==> AnswerTo(s.fields[e], shot) == AnswerTo(t.fields[e], shot)
    ensures LookSame(e, WithShot(s, shot), WithShot(t, shot))
    ensures ShotResult(s.fields[Enemy(s.cur)], shot) == ShotResult(t.fields[Enemy(s.cur)], shot)
    ensures GameOver(WithShot(s, shot)) <==> GameOver(WithShot(t, shot))
  {
    hide HiddenShips, AfterShot, FleetBoard, ShotResult, Sinks, NoUnharmed;
    if Enemy(s.cur) == e {
      AnswerDecidesView(s.fields[e], t.fields[e], shot);
    }
    assert WithShot(t, shot).fields == WithShot(s, shot).fields[e := WithShot(t, shot).fields[e]];
  }

  lemma TurnFieldsSame(e: int, s: Session, t: Session)
    requires 0 <= e < 2 && LookSame(e, s, t) && PlayersCount(s) == 2
    ensures PlayersCount(t) == 2 && SameButFor(s.seats[e], TurnFields(s), TurnFields(t))
  {
    hide HiddenShips;
  }

  lemma AfterTurnSame(e: int, s: Session, t: Session, result: Cell, endTime: int)
    requires 0 <= e < 2 && LookSame(e, s, t) && RosterOk(s) && RosterOk(t) && s.state == ProcessTurn
    requires GameOver(s) <==> GameOver(t)
    ensures SameOutcome(e, s, AfterTurn(s, result, endTime), AfterTurn(t, result, endTime))
  {
    hide HiddenShips, NoUnharmed;
  }

  lemma ChangeSame(e: int, s: Session, t: Session, shot: Point, endTime: int)
    requires 0 <= e < 2 && LookSame(e, s, t) && RosterOk(s) && RosterOk(t) && BoardsOk(s) && BoardsOk(t)
    requires Enemy(s.cur) == e ==> AnswerTo(s.fields[e], shot) == AnswerTo(t.fields[e], shot)
    ensures SameOutcome(e, s, ChangeTurnPlayer(s, shot, endTime), ChangeTurnPlayer(t, shot, endTime))
  {
    hide HiddenShips, NoUnharmed, AnswerTo, WithShot, TurnFields, AfterTurn, ShotResult, BoardsOk, RosterOk, GameOver;
    if s.state == ProcessTurn {
      var s', t' := WithShot(s, shot), WithShot(t, shot);
      var result := ShotResult(s.fields[Enemy(s.cur)], shot);
      ShotSame(e, s, t, shot);
      WithShotRest(s, shot);
      WithShotRest(t, shot);
      TwoWhileProcessing(s');
      TurnFieldsSame(e, s', t');
      AfterTurnSame(e, s', t', result, endTime);
      SameConcat(s.seats[e], TurnFields(s'), TurnFields(t'), AfterTurn(s', result, endTime).sent, AfterTurn(t', result, endTime).sent);
    }
  }

  lemma SameConcat(seat: Seat, a: seq<Post>, a': seq<Post>, b: seq<Post>, b': seq<Post>)
    requires SameButFor(seat, a, a') && SameButFor(seat, b, b')
    ensures SameButFor(seat, a + b, a' + b')
  {
  }

  lemma EventSame(e: int, s: Session, t: Session, kind: TimerKind, first: int, shot: Point, endTime: int)
    requires 0 <= e < 2 && LookSame(e, s, t) && RosterOk(s) && RosterOk(t) && BoardsOk(s) && BoardsOk(t) && 0 <= first < 2
    requires SameAnswers(e, s, t, kind, shot)
    ensures SameOutcome(e, s, TimerEvent(s, kind, first, shot, endTime), TimerEvent(t, kind, first, shot, endTime))
  {
    hide LookSame, SameOutcome, RosterOk, BoardsOk, AnswerTo, ValidStart, StopPreparation, CheckStartFields, StartGame, EndTurn, ChangeTurnPlayer, EndGame;
    match kind
    case FieldCheck => CheckSame(e, s, t);
    case TurnChange => ChangeSame(e, s, t, shot, endTime);
    case GameEnd => LeaveSame(e, s, t, 0);
    case _ => PreparationSame(e, s, t, first, endTime);
  }

  // ---------- each step and each run ----------

  /** What is told in the two worlds is the same but for the client in seat e. */
  ghost predicate SameMessages(e: int, w: World, v: World, step: Step, step': Step)
    requires 0 <= e < 2
  {
    && RosterOk(w.s) && Enabled(w, step) && RosterOk(v.s) && Enabled(v, step')
    && SameButFor(w.s.seats[e], StepOutcome(w, step).sent, StepOutcome(v, step').sent)
  }

  lemma SameApplied(e: int, w: World, v: World, o: Outcome, o': Outcome)
    requires 0 <= e < 2 && v == w.(s := v.s) && SameOutcome(e, w.s, o, o')
    ensures WorldsLookSame(e, Applied(w, o), Applied(v, o'))
  {
    hide HiddenShips, SameButFor;
  }

  lemma StepSame(e: int, w: World, v: World, step: Step, step': Step)
    requires 0 <= e < 2 && WorldsLookSame(e, w, v) && BoardsOk(w.s) && BoardsOk(v.s)
    requires RosterOk(w.s) && Enabled(w, step) && RosterOk(v.s) && Enabled(v, step') && SimilarSteps(e, w, v, step, step')
    ensures SameMessages(e, w, v, step, step')
    ensures WorldsLookSame(e, Do(w, step), Do(v, step'))
  {
    hide LookSame, BoardsOk, RosterOk, ShotTaken, ValidStart, SameAnswers, Applied, SameButFor, RequestGame, SendField, SendMove, DisconnectPlayer, TimerEvent;
    SameSeats(e, w.s, v.s);
    match step
    case Request(c, endTime) =>
      RequestSame(e, w.s, v.s, c, endTime);
      SameApplied(e, w, v, RequestGame(w.s, c, endTime), RequestGame(v.s, c, endTime));
    case Field(c, b, id) =>
      FieldSame(e, w.s, v.s, c, b, step'.board, id);
      SameApplied(e, w, v, SendField(w.s, c, b, id), SendField(v.s, c, step'.board, id));
    case Move(c, p) =>
      MoveSame(e, w.s, v.s, c, p);
      SameApplied(e, w, v, SendMove(w.s, c, p), SendMove(v.s, c, p));
    case Leave(c) =>
      LeaveSame(e, w.s, v.s, c);
      SameApplied(e, w, v, DisconnectPlayer(w.s, c), DisconnectPlayer(v.s, c));
    case Fire(id, first, shot, endTime) =>
      EventSame(e, w.s, v.s, w.pending[id], first, shot, endTime);
      SameApplied(e, w.(pending := w.pending - {id}), v.(pending := v.pending - {id}),
                  TimerEvent(w.s, w.pending[id], first, shot, endTime), TimerEvent(v.s, w.pending[id], first, shot, endTime));
  }

  lemma SameSeats(e: int, s: Session, t: Session)
    requires 0 <= e < 2 && LookSame(e, s, t)
    ensures s.seats == t.seats && s.state == t.state
  {
  }

  /** A whole run, in whatever order its steps come: everything that is told to anybody but the
      client in seat e, and when, depends on the fields that client sends only through the answers
      to the shots at them. */
  lemma {:induction false} NothingElseIsTold(e: int, worlds: seq<World>, steps: seq<Step>, worlds': seq<World>, steps': seq<Step>)
    requires 0 <= e < 2 && IsRun(worlds, steps) && IsRun(worlds', steps') && |steps| == |steps'|
    requires worlds[0] == Start() && worlds'[0] == Start()
    requires forall i :: 0 <= i < |steps| ==> SimilarSteps(e, worlds[i], worlds'[i], steps[i], steps'[i])
    ensures forall i :: 0 <= i < |steps| ==> SameMessages(e, worlds[i], worlds'[i], steps[i], steps'[i])
    ensures WorldsLookSame(e, worlds[|steps|], worlds'[|steps|]) && BoardsOk(worlds[|steps|].s) && BoardsOk(worlds'[|steps|].s)
  {
    hide Do, Enabled, SimilarSteps, SameMessages, LookSame, BoardsOk, RosterOk;
    if steps == [] {
      StartsSame(e);
    } else {
      var n := |steps| - 1;
      RunPrefix(worlds, steps);
      RunPrefix(worlds', steps');
      NothingElseIsTold(e, worlds[..n + 1], steps[..n], worlds'[..n + 1], steps'[..n]);
      EveryRunKeepsRoster(worlds, steps);
      EveryRunKeepsRoster(worlds', steps');
      assert Follows(worlds[n], steps[n], worlds[n + 1]) && Follows(worlds'[n], steps'[n], worlds'[n + 1]);
      StepSame(e, worlds[n], worlds'[n], steps[n], steps'[n]);
      StepKeepsBoards(worlds[n], steps[n]);
      StepKeepsBoards(worlds'[n], steps'[n]);
      forall i | 0 <= i < |steps| ensures SameMessages(e, worlds[i], worlds'[i], steps[i], steps'[i]) {
        if i < n {
          assert SameMessages(e, worlds[..n + 1][i], worlds'[..n + 1][i], steps[..n][i], steps'[..n][i]);
        }
      }
    }
  }

  lemma StartsSame(e: int)
    requires 0 <= e < 2
    ensures WorldsLookSame(e, Start(), Start()) && BoardsOk(Start().s)
  {
    EmptyIsFleetBoard();
  }

  // ---------- the steps themselves ----------

  /** Which cells a shot can change shows in the view, so that the shot the retry loop ends with
      tells nothing either. */
  lemma SameShotTaken(e: int, s: Session, t: Session, shot: Point)
    requires 0 <= e < 2 && LookSame(e, s, t)
    ensures ShotTaken(s, shot) <==> ShotTaken(t, shot)
  {
    FreshIsSeen(s.fields[e], t.fields[e]);
    hide IsFresh, HiddenShips;
  }

  lemma FreshIsSeen(b: Board, b': Board)
    requires HiddenShips(b) == HiddenShips(b')
    ensures forall p: Point :: IsFresh(b, p) <==> IsFresh(b', p)
  {
    forall p: Point ensures IsFresh(b, p) <==> IsFresh(b', p) {
      assert OnField(p) ==> HiddenShips(b)[p] == HiddenCell(b[p]) && HiddenShips(b')[p] == HiddenCell(b'[p]);
    }
  }
}
