// What each operation of a game session does, as functions on session values. Every message
// is posted to the client in a taken seat, so that each function can only be used where the
// roster rule guarantees that the addressed seats are taken.
module SessionRules {
  import opened Geometry
  import opened Fleets
  import opened ShotRules
  import opened EnemyViews

  datatype GameState =
    | NoVacantGame | WaitPlayer | WaitPreparation | Preparation | WaitStart | GameTurn
    | ProcessTurn | OwnTurn | EnemyTurn | WinGame | LoseGame

  type Client = nat

  datatype Seat = Free | Taken(client: Client)

  datatype TimerKind = PreparationEnd | FieldCheck | GameStart | TurnEnd | TurnChange | GameEnd

  /** How many seconds each kind of timer runs. */
  function TimerSeconds(kind: TimerKind): int {
    match kind
    case PreparationEnd => 70
    case TurnEnd => 15
    case _ => 2
  }

  const NO_SHOT: Point := Point(-1, -1)

  datatype SessionData = SessionData(
    state: GameState, seats: seq<Seat>, fields: seq<Board>, cur: int, lastShot: Point)

  type Session = s: SessionData | |s.seats| == 2 && |s.fields| == 2 && 0 <= s.cur < 2
    witness SessionData(NoVacantGame, [Free, Free], [EmptyBoard(), EmptyBoard()], 0, NO_SHOT)

  datatype ServerMsg =
    | StateMsg(state: GameState)
    | FieldReq(endTime: int)
    | PreparationStop
    | TurnStart(endTime: int, own: bool)
    | TurnStop(own: bool)
    | FieldMsg(field: Board, own: bool)
    | ErrorReply(text: string)
    | ReceiptReply(reqMsgId: int)

  datatype Post = Post(to: Client, msg: ServerMsg)

  /** The new session, the messages sent, the timers added to the server's queue in order,
      and whether the turn timer that the session remembers is stopped. */
  datatype Outcome = Outcome(session: Session, sent: seq<Post>, timers: seq<TimerKind>, stopTurn: bool)

  function Unchanged(s: Session): Outcome {
    Outcome(s, [], [], false)
  }

  function NewSession(): Session {
    SessionData(NoVacantGame, [Free, Free], [EmptyBoard(), EmptyBoard()], 0, NO_SHOT)
  }

  function PlayersCount(s: Session): nat {
    (if s.seats[0].Taken? then 1 else 0) + (if s.seats[1].Taken? then 1 else 0)
  }

  predicate TwoPlayerState(state: GameState) {
    state in {WaitPreparation, Preparation, WaitStart, GameTurn, ProcessTurn}
  }

  /** The roster rule: nobody seated, one player waiting, or two players in any later state;
      and nobody has both seats. */
  predicate RosterOk(s: Session) {
    && (PlayersCount(s) == 0 <==> s.state == NoVacantGame)
    && (PlayersCount(s) == 1 <==> s.state == WaitPlayer)
    && (PlayersCount(s) == 2 <==> TwoPlayerState(s.state))
    && (s.seats[0].Taken? ==> s.seats[0] != s.seats[1])
  }

  function Enemy(i: int): int {
    1 - i
  }

  predicate HasPlayer(s: Session, c: Client) {
    s.seats[0] == Taken(c) || s.seats[1] == Taken(c)
  }

  function SeatOf(s: Session, c: Client): int {
    if s.seats[0] == Taken(c) then 0 else if s.seats[1] == Taken(c) then 1 else -1
  }

  function PostAt(s: Session, i: int, msg: ServerMsg): seq<Post>
    requires 0 <= i < 2 && s.seats[i].Taken?
  {
    [Post(s.seats[i].client, msg)]
  }

  /** One copy for every seated player. */
  function PostAll(s: Session, msg: ServerMsg): seq<Post> {
    (if s.seats[0].Taken? then PostAt(s, 0, msg) else [])
    + (if s.seats[1].Taken? then PostAt(s, 1, msg) else [])
  }

  // ---------- joining and leaving ----------

  function SetPlayer(s: Session, c: Client): (Session, bool) {
    if HasPlayer(s, c) then (s, false)
    else if s.seats[0].Free? then (Seated(s, 0, c), true)
    else if s.seats[1].Free? then (Seated(s, 1, c), true)
    else (s, false)
  }

  function Seated(s: Session, i: int, c: Client): Session
    requires 0 <= i < 2
  {
    s.(seats := s.seats[i := Taken(c)],
       state := if s.state == NoVacantGame then WaitPlayer else WaitPreparation)
  }

  function Vacated(s: Session, i: int): Session
    requires 0 <= i < 2
  {
    s.(seats := s.seats[i := Free],
       state := if s.state != WaitPlayer then WaitPlayer else NoVacantGame)
  }

  /** A seated player leaves silently; for a stranger the state is sent to all players. */
  function DisconnectPlayer(s: Session, c: Client): Outcome {
    if s.seats[0] == Taken(c) then Unchanged(Vacated(s, 0))
    else if s.seats[1] == Taken(c) then Unchanged(Vacated(s, 1))
    else Unchanged(s).(sent := PostAll(s, StateMsg(s.state)))
  }

  function SetField(s: Session, c: Client, b: Board): (Session, bool) {
    if !HasPlayer(s, c) || (s.state != Preparation && s.state != WaitStart) then (s, false)
    else (s.(fields := s.fields[SeatOf(s, c) := b]), true)
  }

  // ---------- preparation ----------

  function StartPreparation(s: Session, endTime: int): Outcome {
    if s.state != WaitPreparation then Unchanged(s)
    else
      var s' := s.(state := Preparation);
      Outcome(s', PostAll(s', FieldReq(endTime)), [PreparationEnd], false)
  }

  function StopPreparation(s: Session): Outcome {
    if s.state != Preparation then Unchanged(s)
    else
      var s' := s.(state := WaitStart);
      Outcome(s', PostAll(s', PreparationStop) + PostAll(s', StateMsg(WaitStart)), [FieldCheck], false)
  }

  ghost function KickInvalid(s: Session, i: int): (s': Session)
    requires 0 <= i < 2 && RosterOk(s)
    ensures RosterOk(s')
  {
    if s.seats[i].Taken? && !ValidStart(s.fields[i]) then Vacated(s, i) else s
  }

  ghost function StartFields(s: Session): seq<Post>
    requires s.state == WaitStart ==> PlayersCount(s) == 2
  {
    if s.state != WaitStart then []
    else
      PostAt(s, 0, FieldMsg(s.fields[0], true)) + PostAt(s, 0, FieldMsg(HiddenShips(s.fields[1]), false))
      + PostAt(s, 1, FieldMsg(s.fields[1], true)) + PostAt(s, 1, FieldMsg(HiddenShips(s.fields[0]), false))
  }

  /** If both players are still there, the fields are shown and the start is scheduled, whatever
      the state is; a player left alone waits for another. */
  ghost function AfterCheck(s: Session): Outcome
    requires RosterOk(s)
  {
    if PlayersCount(s) == 2 then Outcome(s, StartFields(s), [GameStart], false)
    else if PlayersCount(s) == 1 then
      var s' := s.(state := WaitPlayer);
      Outcome(s', PostAll(s', StateMsg(WaitPlayer)), [], false)
    else Unchanged(s)
  }

  /** Players whose field is not a valid start are disconnected first. */
  ghost function CheckStartFields(s: Session): Outcome
    requires RosterOk(s)
  {
    AfterCheck(KickInvalid(KickInvalid(s, 0), 1))
  }

  // ---------- the turns ----------

  function StartNewTurn(s: Session, endTime: int): Outcome
    requires s.state == WaitStart || s.state == ProcessTurn ==> PlayersCount(s) == 2
  {
    if s.state != WaitStart && s.state != ProcessTurn then Unchanged(s)
    else
      var s' := s.(state := GameTurn);
      Outcome(s', PostAt(s', s.cur, TurnStart(endTime, true)) + PostAt(s', Enemy(s.cur), TurnStart(endTime, false)),
              [TurnEnd], false)
  }

  function StartGame(s: Session, first: int, endTime: int): Outcome
    requires 0 <= first < 2 && RosterOk(s)
  {
    if s.state != WaitStart then Unchanged(s) else StartNewTurn(s.(cur := first), endTime)
  }

  function EndTurn(s: Session): Outcome
    requires RosterOk(s)
  {
    if s.state != GameTurn then Unchanged(s)
    else
      var s' := s.(state := ProcessTurn);
      Outcome(s', PostAt(s', s.cur, TurnStop(true)) + PostAt(s', Enemy(s.cur), TurnStop(false)), [TurnChange], true)
  }

  function SetLastShot(s: Session, p: Point, c: Client): (Session, bool) {
    if SeatOf(s, c) == s.cur && s.lastShot == NO_SHOT then (s.(lastShot := p), true) else (s, false)
  }

  predicate IsFresh(b: Board, p: Point) {
    ShotResult(b, p) != EMPTY
  }

  /** The shot that the retry loop ends up with: the remembered one if it changes something,
      and otherwise some drawn point that does. */
  predicate ShotTaken(s: Session, shot: Point) {
    && IsFresh(s.fields[Enemy(s.cur)], shot)
    && (s.lastShot != NO_SHOT && IsFresh(s.fields[Enemy(s.cur)], s.lastShot) ==> shot == s.lastShot)
  }

  ghost function WithShot(s: Session, shot: Point): Session {
    var e := Enemy(s.cur);
    s.(fields := s.fields[e := AfterShot(s.fields[e], shot)], lastShot := NO_SHOT)
  }

  lemma WithShotRest(s: Session, shot: Point)
    ensures var s' := WithShot(s, shot);
      && s'.state == s.state && s'.seats == s.seats && s'.cur == s.cur && s'.lastShot == NO_SHOT
      && PlayersCount(s') == PlayersCount(s) && (RosterOk(s) ==> RosterOk(s'))
  {
    hide AfterShot;
  }

  lemma TwoWhileProcessing(s: Session)
    requires RosterOk(s)
    ensures s.state == ProcessTurn ==> PlayersCount(s) == 2 && s.seats[0].Taken? && s.seats[1].Taken?
  {
  }

  ghost predicate GameOver(s: Session) {
    NoUnharmed(s.fields[Enemy(s.cur)])
  }

  ghost function TurnFields(s: Session): seq<Post>
    requires PlayersCount(s) == 2
  {
    var e := Enemy(s.cur);
    PostAt(s, s.cur, FieldMsg(HiddenShips(s.fields[e]), false)) + PostAt(s, e, FieldMsg(s.fields[e], true))
  }

  /** After the shot the game ends, or the same player goes on after a hit, or the turn passes
      to the other player. */
  ghost function AfterTurn(s: Session, result: Cell, endTime: int): Outcome
    requires RosterOk(s) && s.state == ProcessTurn
  {
    if GameOver(s) then
      Outcome(s, PostAt(s, s.cur, StateMsg(WinGame)) + PostAt(s, Enemy(s.cur), StateMsg(LoseGame)), [GameEnd], false)
    else StartNewTurn(if result != DAMAGED then s.(cur := Enemy(s.cur)) else s, endTime)
  }

  /** The current player shoots, both players see the board, and the game goes on or ends. */
  ghost function ChangeTurnPlayer(s: Session, shot: Point, endTime: int): Outcome
    requires RosterOk(s)
  {
    if s.state != ProcessTurn then Unchanged(s)
    else
      var s' := WithShot(s, shot);
      var o := AfterTurn(s', ShotResult(s.fields[Enemy(s.cur)], shot), endTime);
      o.(sent := TurnFields(s') + o.sent)
  }

  /** Both players are disconnected, the first seat first. */
  function EndGame(s: Session): Outcome {
    var s' := if s.seats[0].Taken? then Vacated(s, 0) else s;
    Unchanged(if s'.seats[1].Taken? then Vacated(s', 1) else s')
  }

  // ---------- what the client messages do ----------

  /** A request for a game from a client that may already sit here. */
  function RequestGame(s: Session, c: Client, endTime: int): Outcome {
    var (s', ok) := if HasPlayer(s, c) then (s, true) else SetPlayer(s, c);
    var result := if ok then s'.state else NoVacantGame;
    if result == WaitPreparation then StartPreparation(s', endTime)
    else Unchanged(s').(sent := [Post(c, StateMsg(result))])
  }

  const NOT_IN_GAME: string := "You are not in the game"
  const INVALID_FIELD: string := "Invalid game field. Correct it!"
  const FIELD_REFUSED: string := "Can't set the game field"

  /** A field sent by a client is stored only if it is a valid start, and the client is told. */
  ghost function SendField(s: Session, c: Client, b: Board, msgId: int): Outcome {
    if !HasPlayer(s, c) then Unchanged(s).(sent := [Post(c, ErrorReply(NOT_IN_GAME))])
    else if !ValidStart(b) then Unchanged(s).(sent := [Post(c, ErrorReply(INVALID_FIELD))])
    else
      var (s', ok) := SetField(s, c, b);
      Unchanged(s').(sent := [Post(c, if ok then ReceiptReply(msgId) else ErrorReply(FIELD_REFUSED))])
  }

  /** A move is remembered during and after the turn of its player; during the turn it ends it. */
  function SendMove(s: Session, c: Client, p: Point): Outcome
    requires RosterOk(s)
  {
    if !HasPlayer(s, c) then Unchanged(s).(sent := [Post(c, ErrorReply(NOT_IN_GAME))])
    else if (s.state == GameTurn || s.state == ProcessTurn) && SetLastShot(s, p, c).1 then EndTurn(SetLastShot(s, p, c).0)
    else Unchanged(s)
  }
}
