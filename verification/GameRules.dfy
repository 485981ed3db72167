// What the operations of a session come to for the players: who is seated where, whose field and
// whose move counts, who plays next, and who is told what.
module GameRules {
  import opened Geometry
  import opened Fleets
  import opened ShotRules
  import opened EnemyViews
  import opened SessionRules
  import opened SessionPosts

  // ---------- seats ----------

  /** A newcomer gets the first free seat, nobody else moves, and there is room exactly if a seat
      is free. */
  lemma FirstFreeSeat(s: Session, c: Client)
    requires RosterOk(s) && !HasPlayer(s, c)
    ensures var (s', ok) := SetPlayer(s, c);
      && (ok <==> s.seats[0].Free? || s.seats[1].Free?)
      && s'.seats == (if s.seats[0].Free? then [Taken(c), s.seats[1]] else if s.seats[1].Free? then [s.seats[0], Taken(c)] else s.seats)
      && s' == s.(seats := s'.seats, state := s'.state)
  {
  }

  /** A request brings two waiting players together: the second one starts the preparation, and
      both are asked for their fields. Anybody else is told how things stand, and nothing else
      happens. */
  lemma RequestAnswered(s: Session, c: Client, endTime: int)
    requires RosterOk(s) && s.state != WaitPreparation
    ensures var o := RequestGame(s, c, endTime);
      if s.state == WaitPlayer && !HasPlayer(s, c) then
        && o.session.state == Preparation && o.timers == [PreparationEnd] && PlayersCount(o.session) == 2
        && forall i :: 0 <= i < 2 ==>
          && o.session.seats[i] == (if s.seats[i].Taken? then s.seats[i] else Taken(c))
          && MsgsTo(o.sent, o.session.seats[i].client) == [FieldReq(endTime)]
      else
        && o.timers == [] && o.sent == [Post(c, StateMsg(if PlayersCount(s) < 2 || HasPlayer(s, c) then o.session.state else NoVacantGame))]
        && o.session == if PlayersCount(s) == 0 then s.(seats := [Taken(c), Free], state := WaitPlayer) else s
  {
    var o := RequestGame(s, c, endTime);
    if s.state == WaitPlayer && !HasPlayer(s, c) {
      PostAllHeard(o.session, FieldReq(endTime));
    }
    hide MsgsTo;
  }

  /** Whoever leaves frees that one seat; the others keep theirs, as the fields do. */
  lemma LeavingFrees(s: Session, c: Client)
    requires RosterOk(s) && HasPlayer(s, c)
    ensures var o := DisconnectPlayer(s, c);
      && (forall i :: 0 <= i < 2 ==> o.session.seats[i] == if s.seats[i] == Taken(c) then Free else s.seats[i])
      && o.sent == [] && o.timers == [] && o.session == s.(seats := o.session.seats, state := o.session.state)
  {
  }

  /** When a stranger leaves, nothing changes, and each player is told how things stand. */
  lemma StrangerLeaves(s: Session, c: Client, i: int)
    requires RosterOk(s) && !HasPlayer(s, c) && 0 <= i < 2 && s.seats[i].Taken?
    ensures var o := DisconnectPlayer(s, c);
      o.session == s && o.timers == [] && MsgsTo(o.sent, s.seats[i].client) == [StateMsg(s.state)]
  {
    PostAllHeard(s, StateMsg(s.state));
    hide MsgsTo;
  }

  /** The end of a game frees both seats. */
  lemma EndFreesSeats(s: Session)
    requires RosterOk(s)
    ensures var o := EndGame(s);
      && o.session.seats == [Free, Free] && o.session.state == NoVacantGame
      && o.sent == [] && o.timers == [] && o.session.fields == s.fields
  {
  }

  // ---------- fields ----------

  /** While fields are collected a valid field of a seated player takes the place of that player's
      field, and of no other. Only the sender hears about it: a receipt exactly if it is so, and
      otherwise why not. */
  lemma FieldCounts(s: Session, c: Client, b: Board, msgId: int)
    requires RosterOk(s)
    ensures var o := SendField(s, c, b, msgId);
      var counts := ValidStart(b) && (s.state == Preparation || s.state == WaitStart);
      && (forall i :: 0 <= i < 2 ==> o.session.fields[i] == if counts && s.seats[i] == Taken(c) then b else s.fields[i])
      && o.session == s.(fields := o.session.fields) && o.timers == [] && !o.stopTurn
      && |o.sent| == 1 && o.sent[0].to == c
      && (o.sent[0].msg == ReceiptReply(msgId) <==> counts && HasPlayer(s, c))
      && (!HasPlayer(s, c) ==> o.sent[0].msg == ErrorReply(NOT_IN_GAME))
      && (HasPlayer(s, c) && !ValidStart(b) ==> o.sent[0].msg == ErrorReply(INVALID_FIELD))
      && (HasPlayer(s, c) && ValidStart(b) && !counts ==> o.sent[0].msg == ErrorReply(FIELD_REFUSED))
  {
    hide ValidStart, NOT_IN_GAME, INVALID_FIELD, FIELD_REFUSED;
  }

  /** The check of the fields takes the seat from exactly the players without a valid field. With
      two players left the start is scheduled; one left alone waits and is told so. */
  lemma CheckKeepsValid(s: Session)
    requires RosterOk(s)
    ensures var o := CheckStartFields(s);
      && (forall i :: 0 <= i < 2 ==> o.session.seats[i] == if ValidStart(s.fields[i]) then s.seats[i] else Free)
      && o.session == s.(seats := o.session.seats, state := o.session.state)
      && o.timers == (if PlayersCount(o.session) == 2 then [GameStart] else []) && !o.stopTurn
      && (PlayersCount(o.session) == 2 ==> o.session == s)
      && forall i :: 0 <= i < 2 && o.session.seats[i].Taken? && PlayersCount(o.session) == 1 ==>
        o.session.state == WaitPlayer && o.sent == [Post(o.session.seats[i].client, StateMsg(WaitPlayer))]
  {
    hide ValidStart, StartFields;
  }

  ghost predicate BothValid(s: Session) {
    ValidStart(s.fields[0]) && ValidStart(s.fields[1])
  }

  /** Before the start each player is shown the own field and the opponent's without its ships. */
  lemma FieldsShown(s: Session, i: int)
    requires RosterOk(s) && s.state == WaitStart && 0 <= i < 2
    ensures s.seats[i].Taken?
    ensures BothValid(s) ==>
      MsgsTo(CheckStartFields(s).sent, s.seats[i].client)
      == [FieldMsg(s.fields[i], true), FieldMsg(HiddenShips(s.fields[Enemy(i)]), false)]
  {
    hide ValidStart, HiddenShips, StartFields, MsgsTo;
    StartFieldsHeard(s);
  }

  // ---------- moves ----------

  /** The move is the first one of the player on turn since the last shot. */
  predicate IsFirstMove(s: Session, c: Client) {
    && (s.state == GameTurn || s.state == ProcessTurn)
    && s.seats[s.cur] == Taken(c) && s.lastShot == NO_SHOT
  }

  /** Only the first move of the player on turn counts: it is remembered and, during the turn,
      ends it. Any other move of a player changes nothing at all, and a stranger's only gets an
      error back. */
  lemma OnlyFirstMoveCounts(s: Session, c: Client, p: Point)
    requires RosterOk(s)
    ensures var o := SendMove(s, c, p);
      if IsFirstMove(s, c) then
        && o.session == s.(lastShot := p, state := ProcessTurn)
        && o.timers == (if s.state == GameTurn then [TurnChange] else []) && (o.stopTurn <==> s.state == GameTurn)
      else if HasPlayer(s, c) then o == Unchanged(s)
      else o == Unchanged(s).(sent := [Post(c, ErrorReply(NOT_IN_GAME))])
  {
    hide NOT_IN_GAME;
  }

  // ---------- turns ----------

  lemma AfterTurnTimers(s: Session, result: Cell, endTime: int)
    requires RosterOk(s) && s.state == ProcessTurn
    ensures |AfterTurn(s, result, endTime).timers| == 1
  {
    hide NoUnharmed;
  }

  lemma ChangeParts(s: Session, shot: Point, endTime: int)
    requires RosterOk(s)
    ensures s.state != ProcessTurn ==> SessionRules.ChangeTurnPlayer(s, shot, endTime) == Unchanged(s)
    ensures s.state == ProcessTurn ==>
      var s' := WithShot(s, shot);
      && s'.state == ProcessTurn && RosterOk(s') && PlayersCount(s') == 2
      && var o := AfterTurn(s', ShotResult(s.fields[Enemy(s.cur)], shot), endTime);
      SessionRules.ChangeTurnPlayer(s, shot, endTime) == o.(sent := TurnFields(s') + o.sent)
  {
    hide WithShot, TurnFields, AfterTurn, ShotResult;
    WithShotRest(s, shot);
  }

  /** The shot of a turn hits the board of the player not on turn and no other. If that leaves
      the board no unharmed cell the game is over; otherwise the next turn begins, and it belongs
      to the shooter exactly if the shot has hit a ship. */
  lemma HitKeepsTurn(s: Session, shot: Point, endTime: int)
    requires RosterOk(s) && s.state == ProcessTurn && OnField(shot)
    ensures var o := ChangeTurnPlayer(s, shot, endTime);
      var e := Enemy(s.cur);
      var hit := State(s.fields[e], shot) == UNHARMED;
      && o.session.fields[s.cur] == s.fields[s.cur] && o.session.fields[e] == AfterShot(s.fields[e], shot)
      && o.session.seats == s.seats && o.session.lastShot == NO_SHOT && !o.stopTurn
      && if NoUnharmed(AfterShot(s.fields[e], shot)) then
           o.session.state == ProcessTurn && o.session.cur == s.cur && o.timers == [GameEnd]
         else
           o.session.state == GameTurn && o.session.cur == (if hit then s.cur else e) && o.timers == [TurnEnd]
  {
    hide AfterShot, NoUnharmed, HiddenShips, TurnFields;
    ChangeParts(s, shot, endTime);
    TwoWhileProcessing(s);
  }

  /** Both players see the board after the shot, the shooter without its ships, and then hear
      either whose turn begins or who has won. */
  lemma TurnTold(s: Session, shot: Point, endTime: int, i: int)
    requires RosterOk(s) && s.state == ProcessTurn && 0 <= i < 2
    ensures var o := ChangeTurnPlayer(s, shot, endTime);
      var b := AfterShot(s.fields[Enemy(s.cur)], shot);
      && s.seats[i].Taken?
      && MsgsTo(o.sent, s.seats[i].client) == [
           if i == s.cur then FieldMsg(HiddenShips(b), false) else FieldMsg(b, true),
           if NoUnharmed(b) then StateMsg(if i == s.cur then WinGame else LoseGame) else TurnStart(endTime, i == o.session.cur)]
  {
    hide AfterShot, NoUnharmed, HiddenShips, MsgsTo;
    TwoWhileProcessing(s);
    ChangeParts(s, shot, endTime);
    var s' := WithShot(s, shot);
    var result := ShotResult(s.fields[Enemy(s.cur)], shot);
    var o := AfterTurn(s', result, endTime);
    ConcatHeard(s', TurnFields(s'), o.sent);
    AfterTurnHeard(s', result, endTime);
    PostBothHeard(s', FieldMsg(HiddenShips(s'.fields[Enemy(s.cur)]), false), FieldMsg(s'.fields[Enemy(s.cur)], true));
  }

  lemma AfterTurnHeard(s: Session, result: Cell, endTime: int)
    requires RosterOk(s) && s.state == ProcessTurn
    ensures var o := AfterTurn(s, result, endTime);
      && s.seats[0].Taken? && s.seats[1].Taken?
      && forall i :: 0 <= i < 2 ==>
        MsgsTo(o.sent, s.seats[i].client)
        == [if GameOver(s) then StateMsg(if i == s.cur then WinGame else LoseGame) else TurnStart(endTime, i == o.session.cur)]
  {
    hide NoUnharmed, MsgsTo;
    TwoWhileProcessing(s);
    if GameOver(s) {
      PostBothHeard(s, StateMsg(WinGame), StateMsg(LoseGame));
    } else {
      PostBothHeard(AfterTurn(s, result, endTime).session, TurnStart(endTime, true), TurnStart(endTime, false));
    }
  }

  /** When the game starts and when a turn ends, the player on turn is told that it is the own
      turn and the other that it is not. */
  lemma StartAndStopTold(s: Session, first: int, endTime: int, i: int)
    requires RosterOk(s) && 0 <= first < 2 && 0 <= i < 2
    ensures s.state == WaitStart ==>
      var o := StartGame(s, first, endTime);
      && o.session == s.(state := GameTurn, cur := first) && o.timers == [TurnEnd]
      && s.seats[i].Taken? && MsgsTo(o.sent, s.seats[i].client) == [TurnStart(endTime, i == first)]
    ensures s.state == GameTurn ==>
      var o := EndTurn(s);
      && o.session == s.(state := ProcessTurn) && o.timers == [TurnChange] && o.stopTurn
      && s.seats[i].Taken? && MsgsTo(o.sent, s.seats[i].client) == [TurnStop(i == s.cur)]
  {
    hide MsgsTo;
    if s.state == WaitStart {
      PostBothHeard(s.(state := GameTurn, cur := first), TurnStart(endTime, true), TurnStart(endTime, false));
    }
    if s.state == GameTurn {
      PostBothHeard(s.(state := ProcessTurn), TurnStop(true), TurnStop(false));
    }
  }

  /** The end of the preparation is told to both players. */
  lemma StopTold(s: Session, i: int)
    requires RosterOk(s) && s.state == Preparation && 0 <= i < 2
    ensures var o := StopPreparation(s);
      && o.session == s.(state := WaitStart) && o.timers == [FieldCheck]
      && s.seats[i].Taken? && MsgsTo(o.sent, s.seats[i].client) == [PreparationStop, StateMsg(WaitStart)]
  {
    hide MsgsTo;
    PostAllTwice(s.(state := WaitStart), PreparationStop, StateMsg(WaitStart));
  }
}
