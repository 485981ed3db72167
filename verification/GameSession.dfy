// The session object: its operations change the fields of the object, the boards, the outgoing
// queues of the players and the server's timers exactly as the session rules say.
module GameSessions {
  import opened Geometry
  import opened Fleets
  import opened ShotRules
  import opened EnemyViews
  import opened GameFields
  import opened SessionRules
  import opened SessionPosts
  import opened GameRules
  import opened TimeoutHandlers

  /** A connected client with its queue of messages to send. */
  class ClientData {
    const id: Client
    var toSendMsg: seq<ServerMsg>

    constructor (id: Client)
      ensures this.id == id && toSendMsg == []
    {
      this.id := id;
      toSendMsg := [];
    }

    method SendMsg(msg: ServerMsg)
      modifies this
      ensures toSendMsg == old(toSendMsg) + [msg]
    {
      toSendMsg := toSendMsg + [msg];
    }
  }

  /** A timer with the session event it stands for. */
  datatype QueuedTimer = QueuedTimer(kind: TimerKind, handler: TimeoutHandler)

  /** The server as a session sees it: the queue that takes new timers. */
  class TimerPort {
    var queued: seq<QueuedTimer>

    constructor ()
      ensures queued == []
    {
      queued := [];
    }

    method AddTimeoutHandler(kind: TimerKind) returns (handler: TimeoutHandler)
      modifies this
      ensures fresh(handler) && handler.Valid() && handler.Left() == Micros(TimerSeconds(kind), 0)
      ensures queued == old(queued) + [QueuedTimer(kind, handler)]
    {
      handler := new TimeoutHandler(TimerSeconds(kind), 0);
      queued := queued + [QueuedTimer(kind, handler)];
    }
  }

  function SeatFor(player: ClientData?): Seat {
    if player == null then Free else Taken(player.id)
  }

  /** The client's queue has grown by exactly the messages addressed to it. */
  twostate predicate Heard(client: ClientData?, sent: seq<Post>)
    reads client
  {
    client != null ==> client.toSendMsg == old(client.toSendMsg) + MsgsTo(sent, client.id)
  }

  /** The server's queue has grown by one new timer of that kind with its full time left. */
  twostate predicate TimerAdded(server: TimerPort, kind: TimerKind, new handler: TimeoutHandler?)
    reads server, handler
  {
    && handler != null && fresh(handler) && handler.Valid() && handler.Left() == Micros(TimerSeconds(kind), 0)
    && server.queued == old(server.queued) + [QueuedTimer(kind, handler)]
  }

  class GameSession {
    const server: TimerPort
    var state: GameState
    const players: array<ClientData?>
    const field0: GameField
    const field1: GameField
    var curTurnPlayerIdx: int
    var lastShot: Point
    var turnTimeout: TimeoutHandler?

    ghost predicate Shape()
      reads this
    {
      && players.Length == 2 && 0 <= curTurnPlayerIdx < 2
      && field0.Valid() && field1.Valid() && field0.field != field1.field
    }

    /** The session value this object stands for. */
    ghost function Value(): Session
      requires Shape()
      reads this, players, field0.field, field1.field
    {
      SessionData(state, [SeatFor(players[0]), SeatFor(players[1])], [field0.Contents(), field1.Contents()],
                  curTurnPlayerIdx, lastShot)
    }

    /** The object is well formed and keeps the roster rule. */
    ghost predicate Valid()
      reads this, players, field0.field, field1.field
    {
      Shape() && RosterOk(Value())
    }

    constructor (server: TimerPort)
      ensures Shape() && this.server == server && Value() == NewSession() && turnTimeout == null
      ensures fresh(players) && fresh(field0) && fresh(field0.field) && fresh(field1) && fresh(field1.field)
    {
      this.server := server;
      state := NoVacantGame;
      players := new ClientData?[2](_ => null);
      field0 := new GameField();
      field1 := new GameField();
      curTurnPlayerIdx, lastShot, turnTimeout := 0, NO_SHOT, null;
    }

    /** Sends a message to the player in a seat that is taken. */
    method SendTo(i: int, msg: ServerMsg)
      requires Shape() && 0 <= i < 2 && players[i] != null
      modifies players[i]
      ensures players[i].toSendMsg == old(players[i].toSendMsg) + [msg]
    {
      players[i].SendMsg(msg);
    }

    /** Sends a copy to every player. */
    method SendForAll(msg: ServerMsg)
      requires Valid()
      modifies players[0], players[1]
      ensures players[0] != null ==> players[0].toSendMsg == old(players[0].toSendMsg) + [msg]
      ensures players[1] != null ==> players[1].toSendMsg == old(players[1].toSendMsg) + [msg]
    {
      for i := 0 to 2
        invariant players[0] != null ==> players[0].toSendMsg == old(players[0].toSendMsg) + if i > 0 then [msg] else []
        invariant players[1] != null ==> players[1].toSendMsg == old(players[1].toSendMsg) + if i > 1 then [msg] else []
      {
        if players[i] != null {
          SendTo(i, msg);
        }
      }
    }

    /** Seats the player on the first free seat. */
    method SetPlayer(player: ClientData?) returns (ok: bool)
      requires Valid()
      modifies this`state, players
      ensures Shape()
      ensures player == null ==> !ok && Value() == old(Value())
      ensures player != null ==> (Value(), ok) == SessionRules.SetPlayer(old(Value()), player.id)
      ensures ok ==> player in players[..]
      ensures forall j :: 0 <= j < 2 ==> players[j] == old(players[j]) || players[j] == player
    {
      if player == null {
        return false;
      }
      if (players[0] != null && players[0].id == player.id) || (players[1] != null && players[1].id == player.id) {
        return false;
      }
      ghost var s := Value();
      for i := 0 to 2
        invariant players[..] == old(players[..]) && Value() == s
        invariant forall j :: 0 <= j < i ==> players[j] != null
      {
        if players[i] == null {
          players[i] := player;
          state := if state == NoVacantGame then WaitPlayer else WaitPreparation;
          assert Value().seats == s.seats[i := Taken(player.id)];
          return true;
        }
      }
      ok := false;
    }

    /** Takes the player with the id off its seat; for a stranger all players are told the state. */
    method DisconnectPlayer(player: ClientData)
      requires Valid()
      modifies this`state, players, players[0], players[1]
      ensures Valid() && Value() == SessionRules.DisconnectPlayer(old(Value()), player.id).session
      ensures forall j :: 0 <= j < 2 ==> players[j] == null || players[j] == old(players[j])
      ensures Heard(old(players[0]), SessionRules.DisconnectPlayer(old(Value()), player.id).sent)
      ensures Heard(old(players[1]), SessionRules.DisconnectPlayer(old(Value()), player.id).sent)
    {
      ghost var s := Value();
      for i := 0 to 2
        invariant players[..] == old(players[..]) && Value() == s
        invariant forall j :: 0 <= j < i ==> SeatFor(players[j]) != Taken(player.id)
      {
        if players[i] != null && players[i].id == player.id {
          players[i] := null;
          state := if state != WaitPlayer then WaitPlayer else NoVacantGame;
          assert Value().seats == s.seats[i := Free];
          return;
        }
      }
      SendForAll(StateMsg(state));
      PostAllHeard(Value(), StateMsg(state));
    }

    /** Stores a copy of the field of a seated player while fields are being collected. */
    method SetField(player: ClientData, pField: GameField) returns (ok: bool)
      requires Valid() && pField.Valid()
      modifies field0.field, field1.field
      ensures Valid() && (Value(), ok) == SessionRules.SetField(old(Value()), player.id, old(pField.Contents()))
    {
      ghost var s := Value();
      var idx := GetPlayerIndex(player.id);
      if idx == -1 || (state != Preparation && state != WaitStart) {
        return false;
      }
      if idx == 0 {
        field0.Assign(pField);
      } else {
        field1.Assign(pField);
      }
      assert Value().fields == s.fields[idx := old(pField.Contents())];
      ok := true;
    }

    method GetPlayerIndex(id: Client) returns (idx: int)
      requires Shape()
      ensures idx == SeatOf(Value(), id)
    {
      for i := 0 to 2
        invariant forall j :: 0 <= j < i ==> SeatFor(players[j]) != Taken(id)
      {
        if players[i] != null && players[i].id == id {
          return i;
        }
      }
      idx := -1;
    }

    method StartPreparation(endTime: int) returns (handler: TimeoutHandler?)
      requires Valid()
      modifies this`state, players[0], players[1], server
      ensures var o := SessionRules.StartPreparation(old(Value()), endTime);
        && Valid() && Value() == o.session && Heard(players[0], o.sent) && Heard(players[1], o.sent)
        && (o.timers == [] ==> server.queued == old(server.queued))
        && (o.timers != [] ==> TimerAdded(server, o.timers[0], handler))
    {
      handler := null;
      if state != WaitPreparation {
        return;
      }
      state := Preparation;
      SendForAll(FieldReq(endTime));
      PostAllHeard(Value(), FieldReq(endTime));
      handler := server.AddTimeoutHandler(PreparationEnd);
    }

    method StopPreparation() returns (handler: TimeoutHandler?)
      requires Valid()
      modifies this`state, players[0], players[1], server
      ensures var o := SessionRules.StopPreparation(old(Value()));
        && Valid() && Value() == o.session && Heard(players[0], o.sent) && Heard(players[1], o.sent)
        && (o.timers == [] ==> server.queued == old(server.queued))
        && (o.timers != [] ==> TimerAdded(server, o.timers[0], handler))
    {
      hide MsgsTo;
      NothingHeard();
      handler := null;
      if state != Preparation {
        return;
      }
      SendForAll(PreparationStop);
      state := WaitStart;
      handler := server.AddTimeoutHandler(FieldCheck);
      SendForAll(StateMsg(state));
      PostAllTwice(Value(), PreparationStop, StateMsg(WaitStart));
    }

    /** Sends one message to the player on turn and one to the other player. */
    method TellBoth(own: ServerMsg, other: ServerMsg)
      requires Valid() && PlayersCount(Value()) == 2
      modifies players[0], players[1]
      ensures players[0].toSendMsg == old(players[0].toSendMsg) + [if curTurnPlayerIdx == 0 then own else other]
      ensures players[1].toSendMsg == old(players[1].toSendMsg) + [if curTurnPlayerIdx == 1 then own else other]
    {
      SendTo(curTurnPlayerIdx, own);
      SendTo(Enemy(curTurnPlayerIdx), other);
    }

    /** Begins a turn: both players are told, and the turn timer is queued and remembered. */
    method StartNewTurn(endTime: int) returns (handler: TimeoutHandler?)
      requires Shape() && RosterOk(Value())
      modifies this`state, this`turnTimeout, players[0], players[1], server
      ensures var o := SessionRules.StartNewTurn(old(Value()), endTime);
        && Valid() && Value() == o.session && Heard(players[0], o.sent) && Heard(players[1], o.sent)
        && (o.timers == [] ==> server.queued == old(server.queued) && turnTimeout == old(turnTimeout))
        && (o.timers != [] ==> TimerAdded(server, o.timers[0], handler) && turnTimeout == handler)
    {
      hide MsgsTo;
      NothingHeard();
      handler := null;
      if state != WaitStart && state != ProcessTurn {
        return;
      }
      state := GameTurn;
      TellBoth(TurnStart(endTime, true), TurnStart(endTime, false));
      PostBothHeard(Value(), TurnStart(endTime, true), TurnStart(endTime, false));
      handler := server.AddTimeoutHandler(TurnEnd);
      turnTimeout := handler;
    }

    method StartGame(first: int, endTime: int) returns (handler: TimeoutHandler?)
      requires Valid() && 0 <= first < 2
      modifies this`state, this`curTurnPlayerIdx, this`turnTimeout, players[0], players[1], server
      ensures var o := SessionRules.StartGame(old(Value()), first, endTime);
        && Valid() && Value() == o.session && Heard(players[0], o.sent) && Heard(players[1], o.sent)
        && (o.timers == [] ==> server.queued == old(server.queued) && turnTimeout == old(turnTimeout))
        && (o.timers != [] ==> TimerAdded(server, o.timers[0], handler) && turnTimeout == handler)
    {
      handler := null;
      if state != WaitStart {
        return;
      }
      curTurnPlayerIdx := first;
      handler := StartNewTurn(endTime);
    }

    /** Ends a turn: both players are told, the change is scheduled, and the turn timer that is
        remembered is stopped and forgotten. */
    method EndTurn() returns (handler: TimeoutHandler?)
      requires Valid() && (turnTimeout != null ==> turnTimeout.Valid())
      modifies this`state, this`turnTimeout, players[0], players[1], server, turnTimeout
      ensures var o := SessionRules.EndTurn(old(Value()));
        && Valid() && Value() == o.session && Heard(players[0], o.sent) && Heard(players[1], o.sent)
        && (o.timers == [] ==> server.queued == old(server.queued))
        && (o.timers != [] ==> TimerAdded(server, o.timers[0], handler))
        && (o.stopTurn ==> turnTimeout == null && (old(turnTimeout) != null ==> old(turnTimeout).Left() == 0))
        && (!o.stopTurn ==> turnTimeout == old(turnTimeout) && (turnTimeout != null ==> turnTimeout.Left() == old(turnTimeout.Left())))
    {
      hide MsgsTo;
      NothingHeard();
      handler := null;
      if state != GameTurn {
        return;
      }
      state := ProcessTurn;
      TellBoth(TurnStop(true), TurnStop(false));
      PostBothHeard(Value(), TurnStop(true), TurnStop(false));
      handler := server.AddTimeoutHandler(TurnChange);
      if turnTimeout != null {
        turnTimeout.Stop();
        turnTimeout := null;
      }
    }

    method SetLastShot(shot: Point, player: ClientData) returns (ok: bool)
      requires Valid()
      modifies this`lastShot
      ensures Valid() && (Value(), ok) == SessionRules.SetLastShot(old(Value()), shot, player.id)
    {
      var idx := GetPlayerIndex(player.id);
      if idx == curTurnPlayerIdx && lastShot == NO_SHOT {
        lastShot := shot;
        return true;
      }
      ok := false;
    }

    /** Shoots with the remembered point, or a drawn one, and goes on with drawn points until a
        shot changes something. The draws must come to such a point eventually. */
    method RegisterShot(draws: nat -> Point) returns (result: Cell, ghost shot: Point)
      requires Valid() && exists k :: IsFresh(Value().fields[Enemy(curTurnPlayerIdx)], draws(k))
      modifies this`lastShot, field0.field, field1.field
      ensures Shape() && ShotTaken(old(Value()), shot)
      ensures Value() == WithShot(old(Value()), shot) && result == ShotResult(old(Value()).fields[Enemy(curTurnPlayerIdx)], shot)
    {
      hide AfterShot, ShotResult, IsFresh;
      ghost var s := Value();
      var e := Enemy(curTurnPlayerIdx);
      if e == 0 {
        result, shot := ShootUntilChange(field0, lastShot, draws);
      } else {
        result, shot := ShootUntilChange(field1, lastShot, draws);
      }
      lastShot := NO_SHOT;
      assert Value().fields == s.fields[e := AfterShot(s.fields[e], shot)];
      FreshResult(s.fields[e], shot);
    }

    method SendFields()
      requires Valid() && PlayersCount(Value()) == 2
      modifies players[0], players[1]
      ensures Heard(players[0], TurnFields(Value())) && Heard(players[1], TurnFields(Value()))
    {
      hide HiddenShips, RosterOk, MsgsTo;
      var full, hidden := Boards(Enemy(curTurnPlayerIdx));
      TellBoth(FieldMsg(hidden, false), FieldMsg(full, true));
      PostBothHeard(Value(), FieldMsg(hidden, false), FieldMsg(full, true));
    }

    /** Copies of one player's board for that player and for the opponent. */
    method Boards(i: int) returns (full: Board, hidden: Board)
      requires Shape() && 0 <= i < 2
      ensures full == Value().fields[i] && hidden == HiddenShips(Value().fields[i])
    {
      var field := if i == 0 then field0 else field1;
      full := field.Snapshot();
      var view := field.GetForEnemy();
      hidden := view.Snapshot();
    }

    /** Plays the shot of the turn and shows both players the board. */
    method ShootAndShow(draws: nat -> Point) returns (result: Cell, ghost shot: Point)
      requires Valid() && state == ProcessTurn && exists k :: IsFresh(Value().fields[Enemy(curTurnPlayerIdx)], draws(k))
      modifies this`lastShot, players[0], players[1], field0.field, field1.field
      ensures Valid() && ShotTaken(old(Value()), shot) && Value() == WithShot(old(Value()), shot)
      ensures result == ShotResult(old(Value()).fields[Enemy(curTurnPlayerIdx)], shot)
      ensures PlayersCount(Value()) == 2 && Heard(players[0], TurnFields(Value())) && Heard(players[1], TurnFields(Value()))
    {
      hide ShotResult, IsFresh, TurnFields, WithShot, ShotTaken, RosterOk, PlayersCount;
      ghost var s := Value();
      TwoWhileProcessing(s);
      result, shot := RegisterShot(draws);
      WithShotRest(s, shot);
      SendFields();
    }

    /** Ends the game or begins the next turn. */
    method FinishTurn(result: Cell, endTime: int) returns (handler: TimeoutHandler?)
      requires Valid() && state == ProcessTurn
      modifies this`state, this`curTurnPlayerIdx, this`turnTimeout, players[0], players[1], server
      ensures var o := AfterTurn(old(Value()), result, endTime);
        && Valid() && Value() == o.session && Heard(players[0], o.sent) && Heard(players[1], o.sent)
        && TimerAdded(server, o.timers[0], handler)
        && turnTimeout == if o.timers == [TurnEnd] then handler else old(turnTimeout)
    {
      hide NoUnharmed, MsgsTo;
      var enemyField := if Enemy(curTurnPlayerIdx) == 0 then field0 else field1;
      var over := enemyField.AllShipsDestroyed();
      if over {
        TellBoth(StateMsg(WinGame), StateMsg(LoseGame));
        PostBothHeard(Value(), StateMsg(WinGame), StateMsg(LoseGame));
        handler := server.AddTimeoutHandler(GameEnd);
        return;
      }
      if result != DAMAGED {
        curTurnPlayerIdx := Enemy(curTurnPlayerIdx);
      }
      handler := StartNewTurn(endTime);
    }

    /** Plays the shot of the turn, shows the board, and ends the game or begins the next turn. */
    method ChangeTurnPlayer(draws: nat -> Point, endTime: int) returns (handler: TimeoutHandler?, ghost shot: Point)
      requires Valid()
      requires state == ProcessTurn ==> exists k :: IsFresh(Value().fields[Enemy(curTurnPlayerIdx)], draws(k))
      modifies this, players[0], players[1], server, field0.field, field1.field
      ensures old(state) == ProcessTurn ==> ShotTaken(old(Value()), shot)
      ensures var o := SessionRules.ChangeTurnPlayer(old(Value()), shot, endTime);
        && Valid() && Value() == o.session && Heard(players[0], o.sent) && Heard(players[1], o.sent)
        && (o.timers == [] ==> server.queued == old(server.queued))
        && (o.timers != [] ==> TimerAdded(server, o.timers[0], handler))
        && turnTimeout == if o.timers == [TurnEnd] then handler else old(turnTimeout)
    {
      hide ShotResult, IsFresh, TurnFields, AfterTurn, WithShot, ShotTaken, RosterOk, PlayersCount, SessionRules.ChangeTurnPlayer, MsgsTo;
      TwoWhileProcessing(Value());
      NothingHeard();
      handler := null;
      shot := NO_SHOT;
      if state != ProcessTurn {
        ChangeParts(Value(), shot, endTime);
        return;
      }
      var result;
      result, shot := ShootAndShow(draws);
      ghost var s' := Value();
      ChangeParts(old(Value()), shot, endTime);
      WithShotRest(old(Value()), shot);
      AfterTurnTimers(s', result, endTime);
      handler := FinishTurn(result, endTime);
      ConcatHeard(s', TurnFields(s'), AfterTurn(s', result, endTime).sent);
    }

    /** Disconnects a player whose field is not a valid start. */
    method KickIfInvalid(i: int)
      requires Valid() && 0 <= i < 2
      modifies this`state, players, players[0], players[1]
      ensures Valid() && Value() == KickInvalid(old(Value()), i)
      ensures forall j :: 0 <= j < 2 ==> players[j] == null || players[j] == old(players[j])
      ensures forall j :: 0 <= j < 2 && old(players[j]) != null ==> old(players[j]).toSendMsg == old(players[j].toSendMsg)
    {
      hide ValidStart, RosterOk, Vacated, SessionRules.DisconnectPlayer;
      if players[i] != null {
        LeaveSeat(Value(), i);
        var field := if i == 0 then field0 else field1;
        var ok := field.IsValidStartField();
        if !ok {
          DisconnectPlayer(players[i]);
        }
      }
    }

    /** Shows one player both boards, the opponent's without its ships. */
    method ShowFieldsTo(i: int)
      requires Valid() && 0 <= i < 2 && players[i] != null
      modifies players[i]
      ensures players[i].toSendMsg == old(players[i].toSendMsg)
        + [FieldMsg(Value().fields[i], true), FieldMsg(HiddenShips(Value().fields[Enemy(i)]), false)]
    {
      hide HiddenShips, RosterOk, MsgsTo;
      var own, _ := Boards(i);
      var _, shown := Boards(Enemy(i));
      SendTo(i, FieldMsg(own, true));
      SendTo(i, FieldMsg(shown, false));
    }

    method SendStartFields()
      requires Valid() && (state == WaitStart ==> PlayersCount(Value()) == 2)
      modifies players[0], players[1]
      ensures Heard(players[0], StartFields(Value())) && Heard(players[1], StartFields(Value()))
    {
      hide HiddenShips;
      if state != WaitStart {
        return;
      }
      StartFieldsHeard(Value());
      hide StartFields;
      ShowFieldsTo(0);
      ShowFieldsTo(1);
    }

    method FinishCheck() returns (handler: TimeoutHandler?)
      requires Valid()
      modifies this`state, players[0], players[1], server
      ensures var o := AfterCheck(old(Value()));
        && Valid() && Value() == o.session
        && Heard(players[0], o.sent) && Heard(players[1], o.sent)
        && (o.timers == [] ==> server.queued == old(server.queued))
        && (o.timers != [] ==> TimerAdded(server, o.timers[0], handler))
    {
      hide StartFields;
      handler := null;
      var count := GetPlayersCount();
      if count == 2 {
        SendStartFields();
        handler := server.AddTimeoutHandler(GameStart);
      } else if count == 1 {
        state := WaitPlayer;
        SendForAll(StateMsg(WaitPlayer));
        PostAllHeard(Value(), StateMsg(WaitPlayer));
      }
    }

    /** Checks both fields; if both players stay, shows the boards and schedules the start. */
    method CheckStartFields() returns (handler: TimeoutHandler?)
      requires Valid()
      modifies this`state, players, players[0], players[1], server
      ensures var o := SessionRules.CheckStartFields(old(Value()));
        && Valid() && Value() == o.session
        && (forall j :: 0 <= j < 2 ==> players[j] == null || players[j] == old(players[j]))
        && Heard(players[0], o.sent) && Heard(players[1], o.sent)
        && (o.timers == [] ==> server.queued == old(server.queued))
        && (o.timers != [] ==> TimerAdded(server, o.timers[0], handler))
    {
      hide KickInvalid, AfterCheck, RosterOk;
      KickIfInvalid(0);
      KickIfInvalid(1);
      handler := FinishCheck();
    }

    method GetPlayersCount() returns (count: int)
      requires Shape()
      ensures count == PlayersCount(Value())
    {
      count := (if players[0] != null then 1 else 0) + (if players[1] != null then 1 else 0);
    }

    /** Both players are disconnected. */
    method EndGame()
      requires Valid()
      modifies this`state, players, players[0], players[1]
      ensures Valid() && Value() == SessionRules.EndGame(old(Value())).session
    {
      for i := 0 to 2
        invariant Valid()
        invariant Value() == if i == 0 then old(Value()) else if i == 1 then LeftAt(old(Value()), 0) else LeftAt(LeftAt(old(Value()), 0), 1)
        invariant forall j :: 0 <= j < 2 ==> players[j] == null || players[j] == old(players[j])
      {
        if players[i] != null {
          LeaveSeat(Value(), i);
          DisconnectPlayer(players[i]);
        }
      }
    }
  }

  // ---------- the message handlers of a client ----------
  // The session of a client without one is null.

  /** A field from a client: stored if the client plays, the field is a valid start and fields are
      being collected. The client is told which. */
  method ProcessGameFieldMsg(client: ClientData, session: GameSession?, pField: GameField, msgId: int)
    requires pField.Valid()
    requires session != null ==> session.Valid() && client in session.players[..]
    modifies client, if session == null then {} else {session.field0.field, session.field1.field}
    ensures session == null ==> client.toSendMsg == old(client.toSendMsg) + [ErrorReply(NOT_IN_GAME)]
    ensures session != null ==> session.Valid()
    ensures session != null ==>
      var o := SendField(old(session.Value()), client.id, old(pField.Contents()), msgId);
      session.Value() == o.session && Heard(client, o.sent)
  {
    hide ValidStart;
    if session == null {
      client.SendMsg(ErrorReply(NOT_IN_GAME));
      return;
    }
    SeatedClient(session, client);
    var valid := pField.IsValidStartField();
    if !valid {
      PostOneHeard(client.id, ErrorReply(INVALID_FIELD));
      client.SendMsg(ErrorReply(INVALID_FIELD));
      return;
    }
    assert session.Valid();
    var ok := session.SetField(client, pField);
    var reply := if ok then ReceiptReply(msgId) else ErrorReply(FIELD_REFUSED);
    PostOneHeard(client.id, reply);
    client.SendMsg(reply);
  }

  /** A move from a client: remembered if it is that player's turn, and ends the turn. */
  method ProcessGameMoveMsg(client: ClientData, session: GameSession?, shot: Point) returns (handler: TimeoutHandler?)
    requires session != null ==> session.Valid() && client in session.players[..]
    requires session != null && session.turnTimeout != null ==> session.turnTimeout.Valid()
    modifies client
    modifies if session == null then {} else {session, session.players[0], session.players[1], session.server, session.turnTimeout}
    ensures session == null ==> client.toSendMsg == old(client.toSendMsg) + [ErrorReply(NOT_IN_GAME)]
    ensures session != null ==> session.Valid()
    ensures session != null ==>
      var o := SendMove(old(session.Value()), client.id, shot);
      && session.Value() == o.session && Heard(session.players[0], o.sent) && Heard(session.players[1], o.sent)
      && (o.timers == [] ==> session.server.queued == old(session.server.queued))
      && (o.timers != [] ==> TimerAdded(session.server, o.timers[0], handler))
      && (o.stopTurn ==> session.turnTimeout == null && (old(session.turnTimeout) != null ==> old(session.turnTimeout).Left() == 0))
      && (!o.stopTurn ==> session.turnTimeout == old(session.turnTimeout))
  {
    handler := null;
    if session == null {
      client.SendMsg(ErrorReply(NOT_IN_GAME));
      return;
    }
    SeatedClient(session, client);
    if session.state == GameTurn || session.state == ProcessTurn {
      var ok := session.SetLastShot(shot, client);
      if ok {
        handler := session.EndTurn();
      }
    }
  }

  /** A request for a game: a client without a session takes a seat in the one that the server
      offers, if any. With the second player the preparation starts; otherwise the client is told
      how things stand. */
  method ProcessGameSessionReqMsg(client: ClientData, own: GameSession?, offered: GameSession?, endTime: int)
    returns (handler: TimeoutHandler?)
    requires own != null ==> own.Valid() && client in own.players[..]
    requires own == null && offered != null ==> offered.Valid() && !HasPlayer(offered.Value(), client.id)
    modifies client, SessionFrame(if own != null then own else offered)
    ensures own == null && offered == null ==> client.toSendMsg == old(client.toSendMsg) + [StateMsg(NoVacantGame)]
    ensures own != null || offered != null ==>
      var session := if own != null then own else offered;
      session.Valid() && forall j :: 0 <= j < 2 ==> session.players[j] == old(session.players[j]) || session.players[j] == client
    ensures own != null || offered != null ==>
      var session := if own != null then own else offered;
      var o := RequestGame(old(session.Value()), client.id, endTime);
      && session.Value() == o.session && Heard(client, o.sent)
      && Heard(session.players[0], o.sent) && Heard(session.players[1], o.sent)
      && (o.timers == [] ==> session.server.queued == old(session.server.queued))
      && (o.timers != [] ==> TimerAdded(session.server, o.timers[0], handler))
  {
    hide RosterOk, SessionRules.StartPreparation;
    handler := null;
    if own != null {
      handler := AnswerRequest(client, own, endTime);
    } else if offered != null {
      handler := TakeOffer(client, offered, endTime);
    } else {
      client.SendMsg(StateMsg(NoVacantGame));
    }
  }

  /** Takes a seat in the session, if it has one, and answers the request. */
  method TakeOffer(client: ClientData, session: GameSession, endTime: int) returns (handler: TimeoutHandler?)
    requires session.Valid() && !HasPlayer(session.Value(), client.id)
    modifies client, SessionFrame(session)
    ensures session.Valid()
    ensures forall j :: 0 <= j < 2 ==> session.players[j] == old(session.players[j]) || session.players[j] == client
    ensures var o := RequestGame(old(session.Value()), client.id, endTime);
      && session.Value() == o.session && Heard(client, o.sent)
      && Heard(session.players[0], o.sent) && Heard(session.players[1], o.sent)
      && (o.timers == [] ==> session.server.queued == old(session.server.queued))
      && (o.timers != [] ==> TimerAdded(session.server, o.timers[0], handler))
  {
    hide RosterOk, SessionRules.StartPreparation, MsgsTo;
    SeatingKeepsRoster(session.Value(), client.id);
    var ok := session.SetPlayer(client);
    if ok {
      handler := AnswerRequest(client, session, endTime);
    } else {
      handler := null;
      PostOneHeard(client.id, StateMsg(NoVacantGame));
      client.SendMsg(StateMsg(NoVacantGame));
    }
  }

  /** The answer to a request for a game from a client that has a seat now. */
  method AnswerRequest(client: ClientData, session: GameSession, endTime: int) returns (handler: TimeoutHandler?)
    requires session.Valid() && client in session.players[..]
    modifies session`state, session.players[0], session.players[1], session.server
    ensures var o := RequestGame(old(session.Value()), client.id, endTime);
      && session.Valid() && session.Value() == o.session
      && Heard(session.players[0], o.sent) && Heard(session.players[1], o.sent)
      && (o.timers == [] ==> session.server.queued == old(session.server.queued))
      && (o.timers != [] ==> TimerAdded(session.server, o.timers[0], handler))
  {
    handler := null;
    SeatedClient(session, client);
    if session.state == WaitPreparation {
      handler := session.StartPreparation(endTime);
    } else {
      PostOneHeard(client.id, StateMsg(session.state));
      client.SendMsg(StateMsg(session.state));
    }
  }

  ghost function SessionFrame(session: GameSession?): set<object?>
    reads session, if session == null then {} else {session.players}
  {
    if session == null then {} else {session, session.players, session.server} + (set k | 0 <= k < session.players.Length :: session.players[k])
  }

  /** A player object in a seat is a player of the session value. */
  lemma SeatedClient(session: GameSession, client: ClientData)
    requires session.Shape() && client in session.players[..]
    ensures HasPlayer(session.Value(), client.id)
  {
  }

  lemma SeatingKeepsRoster(s: Session, c: Client)
    requires RosterOk(s)
    ensures RosterOk(SessionRules.SetPlayer(s, c).0)
  {
  }

  function LeftAt(s: Session, i: int): Session
    requires 0 <= i < 2
  {
    if s.seats[i].Taken? then Vacated(s, i) else s
  }

  /** The retry loop on the board that is shot at. */
  method ShootUntilChange(field: GameField, remembered: Point, draws: nat -> Point) returns (result: Cell, ghost shot: Point)
    requires field.Valid() && exists k :: IsFresh(field.Contents(), draws(k))
    modifies field.field
    ensures result == ShotResult(old(field.Contents()), shot) && result != EMPTY
    ensures field.Contents() == AfterShot(old(field.Contents()), shot)
    ensures remembered != NO_SHOT && IsFresh(old(field.Contents()), remembered) ==> shot == remembered
  {
    hide AfterShot, ShotResult, GameField.Contents;
    ghost var b := field.Contents();
    ghost var last: nat :| IsFresh(b, draws(last));
    var drawn: nat := 0;
    var next := remembered;
    shot := remembered;
    if next == NO_SHOT {
      next := draws(drawn);
      drawn := drawn + 1;
    }
    ghost var first := next;
    result := EMPTY;
    while result == EMPTY
      invariant result == EMPTY ==> field.Contents() == b && (next == first || !IsFresh(b, first)) && (drawn > last ==> IsFresh(b, next))
      invariant result != EMPTY ==> result == ShotResult(b, shot) && field.Contents() == AfterShot(b, shot)
      invariant result != EMPTY ==> shot == first || !IsFresh(b, first)
      decreases if result == EMPTY then 1 else 0, if drawn <= last then last + 1 - drawn else 0
    {
      shot := next;
      NoChange(b, next);
      result := field.RegisterShot(next);
      next := draws(drawn);
      drawn := drawn + 1;
    }
  }

  lemma FreshResult(b: Board, p: Point)
    ensures IsFresh(b, p) <==> ShotResult(b, p) != EMPTY
  {
  }

  lemma LeaveSeat(s: Session, i: int)
    requires RosterOk(s) && 0 <= i < 2 && s.seats[i].Taken?
    ensures SessionRules.DisconnectPlayer(s, s.seats[i].client) == Unchanged(Vacated(s, i))
  {
  }

  lemma NoChange(b: Board, p: Point)
    ensures ShotResult(b, p) == EMPTY ==> AfterShot(b, p) == b
  {
  }
}
