// The server's seating of clients: sessions, the two arrays of clients, and each client's
// pointer to its session.
module BattleshipServers {
  import opened Options
  import opened SessionRules
  import opened ClientArrays
  import opened Seating

  class BattleshipServer {
    var sessions: seq<Session>
    const clientsQueue: ClientArray
    const clientsInGame: ClientArray
    var sessionOf: map<Client, nat>

    ghost predicate Valid()
      reads this, clientsQueue, clientsQueue.clients, clientsInGame, clientsInGame.clients
    {
      && clientsQueue.Valid() && clientsInGame.Valid()
      && clientsQueue != clientsInGame && clientsQueue.clients != clientsInGame.clients
      && SeatingOk(Seats())
    }

    ghost function Seats(): Roster
      reads this, clientsQueue, clientsQueue.clients, clientsInGame, clientsInGame.clients
    {
      Roster(sessions, clientsQueue.clients[..], clientsInGame.clients[..], sessionOf)
    }

    constructor ()
      ensures Valid() && Seats() == EmptyServer()
      ensures fresh(clientsQueue) && fresh(clientsInGame) && fresh(clientsQueue.clients) && fresh(clientsInGame.clients)
    {
      sessions, sessionOf := [], map[];
      clientsQueue := new ClientArray(CLIENT_QUEUE_LEN);
      clientsInGame := new ClientArray(GAME_COUNT * 2);
      new;
      assert Seats() == EmptyServer();
    }

    /** A new connection; refused when the queue is full. */
    method AcceptNewConnection(client: Client) returns (ok: bool)
      requires Valid() && Taken(client) !in Seats().queue && Taken(client) !in Seats().inGame
      modifies clientsQueue, clientsQueue.clients
      ensures Valid() && Seats() == Accept(old(Seats()), client)
      ensures ok <==> Taken(client) in Seats().queue
    {
      hide SeatingOk, FreePos;
      AcceptKeeps(Seats(), client);
      var full := clientsQueue.IsFull();
      AcceptFacts(Seats(), client);
      if full {
        return false;
      }
      ok := clientsQueue.Add(Some(client));
    }

    /** The client takes a seat in the session unless it has one already. */
    method SetGameSession(player: Client, i: nat) returns (ok: bool)
      requires i < |sessions|
      modifies this`sessions, this`sessionOf
      ensures ok <==> old(player !in sessionOf && SetPlayer(sessions[i], player).1)
      ensures ok ==> sessions == old(sessions)[i := SetPlayer(old(sessions[i]), player).0] && sessionOf == old(sessionOf)[player := i]
      ensures !ok ==> sessions == old(sessions) && sessionOf == old(sessionOf)
    {
      if player in sessionOf {
        return false;
      }
      var (s, seated) := SetPlayer(sessions[i], player);
      if seated {
        sessions := sessions[i := s];
        sessionOf := sessionOf[player := i];
      }
      ok := seated;
    }

    method ChangeClientQueue(player: Client) returns (ok: bool)
      requires clientsQueue.Valid() && clientsInGame.Valid()
      requires clientsQueue != clientsInGame && clientsQueue.clients != clientsInGame.clients
      modifies clientsQueue, clientsQueue.clients, clientsInGame, clientsInGame.clients
      ensures clientsQueue.Valid() && clientsInGame.Valid()
      ensures Seats() == MovedToGame(old(Seats()), player).0 && ok == MovedToGame(old(Seats()), player).1
    {
      hide FreePos, SlotOf;
      FreeSlot(clientsInGame.clients[..]);
      ok := clientsInGame.Add(Some(player));
      if ok {
        clientsQueue.Remove(Some(player));
      }
    }

    /** Seats a queued client in the first session with a free seat, or in a new session. */
    method ConnectPlayerToGame(player: Client) returns (ok: bool)
      requires Valid() && player !in sessionOf && Taken(player) in Seats().queue
      modifies this, clientsQueue, clientsQueue.clients, clientsInGame, clientsInGame.clients
      ensures Valid()
      ensures Seats() == Connect(old(Seats()), player).0 && ok == Connect(old(Seats()), player).1
    {
      hide SeatingOk, RosterOk, MovedToGame, SetPlayer;
      ghost var r := Seats();
      ConnectKeeps(r, player);
      for i := 0 to |sessions|
        invariant Seats() == r && clientsQueue.Valid() && clientsInGame.Valid()
        invariant forall j :: 0 <= j < i ==> !IsVacant(r.sessions[j])
      {
        SeatsTaken(r, i, player);
        var seated := SetGameSession(player, i);
        if seated {
          FirstVacancy(r.sessions, i);
          ok := ChangeClientQueue(player);
          return;
        }
      }
      FirstVacancy(r.sessions, |r.sessions|);
      if |sessions| == GAME_COUNT {
        return false;
      }
      sessions := sessions + [NewSession()];
      NewSeat(player);
      var _ := SetGameSession(player, |sessions| - 1);
      assert sessions == r.sessions + [SetPlayer(NewSession(), player).0];
      ok := ChangeClientQueue(player);
    }

    /** Takes the client out of its session and out of both arrays. */
    method DisconnectClient(client: Client)
      requires Valid()
      modifies this, clientsQueue, clientsQueue.clients, clientsInGame, clientsInGame.clients
      ensures Valid() && Seats() == Disconnect(old(Seats()), client)
    {
      hide RosterOk, DisconnectPlayer, SlotOf;
      DisconnectKeeps(Seats(), client);
      if client in sessionOf {
        var i := sessionOf[client];
        sessions := sessions[i := DisconnectPlayer(sessions[i], client).session];
        sessionOf := sessionOf - {client};
      }
      clientsQueue.Remove(Some(client));
      clientsInGame.Remove(Some(client));
    }
  }

  lemma FreeSlot(slots: seq<Seat>)
    ensures FreePos(slots) < |slots| <==> exists i :: 0 <= i < |slots| && slots[i].Free?
  {
  }

  lemma AcceptFacts(r: Roster, c: Client)
    requires SeatingOk(r) && Taken(c) !in r.queue
    ensures Taken(c) in Accept(r, c).queue <==> exists i :: 0 <= i < |r.queue| && r.queue[i].Free?
    ensures (forall i :: 0 <= i < |r.queue| ==> r.queue[i].Taken?) ==> Accept(r, c) == r
  {
    WithClientFacts(r.queue, c);
    FreeSlot(r.queue);
  }

  /** A stranger gets a seat exactly where one is free. */
  lemma SeatsTaken(r: Roster, i: nat, c: Client)
    requires SeatingOk(r) && i < |r.sessions| && c !in r.sessionOf
    ensures SetPlayer(r.sessions[i], c).1 <==> IsVacant(r.sessions[i])
  {
  }

  lemma NewSeat(c: Client)
    ensures SetPlayer(NewSession(), c).1
  {
  }
}
