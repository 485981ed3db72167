// Seating of the connected clients: the rules on values, and the rule that every run of
// connections and disconnections keeps.
module Seating {
  import opened Sets
  import opened SessionRules
  import opened ClientArrays

  const GAME_COUNT: nat := 5
  const CLIENT_QUEUE_LEN: nat := 10

  /** The sessions, the two arrays of clients, and for each client that has one its session. */
  datatype Roster = Roster(sessions: seq<Session>, queue: seq<Seat>, inGame: seq<Seat>, sessionOf: map<Client, nat>)

  predicate IsVacant(s: Session) {
    s.seats[0].Free? || s.seats[1].Free?
  }

  /** The first session with a free seat, or the number of sessions. */
  function VacantSession(sessions: seq<Session>): (i: nat)
    ensures i <= |sessions| && (i < |sessions| ==> IsVacant(sessions[i]))
    ensures forall j :: 0 <= j < i ==> !IsVacant(sessions[j])
  {
    if sessions == [] || IsVacant(sessions[0]) then 0 else 1 + VacantSession(sessions[1..])
  }

  // ---------- the operations ----------

  /** A new connection is queued if there is room. */
  function Accept(r: Roster, c: Client): Roster {
    r.(queue := WithClient(r.queue, c))
  }

  function MovedToGame(r: Roster, c: Client): (Roster, bool) {
    if FreePos(r.inGame) < |r.inGame| then
      (r.(inGame := WithClient(r.inGame, c), queue := WithoutClient(r.queue, c)), true)
    else (r, false)
  }

  /** A client without a session gets the first free seat, or the first seat of a new session. */
  function Connect(r: Roster, c: Client): (Roster, bool) {
    var i := VacantSession(r.sessions);
    if i < |r.sessions| then
      MovedToGame(r.(sessions := r.sessions[i := SetPlayer(r.sessions[i], c).0], sessionOf := r.sessionOf[c := i]), c)
    else if |r.sessions| == GAME_COUNT then (r, false)
    else
      MovedToGame(r.(sessions := r.sessions + [SetPlayer(NewSession(), c).0], sessionOf := r.sessionOf[c := |r.sessions|]), c)
  }

  /** A client leaves its session, if any, and both arrays. */
  function Disconnect(r: Roster, c: Client): Roster {
    var r' := if c in r.sessionOf && r.sessionOf[c] < |r.sessions| then
      r.(sessions := r.sessions[r.sessionOf[c] := DisconnectPlayer(r.sessions[r.sessionOf[c]], c).session],
         sessionOf := r.sessionOf - {c})
      else r;
    r'.(queue := WithoutClient(r'.queue, c), inGame := WithoutClient(r'.inGame, c))
  }

  // ---------- the rule ----------

  ghost predicate NoDoubles(slots: seq<Seat>) {
    forall i, j :: 0 <= i < j < |slots| && slots[i].Taken? ==> slots[i] != slots[j]
  }

  /** The clients in the game array are exactly those seated in some session, each in the one
      it points to; nobody is in both arrays or twice in one. */
  ghost predicate SeatingOk(r: Roster) {
    && |r.sessions| <= GAME_COUNT && |r.inGame| == 2 * GAME_COUNT && |r.queue| == CLIENT_QUEUE_LEN
    && (forall i :: 0 <= i < |r.sessions| ==> RosterOk(r.sessions[i]))
    && NoDoubles(r.queue) && NoDoubles(r.inGame)
    && (forall c: Client :: Taken(c) in r.inGame ==> c in r.sessionOf && Taken(c) !in r.queue)
    && (forall c: Client :: c in r.sessionOf ==>
      Taken(c) in r.inGame && r.sessionOf[c] < |r.sessions| && HasPlayer(r.sessions[r.sessionOf[c]], c))
    && (forall i, c: Client :: 0 <= i < |r.sessions| && HasPlayer(r.sessions[i], c) ==> c in r.sessionOf && r.sessionOf[c] == i)
  }

  // ---------- room in the game array ----------

  ghost function SeatedIn(s: Session): set<Client> {
    (if s.seats[0].Taken? then {s.seats[0].client} else {}) + (if s.seats[1].Taken? then {s.seats[1].client} else {})
  }

  ghost function SeatedClients(sessions: seq<Session>): set<Client> {
    if sessions == [] then {} else SeatedClients(sessions[..|sessions| - 1]) + SeatedIn(sessions[|sessions| - 1])
  }

  lemma SeatedInFacts(s: Session)
    ensures |SeatedIn(s)| <= 2
    ensures forall c: Client :: c in SeatedIn(s) <==> HasPlayer(s, c)
  {
  }

  lemma {:induction false} SeatedBound(sessions: seq<Session>)
    ensures |SeatedClients(sessions)| <= 2 * |sessions|
    ensures forall c: Client :: c in SeatedClients(sessions) <==> exists i :: 0 <= i < |sessions| && HasPlayer(sessions[i], c)
  {
    hide SeatedIn, HasPlayer;
    if sessions != [] {
      var n := |sessions| - 1;
      SeatedBound(sessions[..n]);
      assert forall i :: 0 <= i < n ==> sessions[..n][i] == sessions[i];
      SeatedInFacts(sessions[n]);
      UnionBound(SeatedClients(sessions[..n]), SeatedIn(sessions[n]));
    }
  }

  ghost function ClientsOf(slots: seq<Seat>): set<Client> {
    set i | 0 <= i < |slots| && slots[i].Taken? :: slots[i].client
  }

  lemma ClientsOfLast(slots: seq<Seat>)
    requires slots != [] && NoDoubles(slots)
    ensures NoDoubles(slots[..|slots| - 1])
    ensures var seat := slots[|slots| - 1];
      ClientsOf(slots) == ClientsOf(slots[..|slots| - 1]) + if seat.Taken? then {seat.client} else {}
    ensures var seat := slots[|slots| - 1]; seat.Taken? ==> seat.client !in ClientsOf(slots[..|slots| - 1])
  {
    var n := |slots| - 1;
    assert slots == slots[..n] + [slots[n]];
    forall c: Client ensures c in ClientsOf(slots) <==> c in ClientsOf(slots[..n]) || slots[n] == Taken(c) {
      ClientsOfSlots(slots, c);
      ClientsOfSlots(slots[..n], c);
    }
    if slots[n].Taken? {
      ClientsOfSlots(slots[..n], slots[n].client);
    }
  }

  lemma ClientsOfSlots(slots: seq<Seat>, c: Client)
    ensures c in ClientsOf(slots) <==> Taken(c) in slots
  {
    if Taken(c) in slots {
      var i :| 0 <= i < |slots| && slots[i] == Taken(c);
    }
  }

  lemma {:induction false} CountClients(slots: seq<Seat>)
    requires NoDoubles(slots)
    ensures |ClientsOf(slots)| == TakenCount(slots)
  {
    if slots == [] {
      assert ClientsOf(slots) == {};
    } else {
      hide ClientsOf, NoDoubles;
      CountClients(slots[..|slots| - 1]);
      ClientsOfLast(slots);
    }
  }

  lemma {:induction false} FullCount(slots: seq<Seat>)
    requires FreePos(slots) == |slots|
    ensures TakenCount(slots) == |slots|
  {
    if slots != [] {
      var n := |slots| - 1;
      assert forall i :: 0 <= i < n ==> slots[..n][i] == slots[i];
      FullCount(slots[..n]);
    }
  }

  /** As long as one more client can be seated there is a free slot in the game array. */
  lemma RoomForSeated(r: Roster, sessions: seq<Session>, c: Client)
    requires SeatingOk(r) && c !in r.sessionOf && |sessions| <= GAME_COUNT
    requires exists i :: 0 <= i < |sessions| && HasPlayer(sessions[i], c)
    requires forall d: Client :: d in r.sessionOf ==> exists i :: 0 <= i < |sessions| && HasPlayer(sessions[i], d)
    ensures FreePos(r.inGame) < |r.inGame|
  {
    SeatedBound(sessions);
    CountClients(r.inGame);
    hide HasPlayer, RosterOk;
    var seated := SeatedClients(sessions);
    forall d: Client | d in ClientsOf(r.inGame) ensures d in seated - {c} {
      ClientsOfSlots(r.inGame, d);
    }
    SubsetSize(ClientsOf(r.inGame), seated - {c});
    if FreePos(r.inGame) == |r.inGame| {
      FullCount(r.inGame);
    }
  }

  // ---------- each operation keeps the rule ----------

  lemma WithClientFacts(slots: seq<Seat>, c: Client)
    requires NoDoubles(slots) && Taken(c) !in slots
    ensures |WithClient(slots, c)| == |slots| && NoDoubles(WithClient(slots, c))
    ensures forall d: Client :: Taken(d) in WithClient(slots, c) <==> Taken(d) in slots || (d == c && FreePos(slots) < |slots|)
  {
    var pos := FreePos(slots);
    if pos < |slots| {
      var after := slots[pos := Taken(c)];
      assert after[pos] == Taken(c);
      forall d: Client | Taken(d) in slots ensures Taken(d) in after {
        var i :| 0 <= i < |slots| && slots[i] == Taken(d);
        assert after[i] == Taken(d);
      }
    }
  }

  lemma WithoutClientFacts(slots: seq<Seat>, c: Client)
    requires NoDoubles(slots)
    ensures |WithoutClient(slots, c)| == |slots| && NoDoubles(WithoutClient(slots, c))
    ensures forall d: Client :: Taken(d) in WithoutClient(slots, c) <==> Taken(d) in slots && d != c
  {
    var pos := SlotOf(slots, c);
    if pos < |slots| {
      var after := slots[pos := Free];
      forall d: Client | Taken(d) in slots && d != c ensures Taken(d) in after {
        var i :| 0 <= i < |slots| && slots[i] == Taken(d);
        assert after[i] == Taken(d);
      }
    }
  }

  lemma AcceptKeeps(r: Roster, c: Client)
    requires SeatingOk(r) && Taken(c) !in r.queue && Taken(c) !in r.inGame
    ensures SeatingOk(Accept(r, c))
  {
    hide RosterOk, HasPlayer, NoDoubles, WithClient, FreePos;
    WithClientFacts(r.queue, c);
  }

  lemma SeatPlayer(s: Session, c: Client)
    requires RosterOk(s) && IsVacant(s) && !HasPlayer(s, c)
    ensures RosterOk(SetPlayer(s, c).0) && SetPlayer(s, c).1
    ensures forall d: Client :: HasPlayer(SetPlayer(s, c).0, d) <==> HasPlayer(s, d) || d == c
  {
  }

  lemma UnseatPlayer(s: Session, c: Client)
    requires RosterOk(s) && HasPlayer(s, c)
    ensures RosterOk(DisconnectPlayer(s, c).session)
    ensures forall d: Client :: HasPlayer(DisconnectPlayer(s, c).session, d) <==> HasPlayer(s, d) && d != c
  {
  }

  /** The sessions after seating c in session i, which may be one past the last. */
  ghost predicate SeatedAt(r: Roster, sessions: seq<Session>, c: Client, i: nat) {
    && i < |sessions| && |r.sessions| <= |sessions| <= GAME_COUNT
    && (forall j :: 0 <= j < |sessions| ==> RosterOk(sessions[j]))
    && (forall j, d: Client :: 0 <= j < |sessions| ==>
      (HasPlayer(sessions[j], d) <==> (j < |r.sessions| && HasPlayer(r.sessions[j], d)) || (j == i && d == c)))
  }

  lemma MoveKeeps(r: Roster, sessions: seq<Session>, c: Client, i: nat)
    requires SeatingOk(r) && c !in r.sessionOf && Taken(c) in r.queue
    requires SeatedAt(r, sessions, c, i)
    ensures var m := MovedToGame(r.(sessions := sessions, sessionOf := r.sessionOf[c := i]), c);
      m.1 && SeatingOk(m.0)
  {
    hide RosterOk, HasPlayer, NoDoubles, WithClient, WithoutClient, FreePos, MovedToGame;
    assert HasPlayer(sessions[i], c);
    RoomForSeated(r, sessions, c);
    WithClientFacts(r.inGame, c);
    WithoutClientFacts(r.queue, c);
    var m := MovedRoster(r.(sessions := sessions, sessionOf := r.sessionOf[c := i]), c);
    forall d: Client | d in m.sessionOf
      ensures Taken(d) in m.inGame && m.sessionOf[d] < |sessions| && HasPlayer(sessions[m.sessionOf[d]], d)
    {
      assert d == c || d in r.sessionOf;
    }
    forall j, d: Client | 0 <= j < |sessions| && HasPlayer(sessions[j], d) ensures d in m.sessionOf && m.sessionOf[d] == j {
      assert (j == i && d == c) || (j < |r.sessions| && HasPlayer(r.sessions[j], d));
    }
  }

  lemma MovedRoster(r: Roster, c: Client) returns (m: Roster)
    requires FreePos(r.inGame) < |r.inGame|
    ensures m == r.(inGame := WithClient(r.inGame, c), queue := WithoutClient(r.queue, c))
    ensures MovedToGame(r, c) == (m, true)
  {
    m := r.(inGame := WithClient(r.inGame, c), queue := WithoutClient(r.queue, c));
  }

  /** A queued client is seated whenever there is a free seat or room for a session; moving it
      to the game array never fails for lack of room. */
  lemma ConnectKeeps(r: Roster, c: Client)
    requires SeatingOk(r) && c !in r.sessionOf && Taken(c) in r.queue
    ensures SeatingOk(Connect(r, c).0)
    ensures Connect(r, c).1 <==> |r.sessions| < GAME_COUNT || exists i :: 0 <= i < |r.sessions| && IsVacant(r.sessions[i])
    ensures if Connect(r, c).1 then c in Connect(r, c).0.sessionOf else Connect(r, c).0 == r
  {
    hide MovedToGame, RosterOk, NoDoubles, SetPlayer, IsVacant, HasPlayer;
    var i := VacantSession(r.sessions);
    if i < |r.sessions| {
      SeatPlayer(r.sessions[i], c);
      var sessions := r.sessions[i := SetPlayer(r.sessions[i], c).0];
      MoveKeeps(r, sessions, c, i);
      MovedFacts(r.(sessions := sessions, sessionOf := r.sessionOf[c := i]), c);
    } else if |r.sessions| < GAME_COUNT {
      NewIsEmpty();
      SeatPlayer(NewSession(), c);
      var sessions := r.sessions + [SetPlayer(NewSession(), c).0];
      MoveKeeps(r, sessions, c, |r.sessions|);
      MovedFacts(r.(sessions := sessions, sessionOf := r.sessionOf[c := |r.sessions|]), c);
    }
  }

  lemma MovedFacts(r: Roster, c: Client)
    ensures MovedToGame(r, c).0.sessionOf == r.sessionOf
  {
  }

  lemma NewIsEmpty()
    ensures RosterOk(NewSession()) && IsVacant(NewSession()) && forall d: Client :: !HasPlayer(NewSession(), d)
  {
  }

  lemma DisconnectKeeps(r: Roster, c: Client)
    requires SeatingOk(r)
    ensures SeatingOk(Disconnect(r, c))
    ensures Taken(c) !in Disconnect(r, c).queue && Taken(c) !in Disconnect(r, c).inGame && c !in Disconnect(r, c).sessionOf
  {
    hide RosterOk, HasPlayer, NoDoubles, WithoutClient, Disconnect, DisconnectPlayer;
    WithoutClientFacts(r.queue, c);
    WithoutClientFacts(r.inGame, c);
    SessionsWithout(r, c);
    var m := Disconnect(r, c);
    forall d: Client | Taken(d) in m.inGame ensures d in m.sessionOf && Taken(d) !in m.queue {
      assert Taken(d) in r.inGame && d != c;
    }
    forall j, d: Client | 0 <= j < |m.sessions| && HasPlayer(m.sessions[j], d) ensures d in m.sessionOf && m.sessionOf[d] == j {
      assert HasPlayer(r.sessions[j], d) && d != c;
    }
    forall d: Client | d in m.sessionOf
      ensures Taken(d) in m.inGame && m.sessionOf[d] < |m.sessions| && HasPlayer(m.sessions[m.sessionOf[d]], d)
    {
      assert d in r.sessionOf && d != c;
    }
  }

  /** Leaving takes the client out of its session and changes nothing about anybody else. */
  lemma SessionsWithout(r: Roster, c: Client)
    requires SeatingOk(r)
    ensures var m := Disconnect(r, c);
      && |m.sessions| == |r.sessions| && m.sessionOf == r.sessionOf - {c}
      && m.queue == WithoutClient(r.queue, c) && m.inGame == WithoutClient(r.inGame, c)
      && (forall j :: 0 <= j < |m.sessions| ==> RosterOk(m.sessions[j]))
      && forall j, d: Client :: 0 <= j < |m.sessions| ==> (HasPlayer(m.sessions[j], d) <==> HasPlayer(r.sessions[j], d) && d != c)
  {
    hide RosterOk, HasPlayer, NoDoubles, WithoutClient, DisconnectPlayer;
    if c in r.sessionOf {
      UnseatPlayer(r.sessions[r.sessionOf[c]], c);
    }
    var m := Disconnect(r, c);
    forall j, d: Client | 0 <= j < |m.sessions| ensures HasPlayer(m.sessions[j], d) <==> HasPlayer(r.sessions[j], d) && d != c {
      assert (c in r.sessionOf && r.sessionOf[c] == j) || m.sessions[j] == r.sessions[j];
    }
    assert c !in r.sessionOf ==> r.sessionOf - {c} == r.sessionOf;
  }

  // ---------- where a client goes, and who is not concerned ----------

  /** Where a player waits for another, the client is seated in the first such session: no new
      session is made, and no other session changes. */
  lemma WaitingPlayerIsJoined(r: Roster, c: Client, i: nat)
    requires SeatingOk(r) && c !in r.sessionOf && Taken(c) in r.queue
    requires i < |r.sessions| && IsVacant(r.sessions[i]) && forall j :: 0 <= j < i ==> !IsVacant(r.sessions[j])
    ensures var (r', ok) := Connect(r, c);
      && ok && r'.sessionOf == r.sessionOf[c := i]
      && |r'.sessions| == |r.sessions| && HasPlayer(r'.sessions[i], c)
      && (forall d: Client :: HasPlayer(r.sessions[i], d) ==> HasPlayer(r'.sessions[i], d))
      && forall j :: 0 <= j < |r.sessions| && j != i ==> r'.sessions[j] == r.sessions[j]
  {
    hide RosterOk, NoDoubles, MovedToGame;
    ConnectKeeps(r, c);
    FirstVacancy(r.sessions, i);
    MovedParts(r.(sessions := r.sessions[i := SetPlayer(r.sessions[i], c).0], sessionOf := r.sessionOf[c := i]), c);
  }

  lemma FirstVacancy(sessions: seq<Session>, i: nat)
    requires i <= |sessions| && (i < |sessions| ==> IsVacant(sessions[i])) && forall j :: 0 <= j < i ==> !IsVacant(sessions[j])
    ensures VacantSession(sessions) == i
  {
  }

  lemma MovedParts(r: Roster, c: Client)
    ensures MovedToGame(r, c).0.sessions == r.sessions && MovedToGame(r, c).0.sessionOf == r.sessionOf
  {
  }

  /** Only when every session is full a new one is made, with the client alone in it; when there
      are as many as there can be, the client stays in the queue. */
  lemma NewSessionOnlyWhenFull(r: Roster, c: Client)
    requires SeatingOk(r) && c !in r.sessionOf && Taken(c) in r.queue
    requires forall j :: 0 <= j < |r.sessions| ==> !IsVacant(r.sessions[j])
    ensures var (r', ok) := Connect(r, c);
      if |r.sessions| < GAME_COUNT then
        && ok && r'.sessionOf == r.sessionOf[c := |r.sessions|]
        && |r'.sessions| == |r.sessions| + 1 && r'.sessions[..|r.sessions|] == r.sessions
        && forall d: Client :: HasPlayer(r'.sessions[|r.sessions|], d) <==> d == c
      else !ok && r' == r
  {
    hide RosterOk, NoDoubles, MovedToGame;
    ConnectKeeps(r, c);
    FirstVacancy(r.sessions, |r.sessions|);
    MovedParts(r.(sessions := r.sessions + [SetPlayer(NewSession(), c).0], sessionOf := r.sessionOf[c := |r.sessions|]), c);
  }

  /** What a client is to the server: queued, in the game array, and in which session. */
  ghost predicate SamePlace(r: Roster, r': Roster, d: Client) {
    && (Taken(d) in r'.queue <==> Taken(d) in r.queue) && (Taken(d) in r'.inGame <==> Taken(d) in r.inGame)
    && (d in r'.sessionOf <==> d in r.sessionOf) && (d in r.sessionOf ==> r'.sessionOf[d] == r.sessionOf[d])
  }

  /** Whatever one client does, every other one stays where it is. */
  lemma OthersStay(r: Roster, c: Client, d: Client)
    requires SeatingOk(r) && d != c
    ensures Taken(c) !in r.queue && Taken(c) !in r.inGame ==> SamePlace(r, Accept(r, c), d)
    ensures Taken(c) in r.queue && c !in r.sessionOf ==> SamePlace(r, Connect(r, c).0, d)
    ensures SamePlace(r, Disconnect(r, c), d)
  {
    hide RosterOk, HasPlayer, NoDoubles, WithClient, WithoutClient, FreePos, SetPlayer, DisconnectPlayer, VacantSession;
    WithoutClientFacts(r.queue, c);
    WithoutClientFacts(r.inGame, c);
    if Taken(c) !in r.queue {
      WithClientFacts(r.queue, c);
    }
    if Taken(c) !in r.inGame {
      WithClientFacts(r.inGame, c);
    }
  }

  // ---------- runs ----------

  datatype SeatOp = AcceptOp(c: Client) | ConnectOp(c: Client) | DisconnectOp(c: Client) | PlayOp(i: nat, s: Session)

  /** Only new clients connect, only queued clients without a session ask for a game, and the
      play of a session keeps its roster rule and its seats. */
  ghost predicate OpEnabled(r: Roster, op: SeatOp) {
    match op
    case AcceptOp(c) => Taken(c) !in r.queue && Taken(c) !in r.inGame
    case ConnectOp(c) => Taken(c) in r.queue && c !in r.sessionOf
    case DisconnectOp(c) => true
    case PlayOp(i, s) => i < |r.sessions| && RosterOk(s) && s.seats == r.sessions[i].seats
  }

  function ApplySeatOp(r: Roster, op: SeatOp): Roster
    requires op.PlayOp? ==> op.i < |r.sessions|
  {
    match op
    case AcceptOp(c) => Accept(r, c)
    case ConnectOp(c) => Connect(r, c).0
    case DisconnectOp(c) => Disconnect(r, c)
    case PlayOp(i, s) => r.(sessions := r.sessions[i := s])
  }

  function EmptyServer(): Roster {
    Roster([], seq(CLIENT_QUEUE_LEN, _ => Free), seq(2 * GAME_COUNT, _ => Free), map[])
  }

  ghost predicate IsSeatRun(rosters: seq<Roster>, ops: seq<SeatOp>) {
    && |rosters| == |ops| + 1 && rosters[0] == EmptyServer()
    && forall i :: 0 <= i < |ops| ==> OpEnabled(rosters[i], ops[i]) && rosters[i + 1] == ApplySeatOp(rosters[i], ops[i])
  }

  /** The seating rule holds at every point of every run of connections, requests and
      disconnections. */
  lemma {:induction false} EveryRunKeepsSeating(rosters: seq<Roster>, ops: seq<SeatOp>)
    requires IsSeatRun(rosters, ops)
    ensures forall i :: 0 <= i < |rosters| ==> SeatingOk(rosters[i])
  {
    if ops != [] {
      var n := |ops| - 1;
      EveryRunKeepsSeating(rosters[..n + 1], ops[..n]);
      assert SeatingOk(rosters[..n + 1][n]);
      OpKeeps(rosters[n], ops[n]);
      forall i | 0 <= i < |rosters| ensures SeatingOk(rosters[i]) {
        assert i == n + 1 || rosters[i] == rosters[..n + 1][i];
      }
    }
  }

  lemma OpKeeps(r: Roster, op: SeatOp)
    requires SeatingOk(r) && OpEnabled(r, op)
    ensures SeatingOk(ApplySeatOp(r, op))
  {
    hide SeatingOk, Accept, Connect, Disconnect;
    match op
    case AcceptOp(c) => AcceptKeeps(r, c);
    case ConnectOp(c) => ConnectKeeps(r, c);
    case DisconnectOp(c) => DisconnectKeeps(r, c);
    case PlayOp(i, s) => PlayKeeps(r, i, s);
  }

  lemma PlayKeeps(r: Roster, i: nat, s: Session)
    requires SeatingOk(r) && i < |r.sessions| && RosterOk(s) && s.seats == r.sessions[i].seats
    ensures SeatingOk(r.(sessions := r.sessions[i := s]))
  {
    hide RosterOk, NoDoubles;
    assert forall d: Client :: HasPlayer(s, d) <==> HasPlayer(r.sessions[i], d);
    hide HasPlayer;
  }

  ghost predicate OneVacancy(sessions: seq<Session>) {
    forall j, k :: 0 <= j < k < |sessions| ==> !IsVacant(sessions[j]) || !IsVacant(sessions[k])
  }

  /** As long as nobody leaves, at most one session has a free seat: everybody who is seated has
      an opponent but at most one. */
  lemma {:induction false} EverybodyMeets(rosters: seq<Roster>, ops: seq<SeatOp>)
    requires IsSeatRun(rosters, ops) && forall i :: 0 <= i < |ops| ==> !ops[i].DisconnectOp?
    ensures OneVacancy(rosters[|ops|].sessions)
  {
    hide OneVacancy, SeatingOk, OpEnabled, ApplySeatOp;
    if ops == [] {
      NoVacancy();
    } else {
      var n := |ops| - 1;
      EverybodyMeets(rosters[..n + 1], ops[..n]);
      EveryRunKeepsSeating(rosters, ops);
      OpKeepsOneVacancy(rosters[n], ops[n]);
    }
  }

  lemma NoVacancy()
    ensures OneVacancy(EmptyServer().sessions)
  {
  }

  lemma OpKeepsOneVacancy(r: Roster, op: SeatOp)
    requires SeatingOk(r) && OpEnabled(r, op) && !op.DisconnectOp? && OneVacancy(r.sessions)
    ensures OneVacancy(ApplySeatOp(r, op).sessions)
  {
    hide SeatingOk, RosterOk, HasPlayer, NoDoubles, Accept, Connect;
    match op
    case AcceptOp(c) => AcceptSessions(r, c);
    case ConnectOp(c) =>
      var i := VacantSession(r.sessions);
      var after := Connect(r, c).0.sessions;
      if i < |r.sessions| {
        WaitingPlayerIsJoined(r, c, i);
        forall j, k | 0 <= j < k < |after| ensures !IsVacant(after[j]) || !IsVacant(after[k]) {
          assert !IsVacant(r.sessions[j]) || !IsVacant(r.sessions[k]);
        }
      } else {
        NewSessionOnlyWhenFull(r, c);
        assert forall j :: 0 <= j < |r.sessions| ==> after[j] == r.sessions[j];
      }
    case PlayOp(i, s) =>
      assert IsVacant(s) <==> IsVacant(r.sessions[i]);
      var after := r.sessions[i := s];
      assert forall j :: 0 <= j < |after| ==> (IsVacant(after[j]) <==> IsVacant(r.sessions[j]));
  }

  lemma AcceptSessions(r: Roster, c: Client)
    ensures Accept(r, c).sessions == r.sessions
  {
  }
}
