// Fixed arrays of client slots.
module ClientArrays {
  import opened Options
  import opened SessionRules

  /** The first free slot, or the length when there is none. */
  function FreePos(slots: seq<Seat>): (pos: nat)
    ensures pos <= |slots| && (pos < |slots| ==> slots[pos].Free?)
    ensures forall i :: 0 <= i < pos ==> slots[i].Taken?
  {
    if slots == [] || slots[0].Free? then 0 else 1 + FreePos(slots[1..])
  }

  /** The first slot of the client, or the length. */
  function SlotOf(slots: seq<Seat>, c: Client): (pos: nat)
    ensures pos <= |slots| && (pos < |slots| ==> slots[pos] == Taken(c))
    ensures forall i :: 0 <= i < pos ==> slots[i] != Taken(c)
  {
    if slots == [] || slots[0] == Taken(c) then 0 else 1 + SlotOf(slots[1..], c)
  }

  function WithClient(slots: seq<Seat>, c: Client): seq<Seat> {
    var pos := FreePos(slots);
    if pos == |slots| then slots else slots[pos := Taken(c)]
  }

  function WithoutClient(slots: seq<Seat>, c: Client): seq<Seat> {
    var pos := SlotOf(slots, c);
    if pos == |slots| then slots else slots[pos := Free]
  }

  function TakenCount(slots: seq<Seat>): nat {
    if slots == [] then 0 else TakenCount(slots[..|slots| - 1]) + if slots[|slots| - 1].Taken? then 1 else 0
  }

  lemma {:induction false} TakenCountUpdate(slots: seq<Seat>, i: nat, seat: Seat)
    requires i < |slots|
    ensures TakenCount(slots[i := seat]) ==
      TakenCount(slots) - (if slots[i].Taken? then 1 else 0) + (if seat.Taken? then 1 else 0)
  {
    var n := |slots| - 1;
    if i < n {
      TakenCountUpdate(slots[..n], i, seat);
      assert slots[i := seat][..n] == slots[..n][i := seat];
    } else {
      assert slots[i := seat][..n] == slots[..n];
    }
  }

  class ClientArray {
    const clients: array<Seat>
    var count: int

    /** The count is the number of slots in use. */
    ghost predicate Valid()
      reads this, clients
    {
      count == TakenCount(clients[..])
    }

    constructor (pSize: int)
      ensures Valid() && fresh(clients) && clients.Length == (if pSize < 0 then 0 else pSize)
      ensures forall i :: 0 <= i < clients.Length ==> clients[i] == Free
    {
      clients := new Seat[if pSize < 0 then 0 else pSize](_ => Free);
      count := 0;
      new;
      NoneTaken(clients[..]);
    }

    method At(index: int) returns (seat: Seat)
      ensures seat == if 0 <= index < clients.Length then clients[index] else Free
    {
      seat := if index < 0 || index >= clients.Length then Free else clients[index];
    }

    method FindFreePos() returns (pos: int)
      ensures pos == if FreePos(clients[..]) == clients.Length then -1 else FreePos(clients[..])
    {
      for i := 0 to clients.Length
        invariant forall j :: 0 <= j < i ==> clients[j].Taken?
      {
        if clients[i].Free? {
          return i;
        }
      }
      pos := -1;
    }

    /** Puts the client into the first free slot, if there is one. */
    method Add(client: Option<Client>) returns (ok: bool)
      requires Valid()
      modifies this, clients
      ensures Valid()
      ensures client.None? ==> !ok && clients[..] == old(clients[..])
      ensures client.Some? ==> clients[..] == WithClient(old(clients[..]), client.value)
      ensures client.Some? ==> (ok <==> exists i :: 0 <= i < clients.Length && old(clients[i]).Free?)
    {
      if client.None? {
        return false;
      }
      ghost var slots := clients[..];
      var pos := FindFreePos();
      if pos != -1 {
        TakenCountUpdate(slots, pos, Taken(client.value));
        clients[pos] := Taken(client.value);
        count := count + 1;
        assert clients[..] == slots[pos := Taken(client.value)];
        return true;
      }
      ok := false;
    }

    /** Frees the first slot of the client. */
    method Remove(client: Option<Client>)
      requires Valid()
      modifies this, clients
      ensures Valid()
      ensures clients[..] == if client.Some? then WithoutClient(old(clients[..]), client.value) else old(clients[..])
    {
      if client.None? {
        return;
      }
      ghost var slots := clients[..];
      for i := 0 to clients.Length
        invariant clients[..] == slots && count == TakenCount(slots)
        invariant forall j :: 0 <= j < i ==> slots[j] != Taken(client.value)
      {
        if clients[i] == Taken(client.value) {
          TakenCountUpdate(slots, i, Free);
          clients[i] := Free;
          count := count - 1;
          assert clients[..] == slots[i := Free];
          return;
        }
      }
    }

    method IsFull() returns (r: bool)
      ensures r <==> forall i :: 0 <= i < clients.Length ==> clients[i].Taken?
    {
      for i := 0 to clients.Length
        invariant forall j :: 0 <= j < i ==> clients[j].Taken?
      {
        if clients[i].Free? {
          return false;
        }
      }
      r := true;
    }

    method ContainsClient(client: Option<Client>) returns (r: bool)
      ensures r <==> client.Some? && Taken(client.value) in clients[..]
    {
      if client.None? {
        return false;
      }
      for i := 0 to clients.Length
        invariant forall j :: 0 <= j < i ==> clients[j] != Taken(client.value)
      {
        if clients[i] == Taken(client.value) {
          return true;
        }
      }
      r := false;
    }
  }

  lemma {:induction false} NoneTaken(slots: seq<Seat>)
    requires forall i :: 0 <= i < |slots| ==> slots[i] == Free
    ensures TakenCount(slots) == 0
  {
    if slots != [] {
      NoneTaken(slots[..|slots| - 1]);
    }
  }
}
