// The messages that one client gets out of those an operation of a session sends.
module SessionPosts {
  import opened EnemyViews
  import opened SessionRules

  /** The messages among the posts that go to one client. */
  function MsgsTo(sent: seq<Post>, c: Client): seq<ServerMsg> {
    if sent == [] then [] else (if sent[0].to == c then [sent[0].msg] else []) + MsgsTo(sent[1..], c)
  }

  lemma {:induction false} MsgsToConcat(a: seq<Post>, b: seq<Post>, c: Client)
    ensures MsgsTo(a + b, c) == MsgsTo(a, c) + MsgsTo(b, c)
  {
    if a == [] {
      assert a + b == b;
    } else {
      var head := if a[0].to == c then [a[0].msg] else [];
      MsgsToConcat(a[1..], b, c);
      assert (a + b)[0] == a[0] && (a + b)[1..] == a[1..] + b;
      assert head + (MsgsTo(a[1..], c) + MsgsTo(b, c)) == head + MsgsTo(a[1..], c) + MsgsTo(b, c);
    }
  }

  lemma MsgsToOne(p: Post, c: Client)
    ensures MsgsTo([p], c) == if p.to == c then [p.msg] else []
  {
  }

  lemma PostOneHeard(c: Client, msg: ServerMsg)
    ensures forall d :: MsgsTo([Post(c, msg)], d) == if c == d then [msg] else []
  {
    forall d ensures MsgsTo([Post(c, msg)], d) == if c == d then [msg] else [] {
      MsgsToOne(Post(c, msg), d);
    }
  }

  lemma StartFieldsHeard(s: Session)
    requires PlayersCount(s) == 2 && RosterOk(s) && s.state == WaitStart
    ensures MsgsTo(StartFields(s), s.seats[0].client) == [FieldMsg(s.fields[0], true), FieldMsg(HiddenShips(s.fields[1]), false)]
    ensures MsgsTo(StartFields(s), s.seats[1].client) == [FieldMsg(s.fields[1], true), FieldMsg(HiddenShips(s.fields[0]), false)]
  {
    hide HiddenShips, MsgsTo;
    var a, b := PostAt(s, 0, FieldMsg(s.fields[0], true)), PostAt(s, 0, FieldMsg(HiddenShips(s.fields[1]), false));
    var c, d := PostAt(s, 1, FieldMsg(s.fields[1], true)), PostAt(s, 1, FieldMsg(HiddenShips(s.fields[0]), false));
    forall i | 0 <= i < 2 ensures MsgsTo(StartFields(s), s.seats[i].client)
      == MsgsTo(a, s.seats[i].client) + MsgsTo(b, s.seats[i].client) + MsgsTo(c, s.seats[i].client) + MsgsTo(d, s.seats[i].client)
    {
      MsgsToConcat(a, b, s.seats[i].client);
      MsgsToConcat(a + b, c, s.seats[i].client);
      MsgsToConcat(a + b + c, d, s.seats[i].client);
    }
    forall i | 0 <= i < 2
      ensures MsgsTo(a, s.seats[i].client) == if i == 0 then [a[0].msg] else []
      ensures MsgsTo(b, s.seats[i].client) == if i == 0 then [b[0].msg] else []
      ensures MsgsTo(c, s.seats[i].client) == if i == 1 then [c[0].msg] else []
      ensures MsgsTo(d, s.seats[i].client) == if i == 1 then [d[0].msg] else []
    {
      MsgsToOne(a[0], s.seats[i].client);
      MsgsToOne(b[0], s.seats[i].client);
      MsgsToOne(c[0], s.seats[i].client);
      MsgsToOne(d[0], s.seats[i].client);
    }
  }

  lemma NothingHeard()
    ensures forall c :: MsgsTo([], c) == []
  {
  }

  lemma ConcatHeard(s: Session, a: seq<Post>, b: seq<Post>)
    ensures forall i :: 0 <= i < 2 && s.seats[i].Taken? ==>
      MsgsTo(a + b, s.seats[i].client) == MsgsTo(a, s.seats[i].client) + MsgsTo(b, s.seats[i].client)
  {
    forall i | 0 <= i < 2 && s.seats[i].Taken?
      ensures MsgsTo(a + b, s.seats[i].client) == MsgsTo(a, s.seats[i].client) + MsgsTo(b, s.seats[i].client)
    {
      MsgsToConcat(a, b, s.seats[i].client);
    }
  }

  lemma PostAllTwice(s: Session, a: ServerMsg, b: ServerMsg)
    requires RosterOk(s)
    ensures forall i :: 0 <= i < 2 && s.seats[i].Taken? ==> MsgsTo(PostAll(s, a) + PostAll(s, b), s.seats[i].client) == [a, b]
  {
    PostAllHeard(s, a);
    PostAllHeard(s, b);
    forall i | 0 <= i < 2 && s.seats[i].Taken? ensures MsgsTo(PostAll(s, a) + PostAll(s, b), s.seats[i].client) == [a, b] {
      MsgsToConcat(PostAll(s, a), PostAll(s, b), s.seats[i].client);
    }
  }

  lemma PostBothHeard(s: Session, own: ServerMsg, other: ServerMsg)
    requires RosterOk(s) && PlayersCount(s) == 2
    ensures forall i :: 0 <= i < 2 ==>
      MsgsTo(PostAt(s, s.cur, own) + PostAt(s, Enemy(s.cur), other), s.seats[i].client) == [if i == s.cur then own else other]
  {
    forall i | 0 <= i < 2
      ensures MsgsTo(PostAt(s, s.cur, own) + PostAt(s, Enemy(s.cur), other), s.seats[i].client) == [if i == s.cur then own else other]
    {
      MsgsToConcat(PostAt(s, s.cur, own), PostAt(s, Enemy(s.cur), other), s.seats[i].client);
      MsgsToOne(PostAt(s, s.cur, own)[0], s.seats[i].client);
      MsgsToOne(PostAt(s, Enemy(s.cur), other)[0], s.seats[i].client);
    }
  }

  lemma PostAllHeard(s: Session, msg: ServerMsg)
    requires RosterOk(s)
    ensures forall i :: 0 <= i < 2 && s.seats[i].Taken? ==> MsgsTo(PostAll(s, msg), s.seats[i].client) == [msg]
  {
    forall i | 0 <= i < 2 && s.seats[i].Taken? ensures MsgsTo(PostAll(s, msg), s.seats[i].client) == [msg] {
      var a := if s.seats[0].Taken? then PostAt(s, 0, msg) else [];
      var b := if s.seats[1].Taken? then PostAt(s, 1, msg) else [];
      MsgsToConcat(a, b, s.seats[i].client);
    }
  }
}
