// Delivery control as rules on a list of entries, and what they add up to over any run.
module DeliveryRules {

  /** A pointer to a message, with the number the message carries. Messages are told apart by
      their addresses only. */
  datatype MsgPtr = MsgPtr(address: nat, id: int)

  /** A message under control: when it was last sent and how many attempts remain. */
  datatype Entry = Entry(msg: MsgPtr, lastSendTime: int, resendCnt: int)

  predicate Controls(es: seq<Entry>, msg: MsgPtr) {
    exists k :: 0 <= k < |es| && es[k].msg.address == msg.address
  }

  ghost predicate DistinctMsgs(es: seq<Entry>) {
    forall j, k :: 0 <= j < k < |es| ==> es[j].msg.address != es[k].msg.address
  }

  function Added(es: seq<Entry>, msg: MsgPtr, now: int, attempts: int): seq<Entry> {
    if Controls(es, msg) then es else [Entry(msg, now, attempts)] + es
  }

  function Decreased(es: seq<Entry>, msg: MsgPtr, now: int): (r: seq<Entry>)
    ensures |r| == |es|
  {
    if es == [] then []
    else if es[0].msg.address == msg.address then [Entry(es[0].msg, now, es[0].resendCnt - 1)] + es[1..]
    else [es[0]] + Decreased(es[1..], msg, now)
  }

  /** An entry whose time to be sent again has come. */
  predicate NeedResend(e: Entry, now: int, resendTime: int) {
    e.resendCnt > 0 && now - e.lastSendTime > resendTime
  }

  /** The overdue messages with attempts left, in list order. */
  function Overdue(es: seq<Entry>, now: int, resendTime: int): seq<MsgPtr> {
    if es == [] then []
    else (if NeedResend(es[0], now, resendTime) then [es[0].msg] else []) + Overdue(es[1..], now, resendTime)
  }

  /** The entries that are not exhausted. */
  function Kept(es: seq<Entry>): seq<Entry> {
    if es == [] then []
    else (if es[0].resendCnt > 0 then [es[0]] else []) + Kept(es[1..])
  }

  function WithoutMsg(es: seq<Entry>, msg: MsgPtr): seq<Entry> {
    if es == [] then []
    else if es[0].msg.address == msg.address then es[1..]
    else [es[0]] + WithoutMsg(es[1..], msg)
  }

  /** Without the first entry whose message carries the number. */
  function WithoutId(es: seq<Entry>, id: int): seq<Entry> {
    if es == [] then []
    else if es[0].msg.id == id then es[1..]
    else [es[0]] + WithoutId(es[1..], id)
  }

  // ---------- runs ----------

  datatype Op =
    | Add(msg: MsgPtr, now: int)
    | Decrease(msg: MsgPtr, now: int)
    | Resend(now: int)
    | Receipt(id: int)
    | Remove(msg: MsgPtr)

  function Apply(es: seq<Entry>, op: Op, attempts: int): seq<Entry> {
    match op
    case Add(msg, now) => Added(es, msg, now, attempts)
    case Decrease(msg, now) => Decreased(es, msg, now)
    case Resend(_) => Kept(es)
    case Receipt(id) => WithoutId(es, id)
    case Remove(msg) => WithoutMsg(es, msg)
  }

  function Run(ops: seq<Op>, attempts: int): seq<Entry> {
    if ops == [] then [] else Apply(Run(ops[..|ops| - 1], attempts), ops[|ops| - 1], attempts)
  }

  /** The life of a message: not under control, or since which operation and as which pointer, how
      often it was decreased since, and when it was last added or decreased. */
  datatype Life = Gone | Under(msg: MsgPtr, decreased: int, touched: int, since: nat)

  /** A message with the number was added later than that and is under control. */
  ghost predicate LaterWithNumber(lives: nat -> Life, id: int, since: nat) {
    exists address: nat :: IsLater(lives(address), id, since)
  }

  predicate IsLater(life: Life, id: int, since: nat) {
    life.Under? && life.msg.id == id && life.since > since
  }

  /** A receipt ends the life of the message added last among those with its number. */
  ghost function AfterReceipt(lives: nat -> Life, id: int, address: nat): Life {
    var life := lives(address);
    if life.Under? && life.msg.id == id && !LaterWithNumber(lives, id, life.since) then Gone else life
  }

  /** What the n-th operation makes of the message with the address. */
  ghost function NextLife(lives: nat -> Life, op: Op, n: nat, attempts: int, address: nat): Life {
    var life := lives(address);
    match op
    case Add(m, now) => if life.Gone? && m.address == address then Under(m, 0, now, n) else life
    case Decrease(m, now) =>
      if life.Under? && m.address == address then Under(life.msg, life.decreased + 1, now, life.since) else life
    case Resend(_) => if life.Under? && life.decreased >= attempts then Gone else life
    case Receipt(id) => AfterReceipt(lives, id, address)
    case Remove(m) => if m.address == address then Gone else life
  }

  /** The lives of all messages by the history alone, without the list: a message is under control
      from its adding on, until it is removed, or has been decreased as often as there are attempts
      when a resend comes, or a receipt confirms its number and no message added later has the
      same. */
  ghost function Lives(ops: seq<Op>, attempts: int): nat -> Life {
    if ops == [] then (a: nat) => Gone
    else
      var lives := Lives(ops[..|ops| - 1], attempts);
      (a: nat) => NextLife(lives, ops[|ops| - 1], |ops| - 1, attempts, a)
  }

  ghost function LifeOf(ops: seq<Op>, attempts: int, address: nat): Life {
    Lives(ops, attempts)(address)
  }

  lemma {:induction false} LifeFacts(ops: seq<Op>, attempts: int, address: nat)
    ensures var life := Lives(ops, attempts)(address); life.Under? ==> life.msg.address == address && life.since < |ops|
  {
    if ops != [] {
      LifeFacts(ops[..|ops| - 1], attempts, address);
      hide LaterWithNumber;
    }
  }

  // ---------- the list tells the lives ----------

  /** The entry says what the life is. */
  predicate Tells(e: Entry, life: Life, attempts: int) {
    life.Under? && life.msg == e.msg && e.resendCnt == attempts - life.decreased && e.lastSendTime == life.touched
  }

  /** The entries are those of the messages under control, the one added last in front. */
  ghost predicate Tracks(es: seq<Entry>, lives: nat -> Life, attempts: int) {
    && (forall k :: 0 <= k < |es| ==> Tells(es[k], lives(es[k].msg.address), attempts))
    && (forall j, k :: 0 <= j < k < |es| ==> Before(es[k], es[j], lives))
    && (forall a: nat :: lives(a).Under? ==> HasAddress(es, a))
  }

  predicate Before(e: Entry, f: Entry, lives: nat -> Life) {
    var x, y := lives(e.msg.address), lives(f.msg.address);
    x.Under? && y.Under? && x.since < y.since
  }

  predicate HasAddress(es: seq<Entry>, address: nat) {
    exists k :: 0 <= k < |es| && es[k].msg.address == address
  }

  lemma TracksDistinct(es: seq<Entry>, lives: nat -> Life, attempts: int)
    requires Tracks(es, lives, attempts)
    ensures DistinctMsgs(es)
  {
    forall j, k | 0 <= j < k < |es| ensures es[j].msg.address != es[k].msg.address {
      assert Before(es[k], es[j], lives);
    }
  }

  /** Taking out one entry is the end of that one life. */
  lemma RemovedTracks(es: seq<Entry>, k: nat, lives: nat -> Life, lives': nat -> Life, attempts: int)
    requires Tracks(es, lives, attempts) && k < |es|
    requires forall a: nat :: lives'(a) == if a == es[k].msg.address then Gone else lives(a)
    ensures Tracks(es[..k] + es[k + 1..], lives', attempts)
  {
    TracksDistinct(es, lives, attempts);
    var after := es[..k] + es[k + 1..];
    forall i | 0 <= i < |after| ensures after[i] == es[if i < k then i else i + 1] {
    }
    forall i, j | 0 <= i < j < |after| ensures Before(after[j], after[i], lives') {
      assert Before(es[if j < k then j else j + 1], es[if i < k then i else i + 1], lives);
    }
    forall a: nat | lives'(a).Under? ensures HasAddress(after, a) {
      assert HasAddress(es, a);
      var i :| 0 <= i < |es| && es[i].msg.address == a;
      assert after[if i < k then i else i - 1] == es[i];
    }
  }

  lemma AddTracks(es: seq<Entry>, msg: MsgPtr, now: int, lives: nat -> Life, lives': nat -> Life, attempts: int, since: nat)
    requires Tracks(es, lives, attempts) && forall a: nat :: lives(a).Under? ==> lives(a).since < since
    requires forall a: nat :: lives'(a) == if lives(a).Gone? && a == msg.address then Under(msg, 0, now, since) else lives(a)
    ensures Tracks(Added(es, msg, now, attempts), lives', attempts)
  {
    var after := Added(es, msg, now, attempts);
    if Controls(es, msg) {
      assert lives(msg.address).Under?;
    } else {
      assert lives(msg.address).Gone?;
      assert forall k :: 0 < k < |after| ==> after[k] == es[k - 1];
      forall j, k | 0 <= j < k < |after| ensures Before(after[k], after[j], lives') {
        assert Tells(es[k - 1], lives(es[k - 1].msg.address), attempts);
        if j > 0 {
          assert Before(es[k - 1], es[j - 1], lives);
        }
      }
      forall a: nat | lives'(a).Under? ensures HasAddress(after, a) {
        assert after[0].msg.address == msg.address;
        if a != msg.address {
          assert HasAddress(es, a);
          var i :| 0 <= i < |es| && es[i].msg.address == a;
          assert after[i + 1] == es[i];
        }
      }
    }
  }

  lemma {:induction false} DecreasedAt(es: seq<Entry>, msg: MsgPtr, now: int)
    requires DistinctMsgs(es)
    ensures forall k :: 0 <= k < |es| ==>
      Decreased(es, msg, now)[k] == if es[k].msg.address == msg.address then Entry(es[k].msg, now, es[k].resendCnt - 1) else es[k]
  {
    if es != [] {
      DecreasedAt(es[1..], msg, now);
    }
  }

  lemma DecreaseTracks(es: seq<Entry>, msg: MsgPtr, now: int, lives: nat -> Life, lives': nat -> Life, attempts: int)
    requires Tracks(es, lives, attempts)
    requires forall a: nat :: (lives'(a) ==
      if lives(a).Under? && a == msg.address then Under(lives(a).msg, lives(a).decreased + 1, now, lives(a).since) else lives(a))
    ensures Tracks(Decreased(es, msg, now), lives', attempts)
  {
    hide Decreased;
    TracksDistinct(es, lives, attempts);
    DecreasedAt(es, msg, now);
    var after := Decreased(es, msg, now);
    assert forall k :: 0 <= k < |es| ==> after[k].msg == es[k].msg;
    forall j, k | 0 <= j < k < |after| ensures Before(after[k], after[j], lives') {
      assert Before(es[k], es[j], lives);
    }
    forall a: nat | lives'(a).Under? ensures HasAddress(after, a) {
      assert HasAddress(es, a);
    }
  }

  /** The entries that are kept are in the same order. */
  lemma {:induction false} KeptOrder(es: seq<Entry>, lives: nat -> Life)
    requires forall j, k :: 0 <= j < k < |es| ==> Before(es[k], es[j], lives)
    ensures forall e :: e in Kept(es) <==> e in es && e.resendCnt > 0
    ensures forall j, k :: 0 <= j < k < |Kept(es)| ==> Before(Kept(es)[k], Kept(es)[j], lives)
  {
    hide Before;
    if es != [] {
      KeptOrder(es[1..], lives);
      forall e | e in es[1..] ensures Before(e, es[0], lives) {
        var k :| 0 <= k < |es[1..]| && es[1..][k] == e;
        assert Before(es[k + 1], es[0], lives);
      }
      assert forall e :: e in es <==> e == es[0] || e in es[1..];
    }
  }

  lemma KeptTracks(es: seq<Entry>, lives: nat -> Life, lives': nat -> Life, attempts: int)
    requires Tracks(es, lives, attempts)
    requires forall a: nat :: lives'(a) == if lives(a).Under? && lives(a).decreased >= attempts then Gone else lives(a)
    ensures Tracks(Kept(es), lives', attempts)
  {
    hide Kept;
    KeptOrder(es, lives);
    var after := Kept(es);
    forall k | 0 <= k < |after| ensures Tells(after[k], lives'(after[k].msg.address), attempts) {
      assert after[k] in after;
      var i :| 0 <= i < |es| && es[i] == after[k];
      assert Tells(es[i], lives(es[i].msg.address), attempts);
    }
    forall j, k | 0 <= j < k < |after| ensures Before(after[k], after[j], lives') {
      assert Before(after[k], after[j], lives);
      assert Tells(after[k], lives'(after[k].msg.address), attempts) && Tells(after[j], lives'(after[j].msg.address), attempts);
    }
    forall a: nat | lives'(a).Under? ensures HasAddress(after, a) {
      assert HasAddress(es, a);
      var i :| 0 <= i < |es| && es[i].msg.address == a;
      assert Tells(es[i], lives(a), attempts);
      assert es[i] in after;
    }
  }

  lemma {:induction false} WithoutMsgAt(es: seq<Entry>, msg: MsgPtr, k: nat)
    requires k <= |es| && forall j :: 0 <= j < k ==> es[j].msg.address != msg.address
    ensures k < |es| && es[k].msg.address == msg.address ==> WithoutMsg(es, msg) == es[..k] + es[k + 1..]
    ensures k == |es| ==> WithoutMsg(es, msg) == es
  {
    if k > 0 {
      WithoutMsgAt(es[1..], msg, k - 1);
      assert k < |es| ==> es[..k] + es[k + 1..] == [es[0]] + (es[1..][..k - 1] + es[1..][k..]);
    } else if es != [] {
      assert es[..0] + es[1..] == es[1..];
    }
  }

  lemma ControlsAt(es: seq<Entry>, msg: MsgPtr, k: nat)
    requires k <= |es| && forall j :: 0 <= j < k ==> es[j].msg.address != msg.address
    requires k < |es| ==> es[k].msg.address == msg.address
    ensures Controls(es, msg) <==> k < |es|
  {
  }

  lemma {:induction false} WithoutIdAt(es: seq<Entry>, id: int, k: nat)
    requires k <= |es| && forall j :: 0 <= j < k ==> es[j].msg.id != id
    ensures k < |es| && es[k].msg.id == id ==> WithoutId(es, id) == es[..k] + es[k + 1..]
    ensures k == |es| ==> WithoutId(es, id) == es
  {
    if k > 0 {
      WithoutIdAt(es[1..], id, k - 1);
      assert k < |es| ==> es[..k] + es[k + 1..] == [es[0]] + (es[1..][..k - 1] + es[1..][k..]);
    } else if es != [] {
      assert es[..0] + es[1..] == es[1..];
    }
  }

  /** Where the first entry with the number is, if there is one. */
  lemma FirstWithId(es: seq<Entry>, id: int) returns (k: nat)
    ensures k <= |es| && (k < |es| ==> es[k].msg.id == id) && forall j :: 0 <= j < k ==> es[j].msg.id != id
  {
    k := 0;
    while k < |es| && es[k].msg.id != id
      invariant k <= |es| && forall j :: 0 <= j < k ==> es[j].msg.id != id
    {
      k := k + 1;
    }
  }

  /** A receipt ends the life of the message added last among those with its number: the first of
      them in the list. */
  lemma ReceiptTracks(es: seq<Entry>, id: int, lives: nat -> Life, lives': nat -> Life, attempts: int)
    requires Tracks(es, lives, attempts)
    requires forall a: nat :: lives'(a) == AfterReceipt(lives, id, a)
    ensures Tracks(WithoutId(es, id), lives', attempts)
  {
    hide LaterWithNumber;
    var k := FirstWithId(es, id);
    WithoutIdAt(es, id, k);
    forall a: nat | lives(a).Under? && lives(a).msg.id == id
      ensures k < |es|
      ensures LaterWithNumber(lives, id, lives(a).since) <==> a != es[k].msg.address
    {
      assert HasAddress(es, a);
      var i :| 0 <= i < |es| && es[i].msg.address == a;
      assert Tells(es[i], lives(a), attempts);
      LaterIsBefore(es, id, lives, attempts, k, i);
    }
    if k < |es| {
      assert Tells(es[k], lives(es[k].msg.address), attempts);
      RemovedTracks(es, k, lives, lives', attempts);
    } else {
      assert forall a: nat :: lives'(a) == lives(a);
    }
  }

  lemma LaterIsBefore(es: seq<Entry>, id: int, lives: nat -> Life, attempts: int, k: nat, i: nat)
    requires Tracks(es, lives, attempts) && k <= i < |es| && es[k].msg.id == es[i].msg.id == id
    requires forall j :: 0 <= j < k ==> es[j].msg.id != id
    ensures lives(es[i].msg.address).Under?
    ensures LaterWithNumber(lives, id, lives(es[i].msg.address).since) <==> i != k
    ensures i != k ==> es[i].msg.address != es[k].msg.address
  {
    TracksDistinct(es, lives, attempts);
    assert Tells(es[i], lives(es[i].msg.address), attempts);
    var since := lives(es[i].msg.address).since;
    if i != k {
      assert Before(es[i], es[k], lives) && Tells(es[k], lives(es[k].msg.address), attempts);
      assert IsLater(lives(es[k].msg.address), id, since);
    } else {
      forall b: nat | lives(b).Under? && lives(b).msg.id == id ensures lives(b).since <= since {
        assert HasAddress(es, b);
        var j :| 0 <= j < |es| && es[j].msg.address == b;
        assert Tells(es[j], lives(b), attempts);
        assert j > i ==> Before(es[j], es[i], lives);
      }
    }
  }

  lemma RemoveTracks(es: seq<Entry>, msg: MsgPtr, lives: nat -> Life, lives': nat -> Life, attempts: int)
    requires Tracks(es, lives, attempts)
    requires forall a: nat :: lives'(a) == if a == msg.address then Gone else lives(a)
    ensures Tracks(WithoutMsg(es, msg), lives', attempts)
  {
    if k: nat :| k < |es| && es[k].msg.address == msg.address {
      TracksDistinct(es, lives, attempts);
      assert forall j :: 0 <= j < k ==> es[j].msg.address != msg.address;
      WithoutMsgAt(es, msg, k);
      RemovedTracks(es, k, lives, lives', attempts);
    } else {
      WithoutMsgAt(es, msg, |es|);
      assert lives(msg.address).Gone?;
      assert forall a: nat :: lives'(a) == lives(a);
    }
  }

  /** After any run the list holds exactly the messages whose history leaves them under control,
      each once and the one added last in front, with the attempts and the time of that history. */
  lemma {:induction false} RunTracks(ops: seq<Op>, attempts: int)
    ensures Tracks(Run(ops, attempts), Lives(ops, attempts), attempts)
  {
    hide Tracks, Kept, WithoutId, WithoutMsg, Added, Decreased, LaterWithNumber;
    if ops == [] {
      NothingTracked(attempts);
    } else {
      var rest := ops[..|ops| - 1];
      var es := Run(rest, attempts);
      var lives, lives' := Lives(rest, attempts), Lives(ops, attempts);
      RunTracks(rest, attempts);
      match ops[|ops| - 1]
      case Add(msg, now) =>
        forall a: nat ensures lives(a).Under? ==> lives(a).since < |rest| {
          LifeFacts(rest, attempts, a);
        }
        AddTracks(es, msg, now, lives, lives', attempts, |rest|);
      case Decrease(msg, now) => DecreaseTracks(es, msg, now, lives, lives', attempts);
      case Resend(_) => KeptTracks(es, lives, lives', attempts);
      case Receipt(id) => ReceiptTracks(es, id, lives, lives', attempts);
      case Remove(msg) => RemoveTracks(es, msg, lives, lives', attempts);
    }
  }

  lemma NothingTracked(attempts: int)
    ensures Tracks(Run([], attempts), Lives([], attempts), attempts)
  {
  }

  /** A message is under control after a run exactly if its history says so. */
  lemma ControlsByHistory(ops: seq<Op>, attempts: int, msg: MsgPtr)
    ensures Controls(Run(ops, attempts), msg) <==> LifeOf(ops, attempts, msg.address).Under?
  {
    hide Run, Lives;
    var es := Run(ops, attempts);
    RunTracks(ops, attempts);
    if LifeOf(ops, attempts, msg.address).Under? {
      assert Lives(ops, attempts)(msg.address).Under? && HasAddress(es, msg.address);
    }
    if Controls(es, msg) {
      var k :| 0 <= k < |es| && es[k].msg.address == msg.address;
      assert Tells(es[k], Lives(ops, attempts)(es[k].msg.address), attempts);
    }
  }

  /** In particular a message that has been added is under control. */
  lemma AddedIsControlled(ops: seq<Op>, attempts: int, msg: MsgPtr, now: int)
    ensures Controls(Run(ops + [Add(msg, now)], attempts), msg)
  {
    assert (ops + [Add(msg, now)])[..|ops|] == ops;
    ControlsByHistory(ops + [Add(msg, now)], attempts, msg);
    hide Run;
  }

  lemma {:induction false} OverdueExactly(es: seq<Entry>, now: int, resendTime: int)
    ensures forall m :: m in Overdue(es, now, resendTime) <==> exists e :: e in es && e.msg == m && NeedResend(e, now, resendTime)
  {
    if es != [] {
      OverdueExactly(es[1..], now, resendTime);
      assert forall e :: e in es <==> e == es[0] || e in es[1..];
    }
  }

  /** They are handed out in list order. */
  lemma {:induction false} OverdueInOrder(a: seq<Entry>, b: seq<Entry>, now: int, resendTime: int)
    ensures Overdue(a + b, now, resendTime) == Overdue(a, now, resendTime) + Overdue(b, now, resendTime)
  {
    if a == [] {
      assert a + b == b;
    } else {
      OverdueInOrder(a[1..], b, now, resendTime);
      assert (a + b)[0] == a[0] && (a + b)[1..] == a[1..] + b;
    }
  }

  /** The message is among the pointers. */
  predicate HandsOut(msgs: seq<MsgPtr>, msg: MsgPtr) {
    exists m :: m in msgs && m.address == msg.address
  }

  /** A resend after any run hands out exactly the messages that their history leaves under
      control, with fewer decreases than there are attempts, and overdue; and a message is still
      under control after it exactly while it was decreased fewer times than that. */
  lemma ResendAfterRun(ops: seq<Op>, attempts: int, now: int, resendTime: int, msg: MsgPtr)
    ensures var life := LifeOf(ops, attempts, msg.address);
      && (HandsOut(Overdue(Run(ops, attempts), now, resendTime), msg) <==>
        life.Under? && life.decreased < attempts && now - life.touched > resendTime)
      && (Controls(Run(ops + [Resend(now)], attempts), msg) <==> life.Under? && life.decreased < attempts)
  {
    assert (ops + [Resend(now)])[..|ops|] == ops;
    ControlsByHistory(ops + [Resend(now)], attempts, msg);
    hide Overdue, HandsOut, Run, NeedResend;
    var es := Run(ops, attempts);
    var life := LifeOf(ops, attempts, msg.address);
    RunTracks(ops, attempts);
    HandedOut(es, now, resendTime, msg);
    EntryOfLife(es, ops, attempts, msg.address);
    OverdueEntry(now, resendTime);
  }

  lemma OverdueEntry(now: int, resendTime: int)
    ensures forall e: Entry :: NeedResend(e, now, resendTime) <==> e.resendCnt > 0 && now - e.lastSendTime > resendTime
  {
  }

  lemma EntryOfLife(es: seq<Entry>, ops: seq<Op>, attempts: int, address: nat)
    requires Tracks(es, Lives(ops, attempts), attempts)
    ensures LifeOf(ops, attempts, address).Under? <==> exists e :: e in es && e.msg.address == address
    ensures forall e :: e in es && e.msg.address == address ==> Tells(e, LifeOf(ops, attempts, address), attempts)
  {
    hide Lives, Tells;
    forall e | e in es && e.msg.address == address ensures Tells(e, LifeOf(ops, attempts, address), attempts) {
      var k :| 0 <= k < |es| && es[k] == e;
      assert Tells(es[k], Lives(ops, attempts)(es[k].msg.address), attempts);
    }
    TellsUnder(attempts);
    if Lives(ops, attempts)(address).Under? {
      assert HasAddress(es, address);
      var k :| 0 <= k < |es| && es[k].msg.address == address;
      assert es[k] in es;
    }
  }

  lemma TellsUnder(attempts: int)
    ensures forall e, life :: Tells(e, life, attempts) ==> life.Under?
  {
  }

  lemma HandedOut(es: seq<Entry>, now: int, resendTime: int, msg: MsgPtr)
    ensures HandsOut(Overdue(es, now, resendTime), msg)
      <==> exists e :: e in es && e.msg.address == msg.address && NeedResend(e, now, resendTime)
  {
    hide Overdue, NeedResend;
    OverdueExactly(es, now, resendTime);
    if e :| e in es && e.msg.address == msg.address && NeedResend(e, now, resendTime) {
      assert e.msg in Overdue(es, now, resendTime);
    }
  }
}
