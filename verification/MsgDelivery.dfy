// The delivery control object: a chain of items headed by the one added last.
module MsgDelivery {
  import opened Options
  import opened LinkedLists
  import opened DeliveryRules

  class ListItem {
    const msg: MsgPtr
    var lastSendTime: int
    var resendCnt: int
    var next: ListItem?

    constructor (msg: MsgPtr, now: int, cnt: int, next: ListItem?)
      ensures this.msg == msg && lastSendTime == now && resendCnt == cnt && this.next == next
    {
      this.msg := msg;
      lastSendTime, resendCnt, this.next := now, cnt, next;
    }

    ghost function Value(): Entry
      reads this
    {
      Entry(msg, lastSendTime, resendCnt)
    }
  }

  ghost function Values(chain: seq<ListItem>): (es: seq<Entry>)
    reads chain
    ensures |es| == |chain| && forall k :: 0 <= k < |es| ==> es[k] == chain[k].Value()
  {
    seq(|chain|, k requires 0 <= k < |chain| reads chain => chain[k].Value())
  }

  lemma ValuesFront(item: ListItem, rest: seq<ListItem>)
    ensures Values([item] + rest) == [Entry(item.msg, item.lastSendTime, item.resendCnt)] + Values(rest)
  {
  }

  lemma DistinctAdd(es: seq<Entry>, e: Entry)
    requires DistinctMsgs(es) && !Controls(es, e.msg)
    ensures DistinctMsgs([e] + es)
  {
  }

  /** Decreasing changes the one entry of the message, if there is one. */
  lemma {:induction false} DecreaseOne(es: seq<Entry>, msg: MsgPtr, now: int, k: nat)
    requires DistinctMsgs(es) && k <= |es| && (k < |es| ==> es[k].msg.address == msg.address)
    requires forall j :: 0 <= j < k ==> es[j].msg.address != msg.address
    ensures Decreased(es, msg, now) == if k < |es| then es[k := Entry(es[k].msg, now, es[k].resendCnt - 1)] else es
    ensures DistinctMsgs(Decreased(es, msg, now))
  {
    if k > 0 {
      DecreaseOne(es[1..], msg, now, k - 1);
    }
  }

  lemma DistinctRemove(es: seq<Entry>, k: nat)
    requires DistinctMsgs(es) && k < |es|
    ensures DistinctMsgs(es[..k] + es[k + 1..])
  {
  }

  class MsgDeliveryControl {
    var last: ListItem?
    var size: nat
    const resendCnt: int
    const resendTime: int
    ghost var chain: seq<ListItem>

    /** The items are pairwise different and linked in order, so the chain has no cycle. */
    ghost predicate Linked()
      reads this, chain
    {
      && size == |chain|
      && (forall i, j :: 0 <= i < j < |chain| ==> chain[i] != chain[j])
      && (forall i :: 0 <= i < |chain| - 1 ==> chain[i].next == chain[i + 1])
      && (if chain == [] then last == null else last == chain[0] && chain[|chain| - 1].next == null)
    }

    /** Moreover no two items hold the same message. */
    ghost predicate Valid()
      reads this, chain
    {
      Linked() && DistinctMsgs(Contents())
    }

    ghost function Contents(): seq<Entry>
      reads this, chain
    {
      Values(chain)
    }

    constructor (pResend: int, pResendTime: int)
      ensures Valid() && Contents() == [] && chain == [] && resendCnt == pResend && resendTime == pResendTime
    {
      last, size, chain := null, 0, [];
      resendCnt, resendTime := pResend, pResendTime;
    }

    /** The item of the message, and its place in the chain. */
    method Find(msg: MsgPtr) returns (item: ListItem?, ghost k: nat)
      requires Valid()
      ensures k <= |chain| && item == if k < |chain| then chain[k] else null
      ensures k < |chain| ==> chain[k].msg.address == msg.address
      ensures forall j :: 0 <= j < k ==> chain[j].msg.address != msg.address
    {
      item := last;
      k := 0;
      while item != null
        invariant k <= |chain| && item == if k < |chain| then chain[k] else null
        invariant forall j :: 0 <= j < k ==> chain[j].msg.address != msg.address
        decreases |chain| - k
      {
        if item.msg.address == msg.address {
          return;
        }
        item := item.next;
        k := k + 1;
      }
    }

    /** The first item whose message carries the number, and its place in the chain. */
    method FindId(id: int) returns (item: ListItem?, ghost k: nat)
      requires Valid()
      ensures k <= |chain| && item == if k < |chain| then chain[k] else null
      ensures k < |chain| ==> chain[k].msg.id == id
      ensures forall j :: 0 <= j < k ==> chain[j].msg.id != id
    {
      item := last;
      k := 0;
      while item != null
        invariant k <= |chain| && item == if k < |chain| then chain[k] else null
        invariant forall j :: 0 <= j < k ==> chain[j].msg.id != id
        decreases |chain| - k
      {
        if item.msg.id == id {
          return;
        }
        item := item.next;
        k := k + 1;
      }
    }

    method UnderControl(msg: MsgPtr) returns (r: bool)
      requires Valid()
      ensures r <==> Controls(Contents(), msg)
    {
      var item, k := Find(msg);
      ControlsAt(Contents(), msg, k);
      r := item != null;
    }

    /** Puts a message that is not there yet in front. */
    method Add(msg: Option<MsgPtr>, now: int)
      requires Valid()
      modifies this
      ensures Valid() && Contents() == if msg.Some? then Added(old(Contents()), msg.value, now, resendCnt) else old(Contents())
    {
      if msg.None? {
        return;
      }
      var there := UnderControl(msg.value);
      if there {
        return;
      }
      hide DistinctMsgs;
      DistinctAdd(Contents(), Entry(msg.value, now, resendCnt));
      LinkFirst(msg.value, now);
    }

    method LinkFirst(msg: MsgPtr, now: int)
      requires Linked()
      modifies this
      ensures Linked() && Contents() == [Entry(msg, now, resendCnt)] + old(Contents())
      ensures forall n :: n in chain ==> n in old(chain) || fresh(n)
    {
      hide Values, ListItem.Value;
      var tmp := new ListItem(msg, now, resendCnt, last);
      ValuesFront(tmp, chain);
      last := tmp;
      size := size + 1;
      chain := [tmp] + chain;
    }

    method UnlinkFirst()
      requires Linked() && last != null
      modifies this
      ensures Linked() && chain == old(chain)[1..]
    {
      last := last.next;
      size := size - 1;
      chain := chain[1..];
    }

    method UnlinkAfter(prev: ListItem, item: ListItem, ghost k: nat)
      requires Linked() && 1 <= k < |chain| && prev == chain[k - 1] && item == chain[k]
      modifies this, prev
      ensures Linked() && chain == old(chain)[..k] + old(chain)[k + 1..]
      ensures item.next == old(item.next) && Values(old(chain)) == old(Values(chain))
    {
      prev.next := item.next;
      size := size - 1;
      chain := chain[..k] + chain[k + 1..];
    }

    /** Takes one item out of the chain. */
    method RemoveMsg(item: ListItem, ghost k: nat)
      requires Valid() && k < |chain| && item == chain[k]
      modifies this, chain
      ensures Valid() && chain == old(chain)[..k] + old(chain)[k + 1..]
      ensures Contents() == old(Contents())[..k] + old(Contents())[k + 1..]
      ensures item.next == old(item.next)
    {
      hide DistinctMsgs;
      ghost var es := Contents();
      DistinctRemove(es, k);
      if item == last {
        UnlinkFirst();
      } else if last.next == item {
        assert chain[0].next == chain[1];
        UnlinkAfter(last, item, k);
      } else {
        var prev := last;
        ghost var j := 0;
        while prev.next != item
          invariant 0 <= j < k && prev == chain[j]
          decreases k - j
        {
          prev := prev.next;
          j := j + 1;
        }
        assert chain[j].next == chain[j + 1];
        UnlinkAfter(prev, item, k);
      }
      assert Contents() == es[..k] + es[k + 1..];
    }

    method Decrease(msg: MsgPtr, now: int)
      requires Valid()
      modifies chain
      ensures Valid() && Contents() == Decreased(old(Contents()), msg, now)
    {
      hide DistinctMsgs, Decreased;
      ghost var es := Contents();
      var item, k := Find(msg);
      DecreaseOne(es, msg, now, k);
      if item != null {
        item.lastSendTime := now;
        item.resendCnt := item.resendCnt - 1;
        assert Contents() == es[k := Entry(es[k].msg, now, es[k].resendCnt - 1)];
      }
    }

    method RemoveByMsg(msg: MsgPtr) returns (r: bool)
      requires Valid()
      modifies this, chain
      ensures Valid() && Contents() == WithoutMsg(old(Contents()), msg)
      ensures r <==> Controls(old(Contents()), msg)
    {
      hide DistinctMsgs;
      ghost var es := Contents();
      var item, k := Find(msg);
      WithoutMsgAt(es, msg, k);
      ControlsAt(es, msg, k);
      if item != null {
        RemoveMsg(item, k);
        return true;
      }
      r := false;
    }

    method RemoveById(id: int) returns (r: bool)
      requires Valid()
      modifies this, chain
      ensures Valid() && Contents() == WithoutId(old(Contents()), id)
      ensures r <==> exists j :: 0 <= j < |old(Contents())| && old(Contents())[j].msg.id == id
    {
      hide DistinctMsgs;
      ghost var es := Contents();
      var item, k := FindId(id);
      WithoutIdAt(es, id, k);
      if item != null {
        RemoveMsg(item, k);
        return true;
      }
      r := false;
    }

    /** A receipt removes the message whose number it confirms. */
    method ProcessCheck(reqMsgId: int) returns (r: bool)
      requires Valid()
      modifies this, chain
      ensures Valid() && Contents() == WithoutId(old(Contents()), reqMsgId)
      ensures r <==> exists j :: 0 <= j < |old(Contents())| && old(Contents())[j].msg.id == reqMsgId
    {
      r := RemoveById(reqMsgId);
    }

    /** Queues the overdue messages for sending again and gives up the exhausted ones. */
    method Resend(ret: List<MsgPtr>, curTime: int)
      requires Valid() && ret.Valid()
      modifies this, chain, ret, ret.last
      ensures Valid() && ret.Valid()
      ensures ret.Contents() == old(ret.Contents()) + Overdue(old(Contents()), curTime, resendTime)
      ensures Contents() == Kept(old(Contents()))
    {
      QueueOverdue(ret, curTime);
      RemoveAllExhausted();
    }

    lemma NextAt(k: nat)
      requires Linked() && k < |chain|
      ensures chain[k].next == if k + 1 < |chain| then chain[k + 1] else null
      ensures Contents()[k] == Entry(chain[k].msg, chain[k].lastSendTime, chain[k].resendCnt)
      ensures |Contents()| == |chain|
    {
    }

    lemma Head()
      requires Linked()
      ensures last == if |chain| > 0 then chain[0] else null
    {
    }

    method QueueOverdue(ret: List<MsgPtr>, curTime: int)
      requires Valid() && ret.Valid()
      modifies ret, ret.last
      ensures ret.Valid() && ret.Contents() == old(ret.Contents()) + Overdue(Contents(), curTime, resendTime)
    {
      hide Linked, List.Valid, DistinctMsgs, Overdue, NeedResend;
      ghost var es := Contents();
      ghost var queue := ret.Contents();
      Head();
      var tmp := last;
      ghost var k := 0;
      assert es[0..] == es && queue + [] == queue;
      while tmp != null
        invariant Valid() && k <= |chain| && tmp == if k < |chain| then chain[k] else null
        invariant Contents() == es
        invariant ret.Valid() && (ret.last == old(ret.last) || fresh(ret.last))
        invariant ret.Contents() + Overdue(es[k..], curTime, resendTime) == queue + Overdue(es, curTime, resendTime)
        decreases |chain| - k
      {
        NextAt(k);
        OverdueNext(es, k, curTime, resendTime);
        if tmp.resendCnt > 0 && curTime - tmp.lastSendTime > resendTime {
          ret.Put(Some(tmp.msg));
        }
        tmp := tmp.next;
        k := k + 1;
      }
      OverdueNone(es[k..], curTime, resendTime);
    }

    method RemoveAllExhausted()
      requires Valid()
      modifies this, chain
      ensures Valid() && Contents() == Kept(old(Contents()))
    {
      hide Linked, DistinctMsgs, Kept, ListItem.Value, Values;
      Head();
      ghost var es := Contents();
      assert Kept([]) == [] by { KeptNone(); }
      assert es[..0] == [] && es[0..] == es;
      var tmp := last;
      // The items before tmp are kept in chain[..k]; tmp and those behind are untouched.
      ghost var k, j := 0, 0;
      while tmp != null
        invariant Valid() && k <= |chain| && tmp == if k < |chain| then chain[k] else null
        invariant forall i :: 0 <= i < |chain| ==> chain[i] in old(chain)
        invariant j <= |es| && Contents()[k..] == es[j..]
        invariant Contents()[..k] == Kept(es[..j])
        decreases |chain| - k
      {
        ghost var before := Contents();
        NextAt(k);
        KeptStep(es, before, k, j);
        var next := tmp.next;
        if tmp.resendCnt <= 0 {
          RemoveMsg(tmp, k);
        } else {
          k := k + 1;
        }
        tmp := next;
        j := j + 1;
      }
      assert es[..j] == es && Contents()[..k] == Contents();
    }
  }

  /** The list before and after dealing with its entry k, which is entry j of the original. */
  lemma KeptStep(es: seq<Entry>, before: seq<Entry>, k: nat, j: nat)
    requires j < |es| && k <= |before| && before[k..] == es[j..] && before[..k] == Kept(es[..j])
    ensures k < |before| && before[k] == es[j]
    ensures es[j].resendCnt <= 0 ==>
      var after := before[..k] + before[k + 1..]; after[..k] == Kept(es[..j + 1]) && after[k..] == es[j + 1..]
    ensures es[j].resendCnt > 0 ==> before[..k + 1] == Kept(es[..j + 1]) && before[k + 1..] == es[j + 1..]
  {
    KeptNext(es, j);
    assert before[k..][0] == es[j..][0];
    assert before[k..][1..] == es[j..][1..];
    assert before[..k + 1] == before[..k] + [before[k]];
  }

  lemma OverdueNext(es: seq<Entry>, k: nat, now: int, resendTime: int)
    requires k < |es|
    ensures Overdue(es[k..], now, resendTime)
      == (if es[k].resendCnt > 0 && now - es[k].lastSendTime > resendTime then [es[k].msg] else []) + Overdue(es[k + 1..], now, resendTime)
  {
    assert es[k..][0] == es[k] && es[k..][1..] == es[k + 1..];
  }

  lemma OverdueNone(es: seq<Entry>, now: int, resendTime: int)
    ensures es == [] ==> Overdue(es, now, resendTime) == []
  {
  }

  lemma KeptNone()
    ensures Kept([]) == []
  {
  }

  lemma {:induction false} KeptNext(es: seq<Entry>, j: nat)
    requires j < |es|
    ensures Kept(es[..j + 1]) == Kept(es[..j]) + if es[j].resendCnt > 0 then [es[j]] else []
  {
    if j == 0 {
      assert es[..1] == [es[0]] && es[..0] == [] && es[..1][1..] == [];
    } else {
      KeptNext(es[1..], j - 1);
      assert es[..j + 1][1..] == es[1..][..j] && es[..j][1..] == es[1..][..j - 1];
    }
  }
}
