// The receive buffer: bytes are appended at its end and messages are cut off its front.
module MsgBuffers {
  import opened Options
  import opened Bytes
  import opened Wire
  import opened Framing

  const BUFF_SIZE: nat := 4096

  datatype BuffError = EmptyBuff | BuffOk | InvalidFd | FullBuff | ReadErr | ConnBroken

  /** What a read from a connection comes back with. */
  datatype Arrival = Failed | Arrived(bytes: seq<byte>)

  /** The first position of the start mark from start on, or the end. */
  function MarkFrom(d: seq<byte>, start: nat): (pos: nat)
    requires start <= |d|
    ensures start <= pos <= |d|
    ensures pos < |d| ==> d[pos] == MSG_START
    ensures forall j :: start <= j < pos ==> d[j] != MSG_START
    decreases |d| - start
  {
    if start == |d| || d[start] == MSG_START then start else MarkFrom(d, start + 1)
  }

  class MsgBuffer {
    const buf: array<byte>
    var freePos: nat
    var toExtractMsg: array?<byte>
    var isTooSmall: bool
    var readed: nat
    var msgQueue: seq<Message>

    ghost predicate Valid()
      reads this
    {
      buf.Length == BUFF_SIZE && freePos <= BUFF_SIZE && toExtractMsg != buf
    }

    /** The received bytes that are still in the buffer. */
    ghost function Data(): seq<byte>
      requires Valid()
      reads this, buf
    {
      buf[..freePos]
    }

    constructor ()
      ensures Valid() && fresh(buf) && Data() == [] && toExtractMsg == null && readed == 0 && msgQueue == []
    {
      buf := new byte[BUFF_SIZE](_ => 0);
      freePos, toExtractMsg, isTooSmall, readed, msgQueue := 0, null, true, 0, [];
    }

    /** Takes the oldest message that has been put together. */
    method Extract() returns (msg: Option<Message>)
      modifies this`msgQueue
      ensures old(msgQueue) == [] ==> msg == None && msgQueue == []
      ensures old(msgQueue) != [] ==> msg == Some(old(msgQueue)[0]) && msgQueue == old(msgQueue)[1..]
    {
      if |msgQueue| == 0 {
        return None;
      }
      msg := Some(msgQueue[0]);
      msgQueue := msgQueue[1..];
    }

    /** Drops the first bytes. */
    method DropFront(n: nat)
      requires Valid() && n <= freePos
      modifies this`freePos, buf
      ensures Valid() && Data() == old(Data())[n..]
    {
      var size := freePos - n;
      MoveToStart(buf, n, size);
      freePos := size;
    }

    method GetMsgType() returns (t: MsgType)
      requires Valid()
      ensures freePos < MIN_SIZE ==> t == UndefinedMsg
      ensures freePos >= MIN_SIZE ==> t == GetType(Data()) && t != UndefinedMsg
    {
      if freePos < MIN_SIZE {
        return UndefinedMsg;
      }
      t := GetType(buf[..freePos]);
    }

    /** The position of the first start mark from start on, or -1; a negative start counts as 0. */
    method StartMarkPos(start: int) returns (pos: int)
      requires Valid()
      ensures var from := if start < 0 then 0 else start;
        pos == if from >= freePos || MarkFrom(Data(), from) == freePos then -1 else MarkFrom(Data(), from)
    {
      var from := if start < 0 then 0 else start;
      pos := from;
      while pos < freePos
        invariant from <= freePos ==> from <= pos <= freePos && MarkFrom(Data(), from) == MarkFrom(Data(), pos)
        invariant from > freePos ==> pos == from
      {
        if buf[pos] == MSG_START {
          return;
        }
        pos := pos + 1;
      }
      pos := -1;
    }

    method MoveMsgToStart()
      requires Valid()
      modifies this`freePos, buf
      ensures Valid() && Data() == Resync(old(Data()))
    {
      hide Resync;
      if freePos == 0 {
        ParseNothing();
        assert Data() == [];
        return;
      }
      ghost var d := Data();
      while true
        invariant Valid() && Resync(Data()) == Resync(d)
        decreases freePos
      {
        ghost var before := Data();
        var idx := 0;
        while idx < freePos && buf[idx] != MSG_START
          invariant idx <= freePos && Data() == before
          invariant forall j :: 0 <= j < idx ==> before[j] != MSG_START
        {
          idx := idx + 1;
        }
        ResyncSkips(before, idx);
        if idx == freePos {
          freePos := 0;
          ParseNothing();
          assert before[idx..] == [];
          return;
        }
        if idx != 0 {
          DropFront(idx);
        }
        ResyncAtMark(Data());
        var t := GetMsgType();
        if t == UndefinedMsg {
          return;
        } else if t == InvalidMsg {
          DropFront(MIN_SIZE);
        } else {
          break;
        }
      }
    }

    /** Finds the next message and makes room for it; the result says how many bytes of it are
        there, and is 0 when nothing is left. */
    method NewReading() returns (toWrite: nat)
      requires Valid() && toExtractMsg == null && freePos > 0
      modifies this`freePos, this`toExtractMsg, this`isTooSmall, buf
      ensures Valid() && Data() == Resync(old(Data()))
      ensures toWrite == 0 <==> Data() == []
      ensures toWrite == 0 ==> toExtractMsg == null
      ensures toWrite > 0 ==> GoodFront(Data()) && toWrite == FrontSize(Data()) && toExtractMsg != null && fresh(toExtractMsg) && toExtractMsg.Length >= toWrite
    {
      hide Resync, DataSize, GetType, FrontSize;
      var size := -1;
      ghost var d := Data();
      while size == -1 && freePos > 0
        invariant Valid() && Resync(Data()) == Resync(d) && size >= -1
        invariant toExtractMsg == null
        invariant size != -1 ==> GoodFront(Data()) && FrontSize(Data()) == if freePos > size then size else freePos
        decreases freePos, if size == -1 then 1 else 0
      {
        ghost var before := Data();
        if buf[0] != MSG_START {
          ResyncShrinks(before);
          MoveMsgToStart();
        } else {
          var t := GetMsgType();
          if t == UndefinedMsg {
            var next := StartMarkPos(1);
            size := if next == -1 then freePos else next;
            isTooSmall := true;
            UnknownFront(before);
          } else if t == InvalidMsg {
            ResyncShrinks(before);
            MoveMsgToStart();
          } else {
            size := DataSize(t);
            KnownFront(before);
          }
        }
      }
      if size == -1 {
        ParseNothing();
        assert Data() == [];
        return 0;
      }
      GoodFrontStays(Data());
      toExtractMsg := new byte[size](_ => 0);
      toWrite := if freePos > size then size else freePos;
    }

    /** Moves the first bytes into the place prepared for them; when they are a whole message,
        the message is queued and the place is given up. */
    method TakeFront(toWrite: nat) returns (taken: bool)
      requires Valid() && toExtractMsg != null && readed == 0 && toWrite <= freePos && toWrite <= toExtractMsg.Length
      modifies this, buf, toExtractMsg
      ensures Valid() && Data() == old(Data())[toWrite..]
      ensures taken <==> Decode(old(Data())[..toWrite]).Some?
      ensures taken ==>
        msgQueue == old(msgQueue) + [Decode(old(Data())[..toWrite]).value] && toExtractMsg == null && readed == 0
      ensures !taken ==>
        msgQueue == old(msgQueue) && toExtractMsg == old(toExtractMsg) && readed == toWrite
        && toExtractMsg[..readed] == old(Data())[..toWrite]
    {
      hide Decode;
      ghost var r := Data();
      var _ := PutBytes(toExtractMsg, readed, buf[..toWrite]);
      assert toExtractMsg[..toWrite] == r[..toWrite];
      DropFront(toWrite);
      readed := readed + toWrite;
      var tmp := Decode(toExtractMsg[..readed]);
      taken := tmp.Some?;
      if taken {
        msgQueue := msgQueue + [tmp.value];
        toExtractMsg := null;
        readed := 0;
      }
    }

    /** Deals with one message at the front; more says whether there may be another. */
    method GainOne() returns (more: bool, ghost got: seq<Message>)
      requires Valid() && toExtractMsg == null && readed == 0 && freePos > 0
      modifies this, buf
      ensures Valid() && msgQueue == old(msgQueue) + got
      ensures more ==> toExtractMsg == null && readed == 0 && freePos < old(freePos)
      ensures more ==> Parse(old(Data())) == Parsed(got + Parse(Data()).msgs, Parse(Data()).rest)
      ensures !more ==> toExtractMsg != null && fresh(toExtractMsg) && readed <= toExtractMsg.Length
      ensures !more ==> got == [] && Parse(old(Data())) == Parsed([], toExtractMsg[..readed] + Data())
    {
      hide Parse, Resync, DataSize, GetType, Decode, FrontSize, Frame, GoodFront;
      ghost var before := Data();
      got := [];
      ParseResync(before);
      ParseNothing();
      var toWrite := NewReading();
      ghost var r := Data();
      if toWrite == 0 {
        return true, got;
      }
      FrontDecodes(r);
      more := TakeFront(toWrite);
      if more {
        got := [Decode(r[..toWrite]).value];
      } else {
        assert r == r[..toWrite] + r[toWrite..];
      }
    }

    /** Cuts all whole messages off the front of the received bytes. Nothing may be pending from
        an earlier read. */
    method GainMsg() returns (err: BuffError)
      requires Valid() && toExtractMsg == null && readed == 0
      modifies this, buf
      ensures Valid() && msgQueue == old(msgQueue) + Parse(old(Data())).msgs
      ensures toExtractMsg == null ==> Data() == [] && Parse(old(Data())).rest == []
      ensures toExtractMsg != null ==> fresh(toExtractMsg) && readed <= toExtractMsg.Length
      ensures toExtractMsg != null ==> toExtractMsg[..readed] + Data() == Parse(old(Data())).rest
      ensures err == EmptyBuff <==> Resync(old(Data())) == [] && (old(Data()) == [] || old(Data())[0] != MSG_START)
    {
      hide Parse, Resync, DataSize, GetType;
      isTooSmall := false;
      ghost var d := Data();
      ghost var queue := msgQueue;
      ghost var done: seq<Message> := [];
      ParseResync(d);
      ParseNothing();
      if freePos == 0 || buf[0] != MSG_START {
        MoveMsgToStart();
        if freePos == 0 {
          assert Data() == [];
          return EmptyBuff;
        }
      }
      err := BuffOk;
      while freePos > 0
        invariant Valid() && toExtractMsg == null && readed == 0
        invariant msgQueue == queue + done
        invariant Parse(d) == Parsed(done + Parse(Data()).msgs, Parse(Data()).rest)
        decreases freePos
      {
        ghost var got;
        var more;
        more, got := GainOne();
        done := done + got;
        if !more {
          return;
        }
      }
      assert Data() == [];
    }

    /** A read: what arrives, never more than there is room for, goes to the end of the buffer,
        and whole messages are cut off. Nothing changes if nothing can be read. */
    method ReadMsg(fd: int, arrival: Arrival) returns (err: BuffError)
      requires Valid() && toExtractMsg == null && readed == 0
      requires arrival.Arrived? ==> |arrival.bytes| <= BUFF_SIZE - freePos
      modifies this, buf
      ensures err == if fd < 0 then InvalidFd else if old(freePos) == BUFF_SIZE then FullBuff
        else if arrival.Failed? then ReadErr else if arrival.bytes == [] then ConnBroken else BuffOk
      ensures Valid()
      ensures err != BuffOk ==> Data() == old(Data()) && msgQueue == old(msgQueue) && toExtractMsg == null && readed == 0
      ensures err == BuffOk ==> msgQueue == old(msgQueue) + Parse(old(Data()) + arrival.bytes).msgs
      ensures err == BuffOk && toExtractMsg == null ==> Data() == [] && Parse(old(Data()) + arrival.bytes).rest == []
      ensures err == BuffOk && toExtractMsg != null ==> fresh(toExtractMsg) && readed <= toExtractMsg.Length
      ensures err == BuffOk && toExtractMsg != null ==> toExtractMsg[..readed] + Data() == Parse(old(Data()) + arrival.bytes).rest
    {
      hide Parse;
      if fd < 0 {
        return InvalidFd;
      }
      if BUFF_SIZE - freePos <= 0 {
        return FullBuff;
      }
      if arrival.Failed? {
        return ReadErr;
      }
      if |arrival.bytes| == 0 {
        return ConnBroken;
      }
      var next := PutBytes(buf, freePos, arrival.bytes);
      freePos := next;
      assert Data() == old(Data()) + arrival.bytes;
      var _ := GainMsg();
      err := BuffOk;
    }
  }

  /** How many bytes at the front belong to the message that starts there: all of a whole
      message, or what there is of a partial one up to the next mark if its type is unknown. */
  function FrontSize(d: seq<byte>): nat {
    if d == [] then 0
    else if |d| < MIN_SIZE then MarkFrom(d, 1)
    else if |d| < DataSize(GetType(d)) then |d|
    else DataSize(GetType(d))
  }

  lemma ParseNothing()
    ensures Parse([]) == Parsed([], []) && Resync([]) == []
  {
  }

  /** At a start mark resynchronising either stops or drops five bytes. */
  lemma ResyncAtMark(d: seq<byte>)
    requires d != [] && d[0] == MSG_START
    ensures |d| < MIN_SIZE || GetType(d) != InvalidMsg ==> Resync(d) == d
    ensures |d| >= MIN_SIZE && GetType(d) == InvalidMsg ==> Resync(d) == Resync(d[MIN_SIZE..])
  {
    hide GetType;
  }

  /** Away from a good front, resynchronising makes the bytes fewer. */
  lemma ResyncShrinks(d: seq<byte>)
    requires d != [] && (d[0] != MSG_START || (|d| >= MIN_SIZE && GetType(d) == InvalidMsg))
    ensures |Resync(d)| < |d| && Resync(Resync(d)) == Resync(d)
  {
    hide GetType;
    ParseResync(d);
    if d[0] != MSG_START {
      ParseResync(d[1..]);
    } else {
      ParseResync(d[MIN_SIZE..]);
    }
  }

  /** Bytes that begin with a start mark and a good type, or too few bytes to tell. */
  ghost predicate GoodFront(d: seq<byte>) {
    d != [] && d[0] == MSG_START && (|d| >= MIN_SIZE ==> GetType(d) != InvalidMsg)
  }

  lemma UnknownFront(d: seq<byte>)
    requires d != [] && d[0] == MSG_START && |d| < MIN_SIZE
    ensures GoodFront(d) && FrontSize(d) == MarkFrom(d, 1)
  {
  }

  lemma KnownFront(d: seq<byte>)
    requires |d| >= MIN_SIZE && d[0] == MSG_START && GetType(d) != InvalidMsg
    ensures GoodFront(d) && DataSize(GetType(d)) > 0
    ensures FrontSize(d) == if |d| > DataSize(GetType(d)) then DataSize(GetType(d)) else |d|
  {
    SizeAtLeastHeader(GetType(d));
  }

  lemma GoodFrontStays(d: seq<byte>)
    requires GoodFront(d)
    ensures Resync(d) == d && 0 < FrontSize(d) <= |d|
  {
    hide GetType, DataSize;
    FrontNotEmpty(d);
  }

  lemma FrontNotEmpty(d: seq<byte>)
    requires GoodFront(d)
    ensures 0 < FrontSize(d) <= |d|
  {
    SizeAtLeastHeader(GetType(d));
  }

  /** The front of resynchronised bytes decodes exactly when it is a whole message, and the
      parser then goes on behind it. */
  lemma FrontDecodes(r: seq<byte>)
    requires GoodFront(r)
    ensures FrontSize(r) <= |r|
    ensures match Decode(r[..FrontSize(r)])
      case Some(m) => Parse(r) == Parsed([m] + Parse(r[FrontSize(r)..]).msgs, Parse(r[FrontSize(r)..]).rest)
      case None => Parse(r) == Parsed([], r)
  {
    hide Decode, DataSize;
    FrontNotEmpty(r);
    DecodesByLength(r[..FrontSize(r)]);
    if |r| >= MIN_SIZE {
      if |r| >= DataSize(GetType(r)) {
        FrameDecodes(r);
      } else {
        assert r[..|r|] == r;
      }
    }
  }
}
