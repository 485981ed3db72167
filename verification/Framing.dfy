// What a stream of received bytes means: a simple recursive parser, and why any series of
// whole messages comes out of it unchanged.
module Framing {
  import opened Bytes
  import opened Wire

  /** Messages found in the bytes, and the bytes left waiting for more. */
  datatype Parsed = Parsed(msgs: seq<Message>, rest: seq<byte>)

  /** Skip to the start mark, drop five bytes on a bad type, take a whole message, stop on a
      partial one. */
  function Parse(d: seq<byte>): Parsed
    decreases |d|
  {
    if d == [] then Parsed([], [])
    else if d[0] != MSG_START then Parse(d[1..])
    else if |d| < MIN_SIZE then Parsed([], d)
    else if GetType(d) == InvalidMsg then Parse(d[MIN_SIZE..])
    else
      var size := DataSize(GetType(d));
      if |d| < size then Parsed([], d)
      else
        SizeAtLeastHeader(GetType(d));
        var more := Parse(d[size..]);
        Parsed([Frame(d)] + more.msgs, more.rest)
  }

  lemma SizeAtLeastHeader(t: MsgType)
    ensures t != InvalidMsg && t != UndefinedMsg ==> DataSize(t) >= HEADER_SIZE
  {
  }

  /** The whole message at the front of the bytes. */
  function Frame(d: seq<byte>): Message
    requires GetType(d) != InvalidMsg && |d| >= DataSize(GetType(d))
  {
    FrameDecodes(d);
    Decode(d[..DataSize(GetType(d))]).value
  }

  lemma FrameDecodes(d: seq<byte>)
    requires GetType(d) != InvalidMsg && |d| >= DataSize(GetType(d))
    ensures Decode(d[..DataSize(GetType(d))]).Some?
  {
    var size := DataSize(GetType(d));
    SizeAtLeastHeader(GetType(d));
    assert d[..size][1..5] == d[1..5];
    DecodesByLength(d[..size]);
  }

  function EncodeAll(ms: seq<Message>): seq<byte> {
    if ms == [] then [] else Encode(ms[0]) + EncodeAll(ms[1..])
  }

  /** A whole message in front of other bytes is taken off unchanged, whatever its payload is. */
  lemma ParseOne(m: Message, rest: seq<byte>)
    ensures Parse(Encode(m) + rest) == Parsed([m] + Parse(rest).msgs, Parse(rest).rest)
  {
    hide Encode, Decode;
    var d := Encode(m) + rest;
    HeaderRead(m, rest);
    EncodedSize(m);
    SizeAtLeastHeader(TypeOf(m));
    var size := |Encode(m)|;
    assert d[..size] == Encode(m) && d[size..] == rest;
    DecodeEncode(m);
  }

  /** Any series of whole messages comes out unchanged and in order, and what follows is then
      read as if it had come alone. */
  lemma {:induction false} ParseAll(ms: seq<Message>, rest: seq<byte>)
    ensures Parse(EncodeAll(ms) + rest) == Parsed(ms + Parse(rest).msgs, Parse(rest).rest)
  {
    hide Encode, Parse;
    if ms == [] {
      assert EncodeAll(ms) + rest == rest;
    } else {
      ParseAll(ms[1..], rest);
      assert EncodeAll(ms) + rest == Encode(ms[0]) + (EncodeAll(ms[1..]) + rest);
      ParseOne(ms[0], EncodeAll(ms[1..]) + rest);
    }
  }

  /** A message that has not arrived in full waits as it is. */
  lemma PartialWaits(m: Message, k: nat)
    requires 0 < k < |Encode(m)|
    ensures Parse(Encode(m)[..k]) == Parsed([], Encode(m)[..k])
  {
    var d := Encode(m)[..k];
    HeaderRead(m, []);
    EncodedSize(m);
    assert Encode(m) + [] == Encode(m);
    assert d[0] == MSG_START;
    if k >= MIN_SIZE {
      assert d[1..5] == Encode(m)[1..5];
    }
    hide Encode;
  }

  /** Bytes without a start mark in front are skipped. */
  lemma {:induction false} NoiseSkipped(noise: seq<byte>, rest: seq<byte>)
    requires MSG_START !in noise
    ensures Parse(noise + rest) == Parse(rest)
  {
    hide GetType;
    if noise == [] {
      assert noise + rest == rest;
    } else {
      NoiseSkipped(noise[1..], rest);
      assert (noise + rest)[1..] == noise[1..] + rest;
    }
  }

  /** Something that may arrive: a byte that is no start mark, a start mark with the number of no
      type behind it, or a whole message. */
  datatype Piece = Noise(b: byte) | BadHead(head: seq<byte>) | Whole(msg: Message)

  predicate PieceOk(piece: Piece) {
    match piece
    case Noise(b) => b != MSG_START
    case BadHead(head) => |head| == 5 && head[0] == MSG_START && !(1 <= FromBytes(head[1..]) <= 14)
    case Whole(_) => true
  }

  function PieceBytes(piece: Piece): seq<byte> {
    match piece
    case Noise(b) => [b]
    case BadHead(head) => head
    case Whole(msg) => Encode(msg)
  }

  function BytesOfAll(pieces: seq<Piece>): seq<byte> {
    if pieces == [] then [] else PieceBytes(pieces[0]) + BytesOfAll(pieces[1..])
  }

  function MsgsOfAll(pieces: seq<Piece>): seq<Message> {
    if pieces == [] then []
    else (if pieces[0].Whole? then [pieces[0].msg] else []) + MsgsOfAll(pieces[1..])
  }

  lemma BadHeadSkipped(head: seq<byte>, rest: seq<byte>)
    requires PieceOk(BadHead(head))
    ensures Parse(head + rest) == Parse(rest)
  {
    var d := head + rest;
    assert d[1..5] == head[1..] && d[5..] == rest;
  }

  /** From any mixture of noise, bad heads and whole messages exactly the messages come out, in
      order; and what follows is read as if it had come alone. */
  lemma {:induction false} MessagesSurviveNoise(pieces: seq<Piece>, rest: seq<byte>)
    requires forall k :: 0 <= k < |pieces| ==> PieceOk(pieces[k])
    ensures Parse(BytesOfAll(pieces) + rest) == Parsed(MsgsOfAll(pieces) + Parse(rest).msgs, Parse(rest).rest)
  {
    hide Encode, Parse, FromBytes, PieceBytes, PieceOk;
    if pieces == [] {
      assert BytesOfAll(pieces) + rest == rest;
    } else {
      var more := BytesOfAll(pieces[1..]) + rest;
      MessagesSurviveNoise(pieces[1..], rest);
      assert BytesOfAll(pieces) + rest == PieceBytes(pieces[0]) + more;
      OnePiece(pieces[0], more);
      assert MsgsOfAll(pieces) + Parse(rest).msgs
        == (if pieces[0].Whole? then [pieces[0].msg] else []) + (MsgsOfAll(pieces[1..]) + Parse(rest).msgs);
    }
  }

  lemma OnePiece(piece: Piece, more: seq<byte>)
    requires PieceOk(piece)
    ensures Parse(PieceBytes(piece) + more)
      == Parsed((if piece.Whole? then [piece.msg] else []) + Parse(more).msgs, Parse(more).rest)
  {
    hide Encode, Parse, FromBytes;
    match piece
    case Noise(b) => NoiseSkipped([b], more);
    case BadHead(head) => BadHeadSkipped(head, more);
    case Whole(msg) => ParseOne(msg, more);
  }

  // ---------- resynchronising ----------

  /** The bytes from the first start mark on that is followed by a good type or by too few
      bytes to tell. */
  function Resync(d: seq<byte>): seq<byte>
    decreases |d|
  {
    if d == [] then []
    else if d[0] != MSG_START then Resync(d[1..])
    else if |d| < MIN_SIZE then d
    else if GetType(d) == InvalidMsg then Resync(d[MIN_SIZE..])
    else d
  }

  lemma {:induction false} ParseResync(d: seq<byte>)
    ensures Parse(Resync(d)) == Parse(d)
    ensures |Resync(d)| <= |d|
    ensures Resync(Resync(d)) == Resync(d)
    ensures Resync(d) != [] ==> Resync(d)[0] == MSG_START && (|Resync(d)| >= MIN_SIZE ==> GetType(Resync(d)) != InvalidMsg)
    decreases |d|
  {
    hide GetType, Frame;
    if d == [] {
    } else if d[0] != MSG_START {
      ParseResync(d[1..]);
    } else if |d| >= MIN_SIZE && GetType(d) == InvalidMsg {
      ParseResync(d[MIN_SIZE..]);
    }
  }

  lemma {:induction false} ResyncSkips(d: seq<byte>, k: nat)
    requires k <= |d| && forall j :: 0 <= j < k ==> d[j] != MSG_START
    ensures Resync(d) == Resync(d[k..])
  {
    hide GetType;
    if k > 0 {
      ResyncSkips(d[1..], k - 1);
      assert d[1..][k - 1..] == d[k..];
    } else {
      assert d[0..] == d;
    }
  }
}
