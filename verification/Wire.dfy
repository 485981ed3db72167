// The wire format: fourteen kinds of messages behind a common header.
module Wire {
  import opened Geometry
  import opened Fleets
  import opened Options
  import opened Bytes

  const MSG_START: byte := 96
  const HEADER_SIZE: int := 13
  const MIN_SIZE: int := 5
  const TEXT_SIZE: int := 512
  // The cells of a field, FLD_SZ rows of FLD_SZ.
  const CELL_COUNT: int := 100

  datatype MsgType =
    | InvalidMsg | GameStateMsg | GameSessionReqMsg | GameFieldMsg | StartFieldReqMsg | StopPreparationMsg
    | StartTurnMsg | StopTurnMsg | GameMoveMsg | ServerConnStatusReqMsg | ServerConnStatusMsg | ServerConnReqMsg
    | ReceiptMsg | InfoMsg | ErrorMsg | UndefinedMsg

  function TypeCode(t: MsgType): (n: nat)
    ensures n < 16
  {
    match t
    case InvalidMsg => 0
    case GameStateMsg => 1
    case GameSessionReqMsg => 2
    case GameFieldMsg => 3
    case StartFieldReqMsg => 4
    case StopPreparationMsg => 5
    case StartTurnMsg => 6
    case StopTurnMsg => 7
    case GameMoveMsg => 8
    case ServerConnStatusReqMsg => 9
    case ServerConnStatusMsg => 10
    case ServerConnReqMsg => 11
    case ReceiptMsg => 12
    case InfoMsg => 13
    case ErrorMsg => 14
    case UndefinedMsg => 15
  }

  /** The message type with the code; every other number, and the code of the undefined type,
      stands for no message. */
  function TypeOfCode(n: nat): MsgType {
    match n
    case 1 => GameStateMsg
    case 2 => GameSessionReqMsg
    case 3 => GameFieldMsg
    case 4 => StartFieldReqMsg
    case 5 => StopPreparationMsg
    case 6 => StartTurnMsg
    case 7 => StopTurnMsg
    case 8 => GameMoveMsg
    case 9 => ServerConnStatusReqMsg
    case 10 => ServerConnStatusMsg
    case 11 => ServerConnReqMsg
    case 12 => ReceiptMsg
    case 13 => InfoMsg
    case 14 => ErrorMsg
    case _ => InvalidMsg
  }

  type Int64 = v: int | FitsSigned(v, 8)
  type Int32 = v: int | FitsSigned(v, 4)
  type UInt32 = v: int | 0 <= v < Pow256(4)
  type Text = s: seq<byte> | |s| == TEXT_SIZE witness seq(TEXT_SIZE, _ => 0)

  datatype Body =
    | GameState(state: UInt32)
    | GameSessionReq
    | GameField(field: Board, isOwnField: bool)
    | StartFieldReq(endTime: Int64)
    | StopPreparation
    | StartTurn(turnEnd: Int64, isOwnTurn: bool)
    | StopTurn(isOwn: bool)
    | GameMove(x: Int32, y: Int32)
    | ServerConnStatusReq
    | ServerConnStatus(connected: bool)
    | ServerConnReq
    | Receipt(reqMsgId: Int64)
    | Info(info: Text)
    | Error(error: Text)

  datatype Message = Message(id: Int64, body: Body)

  function TypeOf(m: Message): MsgType {
    match m.body
    case GameState(_) => GameStateMsg
    case GameSessionReq => GameSessionReqMsg
    case GameField(_, _) => GameFieldMsg
    case StartFieldReq(_) => StartFieldReqMsg
    case StopPreparation => StopPreparationMsg
    case StartTurn(_, _) => StartTurnMsg
    case StopTurn(_) => StopTurnMsg
    case GameMove(_, _) => GameMoveMsg
    case ServerConnStatusReq => ServerConnStatusReqMsg
    case ServerConnStatus(_) => ServerConnStatusMsg
    case ServerConnReq => ServerConnReqMsg
    case Receipt(_) => ReceiptMsg
    case Info(_) => InfoMsg
    case Error(_) => ErrorMsg
  }

  /** The table of encoded sizes. */
  function DataSize(t: MsgType): nat {
    match t
    case InvalidMsg => 0
    case UndefinedMsg => 0
    case GameStateMsg => HEADER_SIZE + 4
    case GameSessionReqMsg => HEADER_SIZE
    case GameFieldMsg => HEADER_SIZE + CELL_COUNT + 1
    case StartFieldReqMsg => HEADER_SIZE + 8
    case StopPreparationMsg => HEADER_SIZE
    case StartTurnMsg => HEADER_SIZE + 8 + 1
    case StopTurnMsg => HEADER_SIZE + 1
    case GameMoveMsg => HEADER_SIZE + 8
    case ServerConnStatusReqMsg => HEADER_SIZE
    case ServerConnStatusMsg => HEADER_SIZE + 1
    case ServerConnReqMsg => HEADER_SIZE
    case ReceiptMsg => HEADER_SIZE + 8
    case InfoMsg => HEADER_SIZE + TEXT_SIZE
    case ErrorMsg => HEADER_SIZE + TEXT_SIZE
  }

  // ---------- fields of a message ----------

  function BoolBytes(b: bool): (s: seq<byte>)
    ensures |s| == 1
  {
    [if b then 1 else 0]
  }

  function CellByte(c: Cell): byte {
    if c < 0 then c + 256 else c
  }

  function ByteCell(n: byte): Cell {
    if n >= 128 then n - 256 else n
  }

  function FieldBytes(b: Board): (s: seq<byte>)
    ensures |s| == CELL_COUNT
  {
    seq(CELL_COUNT, k requires 0 <= k < CELL_COUNT => CellByte(b[Point(k % 10, k / 10)]))
  }

  function BytesField(s: seq<byte>): Board
    requires |s| == CELL_COUNT
  {
    map p: Point | p in FieldPoints() :: ByteCell(s[p.y * 10 + p.x])
  }

  lemma CellAt(b: Board, p: Point)
    requires OnField(p)
    ensures FieldBytes(b)[p.y * 10 + p.x] == CellByte(b[p])
  {
    var k := p.y * 10 + p.x;
    assert k % 10 == p.x && k / 10 == p.y;
    assert p == Point(k % 10, k / 10);
  }

  lemma FieldRoundTrip(b: Board)
    ensures BytesField(FieldBytes(b)) == b
  {
    hide FieldBytes, CellByte, ByteCell;
    forall p: Point | OnField(p) ensures BytesField(FieldBytes(b))[p] == b[p] {
      CellAt(b, p);
      CellRoundTrip(b[p]);
    }
  }

  lemma CellRoundTrip(c: Cell)
    ensures ByteCell(CellByte(c)) == c
  {
  }

  lemma FieldBack(s: seq<byte>)
    requires |s| == CELL_COUNT
    ensures FieldBytes(BytesField(s)) == s
  {
    forall k | 0 <= k < |s| ensures FieldBytes(BytesField(s))[k] == s[k] {
      assert k / 10 * 10 + k % 10 == k;
      assert OnField(Point(k % 10, k / 10));
    }
  }

  // ---------- encoding and decoding ----------

  function Payload(body: Body): seq<byte> {
    match body
    case GameState(state) => ToBytes(state, 4)
    case GameField(field, own) => FieldBytes(field) + BoolBytes(own)
    case StartFieldReq(endTime) => SignedToBytes(endTime, 8)
    case StartTurn(endTime, own) => SignedToBytes(endTime, 8) + BoolBytes(own)
    case StopTurn(own) => BoolBytes(own)
    case GameMove(x, y) => SignedToBytes(x, 4) + SignedToBytes(y, 4)
    case ServerConnStatus(connected) => BoolBytes(connected)
    case Receipt(reqMsgId) => SignedToBytes(reqMsgId, 8)
    case Info(info) => info
    case Error(error) => error
    case _ => []
  }

  function Header(t: MsgType, id: Int64): (s: seq<byte>)
    ensures |s| == HEADER_SIZE
  {
    [MSG_START] + ToBytes(TypeCode(t), 4) + SignedToBytes(id, 8)
  }

  function Encode(m: Message): seq<byte> {
    Header(TypeOf(m), m.id) + Payload(m.body)
  }

  /** The type by the first bytes; invalid also when there are too few of them. */
  function GetType(d: seq<byte>): MsgType {
    if |d| < MIN_SIZE then InvalidMsg else TypeOfCode(FromBytes(d[1..5]))
  }

  function ReadBody(t: MsgType, p: seq<byte>): Body
    requires t != InvalidMsg && t != UndefinedMsg && |p| == DataSize(t) - HEADER_SIZE
  {
    BytesAreInts(p);
    match t
    case GameStateMsg => GameState(FromBytes(p))
    case GameSessionReqMsg => GameSessionReq
    case GameFieldMsg => GameField(BytesField(p[..100]), p[100] != 0)
    case StartFieldReqMsg => StartFieldReq(SignedFromBytes(p))
    case StopPreparationMsg => StopPreparation
    case StartTurnMsg => StartTurn(SignedFromBytes(p[..8]), p[8] != 0)
    case StopTurnMsg => StopTurn(p[0] != 0)
    case GameMoveMsg => GameMove(SignedFromBytes(p[..4]), SignedFromBytes(p[4..]))
    case ServerConnStatusReqMsg => ServerConnStatusReq
    case ServerConnStatusMsg => ServerConnStatus(p[0] != 0)
    case ServerConnReqMsg => ServerConnReq
    case ReceiptMsg => Receipt(SignedFromBytes(p))
    case InfoMsg => Info(p)
    case ErrorMsg => Error(p)
  }

  lemma BytesAreInts(p: seq<byte>)
    ensures |p| == 4 ==> FromBytes(p) < Pow256(4)
    ensures |p| == 8 ==> FitsSigned(SignedFromBytes(p), 8) && FitsSigned(SignedFromBytes(p[..4]), 4) && FitsSigned(SignedFromBytes(p[4..]), 4)
    ensures |p| >= 8 ==> FitsSigned(SignedFromBytes(p[..8]), 8)
  {
    BytesBack(p);
    SignedBack(p);
    if |p| == 8 {
      SignedBack(p[..4]);
      SignedBack(p[4..]);
    }
    if |p| >= 8 {
      SignedBack(p[..8]);
    }
  }

  /** The message that the bytes are, if they have a type and exactly its size. The start mark
      is not looked at. */
  function Decode(d: seq<byte>): Option<Message> {
    var t := GetType(d);
    if t == InvalidMsg || |d| != DataSize(t) then None
    else
      SignedBack(d[5..13]);
      Some(Message(SignedFromBytes(d[5..13]), ReadBody(t, d[13..])))
  }

  // ---------- the format is a self-delimiting code ----------

  lemma TypeCodes(t: MsgType)
    requires t != InvalidMsg && t != UndefinedMsg
    ensures TypeOfCode(TypeCode(t)) == t && TypeCode(t) < Pow256(4)
  {
  }

  lemma PayloadSize(m: Message)
    ensures |Payload(m.body)| == DataSize(TypeOf(m)) - HEADER_SIZE
  {
  }

  /** The encoded length is the length in the table. */
  lemma EncodedSize(m: Message)
    ensures |Encode(m)| == DataSize(TypeOf(m))
  {
    PayloadSize(m);
  }

  lemma BodyRoundTrip(m: Message)
    ensures |Payload(m.body)| == DataSize(TypeOf(m)) - HEADER_SIZE
    ensures ReadBody(TypeOf(m), Payload(m.body)) == m.body
  {
    PayloadSize(m);
    match m.body
    case GameState(state) => BytesRoundTrip(state, 4);
    case GameField(field, own) =>
      FieldRoundTrip(field);
      assert Payload(m.body)[..100] == FieldBytes(field);
    case StartFieldReq(endTime) => SignedRoundTrip(endTime, 8);
    case StartTurn(endTime, own) =>
      SignedRoundTrip(endTime, 8);
      assert Payload(m.body)[..8] == SignedToBytes(endTime, 8);
    case GameMove(x, y) =>
      SignedRoundTrip(x, 4);
      SignedRoundTrip(y, 4);
      assert Payload(m.body)[..4] == SignedToBytes(x, 4) && Payload(m.body)[4..] == SignedToBytes(y, 4);
    case Receipt(reqMsgId) => SignedRoundTrip(reqMsgId, 8);
    case _ =>
  }

  /** What the header of an encoded message says, also when more bytes follow. */
  lemma HeaderRead(m: Message, rest: seq<byte>)
    ensures var d := Encode(m) + rest;
      && d[0] == MSG_START && d[..13] == Header(TypeOf(m), m.id)
      && GetType(d) == TypeOf(m)
      && SignedFromBytes(d[5..13]) == m.id
  {
    var t := TypeOf(m);
    var h := Header(t, m.id);
    var d := Encode(m) + rest;
    assert d[..13] == h;
    assert d[1..5] == h[1..5] == ToBytes(TypeCode(t), 4);
    assert d[5..13] == h[5..13] == SignedToBytes(m.id, 8);
    TypeCodes(t);
    BytesRoundTrip(TypeCode(t), 4);
    SignedRoundTrip(m.id, 8);
  }

  /** Decoding an encoded message rebuilds it. */
  lemma DecodeEncode(m: Message)
    ensures Decode(Encode(m)) == Some(m)
  {
    EncodedSize(m);
    HeaderRead(m, []);
    BodyRoundTrip(m);
    assert Encode(m) + [] == Encode(m);
    assert Encode(m)[13..] == Payload(m.body);
  }

  // ---------- where everything is ----------

  /** The number of each type of message on the wire. */
  function WireNumber(body: Body): byte {
    match body
    case GameState(_) => 1
    case GameSessionReq => 2
    case GameField(_, _) => 3
    case StartFieldReq(_) => 4
    case StopPreparation => 5
    case StartTurn(_, _) => 6
    case StopTurn(_) => 7
    case GameMove(_, _) => 8
    case ServerConnStatusReq => 9
    case ServerConnStatus(_) => 10
    case ServerConnReq => 11
    case Receipt(_) => 12
    case Info(_) => 13
    case Error(_) => 14
  }

  /** The header is the start mark, the number of the type in four bytes, and the number of the
      message in eight. */
  lemma HeaderBytes(m: Message)
    ensures Encode(m)[..5] == [96, WireNumber(m.body), 0, 0, 0]
    ensures |Encode(m)| >= 13 && SignedFromBytes(Encode(m)[5..13]) == m.id
  {
    var n := TypeCode(TypeOf(m));
    assert ToBytes(n, 4) == [n, 0, 0, 0] by {
      SmallBytes(n);
    }
    hide ToBytes, Payload;
    var d := Encode(m);
    assert d[5..13] == SignedToBytes(m.id, 8);
    SignedRoundTrip(m.id, 8);
    assert d[..5] == [MSG_START] + ToBytes(n, 4);
  }

  lemma SmallBytes(n: byte)
    ensures ToBytes(n, 4) == [n, 0, 0, 0]
  {
    assert ToBytes(n, 4) == [n % 256] + ToBytes(n / 256, 3);
    assert ToBytes(0, 3) == [0] + ToBytes(0, 2);
    assert ToBytes(0, 2) == [0] + ToBytes(0, 1);
  }

  /** After the header come the fields of the message, each at its place. */
  lemma PayloadBytes(m: Message)
    ensures var p := Encode(m)[13..];
      match m.body
      case GameState(state) => |p| == 4 && FromBytes(p) == state
      case GameField(field, own) =>
        |p| == 101 && p[100] == (if own then 1 else 0) && forall q: Point :: OnField(q) ==> p[10 * q.y + q.x] == CellByte(field[q])
      case StartFieldReq(endTime) => |p| == 8 && SignedFromBytes(p) == endTime
      case StartTurn(endTime, own) => |p| == 9 && SignedFromBytes(p[..8]) == endTime && p[8] == if own then 1 else 0
      case StopTurn(own) => p == [if own then 1 else 0]
      case GameMove(x, y) => |p| == 8 && SignedFromBytes(p[..4]) == x && SignedFromBytes(p[4..]) == y
      case ServerConnStatus(connected) => p == [if connected then 1 else 0]
      case Receipt(reqMsgId) => |p| == 8 && SignedFromBytes(p) == reqMsgId
      case Info(text) => p == text
      case Error(text) => p == text
      case _ => p == []
  {
    hide Header, FieldBytes, ToBytes, FromBytes, SignedFromBytes, SignedToBytes, FitsSigned, CellByte;
    var p := Encode(m)[13..];
    assert p == Payload(m.body);
    SignedSize();
    match m.body
    case GameState(state) => BytesRoundTrip(state, 4);
    case GameField(field, own) =>
      assert p[..100] == FieldBytes(field);
      forall q: Point | OnField(q) ensures p[10 * q.y + q.x] == CellByte(field[q]) {
        CellAt(field, q);
        assert p[10 * q.y + q.x] == p[..100][10 * q.y + q.x];
      }
    case StartFieldReq(endTime) => SignedRoundTrip(endTime, 8);
    case StartTurn(endTime, own) =>
      SignedRoundTrip(endTime, 8);
      assert p[..8] == SignedToBytes(endTime, 8);
    case GameMove(x, y) =>
      SignedRoundTrip(x, 4);
      SignedRoundTrip(y, 4);
      assert p[..4] == SignedToBytes(x, 4) && p[4..] == SignedToBytes(y, 4);
    case Receipt(reqMsgId) => SignedRoundTrip(reqMsgId, 8);
    case _ =>
  }

  lemma SignedSize()
    ensures forall v: int, n: nat | FitsSigned(v, n) :: |SignedToBytes(v, n)| == n
  {
  }

  lemma DecodesByLength(d: seq<byte>)
    ensures Decode(d).Some? <==> GetType(d) != InvalidMsg && |d| == DataSize(GetType(d))
    ensures Decode(d).Some? ==> TypeOf(Decode(d).value) == GetType(d)
  {
  }

  /** If bytes are a message, then neither fewer nor more of them are. */
  lemma OneLength(d: seq<byte>, more: seq<byte>, k: nat)
    requires Decode(d).Some? && more != [] && k < |d|
    ensures Decode(d + more).None? && Decode(d[..k]).None?
  {
    hide Decode, DataSize, ReadBody;
    DecodesByLength(d);
    DecodesByLength(d + more);
    DecodesByLength(d[..k]);
    DecodedParts(d);
    assert (d + more)[1..5] == d[1..5];
    if k >= MIN_SIZE {
      assert d[..k][1..5] == d[1..5];
    }
  }

  predicate EndsInFlag(t: MsgType) {
    t == GameFieldMsg || t == StartTurnMsg || t == StopTurnMsg || t == ServerConnStatusMsg
  }

  /** The byte of a flag, where the type ends in one, is 0 or 1. */
  predicate PlainFlag(d: seq<byte>)
    requires |d| > 0
  {
    EndsInFlag(GetType(d)) ==> d[|d| - 1] <= 1
  }

  /** Encoding a decoded message gives the same bytes exactly when they begin with the start
      mark and their flag is 0 or 1. */
  lemma EncodeDecode(d: seq<byte>)
    requires Decode(d).Some?
    ensures |d| > 0
    ensures Encode(Decode(d).value) == d <==> d[0] == MSG_START && PlainFlag(d)
  {
    hide Header, ReadBody, Payload, DataSize;
    var m := Decode(d).value;
    var t := GetType(d);
    DecodedParts(d);
    HeaderBack(d);
    BodyBack(t, d[13..]);
    SplitAtHeader(d, Header(t, m.id), Payload(m.body));
  }

  lemma DecodedParts(d: seq<byte>)
    requires Decode(d).Some?
    ensures GetType(d) != InvalidMsg && GetType(d) != UndefinedMsg && |d| == DataSize(GetType(d)) && |d| >= 13
    ensures TypeOf(Decode(d).value) == GetType(d)
    ensures Decode(d).value.id == SignedFromBytes(d[5..13]) && Decode(d).value.body == ReadBody(GetType(d), d[13..])
    ensures EndsInFlag(GetType(d)) ==> |d| > 13
  {
    hide FieldBytes, BytesField, ToBytes, FromBytes, SignedToBytes, SignedFromBytes, FitsSigned;
  }

  lemma SplitAtHeader(d: seq<byte>, h: seq<byte>, p: seq<byte>)
    requires |d| >= 13 && h == [MSG_START] + d[1..13]
    ensures h + p == d <==> d[0] == MSG_START && p == d[13..]
  {
    if h + p == d {
      assert (h + p)[0] == MSG_START && (h + p)[13..] == p;
    }
    if d[0] == MSG_START && p == d[13..] {
      assert h == d[..13];
      assert d == d[..13] + d[13..];
    }
  }

  lemma CodeBack(n: nat)
    requires TypeOfCode(n) != InvalidMsg
    ensures TypeCode(TypeOfCode(n)) == n
  {
  }

  lemma HeaderBack(d: seq<byte>)
    requires |d| >= 13 && GetType(d) != InvalidMsg
    ensures FitsSigned(SignedFromBytes(d[5..13]), 8)
    ensures Header(GetType(d), SignedFromBytes(d[5..13])) == [MSG_START] + d[1..13]
  {
    BytesBack(d[1..5]);
    SignedBack(d[5..13]);
    CodeBack(FromBytes(d[1..5]));
    assert d[1..13] == d[1..5] + d[5..13];
  }

  lemma FlagBack(n: byte)
    ensures BoolBytes(n != 0) == [n] <==> n <= 1
  {
    if n <= 1 {
      assert BoolBytes(n != 0) == [n];
    } else {
      assert BoolBytes(n != 0)[0] != n;
    }
  }

  lemma FlaggedBack(s: seq<byte>, n: byte)
    ensures s + BoolBytes(n != 0) == s + [n] <==> n <= 1
  {
    FlagBack(n);
    if n > 1 {
      assert (s + BoolBytes(n != 0))[|s|] != (s + [n])[|s|];
    }
  }

  lemma BodyBack(t: MsgType, p: seq<byte>)
    requires t != InvalidMsg && t != UndefinedMsg && |p| == DataSize(t) - HEADER_SIZE
    ensures Payload(ReadBody(t, p)) == p <==> (EndsInFlag(t) ==> p[|p| - 1] <= 1)
  {
    hide FieldBytes, BytesField, ToBytes, FromBytes, SignedToBytes, SignedFromBytes, BoolBytes, FitsSigned;
    match t
    case GameStateMsg => BytesBack(p);
    case GameFieldMsg =>
      FieldBack(p[..100]);
      FlaggedBack(p[..100], p[100]);
      assert p == p[..100] + [p[100]];
    case StartFieldReqMsg => SignedBack(p);
    case StartTurnMsg =>
      SignedBack(p[..8]);
      FlaggedBack(p[..8], p[8]);
      assert p == p[..8] + [p[8]];
    case StopTurnMsg =>
      FlagBack(p[0]);
      assert p == [p[0]];
    case ServerConnStatusMsg =>
      FlagBack(p[0]);
      assert p == [p[0]];
    case GameMoveMsg =>
      SignedBack(p[..4]);
      SignedBack(p[4..]);
      assert p == p[..4] + p[4..];
    case ReceiptMsg => SignedBack(p);
    case _ =>
  }

  /** Two encoded messages followed by anything agree only if they are the same message followed
      by the same bytes. */
  lemma SelfDelimiting(m: Message, x: seq<byte>, n: Message, y: seq<byte>)
    requires Encode(m) + x == Encode(n) + y
    ensures m == n && x == y
  {
    HeaderRead(m, x);
    HeaderRead(n, y);
    EncodedSize(m);
    EncodedSize(n);
    var k := |Encode(m)|;
    assert (Encode(m) + x)[..k] == Encode(m) && (Encode(n) + y)[..k] == Encode(n);
    assert (Encode(m) + x)[k..] == x && (Encode(n) + y)[k..] == y;
    DecodeEncode(m);
    DecodeEncode(n);
  }
}
