// Writing messages into fresh buffers and reading them back, field by field behind a moving
// position.
module MessageData {
  import opened Geometry
  import opened Fleets
  import opened Options
  import opened Bytes
  import opened Wire

  method SetHeaderData(m: Message, data: array<byte>) returns (pos: nat)
    requires data.Length >= HEADER_SIZE
    modifies data
    ensures pos == HEADER_SIZE
    ensures data[..] == Header(TypeOf(m), m.id) + old(data[HEADER_SIZE..])
  {
    ghost var rest := data[HEADER_SIZE..];
    pos := PutBytes(data, 0, [MSG_START]);
    assert data[..1] == [MSG_START];
    pos := PutBytes(data, pos, ToBytes(TypeCode(TypeOf(m)), 4));
    assert data[..5] == [MSG_START] + ToBytes(TypeCode(TypeOf(m)), 4);
    pos := PutBytes(data, pos, SignedToBytes(m.id, 8));
    assert data[..13] == Header(TypeOf(m), m.id);
    assert data[13..] == rest;
  }

  /** The cells of the field row by row. */
  method PutField(data: array<byte>, pos: nat, field: Board) returns (next: nat)
    requires pos + CELL_COUNT <= data.Length
    modifies data
    ensures next == pos + CELL_COUNT
    ensures data[..next] == old(data[..pos]) + FieldBytes(field)
  {
    next := pos;
    for k := 0 to CELL_COUNT
      invariant next == pos + k
      invariant data[..next] == old(data[..pos]) + FieldBytes(field)[..k]
    {
      data[next] := CellByte(field[Point(k % 10, k / 10)]);
      next := next + 1;
    }
  }

  /** Two fields, one after the other. */
  method PutTwo(data: array<byte>, pos: nat, a: seq<byte>, b: seq<byte>) returns (next: nat)
    requires pos + |a| + |b| <= data.Length
    modifies data
    ensures next == pos + |a| + |b| && data[..next] == old(data[..pos]) + (a + b)
  {
    next := PutBytes(data, pos, a);
    assert data[..next] == old(data[..pos]) + a;
    next := PutBytes(data, next, b);
  }

  method PutOne(data: array<byte>, pos: nat, a: seq<byte>) returns (next: nat)
    requires pos + |a| <= data.Length
    modifies data
    ensures next == pos + |a| && data[..next] == old(data[..pos]) + a
  {
    next := PutBytes(data, pos, a);
  }

  method PutFieldAndFlag(data: array<byte>, pos: nat, field: Board, flag: bool) returns (next: nat)
    requires pos + CELL_COUNT + 1 <= data.Length
    modifies data
    ensures next == pos + CELL_COUNT + 1 && data[..next] == old(data[..pos]) + (FieldBytes(field) + BoolBytes(flag))
  {
    hide FieldBytes;
    next := PutField(data, pos, field);
    next := PutBytes(data, next, BoolBytes(flag));
  }

  method PutPayload(data: array<byte>, pos: nat, body: Body) returns (next: nat)
    requires pos + |Payload(body)| <= data.Length
    modifies data
    ensures next == pos + |Payload(body)| && data[..next] == old(data[..pos]) + Payload(body)
  {
    hide FieldBytes, ToBytes, SignedToBytes, FitsSigned, BoolBytes;
    match body {
      case GameState(state) => next := PutOne(data, pos, ToBytes(state, 4));
      case GameField(field, own) => next := PutFieldAndFlag(data, pos, field, own);
      case StartFieldReq(endTime) => next := PutOne(data, pos, SignedToBytes(endTime, 8));
      case StartTurn(endTime, own) => next := PutTwo(data, pos, SignedToBytes(endTime, 8), BoolBytes(own));
      case StopTurn(own) => next := PutOne(data, pos, BoolBytes(own));
      case GameMove(x, y) => next := PutTwo(data, pos, SignedToBytes(x, 4), SignedToBytes(y, 4));
      case ServerConnStatus(connected) => next := PutOne(data, pos, BoolBytes(connected));
      case Receipt(reqMsgId) => next := PutOne(data, pos, SignedToBytes(reqMsgId, 8));
      case Info(info) => next := PutOne(data, pos, info);
      case Error(error) => next := PutOne(data, pos, error);
      case _ =>
        next := pos;
        assert data[..pos] + [] == data[..pos];
    }
  }

  /** The encoded message in a fresh buffer of its size. */
  method GetData(m: Message) returns (data: array<byte>)
    ensures fresh(data) && data[..] == Encode(m)
  {
    hide Header, Payload, TypeOf, DataSize;
    EncodedSize(m);
    PayloadSize(m);
    TypeFits(m);
    data := new byte[DataSize(TypeOf(m))](_ => 0);
    var pos := SetHeaderData(m, data);
    assert data[..pos] == Header(TypeOf(m), m.id);
    pos := PutPayload(data, pos, m.body);
    assert data[..pos] == data[..];
  }

  lemma TypeFits(m: Message)
    ensures DataSize(TypeOf(m)) >= HEADER_SIZE
  {
  }

  lemma HeaderFits(t: MsgType)
    requires t != InvalidMsg && t != UndefinedMsg
    ensures DataSize(t) >= HEADER_SIZE
  {
  }

  /** The number in n bytes from a position on, highest byte first read. */
  method ReadInt(data: array<byte>, pos: nat, n: nat) returns (v: nat)
    requires pos + n <= data.Length
    ensures v == FromBytes(data[pos..pos + n])
  {
    v := 0;
    var k := n;
    while k > 0
      invariant 0 <= k <= n && v == FromBytes(data[pos + k..pos + n])
    {
      k := k - 1;
      assert data[pos + k..pos + n][1..] == data[pos + k + 1..pos + n];
      v := data[pos + k] + 256 * v;
    }
  }

  method ReadSigned(data: array<byte>, pos: nat, n: nat) returns (v: int)
    requires pos + n <= data.Length
    ensures v == SignedFromBytes(data[pos..pos + n]) && FitsSigned(v, n)
  {
    SignedBack(data[pos..pos + n]);
    var u := ReadInt(data, pos, n);
    v := Signed(u, n);
  }

  method ReadField(data: array<byte>, pos: nat) returns (field: Board)
    requires pos + CELL_COUNT <= data.Length
    ensures field == BytesField(data[pos..pos + CELL_COUNT])
  {
    hide FieldUpTo, BytesField, ByteCell;
    ghost var s := data[pos..pos + CELL_COUNT];
    field := EmptyBoard();
    FieldEnds(s, 0);
    for i := 0 to FLD_SZ
      invariant field == FieldUpTo(s, i, 0)
    {
      for j := 0 to FLD_SZ
        invariant field == FieldUpTo(s, i, j)
      {
        FieldStep(s, i, j);
        assert data[pos + i * 10 + j] == s[i * 10 + j];
        field := field[Point(j, i) := ByteCell(data[pos + i * 10 + j])];
      }
      FieldEnds(s, i);
    }
  }

  /** The cells before column j of row i taken from the bytes, the others empty. */
  ghost function FieldUpTo(s: seq<byte>, i: int, j: int): Board
    requires |s| == CELL_COUNT
  {
    map p: Point | p in FieldPoints() :: if p.y < i || (p.y == i && p.x < j) then ByteCell(s[p.y * 10 + p.x]) else EMPTY
  }

  lemma FieldStep(s: seq<byte>, i: int, j: int)
    requires |s| == CELL_COUNT && OnField(Point(j, i))
    ensures FieldUpTo(s, i, j + 1) == FieldUpTo(s, i, j)[Point(j, i) := ByteCell(s[i * 10 + j])]
  {
  }

  lemma FieldEnds(s: seq<byte>, i: int)
    requires |s| == CELL_COUNT
    ensures FieldUpTo(s, 0, 0) == EmptyBoard()
    ensures FieldUpTo(s, i, FLD_SZ) == FieldUpTo(s, i + 1, 0)
    ensures FieldUpTo(s, FLD_SZ, 0) == BytesField(s)
  {
  }

  /** The message that the first size bytes are, if any. */
  method CreateInstance(data: array<byte>, size: int) returns (msg: Option<Message>)
    requires size <= data.Length
    ensures size >= 0 ==> msg == Decode(data[..size])
    ensures size < 0 ==> msg == None
  {
    if size < MIN_SIZE {
      return None;
    }
    ghost var d := data[..size];
    assert data[1..5] == d[1..5];
    var code := ReadInt(data, 1, 4);
    var t := TypeOfCode(code);
    if t == InvalidMsg || size != DataSize(t) {
      return None;
    }
    HeaderFits(t);
    var id := ReadSigned(data, 5, 8);
    assert data[5..13] == d[5..13];
    var body := ReadPayload(data, t);
    assert data[13..size] == d[13..];
    msg := Some(Message(id, body));
  }

  method ReadPayload(data: array<byte>, t: MsgType) returns (body: Body)
    requires t != InvalidMsg && t != UndefinedMsg && HEADER_SIZE <= DataSize(t) <= data.Length
    ensures body == ReadBody(t, data[HEADER_SIZE..DataSize(t)])
  {
    hide FieldBytes, ToBytes, FromBytes, SignedToBytes, SignedFromBytes, FitsSigned, BytesField;
    var pos := HEADER_SIZE;
    ghost var p := data[pos..DataSize(t)];
    BytesAreInts(p);
    match t {
      case GameStateMsg =>
        var state := ReadInt(data, pos, 4);
        body := GameState(state);
      case GameSessionReqMsg => body := GameSessionReq;
      case GameFieldMsg =>
        var field := ReadField(data, pos);
        assert data[pos..pos + 100] == p[..100];
        pos := pos + CELL_COUNT;
        body := GameField(field, data[pos] != 0);
      case StartFieldReqMsg =>
        var endTime := ReadSigned(data, pos, 8);
        body := StartFieldReq(endTime);
      case StopPreparationMsg => body := StopPreparation;
      case StartTurnMsg =>
        var endTime := ReadSigned(data, pos, 8);
        assert data[pos..pos + 8] == p[..8];
        pos := pos + 8;
        body := StartTurn(endTime, data[pos] != 0);
      case StopTurnMsg => body := StopTurn(data[pos] != 0);
      case GameMoveMsg =>
        var x := ReadSigned(data, pos, 4);
        assert data[pos..pos + 4] == p[..4];
        pos := pos + 4;
        var y := ReadSigned(data, pos, 4);
        assert data[pos..pos + 4] == p[4..];
        body := GameMove(x, y);
      case ServerConnStatusReqMsg => body := ServerConnStatusReq;
      case ServerConnStatusMsg => body := ServerConnStatus(data[pos] != 0);
      case ServerConnReqMsg => body := ServerConnReq;
      case ReceiptMsg =>
        var reqMsgId := ReadSigned(data, pos, 8);
        body := Receipt(reqMsgId);
      case InfoMsg => body := Info(data[pos..pos + TEXT_SIZE]);
      case ErrorMsg => body := Error(data[pos..pos + TEXT_SIZE]);
    }
  }
}
