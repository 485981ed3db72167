// Bytes, and integers laid out in them lowest byte first.
module Bytes {

  type byte = n: int | 0 <= n < 256

  function Pow256(n: nat): (p: int)
    ensures p >= 1
  {
    if n == 0 then 1 else 256 * Pow256(n - 1)
  }

  /** The n lowest bytes of v. */
  function ToBytes(v: nat, n: nat): (s: seq<byte>)
    ensures |s| == n
  {
    if n == 0 then [] else [v % 256] + ToBytes(v / 256, n - 1)
  }

  function FromBytes(s: seq<byte>): nat {
    if s == [] then 0 else s[0] + 256 * FromBytes(s[1..])
  }

  lemma {:induction false} BytesRoundTrip(v: nat, n: nat)
    requires v < Pow256(n)
    ensures FromBytes(ToBytes(v, n)) == v
  {
    if n > 0 {
      BytesRoundTrip(v / 256, n - 1);
      assert ToBytes(v, n)[1..] == ToBytes(v / 256, n - 1);
    }
  }

  lemma {:induction false} BytesBack(s: seq<byte>)
    ensures FromBytes(s) < Pow256(|s|)
    ensures ToBytes(FromBytes(s), |s|) == s
  {
    if s != [] {
      BytesBack(s[1..]);
      LowestByte(s[0], FromBytes(s[1..]));
    }
  }

  lemma LowestByte(low: byte, rest: nat)
    ensures (low + 256 * rest) % 256 == low && (low + 256 * rest) / 256 == rest
  {
  }

  /** Two's complement. */
  function Unsigned(v: int, n: nat): int {
    if v < 0 then v + Pow256(n) else v
  }

  function Signed(u: nat, n: nat): int {
    if 2 * u >= Pow256(n) then u - Pow256(n) else u
  }

  predicate FitsSigned(v: int, n: nat) {
    -Pow256(n) <= 2 * v < Pow256(n)
  }

  function SignedToBytes(v: int, n: nat): seq<byte>
    requires FitsSigned(v, n)
  {
    ToBytes(Unsigned(v, n), n)
  }

  function SignedFromBytes(s: seq<byte>): int {
    Signed(FromBytes(s), |s|)
  }

  lemma SignedRoundTrip(v: int, n: nat)
    requires FitsSigned(v, n)
    ensures SignedFromBytes(SignedToBytes(v, n)) == v
  {
    BytesRoundTrip(Unsigned(v, n), n);
  }

  lemma SignedBack(s: seq<byte>)
    ensures FitsSigned(SignedFromBytes(s), |s|)
    ensures SignedToBytes(SignedFromBytes(s), |s|) == s
  {
    BytesBack(s);
  }

  /** The lowest byte comes first, and negative numbers are in two's complement. */
  lemma LowestFirst()
    ensures ToBytes(0x01020304, 4) == [4, 3, 2, 1]
    ensures FitsSigned(-2, 4) && SignedToBytes(-2, 4) == [254, 255, 255, 255]
  {
    assert ToBytes(0x01020304, 4) == [4] + ToBytes(0x010203, 3);
    assert ToBytes(0x010203, 3) == [3] + ToBytes(0x0102, 2);
    assert ToBytes(0x0102, 2) == [2] + ToBytes(1, 1);
    assert Pow256(4) == 256 * Pow256(3) && Pow256(3) == 256 * Pow256(2) && Pow256(2) == 256 * Pow256(1) && Pow256(1) == 256;
    assert ToBytes(0xFFFFFFFE, 4) == [254] + ToBytes(0xFFFFFF, 3);
    assert ToBytes(0xFFFFFF, 3) == [255] + ToBytes(0xFFFF, 2);
    assert ToBytes(0xFFFF, 2) == [255] + ToBytes(0xFF, 1);
  }

  /** Writes bytes from a position on; the rest of the buffer stays. */
  method PutBytes(buf: array<byte>, pos: nat, s: seq<byte>) returns (next: nat)
    requires pos + |s| <= buf.Length
    modifies buf
    ensures next == pos + |s|
    ensures buf[..] == old(buf[..pos]) + s + old(buf[pos + |s|..])
  {
    ghost var before := buf[..];
    next := pos;
    for k := 0 to |s|
      invariant next == pos + k
      invariant forall i :: 0 <= i < buf.Length ==> buf[i] == if pos <= i < next then s[i - pos] else before[i]
    {
      buf[next] := s[k];
      next := next + 1;
    }
    Spliced(before, s, pos, buf[..]);
    assert old(buf[..pos]) == before[..pos] && old(buf[pos + |s|..]) == before[pos + |s|..];
  }

  lemma Spliced(before: seq<byte>, s: seq<byte>, pos: nat, after: seq<byte>)
    requires pos + |s| <= |before| == |after|
    requires forall i :: 0 <= i < |after| ==> after[i] == if pos <= i < pos + |s| then s[i - pos] else before[i]
    ensures after == before[..pos] + s + before[pos + |s|..]
  {
  }

  /** Moves a stretch of the buffer to its start, as the bytes overlap or not. */
  method MoveToStart(buf: array<byte>, from: nat, size: nat)
    requires from + size <= buf.Length
    modifies buf
    ensures buf[..size] == old(buf[from..from + size])
  {
    for k := 0 to size
      invariant buf[..k] == old(buf[from..from + k])
      invariant from > 0 ==> buf[from + k..] == old(buf[from + k..])
      invariant from == 0 ==> buf[..] == old(buf[..])
    {
      buf[k] := buf[from + k];
    }
  }
}
