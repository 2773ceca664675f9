/**
 Little-endian integers in unaligned memory, and byte swapping.

 The width-generic pair `ReadLE`/`WriteLE` is the reference; the fixed-width accessors are
 proved to be instances of it.  An or of shifted bytes whose bits do not overlap is written
 as a sum, and a shift by 8 as a division or a multiplication by 256.
 */
module Codec {

  type Byte = b: int | 0 <= b < 256
  type Bytes = seq<Byte>

  function Pow256(n: nat): (p: nat)
    ensures p > 0
  {
    if n == 0 then 1 else 256 * Pow256(n - 1)
  }

  /** The number whose base-256 digits are b, least significant first. */
  function ReadLE(b: Bytes): (v: nat)
    ensures v < Pow256(|b|)
  {
    if b == [] then 0 else b[0] + 256 * ReadLE(b[1..])
  }

  /** The n least significant base-256 digits of v. */
  function WriteLE(v: nat, n: nat): (b: Bytes)
    ensures |b| == n
  {
    if n == 0 then [] else [v % 256] + WriteLE(v / 256, n - 1)
  }

  lemma {:induction false} ReadAfterWrite(v: nat, n: nat)
    ensures ReadLE(WriteLE(v, n)) == v % Pow256(n)
  {
    if n > 0 {
      ReadAfterWrite(v / 256, n - 1);
      ModOfProduct(v, Pow256(n - 1));
      assert WriteLE(v, n)[1..] == WriteLE(v / 256, n - 1);
    }
  }

  lemma {:induction false} WriteAfterRead(b: Bytes)
    ensures WriteLE(ReadLE(b), |b|) == b
  {
    if b != [] {
      WriteAfterRead(b[1..]);
      assert ReadLE(b) / 256 == ReadLE(b[1..]) && ReadLE(b) % 256 == b[0];
    }
  }

  /** A wide read is the low read plus the shifted high read. */
  lemma {:induction false} ReadSplit(low: Bytes, high: Bytes)
    ensures ReadLE(low + high) == ReadLE(low) + Pow256(|low|) * ReadLE(high)
  {
    if low == [] {
      assert low + high == high;
    } else {
      ReadSplit(low[1..], high);
      assert (low + high)[1..] == low[1..] + high;
      MulAssociates(Pow256(|low| - 1), ReadLE(high));
    }
  }

  lemma MulAssociates(p: nat, x: nat)
    ensures 256 * (p * x) == (256 * p) * x
  {
  }

  lemma ModOfProduct(v: nat, p: nat)
    requires p > 0
    ensures v % (256 * p) == v % 256 + 256 * (v / 256 % p)
  {
    var q, r := v / 256, v % 256;
    var q', r' := q / p, q % p;
    assert q == p * q' + r';
    assert v == (256 * p) * q' + (256 * r' + r) by { MulAssociates(p, q'); }
    RemainderIsUnique(v, 256 * p, q', 256 * r' + r);
  }

  lemma RemainderIsUnique(v: nat, d: nat, q: nat, r: nat)
    requires r < d
    requires v == d * q + r
    ensures v % d == r
  {
    var k: int := v / d - q;
    assert d * k == r - v % d;
    assert -(d as int) < d * k < d;
    SmallMultipleIsZero(d, k);
  }

  lemma SmallMultipleIsZero(d: nat, k: int)
    requires -(d as int) < d * k < d
    ensures k == 0
  {
    assert k >= 1 ==> d * k >= d * 1;
    assert k <= -1 ==> d * (-k) >= d * 1;
  }

  lemma Powers()
    ensures Pow256(2) == 0x1_0000 && Pow256(3) == 0x100_0000 && Pow256(4) == 0x1_0000_0000
  {
    assert Pow256(2) == 0x1_0000;
  }

  // The fixed-width readers, as expressions over the bytes at the pointer.

  function ReadUint16(b: Bytes): (v: nat)
    requires |b| >= 2
    ensures v == ReadLE(b[..2]) < 0x1_0000
  {
    assert b[..2][1..] == [b[1]];
    b[0] + 0x100 * (b[1] as int)
  }

  function ReadUint24(b: Bytes): (v: nat)
    requires |b| >= 3
    ensures v == ReadLE(b[..3]) < 0x100_0000
  {
    Powers();
    assert b[..3] == b[..2] + [b[2]];
    ReadSplit(b[..2], [b[2]]);
    b[0] + 0x100 * (b[1] as int) + 0x1_0000 * (b[2] as int)
  }

  function ReadUint32(b: Bytes): (v: nat)
    requires |b| >= 4
    ensures v == ReadLE(b[..4]) < 0x1_0000_0000
    ensures v == ReadUint16(b) + 0x1_0000 * ReadUint16(b[2..])
  {
    Powers();
    assert b[..4] == b[..2] + b[2..][..2];
    ReadSplit(b[..2], b[2..][..2]);
    b[0] + 0x100 * (b[1] as int) + 0x1_0000 * (b[2] as int) + 0x100_0000 * (b[3] as int)
  }

  function ReadUint64(b: Bytes): (v: nat)
    requires |b| >= 8
    ensures v == ReadLE(b[..8])
    ensures v == ReadUint32(b) + 0x1_0000_0000 * ReadUint32(b[4..])
  {
    Powers();
    assert b[..8] == b[..4] + b[4..][..4];
    ReadSplit(b[..4], b[4..][..4]);
    assert ReadLE(b[..8]) == ReadUint32(b) + 0x1_0000_0000 * ReadUint32(b[4..]);
    b[0] + 0x100 * (b[1] as int) + 0x1_0000 * (b[2] as int) + 0x100_0000 * (b[3] as int)
    + 0x1_0000_0000 * (b[4] as int) + 0x100_0000_0000 * (b[5] as int)
    + 0x1_0000_0000_0000 * (b[6] as int) + 0x100_0000_0000_0000 * (b[7] as int)
  }

  lemma Digits16(v: nat)
    ensures WriteLE(v, 2) == [v % 256, v / 0x100 % 256]
  {
    assert WriteLE(v / 256, 1) == [v / 256 % 256] + WriteLE(v / 256 / 256, 0);
  }

  lemma Digits24(v: nat)
    ensures WriteLE(v, 3) == [v % 256, v / 0x100 % 256, v / 0x1_0000 % 256]
  {
    Digits16(v / 256);
  }

  lemma Digits32(v: nat)
    ensures WriteLE(v, 4) == [v % 256, v / 0x100 % 256, v / 0x1_0000 % 256, v / 0x100_0000 % 256]
  {
    Digits24(v / 256);
  }

  /** v shifted right by n bytes. */
  function Shifted(v: nat, n: nat): (r: nat)
  {
    if n == 0 then v else Shifted(v / 256, n - 1)
  }

  /** The digits of v are its low digits followed by the digits of the rest. */
  lemma {:induction false} WriteSplit(v: nat, n: nat, m: nat)
    ensures WriteLE(v, n + m) == WriteLE(v, n) + WriteLE(Shifted(v, n), m)
  {
    if n > 0 {
      WriteSplit(v / 256, n - 1, m);
    }
  }

  lemma ShiftedByFour(v: nat)
    ensures Shifted(v, 4) == v / 0x1_0000_0000
  {
    var v1, v2, v3 := v / 256, v / 256 / 256, v / 256 / 256 / 256;
    assert Shifted(v, 4) == Shifted(v1, 3) == Shifted(v2, 2) == Shifted(v3, 1) == v3 / 256;
  }

  lemma Digits64(v: nat)
    ensures WriteLE(v, 8)
         == [v % 256, v / 0x100 % 256, v / 0x1_0000 % 256, v / 0x100_0000 % 256,
             v / 0x1_0000_0000 % 256, v / 0x100_0000_0000 % 256,
             v / 0x1_0000_0000_0000 % 256, v / 0x100_0000_0000_0000 % 256]
  {
    WriteSplit(v, 4, 4);
    ShiftedByFour(v);
    Digits32(v);
    var h := v / 0x1_0000_0000;
    Digits32(h);
    assert h / 0x100 == v / 0x100_0000_0000 && h / 0x1_0000 == v / 0x1_0000_0000_0000;
    assert h / 0x100_0000 == v / 0x100_0000_0000_0000;
  }

  /** Reading back what a writer stored: exact at 16 and 32 bits, modulo 2^24 at 24 bits. */
  lemma ReadBack16(v: nat)
    requires v < 0x1_0000
    ensures ReadUint16(WriteLE(v, 2)) == v
  {
    Powers();
    ReadAfterWrite(v, 2);
    assert WriteLE(v, 2)[..2] == WriteLE(v, 2);
  }

  lemma ReadBack24(v: nat)
    ensures ReadUint24(WriteLE(v, 3)) == v % 0x100_0000
  {
    Powers();
    ReadAfterWrite(v, 3);
    assert WriteLE(v, 3)[..3] == WriteLE(v, 3);
  }

  lemma ReadBack32(v: nat)
    requires v < 0x1_0000_0000
    ensures ReadUint32(WriteLE(v, 4)) == v
  {
    Powers();
    ReadAfterWrite(v, 4);
    assert WriteLE(v, 4)[..4] == WriteLE(v, 4);
  }

  lemma ReadBack64(v: nat)
    requires v < 0x1_0000_0000_0000_0000
    ensures ReadUint64(WriteLE(v, 8)) == v
  {
    Powers();
    WriteSplit(v, 4, 4);
    ShiftedByFour(v);
    var w, high := WriteLE(v, 8), v / 0x1_0000_0000;
    assert w[..4] == WriteLE(v, 4) && w[4..] == WriteLE(high, 4);
    ReadAfterWrite(v, 4);
    ReadBack32(high);
    assert WriteLE(v, 4)[..4] == WriteLE(v, 4);
    assert ReadUint32(w) == v % 0x1_0000_0000;
  }

  // The fixed-width writers update the buffer in place.

  /** now is was with the n bytes at `at` replaced by the encoding of v. */
  ghost predicate Wrote(was: Bytes, now: Bytes, at: nat, v: nat, n: nat)
    requires at + n <= |was|
  {
    now == was[..at] + WriteLE(v, n) + was[at + n..]
  }

  method WriteUint16(buffer: array<Byte>, at: nat, value: nat)
    requires at + 2 <= buffer.Length && value < 0x1_0000
    modifies buffer
    ensures Wrote(old(buffer[..]), buffer[..], at, value, 2)
  {
    Digits16(value);
    buffer[at], buffer[at + 1] := value % 256, value / 0x100 % 256;
  }

  method WriteUint24(buffer: array<Byte>, at: nat, value: nat)
    requires at + 3 <= buffer.Length && value < 0x1_0000_0000
    modifies buffer
    ensures Wrote(old(buffer[..]), buffer[..], at, value, 3)
  {
    Digits24(value);
    buffer[at], buffer[at + 1], buffer[at + 2] :=
      value % 256, value / 0x100 % 256, value / 0x1_0000 % 256;
  }

  method WriteUint32(buffer: array<Byte>, at: nat, value: nat)
    requires at + 4 <= buffer.Length && value < 0x1_0000_0000
    modifies buffer
    ensures Wrote(old(buffer[..]), buffer[..], at, value, 4)
  {
    Digits32(value);
    buffer[at], buffer[at + 1], buffer[at + 2], buffer[at + 3] :=
      value % 256, value / 0x100 % 256, value / 0x1_0000 % 256, value / 0x100_0000 % 256;
  }

  method WriteUint64(buffer: array<Byte>, at: nat, value: nat)
    requires at + 8 <= buffer.Length && value < 0x1_0000_0000_0000_0000
    modifies buffer
    ensures Wrote(old(buffer[..]), buffer[..], at, value, 8)
  {
    Digits64(value);
    buffer[at], buffer[at + 1], buffer[at + 2], buffer[at + 3] :=
      value % 256, value / 0x100 % 256, value / 0x1_0000 % 256, value / 0x100_0000 % 256;
    buffer[at + 4], buffer[at + 5], buffer[at + 6], buffer[at + 7] :=
      value / 0x1_0000_0000 % 256, value / 0x100_0000_0000 % 256,
      value / 0x1_0000_0000_0000 % 256, value / 0x100_0000_0000_0000 % 256;
  }

  function Reversed(b: Bytes): (r: Bytes)
    ensures |r| == |b|
    ensures forall i :: 0 <= i < |b| ==> r[i] == b[|b| - 1 - i]
  {
    seq(|b|, i requires 0 <= i < |b| => b[|b| - 1 - i])
  }

  function ByteSwap16(value: nat): (r: nat)
    requires value < 0x1_0000
    ensures r < 0x1_0000
  {
    value % 0x100 * 0x100 + value / 0x100 % 0x100
  }

  function ByteSwap32(value: nat): (r: nat)
    requires value < 0x1_0000_0000
    ensures r < 0x1_0000_0000
  {
    value % 0x100 * 0x100_0000 + value / 0x100 % 0x100 * 0x1_0000
    + value / 0x1_0000 % 0x100 * 0x100 + value / 0x100_0000 % 0x100
  }

  function ByteSwap64(value: nat): (r: nat)
    requires value < 0x1_0000_0000_0000_0000
    ensures r < 0x1_0000_0000_0000_0000
  {
    value % 0x100 * 0x100_0000_0000_0000 + value / 0x100 % 0x100 * 0x1_0000_0000_0000
    + value / 0x1_0000 % 0x100 * 0x100_0000_0000 + value / 0x100_0000 % 0x100 * 0x1_0000_0000
    + value / 0x1_0000_0000 % 0x100 * 0x100_0000 + value / 0x100_0000_0000 % 0x100 * 0x1_0000
    + value / 0x1_0000_0000_0000 % 0x100 * 0x100 + value / 0x100_0000_0000_0000 % 0x100
  }

  lemma ByteSwap64ReadsReversed(value: nat)
    requires value < 0x1_0000_0000_0000_0000
    ensures ByteSwap64(value) == ReadLE(Reversed(WriteLE(value, 8)))
  {
    Digits64(value);
    var r := Reversed(WriteLE(value, 8));
    assert r[..8] == r;
    assert ReadUint64(r) == ReadLE(r);
  }

  lemma ByteSwap64UndoesItself(value: nat)
    requires value < 0x1_0000_0000_0000_0000
    ensures ByteSwap64(ByteSwap64(value)) == value
  {
    Powers();
    SwapTwice(value, 8);
    ByteSwap64ReadsReversed(value);
    ByteSwap64ReadsReversed(ByteSwap64(value));
  }

  /** Swapping reads the same bytes in the opposite order. */
  lemma ByteSwapReadsReversed(value: nat)
    requires value < 0x1_0000_0000
    ensures value < 0x1_0000 ==> ByteSwap16(value) == ReadLE(Reversed(WriteLE(value, 2)))
    ensures ByteSwap32(value) == ReadLE(Reversed(WriteLE(value, 4)))
  {
    Digits16(value);
    Digits32(value);
    var r2, r4 := Reversed(WriteLE(value, 2)), Reversed(WriteLE(value, 4));
    assert r2[..2] == r2 && r4[..4] == r4;
    assert ReadUint32(r4) == ReadLE(r4);
    assert ReadUint16(r2) == ReadLE(r2);
  }

  lemma ReverseTwice(b: Bytes)
    ensures Reversed(Reversed(b)) == b
  {
  }

  /** Each swap is its own inverse. */
  lemma ByteSwapUndoesItself(value: nat)
    requires value < 0x1_0000_0000
    ensures value < 0x1_0000 ==> ByteSwap16(ByteSwap16(value)) == value
    ensures ByteSwap32(ByteSwap32(value)) == value
  {
    Powers();
    SwapTwice(value, 4);
    ByteSwapReadsReversed(value);
    ByteSwapReadsReversed(ByteSwap32(value));
    if value < 0x1_0000 {
      SwapTwice(value, 2);
      ByteSwapReadsReversed(ByteSwap16(value));
    }
  }

  lemma SwapTwice(v: nat, n: nat)
    requires v < Pow256(n)
    ensures var s := ReadLE(Reversed(WriteLE(v, n))); ReadLE(Reversed(WriteLE(s, n))) == v
  {
    var r := Reversed(WriteLE(v, n));
    WriteAfterRead(r);
    ReverseTwice(WriteLE(v, n));
    ReadAfterWrite(v, n);
    RemainderIsUnique(v, Pow256(n), 0, v);
  }
}
