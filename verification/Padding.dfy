/** Block padding of plaintexts: a 32-bit big-endian length, the message, zeros. */
module Padding {
  import opened Common

  const TWO_32 := 0x1_0000_0000

  /** The four bytes the shifts and masks of the source produce, for any integer: 32-bit wrap-around included. */
  function U32be(n: int): (r: Bytes)
    ensures |r| == 4
  {
    [(n / 0x100_0000) % 256, (n / 0x1_0000) % 256, (n / 256) % 256, n % 256]
  }

  function ReadU32be(b: Bytes): (n: nat)
    requires |b| >= 4
    ensures n < TWO_32
  {
    var b0: int, b1: int, b2: int, b3: int := b[0], b[1], b[2], b[3];
    b0 * 0x100_0000 + b1 * 0x1_0000 + b2 * 256 + b3
  }

  lemma ReadU32beInverts(n: int)
    ensures ReadU32be(U32be(n)) == n % TWO_32
  {
    var n1, n2, n3 := n / 256, n / 0x1_0000, n / 0x100_0000;
    assert n2 == n1 / 256 && n3 == n2 / 256;
    var n4 := n3 / 256;
    assert n == n4 * TWO_32 + ReadU32be(U32be(n));
  }

  /** Two numbers have the same encoding exactly when they agree modulo 2^32. */
  lemma U32beEqualIff(a: int, b: int)
    ensures U32be(a) == U32be(b) <==> a % TWO_32 == b % TWO_32
  {
    ReadU32beInverts(a);
    ReadU32beInverts(b);
    if a % TWO_32 == b % TWO_32 {
      ReadU32beInjective(U32be(a), U32be(b));
    }
  }

  lemma ReadU32beInjective(x: Bytes, y: Bytes)
    requires |x| == 4 && |y| == 4 && ReadU32be(x) == ReadU32be(y)
    ensures x == y
  {
    var x0: int, x1: int, x2: int, x3: int := x[0], x[1], x[2], x[3];
    var y0: int, y1: int, y2: int, y3: int := y[0], y[1], y[2], y[3];
    assert x0 == y0 && x1 == y1 && x2 == y2 && x3 == y3;
  }

  /** How many blocks hold the four-byte prefix and the message. */
  function Blocks(length: nat, block: nat): nat
    requires block > 0
  {
    (4 + length + block - 1) / block
  }

  function PaddedLength(length: nat, block: nat): nat
    requires block > 0
  {
    Blocks(length, block) * block
  }

  /** The padded length is the least multiple of the block size that holds the prefix and the message. */
  lemma PaddedLengthIsLeast(length: nat, block: nat)
    requires block > 0
    ensures 4 + length <= PaddedLength(length, block)
    ensures forall k: nat | 4 + length <= k * block :: Blocks(length, block) <= k
  {
    var t, q := 4 + length + block - 1, Blocks(length, block);
    assert t == (q - 1) * block + block + t % block;
    forall k: nat | 4 + length <= k * block ensures q <= k {
      if k < q {
        MultiplyMonotone(k, q - 1, block);
        assert false;
      }
    }
  }

  lemma MultiplyMonotone(a: nat, b: nat, c: nat)
    requires a <= b
    ensures a * c <= b * c
  {
    assert b * c == a * c + (b - a) * c;
  }

  function Zeros(n: nat): (z: Bytes)
    ensures |z| == n && forall i | 0 <= i < n :: z[i] == 0
  {
    seq(n, _ => 0)
  }

  function Pad(m: Bytes, block: nat): (p: Bytes)
    requires block > 0
    ensures |p| == PaddedLength(|m|, block)
  {
    PaddedLengthIsLeast(|m|, block);
    U32be(|m|) + m + Zeros(PaddedLength(|m|, block) - 4 - |m|)
  }

  datatype PaddingError = TooShort | BadLength

  function Unpad(p: Bytes): Result<Bytes, PaddingError> {
    if |p| < 4 then Err(TooShort)
    else
      var length := ReadU32be(p);
      if length > |p| - 4 then Err(BadLength) else Ok(p[4..4 + length])
  }

  /** The receiver recovers the message exactly when its length fits the 32-bit prefix. */
  lemma PadRoundTrip(m: Bytes, block: nat)
    requires block > 0
    ensures Unpad(Pad(m, block)) == Ok(m) <==> |m| < TWO_32
  {
    hide Pad, ReadU32be;
    PadParts(m, block);
    if |m| >= TWO_32 {
      assert |m| % TWO_32 < |m|;
    }
  }

  lemma PadParts(m: Bytes, block: nat)
    requires block > 0
    ensures var p := Pad(m, block);
      && 4 + |m| <= |p| && ReadU32be(p) == |m| % TWO_32 && p[4..4 + |m|] == m
  {
    var p := Pad(m, block);
    PaddedLengthIsLeast(|m|, block);
    ReadU32beInverts(|m|);
    var header := U32be(|m|);
    assert p == header + (m + Zeros(|p| - 4 - |m|));
    assert p[0] == header[0] && p[1] == header[1] && p[2] == header[2] && p[3] == header[3];
    assert p[4..4 + |m|] == m;
  }

  /** The padded message: its length, most significant byte first, the message, and zeros to the end. */
  lemma PaddedBytes(m: Bytes, block: nat, i: nat)
    requires block > 0 && i < |Pad(m, block)|
    ensures Pad(m, block)[i] ==
      if i < 4 then |m| / [0x100_0000, 0x1_0000, 0x100, 1][i] % 256
      else if i < 4 + |m| then m[i - 4]
      else 0
  {
    PaddedLengthIsLeast(|m|, block);
    assert Pad(m, block) == U32be(|m|) + (m + Zeros(PaddedLength(|m|, block) - 4 - |m|));
  }

  /** What any padded bytes unpad to: as many bytes behind the first four as those say, if there are that many. */
  lemma UnpadsIff(p: Bytes, m: Bytes)
    ensures Unpad(p) == Ok(m) <==>
      && 4 + |m| <= |p| && p[4..4 + |m|] == m
      && |m| == p[0] as int * 0x100_0000 + p[1] as int * 0x1_0000 + p[2] as int * 0x100 + p[3] as int
  {
    if |p| >= 4 {
      assert ReadU32be(p) == p[0] as int * 0x100_0000 + p[1] as int * 0x1_0000 + p[2] as int * 0x100 + p[3] as int;
      hide ReadU32be;
    }
  }

  /** Fills a fresh zeroed buffer in place, as the sender does before sealing. */
  method PadMessage(buf: Bytes, block: nat) returns (padded: array<Byte>)
    requires block > 0
    ensures fresh(padded) && padded[..] == Pad(buf, block)
  {
    PaddedLengthIsLeast(|buf|, block);
    padded := new Byte[PaddedLength(|buf|, block)](_ => 0);
    padded[0] := (|buf| / 0x100_0000) % 256;
    padded[1] := (|buf| / 0x1_0000) % 256;
    padded[2] := (|buf| / 256) % 256;
    padded[3] := |buf| % 256;
    forall i | 0 <= i < |buf| {
      padded[4 + i] := buf[i];
    }
    assert padded[..] == Pad(buf, block);
  }
}
