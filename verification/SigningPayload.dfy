/** The byte string an envelope signature covers, and why signing it is signing the fields. */
module SigningPayload {
  import opened Common
  import opened Padding

  datatype Fields = Fields(
    v: int, senderDhPk: Bytes, senderSignPk: Bytes, recipientDhPk: Bytes,
    dh: Bytes, pqPk: Bytes, pqCt: Bytes, pn: int, n: int,
    first: bool, otkId: int, nonce: Bytes, ciphertext: Bytes)

  /** A length prefix and the bytes it announces. */
  function Framed(b: Bytes): Bytes {
    U32be(|b|) + b
  }

  function Encode(f: Fields): Bytes {
    U32be(f.v) + (Framed(f.senderDhPk) + (Framed(f.senderSignPk) + (Framed(f.recipientDhPk) +
    (Framed(f.dh) + (Framed(f.pqPk) + (Framed(f.pqCt) +
    (U32be(f.pn) + (U32be(f.n) + (U32be(if f.first then 1 else 0) + (U32be(f.otkId) +
    (Framed(f.nonce) + Framed(f.ciphertext))))))))))))
  }

  predicate LengthsFit(f: Fields) {
    && |f.senderDhPk| < TWO_32 && |f.senderSignPk| < TWO_32 && |f.recipientDhPk| < TWO_32
    && |f.dh| < TWO_32 && |f.pqPk| < TWO_32 && |f.pqCt| < TWO_32
    && |f.nonce| < TWO_32 && |f.ciphertext| < TWO_32
  }

  /** The tuples the fixed-width counters can tell apart from any other. */
  predicate Bounded(f: Fields) {
    && LengthsFit(f)
    && 0 <= f.v < TWO_32 && 0 <= f.pn < TWO_32 && 0 <= f.n < TWO_32
    && -1 <= f.otkId < TWO_32 - 1
  }

  /** Equal up to the wrap-around of the four fixed-width numbers. */
  predicate SameModuloWrap(f: Fields, g: Fields) {
    && f.v % TWO_32 == g.v % TWO_32 && f.pn % TWO_32 == g.pn % TWO_32
    && f.n % TWO_32 == g.n % TWO_32 && f.otkId % TWO_32 == g.otkId % TWO_32
    && f == g.(v := f.v, pn := f.pn, n := f.n, otkId := f.otkId)
  }

  lemma NumberPrefix(a: int, b: int, x: Bytes, y: Bytes)
    requires U32be(a) + x == U32be(b) + y
    ensures a % TWO_32 == b % TWO_32 && x == y
  {
    assert (U32be(a) + x)[..4] == U32be(a);
    assert (U32be(b) + y)[..4] == U32be(b);
    assert (U32be(a) + x)[4..] == x;
    assert (U32be(b) + y)[4..] == y;
    U32beEqualIff(a, b);
  }

  lemma FramedPrefix(a: Bytes, b: Bytes, x: Bytes, y: Bytes)
    requires |a| < TWO_32 && |b| < TWO_32
    requires Framed(a) + x == Framed(b) + y
    ensures a == b && x == y
  {
    assert Framed(a) + x == U32be(|a|) + (a + x);
    assert Framed(b) + y == U32be(|b|) + (b + y);
    NumberPrefix(|a|, |b|, a + x, b + y);
    SmallResidue(|a|, |b|);
    assert |a| == |b|;
    var ax, bx := a + x, b + y;
    assert a == ax[..|a|] && x == ax[|a|..];
    assert b == bx[..|b|] && y == bx[|b|..];
  }

  lemma FramedEqual(a: Bytes, b: Bytes)
    requires |a| < TWO_32 && |b| < TWO_32
    requires Framed(a) == Framed(b)
    ensures a == b
  {
    assert Framed(a) + [] == Framed(a) && Framed(b) + [] == Framed(b);
    FramedPrefix(a, b, [], []);
  }

  /** Signed bytes coincide exactly for tuples that differ at most by counter wrap-around. */
  lemma EncodeEqualIff(f: Fields, g: Fields)
    requires LengthsFit(f) && LengthsFit(g)
    ensures Encode(f) == Encode(g) <==> SameModuloWrap(f, g)
  {
    if Encode(f) == Encode(g) {
      EncodeSeparates(f, g);
    }
    if SameModuloWrap(f, g) {
      U32beEqualIff(f.v, g.v);
      U32beEqualIff(f.pn, g.pn);
      U32beEqualIff(f.n, g.n);
      U32beEqualIff(f.otkId, g.otkId);
    }
  }

  /** Everything after the ratchet key: the tail of Encode. */
  function Tail(f: Fields): Bytes {
    U32be(f.pn) + (U32be(f.n) + (U32be(if f.first then 1 else 0) + (U32be(f.otkId) +
    (Framed(f.nonce) + Framed(f.ciphertext)))))
  }

  lemma TailSeparates(f: Fields, g: Fields)
    requires LengthsFit(f) && LengthsFit(g) && Tail(f) == Tail(g)
    ensures f.pn % TWO_32 == g.pn % TWO_32 && f.n % TWO_32 == g.n % TWO_32
    ensures f.first == g.first && f.otkId % TWO_32 == g.otkId % TWO_32
    ensures f.nonce == g.nonce && f.ciphertext == g.ciphertext
  {
    var f4, g4 := Framed(f.nonce) + Framed(f.ciphertext), Framed(g.nonce) + Framed(g.ciphertext);
    var f3, g3 := U32be(f.otkId) + f4, U32be(g.otkId) + g4;
    var ff, gf := if f.first then 1 else 0, if g.first then 1 else 0;
    var f2, g2 := U32be(ff) + f3, U32be(gf) + g3;
    NumberPrefix(f.pn, g.pn, U32be(f.n) + f2, U32be(g.n) + g2);
    NumberPrefix(f.n, g.n, f2, g2);
    NumberPrefix(ff, gf, f3, g3);
    NumberPrefix(f.otkId, g.otkId, f4, g4);
    FramedPrefix(f.nonce, g.nonce, Framed(f.ciphertext), Framed(g.ciphertext));
    FramedEqual(f.ciphertext, g.ciphertext);
  }

  lemma EncodeSeparates(f: Fields, g: Fields)
    requires LengthsFit(f) && LengthsFit(g) && Encode(f) == Encode(g)
    ensures SameModuloWrap(f, g)
  {
    var f6, g6 := Framed(f.pqCt) + Tail(f), Framed(g.pqCt) + Tail(g);
    var f5, g5 := Framed(f.pqPk) + f6, Framed(g.pqPk) + g6;
    var f4, g4 := Framed(f.dh) + f5, Framed(g.dh) + g5;
    var f3, g3 := Framed(f.recipientDhPk) + f4, Framed(g.recipientDhPk) + g4;
    var f2, g2 := Framed(f.senderSignPk) + f3, Framed(g.senderSignPk) + g3;
    NumberPrefix(f.v, g.v, Framed(f.senderDhPk) + f2, Framed(g.senderDhPk) + g2);
    FramedPrefix(f.senderDhPk, g.senderDhPk, f2, g2);
    FramedPrefix(f.senderSignPk, g.senderSignPk, f3, g3);
    FramedPrefix(f.recipientDhPk, g.recipientDhPk, f4, g4);
    FramedPrefix(f.dh, g.dh, f5, g5);
    FramedPrefix(f.pqPk, g.pqPk, f6, g6);
    FramedPrefix(f.pqCt, g.pqCt, Tail(f), Tail(g));
    TailSeparates(f, g);
  }

  /** Within 32-bit counters a signature over the bytes is a signature over the fields. */
  lemma EncodeInjective(f: Fields, g: Fields)
    requires Bounded(f) && Bounded(g)
    requires Encode(f) == Encode(g)
    ensures f == g
  {
    EncodeSeparates(f, g);
    SmallResidue(f.v, g.v);
    SmallResidue(f.pn, g.pn);
    SmallResidue(f.n, g.n);
    SmallResidue(f.otkId, g.otkId);
  }

  lemma SmallResidue(a: int, b: int)
    requires -1 <= a < TWO_32 && -1 <= b < TWO_32 && -TWO_32 < a - b < TWO_32
    requires a % TWO_32 == b % TWO_32
    ensures a == b
  {
    var qa, qb := a / TWO_32, b / TWO_32;
    assert a == qa * TWO_32 + a % TWO_32 && b == qb * TWO_32 + b % TWO_32;
    assert a - b == (qa - qb) * TWO_32;
  }

  // ---- Reading the bytes ----

  /** A number at the front of some bytes, and the rest. */
  function TakeNumber(b: Bytes): Option<(nat, Bytes)> {
    if |b| < 4 then None else Some((ReadU32be(b), b[4..]))
  }

  /** A length and as many bytes at the front, and the rest. */
  function TakeBytes(b: Bytes): Option<(Bytes, Bytes)> {
    match TakeNumber(b)
    case None => None
    case Some((length, rest)) => if |rest| < length then None else Some((rest[..length], rest[length..]))
  }

  /** The five keys behind the version and the KEM ciphertext, front to back. */
  datatype Keys = Keys(
    senderDhPk: Bytes, senderSignPk: Bytes, recipientDhPk: Bytes, dh: Bytes, pqPk: Bytes, pqCt: Bytes)

  function TakeKeys(b: Bytes): Option<(Keys, Bytes)> {
    match TakeBytes(b)
    case None => None
    case Some((senderDhPk, b1)) =>
      match TakeBytes(b1)
      case None => None
      case Some((senderSignPk, b2)) =>
        match TakeBytes(b2)
        case None => None
        case Some((recipientDhPk, b3)) =>
          match TakeBytes(b3)
          case None => None
          case Some((dh, b4)) =>
            match TakeBytes(b4)
            case None => None
            case Some((pqPk, b5)) =>
              match TakeBytes(b5)
              case None => None
              case Some((pqCt, b6)) => Some((Keys(senderDhPk, senderSignPk, recipientDhPk, dh, pqPk, pqCt), b6))
  }

  datatype Counters = Counters(pn: nat, n: nat, first: nat, otkId: nat)

  function TakeCounters(b: Bytes): Option<(Counters, Bytes)> {
    if |b| < 16 then None
    else Some((Counters(ReadU32be(b), ReadU32be(b[4..]), ReadU32be(b[8..]), ReadU32be(b[12..])), b[16..]))
  }

  /**
   * Reads signed bytes in the order of the protocol: version, sender, sender's signing key, recipient, ratchet key, KEM
   * key, KEM ciphertext, previous chain length, position, first flag, one-time prekey id, nonce, ciphertext.
   */
  function Decode(b: Bytes): Option<Fields> {
    match TakeNumber(b)
    case None => None
    case Some((v, b1)) =>
      match TakeKeys(b1)
      case None => None
      case Some((k, b2)) =>
        match TakeCounters(b2)
        case None => None
        case Some((c, b3)) =>
          match TakeBytes(b3)
          case None => None
          case Some((nonce, b4)) =>
            match TakeBytes(b4)
            case None => None
            case Some((ciphertext, end)) =>
              if end != [] || c.first > 1 then None
              else Some(Fields(v, k.senderDhPk, k.senderSignPk, k.recipientDhPk, k.dh, k.pqPk, k.pqCt,
                               c.pn, c.n, c.first == 1, c.otkId, nonce, ciphertext))
  }

  lemma ReadFront(n: int, x: Bytes)
    ensures ReadU32be(U32be(n) + x) == n % TWO_32 && (U32be(n) + x)[4..] == x
  {
    ReadU32beInverts(n);
    var h, b := U32be(n), U32be(n) + x;
    assert b[0] == h[0] && b[1] == h[1] && b[2] == h[2] && b[3] == h[3];
  }

  lemma TakesNumber(n: int, x: Bytes)
    ensures TakeNumber(U32be(n) + x) == Some((n % TWO_32, x))
  {
    ReadFront(n, x);
  }

  lemma TakesBytes(a: Bytes, x: Bytes)
    requires |a| < TWO_32
    ensures TakeBytes(Framed(a) + x) == Some((a, x))
  {
    assert Framed(a) + x == U32be(|a|) + (a + x);
    TakesNumber(|a|, a + x);
    assert (a + x)[..|a|] == a && (a + x)[|a|..] == x;
  }

  lemma TakesKeys(f: Fields, x: Bytes)
    requires LengthsFit(f)
    ensures TakeKeys(Framed(f.senderDhPk) + (Framed(f.senderSignPk) + (Framed(f.recipientDhPk) +
      (Framed(f.dh) + (Framed(f.pqPk) + (Framed(f.pqCt) + x))))))
      == Some((Keys(f.senderDhPk, f.senderSignPk, f.recipientDhPk, f.dh, f.pqPk, f.pqCt), x))
  {
    hide TakeBytes, Framed;
    var b6 := Framed(f.pqCt) + x;
    var b5 := Framed(f.pqPk) + b6;
    var b4 := Framed(f.dh) + b5;
    var b3 := Framed(f.recipientDhPk) + b4;
    var b2 := Framed(f.senderSignPk) + b3;
    TakesBytes(f.senderDhPk, b2);
    TakesBytes(f.senderSignPk, b3);
    TakesBytes(f.recipientDhPk, b4);
    TakesBytes(f.dh, b5);
    TakesBytes(f.pqPk, b6);
    TakesBytes(f.pqCt, x);
  }

  lemma TakesCounters(f: Fields, x: Bytes)
    ensures TakeCounters(U32be(f.pn) + (U32be(f.n) + (U32be(if f.first then 1 else 0) + (U32be(f.otkId) + x))))
      == Some((Counters(f.pn % TWO_32, f.n % TWO_32, if f.first then 1 else 0, f.otkId % TWO_32), x))
  {
    hide ReadU32be, U32be;
    var ff := if f.first then 1 else 0;
    var b4 := U32be(f.otkId) + x;
    var b3 := U32be(ff) + b4;
    var b2 := U32be(f.n) + b3;
    var b := U32be(f.pn) + b2;
    ReadFront(f.pn, b2);
    ReadFront(f.n, b3);
    ReadFront(ff, b4);
    ReadFront(f.otkId, x);
    assert b[4..] == b2 && b[8..] == b2[4..] && b[12..] == b3[4..] && b[16..] == b4[4..];
  }

  /** The signed bytes read back field by field, in the protocol's order, up to the 32-bit wrap of the numbers. */
  lemma DecodeEncode(f: Fields)
    requires LengthsFit(f)
    ensures Decode(Encode(f)) == Some(f.(v := f.v % TWO_32, pn := f.pn % TWO_32, n := f.n % TWO_32,
                                         otkId := f.otkId % TWO_32))
  {
    hide TakeBytes, TakeNumber, TakeKeys, TakeCounters, U32be, Framed;
    var last := Framed(f.ciphertext);
    var b4 := Framed(f.nonce) + last;
    var b3 := U32be(f.pn) + (U32be(f.n) + (U32be(if f.first then 1 else 0) + (U32be(f.otkId) + b4)));
    TakesKeys(f, b3);
    TakesCounters(f, b4);
    TakesBytes(f.nonce, last);
    TakesBytes(f.ciphertext, []);
    assert last + [] == last;
    TakesNumber(f.v, Framed(f.senderDhPk) + (Framed(f.senderSignPk) + (Framed(f.recipientDhPk) +
      (Framed(f.dh) + (Framed(f.pqPk) + (Framed(f.pqCt) + b3))))));
  }
}
