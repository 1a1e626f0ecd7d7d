/** Why a signature may be modelled as naming the words of a payload. */
module SignedWords {
  import opened Common
  import opened Padding
  import opened Symbolic
  import opened Ratchet
  import opened SigningPayload

  /** The byte strings that stand for keys, KEM ciphertexts, nonces and sealed boxes. */
  datatype Spelling = Spelling(key: Key -> Bytes, kem: KemCt -> Bytes, nonce: nat -> Bytes, box: Ciphertext -> Bytes)

  /** Different values are spelled differently. */
  ghost predicate Faithful(sp: Spelling) {
    && (forall a, b :: sp.key(a) == sp.key(b) ==> a == b)
    && (forall a, b :: sp.kem(a) == sp.kem(b) ==> a == b)
    && (forall a, b :: sp.nonce(a) == sp.nonce(b) ==> a == b)
    && (forall a, b :: sp.box(a) == sp.box(b) ==> a == b)
  }

  function Spelled(p: Payload, sp: Spelling): Fields {
    Fields(p.v, sp.key(p.senderDh), sp.key(p.senderSign), sp.key(p.recipientDh),
           sp.key(p.dh), sp.key(p.pqPk), sp.kem(p.pqCt), p.pn, p.n,
           p.first, p.otkId, sp.nonce(p.nonce), sp.box(p.ciphertext))
  }

  lemma SpelledSameIff(p: Payload, q: Payload, sp: Spelling)
    requires Faithful(sp)
    ensures SameModuloWrap(Spelled(p, sp), Spelled(q, sp)) <==> Words(p) == Words(q)
  {
    var f, g := Spelled(p, sp), Spelled(q, sp);
    if SameModuloWrap(f, g) {
      var h := g.(v := f.v, pn := f.pn, n := f.n, otkId := f.otkId);
      assert f.senderDhPk == h.senderDhPk && f.senderSignPk == h.senderSignPk && f.recipientDhPk == h.recipientDhPk;
      assert f.dh == h.dh && f.pqPk == h.pqPk && f.pqCt == h.pqCt && f.first == h.first;
      assert f.nonce == h.nonce && f.ciphertext == h.ciphertext;
    }
    if Words(p) == Words(q) {
      var a, b := Words(p), Words(q);
      assert a.senderDh == b.senderDh && a.senderSign == b.senderSign && a.recipientDh == b.recipientDh;
      assert a.dh == b.dh && a.pqPk == b.pqPk && a.pqCt == b.pqCt && a.first == b.first;
      assert a.nonce == b.nonce && a.ciphertext == b.ciphertext;
      assert a.v == b.v && a.pn == b.pn && a.n == b.n && a.otkId == b.otkId;
    }
  }

  /** Two payloads are signed as the same bytes exactly when their words agree. */
  lemma SignedBytesEqualIff(p: Payload, q: Payload, sp: Spelling)
    requires Faithful(sp) && LengthsFit(Spelled(p, sp)) && LengthsFit(Spelled(q, sp))
    ensures Encode(Spelled(p, sp)) == Encode(Spelled(q, sp)) <==> Words(p) == Words(q)
  {
    hide Encode;
    EncodeEqualIff(Spelled(p, sp), Spelled(q, sp));
    SpelledSameIff(p, q, sp);
  }

  /** Read back in the protocol's order, the signed bytes of a payload hold each of its fields in its own place. */
  lemma SignedBytesSay(p: Payload, sp: Spelling)
    requires LengthsFit(Spelled(p, sp))
    ensures var r := Decode(Encode(Spelled(p, sp)));
      r.Some? && r.value == Fields(
        p.v % TWO_32, sp.key(p.senderDh), sp.key(p.senderSign), sp.key(p.recipientDh),
        sp.key(p.dh), sp.key(p.pqPk), sp.kem(p.pqCt), p.pn % TWO_32, p.n % TWO_32,
        p.first, p.otkId % TWO_32, sp.nonce(p.nonce), sp.box(p.ciphertext))
  {
    hide Encode, Decode;
    DecodeEncode(Spelled(p, sp));
  }
}
