/** What a session starts from, and what an authentic envelope is. */
module SessionStart {
  import opened Common
  import opened OrderedMap
  import opened Padding
  import opened Symbolic
  import opened Ratchet

  /** The two key pairs that can compute a secret. */
  function KeysIn(d: DhSecret): set<Key> {
    {d.lo, d.hi}
  }

  /** The prekey and the static key of whoever used it. */
  function OneTimeKeys(me: Identity, peer: Identity, otk: OneTime): set<Key> {
    match otk
    case NoOneTime => {}
    case FromPeer(_, dh, _) => {me.dh, dh}
    case OwnPrekey(_, dh) => {peer.dh, dh}
  }

  /**
   * The root mixes the secret of the two static keys, that of the two signed prekeys and, on top, that of a one-time
   * prekey with the static key of the side that did not publish it; the token holds the same three.
   */
  lemma RootIngredients(me: Identity, peer: Identity, otk: OneTime)
    requires NewSession(me, peer, otk).Some?
    ensures
      var s := NewSession(me, peer, otk).value;
      var base := if otk == NoOneTime then s.rk else if s.rk.WithOneTime? then s.rk.bootstrap else s.rk;
      && (otk == NoOneTime || s.rk.WithOneTime?)
      && base.Initial?
      && KeysIn(base.staticSs) == {me.dh, peer.dh} && KeysIn(base.signedSs) == {me.signedDh, peer.signedDh}
      && (otk != NoOneTime ==> KeysIn(s.rk.otkSs) == OneTimeKeys(me, peer, otk))
      && s.token.staticSs == base.staticSs && s.token.signedSs == base.signedSs
      && s.token.otkSs == (if otk == NoOneTime then None else Some(s.rk.otkSs))
  {
  }

  /** A session starts unless its one-time prekey is not the peer's, and starts with nothing sent or received. */
  lemma StartsIff(me: Identity, peer: Identity, otk: OneTime)
    ensures NewSession(me, peer, otk).Some? <==> (otk.FromPeer? ==> otk.signer == peer.sign)
    ensures NewSession(me, peer, otk).Some? ==> (
      var s := NewSession(me, peer, otk).value;
      && s.me == me && s.peer == peer && s.otkId == (if otk == NoOneTime then None else Some(otk.id as int))
      && s.dhs.None? && s.pqs.None? && s.cks.None? && s.nextPqCt == NoCt
      && s.dhr.None? && s.pqr.None? && s.ckr.None? && s.ns == 0 && s.nr == 0 && s.pn == 0
      && s.mkskip == [] && s.epochs == [] && s.lastSentDh.None? && !s.isFirst && !s.firstBuilt)
  {
  }

  /** Header and payload agree on the KEM material, or the header leaves it to the remembered epoch. */
  predicate KemCarried(s: State, h: Header, p: Payload) {
    if h.pqPk.Some? then
      p.pqPk == h.pqPk.value && p.pqCt == (if h.pqCt.Some? then h.pqCt.value else NoCt)
    else
      && !p.first && Has(s.epochs, h.dh) && p.pqPk == Get(s.epochs, h.dh).pk
      && p.pqCt == (if h.pqCt.Some? then h.pqCt.value else Get(s.epochs, h.dh).ct)
  }

  predicate HeaderCarries(h: Header, p: Payload) {
    && p.dh == h.dh && p.pn == h.pn && p.n == h.n && h.n >= 0 && h.pn >= 0
    && !h.first.NotBoolean? && (p.first <==> h.first == Flag(true))
    && (if h.otkId.Some? then p.otkId == h.otkId.value >= 0 else p.otkId == -1)
  }

  /** e brings payload p from the session's peer to the session's owner, under the peer's signature. */
  predicate Carries(s: State, e: Envelope, p: Payload) {
    && e.v == 6 && p.v == 6 && e.header.Some?
    && HeaderCarries(e.header.value, p) && KemCarried(s, e.header.value, p) && (p.first ==> p.pqCt != NoCt)
    && p.senderDh == e.senderDh == s.peer.dh && p.recipientDh == s.me.dh
    && p.senderSign == s.peer.sign && (e.senderSign.Some? ==> e.senderSign.value == s.peer.sign)
    && p.nonce == e.nonce && p.ciphertext == e.ciphertext
    && e.signature == Signature(s.peer.sign, Words(p))
  }

  /** Every check on an envelope, as one condition. */
  lemma AuthenticIff(s: State, e: Envelope, p: Payload)
    ensures Authenticate(s, e) == Ok(p) <==> Carries(s, e, p)
  {
    hide Words, Has, Get;
    if Carries(s, e, p) {
      assert Authenticate(s, e) == Ok(p);
    }
  }

  // ---- Skipping ----

  /** The keys of the current chain from the next position up to `until`, in order. */
  function NextKeys(s: State, until: int): (r: seq<(SkipKey, MessageKey)>)
    requires s.Coherent() && s.ckr.Some?
  {
    if until <= s.nr then []
    else
      var dh, chain, nr := s.dhr.value, s.ckr.value.chain, s.nr;
      seq(until - nr, i requires 0 <= i < until - nr => ((dh, nr + i), MessageKey(chain, nr + i)))
  }

  lemma HasAppended<K, V>(m: seq<(K, V)>, e: (K, V), k: K)
    ensures Has(m + [e], k) <==> Has(m, k) || e.0 == k
  {
    assert (m + [e])[..|m|] == m;
  }

  lemma {:induction false} StoresInOrder(s: State, until: int)
    requires s.Coherent() && s.ckr.Some? && s.ckr.value.index == s.nr
    requires forall k: nat | s.nr <= k :: !Has(s.mkskip, (s.dhr.value, k))
    ensures StoreKeysUntil(s, until).mkskip == s.mkskip + NextKeys(s, until)
    decreases until - s.nr
  {
    if s.nr < until {
      var r := StoreNextKey(s);
      var e := ((s.dhr.value, s.nr), MessageKey(s.ckr.value.chain, s.nr));
      assert r.mkskip == s.mkskip + [e];
      forall k: nat | r.nr <= k ensures !Has(r.mkskip, (r.dhr.value, k)) {
        HasAppended(s.mkskip, e, (r.dhr.value, k));
      }
      StoresInOrder(r, until);
      assert [e] + NextKeys(r, until) == NextKeys(s, until);
      assert s.mkskip + [e] + NextKeys(r, until) == s.mkskip + ([e] + NextKeys(r, until));
    }
  }

  /**
   * Skipping within the limit files the key of every position passed behind those already stored, each under its own
   * position, and keeps the last 2000 of them all; beyond the limit it refuses.
   */
  lemma SkipsExactly(s: State, until: int)
    requires s.Coherent() && s.ckr.Some? && s.ckr.value.index == s.nr
    requires forall k: nat | s.nr <= k :: !Has(s.mkskip, (s.dhr.value, k))
    ensures until - s.nr > 1000 ==> SkipMessageKeys(s, until) == Err(TooManySkipped)
    ensures
      var all := s.mkskip + NextKeys(s, until);
      until - s.nr <= 1000 ==> (
        && SkipMessageKeys(s, until).Ok?
        && SkipMessageKeys(s, until).value.mkskip == all[if |all| <= 2000 then 0 else |all| - 2000..])
  {
    StoresInOrder(s, until);
    hide StoreKeysUntil;
  }

  // ---- The first receive ----

  /**
   * A session that reads its first message ratchets its sending chain if it has none, or if it has the larger static
   * key of two that wrote first; else its sending chain and counters stay as they were.
   */
  lemma FirstReceive(s: State, p: Payload, seed: nat)
    requires s.Coherent() && p.n >= 0 && p.first && DecryptPayload(s, p, seed).Ok?
    ensures
      var r := DecryptPayload(s, p, seed).value.0;
      && s.ckr.None? && r.dhr == Some(p.dh) && r.pqr == Some(p.pqPk)
      && (if s.cks.None? then r.dhs == Some(seed) && r.ns == s.ns && r.pn == s.pn
          else if s.me.dh > s.peer.dh then r.dhs == Some(seed) && r.ns == 0 && r.pn == s.ns
          else r.dhs == s.dhs && r.cks == s.cks && r.ns == s.ns && r.pn == s.pn && r.rk == s.rk)
  {
    hide RememberEpoch, Newest;
    SkipKeepsShape(EstablishFirst(s, p, seed), p.n);
    hide SkipMessageKeys;
  }

  // ---- Sending and restoring ----

  /** A message is sealed with its length hidden in blocks of 256 bytes, and opens to the text if that fits 32 bits. */
  lemma SealedInBlocks(s: State, text: Bytes, nonce: nat, seed: nat)
    requires s.Coherent()
    ensures
      var e := Encrypt(s, text, nonce, seed).1;
      && e.nonce == nonce && e.ciphertext.Sealed? && e.ciphertext.nonce == nonce
      && |e.ciphertext.padded| % 256 == 0 && 4 + |text| <= |e.ciphertext.padded| < 4 + |text| + 256
      && (Unpad(e.ciphertext.padded) == Ok(text) <==> |text| < TWO_32)
  {
    PaddedLengthIsLeast(|text|, 256);
    PadRoundTrip(text, 256);
    hide Pad;
  }

  /** Data saved without its current epoch in the memory gets it back from the peer's keys, with no KEM ciphertext. */
  lemma RestoreRemembers(me: Identity, d: Saved, x: Key)
    ensures
      var r := Restore(me, d);
      var lost := d.dhr.Some? && d.pqr.Some? && !Has(d.epochs, d.dhr.value);
      && (!lost ==> r.epochs == d.epochs)
      && (lost ==> Has(r.epochs, d.dhr.value) && Get(r.epochs, d.dhr.value) == Epoch(d.pqr.value, NoCt))
      && (lost && Has(d.epochs, x) ==> Has(r.epochs, x) && Get(r.epochs, x) == Get(d.epochs, x))
  {
    if d.dhr.Some? && d.pqr.Some? && !Has(d.epochs, d.dhr.value) {
      FoundLast(d.epochs, d.dhr.value, Epoch(d.pqr.value, NoCt), x);
    }
  }

  lemma FoundLast(m: seq<(Key, Epoch)>, k: Key, v: Epoch, x: Key)
    requires !Has(m, k)
    ensures var r := Set(m, k, v);
      Has(r, k) && Get(r, k) == v && (Has(m, x) ==> Has(r, x) && Get(r, x) == Get(m, x))
  {
    var r := Set(m, k, v);
    assert r == m + [(k, v)] && r[..|m|] == m;
  }
}
