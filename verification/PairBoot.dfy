/** The two bootstrap cases in which sessions fail to agree, with the exact conditions. */
module PairBoot {
  import opened Common
  import opened Padding
  import opened Symbolic
  import opened Ratchet
  import opened Pair
  import opened PairWorld

  /**
   * The first envelope of one fresh session is accepted by the peer's fresh
   * session exactly when both mixed in the same one-time secret, or neither did.
   */
  lemma FirstMessageAcceptedIff(
    a: Identity, b: Identity, otkA: OneTime, otkB: OneTime, text: Bytes, nonce: nat, seed: nat, seed': nat)
    requires NewSession(a, b, otkA).Some? && NewSession(b, a, otkB).Some? && |text| < TWO_32
    ensures
      var e := Encrypt(NewSession(a, b, otkA).value, text, nonce, seed).1;
      Decrypt(NewSession(b, a, otkB).value, e, seed').Ok?
      <==> OneTimeSecret(a, b, otkA) == OneTimeSecret(b, a, otkB)
  {
    hide Pad, ReadChain;
    var s, t := NewSession(a, b, otkA).value, NewSession(b, a, otkB).value;
    var r := FirstSend(s, seed);
    var p := SignedPayload(r, text, nonce);
    assert Authenticate(t, Wire(p, true)) == Ok(p);
    var c := Chain(s.rk, Mix(Shared(b.kem, seed), DH(seed, b.signedDh)));
    RootsAgreeIff(a, b, otkA, otkB);
    EstablishedChain(t, p, seed');
    ReadChainIff(EstablishFirst(t, p, seed'), p, c, 0, text);
  }

  lemma EstablishedChain(s: State, p: Payload, seed: nat)
    requires s.Coherent()
    ensures
      var r := EstablishFirst(s, p, seed);
      && r.Coherent() && r.ckr == Some(ChainKey(Chain(s.rk, FirstMix(s.me, p)), 0)) && r.nr == s.nr
  {
  }

  // ---- Restarts before any traffic ----

  /** A session of b with a that has neither sent nor received, before or after a restart. */
  function Idle(b: Identity, a: Identity, otk: OneTime, restarted: bool): State
    requires NewSession(b, a, otk).Some?
  {
    var t := NewSession(b, a, otk).value;
    if restarted then Restart(t) else t
  }

  /** The first message of a, sent with key k. */
  function Opening(a: Identity, b: Identity, otk: OneTime, text: Bytes, k: nat): (State, Envelope)
    requires NewSession(a, b, otk).Some?
  {
    Encrypt(NewSession(a, b, otk).value, text, 0, k)
  }

  function ReplyChain(a: Identity, b: Identity, otk: OneTime, k: nat): Chain {
    Chain(BootstrapRoot(a, b, otk), Mix(Shared(k, k + 1), DH(k + 1, k)))
  }

  /** What b holds once it has read the first message: ready to reply, on the chain that answers a's key. */
  predicate ReadyToReply(v: State, a: Identity, b: Identity, otk: OneTime, restarted: bool, k: nat) {
    && v.Coherent() && v.me == b && v.peer == a && v.isFirst == restarted && v.lastSentDh.None?
    && (v.otkId.Some? ==> v.otkId.value >= 0)
    && v.cks == Some(ChainKey(ReplyChain(a, b, otk, k), 0)) && v.dhs == Some(k + 1) && v.pqs == Some(k + 1)
    && v.nextPqCt == KemCt(k, k + 1) && v.pn == 0 && v.ns == 0
  }

  /** Both sides can start, with the same one-time secret. */
  predicate SameStart(a: Identity, b: Identity, otkA: OneTime, otkB: OneTime) {
    && NewSession(a, b, otkA).Some? && NewSession(b, a, otkB).Some?
    && OneTimeSecret(a, b, otkA) == OneTimeSecret(b, a, otkB)
  }

  lemma ReadsOpening(a: Identity, b: Identity, otkA: OneTime, otkB: OneTime, first: Bytes, restarted: bool, k: nat)
    requires SameStart(a, b, otkA, otkB) && |first| < TWO_32
    ensures
      var r := Decrypt(Idle(b, a, otkB, restarted), Opening(a, b, otkA, first, k).1, k + 1);
      r.Ok? && r.value.1 == first && ReadyToReply(r.value.0, a, b, otkA, restarted, k)
  {
    hide Pad, ReadChain;
    var s, t := NewSession(a, b, otkA).value, Idle(b, a, otkB, restarted);
    var p := SignedPayload(FirstSend(s, k), first, 0);
    assert Authenticate(t, Wire(p, true)) == Ok(p);
    var c := Chain(s.rk, Mix(Shared(b.kem, k), DH(k, b.signedDh)));
    RootsAgreeIff(a, b, otkA, otkB);
    EstablishedChain(t, p, k + 1);
    ReadChainIff(EstablishFirst(t, p, k + 1), p, c, 0, first);
  }

  lemma ReplyOutcome(
    s: State, v: State, a: Identity, b: Identity, otk: OneTime, first: Bytes, reply: Bytes, restarted: bool, k: nat)
    requires NewSession(a, b, otk).Some? && a.kem < k && |reply| < TWO_32
    requires s == Opening(a, b, otk, first, k).0 && ReadyToReply(v, a, b, otk, restarted, k)
    ensures Decrypt(s, Encrypt(v, reply, 0, k + 2).1, k + 3).Ok? <==> !restarted
  {
    hide Pad, ReadChain;
    var q := SignedPayload(v, reply, 0);
    assert Authenticate(s, Wire(q, true)) == Ok(q);
    if restarted {
      EstablishedChain(s, q, k + 3);
      ReadChainIff(EstablishFirst(s, q, k + 3), q, ReplyChain(a, b, otk, k), 0, reply);
    } else {
      RatchetedChain(s, q, k + 3);
      ReadChainIff(DhRatchet(s, q, k + 3), q, ReplyChain(a, b, otk, k), 0, reply);
    }
  }

  lemma RatchetedChain(s: State, p: Payload, seed: nat)
    requires s.Coherent() && s.cks.Some?
    ensures
      var r := DhRatchet(s, p, seed);
      && r.Coherent() && r.ckr == Some(ChainKey(Chain(s.rk, RatchetMix(s, p)), 0)) && r.nr == 0
  {
  }

  /**
   * A session restarted before any traffic takes its first reply for a first
   * message, and the peer, which is waiting for exactly that reply, refuses it;
   * the reply of a session that was not restarted is accepted. One-time prekeys
   * make no difference.
   */
  lemma IdleRestartLosesTheReply(
    a: Identity, b: Identity, otkA: OneTime, otkB: OneTime, first: Bytes, reply: Bytes, restarted: bool, k: nat)
    requires SameStart(a, b, otkA, otkB) && a.kem < k && |first| < TWO_32 && |reply| < TWO_32
    ensures
      var (s, e) := Opening(a, b, otkA, first, k);
      var r := Decrypt(Idle(b, a, otkB, restarted), e, k + 1);
      && r.Ok? && r.value.1 == first && r.value.0.Coherent()
      && (Decrypt(s, Encrypt(r.value.0, reply, 0, k + 2).1, k + 3).Ok? <==> !restarted)
  {
    ReadsOpening(a, b, otkA, otkB, first, restarted, k);
    hide Pad, Encrypt, Decrypt, Idle, NewSession;
    var v := Decrypt(Idle(b, a, otkB, restarted), Opening(a, b, otkA, first, k).1, k + 1).value.0;
    ReplyOutcome(Opening(a, b, otkA, first, k).0, v, a, b, otkA, first, reply, restarted, k);
  }

  /**
   * The session a receiver builds on first contact: with its own prekey if the envelope names that one, and no session
   * if it names another.
   */
  function Contacted(b: Identity, a: Identity, e: Envelope, id: nat, key: Key): Option<State> {
    if e.header.None? then None
    else if e.header.value.otkId.None? then NewSession(b, a, NoOneTime)
    else if e.header.value.otkId == Some(id) then NewSession(b, a, OwnPrekey(id, key))
    else None
  }

  lemma FirstSendAuthenticates(s: State, t: State, text: Bytes, nonce: nat, seed: nat)
    requires s.Coherent() && t.Coherent() && s.cks.None? && s.me == t.peer && t.me == s.peer
    requires s.otkId.Some? ==> s.otkId.value >= 0
    ensures
      var p := SignedPayload(FirstSend(s, seed), text, nonce);
      && Encrypt(s, text, nonce, seed).1 == Wire(p, true) && Authenticate(t, Wire(p, true)) == Ok(p) && p.first
      && p.otkId == (if s.otkId.Some? then s.otkId.value else -1)
  {
    hide Pad;
  }

  /**
   * A session restarted before its first message no longer names the one-time prekey in it, while its root still holds
   * the secret: the receiver builds a session without, and reads the message exactly if there was no prekey to forget.
   */
  lemma IdleRestartForgetsThePrekey(
    a: Identity, b: Identity, otk: OneTime, id: nat, key: Key, text: Bytes, restarted: bool, seed: nat, seed': nat)
    requires otk == NoOneTime || otk == FromPeer(id, key, b.sign)
    requires NewSession(a, b, otk).Some? && |text| < TWO_32
    ensures
      var e := Encrypt(Idle(a, b, otk, restarted), text, 0, seed).1;
      var t := Contacted(b, a, e, id, key);
      && t.Some? && (Decrypt(t.value, e, seed').Ok? <==> !restarted || otk == NoOneTime)
  {
    var s := Idle(a, b, otk, restarted);
    var named := otk != NoOneTime && !restarted;
    var otkB := if named then OwnPrekey(id, key) else NoOneTime;
    var t := NewSession(b, a, otkB).value;
    FirstSendAuthenticates(s, t, text, 0, seed);
    var p := SignedPayload(FirstSend(s, seed), text, 0);
    hide Pad, ReadChain, Authenticate, Encrypt;
    assert Contacted(b, a, Wire(p, true), id, key) == Some(t);
    var c := Chain(s.rk, Mix(Shared(b.kem, seed), DH(seed, b.signedDh)));
    RootsAgreeIff(a, b, otk, otkB);
    EstablishedChain(t, p, seed');
    ReadChainIff(EstablishFirst(t, p, seed'), p, c, 0, text);
  }
}
