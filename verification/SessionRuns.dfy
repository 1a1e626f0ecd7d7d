/**
 * What one session keeps over every run, whatever envelopes reach it: nothing
 * here assumes an honest peer or an honest channel.
 */
module SessionRuns {
  import opened Common
  import opened OrderedMap
  import opened Padding
  import opened Symbolic
  import opened Ratchet

  /** A KEM secret decapsulated with key k. */
  predicate DecapsulatedBy(kem: KemSecret, k: Key) {
    (kem.Shared? && kem.to == k) || (kem.Rejected? && kem.holder == k)
  }

  /** A chain this session may already have received on: older than the root, or its bootstrap chain. */
  predicate Known(s: State, c: Chain) {
    Depth(c.root) < Depth(s.rk) || (Depth(c.root) == Depth(s.rk) && DecapsulatedBy(c.mix.kem, s.me.kem))
  }

  /** A message key that was derived before now. */
  predicate Derived(s: State, mk: MessageKey) {
    Known(s, mk.chain) && (s.ckr.Some? && mk.chain == s.ckr.value.chain ==> mk.index < s.nr)
  }

  ghost predicate DerivedOnce(s: State, used: set<MessageKey>) {
    && (forall mk | mk in used :: Derived(s, mk))
    && (forall i | 0 <= i < |s.mkskip| :: Derived(s, s.mkskip[i].1) && s.mkskip[i].1 !in used)
    && (forall i, j | 0 <= i < j < |s.mkskip| :: s.mkskip[i].1 != s.mkskip[j].1)
    && Distinct(s.mkskip)
  }

  ghost predicate Shape(s: State) {
    && s.Coherent()
    && (s.pqs.Some? ==> s.pqs.value != s.me.kem)
    && (s.ckr.None? ==> s.mkskip == [] && s.epochs == [] && s.nr == 0)
    && (s.ckr.Some? ==>
      && s.ckr.value.index == s.nr && Known(s, s.ckr.value.chain)
      && |s.epochs| > 0 && s.epochs[|s.epochs| - 1].0 == s.dhr.value)
    && |s.epochs| <= MAX_EPOCHS && Distinct(s.epochs)
  }

  /**
   * The invariant of a run in which exactly the keys in `used` have opened a
   * message: no key was derived twice, the current epoch is the newest
   * remembered one, and both maps respect their caps.
   */
  ghost predicate Inv(s: State, used: set<MessageKey>) {
    && Shape(s) && DerivedOnce(s, used)
    && (s.ckr.None? ==> used == {})
    && |s.mkskip| <= MAX_MKSKIP
  }

  // ---- The steps of a receive ----

  lemma StoreNextKeeps(s: State, used: set<MessageKey>)
    requires Shape(s) && DerivedOnce(s, used) && s.ckr.Some?
    ensures Shape(StoreNextKey(s)) && DerivedOnce(StoreNextKey(s), used)
  {
    var r := StoreNextKey(s);
    var mk := KdfCk(s.ckr.value).1;
    assert mk !in used && !(exists i | 0 <= i < |s.mkskip| :: s.mkskip[i].1 == mk);
    forall x: MessageKey | Derived(s, x) ensures Derived(r, x) {}
  }

  lemma {:induction false} StoreKeysKeeps(s: State, until: int, used: set<MessageKey>)
    requires Shape(s) && DerivedOnce(s, used) && s.ckr.Some?
    ensures Shape(StoreKeysUntil(s, until)) && DerivedOnce(StoreKeysUntil(s, until), used)
    decreases until - s.nr
  {
    if s.nr < until {
      StoreNextKeeps(s, used);
      StoreKeysKeeps(StoreNextKey(s), until, used);
    }
  }

  lemma SkipKeeps(s: State, until: int, used: set<MessageKey>)
    requires Inv(s, used) && SkipMessageKeys(s, until).Ok?
    ensures Inv(SkipMessageKeys(s, until).value, used)
    ensures SkipMessageKeys(s, until).value.ckr.Some? == s.ckr.Some?
  {
    if s.ckr.Some? {
      StoreKeysKeeps(s, until, used);
      StoreKeepsShape(s, until);
      NewestKeeps(StoreKeysUntil(s, until), used);
    }
  }

  lemma NewestKeeps(s: State, used: set<MessageKey>)
    requires Shape(s) && DerivedOnce(s, used) && s.ckr.Some?
    ensures Inv(s.(mkskip := Newest(s.mkskip, MAX_MKSKIP)), used)
  {
    var r := s.(mkskip := Newest(s.mkskip, MAX_MKSKIP));
    forall x: MessageKey | Derived(s, x) ensures Derived(r, x) {}
  }

  lemma SendStepKeeps(s: State, seed: nat, used: set<MessageKey>)
    requires Inv(s, used) && s.dhr.Some? && seed != s.me.kem
    ensures Inv(RatchetSendStep(s, seed), used)
  {
    var r := RatchetSendStep(s, seed);
    forall x: MessageKey | Derived(s, x) ensures Derived(r, x) {}
  }

  lemma EstablishKeeps(s: State, p: Payload, seed: nat)
    requires Inv(s, {}) && s.ckr.None? && seed != s.me.kem
    ensures Inv(EstablishFirst(s, p, seed), {})
  {
    var r := Receiving(s, p, KdfRk(s.rk, FirstMix(s.me, p)).1);
    var q := r.(pn := r.ns, ns := 0);
    FirstReceivingKeeps(s, p);
    hide Inv, Receiving, RatchetSendStep;
    SendStepKeeps(r, seed, {});
    SendStepKeeps(q, seed, {});
  }

  lemma FirstReceivingKeeps(s: State, p: Payload)
    requires Inv(s, {}) && s.ckr.None?
    ensures
      var r := Receiving(s, p, KdfRk(s.rk, FirstMix(s.me, p)).1);
      Inv(r, {}) && Inv(r.(pn := r.ns, ns := 0), {}) && r.dhr.Some? && r.me == s.me
  {
    var r := Receiving(s, p, KdfRk(s.rk, FirstMix(s.me, p)).1);
    FirstRemembered(p.dh, Epoch(p.pqPk, p.pqCt));
    hide RememberEpoch;
    assert r.mkskip == [];
  }

  lemma FirstRemembered(dh: Key, epoch: Epoch)
    ensures RememberEpoch([], dh, epoch) == [(dh, epoch)]
  {
  }

  lemma RatchetKeeps(s: State, p: Payload, seed: nat, used: set<MessageKey>)
    requires Inv(s, used) && s.dhs.Some? && !Has(s.epochs, p.dh) && seed != s.me.kem
    ensures Inv(DhRatchet(s, p, seed), used)
  {
    var (rk, ckr) := KdfRk(s.rk, RatchetMix(s, p));
    assert !Known(s, ckr.chain);
    var r := Receiving(s, p, ckr).(pn := s.ns, ns := 0, nr := 0, rk := rk);
    forall x: MessageKey | Derived(s, x) ensures Derived(r, x) {}
    SendStepKeeps(r, seed, used);
  }

  /** A successful read uses the key that sealed the ciphertext, for the first time. */
  ghost predicate FirstUse(r: (State, Bytes), p: Payload, used: set<MessageKey>) {
    && p.ciphertext.Sealed? && p.ciphertext.key !in used
    && Inv(r.0, used + {p.ciphertext.key}) && r.0.ckr.Some?
    && Unpad(p.ciphertext.padded) == Ok(r.1)
  }

  lemma ReadChainKeeps(s: State, p: Payload, used: set<MessageKey>)
    requires Inv(s, used) && s.ckr.Some? && ReadChain(s, p).Ok?
    ensures FirstUse(ReadChain(s, p).value, p, used)
  {
    SkipKeeps(s, p.n, used);
    var r := SkipMessageKeys(s, p.n).value;
    var (ckr, mk) := KdfCk(r.ckr.value);
    assert mk !in used && !Derived(r, mk);
    var t := r.(ckr := Some(ckr), nr := r.nr + 1);
    forall x: MessageKey | Derived(r, x) ensures Derived(t, x) {}
    assert Derived(t, mk);
  }

  lemma ReadSkippedKeeps(s: State, p: Payload, used: set<MessageKey>)
    requires Inv(s, used) && p.n >= 0 && Has(s.mkskip, KeyOf(p)) && ReadSkipped(s, p).Ok?
    ensures FirstUse(ReadSkipped(s, p).value, p, used)
  {
    var i := Find(s.mkskip, KeyOf(p));
    var mk := s.mkskip[i].1;
    var t := s.(mkskip := Delete(s.mkskip, KeyOf(p)));
    forall x: MessageKey | Derived(s, x) ensures Derived(t, x) {}
    assert forall j | 0 <= j < |t.mkskip| :: t.mkskip[j] == s.mkskip[if j < i then j else j + 1];
    assert DerivedOnce(t, used + {mk});
  }

  lemma DecryptPayloadKeeps(s: State, p: Payload, seed: nat, used: set<MessageKey>)
    requires Inv(s, used) && p.n >= 0 && seed != s.me.kem && DecryptPayload(s, p, seed).Ok?
    ensures FirstUse(DecryptPayload(s, p, seed).value, p, used)
  {
    if p.first {
      EstablishKeeps(s, p, seed);
      ReadChainKeeps(EstablishFirst(s, p, seed), p, used);
    } else if Has(s.mkskip, KeyOf(p)) {
      ReadSkippedKeeps(s, p, used);
    } else if s.dhr != Some(p.dh) {
      SkipKeeps(s, p.pn, used);
      SkipKeepsShape(s, p.pn);
      var r := SkipMessageKeys(s, p.pn).value;
      RatchetKeeps(r, p, seed, used);
      ReadChainKeeps(DhRatchet(r, p, seed), p, used);
    } else {
      ReadChainKeeps(s, p, used);
    }
  }

  lemma EncryptKeeps(s: State, text: Bytes, nonce: nat, seed: nat, used: set<MessageKey>)
    requires Inv(s, used) && seed != s.me.kem
    ensures Inv(Encrypt(s, text, nonce, seed).0, used)
  {
    var r := Encrypt(s, text, nonce, seed).0;
    forall x: MessageKey | Derived(s, x) ensures Derived(r, x) {}
  }

  /** In a reachable state a restart forgets three fields and recomputes one. */
  lemma RestartKeeps(s: State, used: set<MessageKey>)
    requires Inv(s, used)
    ensures Restart(s) == s.(otkId := None, lastSentDh := None, isFirst := !s.firstBuilt && s.ckr.None?)
    ensures Inv(Restart(s), used)
  {
    if s.ckr.Some? {
      assert Has(s.epochs, s.dhr.value);
    }
    var r := Restart(s);
    forall x: MessageKey | Derived(s, x) ensures Derived(r, x) {}
  }

  /** A session that has sent or received before. */
  predicate HasTraffic(s: State) {
    s.firstBuilt || s.ckr.Some?
  }

  /** A restart is transparent, but for the KEM material the next message repeats, exactly after some traffic. */
  lemma RestartTransparentIff(s: State, used: set<MessageKey>)
    requires Inv(s, used) && !s.isFirst
    ensures Restart(s) == s.(otkId := None, lastSentDh := None) <==> HasTraffic(s)
  {
    RestartKeeps(s, used);
  }

  /** What a receive never touches. */
  predicate SameParty(s: State, r: State) {
    && r.me == s.me && r.peer == s.peer && r.otkId == s.otkId && r.lastSentDh == s.lastSentDh
    && r.isFirst == s.isFirst && r.firstBuilt == s.firstBuilt && r.token == s.token
  }

  lemma ReadChainKeepsParty(s: State, r: State, p: Payload)
    requires SameParty(s, r) && r.Coherent() && r.ckr.Some? && ReadChain(r, p).Ok?
    ensures SameParty(s, ReadChain(r, p).value.0) && ReadChain(r, p).value.0.Coherent()
  {
    SkipKeepsShape(r, p.n);
  }

  lemma EstablishKeepsParty(s: State, p: Payload, seed: nat)
    requires s.Coherent()
    ensures var r := EstablishFirst(s, p, seed); SameParty(s, r) && r.Coherent() && r.ckr.Some?
  {
  }

  lemma EnterKeepsParty(s: State, p: Payload, seed: nat)
    requires s.Coherent() && s.dhs.Some? && SkipMessageKeys(s, p.pn).Ok?
    ensures
      var s1 := SkipMessageKeys(s, p.pn).value;
      && s1.Coherent() && s1.dhs.Some?
      && var r := DhRatchet(s1, p, seed); SameParty(s, r) && r.Coherent() && r.ckr.Some?
  {
    SkipKeepsShape(s, p.pn);
  }

  lemma ReadSkippedKeepsParty(s: State, p: Payload)
    requires s.Coherent() && p.n >= 0 && Has(s.mkskip, KeyOf(p)) && ReadSkipped(s, p).Ok?
    ensures SameParty(s, ReadSkipped(s, p).value.0) && ReadSkipped(s, p).value.0.Coherent()
  {
  }

  lemma DecryptKeepsParty(s: State, p: Payload, seed: nat)
    requires s.Coherent() && p.n >= 0 && DecryptPayload(s, p, seed).Ok?
    ensures SameParty(s, DecryptPayload(s, p, seed).value.0)
    ensures DecryptPayload(s, p, seed).value.0.Coherent()
  {
    hide EstablishFirst, DhRatchet, ReadChain, ReadSkipped, SkipMessageKeys;
    if p.first {
      EstablishKeepsParty(s, p, seed);
      ReadChainKeepsParty(s, EstablishFirst(s, p, seed), p);
    } else if Has(s.mkskip, KeyOf(p)) {
      ReadSkippedKeepsParty(s, p);
    } else if s.dhr != Some(p.dh) {
      EnterKeepsParty(s, p, seed);
      ReadChainKeepsParty(s, DhRatchet(SkipMessageKeys(s, p.pn).value, p, seed), p);
    } else {
      ReadChainKeepsParty(s, s, p);
    }
  }

  // ---- Whole runs ----

  datatype Op =
    | Send(text: Bytes, nonce: nat, seed: nat)
    | Receive(envelope: Envelope, seed: nat)
    | RestartOp

  function Step(s: State, op: Op): (r: (State, seq<Ciphertext>))
    requires s.Coherent()
    ensures r.0.Coherent() && r.0.me == s.me
  {
    match op
    case Send(text, nonce, seed) => (Encrypt(s, text, nonce, seed).0, [])
    case RestartOp => (Restart(s), [])
    case Receive(e, seed) =>
      match Decrypt(s, e, seed)
      case Err(_) => (s, [])
      case Ok((r, _)) =>
        DecryptKeepsParty(s, Authenticate(s, e).value, seed);
        (r, [e.ciphertext])
  }

  /** The final state, and every ciphertext that was accepted, in order. */
  function Run(s: State, ops: seq<Op>): (r: (State, seq<Ciphertext>))
    requires s.Coherent()
    ensures r.0.Coherent()
    decreases |ops|
  {
    if ops == [] then (s, [])
    else
      var (before, accepted) := Run(s, ops[..|ops| - 1]);
      var (after, more) := Step(before, ops[|ops| - 1]);
      (after, accepted + more)
  }

  /** Generated keys differ from the party's long-term KEM key. */
  predicate SeedsFresh(ops: seq<Op>, me: Identity) {
    forall i | 0 <= i < |ops| && !ops[i].RestartOp? :: ops[i].seed != me.kem
  }

  function KeysOf(accepted: seq<Ciphertext>): set<MessageKey> {
    set c | c in accepted && c.Sealed? :: c.key
  }

  lemma StepKeeps(s: State, op: Op, used: set<MessageKey>)
    requires Inv(s, used) && (!op.RestartOp? ==> op.seed != s.me.kem)
    ensures Step(s, op).1 == [] ==> Inv(Step(s, op).0, used)
    ensures forall c | c in Step(s, op).1 ::
      c.Sealed? && c.key !in used && Step(s, op).1 == [c] && Inv(Step(s, op).0, used + {c.key})
  {
    match op
    case Send(text, nonce, seed) => EncryptKeeps(s, text, nonce, seed, used);
    case RestartOp => RestartKeeps(s, used);
    case Receive(e, seed) =>
      if Decrypt(s, e, seed).Ok? {
        var p := Authenticate(s, e).value;
        DecryptPayloadKeeps(s, p, seed, used);
      }
  }

  lemma {:induction false} RunKeeps(s: State, ops: seq<Op>)
    requires Inv(s, {}) && SeedsFresh(ops, s.me)
    ensures
      var (r, accepted) := Run(s, ops);
      && r.me == s.me && Inv(r, KeysOf(accepted))
      && (forall i | 0 <= i < |accepted| :: accepted[i].Sealed?)
      && (forall i, j | 0 <= i < j < |accepted| :: accepted[i].key != accepted[j].key)
    decreases |ops|
  {
    if ops != [] {
      var op := ops[|ops| - 1];
      RunKeeps(s, ops[..|ops| - 1]);
      var (before, accepted) := Run(s, ops[..|ops| - 1]);
      StepKeeps(before, op, KeysOf(accepted));
      var more := Step(before, op).1;
      if more == [] {
        assert accepted + more == accepted;
      } else {
        var c := more[0];
        assert KeysOf(accepted + more) == KeysOf(accepted) + {c.key};
      }
    } else {
      assert KeysOf([]) == {};
    }
  }

  /**
   * Every run of a session, over any channel and against any peer: no envelope
   * is accepted twice, not even after a restart or after its epoch left the
   * bounded cache; both maps respect their caps; and the current epoch is
   * always remembered.
   */
  lemma AcceptedAtMostOnce(me: Identity, peer: Identity, otk: OneTime, ops: seq<Op>)
    requires NewSession(me, peer, otk).Some? && SeedsFresh(ops, me)
    ensures
      var (r, accepted) := Run(NewSession(me, peer, otk).value, ops);
      && (forall i, j | 0 <= i < j < |accepted| :: accepted[i] != accepted[j])
      && |r.mkskip| <= 2000 && |r.epochs| <= 256
      && (r.dhr.Some? ==> Has(r.epochs, r.dhr.value))
  {
    RunKeeps(NewSession(me, peer, otk).value, ops);
  }

  // ---- Restart ----

  /** Saving a restored session gives the saved data back exactly when the current epoch was remembered. */
  lemma SaveRestoreSave(s: State)
    requires s.Coherent()
    ensures Serialize(Restart(s)) == Serialize(s) <==> (s.dhr.Some? ==> Has(s.epochs, s.dhr.value))
  {
  }

  /** In every reachable state it was, so saving, restoring and saving is saving. */
  lemma SaveRestoreSaveReachable(me: Identity, peer: Identity, otk: OneTime, ops: seq<Op>)
    requires NewSession(me, peer, otk).Some? && SeedsFresh(ops, me)
    ensures
      var s := Run(NewSession(me, peer, otk).value, ops).0;
      Serialize(Restart(s)) == Serialize(s)
  {
    RunKeeps(NewSession(me, peer, otk).value, ops);
  }
}
