/** A restarted session goes on exactly as the session it was saved from. */
module Restarting {
  import opened Common
  import opened OrderedMap
  import opened Padding
  import opened Symbolic
  import opened Ratchet
  import opened SessionRuns

  /** What a restart forgets of a session with some traffic. */
  function Forget(s: State): State {
    s.(otkId := None, lastSentDh := None)
  }

  type Outcome = Result<(State, Bytes), Error>

  function ForgetIn(r: Outcome): Outcome {
    match r
    case Ok((s, text)) => Ok((Forget(s), text))
    case Err(error) => Err(error)
  }

  lemma {:induction false} StoreForgets(s: State, until: int)
    requires s.Coherent() && s.ckr.Some?
    ensures StoreKeysUntil(Forget(s), until) == Forget(StoreKeysUntil(s, until))
    decreases until - s.nr
  {
    if s.nr < until {
      assert StoreNextKey(Forget(s)) == Forget(StoreNextKey(s));
      StoreForgets(StoreNextKey(s), until);
    }
  }

  lemma SkipForgets(s: State, until: int)
    requires s.Coherent()
    ensures SkipMessageKeys(Forget(s), until) ==
      match SkipMessageKeys(s, until) case Ok(r) => Ok(Forget(r)) case Err(error) => Err(error)
  {
    if s.ckr.Some? {
      StoreForgets(s, until);
      hide StoreKeysUntil;
    }
  }

  lemma ReadChainForgets(s: State, p: Payload)
    requires s.Coherent() && s.ckr.Some?
    ensures ReadChain(Forget(s), p) == ForgetIn(ReadChain(s, p))
  {
    SkipForgets(s, p.n);
    hide SkipMessageKeys;
  }

  lemma NewEpochForgets(s: State, p: Payload, seed: nat)
    requires s.Coherent()
    ensures ReadNewEpoch(Forget(s), p, seed) == ForgetIn(ReadNewEpoch(s, p, seed))
  {
    if !Has(s.epochs, p.dh) && s.dhs.Some? {
      SkipForgets(s, p.pn);
      SkipKeepsShape(s, p.pn);
      hide SkipMessageKeys, ReadChain, RememberEpoch;
      if SkipMessageKeys(s, p.pn).Ok? {
        ReadChainForgets(DhRatchet(SkipMessageKeys(s, p.pn).value, p, seed), p);
      }
    }
  }

  lemma DecryptPayloadForgets(s: State, p: Payload, seed: nat)
    requires s.Coherent() && p.n >= 0
    ensures DecryptPayload(Forget(s), p, seed) == ForgetIn(DecryptPayload(s, p, seed))
  {
    hide ReadChain, ReadNewEpoch, RememberEpoch, Set, Delete;
    NewEpochForgets(s, p, seed);
    if p.first {
      ReadChainForgets(EstablishFirst(s, p, seed), p);
    } else if s.ckr.Some? {
      ReadChainForgets(s, p);
    }
  }

  // ---- What a run shows ----

  /** What others see of one operation: the payload signed, or what became of an envelope. */
  datatype Observed = SentOne(signed: Payload) | Read(text: Bytes) | Refused(error: Error)

  function Observe(s: State, op: Op): seq<Observed>
    requires s.Coherent()
  {
    match op
    case Send(text, nonce, seed) => [SentOne(SignedPayload(ReadyToSend(s, seed), text, nonce))]
    case RestartOp => []
    case Receive(e, seed) =>
      match Decrypt(s, e, seed)
      case Ok((_, text)) => [Read(text)]
      case Err(error) => [Refused(error)]
  }

  function Observations(s: State, ops: seq<Op>): seq<Observed>
    requires s.Coherent()
    decreases |ops|
  {
    if ops == [] then [] else Observe(s, ops[0]) + Observations(Step(s, ops[0]).0, ops[1..])
  }

  function End(s: State, ops: seq<Op>): (r: State)
    requires s.Coherent()
    ensures r.Coherent()
    decreases |ops|
  {
    if ops == [] then s else End(Step(s, ops[0]).0, ops[1..])
  }

  function EnvelopesOf(s: State, op: Op): seq<Envelope>
    requires s.Coherent()
  {
    if op.Send? then [Encrypt(s, op.text, op.nonce, op.seed).1] else []
  }

  /** The envelopes sent in a run. */
  function Envelopes(s: State, ops: seq<Op>): seq<Envelope>
    requires s.Coherent()
    decreases |ops|
  {
    if ops == [] then [] else EnvelopesOf(s, ops[0]) + Envelopes(Step(s, ops[0]).0, ops[1..])
  }

  /** The same envelope, or the same message with its KEM material on the wire as well. */
  ghost predicate Fuller(e: Envelope, f: Envelope) {
    e == f || exists p :: e == Wire(p, true) && f == Wire(p, false)
  }

  ghost predicate AllFuller(es: seq<Envelope>, fs: seq<Envelope>) {
    |es| == |fs| && forall i | 0 <= i < |es| :: Fuller(es[i], fs[i])
  }

  function WithoutRestarts(ops: seq<Op>): seq<Op> {
    if ops == [] then []
    else (if ops[0].RestartOp? then [] else [ops[0]]) + WithoutRestarts(ops[1..])
  }

  /** No restart comes before the first message sent or received. */
  ghost predicate NoIdleRestart(s: State, ops: seq<Op>)
    requires s.Coherent()
    decreases |ops|
  {
    ops == [] || ((ops[0].RestartOp? ==> HasTraffic(s)) && NoIdleRestart(Step(s, ops[0]).0, ops[1..]))
  }

  predicate SeedFresh(op: Op, s: State) {
    !op.RestartOp? ==> op.seed != s.me.kem
  }

  /** No flag is pending, and the session has a sending chain exactly if it has had traffic. */
  predicate Settled(s: State) {
    s.Coherent() && !s.isFirst && (s.cks.Some? <==> HasTraffic(s))
  }

  ghost predicate Reachable(s: State) {
    Settled(s) && exists used :: Inv(s, used)
  }

  lemma ReceiveSettled(s: State, p: Payload, seed: nat)
    requires Settled(s) && p.n >= 0 && DecryptPayload(s, p, seed).Ok?
    ensures Settled(DecryptPayload(s, p, seed).value.0)
    ensures s.cks.Some? ==> DecryptPayload(s, p, seed).value.0.cks.Some?
  {
    DecryptKeepsParty(s, p, seed);
    var r := DecryptPayload(s, p, seed).value.0;
    assert (r.cks.Some? <==> HasTraffic(r)) && (s.cks.Some? ==> r.cks.Some?) by {
      hide Has, RememberEpoch;
      if p.first {
        ReadChainKeepsChains(EstablishFirst(s, p, seed), p);
      } else if Has(s.mkskip, KeyOf(p)) {
      } else if s.dhr != Some(p.dh) {
        SkipKeepsShape(s, p.pn);
        hide SkipMessageKeys, ReadChain;
        ReadChainKeepsChains(DhRatchet(SkipMessageKeys(s, p.pn).value, p, seed), p);
      } else {
        ReadChainKeepsChains(s, p);
      }
    }
  }

  lemma ReadChainKeepsChains(s: State, p: Payload)
    requires s.Coherent() && s.ckr.Some? && ReadChain(s, p).Ok?
    ensures var r := ReadChain(s, p).value.0; r.cks == s.cks && r.ckr.Some? && r.firstBuilt == s.firstBuilt
  {
    SkipKeepsShape(s, p.n);
  }

  lemma StepReachable(s: State, op: Op)
    requires Reachable(s) && SeedFresh(op, s) && (op.RestartOp? ==> HasTraffic(s))
    ensures Reachable(Step(s, op).0) && Step(s, op).0.me == s.me
    ensures HasTraffic(s) ==> HasTraffic(Step(s, op).0)
  {
    var used :| Inv(s, used);
    var (r, more) := Step(s, op);
    StepKeeps(s, op, used);
    assert exists u :: Inv(r, u) by {
      if more == [] {
        assert Inv(r, used);
      } else {
        assert Inv(r, used + {more[0].key});
      }
    }
    StepSettled(s, op, used);
  }

  lemma StepSettled(s: State, op: Op, used: set<MessageKey>)
    requires Settled(s) && Inv(s, used) && (op.RestartOp? ==> HasTraffic(s))
    ensures Settled(Step(s, op).0)
    ensures HasTraffic(s) ==> HasTraffic(Step(s, op).0)
  {
    match op
    case Send(text, nonce, seed) => hide Inv, Pad;
    case RestartOp => RestartTransparentIff(s, used);
    case Receive(e, seed) =>
      hide Inv, DecryptPayload, Authenticate;
      if Decrypt(s, e, seed).Ok? {
        ReceiveSettled(s, Authenticate(s, e).value, seed);
        DecryptKeepsParty(s, Authenticate(s, e).value, seed);
      }
  }

  lemma StartReachable(me: Identity, peer: Identity, otk: OneTime)
    requires NewSession(me, peer, otk).Some?
    ensures Reachable(NewSession(me, peer, otk).value)
  {
    assert Inv(NewSession(me, peer, otk).value, {});
  }

  /**
   * Every session reached without an idle restart has no flag pending, and has a sending chain exactly if it has sent
   * or received.
   */
  lemma {:induction false} SettledAlways(s: State, ops: seq<Op>)
    requires Reachable(s) && SeedsFresh(ops, s.me) && NoIdleRestart(s, ops)
    ensures Reachable(End(s, ops)) && End(s, ops).me == s.me
    ensures HasTraffic(s) ==> HasTraffic(End(s, ops))
    decreases |ops|
  {
    if ops != [] {
      hide Reachable, HasTraffic;
      StepReachable(s, ops[0]);
      hide Step;
      SettledAlways(Step(s, ops[0]).0, ops[1..]);
    }
  }

  /** From a new session on: no flag is ever left pending, and traffic and a sending chain go together. */
  lemma TrafficSettles(me: Identity, peer: Identity, otk: OneTime, ops: seq<Op>)
    requires NewSession(me, peer, otk).Some? && SeedsFresh(ops, me)
    requires NoIdleRestart(NewSession(me, peer, otk).value, ops)
    ensures var s := End(NewSession(me, peer, otk).value, ops);
      !s.isFirst && (s.cks.Some? <==> HasTraffic(s))
  {
    StartReachable(me, peer, otk);
    SettledAlways(NewSession(me, peer, otk).value, ops);
  }

  // ---- Two sessions that differ in what a restart forgets ----

  predicate Alike(s: State, t: State) {
    && Settled(s) && Settled(t) && Forget(s) == Forget(t) && (s.cks.None? ==> s == t)
    && (s.lastSentDh.None? || s.lastSentDh == t.lastSentDh)
  }

  lemma ReceiveAlike(s: State, t: State, e: Envelope, seed: nat)
    requires Alike(s, t)
    ensures Observe(s, Receive(e, seed)) == Observe(t, Receive(e, seed))
    ensures Alike(Step(s, Receive(e, seed)).0, Step(t, Receive(e, seed)).0)
  {
    hide DecryptPayload;
    assert Authenticate(s, e) == Authenticate(Forget(s), e) && Authenticate(t, e) == Authenticate(Forget(t), e);
    hide Authenticate;
    if Authenticate(s, e).Ok? {
      var p := Authenticate(s, e).value;
      DecryptPayloadForgets(s, p, seed);
      DecryptPayloadForgets(t, p, seed);
      if DecryptPayload(s, p, seed).Ok? {
        ReceiveSettled(s, p, seed);
        ReceiveSettled(t, p, seed);
        DecryptKeepsParty(s, p, seed);
        DecryptKeepsParty(t, p, seed);
      }
    }
  }

  lemma SendAlike(s: State, t: State, text: Bytes, nonce: nat, seed: nat)
    requires Alike(s, t)
    ensures Observe(s, Send(text, nonce, seed)) == Observe(t, Send(text, nonce, seed))
    ensures Alike(Step(s, Send(text, nonce, seed)).0, Step(t, Send(text, nonce, seed)).0)
    ensures Fuller(Encrypt(s, text, nonce, seed).1, Encrypt(t, text, nonce, seed).1)
    ensures HasTraffic(s) ==> !Observe(s, Send(text, nonce, seed))[0].signed.first
  {
    hide Pad;
    var p := SignedPayload(ReadyToSend(s, seed), text, nonce);
    assert Encrypt(s, text, nonce, seed).1 == Wire(p, true) || Encrypt(s, text, nonce, seed).1 == Wire(p, false);
    assert Encrypt(t, text, nonce, seed).1 == Wire(p, true) || Encrypt(t, text, nonce, seed).1 == Wire(p, false);
  }

  lemma RestartAlike(s: State, t: State)
    requires Reachable(s) && Alike(s, t) && HasTraffic(s)
    ensures Alike(Restart(s), t) && HasTraffic(Restart(s))
  {
    var used :| Inv(s, used);
    RestartTransparentIff(s, used);
    hide Inv, Restart;
  }

  lemma JoinFuller(es: seq<Envelope>, fs: seq<Envelope>, es': seq<Envelope>, fs': seq<Envelope>)
    requires AllFuller(es, fs) && AllFuller(es', fs')
    ensures AllFuller(es + es', fs + fs')
  {
  }

  lemma {:induction false} RunsAlike(s: State, t: State, ops: seq<Op>)
    requires Reachable(s) && Alike(s, t) && SeedsFresh(ops, s.me) && NoIdleRestart(s, ops)
    ensures Observations(s, ops) == Observations(t, WithoutRestarts(ops))
    ensures AllFuller(Envelopes(s, ops), Envelopes(t, WithoutRestarts(ops)))
    ensures Alike(End(s, ops), End(t, WithoutRestarts(ops)))
    decreases |ops|
  {
    if ops != [] {
      var op, rest := ops[0], WithoutRestarts(ops[1..]);
      StepReachable(s, op);
      match op
      case RestartOp =>
        RestartAlike(s, t);
        RunsAlike(Restart(s), t, ops[1..]);
        assert [] + rest == rest && [] + Observations(Restart(s), ops[1..]) == Observations(Restart(s), ops[1..]);
        assert [] + Envelopes(Restart(s), ops[1..]) == Envelopes(Restart(s), ops[1..]);
      case _ =>
        OneAlike(s, t, op);
        hide Step, Observe, Alike, Reachable, AllFuller, EnvelopesOf;
        RunsAlike(Step(s, op).0, Step(t, op).0, ops[1..]);
        JoinFuller(EnvelopesOf(s, op), EnvelopesOf(t, op),
                   Envelopes(Step(s, op).0, ops[1..]), Envelopes(Step(t, op).0, rest));
        assert ([op] + rest)[1..] == rest;
    }
  }

  lemma OneAlike(s: State, t: State, op: Op)
    requires Alike(s, t) && !op.RestartOp?
    ensures Observe(s, op) == Observe(t, op)
    ensures AllFuller(EnvelopesOf(s, op), EnvelopesOf(t, op))
    ensures Alike(Step(s, op).0, Step(t, op).0)
  {
    match op
    case Send(text, nonce, seed) => SendAlike(s, t, text, nonce, seed);
    case Receive(e, seed) => ReceiveAlike(s, t, e, seed);
  }

  lemma {:induction false} NeverIdleAgain(s: State, ops: seq<Op>)
    requires Reachable(s) && HasTraffic(s) && SeedsFresh(ops, s.me)
    ensures NoIdleRestart(s, ops)
    decreases |ops|
  {
    if ops != [] {
      StepReachable(s, ops[0]);
      hide Step, Reachable, HasTraffic;
      NeverIdleAgain(Step(s, ops[0]).0, ops[1..]);
    }
  }

  lemma AlikeItself(s: State)
    requires Settled(s)
    ensures Alike(s, s)
  {
  }

  /**
   * Restarts are invisible. Over any channel, taking all restarts out of a run changes nothing that others see but
   * that some messages no longer repeat their KEM material: every payload signed, every text read and every refusal
   * are the same, and so is the final state but for what a restart forgets.
   */
  lemma RestartsInvisible(me: Identity, peer: Identity, otk: OneTime, ops: seq<Op>)
    requires NewSession(me, peer, otk).Some? && SeedsFresh(ops, me)
    requires NoIdleRestart(NewSession(me, peer, otk).value, ops)
    ensures
      var s := NewSession(me, peer, otk).value;
      && Observations(s, ops) == Observations(s, WithoutRestarts(ops))
      && AllFuller(Envelopes(s, ops), Envelopes(s, WithoutRestarts(ops)))
      && Forget(End(s, ops)) == Forget(End(s, WithoutRestarts(ops)))
  {
    StartReachable(me, peer, otk);
    var s := NewSession(me, peer, otk).value;
    AlikeItself(s);
    RunsAlike(s, s, ops);
  }

  /**
   * At any point of any run, once there has been traffic, the session restored from what was saved goes on exactly as
   * the session that was saved, whatever comes; and it flags nothing first.
   */
  lemma RestartTransparent(me: Identity, peer: Identity, otk: OneTime, before: seq<Op>, ops: seq<Op>)
    requires NewSession(me, peer, otk).Some? && SeedsFresh(before, me) && SeedsFresh(ops, me)
    requires NoIdleRestart(NewSession(me, peer, otk).value, before)
    requires HasTraffic(End(NewSession(me, peer, otk).value, before))
    ensures
      var s := End(NewSession(me, peer, otk).value, before);
      && Restart(s).Coherent()
      && Observations(Restart(s), ops) == Observations(s, ops)
      && Forget(End(Restart(s), ops)) == Forget(End(s, ops))
      && forall o | o in Observations(Restart(s), ops) && o.SentOne? :: !o.signed.first
  {
    StartReachable(me, peer, otk);
    SettledAlways(NewSession(me, peer, otk).value, before);
    hide NewSession, Reachable, SeedsFresh, NoIdleRestart, HasTraffic, Step;
    TransparentFrom(End(NewSession(me, peer, otk).value, before), ops);
  }

  lemma TransparentFrom(s: State, ops: seq<Op>)
    requires Reachable(s) && HasTraffic(s) && SeedsFresh(ops, s.me)
    ensures Restart(s).Coherent()
    ensures Observations(Restart(s), ops) == Observations(s, ops)
    ensures Forget(End(Restart(s), ops)) == Forget(End(s, ops))
    ensures forall o | o in Observations(Restart(s), ops) && o.SentOne? :: !o.signed.first
  {
    AlikeItself(s);
    RestartAlike(s, s);
    StepReachable(s, RestartOp);
    NeverIdleAgain(s, ops);
    NeverIdleAgain(Restart(s), ops);
    RunsAlike(s, s, ops);
    RunsAlike(Restart(s), s, ops);
    NothingFlagged(s, ops);
  }

  lemma {:induction false} NothingFlagged(s: State, ops: seq<Op>)
    requires Reachable(s) && HasTraffic(s) && SeedsFresh(ops, s.me)
    ensures forall o | o in Observations(s, ops) && o.SentOne? :: !o.signed.first
    decreases |ops|
  {
    if ops != [] {
      var op := ops[0];
      AlikeItself(s);
      StepReachable(s, op);
      if op.Send? {
        SendAlike(s, s, op.text, op.nonce, op.seed);
      }
      assert forall o | o in Observe(s, op) && o.SentOne? :: !o.signed.first;
      hide Step, Reachable, HasTraffic, Observe;
      NothingFlagged(Step(s, op).0, ops[1..]);
    }
  }

  // ---- The other side ----

  /**
   * What the receiver makes of a message that leaves its KEM material out: exactly what it makes of the message that
   * carries it, if it remembers that material for the epoch; otherwise it refuses.
   */
  lemma KemOnWireIff(t: State, p: Payload, seed: nat)
    requires t.Coherent()
    ensures
      if !p.first && Has(t.epochs, p.dh) && Get(t.epochs, p.dh) == Epoch(p.pqPk, p.pqCt)
      then Decrypt(t, Wire(p, false), seed) == Decrypt(t, Wire(p, true), seed)
      else Decrypt(t, Wire(p, false), seed).Err?
  {
    hide DecryptPayload, Words, Has;
    KemSigned(t, p);
  }

  lemma KemSigned(t: State, p: Payload)
    ensures forall q :: Words(q) == Words(p) ==> q.pqPk == p.pqPk && q.pqCt == p.pqCt
  {
    forall q | Words(q) == Words(p) ensures q.pqPk == p.pqPk && q.pqCt == p.pqCt {
      assert Words(q).pqPk == Words(p).pqPk && Words(q).pqCt == Words(p).pqCt;
    }
  }

  /** The same operation, or the same message received with its KEM material on the wire. */
  ghost predicate Refilled(op: Op, full: Op) {
    op == full || (op.Receive? && full.Receive? && op.seed == full.seed &&
      exists p :: op.envelope == Wire(p, false) && full.envelope == Wire(p, true))
  }

  /** Wherever a run with left-out material was refilled, it had decrypted the message. */
  ghost predicate RefilledRun(t: State, ops: seq<Op>, full: seq<Op>)
    requires t.Coherent()
    decreases |ops|
  {
    if ops == [] then full == []
    else
      && full != [] && Refilled(ops[0], full[0])
      && (ops[0] != full[0] ==> Decrypt(t, ops[0].envelope, ops[0].seed).Ok?)
      && RefilledRun(Step(t, ops[0]).0, ops[1..], full[1..])
  }

  /** A peer that gets a restarted session's fuller envelopes goes on exactly as it would have. */
  lemma {:induction false} PeerGoesOnAlike(t: State, ops: seq<Op>, full: seq<Op>)
    requires t.Coherent() && RefilledRun(t, ops, full)
    ensures Observations(t, full) == Observations(t, ops) && End(t, full) == End(t, ops)
    decreases |ops|
  {
    if ops != [] {
      RefilledStep(t, ops[0], full[0]);
      hide Step, Observe;
      PeerGoesOnAlike(Step(t, ops[0]).0, ops[1..], full[1..]);
    }
  }

  lemma RefilledStep(t: State, op: Op, full: Op)
    requires t.Coherent() && Refilled(op, full)
    requires op != full ==> Decrypt(t, op.envelope, op.seed).Ok?
    ensures Observe(t, full) == Observe(t, op)
    ensures Step(t, full).0 == Step(t, op).0
  {
    hide DecryptPayload, Authenticate, Wire;
    if op != full {
      var p :| op.envelope == Wire(p, false) && full.envelope == Wire(p, true);
      KemOnWireIff(t, p, op.seed);
    }
  }

  // ---- One step after a restart ----

  /**
   * In any reached state with traffic, whatever envelope comes next, the restarted session answers it like the one it
   * was saved from: the same text or the same error, and then the same state but for what the restart forgot.
   */
  lemma RestartDecryptsAlike(s: State, e: Envelope, seed: nat)
    requires Reachable(s) && HasTraffic(s)
    ensures Restart(s).Coherent() && Decrypt(Restart(s), e, seed) == ForgetIn(Decrypt(s, e, seed))
  {
    var used :| Inv(s, used);
    RestartTransparentIff(s, used);
    hide Inv, Restart, DecryptPayload;
    assert Authenticate(Forget(s), e) == Authenticate(s, e);
    if Authenticate(s, e).Ok? {
      DecryptPayloadForgets(s, Authenticate(s, e).value, seed);
    }
  }

  /** What it sends next is the same signed payload, never flagged first, with its KEM material on the wire again. */
  lemma RestartEncryptsAlike(s: State, text: Bytes, nonce: nat, seed: nat)
    requires Reachable(s) && HasTraffic(s)
    ensures var (r, e) := Encrypt(s, text, nonce, seed);
      Encrypt(Restart(s), text, nonce, seed) == (r.(otkId := None), Wire(SignedPayload(s, text, nonce), true))
      && e.signature == Signature(s.me.sign, Words(SignedPayload(s, text, nonce)))
      && !SignedPayload(s, text, nonce).first
  {
    var used :| Inv(s, used);
    RestartTransparentIff(s, used);
    hide Inv, Restart, Pad;
  }
}
