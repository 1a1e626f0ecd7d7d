/** Which past epochs a session remembers, and with what KEM material. */
module EpochMemory {
  import opened Common
  import opened OrderedMap
  import opened Symbolic
  import opened Ratchet
  import opened SessionRuns

  type Epochs = seq<(Key, Epoch)>

  /** The oldest remembered epoch, when the memory is full: the one the next epoch displaces. */
  predicate Displaced(epochs: Epochs, x: Key) {
    |epochs| >= 256 && epochs[0].0 == x
  }

  lemma FoundAt(m: Epochs, i: nat)
    requires Distinct(m) && i < |m|
    ensures Has(m, m[i].0) && Get(m, m[i].0) == m[i].1
  {
  }

  lemma RememberedAfter(epochs: Epochs, dh: Key, epoch: Epoch, x: Key)
    requires Distinct(epochs) && !Has(epochs, dh) && |epochs| <= MAX_EPOCHS
    ensures var r := RememberEpoch(epochs, dh, epoch);
      && Has(r, dh) && Get(r, dh) == epoch
      && (x != dh ==>
           && (Has(r, x) <==> Has(epochs, x) && !Displaced(epochs, x))
           && (Has(r, x) ==> Get(r, x) == Get(epochs, x)))
  {
    var r := RememberEpoch(epochs, dh, epoch);
    var k := if |epochs| < MAX_EPOCHS then 0 else 1;
    assert r == epochs[k..] + [(dh, epoch)];
    assert r[|r| - 1] == (dh, epoch);
    FoundAt(r, |r| - 1);
    if Has(epochs, x) && !Displaced(epochs, x) {
      var i := Find(epochs, x);
      assert r[i - k] == epochs[i];
      FoundAt(r, i - k);
    }
    if Has(r, x) && x != dh {
      var j := Find(r, x);
      assert epochs[j + k] == r[j];
      FoundAt(epochs, j + k);
    }
  }

  lemma ReadChainEpochs(s: State, p: Payload)
    requires s.Coherent() && s.ckr.Some? && ReadChain(s, p).Ok?
    ensures ReadChain(s, p).value.0.epochs == s.epochs && ReadChain(s, p).value.0.dhr == s.dhr
  {
    SkipKeepsShape(s, p.n);
  }

  lemma SkipEpochs(s: State, until: int)
    requires s.Coherent() && SkipMessageKeys(s, until).Ok?
    ensures
      var r := SkipMessageKeys(s, until).value;
      r.epochs == s.epochs && r.dhr == s.dhr && r.Coherent() && r.dhs == s.dhs
  {
    SkipKeepsShape(s, until);
  }

  /** Whether a receive opens the message's epoch: it is none of a key stored, nor of the current one. */
  predicate Enters(s: State, p: Payload)
    requires p.n >= 0
  {
    p.first || (!Has(s.mkskip, KeyOf(p)) && s.dhr != Some(p.dh))
  }

  /** What a receive that enters an epoch does is remember it last. */
  lemma EntersRemembers(s: State, p: Payload, seed: nat)
    requires s.Coherent() && p.n >= 0 && DecryptPayload(s, p, seed).Ok?
    ensures
      var r := DecryptPayload(s, p, seed).value.0;
      if Enters(s, p) then r.dhr == Some(p.dh) && r.epochs == RememberEpoch(s.epochs, p.dh, Epoch(p.pqPk, p.pqCt))
      else r.dhr == s.dhr && r.epochs == s.epochs
    ensures Enters(s, p) ==> if p.first then s.ckr.None? else !Has(s.epochs, p.dh)
  {
    hide ReadChain, SkipMessageKeys, Has, RememberEpoch;
    if p.first {
      ReadChainEpochs(EstablishFirst(s, p, seed), p);
    } else if Has(s.mkskip, KeyOf(p)) {
    } else if s.dhr != Some(p.dh) {
      SkipEpochs(s, p.pn);
      ReadChainEpochs(DhRatchet(SkipMessageKeys(s, p.pn).value, p, seed), p);
    } else {
      ReadChainEpochs(s, p);
    }
  }

  /**
   * A receive that enters an epoch remembers it with its KEM material and forgets none of the others, but for the
   * oldest of 256; any other receive leaves the memory as it was.
   */
  lemma MemoryAfterReceive(s: State, p: Payload, seed: nat, x: Key)
    requires Shape(s) && p.n >= 0 && DecryptPayload(s, p, seed).Ok?
    ensures
      var r := DecryptPayload(s, p, seed).value.0;
      if !Enters(s, p) then r.epochs == s.epochs
      else if x == p.dh then Has(r.epochs, x) && Get(r.epochs, x) == Epoch(p.pqPk, p.pqCt)
      else
        && (Has(r.epochs, x) <==> Has(s.epochs, x) && !Displaced(s.epochs, x))
        && (Has(r.epochs, x) ==> Get(r.epochs, x) == Get(s.epochs, x))
  {
    EntersRemembers(s, p, seed);
    if Enters(s, p) {
      assert !Has(s.epochs, p.dh);
      hide DecryptPayload, RememberEpoch;
      RememberedAfter(s.epochs, p.dh, Epoch(p.pqPk, p.pqCt), x);
    }
  }

  /** The same for any envelope in any state a run can reach. */
  lemma EpochsRemembered(me: Identity, peer: Identity, otk: OneTime, ops: seq<Op>, e: Envelope, seed: nat, x: Key)
    requires NewSession(me, peer, otk).Some? && SeedsFresh(ops, me)
    requires Decrypt(Run(NewSession(me, peer, otk).value, ops).0, e, seed).Ok?
    ensures
      var s := Run(NewSession(me, peer, otk).value, ops).0;
      var p := Authenticate(s, e).value;
      var r := Decrypt(s, e, seed).value.0;
      if !Enters(s, p) then r.epochs == s.epochs
      else if x == p.dh then Has(r.epochs, x) && Get(r.epochs, x) == Epoch(p.pqPk, p.pqCt)
      else
        && (Has(r.epochs, x) <==> Has(s.epochs, x) && !Displaced(s.epochs, x))
        && (Has(r.epochs, x) ==> Get(r.epochs, x) == Get(s.epochs, x))
  {
    RunKeeps(NewSession(me, peer, otk).value, ops);
    var s := Run(NewSession(me, peer, otk).value, ops).0;
    hide DecryptPayload, Authenticate, Enters, Run, NewSession;
    MemoryAfterReceive(s, Authenticate(s, e).value, seed, x);
  }
}
