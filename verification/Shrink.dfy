/** What an envelope leaves out, over whole runs of the sender. */
module Shrink {
  import opened Common
  import opened OrderedMap
  import opened Padding
  import opened Symbolic
  import opened Ratchet
  import opened SessionRuns
  import opened Restarting

  /** The last envelope sent since the session was created or restored. */
  function LastSent(s: State, ops: seq<Op>): Option<Envelope>
    requires s.Coherent()
    decreases |ops|
  {
    if ops == [] then None
    else
      var rest := LastSent(Step(s, ops[0]).0, ops[1..]);
      if rest.Some? || RestartOp in ops[1..] then rest
      else if ops[0].Send? then Some(Encrypt(s, ops[0].text, ops[0].nonce, ops[0].seed).1)
      else None
  }

  /** The ratchet key under which the session last sent, as it remembers it. */
  predicate Remembers(s: State, last: Option<Envelope>) {
    && s.Coherent() && (s.cks.None? ==> s.lastSentDh.None?)
    && s.lastSentDh == if last.Some? && last.value.header.Some? then Some(last.value.header.value.dh) else None
  }

  lemma SendRemembers(s: State, text: Bytes, nonce: nat, seed: nat)
    requires s.Coherent()
    ensures var (r, e) := Encrypt(s, text, nonce, seed);
      Remembers(r, Some(e)) && e.header.Some?
  {
    hide Pad;
  }

  lemma ReceiveRemembers(s: State, e: Envelope, seed: nat, last: Option<Envelope>)
    requires Remembers(s, last)
    ensures Remembers(Step(s, Receive(e, seed)).0, last)
  {
    hide DecryptPayload, Authenticate;
    if Decrypt(s, e, seed).Ok? {
      var p := Authenticate(s, e).value;
      DecryptKeepsParty(s, p, seed);
      SendingStays(s, p, seed);
    }
  }

  lemma SendingStays(s: State, p: Payload, seed: nat)
    requires s.Coherent() && p.n >= 0 && DecryptPayload(s, p, seed).Ok?
    ensures s.cks.Some? ==> DecryptPayload(s, p, seed).value.0.cks.Some?
  {
    hide RememberEpoch, Has;
    if p.first {
      ReadChainKeepsChains(EstablishFirst(s, p, seed), p);
    } else if Has(s.mkskip, KeyOf(p)) {
    } else if s.dhr != Some(p.dh) {
      SkipKeepsShape(s, p.pn);
      hide SkipMessageKeys, ReadChain;
      ReadChainKeepsChains(DhRatchet(SkipMessageKeys(s, p.pn).value, p, seed), p);
    } else {
      ReadChainKeepsChains(s, p);
    }
  }

  /** From a state whose last envelope is known, what the whole run makes the last one. */
  function LastAfter(s: State, ops: seq<Op>, last: Option<Envelope>): Option<Envelope>
    requires s.Coherent()
    decreases |ops|
  {
    if ops == [] then last
    else
      LastAfter(Step(s, ops[0]).0, ops[1..],
                if ops[0].RestartOp? then None
                else if ops[0].Send? then Some(Encrypt(s, ops[0].text, ops[0].nonce, ops[0].seed).1)
                else last)
  }

  lemma {:induction false} LastAgrees(s: State, ops: seq<Op>, last: Option<Envelope>)
    requires s.Coherent()
    ensures LastAfter(s, ops, last) ==
      if LastSent(s, ops).Some? then LastSent(s, ops) else if RestartOp in ops then None else last
    decreases |ops|
  {
    hide Step, Encrypt;
    if ops != [] {
      var now := if ops[0].RestartOp? then None
                 else if ops[0].Send? then Some(Encrypt(s, ops[0].text, ops[0].nonce, ops[0].seed).1)
                 else last;
      LastAgrees(Step(s, ops[0]).0, ops[1..], now);
      assert ops == [ops[0]] + ops[1..];
    }
  }

  lemma {:induction false} RunRemembers(s: State, ops: seq<Op>, last: Option<Envelope>)
    requires Remembers(s, last)
    ensures Remembers(End(s, ops), LastAfter(s, ops, last))
    decreases |ops|
  {
    if ops != [] {
      var op := ops[0];
      match op
      case Send(text, nonce, seed) =>
        SendRemembers(s, text, nonce, seed);
        hide Encrypt, Remembers;
        RunRemembers(Step(s, op).0, ops[1..], Some(Encrypt(s, text, nonce, seed).1));
      case Receive(e, seed) =>
        ReceiveRemembers(s, e, seed, last);
        hide Step, Remembers;
        RunRemembers(Step(s, op).0, ops[1..], last);
      case RestartOp =>
        assert Remembers(Restart(s), None);
        hide Restart, Remembers;
        RunRemembers(Step(s, op).0, ops[1..], None);
    }
  }

  /**
   * In any run, against any peer: an envelope leaves its KEM material out exactly if the one sent before it, since the
   * session was created or restored, went out under the same ratchet key; and it names its signing key exactly if it is
   * flagged first.
   */
  lemma ShrunkIff(me: Identity, peer: Identity, otk: OneTime, ops: seq<Op>, text: Bytes, nonce: nat, seed: nat)
    requires NewSession(me, peer, otk).Some?
    ensures
      var s := NewSession(me, peer, otk).value;
      var e := Encrypt(End(s, ops), text, nonce, seed).1;
      var l := LastSent(s, ops);
      && e.header.Some? && (l.Some? ==> l.value.header.Some?)
      && (e.header.value.pqPk.None? <==>
            l.Some? && l.value.header.value.dh == e.header.value.dh && e.header.value.first != Flag(true))
      && (e.header.value.pqPk.None? ==> e.header.value.pqCt.None?)
      && (e.senderSign.Some? <==> e.header.value.first == Flag(true))
  {
    var s := NewSession(me, peer, otk).value;
    RunRemembers(s, ops, None);
    LastAgrees(s, ops, None);
    LastHasHeader(s, ops);
    hide Pad, End, LastSent, LastAfter, NewSession;
  }

  lemma {:induction false} LastHasHeader(s: State, ops: seq<Op>)
    requires s.Coherent()
    ensures LastSent(s, ops).Some? ==> LastSent(s, ops).value.header.Some?
    decreases |ops|
  {
    hide Step;
    if ops != [] {
      LastHasHeader(Step(s, ops[0]).0, ops[1..]);
      hide Pad;
    }
  }
}
