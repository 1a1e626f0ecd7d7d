/** What the counters in a header count, over whole runs of the sender. */
module Counters {
  import opened Common
  import opened OrderedMap
  import opened Padding
  import opened Symbolic
  import opened Ratchet
  import opened SessionRuns

  /** A header sent, and the ratchet key the session held before the one in it. */
  datatype Entry = Entry(header: Header, before: Option<Key>)

  /** The key before the current one, and everything sent. */
  datatype History = History(before: Option<Key>, sent: seq<Entry>)

  function Extend(s: State, op: Op, h: History): History
    requires s.Coherent()
  {
    var before := if Step(s, op).0.dhs != s.dhs then s.dhs else h.before;
    if !op.Send? then History(before, h.sent)
    else
      var e := Encrypt(s, op.text, op.nonce, op.seed).1;
      History(before, h.sent + [Entry(e.header.value, before)])
  }

  function HistoryAfter(s: State, ops: seq<Op>, h: History): History
    requires s.Coherent()
    decreases |ops|
  {
    if ops == [] then h else HistoryAfter(Step(s, ops[0]).0, ops[1..], Extend(s, ops[0], h))
  }

  /** How many of the headers carry the ratchet key. */
  function Under(sent: seq<Entry>, dh: Key): nat {
    if sent == [] then 0
    else Under(sent[..|sent| - 1], dh) + if sent[|sent| - 1].header.dh == dh then 1 else 0
  }

  /** Every operation draws a seed that was not drawn before. */
  predicate Drawn(ops: seq<Op>, used: set<Key>)
    decreases |ops|
  {
    ops == [] || (if ops[0].RestartOp? then Drawn(ops[1..], used)
                  else ops[0].seed !in used && Drawn(ops[1..], used + {ops[0].seed}))
  }

  predicate Numbered(sent: seq<Entry>, i: nat)
    requires i < |sent|
  {
    && sent[i].header.n == Under(sent[..i], sent[i].header.dh)
    && sent[i].header.pn == (if sent[i].before.Some? then Under(sent, sent[i].before.value) else 0)
  }

  predicate AllNumbered(sent: seq<Entry>) {
    forall i | 0 <= i < |sent| :: Numbered(sent, i)
  }

  /** The counters stand where the headers sent so far put them, and no key left comes back. */
  ghost predicate Counted(s: State, h: History, used: set<Key>) {
    && s.Coherent()
    && (s.dhs.Some? ==> s.dhs.value in used && h.before != s.dhs)
    && (h.before.Some? ==> s.dhs.Some? && h.before.value in used)
    && s.ns == (if s.dhs.Some? then Under(h.sent, s.dhs.value) else 0)
    && s.pn == (if h.before.Some? then Under(h.sent, h.before.value) else 0)
    && (forall i | 0 <= i < |h.sent| :: Numbered(h.sent, i))
    && (forall i | 0 <= i < |h.sent| :: h.sent[i].header.dh in used)
    && (forall i | 0 <= i < |h.sent| && h.sent[i].before.Some? ::
          h.sent[i].before.value in used && h.sent[i].before != s.dhs)
  }

  lemma UnderNext(sent: seq<Entry>, e: Entry, dh: Key)
    ensures Under(sent + [e], dh) == Under(sent, dh) + if e.header.dh == dh then 1 else 0
  {
    assert (sent + [e])[..|sent|] == sent;
  }

  lemma {:induction false} NoneUnder(sent: seq<Entry>, dh: Key)
    requires forall i | 0 <= i < |sent| :: sent[i].header.dh != dh
    ensures Under(sent, dh) == 0
  {
    if sent != [] {
      NoneUnder(sent[..|sent| - 1], dh);
    }
  }

  /** Where sending stands after a receive: as before, or at the start of a chain under the seed drawn for it. */
  predicate Moved(s: State, r: State, seed: nat) {
    || (r.dhs == s.dhs && r.ns == s.ns && r.pn == s.pn)
    || (s.dhs.None? && r.dhs == Some(seed) && r.ns == s.ns && r.pn == s.pn)
    || (s.dhs.Some? && r.dhs == Some(seed) && r.ns == 0 && r.pn == s.ns)
  }

  lemma ReadChainMoves(s: State, p: Payload)
    requires s.Coherent() && s.ckr.Some? && ReadChain(s, p).Ok?
    ensures var r := ReadChain(s, p).value.0; r.dhs == s.dhs && r.ns == s.ns && r.pn == s.pn
  {
    SkipKeepsShape(s, p.n);
  }

  lemma ReceiveMoves(s: State, p: Payload, seed: nat)
    requires s.Coherent() && p.n >= 0 && DecryptPayload(s, p, seed).Ok?
    ensures Moved(s, DecryptPayload(s, p, seed).value.0, seed)
  {
    hide ReadChain, SkipMessageKeys, Has, RememberEpoch;
    if p.first {
      ReadChainMoves(EstablishFirst(s, p, seed), p);
    } else if Has(s.mkskip, KeyOf(p)) {
    } else if s.dhr != Some(p.dh) {
      SkipKeepsShape(s, p.pn);
      ReadChainMoves(DhRatchet(SkipMessageKeys(s, p.pn).value, p, seed), p);
    } else {
      ReadChainMoves(s, p);
    }
  }

  lemma StepMoves(s: State, e: Envelope, seed: nat)
    requires s.Coherent()
    ensures Moved(s, Step(s, Receive(e, seed)).0, seed)
  {
    hide DecryptPayload, Authenticate;
    if Decrypt(s, e, seed).Ok? {
      ReceiveMoves(s, Authenticate(s, e).value, seed);
    }
  }

  lemma ReceiveCounts(s: State, r: State, h: History, used: set<Key>, seed: nat)
    requires Counted(s, h, used) && r.Coherent() && Moved(s, r, seed) && seed !in used
    ensures Counted(r, History(if r.dhs != s.dhs then s.dhs else h.before, h.sent), used + {seed})
  {
    hide Numbered, Under;
    if r.dhs != s.dhs {
      NoneUnder(h.sent, seed);
    }
  }

  lemma SendCounts(s: State, h: History, used: set<Key>, text: Bytes, nonce: nat, seed: nat)
    requires Counted(s, h, used) && seed !in used
    ensures var op := Send(text, nonce, seed);
      Counted(Step(s, op).0, Extend(s, op, h), used + {seed})
  {
    hide Pad, Numbered, Under;
    NoneUnder(h.sent, seed);
    var op := Send(text, nonce, seed);
    var r, h' := Step(s, op).0, Extend(s, op, h);
    var e := h'.sent[|h.sent|];
    assert h'.sent == h.sent + [e] && Some(e.header.dh) == r.dhs;
    UnderNext(h.sent, e, e.header.dh);
    if h'.before.Some? { UnderNext(h.sent, e, h'.before.value); }
    SentNumbered(h.sent, e);
  }

  lemma SentNumbered(sent: seq<Entry>, e: Entry)
    requires forall i | 0 <= i < |sent| :: Numbered(sent, i)
    requires forall i | 0 <= i < |sent| :: sent[i].before != Some(e.header.dh)
    requires e.header.n == Under(sent, e.header.dh) && e.before != Some(e.header.dh)
    requires e.header.pn == (if e.before.Some? then Under(sent, e.before.value) else 0)
    ensures forall i | 0 <= i < |sent| + 1 :: Numbered(sent + [e], i)
  {
    hide Under;
    var all := sent + [e];
    forall i | 0 <= i < |all| ensures Numbered(all, i) {
      assert all[..i] == sent[..i];
      if i < |sent| { assert Numbered(sent, i) && all[i] == sent[i]; }
      if all[i].before.Some? { UnderNext(sent, e, all[i].before.value); }
    }
  }

  lemma RestartCounts(s: State, h: History, used: set<Key>)
    requires Counted(s, h, used)
    ensures Counted(Restart(s), Extend(s, RestartOp, h), used)
  {
    hide Numbered, Under;
  }

  lemma {:induction false} RunCounts(s: State, ops: seq<Op>, h: History, used: set<Key>)
    requires Counted(s, h, used) && Drawn(ops, used)
    ensures AllNumbered(HistoryAfter(s, ops, h).sent)
    decreases |ops|
  {
    CountedParts(s, h, used);
    hide AllNumbered, Counted;
    if ops != [] {
      match ops[0]
      case Send(text, nonce, seed) =>
        SendCounts(s, h, used, text, nonce, seed);
        hide Encrypt;
        RunCounts(Step(s, ops[0]).0, ops[1..], Extend(s, ops[0], h), used + {seed});
      case Receive(e, seed) =>
        StepMoves(s, e, seed);
        hide Step, Moved;
        ReceiveCounts(s, Step(s, ops[0]).0, h, used, seed);
        RunCounts(Step(s, ops[0]).0, ops[1..], Extend(s, ops[0], h), used + {seed});
      case RestartOp =>
        RestartCounts(s, h, used);
        hide Restart;
        RunCounts(Step(s, ops[0]).0, ops[1..], Extend(s, ops[0], h), used);
    }
  }

  lemma CountedParts(s: State, h: History, used: set<Key>)
    requires Counted(s, h, used)
    ensures s.Coherent() && AllNumbered(h.sent)
  {
  }

  lemma StartsCounted(me: Identity, peer: Identity, otk: OneTime)
    requires NewSession(me, peer, otk).Some?
    ensures Counted(NewSession(me, peer, otk).value, History(None, []), {})
  {
  }

  /**
   * In any run, against any peer and through any restarts: n is how many envelopes went out before under the same
   * ratchet key, and pn how many the session ever sent under the key it held before.
   */
  lemma CountersExact(me: Identity, peer: Identity, otk: OneTime, ops: seq<Op>)
    requires NewSession(me, peer, otk).Some? && Drawn(ops, {})
    ensures AllNumbered(HistoryAfter(NewSession(me, peer, otk).value, ops, History(None, [])).sent)
  {
    StartsCounted(me, peer, otk);
    hide *;
    RunCounts(NewSession(me, peer, otk).value, ops, History(None, []), {});
  }
}
