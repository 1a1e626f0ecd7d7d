/**
 * Two sessions over an arbitrary channel: exactly which messages are accepted,
 * and what holds after every run.
 */
module PairRuns {
  import opened Common
  import opened OrderedMap
  import opened Padding
  import opened Symbolic
  import opened Ratchet
  import opened Pair
  import opened PairSteps

  // ---- Which messages are accepted ----

  /** p is q but for the counters, which the signature holds as 32-bit words only. */
  predicate ButForCounters(p: Payload, q: Payload) {
    p == q.(pn := p.pn, n := p.n, otkId := p.otkId)
  }

  /**
   * The receiver's condition on a message whose header gives counters n and pn. A first message needs an unestablished
   * session and a sender that opened its first epoch by itself; a skipped one the key stored for its position; one on
   * the current chain a header that leads to its position; and any other must open the epoch the sender is ahead by,
   * where pn is read unless there is no chain to finish.
   */
  ghost predicate AcceptsAs(x: End, y: End, m: Msg, n: nat, pn: int)
    requires m.epoch < |x.hist|
  {
    if m.first then y.cur == -1 && Booted(x) && n == 0
    else if Has(y.s.mkskip, (x.hist[m.epoch].dh, n)) then n == m.n
    else if m.epoch == y.cur then m.n == Reached(y.s, n) && m.n <= y.s.nr + MAX_SKIP
    else
      && Ahead(x, y) && m.epoch == |x.hist| - 1 && n == m.n <= MAX_SKIP
      && (y.cur == -1 || pn - y.s.nr <= MAX_SKIP)
  }

  /** The condition on a message as it was sent. */
  ghost predicate Accepts(x: End, y: End, m: Msg)
    requires m.epoch < |x.hist|
  {
    AcceptsAs(x, y, m, m.n, x.hist[m.epoch].pn)
  }

  function EpochIndex(hist: seq<Sending>, dh: Option<Key>): (i: int)
    ensures -1 <= i < |hist|
    ensures i >= 0 ==> dh == Some(hist[i].dh)
    ensures i < 0 ==> forall j | 0 <= j < |hist| :: dh != Some(hist[j].dh)
  {
    if |hist| == 0 then -1
    else if dh == Some(hist[|hist| - 1].dh) then |hist| - 1
    else EpochIndex(hist[..|hist| - 1], dh)
  }

  /** y after its session moved to s by a receive. */
  function Delivered(x: End, y: End, s: State): End
    requires s.Coherent()
  {
    y.(s := s,
       hist := if s.cks.Some? && s.dhs != y.s.dhs then y.hist + [SendingOf(s)] else y.hist,
       cur := if s.dhr == y.s.dhr then y.cur else EpochIndex(x.hist, s.dhr))
  }

  lemma EpochIndexOf(hist: seq<Sending>, i: nat)
    requires i < |hist| && forall j, k | 0 <= j < k < |hist| :: hist[j].dh < hist[k].dh
    ensures EpochIndex(hist, Some(hist[i].dh)) == i
  {
    var j := EpochIndex(hist, Some(hist[i].dh));
    assert j >= 0 && hist[j].dh == hist[i].dh;
  }

  /** y once it receives on epoch cur of x, having opened an epoch of its own or not. */
  function Moved(y: End, s: State, cur: int): End
    requires s.Coherent() && s.cks.Some?
  {
    if s.dhs != y.s.dhs then Opened(y, s, cur) else y.(s := s, cur := cur)
  }

  lemma DeliveredMoves(x: End, y: End, s: State, cur: nat, n: nat)
    requires s.Coherent() && s.cks.Some? && s.ckr.Some? && s.nr <= n && cur < |x.hist|
    requires s.dhr == Some(x.hist[cur].dh) && s.dhr != y.s.dhr
    requires forall j, k | 0 <= j < k < |x.hist| :: x.hist[j].dh < x.hist[k].dh
    ensures Delivered(x, y, After(s, n)) == Moved(y, s, cur).(s := After(s, n))
  {
    EpochIndexOf(x.hist, cur);
    assert SendingOf(After(s, n)) == SendingOf(s);
  }

  lemma ReadAfterMove(x: End, y: End, y1: End, s: State, cur: nat, n: nat, next: nat, r0: Root)
    requires s.Coherent() && s.cks.Some? && s.ckr.Some? && s.nr <= n && cur < |x.hist|
    requires y1 == y.(s := y1.s) && y1.s.dhs == y.s.dhs && y1.s.dhr == y.s.dhr
    requires s.dhr != y.s.dhr && Inv(x, Moved(y1, s, cur), next, r0)
    ensures Inv(x, Delivered(x, y, After(s, n)), next, r0)
  {
    ReadStep(x, Moved(y1, s, cur), n, next, r0);
    DeliveredMoves(x, y, s, cur, n);
    assert Moved(y1, s, cur) == Moved(y, s, cur);
  }

  /** The outcome of one delivery: accepted exactly under AcceptsAs, with the sender's text, and the invariant kept. */
  ghost predicate DeliveryOk(x: End, y: End, m: Msg, p: Payload, next: nat, r0: Root)
    requires y.s.Coherent() && m.epoch < |x.hist| && p.n >= 0
  {
    var r := DecryptPayload(y.s, p, next);
    && (r.Ok? <==> AcceptsAs(x, y, m, p.n, p.pn))
    && (r.Ok? ==> r.value.1 == m.text && r.value.0.Coherent() && Inv(x, Delivered(x, y, r.value.0), next + 1, r0))
  }

  lemma InvLater(x: End, y: End, next: nat, r0: Root)
    requires Inv(x, y, next, r0)
    ensures Inv(x, y, next + 1, r0)
  {
    OwnSideLater(x, next, r0);
    OwnSideLater(y, next, r0);
  }

  /** Opening an epoch does not read the counters. */
  lemma CountersNotRead(s: State, p: Payload, q: Payload, seed: nat)
    requires ButForCounters(p, q)
    ensures EstablishFirst(s, p, seed) == EstablishFirst(s, q, seed)
    ensures s.dhs.Some? && s.pqs.Some? ==> DhRatchet(s, p, seed) == DhRatchet(s, q, seed)
  {
  }

  lemma DeliverFirst(x: End, y: End, m: Msg, p: Payload, next: nat, r0: Root)
    requires Inv(x, y, next, r0) && m in x.log && m.first && Booted(x) && y.cur == -1
    requires m.epoch < |x.hist| && y.s.Coherent() && ButForCounters(p, PayloadOf(x, m)) && p.n >= 0
    ensures
      var s := EstablishFirst(y.s, p, next);
      && s.Coherent() && s.ckr.Some?
      && (if p.n == 0 then ReadChain(s, p) == Ok((After(s, 0), m.text)) else ReadChain(s, p).Err?)
      && After(s, 0).Coherent() && Inv(x, Delivered(x, y, After(s, 0)), next + 1, r0)
  {
    hide EstablishFirst, ReadChain, Pad, Inv;
    CountersNotRead(y.s, p, PayloadOf(x, m), next);
    var s := EstablishFirst(y.s, p, next);
    EstablishOnChain(x, y, m, next, r0);
    ReadChainIff(s, p, x.hist[0].chain, 0, m.text);
    ReadAfterMove(x, y, y, s, 0, 0, next + 1, r0);
  }

  lemma EstablishOnChain(x: End, y: End, m: Msg, next: nat, r0: Root)
    requires Inv(x, y, next, r0) && m in x.log && m.first && Booted(x) && y.cur == -1
    ensures
      var s := EstablishFirst(y.s, PayloadOf(x, m), next);
      && s.ckr == Some(ChainKey(x.hist[0].chain, 0)) && s.nr == 0 && s.dhr != y.s.dhr
      && s.Coherent() && s.cks.Some? && Inv(x, Moved(y, s, 0), next + 1, r0)
      && m.epoch == 0 && m.n == 0 && |m.text| < TWO_32
  {
    hide EstablishFirst, Pad;
    EstablishStep(x, y, m, next, r0);
    EstablishShape(y.s, PayloadOf(x, m), next);
    FirstChainMatches(x, y, m, next, r0);
  }

  lemma EstablishShape(s: State, p: Payload, seed: nat)
    requires s.Coherent()
    ensures
      var r := EstablishFirst(s, p, seed);
      && r.ckr == Some(ChainKey(Chain(s.rk, FirstMix(s.me, p)), 0)) && r.nr == s.nr && r.dhr == Some(p.dh)
      && r.Coherent()
  {
  }

  /** A message flagged first in an epoch that answers the peer starts a chain nobody sends on. */
  lemma MisflaggedChainDiffers(x: End, y: End, m: Msg, next: nat, r0: Root)
    requires Inv(x, y, next, r0) && m in x.log && m.first && !Booted(x) && y.cur == -1
    ensures Chain(y.s.rk, FirstMix(y.s.me, PayloadOf(x, m))) != x.hist[m.epoch].chain
  {
    hide Pad;
    assert GoodMsg(m, x.hist, x.s.peer);
    assert Ahead(x, y) && |x.hist| == 1;
  }

  lemma DeliverMisflagged(x: End, y: End, m: Msg, p: Payload, next: nat, r0: Root)
    requires Inv(x, y, next, r0) && m in x.log && m.first && !Booted(x) && y.cur == -1
    requires ButForCounters(p, PayloadOf(x, m)) && p.n >= 0
    ensures DecryptPayload(y.s, p, next).Err?
  {
    hide EstablishFirst, ReadChain, Pad;
    MisflaggedChainDiffers(x, y, m, next, r0);
    EstablishShape(y.s, p, next);
    ReadChainIff(EstablishFirst(y.s, p, next), p, x.hist[m.epoch].chain, m.n, m.text);
  }

  lemma DeliverSkipped(x: End, y: End, m: Msg, p: Payload, next: nat, r0: Root)
    requires Inv(x, y, next, r0) && m in x.log && !m.first
    requires ButForCounters(p, PayloadOf(x, m)) && p.n >= 0
    requires Has(y.s.mkskip, (x.hist[m.epoch].dh, p.n))
    ensures DeliveryOk(x, y, m, p, next, r0)
  {
    var k := Find(y.s.mkskip, KeyOf(p));
    var i :| 0 <= i <= y.cur && i < |x.hist| && x.hist[i].dh == p.dh &&
      y.s.mkskip[k].1 == MessageKey(x.hist[i].chain, p.n);
    assert i == m.epoch;
    ReadSkippedOpens(y.s, p, x.hist[i].chain, m.n, m.text);
    ReadSkippedStep(x, y, KeyOf(p), next, r0);
    var s := y.s.(mkskip := Delete(y.s.mkskip, KeyOf(p)));
    InvLater(x, y.(s := s), next, r0);
    assert Delivered(x, y, s) == y.(s := s);
  }

  lemma DeliverCurrent(x: End, y: End, m: Msg, p: Payload, next: nat, r0: Root)
    requires Inv(x, y, next, r0) && m in x.log && !m.first && m.epoch == y.cur
    requires ButForCounters(p, PayloadOf(x, m)) && p.n >= 0
    requires !Has(y.s.mkskip, (x.hist[m.epoch].dh, p.n))
    ensures DeliveryOk(x, y, m, p, next, r0)
  {
    ReadChainIff(y.s, p, x.hist[m.epoch].chain, m.n, m.text);
    if y.s.nr <= m.n <= y.s.nr + MAX_SKIP {
      ReadStep(x, y, m.n, next, r0);
      InvLater(x, y.(s := After(y.s, m.n)), next, r0);
      assert Delivered(x, y, After(y.s, m.n)) == y.(s := After(y.s, m.n));
    }
  }

  /** Ratcheting on any epoch but the one the sender is ahead by gives a chain the sender never used. */
  lemma StaleChainDiffers(x: End, y: End, m: Msg, next: nat, r0: Root)
    requires Inv(x, y, next, r0) && m in x.log && !m.first && m.epoch != y.cur && y.s.cks.Some?
    requires !(Ahead(x, y) && m.epoch == |x.hist| - 1)
    ensures Chain(y.s.rk, RatchetMix(y.s, PayloadOf(x, m))) != x.hist[m.epoch].chain
  {
    var e := x.hist[m.epoch];
    assert x.s.me.kem < next;
    if IsBoot(e, x.s.peer) {
      assert m.epoch == 0 && e.chain.mix.kem == Shared(y.s.me.kem, e.ct.coin);
      assert y.s.pqs.value > y.s.me.kem;
    } else {
      assert Depth(e.chain.root) < Depth(y.s.rk);
    }
  }

  lemma SkipIff(s: State, until: int)
    requires s.Coherent()
    ensures SkipMessageKeys(s, until).Ok? <==> s.ckr.None? || until - s.nr <= MAX_SKIP
  {
  }

  lemma NewEpochFacts(x: End, y: End, m: Msg, next: nat, r0: Root)
    requires Inv(x, y, next, r0) && m in x.log && !m.first && m.epoch != y.cur
    ensures m.epoch < |x.hist| && y.s.Coherent() && y.s.dhr != Some(x.hist[m.epoch].dh)
    ensures (y.cur == -1 <==> y.s.ckr.None?) && (|y.hist| == 0 <==> y.s.dhs.None?)
  {
  }

  lemma DeliverNewEpoch(x: End, y: End, m: Msg, p: Payload, next: nat, r0: Root)
    requires Inv(x, y, next, r0) && m in x.log && !m.first && m.epoch != y.cur
    requires ButForCounters(p, PayloadOf(x, m)) && p.n >= 0
    requires !Has(y.s.mkskip, (x.hist[m.epoch].dh, p.n))
    ensures DeliveryOk(x, y, m, p, next, r0)
  {
    hide ReadChain, DhRatchet, Pad, SkipMessageKeys, Inv, StepsFrom;
    NewEpochFacts(x, y, m, next, r0);
    SkipIff(y.s, p.pn);
    if Has(y.s.epochs, p.dh) {
      KnownEpochIsPast(x, y, m.epoch, next, r0);
    } else if y.s.dhs.Some? && SkipMessageKeys(y.s, p.pn).Ok? {
      DeliverUnknownEpoch(x, y, m, p, next, r0);
    }
  }

  lemma DeliverUnknownEpoch(x: End, y: End, m: Msg, p: Payload, next: nat, r0: Root)
    requires Inv(x, y, next, r0) && m in x.log && m.epoch != y.cur && !m.first
    requires ButForCounters(p, PayloadOf(x, m)) && p.n >= 0
    requires !Has(y.s.epochs, x.hist[m.epoch].dh) && y.s.dhs.Some?
    requires SkipMessageKeys(y.s, p.pn).Ok?
    ensures
      var s1 := SkipMessageKeys(y.s, p.pn).value;
      && s1.Coherent() && s1.dhs.Some?
      && var r := ReadChain(DhRatchet(s1, p, next), p);
      && (r.Ok? <==> Ahead(x, y) && m.epoch == |x.hist| - 1 && p.n == m.n <= MAX_SKIP)
      && (r.Ok? ==> r.value.1 == m.text && r.value.0.Coherent()
                    && Inv(x, Delivered(x, y, r.value.0), next + 1, r0))
  {
    hide DhRatchet, ReadChain, Pad;
    SkipKeepsShape(y.s, p.pn);
    SkipStep(x, y, p.pn, next, r0);
    var y1 := y.(s := SkipMessageKeys(y.s, p.pn).value);
    CountersNotRead(y1.s, p, PayloadOf(x, m), next);
    var s := DhRatchet(y1.s, p, next);
    DhRatchetShape(y1.s, p, next);
    ReadChainIff(s, p, x.hist[m.epoch].chain, m.n, m.text);
    if Ahead(x, y) && m.epoch == |x.hist| - 1 {
      EnterNewEpoch(x, y, y1, m, next, r0);
    } else {
      StaleChainDiffers(x, y, m, next, r0);
    }
  }

  lemma KnownEpochIsPast(x: End, y: End, i: nat, next: nat, r0: Root)
    requires Inv(x, y, next, r0) && i < |x.hist| && Has(y.s.epochs, x.hist[i].dh)
    ensures i <= y.cur
  {
    var k := Find(y.s.epochs, x.hist[i].dh);
    assert EpochKnown(y.s.epochs[k], x.hist, y.cur);
  }

  lemma EnterNewEpoch(x: End, y: End, y1: End, m: Msg, next: nat, r0: Root)
    requires Inv(x, y1, next, r0) && m in x.log && m.epoch < |x.hist| && y1.s.Coherent() && y1.s.dhs.Some?
    requires Ahead(x, y1) && m.epoch == |x.hist| - 1 && y1.cur != m.epoch && !Has(y1.s.epochs, x.hist[m.epoch].dh)
    requires y1 == y.(s := y1.s) && y1.s.dhs == y.s.dhs && y1.s.dhr == y.s.dhr
    ensures
      var s := DhRatchet(y1.s, PayloadOf(x, m), next);
      && s.ckr == Some(ChainKey(x.hist[m.epoch].chain, 0)) && s.nr == 0 && s.Coherent()
      && Inv(x, Delivered(x, y, After(s, m.n)), next + 1, r0)
  {
    hide DhRatchet, Inv, Ahead;
    var s := DhRatchet(y1.s, PayloadOf(x, m), next);
    RatchetMoves(x, y1, m, next, r0);
    ReadAfterMove(x, y, y1, s, m.epoch, m.n, next + 1, r0);
  }

  lemma RatchetMoves(x: End, y: End, m: Msg, next: nat, r0: Root)
    requires Inv(x, y, next, r0) && m in x.log
    requires Ahead(x, y) && m.epoch == |x.hist| - 1 && y.cur != m.epoch && !Has(y.s.epochs, x.hist[m.epoch].dh)
    ensures
      var s := DhRatchet(y.s, PayloadOf(x, m), next);
      && s.ckr == Some(ChainKey(x.hist[m.epoch].chain, 0)) && s.nr == 0 && s.Coherent() && s.cks.Some?
      && s.dhs != y.s.dhs && s.dhr != y.s.dhr
      && Inv(x, Moved(y, s, m.epoch), next + 1, r0)
  {
    hide DhRatchet;
    RatchetMatches(x, y, PayloadOf(x, m));
    DhRatchetShape(y.s, PayloadOf(x, m), next);
    RatchetStep(x, y, m, next, r0);
  }

  /** A header of a sent message with any counters is accepted exactly under AcceptsAs. */
  lemma DeliverAs(x: End, y: End, m: Msg, p: Payload, next: nat, r0: Root)
    requires Inv(x, y, next, r0) && m in x.log && m.epoch < |x.hist|
    requires ButForCounters(p, PayloadOf(x, m)) && p.n >= 0
    ensures DeliveryOk(x, y, m, p, next, r0)
  {
    if m.first {
      if y.cur == -1 {
        if Booted(x) {
          DeliverFirst(x, y, m, p, next, r0);
        } else {
          DeliverMisflagged(x, y, m, p, next, r0);
        }
      }
    } else if Has(y.s.mkskip, (x.hist[m.epoch].dh, p.n)) {
      DeliverSkipped(x, y, m, p, next, r0);
    } else if m.epoch == y.cur {
      DeliverCurrent(x, y, m, p, next, r0);
    } else {
      DeliverNewEpoch(x, y, m, p, next, r0);
    }
  }

  lemma Deliver(x: End, y: End, m: Msg, next: nat, r0: Root)
    requires Inv(x, y, next, r0) && m in x.log
    ensures DeliveryOk(x, y, m, PayloadOf(x, m), next, r0)
  {
    DeliverAs(x, y, m, PayloadOf(x, m), next, r0);
  }
}
