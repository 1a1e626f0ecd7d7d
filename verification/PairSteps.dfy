/** The two-party invariant across every step of a receive. */
module PairSteps {
  import opened Common
  import opened OrderedMap
  import opened Symbolic
  import opened Ratchet
  import opened Pair

  // ---- Steps that only move the receiving position ----

  lemma SkippedStaysKnown(
    e: (SkipKey, MessageKey), hist: seq<Sending>, more: seq<Sending>, cur: int, cur': int, nr: nat, nr': nat)
    requires SkippedKnown(e, hist, cur, nr)
    requires (cur' == cur && nr <= nr') || cur < cur'
    ensures SkippedKnown(e, hist + more, cur', nr')
  {
    var i :| 0 <= i <= cur && i < |hist| &&
      hist[i].dh == e.0.0 && e.1 == MessageKey(hist[i].chain, e.0.1) && (i == cur ==> e.0.1 < nr);
    assert (hist + more)[i] == hist[i];
  }

  lemma EpochStaysKnown(e: (Key, Epoch), hist: seq<Sending>, more: seq<Sending>, cur: int, cur': int)
    requires EpochKnown(e, hist, cur) && cur <= cur'
    ensures EpochKnown(e, hist + more, cur')
  {
    var i :| 0 <= i <= cur && i < |hist| && hist[i].dh == e.0 && hist[i].kem == e.1.pk && hist[i].ct == e.1.ct;
    assert (hist + more)[i] == hist[i];
  }

  /** A receive that stays on its chain keeps the invariant if the stored keys stay true. */
  lemma QuietStep(x: End, y: End, s: State, next: nat, r0: Root)
    requires Inv(x, y, next, r0) && y.cur >= 0
    requires s == y.s.(ckr := s.ckr, nr := s.nr, mkskip := s.mkskip)
    requires s.ckr == Some(ChainKey(x.hist[y.cur].chain, s.nr))
    requires forall e | e in s.mkskip :: SkippedKnown(e, x.hist, y.cur, s.nr)
    ensures Inv(x, y.(s := s), next, r0)
  {
    assert Recv(y.(s := s), x, r0);
    QuietOwnSide(y, s, next, r0);
    PhaseFrame(y, y.(s := s), x, r0);
  }

  lemma QuietOwnSide(y: End, s: State, next: nat, r0: Root)
    requires OwnSide(y, next, r0) && s.Coherent()
    requires s == y.s.(ckr := s.ckr, nr := s.nr, mkskip := s.mkskip)
    ensures OwnSide(y.(s := s), next, r0)
  {
  }

  lemma SkipStep(x: End, y: End, until: int, next: nat, r0: Root)
    requires Inv(x, y, next, r0) && SkipMessageKeys(y.s, until).Ok?
    ensures Inv(x, y.(s := SkipMessageKeys(y.s, until).value), next, r0)
  {
    if y.s.ckr.Some? {
      StoreKeepsShape(y.s, until);
      var r := StoreKeysUntil(y.s, until);
      var s := SkipMessageKeys(y.s, until).value;
      forall e | e in s.mkskip ensures SkippedKnown(e, x.hist, y.cur, s.nr) {
        KeyStaysKnown(x, y, until, e, s.nr, r0);
      }
      QuietStep(x, y, s, next, r0);
    } else {
      assert y.(s := y.s) == y;
    }
  }

  lemma KeyStaysKnown(x: End, y: End, until: int, e: (SkipKey, MessageKey), nr: nat, r0: Root)
    requires y.s.Coherent() && Recv(y, x, r0) && y.cur >= 0 && y.s.nr <= nr && until <= nr
    requires e in StoreKeysUntil(y.s, until).mkskip
    ensures SkippedKnown(e, x.hist, y.cur, nr)
  {
    StoredKeys(y.s, until, e);
    if e in y.s.mkskip {
      SkippedStaysKnown(e, x.hist, [], y.cur, y.cur, y.s.nr, nr);
      assert x.hist + [] == x.hist;
    } else {
      assert x.hist[y.cur].dh == e.0.0;
    }
  }

  lemma ReadStep(x: End, y: End, n: nat, next: nat, r0: Root)
    requires Inv(x, y, next, r0) && y.cur >= 0 && y.s.nr <= n
    ensures Inv(x, y.(s := After(y.s, n)), next, r0)
  {
    var s := After(y.s, n);
    StoreKeepsShape(y.s, n);
    forall e | e in s.mkskip ensures SkippedKnown(e, x.hist, y.cur, s.nr) {
      KeyStaysKnown(x, y, n, e, s.nr, r0);
    }
    QuietStep(x, y, s, next, r0);
  }

  lemma ReadSkippedStep(x: End, y: End, key: SkipKey, next: nat, r0: Root)
    requires Inv(x, y, next, r0) && Has(y.s.mkskip, key)
    ensures Inv(x, y.(s := y.s.(mkskip := Delete(y.s.mkskip, key))), next, r0)
  {
    var s := y.s.(mkskip := Delete(y.s.mkskip, key));
    forall e | e in s.mkskip ensures SkippedKnown(e, x.hist, y.cur, s.nr) {
      assert e in y.s.mkskip;
    }
    QuietStep(x, y, s, next, r0);
  }

  // ---- Steps that open an epoch ----

  /** y after a ratchet step: one more sending epoch, receiving on epoch cur of x. */
  function Opened(y: End, s: State, cur: int): End
    requires s.Coherent() && s.cks.Some?
  {
    y.(s := s, hist := y.hist + [SendingOf(s)], cur := cur)
  }

  lemma OpenedOwn(y: End, s: State, cur: int, next: nat, r0: Root)
    requires OwnSide(y, next, r0) && s.Coherent() && s.cks.Some?
    requires s.me == y.s.me && s.peer == y.s.peer && s.otkId == y.s.otkId && s.isFirst == y.s.isFirst
    requires s.dhs == Some(next) && s.pqs == Some(next) && s.ns == 0 && s.cks.value.index == 0
    requires !IsBoot(SendingOf(s), y.s.peer) && s.nextPqCt.KemCt? && s.ckr.Some?
    ensures OwnSide(Opened(y, s, cur), next + 1, r0)
  {
    var y' := Opened(y, s, cur);
    forall k | 0 <= k < |y'.log| ensures GoodMsg(y'.log[k], y'.hist, y'.s.peer) {
      assert GoodMsg(y.log[k], y.hist, y.s.peer);
    }
  }

  lemma RecvStays(x: End, y: End, y': End, more: seq<Sending>, r0: Root)
    requires Recv(x, y, r0) && y'.hist == y.hist + more
    ensures Recv(x, y', r0)
  {
    forall k | 0 <= k < |x.s.epochs| ensures EpochKnown(x.s.epochs[k], y.hist + more, x.cur) {
      EpochStaysKnown(x.s.epochs[k], y.hist, more, x.cur, x.cur);
    }
    forall k | 0 <= k < |x.s.mkskip| ensures SkippedKnown(x.s.mkskip[k], y.hist + more, x.cur, x.s.nr) {
      SkippedStaysKnown(x.s.mkskip[k], y.hist, more, x.cur, x.cur, x.s.nr, x.s.nr);
    }
  }

  /** Moving to a later epoch of x, whose header was just remembered. */
  lemma RecvMoves(x: End, y: End, s: State, cur: int, r0: Root)
    requires Recv(y, x, r0) && y.cur < cur < |x.hist|
    requires s.dhr == Some(x.hist[cur].dh) && s.pqr == Some(x.hist[cur].kem)
    requires s.ckr == Some(ChainKey(x.hist[cur].chain, s.nr)) && s.mkskip == y.s.mkskip
    requires !Has(y.s.epochs, x.hist[cur].dh)
    requires s.epochs == RememberEpoch(y.s.epochs, x.hist[cur].dh, Epoch(x.hist[cur].kem, x.hist[cur].ct))
    ensures Recv(y.(s := s, cur := cur), x, r0)
  {
    var e := (x.hist[cur].dh, Epoch(x.hist[cur].kem, x.hist[cur].ct));
    assert s.epochs[|s.epochs| - 1] == e;
    assert x.hist + [] == x.hist;
    forall k | 0 <= k < |s.epochs| ensures EpochKnown(s.epochs[k], x.hist, cur) {
      assert s.epochs[k] in y.s.epochs + [e];
      if s.epochs[k] in y.s.epochs {
        EpochStaysKnown(s.epochs[k], x.hist, [], y.cur, cur);
      }
    }
    forall k | 0 <= k < |s.mkskip| ensures SkippedKnown(s.mkskip[k], x.hist, cur, s.nr) {
      SkippedStaysKnown(s.mkskip[k], x.hist, [], y.cur, cur, y.s.nr, s.nr);
    }
  }

  lemma OlderStays(x: End, y: End, y': End, ahead: bool)
    requires Older(x, y, ahead)
    requires Depth(y.s.rk) <= Depth(y'.s.rk)
    requires ahead ==> |x.hist| > 0 && Depth(x.hist[|x.hist| - 1].chain.root) < Depth(y'.s.rk)
    ensures Older(x, y', false)
  {
  }

  lemma AnswerPhase(x: End, y: End, s: State, r0: Root)
    requires |x.hist| > 0 && s.Coherent() && s.cks.Some? && s.me == y.s.me && s.peer == y.s.peer
    requires StepsFrom(SendingOf(s), x.hist[|x.hist| - 1], s, x.s)
    requires Older(x, y.(s := s), false) && Older(y, x, false)
    requires x.cur == |y.hist| - 1 || (x.cur == -1 && |y.hist| == 1 && Booted(y) && y.s.me.dh > x.s.me.dh)
    ensures Phase(x, Opened(y, s, |x.hist| - 1), r0)
  {
    var y' := Opened(y, s, |x.hist| - 1);
    assert Ahead(y', x);
    assert Older(y', x, true) && Older(x, y', false);
  }

  /** y answers x's newest epoch by a ratchet step: from here y is ahead. */
  lemma AnswerStep(x: End, y: End, s: State, next: nat, r0: Root)
    requires Inv(x, y, next, r0) && |x.hist| > 0 && y.cur < |x.hist| - 1
    requires s.Coherent() && s.cks.Some? && s.ckr.Some? && s.mkskip == y.s.mkskip
    requires s.me == y.s.me && s.peer == y.s.peer && s.otkId == y.s.otkId && s.isFirst == y.s.isFirst
    requires s.dhs == Some(next) && s.pqs == Some(next) && s.ns == 0 && s.cks.value.index == 0
    requires !Has(y.s.epochs, x.hist[|x.hist| - 1].dh)
    requires var e := x.hist[|x.hist| - 1];
      && s.dhr == Some(e.dh) && s.pqr == Some(e.kem) && s.ckr == Some(ChainKey(e.chain, s.nr))
      && s.epochs == RememberEpoch(y.s.epochs, e.dh, Epoch(e.kem, e.ct))
    requires StepsFrom(SendingOf(s), x.hist[|x.hist| - 1], s, x.s)
    requires Older(x, y.(s := s), false) && Older(y, x, false)
    requires x.cur == |y.hist| - 1 || (x.cur == -1 && |y.hist| == 1 && Booted(y) && y.s.me.dh > x.s.me.dh)
    ensures Inv(x, Opened(y, s, |x.hist| - 1), next + 1, r0)
  {
    var y' := Opened(y, s, |x.hist| - 1);
    AnswerPhase(x, y, s, r0);
    OpenedOwn(y, s, |x.hist| - 1, next, r0);
    OwnSideLater(x, next, r0);
    RecvStays(x, y, y', [SendingOf(s)], r0);
    RecvMoves(x, y, s, |x.hist| - 1, r0);
    RecvSame(y.(s := s, cur := |x.hist| - 1), y', x, r0);
  }

  /** What is known of the peer does not depend on one's own sending. */
  lemma RecvSame(y: End, y': End, x: End, r0: Root)
    requires Recv(y, x, r0) && y'.s == y.s && y'.cur == y.cur
    ensures Recv(y', x, r0)
  {
  }

  lemma OwnSideLater(x: End, next: nat, r0: Root)
    requires OwnSide(x, next, r0)
    ensures OwnSide(x, next + 1, r0)
  {
  }

  /** A first message starts exactly the chain its sender sends on. */
  lemma FirstChainMatches(x: End, y: End, m: Msg, next: nat, r0: Root)
    requires Inv(x, y, next, r0) && m in x.log && m.first && Booted(x) && y.cur == -1
    ensures Chain(y.s.rk, FirstMix(y.s.me, PayloadOf(x, m))) == x.hist[0].chain
  {
  }

  lemma EstablishStep(x: End, y: End, m: Msg, next: nat, r0: Root)
    requires Inv(x, y, next, r0) && m in x.log && m.first && Booted(x) && y.cur == -1
    ensures
      var s := EstablishFirst(y.s, PayloadOf(x, m), next);
      && s.Coherent() && s.cks.Some? && s.nr == 0
      && Inv(x, if s.dhs != y.s.dhs then Opened(y, s, 0) else y.(s := s, cur := 0), next + 1, r0)
  {
    if y.s.cks.None? || y.s.me.dh > y.s.peer.dh {
      EstablishAnswers(x, y, m, next, r0);
    } else {
      EstablishWaits(x, y, m, next, r0);
    }
  }

  /** The side with the smaller static key keeps its sending chain. */
  lemma EstablishWaits(x: End, y: End, m: Msg, next: nat, r0: Root)
    requires Inv(x, y, next, r0) && m in x.log && m.first && Booted(x) && y.cur == -1
    requires y.s.cks.Some? && y.s.me.dh <= y.s.peer.dh
    ensures
      var s := EstablishFirst(y.s, PayloadOf(x, m), next);
      && s.Coherent() && s.cks.Some? && s.dhs == y.s.dhs && s.nr == 0
      && Inv(x, y.(s := s, cur := 0), next + 1, r0)
  {
    hide Phase;
    var p := PayloadOf(x, m);
    var s := EstablishFirst(y.s, p, next);
    FirstChainMatches(x, y, m, next, r0);
    RecvMoves(x, y, s, 0, r0);
    OwnSideLater(x, next, r0);
    var y' := y.(s := s, cur := 0);
    OwnSideLater(y, next, r0);
    WaitingOwnSide(y, y', next + 1, r0);
    assert y'.hist == y.hist + [];
    RecvStays(x, y, y', [], r0);
    WaitingPhase(x, y, y', r0);
  }

  lemma WaitingOwnSide(y: End, y': End, next: nat, r0: Root)
    requires OwnSide(y, next, r0) && y'.s.Coherent() && y'.s.ckr.Some? && y'.hist == y.hist && y'.log == y.log
    requires y'.s == y.s.(dhr := y'.s.dhr, pqr := y'.s.pqr, ckr := y'.s.ckr, epochs := y'.s.epochs)
    ensures OwnSide(y', next, r0)
  {
  }

  lemma WaitingPhase(x: End, y: End, y': End, r0: Root)
    requires Phase(x, y, r0) && Peers(x, y) && y.cur == -1 && |x.hist| > 0 && Booted(x) && |y.hist| > 0
    requires y'.hist == y.hist && y'.cur == 0 && y'.s.rk == y.s.rk && y'.s.me == y.s.me && y'.s.peer == y.s.peer
    requires y.s.me.dh <= y.s.peer.dh
    ensures Phase(x, y', r0)
  {
    assert Older(x, y', true) == Older(x, y, true) && Older(x, y', false) == Older(x, y, false);
    assert Older(y', x, true) == Older(y, x, true) && Older(y', x, false) == Older(y, x, false);
  }

  lemma EstablishAnswers(x: End, y: End, m: Msg, next: nat, r0: Root)
    requires Inv(x, y, next, r0) && m in x.log && m.first && Booted(x) && y.cur == -1
    requires y.s.cks.None? || y.s.me.dh > y.s.peer.dh
    ensures
      var s := EstablishFirst(y.s, PayloadOf(x, m), next);
      && s.Coherent() && s.cks.Some? && s.dhs != y.s.dhs && s.nr == 0
      && Inv(x, Opened(y, s, 0), next + 1, r0)
  {
    var p := PayloadOf(x, m);
    var s := EstablishFirst(y.s, p, next);
    FirstChainMatches(x, y, m, next, r0);
    assert Level(x, y, r0);
    assert StepsFrom(SendingOf(s), x.hist[0], s, x.s);
    AnswerStep(x, y, s, next, r0);
  }

  lemma AheadPhase(x: End, y: End, r0: Root)
    requires Phase(x, y, r0) && Ahead(x, y)
    ensures Older(x, y, true) && Older(y, x, false)
  {
    assert Depth(x.s.rk) == 1 + Depth(y.s.rk);
  }

  lemma DhRatchetShape(s: State, p: Payload, seed: nat)
    requires s.Coherent() && s.cks.Some?
    ensures
      var mix := RatchetMix(s, p);
      var r := DhRatchet(s, p, seed);
      var step := Mix(Shared(p.pqPk, seed), DH(seed, p.dh));
      && r == s.(
        ckr := Some(ChainKey(Chain(s.rk, mix), 0)), dhr := Some(p.dh), pqr := Some(p.pqPk),
        epochs := RememberEpoch(s.epochs, p.dh, Epoch(p.pqPk, p.pqCt)),
        pn := s.ns, ns := 0, nr := 0, dhs := Some(seed), pqs := Some(seed), nextPqCt := KemCt(p.pqPk, seed),
        rk := Advanced(Advanced(s.rk, mix), step), cks := Some(ChainKey(Chain(Advanced(s.rk, mix), step), 0)))
      && r.Coherent() && Depth(r.rk) == Depth(s.rk) + 2
  {
  }

  /** The ratchet reaches exactly the chain and the root the peer moved to. */
  lemma RatchetMatches(x: End, y: End, p: Payload)
    requires Ahead(x, y) && y.s.Coherent() && y.s.cks.Some? && y.hist[|y.hist| - 1] == SendingOf(y.s)
    requires p.dh == x.hist[|x.hist| - 1].dh && p.pqCt == x.hist[|x.hist| - 1].ct
    ensures Chain(y.s.rk, RatchetMix(y.s, p)) == x.hist[|x.hist| - 1].chain
    ensures Advanced(y.s.rk, RatchetMix(y.s, p)) == x.s.rk
  {
  }

  lemma RatchetStep(x: End, y: End, m: Msg, next: nat, r0: Root)
    requires Inv(x, y, next, r0) && m in x.log && Ahead(x, y) && m.epoch == |x.hist| - 1
    requires !Has(y.s.epochs, x.hist[m.epoch].dh) && y.cur < m.epoch
    ensures
      var s := DhRatchet(y.s, PayloadOf(x, m), next);
      && s.Coherent() && s.cks.Some? && s.dhs != y.s.dhs && s.nr == 0
      && Inv(x, Opened(y, s, m.epoch), next + 1, r0)
  {
    hide DhRatchet;
    var p := PayloadOf(x, m);
    var s := DhRatchet(y.s, p, next);
    AheadPhase(x, y, r0);
    RatchetMatches(x, y, p);
    DhRatchetShape(y.s, p, next);
    OlderStays(x, y, y.(s := s), true);
    AnswerStep(x, y, s, next, r0);
  }
}
