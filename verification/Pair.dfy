/**
 * Two sessions and everything they have sent: the bookkeeping, and the
 * invariant that relates them under an arbitrary channel.
 */
module Pair {
  import opened Common
  import opened OrderedMap
  import opened Padding
  import opened Symbolic
  import opened Ratchet

  /** One sending epoch of a party: the ratchet key, its KEM material, its chain, and the length of the chain before. */
  datatype Sending = Sending(dh: Key, kem: Key, ct: KemCt, chain: Chain, pn: nat)

  /** A sent message: its epoch and position, and whether it carried its KEM material. */
  datatype Msg = Msg(epoch: nat, n: nat, nonce: nat, text: Bytes, first: bool, otkId: int, withKem: bool)

  /**
   * A party: its session, its sending epochs, its sent messages, the peer epoch
   * it receives on (-1 for none), and what it has accepted.
   */
  datatype End = End(s: State, hist: seq<Sending>, log: seq<Msg>, cur: int, got: seq<(Payload, Bytes)>)

  function SendingOf(s: State): Sending
    requires s.Coherent() && s.cks.Some?
  {
    Sending(s.dhs.value, s.pqs.value, s.nextPqCt, s.cks.value.chain, s.pn)
  }

  function PayloadOf(x: End, m: Msg): Payload
    requires m.epoch < |x.hist|
  {
    var e := x.hist[m.epoch];
    Payload(VERSION, x.s.me.dh, x.s.me.sign, x.s.peer.dh, e.dh, e.kem, e.ct, e.pn, m.n,
            m.nonce, Sealed(MessageKey(e.chain, m.n), m.nonce, Pad(m.text, BLOCK)), m.first, m.otkId)
  }

  /** An epoch a party opened by itself, from the peer's published keys. */
  predicate IsBoot(e: Sending, peer: Identity) {
    e.ct.KemCt? && e.ct.to == peer.kem
  }

  predicate Booted(x: End) {
    |x.hist| > 0 && IsBoot(x.hist[0], x.s.peer)
  }

  predicate BootShape(e: Sending, peer: Identity, r0: Root) {
    && e.ct.KemCt? && e.pn == 0
    && e.chain == Chain(r0, Mix(Shared(peer.kem, e.ct.coin), DH(e.dh, peer.signedDh)))
  }

  /** A party that opened an epoch by itself flags its first message only; one restarted idle may flag any, once. */
  predicate GoodMsg(m: Msg, hist: seq<Sending>, peer: Identity) {
    && m.epoch < |hist|
    && (IsBoot(hist[0], peer) ==> (m.first <==> m.epoch == 0 && m.n == 0))
    && (m.first ==> m.withKem)
    && (if m.first then m.otkId >= -1 else m.otkId == -1)
    && |m.text| < TWO_32
  }

  /** Epochs are opened with ever newer keys; only the first can be a bootstrap. */
  ghost predicate GoodHistory(hist: seq<Sending>, me: Identity, peer: Identity, next: nat, r0: Root) {
    && (forall i | 0 <= i < |hist| :: me.kem < hist[i].kem < next && hist[i].dh < next && hist[i].ct.KemCt?)
    && (forall i, j | 0 <= i < j < |hist| :: hist[i].dh < hist[j].dh)
    && (forall i | 0 < i < |hist| :: !IsBoot(hist[i], peer))
    && (|hist| > 0 && IsBoot(hist[0], peer) ==> BootShape(hist[0], peer, r0))
  }

  /** What a party knows of its own sending. */
  ghost predicate OwnSide(x: End, next: nat, r0: Root) {
    && x.s.Coherent() && (x.s.isFirst ==> !Booted(x)) && (x.s.otkId.Some? ==> x.s.otkId.value >= 0)
    && (x.s.cks.Some? ==> x.s.firstBuilt || x.s.ckr.Some?)
    && x.s.me.kem < next && x.s.peer.kem < next
    && (|x.hist| == 0 <==> x.s.cks.None?)
    && (|x.hist| == 0 ==> x.s.ns == 0 && x.s.pn == 0)
    && (|x.hist| == 1 && Booted(x) ==> x.s.ns > 0)
    && (|x.hist| > 0 ==> x.hist[|x.hist| - 1] == SendingOf(x.s) && x.s.cks.value.index == x.s.ns)
    && GoodHistory(x.hist, x.s.me, x.s.peer, next, r0)
    && (forall k | 0 <= k < |x.log| :: GoodMsg(x.log[k], x.hist, x.s.peer))
  }

  ghost predicate EpochKnown(e: (Key, Epoch), hist: seq<Sending>, cur: int) {
    exists i | 0 <= i <= cur && i < |hist| ::
      hist[i].dh == e.0 && hist[i].kem == e.1.pk && hist[i].ct == e.1.ct
  }

  ghost predicate SkippedKnown(e: (SkipKey, MessageKey), hist: seq<Sending>, cur: int, nr: nat) {
    exists i | 0 <= i <= cur && i < |hist| ::
      hist[i].dh == e.0.0 && e.1 == MessageKey(hist[i].chain, e.0.1) && (i == cur ==> e.0.1 < nr)
  }

  /** What y holds of x's epochs: true ones only, and the current one in full. */
  ghost predicate Recv(y: End, x: End, r0: Root) {
    && -1 <= y.cur < |x.hist|
    && (y.cur == -1 <==> y.s.ckr.None?)
    && (y.cur == -1 ==> y.s.mkskip == [] && y.s.epochs == [] && y.s.nr == 0 && y.s.rk == r0)
    && (y.cur >= 0 ==>
      && y.s.dhr == Some(x.hist[y.cur].dh) && y.s.pqr == Some(x.hist[y.cur].kem)
      && y.s.ckr == Some(ChainKey(x.hist[y.cur].chain, y.s.nr))
      && |y.s.epochs| > 0 && y.s.epochs[|y.s.epochs| - 1].0 == x.hist[y.cur].dh)
    && (forall k | 0 <= k < |y.s.epochs| :: EpochKnown(y.s.epochs[k], x.hist, y.cur))
    && (forall k | 0 <= k < |y.s.mkskip| :: SkippedKnown(y.s.mkskip[k], x.hist, y.cur, y.s.nr))
  }

  /** Every chain of x is older than y's root, except a bootstrap chain and the one y has yet to reach. */
  ghost predicate Older(x: End, y: End, ahead: bool) {
    forall i | 0 <= i < |x.hist| && !IsBoot(x.hist[i], x.s.peer) ::
      Depth(x.hist[i].chain.root) < Depth(y.s.rk) || (ahead && i == |x.hist| - 1)
  }

  /** Nobody has ratcheted: equal roots, bootstrap epochs only. */
  ghost predicate Level(x: End, y: End, r0: Root) {
    && x.s.rk == r0 && y.s.rk == r0
    && |x.hist| <= 1 && |y.hist| <= 1
    && (|x.hist| == 1 ==> Booted(x)) && (|y.hist| == 1 ==> Booted(y))
    && (x.cur == 0 ==> |x.hist| == 1 && x.s.me.dh < y.s.me.dh)
    && (y.cur == 0 ==> |y.hist| == 1 && y.s.me.dh < x.s.me.dh)
  }

  /** e is the ratchet step x takes against y's sending epoch f and root. */
  ghost predicate StepsFrom(e: Sending, f: Sending, x: State, y: State) {
    && !IsBoot(e, x.peer) && e.ct.KemCt? && e.ct.to == f.kem
    && e.chain == Chain(y.rk, Mix(Shared(f.kem, e.ct.coin), DH(e.dh, f.dh)))
    && x.rk == Advanced(y.rk, e.chain.mix)
  }

  /** x took the last ratchet step, from y's current ratchet key: its root is one step ahead of y's. */
  ghost predicate Ahead(x: End, y: End) {
    && |x.hist| > 0 && |y.hist| > 0
    && StepsFrom(x.hist[|x.hist| - 1], y.hist[|y.hist| - 1], x.s, y.s)
    && x.cur == |y.hist| - 1
    && (y.cur == |x.hist| - 2 || (y.cur == -1 && |x.hist| == 2 && Booted(x) && x.s.me.dh > y.s.me.dh))
  }

  ghost predicate Phase(x: End, y: End, r0: Root) {
    || (Level(x, y, r0) && Older(x, y, false) && Older(y, x, false))
    || (Ahead(x, y) && Older(x, y, true) && Older(y, x, false))
    || (Ahead(y, x) && Older(y, x, true) && Older(x, y, false))
  }

  predicate Peers(x: End, y: End) {
    x.s.peer == y.s.me && y.s.peer == x.s.me && x.s.me.dh != y.s.me.dh
  }

  ghost predicate Inv(x: End, y: End, next: nat, r0: Root) {
    && Peers(x, y)
    && OwnSide(x, next, r0) && OwnSide(y, next, r0)
    && Recv(x, y, r0) && Recv(y, x, r0)
    && Phase(x, y, r0)
  }

  /** The phase depends on the epochs, the receiving position and the root only. */
  lemma PhaseFrame(x: End, x': End, y: End, r0: Root)
    requires x'.hist == x.hist && x'.cur == x.cur
    requires x'.s.rk == x.s.rk && x'.s.me == x.s.me && x'.s.peer == x.s.peer
    ensures Phase(x', y, r0) == Phase(x, y, r0)
    ensures Phase(y, x', r0) == Phase(y, x, r0)
  {
    assert forall e, f :: StepsFrom(e, f, x.s, y.s) == StepsFrom(e, f, x'.s, y.s);
    assert forall e, f :: StepsFrom(e, f, y.s, x.s) == StepsFrom(e, f, y.s, x'.s);
    assert Older(x', y, true) == Older(x, y, true) && Older(x', y, false) == Older(x, y, false);
    assert Older(y, x', true) == Older(y, x, true) && Older(y, x', false) == Older(y, x, false);
    assert Ahead(x, y) == Ahead(x', y) && Ahead(y, x) == Ahead(y, x') && Level(x, y, r0) == Level(x', y, r0);
  }

  lemma InvSymmetric(x: End, y: End, next: nat, r0: Root)
    requires Inv(x, y, next, r0)
    ensures Inv(y, x, next, r0)
  {
  }

  // ---- Reading a chain ----

  lemma {:induction false} StoredKeys(s: State, until: int, e: (SkipKey, MessageKey))
    requires s.Coherent() && s.ckr.Some? && s.ckr.value.index == s.nr
    requires e in StoreKeysUntil(s, until).mkskip
    ensures e in s.mkskip || StoredNow(s, e, until)
    decreases until - s.nr
  {
    if s.nr < until {
      StoredKeys(StoreNextKey(s), until, e);
    }
  }

  /** A key filed while skipping the current chain up to `until`. */
  predicate StoredNow(s: State, e: (SkipKey, MessageKey), until: int)
    requires s.Coherent() && s.ckr.Some?
  {
    e.0.0 == s.dhr.value && s.nr <= e.0.1 < until && e.1 == MessageKey(s.ckr.value.chain, e.0.1)
  }

  /** The state after reading position n, if the receiver gets that far. */
  function After(s: State, n: nat): State
    requires s.Coherent() && s.ckr.Some? && s.nr <= n
  {
    var r := StoreKeysUntil(s, n);
    s.(ckr := Some(ChainKey(s.ckr.value.chain, n + 1)), nr := n + 1, mkskip := Newest(r.mkskip, MAX_MKSKIP))
  }

  /** The position a header's n leads to: never behind the receiver. */
  function Reached(s: State, n: int): int {
    if n < s.nr then s.nr else n
  }

  /**
   * A chain yields the message sealed at position i exactly when it sealed it and the header leads there without
   * skipping too far; a header that points behind the receiver leads to the next position.
   */
  lemma ReadChainIff(s: State, p: Payload, c: Chain, i: nat, text: Bytes)
    requires s.Coherent() && s.ckr.Some? && s.ckr.value.index == s.nr && p.n >= 0
    requires p.ciphertext == Sealed(MessageKey(c, i), p.nonce, Pad(text, BLOCK)) && |text| < TWO_32
    ensures ReadChain(s, p).Ok? <==> c == s.ckr.value.chain && i == Reached(s, p.n) && i <= s.nr + MAX_SKIP
    ensures ReadChain(s, p).Ok? ==> s.nr <= i && ReadChain(s, p).value == (After(s, i), text)
  {
    hide Pad, Unpad;
    StoreKeepsShape(s, p.n);
    PadRoundTrip(text, BLOCK);
  }

  /** A stored key yields the message sealed at position i exactly when it was filed under that position. */
  lemma ReadSkippedOpens(s: State, p: Payload, c: Chain, i: nat, text: Bytes)
    requires p.n >= 0 && Has(s.mkskip, KeyOf(p)) && Get(s.mkskip, KeyOf(p)) == MessageKey(c, p.n)
    requires p.ciphertext == Sealed(MessageKey(c, i), p.nonce, Pad(text, BLOCK)) && |text| < TWO_32
    ensures ReadSkipped(s, p) ==
      if i == p.n then Ok((s.(mkskip := Delete(s.mkskip, KeyOf(p))), text)) else Err(DecryptionFailed)
  {
    hide Pad, Unpad;
    PadRoundTrip(text, BLOCK);
  }
}
