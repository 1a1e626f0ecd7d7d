/**
 * Agreement: over lossless first-in first-out channels in both directions every
 * envelope is accepted, whoever speaks first and whatever the interleaving.
 */
module PairFifo {
  import opened Common
  import opened OrderedMap
  import opened Padding
  import opened Symbolic
  import opened Ratchet
  import opened Pair
  import opened PairSteps
  import opened PairRuns
  import opened PairWorld
  import SessionRuns

  // ---- The order in which a party sends ----

  /** m comes right after l: next in the epoch, or first of the next epoch, which announces where l's epoch ended. */
  predicate Follows(l: Msg, m: Msg, hist: seq<Sending>) {
    || (m.epoch == l.epoch && m.n == l.n + 1)
    || (m.epoch == l.epoch + 1 && m.n == 0 && m.epoch < |hist| && hist[m.epoch].pn == l.n + 1)
  }

  /** Where sending stands after message l. */
  predicate SentLast(x: End, l: Msg) {
    && (x.s.lastSentDh.Some? ==> l.epoch < |x.hist| && x.s.lastSentDh == Some(x.hist[l.epoch].dh))
    && (|| (l.epoch == |x.hist| - 1 && x.s.ns == l.n + 1)
        || (l.epoch == |x.hist| - 2 && x.s.ns == 0 && x.hist[|x.hist| - 1].pn == l.n + 1))
  }

  ghost predicate Sequential(x: End) {
    && !x.s.isFirst && (forall k | 0 <= k < |x.log| :: x.log[k].first ==> Booted(x))
    && (|x.log| == 0 ==> |x.hist| <= 1 && !Booted(x) && x.s.ns == 0 && x.s.lastSentDh.None?)
    && (|x.log| > 0 ==>
      && x.log[0].epoch == 0 && x.log[0].n == 0 && SentLast(x, x.log[|x.log| - 1]))
    && (forall k | 0 < k < |x.log| :: Follows(x.log[k - 1], x.log[k], x.hist))
    && (forall k | 0 <= k < |x.log| :: x.log[k].n == 0 ==> x.log[k].withKem)
    && (forall k | 0 <= k < |x.log| :: x.log[k].epoch <= x.log[|x.log| - 1].epoch)
  }

  /** y has received the first |y.got| messages of x, in order, and stands right behind the last one. */
  ghost predicate InStep(x: End, y: End) {
    && |y.got| <= |x.log|
    && (forall k | 0 <= k < |y.got| :: y.got[k].1 == x.log[k].text)
    && y.s.mkskip == []
    && (|y.got| == 0 ==> y.cur == -1)
    && (|y.got| > 0 ==>
      y.cur == x.log[|y.got| - 1].epoch && y.s.nr == x.log[|y.got| - 1].n + 1)
  }

  ghost predicate FifoInv(x: End, y: End, next: nat, r0: Root) {
    && Safe(x, y, next, r0)
    && Sequential(x) && Sequential(y)
    && InStep(x, y) && InStep(y, x)
  }

  // ---- The next message in order is accepted ----

  /** The next message y receives. */
  function NextMsg(x: End, y: End): Msg
    requires |y.got| < |x.log|
  {
    x.log[|y.got|]
  }

  lemma NextIsAccepted(x: End, y: End, next: nat, r0: Root)
    requires Inv(x, y, next, r0) && Sequential(x) && InStep(x, y) && |y.got| < |x.log|
    ensures
      var m := NextMsg(x, y);
      && m.epoch < |x.hist| && Accepts(x, y, m)
      && (m.withKem || Has(y.s.epochs, x.hist[m.epoch].dh))
  {
    var m := NextMsg(x, y);
    assert GoodMsg(m, x.hist, x.s.peer);
    if |y.got| == 0 {
      if !m.first {
        NeverReceived(x, y, next, r0);
      }
    } else {
      var l := x.log[|y.got| - 1];
      assert Follows(l, m, x.hist) && GoodMsg(l, x.hist, x.s.peer);
      if m.epoch == l.epoch {
        assert Has(y.s.epochs, x.hist[y.cur].dh);
      } else {
        BehindMeansAhead(x, y, next, r0);
      }
    }
  }

  /** A receiver without any message, facing an epoch that is no bootstrap, is one step behind. */
  lemma NeverReceived(x: End, y: End, next: nat, r0: Root)
    requires Inv(x, y, next, r0) && y.cur == -1 && |x.hist| > 0 && !Booted(x)
    ensures Ahead(x, y) && |x.hist| == 1
  {
  }

  lemma BehindMeansAhead(x: End, y: End, next: nat, r0: Root)
    requires Inv(x, y, next, r0) && 0 <= y.cur < |x.hist| - 1
    ensures Ahead(x, y) && y.cur == |x.hist| - 2
  {
  }

  /** The untouched envelope authenticates as what was signed, with the omitted KEM material rebuilt. */
  lemma EnvelopeAuthenticates(x: End, y: End, m: Msg, next: nat, r0: Root)
    requires Inv(x, y, next, r0) && m in x.log && m.epoch < |x.hist|
    ensures Authenticate(y.s, EnvelopeOf(x, m)) ==
      if m.withKem || Has(y.s.epochs, x.hist[m.epoch].dh) then Ok(PayloadOf(x, m)) else Err(UnknownEpoch)
  {
    hide Pad, Phase;
    var e := x.hist[m.epoch];
    assert GoodMsg(m, x.hist, x.s.peer);
    if !m.withKem && Has(y.s.epochs, e.dh) {
      var k := Find(y.s.epochs, e.dh);
      assert EpochKnown(y.s.epochs[k], x.hist, y.cur);
    }
  }

  /** Exactly when an untouched envelope decrypts, in any reachable state. */
  lemma DecryptsIff(x: End, y: End, m: Msg, next: nat, r0: Root)
    requires Inv(x, y, next, r0) && m in x.log && m.epoch < |x.hist| && Tracked(y)
    ensures
      var r := Decrypt(y.s, EnvelopeOf(x, m), next);
      && (r.Ok? <==> (m.withKem || Has(y.s.epochs, x.hist[m.epoch].dh)) && Accepts(x, y, m))
      && (r.Ok? ==> r.value.1 == m.text)
  {
    hide Pad, Inv, Authenticate, DecryptPayload;
    EnvelopeAuthenticates(x, y, m, next, r0);
    Deliver(x, y, m, next, r0);
  }

  // ---- What a receive in order leaves behind ----

  /** p is the very next message for s. */
  predicate InOrder(s: State, p: Payload) {
    && s.mkskip == []
    && (if p.first then s.nr == 0 && p.n == 0
        else if s.dhr == Some(p.dh) then p.n == s.nr
        else p.n == 0 && (s.ckr.Some? ==> p.pn <= s.nr))
  }

  /** After reading in order: right behind the message, nothing skipped, the sending side renewed or untouched. */
  predicate InOrderResult(s: State, p: Payload, r: State) {
    && r.mkskip == [] && r.dhr == Some(p.dh) && r.nr == p.n + 1 && r.lastSentDh == s.lastSentDh
    && (r.dhs == s.dhs ==> r.ns == s.ns)
    && (r.dhs != s.dhs ==> r.cks.Some? && (if s.cks.Some? then r.ns == 0 && r.pn == s.ns else r.ns == s.ns))
  }

  lemma ReadChainInOrder(s: State, p: Payload)
    requires s.Coherent() && s.ckr.Some? && s.mkskip == [] && p.n == s.nr && s.dhr == Some(p.dh)
    requires ReadChain(s, p).Ok?
    ensures
      var r := ReadChain(s, p).value.0;
      r == s.(ckr := r.ckr, nr := p.n + 1)
  {
  }

  lemma SkipNothing(s: State, until: int)
    requires s.Coherent() && s.mkskip == [] && (s.ckr.Some? ==> until <= s.nr)
    ensures SkipMessageKeys(s, until) == Ok(s)
  {
  }

  lemma DecryptInOrder(s: State, p: Payload, seed: nat)
    requires s.Coherent() && p.n >= 0 && InOrder(s, p) && s.dhs != Some(seed)
    requires DecryptPayload(s, p, seed).Ok?
    ensures InOrderResult(s, p, DecryptPayload(s, p, seed).value.0)
  {
    hide ReadChain, SkipMessageKeys, Pad;
    if p.first {
      ReadChainInOrder(EstablishFirst(s, p, seed), p);
    } else if s.dhr != Some(p.dh) {
      SkipNothing(s, p.pn);
      DhRatchetShape(s, p, seed);
      ReadChainInOrder(DhRatchet(s, p, seed), p);
    } else {
      ReadChainInOrder(s, p);
    }
  }

  lemma NextIsInOrder(x: End, y: End, next: nat, r0: Root)
    requires Inv(x, y, next, r0) && Sequential(x) && InStep(x, y) && |y.got| < |x.log|
    requires NextMsg(x, y).epoch < |x.hist|
    ensures InOrder(y.s, PayloadOf(x, NextMsg(x, y))) && y.s.dhs != Some(next)
  {
    hide Pad;
    var m := NextMsg(x, y);
    assert GoodMsg(m, x.hist, x.s.peer);
    if |y.got| > 0 {
      var l := x.log[|y.got| - 1];
      assert Follows(l, m, x.hist) && GoodMsg(l, x.hist, x.s.peer);
    }
  }

  /** A party that opens an epoch on receiving has sent in all its earlier ones. */
  lemma OpensAfterSending(x: End, y: End, next: nat, r0: Root)
    requires Inv(x, y, next, r0) && Sequential(y) && InStep(y, x)
    requires Ahead(x, y) || Level(x, y, r0)
    ensures |y.log| == 0 ==> |y.hist| == 0
    ensures |y.log| > 0 ==> y.log[|y.log| - 1].epoch == |y.hist| - 1
  {
    if |y.log| > 0 {
      assert GoodMsg(y.log[|y.log| - 1], y.hist, y.s.peer);
    }
  }

  lemma OpensOnlyThen(x: End, y: End, m: Msg, next: nat, r0: Root)
    requires Inv(x, y, next, r0) && m in x.log && m.epoch < |x.hist| && Accepts(x, y, m)
    requires InOrder(y.s, PayloadOf(x, m)) && DecryptPayload(y.s, PayloadOf(x, m), next).Ok?
    requires DecryptPayload(y.s, PayloadOf(x, m), next).value.0.dhs != y.s.dhs
    ensures Ahead(x, y) || Level(x, y, r0)
  {
    hide Pad;
    var p := PayloadOf(x, m);
    if m.first {
      hide ReadChain;
      ReadChainInOrder(EstablishFirst(y.s, p, next), p);
    } else if m.epoch == y.cur {
      ReadChainInOrder(y.s, p);
    }
  }

  /** y' is y with its sending side untouched. */
  predicate SendingKept(y: End, y': End) {
    && y'.log == y.log && y'.hist == y.hist
    && y'.s.lastSentDh == y.s.lastSentDh && y'.s.ns == y.s.ns && y'.s.peer == y.s.peer && y'.s.isFirst == y.s.isFirst
  }

  /** y' is y with one more sending epoch, opened after everything before was sent. */
  predicate SendingOpened(y: End, y': End) {
    && y'.log == y.log && |y'.hist| == |y.hist| + 1 && y'.hist[..|y.hist|] == y.hist
    && y'.s.lastSentDh == y.s.lastSentDh && y'.s.peer == y.s.peer && y'.s.ns == 0 && y'.s.isFirst == y.s.isFirst
    && (|y.log| == 0 ==> |y.hist| == 0)
    && (|y.log| > 0 ==>
      y.log[|y.log| - 1].epoch == |y.hist| - 1 && y'.hist[|y.hist|].pn == y.s.ns)
  }

  lemma SequentialKept(y: End, y': End)
    requires Sequential(y) && SendingKept(y, y')
    ensures Sequential(y')
  {
  }

  lemma SequentialOpened(y: End, y': End, next: nat, r0: Root)
    requires OwnSide(y, next, r0) && Sequential(y) && SendingOpened(y, y')
    requires OwnSide(y', next + 1, r0)
    ensures Sequential(y')
  {
    forall k | 0 < k < |y'.log| ensures Follows(y'.log[k - 1], y'.log[k], y'.hist) {
      assert Follows(y.log[k - 1], y.log[k], y.hist);
      assert GoodMsg(y.log[k], y.hist, y.s.peer);
    }
    if |y.log| > 0 {
      assert SentLast(y', y.log[|y.log| - 1]);
    }
  }

  /** y after receiving the next message untouched. */
  function ReceivedNext(x: End, y: End, seed: nat): End
    requires Tracked(y) && |y.got| < |x.log| && NextMsg(x, y).epoch < |x.hist|
  {
    Got(x, y, EnvelopeOf(x, NextMsg(x, y)), seed)
  }

  lemma NextDelivered(x: End, y: End, next: nat, r0: Root)
    requires FifoInv(x, y, next, r0) && |y.got| < |x.log| && Tracked(y)
    requires NextMsg(x, y).epoch < |x.hist|
    ensures
      var m := NextMsg(x, y);
      var p := PayloadOf(x, m);
      && DecryptPayload(y.s, p, next).Ok?
      && var s := DecryptPayload(y.s, p, next).value.0;
      && s.Coherent() && InOrderResult(y.s, p, s)
      && ReceivedNext(x, y, next) == Delivered(x, y, s).(got := y.got + [(p, m.text)])
      && (s.dhs != y.s.dhs ==> Ahead(x, y) || Level(x, y, r0))
  {
    hide Pad, DecryptPayload, Authenticate, Sequential, InStep, Accepts, InOrder, InOrderResult, GotGood,
         SessionRuns.Inv, Inv, Ahead, Level;
    var m := NextMsg(x, y);
    var p := PayloadOf(x, m);
    NextIsAccepted(x, y, next, r0);
    EnvelopeAuthenticates(x, y, m, next, r0);
    Deliver(x, y, m, next, r0);
    NextIsInOrder(x, y, next, r0);
    DecryptInOrder(y.s, p, next);
    if DecryptPayload(y.s, p, next).value.0.dhs != y.s.dhs {
      OpensOnlyThen(x, y, m, next, r0);
    }
  }

  lemma CurrentEpochIs(x: End, y: End, next: nat, r0: Root, i: nat)
    requires Inv(x, y, next, r0) && i < |x.hist| && y.s.dhr == Some(x.hist[i].dh)
    ensures y.cur == i
  {
  }

  lemma InStepAfter(x: End, y: End, y': End, next: nat, r0: Root)
    requires Inv(x, y', next, r0) && InStep(x, y) && |y.got| < |x.log|
    requires NextMsg(x, y).epoch < |x.hist| && y'.s.dhr == Some(x.hist[NextMsg(x, y).epoch].dh)
    requires y'.s.nr == NextMsg(x, y).n + 1 && y'.s.mkskip == []
    requires |y'.got| == |y.got| + 1 && y'.got[..|y.got|] == y.got && y'.got[|y.got|].1 == NextMsg(x, y).text
    ensures InStep(x, y')
  {
    CurrentEpochIs(x, y', next, r0, NextMsg(x, y).epoch);
    assert forall k | 0 <= k < |y.got| :: y'.got[k] == y'.got[..|y.got|][k];
  }

  lemma OwnSideFacts(y: End, next: nat, r0: Root)
    requires OwnSide(y, next, r0)
    ensures |y.hist| == 0 <==> y.s.cks.None?
    ensures |y.hist| == 0 ==> y.s.ns == 0
  {
  }

  lemma SequentialReceive(x: End, y: End, y': End, p: Payload, s: State, next: nat, r0: Root)
    requires FifoInv(x, y, next, r0) && s.Coherent() && InOrderResult(y.s, p, s)
    requires s.dhs != y.s.dhs ==> Ahead(x, y) || Level(x, y, r0)
    requires y' == Delivered(x, y, s).(got := y'.got) && Inv(x, y', next + 1, r0)
    requires s.peer == y.s.peer && s.isFirst == y.s.isFirst
    ensures Sequential(y')
  {
    hide Sequential, InStep, GotGood, SessionRuns.Inv, Recv, Phase, Ahead, Level;
    if s.dhs == y.s.dhs {
      SequentialKept(y, y');
    } else {
      OpensAfterSending(x, y, next, r0);
      OwnSideFacts(y, next, r0);
      SequentialOpened(y, y', next, r0);
    }
  }

  lemma ReceiveFifo(x: End, y: End, next: nat, r0: Root)
    requires FifoInv(x, y, next, r0) && |y.got| < |x.log| && Tracked(y)
    ensures NextMsg(x, y).epoch < |x.hist|
    ensures
      var y' := ReceivedNext(x, y, next);
      FifoInv(x, y', next + 1, r0) && |y'.got| == |y.got| + 1
  {
    hide Pad, DecryptPayload, Authenticate, Sequential, Accepts, GotGood, SessionRuns.Inv, Inv, Ahead, Level, Got;
    NextIsAccepted(x, y, next, r0);
    NextDelivered(x, y, next, r0);
    var m := NextMsg(x, y);
    var p := PayloadOf(x, m);
    var y' := ReceivedNext(x, y, next);
    var s := DecryptPayload(y.s, p, next).value.0;
    GotSafe(x, y, EnvelopeOf(x, m), next, r0);
    SessionRuns.DecryptKeepsParty(y.s, p, next);
    SequentialReceive(x, y, y', p, s, next, r0);
    InStepAfter(x, y, y', next + 1, r0);
  }

  lemma SendSequential(x: End, text: Bytes, nonce: nat, next: nat, r0: Root)
    requires OwnSide(x, next, r0) && Sequential(x)
    ensures Sequential(Sent(x, text, nonce, next))
  {
    hide Pad, BootShape, SignedPayload, Wire;
    var x' := Sent(x, text, nonce, next);
    if |x.log| > 0 {
      var l := x.log[|x.log| - 1];
      assert GoodMsg(l, x.hist, x.s.peer);
      assert Follows(l, x'.log[|x.log|], x'.hist);
    }
    forall k | 0 < k < |x'.log| ensures Follows(x'.log[k - 1], x'.log[k], x'.hist) {
      if k < |x.log| {
        assert Follows(x.log[k - 1], x.log[k], x.hist) && GoodMsg(x.log[k], x.hist, x.s.peer);
      }
    }
  }

  lemma SendFifo(x: End, y: End, text: Bytes, nonce: nat, next: nat, r0: Root)
    requires FifoInv(x, y, next, r0) && |text| < TWO_32 && Tracked(x)
    ensures FifoInv(Sent(x, text, nonce, next), y, next + 1, r0)
  {
    hide Pad, Sequential, GotGood, SessionRuns.Inv, Recv, Phase, OwnSide;
    var x' := Sent(x, text, nonce, next);
    SendSafe(x, y, text, nonce, next, r0);
    SendSequential(x, text, nonce, next, r0);
    assert InStep(x', y) && InStep(y, x');
  }

  lemma RestartFifo(x: End, y: End, next: nat, r0: Root)
    requires FifoInv(x, y, next, r0) && SessionRuns.HasTraffic(x.s)
    ensures FifoInv(x.(s := Restart(x.s)), y, next, r0)
  {
    hide GotGood, Recv, Phase, OwnSide;
    var x' := x.(s := Restart(x.s));
    RestartSafe(x, y, next, r0);
    SessionRuns.RestartKeeps(x.s, AcceptedKeys(x.got));
    assert Sequential(x') && InStep(x', y) && InStep(y, x');
  }

  // ---- Whole runs ----

  datatype FifoOp =
    | SendNext(byA: bool, text: Bytes, nonce: nat)
    | ReceiveNext(byA: bool)
    | RestartNow(byA: bool)

  /** A receive needs something in flight; y is the peer of the acting x. */
  predicate Enabled(x: End, y: End, op: FifoOp) {
    match op
    case SendNext(_, text, _) => |text| < TWO_32
    case ReceiveNext(_) => |x.got| < |y.log|
    case RestartNow(_) => SessionRuns.HasTraffic(x.s)
  }

  /** What the acting party does in terms of an arbitrary channel: a receive takes the oldest envelope in flight. */
  function AsOp(x: End, y: End, op: FifoOp): Op
    requires Enabled(x, y, op) && Tracked(y)
  {
    match op
    case SendNext(byA, text, nonce) => Send(byA, text, nonce)
    case ReceiveNext(byA) => Receive(byA, EnvelopeOf(y, NextMsg(y, x)))
    case RestartNow(byA) => RestartOp(byA)
  }

  predicate EnabledIn(w: World, op: FifoOp) {
    if op.byA then Enabled(w.a, w.b, op) else Enabled(w.b, w.a, op)
  }

  function FifoStep(w: World, op: FifoOp): (r: World)
    requires TrackedWorld(w) && EnabledIn(w, op)
    ensures TrackedWorld(r)
  {
    Step(w, if op.byA then AsOp(w.a, w.b, op) else AsOp(w.b, w.a, op))
  }

  predicate FifoLegal(w: World, ops: seq<FifoOp>)
    requires TrackedWorld(w)
    decreases |ops|
  {
    ops == [] || (EnabledIn(w, ops[0]) && FifoLegal(FifoStep(w, ops[0]), ops[1..]))
  }

  function FifoRun(w: World, ops: seq<FifoOp>): World
    requires TrackedWorld(w) && FifoLegal(w, ops)
    decreases |ops|
  {
    if ops == [] then w else FifoRun(FifoStep(w, ops[0]), ops[1..])
  }

  /** How many envelopes one side takes from its channel. */
  function Receives(ops: seq<FifoOp>, byA: bool): nat {
    if ops == [] then 0
    else (if ops[0] == ReceiveNext(byA) then 1 else 0) + Receives(ops[1..], byA)
  }

  ghost predicate FifoWorld(w: World, r0: Root) {
    FifoInv(w.a, w.b, w.next, r0)
  }

  lemma ActFifo(x: End, y: End, op: FifoOp, next: nat, r0: Root)
    requires FifoInv(x, y, next, r0) && Tracked(x) && Tracked(y) && Enabled(x, y, op)
    ensures
      var x' := Act(x, y, AsOp(x, y, op), next);
      && FifoInv(x', y, next + 1, r0)
      && |x'.got| == |x.got| + (if op.ReceiveNext? then 1 else 0)
  {
    hide Pad, FifoInv, Got, Sent;
    match op
    case SendNext(_, text, nonce) =>
      SendFifo(x, y, text, nonce, next, r0);
      SentKeepsGot(x, text, nonce, next);
    case RestartNow(_) =>
      RestartFifo(x, y, next, r0);
      FifoLater(x.(s := Restart(x.s)), y, next, r0);
    case ReceiveNext(_) =>
      FifoSymmetric(x, y, next, r0);
      ReceiveFifo(y, x, next, r0);
      FifoSymmetric(y, ReceivedNext(y, x, next), next + 1, r0);
  }

  lemma SentKeepsGot(x: End, text: Bytes, nonce: nat, seed: nat)
    requires Tracked(x)
    ensures Sent(x, text, nonce, seed).got == x.got
  {
  }

  lemma FifoSymmetric(x: End, y: End, next: nat, r0: Root)
    requires FifoInv(x, y, next, r0)
    ensures FifoInv(y, x, next, r0)
  {
    hide Inv, SessionRuns.Inv, GotGood, Sequential, InStep;
    SafeSymmetric(x, y, next, r0);
  }

  lemma FifoLater(x: End, y: End, next: nat, r0: Root)
    requires FifoInv(x, y, next, r0)
    ensures FifoInv(x, y, next + 1, r0)
  {
    hide Inv, SessionRuns.Inv, GotGood, Sequential, InStep;
    InvLater(x, y, next, r0);
  }

  lemma StepFifo(w: World, op: FifoOp, r0: Root)
    requires TrackedWorld(w) && EnabledIn(w, op) && FifoWorld(w, r0)
    ensures
      var r := FifoStep(w, op);
      && FifoWorld(r, r0)
      && |r.a.got| == |w.a.got| + Receives([op], true) && |r.b.got| == |w.b.got| + Receives([op], false)
  {
    hide FifoInv, Act, Enabled;
    if op.byA {
      ActFifo(w.a, w.b, op, w.next, r0);
    } else {
      FifoSymmetric(w.a, w.b, w.next, r0);
      ActFifo(w.b, w.a, op, w.next, r0);
      FifoSymmetric(Act(w.b, w.a, AsOp(w.b, w.a, op), w.next), w.a, w.next + 1, r0);
    }
  }

  lemma {:induction false} RunFifo(w: World, ops: seq<FifoOp>, r0: Root)
    requires TrackedWorld(w) && FifoWorld(w, r0) && FifoLegal(w, ops)
    ensures
      var r := FifoRun(w, ops);
      && FifoWorld(r, r0)
      && |r.a.got| == |w.a.got| + Receives(ops, true) && |r.b.got| == |w.b.got| + Receives(ops, false)
    decreases |ops|
  {
    hide FifoWorld, FifoStep, EnabledIn;
    if ops != [] {
      StepFifo(w, ops[0], r0);
      RunFifo(FifoStep(w, ops[0]), ops[1..], r0);
    }
  }

  /**
   * Agreement. Two sessions with one root and distinct static keys, any
   * interleaving of sends, in-order receives and restarts after some traffic,
   * both sides free to speak first: every envelope taken from a channel is accepted, and each side
   * has read exactly the first texts the other sent, in order.
   */
  lemma TwoPartyAgreement(w: World, a: Identity, b: Identity, otkA: OneTime, otkB: OneTime, ops: seq<FifoOp>)
    requires Established(w, a, b, otkA, otkB) && OneTimeSecret(a, b, otkA) == OneTimeSecret(b, a, otkB)
    requires TrackedWorld(w) && FifoLegal(w, ops)
    ensures
      var r := FifoRun(w, ops);
      && |r.a.got| == Receives(ops, true) <= |r.b.log| && |r.b.got| == Receives(ops, false) <= |r.a.log|
      && (forall k | 0 <= k < |r.a.got| :: r.a.got[k].1 == r.b.log[k].text)
      && (forall k | 0 <= k < |r.b.got| :: r.b.got[k].1 == r.a.log[k].text)
  {
    EstablishedSafe(w, a, b, otkA, otkB);
    assert FifoWorld(w, w.a.s.rk);
    RunFifo(w, ops, w.a.s.rk);
  }
}
