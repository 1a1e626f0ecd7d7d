/**
 * Runs of two sessions: the parties send, restart, and receive whatever the
 * channel hands them.
 */
module PairWorld {
  import opened Common
  import opened Padding
  import opened Symbolic
  import opened Ratchet
  import opened Pair
  import opened PairSteps
  import opened PairRuns
  import SessionRuns

  // ---- Sending ----

  predicate Tracked(x: End) {
    && x.s.Coherent() && (x.s.cks.Some? ==> |x.hist| > 0)
    && forall k | 0 <= k < |x.log| :: x.log[k].epoch < |x.hist|
  }

  function LastSent(x: End, r: State, hist: seq<Sending>, text: Bytes, nonce: nat): Msg
    requires |hist| > 0
  {
    Msg(|hist| - 1, r.ns, nonce, text, r.isFirst,
        if r.isFirst && r.otkId.Some? then r.otkId.value else -1, r.isFirst || r.lastSentDh != r.dhs)
  }

  /** x after sending one message. */
  function Sent(x: End, text: Bytes, nonce: nat, seed: nat): End
    requires Tracked(x)
  {
    var r := ReadyToSend(x.s, seed);
    var hist := if x.s.cks.None? then x.hist + [SendingOf(r)] else x.hist;
    x.(s := Encrypt(x.s, text, nonce, seed).0, hist := hist, log := x.log + [LastSent(x, r, hist, text, nonce)])
  }

  /** The envelope a message travelled in, when the channel does not touch it. */
  function EnvelopeOf(x: End, m: Msg): Envelope
    requires m.epoch < |x.hist|
  {
    Wire(PayloadOf(x, m), m.withKem)
  }

  lemma SendOwn(x: End, text: Bytes, nonce: nat, next: nat, r0: Root)
    requires OwnSide(x, next, r0) && |text| < TWO_32 && (x.s.cks.None? ==> x.s.rk == r0)
    ensures OwnSide(Sent(x, text, nonce, next), next + 1, r0)
    ensures
      var x' := Sent(x, text, nonce, next);
      Encrypt(x.s, text, nonce, next).1 == EnvelopeOf(x', x'.log[|x'.log| - 1])
  {
    hide Pad;
    var x' := Sent(x, text, nonce, next);
    var m := x'.log[|x'.log| - 1];
    forall k | 0 <= k < |x'.log| ensures GoodMsg(x'.log[k], x'.hist, x'.s.peer) {
      if k < |x.log| {
        assert GoodMsg(x.log[k], x.hist, x.s.peer);
      }
    }
  }

  lemma SendPhase(x: End, y: End, text: Bytes, nonce: nat, next: nat, r0: Root)
    requires Inv(x, y, next, r0) && Tracked(x)
    ensures Phase(Sent(x, text, nonce, next), y, r0)
  {
    hide Pad, OwnSide, Recv;
    var x' := Sent(x, text, nonce, next);
    if x.s.cks.None? {
      SentBefore(x, y, next, r0);
      assert Level(x', y, r0);
      assert Older(x', y, false) && Older(y, x', false);
    } else {
      PhaseFrame(x, x', y, r0);
    }
  }

  lemma SentBefore(x: End, y: End, next: nat, r0: Root)
    requires Inv(x, y, next, r0) && x.s.cks.None?
    ensures |x.hist| == 0 && x.s.rk == r0 && Level(x, y, r0)
  {
  }

  lemma SendKeeps(x: End, y: End, text: Bytes, nonce: nat, next: nat, r0: Root)
    requires Inv(x, y, next, r0) && |text| < TWO_32
    ensures Inv(Sent(x, text, nonce, next), y, next + 1, r0)
  {
    hide Pad, Recv;
    var x' := Sent(x, text, nonce, next);
    if x.s.cks.None? {
      SentBefore(x, y, next, r0);
    }
    SendOwn(x, text, nonce, next, r0);
    SendPhase(x, y, text, nonce, next, r0);
    OwnSideLater(y, next, r0);
    RecvStays(y, x, x', x'.hist[|x.hist|..], r0);
    SendRecv(x, y, text, nonce, next, r0);
  }

  lemma SendRecv(x: End, y: End, text: Bytes, nonce: nat, next: nat, r0: Root)
    requires Tracked(x) && Recv(x, y, r0)
    ensures Recv(Sent(x, text, nonce, next), y, r0)
  {
    hide Pad;
  }

  // ---- Restarting ----

  lemma RestartKeeps(x: End, y: End, used: set<MessageKey>, next: nat, r0: Root)
    requires Inv(x, y, next, r0) && SessionRuns.Inv(x.s, used)
    ensures Inv(x.(s := Restart(x.s)), y, next, r0)
  {
    var x' := x.(s := Restart(x.s));
    SessionRuns.RestartKeeps(x.s, used);
    RestartParts(x, x', y, next, r0);
  }

  lemma RestartParts(x: End, x': End, y: End, next: nat, r0: Root)
    requires Inv(x, y, next, r0) && x' == x.(s := x.s.(otkId := None, lastSentDh := None, isFirst := x'.s.isFirst))
    requires x'.s.isFirst ==> !Booted(x)
    ensures Inv(x', y, next, r0)
  {
    assert OwnSide(x', next, r0) && Recv(x', y, r0) && Recv(y, x', r0);
    PhaseFrame(x, x', y, r0);
  }

  // ---- Receiving ----

  /** The channel may hand over anything it cannot forge: the bytes the peer signed are those of a message it sent. */
  ghost predicate Unforgeable(x: End, e: Envelope) {
    e.signature.Signature? && e.signature.signer == x.s.me.sign ==>
      exists k | 0 <= k < |x.log| && x.log[k].epoch < |x.hist| :: e.signature.signed == Words(PayloadOf(x, x.log[k]))
  }

  /** y after receiving e from a channel fed by x: unchanged when it is refused. */
  function Got(x: End, y: End, e: Envelope, seed: nat): End
    requires Tracked(y)
  {
    match Decrypt(y.s, e, seed)
    case Err(_) => y
    case Ok((s, text)) =>
      var p := Authenticate(y.s, e).value;
      SessionRuns.DecryptKeepsParty(y.s, p, seed);
      Delivered(x, y, s).(got := y.got + [(p, text)])
  }

  lemma GotTracked(x: End, y: End, e: Envelope, seed: nat)
    requires Tracked(y)
    ensures Tracked(Got(x, y, e, seed)) && Got(x, y, e, seed).log == y.log
  {
    hide DecryptPayload, Authenticate;
    match Decrypt(y.s, e, seed)
    case Err(_) =>
    case Ok((s, text)) => SessionRuns.DecryptKeepsParty(y.s, Authenticate(y.s, e).value, seed);
  }

  function AcceptedKeys(got: seq<(Payload, Bytes)>): set<MessageKey> {
    set g | g in got && g.0.ciphertext.Sealed? :: g.0.ciphertext.key
  }

  /**
   * p is q up to what the signed bytes do not hold of pn and otkId; the position is q's own, unless q lies beyond the
   * 32 bits they hold of it.
   */
  predicate SentAs(p: Payload, q: Payload) {
    && ButForCounters(p, q) && Words(p) == Words(q)
    && (p.n == q.n || (p.n < q.n && TWO_32 <= q.n))
  }

  /** This payload and text are a message of x. */
  ghost predicate WasSent(x: End, g: (Payload, Bytes)) {
    exists k | 0 <= k < |x.log| && x.log[k].epoch < |x.hist| ::
      SentAs(g.0, PayloadOf(x, x.log[k])) && g.1 == x.log[k].text
  }

  /** Everything accepted was sent, with that text, and was accepted once. */
  ghost predicate GotGood(x: End, y: End) {
    && (forall g | g in y.got :: WasSent(x, g) && g.0.ciphertext.Sealed?)
    && (forall i, j | 0 <= i < j < |y.got| :: y.got[i].0.ciphertext != y.got[j].0.ciphertext)
  }

  ghost predicate Safe(x: End, y: End, next: nat, r0: Root) {
    && Inv(x, y, next, r0)
    && SessionRuns.Inv(x.s, AcceptedKeys(x.got)) && SessionRuns.Inv(y.s, AcceptedKeys(y.got))
    && GotGood(x, y) && GotGood(y, x)
  }

  lemma GotGoodGrows(x: End, x': End, y: End, y': End)
    requires GotGood(x, y) && y'.got == y.got
    requires x.log <= x'.log && x.hist <= x'.hist && x'.s.me == x.s.me && x'.s.peer == x.s.peer
    ensures GotGood(x', y')
  {
    forall g | g in y'.got ensures WasSent(x', g) {
      assert g in y.got && WasSent(x, g);
      var k :| 0 <= k < |x.log| && x.log[k].epoch < |x.hist| &&
        SentAs(g.0, PayloadOf(x, x.log[k])) && g.1 == x.log[k].text;
      assert x'.log[k] == x.log[k] && x'.hist[x.log[k].epoch] == x.hist[x.log[k].epoch];
      assert PayloadOf(x', x'.log[k]) == PayloadOf(x, x.log[k]);
    }
  }

  lemma SendSafe(x: End, y: End, text: Bytes, nonce: nat, next: nat, r0: Root)
    requires Safe(x, y, next, r0) && |text| < TWO_32
    ensures Safe(Sent(x, text, nonce, next), y, next + 1, r0)
  {
    hide Pad, Inv, GotGood, SessionRuns.Inv;
    assert Tracked(x) && x.s.me.kem < next by { SafeBasics(x, y, next, r0); }
    var x' := Sent(x, text, nonce, next);
    SendKeeps(x, y, text, nonce, next, r0);
    SessionRuns.EncryptKeeps(x.s, text, nonce, next, AcceptedKeys(x.got));
    GotGoodGrows(x, x', y, y);
    GotGoodGrows(y, y, x, x');
  }

  lemma SafeBasics(x: End, y: End, next: nat, r0: Root)
    requires Inv(x, y, next, r0)
    ensures Tracked(x) && Tracked(y) && x.s.me.kem < next && y.s.me.kem < next
    ensures forall k | 0 <= k < |x.log| :: x.log[k].epoch < |x.hist|
    ensures forall k | 0 <= k < |y.log| :: y.log[k].epoch < |y.hist|
    ensures y.s.peer.sign == x.s.me.sign && OneStepApart(x.s.rk, y.s.rk)
  {
  }

  /** Two roots are equal, or one is the other advanced once. */
  predicate OneStepApart(r: Root, q: Root) {
    r == q || (r.Advanced? && r.previous == q) || (q.Advanced? && q.previous == r)
  }

  lemma RestartSafe(x: End, y: End, next: nat, r0: Root)
    requires Safe(x, y, next, r0)
    ensures Safe(x.(s := Restart(x.s)), y, next, r0)
  {
    hide Inv, GotGood, SessionRuns.Inv;
    var x' := x.(s := Restart(x.s));
    RestartKeeps(x, y, AcceptedKeys(x.got), next, r0);
    SessionRuns.RestartKeeps(x.s, AcceptedKeys(x.got));
    GotGoodGrows(x, x', y, y);
    GotGoodGrows(y, y, x, x');
  }

  lemma GotSafe(x: End, y: End, e: Envelope, next: nat, r0: Root)
    requires Safe(x, y, next, r0)
    requires Tracked(y) && Unforgeable(x, e)
    ensures Safe(x, Got(x, y, e, next), next + 1, r0)
  {
    hide Pad, Inv, GotGood, SessionRuns.Inv, DecryptPayload, Authenticate;
    match Decrypt(y.s, e, next)
    case Err(_) => InvLater(x, y, next, r0);
    case Ok((s, text)) =>
      SafeBasics(x, y, next, r0);
      var p := Authenticate(y.s, e).value;
      var k :| 0 <= k < |x.log| && x.log[k].epoch < |x.hist| && Words(p) == Words(PayloadOf(x, x.log[k]));
      WordsButForCounters(p, PayloadOf(x, x.log[k]));
      AcceptSafe(x, y, e, k, next, r0);
  }

  /** Equal signed bytes of one version: equal payloads but for the counters. */
  lemma WordsButForCounters(p: Payload, q: Payload)
    requires Words(p) == Words(q) && p.v == q.v
    ensures ButForCounters(p, q) && p.n % TWO_32 == q.n % TWO_32
  {
    var a, b := Words(p), Words(q);
    assert a.senderDh == b.senderDh && a.senderSign == b.senderSign && a.recipientDh == b.recipientDh;
    assert a.dh == b.dh && a.pqPk == b.pqPk && a.pqCt == b.pqCt && a.nonce == b.nonce;
    assert a.ciphertext == b.ciphertext && a.first == b.first && a.n == b.n;
  }

  lemma LowerWord(a: nat, b: nat)
    requires a < b && a % TWO_32 == b % TWO_32
    ensures TWO_32 <= b
  {
  }

  /** Whatever is accepted names its own position, unless that lies beyond 32 bits. */
  lemma AcceptedPosition(x: End, y: End, m: Msg, p: Payload)
    requires m.epoch < |x.hist| && p.n >= 0 && AcceptsAs(x, y, m, p.n, p.pn)
    requires Words(p) == Words(PayloadOf(x, m)) && p.v == VERSION && GoodMsg(m, x.hist, x.s.peer)
    ensures SentAs(p, PayloadOf(x, m))
  {
    hide Pad, Words, Ahead;
    WordsButForCounters(p, PayloadOf(x, m));
    if p.n < m.n {
      LowerWord(p.n, m.n);
    }
  }

  lemma AcceptSafe(x: End, y: End, e: Envelope, k: nat, next: nat, r0: Root)
    requires Safe(x, y, next, r0) && Tracked(y) && Decrypt(y.s, e, next).Ok?
    requires k < |x.log| && x.log[k].epoch < |x.hist|
    requires Words(Authenticate(y.s, e).value) == Words(PayloadOf(x, x.log[k]))
    requires ButForCounters(Authenticate(y.s, e).value, PayloadOf(x, x.log[k]))
    requires y.s.me.kem < next
    ensures Safe(x, Got(x, y, e, next), next + 1, r0)
  {
    hide Pad, Inv, GotGood, SessionRuns.Inv, DecryptPayload, Authenticate, AcceptsAs, SessionRuns.FirstUse, Words,
         ButForCounters, SentAs;
    var p := Authenticate(y.s, e).value;
    var (s, text) := Decrypt(y.s, e, next).value;
    LoggedGood(x, y, k, next, r0);
    DeliverAs(x, y, x.log[k], p, next, r0);
    AcceptedPosition(x, y, x.log[k], p);
    SessionRuns.DecryptPayloadKeeps(y.s, p, next, AcceptedKeys(y.got));
    SessionRuns.DecryptKeepsParty(y.s, p, next);
    AcceptOne(x, y, e, next, k);
    GotGoodGrows(y, Got(x, y, e, next), x, x);
    InvGot(x, Delivered(x, y, s), Got(x, y, e, next), next + 1, r0);
  }

  lemma LoggedGood(x: End, y: End, k: nat, next: nat, r0: Root)
    requires Inv(x, y, next, r0) && k < |x.log|
    ensures GoodMsg(x.log[k], x.hist, x.s.peer)
  {
  }

  lemma InvGot(x: End, y: End, y': End, next: nat, r0: Root)
    requires Inv(x, y, next, r0) && y' == y.(got := y'.got)
    ensures Inv(x, y', next, r0)
  {
    assert OwnSide(y', next, r0) && Recv(x, y', r0) && Recv(y', x, r0);
    PhaseFrame(y, y', x, r0);
  }

  lemma AcceptedKeysGrow(got: seq<(Payload, Bytes)>, g: (Payload, Bytes))
    requires g.0.ciphertext.Sealed? && forall h | h in got :: h.0.ciphertext.Sealed?
    ensures AcceptedKeys(got + [g]) == AcceptedKeys(got) + {g.0.ciphertext.key}
    ensures forall i | 0 <= i < |got| :: got[i] in got && got[i].0.ciphertext.key in AcceptedKeys(got)
  {
    forall i | 0 <= i < |got| ensures got[i].0.ciphertext.key in AcceptedKeys(got) {
      assert got[i] in got;
    }
  }

  lemma AcceptOne(x: End, y: End, e: Envelope, next: nat, k: nat)
    requires Tracked(y) && Decrypt(y.s, e, next).Ok? && k < |x.log| && x.log[k].epoch < |x.hist|
    requires SentAs(Authenticate(y.s, e).value, PayloadOf(x, x.log[k]))
    requires Decrypt(y.s, e, next).value.1 == x.log[k].text
    requires GotGood(x, y) && SessionRuns.Inv(y.s, AcceptedKeys(y.got))
    requires SessionRuns.FirstUse(Decrypt(y.s, e, next).value, Authenticate(y.s, e).value, AcceptedKeys(y.got))
    ensures GotGood(x, Got(x, y, e, next))
    ensures SessionRuns.Inv(Got(x, y, e, next).s, AcceptedKeys(Got(x, y, e, next).got))
  {
    hide Pad, SessionRuns.Inv, DecryptPayload, Authenticate, SentAs;
    var y' := Got(x, y, e, next);
    var p := Authenticate(y.s, e).value;
    assert y'.got == y.got + [(p, x.log[k].text)];
    assert WasSent(x, (p, x.log[k].text));
    AcceptedKeysGrow(y.got, (p, x.log[k].text));
    hide AcceptedKeys, Got, WasSent;
    assert forall i | 0 <= i < |y.got| :: y'.got[i] == y.got[i];
  }

  // ---- Whole runs ----

  /** Both parties and the next unused key. */
  datatype World = World(a: End, b: End, next: nat)

  datatype Op =
    | Send(byA: bool, text: Bytes, nonce: nat)
    | Receive(byA: bool, envelope: Envelope)
    | RestartOp(byA: bool)

  predicate TrackedWorld(w: World) {
    Tracked(w.a) && Tracked(w.b)
  }

  /** The acting party after one operation; y is its peer. */
  function Act(x: End, y: End, op: Op, next: nat): (r: End)
    requires Tracked(x)
    ensures Tracked(r)
  {
    match op
    case Send(_, text, nonce) => Sent(x, text, nonce, next)
    case RestartOp(_) => x.(s := Restart(x.s))
    case Receive(_, e) =>
      GotTracked(y, x, e, next);
      Got(y, x, e, next)
  }

  function Step(w: World, op: Op): (r: World)
    requires TrackedWorld(w)
    ensures TrackedWorld(r)
  {
    if op.byA then World(Act(w.a, w.b, op, w.next), w.b, w.next + 1)
    else World(w.a, Act(w.b, w.a, op, w.next), w.next + 1)
  }

  /** Texts fit the length prefix, the channel cannot forge, and a restart may come at any time. */
  ghost predicate LegalAct(x: End, y: End, op: Op) {
    match op
    case Send(_, text, _) => |text| < TWO_32
    case RestartOp(_) => true
    case Receive(_, e) => Unforgeable(y, e)
  }

  ghost predicate Legal(w: World, op: Op) {
    if op.byA then LegalAct(w.a, w.b, op) else LegalAct(w.b, w.a, op)
  }

  function Run(w: World, ops: seq<Op>): (r: World)
    requires TrackedWorld(w)
    ensures TrackedWorld(r)
    decreases |ops|
  {
    if ops == [] then w else Run(Step(w, ops[0]), ops[1..])
  }

  ghost predicate LegalRun(w: World, ops: seq<Op>)
    requires TrackedWorld(w)
    decreases |ops|
  {
    ops == [] || (Legal(w, ops[0]) && LegalRun(Step(w, ops[0]), ops[1..]))
  }

  lemma ActSafe(x: End, y: End, op: Op, next: nat, r0: Root)
    requires Safe(x, y, next, r0) && Tracked(x) && LegalAct(x, y, op)
    ensures Safe(Act(x, y, op, next), y, next + 1, r0)
  {
    hide Pad, Inv, GotGood, SessionRuns.Inv, Got, Sent, Unforgeable;
    match op
    case Send(_, text, nonce) => SendSafe(x, y, text, nonce, next, r0);
    case RestartOp(_) =>
      RestartSafe(x, y, next, r0);
      InvLater(x.(s := Restart(x.s)), y, next, r0);
    case Receive(_, e) =>
      SafeSymmetric(x, y, next, r0);
      GotSafe(y, x, e, next, r0);
      SafeSymmetric(y, Got(y, x, e, next), next + 1, r0);
  }

  lemma SafeSymmetric(x: End, y: End, next: nat, r0: Root)
    requires Safe(x, y, next, r0)
    ensures Safe(y, x, next, r0)
  {
    hide GotGood, SessionRuns.Inv;
    InvSymmetric(x, y, next, r0);
  }

  lemma StepSafe(w: World, op: Op, r0: Root)
    requires Safe(w.a, w.b, w.next, r0) && TrackedWorld(w) && Legal(w, op)
    ensures var r := Step(w, op); Safe(r.a, r.b, r.next, r0)
  {
    hide Safe, Act, LegalAct;
    if op.byA {
      ActSafe(w.a, w.b, op, w.next, r0);
    } else {
      SafeSymmetric(w.a, w.b, w.next, r0);
      ActSafe(w.b, w.a, op, w.next, r0);
      SafeSymmetric(Act(w.b, w.a, op, w.next), w.a, w.next + 1, r0);
    }
  }

  lemma {:induction false} RunSafe(w: World, ops: seq<Op>, r0: Root)
    requires Safe(w.a, w.b, w.next, r0) && TrackedWorld(w) && LegalRun(w, ops)
    ensures var r := Run(w, ops); Safe(r.a, r.b, r.next, r0)
    decreases |ops|
  {
    hide Safe, Step, Legal;
    if ops != [] {
      StepSafe(w, ops[0], r0);
      RunSafe(Step(w, ops[0]), ops[1..], r0);
    }
  }

  // ---- The beginning ----

  predicate DistinctParties(a: Identity, b: Identity, next: nat) {
    a.dh != b.dh && a.sign != b.sign && a.kem < next && b.kem < next
  }

  function Fresh(s: State): End {
    End(s, [], [], -1, [])
  }

  /** Two sessions established from each other's bundles. */
  predicate Established(w: World, a: Identity, b: Identity, otkA: OneTime, otkB: OneTime) {
    && NewSession(a, b, otkA).Some? && NewSession(b, a, otkB).Some?
    && w.a == Fresh(NewSession(a, b, otkA).value) && w.b == Fresh(NewSession(b, a, otkB).value)
    && DistinctParties(a, b, w.next)
  }

  /** The two bootstrap roots agree exactly when both sides mixed in the same one-time secret, or none. */
  lemma RootsAgreeIff(a: Identity, b: Identity, otkA: OneTime, otkB: OneTime)
    ensures BootstrapRoot(a, b, otkA) == BootstrapRoot(b, a, otkB)
      <==> OneTimeSecret(a, b, otkA) == OneTimeSecret(b, a, otkB)
  {
  }

  /** A prekey of b used by a from the directory, and by b as its own, is the same secret, root and token. */
  lemma OneTimePrekeyAgrees(a: Identity, b: Identity, id: nat, key: Key)
    ensures
      var s := NewSession(a, b, FromPeer(id, key, b.sign));
      var t := NewSession(b, a, OwnPrekey(id, key));
      s.Some? && t.Some? && s.value.rk == t.value.rk && s.value.token == t.value.token
  {
  }

  lemma EstablishedSafe(w: World, a: Identity, b: Identity, otkA: OneTime, otkB: OneTime)
    requires Established(w, a, b, otkA, otkB) && OneTimeSecret(a, b, otkA) == OneTimeSecret(b, a, otkB)
    ensures TrackedWorld(w) && Safe(w.a, w.b, w.next, w.a.s.rk)
  {
    RootsAgreeIff(a, b, otkA, otkB);
  }

  /**
   * Safety over an arbitrary channel. However sent envelopes are dropped,
   * repeated, reordered or altered, and however often either side restarts,
   * even before any traffic: every accepted text is one the peer sent, in a
   * payload equal to the accepted one up to the 32-bit wrap of its counters;
   * nothing is accepted twice; and the two roots are equal or one step apart.
   */
  lemma SafeOverAnyChannel(w: World, a: Identity, b: Identity, otkA: OneTime, otkB: OneTime, ops: seq<Op>)
    requires Established(w, a, b, otkA, otkB) && OneTimeSecret(a, b, otkA) == OneTimeSecret(b, a, otkB)
    requires TrackedWorld(w) && LegalRun(w, ops)
    ensures
      var r := Run(w, ops);
      && GotGood(r.a, r.b) && GotGood(r.b, r.a)
      && OneStepApart(r.a.s.rk, r.b.s.rk)
  {
    EstablishedSafe(w, a, b, otkA, otkB);
    RunSafe(w, ops, w.a.s.rk);
    var r := Run(w, ops);
    SafeBasics(r.a, r.b, r.next, w.a.s.rk);
  }
}
