/** Sent envelopes whose header counters were changed on the way. */
module PairAltered {
  import opened Common
  import opened OrderedMap
  import opened Padding
  import opened Symbolic
  import opened Ratchet
  import opened Pair
  import opened PairRuns
  import opened PairWorld

  /** The envelope of m with other counters in its header. */
  function Altered(x: End, m: Msg, pn: int, n: int, otkId: Option<int>): Envelope
    requires m.epoch < |x.hist|
  {
    var e := EnvelopeOf(x, m);
    e.(header := Some(e.header.value.(pn := pn, n := n, otkId := otkId)))
  }

  function OtkWord(otkId: Option<int>): int {
    if otkId.Some? then otkId.value else -1
  }

  /** The receiver's checks on the counters pass, and the signed bytes are the same. */
  predicate SignedAlike(x: End, m: Msg, pn: int, n: int, otkId: Option<int>)
    requires m.epoch < |x.hist|
  {
    && n >= 0 && pn >= 0 && (otkId.Some? ==> otkId.value >= 0)
    && n % TWO_32 == m.n % TWO_32 && pn % TWO_32 == x.hist[m.epoch].pn % TWO_32
    && OtkWord(otkId) % TWO_32 == m.otkId % TWO_32
  }

  /** What the receiver takes the altered envelope for. */
  function AlteredPayload(x: End, m: Msg, pn: int, n: int, otkId: Option<int>): Payload
    requires m.epoch < |x.hist|
  {
    PayloadOf(x, m).(pn := pn, n := n, otkId := OtkWord(otkId))
  }

  lemma KemRebuilt(x: End, y: End, m: Msg, pn: int, n: int, otkId: Option<int>, next: nat, r0: Root)
    requires Inv(x, y, next, r0) && m in x.log && m.epoch < |x.hist|
    ensures KemMaterial(y.s, Altered(x, m, pn, n, otkId).header.value, m.first) ==
      if m.withKem || Has(y.s.epochs, x.hist[m.epoch].dh)
      then Ok(Epoch(x.hist[m.epoch].kem, x.hist[m.epoch].ct)) else Err(UnknownEpoch)
    ensures x.hist[m.epoch].ct != NoCt && y.s.peer == x.s.me && x.s.peer == y.s.me
  {
    hide Pad, Phase;
    var e := x.hist[m.epoch];
    assert GoodMsg(m, x.hist, x.s.peer);
    if !m.withKem && Has(y.s.epochs, e.dh) {
      var k := Find(y.s.epochs, e.dh);
      assert EpochKnown(y.s.epochs[k], x.hist, y.cur);
    }
  }

  lemma WordsAgreeIff(p: Payload, q: Payload)
    requires ButForCounters(p, q)
    ensures Words(p) == Words(q) <==>
      p.n % TWO_32 == q.n % TWO_32 && p.pn % TWO_32 == q.pn % TWO_32 && p.otkId % TWO_32 == q.otkId % TWO_32
  {
    if Words(p) == Words(q) {
      assert Words(p).n == Words(q).n && Words(p).pn == Words(q).pn && Words(p).otkId == Words(q).otkId;
    }
  }

  lemma AlteredAuthenticates(
    x: End, y: End, m: Msg, pn: int, n: int, otkId: Option<int>, next: nat, r0: Root)
    requires Inv(x, y, next, r0) && m in x.log && m.epoch < |x.hist|
    ensures
      var r := Authenticate(y.s, Altered(x, m, pn, n, otkId));
      && (r.Ok? <==>
           SignedAlike(x, m, pn, n, otkId) && (m.withKem || Has(y.s.epochs, x.hist[m.epoch].dh)))
      && (r.Ok? ==> r.value == AlteredPayload(x, m, pn, n, otkId))
  {
    KemRebuilt(x, y, m, pn, n, otkId, next, r0);
    WordsAgreeIff(AlteredPayload(x, m, pn, n, otkId), PayloadOf(x, m));
    hide Pad, Inv, Words, KemMaterial;
  }

  /**
   * Exactly when the envelope of a sent message decrypts with these counters in its header: they pass the receiver's
   * checks and are the sent ones modulo 2^32, its KEM material is at hand, and the message is accepted under them; it
   * then gives the text sent.
   */
  lemma AlteredDecryptsIff(
    x: End, y: End, m: Msg, pn: int, n: int, otkId: Option<int>, next: nat, r0: Root)
    requires Inv(x, y, next, r0) && m in x.log && m.epoch < |x.hist| && y.s.Coherent()
    ensures
      var r := Decrypt(y.s, Altered(x, m, pn, n, otkId), next);
      && (r.Ok? <==>
           && SignedAlike(x, m, pn, n, otkId) && (m.withKem || Has(y.s.epochs, x.hist[m.epoch].dh))
           && AcceptsAs(x, y, m, n, pn))
      && (r.Ok? ==> r.value.1 == m.text)
  {
    AlteredAuthenticates(x, y, m, pn, n, otkId, next, r0);
    hide Pad, Inv, Authenticate, DecryptPayload, AcceptsAs;
    if Authenticate(y.s, Altered(x, m, pn, n, otkId)).Ok? {
      DeliverAs(x, y, m, AlteredPayload(x, m, pn, n, otkId), next, r0);
    }
  }

  /** The receiver finishes a chain with pn before it opens the message's epoch. */
  predicate ReadsPn(x: End, y: End, m: Msg)
    requires m.epoch < |x.hist|
  {
    !m.first && !Has(y.s.mkskip, (x.hist[m.epoch].dh, m.n)) && m.epoch != y.cur && y.cur != -1
  }

  /**
   * A message that is accepted as sent is accepted with its pn raised by multiples of 2^32, which its sender never
   * signed as a number, exactly if pn is not read or still in reach.
   */
  lemma RaisedPnIff(x: End, y: End, m: Msg, k: nat, next: nat, r0: Root)
    requires Inv(x, y, next, r0) && m in x.log && m.epoch < |x.hist| && y.s.Coherent()
    requires Decrypt(y.s, EnvelopeOf(x, m), next).Ok?
    ensures
      var pn := x.hist[m.epoch].pn + k * TWO_32;
      var r := Decrypt(y.s, Altered(x, m, pn, m.n, EnvelopeOf(x, m).header.value.otkId), next);
      && (r.Ok? <==> ReadsPn(x, y, m) ==> pn - y.s.nr <= MAX_SKIP)
      && (r.Ok? ==> r.value.1 == m.text)
  {
    var e, otkId := x.hist[m.epoch], EnvelopeOf(x, m).header.value.otkId;
    var pn := e.pn + k * TWO_32;
    assert Altered(x, m, e.pn, m.n, otkId) == EnvelopeOf(x, m);
    hide Pad, Inv, Decrypt, AcceptsAs, EnvelopeOf, Altered;
    AlteredDecryptsIff(x, y, m, e.pn, m.n, otkId, next, r0);
    AlteredDecryptsIff(x, y, m, pn, m.n, otkId, next, r0);
    SameWord(e.pn, k);
    PnAcceptedIff(x, y, m, e.pn, pn);
  }

  lemma PnAcceptedIff(x: End, y: End, m: Msg, pn: int, pn': int)
    requires m.epoch < |x.hist| && AcceptsAs(x, y, m, m.n, pn)
    ensures AcceptsAs(x, y, m, m.n, pn') <==> (ReadsPn(x, y, m) ==> pn' - y.s.nr <= MAX_SKIP)
  {
    hide Ahead, Booted;
  }

  lemma SameWord(a: nat, k: nat)
    ensures (a + k * TWO_32) % TWO_32 == a % TWO_32 && a + k * TWO_32 >= 0
  {
  }
}
