/** Reading one sending chain in any order. */
module OutOfOrder {
  import opened Common
  import opened OrderedMap
  import opened Padding
  import opened Symbolic
  import opened Ratchet
  import opened Pair
  import EpochMemory
  import SessionRuns

  /** The messages of one chain, by position; only one before position lo may have opened it as a first message. */
  ghost predicate ChainMessages(msgs: seq<Payload>, texts: seq<Bytes>, dh: Key, c: Chain, lo: nat) {
    && |texts| == |msgs|
    && forall k | 0 <= k < |msgs| ::
      && (msgs[k].first ==> k < lo) && msgs[k].dh == dh && msgs[k].n == k && |texts[k]| < TWO_32
      && msgs[k].ciphertext == Sealed(MessageKey(c, k), msgs[k].nonce, Pad(texts[k], BLOCK))
  }

  /** The receiver stands on the chain. */
  ghost predicate OnChain(s: State, dh: Key, c: Chain) {
    s.Coherent() && s.dhr == Some(dh) && s.ckr == Some(ChainKey(c, s.nr)) && Distinct(s.mkskip)
  }

  function At(dh: Key, k: nat): SkipKey {
    (dh, k)
  }

  /**
   * Of the positions from lo up to hi, the stored keys are exactly those not yet read, each the true one, and there is
   * none from hi on; every other key is as in m0.
   */
  ghost predicate Holds(
    m: seq<(SkipKey, MessageKey)>, m0: seq<(SkipKey, MessageKey)>, dh: Key, c: Chain, lo: nat, hi: nat, done: set<nat>)
  {
    && (forall k: nat | lo <= k :: Has(m, At(dh, k)) <==> k < hi && k !in done)
    && (forall k: nat | lo <= k && Has(m, At(dh, k)) :: Get(m, At(dh, k)) == MessageKey(c, k))
    && (forall x: SkipKey | !(x.0 == dh && lo <= x.1) :: Has(m, x) == Has(m0, x))
    && (forall x: SkipKey | !(x.0 == dh && lo <= x.1) && Has(m0, x) :: Get(m, x) == Get(m0, x))
  }

  /** From position lo on, the stored keys are exactly those of the positions passed and not yet read. */
  ghost predicate StoresExactly(s: State, m0: seq<(SkipKey, MessageKey)>, dh: Key, c: Chain, lo: nat, done: set<nat>) {
    lo <= s.nr && Holds(s.mkskip, m0, dh, c, lo, s.nr, done)
  }

  // ---- Facts about the stored keys ----

  lemma GetAt<K, V>(m: seq<(K, V)>, i: nat)
    requires Distinct(m) && i < |m|
    ensures Has(m, m[i].0) && Get(m, m[i].0) == m[i].1
  {
  }

  lemma AppendHas<K, V>(m: seq<(K, V)>, k: K, v: V, x: K)
    requires Distinct(m) && !Has(m, k)
    ensures Has(m + [(k, v)], x) <==> x == k || Has(m, x)
    ensures Get(m + [(k, v)], k) == v
    ensures Has(m, x) ==> Get(m + [(k, v)], x) == Get(m, x)
  {
    var r := m + [(k, v)];
    assert r[|m|] == (k, v);
    GetAt(r, |m|);
    if Has(m, x) {
      var i := Find(m, x);
      assert r[i] == m[i];
      GetAt(r, i);
    }
  }

  lemma DeleteHas<K, V>(m: seq<(K, V)>, k: K, x: K)
    requires Distinct(m) && Has(m, k)
    ensures Has(Delete(m, k), x) <==> x != k && Has(m, x)
    ensures Has(Delete(m, k), x) ==> Get(Delete(m, k), x) == Get(m, x)
  {
    var i, r := Find(m, k), Delete(m, k);
    if Has(m, x) && x != k {
      var j := Find(m, x);
      assert r[if j < i then j else j - 1] == m[j];
      GetAt(r, if j < i then j else j - 1);
    }
  }

  lemma StoreOne(s: State, m0: seq<(SkipKey, MessageKey)>, dh: Key, c: Chain, lo: nat, done: set<nat>)
    requires OnChain(s, dh, c) && StoresExactly(s, m0, dh, c, lo, done) && s.nr !in done
    ensures
      var r := StoreNextKey(s);
      OnChain(r, dh, c) && StoresExactly(r, m0, dh, c, lo, done) && |r.mkskip| == |s.mkskip| + 1
  {
    var r := StoreNextKey(s);
    var mk := MessageKey(c, s.nr);
    assert r.mkskip == s.mkskip + [(At(dh, s.nr), mk)];
    forall x: SkipKey
      ensures Has(r.mkskip, x) <==> x == At(dh, s.nr) || Has(s.mkskip, x)
      ensures Has(s.mkskip, x) ==> Get(r.mkskip, x) == Get(s.mkskip, x)
      ensures x == At(dh, s.nr) ==> Get(r.mkskip, x) == mk
    {
      AppendHas(s.mkskip, At(dh, s.nr), mk, x);
    }
  }

  lemma {:induction false} StoreMany(
    s: State, m0: seq<(SkipKey, MessageKey)>, dh: Key, c: Chain, lo: nat, done: set<nat>, until: nat)
    requires OnChain(s, dh, c) && StoresExactly(s, m0, dh, c, lo, done) && s.nr <= until
    requires forall k | k in done :: k < s.nr
    ensures
      var r := StoreKeysUntil(s, until);
      && OnChain(r, dh, c) && StoresExactly(r, m0, dh, c, lo, done)
      && |r.mkskip| == |s.mkskip| + (until - s.nr) && r.nr == until
    decreases until - s.nr
  {
    if s.nr < until {
      StoreOne(s, m0, dh, c, lo, done);
      StoreMany(StoreNextKey(s), m0, dh, c, lo, done, until);
    }
  }

  // ---- One message ----

  /** Position k can be read now: its key is stored, or it lies ahead within both caps. */
  predicate WithinCaps(s: State, k: nat) {
    k < s.nr || (k - s.nr <= MAX_SKIP && |s.mkskip| + (k - s.nr) <= MAX_MKSKIP)
  }

  lemma ReadOne(
    s: State, m0: seq<(SkipKey, MessageKey)>, msgs: seq<Payload>, texts: seq<Bytes>,
    dh: Key, c: Chain, lo: nat, done: set<nat>, k: nat, seed: nat)
    requires ChainMessages(msgs, texts, dh, c, lo) && k < |msgs| && lo <= k && k !in done
    requires OnChain(s, dh, c) && StoresExactly(s, m0, dh, c, lo, done) && WithinCaps(s, k)
    requires forall j | j in done :: j < s.nr
    ensures
      var r := DecryptPayload(s, msgs[k], seed);
      && r.Ok? && r.value.1 == texts[k]
      && OnChain(r.value.0, dh, c) && StoresExactly(r.value.0, m0, dh, c, lo, done + {k})
      && (forall j | j in done + {k} :: j < r.value.0.nr)
  {
    hide Pad, StoresExactly, After;
    if k < s.nr {
      StoredIffPassed(s, m0, dh, c, lo, done, k);
      ReadSkippedOpens(s, msgs[k], c, k, texts[k]);
      DeleteKeeps(s, m0, dh, c, lo, done, k);
    } else {
      StoredIffPassed(s, m0, dh, c, lo, done, k);
      ReadChainIff(s, msgs[k], c, k, texts[k]);
      StoreMany(s, m0, dh, c, lo, done, k);
      ReadAhead(s, StoreKeysUntil(s, k), m0, dh, c, lo, done, k);
    }
  }

  lemma StoredIffPassed(
    s: State, m0: seq<(SkipKey, MessageKey)>, dh: Key, c: Chain, lo: nat, done: set<nat>, k: nat)
    requires StoresExactly(s, m0, dh, c, lo, done) && lo <= k
    ensures Has(s.mkskip, At(dh, k)) <==> k < s.nr && k !in done
    ensures Has(s.mkskip, At(dh, k)) ==> Get(s.mkskip, At(dh, k)) == MessageKey(c, k)
  {
  }

  lemma DeleteKeeps(
    s: State, m0: seq<(SkipKey, MessageKey)>, dh: Key, c: Chain, lo: nat, done: set<nat>, k: nat)
    requires OnChain(s, dh, c) && StoresExactly(s, m0, dh, c, lo, done) && lo <= k && Has(s.mkskip, At(dh, k))
    ensures
      var r := s.(mkskip := Delete(s.mkskip, At(dh, k)));
      OnChain(r, dh, c) && StoresExactly(r, m0, dh, c, lo, done + {k})
  {
    var r := s.(mkskip := Delete(s.mkskip, At(dh, k)));
    forall x: SkipKey
      ensures Has(r.mkskip, x) <==> x != At(dh, k) && Has(s.mkskip, x)
      ensures Has(r.mkskip, x) ==> Get(r.mkskip, x) == Get(s.mkskip, x)
    {
      DeleteHas(s.mkskip, At(dh, k), x);
    }
  }

  lemma ReadAhead(
    s: State, t: State, m0: seq<(SkipKey, MessageKey)>, dh: Key, c: Chain, lo: nat, done: set<nat>, k: nat)
    requires OnChain(s, dh, c) && s.nr <= k && t == StoreKeysUntil(s, k)
    requires OnChain(t, dh, c) && StoresExactly(t, m0, dh, c, lo, done) && t.nr == k && |t.mkskip| <= MAX_MKSKIP
    ensures OnChain(After(s, k), dh, c) && StoresExactly(After(s, k), m0, dh, c, lo, done + {k})
    ensures After(s, k).nr == k + 1
  {
    assert After(s, k).mkskip == t.mkskip;
  }

  /** A message already read is refused. */
  lemma ReadTwiceRefused(
    s: State, m0: seq<(SkipKey, MessageKey)>, msgs: seq<Payload>, texts: seq<Bytes>,
    dh: Key, c: Chain, lo: nat, done: set<nat>, k: nat, seed: nat)
    requires ChainMessages(msgs, texts, dh, c, lo) && k < |msgs| && lo <= k && k in done && k < s.nr
    requires OnChain(s, dh, c) && StoresExactly(s, m0, dh, c, lo, done)
    ensures DecryptPayload(s, msgs[k], seed).Err?
  {
    hide Pad;
    ReadChainIff(s, msgs[k], c, k, texts[k]);
  }

  // ---- A whole delivery order ----

  predicate Between(order: seq<nat>, lo: nat, hi: nat) {
    forall i | 0 <= i < |order| :: lo <= order[i] < hi
  }

  /** Reads the messages in the given order; None once one is refused, else the final state and the texts read. */
  function ReadAll(s: State, msgs: seq<Payload>, order: seq<nat>, seed: nat): Option<(State, seq<Bytes>)>
    requires s.Coherent() && Between(order, 0, |msgs|) && forall k | 0 <= k < |msgs| :: msgs[k].n >= 0
    decreases |order|
  {
    if order == [] then Some((s, []))
    else
      match DecryptPayload(s, msgs[order[0]], seed)
      case Err(_) => None
      case Ok((r, text)) =>
        if !r.Coherent() then None
        else
          match ReadAll(r, msgs, order[1..], seed)
          case None => None
          case Some((t, texts)) => Some((t, [text] + texts))
  }

  /** Gaps stay within MAX_SKIP, outstanding keys within MAX_MKSKIP; hi is the next position, kept the stored keys. */
  predicate Deliverable(hi: nat, kept: nat, order: seq<nat>)
    decreases |order|
  {
    if order == [] then true
    else if order[0] < hi then kept > 0 && Deliverable(hi, kept - 1, order[1..])
    else
      && order[0] - hi <= MAX_SKIP && kept + (order[0] - hi) <= MAX_MKSKIP
      && Deliverable(order[0] + 1, kept + (order[0] - hi), order[1..])
  }

  function Positions(order: seq<nat>): set<nat> {
    set k | k in order
  }

  predicate NoRepeats(order: seq<nat>) {
    forall i, j | 0 <= i < j < |order| :: order[i] != order[j]
  }

  lemma SizesAgree(s: State, k: nat, p: Payload, c: Chain, text: Bytes, dh: Key, seed: nat)
    requires OnChain(s, dh, c) && p.n == k && p.dh == dh && !p.first && WithinCaps(s, k) && |text| < TWO_32
    requires p.ciphertext == Sealed(MessageKey(c, k), p.nonce, Pad(text, BLOCK))
    requires k < s.nr ==> Has(s.mkskip, KeyOf(p)) && Get(s.mkskip, KeyOf(p)) == MessageKey(c, k)
    requires k >= s.nr ==> !Has(s.mkskip, KeyOf(p)) && |StoreKeysUntil(s, k).mkskip| == |s.mkskip| + (k - s.nr)
    requires DecryptPayload(s, p, seed).Ok?
    ensures
      var r := DecryptPayload(s, p, seed).value.0;
      if k < s.nr then r.nr == s.nr && |r.mkskip| == |s.mkskip| - 1
      else r.nr == k + 1 && |r.mkskip| == |s.mkskip| + (k - s.nr)
  {
    hide Pad;
    if k < s.nr {
      ReadSkippedOpens(s, p, c, k, text);
    } else {
      ReadChainIff(s, p, c, k, text);
    }
  }

  lemma StepInOrder(
    s: State, m0: seq<(SkipKey, MessageKey)>, msgs: seq<Payload>, texts: seq<Bytes>,
    dh: Key, c: Chain, lo: nat, done: set<nat>, k: nat, seed: nat)
    requires ChainMessages(msgs, texts, dh, c, lo) && k < |msgs| && lo <= k && k !in done
    requires OnChain(s, dh, c) && StoresExactly(s, m0, dh, c, lo, done) && WithinCaps(s, k)
    requires forall j | j in done :: j < s.nr
    ensures
      var r := DecryptPayload(s, msgs[k], seed);
      && r.Ok? && r.value.1 == texts[k]
      && OnChain(r.value.0, dh, c) && StoresExactly(r.value.0, m0, dh, c, lo, done + {k})
      && (forall j | j in done + {k} :: j < r.value.0.nr)
      && (if k < s.nr then r.value.0.nr == s.nr && |r.value.0.mkskip| == |s.mkskip| - 1
          else r.value.0.nr == k + 1 && |r.value.0.mkskip| == |s.mkskip| + (k - s.nr))
  {
    hide Pad, DecryptPayload;
    ReadOne(s, m0, msgs, texts, dh, c, lo, done, k, seed);
    StoreManySize(s, m0, dh, c, lo, done, k);
    SizesAgree(s, k, msgs[k], c, texts[k], dh, seed);
  }

  function TextsIn(texts: seq<Bytes>, order: seq<nat>): seq<Bytes>
    requires Between(order, 0, |texts|)
  {
    seq(|order|, i requires 0 <= i < |order| => texts[order[i]])
  }

  lemma {:induction false} ReadsInOrderGiven(
    s: State, m0: seq<(SkipKey, MessageKey)>, msgs: seq<Payload>, texts: seq<Bytes>,
    dh: Key, c: Chain, lo: nat, done: set<nat>, order: seq<nat>, seed: nat)
    requires ChainMessages(msgs, texts, dh, c, lo) && |texts| == |msgs|
    requires Between(order, lo, |msgs|) && NoRepeats(order)
    requires s.Coherent() && forall k | 0 <= k < |msgs| :: msgs[k].n >= 0
    requires OnChain(s, dh, c) && StoresExactly(s, m0, dh, c, lo, done)
    requires forall j | j in done :: j < s.nr
    requires forall i | 0 <= i < |order| :: order[i] !in done
    requires Deliverable(s.nr, |s.mkskip|, order)
    ensures
      var r := ReadAll(s, msgs, order, seed);
      && r.Some? && r.value.1 == TextsIn(texts, order)
      && OnChain(r.value.0, dh, c) && StoresExactly(r.value.0, m0, dh, c, lo, done + Positions(order))
      && (forall j | j in done + Positions(order) :: j < r.value.0.nr)
    decreases |order|
  {
    hide Pad, DecryptPayload, StoresExactly, OnChain, ChainMessages, TextsIn, Positions;
    if order == [] {
      NoPositions(texts, done);
    } else {
      var k, rest := order[0], order[1..];
      StepInOrder(s, m0, msgs, texts, dh, c, lo, done, k, seed);
      var r := DecryptPayload(s, msgs[k], seed).value.0;
      assert r.Coherent() by { OnChainCoherent(r, dh, c); }
      ReadsInOrderGiven(r, m0, msgs, texts, dh, c, lo, done + {k}, rest, seed);
      OrderSplits(order, texts, done);
    }
  }

  lemma NoPositions(texts: seq<Bytes>, done: set<nat>)
    ensures done + Positions([]) == done && TextsIn(texts, []) == []
  {
  }

  lemma OrderSplits(order: seq<nat>, texts: seq<Bytes>, done: set<nat>)
    requires order != [] && Between(order, 0, |texts|)
    ensures Between(order[1..], 0, |texts|)
    ensures done + {order[0]} + Positions(order[1..]) == done + Positions(order)
    ensures TextsIn(texts, order) == [texts[order[0]]] + TextsIn(texts, order[1..])
  {
    assert order == [order[0]] + order[1..];
  }

  lemma OnChainCoherent(s: State, dh: Key, c: Chain)
    requires OnChain(s, dh, c)
    ensures s.Coherent()
  {
  }

  /**
   * Out-of-order recovery. In any order without repeats that keeps within the
   * two caps, every message of the chain is read with its text; afterwards the
   * stored keys are exactly those of the positions passed and not read, other
   * chains' keys are untouched, and no message read can be read again.
   */
  lemma ReadsInAnyOrder(
    s: State, msgs: seq<Payload>, texts: seq<Bytes>, dh: Key, c: Chain, order: seq<nat>, seed: nat, seed': nat)
    requires ChainMessages(msgs, texts, dh, c, s.nr) && Between(order, s.nr, |msgs|) && NoRepeats(order)
    requires OnChain(s, dh, c) && forall k: nat | s.nr <= k :: !Has(s.mkskip, At(dh, k))
    requires Deliverable(s.nr, |s.mkskip|, order)
    ensures
      var r := ReadAll(s, msgs, order, seed);
      && r.Some? && r.value.1 == TextsIn(texts, order)
      && StoresExactly(r.value.0, s.mkskip, dh, c, s.nr, Positions(order))
      && r.value.0.Coherent()
      && (forall i | 0 <= i < |order| :: DecryptPayload(r.value.0, msgs[order[i]], seed').Err?)
  {
    hide Pad, DecryptPayload, Deliverable;
    ReadsInOrderGiven(s, s.mkskip, msgs, texts, dh, c, s.nr, {}, order, seed);
    assert {} + Positions(order) == Positions(order);
    var r := ReadAll(s, msgs, order, seed).value.0;
    forall i | 0 <= i < |order| ensures DecryptPayload(r, msgs[order[i]], seed').Err? {
      assert order[i] in Positions(order);
      ReadTwiceRefused(r, s.mkskip, msgs, texts, dh, c, s.nr, Positions(order), order[i], seed');
    }
  }

  lemma StoreManySize(s: State, m0: seq<(SkipKey, MessageKey)>, dh: Key, c: Chain, lo: nat, done: set<nat>, k: nat)
    requires OnChain(s, dh, c) && StoresExactly(s, m0, dh, c, lo, done) && forall j | j in done :: j < s.nr
    ensures s.nr <= k ==> |StoreKeysUntil(s, k).mkskip| == |s.mkskip| + (k - s.nr)
  {
    if s.nr <= k {
      StoreMany(s, m0, dh, c, lo, done, k);
    }
  }

  // ---- Envelopes ----

  /** What the receiver needs to take the shrunk envelope of p for p. */
  predicate Authentic(s: State, p: Payload) {
    && !p.first && p.v == VERSION && p.n >= 0 && p.pn >= 0 && p.otkId >= -1
    && p.recipientDh == s.me.dh && p.senderDh == s.peer.dh && p.senderSign == s.peer.sign
    && Has(s.epochs, p.dh) && Get(s.epochs, p.dh) == Epoch(p.pqPk, p.pqCt)
  }

  lemma EnvelopeIsPayload(s: State, p: Payload, withKem: bool)
    requires Authentic(s, p)
    ensures Authenticate(s, Wire(p, withKem)) == Ok(p)
  {
    hide Words;
  }

  /** Reading a skipped message, or one of the current chain, leaves the parties and the remembered epochs alone. */
  lemma ReadKeepsEpochs(s: State, p: Payload, seed: nat)
    requires s.Coherent() && p.n >= 0 && !p.first && DecryptPayload(s, p, seed).Ok?
    requires Has(s.mkskip, KeyOf(p)) || s.dhr == Some(p.dh)
    ensures var r := DecryptPayload(s, p, seed).value.0; r.epochs == s.epochs && r.me == s.me && r.peer == s.peer
  {
    SkipKeepsShape(s, p.n);
    hide SkipMessageKeys, Unpad;
  }

  function ReadEnvelopes(s: State, envelopes: seq<Envelope>, order: seq<nat>, seed: nat): Option<(State, seq<Bytes>)>
    requires s.Coherent() && Between(order, 0, |envelopes|)
    decreases |order|
  {
    if order == [] then Some((s, []))
    else
      match Decrypt(s, envelopes[order[0]], seed)
      case Err(_) => None
      case Ok((r, text)) =>
        if !r.Coherent() then None
        else
          match ReadEnvelopes(r, envelopes, order[1..], seed)
          case None => None
          case Some((t, texts)) => Some((t, [text] + texts))
  }

  /** The envelopes the messages travelled in, with their KEM material or without. */
  predicate Sent(envelopes: seq<Envelope>, msgs: seq<Payload>) {
    && |envelopes| == |msgs|
    && forall k | 0 <= k < |msgs| :: envelopes[k] == Wire(msgs[k], true) || envelopes[k] == Wire(msgs[k], false)
  }

  /** Every read of the order finds a stored key, or stands on the chain. */
  ghost predicate Stays(s: State, msgs: seq<Payload>, order: seq<nat>, seed: nat)
    requires s.Coherent() && Between(order, 0, |msgs|) && forall k | 0 <= k < |msgs| :: msgs[k].n >= 0
    decreases |order|
  {
    order == [] ||
    var p := msgs[order[0]];
    && (Has(s.mkskip, KeyOf(p)) || s.dhr == Some(p.dh))
    && match DecryptPayload(s, p, seed)
       case Err(_) => true
       case Ok((r, _)) => r.Coherent() ==> Stays(r, msgs, order[1..], seed)
  }

  lemma {:induction false} EnvelopesReadAlike(
    s: State, envelopes: seq<Envelope>, msgs: seq<Payload>, order: seq<nat>, seed: nat)
    requires s.Coherent() && Sent(envelopes, msgs) && Between(order, 0, |msgs|)
    requires forall k | 0 <= k < |msgs| :: msgs[k].n >= 0
    requires Stays(s, msgs, order, seed) && forall i | 0 <= i < |order| :: Authentic(s, msgs[order[i]])
    ensures ReadEnvelopes(s, envelopes, order, seed) == ReadAll(s, msgs, order, seed)
    decreases |order|
  {
    hide DecryptPayload, Authenticate, Wire;
    if order != [] {
      var p := msgs[order[0]];
      EnvelopeIsPayload(s, p, true);
      EnvelopeIsPayload(s, p, false);
      if DecryptPayload(s, p, seed).Ok? && DecryptPayload(s, p, seed).value.0.Coherent() {
        ReadKeepsEpochs(s, p, seed);
        EnvelopesReadAlike(DecryptPayload(s, p, seed).value.0, envelopes, msgs, order[1..], seed);
      }
    }
  }

  lemma {:induction false} OnChainStays(
    s: State, m0: seq<(SkipKey, MessageKey)>, msgs: seq<Payload>, texts: seq<Bytes>,
    dh: Key, c: Chain, lo: nat, done: set<nat>, order: seq<nat>, seed: nat)
    requires ChainMessages(msgs, texts, dh, c, lo) && Between(order, lo, |msgs|) && NoRepeats(order)
    requires s.Coherent() && forall k | 0 <= k < |msgs| :: msgs[k].n >= 0
    requires OnChain(s, dh, c) && StoresExactly(s, m0, dh, c, lo, done)
    requires forall j | j in done :: j < s.nr
    requires forall i | 0 <= i < |order| :: order[i] !in done
    requires Deliverable(s.nr, |s.mkskip|, order)
    ensures Stays(s, msgs, order, seed)
    decreases |order|
  {
    hide Pad, DecryptPayload, StoresExactly;
    if order != [] {
      StepInOrder(s, m0, msgs, texts, dh, c, lo, done, order[0], seed);
      var r := DecryptPayload(s, msgs[order[0]], seed).value.0;
      OnChainStays(r, m0, msgs, texts, dh, c, lo, done + {order[0]}, order[1..], seed);
    }
  }

  /** The same for the envelopes, with or without their KEM material, while the receiver remembers the epoch. */
  lemma EnvelopesInAnyOrder(
    s: State, envelopes: seq<Envelope>, msgs: seq<Payload>, texts: seq<Bytes>, dh: Key, c: Chain,
    order: seq<nat>, seed: nat)
    requires ChainMessages(msgs, texts, dh, c, s.nr) && Between(order, s.nr, |msgs|) && NoRepeats(order)
    requires OnChain(s, dh, c) && forall k: nat | s.nr <= k :: !Has(s.mkskip, At(dh, k))
    requires Deliverable(s.nr, |s.mkskip|, order)
    requires Sent(envelopes, msgs) && forall i | 0 <= i < |order| :: Authentic(s, msgs[order[i]])
    ensures
      var r := ReadEnvelopes(s, envelopes, order, seed);
      && r.Some? && r.value.1 == TextsIn(texts, order)
      && StoresExactly(r.value.0, s.mkskip, dh, c, s.nr, Positions(order))
  {
    ReadsInAnyOrder(s, msgs, texts, dh, c, order, seed, seed);
    OnChainStays(s, s.mkskip, msgs, texts, dh, c, s.nr, {}, order, seed);
    hide *;
    EnvelopesReadAlike(s, envelopes, msgs, order, seed);
  }

  // ---- Messages of a chain the receiver has left ----

  lemma SetOther<K, V>(m: seq<(K, V)>, k: K, v: V, x: K)
    requires Distinct(m) && x != k
    ensures Has(Set(m, k, v), x) <==> Has(m, x)
    ensures Has(m, x) ==> Get(Set(m, k, v), x) == Get(m, x)
  {
    var i, r := Find(m, k), Set(m, k, v);
    if Has(m, x) {
      var j := Find(m, x);
      assert r[j] == m[j];
      GetAt(r, j);
    } else if i >= 0 {
      assert forall j | 0 <= j < |r| :: r[j].0 == m[j].0;
    }
  }

  /** Filing the keys of another chain leaves this one's alone. */
  lemma {:induction false} StoreOthers(s: State, until: int, x: SkipKey)
    requires s.Coherent() && s.ckr.Some? && Distinct(s.mkskip) && x.0 != s.dhr.value
    ensures
      var m := StoreKeysUntil(s, until).mkskip;
      && Distinct(m) && |m| <= |s.mkskip| + (if until > s.nr then until - s.nr else 0)
      && (Has(m, x) <==> Has(s.mkskip, x)) && (Has(m, x) ==> Get(m, x) == Get(s.mkskip, x))
    decreases until - s.nr
  {
    if s.nr < until {
      SetOther(s.mkskip, (s.dhr.value, s.nr), KdfCk(s.ckr.value).1, x);
      StoreOthers(StoreNextKey(s), until, x);
    }
  }

  lemma ReadOthers(s: State, p: Payload, x: SkipKey)
    requires s.Coherent() && s.ckr.Some? && Distinct(s.mkskip) && x.0 != s.dhr.value && ReadChain(s, p).Ok?
    requires s.nr == 0 && p.n >= 0 && |s.mkskip| + p.n <= MAX_MKSKIP
    ensures
      var r := ReadChain(s, p).value.0;
      && Distinct(r.mkskip) && r.dhr == s.dhr && r.epochs == s.epochs
      && (Has(r.mkskip, x) <==> Has(s.mkskip, x)) && (Has(r.mkskip, x) ==> Get(r.mkskip, x) == Get(s.mkskip, x))
  {
    hide Has, Unpad;
    StoreOthers(s, p.n, x);
    StoreKeepsShape(s, p.n);
  }

  /** The receiver leaves the chain on a message of the next epoch, which names where the chain ended. */
  predicate Leaves(s: State, p: Payload, dh: Key) {
    && !p.first && p.dh != dh && p.n >= 0 && s.nr <= p.pn && s.dhs.Some?
    && |s.mkskip| + (p.pn - s.nr) + p.n <= MAX_MKSKIP && !Has(s.mkskip, KeyOf(p)) && !Has(s.epochs, p.dh)
  }

  /** Leaving a chain files the keys of every message of it that was not read. */
  lemma LeavingStores(
    s: State, m0: seq<(SkipKey, MessageKey)>, dh: Key, c: Chain, lo: nat, done: set<nat>, p: Payload, seed: nat)
    requires OnChain(s, dh, c) && StoresExactly(s, m0, dh, c, lo, done) && forall k | k in done :: k < s.nr
    requires Leaves(s, p, dh) && DecryptPayload(s, p, seed).Ok?
    ensures
      var r := DecryptPayload(s, p, seed).value.0;
      r.Coherent() && Distinct(r.mkskip) && r.dhr == Some(p.dh) && Holds(r.mkskip, r.mkskip, dh, c, lo, p.pn, done)
  {
    hide Pad, ReadChain;
    StoreMany(s, m0, dh, c, lo, done, p.pn);
    StoreKeepsShape(s, p.pn);
    var t := StoreKeysUntil(s, p.pn);
    var s1 := SkipMessageKeys(s, p.pn).value;
    assert s1 == t;
    var u := DhRatchet(s1, p, seed);
    SessionRuns.DecryptKeepsParty(s, p, seed);
    LeavingRatchets(s, p, seed);
    RatchetShape(s1, p, seed);
    hide StoreKeysUntil, SkipMessageKeys, DhRatchet, DecryptPayload, Has, Get, OnChain, StoresExactly, Holds;
    var r := ReadChain(u, p).value.0;
    forall x: SkipKey | x.0 == dh
      ensures Has(r.mkskip, x) <==> Has(t.mkskip, x)
      ensures Has(t.mkskip, x) ==> Get(r.mkskip, x) == Get(t.mkskip, x)
    {
      ReadOthers(u, p, x);
    }
    ReadOthers(u, p, (dh, 0));
    assert Holds(t.mkskip, m0, dh, c, lo, p.pn, done) by { ExactlyHolds(t, m0, dh, c, lo, done); }
    HoldsOn(t.mkskip, r.mkskip, m0, dh, c, lo, p.pn, done);
  }

  lemma ExactlyHolds(s: State, m0: seq<(SkipKey, MessageKey)>, dh: Key, c: Chain, lo: nat, done: set<nat>)
    requires StoresExactly(s, m0, dh, c, lo, done)
    ensures Holds(s.mkskip, m0, dh, c, lo, s.nr, done)
  {
  }

  lemma HoldsOn(
    m: seq<(SkipKey, MessageKey)>, r: seq<(SkipKey, MessageKey)>, m0: seq<(SkipKey, MessageKey)>,
    dh: Key, c: Chain, lo: nat, hi: nat, done: set<nat>)
    requires Holds(m, m0, dh, c, lo, hi, done)
    requires forall x: SkipKey | x.0 == dh :: (Has(r, x) <==> Has(m, x)) && (Has(m, x) ==> Get(r, x) == Get(m, x))
    ensures Holds(r, r, dh, c, lo, hi, done)
  {
    hide Has, Get;
  }

  lemma RatchetShape(s: State, p: Payload, seed: nat)
    requires s.Coherent() && s.dhs.Some?
    ensures var u := DhRatchet(s, p, seed);
      u.Coherent() && u.ckr.Some? && u.mkskip == s.mkskip && u.nr == 0 && u.dhr == Some(p.dh)
  {
  }

  lemma LeavingRatchets(s: State, p: Payload, seed: nat)
    requires s.Coherent() && p.n >= 0 && !p.first && !Has(s.mkskip, KeyOf(p)) && !Has(s.epochs, p.dh)
    requires s.dhs.Some? && s.dhr != Some(p.dh) && SkipMessageKeys(s, p.pn).Ok?
    ensures
      var s1 := SkipMessageKeys(s, p.pn).value;
      && s1.Coherent() && s1.dhs.Some? && DhRatchet(s1, p, seed).Coherent() && DhRatchet(s1, p, seed).ckr.Some?
      && DecryptPayload(s, p, seed) == ReadChain(DhRatchet(s1, p, seed), p)
  {
    SkipKeepsShape(s, p.pn);
  }

  /** A stored key is used wherever the receiver stands, and nothing else changes. */
  lemma LateOne(
    s: State, m0: seq<(SkipKey, MessageKey)>, msgs: seq<Payload>, texts: seq<Bytes>,
    dh: Key, c: Chain, lo: nat, hi: nat, done: set<nat>, k: nat, seed: nat)
    requires ChainMessages(msgs, texts, dh, c, lo) && lo <= k < |msgs| && k < hi && k !in done
    requires s.Coherent() && Distinct(s.mkskip) && Holds(s.mkskip, m0, dh, c, lo, hi, done)
    ensures
      var r := DecryptPayload(s, msgs[k], seed);
      && r.Ok? && r.value.1 == texts[k] && r.value.0 == s.(mkskip := r.value.0.mkskip)
      && Distinct(r.value.0.mkskip) && Holds(r.value.0.mkskip, m0, dh, c, lo, hi, done + {k})
      && Has(s.mkskip, KeyOf(msgs[k]))
  {
    hide Pad;
    ReadSkippedOpens(s, msgs[k], c, k, texts[k]);
    var r := s.(mkskip := Delete(s.mkskip, At(dh, k)));
    forall x: SkipKey
      ensures Has(r.mkskip, x) <==> x != At(dh, k) && Has(s.mkskip, x)
      ensures Has(r.mkskip, x) ==> Get(r.mkskip, x) == Get(s.mkskip, x)
    {
      DeleteHas(s.mkskip, At(dh, k), x);
    }
  }

  /**
   * Late messages. Wherever the receiver stands, every message of a chain whose key was filed and not used is read, in
   * any order, and nothing but the stored keys changes.
   */
  lemma {:induction false} ReadsLateInAnyOrder(
    s: State, m0: seq<(SkipKey, MessageKey)>, msgs: seq<Payload>, texts: seq<Bytes>,
    dh: Key, c: Chain, lo: nat, hi: nat, done: set<nat>, order: seq<nat>, seed: nat)
    requires ChainMessages(msgs, texts, dh, c, lo) && |texts| == |msgs|
    requires Between(order, lo, |msgs|) && NoRepeats(order)
    requires forall k | 0 <= k < |msgs| :: msgs[k].n >= 0
    requires s.Coherent() && Distinct(s.mkskip) && Holds(s.mkskip, m0, dh, c, lo, hi, done)
    requires forall i | 0 <= i < |order| :: order[i] < hi && order[i] !in done
    ensures
      var r := ReadAll(s, msgs, order, seed);
      && r.Some? && r.value.1 == TextsIn(texts, order) && r.value.0 == s.(mkskip := r.value.0.mkskip)
      && Holds(r.value.0.mkskip, m0, dh, c, lo, hi, done + Positions(order)) && Stays(s, msgs, order, seed)
    decreases |order|
  {
    hide Pad, DecryptPayload, Holds, ChainMessages, TextsIn, Positions;
    if order == [] {
      NoPositions(texts, done);
    } else {
      var k, rest := order[0], order[1..];
      LateOne(s, m0, msgs, texts, dh, c, lo, hi, done, k, seed);
      var r := DecryptPayload(s, msgs[k], seed).value.0;
      ReadsLateInAnyOrder(r, m0, msgs, texts, dh, c, lo, hi, done + {k}, rest, seed);
      OrderSplits(order, texts, done);
    }
  }

  /**
   * A whole chain across a ratchet: some of its messages read in any order, then a message of the next epoch that
   * names where the chain ended, then any others of it in any order; within the caps every one is read, once.
   */
  lemma ReadsAcrossRatchet(
    s: State, envelopes: seq<Envelope>, msgs: seq<Payload>, texts: seq<Bytes>, dh: Key, c: Chain,
    before: seq<nat>, p: Payload, after: seq<nat>, seed: nat)
    requires ChainMessages(msgs, texts, dh, c, s.nr) && |msgs| == p.pn
    requires Between(before, s.nr, |msgs|) && Between(after, s.nr, |msgs|) && NoRepeats(before + after)
    requires OnChain(s, dh, c) && forall k: nat | s.nr <= k :: !Has(s.mkskip, At(dh, k))
    requires Deliverable(s.nr, |s.mkskip|, before)
    requires ReadAll(s, msgs, before, seed).Some? ==> (
      var r := ReadAll(s, msgs, before, seed).value.0;
      Leaves(r, p, dh) && r.Coherent() && DecryptPayload(r, p, seed).Ok?)
    requires Sent(envelopes, msgs)
    ensures
      var r := ReadAll(s, msgs, before, seed);
      && r.Some? && r.value.1 == TextsIn(texts, before) && r.value.0.Coherent()
      && var t := DecryptPayload(r.value.0, p, seed).value.0;
      && t.Coherent()
      && var u := ReadAll(t, msgs, after, seed);
      && u.Some? && u.value.1 == TextsIn(texts, after)
      && ((forall i | 0 <= i < |before| :: Authentic(s, msgs[before[i]])) ==>
           ReadEnvelopes(s, envelopes, before, seed) == r)
      && (SessionRuns.Shape(s) && (forall i | 0 <= i < |after| :: Authentic(s, msgs[after[i]])) ==>
           ReadEnvelopes(t, envelopes, after, seed) == u)
  {
    var lo := s.nr;
    OrdersApart(before, after, lo, |msgs|);
    StartsExactly(s, dh, c);
    ReadsInOrderGiven(s, s.mkskip, msgs, texts, dh, c, lo, {}, before, seed);
    OnChainStays(s, s.mkskip, msgs, texts, dh, c, lo, {}, before, seed);
    assert {} + Positions(before) == Positions(before);
    var r := ReadAll(s, msgs, before, seed).value.0;
    assert r.Coherent() by { OnChainCoherent(r, dh, c); }
    StaysKeepsEpochs(s, msgs, before, seed);
    if SessionRuns.Shape(s) { NewestIsCurrent(s, dh, c); }
    hide *;
    if forall i | 0 <= i < |before| :: Authentic(s, msgs[before[i]]) {
      EnvelopesReadAlike(s, envelopes, msgs, before, seed);
    }
    LeavingStores(r, s.mkskip, dh, c, lo, Positions(before), p, seed);
    var t := DecryptPayload(r, p, seed).value.0;
    ReadsLateInAnyOrder(t, t.mkskip, msgs, texts, dh, c, lo, p.pn, Positions(before), after, seed);
    if SessionRuns.Shape(s) && forall i | 0 <= i < |after| :: Authentic(s, msgs[after[i]]) {
      forall i | 0 <= i < |after| ensures Authentic(t, msgs[after[i]]) {
        AuthenticAfterLeaving(s, r, dh, p, msgs[after[i]], seed);
      }
      EnvelopesReadAlike(t, envelopes, msgs, after, seed);
    }
  }

  lemma NewestIsCurrent(s: State, dh: Key, c: Chain)
    requires SessionRuns.Shape(s) && OnChain(s, dh, c)
    ensures RemembersLast(s, dh)
  {
  }

  /** The current epoch is the newest remembered one. */
  ghost predicate RemembersLast(s: State, dh: Key) {
    0 < |s.epochs| <= MAX_EPOCHS && Distinct(s.epochs) && s.epochs[|s.epochs| - 1].0 == dh
  }

  lemma {:induction false} StaysKeepsEpochs(s: State, msgs: seq<Payload>, order: seq<nat>, seed: nat)
    requires s.Coherent() && Between(order, 0, |msgs|) && forall k | 0 <= k < |msgs| :: msgs[k].n >= 0
    requires Stays(s, msgs, order, seed) && ReadAll(s, msgs, order, seed).Some?
    requires forall i | 0 <= i < |order| :: !msgs[order[i]].first
    ensures var r := ReadAll(s, msgs, order, seed).value.0; r.epochs == s.epochs && r.me == s.me && r.peer == s.peer
    decreases |order|
  {
    hide DecryptPayload;
    if order != [] {
      var p := msgs[order[0]];
      ReadKeepsEpochs(s, p, seed);
      StaysKeepsEpochs(DecryptPayload(s, p, seed).value.0, msgs, order[1..], seed);
    }
  }

  /** Leaving a chain does not forget its epoch, so its messages still authenticate. */
  lemma AuthenticAfterLeaving(s: State, r: State, dh: Key, p: Payload, q: Payload, seed: nat)
    requires Authentic(s, q) && q.dh == dh && RemembersLast(s, dh)
    requires r.Coherent() && r.epochs == s.epochs && r.me == s.me && r.peer == s.peer
    requires Leaves(r, p, dh) && DecryptPayload(r, p, seed).Ok?
    ensures Authentic(DecryptPayload(r, p, seed).value.0, q)
  {
    EpochMemory.EntersRemembers(r, p, seed);
    SessionRuns.DecryptKeepsParty(r, p, seed);
    hide DecryptPayload, Has, Get, RememberEpoch;
    EpochMemory.RememberedAfter(r.epochs, p.dh, Epoch(p.pqPk, p.pqCt), dh);
    assert !EpochMemory.Displaced(r.epochs, dh);
  }

  lemma OrdersApart(before: seq<nat>, after: seq<nat>, lo: nat, hi: nat)
    requires NoRepeats(before + after) && Between(after, lo, hi) && Between(before, lo, hi)
    ensures NoRepeats(before) && NoRepeats(after)
    ensures forall i | 0 <= i < |after| :: after[i] < hi && after[i] !in Positions(before)
    ensures Between(before, 0, hi) && Between(after, 0, hi)
  {
    RepeatsSplit(before, after);
  }

  lemma StartsExactly(s: State, dh: Key, c: Chain)
    requires OnChain(s, dh, c) && forall k: nat | s.nr <= k :: !Has(s.mkskip, At(dh, k))
    ensures StoresExactly(s, s.mkskip, dh, c, s.nr, {})
  {
  }

  lemma RepeatsSplit(a: seq<nat>, b: seq<nat>)
    requires NoRepeats(a + b)
    ensures NoRepeats(a) && NoRepeats(b) && forall i | 0 <= i < |b| :: b[i] !in a
  {
    forall i, j | 0 <= i < j < |b| ensures b[i] != b[j] {
      assert (a + b)[|a| + i] == b[i] && (a + b)[|a| + j] == b[j];
    }
    forall i, j | 0 <= i < |a| && 0 <= j < |b| ensures a[i] != b[j] {
      assert (a + b)[i] == a[i] && (a + b)[|a| + j] == b[j];
    }
    forall i, j | 0 <= i < j < |a| ensures a[i] != a[j] {
      assert (a + b)[i] == a[i] && (a + b)[j] == a[j];
    }
  }
}
