/**
 * What each operation of a session computes, on values. Class Session performs
 * the same operations step by step on its fields.
 */
module Ratchet {
  import opened Common
  import opened OrderedMap
  import opened Padding
  import opened Symbolic

  const MAX_SKIP := 1000
  const MAX_MKSKIP := 2000
  const MAX_EPOCHS := 256
  const VERSION := 6
  const BLOCK := 256

  datatype Payload = Payload(
    v: int, senderDh: Key, senderSign: Key, recipientDh: Key,
    dh: Key, pqPk: Key, pqCt: KemCt, pn: int, n: int,
    nonce: nat, ciphertext: Ciphertext, first: bool, otkId: int)

  /** The payload as the signed bytes hold it: the number fields keep 32 bits. */
  function Words(p: Payload): Payload {
    p.(v := p.v % TWO_32, pn := p.pn % TWO_32, n := p.n % TWO_32, otkId := p.otkId % TWO_32)
  }

  /** A signature verifies for one signer and one byte string only, not for one payload. */
  datatype Signature = Signature(signer: Key, signed: Payload) | BadSignature

  datatype FirstFlag = Absent | Flag(value: bool) | NotBoolean

  datatype Header = Header(
    dh: Key, pn: int, n: int, pqPk: Option<Key>, pqCt: Option<KemCt>,
    first: FirstFlag, otkId: Option<int>)

  datatype Envelope = Envelope(
    v: int, senderDh: Key, senderSign: Option<Key>, header: Option<Header>,
    nonce: nat, ciphertext: Ciphertext, signature: Signature)

  datatype Error =
    | UnsupportedVersion | MissingHeader | InvalidFirstFlag | InvalidCounters | InvalidOneTimeId
    | FirstWithoutKemKey | UnknownEpoch | FirstWithoutKemCiphertext
    | BadSignatureError | WrongSender | SigningKeyChanged
    | DuplicateFirst | StaleEpoch | NoSession | TooManySkipped | NoReceivingChain
    | DecryptionFailed | BadPadding

  /** A skipped message key is filed under the ratchet key and the position of its message. */
  type SkipKey = (Key, nat)

  datatype Epoch = Epoch(pk: Key, ct: KemCt)

  datatype Token = Token(staticSs: DhSecret, signedSs: DhSecret, otkSs: Option<DhSecret>)

  datatype State = State(
    me: Identity, peer: Identity, token: Token, otkId: Option<int>,
    rk: Root,
    dhs: Option<Key>, pqs: Option<Key>, cks: Option<ChainKey>, nextPqCt: KemCt,
    dhr: Option<Key>, pqr: Option<Key>, ckr: Option<ChainKey>,
    ns: nat, nr: nat, pn: nat,
    mkskip: seq<(SkipKey, MessageKey)>, epochs: seq<(Key, Epoch)>,
    lastSentDh: Option<Key>, isFirst: bool, firstBuilt: bool)
  {
    /** The fields that are only ever set together. */
    predicate Coherent() {
      && dhs.Some? == pqs.Some? == cks.Some?
      && dhr.Some? == pqr.Some? == ckr.Some?
    }
  }

  // ---- Establishing a session ----

  /** A one-time prekey taken from the peer's directory entry, or our own one the peer chose. */
  datatype OneTime = NoOneTime | FromPeer(id: nat, dh: Key, signer: Key) | OwnPrekey(id: nat, dh: Key)

  function OneTimeSecret(me: Identity, peer: Identity, otk: OneTime): Option<DhSecret> {
    match otk
    case NoOneTime => None
    case FromPeer(_, dh, _) => Some(DH(me.dh, dh))
    case OwnPrekey(_, dh) => Some(DH(dh, peer.dh))
  }

  function BootstrapRoot(me: Identity, peer: Identity, otk: OneTime): Root {
    var root := Initial(DH(me.dh, peer.dh), DH(me.signedDh, peer.signedDh));
    match OneTimeSecret(me, peer, otk)
    case None => root
    case Some(ss) => WithOneTime(root, ss)
  }

  /** None when the directory's one-time prekey is not signed by the peer. */
  function NewSession(me: Identity, peer: Identity, otk: OneTime): Option<State> {
    if otk.FromPeer? && otk.signer != peer.sign then None
    else
      Some(State(
        me, peer,
        Token(DH(me.dh, peer.dh), DH(me.signedDh, peer.signedDh), OneTimeSecret(me, peer, otk)),
        if otk.NoOneTime? then None else Some(otk.id),
        BootstrapRoot(me, peer, otk),
        None, None, None, NoCt, None, None, None, 0, 0, 0, [], [], None, false, false))
  }

  // ---- Sending ----

  /** KDF_RK of the root, its new root discarded: the first chain of a bootstrap. */
  function FirstSend(s: State, seed: nat): State {
    var mix := Mix(Shared(s.peer.kem, seed), DH(seed, s.peer.signedDh));
    s.(firstBuilt := true, dhs := Some(seed), pqs := Some(seed),
       cks := Some(KdfRk(s.rk, mix).1), nextPqCt := KemCt(s.peer.kem, seed), isFirst := true)
  }

  function RatchetSendStep(s: State, seed: nat): State
    requires s.dhr.Some?
  {
    var (kem, ct) := if s.pqr.Some? then (Shared(s.pqr.value, seed), KemCt(s.pqr.value, seed)) else (Zeros, NoCt);
    var (rk, cks) := KdfRk(s.rk, Mix(kem, DH(seed, s.dhr.value)));
    s.(dhs := Some(seed), pqs := Some(seed), nextPqCt := ct, rk := rk, cks := Some(cks))
  }

  /** The state that sends: a session without a sending chain bootstraps one. */
  function ReadyToSend(s: State, seed: nat): State {
    if s.cks.None? then FirstSend(s, seed) else s
  }

  function SignedPayload(s: State, text: Bytes, nonce: nat): Payload
    requires s.Coherent() && s.cks.Some?
  {
    Payload(
      VERSION, s.me.dh, s.me.sign, s.peer.dh,
      s.dhs.value, s.pqs.value, s.nextPqCt, s.pn, s.ns,
      nonce, Sealed(KdfCk(s.cks.value).1, nonce, Pad(text, BLOCK)),
      s.isFirst, if s.isFirst && s.otkId.Some? then s.otkId.value else -1)
  }

  /** What of the payload goes on the wire. */
  function Wire(p: Payload, withKem: bool): Envelope {
    var header := Header(
      p.dh, p.pn, p.n,
      if withKem then Some(p.pqPk) else None,
      if withKem && p.pqCt != NoCt then Some(p.pqCt) else None,
      if p.first then Flag(true) else Absent,
      if p.otkId >= 0 then Some(p.otkId) else None);
    Envelope(VERSION, p.senderDh, if p.first then Some(p.senderSign) else None, Some(header),
             p.nonce, p.ciphertext, Signature(p.senderSign, Words(p)))
  }

  function Encrypt(s: State, text: Bytes, nonce: nat, seed: nat): (State, Envelope)
    requires s.Coherent()
  {
    var r := ReadyToSend(s, seed);
    var envelope := Wire(SignedPayload(r, text, nonce), r.isFirst || r.lastSentDh != r.dhs);
    (r.(isFirst := false, cks := Some(KdfCk(r.cks.value).0), ns := r.ns + 1, lastSentDh := r.dhs), envelope)
  }

  // ---- Receiving: authentication ----

  function KemMaterial(s: State, h: Header, first: bool): Result<Epoch, Error> {
    if h.pqPk.Some? then Ok(Epoch(h.pqPk.value, if h.pqCt.Some? then h.pqCt.value else NoCt))
    else if first then Err(FirstWithoutKemKey)
    else if !Has(s.epochs, h.dh) then Err(UnknownEpoch)
    else
      var epoch := Get(s.epochs, h.dh);
      Ok(Epoch(epoch.pk, if h.pqCt.Some? then h.pqCt.value else epoch.ct))
  }

  function Authenticate(s: State, e: Envelope): (r: Result<Payload, Error>)
    ensures r.Ok? ==> r.value.n >= 0 && e.signature == Signature(s.peer.sign, Words(r.value))
    ensures r.Ok? ==> r.value.v == VERSION && r.value.ciphertext == e.ciphertext
  {
    if e.v != VERSION then Err(UnsupportedVersion)
    else if e.header.None? then Err(MissingHeader)
    else
      var h := e.header.value;
      var senderSign := if e.senderSign.Some? then e.senderSign.value else s.peer.sign;
      if h.first.NotBoolean? then Err(InvalidFirstFlag)
      else if h.n < 0 || h.pn < 0 then Err(InvalidCounters)
      else if h.otkId.Some? && h.otkId.value < 0 then Err(InvalidOneTimeId)
      else
        var first := h.first == Flag(true);
        match KemMaterial(s, h, first)
        case Err(error) => Err(error)
        case Ok(kem) =>
          if first && kem.ct == NoCt then Err(FirstWithoutKemCiphertext)
          else
            var p := Payload(
              e.v, e.senderDh, senderSign, s.me.dh, h.dh, kem.pk, kem.ct, h.pn, h.n,
              e.nonce, e.ciphertext, first, if h.otkId.Some? then h.otkId.value else -1);
            if e.signature != Signature(senderSign, Words(p)) then Err(BadSignatureError)
            else if p.senderDh != s.peer.dh then Err(WrongSender)
            else if p.senderSign != s.peer.sign then Err(SigningKeyChanged)
            else Ok(p)
  }

  // ---- Receiving: the ratchet ----

  function StoreNextKey(s: State): State
    requires s.Coherent() && s.ckr.Some?
  {
    var (ckr, mk) := KdfCk(s.ckr.value);
    s.(ckr := Some(ckr), mkskip := Set(s.mkskip, (s.dhr.value, s.nr), mk), nr := s.nr + 1)
  }

  function StoreKeysUntil(s: State, until: int): State
    requires s.Coherent() && s.ckr.Some?
    decreases until - s.nr
  {
    if s.nr < until then StoreKeysUntil(StoreNextKey(s), until) else s
  }

  function SkipMessageKeys(s: State, until: int): Result<State, Error>
    requires s.Coherent()
  {
    if s.ckr.None? then Ok(s)
    else if until - s.nr > MAX_SKIP then Err(TooManySkipped)
    else
      var r := StoreKeysUntil(s, until);
      Ok(r.(mkskip := Newest(r.mkskip, MAX_MKSKIP)))
  }

  function RememberEpoch(epochs: seq<(Key, Epoch)>, dh: Key, epoch: Epoch): seq<(Key, Epoch)> {
    Newest(Set(epochs, dh, epoch), MAX_EPOCHS)
  }

  /** The receiving chain and epoch of a header, the root left to the caller. */
  function Receiving(s: State, p: Payload, chain: ChainKey): State {
    s.(ckr := Some(chain), dhr := Some(p.dh), pqr := Some(p.pqPk),
       epochs := RememberEpoch(s.epochs, p.dh, Epoch(p.pqPk, p.pqCt)))
  }

  function FirstMix(me: Identity, p: Payload): Mix {
    Mix(Decapsulate(p.pqCt, me.kem), DH(me.signedDh, p.dh))
  }

  /** First receive: the root stays, and at most one of two simultaneous first senders ratchets. */
  function EstablishFirst(s: State, p: Payload, seed: nat): State {
    var r := Receiving(s, p, KdfRk(s.rk, FirstMix(s.me, p)).1);
    if s.cks.None? then RatchetSendStep(r, seed)
    else if s.me.dh > s.peer.dh then RatchetSendStep(r.(pn := r.ns, ns := 0), seed)
    else r
  }

  function RatchetMix(s: State, p: Payload): Mix
    requires s.dhs.Some? && s.pqs.Some?
  {
    Mix(if p.pqCt == NoCt then Zeros else Decapsulate(p.pqCt, s.pqs.value), DH(s.dhs.value, p.dh))
  }

  function DhRatchet(s: State, p: Payload, seed: nat): State
    requires s.dhs.Some? && s.pqs.Some?
  {
    var (rk, ckr) := KdfRk(s.rk, RatchetMix(s, p));
    RatchetSendStep(Receiving(s, p, ckr).(pn := s.ns, ns := 0, nr := 0, rk := rk), seed)
  }

  function OpenWith(s: State, key: MessageKey, p: Payload): Result<(State, Bytes), Error> {
    match Open(key, p.nonce, p.ciphertext)
    case None => Err(DecryptionFailed)
    case Some(padded) =>
      match Unpad(padded)
      case Err(_) => Err(BadPadding)
      case Ok(text) => Ok((s, text))
  }

  /** Reads the message at position n of the current receiving chain. */
  function ReadChain(s: State, p: Payload): Result<(State, Bytes), Error>
    requires s.Coherent() && s.ckr.Some?
  {
    match SkipMessageKeys(s, p.n)
    case Err(error) => Err(error)
    case Ok(r) =>
      if r.ckr.None? then Err(NoReceivingChain)
      else
        var (ckr, mk) := KdfCk(r.ckr.value);
        OpenWith(r.(ckr := Some(ckr), nr := r.nr + 1), mk, p)
  }

  /** Where the key of this message is filed once it has been skipped. */
  function KeyOf(p: Payload): SkipKey
    requires p.n >= 0
  {
    (p.dh, p.n)
  }

  /** A message that was skipped: its stored key is used up. */
  function ReadSkipped(s: State, p: Payload): Result<(State, Bytes), Error>
    requires p.n >= 0 && Has(s.mkskip, KeyOf(p))
  {
    OpenWith(s.(mkskip := Delete(s.mkskip, KeyOf(p))), Get(s.mkskip, KeyOf(p)), p)
  }

  /** A message under a ratchet key that is not the current one. */
  function ReadNewEpoch(s: State, p: Payload, seed: nat): Result<(State, Bytes), Error>
    requires s.Coherent()
  {
    if Has(s.epochs, p.dh) then Err(StaleEpoch)
    else if s.dhs.None? then Err(NoSession)
    else
      SkipKeepsShape(s, p.pn);
      match SkipMessageKeys(s, p.pn)
      case Err(error) => Err(error)
      case Ok(r) => ReadChain(DhRatchet(r, p, seed), p)
  }

  function DecryptPayload(s: State, p: Payload, seed: nat): Result<(State, Bytes), Error>
    requires s.Coherent() && p.n >= 0
  {
    if p.first then
      if s.ckr.Some? then Err(DuplicateFirst) else ReadChain(EstablishFirst(s, p, seed), p)
    else if Has(s.mkskip, KeyOf(p)) then ReadSkipped(s, p)
    else if s.dhr != Some(p.dh) then ReadNewEpoch(s, p, seed)
    else if s.ckr.None? then Err(NoReceivingChain)
    else ReadChain(s, p)
  }

  /** Skipping changes the receiving position and the stored keys, and nothing else. */
  lemma SkipKeepsShape(s: State, until: int)
    requires s.Coherent()
    ensures SkipMessageKeys(s, until).Ok? ==>
      var r := SkipMessageKeys(s, until).value;
      r == s.(ckr := r.ckr, nr := r.nr, mkskip := r.mkskip) && r.Coherent()
  {
    if s.ckr.Some? {
      StoreKeepsShape(s, until);
    }
  }

  lemma {:induction false} StoreKeepsShape(s: State, until: int)
    requires s.Coherent() && s.ckr.Some?
    ensures
      var r := StoreKeysUntil(s, until);
      && r == s.(ckr := r.ckr, nr := r.nr, mkskip := r.mkskip)
      && r.nr == (if s.nr < until then until else s.nr)
      && r.ckr == Some(ChainKey(s.ckr.value.chain, s.ckr.value.index + r.nr - s.nr))
    decreases until - s.nr
  {
    if s.nr < until {
      StoreKeepsShape(StoreNextKey(s), until);
    }
  }

  function Decrypt(s: State, e: Envelope, seed: nat): Result<(State, Bytes), Error>
    requires s.Coherent()
  {
    match Authenticate(s, e)
    case Err(error) => Err(error)
    case Ok(p) => DecryptPayload(s, p, seed)
  }

  // ---- Restart ----

  /** What survives a restart. */
  datatype Saved = Saved(
    peer: Identity, token: Token, rk: Root,
    dhs: Option<Key>, pqs: Option<Key>, cks: Option<ChainKey>, nextPqCt: KemCt,
    dhr: Option<Key>, pqr: Option<Key>, ckr: Option<ChainKey>,
    ns: nat, nr: nat, pn: nat,
    mkskip: seq<(SkipKey, MessageKey)>, epochs: seq<(Key, Epoch)>, firstBuilt: bool)

  function Serialize(s: State): Saved {
    Saved(s.peer, s.token, s.rk, s.dhs, s.pqs, s.cks, s.nextPqCt, s.dhr, s.pqr, s.ckr,
          s.ns, s.nr, s.pn, s.mkskip, s.epochs, s.firstBuilt)
  }

  function Restore(me: Identity, d: Saved): State {
    var epochs :=
      if d.dhr.Some? && d.pqr.Some? && !Has(d.epochs, d.dhr.value)
      then Set(d.epochs, d.dhr.value, Epoch(d.pqr.value, NoCt)) else d.epochs;
    State(me, d.peer, d.token, None, d.rk, d.dhs, d.pqs, d.cks, d.nextPqCt, d.dhr, d.pqr, d.ckr,
          d.ns, d.nr, d.pn, d.mkskip, epochs, None, !d.firstBuilt && d.ckr.None?, d.firstBuilt)
  }

  function Restart(s: State): State {
    Restore(s.me, Serialize(s))
  }
}
