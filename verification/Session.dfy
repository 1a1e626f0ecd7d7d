/**
 * The session object: every operation updates the fields in place, and its
 * postcondition ties the new fields to the operation of module Ratchet.
 */
module SessionObject {
  import opened Common
  import opened OrderedMap
  import opened Padding
  import opened Symbolic
  import opened Ratchet

  class Session {
    const me: Identity
    const peer: Identity
    const token: Token
    const otkId: Option<int>
    var rk: Root
    var dhs: Option<Key>
    var pqs: Option<Key>
    var cks: Option<ChainKey>
    var nextPqCt: KemCt
    var dhr: Option<Key>
    var pqr: Option<Key>
    var ckr: Option<ChainKey>
    var ns: nat
    var nr: nat
    var pn: nat
    var mkskip: seq<(SkipKey, MessageKey)>
    var epochs: seq<(Key, Epoch)>
    var lastSentDh: Option<Key>
    var isFirst: bool
    var firstBuilt: bool

    function View(): State
      reads this
    {
      State(me, peer, token, otkId, rk, dhs, pqs, cks, nextPqCt, dhr, pqr, ckr,
            ns, nr, pn, mkskip, epochs, lastSentDh, isFirst, firstBuilt)
    }

    constructor FromState(s: State)
      ensures View() == s
    {
      me, peer, token, otkId := s.me, s.peer, s.token, s.otkId;
      rk, dhs, pqs, cks, nextPqCt := s.rk, s.dhs, s.pqs, s.cks, s.nextPqCt;
      dhr, pqr, ckr, ns, nr, pn := s.dhr, s.pqr, s.ckr, s.ns, s.nr, s.pn;
      mkskip, epochs := s.mkskip, s.epochs;
      lastSentDh, isFirst, firstBuilt := s.lastSentDh, s.isFirst, s.firstBuilt;
    }

    /** Refuses a directory prekey that the bundle's signing key did not sign. */
    static method Establish(me: Identity, peer: Identity, otk: OneTime) returns (r: Session?)
      ensures r == null <==> NewSession(me, peer, otk).None?
      ensures r != null ==> fresh(r) && r.View() == NewSession(me, peer, otk).value
    {
      if otk.FromPeer? && otk.signer != peer.sign {
        return null;
      }
      r := new Session.FromState(NewSession(me, peer, otk).value);
    }

    method FirstSend(seed: nat)
      modifies this`firstBuilt, this`dhs, this`pqs, this`cks, this`nextPqCt, this`isFirst
      ensures View() == Ratchet.FirstSend(old(View()), seed)
    {
      firstBuilt := true;
      dhs := Some(seed);
      pqs := Some(seed);
      var x := DH(seed, peer.signedDh);
      var secret, ct := Shared(peer.kem, seed), KemCt(peer.kem, seed);
      var (_, chain) := KdfRk(rk, Mix(secret, x));
      cks := Some(chain);
      nextPqCt := ct;
      isFirst := true;
    }

    method EncryptMessage(text: Bytes, nonce: nat, seed: nat) returns (e: Envelope)
      requires View().Coherent()
      modifies this
      ensures (View(), e) == Encrypt(old(View()), text, nonce, seed)
    {
      if cks.None? {
        FirstSend(seed);
      }
      var first := isFirst;
      isFirst := false;
      var (next, mk) := KdfCk(cks.value);
      cks := Some(next);
      var n := ns;
      ns := ns + 1;
      var padded := PadMessage(text, BLOCK);
      var p := Payload(
        VERSION, me.dh, me.sign, peer.dh, dhs.value, pqs.value, nextPqCt, pn, n,
        nonce, Sealed(mk, nonce, padded[..]), first, if first && otkId.Some? then otkId.value else -1);
      e := Wire(p, first || lastSentDh != dhs);
      lastSentDh := dhs;
    }

    method StoreNext()
      requires View().Coherent() && ckr.Some?
      modifies this`ckr, this`mkskip, this`nr
      ensures View() == StoreNextKey(old(View()))
    {
      var (next, mk) := KdfCk(ckr.value);
      mkskip := Set(mkskip, (dhr.value, nr), mk);
      ckr := Some(next);
      nr := nr + 1;
    }

    /** Derives and files the key of every position before `until`. */
    method StoreKeys(until: int)
      requires View().Coherent() && ckr.Some?
      modifies this`ckr, this`mkskip, this`nr
      ensures View() == StoreKeysUntil(old(View()), until)
    {
      ghost var goal := StoreKeysUntil(View(), until);
      while nr < until
        invariant View().Coherent() && ckr.Some?
        invariant StoreKeysUntil(View(), until) == goal
      {
        StoreNext();
      }
    }

    method EvictSkipped()
      modifies this`mkskip
      ensures View() == old(View()).(mkskip := Newest(old(mkskip), MAX_MKSKIP))
    {
      while |mkskip| > MAX_MKSKIP
        invariant Newest(mkskip, MAX_MKSKIP) == Newest(old(mkskip), MAX_MKSKIP)
      {
        mkskip := mkskip[1..];
      }
    }

    method SkipKeys(until: int) returns (r: Result<(), Error>)
      requires View().Coherent()
      modifies this`ckr, this`mkskip, this`nr
      ensures match SkipMessageKeys(old(View()), until)
        case Ok(s) => r == Ok(()) && View() == s
        case Err(error) => r == Err(error)
      ensures View().Coherent()
    {
      if ckr.None? {
        return Ok(());
      }
      if until - nr > MAX_SKIP {
        return Err(TooManySkipped);
      }
      StoreKeepsShape(View(), until);
      StoreKeys(until);
      EvictSkipped();
      return Ok(());
    }

    method Remember(dh: Key, epoch: Epoch)
      modifies this`epochs
      ensures View() == old(View()).(epochs := RememberEpoch(old(epochs), dh, epoch))
    {
      epochs := Set(epochs, dh, epoch);
      ghost var all := epochs;
      while |epochs| > MAX_EPOCHS
        invariant Newest(epochs, MAX_EPOCHS) == Newest(all, MAX_EPOCHS)
      {
        epochs := epochs[1..];
      }
    }

    /** Makes the header's epoch the one messages are received on. */
    method AdoptHeader(p: Payload)
      modifies this`dhr, this`pqr, this`epochs
      ensures View() == old(View()).(
        dhr := Some(p.dh), pqr := Some(p.pqPk), epochs := RememberEpoch(old(epochs), p.dh, Epoch(p.pqPk, p.pqCt)))
    {
      dhr := Some(p.dh);
      pqr := Some(p.pqPk);
      Remember(p.dh, Epoch(p.pqPk, p.pqCt));
    }

    method SendStep(seed: nat)
      requires dhr.Some?
      modifies this`dhs, this`pqs, this`nextPqCt, this`rk, this`cks
      ensures View() == RatchetSendStep(old(View()), seed)
    {
      dhs := Some(seed);
      pqs := Some(seed);
      var x := DH(seed, dhr.value);
      var secret := Zeros;
      nextPqCt := NoCt;
      if pqr.Some? {
        secret := Shared(pqr.value, seed);
        nextPqCt := KemCt(pqr.value, seed);
      }
      var (root, chain) := KdfRk(rk, Mix(secret, x));
      rk := root;
      cks := Some(chain);
    }

    /** Starts the receiving chain from the signed prekey and the KEM key; the root stays. */
    method ReceiveFirst(p: Payload)
      modifies this`dhr, this`pqr, this`ckr, this`epochs
      ensures View() == Receiving(old(View()), p, KdfRk(old(rk), FirstMix(me, p)).1)
    {
      var x := DH(me.signedDh, p.dh);
      var kem := Decapsulate(p.pqCt, me.kem);
      var (_, chain) := KdfRk(rk, Mix(kem, x));
      ckr := Some(chain);
      AdoptHeader(p);
    }

    method EstablishFromFirst(p: Payload, seed: nat)
      requires View().Coherent()
      modifies this`dhs, this`pqs, this`nextPqCt, this`rk, this`cks,
               this`dhr, this`pqr, this`ckr, this`epochs, this`ns, this`pn
      ensures View() == EstablishFirst(old(View()), p, seed) && View().Coherent()
    {
      ReceiveFirst(p);
      if cks.None? {
        SendStep(seed);
      } else if me.dh > peer.dh {
        pn := ns;
        ns := 0;
        SendStep(seed);
      }
    }

    /** The sending chain is closed: its length becomes PN, and both positions restart. */
    method RestartCounters()
      modifies this`ns, this`nr, this`pn
      ensures View() == old(View()).(pn := old(ns), ns := 0, nr := 0)
    {
      pn := ns;
      ns := 0;
      nr := 0;
    }

    method RatchetOn(p: Payload, seed: nat)
      requires View().Coherent() && dhs.Some?
      modifies this`dhs, this`pqs, this`nextPqCt, this`rk, this`cks,
               this`dhr, this`pqr, this`ckr, this`epochs, this`ns, this`nr, this`pn
      ensures View() == DhRatchet(old(View()), p, seed) && View().Coherent()
    {
      RestartCounters();
      AdoptHeader(p);
      var x := DH(dhs.value, p.dh);
      var kem := Zeros;
      if p.pqCt != NoCt {
        kem := Decapsulate(p.pqCt, pqs.value);
      }
      var (root, chain) := KdfRk(rk, Mix(kem, x));
      rk := root;
      ckr := Some(chain);
      SendStep(seed);
    }

    /** Skips to the message's position, derives its key and opens it. */
    method ReadNext(p: Payload) returns (r: Result<Bytes, Error>)
      requires View().Coherent() && ckr.Some?
      modifies this`ckr, this`mkskip, this`nr
      ensures match ReadChain(old(View()), p)
        case Ok((s, text)) => r == Ok(text) && View() == s
        case Err(error) => r == Err(error)
    {
      SkipKeepsShape(View(), p.n);
      var skipped := SkipKeys(p.n);
      if skipped.Err? {
        return Err(skipped.error);
      }
      var (next, mk) := KdfCk(ckr.value);
      ckr := Some(next);
      nr := nr + 1;
      r := OpenSealed(mk, p);
    }

    method OpenSealed(key: MessageKey, p: Payload) returns (r: Result<Bytes, Error>)
      ensures match OpenWith(View(), key, p)
        case Ok((_, text)) => r == Ok(text)
        case Err(error) => r == Err(error)
    {
      match Open(key, p.nonce, p.ciphertext)
      case None => return Err(DecryptionFailed);
      case Some(padded) =>
        match Unpad(padded)
        case Err(_) => return Err(BadPadding);
        case Ok(text) => return Ok(text);
    }

    method ReadSkippedMessage(p: Payload) returns (r: Result<Bytes, Error>)
      requires p.n >= 0 && Has(mkskip, KeyOf(p))
      modifies this`mkskip
      ensures match ReadSkipped(old(View()), p)
        case Ok((s, text)) => r == Ok(text) && View() == s
        case Err(error) => r == Err(error)
    {
      var mk := Get(mkskip, KeyOf(p));
      mkskip := Delete(mkskip, KeyOf(p));
      r := OpenSealed(mk, p);
    }

    method EnterNewEpoch(p: Payload, seed: nat) returns (r: Result<(), Error>)
      requires View().Coherent()
      modifies this`dhs, this`pqs, this`nextPqCt, this`rk, this`cks,
               this`dhr, this`pqr, this`ckr, this`epochs, this`ns, this`nr, this`pn, this`mkskip
      ensures r.Err? ==> ReadNewEpoch(old(View()), p, seed) == Err(r.error)
      ensures r.Ok? ==> View().Coherent() && ckr.Some?
      ensures r.Ok? ==> ReadNewEpoch(old(View()), p, seed) == ReadChain(View(), p)
    {
      if Has(epochs, p.dh) {
        return Err(StaleEpoch);
      }
      if dhs.None? {
        return Err(NoSession);
      }
      SkipKeepsShape(View(), p.pn);
      r := SkipKeys(p.pn);
      if r.Ok? {
        RatchetOn(p, seed);
      }
    }

    /** Leaves whatever was changed before a failure. */
    method DecryptPayload(p: Payload, seed: nat) returns (r: Result<Bytes, Error>)
      requires View().Coherent() && p.n >= 0
      modifies this`dhs, this`pqs, this`nextPqCt, this`rk, this`cks,
               this`dhr, this`pqr, this`ckr, this`epochs, this`ns, this`nr, this`pn, this`mkskip
      ensures match Ratchet.DecryptPayload(old(View()), p, seed)
        case Ok((s, text)) => r == Ok(text) && View() == s
        case Err(error) => r == Err(error)
    {
      if p.first {
        if ckr.Some? {
          return Err(DuplicateFirst);
        }
        EstablishFromFirst(p, seed);
      } else {
        if Has(mkskip, KeyOf(p)) {
          r := ReadSkippedMessage(p);
          return;
        }
        if dhr != Some(p.dh) {
          var entered := EnterNewEpoch(p, seed);
          if entered.Err? {
            return Err(entered.error);
          }
        }
        if ckr.None? {
          return Err(NoReceivingChain);
        }
      }
      r := ReadNext(p);
    }

    method DecryptChecked(e: Envelope, seed: nat) returns (r: Result<Bytes, Error>)
      requires View().Coherent()
      modifies this`dhs, this`pqs, this`nextPqCt, this`rk, this`cks,
               this`dhr, this`pqr, this`ckr, this`epochs, this`ns, this`nr, this`pn, this`mkskip
      ensures match Ratchet.Decrypt(old(View()), e, seed)
        case Ok((s, text)) => r == Ok(text) && View() == s
        case Err(error) => r == Err(error)
    {
      match Authenticate(View(), e)
      case Err(error) => return Err(error);
      case Ok(p) => r := DecryptPayload(p, seed);
    }

    method RestoreSending(snapshot: State)
      modifies this`dhs, this`pqs, this`cks, this`nextPqCt, this`ns, this`pn
      ensures View() == old(View()).(
        dhs := snapshot.dhs, pqs := snapshot.pqs, cks := snapshot.cks,
        nextPqCt := snapshot.nextPqCt, ns := snapshot.ns, pn := snapshot.pn)
    {
      dhs, pqs, cks := snapshot.dhs, snapshot.pqs, snapshot.cks;
      nextPqCt, ns, pn := snapshot.nextPqCt, snapshot.ns, snapshot.pn;
    }

    method RestoreReceiving(snapshot: State)
      modifies this`dhr, this`pqr, this`ckr, this`nr, this`mkskip, this`epochs
      ensures View() == old(View()).(
        dhr := snapshot.dhr, pqr := snapshot.pqr, ckr := snapshot.ckr,
        nr := snapshot.nr, mkskip := snapshot.mkskip, epochs := snapshot.epochs)
    {
      dhr, pqr, ckr := snapshot.dhr, snapshot.pqr, snapshot.ckr;
      nr, mkskip, epochs := snapshot.nr, snapshot.mkskip, snapshot.epochs;
    }

    /** Atomic: a decryption that fails leaves every field as it was. */
    method Decrypt(e: Envelope, seed: nat) returns (r: Result<Bytes, Error>)
      requires View().Coherent()
      modifies this
      ensures match Ratchet.Decrypt(old(View()), e, seed)
        case Ok((s, text)) => r == Ok(text) && View() == s
        case Err(error) => r == Err(error) && View() == old(View())
    {
      var snapshot := View();
      r := DecryptChecked(e, seed);
      if r.Err? {
        RestoreSending(snapshot);
        RestoreReceiving(snapshot);
        rk := snapshot.rk;
        isFirst := snapshot.isFirst;
      }
    }

    method Save() returns (d: Saved)
      ensures d == Serialize(View())
    {
      d := Saved(peer, token, rk, dhs, pqs, cks, nextPqCt, dhr, pqr, ckr,
                 ns, nr, pn, mkskip, epochs, firstBuilt);
    }

    constructor FromSaved(me: Identity, d: Saved)
      ensures View() == Restore(me, d)
    {
      this.me := me;
      peer, token, otkId := d.peer, d.token, None;
      rk, dhs, pqs, cks, nextPqCt := d.rk, d.dhs, d.pqs, d.cks, d.nextPqCt;
      dhr, pqr, ckr, ns, nr, pn := d.dhr, d.pqr, d.ckr, d.ns, d.nr, d.pn;
      mkskip, epochs, lastSentDh := d.mkskip, d.epochs, None;
      firstBuilt, isFirst := d.firstBuilt, !d.firstBuilt && d.ckr.None?;
      new;
      if dhr.Some? && pqr.Some? && !Has(epochs, dhr.value) {
        epochs := Set(epochs, dhr.value, Epoch(pqr.value, NoCt));
      }
    }
  }
}
