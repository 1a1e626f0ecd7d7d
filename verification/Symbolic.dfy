/**
 * Ideal cryptography. A key pair is a number standing for both halves; a secret
 * is the term that computes it, so two secrets are equal only when they were
 * computed in the same way.
 */
module Symbolic {
  import opened Common

  type Key = nat

  /** An X25519 shared secret: the unordered pair of the two keys. */
  datatype DhSecret = DhSecret(lo: Key, hi: Key)

  function DH(sk: Key, pk: Key): (r: DhSecret)
    ensures r == if sk <= pk then DhSecret(sk, pk) else DhSecret(pk, sk)
  {
    if sk <= pk then DhSecret(sk, pk) else DhSecret(pk, sk)
  }

  /** An ML-KEM ciphertext made for key `to` with the coins of one encapsulation; NoCt is the empty byte string. */
  datatype KemCt = NoCt | KemCt(to: Key, coin: nat)

  /** ML-KEM never fails: a ciphertext made for another key gives an unrelated secret. */
  datatype KemSecret = Zeros | Shared(to: Key, coin: nat) | Rejected(holder: Key, ct: KemCt)

  function Decapsulate(ct: KemCt, sk: Key): KemSecret {
    if ct.KemCt? && ct.to == sk then Shared(sk, ct.coin) else Rejected(sk, ct)
  }

  /** The hash of a KEM secret and a DH secret. */
  datatype Mix = Mix(kem: KemSecret, dh: DhSecret)

  datatype Root =
    | Initial(staticSs: DhSecret, signedSs: DhSecret)
    | WithOneTime(bootstrap: Root, otkSs: DhSecret)
    | Advanced(previous: Root, mix: Mix)

  /** A chain is named by the KDF_RK inputs that started it; its keys by their position. */
  datatype Chain = Chain(root: Root, mix: Mix)
  datatype ChainKey = ChainKey(chain: Chain, index: nat)
  datatype MessageKey = MessageKey(chain: Chain, index: nat)

  function KdfRk(rk: Root, mix: Mix): (Root, ChainKey) {
    (Advanced(rk, mix), ChainKey(Chain(rk, mix), 0))
  }

  function KdfCk(ck: ChainKey): (ChainKey, MessageKey) {
    (ChainKey(ck.chain, ck.index + 1), MessageKey(ck.chain, ck.index))
  }

  /** How many times a root was advanced. */
  function Depth(r: Root): nat {
    match r
    case Advanced(previous, _) => 1 + Depth(previous)
    case _ => 0
  }

  /** A secretbox, or bytes no honest party sealed. */
  datatype Ciphertext = Sealed(key: MessageKey, nonce: nat, padded: Bytes) | Forged(bytes: nat)

  function Open(key: MessageKey, nonce: nat, c: Ciphertext): Option<Bytes> {
    if c.Sealed? && c.key == key && c.nonce == nonce then Some(c.padded) else None
  }

  /** The secret halves of one party; each also names its public half. */
  datatype Identity = Identity(dh: Key, sign: Key, signedDh: Key, kem: Key)
}
