/** Authenticated encryption as terms: a ciphertext with its tag is the value that was sealed,
    and opening it succeeds only for the key, nonce and associated data it was sealed under. */
module Aead {

  import opened Basics

  const DATA_TYPE: byte := 3

  datatype Sealed = Sealed(key: Bytes, nonce: Bytes, aad: Bytes, plaintext: Bytes)

  /** The 12-byte nonce: session id, then the sequence number as four bytes. */
  function BuildNonce(sessionId: Bytes, number: nat): Bytes
    requires number < TWO_32
  {
    sessionId + U32(number)
  }

  /** Associated data of a DATA packet: packet type, then the sequence number. */
  function DataAad(number: nat): Bytes
    requires number < TWO_32
  {
    [DATA_TYPE] + U32(number)
  }

  function Open(key: Bytes, sealed: Sealed, nonce: Bytes, aad: Bytes): Option<Bytes> {
    if sealed.key == key && sealed.nonce == nonce && sealed.aad == aad then Some(sealed.plaintext) else None
  }

  datatype DataPacket = DataPacket(sessionId: Bytes, number: nat, sealed: Sealed)

  /** The DATA packet that carries `plaintext` under `number` in one session. */
  function SealData(sessionId: Bytes, key: Bytes, number: nat, plaintext: Bytes): DataPacket
    requires number < TWO_32
  {
    DataPacket(sessionId, number, Sealed(key, BuildNonce(sessionId, number), DataAad(number), plaintext))
  }

  /** Within one session different numbers below 2^32 give different nonces. */
  lemma NonceInjective(sessionId: Bytes, m: nat, n: nat)
    requires m < TWO_32 && n < TWO_32
    requires BuildNonce(sessionId, m) == BuildNonce(sessionId, n)
    ensures m == n
  {
    assert BuildNonce(sessionId, m)[|sessionId|..] == U32(m);
    assert BuildNonce(sessionId, n)[|sessionId|..] == U32(n);
    Read32U32(m);
    Read32U32(n);
  }
}
