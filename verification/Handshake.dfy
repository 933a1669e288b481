/** HELLO and HELLO_ACK as functions of the packets, the identities and the fresh random values. */
module Handshakes {

  import opened Basics

  /** The primitives: SHA-256 of an identity key, X25519 (public key and exchange) and HKDF (input
      key material and salt). */
  datatype Suite = Suite(peerIdOf: Bytes -> Bytes, publicOf: Bytes -> Bytes,
                         exchange: (Bytes, Bytes) -> Bytes, hkdf: (Bytes, Bytes) -> Bytes)

  /** What the claims need of them: section 6.1 of RFC 7748 (both ends compute one secret from
      32-byte public keys), and peer ids that tell identities apart. */
  ghost predicate Sound(c: Suite) {
    && (forall a, b :: c.exchange(a, c.publicOf(b)) == c.exchange(b, c.publicOf(a)))
    && (forall a :: |c.publicOf(a)| == 32)
    && (forall a, b :: c.peerIdOf(a) == c.peerIdOf(b) ==> a == b)
  }

  /** A signature names its signer (by identity public key) and the bytes signed. */
  datatype Signature = Signature(signer: Bytes, message: Bytes)

  datatype Hello = Hello(identityKey: Bytes, ephemeralKey: Bytes, nonce: Bytes, signature: Signature)

  datatype HelloAck = HelloAck(identityKey: Bytes, ephemeralKey: Bytes, sessionId: Bytes, nonce: Bytes,
                               signature: Signature)

  datatype HandshakeState = HandshakeState(ephemeralPrivate: Bytes, ephemeralPublic: Bytes, nonce: Bytes)

  datatype SessionKeys = SessionKeys(key: Bytes, sessionId: Bytes, peer: Bytes, peerKey: Bytes)

  function HelloSigned(ephemeral: Bytes, nonce: Bytes): Bytes {
    ephemeral + nonce
  }

  /** The responder signs its session id, both ephemeral keys and the initiator's nonce. */
  function AckSigned(sessionId: Bytes, responderEphemeral: Bytes, initiatorEphemeral: Bytes, initiatorNonce: Bytes): Bytes {
    sessionId + responderEphemeral + initiatorEphemeral + initiatorNonce
  }

  function SessionKey(c: Suite, secret: Bytes, initiatorNonce: Bytes, responderNonce: Bytes): Bytes {
    c.hkdf(secret, initiatorNonce + responderNonce)
  }

  function CreateHello(c: Suite, identity: Bytes, ephemeralPrivate: Bytes, nonce: Bytes): (Hello, HandshakeState) {
    var ephemeral := c.publicOf(ephemeralPrivate);
    (Hello(identity, ephemeral, nonce, Signature(identity, HelloSigned(ephemeral, nonce))),
     HandshakeState(ephemeralPrivate, ephemeral, nonce))
  }

  /** The answer to a HELLO that passed the checks. */
  function Respond(c: Suite, hello: Hello, identity: Bytes, ephemeralPrivate: Bytes, nonce: Bytes, sessionId: Bytes)
    : (HelloAck, SessionKeys)
  {
    var ephemeral := c.publicOf(ephemeralPrivate);
    var secret := c.exchange(ephemeralPrivate, hello.ephemeralKey);
    (HelloAck(identity, ephemeral, sessionId, nonce,
              Signature(identity, AckSigned(sessionId, ephemeral, hello.ephemeralKey, hello.nonce))),
     SessionKeys(SessionKey(c, secret, hello.nonce, nonce), sessionId, c.peerIdOf(hello.identityKey), hello.identityKey))
  }

  function ProcessHello(c: Suite, hello: Hello, known: set<Bytes>, identity: Bytes,
                        ephemeralPrivate: Bytes, nonce: Bytes, sessionId: Bytes): Option<(HelloAck, SessionKeys)>
  {
    if c.peerIdOf(hello.identityKey) !in known then None
    else if hello.signature != Signature(hello.identityKey, HelloSigned(hello.ephemeralKey, hello.nonce)) then None
    else Some(Respond(c, hello, identity, ephemeralPrivate, nonce, sessionId))
  }

  function ProcessHelloAck(c: Suite, ack: HelloAck, state: HandshakeState, known: set<Bytes>): Option<SessionKeys> {
    if c.peerIdOf(ack.identityKey) !in known then None
    else if ack.signature != Signature(ack.identityKey,
                                       AckSigned(ack.sessionId, ack.ephemeralKey, state.ephemeralPublic, state.nonce)) then None
    else
      var secret := c.exchange(state.ephemeralPrivate, ack.ephemeralKey);
      Some(SessionKeys(SessionKey(c, secret, state.nonce, ack.nonce), ack.sessionId,
                       c.peerIdOf(ack.identityKey), ack.identityKey))
  }

  /** Fields of fixed length can be read back from the signed bytes. */
  lemma AckSignedParts(sid: Bytes, re: Bytes, ie: Bytes, n: Bytes, sid': Bytes, re': Bytes, ie': Bytes, n': Bytes)
    requires |sid| == |sid'| && |re| == |re'| && |ie| == |ie'|
    requires AckSigned(sid, re, ie, n) == AckSigned(sid', re', ie', n')
    ensures sid == sid' && re == re' && ie == ie' && n == n'
  {
    var m, m' := AckSigned(sid, re, ie, n), AckSigned(sid', re', ie', n');
    var a, b, e := |sid|, |sid| + |re|, |sid| + |re| + |ie|;
    assert sid == m[..a] && re == m[a..b] && ie == m[b..e] && n == m[e..];
    assert sid' == m'[..a] && re' == m'[a..b] && ie' == m'[b..e] && n' == m'[e..];
  }

  /** A handshake between two nodes that know each other completes, and both ends hold the same
      session id and key with the identities crossed. */
  lemma HandshakeCompletes(c: Suite, alice: Bytes, bob: Bytes, a: Bytes, aNonce: Bytes,
                           b: Bytes, bNonce: Bytes, sid: Bytes, aliceKnows: set<Bytes>, bobKnows: set<Bytes>)
    requires Sound(c) && c.peerIdOf(bob) in aliceKnows && c.peerIdOf(alice) in bobKnows
    ensures var (hello, state) := CreateHello(c, alice, a, aNonce);
            var answer := ProcessHello(c, hello, bobKnows, bob, b, bNonce, sid);
            answer.Some? &&
            var (ack, bobKeys) := answer.value;
            ProcessHelloAck(c, ack, state, aliceKnows) ==
              Some(SessionKeys(bobKeys.key, bobKeys.sessionId, c.peerIdOf(bob), bob)) &&
            bobKeys.sessionId == sid && bobKeys.peer == c.peerIdOf(alice) && bobKeys.peerKey == alice
  {
    assert c.exchange(a, c.publicOf(b)) == c.exchange(b, c.publicOf(a));
  }

  /** An initiator that accepts an acknowledgement carrying a responder's genuine signature holds
      the responder's session id for its own HELLO, with the identities crossed. The signed bytes
      leave out the responder's nonce: the two keys are equal exactly when that nonce arrived
      unchanged, if HKDF maps different salts to different keys. */
  lemma AcceptedAckBinds(c: Suite, hello: Hello, responder: Bytes, b: Bytes, bNonce: Bytes, sid: Bytes,
                         initiator: Bytes, a: Bytes, aNonce: Bytes, ack: HelloAck, known: set<Bytes>)
    requires Sound(c)
    requires forall k, salt, salt' :: c.hkdf(k, salt) == c.hkdf(k, salt') ==> salt == salt'
    requires |sid| == |ack.sessionId| == 8 && |ack.ephemeralKey| == |hello.ephemeralKey| == 32
    requires |ack.nonce| == |bNonce| == 16
    requires ack.signature == Respond(c, hello, responder, b, bNonce, sid).0.signature
    requires ProcessHelloAck(c, ack, CreateHello(c, initiator, a, aNonce).1, known).Some?
    ensures var mine := ProcessHelloAck(c, ack, CreateHello(c, initiator, a, aNonce).1, known).value;
            var theirs := Respond(c, hello, responder, b, bNonce, sid).1;
            && hello.ephemeralKey == c.publicOf(a) && hello.nonce == aNonce
            && mine.sessionId == theirs.sessionId && mine.peer == c.peerIdOf(responder)
            && (mine.key == theirs.key <==> ack.nonce == bNonce)
  {
    AckSignedParts(sid, c.publicOf(b), hello.ephemeralKey, hello.nonce,
                   ack.sessionId, ack.ephemeralKey, c.publicOf(a), aNonce);
    assert c.exchange(a, c.publicOf(b)) == c.exchange(b, c.publicOf(a));
    if ack.nonce != bNonce {
      assert (aNonce + ack.nonce)[|aNonce|..] == ack.nonce && (aNonce + bNonce)[|aNonce|..] == bNonce;
    }
  }
}
