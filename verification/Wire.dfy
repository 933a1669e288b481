/** The binary wire format: a four-byte header and ten payload layouts. `None` stands for an error
    raised while packing or parsing. */
module Wire {

  import opened Basics
  import Queues

  const PROTOCOL_VERSION: byte := 1
  const MAX_PAYLOAD_SIZE: nat := 65535
  const HEADER_SIZE: nat := 4

  /** An address by its packed bytes: four for IPv4, sixteen for IPv6. */
  datatype IpAddress = IPv4(packed: Bytes) | IPv6(packed: Bytes)

  datatype Payload =
    | Hello(identityKey: Bytes, ephemeralKey: Bytes, nonce: Bytes, signature: Bytes)
    | HelloAck(identityKey: Bytes, ephemeralKey: Bytes, sessionId: Bytes, nonce: Bytes, signature: Bytes)
    | Data(sessionId: Bytes, number: nat, ciphertext: Bytes, tag: Bytes)
    | Ack(sessionId: Bytes, number: nat)
    | EndpointUpdate(peerId: Bytes, ip: IpAddress, port: nat, version: nat, signature: Bytes)
    | ResolveRequest(requestId: Bytes, target: Bytes, ttl: nat)
    | Ping(sessionId: Bytes, pingId: Bytes)
    | Pong(sessionId: Bytes, pingId: Bytes)
    | Sync(sessionId: Bytes, number: nat)
    | AppAck(sessionId: Bytes, number: nat)

  function CodeOf(p: Payload): (code: byte)
    ensures 1 <= code <= 10
  {
    match p
    case Hello(_, _, _, _) => 1
    case HelloAck(_, _, _, _, _) => 2
    case Data(_, _, _, _) => 3
    case Ack(_, _) => 4
    case EndpointUpdate(_, _, _, _, _) => 5
    case ResolveRequest(_, _, _) => 6
    case Ping(_, _) => 7
    case Pong(_, _) => 8
    case Sync(_, _) => 9
    case AppAck(_, _) => 10
  }

  function Clamp(ttl: nat): (t: nat)
    ensures t <= MAX_TTL
  {
    if ttl <= MAX_TTL then ttl else MAX_TTL
  }

  function Numbered(sessionId: Bytes, number: nat): Option<Bytes> {
    if number >= TWO_32 then None else Some(sessionId + U32(number))
  }

  function Pack(p: Payload): Option<Bytes> {
    match p
    case Hello(ik, ek, nonce, sig) => Some(ik + ek + nonce + sig)
    case HelloAck(ik, ek, sid, nonce, sig) => Some(ik + ek + sid + nonce + sig)
    case Data(sid, n, ct, tag) =>
      if n >= TWO_32 || |ct| >= TWO_32 then None else Some(sid + U32(n) + U32(|ct|) + ct + tag)
    case Ack(sid, n) => Numbered(sid, n)
    case EndpointUpdate(peer, ip, port, version, sig) =>
      if port >= TWO_16 || version >= TWO_64 then None
      else Some(peer + [if ip.IPv4? then 4 else 6] + ip.packed + U16(port) + U64(version) + sig)
    case ResolveRequest(rid, target, ttl) => Some(rid + target + [Clamp(ttl)])
    case Ping(sid, id) => Some(sid + id)
    case Pong(sid, id) => Some(sid + id)
    case Sync(sid, n) => Numbered(sid, n)
    case AppAck(sid, n) => Numbered(sid, n)
  }

  function UnpackData(d: Bytes): Option<Payload> {
    if |d| < 28 then None
    else
      var length := Read32(d[12..16]);
      if |d| < 16 + length + 16 then None
      else Some(Data(d[0..8], Read32(d[8..12]), d[16..16 + length], d[16 + length..16 + length + 16]))
  }

  /** What follows the address in an endpoint update. */
  function UnpackEndpointTail(d: Bytes, ip: IpAddress, offset: nat): Option<Payload>
    requires 32 <= |d|
  {
    if |d| < offset + 2 + 8 + 64 then None
    else Some(EndpointUpdate(d[0..32], ip, Read16(d[offset..offset + 2]), Read64(d[offset + 2..offset + 10]),
                             d[offset + 10..offset + 74]))
  }

  function UnpackEndpoint(d: Bytes): Option<Payload> {
    if |d| < 33 then None
    else if d[32] == 4 then (if |d| < 37 then None else UnpackEndpointTail(d, IPv4(d[33..37]), 37))
    else if d[32] == 6 then (if |d| < 49 then None else UnpackEndpointTail(d, IPv6(d[33..49]), 49))
    else None
  }

  function Unpack(code: byte, d: Bytes): Option<Payload> {
    if code == 1 then
      if |d| < 144 then None else Some(Hello(d[0..32], d[32..64], d[64..80], d[80..144]))
    else if code == 2 then
      if |d| < 152 then None else Some(HelloAck(d[0..32], d[32..64], d[64..72], d[72..88], d[88..152]))
    else if code == 3 then UnpackData(d)
    else if code == 4 then
      if |d| < 12 then None else Some(Ack(d[0..8], Read32(d[8..12])))
    else if code == 5 then UnpackEndpoint(d)
    else if code == 6 then
      if |d| < 49 then None else Some(ResolveRequest(d[0..16], d[16..48], Clamp(d[48])))
    else if code == 7 then
      if |d| < 16 then None else Some(Ping(d[0..8], d[8..16]))
    else if code == 8 then
      if |d| < 16 then None else Some(Pong(d[0..8], d[8..16]))
    else if code == 9 then
      if |d| < 12 then None else Some(Sync(d[0..8], Read32(d[8..12])))
    else if code == 10 then
      if |d| < 12 then None else Some(AppAck(d[0..8], Read32(d[8..12])))
    else None
  }

  datatype Packet = Packet(version: byte, code: byte, payload: Bytes)

  function Serialize(p: Packet): Option<Bytes> {
    if |p.payload| >= TWO_16 then None else Some([p.version, p.code] + U16(|p.payload|) + p.payload)
  }

  function Deserialize(data: Bytes): Option<Packet> {
    if |data| < HEADER_SIZE then None
    else
      var length := Read16(data[2..4]);
      if data[0] != PROTOCOL_VERSION || !(1 <= data[1] <= 10) || |data| - HEADER_SIZE < length then None
      else Some(Packet(data[0], data[1], data[HEADER_SIZE..HEADER_SIZE + length]))
  }

  /** Every field has its declared length and every number its declared range. */
  predicate WellFormed(p: Payload) {
    match p
    case Hello(ik, ek, nonce, sig) => |ik| == 32 && |ek| == 32 && |nonce| == 16 && |sig| == 64
    case HelloAck(ik, ek, sid, nonce, sig) => |ik| == 32 && |ek| == 32 && |sid| == 8 && |nonce| == 16 && |sig| == 64
    case Data(sid, n, ct, tag) => |sid| == 8 && n < TWO_32 && |ct| < TWO_32 && |tag| == 16
    case Ack(sid, n) => |sid| == 8 && n < TWO_32
    case EndpointUpdate(peer, ip, port, version, sig) =>
      |peer| == 32 && |ip.packed| == (if ip.IPv4? then 4 else 16) && port < TWO_16 && version < TWO_64 && |sig| == 64
    case ResolveRequest(rid, target, ttl) => |rid| == 16 && |target| == 32 && ttl <= MAX_TTL
    case Ping(sid, id) => |sid| == 8 && |id| == 8
    case Pong(sid, id) => |sid| == 8 && |id| == 8
    case Sync(sid, n) => |sid| == 8 && n < TWO_32
    case AppAck(sid, n) => |sid| == 8 && n < TWO_32
  }

  // ---- packing, then parsing

  lemma NumberedParts(sid: Bytes, n: nat, tail: Bytes)
    requires |sid| == 8 && n < TWO_32
    ensures var d := sid + U32(n) + tail; d[0..8] == sid && Read32(d[8..12]) == n
  {
    var d := sid + U32(n) + tail;
    assert d[8..12] == U32(n);
    Read32U32(n);
  }

  lemma DataParts(p: Payload, tail: Bytes)
    requires p.Data? && WellFormed(p)
    ensures UnpackData(Pack(p).value + tail) == Some(p)
  {
    var d := p.sessionId + U32(p.number) + U32(|p.ciphertext|) + p.ciphertext + p.tag + tail;
    assert d == Pack(p).value + tail;
    var n := |p.ciphertext|;
    assert d[0..8] == p.sessionId && d[8..12] == U32(p.number) && d[12..16] == U32(n);
    assert d[16..16 + n] == p.ciphertext && d[16 + n..16 + n + 16] == p.tag;
    Read32U32(p.number);
    Read32U32(n);
  }

  lemma EndpointParts(p: Payload, tail: Bytes)
    requires p.EndpointUpdate? && WellFormed(p)
    ensures UnpackEndpoint(Pack(p).value + tail) == Some(p)
  {
    var kind: Bytes := [if p.ip.IPv4? then 4 else 6];
    var d := p.peerId + kind + p.ip.packed + U16(p.port) + U64(p.version) + p.signature + tail;
    assert d == Pack(p).value + tail;
    var o := 33 + |p.ip.packed|;
    assert d[0..32] == p.peerId && d[32] == kind[0] && d[33..o] == p.ip.packed;
    assert d[o..o + 2] == U16(p.port);
    assert d[o + 2..o + 10] == U64(p.version);
    assert d[o + 10..o + 74] == p.signature;
    Read16U16(p.port);
    Read64U64(p.version);
  }

  lemma HelloParts(p: Payload, tail: Bytes)
    requires (p.Hello? || p.HelloAck?) && WellFormed(p)
    ensures Unpack(CodeOf(p), Pack(p).value + tail) == Some(p)
  {
    var d := Pack(p).value + tail;
    assert d[0..32] == p.identityKey && d[32..64] == p.ephemeralKey;
    if p.Hello? {
      assert d[64..80] == p.nonce && d[80..144] == p.signature;
    } else {
      assert d[64..72] == p.sessionId && d[72..88] == p.nonce && d[88..152] == p.signature;
    }
  }

  /** Parsing undoes packing, whatever bytes follow. */
  lemma UnpackPack(p: Payload, tail: Bytes)
    requires WellFormed(p)
    ensures Pack(p).Some? && Unpack(CodeOf(p), Pack(p).value + tail) == Some(p)
  {
    var d := Pack(p).value + tail;
    match p {
      case Hello(_, _, _, _) => HelloParts(p, tail);
      case HelloAck(_, _, _, _, _) => HelloParts(p, tail);
      case Data(_, _, _, _) => DataParts(p, tail);
      case EndpointUpdate(_, _, _, _, _) => EndpointParts(p, tail);
      case ResolveRequest(rid, target, ttl) => assert d[0..16] == rid && d[16..48] == target && d[48] == ttl;
      case Ping(sid, id) => assert d[0..8] == sid && d[8..16] == id;
      case Pong(sid, id) => assert d[0..8] == sid && d[8..16] == id;
      case Ack(sid, n) => NumberedParts(sid, n, tail);
      case Sync(sid, n) => NumberedParts(sid, n, tail);
      case AppAck(sid, n) => NumberedParts(sid, n, tail);
    }
  }

  lemma DeserializeSerialize(p: Packet, tail: Bytes)
    requires p.version == PROTOCOL_VERSION && 1 <= p.code <= 10 && |p.payload| <= MAX_PAYLOAD_SIZE
    ensures Serialize(p).Some? && Deserialize(Serialize(p).value + tail) == Some(p)
  {
    var d := [p.version, p.code] + U16(|p.payload|) + p.payload + tail;
    assert d == Serialize(p).value + tail;
    assert d[2..4] == U16(|p.payload|) && d[4..4 + |p.payload|] == p.payload;
    Read16U16(|p.payload|);
  }

  /** Wire round trip: packing a payload of any of the ten types, framing it, appending any bytes and
      parsing gives the payload back. */
  lemma WireRoundTrip(p: Payload, tail: Bytes)
    requires WellFormed(p) && |Pack(p).value| <= MAX_PAYLOAD_SIZE
    ensures var frame := Serialize(Packet(PROTOCOL_VERSION, CodeOf(p), Pack(p).value));
            frame.Some? &&
            var packet := Deserialize(frame.value + tail);
            packet.Some? && Unpack(packet.value.code, packet.value.payload) == Some(p)
  {
    DeserializeSerialize(Packet(PROTOCOL_VERSION, CodeOf(p), Pack(p).value), tail);
    UnpackPack(p, []);
    assert Pack(p).value + [] == Pack(p).value;
  }

  /** A DATA packet fits a frame exactly when its text, which the sealing makes no longer, is framed. */
  lemma DataFrames(sid: Bytes, number: nat, ciphertext: Bytes, tag: Bytes)
    requires |sid| == 8 && number < TWO_32 && |tag| == 16 && |ciphertext| < TWO_32
    ensures var payload := Pack(Data(sid, number, ciphertext, tag));
            payload.Some? &&
            (Serialize(Packet(PROTOCOL_VERSION, CodeOf(Data(sid, number, ciphertext, tag)), payload.value)).Some? <==> Queues.Framed(ciphertext))
  {
    assert |U32(number)| == 4 && |U32(|ciphertext|)| == 4;
  }

  // ---- parsing, then packing

  /** A hop count above the limit, the one thing parsing changes. */
  predicate Clamped(code: byte, d: Bytes) {
    code == 6 && |d| > 48 && d[48] > MAX_TTL
  }

  /** The length each code demands of its payload; whatever comes after it is not looked at. */
  function Demanded(code: byte, d: Bytes): nat
    requires Unpack(code, d).Some?
  {
    if code == 1 then 144
    else if code == 2 then 152
    else if code == 3 then 32 + Read32(d[12..16])
    else if code == 5 then (if d[32] == 4 then 111 else 123)
    else if code == 6 then 49
    else if code == 7 || code == 8 then 16
    else 12
  }

  lemma DataBack(d: Bytes)
    requires UnpackData(d).Some?
    ensures |Pack(UnpackData(d).value).value| == 32 + Read32(d[12..16])
    ensures Pack(UnpackData(d).value).Some? && Pack(UnpackData(d).value).value <= d && UnpackData(d).value.Data?
  {
    var n := Read32(d[12..16]);
    U32Read32(d[8..12]);
    U32Read32(d[12..16]);
    assert d[0..8] + d[8..12] + d[12..16] + d[16..16 + n] + d[16 + n..16 + n + 16] == d[..16 + n + 16];
  }

  lemma EndpointTailBack(d: Bytes, ip: IpAddress, o: nat)
    requires 33 <= |d| && o == 33 + |ip.packed| <= |d| && ip.packed == d[33..o] && d[32] == if ip.IPv4? then 4 else 6
    requires UnpackEndpointTail(d, ip, o).Some?
    ensures Pack(UnpackEndpointTail(d, ip, o).value).Some? && Pack(UnpackEndpointTail(d, ip, o).value).value <= d
    ensures UnpackEndpointTail(d, ip, o).value.EndpointUpdate? && |Pack(UnpackEndpointTail(d, ip, o).value).value| == o + 74
  {
    U16Read16(d[o..o + 2]);
    U64Read64(d[o + 2..o + 10]);
    assert d[0..32] + [d[32]] + d[33..o] + d[o..o + 2] + d[o + 2..o + 10] + d[o + 10..o + 74] == d[..o + 74];
  }

  lemma EndpointBack(d: Bytes)
    requires UnpackEndpoint(d).Some?
    ensures Pack(UnpackEndpoint(d).value).Some? && Pack(UnpackEndpoint(d).value).value <= d
    ensures UnpackEndpoint(d).value.EndpointUpdate? && |Pack(UnpackEndpoint(d).value).value| == if d[32] == 4 then 111 else 123
  {
    if d[32] == 4 {
      EndpointTailBack(d, IPv4(d[33..37]), 37);
    } else {
      EndpointTailBack(d, IPv6(d[33..49]), 49);
    }
  }

  lemma FixedBack(code: byte, d: Bytes)
    requires code in {1, 2, 7, 8} && Unpack(code, d).Some?
    ensures Pack(Unpack(code, d).value).Some? && Pack(Unpack(code, d).value).value <= d
  {
    if code == 1 {
      assert d[0..32] + d[32..64] + d[64..80] + d[80..144] == d[..144];
    } else if code == 2 {
      assert d[0..32] + d[32..64] + d[64..72] + d[72..88] + d[88..152] == d[..152];
    } else {
      assert d[0..8] + d[8..16] == d[..16];
    }
  }

  lemma NumberedBack(code: byte, d: Bytes)
    requires code in {4, 9, 10} && Unpack(code, d).Some?
    ensures Pack(Unpack(code, d).value).Some? && Pack(Unpack(code, d).value).value <= d
  {
    U32Read32(d[8..12]);
    assert d[0..8] + d[8..12] == d[..12];
  }

  lemma ResolveBack(d: Bytes)
    requires Unpack(6, d).Some?
    ensures Pack(Unpack(6, d).value) == Some(d[..48] + [Clamp(d[48])])
    ensures Pack(Unpack(6, d).value).value <= d <==> !Clamped(6, d)
  {
    assert d[0..16] + d[16..48] == d[..48];
    var q := d[..48] + [Clamp(d[48])];
    assert q[48] == Clamp(d[48]);
    if !Clamped(6, d) {
      assert q == d[..49];
    }
  }

  /** Accepted payload bytes re-pack to a prefix of themselves, if and only if no hop count was cut;
      when one was, only that byte differs. */
  lemma PackUnpack(code: byte, d: Bytes)
    requires Unpack(code, d).Some?
    ensures Pack(Unpack(code, d).value).Some? && CodeOf(Unpack(code, d).value) == code
    ensures Pack(Unpack(code, d).value).value <= d <==> !Clamped(code, d)
    ensures Clamped(code, d) ==> Pack(Unpack(code, d).value).value == d[..48] + [MAX_TTL]
    ensures |Pack(Unpack(code, d).value).value| == Demanded(code, d) <= |d|
  {
    if code == 3 {
      DataBack(d);
    } else if code == 5 {
      EndpointBack(d);
    } else if code == 6 {
      ResolveBack(d);
    } else if code in {4, 9, 10} {
      NumberedBack(code, d);
    } else {
      FixedBack(code, d);
    }
  }

  /** Accepted packets re-serialize to a prefix of the bytes received. */
  lemma SerializeDeserialize(data: Bytes)
    requires Deserialize(data).Some?
    ensures Serialize(Deserialize(data).value).Some? && Serialize(Deserialize(data).value).value <= data
  {
    var n := Read16(data[2..4]);
    U16Read16(data[2..4]);
    assert [data[0], data[1]] + data[2..4] + data[4..4 + n] == data[..4 + n];
  }

  /** Taking a packet apart down to its payload fields and putting it together again gives a prefix of
      the bytes received, if and only if no hop count was cut and the payload has exactly the length its
      code demands. */
  lemma FullReserialization(data: Bytes)
    requires Deserialize(data).Some? && Unpack(Deserialize(data).value.code, Deserialize(data).value.payload).Some?
    ensures var packet := Deserialize(data).value;
            var q := Pack(Unpack(packet.code, packet.payload).value);
            q.Some? && Serialize(packet.(payload := q.value)).Some? &&
            (Serialize(packet.(payload := q.value)).value <= data <==>
             !Clamped(packet.code, packet.payload) && |packet.payload| == Demanded(packet.code, packet.payload))
  {
    var packet := Deserialize(data).value;
    PackUnpack(packet.code, packet.payload);
    SerializeDeserialize(data);
    var q := Pack(Unpack(packet.code, packet.payload).value).value;
    var again := Serialize(packet.(payload := q)).value;
    assert again[2..4] == U16(|q|) && again[4..] == q;
    Read16U16(|q|);
    if again <= data {
      assert again[2..4] == data[2..4] && again[4..] == data[4..4 + |q|];
      assert |q| == |packet.payload|;
      assert q == packet.payload;
    }
  }
}
