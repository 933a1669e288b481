/** One sender, one receiver, one session, and a network that may lose, repeat and reorder packets
    and deliver a genuine ciphertext under any header. Whatever was ever put on the wire stays
    available for delivery; losing a packet is never delivering it. */
module Delivery {

  import opened Basics
  import opened OrderedDicts
  import opened Aead
  import opened Sessions
  import opened Queues
  import opened Synchronisation

  datatype BuildRecord = BuildRecord(id: MessageId, number: nat, plaintext: Bytes)

  /** The two ends, the network, and the history the claims speak of: the numbers messages carried
      into the session (`carried`), where the counters started (`base`, `floor`), the messages
      numbered since (`builds`), what the receiver accepted, and the messages that were already
      settled when the session began and have not been sent since. */
  datatype System = System(
    queue: Queue, sender: SessionState, receiver: SessionState,
    data: set<DataPacket>, acks: set<nat>, appAcks: set<nat>, syncs: set<nat>,
    carried: map<nat, Bytes>, base: nat, floor: nat,
    builds: seq<BuildRecord>, accepted: seq<Item>, settled: set<MessageId>)

  datatype Event =
    | Enqueue(id: MessageId, text: Bytes)
    | Send(id: MessageId, now: real)          // first send, flush after a handshake, or retry
    | Timeout(id: MessageId)
    | DataArrives(packet: DataPacket)
    | SendAck(number: nat)
    | SendAppAck(number: nat)
    | AckArrives(number: nat)
    | AppAckArrives(number: nat)
    | SendSync
    | SyncArrives(highest: nat, now: real)

  ghost predicate WasAccepted(s: System, number: nat) {
    exists i :: 0 <= i < |s.accepted| && s.accepted[i].number == number
  }

  /** A packet the network can deliver: any header around a ciphertext this sender made, or a
      ciphertext under some other key. */
  ghost predicate Deliverable(s: System, p: DataPacket) {
    p.sealed.key != s.sender.key || exists o :: o in s.data && o.sealed == p.sealed
  }

  ghost predicate Enabled(s: System, e: Event) {
    match e
    case Enqueue(id, _) => id !in s.queue.at
    case DataArrives(p) => Deliverable(s, p)
    case SendAck(n) => WasAccepted(s, n)
    case SendAppAck(n) => WasAccepted(s, n)
    case AckArrives(n) => n in s.acks
    case AppAckArrives(n) => n in s.appAcks
    case SyncArrives(h, _) => h in s.syncs
    case _ => true
  }

  function AfterSend(s: System, id: MessageId, now: real): System {
    var out := Build(s.queue, id, s.sender, now);
    match out.result
    case Built(p, n) =>
      s.(queue := out.queue, sender := out.session, data := if Framed(p.sealed.plaintext) then s.data + {p} else s.data,
         settled := s.settled - {id}, builds := s.builds + [BuildRecord(id, n, p.sealed.plaintext)])
    case _ => s.(queue := out.queue, sender := out.session)
  }

  function AfterData(s: System, p: DataPacket): System {
    var text := Decrypted(p, s.receiver);
    if p.sessionId == s.receiver.sessionId && text.Some? then
      s.(receiver := AfterDecrypt(p, s.receiver), accepted := s.accepted + [Item(p.number, text.value)])
    else s
  }

  function AfterSync(s: System, highest: nat, now: real): System
    requires s.queue.Wf()
  {
    var out := SyncFrom(s.queue, s.sender, highest, now, 0);
    s.(queue := out.queue, data := s.data + (set p | p in out.packets))
  }

  function Next(s: System, e: Event): System
    requires s.queue.Wf()
  {
    match e
    case Enqueue(id, text) => s.(queue := Enqueued(s.queue, id, s.sender.peer, text))
    case Send(id, now) => AfterSend(s, id, now)
    case Timeout(id) => s.(queue := TimedOut(s.queue, id))
    case DataArrives(p) => AfterData(s, p)
    case SendAck(n) => s.(acks := s.acks + {n})
    case SendAppAck(n) => s.(appAcks := s.appAcks + {n})
    case AckArrives(n) => s.(queue := Acked(s.queue, n))
    case AppAckArrives(n) => s.(queue := AppAcked(s.queue, s.sender.peer, n))
    case SendSync => s.(syncs := s.syncs + {s.receiver.recv})
    case SyncArrives(h, now) => AfterSync(s, h, now)
  }

  ghost predicate Legal(s: System, es: seq<Event>)
    decreases |es|
  {
    es == [] || (s.queue.Wf() && Enabled(s, es[0]) && Legal(Next(s, es[0]), es[1..]))
  }

  ghost function After(s: System, es: seq<Event>): System
    requires Legal(s, es)
    decreases |es|
  {
    if es == [] then s else After(Next(s, es[0]), es[1..])
  }

  // ---- the start of a session

  /** An entry a SYNC from a receiver at `floor` could make the sender seal and send again. */
  predicate Resendable(e: Entry, peer: Bytes, floor: nat) {
    e.receiver == peer && e.number.Some? && floor < e.number.value < TWO_32 && e.plaintext != [] && Framed(e.plaintext)
  }

  /** A session that starts with the given queue and counters and nothing on the wire; no SYNC will ever
      ask for messages at or below `floor`. */
  ghost function BeginAt(q: Queue, sender: SessionState, receiver: SessionState, floor: nat, carried: map<nat, Bytes>): System {
    System(q, sender, receiver, {}, {}, {}, {}, carried, sender.send, floor, [], [],
           set id | id in q.at && q.at[id].status in {Delivered, Acknowledged})
  }

  /** The same where every SYNC is the receiver's. */
  ghost function Begin(q: Queue, sender: SessionState, receiver: SessionState, carried: map<nat, Bytes>): System {
    BeginAt(q, sender, receiver, receiver.recv, carried)
  }

  ghost predicate SameSession(a: SessionState, b: SessionState) {
    a.sessionId == b.sessionId && a.key == b.key
  }

  /** No two resendable messages share a number unless they share their text, and every such number
      lies below the sender's next number. */
  ghost predicate Clean(q: Queue, peer: Bytes, send: nat, floor: nat) {
    && (forall id :: id in q.at && Resendable(q.at[id], peer, floor) ==> q.at[id].number.value < send)
    && (forall id, other |
          id in q.at && other in q.at && q.at[id].number == q.at[other].number &&
          Resendable(q.at[id], peer, floor) && Resendable(q.at[other], peer, floor) ::
          q.at[id].plaintext == q.at[other].plaintext)
  }

  // ---- invariants

  /** The text a number stands for in this session. */
  function TextOf(s: System, number: nat): Option<Bytes> {
    if number in s.carried then Some(s.carried[number])
    else if s.base <= number < s.base + |s.builds| then Some(s.builds[number - s.base].plaintext)
    else None
  }

  ghost predicate CountersInv(s: System) {
    && SameSession(s.sender, s.receiver)
    && s.base + |s.builds| <= s.sender.send
    && (s.sender.send < TWO_32 ==> s.sender.send == s.base + |s.builds|)
    && (forall i :: 0 <= i < |s.builds| ==> s.builds[i].number == s.base + i && s.base + i < TWO_32)
    && (forall n :: n in s.carried ==> n < s.base)
    && s.floor <= s.receiver.recv
    && (forall h :: h in s.syncs ==> h >= s.floor)
  }

  ghost predicate Genuine(s: System, p: DataPacket) {
    && p.number < TWO_32 && TextOf(s, p.number) == Some(p.sealed.plaintext)
    && p == SealData(s.sender.sessionId, s.sender.key, p.number, p.sealed.plaintext)
  }

  ghost predicate OutputInv(s: System) {
    && Ascending(s.accepted)
    && (forall i :: 0 <= i < |s.accepted| ==>
          s.floor < s.accepted[i].number <= s.receiver.recv &&
          TextOf(s, s.accepted[i].number) == Some(s.accepted[i].plaintext))
  }

  ghost predicate QueueInv(s: System) {
    && s.queue.Wf()
    && (forall id :: id in s.queue.at && Resendable(s.queue.at[id], s.sender.peer, s.floor) ==>
          TextOf(s, s.queue.at[id].number.value) == Some(s.queue.at[id].plaintext))
  }

  ghost predicate WireInv(s: System) {
    forall p :: p in s.data ==> Genuine(s, p)
  }

  /** What the sender and its packets keep, whatever the receiver is handed. */
  ghost predicate SenderInv(s: System) {
    CountersInv(s) && QueueInv(s) && WireInv(s)
  }

  ghost predicate PacketInv(s: System) {
    SenderInv(s) && OutputInv(s)
  }

  /** Nothing that gave a number its text is ever forgotten. */
  ghost predicate Extends(s: System, t: System) {
    && t.sender.sessionId == s.sender.sessionId && t.sender.key == s.sender.key && t.sender.peer == s.sender.peer
    && t.carried == s.carried && t.base == s.base && t.floor == s.floor && s.builds <= t.builds
  }

  lemma ExtendsText(s: System, t: System)
    requires Extends(s, t)
    ensures forall n :: TextOf(s, n).Some? ==> TextOf(t, n) == TextOf(s, n)
    ensures forall p :: Genuine(s, p) ==> Genuine(t, p)
  {
  }

  /** Every numbered entry of `r` is the same message under the same number in `q`. */
  ghost predicate Keeps(q: Queue, r: Queue) {
    && r.Wf()
    && forall id :: id in r.at && r.at[id].number.Some? ==> SameMessage(q, r, id)
  }

  ghost predicate SameMessage(q: Queue, r: Queue, id: MessageId) {
    id in q.at && id in r.at && q.at[id].receiver == r.at[id].receiver &&
    q.at[id].number == r.at[id].number && q.at[id].plaintext == r.at[id].plaintext
  }

  lemma PutKeeps(q: Queue, id: MessageId, e: Entry)
    requires q.Wf()
    requires e.number.Some? ==> id in q.at && q.at[id].receiver == e.receiver &&
                                q.at[id].number == e.number && q.at[id].plaintext == e.plaintext
    ensures Keeps(q, q.Put(id, e))
  {
    var r := q.Put(id, e);
    forall k | k in r.at && r.at[k].number.Some? ensures SameMessage(q, r, k) {
      assert k != id ==> r.at[k] == q.at[k];
    }
  }

  lemma StatusKeeps(q: Queue, found: Option<MessageId>, status: Status)
    requires q.Wf() && (found.Some? ==> found.value in q.at)
    ensures Keeps(q, WithStatus(q, found, status))
  {
    if found.Some? {
      PutKeeps(q, found.value, q.at[found.value].(status := status));
    }
  }

  /** Packets and output of a state with the same texts and counters stand as before. */
  lemma SameTexts(s: System, t: System)
    requires Extends(s, t) && t.builds == s.builds && t.data == s.data && t.accepted == s.accepted && t.receiver.recv == s.receiver.recv
    ensures forall n :: TextOf(t, n) == TextOf(s, n)
    ensures (WireInv(s) ==> WireInv(t)) && (OutputInv(s) ==> OutputInv(t))
  {
    if WireInv(s) {
      forall p | p in t.data ensures Genuine(t, p) {
        assert Genuine(s, p);
      }
    }
  }

  lemma QueueChange(s: System, q: Queue)
    requires SenderInv(s) && Keeps(s.queue, q)
    ensures SenderInv(s.(queue := q)) && (OutputInv(s) ==> OutputInv(s.(queue := q)))
  {
    var t := s.(queue := q);
    SameTexts(s, t);
    forall id | id in q.at && Resendable(q.at[id], s.sender.peer, s.floor)
      ensures TextOf(t, q.at[id].number.value) == Some(q.at[id].plaintext)
    {
      assert SameMessage(s.queue, q, id);
    }
  }

  lemma SendKeepsPackets(s: System, id: MessageId, now: real)
    requires SenderInv(s)
    ensures SenderInv(AfterSend(s, id, now)) && (OutputInv(s) ==> OutputInv(AfterSend(s, id, now)))
  {
    var t := AfterSend(s, id, now);
    if Build(s.queue, id, s.sender, now).result.Built? {
      assert Extends(s, t);
      ExtendsText(s, t);
      assert TextOf(t, s.sender.send) == Some(s.queue.at[id].plaintext);
      forall k | k in t.queue.at && Resendable(t.queue.at[k], t.sender.peer, t.floor)
        ensures TextOf(t, t.queue.at[k].number.value) == Some(t.queue.at[k].plaintext)
      {
        if k != id { assert t.queue.at[k] == s.queue.at[k]; }
      }
      assert CountersInv(t) && QueueInv(t);
      forall p | p in t.data ensures Genuine(t, p) {
        if p in s.data { assert Genuine(s, p); }
      }
    } else {
      SameTexts(s, t);
      assert t.queue == s.queue;
    }
  }

  /** If the packet opens, it carries the text its number stands for. */
  ghost predicate CarriesText(s: System, p: DataPacket) {
    Decrypted(p, s.receiver).Some? ==> TextOf(s, p.number) == Decrypted(p, s.receiver)
  }

  /** A packet of this sender that opens carries the text its number stands for, whatever header it came under. */
  lemma OpenedIsGenuine(s: System, p: DataPacket)
    requires SenderInv(s) && Deliverable(s, p)
    ensures CarriesText(s, p)
  {
    if Decrypted(p, s.receiver).Some? {
      var o :| o in s.data && o.sealed == p.sealed;
      assert Genuine(s, o);
      NonceInjective(s.receiver.sessionId, o.number, p.number);
    }
  }

  lemma DataKeepsSender(s: System, p: DataPacket)
    requires SenderInv(s)
    ensures SenderInv(AfterData(s, p)) && forall n :: TextOf(AfterData(s, p), n) == TextOf(s, n)
  {
    var t := AfterData(s, p);
    assert forall n :: TextOf(t, n) == TextOf(s, n);
    assert t.data == s.data && t.queue == s.queue && t.sender == s.sender && t.builds == s.builds;
    assert CountersInv(t) && QueueInv(t);
    forall o | o in t.data ensures Genuine(t, o) {
      assert Genuine(s, o);
    }
  }

  /** The output stays right exactly when what is accepted is the text of its number. */
  lemma DataKeepsPackets(s: System, p: DataPacket)
    requires PacketInv(s)
    ensures SenderInv(AfterData(s, p))
    ensures OutputInv(AfterData(s, p)) <==> (p.sessionId == s.receiver.sessionId ==> CarriesText(s, p))
  {
    var t := AfterData(s, p);
    DataKeepsSender(s, p);
    assert forall i :: 0 <= i < |s.accepted| ==> t.accepted[i] == s.accepted[i];
    if p.sessionId == s.receiver.sessionId && Decrypted(p, s.receiver).Some? {
      assert t.accepted[|s.accepted|] == Item(p.number, Decrypted(p, s.receiver).value);
    }
  }

  lemma SyncKeepsPackets(s: System, highest: nat, now: real)
    requires SenderInv(s) && highest >= s.floor
    ensures SenderInv(AfterSync(s, highest, now)) && (OutputInv(s) ==> OutputInv(AfterSync(s, highest, now)))
  {
    var q := SyncFrom(s.queue, s.sender, highest, now, 0).queue;
    SyncKeepsMessages(s.queue, s.sender, highest, now, 0);
    forall id | id in q.at && q.at[id].number.Some? ensures SameMessage(s.queue, q, id) {
      assert id in s.queue.at;
    }
    QueueChange(s, q);
    var t := AfterSync(s, highest, now);
    ExtendsText(s.(queue := q), t);
    ExtendsText(s, t);
    forall p | p in t.data ensures Genuine(t, p) {
      if p in s.data {
        assert Genuine(s, p);
      } else {
        SyncSendsMessages(s.queue, s.sender, highest, now, 0, p);
        var id :| Resends(s.queue, s.sender, highest, p, id);
        assert Resendable(s.queue.at[id], s.sender.peer, s.floor);
        assert Genuine(s, p);
      }
    }
  }

  /** Queueing, timing out and both acknowledgements leave every number with its message. */
  lemma QueueEventKeeps(s: System, e: Event)
    requires s.queue.Wf()
    requires e.Enqueue? || e.Timeout? || e.AckArrives? || e.AppAckArrives?
    ensures Keeps(s.queue, Next(s, e).queue) && Next(s, e) == s.(queue := Next(s, e).queue)
  {
    match e {
      case Enqueue(id, text) => PutKeeps(s.queue, id, Entry(s.sender.peer, Queued, 0, text, None, None));
      case Timeout(id) =>
        if id in s.queue.at {
          var x := s.queue.at[id];
          PutKeeps(s.queue, id, x.(retryCount := x.retryCount + 1,
                                   status := if x.retryCount + 1 >= MAX_RETRIES then Failed else Queued));
        }
      case AckArrives(n) => StatusKeeps(s.queue, FirstKey(s.queue, AwaitsAck(n), 0), Delivered);
      case AppAckArrives(n) => StatusKeeps(s.queue, FirstKey(s.queue, AwaitsAppAck(s.sender.peer, n), 0), Acknowledged);
    }
  }

  /** What the receiver sends back touches neither messages nor packets. */
  lemma ReplyKeepsPackets(s: System, acks: set<nat>, appAcks: set<nat>, syncs: set<nat>)
    requires SenderInv(s) && forall h :: h in syncs ==> h >= s.floor
    ensures SenderInv(s.(acks := acks, appAcks := appAcks, syncs := syncs))
    ensures OutputInv(s) ==> OutputInv(s.(acks := acks, appAcks := appAcks, syncs := syncs))
  {
    var t := s.(acks := acks, appAcks := appAcks, syncs := syncs);
    SameTexts(s, t);
    assert CountersInv(s) && QueueInv(s);
    assert CountersInv(t) && QueueInv(t);
  }

  /** Every step but a SYNC below the floor keeps the sender's side, whoever its packets come from; every
      step but the arrival of data keeps the output. */
  lemma SenderStep(s: System, e: Event)
    requires SenderInv(s) && (e.SyncArrives? ==> e.highest >= s.floor)
    ensures SenderInv(Next(s, e)) && (OutputInv(s) && !e.DataArrives? ==> OutputInv(Next(s, e)))
  {
    match e {
      case Send(id, now) => SendKeepsPackets(s, id, now);
      case DataArrives(p) => DataKeepsSender(s, p);
      case SendAck(n) => ReplyKeepsPackets(s, s.acks + {n}, s.appAcks, s.syncs);
      case SendAppAck(n) => ReplyKeepsPackets(s, s.acks, s.appAcks + {n}, s.syncs);
      case SendSync => ReplyKeepsPackets(s, s.acks, s.appAcks, s.syncs + {s.receiver.recv});
      case SyncArrives(h, now) => SyncKeepsPackets(s, h, now);
      case _ =>
        QueueEventKeeps(s, e);
        QueueChange(s, Next(s, e).queue);
    }
  }

  lemma PacketStep(s: System, e: Event)
    requires PacketInv(s) && Enabled(s, e)
    ensures PacketInv(Next(s, e))
  {
    SenderStep(s, e);
    if e.DataArrives? {
      OpenedIsGenuine(s, e.packet);
      DataKeepsPackets(s, e.packet);
    }
  }

  lemma {:induction false} PacketRun(s: System, es: seq<Event>)
    requires PacketInv(s) && Legal(s, es)
    ensures PacketInv(After(s, es))
    decreases |es|
  {
    if es != [] {
      PacketStep(s, es[0]);
      PacketRun(Next(s, es[0]), es[1..]);
    }
  }
}
