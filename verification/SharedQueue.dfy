/** One queue for several peers, each with its own session: every peer's direction is a delivery system
    over the same queue. An acknowledgement says only a number, so that it may find another peer's message. */
module SharedQueue {

  import opened Basics
  import opened OrderedDicts
  import opened Aead
  import opened Sessions
  import opened Queues
  import opened Synchronisation
  import opened Delivery
  import opened DeliveryTheorems
  import opened Runs

  /** The queue, and for every peer its sessions and its part of the network; their own queue fields are not used. */
  datatype Node = Node(queue: Queue, links: map<Bytes, System>)

  datatype Turn = Turn(peer: Bytes, e: Event)

  /** One peer's delivery system, over the shared queue. */
  function View(m: Node, peer: Bytes): System
    requires peer in m.links
  {
    m.links[peer].(queue := m.queue)
  }

  /** A message is sent, and timed out, only in the session with its receiver. */
  ghost predicate CanTurn(m: Node, t: Turn) {
    && m.queue.Wf() && t.peer in m.links && Enabled(View(m, t.peer), t.e)
    && (t.e.Send? && t.e.id in m.queue.at ==> m.queue.at[t.e.id].receiver == t.peer)
    && (t.e.Timeout? && t.e.id in m.queue.at ==> m.queue.at[t.e.id].receiver == t.peer)
  }

  function Turned(m: Node, t: Turn): Node
    requires m.queue.Wf() && t.peer in m.links
  {
    var s := Next(View(m, t.peer), t.e);
    Node(s.queue, m.links[t.peer := s])
  }

  /** The message an acknowledgement will mark. */
  function Marked(q: Queue, number: nat): Option<MessageId>
    requires q.Wf()
  {
    FirstKey(q, AwaitsAck(number), 0)
  }

  /** An acknowledgement finds no message, or one of the peer it came from. */
  ghost predicate FindsOwn(m: Node, t: Turn)
    requires m.queue.Wf()
  {
    t.e.AckArrives? ==>
      Marked(m.queue, t.e.number).None? || m.queue.at[Marked(m.queue, t.e.number).value].receiver == t.peer
  }

  ghost predicate Legal(m: Node, ts: seq<Turn>)
    decreases |ts|
  {
    ts == [] || (CanTurn(m, ts[0]) && Legal(Turned(m, ts[0]), ts[1..]))
  }

  ghost function After(m: Node, ts: seq<Turn>): Node
    requires Legal(m, ts)
    decreases |ts|
  {
    if ts == [] then m else After(Turned(m, ts[0]), ts[1..])
  }

  // ---- what every run keeps

  /** The peer's own messages are known under their numbers. */
  ghost predicate Known(s: System) {
    forall id :: id in s.queue.at && s.queue.at[id].receiver == s.sender.peer && s.queue.at[id].number.Some? ==>
      TextOf(s, s.queue.at[id].number.value) == Some(s.queue.at[id].plaintext)
  }

  /** A message of the peer's that was settled before the session and not sent since awaits no ACK. */
  ghost predicate Exempt(s: System) {
    forall id :: id in s.queue.at && s.queue.at[id].receiver == s.sender.peer && id in s.settled ==> s.queue.at[id].status != Pending
  }

  ghost predicate PeerInv(s: System) {
    PacketInv(s) && AcksInv(s) && Known(s) && Exempt(s)
  }

  ghost predicate NodeInv(m: Node) {
    m.queue.Wf() && forall p :: p in m.links ==> m.links[p].sender.peer == p && PeerInv(View(m, p))
  }

  /** The entry has its message and number from `q` and awaits an ACK only if it did there, or it is new. */
  predicate KeptEntry(q: Queue, id: MessageId, e: Entry) {
    || (e.number.None? && e.status != Pending)
    || (id in q.at && q.at[id].receiver == e.receiver && q.at[id].number == e.number && q.at[id].plaintext == e.plaintext &&
        (e.status == Pending ==> q.at[id].status == Pending))
  }

  ghost predicate KeptFor(q: Queue, r: Queue, peer: Bytes) {
    r.Wf() && forall id :: id in r.at && r.at[id].receiver == peer ==> KeptEntry(q, id, r.at[id])
  }

  /** A change that keeps a peer's messages keeps its standing. */
  lemma Untouched(s: System, r: Queue)
    requires PeerInv(s) && KeptFor(s.queue, r, s.sender.peer)
    ensures PeerInv(s.(queue := r))
  {
    var t := s.(queue := r);
    assert forall n :: TextOf(t, n) == TextOf(s, n);
    forall p | p in t.data ensures Genuine(t, p) {
      assert Genuine(s, p);
    }
    forall id | id in r.at && r.at[id].receiver == s.sender.peer && r.at[id].number.Some?
      ensures TextOf(t, r.at[id].number.value) == Some(r.at[id].plaintext)
    {
      assert KeptEntry(s.queue, id, r.at[id]);
    }
    assert CountersInv(t) && QueueInv(t) && OutputInv(t);
    SameAcks(s, t);
    forall id | id in r.at && r.at[id].receiver == s.sender.peer && id in s.settled ensures r.at[id].status != Pending {
      assert KeptEntry(s.queue, id, r.at[id]);
    }
  }

  lemma SameAcks(s: System, t: System)
    requires AcksInv(s) && s.accepted <= t.accepted && t.acks == s.acks && t.appAcks == s.appAcks
    ensures AcksInv(t)
  {
    forall n | n in t.acks || n in t.appAcks ensures WasAccepted(t, n) {
      RemembersAccepted(s, t, n);
    }
  }

  lemma PutKept(q: Queue, id: MessageId, e: Entry, peer: Bytes)
    requires q.Wf() && (e.receiver == peer ==> KeptEntry(q, id, e))
    ensures KeptFor(q, q.Put(id, e), peer)
  {
  }

  lemma StatusKept(q: Queue, found: Option<MessageId>, status: Status, peer: Bytes)
    requires q.Wf() && (found.Some? ==> found.value in q.at) && status != Pending
    ensures KeptFor(q, WithStatus(q, found, status), peer)
  {
    if found.Some? {
      PutKept(q, found.value, q.at[found.value].(status := status), peer);
    }
  }

  /** An event keeps the messages of a peer, unless it sends one of them. */
  lemma EventKeeps(s: System, e: Event, peer: Bytes)
    requires s.queue.Wf() && (e.Send? && e.id in s.queue.at ==> s.queue.at[e.id].receiver != peer)
    ensures KeptFor(s.queue, Next(s, e).queue, peer)
  {
    var q := s.queue;
    match e {
      case Enqueue(id, text) => PutKept(q, id, Entry(s.sender.peer, Queued, 0, text, None, None), peer);
      case Send(id, now) =>
        if Build(q, id, s.sender, now).result.Built? {
          PutKept(q, id, q.at[id].(status := Pending, number := Some(s.sender.send), sentAt := Some(now)), peer);
        }
      case Timeout(id) =>
        if id in q.at {
          var x := q.at[id];
          PutKept(q, id, x.(retryCount := x.retryCount + 1,
                            status := if x.retryCount + 1 >= MAX_RETRIES then Failed else Queued), peer);
        }
      case AckArrives(n) => StatusKept(q, Marked(q, n), Delivered, peer);
      case AppAckArrives(n) => StatusKept(q, FirstKey(q, AwaitsAppAck(s.sender.peer, n), 0), Acknowledged, peer);
      case SyncArrives(h, now) => SyncKeepsMessages(q, s.sender, h, now, 0);
      case _ =>
    }
  }

  lemma AcksStep(s: System, e: Event)
    requires s.queue.Wf() && AcksInv(s) && Enabled(s, e)
    ensures AcksInv(Next(s, e))
  {
    var t := Next(s, e);
    forall n | n in t.acks || n in t.appAcks ensures WasAccepted(t, n) {
      RemembersAccepted(s, t, if n in s.acks || n in s.appAcks then n else e.number);
    }
  }

  lemma SendKnown(s: System, id: MessageId, now: real)
    requires PeerInv(s)
    ensures Known(AfterSend(s, id, now)) && Exempt(AfterSend(s, id, now))
  {
    var t := AfterSend(s, id, now);
    ExtendsNext(s, Send(id, now));
    ExtendsText(s, t);
    if Build(s.queue, id, s.sender, now).result.Built? {
      assert TextOf(t, s.sender.send) == Some(s.queue.at[id].plaintext);
      assert forall k :: k in t.queue.at && k != id ==> t.queue.at[k] == s.queue.at[k];
    }
  }

  lemma OwnTurn(s: System, e: Event)
    requires PeerInv(s) && Enabled(s, e)
    ensures PeerInv(Next(s, e))
  {
    var t := Next(s, e);
    assert PacketInv(t) by { PacketStep(s, e); }
    assert AcksInv(t) by { AcksStep(s, e); }
    if e.Send? {
      SendKnown(s, e.id, e.now);
    } else {
      EventKeeps(s, e, s.sender.peer);
      Untouched(s, t.queue);
      ExtendsNext(s, e);
      ExtendsText(s, t);
    }
  }

  /** Every turn keeps the standing of every peer, rightful or not. */
  lemma TurnStep(m: Node, t: Turn)
    requires NodeInv(m) && CanTurn(m, t)
    ensures NodeInv(Turned(m, t))
  {
    var k := Turned(m, t);
    OwnTurn(View(m, t.peer), t.e);
    ExtendsNext(View(m, t.peer), t.e);
    forall p | p in k.links ensures k.links[p].sender.peer == p && PeerInv(View(k, p)) {
      if p == t.peer {
        assert View(k, p) == Next(View(m, p), t.e);
      } else {
        EventKeeps(View(m, t.peer), t.e, p);
        Untouched(View(m, p), k.queue);
        assert View(k, p) == View(m, p).(queue := k.queue);
      }
    }
  }

  lemma {:induction false} NodeRun(m: Node, ts: seq<Turn>)
    requires NodeInv(m) && Legal(m, ts)
    ensures NodeInv(After(m, ts))
    decreases |ts|
  {
    if ts != [] {
      TurnStep(m, ts[0]);
      NodeRun(Turned(m, ts[0]), ts[1..]);
    }
  }

  // ---- delivered means received, for every peer

  /** A message for this peer that its session has marked delivered or acknowledged. */
  ghost predicate SettledBy(m: Node, peer: Bytes, id: MessageId) {
    && peer in m.links && id in m.queue.at && m.queue.at[id].receiver == peer
    && IsSettled(m.queue.at[id]) && id !in m.links[peer].settled
  }

  /** Every message so marked was accepted by its receiver, with its text and under its number. */
  ghost predicate Right(m: Node) {
    forall p, id :: SettledBy(m, p, id) ==> WasReceived(View(m, p), m.queue.at[id])
  }

  /** The acknowledgement finds no message, or one of a peer without a session, or one whose own receiver
      has accepted that number. */
  ghost predicate Rightful(m: Node, t: Turn)
    requires m.queue.Wf()
  {
    t.e.AckArrives? && Marked(m.queue, t.e.number).Some? ==>
      var owner := m.queue.at[Marked(m.queue, t.e.number).value].receiver;
      owner in m.links ==> WasAccepted(View(m, owner), t.e.number)
  }

  lemma NothingSettles(m: Node, t: Turn)
    requires Right(m) && CanTurn(m, t) && !t.e.AckArrives?
    ensures Right(Turned(m, t))
  {
    var k := Turned(m, t);
    forall p, id | SettledBy(k, p, id) ensures WasReceived(View(k, p), k.queue.at[id]) {
      StaysSettled(View(m, t.peer), t.e, id);
      assert SettledBy(m, p, id);
      RemembersReceived(View(m, p), View(k, p), m.queue.at[id]);
    }
  }

  lemma AckEffect(m: Node, t: Turn)
    requires CanTurn(m, t) && t.e.AckArrives?
    ensures var k := Turned(m, t);
            && k.queue == WithStatus(m.queue, Marked(m.queue, t.e.number), Delivered) && k.queue.Wf() && k.links.Keys == m.links.Keys
            && forall p :: p in m.links ==> View(k, p) == View(m, p).(queue := k.queue)
  {
    StatusKeeps(m.queue, Marked(m.queue, t.e.number), Delivered);
  }

  /** A number that its receiver accepted was accepted with the text of the message that has it. */
  lemma AcceptedIsReceived(s: System, e: Entry, n: nat)
    requires PacketInv(s) && e.number == Some(n) && TextOf(s, n) == Some(e.plaintext)
    ensures WasReceived(s, e) <==> WasAccepted(s, n)
  {
    if WasAccepted(s, n) {
      var i :| 0 <= i < |s.accepted| && s.accepted[i].number == n;
      assert s.accepted[i] == Item(n, e.plaintext);
    }
  }

  /** A marking keeps everything right exactly when it concerns no session, or the receiver has the message. */
  lemma MarkingExact(m: Node, k: Node, id: MessageId)
    requires NodeInv(m) && Right(m) && id in m.queue.at && m.queue.at[id].status == Pending
    requires k.queue == m.queue.Put(id, m.queue.at[id].(status := Delivered))
    requires k.links.Keys == m.links.Keys && forall p :: p in m.links ==> View(k, p) == View(m, p).(queue := k.queue)
    ensures var owner := m.queue.at[id].receiver;
            Right(k) <==> (owner in m.links ==> WasReceived(View(m, owner), m.queue.at[id]))
  {
    var owner := m.queue.at[id].receiver;
    forall p, x | SettledBy(k, p, x) && x != id ensures WasReceived(View(k, p), k.queue.at[x]) {
      assert SettledBy(m, p, x) && View(k, p).accepted == View(m, p).accepted;
      RemembersReceived(View(m, p), View(k, p), m.queue.at[x]);
    }
    if owner in m.links {
      assert SettledBy(k, owner, id) && View(k, owner).accepted == View(m, owner).accepted;
      assert WasReceived(View(k, owner), k.queue.at[id]) <==> WasReceived(View(m, owner), m.queue.at[id]);
    }
  }

  lemma TurnExact(m: Node, t: Turn)
    requires NodeInv(m) && Right(m) && CanTurn(m, t)
    ensures Right(Turned(m, t)) <==> Rightful(m, t)
  {
    if !t.e.AckArrives? {
      NothingSettles(m, t);
    } else {
      var n, k, found := t.e.number, Turned(m, t), Marked(m.queue, t.e.number);
      AckEffect(m, t);
      if found.Some? {
        assert AwaitsAck(n)(m.queue.at[found.value]);
        MarkingExact(m, k, found.value);
        var owner := m.queue.at[found.value].receiver;
        if owner in m.links {
          AcceptedIsReceived(View(m, owner), m.queue.at[found.value], n);
        }
      } else {
        SameRight(m, k);
      }
    }
  }

  lemma SameRight(m: Node, k: Node)
    requires Right(m) && k.queue == m.queue && k.links.Keys == m.links.Keys && forall p :: p in m.links ==> View(k, p) == View(m, p)
    ensures Right(k)
  {
    forall p, id | SettledBy(k, p, id) ensures WasReceived(View(k, p), k.queue.at[id]) {
      assert View(k, p).settled == View(m, p).settled;
      assert SettledBy(m, p, id);
    }
  }

  ghost predicate RightfulRun(m: Node, ts: seq<Turn>)
    requires Legal(m, ts)
    decreases |ts|
  {
    ts == [] || (Rightful(m, ts[0]) && RightfulRun(Turned(m, ts[0]), ts[1..]))
  }

  ghost predicate RightThroughout(m: Node, ts: seq<Turn>)
    requires Legal(m, ts)
    decreases |ts|
  {
    Right(m) && (ts == [] || RightThroughout(Turned(m, ts[0]), ts[1..]))
  }

  /** Over every run of a node with all its peers: after every turn each message marked delivered or
      acknowledged was received by its own receiver, if and only if every acknowledgement that found a
      message found one whose own receiver had accepted that number. */
  lemma {:induction false} SharedExact(m: Node, ts: seq<Turn>)
    requires NodeInv(m) && Right(m) && Legal(m, ts)
    ensures RightThroughout(m, ts) <==> RightfulRun(m, ts)
    decreases |ts|
  {
    if ts != [] {
      TurnExact(m, ts[0]);
      if Rightful(m, ts[0]) {
        TurnStep(m, ts[0]);
        SharedExact(Turned(m, ts[0]), ts[1..]);
      }
    }
  }

  ghost predicate FindOwn(m: Node, ts: seq<Turn>)
    requires Legal(m, ts)
    decreases |ts|
  {
    ts == [] || (FindsOwn(m, ts[0]) && FindOwn(Turned(m, ts[0]), ts[1..]))
  }

  /** Delivered means received, for every peer of a node at once: after every run in which each
      acknowledgement finds a message of the peer it came from, or none, each message marked delivered
      or acknowledged in its session has had exactly its text accepted by its own receiver. */
  lemma {:induction false} SharedDelivered(m: Node, ts: seq<Turn>, peer: Bytes, id: MessageId)
    requires NodeInv(m) && Right(m) && Legal(m, ts) && FindOwn(m, ts)
    ensures NodeInv(After(m, ts))
    ensures SettledBy(After(m, ts), peer, id) ==> WasReceived(View(After(m, ts), peer), After(m, ts).queue.at[id])
    decreases |ts|
  {
    if ts != [] {
      TurnStep(m, ts[0]);
      OwnIsRightful(m, ts[0]);
      TurnExact(m, ts[0]);
      SharedDelivered(Turned(m, ts[0]), ts[1..], peer, id);
    }
  }

  lemma OwnIsRightful(m: Node, t: Turn)
    requires NodeInv(m) && CanTurn(m, t) && FindsOwn(m, t)
    ensures Rightful(m, t)
  {
    if t.e.AckArrives? {
      assert AcksInv(View(m, t.peer));
    }
  }

  // ---- runs

  ghost function Steps(): (Node, Turn, Node) -> bool {
    (m: Node, t: Turn, k: Node) => CanTurn(m, t) && k == Turned(m, t)
  }

  ghost predicate Reaches(m: Node, k: Node) {
    Leads(Steps(), m, k)
  }

  lemma Taking(m: Node, t: Turn)
    requires CanTurn(m, t)
    ensures Reaches(m, Turned(m, t))
  {
    assert Steps()(m, t, Turned(m, t));
    LeadsStep(Steps(), m, t, Turned(m, t));
  }

  lemma TakingOn(m: Node, k: Node, t: Turn)
    requires Reaches(m, k) && CanTurn(k, t)
    ensures Reaches(m, Turned(k, t))
  {
    Taking(k, t);
    LeadsFurther(Steps(), m, k, Turned(k, t));
  }

  lemma {:induction false} TraceLegal(states: seq<Node>, ts: seq<Turn>)
    requires Trace(Steps(), states, ts)
    ensures Legal(states[0], ts) && After(states[0], ts) == states[|ts|]
    decreases |ts|
  {
    if ts != [] {
      TraceTail(Steps(), states, ts);
      TraceLegal(states[1..], ts[1..]);
    }
  }

  /** What a node leads to it reaches by a list of turns. */
  lemma ReachesByTurns(m: Node, k: Node) returns (ts: seq<Turn>)
    requires Reaches(m, k)
    ensures Legal(m, ts) && After(m, ts) == k
  {
    var states: seq<Node>;
    states, ts :| Trace(Steps(), states, ts) && states[0] == m && states[|ts|] == k;
    TraceLegal(states, ts);
  }

  lemma ReachesInv(m: Node, k: Node)
    requires NodeInv(m) && Reaches(m, k)
    ensures NodeInv(k)
  {
    var ts := ReachesByTurns(m, k);
    NodeRun(m, ts);
  }

  /** Only this peer's session, and no message that was there before, has changed. */
  ghost predicate OnlyPeer(m: Node, k: Node, peer: Bytes) {
    && k.queue.Wf() && k.links.Keys == m.links.Keys && peer in m.links
    && (forall id :: id in m.queue.at ==> id in k.queue.at && SameEntry(m.queue.at[id], k.queue.at[id]))
    && (forall p :: p in m.links && p != peer ==> k.links[p] == m.links[p])
    && k.links[peer].sender == m.links[peer].sender.(send := k.links[peer].sender.send)
  }

  /** One entry is the other but for its send time. */
  predicate SameEntry(a: Entry, b: Entry) {
    a.receiver == b.receiver && a.status == b.status && a.number == b.number && a.plaintext == b.plaintext
  }

  lemma OnlyPeerTwice(m: Node, k: Node, r: Node, peer: Bytes)
    requires OnlyPeer(m, k, peer) && OnlyPeer(k, r, peer)
    ensures OnlyPeer(m, r, peer)
  {
    forall id | id in m.queue.at ensures id in r.queue.at && SameEntry(m.queue.at[id], r.queue.at[id]) {
      assert SameEntry(m.queue.at[id], k.queue.at[id]) && SameEntry(k.queue.at[id], r.queue.at[id]);
    }
  }

  /** The peer can be sent a packet under this number. */
  ghost predicate HasPacket(s: System, n: nat) {
    n < TWO_32 && exists text :: SealData(s.sender.sessionId, s.sender.key, n, text) in s.data
  }

  ghost predicate Waits(m: Node, peer: Bytes, n: nat, id: MessageId) {
    id in m.queue.at && m.queue.at[id].receiver == peer && AwaitsAck(n)(m.queue.at[id])
  }

  /** A message is queued and sent to one peer. */
  lemma SendTo(m: Node, peer: Bytes, id: MessageId) returns (k: Node)
    requires m.queue.Wf() && peer in m.links && m.links[peer].sender.peer == peer && id !in m.queue.at && m.links[peer].sender.send < TWO_32
    ensures Reaches(m, k) && OnlyPeer(m, k, peer) && Waits(k, peer, m.links[peer].sender.send, id)
    ensures k.links[peer].sender.send == m.links[peer].sender.send + 1 && k.links[peer].receiver == m.links[peer].receiver
    ensures k.links[peer].accepted == m.links[peer].accepted
    ensures HasPacket(k.links[peer], m.links[peer].sender.send)
  {
    var queued := Turned(m, Turn(peer, Enqueue(id, [])));
    Taking(m, Turn(peer, Enqueue(id, [])));
    assert queued.queue.Wf();
    k := Turned(queued, Turn(peer, Send(id, 0.0)));
    TakingOn(m, queued, Turn(peer, Send(id, 0.0)));
    var s := m.links[peer].sender;
    assert SealData(s.sessionId, s.key, s.send, []) in k.links[peer].data;
  }

  /** From any state a peer can be sent a message under any number its session has not reached. */
  lemma {:induction false} SendUpTo(m: Node, peer: Bytes, n: nat) returns (k: Node, id: MessageId)
    requires m.queue.Wf() && peer in m.links && m.links[peer].sender.peer == peer && m.links[peer].sender.send <= n < TWO_32
    ensures Reaches(m, k) && OnlyPeer(m, k, peer) && Waits(k, peer, n, id) && id !in m.queue.at
    ensures HasPacket(k.links[peer], n) && k.links[peer].receiver == m.links[peer].receiver && k.links[peer].accepted == m.links[peer].accepted
    decreases n - m.links[peer].sender.send
  {
    id := FreshId(m.queue);
    var one := SendTo(m, peer, id);
    if m.links[peer].sender.send == n {
      k := one;
    } else {
      k, id := SendUpTo(one, peer, n);
      LeadsFurther(Steps(), m, one, k);
      OnlyPeerTwice(m, one, k, peer);
    }
  }

  /** A SYNC exchange puts a resendable message in front on the wire again. */
  lemma ResendTo(m: Node, peer: Bytes, id: MessageId) returns (k: Node)
    requires m.queue.Wf() && peer in m.links && m.links[peer].sender.peer == peer && id in m.queue.at
    requires Resendable(m.queue.at[id], peer, m.links[peer].receiver.recv) && InFront(m.queue, peer, m.links[peer].receiver.recv, id)
    ensures Reaches(m, k) && OnlyPeer(m, k, peer) && HasPacket(k.links[peer], m.queue.at[id].number.value)
    ensures k.links[peer].receiver == m.links[peer].receiver
  {
    var s, recv := m.links[peer].sender, m.links[peer].receiver.recv;
    var asked := Turned(m, Turn(peer, SendSync));
    Taking(m, Turn(peer, SendSync));
    k := Turned(asked, Turn(peer, SyncArrives(recv, 0.0)));
    TakingOn(m, asked, Turn(peer, SyncArrives(recv, 0.0)));
    FrontSent(m.queue, s, recv, 0.0, id);
    SyncKeepsMessages(m.queue, s, recv, 0.0, 0);
    assert SealData(s.sessionId, s.key, m.queue.at[id].number.value, m.queue.at[id].plaintext) in k.links[peer].data;
  }

  /** A peer takes the packet under a number above its counter and acknowledges it. */
  lemma Acknowledge(m: Node, peer: Bytes, n: nat) returns (k: Node)
    requires m.queue.Wf() && peer in m.links && SameSession(m.links[peer].sender, m.links[peer].receiver)
    requires m.links[peer].receiver.recv < n && HasPacket(m.links[peer], n)
    ensures Reaches(m, k) && k.queue == m.queue && OnlyPeer(m, k, peer) && n in k.links[peer].acks
  {
    var text :| SealData(m.links[peer].sender.sessionId, m.links[peer].sender.key, n, text) in m.links[peer].data;
    var p := SealData(m.links[peer].sender.sessionId, m.links[peer].sender.key, n, text);
    var read := Turned(m, Turn(peer, DataArrives(p)));
    Taking(m, Turn(peer, DataArrives(p)));
    assert WasAccepted(View(read, peer), n) by {
      var s := View(read, peer);
      assert s.accepted[|s.accepted| - 1].number == n;
    }
    k := Turned(read, Turn(peer, SendAck(n)));
    TakingOn(m, read, Turn(peer, SendAck(n)));
  }

  /** Delivered over and over, an acknowledgement marks every message that waits for its number: in
      particular the one at `at`. */
  lemma {:induction false} AckUntil(m: Node, peer: Bytes, n: nat, from: nat, at: nat) returns (k: Node)
    requires m.queue.Wf() && peer in m.links && n in m.links[peer].acks && from <= at < |m.queue.keys|
    requires AwaitsAck(n)(m.queue.at[m.queue.keys[at]])
    requires forall i :: 0 <= i < from ==> !AwaitsAck(n)(m.queue.at[m.queue.keys[i]])
    ensures Reaches(m, k) && k.queue.Wf() && k.queue.at.Keys == m.queue.at.Keys && k.links.Keys == m.links.Keys
    ensures var id := m.queue.keys[at]; k.queue.at[id] == m.queue.at[id].(status := Delivered)
    ensures forall p :: p in m.links ==> k.links[p].accepted == m.links[p].accepted && k.links[p].settled == m.links[p].settled
    decreases at - from
  {
    var id := m.queue.keys[from];
    if AwaitsAck(n)(m.queue.at[id]) {
      var one := MarkOne(m, peer, n, from);
      if from == at {
        k := one;
      } else {
        k := AckUntil(one, peer, n, from + 1, at);
        LeadsFurther(Steps(), m, one, k);
      }
    } else {
      k := AckUntil(m, peer, n, from + 1, at);
    }
  }

  lemma MarkOne(m: Node, peer: Bytes, n: nat, from: nat) returns (k: Node)
    requires m.queue.Wf() && peer in m.links && n in m.links[peer].acks && from < |m.queue.keys|
    requires AwaitsAck(n)(m.queue.at[m.queue.keys[from]])
    requires forall i :: 0 <= i < from ==> !AwaitsAck(n)(m.queue.at[m.queue.keys[i]])
    ensures Reaches(m, k) && k.queue.Wf() && k.queue.keys == m.queue.keys && k.links.Keys == m.links.Keys
    ensures var id := m.queue.keys[from]; k.queue.at == m.queue.at[id := m.queue.at[id].(status := Delivered)]
    ensures n in k.links[peer].acks
    ensures forall p :: p in m.links ==> k.links[p].accepted == m.links[p].accepted && k.links[p].settled == m.links[p].settled
  {
    var t := Turn(peer, AckArrives(n));
    k := Turned(m, t);
    Taking(m, t);
    AckCredits(m.queue, n, from);
    AckEffect(m, t);
  }

  // ---- when an acknowledgement can mark another peer's message

  /** The session can come to acknowledge this number: it is above the receiver's counter, and the sender
      has yet to reach it, or has a message under it that a SYNC makes it send again. */
  ghost predicate MayAck(m: Node, p: Bytes, n: nat) {
    && p in m.links && m.links[p].receiver.recv < n < TWO_32
    && (m.links[p].sender.send <= n ||
        exists id :: id in m.queue.at && Resendable(m.queue.at[id], p, m.links[p].receiver.recv) && m.queue.at[id].number == Some(n))
  }

  /** The same as far as the messages in front go. */
  ghost predicate MayAckFront(m: Node, p: Bytes, n: nat)
    requires m.queue.Wf()
  {
    && p in m.links && m.links[p].receiver.recv < n < TWO_32
    && (m.links[p].sender.send <= n ||
        exists id :: id in m.queue.at && Resendable(m.queue.at[id], p, m.links[p].receiver.recv) && m.queue.at[id].number == Some(n) &&
                     InFront(m.queue, p, m.links[p].receiver.recv, id))
  }

  /** A message of the peer's can come to wait for the acknowledgement of this number. */
  ghost predicate MayWait(m: Node, p: Bytes, n: nat) {
    p in m.links && n < TWO_32 && (m.links[p].sender.send <= n || exists id :: Waits(m, p, n, id))
  }

  /** No number that one session may acknowledge is one that a message of another may wait for. */
  ghost predicate Solitary(m: Node) {
    forall p, q, n :: p != q && MayAck(m, p, n) ==> !MayWait(m, q, n)
  }

  ghost predicate SolitaryFront(m: Node)
    requires m.queue.Wf()
  {
    forall p, q, n :: p != q && MayAckFront(m, p, n) ==> !MayWait(m, q, n)
  }

  /** Some run marks a message that its receiver never accepted. */
  ghost predicate Misled(m: Node, q: Bytes, k: Node, id: MessageId) {
    Reaches(m, k) && SettledBy(k, q, id) && !WasReceived(View(k, q), k.queue.at[id])
  }

  lemma PacketFor(m: Node, p: Bytes, n: nat) returns (k: Node)
    requires NodeInv(m) && MayAckFront(m, p, n)
    ensures Reaches(m, k) && OnlyPeer(m, k, p) && HasPacket(k.links[p], n) && k.links[p].receiver == m.links[p].receiver
  {
    if m.links[p].sender.send <= n {
      var id;
      k, id := SendUpTo(m, p, n);
    } else {
      var id :| id in m.queue.at && Resendable(m.queue.at[id], p, m.links[p].receiver.recv) && m.queue.at[id].number == Some(n) &&
                InFront(m.queue, p, m.links[p].receiver.recv, id);
      k := ResendTo(m, p, id);
    }
  }

  lemma WaiterFor(m: Node, q: Bytes, n: nat) returns (k: Node, id: MessageId)
    requires NodeInv(m) && MayWait(m, q, n)
    ensures Reaches(m, k) && OnlyPeer(m, k, q) && Waits(k, q, n, id) && k.links[q].accepted == m.links[q].accepted
  {
    if m.links[q].sender.send <= n {
      k, id := SendUpTo(m, q, n);
    } else {
      id :| Waits(m, q, n, id);
      k := m;
      LeadsNowhere(Steps(), m);
    }
  }

  /** The acknowledgement of one peer, repeated, marks the message of another that waits for its number. */
  lemma CrossMark(m: Node, p: Bytes, q: Bytes, n: nat, id: MessageId) returns (k: Node)
    requires NodeInv(m) && p in m.links && q in m.links && n in m.links[p].acks && Waits(m, q, n, id) && !WasAccepted(View(m, q), n)
    ensures Misled(m, q, k, id)
  {
    var at :| 0 <= at < |m.queue.keys| && m.queue.keys[at] == id;
    k := AckUntil(m, p, n, 0, at);
    assert SettledBy(k, q, id);
    assert forall i :: 0 <= i < |View(k, q).accepted| ==> View(m, q).accepted[i].number != n;
  }

  /** One peer acknowledges a number for which a message of another may wait. */
  lemma Crosses(m: Node, p: Bytes, q: Bytes, n: nat) returns (k: Node, id: MessageId)
    requires NodeInv(m) && p != q && MayAckFront(m, p, n) && MayWait(m, q, n) && !WasAccepted(View(m, q), n)
    ensures Misled(m, q, k, id)
  {
    var sent := PacketFor(m, p, n);
    ReachesInv(m, sent);
    assert PeerInv(View(sent, p));
    var acked := Acknowledge(sent, p, n);
    LeadsFurther(Steps(), m, sent, acked);
    OnlyPeerTwice(m, sent, acked, p);
    ReachesInv(m, acked);
    StillWaits(m, acked, p, q, n);
    var waiting;
    waiting, id := WaiterFor(acked, q, n);
    LeadsFurther(Steps(), m, acked, waiting);
    ReachesInv(m, waiting);
    assert View(waiting, q).accepted == View(m, q).accepted;
    NotAccepted(View(m, q), View(waiting, q), n);
    k := CrossMark(waiting, p, q, n, id);
    LeadsFurther(Steps(), m, waiting, k);
  }

  lemma NotAccepted(s: System, t: System, n: nat)
    requires !WasAccepted(s, n) && t.accepted == s.accepted
    ensures !WasAccepted(t, n)
  {
    assert forall i :: 0 <= i < |s.accepted| ==> t.accepted[i].number != n;
  }

  lemma StillWaits(m: Node, k: Node, p: Bytes, q: Bytes, n: nat)
    requires OnlyPeer(m, k, p) && p != q && MayWait(m, q, n)
    ensures MayWait(k, q, n)
  {
    if m.links[q].sender.send > n {
      var id :| Waits(m, q, n, id);
      assert SameEntry(m.queue.at[id], k.queue.at[id]);
      assert Waits(k, q, n, id);
    }
  }

  /** Whenever two sessions of a node can still send, and one of them still accept, whatever the queue
      and the counters, some run marks a message delivered that its receiver never accepted. */
  lemma AckCrossesPeers(m: Node, p: Bytes, q: Bytes) returns (ts: seq<Turn>, id: MessageId)
    requires NodeInv(m) && p in m.links && q in m.links && p != q
    requires m.links[p].sender.send < TWO_32 && m.links[q].sender.send < TWO_32 && m.links[p].receiver.recv + 1 < TWO_32
    ensures Legal(m, ts) && SettledBy(After(m, ts), q, id) && !WasReceived(View(After(m, ts), q), After(m, ts).queue.at[id])
  {
    var n := Max(Max(m.links[p].sender.send, m.links[q].sender.send), m.links[p].receiver.recv + 1);
    Unreached(View(m, q), n);
    var k;
    k, id := Crosses(m, p, q, n);
    ts := ReachesByTurns(m, k);
  }

  /** A number the sender has yet to reach has not been accepted. */
  lemma Unreached(s: System, n: nat)
    requires PacketInv(s) && s.sender.send <= n < TWO_32
    ensures !WasAccepted(s, n)
  {
    assert TextOf(s, n).None?;
  }

  // ---- exactly when it cannot

  /** A number in use in a session that began as `s0`: its sender had yet to reach it, or had a message
      to send again under it. */
  ghost predicate NumberSourced(s0: System, n: nat) {
    n < TWO_32 &&
    (s0.sender.send <= n ||
     exists id :: id in s0.queue.at && Resendable(s0.queue.at[id], s0.sender.peer, s0.floor) && s0.queue.at[id].number == Some(n))
  }

  /** A message of the peer's has a number given since, or stands as it did, and waits only if it did. */
  ghost predicate EntrySourced(s0: System, id: MessageId, e: Entry) {
    || (e.number.None? && e.status != Pending)
    || (e.number.Some? && s0.sender.send <= e.number.value < TWO_32)
    || KeptEntry(s0.queue, id, e)
  }

  ghost predicate Sourced(s0: System, s: System) {
    && s.sender.peer == s0.sender.peer && s.floor == s0.floor && s0.sender.send <= s.sender.send
    && (forall id :: id in s.queue.at && s.queue.at[id].receiver == s.sender.peer ==> EntrySourced(s0, id, s.queue.at[id]))
    && (forall p :: p in s.data ==> NumberSourced(s0, p.number))
    && (forall i :: 0 <= i < |s.accepted| ==> NumberSourced(s0, s.accepted[i].number))
  }

  lemma KeptSourced(s0: System, s: System, r: Queue)
    requires Sourced(s0, s) && KeptFor(s.queue, r, s.sender.peer)
    ensures Sourced(s0, s.(queue := r))
  {
    forall id | id in r.at && r.at[id].receiver == s.sender.peer ensures EntrySourced(s0, id, r.at[id]) {
      assert KeptEntry(s.queue, id, r.at[id]);
      if id in s.queue.at && s.queue.at[id].receiver == s.sender.peer {
        assert EntrySourced(s0, id, s.queue.at[id]);
      }
    }
  }

  lemma SendSourced(s0: System, s: System, id: MessageId, now: real)
    requires PacketInv(s) && Sourced(s0, s)
    ensures Sourced(s0, AfterSend(s, id, now))
  {
    var t := AfterSend(s, id, now);
    if Build(s.queue, id, s.sender, now).result.Built? {
      forall k | k in t.queue.at && t.queue.at[k].receiver == t.sender.peer ensures EntrySourced(s0, k, t.queue.at[k]) {
        if k != id {
          assert t.queue.at[k] == s.queue.at[k];
        }
      }
      assert NumberSourced(s0, s.sender.send);
    } else {
      assert t.queue == s.queue && t.data == s.data && t.accepted == s.accepted;
    }
  }

  lemma SyncSourced(s0: System, s: System, h: nat, now: real)
    requires PacketInv(s) && Sourced(s0, s) && h >= s.floor
    ensures Sourced(s0, AfterSync(s, h, now))
  {
    var t := AfterSync(s, h, now);
    EventKeeps(s, SyncArrives(h, now), s.sender.peer);
    KeptSourced(s0, s, t.queue);
    forall p | p in t.data ensures NumberSourced(s0, p.number) {
      if p !in s.data {
        SyncSendsMessages(s.queue, s.sender, h, now, 0, p);
        var id :| Resends(s.queue, s.sender, h, p, id);
        assert EntrySourced(s0, id, s.queue.at[id]);
      }
    }
  }

  /** A packet that opens has the number of a packet the sender sealed. */
  lemma OpenedNumber(s: System, p: DataPacket)
    requires SenderInv(s) && Deliverable(s, p) && Decrypted(p, s.receiver).Some?
    ensures exists o :: o in s.data && o.number == p.number
  {
    var o :| o in s.data && o.sealed == p.sealed;
    assert Genuine(s, o);
    NonceInjective(s.receiver.sessionId, o.number, p.number);
  }

  lemma DataSourced(s0: System, s: System, p: DataPacket)
    requires PacketInv(s) && Sourced(s0, s) && Deliverable(s, p)
    ensures Sourced(s0, AfterData(s, p))
  {
    var t := AfterData(s, p);
    if Decrypted(p, s.receiver).Some? {
      OpenedNumber(s, p);
    }
    forall i | 0 <= i < |t.accepted| ensures NumberSourced(s0, t.accepted[i].number) {
      assert i < |s.accepted| ==> t.accepted[i] == s.accepted[i];
    }
  }

  lemma OwnSourced(s0: System, s: System, e: Event)
    requires PacketInv(s) && Sourced(s0, s) && Enabled(s, e)
    ensures Sourced(s0, Next(s, e))
  {
    match e {
      case Send(id, now) => SendSourced(s0, s, id, now);
      case DataArrives(p) => DataSourced(s0, s, p);
      case SyncArrives(h, now) => SyncSourced(s0, s, h, now);
      case _ =>
        EventKeeps(s, e, s.sender.peer);
        KeptSourced(s0, s, Next(s, e).queue);
    }
  }

  ghost predicate SourcedAt(m0: Node, m: Node, p: Bytes) {
    p in m0.links && p in m.links && Sourced(View(m0, p), View(m, p))
  }

  ghost predicate AllSourced(m0: Node, m: Node) {
    forall p :: p in m.links ==> SourcedAt(m0, m, p)
  }

  lemma SourcedTurn(m0: Node, m: Node, t: Turn, p: Bytes)
    requires NodeInv(m) && CanTurn(m, t) && SourcedAt(m0, m, p)
    ensures SourcedAt(m0, Turned(m, t), p)
  {
    var k := Turned(m, t);
    if p == t.peer {
      OwnSourced(View(m0, p), View(m, p), t.e);
      assert View(k, p) == Next(View(m, p), t.e);
    } else {
      EventKeeps(View(m, t.peer), t.e, p);
      KeptSourced(View(m0, p), View(m, p), k.queue);
      assert View(k, p) == View(m, p).(queue := k.queue);
    }
  }

  lemma SourcedStep(m0: Node, m: Node, t: Turn)
    requires NodeInv(m) && CanTurn(m, t) && AllSourced(m0, m)
    ensures AllSourced(m0, Turned(m, t))
  {
    forall p | p in Turned(m, t).links ensures SourcedAt(m0, Turned(m, t), p) {
      assert p in m.links;
      SourcedTurn(m0, m, t, p);
    }
  }

  /** A node whose sessions have just begun. */
  ghost predicate Begins(m: Node) {
    && NodeInv(m) && Right(m)
    && forall p :: p in m.links ==> m.links[p].data == {} && m.links[p].accepted == [] && m.links[p].floor == m.links[p].receiver.recv
  }

  lemma BeginsSourced(m: Node)
    requires Begins(m)
    ensures AllSourced(m, m)
  {
    forall p | p in m.links ensures SourcedAt(m, m, p) {
      var s := View(m, p);
      forall id | id in s.queue.at && s.queue.at[id].receiver == s.sender.peer ensures EntrySourced(s, id, s.queue.at[id]) {
        assert KeptEntry(s.queue, id, s.queue.at[id]);
      }
    }
  }

  /** Where no session may acknowledge what another waits for, an acknowledgement finds its own. */
  lemma SolitaryRightful(m0: Node, m: Node, t: Turn)
    requires Begins(m0) && Solitary(m0) && NodeInv(m) && AllSourced(m0, m) && CanTurn(m, t)
    ensures Rightful(m, t)
  {
    if t.e.AckArrives? && Marked(m.queue, t.e.number).Some? {
      var p, n, id := t.peer, t.e.number, Marked(m.queue, t.e.number).value;
      var q := m.queue.at[id].receiver;
      assert AwaitsAck(n)(m.queue.at[id]);
      assert WasAccepted(View(m, p), n);
      if q in m.links {
        assert MayAck(m0, p, n) by { AckedMayAck(m0, m, p, n); }
        assert MayWait(m0, q, n) by { WaitingMayWait(m0, m, q, n, id); }
        assert q == p;
      }
    }
  }

  lemma AckedMayAck(m0: Node, m: Node, p: Bytes, n: nat)
    requires Begins(m0) && NodeInv(m) && AllSourced(m0, m) && p in m.links && WasAccepted(View(m, p), n)
    ensures MayAck(m0, p, n)
  {
    assert SourcedAt(m0, m, p);
    var s0, s := View(m0, p), View(m, p);
    var i :| 0 <= i < |s.accepted| && s.accepted[i].number == n;
    assert NumberSourced(s0, n) && s.floor < n;
  }

  lemma WaitingMayWait(m0: Node, m: Node, q: Bytes, n: nat, id: MessageId)
    requires NodeInv(m0) && NodeInv(m) && AllSourced(m0, m) && q in m.links && Waits(m, q, n, id) && n < TWO_32
    ensures MayWait(m0, q, n)
  {
    assert SourcedAt(m0, m, q);
    assert EntrySourced(View(m0, q), id, m.queue.at[id]);
    if m0.links[q].sender.send > n {
      assert Waits(m0, q, n, id);
    }
  }

  lemma {:induction false} SolitaryRun(m0: Node, m: Node, ts: seq<Turn>)
    requires Begins(m0) && Solitary(m0) && NodeInv(m) && Right(m) && AllSourced(m0, m) && Legal(m, ts)
    ensures Right(After(m, ts))
    decreases |ts|
  {
    if ts != [] {
      SolitaryRightful(m0, m, ts[0]);
      TurnExact(m, ts[0]);
      TurnStep(m, ts[0]);
      SourcedStep(m0, m, ts[0]);
      SolitaryRun(m0, Turned(m, ts[0]), ts[1..]);
    }
  }

  ghost predicate AlwaysRight(m: Node) {
    forall ts :: Legal(m, ts) ==> Right(After(m, ts))
  }

  ghost predicate AllUnblocked(m: Node) {
    forall p :: p in m.links ==> Unblocked(m.queue, p, m.links[p].receiver.recv)
  }

  lemma SolitaryIsFront(m: Node)
    requires m.queue.Wf() && AllUnblocked(m) && SolitaryFront(m)
    ensures Solitary(m)
  {
    forall p, q, n | p != q && MayAck(m, p, n) ensures !MayWait(m, q, n) {
      if m.links[p].sender.send > n {
        var id :| id in m.queue.at && Resendable(m.queue.at[id], p, m.links[p].receiver.recv) && m.queue.at[id].number == Some(n);
        AllInFront(m.queue, p, m.links[p].receiver.recv, id);
      }
      assert MayAckFront(m, p, n);
    }
  }

  /** For a node whose sessions begin: if no number that one session may acknowledge is one that a message
      of another may wait for, then in every run delivered means received, for every peer; and if it does
      in every run, then no such number exists as far as the messages go that no text too long for a
      frame stands before. Without such a text it is one if and only if the other. */
  lemma SharedStartExact(m: Node)
    requires Begins(m)
    ensures Solitary(m) ==> AlwaysRight(m)
    ensures AlwaysRight(m) ==> SolitaryFront(m)
    ensures AllUnblocked(m) ==> (AlwaysRight(m) <==> Solitary(m))
  {
    if Solitary(m) {
      BeginsSourced(m);
      forall ts | Legal(m, ts) ensures Right(After(m, ts)) {
        SolitaryRun(m, m, ts);
      }
    }
    if !SolitaryFront(m) {
      var p, q, n :| p != q && MayAckFront(m, p, n) && MayWait(m, q, n);
      var k, id := Crosses(m, p, q, n);
      var ts := ReachesByTurns(m, k);
      assert Legal(m, ts) && !Right(After(m, ts));
    } else if AllUnblocked(m) {
      SolitaryIsFront(m);
    }
  }
}
