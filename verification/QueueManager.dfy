/** The outgoing message queue: what each operation does to the queue and the session counters,
    as functions on values, and the in-place manager proved to compute exactly those. */
module Queues {

  import opened Basics
  import opened OrderedDicts
  import opened Aead
  import opened Sessions

  const MAX_RETRIES: nat := 5
  const ACK_TIMEOUT: real := 30.0

  /** The longest text a DATA packet takes: what the frame's two-byte length leaves after session id,
      number, length and tag. A longer one is numbered and sealed, but sending it raises an error. */
  const MAX_TEXT: nat := 65503

  predicate Framed(text: Bytes) {
    |text| <= MAX_TEXT
  }

  datatype Status = Queued | Pending | Delivered | Acknowledged | Failed

  datatype Entry = Entry(receiver: Bytes, status: Status, retryCount: nat, plaintext: Bytes,
                         number: Option<nat>, sentAt: Option<real>)

  type Queue = Dict<MessageId, Entry>

  /** The status a stored text names; an unknown text counts as queued. */
  function StatusOf(text: string): Status {
    match text
    case "pending" => Pending
    case "delivered" => Delivered
    case "acknowledged" => Acknowledged
    case "failed" => Failed
    case _ => Queued
  }

  function StatusText(status: Status): string {
    match status
    case Queued => "queued"
    case Pending => "pending"
    case Delivered => "delivered"
    case Acknowledged => "acknowledged"
    case Failed => "failed"
  }

  function Enqueued(q: Queue, id: MessageId, receiver: Bytes, plaintext: Bytes): Queue {
    q.Put(id, Entry(receiver, Queued, 0, plaintext, None, None))
  }

  /** `r` is `q` with the entry of one id set; a new id goes last, an old one keeps its place. */
  ghost predicate SetOnly(q: Queue, r: Queue, id: MessageId) {
    && r.at.Keys == q.at.Keys + {id}
    && r.keys == (if id in q.at then q.keys else q.keys + [id])
    && forall other :: other in q.at && other != id ==> r.at[other] == q.at[other]
  }

  datatype BuildResult = NotQueued | NumberTooLarge | Built(packet: DataPacket, number: nat)

  datatype BuildOutcome = BuildOutcome(queue: Queue, session: SessionState, result: BuildResult)

  /** Numbers, seals and marks a queued message. A number that does not fit four bytes is used up
      without a packet, because the counter moves before the nonce is packed. */
  function Build(q: Queue, id: MessageId, s: SessionState, now: real): BuildOutcome {
    if id !in q.at || q.at[id].status != Queued then BuildOutcome(q, s, NotQueued)
    else
      var n, e := s.send, q.at[id];
      var counted := s.(send := n + 1);
      if n >= TWO_32 then BuildOutcome(q, counted, NumberTooLarge)
      else BuildOutcome(q.Put(id, e.(status := Pending, number := Some(n), sentAt := Some(now))),
                        counted,
                        Built(SealData(s.sessionId, s.key, n, e.plaintext), n))
  }

  datatype RebuildResult = NothingToSend | CannotPack | Rebuilt(packet: DataPacket)

  /** Seals a message again under the number it already has. */
  function Rebuild(q: Queue, id: MessageId, s: SessionState): RebuildResult {
    if id !in q.at || q.at[id].number.None? || q.at[id].plaintext == [] then NothingToSend
    else if q.at[id].number.value >= TWO_32 then CannotPack
    else Rebuilt(SealData(s.sessionId, s.key, q.at[id].number.value, q.at[id].plaintext))
  }

  function Stamped(q: Queue, id: MessageId, now: real): Queue {
    if id in q.at then q.Put(id, q.at[id].(sentAt := Some(now))) else q
  }

  /** The test an acknowledgement uses to pick a message: its number, whoever the receiver is. */
  function AwaitsAck(number: nat): Entry -> bool {
    (e: Entry) => e.status == Pending && e.number == Some(number)
  }

  function AwaitsAppAck(peer: Bytes, number: nat): Entry -> bool {
    (e: Entry) => e.receiver == peer && e.number == Some(number) && e.status == Delivered
  }

  function Overdue(now: real): Entry -> bool {
    (e: Entry) => e.status == Pending && e.sentAt.Some? && now - e.sentAt.value > ACK_TIMEOUT
  }

  function WithStatus(q: Queue, found: Option<MessageId>, status: Status): Queue
    requires found.Some? ==> found.value in q.at
  {
    if found.None? then q else q.Put(found.value, q.at[found.value].(status := status))
  }

  function Acked(q: Queue, number: nat): Queue
    requires q.Wf()
  {
    WithStatus(q, FirstKey(q, AwaitsAck(number), 0), Delivered)
  }

  function AppAcked(q: Queue, peer: Bytes, number: nat): Queue
    requires q.Wf()
  {
    WithStatus(q, FirstKey(q, AwaitsAppAck(peer, number), 0), Acknowledged)
  }

  /** A timed-out message goes back to the queue, or fails at its fifth timeout. */
  function TimedOut(q: Queue, id: MessageId): Queue {
    if id !in q.at then q
    else
      var e := q.at[id];
      q.Put(id, e.(retryCount := e.retryCount + 1,
                   status := if e.retryCount + 1 >= MAX_RETRIES then Failed else Queued))
  }

  /** The plaintext of an incoming packet, if it is neither a replay nor unreadable. */
  function Decrypted(p: DataPacket, s: SessionState): Option<Bytes> {
    if p.number <= s.recv || p.number >= TWO_32 then None
    else Open(s.key, p.sealed, BuildNonce(s.sessionId, p.number), DataAad(p.number))
  }

  /** The receive counter moves only for a packet that opened. */
  function AfterDecrypt(p: DataPacket, s: SessionState): SessionState {
    if Decrypted(p, s).Some? then s.(recv := p.number) else s
  }

  class QueueManager {
    var queue: Queue

    constructor ()
      ensures queue == Empty()
    {
      queue := Empty();
    }

    method Enqueue(id: MessageId, receiver: Bytes, plaintext: Bytes)
      modifies this
      ensures SetOnly(old(queue), queue, id) && queue == Enqueued(old(queue), id, receiver, plaintext)
      ensures queue.at[id].receiver == receiver && queue.at[id].plaintext == plaintext && queue.at[id].status == Queued
      ensures queue.at[id].retryCount == 0 && queue.at[id].number == None && queue.at[id].sentAt == None
    {
      queue := queue.Put(id, Entry(receiver, Queued, 0, plaintext, None, None));
    }

    method RestoreEntry(id: MessageId, receiver: Bytes, status: string, retryCount: nat,
                        plaintext: Bytes, number: Option<nat>)
      modifies this
      ensures SetOnly(old(queue), queue, id)
      ensures queue.at[id].receiver == receiver && queue.at[id].plaintext == plaintext && queue.at[id].number == number
      ensures queue.at[id].retryCount == retryCount && queue.at[id].sentAt == None
      ensures status in {"queued", "pending", "delivered", "acknowledged", "failed"} ==> StatusText(queue.at[id].status) == status
      ensures status !in {"queued", "pending", "delivered", "acknowledged", "failed"} ==> queue.at[id].status == Queued
    {
      queue := queue.Put(id, Entry(receiver, StatusOf(status), retryCount, plaintext, number, None));
    }

    method BuildDataPacket(id: MessageId, session: Session, now: real) returns (result: BuildResult)
      requires this as object != session
      modifies this, session`sendSequence
      ensures BuildOutcome(queue, session.State(), result) == Build(old(queue), id, old(session.State()), now)
    {
      if id !in queue.at || queue.at[id].status != Queued {
        return NotQueued;
      }
      var number := session.NextSequence();
      if number >= TWO_32 {
        return NumberTooLarge;
      }
      var entry := queue.at[id];
      var packet := SealData(session.sessionId, session.encryptionKey, number, entry.plaintext);
      queue := queue.Put(id, entry.(status := Pending, number := Some(number), sentAt := Some(now)));
      return Built(packet, number);
    }

    method RebuildForSync(id: MessageId, session: Session, now: real) returns (result: RebuildResult)
      modifies this
      ensures result == Rebuild(old(queue), id, session.State())
      ensures queue == if result.Rebuilt? then Stamped(old(queue), id, now) else old(queue)
    {
      if id !in queue.at || queue.at[id].number.None? || queue.at[id].plaintext == [] {
        return NothingToSend;
      }
      var entry := queue.at[id];
      if entry.number.value >= TWO_32 {
        return CannotPack;
      }
      result := Rebuilt(SealData(session.sessionId, session.encryptionKey, entry.number.value, entry.plaintext));
      queue := queue.Put(id, entry.(sentAt := Some(now)));
    }

    method HandleAck(number: nat) returns (found: Option<MessageId>)
      requires queue.Wf()
      modifies this
      ensures found == FirstKey(old(queue), AwaitsAck(number), 0)
      ensures queue == Acked(old(queue), number) && queue.Wf()
    {
      var i := 0;
      while i < |queue.keys|
        invariant i <= |queue.keys| && queue == old(queue)
        invariant FirstKey(queue, AwaitsAck(number), i) == FirstKey(queue, AwaitsAck(number), 0)
      {
        var id := queue.keys[i];
        var entry := queue.at[id];
        assert AwaitsAck(number)(entry) <==> entry.status == Pending && entry.number == Some(number);
        if entry.status == Pending && entry.number == Some(number) {
          assert FirstKey(queue, AwaitsAck(number), 0) == Some(id);
          queue := queue.Put(id, entry.(status := Delivered));
          return Some(id);
        }
        i := i + 1;
      }
      return None;
    }

    method HandleTimeout(id: MessageId) returns (status: Status)
      modifies this
      ensures queue == TimedOut(old(queue), id)
      ensures status == if id in queue.at then queue.at[id].status else Failed
    {
      if id !in queue.at {
        return Failed;
      }
      var entry := queue.at[id];
      entry := entry.(retryCount := entry.retryCount + 1);
      if entry.retryCount >= MAX_RETRIES {
        queue := queue.Put(id, entry.(status := Failed));
        return Failed;
      }
      queue := queue.Put(id, entry.(status := Queued));
      return Queued;
    }

    method AcknowledgeBySequence(peer: Bytes, number: nat) returns (found: Option<MessageId>)
      requires queue.Wf()
      modifies this
      ensures found == FirstKey(old(queue), AwaitsAppAck(peer, number), 0)
      ensures queue == AppAcked(old(queue), peer, number) && queue.Wf()
    {
      var i := 0;
      while i < |queue.keys|
        invariant i <= |queue.keys| && queue == old(queue)
        invariant FirstKey(queue, AwaitsAppAck(peer, number), i) == FirstKey(queue, AwaitsAppAck(peer, number), 0)
      {
        var id := queue.keys[i];
        var entry := queue.at[id];
        assert AwaitsAppAck(peer, number)(entry) <==> entry.receiver == peer && entry.number == Some(number) && entry.status == Delivered;
        if entry.receiver == peer && entry.number == Some(number) && entry.status == Delivered {
          assert FirstKey(queue, AwaitsAppAck(peer, number), 0) == Some(id);
          queue := queue.Put(id, entry.(status := Acknowledged));
          return Some(id);
        }
        i := i + 1;
      }
      return None;
    }

    /** Messages pending for more than thirty seconds; one never stamped with a send time never qualifies. */
    method TimedOutMessages(now: real) returns (ids: seq<MessageId>)
      requires queue.Wf()
      ensures ids == KeysFrom(queue, Overdue(now), 0) && Distinct(ids)
      ensures forall id :: id in ids <==> id in queue.at && queue.at[id].status == Pending &&
                                          queue.at[id].sentAt.Some? && now - queue.at[id].sentAt.value > ACK_TIMEOUT
    {
      ids := [];
      var i := 0;
      KeysExact(queue, Overdue(now));
      while i < |queue.keys|
        invariant i <= |queue.keys|
        invariant ids + KeysFrom(queue, Overdue(now), i) == KeysFrom(queue, Overdue(now), 0)
      {
        var e := queue.at[queue.keys[i]];
        var since := if e.sentAt.Some? then e.sentAt.value else now;
        if e.status == Pending && now - since > ACK_TIMEOUT {
          Associative(ids, [queue.keys[i]], KeysFrom(queue, Overdue(now), i + 1));
          ids := ids + [queue.keys[i]];
        }
        i := i + 1;
      }
    }

    static method DecryptDataPacket(p: DataPacket, session: Session) returns (plaintext: Option<Bytes>)
      modifies session`recvSequence
      ensures plaintext == Decrypted(p, old(session.State()))
      ensures session.State() == AfterDecrypt(p, old(session.State()))
    {
      if !session.CheckRecvSequence(p.number) || p.number >= TWO_32 {
        return None;
      }
      plaintext := Open(session.encryptionKey, p.sealed, BuildNonce(session.sessionId, p.number), DataAad(p.number));
      if plaintext.Some? {
        session.AdvanceRecvSequence(p.number);
      }
    }
  }

  /** An acknowledgement carries only a number. Among several peers it marks the message that peer
      received exactly when no earlier entry, for whichever receiver, is pending under that number. */
  lemma AckCredits(q: Queue, number: nat, at: nat)
    requires q.Wf() && at < |q.keys| && AwaitsAck(number)(q.at[q.keys[at]])
    ensures FirstKey(q, AwaitsAck(number), 0) == Some(q.keys[at]) <==>
            forall i :: 0 <= i < at ==> !AwaitsAck(number)(q.at[q.keys[i]])
  {
    var found := FirstKey(q, AwaitsAck(number), 0);
    var j :| 0 <= j < |q.keys| && q.keys[j] == found.value && AwaitsAck(number)(q.at[q.keys[j]]) &&
             forall i :: 0 <= i < j ==> !AwaitsAck(number)(q.at[q.keys[i]]);
  }
}
