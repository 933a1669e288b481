/** Sequence numbers across crashes. One node and one peer: every database write is queued, writes
    become durable in the order they were queued, a handler goes on only once its own write is
    durable, and a crash at any moment loses the writes still queued and everything in memory. */
module Recovery {

  import opened Basics
  import opened Sessions

  // ---- the database

  datatype Row = Row(sid: Bytes, send: nat, recv: nat)

  /** The session rows of the peer in insertion order, and the numbered rows of the message table. */
  datatype Disk = Disk(rows: seq<Row>, numbers: map<MessageId, nat>)

  datatype Write =
    | SaveRow(sid: Bytes, send: nat, recv: nat)
    | SetSend(sid: Bytes, value: nat)
    | SetRecv(sid: Bytes, value: nat)
    | SetNumber(id: MessageId, number: nat)

  function RowsWithout(rows: seq<Row>, sid: Bytes): seq<Row> {
    if rows == [] then []
    else (if rows[0].sid == sid then [] else [rows[0]]) + RowsWithout(rows[1..], sid)
  }

  function Perform(d: Disk, w: Write): Disk {
    match w
    case SaveRow(sid, send, recv) => d.(rows := RowsWithout(d.rows, sid) + [Row(sid, send, recv)])
    case SetSend(sid, v) =>
      d.(rows := seq(|d.rows|, i requires 0 <= i < |d.rows| => if d.rows[i].sid == sid then d.rows[i].(send := v) else d.rows[i]))
    case SetRecv(sid, v) =>
      d.(rows := seq(|d.rows|, i requires 0 <= i < |d.rows| => if d.rows[i].sid == sid then d.rows[i].(recv := v) else d.rows[i]))
    case SetNumber(id, n) => d.(numbers := d.numbers[id := n])
  }

  /** The floors a restart loads: the last row of the peer, if any. */
  function FloorsOf(d: Disk): Option<Floors> {
    if d.rows == [] then None else Some(Floors(d.rows[|d.rows| - 1].send, d.rows[|d.rows| - 1].recv))
  }

  /** The counters a fresh session would get from the stored floors. */
  function StoredSend(d: Disk): nat {
    if d.rows == [] then 1 else Max(1, d.rows[|d.rows| - 1].send)
  }

  function StoredRecv(d: Disk): nat {
    if d.rows == [] then 0 else d.rows[|d.rows| - 1].recv
  }

  // ---- the process

  datatype Job =
    | SavingCounter(id: MessageId, number: nat, ticket: nat)
    | SavingNumber(id: MessageId, number: nat, ticket: nat)
    | SavingReceipt(number: nat, ticket: nat)

  /** `writes` lists every write queued since the process began, of which `done` are durable; those of
      the live session begin at `first`. */
  datatype Process = Process(floors: Option<Floors>, live: Option<SessionState>, numbers: map<MessageId, nat>,
                             writes: seq<Write>, done: nat, first: nat, jobs: seq<Job>)

  /** A number given to a message. */
  datatype Use = Use(number: nat, id: MessageId)

  /** The node, with the history the claims speak of: packets sent, numbers ever stored with a
      message, numbers acknowledged, and the numbers given out since the session began at `start`. */
  datatype Node = Node(disk: Disk, up: Option<Process>, sent: set<Use>, stored: set<Use>, acked: set<nat>,
                       claims: set<Use>, start: nat)

  datatype Event =
    | Crash
    | Boot(kept: set<MessageId>)
    | Handshake(sid: Bytes)
    | Number(id: MessageId)             // build_data_packet, then the counter write is queued
    | Accept(number: nat)               // a DATA packet opened, then the receipt write is queued
    | Flush                             // shutdown saves the session row again
    | Commit                            // the oldest queued write becomes durable
    | Resume(job: nat)                  // a handler whose write is durable goes on
    | SyncResend(id: MessageId)         // a SYNC answer sends a numbered message at once
    | Disconnect                        // the session is dropped while the process lives on
    | Refused                           // a handshake takes the floors, then finds no room for its session

  ghost predicate Enabled(s: Node, e: Event) {
    match e
    case Crash => true
    case Boot(_) => s.up.None?
    case Handshake(sid) => s.up.Some? && s.up.value.live.None? && forall r :: r in s.disk.rows ==> r.sid != sid
    case Number(_) => s.up.Some? && s.up.value.live.Some?
    case Accept(n) => s.up.Some? && s.up.value.live.Some? && n > s.up.value.live.value.recv
    case Flush => s.up.Some? && s.up.value.live.Some?
    case Commit => s.up.Some? && s.up.value.done < |s.up.value.writes|
    case Resume(i) => s.up.Some? && i < |s.up.value.jobs| && s.up.value.jobs[i].ticket < s.up.value.done
    case SyncResend(id) => s.up.Some? && s.up.value.live.Some? && id in s.up.value.numbers
    case Disconnect => s.up.Some? && s.up.value.live.Some?
    case Refused => s.up.Some? && s.up.value.live.None?
  }

  function Restrict(m: map<MessageId, nat>, kept: set<MessageId>): map<MessageId, nat> {
    map id | id in m && id in kept :: m[id]
  }

  function Next(s: Node, e: Event): Node
    requires Enabled(s, e)
  {
    match e
    case Crash => s.(up := None)
    case Boot(kept) =>
      s.(up := Some(Process(FloorsOf(s.disk), None, Restrict(s.disk.numbers, kept), [], 0, 0, [])), claims := {})
    case Handshake(sid) =>
      var p := s.up.value;
      var live := WithFloors(SessionState(sid, [], [], 1, 0), p.floors);
      s.(up := Some(p.(floors := None, live := Some(live), first := |p.writes|,
                       writes := p.writes + [SaveRow(sid, live.send, live.recv)])),
         start := live.send, claims := {})
    case Number(id) =>
      var p := s.up.value;
      var n := p.live.value.send;
      var live := p.live.value.(send := n + 1);
      s.(up := Some(p.(live := Some(live), numbers := p.numbers[id := n],
                       writes := p.writes + [SetSend(live.sessionId, n + 1)],
                       jobs := p.jobs + [SavingCounter(id, n, |p.writes|)])),
         claims := s.claims + {Use(n, id)})
    case Accept(n) =>
      var p := s.up.value;
      var live := p.live.value.(recv := n);
      s.(up := Some(p.(live := Some(live), writes := p.writes + [SetRecv(live.sessionId, n)],
                       jobs := p.jobs + [SavingReceipt(n, |p.writes|)])))
    case Flush =>
      var p := s.up.value;
      var live := p.live.value;
      s.(up := Some(p.(writes := p.writes + [SaveRow(live.sessionId, live.send, live.recv)])))
    case Commit =>
      var p := s.up.value;
      var w := p.writes[p.done];
      s.(disk := Perform(s.disk, w), up := Some(p.(done := p.done + 1)),
         stored := if w.SetNumber? then s.stored + {Use(w.number, w.id)} else s.stored)
    case Resume(i) =>
      var p := s.up.value;
      (match p.jobs[i]
       case SavingCounter(id, n, _) =>
         s.(up := Some(p.(writes := p.writes + [SetNumber(id, n)], jobs := p.jobs[i := SavingNumber(id, n, |p.writes|)])))
       case SavingNumber(id, n, _) =>
         s.(up := Some(p.(jobs := p.jobs[..i] + p.jobs[i + 1..])), sent := s.sent + {Use(n, id)})
       case SavingReceipt(n, _) =>
         s.(up := Some(p.(jobs := p.jobs[..i] + p.jobs[i + 1..])), acked := s.acked + {n}))
    case SyncResend(id) => s.(sent := s.sent + {Use(s.up.value.numbers[id], id)})
    case Disconnect =>
      var p := s.up.value;
      s.(up := Some(p.(live := None)))
    case Refused =>
      var p := s.up.value;
      s.(up := Some(p.(floors := None)))
  }

  /** The process is not waiting for the counter write of this message's number. */
  predicate Saved(s: Node, id: MessageId)
    requires s.up.Some? && id in s.up.value.numbers
  {
    var p := s.up.value;
    forall i :: p.done <= i < |p.writes| && p.writes[i].SetSend? ==> p.writes[i].value != p.numbers[id] + 1
  }

  /** The live session's counters are as a session without floors starts: nothing sent, nothing received. */
  predicate Unused(s: Node)
    requires s.up.Some? && s.up.value.live.Some?
  {
    s.up.value.live.value.send == 1 && s.up.value.live.value.recv == 0
  }

  /** The floors a refused handshake takes are those a session without floors starts with anyway. */
  predicate Harmless(s: Node)
    requires s.up.Some?
  {
    StartSend(s.up.value) == 1 && StartRecv(s.up.value) == 0
  }

  /** A process drops only an unused session, refuses a handshake only if no floors are lost with it, and
      answers a SYNC only once the number is saved. */
  ghost predicate Admitted(s: Node, e: Event)
    requires Enabled(s, e)
  {
    (e.Disconnect? ==> Unused(s)) && (e.Refused? ==> Harmless(s)) && (e.SyncResend? ==> Saved(s, e.id))
  }

  ghost predicate Legal(s: Node, es: seq<Event>)
    decreases |es|
  {
    es == [] || (Enabled(s, es[0]) && Admitted(s, es[0]) && Legal(Next(s, es[0]), es[1..]))
  }

  ghost function After(s: Node, es: seq<Event>): Node
    requires Legal(s, es)
    decreases |es|
  {
    if es == [] then s else After(Next(s, es[0]), es[1..])
  }

  const FRESH: Node := Node(Disk([], map[]), None, {}, {}, {}, {}, 1)

  // ---- invariant

  ghost predicate InUse(s: Node, u: Use) {
    u in s.sent || u in s.stored
  }

  /** The authority rule: the database is ahead of every number sent, every number stored with a
      message and every number acknowledged. */
  ghost predicate Authority(s: Node) {
    && (forall u :: InUse(s, u) ==> u.number < StoredSend(s.disk))
    && (forall n :: n in s.acked ==> n <= StoredRecv(s.disk))
  }

  /** No number belongs to two messages. */
  ghost predicate Unshared(s: Node) {
    forall u, v | InUse(s, u) && InUse(s, v) :: u.number == v.number ==> u.id == v.id
  }

  ghost predicate DiskInv(s: Node) {
    && Authority(s) && Unshared(s)
    && (forall id :: id in s.disk.numbers ==> Use(s.disk.numbers[id], id) in s.stored)
    && (forall u :: InUse(s, u) ==> u.number >= 1)
    && (forall n :: n in s.acked ==> n >= 1)
  }

  /** Performing the queued writes never lowers a stored counter, raises the send counter strictly
      where a write is for that counter, and ends at the given counters. */
  ghost predicate Rising(d: Disk, ws: seq<Write>, send: nat, recv: nat)
    decreases |ws|
  {
    if ws == [] then StoredSend(d) == send && StoredRecv(d) == recv
    else
      var d' := Perform(d, ws[0]);
      StoredSend(d) <= StoredSend(d') && StoredRecv(d) <= StoredRecv(d') && Strict(d, ws[0]) && Rising(d', ws[1..], send, recv)
  }

  predicate Strict(d: Disk, w: Write) {
    w.SetSend? ==> StoredSend(d) < w.value == StoredSend(Perform(d, w))
  }

  /** The first write of a session saves its row; the later ones name that row or a message. */
  ghost predicate SessionWrites(ws: seq<Write>, first: nat, sid: Bytes) {
    && first < |ws| && ws[first].SaveRow?
    && (forall i :: first <= i < |ws| && !ws[i].SetNumber? ==> ws[i].sid == sid)
  }

  ghost predicate RowIsLast(d: Disk, sid: Bytes) {
    d.rows != [] && d.rows[|d.rows| - 1].sid == sid
  }

  ghost predicate JobInv(s: Node, p: Process, j: Job)
    requires p.live.Some?
  {
    && p.first < j.ticket < |p.writes|
    && match j
       case SavingCounter(id, n, t) =>
         && Use(n, id) in s.claims
         && (if t < p.done then n < StoredSend(s.disk) else p.writes[t] == SetSend(p.live.value.sessionId, n + 1))
       case SavingNumber(id, n, t) =>
         && Use(n, id) in s.claims && n < StoredSend(s.disk)
         && (if t < p.done then Use(n, id) in s.stored else p.writes[t] == SetNumber(id, n))
       case SavingReceipt(n, t) =>
         && 1 <= n <= p.live.value.recv
         && (if t < p.done then n <= StoredRecv(s.disk) else p.writes[t] == SetRecv(p.live.value.sessionId, n))
  }

  ghost predicate ClaimsInv(s: Node, live: SessionState) {
    && 1 <= s.start <= live.send
    && (forall u :: u in s.claims ==> s.start <= u.number < live.send)
    && (forall u, v | u in s.claims && v in s.claims :: u.number == v.number ==> u.id == v.id)
    && (forall u :: InUse(s, u) ==> u.number < s.start || u in s.claims)
  }

  ghost predicate NumberWrites(s: Node, p: Process) {
    forall i :: p.done <= i < |p.writes| && p.writes[i].SetNumber? ==>
      p.writes[i].number < StoredSend(s.disk) && Use(p.writes[i].number, p.writes[i].id) in s.claims
  }

  /** A number given out is covered by the database or its counter write is still queued. */
  ghost predicate ClaimsQueued(s: Node, p: Process)
    requires p.live.Some?
  {
    forall u :: u in s.claims ==> u.number < StoredSend(s.disk) || IsQueued(p, SetSend(p.live.value.sessionId, u.number + 1))
  }

  ghost predicate IsQueued(p: Process, w: Write) {
    exists i :: p.done <= i < |p.writes| && p.writes[i] == w
  }

  ghost predicate MemoryInv(s: Node, p: Process) {
    forall id :: id in p.numbers ==> Use(p.numbers[id], id) in s.stored || Use(p.numbers[id], id) in s.claims
  }

  ghost predicate SessionInv(s: Node, p: Process)
    requires p.live.Some?
  {
    var live := p.live.value;
    && p.floors.None?
    && p.done <= |p.writes| && SessionWrites(p.writes, p.first, live.sessionId)
    && (p.done > p.first ==> RowIsLast(s.disk, live.sessionId))
    && Rising(s.disk, p.writes[p.done..], live.send, live.recv)
    && ClaimsInv(s, live) && ClaimsQueued(s, p)
    && NumberWrites(s, p)
    && (forall i :: 0 <= i < |p.jobs| ==> JobInv(s, p, p.jobs[i]))
  }

  /** The counters the next session of the process will start with. */
  function StartSend(p: Process): nat {
    if p.floors.None? then 1 else Max(p.floors.value.send, 1)
  }

  function StartRecv(p: Process): nat {
    if p.floors.None? then 0 else Max(p.floors.value.recv, 0)
  }

  /** Between sessions nothing is in flight, and the queued writes lead to the counters of the next session. */
  ghost predicate IdleInv(s: Node, p: Process) {
    && p.done <= |p.writes| && p.jobs == [] && s.claims == {} && NumberWrites(s, p)
    && Rising(s.disk, p.writes[p.done..], StartSend(p), StartRecv(p))
  }

  ghost predicate Inv(s: Node) {
    && DiskInv(s)
    && (s.up.Some? ==>
          && MemoryInv(s, s.up.value)
          && (if s.up.value.live.Some? then SessionInv(s, s.up.value) else IdleInv(s, s.up.value)))
  }

  // ---- preservation

  lemma {:induction false} RisingBound(d: Disk, ws: seq<Write>, send: nat, recv: nat)
    requires Rising(d, ws, send, recv)
    ensures StoredSend(d) <= send && StoredRecv(d) <= recv
    decreases |ws|
  {
    if ws != [] {
      RisingBound(Perform(d, ws[0]), ws[1..], send, recv);
    }
  }

  ghost function DiskAfter(d: Disk, ws: seq<Write>): Disk
    decreases |ws|
  {
    if ws == [] then d else DiskAfter(Perform(d, ws[0]), ws[1..])
  }

  /** Queueing one more write that raises the counters keeps the queue rising. */
  lemma {:induction false} RisingAppend(d: Disk, ws: seq<Write>, w: Write, send: nat, recv: nat, send': nat, recv': nat)
    requires Rising(d, ws, send, recv) && send <= send' && recv <= recv' && (w.SetSend? ==> send < w.value == send')
    requires StoredSend(Perform(DiskAfter(d, ws), w)) == send' && StoredRecv(Perform(DiskAfter(d, ws), w)) == recv'
    ensures Rising(d, ws + [w], send', recv')
    decreases |ws|
  {
    if ws == [] {
      assert (ws + [w])[1..] == [];
      assert Rising(Perform(d, w), [], send', recv');
    } else {
      assert (ws + [w])[1..] == ws[1..] + [w];
      RisingAppend(Perform(d, ws[0]), ws[1..], w, send, recv, send', recv');
    }
  }

  lemma {:induction false} RisingEnds(d: Disk, ws: seq<Write>, send: nat, recv: nat)
    requires Rising(d, ws, send, recv)
    ensures StoredSend(DiskAfter(d, ws)) == send && StoredRecv(DiskAfter(d, ws)) == recv
    decreases |ws|
  {
    if ws != [] {
      RisingEnds(Perform(d, ws[0]), ws[1..], send, recv);
    }
  }

  lemma PerformKeepsLast(d: Disk, w: Write, sid: Bytes)
    requires !w.SetNumber? ==> w.sid == sid
    requires RowIsLast(d, sid) || w.SaveRow?
    ensures RowIsLast(Perform(d, w), sid)
  {
  }

  lemma {:induction false} LastAfter(d: Disk, ws: seq<Write>, sid: Bytes)
    requires forall i :: 0 <= i < |ws| && !ws[i].SetNumber? ==> ws[i].sid == sid
    requires RowIsLast(d, sid) || (ws != [] && ws[0].SaveRow?)
    ensures RowIsLast(DiskAfter(d, ws), sid)
    decreases |ws|
  {
    if ws != [] {
      PerformKeepsLast(d, ws[0], sid);
      LastAfter(Perform(d, ws[0]), ws[1..], sid);
    }
  }

  /** The same when the row is saved by a later write. */
  lemma {:induction false} LastFrom(d: Disk, ws: seq<Write>, k: nat, sid: Bytes)
    requires k < |ws| && ws[k].SaveRow? && forall i :: k <= i < |ws| && !ws[i].SetNumber? ==> ws[i].sid == sid
    ensures RowIsLast(DiskAfter(d, ws), sid)
    decreases |ws|
  {
    if k == 0 {
      LastAfter(d, ws, sid);
    } else {
      LastFrom(Perform(d, ws[0]), ws[1..], k - 1, sid);
    }
  }

  /** Every counter write still queued is above the stored counter. */
  lemma {:induction false} QueuedAbove(d: Disk, ws: seq<Write>, send: nat, recv: nat)
    requires Rising(d, ws, send, recv)
    ensures forall i :: 0 <= i < |ws| && ws[i].SetSend? ==> StoredSend(d) < ws[i].value
    decreases |ws|
  {
    if ws != [] {
      QueuedAbove(Perform(d, ws[0]), ws[1..], send, recv);
    }
  }

  /** The row a session writes to is the last one once its queued writes are done. */
  lemma SessionLast(s: Node, p: Process)
    requires p.live.Some? && SessionInv(s, p)
    ensures RowIsLast(DiskAfter(s.disk, p.writes[p.done..]), p.live.value.sessionId)
  {
    if p.done > p.first {
      LastAfter(s.disk, p.writes[p.done..], p.live.value.sessionId);
    } else {
      LastFrom(s.disk, p.writes[p.done..], p.first - p.done, p.live.value.sessionId);
    }
  }

  /** Queueing a write for the live session's new counters keeps its queue rising. */
  lemma QueueWrite(s: Node, p: Process, w: Write, send: nat, recv: nat)
    requires p.live.Some? && SessionInv(s, p)
    requires p.live.value.send <= send && p.live.value.recv <= recv
    requires || (w == SetSend(p.live.value.sessionId, send) && p.live.value.send < send && recv == p.live.value.recv)
             || (w == SetRecv(p.live.value.sessionId, recv) && send == p.live.value.send)
             || w == SaveRow(p.live.value.sessionId, send, recv)
             || (w.SetNumber? && send == p.live.value.send && recv == p.live.value.recv)
    ensures Rising(s.disk, (p.writes + [w])[p.done..], send, recv)
    ensures SessionWrites(p.writes + [w], p.first, p.live.value.sessionId)
  {
    var ws, live := p.writes[p.done..], p.live.value;
    SessionLast(s, p);
    RisingEnds(s.disk, ws, live.send, live.recv);
    assert (p.writes + [w])[p.done..] == ws + [w];
    WriteCounters(DiskAfter(s.disk, ws), w, live, send, recv);
    RisingAppend(s.disk, ws, w, live.send, live.recv, send, recv);
  }

  /** What such a write makes of the counters stored in the session's row. */
  lemma WriteCounters(d: Disk, w: Write, live: SessionState, send: nat, recv: nat)
    requires RowIsLast(d, live.sessionId) && StoredSend(d) == live.send <= send && StoredRecv(d) == live.recv <= recv
    requires || (w == SetSend(live.sessionId, send) && recv == live.recv)
             || (w == SetRecv(live.sessionId, recv) && send == live.send)
             || w == SaveRow(live.sessionId, send, recv)
             || (w.SetNumber? && send == live.send && recv == live.recv)
    ensures StoredSend(Perform(d, w)) == send && StoredRecv(Perform(d, w)) == recv
  {
  }

  /** A job keeps its standing when writes are added behind it. */
  lemma JobsKept(s: Node, t: Node, p: Process, p': Process)
    requires p.live.Some? && p'.live.Some? && p'.live.value.sessionId == p.live.value.sessionId
    requires forall i :: 0 <= i < |p.jobs| ==> JobInv(s, p, p.jobs[i])
    requires p.writes <= p'.writes && p'.done == p.done && t.disk == s.disk && s.claims <= t.claims && s.stored <= t.stored
    requires p'.first == p.first
    requires p.live.value.recv <= p'.live.value.recv
    ensures forall i :: 0 <= i < |p.jobs| ==> JobInv(t, p', p.jobs[i])
  {
    forall i | 0 <= i < |p.jobs| ensures JobInv(t, p', p.jobs[i]) {
      assert JobInv(s, p, p.jobs[i]);
    }
  }

  /** Giving out the next number claims a number nobody holds. */
  lemma ClaimNext(s: Node, t: Node, live: SessionState, id: MessageId)
    requires ClaimsInv(s, live)
    requires t.claims == s.claims + {Use(live.send, id)} && t.start == s.start && t.sent == s.sent && t.stored == s.stored
    ensures ClaimsInv(t, live.(send := live.send + 1))
  {
    assert forall u :: InUse(t, u) ==> InUse(s, u);
  }

  lemma NumberJobs(s: Node, t: Node, p: Process, p': Process, id: MessageId)
    requires p.live.Some? && p'.live == Some(p.live.value.(send := p.live.value.send + 1))
    requires forall i :: 0 <= i < |p.jobs| ==> JobInv(s, p, p.jobs[i])
    requires p'.writes == p.writes + [SetSend(p.live.value.sessionId, p.live.value.send + 1)]
    requires p'.jobs == p.jobs + [SavingCounter(id, p.live.value.send, |p.writes|)] && p'.done == p.done <= |p.writes|
    requires p'.first == p.first < |p.writes|
    requires t.disk == s.disk && t.stored == s.stored && t.claims == s.claims + {Use(p.live.value.send, id)}
    ensures forall i :: 0 <= i < |p'.jobs| ==> JobInv(t, p', p'.jobs[i])
  {
    JobsKept(s, t, p, p');
    assert JobInv(t, p', SavingCounter(id, p.live.value.send, |p.writes|));
    forall i | 0 <= i < |p'.jobs| ensures JobInv(t, p', p'.jobs[i]) {
      if i < |p.jobs| { assert p'.jobs[i] == p.jobs[i]; }
    }
  }

  lemma NumberWritesKept(s: Node, t: Node, p: Process, p': Process)
    requires NumberWrites(s, p) && p'.done == p.done && t.disk == s.disk && s.claims <= t.claims
    requires |p'.writes| == |p.writes| + 1 && p.writes <= p'.writes && !p'.writes[|p.writes|].SetNumber?
    ensures NumberWrites(t, p')
  {
    forall i | p'.done <= i < |p'.writes| && p'.writes[i].SetNumber?
      ensures p'.writes[i].number < StoredSend(t.disk) && Use(p'.writes[i].number, p'.writes[i].id) in t.claims
    {
      assert p'.writes[i] == p.writes[i];
    }
  }

  lemma NumberQueued(s: Node, t: Node, p: Process, p': Process, id: MessageId)
    requires p.live.Some? && ClaimsQueued(s, p) && p.done <= |p.writes| && p'.done == p.done && t.disk == s.disk
    requires p'.live == Some(p.live.value.(send := p.live.value.send + 1))
    requires p'.writes == p.writes + [SetSend(p.live.value.sessionId, p.live.value.send + 1)]
    requires t.claims == s.claims + {Use(p.live.value.send, id)}
    ensures ClaimsQueued(t, p')
  {
    var w := SetSend(p.live.value.sessionId, p.live.value.send + 1);
    assert p'.writes[|p.writes|] == w && IsQueued(p', w);
    ClaimsKept(s, t, p, p');
  }

  lemma NumberSession(s: Node, t: Node, p: Process, id: MessageId)
    requires p.live.Some? && SessionInv(s, p)
    requires t.disk == s.disk && t.sent == s.sent && t.stored == s.stored && t.start == s.start
    requires t.claims == s.claims + {Use(p.live.value.send, id)}
    ensures var n, live := p.live.value.send, p.live.value;
            SessionInv(t, p.(live := Some(live.(send := n + 1)), numbers := p.numbers[id := n],
                             writes := p.writes + [SetSend(live.sessionId, n + 1)],
                             jobs := p.jobs + [SavingCounter(id, n, |p.writes|)]))
  {
    var n, live := p.live.value.send, p.live.value;
    var p' := p.(live := Some(live.(send := n + 1)), numbers := p.numbers[id := n],
                 writes := p.writes + [SetSend(live.sessionId, n + 1)], jobs := p.jobs + [SavingCounter(id, n, |p.writes|)]);
    QueueWrite(s, p, SetSend(live.sessionId, n + 1), n + 1, live.recv);
    NumberJobs(s, t, p, p', id);
    ClaimNext(s, t, live, id);
    NumberWritesKept(s, t, p, p');
    NumberQueued(s, t, p, p', id);
  }

  lemma NumberStep(s: Node, id: MessageId)
    requires Inv(s) && Enabled(s, Number(id))
    ensures Inv(Next(s, Number(id)))
  {
    NumberMemory(s, id);
    NumberInSession(s, id);
  }

  lemma NumberInSession(s: Node, id: MessageId)
    requires Enabled(s, Number(id)) && SessionInv(s, s.up.value) && DiskInv(s)
    ensures var t := Next(s, Number(id)); t.up.Some? && t.up.value.live.Some? && SessionInv(t, t.up.value) && DiskInv(t)
  {
    NumberSession(s, Next(s, Number(id)), s.up.value, id);
    SameUses(s, Next(s, Number(id)));
  }

  lemma NumberMemory(s: Node, id: MessageId)
    requires Enabled(s, Number(id)) && MemoryInv(s, s.up.value)
    ensures MemoryInv(Next(s, Number(id)), Next(s, Number(id)).up.value) && Next(s, Number(id)).up.value.live.Some?
  {
  }

  /** What is true of the numbers in use stays true when neither they nor the database change. */
  lemma SameUses(s: Node, t: Node)
    requires DiskInv(s) && t.disk == s.disk && t.sent == s.sent && t.stored == s.stored && t.acked == s.acked
    ensures DiskInv(t)
  {
    assert forall u :: InUse(t, u) <==> InUse(s, u);
  }

  lemma AcceptStep(s: Node, n: nat)
    requires Inv(s) && Enabled(s, Accept(n))
    ensures Inv(Next(s, Accept(n)))
  {
    var p, t := s.up.value, Next(s, Accept(n));
    QueueWrite(s, p, SetRecv(p.live.value.sessionId, n), p.live.value.send, n);
    SameUses(s, t);
    assert forall i :: 0 <= i < |t.up.value.jobs| ==> JobInv(t, t.up.value, t.up.value.jobs[i]) by {
      JobsKept(s, t, p, t.up.value);
      assert JobInv(t, t.up.value, SavingReceipt(n, |p.writes|));
    }
    ClaimsKept(s, t, p, t.up.value);
  }

  lemma FlushStep(s: Node)
    requires Inv(s) && Enabled(s, Flush)
    ensures Inv(Next(s, Flush))
  {
    var p, t := s.up.value, Next(s, Flush);
    QueueWrite(s, p, SaveRow(p.live.value.sessionId, p.live.value.send, p.live.value.recv), p.live.value.send, p.live.value.recv);
    JobsKept(s, t, p, t.up.value);
    ClaimsKept(s, t, p, t.up.value);
  }

  /** A new session starts from the counters the queued writes lead to, and saves its row behind them. */
  lemma HandshakeEffect(s: Node, sid: Bytes)
    requires Inv(s) && Enabled(s, Handshake(sid))
    ensures var t, p := Next(s, Handshake(sid)), s.up.value;
            var live := SessionState(sid, [], [], StartSend(p), StartRecv(p));
            && t.disk == s.disk && t.sent == s.sent && t.stored == s.stored && t.acked == s.acked
            && t.claims == {} && t.start == live.send
            && t.up == Some(p.(floors := None, live := Some(live), first := |p.writes|,
                               writes := p.writes + [SaveRow(sid, live.send, live.recv)]))
  {
  }

  lemma HandshakeStep(s: Node, sid: Bytes)
    requires Inv(s) && Enabled(s, Handshake(sid))
    ensures Inv(Next(s, Handshake(sid)))
  {
    var t, p := Next(s, Handshake(sid)), s.up.value;
    HandshakeEffect(s, sid);
    var p', ws, w := t.up.value, p.writes[p.done..], SaveRow(sid, StartSend(p), StartRecv(p));
    RisingEnds(s.disk, ws, StartSend(p), StartRecv(p));
    RisingBound(s.disk, ws, StartSend(p), StartRecv(p));
    RisingAppend(s.disk, ws, w, StartSend(p), StartRecv(p), StartSend(p), StartRecv(p));
    assert p'.writes[p'.done..] == ws + [w];
    assert forall u :: InUse(t, u) <==> InUse(s, u);
    assert DiskInv(t) && ClaimsInv(t, p'.live.value) && ClaimsQueued(t, p');
    assert NumberWrites(t, p') by {
      NumberWritesKept(s, t, p, p');
    }
  }

  /** A number given out, or a handler in flight, has moved a counter. */
  lemma WorkNeedsUse(s: Node, p: Process)
    requires p.live.Some? && SessionInv(s, p)
    ensures s.claims != {} || p.jobs != [] ==> p.live.value.send > 1 || p.live.value.recv > 0
  {
    if u :| u in s.claims {
      assert s.start <= u.number < p.live.value.send;
    } else if p.jobs != [] {
      assert JobInv(s, p, p.jobs[0]);
    }
  }

  /** Dropping an unused session leaves nothing in flight. */
  lemma DisconnectStep(s: Node)
    requires Inv(s) && Enabled(s, Disconnect) && Unused(s)
    ensures Inv(Next(s, Disconnect))
  {
    var p, t := s.up.value, Next(s, Disconnect);
    WorkNeedsUse(s, p);
    assert forall u :: InUse(t, u) <==> InUse(s, u);
  }

  lemma RefusedStep(s: Node)
    requires Inv(s) && Enabled(s, Refused) && Harmless(s)
    ensures Inv(Next(s, Refused))
  {
    assert forall u :: InUse(Next(s, Refused), u) <==> InUse(s, u);
  }

  /** Making the oldest write durable never lowers a stored counter. */
  lemma CommitStep(s: Node)
    requires Inv(s) && Enabled(s, Commit)
    ensures Inv(Next(s, Commit))
    ensures StoredSend(s.disk) <= StoredSend(Next(s, Commit).disk) && StoredRecv(s.disk) <= StoredRecv(Next(s, Commit).disk)
  {
    var p := s.up.value;
    assert p.writes[p.done..][0] == p.writes[p.done] && p.writes[p.done..][1..] == p.writes[p.done + 1..];
    if p.live.Some? {
      CommitInSession(s);
    } else {
      CommitIdle(s);
    }
  }

  lemma CommitIdle(s: Node)
    requires Inv(s) && Enabled(s, Commit) && s.up.value.live.None?
    ensures Inv(Next(s, Commit))
  {
    var p, t := s.up.value, Next(s, Commit);
    assert p.writes[p.done..][0] == p.writes[p.done] && p.writes[p.done..][1..] == p.writes[p.done + 1..];
    assert !p.writes[p.done].SetNumber?;
    assert forall u :: InUse(t, u) <==> InUse(s, u);
  }

  lemma CommitJobs(s: Node, t: Node, p: Process)
    requires p.live.Some? && SessionInv(s, p) && p.done < |p.writes|
    requires t.disk == Perform(s.disk, p.writes[p.done]) && t.claims == s.claims
    requires StoredSend(s.disk) <= StoredSend(t.disk) && StoredRecv(s.disk) <= StoredRecv(t.disk)
    requires var w := p.writes[p.done];
             t.stored == if w.SetNumber? then s.stored + {Use(w.number, w.id)} else s.stored
    ensures forall i :: 0 <= i < |p.jobs| ==> JobInv(t, p.(done := p.done + 1), p.jobs[i])
  {
    var p' := p.(done := p.done + 1);
    assert p.writes[p.done..][0] == p.writes[p.done] && Strict(s.disk, p.writes[p.done]);
    forall i | 0 <= i < |p.jobs| ensures JobInv(t, p', p.jobs[i]) {
      assert JobInv(s, p, p.jobs[i]);
    }
  }

  lemma CommitInSession(s: Node)
    requires Inv(s) && Enabled(s, Commit) && s.up.value.live.Some?
    ensures Inv(Next(s, Commit))
  {
    var p, t := s.up.value, Next(s, Commit);
    var p' := t.up.value;
    var live, w := p.live.value, p.writes[p.done];
    assert p.writes[p.done..][0] == w && p.writes[p.done..][1..] == p.writes[p.done + 1..];
    if p.done >= p.first {
      PerformKeepsLast(s.disk, w, live.sessionId);
    }
    CommitJobs(s, t, p);
    assert forall u :: InUse(t, u) ==> InUse(s, u) || (w.SetNumber? && u == Use(w.number, w.id));
    UnsharedGrows(s, t, live);
    CommitClaims(s, t, p);
    assert ClaimsInv(t, live) && NumberWrites(t, p') && MemoryInv(t, p');
  }

  lemma CommitClaims(s: Node, t: Node, p: Process)
    requires p.live.Some? && ClaimsQueued(s, p) && p.done < |p.writes| && Strict(s.disk, p.writes[p.done])
    requires t.disk == Perform(s.disk, p.writes[p.done]) && t.claims == s.claims && StoredSend(s.disk) <= StoredSend(t.disk)
    ensures ClaimsQueued(t, p.(done := p.done + 1))
  {
    var p' := p.(done := p.done + 1);
    forall u | u in t.claims && u.number >= StoredSend(t.disk)
      ensures IsQueued(p', SetSend(p.live.value.sessionId, u.number + 1))
    {
      assert IsQueued(p, SetSend(p.live.value.sessionId, u.number + 1));
      var i :| p.done <= i < |p.writes| && p.writes[i] == SetSend(p.live.value.sessionId, u.number + 1);
      assert i != p.done;
    }
  }

  /** A queued write stays queued when others join behind it. */
  lemma ClaimsKept(s: Node, t: Node, p: Process, p': Process)
    requires p.live.Some? && p'.live.Some? && p'.live.value.sessionId == p.live.value.sessionId && ClaimsQueued(s, p)
    requires p.writes <= p'.writes && p'.done == p.done && t.disk == s.disk
    requires forall u :: u in t.claims ==> u in s.claims || IsQueued(p', SetSend(p.live.value.sessionId, u.number + 1))
    ensures ClaimsQueued(t, p')
  {
    forall u | u in t.claims && u.number >= StoredSend(t.disk)
      ensures IsQueued(p', SetSend(p.live.value.sessionId, u.number + 1))
    {
      if u in s.claims {
        assert IsQueued(p, SetSend(p.live.value.sessionId, u.number + 1));
        var i :| p.done <= i < |p.writes| && p.writes[i] == SetSend(p.live.value.sessionId, u.number + 1);
        assert p'.writes[i] == p.writes[i];
      }
    }
  }

  /** Numbers in use stay unshared when only claimed ones are added. */
  lemma UnsharedGrows(s: Node, t: Node, live: SessionState)
    requires Unshared(s) && ClaimsInv(s, live)
    requires forall u :: InUse(t, u) ==> InUse(s, u) || u in s.claims
    ensures Unshared(t)
  {
    forall u, v | InUse(t, u) && InUse(t, v) && u.number == v.number ensures u.id == v.id {
      if InUse(s, u) && InUse(s, v) {
      } else {
        assert u in s.claims && v in s.claims;
      }
    }
  }

  /** The counter write is durable: the number write is queued. */
  lemma CounterSaved(s: Node, i: nat)
    requires Inv(s) && Enabled(s, Resume(i)) && s.up.value.jobs[i].SavingCounter?
    ensures Inv(Next(s, Resume(i)))
  {
    var p, t := s.up.value, Next(s, Resume(i));
    var p' := t.up.value;
    var id, n := p.jobs[i].id, p.jobs[i].number;
    assert JobInv(s, p, p.jobs[i]);
    QueueWrite(s, p, SetNumber(id, n), p.live.value.send, p.live.value.recv);
    JobsKept(s, t, p, p');
    assert JobInv(t, p', SavingNumber(id, n, |p.writes|));
    ClaimsKept(s, t, p, p');
    SameUses(s, t);
    assert ClaimsInv(t, p'.live.value) by {
      assert forall u :: InUse(t, u) <==> InUse(s, u);
    }
    forall j | p'.done <= j < |p'.writes| && p'.writes[j].SetNumber?
      ensures p'.writes[j].number < StoredSend(t.disk) && Use(p'.writes[j].number, p'.writes[j].id) in t.claims
    {
      assert j < |p.writes| ==> p'.writes[j] == p.writes[j];
    }
  }

  /** The number write is durable: the packet goes out. */
  lemma NumberSaved(s: Node, i: nat)
    requires Inv(s) && Enabled(s, Resume(i)) && s.up.value.jobs[i].SavingNumber?
    ensures Inv(Next(s, Resume(i)))
  {
    var p, t := s.up.value, Next(s, Resume(i));
    assert JobInv(s, p, p.jobs[i]);
    JobsKept(s, t, p, t.up.value);
    assert forall u :: InUse(t, u) <==> InUse(s, u);
    UnsharedGrows(s, t, p.live.value);
  }

  /** The receipt is durable: the acknowledgement goes out. */
  lemma ReceiptSaved(s: Node, i: nat)
    requires Inv(s) && Enabled(s, Resume(i)) && s.up.value.jobs[i].SavingReceipt?
    ensures Inv(Next(s, Resume(i)))
  {
    var p, t := s.up.value, Next(s, Resume(i));
    assert JobInv(s, p, p.jobs[i]);
    JobsKept(s, t, p, t.up.value);
    assert forall u :: InUse(t, u) <==> InUse(s, u);
  }

  lemma ResumeStep(s: Node, i: nat)
    requires Inv(s) && Enabled(s, Resume(i))
    ensures Inv(Next(s, Resume(i)))
  {
    match s.up.value.jobs[i] {
      case SavingCounter(_, _, _) => CounterSaved(s, i);
      case SavingNumber(_, _, _) => NumberSaved(s, i);
      case SavingReceipt(_, _) => ReceiptSaved(s, i);
    }
  }

  /** The database covers a message's number exactly when the process is not waiting for its counter write. */
  lemma SavedExact(s: Node, id: MessageId)
    requires Inv(s) && s.up.Some? && s.up.value.live.Some? && id in s.up.value.numbers
    ensures Saved(s, id) <==> s.up.value.numbers[id] < StoredSend(s.disk)
  {
    var p := s.up.value;
    var n, live, ws := p.numbers[id], p.live.value, p.writes[p.done..];
    QueuedAbove(s.disk, ws, live.send, live.recv);
    if n < StoredSend(s.disk) {
      forall i | p.done <= i < |p.writes| && p.writes[i].SetSend? ensures p.writes[i].value != n + 1 {
        assert p.writes[i] == ws[i - p.done];
      }
    } else {
      assert Use(n, id) in s.claims by {
        assert InUse(s, Use(n, id)) || Use(n, id) in s.claims;
      }
      assert IsQueued(p, SetSend(live.sessionId, n + 1));
    }
  }

  lemma SyncResendStep(s: Node, id: MessageId)
    requires Inv(s) && Enabled(s, SyncResend(id)) && Saved(s, id)
    ensures Inv(Next(s, SyncResend(id)))
  {
    var p, t := s.up.value, Next(s, SyncResend(id));
    SavedExact(s, id);
    JobsKept(s, t, p, p);
    assert InUse(s, Use(p.numbers[id], id)) || Use(p.numbers[id], id) in s.claims;
    UnsharedGrows(s, t, p.live.value);
  }

  lemma Step(s: Node, e: Event)
    requires Inv(s) && Enabled(s, e) && Admitted(s, e)
    ensures Inv(Next(s, e))
  {
    match e {
      case Crash =>
      case Boot(_) =>
      case Handshake(sid) => HandshakeStep(s, sid);
      case Number(id) => NumberStep(s, id);
      case Accept(n) => AcceptStep(s, n);
      case Flush => FlushStep(s);
      case Commit => CommitStep(s);
      case Resume(i) => ResumeStep(s, i);
      case SyncResend(id) => SyncResendStep(s, id);
      case Disconnect => DisconnectStep(s);
      case Refused => RefusedStep(s);
    }
  }

  lemma {:induction false} Run(s: Node, es: seq<Event>)
    requires Inv(s) && Legal(s, es)
    ensures Inv(After(s, es))
    decreases |es|
  {
    if es != [] {
      Step(s, es[0]);
      Run(Next(s, es[0]), es[1..]);
    }
  }

  // ---- what follows

  /** What the counters of the live session owe to the past: the next number to send is above every
      number sent or stored, and the receive counter is at or above every number acknowledged. */
  ghost predicate CountersSafe(s: Node, live: SessionState) {
    && (forall u :: InUse(s, u) ==> u.number < live.send)
    && (forall n :: n in s.acked ==> n <= live.recv)
  }

  /** Crash recovery, over any number of crashes and restarts at any point between writes: the
      database stays ahead of everything sent, stored and acknowledged; no number ever belongs to
      two messages; the live session's counters are ahead of the whole past; and the numbers it
      gives out lie above every number used before it, including those a SYNC answer repeats. */
  lemma CrashRecovery(es: seq<Event>)
    requires Legal(FRESH, es)
    ensures var s := After(FRESH, es);
            && Authority(s) && Unshared(s)
            && (s.up.Some? && s.up.value.live.Some? ==>
                  && CountersSafe(s, s.up.value.live.value)
                  && (forall u, v :: u in s.claims && InUse(s, v) && v !in s.claims ==> v.number < u.number))
  {
    Run(FRESH, es);
    var s := After(FRESH, es);
    if s.up.Some? && s.up.value.live.Some? {
      var p := s.up.value;
      RisingBound(s.disk, p.writes[p.done..], p.live.value.send, p.live.value.recv);
    }
  }

  /** After a crash at any point, restarting and completing a handshake gives counters ahead of the past. */
  lemma RestartIsSafe(es: seq<Event>, kept: set<MessageId>, sid: Bytes)
    requires Legal(FRESH, es) && forall r :: r in After(FRESH, es).disk.rows ==> r.sid != sid
    ensures var s := Next(Next(Next(After(FRESH, es), Crash), Boot(kept)), Handshake(sid));
            s.up.value.live.Some? && CountersSafe(s, s.up.value.live.value)
  {
    Run(FRESH, es);
    var s := After(FRESH, es);
    var t := Next(Next(s, Crash), Boot(kept));
    Step(s, Crash);
    Step(Next(s, Crash), Boot(kept));
    HandshakeStep(t, sid);
    var u := Next(t, Handshake(sid));
    RisingBound(u.disk, u.up.value.writes[u.up.value.done..], u.up.value.live.value.send, u.up.value.live.value.recv);
  }

  // ---- SYNC answers

  /** Runs with SYNC answers at any time. */
  ghost predicate Free(s: Node, es: seq<Event>)
    decreases |es|
  {
    es == [] || (Enabled(s, es[0]) && (es[0].Disconnect? ==> Unused(s)) && (es[0].Refused? ==> Harmless(s)) && Free(Next(s, es[0]), es[1..]))
  }

  ghost predicate AuthorityThroughout(s: Node, es: seq<Event>)
    requires Free(s, es)
    decreases |es|
  {
    Authority(s) && (es == [] || AuthorityThroughout(Next(s, es[0]), es[1..]))
  }

  /** Every SYNC answer of the run waited for the counter write of its message. */
  ghost predicate Guarded(s: Node, es: seq<Event>)
    requires Free(s, es)
    decreases |es|
  {
    es == [] || ((es[0].SyncResend? ==> Saved(s, es[0].id)) && Guarded(Next(s, es[0]), es[1..]))
  }

  /** A SYNC answer does not wait for the database. Over every run, with answers at any time, the
      authority rule holds after each step if and only if no answer was for a message whose counter
      write was still queued. */
  lemma {:induction false} SyncAnswersExact(s: Node, es: seq<Event>)
    requires Inv(s) && Free(s, es)
    ensures AuthorityThroughout(s, es) <==> Guarded(s, es)
    decreases |es|
  {
    if es != [] {
      if es[0].SyncResend? && !Saved(s, es[0].id) {
        UnsavedAnswer(s, es[0].id);
      } else {
        Step(s, es[0]);
        SyncAnswersExact(Next(s, es[0]), es[1..]);
      }
    }
  }

  lemma UnsavedAnswer(s: Node, id: MessageId)
    requires Inv(s) && Enabled(s, SyncResend(id)) && !Saved(s, id)
    ensures !Authority(Next(s, SyncResend(id)))
  {
    SavedExact(s, id);
    assert InUse(Next(s, SyncResend(id)), Use(s.up.value.numbers[id], id));
  }

  // ---- a second session in one process

  /** What the authority rule is for. */
  ghost predicate Promise(s: Node) {
    Authority(s) && Unshared(s) && (s.up.Some? && s.up.value.live.Some? ==> CountersSafe(s, s.up.value.live.value))
  }

  /** The promise holds all along the run, and no stored counter is ever lowered. */
  ghost predicate Upholds(s: Node, es: seq<Event>)
    requires Legal(s, es)
    decreases |es|
  {
    && Promise(s)
    && (es == [] ||
        var t := Next(s, es[0]);
        StoredSend(s.disk) <= StoredSend(t.disk) && StoredRecv(s.disk) <= StoredRecv(t.disk) && Upholds(t, es[1..]))
  }

  lemma InvPromises(s: Node)
    requires Inv(s)
    ensures Promise(s)
  {
    if s.up.Some? && s.up.value.live.Some? {
      var p := s.up.value;
      RisingBound(s.disk, p.writes[p.done..], p.live.value.send, p.live.value.recv);
    }
  }

  lemma {:induction false} InvUpholds(s: Node, es: seq<Event>)
    requires Inv(s) && Legal(s, es)
    ensures Upholds(s, es)
    decreases |es|
  {
    InvPromises(s);
    if es != [] {
      Step(s, es[0]);
      if es[0].Commit? {
        CommitStep(s);
      }
      InvUpholds(Next(s, es[0]), es[1..]);
    }
  }

  function Commits(n: nat): seq<Event> {
    if n == 0 then [] else [Commit] + Commits(n - 1)
  }

  /** Queued writes that end by saving counters below those before them lower a stored counter. */
  lemma {:induction false} CommitsFall(s: Node, ws: seq<Write>, sid: Bytes)
    requires s.up.Some? && s.up.value.done <= |s.up.value.writes| && s.up.value.writes[s.up.value.done..] == ws + [SaveRow(sid, 1, 0)]
    requires StoredSend(DiskAfter(s.disk, ws)) > 1 || StoredRecv(DiskAfter(s.disk, ws)) > 0
    ensures Legal(s, Commits(|ws| + 1)) && !Upholds(s, Commits(|ws| + 1))
    decreases |ws|
  {
    var p, t := s.up.value, Next(s, Commit);
    var all := ws + [SaveRow(sid, 1, 0)];
    assert p.writes[p.done] == p.writes[p.done..][0] && p.writes[p.done + 1..] == p.writes[p.done..][1..];
    assert Commits(|ws| + 1)[1..] == Commits(|ws|);
    if ws == [] {
      assert Commits(0) == [] && Legal(t, []);
      assert t.disk == Perform(s.disk, SaveRow(sid, 1, 0));
    } else {
      assert all[1..] == ws[1..] + [SaveRow(sid, 1, 0)] && all[0] == ws[0];
      CommitsFall(t, ws[1..], sid);
    }
  }

  /** In every admitted run from here the promise is kept and no stored counter is ever lowered. */
  ghost predicate AlwaysUpholds(s: Node) {
    forall es :: Legal(s, es) ==> Upholds(s, es)
  }

  lemma InvAlwaysUpholds(s: Node)
    requires Inv(s)
    ensures AlwaysUpholds(s)
  {
    forall es | Legal(s, es) ensures Upholds(s, es) {
      InvUpholds(s, es);
    }
  }

  /** A session that starts at 1 and 0 behind writes that end above lowers a stored counter. */
  lemma RestartFalls(s: Node, sid: Bytes)
    requires Enabled(s, Handshake(sid)) && s.up.value.floors.None? && s.up.value.done <= |s.up.value.writes|
    requires var d := DiskAfter(s.disk, s.up.value.writes[s.up.value.done..]); StoredSend(d) > 1 || StoredRecv(d) > 0
    ensures !AlwaysUpholds(Next(s, Handshake(sid)))
  {
    var p, t := s.up.value, Next(s, Handshake(sid));
    var ws := p.writes[p.done..];
    assert t.up.value.writes == p.writes + [SaveRow(sid, 1, 0)];
    assert t.up.value.writes[t.up.value.done..] == ws + [SaveRow(sid, 1, 0)];
    CommitsFall(t, ws, sid);
    assert Legal(t, Commits(|ws| + 1)) && !Upholds(t, Commits(|ws| + 1));
  }

  /** A second session in one process starts at 1 again, since the floors are used up. In every
      admitted run from there the promise is kept and no stored counter is lowered, if and only if the
      dropped session had sent and received nothing and had no floors: its counters still stood at 1 and 0. */
  lemma ReconnectExact(s: Node, sid: Bytes)
    requires Inv(s) && Enabled(s, Disconnect) && forall r :: r in s.disk.rows ==> r.sid != sid
    ensures AlwaysUpholds(Next(Next(s, Disconnect), Handshake(sid))) <==> Unused(s)
  {
    var p := s.up.value;
    if Unused(s) {
      DisconnectStep(s);
      HandshakeStep(Next(s, Disconnect), sid);
      InvAlwaysUpholds(Next(Next(s, Disconnect), Handshake(sid)));
    } else {
      RisingEnds(s.disk, p.writes[p.done..], p.live.value.send, p.live.value.recv);
      RestartFalls(Next(s, Disconnect), sid);
    }
  }

  /** A handshake that is refused for want of room has taken the floors all the same. In every admitted
      run from there the promise is kept and no stored counter is lowered, if and only if there was
      nothing to lose: the floors were 1 and 0, or none. */
  lemma RefusedExact(s: Node)
    requires Inv(s) && Enabled(s, Refused)
    ensures AlwaysUpholds(Next(s, Refused)) <==> Harmless(s)
  {
    var p, t := s.up.value, Next(s, Refused);
    if Harmless(s) {
      RefusedStep(s);
      InvAlwaysUpholds(t);
    } else {
      RisingEnds(s.disk, p.writes[p.done..], StartSend(p), StartRecv(p));
      var sid := FreshSession(s.disk.rows);
      RestartFalls(t, sid);
      var u := Next(t, Handshake(sid));
      var es :| Legal(u, es) && !Upholds(u, es);
      FirstStep(t, Handshake(sid), es);
    }
  }

  lemma FirstStep(s: Node, e: Event, es: seq<Event>)
    requires Enabled(s, e) && Admitted(s, e) && Legal(Next(s, e), es)
    ensures Legal(s, [e] + es) && After(s, [e] + es) == After(Next(s, e), es)
    ensures !Upholds(Next(s, e), es) ==> !Upholds(s, [e] + es)
  {
    assert ([e] + es)[1..] == es;
  }

  /** Some session id has no row. */
  lemma {:induction false} FreshSession(rows: seq<Row>) returns (sid: Bytes)
    ensures forall r :: r in rows ==> |r.sid| < |sid|
    ensures forall r :: r in rows ==> r.sid != sid
  {
    if rows == [] {
      sid := [];
    } else {
      var rest := FreshSession(rows[1..]);
      sid := if |rows[0].sid| < |rest| then rest else rows[0].sid + [0];
      assert forall r :: r in rows ==> r == rows[0] || r in rows[1..];
    }
  }
}
