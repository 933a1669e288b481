/** I_HAVE_UP_TO: the answer to a SYNC, and what a receiver gets out of it. */
module Synchronisation {

  import opened Basics
  import opened OrderedDicts
  import opened Aead
  import opened Sessions
  import opened Queues

  datatype SyncOutcome = SyncOutcome(queue: Queue, packets: seq<DataPacket>)

  /** Walks the queue from position `from`, sealing again every message for the session's peer
      numbered above `highest`; a number that cannot be packed ends the walk, and so does, once it
      is stamped, a text too long for a frame. */
  function SyncFrom(q: Queue, s: SessionState, highest: nat, now: real, from: nat): SyncOutcome
    requires q.Wf() && from <= |q.keys|
    decreases |q.keys| - from
  {
    if from == |q.keys| then SyncOutcome(q, [])
    else
      var id := q.keys[from];
      var e := q.at[id];
      if e.receiver != s.peer || e.number.None? || e.number.value <= highest then
        SyncFrom(q, s, highest, now, from + 1)
      else match Rebuild(q, id, s)
        case NothingToSend => SyncFrom(q, s, highest, now, from + 1)
        case CannotPack => SyncOutcome(q, [])
        case Rebuilt(p) =>
          if !Framed(e.plaintext) then SyncOutcome(Stamped(q, id, now), [])
          else
            var rest := SyncFrom(Stamped(q, id, now), s, highest, now, from + 1);
            SyncOutcome(rest.queue, [p] + rest.packets)
  }

  /** Two queues that differ at most in send times. */
  ghost predicate SameButTimes(q: Queue, r: Queue) {
    && q.keys == r.keys && q.at.Keys == r.at.Keys
    && forall id :: id in q.at ==> r.at[id] == q.at[id].(sentAt := r.at[id].sentAt)
  }

  /** The entry at `from` is one the answer passes over. */
  predicate Passed(q: Queue, s: SessionState, highest: nat, from: nat)
    requires q.Wf() && from < |q.keys|
  {
    var e := q.at[q.keys[from]];
    e.receiver != s.peer || e.number.None? || e.number.value <= highest || Rebuild(q, q.keys[from], s).NothingToSend?
  }

  /** The entry at `from` is one the answer sends. */
  predicate Takes(q: Queue, s: SessionState, highest: nat, from: nat)
    requires q.Wf() && from < |q.keys|
  {
    !Passed(q, s, highest, from) && Rebuild(q, q.keys[from], s).Rebuilt? && Framed(q.at[q.keys[from]].plaintext)
  }

  /** The entry at `from` ends the answer: its text, or its number, is too large. */
  lemma SyncStops(q: Queue, s: SessionState, highest: nat, now: real, from: nat)
    requires q.Wf() && from < |q.keys| && !Passed(q, s, highest, from) && !Takes(q, s, highest, from)
    ensures SyncFrom(q, s, highest, now, from) ==
            SyncOutcome(if Rebuild(q, q.keys[from], s).Rebuilt? then Stamped(q, q.keys[from], now) else q, [])
  {
  }

  lemma StampedKeeps(q: Queue, id: MessageId, now: real)
    requires q.Wf() && id in q.at
    ensures Stamped(q, id, now).Wf() && SameButTimes(q, Stamped(q, id, now))
  {
  }

  lemma SyncPasses(q: Queue, s: SessionState, highest: nat, now: real, from: nat)
    requires q.Wf() && from < |q.keys| && Passed(q, s, highest, from)
    ensures SyncFrom(q, s, highest, now, from) == SyncFrom(q, s, highest, now, from + 1)
  {
  }

  lemma SyncTakes(q: Queue, s: SessionState, highest: nat, now: real, from: nat)
    requires q.Wf() && from < |q.keys| && Takes(q, s, highest, from)
    ensures Stamped(q, q.keys[from], now).Wf() && Stamped(q, q.keys[from], now).keys == q.keys
    ensures var rest := SyncFrom(Stamped(q, q.keys[from], now), s, highest, now, from + 1);
            SyncFrom(q, s, highest, now, from) == SyncOutcome(rest.queue, [Rebuild(q, q.keys[from], s).packet] + rest.packets)
  {
  }

  lemma SameTimesCompose(q: Queue, r: Queue, t: Queue)
    requires SameButTimes(q, r) && SameButTimes(r, t)
    ensures SameButTimes(q, t)
  {
  }

  /** The walk from `from` on changes nothing but send times. */
  ghost predicate KeepsMessages(q: Queue, s: SessionState, highest: nat, now: real, from: nat)
    requires q.Wf() && from <= |q.keys|
  {
    SameButTimes(q, SyncFrom(q, s, highest, now, from).queue) && SyncFrom(q, s, highest, now, from).queue.Wf()
  }

  /** Answering a SYNC changes no status, number, retry count or plaintext. */
  lemma {:induction false} SyncKeepsMessages(q: Queue, s: SessionState, highest: nat, now: real, from: nat)
    requires q.Wf() && from <= |q.keys|
    ensures SameButTimes(q, SyncFrom(q, s, highest, now, from).queue)
    ensures SyncFrom(q, s, highest, now, from).queue.Wf()
    decreases |q.keys| - from, 1
  {
    if from < |q.keys| {
      if Passed(q, s, highest, from) {
        SyncPasses(q, s, highest, now, from);
        SyncKeepsMessages(q, s, highest, now, from + 1);
      } else if Takes(q, s, highest, from) {
        TakenKeepsMessages(q, s, highest, now, from);
      } else {
        SyncStops(q, s, highest, now, from);
        StampedKeeps(q, q.keys[from], now);
      }
    }
  }

  lemma {:induction false} TakenKeepsMessages(q: Queue, s: SessionState, highest: nat, now: real, from: nat)
    requires q.Wf() && from < |q.keys| && Takes(q, s, highest, from)
    ensures KeepsMessages(q, s, highest, now, from)
    decreases |q.keys| - from, 0
  {
    var stamped := Stamped(q, q.keys[from], now);
    StampedKeeps(q, q.keys[from], now);
    SyncKeepsMessages(stamped, s, highest, now, from + 1);
    var rest := SyncFrom(stamped, s, highest, now, from + 1).queue;
    assert SyncFrom(q, s, highest, now, from).queue == rest by {
      SyncTakes(q, s, highest, now, from);
    }
    SameTimesCompose(q, stamped, rest);
  }

  /** The message a SYNC answer packet carries. */
  ghost predicate Resends(q: Queue, s: SessionState, highest: nat, p: DataPacket, id: MessageId) {
    && id in q.at && q.at[id].receiver == s.peer && q.at[id].number.Some? && q.at[id].plaintext != []
    && highest < q.at[id].number.value < TWO_32 && Framed(q.at[id].plaintext)
    && p == SealData(s.sessionId, s.key, q.at[id].number.value, q.at[id].plaintext)
  }

  /** Every packet of the answer is a queued message numbered above the SYNC, under its own number. */
  lemma {:induction false} SyncSendsMessages(q: Queue, s: SessionState, highest: nat, now: real, from: nat, p: DataPacket)
    requires q.Wf() && from <= |q.keys|
    requires p in SyncFrom(q, s, highest, now, from).packets
    ensures exists id :: Resends(q, s, highest, p, id)
    decreases |q.keys| - from
  {
    var id := q.keys[from];
    if Passed(q, s, highest, from) {
      SyncPasses(q, s, highest, now, from);
      SyncSendsMessages(q, s, highest, now, from + 1, p);
    } else if Takes(q, s, highest, from) {
      SyncTakes(q, s, highest, now, from);
      var stamped := Stamped(q, id, now);
      if p == Rebuild(q, id, s).packet {
        assert Resends(q, s, highest, p, id);
      } else {
        SyncSendsMessages(stamped, s, highest, now, from + 1, p);
        var found :| Resends(stamped, s, highest, p, found);
        assert Resends(q, s, highest, p, found);
      }
    }
  }

  /** What has been sent, and what the walk from `from` on still gives, make up the whole answer. */
  ghost predicate Completes(whole: SyncOutcome, sent: seq<DataPacket>, q: Queue, s: SessionState, highest: nat, now: real, from: nat)
    requires q.Wf() && from <= |q.keys|
  {
    var rest := SyncFrom(q, s, highest, now, from);
    whole == SyncOutcome(rest.queue, sent + rest.packets)
  }

  lemma CompletesNext(whole: SyncOutcome, sent: seq<DataPacket>, q: Queue, s: SessionState, highest: nat, now: real, from: nat)
    requires q.Wf() && from < |q.keys| && Completes(whole, sent, q, s, highest, now, from)
    ensures Passed(q, s, highest, from) ==> Completes(whole, sent, q, s, highest, now, from + 1)
    ensures !Passed(q, s, highest, from) && !Takes(q, s, highest, from) ==>
              whole == SyncOutcome(if Rebuild(q, q.keys[from], s).Rebuilt? then Stamped(q, q.keys[from], now) else q, sent)
    ensures Takes(q, s, highest, from) ==>
              var stamped := Stamped(q, q.keys[from], now);
              stamped.Wf() && stamped.keys == q.keys &&
              Completes(whole, sent + [Rebuild(q, q.keys[from], s).packet], stamped, s, highest, now, from + 1)
  {
    if Passed(q, s, highest, from) {
      SyncPasses(q, s, highest, now, from);
    } else if Takes(q, s, highest, from) {
      SyncTakes(q, s, highest, now, from);
      Associative(sent, [Rebuild(q, q.keys[from], s).packet], SyncFrom(Stamped(q, q.keys[from], now), s, highest, now, from + 1).packets);
    } else {
      SyncStops(q, s, highest, now, from);
      assert sent + [] == sent;
    }
  }

  /** One entry passed over, sent, or ended at, leaves the queue `r`. */
  ghost predicate Answered(q: Queue, s: SessionState, highest: nat, now: real, i: nat, r: Queue, sent: seq<DataPacket>, ended: bool)
    requires q.Wf() && i < |q.keys|
  {
    if Passed(q, s, highest, i) then !ended && sent == [] && r == q
    else if Takes(q, s, highest, i) then !ended && sent == [Rebuild(q, q.keys[i], s).packet] && r == Stamped(q, q.keys[i], now)
    else ended && sent == [] && r == if Rebuild(q, q.keys[i], s).Rebuilt? then Stamped(q, q.keys[i], now) else q
  }

  lemma CompletesAfter(whole: SyncOutcome, before: seq<DataPacket>, q: Queue, s: SessionState, highest: nat, now: real, i: nat,
                       r: Queue, sent: seq<DataPacket>, ended: bool)
    requires q.Wf() && i < |q.keys| && Completes(whole, before, q, s, highest, now, i)
    requires Answered(q, s, highest, now, i, r, sent, ended)
    ensures ended ==> whole == SyncOutcome(r, before)
    ensures !ended ==> r.Wf() && r.keys == q.keys && Completes(whole, before + sent, r, s, highest, now, i + 1)
  {
    CompletesNext(whole, before, q, s, highest, now, i);
    assert before + [] == before;
  }

  /** What the handler does with one entry: pass over it, send it, or end at it. */
  method AnswerEntry(manager: QueueManager, session: Session, highest: nat, now: real, i: nat) returns (sent: seq<DataPacket>, ended: bool)
    requires manager as object != session && manager.queue.Wf() && i < |manager.queue.keys|
    modifies manager
    ensures Answered(old(manager.queue), session.State(), highest, now, i, manager.queue, sent, ended)
  {
    var id := manager.queue.keys[i];
    var entry := manager.queue.at[id];
    if entry.receiver != session.remotePeerId || entry.number.None? || entry.number.value <= highest {
      return [], false;
    }
    var result := manager.RebuildForSync(id, session, now);
    match result {
      case NothingToSend => return [], false;
      case CannotPack => return [], true;
      case Rebuilt(p) =>
        if !Framed(entry.plaintext) {
          return [], true;
        }
        return [p], false;
    }
  }

  lemma CompletesStart(q: Queue, s: SessionState, highest: nat, now: real)
    requires q.Wf()
    ensures Completes(SyncFrom(q, s, highest, now, 0), [], q, s, highest, now, 0)
    ensures SameButTimes(q, SyncFrom(q, s, highest, now, 0).queue)
  {
    var rest := SyncFrom(q, s, highest, now, 0);
    assert [] + rest.packets == rest.packets;
    SyncKeepsMessages(q, s, highest, now, 0);
  }

  lemma CompletesEnd(whole: SyncOutcome, sent: seq<DataPacket>, q: Queue, s: SessionState, highest: nat, now: real)
    requires q.Wf() && Completes(whole, sent, q, s, highest, now, |q.keys|)
    ensures whole == SyncOutcome(q, sent)
  {
    assert SyncFrom(q, s, highest, now, |q.keys|) == SyncOutcome(q, []);
    assert sent + [] == sent;
  }

  /** The SYNC handler: one pass over the queue, rebuilding as it goes. */
  method HandleSync(manager: QueueManager, session: Session, highest: nat, now: real) returns (packets: seq<DataPacket>)
    requires manager as object != session && manager.queue.Wf()
    modifies manager
    ensures SyncOutcome(manager.queue, packets) == SyncFrom(old(manager.queue), session.State(), highest, now, 0)
    ensures SameButTimes(old(manager.queue), manager.queue)
  {
    ghost var whole := SyncFrom(manager.queue, session.State(), highest, now, 0);
    CompletesStart(manager.queue, session.State(), highest, now);
    packets := AnswerAll(manager, session, highest, now, whole);
  }

  method AnswerAll(manager: QueueManager, session: Session, highest: nat, now: real, ghost whole: SyncOutcome) returns (packets: seq<DataPacket>)
    requires manager as object != session && manager.queue.Wf() && Completes(whole, [], manager.queue, session.State(), highest, now, 0)
    modifies manager
    ensures whole == SyncOutcome(manager.queue, packets)
  {
    packets := [];
    var i := 0;
    ghost var state := session.State();
    while i < |manager.queue.keys|
      invariant i <= |manager.queue.keys| && manager.queue.Wf()
      invariant Completes(whole, packets, manager.queue, state, highest, now, i)
    {
      ghost var before := manager.queue;
      var sent, ended := AnswerEntry(manager, session, highest, now, i);
      CompletesAfter(whole, packets, before, state, highest, now, i, manager.queue, sent, ended);
      if ended {
        return;
      }
      packets := packets + sent;
      i := i + 1;
    }
    CompletesEnd(whole, packets, manager.queue, state, highest, now);
  }

  // ---- what the receiver makes of the answer

  datatype Item = Item(number: nat, plaintext: Bytes)

  /** The messages for one peer numbered above `highest`, in queue order. */
  function Above(q: Queue, peer: Bytes, highest: nat, from: nat): seq<Item>
    requires q.Wf() && from <= |q.keys|
    decreases |q.keys| - from
  {
    if from == |q.keys| then []
    else
      var e := q.at[q.keys[from]];
      (if e.receiver == peer && e.number.Some? && e.number.value > highest then [Item(e.number.value, e.plaintext)] else [])
      + Above(q, peer, highest, from + 1)
  }

  /** The receiver's handling of packets arriving in order. */
  function Deliver(packets: seq<DataPacket>, r: SessionState): (SessionState, seq<Item>) {
    if packets == [] then (r, [])
    else
      var p := packets[0];
      var rest := Deliver(packets[1..], AfterDecrypt(p, r));
      var plain := Decrypted(p, r);
      (rest.0, (if plain.Some? then [Item(p.number, plain.value)] else []) + rest.1)
  }

  ghost predicate Ascending(items: seq<Item>) {
    forall i, j :: 0 <= i < j < |items| ==> items[i].number < items[j].number
  }

  /** An item whose number and text fit a DATA packet. */
  predicate Sendable(item: Item) {
    item.number < TWO_32 && Framed(item.plaintext)
  }

  /** An item that ends an answer. */
  predicate Ends(item: Item) {
    item.plaintext != [] && !Sendable(item)
  }

  /** Items a receiver at `recv` takes: up to the first that ends the answer, those with text whose
      number exceeds everything before them. */
  function Taken(items: seq<Item>, recv: nat): seq<Item> {
    if items == [] || Ends(items[0]) then []
    else if items[0].plaintext != [] && items[0].number > recv then [items[0]] + Taken(items[1..], items[0].number)
    else Taken(items[1..], recv)
  }

  /** A packet of the session opens exactly when its number is above the counter. */
  lemma DeliverSealed(n: nat, text: Bytes, rest: seq<DataPacket>, r: SessionState)
    requires n < TWO_32
    ensures Deliver([SealData(r.sessionId, r.key, n, text)] + rest, r).1 ==
            if n > r.recv then [Item(n, text)] + Deliver(rest, r.(recv := n)).1 else Deliver(rest, r).1
  {
    var packets := [SealData(r.sessionId, r.key, n, text)] + rest;
    assert packets[0].number == n && packets[1..] == rest;
  }

  /** The packets that carry a list of items, those without text left out, up to the first that cannot be sent. */
  function SealAll(items: seq<Item>, s: SessionState): seq<DataPacket> {
    if items == [] || Ends(items[0]) then []
    else (if items[0].plaintext == [] then [] else [SealData(s.sessionId, s.key, items[0].number, items[0].plaintext)])
         + SealAll(items[1..], s)
  }

  lemma SealAllStep(first: Item, rest: seq<Item>, s: SessionState)
    ensures SealAll([first] + rest, s) ==
            if Ends(first) then []
            else if first.plaintext == [] then SealAll(rest, s)
            else [SealData(s.sessionId, s.key, first.number, first.plaintext)] + SealAll(rest, s)
  {
    assert ([first] + rest)[1..] == rest;
  }

  ghost predicate Seals(q: Queue, s: SessionState, highest: nat, now: real, from: nat)
    requires q.Wf() && from <= |q.keys|
  {
    SyncFrom(q, s, highest, now, from).packets == SealAll(Above(q, s.peer, highest, from), s)
  }

  /** The answer to a SYNC is the sealed list of messages above it, up to the first that cannot be sent. */
  lemma {:induction false} SyncSeals(q: Queue, s: SessionState, highest: nat, now: real, from: nat)
    requires q.Wf() && from <= |q.keys|
    ensures Seals(q, s, highest, now, from)
    decreases |q.keys| - from, 1
  {
    if from < |q.keys| {
      if Passed(q, s, highest, from) {
        SyncSeals(q, s, highest, now, from + 1);
        SealsPassed(q, s, highest, now, from);
      } else if Takes(q, s, highest, from) {
        SealsTaken(q, s, highest, now, from);
      } else {
        SealsStopped(q, s, highest, now, from);
      }
    }
  }

  /** The item of the entry at `from`, in front of those after it. */
  lemma AboveMissed(q: Queue, s: SessionState, highest: nat, from: nat)
    requires q.Wf() && from < |q.keys| && Missed(q, s.peer, highest, from)
    ensures var item := Item(q.at[q.keys[from]].number.value, q.at[q.keys[from]].plaintext);
            SealAll(Above(q, s.peer, highest, from), s) ==
            if Ends(item) then []
            else if item.plaintext == [] then SealAll(Above(q, s.peer, highest, from + 1), s)
            else [SealData(s.sessionId, s.key, item.number, item.plaintext)] + SealAll(Above(q, s.peer, highest, from + 1), s)
  {
    AboveStep(q, s.peer, highest, from);
    SealAllStep(Item(q.at[q.keys[from]].number.value, q.at[q.keys[from]].plaintext), Above(q, s.peer, highest, from + 1), s);
  }

  lemma SealsPassed(q: Queue, s: SessionState, highest: nat, now: real, from: nat)
    requires q.Wf() && from < |q.keys| && Passed(q, s, highest, from) && Seals(q, s, highest, now, from + 1)
    ensures Seals(q, s, highest, now, from)
  {
    SyncPasses(q, s, highest, now, from);
    AboveStep(q, s.peer, highest, from);
    if Missed(q, s.peer, highest, from) {
      AboveMissed(q, s, highest, from);
    }
  }

  lemma SealsStopped(q: Queue, s: SessionState, highest: nat, now: real, from: nat)
    requires q.Wf() && from < |q.keys| && !Passed(q, s, highest, from) && !Takes(q, s, highest, from)
    ensures Seals(q, s, highest, now, from)
  {
    SyncStops(q, s, highest, now, from);
    AboveMissed(q, s, highest, from);
  }

  lemma {:induction false} SealsTaken(q: Queue, s: SessionState, highest: nat, now: real, from: nat)
    requires q.Wf() && from < |q.keys| && Takes(q, s, highest, from)
    ensures Seals(q, s, highest, now, from)
    decreases |q.keys| - from, 0
  {
    var stamped := Stamped(q, q.keys[from], now);
    StampedKeeps(q, q.keys[from], now);
    SyncSeals(stamped, s, highest, now, from + 1);
    AboveIgnoresTimes(q, stamped, s.peer, highest, from + 1);
    AboveMissed(q, s, highest, from);
    SyncTakes(q, s, highest, now, from);
  }

  predicate Missed(q: Queue, peer: Bytes, highest: nat, from: nat)
    requires q.Wf() && from < |q.keys|
  {
    var e := q.at[q.keys[from]];
    e.receiver == peer && e.number.Some? && e.number.value > highest
  }

  lemma AboveStep(q: Queue, peer: Bytes, highest: nat, from: nat)
    requires q.Wf() && from < |q.keys|
    ensures var e, later := q.at[q.keys[from]], Above(q, peer, highest, from + 1);
            Above(q, peer, highest, from) ==
            if Missed(q, peer, highest, from) then [Item(e.number.value, e.plaintext)] + later else later
  {
  }

  /** Delivered in order, sealed items yield exactly those with text that are new maxima. */
  lemma {:induction false} DeliverSealAll(items: seq<Item>, s: SessionState, r: SessionState)
    requires r.sessionId == s.sessionId && r.key == s.key
    ensures Deliver(SealAll(items, s), r).1 == Taken(items, r.recv)
  {
    if items != [] && !Ends(items[0]) {
      var first, rest := items[0], items[1..];
      if first.plaintext == [] {
        assert SealAll(items, s) == SealAll(rest, s);
        DeliverSealAll(rest, s, r);
      } else {
        DeliverSealed(first.number, first.plaintext, SealAll(rest, s), r);
        DeliverSealAll(rest, s, if first.number > r.recv then r.(recv := first.number) else r);
      }
    }
  }

  lemma {:induction false} AboveIgnoresTimes(q: Queue, r: Queue, peer: Bytes, highest: nat, from: nat)
    requires q.Wf() && r.Wf() && SameButTimes(q, r) && from <= |q.keys|
    ensures Above(q, peer, highest, from) == Above(r, peer, highest, from)
    decreases |q.keys| - from
  {
    if from < |q.keys| {
      AboveIgnoresTimes(q, r, peer, highest, from + 1);
    }
  }

  /** Everything has a text that can be sent, and the numbers ascend from a counter. */
  ghost predicate AscendingFrom(items: seq<Item>, recv: nat) {
    Ascending(items) && forall i :: 0 <= i < |items| ==> HasText(items[i]) && items[i].number > recv
  }

  /** An item with a text, and one that can be sent. */
  predicate HasText(item: Item) {
    item.plaintext != [] && Sendable(item)
  }

  lemma AscendingCons(first: Item, rest: seq<Item>, recv: nat)
    ensures AscendingFrom([first] + rest, recv) <==>
            HasText(first) && first.number > recv && AscendingFrom(rest, first.number)
  {
    if AscendingFrom([first] + rest, recv) {
      AscendingTail([first] + rest, recv);
      assert ([first] + rest)[1..] == rest;
    } else if HasText(first) && first.number > recv && AscendingFrom(rest, first.number) {
      AscendingHead(first, rest, recv);
    }
  }

  lemma AscendingTail(items: seq<Item>, recv: nat)
    requires AscendingFrom(items, recv) && items != []
    ensures HasText(items[0]) && items[0].number > recv && AscendingFrom(items[1..], items[0].number)
  {
    var rest := items[1..];
    forall i | 0 <= i < |rest| ensures HasText(rest[i]) && rest[i].number > items[0].number {
      assert rest[i] == items[i + 1];
    }
    forall i, j | 0 <= i < j < |rest| ensures rest[i].number < rest[j].number {
      assert rest[i] == items[i + 1] && rest[j] == items[j + 1];
    }
  }

  lemma AscendingHead(first: Item, rest: seq<Item>, recv: nat)
    requires HasText(first) && first.number > recv && AscendingFrom(rest, first.number)
    ensures AscendingFrom([first] + rest, recv)
  {
    var items := [first] + rest;
    forall i | 0 <= i < |items| ensures HasText(items[i]) && items[i].number > recv {
      assert items[i] == if i == 0 then first else rest[i - 1];
    }
    forall i, j | 0 <= i < j < |items| ensures items[i].number < items[j].number {
      assert items[j] == rest[j - 1];
      assert items[i] == if i == 0 then first else rest[i - 1];
    }
  }

  /** A receiver takes everything exactly when everything has a text that can be sent and the numbers
      ascend from its counter. */
  lemma {:induction false} TakesAll(items: seq<Item>, recv: nat)
    ensures |Taken(items, recv)| <= |items|
    ensures Taken(items, recv) == items <==> AscendingFrom(items, recv)
  {
    if items != [] {
      var first, rest := items[0], items[1..];
      assert items == [first] + rest;
      AscendingCons(first, rest, recv);
      if Ends(first) {
        assert Taken(items, recv) == [];
      } else if first.plaintext != [] && first.number > recv {
        TakesAll(rest, first.number);
        assert Taken(items, recv)[1..] == Taken(rest, first.number);
      } else {
        TakesAll(rest, recv);
        assert |Taken(items, recv)| < |items|;
      }
    }
  }

  lemma {:induction false} AboveExceeds(q: Queue, peer: Bytes, highest: nat, from: nat)
    requires q.Wf() && from <= |q.keys|
    ensures forall i :: 0 <= i < |Above(q, peer, highest, from)| ==> Above(q, peer, highest, from)[i].number > highest
    decreases |q.keys| - from
  {
    if from < |q.keys| {
      AboveExceeds(q, peer, highest, from + 1);
    }
  }

  lemma {:induction false} DeliverCounter(packets: seq<DataPacket>, r: SessionState)
    ensures var out := Deliver(packets, r);
            out.0 == r.(recv := if out.1 == [] then r.recv else out.1[|out.1| - 1].number)
  {
    if packets != [] {
      DeliverCounter(packets[1..], AfterDecrypt(packets[0], r));
    }
  }

  lemma CatchUp(missed: seq<Item>, s: SessionState, r: SessionState)
    requires r.sessionId == s.sessionId && r.key == s.key
    requires forall i :: 0 <= i < |missed| ==> missed[i].number > r.recv
    ensures var out := Deliver(SealAll(missed, s), r);
            && (out.1 == missed <==> Ascending(missed) && forall i :: 0 <= i < |missed| ==> HasText(missed[i]))
            && out.0.recv == if out.1 == [] then r.recv else out.1[|out.1| - 1].number
  {
    DeliverSealAll(missed, s, r);
    TakesAll(missed, r.recv);
    DeliverCounter(SealAll(missed, s), r);
  }

  /** SYNC catch-up: a receiver at `highest` that gets the answer over an in-order link accepts
      exactly the messages numbered above `highest`, once each and in order, if and only if those
      messages all have a text, none of them too long for a frame, and their numbers ascend in queue
      order. Its counter then stands at the last of them. */
  lemma SyncCatchUp(q: Queue, s: SessionState, now: real, r: SessionState)
    requires q.Wf()
    requires r.sessionId == s.sessionId && r.key == s.key
    ensures var missed := Above(q, s.peer, r.recv, 0);
            var out := Deliver(SyncFrom(q, s, r.recv, now, 0).packets, r);
            && (out.1 == missed <==> Ascending(missed) && forall i :: 0 <= i < |missed| ==> HasText(missed[i]))
            && (out.1 == missed ==> out.0.recv == if missed == [] then r.recv else missed[|missed| - 1].number)
  {
    SyncSeals(q, s, r.recv, now, 0);
    AboveExceeds(q, s.peer, r.recv, 0);
    CatchUp(Above(q, s.peer, r.recv, 0), s, r);
  }

  // ---- a retried message

  function Two(a: Entry, b: Entry): Queue {
    Dict(["a", "b"], map["a" := a, "b" := b])
  }

  lemma TwoWf(a: Entry, b: Entry)
    ensures Two(a, b).Wf()
  {
  }

  function Sent(e: Entry, number: nat, now: real): Entry {
    e.(status := Pending, number := Some(number), sentAt := Some(now))
  }

  lemma PutFirst(a: Entry, b: Entry, x: Entry)
    ensures Two(a, b).Put("a", x) == Two(x, b)
  {
    assert Two(a, b).at["a" := x] == Two(x, b).at;
  }

  lemma PutSecond(a: Entry, b: Entry, x: Entry)
    ensures Two(a, b).Put("b", x) == Two(a, x)
  {
    assert Two(a, b).at["b" := x] == Two(a, x).at;
  }

  lemma QueuedTwo(a: Entry, b: Entry)
    ensures Empty<MessageId, Entry>().Put("a", a).Put("b", b) == Two(a, b) && Two(a, b).Wf()
  {
    assert [] + ["a"] == ["a"] && ["a"] + ["b"] == ["a", "b"];
    assert map["a" := a]["b" := b] == Two(a, b).at;
  }

  lemma TwoAbove(a: Entry, b: Entry, peer: Bytes, h: nat)
    requires a.receiver == b.receiver == peer && a.number.Some? && b.number.Some?
    requires h < a.number.value && h < b.number.value
    ensures Two(a, b).Wf()
    ensures Above(Two(a, b), peer, h, 0) == [Item(a.number.value, a.plaintext), Item(b.number.value, b.plaintext)]
  {
    TwoWf(a, b);
    AboveStep(Two(a, b), peer, h, 0);
    AboveStep(Two(a, b), peer, h, 1);
  }

  lemma TakenFirst(high: Item, low: Item, h: nat)
    requires high.number > low.number && high.number > h && HasText(high)
    ensures Taken([high, low], h) == [high]
  {
    assert [high, low][1..] == [low] && [low][1..] == [];
    assert Taken([low], high.number) == [];
  }

  /** Of two missed messages of which the one queued first has the higher number, a receiver gets that one only. */
  lemma OnlyFirstTaken(q: Queue, s: SessionState, now: real, r: SessionState, high: Item, low: Item)
    requires q.Wf() && Above(q, s.peer, r.recv, 0) == [high, low] && HasText(high)
    requires r.recv < low.number < high.number && r.sessionId == s.sessionId && r.key == s.key
    ensures Deliver(SyncFrom(q, s, r.recv, now, 0).packets, r).1 == [high]
  {
    SyncSeals(q, s, r.recv, now, 0);
    DeliverSealAll([high, low], s, r);
    TakenFirst(high, low, r.recv);
  }

  /** A text too long for a frame in front of all others: nothing is sent and nothing arrives. */
  lemma NothingTaken(q: Queue, s: SessionState, now: real, r: SessionState, long: Item, low: Item)
    requires q.Wf() && Above(q, s.peer, r.recv, 0) == [long, low] && Ends(long)
    ensures SyncFrom(q, s, r.recv, now, 0).packets == [] && Deliver(SyncFrom(q, s, r.recv, now, 0).packets, r).1 == []
  {
    SyncSeals(q, s, r.recv, now, 0);
  }
}
