/** What every run of the delivery system keeps, and exactly when one number means one packet. */
module DeliveryTheorems {

  import opened Basics
  import opened OrderedDicts
  import opened Aead
  import opened Sessions
  import opened Queues
  import opened Synchronisation
  import opened Delivery
  import opened Runs

  // ---- delivered means received

  /** The receiver accepted exactly this text under this number. */
  ghost predicate Received(s: System, number: nat, text: Bytes) {
    exists i :: 0 <= i < |s.accepted| && s.accepted[i] == Item(number, text)
  }

  predicate IsSettled(e: Entry) {
    e.status == Delivered || e.status == Acknowledged
  }

  /** A settled entry carries a number whose text the receiver accepted. */
  ghost predicate WasReceived(s: System, e: Entry) {
    e.number.Some? && Received(s, e.number.value, e.plaintext)
  }

  /** Every numbered entry of a one-peer queue is known under its number, and no number has two entries. */
  ghost predicate Numbered(s: System) {
    && (forall id :: id in s.queue.at && s.queue.at[id].number.Some? ==>
          TextOf(s, s.queue.at[id].number.value) == Some(s.queue.at[id].plaintext))
    && (forall id, other | id in s.queue.at && other in s.queue.at && s.queue.at[id].number.Some? ::
          s.queue.at[id].number == s.queue.at[other].number ==> id == other)
  }

  ghost predicate AcksInv(s: System) {
    forall n :: n in s.acks || n in s.appAcks ==> WasAccepted(s, n)
  }

  ghost predicate SettledInv(s: System) {
    forall id :: id in s.queue.at && IsSettled(s.queue.at[id]) && id !in s.settled ==> WasReceived(s, s.queue.at[id])
  }

  ghost predicate DeliveryInv(s: System) {
    PacketInv(s) && Numbered(s) && AcksInv(s) && SettledInv(s)
  }

  /** Accepted output and settled history of `s` survive in `t`. */
  ghost predicate Remembers(s: System, t: System) {
    Extends(s, t) && s.accepted <= t.accepted && s.settled == t.settled
  }

  lemma RemembersReceived(s: System, t: System, e: Entry)
    requires s.accepted <= t.accepted && WasReceived(s, e)
    ensures WasReceived(t, e)
  {
    var i :| 0 <= i < |s.accepted| && s.accepted[i] == Item(e.number.value, e.plaintext);
    assert t.accepted[i] == Item(e.number.value, e.plaintext);
  }

  lemma RemembersAccepted(s: System, t: System, n: nat)
    requires s.accepted <= t.accepted && WasAccepted(s, n)
    ensures WasAccepted(t, n)
  {
    var i :| 0 <= i < |s.accepted| && s.accepted[i].number == n;
    assert t.accepted[i].number == n;
  }

  /** A settled entry of `t` was settled before, or its text was accepted. */
  ghost predicate RightlySettled(s: System, t: System, id: MessageId)
    requires id in t.queue.at
  {
    || WasReceived(t, t.queue.at[id])
    || (id in s.queue.at && IsSettled(s.queue.at[id]) &&
        t.queue.at[id].number == s.queue.at[id].number && t.queue.at[id].plaintext == s.queue.at[id].plaintext)
  }

  lemma NumbersKept(s: System, t: System)
    requires Numbered(s) && Extends(s, t) && Keeps(s.queue, t.queue)
    ensures Numbered(t)
  {
    ExtendsText(s, t);
    forall id | id in t.queue.at && t.queue.at[id].number.Some?
      ensures TextOf(t, t.queue.at[id].number.value) == Some(t.queue.at[id].plaintext)
    {
      assert SameMessage(s.queue, t.queue, id);
    }
    forall id, other | id in t.queue.at && other in t.queue.at && t.queue.at[id].number.Some? &&
                       t.queue.at[id].number == t.queue.at[other].number
      ensures id == other
    {
      assert SameMessage(s.queue, t.queue, id) && SameMessage(s.queue, t.queue, other);
    }
  }

  /** Entries that keep message, number and status stay settled rightly. */
  lemma SameEntries(s: System, t: System)
    requires DeliveryInv(s) && PacketInv(t) && Remembers(s, t) && Keeps(s.queue, t.queue)
    requires forall n :: (n in t.acks || n in t.appAcks) && n !in s.acks && n !in s.appAcks ==> WasAccepted(t, n)
    requires forall id :: id in t.queue.at && IsSettled(t.queue.at[id]) && id !in t.settled ==> RightlySettled(s, t, id)
    ensures DeliveryInv(t)
  {
    NumbersKept(s, t);
    forall n | n in t.acks || n in t.appAcks ensures WasAccepted(t, n) {
      if n in s.acks || n in s.appAcks { RemembersAccepted(s, t, n); }
    }
    forall id | id in t.queue.at && IsSettled(t.queue.at[id]) && id !in t.settled
      ensures WasReceived(t, t.queue.at[id])
    {
      if !WasReceived(t, t.queue.at[id]) {
        RemembersReceived(s, t, s.queue.at[id]);
      }
    }
  }

  /** An acknowledged number settles the one message that has it, and the receiver has its text. */
  lemma AckSettles(s: System, n: nat)
    requires DeliveryInv(s) && n in s.acks
    ensures var found := FirstKey(s.queue, AwaitsAck(n), 0);
            found.Some? ==> WasReceived(s, s.queue.at[found.value].(status := Delivered))
  {
    var found := FirstKey(s.queue, AwaitsAck(n), 0);
    if found.Some? {
      var e := s.queue.at[found.value];
      assert AwaitsAck(n)(e);
      var i :| 0 <= i < |s.accepted| && s.accepted[i].number == n;
      assert TextOf(s, n) == Some(s.accepted[i].plaintext);
      assert s.accepted[i] == Item(n, e.plaintext);
    }
  }

  lemma SendKeepsDelivery(s: System, id: MessageId, now: real)
    requires DeliveryInv(s)
    ensures DeliveryInv(AfterSend(s, id, now))
  {
    SendKeepsPackets(s, id, now);
    SendKeepsNumbers(s, id, now);
    SendKeepsSettled(s, id, now);
  }

  lemma SendKeepsSettled(s: System, id: MessageId, now: real)
    requires DeliveryInv(s)
    ensures AcksInv(AfterSend(s, id, now)) && SettledInv(AfterSend(s, id, now))
  {
    var t := AfterSend(s, id, now);
    assert t.accepted == s.accepted;
    forall n | n in t.acks || n in t.appAcks ensures WasAccepted(t, n) { RemembersAccepted(s, t, n); }
    forall k | k in t.queue.at && IsSettled(t.queue.at[k]) && k !in t.settled ensures WasReceived(t, t.queue.at[k]) {
      assert k in s.queue.at && t.queue.at[k] == s.queue.at[k];
      RemembersReceived(s, t, s.queue.at[k]);
    }
  }

  lemma SendKeepsNumbers(s: System, id: MessageId, now: real)
    requires CountersInv(s) && Numbered(s)
    ensures Numbered(AfterSend(s, id, now))
  {
    var t := AfterSend(s, id, now);
    if Build(s.queue, id, s.sender, now).result.Built? {
      assert Extends(s, t);
      ExtendsText(s, t);
      var n := s.sender.send;
      assert TextOf(t, n) == Some(s.queue.at[id].plaintext);
      forall k | k in s.queue.at && s.queue.at[k].number.Some? ensures s.queue.at[k].number.value < n {
        assert TextOf(s, s.queue.at[k].number.value).Some?;
      }
    } else {
      assert t == s.(sender := t.sender) && t.queue == s.queue;
    }
  }

  /** Nothing that was said of a number is ever taken back. */
  lemma ExtendsNext(s: System, e: Event)
    requires s.queue.Wf()
    ensures Extends(s, Next(s, e))
  {
  }

  /** Every step keeps the numbers apart and known, whoever its packets come from. */
  lemma NumberedStep(s: System, e: Event)
    requires SenderInv(s) && Numbered(s)
    ensures Numbered(Next(s, e))
  {
    ExtendsNext(s, e);
    match e {
      case Send(id, now) => SendKeepsNumbers(s, id, now);
      case SyncArrives(h, now) =>
        SyncKeepsMessages(s.queue, s.sender, h, now, 0);
        TimesKeep(s.queue, Next(s, e).queue);
        NumbersKept(s, Next(s, e));
      case DataArrives(_) => SelfKeeps(s.queue); NumbersKept(s, Next(s, e));
      case SendAck(_) => SelfKeeps(s.queue); NumbersKept(s, Next(s, e));
      case SendAppAck(_) => SelfKeeps(s.queue); NumbersKept(s, Next(s, e));
      case SendSync => SelfKeeps(s.queue); NumbersKept(s, Next(s, e));
      case _ => QueueEventKeeps(s, e); NumbersKept(s, Next(s, e));
    }
  }

  /** Only an ACK settles a message: after any other step a settled message was settled before. */
  lemma StaysSettled(s: System, e: Event, id: MessageId)
    requires s.queue.Wf() && !e.AckArrives? && id in Next(s, e).queue.at && IsSettled(Next(s, e).queue.at[id])
    ensures s.accepted <= Next(s, e).accepted && (id in s.settled ==> id in Next(s, e).settled)
    ensures id in s.queue.at && IsSettled(s.queue.at[id]) && SameMessage(s.queue, Next(s, e).queue, id)
  {
    match e {
      case SyncArrives(h, now) => SyncKeepsMessages(s.queue, s.sender, h, now, 0);
      case Send(k, now) => SendStaysSettled(s, k, now, id);
      case AppAckArrives(n) => AppAckStaysSettled(s, n, id);
      case Timeout(k) => TimeoutStaysSettled(s, k, id);
      case _ =>
    }
  }

  lemma AppAckStaysSettled(s: System, n: nat, id: MessageId)
    requires s.queue.Wf() && id in AppAcked(s.queue, s.sender.peer, n).at && IsSettled(AppAcked(s.queue, s.sender.peer, n).at[id])
    ensures id in s.queue.at && IsSettled(s.queue.at[id]) && SameMessage(s.queue, AppAcked(s.queue, s.sender.peer, n), id)
  {
    var found := FirstKey(s.queue, AwaitsAppAck(s.sender.peer, n), 0);
    assert found.Some? ==> AwaitsAppAck(s.sender.peer, n)(s.queue.at[found.value]);
  }

  lemma TimeoutStaysSettled(s: System, k: MessageId, id: MessageId)
    requires s.queue.Wf() && id in TimedOut(s.queue, k).at && IsSettled(TimedOut(s.queue, k).at[id])
    ensures id in s.queue.at && IsSettled(s.queue.at[id]) && SameMessage(s.queue, TimedOut(s.queue, k), id)
  {
  }

  lemma SendStaysSettled(s: System, k: MessageId, now: real, id: MessageId)
    requires s.queue.Wf() && id in AfterSend(s, k, now).queue.at && IsSettled(AfterSend(s, k, now).queue.at[id])
    ensures s.accepted <= AfterSend(s, k, now).accepted && (id in s.settled ==> id in AfterSend(s, k, now).settled)
    ensures id in s.queue.at && IsSettled(s.queue.at[id]) && SameMessage(s.queue, AfterSend(s, k, now).queue, id)
  {
  }

  lemma DataKeepsDelivery(s: System, p: DataPacket)
    requires DeliveryInv(s) && CarriesText(s, p)
    ensures DeliveryInv(AfterData(s, p))
  {
    DataKeepsPackets(s, p);
    SelfKeeps(s.queue);
    SameEntries(s, AfterData(s, p));
  }

  lemma SyncKeepsDelivery(s: System, h: nat, now: real)
    requires DeliveryInv(s) && h in s.syncs
    ensures DeliveryInv(AfterSync(s, h, now))
  {
    var t := AfterSync(s, h, now);
    SyncKeepsPackets(s, h, now);
    SyncKeepsMessages(s.queue, s.sender, h, now, 0);
    TimesKeep(s.queue, t.queue);
    forall id | id in t.queue.at && IsSettled(t.queue.at[id]) ensures RightlySettled(s, t, id) {
      assert id in s.queue.at && s.queue.at[id] == t.queue.at[id].(sentAt := s.queue.at[id].sentAt);
    }
    SameEntries(s, t);
  }

  /** Both acknowledgements, a timeout and a new message settle only what was received. */
  lemma QueueEventSettles(s: System, e: Event, id: MessageId)
    requires DeliveryInv(s) && Enabled(s, e)
    requires e.Enqueue? || e.Timeout? || e.AckArrives? || e.AppAckArrives?
    requires id in Next(s, e).queue.at && IsSettled(Next(s, e).queue.at[id])
    ensures RightlySettled(s, Next(s, e), id)
  {
    var t := Next(s, e);
    if e.AckArrives? {
      AckEventSettles(s, e.number, id);
    } else {
      StaysSettled(s, e, id);
    }
  }

  lemma AckEventSettles(s: System, n: nat, id: MessageId)
    requires DeliveryInv(s) && n in s.acks
    requires id in Acked(s.queue, n).at && IsSettled(Acked(s.queue, n).at[id])
    ensures RightlySettled(s, s.(queue := Acked(s.queue, n)), id)
  {
    var t := s.(queue := Acked(s.queue, n));
    AckSettles(s, n);
    if FirstKey(s.queue, AwaitsAck(n), 0) == Some(id) {
      RemembersReceived(s, t, t.queue.at[id]);
    } else {
      assert id in s.queue.at && t.queue.at[id] == s.queue.at[id];
    }
  }

  lemma QueueEventKeepsDelivery(s: System, e: Event)
    requires DeliveryInv(s) && Enabled(s, e)
    requires e.Enqueue? || e.Timeout? || e.AckArrives? || e.AppAckArrives?
    ensures DeliveryInv(Next(s, e))
  {
    PacketStep(s, e);
    QueueEventKeeps(s, e);
    var t := Next(s, e);
    forall id | id in t.queue.at && IsSettled(t.queue.at[id]) ensures RightlySettled(s, t, id) {
      QueueEventSettles(s, e, id);
    }
    SameEntries(s, t);
  }

  lemma DeliveryStep(s: System, e: Event)
    requires DeliveryInv(s) && Enabled(s, e)
    ensures DeliveryInv(Next(s, e))
  {
    match e {
      case Send(id, now) => SendKeepsDelivery(s, id, now);
      case DataArrives(p) =>
        OpenedIsGenuine(s, p);
        DataKeepsDelivery(s, p);
      case SendAck(n) => AckSentKeeps(s, Next(s, e), n);
      case SendAppAck(n) => AckSentKeeps(s, Next(s, e), n);
      case SendSync => SyncSentKeeps(s);
      case SyncArrives(h, now) => SyncKeepsDelivery(s, h, now);
      case _ => QueueEventKeepsDelivery(s, e);
    }
  }

  lemma SyncSentKeeps(s: System)
    requires DeliveryInv(s)
    ensures DeliveryInv(Next(s, SendSync))
  {
    PacketStep(s, SendSync);
    SelfKeeps(s.queue);
    SameEntries(s, Next(s, SendSync));
  }

  lemma AckSentKeeps(s: System, t: System, n: nat)
    requires DeliveryInv(s) && WasAccepted(s, n)
    requires t == Next(s, SendAck(n)) || t == Next(s, SendAppAck(n))
    ensures DeliveryInv(t)
  {
    PacketStep(s, SendAck(n));
    PacketStep(s, SendAppAck(n));
    SelfKeeps(s.queue);
    RemembersAccepted(s, t, n);
    SameEntries(s, t);
  }

  lemma SelfKeeps(q: Queue)
    requires q.Wf()
    ensures Keeps(q, q)
  {
    forall id | id in q.at && q.at[id].number.Some? ensures SameMessage(q, q, id) {}
  }

  lemma TimesKeep(q: Queue, r: Queue)
    requires r.Wf() && SameButTimes(q, r)
    ensures Keeps(q, r)
  {
    forall id | id in r.at && r.at[id].number.Some? ensures SameMessage(q, r, id) {
      assert id in q.at;
    }
  }

  lemma {:induction false} DeliveryRun(s: System, es: seq<Event>)
    requires DeliveryInv(s) && Legal(s, es)
    ensures DeliveryInv(After(s, es))
    decreases |es|
  {
    if es != [] {
      DeliveryStep(s, es[0]);
      DeliveryRun(Next(s, es[0]), es[1..]);
    }
  }

  /** A queue that can start a session with next number `send`: every number in it is below `send`
      and recorded in `carried` with its message's text, and no number is used twice. */
  ghost predicate Startable(q: Queue, send: nat, carried: map<nat, Bytes>) {
    && q.Wf()
    && (forall n :: n in carried ==> n < send)
    && (forall id :: id in q.at && q.at[id].number.Some? ==>
          q.at[id].number.value in carried && carried[q.at[id].number.value] == q.at[id].plaintext)
    && (forall id, other | id in q.at && other in q.at && q.at[id].number.Some? ::
          q.at[id].number == q.at[other].number ==> id == other)
  }

  lemma StartDelivers(q: Queue, sender: SessionState, receiver: SessionState, carried: map<nat, Bytes>)
    requires Startable(q, sender.send, carried) && SameSession(sender, receiver)
    ensures DeliveryInv(Begin(q, sender, receiver, carried))
  {
    var s := Begin(q, sender, receiver, carried);
    assert forall id :: id in q.at && q.at[id].number.Some? ==> TextOf(s, q.at[id].number.value) == Some(q.at[id].plaintext);
  }

  /** Delivered means received: after every run, each message marked delivered or acknowledged that
      was not already so before the session has had exactly its text accepted under its number. */
  lemma DeliveredMeansReceived(q: Queue, sender: SessionState, receiver: SessionState, carried: map<nat, Bytes>,
                               es: seq<Event>, id: MessageId)
    requires Startable(q, sender.send, carried) && SameSession(sender, receiver)
    requires Legal(Begin(q, sender, receiver, carried), es)
    ensures var s := After(Begin(q, sender, receiver, carried), es);
            id in s.queue.at && s.queue.at[id].status in {Delivered, Acknowledged} && id !in s.settled ==>
              s.queue.at[id].number.Some? &&
              exists i :: 0 <= i < |s.accepted| &&
                          s.accepted[i] == Item(s.queue.at[id].number.value, s.queue.at[id].plaintext)
  {
    StartDelivers(q, sender, receiver, carried);
    DeliveryRun(Begin(q, sender, receiver, carried), es);
    var s := After(Begin(q, sender, receiver, carried), es);
    if id in s.queue.at && IsSettled(s.queue.at[id]) && id !in s.settled {
      assert WasReceived(s, s.queue.at[id]);
    }
  }

  /** Only messages settled before the session are exempt, and only until they are sent again. */
  lemma {:induction false} SettledShrinks(s: System, es: seq<Event>)
    requires PacketInv(s) && Legal(s, es)
    ensures After(s, es).settled <= s.settled
    ensures forall i :: |s.builds| <= i < |After(s, es).builds| ==> After(s, es).builds[i].id !in After(s, es).settled
    ensures s.builds <= After(s, es).builds
    decreases |es|
  {
    if es != [] {
      PacketStep(s, es[0]);
      SettledShrinks(Next(s, es[0]), es[1..]);
      if es[0].Send? {
        var t, u := Next(s, es[0]), After(s, es);
        assert t.builds == s.builds || (t.builds == s.builds + [t.builds[|s.builds|]] && t.builds[|s.builds|].id !in t.settled);
      }
    }
  }

  // ---- ordered, at-most-once output

  ghost predicate IsSubsequence(part: seq<Item>, whole: seq<BuildRecord>, at: seq<nat>) {
    && |at| == |part|
    && (forall i, j :: 0 <= i < j < |at| ==> at[i] < at[j])
    && (forall i :: 0 <= i < |at| ==> at[i] < |whole| && part[i] == Item(whole[at[i]].number, whole[at[i]].plaintext))
  }

  /** Where an ascending list passes a bound. */
  lemma {:induction false} SplitAt(items: seq<Item>, bound: nat) returns (k: nat)
    requires Ascending(items)
    ensures k <= |items|
    ensures forall i :: 0 <= i < k ==> items[i].number < bound
    ensures forall i :: k <= i < |items| ==> items[i].number >= bound
  {
    if items == [] || items[|items| - 1].number < bound {
      k := |items|;
    } else {
      k := SplitAt(items[..|items| - 1], bound);
      assert forall i :: k <= i < |items| - 1 ==> items[i] == items[..|items| - 1][i];
    }
  }

  /** The accepted list is carried-in messages up to `k`, then a subsequence of the builds. */
  ghost predicate OutputSplits(s: System, k: nat, at: seq<nat>) {
    && k <= |s.accepted| && IsSubsequence(s.accepted[k..], s.builds, at)
    && forall i :: 0 <= i < k ==> s.accepted[i].number in s.carried && s.carried[s.accepted[i].number] == s.accepted[i].plaintext
  }

  lemma OutputSplit(s: System) returns (k: nat, at: seq<nat>)
    requires CountersInv(s) && OutputInv(s)
    ensures OutputSplits(s, k, at)
  {
    k := SplitAt(s.accepted, s.base);
    var rest := s.accepted[k..];
    forall i | 0 <= i < |rest|
      ensures s.base <= rest[i].number < s.base + |s.builds| && s.builds[rest[i].number - s.base].plaintext == rest[i].plaintext
    {
      assert rest[i] == s.accepted[k + i] && TextOf(s, rest[i].number) == Some(rest[i].plaintext);
    }
    at := seq(|rest|, i requires 0 <= i < |rest| => rest[i].number - s.base);
    assert IsSubsequence(rest, s.builds, at);
    forall i | 0 <= i < k
      ensures s.accepted[i].number in s.carried && s.carried[s.accepted[i].number] == s.accepted[i].plaintext
    {
      assert TextOf(s, s.accepted[i].number) == Some(s.accepted[i].plaintext);
    }
  }

  /** Ordered, at-most-once output: whatever the network does, the accepted numbers strictly
      increase; first come messages that carried an older number into the session, each with its
      own text, and the rest is a subsequence of what was built in the session, in build order. */
  lemma OrderedOutput(q: Queue, sender: SessionState, receiver: SessionState, es: seq<Event>)
    requires q.Wf() && SameSession(sender, receiver) && Clean(q, sender.peer, sender.send, receiver.recv)
    requires Legal(Begin(q, sender, receiver, CarriedTexts(q, sender.peer, receiver.recv)), es)
    ensures var s := After(Begin(q, sender, receiver, CarriedTexts(q, sender.peer, receiver.recv)), es);
            Ascending(s.accepted) && exists k, at :: OutputSplits(s, k, at)
    ensures var s := After(Begin(q, sender, receiver, CarriedTexts(q, sender.peer, receiver.recv)), es);
            forall n :: n in s.carried ==> CarriedIn(q, sender.peer, receiver.recv, Item(n, s.carried[n]))
  {
    var carried := CarriedTexts(q, sender.peer, receiver.recv);
    var s0 := Begin(q, sender, receiver, carried);
    CleanStarts(q, sender, receiver, receiver.recv);
    PacketRun(s0, es);
    HistoryFixed(s0, es);
    var k, at := OutputSplit(After(s0, es));
    forall n | n in carried ensures CarriedIn(q, sender.peer, receiver.recv, Item(n, carried[n])) {}
  }

  /** The item is a resendable message of the queue, under the number it already had. */
  ghost predicate CarriedIn(q: Queue, peer: Bytes, floor: nat, item: Item) {
    exists id :: id in q.at && Resendable(q.at[id], peer, floor) &&
                 q.at[id].number == Some(item.number) && q.at[id].plaintext == item.plaintext
  }

  lemma {:induction false} HistoryFixed(s: System, es: seq<Event>)
    requires PacketInv(s) && Legal(s, es)
    ensures After(s, es).carried == s.carried && After(s, es).base == s.base && After(s, es).floor == s.floor
    decreases |es|
  {
    if es != [] {
      PacketStep(s, es[0]);
      HistoryFixed(Next(s, es[0]), es[1..]);
    }
  }

  // ---- at most five builds

  function Builds(log: seq<BuildRecord>, id: MessageId): nat {
    if log == [] then 0 else Builds(log[..|log| - 1], id) + if log[|log| - 1].id == id then 1 else 0
  }

  /** Builds so far never exceed the retry count, plus one once the message has left the queue. */
  ghost predicate BuildsInv(s: System) {
    && s.queue.Wf()
    && (forall id :: id !in s.queue.at ==> Builds(s.builds, id) == 0)
    && (forall id :: id in s.queue.at ==> BuildsBelow(s.queue.at[id], Builds(s.builds, id)))
  }

  predicate BuildsBelow(e: Entry, count: nat) {
    if e.status == Queued then count <= e.retryCount && count < MAX_RETRIES
    else count <= e.retryCount + 1 && count <= MAX_RETRIES
  }

  /** Replacing one entry keeps the bound if the new entry respects it. */
  lemma PutBuilds(s: System, id: MessageId, e: Entry)
    requires BuildsInv(s) && BuildsBelow(e, Builds(s.builds, id))
    ensures BuildsInv(s.(queue := s.queue.Put(id, e)))
  {
  }

  lemma StatusBuilds(s: System, found: Option<MessageId>, status: Status)
    requires BuildsInv(s) && (found.Some? ==> found.value in s.queue.at && s.queue.at[found.value].status != Queued)
    requires status != Queued
    ensures BuildsInv(s.(queue := WithStatus(s.queue, found, status)))
  {
    if found.Some? {
      PutBuilds(s, found.value, s.queue.at[found.value].(status := status));
    }
  }

  lemma SendBuilds(s: System, id: MessageId, now: real)
    requires BuildsInv(s)
    ensures BuildsInv(AfterSend(s, id, now))
  {
    var t := AfterSend(s, id, now);
    if Build(s.queue, id, s.sender, now).result.Built? {
      assert t.builds[..|t.builds| - 1] == s.builds;
      forall k | k in t.queue.at ensures BuildsBelow(t.queue.at[k], Builds(t.builds, k)) {
        assert Builds(t.builds, k) == Builds(s.builds, k) + if k == id then 1 else 0;
        assert k != id ==> t.queue.at[k] == s.queue.at[k];
        assert BuildsBelow(s.queue.at[k], Builds(s.builds, k));
      }
    } else {
      assert t.queue == s.queue && t.builds == s.builds;
    }
  }

  lemma SyncBuilds(s: System, h: nat, now: real)
    requires BuildsInv(s)
    ensures BuildsInv(AfterSync(s, h, now))
  {
    var t := AfterSync(s, h, now);
    SyncKeepsMessages(s.queue, s.sender, h, now, 0);
    forall k | k in t.queue.at ensures BuildsBelow(t.queue.at[k], Builds(t.builds, k)) {
      assert k in s.queue.at && BuildsBelow(s.queue.at[k], Builds(s.builds, k));
    }
  }

  lemma BuildsStep(s: System, e: Event)
    requires BuildsInv(s) && Enabled(s, e)
    ensures BuildsInv(Next(s, e))
  {
    match e {
      case Enqueue(id, text) => PutBuilds(s, id, Entry(s.sender.peer, Queued, 0, text, None, None));
      case Send(id, now) => SendBuilds(s, id, now);
      case Timeout(id) =>
        if id in s.queue.at {
          var x := s.queue.at[id];
          PutBuilds(s, id, x.(retryCount := x.retryCount + 1,
                              status := if x.retryCount + 1 >= MAX_RETRIES then Failed else Queued));
        }
      case AckArrives(n) => StatusBuilds(s, FirstKey(s.queue, AwaitsAck(n), 0), Delivered);
      case AppAckArrives(n) => StatusBuilds(s, FirstKey(s.queue, AwaitsAppAck(s.sender.peer, n), 0), Acknowledged);
      case SyncArrives(h, now) => SyncBuilds(s, h, now);
      case _ => assert Next(s, e).queue == s.queue && Next(s, e).builds == s.builds;
    }
  }

  /** Retry bound: in every run no message is numbered and sealed more than five times. */
  lemma {:induction false} FiveBuilds(s: System, es: seq<Event>, id: MessageId)
    requires BuildsInv(s) && Legal(s, es)
    ensures Builds(After(s, es).builds, id) <= MAX_RETRIES
    ensures BuildsInv(After(s, es))
    decreases |es|
  {
    if es != [] {
      BuildsStep(s, es[0]);
      FiveBuilds(Next(s, es[0]), es[1..], id);
    }
  }

  lemma SessionBuilds(q: Queue, sender: SessionState, receiver: SessionState, carried: map<nat, Bytes>,
                      es: seq<Event>, id: MessageId)
    requires q.Wf() && Legal(Begin(q, sender, receiver, carried), es)
    ensures Builds(After(Begin(q, sender, receiver, carried), es).builds, id) <= MAX_RETRIES
  {
    FiveBuilds(Begin(q, sender, receiver, carried), es, id);
  }

  // ---- one number, one packet

  /** Packets under one number, or under one nonce, are one packet. */
  ghost predicate OnePacketPerNumber(data: set<DataPacket>) {
    forall p, q :: p in data && q in data && (p.number == q.number || p.sealed.nonce == q.sealed.nonce) ==> p == q
  }

  lemma GenuineUnique(s: System)
    requires WireInv(s)
    ensures OnePacketPerNumber(s.data)
  {
    forall p, q | p in s.data && q in s.data && (p.number == q.number || p.sealed.nonce == q.sealed.nonce)
      ensures p == q
    {
      assert Genuine(s, p) && Genuine(s, q);
      if p.number != q.number {
        NonceInjective(s.sender.sessionId, p.number, q.number);
      }
    }
  }

  /** The texts the resendable entries bring along. */
  ghost function CarriedTexts(q: Queue, peer: Bytes, floor: nat): map<nat, Bytes> {
    map n | n in (set id | id in q.at && Resendable(q.at[id], peer, floor) :: q.at[id].number.value) ::
      var id :| id in q.at && Resendable(q.at[id], peer, floor) && q.at[id].number == Some(n);
      q.at[id].plaintext
  }

  lemma CleanStarts(q: Queue, sender: SessionState, receiver: SessionState, floor: nat)
    requires q.Wf() && SameSession(sender, receiver) && floor <= receiver.recv && Clean(q, sender.peer, sender.send, floor)
    ensures PacketInv(BeginAt(q, sender, receiver, floor, CarriedTexts(q, sender.peer, floor)))
  {
    var carried := CarriedTexts(q, sender.peer, floor);
    var s := BeginAt(q, sender, receiver, floor, carried);
    forall id | id in q.at && Resendable(q.at[id], sender.peer, floor)
      ensures TextOf(s, q.at[id].number.value) == Some(q.at[id].plaintext)
    {
      assert q.at[id].number.value in carried;
    }
  }

  /** From any state the sender can be driven to seal a message with any text under any number it has not reached. */
  lemma {:induction false} ReachNumber(s: System, n: nat, text: Bytes) returns (es: seq<Event>)
    requires s.queue.Wf() && s.sender.send <= n < TWO_32 && Framed(text)
    ensures Legal(s, es) && s.data <= After(s, es).data
    ensures SealData(s.sender.sessionId, s.sender.key, n, text) in After(s, es).data
    decreases n - s.sender.send
  {
    var id := FreshId(s.queue);
    var t := Next(s, Enqueue(id, text));
    var u := Next(t, Send(id, 0.0));
    assert Build(t.queue, id, t.sender, 0.0).result.Built?;
    var rest := [];
    if s.sender.send < n {
      rest := ReachNumber(u, n, text);
    }
    RunCons(t, Send(id, 0.0), rest);
    RunCons(s, Enqueue(id, text), [Send(id, 0.0)] + rest);
    es := [Enqueue(id, text)] + ([Send(id, 0.0)] + rest);
  }

  /** Some message id is not in the queue. */
  lemma FreshId(q: Queue) returns (id: MessageId)
    ensures id !in q.at
  {
    id := Longer(q.at.Keys);
  }

  lemma {:induction false} Longer(ids: set<MessageId>) returns (id: MessageId)
    ensures id !in ids && forall k :: k in ids ==> |k| < |id|
  {
    if ids == {} {
      id := "";
    } else {
      var one :| one in ids;
      var rest := Longer(ids - {one});
      id := if |one| < |rest| then rest else one + "x";
      assert forall k :: k in ids ==> k == one || k in ids - {one};
    }
  }

  /** An entry that ends the answer to a SYNC from a receiver at `floor`. */
  predicate Blocks(e: Entry, peer: Bytes, floor: nat) {
    e.receiver == peer && e.number.Some? && e.number.value > floor && Ends(Item(e.number.value, e.plaintext))
  }

  /** Nothing that ends the answer stands before this message. */
  ghost predicate InFront(q: Queue, peer: Bytes, floor: nat, id: MessageId)
    requires q.Wf()
  {
    exists k :: 0 <= k < |q.keys| && q.keys[k] == id && FreeUpTo(q, peer, floor, 0, k)
  }

  ghost predicate FreeUpTo(q: Queue, peer: Bytes, floor: nat, from: nat, k: nat)
    requires q.Wf() && k <= |q.keys|
  {
    forall i :: from <= i < k ==> !Blocks(q.at[q.keys[i]], peer, floor)
  }

  ghost predicate Unblocked(q: Queue, peer: Bytes, floor: nat) {
    forall id :: id in q.at ==> !Blocks(q.at[id], peer, floor)
  }

  /** Clean as far as the messages in front go. */
  ghost predicate CleanFront(q: Queue, peer: Bytes, send: nat, floor: nat)
    requires q.Wf()
  {
    && (forall id :: id in q.at && Resendable(q.at[id], peer, floor) && InFront(q, peer, floor, id) ==> q.at[id].number.value < send)
    && (forall id, other |
          id in q.at && other in q.at && q.at[id].number == q.at[other].number &&
          Resendable(q.at[id], peer, floor) && Resendable(q.at[other], peer, floor) &&
          InFront(q, peer, floor, id) && InFront(q, peer, floor, other) ::
          q.at[id].plaintext == q.at[other].plaintext)
  }

  lemma AllInFront(q: Queue, peer: Bytes, floor: nat, id: MessageId)
    requires q.Wf() && Unblocked(q, peer, floor) && id in q.at
    ensures InFront(q, peer, floor, id)
  {
    var k :| 0 <= k < |q.keys| && q.keys[k] == id;
    assert FreeUpTo(q, peer, floor, 0, k);
  }

  /** Of the entry at `from`, if it does not end the answer, the answer is what the rest gives, and its own packet. */
  lemma FrontStep(q: Queue, s: SessionState, highest: nat, from: nat, p: DataPacket)
    requires q.Wf() && from < |q.keys| && !Blocks(q.at[q.keys[from]], s.peer, highest)
    ensures p in SealAll(Above(q, s.peer, highest, from + 1), s) ==> p in SealAll(Above(q, s.peer, highest, from), s)
    ensures Resendable(q.at[q.keys[from]], s.peer, highest) &&
            p == SealData(s.sessionId, s.key, q.at[q.keys[from]].number.value, q.at[q.keys[from]].plaintext) ==>
              p in SealAll(Above(q, s.peer, highest, from), s)
  {
    if Missed(q, s.peer, highest, from) {
      AboveMissed(q, s, highest, from);
    } else {
      AboveStep(q, s.peer, highest, from);
    }
  }

  lemma {:induction false} FrontSealed(q: Queue, s: SessionState, highest: nat, from: nat, k: nat, p: DataPacket)
    requires q.Wf() && from <= k < |q.keys| && Resendable(q.at[q.keys[k]], s.peer, highest)
    requires p == SealData(s.sessionId, s.key, q.at[q.keys[k]].number.value, q.at[q.keys[k]].plaintext)
    requires FreeUpTo(q, s.peer, highest, from, k)
    ensures p in SealAll(Above(q, s.peer, highest, from), s)
    decreases k - from
  {
    FrontStep(q, s, highest, from, p);
    if from < k {
      FrontSealed(q, s, highest, from + 1, k, p);
    }
  }

  /** One SYNC puts every resendable message in front on the wire. */
  lemma FrontSent(q: Queue, s: SessionState, highest: nat, now: real, id: MessageId)
    requires q.Wf() && id in q.at && Resendable(q.at[id], s.peer, highest) && InFront(q, s.peer, highest, id)
    ensures SealData(s.sessionId, s.key, q.at[id].number.value, q.at[id].plaintext) in SyncFrom(q, s, highest, now, 0).packets
  {
    var k :| 0 <= k < |q.keys| && q.keys[k] == id && FreeUpTo(q, s.peer, highest, 0, k);
    SyncSeals(q, s, highest, now, 0);
    FrontSealed(q, s, highest, 0, k, SealData(s.sessionId, s.key, q.at[id].number.value, q.at[id].plaintext));
  }

  /** The opening SYNC exchange of a session. */
  ghost function Opened(s: System): System
    requires s.queue.Wf()
  {
    Next(Next(s, SendSync), SyncArrives(s.receiver.recv, 0.0))
  }

  lemma Clash(data: set<DataPacket>, sender: SessionState, n: nat, a: Bytes, b: Bytes)
    requires n < TWO_32 && a != b
    requires SealData(sender.sessionId, sender.key, n, a) in data && SealData(sender.sessionId, sender.key, n, b) in data
    ensures !OnePacketPerNumber(data)
  {
    var p, q := SealData(sender.sessionId, sender.key, n, a), SealData(sender.sessionId, sender.key, n, b);
    assert p.number == q.number && p.sealed.plaintext != q.sealed.plaintext;
  }

  /** A resendable number the sender has yet to reach will be given to a new message too. */
  lemma ReusedNumber(s: System, id: MessageId) returns (es: seq<Event>)
    requires s.queue.Wf() && id in s.queue.at && Resendable(s.queue.at[id], s.sender.peer, s.receiver.recv)
    requires InFront(s.queue, s.sender.peer, s.receiver.recv, id) && s.queue.at[id].number.value >= s.sender.send
    ensures Legal(s, es) && !OnePacketPerNumber(After(s, es).data)
  {
    var n := s.queue.at[id].number.value;
    FrontSent(s.queue, s.sender, s.receiver.recv, 0.0, id);
    SyncKeepsMessages(s.queue, s.sender, s.receiver.recv, 0.0, 0);
    var rest := ReachNumber(Opened(s), n, []);
    es := [SendSync, SyncArrives(s.receiver.recv, 0.0)] + rest;
    RunSplit(s, rest);
    Clash(After(s, es).data, s.sender, n, s.queue.at[id].plaintext, []);
  }

  /** Two resendable messages with one number and two texts both go out on the first SYNC. */
  lemma SharedNumber(s: System, id: MessageId, other: MessageId) returns (es: seq<Event>)
    requires s.queue.Wf() && id in s.queue.at && other in s.queue.at && s.queue.at[id].number == s.queue.at[other].number
    requires Resendable(s.queue.at[id], s.sender.peer, s.receiver.recv)
    requires Resendable(s.queue.at[other], s.sender.peer, s.receiver.recv)
    requires InFront(s.queue, s.sender.peer, s.receiver.recv, id) && InFront(s.queue, s.sender.peer, s.receiver.recv, other)
    requires s.queue.at[id].plaintext != s.queue.at[other].plaintext
    ensures Legal(s, es) && !OnePacketPerNumber(After(s, es).data)
  {
    FrontSent(s.queue, s.sender, s.receiver.recv, 0.0, id);
    FrontSent(s.queue, s.sender, s.receiver.recv, 0.0, other);
    es := [SendSync, SyncArrives(s.receiver.recv, 0.0)] + [];
    RunSplit(s, []);
    Clash(After(s, es).data, s.sender, s.queue.at[id].number.value, s.queue.at[id].plaintext, s.queue.at[other].plaintext);
  }

  lemma RunCons(s: System, e: Event, rest: seq<Event>)
    requires s.queue.Wf() && Enabled(s, e) && Legal(Next(s, e), rest)
    ensures Legal(s, [e] + rest) && After(s, [e] + rest) == After(Next(s, e), rest)
  {
    assert ([e] + rest)[1..] == rest;
  }

  lemma RunSplit(s: System, rest: seq<Event>)
    requires s.queue.Wf() && Legal(Opened(s), rest)
    ensures Legal(s, [SendSync, SyncArrives(s.receiver.recv, 0.0)] + rest)
    ensures After(s, [SendSync, SyncArrives(s.receiver.recv, 0.0)] + rest) == After(Opened(s), rest)
  {
    var answer := SyncArrives(s.receiver.recv, 0.0);
    RunCons(Next(s, SendSync), answer, rest);
    RunCons(s, SendSync, [answer] + rest);
    assert [SendSync, answer] + rest == [SendSync] + ([answer] + rest);
  }

  /** A queue that is not clean in front has a run that puts two different packets under one number. */
  lemma UncleanClashes(q: Queue, sender: SessionState, receiver: SessionState, carried: map<nat, Bytes>)
    returns (es: seq<Event>)
    requires q.Wf() && !CleanFront(q, sender.peer, sender.send, receiver.recv)
    ensures Legal(Begin(q, sender, receiver, carried), es)
    ensures !OnePacketPerNumber(After(Begin(q, sender, receiver, carried), es).data)
  {
    var s, peer, floor := Begin(q, sender, receiver, carried), sender.peer, receiver.recv;
    if id :| id in q.at && Resendable(q.at[id], peer, floor) && InFront(q, peer, floor, id) && q.at[id].number.value >= sender.send {
      es := ReusedNumber(s, id);
    } else {
      var id, other :| id in q.at && other in q.at && q.at[id].number == q.at[other].number &&
        Resendable(q.at[id], peer, floor) && Resendable(q.at[other], peer, floor) &&
        InFront(q, peer, floor, id) && InFront(q, peer, floor, other) && q.at[id].plaintext != q.at[other].plaintext;
      es := SharedNumber(s, id, other);
    }
  }

  /** No run of the sender ever puts two different packets under one number or one nonce. */
  ghost predicate NeverClashes(s: System) {
    forall es :: Legal(s, es) ==> OnePacketPerNumber(After(s, es).data)
  }

  lemma CleanIsFront(q: Queue, peer: Bytes, send: nat, floor: nat)
    requires q.Wf()
    ensures Clean(q, peer, send, floor) ==> CleanFront(q, peer, send, floor)
    ensures Unblocked(q, peer, floor) && CleanFront(q, peer, send, floor) ==> Clean(q, peer, send, floor)
  {
    if Unblocked(q, peer, floor) {
      forall id | id in q.at ensures InFront(q, peer, floor, id) {
        AllInFront(q, peer, floor, id);
      }
    }
  }

  /** One number, one packet, in one direction: a queue that is clean (no two resendable messages share
      a number with different texts, and each such number is below the sender's next one) never leads
      to two packets under one number or nonce; and one that never does is clean as far as the messages
      go that no text too long for a frame stands before. Without such a text it is one if and only if
      it is the other. */
  lemma OneNumberOnePacket(q: Queue, sender: SessionState, receiver: SessionState)
    requires q.Wf() && SameSession(sender, receiver)
    ensures var s := Begin(q, sender, receiver, CarriedTexts(q, sender.peer, receiver.recv));
            && (Clean(q, sender.peer, sender.send, receiver.recv) ==> NeverClashes(s))
            && (NeverClashes(s) ==> CleanFront(q, sender.peer, sender.send, receiver.recv))
            && (Unblocked(q, sender.peer, receiver.recv) ==> (NeverClashes(s) <==> Clean(q, sender.peer, sender.send, receiver.recv)))
  {
    var carried := CarriedTexts(q, sender.peer, receiver.recv);
    var s := Begin(q, sender, receiver, carried);
    CleanIsFront(q, sender.peer, sender.send, receiver.recv);
    if Clean(q, sender.peer, sender.send, receiver.recv) {
      CleanStarts(q, sender, receiver, receiver.recv);
      forall es | Legal(s, es) ensures OnePacketPerNumber(After(s, es).data) {
        PacketRun(s, es);
        GenuineUnique(After(s, es));
      }
    }
    if !CleanFront(q, sender.peer, sender.send, receiver.recv) {
      var es := UncleanClashes(q, sender, receiver, carried);
      assert Legal(s, es) && !OnePacketPerNumber(After(s, es).data);
    }
  }

  // ---- a retry before a SYNC

  ghost function Steps(): (System, Event, System) -> bool {
    (s: System, e: Event, t: System) => s.queue.Wf() && Enabled(s, e) && t == Next(s, e)
  }

  ghost predicate Reaches(s: System, t: System) {
    Leads(Steps(), s, t)
  }

  lemma ReachesNext(s: System, e: Event)
    requires s.queue.Wf() && Enabled(s, e)
    ensures Reaches(s, Next(s, e))
  {
    LeadsStep(Steps(), s, e, Next(s, e));
  }

  lemma {:induction false} TraceIsRun(states: seq<System>, es: seq<Event>)
    requires Trace(Steps(), states, es)
    ensures Legal(states[0], es) && After(states[0], es) == states[|es|]
    decreases |es|
  {
    if es != [] {
      TraceTail(Steps(), states, es);
      TraceIsRun(states[1..], es[1..]);
    }
  }

  /** What a state leads to it reaches by a run. */
  lemma ReachesByRun(s: System, t: System) returns (es: seq<Event>)
    requires Reaches(s, t)
    ensures Legal(s, es) && After(s, es) == t
  {
    var states: seq<System>;
    states, es :| Trace(Steps(), states, es) && states[0] == s && states[|es|] == t;
    TraceIsRun(states, es);
  }

  lemma Queueing(s: System, id: MessageId, text: Bytes) returns (t: System)
    requires s.queue.Wf() && id !in s.queue.at
    ensures Reaches(s, t) && t == s.(queue := s.queue.Put(id, Entry(s.sender.peer, Queued, 0, text, None, None)))
  {
    t := Next(s, Enqueue(id, text));
    ReachesNext(s, Enqueue(id, text));
  }

  lemma Sending(s: System, id: MessageId, now: real) returns (t: System)
    requires s.queue.Wf() && id in s.queue.at && s.queue.at[id].status == Queued && s.sender.send < TWO_32
    ensures Reaches(s, t) && t.receiver == s.receiver && t.accepted == s.accepted
    ensures t.queue == s.queue.Put(id, Sent(s.queue.at[id], s.sender.send, now)) && t.sender == s.sender.(send := s.sender.send + 1)
  {
    t := Next(s, Send(id, now));
    ReachesNext(s, Send(id, now));
  }

  lemma TimingOut(s: System, id: MessageId) returns (t: System)
    requires s.queue.Wf() && id in s.queue.at && s.queue.at[id].retryCount + 1 < MAX_RETRIES
    ensures Reaches(s, t)
    ensures t == s.(queue := s.queue.Put(id, s.queue.at[id].(retryCount := s.queue.at[id].retryCount + 1, status := Queued)))
  {
    t := Next(s, Timeout(id));
    ReachesNext(s, Timeout(id));
  }

  lemma QueueingTwo(s: System, a: Bytes, b: Bytes) returns (t: System)
    requires s.queue == Empty()
    ensures Reaches(s, t) && t.queue.Wf() && t.sender == s.sender && t.receiver == s.receiver
    ensures t.queue == Two(Entry(s.sender.peer, Queued, 0, a, None, None), Entry(s.sender.peer, Queued, 0, b, None, None))
  {
    var s1 := Queueing(s, "a", a);
    assert s1.queue.Wf();
    t := Queueing(s1, "b", b);
    LeadsFurther(Steps(), s, s1, t);
    QueuedTwo(Entry(s.sender.peer, Queued, 0, a, None, None), Entry(s.sender.peer, Queued, 0, b, None, None));
  }

  lemma SendingTwo(s: System, x: Entry, y: Entry, now: real) returns (t: System)
    requires s.queue == Two(x, y) && x.status == y.status == Queued && s.sender.send + 1 < TWO_32
    ensures Reaches(s, t) && t.receiver == s.receiver && t.sender == s.sender.(send := s.sender.send + 2)
    ensures t.queue == Two(Sent(x, s.sender.send, now), Sent(y, s.sender.send + 1, now))
  {
    TwoWf(x, y);
    var x', y' := Sent(x, s.sender.send, now), Sent(y, s.sender.send + 1, now);
    PutFirst(x, y, x');
    var s1 := Sending(s, "a", now);
    TwoWf(x', y);
    PutSecond(x', y, y');
    t := Sending(s1, "b", now);
    LeadsFurther(Steps(), s, s1, t);
  }

  lemma Retrying(s: System, x: Entry, y: Entry, now: real) returns (t: System)
    requires s.queue == Two(x, y) && x.retryCount == 0 && s.sender.send < TWO_32
    ensures Reaches(s, t) && t.receiver == s.receiver && t.sender == s.sender.(send := s.sender.send + 1)
    ensures t.queue == Two(Sent(x.(retryCount := 1), s.sender.send, now), y)
  {
    var again := x.(retryCount := 1, status := Queued);
    TwoWf(x, y);
    PutFirst(x, y, again);
    var s1 := TimingOut(s, "a");
    TwoWf(again, y);
    PutFirst(again, y, Sent(again, s.sender.send, now));
    t := Sending(s1, "a", now);
    LeadsFurther(Steps(), s, s1, t);
  }

  lemma RetriedState(s0: System, a: Bytes, b: Bytes, now: real) returns (s: System)
    requires s0.queue == Empty() && s0.sender.send + 2 < TWO_32
    ensures Reaches(s0, s) && s.receiver == s0.receiver && s.sender == s0.sender.(send := s0.sender.send + 3)
    ensures s.queue == Two(Entry(s0.sender.peer, Pending, 1, a, Some(s0.sender.send + 2), Some(now)),
                           Entry(s0.sender.peer, Pending, 0, b, Some(s0.sender.send + 1), Some(now)))
  {
    var n := s0.sender.send;
    var x, y := Entry(s0.sender.peer, Queued, 0, a, None, None), Entry(s0.sender.peer, Queued, 0, b, None, None);
    var s1 := QueueingTwo(s0, a, b);
    var s2 := SendingTwo(s1, x, y, now);
    s := Retrying(s2, Sent(x, n, now), Sent(y, n + 1, now), now);
    LeadsFurther(Steps(), s0, s1, s2);
    LeadsFurther(Steps(), s0, s2, s);
  }

  lemma MissedState(s0: System, a: Bytes, b: Bytes, now: real) returns (s: System)
    requires s0.queue == Empty() && s0.sender.send + 2 < TWO_32 && s0.receiver.recv < s0.sender.send
    ensures Reaches(s0, s) && s.receiver == s0.receiver && s.sender == s0.sender.(send := s0.sender.send + 3)
    ensures s.queue.Wf()
    ensures Above(s.queue, s0.sender.peer, s0.receiver.recv, 0) == [Item(s0.sender.send + 2, a), Item(s0.sender.send + 1, b)]
  {
    s := RetriedState(s0, a, b, now);
    TwoAbove(Entry(s0.sender.peer, Pending, 1, a, Some(s0.sender.send + 2), Some(now)),
             Entry(s0.sender.peer, Pending, 0, b, Some(s0.sender.send + 1), Some(now)), s0.sender.peer, s0.receiver.recv);
  }

  /** A retried message gets a later number than one queued after it: in every session that starts
      with an empty queue, two sends and a retry of the first message lead to a state in which the
      answer to a SYNC of a receiver that has neither sends the higher number first; the receiver
      never accepts the lower one. */
  lemma RetryBreaksCatchUp(sender: SessionState, receiver: SessionState, a: Bytes, b: Bytes, now: real)
    returns (es: seq<Event>, s: System)
    requires a != [] && Framed(a) && sender.send + 2 < TWO_32 && SameSession(sender, receiver) && receiver.recv < sender.send
    ensures Legal(Begin(Empty(), sender, receiver, map[]), es) && After(Begin(Empty(), sender, receiver, map[]), es) == s
    ensures s.queue.Wf() && s.receiver == receiver
    ensures Above(s.queue, sender.peer, receiver.recv, 0) == [Item(sender.send + 2, a), Item(sender.send + 1, b)]
    ensures Deliver(SyncFrom(s.queue, s.sender, receiver.recv, now, 0).packets, receiver).1 == [Item(sender.send + 2, a)]
  {
    s := MissedState(Begin(Empty(), sender, receiver, map[]), a, b, now);
    es := ReachesByRun(Begin(Empty(), sender, receiver, map[]), s);
    OnlyFirstTaken(s.queue, s.sender, now, receiver, Item(sender.send + 2, a), Item(sender.send + 1, b));
  }

  lemma LongState(s0: System, long: Bytes, b: Bytes, now: real) returns (s: System)
    requires s0.queue == Empty() && s0.sender.send + 1 < TWO_32 && s0.receiver.recv < s0.sender.send
    requires !Framed(long) && SameSession(s0.sender, s0.receiver)
    ensures Reaches(s0, s) && s.receiver == s0.receiver && s.queue.Wf()
    ensures Above(s.queue, s0.sender.peer, s0.receiver.recv, 0) == [Item(s0.sender.send, long), Item(s0.sender.send + 1, b)]
    ensures Deliver(SyncFrom(s.queue, s.sender, s0.receiver.recv, now, 0).packets, s0.receiver).1 == []
  {
    var x, y := Entry(s0.sender.peer, Queued, 0, long, None, None), Entry(s0.sender.peer, Queued, 0, b, None, None);
    var s1 := QueueingTwo(s0, long, b);
    s := SendingTwo(s1, x, y, now);
    LeadsFurther(Steps(), s0, s1, s);
    TwoAbove(Sent(x, s0.sender.send, now), Sent(y, s0.sender.send + 1, now), s0.sender.peer, s0.receiver.recv);
    NothingTaken(s.queue, s.sender, now, s0.receiver, Item(s0.sender.send, long), Item(s0.sender.send + 1, b));
  }

  /** A text too long for a frame is numbered like any other, and ends every SYNC answer: in every
      session that starts with an empty queue, after such a message and another one are sent, both
      have text and their numbers ascend, yet the answer is empty and the receiver gets neither. */
  lemma LongTextBreaksCatchUp(sender: SessionState, receiver: SessionState, long: Bytes, b: Bytes, now: real)
    returns (es: seq<Event>, s: System)
    requires !Framed(long) && b != [] && sender.send + 1 < TWO_32 && SameSession(sender, receiver) && receiver.recv < sender.send
    ensures Legal(Begin(Empty(), sender, receiver, map[]), es) && After(Begin(Empty(), sender, receiver, map[]), es) == s
    ensures s.queue.Wf() && s.receiver == receiver
    ensures Above(s.queue, sender.peer, receiver.recv, 0) == [Item(sender.send, long), Item(sender.send + 1, b)]
    ensures Deliver(SyncFrom(s.queue, s.sender, receiver.recv, now, 0).packets, receiver).1 == []
  {
    s := LongState(Begin(Empty(), sender, receiver, map[]), long, b, now);
    es := ReachesByRun(Begin(Empty(), sender, receiver, map[]), s);
  }
}
