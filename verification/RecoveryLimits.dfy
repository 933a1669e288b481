/** Runs from the very first start in which one number goes out with two messages: a SYNC answered
    before the counter was saved, a second session in one process, and a refused handshake. */
module RecoveryLimits {

  import opened Basics
  import opened Sessions
  import opened Recovery
  import opened Runs

  /** Any step but a SYNC answer, the drop of a session and a refused handshake. */
  ghost function PlainSteps(): (Node, Event, Node) -> bool {
    (s: Node, e: Event, t: Node) => Enabled(s, e) && t == Next(s, e) && !e.SyncResend? && !e.Disconnect? && !e.Refused?
  }

  /** Those, and SYNC answers at any time. */
  ghost function SyncSteps(): (Node, Event, Node) -> bool {
    (s: Node, e: Event, t: Node) => Enabled(s, e) && t == Next(s, e) && !e.Disconnect? && !e.Refused?
  }

  /** Those, and the drop of a session at any time. */
  ghost function DropSteps(): (Node, Event, Node) -> bool {
    (s: Node, e: Event, t: Node) => Enabled(s, e) && t == Next(s, e) && !e.SyncResend? && !e.Refused?
  }

  /** Those, and refused handshakes. */
  ghost function RefusalSteps(): (Node, Event, Node) -> bool {
    (s: Node, e: Event, t: Node) => Enabled(s, e) && t == Next(s, e) && !e.SyncResend? && !e.Disconnect?
  }

  lemma {:induction false} CommitAll(s: Node) returns (t: Node)
    requires s.up.Some? && s.up.value.done <= |s.up.value.writes|
    ensures Leads(PlainSteps(), s, t)
    ensures t.up == Some(s.up.value.(done := |s.up.value.writes|)) && t.sent == s.sent
    decreases |s.up.value.writes| - s.up.value.done
  {
    if s.up.value.done == |s.up.value.writes| {
      t := s;
      LeadsNowhere(PlainSteps(), s);
    } else {
      LeadsStep(PlainSteps(), s, Commit, Next(s, Commit));
      t := CommitAll(Next(s, Commit));
      LeadsFurther(PlainSteps(), s, Next(s, Commit), t);
    }
  }

  /** A handler whose counter write is durable saves the number and sends the packet. */
  lemma Finish(s: Node, i: nat) returns (t: Node)
    requires s.up.Some? && i < |s.up.value.jobs| && s.up.value.jobs[i].SavingCounter?
    requires s.up.value.done == |s.up.value.writes| && s.up.value.jobs[i].ticket < s.up.value.done
    ensures Leads(PlainSteps(), s, t)
    ensures t.sent == s.sent + {Use(s.up.value.jobs[i].number, s.up.value.jobs[i].id)}
    ensures t.up.Some? && t.up.value.done == |t.up.value.writes| >= s.up.value.done
    ensures t.up.value.jobs == s.up.value.jobs[..i] + s.up.value.jobs[i + 1..]
  {
    var p := s.up.value;
    var id, n := p.jobs[i].id, p.jobs[i].number;
    var queued := Next(s, Resume(i));
    LeadsStep(PlainSteps(), s, Resume(i), queued);
    var saved := Next(queued, Commit);
    LeadsOn(PlainSteps(), s, queued, Commit, saved);
    assert saved.up.value.jobs == p.jobs[i := SavingNumber(id, n, |p.writes|)];
    t := Next(saved, Resume(i));
    LeadsOn(PlainSteps(), s, saved, Resume(i), t);
    assert p.jobs[i := SavingNumber(id, n, |p.writes|)][..i] == p.jobs[..i];
    assert p.jobs[i := SavingNumber(id, n, |p.writes|)][i + 1..] == p.jobs[i + 1..];
  }

  /** A session without floors numbers its first message 1. */
  lemma NumberOne(s: Node, sid: Bytes, id: MessageId) returns (t: Node)
    requires Enabled(s, Handshake(sid)) && s.up.value.floors.None?
    ensures Leads(PlainSteps(), s, t)
    ensures t.disk == s.disk && t.sent == s.sent && t.stored == s.stored && t.acked == s.acked
    ensures t.up.Some? && t.up.value.live == Some(SessionState(sid, [], [], 2, 0)) && t.up.value.floors == None
    ensures id in t.up.value.numbers && t.up.value.numbers[id] == 1
    ensures t.up.value.done == s.up.value.done && |t.up.value.writes| == |s.up.value.writes| + 2
    ensures t.up.value.jobs == s.up.value.jobs + [SavingCounter(id, 1, |s.up.value.writes| + 1)]
  {
    var open := Next(s, Handshake(sid));
    LeadsStep(PlainSteps(), s, Handshake(sid), open);
    t := Next(open, Number(id));
    LeadsOn(PlainSteps(), s, open, Number(id), t);
  }

  /** A process that finds no session row numbers its first message 1. */
  lemma FirstNumber(s: Node, sid: Bytes, id: MessageId) returns (t: Node)
    requires s.up.None? && s.disk.rows == []
    ensures Leads(PlainSteps(), s, t)
    ensures t.disk == s.disk && t.sent == s.sent && t.stored == s.stored && t.acked == s.acked
    ensures t.up.Some? && t.up.value.live == Some(SessionState(sid, [], [], 2, 0)) && t.up.value.floors == None
    ensures id in t.up.value.numbers && t.up.value.numbers[id] == 1
    ensures t.up.value.done == 0 && |t.up.value.writes| == 2 && t.up.value.jobs == [SavingCounter(id, 1, 1)]
  {
    var booted := Next(s, Boot({}));
    LeadsStep(PlainSteps(), s, Boot({}), booted);
    t := NumberOne(booted, sid, id);
    LeadsFurther(PlainSteps(), s, booted, t);
    assert t.up.value.jobs == [] + [SavingCounter(id, 1, 1)];
  }

  lemma Shared(s: Node, n: nat, a: MessageId, b: MessageId)
    requires a != b && Use(n, a) in s.sent && Use(n, b) in s.sent
    ensures !Unshared(s)
  {
    assert InUse(s, Use(n, a)) && InUse(s, Use(n, b));
  }

  /** A SYNC arrives between numbering message "a" and saving the counter, and the node crashes: after
      the restart message "b" goes out under the same number. */
  lemma SyncBeforeSave(x: Bytes, y: Bytes) returns (s: Node)
    ensures Leads(SyncSteps(), FRESH, s)
    ensures Use(1, "a") in s.sent && Use(1, "b") in s.sent && !Unshared(s)
  {
    var s1 := FirstNumber(FRESH, x, "a");
    LeadsWider(PlainSteps(), SyncSteps(), FRESH, s1);
    var s2 := Next(s1, SyncResend("a"));
    LeadsOn(SyncSteps(), FRESH, s1, SyncResend("a"), s2);
    var s3 := Next(s2, Crash);
    LeadsOn(SyncSteps(), FRESH, s2, Crash, s3);
    s := SendFirst(s3, y, "b");
    LeadsWider(PlainSteps(), SyncSteps(), s3, s);
    LeadsFurther(SyncSteps(), FRESH, s3, s);
    Shared(s, 1, "a", "b");
  }

  /** A process that finds no session row sends its first message under 1. */
  lemma SendFirst(s: Node, sid: Bytes, id: MessageId) returns (t: Node)
    requires s.up.None? && s.disk.rows == []
    ensures Leads(PlainSteps(), s, t) && t.sent == s.sent + {Use(1, id)}
  {
    var numbered := FirstNumber(s, sid, id);
    var durable := CommitAll(numbered);
    t := Finish(durable, 0);
    LeadsFurther(PlainSteps(), s, numbered, durable);
    LeadsFurther(PlainSteps(), s, durable, t);
  }

  /** Two handlers that hold one number both send it. */
  lemma FinishBoth(s: Node, a: MessageId, b: MessageId) returns (t: Node)
    requires s.up.Some? && s.up.value.done <= |s.up.value.writes| == 4
    requires s.up.value.jobs == [SavingCounter(a, 1, 1), SavingCounter(b, 1, 3)]
    ensures Leads(PlainSteps(), s, t) && Use(1, a) in t.sent && Use(1, b) in t.sent
  {
    var durable := CommitAll(s);
    var one := Finish(durable, 0);
    assert one.up.value.jobs == [SavingCounter(b, 1, 3)];
    t := Finish(one, 0);
    LeadsFurther(PlainSteps(), s, durable, one);
    LeadsFurther(PlainSteps(), s, one, t);
  }

  /** A session is dropped before anything was sent, stored or acknowledged, while its first message
      waits for the database. The next session of the process gives out the same number, and both
      handlers go on. */
  lemma ReconnectShares(x: Bytes, y: Bytes) returns (dropped: Node, s: Node)
    ensures Leads(DropSteps(), FRESH, dropped) && Enabled(dropped, Disconnect)
    ensures dropped.sent == {} && dropped.stored == {} && dropped.acked == {}
    ensures Leads(DropSteps(), Next(dropped, Disconnect), s)
    ensures Use(1, "a") in s.sent && Use(1, "b") in s.sent && !Unshared(s)
  {
    dropped := FirstNumber(FRESH, x, "a");
    LeadsWider(PlainSteps(), DropSteps(), FRESH, dropped);
    var idle := Next(dropped, Disconnect);
    var numbered := NumberOne(idle, y, "b");
    assert numbered.up.value.jobs == [SavingCounter("a", 1, 1), SavingCounter("b", 1, 3)];
    s := FinishBoth(numbered, "a", "b");
    LeadsFurther(PlainSteps(), idle, numbered, s);
    LeadsWider(PlainSteps(), DropSteps(), idle, s);
    Shared(s, 1, "a", "b");
  }

  /** Message "a" goes out under 1, and the node restarts. The first handshake is refused for want of
      room, but has taken the floors: after the next one message "b" goes out under 1 as well. */
  lemma RefusalShares(x: Bytes) returns (refused: Node, s: Node)
    ensures Leads(RefusalSteps(), FRESH, refused) && Enabled(refused, Refused)
    ensures Leads(RefusalSteps(), Next(refused, Refused), s)
    ensures Use(1, "a") in s.sent && Use(1, "b") in s.sent && !Unshared(s)
  {
    var sent := SendFirst(FRESH, x, "a");
    var down := Next(sent, Crash);
    LeadsOn(PlainSteps(), FRESH, sent, Crash, down);
    refused := Next(down, Boot({}));
    LeadsOn(PlainSteps(), FRESH, down, Boot({}), refused);
    LeadsWider(PlainSteps(), RefusalSteps(), FRESH, refused);
    s := SendAgain(Next(refused, Refused), "b");
    LeadsWider(PlainSteps(), RefusalSteps(), Next(refused, Refused), s);
    Shared(s, 1, "a", "b");
  }

  /** A session without floors sends its first message under 1, whatever went before. */
  lemma SendAgain(s: Node, id: MessageId) returns (t: Node)
    requires s.up.Some? && s.up.value.live.None? && s.up.value.floors.None? && s.up.value.jobs == [] && s.up.value.done <= |s.up.value.writes|
    ensures Leads(PlainSteps(), s, t) && t.sent == s.sent + {Use(1, id)}
  {
    var sid := FreshSession(s.disk.rows);
    var numbered := NumberOne(s, sid, id);
    assert numbered.up.value.jobs == [SavingCounter(id, 1, |s.up.value.writes| + 1)];
    var durable := CommitAll(numbered);
    t := Finish(durable, 0);
    LeadsFurther(PlainSteps(), s, numbered, durable);
    LeadsFurther(PlainSteps(), s, durable, t);
  }
}
