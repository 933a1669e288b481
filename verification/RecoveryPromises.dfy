/** Exactly when the floors may be lost: what the authority rule promises after a second session in one
    process, or a refused handshake, whatever becomes of the stored counters themselves. */
module RecoveryPromises {

  import opened Basics
  import opened Sessions
  import opened Recovery

  // ---- a number given out is in a handler's hands, or in use

  ghost predicate HasJob(p: Process, u: Use) {
    exists i :: 0 <= i < |p.jobs| && HoldsNumber(p.jobs[i], u)
  }

  predicate HoldsNumber(j: Job, u: Use) {
    (j.SavingCounter? || j.SavingNumber?) && j.id == u.id && j.number == u.number
  }

  ghost predicate Held(s: Node) {
    s.up.Some? ==> forall u :: u in s.claims ==> InUse(s, u) || HasJob(s.up.value, u)
  }

  /** A handler that goes on keeps its number, or puts it in use. */
  lemma ResumeHeld(s: Node, i: nat, u: Use)
    requires Enabled(s, Resume(i)) && HasJob(s.up.value, u)
    ensures InUse(Next(s, Resume(i)), u) || HasJob(Next(s, Resume(i)).up.value, u)
  {
    var p, t := s.up.value, Next(s, Resume(i));
    var j :| 0 <= j < |p.jobs| && HoldsNumber(p.jobs[j], u);
    if p.jobs[i].SavingCounter? {
      assert HoldsNumber(t.up.value.jobs[j], u);
    } else if j != i {
      assert HoldsNumber(t.up.value.jobs[if j < i then j else j - 1], u);
    }
  }

  lemma HeldStep(s: Node, e: Event)
    requires Held(s) && Enabled(s, e)
    ensures Held(Next(s, e))
  {
    var t := Next(s, e);
    if t.up.Some? && s.up.Some? && !e.Handshake? {
      forall u | u in t.claims ensures InUse(t, u) || HasJob(t.up.value, u) {
        var p, p' := s.up.value, t.up.value;
        if u in s.claims && HasJob(p, u) {
          if e.Resume? {
            ResumeHeld(s, e.job, u);
          } else {
            var j :| 0 <= j < |p.jobs| && HoldsNumber(p.jobs[j], u);
            assert p'.jobs[j] == p.jobs[j];
          }
        } else if u !in s.claims {
          assert HoldsNumber(p'.jobs[|p.jobs|], u);
        }
      }
    }
  }

  /** Both invariants hold in every state a run from the first start reaches. */
  lemma {:induction false} HeldRun(s: Node, es: seq<Event>)
    requires Inv(s) && Held(s) && Legal(s, es)
    ensures Inv(After(s, es)) && Held(After(s, es))
    decreases |es|
  {
    if es != [] {
      HeldStep(s, es[0]);
      Step(s, es[0]);
      HeldRun(Next(s, es[0]), es[1..]);
    }
  }

  // ---- nothing in use

  /** Nothing was ever sent, stored with a message, or acknowledged. */
  ghost predicate Blank(s: Node) {
    s.sent == {} && s.stored == {} && s.acked == {}
  }

  predicate NoNumbers(ws: seq<Write>, from: nat, to: nat)
    requires to <= |ws|
  {
    forall i :: from <= i < to ==> !ws[i].SetNumber?
  }

  /** Between sessions, with no floors and nothing in flight; the queued writes may be of any counters. */
  ghost predicate QuietIdle(s: Node) {
    Blank(s) && s.disk.numbers == map[] && s.claims == {} && s.up.Some? &&
    var p := s.up.value;
    && p.live.None? && p.floors.None? && p.jobs == [] && p.numbers == map[]
    && p.done <= |p.writes| && NoNumbers(p.writes, p.done, |p.writes|)
  }

  /** The state once the row of the live session is saved. */
  ghost function Ahead(s: Node): Node
    requires s.up.Some? && s.up.value.done <= s.up.value.first < |s.up.value.writes|
  {
    var p := s.up.value;
    s.(disk := DiskAfter(s.disk, p.writes[p.done..p.first + 1]), up := Some(p.(done := p.first + 1)))
  }

  /** The row of the live session is not saved yet; once it is, all is well. */
  ghost predicate Quiet(s: Node) {
    Blank(s) && s.disk.numbers == map[] && s.up.Some? &&
    var p := s.up.value;
    && p.live.Some? && p.done <= p.first < |p.writes| && NoNumbers(p.writes, p.done, p.first + 1)
    && Inv(Ahead(s)) && StoredSend(Ahead(s).disk) <= s.start
  }

  ghost predicate Calm(s: Node) {
    Inv(s) || QuietIdle(s) || Quiet(s)
  }

  lemma CalmPromises(s: Node)
    requires Calm(s)
    ensures Promise(s)
  {
    if Inv(s) {
      InvPromises(s);
    }
  }

  lemma BlankInv(s: Node)
    requires Blank(s) && s.disk.numbers == map[] && s.up.None?
    ensures Inv(s)
  {
  }

  lemma {:induction false} SameNumbers(d: Disk, ws: seq<Write>)
    requires NoNumbers(ws, 0, |ws|)
    ensures DiskAfter(d, ws).numbers == d.numbers
    decreases |ws|
  {
    if ws != [] {
      assert forall i :: 0 <= i < |ws[1..]| ==> ws[1..][i] == ws[i + 1];
      SameNumbers(Perform(d, ws[0]), ws[1..]);
    }
  }

  /** The last of a list of writes is the last to be performed. */
  lemma {:induction false} DiskAfterLast(d: Disk, ws: seq<Write>, w: Write)
    ensures DiskAfter(d, ws + [w]) == Perform(DiskAfter(d, ws), w)
    decreases |ws|
  {
    if ws == [] {
      assert ([] + [w])[1..] == [];
      assert DiskAfter(Perform(d, w), []) == Perform(d, w);
    } else {
      assert (ws + [w])[1..] == ws[1..] + [w];
      DiskAfterLast(Perform(d, ws[0]), ws[1..], w);
    }
  }

  lemma NoneQueued(s: Node, p: Process)
    requires NumberWrites(s, p) && s.claims == {}
    ensures NoNumbers(p.writes, p.done, |p.writes|)
  {
  }

  // ---- the steps of a quiet state

  /** A session that starts between sessions starts quietly. */
  lemma QuietHandshake(s: Node, sid: Bytes)
    requires QuietIdle(s) && Enabled(s, Handshake(sid))
    ensures Quiet(Next(s, Handshake(sid)))
  {
    var p, t := s.up.value, Next(s, Handshake(sid));
    var p', w := t.up.value, SaveRow(sid, 1, 0);
    assert p'.writes == p.writes + [w] && p'.first == |p.writes|;
    assert p'.writes[p'.done..p'.first + 1] == p.writes[p.done..] + [w];
    DiskAfterLast(s.disk, p.writes[p.done..], w);
    SameNumbers(s.disk, p.writes[p.done..]);
    var a := Ahead(t);
    assert a.disk == Perform(DiskAfter(s.disk, p.writes[p.done..]), w);
    assert RowIsLast(a.disk, sid) && StoredSend(a.disk) == 1 && StoredRecv(a.disk) == 0;
    assert a.up.value.writes[a.up.value.done..] == [];
    assert SessionInv(a, a.up.value);
  }

  /** Numbering, accepting and saving commute with the writes still queued. */
  lemma AheadCommutes(s: Node, e: Event)
    requires s.up.Some? && s.up.value.done <= s.up.value.first < |s.up.value.writes|
    requires Enabled(s, e) && (e.Number? || e.Accept? || e.Flush?)
    ensures Enabled(Ahead(s), e) && Admitted(Ahead(s), e)
    ensures Next(s, e).up.Some? && Next(s, e).up.value.done == s.up.value.done && Next(s, e).up.value.first == s.up.value.first
    ensures s.up.value.writes <= Next(s, e).up.value.writes && Next(s, e).up.value.live.Some?
    ensures Ahead(Next(s, e)) == Next(Ahead(s), e)
    ensures Next(s, e).disk == s.disk && Next(s, e).start == s.start && (Blank(s) ==> Blank(Next(s, e)))
  {
    var p, t := s.up.value, Next(s, e);
    assert t.up.value.writes[p.done..p.first + 1] == p.writes[p.done..p.first + 1];
  }

  lemma QuietQueues(s: Node, e: Event)
    requires Quiet(s) && Enabled(s, e) && (e.Number? || e.Accept? || e.Flush?)
    ensures Quiet(Next(s, e))
  {
    AheadCommutes(s, e);
    assert Inv(Ahead(Next(s, e))) by {
      Step(Ahead(s), e);
    }
    AheadDisk(Ahead(s), e);
  }

  lemma AheadDisk(a: Node, e: Event)
    requires Enabled(a, e) && (e.Number? || e.Accept? || e.Flush?)
    ensures Next(a, e).disk == a.disk
  {
  }

  lemma QuietCommit(s: Node)
    requires Quiet(s) && Enabled(s, Commit)
    ensures Calm(Next(s, Commit))
  {
    var p, t := s.up.value, Next(s, Commit);
    var ws := p.writes[p.done..p.first + 1];
    assert ws[0] == p.writes[p.done] && ws[1..] == p.writes[p.done + 1..p.first + 1];
    if p.done == p.first {
      assert DiskAfter(Perform(s.disk, ws[0]), []) == Perform(s.disk, ws[0]);
      assert Ahead(s) == t;
    } else {
      assert Ahead(t) == Ahead(s);
    }
  }

  /** The handlers of a quiet session wait for writes behind its row. */
  lemma JobsWait(s: Node)
    requires Quiet(s)
    ensures forall i :: 0 <= i < |s.up.value.jobs| ==> s.up.value.jobs[i].ticket > s.up.value.done
  {
    var p, a := s.up.value, Ahead(s);
    forall i | 0 <= i < |p.jobs| ensures p.jobs[i].ticket > p.done {
      assert JobInv(a, a.up.value, p.jobs[i]);
    }
  }

  /** No number of a quiet session is saved. */
  lemma NumbersWait(s: Node, id: MessageId)
    requires Quiet(s) && id in s.up.value.numbers
    ensures !Saved(s, id)
  {
    var p, a := s.up.value, Ahead(s);
    var w := SetSend(p.live.value.sessionId, p.numbers[id] + 1);
    assert Use(p.numbers[id], id) in a.claims;
    assert IsQueued(a.up.value, w);
    var i :| a.up.value.done <= i < |p.writes| && p.writes[i] == w;
    assert p.done <= i && p.writes[i].SetSend? && p.writes[i].value == p.numbers[id] + 1;
  }

  lemma QuietWaits(s: Node, e: Event)
    requires Quiet(s) && Enabled(s, e) && Admitted(s, e)
    ensures !e.Resume? && !e.SyncResend?
  {
    JobsWait(s);
    forall id | id in s.up.value.numbers ensures !Saved(s, id) {
      NumbersWait(s, id);
    }
  }

  lemma QuietDisconnect(s: Node)
    requires Quiet(s) && Enabled(s, Disconnect) && Unused(s)
    ensures QuietIdle(Next(s, Disconnect))
  {
    var p, a := s.up.value, Ahead(s);
    WorkNeedsUse(a, a.up.value);
    assert a.claims == {} && a.stored == {};
    NoneQueued(a, a.up.value);
    assert forall id :: id in p.numbers ==> Use(p.numbers[id], id) in a.claims;
  }

  lemma QuietStep(s: Node, e: Event)
    requires Quiet(s) && Enabled(s, e) && Admitted(s, e)
    ensures Calm(Next(s, e))
  {
    QuietWaits(s, e);
    match e {
      case Crash => BlankInv(Next(s, e));
      case Commit => QuietCommit(s);
      case Disconnect => QuietDisconnect(s);
      case Number(_) => QuietQueues(s, e);
      case Accept(_) => QuietQueues(s, e);
      case Flush => QuietQueues(s, e);
      case _ =>
    }
  }

  lemma IdleStep(s: Node, e: Event)
    requires QuietIdle(s) && Enabled(s, e)
    ensures Calm(Next(s, e))
  {
    match e {
      case Crash => BlankInv(Next(s, e));
      case Handshake(sid) => QuietHandshake(s, sid);
      case Commit => assert QuietIdle(Next(s, e));
      case Refused => assert QuietIdle(Next(s, e));
      case _ =>
    }
  }

  lemma {:induction false} CalmRun(s: Node, es: seq<Event>)
    requires Calm(s) && Legal(s, es)
    ensures Calm(After(s, es))
    decreases |es|
  {
    if es != [] {
      if Inv(s) {
        Step(s, es[0]);
      } else if QuietIdle(s) {
        IdleStep(s, es[0]);
      } else {
        QuietStep(s, es[0]);
      }
      CalmRun(Next(s, es[0]), es[1..]);
    }
  }

  /** In every admitted run from here the promise is kept. */
  ghost predicate AlwaysPromises(s: Node) {
    forall es :: Legal(s, es) ==> Promise(After(s, es))
  }

  lemma CalmAlwaysPromises(s: Node)
    requires Calm(s)
    ensures AlwaysPromises(s)
  {
    forall es | Legal(s, es) ensures Promise(After(s, es)) {
      CalmRun(s, es);
      CalmPromises(After(s, es));
    }
  }

  // ---- runs that break the promise

  lemma {:induction false} Joined(s: Node, es: seq<Event>, fs: seq<Event>)
    requires Legal(s, es) && Legal(After(s, es), fs)
    ensures Legal(s, es + fs) && After(s, es + fs) == After(After(s, es), fs)
    decreases |es|
  {
    if es == [] {
      assert [] + fs == fs;
    } else {
      Joined(Next(s, es[0]), es[1..], fs);
      assert (es + fs)[1..] == es[1..] + fs;
    }
  }

  /** All queued writes become durable. */
  lemma {:induction false} AllDurable(s: Node) returns (es: seq<Event>)
    requires s.up.Some? && s.up.value.done <= |s.up.value.writes|
    ensures Legal(s, es)
    ensures After(s, es).up == Some(s.up.value.(done := |s.up.value.writes|))
    decreases |s.up.value.writes| - s.up.value.done
  {
    es := [];
    if s.up.value.done < |s.up.value.writes| {
      var rest := AllDurable(Next(s, Commit));
      FirstStep(s, Commit, rest);
      es := [Commit] + rest;
    }
  }

  /** A live session whose counters stand at 1 and 0, though a number is in use or acknowledged. */
  ghost predicate Overtaken(s: Node) {
    && s.up.Some? && s.up.value.live.Some? && s.up.value.live.value.send == 1 && s.up.value.live.value.recv == 0
    && ((exists u :: InUse(s, u) && u.number >= 1) || exists n :: n in s.acked && n >= 1)
  }

  lemma OvertakenBreaks(s: Node)
    requires Overtaken(s)
    ensures !Promise(s)
  {
  }

  /** A handler of a dropped session goes on in the next one, and what it finishes is above its counters. */
  lemma FinishedAfterwards(s: Node, i: nat) returns (es: seq<Event>)
    requires s.up.Some? && s.up.value.live.Some? && Unused(s)
    requires i < |s.up.value.jobs| && s.up.value.jobs[i].ticket < s.up.value.done == |s.up.value.writes| && s.up.value.jobs[i].number >= 1
    ensures Legal(s, es) && !Promise(After(s, es))
  {
    var t := Next(s, Resume(i));
    var j := s.up.value.jobs[i];
    if j.SavingCounter? {
      var u := Next(t, Commit);
      assert InUse(u, Use(j.number, j.id)) && Overtaken(u);
      assert Legal(u, []) && After(u, []) == u;
      FirstStep(t, Commit, []);
      FirstStep(s, Resume(i), [Commit] + []);
      es := [Resume(i)] + ([Commit] + []);
    } else {
      assert Overtaken(t) by {
        if j.SavingNumber? {
          assert InUse(t, Use(j.number, j.id));
        } else {
          assert j.number in t.acked;
        }
      }
      assert Legal(t, []) && After(t, []) == t;
      FirstStep(s, Resume(i), []);
      es := [Resume(i)] + [];
    }
  }

  lemma JobBreaks(s: Node, i: nat)
    requires s.up.Some? && s.up.value.live.Some? && Unused(s) && s.up.value.done <= |s.up.value.writes|
    requires i < |s.up.value.jobs| && s.up.value.jobs[i].ticket < |s.up.value.writes| && s.up.value.jobs[i].number >= 1
    ensures !AlwaysPromises(s)
  {
    var es := AllDurable(s);
    var fs := FinishedAfterwards(After(s, es), i);
    Joined(s, es, fs);
    assert Legal(s, es + fs) && !Promise(After(s, es + fs));
  }

  lemma UseBreaks(s: Node)
    requires Overtaken(s)
    ensures !AlwaysPromises(s)
  {
    OvertakenBreaks(s);
    assert Legal(s, []) && After(s, []) == s;
  }

  // ---- the conditions

  /** A session without floors, after anything was sent, stored or acknowledged. */
  lemma OvertakenAtOnce(s: Node, sid: Bytes)
    requires DiskInv(s) && !Blank(s) && Enabled(s, Handshake(sid)) && s.up.value.floors.None?
    ensures Overtaken(Next(s, Handshake(sid)))
  {
    var t := Next(s, Handshake(sid));
    if s.sent + s.stored != {} {
      var u :| u in s.sent + s.stored;
      assert InUse(s, u) && InUse(t, u);
    } else {
      assert s.acked != {};
      var n :| n in s.acked;
      assert n in t.acked && n >= 1;
    }
  }

  /** A session that has given out nothing that is in use, with no handler in flight, is dropped quietly. */
  lemma DropsQuietly(s: Node)
    requires Inv(s) && Held(s) && Enabled(s, Disconnect) && Blank(s) && s.up.value.jobs == []
    ensures QuietIdle(Next(s, Disconnect))
  {
    var p := s.up.value;
    assert forall u :: u in s.claims ==> InUse(s, u) || HasJob(p, u);
    assert forall u :: !InUse(s, u) && !HasJob(p, u);
    NoneQueued(s, p);
  }

  /** A second session in one process starts at 1 again. In every admitted run from there the promise is
      kept (the database ahead of everything sent, stored and acknowledged, no number shared, the live
      counters ahead of the past) if and only if nothing had ever been sent, stored or acknowledged and
      no handler of the dropped session was in flight. */
  lemma ReconnectPromise(s: Node, sid: Bytes)
    requires Inv(s) && Held(s) && Enabled(s, Disconnect) && forall r :: r in s.disk.rows ==> r.sid != sid
    ensures AlwaysPromises(Next(Next(s, Disconnect), Handshake(sid))) <==> Blank(s) && s.up.value.jobs == []
  {
    var p, d := s.up.value, Next(s, Disconnect);
    var t := Next(d, Handshake(sid));
    if !Blank(s) {
      OvertakenAtOnce(d, sid);
      UseBreaks(t);
    } else if p.jobs != [] {
      assert JobInv(s, p, p.jobs[0]);
      JobBreaks(t, 0);
    } else {
      DropsQuietly(s);
      QuietHandshake(d, sid);
      CalmAlwaysPromises(t);
    }
  }

  /** A refused handshake takes the floors. In every admitted run from there the promise is kept if and
      only if nothing had ever been sent, stored or acknowledged. */
  lemma RefusedPromise(s: Node)
    requires Inv(s) && Enabled(s, Refused)
    ensures AlwaysPromises(Next(s, Refused)) <==> Blank(s)
  {
    var t := Next(s, Refused);
    if Blank(s) {
      RefusedQuietly(s);
      CalmAlwaysPromises(t);
    } else {
      var sid := FreshSession(s.disk.rows);
      OvertakenAtOnce(t, sid);
      var u := Next(t, Handshake(sid));
      OvertakenBreaks(u);
      assert Legal(u, []) && After(u, []) == u;
      FirstStep(t, Handshake(sid), []);
      assert Legal(t, [Handshake(sid)] + []) && !Promise(After(t, [Handshake(sid)] + []));
    }
  }

  lemma RefusedQuietly(s: Node)
    requires Inv(s) && Enabled(s, Refused) && Blank(s)
    ensures QuietIdle(Next(s, Refused))
  {
    var p := s.up.value;
    NoneQueued(s, p);
  }
}
