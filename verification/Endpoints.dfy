/** Endpoint records as versioned registers: in memory, in the database, and between nodes. */
module Endpoints {

  import opened Basics

  /** The part of a peer entry an endpoint update may change; `None` means unknown. */
  datatype Record = Record(version: nat, endpoint: Option<Addr>, signature: Option<Bytes>)

  /** A verified update for one peer. */
  datatype Update = Update(version: nat, endpoint: Addr, signature: Bytes)

  /** A newer version replaces the record; anything else leaves it. */
  function Apply(r: Record, u: Update): Record {
    if u.version > r.version then Record(u.version, Some(u.endpoint), Some(u.signature)) else r
  }

  function ApplyAll(r: Record, us: seq<Update>): Record
    decreases |us|
  {
    if us == [] then r else ApplyAll(Apply(r, us[0]), us[1..])
  }

  /** The owner signs one endpoint per version. */
  ghost predicate OnePerVersion(us: seq<Update>) {
    forall i, j :: 0 <= i < |us| && 0 <= j < |us| && us[i].version == us[j].version ==> us[i] == us[j]
  }

  /** The record is the one of the highest version on offer: an update newer than the start, or the
      start itself when no update is newer. */
  ghost predicate HoldsHighest(start: Record, us: seq<Update>, r: Record) {
    && (forall i :: 0 <= i < |us| ==> us[i].version <= r.version)
    && (if r == start then true
        else exists i :: 0 <= i < |us| && us[i].version > start.version &&
                         r == Record(us[i].version, Some(us[i].endpoint), Some(us[i].signature)))
    && r.version >= start.version && (r.version == start.version ==> r == start)
  }

  /** Whatever the order and the repetitions, the record of the highest version remains. */
  lemma {:induction false} ApplyAllHighest(r: Record, us: seq<Update>)
    ensures HoldsHighest(r, us, ApplyAll(r, us))
    decreases |us|
  {
    if us != [] {
      var next := Apply(r, us[0]);
      var last := ApplyAll(next, us[1..]);
      ApplyAllHighest(next, us[1..]);
      forall i | 0 <= i < |us| ensures us[i].version <= last.version {
        assert i > 0 ==> us[i] == us[1..][i - 1];
      }
      if last != r {
        if last == next {
          assert us[0].version > r.version && last == Record(us[0].version, Some(us[0].endpoint), Some(us[0].signature));
        } else {
          var i :| 0 <= i < |us[1..]| && us[1..][i].version > next.version &&
                   last == Record(us[1..][i].version, Some(us[1..][i].endpoint), Some(us[1..][i].signature));
          assert us[i + 1] == us[1..][i];
        }
      }
    }
  }

  /** Endpoint convergence: two nodes that start from equal records and process the same set of
      verified updates, in any order and any number of times, end with equal records. */
  lemma Convergence(r: Record, us: seq<Update>, vs: seq<Update>)
    requires OnePerVersion(us) && forall u :: u in us <==> u in vs
    ensures ApplyAll(r, us) == ApplyAll(r, vs)
  {
    ApplyAllHighest(r, us);
    ApplyAllHighest(r, vs);
    var a, b := ApplyAll(r, us), ApplyAll(r, vs);
    assert a.version == b.version by {
      HighestAtMost(r, us, vs, a, b);
      HighestAtMost(r, vs, us, b, a);
    }
    if a != r && b != r {
      var i :| 0 <= i < |us| && us[i].version > r.version && a == Record(us[i].version, Some(us[i].endpoint), Some(us[i].signature));
      var j :| 0 <= j < |vs| && vs[j].version > r.version && b == Record(vs[j].version, Some(vs[j].endpoint), Some(vs[j].signature));
      assert vs[j] in us;
      var k :| 0 <= k < |us| && us[k] == vs[j];
      assert us[i] == us[k];
    }
  }

  lemma HighestAtMost(r: Record, us: seq<Update>, vs: seq<Update>, a: Record, b: Record)
    requires HoldsHighest(r, us, a) && HoldsHighest(r, vs, b) && forall u :: u in us ==> u in vs
    ensures a.version <= b.version
  {
    if a != r {
      var i :| 0 <= i < |us| && us[i].version > r.version && a == Record(us[i].version, Some(us[i].endpoint), Some(us[i].signature));
      assert us[i] in vs;
    }
  }

  /** The updates an owner signs for the endpoints it announces: its counter goes up before each one. */
  function Announced(counter: nat, endpoints: seq<Addr>, sign: (Addr, nat) -> Bytes): seq<Update>
    decreases |endpoints|
  {
    if endpoints == [] then []
    else [Update(counter + 1, endpoints[0], sign(endpoints[0], counter + 1))] + Announced(counter + 1, endpoints[1..], sign)
  }

  lemma {:induction false} AnnouncedVersions(counter: nat, endpoints: seq<Addr>, sign: (Addr, nat) -> Bytes)
    ensures |Announced(counter, endpoints, sign)| == |endpoints|
    ensures forall i :: 0 <= i < |endpoints| ==> Announced(counter, endpoints, sign)[i].version == counter + 1 + i
    decreases |endpoints|
  {
    if endpoints != [] {
      AnnouncedVersions(counter + 1, endpoints[1..], sign);
    }
  }

  /** Two nodes that hear the announcements of one counter, each in its own order and with its own
      repetitions, agree as soon as they have heard the same ones. */
  lemma OwnerConvergence(r: Record, counter: nat, endpoints: seq<Addr>, sign: (Addr, nat) -> Bytes, us: seq<Update>, vs: seq<Update>)
    requires (forall u :: u in us ==> u in Announced(counter, endpoints, sign)) && forall u :: u in us <==> u in vs
    ensures ApplyAll(r, us) == ApplyAll(r, vs)
  {
    var all := Announced(counter, endpoints, sign);
    AnnouncedVersions(counter, endpoints, sign);
    forall i, j | 0 <= i < |us| && 0 <= j < |us| && us[i].version == us[j].version ensures us[i] == us[j] {
      assert us[i] in all && us[j] in all;
      var m, n :| 0 <= m < |all| && 0 <= n < |all| && all[m] == us[i] && all[n] == us[j];
    }
    Convergence(r, us, vs);
  }

  /** A counter that was lost and used again breaks this: for two different updates the order of arrival
      does not matter exactly when their versions differ or the node already holds as high a version. */
  lemma OrderExact(r: Record, u: Update, v: Update)
    requires u != v
    ensures ApplyAll(r, [u, v]) == ApplyAll(r, [v, u]) <==> u.version != v.version || u.version <= r.version
  {
    ApplyTwo(r, u, v);
    ApplyTwo(r, v, u);
  }

  lemma ApplyTwo(r: Record, u: Update, v: Update)
    ensures ApplyAll(r, [u, v]) == Apply(Apply(r, u), v)
  {
    assert [u, v][1..] == [v] && [v][1..] == [];
    assert ApplyAll(Apply(r, u), [v]) == ApplyAll(Apply(Apply(r, u), v), []);
  }

  // ---- memory and database side by side

  /** The text a database row holds for an endpoint. */
  function TextOf(e: Option<Addr>): Option<string> {
    if e.None? then None else Some(e.value.host + ":" + Decimal(e.value.port))
  }

  function Decimal(n: nat): string {
    if n < 10 then [('0' as int + n) as char] else Decimal(n / 10) + [('0' as int + n % 10) as char]
  }

  datatype Row = Row(version: nat, endpoint: Option<string>, signature: Option<Bytes>)

  function RowOf(r: Record): Row {
    Row(r.version, TextOf(r.endpoint), r.signature)
  }

  class EndpointStore {
    var entries: map<Bytes, Record>
    var rows: map<Bytes, Row>

    /** Every peer in memory has the row of its record. */
    ghost predicate Agrees()
      reads this
    {
      entries.Keys == rows.Keys && forall p :: p in entries ==> rows[p] == RowOf(entries[p])
    }

    /** Applies a verified update to the entry and, as one step, to its row. An unknown peer changes nothing. */
    method ApplyEndpointUpdate(peer: Bytes, u: Update)
      requires Agrees()
      modifies this
      ensures Agrees()
      ensures entries == if peer in old(entries) then old(entries)[peer := Apply(old(entries)[peer], u)] else old(entries)
    {
      if peer in entries && u.version > entries[peer].version {
        entries := entries[peer := Record(u.version, Some(u.endpoint), Some(u.signature))];
      }
      if peer in rows && rows[peer].version < u.version {
        rows := rows[peer := Row(u.version, TextOf(Some(u.endpoint)), Some(u.signature))];
      }
    }

    /** A run of updates leaves the record of the highest version, in memory and in the database. */
    method ApplyRun(peer: Bytes, us: seq<Update>)
      requires Agrees() && peer in entries
      modifies this
      ensures Agrees() && peer in entries
      ensures entries[peer] == ApplyAll(old(entries)[peer], us)
      ensures HoldsHighest(old(entries)[peer], us, entries[peer]) && rows[peer] == RowOf(entries[peer])
    {
      ApplyAllHighest(entries[peer], us);
      var i := 0;
      while i < |us|
        invariant i <= |us| && Agrees() && peer in entries
        invariant ApplyAll(entries[peer], us[i..]) == ApplyAll(old(entries)[peer], us)
      {
        assert us[i..][0] == us[i] && us[i..][1..] == us[i + 1..];
        ApplyEndpointUpdate(peer, us[i]);
        i := i + 1;
      }
    }
  }

  // ---- the check and the write as two steps

  /** A database task: it reads the version, then writes if that was older. */
  datatype Task = Unread(u: Update) | Passed(u: Update) | Finished

  function ReadStep(row: Row, t: Task): Task
    requires t.Unread?
  {
    if row.version >= t.u.version then Finished else Passed(t.u)
  }

  function WriteStep(t: Task): Row
    requires t.Passed?
  {
    Row(t.u.version, TextOf(Some(t.u.endpoint)), Some(t.u.signature))
  }

  /** The row, the tasks in flight, and which of them wrote last. */
  datatype Database = Database(row: Row, tasks: seq<Task>, last: Option<nat>)

  predicate CanStep(d: Database, i: nat) {
    i < |d.tasks| && !d.tasks[i].Finished?
  }

  /** Task `i` takes its next step: it reads, or it writes and is finished. */
  function StepOf(d: Database, i: nat): Database
    requires CanStep(d, i)
  {
    if d.tasks[i].Unread? then d.(tasks := d.tasks[i := ReadStep(d.row, d.tasks[i])])
    else d.(row := WriteStep(d.tasks[i]), tasks := d.tasks[i := Finished], last := Some(i))
  }

  ghost predicate Interleaving(d: Database, steps: seq<nat>)
    decreases |steps|
  {
    steps == [] || (CanStep(d, steps[0]) && Interleaving(StepOf(d, steps[0]), steps[1..]))
  }

  ghost function AfterSteps(d: Database, steps: seq<nat>): Database
    requires Interleaving(d, steps)
    decreases |steps|
  {
    if steps == [] then d else AfterSteps(StepOf(d, steps[0]), steps[1..])
  }

  ghost predicate AllFinished(d: Database) {
    forall i :: 0 <= i < |d.tasks| ==> d.tasks[i].Finished?
  }

  function Tasks(us: seq<Update>): seq<Task> {
    seq(|us|, i requires 0 <= i < |us| => Unread(us[i]))
  }

  ghost predicate TasksInv(row: Row, us: seq<Update>, d: Database) {
    && |d.tasks| == |us| && d.row.version >= row.version
    && (forall i :: 0 <= i < |us| && !d.tasks[i].Finished? ==> d.tasks[i].u == us[i])
    && (forall i :: 0 <= i < |us| && d.tasks[i].Passed? ==> us[i].version > row.version)
    && (if d.last.None? then d.row == row && forall i :: 0 <= i < |us| && d.tasks[i].Finished? ==> us[i].version <= row.version
        else d.last.value < |us| && us[d.last.value].version > row.version && d.row == WriteStep(Passed(us[d.last.value])))
  }

  lemma {:induction false} TasksRun(row: Row, us: seq<Update>, d: Database, steps: seq<nat>)
    requires TasksInv(row, us, d) && Interleaving(d, steps)
    ensures TasksInv(row, us, AfterSteps(d, steps))
    decreases |steps|
  {
    if steps != [] {
      assert TasksInv(row, us, StepOf(d, steps[0]));
      TasksRun(row, us, StepOf(d, steps[0]), steps[1..]);
    }
  }

  /** The row has the highest version on offer, the one it started with included. */
  ghost predicate HighestRow(row: Row, us: seq<Update>, end: Row) {
    end.version >= row.version && forall i :: 0 <= i < |us| ==> us[i].version <= end.version
  }

  ghost function InFlight(row: Row, us: seq<Update>): Database {
    Database(row, Tasks(us), None)
  }

  /** An interleaving of the reads and writes of all the updates, to the end of each. */
  ghost predicate Complete(row: Row, us: seq<Update>, steps: seq<nat>) {
    Interleaving(InFlight(row, us), steps) && AllFinished(AfterSteps(InFlight(row, us), steps))
  }

  /** The updates newer than this version all have one version. */
  ghost predicate OneNewer(version: nat, us: seq<Update>) {
    forall i, j :: 0 <= i < |us| && 0 <= j < |us| && us[i].version > version && us[j].version > version ==> us[i].version == us[j].version
  }

  lemma {:induction false} StepsJoined(d: Database, steps: seq<nat>, more: seq<nat>)
    requires Interleaving(d, steps) && Interleaving(AfterSteps(d, steps), more)
    ensures Interleaving(d, steps + more) && AfterSteps(d, steps + more) == AfterSteps(AfterSteps(d, steps), more)
    decreases |steps|
  {
    if steps == [] {
      assert [] + more == more;
    } else {
      StepsJoined(StepOf(d, steps[0]), steps[1..], more);
      assert (steps + more)[1..] == steps[1..] + more;
    }
  }

  /** One step, then a schedule. */
  lemma StepFirst(d: Database, i: nat, more: seq<nat>)
    requires CanStep(d, i) && Interleaving(StepOf(d, i), more)
    ensures Interleaving(d, [i] + more) && AfterSteps(d, [i] + more) == AfterSteps(StepOf(d, i), more)
  {
    assert ([i] + more)[1..] == more;
  }

  /** All the tasks from `k` on read. */
  lemma {:induction false} ReadAll(d: Database, us: seq<Update>, k: nat) returns (steps: seq<nat>)
    requires |d.tasks| == |us| && k <= |us|
    requires forall i :: 0 <= i < |us| ==> d.tasks[i] == if i < k then ReadStep(d.row, Unread(us[i])) else Unread(us[i])
    ensures Interleaving(d, steps)
    ensures var end := AfterSteps(d, steps);
            end.row == d.row && |end.tasks| == |us| && forall i :: 0 <= i < |us| ==> end.tasks[i] == ReadStep(d.row, Unread(us[i]))
    decreases |us| - k
  {
    if k == |us| {
      steps := [];
    } else {
      var more := ReadAll(StepOf(d, k), us, k + 1);
      StepFirst(d, k, more);
      steps := [k] + more;
    }
  }

  /** All the tasks from `k` on that passed write, but for one. */
  lemma {:induction false} WriteAllBut(d: Database, last: nat, k: nat) returns (steps: seq<nat>)
    requires last < |d.tasks| && k <= |d.tasks| && d.tasks[last].Passed?
    requires forall i :: 0 <= i < |d.tasks| && i != last ==> if i < k then d.tasks[i].Finished? else !d.tasks[i].Unread?
    ensures Interleaving(d, steps)
    ensures var end := AfterSteps(d, steps);
            |end.tasks| == |d.tasks| && end.tasks[last] == d.tasks[last] &&
            forall i :: 0 <= i < |d.tasks| && i != last ==> end.tasks[i].Finished?
    decreases |d.tasks| - k
  {
    if k == |d.tasks| {
      steps := [];
    } else if k == last || d.tasks[k].Finished? {
      steps := WriteAllBut(d, last, k + 1);
    } else {
      var more := WriteAllBut(StepOf(d, k), last, k + 1);
      StepFirst(d, k, more);
      steps := [k] + more;
    }
  }

  /** Any update newer than the row can be the last to write: all read first, and all others write before it. */
  lemma CanWriteLast(row: Row, us: seq<Update>, last: nat) returns (steps: seq<nat>)
    requires last < |us| && us[last].version > row.version
    ensures Complete(row, us, steps) && AfterSteps(InFlight(row, us), steps).row == WriteStep(Passed(us[last]))
  {
    var d := InFlight(row, us);
    var first := ReadAll(d, us, 0);
    var read := AfterSteps(d, first);
    var rest := WriteAllBut(read, last, 0);
    StepsJoined(d, first, rest);
    var waiting := AfterSteps(read, rest);
    var end := StepOf(waiting, last);
    assert Interleaving(end, []) && AfterSteps(end, []) == end && AllFinished(end);
    StepFirst(waiting, last, []);
    StepsJoined(d, first + rest, [last] + []);
    steps := first + rest + ([last] + []);
  }

  /** The check and the write as two steps: whatever the interleaving of the updates' reads and writes,
      the row ends with the highest version, if and only if no two updates newer than the row have
      different versions. If two have, all read first and an older one writes last. */
  lemma InterleavedWrites(row: Row, us: seq<Update>)
    ensures (forall steps :: Complete(row, us, steps) ==> HighestRow(row, us, AfterSteps(InFlight(row, us), steps).row)) <==>
            OneNewer(row.version, us)
  {
    if OneNewer(row.version, us) {
      forall steps | Complete(row, us, steps) ensures HighestRow(row, us, AfterSteps(InFlight(row, us), steps).row) {
        TasksRun(row, us, InFlight(row, us), steps);
      }
    } else {
      var i, j :| 0 <= i < |us| && 0 <= j < |us| && us[i].version > row.version && us[j].version > row.version && us[i].version < us[j].version;
      var steps := CanWriteLast(row, us, i);
      assert us[j].version > WriteStep(Passed(us[i])).version;
    }
  }

  /** The same between memory, which checks and writes in one step, and the database: for a row that
      starts as the record's and updates with one endpoint per version, the row ends as the record's in
      every interleaving, if and only if no two updates newer than it have different versions. */
  lemma InterleavedAgrees(r: Record, us: seq<Update>)
    requires OnePerVersion(us)
    ensures (forall steps :: Complete(RowOf(r), us, steps) ==> AfterSteps(InFlight(RowOf(r), us), steps).row == RowOf(ApplyAll(r, us))) <==>
            OneNewer(r.version, us)
  {
    var row, end := RowOf(r), ApplyAll(r, us);
    ApplyAllHighest(r, us);
    if OneNewer(r.version, us) {
      forall steps | Complete(row, us, steps) ensures AfterSteps(InFlight(row, us), steps).row == RowOf(end) {
        TasksRun(row, us, InFlight(row, us), steps);
        LastAgrees(r, us, AfterSteps(InFlight(row, us), steps));
      }
    } else {
      var i, j :| 0 <= i < |us| && 0 <= j < |us| && us[i].version > row.version && us[j].version > row.version && us[i].version < us[j].version;
      var steps := CanWriteLast(row, us, i);
      assert us[j].version <= end.version && WriteStep(Passed(us[i])).version < RowOf(end).version;
    }
  }

  lemma LastAgrees(r: Record, us: seq<Update>, d: Database)
    requires OnePerVersion(us) && OneNewer(r.version, us) && TasksInv(RowOf(r), us, d) && AllFinished(d)
    ensures d.row == RowOf(ApplyAll(r, us))
  {
    var end := ApplyAll(r, us);
    ApplyAllHighest(r, us);
    if d.last.Some? {
      assert us[d.last.value].version <= end.version && end != r;
      var i :| 0 <= i < |us| && us[i].version > r.version && end == Record(us[i].version, Some(us[i].endpoint), Some(us[i].signature));
      assert us[i] == us[d.last.value];
    }
  }
}
