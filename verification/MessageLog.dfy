/** The per-peer message log: length-prefixed framing, and rotation through numbered files with a
    crash possible between any two file operations. */
module MessageLogs {

  import opened Basics
  import opened Runs

  const NEWLINE: byte := 10

  /** A blob the four-byte length can describe. */
  predicate Fits(blob: Bytes) {
    |blob| < TWO_32
  }

  function Line(blob: Bytes): (line: Bytes)
    requires Fits(blob)
    ensures |line| == 4 + |blob| + 1
  {
    U32(|blob|) + blob + [NEWLINE]
  }

  predicate AllFit(blobs: seq<Bytes>) {
    forall i :: 0 <= i < |blobs| ==> Fits(blobs[i])
  }

  /** The file a list of appended blobs makes. */
  function Frames(blobs: seq<Bytes>): Bytes
    requires AllFit(blobs)
  {
    if blobs == [] then [] else Line(blobs[0]) + Frames(blobs[1..])
  }

  /** The blobs read from position `pos` on: a length that runs past the end stops the reading. */
  function ParseFrom(data: Bytes, pos: nat): (blobs: seq<Bytes>)
    requires pos <= |data| + 1
    ensures AllFit(blobs)
    decreases |data| + 1 - pos
  {
    if pos + 4 > |data| then []
    else
      var length := Read32(data[pos..pos + 4]);
      if pos + 4 + length > |data| then []
      else [data[pos + 4..pos + 4 + length]] + ParseFrom(data, pos + 4 + length + 1)
  }

  function Parse(data: Bytes): (blobs: seq<Bytes>)
    ensures AllFit(blobs)
  {
    ParseFrom(data, 0)
  }

  /** The reader's loop: it stays in bounds and stops on arbitrary bytes. */
  method ReadMessages(data: Bytes) returns (blobs: seq<Bytes>)
    ensures blobs == Parse(data)
  {
    blobs := [];
    var pos := 0;
    while pos + 4 <= |data|
      invariant pos <= |data| + 1
      invariant blobs + ParseFrom(data, pos) == Parse(data)
      decreases |data| + 1 - pos
    {
      var length := Read32(data[pos..pos + 4]);
      pos := pos + 4;
      if pos + length > |data| {
        return;
      }
      Associative(blobs, [data[pos..pos + length]], ParseFrom(data, pos + length + 1));
      blobs := blobs + [data[pos..pos + length]];
      pos := pos + length + 1;
    }
  }

  /** Reading does not depend on what lies before the position. */
  lemma {:induction false} ParseShift(before: Bytes, data: Bytes, pos: nat)
    requires pos <= |data| + 1
    ensures ParseFrom(before + data, |before| + pos) == ParseFrom(data, pos)
    decreases |data| + 1 - pos
  {
    if pos + 4 <= |data| {
      var whole, at := before + data, |before| + pos;
      assert whole[at..at + 4] == data[pos..pos + 4];
      var length := Read32(data[pos..pos + 4]);
      if pos + 4 + length <= |data| {
        assert whole[at + 4..at + 4 + length] == data[pos + 4..pos + 4 + length];
        ParseShift(before, data, pos + 4 + length + 1);
      }
    }
  }

  lemma {:induction false} FramesCons(first: Bytes, rest: seq<Bytes>)
    requires Fits(first) && AllFit(rest)
    ensures AllFit([first] + rest) && Frames([first] + rest) == Line(first) + Frames(rest)
  {
    assert ([first] + rest)[1..] == rest;
  }

  lemma {:induction false} FramesConcat(a: seq<Bytes>, b: seq<Bytes>)
    requires AllFit(a) && AllFit(b)
    ensures AllFit(a + b) && Frames(a + b) == Frames(a) + Frames(b)
  {
    if a == [] {
      assert a + b == b;
    } else {
      FramesConcat(a[1..], b);
      FramesCons(a[0], a[1..] + b);
      assert a + b == [a[0]] + (a[1..] + b);
      Associative(Line(a[0]), Frames(a[1..]), Frames(b));
    }
  }

  /** Where the line of blob `i` begins: four length bytes, the blob and a newline for each one before. */
  function Offset(blobs: seq<Bytes>, i: nat): nat
    requires i <= |blobs|
  {
    if i == 0 then 0 else Offset(blobs, i - 1) + 4 + |blobs[i - 1]| + 1
  }

  /** `k` leading blobs lie wholly within the first `n` bytes, and the next one does not. */
  ghost predicate WhollyPresent(blobs: seq<Bytes>, n: nat, k: nat) {
    && k <= |blobs|
    && (k > 0 ==> Offset(blobs, k - 1) + 4 + |blobs[k - 1]| <= n)
    && (k < |blobs| ==> Offset(blobs, k) + 4 + |blobs[k]| > n)
  }

  lemma {:induction false} OffsetTail(blobs: seq<Bytes>, i: nat)
    requires i < |blobs|
    ensures Offset(blobs, i + 1) == 4 + |blobs[0]| + 1 + Offset(blobs[1..], i)
  {
    if i > 0 {
      OffsetTail(blobs, i - 1);
    }
  }

  lemma {:induction false} OffsetEnd(blobs: seq<Bytes>)
    requires AllFit(blobs)
    ensures Offset(blobs, |blobs|) == |Frames(blobs)|
  {
    if blobs != [] {
      var rest := blobs[1..];
      OffsetTail(blobs, |rest|);
      OffsetEnd(rest);
      assert |Frames(blobs)| == |Line(blobs[0])| + |Frames(rest)|;
    }
  }

  /** The count for the whole list gives the count for its tail, once the first line is wholly there;
      a cut at the first newline leaves just the first blob. */
  lemma {:induction false} PresentTail(blobs: seq<Bytes>, n: nat, k: nat)
    requires blobs != [] && WhollyPresent(blobs, n, k)
    ensures k == 0 ==> n < 4 + |blobs[0]|
    ensures k > 0 ==> 4 + |blobs[0]| <= n
    ensures k > 0 && n >= 4 + |blobs[0]| + 1 ==> WhollyPresent(blobs[1..], n - (4 + |blobs[0]| + 1), k - 1)
    ensures k > 0 && n < 4 + |blobs[0]| + 1 ==> k == 1
  {
    if k > 1 {
      OffsetTail(blobs, k - 2);
    }
    if 0 < k < |blobs| {
      OffsetTail(blobs, k - 1);
    }
  }

  /** The first blob of a file whose first line holds it wholly. */
  lemma ParseFirst(blob: Bytes, data: Bytes)
    requires Fits(blob) && 4 + |blob| <= |data| && data[..4] == U32(|blob|) && data[4..4 + |blob|] == blob
    ensures Parse(data) == [blob] + ParseFrom(data, 4 + |blob| + 1)
  {
    Read32U32(|blob|);
    assert data[0..4] == data[..4];
  }

  lemma ParseLine(blob: Bytes, rest: Bytes, n: nat)
    requires Fits(blob) && 4 + |blob| <= n <= |Line(blob)| + |rest|
    ensures Parse((Line(blob) + rest)[..n]) ==
            [blob] + Parse(if n >= |Line(blob)| then rest[..n - |Line(blob)|] else [])
  {
    var data := (Line(blob) + rest)[..n];
    assert data[..4] == U32(|blob|) && data[4..4 + |blob|] == blob;
    ParseFirst(blob, data);
    if n >= |Line(blob)| {
      var tail := rest[..n - |Line(blob)|];
      assert data == Line(blob) + tail;
      ParseShift(Line(blob), tail, 0);
    }
  }

  /** A cut file of at least one blob, given what the rest of it reads as. */
  lemma {:induction false} PrefixCons(first: Bytes, rest: seq<Bytes>, n: nat, k: nat)
    requires Fits(first) && AllFit(rest) && n <= |Line(first)| + |Frames(rest)| && k <= |rest|
    requires 4 + |first| <= n
    requires if n >= |Line(first)| then Parse(Frames(rest)[..n - |Line(first)|]) == rest[..k] else k == 0
    ensures Parse((Line(first) + Frames(rest))[..n]) == [first] + rest[..k]
  {
    ParseLine(first, Frames(rest), n);
  }

  /** How many leading blobs a cut after `n` bytes leaves whole. */
  function Whole(blobs: seq<Bytes>, n: int): (k: nat)
    ensures k <= |blobs|
  {
    if blobs == [] || n < 4 + |blobs[0]| then 0 else 1 + Whole(blobs[1..], n - (4 + |blobs[0]| + 1))
  }

  lemma {:induction false} WholeIsPresent(blobs: seq<Bytes>, n: nat, k: nat)
    requires WhollyPresent(blobs, n, k)
    ensures Whole(blobs, n) == k
    decreases |blobs|
  {
    if blobs != [] {
      PresentTail(blobs, n, k);
      if k > 0 && n >= 4 + |blobs[0]| + 1 {
        WholeIsPresent(blobs[1..], n - (4 + |blobs[0]| + 1), k - 1);
      }
    }
  }

  lemma {:induction false} CutReads(blobs: seq<Bytes>, n: nat)
    requires AllFit(blobs) && n <= |Frames(blobs)|
    ensures Parse(Frames(blobs)[..n]) == blobs[..Whole(blobs, n)]
    decreases |blobs|
  {
    if blobs != [] {
      var first, rest := blobs[0], blobs[1..];
      if n < 4 + |first| {
        CutShort(first, Frames(rest), n);
      } else {
        var m := n - |Line(first)|;
        if m >= 0 {
          CutReads(rest, m);
        }
        PrefixCons(first, rest, n, Whole(rest, m));
      }
    }
  }

  /** Log framing: reading any byte-prefix of the file of a list of blobs gives exactly the leading
      blobs wholly present in it. */
  lemma {:induction false} PrefixReads(blobs: seq<Bytes>, n: nat, k: nat)
    requires AllFit(blobs) && n <= |Frames(blobs)| && WhollyPresent(blobs, n, k)
    ensures Parse(Frames(blobs)[..n]) == blobs[..k]
  {
    WholeIsPresent(blobs, n, k);
    CutReads(blobs, n);
  }

  lemma {:induction false} CutShort(blob: Bytes, rest: Bytes, n: nat)
    requires Fits(blob) && n < 4 + |blob| && n <= |Line(blob)| + |rest|
    ensures Parse((Line(blob) + rest)[..n]) == []
  {
    var data := (Line(blob) + rest)[..n];
    if n >= 4 {
      assert data[..4] == U32(|blob|);
      Read32U32(|blob|);
    }
  }

  /** Reading the file of a list of blobs gives the list back. */
  lemma {:induction false} RoundTrip(blobs: seq<Bytes>)
    requires AllFit(blobs)
    ensures Parse(Frames(blobs)) == blobs
  {
    var n := |Frames(blobs)|;
    OffsetEnd(blobs);
    PrefixReads(blobs, n, |blobs|);
    assert Frames(blobs)[..n] == Frames(blobs) && blobs[..|blobs|] == blobs;
  }

  /** Adding a line to a file adds its blob to what is read. */
  lemma {:induction false} AppendLine(blobs: seq<Bytes>, blob: Bytes)
    requires AllFit(blobs) && Fits(blob)
    ensures AllFit(blobs + [blob]) && Frames(blobs) + Line(blob) == Frames(blobs + [blob])
    ensures Parse(Frames(blobs) + Line(blob)) == blobs + [blob]
  {
    FramesConcat(blobs, [blob]);
    FramesCons(blob, []);
    assert [blob] + [] == [blob] && Line(blob) + Frames([]) == Line(blob);
    RoundTrip(blobs + [blob]);
  }

  // ---- rotation

  type Files = map<nat, Bytes>

  /** The blobs of one rotated file; a missing file has none. */
  function BlobsAt(files: Files, i: nat): seq<Bytes> {
    if i in files then Parse(files[i]) else []
  }

  /** The lists at `n`, `n - 1`, down to 1, one after the other. */
  function Joined(at: nat -> seq<Bytes>, n: nat): seq<Bytes> {
    if n == 0 then [] else at(n) + Joined(at, n - 1)
  }

  /** The rotated files read from index `n`, the oldest, down to 1. */
  function Older(files: Files, n: nat): seq<Bytes> {
    Joined(i => BlobsAt(files, i), n)
  }

  function CurrentBlobs(current: Option<Bytes>): seq<Bytes> {
    if current.Some? then Parse(current.value) else []
  }

  lemma {:induction false} JoinedSame(at: nat -> seq<Bytes>, other: nat -> seq<Bytes>, n: nat)
    requires forall i :: 1 <= i <= n ==> at(i) == other(i)
    ensures Joined(at, n) == Joined(other, n)
  {
    if n > 0 {
      JoinedSame(at, other, n - 1);
    }
  }

  lemma {:induction false} JoinedMove(at: nat -> seq<Bytes>, moved: nat -> seq<Bytes>, i: nat, n: nat)
    requires 2 <= i <= n && at(i) == [] && moved(i) == at(i - 1) && moved(i - 1) == []
    requires forall j :: 1 <= j <= n && j != i && j != i - 1 ==> moved(j) == at(j)
    ensures Joined(moved, n) == Joined(at, n)
  {
    if n == i {
      JoinedSame(moved, at, i - 2);
      assert Joined(moved, i - 1) == Joined(moved, i - 2);
    } else {
      JoinedMove(at, moved, i, n - 1);
    }
  }

  lemma {:induction false} JoinedFirst(at: nat -> seq<Bytes>, added: nat -> seq<Bytes>, n: nat)
    requires 1 <= n && at(1) == [] && forall i :: 2 <= i <= n ==> added(i) == at(i)
    ensures Joined(added, n) == Joined(at, n) + added(1)
  {
    if n == 1 {
      assert Joined(at, 1) == [] && Joined(added, 1) == added(1) + Joined(added, 0);
    } else {
      JoinedFirst(at, added, n - 1);
    }
  }

  lemma {:induction false} JoinedEmpty(at: nat -> seq<Bytes>, n: nat)
    requires forall i :: at(i) == []
    ensures Joined(at, n) == []
  {
    if n > 0 {
      JoinedEmpty(at, n - 1);
    }
  }

  lemma OlderEmpty(n: nat)
    ensures Older(map[], n) == []
  {
    JoinedEmpty(i => BlobsAt(map[], i), n);
  }

  /** Moving a file into the empty slot above it changes nothing that is read. */
  lemma OlderMove(files: Files, i: nat, n: nat)
    requires 2 <= i <= n && i !in files && i - 1 in files
    ensures Older(files[i := files[i - 1]] - {i - 1}, n) == Older(files, n)
  {
    var moved := files[i := files[i - 1]] - {i - 1};
    JoinedMove(j => BlobsAt(files, j), j => BlobsAt(moved, j), i, n);
  }

  /** A new file in the empty first slot is read last. */
  lemma OlderFirst(files: Files, data: Bytes, n: nat)
    requires 1 <= n && 1 !in files
    ensures Older(files[1 := data], n) == Older(files, n) + Parse(data)
  {
    JoinedFirst(i => BlobsAt(files, i), i => BlobsAt(files[1 := data], i), n);
  }

  /** Deleting the highest file drops the first blobs read. */
  lemma OlderUnlink(files: Files, n: nat)
    requires n >= 1
    ensures |BlobsAt(files, n)| <= |Older(files, n)|
    ensures Older(files - {n}, n) == Older(files, n)[|BlobsAt(files, n)|..]
  {
    JoinedSame(i => BlobsAt(files, i), i => BlobsAt(files - {n}, i), n - 1);
    var first := BlobsAt(files, n);
    var rest := Joined(i => BlobsAt(files, i), n - 1);
    assert Older(files, n) == first + rest && (first + rest)[|first|..] == rest;
  }

  /** A suffix of the history stays one when its first blobs go. */
  lemma SuffixShrinks(older: seq<Bytes>, now: seq<Bytes>, history: seq<Bytes>, lost: nat, gone: nat)
    requires lost <= |history| && older + now == history[lost..] && gone <= |older|
    ensures lost + gone <= |history| && older[gone..] + now == history[lost + gone..]
  {
    assert older[gone..] + now == (older + now)[gone..];
    assert history[lost..][gone..] == history[lost + gone..];
  }

  // ---- what a rotation and an append may do

  /** The files on disk, every blob ever appended, and how many of them are gone. */
  datatype Log = Log(current: Option<Bytes>, rotated: Files, history: seq<Bytes>, lost: nat)

  predicate Over(current: Option<Bytes>, limit: nat) {
    current.Some? && |current.value| > limit
  }

  /** A completed rotation: the current file in slot 1, every other file one slot higher, the highest gone. */
  function Shifted(files: Files, n: nat, data: Bytes): Files {
    map j: nat | 1 <= j <= n && Fed(files, j) :: if j == 1 then data else files[j - 1]
  }

  /** Slot 1 is fed by the current file, every other by the file below it. */
  predicate Fed(files: Files, j: nat) {
    j == 1 || (j > 1 && j - 1 in files)
  }

  /** A rotation does nothing within the limit. Otherwise it loses at most the blobs of the highest
      file, whether or not it is cut short; and if it is not, every file has moved up by one. */
  ghost predicate Rotation(limit: nat, n: nat, s: Log, t: Log, crashed: bool) {
    if !Over(s.current, limit) then t == s && !crashed
    else
      && t.history == s.history
      && (t.lost == s.lost || t.lost == s.lost + |BlobsAt(s.rotated, n)|)
      && (if crashed then t.current == s.current
          else t.current == None && t.rotated == Shifted(s.rotated, n, s.current.value) &&
               t.lost == s.lost + |BlobsAt(s.rotated, n)|)
  }

  function Added(current: Option<Bytes>, blob: Bytes): Bytes
    requires Fits(blob)
  {
    (if current.Some? then current.value else []) + Line(blob)
  }

  datatype Append = Append(blob: Bytes, ok: bool, crashed: bool)

  /** An append adds one line to the current file and one blob to the history, then rotates; one that
      fails before its file is in place changes nothing. */
  ghost predicate Appended(limit: nat, n: nat, s: Log, e: Append, t: Log) {
    if !e.ok then t == s
    else Fits(e.blob) && Rotation(limit, n, s.(current := Some(Added(s.current, e.blob)), history := s.history + [e.blob]), t, e.crashed)
  }

  ghost function Appends(limit: nat, n: nat): (Log, Append, Log) -> bool {
    (s: Log, e: Append, t: Log) => Appended(limit, n, s, e, t)
  }

  /** Over every run of appends, with crashes anywhere: nothing is lost until a file sat in the highest slot. */
  lemma {:induction false} LossNeedsFullSlots(limit: nat, n: nat, states: seq<Log>, events: seq<Append>)
    requires Trace(Appends(limit, n), states, events) && states[|events|].lost != states[0].lost
    ensures exists k :: 0 <= k < |events| && n in states[k].rotated
    decreases |events|
  {
    if events != [] {
      TraceTail(Appends(limit, n), states, events);
      if states[1].lost == states[0].lost {
        LossNeedsFullSlots(limit, n, states[1..], events[1..]);
        var k :| 0 <= k < |events[1..]| && n in states[1..][k].rotated;
        assert n in states[k + 1].rotated;
      } else {
        assert n in states[0].rotated;
      }
    }
  }

  function Blobs(events: seq<Append>): seq<Bytes> {
    if events == [] then [] else (if events[0].ok then [events[0].blob] else []) + Blobs(events[1..])
  }

  /** The history of a run is exactly the blobs whose append went through, in order. */
  lemma {:induction false} HistoryOfRun(limit: nat, n: nat, states: seq<Log>, events: seq<Append>)
    requires Trace(Appends(limit, n), states, events)
    ensures states[|events|].history == states[0].history + Blobs(events)
    decreases |events|
  {
    if events != [] {
      TraceTail(Appends(limit, n), states, events);
      HistoryOfRun(limit, n, states[1..], events[1..]);
    }
  }

  /** A rotation in progress: slots below `i` as before, slot `i` empty, above it every file one slot higher. */
  function Moved(files: Files, i: nat, n: nat): Files {
    map j: nat | 1 <= j <= n && Held(files, i, j) :: if j < i then files[j] else files[j - 1]
  }

  predicate Held(files: Files, i: nat, j: nat) {
    if j < i then j in files else j > i && j - 1 in files
  }

  lemma MovedStart(files: Files, n: nat)
    requires forall j :: j in files ==> 1 <= j <= n
    ensures files - {n} == Moved(files, n, n)
  {
  }

  lemma MovedStep(files: Files, i: nat, n: nat)
    requires 2 <= i <= n
    ensures var m := Moved(files, i, n);
            Moved(files, i - 1, n) == if i - 1 in m then m[i := m[i - 1]] - {i - 1} else m
  {
  }

  lemma MovedEnd(files: Files, n: nat, data: Bytes)
    requires n >= 1
    ensures Moved(files, 1, n)[1 := data] == Shifted(files, n, data)
  {
  }

  class MessageLog {
    const limit: nat
    const maxRotations: nat
    var current: Option<Bytes>
    var rotated: Files
    /** Every blob ever appended, and how many of them are gone. */
    ghost var history: seq<Bytes>
    ghost var lost: nat

    ghost function State(): Log
      reads this
    {
      Log(current, rotated, history, lost)
    }

    /** Everything still on disk, oldest first. */
    ghost function Contents(): seq<Bytes>
      reads this
    {
      Older(rotated, maxRotations) + CurrentBlobs(current)
    }

    /** Rotation loses only the oldest: the files, read from the highest index down to 1 and then the
        current one, are a contiguous suffix of all blobs ever appended, in at most `maxRotations`
        rotated files; and the current file is the framing of its blobs. */
    ghost predicate Valid()
      reads this
    {
      && maxRotations >= 1 && AllFit(history)
      && (forall i :: i in rotated ==> 1 <= i <= maxRotations)
      && lost <= |history| && Contents() == history[lost..]
      && (current.Some? ==> current.value == Frames(CurrentBlobs(current)))
    }

    constructor (limit: nat, maxRotations: nat)
      requires maxRotations >= 1
      ensures Valid() && history == [] && this.limit == limit && this.maxRotations == maxRotations
    {
      this.limit := limit;
      this.maxRotations := maxRotations;
      current := None;
      rotated := map[];
      history := [];
      lost := 0;
      new;
      OlderEmpty(maxRotations);
    }

    /** Appends a blob by replacing the current file with one that holds one line more, then rotates.
        `steps` file operations happen before a crash; a blob whose length does not fit is refused. */
    method AppendMessage(blob: Bytes, steps: nat) returns (ok: bool, crashed: bool)
      requires Valid()
      modifies this
      ensures Valid()
      ensures ok <==> Fits(blob) && steps > 0
      ensures Appended(limit, maxRotations, old(State()), Append(blob, ok, crashed), State())
      ensures ok && !crashed ==> !Over(current, limit)
      ensures Fits(blob) && steps >= maxRotations + 3 ==> !crashed
    {
      crashed := false;
      if !Fits(blob) {
        return false, false;
      }
      if steps == 0 {
        return false, true;
      }
      var existing: Bytes := if current.Some? then current.value else [];
      StoreLine(existing, blob);
      ok := true;
      crashed := RotateIfNeeded(steps - 1);
    }

    /** Puts a file with one more line in the place of the current one. */
    method StoreLine(existing: Bytes, blob: Bytes)
      requires Valid() && Fits(blob)
      requires existing == if current.Some? then current.value else []
      modifies this`current, this`history
      ensures Valid() && history == old(history) + [blob] && current == Some(existing + Line(blob))
    {
      ghost var older, blobs := Older(rotated, maxRotations), CurrentBlobs(current);
      assert existing == Frames(blobs);
      AppendLine(blobs, blob);
      current := Some(existing + Line(blob));
      history := history + [blob];
      Associative(older, blobs, [blob]);
    }

    /** Rotates once the current file is over the limit. A crash after any number of file operations
        leaves a contiguous suffix of the history that lacks at most the blobs of the highest file. */
    method RotateIfNeeded(steps: nat) returns (crashed: bool)
      requires Valid()
      modifies this`current, this`rotated, this`lost
      ensures Valid() && Rotation(limit, maxRotations, old(State()), State(), crashed)
      ensures steps >= maxRotations + 2 ==> !crashed
    {
      if current.None? || |current.value| <= limit {
        return false;
      }
      var left := steps;
      var i := maxRotations;
      ghost var gone := |BlobsAt(rotated, maxRotations)|;
      while i > 0
        invariant 0 <= i <= maxRotations && Valid() && current == old(current)
        invariant i == maxRotations ==> rotated == old(rotated) && lost == old(lost)
        invariant i < maxRotations ==> rotated == Moved(old(rotated), if i >= 1 then i else 1, maxRotations)
        invariant i < maxRotations ==> lost == old(lost) + gone
        invariant left + (maxRotations - i) + (if i < maxRotations then 1 else 0) >= steps
      {
        if i == maxRotations {
          if left == 0 {
            return true;
          }
          left := left - 1;
          MovedStart(rotated, maxRotations);
          Unlink();
        }
        if i > 1 {
          MovedStep(old(rotated), i, maxRotations);
        }
        if i > 1 && i - 1 in rotated {
          if left == 0 {
            return true;
          }
          left := left - 1;
          MoveUp(i);
        }
        i := i - 1;
      }
      if left == 0 {
        return true;
      }
      OlderFirst(rotated, current.value, maxRotations);
      MovedEnd(old(rotated), maxRotations, current.value);
      rotated := rotated[1 := current.value];
      current := None;
      return false;
    }

    /** Deletes the file of the highest index, if it is there. */
    method Unlink()
      requires Valid()
      modifies this`rotated, this`lost
      ensures Valid() && rotated == old(rotated) - {maxRotations}
      ensures lost == old(lost) + |BlobsAt(old(rotated), maxRotations)|
    {
      ghost var gone := |BlobsAt(rotated, maxRotations)|;
      OlderUnlink(rotated, maxRotations);
      SuffixShrinks(Older(rotated, maxRotations), CurrentBlobs(current), history, lost, gone);
      rotated := rotated - {maxRotations};
      lost := lost + gone;
    }

    /** Renames the file below into the empty slot `i`. */
    method MoveUp(i: nat)
      requires Valid() && 2 <= i <= maxRotations && i !in rotated && i - 1 in rotated
      modifies this`rotated
      ensures Valid() && rotated == old(rotated)[i := old(rotated)[i - 1]] - {i - 1}
    {
      OlderMove(rotated, i, maxRotations);
      rotated := rotated[i := rotated[i - 1]] - {i - 1};
    }
  }
}
