/** Choosing and rotating the overlay, for every way the shuffles may fall. */
module Overlays {

  import opened Basics
  import opened OrderedDicts
  import opened PeerTables

  const MAX_OVERLAY_K: nat := 50
  const INACTIVE_THRESHOLD: real := 3600.0

  /** A shuffle keeps every element as often as it occurs. */
  ghost predicate IsShuffle(f: seq<Bytes> -> seq<Bytes>) {
    forall xs {:trigger f(xs)} :: multiset(f(xs)) == multiset(xs)
  }

  predicate Active(e: PeerEntry, now: real) {
    now - e.lastSeen < INACTIVE_THRESHOLD
  }

  function IsOverlayCandidate(): PeerEntry -> bool {
    (e: PeerEntry) => !e.isDirect
  }

  function IsActiveCandidate(now: real): PeerEntry -> bool {
    (e: PeerEntry) => !e.isDirect && Active(e, now)
  }

  function Outside(xs: seq<Bytes>, ys: seq<Bytes>): seq<Bytes> {
    if xs == [] then [] else (if xs[0] in ys then [] else [xs[0]]) + Outside(xs[1..], ys)
  }

  /** The slice `xs[:n]`: a negative bound counts from the end. */
  function Take(xs: seq<Bytes>, n: int): seq<Bytes> {
    if n > |xs| then xs else if n >= 0 then xs[..n] else if |xs| + n >= 0 then xs[..|xs| + n] else []
  }

  // ---- lists without repetition

  ghost function Elements(xs: seq<Bytes>): set<Bytes> {
    set x | x in xs
  }

  lemma {:induction false} DistinctSize(xs: seq<Bytes>)
    requires Distinct(xs)
    ensures |Elements(xs)| == |xs|
  {
    if xs != [] {
      DistinctSize(xs[1..]);
      assert xs == [xs[0]] + xs[1..];
      assert Elements(xs) == {xs[0]} + Elements(xs[1..]);
      assert xs[0] !in Elements(xs[1..]);
    }
  }

  /** A list is free of repetition exactly when no element occurs twice. */
  lemma {:induction false} DistinctCounts(xs: seq<Bytes>)
    ensures Distinct(xs) <==> forall x :: x in xs ==> multiset(xs)[x] == 1
  {
    if xs != [] {
      var first, rest := xs[0], xs[1..];
      DistinctCounts(rest);
      assert xs == [first] + rest;
      assert multiset(xs) == multiset{first} + multiset(rest);
      if Distinct(xs) {
        assert first !in rest;
      }
      if forall x :: x in xs ==> multiset(xs)[x] == 1 {
        assert first in xs;
        assert multiset(rest)[first] == 0;
        forall x | x in rest ensures multiset(rest)[x] == 1 {
          assert x in xs;
        }
      }
    }
  }

  /** Shuffling keeps length, elements and freedom from repetition. */
  lemma ShuffleKeeps(xs: seq<Bytes>, ys: seq<Bytes>)
    requires Distinct(xs) && multiset(ys) == multiset(xs)
    ensures Distinct(ys) && |ys| == |xs| && forall x :: x in ys <==> x in xs
  {
    assert forall x :: x in ys <==> x in multiset(ys);
    assert forall x :: x in xs <==> x in multiset(xs);
    assert |multiset(ys)| == |ys| && |multiset(xs)| == |xs|;
    DistinctCounts(xs);
    DistinctCounts(ys);
  }

  lemma {:induction false} OutsideExact(xs: seq<Bytes>, ys: seq<Bytes>)
    requires Distinct(xs)
    ensures Distinct(Outside(xs, ys))
    ensures forall x :: x in Outside(xs, ys) <==> x in xs && x !in ys
  {
    if xs != [] {
      OutsideExact(xs[1..], ys);
      assert xs == [xs[0]] + xs[1..];
      assert xs[0] !in xs[1..];
    }
  }

  lemma DistinctConcat(xs: seq<Bytes>, ys: seq<Bytes>)
    requires Distinct(xs) && Distinct(ys) && forall x :: x in xs ==> x !in ys
    ensures Distinct(xs + ys)
  {
    forall i, j | 0 <= i < |xs| && 0 <= j < |ys| ensures xs[i] != ys[j] {
      assert xs[i] in xs;
    }
  }

  /** Filling a list up to `k` from a shuffled pool that shares nothing with it. */
  lemma FilledUp(members: seq<Bytes>, pool: seq<Bytes>, shuffled: seq<Bytes>, k: nat)
    requires Distinct(members) && Distinct(pool) && multiset(shuffled) == multiset(pool) && |members| <= k
    requires forall x :: x in pool ==> x !in members
    ensures var filled := members + Take(shuffled, k - |members|);
            && Distinct(filled) && |filled| == (if k <= |members| + |pool| then k else |members| + |pool|)
            && (forall x :: x in filled ==> x in members || x in pool)
            && (forall x :: x in members ==> x in filled)
            && (|filled| < k ==> forall x :: x in pool ==> x in filled)
  {
    ShuffleKeeps(pool, shuffled);
    var fill := Take(shuffled, k - |members|);
    forall x | x in fill ensures x in pool {}
    DistinctConcat(members, fill);
  }

  // ---- selection

  function PriorityOf(active: seq<Bytes>, k: nat, shuffle: seq<Bytes> -> seq<Bytes>): seq<Bytes> {
    Take(shuffle(active), k * 3 / 5)
  }

  /** Six tenths from the recently active, the rest from all non-direct peers. */
  function Selected(nonDirect: seq<Bytes>, active: seq<Bytes>, k: nat,
                    first: seq<Bytes> -> seq<Bytes>, second: seq<Bytes> -> seq<Bytes>): seq<Bytes>
  {
    var priority := PriorityOf(active, k, first);
    priority + Take(second(Outside(nonDirect, priority)), k - |priority|)
  }

  lemma ChoiceExact(nonDirect: seq<Bytes>, active: seq<Bytes>, k: nat,
                    first: seq<Bytes> -> seq<Bytes>, second: seq<Bytes> -> seq<Bytes>)
    requires IsShuffle(first) && IsShuffle(second) && Distinct(nonDirect) && Distinct(active)
    requires forall x :: x in active ==> x in nonDirect
    ensures var chosen := Selected(nonDirect, active, k, first, second);
            && Distinct(chosen) && |chosen| == (if k <= |nonDirect| then k else |nonDirect|)
            && forall x :: x in chosen ==> x in nonDirect
  {
    ShuffleKeeps(active, first(active));
    var priority := PriorityOf(active, k, first);
    var pool := Outside(nonDirect, priority);
    OutsideExact(nonDirect, priority);
    forall x | x in priority ensures x in nonDirect {}
    FilledUp(priority, pool, second(pool), k);
    PoolSize(nonDirect, priority);
  }

  function SelectedFrom(ps: Peers, k: nat, now: real, first: seq<Bytes> -> seq<Bytes>, second: seq<Bytes> -> seq<Bytes>): seq<Bytes>
    requires ps.Wf()
  {
    Selected(KeysFrom(ps, IsOverlayCandidate(), 0), KeysFrom(ps, IsActiveCandidate(now), 0), k, first, second)
  }

  ghost function ActiveAmong(ps: Peers, xs: seq<Bytes>, now: real): set<Bytes> {
    set x | x in xs && IsActiveIn(ps, x, now)
  }

  /** Six tenths of K, or every active candidate when there are fewer. */
  function PriorityCount(k: nat, active: nat): nat {
    if k * 3 / 5 <= active then k * 3 / 5 else active
  }

  /** Overlay selection: for every table and shuffle, exactly min(K, number of non-direct peers) distinct
      ids, all of non-direct peers. */
  lemma SelectionExact(ps: Peers, k: nat, now: real, first: seq<Bytes> -> seq<Bytes>, second: seq<Bytes> -> seq<Bytes>)
    requires ps.Wf() && IsShuffle(first) && IsShuffle(second)
    ensures var chosen := SelectedFrom(ps, k, now, first, second);
            && Distinct(chosen) && |chosen| == (if k <= |NonDirect(ps)| then k else |NonDirect(ps)|)
            && forall x :: x in chosen ==> x in NonDirect(ps)
  {
    var nonDirect := KeysFrom(ps, IsOverlayCandidate(), 0);
    KeysExact(ps, IsOverlayCandidate());
    KeysExact(ps, IsActiveCandidate(now));
    DistinctSize(nonDirect);
    assert Elements(nonDirect) == NonDirect(ps);
    ChoiceExact(nonDirect, KeysFrom(ps, IsActiveCandidate(now), 0), k, first, second);
  }

  /** Of the selected peers six tenths of K are active, or as many as there are active candidates. */
  lemma SelectionPrefersActive(ps: Peers, k: nat, now: real, first: seq<Bytes> -> seq<Bytes>, second: seq<Bytes> -> seq<Bytes>)
    requires ps.Wf() && IsShuffle(first)
    ensures |ActiveAmong(ps, SelectedFrom(ps, k, now, first, second), now)| >=
            PriorityCount(k, |KeysFrom(ps, IsActiveCandidate(now), 0)|)
  {
    var active := KeysFrom(ps, IsActiveCandidate(now), 0);
    KeysExact(ps, IsActiveCandidate(now));
    ShuffleKeeps(active, first(active));
    var priority := PriorityOf(active, k, first);
    DistinctSize(priority);
    var chosen := ActiveAmong(ps, SelectedFrom(ps, k, now, first, second), now);
    assert Elements(priority) <= chosen;
    SubsetSize(Elements(priority), chosen);
  }

  lemma PoolSize(nonDirect: seq<Bytes>, priority: seq<Bytes>)
    requires Distinct(nonDirect) && Distinct(priority) && forall x :: x in priority ==> x in nonDirect
    ensures |Outside(nonDirect, priority)| == |nonDirect| - |priority|
  {
    OutsideExact(nonDirect, priority);
    DistinctSize(nonDirect);
    DistinctSize(priority);
    DistinctSize(Outside(nonDirect, priority));
    assert Elements(Outside(nonDirect, priority)) == Elements(nonDirect) - Elements(priority);
    assert Elements(priority) <= Elements(nonDirect);
  }

  // ---- rotation

  predicate IsActiveIn(ps: Peers, id: Bytes, now: real) {
    id in ps.at && Active(ps.at[id], now)
  }

  function StillActive(ps: Peers, overlay: seq<Bytes>, now: real): seq<Bytes> {
    if overlay == [] then []
    else (if IsActiveIn(ps, overlay[0], now) then [overlay[0]] else []) + StillActive(ps, overlay[1..], now)
  }

  /** One in ten of the oldest members, at least one, unless that would be all of them. */
  function WithoutOldest(kept: seq<Bytes>): seq<Bytes> {
    if |kept| > Replaced(kept) then kept[Replaced(kept)..] else kept
  }

  function Replaced(kept: seq<Bytes>): nat {
    if |kept| / 10 >= 1 then |kept| / 10 else 1
  }

  function Rotated(ps: Peers, overlay: seq<Bytes>, k: nat, now: real, shuffle: seq<Bytes> -> seq<Bytes>): seq<Bytes>
    requires ps.Wf()
  {
    var members := WithoutOldest(StillActive(ps, overlay, now));
    var candidates := Outside(KeysFrom(ps, IsActiveCandidate(now), 0), members);
    members + Take(shuffle(candidates), k - |members|)
  }

  lemma {:induction false} StillActiveExact(ps: Peers, overlay: seq<Bytes>, now: real)
    requires Distinct(overlay)
    ensures var kept := StillActive(ps, overlay, now);
            Distinct(kept) && |kept| <= |overlay| && forall x :: x in kept <==> x in overlay && IsActiveIn(ps, x, now)
  {
    if overlay != [] {
      StillActiveExact(ps, overlay[1..], now);
      assert overlay == [overlay[0]] + overlay[1..];
      assert overlay[0] !in overlay[1..];
    }
  }

  /** Rotation: a non-empty overlay of at most K distinct ids becomes one of at most K distinct ids, all
      of them active; either it has K members, or it holds every active non-direct peer; and of the
      members still active only the oldest tenth, at least one, may have lost their place. */
  lemma RotationExact(ps: Peers, overlay: seq<Bytes>, k: nat, now: real, shuffle: seq<Bytes> -> seq<Bytes>)
    requires ps.Wf() && IsShuffle(shuffle) && Distinct(overlay) && |overlay| <= k
    ensures var next := Rotated(ps, overlay, k, now, shuffle);
            && Distinct(next) && |next| <= k
            && (forall x :: x in next ==> IsActiveIn(ps, x, now))
            && (|next| == k || forall x :: x in ps.at && !ps.at[x].isDirect && Active(ps.at[x], now) ==> x in next)
    ensures var kept := StillActive(ps, overlay, now);
            forall i :: Replaced(kept) <= i < |kept| ==> kept[i] in Rotated(ps, overlay, k, now, shuffle)
  {
    StillActiveExact(ps, overlay, now);
    var members := WithoutOldest(StillActive(ps, overlay, now));
    var actives := KeysFrom(ps, IsActiveCandidate(now), 0);
    KeysExact(ps, IsActiveCandidate(now));
    var candidates := Outside(actives, members);
    OutsideExact(actives, members);
    FilledUp(members, candidates, shuffle(candidates), k);
  }

  class OverlayManager {
    const k: nat
    var overlay: seq<Bytes>

    ghost predicate Valid()
      reads this
    {
      Distinct(overlay) && |overlay| <= k <= MAX_OVERLAY_K
    }

    constructor (overlayK: nat)
      ensures Valid() && overlay == [] && k == if overlayK <= MAX_OVERLAY_K then overlayK else MAX_OVERLAY_K
    {
      k := if overlayK <= MAX_OVERLAY_K then overlayK else MAX_OVERLAY_K;
      overlay := [];
    }

    method SelectOverlay(table: PeerTable, now: real, first: seq<Bytes> -> seq<Bytes>, second: seq<Bytes> -> seq<Bytes>)
      requires Valid() && table.Valid() && IsShuffle(first) && IsShuffle(second)
      modifies this`overlay
      ensures Valid() && overlay == SelectedFrom(table.peers, k, now, first, second)
    {
      var nonDirect := KeysFrom(table.peers, IsOverlayCandidate(), 0);
      var active := KeysFrom(table.peers, IsActiveCandidate(now), 0);
      var priority := PriorityOf(active, k, first);
      var pool := Outside(nonDirect, priority);
      var chosen := priority + Take(second(pool), k - |priority|);
      assert chosen == SelectedFrom(table.peers, k, now, first, second);
      SelectionExact(table.peers, k, now, first, second);
      overlay := chosen;
    }

    method Rotate(table: PeerTable, now: real, first: seq<Bytes> -> seq<Bytes>, second: seq<Bytes> -> seq<Bytes>)
      requires Valid() && table.Valid() && IsShuffle(first) && IsShuffle(second)
      modifies this`overlay
      ensures Valid()
      ensures overlay == if old(overlay) == [] then SelectedFrom(table.peers, k, now, first, second)
                         else Rotated(table.peers, old(overlay), k, now, first)
    {
      if overlay == [] {
        SelectOverlay(table, now, first, second);
        return;
      }
      RotationExact(table.peers, overlay, k, now, first);
      overlay := WithoutOldest(StillActive(table.peers, overlay, now));
      var candidates := Outside(KeysFrom(table.peers, IsActiveCandidate(now), 0), overlay);
      overlay := overlay + Take(first(candidates), k - |overlay|);
    }
  }
}
