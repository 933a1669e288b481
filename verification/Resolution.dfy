/** RESOLVE_REQUEST handling: the request-id cache against the log of accepted requests, and what a
    request is forwarded to. */
module Resolution {

  import opened Basics
  import opened OrderedDicts

  const CACHE_TTL: real := 300.0
  const MAX_CACHE: nat := 1000

  datatype Request = Request(id: Bytes, target: Bytes, ttl: nat)

  datatype Forward = Forward(request: Request, to: Addr)

  /** Copies for the overlay peers with a known endpoint, except the sender's own, from `from` on. */
  function ForwardsTo(overlay: seq<Bytes>, endpoints: map<Bytes, Addr>, request: Request, sender: Addr, from: nat): seq<Forward>
    requires from <= |overlay|
    decreases |overlay| - from
  {
    if from == |overlay| then []
    else (if overlay[from] in endpoints && endpoints[overlay[from]] != sender
          then [Forward(request, endpoints[overlay[from]])] else [])
         + ForwardsTo(overlay, endpoints, request, sender, from + 1)
  }

  /** What an accepted request is forwarded as: nothing if the target is this node or has a known
      endpoint, or the request has no hops left. */
  function Forwards(localId: Bytes, overlay: seq<Bytes>, endpoints: map<Bytes, Addr>, request: Request, sender: Addr): seq<Forward> {
    if request.target == localId || request.target in endpoints || request.ttl == 0 then []
    else ForwardsTo(overlay, endpoints, request.(ttl := request.ttl - 1), sender, 0)
  }

  /** At most one copy per overlay peer, each with one hop less. */
  lemma {:induction false} ForwardsBound(overlay: seq<Bytes>, endpoints: map<Bytes, Addr>, request: Request, sender: Addr, from: nat)
    requires from <= |overlay|
    ensures |ForwardsTo(overlay, endpoints, request, sender, from)| <= |overlay| - from
    ensures forall i :: 0 <= i < |ForwardsTo(overlay, endpoints, request, sender, from)| ==>
              ForwardsTo(overlay, endpoints, request, sender, from)[i].request == request &&
              ForwardsTo(overlay, endpoints, request, sender, from)[i].to != sender
    decreases |overlay| - from
  {
    if from < |overlay| {
      ForwardsBound(overlay, endpoints, request, sender, from + 1);
    }
  }

  /** An accepted request id and when it was accepted. */
  datatype Accepted = Accepted(id: Bytes, time: real)

  /** Accepted no more than 300 seconds ago, with fewer than 1000 accepted since. */
  ghost predicate Recent(log: seq<Accepted>, id: Bytes, now: real) {
    exists i :: 0 <= i < |log| && |log| - i <= MAX_CACHE && log[i].id == id && log[i].time >= now - CACHE_TTL
  }

  /** The cache holds exactly the log from position `start` on, in order. */
  ghost predicate IsTail(cache: Dict<Bytes, real>, log: seq<Accepted>, start: nat) {
    && cache.Wf() && start + |cache.keys| == |log|
    && forall i :: 0 <= i < |cache.keys| ==> cache.keys[i] == log[start + i].id && cache.at[cache.keys[i]] == log[start + i].time
  }

  /** Everything before `start` is too old or too far back. */
  ghost predicate Forgotten(log: seq<Accepted>, start: nat, now: real)
    requires start <= |log|
  {
    forall i :: 0 <= i < start ==> log[i].time < now - CACHE_TTL || |log| - i > MAX_CACHE
  }

  ghost predicate InOrder(log: seq<Accepted>, now: real) {
    && (forall i, j :: 0 <= i < j < |log| ==> log[i].time <= log[j].time)
    && (forall i :: 0 <= i < |log| ==> log[i].time <= now)
  }

  lemma {:induction false} WithoutAbsent(keys: seq<Bytes>, k: Bytes)
    requires k !in keys
    ensures Without(keys, k) == keys
  {
    if keys != [] {
      WithoutAbsent(keys[1..], k);
    }
  }

  lemma NextOfPrefix(expired: seq<Bytes>, i: nat, keys: seq<Bytes>)
    requires i < |expired| && expired[i..] <= keys
    ensures keys != [] && keys[0] == expired[i] && expired[i + 1..] <= keys[1..]
  {
    assert expired[i..][0] == expired[i] && expired[i..][1..] == expired[i + 1..];
  }

  /** Deleting the first key moves the tail up by one. */
  lemma DeleteFirst(cache: Dict<Bytes, real>, log: seq<Accepted>, start: nat)
    requires IsTail(cache, log, start) && cache.keys != []
    ensures IsTail(cache.Delete(cache.keys[0]), log, start + 1)
    ensures cache.Delete(cache.keys[0]).keys == cache.keys[1..]
  {
    assert cache.keys[0] !in cache.keys[1..];
    WithoutAbsent(cache.keys[1..], cache.keys[0]);
    var d := cache.Delete(cache.keys[0]);
    assert d.keys == cache.keys[1..];
    forall i | 0 <= i < |d.keys| ensures d.keys[i] == log[start + 1 + i].id && d.at[d.keys[i]] == log[start + 1 + i].time {
      assert d.keys[i] == cache.keys[i + 1];
    }
  }

  /** In a cache that is a tail and nothing in it expired, an id is present exactly when it is recent. */
  lemma CachedIffRecent(cache: Dict<Bytes, real>, log: seq<Accepted>, start: nat, id: Bytes, now: real)
    requires IsTail(cache, log, start) && Forgotten(log, start, now) && |cache.keys| <= MAX_CACHE
    requires forall k :: k in cache.at ==> cache.at[k] >= now - CACHE_TTL
    ensures id in cache.at <==> Recent(log, id, now)
  {
    if id in cache.at {
      var i :| 0 <= i < |cache.keys| && cache.keys[i] == id;
      assert log[start + i].id == id;
    }
    if Recent(log, id, now) {
      var i :| 0 <= i < |log| && |log| - i <= MAX_CACHE && log[i].id == id && log[i].time >= now - CACHE_TTL;
      assert i >= start;
      assert cache.keys[i - start] == id;
    }
  }

  /** Logging a new id extends both the cache and its part of the log. */
  lemma PutTail(cache: Dict<Bytes, real>, log: seq<Accepted>, start: nat, id: Bytes, now: real)
    requires IsTail(cache, log, start) && id !in cache.at && InOrder(log, now) && Forgotten(log, start, now)
    ensures IsTail(cache.Put(id, now), log + [Accepted(id, now)], start)
    ensures InOrder(log + [Accepted(id, now)], now) && Forgotten(log + [Accepted(id, now)], start, now)
  {
    var d, l := cache.Put(id, now), log + [Accepted(id, now)];
    forall i | 0 <= i < |d.keys| ensures d.keys[i] == l[start + i].id && d.at[d.keys[i]] == l[start + i].time {
      if i < |cache.keys| {
        assert d.keys[i] == cache.keys[i];
      }
    }
    assert forall i :: 0 <= i < |log| ==> l[i] == log[i];
  }

  lemma TailSorted(cache: Dict<Bytes, real>, log: seq<Accepted>, start: nat, now: real, i: nat, j: nat)
    requires IsTail(cache, log, start) && InOrder(log, now) && i <= j < |cache.keys|
    ensures cache.at[cache.keys[i]] <= cache.at[cache.keys[j]]
  {
    assert cache.at[cache.keys[i]] == log[start + i].time && cache.at[cache.keys[j]] == log[start + j].time;
  }

  /** The keys are in the order of their times. */
  ghost predicate OldestFirst(cache: Dict<Bytes, real>)
    requires cache.Wf()
  {
    forall i, j :: 0 <= i <= j < |cache.keys| ==> cache.at[cache.keys[i]] <= cache.at[cache.keys[j]]
  }

  lemma TailOldestFirst(cache: Dict<Bytes, real>, log: seq<Accepted>, start: nat, now: real)
    requires IsTail(cache, log, start) && InOrder(log, now)
    ensures cache.Wf() && OldestFirst(cache)
  {
    forall i, j | 0 <= i <= j < |cache.keys| ensures cache.at[cache.keys[i]] <= cache.at[cache.keys[j]] {
      TailSorted(cache, log, start, now, i, j);
    }
  }

  lemma TailTimes(cache: Dict<Bytes, real>, log: seq<Accepted>, start: nat, m: nat, cutoff: real)
    requires IsTail(cache, log, start) && m <= |cache.keys|
    requires forall j :: 0 <= j < m ==> cache.at[cache.keys[j]] < cutoff
    requires forall j :: m <= j < |cache.keys| ==> cache.at[cache.keys[j]] >= cutoff
    ensures forall i :: start <= i < start + m ==> log[i].time < cutoff
    ensures forall i :: start + m <= i < |log| ==> log[i].time >= cutoff
  {
    forall i | start <= i < |log| ensures log[i].time == cache.at[cache.keys[i - start]] {
      assert start + (i - start) == i;
    }
  }

  lemma EvictTail(cache: Dict<Bytes, real>, log: seq<Accepted>, start: nat, now: real)
    requires IsTail(cache, log, start) && Forgotten(log, start, now) && |cache.keys| == MAX_CACHE + 1
    ensures var d := cache.Delete(cache.keys[0]);
            IsTail(d, log, start + 1) && Forgotten(log, start + 1, now) && |d.keys| == MAX_CACHE
  {
    DeleteFirst(cache, log, start);
  }

  /** The position of the first key with the least time is the first position. */
  lemma OldestIsFirst(cache: Dict<Bytes, real>, log: seq<Accepted>, start: nat, now: real, i: nat)
    requires IsTail(cache, log, start) && InOrder(log, now) && i < |cache.keys|
    requires forall j :: 0 <= j < i ==> cache.at[cache.keys[i]] < cache.at[cache.keys[j]]
    ensures i == 0
  {
    TailSorted(cache, log, start, now, 0, i);
  }

  class ResolutionManager {
    const localId: Bytes
    var cache: Dict<Bytes, real>
    /** Every request accepted so far, where the cache's part begins, and the latest clock reading. */
    ghost var log: seq<Accepted>
    ghost var start: nat
    ghost var clock: real

    /** The cache is a suffix of the accepted log of at most 1000 entries, and no recent entry is missing. */
    ghost predicate Valid()
      reads this
    {
      IsTail(cache, log, start) && |cache.keys| <= MAX_CACHE && InOrder(log, clock) && Forgotten(log, start, clock)
    }

    constructor (localId: Bytes, now: real)
      ensures Valid() && log == [] && clock == now && this.localId == localId
    {
      this.localId := localId;
      cache := Empty();
      log := [];
      start := 0;
      clock := now;
    }

    /** The keys older than the cutoff, found by a pass over the whole cache. Since the clock never runs
        backwards they are the first ones. */
    method ExpiredKeys(cutoff: real) returns (expired: seq<Bytes>)
      requires cache.Wf() && OldestFirst(cache)
      ensures |expired| <= |cache.keys| && expired == cache.keys[..|expired|]
      ensures forall j :: 0 <= j < |expired| ==> cache.at[cache.keys[j]] < cutoff
      ensures forall j :: |expired| <= j < |cache.keys| ==> cache.at[cache.keys[j]] >= cutoff
    {
      expired := [];
      var i := 0;
      while i < |cache.keys|
        invariant i <= |cache.keys| && |expired| <= i
        invariant expired == cache.keys[..|expired|]
        invariant forall j :: 0 <= j < |expired| ==> cache.at[cache.keys[j]] < cutoff
        invariant forall j :: |expired| <= j < i ==> cache.at[cache.keys[j]] >= cutoff
      {
        assert cache.at[cache.keys[|expired|]] <= cache.at[cache.keys[i]];
        if cache.at[cache.keys[i]] < cutoff {
          assert |expired| == i && cache.keys[..i + 1] == cache.keys[..i] + [cache.keys[i]];
          expired := expired + [cache.keys[i]];
        }
        i := i + 1;
      }
    }

    method DeleteKey(key: Bytes)
      requires IsTail(cache, log, start) && cache.keys != [] && key == cache.keys[0]
      modifies this`cache, this`start
      ensures start == old(start) + 1 && IsTail(cache, log, start) && cache.keys == old(cache.keys)[1..]
    {
      DeleteFirst(cache, log, start);
      cache := cache.Delete(key);
      start := start + 1;
    }

    /** Deletes a prefix of the keys, one by one. */
    method DeleteKeys(expired: seq<Bytes>)
      requires IsTail(cache, log, start) && |expired| <= |cache.keys| && expired == cache.keys[..|expired|]
      modifies this`cache, this`start
      ensures start == old(start) + |expired| && IsTail(cache, log, start)
    {
      var i := 0;
      assert expired[0..] == expired;
      while i < |expired|
        invariant i <= |expired| && start == old(start) + i && IsTail(cache, log, start) && expired[i..] <= cache.keys
      {
        NextOfPrefix(expired, i, cache.keys);
        DeleteKey(expired[i]);
        i := i + 1;
      }
    }

    /** Entries older than five minutes go. */
    method CleanupCache(now: real)
      requires Valid() && now >= clock
      modifies this`cache, this`start, this`clock
      ensures Valid() && clock == now
      ensures forall k :: k in cache.at ==> cache.at[k] >= now - CACHE_TTL
    {
      TailOldestFirst(cache, log, start, clock);
      var expired := ExpiredKeys(now - CACHE_TTL);
      TailTimes(cache, log, start, |expired|, now - CACHE_TTL);
      DeleteKeys(expired);
      forall k | k in cache.at ensures cache.at[k] >= now - CACHE_TTL {
        var j :| 0 <= j < |cache.keys| && cache.keys[j] == k;
        assert cache.at[k] == log[start + j].time;
      }
      clock := now;
    }

    /** The position of the first key, in insertion order, with the least time. */
    method Oldest() returns (best: nat)
      requires cache.Wf() && cache.keys != []
      ensures best < |cache.keys|
      ensures forall j :: 0 <= j < |cache.keys| ==> cache.at[cache.keys[best]] <= cache.at[cache.keys[j]]
      ensures forall j :: 0 <= j < best ==> cache.at[cache.keys[best]] < cache.at[cache.keys[j]]
    {
      best := 0;
      var i := 1;
      while i < |cache.keys|
        invariant 0 <= best < i <= |cache.keys|
        invariant forall j :: 0 <= j < i ==> cache.at[cache.keys[best]] <= cache.at[cache.keys[j]]
        invariant forall j :: 0 <= j < best ==> cache.at[cache.keys[best]] < cache.at[cache.keys[j]]
      {
        if cache.at[cache.keys[i]] < cache.at[cache.keys[best]] {
          best := i;
        }
        i := i + 1;
      }
    }

    /** The dedup cache refines the log: an arrival is refused exactly when its id was accepted at most
        300 seconds ago with fewer than 1000 accepted since; otherwise it is logged and forwarded. */
    method HandleResolveRequest(request: Request, sender: Addr, now: real, overlay: seq<Bytes>, endpoints: map<Bytes, Addr>)
      returns (accepted: bool, sent: seq<Forward>)
      requires Valid() && now >= clock
      modifies this
      ensures Valid() && clock == now
      ensures accepted <==> !Recent(old(log), request.id, now)
      ensures log == if accepted then old(log) + [Accepted(request.id, now)] else old(log)
      ensures sent == if accepted then Forwards(localId, overlay, endpoints, request, sender) else []
    {
      CleanupCache(now);
      CachedIffRecent(cache, log, start, request.id, now);
      if request.id in cache.at {
        return false, [];
      }
      Insert(request.id, now);
      if request.target == localId || request.target in endpoints || request.ttl == 0 {
        return true, [];
      }
      sent := SendCopies(request.(ttl := request.ttl - 1), sender, overlay, endpoints);
      return true, sent;
    }

    static method SendCopies(copy: Request, sender: Addr, overlay: seq<Bytes>, endpoints: map<Bytes, Addr>) returns (sent: seq<Forward>)
      ensures sent == ForwardsTo(overlay, endpoints, copy, sender, 0)
    {
      sent := [];
      var i := 0;
      while i < |overlay|
        invariant i <= |overlay|
        invariant sent + ForwardsTo(overlay, endpoints, copy, sender, i) == ForwardsTo(overlay, endpoints, copy, sender, 0)
      {
        if overlay[i] in endpoints && endpoints[overlay[i]] != sender {
          sent := sent + [Forward(copy, endpoints[overlay[i]])];
        }
        i := i + 1;
      }
    }

    /** Logs a new id; past 1000 entries the oldest goes. */
    method Insert(id: Bytes, now: real)
      requires Valid() && clock == now && id !in cache.at
      modifies this`cache, this`log, this`start
      ensures Valid() && log == old(log) + [Accepted(id, now)]
    {
      PutTail(cache, log, start, id, now);
      cache := cache.Put(id, now);
      log := log + [Accepted(id, now)];
      if |cache.keys| > MAX_CACHE {
        EvictOldest();
      }
    }

    method EvictOldest()
      requires IsTail(cache, log, start) && InOrder(log, clock) && Forgotten(log, start, clock) && |cache.keys| == MAX_CACHE + 1
      modifies this`cache, this`start
      ensures Valid()
    {
      var oldest := OldestKey();
      EvictTail(cache, log, start, clock);
      cache := cache.Delete(oldest);
      start := start + 1;
    }

    method OldestKey() returns (oldest: Bytes)
      requires IsTail(cache, log, start) && InOrder(log, clock) && cache.keys != []
      ensures oldest == cache.keys[0]
    {
      var i := Oldest();
      OldestIsFirst(cache, log, start, clock, i);
      oldest := cache.keys[i];
    }
  }
}
