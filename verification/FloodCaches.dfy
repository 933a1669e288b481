/** The flood with every node's dedup log as part of the state: within one cache lifetime a node passes
    a request on at most once, so that the flood is bounded by the nodes, not by the hops. */
module FloodCaches {

  import opened Basics
  import opened Resolution
  import opened Flooding

  /** The copies in flight, and the log of accepted ids of every node. */
  datatype Net = Net(flight: seq<Request>, logs: map<Bytes, seq<Accepted>>)

  /** What happens to one copy, and when. */
  datatype Arrival = Arrival(e: Event, now: real)

  /** The node's cache decides whether the id is refused; no node forwards directly. */
  ghost predicate CanArrive(k: nat, s: Net, a: Arrival) {
    Enabled(k, s.flight, a.e) &&
    (a.e.Handle? ==>
       && a.e.view.localId in s.logs
       && BranchOf(a.e.view, s.flight[a.e.at]) != ForwardedDirectly
       && (a.e.view.refused <==> Recent(s.logs[a.e.view.localId], s.flight[a.e.at].id, a.now)))
  }

  predicate Logs(v: View, r: Request) {
    BranchOf(v, r) == Resolved && !v.refused
  }

  function Arrived(s: Net, a: Arrival): Net
    requires a.e.at < |s.flight|
  {
    Net(Next(s.flight, a.e),
        if a.e.Handle? && a.e.view.localId in s.logs && Logs(a.e.view, s.flight[a.e.at])
        then s.logs[a.e.view.localId := s.logs[a.e.view.localId] + [Accepted(s.flight[a.e.at].id, a.now)]]
        else s.logs)
  }

  /** From `t0` on for at most 300 seconds, in which no node accepts more than 1000 ids. */
  ghost predicate Within(s0: Net, t0: real, s: Net, a: Arrival) {
    t0 <= a.now <= t0 + CACHE_TTL && forall n :: n in s.logs && n in s0.logs ==> |s.logs[n]| <= |s0.logs[n]| + MAX_CACHE
  }

  ghost predicate Run(k: nat, s0: Net, t0: real, s: Net, es: seq<Arrival>)
    decreases |es|
  {
    es == [] || (CanArrive(k, s, es[0]) && Within(s0, t0, s, es[0]) && Run(k, s0, t0, Arrived(s, es[0]), es[1..]))
  }

  /** How many copies of one request the run handles. */
  ghost function HandlingsOf(x: Bytes, k: nat, s0: Net, t0: real, s: Net, es: seq<Arrival>): nat
    requires Run(k, s0, t0, s, es)
    decreases |es|
  {
    if es == [] then 0
    else (if es[0].e.Handle? && s.flight[es[0].e.at].id == x then 1 else 0) + HandlingsOf(x, k, s0, t0, Arrived(s, es[0]), es[1..])
  }

  function CopiesOf(x: Bytes, flight: seq<Request>): nat {
    if flight == [] then 0 else (if flight[0].id == x then 1 else 0) + CopiesOf(x, flight[1..])
  }

  lemma {:induction false} CopiesConcat(x: Bytes, a: seq<Request>, b: seq<Request>)
    ensures CopiesOf(x, a + b) == CopiesOf(x, a) + CopiesOf(x, b)
  {
    if a == [] {
      assert a + b == b;
    } else {
      assert (a + b)[1..] == a[1..] + b;
      CopiesConcat(x, a[1..], b);
    }
  }

  lemma CopiesRemove(x: Bytes, flight: seq<Request>, i: nat)
    requires i < |flight|
    ensures CopiesOf(x, flight) == (if flight[i].id == x then 1 else 0) + CopiesOf(x, flight[..i] + flight[i + 1..])
  {
    assert flight == flight[..i] + flight[i..] && flight[i..][1..] == flight[i + 1..];
    CopiesConcat(x, flight[..i], flight[i..]);
    CopiesConcat(x, flight[..i], flight[i + 1..]);
  }

  lemma {:induction false} CopiesOfOne(x: Bytes, copies: seq<Request>, id: Bytes)
    requires forall i :: 0 <= i < |copies| ==> copies[i].id == id
    ensures CopiesOf(x, copies) == if id == x then |copies| else 0
  {
    if copies != [] {
      CopiesOfOne(x, copies[1..], id);
    }
  }

  /** What a node sends for a copy are at most `k` copies of it, and none unless the node logs its id. */
  lemma SendsLittle(k: nat, v: View, r: Request, sender: Addr)
    requires |v.overlay| <= k && BranchOf(v, r) != ForwardedDirectly
    ensures |Copies(v, r, sender)| <= (if Logs(v, r) then k else 0)
    ensures forall i :: 0 <= i < |Copies(v, r, sender)| ==> Copies(v, r, sender)[i].id == r.id
  {
    if Logs(v, r) && r.ttl > 0 {
      ForwardsBound(v.overlay, v.endpoints, r.(ttl := r.ttl - 1), sender, 0);
    }
  }

  // ---- which nodes may still pass a request on

  /** The node has not accepted the id since the beginning. */
  ghost predicate Yet(s0: Net, s: Net, x: Bytes, n: Bytes) {
    n in s0.logs && n in s.logs && forall i :: |s0.logs[n]| <= i < |s.logs[n]| ==> s.logs[n][i].id != x
  }

  ghost function YetNodes(s0: Net, s: Net, x: Bytes): set<Bytes> {
    set n | n in s.logs && Yet(s0, s, x, n)
  }

  /** The logs have only grown since the beginning, by entries no older than it. */
  ghost predicate Grown(s0: Net, t0: real, s: Net) {
    && s.logs.Keys == s0.logs.Keys
    && (forall n :: n in s.logs ==> |s0.logs[n]| <= |s.logs[n]|)
    && (forall n, i :: n in s.logs && |s0.logs[n]| <= i < |s.logs[n]| ==> s.logs[n][i].time >= t0)
  }

  lemma GrownStep(k: nat, s0: Net, t0: real, s: Net, a: Arrival)
    requires Grown(s0, t0, s) && CanArrive(k, s, a) && Within(s0, t0, s, a)
    ensures Grown(s0, t0, Arrived(s, a))
  {
    var t := Arrived(s, a);
    forall n, i | n in t.logs && |s0.logs[n]| <= i < |t.logs[n]| ensures t.logs[n][i].time >= t0 {
      if i < |s.logs[n]| {
        assert t.logs[n][i] == s.logs[n][i];
      }
    }
  }

  /** A node that has accepted the id since the beginning refuses it. */
  lemma OnceRefused(k: nat, s0: Net, t0: real, s: Net, a: Arrival)
    requires Grown(s0, t0, s) && CanArrive(k, s, a) && Within(s0, t0, s, a) && a.e.Handle?
    ensures Logs(a.e.view, s.flight[a.e.at]) ==> Yet(s0, s, s.flight[a.e.at].id, a.e.view.localId)
  {
    var n, x := a.e.view.localId, s.flight[a.e.at].id;
    if !Yet(s0, s, x, n) {
      var i :| |s0.logs[n]| <= i < |s.logs[n]| && s.logs[n][i].id == x;
      assert s.logs[n][i].time >= a.now - CACHE_TTL;
      assert Recent(s.logs[n], x, a.now);
    }
  }

  /** A logged id takes its node out of those that may still pass it on; nothing puts one in. */
  lemma YetShrinks(k: nat, s0: Net, t0: real, s: Net, a: Arrival, x: Bytes)
    requires Grown(s0, t0, s) && CanArrive(k, s, a)
    ensures YetNodes(s0, Arrived(s, a), x) <= YetNodes(s0, s, x)
    ensures a.e.Handle? && Logs(a.e.view, s.flight[a.e.at]) && s.flight[a.e.at].id == x ==>
              a.e.view.localId !in YetNodes(s0, Arrived(s, a), x)
  {
    var t := Arrived(s, a);
    forall n | n in YetNodes(s0, t, x) ensures n in YetNodes(s0, s, x) {
      forall i | |s0.logs[n]| <= i < |s.logs[n]| ensures s.logs[n][i].id != x {
        assert t.logs[n][i] == s.logs[n][i];
      }
    }
    if a.e.Handle? && Logs(a.e.view, s.flight[a.e.at]) && s.flight[a.e.at].id == x {
      var n := a.e.view.localId;
      assert t.logs[n][|s.logs[n]|].id == x;
    }
  }

  lemma SmallerSet<T>(a: set<T>, b: set<T>, x: T)
    requires a <= b && x in b && x !in a
    ensures |a| + 1 <= |b|
  {
    assert a <= b - {x};
    Subset(a, b - {x});
  }

  lemma {:induction false} Subset<T>(a: set<T>, b: set<T>)
    requires a <= b
    ensures |a| <= |b|
  {
    if a != {} {
      var x :| x in a;
      Subset(a - {x}, b - {x});
    }
  }

  /** Copies in flight, and what the nodes that may still pass the request on can add to them. */
  ghost function Reserve(k: nat, s0: Net, s: Net, x: Bytes): nat {
    CopiesOf(x, s.flight) + k * |YetNodes(s0, s, x)|
  }

  lemma Fewer(k: nat, a: nat, b: nat)
    requires a + 1 <= b
    ensures k * a + k <= k * b
  {
    assert k * (a + 1) == k * a + k;
    ScaleGrows(k, a + 1, b);
  }

  /** What a handling does to the copies in flight. */
  lemma FlightStep(k: nat, s: Net, a: Arrival, x: Bytes)
    requires CanArrive(k, s, a)
    ensures var r := s.flight[a.e.at];
            CopiesOf(x, Arrived(s, a).flight) + (if r.id == x then 1 else 0)
            <= CopiesOf(x, s.flight) + (if a.e.Handle? && r.id == x && Logs(a.e.view, r) then k else 0)
  {
    var r, rest := s.flight[a.e.at], s.flight[..a.e.at] + s.flight[a.e.at + 1..];
    CopiesRemove(x, s.flight, a.e.at);
    if a.e.Handle? {
      var copies := Copies(a.e.view, r, a.e.sender);
      SendsLittle(k, a.e.view, r, a.e.sender);
      CopiesOfOne(x, copies, r.id);
      CopiesConcat(x, rest, copies);
    }
  }

  /** Every handled copy of the request lowers the reserve; nothing raises it. */
  lemma ReserveFalls(k: nat, s0: Net, t0: real, s: Net, a: Arrival, x: Bytes)
    requires Grown(s0, t0, s) && CanArrive(k, s, a) && Within(s0, t0, s, a)
    ensures Reserve(k, s0, Arrived(s, a), x) + (if a.e.Handle? && s.flight[a.e.at].id == x then 1 else 0) <= Reserve(k, s0, s, x)
  {
    var yet, left := YetNodes(s0, s, x), YetNodes(s0, Arrived(s, a), x);
    FlightStep(k, s, a, x);
    YetShrinks(k, s0, t0, s, a, x);
    if a.e.Handle? && s.flight[a.e.at].id == x && Logs(a.e.view, s.flight[a.e.at]) {
      OnceRefused(k, s0, t0, s, a);
      SmallerSet(left, yet, a.e.view.localId);
      Fewer(k, |left|, |yet|);
    } else {
      Subset(left, yet);
      ScaleGrows(k, |left|, |yet|);
    }
  }

  lemma {:induction false} RunReserve(x: Bytes, k: nat, s0: Net, t0: real, s: Net, es: seq<Arrival>)
    requires Grown(s0, t0, s) && Run(k, s0, t0, s, es)
    ensures HandlingsOf(x, k, s0, t0, s, es) <= Reserve(k, s0, s, x)
    decreases |es|
  {
    if es != [] {
      ReserveFalls(k, s0, t0, s, es[0], x);
      GrownStep(k, s0, t0, s, es[0]);
      RunReserve(x, k, s0, t0, Arrived(s, es[0]), es[1..]);
    }
  }

  /** Within one cache lifetime, whatever the hop counts: with overlays of at most `k` peers, and no node
      accepting more than 1000 ids meanwhile, the copies of one request that are ever handled are at most
      those in flight at the beginning and `k` for every node. */
  lemma CachedFloodEnds(x: Bytes, k: nat, s: Net, t0: real, es: seq<Arrival>)
    requires Run(k, s, t0, s, es)
    ensures HandlingsOf(x, k, s, t0, s, es) <= CopiesOf(x, s.flight) + k * |s.logs|
  {
    RunReserve(x, k, s, t0, s, es);
    Subset(YetNodes(s, s, x), s.logs.Keys);
    ScaleGrows(k, |YetNodes(s, s, x)|, |s.logs|);
  }
}
