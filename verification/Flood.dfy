/** A resolve request spreading through the network: each in-flight copy is handled by some node, in
    any order, or lost. */
module Flooding {

  import opened Basics
  import opened Resolution

  /** What a node knows when a copy reaches it: its id, the endpoints of its peer table, the peers
      whose signed endpoint record it holds, its overlay, whether the global limiter lets the
      request through, and whether its cache refuses the id. */
  datatype View = View(localId: Bytes, endpoints: map<Bytes, Addr>, signed: set<Bytes>, overlay: seq<Bytes>,
                       limited: bool, refused: bool)

  datatype Branch = Limited | AnsweredSelf | AnsweredFromRecord | ForwardedDirectly | Resolved

  function BranchOf(v: View, r: Request): Branch {
    if v.limited then Limited
    else if r.target == v.localId then AnsweredSelf
    else if r.target in v.endpoints && r.target in v.signed then AnsweredFromRecord
    else if r.target in v.endpoints then ForwardedDirectly
    else Resolved
  }

  /** The request on the wire: its hop count is cut to five. */
  function OnWire(r: Request): Request {
    r.(ttl := if r.ttl <= MAX_TTL then r.ttl else MAX_TTL)
  }

  function RequestsOf(fs: seq<Forward>): seq<Request> {
    seq(|fs|, i requires 0 <= i < |fs| => OnWire(fs[i].request))
  }

  /** The copies a node puts on the wire for a request it receives. A target known only by an
      unsigned endpoint gets the request as it is, hop count included. */
  function Copies(v: View, r: Request, sender: Addr): seq<Request> {
    match BranchOf(v, r)
    case ForwardedDirectly => [OnWire(r)]
    case Resolved => if v.refused then [] else RequestsOf(Forwards(v.localId, v.overlay, v.endpoints, r, sender))
    case _ => []
  }

  /** Handlings one copy with `ttl` hops left can cause among overlays of at most `k` peers. */
  function Weight(k: nat, ttl: nat): nat {
    if ttl == 0 then 1 else k * Weight(k, ttl - 1) + 1
  }

  function Potential(k: nat, flight: seq<Request>): nat {
    if flight == [] then 0 else Weight(k, flight[0].ttl) + Potential(k, flight[1..])
  }

  lemma {:induction false} PotentialConcat(k: nat, a: seq<Request>, b: seq<Request>)
    ensures Potential(k, a + b) == Potential(k, a) + Potential(k, b)
  {
    if a == [] {
      assert a + b == b;
    } else {
      assert (a + b)[1..] == a[1..] + b;
      PotentialConcat(k, a[1..], b);
    }
  }

  lemma {:induction false} PotentialUniform(k: nat, flight: seq<Request>, ttl: nat, most: nat)
    requires |flight| <= most && forall i :: 0 <= i < |flight| ==> flight[i].ttl == ttl
    ensures Potential(k, flight) <= most * Weight(k, ttl)
  {
    if flight == [] {
      assert 0 <= most * Weight(k, ttl);
    } else {
      PotentialUniform(k, flight[1..], ttl, most - 1);
      assert (most - 1) * Weight(k, ttl) + Weight(k, ttl) == most * Weight(k, ttl);
    }
  }

  lemma {:induction false} WeightGrows(k: nat, ttl: nat, more: nat)
    requires ttl <= more
    ensures Weight(k, ttl) <= Weight(k, more)
    decreases more
  {
    if 0 < ttl {
      WeightGrows(k, ttl - 1, more - 1);
      ScaleGrows(k, Weight(k, ttl - 1), Weight(k, more - 1));
    }
  }

  lemma ScaleGrows(k: nat, a: nat, b: nat)
    requires a <= b
    ensures k * a <= k * b
  {
  }

  lemma PotentialRemove(k: nat, flight: seq<Request>, i: nat)
    requires i < |flight|
    ensures Potential(k, flight) == Weight(k, flight[i].ttl) + Potential(k, flight[..i] + flight[i + 1..])
  {
    assert flight == flight[..i] + flight[i..];
    assert flight[i..][1..] == flight[i + 1..];
    PotentialConcat(k, flight[..i], flight[i..]);
    PotentialConcat(k, flight[..i], flight[i + 1..]);
  }

  /** The copies a handling sends weigh less than the copy handled, unless it is forwarded directly:
      then they weigh the same. */
  lemma CopiesWeigh(k: nat, v: View, r: Request, sender: Addr)
    requires |v.overlay| <= k && r.ttl <= MAX_TTL
    ensures BranchOf(v, r) != ForwardedDirectly ==> Potential(k, Copies(v, r, sender)) < Weight(k, r.ttl)
    ensures BranchOf(v, r) == ForwardedDirectly ==> Potential(k, Copies(v, r, sender)) == Weight(k, r.ttl)
  {
    match BranchOf(v, r) {
      case ForwardedDirectly =>
        assert Copies(v, r, sender) == [r] && [r][1..] == [];
      case Resolved =>
        if r.ttl > 0 {
          var fs := ForwardsTo(v.overlay, v.endpoints, r.(ttl := r.ttl - 1), sender, 0);
          ForwardsBound(v.overlay, v.endpoints, r.(ttl := r.ttl - 1), sender, 0);
          PotentialUniform(k, RequestsOf(fs), r.ttl - 1, k);
        }
      case _ =>
    }
  }

  datatype Event = Handle(at: nat, view: View, sender: Addr) | Lose(at: nat)

  predicate Enabled(k: nat, flight: seq<Request>, e: Event) {
    e.at < |flight| && (e.Handle? ==> |e.view.overlay| <= k)
  }

  function Next(flight: seq<Request>, e: Event): seq<Request>
    requires e.at < |flight|
  {
    var rest := flight[..e.at] + flight[e.at + 1..];
    match e
    case Lose(_) => rest
    case Handle(at, view, sender) => rest + Copies(view, flight[at], sender)
  }

  predicate HopsBounded(flight: seq<Request>) {
    forall i :: 0 <= i < |flight| ==> flight[i].ttl <= MAX_TTL
  }

  lemma CopiesBounded(v: View, r: Request, sender: Addr)
    ensures HopsBounded(Copies(v, r, sender))
  {
  }

  /** Each handled copy strictly lowers the weight in flight if and only if the node does not forward
      it directly to a known unsigned endpoint. */
  lemma HandlingExact(k: nat, flight: seq<Request>, e: Event)
    requires HopsBounded(flight) && Enabled(k, flight, e) && e.Handle?
    ensures HopsBounded(Next(flight, e))
    ensures Potential(k, Next(flight, e)) < Potential(k, flight) <==> BranchOf(e.view, flight[e.at]) != ForwardedDirectly
  {
    var rest := flight[..e.at] + flight[e.at + 1..];
    var copies := Copies(e.view, flight[e.at], e.sender);
    PotentialRemove(k, flight, e.at);
    PotentialConcat(k, rest, copies);
    CopiesWeigh(k, e.view, flight[e.at], e.sender);
    CopiesBounded(e.view, flight[e.at], e.sender);
    assert HopsBounded(rest);
  }

  lemma LosingLowers(k: nat, flight: seq<Request>, e: Event)
    requires HopsBounded(flight) && Enabled(k, flight, e) && e.Lose?
    ensures HopsBounded(Next(flight, e)) && Potential(k, Next(flight, e)) < Potential(k, flight)
  {
    PotentialRemove(k, flight, e.at);
    assert Next(flight, e) == flight[..e.at] + flight[e.at + 1..];
    assert Weight(k, flight[e.at].ttl) >= 1 by {
      WeightGrows(k, 0, flight[e.at].ttl);
    }
  }

  predicate Schedule(k: nat, flight: seq<Request>, es: seq<Event>)
    decreases |es|
  {
    es == [] || (Enabled(k, flight, es[0]) && Schedule(k, Next(flight, es[0]), es[1..]))
  }

  /** Runs in which no node forwards directly. */
  predicate Legal(k: nat, flight: seq<Request>, es: seq<Event>)
    decreases |es|
  {
    es == [] ||
    (Enabled(k, flight, es[0]) &&
     (es[0].Handle? ==> BranchOf(es[0].view, flight[es[0].at]) != ForwardedDirectly) &&
     Legal(k, Next(flight, es[0]), es[1..]))
  }

  function Handlings(es: seq<Event>): nat {
    if es == [] then 0 else (if es[0].Handle? then 1 else 0) + Handlings(es[1..])
  }

  lemma {:induction false} RunBound(k: nat, flight: seq<Request>, es: seq<Event>)
    requires HopsBounded(flight) && Legal(k, flight, es)
    ensures |es| <= Potential(k, flight) && Handlings(es) <= |es|
    decreases |es|
  {
    if es != [] {
      if es[0].Handle? {
        HandlingExact(k, flight, es[0]);
      } else {
        LosingLowers(k, flight, es[0]);
      }
      RunBound(k, Next(flight, es[0]), es[1..]);
    }
  }

  lemma {:induction false} PotentialTotal(k: nat, flight: seq<Request>)
    requires HopsBounded(flight)
    ensures Potential(k, flight) <= |flight| * Weight(k, MAX_TTL)
  {
    if flight != [] {
      WeightGrows(k, flight[0].ttl, MAX_TTL);
      PotentialTotal(k, flight[1..]);
      assert (|flight| - 1) * Weight(k, MAX_TTL) + Weight(k, MAX_TTL) == |flight| * Weight(k, MAX_TTL);
    }
  }

  /** Resolve floods end: with overlays of at most `k` peers and no duplication, every schedule of a
      request handles at most w(5) copies per initial copy, where w(0) = 1 and w(t) = k w(t-1) + 1. */
  lemma FloodEnds(k: nat, initial: seq<Request>, es: seq<Event>)
    requires HopsBounded(initial) && Legal(k, initial, es)
    ensures Handlings(es) <= |initial| * Weight(k, MAX_TTL)
  {
    RunBound(k, initial, es);
    PotentialTotal(k, initial);
  }

  /** Two nodes handle the one copy in flight by turns, `n` times; each gets it from the other's endpoint. */
  function BackAndForth(one: View, other: View, here: Addr, there: Addr, n: nat): seq<Event>
    decreases n
  {
    if n == 0 then [] else [Handle(0, one, there)] + BackAndForth(other, one, there, here, n - 1)
  }

  lemma DirectlyForwarded(v: View, r: Request, sender: Addr)
    requires r.ttl <= MAX_TTL && BranchOf(v, r) == ForwardedDirectly
    ensures Next([r], Handle(0, v, sender)) == [r]
  {
    assert [r][..0] + [r][1..] == [];
    assert Copies(v, r, sender) == [r];
  }

  /** Direct forwarding keeps the hop count and skips the cache: two nodes that each believe the target
      lives at the other pass one copy back and forth for as long as one likes. */
  lemma {:induction false} DirectForwardingLoops(k: nat, r: Request, one: View, other: View, here: Addr, there: Addr, n: nat)
    requires one.localId != other.localId && |one.overlay| <= k && |other.overlay| <= k && r.ttl <= MAX_TTL
    requires BranchOf(one, r) == ForwardedDirectly && one.endpoints[r.target] == there
    requires BranchOf(other, r) == ForwardedDirectly && other.endpoints[r.target] == here
    ensures Schedule(k, [r], BackAndForth(one, other, here, there, n)) && Handlings(BackAndForth(one, other, here, there, n)) == n
    decreases n
  {
    if n > 0 {
      var rest := BackAndForth(other, one, there, here, n - 1);
      DirectlyForwarded(one, r, there);
      DirectForwardingLoops(k, r, other, one, there, here, n - 1);
      assert BackAndForth(one, other, here, there, n)[1..] == rest;
    }
  }
}
