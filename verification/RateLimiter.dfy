/** Token buckets, and the window rule they decide exactly. Time and tokens are reals. */
module RateLimiting {

  import opened Basics

  /** One request seen by a bucket: when, for how many tokens, and whether it was admitted. */
  datatype Request = Request(time: real, tokens: int, admitted: bool)

  function Min(a: real, b: real): real {
    if a < b then a else b
  }

  /** Tokens admitted since position `from`. */
  function Spent(log: seq<Request>, from: nat): real
    requires from <= |log|
    decreases |log| - from
  {
    if from == |log| then 0.0
    else Used(log[from]) + Spent(log, from + 1)
  }

  /** The window rule: for every window that starts at an earlier request of this log, or now, the
      tokens admitted in it, this request's included, are at most capacity + rate * length. */
  ghost predicate Admissible(rate: real, capacity: int, log: seq<Request>, now: real, tokens: int) {
    && tokens as real <= capacity as real
    && forall j :: 0 <= j < |log| ==> FitsWindow(rate, capacity, log, now, tokens, j)
  }

  predicate FitsWindow(rate: real, capacity: int, log: seq<Request>, now: real, tokens: int, j: nat)
    requires j < |log|
  {
    Spent(log, j) + tokens as real <= capacity as real + rate * (now - log[j].time)
  }

  /** The credit a rate has earned by a point in time; only differences matter. */
  function CreditOf(rate: real): real -> real {
    (t: real) => rate * t
  }

  lemma CreditBetween(rate: real, since: real, now: real)
    ensures CreditOf(rate)(now) - CreditOf(rate)(since) == rate * (now - since) == (now - since) * rate
  {
  }

  lemma RoomDecides(rate: real, capacity: int, log: seq<Request>, now: real, tokens: int, j: nat)
    requires j < |log|
    ensures Room(CreditOf(rate), capacity, log, now, j) >= tokens as real <==> FitsWindow(rate, capacity, log, now, tokens, j)
  {
    var room := Room(CreditOf(rate), capacity, log, now, j);
    CreditBetween(rate, log[j].time, now);
    assert room == capacity as real + rate * (now - log[j].time) - Spent(log, j);
  }

  /** Room the window that starts at position `j` leaves at time `now`. */
  function Room(credit: real -> real, capacity: int, log: seq<Request>, now: real, j: nat): real
    requires j < |log|
  {
    capacity as real + (credit(now) - credit(log[j].time)) - Spent(log, j)
  }

  /** The least room over all windows from position `from` on, the empty one included. */
  function Slack(credit: real -> real, capacity: int, log: seq<Request>, now: real, from: nat): real
    requires from <= |log|
    decreases |log| - from
  {
    if from == |log| then capacity as real
    else Min(Room(credit, capacity, log, now, from), Slack(credit, capacity, log, now, from + 1))
  }

  lemma {:induction false} SlackBound(credit: real -> real, capacity: int, log: seq<Request>, now: real, from: nat, tokens: real)
    requires from <= |log|
    ensures Slack(credit, capacity, log, now, from) >= tokens <==>
            capacity as real >= tokens && forall j :: from <= j < |log| ==> Room(credit, capacity, log, now, j) >= tokens
    decreases |log| - from
  {
    if from < |log| {
      SlackBound(credit, capacity, log, now, from + 1, tokens);
    }
  }

  /** The slack is at least `tokens` exactly when the window rule admits them. */
  lemma SlackDecides(rate: real, capacity: int, log: seq<Request>, now: real, tokens: int)
    ensures Slack(CreditOf(rate), capacity, log, now, 0) >= tokens as real <==> Admissible(rate, capacity, log, now, tokens)
  {
    SlackBound(CreditOf(rate), capacity, log, now, 0, tokens as real);
    forall j | 0 <= j < |log|
      ensures Room(CreditOf(rate), capacity, log, now, j) >= tokens as real <==> FitsWindow(rate, capacity, log, now, tokens, j)
    {
      RoomDecides(rate, capacity, log, now, tokens, j);
    }
  }

  lemma {:induction false} SpentAppend(log: seq<Request>, r: Request, from: nat)
    requires from <= |log|
    ensures Spent(log + [r], from) == Spent(log, from) + Used(r)
    decreases |log| - from
  {
    if from < |log| {
      SpentAppend(log, r, from + 1);
    }
  }

  function Used(r: Request): real {
    if r.admitted then r.tokens as real else 0.0
  }

  /** One request and the time that passes after it move every window alike; the new empty window
      caps the result at the capacity. */
  lemma {:induction false} SlackAppend(credit: real -> real, capacity: int, log: seq<Request>, r: Request, now: real, from: nat)
    requires from <= |log|
    ensures Slack(credit, capacity, log + [r], now, from) ==
            Min(capacity as real, Slack(credit, capacity, log, r.time, from) - Used(r) + (credit(now) - credit(r.time)))
    decreases |log| - from
  {
    SpentAppend(log, r, from);
    if from == |log| {
      assert (log + [r])[from] == r;
      assert Slack(credit, capacity, log + [r], now, from + 1) == capacity as real;
    } else {
      SlackAppend(credit, capacity, log, r, now, from + 1);
      assert (log + [r])[from] == log[from];
    }
  }

  /** The tokens a valid bucket holds, from its log: full, or the last request's slack less its tokens. */
  function TokensOf(credit: real -> real, capacity: int, log: seq<Request>): real {
    if log == [] then capacity as real
    else Slack(credit, capacity, log[..|log| - 1], log[|log| - 1].time, 0) - Used(log[|log| - 1])
  }

  /** Crediting the time since the last refill gives the slack now. */
  lemma RefilledSlack(credit: real -> real, capacity: int, log: seq<Request>, since: real, now: real)
    requires credit(now) >= credit(since) && (log != [] ==> since == log[|log| - 1].time)
    ensures Slack(credit, capacity, log, now, 0) ==
            Min(capacity as real, TokensOf(credit, capacity, log) + (credit(now) - credit(since)))
  {
    if log != [] {
      var init, last := log[..|log| - 1], log[|log| - 1];
      assert log == init + [last];
      SlackAppend(credit, capacity, init, last, now, 0);
    }
  }

  lemma TokensAppend(credit: real -> real, capacity: int, log: seq<Request>, r: Request)
    ensures TokensOf(credit, capacity, log + [r]) == Slack(credit, capacity, log, r.time, 0) - Used(r)
  {
    assert (log + [r])[..|log|] == log;
  }

  class TokenBucket {
    const rate: real
    const capacity: int
    var tokens: real
    var lastRefill: real
    /** Every request this bucket has seen. */
    ghost var log: seq<Request>

    /** The tokens at the last refill are the slack then, less what that request took. */
    ghost predicate Valid()
      reads this
    {
      && rate >= 0.0 && (log != [] ==> lastRefill == log[|log| - 1].time)
      && tokens == TokensOf(CreditOf(rate), capacity, log)
    }

    constructor (rate: real, capacity: int, now: real)
      requires rate >= 0.0
      ensures Valid() && log == [] && this.rate == rate && this.capacity == capacity && lastRefill == now
    {
      this.rate := rate;
      this.capacity := capacity;
      tokens := capacity as real;
      lastRefill := now;
      log := [];
    }

    /** After a refill the bucket holds the slack over all windows up to now. */
    method Refill(now: real)
      requires Valid() && now >= lastRefill
      modifies this`tokens, this`lastRefill
      ensures tokens == Slack(CreditOf(rate), capacity, log, now, 0) && lastRefill == now
    {
      CreditBetween(rate, lastRefill, now);
      assert (now - lastRefill) * rate >= 0.0;
      RefilledSlack(CreditOf(rate), capacity, log, lastRefill, now);
      var elapsed := now - lastRefill;
      tokens := Min(capacity as real, tokens + elapsed * rate);
      lastRefill := now;
    }

    /** Takes the tokens if the slack allows. */
    method Take(amount: int, now: real) returns (ok: bool)
      requires Valid() && now >= lastRefill
      modifies this
      ensures Valid()
      ensures ok <==> Slack(CreditOf(rate), capacity, old(log), now, 0) >= amount as real
      ensures log == old(log) + [Request(now, amount, ok)]
    {
      Refill(now);
      ok := tokens >= amount as real;
      TokensAppend(CreditOf(rate), capacity, log, Request(now, amount, ok));
      if ok {
        tokens := tokens - amount as real;
      }
      log := log + [Request(now, amount, ok)];
    }

    /** Admits exactly what the window rule admits. */
    method Consume(amount: int, now: real) returns (ok: bool)
      requires Valid() && now >= lastRefill
      modifies this
      ensures Valid()
      ensures ok <==> Admissible(rate, capacity, old(log), now, amount)
      ensures log == old(log) + [Request(now, amount, ok)]
    {
      SlackDecides(rate, capacity, log, now, amount);
      ok := Take(amount, now);
    }
  }

  // ---- per peer and packet type

  datatype LimitedType = DataType | ResolveRequestType | EndpointUpdateType

  /** A packet type with a limit, or one without. */
  datatype Kind = Limited(t: LimitedType) | Unlimited

  datatype Limit = Limit(rate: real, capacity: int)

  function LimitOf(t: LimitedType): (l: Limit)
    ensures l.rate > 0.0 && l.capacity >= 1
  {
    match t
    case ResolveRequestType => Limit(10.0 / 60.0, 10)
    case EndpointUpdateType => Limit(20.0 / 60.0, 20)
    case DataType => Limit(100.0, 100)
  }

  datatype Event = Event(peer: Bytes, kind: Kind, request: Request)

  /** The requests of one peer and type among all traffic. */
  function Of(traffic: seq<Event>, peer: Bytes, t: LimitedType): seq<Request> {
    if traffic == [] then []
    else
      var last := traffic[|traffic| - 1];
      Of(traffic[..|traffic| - 1], peer, t) + if last.peer == peer && last.kind == Limited(t) then [last.request] else []
  }

  lemma OfAppend(traffic: seq<Event>, e: Event, peer: Bytes, t: LimitedType)
    ensures Of(traffic + [e], peer, t) ==
            Of(traffic, peer, t) + if e.peer == peer && e.kind == Limited(t) then [e.request] else []
  {
    assert (traffic + [e])[..|traffic|] == traffic;
  }

  type Buckets = map<LimitedType, TokenBucket>

  /** A bucket for one limit that has seen exactly the given requests, at least one, by `clock`. */
  ghost predicate Serves(b: TokenBucket, t: LimitedType, log: seq<Request>, clock: real)
    reads b
  {
    b.Valid() && b.lastRefill <= clock && b.log == log != [] && b.rate == LimitOf(t).rate && b.capacity == LimitOf(t).capacity
  }

  datatype Pair = Pair(peer: Bytes, t: LimitedType)

  class PeerRateLimiter {
    var buckets: map<Bytes, Buckets>
    /** Everything that was ever checked, in order, and the latest clock reading. */
    ghost var traffic: seq<Event>
    ghost var clock: real
    /** The buckets made so far and the pair each was made for. */
    ghost var repr: set<TokenBucket>
    ghost var owner: map<TokenBucket, Pair>

    predicate Has(peer: Bytes, t: LimitedType)
      reads this
    {
      peer in buckets && t in buckets[peer]
    }

    /** The bucket of a pair, where there is one, has seen exactly that pair's requests. */
    ghost predicate Tracks(peer: Bytes, t: LimitedType)
      reads this, repr
    {
      if Has(peer, t) then
        && buckets[peer][t] in repr && buckets[peer][t] in owner && owner[buckets[peer][t]] == Pair(peer, t)
        && Serves(buckets[peer][t], t, Of(traffic, peer, t), clock)
      else Of(traffic, peer, t) == []
    }

    ghost predicate Valid()
      reads this, repr
    {
      owner.Keys == repr && forall peer, t :: Tracks(peer, t)
    }

    constructor (now: real)
      ensures Valid() && traffic == [] && clock == now
    {
      buckets := map[];
      traffic := [];
      clock := now;
      repr := {};
      owner := map[];
    }

    /** Exact rate limiting: whatever other traffic is interleaved, a packet of a limited type is
        admitted exactly when its own peer and type's requests leave room in every window; other
        types always pass. */
    method Check(peer: Bytes, kind: Kind, now: real) returns (ok: bool)
      requires Valid() && now >= clock
      modifies this, repr
      ensures Valid() && fresh(repr - old(repr)) && clock == now
      ensures kind.Unlimited? ==> ok
      ensures kind.Limited? ==>
                (ok <==> Admissible(LimitOf(kind.t).rate, LimitOf(kind.t).capacity, Of(old(traffic), peer, kind.t), now, 1))
      ensures traffic == old(traffic) + [Event(peer, kind, Request(now, 1, ok))]
    {
      if kind.Unlimited? {
        Record(peer, kind, now, true);
        return true;
      }
      var bucket := BucketFor(peer, kind.t, now);
      ok := bucket.Consume(1, now);
      Record(peer, kind, now, ok);
    }

    /** The bucket of a pair, made full on its first use. */
    method BucketFor(peer: Bytes, t: LimitedType, now: real) returns (bucket: TokenBucket)
      requires Valid() && now >= clock
      modifies this`buckets, this`repr, this`owner
      ensures Ready(Pair(peer, t), now) && bucket == buckets[peer][t] && bucket.log == Of(traffic, peer, t)
      ensures fresh(repr - old(repr))
    {
      assert Tracks(peer, t);
      if Has(peer, t) {
        bucket := buckets[peer][t];
        return;
      }
      bucket := MakeBucket(peer, t, now);
    }

    method MakeBucket(peer: Bytes, t: LimitedType, now: real) returns (bucket: TokenBucket)
      requires Valid() && now >= clock && !Has(peer, t)
      modifies this`buckets, this`repr, this`owner
      ensures Ready(Pair(peer, t), now) && bucket == buckets[peer][t] && bucket.log == []
      ensures fresh(repr - old(repr))
    {
      bucket := new TokenBucket(LimitOf(t).rate, LimitOf(t).capacity, now);
      Place(peer, t, bucket, now);
    }

    method Place(peer: Bytes, t: LimitedType, bucket: TokenBucket, now: real)
      requires Valid() && now >= clock && !Has(peer, t) && bucket !in repr
      requires bucket.Valid() && bucket.lastRefill <= now && bucket.rate == LimitOf(t).rate && bucket.capacity == LimitOf(t).capacity
      modifies this`buckets, this`repr, this`owner
      ensures Ready(Pair(peer, t), now) && bucket == buckets[peer][t] && repr == old(repr) + {bucket}
    {
      var mine: Buckets := if peer in buckets then buckets[peer] else map[];
      buckets := buckets[peer := mine[t := bucket]];
      repr := repr + {bucket};
      owner := owner[bucket := Pair(peer, t)];
      forall p, t' | Pair(p, t') != Pair(peer, t) ensures Tracks(p, t') {
        assert old(Tracks(p, t'));
        if p == peer {
          assert old(Has(p, t')) <==> t' in mine;
        }
      }
    }

    /** Every pair but one is tracked; that one has a bucket that may be about to be used. */
    ghost predicate Ready(pair: Pair, now: real)
      reads this, repr
    {
      && owner.Keys == repr && now >= clock && Has(pair.peer, pair.t)
      && (forall p, t :: Pair(p, t) != pair ==> Tracks(p, t))
      && var b := buckets[pair.peer][pair.t];
         b in repr && owner[b] == pair && b.Valid() && b.lastRefill <= now &&
         b.rate == LimitOf(pair.t).rate && b.capacity == LimitOf(pair.t).capacity
    }

    /** Adds a decision to the record: the bucket of a limited pair has already seen it. */
    ghost method Record(peer: Bytes, kind: Kind, now: real, ok: bool)
      requires kind.Limited? ==> Ready(Pair(peer, kind.t), now) &&
                                 buckets[peer][kind.t].log == Of(traffic, peer, kind.t) + [Request(now, 1, ok)]
      requires kind.Unlimited? ==> Valid() && now >= clock
      modifies this`traffic, this`clock
      ensures Valid() && clock == now && traffic == old(traffic) + [Event(peer, kind, Request(now, 1, ok))]
    {
      ghost var event := Event(peer, kind, Request(now, 1, ok));
      forall p, t ensures Of(traffic + [event], p, t) ==
                          Of(traffic, p, t) + if peer == p && kind == Limited(t) then [event.request] else []
      {
        OfAppend(traffic, event, p, t);
      }
      traffic := traffic + [event];
      clock := now;
      forall p, t ensures Tracks(p, t) {
        if kind == Limited(t) && p == peer {
        } else {
          assert old(Tracks(p, t));
        }
      }
    }
  }
}
