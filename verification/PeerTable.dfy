/** The table of known peers and its bound. */
module PeerTables {

  import opened Basics
  import opened OrderedDicts

  const MAX_PEER_TABLE: nat := 500

  datatype PeerEntry = PeerEntry(peerId: Bytes, publicKey: Bytes, isDirect: bool, endpoint: Option<Addr>, lastSeen: real,
                                 version: nat, nickname: Option<string>, signature: Option<Bytes>)

  type Peers = Dict<Bytes, PeerEntry>

  /** Eviction order: last seen earlier, then the lower version. */
  predicate Before(a: PeerEntry, b: PeerEntry) {
    a.lastSeen < b.lastSeen || (a.lastSeen == b.lastSeen && a.version < b.version)
  }

  /** The first non-direct peer from position `from` on that nothing comes before, or `best`. */
  function VictimFrom(ps: Peers, from: nat, best: Option<Bytes>): Option<Bytes>
    requires ps.Wf() && from <= |ps.keys| && (best.Some? ==> best.value in ps.at)
    decreases |ps.keys| - from
  {
    if from == |ps.keys| then best
    else
      var k := ps.keys[from];
      if !ps.at[k].isDirect && (best.None? || Before(ps.at[k], ps.at[best.value])) then VictimFrom(ps, from + 1, Some(k))
      else VictimFrom(ps, from + 1, best)
  }

  function Victim(ps: Peers): Option<Bytes>
    requires ps.Wf()
  {
    VictimFrom(ps, 0, None)
  }

  lemma {:induction false} VictimFromLeast(ps: Peers, from: nat, best: Option<Bytes>)
    requires ps.Wf() && from <= |ps.keys| && (best.Some? ==> best.value in ps.at && !ps.at[best.value].isDirect)
    ensures var v := VictimFrom(ps, from, best);
            && (v.Some? ==> v.value in ps.at && !ps.at[v.value].isDirect)
            && (best.Some? ==> v.Some? && !Before(ps.at[best.value], ps.at[v.value]))
            && forall i :: from <= i < |ps.keys| && !ps.at[ps.keys[i]].isDirect ==>
                 v.Some? && !Before(ps.at[ps.keys[i]], ps.at[v.value])
    decreases |ps.keys| - from
  {
    if from < |ps.keys| {
      var k := ps.keys[from];
      if !ps.at[k].isDirect && (best.None? || Before(ps.at[k], ps.at[best.value])) {
        VictimFromLeast(ps, from + 1, Some(k));
      } else {
        VictimFromLeast(ps, from + 1, best);
      }
    }
  }

  /** The evicted peer is not direct and nothing non-direct comes before it; without non-direct peers
      nobody is evicted. */
  lemma VictimIsLeast(ps: Peers)
    requires ps.Wf()
    ensures var v := Victim(ps);
            && (v.Some? ==> v.value in ps.at && !ps.at[v.value].isDirect)
            && (v.Some? ==> forall k :: k in ps.at && !ps.at[k].isDirect ==> !Before(ps.at[k], ps.at[v.value]))
            && (v.None? ==> forall k :: k in ps.at ==> ps.at[k].isDirect)
  {
    VictimFromLeast(ps, 0, None);
    forall k | k in ps.at && !ps.at[k].isDirect ensures Victim(ps).Some? && !Before(ps.at[k], ps.at[Victim(ps).value]) {
      var i :| 0 <= i < |ps.keys| && ps.keys[i] == k;
    }
  }

  function Evicted(ps: Peers): Peers
    requires ps.Wf()
  {
    var v := Victim(ps);
    VictimIsLeast(ps);
    if v.Some? then ps.Delete(v.value) else ps
  }

  /** A table with room: a full one loses a peer first. */
  function Room(ps: Peers): Peers
    requires ps.Wf()
  {
    if |ps.at| >= MAX_PEER_TABLE then Evicted(ps) else ps
  }

  datatype Event =
    | AddDirect(id: Bytes, key: Bytes, nickname: Option<string>, endpoint: Option<Addr>, now: real)
    | AddPeer(id: Bytes, key: Bytes, endpoint: Option<Addr>, now: real)
    | Remove(id: Bytes)
    | Promote(id: Bytes, key: Bytes, nickname: Option<string>, endpoint: Option<Addr>)   // an invite for a known peer
    | Touch(id: Bytes, now: real)

  function Added(ps: Peers, local: Bytes, e: Event): Peers
    requires e.AddPeer? && ps.Wf()
  {
    if e.id == local then ps
    else if e.id in ps.at then
      var seen := ps.at[e.id].(lastSeen := e.now);
      ps.Put(e.id, if e.endpoint.Some? then seen.(endpoint := e.endpoint) else seen)
    else Room(ps).Put(e.id, PeerEntry(e.id, e.key, false, e.endpoint, e.now, 0, None, None))
  }

  function Next(ps: Peers, local: Bytes, e: Event): Peers
    requires ps.Wf()
  {
    match e
    case AddDirect(id, key, nickname, endpoint, now) =>
      if id == local then ps else ps.Put(id, PeerEntry(id, key, true, endpoint, now, 0, nickname, None))
    case AddPeer(_, _, _, _) => Added(ps, local, e)
    case Remove(id) => ps.Delete(id)
    case Promote(id, key, nickname, endpoint) =>
      if id !in ps.at then ps
      else
        var x := ps.at[id].(isDirect := true, publicKey := key);
        ps.Put(id, x.(nickname := if nickname.Some? then nickname else x.nickname,
                      endpoint := if endpoint.Some? then endpoint else x.endpoint))
    case Touch(id, now) => if id in ps.at then ps.Put(id, ps.at[id].(lastSeen := now)) else ps
  }

  ghost function NonDirect(ps: Peers): set<Bytes> {
    set k | k in ps.at && !ps.at[k].isDirect
  }

  /** Keys are their entries' ids, this node is not in its own table, and at most 500 entries are not direct. */
  ghost predicate TableInv(ps: Peers, local: Bytes) {
    && ps.Wf() && local !in ps.at
    && (forall k :: k in ps.at ==> ps.at[k].peerId == k)
    && |NonDirect(ps)| <= MAX_PEER_TABLE
  }

  /** Room for one more non-direct peer, found or made. */
  lemma RoomMade(ps: Peers, local: Bytes)
    requires TableInv(ps, local)
    ensures var room := Room(ps);
            TableInv(room, local) && |NonDirect(room)| < MAX_PEER_TABLE && room.at.Keys <= ps.at.Keys &&
            (forall k :: k in room.at ==> room.at[k] == ps.at[k]) &&
            (forall k :: k in ps.at && ps.at[k].isDirect ==> k in room.at)
  {
    VictimIsLeast(ps);
    var room := Room(ps);
    if |ps.at| < MAX_PEER_TABLE {
      SubsetSize(NonDirect(ps), ps.at.Keys);
    } else if Victim(ps).Some? {
      assert NonDirect(room) == NonDirect(ps) - {Victim(ps).value};
    } else {
      assert NonDirect(ps) == {};
    }
  }

  lemma PutNew(room: Peers, local: Bytes, x: PeerEntry)
    requires TableInv(room, local) && |NonDirect(room)| < MAX_PEER_TABLE && x.peerId != local && !x.isDirect
    ensures TableInv(room.Put(x.peerId, x), local)
  {
    var t := room.Put(x.peerId, x);
    assert NonDirect(t) == NonDirect(room) + {x.peerId};
  }

  lemma PutKnown(ps: Peers, local: Bytes, x: PeerEntry)
    requires TableInv(ps, local) && x.peerId in ps.at && x.isDirect == ps.at[x.peerId].isDirect
    ensures TableInv(ps.Put(x.peerId, x), local)
  {
    assert NonDirect(ps.Put(x.peerId, x)) == NonDirect(ps);
  }

  lemma AddKeeps(ps: Peers, local: Bytes, e: Event)
    requires TableInv(ps, local) && e.AddPeer?
    ensures TableInv(Added(ps, local, e), local)
  {
    if e.id == local {
    } else if e.id in ps.at {
      var seen := ps.at[e.id].(lastSeen := e.now);
      PutKnown(ps, local, if e.endpoint.Some? then seen.(endpoint := e.endpoint) else seen);
    } else {
      RoomMade(ps, local);
      PutNew(Room(ps), local, PeerEntry(e.id, e.key, false, e.endpoint, e.now, 0, None, None));
    }
  }

  lemma Step(ps: Peers, local: Bytes, e: Event)
    requires TableInv(ps, local)
    ensures TableInv(Next(ps, local, e), local)
  {
    var t := Next(ps, local, e);
    match e {
      case AddPeer(_, _, _, _) => AddKeeps(ps, local, e);
      case Touch(id, _) => assert NonDirect(t) == NonDirect(ps);
      case _ =>
        assert NonDirect(t) <= NonDirect(ps);
        SubsetSize(NonDirect(t), NonDirect(ps));
    }
  }

  /** A direct contact stays, and stays direct, through every event but its own removal. */
  lemma DirectStays(ps: Peers, local: Bytes, e: Event, id: Bytes)
    requires TableInv(ps, local) && id in ps.at && ps.at[id].isDirect && e != Remove(id)
    ensures id in Next(ps, local, e).at && Next(ps, local, e).at[id].isDirect
  {
    if e.AddPeer? && e.id != local && e.id !in ps.at {
      RoomMade(ps, local);
    }
  }

  ghost predicate Legal(ps: Peers, local: Bytes, es: seq<Event>)
    decreases |es|
  {
    es == [] || (ps.Wf() && Legal(Next(ps, local, es[0]), local, es[1..]))
  }

  ghost function After(ps: Peers, local: Bytes, es: seq<Event>): Peers
    requires Legal(ps, local, es)
    decreases |es|
  {
    if es == [] then ps else After(Next(ps, local, es[0]), local, es[1..])
  }

  /** Peer table bound: over every run of additions, removals, promotions and sightings the table keeps
      at most 500 non-direct entries, keys equal to their entries' ids and never this node's own id;
      and a direct contact that no event of the run removes is still there. */
  lemma {:induction false} TableRun(ps: Peers, local: Bytes, es: seq<Event>, contact: Bytes)
    requires TableInv(ps, local)
    ensures Legal(ps, local, es) && TableInv(After(ps, local, es), local)
    ensures contact in ps.at && ps.at[contact].isDirect && Remove(contact) !in es ==>
              contact in After(ps, local, es).at && After(ps, local, es).at[contact].isDirect
    decreases |es|
  {
    if es != [] {
      Step(ps, local, es[0]);
      if contact in ps.at && ps.at[contact].isDirect && Remove(contact) !in es {
        DirectStays(ps, local, es[0], contact);
      }
      TableRun(Next(ps, local, es[0]), local, es[1..], contact);
    }
  }

  /** The table as a whole is not bounded by 500: adding an unknown peer ends with at most 500 entries
      exactly when there was room, or the table was just full and had someone to evict. */
  lemma TableSizeExact(ps: Peers, local: Bytes, e: Event)
    requires TableInv(ps, local) && e.AddPeer? && e.id != local && e.id !in ps.at
    ensures |Added(ps, local, e).at| <= MAX_PEER_TABLE <==>
            |ps.at| < MAX_PEER_TABLE || (|ps.at| == MAX_PEER_TABLE && NonDirect(ps) != {})
  {
    RoomSize(ps, local);
    PutSize(Room(ps), e.id, PeerEntry(e.id, e.key, false, e.endpoint, e.now, 0, None, None));
  }

  lemma PutSize(room: Peers, id: Bytes, x: PeerEntry)
    requires id !in room.at
    ensures |room.Put(id, x).at| == |room.at| + 1
  {
    assert room.Put(id, x).at.Keys == room.at.Keys + {id};
  }

  lemma RoomSize(ps: Peers, local: Bytes)
    requires TableInv(ps, local)
    ensures |Room(ps).at| == |ps.at| - (if |ps.at| >= MAX_PEER_TABLE && NonDirect(ps) != {} then 1 else 0)
    ensures Room(ps).at.Keys <= ps.at.Keys
  {
    VictimIsLeast(ps);
    if |ps.at| >= MAX_PEER_TABLE {
      if Victim(ps).Some? {
        assert Room(ps).at.Keys == ps.at.Keys - {Victim(ps).value};
        assert Victim(ps).value in NonDirect(ps);
      } else {
        assert NonDirect(ps) == {};
      }
    }
  }

  class PeerTable {
    const localId: Bytes
    var peers: Peers

    ghost predicate Valid()
      reads this
    {
      TableInv(peers, localId)
    }

    constructor (localId: Bytes)
      ensures Valid() && this.localId == localId && peers == Empty()
    {
      this.localId := localId;
      peers := Empty();
      new;
      assert NonDirect(peers) == {};
    }

    method AddDirectPeer(id: Bytes, key: Bytes, nickname: Option<string>, endpoint: Option<Addr>, now: real)
      requires Valid()
      modifies this
      ensures Valid() && peers == Next(old(peers), localId, AddDirect(id, key, nickname, endpoint, now))
    {
      Step(peers, localId, AddDirect(id, key, nickname, endpoint, now));
      if id == localId {
        return;
      }
      peers := peers.Put(id, PeerEntry(id, key, true, endpoint, now, 0, nickname, None));
    }

    method AddPeerEntry(id: Bytes, key: Bytes, endpoint: Option<Addr>, now: real)
      requires Valid()
      modifies this
      ensures Valid() && peers == Next(old(peers), localId, AddPeer(id, key, endpoint, now))
    {
      Step(peers, localId, AddPeer(id, key, endpoint, now));
      if id == localId {
        return;
      }
      if id in peers.at {
        var entry := peers.at[id].(lastSeen := now);
        if endpoint.Some? {
          entry := entry.(endpoint := endpoint);
        }
        peers := peers.Put(id, entry);
        return;
      }
      if |peers.at| >= MAX_PEER_TABLE {
        Evict();
      }
      peers := peers.Put(id, PeerEntry(id, key, false, endpoint, now, 0, None, None));
    }

    /** Removes the first non-direct peer with the least (last seen, version), if there is one. */
    method Evict()
      requires peers.Wf()
      modifies this
      ensures peers == Evicted(old(peers)) && peers.Wf()
    {
      var best: Option<Bytes> := None;
      var i := 0;
      while i < |peers.keys|
        invariant i <= |peers.keys| && peers == old(peers)
        invariant best.Some? ==> best.value in peers.at
        invariant VictimFrom(peers, i, best) == Victim(peers)
      {
        var k := peers.keys[i];
        if !peers.at[k].isDirect && (best.None? || Before(peers.at[k], peers.at[best.value])) {
          best := Some(k);
        }
        i := i + 1;
      }
      if best.Some? {
        peers := peers.Delete(best.value);
      }
    }

    method RemovePeer(id: Bytes)
      requires Valid()
      modifies this
      ensures Valid() && peers == Next(old(peers), localId, Remove(id))
    {
      Step(peers, localId, Remove(id));
      peers := peers.Delete(id);
    }

    /** An invite for a known peer makes it direct; a stored nickname and the invite's endpoint replace the old ones. */
    method PromotePeer(id: Bytes, key: Bytes, nickname: Option<string>, endpoint: Option<Addr>)
      requires Valid()
      modifies this
      ensures Valid() && peers == Next(old(peers), localId, Promote(id, key, nickname, endpoint))
    {
      Step(peers, localId, Promote(id, key, nickname, endpoint));
      if id in peers.at {
        var entry := peers.at[id].(isDirect := true, publicKey := key);
        if nickname.Some? {
          entry := entry.(nickname := nickname);
        }
        if endpoint.Some? {
          entry := entry.(endpoint := endpoint);
        }
        peers := peers.Put(id, entry);
      }
    }

    method UpdateLastSeen(id: Bytes, now: real)
      requires Valid()
      modifies this
      ensures Valid() && peers == Next(old(peers), localId, Touch(id, now))
    {
      Step(peers, localId, Touch(id, now));
      if id in peers.at {
        peers := peers.Put(id, peers.at[id].(lastSeen := now));
      }
    }
  }
}
