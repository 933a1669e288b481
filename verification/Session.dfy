/** Session counters and the registry of live sessions. */
module Sessions {

  import opened Basics

  const MAX_SESSIONS: nat := 100

  /** One session's identity, key and two counters, as a value. */
  datatype SessionState = SessionState(sessionId: Bytes, key: Bytes, peer: Bytes, send: nat, recv: nat)

  /** Counters saved before a restart: the next number to send, and the highest number received. */
  datatype Floors = Floors(send: nat, recv: nat)

  function Max(a: nat, b: nat): nat {
    if a < b then b else a
  }

  /** A fresh session raised to the saved floors. */
  function WithFloors(s: SessionState, floors: Option<Floors>): SessionState {
    match floors
    case None => s
    case Some(f) => s.(send := Max(f.send, s.send), recv := Max(f.recv, s.recv))
  }

  class Session {
    const sessionId: Bytes
    const encryptionKey: Bytes
    const remotePeerId: Bytes
    var sendSequence: nat
    var recvSequence: nat

    function State(): SessionState
      reads this
    {
      SessionState(sessionId, encryptionKey, remotePeerId, sendSequence, recvSequence)
    }

    constructor (sessionId: Bytes, encryptionKey: Bytes, remotePeerId: Bytes)
      ensures State() == SessionState(sessionId, encryptionKey, remotePeerId, 1, 0)
    {
      this.sessionId := sessionId;
      this.encryptionKey := encryptionKey;
      this.remotePeerId := remotePeerId;
      sendSequence := 1;
      recvSequence := 0;
    }

    method NextSequence() returns (number: nat)
      modifies this`sendSequence
      ensures number == old(sendSequence)
      ensures State() == old(State()).(send := number + 1)
    {
      number := sendSequence;
      sendSequence := sendSequence + 1;
    }

    predicate CheckRecvSequence(number: nat)
      reads this
    {
      number > recvSequence
    }

    method AdvanceRecvSequence(number: nat)
      modifies this`recvSequence
      ensures State() == old(State()).(recv := Max(old(recvSequence), number))
    {
      if number > recvSequence {
        recvSequence := number;
      }
    }

    method ValidateRecvSequence(number: nat) returns (fresh_: bool)
      modifies this`recvSequence
      ensures fresh_ <==> number > old(recvSequence)
      ensures State() == old(State()).(recv := Max(old(recvSequence), number))
    {
      if !CheckRecvSequence(number) {
        return false;
      }
      AdvanceRecvSequence(number);
      return true;
    }
  }

  type Index = map<Bytes, Session>

  /** Every session found by its id is the one found by its peer, and the other way round. */
  ghost predicate Agree(bySession: Index, byPeer: Index) {
    && (forall id :: id in bySession ==> bySession[id].sessionId == id)
    && (forall p :: p in byPeer ==> byPeer[p].remotePeerId == p)
    && (forall id :: id in bySession ==> Listed(byPeer, bySession[id].remotePeerId, bySession[id]))
    && (forall p :: p in byPeer ==> Listed(bySession, byPeer[p].sessionId, byPeer[p]))
  }

  predicate Listed(index: Index, key: Bytes, session: Session) {
    key in index && index[key] == session
  }

  /** The session-id index after a registration: the peer's previous session is dropped first. */
  function Registered(bySession: Index, byPeer: Index, s: Session): Index {
    (if s.remotePeerId in byPeer then bySession - {byPeer[s.remotePeerId].sessionId} else bySession)[s.sessionId := s]
  }

  /** Registering keeps the two indexes in agreement exactly when the new session id is not
      already the id of a session with another peer. */
  lemma RegisterAgrees(bySession: Index, byPeer: Index, s: Session)
    requires Agree(bySession, byPeer)
    ensures Agree(Registered(bySession, byPeer, s), byPeer[s.remotePeerId := s]) <==>
            (s.sessionId in bySession ==> bySession[s.sessionId].remotePeerId == s.remotePeerId)
  {
    var ids, peers := Registered(bySession, byPeer, s), byPeer[s.remotePeerId := s];
    if s.sessionId in bySession && bySession[s.sessionId].remotePeerId != s.remotePeerId {
      var other := bySession[s.sessionId];
      assert Listed(byPeer, other.remotePeerId, other);
      assert !Listed(ids, peers[other.remotePeerId].sessionId, other);
    } else {
      forall p | p in peers ensures Listed(ids, peers[p].sessionId, peers[p]) {
        if p != s.remotePeerId {
          assert Listed(bySession, byPeer[p].sessionId, byPeer[p]);
        }
      }
      forall id | id in ids ensures Listed(peers, ids[id].remotePeerId, ids[id]) {
        if id != s.sessionId {
          assert Listed(byPeer, bySession[id].remotePeerId, bySession[id]);
        }
      }
    }
  }

  /** Registration never grows the index past one more session than it held. */
  lemma RegisterGrowth(bySession: Index, byPeer: Index, s: Session)
    ensures |Registered(bySession, byPeer, s)| <= |bySession| + 1
  {
    if s.remotePeerId in byPeer {
      var previous := byPeer[s.remotePeerId].sessionId;
      RemovalSize(bySession, previous);
      UpdateSize(bySession - {previous}, s.sessionId, s);
    } else {
      UpdateSize(bySession, s.sessionId, s);
    }
  }

  lemma RemoveAgrees(bySession: Index, byPeer: Index, sessionId: Bytes)
    requires Agree(bySession, byPeer) && sessionId in bySession
    ensures Agree(bySession - {sessionId}, byPeer - {bySession[sessionId].remotePeerId})
    ensures |bySession - {sessionId}| <= |bySession|
  {
    var session := bySession[sessionId];
    RemovalSize(bySession, sessionId);
    forall id | id in bySession - {sessionId}
      ensures Listed(byPeer - {session.remotePeerId}, bySession[id].remotePeerId, bySession[id])
    {
      assert Listed(byPeer, bySession[id].remotePeerId, bySession[id]);
      assert Listed(byPeer, session.remotePeerId, session);
    }
    forall p | p in byPeer - {session.remotePeerId}
      ensures Listed(bySession - {sessionId}, byPeer[p].sessionId, byPeer[p])
    {
      assert Listed(bySession, byPeer[p].sessionId, byPeer[p]);
    }
  }

  class SessionRegistry {
    var bySession: Index
    var byPeer: Index

    ghost predicate Valid()
      reads this
    {
      Agree(bySession, byPeer) && |bySession| <= MAX_SESSIONS
    }

    constructor ()
      ensures Valid() && bySession == map[] && byPeer == map[]
    {
      bySession := map[];
      byPeer := map[];
    }

    /** Registers a session unless the registry is full; a full registry refuses even a replacement. */
    method Register(session: Session) returns (ok: bool)
      modifies this
      ensures ok <==> old(|bySession|) < MAX_SESSIONS
      ensures ok ==> bySession == Registered(old(bySession), old(byPeer), session)
      ensures ok ==> byPeer == old(byPeer)[session.remotePeerId := session]
      ensures !ok ==> bySession == old(bySession) && byPeer == old(byPeer)
      ensures ok ==> |bySession| <= MAX_SESSIONS
      ensures ok && old(Valid()) ==>
                     (Valid() <==>
                      (session.sessionId in old(bySession) ==>
                         old(bySession)[session.sessionId].remotePeerId == session.remotePeerId))
    {
      if |bySession| >= MAX_SESSIONS {
        return false;
      }
      if Valid() {
        RegisterAgrees(bySession, byPeer, session);
      }
      RegisterGrowth(bySession, byPeer, session);
      if session.remotePeerId in byPeer {
        var stale := byPeer[session.remotePeerId];
        bySession := bySession - {stale.sessionId};
      }
      bySession := bySession[session.sessionId := session];
      byPeer := byPeer[session.remotePeerId := session];
      return true;
    }

    method Remove(sessionId: Bytes)
      modifies this
      ensures old(Valid()) ==> Valid()
      ensures bySession == old(bySession) - {sessionId}
      ensures byPeer == if sessionId in old(bySession) then old(byPeer) - {old(bySession)[sessionId].remotePeerId}
                        else old(byPeer)
    {
      if sessionId in bySession {
        var session := bySession[sessionId];
        if Valid() {
          RemoveAgrees(bySession, byPeer, sessionId);
        }
        bySession := bySession - {sessionId};
        byPeer := byPeer - {session.remotePeerId};
      } else {
        assert bySession == bySession - {sessionId};
      }
    }
  }

  /** The saved floors of a node, applied once per peer after a restart. */
  class SequenceFloors {
    var floors: map<Bytes, Floors>

    constructor (saved: map<Bytes, Floors>)
      ensures floors == saved
    {
      floors := saved;
    }

    /** Raises a new session to its peer's floors and forgets them. */
    method Apply(session: Session)
      requires this as object != session
      modifies this, session
      ensures session.State() ==
              WithFloors(old(session.State()),
                         if session.remotePeerId in old(floors) then Some(old(floors)[session.remotePeerId]) else None)
      ensures floors == old(floors) - {session.remotePeerId}
    {
      if session.remotePeerId !in floors {
        assert floors == floors - {session.remotePeerId};
        return;
      }
      var floor := floors[session.remotePeerId];
      if floor.send > session.sendSequence {
        session.sendSequence := floor.send;
      }
      if floor.recv > session.recvSequence {
        session.recvSequence := floor.recv;
      }
      floors := floors - {session.remotePeerId};
    }
  }
}
