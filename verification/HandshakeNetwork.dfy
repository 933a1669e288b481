/** Any number of nodes, any number of connection attempts, and a network that may lose, repeat,
    delay and misdeliver genuine HELLO and HELLO_ACK packets. Each handler is one step. */
module HandshakeNetwork {

  import opened Basics
  import opened Sessions
  import opened Handshakes

  /** Pending attempts and sessions are kept by remote peer id; nodes are named by identity key. */
  datatype NodeState = NodeState(pending: map<Bytes, HandshakeState>, sessions: map<Bytes, SessionKeys>, contacts: set<Bytes>)

  /** A HELLO some node made, the peer it was meant for, and the state kept for it. */
  datatype Issue = Issue(initiator: Bytes, target: Bytes, hello: Hello, state: HandshakeState)

  /** A session some node derived as responder, with the acknowledgement it sent. */
  datatype Derivation = Derivation(responder: Bytes, hello: Hello, priv: Bytes, ack: HelloAck, keys: SessionKeys)

  /** A session some node installed as initiator. */
  datatype Install = Install(initiator: Bytes, state: HandshakeState, keys: SessionKeys)

  datatype Net = Net(nodes: map<Bytes, NodeState>, issues: set<Issue>, derivations: set<Derivation>, installs: set<Install>)

  datatype Event =
    | Connect(node: Bytes, target: Bytes, priv: Bytes, nonce: Bytes)
    | HelloArrives(node: Bytes, issue: Issue, priv: Bytes, nonce: Bytes, sid: Bytes)
    | AckArrives(node: Bytes, derivation: Derivation)
    | GiveUp(node: Bytes, target: Bytes)
    | Drop(node: Bytes, peer: Bytes)
    | AddContact(node: Bytes, peer: Bytes)

  /** Random values have their length, and an initiator's ephemeral key was never seen before. */
  ghost predicate Enabled(c: Suite, s: Net, e: Event) {
    && e.node in s.nodes
    && match e
       case Connect(_, _, priv, nonce) => |nonce| == 16 && forall i :: i in s.issues ==> i.hello.ephemeralKey != c.publicOf(priv)
       case HelloArrives(_, issue, _, nonce, sid) => issue in s.issues && |nonce| == 16 && |sid| == 8
       case AckArrives(_, d) => d in s.derivations
       case _ => true
  }

  function Connected(c: Suite, s: Net, e: Event): Net
    requires e.Connect? && e.node in s.nodes
  {
    var me := s.nodes[e.node];
    if e.target in me.sessions || e.target in me.pending then s
    else
      var (hello, state) := CreateHello(c, e.node, e.priv, e.nonce);
      s.(nodes := s.nodes[e.node := me.(pending := me.pending[e.target := state])],
         issues := s.issues + {Issue(e.node, e.target, hello, state)})
  }

  /** A node yields to an incoming HELLO unless it has a session already, or waits on its own HELLO
      and has the lower peer id. */
  predicate Ignores(c: Suite, node: Bytes, me: NodeState, remote: Bytes) {
    remote in me.sessions || (remote in me.pending && Less(c.peerIdOf(node), remote))
  }

  function HelloHandled(c: Suite, s: Net, e: Event): Net
    requires e.HelloArrives? && e.node in s.nodes
  {
    var me, hello := s.nodes[e.node], e.issue.hello;
    var remote := c.peerIdOf(hello.identityKey);
    if Ignores(c, e.node, me, remote) then s
    else
      var contacts := if remote == c.peerIdOf(e.node) then me.contacts else me.contacts + {remote};
      var yielded := me.(pending := me.pending - {remote}, contacts := contacts);
      match ProcessHello(c, hello, contacts, e.node, e.priv, e.nonce, e.sid)
      case None => s.(nodes := s.nodes[e.node := yielded])
      case Some((ack, keys)) =>
        var registered := if |me.sessions| < MAX_SESSIONS then yielded.(sessions := me.sessions[remote := keys]) else yielded;
        s.(nodes := s.nodes[e.node := registered],
           derivations := s.derivations + {Derivation(e.node, hello, e.priv, ack, keys)})
  }

  function AckHandled(c: Suite, s: Net, e: Event): Net
    requires e.AckArrives? && e.node in s.nodes
  {
    var me, ack := s.nodes[e.node], e.derivation.ack;
    var remote := c.peerIdOf(ack.identityKey);
    if remote !in me.pending then s
    else
      var state, popped := me.pending[remote], me.(pending := me.pending - {remote});
      var dropped := s.(nodes := s.nodes[e.node := popped]);
      if remote in me.sessions then dropped
      else match ProcessHelloAck(c, ack, state, me.contacts)
        case None => dropped
        case Some(keys) =>
          if |me.sessions| >= MAX_SESSIONS then dropped
          else s.(nodes := s.nodes[e.node := popped.(sessions := me.sessions[remote := keys])],
                  installs := s.installs + {Install(e.node, state, keys)})
  }

  function Next(c: Suite, s: Net, e: Event): Net
    requires e.node in s.nodes
  {
    var me := s.nodes[e.node];
    match e
    case Connect(_, _, _, _) => Connected(c, s, e)
    case HelloArrives(_, _, _, _, _) => HelloHandled(c, s, e)
    case AckArrives(_, _) => AckHandled(c, s, e)
    case GiveUp(node, target) =>
      if target in me.sessions then s else s.(nodes := s.nodes[node := me.(pending := me.pending - {target})])
    case Drop(node, peer) => s.(nodes := s.nodes[node := me.(sessions := me.sessions - {peer})])
    case AddContact(node, peer) => s.(nodes := s.nodes[node := me.(contacts := me.contacts + {peer})])
  }

  ghost predicate Legal(c: Suite, s: Net, es: seq<Event>)
    decreases |es|
  {
    es == [] || (Enabled(c, s, es[0]) && Legal(c, Next(c, s, es[0]), es[1..]))
  }

  ghost function After(c: Suite, s: Net, es: seq<Event>): Net
    requires Legal(c, s, es)
    decreases |es|
  {
    if es == [] then s else After(c, Next(c, s, es[0]), es[1..])
  }

  /** Nobody has started anything yet. */
  ghost predicate Initial(s: Net) {
    && s.issues == {} && s.derivations == {} && s.installs == {}
    && (forall n :: n in s.nodes ==> s.nodes[n].pending == map[] && s.nodes[n].sessions == map[])
  }

  // ---- invariant

  ghost predicate Issued(c: Suite, i: Issue) {
    && |i.state.nonce| == 16
    && (i.hello, i.state) == CreateHello(c, i.initiator, i.state.ephemeralPrivate, i.state.nonce)
  }

  /** Some HELLO of this initiator, meant for this peer, left this state. */
  ghost predicate Kept(s: Net, node: Bytes, target: Bytes, state: HandshakeState) {
    exists i :: i in s.issues && i.initiator == node && i.target == target && i.state == state
  }

  ghost predicate Derived(c: Suite, s: Net, d: Derivation) {
    && |d.ack.sessionId| == 8
    && (d.ack, d.keys) == Respond(c, d.hello, d.responder, d.priv, d.ack.nonce, d.ack.sessionId)
    && exists i :: i in s.issues && i.hello == d.hello
  }

  /** The responder derived a session for exactly this initiator's HELLO, with the same id and key
      and the identities crossed. */
  ghost predicate Matches(c: Suite, k: Install, i: Issue, d: Derivation) {
    && i.initiator == k.initiator && i.state == k.state && d.hello == i.hello
    && k.keys.sessionId == d.keys.sessionId && k.keys.key == d.keys.key
    && k.keys.peer == c.peerIdOf(d.responder) && d.keys.peer == c.peerIdOf(k.initiator)
  }

  ghost predicate Matched(c: Suite, s: Net, k: Install) {
    exists i, d :: i in s.issues && d in s.derivations && Matches(c, k, i, d)
  }

  /** Where a session with a peer came from. */
  ghost predicate Sourced(c: Suite, s: Net, node: Bytes, keys: SessionKeys) {
    || (exists d :: d in s.derivations && d.responder == node && d.keys == keys)
    || (exists k :: k in s.installs && k.initiator == node && k.keys == keys)
  }

  ghost predicate HistoryInv(c: Suite, s: Net) {
    && (forall i :: i in s.issues ==> Issued(c, i))
    && (forall i, j :: i in s.issues && j in s.issues && i.hello.ephemeralKey == j.hello.ephemeralKey ==> i == j)
    && (forall d :: d in s.derivations ==> Derived(c, s, d))
    && (forall k :: k in s.installs ==> Matched(c, s, k))
  }

  ghost predicate NodeInv(c: Suite, s: Net, n: Bytes, me: NodeState) {
    && (forall t :: t in me.pending ==> Kept(s, n, t, me.pending[t]))
    && (forall p :: p in me.sessions ==> Sourced(c, s, n, me.sessions[p]))
  }

  ghost predicate Inv(c: Suite, s: Net) {
    HistoryInv(c, s) && forall n :: n in s.nodes ==> NodeInv(c, s, n, s.nodes[n])
  }

  /** History only grows, so what it justified stays justified. */
  ghost predicate Grows(s: Net, t: Net) {
    s.issues <= t.issues && s.derivations <= t.derivations && s.installs <= t.installs
  }

  lemma GrowsKeeps(c: Suite, s: Net, t: Net)
    requires Grows(s, t)
    ensures forall d :: Derived(c, s, d) ==> Derived(c, t, d)
    ensures forall n, x, st :: Kept(s, n, x, st) ==> Kept(t, n, x, st)
    ensures forall k :: Matched(c, s, k) ==> Matched(c, t, k)
    ensures forall n, keys :: Sourced(c, s, n, keys) ==> Sourced(c, t, n, keys)
  {
    forall d | Derived(c, s, d) ensures Derived(c, t, d) {
      var i :| i in s.issues && i.hello == d.hello;
      assert i in t.issues;
    }
    forall n, x, st | Kept(s, n, x, st) ensures Kept(t, n, x, st) {
      var i :| i in s.issues && i.initiator == n && i.target == x && i.state == st;
      assert i in t.issues;
    }
    forall k | Matched(c, s, k) ensures Matched(c, t, k) {
      var i, d :| i in s.issues && d in s.derivations && Matches(c, k, i, d);
      assert i in t.issues && d in t.derivations;
    }
    forall n, keys | Sourced(c, s, n, keys) ensures Sourced(c, t, n, keys) {
      if d :| d in s.derivations && d.responder == n && d.keys == keys {
        assert d in t.derivations;
      } else {
        var k :| k in s.installs && k.initiator == n && k.keys == keys;
        assert k in t.installs;
      }
    }
  }

  /** The heart of it: an accepted acknowledgement answers the very HELLO the state belongs to. */
  lemma AckMatches(c: Suite, s: Net, node: Bytes, target: Bytes, state: HandshakeState, d: Derivation, known: set<Bytes>)
    requires Sound(c) && Inv(c, s) && d in s.derivations && Kept(s, node, target, state)
    requires ProcessHelloAck(c, d.ack, state, known).Some?
    ensures var keys := ProcessHelloAck(c, d.ack, state, known).value;
            exists i :: i in s.issues && Matches(c, Install(node, state, keys), i, d)
  {
    var i :| i in s.issues && i.initiator == node && i.target == target && i.state == state;
    assert Derived(c, s, d) && Issued(c, i);
    var j :| j in s.issues && j.hello == d.hello;
    assert Issued(c, j);
    AckSignedParts(d.ack.sessionId, d.ack.ephemeralKey, d.hello.ephemeralKey, d.hello.nonce,
                   d.ack.sessionId, d.ack.ephemeralKey, state.ephemeralPublic, state.nonce);
    assert i == j;
    assert c.exchange(state.ephemeralPrivate, c.publicOf(d.priv)) == c.exchange(d.priv, c.publicOf(state.ephemeralPrivate));
    assert Matches(c, Install(node, state, ProcessHelloAck(c, d.ack, state, known).value), i, d);
  }

  lemma NodeChange(c: Suite, s: Net, t: Net, node: Bytes, me: NodeState)
    requires forall n :: n in s.nodes ==> NodeInv(c, s, n, s.nodes[n])
    requires Grows(s, t) && t.nodes == s.nodes[node := me] && NodeInv(c, t, node, me)
    ensures forall n :: n in t.nodes ==> NodeInv(c, t, n, t.nodes[n])
  {
    GrowsKeeps(c, s, t);
    forall n | n in t.nodes ensures NodeInv(c, t, n, t.nodes[n]) {
      if n != node {
        assert NodeInv(c, s, n, s.nodes[n]) && t.nodes[n] == s.nodes[n];
      }
    }
  }

  /** A node that only loses pending attempts or sessions keeps its standing. */
  lemma NodeShrinks(c: Suite, s: Net, t: Net, n: Bytes, me: NodeState, less: NodeState)
    requires NodeInv(c, s, n, me) && Grows(s, t)
    requires forall x :: x in less.pending ==> x in me.pending && less.pending[x] == me.pending[x]
    requires forall p :: p in less.sessions ==> p in me.sessions && less.sessions[p] == me.sessions[p]
    ensures NodeInv(c, t, n, less)
  {
    GrowsKeeps(c, s, t);
  }

  /** A new issue with a fresh ephemeral key keeps the history sound. */
  lemma IssueHistory(c: Suite, s: Net, t: Net, i: Issue)
    requires HistoryInv(c, s) && Issued(c, i) && forall j :: j in s.issues ==> j.hello.ephemeralKey != i.hello.ephemeralKey
    requires t.issues == s.issues + {i} && t.derivations == s.derivations && t.installs == s.installs
    ensures HistoryInv(c, t)
  {
    GrowsKeeps(c, s, t);
  }

  lemma DerivationHistory(c: Suite, s: Net, t: Net, d: Derivation)
    requires HistoryInv(c, s) && Derived(c, s, d)
    requires t.issues == s.issues && t.derivations == s.derivations + {d} && t.installs == s.installs
    ensures HistoryInv(c, t)
  {
    GrowsKeeps(c, s, t);
  }

  lemma InstallHistory(c: Suite, s: Net, t: Net, k: Install)
    requires HistoryInv(c, s) && Matched(c, s, k)
    requires t.issues == s.issues && t.derivations == s.derivations && t.installs == s.installs + {k}
    ensures HistoryInv(c, t)
  {
    GrowsKeeps(c, s, t);
  }

  lemma SameHistory(c: Suite, s: Net, t: Net)
    requires HistoryInv(c, s)
    requires t.issues == s.issues && t.derivations == s.derivations && t.installs == s.installs
    ensures HistoryInv(c, t)
  {
    GrowsKeeps(c, s, t);
  }

  lemma PendingAdded(c: Suite, s: Net, t: Net, n: Bytes, me: NodeState, target: Bytes, i: Issue)
    requires NodeInv(c, s, n, me) && Grows(s, t) && i in t.issues && i.initiator == n && i.target == target
    ensures NodeInv(c, t, n, me.(pending := me.pending[target := i.state]))
  {
    NodeShrinks(c, s, t, n, me, me);
    assert Kept(t, n, target, i.state);
  }

  /** A session that history accounts for may be added to a node that loses pending attempts. */
  lemma SessionAdded(c: Suite, s: Net, t: Net, n: Bytes, me: NodeState, less: NodeState, peer: Bytes, keys: SessionKeys)
    requires NodeInv(c, s, n, me) && Grows(s, t) && Sourced(c, t, n, keys)
    requires less.sessions == me.sessions
    requires forall x :: x in less.pending ==> x in me.pending && less.pending[x] == me.pending[x]
    ensures NodeInv(c, t, n, less.(sessions := me.sessions[peer := keys]))
  {
    NodeShrinks(c, s, t, n, me, less);
  }

  lemma ConnectStep(c: Suite, s: Net, e: Event)
    requires Inv(c, s) && Enabled(c, s, e) && e.Connect?
    ensures Inv(c, Connected(c, s, e))
  {
    var t, me := Connected(c, s, e), s.nodes[e.node];
    if !(e.target in me.sessions || e.target in me.pending) {
      var (hello, state) := CreateHello(c, e.node, e.priv, e.nonce);
      var i := Issue(e.node, e.target, hello, state);
      IssueHistory(c, s, t, i);
      PendingAdded(c, s, t, e.node, me, e.target, i);
      NodeChange(c, s, t, e.node, me.(pending := me.pending[e.target := state]));
    }
  }

  lemma HelloStep(c: Suite, s: Net, e: Event)
    requires Inv(c, s) && Enabled(c, s, e) && e.HelloArrives?
    ensures Inv(c, HelloHandled(c, s, e))
  {
    var t, me := HelloHandled(c, s, e), s.nodes[e.node];
    var remote := c.peerIdOf(e.issue.hello.identityKey);
    if !Ignores(c, e.node, me, remote) {
      var contacts := if remote == c.peerIdOf(e.node) then me.contacts else me.contacts + {remote};
      var yielded := me.(pending := me.pending - {remote}, contacts := contacts);
      if ProcessHello(c, e.issue.hello, contacts, e.node, e.priv, e.nonce, e.sid).None? {
        SameHistory(c, s, t);
        NodeShrinks(c, s, t, e.node, me, yielded);
        NodeChange(c, s, t, e.node, yielded);
      } else {
        var (ack, keys) := Respond(c, e.issue.hello, e.node, e.priv, e.nonce, e.sid);
        var d := Derivation(e.node, e.issue.hello, e.priv, ack, keys);
        assert t.derivations == s.derivations + {d};
        DerivationHistory(c, s, t, d);
        assert d in t.derivations;
        SessionAdded(c, s, t, e.node, me, yielded, remote, keys);
        NodeShrinks(c, s, t, e.node, me, yielded);
        NodeChange(c, s, t, e.node, t.nodes[e.node]);
      }
    }
  }

  lemma AckStep(c: Suite, s: Net, e: Event)
    requires Sound(c) && Inv(c, s) && Enabled(c, s, e) && e.AckArrives?
    ensures Inv(c, AckHandled(c, s, e))
  {
    var t, me := AckHandled(c, s, e), s.nodes[e.node];
    var remote := c.peerIdOf(e.derivation.ack.identityKey);
    if remote in me.pending {
      var state, popped := me.pending[remote], me.(pending := me.pending - {remote});
      if remote in me.sessions || ProcessHelloAck(c, e.derivation.ack, state, me.contacts).None?
         || |me.sessions| >= MAX_SESSIONS {
        SameHistory(c, s, t);
        NodeShrinks(c, s, t, e.node, me, popped);
        NodeChange(c, s, t, e.node, popped);
      } else {
        var keys := ProcessHelloAck(c, e.derivation.ack, state, me.contacts).value;
        var k := Install(e.node, state, keys);
        assert NodeInv(c, s, e.node, me);
        AckMatches(c, s, e.node, remote, state, e.derivation, me.contacts);
        assert Matched(c, s, k);
        InstallHistory(c, s, t, k);
        assert k in t.installs;
        SessionAdded(c, s, t, e.node, me, popped, remote, keys);
        NodeChange(c, s, t, e.node, popped.(sessions := me.sessions[remote := keys]));
      }
    }
  }

  lemma LocalStep(c: Suite, s: Net, e: Event)
    requires Sound(c) && Inv(c, s) && Enabled(c, s, e) && (e.GiveUp? || e.Drop? || e.AddContact?)
    ensures Inv(c, Next(c, s, e))
  {
    var t := Next(c, s, e);
    GrowsKeeps(c, s, t);
    NodeShrinks(c, s, t, e.node, s.nodes[e.node], t.nodes[e.node]);
    assert t.nodes == s.nodes[e.node := t.nodes[e.node]];
    NodeChange(c, s, t, e.node, t.nodes[e.node]);
  }

  lemma Step(c: Suite, s: Net, e: Event)
    requires Sound(c) && Inv(c, s) && Enabled(c, s, e)
    ensures Inv(c, Next(c, s, e)) && Grows(s, Next(c, s, e))
  {
    match e {
      case Connect(_, _, _, _) => ConnectStep(c, s, e);
      case HelloArrives(_, _, _, _, _) => HelloStep(c, s, e);
      case AckArrives(_, _) => AckStep(c, s, e);
      case _ => LocalStep(c, s, e);
    }
  }

  lemma {:induction false} Run(c: Suite, s: Net, es: seq<Event>)
    requires Sound(c) && Inv(c, s) && Legal(c, s, es)
    ensures Inv(c, After(c, s, es))
    decreases |es|
  {
    if es != [] {
      Step(c, s, es[0]);
      Run(c, Next(c, s, es[0]), es[1..]);
    }
  }

  /** Matching handshake: in every run, whenever an initiator installed a session, some peer had
      derived a session for exactly that HELLO, with the same id, the same key and the two
      identities crossed; and every session a node holds was installed or derived by it. */
  lemma MatchingHandshake(c: Suite, s0: Net, es: seq<Event>)
    requires Sound(c) && Initial(s0) && Legal(c, s0, es)
    ensures var s := After(c, s0, es);
            && (forall k :: k in s.installs ==>
                  exists i, d :: i in s.issues && d in s.derivations && Matches(c, k, i, d))
            && (forall n, p :: n in s.nodes && p in s.nodes[n].sessions ==> Sourced(c, s, n, s.nodes[n].sessions[p]))
  {
    Run(c, s0, es);
    var s := After(c, s0, es);
    assert forall n :: n in s.nodes ==> NodeInv(c, s, n, s.nodes[n]);
    forall k | k in s.installs ensures exists i, d :: i in s.issues && d in s.derivations && Matches(c, k, i, d) {
      assert Matched(c, s, k);
    }
  }
}
