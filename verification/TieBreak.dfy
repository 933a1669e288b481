/** Two nodes that connect to each other, perhaps at the same time and any number of times. They and
    other nodes may do as they please with third nodes. */
module TieBreak {

  import opened Basics
  import opened Sessions
  import opened Handshakes
  import opened HandshakeNetwork

  predicate IsAttempt(c: Suite, i: Issue, x: Bytes, y: Bytes) {
    i.initiator == x && i.target == c.peerIdOf(y)
  }

  /** `x` has made a HELLO for `y`. */
  ghost predicate HasIssue(c: Suite, s: Net, x: Bytes, y: Bytes) {
    exists i :: i in s.issues && IsAttempt(c, i, x, y)
  }

  /** What the schedule may do at node `x` towards node `y`: attempts to a contact; no timeout and
      no removal of the pair's session; HELLOs reach the node they are meant for and
      acknowledgements the node whose HELLO they answer; and the session limit is not reached. */
  ghost predicate Allowed(c: Suite, s: Net, e: Event, x: Bytes, y: Bytes) {
    e.node == x && x in s.nodes ==>
      match e
      case Connect(_, target, _, _) => target == c.peerIdOf(y) ==> target in s.nodes[x].contacts
      case HelloArrives(_, i, _, _, _) => i.hello.identityKey == y ==> i.target == c.peerIdOf(x) && |s.nodes[x].sessions| < MAX_SESSIONS
      case AckArrives(_, d) => d.responder == y ==> d.hello.identityKey == x && |s.nodes[x].sessions| < MAX_SESSIONS
      case GiveUp(_, target) => target != c.peerIdOf(y)
      case Drop(_, peer) => peer != c.peerIdOf(y)
      case AddContact(_, _) => true
  }

  ghost predicate PairLegal(c: Suite, s: Net, es: seq<Event>, a: Bytes, b: Bytes)
    ensures PairLegal(c, s, es, a, b) ==> Legal(c, s, es)
    decreases |es|
  {
    es == [] || (Enabled(c, s, es[0]) && Allowed(c, s, es[0], a, b) && Allowed(c, s, es[0], b, a) &&
                 PairLegal(c, Next(c, s, es[0]), es[1..], a, b))
  }

  // ---- invariant

  /** `y` answered a HELLO of `x`. */
  predicate Between(d: Derivation, x: Bytes, y: Bytes) {
    d.responder == y && d.hello.identityKey == x
  }

  ghost predicate Answered(c: Suite, s: Net, x: Bytes, y: Bytes, d: Derivation)
    requires x in s.nodes && y in s.nodes
  {
    var idX, idY := c.peerIdOf(x), c.peerIdOf(y);
    && idX in s.nodes[y].sessions && s.nodes[y].sessions[idX] == d.keys
    && (idY in s.nodes[x].pending || idY in s.nodes[x].sessions)
    && (idY in s.nodes[x].sessions ==>
          s.nodes[x].sessions[idY].sessionId == d.keys.sessionId && s.nodes[x].sessions[idY].key == d.keys.key)
    && (HasIssue(c, s, y, x) ==> Less(idX, idY))
    && exists i :: i in s.issues && IsAttempt(c, i, x, y) && i.hello == d.hello
  }

  /** Nobody answered yet: no session, and an attempt made is still pending. */
  ghost predicate Waiting(c: Suite, s: Net, x: Bytes, y: Bytes)
    requires x in s.nodes
  {
    c.peerIdOf(y) !in s.nodes[x].sessions && (HasIssue(c, s, x, y) ==> c.peerIdOf(y) in s.nodes[x].pending)
  }

  ghost predicate OneAttempt(c: Suite, s: Net, x: Bytes, y: Bytes)
    requires x in s.nodes
  {
    && (forall i, j :: i in s.issues && j in s.issues && IsAttempt(c, i, x, y) && IsAttempt(c, j, x, y) ==> i == j)
    && (HasIssue(c, s, x, y) ==> c.peerIdOf(y) in s.nodes[x].contacts)
  }

  predicate InPair(d: Derivation, a: Bytes, b: Bytes) {
    Between(d, a, b) || Between(d, b, a)
  }

  ghost predicate TieInv(c: Suite, s: Net, a: Bytes, b: Bytes) {
    && a != b && a in s.nodes && b in s.nodes
    && OneAttempt(c, s, a, b) && OneAttempt(c, s, b, a)
    && (forall d, d' :: d in s.derivations && d' in s.derivations && InPair(d, a, b) && InPair(d', a, b) ==> d == d')
    && ((forall d :: d in s.derivations ==> !InPair(d, a, b)) ==> Waiting(c, s, a, b) && Waiting(c, s, b, a))
    && (forall d :: d in s.derivations && Between(d, a, b) ==> Answered(c, s, a, b, d))
    && (forall d :: d in s.derivations && Between(d, b, a) ==> Answered(c, s, b, a, d))
  }

  lemma TieSymmetric(c: Suite, s: Net, a: Bytes, b: Bytes)
    requires TieInv(c, s, a, b)
    ensures TieInv(c, s, b, a)
  {
    assert forall d :: InPair(d, b, a) <==> InPair(d, a, b);
    assert forall d, d' :: d in s.derivations && d' in s.derivations && InPair(d, b, a) && InPair(d', b, a) ==> d == d';
    assert (forall d :: d in s.derivations ==> !InPair(d, b, a)) ==> Waiting(c, s, b, a) && Waiting(c, s, a, b);
  }

  /** What a step left alone at `x` towards `y`. */
  ghost predicate SameTowards(c: Suite, s: Net, t: Net, x: Bytes, y: Bytes) {
    && x in s.nodes && x in t.nodes
    && s.nodes[x].contacts <= t.nodes[x].contacts
    && (c.peerIdOf(y) in s.nodes[x].pending <==> c.peerIdOf(y) in t.nodes[x].pending)
    && (c.peerIdOf(y) in s.nodes[x].sessions <==> c.peerIdOf(y) in t.nodes[x].sessions)
    && (c.peerIdOf(y) in s.nodes[x].sessions ==> s.nodes[x].sessions[c.peerIdOf(y)] == t.nodes[x].sessions[c.peerIdOf(y)])
    && (forall i :: i in s.issues && IsAttempt(c, i, x, y) ==> i in t.issues)
    && (forall i :: i in t.issues && IsAttempt(c, i, x, y) ==> i in s.issues)
  }

  lemma Unrelated(c: Suite, s: Net, t: Net, a: Bytes, b: Bytes)
    requires TieInv(c, s, a, b) && SameTowards(c, s, t, a, b) && SameTowards(c, s, t, b, a)
    requires forall d :: d in s.derivations ==> d in t.derivations
    requires forall d :: d in t.derivations && InPair(d, a, b) ==> d in s.derivations
    ensures TieInv(c, t, a, b)
  {
    assert HasIssue(c, s, a, b) <==> HasIssue(c, t, a, b);
    assert HasIssue(c, s, b, a) <==> HasIssue(c, t, b, a);
    forall d | d in t.derivations && Between(d, a, b) ensures Answered(c, t, a, b, d) {
      assert InPair(d, a, b) && Answered(c, s, a, b, d);
    }
    forall d | d in t.derivations && Between(d, b, a) ensures Answered(c, t, b, a, d) {
      assert InPair(d, a, b) && Answered(c, s, b, a, d);
    }
  }

  /** `x` starts its attempt. */
  lemma ConnectTie(c: Suite, s: Net, e: Event, x: Bytes, y: Bytes)
    requires Inv(c, s) && TieInv(c, s, x, y) && Enabled(c, s, e)
    requires e.Connect? && e.node == x && e.target == c.peerIdOf(y) && e.target in s.nodes[x].contacts
    ensures TieInv(c, Connected(c, s, e), x, y)
  {
    var t, me, idY := Connected(c, s, e), s.nodes[x], c.peerIdOf(y);
    if idY in me.sessions || idY in me.pending {
      return;
    }
    AttemptLasts(c, s, x, y);
    assert forall i :: i in t.issues && i.initiator != x ==> i in s.issues;
    assert forall i :: i in s.issues ==> i in t.issues;
    assert HasIssue(c, t, y, x) <==> HasIssue(c, s, y, x);
    AnswerNeedsAttempt(c, s, x, y);
  }

  /** An attempt once made is still pending or has become a session, so that there is no second one. */
  lemma AttemptLasts(c: Suite, s: Net, x: Bytes, y: Bytes)
    requires TieInv(c, s, x, y)
    ensures HasIssue(c, s, x, y) ==> c.peerIdOf(y) in s.nodes[x].pending || c.peerIdOf(y) in s.nodes[x].sessions
  {
    if d :| d in s.derivations && InPair(d, x, y) {
      if Between(d, x, y) {
        assert Answered(c, s, x, y, d);
      } else {
        assert Answered(c, s, y, x, d);
      }
    }
  }

  /** An attempt towards a third node leaves the pair alone. */
  lemma ThirdConnect(c: Suite, s: Net, e: Event, x: Bytes, y: Bytes)
    requires TieInv(c, s, x, y) && e.Connect? && e.node == x && e.target != c.peerIdOf(y)
    ensures TieInv(c, Connected(c, s, e), x, y)
  {
    var t := Connected(c, s, e);
    assert forall i :: i in t.issues && i !in s.issues ==> i.initiator == x && i.target == e.target;
    assert SameTowards(c, s, t, x, y) && SameTowards(c, s, t, y, x);
    Unrelated(c, s, t, x, y);
  }

  /** An answer between the two means that either one has made an attempt or holds the session. */
  lemma AnswerNeedsAttempt(c: Suite, s: Net, x: Bytes, y: Bytes)
    requires Inv(c, s) && TieInv(c, s, x, y)
    ensures forall d :: d in s.derivations && InPair(d, x, y) ==> HasIssue(c, s, x, y) || c.peerIdOf(y) in s.nodes[x].sessions
  {
    forall d | d in s.derivations && InPair(d, x, y) ensures HasIssue(c, s, x, y) || c.peerIdOf(y) in s.nodes[x].sessions {
      if Between(d, x, y) {
        assert Answered(c, s, x, y, d);
      } else {
        assert Answered(c, s, y, x, d);
      }
    }
  }

  /** Once either has answered, `y` ignores every HELLO of `x`. */
  lemma AnsweredIgnores(c: Suite, s: Net, x: Bytes, y: Bytes)
    requires Inv(c, s) && TieInv(c, s, x, y) && HasIssue(c, s, x, y)
    ensures forall d :: d in s.derivations && InPair(d, x, y) ==> Ignores(c, y, s.nodes[y], c.peerIdOf(x))
  {
    forall d | d in s.derivations && InPair(d, x, y) ensures Ignores(c, y, s.nodes[y], c.peerIdOf(x)) {
      if Between(d, x, y) {
        assert Answered(c, s, x, y, d);
      } else {
        assert Answered(c, s, y, x, d);
      }
    }
  }

  lemma PendingHasIssue(c: Suite, s: Net, x: Bytes, target: Bytes)
    requires Inv(c, s) && x in s.nodes && target in s.nodes[x].pending
    ensures exists i :: i in s.issues && i.initiator == x && i.target == target && i.state == s.nodes[x].pending[target]
  {
    assert NodeInv(c, s, x, s.nodes[x]);
    assert Kept(s, x, target, s.nodes[x].pending[target]);
  }

  /** A HELLO of `x` that `y` does not ignore: then nobody had answered before, `x` still waits, and
      if `y` had an attempt of its own it has the higher id. */
  lemma HelloTie(c: Suite, s: Net, e: Event, x: Bytes, y: Bytes)
    requires Sound(c) && Inv(c, s) && TieInv(c, s, x, y) && Enabled(c, s, e)
    requires e.HelloArrives? && e.node == y && e.issue.hello.identityKey == x
    requires e.issue.target == c.peerIdOf(y) && |s.nodes[y].sessions| < MAX_SESSIONS
    ensures TieInv(c, HelloHandled(c, s, e), x, y)
  {
    var t, me, idX, idY := HelloHandled(c, s, e), s.nodes[y], c.peerIdOf(x), c.peerIdOf(y);
    if Ignores(c, y, me, idX) {
      return;
    }
    assert idX != idY;
    assert Issued(c, e.issue);
    assert IsAttempt(c, e.issue, x, y) && HasIssue(c, s, x, y);
    LessTrichotomy(idX, idY);
    AnsweredIgnores(c, s, x, y);
    assert Waiting(c, s, x, y) && Waiting(c, s, y, x);
    HelloAnswered(c, s, e);
    var (ack, keys) := Respond(c, e.issue.hello, y, e.priv, e.nonce, e.sid);
    FirstAnswer(c, s, t, x, y, Derivation(y, e.issue.hello, e.priv, ack, keys), e.issue);
  }

  /** What answering a HELLO does to the network. */
  lemma HelloAnswered(c: Suite, s: Net, e: Event)
    requires e.HelloArrives? && e.node in s.nodes && |s.nodes[e.node].sessions| < MAX_SESSIONS && Issued(c, e.issue)
    requires c.peerIdOf(e.issue.initiator) != c.peerIdOf(e.node)
    requires !Ignores(c, e.node, s.nodes[e.node], c.peerIdOf(e.issue.initiator))
    ensures var t, me, remote := HelloHandled(c, s, e), s.nodes[e.node], c.peerIdOf(e.issue.initiator);
            var (ack, keys) := Respond(c, e.issue.hello, e.node, e.priv, e.nonce, e.sid);
            && t.issues == s.issues
            && t.nodes == s.nodes[e.node := NodeState(me.pending - {remote}, me.sessions[remote := keys], me.contacts + {remote})]
            && t.derivations == s.derivations + {Derivation(e.node, e.issue.hello, e.priv, ack, keys)}
  {
  }

  /** The first answer between two nodes that wait. */
  lemma FirstAnswer(c: Suite, s: Net, t: Net, x: Bytes, y: Bytes, d: Derivation, i: Issue)
    requires Sound(c) && TieInv(c, s, x, y) && Waiting(c, s, x, y) && Between(d, x, y)
    requires i in s.issues && IsAttempt(c, i, x, y) && i.hello == d.hello
    requires forall o :: o in s.derivations ==> !InPair(o, x, y)
    requires HasIssue(c, s, y, x) ==> Less(c.peerIdOf(x), c.peerIdOf(y))
    requires t.issues == s.issues && t.derivations == s.derivations + {d}
    requires t.nodes == s.nodes[y := NodeState(s.nodes[y].pending - {c.peerIdOf(x)}, s.nodes[y].sessions[c.peerIdOf(x) := d.keys],
                                               s.nodes[y].contacts + {c.peerIdOf(x)})]
    ensures TieInv(c, t, x, y)
  {
    assert HasIssue(c, t, x, y) <==> HasIssue(c, s, x, y);
    assert HasIssue(c, t, y, x) <==> HasIssue(c, s, y, x);
    assert t.nodes[x] == s.nodes[x];
    assert Answered(c, t, x, y, d) && d in t.derivations;
  }

  /** The attempt `y` answered is the one `x` still waits for. */
  lemma OwnAttempt(c: Suite, s: Net, x: Bytes, y: Bytes, d: Derivation) returns (i: Issue)
    requires Inv(c, s) && TieInv(c, s, x, y) && d in s.derivations && Between(d, x, y) && c.peerIdOf(y) in s.nodes[x].pending
    ensures i in s.issues && i.initiator == x && i.target == c.peerIdOf(y) && i.state == s.nodes[x].pending[c.peerIdOf(y)]
    ensures i.hello == d.hello && c.peerIdOf(y) in s.nodes[x].contacts
  {
    PendingHasIssue(c, s, x, c.peerIdOf(y));
    assert Answered(c, s, x, y, d);
    i :| i in s.issues && i.initiator == x && i.target == c.peerIdOf(y) && i.state == s.nodes[x].pending[c.peerIdOf(y)];
    var j :| j in s.issues && IsAttempt(c, j, x, y) && j.hello == d.hello;
    assert IsAttempt(c, i, x, y) && HasIssue(c, s, x, y);
    assert i == j;
  }

  /** The acknowledgement of `y` fits the state `x` kept. */
  lemma AckFits(c: Suite, s: Net, x: Bytes, y: Bytes, d: Derivation)
    requires Sound(c) && Inv(c, s) && TieInv(c, s, x, y) && d in s.derivations && Between(d, x, y)
    requires c.peerIdOf(y) in s.nodes[x].pending
    ensures var keys := ProcessHelloAck(c, d.ack, s.nodes[x].pending[c.peerIdOf(y)], s.nodes[x].contacts);
            keys.Some? && keys.value.sessionId == d.keys.sessionId && keys.value.key == d.keys.key
  {
    var me, idY := s.nodes[x], c.peerIdOf(y);
    var state := me.pending[idY];
    var i := OwnAttempt(c, s, x, y, d);
    assert Issued(c, i) && Derived(c, s, d);
    assert ProcessHelloAck(c, d.ack, state, me.contacts).Some?;
    AckMatches(c, s, x, idY, state, d, me.contacts);
  }

  /** Once answered, `x` turns its pending attempt into the answered session. */
  lemma Installed(c: Suite, s: Net, t: Net, x: Bytes, y: Bytes, d: Derivation)
    requires TieInv(c, s, x, y) && d in s.derivations && Between(d, x, y)
    requires t.issues == s.issues && t.derivations == s.derivations
    requires forall n :: n in s.nodes ==> n in t.nodes && (n == x || t.nodes[n] == s.nodes[n])
    requires t.nodes[x].contacts == s.nodes[x].contacts && c.peerIdOf(y) in t.nodes[x].sessions
    requires t.nodes[x].sessions[c.peerIdOf(y)].sessionId == d.keys.sessionId
    requires t.nodes[x].sessions[c.peerIdOf(y)].key == d.keys.key
    ensures TieInv(c, t, x, y)
  {
    assert InPair(d, x, y);
    assert Answered(c, s, x, y, d);
    assert HasIssue(c, t, y, x) <==> HasIssue(c, s, y, x);
    assert HasIssue(c, t, x, y) <==> HasIssue(c, s, x, y);
    forall d' | d' in t.derivations && InPair(d', x, y) ensures d' == d {}
  }

  /** What accepting an acknowledgement does to the network. */
  lemma AckEffect(c: Suite, s: Net, e: Event)
    requires e.AckArrives? && e.node in s.nodes && |s.nodes[e.node].sessions| < MAX_SESSIONS
    requires c.peerIdOf(e.derivation.ack.identityKey) in s.nodes[e.node].pending
    ensures var t, me, remote := AckHandled(c, s, e), s.nodes[e.node], c.peerIdOf(e.derivation.ack.identityKey);
            var keys := ProcessHelloAck(c, e.derivation.ack, me.pending[remote], me.contacts);
            && t.issues == s.issues && t.derivations == s.derivations
            && (forall n :: n in s.nodes ==> n in t.nodes && (n == e.node || t.nodes[n] == s.nodes[n]))
            && t.nodes[e.node].contacts == me.contacts
            && (remote in me.sessions ==> t.nodes[e.node].sessions == me.sessions)
            && (remote !in me.sessions && keys.Some? ==> t.nodes[e.node].sessions == me.sessions[remote := keys.value])
  {
  }

  /** The acknowledgement of `y` reaches `x`: it is accepted, and both ends hold the same session. */
  lemma AckTie(c: Suite, s: Net, e: Event, x: Bytes, y: Bytes)
    requires Sound(c) && Inv(c, s) && TieInv(c, s, x, y) && Enabled(c, s, e)
    requires e.AckArrives? && e.node == x && e.derivation.responder == y
    requires e.derivation.hello.identityKey == x && |s.nodes[x].sessions| < MAX_SESSIONS
    ensures TieInv(c, AckHandled(c, s, e), x, y)
  {
    var d, t := e.derivation, AckHandled(c, s, e);
    assert d.ack.identityKey == y by {
      assert Derived(c, s, d);
    }
    assert Between(d, x, y);
    assert Answered(c, s, x, y, d);
    if c.peerIdOf(y) in s.nodes[x].pending {
      AckFits(c, s, x, y, d);
      AckEffect(c, s, e);
      Installed(c, s, t, x, y, d);
    }
  }

  /** A step at `n` touches that node only, and adds only its own HELLO and its own answer. */
  ghost predicate OnlyAt(s: Net, t: Net, n: Bytes) {
    && (forall m :: m in s.nodes ==> m in t.nodes && (m != n ==> t.nodes[m] == s.nodes[m]))
    && (forall i :: i in s.issues ==> i in t.issues)
    && (forall i :: i in t.issues ==> i in s.issues || i.initiator == n)
    && (forall d :: d in s.derivations ==> d in t.derivations)
    && (forall d :: d in t.derivations ==> d in s.derivations || d.responder == n)
  }

  lemma StepOnlyAt(c: Suite, s: Net, e: Event)
    requires e.node in s.nodes
    ensures OnlyAt(s, Next(c, s, e), e.node)
  {
  }

  lemma OtherNode(c: Suite, s: Net, t: Net, n: Bytes, a: Bytes, b: Bytes)
    requires TieInv(c, s, a, b) && OnlyAt(s, t, n) && n != a && n != b
    ensures TieInv(c, t, a, b)
  {
    Unrelated(c, s, t, a, b);
  }

  /** A HELLO from a third node, or one's own, leaves the pair alone. */
  lemma ThirdHello(c: Suite, s: Net, e: Event, x: Bytes, y: Bytes)
    requires Sound(c) && TieInv(c, s, x, y) && e.HelloArrives? && e.node == x && e.issue.hello.identityKey != y
    ensures TieInv(c, HelloHandled(c, s, e), x, y)
  {
    HelloElsewhere(c, s, e, c.peerIdOf(y));
    Unrelated(c, s, HelloHandled(c, s, e), x, y);
  }

  /** A HELLO changes nothing towards peers other than its sender. */
  lemma HelloElsewhere(c: Suite, s: Net, e: Event, other: Bytes)
    requires e.HelloArrives? && e.node in s.nodes && other != c.peerIdOf(e.issue.hello.identityKey)
    ensures var t := HelloHandled(c, s, e);
            && t.issues == s.issues
            && (forall n :: n in s.nodes ==> n in t.nodes && (n != e.node ==> t.nodes[n] == s.nodes[n]))
            && s.nodes[e.node].contacts <= t.nodes[e.node].contacts
            && (other in s.nodes[e.node].pending <==> other in t.nodes[e.node].pending)
            && (other in s.nodes[e.node].sessions <==> other in t.nodes[e.node].sessions)
            && (other in s.nodes[e.node].sessions ==> t.nodes[e.node].sessions[other] == s.nodes[e.node].sessions[other])
            && (forall d :: d in s.derivations ==> d in t.derivations)
            && (forall d :: d in t.derivations ==>
                  d in s.derivations || (d.responder == e.node && d.hello == e.issue.hello))
  {
    var t, me, remote := HelloHandled(c, s, e), s.nodes[e.node], c.peerIdOf(e.issue.hello.identityKey);
    if !Ignores(c, e.node, me, remote) {
      assert t.nodes == s.nodes[e.node := t.nodes[e.node]];
      assert t.nodes[e.node].pending == me.pending - {remote} && me.contacts <= t.nodes[e.node].contacts;
    }
  }

  lemma ThirdAck(c: Suite, s: Net, e: Event, x: Bytes, y: Bytes)
    requires Sound(c) && TieInv(c, s, x, y) && e.AckArrives? && e.node == x && e.derivation.ack.identityKey != y
    ensures TieInv(c, AckHandled(c, s, e), x, y)
  {
    var t := AckHandled(c, s, e);
    assert c.peerIdOf(e.derivation.ack.identityKey) != c.peerIdOf(y);
    assert SameTowards(c, s, t, x, y) && SameTowards(c, s, t, y, x);
    Unrelated(c, s, t, x, y);
  }

  lemma LocalTie(c: Suite, s: Net, e: Event, x: Bytes, y: Bytes)
    requires TieInv(c, s, x, y) && e.node == x && (e.GiveUp? || e.Drop? || e.AddContact?)
    requires (e.GiveUp? ==> e.target != c.peerIdOf(y)) && (e.Drop? ==> e.peer != c.peerIdOf(y))
    ensures TieInv(c, Next(c, s, e), x, y)
  {
    var t := Next(c, s, e);
    assert SameTowards(c, s, t, x, y) && SameTowards(c, s, t, y, x);
    Unrelated(c, s, t, x, y);
  }

  lemma NodeTie(c: Suite, s: Net, e: Event, x: Bytes, y: Bytes)
    requires Sound(c) && Inv(c, s) && TieInv(c, s, x, y) && Enabled(c, s, e) && Allowed(c, s, e, x, y) && e.node == x
    ensures TieInv(c, Next(c, s, e), x, y)
  {
    if e.Connect? && e.target == c.peerIdOf(y) {
      ConnectTie(c, s, e, x, y);
    } else if e.Connect? {
      ThirdConnect(c, s, e, x, y);
    } else if e.HelloArrives? && e.issue.hello.identityKey == y {
      TieSymmetric(c, s, x, y);
      HelloTie(c, s, e, y, x);
      TieSymmetric(c, Next(c, s, e), y, x);
    } else if e.AckArrives? && e.derivation.responder == y {
      AckTie(c, s, e, x, y);
    } else if e.HelloArrives? {
      ThirdHello(c, s, e, x, y);
    } else if e.AckArrives? {
      assert Derived(c, s, e.derivation);
      ThirdAck(c, s, e, x, y);
    } else {
      LocalTie(c, s, e, x, y);
    }
  }

  lemma TieStep(c: Suite, s: Net, e: Event, a: Bytes, b: Bytes)
    requires Sound(c) && Inv(c, s) && TieInv(c, s, a, b) && Enabled(c, s, e)
    requires Allowed(c, s, e, a, b) && Allowed(c, s, e, b, a)
    ensures TieInv(c, Next(c, s, e), a, b)
  {
    if e.node == a {
      NodeTie(c, s, e, a, b);
    } else if e.node == b {
      TieSymmetric(c, s, a, b);
      NodeTie(c, s, e, b, a);
      TieSymmetric(c, Next(c, s, e), b, a);
    } else {
      StepOnlyAt(c, s, e);
      OtherNode(c, s, Next(c, s, e), e.node, a, b);
    }
  }

  lemma {:induction false} TieRun(c: Suite, s: Net, es: seq<Event>, a: Bytes, b: Bytes)
    requires Sound(c) && Inv(c, s) && TieInv(c, s, a, b) && PairLegal(c, s, es, a, b)
    ensures TieInv(c, After(c, s, es), a, b)
    decreases |es|
  {
    if es != [] {
      TieStep(c, s, es[0], a, b);
      Step(c, s, es[0]);
      TieRun(c, Next(c, s, es[0]), es[1..], a, b);
    }
  }

  /** The two have had nothing to do with each other yet; so it is for any two nodes at the very start. */
  ghost predicate Strangers(c: Suite, s: Net, a: Bytes, b: Bytes) {
    && a != b && a in s.nodes && b in s.nodes
    && !HasIssue(c, s, a, b) && !HasIssue(c, s, b, a)
    && (forall d :: d in s.derivations ==> !InPair(d, a, b))
    && c.peerIdOf(b) !in s.nodes[a].sessions && c.peerIdOf(b) !in s.nodes[a].pending
    && c.peerIdOf(a) !in s.nodes[b].sessions && c.peerIdOf(a) !in s.nodes[b].pending
  }

  lemma InitialStrangers(c: Suite, s: Net, a: Bytes, b: Bytes)
    requires Initial(s) && a != b && a in s.nodes && b in s.nodes
    ensures Inv(c, s) && Strangers(c, s, a, b)
  {
  }

  /** At most one answer is ever given between the two nodes, so at most one of them acts as responder
      and at most once; and if both hold a session with the other, they hold the same session id and key. */
  ghost predicate Agree(c: Suite, s: Net, a: Bytes, b: Bytes) {
    && (forall d, d' :: d in s.derivations && d' in s.derivations && InPair(d, a, b) && InPair(d', a, b) ==> d == d')
    && a in s.nodes && b in s.nodes
    && (c.peerIdOf(b) in s.nodes[a].sessions && c.peerIdOf(a) in s.nodes[b].sessions ==>
          s.nodes[a].sessions[c.peerIdOf(b)].sessionId == s.nodes[b].sessions[c.peerIdOf(a)].sessionId &&
          s.nodes[a].sessions[c.peerIdOf(b)].key == s.nodes[b].sessions[c.peerIdOf(a)].key)
  }

  /** Tie-break agreement from any state in which the two nodes have had nothing to do with each other,
      whatever went on with the rest of the network. */
  lemma StrangersAgree(c: Suite, s0: Net, es: seq<Event>, a: Bytes, b: Bytes)
    requires Sound(c) && Inv(c, s0) && Strangers(c, s0, a, b) && PairLegal(c, s0, es, a, b)
    ensures Agree(c, After(c, s0, es), a, b)
  {
    TieRun(c, s0, es, a, b);
    var s := After(c, s0, es);
    if c.peerIdOf(b) in s.nodes[a].sessions && c.peerIdOf(a) in s.nodes[b].sessions {
      var d :| d in s.derivations && InPair(d, a, b);
      if Between(d, a, b) {
        assert Answered(c, s, a, b, d);
      } else {
        assert Answered(c, s, b, a, d);
      }
    }
  }

  /** Tie-break agreement: in every schedule of a fresh network in which each side starts at most one
      connection attempt with the other, no attempt times out and no session is removed, the two agree. */
  lemma TieBreakAgreement(c: Suite, s0: Net, es: seq<Event>, a: Bytes, b: Bytes)
    requires Sound(c) && Initial(s0) && a != b && a in s0.nodes && b in s0.nodes && PairLegal(c, s0, es, a, b)
    ensures Agree(c, After(c, s0, es), a, b)
  {
    InitialStrangers(c, s0, a, b);
    StrangersAgree(c, s0, es, a, b);
  }
}
