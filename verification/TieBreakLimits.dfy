/** Every rule the tie-break agreement asks of a schedule is needed: without any one of them there are
    schedules, respecting all the others, in which both nodes answer the other's HELLO. */
module TieBreakLimits {

  import opened Basics
  import opened Sessions
  import opened Handshakes
  import opened HandshakeNetwork
  import opened Runs
  import opened TieBreak

  /** What a schedule may be asked to respect between two nodes. */
  datatype Rule =
    | ToContacts        // both connect to contacts only
    | HellosArrive      // a HELLO of one reaches the other only if it was meant for it
    | AcksArrive        // an acknowledgement of one reaches the other only if it answers its HELLO
    | BelowLimit        // neither has all its sessions in use when it hears from the other
    | NoTimeout         // neither gives up its attempt
    | NoRemoval         // neither drops the session with the other

  ghost predicate Respects(r: Rule, c: Suite, s: Net, e: Event, x: Bytes, y: Bytes) {
    e.node == x && x in s.nodes ==>
      var idX, idY, me := c.peerIdOf(x), c.peerIdOf(y), s.nodes[x];
      match r
      case ToContacts => e.Connect? && e.target == idY ==> idY in me.contacts
      case HellosArrive => e.HelloArrives? && e.issue.hello.identityKey == y ==> e.issue.target == idX
      case AcksArrive => e.AckArrives? && e.derivation.responder == y ==> e.derivation.hello.identityKey == x
      case BelowLimit =>
        (e.HelloArrives? && e.issue.hello.identityKey == y) || (e.AckArrives? && e.derivation.responder == y) ==>
          |me.sessions| < MAX_SESSIONS
      case NoTimeout => e.GiveUp? ==> e.target != idY
      case NoRemoval => e.Drop? ==> e.peer != idY
  }

  /** The agreement asks for all the rules. */
  lemma RulesAreAllowed(c: Suite, s: Net, e: Event, x: Bytes, y: Bytes)
    ensures Allowed(c, s, e, x, y) <==> forall r :: Respects(r, c, s, e, x, y)
  {
    if forall r :: Respects(r, c, s, e, x, y) {
      assert Respects(ToContacts, c, s, e, x, y);
      assert Respects(HellosArrive, c, s, e, x, y) && Respects(AcksArrive, c, s, e, x, y);
      assert Respects(BelowLimit, c, s, e, x, y) && Respects(NoTimeout, c, s, e, x, y) && Respects(NoRemoval, c, s, e, x, y);
    }
  }

  /** Steps that respect every rule between two nodes but one. */
  ghost function StepsWithout(c: Suite, x: Bytes, y: Bytes, broken: Rule): (Net, Event, Net) -> bool {
    (s: Net, e: Event, t: Net) =>
      Enabled(c, s, e) && t == Next(c, s, e) && RespectsOthers(broken, c, s, e, x, y)
  }

  ghost predicate RespectsOthers(broken: Rule, c: Suite, s: Net, e: Event, x: Bytes, y: Bytes) {
    forall r :: r != broken ==> Respects(r, c, s, e, x, y) && Respects(r, c, s, e, y, x)
  }

  lemma Takes(c: Suite, s: Net, e: Event, x: Bytes, y: Bytes, broken: Rule)
    requires Enabled(c, s, e) && RespectsOthers(broken, c, s, e, x, y)
    ensures StepsWithout(c, x, y, broken)(s, e, Next(c, s, e))
    ensures Leads(StepsWithout(c, x, y, broken), s, Next(c, s, e))
  {
    assert StepsWithout(c, x, y, broken)(s, e, Next(c, s, e));
    LeadsStep(StepsWithout(c, x, y, broken), s, e, Next(c, s, e));
  }

  /** Both nodes have answered the other. */
  ghost predicate BothAnswered(s: Net, x: Bytes, y: Bytes) {
    exists d, d' :: d in s.derivations && d' in s.derivations && Between(d, x, y) && Between(d', y, x)
  }

  /** The random values of a step. */
  datatype Dice = Dice(priv: Bytes, nonce: Bytes, sid: Bytes)

  ghost predicate Fair(d: Dice) {
    |d.nonce| == 16 && |d.sid| == 8
  }

  /** Two strangers of which the first has the lower id, and room at the second. */
  ghost predicate Setting(c: Suite, s: Net, x: Bytes, y: Bytes) {
    && Sound(c) && Strangers(c, s, x, y) && Less(c.peerIdOf(x), c.peerIdOf(y))
    && c.peerIdOf(x) in s.nodes[y].contacts && |s.nodes[y].sessions| < MAX_SESSIONS
  }

  ghost predicate FreshKey(c: Suite, s: Net, d: Dice) {
    Fair(d) && forall i :: i in s.issues ==> i.hello.ephemeralKey != c.publicOf(d.priv)
  }

  lemma Hello(c: Suite, s: Net, node: Bytes, target: Bytes, d: Dice, x: Bytes, y: Bytes, broken: Rule) returns (t: Net, i: Issue)
    requires node in s.nodes && target !in s.nodes[node].sessions && target !in s.nodes[node].pending && FreshKey(c, s, d)
    requires RespectsOthers(broken, c, s, Connect(node, target, d.priv, d.nonce), x, y)
    ensures Leads(StepsWithout(c, x, y, broken), s, t)
    ensures i.initiator == i.hello.identityKey == node && i.target == target && Issued(c, i)
    ensures i.hello.ephemeralKey == i.state.ephemeralPublic == c.publicOf(d.priv)
    ensures t == s.(nodes := s.nodes[node := s.nodes[node].(pending := s.nodes[node].pending[target := i.state])], issues := s.issues + {i})
  {
    var e := Connect(node, target, d.priv, d.nonce);
    t := Next(c, s, e);
    var (hello, state) := CreateHello(c, node, d.priv, d.nonce);
    i := Issue(node, target, hello, state);
    Takes(c, s, e, x, y, broken);
  }

  /** A HELLO that is not ignored is answered, whether or not the session can be registered. */
  lemma Answer(c: Suite, s: Net, node: Bytes, i: Issue, d: Dice, x: Bytes, y: Bytes, broken: Rule) returns (t: Net, a: Derivation)
    requires node in s.nodes && i in s.issues && Issued(c, i) && Fair(d) && c.peerIdOf(i.initiator) != c.peerIdOf(node)
    requires !Ignores(c, node, s.nodes[node], c.peerIdOf(i.initiator))
    requires RespectsOthers(broken, c, s, HelloArrives(node, i, d.priv, d.nonce, d.sid), x, y)
    ensures Leads(StepsWithout(c, x, y, broken), s, t) && t.issues == s.issues
    ensures t.derivations == s.derivations + {a} && a.responder == node && a.hello == i.hello
    ensures (a.ack, a.keys) == Respond(c, i.hello, node, d.priv, d.nonce, d.sid)
    ensures forall n :: n in s.nodes ==> n in t.nodes && (n != node ==> t.nodes[n] == s.nodes[n])
    ensures c.peerIdOf(i.initiator) in t.nodes[node].sessions || |s.nodes[node].sessions| >= MAX_SESSIONS
    ensures forall p :: p in t.nodes[node].sessions && p != c.peerIdOf(i.initiator) ==> p in s.nodes[node].sessions
    ensures forall p :: p in t.nodes[node].pending ==> p in s.nodes[node].pending
  {
    var e := HelloArrives(node, i, d.priv, d.nonce, d.sid);
    t := Next(c, s, e);
    var (ack, keys) := Respond(c, i.hello, node, d.priv, d.nonce, d.sid);
    a := Derivation(node, i.hello, d.priv, ack, keys);
    Takes(c, s, e, x, y, broken);
  }

  /** Both HELLOs are out, `y` has answered that of `x`, and `x` waits. */
  ghost predicate Half(c: Suite, s: Net, x: Bytes, y: Bytes, i: Issue, j: Issue, a: Derivation) {
    && x != y && x in s.nodes && y in s.nodes && i in s.issues && j in s.issues && a in s.derivations
    && Issued(c, i) && Issued(c, j) && i.initiator == x && j.initiator == y && j.target == c.peerIdOf(x)
    && Between(a, x, y) && a.hello == i.hello && a.ack.identityKey == y
    && c.peerIdOf(y) !in s.nodes[x].sessions
  }

  /** `x` has forgotten its attempt and has no session: the HELLO of `y`, still under way, is answered. */
  lemma SecondAnswer(c: Suite, s: Net, x: Bytes, y: Bytes, i: Issue, j: Issue, a: Derivation, d: Dice, broken: Rule) returns (t: Net)
    requires Sound(c) && Half(c, s, x, y, i, j, a) && c.peerIdOf(y) !in s.nodes[x].pending && Fair(d)
    requires broken == BelowLimit || |s.nodes[x].sessions| < MAX_SESSIONS
    ensures Leads(StepsWithout(c, x, y, broken), s, t) && BothAnswered(t, x, y)
  {
    var b: Derivation;
    t, b := Answer(c, s, x, j, d, x, y, broken);
    assert a in t.derivations && b in t.derivations && Between(a, x, y) && Between(b, y, x);
  }

  lemma BothConnect(c: Suite, s: Net, x: Bytes, y: Bytes, target: Bytes, d1: Dice, d2: Dice, broken: Rule)
    returns (t: Net, i: Issue, j: Issue)
    requires Setting(c, s, x, y) && FreshKey(c, s, d1) && FreshKey(c, s, d2) && c.publicOf(d1.priv) != c.publicOf(d2.priv)
    requires target !in s.nodes[x].sessions && target !in s.nodes[x].pending
    requires target == c.peerIdOf(y) ==> broken == ToContacts || target in s.nodes[x].contacts
    ensures Leads(StepsWithout(c, x, y, broken), s, t)
    ensures Issued(c, i) && i.initiator == i.hello.identityKey == x && i.target == target
    ensures Issued(c, j) && j.initiator == j.hello.identityKey == y && j.target == c.peerIdOf(x)
    ensures i.hello.ephemeralKey == i.state.ephemeralPublic == c.publicOf(d1.priv) && j.hello.ephemeralKey == c.publicOf(d2.priv)
    ensures t.issues == s.issues + {i, j} && t.derivations == s.derivations
    ensures t.nodes == s.nodes[x := s.nodes[x].(pending := s.nodes[x].pending[target := i.state])]
                              [y := s.nodes[y].(pending := s.nodes[y].pending[c.peerIdOf(x) := j.state])]
  {
    var s1;
    s1, i := Hello(c, s, x, target, d1, x, y, broken);
    t, j := Hello(c, s1, y, c.peerIdOf(x), d2, x, y, broken);
    LeadsFurther(StepsWithout(c, x, y, broken), s, s1, t);
  }

  /** Both connect, and `y` answers `x`. */
  lemma HalfWay(c: Suite, s: Net, x: Bytes, y: Bytes, target: Bytes, d1: Dice, d2: Dice, d3: Dice, broken: Rule)
    returns (t: Net, i: Issue, j: Issue, a: Derivation)
    requires Setting(c, s, x, y) && FreshKey(c, s, d1) && FreshKey(c, s, d2) && c.publicOf(d1.priv) != c.publicOf(d2.priv) && Fair(d3)
    requires target !in s.nodes[x].sessions && target !in s.nodes[x].pending
    requires if target == c.peerIdOf(y) then broken == ToContacts || target in s.nodes[x].contacts else broken == HellosArrive
    ensures Leads(StepsWithout(c, x, y, broken), s, t) && Half(c, t, x, y, i, j, a)
    ensures t.nodes[x] == s.nodes[x].(pending := s.nodes[x].pending[target := i.state])
    ensures (a.ack, a.keys) == Respond(c, i.hello, y, d3.priv, d3.nonce, d3.sid)
    ensures i.hello.ephemeralKey == i.state.ephemeralPublic == c.publicOf(d1.priv) && t.issues == s.issues + {i, j}
    ensures forall n :: n in s.nodes ==> n in t.nodes && (n == x || n == y || t.nodes[n] == s.nodes[n])
    ensures forall p :: p in t.nodes[y].sessions ==> p in s.nodes[y].sessions || p == c.peerIdOf(x)
    ensures forall p :: p in t.nodes[y].pending ==> p in s.nodes[y].pending || p == c.peerIdOf(x)
    ensures j.hello.ephemeralKey == c.publicOf(d2.priv)
  {
    var s1;
    LessTrichotomy(c.peerIdOf(x), c.peerIdOf(y));
    s1, i, j := BothConnect(c, s, x, y, target, d1, d2, broken);
    t, a := Answer(c, s1, y, i, d3, x, y, broken);
    LeadsFurther(StepsWithout(c, x, y, broken), s, s1, t);
  }

  /** Without the contact rule: `x` rejects the acknowledgement of a peer that is not its contact. */
  lemma NeedsContacts(c: Suite, s: Net, x: Bytes, y: Bytes, d1: Dice, d2: Dice, d3: Dice, d4: Dice) returns (t: Net)
    requires Setting(c, s, x, y) && |s.nodes[x].sessions| < MAX_SESSIONS && c.peerIdOf(y) !in s.nodes[x].contacts
    requires FreshKey(c, s, d1) && FreshKey(c, s, d2) && c.publicOf(d1.priv) != c.publicOf(d2.priv) && Fair(d3) && Fair(d4)
    ensures Leads(StepsWithout(c, x, y, ToContacts), s, t) && BothAnswered(t, x, y)
  {
    var half, i, j, a := HalfWay(c, s, x, y, c.peerIdOf(y), d1, d2, d3, ToContacts);
    var popped := Next(c, half, AckArrives(x, a));
    Takes(c, half, AckArrives(x, a), x, y, ToContacts);
    LeadsFurther(StepsWithout(c, x, y, ToContacts), s, half, popped);
    t := SecondAnswer(c, popped, x, y, i, j, a, d4, ToContacts);
    LeadsFurther(StepsWithout(c, x, y, ToContacts), s, popped, t);
  }

  /** Without the limit rule: a full `x` drops its attempt with the acknowledgement it cannot register. */
  lemma NeedsRoom(c: Suite, s: Net, x: Bytes, y: Bytes, d1: Dice, d2: Dice, d3: Dice, d4: Dice) returns (t: Net)
    requires Setting(c, s, x, y) && |s.nodes[x].sessions| >= MAX_SESSIONS && c.peerIdOf(y) in s.nodes[x].contacts
    requires FreshKey(c, s, d1) && FreshKey(c, s, d2) && c.publicOf(d1.priv) != c.publicOf(d2.priv) && Fair(d3) && Fair(d4)
    ensures Leads(StepsWithout(c, x, y, BelowLimit), s, t) && BothAnswered(t, x, y)
  {
    var half, i, j, a := HalfWay(c, s, x, y, c.peerIdOf(y), d1, d2, d3, BelowLimit);
    var popped := Next(c, half, AckArrives(x, a));
    Takes(c, half, AckArrives(x, a), x, y, BelowLimit);
    LeadsFurther(StepsWithout(c, x, y, BelowLimit), s, half, popped);
    t := SecondAnswer(c, popped, x, y, i, j, a, d4, BelowLimit);
    LeadsFurther(StepsWithout(c, x, y, BelowLimit), s, popped, t);
  }

  /** Without the timeout rule: `x` gives up before the acknowledgement arrives. */
  lemma NeedsPatience(c: Suite, s: Net, x: Bytes, y: Bytes, d1: Dice, d2: Dice, d3: Dice, d4: Dice) returns (t: Net)
    requires Setting(c, s, x, y) && |s.nodes[x].sessions| < MAX_SESSIONS && c.peerIdOf(y) in s.nodes[x].contacts
    requires FreshKey(c, s, d1) && FreshKey(c, s, d2) && c.publicOf(d1.priv) != c.publicOf(d2.priv) && Fair(d3) && Fair(d4)
    ensures Leads(StepsWithout(c, x, y, NoTimeout), s, t) && BothAnswered(t, x, y)
  {
    var half, i, j, a := HalfWay(c, s, x, y, c.peerIdOf(y), d1, d2, d3, NoTimeout);
    var popped := Next(c, half, GiveUp(x, c.peerIdOf(y)));
    Takes(c, half, GiveUp(x, c.peerIdOf(y)), x, y, NoTimeout);
    LeadsFurther(StepsWithout(c, x, y, NoTimeout), s, half, popped);
    t := SecondAnswer(c, popped, x, y, i, j, a, d4, NoTimeout);
    LeadsFurther(StepsWithout(c, x, y, NoTimeout), s, popped, t);
  }

  /** Without the removal rule: `x` drops the session it installed, and then meets the old HELLO of `y`. */
  lemma NeedsSession(c: Suite, s: Net, x: Bytes, y: Bytes, d1: Dice, d2: Dice, d3: Dice, d4: Dice) returns (t: Net)
    requires Setting(c, s, x, y) && |s.nodes[x].sessions| < MAX_SESSIONS && c.peerIdOf(y) in s.nodes[x].contacts
    requires FreshKey(c, s, d1) && FreshKey(c, s, d2) && c.publicOf(d1.priv) != c.publicOf(d2.priv) && Fair(d3) && Fair(d4)
    ensures Leads(StepsWithout(c, x, y, NoRemoval), s, t) && BothAnswered(t, x, y)
  {
    var steps := StepsWithout(c, x, y, NoRemoval);
    var half, i, j, a := HalfWay(c, s, x, y, c.peerIdOf(y), d1, d2, d3, NoRemoval);
    var joined := Next(c, half, AckArrives(x, a));
    Takes(c, half, AckArrives(x, a), x, y, NoRemoval);
    LeadsFurther(steps, s, half, joined);
    var dropped := Next(c, joined, Drop(x, c.peerIdOf(y)));
    Takes(c, joined, Drop(x, c.peerIdOf(y)), x, y, NoRemoval);
    LeadsFurther(steps, s, joined, dropped);
    AckEnds(c, half, x, y, a);
    t := SecondAnswer(c, dropped, x, y, i, j, a, d4, NoRemoval);
    LeadsFurther(steps, s, dropped, t);
  }

  /** An acknowledgement of `y` ends the attempt, and adds at most the session with `y`. */
  lemma AckEnds(c: Suite, s: Net, x: Bytes, y: Bytes, a: Derivation)
    requires x in s.nodes && c.peerIdOf(y) !in s.nodes[x].sessions && a.ack.identityKey == y
    ensures var t := AckHandled(c, s, AckArrives(x, a));
            && t.issues == s.issues && t.derivations == s.derivations && t.nodes.Keys == s.nodes.Keys
            && c.peerIdOf(y) !in t.nodes[x].pending
            && t.nodes[x].sessions - {c.peerIdOf(y)} == s.nodes[x].sessions
  {
    var me, ack, id := s.nodes[x], a.ack, c.peerIdOf(y);
    assert me.sessions - {id} == me.sessions;
    if id in me.pending {
      var keys := ProcessHelloAck(c, ack, me.pending[id], me.contacts);
      if keys.Some? {
        assert me.sessions[id := keys.value] - {id} == me.sessions;
      }
    }
  }

  /** Without the HELLO rule: a HELLO of `x` meant for a third peer reaches `y`. */
  lemma NeedsHelloAddress(c: Suite, s: Net, x: Bytes, y: Bytes, third: Bytes, d1: Dice, d2: Dice, d3: Dice, d4: Dice) returns (t: Net)
    requires Setting(c, s, x, y) && |s.nodes[x].sessions| < MAX_SESSIONS
    requires third != c.peerIdOf(y) && third !in s.nodes[x].sessions && third !in s.nodes[x].pending
    requires FreshKey(c, s, d1) && FreshKey(c, s, d2) && c.publicOf(d1.priv) != c.publicOf(d2.priv) && Fair(d3) && Fair(d4)
    ensures Leads(StepsWithout(c, x, y, HellosArrive), s, t) && BothAnswered(t, x, y)
  {
    var half, i, j, a := HalfWay(c, s, x, y, third, d1, d2, d3, HellosArrive);
    t := SecondAnswer(c, half, x, y, i, j, a, d4, HellosArrive);
    LeadsFurther(StepsWithout(c, x, y, HellosArrive), s, half, t);
  }

  /** The acknowledgement of another HELLO does not verify, and costs the attempt. */
  lemma StrayAck(c: Suite, s: Net, x: Bytes, y: Bytes, i: Issue, a: Derivation, stray: Derivation, z: Issue, d: Dice)
    requires Sound(c) && Issued(c, i) && Issued(c, z) && i.hello.ephemeralKey != z.hello.ephemeralKey && Fair(d)
    requires stray.hello == z.hello && (stray.ack, stray.keys) == Respond(c, z.hello, y, d.priv, d.nonce, d.sid)
    requires x in s.nodes && c.peerIdOf(y) in s.nodes[x].pending && s.nodes[x].pending[c.peerIdOf(y)] == i.state
    requires c.peerIdOf(y) !in s.nodes[x].sessions
    ensures AckHandled(c, s, AckArrives(x, stray)) ==
            s.(nodes := s.nodes[x := s.nodes[x].(pending := s.nodes[x].pending - {c.peerIdOf(y)})])
  {
    var ack := stray.ack;
    if ack.signature == Signature(y, AckSigned(ack.sessionId, ack.ephemeralKey, i.state.ephemeralPublic, i.state.nonce)) {
      AckSignedParts(ack.sessionId, ack.ephemeralKey, z.hello.ephemeralKey, z.hello.nonce,
                     ack.sessionId, ack.ephemeralKey, i.state.ephemeralPublic, i.state.nonce);
    }
  }

  /** A third node connects to `y` and is answered; `x` is not concerned. */
  lemma ThirdAnswered(c: Suite, s: Net, x: Bytes, y: Bytes, z: Bytes, d1: Dice, d2: Dice) returns (t: Net, k: Issue, stray: Derivation)
    requires Sound(c) && x in s.nodes && y in s.nodes && z in s.nodes && x != y && z != x && z != y && FreshKey(c, s, d1) && Fair(d2)
    requires c.peerIdOf(y) !in s.nodes[z].sessions && c.peerIdOf(y) !in s.nodes[z].pending
    requires c.peerIdOf(z) !in s.nodes[y].sessions && c.peerIdOf(z) !in s.nodes[y].pending
    ensures Leads(StepsWithout(c, x, y, AcksArrive), s, t)
    ensures Issued(c, k) && k.hello.ephemeralKey == c.publicOf(d1.priv) && stray in t.derivations
    ensures stray.responder == y && stray.hello == k.hello && k.hello.identityKey == z
    ensures (stray.ack, stray.keys) == Respond(c, k.hello, y, d2.priv, d2.nonce, d2.sid)
    ensures s.issues <= t.issues && s.derivations <= t.derivations && x in t.nodes && y in t.nodes && t.nodes[x] == s.nodes[x]
  {
    var s1;
    s1, k := Hello(c, s, z, c.peerIdOf(y), d1, x, y, AcksArrive);
    t, stray := Answer(c, s1, y, k, d2, x, y, AcksArrive);
    LeadsFurther(StepsWithout(c, x, y, AcksArrive), s, s1, t);
  }

  /** Without the acknowledgement rule: what `y` answered to a third node reaches `x`. */
  lemma NeedsAckAddress(c: Suite, s: Net, x: Bytes, y: Bytes, z: Bytes, d1: Dice, d2: Dice, d3: Dice, d4: Dice, d5: Dice, d6: Dice)
    returns (t: Net)
    requires Setting(c, s, x, y) && |s.nodes[x].sessions| < MAX_SESSIONS && c.peerIdOf(y) in s.nodes[x].contacts
    requires z in s.nodes && z != x && z != y && c.peerIdOf(y) !in s.nodes[z].sessions && c.peerIdOf(y) !in s.nodes[z].pending
    requires c.peerIdOf(z) !in s.nodes[y].sessions && c.peerIdOf(z) !in s.nodes[y].pending
    requires FreshKey(c, s, d1) && FreshKey(c, s, d2) && FreshKey(c, s, d4) && Fair(d3) && Fair(d5) && Fair(d6)
    requires c.publicOf(d1.priv) != c.publicOf(d2.priv) && c.publicOf(d4.priv) != c.publicOf(d1.priv) && c.publicOf(d4.priv) != c.publicOf(d2.priv)
    ensures Leads(StepsWithout(c, x, y, AcksArrive), s, t) && BothAnswered(t, x, y)
  {
    var steps := StepsWithout(c, x, y, AcksArrive);
    var half, i, j, a := HalfWay(c, s, x, y, c.peerIdOf(y), d1, d2, d3, AcksArrive);
    var s2, k, stray := ThirdAnswered(c, half, x, y, z, d4, d5);
    LeadsFurther(steps, s, half, s2);
    StrayAck(c, s2, x, y, i, a, stray, k, d5);
    var popped := Next(c, s2, AckArrives(x, stray));
    Takes(c, s2, AckArrives(x, stray), x, y, AcksArrive);
    LeadsFurther(steps, s, s2, popped);
    t := SecondAnswer(c, popped, x, y, i, j, a, d6, AcksArrive);
    LeadsFurther(steps, s, popped, t);
  }
}
