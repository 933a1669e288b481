/** Both directions of one session. The two ends share the session id and the key, and the nonce of a
    packet is made of the session id and the number alone: it does not say who sent it. */
module Duplex {

  import opened Basics
  import opened OrderedDicts
  import opened Aead
  import opened Sessions
  import opened Queues
  import opened Synchronisation
  import opened Delivery
  import opened DeliveryTheorems
  import opened Runs

  /** Two ends, one system per direction, and for each direction the numbers its receiver accepted from
      a packet its sender sealed. An end's send counter is in the direction it sends in, its receive
      counter in the other. */
  datatype Link = Link(forth: System, back: System, forthSealed: set<nat>, backSealed: set<nat>)

  datatype Move = Forth(e: Event) | Back(e: Event)

  /** A packet the network can deliver to either end: any header around a ciphertext of either end, or a
      ciphertext under some other key. */
  ghost predicate Arrivable(l: Link, p: DataPacket) {
    || (p.sealed.key != l.forth.sender.key && p.sealed.key != l.back.sender.key)
    || exists o :: (o in l.forth.data || o in l.back.data) && o.sealed == p.sealed
  }

  /** DATA, ACK, APP_ACK and SYNC carry the session id and a number, not their sender: the network can
      hand each to either end, also to the one that sent it. */
  ghost predicate CanMove(l: Link, m: Move) {
    && l.forth.queue.Wf() && l.back.queue.Wf()
    && match m.e
       case DataArrives(p) => Arrivable(l, p)
       case AckArrives(n) => n in l.forth.acks || n in l.back.acks
       case AppAckArrives(n) => n in l.forth.appAcks || n in l.back.appAcks
       case SyncArrives(h, _) => Asked(l, h)
       case _ => Enabled(if m.Forth? then l.forth else l.back, m.e)
  }

  ghost predicate Asked(l: Link, h: nat) {
    h in l.forth.syncs || h in l.back.syncs
  }

  /** This direction's sender sealed the packet. */
  ghost predicate FromPeer(s: System, p: DataPacket) {
    exists o :: o in s.data && o.sealed == p.sealed
  }

  /** The packet makes the receiver accept what this direction's sender sealed. */
  ghost predicate TakenFromPeer(s: System, e: Event) {
    e.DataArrives? && e.packet.sessionId == s.receiver.sessionId && Decrypted(e.packet, s.receiver).Some? && FromPeer(s, e.packet)
  }

  ghost function SealedAfter(s: System, sealed: set<nat>, e: Event): set<nat> {
    if TakenFromPeer(s, e) then sealed + {e.packet.number} else sealed
  }

  ghost function Moved(l: Link, m: Move): Link
    requires l.forth.queue.Wf() && l.back.queue.Wf()
  {
    match m
    case Forth(e) => l.(forth := Next(l.forth, e), forthSealed := SealedAfter(l.forth, l.forthSealed, e))
    case Back(e) => l.(back := Next(l.back, e), backSealed := SealedAfter(l.back, l.backSealed, e))
  }

  ghost predicate Happens(l: Link, ms: seq<Move>)
    decreases |ms|
  {
    ms == [] || (CanMove(l, ms[0]) && Happens(Moved(l, ms[0]), ms[1..]))
  }

  ghost function Later(l: Link, ms: seq<Move>): Link
    requires Happens(l, ms)
    decreases |ms|
  {
    if ms == [] then l else Later(Moved(l, ms[0]), ms[1..])
  }

  function Lower(m: nat, n: nat): nat {
    if m <= n then m else n
  }

  /** The start of a session between two ends with their queues. A SYNC of either end can reach either
      end, so none asks for less than the lower of the two receive counters. */
  ghost function StartWith(qa: Queue, a: SessionState, ca: map<nat, Bytes>, qb: Queue, b: SessionState, cb: map<nat, Bytes>): Link {
    Link(BeginAt(qa, a, b, Lower(a.recv, b.recv), ca), BeginAt(qb, b, a, Lower(a.recv, b.recv), cb), {}, {})
  }

  ghost function Start(qa: Queue, a: SessionState, qb: Queue, b: SessionState): Link {
    var low := Lower(a.recv, b.recv);
    StartWith(qa, a, CarriedTexts(qa, a.peer, low), qb, b, CarriedTexts(qb, b.peer, low))
  }

  /** The same link seen from the other end. */
  function Mirror(l: Link): Link {
    Link(l.back, l.forth, l.backSealed, l.forthSealed)
  }

  function MirrorMove(m: Move): Move {
    match m case Forth(e) => Back(e) case Back(e) => Forth(e)
  }

  lemma MirrorStep(l: Link, m: Move)
    ensures CanMove(Mirror(l), MirrorMove(m)) <==> CanMove(l, m)
    ensures CanMove(l, m) ==> Moved(Mirror(l), MirrorMove(m)) == Mirror(Moved(l, m))
  {
    if m.e.DataArrives? {
      assert Arrivable(Mirror(l), m.e.packet) <==> Arrivable(l, m.e.packet);
    }
  }

  // ---- runs

  ghost function Steps(): (Link, Move, Link) -> bool {
    (l: Link, m: Move, k: Link) => CanMove(l, m) && k == Moved(l, m)
  }

  ghost predicate Reaches(l: Link, k: Link) {
    Leads(Steps(), l, k)
  }

  lemma Taking(l: Link, m: Move)
    requires CanMove(l, m)
    ensures Reaches(l, Moved(l, m))
  {
    assert Steps()(l, m, Moved(l, m));
    LeadsStep(Steps(), l, m, Moved(l, m));
  }

  lemma TakingOn(l: Link, k: Link, m: Move)
    requires Reaches(l, k) && CanMove(k, m)
    ensures Reaches(l, Moved(k, m))
  {
    Taking(k, m);
    LeadsFurther(Steps(), l, k, Moved(k, m));
  }

  lemma {:induction false} TraceHappens(states: seq<Link>, ms: seq<Move>)
    requires Trace(Steps(), states, ms)
    ensures Happens(states[0], ms) && Later(states[0], ms) == states[|ms|]
    decreases |ms|
  {
    if ms != [] {
      TraceTail(Steps(), states, ms);
      TraceHappens(states[1..], ms[1..]);
    }
  }

  /** What a state leads to it reaches by a list of moves. */
  lemma ReachesByMoves(l: Link, k: Link) returns (ms: seq<Move>)
    requires Reaches(l, k)
    ensures Happens(l, ms) && Later(l, ms) == k
  {
    var states: seq<Link>;
    states, ms :| Trace(Steps(), states, ms) && states[0] == l && states[|ms|] == k;
    TraceHappens(states, ms);
  }

  /** What one end can do the other can. */
  lemma Turned(l: Link, k: Link)
    requires Reaches(Mirror(l), Mirror(k))
    ensures Reaches(l, k)
  {
    var states, ms :| Trace(Steps(), states, ms) && states[0] == Mirror(l) && states[|ms|] == Mirror(k);
    var turned, moves := seq(|states|, i requires 0 <= i < |states| => Mirror(states[i])), seq(|ms|, i requires 0 <= i < |ms| => MirrorMove(ms[i]));
    forall i | 0 <= i < |moves| ensures StepAt(Steps(), turned, moves, i) {
      assert StepAt(Steps(), states, ms, i);
      MirrorStep(states[i], ms[i]);
    }
    assert Trace(Steps(), turned, moves) && turned[0] == l && turned[|moves|] == k;
  }

  // ---- what every run keeps

  ghost predicate LinkInv(l: Link) {
    SenderInv(l.forth) && SenderInv(l.back) && SameSession(l.forth.sender, l.back.sender) && l.forth.floor == l.back.floor
  }

  lemma LinkStep(l: Link, m: Move)
    requires LinkInv(l) && CanMove(l, m)
    ensures LinkInv(Moved(l, m))
    ensures Extends(l.forth, Moved(l, m).forth) && Extends(l.back, Moved(l, m).back)
  {
    match m {
      case Forth(e) =>
        SenderStep(l.forth, e);
        ExtendsNext(l.forth, e);
      case Back(e) =>
        SenderStep(l.back, e);
        ExtendsNext(l.back, e);
    }
  }

  lemma {:induction false} LinkRun(l: Link, ms: seq<Move>)
    requires LinkInv(l) && Happens(l, ms)
    ensures LinkInv(Later(l, ms))
    ensures Extends(l.forth, Later(l, ms).forth) && Extends(l.back, Later(l, ms).back)
    decreases |ms|
  {
    if ms != [] {
      LinkStep(l, ms[0]);
      LinkRun(Moved(l, ms[0]), ms[1..]);
    }
  }

  // ---- one key, one nonce, two texts

  /** The direction has a packet under this number. */
  ghost predicate Uses(s: System, n: nat) {
    exists p :: p in s.data && p.number == n
  }

  /** No number is used in both directions unless with the same text. */
  ghost predicate Apart(l: Link) {
    forall n :: Uses(l.forth, n) && Uses(l.back, n) ==> TextOf(l.forth, n) == TextOf(l.back, n)
  }

  lemma SharedText(l: Link, p: DataPacket, q: DataPacket)
    requires LinkInv(l) && p in l.forth.data && q in l.back.data
    ensures p.sealed.nonce == q.sealed.nonce ==> p.number == q.number
    ensures TextOf(l.forth, p.number) == Some(p.sealed.plaintext) && TextOf(l.back, q.number) == Some(q.sealed.plaintext)
    ensures p.number == q.number ==> (p == q <==> p.sealed.plaintext == q.sealed.plaintext)
  {
    assert Genuine(l.forth, p) && Genuine(l.back, q);
    if p.sealed.nonce == q.sealed.nonce {
      NonceInjective(l.forth.sender.sessionId, p.number, q.number);
    }
  }

  /** In every state of every run of both ends: under the shared key no number and no nonce carries two
      packets if and only if the numbers the two ends have used are disjoint or carry equal texts. */
  lemma SharedKeyState(l: Link)
    requires LinkInv(l)
    ensures OnePacketPerNumber(l.forth.data + l.back.data) <==> Apart(l)
  {
    GenuineUnique(l.forth);
    GenuineUnique(l.back);
    if Apart(l) {
      forall p, q | p in l.forth.data + l.back.data && q in l.forth.data + l.back.data &&
                    (p.number == q.number || p.sealed.nonce == q.sealed.nonce)
        ensures p == q
      {
        if p in l.forth.data && q in l.back.data {
          ApartPair(l, p, q);
        } else if q in l.forth.data && p in l.back.data {
          ApartPair(l, q, p);
        }
      }
    } else {
      var n :| Uses(l.forth, n) && Uses(l.back, n) && TextOf(l.forth, n) != TextOf(l.back, n);
      var p :| p in l.forth.data && p.number == n;
      var q :| q in l.back.data && q.number == n;
      SharedText(l, p, q);
      assert p in l.forth.data + l.back.data && q in l.forth.data + l.back.data && p.number == q.number && p != q;
    }
  }

  lemma ApartPair(l: Link, p: DataPacket, q: DataPacket)
    requires LinkInv(l) && Apart(l) && p in l.forth.data && q in l.back.data
    requires p.number == q.number || p.sealed.nonce == q.sealed.nonce
    ensures p == q
  {
    SharedText(l, p, q);
    assert Uses(l.forth, p.number) && Uses(l.back, p.number);
  }

  lemma WfStays(s: System, e: Event)
    requires s.queue.Wf()
    ensures Next(s, e).queue.Wf()
  {
    if e.SyncArrives? {
      SyncKeepsMessages(s.queue, s.sender, e.highest, e.now, 0);
    }
  }

  /** Some run puts two packets under one number or nonce. */
  ghost predicate CanClash(l: Link) {
    exists k :: Reaches(l, k) && !OnePacketPerNumber(k.forth.data + k.back.data)
  }

  lemma ClashTurned(l: Link)
    requires CanClash(Mirror(l))
    ensures CanClash(l)
  {
    var k :| Reaches(Mirror(l), k) && !OnePacketPerNumber(k.forth.data + k.back.data);
    assert Mirror(Mirror(k)) == k;
    Turned(l, Mirror(k));
    assert Mirror(k).forth.data + Mirror(k).back.data == k.forth.data + k.back.data;
  }

  lemma Clashes(l: Link, k: Link, n: nat, x: Bytes, y: Bytes)
    requires Reaches(l, k) && n < TWO_32 && x != y
    requires SealData(l.forth.sender.sessionId, l.forth.sender.key, n, x) in k.forth.data + k.back.data
    requires SealData(l.forth.sender.sessionId, l.forth.sender.key, n, y) in k.forth.data + k.back.data
    ensures CanClash(l)
  {
    Clash(k.forth.data + k.back.data, l.forth.sender, n, x, y);
  }

  /** Two links that can be told apart only in the queue and the packets of the first direction. */
  ghost predicate ForthGrew(l: Link, k: Link) {
    && k.back == l.back && k.forth.queue.Wf() && l.forth.data <= k.forth.data
    && k.forth.sender == l.forth.sender.(send := k.forth.sender.send) && k.forth.receiver == l.forth.receiver
    && k.forth.syncs == l.forth.syncs
  }

  /** The first end can be driven to seal any text that fits a frame under any number it has not reached. */
  lemma {:induction false} ForthReachesNumber(l: Link, n: nat, text: Bytes) returns (k: Link)
    requires l.forth.queue.Wf() && l.back.queue.Wf() && l.forth.sender.send <= n < TWO_32 && Framed(text)
    ensures Reaches(l, k) && ForthGrew(l, k)
    ensures SealData(l.forth.sender.sessionId, l.forth.sender.key, n, text) in k.forth.data
    decreases n - l.forth.sender.send
  {
    var id := FreshId(l.forth.queue);
    var one := ForthSends(l, id, text);
    if l.forth.sender.send == n {
      k := one;
    } else {
      k := ForthReachesNumber(one, n, text);
      LeadsFurther(Steps(), l, one, k);
    }
  }

  lemma ForthSends(l: Link, id: MessageId, text: Bytes) returns (k: Link)
    requires l.forth.queue.Wf() && l.back.queue.Wf() && id !in l.forth.queue.at && l.forth.sender.send < TWO_32
    ensures Reaches(l, k) && ForthGrew(l, k) && k.forth.sender.send == l.forth.sender.send + 1
    ensures k.forth.queue.keys == l.forth.queue.keys + [id]
    ensures k.forth.queue.at == l.forth.queue.at[id := Entry(l.forth.sender.peer, Pending, 0, text, Some(l.forth.sender.send), Some(0.0))]
    ensures Framed(text) ==> SealData(l.forth.sender.sessionId, l.forth.sender.key, l.forth.sender.send, text) in k.forth.data
    ensures k.forth.accepted == l.forth.accepted && k.forth.acks == l.forth.acks
  {
    var queued := Moved(l, Forth(Enqueue(id, text)));
    Taking(l, Forth(Enqueue(id, text)));
    assert queued.forth.queue.Wf();
    k := Moved(queued, Forth(Send(id, 0.0)));
    TakingOn(l, queued, Forth(Send(id, 0.0)));
    assert Build(queued.forth.queue, id, queued.forth.sender, 0.0).result.Built?;
  }

  /** The end with the lower receive counter sends its SYNC. */
  lemma Asking(l: Link) returns (k: Link)
    requires l.forth.queue.Wf() && l.back.queue.Wf()
    ensures Reaches(l, k) && Asked(k, Low(l))
    ensures k.forth == l.forth.(syncs := k.forth.syncs) && k.back == l.back.(syncs := k.back.syncs)
  {
    var m := if l.forth.receiver.recv <= l.back.receiver.recv then Forth(SendSync) else Back(SendSync);
    k := Moved(l, m);
    Taking(l, m);
  }

  ghost predicate Resent(s: System, h: nat, data: set<DataPacket>)
    requires s.queue.Wf()
  {
    forall id :: id in s.queue.at && Resendable(s.queue.at[id], s.sender.peer, h) && InFront(s.queue, s.sender.peer, h, id) ==>
      SealData(s.sender.sessionId, s.sender.key, s.queue.at[id].number.value, s.queue.at[id].plaintext) in data
  }

  /** A SYNC of either end makes the first end send every message in front again. */
  lemma ForthAnswers(l: Link, h: nat) returns (k: Link)
    requires l.forth.queue.Wf() && l.back.queue.Wf() && Asked(l, h)
    ensures Reaches(l, k) && ForthGrew(l, k) && Resent(l.forth, h, k.forth.data) && k.forth.sender == l.forth.sender
  {
    k := Moved(l, Forth(SyncArrives(h, 0.0)));
    Taking(l, Forth(SyncArrives(h, 0.0)));
    WfStays(l.forth, SyncArrives(h, 0.0));
    forall id | id in l.forth.queue.at && Resendable(l.forth.queue.at[id], l.forth.sender.peer, h) && InFront(l.forth.queue, l.forth.sender.peer, h, id)
      ensures SealData(l.forth.sender.sessionId, l.forth.sender.key, l.forth.queue.at[id].number.value, l.forth.queue.at[id].plaintext) in k.forth.data
    {
      FrontSent(l.forth.queue, l.forth.sender, h, 0.0, id);
    }
  }

  /** At the start the first end's messages in front go out again. */
  lemma ForthResends(l: Link) returns (k: Link)
    requires l.forth.queue.Wf() && l.back.queue.Wf()
    ensures Reaches(l, k) && k.forth.queue.Wf() && l.forth.data <= k.forth.data && k.forth.sender == l.forth.sender
    ensures k.back == l.back.(syncs := k.back.syncs) && k.forth.receiver == l.forth.receiver
    ensures Asked(k, Low(l)) && Resent(l.forth, Low(l), k.forth.data)
  {
    var asked := Asking(l);
    k := ForthAnswers(asked, Low(l));
    LeadsFurther(Steps(), l, asked, k);
  }

  function Low(l: Link): nat {
    Lower(l.forth.receiver.recv, l.back.receiver.recv)
  }

  /** Whenever both ends can still send, whatever their queues and counters, some run puts two texts
      under one key and nonce. */
  lemma BothSendersClash(l: Link)
    requires l.forth.queue.Wf() && l.back.queue.Wf() && SameSession(l.forth.sender, l.back.sender)
    requires l.forth.sender.send < TWO_32 && l.back.sender.send < TWO_32
    ensures CanClash(l)
  {
    var n := Max(l.forth.sender.send, l.back.sender.send);
    var k := ForthReachesNumber(l, n, [0]);
    BackReachesClash(l, k, n, [0], [1]);
  }

  /** The first end has a packet under a number the second has yet to reach. */
  lemma BackReachesClash(l: Link, k: Link, n: nat, x: Bytes, y: Bytes)
    requires Reaches(l, k) && k.forth.queue.Wf() && k.back.queue.Wf() && SameSession(l.forth.sender, k.back.sender)
    requires k.back.sender.send <= n < TWO_32 && x != y && Framed(y)
    requires SealData(l.forth.sender.sessionId, l.forth.sender.key, n, x) in k.forth.data
    ensures CanClash(l)
  {
    var t := ForthReachesNumber(Mirror(k), n, y);
    assert Mirror(Mirror(t)) == t;
    Turned(k, Mirror(t));
    LeadsFurther(Steps(), l, k, Mirror(t));
    Clashes(l, Mirror(t), n, x, y);
  }

  /** A number one end may resend and the other has yet to reach. */
  lemma ResentReached(l: Link, id: MessageId)
    requires l.forth.queue.Wf() && l.back.queue.Wf() && SameSession(l.forth.sender, l.back.sender)
    requires id in l.forth.queue.at && MayResend(l.forth, Low(l), id) && l.forth.queue.at[id].number.value >= l.back.sender.send
    ensures CanClash(l)
  {
    var k := ForthResends(l);
    BackReachesClash(l, k, l.forth.queue.at[id].number.value, l.forth.queue.at[id].plaintext, []);
  }

  ghost predicate MayResend(s: System, h: nat, id: MessageId)
    requires s.queue.Wf() && id in s.queue.at
  {
    Resendable(s.queue.at[id], s.sender.peer, h) && InFront(s.queue, s.sender.peer, h, id)
  }

  lemma BothResend(l: Link, i: MessageId, j: MessageId)
    requires l.forth.queue.Wf() && l.back.queue.Wf() && SameSession(l.forth.sender, l.back.sender)
    requires i in l.forth.queue.at && MayResend(l.forth, Low(l), i) && j in l.back.queue.at && MayResend(l.back, Low(l), j)
    requires l.forth.queue.at[i].number == l.back.queue.at[j].number && l.forth.queue.at[i].plaintext != l.back.queue.at[j].plaintext
    ensures CanClash(l)
  {
    var k := ForthResends(l);
    var t := ForthAnswers(Mirror(k), Low(l));
    assert Mirror(Mirror(t)) == t;
    Turned(k, Mirror(t));
    LeadsFurther(Steps(), l, k, Mirror(t));
    Clashes(l, Mirror(t), l.forth.queue.at[i].number.value, l.forth.queue.at[i].plaintext, l.back.queue.at[j].plaintext);
  }

  lemma UncleanForth(l: Link)
    requires l.forth.queue.Wf() && l.back.queue.Wf()
    requires !CleanFront(l.forth.queue, l.forth.sender.peer, l.forth.sender.send, Low(l))
    ensures CanClash(l)
  {
    var q, peer, low := l.forth.queue, l.forth.sender.peer, Low(l);
    var k := ForthResends(l);
    if id :| id in q.at && Resendable(q.at[id], peer, low) && InFront(q, peer, low, id) && q.at[id].number.value >= l.forth.sender.send {
      var n := q.at[id].number.value;
      var t := ForthReachesNumber(k, n, []);
      LeadsFurther(Steps(), l, k, t);
      Clashes(l, t, n, q.at[id].plaintext, []);
    } else {
      var id, other :| id in q.at && other in q.at && q.at[id].number == q.at[other].number &&
        Resendable(q.at[id], peer, low) && Resendable(q.at[other], peer, low) &&
        InFront(q, peer, low, id) && InFront(q, peer, low, other) && q.at[id].plaintext != q.at[other].plaintext;
      Clashes(l, k, q.at[id].number.value, q.at[id].plaintext, q.at[other].plaintext);
    }
  }

  /** Every number that may be resent lies below the bound. */
  ghost predicate Under(q: Queue, peer: Bytes, low: nat, bound: nat) {
    forall id :: id in q.at && Resendable(q.at[id], peer, low) ==> q.at[id].number.value < bound
  }

  ghost predicate UnderFront(q: Queue, peer: Bytes, low: nat, bound: nat)
    requires q.Wf()
  {
    forall id :: id in q.at && Resendable(q.at[id], peer, low) && InFront(q, peer, low, id) ==> q.at[id].number.value < bound
  }

  /** What both ends may resend under one number has one text. */
  ghost predicate Agreeing(qa: Queue, a: Bytes, qb: Queue, b: Bytes, low: nat) {
    forall i, j | i in qa.at && j in qb.at && Resendable(qa.at[i], a, low) && Resendable(qb.at[j], b, low) ::
      qa.at[i].number == qb.at[j].number ==> qa.at[i].plaintext == qb.at[j].plaintext
  }

  ghost predicate AgreeingFront(qa: Queue, a: Bytes, qb: Queue, b: Bytes, low: nat)
    requires qa.Wf() && qb.Wf()
  {
    forall i, j | i in qa.at && j in qb.at && Resendable(qa.at[i], a, low) && Resendable(qb.at[j], b, low) &&
                  InFront(qa, a, low, i) && InFront(qb, b, low, j) ::
      qa.at[i].number == qb.at[j].number ==> qa.at[i].plaintext == qb.at[j].plaintext
  }

  /** One end has run out of numbers, and no number it may still resend is one the other may use. */
  ghost predicate Silent(qa: Queue, a: SessionState, qb: Queue, b: SessionState) {
    var low := Lower(a.recv, b.recv);
    && Clean(qa, a.peer, a.send, low) && Clean(qb, b.peer, b.send, low)
    && (a.send >= TWO_32 || b.send >= TWO_32)
    && Under(qa, a.peer, low, b.send) && Under(qb, b.peer, low, a.send) && Agreeing(qa, a.peer, qb, b.peer, low)
  }

  /** Silent as far as the messages in front go. */
  ghost predicate SilentFront(qa: Queue, a: SessionState, qb: Queue, b: SessionState, low: nat)
    requires qa.Wf() && qb.Wf()
  {
    && CleanFront(qa, a.peer, a.send, low) && CleanFront(qb, b.peer, b.send, low)
    && (a.send >= TWO_32 || b.send >= TWO_32)
    && UnderFront(qa, a.peer, low, b.send) && UnderFront(qb, b.peer, low, a.send) && AgreeingFront(qa, a.peer, qb, b.peer, low)
  }

  lemma SilentApart(qa: Queue, a: SessionState, qb: Queue, b: SessionState, l: Link)
    requires Silent(qa, a, qb, b) && LinkInv(l)
    requires Extends(Start(qa, a, qb, b).forth, l.forth) && Extends(Start(qa, a, qb, b).back, l.back)
    ensures Apart(l)
  {
    var low := Lower(a.recv, b.recv);
    forall n | Uses(l.forth, n) && Uses(l.back, n) ensures TextOf(l.forth, n) == TextOf(l.back, n) {
      var p :| p in l.forth.data && p.number == n;
      var q :| q in l.back.data && q.number == n;
      assert Genuine(l.forth, p) && Genuine(l.back, q);
      TextSource(qa, a, b, low, l.forth, n);
      TextSource(qb, b, a, low, l.back, n);
      SilentNumber(qa, a, qb, b, n);
    }
  }

  /** A carried text comes from a resendable message, any other from a number at or above the first. */
  lemma TextSource(q: Queue, s: SessionState, r: SessionState, low: nat, t: System, n: nat)
    requires Extends(BeginAt(q, s, r, low, CarriedTexts(q, s.peer, low)), t) && CountersInv(t) && TextOf(t, n).Some?
    ensures n !in CarriedTexts(q, s.peer, low) ==> s.send <= n < TWO_32
    ensures n in CarriedTexts(q, s.peer, low) ==> TextOf(t, n) == Some(CarriedTexts(q, s.peer, low)[n])
  {
  }

  /** What silence says of one number. */
  lemma SilentNumber(qa: Queue, a: SessionState, qb: Queue, b: SessionState, n: nat)
    requires Silent(qa, a, qb, b)
    ensures var low := Lower(a.recv, b.recv);
            var ca, cb := CarriedTexts(qa, a.peer, low), CarriedTexts(qb, b.peer, low);
            && (n in ca ==> n < b.send) && (n in cb ==> n < a.send)
            && (n in ca && n in cb ==> ca[n] == cb[n])
  {
    var low := Lower(a.recv, b.recv);
    var ca, cb := CarriedTexts(qa, a.peer, low), CarriedTexts(qb, b.peer, low);
    if n in ca {
      var i := CarriedFrom(qa, a.peer, low, n);
      assert qa.at[i].number.value < b.send;
      if n in cb {
        var j := CarriedFrom(qb, b.peer, low, n);
        assert qa.at[i].plaintext == qb.at[j].plaintext;
      }
    }
    if n in cb {
      var j := CarriedFrom(qb, b.peer, low, n);
      assert qb.at[j].number.value < a.send;
    }
  }

  lemma CarriedFrom(q: Queue, peer: Bytes, floor: nat, n: nat) returns (id: MessageId)
    requires n in CarriedTexts(q, peer, floor)
    ensures id in q.at && Resendable(q.at[id], peer, floor) && q.at[id].number == Some(n)
    ensures CarriedTexts(q, peer, floor)[n] == q.at[id].plaintext
  {
    id :| id in q.at && Resendable(q.at[id], peer, floor) && q.at[id].number == Some(n) &&
          CarriedTexts(q, peer, floor)[n] == q.at[id].plaintext;
  }

  /** A start that is not silent in front has a clashing run. */
  lemma NotSilentClashes(l: Link)
    requires l.forth.queue.Wf() && l.back.queue.Wf() && SameSession(l.forth.sender, l.back.sender)
    requires !SilentFront(l.forth.queue, l.forth.sender, l.back.queue, l.back.sender, Low(l))
    ensures CanClash(l)
  {
    var qa, a, qb, b, low := l.forth.queue, l.forth.sender, l.back.queue, l.back.sender, Low(l);
    if !CleanFront(qa, a.peer, a.send, low) {
      UncleanForth(l);
    } else if !CleanFront(qb, b.peer, b.send, low) {
      UncleanForth(Mirror(l));
      ClashTurned(l);
    } else if a.send < TWO_32 && b.send < TWO_32 {
      BothSendersClash(l);
    } else if !UnderFront(qa, a.peer, low, b.send) {
      OverClashes(l);
    } else if !UnderFront(qb, b.peer, low, a.send) {
      OverClashes(Mirror(l));
      ClashTurned(l);
    } else {
      DisagreeingClash(l);
    }
  }

  lemma OverClashes(l: Link)
    requires l.forth.queue.Wf() && l.back.queue.Wf() && SameSession(l.forth.sender, l.back.sender)
    requires !UnderFront(l.forth.queue, l.forth.sender.peer, Low(l), l.back.sender.send)
    ensures CanClash(l)
  {
    var q, peer, low := l.forth.queue, l.forth.sender.peer, Low(l);
    var id :| id in q.at && Resendable(q.at[id], peer, low) && InFront(q, peer, low, id) && q.at[id].number.value >= l.back.sender.send;
    ResentReached(l, id);
  }

  lemma DisagreeingClash(l: Link)
    requires l.forth.queue.Wf() && l.back.queue.Wf() && SameSession(l.forth.sender, l.back.sender)
    requires !AgreeingFront(l.forth.queue, l.forth.sender.peer, l.back.queue, l.back.sender.peer, Low(l))
    ensures CanClash(l)
  {
    var qa, a, qb, b, low := l.forth.queue, l.forth.sender.peer, l.back.queue, l.back.sender.peer, Low(l);
    var i, j :| i in qa.at && j in qb.at && Resendable(qa.at[i], a, low) && Resendable(qb.at[j], b, low) &&
                InFront(qa, a, low, i) && InFront(qb, b, low, j) &&
                qa.at[i].number == qb.at[j].number && qa.at[i].plaintext != qb.at[j].plaintext;
    BothResend(l, i, j);
  }

  /** No run of both ends ever puts two packets under one number or one nonce. */
  ghost predicate NeverShares(l: Link) {
    forall ms :: Happens(l, ms) ==> OnePacketPerNumber(Later(l, ms).forth.data + Later(l, ms).back.data)
  }

  lemma SilentNeverShares(qa: Queue, a: SessionState, qb: Queue, b: SessionState)
    requires qa.Wf() && qb.Wf() && SameSession(a, b) && Silent(qa, a, qb, b)
    ensures NeverShares(Start(qa, a, qb, b))
  {
    var l, low := Start(qa, a, qb, b), Lower(a.recv, b.recv);
    CleanStarts(qa, a, b, low);
    CleanStarts(qb, b, a, low);
    forall ms | Happens(l, ms) ensures OnePacketPerNumber(Later(l, ms).forth.data + Later(l, ms).back.data) {
      LinkRun(l, ms);
      SilentApart(qa, a, qb, b, Later(l, ms));
      SharedKeyState(Later(l, ms));
    }
  }

  lemma UnderIsFront(q: Queue, peer: Bytes, low: nat, bound: nat)
    requires q.Wf() && Unblocked(q, peer, low) && UnderFront(q, peer, low, bound)
    ensures Under(q, peer, low, bound)
  {
    forall id | id in q.at ensures InFront(q, peer, low, id) {
      AllInFront(q, peer, low, id);
    }
  }

  lemma AgreeingIsFront(qa: Queue, a: Bytes, qb: Queue, b: Bytes, low: nat)
    requires qa.Wf() && qb.Wf() && Unblocked(qa, a, low) && Unblocked(qb, b, low) && AgreeingFront(qa, a, qb, b, low)
    ensures Agreeing(qa, a, qb, b, low)
  {
    forall id | id in qa.at ensures InFront(qa, a, low, id) {
      AllInFront(qa, a, low, id);
    }
    forall id | id in qb.at ensures InFront(qb, b, low, id) {
      AllInFront(qb, b, low, id);
    }
  }

  lemma SilentIsFront(qa: Queue, a: SessionState, qb: Queue, b: SessionState)
    requires qa.Wf() && qb.Wf() && SilentFront(qa, a, qb, b, Lower(a.recv, b.recv))
    requires Unblocked(qa, a.peer, Lower(a.recv, b.recv)) && Unblocked(qb, b.peer, Lower(a.recv, b.recv))
    ensures Silent(qa, a, qb, b)
  {
    var low := Lower(a.recv, b.recv);
    CleanIsFront(qa, a.peer, a.send, low);
    CleanIsFront(qb, b.peer, b.send, low);
    UnderIsFront(qa, a.peer, low, b.send);
    UnderIsFront(qb, b.peer, low, a.send);
    AgreeingIsFront(qa, a.peer, qb, b.peer, low);
  }

  /** Under the shared key: a session that is as good as silent (both queues clean, one end out of
      numbers, and what either may resend out of the other's reach) never puts two texts under one nonce
      in any run of both ends; one that never does is silent as far as the messages go that no text too
      long for a frame stands before. Without such a text it is one if and only if it is the other. Two
      fresh sessions, which both start at 1, are not. */
  lemma SharedKeyExact(qa: Queue, a: SessionState, qb: Queue, b: SessionState)
    requires qa.Wf() && qb.Wf() && SameSession(a, b)
    ensures var l, low := Start(qa, a, qb, b), Lower(a.recv, b.recv);
            && (Silent(qa, a, qb, b) ==> NeverShares(l))
            && (NeverShares(l) ==> SilentFront(qa, a, qb, b, low))
            && (Unblocked(qa, a.peer, low) && Unblocked(qb, b.peer, low) ==> (NeverShares(l) <==> Silent(qa, a, qb, b)))
  {
    var l, low := Start(qa, a, qb, b), Lower(a.recv, b.recv);
    if Silent(qa, a, qb, b) {
      SilentNeverShares(qa, a, qb, b);
    }
    if !SilentFront(qa, a, qb, b, low) {
      NotSilentClashes(l);
      var k :| Reaches(l, k) && !OnePacketPerNumber(k.forth.data + k.back.data);
      var ms := ReachesByMoves(l, k);
      assert Happens(l, ms) && !OnePacketPerNumber(Later(l, ms).forth.data + Later(l, ms).back.data);
    } else if Unblocked(qa, a.peer, low) && Unblocked(qb, b.peer, low) {
      SilentIsFront(qa, a, qb, b);
    }
  }

  // ---- a packet handed back to its sender

  /** The end that sends in the other direction is handed its own packet: it opens, moves the receive
      counter to its number, and makes every packet of the peer up to that number a replay. */
  lemma ReflectedOpens(l: Link, p: DataPacket)
    requires LinkInv(l) && p in l.back.data && p.number > l.forth.receiver.recv
    ensures Decrypted(p, l.forth.receiver) == Some(p.sealed.plaintext)
    ensures var t := AfterData(l.forth, p);
            t.receiver.recv == p.number && t.accepted == l.forth.accepted + [Item(p.number, p.sealed.plaintext)] &&
            forall q :: q in l.forth.data && q.number <= p.number ==> Decrypted(q, t.receiver) == None
  {
    assert Genuine(l.back, p);
  }

  /** A packet that opens carries the peer's text if and only if the peer sealed it, or the receiver's
      own text under that number is the same. */
  lemma OpenedExact(l: Link, p: DataPacket)
    requires LinkInv(l) && Arrivable(l, p) && Decrypted(p, l.forth.receiver).Some?
    ensures Decrypted(p, l.forth.receiver) == TextOf(l.forth, p.number) <==>
            FromPeer(l.forth, p) || TextOf(l.forth, p.number) == TextOf(l.back, p.number)
  {
    if FromPeer(l.forth, p) {
      OpenedIsGenuine(l.forth, p);
    } else {
      var o :| o in l.back.data && o.sealed == p.sealed;
      assert Genuine(l.back, o);
      NonceInjective(l.forth.receiver.sessionId, o.number, p.number);
    }
  }

  /** The guard of an arrival: the packet does not open, or the peer sealed it, or both texts agree. */
  ghost predicate Sincere(s: System, other: System, p: DataPacket) {
    p.sessionId == s.receiver.sessionId && Decrypted(p, s.receiver).Some? ==>
      FromPeer(s, p) || TextOf(s, p.number) == TextOf(other, p.number)
  }

  ghost predicate SincereMove(l: Link, m: Move) {
    m.e.DataArrives? ==> if m.Forth? then Sincere(l.forth, l.back, m.e.packet) else Sincere(l.back, l.forth, m.e.packet)
  }

  ghost predicate SincereRun(l: Link, ms: seq<Move>)
    requires Happens(l, ms)
    decreases |ms|
  {
    ms == [] || (SincereMove(l, ms[0]) && SincereRun(Moved(l, ms[0]), ms[1..]))
  }

  /** Both outputs are right all along the run: ascending numbers, each with the peer's text. */
  ghost predicate RightThroughout(l: Link, ms: seq<Move>)
    requires Happens(l, ms)
    decreases |ms|
  {
    OutputInv(l.forth) && OutputInv(l.back) && (ms == [] || RightThroughout(Moved(l, ms[0]), ms[1..]))
  }

  lemma ForthArrival(l: Link, p: DataPacket)
    requires LinkInv(l) && OutputInv(l.forth) && Arrivable(l, p)
    ensures OutputInv(AfterData(l.forth, p)) <==> Sincere(l.forth, l.back, p)
  {
    DataKeepsPackets(l.forth, p);
    if Decrypted(p, l.forth.receiver).Some? {
      OpenedExact(l, p);
    }
  }

  lemma MoveExact(l: Link, m: Move)
    requires LinkInv(l) && OutputInv(l.forth) && OutputInv(l.back) && CanMove(l, m)
    ensures OutputInv(Moved(l, m).forth) && OutputInv(Moved(l, m).back) <==> SincereMove(l, m)
  {
    if m.e.DataArrives? {
      if m.Forth? {
        ForthArrival(l, m.e.packet);
      } else {
        ForthArrival(Mirror(l), m.e.packet);
      }
    } else if m.Forth? {
      SenderStep(l.forth, m.e);
    } else {
      SenderStep(l.back, m.e);
    }
  }

  /** Over every run of both ends: both outputs are right after every step if and only if no end was
      ever handed a packet of its own that opened under a number for which the peer has another text. */
  lemma {:induction false} SincereExact(l: Link, ms: seq<Move>)
    requires LinkInv(l) && OutputInv(l.forth) && OutputInv(l.back) && Happens(l, ms)
    ensures RightThroughout(l, ms) <==> SincereRun(l, ms)
    decreases |ms|
  {
    if ms != [] {
      MoveExact(l, ms[0]);
      if SincereMove(l, ms[0]) {
        LinkStep(l, ms[0]);
        SincereExact(Moved(l, ms[0]), ms[1..]);
      }
    }
  }

  // ---- delivered means received, in both directions

  /** What a direction's receiver accepted is the sender's text under its number if the sender sealed it,
      and the receiver's own otherwise. */
  ghost predicate TakenInv(s: System, other: System, sealed: set<nat>) {
    && (forall n :: n in sealed ==> WasAccepted(s, n))
    && (forall i :: 0 <= i < |s.accepted| ==>
          s.accepted[i].number <= s.receiver.recv &&
          TextOf(if s.accepted[i].number in sealed then s else other, s.accepted[i].number) == Some(s.accepted[i].plaintext))
  }

  /** A message settled before the session and not sent since awaits no ACK. */
  ghost predicate ExemptInv(s: System) {
    forall id :: id in s.settled && id in s.queue.at ==> s.queue.at[id].status != Pending
  }

  ghost predicate DuplexInv(l: Link) {
    && LinkInv(l) && Numbered(l.forth) && Numbered(l.back) && ExemptInv(l.forth) && ExemptInv(l.back)
    && TakenInv(l.forth, l.back, l.forthSealed) && TakenInv(l.back, l.forth, l.backSealed)
  }

  lemma ExemptStep(s: System, e: Event)
    requires s.queue.Wf() && ExemptInv(s)
    ensures ExemptInv(Next(s, e))
  {
    if e.SyncArrives? {
      SyncKeepsMessages(s.queue, s.sender, e.highest, e.now, 0);
    }
  }

  lemma TakenKept(s: System, o: System, sealed: set<nat>, s': System, o': System)
    requires TakenInv(s, o, sealed) && Extends(s, s') && Extends(o, o')
    requires s'.accepted == s.accepted && s'.receiver.recv == s.receiver.recv
    ensures TakenInv(s', o', sealed)
  {
    ExtendsText(s, s');
    ExtendsText(o, o');
    forall n | n in sealed ensures WasAccepted(s', n) {
      RemembersAccepted(s, s', n);
    }
  }

  /** An arrival is credited to the end that sealed the packet. */
  lemma TakenArrival(l: Link, p: DataPacket)
    requires LinkInv(l) && TakenInv(l.forth, l.back, l.forthSealed) && Arrivable(l, p)
    ensures TakenInv(AfterData(l.forth, p), l.back, SealedAfter(l.forth, l.forthSealed, DataArrives(p)))
  {
    var s, t, sealed := l.forth, AfterData(l.forth, p), SealedAfter(l.forth, l.forthSealed, DataArrives(p));
    assert forall n :: TextOf(t, n) == TextOf(s, n);
    if p.sessionId == s.receiver.sessionId && Decrypted(p, s.receiver).Some? {
      ArrivalText(l, p);
      assert t.accepted == s.accepted + [Item(p.number, Decrypted(p, s.receiver).value)] && t.receiver.recv == p.number > s.receiver.recv;
      forall n | n in sealed ensures WasAccepted(t, n) {
        if n in l.forthSealed {
          RemembersAccepted(s, t, n);
        } else {
          assert t.accepted[|s.accepted|].number == n;
        }
      }
    }
  }

  lemma ArrivalText(l: Link, p: DataPacket)
    requires LinkInv(l) && Arrivable(l, p) && Decrypted(p, l.forth.receiver).Some?
    ensures TextOf(if FromPeer(l.forth, p) then l.forth else l.back, p.number) == Decrypted(p, l.forth.receiver)
  {
    if FromPeer(l.forth, p) {
      OpenedIsGenuine(l.forth, p);
    } else {
      var o :| o in l.back.data && o.sealed == p.sealed;
      assert Genuine(l.back, o);
      NonceInjective(l.forth.receiver.sessionId, o.number, p.number);
    }
  }

  lemma ForthDuplexStep(l: Link, e: Event)
    requires DuplexInv(l) && CanMove(l, Forth(e))
    ensures DuplexInv(Moved(l, Forth(e)))
  {
    var k := Moved(l, Forth(e));
    LinkStep(l, Forth(e));
    NumberedStep(l.forth, e);
    ExemptStep(l.forth, e);
    TakenKept(l.back, l.forth, l.backSealed, k.back, k.forth);
    if e.DataArrives? {
      TakenArrival(l, e.packet);
    } else {
      TakenKept(l.forth, l.back, l.forthSealed, k.forth, k.back);
    }
  }

  lemma DuplexStep(l: Link, m: Move)
    requires DuplexInv(l) && CanMove(l, m)
    ensures DuplexInv(Moved(l, m))
  {
    if m.Forth? {
      ForthDuplexStep(l, m.e);
    } else {
      MirrorStep(l, m);
      ForthDuplexStep(Mirror(l), m.e);
    }
  }

  /** Every message that either end has marked delivered or acknowledged since the start was accepted by
      the other, with its text and under its number. */
  ghost predicate Delivers(l: Link) {
    SettledInv(l.forth) && SettledInv(l.back)
  }

  ghost predicate DeliversThroughout(l: Link, ms: seq<Move>)
    requires Happens(l, ms)
    decreases |ms|
  {
    Delivers(l) && (ms == [] || DeliversThroughout(Moved(l, ms[0]), ms[1..]))
  }

  /** The ACK finds no message, or the other end has accepted a packet this end sealed under its number,
      or accepted one of its own while the texts of both ends under that number agree. */
  ghost predicate RightAck(s: System, other: System, sealed: set<nat>, n: nat)
    requires s.queue.Wf()
  {
    FirstKey(s.queue, AwaitsAck(n), 0).None? || n in sealed || (WasAccepted(s, n) && TextOf(s, n) == TextOf(other, n))
  }

  ghost predicate RightMove(l: Link, m: Move)
    requires l.forth.queue.Wf() && l.back.queue.Wf()
  {
    m.e.AckArrives? ==>
      if m.Forth? then RightAck(l.forth, l.back, l.forthSealed, m.e.number) else RightAck(l.back, l.forth, l.backSealed, m.e.number)
  }

  ghost predicate RightAcks(l: Link, ms: seq<Move>)
    requires Happens(l, ms)
    decreases |ms|
  {
    ms == [] || (RightMove(l, ms[0]) && RightAcks(Moved(l, ms[0]), ms[1..]))
  }

  lemma RightAckReceived(s: System, other: System, sealed: set<nat>, n: nat, e: Entry)
    requires TakenInv(s, other, sealed) && e.number == Some(n) && TextOf(s, n) == Some(e.plaintext)
    ensures WasReceived(s, e) <==> n in sealed || (WasAccepted(s, n) && TextOf(s, n) == TextOf(other, n))
  {
    if WasReceived(s, e) {
      var i :| 0 <= i < |s.accepted| && s.accepted[i] == Item(n, e.plaintext);
      assert s.accepted[i].number == n;
    } else if WasAccepted(s, n) {
      var i :| 0 <= i < |s.accepted| && s.accepted[i].number == n;
      assert s.accepted[i] != Item(n, e.plaintext);
    }
  }

  /** An ACK keeps delivered meaning received exactly when it is a right one. */
  lemma AckExact(s: System, other: System, sealed: set<nat>, n: nat)
    requires s.queue.Wf() && SettledInv(s) && ExemptInv(s) && Numbered(s) && TakenInv(s, other, sealed)
    ensures SettledInv(Next(s, AckArrives(n))) <==> RightAck(s, other, sealed, n)
  {
    var found, t := FirstKey(s.queue, AwaitsAck(n), 0), Next(s, AckArrives(n));
    if found.Some? {
      var e := s.queue.at[found.value];
      assert AwaitsAck(n)(e);
      RightAckReceived(s, other, sealed, n, e);
      assert WasReceived(t, t.queue.at[found.value]) <==> WasReceived(s, e);
      assert found.value !in t.settled;
      if WasReceived(s, e) {
        forall id | id in t.queue.at && IsSettled(t.queue.at[id]) && id !in t.settled ensures WasReceived(t, t.queue.at[id]) {
          if id != found.value {
            assert t.queue.at[id] == s.queue.at[id];
            RemembersReceived(s, t, s.queue.at[id]);
          }
        }
      }
    } else {
      assert t == s;
    }
  }

  /** No other step settles a message. */
  lemma OthersSettleNothing(s: System, e: Event)
    requires s.queue.Wf() && SettledInv(s) && !e.AckArrives?
    ensures SettledInv(Next(s, e))
  {
    var t := Next(s, e);
    forall id | id in t.queue.at && IsSettled(t.queue.at[id]) && id !in t.settled ensures WasReceived(t, t.queue.at[id]) {
      StaysSettled(s, e, id);
      RemembersReceived(s, t, s.queue.at[id]);
    }
  }

  lemma DeliversExact(l: Link, m: Move)
    requires DuplexInv(l) && Delivers(l) && CanMove(l, m)
    ensures Delivers(Moved(l, m)) <==> RightMove(l, m)
  {
    var s, other, sealed := if m.Forth? then l.forth else l.back, if m.Forth? then l.back else l.forth,
                            if m.Forth? then l.forthSealed else l.backSealed;
    if m.e.AckArrives? {
      AckExact(s, other, sealed, m.e.number);
    } else {
      OthersSettleNothing(s, m.e);
    }
  }

  /** Over every run of both ends: delivered means received, in both directions and after every step, if
      and only if each ACK that found a message answered a packet of its sender that the other end had
      accepted (or one of the other end's own with the same text). */
  lemma {:induction false} DuplexExact(l: Link, ms: seq<Move>)
    requires DuplexInv(l) && Delivers(l) && Happens(l, ms)
    ensures DeliversThroughout(l, ms) <==> RightAcks(l, ms)
    decreases |ms|
  {
    if ms != [] {
      DeliversExact(l, ms[0]);
      if RightMove(l, ms[0]) {
        DuplexStep(l, ms[0]);
        DuplexExact(Moved(l, ms[0]), ms[1..]);
      }
    }
  }

  /** Every session between two ends whose queues can start one begins so. */
  lemma DuplexStarts(qa: Queue, a: SessionState, ca: map<nat, Bytes>, qb: Queue, b: SessionState, cb: map<nat, Bytes>)
    requires Startable(qa, a.send, ca) && Startable(qb, b.send, cb) && SameSession(a, b)
    ensures DuplexInv(StartWith(qa, a, ca, qb, b, cb)) && Delivers(StartWith(qa, a, ca, qb, b, cb))
  {
    var l := StartWith(qa, a, ca, qb, b, cb);
    assert forall id :: id in qa.at && qa.at[id].number.Some? ==> TextOf(l.forth, qa.at[id].number.value) == Some(qa.at[id].plaintext);
    assert forall id :: id in qb.at && qb.at[id].number.Some? ==> TextOf(l.back, qb.at[id].number.value) == Some(qb.at[id].plaintext);
  }

  // ---- runs that mark what nobody read

  /** Both ends send a message under the same number. */
  lemma BothSend(l: Link, x: Bytes, y: Bytes) returns (k: Link)
    requires l.forth.queue == Empty() && l.back.queue == Empty() && SameSession(l.forth.sender, l.back.sender)
    requires l.forth.sender.send < TWO_32 && l.back.sender.send < TWO_32
    ensures Reaches(l, k) && OneWaits(l.forth, k.forth, "a", x) && OneWaits(l.back, k.back, "b", y)
  {
    var f := ForthSends(l, "a", x);
    var g := ForthSends(Mirror(f), "b", y);
    k := Mirror(g);
    assert Mirror(k) == g;
    Turned(f, k);
    LeadsFurther(Steps(), l, f, k);
    assert [] + ["a"] == ["a"] && [] + ["b"] == ["b"];
  }

  /** One message, sent under the first number, waits for its ACK. */
  ghost predicate OneWaits(s: System, t: System, id: MessageId, text: Bytes) {
    && t.queue.Wf() && t.queue.keys == [id] && t.queue.at == map[id := Entry(s.sender.peer, Pending, 0, text, Some(s.sender.send), Some(0.0))]
    && s.sender.send < TWO_32 && (Framed(text) ==> SealData(s.sender.sessionId, s.sender.key, s.sender.send, text) in t.data)
    && t.accepted == s.accepted && t.receiver == s.receiver
  }

  /** The receiver of the first direction is handed a packet of either end, takes it, and sends its ACK. */
  lemma Acknowledging(l: Link, p: DataPacket) returns (k: Link)
    requires l.forth.queue.Wf() && l.back.queue.Wf() && (p in l.forth.data || p in l.back.data)
    requires l.forth.receiver.recv < p.number < TWO_32 && l.forth.accepted == []
    requires p == SealData(l.forth.receiver.sessionId, l.forth.receiver.key, p.number, p.sealed.plaintext)
    ensures Reaches(l, k) && p.number in k.forth.acks && k.forth.accepted == [Item(p.number, p.sealed.plaintext)]
    ensures k.forth.queue == l.forth.queue && k.back == l.back
  {
    var taken := Moved(l, Forth(DataArrives(p)));
    Taking(l, Forth(DataArrives(p)));
    assert taken.forth.accepted == [] + [Item(p.number, p.sealed.plaintext)];
    assert WasAccepted(taken.forth, p.number) by {
      assert taken.forth.accepted[0].number == p.number;
    }
    k := Moved(taken, Forth(SendAck(p.number)));
    TakingOn(l, taken, Forth(SendAck(p.number)));
  }

  /** That ACK reaches the first direction's sender and settles the only message it has. */
  lemma Marking(l: Link, id: MessageId) returns (k: Link)
    requires l.forth.queue.Wf() && l.back.queue.Wf() && l.forth.queue.keys == [id]
    requires l.forth.queue.at[id].status == Pending && l.forth.queue.at[id].number.Some?
    requires l.forth.queue.at[id].number.value in l.forth.acks + l.back.acks
    ensures Reaches(l, k) && k.forth.accepted == l.forth.accepted && k.back == l.back
    ensures id in k.forth.queue.at && k.forth.queue.at[id] == l.forth.queue.at[id].(status := Delivered)
  {
    var n := l.forth.queue.at[id].number.value;
    k := Moved(l, Forth(AckArrives(n)));
    Taking(l, Forth(AckArrives(n)));
    AckCredits(l.forth.queue, n, 0);
  }

  lemma DataHandedBack(l0: Link, x: Bytes, y: Bytes) returns (l: Link)
    requires l0.forth.queue == Empty() && l0.back.queue == Empty() && l0.forth.accepted == [] && Framed(y)
    requires SameSession(l0.forth.sender, l0.back.sender) && SameSession(l0.forth.sender, l0.forth.receiver)
    requires l0.forth.receiver.recv < l0.forth.sender.send == l0.back.sender.send < TWO_32
    ensures Reaches(l0, l) && l.forth.accepted == [Item(l0.back.sender.send, y)]
    ensures "a" in l.forth.queue.at && l.forth.queue.at["a"].status == Delivered && l.forth.queue.at["a"].plaintext == x
  {
    var sent := BothSend(l0, x, y);
    var acked := Acknowledging(sent, SealData(l0.back.sender.sessionId, l0.back.sender.key, l0.back.sender.send, y));
    LeadsFurther(Steps(), l0, sent, acked);
    l := Marking(acked, "a");
    LeadsFurther(Steps(), l0, acked, l);
  }

  lemma AckHandedBack(l0: Link, x: Bytes, y: Bytes) returns (l: Link)
    requires l0.forth.queue == Empty() && l0.back.queue == Empty() && l0.forth.accepted == [] && l0.back.accepted == [] && Framed(x)
    requires SameSession(l0.forth.sender, l0.back.sender) && SameSession(l0.forth.sender, l0.forth.receiver)
    requires l0.forth.receiver.recv < l0.forth.sender.send == l0.back.sender.send < TWO_32
    ensures Reaches(l0, l) && l.back.accepted == [] && l.forth.accepted == [Item(l0.forth.sender.send, x)]
    ensures "b" in l.back.queue.at && l.back.queue.at["b"].status == Delivered && l.back.queue.at["b"].plaintext == y
  {
    var sent := BothSend(l0, x, y);
    var acked := Acknowledging(sent, SealData(l0.forth.sender.sessionId, l0.forth.sender.key, l0.forth.sender.send, x));
    LeadsFurther(Steps(), l0, sent, acked);
    var marked := Marking(Mirror(acked), "b");
    l := Mirror(marked);
    assert Mirror(l) == marked;
    Turned(acked, l);
    LeadsFurther(Steps(), l0, acked, l);
  }

  /** Both ends send one message under the same number, and the second end is handed its own packet: it
      accepts and acknowledges it, and the first end marks a message delivered that nobody has read. */
  lemma ReflectedDataMarks(a: SessionState, b: SessionState, x: Bytes, y: Bytes) returns (ms: seq<Move>, l: Link)
    requires SameSession(a, b) && a.send == b.send < TWO_32 && b.recv < b.send && x != y && Framed(y)
    ensures Happens(Start(Empty(), a, Empty(), b), ms) && Later(Start(Empty(), a, Empty(), b), ms) == l
    ensures "a" in l.forth.queue.at && l.forth.queue.at["a"].status == Delivered && l.forth.queue.at["a"].plaintext == x
    ensures l.forth.accepted == [Item(b.send, y)]
  {
    l := DataHandedBack(Start(Empty(), a, Empty(), b), x, y);
    ms := ReachesByMoves(Start(Empty(), a, Empty(), b), l);
  }

  /** Both ends send one message under the same number; the second takes the first's packet, as it
      should, and acknowledges it. The ACK is handed back to the end that sent it, which marks its own
      message delivered while the first end has accepted nothing. */
  lemma ReflectedAckMarks(a: SessionState, b: SessionState, x: Bytes, y: Bytes) returns (ms: seq<Move>, l: Link)
    requires SameSession(a, b) && a.send == b.send < TWO_32 && b.recv < b.send && Framed(x)
    ensures Happens(Start(Empty(), a, Empty(), b), ms) && Later(Start(Empty(), a, Empty(), b), ms) == l
    ensures "b" in l.back.queue.at && l.back.queue.at["b"].status == Delivered && l.back.queue.at["b"].plaintext == y
    ensures l.back.accepted == [] && l.forth.accepted == [Item(a.send, x)]
  {
    l := AckHandedBack(Start(Empty(), a, Empty(), b), x, y);
    ms := ReachesByMoves(Start(Empty(), a, Empty(), b), l);
  }
}
