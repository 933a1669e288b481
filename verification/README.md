# AshiChat in Dafny

AshiChat is a peer-to-peer chat over UDP. Two peers agree on a session with a signed HELLO / HELLO_ACK
exchange, send numbered and encrypted DATA packets, acknowledge them twice (ACK on receipt, APP_ACK on
display), repair gaps with a SYNC packet ("I have up to n"), and survive restarts through counters stored in
SQLite. Around this sit a flood to find a peer's endpoint, versioned endpoint announcements, rate limits, a
rotating message log, a peer table and an overlay. This project models those parts and proves what they
guarantee over every run, schedule, crash point, clock trace or byte string.

`dafny verify dfyconfig.toml` checks all files together.

## How the model is built

What an operation does to a queue, a session, a table or a file is a function on values. The classes
(`Session`, `SessionRegistry`, `QueueManager`, `TokenBucket`, `PeerRateLimiter`, `ResolutionManager`,
`EndpointStore`, `MessageLog`, `PeerTable`, `OverlayManager`) keep the program's fields and loops, and each method is proved
to compute exactly its function. Protocols are state machines (`Event`, `Enabled`, `Next`, `Legal`, `After`)
that take their steps with the same functions, so the run theorems speak about what the methods do.

| file | part of the system |
|---|---|
| `Basics`, `OrderedDict`, `Crypto`, `Runs` | integer packing, Python dictionaries with insertion order, nonces and symbolic AEAD, runs of a state machine |
| `Session` | counters, the two-index registry, sequence floors |
| `QueueManager`, `Sync` | the outgoing queue, the answer to a SYNC and what a receiver makes of it |
| `Delivery`, `DeliveryTheorems` | one direction of one session, under a network that loses, repeats and reorders |
| `Duplex` | both directions of a session, under the key the two ends share |
| `SharedQueue` | one queue for several peers, each with its own session |
| `Recovery`, `RecoveryPromises`, `RecoveryLimits` | the counters across crashes at any point between database writes, exactly when they may be lost, and the runs that break them |
| `Handshake`, `HandshakeNetwork`, `TieBreak`, `TieBreakLimits` | key agreement, any number of nodes and attempts, simultaneous HELLOs, and why each assumption is needed |
| `RateLimiter`, `Resolution`, `Flood`, `FloodCaches`, `Endpoints` | limits, request cache, the flood by hops and by caches, endpoint versions |
| `MessageLog`, `Wire` | log framing and rotation, the ten packet types |
| `PeerTable`, `Overlay` | the 500-entry table, overlay selection and rotation |

Parameters stand for what the program takes from outside: the clock is a `real` argument that does not run
backwards, random values and shuffles are arguments, SHA-256, X25519 and HKDF are function values in `Suite`,
of which only the commutation law of section 6.1 of RFC 7748, 32-byte public keys and distinct peer ids are
asked (`Sound`). A ciphertext is the value that was sealed and opens only under its own key, nonce and
associated data; a signature names its signer and the signed bytes.

## What holds only under a condition

Where a property one would expect fails, there is a concrete failing case or an if-and-only-if with a
condition that can be checked beforehand.

- Both ends of a session seal under one key with nonces made of session id and number. In one direction a
  session that starts with a clean queue never puts two texts under one nonce, and one that never does is clean
  (`OneNumberOnePacket`). With both directions a state is free of such a nonce exactly when the numbers the two
  ends used are disjoint or carry equal texts (`SharedKeyState`), and all runs of a start are when the session is
  as good as silent (`SharedKeyExact`); whenever both ends can still send there is a clashing run
  (`BothSendersClash`). A text too long for a frame can hide what stands behind it in the queue; the two
  if-and-only-ifs are for queues without one, and with one each half is stated for what it can reach.
- DATA, ACK, APP_ACK and SYNC name the session, not their sender, so each can be handed back to the end that sent
  it. A DATA packet handed back opens there (`ReflectedOpens`), and its acknowledgement marks a message that
  nobody read (`ReflectedDataMarks`); an ACK handed back marks one while its receiver has accepted nothing
  (`ReflectedAckMarks`). Both outputs are right throughout a run exactly when no end opened a packet of its own
  under a number for which the peer has another text (`SincereExact`); delivered means received in both
  directions throughout exactly when each ACK that found a message answered an accepted packet of its sender, or
  one of the other end's own with the same text (`DuplexExact`).
- An ACK is matched by number alone. Whenever two sessions of a node can still send and one of them accept, a run
  marks a message its receiver never accepted (`AckCrossesPeers`). Over every run delivered means received for all
  peers exactly when each ACK that found a message found one whose own receiver had accepted that number
  (`SharedExact`); all runs of a start are so exactly when no session may acknowledge a number that a message of
  another may wait for (`SharedStartExact`, with the same remark on texts too long for a frame).
- A SYNC answer does not wait for the database. The authority rule holds all along a run exactly when no answer
  was for a message whose counter write was still queued (`SyncAnswersExact`); otherwise a crash can send one
  number with two messages (`SyncBeforeSave`).
- Sequence floors are used once per restart. After a second handshake in one process, in every admitted run (no
  used session dropped, no handshake refused that takes floors, no SYNC answer before the save) the promise is
  kept and no stored counter is lowered exactly when the dropped session's counters still stood at 1 and 0
  (`ReconnectExact`); the promise alone is kept exactly when nothing had been sent, stored or acknowledged and no
  handler was in flight (`ReconnectPromise`). Without the second half it is not (`ReconnectShares`).
- A handshake takes the floors before the registry can refuse it for want of room. After a refusal, in every
  admitted run, the promise is kept and no counter lowered exactly when the floors were 1 and 0 or none
  (`RefusedExact`), the promise alone exactly when nothing had been sent, stored or acknowledged
  (`RefusedPromise`); otherwise one number goes out with two messages (`RefusalShares`). `CrashRecovery` and
  `RestartIsSafe` are about admitted runs.
- SYNC catch-up is complete exactly when the missed messages have text that fits a frame and ascend in queue
  order (`SyncCatchUp`); a retried message breaks that (`RetryBreaksCatchUp`), and so does a text of more than
  65503 bytes, at which every answer ends (`LongTextBreaksCatchUp`, `DataFrames`).
- Tie-break agreement asks that each side connects to contacts, that HELLOs reach the node they are meant for
  and acknowledgements the node whose HELLO they answer, that the session limit is not reached, and that no
  attempt times out and no session is removed. Each of the six is needed: without it, and with all the
  others, there are schedules in which both sides answer (the `Needs...` lemmas of `TieBreakLimits`). One
  attempt per side need not be asked for: there is never a second one.
- The registry's two indexes agree after a registration exactly when the new id is not in use by another peer
  (`RegisterAgrees`).
- Forwarding a request directly to a known unsigned endpoint keeps its hop count; the flood measure falls
  exactly when a node does not do that (`HandlingExact`, `DirectForwardingLoops`). Within one cache lifetime the
  caches bound the flood by the nodes instead of the hops (`CachedFloodEnds`).
- Accepted bytes re-serialize completely exactly when the payload has the length its code demands and no hop
  count was cut (`FullReserialization`, `PackUnpack`).
- The table as a whole is not bounded by 500 entries, since direct contacts are never evicted
  (`TableSizeExact`).
- The database's version check and write are two steps. Every interleaving of any number of updates ends with
  the highest version, or as memory does, exactly when no two updates newer than the row have different versions
  (`InterleavedWrites`, `InterleavedAgrees`); otherwise all read first and an older one writes last
  (`CanWriteLast`). An endpoint version signed twice makes the order of arrival matter (`OrderExact`).
- The HELLO_ACK signature leaves out the responder's nonce: an accepted acknowledgement gives both ends one
  key exactly when that nonce arrived unchanged (`AcceptedAckBinds`).

Where code and documentation differ the model follows the code: `docs/04_cryptography_and_handshake.md`
signs the acknowledgement without the session id, the code signs it too; the comment on the simultaneous
HELLO guard calls the lower id the one that yields, in the code the higher id yields; unknown peers are
described as rejected, but the HELLO handler adds them as contacts before it checks.

## Model

| member | source | states |
|---|---|---|
| `Basics.UnpackedPacked` | src/ashichat/storage.py:415-418 | big-endian packing loses nothing of a number that fits its width |
| `Basics.PackedUnpacked` | src/ashichat/storage.py:448-452 | every byte string is the packing of the number read from it |
| `Basics.LessTrichotomy` | src/ashichat/node.py:357-366 | of two different peer ids exactly one is the lower, so the tie-break always decides |
| `Aead.NonceInjective` | src/ashichat/crypto.py:114-117 | within one session different numbers below 2^32 have different nonces |
| `Sessions.Session.NextSequence` | src/ashichat/session.py:55-60 | hands out the send counter and raises it by one, nothing else |
| `Sessions.Session.AdvanceRecvSequence` | src/ashichat/session.py:70-79 | the receive counter becomes the larger of itself and the number |
| `Sessions.Session.ValidateRecvSequence` | src/ashichat/session.py:81-90 | accepts exactly the numbers above the counter, and moves it only then |
| `Sessions.RegisterAgrees` | src/ashichat/session.py:105-117 | registration keeps the id index and the peer index in agreement if and only if the id is not held by another peer's session |
| `Sessions.RegisterGrowth` | src/ashichat/session.py:105-117 | registration adds at most one session to the id index |
| `Sessions.SessionRegistry.Register` | src/ashichat/session.py:105-117 | refuses exactly when 100 sessions exist, even for a replacement; otherwise drops the peer's old session and indexes the new one; never more than 100 |
| `Sessions.RemoveAgrees` | src/ashichat/session.py:125-129 | taking a session out of both indexes keeps them in agreement |
| `Sessions.SessionRegistry.Remove` | src/ashichat/session.py:125-129 | removes a session from both indexes; indexes that agreed still do |
| `Sessions.SequenceFloors.Apply` | src/ashichat/node.py:850-871 | a new session is raised to its peer's saved floors, which are then forgotten |
| `Queues.QueueManager.Enqueue` | src/ashichat/queue_manager.py:37-47 | a new id goes last, queued and without number, retries or send time; every other entry keeps its place and value |
| `Queues.QueueManager.RestoreEntry` | src/ashichat/queue_manager.py:49-70 | a stored row comes back with its status, number and retry count and without send time, an unknown status as queued; every other entry keeps its place and value |
| `Queues.QueueManager.BuildDataPacket` | src/ashichat/queue_manager.py:72-99 | only a queued message is sealed, under the session's next number, and becomes pending; a number past 32 bits is used up without a packet |
| `Queues.QueueManager.RebuildForSync` | src/ashichat/queue_manager.py:101-128 | a numbered message with text is sealed again under its old number; only its send time changes |
| `Queues.QueueManager.HandleAck` | src/ashichat/queue_manager.py:130-139 | marks the first pending message with that number delivered, in queue order, and nothing else |
| `Queues.QueueManager.HandleTimeout` | src/ashichat/queue_manager.py:141-153 | counts a retry and queues the message again, or fails it at the fifth |
| `Queues.QueueManager.AcknowledgeBySequence` | src/ashichat/queue_manager.py:167-182 | marks the first delivered message of that peer and number acknowledged |
| `Queues.QueueManager.TimedOutMessages` | src/ashichat/queue_manager.py:192-200 | returns exactly the pending messages stamped more than 30 seconds ago, once each and in queue order |
| `Queues.QueueManager.DecryptDataPacket` | src/ashichat/queue_manager.py:262-301 | a replay or an unreadable packet gives nothing and moves no counter; otherwise the text, and the counter becomes the packet's number |
| `Queues.AckCredits` | src/ashichat/queue_manager.py:130-139 | an ACK marks a given waiting message if and only if no earlier entry of any peer is pending under that number |
| `Synchronisation.SyncKeepsMessages` | src/ashichat/node.py:597-617 | answering a SYNC changes no status, number, retry count or text |
| `Synchronisation.SyncSendsMessages` | src/ashichat/node.py:597-617 | every packet of the answer is a message of that peer above the given number, under its own number |
| `Synchronisation.HandleSync` | src/ashichat/node.py:597-617 | the handler's loop sends exactly the specified packets in queue order, ends at a number or text that does not fit a packet, and touches only send times |
| `Synchronisation.SyncSeals` | src/ashichat/node.py:597-617 | the answer is the sealed list of the messages of the peer above the given number that have text, up to the first that does not fit a packet |
| `Synchronisation.TakesAll` | src/ashichat/session.py:62-79 | a receiver takes a whole list, once each and in order, if and only if all have text and the numbers ascend from its counter |
| `Synchronisation.SyncCatchUp` | src/ashichat/node.py:597-617 | over an in-order link a receiver at h accepts exactly the messages above h, in order, ending at the last one, if and only if they have text that fits a frame and ascend in queue order |
| `DeliveryTheorems.LongTextBreaksCatchUp` | src/ashichat/transport_udp.py:61-66 | in every session, sending a text too long for a frame and then another message reaches a state where both have text and ascend, yet the SYNC answer is empty and the receiver gets neither |
| `DeliveryTheorems.RetryBreaksCatchUp` | src/ashichat/queue_manager.py:72-153 | in every session, sending two messages and retrying the first reaches a state where the SYNC answer sends the higher number first and the lower one is never accepted |
| `Delivery.SenderStep` | src/ashichat/queue_manager.py:72-128 | whatever either end is handed and whoever sent it, every step keeps: each number has one text, and every packet carries the text of its number |
| `Delivery.DataKeepsPackets` | src/ashichat/queue_manager.py:262-301 | the arrival of a packet keeps the output right if and only if, opened, it carries the text of its number |
| `Delivery.PacketStep` | src/ashichat/node.py:479-527 | every step of sender, receiver and network keeps: each number has one text, every packet carries the text of its number, accepted numbers ascend |
| `Delivery.PacketRun` | src/ashichat/node.py:479-646 | the same over every run |
| `DeliveryTheorems.DeliveryStep` | src/ashichat/node.py:479-646 | every step keeps: what is acknowledged was accepted, and what is settled was received |
| `DeliveryTheorems.DeliveredMeansReceived` | src/ashichat/queue_manager.py:130-182 | after every run each message marked delivered or acknowledged in this session has had exactly its text accepted under its number (one direction, packets of its sender) |
| `DeliveryTheorems.SettledShrinks` | src/ashichat/queue_manager.py:72-99 | only messages settled before the session are exempt, and only until they are sent again |
| `DeliveryTheorems.OrderedOutput` | src/ashichat/queue_manager.py:262-301 | in every run accepted numbers strictly increase, and the output is first carried-in messages, then a subsequence of the build log |
| `DeliveryTheorems.FiveBuilds` | src/ashichat/queue_manager.py:72-153 | in every run no message is numbered and sealed more than five times |
| `DeliveryTheorems.SessionBuilds` | src/ashichat/queue_manager.py:72-153 | the five-build bound from the start of any session, with any queue |
| `DeliveryTheorems.FrontSent` | src/ashichat/node.py:597-617 | one SYNC puts every resendable message on the wire that no message ending the answer stands before |
| `DeliveryTheorems.UncleanClashes` | src/ashichat/queue_manager.py:72-128 | a queue that is not clean in front of any such message has a run with two different packets under one number |
| `DeliveryTheorems.OneNumberOnePacket` | src/ashichat/queue_manager.py:72-128 | in one direction: resendable numbers below the next number, none shared with another text, mean that no run ever puts two packets under one number or nonce; that no run does means this for all messages no answer-ending one stands before; without such a one it is if and only if |
| `Duplex.SharedKeyState` | src/ashichat/handshake.py:145-217 | in every state of both ends, no nonce carries two packets if and only if the numbers used in both directions carry equal texts |
| `Duplex.BothSendersClash` | src/ashichat/queue_manager.py:81-86 | whenever both ends can still send, some run puts two texts under one key and nonce |
| `Duplex.SharedKeyExact` | src/ashichat/queue_manager.py:72-128 | with packets of either end reaching either end: if both queues are clean, one end has no number left, and what either may resend (above the lower counter) is out of the other's reach, no run of both ends ever does so; that no run does means this for all messages in front; without answer-ending messages it is if and only if |
| `Duplex.ReflectedOpens` | src/ashichat/queue_manager.py:262-301 | a packet handed back to its sender opens, moves the counter and makes the peer's packets up to it replays |
| `Duplex.OpenedExact` | src/ashichat/queue_manager.py:262-301 | an opened packet carries the peer's text if and only if the peer sealed it or the receiver's own text under that number is equal |
| `Duplex.SincereExact` | src/ashichat/queue_manager.py:262-301 | over every run both outputs are right after every step if and only if no end opened its own packet under a number for which the peer has another text |
| `Duplex.DuplexStep` | src/ashichat/node.py:479-646 | every step of both ends, with DATA, ACK, APP_ACK and SYNC handed to either end, keeps: one text per number and direction, and every accepted text is that of the end that sealed it |
| `Duplex.DuplexExact` | src/ashichat/node.py:523-527 | over every run delivered means received in both directions after every step, if and only if each ACK that found a message answered a packet of its sender that the other end had accepted, or one of that end's own with the same text |
| `Duplex.DuplexStarts` | src/ashichat/node.py:401-411 | every session between two queues whose numbers are known and distinct begins in such a state |
| `Duplex.ReflectedDataMarks` | src/ashichat/node.py:479-527 | a run in which an end acknowledges its own packet and the peer marks a message delivered that nobody read |
| `Duplex.ReflectedAckMarks` | src/ashichat/node.py:523-527 | a run in which an ACK is handed back to the end that sent it, which marks its own message delivered though the other end accepted nothing |
| `SharedQueue.TurnStep` | src/ashichat/node.py:479-646 | every turn of any peer, mistaken ACKs included, keeps for all peers: numbers have their texts, packets carry them, what is acknowledged was accepted |
| `SharedQueue.SharedDelivered` | src/ashichat/queue_manager.py:130-182 | over every run with several peers in which each ACK finds a message of its own peer or none, delivered means received for each of them |
| `SharedQueue.SharedExact` | src/ashichat/queue_manager.py:130-139 | over every run delivered means received for every peer after every turn, if and only if each ACK that found a message found one whose own receiver had accepted that number |
| `SharedQueue.AckCrossesPeers` | src/ashichat/queue_manager.py:130-139 | whenever two sessions can still send and one of them accept, whatever queue and counters, some run marks a message its receiver never accepted |
| `SharedQueue.SharedStartExact` | src/ashichat/queue_manager.py:130-139 | for a node whose sessions begin: if no session may acknowledge a number a message of another may wait for, all runs are right for every peer; that all are means this for the messages in front; without answer-ending messages it is if and only if |
| `Recovery.Step` | src/ashichat/node.py:674-687 | every crash, boot, handshake, numbering, receipt, commit, resumed handler, saved SYNC answer, drop of an unused session and refused handshake without floors keeps the recovery invariant |
| `Recovery.CommitStep` | src/ashichat/storage.py:337-376 | making the oldest queued write durable lowers no stored counter and keeps the invariant |
| `Recovery.CrashRecovery` | src/ashichat/session.py:1-8 | over every admitted run, with any number of crashes, the database is ahead of everything sent, stored and acknowledged, no number has two messages, and numbers of the live session exceed all earlier ones |
| `Recovery.RestartIsSafe` | src/ashichat/node.py:168-181 | after a crash at any point of an admitted run, boot and a handshake that finds room give counters ahead of the whole past |
| `Recovery.SavedExact` | src/ashichat/node.py:674-687 | the database covers a message's number if and only if the process is not waiting for that counter write |
| `Recovery.SyncAnswersExact` | src/ashichat/node.py:597-617 | over every run with SYNC answers at any time, the authority rule holds after each step if and only if no answer was for a message whose counter write was queued |
| `RecoveryLimits.SyncBeforeSave` | src/ashichat/node.py:597-617 | a run from the first start: a SYNC answered before the save, a crash, and after the restart the same number with another message |
| `Recovery.ReconnectExact` | src/ashichat/node.py:850-871 | in every admitted run after a second handshake in one process the promise is kept and no stored counter lowered, if and only if the dropped session's counters were still 1 and 0 |
| `RecoveryPromises.ReconnectPromise` | src/ashichat/node.py:850-871 | in every such run the promise alone is kept, if and only if nothing had ever been sent, stored or acknowledged and no handler of the dropped session was in flight |
| `Recovery.RefusedExact` | src/ashichat/node.py:401-407 | in every admitted run after a handshake the registry refused the promise is kept and no stored counter lowered, if and only if the floors it took were 1 and 0 or none |
| `RecoveryPromises.RefusedPromise` | src/ashichat/node.py:445-451 | in every such run the promise alone is kept, if and only if nothing had ever been sent, stored or acknowledged |
| `RecoveryPromises.HeldRun` | src/ashichat/node.py:674-687 | over every admitted run each number given out in the session is in use or in the hands of a waiting handler |
| `RecoveryLimits.RefusalShares` | src/ashichat/node.py:401-407 | a run from the first start: a message sent, a restart, a handshake refused at the session limit, and after the next one the same number with another message |
| `RecoveryLimits.ReconnectShares` | src/ashichat/node.py:829-871 | a run in which nothing was sent, stored or acknowledged when a session was dropped, and one number goes out with two messages |
| `Handshakes.AckSignedParts` | src/ashichat/handshake.py:198-200 | the signed bytes of a HELLO_ACK determine session id, both ephemeral keys and the initiator's nonce |
| `Handshakes.HandshakeCompletes` | src/ashichat/handshake.py:73-217 | between nodes that know each other the handshake completes with one id and key and the identities crossed |
| `Handshakes.AcceptedAckBinds` | src/ashichat/handshake.py:110-151 | an accepted acknowledgement belongs to this very HELLO; the keys agree if and only if the responder's nonce arrived unchanged |
| `HandshakeNetwork.AckMatches` | src/ashichat/handshake.py:110-151 | an acknowledgement is accepted only for the HELLO it answers, with equal id and key |
| `HandshakeNetwork.Step` | src/ashichat/node.py:339-477 | every connect, HELLO, HELLO_ACK, timeout and drop keeps all sessions accounted for |
| `HandshakeNetwork.MatchingHandshake` | src/ashichat/node.py:424-451 | in every run with losses, repeats, delays and misdelivery, each installed session has a peer that derived the same id and key for that exact HELLO |
| `TieBreak.TieStep` | src/ashichat/node.py:346-366 | every step keeps: at most one answer between the pair, and an answered attempt is pending or became the same session |
| `TieBreak.StrangersAgree` | src/ashichat/node.py:346-407 | the agreement below from any state in which the two have had nothing to do with each other |
| `TieBreak.TieBreakAgreement` | src/ashichat/node.py:346-407 | in every schedule of a fresh network that respects six rules, with any number of attempts and anything done with third nodes, at most one side ever answers, and two held sessions have one id and one key |
| `TieBreakLimits.RulesAreAllowed` | src/ashichat/node.py:346-366 | the schedules of the agreement are exactly those that respect all six rules |
| `TieBreakLimits.NeedsContacts` | src/ashichat/node.py:430-441 | without the contact rule alone, a schedule in which both sides answer |
| `TieBreakLimits.NeedsHelloAddress` | src/ashichat/node.py:346-366 | the same without the rule that HELLOs reach the node they are meant for |
| `TieBreakLimits.NeedsAckAddress` | src/ashichat/node.py:430-441 | the same when an acknowledgement meant for a third node costs the attempt |
| `TieBreakLimits.NeedsRoom` | src/ashichat/node.py:397-451 | the same with the session limit reached |
| `TieBreakLimits.NeedsPatience` | src/ashichat/node.py:789-791 | the same with a timeout |
| `TieBreakLimits.NeedsSession` | src/ashichat/node.py:346-366 | the same with a removed session |
| `RateLimiting.SlackDecides` | src/ashichat/rate_limiter.py:35-41 | the least room over all windows suffices if and only if the window rule admits the request |
| `RateLimiting.SlackAppend` | src/ashichat/rate_limiter.py:29-41 | one request and the time after it change the least room exactly as refill and consume change the tokens |
| `RateLimiting.TokenBucket.Refill` | src/ashichat/rate_limiter.py:29-33 | after a refill the tokens are the least room over all windows up to now |
| `RateLimiting.TokenBucket.Take` | src/ashichat/rate_limiter.py:35-41 | takes the tokens if and only if the least room over all windows allows, and keeps the bucket in step with its log |
| `RateLimiting.TokenBucket.Consume` | src/ashichat/rate_limiter.py:35-41 | admits a request if and only if in every window the admitted tokens stay within capacity + rate * length |
| `RateLimiting.LimitOf` | src/ashichat/rate_limiter.py:45-49 | every limited type has a positive rate and room for at least one packet |
| `RateLimiting.PeerRateLimiter.Check` | src/ashichat/rate_limiter.py:58-69 | whatever traffic is interleaved, a packet is admitted exactly by the window rule over its own peer and type; other types always pass |
| `Resolution.ForwardsBound` | src/ashichat/resolution.py:119-134 | at most one copy per overlay peer, none back to the sender |
| `Resolution.CachedIffRecent` | src/ashichat/resolution.py:99-109 | an id is cached if and only if it was accepted within 300 s and among the last 1000 |
| `Resolution.ResolutionManager.CleanupCache` | src/ashichat/resolution.py:161-166 | drops exactly the expired entries; the cache stays the tail of the log |
| `Resolution.ResolutionManager.HandleResolveRequest` | src/ashichat/resolution.py:93-134 | refuses exactly recent ids; otherwise logs the id, evicts the oldest past 1000, and forwards the specified copies with one hop less |
| `Flooding.CopiesWeigh` | src/ashichat/node.py:541-590 | the copies a handling sends weigh less than the copy handled, or the same when forwarded directly |
| `Flooding.HandlingExact` | src/ashichat/node.py:541-590 | a handling lowers the weight in flight if and only if it does not forward directly |
| `Flooding.FloodEnds` | src/ashichat/resolution.py:93-134 | every schedule without direct forwarding and duplication handles at most w(5) copies per initial copy |
| `FloodCaches.OnceRefused` | src/ashichat/resolution.py:99-109 | within 300 s and 1000 accepted ids, a node passes one request id on at most once |
| `FloodCaches.CachedFloodEnds` | src/ashichat/resolution.py:93-134 | with every node's cache in the state, a run within 300 s and 1000 accepted ids per node handles at most the initial copies of a request and K for every node, whatever the hop counts |
| `Flooding.DirectForwardingLoops` | src/ashichat/node.py:580-586 | two nodes that each believe the target at the other pass one copy back and forth any number of times |
| `Endpoints.ApplyAllHighest` | src/ashichat/node.py:1000-1014 | after any list of updates the record is that of the highest version on offer |
| `Endpoints.Convergence` | src/ashichat/node.py:1000-1014 | equal starts and equal sets of updates give equal records, whatever order and repeats |
| `Endpoints.OwnerConvergence` | src/ashichat/node.py:946-953 | nodes that heard the same announcements of one owner counter agree |
| `Endpoints.OrderExact` | src/ashichat/node.py:1000-1014 | for two different updates order is irrelevant if and only if the versions differ or neither is newer |
| `Endpoints.EndpointStore.ApplyEndpointUpdate` | src/ashichat/node.py:1000-1023 | a newer version replaces entry and row, which keep agreeing; an unknown peer changes nothing |
| `Endpoints.EndpointStore.ApplyRun` | src/ashichat/storage.py:188-210 | after any run memory and database both hold the highest version |
| `Endpoints.InterleavedWrites` | src/ashichat/storage.py:188-210 | every interleaving of the checks and writes of any number of updates ends with the highest version, if and only if no two updates newer than the row have different versions |
| `Endpoints.InterleavedAgrees` | src/ashichat/storage.py:188-210 | with one endpoint per version, every interleaving leaves the row that memory's one-step check and write leaves, under the same if-and-only-if |
| `Endpoints.CanWriteLast` | src/ashichat/storage.py:188-210 | any update newer than the row is the last to write in some interleaving: all read first, all others write before it |
| `MessageLogs.ReadMessages` | src/ashichat/storage.py:440-461 | the reader's loop stays in bounds, ends on arbitrary bytes and computes the specified parse |
| `MessageLogs.PrefixReads` | src/ashichat/storage.py:440-461 | any byte-prefix of a file reads as exactly the leading blobs wholly present |
| `MessageLogs.RoundTrip` | src/ashichat/storage.py:397-461 | reading the file of any list of blobs gives the list back |
| `MessageLogs.AppendLine` | src/ashichat/storage.py:415-418 | adding a line to a file adds exactly its blob to what is read |
| `MessageLogs.LossNeedsFullSlots` | src/ashichat/storage.py:463-483 | over every run of appends, with crashes anywhere, nothing is lost until a file sat in the highest slot |
| `MessageLogs.HistoryOfRun` | src/ashichat/storage.py:397-438 | the history of a run is exactly the blobs whose append went through, in order |
| `MessageLogs.MessageLog.AppendMessage` | src/ashichat/storage.py:397-438 | adds one line and one blob, then rotates as below; a failed append changes nothing; at every crash point the files are a contiguous suffix of the history |
| `MessageLogs.MessageLog.RotateIfNeeded` | src/ashichat/storage.py:463-483 | does nothing within the limit; otherwise loses exactly nothing or the highest file's blobs at every crash point, and completed leaves the current file in slot 1 and every other one slot higher |
| `Wire.UnpackPack` | src/ashichat/packet.py:112-416 | parsing undoes packing for all ten payload types, whatever bytes follow |
| `Wire.WireRoundTrip` | src/ashichat/packet.py:70-105 | packing, framing, appending any bytes and parsing gives the payload back |
| `Wire.DataFrames` | src/ashichat/packet.py:70-74 | a DATA packet fits a frame if and only if its text has at most 65503 bytes |
| `Wire.PackUnpack` | src/ashichat/packet.py:112-416 | an accepted payload packs to as many bytes as its code demands, and to a prefix of what arrived if and only if no hop count was cut |
| `Wire.SerializeDeserialize` | src/ashichat/packet.py:70-105 | accepted bytes re-serialize to a prefix of the input |
| `Wire.FullReserialization` | src/ashichat/packet.py:70-105 | unpacking and packing an accepted frame gives its bytes back if and only if the payload has the length its code demands and no hop count was cut |
| `PeerTables.VictimIsLeast` | src/ashichat/overlay.py:116-128 | the evicted peer is not direct and least by (last seen, version); none is evicted if all are direct |
| `PeerTables.Step` | src/ashichat/overlay.py:46-128 | every addition, removal, promotion and sighting keeps the table invariant |
| `PeerTables.DirectStays` | src/ashichat/overlay.py:64-128 | a direct contact survives every event but its own removal |
| `PeerTables.TableRun` | src/ashichat/overlay.py:39-128 | over every run at most 500 non-direct entries, keys equal ids, no own id, and direct contacts leave only by removal |
| `PeerTables.TableSizeExact` | src/ashichat/overlay.py:78-84 | adding an unknown peer ends within 500 entries if and only if there was room or someone to evict from a just-full table |
| `PeerTables.PeerTable.AddDirectPeer` | src/ashichat/overlay.py:46-62 | stores a direct contact unless it is this node |
| `PeerTables.PeerTable.AddPeerEntry` | src/ashichat/overlay.py:64-84 | refreshes a known peer, else makes room and adds it |
| `PeerTables.PeerTable.Evict` | src/ashichat/overlay.py:116-128 | the scan removes the first least non-direct peer, if any |
| `PeerTables.PeerTable.RemovePeer` | src/ashichat/overlay.py:86-87 | removes a peer, known or not |
| `PeerTables.PeerTable.PromotePeer` | src/ashichat/node.py:715-721 | a known peer named by an invite becomes direct, with the invite's key and, where given, nickname and endpoint |
| `PeerTables.PeerTable.UpdateLastSeen` | src/ashichat/overlay.py:108-111 | a sighting moves a known peer's last-seen time |
| `Overlays.SelectionExact` | src/ashichat/overlay.py:140-160 | for every shuffle exactly min(K, non-direct) distinct non-direct ids |
| `Overlays.SelectionPrefersActive` | src/ashichat/overlay.py:140-160 | six tenths of K of them are active, or as many as there are active candidates |
| `Overlays.RotationExact` | src/ashichat/overlay.py:165-194 | rotation gives at most K distinct active ids, K of them or every active non-direct peer; only the oldest tenth of the active members may lose their place |
| `Overlays.OverlayManager.SelectOverlay` | src/ashichat/overlay.py:140-160 | computes the specified selection and keeps at most K distinct ids |
| `Overlays.OverlayManager.Rotate` | src/ashichat/overlay.py:165-194 | an empty overlay is selected anew, any other rotated as specified |

## Left out

- Sockets, asyncio tasks, cancellation and timers: handlers are steps; handshake handlers are one step each, delivery and recovery handlers are split at their database writes.
- The inside of Ed25519, X25519, AES-GCM, HKDF and SHA-256: symbolic, as described above.
- DeliveryTheorems.OneNumberOnePacket: for a queue holding a text too long for a frame, or a number past 32 bits, the two halves differ in the messages that stand behind it: whether a later SYNC reaches those depends on what the receiver has got by then.
- Duplex.SharedKeyExact: the same.
- SharedQueue.SharedStartExact: the same.
- SharedQueue.SharedExact: the node's sending directions, each with the packets of its own session; what packets handed back to their sender do is in `Duplex`.
- Duplex.DuplexExact: the queues of the two ends hold messages for each other only.
- Synchronisation.HandleSync: a datagram the operating system refuses (texts of 65472 to 65503 bytes over IPv4) counts as lost by the network.
- Several sessions with one peer in one delivery run: what a session carries into the next is its queue and counters.
- DeliveryTheorems.DeliveredMeansReceived: one direction, whose network holds the packets of its sender; both directions and several peers are in `Duplex` and `SharedQueue`.
- DeliveryTheorems.OrderedOutput: one direction, as above.
- Message status rows of the database and the outbox file: recovery follows counters and message numbers; which messages come back after a restart is arbitrary.
- Recovery.CrashRecovery: over admitted runs; what dropping a used session, a refused handshake that takes floors, or a SYNC answer before the save does is in `ReconnectExact`, `RefusedExact` and `SyncAnswersExact`.
- Recovery's session rows: rows of one peer, in insertion order, each write atomic; disk failures are not modelled.
- HandshakeNetwork.Step: the session limit is counted by peer, which is the id index as long as the indexes agree.
- TieBreak.TieBreakAgreement: assumes the six rules listed above, each shown to be needed.
- Resolution.ResolutionManager.HandleResolveRequest: the immediate answer for a known target and the pending requests of `resolve_peer` are not modelled; a flood sees the answering branches as ends.
- Endpoints.Convergence: other writes to an entry's endpoint, such as the address a HELLO came from, are not part of the run.
- Endpoints.EndpointStore.ApplyEndpointUpdate: takes an update whose signature was verified, and the database's check and write as one step; the last-seen column is not modelled.
- RateLimiting.TokenBucket.Consume: exact reals and a clock that does not run backwards, no float rounding; the global forwarding limiter is one more such bucket and only a flag in the flood.
- MessageLogs.MessageLog.AppendMessage: one file operation is atomic, as the program's write-and-rename intends; encryption of blobs is outside. At least one rotation is kept, as the configuration loader demands (src/ashichat/config.py:145-146).
- Wire.WireRoundTrip: IP addresses are their packed bytes; the text form of the `ipaddress` library is not modelled.
- Overlays.OverlayManager.Rotate: one clock reading per call where the program reads the clock per peer; K is not negative.
- Heartbeats, reconnect backoff, peer states and NAT bursts: small tables and counters that would add only easy members.
- Invites, configuration files, identity files, logging and the user interface.
- Multi-device and root identity: documented but not in the code.
