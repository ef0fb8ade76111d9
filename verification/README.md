# MeshStar: a verified model of the mesh engine

MeshStar is a LoRa mesh engine whose node is a state machine: frames and time go in, frames
and events come out. This project models its five hard parts in Dafny and proves what they
keep over every run.

* **Secure sessions.** The Noise XX handshake (sections 5.1 to 5.3 and 7.5 of the Noise
  Protocol Framework, revision 34), the node's handshake state machine with retransmitted and
  crossing first messages and a lost last one, the transport session with its explicit 24-bit
  counter, and the replay window (the anti-replay window of section 3.4.3 of RFC 4303).
  `Replay`, `Crypto`, `Noise`, `HandshakeObject`, `NodeSession`, `NodeObject`, `Worlds`,
  `HandshakeSteps`, `Agreement`, `Matching`, `Progress`, `Transport`.
* **The payload path.** Splitting, the bounded reassembler, and the associated data that must
  not depend on the hops travelled or on which fragment arrives last. `Fragmentation`,
  `Reassembly`, `PayloadPath`, `Endpoint`.
* **The forwarding engine.** Relay steps, path metrics, hop-by-hop retransmission, packet ids,
  the route cache over its sorted vector map, and the duty cycle. `Forwarding`, `PathMetrics`,
  `HopReliability`, `HopCopies`, `RelayObject`, `PacketIds`, `SortedTable` and
  `SmallMapObject`, `StableSort`, `Routing`, `RouteCacheObject`, `Radio`, `Power`, `TxQueue`,
  `Transmitter`.
* **Codecs.** The on-air packet, and the companion byte stream with its requests and
  responses. `Packet`, `CompanionWire`, `CompanionCodec`, `CompanionObject`, `Framing`,
  `FramerObject`.
* **The mailbox.** `Mailbox`, `MailboxObject`.

`Basics` and `Bits` hold bytes, fixed-width integers and machine words. Where the source
changes state in place, a class has the source's fields and each method is proved equal to a
function on the old state; the theorems are about those functions over whole runs.

Cryptography is symbolic. Hash, key derivation and authenticated encryption are free
constructors, Diffie-Hellman is commutative, and decryption succeeds exactly on the matching
ciphertext term. A node's address is an arbitrary function of its public identity. What the
network can do is a hypothesis of each theorem: `SessionsAgree` allows it to deliver anything
at all, `SessionsMatch` and `TransportSafe` only deny it ciphertexts under keys it does not
know. The neighbour, zone and route tables that forwarding asks, and the random source, are
arbitrary functions of the question's number, so the results hold for whatever they answer.

Four properties hold only under a condition. Each is proved as an equivalence, with the run
or input that breaks it otherwise.

* The copies of a packet are bounded by `2 * (hop_retries + 1)` exactly when `hop_retries` is
  below 255 (`HopCopies.CopyBound`). The attempt counter is a byte, and the release profile
  does not check for overflow, so it wraps.
* The duty cycle holds exactly when the budget is below 4097 times the least airtime of a
  frame (`Power.DutyCycle`). The default limits and profiles are far inside this.
* A framed payload comes back exactly when it is below 65536 bytes and within the framer's
  limit (`Framing.FramesComeBack`). The writer fills in the length modulo 2^16, so a profile
  photo of 65533 bytes is lost (`CompanionCodec.LongPhotoIsLost`).
* The route cache keeps its shape exactly when `max_destinations` and `alternatives` are at
  least 1 (`Routing.KeepsShape`).

Where the code and its comments differ, the model follows the code. A failed read of message 2
or 3 leaves the symmetric state advanced, although the step is unchanged
(`Noise.FailedRead2IsFinal`, `Noise.FailedRead3` say exactly what that costs). The header of
the replay window names RFC 6479, a scheme without bit shifting; the code shifts. Packets
released from a hold or a finished route repair keep their ttl and hops.

## Model

| member | source | states |
|---|---|---|
| `Replay.CheckIsFresh` | crates/meshstar-core/src/crypto/replay.rs:20-32 | a window whose bits record a set of accepted counters admits a counter exactly when it was never accepted and nothing was accepted yet or it lies less than 64 below the greatest accepted one |
| `Replay.OfferRepresents` | crates/meshstar-core/src/crypto/replay.rs:35-54 | after a counter is offered the bits again record exactly the accepted set: shift, set and forget lose nothing that still matters |
| `Replay.WindowRefinesIdeal` | crates/meshstar-core/src/crypto/replay.rs:20-54 | after any sequence of offers the 64-bit window answers every counter as the ideal unbounded set does, and bit i is set exactly when top - i was accepted |
| `Replay.ReplayWindow.constructor` | crates/meshstar-core/src/crypto/replay.rs:15-17 | a new window has accepted nothing |
| `Replay.ReplayWindow.Check` | crates/meshstar-core/src/crypto/replay.rs:20-32 | the answer of the window function, tied to the set of accepted counters |
| `Replay.ReplayWindow.Accept` | crates/meshstar-core/src/crypto/replay.rs:35-54 | true exactly for a fresh counter, and the new fields and accepted set are those of the window function |
| `Noise.DhMatches` | crates/meshstar-core/src/crypto/noise.rs:243-251 | exactly low-order points are refused, and two Diffie-Hellman results agree exactly when each side used the other's point |
| `Noise.ReadStaticAccepts` | crates/meshstar-core/src/crypto/noise.rs:328-341 | the encrypted static key and identity payload are accepted exactly by a reader in the same symmetric state whose ephemeral they were made for, and give exactly the writer's identity and payload |
| `Noise.Message2Binds` | crates/meshstar-core/src/crypto/noise.rs:373-413 | a written message 2 is accepted exactly when reader and writer hold the same hash and chaining key and the writer answered the reader's ephemeral; then the symmetric states are equal and the identity is the writer's |
| `Noise.Message3Binds` | crates/meshstar-core/src/crypto/noise.rs:416-447 | the same for message 3: accepted exactly when the symmetric states are equal and the writer used the reader's ephemeral |
| `Noise.TranscriptBinds` | crates/meshstar-core/src/crypto/noise.rs:344-413 | a message 2 is accepted exactly when both sides started from the same prologue and the responder read the initiator's own message 1, ephemeral and payload |
| `Noise.TranscriptBinds3` | crates/meshstar-core/src/crypto/noise.rs:344-447 | a message 3 is accepted exactly when both sides started from the same prologue, the responder read the initiator's own message 1 and the initiator accepted the responder's own message 2, all three parts of it |
| `Noise.Completion` | crates/meshstar-core/src/crypto/noise.rs:373-465 | once message 1 was read undisturbed, messages 2 and 3 go through and finish gives mirrored keys, one hash and the right identities |
| `Noise.HonestRun` | crates/meshstar-core/src/crypto/noise.rs:344-465 | an honest run of two fresh objects completes with mirrored keys, one handshake hash and each side holding the other's identity |
| `Noise.FailedRead2IsFinal` | crates/meshstar-core/src/crypto/noise.rs:391-413 | a failed read of message 2 is not rolled back: the genuine message 2 is still accepted afterwards exactly when the bad one was too short to parse |
| `Noise.FailedRead3` | crates/meshstar-core/src/crypto/noise.rs:430-447 | the genuine message 3 survives a failed read exactly when the failure came before the static key decrypted |
| `Noise.CallKeepsOrder` | crates/meshstar-core/src/crypto/noise.rs:344-465 | every call, successful or not, keeps the successful calls a prefix of the role's message order that matches the step counter |
| `Noise.FinishNeedsFullOrder` | crates/meshstar-core/src/crypto/noise.rs:344-465 | over every sequence of calls with any messages, finish succeeds exactly when the successful calls are the whole message order of the role |
| `HandshakeObject.HandshakeXX.constructor` | crates/meshstar-core/src/crypto/noise.rs:289-308 | the initial symmetric state with the prologue mixed in, step 0, nothing known of the peer |
| `HandshakeObject.HandshakeXX.EncryptAndHash` | crates/meshstar-core/src/crypto/noise.rs:176-180 | ciphertext and new symmetric state of the function, nonce counted only with a key |
| `HandshakeObject.HandshakeXX.DecryptAndHash` | crates/meshstar-core/src/crypto/noise.rs:182-186 | plaintext and new state, or an error that leaves hash and nonce alone |
| `HandshakeObject.HandshakeXX.VerifyIdentityPayload` | crates/meshstar-core/src/crypto/noise.rs:328-341 | the identity is stored only when its Noise key is the static key just read |
| `HandshakeObject.HandshakeXX.WriteMessage1` | crates/meshstar-core/src/crypto/noise.rs:344-354 | state and message of the function on the old fields, also on every early return |
| `HandshakeObject.HandshakeXX.ReadMessage1` | crates/meshstar-core/src/crypto/noise.rs:356-370 | state and payload of the function on the old fields, also on every early return |
| `HandshakeObject.HandshakeXX.WriteMessage2` | crates/meshstar-core/src/crypto/noise.rs:373-389 | state and message of the function on the old fields, also on every early return |
| `HandshakeObject.HandshakeXX.ReadMessage2` | crates/meshstar-core/src/crypto/noise.rs:391-413 | state and payload of the function on the old fields; an early return leaves what was already mixed in |
| `HandshakeObject.HandshakeXX.WriteMessage3` | crates/meshstar-core/src/crypto/noise.rs:416-428 | state and message of the function on the old fields, also on every early return |
| `HandshakeObject.HandshakeXX.ReadMessage3` | crates/meshstar-core/src/crypto/noise.rs:430-447 | state and payload of the function on the old fields; an early return leaves what was already mixed in |
| `HandshakeObject.HandshakeXX.Finish` | crates/meshstar-core/src/crypto/noise.rs:450-465 | keys split by role and the peer's identity, only after step 3 with an identity |
| `NodeSession.PrologueInjective` | crates/meshstar-core/src/node/session.rs:17-23 | the prologue determines initiator and responder address |
| `NodeSession.CrossingSettles` | crates/meshstar-core/src/node/session.rs:98-130 | with both nodes initiators, any order and number of deliveries of the two message 1s leaves the lower address untouched as initiator; once its message 1 arrived the higher is responder to it with its queue, and every copy gets the identical message 2 |
| `NodeSession.SettledCompletes` | crates/meshstar-core/src/node/session.rs:52-183 | after that, message 2 and message 3 install sessions with swapped keys, one hash, equal epochs and the right identities, and both queues are drained in full |
| `NodeSession.NoticeConserves` | crates/meshstar-core/src/node/session.rs:208-234 | a notice that ends a session loses no outstanding message: each is queued behind a handshake in order, or reported as failed because the queue of eight is full |
| `NodeObject.SessionNode.StartHandshake` | crates/meshstar-core/src/node/session.rs:27-41 | the node map, the queued send and the message 1 are those of the function on the old node |
| `NodeObject.SessionNode.ResponderStart` | crates/meshstar-core/src/node/session.rs:98-130 | retransmitted, crossing and new message 1s treated as the function does, with its answer |
| `NodeObject.SessionNode.InstallSession` | crates/meshstar-core/src/node/session.rs:172-204 | session filed, epoch taken over, queue drained in order |
| `NodeObject.SessionNode.InitiatorContinue` | crates/meshstar-core/src/node/session.rs:134-170 | message 2 handled on the stored handshake; failures leave it advanced as the source does |
| `NodeObject.SessionNode.HandleHandshake` | crates/meshstar-core/src/node/session.rs:52-94 | dispatch by the message number, and for message 3 the session installed or the stored handshake left advanced |
| `NodeObject.SessionNode.SendOrQueue` | crates/meshstar-core/src/node/tx.rs:92-112 | send in the session, or queue behind a handshake that is started if there is none |
| `NodeObject.SessionNode.OnNoSessionNotice` | crates/meshstar-core/src/node/session.rs:208-234 | an initiator's stored message 3 is resent at most three times and within the handshake timeout; otherwise the session is dropped and what was outstanding is sent again, deferred messages excepted |
| `NodeObject.SessionNode.SendAgain` | crates/meshstar-core/src/node/session.rs:225-233 | the loop over the outstanding messages is one queueing of all of them behind one handshake |
| `Progress.HandshakeSucceeds` | crates/meshstar-core/src/node/session.rs:27-183 | two nodes in any state, with any other sessions and handshakes and also when they replace a session they share: the undisturbed messages leave each with a session under the other's address, with swapped keys, one hash, the next epoch, opposite roles and the right identities, and nothing else changed |
| `Progress.CrossingSucceeds` | crates/meshstar-core/src/node/session.rs:27-183 | two nodes that open towards each other, and any order and number of deliveries of the two message 1s that delivers the lower node's: every copy gets one message 2, and with it both end with the two ends of one handshake that the lower node initiated |
| `Progress.NodesConnect` | crates/meshstar-core/src/node/session.rs:27-183 | in every state of any number of nodes two of them connect by four events that are legal on a network that cannot forge |
| `HandshakeSteps.LocalRun` | crates/meshstar-core/src/node/session.rs:27-204 | every event of every run, with a network that may deliver anything, keeps each node's handshakes and sessions tied to transcripts it took part in |
| `Agreement.SameHash` | crates/meshstar-core/src/node/session.rs:134-183 | two installations with one handshake hash at different nodes have opposite roles, equal epochs, each other as peer, and one chaining key |
| `Agreement.SessionsAgree` | crates/meshstar-core/src/node/session.rs:27-183 | over every run of any number of honest nodes and any network: equal handshake hashes imply opposite roles, equal epochs and swapped keys, and each stored session's verified identity has the address it is filed under |
| `Matching.NetRun` | crates/meshstar-core/src/node/session.rs:27-183 | over every run on a network that cannot encrypt under keys it does not know, every honest ciphertext and installation has its honest origin |
| `Matching.SessionsMatch` | crates/meshstar-core/src/node/session.rs:27-183 | on such a network a session filed under an honest peer is never one-sided: a responder's peer installed the mirrored session, an initiator's peer itself sent this node the message 2 that the session continues |
| `Transport.DecryptOpens` | crates/meshstar-core/src/crypto/session.rs:140-167 | decrypt returns a plaintext exactly when the payload is that plaintext encrypted under the receive key, epoch, 24-bit counter and header, and the window admits the counter |
| `Transport.WireInjective` | crates/meshstar-core/src/crypto/session.rs:118-167 | two payloads share a ciphertext octet only if key, epoch, counter, header, plaintext and position agree |
| `Transport.AcceptedWasSent` | crates/meshstar-core/src/crypto/session.rs:140-159 | an accepted payload is one that the peer's encrypt returned, with the same header and plaintext |
| `Transport.TransportSafe` | crates/meshstar-core/src/crypto/session.rs:118-159 | over every run of two sessions with swapped keys and any network that cannot forge: in both directions everything accepted was sent with the same header and epoch, no call is accepted twice, counters run 0, 1, 2 and stay below the threshold |
| `Transport.NoncesDistinct` | crates/meshstar-core/src/crypto/session.rs:118-132 | two calls of encrypt never share a counter, so their payloads share no ciphertext octet |
| `Transport.RejectedUnchanged` | crates/meshstar-core/src/crypto/session.rs:140-159 | a rejected payload leaves the whole session, window included, unchanged |
| `Transport.MirroredKeysStart` | crates/meshstar-core/src/crypto/session.rs:74-91 | sessions installed from a finished handshake satisfy the starting condition of such a run |
| `Transport.SessionObject.constructor` | crates/meshstar-core/src/crypto/session.rs:74-91 | counters and window start empty with the given keys and epoch |
| `Transport.SessionObject.Encrypt` | crates/meshstar-core/src/crypto/session.rs:118-132 | payload and new counters of the function, or the error at the threshold with nothing changed |
| `Transport.SessionObject.Decrypt` | crates/meshstar-core/src/crypto/session.rs:140-159 | plaintext and new window of the function, or an error with nothing changed |
| `Packet.HeaderRoundTrip` | crates/meshstar-core/src/packet/mod.rs:131-188 | a written header parses back to itself exactly when it meets the receiver's checks |
| `Packet.ParsedHeaderBytes` | crates/meshstar-core/src/packet/mod.rs:131-188 | a parsed header writes back to the same 31 bytes |
| `Packet.AadBinds` | crates/meshstar-core/src/packet/mod.rs:148-157 | two headers have equal AAD exactly when they differ only in ttl, hops, next hop and relay and have the same payload length |
| `Packet.FrameRoundTrip` | crates/meshstar-core/src/packet/mod.rs:242-297 | an encoded packet decodes to itself exactly when it is acceptable to a receiver with that key and ttl limit |
| `Packet.DecodedReencodes` | crates/meshstar-core/src/packet/mod.rs:242-297 | a frame accepted with a key, or untagged without one, re-encodes to the identical bytes; a tagged frame without a key does not re-encode |
| `Packet.FragRoundTrip` | crates/meshstar-core/src/packet/mod.rs:206-221 | a fragment header parses back exactly when its index is below its total |
| `Packet.WriteHeader` | crates/meshstar-core/src/packet/mod.rs:131-143 | the buffer holds the header bytes whatever it held before |
| `Packet.CtEq` | crates/meshstar-core/src/packet/mod.rs:318-327 | the accumulating comparison is equality |
| `Fragmentation.TotalIsCeiling` | crates/meshstar-core/src/fragmentation/mod.rs:23-39 | the number of pieces is the rounded-up quotient, at least one |
| `Fragmentation.SplitBody` | crates/meshstar-core/src/fragmentation/mod.rs:23-39 | the loop gives the specified pieces, each at most a chunk, and refuses exactly a zero chunk or more than 255 pieces |
| `Fragmentation.PushValid` | crates/meshstar-core/src/fragmentation/mod.rs:100-154 | one fragment, whatever it claims, keeps bytes held equal to the stored chunks and within the limit, sets within their limit, and every stored set incomplete |
| `Fragmentation.RunValid` | crates/meshstar-core/src/fragmentation/mod.rs:100-166 | the same over every run of fragments and timer ticks |
| `Reassembly.ArrivalStep` | crates/meshstar-core/src/fragmentation/mod.rs:100-146 | a new fragment of a split message returns the whole body exactly when it completes the message, and disturbs no other message |
| `Reassembly.Interleaving` | crates/meshstar-core/src/fragmentation/mod.rs:23-146 | if there are no more messages than sets and their bodies fit the byte limit together, then in every order and interleaving of their fragments each arrival returns its message's body exactly when it completes it |
| `Reassembly.ReturnedOnce` | crates/meshstar-core/src/fragmentation/mod.rs:100-146 | under the same condition, if all fragments of a message arrive, exactly one arrival returns its body and every other arrival of it returns nothing |
| `Reassembly.EveryOrderFits` | crates/meshstar-core/src/fragmentation/mod.rs:100-146 | under the same condition every order of arrival stays clear of evictions and of the byte limit, at every step |
| `Reassembly.Reassembler.constructor` | crates/meshstar-core/src/fragmentation/mod.rs:86-88 | an empty reassembler |
| `Reassembly.Reassembler.FindOldest` | crates/meshstar-core/src/fragmentation/mod.rs:148-154 | the set with the least start time, smallest key on a tie |
| `Reassembly.Reassembler.EvictOldest` | crates/meshstar-core/src/fragmentation/mod.rs:148-154 | that set is dropped and its bytes returned |
| `Reassembly.Reassembler.Push` | crates/meshstar-core/src/fragmentation/mod.rs:100-146 | result and state of the push function: inconsistent totals, duplicates, evictions and completion included |
| `Reassembly.Reassembler.Expire` | crates/meshstar-core/src/fragmentation/mod.rs:157-166 | exactly the timed-out sets go, with their bytes, and are counted |
| `PayloadPath.AadStable` | crates/meshstar-core/src/node/tx.rs:29-39 | the associated data is the same at every hop and, for fragments, from whichever fragment it is computed |
| `PayloadPath.SessionHeaderUnfragmented` | crates/meshstar-core/src/node/tx.rs:134-177 | a session header starts without the fragment flag |
| `PayloadPath.FragmentedSendShape` | crates/meshstar-core/src/node/tx.rs:134-177 | a fragmented send is one encryption split into consecutive pieces under one fragment id, the first under the header's own packet id |
| `PayloadPath.SingleArrives` | crates/meshstar-core/src/node/rx.rs:620-649 | a single-frame body is recovered exactly, whatever relays wrote into the per-hop fields |
| `PayloadPath.FragmentArrives` | crates/meshstar-core/src/node/rx.rs:620-663 | one fragment amid any other traffic opens to the body exactly when it completes the message; before that the session is untouched |
| `PayloadPath.FragmentedArrives` | crates/meshstar-core/src/node/rx.rs:620-663 | a fragmented body sent by send_session_packet comes out exactly once, at its last fragment, for every order of arrival and every rewriting of per-hop fields |
| `PayloadPath.IncompleteStaysShut` | crates/meshstar-core/src/node/rx.rs:620-663 | while a fragment is missing, lost or never routed, no delivery of the others gives anything |
| `Endpoint.PayloadEndpoint.SendSessionPacket` | crates/meshstar-core/src/node/tx.rs:134-177 | packets, session and fragment id counter of the send function; the packets before the first that routing refuses are handed over and the refusal returned; without a session the error, the fragment id drawn all the same |
| `Endpoint.PayloadEndpoint.FramePackets` | crates/meshstar-core/src/node/tx.rs:165-174 | the loop wraps each piece with its header, ids drawn in order, and ends at the first refusal |
| `Endpoint.PayloadEndpoint.OpenSessionPayload` | crates/meshstar-core/src/node/rx.rs:620-663 | plaintext, session and reassembler of the open function; without a session a complete body is dropped, and a peer whose message 3 is awaited is told so at most while fewer than four attempts were made |
| `PacketIds.NoReturn` | crates/meshstar-core/src/relay/mod.rs:248-251 | fewer than 2^32 steps of the recurrence never come back to where they started |
| `PacketIds.FullPeriod` | crates/meshstar-core/src/relay/mod.rs:248-251 | from any seed the first 2^32 ids drawn are pairwise distinct |
| `Forwarding.StepAcceptable` | crates/meshstar-core/src/relay/mod.rs:537-548 | a direct forward (trace stamp included) or a release is acceptable to the next hop with the same key and limit, and moves at most one hop from ttl to hops |
| `Forwarding.RelayStep` | crates/meshstar-core/src/node/rx.rs:307-370 | decode, rewrite, encode gives a frame that decodes to the rewritten packet, and drops exactly a direct forward without ttl |
| `Forwarding.JourneyKeeps` | crates/meshstar-core/src/relay/mod.rs:508-548 | over any journey and any next hops: the frame survives exactly while direct forwards stay below the initial ttl, ttl + hops is conserved without saturating, and only per-hop fields (and a trace's list) change |
| `Forwarding.JourneyBinds` | crates/meshstar-core/src/packet/mod.rs:148-188 | so a unicast that is no trace arrives with its AAD bytes and payload intact |
| `PathMetrics.RequestRoundTrip` | crates/meshstar-core/src/zrp/messages.rs:52-86 | a well-formed route request decodes to itself, flags included |
| `PathMetrics.ReplyRoundTrip` | crates/meshstar-core/src/zrp/messages.rs:104-161 | a well-formed route reply decodes to itself, key and handshake included |
| `PathMetrics.RequestMetrics` | crates/meshstar-core/src/relay/mod.rs:568-617 | along any chain of relays the cost offered is min(65535, initial cost + sum of links), the hop count exactly the links travelled, and the chain as long as the ttl |
| `PathMetrics.ReplyMetrics` | crates/meshstar-core/src/relay/mod.rs:619-634 | the same for replies, with hops min(255, hops_to_target + links travelled) |
| `TxQueue.Victim` | crates/meshstar-core/src/relay/mod.rs:274-290 | the item a full queue drops: the last of the least urgent relayed ones, none exactly when nothing is relayed |
| `TxQueue.Push` | crates/meshstar-core/src/relay/mod.rs:274-290 | the queue never exceeds its limit, and refuses exactly when it is full of frames that are not relayed |
| `TxQueue.PickNext` | crates/meshstar-core/src/node/mod.rs:441-478 | the scan finds the first of the most urgent eligible frames, none exactly when none is eligible |
| `TxQueue.FindVictim` | crates/meshstar-core/src/node/tx.rs:203-223 | the scan of a full queue finds that item |
| `HopReliability.TurnDecreases` | crates/meshstar-core/src/relay/mod.rs:788-832 | every turn of the poll loop leaves fewer exhausted entries ahead or fewer entries to visit, although a failure can append an entry; no bound on the timeout is needed |
| `HopCopies.SendKeeps` | crates/meshstar-core/src/relay/mod.rs:748-759 | handing a packet over keeps keys unique, the table within its cap and the copies accounted for |
| `HopCopies.RerouteKeeps` | crates/meshstar-core/src/relay/mod.rs:804-815 | the single reroute spends the second half of a packet's copies |
| `HopCopies.PollKeeps` | crates/meshstar-core/src/relay/mod.rs:788-832 | the whole poll loop keeps them, whatever the tables and the random source answer |
| `HopCopies.RunKeeps` | crates/meshstar-core/src/relay/mod.rs:744-832 | the same over every run of hand-overs, confirmations, polls and transmissions, for fewer than 255 retries |
| `HopCopies.CopiesBounded` | crates/meshstar-core/src/relay/mod.rs:744-832 | at most 2 * (hop_retries + 1) copies of a packet are queued for each time it is handed over |
| `HopCopies.CopyBound` | crates/meshstar-core/src/relay/mod.rs:788-832 | that bound holds over all runs exactly when hop_retries is below 255: at 255 the byte counter of attempts wraps and one packet is queued without end |
| `RelayObject.Relay.NewPacketId` | crates/meshstar-core/src/relay/mod.rs:248-251 | the next id of the recurrence, with both wrapping operations |
| `RelayObject.Relay.Enqueue` | crates/meshstar-core/src/relay/mod.rs:274-290 | queue and answer of the function; true exactly when a copy was queued |
| `RelayObject.Relay.TrackHop` | crates/meshstar-core/src/relay/mod.rs:748-759 | the entry replaces one with its key, or nothing happens when tracking is off or the table full |
| `RelayObject.Relay.HandOver` | crates/meshstar-core/src/relay/mod.rs:705-714 | tracked and queued as one call |
| `RelayObject.Relay.HopConfirmed` | crates/meshstar-core/src/relay/mod.rs:761-770 | exactly the entries with this key and next hop go |
| `RelayObject.Relay.SendRouteError` | crates/meshstar-core/src/relay/mod.rs:723-731 | the report goes out only with a route, under a fresh id, and is itself tracked |
| `RelayObject.Relay.Fail` | crates/meshstar-core/src/relay/mod.rs:796-819 | an exhausted entry leaves the table and is rerouted once through another neighbour, or reported |
| `RelayObject.Relay.Retransmit` | crates/meshstar-core/src/relay/mod.rs:820-831 | one more copy, with the attempt counter and due time advanced |
| `RelayObject.Relay.Poll` | crates/meshstar-core/src/relay/mod.rs:788-832 | the loop terminates and equals the recursive specification |
| `Radio.AirtimeMonotone` | crates/meshstar-core/src/radio/mod.rs:83-99 | a longer frame takes no less airtime while the 32-bit result holds it |
| `Radio.AirtimePositive` | crates/meshstar-core/src/radio/mod.rs:77-99 | a frame takes at least twelve symbols, so its airtime is positive when a symbol is |
| `Radio.LeastAirtimes` | crates/meshstar-core/src/radio/mod.rs:44-64 | no frame takes less than 183, 707 and 49 ms on the three EU profiles |
| `Power.RecordKeeps` | crates/meshstar-core/src/power/mod.rs:103-113 | a guarded record never fills the log, so nothing that still counts is dropped |
| `Power.RunSafe` | crates/meshstar-core/src/power/mod.rs:81-113 | over every run with nondecreasing times and every record guarded as in next_tx, the airtime started in every closed window is within the budget |
| `Power.DutyCycle` | crates/meshstar-core/src/power/mod.rs:81-113 | that holds for all runs with frames of at least a given airtime exactly when the budget is below 4097 times it: beyond, the 4096 entry cap forgets airtime that counts |
| `Transmitter.PowerManager.constructor` | crates/meshstar-core/src/power/mod.rs:69-71 | an empty log with sum zero |
| `Transmitter.PowerManager.Prune` | crates/meshstar-core/src/power/mod.rs:81-90 | the loop drops exactly the entries more than a window old; the running sum stays the log's sum |
| `Transmitter.PowerManager.CanTransmit` | crates/meshstar-core/src/power/mod.rs:93-101 | true exactly when the pruned log and the frame fit the budget |
| `Transmitter.PowerManager.RecordTx` | crates/meshstar-core/src/power/mod.rs:103-113 | the entry is appended, the cap applied, and the running sum stays the log's sum |
| `Transmitter.Sender.NextTx` | crates/meshstar-core/src/node/mod.rs:441-478 | the most urgent eligible frame leaves exactly when the node is awake and the meter allows it, and is then recorded; otherwise the queue is unchanged |
| `Transmitter.DefaultDutyCycle` | crates/meshstar-core/src/power/mod.rs:37-40 | with the default limits and profile every closed hour stays within its 36 s |
| `SortedTable.PutIsUpdate` | crates/meshstar-core/src/util.rs:60-68 | inserting keeps the table sorted and is the update of the finite map it stands for |
| `SortedTable.DeleteIsRemoval` | crates/meshstar-core/src/util.rs:70-75 | removing keeps it sorted and removes exactly that key from the map |
| `SortedTable.FilterIsRestriction` | crates/meshstar-core/src/util.rs:112-114 | retaining keeps it sorted and restricts the map |
| `SmallMapObject.SmallMap.constructor` | crates/meshstar-core/src/util.rs:23-25 | an empty map |
| `SmallMapObject.SmallMap.Find` | crates/meshstar-core/src/util.rs:28-30 | binary search returns the key's index, or where it belongs; found exactly when the map has it |
| `SmallMapObject.SmallMap.Get` | crates/meshstar-core/src/util.rs:48-50 | the map's value for the key |
| `SmallMapObject.SmallMap.Insert` | crates/meshstar-core/src/util.rs:60-68 | the map updated, the previous value returned |
| `SmallMapObject.SmallMap.Remove` | crates/meshstar-core/src/util.rs:70-75 | the map without the key, its value returned |
| `SmallMapObject.SmallMap.GetOrDefault` | crates/meshstar-core/src/util.rs:78-90 | the value for the key, the map extended only when it had none |
| `SmallMapObject.SmallMap.Retain` | crates/meshstar-core/src/util.rs:112-114 | the map restricted to what the predicate keeps |
| `StableSort.SortIsStable` | crates/meshstar-core/src/util.rs:136-144 | the result is ordered, a permutation, and keeps elements of one key in their order |
| `StableSort.StableUnique` | crates/meshstar-core/src/util.rs:136-144 | those facts determine the result |
| `StableSort.SortByKey` | crates/meshstar-core/src/util.rs:136-144 | the in-place insertion sort computes it |
| `Routing.Victim` | crates/meshstar-core/src/routing/mod.rs:120-125 | the evicted destination is the one unused for longest, the first of equals |
| `Routing.Best` | crates/meshstar-core/src/routing/mod.rs:145-147 | the chosen entry is the first live one of least effective cost, none exactly when none is live |
| `Routing.RunKeeps` | crates/meshstar-core/src/routing/mod.rs:115-225 | every run of operations keeps the table sorted, within both limits, lists non-empty with one entry for each next hop, entries under their own destination |
| `Routing.KeepsShape` | crates/meshstar-core/src/routing/mod.rs:115-142 | that holds for all runs exactly when max_destinations and alternatives are at least 1 |
| `Routing.LearnExact` | crates/meshstar-core/src/routing/mod.rs:115-142 | insert changes its own destination's list to the cheapest of its entries and the new one, each dropped entry costing at least as much as every kept one, ordered by effective cost; it drops at most the least recently used destination when a new one finds the table full, and answers whether the route is stored |
| `Routing.LookupIsBest` | crates/meshstar-core/src/routing/mod.rs:145-147 | lookup finds a route exactly when a live one is stored anywhere for the destination, and then one of least effective cost |
| `Routing.FailureExact` | crates/meshstar-core/src/routing/mod.rs:166-184 | a failure counts on the first entry through the neighbour only, which goes exactly when it reaches max_failures; every other route stays |
| `Routing.ExpireExact` | crates/meshstar-core/src/routing/mod.rs:216-225 | expire removes exactly the routes no longer live and counts them |
| `Routing.InvalidateExact` | crates/meshstar-core/src/routing/mod.rs:198-209 | invalidate_via removes exactly the routes through the neighbour and reports exactly the destinations that had one, each once, in order |
| `RouteCacheObject.SortList` | crates/meshstar-core/src/util.rs:136-144 | a list sorted by effective cost through the in-place sort |
| `RouteCacheObject.PlaceEntry` | crates/meshstar-core/src/routing/mod.rs:126-141 | a list with an entry added or refreshed, sorted and truncated, and whether it was better |
| `RouteCacheObject.RouteCache.constructor` | crates/meshstar-core/src/routing/mod.rs:94-96 | an empty cache |
| `RouteCacheObject.RouteCache.MakeRoom` | crates/meshstar-core/src/routing/mod.rs:120-125 | the eviction before a new destination |
| `RouteCacheObject.RouteCache.Insert` | crates/meshstar-core/src/routing/mod.rs:115-142 | table and answer of the insert function |
| `RouteCacheObject.RouteCache.Lookup` | crates/meshstar-core/src/routing/mod.rs:145-147 | the answer of the lookup function |
| `RouteCacheObject.RouteCache.Touch` | crates/meshstar-core/src/routing/mod.rs:156-163 | use time and expiry of the named entry only |
| `RouteCacheObject.RouteCache.MarkFailure` | crates/meshstar-core/src/routing/mod.rs:166-184 | one more failure, removal at the limit, and of the list when empty |
| `RouteCacheObject.RouteCache.MarkSuccess` | crates/meshstar-core/src/routing/mod.rs:186-194 | failures cleared and expiry renewed for the named entry only |
| `RouteCacheObject.RouteCache.InvalidateVia` | crates/meshstar-core/src/routing/mod.rs:198-209 | table and affected destinations of the specification |
| `RouteCacheObject.RouteCache.Remove` | crates/meshstar-core/src/routing/mod.rs:211-213 | the destination gone, true exactly when it was there |
| `RouteCacheObject.RouteCache.Expire` | crates/meshstar-core/src/routing/mod.rs:216-225 | exactly the expired entries gone, and counted |
| `CompanionWire.CutKeeps` | crates/meshstar-companion/src/lib.rs:412-419 | cutting a string leaves valid UTF-8, nothing lost up to 255 bytes and at most three bytes below 255 otherwise |
| `CompanionWire.StrBack` | crates/meshstar-companion/src/lib.rs:412-419 | a string reads back as its whole characters within 255 bytes |
| `CompanionWire.IdBack` | crates/meshstar-companion/src/lib.rs:420-439 | a node identity reads back exactly when its key, if it has one, has 1 to 32 bytes |
| `CompanionCodec.ValueBack` | crates/meshstar-companion/src/lib.rs:384-520 | every field that the format can carry reads back as it was, also where older senders may omit it |
| `CompanionCodec.RequestBack` | crates/meshstar-companion/src/lib.rs:529-639 | every well-formed request decodes to itself, whatever bytes are appended |
| `CompanionCodec.ResponseBack` | crates/meshstar-companion/src/lib.rs:647-885 | every well-formed response decodes to itself, whatever bytes are appended |
| `CompanionCodec.RequestsComeBack` | crates/meshstar-companion/src/lib.rs:529-639 | for any list of well-formed requests, any limit and any cut into pushes: the payloads come back exactly when each is within the limit and below 65536 bytes, and then decode to exactly that list with nothing left over |
| `CompanionCodec.ResponsesComeBack` | crates/meshstar-companion/src/lib.rs:647-885 | the same for responses |
| `CompanionCodec.LongPhotoIsLost` | crates/meshstar-companion/src/lib.rs:440-444 | a profile photo of 65533 to 65535 bytes is well formed, yet its payload outgrows the length field, and nothing the framer returns decodes to it at any limit |
| `Framing.ScanAppend` | crates/meshstar-companion/src/lib.rs:917-949 | scanning a stream is scanning its first part and then what that left with the rest |
| `Framing.LeftoverShort` | crates/meshstar-companion/src/lib.rs:917-949 | what is left is shorter than HEADER_LEN + max and yields no further frame |
| `Framing.CutsDoNotMatter` | crates/meshstar-companion/src/lib.rs:917-949 | any cut of a stream into pushes gives the frames and leftover of one push |
| `Framing.ScannedReturnable` | crates/meshstar-companion/src/lib.rs:917-949 | whatever the bytes, the framer returns only payloads that are not empty, within its limit and below 65536 bytes |
| `Framing.FramesComeBack` | crates/meshstar-companion/src/lib.rs:917-949 | back-to-back frames, also behind garbage without a start byte, come back exactly if and only if each payload is not empty, within the limit and below 65536 bytes |
| `FramerObject.Framer.constructor` | crates/meshstar-companion/src/lib.rs:912-914 | an empty buffer |
| `FramerObject.Framer.Push` | crates/meshstar-companion/src/lib.rs:917-949 | the draining loop returns the frames of the specification and keeps its leftover, shorter than HEADER_LEN + max |
| `CompanionObject.Writer.constructor` | crates/meshstar-companion/src/lib.rs:379-383 | start byte, two length bytes to fill in, type byte |
| `CompanionObject.Writer.Str` | crates/meshstar-companion/src/lib.rs:412-419 | the loop finds the last character boundary within 255 bytes |
| `CompanionObject.Writer.Id` | crates/meshstar-companion/src/lib.rs:420-439 | the identity appended |
| `CompanionObject.Writer.Finish` | crates/meshstar-companion/src/lib.rs:440-444 | the length filled in, modulo 2^16 |
| `CompanionObject.EncodeRequest` | crates/meshstar-companion/src/lib.rs:529-604 | the frame of the request |
| `CompanionObject.EncodeResponse` | crates/meshstar-companion/src/lib.rs:647-810 | the frame of the response |
| `CompanionObject.Reader.Take` | crates/meshstar-companion/src/lib.rs:452-459 | a prefix taken off the slice, or Truncated |
| `CompanionObject.Reader.Id` | crates/meshstar-companion/src/lib.rs:506-520 | the identity read, with its length checks in order |
| `CompanionObject.DecodeRequest` | crates/meshstar-companion/src/lib.rs:607-639 | the request or the first error met |
| `CompanionObject.DecodeResponse` | crates/meshstar-companion/src/lib.rs:813-885 | the response or the first error met |
| `Mailbox.TakeKeeps` | crates/meshstar-core/src/store_forward/mod.rs:193-210 | handing out changes nothing but the attempts of ready envelopes for that destination, one for each copy handed out |
| `Mailbox.TakeReturns` | crates/meshstar-core/src/store_forward/mod.rs:193-210 | what comes out is exactly the first max ready envelopes for that destination, in order, each with its own id and contents |
| `Mailbox.TakeMarks` | crates/meshstar-core/src/store_forward/mod.rs:193-210 | exactly the envelopes handed out have one attempt more, all others are unchanged |
| `Mailbox.Run` | crates/meshstar-core/src/store_forward/mod.rs:172-252 | over every run: stored = held + delivered + expired, bytes = sum of held sizes, all three limits, unique (destination, id) pairs, and every envelope ever stored handed out at most max_delivery_attempts times, consecutive times at least retry_interval_ms apart |
| `Mailbox.RunConserves` | crates/meshstar-core/src/store_forward/mod.rs:172-252 | the counters of a run, and in all at most max_delivery_attempts copies for each envelope stored |
| `MailboxObject.Mailbox.constructor` | crates/meshstar-core/src/store_forward/mod.rs:143-145 | an empty mailbox |
| `MailboxObject.Mailbox.Store` | crates/meshstar-core/src/store_forward/mod.rs:172-190 | the three refusals in their order, or the envelope stored with its capped expiry |
| `MailboxObject.Mailbox.TakeDeliverable` | crates/meshstar-core/src/store_forward/mod.rs:193-210 | copies and attempts of the specification |
| `MailboxObject.Mailbox.Delivered` | crates/meshstar-core/src/store_forward/mod.rs:225-234 | the first matching envelope removed and its bytes returned |
| `MailboxObject.Mailbox.Gc` | crates/meshstar-core/src/store_forward/mod.rs:237-252 | exactly the expired and exhausted envelopes removed, and counted |

## Left out

- Symbolic cryptography: ChaCha20-Poly1305, SHA-256, HMAC, X25519 and Ed25519 are terms or an arbitrary keyed function, so nothing is said about their arithmetic.
- The one-shot Noise X envelope, group keys and signed beacons.
- `Node` and `Relay` event queues, statistics, key directory and application acknowledgements; counters that only count are unbounded where they appear.
- NodeObject.SessionNode.OnNoSessionNotice: the outstanding messages are given as an argument; the acknowledgement state they are taken from is not modelled.
- NodeObject.SessionNode.HandleHandshake: the map stores a handshake as a value that a call takes up in an object and files again, so aliasing between a stored and a running handshake is not modelled.
- Endpoint.PayloadEndpoint.OpenSessionPayload: a header octet that is itself ciphertext counts as a decoding failure, since the octets of a payload are symbolic.
- Endpoint.PayloadEndpoint.SendSessionPacket: what routing answers to each packet is an argument; the routing itself is not part of this class.
- Forwarding.StepAcceptable: `forward_unicast` is modelled on values with the table answers as inputs, so the updates of neighbour and route tables it makes on the way, the mailbox deposit for a sleeping leaf and flood mode are not captured.
- PathMetrics.RequestMetrics: follows a request that each relay does pass on; duplicate suppression, coverage pruning and the random forwarding decision are not modelled.
- PathMetrics.ReplyMetrics: learning the key carried by a reply is not modelled.
- RelayObject.Relay.Poll: beacons, scheduled floods and route repair in the same function are left out, and the neighbour and route updates after a failure are part of the arbitrary table answers.
- RelayObject.Relay.HandOver: the jitter added before a forward is part of the time given.
- Radio.LeastAirtimes: the US profile shares the EU one's airtime and is not listed separately.
- Transmitter.Sender.NextTx: transmission counters are left out.
- SmallMapObject.SmallMap.Find: keys are natural numbers instead of an arbitrary ordered type, and a mutable reference into the map is modelled by writing the value back.
- RouteCacheObject.RouteCache.Insert: link cost and the list of live alternatives are left out as easy; times are unbounded.
- CompanionCodec.RequestBack: requests and responses are driven by a table of field layouts instead of one straight-line reader and writer for each type; field order, checks and errors are the source's.
- CompanionObject.Reader.LongField: after an unreadable optional string the slice is put back, where the source leaves it partly consumed and never looks at it again.
- MailboxObject.Mailbox.Store: the deposit protocol around the mailbox and its frame codecs are left out as easy.
- Zone routing, flood suppression, the detector, gateways, the Meshtastic and MeshCore adapters, the simulator and the device drivers.
- 64-bit wrap-around of millisecond clocks and byte counts.
