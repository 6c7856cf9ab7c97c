# Verified models of the link layer, exit, DHT, DNS and MD5 code

A Dafny project that models the parts of the router with the most state and arithmetic and proves what
they promise over all inputs and all runs. `dafny verify dfyconfig.toml` checks everything.

## What is modelled

**The IWP session protocol** (`llarp/iwp`). A session splits messages of up to eight 1024-octet fragments
into XMIT and DATA packets, acknowledges them with ACKS and MACK, asks for repeats with NACK, and keeps a
replay filter.

- `IwpMessage`, `IwpProtocol`: messages in transfer, and what each command and timer does to the outgoing
  half (`Tx`) and the incoming half (`Rx`) of a session, with per-id histories of completions and deliveries.
- IwpNetwork: two sessions joined by a network that loses, repeats, reorders and delays packets; a run is
  any sequence of enabled actions with a clock that never goes back.
- `IwpLocal`, `IwpAccount`: what a session keeps and accounts for against any peer. `IwpSafety`, `IwpTheorems`,
  IwpDelivery: what two sessions keep and can achieve. IwpPacing: how often they send.
- `IwpTimed`, `IwpExact`: at-most-once delivery. It does not hold for every timing. With a Tick at least every
  `P` ms, `P >= 1`, and packets handled within `L` ms of being sent, no message is handed up twice if and only if
  `500 + P + L < 1200`, or `500 + P < 1200` and `2 L < 1200`. Runs that deliver twice are constructed for all
  other `P` and `L`, with packets handled in batches as `HandlePlaintext` does.
- `IwpWire`, `IwpSession`: the octets of the packets, and the session object whose methods work on them;
  handling a batch of decrypted packets is a run of actions of the network model, and what it queues parses to
  exactly the packets that run sends.
- `IwpHandshake`, `IwpHandshakeRuns`: the introduction, token and link-introduction exchange over abstract primitives (a stream
  cipher, a keyed hash, signatures and a Diffie-Hellman function with their laws).

**The exit endpoint's address table** (`ExitEndpoint`): assignment, eviction of the least recently used, sessions.

**DHT search, relaying and pending transactions** (`DhtBucket`, `DhtRouting`, `DhtTxHolder`).

**The DNS codec** (`DnsWire`, `DnsRoundTrip`, `DnsExact`, `DnsBuffer`): the wire format of sections 3.1, 4.1.1, 4.1.2 and
4.1.3 of RFC 1035, and the encoder and decoder that move a buffer's cursor.

**MD5** (`Md5Reference`, `Md5`, `Md5Hasher`, `Md5Vector`): sections 3.1 to 3.5 of RFC 1321 as a definition, the 64
written-out operations, the streaming hasher, and one digest of the standard's test suite computed from the definition.

Clocks, random octets, the hash and the cryptographic primitives are parameters or nondeterministic choices.

## Where the code and its descriptions differ

The models follow the code.

- The receive timeout uses the delivery timeout of 500 ms; `ReceivalTimeout` only enters the replay window.
- `SendMessageBuffer` tests the size of a buffer it has moved from, so it sends only the XMIT packet.
- An XMIT packet's inlined fragment is used only when the packet carries no octets behind the digest, and is then
  taken from the end of the header.
- A second acknowledgement mask replaces the first.
- A DHT timeout is set 30 s ahead and must then be 30 s past before the target is expired: 60 s in all.
- A DHT lookup that is told to ask another peer registers a further transaction while its own still waits, and only
  the first waiter of a target starts a request; the peer chosen next is recorded and not sent to.
- A router asked iteratively names its nearest other router even when that is farther from the target than itself, so
  an iterative lookup can go back and forth.
- The DNS decoder takes a dot inside a label as part of the name, so two different encodings can give one name.
- The DNS encoder accepts 65536 octets of record data and writes their length as 0. An empty label ends a name
  with two zero octets.
- The name codec reads and writes a length octet before it looks at the space left. A buffer in the model is
  therefore backed by two octets more than its size.

## Model

| member | source | states |
|---|---|---|
| `IwpMessage.AllAcked` | llarp/iwp/message_buffer.cpp:84-94 | the loop over acknowledgement bits answers whether every fragment of the message is covered, for any size; it throws exactly for a message of more than eight fragments whose first eight are covered |
| `IwpMessage.FlushUnAcked` | llarp/iwp/message_buffer.cpp:58-82 | sends exactly the DATA packets of the unacknowledged fragments, each once and by ascending offset, and notes the time |
| `IwpMessage.OverrunsExact` | llarp/iwp/message_buffer.cpp:122-163 | handling a fragment throws exactly when a bit beyond the eight is set, or is looked at because all eight are set |
| `IwpMessage.OverrunLeaves` | llarp/iwp/message_buffer.cpp:122-136 | the exception leaves the octets of the fragment written and no bit beyond the eight set |
| `IwpLocal.CompletionsConserved` | llarp/iwp/session.cpp:182-201 | in every run against any peer an accepted message is pending and unreported or was reported exactly once; ids count up; at most 1024 are pending |
| `IwpLocal.FinishConserves` | llarp/iwp/session.cpp:657-674 | completing or dropping any set of messages keeps the conservation of completions |
| `IwpLocal.SendConserves` | llarp/iwp/session.cpp:182-201 | accepting or refusing a message keeps the conservation of completions and the bound on the queue |
| `IwpLocal.AcksConserves` | llarp/iwp/session.cpp:820-849 | an acknowledgement keeps the conservation of completions, whatever its mask |
| `IwpLocal.ReplayGap` | llarp/iwp/session.cpp:374-386 | in every run against any peer no id is both filtered and in reassembly, and two endings of one id are at least 1200 ms apart |
| `IwpLocal.TickFiltered` | llarp/iwp/session.cpp:360-386 | giving up stale messages and letting the filter decay keep the spacing of endings |
| `IwpAccount.OutcomesExplained` | llarp/iwp/session.cpp:345-359 | in every run against any peer a success was reported when a multi-acknowledgement listing the message or an acknowledgement covering it arrived, and a failure on a Tick more than 500 ms after the submission |
| `IwpAccount.AcknowledgedIsReported` | llarp/iwp/session.cpp:657-674 | in every reachable state a multi-acknowledgement listing a pending message, or an acknowledgement covering it, ends its wait and calls its handler once, with success |
| `IwpAccount.LateIsDropped` | llarp/iwp/session.cpp:345-359 | in every reachable state a Tick reports a pending message as dropped exactly when it was submitted more than 500 ms before, and leaves it alone otherwise |
| `IwpAccount.TakenBelowLimit` | llarp/iwp/session.cpp:182-201 | a submission is taken and announced exactly while fewer than 1024 messages are pending, and changes nothing otherwise |
| `IwpAccount.ClosedOnce` | llarp/iwp/session.cpp:168-179 | in every run a session is open exactly until the first Close or CLOS, and exactly that step sends a farewell |
| `IwpAccount.ClosedIsQuiet` | llarp/iwp/session.cpp:230-254 | pumping or closing a closed session changes and sends nothing |
| `IwpAccount.PartialAckRepeats` | llarp/iwp/session.cpp:834-848 | in every reachable state an acknowledgement that leaves fragments out replaces the earlier one and sends exactly the fragments left out |
| `IwpAccount.HandedUpMatchesDigest` | llarp/iwp/session.cpp:801-816 | in every run against any peer what is handed up has a size and a hash that were announced under its id |
| `IwpAccount.WrongDigestForgotten` | llarp/iwp/session.cpp:801-816 | a fragment that completes a message with another hash makes the session forget it without handing up, filtering, acknowledging or sending anything |
| `IwpAccount.DuplicateReacknowledged` | llarp/iwp/session.cpp:711-720 | in every run, within 1200 ms of the ending of an id whatever arrives for it is not handed up but acknowledged again by the next round |
| `IwpAccount.GivenUpWhenQuiet` | llarp/iwp/session.cpp:360-373 | in every run a message is given up only when more than 500 ms have passed since the last announcement or fitting fragment for it |
| `IwpAccount.TickSweeps` | llarp/iwp/session.cpp:345-387 | after a Tick nothing pending is older than 500 ms, nothing in reassembly has been quiet for longer, and exactly the ids that ended within 1200 ms are filtered |
| `IwpPacing.FragmentsApart` | llarp/iwp/message_buffer.cpp:46-50 | in every run against any peer the fragments of a message go out at least 400 ms apart, unless in answer to an acknowledgement |
| `IwpPacing.PumpRefreshes` | llarp/iwp/session.cpp:246-253 | after a pump of an open session every missing fragment has been sent within the last 400 ms |
| `IwpPacing.AcksApart` | llarp/iwp/message_buffer.cpp:165-169 | in every run of two honest sessions the acknowledgements of a message are more than 250 ms apart |
| `IwpPacing.PumpAcknowledges` | llarp/iwp/session.cpp:238-245 | after a pump of an open session every message in reassembly has been acknowledged within the last 250 ms |
| `IwpSafety.SenderStep` | llarp/iwp/session.cpp:820-849 | every action of a sending session keeps the invariant that ties its messages, the packets in flight and the receiver together |
| `IwpSafety.ReceiverStep` | llarp/iwp/session.cpp:696-817 | every action of a receiving session keeps that invariant |
| `IwpSafety.SameFragments` | llarp/iwp/message_buffer.cpp:153-163 | data that agree with a message on every fragment are the message |
| `IwpSafety.SpliceFragment` | llarp/iwp/message_buffer.cpp:122-136 | writing a genuine fragment makes the data agree on it and disturbs no other fragment |
| `IwpTheorems.Invariant` | llarp/iwp/session.cpp:601-638 | the invariant holds after every legal run of two sessions, in both directions |
| `IwpTheorems.ReassemblySafe` | llarp/iwp/session.cpp:795-816 | whatever is handed up is what was sent under that id, acknowledged fragments hold the sent octets, and no message completed by a fragment or an inlined announcement fails its hash |
| `IwpTheorems.NeverOverruns` | llarp/iwp/message_buffer.cpp:122-163 | between honest ends no fragment in flight, at any time it arrives, makes the receiver index its acknowledgement bits out of range |
| `IwpTheorems.SuccessSound` | llarp/iwp/session.cpp:836-843 | a success is reported only once the peer is done with the message, and one reported within the delivery timeout means the peer had handed up exactly the sent octets |
| `IwpTheorems.RetransmissionDelivers` | llarp/iwp/session.cpp:246-253 | in any reachable state, an announcement followed by one flush, whose fragments arrive in any order with repetitions among other genuine packets, hands the message up |
| `IwpDelivery.CanDeliver` | llarp/iwp/session.cpp:181-254 | from every reachable state in which the sender is open and has room there is a continuation that submits a given message, hands it up once and unchanged, and reports it as delivered |
| `IwpDelivery.SelectiveRepeat` | llarp/iwp/session.cpp:834-848 | in every reachable state a due acknowledgement that reaches the sender makes it send exactly the fragments the receiver lacks |
| `IwpDelivery.AnnouncementRecovered` | llarp/iwp/session.cpp:676-693 | in every reachable state a fragment of a message the receiver does not know makes it complain, and the answer begins the reassembly |
| `IwpTimed.TimedInvariant` | llarp/iwp/session.hpp:25-33 | under safe timing the ages of announcements, complaints and messages stay within the replay window after every run |
| `IwpTimed.AtMostOnce` | llarp/iwp/session.cpp:711-720 | under safe timing every id is done with at most once, so it is handed up at most once |
| `IwpTimed.ReportedInTime` | llarp/iwp/session.cpp:345-359 | in every timed run, safe or not, a message is no longer pending and its handler has been called exactly once when 500 + P ms have passed since it was submitted |
| `IwpExact.SomeTwice` | llarp/iwp/session.hpp:25-29 | for every unsafe timing with P >= 1 there is a legal run, with multi-acknowledgements and a pump after every batch of packets, that hands message 0 up twice |
| `IwpExact.ExactTiming` | llarp/iwp/session.hpp:25-33 | for P >= 1, delivery is at most once in all runs if and only if the timing is safe, and the same for the runs that handle packets in batches |
| `IwpWire.XmitRoundTrip` | llarp/iwp/message_buffer.cpp:22-34 | the XMIT octets parse to the message's announcement |
| `IwpWire.DataRoundTrip` | llarp/iwp/message_buffer.cpp:70-76 | the DATA octets parse to id, offset and fragment |
| `IwpWire.AcksRoundTrip` | llarp/iwp/message_buffer.cpp:138-151 | the ACKS octets parse to id and bit set, whatever the padding |
| `IwpWire.MaskRoundTrip` | llarp/iwp/message_buffer.cpp:147-151 | a set of fragments below eight survives its octet |
| `IwpWire.NackRoundTrip` | llarp/iwp/session.cpp:783-785 | the NACK octets parse to the id |
| `IwpWire.MackRoundTrip` | llarp/iwp/session.cpp:212-226 | the MACK octets parse to the list of ids |
| `IwpWire.ParseExact` | llarp/iwp/session.cpp:601-638 | any decrypted packet is read as a given command exactly when its octets are laid out as that command, position by position, and is dropped otherwise |
| `Bytes.BigEndian` | llarp/iwp/message_buffer.cpp:27-28 | the octets of a field are the digits of its number to base 256, the most significant first |
| `IwpSession.Session.SendMessageBuffer` | llarp/iwp/session.cpp:181-201 | the new state is that of the protocol model; accepted exactly below 1024 pending; queues the announcement |
| `IwpSession.Session.HandleMACK` | llarp/iwp/session.cpp:640-674 | the loop over ids completes exactly the pending ones listed; short packets change nothing |
| `IwpSession.Session.HandleACKS` | llarp/iwp/session.cpp:819-849 | replaces the mask and completes the message or queues exactly the missing fragments |
| `IwpSession.Session.HandleNACK` | llarp/iwp/session.cpp:676-693 | queues the announcement again for a pending id, nothing otherwise |
| `IwpSession.Session.HandleXMIT` | llarp/iwp/session.cpp:695-762 | the new state is that of the protocol model for what the octets parse to, for any announced size |
| `IwpSession.Session.HandleDATA` | llarp/iwp/session.cpp:764-817 | likewise, and queues a complaint exactly for an id neither known nor filtered; throws exactly when a fragment overruns the acknowledgement bits, and says what state that leaves |
| `IwpSession.Session.SendMACK` | llarp/iwp/session.cpp:203-228 | empties the set of pending acknowledgements into packets of 1 to 128 ids, every id in exactly one |
| `IwpSession.Session.Tick` | llarp/iwp/session.cpp:345-387 | the three loops together are the model's timer step of both halves |
| `IwpSession.Session.Pump` | llarp/iwp/session.cpp:230-254 | an open session queues exactly the due acknowledgements and fragments, each once; a closed one nothing |
| `IwpSession.Session.Close` | llarp/iwp/session.cpp:168-179 | sends CLOS once |
| `IwpSession.Session.HandlePacket` | llarp/iwp/session.cpp:604-634 | dispatching one packet is the network model's receive action, and the queue grows by what that action sends, or it throws, exactly for an overrunning fragment |
| `IwpSession.Session.HandlePlaintext` | llarp/iwp/session.cpp:601-638 | a batch, the multi-acknowledgements and the pump are a run of the network model's actions, unless a packet throws, which is then the first that can |
| `IwpHandshake.OpenSeal` | llarp/iwp/session.cpp:528-558 | a sealed packet opens under its key to its text and under no other key of 32 octets |
| `IwpHandshake.DhAgrees` | llarp/crypto/crypto_libsodium.cpp:20-68 | client and server derive the same key, or neither does |
| `IwpHandshake.RunKeeps` | llarp/iwp/session.cpp:70-106 | whatever a session is sent, it is established at most once, and what it holds of the peer's identity stays consistent with its state |
| `IwpHandshake.OutboundSession` | llarp/iwp/session.cpp:86-106 | in every run an outbound session keeps the dialled identity and is established at most once |
| `IwpHandshake.InboundSession` | llarp/iwp/session.cpp:70-84 | in every run an inbound session that is ready has the identity whose introduction verified |
| `IwpHandshake.PairInvariant` | llarp/iwp/session.cpp:392-526 | over every run of two honest ends: keys by phase, token, and which packets can be in flight |
| `IwpHandshake.HandshakeAgrees` | llarp/iwp/session.cpp:430-526 | two honest ends past the exchange hold the same key and token, the server never gets there first, a ready server holds the client's identity, and the client always the server's |
| `IwpHandshake.HonestPossible` | llarp/crypto/crypto_libsodium.cpp:20-68 | the laws assumed of the primitives can be met together |
| `IwpHandshakeRuns.OpenExact` | llarp/iwp/session.cpp:528-558 | any packet opens to a text exactly when it is a sealing of that text under the key |
| `IwpHandshakeRuns.SealLayout` | llarp/iwp/session.cpp:147-166 | a sealed packet is the keyed hash of all that follows, the nonce and the enciphered text |
| `IwpHandshakeRuns.InboundEntitled` | llarp/iwp/session.cpp:430-500 | in every run of an inbound session until it is closed: past the introduction only after a signed one whose identity and exchanged key it holds, in LinkIntro only if its token then came back under that key, ready only if the introduced identity's link introduction followed |
| `IwpHandshakeRuns.IntroExact` | llarp/iwp/session.cpp:455-500 | a fresh inbound session moves on and answers with its token exactly for a signed introduction under its key, and otherwise keeps key, token and state and sends nothing |
| `IwpHandshakeRuns.TokenExact` | llarp/iwp/session.cpp:430-453 | an inbound session waiting for its token moves on exactly for a packet sealed under its key that begins with the token, and nothing else of it changes |
| `IwpHandshakeRuns.OutboundEntitled` | llarp/iwp/session.cpp:392-428 | in every run of an outbound session until it is closed: its key is the one exchanged with the dialled router, it moved on for a packet under that key which carries its token, and it is ready only after the dialled identity's link introduction and the delivery of its own |
| `IwpHandshakeRuns.ReplyExact` | llarp/iwp/session.cpp:502-526 | an outbound session moves on exactly for a packet sealed under its key with 24 octets or more, of which it adopts and returns the first 24 |
| `IwpHandshakeRuns.CloseOnce` | llarp/iwp/session.cpp:168-179 | closing seals the farewell under the session key, and only once |
| `IwpHandshakeRuns.ServerGotToken` | llarp/iwp/session.cpp:430-453 | over every run of two honest ends a server past the introduction was sent its token back under the exchanged key |
| `IwpHandshakeRuns.HandshakeCompletes` | llarp/iwp/session.cpp:392-526 | two honest ends whose signature is accepted can get ready, for any nonces, with the exchanged key and each other's identity |
| `IwpHandshake.HandshakeSession.RecvLL` | llarp/iwp/session.cpp:879-925 | dispatch by state and direction is the model's step for every packet |
| `IwpHandshake.HandshakeSession.HandleGotIntro` | llarp/iwp/session.cpp:455-500 | the new state and reply are those of the model, including the fields set before a failed check |
| `IwpHandshake.HandshakeSession.HandleGotIntroAck` | llarp/iwp/session.cpp:502-526 | adopts and returns the token of a packet that opens, and changes nothing otherwise |
| `IwpHandshake.HandshakeSession.HandleCreateSessionRequest` | llarp/iwp/session.cpp:430-453 | moves on exactly for a packet that opens and begins with the token |
| `IwpHandshake.HandshakeSession.GotLIM` | llarp/iwp/session.cpp:70-106 | a link introduction makes an inbound session ready exactly for the expected identity and lets an outbound one answer exactly for the dialled one, and keeps the invariant of the run |
| `IwpHandshake.HandshakeSession.LimCompleted` | llarp/iwp/session.cpp:97-104 | a delivered answer makes an outbound session ready and establishes it, a dropped one does not, and both keep that invariant |
| `IwpHandshake.HandshakeSession.Begin` | llarp/iwp/session.cpp:392-428 | sends the introduction under the first key, then switches to the exchanged key if there is one |
| `ExitEndpoint.RunConsistent` | llarp/handlers/exit.cpp:381-463 | in every reachable state the two maps are inverse, the active addresses are a prefix of the range, and activity is the time of the owner's last lookup |
| `ExitEndpoint.NoSharedAddress` | llarp/handlers/exit.cpp:381-411 | in every reachable state no two identities, and no two sessions of different identities, share an address |
| `ExitEndpoint.EvictionIsLeastRecent` | llarp/handlers/exit.cpp:413-438 | a full table evicts an identity that no other was used less recently than, with all its sessions, and no other mapping changes |
| `ExitEndpoint.UseIsLastLookup` | llarp/handlers/exit.cpp:459-463 | in every run the recorded use of an identity is the time of its last lookup among the operations |
| `ExitEndpoint.ActivityIsLastLookup` | llarp/handlers/exit.cpp:381-411 | in every reachable state the activity of an address is the time its owner was last looked up in the run |
| `ExitEndpoint.EvictedUnusedLongest` | llarp/handlers/exit.cpp:413-438 | in every run an evicted identity had been looked up, and no other with an address had not been for longer |
| `ExitEndpoint.AddressAssigned` | llarp/handlers/exit.cpp:381-438 | an identity keeps its address, a new one gets the first free address of the range and nobody else's changes, or takes over one if none is free |
| `ExitEndpoint.SessionsConserved` | llarp/handlers/exit.cpp:637-714 | each operation adds and removes exactly the sessions it should, counted with multiplicity |
| `ExitEndpoint.AliveOrder` | llarp/handlers/exit.cpp:705-714 | expiry keeps the order of the sessions that stay |
| `ExitEndpoint.OwnAddressAtRisk` | llarp/handlers/exit.cpp:321-330 | for any identity and time, looking it up can evict the router's own mapping if and only if that identity has no address, the router's own key has been looked up, the table is full and no mapping is older |
| `ExitEndpoint.OwnAddressLost` | llarp/handlers/exit.cpp:413-438 | three lookups from the started endpoint with one address beside its own after which the router's address belongs to another identity |
| `ExitEndpoint.OwnAddressKept` | llarp/handlers/exit.cpp:321-330 | while the router's own key is never looked up it keeps its address, in every run |
| `ExitEndpoint.ExitEndpoint.FindOldest` | llarp/handlers/exit.cpp:419-431 | the scan finds an address of least activity below the maximum |
| `ExitEndpoint.ExitEndpoint.KickIdentOffExit` | llarp/handlers/exit.cpp:446-457 | drops both mappings and exactly the sessions of the identity |
| `ExitEndpoint.ExitEndpoint.GetIPForIdent` | llarp/handlers/exit.cpp:381-411 | the new table is one the model's lookup allows, and the result is the identity's address |
| `ExitEndpoint.ExitEndpoint.AllocateNewExit` | llarp/handlers/exit.cpp:637-658 | refuses exactly an internet exit that is not permitted, and otherwise registers a session at the identity's address |
| `ExitEndpoint.ExitEndpoint.RemoveOne` | llarp/handlers/exit.cpp:672-687 | removes one session with the given key and path, if there is one |
| `ExitEndpoint.ExitEndpoint.Tick` | llarp/handlers/exit.cpp:705-714 | removes exactly the expired sessions, keeping order |
| `DhtBucket.FindCloseExcluding` | llarp/dht/bucket.hpp:126-149 | finds the nearest node not excluded by XOR distance, or says there is none |
| `DhtBucket.XorBits` | llarp/dht/key.hpp:46-53 | a bit of the distance is set exactly where the two keys differ |
| `DhtBucket.XorSymmetric` | llarp/dht/key.hpp:46-53 | the distance is the same in both directions |
| `DhtBucket.XorUndone` | llarp/dht/key.hpp:46-53 | the distance applied to one key gives the other |
| `DhtBucket.LessExact` | llarp/dht/bucket.hpp:126-149 | distances are ordered by the first octet that differs |
| `DhtBucket.CloserExact` | llarp/dht/bucket.hpp:126-149 | a key is closer to the target exactly when it agrees with the target in the first bit in which the two keys differ |
| `DhtBucket.NearestByBits` | llarp/dht/bucket.hpp:126-149 | the node a search finds agrees with the target in the first bit in which it differs from any other candidate |
| `DhtBucket.NearestUnique` | llarp/dht/bucket.hpp:126-149 | there is only one nearest node |
| `DhtBucket.GetManyNearExcluding` | llarp/dht/bucket.hpp:151-168 | adds the N nearest candidates, or all of them and fails exactly when there are fewer |
| `DhtBucket.NearestNUnique` | llarp/dht/bucket.hpp:151-168 | the set of N nearest is determined |
| `DhtRouting.LookupRouterRelayed` | llarp/dht/context.cpp:426-475 | answers for itself, forwards to, names or denies, each exactly in its case, stated over the known routers other than the asker and itself and the nearest of them |
| `DhtRouting.RelayExact` | llarp/dht/context.cpp:426-475 | exactly one decision is right for a lookup, and it is the one taken |
| `DhtRouting.KnownTarget` | llarp/dht/context.cpp:441-445 | a lookup is forwarded to its target exactly when that is a known router other than the asker and ourselves |
| `DhtRouting.IterationReaches` | llarp/dht/context.cpp:463-468 | an iterative lookup is answered or forwarded to its target exactly at the first router that is the target or knows it |
| `DhtRouting.ToldCloser` | llarp/dht/context.cpp:446-468 | the router named to an asker is closer than the one that names it exactly when a recursive lookup would have been forwarded to it |
| `DhtRouting.IterationLoops` | llarp/dht/context.cpp:463-468 | two routers that know only each other name each other, so following what one is told need not end |
| `DhtRouting.ForwardCloser` | llarp/dht/context.cpp:447-454 | a recursive forward goes to a node strictly closer than this one, or to the target itself |
| `DhtRouting.RelayTerminates` | llarp/dht/context.cpp:447-462 | a chain of recursive relays over any tables never visits a node twice and is no longer than the number of nodes |
| `DhtRouting.AskNextCloser` | llarp/dht/tx.hpp:89-120 | a peer chosen after a failure was not asked before and is strictly closer than the one that failed |
| `DhtRouting.AskNextExact` | llarp/dht/tx.hpp:89-120 | a suggested peer is the one asked; without one it is the nearest not asked before unless that is farther than the one that failed; whoever failed or is asked is noted |
| `DhtRouting.RetryTerminates` | llarp/dht/recursiverouterlookup.cpp:34-47 | a chain of retries, each forgetting whom the earlier ones asked, never returns to a peer and is bounded by the number of peers |
| `DhtTxHolder.TablesAgree` | llarp/dht/txholder.hpp:114-182 | in every run the waiters of a target are exactly its transactions, each once, their targets are those with timeouts, and a transaction is pending without a reply or gone with exactly one |
| `DhtTxHolder.OneStartPerRound` | llarp/dht/txholder.hpp:118-131 | in every run one request is started per round of a target, however many wait for it |
| `DhtTxHolder.RetryNotStarted` | llarp/dht/txholder.hpp:133-149 | in every run a lookup told to ask another peer starts no request |
| `DhtTxHolder.SweepBound` | llarp/dht/txholder.hpp:188-206 | after a sweep no target waits that was first asked for 60000 ms ago or more, and such targets are gone |
| `DhtTxHolder.RoundBegins` | llarp/dht/txholder.hpp:110-131 | in every run the wait for a target was begun by a new transaction for it, at the time its timeout counts from |
| `DhtTxHolder.SweepExact` | llarp/dht/txholder.hpp:188-206 | in every run a sweep ends the wait for a target exactly when the transaction that began it is 60000 ms old, however many joined since |
| `DhtTxHolder.SweepTells` | llarp/dht/txholder.hpp:188-206 | in every run a sweep tells exactly the transactions of overdue targets what they have found |
| `DhtTxHolder.MissTells` | llarp/dht/txholder.hpp:133-149 | in every run, when nobody is left to ask, all who wait for the target and no others are told what they have found |
| `DhtTxHolder.MissAsks` | llarp/dht/txholder.hpp:133-149 | in every run, when there is another peer, a further transaction for the target joins the waiters, both peers are noted and nobody is told anything |
| `DhtTxHolder.RegisteredTwice` | llarp/dht/txholder.hpp:110-131 | registering an owner again keeps its transaction and adds a waiter |
| `DhtTxHolder.FoundReachesAll` | llarp/dht/txholder.hpp:153-182 | a found value reaches every waiter of its target with all it can validate, and no other transaction |
| `DhtTxHolder.ValidCounts` | llarp/dht/txholder.hpp:153-182 | a transaction keeps a value as often as it was found if it can validate it, and not otherwise |
| `DhtTxHolder.ValidOrder` | llarp/dht/txholder.hpp:153-182 | the values kept of a reply stay in their order |
| `DhtTxHolder.TXHolder.NewTX` | llarp/dht/txholder.hpp:110-131 | registers a transaction; starts a request exactly for the first waiter |
| `DhtTxHolder.TXHolder.NotFound` | llarp/dht/txholder.hpp:133-149 | asks the next peer in a further transaction, which does not start a second request, or tells all waiters |
| `DhtTxHolder.TXHolder.Inform` | llarp/dht/txholder.hpp:151-182 | the loops over waiters and values answer exactly the target's transactions |
| `DhtTxHolder.TXHolder.Expire` | llarp/dht/txholder.hpp:184-206 | the sweep answers exactly the overdue targets |
| `DnsRoundTrip.NameRoundTrip` | llarp/dns/name.cpp:13-77 | an encoded name decodes to itself if and only if it is in trailing-dot form with labels of 1 to 63 dot-free octets, and then all its octets are consumed |
| `DnsRoundTrip.LabelsBack` | llarp/dns/name.cpp:47-77 | what any encodable name decodes to: its labels before the first empty one |
| `DnsRoundTrip.LoneDot` | llarp/dns/name.cpp:47-77 | a lone dot is encoded like the root and does not come back |
| `DnsRoundTrip.QuestionRoundTrip` | llarp/dns/question.cpp:21-50 | a question comes back, exactly consumed, if its name is in that form, and otherwise something else does |
| `DnsRoundTrip.ResourceRoundTrip` | llarp/dns/rr.cpp:28-83 | a record comes back, exactly consumed, if its name is in that form and its data are at most 65535 octets, and otherwise something else does |
| `DnsRoundTrip.LongDataLost` | llarp/dns/serialize.cpp:10-24 | 65536 octets of data are accepted and come back empty |
| `DnsRoundTrip.SectionRoundTrip` | llarp/dns/message.cpp:94-108 | a section comes back, exactly consumed, if and only if all its entries are good |
| `DnsRoundTrip.HeaderRoundTrip` | llarp/dns/message.cpp:16-46 | a header comes back from its twelve octets |
| `DnsRoundTrip.GoodEncodes` | llarp/dns/message.cpp:78-111 | every good message can be encoded |
| `DnsRoundTrip.MessageRoundTrip` | llarp/dns/message.cpp:78-154 | an encoded message anywhere in a buffer decodes to itself with exactly its octets consumed if and only if its names, data and counts are good |
| `DnsExact.WordExact` | llarp/dns/message.cpp:16-46 | a field of two octets is read exactly when both lie in the buffer, most significant first |
| `DnsExact.RDataExact` | llarp/dns/serialize.cpp:26-41 | data are read exactly when their length and as many octets as it says lie in the buffer, and are those octets |
| `DnsExact.NameExact` | llarp/dns/name.cpp:13-45 | on any octets a name is read exactly where labels of 1 to 63 octets and a zero octet lie, and the cursor stops behind that |
| `DnsExact.NameSound` | llarp/dns/name.cpp:13-45 | a name read from any octets encodes to those octets if and only if none of its labels holds a dot |
| `DnsExact.DottedLabel` | llarp/dns/name.cpp:13-45 | a label with a dot in it reads as the same name as two labels |
| `DnsExact.QuestionExact` | llarp/dns/question.cpp:32-50 | on any octets a question is read exactly where one lies, and is the one that lies there |
| `DnsExact.ResourceExact` | llarp/dns/rr.cpp:54-83 | on any octets a record is read exactly where one lies, and is the one that lies there |
| `DnsExact.SectionExact` | llarp/dns/message.cpp:113-154 | a section of a given count is read exactly when as many entries follow each other |
| `DnsExact.HeaderExact` | llarp/dns/message.cpp:16-46 | the header is read exactly when twelve octets lie there, its six fields in order |
| `DnsExact.MessageParts` | llarp/dns/message.cpp:113-154 | a message is read exactly where its header lies and the four sections follow in order with the header's counts |
| `DnsExact.MessageExact` | llarp/dns/message.cpp:113-154 | on any octets, a message whose labels hold no dots is read, up to a given end, if and only if it is good and its encoding lies there and ends there |
| `DnsBuffer.Buffer.EncodeName` | llarp/dns/name.cpp:47-77 | writes exactly the wire form over the memory at the cursor; succeeds exactly when all labels are at most 63 octets and the checked part fits |
| `DnsBuffer.Buffer.DecodeName` | llarp/dns/name.cpp:13-45 | the loop computes what the wire format says, with the last dot trimmed if asked for, and fails exactly when the wire format does |
| `DnsBuffer.Buffer.EncodeRData` | llarp/dns/serialize.cpp:10-24 | writes length and data exactly when they fit and are at most 65536 octets |
| `DnsBuffer.Buffer.DecodeRData` | llarp/dns/serialize.cpp:26-41 | reads length and data, and fails exactly when they are not all there |
| `DnsBuffer.Buffer.EncodeQuestion` | llarp/dns/question.cpp:21-30 | succeeds exactly when the question can be encoded and fits, and writes its wire form |
| `DnsBuffer.Buffer.DecodeQuestion` | llarp/dns/question.cpp:32-50 | reads the question at the cursor or fails with the wire format |
| `DnsBuffer.Buffer.EncodeResource` | llarp/dns/rr.cpp:28-52 | succeeds exactly when the record can be encoded and fits, and writes its wire form |
| `DnsBuffer.Buffer.DecodeResource` | llarp/dns/rr.cpp:54-83 | reads the record at the cursor or fails with the wire format |
| `DnsBuffer.Buffer.EncodeMessage` | llarp/dns/message.cpp:78-111 | succeeds exactly when every part can be encoded and all fits; the octets then lie at the old cursor and nothing else changes |
| `DnsBuffer.Buffer.DecodeMessage` | llarp/dns/message.cpp:113-154 | the header and the loops over four sections compute what the wire format says |
| `Md5.MacroIsStandard` | libabyss/src/md5.cpp:17-51 | each macro, with two shifts joined, computes the operation of section 3.4 of RFC 1321, for all words and shifts |
| `Md5.StandardRun` | libabyss/src/md5.cpp:142-228 | running the 64 calls that the code lists, one after the other, is the standard's block step |
| `Md5.FirstTables` | libabyss/src/md5.cpp:142-184 | the rounds, words, shifts and constants of calls 1 to 32 are those the standard's formulas give |
| `Md5.LastTables` | libabyss/src/md5.cpp:186-228 | likewise for calls 33 to 64 |
| `Md5.Transform` | libabyss/src/md5.cpp:135-234 | the 64 operations written out compute the standard's block step in place |
| `Md5.MacroDigest` | libabyss/src/md5.cpp:17-51 | hashing with the macros gives the standard's digest for every message |
| `Md5Vector.LettersDigest` | libabyss/src/md5.cpp:135-234 | the digest of the lower-case letters is the one the test suite in section A.5 of RFC 1321 prints |
| `Md5Hasher.CountsMore` | libabyss/src/md5.cpp:74-78 | adding with the code's carry test keeps the two words equal to eight times the length modulo 2 to the 64 |
| `Md5Hasher.CountsTell` | libabyss/src/md5.cpp:71-72 | the counter gives the length words of section 3.2 and the fill of the buffer, even after it wrapped |
| `Md5Hasher.LastBlock` | libabyss/src/md5.cpp:99-123 | the padded tail and the saved counter are the standard's last block |
| `Md5Hasher.PaddingIsPad` | libabyss/src/md5.cpp:113-115 | the padding taken is the standard's, of 1 to 64 octets |
| `Md5Hasher.OutputWords` | libabyss/src/md5.cpp:125-132 | the digest's octets read as words are the four registers |
| `Md5Hasher.MD5.Update` | libabyss/src/md5.cpp:65-97 | keeps the invariants of counter, buffer and state for the data so far, now with the piece appended |
| `Md5Hasher.MD5.Final` | libabyss/src/md5.cpp:99-133 | the digest of everything given, however it was split into pieces |
| `Md5Hasher.Sum` | libabyss/include/abyss/md5.hpp:21-27 | the digest of any string is that of RFC 1321 of its first octets, as many as its length modulo 2 to the 32, so that of the string itself below that length |

## Left out

- Traffic rates and the last-activity times of a session, and the ping they trigger.
- IwpSession.Session.Pump: leaves out the keep-alive ping, which needs those times; a ping changes no state of its receiver but the time it was last heard of.
- The threads that encrypt and decrypt: queues are handed over whole, and the models take them in order.
- The content of the link-introduction messages, and renegotiation after a session is ready.
- The session and network models never reopen a closed session. The code sets it ready again when a link introduction is handled or its answer delivered after Close (llarp/iwp/session.cpp:79 and 100); only IwpHandshake models that.
- IwpHandshake.HandshakeSession.LimCompleted: requires that the answer is still unreported. That a handler is called at most once is what IwpLocal.CompletionsConserved proves of the messages of a session; the two models are not joined.
- IwpSession.Session.SendMessageBuffer: requires at most 8192 octets, the size of the buffer every link message is encoded in (llarp/router/outbound_message_handler.cpp:27), and fewer than 2 to the 64 messages in a session.
- IwpSession.Session.HandleXMIT: requires that a packet of exactly 108 octets announces at most 108; for a larger size the code reads before the packet.
- IwpSession.Session.HandlePacket: requires a packet long enough to hold a version and a command, since of a shorter one the code reads behind the end, and for XMIT the same as HandleXMIT. The packets of a batch behind one that threw stay unhandled.
- IwpSession.Session.HandlePlaintext: requires the same of every packet of the batch.
- IwpHandshake.HandshakeAgrees: assumes that the exchanged key differs from the hash of the server's public identity.
- ExitEndpoint.ExitEndpoint.constructor: requires at least one address beside the router's own; with none the code hands out address 0.
- Exit traffic, the service-node sessions of the exit endpoint and the choice of exits per tick.
- DHT introsets, tags and exploration, and replies that start further lookups from within a reply handler.
- The DHT timing models a transaction id as never used twice; the code counts them in 64 bits.
- DNS reply helpers, name compression and reverse names.
- Md5Hasher.Sum: leaves out the hexadecimal form.
- The table of 64 MD5 constants is written out and not derived from the sine function.
- Hidden services and their introduction sets, path building and path transfer, onion routing messages, the router's own life cycle, node database, configuration, the event loop and tunnel interface, the JSON and HTTP servers, and logging.
