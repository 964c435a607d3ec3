# A verified model of naboscale

naboscale joins machines into a mesh: every node runs a tunnel manager that holds one session per peer, and a
coordination server hands out mesh addresses and tokens. This project models the session manager and its
handshake, and the state of the coordination server, and proves what they guarantee over whole runs.
`dafny verify dfyconfig.toml` checks everything.

## How it is built

**One manager.** `Peers` says what each handler does to one peer session; `Nodes` lifts that to the whole state of
a manager, as functions; `TunnelManager` is the class with the source's fields and handlers, loops and early
returns, and each of its methods is proved to leave exactly the state that the functions give. Clocks, the send
budget of the socket and the supply of ephemeral keys are parameters. Sends are appended to a history, and so are
sessions, plaintexts encrypted and decrypted, what the device was handed, and the INIT of every initiator.

**Cryptography is symbolic.** `Noise` models Noise_IKpsk2 (section 9 of the Noise Protocol Framework, revision 34):
an ephemeral key is a tag drawn once, a session is the pair of ephemerals with both identities and the psk, a MAC is
the term of its key and its input. A transport message is accepted only at the receive nonce, and a failed one leaves
the nonce alone (section 5.1). `Octets` and `Handshakes` are the same messages as byte buffers, with the offsets of
the code (mac1 at 132 of 148), and the two levels are proved to agree on every message.

**The mesh.** `Mesh` runs any number of managers against a network that may lose, duplicate, reorder, redirect and
re-wrap datagrams, spoof source addresses and invent COOKIE and malformed packets. It cannot forge an INIT, a
RESPONSE or a TRANSPORT message: that must be one that some node has sent. `Ledger`, `Mesh` and `MeshSafety` carry
the invariant, `Slots` that every session is one its peer is configured for, and `Agreement` states the two
guarantees; `Openings` says which INIT a responder's session answers, and `Deadlines` until when an INIT can be
answered. `Steps` shows that whole steps of the managers, as the class takes them, are runs of this mesh. Single
managers over whole runs are in `Runs`, `PeerMoves`, `Rekeying`, `Responders`, `Expiry`, `Staleness`, `Relaying`,
`InitAdmission`, `Timers`, `Keepalives` and `Indexes`. Exact rules over those runs, stated without the functions of
`Peers` and `Nodes`, are in `Delivery` (what is opened), `GateRule` (which INITs are let through), `Dates` (when peers
were heard and handshakes completed), `Budgets` and `InitRetries` (what is sent when), `TunRouting` (where a packet
goes), `CookieSecrets`, `Exchanges` (when handshakes complete), and `Failures` (what is an error).

**The coordination server.** `Coordinator` is the interleaving of the separately locked steps of register, refresh
and delete, and `TokenRaces` says when it gives a node two tokens. `NodeTables`, `IpAllocator` and `CoordServer` are
the classes of the database, the allocator and the handlers, tied to those steps. `RateLimiter` proves the
sliding-window queue against the full history of requests. `SignedMessages` and `Roles` treat the signed-message
encodings and the initiator rule of the command-line client.

## Where the code and its documentation differ

The model follows the code.

- naboscale's README (line 127) says that an initiator echoes a cookie in its next INIT. In a first handshake it
  does if and only if its INIT was not written before the COOKIE came (`Responders.CookieEchoedIff`). A COOKIE that
  answers its INIT comes too late: it drops the cached INIT, the Noise state cannot write a second one, and every
  later step fails before the TUN device and maintenance (`Responders.CookieStopsTheManager`). A rekey begun later
  does carry the cookie and passes (`InitAdmission.CookieOpensGate`); its retries are byte-identical, so one begun
  earlier never gains it.
- naboscale's README (lines 177-180) says that a fresh COOKIE follows when the mac2 comes from a rotated secret.
  Verification compares with the one outstanding cookie and never with a secret, and no COOKIE is sent until that
  one is verified (`InitAdmission.LockedUntilVerified`).
- naboscale's README (lines 170-173) says that a slow first packet does not wedge the session, because a responder
  replaces its handshake state after an INIT that it rejects. It does, and is then ready for any acceptable INIT
  (`Responders.NextInitCompletes`), but the initiator has only the one INIT whose timestamp was taken when it was made
  (manager.rs:172, 245), and every retry repeats it: a copy is accepted if and only if it arrives within 120 s, either
  way, of that time (`Expiry.RetriesExpireIff`, `Deadlines.RetryOpensIff`). A first packet that is slower than that
  wedges the session for good, since no one makes a new initiator (`Deadlines.FirstHandshakeExpires`,
  `Expiry.WaitsForGoodIff`). An answer that cannot be sent costs one retry: it uses the responder up, and the next
  INIT only replaces it (`Responders.UsedUpIff`, `Responders.UsedUpIsReplaced`).
- The same holds for a rekey. Until a RESPONSE comes its peer gets no keepalive and is never marked stale, while its
  only INIT is acceptable for 120 s (`Expiry.RekeyExpiresIff`, `Deadlines.RekeyNeverCompletes`).
- manager.rs:303-305 says that a fresh handshake recovers a stale peer. Only one that the other side begins, by a
  direct INIT, does: the RESPONSE path never clears the mark (`Staleness.StaleThroughoutIff`), and maintenance skips
  a stale peer, so its own node begins none (`Staleness.StaleIsIdle`).
- db.rs:187-189 leaves it to the caller of `create_token` to revoke earlier tokens. `refresh_token` does so in an
  earlier step, which gives one live token per node exactly as long as no other refresh of the node creates one in
  between (`TokenRaces.OneTokenIff`, `TokenRaces.TwoRefreshesTwoTokens`).
- A RESPONSE that completes nothing parks its peer in `Init` for good, even one that was Ready and had no rekey in
  flight; one retransmitted INIT is enough if both answers arrive (`Rekeying.ReadyIsLeftIff`, `Rekeying.InitIsForGood`,
  `Rekeying.RetransmissionParksInitiator`).
- manager.rs:713-718 says that the endpoint refresh follows a peer to a new NAT address. It never changes anything
  (`Indexes.RefreshIsNoOp`): the address only changes when an INIT arrives from an unlisted source.
- manager.rs:1177-1180 says that the first keepalive comes after the keepalive interval. It comes with the first pass
  (`Timers.PassOutcome`).
- `heartbeat` keeps a relay that a node once reported (db.rs:169), so "the role rule never deadlocks" needs an
  accurate record (`Roles.RecordAccurateIff`, `Roles.LeavingTheRelay`).
- For heartbeats, endpoints need only be free of byte 0 for their encoding to be unique; byte 1 does no harm there.

## Model

| member | source | states |
|---|---|---|
| Agreement.SessionAgreement | crates/naboscale-tunnel/src/manager.rs:819-1093 | In every state of every run, a session a peer holds as initiator is with the responder, psk and sender id the peer is configured with, and that responder held it, then or earlier, in a peer configured with the same psk, the two configured sender ids being exchanged |
| Agreement.HeldAsConfigured | crates/naboscale-tunnel/src/manager.rs:819-1093 | In every state of every run, a held session has the psk and the own sender id of the peer that holds it and, for an initiator, its key |
| Agreement.ResponderFirst | crates/naboscale-tunnel/src/manager.rs:819-1093 | When a node comes to record an initiator session with another node, that responder had recorded the same session in the state before |
| Agreement.ResponderHasInitiator | crates/naboscale-tunnel/src/manager.rs:819-996 | A session held as responder, under the psk and sender id the peer is configured with, answers an INIT that its initiator, a node of the mesh, wrote for this very node under a key it drew itself; it is with the configured peer if and only if that INIT names it |
| Openings.NewSessionAnswers | crates/naboscale-tunnel/src/manager.rs:819-996 | A session that a node comes to record as responder answers an INIT that this very event brings and the node accepts, and is with whomever that INIT names |
| Openings.SpoofedSourceFillsSlot | crates/naboscale-tunnel/src/manager.rs:627-744 | A run in which another node's genuine INIT, coming from the address of the configured peer, makes that peer's slot Ready on a session with the other node, whatever psk that node has |
| Deadlines.FirstHandshakeExpires | crates/naboscale-tunnel/src/manager.rs:161-408 | In every run, a first handshake whose INIT nobody has answered yet and whose copies from then on reach the responder only outside 120 s of the making of the initiator never completes: the peer waits with the same initiator or has been parked |
| Deadlines.RekeyNeverCompletes | crates/naboscale-tunnel/src/manager.rs:1187-1348 | The same for a rekey: no peer of any node ever holds the session it was to bring |
| Deadlines.LateIsNeverAnswered | crates/naboscale-tunnel/src/manager.rs:819-996 | An INIT that nobody has answered and that reaches its responder only outside the window is never answered by any node |
| Deadlines.SentInitsExpireIff | crates/naboscale-tunnel/src/manager.rs:338-405 | In every state of every run, every INIT ever sent under the key of a waiting initiator is the one it was made with: a node accepts it if and only if it is the responder and within 120 s, either way, of the making of the initiator |
| Deadlines.RetryOpensIff | crates/naboscale-tunnel/src/manager.rs:819-996 | Brought to an untouched waiting peer of a node that can answer, directly or wrapped, any copy of a waiting initiator's INIT makes that peer Ready if and only if the node is its responder and the time is within the window |
| Agreement.InOrderDelivery | crates/naboscale-tunnel/src/manager.rs:560-608 | In every state of every run and on every channel, what was decrypted (direct or relayed, keepalives included) is a prefix of what the other end encrypted, and the device got exactly the non-empty plaintexts, in order |
| Delivery.DeliversAllIff | crates/naboscale-tunnel/src/manager.rs:1095-1124 | Over every trace, if all that one end of a channel sealed arrives in order, the other end has decrypted exactly all of it, and only then |
| Delivery.LogIsArrivals | crates/naboscale-tunnel/src/manager.rs:1095-1124 | In every trace the decrypted log of a channel is what a receiver that accepts exactly the next message, and ignores the rest, makes of the arrivals |
| Delivery.DirectData | crates/naboscale-tunnel/src/manager.rs:1095-1124 | A data packet from the endpoint of a peer is never an error; it is decrypted if and only if the peer is Ready, not stale, and it is the message that the other end of its session seals next: then the log of that channel grows by its payload, the nonce by one, the device by it unless it is empty; otherwise nothing is opened |
| Delivery.RelayedData | crates/naboscale-tunnel/src/manager.rs:764-786 | In a RELAY header for this node the same holds for stale peers too, and what a Ready peer cannot open is an error |
| Delivery.EventLog | crates/naboscale-tunnel/src/manager.rs:642-744 | No other event decrypts anything |
| Agreement.NoncesCount | crates/naboscale-crypto/src/transport.rs:30-65 | The two nonces of a live transport count everything ever encrypted and decrypted on its channel, and no two peers share a channel |
| Agreement.InstallWasLive | crates/naboscale-tunnel/src/manager.rs:819-1093 | Every recorded session was held by a Ready peer, under the recorded ids, in that or an earlier state of the run |
| Slots.EventKeepsConfigured | crates/naboscale-tunnel/src/manager.rs:819-1348 | Every event keeps what each peer waits with or holds, a rekey in flight included, made from that peer's configuration |
| Slots.NewNodeIs | crates/naboscale-tunnel/src/manager.rs:161-227 | A new manager has exactly the configured peers, in order, each waiting with its own handshake under an ephemeral of its own, with nothing sent or heard |
| Slots.DiscoveryAdds | crates/naboscale-tunnel/src/manager.rs:239-290 | Discovery adds exactly one such peer at the end, and both its index entries, unless its key is known |
| MeshSafety.RunInv | crates/naboscale-tunnel/src/manager.rs:328-408 | The mesh invariant (ledger, index coherence, backed messages, one INIT per initiator, mirrored sessions, in-order logs) holds in every state of every run |
| MeshSafety.StepKeepsInv | crates/naboscale-tunnel/src/manager.rs:328-408 | Any reaction of any node to anything the network can deliver keeps the mesh invariant and every record of every node |
| MeshSafety.HandleIncomingKeeps | crates/naboscale-tunnel/src/manager.rs:642-744 | Handling any backed datagram keeps the mesh invariant |
| MeshSafety.MaintenanceKeeps | crates/naboscale-tunnel/src/manager.rs:1129-1350 | A maintenance pass, complete or cut short by a send error, keeps the mesh invariant |
| MeshSafety.CollectOk | crates/naboscale-tunnel/src/manager.rs:1152-1235 | Collected tasks address Ready peers and their rekeys draw distinct, unused ephemeral keys |
| Steps.WholeStepIsARun | crates/naboscale-tunnel/src/manager.rs:328-408 | Any whole step of any node, on an inbox the network can deliver and cut short by any error, extends a run to a run, so the guarantees hold after any number of steps |
| Steps.StepIsEvents | crates/naboscale-tunnel/src/manager.rs:328-408 | A step goes through its inbox in order, then the INITs that are due, then the packet of the device if and only if there is one and some peer is Ready by then, then the maintenance, each with the sends the others left; it ends at the first error, and succeeds if and only if all of them do |
| Failures.EventFailsIff | crates/naboscale-tunnel/src/manager.rs:328-408 | Exactly these events are errors and so end a step: a datagram its peer rejects or that calls for an answer or a forward that cannot be sent, an INIT that is due but lost to a COOKIE or cannot be sent, a packet for a Ready peer that cannot be sent, a pass with more owed than the socket takes |
| Failures.IncomingFailsIff | crates/naboscale-tunnel/src/manager.rs:642-1124 | Exactly these datagrams are errors: a RESPONSE other than the one waited for, a relayed data packet that is not the next one, truncated ones of three kinds, RELAY for no known address, unknown ones inside RELAY, and anything whose answer or challenge cannot be sent; all other unknown ones are dropped |
| Ledger.SoundKept | crates/naboscale-tunnel/src/manager.rs:819-1124 | Any effect that is legal for a peer keeps the node ledger: keys drawn once, sessions installed once, nonces equal to log lengths, device equal to the non-empty plaintexts |
| Ledger.InitLegal | crates/naboscale-tunnel/src/manager.rs:819-996 | Both INIT handlers are legal: they install only sessions answering the INIT that was heard, under a fresh ephemeral key, and announce exactly that session |
| Ledger.ResponseLegal | crates/naboscale-tunnel/src/manager.rs:1022-1093 | The RESPONSE handler installs only the session of the RESPONSE it heard, for the initiator it was waiting with, which it uses up |
| Ledger.TransportLegal | crates/naboscale-crypto/src/transport.rs:51-65 | Decryption releases a plaintext only for the cipher of the other end at the receive nonce and moves that nonce by one |
| Ledger.SealLegal | crates/naboscale-tunnel/src/manager.rs:560-608 | Encryption uses the send nonce once, whether or not the send succeeds |
| Relaying.RelayedHandshakeCompletes | crates/naboscale-tunnel/src/manager.rs:746-996 | From the wrapped INIT of a relayed leaf to its RESPONSE both leaves end Ready on the two ends of one session with exchanged ids, and both packets are forwarded unchanged, the second to where the first came from; meanwhile the relay may do anything but learn a new address for that leaf, the initiator anything but receive a RESPONSE from that peer, the responder, before and after it answers, anything but receive another INIT or RESPONSE from it |
| Exchanges.RekeyCompletes | crates/naboscale-tunnel/src/manager.rs:831-868 | Whatever else the initiator does as long as no RESPONSE comes for the peer: the INIT of its rekey, let through at a Ready peer with the same psk within the window, is answered at once, to where it came from, and each end takes up its end of one new session, ids exchanged and nonces at zero |
| Exchanges.FirstHandshakeCompletes | crates/naboscale-tunnel/src/manager.rs:869-906 | The same for a first handshake and an untouched waiting peer |
| Exchanges.ParkedIff | crates/naboscale-tunnel/src/manager.rs:1022-1093 | An event parks a peer in Init if and only if it brings it a RESPONSE and the peer waits as responder, waits with an initiator whose INIT this does not answer, or is Ready with no rekey in flight |
| Relaying.InitiatorWaits | crates/naboscale-tunnel/src/manager.rs:338-405 | Over every run that brings it no RESPONSE a peer whose INIT is out keeps waiting with the same handshake |
| Relaying.LeftAlone | crates/naboscale-tunnel/src/manager.rs:1129-1350 | Over every run that brings it no INIT and no RESPONSE a waiting responder stays untouched and a Ready peer keeps its session and sender ids |
| Relaying.RelayForwards | crates/naboscale-tunnel/src/manager.rs:790-817 | A RELAY packet for another node is sent on unchanged, to the learned address of its destination if there is one and to the configured one otherwise |
| Relaying.SecondLeg | crates/naboscale-tunnel/src/manager.rs:790-817 | Whatever the relay did since without relearning it, a RELAY packet for a leaf goes on unchanged to the address the leaf was seen at |
| Relaying.LearnedLasts | crates/naboscale-tunnel/src/manager.rs:660-664 | A learned address stays until its owner sends RELAY from another source that no peer is listed at |
| Relaying.ReactLearns | crates/naboscale-tunnel/src/manager.rs:642-668 | No event changes a learned address except a RELAY packet of a known sender from an unlisted source, which sets that sender's |
| Relaying.LeafFinishes | crates/naboscale-tunnel/src/manager.rs:1022-1093 | An initiator whose own INIT was answered becomes Ready on exactly the answered session when the wrapped RESPONSE arrives |
| Relaying.LeafSendsWrapped | crates/naboscale-tunnel/src/manager.rs:342-390 | An INIT pass without an error sends a relayed leaf's first INIT to its relay in a RELAY header for the peer's mesh address |
| Relaying.FindsByIp | crates/naboscale-tunnel/src/manager.rs:794-800 | With distinct mesh addresses the first match is the peer itself, also after any run has added peers |
| Timers.MaintenanceIsPointwise | crates/naboscale-tunnel/src/manager.rs:1129-1350 | A due pass without a send error equals one timer function applied to each peer on its own, and sends what the turns send in peer order |
| Timers.PassOutcome | crates/naboscale-tunnel/src/manager.rs:1163-1348 | After such a pass a Ready, fresh, not rekeying peer is stale if and only if it was last heard more than reject_after before; otherwise it was sent to within keepalive and has a rekey in flight, to be retried in two seconds, if and only if the node initiates, knows its endpoint, and the handshake is more than rekey_after old. All that its turn sends is sent, a keepalive among it if and only if the peer is not silent and was sent nothing yet or nothing for longer than keepalive |
| Dates.DatedWhenTakenUp | crates/naboscale-tunnel/src/manager.rs:1072-1089 | In every run, the date a Ready peer bears is the time of the event that had it take up its session, and session and date have stood since |
| Dates.EventDates | crates/naboscale-tunnel/src/manager.rs:819-1093 | An event dates the handshake of a peer if and only if it has the peer take up a session, with its own time |
| Dates.RekeysInTime | crates/naboscale-tunnel/src/manager.rs:1187-1232 | In every run a fresh peer that took up its session at some step has a rekey in flight after a later successful pass if and only if one was in flight or the node initiates, knows its endpoint, has not gone unheard too long, and the pass comes more than rekey_after past that step |
| Dates.PassRekeysIff | crates/naboscale-tunnel/src/manager.rs:1187-1232 | The same for one pass, from the date the peer bears |
| Dates.HeardInRuns | crates/naboscale-tunnel/src/manager.rs:660-744 | In every run a peer was last heard at the last event that brought a datagram attributed to it |
| Dates.EventHears | crates/naboscale-tunnel/src/manager.rs:660-744 | An event that does so sets that date, whatever it brings, and no other event does |
| Budgets.PassFailsIff | crates/naboscale-tunnel/src/manager.rs:1129-1348 | A due pass succeeds if and only if the socket takes all that is owed to the peers (a due retry, or a keepalive and the INIT of a rekey, each by its own dates), and it sends that or as much of it as the socket takes |
| Budgets.InitPassFailsIff | crates/naboscale-tunnel/src/manager.rs:338-405 | The INIT loop succeeds if and only if no due INIT was lost to a COOKIE and the socket takes all that are due; then it has sent exactly those, in order |
| Budgets.InitsAreDue | crates/naboscale-tunnel/src/manager.rs:338-405 | A peer that the loop reaches is due again two seconds after its INIT was sent, and no more once it waits for no RESPONSE; all others stay as they were |
| InitRetries.InitRetriedIff | crates/naboscale-tunnel/src/manager.rs:338-405 | In every run: an INIT last sent at one event, with no COOKIE since, is sent again by a later loop if and only if its peer still waits, two seconds or more have passed, and the loop gets that far |
| InitRetries.RekeyRetriedIff | crates/naboscale-tunnel/src/manager.rs:1297-1346 | In every run: a successful pass resends the INIT of a rekey in flight if and only if it comes two seconds or more after the pass that last sent it |
| InitRetries.RekeyIsDated | crates/naboscale-tunnel/src/manager.rs:1297-1346 | A rekey in flight was begun or retried by a pass two seconds before it is due again, and its date has stood since |
| CookieSecrets.CookiesAgeOut | crates/naboscale-tunnel/src/manager.rs:1135-1141 | In every run, once a pass has come two minutes or more after an event, no cookie of that event is ever made again |
| CookieSecrets.EventRotatesIff | crates/naboscale-tunnel/src/manager.rs:1129-1141 | An event replaces the cookie secret if and only if it is a pass that finds it two minutes old, whether or not the pass then fails |
| CookieSecrets.RotationsAreSpaced | crates/naboscale-tunnel/src/manager.rs:1135-1141 | Any two rotations are two minutes apart |
| Timers.ApplyConcat | crates/naboscale-tunnel/src/manager.rs:1237-1348 | Applying two task lists in turn is applying their concatenation, with the first error ending both |
| Keepalives.KeepaliveGap | crates/naboscale-tunnel/src/manager.rs:1129-1186 | Over every run of successful steps at most d apart, from any start, a peer that stays Ready, not stale and not rekeying has been sent to within keepalive + maintenance_tick after every step that is a tick or more past the start; consecutive sends, and the start and the first send, are at most d further apart |
| Keepalives.PassesAreSpaced | crates/naboscale-tunnel/src/manager.rs:1129-1133 | However often a manager steps and whatever else happens, any two passes, also ones an error cuts short, are at least a tick apart |
| Keepalives.IncomingSendTimes | crates/naboscale-tunnel/src/manager.rs:642-744 | No incoming datagram counts as a send to any peer or moves the maintenance clock |
| Rekeying.ReadyIsLeftIff | crates/naboscale-tunnel/src/manager.rs:1038-1092 | Ready is left by exactly one kind of event: a RESPONSE for the peer while no rekey is in flight |
| Rekeying.SessionChangesIff | crates/naboscale-tunnel/src/manager.rs:831-868 | A Ready peer changes session if and only if a direct INIT is accepted and answered or the RESPONSE completes its own rekey; a failed RESPONSE keeps the transport and its sender id |
| Rekeying.InitIsForGood | crates/naboscale-tunnel/src/manager.rs:1078-1092 | A peer in Init stays there in every later state of every run of its manager |
| Rekeying.RetransmissionParksInitiator | crates/naboscale-tunnel/src/manager.rs:831-868 | Counterexample to permanence: if both answers to a retransmitted INIT arrive, the second parks the initiator in Init while the responder is Ready on a session the initiator never held; if the first is lost, the second makes both Ready on one session |
| Rekeying.RetriesAreIdentical | crates/naboscale-tunnel/src/manager.rs:1290-1346 | In every reachable state a due rekey retry resends exactly the INIT its stored initiator wrote, is due again in two seconds, and keeps the transport |
| Rekeying.StoredInRuns | crates/naboscale-tunnel/src/manager.rs:128-139 | Every rekey in flight stores the INIT of its own initiator, through every run |
| Expiry.RekeyEndsIff | crates/naboscale-tunnel/src/manager.rs:1038-1077 | A rekey in flight ends if and only if a RESPONSE comes for its peer |
| Expiry.RekeyExpiresIff | crates/naboscale-tunnel/src/manager.rs:1152-1346 | Until a RESPONSE comes, over every run, a pass sends a rekeying peer no keepalive and never marks it stale; all it sends is the one INIT of the rekey, acceptable if and only if it comes within 120 s of when the rekey began |
| Staleness.EventEndsStalenessIff | crates/naboscale-tunnel/src/manager.rs:831-868 | An event ends the staleness of a peer if and only if the peer is Ready and a direct INIT comes that this node accepts and can answer |
| Staleness.StaleThroughoutIff | crates/naboscale-tunnel/src/manager.rs:303-305 | So a stale peer is stale in every state of a run if and only if no event brings one: no RESPONSE and no data revive it |
| Staleness.StaleIsIdle | crates/naboscale-tunnel/src/manager.rs:1152-1156 | And its own node does nothing about it: no pass has a task for a stale peer, and its data is dropped |
| Rekeying.MoveFromReady | crates/naboscale-tunnel/src/manager.rs:831-1092 | What each elementary move does to a Ready peer: when it stays Ready, which session follows, and with whose ephemeral |
| PeerMoves.ReactMoves | crates/naboscale-tunnel/src/manager.rs:328-408 | Every event changes every peer by a list of licensed elementary moves only |
| PeerMoves.IncomingMoves | crates/naboscale-tunnel/src/manager.rs:642-744 | An incoming datagram touches no peer but the one it is attributed to, which makes exactly the listed moves |
| Responders.NextInitCompletes | crates/naboscale-tunnel/src/manager.rs:869-905 | After any run whose answers could be sent, the next INIT that passes the gate of a waiting peer makes it Ready in that step if and only if it is acceptable, on the session it asks for, and the RESPONSE goes to its source; otherwise the peer keeps waiting |
| Responders.NextRelayedInitCompletes | crates/naboscale-tunnel/src/manager.rs:939-995 | The same for an INIT in a RELAY header, the RESPONSE going back wrapped |
| Responders.AlwaysPoised | crates/naboscale-tunnel/src/manager.rs:869-905 | Through any run whose answers could be sent, rejected INITs included, every waiting peer holds an untouched responder |
| Responders.UsedUpIff | crates/naboscale-tunnel/src/manager.rs:869-905 | A waiting responder is used up if and only if its answer to an acceptable INIT could not be sent |
| Responders.UsedUpIsReplaced | crates/naboscale-tunnel/src/manager.rs:869-905 | The INIT after that only replaces the responder, even if it is acceptable |
| Expiry.WaitsForGoodIff | crates/naboscale-tunnel/src/manager.rs:869-905 | Over every run without a RESPONSE whose answers could be sent, a waiting responder still waits at the end if and only if no INIT that reached it was acceptable when it came |
| Expiry.RetriesExpireIff | crates/naboscale-tunnel/src/manager.rs:161-405 | Over every run of a manager, every INIT sent for a peer that waits for its first RESPONSE, whichever retry it is, is acceptable if and only if it reaches its responder within 120 s, either way, of the making of the initiator |
| Responders.CookieStopsTheManager | crates/naboscale-tunnel/src/manager.rs:542-558 | A COOKIE for a peer whose first INIT is out makes every later step without input fail before the TUN device and maintenance, until a RESPONSE arrives |
| Responders.CookieEchoedIff | crates/naboscale-tunnel/src/manager.rs:342-366 | After a COOKIE for a peer that waits for its first RESPONSE, the next due turn with a working socket sends an INIT with that cookie's mac2 if and only if the INIT had not been written; otherwise it fails and sends nothing |
| Responders.CookieEchoedInPass | crates/naboscale-tunnel/src/manager.rs:338-405 | The INIT pass of the manager after that COOKIE: it fails if the INIT had been written, and if it meets no error the INIT it then sends for that peer carries the mac2 |
| Responders.InitTurnFailsIff | crates/naboscale-tunnel/src/manager.rs:338-405 | The INIT turn of a peer fails if and only if its INIT is due and either was written before and its copy dropped, or cannot be sent |
| Responders.StallLasts | crates/naboscale-tunnel/src/manager.rs:338-405 | The stall outlasts every run without a RESPONSE |
| Indexes.ReactCoherent | crates/naboscale-tunnel/src/manager.rs:642-744 | Every event keeps every index entry true, and every event but a discovery keeps both indexes exact inverses of the peer vector; the node keeps its identity and forgets no peer |
| Runs.ExactInRunsIff | crates/naboscale-tunnel/src/manager.rs:239-283 | Both indexes are exact inverses of the peer vector in every state of a run if and only if no discovery in it gives a new key an endpoint that is taken |
| Runs.ExactFromStart | crates/naboscale-tunnel/src/manager.rs:161-283 | In particular over every run of a manager configured with distinct keys and endpoints |
| Indexes.RefreshIsNoOp | crates/naboscale-tunnel/src/manager.rs:719-727 | The endpoint-refresh block never changes anything |
| Indexes.DiscoverExact | crates/naboscale-tunnel/src/manager.rs:239-283 | Discovery keeps the indexes exact if and only if the key is known or the endpoint is free |
| Indexes.NewNodeExact | crates/naboscale-tunnel/src/manager.rs:161-227 | A new manager is coherent, and exact if and only if the configured endpoints and keys are distinct |
| Indexes.IncomingFramed | crates/naboscale-tunnel/src/manager.rs:660-727 | An incoming datagram changes the indexes, the configurations, the learned addresses and the clocks by at most one learned address or one endpoint, and only from an unlisted source; it decrypts at most the one message that its peer is to open next; what was sent stays sent |
| Indexes.ReactFramed | crates/naboscale-tunnel/src/manager.rs:328-408 | Every event leaves all that is not a session as its opening left it: note of the sender and the message it opens, start of the pass, or the new peer |
| Runs.StepCoherent | crates/naboscale-tunnel/src/manager.rs:328-408 | A whole step keeps every index entry true |
| InitAdmission.OutstandingCookie | crates/naboscale-tunnel/src/manager.rs:452-484 | A cookie is demanded if and only if one is outstanding, so the fallback branch is unreachable, and then exactly the INITs with its mac2 pass |
| GateRule.ExactRule | crates/naboscale-tunnel/src/manager.rs:436-506 | Over every sequence of INITs at a gate: with no cookie outstanding one is let through if and only if it begins a new window or fewer than five have knocked since the window began or a cookie was verified; otherwise it is challenged. With one outstanding, exactly those that verify it are let through |
| GateRule.CountsThose | crates/naboscale-tunnel/src/manager.rs:470-490 | The counter of a gate is the number of knocks from the one that began the window, and after the last that verified a cookie |
| GateRule.WindowBegan | crates/naboscale-tunnel/src/manager.rs:470-490 | A window began with the last knock that came a second or more after the one before it began |
| GateRule.RunAdmitsIff | crates/naboscale-tunnel/src/manager.rs:436-506 | In every run of a manager an INIT for a peer with no cookie outstanding reaches the handshake exactly by that rule; any other gets a COOKIE, is an error if that cannot be sent, and leaves the session alone |
| GateRule.GateAnswers | crates/naboscale-tunnel/src/manager.rs:436-540 | Whatever the state of the gate, what the manager does with an INIT is what the gate says of it |
| InitAdmission.RunWindowBound | crates/naboscale-tunnel/src/manager.rs:436-506 | In every run of a manager each rate window of a peer lets through at most 5 * (1 + v) INITs without a verified mac2, v being those it lets through with one |
| InitAdmission.RunSecondBound | crates/naboscale-tunnel/src/manager.rs:436-506 | In every run any one second touches at most two windows of a peer, and at most 10 direct INITs reach its handshake in it without a verified mac2, plus five per cookie verified in those windows |
| InitAdmission.GateInRuns | crates/naboscale-tunnel/src/manager.rs:436-506 | In every run the gate of a peer is the replay of exactly the INITs that knocked at it |
| InitAdmission.HandlesInitIff | crates/naboscale-tunnel/src/manager.rs:728-734 | A direct INIT reaches the handshake of a peer if and only if its knock is admitted |
| InitAdmission.LockedUntilVerified | crates/naboscale-tunnel/src/manager.rs:452-484 | While no INIT carries the outstanding cookie's mac2, nothing passes and no other COOKIE is sent, over any number of INITs |
| InitAdmission.CookieOpensGate | crates/naboscale-tunnel/src/manager.rs:524-558 | The rekey INIT built from the COOKIE that was sent passes the gate that sent it, whenever it arrives |
| InitAdmission.GateIsKnocked | crates/naboscale-tunnel/src/manager.rs:436-506 | The manager's check is the gate these bounds are about |
| Noise.HandshakeRoundTrip | crates/naboscale-crypto/src/handshake.rs:87-236 | For all keys, psks, sender ids, stamps and ephemerals the INIT is answered exactly when the clocks are within 120 s, and the RESPONSE completes exactly when the psks agree, giving both ends of one session and exchanged ids |
| Noise.TimelyIffWithinWindow | crates/naboscale-crypto/src/timestamp.rs:37-48 | Reading back the encoded stamp, the replay check accepts exactly the stamps within 120 s either way |
| Noise.TaiLayout | crates/naboscale-crypto/src/timestamp.rs:36-42 | The stamp on the wire: eight bytes of seconds and four of nanoseconds, base-256 digits with the most significant first |
| Handshakes.HandshakeOnTheWire | crates/naboscale-crypto/src/handshake.rs:87-236 | The same round trip over octets, with any octets after the INIT and the RESPONSE; the id fields are echoed in place |
| Handshakes.AnswerRefines | crates/naboscale-crypto/src/handshake.rs:168-231 | On the octets of any INIT and anything after them consume_init leaves the symbolic responder state and its 92 octets are those of the symbolic RESPONSE |
| Handshakes.AnswerReadsOnlyInit | crates/naboscale-crypto/src/handshake.rs:168-231 | consume_init depends only on the first 148 octets |
| Handshakes.CompleteRefines | crates/naboscale-crypto/src/handshake.rs:108-135 | On the octets of any RESPONSE consume_response succeeds exactly as the symbolic initiator does |
| Handshakes.OpenedRefines | crates/naboscale-crypto/src/transport.rs:51-65 | On the octets of any transport message decrypt is the symbolic one whatever id and counter the header shows |
| Handshakes.Initiator.WriteInit | crates/naboscale-crypto/src/handshake.rs:87-106 | Filling the buffer in place yields the octets of the symbolic INIT, once; a second call fails |
| Handshakes.Initiator.ConsumeResponse | crates/naboscale-crypto/src/handshake.rs:108-135 | The buffer checks and the transport it returns are those of the octet function that CompleteRefines is about |
| Handshakes.Responder.ConsumeInit | crates/naboscale-crypto/src/handshake.rs:168-231 | The reply buffer and the state left behind, on every error path too, are those of the octet function that AnswerRefines is about |
| Handshakes.Responder.IntoTransport | crates/naboscale-crypto/src/handshake.rs:233-236 | A transport at nonce zero exactly when the handshake is finished |
| Handshakes.Transport.Encrypt | crates/naboscale-crypto/src/transport.rs:30-49 | Too small a buffer changes nothing; otherwise header and cipher fill the front, the rest is untouched, and the counter in the header is the nonce |
| Handshakes.Transport.Decrypt | crates/naboscale-crypto/src/transport.rs:51-65 | Plaintext at the front of the buffer, the rest untouched; a failure leaves nonce and buffer as they were |
| Octets.InitLayout | crates/naboscale-crypto/src/handshake.rs:87-106 | Where each field of the 148 octets is: type 1 at 0, the base-256 digits of the id from 4, the least significant first, Noise at 8, mac1 over the first 132 at 132 |
| Octets.ResponseLayout | crates/naboscale-crypto/src/handshake.rs:212-230 | Where each field of the 92 octets is: type 2 at 0, the digits of the two ids from 4 and 8, the least significant first, Noise at 12, mac1 over the first 76 at 76 |
| Octets.TransportLayout | crates/naboscale-crypto/src/transport.rs:30-49 | The header of a transport message: type 4 at 0, the digits of the receiver id from 4 and of the counter from 8, the least significant first, and the ciphertext at 16 |
| Octets.Mac1Injective | crates/naboscale-crypto/src/handshake.rs:102-104 | Two mac1 fields have the same octets exactly when key and covered octets are the same |
| Basics.BigEndianRoundTrip | crates/naboscale-crypto/src/timestamp.rs:37-48 | Big-endian decoding undoes encoding for every value that fits |
| Basics.LittleEndianRoundTrip | crates/naboscale-crypto/src/handshake.rs:121-122 | Little-endian decoding undoes encoding for every value that fits |
| TunnelManagers.TunnelManager.constructor | crates/naboscale-tunnel/src/manager.rs:161-227 | Builds a coherent manager with one session per configuration, roles as configured |
| TunnelManagers.TunnelManager.AddPeer | crates/naboscale-tunnel/src/manager.rs:239-290 | Adds a peer exactly when its key is unknown and reports that |
| TunnelManagers.TunnelManager.CheckInitCookie | crates/naboscale-tunnel/src/manager.rs:436-506 | In place: the counted, checked or challenged gate, the COOKIE sent, and whether to go on; when it does is GateRule.ExactRule |
| TunnelManagers.TunnelManager.HandleInit | crates/naboscale-tunnel/src/manager.rs:819-906 | In place: rekey of a Ready peer, answer of a waiting one, silence otherwise; a failed send keeps the old session; a session taken up is dated (Dates.EventDates) |
| TunnelManagers.TunnelManager.HandleInitViaRelay | crates/naboscale-tunnel/src/manager.rs:927-996 | In place: only a waiting peer answers, wrapped, and its session is dated (Dates.EventDates) |
| TunnelManagers.TunnelManager.HandleResponse | crates/naboscale-tunnel/src/manager.rs:1022-1093 | In place, with the state swapped out before it is looked at: completes a rekey or a first handshake and dates it (Dates.EventDates), or parks the peer in Init |
| TunnelManagers.TunnelManager.HandleTransport | crates/naboscale-tunnel/src/manager.rs:1095-1124 | In place: stale peers drop, empty plaintexts stay off the device, failures are swallowed; what that means for every packet is Delivery.DirectData |
| TunnelManagers.TunnelManager.HandleCookie | crates/naboscale-tunnel/src/manager.rs:542-558 | In place: stores the cookie, drops the cached INIT and makes it due |
| TunnelManagers.TunnelManager.LookupByIp | crates/naboscale-tunnel/src/manager.rs:610-625 | The first peer with the address, or none if none has it |
| TunnelManagers.TunnelManager.IdentifyInitiatorByMac1 | crates/naboscale-tunnel/src/manager.rs:627-640 | The first peer whose key the mac1 was made with, or none |
| TunnelManagers.TunnelManager.HandleRelay | crates/naboscale-tunnel/src/manager.rs:746-817 | In place: unwrap for this node or forward unchanged, with each error |
| TunnelManagers.TunnelManager.HandleIncoming | crates/naboscale-tunnel/src/manager.rs:642-744 | In place and keeping the indexes coherent: attribution by key, by source or by mac1, learning, and dispatch |
| TunnelManagers.TunnelManager.SendMaybeRelay | crates/naboscale-tunnel/src/manager.rs:1001-1020 | One datagram, wrapped exactly when the peer is relayed |
| TunnelManagers.TunnelManager.SendDueInits | crates/naboscale-tunnel/src/manager.rs:338-405 | In place: the INIT loop over all peers, ended by its first failure |
| TunnelManagers.TunnelManager.DispatchTunPacket | crates/naboscale-tunnel/src/manager.rs:560-608 | In place: one packet encrypted and sent for the Ready peer with its destination address; a failed send has used the nonce |
| TunRouting.TunPacketGoesTo | crates/naboscale-tunnel/src/manager.rs:560-625 | An IPv4 packet, read as bytes, goes to the first peer whose mesh address is the number in its bytes 16 to 19, if that peer is Ready: one datagram to its relay or endpoint with the packet sealed at the next nonce under the id the other end listens on, the log of the channel grown by it, and nothing else changed; an error only if it cannot be sent |
| TunRouting.TunPacketDropped | crates/naboscale-tunnel/src/manager.rs:560-625 | Every other packet is dropped without an error and changes nothing |
| TunnelManagers.TunnelManager.CollectTasks | crates/naboscale-tunnel/src/manager.rs:1152-1235 | The collecting loop yields the tasks of every peer in order, without changing anything |
| TunnelManagers.TunnelManager.ApplyAll | crates/naboscale-tunnel/src/manager.rs:1237-1348 | The applying loop in place, ended by its first send error |
| TunnelManagers.TunnelManager.Maintenance | crates/naboscale-tunnel/src/manager.rs:1129-1350 | In place: nothing before the tick, otherwise rotation, collection and application |
| TunnelManagers.TunnelManager.Step | crates/naboscale-tunnel/src/manager.rs:328-408 | In place and keeping the indexes coherent: receive, INITs, one TUN packet if any peer is Ready, maintenance; an error skips the rest |
| Nodes.FindByIp | crates/naboscale-tunnel/src/manager.rs:610-625 | Everything before the match has another address |
| Nodes.FindByMac1 | crates/naboscale-tunnel/src/manager.rs:627-640 | Everything before the match has another key |
| Coordinators.AddressesConserved | crates/naboscale-coord/src/routes.rs:63-83 | In every interleaving of the steps of register, refresh and delete, the used addresses are the disjoint union of those of live nodes, of handlers between allocate and insert, of handlers between delete and release, and of the leaked ones |
| Coordinators.InsertNeverBreaksUniqueIp | crates/naboscale-coord/src/db.rs:89-100 | So no two nodes and no two handlers ever hold one address, and no insert meets its own address in the table |
| Coordinators.LeaksIff | crates/naboscale-coord/src/routes.rs:63-83 | An address leaks exactly when its insert meets a known node id, identity key or tunnel key |
| Coordinators.UsedChangesIff | crates/naboscale-coord/src/ip_alloc.rs:27-45 | In every interleaving an address is taken exactly by a handler that begins to register while one is free, the least, and given back exactly by one that has deleted its node |
| Coordinators.RestartIsFresh | crates/naboscale-coord/src/ip_alloc.rs:16-25 | A restart at any point of any interleaving returns every leaked address and keeps exactly the live ones |
| Coordinators.StepKeepsAddresses | crates/naboscale-coord/src/routes.rs:63-269 | Each separately locked step keeps the partition and changes the owner of at most one address |
| Coordinators.TokensDieForGood | crates/naboscale-coord/src/db.rs:105-119 | With fresh tokens and node ids, an issued token that is refused once is refused in every later state of every interleaving, at every later time |
| TokenRaces.OneTokenIff | crates/naboscale-coord/src/routes.rs:206-239 | In any interleaving, every node has at most one unrevoked token in every state if and only if no refresh is overtaken: none creates its token after another handler has created one for the node since it revoked, nothing having cleared that one |
| TokenRaces.DoublesIffOvertaken | crates/naboscale-coord/src/routes.rs:226-232 | A step doubles a node's tokens if and only if its refresh was overtaken |
| TokenRaces.SecondTokenIff | crates/naboscale-coord/src/db.rs:178-203 | Of all steps of all handlers, exactly the creation of a token for a node that has a live one gives a node two |
| TokenRaces.OneTokenEach | crates/naboscale-coord/src/routes.rs:206-272 | So when handlers run one at a time, no node ever has two unrevoked tokens |
| TokenRaces.TwoRefreshesTwoTokens | crates/naboscale-coord/src/routes.rs:206-239 | An input that overtakes: two refreshes of one token leave two that both work |
| NodeTables.LookupAfter | crates/naboscale-coord/src/db.rs:89-247 | What each statement means for every token at every time: whose lookups change, to what, and that all others stay |
| NodeTables.Database.Insert | crates/naboscale-coord/src/db.rs:89-100 | Two statements in place: all, or the node row alone, or nothing, by which constraint fails |
| NodeTables.Database.GetNodeByToken | crates/naboscale-coord/src/db.rs:105-119 | The node of a token that exists, is not revoked, has not expired and whose node exists |
| NodeTables.Database.RevokeAllTokensForNode | crates/naboscale-coord/src/db.rs:178-185 | Exactly the node's tokens are revoked |
| NodeTables.Database.Create | crates/naboscale-coord/src/db.rs:190-203 | A new token row unless the token exists or an enforced foreign key has no node |
| NodeTables.Database.Delete | crates/naboscale-coord/src/db.rs:229-247 | The node and all its tokens go, and its address is returned if there was one |
| CoordServers.Server.RegisterNode | crates/naboscale-coord/src/routes.rs:49-92 | Takes the steps of the interleaving model. Out of addresses exactly when the pool is used up; otherwise a conflict exactly when a row has the id, a key or the address, or the token is not new, and else done, with the address, the expiry, both rows and a token that works until then |
| CoordServers.Server.RefreshToken | crates/naboscale-coord/src/routes.rs:206-239 | Takes the steps of the model. An invalid token exactly when it does not work, then an invalid signature exactly when it is not authentic, then a conflict exactly when the drawn token is not new, and else done: the new token is the caller's only live one. Nothing else of the tables changes |
| CoordServers.Server.DeregisterNode | crates/naboscale-coord/src/routes.rs:244-272 | Takes the steps of the model. Done exactly when the token works and the signature is authentic, each other reply exactly for its reason: then the node and its tokens are gone and its address is free |
| CoordServers.Server.constructor | crates/naboscale-coord/src/ip_alloc.rs:16-25 | Starts from any database; with distinct printed addresses in the table this is a fresh start of the model |
| IpAllocators.IpAllocator.Allocate | crates/naboscale-coord/src/ip_alloc.rs:27-37 | The least free address of the pool, taken; fails exactly when all 65534 are used |
| IpAllocators.IpAllocator.Release | crates/naboscale-coord/src/ip_alloc.rs:41-45 | Exactly that address becomes free |
| IpAllocators.IpAllocator.constructor | crates/naboscale-coord/src/ip_alloc.rs:16-25 | Used are exactly the parsed addresses of the table |
| IpAllocators.Ipv4StrToU32 | crates/naboscale-coord/src/ip_alloc.rs:56-65 | The array loop computes the first four dotted parts, zero for a missing or malformed one |
| IpAllocators.ParsesIff | crates/naboscale-coord/src/ip_alloc.rs:56-65 | A part is an octet if and only if it is the decimal digits of one, with any number of noughts and at most one plus sign in front |
| IpAllocators.TextRoundTrip | crates/naboscale-coord/src/ip_alloc.rs:52-65 | Parsing undoes printing for every address |
| IpAllocators.RebuiltFromTable | crates/naboscale-coord/src/ip_alloc.rs:16-25 | Rebuilding from printed addresses yields exactly those addresses |
| IpAllocators.PoolEnds | crates/naboscale-coord/src/ip_alloc.rs:6-9 | The pool runs from 100.100.0.1 to 100.100.255.254 |
| IpAllocators.PoolText | crates/naboscale-coord/src/ip_alloc.rs:6-9 | Its ends as numbers and as they are printed, and that it ends there |
| RateLimiters.RateLimiter.Check | crates/naboscale-coord/src/rate_limit.rs:84-114 | Admits exactly when fewer than the maximum of the key's earlier admissions lie in the window, whatever other keys do; on rejection there is room again exactly from 50 ms before the end of the returned wait, if nothing else arrives |
| RateLimiters.WindowHoldsAtMostMax | crates/naboscale-coord/src/rate_limit.rs:84-114 | Whenever requests arrive, no interval as long as the window holds more admissions than the maximum |
| RateLimiters.MinuteHoldsAtMost | crates/naboscale-coord/src/rate_limit.rs:36-55 | In no minute is a client let through more than 5 times to register, 30 to send a heartbeat, 10 for a token and 120 otherwise |
| RateLimiters.MinuteIsUsed | crates/naboscale-coord/src/rate_limit.rs:36-55 | And a request that leaves the last minute below that is let through |
| RateLimiters.RoomReturns | crates/naboscale-coord/src/rate_limit.rs:102-111 | With a full queue room returns exactly when its oldest entry leaves the window |
| RateLimiters.Trim | crates/naboscale-coord/src/rate_limit.rs:95-101 | The popping loop keeps exactly the admissions within the window |
| SignedMessages.SharedEncodingIff | crates/naboscale-coord/src/auth.rs:25-92 | A signed message has the encoding of another one if and only if it is a heartbeat whose endpoint holds a byte 0 or whose relay holds a byte 0 or ends in a byte 1; never across the four kinds |
| SignedMessages.EndpointConfusedIff | crates/naboscale-coord/src/auth.rs:38-51 | Among endpoints without byte 0 encodings are unique, and every endpoint with one shares its encoding with an endpoint without |
| SignedMessages.EncodingLayout | crates/naboscale-coord/src/auth.rs:25-92 | The signed bytes of each kind: the name of the operation, the 64-bit timestamp with its most significant byte first, and the fields with the marker before the relay |
| SignedMessages.BuildHeartbeatMessage | crates/naboscale-coord/src/auth.rs:38-51 | Appending tag, stamp, endpoint and marked relay builds the encoding these lemmas are about |
| SignedMessages.BuildRegisterMessage | crates/naboscale-coord/src/auth.rs:25-36 | The same for registration |
| SignedMessages.BuildRefreshMessage | crates/naboscale-coord/src/auth.rs:80-85 | The same for token refresh |
| SignedMessages.BuildDeleteNodeMessage | crates/naboscale-coord/src/auth.rs:87-92 | The same for deletion |
| Roles.ExactlyOneInitiates | crates/naboscale-cli/src/cli.rs:466-472 | Two nodes with different keys that see each other's relay as it is have exactly one initiator, whichever copies of the rule they use, if and only if they are not both behind a relay: the one behind a relay, or else the one whose key is larger at the first byte where they differ |
| Roles.LeavingTheRelay | crates/naboscale-cli/src/cli.rs:681-687 | A node that no longer uses a relay it once reported has no initiator with a direct peer if and only if its key is the lesser one |
| Roles.RecordAccurateIff | crates/naboscale-coord/src/db.rs:160-173 | The recorded relay is accurate exactly when the node still uses one or never did |
| Roles.RecordIsLast | crates/naboscale-coord/src/db.rs:160-173 | The recorded relay is the one that the last heartbeat with a relay named |
| Roles.UnparsableRelay | crates/naboscale-cli/src/cli.rs:661-687 | The two copies of the rule differ exactly for a relay that does not parse: an error at startup, and no relay at discovery |
| Roles.ExactlyOneGreater | crates/naboscale-cli/src/cli.rs:471-471 | The byte order decides between any two different keys of the same length, one way only |
| Roles.GreaterIff | crates/naboscale-cli/src/cli.rs:471-471 | It is decided by the first byte where they differ |

## Left out

- Real cryptography: X25519, ChaCha20-Poly1305, BLAKE2s, ed25519 and the key files are symbolic terms or parameters.
- The derivation of a cookie (manager.rs:509-521) is an opaque function of the secret and the source; its slice lengths and IPv6 sources are not modelled, and `last_cookie_secret`, which nothing reads, is dropped.
- A corrupted INIT, RESPONSE or TRANSPORT of full length: in the mesh the network forges none, so only rejection for a wrong recipient, time, mac1, id, session or nonce is covered, which a corrupted one would share.
- Failures of the TUN device, of `Initiator::new` and of the system clock, buffer sizes of the manager (1500 to 2048 bytes), and TAI64N seconds of 2^63 and more.
- Nonce exhaustion at 2^64 and wrap-around of the 32-bit INIT counter.
- A handler reads its clock once in the model; the source reads it again a few instructions later.
- IPv6 endpoints, and how the client parses the endpoints it is given.
- The check of the initiator's static key against the configured peer: the code makes none, and the session is with whomever the INIT names (`Openings.SpoofedSourceFillsSlot`).
- `identify_initiator_by_mac1` as an identification: it is modelled as the first-match search it is.
- Uniqueness of local sender ids, which neither numbering scheme of the client gives.
- Loops of RELAY forwarding: the code has no hop limit.
- UDP, TUN, HTTP, JSON, SQL text, base64, logging, scheduling, configuration files and command-line parsing.
- Heartbeat, peer listing and health routes, apart from the relay record and the heartbeat encoding: they only read or overwrite one row.
- Backfill and migration of old databases, and a process that stops between the two statements of `insert_node` or `delete_node`.
- The Retry-After header, which rounds the wait down to seconds; and two requests that read the clock in one order and take the limiter's lock in the other.
- Coordinators.Do: signature and timestamp checks are one yes-or-no outcome, and an unsigned request ends in `Abandon`.
- TunnelManagers.TunnelManager.DueActions: the ephemeral key that a rekey draws is numbered by the peer's position, so that collecting draws nothing in place.
- Relaying.RelayedHandshakeCompletes: a RESPONSE or a second INIT between the same two leaves while their handshake is under way; `Rekeying` says what those do.
- NodeTables.Database.Create: whether SQLite enforces foreign keys is a parameter, since it is a build setting.
- TokenRaces.OneTokenIff: an interleaving that begins with a refresh half done, which no start of the server does.
