# VOIDNET: verified models of the stateful core

VOIDNET is a peer-to-peer stack written in Rust. This project models the parts of it
that keep state, negotiate, merge or parse, and proves what they promise.

## What is modelled

**Replay memory** (`replay.dfy`). A protector remembers the nonces it accepted and
forgets those that left the time window. With a clock that does not run backwards,
forgetting is invisible: it answers as a log that never forgets, and no key and
timestamp are accepted twice. For an arbitrary clock, the readings at which something
can be accepted twice are characterised exactly.

**Chat rooms** (`rooms.dfy`, `room_effects.dfy`, `room_merge.dfy`, `sorting.dfy`). Rooms
are edited locally and merged with remote snapshots; every step sorts the members and cuts
the history to the newest 48 events. The representation invariant holds after every run,
and each operation is pinned field by field. Merging
converges although every merge truncates, and it is order independent exactly for pools
in which an event id names one event, no two events share a timestamp, and a peer has
one record per last-seen time.

**Encrypted sessions** (`session.dfy`, `network.dfy`, `agreement.dfy`,
`session_theorems.dfy`, `crossing.dfy`, `delivery.dfy`, `timely.dfy`, `handshake.dfy`). Any number of nodes, each with a
clock of its own, exchange offers, acks and envelopes over a log of published messages,
from which anything may be delivered at any time, again, or never. Peers that are none of
the nodes publish messages of any content in their own name; what nobody signed is refused.
Key agreement is the X25519 law of section 6.1 of RFC 7748: a shared secret is the
unordered pair of the two exponents. In every run nothing a node submits is lost between
its queue and the log, nothing is invented, altered or delivered twice, and equal session
ids mean equal keys. Two nodes agree on one session in every run exactly when at most one
of them may open the negotiation. An envelope between such nodes is taken exactly when it
passes the replay check and its receiver holds the session; one that comes too early is
lost in every continuation, and a concrete run loses one. Messages bear their sender's
clock, so with clocks within the replay window of each other delivery is end to end: what
is sent under a session arrives, and a first message brings its session about and arrives.

**Room membership** (`membership.dfy`, `attendance.dfy`, `announcements.dfy`). Commands edit the joined set and the rooms at
once and defer the subscriptions; the room sync refreshes the local member in between.
After every tick the joined set, the joined flags and the subscribed topics are one set
again, decided per room by its last Join or Leave, and so is whether the node is online in
a room. Heartbeats are two seconds apart in every run, every command leaves its event in the
room's history, and announcements go out while their topic is subscribed.

**VOID DNS** (`dns.dfy`, `evidence.dfy`). A cache of signed, expiring name records. A name changes owner
only after its current record has expired; an owner keeps a name until its record expires
exactly when none of the owner's later updates expires before it; a refused rival leaves
exactly one piece of evidence, and all evidence is true: it names both owners, both records
and the time of an actual refusal. Every record arrived as its entry says. One owner's records converge in every order exactly when
their creation times differ.

**VOID URIs** (`uri.dfy`, `uri_syntax.dfy`). Exactly the texts that spell a URI parse, each
to the URI it spells, and every other text gets the error of its case. Every string that
parses has a canonical form. A URI built by
the constructor survives printing and parsing exactly when its path has no `?`.

**Two UI languages** (`lexer.dfy`, `characters.dfy`, `lexical_grammar.dfy`, `token_stream.dfy`;
`void_ui.dfy`, `void_ui_grammar.dfy`, `void_ui_errors.dfy`, `void_ui_prefixes.dfy`,
`void_ui_print.dfy`; `surface.dfy`, `surface_grammar.dfy`, `surface_errors.dfy`,
`surface_print.dfy`). The tokenizers and both recursive-descent parsers are methods that
advance a position, proved equal to functions. Texts have a lexical grammar of pieces and
each language a grammar of derivation trees, neither of which mentions the code; the
tokenizer and both parsers accept exactly what these derive, and return what it means. The
characters are written out, so layout is free, and a page that derives but means nothing
gets the error of its first bad node. VOID UI reports an early end exactly for what can
still become a page, and every other error at the first token no page can continue with.
VOID UI pages survive printing and parsing exactly when no button action has a `?` in its
path. Surface documents are parsed with two tokens of lookahead; the documents some text
parses to are exactly those a syntactic predicate describes, and all of them survive
printing and parsing.

**Rendering** (`render.dfy`, `decimal.dfy`). The runtime tree numbers the nodes of a
document in preorder. Rendering a parsed document fails exactly when an input lacks its
id, and otherwise offers all its buttons, in preorder, numbered from 1.

**Capabilities** (`capabilities.dfy`, `capability_defaults.dfy`). Permission records are consulted, extended and
rewritten by negotiation. A recorded decision changes only through a grant for its own
key, so asking again gives the same verdicts whatever happened to the gateways' trust. What
nobody decided is rejected except for gateway capabilities of fully trusted gateways and,
when configured so, the listed safe ones.

**Log collapsing** (`logs.dfy`) is a run-length code, and a faithful one exactly when no
message already ends in a repeat suffix. **Stream chunking** (`stream.dfy`) conserves the
body, and marks exactly the last chunk except for chunk size zero.

`prelude.dfy` holds the shared types and the byte order in which Rust compares strings.

## How it is modelled

Each stateful component is a class whose methods change its fields as the source does;
their contracts equate the new state with a specification function of the old one, and
the theorems are about runs of those functions. `for` and `while` loops of the source are
loops here, its iterator expressions are functions, and `?` is `:-` on a `Result`.

Clocks are parameters, one reading per decision. Peer ids hold no colon (they are base58
text). Signatures are unforgeable, hashes and
fingerprints injective, and encryption is undone by the same key and by no other. Random
session ids, secrets and nonces of the nodes are the position of their message in the log,
so they are distinct. Serialisation, encryption and subscription do not fail.

Where the code does less than one might expect, each a proved statement:

- An envelope that overtakes the ack of its session is dropped and its nonce remembered, so
  no later copy is delivered either (`Delivery.OvertakingEnvelopeIsLost`, with
  `Delivery.EnvelopeTakenIff` saying exactly when an envelope is taken).
- Crossing offers leave two nodes with different sessions (`Crossing.CrossingDisagrees`), and
  then neither hears the other (`Delivery.DisagreementIsDeaf`).
- An ack for another session ends the attempt it answers and leaves the texts queued, until
  the next text to that peer (`Handshake.StrayAckEndsAttempt`).
- A clock that runs ahead and steps back can make the protector accept a request again,
  exactly when a reading forgets part of what an earlier and a later one have in common
  (`Replay.ClockSteppingBackReadmits`).
- Snapshots with tied timestamps or reused ids merge differently in different orders
  (`RoomMerge.OrderIndependentIffCoherent`).
- An owner's own shorter-lived update, and nothing else, releases a name early
  (`Dns.ShorterUpdateReleasesName`), and records tied in creation time leave the first to
  arrive (`Dns.ConvergentIffDistinctCreation`).
- A `?` in a path given to the URI constructor moves into the query on the way through
  text (`Uri.RoundTripIff`).
- Negotiation recomputes `persisted`, also where an explicit grant had set it
  (`CapabilityDefaults.GrantThenNegotiation`).
- With chunk size zero no chunk of a non-empty body is marked final
  (`Stream.LastIsMarkedIff`). The program itself never asks for that: its one call passes
  the constant 1024 (core/runtime/src/lib.rs:2448 and 2980).
- The document model in docs/protocol/void-ui.md has an optional leading title and an
  `image` node; the code accepts titles anywhere in a page, keeps the last one, knows
  `panel` and `item`, and has no `image`. The model follows the code.

## Model

| member | source | states |
|---|---|---|
| Replay.ReplayProtector.CheckAndRecord | apps/void-chat/src/lib.rs:337-359 | the verdict and the new memory are those of the decision on the old memory: expired outside the window, replayed when the key is remembered after pruning, otherwise accepted and recorded |
| Replay.RepresentsStep | apps/void-chat/src/lib.rs:345-357 | if the memory is the accepted history above the window's edge, one decision agrees with searching the whole history and the memory stays that |
| Replay.ForgottenBetween | apps/void-chat/src/lib.rs:345-357 | for any clock, between two acceptances of one key and timestamp lies a reading whose window has left the timestamp behind |
| Replay.PrunedDecidesAsUnbounded | apps/void-chat/src/lib.rs:337-359 | for every request sequence with a non-decreasing clock the pruning protector answers exactly as a log that never forgets |
| Replay.NeverAcceptedTwice | apps/void-chat/src/lib.rs:337-359 | no key and timestamp are accepted twice in a run, however much was forgotten in between |
| Replay.RememberedStayInWindow | apps/void-chat/src/lib.rs:345 | every remembered timestamp lies inside the window around the last clock reading |
| Replay.ClockSteppingBackReadmits | apps/void-chat/src/lib.rs:342-357 | for any clock readings and window, some requests at these readings get one key and timestamp accepted twice if and only if a reading forgets the oldest timestamp that an earlier and a later reading both admit |
| Replay.ScopedKeysInjective | core/transport/src/node.rs:2279-2283 | replay keys of different kinds, peers or nonces differ, as long as kinds and peer ids hold no colon |
| Session.KeyTextInjective | core/transport/src/node.rs:2279-2283 | the printed replay keys of two messages agree only for equal kind, sender and nonce |
| Session.PrintedDecides | core/transport/src/node.rs:2279-2287 | a memory keyed by printed text decides and remembers exactly as one keyed by kind, sender and nonce |
| Rooms.ChatRooms.RefreshRoomSnapshot | apps/void-chat/src/lib.rs:1152-1174 | one room gets its labels, its online count, its members sorted by peer and its history sorted and cut to the newest 48; no other room changes |
| Rooms.ChatRooms.EnsureRoomSnapshot | apps/void-chat/src/lib.rs:1121-1150 | the named room is found or appended, refreshed, and its index returned |
| Rooms.ChatRooms.UpsertRoomMember | apps/void-chat/src/lib.rs:782-804 | the whole rooms state after a presence update: the peer's record replaced or added, the room refreshed, the revision counted |
| Rooms.ChatRooms.SetLocalRoomJoined | apps/void-chat/src/lib.rs:806-823 | the whole rooms state after joining or leaving, including which room becomes current |
| Rooms.ChatRooms.SetCurrentRoom | apps/void-chat/src/lib.rs:825-828 | only the current room and the revision change |
| Rooms.ChatRooms.RecordRoomEvent | apps/void-chat/src/lib.rs:830-858 | the whole rooms state after recording an event: appended, sorted stably by time, cut to the newest 48 |
| Rooms.ChatRooms.MergeRoomSnapshot | apps/void-chat/src/lib.rs:860-899 | the whole rooms state after merging a remote snapshot |
| Rooms.ChatRooms.MergeRemoteMembers | apps/void-chat/src/lib.rs:862-874 | the member loop computes the last-seen-wins merge, ties going to the remote record |
| Rooms.ChatRooms.MergeRemoteEvents | apps/void-chat/src/lib.rs:875-883 | the event loop adds exactly the remote events whose id is not yet present, in order |
| Rooms.RefreshIsIdentity | apps/void-chat/src/lib.rs:1152-1174 | on a valid room refreshing only fills in empty labels |
| Rooms.CountOnlineIsCardinality | apps/void-chat/src/lib.rs:1159-1163 | with one record per peer the active count is the number of distinct peers ONLINE |
| Rooms.ChangeKeepsValid | apps/void-chat/src/lib.rs:782-899 | every edit of a valid room, including merging an arbitrary remote snapshot, leaves it valid |
| Rooms.ApplyKeepsValid | apps/void-chat/src/lib.rs:782-899 | every operation keeps room names unique, members sorted and unique by peer, history sorted, with unique ids and at most 48 long, and the active count right |
| Rooms.RunKeepsValid | apps/void-chat/src/lib.rs:782-899 | so does every run of operations and merges with fresh event ids |
| Rooms.MergeLosesNoMember | apps/void-chat/src/lib.rs:862-874 | a merge removes no member and lowers no last-seen time |
| RoomEffects.EditsOneRoom | apps/void-chat/src/lib.rs:1121-1150 | an operation edits the room it names, which it creates at the end when it is missing, and no other |
| RoomEffects.FirstEditCreates | apps/void-chat/src/lib.rs:1125-1137 | a room comes into being under its name and labels, unjoined except by joining, with the member or event recorded and nothing else |
| RoomEffects.FirstMergeCreates | apps/void-chat/src/lib.rs:860-899 | a merge into a missing room takes its name for the labels and the later of both times |
| RoomEffects.LabelsStick | apps/void-chat/src/lib.rs:1153-1158 | an empty label becomes the room name and a set one never changes |
| RoomEffects.EditsAreDated | apps/void-chat/src/lib.rs:782-899 | local edits are dated now, a merge with the later of both times |
| RoomEffects.RevisionCounts | apps/void-chat/src/lib.rs:782-899 | after every run the revision has counted the operations, up to the largest 64-bit number |
| RoomEffects.CurrentRoomFollows | apps/void-chat/src/lib.rs:806-828 | joining makes a room current, leaving the current one passes to the first room still joined or to none, and only a switch moves it otherwise |
| RoomEffects.CurrentRoomIsJoined | apps/void-chat/src/lib.rs:806-828 | in every run that switches only to joined rooms the current room is a joined one |
| RoomEffects.RecordEndsHistory | apps/void-chat/src/lib.rs:839-854 | a recorded event ends the history word for word; at 48 events the oldest makes room and no other is touched |
| Sorting.SortKeepsTies | apps/void-chat/src/lib.rs:1167-1169 | sorting by timestamp is stable: events of equal time keep their order |
| Prelude.PrecedesIff | apps/void-chat/src/lib.rs:1164-1166 | the order of members is that of strings: a proper prefix first, else the smaller character at the first difference |
| RoomMerge.LostIsOlder | apps/void-chat/src/lib.rs:1170-1173 | an event lost to an earlier cut is older than the newest 48 of any list that kept the rest |
| RoomMerge.TruncationIsHarmless | apps/void-chat/src/lib.rs:1170-1173 | the newest 48 of what was kept and what arrives are the newest 48 of everything ever seen |
| RoomMerge.MergeAllSummarises | apps/void-chat/src/lib.rs:860-899 | any sequence of merges leaves each peer's last-seen record and exactly the newest 48 of the union of all events |
| RoomMerge.MergeConverges | apps/void-chat/src/lib.rs:860-899 | the same set of snapshots in any order and with any repetition gives the same members, history, active count and last-changed time |
| RoomMerge.MergeIdempotent | apps/void-chat/src/lib.rs:860-899 | merging a snapshot twice gives the same room as merging it once |
| RoomMerge.ArriveRoomwise | apps/void-chat/src/lib.rs:860-899 | arriving snapshots act on each room separately: every room has merged, in order, exactly those that name it |
| RoomMerge.StateMergeConverges | apps/void-chat/src/lib.rs:860-899 | two nodes with the same rooms that receive the same snapshots, in any order and however often, hold the same content in every room |
| RoomMerge.OrderIndependentIffCoherent | apps/void-chat/src/lib.rs:862-883 | order and repetition never show for rooms and snapshots drawn from a pool if and only if the pool has one event per id, one per timestamp, and one member record per peer and last-seen time |
| Session.ChatRuntime.CheckAndRecord | core/transport/src/node.rs:2279-2287 | the replay protector, asked by the printed scope and nonce, gives the verdict and memory of the message itself |
| Session.ChatRuntime.BuildDirectMessages | core/transport/src/node.rs:2136-2170 | each text becomes one envelope sealed under the peer's active session, in order |
| Session.ChatRuntime.EstablishAndFlush | core/transport/src/node.rs:2339-2350 | installing a session empties the peer's queue into envelopes, in order, and touches nothing else |
| Session.ChatRuntime.DispatchOrQueueOutbound | core/transport/src/node.rs:2785-2836 | new state and published messages: an envelope with a session; otherwise the text queued, and an offer unless one is outstanding |
| Session.ChatRuntime.ProcessSessionOffer | core/transport/src/node.rs:2265-2353 | new state and published messages of an accepted or refused offer: ack first, then the flushed queue |
| Session.ChatRuntime.ProcessSessionAck | core/transport/src/node.rs:2355-2437 | new state and published messages of an ack: only one matching the pending session id installs the session |
| Session.ChatRuntime.ProcessDirectMessage | core/transport/src/node.rs:2439-2511 | new session state and inbox after an envelope: delivered only under a session with its id and key |
| Session.ChatRuntime.ProcessSendCommand | core/transport/src/node.rs:1952-1998 | a send command leaves a local copy and dispatches to every given recipient in turn |
| Network.SpentIsRefused | apps/void-chat/src/lib.rs:345-355 | a message whose key is remembered, or whose time has left the window, is refused at every later time |
| Network.DispatchKeepsPair | core/transport/src/node.rs:2785-2836 | sending keeps the invariant of the negotiation between any two nodes, each with its own clock |
| Network.ReceiveKeepsPair | core/transport/src/node.rs:2265-2437 | receiving any message, forged, duplicated, late or out of order, keeps that invariant |
| Network.DispatchTouchesOnlyPeer | core/transport/src/node.rs:2785-2836 | a dispatch concerns one peer: it publishes to nobody else and changes nothing held for another |
| Network.ReceiveTouchesOnlyPeer | core/transport/src/node.rs:2173-2263 | so does the reception of a message |
| Agreement.DispatchConserves | core/transport/src/node.rs:2793-2811 | a dispatch extends published-then-queued by exactly the submitted text |
| Agreement.ReceiveConserves | core/transport/src/node.rs:2265-2576 | no received message changes published-then-queued |
| Agreement.DataDelivered | core/transport/src/node.rs:2439-2576 | receiving an envelope keeps every inbox entry from a node the opened content of a published envelope of its own |
| Agreement.InjectKeepsInv | core/transport/src/node.rs:2173-2263 | a message of any content that another peer publishes in its own name changes nothing between the nodes |
| Agreement.TakeKeepsInv | core/transport/src/node.rs:2173-2263 | every step of the network keeps the invariant of the whole system |
| Agreement.RunKeepsInv | core/transport/src/node.rs:2173-2263 | so does every run |
| SessionTheorems.OutboundConserved | core/transport/src/node.rs:2339-2350 | in every run, crossing offers included, what was published for a peer followed by what is queued is exactly what was submitted, in order and once; nothing is queued while a session is active |
| SessionTheorems.QueueAwaitsItsOnlyOffer | core/transport/src/node.rs:2793-2811 | a queue always has its negotiation outstanding, and a node offers at most once to a peer |
| SessionTheorems.KeyAgreement | core/transport/src/node.rs:2265-2437 | when only one side ever opens, its active session is also active at the other side with the same id and key |
| SessionTheorems.SameSidSameKey | apps/void-chat/src/lib.rs:646-655 | in every run, equal session ids at two nodes mean equal keys |
| SessionTheorems.AgreedSessionIsFinal | core/transport/src/node.rs:2265-2437 | the agreed session never changes again, at either side |
| SessionTheorems.NothingInvented | core/transport/src/node.rs:2439-2576 | every inbox entry from a peer is one that peer submitted, with the same room and body |
| SessionTheorems.NothingDeliveredTwice | core/transport/src/node.rs:2439-2576 | different inbox entries come from different submissions |
| Timely.PublishedBearsReading | apps/void-chat/src/lib.rs:491 | every message a node publishes, in any step, bears the reading of its clock, and an envelope is marked as a room text exactly when it holds one |
| Timely.HistoryListsSends | core/transport/src/node.rs:2910-2928 | in every run a node's inbox gains one own entry per send command, in order, already read, with the text and the time |
| Timely.SentEnvelopeArrives | core/transport/src/node.rs:2136-2170 | between two nodes with a session of which one never opens, what one sends is in the other's inbox at its first delivery, whatever happened meanwhile, if the clocks are within the replay window |
| Handshake.FirstMessageArrives | core/transport/src/node.rs:2265-2511 | from any reachable state in which two nodes are strangers and the other never opened, a first text is delivered once offer, ack and envelope have arrived in time, and both hold one session |
| Handshake.AckMatches | core/transport/src/node.rs:2382-2388 | between two nodes no awaited ack names another session |
| Handshake.StrayAckEndsAttempt | core/transport/src/node.rs:2382-2388 | an ack for another session installs nothing, keeps the queue, and lets the next text open a new negotiation |
| Crossing.EnvelopeFitsSession | core/transport/src/node.rs:2136-2170 | when only one side opens, the other holds the session every envelope to it is sealed under |
| Crossing.InitiatorEnvelopeAccepted | core/transport/src/node.rs:2439-2576 | then every envelope is delivered unaltered whenever it first arrives inside the replay window |
| Delivery.EnvelopeTakenIff | core/transport/src/node.rs:2439-2511 | when one of two nodes never opens, an envelope from either side is taken unaltered if and only if it passes the replay check and the receiver holds a session with the sender |
| Delivery.EntersIff | core/transport/src/node.rs:2452-2511 | at any node and for any envelope: it enters the inbox if and only if it is signed, meant for the node, passes the replay check, and the session with its sender has its id and its key |
| Delivery.DisagreementIsDeaf | core/transport/src/node.rs:2465-2494 | two nodes left with different sessions refuse what the other sends |
| Delivery.EarlyEnvelopeIsLost | core/transport/src/node.rs:2452-2476 | in every run, an envelope that passes the replay check before its receiver holds the session is delivered in no continuation |
| Delivery.OvertakingEnvelopeIsLost | core/transport/src/node.rs:2452-2476 | a possible run in which only one side opens, the responder's envelope overtakes its ack, the session is established, the envelope comes again, and no continuation delivers it |
| Crossing.CrossingDisagrees | core/transport/src/node.rs:2265-2437 | when both sides may open, some possible run leaves them with different sessions |
| Crossing.AgreementIffOneSideOpens | core/transport/src/node.rs:2265-2437 | two nodes agree in every run that keeps to an opening policy if and only if the policy lets at most one of them open |
| Membership.RoomRuntime.constructor | core/transport/src/node.rs:1834-1864 | at start the joined set is the rooms flagged joined and their topics are subscribed; for distinct room names all three agree |
| Membership.RoomRuntime.ProcessChatCommand | core/transport/src/node.rs:1945-2134 | joined set, rooms, last sync and deferred actions after one command, the sync of a room switch included |
| Membership.RoomRuntime.BuildRoomSyncActions | core/transport/src/node.rs:2838-2861 | at most once per interval the local member is refreshed in every joined room, in ascending order, and each room is to be published |
| Membership.RoomRuntime.ApplyChatActions | core/transport/src/node.rs:2735-2783 | joined set and subscriptions after the deferred actions, in order |
| Membership.RoomRuntime.HandleChatCommandTick | core/transport/src/node.rs:1912-1937 | all drained commands first, then the room sync, then all deferred actions |
| Membership.TopicInverse | apps/void-chat/src/lib.rs:77-89 | a room's topic names that room and no other |
| Membership.ApplyFlags | apps/void-chat/src/lib.rs:806-899 | only the local join operation moves a joined flag; no remote snapshot does |
| Membership.SyncSettles | core/transport/src/node.rs:2838-2861 | the room sync moves no joined flag and keeps joined set and flags equal |
| Membership.CommandsDecide | core/transport/src/node.rs:1999-2092 | while commands run, joined set and flags move together and follow the last decision |
| Membership.ActionsFollowDecisions | core/transport/src/node.rs:1999-2092 | the deferred subscriptions of a batch end, per room, with its last Join or Leave |
| Membership.PerformAllDecides | core/transport/src/node.rs:2742-2762 | after the deferred actions a room is joined and subscribed as the last action on its topic says |
| Membership.TickAgrees | core/transport/src/node.rs:1912-1937 | after any batch, the room sync and the deferred actions, joined set, joined flags and subscribed rooms are one set, decided per room by the last Join or Leave |
| Membership.StartUpAgrees | core/transport/src/node.rs:1834-1864 | they are one set at start |
| Membership.RunAgrees | core/transport/src/node.rs:1903-1937 | and after every run of ticks and inbound room edits |
| Attendance.UpsertRecords | apps/void-chat/src/lib.rs:782-804 | a presence update leaves one record of the peer, ONLINE or OFFLINE as asked and dated now, and touches no other; the peer is online if and only if it joined |
| Attendance.EditedPresence | core/transport/src/node.rs:1999-2092 | after joining a room anew the local peer is online in it, after leaving it is not, and no other command moves its presence |
| Attendance.TickSetsPresence | core/transport/src/node.rs:1912-1937 | after every tick the local peer is online in a room exactly as its last Join or Leave says, and wherever it has joined |
| Attendance.RecipientsAreOthersOnline | core/transport/src/node.rs:2892-2908 | a room message goes, once each, to exactly the other peers online in the room |
| Announcements.HeartbeatIff | core/transport/src/node.rs:2838-2861 | the heartbeat goes out if and only if a room is joined and two seconds have passed, once to each joined room in ascending order |
| Announcements.OtherHeartbeats | core/transport/src/node.rs:2093-2121 | switching rooms beats only when it clears messages, under the same conditions; after start-up the first tick beats if a room is joined |
| Announcements.HeartbeatsSpaced | core/transport/src/node.rs:2843-2849 | in every run two heartbeats of ticks are two seconds apart, whatever the clock does |
| Announcements.CommandIsRecorded | core/transport/src/node.rs:1967-2064 | a message, a join and a leave each end their room's history with an event of their kind, in the local peer's name; which commands make a room current |
| Announcements.TickIsHeard | core/transport/src/node.rs:1919-1937 | in a tick that leaves only joined rooms every announcement is published while its topic is subscribed |
| Dns.PersistentVoidDns.Apply | core/dns/src/lib.rs:334-395 | outcome and new cache of an incoming record: rejected, duplicate, refused with evidence, published or updated |
| Dns.PersistentVoidDns.Purge | core/dns/src/lib.rs:397-414 | exactly the expired records are removed and returned |
| Dns.PersistentVoidDns.Resolve | core/dns/src/lib.rs:461-470 | a name resolves if and only if it has a record that has not expired |
| Dns.RunKeepsValid | core/dns/src/lib.rs:345-395 | in every run records stay under their own domain and no rival appears twice in the evidence |
| Dns.StepUpholds | core/dns/src/lib.rs:347-377 | while a record is live no step changes the owner or lowers the creation time |
| Dns.LiveNamesKeepTheirOwner | core/dns/src/lib.rs:345-395 | nor does any run during which the current record is live at each step |
| Dns.OwnerChangesOnlyAfterExpiry | core/dns/src/lib.rs:345-414 | between two states with different owners lies a step at which the earlier owner still holds a record and that record has expired |
| Dns.LongUpdatesKeepName | core/dns/src/lib.rs:347-393 | whatever the clock reads before a record expires, updates that live as long keep its owner, never with an older record |
| Dns.ShorterUpdateReleasesName | core/dns/src/lib.rs:375-393 | a cached record keeps its name until it expires, in every run and whatever rivals send, if and only if none of the owner's later updates expires before it |
| Dns.EvidenceOnlyGrows | core/dns/src/lib.rs:354-366 | no step of any run removes or reorders conflict evidence |
| Dns.RefusedClaimLeavesOneEntry | core/dns/src/lib.rs:354-366 | a refused rival claim has exactly one entry for its fingerprint, for the rest of the run |
| Dns.DistinctConverges | core/dns/src/lib.rs:345-395 | with distinct creation times any order and repetition of one owner's live records ends with the greatest |
| Dns.ConvergentIffDistinctCreation | core/dns/src/lib.rs:375-377 | they converge in every order if and only if the creation times are distinct |
| Evidence.AnswersExactly | core/dns/src/lib.rs:334-395 | each answer is given exactly in its case: signature before expiry, and only live records stand in the way |
| Evidence.RefusalNamesHolder | core/dns/src/lib.rs:354-373 | a refusal names the owner of the record that was cached before the step, and the claimant |
| Evidence.EvidenceIsTrue | core/dns/src/lib.rs:354-366 | in every run each entry of evidence stems from a refusal and names the owner then holding, the claimant, both records and the time |
| Evidence.EvidenceIffRefused | core/dns/src/lib.rs:354-366 | a cache that started without evidence holds an entry against a claim if and only if that claim was refused |
| Evidence.RecordsArrived | core/dns/src/lib.rs:380-393 | every cached entry was there at the start or arrived, signed by its owner and unexpired, from the source and at the time it says |
| Evidence.ChangesAreDated | core/dns/src/lib.rs:345-414 | a step changes nothing or dates its change |
| Uri.NewIsWellBuilt | core/protocol/src/lib.rs:34-66 | a constructed URI has a non-empty legal authority and a path that starts with a slash |
| Uri.PrintThenParse | core/protocol/src/lib.rs:85-113 | every constructed URI prints to a string that parses, with whatever follows a `?` in its path moved to the query |
| Uri.RoundTripIff | core/protocol/src/lib.rs:85-113 | a constructed URI survives printing and parsing if and only if its path has no `?` |
| Uri.ParsedIsCanonical | core/protocol/src/lib.rs:97-113 | for every string that parses, printing and parsing again changes nothing, and the path starts with a slash and has no `?` |
| UriSyntax.NewIs | core/protocol/src/lib.rs:34-66 | the constructor keeps what it is given, puts a slash before a path without one, and tells an empty from an illegal authority |
| UriSyntax.ParsesIff | core/protocol/src/lib.rs:97-113 | a text parses to a URI if and only if it spells that URI, with a lone `/` as path left out or not |
| UriSyntax.FailsIff | core/protocol/src/lib.rs:97-113 | each error is given if and only if its case holds: no scheme, no authority, or this illegal authority |
| Lexer.ReadStringLoop | core/protocol/src/ui.rs:75-106 | the string loop computes the literal's value and end, or the error with the byte offset of its quote |
| Lexer.Tokenize | core/protocol/src/ui.rs:44-73 | the tokenizer loop computes the token list of the whole text, or the first error with its byte offset |
| LexicalGrammar.PartsRead | core/protocol/src/ui.rs:75-106 | a quoted string of plain characters and escapes reads to the characters they stand for |
| LexicalGrammar.SpelledReads | core/protocol/src/ui.rs:44-73 | a text spelled by blanks, marks, words that do not touch and quoted strings is tokenized to what they denote |
| LexicalGrammar.PiecesOf | core/protocol/src/ui.rs:44-73 | every text that is tokenized has such a spelling, with the same tokens |
| LexicalGrammar.TokenizerIsExact | core/protocol/src/ui.rs:44-114 | the tokenizer returns a token list for a text if and only if some spelling of the text denotes those tokens |
| Characters.SeparatesIff | core/protocol/src/ui.rs:53 | a character alone separates tokens if and only if it is one of the 25 with the property White_Space |
| Characters.LayoutIsSkipped | core/protocol/src/ui.rs:53 | a space, tab, line feed or carriage return is skipped wherever a token may start |
| Characters.LayoutIsFree | core/protocol/src/ui.rs:44-73 | texts with the same words, marks and strings have the same tokens, whatever layout stands between them |
| Characters.OneWordIff | core/protocol/src/ui.rs:108-114 | a text is one identifier token if and only if it is a letter or `_`, then letters, digits, `_`, `-`, and in surfaces `.` |
| Characters.WordIsOneToken | core/runtime/src/ui/mod.rs:314-325 | such a run, not continued, is one token wherever a token may start |
| Characters.EscapesAre | core/protocol/src/ui.rs:86-98 | a backslash makes exactly four escapes; anything else after it is an error at the opening quote |
| Characters.OffsetIsEncodedLength | core/protocol/src/ui.rs:46-49 | an offset is the length of the UTF-8 encoding of the text before it |
| Characters.ErrorsPoint | core/protocol/src/ui.rs:66-106 | every error points, by its offset, at the character or opening quote that is wrong |
| LexicalGrammar.EscapeMeans | core/protocol/src/ui.rs:92-98 | escaping any string, quotes, backslashes, newlines and tabs included, is undone by reading |
| LexicalGrammar.PrintReadsBack | core/runtime/src/ui/mod.rs:303-333 | tokenizing the printed text of any printable token list gives the list back, in both dialects |
| Lexer.LexedPrintable | core/runtime/src/ui/mod.rs:303-371 | every token list the tokenizer produces is printable: identifier tokens are identifiers |
| VoidUi.ParseNodesUntilRBrace | core/protocol/src/ui.rs:151-159 | the node loop returns the nodes up to the closing brace and advances past it |
| VoidUi.ParseNodeAfterIdent | core/protocol/src/ui.rs:161-188 | result and final position of the node after its keyword |
| VoidUi.ParseButtonBody | core/protocol/src/ui.rs:190-209 | result and final position of a button: last label and action win, both are required, the action must be a URI |
| VoidUi.ParseInputBody | core/protocol/src/ui.rs:211-232 | result and final position of an input: last property wins, the id is required |
| VoidUi.ParseWholePage | core/protocol/src/ui.rs:129-149 | the page of a whole token list, with nothing left over |
| VoidUi.ParseSource | core/protocol/src/ui.rs:31-34 | tokenizing and parsing a text, or the first error |
| VoidUiGrammar.GrammarIsAccepted | core/protocol/src/ui.rs:129-232 | every derivation with a meaning is accepted with that meaning |
| VoidUiGrammar.AcceptedIsDerived | core/protocol/src/ui.rs:129-232 | every accepted token list has a derivation that means the parsed page |
| VoidUiGrammar.ParserIsExact | core/protocol/src/ui.rs:129-232 | the parser returns a page for a token list if and only if some derivation yields those tokens and means that page |
| VoidUiErrors.FirstBadNodeIsBlamed | core/protocol/src/ui.rs:190-232 | a derivation is rejected if and only if some node lacks a property or has a bad action, with the error of the first one in reading order |
| VoidUiPrefixes.EarlyEndIffCompletable | core/protocol/src/ui.rs:129-260 | an early end is reported if and only if the tokens are no page but can be completed to one |
| VoidUiPrefixes.ErrorAtFirstDeadToken | core/protocol/src/ui.rs:129-301 | any other error names the first token no page can continue with, and stands whatever follows |
| VoidUiPrint.SourceIsExact | core/protocol/src/ui.rs:31-34 | a text parses to a page if and only if some spelling of the text denotes the tokens of a derivation that means the page |
| VoidUiPrint.PrintedPageParses | core/protocol/src/ui.rs:31-34 | the printed text of any page parses, to the page with its actions as they read |
| VoidUiPrint.PageRoundTripIff | core/protocol/src/ui.rs:31-34 | a page survives printing and parsing if and only if no button action has a `?` in its path |
| VoidUiPrint.ParsedPageRoundTrips | core/protocol/src/ui.rs:31-34 | every page the parser produces survives printing and parsing |
| Surface.TakeAttributes | core/runtime/src/ui/mod.rs:484-497 | the attribute loop reads exactly the attributes the two-token lookahead sees, later keys replacing earlier ones |
| Surface.TakeText | core/runtime/src/ui/mod.rs:433-447 | result and final position of a text: attributes over the positional value, one of value and bind required |
| Surface.TakeButton | core/runtime/src/ui/mod.rs:458-482 | result and final position of a button: last label and action win, both are required |
| Surface.TakeContainer | core/runtime/src/ui/mod.rs:418-431 | result and final position of a column or row |
| Surface.TakeNodeAfterIdent | core/runtime/src/ui/mod.rs:406-416 | result and final position of the node after its keyword |
| Surface.TakeDocument | core/runtime/src/ui/mod.rs:386-404 | the document of a whole token list, with nothing left over |
| Surface.ParseSurfaceDocument | core/runtime/src/ui/mod.rs:72-75 | tokenizing and parsing a text, or the first error |
| SurfaceGrammar.KeywordIsNoAttribute | core/runtime/src/ui/mod.rs:560-568 | the keyword of a following node is never taken for an attribute of the last one |
| SurfaceGrammar.GrammarIsAccepted | core/runtime/src/ui/mod.rs:386-497 | every derivation with a meaning is accepted with that meaning |
| SurfaceGrammar.AcceptedIsDerived | core/runtime/src/ui/mod.rs:386-497 | every accepted token list has a derivation that means the parsed document |
| SurfaceGrammar.ParserIsExact | core/runtime/src/ui/mod.rs:386-497 | the parser returns a document for a token list if and only if some derivation yields those tokens and means that document |
| SurfaceErrors.FirstBadNodeIsBlamed | core/runtime/src/ui/mod.rs:433-482 | a derivation is rejected if and only if some node lacks a property, with the error of the first one in reading order |
| SurfacePrint.SourceIsExact | core/runtime/src/ui/mod.rs:72-75 | a text parses to a document if and only if some spelling of the text denotes the tokens of a derivation that means the document |
| SurfacePrint.PrintedDerivationParses | core/runtime/src/ui/mod.rs:72-75 | the text of any readable derivation parses to its meaning, however values are quoted and properties ordered or repeated |
| SurfacePrint.RoundTrip | core/runtime/src/ui/mod.rs:72-75 | every buildable document survives printing and parsing, values written bare where they can be |
| SurfacePrint.ParsedIsBuildable | core/runtime/src/ui/mod.rs:386-497 | every document the parser returns is buildable |
| SurfacePrint.BuildableIffParsed | core/runtime/src/ui/mod.rs:386-497 | a document is buildable if and only if some text parses to it |
| Render.BuildRuntimeNode | core/runtime/src/ui/mod.rs:143-160 | the runtime tree has the source's shape, its identifiers count up in preorder, and the counter advances by the number of nodes |
| Render.BuildRuntimeTree | core/runtime/src/ui/mod.rs:77-92 | nodes are numbered 1 to n in preorder under a page root, and the node count is n |
| Render.RenderNode | core/runtime/src/ui/mod.rs:162-282 | the actions, or the first missing property, of visiting the nodes in preorder, rows included |
| Render.RenderTerminalSurface | core/runtime/src/ui/mod.rs:94-123 | the same from the root with no actions yet |
| Render.NumberingUnique | core/runtime/src/ui/mod.rs:143-160 | shape and preorder identifiers leave only one tree |
| Render.IdsDistinct | core/runtime/src/ui/mod.rs:147-148 | no two nodes of a numbered tree share an identifier |
| Render.RenderingIsFaithful | core/runtime/src/ui/mod.rs:94-282 | for every parsed document rendering fails exactly when some input lacks its id, and otherwise offers all buttons in preorder with their properties and node identifiers |
| Render.FailsAtFirstLack | core/runtime/src/ui/mod.rs:162-282 | rendering any tree fails if and only if a visited node lacks a property, with the first one lacking on the way |
| Render.ActionIndices | core/runtime/src/ui/mod.rs:181-186 | the actions are numbered 1, 2, ... without gaps |
| Render.CountsBoundNodes | core/runtime/src/ui/mod.rs:125-141 | the bound-node count is the number of positions in the document whose node has a `bind` among the keys |
| Decimal.ParseOfDigits | apps/void-cli/src/console.rs:1969 | parsing the printed form of a machine word gives it back |
| Capabilities.PermissionTable.UpsertPermission | core/runtime/src/lib.rs:2565-2575 | the record with the same key is replaced, or the record appended |
| Capabilities.PermissionTable.GrantPermission | core/runtime/src/lib.rs:1163-1192 | the record of the key is re-decided in place, or a new one appended; both persisted |
| Capabilities.PermissionTable.NegotiateCapabilities | core/runtime/src/lib.rs:1975-2037 | new records, reported grants and rejected list; the verdicts are those of the records before the call, even for repeated requests |
| Capabilities.PermissionTable.OpenSurface | core/runtime/src/lib.rs:1227-1247 | opening goes on only when nothing was rejected, and reports the missing capabilities otherwise |
| Capabilities.LookupOfUpsert | core/runtime/src/lib.rs:2565-2575 | an upsert answers for its own key and for no other |
| Capabilities.NegotiationRecords | core/runtime/src/lib.rs:1993-2032 | a negotiation keeps every recorded decision and settles the requested capabilities that had none by default |
| Capabilities.RunKeepsUnique | core/runtime/src/lib.rs:2565-2575 | in every run there is one record per surface, owner and capability |
| Capabilities.RunDecides | core/runtime/src/lib.rs:1163-1192 | every run acts on each key as on an independent decision that grants set, first requests settle, and nothing else touches |
| Capabilities.RecordedDecisionSticks | core/runtime/src/lib.rs:1993-2007 | a recorded decision changes only through a grant for its own key |
| Capabilities.RenegotiationAgrees | core/runtime/src/lib.rs:1975-2037 | asking again gives the same verdicts and rejected list, whatever happened to other keys and to the gateways' trust |
| Capabilities.OpensIffAllAllowed | core/runtime/src/lib.rs:1235-1247 | a surface opens if and only if the table it leaves allows every requested capability |
| CapabilityDefaults.RejectedByDefaultIff | core/runtime/src/lib.rs:1993-2007 | a requested capability nobody decided is rejected unless a fully trusted gateway asks for a gateway capability, or safe ones are granted unasked and it is listed |
| CapabilityDefaults.GatewayDefault | core/runtime/src/lib.rs:2291-2310 | without a fully trusted policy for its domain a gateway gets nothing unasked; with all its policies trusting it gets gateway capabilities |
| CapabilityDefaults.SafeIsListed | core/runtime/src/lib.rs:3009-3021 | the safe capabilities are the nine listed ones and all services |
| CapabilityDefaults.GrantThenNegotiation | core/runtime/src/lib.rs:1163-1192 | a grant is persisted and dated and keeps the first request; a later negotiation keeps the decision and persists it only if positive and safe |
| CapabilityDefaults.NegotiatedRecord | core/runtime/src/lib.rs:2009-2017 | afterwards a requested record carries the verdict and the time, and is persisted exactly when it is allowed and safe, whatever a grant had said |
| Logs.CollapseRepeatedEvents | apps/void-cli/src/console.rs:1944-1965 | the loop computes the fold of its events, editing the last entry in place |
| Logs.LabelReadsBack | apps/void-cli/src/console.rs:1967-1971 | a repeat label reads back to its base and count, even after a base that carries one itself |
| Logs.SuffixIff | apps/void-cli/src/console.rs:1967-1971 | a message has base and count if and only if it is the base, ` (x`, a written machine word and `)` |
| Logs.CollapseCodes | apps/void-cli/src/console.rs:1944-1965 | without suffixes in the input, entries stand for maximal runs: same subsystem and message, last time, first tone, label exactly for repeats, and neighbours that differ |
| Logs.CodeExpands | apps/void-cli/src/console.rs:1944-1965 | such a code expands to the subsystems and messages it codes, in order |
| Logs.RoundTripIffSuffixFree | apps/void-cli/src/console.rs:1944-1977 | expanding the collapsed list gives back what was said if and only if no message carries a recognised suffix |
| Stream.ChunksConserve | core/runtime/src/lib.rs:3148-3166 | chunk sizes add up to the body, sequences count from 0, every chunk but the last is full, and an empty body is one empty final chunk |
| Stream.LastIsMarkedIff | core/runtime/src/lib.rs:3158-3163 | exactly the last chunk is marked final if and only if the chunk size is positive or the body empty |

## Left out

- The libp2p swarm, gossipsub, relays, NAT traversal and the event loop: only the chat handlers are steps, and delivery is any message of the log at any time.
- Real cryptography, base64, JSON and bincode; encoding errors cannot happen in the model.
- Files: persistence, command queues on disk, and restart (sessions are not durable). The stored rooms are an argument of the runtime's constructor.
- Emitted events, topology observations, notifications, unread counts and read marks, and the session's activity times and message counters.
- Session.ChatRuntime.ProcessDirectMessage: the presence and history edits that a room message makes at its receiver are rooms edits of the membership model, not part of the session state, because no session decision reads them.
- Session.ChatRuntime.ProcessSendCommand: the recipients of a room message are an argument (`Attendance.RoomRecipients` says who they are), and the edits of the sender's room are in the membership model.
- Inbound membership events are arbitrary edits of the rooms state.
- Deferred publications of the direct messages of one tick appear in the log at once; the runtime is single-threaded, so nothing runs in between.
- RoomMerge.MergeConverges: the two labels of the room named by the empty string are compared only for other names, because an empty name makes the first snapshot's labels stick.
- Key agreement under simultaneous offers and merge convergence with tied timestamps do not hold of the code; the exact conditions are proved instead.
- Render.RenderNode: the text lines of a rendered surface, their indentation, the chosen line of a nested container and spacers' heights are left out; the actions and failures do not depend on them.
- Render.RenderTerminalSurface: likewise gives the actions and failures, not the output text.
- Capabilities.PermissionTable.OpenSurface: does not record the failed mount of a rejected surface, which no permission decision reads.
- Render.BuildRuntimeNode: the node counter is unbounded; a document with as many nodes as a machine word counts does not fit in memory.
- Logs.RoundTripIffSuffixFree: covers lists no longer than a machine word, which every vector is; a literal suffix that holds the largest machine word wraps to zero, as in release builds.
- The registry of surfaces, gateway fetches, mounts, sessions of surfaces and their bindings: the runtime shell around the permission table depends on files, clocks and the network.
- `has_surface_capability`, topic and lifecycle records, command-line and terminal drawing, the browser shell and the Go and Rust SDK stubs: they would add only easy members.
