# A verified model of zsync

zsync replicates a clipboard between computers: hubs exchange clips over TCP, or sealed through a relay
(`zsyncd`) that never sees their content. This project models that protocol in Dafny, the way the Rust
code behaves, and proves what it is supposed to guarantee over every input, every run and every topology.
`dafny verify dfyconfig.toml` checks all of it.

| file | module | models |
|---|---|---|
| `suppress.dfy` | `Tables` | the two history tables of a hub, proved against plain histories |
| `clip.dfy`, `basics.dfy` | `Clips`, `Basics` | clips, items, the check on received clips, size limits |
| `config.dfy` | `Config` | the state file, and sequence numbers across crashes |
| `hub.dfy` | `Hubs` | one hub: observe, push, apply, forward |
| `daemon.dfy` | `Daemon` | the clipboard watcher and the sessions of one daemon |
| `network.dfy` | `Network` | daemons joined by TCP sessions and relay groups, as a step relation |
| `forest.dfy`, `fanout.dfy` | `Forests`, `FanOuts` | graphs of TCP sessions; when forwarding ends |
| `order.dfy`, `converge.dfy` | `Orders`, `Convergence` | delivery order, exactly once, convergence |
| `settle.dfy`, `integrity.dfy` | `Settling`, `Integrities` | every schedule on a forest, what a user's copy leads to; integrity of networks |
| `content.dfy` | `Contents` | what the clipboards of a network hold, field by field |
| `example.dfy` | `Examples` | one exchange that meets every assumption of the order and convergence theorems |
| `rooms.dfy`, `relayruns.dfy` | `Rooms`, `RelayRuns` | the relay's rooms and the life of its sessions |
| `probe.dfy` | `Probes` | the relay's ban tracker |
| `disk.dfy`, `filestore.dfy`, `outcome.dfy` | `Disks`, `FileStore`, `Outcomes` | files and names; the file clipboard, its crash atomicity and what a set leaves |
| `frames.dfy`, `envelope.dfy` | `Frames`, `Envelopes` | framing, clip bodies, sealed envelopes |
| `text.dfy`, `groupuri.dfy`, `peer.dfy` | `Text`, `GroupUris`, `Peers` | addresses and URIs, printed and parsed |
| `keys.dfy` | `GroupKeys` | the files of group keys, and relay peers that get their keys from them |

## How the code is modelled

- Objects that change (`Suppress`, `SeenSeq`, `StateFile`, `Hub`, `Memory`, the watcher, the sessions,
  `Rooms`, `ProbeTracker`, `FileBackend`, byte streams) are classes. Their methods keep the source's loops
  and branches and are proved equal to functions on values; the theorems about runs are about those functions.
- A hub's tables are specified by everything ever put into them, so the theorems about hubs and
  networks do not depend on how the bounded tables evict.
- A hub operation is one step: it reads the clock once, and packing a clip, queueing it and handing it to
  the sessions happen together. The clock is a parameter and does not run backwards.
- In a network there is at most one session per pair of nodes, frames of one direction of a TCP session
  arrive in order, relay frames in any order, and any frame may be dropped: that is how a lagging broadcast
  receiver, a full relay queue, a clip whose meta is too large to encode and a lost session appear.
- The clipboard of one hub may fail in any call. In networks it works, as `Memory` does (`Hubs.WellIsTheSame`).
- Hash, MIME sniffer, JSON, AEAD and base64 are arbitrary functions. Assumed of them: a hash prints as
  64 hexadecimal digits; JSON decoding inverts encoding; decryption inverts encryption, accepts nothing else, and the
  tag has 16 bytes; base64 decoding inverts encoding and encoding uses the URL-safe alphabet (section 5 of
  RFC 4648); text accepted as an IPv6 literal has a colon and otherwise only hexadecimal digits, colons and dots.
- That an envelope opens only as it was sealed is proved for one ciphertext at a time, under the assumption that it
  decrypts under a single secret, nonce and associated data (`Envelopes.Authentic`). No cipher can give this for all
  ciphertexts at once, since there is more associated data than there are ciphertexts of a length.
- `seq += 1` on a `u64` wraps as in a release build; theorems about increasing numbers say where they need
  the counter below its maximum, and `Config.NextExceedsDurableIff` shows that this is exact.
- The name of a received clip is joined to the drop directory as it is: `Disks.Resolve` walks its separators,
  dots and absolute forms through the directories that exist, as on Unix, where no directory is a symbolic link.
- Crashes: a write may leave anything in its file, a rename is atomic, and a crash or an I/O error may come
  between any two file operations.

## What the proofs found

- Forwarding does not stop by de-duplication. `apply_from` emits whatever was acknowledged, and duplicates and
  own clips are acknowledged too (src/hub.rs:141-160,193). Frames die out under every schedule if and only if
  the TCP sessions form a forest (`FanOuts.EndsExactlyOnForests`); on any cycle one clip circulates for ever.
  docs/design/ARCH.md:315-324 says that a received clip is never broadcast; the model follows the code.
- The watcher's ring entry, not the TTL, is what prevents the echo: the newest ring entry covers the clipboard
  for as long as nobody else writes it (`Daemon.StepKeepsCovered`).
- Fourteen failures of one address inside 60 seconds always ban it, thirteen can be too few
  (`Probes.FourteenFailsBan`, `Probes.ThirteenAreTooFew`): an existing entry always counts at least one failure.
- A copy whose hash is among the last 64 added is never sent: after copying a, b and a again the other nodes keep
  b (`Settling.CopyingBackIsNotSent`). `Settling.CopySpreadsOrNot` gives the exact condition and both outcomes.
- The file clipboard is crash-atomic exactly for items whose name leads to no vital file
  (`FileStore.SetIsAtomicIff`). Names without separators never do. The name `../objects/` followed by the hash on
  record, which a received clip may carry, does (`FileStore.NameIntoObjects`), and `../current.json` leads to the
  record itself.
- The relay's `leave` goes by device id, so a replaced session that leaves late unseats its successor, whose
  stop channel stays silent (`RelayRuns.LateLeaveUnseatsSuccessor`).
- `parse_peer` is not idempotent on all it accepts: `tcp://endpoint:80` is stored as `endpoint:80`, which it
  then refuses, and a relay URI with the host `a:b:c` as one that names the host `a:b:c:43721`
  (`Peers.EndpointHostsAreLost`, `Peers.ColonHostsAreLost`). The exact conditions are in
  `Peers.CanonicalTcpIsFixed` and `Peers.CanonicalRelayIsFixed`.

## Model

| member | source | states |
|---|---|---|
| Tables.Suppress.constructor | src/suppress.rs:16-23 | an empty history, and room for at least 8 hashes |
| Tables.Suppress.Add | src/suppress.rs:25-41 | exactly the non-empty hash joins the history, and the bounded tables still answer for it |
| Tables.Suppress.Has | src/suppress.rs:43-53 | answers yes if and only if the hash was added within the TTL or is among the last `max` adds, whatever was evicted |
| Tables.Suppress.Evict | src/suppress.rs:31-39 | the ring is cut to the last `max` adds; of the hashes cut off exactly those with an expired entry are forgotten, even if they are still in the ring |
| Tables.Suppress.Gc | src/suppress.rs:55-61 | exactly the expired entries outside the ring are dropped, and the tables still answer for the history |
| Tables.SeenSeq.Accept | src/suppress.rs:71-79 | accepts if and only if the number exceeds every one ever presented for that origin |
| Clips.VerifiedIsSound | src/protocol.rs:294-308 | a clip passes if and only if its size is its length, within the limit, and its hash that of its data |
| Config.StateFile.constructor | src/config.rs:106-115 | the state read back, or the default one if the file is missing or unreadable |
| Config.StateFile.NextSeq | src/config.rs:121-127 | the new state in memory, on disk after every fault, and the number returned only if it was saved |
| Config.StateFile.UpsertPeer | src/config.rs:129-140 | the peer list after it, in memory and on disk, and the counter untouched |
| Config.StateFile.RemovePeer | src/config.rs:142-157 | the list without the peer or empty, on disk too, and exactly the removed uris returned |
| Config.StateFile.SaveTo | src/config.rs:159-164 | what each fault leaves in the file and in its temporary file |
| Config.Retain | src/config.rs:146-147 | the loop keeps exactly the other peers, and the count tells whether any was removed |
| Config.UpsertIs | src/config.rs:129-140 | with one entry per uri, an upsert sets that entry, keeps all others and keeps uris unique |
| Config.WithoutIs | src/config.rs:146 | a removal takes out exactly the entries with that uri and keeps uris unique |
| Config.UpsertKeepsOrder | src/config.rs:129-140 | entries keep their places and a new one comes last |
| Config.WithoutOfBoth | src/config.rs:146 | what a removal leaves stays in its order |
| Config.StepKeepsDurable | src/config.rs:121-127 | over one call, crash or failed save: what is on disk never exceeds memory, never goes back, and any number handed out is above all earlier durable ones and durable itself |
| Config.SequenceNumbersIncrease | src/config.rs:106-164 | over any run with crashes, failed saves, restarts and peer updates, the numbers handed out strictly increase |
| Config.HandedOutIsDurable | src/config.rs:121-127 | every number handed out is at most what a restart reads back |
| Config.RestartedOriginIsAccepted | src/suppress.rs:71-79 | after any such run and a restart, the next clip is accepted by every peer that saw only earlier ones |
| Config.NextExceedsDurableIff | src/config.rs:123 | a number is above all durable ones if and only if the counter is below the maximum of a u64 |
| Config.NumbersAreConsecutive | src/config.rs:121-127 | without failures the numbers handed out are consecutive, up to the maximum of a u64, after which comes 0 |
| Config.LoadReadsBack | src/config.rs:106-115 | what was saved is read back whole, counter and peers, whatever a torn save left beside it |
| Config.RestartReadsLastSaved | src/config.rs:106-164 | over any run, a restart reads back exactly the state, peers included, of the last call whose save took place |
| Config.SavedPeersLast | src/config.rs:129-157 | an upserted peer whose save took place stays listed with its flag, in memory and after a restart, and a removed one stays gone, through crashes, failed saves and restarts, until a call concerns it again |
| Hubs.Memory.Set | src/clipboard/mod.rs:283-290 | the item stored, with its hash filled in, or nothing and an error |
| Hubs.HubObject.constructor | src/hub.rs:38-54 | a hub with empty histories on the given clipboard and state |
| Hubs.HubObject.LocalObserved | src/hub.rs:83-106 | new state, state file, answer and broadcast for every branch: empty, too large, suppressed, unsaved, sent |
| Hubs.HubObject.LocalPush | src/hub.rs:109-124 | the same for a push, which also writes the clipboard and records the hash before and after; a clipboard that fails leaves one record and nothing else |
| Hubs.HubObject.ApplyRemote | src/hub.rs:126-186 | the same for a received clip: refused, own, duplicate, already present or written, and with a clipboard that cannot be read or written |
| Hubs.WellIsTheSame | src/hub.rs:109-186 | with a clipboard that works these are the operations the network theorems are about |
| Hubs.HubObject.ApplyFrom | src/hub.rs:190-197 | whatever was acknowledged is emitted, with the ingress peer to be skipped, and the state file is untouched |
| Hubs.HubObject.PackNext | src/hub.rs:203-227 | the clip carries the next number, the hub's id, the item's length and a MIME type, and the number is saved before it is used |
| Hubs.AcknowledgedIffSound | src/hub.rs:126-140 | a hub acknowledges exactly the sound clips; any other leaves it as it was and is refused for the stated reason |
| Hubs.WrittenIff | src/hub.rs:126-186 | a received clip is put on the clipboard if and only if it is sound, foreign, new, not known to be there and the write works; then the clipboard has its bytes, hash, MIME type and name, and otherwise stays as it was |
| Hubs.OtherAnswers | src/hub.rs:126-168 | exactly when a clip is answered as own, duplicate, already present or of a wrong hash |
| Hubs.FailedWriteIsFinal | src/hub.rs:149-180 | a write that failed has used up the clip's number, so that the clip delivered again is a duplicate |
| Hubs.AppliedIsRecorded | src/hub.rs:162-180 | the history grows by the clip's hash, twice around a write, once for a clip already there or a failed write, else not at all |
| Hubs.PushIsWhole | src/hub.rs:109-124 | exactly when a push succeeds, and that the clipboard then holds the item and the clip its bytes, name, next number, and its hash and MIME type or those computed |
| Hubs.ObservationIsWhole | src/hub.rs:83-106 | the same for an observed item, which never touches the clipboard |
| Hubs.MadeIsRecorded | src/hub.rs:99-117 | a push is in the history twice, once if it could not be written, an observed item once, saved or not |
| Hubs.UnsavedIsNotRetried | src/hub.rs:96-103 | an observation whose number could not be saved is suppressed from then on |
| Hubs.SuppressedWhileRecent | src/suppress.rs:31-53 | a hash added once is suppressed during the TTL and while fewer than 64 others follow it, and no longer |
| Hubs.AtMostOnce | src/hub.rs:141-186 | under duplication, reordering, loss and failing clipboards, the clips taken over from an origin have strictly increasing numbers, above all presented before, and never are the hub's own |
| Hubs.Integrity | src/hub.rs:83-227 | whatever is delivered, every clip sent has its size, limit and hash right, and so has every item written, clipboard failures included |
| Daemon.Watcher.Glance | src/daemon.rs:309-317 | the first look of a poll arms the debounce only for readable content that differs from the last |
| Daemon.Watcher.Look | src/daemon.rs:324-335 | the second look takes the content and observes it, or does nothing if it cannot be read, is empty or is the last |
| Daemon.TcpSession.OnBroadcast | src/daemon.rs:815-822 | a clip is written unless its skip is this very peer; one that cannot be encoded ends the session |
| Daemon.TcpSession.OnClip | src/daemon.rs:830-868 | a decoded clip is applied, acknowledged and forwarded; an undecodable one changes nothing and is refused as truncated; a failing clipboard ends the session |
| Daemon.RelaySession.OnBroadcast | src/daemon.rs:741-755 | only clips of local origin are sealed and written, under a counter that grows by one and wraps; one that cannot be encoded ends the session |
| Daemon.RelaySession.OnData | src/daemon.rs:763-775 | an envelope that opens and decodes is applied and forwarded as from the member that sealed it, and the check made in the session changes nothing; any other ends the session |
| Daemon.MembersUnderstand | src/daemon.rs:743-771 | what one member seals for a sound clip another opens as that clip, from that member |
| Daemon.EnvelopeNames | src/daemon.rs:743-755 | an envelope carries the version, its sealer, the session's counter and the nonce in the clear, at these bytes, and fits a frame |
| Daemon.ForgeriesAreRefused | src/daemon.rs:763-768 | an envelope with an authentic ciphertext and any other byte changed yields no clip at any member, nor does the unchanged one in another group or under another secret |
| Daemon.OnlyMetaCanFail | src/protocol.rs:220-236 | a sound clip can be encoded and sealed if and only if its meta is within the limit |
| Daemon.NewestIsSuppressed | src/suppress.rs:43-53 | the newest ring entry is suppressed at any time, long after its TTL |
| Daemon.StepKeepsCovered | src/hub.rs:83-186 | only a user's write uncovers the clipboard, and only an uncovered clipboard makes the watcher send a clip |
| Daemon.WritesAreSent | src/daemon.rs:309-335 | a user's write, polled, is sent as written if and only if it is not empty, new to the watcher, within the limit and not suppressed |
| Daemon.LooksNeedGlances | src/daemon.rs:309-325 | the first look arms exactly for new content; the second makes nothing unless armed, and disarms |
| Daemon.LooksTakeWhatIsThere | src/daemon.rs:324-335 | the second look takes the content there is by then and no other, and touches the hub only if it took any |
| Daemon.NoEcho | src/daemon.rs:294-339 | over any run and any deliveries, the watcher's clips never outnumber the user's writes, the initial content counting as one |
| Network.FanOutIs | src/daemon.rs:815-822 | which frames a broadcast becomes: to each peer but the ingress one, and to each group member only for clips of local origin |
| Network.FanOutOnce | src/daemon.rs:815-822 | each of them once: no session carries a broadcast twice, and a relay gets it once for every entry of a member |
| Network.NextFits | src/hub.rs:190-197 | every event keeps frames on sessions that exist and nodes under their ids |
| Network.NextUncovered | src/daemon.rs:294-339 | over one event anywhere, watcher clips are paid for by uncovered clipboards |
| Network.NoEchoAnywhere | src/daemon.rs:294-339 | on every topology, cycles included, all watchers together make no more clips than users made writes, plus initial contents |
| Forests.StraightIsDistinct | src/daemon.rs:815-822 | in a forest a walk that never turns back visits no node twice |
| Forests.BeyondIsBounded | src/daemon.rs:815-822 | what lies beyond a session of a forest is at most the number of nodes |
| Forests.AwayFromOneSide | src/daemon.rs:815-822 | in a forest a clip can reach a node from one neighbour only |
| FanOuts.ForwardingWeighsLess | src/hub.rs:190-197 | what a delivery re-emits weighs strictly less than the frame delivered, and over TCP exactly one less |
| FanOuts.MoveLightens | src/daemon.rs:815-866 | on a forest every delivery or drop lowers the load in flight, duplicates and own clips included |
| FanOuts.ForwardingEnds | src/daemon.rs:743-774 | on a forest with any relay groups on top, no schedule moves frames more often than their load, itself at most frames times nodes |
| FanOuts.TrafficIsBounded | src/daemon.rs:294-339 | over whole runs, the frames ever moved are bounded by those in flight and a share for every push and user write |
| FanOuts.CirculatesOn | src/hub.rs:193 | a sound clip delivered along an edge is sent on along every next edge, even to its origin |
| FanOuts.CyclesRunOn | src/hub.rs:193 | on any cycle there are runs of any length after a single frame |
| FanOuts.EndsExactlyOnForests | src/hub.rs:190-197 | frames die out under every schedule if and only if the TCP sessions form a forest |
| Orders.DeliveryKeepsOrder | src/hub.rs:126-197 | a delivery keeps the order of queues and histories, and loses nothing |
| Orders.PackingKeepsOrder | src/hub.rs:203-227 | so does a gesture, whose clip is newer than all of its origin |
| Orders.EventKeepsOrder | src/hub.rs:83-197 | every event keeps the order, dropped frames included, and every other event keeps completeness |
| Orders.DeliveredInOrder | src/hub.rs:126-186 | from a fresh start on a forest without relays, whatever is dropped, each node is handed each origin's clips in increasing order, and the next delivery of any frame is taken, never a duplicate or an own clip |
| Orders.ExactlyOnce | src/daemon.rs:815-826 | after a lossless run at rest every connected node was handed exactly the clips the origin made, each once and in order |
| Convergence.RunsKeepIssued | src/config.rs:121-127 | over any run no node has seen, and no frame carries, a number its origin has not issued |
| Convergence.PassiveSpreads | src/hub.rs:126-186 | a delivery or poll keeps the clip on its way to everyone who has not shown it, through both the write and the already-present branch |
| Convergence.Converges | src/hub.rs:83-186 | from rest, one gesture and any lossless schedule that comes to rest leave the clip's hash on every clipboard it can reach, relays included |
| Convergence.ConvergesFromStart | src/hub.rs:83-186 | the same after any history of a freshly started network |
| Settling.DeliveriesAreBounded | src/daemon.rs:815-866 | on a forest, while a clip spreads, deliveries use up the load in flight and polls add none |
| Settling.EverySchedule | src/hub.rs:83-186 | on a forest with any relays, after one gesture from rest no lossless schedule delivers more often than the load, and every one that cannot deliver any more shows the clip wherever it can reach |
| Settling.Settle | src/daemon.rs:815-866 | from wherever a clip is spreading on a forest there is a schedule of deliveries that comes to rest |
| Settling.CopySpreadsOrNot | src/daemon.rs:294-339 | what a user copies reaches every clipboard it can if it is not empty, new to the watcher, within the limit and not suppressed, and otherwise changes nothing at any other node |
| Settling.CopyingBackIsNotSent | src/suppress.rs:43-53 | after copying a and b, copying a again is suppressed |
| Contents.NothingIsInvented | src/hub.rs:83-227 | on every topology and over any run, drops and cycles included, each clipboard holds and each frame carries, in bytes, name, hash and MIME type, an item that was on a clipboard at the start or that a user wrote or pushed since |
| Contents.ConvergesWhole | src/hub.rs:126-186 | convergence in all four fields: a reachable clipboard that did not have the hash ends as the gesture's clip; one that had it stays as it was or is that clip |
| Contents.CopyArrivesWhole | src/hub.rs:83-186 | what a user copies arrives on every reachable clipboard without its hash as it was copied: bytes, name, and hash and MIME type or those computed |
| Integrities.NextIsWholesome | src/hub.rs:83-227 | one event keeps every frame sound and every clipboard within the limit under its own hash |
| Integrities.WholesomeEverywhere | src/hub.rs:83-227 | so does every run on every topology, cycles, relays and drops included |
| Examples.TheoremsApply | src/hub.rs:109-197 | a push on one of two daemons and its delivery meet everything the order and convergence theorems assume |
| Rooms.RoomTable.Find | src/zsyncd.rs:337 | the first entry of the device, or none |
| Rooms.RoomTable.Join | src/zsyncd.rs:327-349 | the old entry of the device is signalled and replaced, and the new queue is empty |
| Rooms.RoomTable.Leave | src/zsyncd.rs:351-358 | the device's entries are gone, and an empty room with them |
| Rooms.RoomTable.Broadcast | src/zsyncd.rs:360-370 | exactly the queues of the group's other devices that are open and not full get the payload |
| Rooms.RoomTable.Kick | src/zsyncd.rs:372-383 | the device's entry is signalled and removed, and the answer says whether there was one |
| Rooms.RoomTable.KickGroup | src/zsyncd.rs:385-391 | everyone in the room is signalled and the room is gone |
| RelayRuns.RoomsAre | src/zsyncd.rs:327-391 | who is in every room after one event: exactly the seats it does not clear, and whoever joined |
| RelayRuns.OthersOfBoth | src/zsyncd.rs:351-358 | the members that stay keep their order |
| RelayRuns.OpenRoomsAre | src/zsyncd.rs:327-391 | a room opens with its first join; a leave closes it if nobody is left, a kick never, a group kick always |
| RelayRuns.SignalledAre | src/zsyncd.rs:327-391 | whom one event signals: exactly those it unseats, except by a leave |
| RelayRuns.SeatsFollowHistory | src/zsyncd.rs:834-926 | over any run a session is in its room if and only if nothing cleared its seat since it joined, and is signalled if and only if a join, kick or group kick did |
| RelayRuns.OneSeatPerDevice | src/zsyncd.rs:327-391 | a device has at most one entry in a group, and each entry is a seated session of that group and device |
| RelayRuns.OfferedIs | src/zsyncd.rs:360-370 | a broadcast appends to a session's queue if and only if it is another device's entry in that room and its queue has room |
| RelayRuns.DeliveryFollowsHistory | src/zsyncd.rs:834-911 | what a session takes and what waits is exactly what other devices of its group said while it was seated, in order, less what found its queue full; never more than 16 wait |
| RelayRuns.OutIsForGood | src/zsyncd.rs:836-911 | a session that lost its seat never gets it back and hears nothing more |
| RelayRuns.LateLeaveUnseatsSuccessor | src/zsyncd.rs:353 | a replaced session's leave removes its successor without signalling it |
| RelayRuns.SuccessorsAreUnseated | src/zsyncd.rs:924 | a concrete run that leads there |
| Probes.ProbeTracker.IsBanned | src/zsyncd.rs:484-492 | collects, then answers whether a ban is still running |
| Probes.ProbeTracker.Fail | src/zsyncd.rs:494-510 | the entry after a failure: window restarted if over, one more counted, banned from the eighth on |
| Probes.ProbeTracker.Ok | src/zsyncd.rs:512-514 | the entry is forgotten |
| Probes.ProbeTracker.Gc | src/zsyncd.rs:516-522 | exactly the entries that are neither banned nor inside their window are dropped |
| Probes.GcIsUnobservable | src/zsyncd.rs:484-522 | a tracker that collects and one that never does answer every query alike, after every run over non-decreasing time |
| Probes.FourteenFailsBan | src/zsyncd.rs:494-510 | fourteen failures within one minute, with no success since, ban the address until ten minutes after the first, whatever came before, happens in between or comes later |
| Probes.ThirteenAreTooFew | src/zsyncd.rs:501-504 | a run with thirteen within 31 seconds and no ban, since the window tumbles |
| Probes.BansAreBacked | src/zsyncd.rs:484-514 | every ban has eight failures within one minute, the last less than ten minutes ago, and no success since the first of them |
| Probes.IdleIsForgotten | src/zsyncd.rs:516-522 | an address that has not failed for ten minutes is forgotten by the next collection, after any run |
| Disks.ResolvedIs | src/clipboard/file.rs:55-63 | whatever the name, the temporary file ends in ".tmp", stands beside the file, and neither is a directory |
| Disks.FlatNamesStay | src/clipboard/file.rs:137 | a name without separators leads to that very file of the drop directory, or to none |
| Disks.NameOfObject | src/clipboard/file.rs:137 | "../objects/" and a proper name lead to that object |
| Disks.NameOfSibling | src/clipboard/file.rs:137 | "../" and a proper name lead to that file beside the drop directory |
| Disks.ProperNamesLand | src/clipboard/file.rs:135-138 | an ordinary name is that file of the drop directory, unless a directory is in the way |
| Disks.AbsoluteNamesLeave | src/clipboard/file.rs:137 | an absolute name leads to the root instead |
| Disks.MissingDirectoryRefuses | src/clipboard/file.rs:55-63 | a name through a directory that is not there is not written |
| Disks.DotsAreNoFiles | src/clipboard/file.rs:55-63 | a name that is empty or ends in a separator or in dots is no file |
| Disks.AtomicWrites | src/clipboard/file.rs:55-63 | an atomic write changes its file completely or not at all, and no other but its temporary one; it is carried out if and only if both operations are |
| FileStore.FileBackend.constructor | src/clipboard/file.rs:32-44 | the current record read back, or none |
| FileStore.FileBackend.GetItem | src/clipboard/file.rs:78-98 | the current record with its object's bytes, nothing without a record or object, an error if the object is there but cannot be read |
| FileStore.FileBackend.WriteAtomic | src/clipboard/file.rs:55-63 | temporary file, then rename, stopping at the first failure |
| FileStore.FileBackend.DeleteStale | src/clipboard/file.rs:120-131 | the loop deletes exactly the listed files that start with "current" but are neither the stable copy nor the record |
| FileStore.FileBackend.RemoveDrop | src/clipboard/file.rs:133-134 | the files of the drop directory go one by one |
| FileStore.FileBackend.Project | src/clipboard/file.rs:116-142 | stable copy, deletions and the copy under the item's own name, wherever that leads, in this order, the deletions' failures ignored |
| FileStore.FileBackend.Commit | src/clipboard/file.rs:114-159 | the object first, then its projections, and the record last |
| FileStore.FileBackend.Set | src/clipboard/file.rs:100-162 | the disk after every number of operations, and record and answer new if and only if all were carried out |
| FileStore.SetLeaves | src/clipboard/file.rs:100-160 | however far a set got, under a harmless name: the object is new after its rename, the record only at the very end, every other object is untouched |
| FileStore.SetIsAtomic | src/clipboard/file.rs:100-162 | a set cut anywhere, under a harmless name, shows the previous item complete or the new data complete; carried out, exactly the new item; the record changes only then |
| FileStore.SetIsAtomicIff | src/clipboard/file.rs:133-142 | that holds at every disk if and only if the name leads neither to the record nor to an object other than the item's own |
| FileStore.FlatNamesAreHarmless | src/clipboard/mod.rs:104-120 | names without separators, as sanitised names are, are harmless |
| FileStore.NameIntoObjects | src/clipboard/file.rs:137 | at the name "../objects/" and the hash on record, a set cut before the record shows the new data under the old hash |
| FileStore.NameOfRecord | src/clipboard/file.rs:137 | the name "../current.json" leads to the record |
| FileStore.EveryRunShowsOneItem | src/clipboard/file.rs:32-162 | over any run of sets under harmless names, failures, crashes and restarts, the record is that of the last completed set in memory and after a restart, and the data matches its hash: that of this set, or of a later one with the very same hash |
| FileStore.CompletedSetOffers | src/clipboard/file.rs:133-151 | the path a completed set returns holds exactly the data, unless it is the record or its temporary file |
| FileStore.CompletedSetCleansUp | src/clipboard/file.rs:120-131 | after it only the stable copy, the record and the offered file start with "current", if the listing missed no other such file |
| Outcomes.CompletedSetEmptiesDrop | src/clipboard/file.rs:133-138 | after it the offered file is the only one left in the drop directory, of those listed or not there before |
| Outcomes.CompletedSetShows | src/clipboard/file.rs:100-162 | after it the store shows the item's bytes and name, its hash and MIME type or those computed, the path offered, and records its size |
| Outcomes.UnrelatedStays | src/clipboard/file.rs:114-159 | wherever a set is cut, it has touched nothing but its object, files that start with "current", listed drop files and what the name leads to |
| Outcomes.ExtensionsAre | src/protocol.rs:177-197 | the extension of the stable copy for each known MIME type, whatever its parameters |
| Outcomes.UnknownExtension | src/protocol.rs:194-196 | and the one for types of any other kind |
| Frames.NumberRoundTrip | src/protocol.rs:207 | a cast to a fixed width and back keeps the number if and only if it fits |
| Frames.BytesRoundTrip | src/protocol.rs:257 | reading big-endian bytes and writing them back gives the same bytes |
| Frames.FirstByteWeighsMost | src/protocol.rs:205-207 | numbers are written with the most significant byte first |
| Frames.BothAreLawful | src/protocol.rs:38-63 | both tables of frame types are one-to-one and every other code is refused with its number |
| Frames.EncodeFrame | src/protocol.rs:199-210 | header and payload in order, or too large exactly above the limit |
| Frames.HeaderBytes | src/protocol.rs:8-9 | a frame starts with the bytes of "ZSYN" or "ZSYR", the version 1 and its type's number |
| Frames.TypeNumbers | src/protocol.rs:38-47 | the numbers of all frame types |
| Frames.WriteFrame | src/relay.rs:62-79 | exactly the encoded frame is appended to the stream, or nothing |
| Frames.ReadFrame | src/protocol.rs:339-369 | result and rest of the stream for every input, errors included |
| Frames.FaultsAre | src/protocol.rs:339-369 | exactly which error a faulty frame gives, the first in the order magic, version, type, length, payload, and what of the stream is used up |
| Frames.DecodeAgreesWithRead | src/protocol.rs:242-268 | decoding a buffer and reading a stream give the same result on every input, the same error included |
| Frames.ReadIsEncoded | src/protocol.rs:339-369 | whatever is read was encoded: a frame has one encoding only |
| Frames.CutStreamReadsCompleteFrames | src/protocol.rs:339-369 | concatenated frames cut anywhere read back as exactly the complete ones and then an end of file |
| Frames.WholeStreamReadsBack | src/protocol.rs:199-210 | uncut, all of them read back |
| Frames.ReadFramesWereWritten | src/protocol.rs:339-369 | on any input, the frames read up to the error are a prefix of the input, encoded |
| Frames.NeitherReadsTheOther | src/relay.rs:89-97 | each protocol's reader answers every frame of the other with a bad magic |
| Envelopes.EncodeClipBody | src/protocol.rs:220-236 | meta with the size filled in, its length in two bytes, and the data; too large or a bad meta exactly above the limits |
| Envelopes.DecodeOfCut | src/protocol.rs:270-291 | what every prefix of a body decodes to, down to the numbers in the error |
| Envelopes.BodyRoundTrip | src/protocol.rs:270-291 | decoding inverts encoding up to the size, and every strict prefix is refused |
| Envelopes.BodyLayout | src/protocol.rs:220-236 | a body is the length of the meta in two bytes, the meta with the size filled in, and the data |
| Envelopes.DecodedIff | src/protocol.rs:270-291 | exactly which payloads decode to which clip |
| Envelopes.Seal | src/group.rs:226-257 | version, sender, counter, nonce and ciphertext in this layout, with group, sender and counter authenticated |
| Envelopes.EnvelopeLayout | src/group.rs:237-256 | the envelope's bytes: 1, sender, counter, nonce, and a ciphertext that decrypts under the group followed by just those sender and counter bytes |
| Envelopes.UnopenedEnvelopes | src/group.rs:270-275 | under 65 bytes an envelope is truncated, and otherwise of an unsupported version if and only if its first byte is not 1 |
| Envelopes.OpenInvertsSeal | src/group.rs:265-303 | opening gives back sender, counter and text; an envelope is 65 bytes longer than its text |
| Envelopes.OpenedWasSealed | src/group.rs:265-303 | whatever opens was sealed, for this group and with the sender and counter it names |
| Envelopes.OpensOnlyAsSealed | src/group.rs:276-298 | an envelope with an authentic ciphertext opens only as it was sealed: with any byte before the ciphertext changed, under another secret or in another group it is refused as not decrypted, or for its version |
| Envelopes.BodiesFitFrames | src/protocol.rs:8-12 | an encodable body, sealed or not, always fits a frame |
| Envelopes.ClipsCrossTheLan | src/daemon.rs:821-832 | a sound clip written by one node is read, decoded and verified by the next as the same clip |
| Envelopes.ClipsCrossTheRelay | src/daemon.rs:743-769 | the same through seal, relay frame, open and decode |
| Text.HexEncode | src/group.rs:133-141 | the loop prints the bytes in hexadecimal |
| Text.HexRoundTrip | src/group.rs:119-141 | printing and parsing hexadecimal gives the same bytes |
| Text.HexIsLower | src/group.rs:134 | what is printed is in lower case |
| Text.CaseDoesNotMatter | src/group.rs:125-129 | upper and lower case are read alike |
| Text.TrimmedStripsEnds | src/group.rs:120 | trimming takes white space off both ends and nothing else |
| Text.BlanksAreDropped | src/group.rs:86 | white space is dropped wherever it stands, everything else stays in order |
| Text.PortRoundTrip | src/group.rs:369 | every port prints as decimal digits that parse back to it |
| Text.PortForms | src/group.rs:369 | a text is read as a port if and only if it is its decimal digits, with any zeros and perhaps a plus sign before them |
| GroupUris.ParseGroupId | src/group.rs:119-131 | the loop reads 32 hexadecimal digits, after trimming, and refuses anything else |
| GroupUris.GroupIdIsRead | src/group.rs:119-131 | every id is read from its digits in either case with white space around them |
| GroupUris.GroupIdIsRefused | src/group.rs:120-124 | anything else, and nothing more, is refused |
| GroupUris.HostPortReadsBack | src/group.rs:359-392 | a printed host and port split back if and only if the host has no ']' in brackets, or no colon and no leading '[' without |
| GroupUris.BracketedHostAlone | src/group.rs:360-365 | a host in brackets alone gets port 43721 |
| GroupUris.BareAddressAlone | src/group.rs:372-383 | a bare address with several colons is taken whole, with port 43721 |
| GroupUris.PlainHostAlone | src/group.rs:372-383 | a host without colons gets port 43721 |
| GroupUris.PlainPortText | src/group.rs:372-381 | behind a plain host and a colon a port is read, or refused as a bad one |
| GroupUris.BracketedPortText | src/group.rs:360-370 | the same behind a host in brackets |
| GroupUris.BracketErrors | src/group.rs:360-368 | a bracket that is not closed, and one followed by anything but a port |
| GroupUris.ParsedHostIsClean | src/group.rs:85-110 | a parsed host has no white space, no '@', and is specified |
| GroupUris.PrintedReadsBack | src/group.rs:85-117 | a printed URI, with or without key, parses back to its group if and only if the host is clean, specified, and an IPv6 literal or free of colons and of a leading '[' |
| GroupUris.UriRoundTrip | src/group.rs:48-64 | `to_uri` and `redacted_uri` parse back, the latter without the key, under exactly that condition |
| GroupUris.RefusedUris | src/group.rs:86-92 | exactly when a text is refused for its scheme or for having no '@' |
| GroupUris.UriInParts | src/group.rs:93-116 | any other text in its parts: the first error in the order key, id, host and port, or each part as it says |
| Peers.CanonicalIsTcp | src/net.rs:50-76 | a canonical address is taken for a TCP address again unless its host starts with "endpoint" |
| Peers.CanonicalTcpIsFixed | src/net.rs:117-153 | for every accepted TCP address the stored form names the same peer, under an exact condition on the host |
| Peers.CanonicalRelayIsFixed | src/net.rs:78-88 | for every accepted relay URI the stored form names the same group and relay without the key, under an exact condition on the host |
| Peers.ImportedKeyIsKept | src/net.rs:64-88 | an imported URI gives its group, key, host and port, and is stored without the key |
| GroupKeys.KeyDir.ResolveRelay | src/net.rs:91-109 | the key files and the answer in every case: key saved, not written, or looked up |
| GroupKeys.StoredPeerGetsItsKey | src/net.rs:64-109 | an imported URI's stored form gives back the very same peer, key included, whatever other groups are imported or looked up in between and whatever fails |
| GroupKeys.KeyIsLookedUpIff | src/group.rs:194-216 | a peer without a key gets one if and only if its group's file is there and holds it |
| Peers.EndpointHostsAreLost | src/net.rs:58-60 | hosts starting with "endpoint" are accepted behind tcp:// and refused in their stored form |
| Peers.ColonHostsAreLost | src/group.rs:359-392 | relay hosts with several colons that are no IPv6 literals are accepted, and their stored form names a longer host |
| Peers.AddressesAreRead | src/net.rs:67-76 | a readable host behind tcp:// gives that host with its port or port 43721, and the stored form |
| Peers.SchemeIsOptional | src/net.rs:67 | tcp:// may be left out unless what is left starts like another scheme |
| Peers.BlanksDoNotMatter | src/net.rs:51 | white space in an address does not matter |
| Peers.RefusedAddresses | src/net.rs:52-60 | exactly which addresses are refused as empty, as ssh and as iroh |
| Peers.HostIsNeeded | src/net.rs:67-71 | a TCP address without a host is refused |

## Left out

- Interleaving inside one hub operation, and concurrent calls of `set`: operations are atomic here.
- Gestures at different nodes at the same time: the protocol has no tie-break, so final clipboards may differ; order and exactly-once delivery are proved for them, convergence for one gesture from rest.
- Exactly-once delivery with relays: frames of a relay overtake each other and are dropped by full queues; termination, no echo, integrity and convergence are proved with relays.
- Restarts inside network runs: a restarted hub forgets its tables; what a restart does to sequence numbers is proved in `Config`.
- Sessions that come and go: the topology of a network run is fixed, and a lost session is one whose frames are dropped.
- Sockets, TLS and certificate pins, reconnect back-off, pings, hello messages, `live` and `peers` bookkeeping.
- Native clipboards, and the rewriting of content by an operating system. Clipboards that fail are modelled for one hub and its sessions; in networks they work.
- SHA-256, HKDF, XChaCha20-Poly1305, base64 and JSON: arbitrary functions with the laws listed above.
- Item.path outside `FileStore`, hostname and peer address of room entries, the allow list of groups: a join or a broadcast in the model is one the relay allowed.
- FileStore.FileBackend.Set: symbolic links, case-insensitive file systems and Windows paths; what `read_dir` and the removal of the drop directory list is an arbitrary list, so files they miss are covered too; a name the file system refuses for its length, and a directory that cannot be created, count as stops between two operations.
- Probes.ProbeTracker.Fail: `fails` is unbounded, because 2^32 failures in one window do not happen.
- MIME and extension tables beyond what file names depend on, file name heuristics, percent coding, `sender_from_node_id`, file permissions.
- Command line, IPC, status output and administration commands other than kicks.
