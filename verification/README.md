# Cled, verified

A Dafny model of Cled, a clipboard sync system: devices of one user that pair, keep one group, send
each other what is copied, over the local network or through a relay. The model follows the code of
the repository, and where that differs from its comments, the code. Every result is for all runs,
inputs and orders unless it says otherwise.

| part | files |
|---|---|
| the group and its gossip | `Peers`, `PeerStore`, `Membership`, `GroupRules`, `GroupJoin`, `RosterJoin`, `Removals`, `Node`, `LanNode`, `Gossip`, `NodeSessions`, `Notices`, `GroupAgreement`, `GroupSplits`, `GroupSplitRun`, `GroupSplitIff`, `GossipStops` |
| two devices dialing each other | `SessionRace` |
| clipboard sync | `Sync`, `SyncEngine`, `SyncNet`, `Dedup`, `SyncSteps`, `Convergence`, `SlowClock`, `Simulation`, `Content`, `HashInput` |
| tunnels through the relay | `TunnelWire`, `Uuids`, `TunnelTable`, `TunnelNet`, `TunnelDevices`, `TunnelStreams`, `TunnelIntegrity`, `TunnelQuiet`, `TunnelBytes` |
| the relay | `Registry`, `RelayLifecycle`, `RelayPromises`, `RelayReplies`, `RelayServer` |
| the encrypted channel | `Noise`, `Cipher` |
| pairing | `Pairing`, `PairingCodes` |
| noticing copies | `ChangeDetection`, `ClipboardService` |
| shared | `Bytes`, `Sets`, `Wrappers` |

State the source changes in place is a class (`PeerStore`, `Inner`, `SyncEngine`, `RecentSet`,
`SimNetwork`, `Tunnels`, `ConnectionRegistry`, `RelayServer`, `Cipher`, `PairingHost`,
`ChangeDetector`, `Schedule`, `Watcher`); each of its methods is proved against a function on its
value, and the theorems are about those functions and runs of them.

## What the theorems assume

- **The group.** At most 100 devices are ever removed and at most 256 are ever in the group; a
  pairing or removal is stamped no older than what the device recording it holds about the other
  (`GroupSplits.BackdatedRemovalUndoneIff` and its companion say what happens otherwise). Nothing is
  assumed of who pairs whom and when: two members that pair the same device, each at its own time,
  agree that it is a member. `crates/cled-lan/src/peers.rs:212-216` says rosters can arrive in any order
  and the stores still agree. That fails where a device is removed, or paired with another key,
  between two pairings of one key, and the news comes to a member only after the later pairing: it
  gives up what another member, whose pairing is newer, keeps (`GroupSplitRun`). So a group is left
  apart when a removal made on a member out of touch, of a device paired again elsewhere meanwhile,
  reaches a member that holds only an earlier pairing.
  The exact conditions: `GroupSplitIff.GroupsAgreeIffUninterrupted` on the records of a device,
  `GroupAgreement.ConnectedDevicesAgree` on a run, `GroupJoin.TransitiveIffUnbroken` on the order of
  rosters, `GroupRules.IgnoreEachOtherIff` on stores and `GroupRules.LineOrderMattersIff` on lines.
  Without room for every removal gossip need not stop (`Removals.FullStoresNeverSettle`).
  Termination and the sticking of removals need room only.
- **Sessions.** A session delivers its messages in order while both ends hold it. Merging a roster
  and queueing what follows from it is one step, as is recording a pairing or a removal.
- **Clipboard sync.** A delivery, the write it causes and its echo are one step, as in the simulation
  (`Sync.InterleavedEchoIsMistaken` shows what happens otherwise); new items have new IDs, which only
  convergence needs. That a copying device's clock is past the stamp of what it holds is needed
  exactly for holding the newest copy. Content hashes are injective.
- **Tunnels.** Relay connections stay as they are, and each device opens fewer than 2^32 tunnels.
  Device IDs have 128 bits, and are written so that they read back (`Uuids`).
- **The relay.** Sockets may deliver messages until their close event; a closed socket is never
  reused. What a token is worth is whatever the token check answers.
- **The channel.** Decrypting undoes encrypting with the same nonce, and encrypting adds 16 bytes
  (`Noise.SomeKeysAreSound` has keys that do).
- **Pairing.** One attempt at a time, as the lock on the session enforces. Generated codes do not
  repeat.

## Model

| member | source | states |
|---|---|---|
| `GroupAgreement.ConnectedDevicesAgree` | crates/cled-lan/src/node.rs:813-836 | main result: in every run of pairings, removals, leaving, session starts, ends and deliveries in any order, two devices joined by a session with nothing in flight hold alike of every third device, unless one of them, connected to the other, gave up a key of it for something older than a pairing the other holds of that key; nothing is assumed of who paired whom when |
| `GroupSplitIff.GroupsAgreeIffUninterrupted` | crates/cled-lan/src/node.rs:813-836 | exactly which records of a device allow that: members agree about it at every settled moment of every run if and only if it is not removed, nor paired with another key, from one pairing of a key until before a later one; for any other records there is a run of two members that ends settled and apart |
| `GroupAgreement.UninterruptedGroupsAgree` | crates/cled-lan/src/node.rs:813-836 | the one direction: however many members pair a device, at whatever times |
| `GroupAgreement.UnbrokenGroupsAgree` | crates/cled-lan/src/node.rs:813-836 | in particular if that holds up to and at the time of the later pairing, for all devices: both members, both removed at one time, or both unknown |
| `GroupAgreement.UnbrokenGroupsAgreeOnKeys` | crates/cled-lan/src/node.rs:813-836 | and then on the key too, if no two keys of a device are paired at one time |
| `GroupAgreement.CoherentGroupsAgree` | crates/cled-lan/src/node.rs:813-836 | and on everything, if each key is paired at one time |
| `GroupAgreement.RunKeepsCovered` | crates/cled-lan/src/node.rs:803-861 | what makes it so: what a device holds of a third one, the other end of each session holds at least or has coming in the queue of that session |
| `GroupAgreement.StepRaises` | crates/cled-lan/src/peers.rs:217-303 | no step makes a device hold something of lower rank, except nothing, on leaving |
| `Gossip.FallsBehindIffTooLate` | crates/cled-lan/src/peers.rs:235-297 | a store stops holding at least what another does exactly when it gives a key up too late |
| `GroupSplits.TooLateSplits` | crates/cled-lan/src/node.rs:813-836 | and then the two stay apart: from any settled session, a device that gives something up too late and has no other news is ignored by the other, and both are settled again, not alike |
| `GroupSplits.LateRemovalSplits` | crates/cled-lan/src/peers.rs:266-298 | a removal heard by the holder of an earlier pairing of a key is ignored, silently, by the holder of a later one |
| `GroupSplitRun.GuestRemovedHereMemberThere` | crates/cled-lan/src/node.rs:813-836 | a run of three devices that ends with two of them connected and nothing in flight, the one holding a fourth device removed, the other a member |
| `GroupSplits.SameKeyTwiceNeverAgrees` | crates/cled-lan/src/peers.rs:244-254 | two connected devices that paired one device with one key at two times keep their two times, silently |
| `GroupSplits.BackdatedRemovalUndoneIff` | crates/cled-lan/src/peers.rs:232-265 | a removal is undone by the next roster listing the device exactly if it is stamped before the pairing listed |
| `GroupSplits.BackdatedPairingUndoneIff` | crates/cled-lan/src/peers.rs:266-298 | a pairing is undone by the next roster telling of a removal exactly if it is stamped no later than that |
| `GroupRules.IgnoreEachOtherIff` | crates/cled-lan/src/peers.rs:212-216 | two connected stores go on ignoring each other's rosters exactly when they hold of every third device the same, or members with one key or one time; nothing is assumed of what was recorded where, nor of room |
| `GroupRules.HearsNothingNewIff` | crates/cled-lan/src/peers.rs:217-303 | a store has nothing to learn from another's roster exactly when it holds at least as much of every third device |
| `GroupRules.LineReportsIff` | crates/cled-lan/src/peers.rs:235-297 | a line changes the store, and is then reported, exactly when the store listens to it and holds less; room or not |
| `GroupRules.SilentIff` | crates/cled-lan/src/peers.rs:217-303 | a merge is silent exactly when no line it listens to tells more than what is held |
| `GroupRules.LineOrderMattersIff` | crates/cled-lan/src/peers.rs:235-297 | two lines leave a store differently in their two orders exactly if they are about one device it listens to and clash: two pairings it takes, of one key or at one time but not both; the key replaced repeated with a newer time; or a removal between two times of the key held |
| `GroupRules.OwnRosterSays` | crates/cled-lan/src/peers.rs:200-210 | a roster says exactly what the store holds: a line for each device known, with its status, and none for others |
| `GroupRules.MergeOnce` | crates/cled-lan/src/peers.rs:217-303 | merging a roster that lists each device once takes up the one line about a device |
| `GroupRules.RemergeIsSilent` | crates/cled-lan/src/peers.rs:217-303 | merging a roster that lists each device once again changes and reports nothing, whatever was recorded where |
| `GroupRules.RehearingIsSilent` | crates/cled-lan/src/peers.rs:217-303 | in particular the roster any store sends |
| `GroupRules.ExtraLinesIgnored` | crates/cled-lan/src/peers.rs:226-265 | of a roster that is too long only the first 256 lines of each list count |
| `GroupJoin.TransitiveIffUnbroken` | crates/cled-lan/src/peers.rs:235-297 | holding at least as much is a transitive order exactly for records in which no removal and no pairing of another key comes between two pairings of one key |
| `GroupJoin.KeptKeysUnbrokenIff` | crates/cled-lan/src/peers.rs:212-216 | where each device keeps its key, that means: not removed between two of its pairings |
| `RosterJoin.MergeIsJoin` | crates/cled-lan/src/peers.rs:217-303 | then a merged status is what was held or one of the admissible lines, and at least as much as all of them, for any roster |
| `RosterJoin.MergeOrderIrrelevant` | crates/cled-lan/src/peers.rs:212-216 | and two rosters merged in either order leave alike statuses |
| `RosterJoin.AnyRemergeIsSilent` | crates/cled-lan/src/peers.rs:217-303 | and merging any roster again is silent, however often it lists a device |
| `RosterJoin.CoherentMergeIsMax` | crates/cled-lan/src/peers.rs:217-303 | with one time per key the merge is the maximum by rank |
| `RosterJoin.CoherentOrderIrrelevant` | crates/cled-lan/src/peers.rs:212-216 | and two rosters leave exactly the same in either order |
| `Membership.EntryEffect` | crates/cled-lan/src/peers.rs:235-297 | a member line, or with room a removal line, changes the status of only the device it is about |
| `GossipStops.GossipTerminates` | crates/cled-lan/src/node.rs:813-861 | between pairings, removals and session starts, any run delivers at most as many messages (rosters, closings and notices of removal) as the measure of its start, so gossip stops |
| `GossipStops.AlwaysStops` | crates/cled-lan/src/node.rs:813-861 | and every state of a group within its limits has such a measure: there is a number of deliveries no such run from it exceeds |
| `GossipStops.DeliveryLowersPotential` | crates/cled-lan/src/node.rs:813-861 | each delivery strictly lowers that measure: waiting messages plus, for each session, what is still unknown and one |
| `GossipStops.LeavingCostsNothing` | crates/cled-lan/src/node.rs:840-861 | a device told of its removal forgets what it knew, but closes every session, so has nobody left to tell |
| `GossipStops.HearingCostsNothing` | crates/cled-lan/src/node.rs:821-834 | what a roster makes a device send is paid for by what the device learned from it |
| `GroupRules.SilentMergeChangesNothing` | crates/cled-lan/src/peers.rs:49-53 | a merge that reports an empty change left the store as it was |
| `GroupRules.ReportedMergeRaises` | crates/cled-lan/src/peers.rs:49-53 | a merge that reports a change strictly raised the rank of some ID and lowered none |
| `GroupRules.AbsorbIsMaxIff` | crates/cled-lan/src/peers.rs:244-254 | one line takes the maximum by rank if and only if it is not a newer time for the key already held |
| `GroupRules.MergeKeepsValid` | crates/cled-lan/src/peers.rs:217-303 | any roster leaves the store without duplicates, with members and removals disjoint and at most 100 removals |
| `Membership.EvictionForgetsTheOldest` | crates/cled-lan/src/peers.rs:305-312 | a removal remembered without room drops exactly the oldest one to unknown; with room nothing else changes |
| `Removals.RemovalSticks` | crates/cled-lan/src/peers.rs:165-177 | through any run of merges, removals, pairings of others and leaving, a removed device stays removed while fewer than 100 removals come after and nothing vouches for it later |
| `Removals.RemovedHereSticks` | crates/cled-lan/src/peers.rs:165-177 | in particular after `remove` and at most 99 later removals |
| `Removals.FullStoresNeverSettle` | crates/cled-lan/src/peers.rs:305-312 | two full stores with disjoint removals exchange them forever, each always with news for the other |
| `Removals.FullStoresSwap` | crates/cled-lan/src/peers.rs:277-297 | hearing each other once, both forget all their own removals for the other's |
| `Removals.UpsertValid` | crates/cled-lan/src/peers.rs:136-142 | pairing keeps the lists valid, makes the device a member with this key and time, and changes the status of no other |
| `Membership.DropThenRemember` | crates/cled-lan/src/peers.rs:165-177 | a removal keeps the lists valid, makes the member removed at that time and, with room, changes the status of no other |
| `PeerStorage.PeerStore.Merge` | crates/cled-lan/src/peers.rs:217-303 | the two loops compute the merge of the lines in order, with its report |
| `PeerStorage.PeerStore.MergeMember` | crates/cled-lan/src/peers.rs:232-265 | a member line: ignored if a removal no older is known, a new key if newer, else added |
| `PeerStorage.PeerStore.MergeRemoval` | crates/cled-lan/src/peers.rs:266-298 | a removal line: ends a membership no newer, else is remembered if news |
| `PeerStorage.PeerStore.Remove` | crates/cled-lan/src/peers.rs:165-177 | the member is taken out and remembered as removed, and returned |
| `PeerStorage.PeerStore.RememberRemoval` | crates/cled-lan/src/peers.rs:305-312 | the newest removal goes last, one per device, at most 100 |
| `PeerStorage.PeerStore.Upsert` | crates/cled-lan/src/peers.rs:136-142 | a pairing replaces what was held of that device, also its removal |
| `PeerStorage.PeerStore.MarkNotified` | crates/cled-lan/src/peers.rs:187-196 | the first removal of the device not yet told becomes told; no other changes |
| `PeerStorage.PeerStore.Get` | crates/cled-lan/src/peers.rs:123-125 | finds the member, if there is one |
| `PeerStorage.PeerStore.GetRemoved` | crates/cled-lan/src/peers.rs:128-133 | finds a removal not yet told, if there is one |
| `PeerStorage.PeerStore.Clear` | crates/cled-lan/src/peers.rs:181-185 | forgets the members and keeps the removals |
| `LanNode.Inner.Register` | crates/cled-lan/src/node.rs:484-502 | takes up a session with a paired device unless one dialed by the lower ID exists or the new one is not; the one replaced is asked to close |
| `LanNode.Inner.Unregister` | crates/cled-lan/src/node.rs:504-511 | forgets a session that ended, unless it was replaced |
| `LanNode.Inner.StartSession` | crates/cled-lan/src/node.rs:999-1030 | registers the session and queues this device's roster on it |
| `LanNode.Inner.ApplyRoster` | crates/cled-lan/src/node.rs:813-836 | merges, closes the sessions of those removed or re-keyed, and passes news on to every session |
| `LanNode.Inner.LeaveGroup` | crates/cled-lan/src/node.rs:840-861 | forgets the members and closes every session, if a member said so |
| `LanNode.Inner.RemovePeer` | crates/cled-lan/src/node.rs:764-773 | tells and drops the device, remembers the removal and passes it on |
| `LanNode.Inner.StorePeer` | crates/cled-lan/src/node.rs:595-602 | records a pairing and sends the roster to every session |
| `LanNode.Inner.DisconnectAll` | crates/cled-lan/src/node.rs:824-833 | drops exactly the sessions with these devices, each after one last message |
| `LanNode.Inner.SendToAll` | crates/cled-lan/src/node.rs:476-480 | queues a message once on each current session |
| `NodeSessions.HearingEndsSessions` | crates/cled-lan/src/node.rs:813-836 | in every run, hearing a roster ends the session with a member it makes removed, after the notice of removal, and closes the one with a member whose key it replaces; every other session goes on, sent this device's roster exactly if the store changed; said by what is held before and after |
| `NodeSessions.SessionsAreWithMembers` | crates/cled-lan/src/node.rs:484-511 | at every moment of every run, whatever the rosters and with removals forgotten too, sessions are with members of the group only |
| `NodeSessions.RosterTreats` | crates/cled-lan/src/node.rs:813-836 | the same for one node and any roster that lists each device once, room or not: which sessions end and how, and that the others are sent the roster exactly if a line had news |
| `NodeSessions.ReportedIff` | crates/cled-lan/src/peers.rs:217-303 | a roster that lists each device once reports as removed exactly the members lost, and as added exactly those gained or given another key |
| `NodeSessions.LostIsReported` | crates/cled-lan/src/peers.rs:266-298 | whatever the roster, a member lost is reported as removed |
| `NodeSessions.RemovalTreats` | crates/cled-lan/src/node.rs:764-783 | a removal by the user ends that device's session after the notice of removal, and every other session is sent the roster |
| `NodeSessions.RemovedIsGone` | crates/cled-lan/src/peers.rs:165-177 | a member removed is held as removed at that time; a device that is none stays as it was |
| `NodeSessions.PairingTreats` | crates/cled-lan/src/node.rs:595-602 | a pairing leaves every session, and sends each the roster with the device on it |
| `NodeSessions.LeavingTreats` | crates/cled-lan/src/node.rs:840-861 | a member's notice closes every session and makes every member unknown, keeping what is known of removed devices; a stranger's changes nothing |
| `NodeSessions.StartTreats` | crates/cled-lan/src/node.rs:1018-1030 | a session taken up is first sent the roster, the one it replaces is closed, and those with others stay |
| `Notices.OnePerDevice` | crates/cled-lan/src/peers.rs:128-133 | of a device at most one record is owed a notice, so that is the one found when it connects |
| `Notices.RemovedIsOwed` | crates/cled-lan/src/peers.rs:165-177 | a member the user removes is owed a notice under the record, so the key, it had as a member |
| `Notices.LostIsOwed` | crates/cled-lan/src/peers.rs:272-286 | so is a member lost by a merge, whatever key the roster gives it |
| `Notices.LearnedIsOwed` | crates/cled-lan/src/peers.rs:287-297 | a removal learned of another device is owed under the record it came with |
| `Notices.ToldIsNotOwed` | crates/cled-lan/src/peers.rs:187-196 | once told a device is owed nothing, the others are owed what they were, and the roster still tells of the removal |
| `Notices.PairedIsNotOwed` | crates/cled-lan/src/peers.rs:136-142 | a device paired again is owed nothing |
| `SessionRace.EndsAgree` | crates/cled-lan/src/node.rs:484-511 | once all is delivered both ends hold the same session or none: the lower ID's if it was dialed and did not break, else the other |
| `SessionRace.PreferredStays` | crates/cled-lan/src/node.rs:504-511 | the lower ID's session, once held, is held until it breaks; the cleanup of the one it replaced never removes it |
| `SessionRace.RacesEnd` | crates/cled-lan/src/node.rs:1030-1042 | every interleaving is over after at most 18 steps |
| `SessionRace.RunKeepsInv` | crates/cled-lan/src/node.rs:484-511 | only the other session is ever closed, and only once the preferred one was registered; whoever let go of the preferred one had it break |
| `Sync.RedeliveryHarmless` | crates/cled-sync/src/engine.rs:121-145 | even after its ID was forgotten, an item a device has, or has a newer one than, is ignored and what the device holds stays |
| `Sync.WriteThenEcho` | crates/cled-sync/src/engine.rs:104-118 | a write followed by its change notification is an echo and leaves the item held |
| `Sync.InterleavedEchoIsMistaken` | crates/cled-sync/src/engine.rs:104-118 | with another item written between a write and its echo, the echo is taken for a copy of this device and would be sent on |
| `Sync.InsertKeepsNewest` | crates/cled-sync/src/recent.rs:22-33 | inserting loses no value but, beyond capacity and for a new one, the oldest |
| `SyncObjects.RecentSet.Insert` | crates/cled-sync/src/recent.rs:22-33 | reports whether the value was new, and drops the oldest beyond capacity |
| `SyncObjects.SyncEngine.OnLocalChange` | crates/cled-sync/src/engine.rs:104-118 | an echo of the pending write or an item made from the copy; either way the pending write is settled |
| `SyncObjects.SyncEngine.OnRemoteItem` | crates/cled-sync/src/engine.rs:121-145 | own, corrupted, repeated, older and present content is ignored, in that order; the rest is written; `Dedup` says over runs when an item counts as repeated |
| `Dedup.RepeatsAreIgnored` | crates/cled-sync/src/engine.rs:121-130 | in every run, whatever the clocks, an intact item of another device is answered as a duplicate if and only if its ID was noted there, on a delivery or a copy, with fewer than 1000 others noted since; then, as with its own and damaged items, the delivery changes no device and sends nothing |
| `Dedup.DuplicateIff` | crates/cled-sync/src/engine.rs:121-130 | the same for one engine over any sequence of copies, echoes, items received and failed writes: the bounded set is the last 1000 entries of a log that forgets nothing |
| `Dedup.ArrivalsThatCount` | crates/cled-sync/src/engine.rs:121-145 | in every run, an arrival that is another device's, intact, not noted lately and not older becomes what the device holds, and is written exactly if the clipboard's content is another; any other changes neither |
| `Dedup.EchoIff` | crates/cled-sync/src/engine.rs:104-118 | over any calls, a change is taken for an echo exactly if it has the identity of the item last given out to be written, with no change and no failed write since |
| `Simulation.SimNetwork.SetClipboard` | crates/cled-sync/tests/simulation.rs:49-59 | one step of the object is one step of `Convergence` |
| `Simulation.SimNetwork.Broadcast` | crates/cled-sync/tests/simulation.rs:61-67 | one message to every other device |
| `Simulation.SimNetwork.Receive` | crates/cled-sync/tests/simulation.rs:77-83 | delivery, clipboard write and echo together |
| `Simulation.SimNetwork.DeliverOne` | crates/cled-sync/tests/simulation.rs:69-75 | the oldest message is delivered, if there is one |
| `Simulation.SimNetwork.Settle` | crates/cled-sync/tests/simulation.rs:85-94 | takes exactly as many deliveries as messages were in flight |
| `Convergence.DevicesConverge` | crates/cled-sync/tests/simulation.rs:49-94 | main result: in every run, with copies anywhere, deliveries in any order and number and corrupted messages, in which no device copies with a clock behind the stamp of what it holds: whenever nothing is in flight every device holds the newest copy, on its clipboard too |
| `Convergence.EachHadTheNewest` | crates/cled-sync/tests/simulation.rs:49-94 | without that condition: whenever nothing is in flight each device has at some moment held the newest copy, and holds it now exactly if since the last such moment it never copied with a clock behind |
| `SlowClock.SlowClockSplits` | crates/cled-sync/src/engine.rs:121-145 | a run of two devices, one with a slow clock, that stay apart with nothing in flight |
| `Convergence.HeldForGood` | crates/cled-sync/src/engine.rs:121-145 | what a device has it goes on having until it copies with a clock behind, and delivering it again meanwhile, however late, writes nothing and changes nothing it holds |
| `SyncSteps.StepKeepsInv` | crates/cled-sync/tests/simulation.rs:49-82 | every issued item has reached each device or is on its way to it, whatever the clocks |
| `SyncNet.NothingLoops` | crates/cled-sync/tests/simulation.rs:49-94 | in every run, whatever the clocks, the IDs and the items delivered: no write is ever pending between steps, a clipboard always has the identity its engine holds, a delivery sends nothing, and (n - 1) messages are sent per copy that changed a clipboard |
| `Sync.FailedWriteIsForgotten` | crates/cled-sync/src/engine.rs:148-150 | after a failed write the next change of the clipboard, even to the same content, is a copy and no echo, and what was held is still held |
| `Content.NormalizeIsOnePass` | crates/cled-clipboard/src/content.rs:113-119 | replacing CRLF and then CR is one pass over the text |
| `Content.NormalizeIdempotent` | crates/cled-clipboard/src/content.rs:113-119 | normalized text has no CR, and normalizing it again changes nothing |
| `Content.NormalizeUndoesRewriting` | crates/cled-clipboard/src/content.rs:113-119 | writing any of the newlines of a CR-free text as CRLF is undone |
| `Content.SameTextIffTrailingWhitespace` | crates/cled-clipboard/src/content.rs:38-40 | two texts are one copy exactly if they differ only in whitespace at the end |
| `Content.FromRgba` | crates/cled-clipboard/src/content.rs:65-72 | an image is made exactly if there are width * height * 4 bytes, despite the overflow checks |
| `HashInput.HashedAlikeIffSameIdentity` | crates/cled-sync/src/item.rs:19-37 | two contents feed the hasher the same bytes exactly if they have one identity |
| `HashInput.Feed` | crates/cled-sync/src/item.rs:19-37 | the bytes fed, in order: a prefix for the kind, sizes in little-endian, then the text or pixels |
| `TunnelIntegrity.StreamIntegrity` | apps/desktop/src-tauri/src/tunnel.rs:196-286 | main result: in every run over fixed relay connections, with any tunnels opened from both sides and interleaved, what one session was handed is a prefix of what the other session of that tunnel wrote |
| `TunnelIntegrity.RunKeepsInv` | apps/desktop/src-tauri/src/tunnel.rs:252-286 | what was written is what was handed over, what is queued at the ends and what the frames in flight carry, in order |
| `TunnelQuiet.FramesDrain` | apps/desktop/src-tauri/src/tunnel.rs:208-286 | from any state, with nothing opened or written any more, at most as many steps follow as the weight of what is left: bytes picked up, sessions ending, frames sent, relayed, received and answered |
| `TunnelQuiet.AnswersAtMostOne` | apps/desktop/src-tauri/src/tunnel.rs:225-249 | a frame is answered with at most one frame, always a close, and a close is not answered |
| `TunnelBytes.RelayMovesFrames` | apps/relay/src/features/relay/routes.ts:195-219 | on bytes, the relay does to a frame what the model of the network says, and the receiver decodes it so |
| `TunnelBytes.RunKeepsNetOk` | apps/relay/src/features/relay/tunnel.ts:50-75 | every frame of every run is one the codecs accept |
| `TunnelWire.ForwardedFrameMirrors` | apps/desktop/src-tauri/src/tunnel.rs:288-323 | a frame one device encodes, forwarded by the relay, is decoded by the other as the same kind and data on the same tunnel from its end |
| `TunnelWire.UndeliverableFindsOwnTunnel` | apps/relay/src/features/relay/routes.ts:208-216 | a frame to a device not connected comes back as a close of the sender's own tunnel; a close is dropped |
| `Uuids.UuidNamesAreFaithful` | apps/desktop/src-tauri/src/tunnel.rs:288-323 | UUIDs written as 32 hexadecimal digits in five groups are names as the codecs need them: 36 identifier bytes that read back |
| `TunnelWire.OwnFrameRejected` | apps/relay/src/features/relay/routes.ts:200-206 | a frame to oneself goes nowhere |
| `TunnelWire.RelayKeepsBytes` | apps/relay/src/features/relay/tunnel.ts:50-89 | encoding an accepted frame gives back its bytes |
| `TunnelWire.RelayReadsBack` | apps/relay/src/features/relay/tunnel.ts:50-89 | parsing an encoded valid frame gives it back |
| `TunnelWire.DesktopReadsBack` | apps/desktop/src-tauri/src/tunnel.rs:288-323 | a device reads what the other end wrote, with the opener's side flipped |
| `TunnelWire.DecodeIff` | apps/desktop/src-tauri/src/tunnel.rs:301-323 | exactly which bytes a device takes for a frame, and as what |
| `TunnelWire.EncodeFrame` | apps/desktop/src-tauri/src/tunnel.rs:288-299 | the frame built piece by piece |
| `TunnelWire.RelayEncodeFrame` | apps/relay/src/features/relay/tunnel.ts:77-89 | the header written field by field into a buffer |
| `TunnelTable.Tunnels.Create` | apps/desktop/src-tauri/src/tunnel.rs:252-286 | a new tunnel replaces one with its key |
| `TunnelTable.Tunnels.Open` | apps/desktop/src-tauri/src/tunnel.rs:196-205 | a tunnel under the next ID, and the frame that announces it; other tunnels are untouched |
| `TunnelTable.Tunnels.OnPumped` | apps/desktop/src-tauri/src/tunnel.rs:208-217 | data from a session becomes a data frame while the tunnel is open, its end a close, which removes the tunnel |
| `TunnelTable.Tunnels.OnFrame` | apps/desktop/src-tauri/src/tunnel.rs:221-250 | open, data and close on known and unknown tunnels: the tunnels open afterwards, what each session has been handed, and the answer |
| `TunnelDevices.ReceiveRefines` | apps/desktop/src-tauri/src/tunnel.rs:221-250 | a frame does to the table of open tunnels what its message does to a device of the network: the same tunnels open, the same bytes handed over, and the frame of the message it answers with |
| `TunnelDevices.PumpRefines` | apps/desktop/src-tauri/src/tunnel.rs:208-217 | so does what a session wrote or its end |
| `TunnelDevices.OpenRefines` | apps/desktop/src-tauri/src/tunnel.rs:196-205 | and opening a tunnel |
| `TunnelDevices.ReceivedMessage` | apps/desktop/src-tauri/src/tunnel.rs:221-250 | after an opening message its tunnel is open with nothing handed over; after a close, or data that could not be handed over, which is answered with a close, it is not; no other tunnel changes |
| `TunnelDevices.PumpedMessage` | apps/desktop/src-tauri/src/tunnel.rs:208-217 | what a session wrote is sent while its tunnel is open, and its end closes the tunnel |
| `TunnelDevices.ClosedStaysClosed` | apps/desktop/src-tauri/src/tunnel.rs:196-250 | in every run a tunnel that is not open stays so, and nothing more is handed to its session or framed of what it writes, until the other side opens it anew; one opened here for good |
| `RelayPromises.RegistryIsWhatDevicesWereTold` | apps/relay/src/features/relay/routes.ts:234-268 | main result: over every interleaving of connecting, registering, token results, timeouts, replacement and closing, the two indexes stand for exactly the map from user and device to the socket last told it registered as it and not closed since |
| `RelayPromises.TunnelFramesStayWithinAUser` | apps/relay/src/features/relay/routes.ts:195-219 | a tunnel frame sent by the relay goes to the socket standing for the device named, in the user of the sending socket, under the name that socket stands for and otherwise unchanged; or back to the sender as a close |
| `RelayPromises.TestMessagesStayWithinAUser` | apps/relay/src/features/relay/routes.ts:161-192 | a test message reaches exactly the other open sockets standing for devices of that user |
| `RelayPromises.DevicesListedAreStoodFor` | apps/relay/src/features/relay/routes.ts:149-160 | the devices listed are exactly the other devices of the user that a socket stands for |
| `RelayReplies.TunnelFramesGo` | apps/relay/src/features/relay/routes.ts:195-219 | everything sent for a binary frame of the socket standing for a device: to the socket standing for the device named, if open, with the sender's name put in; a close back if none stands for it, unless it is a close; a refusal if it is no frame or names the sender |
| `RelayReplies.DevicesAreListed` | apps/relay/src/features/relay/routes.ts:149-160 | a request for the devices is answered, if its socket is open, with exactly the other devices of the user that a socket stands for |
| `RelayReplies.TestMessagesGo` | apps/relay/src/features/relay/routes.ts:161-192 | everything sent for a test message: a delivery to the socket of each other device, where open, and how many devices those are; or that there are none |
| `RelayReplies.OthersAreRefused` | apps/relay/src/features/relay/routes.ts:129-147 | text that is no message, and a second registration, are refused |
| `RelayReplies.StrangersAreRefused` | apps/relay/src/features/relay/routes.ts:115-165 | a socket that stands for no device is answered nothing but refusals, except for one registration at a time |
| `RelayReplies.TokensAreAnswered` | apps/relay/src/features/relay/routes.ts:234-268 | a refused token is told so and closed with 4401; a verified one registers the device asked for, if the socket is still open, and closes the socket that stood for it; nothing else is sent |
| `RelayReplies.TimersAndClosing` | apps/relay/src/features/relay/routes.ts:71-94 | the timer closes with 4408 an open socket that stands for no device; opening and closing send nothing |
| `RelayReplies.StopsBeingOpenIff` | apps/relay/src/features/relay/routes.ts:71-94 | a socket is open from its opening exactly until its client closes it or the relay sends it a close |
| `RelayPromises.ReplacedIsClosed` | apps/relay/src/features/relay/routes.ts:254-263 | the socket that stood for a device another socket now registers as is told it was replaced, if it was open, and is closed |
| `RelayPromises.RegistersAtMostOnce` | apps/relay/src/features/relay/routes.ts:140-147 | a socket is told it registered at most once in its life |
| `RelayPromises.ToldAsVerified` | apps/relay/src/features/relay/routes.ts:234-262 | a socket is told it is the user its token was verified for and a device it asked to be |
| `RelayPromises.TimersCloseOnlyStrangers` | apps/relay/src/features/relay/routes.ts:71-76 | an open socket stands for a device exactly if its timer is no longer armed |
| `RelayPromises.InternalErrorsAreTheVerifiers` | apps/relay/src/features/relay/routes.ts:79-85 | the handler fails only if the token check itself did; registering never finds the socket registered |
| `RelayLifecycle.RunKeepsInv` | apps/relay/src/features/relay/routes.ts:86-94 | no registered socket has had its close event, at most one token check is under way per socket, and none for a registered one |
| `Registry.StandsForOne` | apps/relay/src/features/relay/registry.ts:18-22 | the indexes stand for exactly one map from user and device to connection |
| `Registry.AddRefines` | apps/relay/src/features/relay/registry.ts:30-46 | adding keeps the indexes consistent and sets one entry of the map they stand for |
| `Registry.RemoveRefines` | apps/relay/src/features/relay/registry.ts:66-77 | removing takes exactly the connection out of that map, and one that was replaced removes nothing |
| `Registry.IndexesAgree` | apps/relay/src/features/relay/registry.ts:18-22 | a socket and the map find the same connections |
| `Registry.ConnectionRegistry.AddConnection` | apps/relay/src/features/relay/registry.ts:30-46 | refuses a socket registered already, else adds and returns the one replaced |
| `Registry.ConnectionRegistry.GetUserConnections` | apps/relay/src/features/relay/registry.ts:49-51 | every connection of the user, each once |
| `Registry.ConnectionRegistry.GetConnection` | apps/relay/src/features/relay/registry.ts:53-55 | the connection of a device |
| `Registry.ConnectionRegistry.RemoveConnection` | apps/relay/src/features/relay/registry.ts:66-77 | removes it if it is still registered, and says so |
| `Registry.ConnectionRegistry.RemoveBySocket` | apps/relay/src/features/relay/registry.ts:80-86 | removes and returns what the socket registered as |
| `RelayObjects.RelayServer.HandleFrame` | apps/relay/src/features/relay/routes.ts:115-193 | every kind of frame from a registered and an unregistered socket: the new state and what is sent |
| `RelayObjects.RelayServer.FinishRegister` | apps/relay/src/features/relay/routes.ts:234-268 | the rest of `register` after the token check: the new state and what is sent |
| `RelayObjects.RelayServer.ForwardTunnelFrame` | apps/relay/src/features/relay/routes.ts:195-232 | what is sent for a tunnel frame |
| `RelayObjects.RelayServer.ForwardTestMessage` | apps/relay/src/features/relay/routes.ts:161-192 | what is sent for a test message |
| `RelayObjects.RelayServer.OnTimer` | apps/relay/src/features/relay/routes.ts:71-76 | closes a socket that did not register in time |
| `RelayObjects.RelayServer.OnClose` | apps/relay/src/features/relay/routes.ts:87-94 | removes exactly that socket's entry and clears its timer |
| `Noise.ConversationArrives` | crates/cled-lan/src/noise.rs:129-184 | main result: for every sequence of messages of at most 16 MiB, the other side receives exactly it |
| `Noise.ReceivedIffSent` | crates/cled-lan/src/noise.rs:151-184 | whatever bytes come in, a message is received exactly if they start with frames that decrypt in order to its length and its bytes |
| `Noise.RefusedForAReason` | crates/cled-lan/src/noise.rs:151-184 | each error of receiving: a length over 16 MiB, a first chunk without it, more bytes than announced, a frame that does not decrypt, or the end of the stream |
| `Noise.CutMessage` | crates/cled-lan/src/noise.rs:44-50 | of a message cut off anywhere nothing is received |
| `Noise.RoundTrip` | crates/cled-lan/src/noise.rs:129-184 | one message followed by anything: it is received, what follows is left, and the nonces advance by ceil((4 + length) / 65519) |
| `Noise.ChunksAre` | crates/cled-lan/src/noise.rs:144-147 | chunks are full but for the last, which is not empty, and together are what was cut |
| `Noise.TransmissionLength` | crates/cled-lan/src/noise.rs:37-42 | 18 bytes more for each encrypted message |
| `Channels.Cipher.SendMessage` | crates/cled-lan/src/noise.rs:129-149 | writes the whole transmission, or nothing of a message that is too large |
| `Channels.Cipher.SendChunks` | crates/cled-lan/src/noise.rs:144-147 | each chunk encrypted with the next nonce and framed |
| `Channels.Cipher.Receive` | crates/cled-lan/src/noise.rs:151-184 | the receiving loop, with every error it can end in |
| `Channels.WriteFrame` | crates/cled-lan/src/noise.rs:37-42 | a frame of at most 65535 bytes after its length |
| `Channels.ReadTheFrame` | crates/cled-lan/src/noise.rs:44-50 | the next frame, if all of it is there |
| `Pairing.TriesAreBounded` | crates/cled-lan/src/node.rs:606-624 | if codes are not repeated, one shown is used at most once and refused at most three times, plus once for each time no new code could be generated; more than three exactly if it was due to be replaced more than once |
| `Pairing.Retired` | crates/cled-lan/src/node.rs:548-566 | a code no longer shown is never tried again |
| `Pairing.SuccessIsInTime` | crates/cled-lan/src/node.rs:580-598 | a code succeeds only in an attempt begun within two minutes of its making |
| `Pairing.AttemptIs` | crates/cled-lan/src/node.rs:568-607 | an attempt at a code shown is expired exactly if it begins more than two minutes after the code was made, else paired or refused as the exchange goes; with nothing shown, and only then, nobody is pairing |
| `Pairing.ShownIff` | crates/cled-lan/src/node.rs:548-624 | a code is shown exactly if it was made and since then not hidden, expired, used or replaced; failing to generate another takes nothing off |
| `Pairing.ExpiryEnds` | crates/cled-lan/src/node.rs:576-585 | an expired code is taken off: the next attempt finds nobody pairing |
| `Pairing.ExpiredForGood` | crates/cled-lan/src/node.rs:576-585 | and, if codes are not repeated, it is never paired or refused later, whatever the clock says |
| `Pairing.ThirdRefusalEnds` | crates/cled-lan/src/node.rs:610-621 | the third refusal ends a code exactly if a new one can be generated |
| `Pairing.GeneratorMatters` | crates/cled-lan/src/node.rs:612-616 | a run in which one code is refused four times because the generator fails |
| `Pairing.PairingHost.StartPairing` | crates/cled-lan/src/node.rs:548-559 | shows a fresh code for two minutes, or fails and changes nothing |
| `Pairing.PairingHost.EndPairing` | crates/cled-lan/src/node.rs:561-566 | shows no code |
| `Pairing.PairingHost.AcceptPairing` | crates/cled-lan/src/node.rs:568-624 | not pairing, expired, paired or refused, and what is shown afterwards |
| `PairingCodes.GenerateIsABijection` | crates/cled-lan/src/code.rs:15-24 | each of the 2^40 codes comes from exactly one choice of five random bytes |
| `PairingCodes.ParsesIffTypes` | crates/cled-lan/src/code.rs:28-42 | a code is read from exactly the ways to type it: spaces and dashes anywhere, either case, I and L for 1, O for 0 |
| `PairingCodes.ShownParses` | crates/cled-lan/src/code.rs:50-54 | a code typed as it is shown is read as itself |
| `PairingCodes.GeneratedIsCode` | crates/cled-lan/src/code.rs:15-24 | generated codes are eight characters of the alphabet and stand for the bytes |
| `ChangeDetection.ShortcutExactIff` | crates/cled-clipboard/src/service.rs:184-206 | the service reports and remembers what a loop reading on every check does, if and only if no skipped check could have read something other than what was last seen |
| `ChangeDetection.ShortcutExact` | crates/cled-clipboard/src/service.rs:184-206 | so it does if equal consecutive tokens mean unchanged content and no read fails |
| `ChangeDetection.FailedReadLosesACopy` | crates/cled-clipboard/src/service.rs:188-199 | a copy whose first read fails is never reported while the clipboard stays as it is, because the token is remembered before the read |
| `ChangeDetection.BaselineIsNoChange` | crates/cled-clipboard/src/detector.rs:13-26 | what was on the clipboard at the start is not reported until something else is seen |
| `ChangeDetection.ReportsAre` | crates/cled-clipboard/src/detector.rs:21-26 | a check reports exactly what it read, if the read was not skipped and succeeded, the clipboard was not empty, and what was read last was empty, another content or skip reason, or nothing ever |
| `ChangeDetection.EmptyIsNeverReported` | crates/cled-clipboard/src/detector.rs:19-26 | over any checks an emptied clipboard is never reported |
| `ChangeDetection.CopyAfterEmptyIsReported` | crates/cled-clipboard/src/detector.rs:19-26 | after an emptied clipboard the next copy read is reported, even if it is the one from before |
| `ChangeDetection.NextIsDue` | crates/cled-clipboard/src/service.rs:250-268 | over any requests, the next check is due as the last check and the notifications since say |
| `ChangeDetection.DueIsAfterTheFirst` | crates/cled-clipboard/src/service.rs:244-268 | the next check is due an interval after the last or 25 ms after the first notification since, whichever is sooner |
| `ClipboardService.Run` | crates/cled-clipboard/src/service.rs:155-214 | the loop: what it reports and when it checks next, over any requests; never an empty clipboard |
| `ChangeDetection.HandledIs` | crates/cled-clipboard/src/service.rs:171-214 | request by request the thread reports and remembers what the checks so far make it, and is next due as the last check and the notifications since say |
| `ClipboardService.Watcher.Handle` | crates/cled-clipboard/src/service.rs:171-212 | one request: where it leaves the thread, and what it reports |
| `ClipboardService.Watcher.OnTimeout` | crates/cled-clipboard/src/service.rs:181-212 | a check: skipped, or read and observed |
| `ClipboardService.ChangeDetector.Observe` | crates/cled-clipboard/src/detector.rs:21-26 | a change is something other than the last snapshot and not an empty clipboard |

## Left out

- Names, last addresses, `seen`, scoped addresses, files and their formats: they never decide membership.
- Telling a removed device that connects again (`accept_session`): the store's part, `GetRemoved` and `MarkNotified`, is modelled, the exchange is not.
- GossipStops.GossipTerminates: bounds the deliveries between pairings, removals by a user and session starts; each of those sends new rosters, and any number of them can happen.
- SessionRace.EndsAgree: both devices stay paired throughout, each dials at most once, and queued messages other than rosters and closing are not distinguished.
- Dialing, backoff, redial intervals, address ranking, discovery and idle timeouts: timing and I/O.
- The pairing exchange and handshakes, Clerk token checks, BLAKE3, Noise ciphers: outcomes or abstract functions.
- Noise.Sound: nonces are unbounded numbers, so the exhaustion of 2^64 nonces is not modelled.
- Item and device IDs: numbers with an order; how UUIDs are drawn, and the other ways to write one that the UUID library reads, are left out.
- Simulation.SimNetwork.Settle: the bound of 10,000 deliveries that makes the simulation fail is left out, since the number of deliveries is proved.
- TunnelIntegrity.StreamIntegrity: a device reconnecting to the relay restarts its IDs, so runs are over fixed connections, and over fewer than 2^32 openings per device, after which IDs wrap round.
- RelayLifecycle.RunKeepsInv: JSON and schema checks of messages are the events `BadJson` and `BadMessage`; server-side limits on message size are not modelled.
- ConnectionRegistry's `userCount` and `connectionCount`: plain sizes.
- ChangeDetection.ShortcutExactIff: the 64-bit fingerprint of a snapshot is taken to be injective; logging of read errors, writing and the hand-over at exit are left out.
- PairingCodes.Parse: works on characters where the source counts UTF-8 bytes; the two agree because every other byte is refused.
- UI, settings, sign-in, previews, operating-system clipboards and the website: plumbing.
