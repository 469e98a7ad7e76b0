# Merlin, modelled and proved in Dafny

Merlin lets several Naemon nodes share one monitoring workload. Masters are
peers of each other and divide the checks among themselves; pollers take the
checks of their hostgroups; events travel between the nodes and wait in a
backlog while a node is unreachable. This project models the parts of Merlin
that decide something or transform something, in the form they have in the
source (classes, arrays and loops where the source mutates, functions where it
only computes), and proves what those parts are for.

`dafny verify dfyconfig.toml` checks the whole project.

| file | what it is about |
|---|---|
| `PeerOrder.dfy`, `Ownership.dfy` | sorting and numbering a peer group; who owns an object; all nodes agree |
| `Accounting.dfy` | the precomputed assign/inherit tables against the ownership function |
| `NodeStates.dfy` | connection states, counters and group sizes over every run of events |
| `Notifications.dfy` | across a whole cluster, exactly one node sends a notification |
| `CheckNodes.dfy` | who executed a check last, and the counters that follow it |
| `ConfSync.dfy` | which end pushes its configuration and which one fetches |
| `Records.dfy`, `Binlog.dfy` | the two-tier backlog refines a queue |
| `Delivery.dfy` | sending through the backlog keeps order, loses nothing, and gets out what the network takes |
| `Sha1Spec.dfy`, `Sha1.dfy`, `Sha1Example.dfy` | the unrolled streaming SHA-1 refines FIPS 180-4; the standard's first example, step by step |
| `Memrchr.dfy`, `Lines.dfy`, `LineParse.dfy` | word-at-a-time search; block-wise reading of lines in both directions |
| `Codec.dfy` | pointers to offsets and back |
| `ObjectSplit.dfy` | the configuration of a poller is the reference closure of its hosts |
| `ConfText.dfy`, `CompoundConf.dfy`, `CompoundPrint.dfy`, `CompoundExact.dfy`, `CompoundCut.dfy` | compound configuration files: parse, print, cut; exactly what survives a round trip, and a cut |
| `FormatOut.dfy`, `FormatParse.dfy`, `Format.dfy`, `FormatGrammar.dfy`, `FormatNumbered.dfy`, `FormatMeans.dfy` | the printf replacement, down to the text that comes out for given values |
| `Options.dfy`, `SeqFacts.dfy`, `Words.dfy` | a missing value; facts about sequences that proofs name; bytes and word sizes |

## Where the code does not do what one would expect

Each of these is a lemma or part of a contract. The code is modelled as it is,
and where an expected law fails the condition under which it holds is proved.

- Reading a file forwards leaves its buffer, looking for a newline to rewind
  to, if and only if a line does not fit into it (`LineParse.LparseFd`;
  `LineParse.LongLine` is such a file).
- Reading a file backwards ends if and only if no line that ends beyond the
  first buffer's length, together with its newline, fills the buffer or
  overflows it (`LineParse.FinishesIff`; `LineParse.FullLine` is such a file
  although forward reading handles it).
- The backward scan delivers whole lines if and only if what follows the last
  newline fits the buffer, and otherwise that in pieces (`LineParse.LparseRevFd`;
  `LineParse.LongTail` is such a file).
- Wiping a backlog with the unlink flag leaves its file behind if and only if
  entries in the file were unread, because the file is unlinked only when its
  positions are equal (`Binlog.Log.Wipe`).
- Putting back an entry that was read from the backlog's file, with more behind
  it, leaves the file position four bytes into its record, and never the queue
  that was (`Binlog.Log.ReadUnread`). Together with an event that neither tier takes,
  this is the only way in which sending can go wrong (`Delivery.Run`).
- An object has no notifier if and only if the masters have it and none is
  online, or its poller group is dead and either no master is online or nobody
  takes the group over and it is set to notify; otherwise it has exactly one
  (`Notifications.OneNotifier`). With no master online a group that is set not to
  notify does (`Notifications.NotifyAsPoller`; `Notifications.AloneCluster` is
  such a cluster).
- While the local node is not connected to its own daemon it still counts as
  active, but what it takes over from dead groups is not added to its load
  (`Accounting.Accounts.Reassign`; `Accounting.Unconnected` is such a case).
- Start times compare right if and only if their difference in seconds keeps
  its sign modulo 2^32 (`PeerOrder.SignExact`; `PeerOrder.FarApart` is a pair
  that sorts the wrong way round).
- Both of two peers push if and only if their configuration times differ by
  2^31 seconds, or by nothing with equal starts, modulo 2^32
  (`ConfSync.EndsAgree`), and they do what is meant if and only if that
  difference keeps its sign, or becomes 0 and the start times happen to be
  right (`ConfSync.DirectionExact`; `ConfSync.TooFarApart` has two that do not
  and three that push in a circle).
- A node that announces another start time while it is connected is not sorted
  in anew. Its group stays in order if and only if the node, with its new start
  time, is in order with its two neighbours (`NodeStates.Module.HandleActive`;
  `NodeStates.Restarted` is a run in which it is not). So all groups are in order
  throughout a run if and only if every such node was in place, which it is if
  connected nodes repeat their start times (`NodeStates.Run`).
- A number is printed with its last 19 digits, so it is printed right if and
  only if it has less than 20 (`FormatOut.DigitsExact`). A zero-filled field is
  too narrow if and only if its precision is more than its digits and, with the
  sign, less than its width (`FormatOut.IntWidth`).
- A format whose conversions name their parameters is understood if and only if
  none names parameter 0 and no flag but '0' follows a number; a '0' there is
  taken for a digit of the width. The first conversion that breaks this decides:
  if only its width or precision names parameter 0 the result is undefined,
  otherwise the format is rejected (`FormatNumbered.FormatRead`).
- A file parses to its whole tree if and only if every compound in it is
  closed; otherwise to the compound that its end is in (`CompoundConf.WholeIff`;
  `CompoundConf.Unclosed` is such a file).
- A printed tree is read back if and only if it is well-formed
  (`CompoundExact.ReadBackIff`; `CompoundExact.CarriageReturn` is one that is
  not), and what was read from a file reads the same again if and only if none
  of its lines is a bare word or has a value that ends in a space or in '{'
  (`CompoundExact.ReadAgain`).
- Removing a node deletes the lines of its compound with sed, which ends lines
  at "\n" only, while the parser ends them at a lone "\r", too. sed deletes
  exactly the compound if and only if no lone "\r" stands before its end, or
  before its start if it ends the file (`CompoundCut.DeleteCompound`;
  `CompoundCut.Shifted` is a file in which the wrong compound is gone).
- A poller without hostgroups still gets a file, with the global commands
  (`ObjectSplit.SplitConfig`).

## Model

| member | source | states |
|---|---|---|
| `PeerOrder.SignExact` | shared/pgroup.c:82-91 | the comparison of two start times, with its 32-bit differences, has the right sign in both senses if and only if the difference in seconds keeps its sign modulo 2^32 |
| `PeerOrder.CmpExact` | shared/pgroup.c:93-122 | the comparison of two nodes is right both ways round if and only if connection or start decides, or the start times are comparable |
| `PeerOrder.CmpIsOrder` | shared/pgroup.c:82-122 | where start times are comparable, the three-way comparison is the order "up before down, then started, then earlier start" in both signs |
| `PeerOrder.FarApart` | shared/pgroup.c:82-91 | a start time that is earlier and compares as later, with a difference that does not keep its sign |
| `PeerOrder.Qsort` | shared/pgroup.c:124-172 | sorting gives a sorted permutation of the group |
| `PeerOrder.UpFirst` | shared/pgroup.c:124-172 | in a sorted group the nodes that are up are exactly the first ones, as many as are counted |
| `PeerOrder.ActivesByStart` | shared/pgroup.c:124-172 | the active part of a sorted group is strictly ordered by start time and holds exactly the nodes that are up |
| `PeerOrder.BetweenLeads` | shared/pgroup.c:93-122 | if one active node of an ordered group has a new start time, the group is in order if and only if that node is with its neighbours |
| `PeerOrder.SameNumbers` | shared/pgroup.c:82-172 | two nodes with the same knowledge, whatever the order of their arrays, number the active nodes alike |
| `Ownership.SameChoice` | shared/pgroup.c:124-172 | two such nodes choose the same owner for every rank |
| `Ownership.OneOwner` | shared/pgroup.c:574-612 | in a clique of connected peers there is one owner of every id, every peer computes it, and it is one of them, so exactly one sees itself as owner |
| `Ownership.PollerAgrees` | shared/pgroup.c:574-612 | a master and a poller agree on the owner of an object, the poller knowing it by its rank among the group's objects |
| `Ownership.CountMember` | shared/pgroup.c:281-335 | one member adds one to the right share of every possible group size |
| `Ownership.CreateIdTables` | shared/pgroup.c:281-335 | the id table holds the rank of every member, and the assign and inherit tables count, for every group size, the ids that fall to each position |
| `Accounting.CountLocal` | shared/pgroup.c:422-437 | the local table counts the objects that no poller group claims |
| `Accounting.Claim` | shared/pgroup.c:385-437 | each group's objects are recorded as its own, and no others |
| `Accounting.GroupTables` | shared/pgroup.c:281-335 | a group's tables describe its objects |
| `Accounting.MapObjects` | shared/pgroup.c:385-437 | for groups that do not overlap, whoever is up, all tables describe the ownership of all objects |
| `Accounting.MasterOwns` | shared/pgroup.c:574-601 | the objects a master owns are its share of the unclaimed ones and of those of every group that is taken over, and the latter are those it owns in place of poller groups |
| `Accounting.PollerOwns` | shared/pgroup.c:574-601 | the objects a poller owns are its share of its group's |
| `Accounting.Accounts.ResetMasters` | shared/pgroup.c:19-80 | masters start from their share of the unclaimed objects with nothing inherited |
| `Accounting.Accounts.Inherit` | shared/pgroup.c:19-80 | a dead group that allows takeover adds to each connected master what it inherits, and nothing to the local node if that is not connected |
| `Accounting.Accounts.SetGroup` | shared/pgroup.c:19-80 | every connected node of a live group gets its share, and the others 0 |
| `Accounting.Accounts.Reassign` | shared/pgroup.c:19-80 | for any pattern of nodes up and down, current plus extra of every active node is the number of objects the ownership function gives it, less those it owns in place of poller groups if it is the local node and not connected |
| `Accounting.LoadsAreOwned` | shared/pgroup.c:19-80 | what was read from the tables is what is owned, but for what a master that is not connected owns in place of poller groups |
| `Accounting.Unconnected` | shared/pgroup.c:50-66 | a master without its daemon that owns the object of a dead group and has a load of 0 |
| `Accounting.EverythingOwned` | shared/pgroup.c:574-601 | when dead groups allow takeover, the objects owned by active nodes sum to all objects |
| `Accounting.Share` | shared/pgroup.h:13 | the share of position p among m of k ids is k / m, plus one for the first k % m |
| `Accounting.FairShares` | shared/pgroup.c:281-335 | shares within an active poller group differ by at most one |
| `NodeStates.Module.constructor` | module/module.c:1584-1601 | at startup nobody is connected, all counts are right and the groups are in order |
| `NodeStates.LegalLevels` | shared/node.c:53-97 | the listed transitions are those to NONE and those that build the connection up, but not from NONE to CONNECTED at once |
| `NodeStates.Module.Number` | shared/pgroup.c:124-172 | positions become peer ids, and the nodes up are counted |
| `NodeStates.Module.AssignPeerIds` | shared/pgroup.c:124-172 | one group is sorted, numbered and counted, its active nodes first and in order, and the others are left as they were |
| `NodeStates.Module.Recount` | shared/node.c:42-149 | a change to or from CONNECTED moves the counter of the node's kind by one |
| `NodeStates.Module.SetState` | shared/node.c:42-149 | the exact new state and start time for every state change, whether its control packet is sent or not; all counters and groups stay right; a group is as it was or in order |
| `NodeStates.Module.Disconnect` | shared/node.c:713-742 | ends in NONE with the node's info forgotten, whatever happened meanwhile |
| `NodeStates.Module.HandleActive` | module/module.c:336-400 | a control packet from an active node connects it if that is a listed transition or it was connected, and drops it otherwise, and keeps all counters right; if it was connected before and all groups were in order, they are afterwards if and only if it is in order with its neighbours |
| `NodeStates.LinkedChange` | shared/node.c:42-149 | one node's change changes one count of connected nodes, and only to or from CONNECTED |
| `NodeStates.Run` | module/module.c:1543-1601 | from startup, over every run of events, every event has exactly its effect on its node and none on the others, the counters equal the number of connected nodes of each kind and each group is counted and numbered; the active nodes of every group are in order after every event if and only if every connected node that announced a start time was in place with it, and so if connected nodes repeat theirs |
| `NodeStates.FollowsLegal` | shared/node.c:53-97 | over one event of such a run remote nodes change state by listed transitions only |
| `NodeStates.ConnectedLeaves` | shared/node.c:76-84 | a connected node stays connected or is dropped and forgotten |
| `NodeStates.Handshake` | module/net.c:355-380 | from startup, a node that is asked to negotiate and then announces itself is connected, counted among its kind and active in its group |
| `NodeStates.Step` | module/module.c:336-400 | one event keeps groups that are in order so if and only if it leaves its node in place |
| `NodeStates.StaysOrdered` | shared/pgroup.c:124-172 | groups that are left alone stay in order as long as no active node changes its start time |
| `NodeStates.Restarted` | module/module.c:383-389 | a run after which two connected nodes are numbered against their start times, because one was not in place |
| `NodeStates.OrderedArranged` | shared/pgroup.c:124-172 | what such runs leave is the arrangement on which agreement between nodes rests |
| `NodeStates.ActiveIsConnected` | shared/pgroup.c:124-172 | a group's active_nodes is the number of its connected members, counting the local node, and their ids are exactly 0..active-1 |
| `NodeStates.LocalGroupActive` | shared/pgroup.c:124-172 | the local group has one active node more than there are active peers |
| `Notifications.PgroupNumNotify` | module/hooks.c:311-321 | the number of active nodes of the group that can notify |
| `Notifications.Hook.Notification` | module/hooks.c:1044-1112 | the hook allows a notification exactly when the decision says so, and counts the verdict |
| `Notifications.MasterShare` | module/hooks.c:233-236 | a master runs a check exactly when the clique's choice is itself |
| `Notifications.NotifyAsMaster` | module/hooks.c:1044-1112 | for objects that are the masters', a master sends if it is the chosen one and otherwise leaves it to a peer |
| `Notifications.NotifyForPollers` | module/hooks.c:1044-1112 | for objects that stay with a poller group, a master leaves it to a poller if the group notifies, else sends if it is the chosen master, and leaves it to a peer otherwise |
| `Notifications.NotifyAsPoller` | module/hooks.c:1044-1112 | a poller leaves it to a master if one is online and its group does not notify, else sends if it is the chosen one, and leaves it to a peer otherwise |
| `Notifications.OneNotifier` | module/hooks.c:1044-1112 | across the cluster, with masters online or without, at most one node allows the notification of an object, and none does exactly when the masters have it and none is online, or its group is dead and either no master is online or it is not taken over and set to notify |
| `Notifications.RunNumbers` | shared/pgroup.c:124-172 | after a run in which connected nodes repeat their start times, a node's groups are numbered as OneOwner and OneNotifier assume |
| `Notifications.SmallCluster` | module/hooks.c:1044-1112 | two masters and a poller that see each other correctly meet what OneNotifier asks for |
| `Notifications.AloneCluster` | module/hooks.c:1064-1080 | a cluster with no master online meets them too, and its poller sends although it is set not to notify |
| `CheckNodes.Tracker.SetCheckNode` | module/module.c:73-144 | a check moves from one node's counter to another's, and every counter stays the number of objects with that node |
| `CheckNodes.Run` | module/module.c:73-144 | after any run of reports, a node's counter is the number of objects it was the last to report, modulo 2^32 |
| `ConfSync.Direction` | shared/node.c:1369-1437 | for different hashes and near times, negative means "mine is newer, or as new and I started first, or a tie", positive means the other one's is |
| `ConfSync.DirectionExact` | shared/node.c:1369-1437 | both ends do that if and only if the difference of their times keeps its sign modulo 2^32, or becomes 0 and the start times decide rightly |
| `ConfSync.EndsAgree` | shared/node.c:1369-1437 | for different hashes both push if and only if the times differ by 2^31, or by 0 with equal starts, modulo 2^32; otherwise one pushes exactly when the other fetches |
| `ConfSync.NothingToDo` | shared/node.c:1369-1437 | the comparison is zero if and only if the hashes are equal |
| `ConfSync.TooFarApart` | shared/node.c:1369-1437 | two peers that both push, the older configuration over the newer, and three that push in a circle |
| `ConfSync.WinsIsOrder` | shared/node.c:1369-1437 | "newer, then earlier start" is irreflexive, transitive and total but for ties |
| `ConfSync.NoCycle` | shared/node.c:1369-1437 | no route of pushes, of any length, leads back to where it began |
| `ConfSync.OneSource` | shared/node.c:1369-1437 | among distinguished peers there is one from which every other fetches |
| `ConfSync.CloseTogether` | shared/node.c:1369-1437 | peers with different configurations and no ties whose times are less than 2^31 seconds apart meet what NoCycle and OneSource ask for |
| `ConfSync.CommandsAgree` | module/script-helpers.c:166-185 | between two synchronised peers both commands are pushes exactly when both win, and are opposite otherwise; with near times the winner pushes |
| `ConfSync.Downwards` | module/script-helpers.c:128-165 | a configuration never goes to a master or comes from a poller, and goes the other way exactly if the command is there and not "no", it is enabled and, to a poller that is not behind, all peers are active |
| `ConfSync.Sideways` | module/script-helpers.c:166-185 | among peers it goes to or comes from the other by the sign of the comparison, if the command is there and not "no" and it is enabled |
| `ConfSync.MasterPrevails` | module/script-helpers.c:128-165 | between a master and its poller, whatever either end knows and has configured, only the master's configuration moves |
| `ConfSync.NoCommands` | module/script-helpers.c:120-126 | a node with neither command is disconnected, and no other |
| `ConfSync.MasterCmp` | shared/node.c:1369-1401 | a master counts as newer or older exactly as its time is, and only for a node that fetches from it |
| `ConfSync.PollerCmp` | shared/node.c:1403-1437 | a poller differs exactly if its hash does, and is then behind unless its time is later |
| `ConfSync.Attempts.NodeActive` | module/script-helpers.c:108-221 | a command starts exactly when one is chosen, none of its kind is running and the last was more than 30 seconds ago; it is never a push to a master or a fetch from a poller |
| `Records.FirstRecord` | shared/binlog.c:188-219 | what is written as records is read back record by record |
| `Binlog.Log.constructor` | shared/binlog.c:77-117 | a new backlog is an empty queue |
| `Binlog.Log.NumEntries` | shared/binlog.c:360-373 | the length of the queue |
| `Binlog.Log.Grow` | shared/binlog.c:397-405 | more room, and what was there stays |
| `Binlog.Log.MemAdd` | shared/binlog.c:407-431 | one more entry at the end of the memory tier, accounted for with 32-bit wrap-around |
| `Binlog.Log.FileAdd` | shared/binlog.c:433-453 | one more record at the end of the file, or ENOSPC or ENOPATH and no change |
| `Binlog.Log.Add` | shared/binlog.c:455-476 | the queue grows by the entry exactly when the result is 0; the invariant bounds mem_size by max_mem_size plus one header, file_size by max_file_size plus 4 and the write index by the allocation |
| `Binlog.Log.MemRead` | shared/binlog.c:221-255 | the first entry of the memory tier |
| `Binlog.Log.FileRead` | shared/binlog.c:188-219 | the first entry of the file, which is removed when it is exhausted |
| `Binlog.Log.Read` | shared/binlog.c:257-277 | the first entry of the queue, from memory first, or EMPTY |
| `Binlog.Log.MemUnread` | shared/binlog.c:294-335 | the indices and the slot after putting an entry back, or EDROPPED and no change |
| `Binlog.Log.Unread` | shared/binlog.c:337-358 | which result, which queue and which file position follow from every state, the bounds kept in all of them |
| `Binlog.Log.ReadUnread` | shared/binlog.c:257-358 | reading an entry and putting it back restores the queue if it came from memory with others behind it; the only entry is restored exactly when the result is 0; from the file with others behind it it is not, whatever the file is then read as |
| `Binlog.Log.Wipe` | shared/binlog.c:119-163 | with the unlink flag nothing is left, except a stale file exactly when file entries were unread |
| `Binlog.RunAll` | shared/binlog.c:188-277 | every run of adds and reads is a run of a queue, through spill to file, drain and return to memory |
| `Binlog.FirstInFirstOut` | shared/binlog.c:455-476 | the accepted entries are those read, in order, followed by those still queued |
| `Delivery.Node.Send` | shared/node.c:942-1013 | a packet is sent as a whole exactly if the node is connected and the socket takes it; otherwise the node is disconnected and nothing counts as sent; 0 exactly if it was not connected or would have blocked |
| `Delivery.Node.BinlogAdd` | shared/node.c:780-821 | the backlog grows by the packet unless it is transient, and the logged counters follow; it is refused exactly when neither tier takes it; a full backlog is then kept, and one without a path is given up and counted as dropped |
| `Delivery.Node.SendBinlog` | shared/node.c:1129-1204 | the whole backlog goes out if the socket takes it; in any case "sent, then backlog" stays as it was, and a packet caught by a failure is appended to it; it goes wrong exactly when the backlog refuses an event or moves its file position back |
| `Delivery.Node.SendEvent` | shared/node.c:1073-1127 | with a connection and a socket that takes all it is given, the whole backlog and then the packet go out; without one it waits; in any case "sent, then backlog" grows by one copy of the packet, or two adjacent ones, or none of a transient one; it goes wrong exactly when the backlog does |
| `Delivery.Run` | shared/node.c:942-1204 | over every run of sends, failures and reconnects in which the backlog never fails, sent followed by backlog is the offered sequence in order with nothing lost, and events.logged and bytes.logged are the length and the bytes of the backlog; it never fails if memory has room for the events offered, twice; while the sockets take what they are given, sent and backlog are exactly those of an ideal network |
| `Delivery.NothingLost` | shared/node.c:1073-1204 | every packet that is not transient is in the output, which is at most twice as long as what was offered |
| `Sha1.ChoiceForm` | module/sha1.c:97-116 | the rewritten choice function is Ch |
| `Sha1.MajorityForm` | module/sha1.c:97-116 | the sum of two disjoint halves is Maj |
| `Sha1.RotateForm` | module/sha1.c:97-116 | the shifts of the source are the standard's rotations to the left by 1, 5 and 30, the last being one to the right by 2 |
| `Sha1.BytesForm` | module/sha1.c:72-93 | words are read from and written to bytes as numbers in base 256, most significant digit first, and each undoes the other |
| `Sha1.RollWindow` | module/sha1.c:97-116 | sixteen words, each overwritten in turn, are the last sixteen of the 80-word schedule |
| `Sha1.MixedWord` | module/sha1.c:97-116 | the rotated mix of four of them is the next word of the schedule |
| `Sha1.T0To15` | module/sha1.c:97-116 | one step of the first kind is the standard's step, with registers renamed |
| `Sha1.T16To19` | module/sha1.c:97-116 | the same for steps 16 to 19 |
| `Sha1.T20To39` | module/sha1.c:97-116 | the same for steps 20 to 39 |
| `Sha1.T40To59` | module/sha1.c:97-116 | the same for steps 40 to 59 |
| `Sha1.T60To79` | module/sha1.c:97-116 | the same for steps 60 to 79 |
| `Sha1.Block` | module/sha1.c:118-224 | the 80 unrolled steps are the compression function of section 6.1.2 of FIPS 180-4 |
| `Sha1.Context.Update` | module/sha1.c:238-264 | the context has absorbed the message followed by the new data |
| `Sha1.Context.Final` | module/sha1.c:266-283 | the result is the SHA-1 of all that was fed in |
| `Sha1.PaddingPieces` | module/sha1.c:266-283 | what Final feeds in is the padding of section 5.1.1 of FIPS 180-4, from a 64-bit counter |
| `Sha1.PaddingMeans` | module/sha1.c:266-283 | the padding is a byte 0x80, as few zeros as fill the block but for eight bytes, and in those the digits of the length in bits |
| `Sha1.AbsorbAppend` | module/sha1.c:238-264 | blocks are compressed one after the other |
| `Sha1Example.Example` | module/sha1.c:97-283 | the hash of "abc" is the one that the standard's example gives |
| `Sha1.HashPieces` | module/sha1.c:226-283 | however a message is cut into Update calls, the result is the SHA-1 of the whole |
| `Memrchr.Carries32` | compat/memrchr.c:76-95 | the magic-bits test on 4 bytes succeeds exactly if a byte is zero, the top byte apart from its top bit |
| `Memrchr.Carries64` | compat/memrchr.c:76-95 | the same on 8 bytes |
| `Memrchr.Suspicion32` | compat/memrchr.c:100-175 | the test never misses the byte sought, and its one false alarm is a top byte that differs in its top bit |
| `Memrchr.Suspicion64` | compat/memrchr.c:100-175 | the same on 8 bytes |
| `Memrchr.Memrchr32` | compat/memrchr.c:55-185 | the last occurrence or null, for every block, address, length and byte |
| `Memrchr.Memrchr64` | compat/memrchr.c:55-185 | the same with 8-byte words |
| `LineParse.LparseFd` | tools/lparse.c:15-54 | for every file and buffer size, exactly its lines, unless the scan comes to a block with no newline to rewind to, which it does if and only if a line does not fit |
| `LineParse.LongLine` | tools/lparse.c:15-54 | a file whose line does not fit |
| `LineParse.FitsIsAboutLines` | tools/lparse.c:15-54 | "fits" is about the places where lines start only |
| `LineParse.ParseBlock` | tools/lparse.c:15-54 | the lines of one block |
| `LineParse.ReadBlock` | tools/lparse.c:56-138 | the next block from the end, cut behind a newline |
| `LineParse.ParseBlockBackwards` | tools/lparse.c:56-138 | the lines of one block, last first |
| `LineParse.LparseRevFd` | tools/lparse.c:56-138 | for every file that it finishes on, the non-empty lines delivered are those of the file in reverse, with a last line that does not fit in pieces of the buffer's size; they are whole if and only if it fits |
| `LineParse.Progress` | tools/lparse.c:56-138 | a round makes progress exactly if its last line, with its newline, is shorter than the buffer, or the rest of the file fits |
| `LineParse.FinishesIff` | tools/lparse.c:56-138 | the scan comes to an end exactly if every line that ends beyond the first buffer's length is, with its newline, shorter than the buffer |
| `LineParse.TailWholeIff` | tools/lparse.c:56-138 | the end of the file is delivered whole exactly if what follows the last newline fits |
| `LineParse.WholeIff` | tools/lparse.c:56-138 | what is delivered is the lines of the file in reverse if and only if what follows the last newline fits |
| `LineParse.LongTail` | tools/lparse.c:56-138 | a file whose last line comes out in two pieces |
| `LineParse.FullLine` | tools/lparse.c:56-138 | a file that the forward scan reads and the backward scan never finishes |
| `Codec.Encode` | shared/codec.c:219-308 | every string that is there and finds room is in the buffer with its offset in its slot, the others' slots are null, the struct's other bytes are copied, and the length is the 8-aligned end, within a buffer of a multiple of 8 |
| `Codec.WholeIffRoom` | shared/codec.c:219-308 | all strings come out whole, and missing ones stay missing, if and only if the struct and all strings with their terminators fit |
| `Codec.WholeOrCut` | shared/codec.c:219-308 | a missing string stays missing; one that starts inside the buffer comes out whole or as a prefix that fills it; after space runs out everything is missing |
| `Codec.Decode` | shared/codec.c:321-372 | for any block, each slot becomes null, or null with an error if it overshoots (as a signed offset), or a pointer into the block; nothing else changes; an empty block is an error |
| `Codec.RoundTrip` | shared/codec.c:219-372 | decoding what was encoded reports no error and gives back the struct and every string as far as it was kept, missing distinct from empty |
| `ObjectSplit.Splitter.CacheCommand` | module/oconfsplit.c:54-61 | the command is written, once |
| `ObjectSplit.Splitter.CacheTimeperiod` | module/oconfsplit.c:81-91 | the timeperiod and all it excludes, at any depth and in circles, is written once; the unset bits fall |
| `ObjectSplit.Splitter.CacheDependencies` | module/oconfsplit.c:93-116 | the periods of the dependencies on selected hosts are written |
| `ObjectSplit.Splitter.CacheContacts` | module/oconfsplit.c:118-138 | the contacts are written, each after all it refers to |
| `ObjectSplit.Splitter.CacheContactgroups` | module/oconfsplit.c:140-151 | the contactgroups are written, each after its members |
| `ObjectSplit.Splitter.CacheSlaves` | module/oconfsplit.c:158-166 | what a host or service refers to is written |
| `ObjectSplit.Splitter.CacheService` | module/oconfsplit.c:216-247 | what a service refers to is written, and nothing that is not due, for any copy of it that has no references the original has not |
| `ObjectSplit.Splitter.CacheHost` | module/oconfsplit.c:180-260 | the host and what it refers to is written, once |
| `ObjectSplit.Splitter.CacheGlobals` | module/oconfsplit.c:434-446 | exactly the global commands, each once |
| `ObjectSplit.Splitter.MapGroups` | module/oconfsplit.c:346-364 | exactly the hosts of the named groups are selected, or an unknown group is reported |
| `ObjectSplit.Splitter.CacheStuff` | module/oconfsplit.c:346-379 | the result code, and for 0 exactly the reachable objects |
| `ObjectSplit.ExactlyReachable` | module/oconfsplit.c:346-379 | what is closed under references and has all roots is exactly what paths of references reach |
| `ObjectSplit.SplitConfig` | module/oconfsplit.c:381-478 | every poller's file holds exactly the commands, timeperiods, contacts, contactgroups and hosts reachable from its hosts and the global commands, each once, whatever the pollers before it |
| `ObjectSplit.FileHas` | module/oconfsplit.c:54-260 | a poller's file has exactly its hosts, the global commands, and what some object in it names in any of its fields, all of it |
| `ObjectSplit.SelectedIff` | module/oconfsplit.c:69-79 | the hosts of a poller are those of any of its groups |
| `ConfText.ParamBack` | apps/libexec/modules/compound_config.py:89-96 | a printed parameter is read back as it was if and only if its key and value are clean |
| `ConfText.NameBack` | apps/libexec/modules/compound_config.py:81-87 | the same for the head of a compound and its name |
| `ConfText.StripEitherWay` | apps/libexec/modules/compound_config.py:71-71 | stripping may start at either end |
| `ConfText.SpacesAre` | apps/libexec/modules/compound_config.py:68-71 | what is stripped: the twelve white space characters of latin1 |
| `CompoundConf.ParseConf` | apps/libexec/modules/compound_config.py:62-97 | the loop with its cursor is the fold of the meaning of each line, and returns the whole file if and only if every compound is closed |
| `CompoundConf.WholeIff` | apps/libexec/modules/compound_config.py:62-97 | the result is the compound that stands for the file if and only if as many lines close a compound as open one |
| `CompoundConf.Unclosed` | apps/libexec/modules/compound_config.py:62-97 | a file of two lines that reads as the compound it leaves open |
| `CompoundConf.LinesSpan` | apps/libexec/modules/compound_config.py:76-87 | every compound is added, on its last line, to what had been read before its first |
| `CompoundConf.FoldLacks` | apps/libexec/modules/compound_config.py:62-97 | reading on with or without an earlier compound differs in that compound only |
| `CompoundConf.FoldCounts` | apps/libexec/modules/compound_config.py:81-87 | at most one compound starts on a line |
| `CompoundConf.DeleteLines` | apps/libexec/modules/compound_config.py:62-97 | without the lines from line_start to line_end of a compound, at any depth, a file with closed compounds parses to the tree without that compound |
| `CompoundPrint.FilePrinted` | apps/libexec/modules/compound_config.py:179-191 | the printed text is, line by line, its parameters and then its compounds |
| `CompoundPrint.PrintExample` | apps/libexec/modules/compound_config.py:179-191 | the text for a small file: blank lines before compounds, and four blanks for every level |
| `CompoundPrint.PrintedBack` | apps/libexec/modules/compound_config.py:179-191 | parsing what is printed, with every kind of newline ending a line, gives back every well-formed tree, with all compounds closed |
| `CompoundExact.AllRead` | apps/libexec/modules/compound_config.py:62-97 | if as many parameters and compounds are read as were printed, and all are closed, no line was misread |
| `CompoundExact.ReadBackIff` | apps/libexec/modules/compound_config.py:179-191 | a tree that can be printed is read back, with all compounds closed, if and only if it is well-formed |
| `CompoundExact.ReadAgain` | apps/libexec/modules/compound_config.py:62-191 | what was read from a file with closed compounds can be printed and reads the same again if and only if all its lines are settled |
| `CompoundExact.CarriageReturn` | apps/libexec/modules/compound_config.py:68-70 | a value with a carriage return, which is read back as two parameters |
| `CompoundCut.SameEnd` | apps/libexec/node.py:382-384 | before the end of the text, the first n lines of sed end where those of the parser do if and only if no lone carriage return stands before that place, and later otherwise |
| `CompoundCut.DeleteCompound` | apps/libexec/node.py:373-384 | in the text of a file with closed compounds, sed deletes exactly the text of a compound, at any depth, if and only if no lone carriage return stands before its end, or before its start if it ends the file; then what is left parses to the tree without it |
| `CompoundCut.Shifted` | apps/libexec/node.py:373-384 | a file with a lone carriage return, from which sed deletes the end of one compound and the head of the next |
| `FormatOut.OutCh` | compat/asprintf.c:1071-1077 | a character is stored if it fits and counted in any case |
| `FormatOut.FmtStr` | compat/asprintf.c:730-762 | the buffer holds what it can of the text with the field appended, and the length is that of the whole |
| `FormatOut.StrWidth` | compat/asprintf.c:730-762 | the field is as wide as asked for or as the clipped string |
| `FormatOut.Convert` | compat/asprintf.c:796-803 | the digits, lowest first |
| `FormatOut.DigitsExact` | compat/asprintf.c:796-803 | as a numeral the digits are the number if and only if it has less than 20 digits, and then there are no more of them than needed |
| `FormatOut.FmtInt` | compat/asprintf.c:766-848 | the buffer holds what it can of the text with the number appended, padded and signed |
| `FormatOut.IntWidth` | compat/asprintf.c:805-819 | the field is as wide as asked for, except if and only if it is zero-filled with a precision beyond its digits that, with the sign, is less than the width |
| `FormatParse.AddEntry` | compat/asprintf.c:1104-1156 | the table lists, for every parameter, its uses in order |
| `FormatParse.ReadStar` | compat/asprintf.c:326-354 | the parameter that a star takes, or none |
| `FormatParse.ParseFormat` | compat/asprintf.c:251-506 | the state machine terminates on every format with its chunks and their uses, or rejects it, or comes to a star that names parameter 0 |
| `FormatGrammar.ConversionRead` | compat/asprintf.c:277-499 | a conversion written out with any flags, width, precision and modifier is read as that conversion, stars taking parameters first |
| `FormatGrammar.FormatRead` | compat/asprintf.c:251-506 | a format written out from any pieces is read as those pieces |
| `FormatGrammar.WidthMeans` | compat/asprintf.c:413-439 | a length modifier is read as such, also at the end of a format |
| `FormatNumbered.NumberedRead` | compat/asprintf.c:308-399 | a conversion that names its parameters, written out as POSIX has it, is read with those parameters and without its flags if these are zeros; it is rejected if it has any other flag or names parameter 0, and undefined if only its width or precision names parameter 0 |
| `FormatNumbered.FormatRead` | compat/asprintf.c:251-506 | a format of such conversions is understood if and only if none is faulty, and the first faulty one decides whether it is rejected or undefined |
| `FormatNumbered.MixedRejected` | compat/asprintf.c:312-326 | behind a conversion that did not name its parameter, one that does makes the format rejected |
| `FormatMeans.FormatPrinted` | compat/asprintf.c:223-728 | a format written out from any pieces prints them from left to right, each conversion with the arguments that come next, stars first: the table of parameters comes to the same |
| `FormatMeans.LettersMean` | compat/asprintf.c:446-497 | which letters are conversions, and of what |
| `FormatMeans.LettersFlags` | compat/asprintf.c:446-497 | which of them print capitals and which take numbers as unsigned |
| `FormatMeans.FlagsMean` | compat/asprintf.c:277-303 | each flag is set exactly if it is written |
| `FormatMeans.IntField` | compat/asprintf.c:766-848 | a number is a sign, zeros and its numeral, with spaces on the right exactly for '-'; which sign, how many zeros and how many spaces |
| `FormatMeans.StrField` | compat/asprintf.c:730-762 | a string is cut to its precision and filled up to its width, on the right exactly for '-' |
| `FormatMeans.PrintsInt` | compat/asprintf.c:447-450 | %d and %i print every int as '-' for a negative one and its decimal numeral |
| `FormatMeans.PrintsUnsigned` | compat/asprintf.c:451-464 | %u, %o, %x and %X print any number modulo 2^32 in base 10, 8 and 16, without leading zeros, in capitals exactly for %X |
| `FormatMeans.PrintsText` | compat/asprintf.c:478-493 | %s prints the string, %c the character and %% a percent sign |
| `Format.Retrieve` | compat/asprintf.c:508-626 | every parameter gets its argument, percent signs taking none, or its uses disagree |
| `Format.Dopr` | compat/asprintf.c:223-728 | unless the format is undefined, the result is the length of the whole output whatever the buffer size, and a buffer of size m > 0 holds its first min(m - 1, length) characters and a NUL, the rest untouched; -1 and no change for a format that is not understood |
| `Format.Vasprintf` | compat/asprintf.c:1188-1206 | the two passes return the whole output, unless it is empty or there is an error |

## Left out

- Delivery.Run: says nothing of the order of events after the backlog has refused one or moved its file position back, since the source loses it then.
- LineParse.LparseFd: what the source delivers after it has left its buffer is not modelled.
- LineParse.LparseRevFd: requires that the scan finishes, which the source does not on every file; LineParse.FinishesIff says on which.
- PeerOrder.Qsort: the library's sort is modelled by insertion; all that is used of it is that it sorts.
- NodeStates.Run: start times are taken from a set of pairwise comparable ones, the exact condition under which the comparison is an order.
- Codec.RoundTrip: the per-event table of pointer slots is any set of distinct slots inside the struct; packet types outside the table, which are rejected before anything is written, are not modelled.
- CompoundConf.ParseConf: the tree is built by value with a stack of open compounds, so parent references are not modelled; the separator is '='.
- CompoundCut.DeleteCompound: the tree law goes one way, since deleting the wrong one of two equal neighbours gives the same tree.
- Format.Dopr: floating point conversions and %n are excluded; an argument that is missing or of another type, undefined in C, is read as 0 or null; nothing is said of an undefined format; field widths and lengths do not wrap at 2^31.
- ObjectSplit.SplitConfig: the text of the entries, services, dependencies, escalations and hostgroups in the file and the filtering of host and service parents are not modelled; a temporary copy of a service is taken to have no references that the original has not.
- Memrchr.Memrchr32: the word size and the magic constant are taken to match, both 4 or both 8 bytes, whatever LONG_MAX makes of it.
- Accounting.MapObjects: groups of one hostgroup each; with several, the source fills the tables once per hostgroup. Services use the same code with their own ids and are not modelled apart.
- Binlog flush, save, restore from disk and explicit close; I/O errors and failed allocations everywhere.
- Expired checks, whose counters the recovery branch decrements twice.
- Accepting connections, sockets, polling, timeouts, UUID lookup and encryption; the answers of sockets and the success of sends are inputs instead.
- SQL, daemonizing, logging, import and log tools, query handlers and command lines: input, output and user interface.
- The small linked-list and string utilities: they would only add easy members.
