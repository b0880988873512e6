# A model of the tunnel's cores, and what holds of it

The repository is a VPN client with several engines: a native tunnel on Android, a daemon
and a command line on Linux, a root helper on macOS, a packet tunnel on iOS, and a release
gate around them.  This project models, in Dafny, the parts of it in which an invariant
lives in state, in pointers, in arithmetic or in the order of events, and proves what those
parts are for.

- **Mapped DNS** (`LruCache`, `RecencyList`, `DnsScan`, `DnsBuffers`, `MappedDns`, `DnsQuery`).
  A bounded cache hands out fake IPv4 addresses for names.  Its linked list, its array and its
  tree are shown to be one bijection that refines a least-recently-used cache; a query rewritten
  and answered in place is shown to get the reply RFC 1035 asks for.
- **The TCP splice** (`RingBuffer`, `TcpSplice`).  A ring buffer whose bytes are written, handed
  on without a copy, and released on acknowledgement refines a queue in two pieces.
- **The Linux daemon** (`ConnectMachine`, `ConnectProgress`, `ConnectLine`, `Failover`, `LineList`, `LineSelection`, `PolicyRules`,
  `RouteManager`, `OwnRules`).  Control requests, refreshes, connect loops and watchers interleave freely; the
  kill switch, the owner of the own-address rules and the life of every engine are proved over all
  runs.  The kernel's policy rules are a first-match program whose verdict on every packet is stated.
- **The release gate** (`GateMerge`).  From the files the legs left to a green verdict: green means
  nothing was skipped.
- **The macOS root daemon** (`TunnelDaemon`, `PacketFilter`).  Requests interleaved at every point
  with the tunnel's death; the resolver key and the packet filter's block; and what the emitted
  rules let out.
- **Algorithms** (`ChunkedSearch`, `InternetChecksum`, `Crypt1`).
- **Rooms** (`RoomList`, `RoomKeeper`).  A line parser against a declarative reading of the text, and
  a timed event machine.

`Wrappers`, `Bytes`, `Bits` and `Text` hold what these are written with.  A method stands for code that works by
changing things; the function its `ensures` names is its specification, and the lemmas beside it say
what that specification is good for.

Where the code does less than its documentation says, the model follows the code:

- The answer's name pointer is written in one byte, so it reaches its question only below offset 256
  (`DnsQuery.PointerReachesQuestion`, with a query in `DnsQuery.SecondAnswerPointsElsewhere`).
- `Sync` reports an error when an address that had no rule is given twice, though the rules come out
  right (`RouteManager.Manager.Sync`, `OwnRules.RepeatedAddress`).  A start that gets that error undoes what it
  did but for those rules, which stay without an owner (`ConnectMachine.RulesWithoutAnOwner`); exactly when there
  are such rules is `ConnectMachine.OwnRulesHaveOneOwner`.
- The chunked search is exact in every cutting if and only if no marker can end inside another
  (`ChunkedSearch.ExactIffSafe`, `ChunkedSearch.MarkerInAMarker`); the four markers in use are safe.
- "Two refreshes closer than 15 seconds are one" does not hold across a retry: a fetch that succeeds
  leaves an earlier failure's retry timer set (`RoomKeeper.RetryComesTooSoon`); when exactly it can
  happen is `RoomKeeper.TooSoonExactlyWhen`, and how many fetches there can be all the same is
  `RoomKeeper.FetchesAreBounded`.
- A hold whose rules the packet filter does not take removes the block that stood before it
  (`TunnelDaemon.BlockStep`, `TunnelDaemon.RefusedHoldLosesTheBlock`).
- "A restart in flight on the queue cannot outlive the tunnel it belonged to" fails when the flag falls between
  the last look at it and the launch (`RoomKeeper.LaunchedAfterTheFlag`); exactly then is `RoomKeeper.AfterAStop`.

Where the documentation leaves something open, the model says what happens.  `stopAll` promises that "no control
request or refresh sees the selection without its switch or revives it in between", that is, while it holds the
lock, and the code keeps that.  A connect stores its selection before it takes the lock, though: one that waits
while a stop forgets the selection starts it all the same, and its loop runs for a selection that is stored nowhere
(`ConnectMachine.StartedAndForgotten`).  Nobody else does (`ConnectProgress.ForgottenStartsExactly`).

## Model

| member | source | states |
|---|---|---|
| `LruCache.RunKeepsValid` | androidApp/src/main/jni/hev-socks5-tunnel/src/hev-mapped-dns.c:98-150 | every run of finds and lookups keeps names distinct, slots distinct and dense, and the bound |
| `LruCache.NameKeepsSlot` | androidApp/src/main/jni/hev-socks5-tunnel/src/hev-mapped-dns.c:98-150 | a name just touched and not touched since is still bound, to the same slot, exactly when fewer than `max` other distinct names were touched |
| `LruCache.FoundThenLookedUp` | androidApp/src/main/jni/hev-socks5-tunnel/src/hev-mapped-dns.c:253-271 | the slot a find gives looks up to the name found |
| `LruCache.AllFoundAreBound` | androidApp/src/main/jni/hev-socks5-tunnel/src/hev-mapped-dns.c:98-150 | no more distinct names than there is room for: after the last find each is bound to the slot it was given |
| `RecencyList.List.AddTail` | androidApp/src/main/jni/hev-socks5-tunnel/src/misc/hev-list.c:14-25 | the linked list's sequence grows by the node at its end, links and ends intact |
| `RecencyList.List.Del` | androidApp/src/main/jni/hev-socks5-tunnel/src/misc/hev-list.c:27-39 | the sequence loses exactly that node, links and ends intact |
| `MappedDns.NewCache` | androidApp/src/main/jni/hev-socks5-tunnel/src/hev-mapped-dns.c:273-294 | none exactly when the network has fewer hosts than the bound, or so many that their number is negative in 32 bits; else an empty, valid one with the given network and bound |
| `MappedDns.Cache.HasMeansInTree` | androidApp/src/main/jni/hev-socks5-tunnel/src/hev-mapped-dns.c:98-150 | the tree and the list describe the same bindings |
| `MappedDns.Cache.HasSlotMeansRecorded` | androidApp/src/main/jni/hev-socks5-tunnel/src/hev-mapped-dns.c:253-271 | the array and the list describe the same bindings: the slots below `use` are those recorded |
| `MappedDns.Cache.Insert` | androidApp/src/main/jni/hev-socks5-tunnel/src/hev-mapped-dns.c:98-150 | a new name goes behind the list; in a full cache the oldest goes, and its slot is reused |
| `MappedDns.Cache.Find` | androidApp/src/main/jni/hev-socks5-tunnel/src/hev-mapped-dns.c:98-150 | the pointer structure does what the abstract least-recently-used find does, and stays one bijection |
| `MappedDns.Cache.Lookup` | androidApp/src/main/jni/hev-socks5-tunnel/src/hev-mapped-dns.c:253-271 | the same for lookup of an address, unknown ones included |
| `DnsBuffers.SkipName` | androidApp/src/main/jni/hev-socks5-tunnel/src/hev-mapped-dns.c:205-213 | the walk over a name, lengths overwritten by dots, on the buffer itself |
| `DnsBuffers.WriteAnswers` | androidApp/src/main/jni/hev-socks5-tunnel/src/hev-mapped-dns.c:232-245 | the answers behind the questions, or no reply where they do not fit |
| `MappedDns.Cache.Question` | androidApp/src/main/jni/hev-socks5-tunnel/src/hev-mapped-dns.c:202-230 | one question read in place, with the name found if it asks for an address |
| `MappedDns.Cache.Handle` | androidApp/src/main/jni/hev-socks5-tunnel/src/hev-mapped-dns.c:174-251 | reply buffer, length and cache after any query, malformed ones included, are those of the specification |
| `DnsQuery.ScanAll` | androidApp/src/main/jni/hev-socks5-tunnel/src/hev-mapped-dns.c:201-230 | an encoded question section is read whole: exactly its A/IN questions are found, by their dotted names, in order |
| `DnsQuery.AddressRoundTrip` | androidApp/src/main/jni/hev-socks5-tunnel/src/hev-mapped-dns.c:253-271 | an address given out is the network's plus the slot, and network and slot come back out of it |
| `DnsQuery.AskedAt` | androidApp/src/main/jni/hev-socks5-tunnel/src/hev-mapped-dns.c:202-230 | the n-th address question is recorded with its own offset and its own name |
| `DnsQuery.ReplyToQuery` | androidApp/src/main/jni/hev-socks5-tunnel/src/hev-mapped-dns.c:174-251 | for every well-formed query that fits: id and questions unchanged, flags of a response, counts exact, and each answer's address lies in the network and looks up, after the reply, to its own question's name |
| `DnsQuery.PointerReachesQuestion` | androidApp/src/main/jni/hev-socks5-tunnel/src/hev-mapped-dns.c:232-245 | in the reply to every well-formed query, the answer to an address question points at that question exactly when it lies below offset 256 |
| `DnsQuery.SecondAnswerPointsElsewhere` | androidApp/src/main/jni/hev-socks5-tunnel/src/hev-mapped-dns.c:236-237 | a query whose second question, at offset 261, is answered with a pointer to offset 5 |
| `RingBuffer.Buffer.Reading` | androidApp/src/main/jni/hev-socks5-tunnel/src/misc/hev-ring-buffer.c:25-45 | the at most two regions, read in order, are the unread bytes |
| `RingBuffer.Buffer.ReadFinish` | androidApp/src/main/jni/hev-socks5-tunnel/src/misc/hev-ring-buffer.c:47-52 | the first bytes unread become the last in flight, wraps included |
| `RingBuffer.Buffer.ReadRelease` | androidApp/src/main/jni/hev-socks5-tunnel/src/misc/hev-ring-buffer.c:54-62 | the oldest bytes in flight are dropped; the reset of an empty ring changes nothing seen |
| `RingBuffer.Buffer.Writing` | androidApp/src/main/jni/hev-socks5-tunnel/src/misc/hev-ring-buffer.c:64-85 | the at most two free regions, none exactly when the ring is full |
| `RingBuffer.Buffer.WritingIsFree` | androidApp/src/main/jni/hev-socks5-tunnel/src/misc/hev-ring-buffer.c:64-85 | a position is in a writing region exactly when it holds no byte not yet released |
| `RingBuffer.Buffer.WritingGoesRound` | androidApp/src/main/jni/hev-socks5-tunnel/src/misc/hev-ring-buffer.c:64-85 | the writing regions, taken in order, go on from the write position round the ring |
| `RingBuffer.Buffer.WriteFinish` | androidApp/src/main/jni/hev-socks5-tunnel/src/misc/hev-ring-buffer.c:87-93 | the bytes laid from the write position on become the last unread, and `wp` stays `rp + rda_size` round the ring |
| `TcpSplice.Session.Fill` | androidApp/src/main/jni/hev-socks5-tunnel/src/hev-socks5-session-tcp.c:92-105 | the socket's bytes, laid through the writing regions in their order, lie from the write position on and disturb no byte in flight or unread |
| `TcpSplice.Session.SpliceBack` | androidApp/src/main/jni/hev-socks5-tunnel/src/hev-socks5-session-tcp.c:85-131 | every byte received is passed to the stack's write once and in order while the connection stands, also when the stack refuses; the result code exactly |
| `TcpSplice.Session.Sent` | androidApp/src/main/jni/hev-socks5-tunnel/src/hev-socks5-session-tcp.c:154-163 | acknowledged bytes leave the ring, and only those |
| `TcpSplice.Session.StillThere` | androidApp/src/main/jni/hev-socks5-tunnel/src/hev-socks5-session-tcp.c:109-131 | a byte handed over and not acknowledged is still where the stack was shown it, outside every writing region |
| `ConnectMachine.RunKeepsInv` | cli/internal/daemon/connect.go:31-65 | the whole invariant holds after every run of steps of requests, refreshes, loops, watchers and contexts' ends |
| `ConnectMachine.OneLoopAndItsSwitch` | cli/internal/daemon/connect.go:31-147 | in every reachable state: the switch called on has its rules in; one loop at most; while it lives the switch is on exactly when its selection is tun with kill switch |
| `ConnectMachine.OwnRulesHaveOneOwner` | cli/internal/daemon/connect.go:506-513 | over all runs the own-address rules never have two owners, the owner there is has them in, and they are in without one exactly when a sync that failed left some and none was good and none cleared since |
| `ConnectMachine.RulesWithoutAnOwner` | cli/internal/daemon/connect.go:69-79 | a run that ends so: the switch is rolled back and the rules stay, nobody's |
| `OwnRules.SyncOwnRules` | cli/internal/daemon/connect.go:124-130 | what a sync's answer says of the rules: it errs over a list that cannot be read or an address given twice that had no rule, and in the second case the rules are always in |
| `OwnRules.RepeatedAddress` | cli/internal/routes/routes.go:136-154 | the call: an address without a rule, given twice, is an error and its rule is in |
| `ConnectMachine.NothingLeaks` | cli/internal/daemon/connect.go:458-568 | every engine and front is stopped at most once, and one not stopped is held by the one loop that runs |
| `ConnectMachine.StopLeavesNothing` | cli/internal/daemon/connect.go:171-185 | once the old loop's end was awaited, no loop, line or watcher is left and everything started was stopped exactly once |
| `ConnectMachine.SwitchStaysShut` | cli/internal/daemon/connect.go:197-260 | over whole runs, failover, failed resolution, any refresh, or connects that all ask for the switch never open it |
| `ConnectMachine.EveryLoopWasStored` | cli/internal/daemon/connect.go:152-169 | a refresh and the daemon's start begin only the selection stored when they look, so every loop is for one a connect stored or the one the daemon came up with |
| `ConnectProgress.LookExactly` | cli/internal/daemon/connect.go:794-832 | a look goes on to start a selection exactly when it is the stored one and no loop is live, or a line is up whose text changed; else it lets go of the lock; and it changes nothing more |
| `ConnectProgress.StoredCanStart` | cli/internal/daemon/connect.go:152-169 | wherever the lock is free and no loop is live or a line is up, a refresh can come to a loop for the stored selection |
| `ConnectProgress.ForgottenStartsExactly` | cli/internal/daemon/connect.go:132-147 | after the stored selection is forgotten, whatever runs and however the switch stands, a loop for a selection can be started before another is stored exactly when a connect that stored it waits for the lock |
| `ConnectProgress.ForgottenStartsNone` | cli/internal/daemon/connect.go:794-812 | so a refresh revives nothing: some loop can be started exactly when some connect waits |
| `ConnectProgress.StopComesToAnEnd` | cli/internal/daemon/connect.go:171-185 | a stop that waits returns: whatever goes on beside it, its loop takes at most 17 more steps, can take one until it has ended, and then the wait is over |
| `ConnectProgress.StopCanReturn` | cli/internal/daemon/connect.go:171-185 | and the loop's own steps alone suffice, from every state a stop can wait in |
| `ConnectProgress.StopEnds` | cli/internal/daemon/connect.go:132-147 | a stop lets go of the lock with every loop at its end, no line, no switch, and the selection forgotten exactly where that was asked |
| `ConnectProgress.StartEnds` | cli/internal/daemon/connect.go:31-65 | a start lets go of it with one new loop for its selection, every other at its end, and the switch in exactly where the selection asks for it |
| `ConnectProgress.FailedStartEnds` | cli/internal/daemon/connect.go:67-100 | a start that cannot put the switch in starts nothing and leaves no switch |
| `ConnectProgress.EveryRequestCanEnd` | cli/internal/daemon/connect.go:31-185 | in every reachable state whoever holds the lock can come to let go of it |
| `ConnectProgress.LineCanComeUp` | cli/internal/daemon/connect.go:458-532 | a loop that was not told to end can bring a line up by its own steps, with or without an engine, and the line owns the own-address rules exactly in tun mode without the switch |
| `ConnectLine.LineUpIsTheLoops` | cli/internal/daemon/connect.go:587-659 | in every reachable state a supervised line is the one that is up, and the one that is up is supervised or being taken down |
| `ConnectLine.SwitchIsWatched` | cli/internal/daemon/connect.go:80-99 | the switch is called on with a watcher exactly where the addresses can be watched, and one that fires has the own-address rules in |
| `ConnectLine.FailedTryIsOver` | cli/internal/daemon/connect.go:458-537 | however a run goes on, after an engine, a pre-flight, a sync, a front or a probe failed the loop calls no line up before it looked at its context and chose again |
| `ConnectLine.LineIsConfirmed` | cli/internal/daemon/connect.go:531-535 | no line is called up before a probe through it was answered |
| `ConnectLine.TunFrontIsProven` | cli/internal/daemon/connect.go:493-505 | in tun mode no front is started before traffic went through the engine or the pre-flight |
| `ConnectLine.RequestsAddUp` | cli/internal/daemon/handlers.go:326-336 | in every run the connects that wait for a selection are those stored less those started or given up |
| `ConnectMachine.StartedAndForgotten` | cli/internal/daemon/handlers.go:326-335 | a run in which such a connect's selection is forgotten by a stop and its loop then runs, stored nowhere |
| `Failover.GoodLineComesFirst` | cli/internal/daemon/connect.go:411-424 | the first round begins with the line that was up last, the others in their order |
| `Failover.RoundTriesEachOnce` | cli/internal/daemon/connect.go:411-424 | every round is a permutation of the candidates |
| `Failover.RoundTriesTheConnectable` | cli/internal/daemon/connect.go:399-407 | every round tries each line that can be connected once, and no other |
| `Failover.ConnectableInOrder` | cli/internal/daemon/connect.go:399-407 | the connectable lines keep their order |
| `Failover.LastComesLast` | cli/internal/daemon/connect.go:388-397 | the line a round ended on is tried last in the next |
| `Failover.RotationIs` | cli/internal/daemon/connect.go:388-397 | the k-th try of such a round is the candidate k places behind that line, round the list |
| `Failover.UnknownLineKeepsOrder` | cli/internal/daemon/connect.go:388-424 | where the line is no candidate any more the order stays |
| `Failover.RoundsRepeat` | cli/internal/daemon/connect.go:197-260 | from the second round on the order stays |
| `Failover.RoundRobin` | cli/internal/daemon/connect.go:197-260 | from the second round on, at every place of the run, the next n tries are each candidate once and then the same line again |
| `LineList.Entries` | cli/internal/links/list.go:212-249 | each line's entry with its ordinal among the lines of its label |
| `LineList.EntryMeans` | cli/internal/links/list.go:212-249 | an entry has its line's text, label and country, and an id of the list, the label and how many lines up to it have that label |
| `LineList.IdsAreDistinct` | cli/internal/links/list.go:264-267 | no two lines of a list share an id |
| `LineList.GroupByCountry` | cli/internal/links/list.go:276-292 | one group for each country, in the order they first come up, with exactly its entries in their order |
| `LineList.SelectMeans` | cli/internal/links/list.go:298-332 | what each selector picks, said of the entries: by index, by a label that is one entry's alone, by a country in any case, and when nothing |
| `LineList.PickedInOrder` | cli/internal/links/list.go:298-332 | a label's and a country's entries are those of the list in its order |
| `LineList.AtoiReads` | cli/internal/links/list.go:304-309 | an index is read as the number its digits write, up to 64 bits |
| `LineList.NamedIsOne` | cli/internal/links/list.go:298-332 | an index or a label that selects at all selects one entry, the one so labelled |
| `LineSelection.AllEntries` | cli/internal/daemon/daemon.go:129-153 | the entries of each readable list in scope, one list after the other in configuration order; an error exactly when there are none and a list in scope could not be read |
| `LineSelection.ListedIds` | cli/internal/daemon/daemon.go:129-153 | each entry has the id of its own list, and no two the same |
| `LineSelection.RoundStays` | cli/internal/daemon/connect.go:271-332 | a round after a line was remembered yields lines of its list only and leaves the remembered list, whatever is stored meanwhile |
| `LineSelection.SelectionStaysInItsList` | cli/internal/daemon/connect.go:271-366 | the same of every later round, however lists change, are reordered, go or come back, and whatever is stored or forgotten between the rounds |
| `LineSelection.FirstRoundRemembers` | cli/internal/daemon/connect.go:334-366 | the first round an index or label resolves in remembers the line and its list, stored selection included |
| `LineSelection.RememberedLineIsFound` | cli/internal/daemon/connect.go:271-290 | while the remembered line is in any list it is the one candidate |
| `LineSelection.FoundLineGetsItsList` | cli/internal/daemon/connect.go:271-281 | and is remembered with the list it is in, in the stored selection too while that is the same |
| `LineSelection.GoneLineByIndex` | cli/internal/daemon/connect.go:299-318 | a line that is gone is the entry of its number where that is of its own list, and else nothing |
| `LineSelection.GoneLineByLabel` | cli/internal/daemon/connect.go:319-332 | or the one entry of its label in its own list, whatever other lists have |
| `LineSelection.RefusedListWaits` | cli/internal/daemon/connect.go:308-310 | while its list's host refuses this device the round fails and the selection stays |
| `LineSelection.CountryYieldsAll` | cli/internal/daemon/connect.go:283-287 | a country yields every line of it in every list, in order, and no line is remembered for it |
| `LineSelection.OldSelectionIsOfTheOnlyList` | cli/internal/daemon/connect.go:300-307 | a line remembered without its list, and gone, is looked for in the one list in scope if there is just one, and else nowhere |
| `LineSelection.RoundWritesOnlyTheLine` | cli/internal/daemon/connect.go:352-366 | a round writes the line and its list, to the stored selection only while that is the same one |
| `LineSelection.AnotherSelectionStays` | cli/internal/daemon/connect.go:352-366 | over any number of rounds a selection stored by another request is never written over |
| `PolicyRules.SwitchHolds` | cli/internal/routes/routes.go:158-175 | with the switch in and no tun rules, the verdict on every packet, read off the route found: unreachable unless host-local, from an own address, the daemon's, or main has a non-default route |
| `RouteManager.SwitchChangesNothingDecided` | cli/internal/routes/routes.go:22-36 | between kernels that differ in the switch's rules and table alone, as before and after installing or removing it, a packet the rules below it decide keeps its verdict |
| `PolicyRules.SwitchDecidesTheRest` | cli/internal/routes/routes.go:158-175 | what they leave open the switch decides, and nothing falls through to the default route |
| `PolicyRules.OwnAddressGoesByMain` | cli/internal/routes/routes.go:22-36 | a packet from an own address goes where main sends it, whatever rules stand from 9000 on |
| `RouteManager.TunKeepsItsPackets` | cli/internal/routes/routes.go:22-36 | a packet decided by the rules up to 9010 has the same verdict with the switch in and out |
| `RouteManager.Diff` | cli/internal/routes/routes.go:76-94 | what is wanted and not there, what is there and not wanted, repeats kept |
| `RouteManager.Manager.Sync` | cli/internal/routes/routes.go:130-154 | the own-address rules are exactly the addresses given, every other rule stays in place, and it errs exactly when an address without a rule is given twice |
| `RouteManager.Manager.InstallKillSwitch` | cli/internal/routes/routes.go:177-216 | the switch's rules are in, once, for every family the kernel has, every default of its table there is unreachable, and the routes are exactly the old ones with its defaults; where the kernel refuses a route or a rule everything of the switch is out again and it errs; nothing else changes either way |
| `RouteManager.Manager.RemoveKillSwitch` | cli/internal/routes/routes.go:219-245 | the switch's rules and table go, everything else stays in its order |
| `RouteManager.Manager.CleanupStale` | cli/internal/routes/routes.go:267-303 | own-address, switch and sing-box rules and tables go, everything else stays in its order |
| `RouteManager.CleanedMeans` | cli/internal/routes/routes.go:267-303 | what goes, by number: 8990 with a source, 9000 to 9010, 9098 to 9100, and tables 2022 and 2023 |
| `RouteManager.CrashIsCleanedUp` | cli/internal/routes/routes.go:267-303 | after any prefix of any edits of ours, cleaning up restores the kernel exactly |
| `RouteManager.EditDoes` | cli/internal/routes/routes.go:136-154 | what is in the kernel after an edit: what was there or was put in, and was not taken out |
| `GateMerge.Accept` | scripts/gate-merge-reports.py:97-128 | a report is accepted exactly when it is of this engine, leg and flavour, with every cell well formed and named once |
| `GateMerge.AcceptableIs` | scripts/gate-merge-reports.py:97-128 | the same said of the JSON: which fields the file and each of its cells must have, and that a cell's id is five parts joined by slashes that name this leg |
| `GateMerge.ReadParts` | scripts/gate-merge-reports.py:153-174 | each part's plan, its report exactly when that is accepted, and the platform of the last accepted report |
| `GateMerge.Merge` | scripts/gate-merge-reports.py:176-217 | the loops compute the merged cells, the executed count, and each leg's record with its own counts |
| `GateMerge.RecordsAddUp` | scripts/gate-merge-reports.py:204-217 | the legs' records count together what the merged report counts, exactly when no id comes twice, and more otherwise |
| `GateMerge.PutAllIs` | scripts/gate-merge-reports.py:199-203 | every id put in is in the result, and a cell that merging failed is never hidden by a later one |
| `GateMerge.CountsAddUp` | scripts/gate-merge-reports.py:218-237 | planned is passed and failed together |
| `GateMerge.Decide` | scripts/gate-merge-reports.py:320-358 | green exactly when no step, result, count or regression speaks against it, or the gate was skipped by request and its report says so |
| `GateMerge.GreenMeansNothingSkipped` | scripts/gate-merge-reports.py:176-237 | green on the merged report exactly when every leg has an accepted report with its whole plan in it, no cell is in two, and every cell passed or failed with a known issue |
| `GateMerge.ReportsNeverClash` | scripts/gate-merge-reports.py:199-203 | two accepted reports never list the same cell |
| `GateMerge.GreenMeansEveryPartIsSound` | scripts/gate-merge-reports.py:141-237 | the same from the legs' files: green exactly when every part left an accepted report that accounts for its plan and failed nothing unknown, some cell was reported and enough were executed |
| `GateMerge.GreenMeansEveryFileIsSound` | scripts/gate-merge-reports.py:141-237 | green exactly when every leg's JSON file is accepted, every planned id is some cell's `id`, every cell has status `pass` or a non-empty `known`, some cell is listed, and as many ran as are listed |
| `GateMerge.PassedPlanIsSound` | scripts/gate-merge-reports.py:97-128 | a leg that ran its whole plan and passed it is sound, whatever the plan |
| `GateMerge.SilentLegIsNamed` | scripts/gate-merge-reports.py:194-198 | a leg with neither a plan nor a report is one failed cell named for its provider and client |
| `TunnelDaemon.RunKeepsInv` | desktopApp/tunneldaemon/Daemon.swift:62-122 | the invariant holds in every state of every run, whatever the steps of requests, of the child's death and of its handler |
| `TunnelDaemon.KeyMeansATunnel` | desktopApp/tunneldaemon/Daemon.swift:150-225 | between requests a key that is set has its tunnel running, or dead with the news still on its way |
| `TunnelDaemon.KeyGoesWithItsTunnel` | desktopApp/tunneldaemon/TunnelChild.swift:160-169 | and the handler and the news, both then possible, take the key away |
| `TunnelDaemon.DeathIsHeard` | desktopApp/tunneldaemon/Daemon.swift:217-225 | a running tunnel can die at any moment between requests, and its handler and its news then take the reference and the key, and leave the block |
| `TunnelDaemon.NewDaemonFinds` | desktopApp/tunneldaemon/TrafficHold.swift:95-99 | a daemon can start anew at any time: no key, no tunnel, and the block as pf has it |
| `TunnelDaemon.LateNewsIsHarmless` | desktopApp/tunneldaemon/Daemon.swift:217-225 | news of an older tunnel's death, however late and many, never takes a running tunnel's key |
| `TunnelDaemon.RunsBehindTheBlock` | desktopApp/tunneldaemon/Daemon.swift:166-184 | a tunnel is run behind a standing block exactly when a hold was asked for |
| `TunnelDaemon.BlockStep` | desktopApp/tunneldaemon/TrafficHold.swift:147-186 | a step takes a standing block away exactly when it is a release that was asked for, a start without a hold, or a hold that could not be put in place |
| `TunnelDaemon.BlockGoesForCause` | desktopApp/tunneldaemon/Daemon.swift:217-225 | over whole runs a block is gone only after such a step; the tunnel's own death is none |
| `TunnelDaemon.RefusedHoldLosesTheBlock` | desktopApp/tunneldaemon/TrafficHold.swift:155-159 | a run in which a standing block is lost to a start whose rules pf refuses |
| `TunnelDaemon.OneTunnelAtMost` | desktopApp/tunneldaemon/TunnelChild.swift:195-210 | never are two tunnels alive, and between requests only the child referred to |
| `TunnelDaemon.ShutDownLeavesNothing` | desktopApp/tunneldaemon/Daemon.swift:114-122 | a daemon that leaves has no tunnel alive and no key set; told to end, no block either |
| `TunnelDaemon.StopDoes` | desktopApp/tunneldaemon/Daemon.swift:93-96 | over every run, by a stop's reply no tunnel is alive, no child referred to and no key set; the block is gone, or untouched where it was to be kept |
| `TunnelDaemon.ReplacedDoes` | desktopApp/tunneldaemon/Daemon.swift:73-88 | a daemon that finds itself replaced on disk leaves without tunnel and key, and drops the block exactly where a stop asked for that |
| `TunnelDaemon.LastIsLast` | desktopApp/tunneldaemon/Daemon.swift:73-122 | a daemon told to end, or replaced, serves no other request |
| `TunnelDaemon.StartDoes` | desktopApp/tunneldaemon/Daemon.swift:150-199 | by a start's reply with its tunnel running: the tunnel is new, the block stands exactly where a hold was asked for, and the key is this tunnel's exactly where names were |
| `TunnelDaemon.StartCanSucceed` | desktopApp/tunneldaemon/Daemon.swift:150-199 | from every state between requests a start that goes well comes to such a tunnel on its own steps |
| `TunnelDaemon.FailedStartRunsNothing` | desktopApp/tunneldaemon/Daemon.swift:150-199 | a start whose hold, child or names could not be had has, by its reply, no tunnel |
| `TunnelDaemon.ReleaseDoes` | desktopApp/tunneldaemon/Daemon.swift:104-108 | by a release's reply the block is gone, and key and child are as they were but for the child's own death |
| `TunnelDaemon.RefusedDoesNothing` | desktopApp/tunneldaemon/Daemon.swift:67-71 | a request that cannot be read changes nothing |
| `TunnelDaemon.RequestIsAnswered` | desktopApp/tunneldaemon/Daemon.swift:62-112 | every request is answered within 14 steps of its own, whatever the child does, and can always take the next |
| `PacketFilter.RulesSay` | desktopApp/tunneldaemon/TrafficHold.swift:101-130 | the emitted list under first match: what it says of every packet that leaves, and what it tracks |
| `PacketFilter.LetsSay` | desktopApp/tunneldaemon/TrafficHold.swift:137-143 | a party let out is let out for opening and for mid-connection packets alike |
| `PacketFilter.PassedIffAllowed` | desktopApp/tunneldaemon/TrafficHold.swift:101-130 | a packet leaves exactly when on loopback or the tunnel, of the tunnel's group, a lease, to a listed address, or to the local network and not a name query |
| `PacketFilter.LocalV4` | desktopApp/tunneldaemon/TrafficHold.swift:121-124 | the six prefixes are the private, link-local, multicast and broadcast addresses, told by octets |
| `PacketFilter.LocalV6` | desktopApp/tunneldaemon/TrafficHold.swift:125-125 | the three prefixes, told by the first group |
| `PacketFilter.OpenBeforeTheBlock` | desktopApp/tunneldaemon/TrafficHold.swift:132-143 | where an opening packet passes, every later one of the connection passes without state |
| `PacketFilter.InboundPasses` | desktopApp/tunneldaemon/TrafficHold.swift:101-130 | nothing that comes in is refused, and no rule but the tunnel's own matches it |
| `PacketFilter.StatesAre` | desktopApp/tunneldaemon/TrafficHold.swift:132-143 | over any run of packets exactly the connections have a state whose first packet was allowed out beside loopback and tunnel |
| `PacketFilter.LeavesExactly` | desktopApp/tunneldaemon/TrafficHold.swift:101-143 | with states kept over any run of packets, exactly these leave: what is inside, what is allowed, and what goes on a connection whose first packet was |
| `PacketFilter.OnlyAllowedLeaves` | desktopApp/tunneldaemon/TrafficHold.swift:101-143 | so what leaves is allowed or continues a connection of the tunnel's group |
| `ChunkedSearch.FirstOffset` | iosApp/iosApp/OlcboxIosApp.swift:1188-1207 | nothing exactly when no marker occurs in the file; else the smallest offset in what had been read when the first marker was complete |
| `ChunkedSearch.CrashOffset` | iosApp/iosApp/OlcboxIosApp.swift:1059-1067 | for the four markers in use: nothing, or the smallest offset in the whole file, whatever chunks it arrives in |
| `ChunkedSearch.SafeIsExact` | iosApp/iosApp/OlcboxIosApp.swift:1188-1207 | for safe markers what is found in the chunks read so far is first in the whole file |
| `ChunkedSearch.ExactIffSafe` | iosApp/iosApp/OlcboxIosApp.swift:1188-1207 | the answer is exact on every file in every cutting if and only if the markers are safe |
| `ChunkedSearch.MarkerInAMarker` | iosApp/iosApp/OlcboxIosApp.swift:1188-1207 | a file and a cutting on which unsafe markers give a wrong offset |
| `ChunkedSearch.MarkersAreSafe` | iosApp/iosApp/OlcboxIosApp.swift:1061-1061 | the four markers in use are safe |
| `InternetChecksum.Checksum` | iosApp/iosApp/OlcboxIosApp.swift:1688-1699 | a value exactly when the sum fits in 32 bits, and then the complement of the one's complement sum; folding ends and keeps the value modulo 65535 |
| `InternetChecksum.ShortMessageFits` | iosApp/iosApp/OlcboxIosApp.swift:1688-1699 | the sum of at most 131074 bytes fits in 32 bits |
| `InternetChecksum.LongMessageOverflows` | iosApp/iosApp/OlcboxIosApp.swift:1688-1699 | of every greater length some message does not |
| `InternetChecksum.ChecksumCompletes` | iosApp/iosApp/OlcboxIosApp.swift:1679-1699 | a value in a zeroed field makes the sum 0xFFFF exactly when it is the checksum, or all ones where that is zero |
| `InternetChecksum.EchoPacket` | iosApp/iosApp/OlcboxIosApp.swift:1664-1686 | the packet byte for byte; a v4 one sums to 0xFFFF, a v6 one has its field zero |
| `InternetChecksum.AnswerMatches` | iosApp/iosApp/OlcboxIosApp.swift:1701-1725 | the answer to a probe, behind its IPv4 header or bare, is taken for the answer to that sequence number only |
| `InternetChecksum.MatchesMeans` | iosApp/iosApp/OlcboxIosApp.swift:1701-1725 | what is taken for an answer, byte by byte: an echo reply with the number and the payload, at the start or behind an IPv4 header of the length it gives itself |
| `Crypt1.DecryptEncrypt` | cli/internal/crypt1/crypt1.go:62-64 | block chaining decrypts what it encrypted |
| `Crypt1.EncryptDecrypt` | cli/internal/crypt1/crypt1.go:62-64 | and encrypts again what it decrypted |
| `Crypt1.CbcBlocks` | cli/internal/crypt1/crypt1.go:62-64 | each ciphertext block is the cipher of its plaintext block xored with the ciphertext block before it, the first with the IV |
| `Crypt1.XorAt` | cli/internal/crypt1/crypt1.go:62-64 | a bit of the xor is set exactly when it is in one of the two |
| `Crypt1.KeysAre` | cli/internal/crypt1/crypt1.go:79-90 | the two keys are hashes of the master key behind the two labels, byte by byte |
| `Crypt1.Unpad` | cli/internal/crypt1/crypt1.go:103-117 | gives the plaintext exactly when the bytes end in n bytes of value n, n from 1 to 16 |
| `Crypt1.Pad` | cli/internal/crypt1/crypt1test/crypt1test.go:37-42 | the plaintext padded to whole blocks |
| `Crypt1.Encrypt` | cli/internal/crypt1/crypt1test/crypt1test.go:27-50 | IV, ciphertext and tag of the padded plaintext |
| `Crypt1.Decrypt` | cli/internal/crypt1/crypt1.go:40-65 | accepts exactly the blobs that are encryptions, and an accepted blob is the re-encryption of its result under the IV it carries |
| `Crypt1.SealedInjective` | cli/internal/crypt1/crypt1.go:40-65 | a blob is the encryption of one plaintext under one IV at most |
| `Crypt1.RoundTrip` | cli/internal/crypt1/crypt1.go:40-65 | decrypting an encryption gives the plaintext |
| `RoomList.FieldsAre` | iosApp/PacketTunnel/RoomList.swift:85-98 | a line has carrier, room and key exactly when it is written from parts that read as them |
| `RoomList.JoinedCut` | iosApp/PacketTunnel/RoomList.swift:85-98 | a line written from its parts is cut into the same parts |
| `RoomList.CutJoined` | iosApp/PacketTunnel/RoomList.swift:85-98 | the parts a line is cut into join to that line |
| `RoomList.NormalizedOnce` | iosApp/PacketTunnel/RoomList.swift:107-118 | a normalized carrier name is its own |
| `RoomList.AliasesAre` | iosApp/PacketTunnel/RoomList.swift:107-118 | which names are which carrier; any other stays itself |
| `RoomList.OwnLineIs` | iosApp/PacketTunnel/RoomList.swift:53-66 | a line is the location's own exactly when its text joins a name of the wanted carrier, the room and the wanted key |
| `RoomList.OtherLineIs` | iosApp/PacketTunnel/RoomList.swift:53-54 | every line that begins `olcrtc://` is the location's or another's, and no other line is |
| `RoomList.HeaderIs` | iosApp/PacketTunnel/RoomList.swift:67-74 | a header lists a room exactly when its text is `##`, a name that reads `rooms`, a colon, and a value of which the room is one stretch |
| `RoomList.WantedMeans` | iosApp/PacketTunnel/RoomList.swift:44-48 | white space around key and carrier does not matter, nor does case |
| `RoomList.DecodesEncoded` | iosApp/PacketTunnel/RoomList.swift:138-151 | base64 of a text with a link, standard or url-safe, padded or not, wrapped or not, is read as that text |
| `RoomList.OtherTextStays` | iosApp/PacketTunnel/RoomList.swift:138-143 | fewer than 16 characters, or one that base64 does not have: the text stays |
| `RoomList.DecodedOnce` | iosApp/PacketTunnel/RoomList.swift:138-151 | a text with a link is never touched, what was decoded has one, and decoding again changes nothing |
| `RoomList.ContainsIs` | iosApp/PacketTunnel/RoomList.swift:139-139 | a link mark is found exactly where there is one |
| `Text.SplitIs` | iosApp/PacketTunnel/RoomList.swift:128-132 | splitting gives exactly the stretches between separators |
| `Text.SplitInOrder` | iosApp/PacketTunnel/RoomList.swift:128-132 | the parts are stretches of the text, each behind the one before |
| `RoomList.All` | iosApp/PacketTunnel/RoomList.swift:30-33 | primary first, each room where it first comes, none twice |
| `RoomList.Parse` | iosApp/PacketTunnel/RoomList.swift:44-78 | a result exactly when a line of the decoded body carries the wanted carrier and key, and then the rooms mentioned, in text order, without repeats |
| `RoomList.LastIsNearest` | iosApp/PacketTunnel/RoomList.swift:50-76 | the flag the walk carries says that the nearest olcrtc line before is the location's |
| `RoomList.ParsedIs` | iosApp/PacketTunnel/RoomList.swift:44-78 | a room is in the result exactly when a matching line names it or a `##rooms` header under one lists it; no duplicates; the first matching line's room first |
| `RoomKeeper.Keeper.Begin` | iosApp/PacketTunnel/RoomKeeper.swift:105-119 | everything starts over but a fetch under way |
| `RoomKeeper.Keeper.Refresh` | iosApp/PacketTunnel/RoomKeeper.swift:209-229 | the guards pass exactly when the keeper runs, no fetch is under way, there is a subscription and the last is 15 seconds ago |
| `RoomKeeper.Keeper.OnSessionOpened` | iosApp/PacketTunnel/RoomKeeper.swift:163-177 | a session resets the backoff and refreshes unless it is the first of an initial start |
| `RoomKeeper.Keeper.OnFetched` | iosApp/PacketTunnel/RoomKeeper.swift:231-261 | a failure sets the retry timer, a refusal drops it, anything else leaves it; a list the engine takes is held |
| `RoomKeeper.Keeper.OnRetry` | iosApp/PacketTunnel/RoomKeeper.swift:263-273 | a retry forgets the distance and refreshes |
| `RoomKeeper.RefusalEndsRetries` | iosApp/PacketTunnel/RoomKeeper.swift:231-246 | over runs: after a refusal no retry fires until another fetch has failed |
| `RoomKeeper.FailureSetsARetry` | iosApp/PacketTunnel/RoomKeeper.swift:263-273 | a failure while the keeper runs is retried 30 seconds on and not sooner |
| `RoomKeeper.TimersRun` | iosApp/PacketTunnel/RoomKeeper.swift:122-197 | over runs: once armed, the list is due every 300 seconds and the engine every 3, from the moment of arming |
| `RoomKeeper.SessionAsksExactlyWhen` | iosApp/PacketTunnel/RoomKeeper.swift:163-177 | over runs: a session asks for a refresh exactly when the keeper runs and another session or a restart came before it since the begin |
| `RoomKeeper.Keeper.CheckEngine` | iosApp/PacketTunnel/RoomKeeper.swift:305-316 | a restart is noted exactly when running, the engine is down, rooms are held and the backoff is over |
| `RoomKeeper.Drive` | iosApp/PacketTunnel/RoomKeeper.swift:105-326 | the keeper's methods, driven through whatever can happen, go through a run, and through every run |
| `RoomKeeper.RoomsAreTheLastGiven` | iosApp/PacketTunnel/RoomKeeper.swift:277-297 | in every run the rooms held are those of the last begin, or of the last list the engine took since while the keeper ran |
| `RoomKeeper.FetchesAreBounded` | iosApp/PacketTunnel/RoomKeeper.swift:209-273 | in every run at most one fetch is in flight, and since a begin at most one more than one in ten seconds |
| `RoomKeeper.FetchesAreApart` | iosApp/PacketTunnel/RoomKeeper.swift:27-29 | two fetches of one begin start 15 seconds apart or more unless a retry timer fired after the first |
| `RoomKeeper.RetryComesTooSoon` | iosApp/PacketTunnel/RoomKeeper.swift:263-273 | a run in which a retry starts a fetch 12 seconds after another |
| `RoomKeeper.TooSoonExactlyWhen` | iosApp/PacketTunnel/RoomKeeper.swift:209-273 | in every reachable state, exactly when the next event can start a fetch too soon |
| `RoomKeeper.AttemptCounts` | iosApp/PacketTunnel/RoomKeeper.swift:305-326 | the attempt field counts the restarts since the last session or begin |
| `RoomKeeper.RestartsWait` | iosApp/PacketTunnel/RoomKeeper.swift:36-40 | after the k-th restart without a session every later one waits the k-th backoff or more |
| `RoomKeeper.RestartsGoOn` | iosApp/PacketTunnel/RoomKeeper.swift:305-326 | there are runs of any number of restarts without a session |
| `RoomKeeper.AfterAStop` | iosApp/PacketTunnel/RoomKeeper.swift:129-134 | once the flag is down no refresh passes its guards and no restart is noted until a begin; a request goes out or the engine is launched after it exactly when the queue had passed its last look at the flag, and then as the next thing it does |
| `RoomKeeper.LaunchedAfterTheFlag` | iosApp/PacketTunnel/RoomKeeper.swift:315-326 | a run in which the engine is launched after the flag fell |
| `RoomKeeper.SentAfterTheFlag` | iosApp/PacketTunnel/RoomKeeper.swift:209-229 | a run in which a request goes out after it |

## Left out

- The red-black tree of the DNS cache is a map; its rebalancing is not modelled, and memory allocation succeeds.
- `DnsQuery.ReplyToQuery`: the network address has no host bits and the netmask leaves room for the bound, without which an address does not lead back to its slot; the bound is positive, as its one caller passes it.
- `MappedDns.Cache.Lookup`: like the code, it does not ask whether an address is inside the network at all.
- `MappedDns.NewCache`: a negative bound, for which the allocation fails, is not modelled.
- `MappedDns.Cache.Find` requires a positive bound: with none the code frees the node it has just made and goes on using it.
- `MappedDns.Cache.Handle` requires a message of at least a header and one readable byte behind it, since the code reads a length byte before it tests for the end.
- `TcpSplice.Session.Sent` requires that the peer acknowledges no more than was handed over; lwIP, packet buffers and the task scheduler are environment.
- `ConnectMachine`, `TunnelDaemon`: machines over the interleaved steps of all threads, on values: update in place within one step is not captured, and each kernel call is one step.
- `RouteManager`: a netlink call is refused only for a rule that exists or is not there, or for what the host is said to refuse; a list of rules or routes can always be read.
- `RouteManager.SwitchChangesNothingDecided`: table 2023 is taken to be the switch's own, so that no rule below it looks there.
- `LineList.EntryId`: a truncated digest is taken to be injective in list, label and ordinal, and list URLs to be distinct.
- `LineSelection.SelectionStaysInItsList` assumes a line remembered together with its list; selections stored by versions that kept no list are outside it.
- `Text`, `LineList`, `RoomList`: characters are ASCII; Unicode folding and white space are not modelled.
- `GateMerge.Merge` leaves out the order of the merged cells, the reasons for a rejection, times, the runner, the report of a skipped release and the markdown; JSON numbers are integers.
- `TunnelDaemon` takes a child that was killed to be dead at once and one of a daemon that was killed itself to have gone with it; it leaves out the line child, code signatures and files, a restore of the resolver key that fails, and the packet filter being flushed by somebody else; the parsing of a hold request is not modelled.
- `PacketFilter` takes pf's reading of a rule (first match among quick rules, `flags S/SA keep state` by default, passed when nothing matches) as its semantics and models rules as values, not as text; other anchors are empty.
- `InternetChecksum`: resolving a host, sockets and timeouts are not modelled.
- `Crypt1`: AES, SHA-256, HMAC and base64 are parameters; the cipher is a permutation for every key, tags have 32 bytes, and the random IV is an argument.
- `RoomList.Parse`: the base64 decoder is a parameter.
- `RoomKeeper` leaves out what is remembered of the rooms between starts, and takes the clock to be monotone.
- Tunnel drivers, JNI, configuration files, sing-box and Xray configuration, share links, fetching and header texts, logs and scrubbing, the user interfaces and the store scripts are not part of this model: they build shapes over libraries or move bytes, with no invariant of their own.
