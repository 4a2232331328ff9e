# What the event logger promises, modelled and proved

The event logger watches Linux processes. BPF programs stash what a system call was given when it
enters, complete the record when it exits and put it into a ring buffer; userspace decodes the bytes,
resolves the acting process in a registry of process entities, and appends one JSON object per event
to a file that is started anew when it would grow past a limit. This project models those parts and
proves what they promise over every input and every run.

- **Registry** (`RegistryModel`, `RegistryInvariants`, `RegistryRuns`, `RegistryLineage`, `RegistryEvents`,
  `RegistryFields`, and the class in `EntityRegistry`): who a process id means, when an identity ends, what is kept of the dead, who is evicted.
- **Kernel side** (`KernelModel`, `KernelCapture`, `KernelPairing`, `KernelSockets`, `KernelRecords`,
  `KernelGates`, `KernelFlows`, `KernelConservation`, `BpfStats`, and the class in `KernelHandlers`): many tasks
  interleaving over three correlation maps, the descriptor map, the ring buffer and per-CPU counters.
- **Small hard functions**: the flow identifier (`FlowId`, `NetworkFlow`), socket addresses in user memory
  (`Sockaddr`), the `/proc` text helpers (`ProcUtil`), the binary records and their decoder (`WireFormat`, `Decoder`).
- **Sink**: escaping (`JsonText`), JSON values and a reader of RFC 8259 sections 4, 6 and 7 (`JsonValue`), the
  members of a record and its reader (`JsonRecord`, `JsonContents`), the serializer (`JsonPrinter`), rotation and flushing
  (`SinkModel`, `SinkRuns`, and the class in `JsonSink`).
- **`Pipeline`** puts kernel side, decoder, registry (through `Normalizer`) and sink together: the file reads back as
  the submitted records that were let through, in order, and its entity ids tell processes apart.

Where the program updates state, a class has its fields, and each method is tied to a function on values.
The properties of whole runs are lemmas about those functions. What the environment decides is an input of
each step: `/proc` contents, the order of a hash-map scan, ring space, map failures and evictions, user
memory, clock readings, whether a file can be opened. `notes`, `trace`, `kept`, `accepted`, `base`, `untracked` and
`durable` are history variables the program does not have. Bytes of text are modelled as characters, a
character array by the C string it holds.

## What turned out not to hold

- **Lineage is not well-founded by itself.** A start event may name as child a task that is already live, has
  no parent yet and is not younger than the actor; `ResolveChild` then makes a cycle possible
  (`RegistryLineage.SelfStartIsOwnParent`). Parents are older ids throughout a run exactly when no event does that
  (`RegistryLineage.LineageIsWellFoundedIff`).
- **An exit does not always complete its own enter.** The first enter is kept and a second counted as a
  collision (`KernelPairing.NestedEnterKeepsFirst`), and an enter that the descriptor gate drops is passed over
  (`KernelSockets.GatedEnterIsPassedOver`). A submitted record completes the last enter of its task and kind exactly
  when that enter was saved (`KernelPairing.PairsWithLastEnterIff`); tasks that make one call at a time always get
  that (`KernelPairing.ExactPairing`).
- **The `ret` field keeps 32 bits of a 64-bit result, so the stream can misjudge it.** A socket() that returned 2^31
  is stored as a descriptor and recorded as a failure (`KernelSockets.SignLostRun`), and a read of it then passes the
  gate (`KernelSockets.HiddenSocketPassesGate`); a close that failed with -2^32 keeps the descriptor and is recorded
  as a success (`KernelSockets.HiddenFailureRun`). Linux returns neither. A kind of exit is safe exactly when the sign
  of its result survives or does not matter (`KernelSockets.RecordKeepsAccountIff`). Over a whole run the descriptor
  map stays within the stream's account exactly when no record of that kind is submitted
  (`KernelSockets.SocketSetIsAccountedFor`), and equals it exactly when besides no announced descriptor failed to be
  stored or read back (`KernelSockets.SocketSetIsExact`).
- **The flow id of getsockname is not that of the printed fields**: it is computed before the local address is
  parsed. It fits them exactly if the port and the first four address bytes cancel
  (`KernelFlows.PrintedFlowIdIff`); for every other call it always fits.
- **Flow ids collide when a descriptor and a remote port trade places**
  (`FlowId.SwappedFdAndPortCollide`), and for kinds equal modulo 2^16. A single differing
  descriptor or port always shows (`NetworkFlow.OneFieldShows`).
- **An abstract UNIX name and the pathname `@` plus that name give the same snapshot**
  (`Sockaddr.SnapshotsCoincideIff`).
- **A newcomer can be its own eviction victim** when the registry is full and nothing in it is older
  (`RegistryRuns.NewcomerIsSafeIff`).
- docs/setup.md:120 and src/sinks/json_sink.h:27-28 say the file is restarted when its size reaches the limit. The
  code restarts it only when the next record would exceed the limit; the model follows the code
  (`SinkModel.RotatesIff`).
- src/decoder/decoder.cpp:18 names two reasons to reject a payload. The code also rejects a declared size that is
  not the size of the declared type (`Decoder.DecodeAcceptsIff`).

## Model

| member | source | states |
|---|---|---|
| `RegistryRuns.StableIdentity` | src/registry/entity_registry.cpp:117-235 | two events of a run, however far apart, get one subject id exactly when they name the same key and no exit, reuse or eviction retired that entity between the two resolutions |
| `RegistryRuns.IndexIsExact` | src/registry/entity_registry.cpp:102-204 | in every reachable registry a key is indexed to an id exactly when that id is retained, not exited and has the key; one live entity per key, and no dangling index entry |
| `RegistryRuns.HistoryIsFrozen` | src/registry/entity_registry.cpp:147-177 | between any two points of a run keys do not change, start time and parent change at most once and from 0, exited entities keep every field, evicted ids never return |
| `RegistryRuns.RetainedIsBounded` | src/registry/entity_registry.cpp:186-204 | at most 8192 entities are retained after every event of every run |
| `RegistryRuns.ParticipantsSurvive` | src/registry/entity_registry.cpp:206-235 | with two entities last seen before the event, neither its subject nor its child is evicted, and the subject's process context is handed on |
| `RegistryRuns.NewcomerIsSafeIff` | src/registry/entity_registry.cpp:102-115 | a new entity survives every scan order exactly when there is room or something older |
| `RegistryRuns.EventIsNoted` | src/registry/entity_registry.cpp:206-212 | each event with a nonzero key leaves its own resolution in the history, between the states before and after it |
| `RegistryRuns.IngestKeepsBound` | src/registry/entity_registry.cpp:206-235 | one event, which may create two entities, keeps the bound |
| `RegistryRuns.ResolveEvolves` | src/registry/entity_registry.cpp:117-145 | resolution changes no key, no exited entity and no set start time or parent, and yields an id that is live if retained |
| `RegistryRuns.RunIsGood` | src/registry/entity_registry.cpp:206-235 | numbering, index, history and the identity law hold in every reachable registry |
| `RegistryInvariants.IngestKeepsGood` | src/registry/entity_registry.cpp:206-235 | every event keeps the registry invariant |
| `RegistryInvariants.LawSurvivesResolution` | src/registry/entity_registry.cpp:117-145 | resolving a live entity, or one without history, keeps the identity law over all earlier resolutions |
| `RegistryInvariants.MarkExitedKeepsGood` | src/registry/entity_registry.cpp:166-184 | retiring an entity clears its index entry and nothing else's |
| `RegistryInvariants.EvictKeepsGood` | src/registry/entity_registry.cpp:186-204 | eviction keeps both maps in agreement |
| `RegistryInvariants.AddKeepsGood` | src/registry/entity_registry.cpp:102-112 | a new entity under an unindexed key is live under that key and disturbs no other |
| `RegistryEvents.LiveKeyChangesHandsIff` | src/registry/entity_registry.cpp:83-145 | a live key gets another entity exactly when a start time is known, 500 ms have passed since the last check and `/proc` shows a different readable one; the old entity is then exited at that moment or evicted |
| `RegistryEvents.ExitEventRetires` | src/registry/entity_registry.cpp:206-215 | after an exit event the key is free and the subject, if retained, holds exit time and code |
| `RegistryEvents.StartEventNamesChild` | src/registry/entity_registry.cpp:147-164 | a start event names the child's live entity, which gets the actor as parent if it has none |
| `RegistryEvents.SubjectShowsActor` | src/registry/entity_registry.cpp:206-235 | the context handed on shows the event's own actor and time, and an exec path if the event brought one, unless the event starts a child under the actor's key |
| `RegistryEvents.OthersAreLeftAlone` | src/registry/entity_registry.cpp:117-145 | resolving one key changes nothing about a live entity of another key, short of evicting it |
| `RegistryFields.ExecEventRefreshes` | src/registry/entity_registry.cpp:43-79 | after an exec event the subject's path, directory and command line are what `/proc` showed wherever that is not empty, its names and start time are filled only while unknown |
| `RegistryFields.OtherEventsKeepFields` | src/registry/entity_registry.cpp:117-136 | any other event of a known subject changes none of those fields, but that a path hint fills an empty path |
| `RegistryFields.ChildFields` | src/registry/entity_registry.cpp:147-164 | a child named by a start event is looked up in `/proc`, and shows its number and its parent's key, with zero uid and gid |
| `RegistryFields.SubjectFields` | src/registry/entity_registry.cpp:206-235 | the subject after an event is what resolution made of it, but for the exit mark and the hint |
| `RegistryFields.ResolvedFields` | src/registry/entity_registry.cpp:102-145 | who acted and when, which fields `/proc` filled or replaced, when the entity was first seen and last checked |
| `RegistryFields.ThreadsShareTheirEntity` | src/registry/entity_registry.cpp:119-136 | whichever thread of a group acts, the group's live entity is resolved; without a group the task's own number counts |
| `RegistryFields.NobodyEvictedWhileRoom` | src/registry/entity_registry.cpp:186-189 | with at most 8190 entities retained an event evicts nobody |
| `RegistryFields.NobodyResolvesToNothing` | src/registry/entity_registry.cpp:119-122 | an event without pid and tgid resolves nothing |
| `RegistryLineage.LineageIsWellFoundedIff` | src/registry/entity_registry.cpp:147-164 | every recorded parent is an older id throughout a run exactly when no start event names a live, parentless child that is not younger than its actor |
| `RegistryLineage.NoAncestorCycle` | src/registry/entity_registry.cpp:147-164 | then following parents leads to ever smaller ids |
| `RegistryLineage.SelfStartIsOwnParent` | src/registry/entity_registry.cpp:216-220 | one event that reports a task as its own child makes it its own parent |
| `RegistryLineage.AdoptDescends` | src/registry/entity_registry.cpp:158-162 | a write-once parent keeps the order unless the child is parentless and not younger |
| `RegistryLineage.ChecksAreThrottled` | src/registry/entity_registry.cpp:83-100 | on a clock that never goes back, identity checks times 500 ms fit between an entity's first sighting and its last check |
| `EntityRegistries.EntityRegistry.constructor` | src/registry/entity_registry.h:62-103 | a new registry is empty |
| `EntityRegistries.EntityRegistry.IngestEvent` | src/registry/entity_registry.cpp:206-235 | both maps, the counter and the answer are those of one step, whatever the scan picks among its legal victims, and the invariant holds again |
| `EntityRegistries.EntityRegistry.ResolveActor` | src/registry/entity_registry.cpp:117-145 | the whole state after resolving an actor |
| `EntityRegistries.EntityRegistry.ResolveChildProcess` | src/registry/entity_registry.cpp:147-164 | the whole state after resolving and adopting a child |
| `EntityRegistries.EntityRegistry.CreateProcess` | src/registry/entity_registry.cpp:102-115 | the whole state after creation and the eviction it may cause |
| `EntityRegistries.EntityRegistry.EvictOldestIfNeeded` | src/registry/entity_registry.cpp:186-204 | a scan in any order finds an entity nothing was seen before, and evicts just that one |
| `EntityRegistries.EntityRegistry.CheckReused` | src/registry/entity_registry.cpp:83-100 | when `/proc` is consulted, what the answer is, and that only the check time changes |
| `EntityRegistries.EntityRegistry.MarkProcessExited` | src/registry/entity_registry.cpp:166-177 | the whole state after an exit |
| `EntityRegistries.EntityRegistry.RetireIndexEntry` | src/registry/entity_registry.cpp:179-184 | only an entry that points to the id is removed |
| `EntityRegistries.EntityRegistry.FindById` | src/registry/entity_registry.cpp:237-240 | the entity retained under an id, or none |
| `EntityRegistries.RefreshFields` | src/registry/entity_registry.cpp:43-79 | which fields a refresh replaces and which it keeps |
| `EntityRegistries.ExecShowsProc` | src/registry/entity_registry.cpp:43-61 | after an exec event the subject shows what the links and the command line of `/proc` held, where they held anything |
| `EntityRegistries.FactsAreTexts` | src/registry/entity_registry.cpp:43-79 | which link or file each fact is read from |
| `ProcUtil.StartTimeIsField22` | src/util/proc_util.cpp:60-82 | for any comm, blanks and parentheses included, the parser returns field 22 of the formatted line, 0 if there is none |
| `ProcUtil.StoullOfDecimal` | src/util/proc_util.cpp:60-82 | a 64-bit number the kernel printed reads back as itself |
| `ProcUtil.ParseStartTimeTicks` | src/util/proc_util.cpp:60-82 | the search and the token loop compute the specified value |
| `ProcUtil.NthTokenOfFields` | src/util/proc_util.cpp:66-80 | tokenising formatted fields gives each of them back |
| `ProcUtil.TrimRightIsUnique` | src/util/proc_util.cpp:36-58 | trimming gives the one prefix that ends in a kept character and leaves only dropped ones |
| `ProcUtil.NormalizeCmdline` | src/util/proc_util.cpp:36-49 | NULs become blanks, trailing blanks go |
| `ProcUtil.RStrip` | src/util/proc_util.cpp:51-58 | the trailing line feeds, carriage returns and blanks go, nothing else |
| `ProcUtil.NormalizedIs` | src/util/proc_util.cpp:36-49 | the command line is the one text that agrees with the raw bytes, NULs as blanks, up to the last byte that is neither |
| `ProcUtil.StrippedIs` | src/util/proc_util.cpp:51-58 | what is left ends in a character other than line feed, carriage return and blank, and only those follow |
| `KernelPairing.ExactPairing` | bpf/event_logger_common.bpf.h:886-1135 | if a task's calls of one kind enter and exit in turn, each submitted record completes the last of its enters, calls dropped by a gate included, and no enter finds its slot taken, whatever evictions and failures occur |
| `KernelPairing.PairsWithLastEnterIff` | bpf/event_logger_common.bpf.h:886-1135 | a submitted record completes its task's last enter of that kind exactly when that enter was saved |
| `KernelPairing.PendingIsStashed` | bpf/event_logger_common.bpf.h:886-1004 | at every moment the stash of a key is that of one enter step which was saved and not cleared since |
| `KernelPairing.SubmittedRecord` | bpf/event_logger_common.bpf.h:956-1135 | the record an exit submits is the completion of the payload of that step, with this exit's result |
| `KernelPairing.PairsWithLastObservedIff` | bpf/event_logger_common.bpf.h:886-1135 | among the enters that got past their gates, it completes the last one exactly when that one was saved |
| `KernelPairing.RunKeepsHistory` | bpf/event_logger_common.bpf.h:886-1135 | in every run what is pending is the earliest unrefused enter since the key was last cleared; each submitted record completes such an enter; misses and collisions are exactly those |
| `KernelPairing.PairingOfHistory` | bpf/event_logger_common.bpf.h:956-1004 | alternation of the enters that got past their gates is enough to pair with the last of those |
| `KernelPairing.NestedEnterKeepsFirst` | bpf/event_logger_common.bpf.h:890-904 | two enters and one exit: the exit completes the first |
| `KernelSockets.SocketSetIsAccountedFor` | bpf/event_logger_common.bpf.h:1006-1078 | throughout a run every known descriptor is one that replaying the submitted records finds open, exactly when no submitted record hides a success that stored an unknown descriptor or a failure to close a known one |
| `KernelSockets.RecordKeepsAccountIff` | bpf/event_logger_common.bpf.h:1043-1078 | an exit keeps every map within every account exactly when the sign of its result survives the 32-bit field, or it stores nothing and is no failed close |
| `KernelSockets.SubmitAgreesIff` | bpf/event_logger_common.bpf.h:1043-1078 | the same for one map and one account, and for their equality |
| `KernelSockets.KeptSignsKeepAccount` | bpf/event_logger_common.bpf.h:1043-1078 | a step whose sign survives where it matters breaks no account; every result within 32 bits is one |
| `KernelSockets.SocketSetIsExact` | bpf/event_logger_common.bpf.h:1006-1078 | the two sets are equal throughout exactly when besides that no record announces an unknown descriptor that was not stored or not read back, and none hides a close of a known one |
| `KernelSockets.ReplayIsOpen` | bpf/event_logger_common.bpf.h:1051-1078 | replaying finds exactly the descriptors created and not closed since |
| `KernelSockets.GatedRecordsFollowCreation` | bpf/event_logger_network.bpf.c:607-924 | every read, write, readv, writev, sendmmsg, recvmmsg or close record follows a creation of its descriptor by its process, with no successful close between that and the operation's enter |
| `KernelSockets.FinishKeepsEnterFields` | bpf/event_logger_common.bpf.h:1033-1135 | a network record is its enter-time snapshot with this exit's result and time, and only the fields its kind learns at a successful exit replaced |
| `KernelSockets.GateAdmitsOpenIff` | bpf/event_logger_common.bpf.h:1023-1031 | the descriptor gate lets through only what the stream shows open exactly while the map is accounted for |
| `KernelSockets.SignLostRun` | bpf/event_logger_common.bpf.h:1045-1051 | a run in which socket() returns 2^31 ends with a known descriptor that no record announced |
| `KernelSockets.HiddenSocketPassesGate` | bpf/event_logger_network.bpf.c:607-637 | a read of it is then recorded |
| `KernelSockets.HiddenFailureRun` | bpf/event_logger_common.bpf.h:1074-1076 | a run in which close fails with -2^32 ends with a known descriptor that the stream says is closed |
| `KernelSockets.GatedEnterIsPassedOver` | bpf/event_logger_network.bpf.c:607-645 | the exit of a read that the gate dropped completes the read before it, of another descriptor |
| `KernelRecords.ExitCountsBytes` | bpf/event_logger_common.bpf.h:1089-1100 | the result of the eight single transfers is their byte count, the two vector calls take the sum read back |
| `KernelRecords.ExitParsesAddress` | bpf/event_logger_common.bpf.h:1080-1087 | which successful calls parse an address at exit, and into which end |
| `KernelRecords.ExitReadsOption` | bpf/event_logger_common.bpf.h:1113-1124 | a successful getsockopt records the length read back and, if positive, the bytes |
| `KernelRecords.ExitLearnsDescriptors` | bpf/event_logger_common.bpf.h:1048-1078 | which descriptors each kind learns from its result or its pair |
| `KernelRecords.ExitStoresDescriptors` | bpf/event_logger_common.bpf.h:1006-1078 | which descriptors become known sockets, and which stop being one |
| `KernelRecords.SocketRecord` | bpf/event_logger_network.bpf.c:12-47 | the whole socket record: domain, type and protocol, the new descriptor, and the transport it is printed as |
| `KernelRecords.SocketpairRecord` | bpf/event_logger_network.bpf.c:50-86 | the whole socketpair record: domain, type and protocol, both ends, and the transport |
| `KernelRecords.ConnectRecord` | bpf/event_logger_network.bpf.c:89-125 | the whole connect record: the descriptor and the parsed remote address; outbound |
| `KernelRecords.BindRecord` | bpf/event_logger_network.bpf.c:128-164 | the whole bind record: the descriptor and the parsed local address |
| `KernelRecords.AcceptRecord` | bpf/event_logger_network.bpf.c:167-201 | the whole accept record: the listening and the accepted descriptor, and the peer's address; inbound |
| `KernelRecords.Accept4Record` | bpf/event_logger_network.bpf.c:204-239 | the whole accept4 record: the same, with the flags |
| `KernelRecords.ListenRecord` | bpf/event_logger_network.bpf.c:242-274 | the whole listen record: the descriptor and the backlog |
| `KernelRecords.GetsocknameRecord` | bpf/event_logger_network.bpf.c:277-310 | the whole getsockname record: the descriptor and the local address read back |
| `KernelRecords.GetpeernameRecord` | bpf/event_logger_network.bpf.c:313-346 | the whole getpeername record: the descriptor and the remote address read back |
| `KernelRecords.SetsockoptRecord` | bpf/event_logger_network.bpf.c:349-385 | the whole setsockopt record: level, name, length and the first option bytes |
| `KernelRecords.GetsockoptRecord` | bpf/event_logger_network.bpf.c:388-428 | the whole getsockopt record: level and name, the length asked for or read back, and the bytes read back |
| `KernelRecords.SendtoRecord` | bpf/event_logger_network.bpf.c:431-469 | the whole sendto record: flags, bytes asked and moved, and the remote address; outbound |
| `KernelRecords.SendmsgRecord` | bpf/event_logger_network.bpf.c:472-517 | the whole sendmsg record: flags, vector bytes and bytes moved, and the remote address if the message names one; outbound |
| `KernelRecords.RecvfromRecord` | bpf/event_logger_network.bpf.c:520-556 | the whole recvfrom record: flags, bytes asked and moved, and the remote address read back; inbound |
| `KernelRecords.RecvmsgRecord` | bpf/event_logger_network.bpf.c:559-604 | the whole recvmsg record: flags, vector bytes and bytes moved, and the address the message names; inbound |
| `KernelRecords.ReadRecord` | bpf/event_logger_network.bpf.c:607-644 | the whole read record: bytes asked and moved; inbound |
| `KernelRecords.WriteRecord` | bpf/event_logger_network.bpf.c:647-684 | the whole write record: bytes asked and moved; outbound |
| `KernelRecords.ReadvRecord` | bpf/event_logger_network.bpf.c:687-725 | the whole readv record: vector bytes and bytes moved; inbound |
| `KernelRecords.WritevRecord` | bpf/event_logger_network.bpf.c:728-766 | the whole writev record: vector bytes and bytes moved; outbound |
| `KernelRecords.SendmmsgRecord` | bpf/event_logger_network.bpf.c:769-810 | the whole sendmmsg record: flags, bytes asked and the sum read back; outbound |
| `KernelRecords.RecvmmsgRecord` | bpf/event_logger_network.bpf.c:813-854 | the whole recvmmsg record: flags, bytes asked and the sum read back; inbound |
| `KernelRecords.ShutdownRecord` | bpf/event_logger_network.bpf.c:857-889 | the whole shutdown record: the descriptor and how |
| `KernelRecords.CloseRecord` | bpf/event_logger_network.bpf.c:892-928 | the whole close record: the descriptor |
| `KernelRecords.FileRecords` | bpf/event_logger_file.bpf.c:12-102 | the whole record of each file call: arguments, paths and result |
| `KernelRecords.SyscallRecordShows` | bpf/event_logger_syscall.bpf.c:16-58 | the whole system-call record: number, three arguments, 64-bit result, marked as an exit |
| `KernelRecords.ProcessRecords` | bpf/event_logger_process.bpf.c:11-138 | the whole record of each process tracepoint |
| `KernelRecords.StashedCallIsSubmitted` | bpf/event_logger_common.bpf.h:956-1135 | an exit that completes a call's stash appends just that record to the stream |
| `KernelGates.StreamIsWanted` | bpf/event_logger_common.bpf.h:310-403 | nothing of the suppressed process and nothing of a disabled kind ever enters the stream |
| `KernelGates.CallIsRecordedIff` | bpf/event_logger_common.bpf.h:310-403 | with room and nothing stashed, enter and exit of a call add its record exactly when it is wanted, and otherwise nothing |
| `KernelGates.EnterStashesIff` | bpf/event_logger_common.bpf.h:890-950 | what has to go right for an enter to leave a stash |
| `KernelGates.ProcessIsRecordedIff` | bpf/event_logger_process.bpf.c:11-138 | a process event is recorded exactly when it is wanted and there is room |
| `KernelConservation.SavedEntersAreAccountedFor` | bpf/event_logger_common.bpf.h:890-1135 | per family, saved enters are pending, submitted, dropped for want of ring space or evicted |
| `KernelConservation.ExitsAreAccountedFor` | bpf/event_logger_common.bpf.h:956-1135 | each gated exit is submitted, a counted miss or a counted failed reservation |
| `KernelConservation.RingRecordsBalance` | bpf/event_logger_common.bpf.h:758-860 | reserved records are submitted plus discarded ones |
| `KernelConservation.FamilyCountersMean` | bpf/event_logger_common.bpf.h:60-71 | which outcomes each family's three counters add up |
| `KernelConservation.RingCounterMeans` | bpf/event_logger_common.bpf.h:758-830 | the shared counter adds up every failed reservation |
| `KernelConservation.BooksClose` | bpf/event_logger_common.bpf.h:890-1135 | saved enters and misses balance pending, evicted and exits |
| `BpfStats.TotalIsExact` | bpf/event_logger_common.bpf.h:302-307 | however increments are spread over CPUs, the total is their number modulo 2^64 |
| `BpfStats.AddUp` | src/collector/collector_libbpf.cpp:535-539 | the loop adds the per-CPU values modulo 2^64 |
| `BpfStats.BooksStayRight` | bpf/event_logger_common.bpf.h:302-307 | a handler run entered in the books keeps counters and ring records right |
| `BpfStats.ReportReadsKeys` | src/collector/collector_libbpf.cpp:839-885 | the ten keys, read in order, are the outcomes the report's fields are named after |
| `BpfStats.OverwrittenOne` | src/collector/collector_libbpf.cpp:849-883 | reading one more key overwrites its own field with the count it stands for |
| `BpfStats.ReportedBooksClose` | src/collector/collector_libbpf.cpp:839-885 | the misses userspace reports close each family's books |
| `KernelHandlers.KernelSide.OnFileEnter` | bpf/event_logger_file.bpf.c:12-72 | the whole state after a file enter is that of one step, with right books |
| `KernelHandlers.KernelSide.OnSyscallEnter` | bpf/event_logger_syscall.bpf.c:16-45 | the same for the raw system-call enter |
| `KernelHandlers.KernelSide.OnNetworkEnter` | bpf/event_logger_network.bpf.c:12-920 | the same for network enters, descriptor gate and scratch failure included |
| `KernelHandlers.KernelSide.OnFileExit` | bpf/event_logger_file.bpf.c:76-102 | the same for file exits |
| `KernelHandlers.KernelSide.OnSyscallExit` | bpf/event_logger_syscall.bpf.c:47-58 | the same for the raw system-call exit |
| `KernelHandlers.KernelSide.OnNetworkExit` | bpf/event_logger_network.bpf.c:40-928 | the same for network exits |
| `KernelHandlers.KernelSide.OnProcessEvent` | bpf/event_logger_process.bpf.c:11-138 | the same for the six process tracepoints: which field each of them fills, and when a clone names its child |
| `KernelHandlers.KernelSide.FilledProcessEvent` | bpf/event_logger_process.bpf.c:11-138 | the record each of them fills in |
| `KernelHandlers.KernelSide.SaveFileEnterState` | bpf/event_logger_common.bpf.h:890-908 | the first enter is kept, failures are counted, the record is discarded on every path |
| `KernelHandlers.KernelSide.SaveSyscallEnterState` | bpf/event_logger_common.bpf.h:910-927 | the same for system calls |
| `KernelHandlers.KernelSide.SaveNetworkEnterState` | bpf/event_logger_common.bpf.h:929-950 | the same for network calls |
| `KernelHandlers.KernelSide.EmitFileExitEvent` | bpf/event_logger_common.bpf.h:956-980 | miss, failed reservation or submission; the entry is cleared on each |
| `KernelHandlers.KernelSide.EmitSyscallExitEvent` | bpf/event_logger_common.bpf.h:982-1004 | the same for system calls |
| `KernelHandlers.KernelSide.EmitNetworkExitEvent` | bpf/event_logger_common.bpf.h:1033-1135 | the same for network calls, with the descriptor map |
| `KernelHandlers.KernelSide.ReadPerCpuCounter` | src/collector/collector_libbpf.cpp:521-542 | the reported total is the number of handler runs counted under the key, modulo 2^64 |
| `KernelHandlers.KernelSide.ReadKernelBpfStats` | src/collector/collector_libbpf.cpp:839-885 | every field read is the number of outcomes it is named after; when a lookup fails, the fields before it are overwritten, the others keep their values, and it says so |
| `FlowId.HashFoldIsPermutation` | bpf/event_logger_common.bpf.h:510-517 | the mixer has an explicit two-sided inverse on all 64-bit values |
| `FlowId.XorShiftIsInvolution` | bpf/event_logger_common.bpf.h:511-515 | the xor-shift by 33 undoes itself |
| `FlowId.MultipliersInvert` | bpf/event_logger_common.bpf.h:512-514 | both odd multipliers have inverses modulo 2^64 |
| `FlowId.KnownAnswers` | bpf/event_logger_common.bpf.h:510-539 | known values of the MurmurHash3 finalizer, and of a flow id with all fields set |
| `FlowId.FlowIdsCollideIff` | bpf/event_logger_common.bpf.h:519-539 | flow ids collide exactly where the xor of the shifted fields does |
| `FlowId.OneFieldDecides` | bpf/event_logger_common.bpf.h:519-539 | records that differ in one descriptor or port never share a flow id; those that differ in the kind do exactly if it is equal modulo 2^16 |
| `FlowId.SwappedFdAndPortCollide` | bpf/event_logger_common.bpf.h:519-539 | a descriptor and a remote port that trade places give the same flow id |
| `NetworkFlow.OneFieldShows` | bpf/event_logger_common.bpf.h:519-539 | two records of one task that differ in one descriptor or port have different flow ids |
| `NetworkFlow.KindShows` | bpf/event_logger_common.bpf.h:519-523 | for the kind exactly when it differs modulo 2^16 |
| `NetworkFlow.LocalShowsIff` | bpf/event_logger_common.bpf.h:525-532 | replacing the local endpoint keeps the id exactly when port xor first address word stays the same |
| `NetworkFlow.FirstWordIs` | bpf/event_logger_common.bpf.h:527-536 | the address word is the first four bytes, least significant first, and 0 for shorter addresses |
| `KernelFlows.FlowIdMixesEnterLocal` | bpf/event_logger_common.bpf.h:1097-1107 | a submitted id mixes the record as submitted, but with the local address of the enter |
| `KernelFlows.PrintedFlowIdIff` | bpf/event_logger_common.bpf.h:1097-1107 | it mixes the printed fields for every call but getsockname, and there exactly if port and first address word cancel |
| `Sockaddr.NetworkEndpoint.CopyUnixSockaddrPath` | bpf/event_logger_common.bpf.h:542-600 | for every buffer and length the whole field after the copy, all writes inside its 108 bytes |
| `Sockaddr.NetworkEndpoint.CopyAbstractName` | bpf/event_logger_common.bpf.h:549-581 | the abstract branch: unnamed addresses leave the field alone, others give '@', the name and a NUL |
| `Sockaddr.NetworkEndpoint.CopyPathname` | bpf/event_logger_common.bpf.h:583-599 | the pathname branch, with a NUL at the length or at byte 107 |
| `Sockaddr.CopySpellsTheName` | bpf/event_logger_common.bpf.h:542-600 | over a reset field the C string left is nothing, '@' and the abstract name, or the path cut at the first NUL, the length or 107 bytes |
| `Sockaddr.CopyKeepsTermination` | bpf/event_logger_common.bpf.h:542-600 | a terminated field stays terminated |
| `Sockaddr.FittingNamesAreShownInFull` | bpf/event_logger_common.bpf.h:542-600 | a name that has room is shown in full, with or without its NUL counted |
| `Sockaddr.SnapshotsCoincideIff` | bpf/event_logger_common.bpf.h:542-600 | two such addresses look alike exactly if they are equal or one is abstract and the other '@' plus its name |
| `Sockaddr.CStringIsUnique` | bpf/event_logger_common.bpf.h:542-600 | a C string is the one NUL-free prefix followed by a NUL or the end |
| `Sockaddr.NetworkEndpoint.ParseSockaddrUser` | bpf/event_logger_common.bpf.h:677-727 | the snapshot for every address, length, failed read and rewritten memory |
| `Sockaddr.NetworkEndpoint.Reset` | bpf/event_logger_common.bpf.h:457-470 | the snapshot is blank, whatever was behind the path's first byte |
| `Sockaddr.SnapshotIsWellFormed` | bpf/event_logger_common.bpf.h:677-727 | every snapshot has a terminated path, 0, 4 or 16 address bytes with zeros behind them, and never both |
| `Sockaddr.InternetRoundTrip` | bpf/event_logger_common.bpf.h:698-716 | IPv4 and IPv6 addresses come through byte for byte, the port in host order |
| `Sockaddr.UnixRoundTrip` | bpf/event_logger_common.bpf.h:717-725 | UNIX addresses come through: family and shown name, with or without the NUL counted, whatever follows in memory |
| `Sockaddr.LongPathsAreCut` | bpf/event_logger_common.bpf.h:583-599 | a path that fills the field is cut to 107 bytes, however long the caller says it is |
| `Sockaddr.UnreadableAddresses` | bpf/event_logger_common.bpf.h:685-727 | without pointer, family, structure or enough length only what was read is shown |
| `WireFormat.ImageHolds` | include/event_schema.h:107-212 | filling laid-out fields into any memory leaves each of them readable at its place |
| `WireFormat.IntegerReadsBack` | include/event_schema.h:107-212 | integers survive little-endian bytes |
| `WireFormat.TextReadsBack` | include/event_schema.h:107-212 | an array that begins with a C string reads as that string, whatever is behind its NUL |
| `Decoder.LayoutFollowsC` | include/event_schema.h:107-212 | the offsets used are those of C's alignment rules, up to each struct's size |
| `Decoder.DecodeAcceptsIff` | src/decoder/decoder.cpp:20-60 | bytes are accepted exactly when they hold a header whose declared size is that of its type and is all there |
| `Decoder.DecodeInvertsEncodeIff` | src/decoder/decoder.cpp:20-60 | decoding gives the laid-out record back, whatever the memory held before and whatever follows, exactly when its header is right |
| `Decoder.NumbersAt` | include/event_schema.h:107-212 | numbers are read least significant byte first, signed ones in two's complement |
| `Decoder.HeaderIsAt` | include/event_schema.h:107-117 | at which offset each header field is read |
| `Decoder.ProcessIsAt` | include/event_schema.h:122-133 | the same for a process event |
| `Decoder.FileIsAt` | include/event_schema.h:141-150 | the same for a file event |
| `Decoder.SyscallIsAt` | include/event_schema.h:155-163 | the same for a system-call event |
| `Decoder.NetworkIsAt` | include/event_schema.h:171-212 | the same for a network event and its two endpoints |
| `JsonText.EscapeReadsBack` | src/sinks/json_sink.cpp:180-218 | an RFC 8259 reader gets every byte string back from its escaped form |
| `JsonText.EscapeIsStringBody` | src/sinks/json_sink.cpp:180-218 | escaped text follows the grammar of section 7: no byte below 0x20, no bare quote or backslash |
| `JsonText.JsonEscape` | src/sinks/json_sink.cpp:180-218 | the string overload computes the escaped form of the whole string |
| `JsonText.JsonEscapeCString` | src/sinks/json_sink.cpp:135-178 | the C-string overload is the string overload up to the first NUL; null gives nothing |
| `JsonText.BytesToHex` | src/sinks/json_sink.cpp:223-237 | the loop renders the first bytes; null gives nothing |
| `JsonText.HexReadsBack` | src/sinks/json_sink.cpp:223-237 | two digits a byte, and a reader gets the bytes back |
| `JsonValue.RenderReadsBack` | src/sinks/json_sink.cpp:242-360 | the reader recovers every value from its text and nothing of what follows |
| `JsonValue.RenderIsPrintable` | src/sinks/json_sink.cpp:242-360 | no value's text holds a control byte |
| `JsonValue.JoinedIsRendered` | src/sinks/json_sink.cpp:242-360 | members printed one after the other make up the object's text |
| `JsonRecord.LineReadsBack` | src/sinks/json_sink.cpp:242-360 | for every event of all four families the line is one JSON object from which a reader, looking names up, gets every printed field back; what is printed twice, it finds to agree |
| `JsonRecord.SameLineIff` | src/sinks/json_sink.cpp:293-360 | two events print the same line exactly when they agree on every printed field |
| `JsonRecord.NamesAreUnique` | src/sinks/json_sink.cpp:242-360 | neither the record nor its process_info repeats a name |
| `JsonRecord.LineHasOneLineFeed` | src/sinks/json_sink.cpp:460-465 | a line ends in its only line feed |
| `JsonRecord.KindNamesTellKinds` | src/sinks/json_sink.cpp:53-104 | printed kind names tell all known kinds apart |
| `JsonRecord.MarkersTellFamilies` | src/sinks/json_sink.cpp:309-357 | each family lacks the members the others are known by |
| `JsonContents.LineShowsEntity` | src/sinks/json_sink.cpp:256-273 | the line shows the resolved entity's path, command line, directory, parent name and start time, each under its own name, nothing when unresolved, and both entity ids |
| `JsonContents.LineShowsNetwork` | src/sinks/json_sink.cpp:331-357 | a network line shows every field of the record, of the addresses the counted bytes |
| `JsonContents.LineShowsFile` | src/sinks/json_sink.cpp:322-326 | a file line shows kind, result and both paths |
| `JsonContents.LineShowsSyscall` | src/sinks/json_sink.cpp:327-330 | a system-call line shows its number, whether it is an enter, and its result |
| `JsonContents.LineShowsProcess` | src/sinks/json_sink.cpp:309-321 | a process line shows kind, exit code and child |
| `JsonContents.KindLabels` | src/sinks/json_sink.cpp:53-104 | each number of the schema is printed by its call's name, any other as unknown |
| `JsonContents.TypeLabels` | src/sinks/json_sink.cpp:38-51 | the same for the four families |
| `JsonContents.EscapeTable` | src/sinks/json_sink.cpp:183-216 | the seven short escapes, lowercase code escapes for other control bytes, all other bytes as they are |
| `JsonContents.HexIsLowercase` | src/sinks/json_sink.cpp:223-237 | high digit first, in lowercase |
| `JsonPrinter.Serialize` | src/sinks/json_sink.cpp:460-465 | the streamed text is the line of the event |
| `JsonPrinter.WriteEventBody` | src/sinks/json_sink.cpp:293-360 | which members are appended, in order, the object id only when set |
| `JsonPrinter.WriteHeader` | src/sinks/json_sink.cpp:242-251 | the header's members |
| `JsonPrinter.WriteProcessInfo` | src/sinks/json_sink.cpp:256-273 | the process_info object, with an unresolved subject too |
| `JsonPrinter.WriteNetworkEndpoint` | src/sinks/json_sink.cpp:278-285 | an endpoint's members, at most 16 address bytes |
| `SinkRuns.FileReadsBack` | src/sinks/json_sink.cpp:452-476 | after any writes the file reads back, behind its original content if never restarted, as the latest events without a gap |
| `SinkRuns.UnflushedAreWholeRecords` | src/sinks/json_sink.cpp:423-440 | what is not flushed is exactly the last pending records, fewer than 256 |
| `SinkRuns.FileSizeIsBounded` | src/sinks/json_sink.cpp:395-421 | with a limit the file is within it, or holds the one longer record |
| `SinkRuns.NoLimitNoRotation` | src/sinks/json_sink.cpp:395-398 | without a limit the file is its original content and every event |
| `SinkRuns.AcceptedAreTheEvents` | src/sinks/json_sink.cpp:452-476 | while the sink is ready no event is skipped, repeated or reordered |
| `SinkRuns.SplitRecoversRecords` | src/sinks/json_sink.cpp:460-465 | splitting at line feeds recovers the records |
| `SinkRuns.RunIsGood` | src/sinks/json_sink.cpp:364-476 | file, size counter, flush counter and history agree in every reachable state |
| `SinkRuns.SizeStaysKnown` | src/sinks/json_sink.cpp:382-389 | a size read at opening stays the true length |
| `SinkModel.WriteKeepsGood` | src/sinks/json_sink.cpp:452-476 | every write keeps that agreement, through rotation and flushing |
| `SinkModel.RotatesIff` | src/sinks/json_sink.cpp:395-403 | the file is restarted exactly when the record would take it past a nonzero limit |
| `SinkModel.SizeIsBounded` | src/sinks/json_sink.cpp:395-421 | what one write leaves in the file, and how long it can be |
| `SinkModel.StaysReadyIff` | src/sinks/json_sink.cpp:405-420 | writing goes on unless a restart was due and the file could not be emptied and opened again |
| `SinkModel.FlushesIff` | src/sinks/json_sink.cpp:423-440 | a flush happens exactly at 256 pending records or after 250 ms |
| `JsonSinks.JsonSink.constructor` | src/sinks/json_sink.cpp:364-393 | the sink's state over an existing file, readable or not |
| `JsonSinks.JsonSink.Write` | src/sinks/json_sink.cpp:452-476 | the whole state after a write; a failed restart ends writing |
| `JsonSinks.JsonSink.RotateIfNeeded` | src/sinks/json_sink.cpp:395-421 | the whole state after a restart and each way it can fail |
| `JsonSinks.JsonSink.MaybeFlush` | src/sinks/json_sink.cpp:423-440 | when it flushes and what that changes |
| `JsonSinks.JsonSink.ForceFlush` | src/sinks/json_sink.cpp:442-450 | everything written is flushed, if the file is open |
| `Pipeline.SubmittedRecordsDecode` | bpf/event_logger_common.bpf.h:758-1135 | the decoder accepts every record of every run and changes nothing in it |
| `Pipeline.CapturesAreReady` | bpf/event_logger_common.bpf.h:733-860 | what the handlers stash fits the record and is labelled with its own type and size |
| `Pipeline.SnapshotFits` | bpf/event_logger_common.bpf.h:677-727 | every parsed address fits the record's endpoint |
| `Pipeline.FileShowsTheStream` | src/main.cpp:246-275 | without a limit the file reads back as every submitted record that the self filter and the policy let through, in order, field for field as far as it is printed |
| `Pipeline.FileShowsTheLatest` | src/main.cpp:246-275 | with any limit it reads back as the latest of those, without a gap |
| `Pipeline.PrintedIdsTellEntities` | src/main.cpp:236-275 | two lines of the file print one entity id exactly when they print one process key and nothing retired that entity between the two |
| `Normalizer.ProcessEvents` | src/model/normalizer.cpp:100-125 | which action, child, outcome and path hint each process tracepoint becomes for the registry |
| `Normalizer.OtherEvents` | src/model/normalizer.cpp:126-149 | the other families tell who acted, when and with what result |
| `Normalizer.ExitCodeReachesEntity` | src/model/normalizer.cpp:123-125 | the exit code and time the kernel saw are those the registry keeps |
| `Normalizer.ExecPathReachesEntity` | src/model/normalizer.cpp:115-119 | the path the kernel saw at exec stands in for what `/proc` no longer shows |
| `Normalizer.ChildReachesEntity` | src/model/normalizer.cpp:120-122 | the number fork reported is the one the child's entity goes by |

## Left out

- Wrap-around of the registry's 64-bit `next_id_`: ids are unbounded naturals.
- Wrap-around of the file size: the size counter wraps as in the code, but the bounds on size assume fewer than 2^64 bytes in all.
- `observed_after_startup` and `EntityKind`: nothing modelled here reads them.
- Aliasing: `subject_process` points into the registry; the model hands on the entity's value at that moment.
- Reading `/proc`, links and files: the texts are inputs of each step.
- EntityRegistries.EntityRegistry.EvictOldestIfNeeded: scans ids as a set in arbitrary order; the hash table's own order and rehashing are not modelled.
- LRU eviction in the BPF maps: any pending entry may vanish at any step; capacity and recency are not modelled.
- Handlers are atomic steps: concurrent access to one map entry inside a handler and weak memory are not modelled.
- Gates are fixed during a run: reconfiguration while the programs run is not modelled.
- Allow-lists of ports, pids, uids and system calls: they are stubbed to true in the code.
- Byte totals of vectors and message headers: `sum_iovec_lengths`, `sum_mmsghdr_lengths` and `sum_mmsghdr_transfers` are inputs, and nothing is claimed about bytes moved.
- Attaching programs, ring-buffer polling, signals and configuration parsing.
- The normalizer's file and network actions, which the registry does not tell apart, `PolicyEngine`, `Metrics` and console output: one-branch facts; which records the policy lets through is an input of `Pipeline`.
- `src/enricher`: it is not part of the build.
- JsonSinks.JsonSink.Write: writing and flushing an open stream succeed, since the code does not look at the stream's state either.
- A record whose network addresses are not 16 bytes long: the C struct has no such value.
- JsonRecord.LineReadsBack: the reader covers the compact JSON the sink prints, without white space, arrays, literals, fractions and exponents; it reads bytes and claims nothing about UTF-8.
- Field order in `Decoder` assumes a little-endian machine, the same for producer and consumer.
- uid and gid of a child seen only through its parent's event: the code passes zeros, and so does the model.
- File descriptors passed by `dup`, `fork` or over sockets: the code does not follow them.
