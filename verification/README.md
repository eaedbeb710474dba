# COVESA DLT: a verified model

The Diagnostic Log and Trace daemon collects log messages of applications. This project
models the parts of it in which state is hardest to keep right, and proves what its code
keeps over whole runs.

**The registry of applications and contexts** (`src/daemon/dlt_daemon_common.c`). Per ECU the
daemon keeps two arrays, sorted by id, searched by a range check and a binary search, grown
in blocks, appended to and re-sorted, shifted on deletion. Applications own descriptors that
their contexts borrow. It is modelled in three layers.

- `Directory` is the reference: two plain maps, without order or positions.
- `UserLists` computes on the contents of the arrays what the C functions do to them.
- `RegisteredUsers` is the class with the two arrays; each method is proved to do what the
  function of `UserLists` does.

`Refinement` and `Runs` prove that every run on the arrays is a run on the maps. `Handles`,
`Descriptors`, `Counts` and `LogLevels` prove invariants of all runs on the maps,
`Registrations` says what a registration means for everybody else in the registry, and
`Segments` proves that the sums of counters which locate an application's contexts are right.
`RangeRuns` shows that the operations built on those sums, unregistering an application and an
application's own level message, are runs of single operations, and `LevelMessages` says
exactly when the latter, and a broadcast, keep the ceiling on log levels. `Announcements` says
what single operations send and store, octet by octet, and `LevelLoops` what a whole broadcast
and a whole level message do to every context when descriptors die on the way. `UnpaddedIds` says exactly which ids
the range check hides, and `Examples` gives small runs in which a property fails.
`DirectoryV2`, `CountsV2` and `RegisteredUsersV2` are the version 2 registry as an index. `Settings` is the
lookup of configured settings.

**Runtime configuration** (`RuntimeText`, `RuntimeConfig`, `RuntimeApplications`, `Restarts`):
saving and loading contexts and applications as text lines, and both in turn at a restart.

**The message buffer** (`src/shared/dlt_common.c`, modules `RingMemory` and `DltBuffers`): a
ring of blocks in memory that grows, wraps and shrinks, proved against a queue of messages.

**dlt-convert for version 2 files** (`RecordsV2`, `ConvertV2`): the offset index, random
access, cutting and joining.

**The control handshake** (`ControlHandshake`): a sending and a listening thread with a mutex,
a condition variable and one result cell, as a step relation with timeouts, spurious wakeups
and late answers.

**dlt-receive and the core dump streamer** (`Receive`, `Streamer`): rotation of output files
under a size limit, and copying a dump while it is parsed.

## What the proofs found

Where a promised property is not what the code does, the code is modelled as it is, and the
exact condition is proved.

- A message larger than the memory of an empty message buffer makes it grow, and growth takes
  the old memory for occupied. The next read finds what lies there: nothing in a fresh buffer,
  but a message that was read before, if one is still there, is returned a second time. The new
  message is lost in either case, and if it is refused after all, the next one is.
- A message longer than the reader's memory is copied whole: the size the reader gives is only
  compared with zero.
- An id with bytes behind its terminator is hidden by the range check exactly when its normal
  form is the last entry; registering it then lists the application twice, and the search for
  the new entry fails. The caller is told so, but builds with `DLT_LOG_LEVEL_APP_CONFIG` or
  `DLT_TRACE_LOAD_CTRL_ENABLE`, which are not modelled, use the missing entry first
  (`src/daemon/dlt_daemon_common.c:980-985`).
- A failed injection closes a descriptor that the application still holds, and the FIFO build
  closes it again; an injection to a context loaded from the runtime configuration goes to
  descriptor 0. Clearing applications that own a descriptor never closes it.
- A context loaded from the runtime configuration carries 0 for a descriptor. The log storage
  functions send to it without looking, and an error there resets the application.
- Unregistering an application that holds descriptor 0 also changes contexts of others that
  were loaded from the runtime configuration.
- With enforcement on, an application's own level message is stored unchecked and announced:
  the ceiling holds exactly if its level is within the default or every send fails, none but
  the last on a dead descriptor.
- Saving an empty registry does not empty the file, so deleted contexts come back.
- A level that was set outside the range registration accepts is saved, and stops the next load:
  that context and all behind it are lost.
- A late answer to a control request that timed out is returned as the answer to the next one.
- A failed write is counted as minus one byte by dlt-receive; only then can a later message take
  the file over its limit.
- Moving the streamer backwards changes its offset but not its position.

## Parameters

What the operating system does is a parameter: the result of opening a pipe, the outcome of a
send, the number of bytes a write takes, the messages the parser accepts and the filter
passes, the value the analyzer returns. Identifiers are byte strings, integers are unbounded,
and conversions to 8, 32 and 64 bits are written out where they matter.

## Model

| member | source | states |
|---|---|---|
| `Ids.SetIdIsPadded` | src/shared/dlt_common.c:385-412 | Every stored id is a zero-padded field: nothing stands behind its terminator. |
| `Ids.SetIdOfPrinted` | src/shared/dlt_common.c:385-412 | An id that is printed as text and stored again is the same id. |
| `Ids.SetIdAt` | src/shared/dlt_common.c:385-412 | Byte i of a stored id is byte i of the text as long as the text has not ended, and zero behind. |
| `Ids.SetIdV2At` | src/shared/dlt_common.c:414-431 | The same for an id of the announced length. |
| `Ids.CompareApidCtidIsLexicographic` | src/daemon/dlt_daemon_common.c:124-143 | The two-stage comparator of contexts is a strict total order, the lexicographic one on apid followed by ctid, and is zero exactly on equal pairs. |
| `Ids.CompareV2IsLexicographic` | src/daemon/dlt_daemon_common.c:107-122 | "Length first, then bytes" is the lexicographic order of the length-prefixed id; zero exactly on equal ids. |
| `Ids.CompareApidCtidV2IsLexicographic` | src/daemon/dlt_daemon_common.c:145-175 | The version 2 context comparator is a strict total order on pairs of ids, zero exactly on equal pairs. |
| `SortedArrays.SortPrefix` | src/daemon/dlt_daemon_common.c:969-978 | The in-place sort leaves exactly the sorted contents in the first n slots and does not touch the rest. |
| `SortedArrays.BinarySearch` | src/daemon/dlt_daemon_common.c:1405-1413 | On a sorted prefix the search returns the position of the key, or -1 exactly when it is absent. |
| `SortedArrays.ShiftDown` | src/daemon/dlt_daemon_common.c:1309-1321 | Deleting by shifting removes exactly entry p, keeps the order of the rest and clears the freed slot. |
| `SortedArrays.Grow` | src/daemon/dlt_daemon_common.c:853-878 | Block growth copies within the old block, keeps all n entries, and slot n-1 exists afterwards. |
| `SortedArrays.BlockCapacityClosed` | src/daemon/dlt_daemon_common.c:860-866 | The capacity the growth policy provides is (n / block + 1) * block. |
| `SortedTable.SortedPermutationUnique` | src/daemon/dlt_daemon_common.c:969-978 | Two strictly sorted arrangements of the same records are equal, so the result does not depend on how the library sorts. |
| `RegisteredUserArrays.RegisteredUsers.constructor` | src/daemon/dlt_daemon_common.c:836-843 | A new list is empty. |
| `RegisteredUserArrays.RegisteredUsers.FindApplication` | src/daemon/dlt_daemon_common.c:1383-1415 | Range check plus binary search on the array compute FindApp of its contents. |
| `RegisteredUserArrays.RegisteredUsers.FindContext` | src/daemon/dlt_daemon_common.c:2172-2207 | Range check plus binary search on the array compute FindCtx of its contents. |
| `RegisteredUserArrays.RegisteredUsers.InvalidateApplications` | src/daemon/dlt_daemon_common.c:621-645 | Every application that held the descriptor holds none afterwards, and nothing else changes. |
| `RegisteredUserArrays.RegisteredUsers.InvalidateContexts` | src/daemon/dlt_daemon_common.c:2258-2282 | The same for contexts. |
| `RegisteredUserArrays.RegisteredUsers.ResetUserHandle` | src/daemon/dlt_daemon_common.c:759-784 | The application gives up its descriptor, its contexts lose it, and it is closed exactly if the daemon owns it. |
| `RegisteredUserArrays.RegisteredUsers.AddApplication` | src/daemon/dlt_daemon_common.c:813-978 | For every id the arrays become those of AddApp and the position of the entry after sorting is returned; they stay sorted if and only if the id is not hidden from the range check. |
| `RegisteredUserArrays.RegisteredUsers.DeleteApplication` | src/daemon/dlt_daemon_common.c:1276-1326 | The arrays become those of DeleteAppAt: descriptor reset, entry shifted out, last slot cleared. |
| `RegisteredUserArrays.RegisteredUsers.AddContext` | src/daemon/dlt_daemon_common.c:1646-1830 | For every pair of ids the arrays become those of AddCtx and the position after sorting is returned; they stay sorted if and only if the pair is not hidden from the range check or the registration is refused before it. |
| `RegisteredUserArrays.RegisteredUsers.DeleteContext` | src/daemon/dlt_daemon_common.c:2065-2116 | The entry is shifted out and the counter of its application goes down by one. |
| `RegisteredUserArrays.RegisteredUsers.ClearContexts` | src/daemon/dlt_daemon_common.c:2310-2351 | No context is left and every counter is zero. |
| `RegisteredUserArrays.RegisteredUsers.ClearApplications` | src/daemon/dlt_daemon_common.c:673-713 | No application is left, contexts stay. |
| `RegisteredUserArrays.RegisteredUsers.SendLogLevel` | src/daemon/dlt_daemon_common.c:2657-2716 | One message with the level in effect on every descriptor that is not negative; after EPIPE or EBADF the application is reset. |
| `RegisteredUserArrays.RegisteredUsers.SendState` | src/daemon/dlt_daemon_common.c:2779-2806 | One message with the logging state, likewise. |
| `RegisteredUserArrays.RegisteredUsers.SetLogLevel` | src/daemon/dlt_daemon_client.c:3413-3437 | A level for one context is stored and sent, and taken back when the send fails; without a descriptor to send it on, a client's level is taken back and an application's own stays. The arrays stay sorted. |
| `RegisteredUserArrays.RegisteredUsers.Inject` | src/daemon/dlt_daemon_client.c:3248-3265 | After a pipe error the descriptor is closed and this context forgets it; application and other contexts keep it. |
| `RegisteredUserArrays.RegisteredUsers.SetApplicationLevels` | src/daemon/dlt-daemon.c:5431-5466 | Summing counters and setting the contexts of that range one after the other gives SetAppLevels; every index is in bounds. |
| `RegisteredUserArrays.RegisteredUsers.SendAllLogLevelUpdate` | src/daemon/dlt_daemon_common.c:3017-3071 | The loop over the contexts array gives the states and messages of UpdateFrom. |
| `RegisteredUserArrays.RegisteredUsers.SaveContexts` | src/daemon/dlt_daemon_common.c:2463-2515 | The loop writes the lines of all contexts in order, and leaves the file alone when there is none. |
| `RegisteredUserArrays.RegisteredUsers.LoadContexts` | src/daemon/dlt_daemon_common.c:2353-2461 | Reading a file line by line gives the registry and the result of the specification, and keeps the arrays sorted. |
| `RegisteredUserArrays.RegisteredUsers.UnregisterApplication` | src/daemon/dlt-daemon.c:4839-4880 | Summing counters, deleting that range backwards and then the application gives the list of Unregister; every index is in bounds. |
| `Refinement.FindAppExact` | src/daemon/dlt_daemon_common.c:1383-1415 | Range check plus binary search give the table's answer if and only if the id is padded, the table is empty, or its last id is another one. |
| `Refinement.AddAppRefines` | src/daemon/dlt_daemon_common.c:813-978 | Registering an application on sorted arrays is registering it in a map: same records, same descriptor events, and the returned position is its entry. |
| `Refinement.DeleteAppRefines` | src/daemon/dlt_daemon_common.c:1276-1326 | Deleting position p removes exactly that id from the map. |
| `Refinement.AddCtxRefines` | src/daemon/dlt_daemon_common.c:1646-1830 | Registering a context refines the map operation; it succeeds exactly for non-empty ids, levels in range and a listed application. |
| `Refinement.AddCtxPosition` | src/daemon/dlt_daemon_common.c:1818-1828 | The returned entry is the context with those ids; a failed registration changes nothing. |
| `Refinement.DeleteCtxRefines` | src/daemon/dlt_daemon_common.c:2065-2116 | Deleting position p removes exactly that pair and lowers the counter of its application. |
| `Refinement.SendRefines` | src/daemon/dlt_daemon_common.c:2657-2716 | Sending a level through the arrays does what it does on the maps. |
| `UnpaddedIds.AddKeepsOrderIff` | src/daemon/dlt_daemon_common.c:1399-1413 | Registering an application keeps the list sorted and free of duplicates if and only if its id is not an un-padded form of the last entry's id. |
| `UnpaddedIds.FindCtxExact` | src/daemon/dlt_daemon_common.c:2188-2205 | A context lookup gives the table's answer if and only if the pair is not hidden: un-padded application id, which is that of the last context, and the pair listed. |
| `UnpaddedIds.AddCtxKeepsOrderIff` | src/daemon/dlt_daemon_common.c:1646-1830 | Registering a context keeps the list sorted and free of duplicates if and only if the pair is not hidden, its application is not found, or its levels are out of range. |
| `UnpaddedIds.HiddenStaysOutside` | src/daemon/dlt_daemon_common.c:967-978 | The second entry of a hidden application is hidden too, so the caller is told that nothing was added. |
| `UnpaddedIds.HiddenExample` | src/daemon/dlt_daemon_common.c:1399-1413 | A concrete list and id for which the range check hides the entry. |
| `Examples.HiddenContextExample` | src/daemon/dlt_daemon_common.c:2188-2205 | A concrete list and id for which the application is found and its context is hidden. |
| `Runs.StepRefines` | src/daemon/dlt_daemon_common.c:813-2351 | Each operation on the arrays does to the two maps what the reference does, for all ids that are not hidden. |
| `Runs.RunRefines` | src/daemon/dlt_daemon_common.c:813-2351 | Every run on the arrays is a run on two plain maps: same records, same events, both arrays strictly sorted throughout. |
| `Runs.PaddedIsVisible` | src/daemon/dlt_daemon_common.c:1399-1413 | Runs whose ids are zero-padded fields are always covered. |
| `Runs.LookupAfterRun` | src/daemon/dlt_daemon_common.c:1383-1415 | After every run find returns exactly the map's answer, for applications and contexts. |
| `Runs.RegistryInvariants` | src/daemon/dlt_daemon_common.c:813-2351 | After every legal run from the empty registry: sorted arrays, unshared descriptors, exact counters that sum to the number of contexts. |
| `Registrations.RegistrationTakesSocket` | src/daemon/dlt_daemon_common.c:917-967 | A first registration, one by another process, or one after a lost descriptor, over a socket: the application and nobody else holds the descriptor, the daemon does not own it, the contexts are detached until they register again, and the counter is kept. |
| `Registrations.RegistrationOpensPipe` | src/daemon/dlt_daemon_common.c:922-967 | Without a connected socket, in builds with pipes: the daemon opens the pipe, owns it and the application alone holds it; if it cannot be opened, the application has no descriptor and nothing is opened. |
| `Registrations.RegistrationWithoutConnection` | src/daemon/dlt_daemon_common.c:922-967 | In builds without pipes an application without a connected socket has no descriptor. |
| `Registrations.RegistrationWithoutProcess` | src/daemon/dlt_daemon_common.c:922-925 | A registration that names no process takes id and descriptor from whoever had them; an owned descriptor is closed, once. |
| `Registrations.RegistrationDropsOldProcess` | src/daemon/dlt_daemon_common.c:917-967 | After another process registers under the id, nobody holds the old descriptor. |
| `Registrations.ContextRegistered` | src/daemon/dlt_daemon_common.c:1646-1830 | A successful registration stores the values given, with levels capped under enforcement and kept when loaded from the runtime configuration; counts a new context once; and leaves every other record alone. |
| `Registrations.ContextRefusedIff` | src/daemon/dlt_daemon_common.c:1664-1695 | A context registration changes nothing if an id is empty, the application is not listed, the level is not from -1 to 6 or the trace status not from -1 to 1, and otherwise lists the context. |
| `Announcements.SendExact` | src/daemon/dlt_daemon_common.c:2657-2716 | A level send is exactly one message on a descriptor that is not negative, with the level and trace status in effect and the position of the context, and none on a negative one; no stored level changes. |
| `Announcements.AnnouncedLevel` | src/daemon/dlt_daemon_common.c:2675-2682 | The level announced is the default if -1 is stored, the stored one if that is from 0 to 255, and with a storage level in effect the larger of the two. |
| `Announcements.StateSendExact` | src/daemon/dlt_daemon_common.c:2779-2806 | A state send is exactly one message on a descriptor that is not negative; on EPIPE or EBADF the application loses it, and otherwise nothing changes. |
| `Announcements.InjectExact` | src/daemon/dlt_daemon_client.c:3248-3265 | An injection is exactly one message, and after a pipe error one close and one context that forgets its descriptor. |
| `Announcements.SetExact` | src/daemon/dlt_daemon_client.c:3413-3437 | A client's level stays only if it was delivered, an application's levels stay unless their send failed; both octets are stored as signed levels, one message is sent, and no other context's levels change. |
| `Announcements.StorageSet` | src/daemon/dlt_daemon_offline_logstorage.c:453-457 | A storage level is stored for this context and nothing else changes. |
| `Announcements.ContextsCleared` | src/daemon/dlt_daemon_common.c:2310-2351 | No context is left, no counter counts one, and the applications stay as they are. |
| `LevelLoops.BroadcastExact` | src/daemon/dlt_daemon_common.c:3037-3070 | Over the whole broadcast: each context with a descriptor of at least 3 that no context before it found dead ends with the level, or with the cap if that is enforced and lower; every other keeps its level, all keep their trace status. One message for each of the former, in order, on its descriptor, with that level and its own trace status; no others. |
| `LevelLoops.LevelMessageExact` | src/daemon/dlt-daemon.c:5431-5466 | Over an application's whole level message: each own context ends with both octets as signed levels, unless it has a live descriptor and its send fails; those and all contexts of others keep both. One message for each own context with a live descriptor, in order, with both, and no others. |
| `Handles.RunKeepsHandles` | src/daemon/dlt_daemon_common.c:621-645 | In every legal run no two applications share a live descriptor, and a context holds none, the mark 0, or its own application's. |
| `Handles.SafeSendIff` | src/daemon/dlt_daemon_common.c:2657-2716 | A message is not sent or goes to the context's own application, unless the context carries the mark 0 and its application does not hold descriptor 0; a descriptor of at least 3 is always safe. |
| `Handles.MessageReachesOwnerOnly` | src/daemon/dlt_daemon_common.c:1807-1816 | A message that is safe to send can reach only the application with the context's apid. |
| `Examples.MarkIsSentTo` | src/daemon/dlt_daemon_offline_logstorage.c:456-466 | A run in which a level is sent to the mark 0 and an error there closes the application's own pipe. |
| `Handles.DeadSendReleasesIff` | src/daemon/dlt_daemon_common.c:2697-2713 | A level send that meets EPIPE or EBADF leaves no application and no context with that descriptor if and only if it was safe. |
| `Handles.DeadSendReleases` | src/daemon/dlt_daemon_common.c:2697-2713 | The same over all kinds of sends, each of them safe. |
| `Handles.DeadInjectionKeepsDescriptor` | src/daemon/dlt_daemon_client.c:3253-3258 | After an injection that meets a pipe error the application still holds the closed descriptor. |
| `Handles.DeadDescriptorIsNotUsedAgain` | src/daemon/dlt_daemon_common.c:2697-2713 | In every sequence of safe sends, once a descriptor was dead no later send uses it and nothing holds it at the end. |
| `Runs.BroadcastIsRun` | src/daemon/dlt_daemon_common.c:3037-3070 | The index loop of the broadcast, over arrays that change under it, is a run of single updates. |
| `Runs.BroadcastAvoidsDeadDescriptors` | src/daemon/dlt_daemon_common.c:3037-3070 | In a broadcast over the arrays no iteration sends on a descriptor an earlier one found dead, and nobody holds it at the end. |
| `Descriptors.RunBalanced` | src/daemon/dlt_daemon_common.c:922-967 | FIFO build: in every run whose sends are safe, whose injections meet no pipe error and which clears no owner, the open descriptors are exactly those the listed applications own: no leak, no double close, no send on a closed one. |
| `Descriptors.SendBalancedIff` | src/daemon/dlt_daemon_common.c:2657-2716 | A level send keeps this if and only if nothing is sent or the descriptor is open. |
| `Descriptors.InjectBalancedIff` | src/daemon/dlt_daemon_client.c:3248-3265 | An injection keeps it if and only if nothing is sent, or the descriptor is open and there is no pipe error; to the mark 0 it keeps it only if descriptor 0 is a pipe of ours. |
| `Descriptors.ClearBalancedIff` | src/daemon/dlt_daemon_common.c:673-713 | Clearing the applications keeps it if and only if none owns a descriptor. |
| `Examples.InjectionClosesTwice` | src/daemon/dlt_daemon_client.c:3253-3258 | A run in which a failed injection and the end of the application close the same descriptor. |
| `Counts.RunKeepsCounts` | src/daemon/dlt_daemon_common.c:2084-2113 | In every run that deletes applications after their contexts, each context's application is listed and each counter equals the number of its contexts. |
| `LogLevels.RunKeepsLevels` | src/daemon/dlt_daemon_common.c:1779-1805 | With enforcement on, in every run whose stored levels are capped, levels stay at or below the default and every level sent is at or below the ceiling. |
| `LogLevels.UpdateKeepsLevelsIff` | src/daemon/dlt_daemon_common.c:3040-3066 | One iteration of a broadcast keeps the stored levels below the ceiling if and only if nothing is stored or the level after its cap is from -1 to the default. |
| `LevelMessages.BroadcastKeepsCeilingIff` | src/daemon/dlt_daemon_common.c:3037-3070 | The whole broadcast keeps the ceiling if and only if the level after its cap is from -1 to the default or no context has a descriptor of at least 3. |
| `LogLevels.SetKeepsLevelsIff` | src/daemon/dlt-daemon.c:5447-5462 | A level set for one context keeps the ceiling if and only if it is taken back or lies from -1 to the default. |
| `LogLevels.AnnouncedOctet` | src/daemon/dlt-daemon.c:5447-5462 | What an application's own level message makes the daemon announce is within the default if and only if the octet received was, or was 255 for "default". |
| `LevelMessages.LevelMessageKeepsCeilingIff` | src/daemon/dlt-daemon.c:5431-5466 | An application's level message keeps the ceiling for the whole registry if and only if its level is from -1 to the default, or each of its contexts has a descriptor and every send fails, none but the last because the descriptor is dead. |
| `Examples.ApplicationRaisesLevel` | src/daemon/dlt-daemon.c:5447-5462 | A run with default 4 in which an application raises its context to 6 and 6 is announced. |
| `Segments.OffsetsLocateContexts` | src/daemon/dlt-daemon.c:4844-4852 | The sum of the counters in front of an application is where its contexts start: an index is in the range if and only if the context is its own. |
| `Segments.CountersSumToTotal` | src/daemon/dlt-daemon.c:4844-4848 | The counters sum to the number of contexts. |
| `Segments.OwnContextsDeleted` | src/daemon/dlt-daemon.c:4850-4868 | Deleting that range backwards leaves exactly the contexts of the other applications, in order. |
| `Segments.UnregisterExact` | src/daemon/dlt-daemon.c:4839-4880 | Unregistering removes the application and exactly its contexts and closes an owned descriptor once; the other records are unchanged, but for contexts with the mark 0 when the application held descriptor 0. |
| `Segments.UnregisterSparesOthersIff` | src/daemon/dlt-daemon.c:4839-4880 | The other contexts stay as they were if and only if the application does not hold descriptor 0 or no other context carries the mark 0. |
| `Segments.UnregisterKeepsInvariants` | src/daemon/dlt-daemon.c:4839-4880 | Order, descriptors and counters stay as the registry needs them, in every case. |
| `Segments.UnregisterForgets` | src/daemon/dlt-daemon.c:4839-4880 | On the maps the id and its contexts are gone and nothing else has changed, if the others are spared. |
| `RangeRuns.UnregisterIsRun` | src/daemon/dlt-daemon.c:4839-4880 | Unregistering is the run that deletes the contexts of the range, last one first, and then the application. |
| `RangeRuns.SetAppLevelsIsRun` | src/daemon/dlt-daemon.c:5431-5466 | An application's level message is a run of single level settings, one for each of its contexts and for no other. |
| `RangeRuns.SetAppLevelsKeepsCeiling` | src/daemon/dlt-daemon.c:5431-5466 | If its level is from -1 to the default, it keeps the ceiling for the whole registry, and everything sent is within it. |
| `Examples.PipeZeroReleasesOthers` | src/daemon/dlt-daemon.c:4839-4880 | A list reached by a legal run in which unregistering one application changes a context of another. |
| `RuntimeText.ScanPrinted` | src/daemon/dlt_daemon_common.c:2488-2502 | Every number survives printing and scanning. |
| `RuntimeConfig.LoadSavedContext` | src/daemon/dlt_daemon_common.c:2410-2455 | Reading the line of a saved context registers it and goes on behind it, or stops if the registration refuses it; also when its description is absent, empty or a newline. |
| `RuntimeConfig.LineText` | src/daemon/dlt_daemon_common.c:2485-2505 | The line of a concrete context, byte by byte. |
| `RuntimeConfig.UnreadableLevelTakesPrevious` | src/daemon/dlt_daemon_common.c:2415-2430 | A level and a trace status that are no numbers are taken from the line before. |
| `RuntimeConfig.SaveThenLoad` | src/daemon/dlt_daemon_common.c:2353-2515 | Saving a non-empty registry and loading it next to the same applications succeeds if and only if all levels and trace statuses are ones a registration accepts; exactly the contexts in front of the first other one come back, in order, and are counted. |
| `Examples.LevelStopsLoad` | src/daemon/dlt_daemon_common.c:2433-2447 | A run after which a context has level 100: saved and loaded, neither it nor the one behind it comes back. |
| `RuntimeConfig.ReloadedExact` | src/daemon/dlt_daemon_common.c:2410-2455 | With enforcement off and a plain non-empty description, ids, level, trace status and description come back unchanged. |
| `RuntimeConfig.ReloadedTwice` | src/daemon/dlt_daemon_common.c:2488-2502 | An absent description comes back as a newline, and that one stays. |
| `RuntimeConfig.SecondCycleIdentical` | src/daemon/dlt_daemon_common.c:2353-2515 | A second save and load cycle on the same file gives exactly the registry of the first; on every file, if the first brought any context back. |
| `RuntimeConfig.EmptySaveBringsBackOldContexts` | src/daemon/dlt_daemon_common.c:2463-2515 | Saving an empty registry leaves the old file, so the next load brings deleted contexts back, up to the first one out of range. |
| `RuntimeApplications.LoadSavedApplication` | src/daemon/dlt_daemon_common.c:1516-1543 | Reading the line of a saved application adds it and goes on behind it. |
| `RuntimeApplications.SaveThenLoadApplications` | src/daemon/dlt_daemon_common.c:1459-1598 | Saving and loading brings back every application, in order. |
| `RuntimeApplications.SecondApplicationCycleIdentical` | src/daemon/dlt_daemon_common.c:1459-1598 | A second cycle for applications gives exactly the list of the first. |
| `Restarts.RestartRestores` | src/daemon/dlt-daemon.c:1671-1675 | Saving both files and loading both into an empty registry brings back every application, and every context up to the first one out of range, each application counting exactly its own; success means that there is none, and then all counters are what they were. |
| `Settings.StrncmpIsCompare` | src/daemon/dlt_daemon_common.c:346-356 | strncmp orders texts as their zero-padded fields are ordered, and is zero exactly on equal fields. |
| `Settings.CompareTraceLoadIsLexicographic` | src/daemon/dlt_daemon_common.c:346-356 | The trace load comparator orders by apid followed by ctid. |
| `Settings.FindLogSettings` | src/daemon/dlt_daemon_common.c:246-274 | The early-exit scan returns the entry of exactly this application and context, else the application's own, else none. |
| `Settings.LookupUnique` | src/daemon/dlt_daemon_common.c:246-274 | On a sorted table there is only one such answer. |
| `Settings.LookupByIds` | src/daemon/dlt_daemon_common.c:246-274 | By stored ids: the entry of this application and context, else that of the application without a context, else none. |
| `Settings.FilteredMembers` | src/daemon/dlt_daemon_common.c:358-410 | The filtered sequence holds the wanted entries, all of them and no others. |
| `Settings.FilteredByIds` | src/daemon/dlt_daemon_common.c:358-410 | By stored ids: the entries of this application, and of this context if one is given. |
| `Settings.FilteredSorted` | src/daemon/dlt_daemon_common.c:358-410 | Filtering keeps the order, so the final sort changes nothing. |
| `Settings.FindTraceLoadSettings` | src/daemon/dlt_daemon_common.c:358-410 | The early-exit scan returns exactly the filtered sub-sequence, sorted, and fails with nothing exactly when memory runs out. |
| `DirectoryV2.AppFoundIffAdded` | src/daemon/dlt_daemon_common.c:1042-1456 | After every run of version 2 operations an application is found if and only if it was added and not deleted since. |
| `DirectoryV2.CtxFoundIffAdded` | src/daemon/dlt_daemon_common.c:1832-2256 | A context is found if and only if it was added, with levels in range, to a listed application and not deleted since. |
| `DirectoryV2.AddAppLists` | src/daemon/dlt_daemon_common.c:1042-1274 | An addition lists exactly the new id besides the old ones and keeps the array sorted. |
| `DirectoryV2.DeleteCtxLists` | src/daemon/dlt_daemon_common.c:2118-2170 | A deletion unlists exactly that pair and keeps both arrays sorted. |
| `DirectoryV2.AddCtxMaps` | src/daemon/dlt_daemon_common.c:1832-2024 | Adding a context stores it and counts it once at its application, or replaces its payload; a refused one changes nothing. |
| `DirectoryV2.DeleteCtxMaps` | src/daemon/dlt_daemon_common.c:2118-2170 | Deleting a context removes exactly it and lowers the counter of its application by one. |
| `CountsV2.RunKeepsCountsV2` | src/daemon/dlt_daemon_common.c:2118-2170 | In every version 2 run that deletes applications after their contexts, each context's application is listed and each counter is the number of its contexts. |
| `CountsV2.CountersSumToTotalV2` | src/daemon/dlt_daemon_common.c:2118-2170 | The counters then sum to the number of contexts. |
| `RegisteredUserArraysV2.RegisteredUsersV2.FindApplication` | src/daemon/dlt_daemon_common.c:1417-1456 | The binary search over the array computes FindApp of its contents. |
| `RegisteredUserArraysV2.RegisteredUsersV2.FindContext` | src/daemon/dlt_daemon_common.c:2209-2256 | The binary search over the array computes FindCtx of its contents. |
| `RegisteredUserArraysV2.RegisteredUsersV2.AddApplication` | src/daemon/dlt_daemon_common.c:1082-1214 | Append, growth and sort give AddApp; the entry is found afterwards, for every non-empty id. |
| `RegisteredUserArraysV2.RegisteredUsersV2.AddContext` | src/daemon/dlt_daemon_common.c:1884-2024 | Append, growth, counter and sort give AddCtx, and the position after sorting is returned. |
| `RegisteredUserArraysV2.RegisteredUsersV2.DeleteApplication` | src/daemon/dlt_daemon_common.c:1328-1381 | Shifting gives DeleteApp. |
| `RegisteredUserArraysV2.RegisteredUsersV2.DeleteContext` | src/daemon/dlt_daemon_common.c:2118-2170 | Shifting and counting down give DeleteCtx. |
| `RingMemory.WriteExtends` | src/shared/dlt_common.c:3862-3891 | A wrapped write behind n used bytes extends the ring by exactly those bytes. |
| `RingMemory.FrontBlock` | src/shared/dlt_common.c:4162-4280 | The oldest block of a ring can be read and dropped, and the rest is the queue without it. |
| `RingMemory.BlocksUnique` | src/shared/dlt_common.c:4162-4280 | The bytes determine the queue of messages. |
| `DltBuffers.DltBuffer.constructor` | src/shared/dlt_common.c:3768-3826 | A new buffer holds no message and zeroed memory of the minimum size. |
| `DltBuffers.DltBuffer.WriteBlock` | src/shared/dlt_common.c:3862-3891 | Writes exactly the data at the ring positions from p on. |
| `DltBuffers.DltBuffer.ReadBlock` | src/shared/dlt_common.c:3893-3917 | Reads exactly the ring stretch from p on. |
| `DltBuffers.DltBuffer.IncreaseSize` | src/shared/dlt_common.c:3930-3994 | Growth succeeds exactly within the maximum and keeps the occupied bytes; of an empty buffer it makes the whole old memory occupied. |
| `DltBuffers.DltBuffer.MinimizeSize` | src/shared/dlt_common.c:3996-4041 | Memory that has grown is replaced by zeroed memory of the minimum size; memory of that size is left as it is, with positions and contents. |
| `DltBuffers.DltBuffer.Push` | src/shared/dlt_common.c:4071-4160 | Succeeds exactly when growth can make room. On success the queue is extended by the message if and only if it was not empty or the message fits without growth; on refusal it is kept if and only if it was not empty or the memory cannot grow at all. |
| `DltBuffers.DltBuffer.PushBytes` | src/shared/dlt_common.c:4071-4160 | The same on the bytes in use, also of a buffer that has lost its queue: which bytes are in use afterwards, and when the message is accepted. |
| `DltBuffers.DltBuffer.Get` | src/shared/dlt_common.c:4162-4280 | Returns and, on demand, removes the oldest message, and what remains is the queue without it. The copy stays within the reader's memory if and only if the message fits or is not copied. |
| `DltBuffers.DltBuffer.GetBytes` | src/shared/dlt_common.c:4162-4280 | In every state, also of a buffer that has lost its queue: a front that is no message empties the buffer, and otherwise exactly the bytes behind the header there are returned; the whole state afterwards. |
| `DltBuffers.DltBuffer.Reset` | src/shared/dlt_common.c:4043-4064 | The buffer is empty and its memory is zeroed. |
| `DltBuffers.FirstLargeMessageIsLost` | src/shared/dlt_common.c:3930-3994 | A first message larger than the memory is accepted and counted, but the next read returns nothing and empties the buffer. |
| `DltBuffers.BrokenBufferLosesMessage` | src/shared/dlt_common.c:4103-4280 | A buffer without messages that counts bytes as in use, or grows for this one, loses every message it accepts: the next pull returns nothing if the old bytes in front are no message, and else the old message there; then the buffer is empty. |
| `DltBuffers.OldMessageComesBack` | src/shared/dlt_common.c:4007-4009 | A message that fills the memory is pushed and pulled, a larger one is accepted, and the pull that should return it returns the first one again. |
| `DltBuffers.OldMessageExample` | src/shared/dlt_common.c:4007-4009 | Concrete sizes for which this happens. |
| `DltBuffers.RefusedMessageLosesNext` | src/shared/dlt_common.c:4103-4160 | A first message refused for every size growth can reach makes the buffer lose the next message it accepts. |
| `DltBuffers.RefusedMessageExample` | src/shared/dlt_common.c:4103-4160 | Concrete sizes for which this happens. |
| `RecordsV2.ScannedIsMessages` | src/console/dlt-convert-v2.c:235-287 | Scanning by offsets reads the same messages as taking one after the other from the front. |
| `RecordsV2.IndexExact` | src/console/dlt-convert-v2.c:235-287 | For every file, parser and filter the index is strictly increasing and lists exactly the starts of the passing messages; reading there gives them back. |
| `RecordsV2.ReadBack` | src/console/dlt-convert-v2.c:153-224 | A file of accepted messages laid end to end is read as exactly those messages. |
| `RecordsV2.ReadAtIff` | src/console/dlt-convert-v2.c:153-224 | Byte by byte: m is read at a position if and only if the bytes there start with m, m is a record as Encode lays it out, and the parser accepts it. |
| `RecordsV2.ReadsNothingIff` | src/console/dlt-convert-v2.c:153-224 | Nothing is read exactly where no accepted record starts. |
| `RecordsV2.EncodedIsRead` | src/console/dlt-convert-v2.c:153-224 | A record of any time stamp, ECU id, base header and payload, its length field big-endian, is read as itself in front of anything, exactly if the parser accepts it. |
| `RecordsV2.ExtractedIsRecord` | src/console/dlt-convert-v2.c:153-224 | A message read anywhere in a file is accepted when it stands alone. |
| `RecordsV2.CutIsSlice` | src/console/dlt-convert-v2.c:655-697 | For every file, writing messages b to e gives exactly the bytes from the start of b to the end of e. |
| `RecordsV2.FullCutIsFile` | src/console/dlt-convert-v2.c:655-697 | The default range writes what could be read, and that is the file if and only if the file is messages laid end to end. |
| `RecordsV2.CutReadsBack` | src/console/dlt-convert-v2.c:742-758 | For every file, filter and range, what was cut out reads as the chosen messages. |
| `RecordsV2.CutRefusedIff` | src/console/dlt-convert-v2.c:657-692 | A range is refused exactly if it is not one of indexed messages. |
| `RecordsV2.CutDefaults` | src/console/dlt-convert-v2.c:657-667 | By default a range starts at the first message and ends with the last. |
| `RecordsV2.JoinSucceedsIff` | src/console/dlt-convert-v2.c:643-697 | All files are written if and only if each has a message that is kept; the output is the kept messages of all files. |
| `RecordsV2.JoinReadsBack` | src/console/dlt-convert-v2.c:643-697 | Joined files read as the kept messages of all of them, for every filter. |
| `RecordsV2.JoinStops` | src/console/dlt-convert-v2.c:657-692 | A refused range ends the run: the output is that of the files before it. |
| `RecordsV2.JoinConcatenates` | src/console/dlt-convert-v2.c:643-697 | Any number of non-empty files of messages gives their concatenation. |
| `ConvertV2.ConvertFileV2.ReadOne` | src/console/dlt-convert-v2.c:153-224 | Succeeds exactly when a complete accepted message starts here; then its bytes are kept and the position is behind it. |
| `ConvertV2.ConvertFileV2.GrowIndex` | src/console/dlt-convert-v2.c:246-262 | There is room for one more entry, in blocks of 1000, and no entry is lost. |
| `ConvertV2.ConvertFileV2.Read` | src/console/dlt-convert-v2.c:235-287 | One message: total counted, offset entered exactly if the filter passes it. |
| `ConvertV2.ConvertFileV2.Scan` | src/console/dlt-convert-v2.c:652-654 | The scan terminates with exactly the index of the file. |
| `ConvertV2.ConvertFileV2.Message` | src/console/dlt-convert-v2.c:293-304 | Random access to entry k succeeds exactly for indexed messages and yields the bytes the scan saw. |
| `ConvertV2.ConvertFileV2.WriteRange` | src/console/dlt-convert-v2.c:657-758 | The output loop writes exactly the chosen messages, and a range outside the index is refused. |
| `ConvertV2.ConvertFileV2.Convert` | src/console/dlt-convert-v2.c:643-758 | The loop over all files writes ConvertAll of them. |
| `ControlHandshake.RunKeepsInv` | src/console/dlt-control-common.c:506-612 | Every step of either thread, in every interleaving, keeps mutual exclusion and the history. |
| `ControlHandshake.ReturnsLatestAnswer` | src/console/dlt-control-common.c:581-611 | Each return belongs to the last reset before it and gives the value stored last since then, -1 if there was none or the send failed; after a signal there was one. |
| `ControlHandshake.ReturnsOnlyWhatWasProduced` | src/console/dlt-control-common.c:581-611 | A returned value is -1 or one the analyzer produced after that request's reset. |
| `ControlHandshake.NoSignalBeforeWait` | src/console/dlt-control-common.c:581-600 | Reset, send and start of the wait follow each other with no stored value and no signal in between. |
| `ControlHandshake.RequestCanReturn` | src/console/dlt-control-common.c:590-602 | From every reachable state the request under way can be brought to its return: the lock is never left behind. |
| `ControlHandshake.LateAnswerIsReturned` | src/console/dlt-control-common.c:533-538 | If an answer to an earlier request is pending at the reset, there is a run in which it is returned as the answer to this one. |
| `ControlHandshake.OwnAnswerIff` | src/console/dlt-control-common.c:533-611 | As long as only answers arrive, a request gets only its own answer if and only if none to an earlier request is pending when it resets the cell. |
| `ControlHandshake.TimeoutLeavesAnswerPending` | src/console/dlt-control-common.c:596-602 | A run of one request that times out reaches such a state. |
| `Receive.ConvertArgToByteSize` | src/console/dlt-receive.c:184-232 | Accepts exactly sizes of at least one message that fit 64 bits, and returns digits times factor; no product leaves the range. |
| `Receive.SizeBySuffix` | src/console/dlt-receive.c:184-232 | Digits stand for their value, times 1024, 1024^2 or 1024^3 before k, m or g in either case; no other suffix is a size. |
| `Receive.Receiver.Callback` | src/console/dlt-receive.c:660-743 | One message: rotation exactly when it does not fit, then the write; the new state is Step of the old one. |
| `Receive.RunBounded` | src/console/dlt-receive.c:709-739 | In every run, whatever fails, each file is within the limit plus one byte per failed write, or holds a single write. |
| `Receive.RunFaithful` | src/console/dlt-receive.c:709-739 | With complete writes the files laid end to end are exactly the received messages, and a file is left only when the next message does not fit. |
| `Receive.CompleteFilesFit` | src/console/dlt-receive.c:709-739 | With complete writes each file holds whole messages and at most the limit, or exactly one message. |
| `Receive.OpenIsTriedAgain` | src/console/dlt-receive.c:714-731 | After a file could not be opened the next message of that size goes into a new file, alone. |
| `Receive.OverfillsIff` | src/console/dlt-receive.c:709-739 | A message of a possible size can take the current file over the limit if and only if a write to it has failed, the smallest message still fits by the count, and the largest one reaches beyond what the failures have hidden. |
| `Receive.FailureExceedsLimit` | src/console/dlt-receive.c:731-738 | For every limit, a run of messages of possible sizes in which that happens. |
| `Streamer.FileStreamer.Read` | src/core_dump_handler/dlt_cdh_streamer.c:108-133 | Succeeds exactly when all bytes are there; then they are saved and counted. |
| `Streamer.FileStreamer.MoveAhead` | src/core_dump_handler/dlt_cdh_streamer.c:173-200 | Chunked copying gives MoveSpec: by less than 2^31 the bytes are passed over, otherwise only the offset moves. |
| `Streamer.FileStreamer.MoveToOffset` | src/core_dump_handler/dlt_cdh_streamer.c:159-171 | The distance is taken modulo 2^32. |
| `Streamer.FileStreamer.Finish` | src/core_dump_handler/dlt_cdh_streamer.c:135-157 | Reading chunks until end of file passes over all the rest. |
| `Streamer.InStepIff` | src/core_dump_handler/dlt_cdh_streamer.c:108-200 | A successful operation keeps the copy equal to what was consumed, and the offset its length modulo 2^32, if and only if it goes forward by less than 2^31. |
| `Streamer.RunInStep` | src/core_dump_handler/dlt_cdh_streamer.c:108-200 | So does every run of successful forward operations. |
| `Streamer.FinishCopiesAll` | src/core_dump_handler/dlt_cdh_streamer.c:135-157 | After such a run stream_finish makes the copy the whole input. |
| `Streamer.MoveReachesTarget` | src/core_dump_handler/dlt_cdh_streamer.c:159-171 | A move to an offset ahead within the input reaches exactly that position. |
| `Streamer.MoveBackOnlySetsOffset` | src/core_dump_handler/dlt_cdh_streamer.c:159-171 | A move back by up to 2^31 succeeds and sets the offset, but the input stays where it is. |

## Left out

- Memory allocation that fails, except in `Settings.FindTraceLoadSettings`.
- The message parser behind its header, printers and filters: they are arbitrary predicates on bytes.
- Configured levels per application (`DLT_LOG_LEVEL_APP_CONFIG`) and trace load accounting inside registration; the two lookups are modelled on their own.
- Lists of other ECUs and their selection by name: one list, the daemon's own.
- Control requests from clients up to the context they select: `Directory.SetLevel`, `Directory.Inject` and `Directory.UpdateLevel` are what is done to it.
- The cursor macros of `include/dlt/dlt_common.h`, which read and write fields of a message behind a length check, and the byte-swap macros there, which reverse the bytes of a field.
- Logging, sockets, signals, `glob`, `rename`, compression and option parsing.
- Follow mode of dlt-convert and its output formats other than raw bytes.
- dlt-sortbytimestamp, whose writer ends after its first message.
- Numbering of rotated files: `Receive` is about their contents, in the order they were closed.
- `dlt_control_init`, `dlt_control_deinit` and several sending threads.
- Read errors other than end of file in the streamer.
- Receive.ConvertArgToByteSize: requires a non-empty argument whose digits fit 64 bits; for others the behaviour of the original is undefined.
- DltBuffers.DltBuffer.constructor: requires a minimum size above that of the buffer's own header, because with less there is no room for data, and sizes below 2^31, the range of the original's int.
- DltBuffers.DltBuffer.Push: requires that the message and its header are shorter than 2^31 bytes, because the original computes their length in an int.
- DltBuffers.DltBuffer.GetBytes: requires that a header in front announces a size below 2^31 together with its own, because for others the original computes with a negative or overflowing int.
- RuntimeConfig.SaveThenLoad: requires ids and descriptions without delimiters and lines that fit the buffer of the original; a description with a colon or a newline inside is cut where the reader splits it.
- RuntimeConfig.SecondCycleIdentical: the same, and under enforcement default levels of at least 0, with which capped levels do not print longer.
- RegisteredUserArraysV2.RegisteredUsersV2.AddApplication: a payload stands for pid, description and descriptor, because version 2 registration invalidates descriptors through the version 1 function; `DirectoryV2` is about ids and counters.
- RegisteredUserArraysV2.RegisteredUsersV2.AddContext: likewise, a payload stands for the fields other than the ids, and of the levels only the range check is modelled.
- RegisteredUserArraysV2.RegisteredUsersV2.DeleteApplication: does not model the reset of the application's descriptor, for the same reason.
