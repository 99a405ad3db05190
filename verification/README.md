# Verified model of the VQE receive sessions and channel lineup manager

This project models two components of the VQE client and server code and proves properties of them in
Dafny 4.11. `dafny verify dfyconfig.toml` checks everything.

**The receive sessions of a channel (`eva/`).** A primary session elects a packet-flow source from the
source tables its dataplane reports and permits it there. If error repair is enabled it tells the repair
session, which installs an SSRC filter for that source, so that retransmissions stay tied to the original
stream as section 5.3 of RFC 4588 asks. The repair session keeps a fixed-size cache of dataplane sources
and reconciles it with tables that may be stale; its member-delete callback re-enters it under a
recursion lock. Both sessions are classes with the source's fields. Every answer of a dataplane or of the
RTP layer is a parameter of the event that asks for it, so a run ranges over all of them, failures
included. A set of accepted sources is fully general for this, as an event offers each source once.

**The channel lineup manager (`cfg/`).** Two chained hash maps and a session-key table index the channels
by address, port and o= line. On top of them are a registration of several keys with rollback, a handle
table with holes, loading a lineup file, the semantic validation of a description, an update in two phases
(load a candidate, validate it against the live lineup, commit), the walk over a candidate, SDP handles,
the text readers, and the printer. The hash chains are heap nodes; the managers and the configuration
module are classes over them. Fresh handles of the id manager are parameters that must be unused.

The pattern throughout is a class or a loop proved to compute a specification function on values, and
theorems about those functions over all inputs and all runs. What each operation comes to is also stated
without those functions, field by field and with its exact condition. Where a property needs a large predicate only
as a token, the predicate is sealed behind the trigger `Unsealed`; mentioning `Unsealed(0)` opens it.

| files | content |
|---|---|
| `rtp_source`, `repair_spec`, `repair_session`, `repair_theorems` | the repair session |
| `primary_spec`, `primary_session`, `primary_theorems`, `session_runs` | the primary session, and both under every interleaving |
| `channel_map`, `channels`, `registration`, `registered_keys`, `slot_lists` | hash chains, index keys, registration |
| `manager_spec`, `inserted_records`, `channel_manager`, `manager_runs` | the handle table and its runs |
| `lineup_spec`, `lineup_keys`, `update_spec`, `committed_records`, `lineup_runs`, `update_cursor`, `configuration` | loads, updates, commits, the walk |
| `line_reader`, `session_reader`, `file_sessions`, `sdp_handle` | text: lines, sessions, o= lines |
| `sdp_description`, `sdp_validation`, `sdp_validator`, `sdp_sound`, `described_sections`, `described`, `accepted_channels` | descriptions and their validation, read in order and described as a whole |
| `sdp_printer`, `printed_fields`, `source_printer`, `round_trip`, `reload` | printing outside and in source mode, round trips of channels and of files |
| `counterexamples`, `options`, `sequences` | inputs at which conditions fail; the option type; facts about sequences |

Properties that turned out not to hold as one might expect, each with its exact condition and with an input
at which it fails (`Counterexamples`):

- A filter install checks the returned table against the filter that was there before. Moving an enabled
  filter to another SSRC therefore fails exactly when the table is not empty (`RepairTheorems.FilterSwitch`,
  `Counterexamples.SecondFilterFails`).
- Removal from a map ignores the handle. A registration that is refused at a later key because of another
  channel always deletes the entry that caused the refusal (`Registration.ConflictEvictsOwner`,
  `Counterexamples.NewcomerEvicts`), and a refusal is a true rollback exactly under the condition of
  `Registration.TrueRollbackIff`.
- An insertion does not look for its session key beforehand. If that is taken and the first key is free, the
  insertion strands map entries under a handle that is not kept, or takes the session key away from the other
  channel (`Registration.RejectionEffect`, `Counterexamples.TakenKeyStrands`, `Counterexamples.TakenKeyIsLost`).
  It keeps the manager sound in exactly the other cases (`ManagerSpec.InsertKeepsInvIff`), and so does a run
  (`ManagerRuns.SafeRunIff`).
- The version check finds a live channel by its original address and port only. A refused insertion can evict
  that key, and then an update may change the content of the channel under the same version
  (`LineupRuns.SafeIffFound`, `LineupRuns.InsertKeepsFoundIff`, `Counterexamples.HiddenVersionChanges`). A
  successful commit makes every live channel found again (`LineupRuns.CommitFindsAll`).
- A walk finds a candidate through the channel map, so it may find one that has the address and port asked for as
  those of an RTCP or FEC stream (`UpdateCursor.FindReturnsTheMatch`).
- A commit does not ask whether the candidate was accepted. It installs a rejected candidate too, and fails
  half way exactly when the active candidates are not compatible (`UpdateSpec.CommitEffect`).
- The default RTCP port loses the carry out of the low octet (`SdpSound.DefaultRtcpPort`,
  `Counterexamples.CarryIsLost`).
- A lookaside channel over UDP without an RTCP port passes validation and can never be registered; source
  mode leaves further ports uncompared (`SdpSound.SoundKeysIff`, `Counterexamples.UdpLookasideUnusable`,
  `Counterexamples.SourceModeUnusable`).
- `read_line` does not advance on a line that is too long, and then the reading loop hangs
  (`LineReader.StuckIff`, `LineReader.ReadsEndIff`, `Counterexamples.LongLineHangs`); a CR that is not
  followed by an LF swallows the next byte (`LineReader.AllTextIff`, `Counterexamples.LoneCrSwallows`).
- A session key with an empty creator address still survives the way through a handle, because five words
  are accepted in an o= line (`SdpHandle.HandleResolvesIff`, `Counterexamples.EmptyCreatorResolves`).
- A printed channel outside source mode is rejected when a source filter, the bit rate, or the RTCP port of the
  original stream or of an FEC stream in use is missing, and FEC is not read back unless the channel is an STB's
  (`RoundTrip.PrintThenValidate`, `Counterexamples.PrintedIsRejected`).
- In source mode the printer leaves out the RTCP port of the original stream, so that a VAM's channel over RTP
  comes back with the default port or is rejected, and it marks an STB's original section as inactive, so that
  the original stream is lost over RTP and the channel can no longer be registered (`RoundTrip.PrintThenValidate`,
  `RoundTrip.SourceKeysKeptIff`, `Counterexamples.OriginalChanges`, `Counterexamples.SourceModeUnusable`).
- The comment on failover entries at eva/vqec_rtp.c:864 speaks of active ones; the code does not look at
  activity there, and the model follows the code.

## Model

| member | source | states |
|---|---|---|
| `RepairReceiver.RepairSession.LookupLocalSrc` | eva/rtp_repair_recv.c:804-833 | returns the slot of a cached source, and -1 for any id that is not cached, the null id included |
| `RepairReceiver.RepairSession.CompareSrcTable` | eva/rtp_repair_recv.c:842-882 | true exactly when the table has as many rows as the cache has sources and every row is cached |
| `RepairReceiver.RepairSession.CheckSrcTable` | eva/rtp_repair_recv.c:893-925 | true exactly when no two rows share an SSRC and, with the filter on, every row carries the filter's SSRC |
| `RepairReceiver.RepairSession.DeleteMember` | eva/rtp_repair_recv.c:935-1017 | under the lock the callback changes nothing; otherwise the source leaves the cache, and an IPC failure ends in the error state; the count assertion holds |
| `RepairReceiver.RepairSession.EnterErrorState` | eva/rtp_repair_recv.c:730-792 | with the re-entrant deletions it triggers, leaves an empty cache, a zero count and no filter |
| `RepairReceiver.RepairSession.AddNewSource` | eva/rtp_repair_recv.c:1026-1091 | succeeds exactly when the cache has room and the RTP layer takes the source, which then occupies a free slot |
| `RepairReceiver.RepairSession.FindAddNewSources` | eva/rtp_repair_recv.c:1108-1141 | adds the uncached rows in order and stops at the first refusal |
| `RepairReceiver.RepairSession.UpdateSources` | eva/rtp_repair_recv.c:1152-1236 | a stale table is fetched again once; returns true exactly when the table is empty, or there is a table to go by and the cache can become it |
| `RepairReceiver.RepairSession.UpcallEv` | eva/rtp_repair_recv.c:1245-1304 | the upcall of the state machine: ignored in the error and shutdown states, and every state keeps the invariant |
| `RepairReceiver.RepairSession.DelStaleSources` | eva/rtp_repair_recv.c:1313-1370 | exactly the cached sources that the table does not list are removed |
| `RepairReceiver.RepairSession.PrimaryPktflowSrcUpdate` | eva/rtp_repair_recv.c:1381-1490 | the filter install with reconciliation, check against the old filter, and leaving the error state |
| `RepairSpec.UpcallKeepsInv` | eva/rtp_repair_recv.c:1245-1304 | the count is the number of occupied slots, occupied ids are distinct, first-wait and error have an empty cache: kept by upcalls |
| `RepairSpec.MemberDeletedKeepsInv` | eva/rtp_repair_recv.c:935-1017 | the same invariant is kept by member deletions |
| `RepairSpec.PktflowKeepsInv` | eva/rtp_repair_recv.c:1381-1490 | the same invariant is kept by filter installs, and afterwards an enabled filter is the one installed |
| `RepairTheorems.InSyncMeansEqual` | eva/rtp_repair_recv.c:842-882 | a checked table that compares equal names exactly the cached sources, by counting distinct entries |
| `RepairTheorems.UpdateLeavesAcceptedTable` | eva/rtp_repair_recv.c:1152-1236 | a successful update on a nonempty table leaves the cache equal to the table it settled on, reported or fetched again |
| `RepairTheorems.UpdateSucceedsIff` | eva/rtp_repair_recv.c:1152-1236 | an update succeeds exactly when the reported table passes the check, or the fetched one does after it, and that table is null-free, contains the cached sources, and its other sources are taken by the RTP layer |
| `RepairTheorems.UpcallIs` | eva/rtp_repair_recv.c:1245-1304 | what each upcall comes to: nothing, an active session with exactly the sources of the table it goes by and the same filter, or a failed one without cache and filter |
| `RepairTheorems.MemberDeletedIs` | eva/rtp_repair_recv.c:935-1017 | what each member deletion comes to: nothing, exactly that source gone from the cache, or a failed session when the dataplane does not answer |
| `RepairTheorems.AddSucceedsIff` | eva/rtp_repair_recv.c:1108-1141 | while cache and table fit together, adding succeeds exactly when the RTP layer takes all new sources |
| `RepairTheorems.ReconcileReachesTable` | eva/rtp_repair_recv.c:1443-1471 | stale removal then addition reaches the table exactly when the sources are taken, and is in sync exactly without null rows |
| `RepairTheorems.PktflowSucceedsIff` | eva/rtp_repair_recv.c:1381-1490 | exactly when a filter install succeeds, so that its capacity and out-of-sync errors are unreachable, and the cache, filter and state that either outcome leaves; a null source asks for nothing |
| `RepairTheorems.FilterSwitch` | eva/rtp_repair_recv.c:1422-1473 | an enabled filter moves to another SSRC exactly when the dataplane has no source under it; otherwise the session fails |
| `RepairTheorems.Run` | eva/rtp_repair_recv.c:1245-1490 | the repair invariant holds after every sequence of upcalls, deletions and filter installs |
| `RepairTheorems.FilterConfinesCache` | eva/rtp_repair_recv.c:893-1490 | if filter installs return matching rows only, an enabled filter always confines the cache to at most one source with its SSRC |
| `PrimaryReceiver.PrimarySession.FindMostRecentEntry` | eva/rtp_era_recv.c:1011-1119 | finds the active row received last, the later one of equals |
| `PrimaryReceiver.PrimarySession.PromoteSrc` | eva/rtp_era_recv.c:935-1000 | permits the source, adds it, and notifies the repair session exactly when both succeed and error repair is enabled |
| `PrimaryReceiver.PrimarySession.InstallNewPktflowSrc` | eva/rtp_era_recv.c:1011-1119 | the election among the rows of a table, which row is promoted, and what becomes of this session and of the repair session |
| `PrimaryReceiver.PrimarySession.UpdatePktflowSrc` | eva/rtp_era_recv.c:1128-1223 | keeps, refreshes or replaces the packet-flow source |
| `PrimaryReceiver.PrimarySession.UpcallEv` | eva/rtp_era_recv.c:1232-1344 | the upcall of the primary state machine with its effect on the repair session |
| `PrimarySpec.MostRecentIsUnique` | eva/rtp_era_recv.c:1011-1119 | the election among active rows has one answer, however it is computed |
| `PrimaryTheorems.InstallIs` | eva/rtp_era_recv.c:1011-1119 | the row promoted is the first permitted one if that is active, else for an SSM session the active row heard from last, else the first one buffered for failover; without such a row nothing is promoted; the session after each outcome, field by field |
| `PrimaryTheorems.UpcallIs` | eva/rtp_era_recv.c:1128-1344 | every upcall: an active own source stays and is refreshed if its threshold count moved, and in all other cases there is that election |
| `PrimarySpec.UpcallKeepsInv` | eva/rtp_era_recv.c:1232-1344 | a packet-flow source is the last one permitted; first-wait and error have none; a promotion sets it |
| `SessionRuns.Run` | eva/rtp_era_recv.c:935-1000 | over every interleaving, a packet-flow source and an enabled filter agree: the filter is that source's SSRC, also in the dataplane; with error repair enabled a repair session without a filter has then failed |
| `SessionRuns.PromotionIsPassedOn` | eva/rtp_era_recv.c:935-1000 | the repair session is touched by a primary upcall exactly when a source is promoted and error repair is enabled, and what that does to its filter, cache and state |
| `SessionRuns.OtherEventsAre` | eva/rtp_repair_recv.c:935-1304 | upcalls and deletions of the repair session leave the primary session alone, and the shutdown of the primary leaves the repair session alone; what each of them comes to |
| `SessionRuns.RepairSharesPrimarySsrc` | eva/rtp_repair_recv.c:1381-1490 | with an honest dataplane the repair session then knows at most one source, with the primary's SSRC |
| `SessionRuns.StatesOnlyAdvance` | eva/rtp_era_recv.c:1232-1424 | first-wait is never re-entered, error is left only by shutdown and never regains a source, shutdown is final |
| `SessionRuns.ActiveHasSource` | eva/rtp_era_recv.c:1128-1344 | given non-null keys, an active primary session always has the source it permitted last |
| `ChannelMap.ChannelMapDb.Lookup` | cfg/cfg_channel.c:4524-4560 | finds exactly the entry of the abstract map |
| `ChannelMap.ChannelMapDb.Add` | cfg/cfg_channel.c:4405-4450 | inserts if the port is nonzero and the key absent, and otherwise changes nothing; chains stay well formed |
| `ChannelMap.ChannelMapDb.Remove` | cfg/cfg_channel.c:4459-4521 | deletes the key whoever owns it, and always reports success |
| `ChannelMap.PushStores` | cfg/cfg_channel.c:4405-4450 | a node put in front of its bucket keeps keys unique and every node in its bucket |
| `ChannelMap.CutStores` | cfg/cfg_channel.c:4459-4521 | a node cut out of its chain takes exactly its entry out of the map |
| `Channels.AttemptedIsRemoved` | cfg/cfg_channel.c:534-648 | removal covers every key that registration attempts, and outside source mode nothing else |
| `Registration.TryAllEffect` | cfg/cfg_channel.c:260-507 | a list of keys goes in exactly when all are free and distinct, and never disturbs the entries of others |
| `Registration.RegisterSucceedsIff` | cfg/cfg_channel.c:260-525 | registration succeeds exactly when the attempted keys have ports, are distinct and absent, and the session key is new; then exactly they are gained |
| `Registration.RejectionEffect` | cfg/cfg_channel.c:260-525 | what each of the three kinds of refusal leaves: the old index; the old index without all removal keys; or, for a session key that is taken, the index with every attempted key for a handle that is not kept |
| `Registration.TrueRollbackIff` | cfg/cfg_channel.c:260-648 | any refusal is a true rollback exactly when it is at the first key, or at a later one with no removal key and no session key owned before |
| `Registration.ConflictEvictsOwner` | cfg/cfg_channel.c:4383-4521 | a later refusal because of another channel deletes that channel's entry |
| `RegisteredKeys.RegisterByField` | cfg/cfg_channel.c:260-525 | a registration makes each original, FEC and second FEC address and port, and each feedback target with its ports, lead to the handle in its map, and changes nothing else |
| `RegisteredKeys.UnregisterByField` | cfg/cfg_channel.c:534-648 | a removal takes out exactly these, and the retransmission RTP port in any case |
| `RegisteredKeys.AttemptedInOrder` | cfg/cfg_channel.c:260-507 | the keys that are tried, field by field, with their guards and in the order of the code |
| `ChannelManager.ChannelMgr.AddMap` | cfg/cfg_channel.c:260-525 | computes Registration.Register on the heap maps, key by key in the source's order; on success every address and port of the channel leads to its handle and nothing else changed |
| `ChannelManager.ChannelMgr.DelMap` | cfg/cfg_channel.c:534-648 | computes Registration.Unregister: the addresses and ports of the channel, those of both FEC streams included, and its session key are gone |
| `ChannelManager.ChannelMgr.Add` | cfg/cfg_channel.c:83-146 | computes ManagerSpec.Add with its four error codes |
| `ChannelManager.ChannelMgr.Delete` | cfg/cfg_channel.c:154-208 | removes keys and record and leaves a hole in the handle table |
| `ChannelManager.ChannelMgr.Insert` | cfg/cfg_channel.c:657-725 | a record with the same content, field by field, takes the first hole or the end; a full table undoes the registration |
| `ChannelManager.ChannelMgr.DestroyAll` | cfg/cfg_channel.c:1186-1205 | for any manager, sound or not, computes ManagerSpec.Emptied: each listed channel is deleted in turn, and the table ends empty |
| `ManagerSpec.EmptiedIff` | cfg/cfg_channel.c:1186-1205 | exactly the listed records go, and both maps and the session keys end empty exactly when each entry is a removal key, and each session key the key, of a listed channel |
| `ManagerSpec.AddKeepsInv` | cfg/cfg_channel.c:83-146 | after an addition, successful or rolled back, every map entry resolves to a live channel that has that key |
| `ManagerSpec.RejectionKeepsInvIff` | cfg/cfg_channel.c:260-525 | a refused registration leaves the manager sound exactly when the session key is new or the first key is refused |
| `ManagerSpec.InsertKeepsInvIff` | cfg/cfg_channel.c:657-725 | an insertion, also into a full table, leaves the manager sound exactly when the session key is new or the first key is refused |
| `ManagerSpec.DeleteKeepsInv` | cfg/cfg_channel.c:154-208 | the same after a deletion, which removes exactly one live channel |
| `InsertedRecords.AddByField` | cfg/cfg_channel.c:83-146 | when each code of an addition is returned, and that a new channel is stored as it was validated, last in the table and under all its keys, while a refused one leaves records and table alone |
| `InsertedRecords.InsertByField` | cfg/cfg_channel.c:657-725 | when an insertion succeeds, and that the record it creates agrees with the channel in every field but the use mark and the re-sourced bandwidths, which are cleared |
| `InsertedRecords.DeleteByField` | cfg/cfg_channel.c:154-208 | a deletion takes out the record, the first place of its handle in the table, its addresses and ports, and its session key |
| `ManagerRuns.SafeRunIff` | cfg/cfg_channel.c:83-725 | over every run of add, insert and delete: entries resolve, live channels are listed once and capacity holds at every point, exactly when no insertion brings a taken session key with a free first key |
| `ManagerRuns.DestroyAllEmptiesIff` | cfg/cfg_channel.c:1186-1205 | after every run, harmful insertions included, destroying all channels leaves no record, and empties maps and session keys exactly when no entry was stranded; after a harmless run always |
| `LineupSpec.LoadInv` | cfg/cfg_database.c:142-422 | the counters of a load add up, the table has no holes, and records outside the manager stay |
| `LineupSpec.SupplyExists` | cfg/cfg_channel.c:107-111 | the id manager can always give out the handles of a load, so no statement about loads is empty |
| `LineupSpec.RegisterBesideIff` | cfg/cfg_channel.c:223-525 | a newcomer is registered beside others exactly when its keys are usable and disjoint from theirs and its session key is new |
| `LineupSpec.AcceptedIff` | cfg/cfg_config.c:151-187 | a load is accepted exactly when every session is valid, all key sets are pairwise disjoint, session keys differ and the capacity holds; then every key leads to its channel |
| `LineupSpec.LoadCounts` | cfg/cfg_database.c:199-322 | the counters of a load are the numbers of sessions, of those that parse, and of those with a syntax error |
| `LineupKeys.LineupByField` | cfg/cfg_channel.c:260-525 | two channels with an address and port in common, in a second FEC stream or anywhere else, are never accepted together; in an accepted lineup each address and port leads to its own channel |
| `UpdateSpec.UpdateEffect` | cfg/cfg_config.c:411-515 | beside any sound live lineup, holes and evicted keys included, an update leaves the live table, maps and records; it is accepted exactly when its sessions can be loaded together and the version of each active one suits the active live channel, if any, that has its session key and owns its original address and port as any key; the candidate is then exactly its input |
| `UpdateSpec.CommitEffect` | cfg/cfg_config.c:1680-1727 | a commit of any candidate, rejected ones included, succeeds exactly when its active channels are compatible, and then installs exactly these, in order, without holes, each found by its original address and port; both managers stay sound either way, and an accepted candidate always succeeds |
| `CommittedRecords.CommitByField` | cfg/cfg_config.c:1680-1727 | a commit installs the active candidates in order, each record with its whole content, up to the first one whose keys are unusable or that shares an address and port with an earlier active one, and succeeds exactly when there is none |
| `UpdateSpec.CommitSupplyExists` | cfg/cfg_channel.c:665-680 | the id manager can always give out the handles of a commit |
| `LineupRuns.InitIs` | cfg/cfg_config.c:73-208 | after initialization the live lineup is the input if every session is valid and the channels are compatible, and empty otherwise |
| `LineupRuns.CommitKeepsVersions` | cfg/cfg_config.c:2177-2267 | across a commit after a successful update, a channel that was found keeps or raises its version under the same session key, address and port, and its checksum changes only with it |
| `LineupRuns.VersionsOnlyRise` | cfg/cfg_config.c:1680-2267 | the same over whole runs of updates, commits, insertions and removals, rejected updates included, if commits follow successful updates and find the channel |
| `LineupRuns.SafeIffFound` | cfg/cfg_config.c:2210-2245 | every accepted update keeps or raises the version of a live channel, and changes its content only with it, exactly when the channel is found by its original address and port |
| `LineupRuns.InsertKeepsFoundIff` | cfg/cfg_config.c:2103-2120 | an insertion hides a live channel that was found exactly when it is refused past its first key and has that channel's original key among its removal keys |
| `LineupRuns.CommitFindsAll` | cfg/cfg_config.c:1680-1727 | after a successful commit every live channel is found |
| `Configuration.ConfigModule.LoadSessions` | cfg/cfg_database.c:142-422 | the session loop with its counters computes LineupSpec.LoadAll |
| `Configuration.ConfigModule.Init` | cfg/cfg_config.c:73-208 | a lineup with any rejected session is destroyed again |
| `Configuration.ConfigModule.CleanupUpdate` | cfg/cfg_config.c:2127-2150 | the old candidate and its records are gone, and the live lineup is untouched |
| `Configuration.ConfigModule.CompareVersions` | cfg/cfg_config.c:2210-2245 | reports neither an old version nor a changed content exactly when the row is acceptable beside its predecessor |
| `Configuration.ConfigModule.ValidateAll` | cfg/cfg_config.c:2177-2267 | true exactly when every session made it into the candidate and every row is acceptable |
| `Configuration.ConfigModule.Update` | cfg/cfg_config.c:411-515 | computes UpdateSpec.Update on two heap managers and resets the walk on success only |
| `Configuration.ConfigModule.CommitUpdate` | cfg/cfg_config.c:1680-1727 | for any pair of managers, sound or not, computes UpdateSpec.Committed and keeps the candidate |
| `Configuration.ConfigModule.FindInUpdate` | cfg/cfg_config.c:1960-1987 | marks and returns the active candidate with the same address, port and session key, if any |
| `Configuration.ConfigModule.GetNextInUpdate` | cfg/cfg_config.c:2083-2100 | marks and returns the first unused active candidate from the last position on |
| `UpdateCursor.UpdateStartsCursor` | cfg/cfg_config.c:503-510 | a successful update leaves the walk at its start with no candidate used |
| `UpdateCursor.FindReturnsTheMatch` | cfg/cfg_config.c:1960-1987 | under any interleaving, find returns a candidate exactly when it is active and has the session key, and the address and port as those of its original stream or of an FEC stream |
| `UpdateCursor.NextReturnsTheRest` | cfg/cfg_config.c:1960-2100 | under any interleaving of find and next, next returns the first active candidate in the table that was never returned before, and NULL exactly when none is left |
| `UpdateCursor.NullForEver` | cfg/cfg_config.c:2083-2100 | once next has returned NULL it does so after any further calls |
| `SdpHandle.ParseSessionKey` | cfg/cfg_channel.c:4830-4882 | the strtok_r loop on '#' computes OriginOf, with its clipped fields and early end |
| `SdpHandle.ParseOLine` | cfg/cfg_config.c:1849-1922 | the strtok_r loop on spaces computes ReadOLine: five or six words, clipped fields |
| `SdpHandle.HandleResolvesIff` | cfg/cfg_config.c:732-866 | the handle made from a session key leads back to the key exactly when user name and session id are nonempty and all fields are free of space and '#' and at most 80 characters |
| `SdpHandle.ChannelHandles` | cfg/cfg_config.c:686-866 | in an accepted lineup an active channel is given a handle under its address, port and protocol only, and it resolves back exactly when the key is well formed |
| `SdpHandle.EquivalentIff` | cfg/cfg_config.c:917-963 | handles of any keys and versions are equivalent exactly when both can be read and lead to the same session key; for well-formed keys, exactly when the keys are equal |
| `LineReader.ReadLine` | cfg/cfg_config.c:1181-1228 | next position and complete buffer contents, for every start, text and buffer size |
| `LineReader.StuckIff` | cfg/cfg_config.c:1200-1227 | no progress exactly when no terminator is in the next max_length bytes and the text goes on |
| `LineReader.ReadsEndIff` | cfg/cfg_config.c:1334-1340 | repeated reads reach the end, where read_line returns -1, exactly when every line has its terminator within max_length bytes or ends with the text |
| `LineReader.ReadAll` | cfg/cfg_config.c:1330-1340 | repeated reads of a text whose lines end in time, which is when the loop ends at all, give all lines, and join to the text with CR LF as LF exactly when every CR precedes an LF |
| `LineReader.AllTextIff` | cfg/cfg_config.c:1202-1216 | the joined lines are the normalized text exactly when every CR precedes an LF |
| `SessionReader.ReadSessions` | cfg/cfg_database.c:195-330 | the line loop yields, in order, the nonempty texts between boundaries, without comments, cut at the buffer size; each is shorter than the buffer |
| `SessionReader.TextEmptyIff` | cfg/cfg_database.c:199-322 | a session buffer is empty exactly when nothing was kept, so skipping the reset for an empty session is harmless |
| `FileSessions.SessionsAreStored` | cfg/cfg_database.c:195-330 | the sessions of any file are, in order, the texts of the segments between boundary lines, each the longest run of its lines without comments and blank ones that stays below the buffer size, empty ones left out |
| `SessionReader.WriteThenRead` | cfg/cfg_database.c:430-512 | reading a written file gives the printed channels back, one session each, inactive ones left out |
| `SdpValidator.GetBitRate` | cfg/cfg_channel.c:4745-4767 | the first AS bandwidth |
| `SdpValidator.FigureOutSessionType` | cfg/cfg_channel.c:4569-4736 | the kind of a section from its first a=rtpmap line, transport, address and bandwidth |
| `SdpValidator.CheckGroups` | cfg/cfg_channel.c:2670-2887 | the loop over group lines accepts exactly the groups that are needed and right |
| `SdpValidator.FinalPass` | cfg/cfg_channel.c:2920-3358 | the final checks in the order of the code, with ports filled in and flags cleared on the way, accept exactly the channels that meet the conditions on the ports as read, and extract the same record |
| `SdpValidator.ValidateAndExtract` | cfg/cfg_channel.c:1255-3410 | the whole validation computes Validate and accepts only sound channels, whose own keys are usable exactly when the ports left unchecked are, and whose fields come from the session level and from the last section of each kind |
| `Described.KindIs` | cfg/cfg_channel.c:4569-4736 | the kind of a section from its first a=rtpmap line, its transport, address and bandwidths, and from whether an FEC section came before |
| `DescribedSections.ReadLinesAre` | cfg/cfg_channel.c:1420-2545 | a section can be read exactly when each of its lines fits its kind, and every value it leaves is that of the last line that gives it |
| `Described.SectionsAre` | cfg/cfg_channel.c:1420-2545 | a list of sections can be read exactly when each fits its own kind, and every value in the end comes from the last section or line that gives it, or is the default |
| `AcceptedChannels.ValidateIff` | cfg/cfg_channel.c:1255-3410 | a description is accepted, and gives a certain channel, exactly when its session level and sections fit and what its lines say meets the role table, the group rules and the checks of the mode, with every field of the record determined |
| `AcceptedChannels.AcceptedByField` | cfg/cfg_channel.c:1255-3410 | a channel is active exactly when the stop time is zero; name, session key and version are those of the session level; address, port and payload type of each stream are those of the last section of its kind, and its RTCP port that of the last a=rtcp line |
| `SdpSound.DefaultRtcpPort` | cfg/cfg_channel.c:4776-4799 | the default RTCP port is the next port exactly when the low octet is not 255, is 255 below otherwise, and is always usable |
| `SdpSound.AcceptedIsSound` | cfg/cfg_channel.c:1255-3410 | every accepted channel has ports, payload types, addresses, bandwidths and flags in range and mutually consistent |
| `SdpSound.SoundKeysIff` | cfg/cfg_channel.c:2920-3358 | the own keys of an accepted channel are nonzero and distinct exactly when the ports that its mode leaves unchecked are |
| `SdpSound.AcceptedRtpKeys` | cfg/cfg_channel.c:3068-3358 | registration of an accepted RTP channel outside source mode fails only against another channel |
| `RoundTrip.PrintThenValidate` | cfg/cfg_database.c:579-940 | for every accepted channel of any role and mode, over RTP or UDP, the exact result of printing and validating: the channel as ReadBack describes it if it is printable, and rejection otherwise |
| `RoundTrip.SourceKeysKeptIff` | cfg/cfg_database.c:640-720 | in source mode what comes back has the same index keys exactly when the original stream comes back with its address and ports, and an STB's channel over RTP comes back with keys that can never be registered |
| `RoundTrip.PrintedComesBack` | cfg/cfg_database.c:579-940 | what comes back agrees field by field with the channel that was printed: name, key, version, role, mode, feedback and retransmission always, FEC for an STB, the original stream outside source mode and the re-sourced one in it |
| `PrintedFields.PrintedByField` | cfg/cfg_database.c:579-940 | a printed description has a section for each stream with its address, port, payload type, direction and RTCP port, those that are left out excepted |
| `Reload.SessionIsProper` | cfg/cfg_channel.c:1213-1245 | the key looked up before validation is the key that validation extracts |
| `Reload.ActiveListIs` | cfg/cfg_database.c:475-505 | what is saved is each active channel that the table lists, in order, and nothing else |
| `Reload.SavedFileReloads` | cfg/cfg_database.c:142-512 | saving any handle table, holes, inactive and source-mode channels included, and loading the file is accepted exactly when all active channels are printable and what comes back is compatible, and the lineup is then exactly that, in order; for compatible channels outside source mode being printable is enough |
| `Reload.ActivesAreCompatible` | cfg/cfg_database.c:475-505 | the active channels of an accepted lineup are compatible, so that the above applies to them |
| `Reload.ReloadIff` | cfg/cfg_database.c:475-505 | a list of active channels is accepted again after each was printed exactly when all are printable, what comes back is compatible, and the capacity holds |
| `Counterexamples.SecondFilterFails` | eva/rtp_repair_recv.c:1422-1473 | a run of two filter installs with matching tables that ends in the error state |
| `Counterexamples.NewcomerEvicts` | cfg/cfg_channel.c:4459-4521 | two accepted descriptions: adding the second to a sound manager with the first is refused and deletes a key of the live channel |
| `Counterexamples.TakenKeyStrands` | cfg/cfg_channel.c:508-523 | an insertion under a taken session key after which a map entry resolves to no record |
| `Counterexamples.TakenKeyIsLost` | cfg/cfg_channel.c:534-648 | an insertion under a taken session key after which a live channel has lost it |
| `Counterexamples.UdpLookasideUnusable` | cfg/cfg_channel.c:3068-3150 | a description of a UDP lookaside channel that is accepted and can never be registered |
| `Counterexamples.SourceModeUnusable` | cfg/cfg_channel.c:2975-3066 | the same for a source-mode channel whose original stream has no port; what is printed for it is rejected |
| `Counterexamples.OriginalChanges` | cfg/cfg_database.c:640-720 | source-mode channels of a VAM and of an STB that are printable and whose original stream comes back changed |
| `Counterexamples.HiddenVersionChanges` | cfg/cfg_config.c:2103-2245 | a live lineup, a refused insertion, and an accepted update that changes a channel's content under the same version |
| `Counterexamples.PrintedIsRejected` | cfg/cfg_database.c:579-940 | an accepted channel without a source filter whose printed description is rejected |
| `Counterexamples.LongLineHangs` | cfg/cfg_config.c:1218-1227 | a text on which no number of reads gets past the first line |

## Left out

- Sockets, timers, RTCP reports and BYEs, XR statistics, NCSI and PLI messages, channel events: I/O over libraries.
- The internals of both dataplanes; each IPC call is a result that an event carries. IPC calls whose results the code ignores (deleting sources in the dataplane) change nothing in the model.
- SSRC collisions that make the RTP layer call back while a source is added; `rtp_new_data_source` is taken not to touch the repair cache.
- Error-cause counters, logging and debug output, and malloc failure.
- The SDP text parser: a description is a record of sections, addresses are numbers or not addresses at all, and two spellings of one address are not told apart. A port is its number; only the default RTCP port rule looks at its bytes.
- The MD5 checksum, which is a number given with each session.
- XR and reduced-size attributes of a description, and the floating-point check that only warns about XR data.
- `vod_validation_and_extraction`, which repeats linear checks and never reaches the index; `cfg_remove_redundant_FBTs`; `cfg_channel_extract`.
- Opening, renaming and saving files; `cfg_shutdown`; the XML, print and statistics output.
- `cfg_db_create_SDP` formats the o= line into a local buffer of 81 bytes with a limit of 400 (cfg/cfg_database.c:586-889). An o= line of more than 80 characters does not fit, and what is printed then is undefined; the model prints at record level, so what it says about printing is meant for o= lines that fit.
- LineReader.ReadAll: a line that fills the buffer is copied without a terminating null, and the code then reads past the buffer; the model takes the buffer as the text.
- LineupRuns.VersionsOnlyRise: runs have harmless insertions and removals of live channels only; others can make the live manager unsound (ManagerSpec.InsertKeepsInvIff) or free a record of the candidate.
- SdpValidator.ValidateAndExtract: in source mode without a source filter on the re-sourced stream the code compares an uninitialized buffer; the model rejects.
- Configuration.ConfigModule.Update: a file that cannot be opened or read is not modelled, since it leaves the state as after the clean-up.
- Registration.RegisterSucceedsIff: the session-key table is a plain map that refuses duplicates.
- `cfg_parse_all_channel_data` beyond its read loop: its session loop is the one of `cfg_db_read_channels` with one more kind of blank line.
