# Verified models of the Media Transport Library tools

A Dafny model of three parts of the Media Transport Library repository, with proofs about every
input and every run.

**The manager daemon.** One event loop serves any number of clients, which take and give back lcores,
NIC queues, flow-rule locations and UDP port filters. `ManagerModel` is the daemon as a step machine:
a state, an event (a connection accepted, a message, a connection closed) and a total step function
that also takes the kernel's answers during the step. The classes in `Lcore`, `Interface`, `Instance`,
`Disconnect` and `Manager` are the daemon's objects, updated in place as in the source; the event loop
over them is proved to run the step machine (`Manager.Manager.Run`). Everything else is proved about
the step machine:

- `Coherence`: what holds in every run of every kind of client. At most one live object per
  interface, use counts equal to the number of holders, no dangling pointer, no client record of an
  interface it does not hold, so the destructor never builds one.
- `NoLeak`: no lcore or queue is marked without a client that records it. No hypothesis on clients
  either.
- `Strays`: the rules in the kernel's tables that no client records. Exactly how they come and go is
  proved for every step, whatever clients and kernel do, and then counted over runs: the daemon makes
  none if deletions at disconnection work, and each clear of a table removes one.
- `Exclusivity`: `put_lcore`, `put_queue` and `del_flow` ask only the shared table, so a client can
  release what another one holds. For each single resource, ownership is exclusive all along a run
  **if and only if** no step releases the resource while another client records it; what happens to
  other resources does not matter. The condition on a step is about the message and the records
  before it. The same is proved of queue 0 of an interface, which is the system's.
- `Conservation`: each shared table as the disjoint union of the clients' records, and of the strays
  in the case of rules, under polite releases of that kind alone, and counting as a consequence.
- `Ownership`: the daemon refines an allocator whose state is the owner of each resource, the stray
  rules, the connections and the open interfaces. The allocator runs on the events alone, decides by
  itself whether the events are in order, and then daemon and allocator agree in state and in every
  answer, from any kernel tables and with any answers of the kernel.
- `Filter`, `FilterRuns`: the port filter. The BPF map is a cache of a count with room for 256 ports,
  and the exact content of the cache after any history is proved, then carried through runs of many
  clients to the verdict of the XDP program on a packet.

**The FFmpeg plugin.** `DmaList`, `DevicePorts` and `DeviceParams` build the device parameters from
the options; `SharedDevice` is the reference-counted handle that all sessions share.

**Data layout.** `PixelGroup` (the pixel groups of section 4.3 of RFC 4175), `FieldSplit` (frames into
fields, with `Blocks`), and the sample programs `AncSender`, `VideoSender` and `VideoDump`. `Modulo`
holds the facts about remainders they need.

`dafny verify dfyconfig.toml` checks the project.

## What the code does not do

These are proved with the exact condition under which the code does behave.

- A registered client that releases another client's lcore and asks for it again gets it, and both
  then record it (`Exclusivity.ImpoliteRun`; exactly when it fails: `Exclusivity.AlwaysExclusiveForIff`).
  Queue 0, reserved for the system, can be released by anyone, and is then handed out without being
  recorded (`Exclusivity.QueueZeroRun`; exactly when: `Exclusivity.AlwaysReservedIff`).
- `clear_flow_rules` is meant to empty the flow table of an interface when it is built and when it is
  torn down. Its loop is bounded by a field of the request structure that it zeroes in its first turn,
  so it deletes no more than the rule listed first. A table of two rules keeps one that no client
  records (`Strays.ClearLeavesOne`); a clear empties a table exactly if it holds at most one rule
  (`Strays.ClearEmptiesIff`), and the table of an opened interface is all the clients' exactly if it
  started with no more rules than it was cleared times (`Strays.NoStraysIff`).
- A delete followed by an add leaves a port filtered with a count of zero
  (`Filter.DeleteThenAddStaysEnabled`). Removing a filter writes a zero and keeps the map entry, so
  after 256 ports the first add of another one fails, and the second reports success although the
  port is not filtered (`Filter.FullMapRun`). No call is refused exactly when at most 256 ports are
  named (`Filter.AllAcceptedIff`), and map and count agree throughout a history exactly when every
  add fits (`Filter.AlwaysAgreesIff`).
- A client that disconnects does not give back its port filters (`FilterRuns.FilterWithoutClient`).
  They go exactly when no other client holds the interface (`FilterRuns.FiltersOutliveTheirClient`).
- Putting a NULL device handle while no device is open is accepted: it closes NULL and makes the count
  negative (`SharedDevice.PutNullWhileClosed`). Putting a handle twice closes the device under another
  session (`SharedDevice.DoublePutClosesForOthers`). The count is right all along exactly when every
  put of the open handle is a session's own and no session opens twice
  (`SharedDevice.CountedIffProper`).
- With an odd height the second loop of `frame2field` reads one line more than the frame has
  (`FieldSplit.ThreeLinesOverread`); when this leaves the buffer is part of the contract of
  `FieldSplit.Frame2Field`. Bytes that do not fill a line are dropped (`FieldSplit.WholeFrameIff`).

## Model

| member | source | states |
|---|---|---|
| Coherence.StepIsCoherent | manager/mtl_instance.hpp:66-356 | every accept, message and disconnect keeps: pointers lead to the one live object of their interface, use count = number of holders > 0, record keys are held interfaces |
| Coherence.RunsAreCoherent | manager/mtl_manager.cpp:162-237 | that invariant holds after every event sequence, with no hypothesis on clients or kernel |
| Coherence.OneObjectPerInterface | manager/mtl_instance.hpp:215-242 | in every reachable state two holders of an interface hold the same live object, the global weak pointer locks to it, and no other live object serves the interface |
| Coherence.LiveIffHeld | manager/mtl_instance.hpp:222-229 | the weak pointer of an interface locks iff some connected client holds it |
| Coherence.LastHolderIff | manager/mtl_instance.hpp:66-89 | the use count says "last holder" of a leaving client iff no other client holds the interface |
| Coherence.ClearsSpareRecords | manager/mtl_interface.hpp:73-100 | in every run, the clear on building an interface removes no rule that another client records, and a disconnection removes one only if the leaver recorded it too |
| Coherence.LeaveIsCoherent | manager/mtl_instance.hpp:66-89 | a disconnection leaves the others' pointers live and counted |
| NoLeak.StepLeaksNothing | manager/mtl_instance.hpp:151-356 | one step keeps both no-leak invariants |
| NoLeak.RunsLeakNothing | manager/mtl_instance.hpp:66-86 | in every run each set lcore bit is recorded by a connected registered client, and each taken queue is queue 0 or recorded |
| NoLeak.NothingLeftBehind | manager/mtl_instance.hpp:66-86 | once all clients have gone, every lcore is free and every interface object destroyed |
| Strays.ClearEmptiesIff | manager/mtl_interface.hpp:196-229 | with a kernel that lists the table and deletes, a clear removes one rule, so it leaves none iff there was at most one |
| Strays.ClearLeavesOne | manager/mtl_interface.hpp:215-226 | a concrete run: opening an interface with rules 8 and 9 leaves rule 9, recorded by nobody |
| Strays.StepStrays | manager/mtl_instance.hpp:66-356 | which rules nobody records after any step: those before, less the one hit by a clear and one a client deletes, plus those a leaver fails to delete |
| Strays.StraysAreOld | manager/mtl_instance.hpp:78-86 | if deletions at disconnection work, in every run each rule is recorded by a connected client or was there at the start; nothing is asked of clears |
| Strays.ClearsOnlyStrays | manager/mtl_interface.hpp:73-100 | a table being cleared holds only rules that no other client records, and none of the leaver's |
| Strays.StraysCountDown | manager/mtl_interface.hpp:168-233 | with a kernel that does as asked, an interface has at most (initial rules - number of clears) strays, and exactly that many if no client deletes a stray |
| Strays.OpenedMeansCleared | manager/mtl_interface.hpp:73-75 | an interface ever opened was cleared at least once |
| Strays.NoStraysIff | manager/mtl_interface.hpp:73-100 | no strays on an opened interface that started with at most one rule; without deletions of strays, none iff it started with no more rules than clears |
| Strays.OnlyOldRulesLeft | manager/mtl_interface.hpp:93-100 | once all clients have gone, the rules left were there at the start, per interface at most (initial rules - number of clears) |
| Exclusivity.LcoreMessageIsExclusiveIff | manager/mtl_instance.hpp:151-189 | an lcore message keeps any resource exclusive iff it does not release it from a registered sender while another client records it |
| Exclusivity.PutQueueIsExclusiveIff | manager/mtl_instance.hpp:306-321 | the same for a queue release |
| Exclusivity.DelFlowIsExclusiveIff | manager/mtl_instance.hpp:341-356 | the same for a flow deletion, where a refusal of the kernel releases nothing |
| Exclusivity.LeaveIsExclusive | manager/mtl_instance.hpp:66-86 | a disconnection takes nothing from those who stay |
| Exclusivity.StepIsExclusiveForIff | manager/mtl_instance.hpp:106-149 | a step keeps one resource with at most one owner, marked in its table, iff it is polite about that resource |
| Exclusivity.AlwaysExclusiveForIff | manager/mtl_instance.hpp:151-356 | over whole runs, resource by resource: exclusive after every prefix iff every step is polite about it when it happens |
| Exclusivity.OwnReleasesKeepExclusive | manager/mtl_instance.hpp:171-189 | a resource released only by clients that record it is exclusive throughout the run |
| Exclusivity.LcoreGivenIff | manager/mtl_lcore.hpp:40-48 | a registered client is given an lcore iff its number is below 1024 and it is free, and a refusal changes nothing |
| Exclusivity.ZeroIsNeverRecorded | manager/mtl_instance.hpp:299-300 | in every run no client records queue 0 |
| Exclusivity.StepReservesIff | manager/mtl_interface.hpp:157-166 | a step keeps queue 0 of an interface reserved iff it does not release it |
| Exclusivity.AlwaysReservedIff | manager/mtl_interface.hpp:88-88 | queue 0 of an interface is reserved throughout a run iff no step releases it |
| Exclusivity.StepIsExclusiveIff | manager/mtl_instance.hpp:106-149 | the step results for all resources and interfaces together |
| Exclusivity.AlwaysExclusiveIffPolite | manager/mtl_instance.hpp:151-356 | the run results for all resources and interfaces together |
| Exclusivity.ImpolitePutSharesLcore | manager/mtl_instance.hpp:171-189 | put then get of another client's lcore succeeds twice and both record it |
| Exclusivity.ImpolitePutFreesQueue | manager/mtl_instance.hpp:306-321 | putting another client's queue is answered 0 and frees exactly that queue, which its holder still records |
| Exclusivity.ImpoliteDeleteDropsFlow | manager/mtl_instance.hpp:341-356 | deleting another client's rule is answered 0 and removes exactly that rule, which its holder still records |
| Exclusivity.ImpolitePutLosesQueueZero | manager/mtl_instance.hpp:299-317 | put then get of queue 0 succeeds twice and nobody records it |
| Exclusivity.QueueZeroRun | manager/mtl_instance.hpp:289-321 | a concrete run of one client that puts queue 0, is then given queue 0, and does not record it |
| Exclusivity.ImpoliteRun | manager/mtl_instance.hpp:151-189 | a concrete run of two clients that ends with both recording lcore 5 |
| Conservation.LcoresAreUnion | manager/mtl_lcore.hpp:40-58 | after every run polite about lcores the bitset is the disjoint union of the clients' lcore sets, whatever happens to queues and flows |
| Conservation.TakenIsUnion | manager/mtl_interface.hpp:87-88 | taken queues = queue 0 plus the disjoint union of the clients' records, all below the channel count |
| Conservation.QueuesConserved | manager/mtl_interface.hpp:144-166 | after every run polite about an interface's queues, free queues + queues held by clients = channel count - 1, however often it was rebuilt |
| Conservation.QueueRefusedIffAllHeld | manager/mtl_instance.hpp:289-304 | a queue message at the end of such a run, from any connected client, never yields queue 0 and is refused iff the interface cannot be opened or clients hold all other queues |
| Conservation.FlowTableIsUnion | manager/mtl_interface.hpp:267-408 | after every run polite about an interface's flows, the kernel's table is the disjoint union of the clients' recorded locations and the strays; these are old rules if deletions at disconnection work, and none if the interface was opened with at most one and the kernel does as asked |
| Ownership.MessageRefines | manager/mtl_instance.hpp:106-356 | the new state and the answer of any polite message are those of the allocator, whatever the kernel answers |
| Ownership.LeaveFreesOwn | manager/mtl_instance.hpp:66-86 | a disconnection removes exactly the leaver's resources from the owner map |
| Ownership.LeaveRefines | manager/mtl_instance.hpp:66-89 | a disconnection frees what the leaver owns, closes the interfaces that it alone had open after a clear, and makes strays of rules the kernel does not delete |
| Ownership.StepRefines | manager/mtl_manager.cpp:171-236 | every event that the allocator finds in order takes daemon and allocator to the same state with the same answer |
| Ownership.OrderlyRunsRefine | manager/mtl_manager.cpp:162-237 | the same along every sequence of events in order, from any initial kernel tables and with any answers of the kernel: same final state, same list of answers |
| Filter.RefsIsNet | manager/mtl_interface.hpp:114-114 | the count is adds minus deletes on every history, whatever the map does |
| Filter.EntriesAreFirst | manager/mtl.xdp.c:15-20 | after any history the map has entries for exactly the first 256 ports named |
| Filter.AllAcceptedIff | manager/mtl_interface.hpp:124-131 | no call of a history is refused iff it names at most 256 ports |
| Filter.Capacity | manager/mtl.xdp.c:17-17 | 256 adds of different ports all succeed and filter their ports, and the next one is refused |
| Filter.EnabledExactly | manager/mtl_interface.hpp:114-131 | after any history a port is enabled iff it is among the first 256 and its net count is positive or its last call is an add |
| Filter.PositiveCountIsEnabled | manager/mtl_interface.hpp:116-122 | a positive count is enabled iff the port has an entry, balanced or not |
| Filter.AlwaysAgreesIff | manager/mtl_interface.hpp:114-136 | "enabled iff net count positive" holds after every prefix of a history iff every add fits: with an entry the count before it is not negative, without one it is |
| Filter.FewPortsFitIff | manager/mtl_interface.hpp:114-136 | for up to 256 ports that means: no add of a port with a negative count |
| Filter.DeleteThenAddStaysEnabled | manager/mtl_interface.hpp:114-131 | delete then add: count zero, port enabled |
| Filter.FullMapLosesNewPort | manager/mtl_interface.hpp:116-131 | after any history of 256 ports or more, the first add of a new port fails and the second succeeds without enabling it |
| Filter.FullMapRun | manager/mtl_interface.hpp:116-131 | a concrete history: ports 0 to 255, then port 256 twice |
| Filter.VerdictFollowsHistory | manager/mtl.xdp.c:28-64 | the XDP program diverts exactly the IPv4 UDP packets whose port is enabled by the history of calls, for every history |
| FilterRuns.FilterIsHistory | manager/mtl_instance.hpp:272-287 | in every run the filter of a live object is what the filter messages that reached this object made it |
| FilterRuns.PacketsFollowMessages | manager/mtl.xdp.c:36-64 | end to end over every run: the verdict on a packet of a live interface from the messages of all clients |
| FilterRuns.FiltersOutliveTheirClient | manager/mtl_instance.hpp:66-89 | after a client leaves, an interface it held lives iff another client holds it, then with the same filter and verdicts; else the next to open it starts from an empty filter |
| FilterRuns.FilterWithoutClient | manager/mtl_instance.hpp:66-89 | a concrete run in which a port is still diverted after the only client that asked for it has left |
| Lcore.LcoreTable.GetLcore | manager/mtl_lcore.hpp:40-48 | succeeds exactly on a free lcore in range, and marks it |
| Lcore.LcoreTable.PutLcore | manager/mtl_lcore.hpp:50-58 | succeeds exactly on a marked lcore in range, and frees it |
| Interface.FindFreeLocation | manager/mtl_interface.hpp:311-332 | for every table size and list of occupied locations: the greatest free location of 1..size-1, 0 iff there is none, negative iff the size does not fit the signed counter |
| Interface.Interface.ClearFlowRules | manager/mtl_interface.hpp:168-233 | the loop as written deletes the rule listed first, if the kernel lists any and can delete it, and nothing else |
| Interface.Interface.UpdateUdpDpFilter | manager/mtl_interface.hpp:102-142 | new counts, map and return value are those of the step that `Filter` reasons about |
| Interface.Interface.GetQueue | manager/mtl_interface.hpp:144-155 | takes the lowest free queue or fails when there is none |
| Interface.Interface.PutQueue | manager/mtl_interface.hpp:157-166 | frees exactly the named queue if it exists and is taken |
| Interface.Interface.AddFlow | manager/mtl_interface.hpp:267-374 | asks the kernel for the greatest free location and adds exactly that rule |
| Interface.Interface.DelFlow | manager/mtl_interface.hpp:376-408 | removes exactly that rule, or nothing and an error |
| Instance.Instance.GetInterface | manager/mtl_instance.hpp:215-242 | own pointer, else the global one, else a new object after a clear of its table: new shared and client state as in the step machine |
| Instance.Instance.HandleRegister | manager/mtl_instance.hpp:191-213 | the loop over the interfaces stops at the first failure, keeping what it has |
| Instance.Instance.HandleMessage | manager/mtl_instance.hpp:106-356 | shared state, client record and answer after any message are those of the step machine, and nothing else changes |
| Disconnect.Destroy | manager/mtl_instance.hpp:66-89 | the destructor loops and the release of the pointers change the shared state as one disconnection step |
| Manager.Manager.Accept | manager/mtl_manager.cpp:173-194 | appends one fresh unregistered client |
| Manager.Manager.FindClient | manager/mtl_manager.cpp:212-215 | finds the first client with the descriptor |
| Manager.Manager.Deliver | manager/mtl_manager.cpp:211-234 | a message changes the daemon, and is answered, as in the step machine |
| Manager.Manager.Close | manager/mtl_manager.cpp:222-230 | a disconnection changes the daemon as in the step machine |
| Manager.Manager.Run | manager/mtl_manager.cpp:162-237 | the event loop on its objects, for every sequence of events, computes the step machine's final state |
| DmaList.JoinSplit | ecosystem/ffmpeg_plugin/mtl_common.c:147-162 | joining the entries of any text gives the text back |
| DmaList.SplitJoin | ecosystem/ffmpeg_plugin/mtl_common.c:147-162 | splitting joined comma-free names gives the names back |
| DmaList.EmptyEntryTest | ecosystem/ffmpeg_plugin/mtl_common.c:141-145 | the test on first, last and double commas finds exactly the texts with an empty entry |
| DmaList.Parse | ecosystem/ffmpeg_plugin/mtl_common.c:130-163 | accepted iff shorter than 128, no empty entry, at most 32 entries, each shorter than 64; the result has no comma in it and joined is the text |
| DevicePorts.BuildPorts | ecosystem/ffmpeg_plugin/mtl_common.c:86-110 | fails iff a given port has a name of 64 characters or more, a queue count outside 0..65535 or a bad address; else the port at each position is the given one at that position among the given, with its own name, tx and rx queues and address |
| DevicePorts.NextDevPort | ecosystem/ffmpeg_plugin/mtl_common.c:243-251 | the first given port at or after the index and the index behind it, none iff there is none left |
| DevicePorts.ParseSessionPorts | ecosystem/ffmpeg_plugin/mtl_common.c:253-317 | which session ports are used; each gets its own name, else that of the device port at its position, cut to 63 characters, its own address or none, and the UDP port; the payload type stored; fails iff a used port has an argument out of range |
| DevicePorts.DefaultIsCompactedPort | ecosystem/ffmpeg_plugin/mtl_common.c:243-317 | for every pattern of missing ports, the default name of session port i is compacted device port i, never truncated |
| DeviceParams.ParsePacingWay | ecosystem/ffmpeg_plugin/mtl_common.c:47-73 | the pacing value of each of the seven names, automatic without a name, refused otherwise |
| DeviceParams.BuildParams | ecosystem/ffmpeg_plugin/mtl_common.c:75-166 | fails iff the options are not acceptable; else the specified parameters |
| DeviceParams.ParamsAre | ecosystem/ffmpeg_plugin/mtl_common.c:75-166 | which options are acceptable, limit by limit, and the ports, the clock callback, every flag bit and the DMA names that follow from them |
| DeviceParams.CompatibleIsReflexive | ecosystem/ffmpeg_plugin/mtl_common.c:168-183 | a request fits the device it would open itself |
| DeviceParams.CompatibleIsTransitive | ecosystem/ffmpeg_plugin/mtl_common.c:168-183 | fitting composes |
| DeviceParams.CompatibleMeaning | ecosystem/ffmpeg_plugin/mtl_common.c:168-183 | the bit masks and the comparison mean: same compacted ports, same pacing name, same DMA options, and PTP unasked or with the same options as the opener |
| SharedDevice.SharedHandle.Get | ecosystem/ffmpeg_plugin/mtl_common.c:185-220 | new handle, count, parameters and library calls, and the handle returned |
| SharedDevice.SharedHandle.Put | ecosystem/ffmpeg_plugin/mtl_common.c:222-241 | the same for a put, with its error case |
| SharedDevice.AdmittedIff | ecosystem/ffmpeg_plugin/mtl_common.c:185-220 | after any proper run with any number of holders, a session gets the device iff its options are acceptable and want what the opener of the open device wanted, or none is open and the library makes one; it then holds the living device with all others and the count is one more; a refused one changes nothing |
| SharedDevice.OpenerIs | ecosystem/ffmpeg_plugin/mtl_common.c:206-220 | in every run the active parameters are those of the session that opened the device |
| SharedDevice.DevicesAlternate | ecosystem/ffmpeg_plugin/mtl_common.c:185-241 | whatever callers do, opens and closes alternate, each close is of the last opened device (or NULL when none is open), and the stored handle is the living device |
| SharedDevice.StepIsCountedIff | ecosystem/ffmpeg_plugin/mtl_common.c:185-241 | a step keeps count = holders, open iff held, holders on the open device with fitting parameters, iff it is no stray put of the open handle and no second open by a holder |
| SharedDevice.CountedIffProper | ecosystem/ffmpeg_plugin/mtl_common.c:185-241 | that lifecycle holds after every prefix of a run iff every step is proper |
| SharedDevice.HoldersKeepTheDevice | ecosystem/ffmpeg_plugin/mtl_common.c:222-241 | in proper runs every holder's device is the living one, and none lives when nobody holds it |
| SharedDevice.HoldersAgree | ecosystem/ffmpeg_plugin/mtl_common.c:192-204 | in proper runs all holders want the same resources, and every holder that wants PTP has exactly the device's PTP flags |
| SharedDevice.PutNullWhileClosed | ecosystem/ffmpeg_plugin/mtl_common.c:222-241 | a put of NULL with no device closes NULL and makes the count negative; the next open recovers |
| SharedDevice.DoublePutClosesForOthers | ecosystem/ffmpeg_plugin/mtl_common.c:230-237 | a concrete run in which a double put closes another session's device |
| PixelGroup.DigitsAreUnique | app/sample/sample_util.c:627-653 | a bit string has one reading in digits of a given size; used to show that a packing is the only one |
| PixelGroup.PackUnpack10 | include/st20_api.h:1046-1056 | storing and loading samples through the split 10-bit fields are mutual inverses |
| PixelGroup.LoadMemory10 | include/st20_api.h:1046-1056 | five bytes and the eight bit-fields determine each other |
| PixelGroup.WireFormat10 | include/st20_api.h:1046-1056 | five bytes are the packed group iff they spell Cb, Y0, Cr, Y1 as one big-endian 40-bit string |
| PixelGroup.CountModulo | app/sample/sample_util.c:629-652 | counters that wrap at 16 bits still count modulo every power of two up to that |
| PixelGroup.Fill10 | app/sample/sample_util.c:627-653 | for every frame size, group k on the wire is the bit string (0x222+k, 0x111+2k, 0x333+k, 0x112+2k) modulo 2^10, and nothing behind the frame changes |
| PixelGroup.PackUnpack12 | include/st20_api.h:996-1006 | the same inverses for 12 bits |
| PixelGroup.LoadMemory12 | include/st20_api.h:996-1006 | six bytes and the eight bit-fields determine each other |
| PixelGroup.WireFormat12 | include/st20_api.h:996-1006 | six bytes are the packed group iff they spell the 48-bit string |
| PixelGroup.Fill12 | app/sample/sample_util.c:655-681 | the same pattern modulo 2^12 |
| FieldSplit.FieldLine | app/tools/convert_app.c:394-407 | line r of the first or second field is line 2r or 2r+1 of the frame |
| FieldSplit.MergeSplit | app/tools/convert_app.c:394-407 | interleaving the two fields gives the lines of the frame back |
| FieldSplit.SplitMerge | app/tools/convert_app.c:394-407 | splitting an interleaved pair of fields gives the pair back |
| FieldSplit.FramesRestored | app/tools/convert_app.c:387-408 | for any number of frames, frame i of the output is the split of frame i, a permutation of its bytes, and merges back to it |
| FieldSplit.FileRestored | app/tools/convert_app.c:387-408 | if the lines fill the frames, merging the whole output gives all frames of the file back |
| FieldSplit.WriteField | app/tools/convert_app.c:396-400 | one pointer-walking loop leaves the buffer iff its last line does not fit, and else appends exactly every other line |
| FieldSplit.HeightFitsIff | app/tools/convert_app.c:349-407 | both loops stay in the buffer iff the height is even or the bytes left over hold another line |
| FieldSplit.Frame2Field | app/tools/convert_app.c:344-409 | crashes iff the height is zero, or there is a frame, the height is odd and its extra line does not fit; error iff the frame size is zero; else the fields of every whole frame, from which an even height dividing the frame size restores the file |
| FieldSplit.ThreeLinesOverread | app/tools/convert_app.c:402-407 | a concrete frame of three lines: the first loop stays inside, the second does not |
| FieldSplit.WholeFrameIff | app/tools/convert_app.c:348-349 | for an even height the whole frame is restored iff the height divides its size |
| AncSender.StreamIsCyclic | app/sample/tx_st40_pipeline_sample.c:121-143 | for all buffer sizes and limits, the payloads together are a prefix of the source repeated forever |
| AncSender.StreamBytes | app/sample/tx_st40_pipeline_sample.c:121-143 | byte j of all payloads together is byte j modulo the source size of the source |
| AncSender.PayloadIs | app/sample/tx_st40_pipeline_sample.c:121-143 | the length of a payload is the least of the 32-bit buffer size, a non-zero limit and what is left of the pass over the source, and its bytes continue the source or are generated |
| AncSender.StreamLength | app/sample/tx_st40_pipeline_sample.c:123-134 | the same length for payload k of any stream |
| AncSender.StreamFits | app/sample/tx_st40_pipeline_sample.c:121-133 | every payload is within buffer and limit, and empty iff its 32-bit buffer size is 0 |
| AncSender.StreamIsSynthetic | app/sample/tx_st40_pipeline_sample.c:123-140 | without a source, frame k is as long as the lesser of buffer and non-zero limit, and its byte i is k+i modulo 256 |
| AncSender.Sender.FillPayload | app/sample/tx_st40_pipeline_sample.c:104-143 | payload, fill, line number, 16-bit size and cursor; the rest of the buffer is untouched |
| AncSender.SizesAppend | app/sample/tx_st40_pipeline_sample.c:151-168 | polls are independent of each other until a frame is refused |
| AncSender.SizesOfOne | app/sample/tx_st40_pipeline_sample.c:151-168 | a missing frame is passed over, an accepted one is filled, a refused one is filled and ends the thread |
| AncSender.Sender.FrameThread | app/sample/tx_st40_pipeline_sample.c:145-171 | the thread sends exactly that stream, for every pattern of missing and refused frames |
| VideoSender.OpenSource | app/sample/tx_st20_pipeline_sample.c:37-94 | fails iff an opened file has no size, is empty, is no multiple of the frame size or cannot be mapped, or memory is short; a file that cannot be opened gives two blank frames |
| VideoSender.Sender.SendFrame | app/sample/tx_st20_pipeline_sample.c:105-138 | sends the frame under the cursor and moves to the next, wrapping by byte offsets |
| VideoSender.Sender.FrameThread | app/sample/tx_st20_pipeline_sample.c:111-143 | as many frames as polls that got one; the k-th has the bytes of source frame k modulo n, and k as its user index |
| VideoDump.SlotHoldsLatest | app/sample/rx_st20_pipeline_sample.c:38-82 | after any frames, slot j holds the latest frame numbered j modulo 3, or what it held before |
| VideoDump.ReceivedAppend | app/sample/rx_st20_pipeline_sample.c:90-108 | frames received over two stretches of polls are those of the first and then those of the second |
| VideoDump.ReceivedOne | app/sample/rx_st20_pipeline_sample.c:90-108 | a poll yields its frame or none |
| VideoDump.Receiver.Consume | app/sample/rx_st20_pipeline_sample.c:74-82 | overwrites exactly one slot of the mapped file, or none when not dumping |
| VideoDump.Receiver.FrameThread | app/sample/rx_st20_pipeline_sample.c:84-112 | after any pattern of received frames the file has the slots of the specification |

## Left out

- Sockets, epoll, signals, descriptor passing and logging in the manager: a received message is a value, and short, foreign or unknown messages are one `Ignored` message without effect. The kind of reply (plain, queue id, flow id) is not modelled, only its value.
- Loading and attaching the XDP program: an interface either can be set up, with its channel count, or not. That a program stays attached when the constructor fails later, or when it was attached in SKB mode and is detached in native mode, is not modelled. Builds without XDP, in which no interface can be set up, are the case of no channels.
- The ethtool requests: the flow table is a set of locations; its size, what is listed for a clear, and failures are answers of the kernel, of any kind unless a row says that the kernel does as asked. A location that does not fit the table is taken to be refused, so the model does not say what a driver does with a negative one. Addresses and ports inside a rule are not modelled.
- Channel counts outside 1..65536, registrations with more than the eight interfaces that fit a message, and a failing map update for any reason but a full map.
- Header parsing in the XDP program: a packet comes already parsed.
- The session index that `mtl_dev_get` reports, which is only the current count. Counts are unbounded integers, so the wrap of a 32-bit count is not modelled.
- Lookup of the poll-mode driver by port name and parsing of IP addresses: their results are arguments. Fields of the parameters that are the same in every request are not modelled, so comparing structures is comparing the modelled fields.
- Frame sizes and pixel counts that overflow a C `int`, and files and buffers of `frame2field` that cannot be opened or allocated.
- The little-endian and 4:4:4 pixel group layouts, which nothing in the modelled code fills and which would repeat the 4:2:2 proofs, and the declarations for big-endian hosts.
- The other samples (ST 2110-22 and -30 and their variants) repeat the cursor logic modelled here.
- The library itself (pacing, RTP, DMA, pipelines, converters), of which these parts are users.
