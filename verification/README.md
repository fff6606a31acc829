# Audio HAL and audio policy of the MSM7x27A device tree: a verified model

The project models the reasoning-heavy code of the audio HAL (`audio/AudioHardware.cpp`), the audio policy
(`audio/AudioPolicyManager.cpp`), the pin switch (`audio/HardwarePinSwitching.c`) and the device converter
(`audio/audio_hw_hal.cpp`), and proves what they keep over every run or every input.

State machines are given twice: as value-level step functions (`Next`, `Run`) that the safety lemmas are about, and
as classes with mutable fields whose methods are proved equal to those steps. Results of ioctls, opens and client
calls are parameters, so every theorem is for all of them. Device masks and feature masks are sets of bit positions.

| files | what they hold |
|---|---|
| `LpaProtocol`, `LpaSafety`, `LpaLaws`, `LpaSession` | the LPA session: one step per critical section of its lock, safety over all interleavings, what each step does told by the events, kernel resources, the session object |
| `VoipDriver` | the MVS driver shared by the VoIP input and the reference-counted direct output |
| `AacPacking` | packing AAC frames into the read buffer, with an independent decoder |
| `PostProcessing`, `RateSearch` | the DSP feature mask; the nearest-rate search and its inverse table |
| `PolicyTypes`, `Wrappers`, `ForceUse`, `OutputTable`, `PolicyProtocol`, `PolicySafety`, `DirectOutputs`, `PolicyLaws`, `PolicyManager` | the policy's output table, device connections, forced use with FM, gets and releases, exact outcomes of single steps, the manager object |
| `DeviceRouting` | device selection by strategy |
| `PinSwitching`, `DeviceConversion`, `BitMasks` | break-before-make pin switching; conversion of device masks |

`dafny verify dfyconfig.toml` checks everything.

## Where the code does less than its comments or names suggest

Each comes with the exact condition under which the property does hold, and most with a run that shows the failure.

- The wait for a free LPA buffer is not repeated in a loop. Whatever the pool, a spurious wake-up, or a completion for an
  address outside the pool, can grant a buffer that is not there (`SpuriousWakeMisgrants`, `ForeignDoneMisgrants`); it
  does so exactly when no buffer is free and no skip pending (`SpuriousGrantsExactly`), for a completion also only if the
  address is not that of a filled buffer and someone waits (`DoneHandsOffExactly`).
- End of stream is raised at most once between successful flushes as long as no data is accepted while it is received
  (`QuietEosAtMostOnce`). Accepting and completing data then raises it again exactly when the data is a short buffer or
  the end is still reached (`UnquietRaisesExactly`), as it happens for every non-empty pool (`DataAfterEndRaisesTwice`).
- `setObserver` takes no lock, so an observer can be removed between the test for it and the post to it, around the
  unlocked fsync of a completion as well as inside a write, and is dereferenced all the same (`CompletionLosesObserver`,
  `WriteLosesObserver`). All posts of a run find their observer exactly when it is never removed in between
  (`PostsDefinedExactly`).
- An input that stood by while the output kept the driver reads on without being marked active (`ReadMarksActive`), and
  loses the driver to the output's standby (`UnmarkedReaderLosesDriver`), which goes by that mark alone
  (`StandbyClosesExactly`). If the output then reopens the driver, the input goes on reading from its own copy of the
  descriptor that was closed (`StaleReader`); a read uses the shared descriptor exactly when it had to set the stream up
  or still holds that one (`ReadUsesSharedExactly`).
- `EAGAIN` before an AAC frame leaves a gap of two bytes: a read decodes to the delivered frames, whatever the buffer held
  before, exactly when there is no such gap (`DecodesExactly`; `RetryGapMisdecodes` is one such run).
- With neither compressor filter, the and-mask that should clear both compressors is an *or* of two and-masks and clears
  nothing, so both are sent (`MissingFilterSendsBoth`, `RunsSoundExactly`). The shipped filter file has an MBADRC line for
  every slot.
- The nearest-rate search is wrong for requests from 2^31 + 9513 on (`NearestExactlyBelow`).
- A bare input tag is lost in the conversion to revision 1 and back (`RoundTrip`).
- The comment on the closing loop speaks of direct outputs opened to query parameters. The list it closes also has the
  outputs found open: a connection closes every ordinary direct output for its device, however many clients hold it
  (`ConnectionClosesExactly`, `ConnectionTakesHeldOutput`).
- A connection that reports failure can still change the policy: exactly when the paired input was already there although
  the output half succeeded, or when it claimed the FM mode (`FailedConnectExactly`, `MicrophoneFirstLeavesOutput`). The
  claimed mode blocks FM until a disconnection, which reports failure unless FM was there (`FailedFmConnectBlocks`). A
  failing disconnection is not without effect either (`FailedDisconnectExactly`).
- A direct output opened with a zero parameter that the driver filled in is closed under its first client by the next
  equal get (`RepeatedGetSharesExactly`); only requests without a zero parameter are safe from that
  (`AlwaysSharedExactly`).
- A direct get that returns no output is not without effect: it leaves the table alone exactly when the profile had no
  output, since one with other parameters is closed before the driver is asked, whoever holds it
  (`FailedGetClosesExactly`).
- The check for a missing dynamic parameter tests the format list where it means the channel list (`MissingParamExactly`),
  so a direct profile with dynamic formats and a single static channel mask does not open (`DirectOpensExactly`).
- Dock and system forced use store a configuration they have just called invalid, so after a run those settings are valid
  exactly when the last request was (`ForcesAfterRun`).
- The default device that the media case assigns is always overwritten (`DefaultDeviceUnused`), and enforced-audible has
  no device under analog FM where it may be muted (`EnforcedAudibleSilentExactly`).

## Model

| member | source | states |
|---|---|---|
| `LpaSafety.PoolConserved` | audio/AudioHardware.cpp:3447-3531 | over every interleaving of writes, completions (stale ones too), flushes with any ioctl results, suspends and resets, free and filled buffers are a permutation of the unchanged pool |
| `LpaSafety.NextConserves` | audio/AudioHardware.cpp:3800-3841 | each single critical section conserves the pool |
| `LpaSafety.WriteConserves` | audio/AudioHardware.cpp:3465-3513 | a write moves one buffer, to the filled queue or back to the end of the free one |
| `LpaSafety.DoneConserves` | audio/AudioHardware.cpp:3807-3819 | a completion moves the buffer it names, or none |
| `LpaSafety.FlushConserves` | audio/AudioHardware.cpp:3966-3977 | a flush that clears both queues loses no buffer |
| `LpaSafety.QueuedOnce` | audio/AudioHardware.cpp:3465-3469 | no address occurs at two places of the two queues |
| `LpaSafety.AddressPlaced` | audio/AudioHardware.cpp:3807-3819 | every pool address is in exactly one of the two queues |
| `LpaSafety.DoneFrees` | audio/AudioHardware.cpp:3807-3839 | a completion for any pool address leaves a free buffer, because a stale one names a buffer that is already free |
| `LpaSafety.NextHandsOff` | audio/AudioHardware.cpp:4075-4102 | each step keeps: a granted client has a free buffer, a signalled one has a free buffer or a pending skip |
| `LpaSafety.GrantedWriteDefined` | audio/AudioHardware.cpp:4075-4102 | without spurious wake-ups and with completions from the pool, a client that was told a buffer is available can dequeue one, in every reachable state, even for an empty pool |
| `LpaSafety.SpuriousGrantsExactly` | audio/AudioHardware.cpp:4083-4101 | a wake-up nobody sent grants only with a free buffer, if and only if one is free or a skip is pending |
| `LpaSafety.DoneHandsOffExactly` | audio/AudioHardware.cpp:3807-3839 | a completion keeps the hand-off if and only if nobody waits, a buffer is free or a skip pending anyway, or its address is that of a filled buffer |
| `LpaSafety.SpuriousWakeMisgrants` | audio/AudioHardware.cpp:4083-4101 | from every new session: full writes that use the pool up, a wait and a wake-up nobody sent grant an empty queue |
| `LpaSafety.ForeignDoneMisgrants` | audio/AudioHardware.cpp:3807-3839 | so does a completion for any address outside the pool, whatever the pool |
| `LpaSafety.PostDefinedExactly` | audio/AudioHardware.cpp:4022-4027 | a step leaves a tested observer missing for its post, in a write or a completion, if and only if it removes the observer in between |
| `LpaSafety.PostsDefinedExactly` | audio/AudioHardware.cpp:3502-3507 | in every run all posts find their observer if and only if it is never removed between a test and its post |
| `LpaSafety.CompletionLosesObserver` | audio/AudioHardware.cpp:3825-3832 | from every new session with a buffer, a run removes the observer during a completion's unlocked fsync |
| `LpaSafety.WriteLosesObserver` | audio/AudioHardware.cpp:3502-3507 | and a run removes it inside the write that marks the end |
| `LpaSafety.NextFlags` | audio/AudioHardware.cpp:3489-3528 | each step keeps: a reached end with nothing filled is raised, and a pending post finds nothing filled and end of stream received |
| `LpaSafety.NextBalanced` | audio/AudioHardware.cpp:3507-3521 | each step keeps every accepted buffer completed, flushed or filled |
| `LpaSafety.NextEosSound` | audio/AudioHardware.cpp:3489-3528 | a step that raises or posts end of stream leaves no filled buffer and every accepted buffer completed or flushed |
| `LpaSafety.EosNeverLost` | audio/AudioHardware.cpp:3822-3833 | over every run a reached end with no filled buffer has been raised, while end of stream is generated |
| `LpaSafety.EosNeverEarly` | audio/AudioHardware.cpp:3822-3833 | from a new session, whenever end of stream is raised or posted, accepted buffers equal completed plus flushed ones |
| `LpaSafety.NextRaisedOnce` | audio/AudioHardware.cpp:3499-3508 | each step that accepts no data while end of stream is received keeps: received exactly if raised once, nothing filled then, and posted no more often than raised |
| `LpaSafety.QuietEosAtMostOnce` | audio/AudioHardware.cpp:3499-3508 | over every run that accepts no data while end of stream is received, it is raised and posted at most once between successful flushes |
| `LpaSafety.UnquietRaisesExactly` | audio/AudioHardware.cpp:3822-3833 | from every state at rest that has raised it and still generates it, accepting data and completing it raises it a second time if and only if the data is a short buffer or the end is still reached |
| `LpaSafety.DisciplinedIsQuiet` | audio/AudioHardware.cpp:3454-3460 | a client that sends no data between marking the end and the next successful flush makes only such runs |
| `LpaSafety.EosAtMostOnce` | audio/AudioHardware.cpp:3454-3460 | so for that client it is raised and posted at most once between successful flushes, over every run with stale completions, suspends, skipped writes and failed flushes |
| `LpaSafety.DataAfterEndRaisesTwice` | audio/AudioHardware.cpp:3822-3833 | a run from a new session that raises it twice, for every non-empty pool |
| `LpaSafety.InitialMeetsAll` | audio/AudioHardware.cpp:3370-3387 | a new session meets every invariant above |
| `LpaLaws.SubmittedExactly` | audio/AudioHardware.cpp:3518-3522 | in every run an accepted write takes the first free buffer to the end of the filled ones and hands it to the driver if and only if the starts, suspends and resets so far have left the driver on; a skipped or empty write hands over nothing |
| `LpaLaws.NothingSubmittedWhileOff` | audio/AudioHardware.cpp:3518-3522 | over every run without a start that goes well, a driver that was off is handed nothing |
| `LpaLaws.FlagsAfterRun` | audio/AudioHardware.cpp:3897-3950 | over every run the driver, pause, observer and generation flags are folds of the events |
| `LpaLaws.NextSkipExactly` | audio/AudioHardware.cpp:4013-4018 | which steps set a pending skip and which use it up |
| `LpaLaws.SkippedWriteExactly` | audio/AudioHardware.cpp:3454-3464 | a pending skip rejects a full write, changing nothing else, and empties a short one, which marks the end |
| `LpaLaws.FlushExactly` | audio/AudioHardware.cpp:3959-4011 | a flush frees the pool in order under every result of the ioctls; end of stream is forgotten and the client woken if and only if it succeeds |
| `LpaLaws.AskGrantsExactly` | audio/AudioHardware.cpp:4075-4102 | who asks is granted at once if and only if a buffer is free, and waits otherwise |
| `LpaLaws.SignalledExactly` | audio/AudioHardware.cpp:3836-3840 | which steps wake a waiting client |
| `LpaLaws.ResumeGrantsExactly` | audio/AudioHardware.cpp:4083-4101 | who is woken is granted if and only if no skip is pending |
| `LpaLaws.RaisesExactly` | audio/AudioHardware.cpp:3822-3833 | a completion raises end of stream if and only if it takes the last filled buffer of a reached end that is to be reported; a write if and only if it marks the end with nothing filled and nothing received |
| `LpaLaws.ReachedExactly` | audio/AudioHardware.cpp:3499-3528 | which steps reach the end and which forget it |
| `LpaLaws.ReceivedExactly` | audio/AudioHardware.cpp:3822-3833 | end of stream is received from a raise to the next successful flush, which also resets the counts of raises and posts |
| `LpaLaws.PostersExactly` | audio/AudioHardware.cpp:3822-3834 | who raises with an observer present posts next, and how the event thread takes a suspend |
| `LpaLaws.FillsInOrder` | audio/AudioHardware.cpp:3465-3531 | any number of full writes takes the free buffers in order, and marks no end |
| `LpaLaws.DonesInOrder` | audio/AudioHardware.cpp:3807-3819 | their completions in order return them in order |
| `LpaLaws.CycleRestoresPool` | audio/AudioHardware.cpp:3465-3531 | from every new session, filling the whole pool and completing it brings every buffer back to its place and raises nothing |
| `LpaLaws.AskAfterFills` | audio/AudioHardware.cpp:4075-4102 | after k full writes a new session grants a buffer if and only if the pool has more than k |
| `LpaResources.FailedAllocUndone` | audio/AudioHardware.cpp:3621-3668 | whichever stage of an allocation fails, the kernel resources live afterwards are those live before, and nothing is released twice |
| `LpaResources.AllocAccounted` | audio/AudioHardware.cpp:3621-3684 | after an allocation the live resources are exactly those of the pool and the device, grown or not |
| `LpaResources.QueuesOwnPool` | audio/AudioHardware.cpp:3686-3750 | however a run has split the pool, the two queues together own what the pool owns |
| `LpaResources.ReleaseAccounted` | audio/AudioHardware.cpp:3691-3713 | releasing one buffer releases four live resources and leaves the others accounted for |
| `LpaResources.RunAccounted` | audio/AudioHardware.cpp:3447-3531 | over every run of a session the live resources are exactly those of its free and filled buffers and the device |
| `LpaResources.SameSlotsOwnSame` | audio/AudioHardware.cpp:3686-3742 | queues with the same bag of slots own the same resources, whatever their order and data lengths |
| `LpaSession.AudioSessionOutLPA.constructor` | audio/AudioHardware.cpp:3370-3387 | a new session has no buffers, generates end of stream and owns no kernel resource |
| `LpaSession.AudioSessionOutLPA.MemBufferAlloc` | audio/AudioHardware.cpp:3621-3684 | a complete allocation adds one buffer to the pool and the free queue; a failed one changes neither and undoes its kernel calls, with the return value of the failing stage |
| `LpaSession.AudioSessionOutLPA.Stage` | audio/AudioHardware.cpp:3628-3668 | the kernel calls of the four stages with their undo sequences |
| `LpaSession.AudioSessionOutLPA.BufferAlloc` | audio/AudioHardware.cpp:3596-3618 | the pool is the buffers of the complete allocations, in order, failed ones skipped; live resources equal the pool's and the device's |
| `LpaSession.AudioSessionOutLPA.BufferDeAlloc` | audio/AudioHardware.cpp:3686-3750 | every pool buffer's mapping, descriptor, handle and local copy is released exactly once, in queue order, while live; afterwards nothing is live and all lists are empty |
| `LpaSession.AudioSessionOutLPA.Write` | audio/AudioHardware.cpp:3447-3531 | a write of a valid object refines its protocol step, rejected, end marked (raised or not) or accepted, and leaves the object valid: buffers conserved, live resources exactly the pool's |
| `LpaSession.AudioSessionOutLPA.WriteDone` | audio/AudioHardware.cpp:3800-3841 | a completion refines its step, a stale address changing nothing, and leaves the object valid |
| `LpaSession.AudioSessionOutLPA.RestorePool` | audio/AudioHardware.cpp:3966-3977 | a flush makes every pool buffer free again in pool order |
| `LpaSession.AudioSessionOutLPA.Flush` | audio/AudioHardware.cpp:3959-4011 | a flush refines its step under every result of the two ioctls, paused or not, and leaves the object valid |
| `LpaSession.AudioSessionOutLPA.WriteLocked` | audio/AudioHardware.cpp:3447-3531 | the write's critical section, statement by statement, computes the protocol step |
| `LpaSession.AudioSessionOutLPA.WriteDoneLocked` | audio/AudioHardware.cpp:3800-3841 | the scan of the filled queue removes the first match and moves it to the free one |
| `LpaSession.AudioSessionOutLPA.FlushLocked` | audio/AudioHardware.cpp:3959-4011 | the flush's critical section computes the protocol step |
| `LpaSession.AudioSessionOutLPA.AskForBuffer` | audio/AudioHardware.cpp:4075-4102 | refines the protocol step that asks for a buffer: granted at once, or the client waits unsignalled |
| `LpaSession.AudioSessionOutLPA.AfterWait` | audio/AudioHardware.cpp:4083-4101 | refines the protocol's wake-up: only a pending skip turns the answer down, and a positive one can come with an empty queue |
| `LpaSession.AudioSessionOutLPA.Start` | audio/AudioHardware.cpp:3897-3940 | starting and resuming refine the protocol step |
| `VoipProtocol.SharedAlways` | audio/AudioHardware.cpp:2159-2238 | in every reachable state an open driver has an active direction, an active input and a non-standby output hold exactly the shared descriptor, and the output lives while it has references |
| `VoipProtocol.NextShared` | audio/AudioHardware.cpp:2241-2271 | each open, read, write, standby and close keeps that |
| `VoipProtocol.StandbyRespectsPeer` | audio/AudioHardware.cpp:2319-2342 | neither side's standby or close takes the driver from a side in use |
| `VoipProtocol.BothStandbyCloses` | audio/AudioHardware.cpp:2867-2889 | once both sides have stood by, in either order, no descriptor is left |
| `VoipProtocol.StandbyClosesExactly` | audio/AudioHardware.cpp:2319-2342 | in every reachable state a standby closes an open driver if and only if the other side is not marked active |
| `VoipProtocol.InputClosesSharedFd` | audio/AudioHardware.cpp:2329-2334 | when the input's standby closes the driver, the descriptor it closes is the shared one |
| `VoipProtocol.ReadMarksActive` | audio/AudioHardware.cpp:2258-2272 | a successful read marks the input active exactly when it already was or had to set itself up |
| `VoipProtocol.UnmarkedReaderLosesDriver` | audio/AudioHardware.cpp:2258-2272 | a run in which a reading input loses the driver to the output's standby |
| `VoipProtocol.DescriptorExactly` | audio/AudioHardware.cpp:2159-2171 | in every reachable state, which descriptor is shared after each event: an open one stays, else the one the driver gives, and a standby or close gives it up if and only if the other side is not marked active |
| `VoipProtocol.MarksExactly` | audio/AudioHardware.cpp:2319-2336 | in every reachable state, when each side is marked active after each event |
| `VoipProtocol.WriteSucceedsExactly` | audio/AudioHardware.cpp:2763-2815 | in every reachable state a write has the driver if and only if the output is not standing by, the driver is open, or it opens and configures; then the output is out of standby, active and holds the shared descriptor, and a failing write leaves it standing by without one |
| `VoipProtocol.ReadSucceedsExactly` | audio/AudioHardware.cpp:2258-2272 | the same for a read, with the stream started if it had to be set up and left alone otherwise |
| `VoipProtocol.ReadUsesSharedExactly` | audio/AudioHardware.cpp:2258-2295 | a successful read uses the shared descriptor if and only if the stream had to be set up or still holds it |
| `VoipProtocol.StaleReader` | audio/AudioHardware.cpp:2258-2295 | a run in which it does not: the driver was closed and reopened by the output under an input that stood by |
| `VoipProtocol.OpenInputExactly` | audio/AudioHardware.cpp:2157-2238 | in every reachable state opening the input succeeds if and only if the driver is open, or opens and configures |
| `VoipProtocol.StandbyExactly` | audio/AudioHardware.cpp:2319-2342 | what a standby and a close leave of their own stream, and that they leave the other stream alone |
| `VoipProtocol.OutputLivesExactly` | audio/AudioHardware.cpp:292-398 | over every run the direct output exists if and only if it was opened more often than closed; only the first open and the last close change more than the count |
| `VoipProtocol.FirstWriteOpens` | audio/AudioHardware.cpp:2774-2815 | from boot, opening the output and writing opens the driver and leaves its descriptor shared |
| `VoipStreams.AudioHardware.OpenDirectOutput` | audio/AudioHardware.cpp:292-320 | the first open creates the direct output and marks it active, later ones share it and count |
| `VoipStreams.AudioHardware.CloseDirectOutput` | audio/AudioHardware.cpp:391-398 | only the last close destroys the output, which then stands by |
| `VoipStreams.OpenVoipInput` | audio/AudioHardware.cpp:421-441 | an input is returned exactly if it could be set up; one that could not is destroyed and stands by |
| `VoipStreams.CloseVoipInput` | audio/AudioHardware.cpp:2241-2246 | destroying an input marks it inactive and stands it by |
| `VoipStreams.AudioStreamInVoip.constructor` | audio/AudioHardware.cpp:2105-2112 | a new input is closed and has no descriptor |
| `VoipStreams.AudioStreamInVoip.Set` | audio/AudioHardware.cpp:2157-2238 | setting up the input refines its step for every driver behaviour: shared, opened, or failed at open or configuration |
| `VoipStreams.AudioStreamInVoip.PrepareRead` | audio/AudioHardware.cpp:2258-2272 | the reopening part of a read refines its step |
| `VoipStreams.AudioStreamInVoip.Standby` | audio/AudioHardware.cpp:2319-2342 | the input's standby refines its step |
| `VoipStreams.AudioStreamOutDirect.constructor` | audio/AudioHardware.cpp:2684-2747 | a new direct output has no descriptor, stands by and marks itself active |
| `VoipStreams.AudioStreamOutDirect.PrepareWrite` | audio/AudioHardware.cpp:2763-2815 | the opening part of a write refines its step for every driver behaviour |
| `VoipStreams.AudioStreamOutDirect.Standby` | audio/AudioHardware.cpp:2867-2889 | the output's standby refines its step |
| `AacPacking.DecodesExactly` | audio/AudioHardware.cpp:4155-4207 | for every reply sequence and buffer size below 64 KiB: the read decodes to exactly the frames delivered, for all previous buffer contents, if and only if no retry came before a frame |
| `AacPacking.BodyDecodes` | audio/AudioHardware.cpp:4166-4202 | without a retry before a frame, the packed bytes decode to exactly the frames the driver delivered |
| `AacPacking.ClearGapMisdecodes` | audio/AudioHardware.cpp:4197-4201 | with one, a buffer that was clear decodes to something else |
| `AacPacking.TakenFrames` | audio/AudioHardware.cpp:4175-4184 | every frame delivered has a byte, and a gap is followed by a frame |
| `AacPacking.TakesExactly` | audio/AudioHardware.cpp:4166-4202 | of a stream under way a read takes every frame up to the reply that ends it, whole and in order, if the room holds them; it reports an error if and only if there is still room for a frame, and has a gap if and only if a retry came before data |
| `AacPacking.BodyKeepsRest` | audio/AudioHardware.cpp:4166-4202 | the bytes behind the frames stay as they were |
| `AacPacking.LongFrameFills` | audio/AudioHardware.cpp:4173-4176 | a frame that the room does not hold is cut to fill it |
| `AacPacking.FirstFrameAlone` | audio/AudioHardware.cpp:4188-4191 | the first read of a stream takes one frame, however many are ready |
| `AacPacking.WordsReadBack` | audio/AudioHardware.cpp:4157-4165 | the marker is 0x51434F4D and a counter its value modulo 0x10000 to a little-endian reader |
| `AacPacking.RetryGapMisdecodes` | audio/AudioHardware.cpp:4197-4201 | one run as an illustration: two clear bytes where the retry falls are enough |
| `AacPacking.FewFrames` | audio/AudioHardware.cpp:4181-4184 | every frame takes at least three bytes, so the 16-bit counter cannot wrap in a buffer below 64 KiB |
| `AacPacking.ReadAac` | audio/AudioHardware.cpp:4155-4207 | the buffer ends up as marker, frame count and the packed body, decodes back to the frames (up to 65535 bytes, no retry before a frame), stores stay inside, and the loop ends |
| `AacPacking.ReadFrames` | audio/AudioHardware.cpp:4166-4202 | the loop ends with the packed buffer, the status of the last reply and the first-read flag |
| `AacPacking.ReadFrame` | audio/AudioHardware.cpp:4175-4192 | one driver read either stores a frame and lets the loop go on, or ends it |
| `AacPacking.PackFrame` | audio/AudioHardware.cpp:4175-4184 | storing one frame sets its size word, its bytes and the count, and no other byte |
| `AacPacking.WriteHeader` | audio/AudioHardware.cpp:4157-4165 | the marker and a zero count, nothing else |
| `PostProcessing.EnableSoundExactly` | audio/AudioHardware.cpp:1397-1484 | the mask sent on enabling is a subset of the request, never both compressors, each feature with a device flag and a configuration sent before, if and only if the slot has a compressor filter or none was requested |
| `PostProcessing.CompressorSound` | audio/AudioHardware.cpp:1397-1444 | with a filter for the slot at most one compressor survives, with its flag and configuration; without one the mask is untouched |
| `PostProcessing.FiltersSound` | audio/AudioHardware.cpp:1446-1475 | equaliser and IIR survive only with a flag and a configuration, and the compressors are left alone |
| `PostProcessing.PartsSound` | audio/AudioHardware.cpp:1397-1475 | the three branches together are sound exactly when the slot has a compressor filter or none was requested |
| `PostProcessing.DisableClears` | audio/AudioHardware.cpp:1485-1497 | the mask sent on disabling has none of the four features |
| `PostProcessing.RunSound` | audio/AudioHardware.cpp:1925-1956 | with a compressor filter for every slot that a device selects, every mask sent in any run of routing, playback start and standby is sound |
| `PostProcessing.NextSound` | audio/AudioHardware.cpp:2566-2586 | each step keeps every mask sent so far sound |
| `PostProcessing.RunsSoundExactly` | audio/AudioHardware.cpp:1340-1501 | the masks of all runs from boot are sound if and only if every slot that a device selects has a compressor filter |
| `PostProcessing.MissingFilterSendsBoth` | audio/AudioHardware.cpp:1440-1444 | with a slot that has none, routing there and starting playback sends both compressors |
| `PostProcessing.EnabledExactly` | audio/AudioHardware.cpp:1397-1475 | on enabling, when each feature survives and which configuration calls are made, feature by feature |
| `PostProcessing.SentExactly` | audio/AudioHardware.cpp:1376-1500 | the slot of the device, the mask sent and kept, and the calls before it, for enabling and disabling |
| `PostProcessing.ToggleSendsExactly` | audio/AudioHardware.cpp:1340-1396 | whether a mask reaches the DSP, and what is kept when it does not |
| `PostProcessing.ReturnsExactly` | audio/AudioHardware.cpp:1340-1501 | the call reports success if and only if the property turns it off or the mask was sent and accepted, and an argument error if and only if configuration or device is missing |
| `PostProcessing.RouteExactly` | audio/AudioHardware.cpp:1925-1956 | routing to the device in use at most widens the request; to another one it moves there with the requested mask, and while playing disables on the old and enables on the new device |
| `PostProcessing.RouteSends` | audio/AudioHardware.cpp:1925-1956 | while playing, a change of device sends two masks: the old device's without the four features, then what the new device makes of the request |
| `PostProcessing.WriteOpensExactly` | audio/AudioHardware.cpp:2479-2530 | when a write takes the stream out of standby, and how many writes playback then waits for |
| `PostProcessing.WriteStartsExactly` | audio/AudioHardware.cpp:2541-2556 | only the write that playback still waits for starts it and enables the requested mask |
| `PostProcessing.SecondWriteStarts` | audio/AudioHardware.cpp:2524-2556 | after a standby that is the second write that goes through, and it sends what was requested |
| `PostProcessing.StandbyEndsExactly` | audio/AudioHardware.cpp:2566-2586 | a standby ends playback of a stream with a descriptor, and disables the mask unless the other output plays |
| `PostProcessing.FlagsExactly` | audio/AudioHardware.cpp:1925-1956 | device in use, request and the other output's flag are what the events say |
| `PostProcessing.AudioHardware.EnablePostproc` | audio/AudioHardware.cpp:1340-1501 | the method refines the specified outcome on every path, property, parse error, missing device and ioctl failure included |
| `PostProcessing.AudioHardware.ConfigureAndSend` | audio/AudioHardware.cpp:1397-1500 | the part after the control device is open configures and sends the mask of the specified outcome |
| `PostProcessing.AudioHardware.ConfigureCompressor` | audio/AudioHardware.cpp:1397-1444 | the compressor branch with its mask updates and configuration calls |
| `PostProcessing.AudioHardware.ConfigureFilters` | audio/AudioHardware.cpp:1446-1475 | the equaliser and IIR branches |
| `PostProcessing.AudioHardware.ClearFeatures` | audio/AudioHardware.cpp:1347-1355 | where post-processing is off, of the mask's low sixteen bits exactly those of no feature survive |
| `PostProcessing.AudioHardware.SwitchOffFeatures` | audio/AudioHardware.cpp:1485-1490 | all four features are cleared before a disabling mask is sent |
| `PostProcessing.AudioHardware.EnableIfPlaying` | audio/AudioHardware.cpp:1929-1938 | nothing is sent unless playback is in progress |
| `PostProcessing.AudioHardware.Route` | audio/AudioHardware.cpp:1925-1956 | a device change disables on the old device before it enables the requested mask on the new one |
| `PostProcessing.AudioHardware.Write` | audio/AudioHardware.cpp:2479-2565 | a write refines its step: opening and configuring the driver or failing to, and starting playback with the second buffer |
| `PostProcessing.AudioHardware.Standby` | audio/AudioHardware.cpp:2566-2586 | standby refines its step: nothing to do for a stream already standing by or without a descriptor, and the mask left alone during LPA playback |
| `RateSearch.GetInputSampleRate` | audio/AudioHardware.cpp:2047-2059 | for any ascending table and any request below 2^31 the early exit returns a nearest entry, the higher on a tie; on the built-in table it does so if and only if the request is below 2^31 + 9513 |
| `RateSearch.StopIsNearest` | audio/AudioHardware.cpp:2053-2056 | the first rise of the 32-bit distance is its minimum |
| `RateSearch.FixesTableEntries` | audio/AudioHardware.cpp:2053-2058 | the answer equals the request exactly for table entries |
| `RateSearch.NearestExactlyBelow` | audio/AudioHardware.cpp:70-72 | on the built-in table, for all 32-bit requests, the answer is nearest if and only if the request is below 2^31 + 9513 |
| `RateSearch.AudpreIndexInvertsTable` | audio/AudioHardware.cpp:1503-1517 | the index function is the inverse of table lookup and all ones for every other rate |
| `ForceUse.SetForceUseRefines` | audio/AudioPolicyManager.cpp:977-1001 | a request keeps "the media setting is the last valid request, or a none that digital FM holds back" |
| `ForceUse.FmRefines` | audio/AudioPolicyManager.cpp:676-693 | claiming the FM mode keeps it, and giving the mode back applies what was held back |
| `PolicyLaws.ListedExactly` | audio/AudioPolicyManager.cpp:967-1032 | the accepted requests, told the other way round: for each configuration the usages that accept it |
| `PolicyLaws.AcceptedAfterRun` | audio/AudioPolicyManager.cpp:967-1032 | after any run the communication and record settings are those last asked for that their usage accepts |
| `PolicyLaws.MediaRequestExactly` | audio/AudioPolicyManager.cpp:977-1001 | a media request is deferred if and only if digital FM is on and it asks for none; another accepted one cancels what was deferred, a refused one changes nothing |
| `PolicyLaws.ConnectSettingsExactly` | audio/AudioPolicyManager.cpp:611-634 | only FM moves the settings: connecting it while the mode is free claims it, whatever comes of it |
| `PolicyLaws.DisconnectSettingsExactly` | audio/AudioPolicyManager.cpp:675-697 | disconnecting FM gives the mode back and applies a deferred none, connected or not |
| `OutputTable.OpenFromMeans` | audio/AudioPolicyManager.cpp:1198-1314 | opening for a list of profiles yields exactly the old entries and those of each profile that had none and whose opening succeeds |
| `OutputTable.OpeningOrderIrrelevant` | audio/AudioPolicyManager.cpp:1175-1199 | the table that results does not depend on the order of the sorted profile list |
| `OutputTable.MissingParamExactly` | audio/AudioPolicyManager.cpp:1261-1266 | when the missing-parameter test differs from asking whether any list is unknown |
| `PolicySafety.CandidatesMean` | audio/AudioPolicyManager.cpp:1175-1189 | the candidates are the profiles of loaded modules that support the device |
| `PolicySafety.CandidatesDistinct` | audio/AudioPolicyManager.cpp:1175-1189 | no candidate occurs twice |
| `PolicySafety.OpenFromHas` | audio/AudioPolicyManager.cpp:1198-1314 | afterwards a listed profile has an output exactly when it had one or its opening succeeds |
| `PolicyLaws.DirectOpensExactly` | audio/AudioPolicyManager.cpp:1240-1272 | a direct profile without special flags that had no output has one after opening if and only if the handle is non-zero, the rates are known, and the formats are static or both formats and channels come as lists |
| `PolicyLaws.OrdinaryOpensExactly` | audio/AudioPolicyManager.cpp:1273-1303 | an ordinary one if and only if output and duplicating output are both non-zero |
| `PolicyLaws.SpecialNeverOpens` | audio/AudioPolicyManager.cpp:1213-1220 | one with an LPA, TUNNEL or VOIP flag never |
| `PolicySafety.OpenFromKeepsOne` | audio/AudioPolicyManager.cpp:1201-1211 | opening keeps at most one output per profile |
| `PolicySafety.UnroutedChangesNothing` | audio/AudioPolicyManager.cpp:1305-1319 | if no profile for the device ends up open, the table is unchanged |
| `PolicySafety.ClosingLoopLeaves` | audio/AudioPolicyManager.cpp:741-754 | the closing loop leaves no ordinary direct output for the device, closes of the old outputs exactly those, held or not, and changes no other |
| `PolicySafety.NewProfileOpened` | audio/AudioPolicyManager.cpp:1213-1303 | an ordinary candidate that can be opened and had no output has one after the connection |
| `PolicySafety.RegisterAchieves` | audio/AudioPolicyManager.cpp:635-754 | a successful connection makes the device available, closes of the open outputs exactly the ordinary direct ones for the device, and opens every ordinary profile that can be opened |
| `PolicySafety.ConnectionSucceedsExactly` | audio/AudioPolicyManager.cpp:574-819 | a connection succeeds if and only if the platform supports the device, FM is free for it, it is not there yet, a profile for it ends up open, and its paired input is not there yet |
| `PolicyLaws.ConnectStatusExactly` | audio/AudioPolicyManager.cpp:574-824 | the status of every connection of an output device: a bad value for a wrong address or a missing part, success if and only if FM is free for it, device and microphone are not there and some loaded profile that supports it has or gets an output, else an invalid operation |
| `PolicyLaws.StaticListsConnect` | audio/AudioPolicyManager.cpp:1240-1272 | a device with a candidate direct profile whose rates and formats are static connects as soon as the client opens it |
| `PolicyLaws.DisconnectStatusExactly` | audio/AudioPolicyManager.cpp:675-818 | the status of every disconnection of an output device |
| `PolicyLaws.OtherStatusExactly` | audio/AudioPolicyManager.cpp:583-590 | what is not one device, or neither connects nor disconnects, is refused and changes nothing |
| `PolicyLaws.InputExactly` | audio/AudioPolicyManager.cpp:766-803 | connecting and disconnecting an input: its set and its status |
| `PolicyLaws.MicrophoneExactly` | audio/AudioPolicyManager.cpp:766-803 | which microphone comes and goes with an output device |
| `PolicySafety.ConnectionAchieves` | audio/AudioPolicyManager.cpp:610-798 | once its output half succeeds, and whatever the status, device and paired input are available and exactly the ordinary direct outputs for the device are closed |
| `PolicySafety.ConnectionClosesExactly` | audio/AudioPolicyManager.cpp:741-754 | once the output half succeeds, and whatever the status, an open output is closed if and only if its profile supports the device and its flags say direct and none of LPA, TUNNEL and VOIP |
| `PolicySafety.HeldOutputForceClosed` | audio/AudioPolicyManager.cpp:1167-1174 | in every reachable state such an output is taken from all clients that hold it |
| `DirectOutputs.ConnectionTakesHeldOutput` | audio/AudioPolicyManager.cpp:741-754 | a run: an output got k times, for any k, is closed by connecting another device of its profile |
| `PolicySafety.DisconnectClosesExactly` | audio/AudioPolicyManager.cpp:1320-1329 | a disconnection closes exactly the outputs whose profile reached no other available device, and changes no other |
| `PolicySafety.ConnectThenDisconnect` | audio/AudioPolicyManager.cpp:610-798 | a successful connection makes device and paired input available; disconnecting again succeeds, restores both sets, and keeps of the open outputs exactly those that are not ordinary direct ones for the device |
| `PolicySafety.FailedConnectExactly` | audio/AudioPolicyManager.cpp:606-673 | a connection reporting failure leaves devices and outputs as they were if and only if it is not the case that the output half succeeded and the paired input was there; the settings if and only if it did not claim the FM mode; the whole policy if and only if neither |
| `PolicySafety.FailedDisconnectExactly` | audio/AudioPolicyManager.cpp:674-799 | a disconnection reporting failure leaves the whole policy as it was if and only if it gave back no FM state and did not fail for the paired input alone |
| `PolicySafety.FailedConnectKeepsOutput` | audio/AudioPolicyManager.cpp:766-786 | in that case every newly openable output stays open although the call fails |
| `PolicySafety.MicrophoneFirstLeavesOutput` | audio/AudioPolicyManager.cpp:766-786 | a concrete platform and state where that happens |
| `PolicySafety.FailedFmConnectBlocks` | audio/AudioPolicyManager.cpp:611-697 | an FM connection that fails while the mode is free claims it, for any reason of failing; the next one is blocked whatever it would open; a disconnection gives the mode back, reporting failure unless FM was there |
| `PolicySafety.NextKeepsInv` | audio/AudioPolicyManager.cpp:574-824 | every step keeps: one output per profile, each output's profile reaching an available device, open counts equal to outstanding gets, the media setting refining the last request |
| `PolicySafety.ConnectionSound` | audio/AudioPolicyManager.cpp:574-824 | a connection event of any kind, failing ones included, keeps the table sound and no count changes |
| `PolicySafety.ConnectionRefines` | audio/AudioPolicyManager.cpp:611-697 | and keeps the media setting refining the last request |
| `PolicySafety.GetDirectSound` | audio/AudioPolicyManager.cpp:130-194 | a direct get keeps the table sound |
| `PolicySafety.ReleaseSound` | audio/AudioPolicyManager.cpp:216-246 | a release keeps the table sound |
| `PolicySafety.RunKeepsInv` | audio/AudioPolicyManager.cpp:606-754 | every run of connections, gets, releases and forced-use requests keeps it |
| `PolicySafety.FirstDirectMeans` | audio/AudioPolicyManager.cpp:1064-1102 | the direct profile is the first eligible one of the loaded modules in order, none only if there is none |
| `PolicySafety.GetDirectCounted` | audio/AudioPolicyManager.cpp:133-193 | a direct get keeps counts and outstanding gets equal, through reuse, closing and reopening |
| `PolicySafety.ReleaseCounted` | audio/AudioPolicyManager.cpp:216-246 | so does a release, accepted or rejected |
| `PolicyLaws.ReleaseLeavesMixed` | audio/AudioPolicyManager.cpp:216-226 | releasing a handle that is not open, or an output without the direct flag, leaves the table equal |
| `PolicyLaws.GetKeepsExactly` | audio/AudioPolicyManager.cpp:130-194 | a direct get changes or closes an open output if and only if it is its profile's |
| `PolicyLaws.MixedKeptExactly` | audio/AudioPolicyManager.cpp:216-246 | in a reachable state, a get, release or forced-use request changes an output that was not opened direct if and only if it is a get that chooses its profile |
| `PolicyLaws.MixedSurvives` | audio/AudioPolicyManager.cpp:216-246 | so such an output survives unchanged every run of gets, releases and forced-use requests that spares its profile |
| `PolicyLaws.MixersSurvive` | audio/AudioPolicyManager.cpp:216-246 | in particular all of them survive when only direct profiles are compatible with requests |
| `PolicySafety.MediaForceAfterRun` | audio/AudioPolicyManager.cpp:977-1001 | after any run the media setting is the last valid request of the run, unless that is a none and digital FM still holds it back |
| `PolicySafety.RunTracksRequests` | audio/AudioPolicyManager.cpp:977-1001 | the last valid request is a function of the run's requests alone |
| `PolicySafety.FmDisconnectApplies` | audio/AudioPolicyManager.cpp:677-697 | an FM disconnection makes the last request effective even when the device was not connected |
| `PolicySafety.ForcesAfterRun` | audio/AudioPolicyManager.cpp:967-1032 | after any run the communication, media and record settings are listed ones, and the dock and system settings are whatever was last asked, listed or not |
| `PolicySafety.ConnectionForces` | audio/AudioPolicyManager.cpp:574-824 | a connection changes no setting but the media one, and that only to a listed one |
| `DirectOutputs.GetDirectAchieves` | audio/AudioPolicyManager.cpp:130-194 | a direct get returns the profile's one output with parameters that honour the request, or leaves the profile with none; other profiles' outputs are untouched |
| `PolicyLaws.DirectAnswersExactly` | audio/AudioPolicyManager.cpp:130-194 | it answers an output if and only if the profile's output runs with the parameters asked for or the client opens one that honours them; a new output carries the flags of profile and request |
| `PolicyLaws.GoesDirectExactly` | audio/AudioPolicyManager.cpp:117-130 | a get is direct if and only if it asks for that or for offloading and a loaded profile is compatible and reaches an available device |
| `PolicyLaws.DirectGetUses` | audio/AudioPolicyManager.cpp:130-194 | and then uses such a profile and changes only the outputs |
| `PolicyLaws.MixedGetExactly` | audio/AudioPolicyManager.cpp:195-214 | any other get changes nothing and answers the mixer for linear PCM and nothing else |
| `DirectOutputs.FailedGetClosesExactly` | audio/AudioPolicyManager.cpp:147-184 | a direct get that returns nothing closes what the profile had: the table is unchanged if and only if it had no output |
| `DirectOutputs.ReleaseClosesExactly` | audio/AudioPolicyManager.cpp:216-246 | in a reachable state a release closes a direct output exactly when it has an LPA, TUNNEL or VOIP flag or this is the last outstanding get |
| `DirectOutputs.GetTimesCount` | audio/AudioPolicyManager.cpp:133-146 | k equal gets leave one output that counts k |
| `DirectOutputs.ReleaseTimesCount` | audio/AudioPolicyManager.cpp:226-236 | j releases of an ordinary output that counts k leave k - j, or close it |
| `DirectOutputs.GetsAndReleasesCancel` | audio/AudioPolicyManager.cpp:133-246 | k equal gets of an ordinary direct output survive k - 1 releases, and the k-th restores the table to what it was before the first get |
| `DirectOutputs.SpecialClosesAtFirstRelease` | audio/AudioPolicyManager.cpp:233-243 | with an LPA, TUNNEL or VOIP flag the first release does, however many gets there were |
| `DirectOutputs.RepeatedGetSharesExactly` | audio/AudioPolicyManager.cpp:133-184 | a second equal get shares the output if and only if the driver opened it with exactly the requested parameters |
| `DirectOutputs.AlwaysSharedExactly` | audio/AudioPolicyManager.cpp:133-184 | it is shared for every answer the first get accepts if and only if the request has no zero parameter |
| `PolicyManager.AudioPolicyManager.constructor` | audio/AudioPolicyManager.h:42-43 | a new manager holds the base class's table, FM off and nothing pending |
| `PolicyManager.AudioPolicyManager.SetForceUse` | audio/AudioPolicyManager.cpp:962-1032 | refines the specified setting change for every usage and configuration |
| `PolicyManager.AudioPolicyManager.CandidateProfiles` | audio/AudioPolicyManager.cpp:1175-1189 | the nested loops collect the candidates |
| `PolicyManager.AudioPolicyManager.IsOpen` | audio/AudioPolicyManager.cpp:1201-1211 | the scan tells whether the profile has an output |
| `PolicyManager.AudioPolicyManager.RoutableOutputs` | audio/AudioPolicyManager.cpp:1167-1174 | the open outputs that support the device |
| `PolicyManager.AudioPolicyManager.OpenProfile` | audio/AudioPolicyManager.cpp:1213-1304 | opening one profile refines its step, and every handle opened is either in the table or closed again |
| `PolicyManager.AudioPolicyManager.OpenProfiles` | audio/AudioPolicyManager.cpp:1198-1314 | the loop that removes profiles while it iterates ends, and refines opening for the whole list; a profile is left exactly if some listed profile has an output |
| `PolicyManager.AudioPolicyManager.OpenOutputsForDevice` | audio/AudioPolicyManager.cpp:1160-1319 | checking outputs for a connected device, with its two failure exits |
| `PolicyManager.AudioPolicyManager.ListOrphans` | audio/AudioPolicyManager.cpp:1320-1329 | the list for a disconnection is exactly the orphaned outputs |
| `PolicyManager.AudioPolicyManager.CloseListed` | audio/AudioPolicyManager.cpp:741-754 | the closing loop closes all listed outputs after a disconnection, and after a connection every listed ordinary direct one |
| `PolicyManager.AudioPolicyManager.CloseOutput` | audio/AudioPolicyManager.cpp:751 | removes exactly the one descriptor |
| `PolicyManager.AudioPolicyManager.RegisterDevice` | audio/AudioPolicyManager.cpp:635-648 | registering a device refines its step |
| `PolicyManager.AudioPolicyManager.ConnectDevice` | audio/AudioPolicyManager.cpp:610-673 | connecting refines its step, the FM mode being claimed first |
| `PolicyManager.AudioPolicyManager.DisconnectDevice` | audio/AudioPolicyManager.cpp:675-715 | disconnecting refines its step |
| `PolicyManager.AudioPolicyManager.ConnectInput` | audio/AudioPolicyManager.cpp:777-803 | the input half refines its step |
| `PolicyManager.AudioPolicyManager.ConnectOutput` | audio/AudioPolicyManager.cpp:590-754 | the output half refines its step and keeps the object valid |
| `PolicyManager.AudioPolicyManager.SetDeviceConnectionState` | audio/AudioPolicyManager.cpp:574-824 | the whole call refines its step, status included, and keeps the object valid: sound table, and every output the client has open is in it |
| `PolicyManager.AudioPolicyManager.ProfileForDirectOutput` | audio/AudioPolicyManager.cpp:1064-1102 | the search loops return the specified profile |
| `PolicyManager.AudioPolicyManager.FindHolder` | audio/AudioPolicyManager.cpp:133-146 | the scan finds the one output of the profile and whether it runs with the requested parameters |
| `PolicyManager.AudioPolicyManager.GetDirectOutput` | audio/AudioPolicyManager.cpp:130-194 | reusing, closing, opening and giving back refine the specified get, with no handle leaked |
| `PolicyManager.AudioPolicyManager.GetOutput` | audio/AudioPolicyManager.cpp:67-214 | the whole call refines its step and keeps the object valid |
| `PolicyManager.AudioPolicyManager.ReleaseOutput` | audio/AudioPolicyManager.cpp:216-246 | refines the specified release and keeps the object valid |
| `DeviceRouting.FirstAvailableMeans` | audio/AudioPolicyManager.cpp:413-447 | the reference definition: one available device with nothing available before it in the list, or none at all |
| `DeviceRouting.MediaIsFirstAvailable` | audio/AudioPolicyManager.cpp:410-469 | media plays on the first available device of its list; FM adds itself and analog FM takes the wired headset away |
| `DeviceRouting.PhoneIsFirstAvailable` | audio/AudioPolicyManager.cpp:301-379 | calls go to the first available device of the list that forced use selects, else to the default device, and to the speaker when FM is there and media is forced to it |
| `DeviceRouting.MediaForcedIsFirst` | audio/AudioPolicyManager.cpp:410-458 | without FM, the media cascade is the first available device of the list its forced use selects |
| `DeviceRouting.PhoneDefaultIsFirst` | audio/AudioPolicyManager.cpp:319-345 | the default phone cascade is the first available device of its list, else the default device |
| `DeviceRouting.PhoneSpeakerIsFirst` | audio/AudioPolicyManager.cpp:347-370 | the forced-speaker phone cascade is the first available device of its list, else the default device |
| `DeviceRouting.MediaBodyAvailable` | audio/AudioPolicyManager.cpp:410-486 | off call the media case keeps to available devices and finds one when the speaker is available |
| `DeviceRouting.OffCallAvailable` | audio/AudioPolicyManager.cpp:260-495 | off call MEDIA, DTMF and both sonification strategies select only available devices, and some when the speaker is available |
| `DeviceRouting.InCallAgree` | audio/AudioPolicyManager.cpp:272-313 | in a call both sonification strategies equal PHONE, and DTMF equals PHONE as if the car kit were not there |
| `DeviceRouting.SonificationOnSpeaker` | audio/AudioPolicyManager.cpp:381-409 | off call an alert is on the speaker exactly when there is one |
| `DeviceRouting.EnforcedAudibleSilentExactly` | audio/AudioPolicyManager.cpp:391-409 | off call with a speaker, enforced-audible has no device exactly under analog FM where it may be muted |
| `DeviceRouting.DefaultDeviceUnused` | audio/AudioPolicyManager.cpp:451-457 | off call these strategies do not depend on the default device |
| `DeviceRouting.MediaA2dpExactly` | audio/AudioPolicyManager.cpp:410-469 | media is on an A2DP device if and only if A2DP is usable, the forced use is neither speaker nor no A2DP, FM is not analog and such a device is available |
| `DeviceRouting.PhoneA2dpExactly` | audio/AudioPolicyManager.cpp:301-379 | the phone is on one if and only if it is off call, A2DP is usable and not forced off, FM does not force the speaker, and one that its forced use goes for is available |
| `DeviceRouting.NoA2dpWhenOff` | audio/AudioPolicyManager.cpp:260-495 | where A2DP is not usable or forced off, no strategy selects it |
| `DeviceRouting.DtmfFollows` | audio/AudioPolicyManager.cpp:289-313 | for each phone state, DTMF is media or the phone without the car kit |
| `DeviceRouting.SonificationAddsSpeaker` | audio/AudioPolicyManager.cpp:381-469 | off call an alert is what media uses together with the speaker, and the speaker alone under analog FM |
| `DeviceRouting.RespectfulFollows` | audio/AudioPolicyManager.cpp:270-288 | when a respectful alert is the phone, media, or an alert |
| `DeviceRouting.EnforcedAudibleExactly` | audio/AudioPolicyManager.cpp:391-486 | enforced-audible that may be muted is media, except for the phone's last selection in a call with media not on one A2DP device and silence under analog FM; otherwise it is the alert of a phone off call |
| `PinSwitching.SwitchBreaksBeforeMaking` | audio/HardwarePinSwitching.c:147-208 | from registers without both groups partly normal, no intermediate state of a switch has them, failed writes included, and success leaves the requested group normal and the other in pin control |
| `PinSwitching.SwitchesNeverDriveBoth` | audio/HardwarePinSwitching.c:221-240 | the same for any sequence of switches |
| `PinSwitching.SwitchExactly` | audio/HardwarePinSwitching.c:147-208 | a switch writes the seven registers in a fixed order up to the first failure, passing through exactly the states this gives; it returns 0 if and only if all seven writes succeed, else the code of the one that failed |
| `PinSwitching.DriveFollows` | audio/HardwarePinSwitching.c:158-167 | one loop of writes follows its part of that order |
| `PinSwitching.DriveBreaks` | audio/HardwarePinSwitching.c:158-167 | the first loop never adds a normal register |
| `PinSwitching.DriveMakes` | audio/HardwarePinSwitching.c:168-177 | the second loop is safe once the other group is wholly in pin control |
| `PinSwitching.Marimba.Write` | audio/HardwarePinSwitching.c:111-134 | a register write reaches the chip, or fails with a code, or both |
| `PinSwitching.Marimba.DriveGroup` | audio/HardwarePinSwitching.c:158-167 | one loop of register writes stops at the first failure and refines its step |
| `PinSwitching.Marimba.SwitchPins` | audio/HardwarePinSwitching.c:147-208 | the switch refines its step and never drives both groups |
| `PinSwitching.Marimba.SwitchMode` | audio/HardwarePinSwitching.c:221-240 | no register is touched when the bus does not open; otherwise the result of the switch |
| `DeviceConversion.ConvertAudioDevice` | audio/audio_hw_hal.cpp:98-122 | for a table of distinct single bits the peeling loop ends and computes the union of the images of the mask's table devices |
| `DeviceConversion.TopBit` | audio/audio_hw_hal.cpp:110-111 | the peeled bit is the highest one set |
| `DeviceConversion.Find` | audio/audio_hw_hal.cpp:113-118 | the inner scan returns the first matching row |
| `DeviceConversion.Peel` | audio/audio_hw_hal.cpp:109-120 | peeling one bit off adds exactly that bit's image |
| `DeviceConversion.ImageUnion` | audio/audio_hw_hal.cpp:98-122 | conversion distributes over union for a fixed input tag |
| `DeviceConversion.ImageBitwise` | audio/audio_hw_hal.cpp:98-122 | conversion is the union of the conversions of single bits |
| `DeviceConversion.RoundTrip` | audio/audio_hw_hal.cpp:61-122 | a revision 2 mask survives the way to revision 1 and back if and only if the table knows all its device bits under its tag and it is not the bare tag |

## Left out

- LPA sample memory: the copied bytes, timestamps across pause and resume, volume, buffer registration with the driver
  (AUDIO_REGISTER_ION, AUDIO_DEREGISTER_ION) and thread creation; they do not touch the queues or the flags.
- LPA liveness: the event thread takes the session lock again while it holds the filled-queue mutex, so progress is not
  claimed, only safety; while it is inside that window the model lets no other step use the filled queue. A post whose
  observer is gone dereferences a null pointer and is not a step.
- LPA completion with an empty filled queue: the copy taken from the list's end before the scan is never used when no
  buffer matches, and is not modelled.
- LpaSession.AudioSessionOutLPA.Write: without a free buffer it dereferences the end of a list, so it requires one unless
  the write is rejected; `GrantedWriteDefined` shows when the client may rely on it.
- LpaSession.AudioSessionOutLPA.BufferAlloc: allocations are assumed to map at different addresses, as the kernel does
  for live mappings.
- VoIP stream calls are atomic steps; `setupDeviceforVoipCall`, frame contents and rates other than 8 kHz are not
  modelled, nor is a stream whose `set` rejects its parameters before it has a hardware pointer.
- VoIP kernel descriptors: an output that never wrote closes its own -1, so only the shared descriptor is claimed.
- AacPacking.ReadAac: requires the six header bytes; with fewer the source's unsigned count wraps around. PCM reads and
  the pre-processing setup are left out.
- Post-processing: property and CSV parsing are parameters; the SRS code is disabled in this build.
- RateSearch.GetInputSampleRate: the unsigned difference and `abs` are modelled in 32 bits; for requests of 2^31 and more
  the exact answer is given for the built-in table only.
- Policy base class: `isCompatibleProfile`, output selection for mixed streams, `openOutput`, `openDuplicateOutput` and the
  device passed to them are parameters; `closeOutput` removes one descriptor and `addOutput` inserts one, and new handles
  are not in the table. Closing duplicated outputs along with their parts, effects, volumes and stream reference counts
  are left out. `AUDIO_POLICY_TEST` code is disabled.
- Policy initial state: the table opened by the base constructor is assumed sound, FM off and `pendingForceNone` false,
  which the source leaves uninitialised.
- Policy profile lists: the dynamic rate, format and channel lists are parameters of each opening rather than state kept
  between connections.
- PolicyManager.AudioPolicyManager.GetOutput: the effect move after opening and the bookkeeping of previous outputs are
  not part of this model.
- DeviceRouting: `getDeviceForInputSource`, `getDeviceForVolume`, `setPhoneState` and `checkDeviceMuteStrategies` would add
  only straight selections or floating-point volumes; a call that reads the cache returns what was stored.
- PinSwitching: a write that fails may or may not reach the chip, both are covered; the read-back under `DEBUG_CHK` is not
  built.
- DeviceConversion: the table itself is a parameter, since its constants come from headers that are not part of this
  model.
- Camera, RIL, Bluetooth vendor, lights, power, `audio_policy_hal.cpp` and the stream wrappers of `audio_hw_hal.cpp`:
  thin forwarding or straight-line code.
