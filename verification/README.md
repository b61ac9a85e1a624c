# TabVM: models and proofs

TabVM is a desktop agent that drives VirtualBox through VBoxManage, and a web
client that talks to it. This project models the parts of both whose correctness
depends on more than one function, and proves what they keep. To verify it with
Dafny 4.11: `dafny verify dfyconfig.toml`.

Each module follows one component:

- **Screen delta stream.** `Frames` (flat frame buffers, 128-pixel tiles, the
  row-span comparison), `TileWire` (the binary message: encoder and parser),
  `Canvas` (the browser's canvas and its concurrent draws), `ScreenStream` (the
  agent's loop: previous frame, resolution debounce, capturer swap), `StreamLaws`
  (what each turn of the loop does, said without the loop's own definitions) and
  `StreamBound` (for which frame sizes the law holds). The main
  result is that sending only changed tiles refines sending whole frames: after
  every frame tick the client's canvas is, pixel for pixel, what a sender of whole
  frames would have painted. JPEG is a pair of functions, encode and decode, about
  which nothing is assumed beyond the length bound of the wire.
- **Capturer.** `Capturer` is the channel protocol between callers, closers and
  the loop that owns the VirtualBox session.
- **Command gate, VM lock, background jobs.** `Gate` (per-VM channel and four
  global slots), `VmOperations` (check-then-act under the per-VM lock, clone and
  export jobs included), `CreateJobs` (the job table) and `JobGoroutines` (the jobs'
  goroutines with their deferred calls and panics; `JobSafety` and `JobResults` prove
  what they keep and what a job then shows) are state machines over
  all interleavings of their callers' steps, beside classes that carry the updates
  out.
- **Operation log.** `OperationLog`: an insert and a trim to the newest 1000 rows,
  against a log that is never trimmed.
- **Create.** `CreateVm`: a sequence of commands, each of which may fail with or
  without its effect, and the cleanup.
- **Ports and names.** `ConsolePorts`, `StoragePorts`, `AttachmentKeys`,
  `ShareName`, `ForwardingText` with `PortForwarding`, and `Tokenizer`.
- `Common` and `Text` hold what they share: options, bytes, numerals, white space,
  splitting and trimming.

Code that updates state step by step is a method or a class, proved equal to a
specification function of the old state; the properties are then lemmas about
those functions and about every run of them. Whatever the program does not decide
(VBoxManage, the guest, the clock, the scheduler, the file system) is a parameter
of the step, so "for every run" also ranges over it.

Results that the code and its documentation put differently:

- The 16-bit tile count wraps. A first paint whose tiles number a multiple of 65536
  is counted as empty and not sent, while the agent remembers the frame as sent, so
  a screen that holds still is never painted
  (`ScreenStream.UncountedScreenNeverPainted`). This starts just past 32640 by 32640
  pixels (`TileWire.CountWraps`). The sizes at which the stream is right for every
  codec and every screen are exactly those that fit the wire
  (`StreamBound.LawHoldsIffFits`).
- The per-VM lock, like the per-VM channel, is found by the identifier as a request
  spells it, and letter case is not normalised. Commands that need a stopped VM find
  it stopped in every interleaving if and only if the requests that start it spell
  it alike (`VmOperations.CommandsFindVmStopped`).
- Attribution of storage keys to the controller with the longest matching name is
  right if and only if no controller is called "<another controller>-<number>"
  (`AttachmentKeys.LongestFirstIsRight`).
- Rules of a VM that could not be read are skipped by the port-forwarding guards;
  `PortForwarding.AddKeepsUniqueIff` says exactly when that lets a duplicate
  through.
- The share-name suffixes end at 999, so the derived name can still be in use once
  998 names are taken; `ShareName.DerivedFreeIff` is the exact condition.
- `Close` of a capturer looks before it asks, in two steps. A close panics exactly
  when some close looked while the loop had not ended and another had looked and not
  returned (`Capturer.PanicIffOverlap`). No caller in the program overlaps closes: a
  capturer is closed by the swap or by the deferred close of the one goroutine that
  streams, each of them once (`ScreenStream.RunDebounced`).

## Model

| member | source | states |
|---|---|---|
| Frames.TileChanged | apps/desktop-agent/internal/server/screenstream.go:428-437 | comparing the row spans of two flat RGBA buffers is true if and only if some pixel of the rectangle differs; every span stays inside the buffer |
| Frames.RowsEqualIffPixels | apps/desktop-agent/internal/server/screenstream.go:429-434 | two row spans are equal exactly when their pixels, read four bytes at a time, are |
| Frames.SameImage | apps/desktop-agent/internal/server/screenstream.go:399-408 | a tile left out because nothing differs has the same image in both frames, and only such a tile |
| Frames.GridPartitions | apps/desktop-agent/internal/server/screenstream.go:391-398 | the tile loops cut the frame into non-empty tiles inside it, every pixel in exactly one |
| Frames.TilesFromCount | apps/desktop-agent/internal/server/screenstream.go:391-398 | how many tiles a frame of any size has |
| TileWire.EncodeRow | apps/desktop-agent/internal/server/screenstream.go:393-419 | one grid row appends exactly its changed tiles to the buffer and counts them in 16 bits; it fails only if some tile cannot be encoded |
| TileWire.EncodeChangedTiles | apps/desktop-agent/internal/server/screenstream.go:379-424 | the buffer is the message of exactly the changed tiles of the grid, in order, with the number of tiles modulo 65536 patched in; no result exactly when a JPEG fails |
| TileWire.HeaderRoundTrip | apps/web-ui/src/lib/screenTiles.ts:13-20 | the big-endian fields of a tile header are read back as written when they fit |
| TileWire.HeaderBytes | apps/desktop-agent/internal/server/screenstream.go:411-416 | a tile's header is its column, row, width, height and JPEG length, in that order, in two bytes each and four for the length, the high byte first |
| TileWire.MessageBytes | apps/desktop-agent/internal/server/screenstream.go:369-375 | a message is the count in two bytes, high byte first, and then each tile's header and JPEG in order |
| TileWire.RoundTripIffFits | apps/web-ui/src/lib/screenTiles.ts:7-27 | parsing a written message gives back exactly its tiles, in order, and ends at its last byte, if and only if the count fits 16 bits and every field its width |
| TileWire.ReadWrapped | apps/web-ui/src/lib/screenTiles.ts:7-27 | of any other message with JPEGs shorter than 4 GiB, as many tiles are read as the wrapped count says, each with its coordinates modulo 65536 |
| TileWire.GridFitsIff | apps/desktop-agent/internal/server/screenstream.go:385-423 | which frame sizes can be sent whole: tile count below 65536 and last tile start within 16 bits, in terms of width and height |
| TileWire.UpToFits | apps/desktop-agent/internal/server/screenstream.go:385-423 | every frame up to 32640 by 32640 fits |
| TileWire.CountWraps | apps/desktop-agent/internal/server/screenstream.go:417-423 | every frame of more than 32640 and up to 32768 pixels each way has a multiple of 65536 tiles, which 16 bits count as none: the bound is tight |
| TileWire.FirstPaintCount | apps/desktop-agent/internal/server/screenstream.go:383-420 | after a change of size the message holds one tile per tile of the grid |
| Canvas.QueueJobs | apps/web-ui/src/lib/screenTiles.ts:7-27 | the moving offset queues one draw per tile the parser recovers, and stops where reading runs out of the buffer |
| Canvas.DrawOrderIrrelevant | apps/web-ui/src/lib/screenTiles.ts:21-28 | draws of disjoint tiles give the same canvas in every order of completion |
| Canvas.CanvasElement.PaintTiles | apps/web-ui/src/lib/screenTiles.ts:6-29 | painting a message draws each of its tiles once, in some order, and for disjoint tiles that is the canvas with all of them drawn |
| Canvas.ChangedTilesExact | apps/desktop-agent/internal/server/screenstream.go:388-420 | the tiles sent are exactly those rectangles of the grid that changed (all of them after a change of size), each with the encoding of its own image |
| Canvas.DeltaRefinesWhole | apps/desktop-agent/internal/server/screenstream.go:379-424 | a canvas that shows the whole previous frame shows, after the delta, exactly what painting the whole new frame on a cleared canvas would show |
| ScreenStream.StreamLoop.HandlePoll | apps/desktop-agent/internal/server/screenstream.go:317-345 | the debounce and the capturer swap as carried out on the loop's variables equal the specified step |
| ScreenStream.StreamLoop.HandleTick | apps/desktop-agent/internal/server/screenstream.go:346-365 | grabbing, encoding with the real encoder and remembering the frame equal the specified step |
| ScreenStream.StreamLoop.Serve | apps/desktop-agent/internal/server/screenstream.go:304-367 | the loop over any list of events equals the run of the specification, and leaves by the deferred close |
| ScreenStream.DeltaFits | apps/desktop-agent/internal/server/screenstream.go:379-424 | whatever changed between two frames of a size that fits, the message fits the wire |
| ScreenStream.RunInSync | apps/desktop-agent/internal/server/screenstream.go:276-367 | on every run of polls, swaps and ticks the client has the announced size and shows the whole previous frame, or nothing if there is none |
| ScreenStream.TickShowsWholeFrame | apps/desktop-agent/internal/server/screenstream.go:346-365 | on every run, after a tick that did not end the stream the client's canvas equals, pixel for pixel, the whole-frame picture of the frame just grabbed |
| ScreenStream.PollKeepsOrClears | apps/desktop-agent/internal/server/screenstream.go:311-345 | on every run, the previous frame is forgotten exactly when the canvas is cleared and resized |
| ScreenStream.TickShowsInAnyOrder | apps/web-ui/src/lib/screenTiles.ts:21-28 | the same for a client whose draws complete, message by message, in any order |
| StreamBound.LawHoldsIffFits | apps/desktop-agent/internal/server/screenstream.go:353-423 | for every non-empty frame size: the first delivered tick of a stream that goes on shows the whole frame, for every codec with JPEGs shorter than 4 GiB and every screen, if and only if the frame's tiles fit the wire |
| ScreenStream.UncountedScreenNeverPainted | apps/desktop-agent/internal/server/screenstream.go:353-361 | where the tiles of the frame number a multiple of 65536, any number of ticks of a still screen sends nothing and the client's canvas stays as it was cleared |
| ScreenStream.RunDebounced | apps/desktop-agent/internal/server/screenstream.go:250-256 | on every run a streak of k means the last k polls read that same new size; capturers are closed in order, each once, and one is open exactly while the stream is live |
| ScreenStream.SwapNeedsTwo | apps/desktop-agent/internal/server/screenstream.go:317-330 | a capturer is swapped only after two polls in a row read the same valid size, different from the current one |
| StreamLaws.TickGoesOnIff | apps/desktop-agent/internal/server/screenstream.go:346-365 | a live stream is live after a tick if and only if the grab worked, every tile that has to be sent (all after a change of size, else those where a pixel differs) encodes, and their number is a multiple of 65536 or the message was delivered; a tick that goes on remembers the frame and sends one message or, for such a number, none; one that does not closes the capturer |
| StreamLaws.StillTickGoesOn | apps/desktop-agent/internal/server/screenstream.go:358-361 | a tick on which nothing changed goes on, sends nothing and closes nothing |
| StreamLaws.PollSwapsIff | apps/desktop-agent/internal/server/screenstream.go:317-345 | on every run a poll swaps the capturer if and only if it reads a positive size other than the one in use, the polls since the capturer was opened end in an odd number in a row that read that same size, and a capturer can be opened; then the old one is closed, the size is the new one's, and a client that was told has a blank canvas of it; any other poll leaves all that alone |
| StreamLaws.TwoPollsSwap | apps/desktop-agent/internal/server/screenstream.go:325-345 | the first two polls of a stream reading the same new size swap the capturer |
| StreamLaws.RunKeepsStreak | apps/desktop-agent/internal/server/screenstream.go:304-333 | on every run the streak is 1 after an odd number of polls in a row that read the same new size, and 0 after an even one |
| StreamLaws.StartsIff | apps/desktop-agent/internal/server/screenstream.go:252-280 | a stream starts exactly when the socket opens and the size is announced, and the client then has a blank canvas of that size; otherwise the capturer is closed |
| StreamLaws.TickShowsPixels | apps/web-ui/src/lib/screenTiles.ts:21-25 | on every run, after a tick that kept the stream going, the pixel of the client's canvas at each point of each tile is what decoding that tile's JPEG gives at that column and row of it |
| StreamLaws.LosslessShowsScreen | apps/desktop-agent/internal/server/screenstream.go:346-365 | with a lossless codec the client's canvas then has, at every point, the bytes of the guest's screen at that point |
| Capturer.ScreenCapturer.Grab | apps/desktop-agent/internal/vmscreen/vmscreen.go:118-127 | undisturbed, a grab gets exactly the frame the loop grabs for it, after the loop has answered what it was serving, or an error if the loop has ended or ends first; no other call changes, and it is a run of the protocol |
| Capturer.ScreenCapturer.SendMouseAbsolute | apps/desktop-agent/internal/vmscreen/vmscreen.go:289-309 | likewise for a pointer event, which reaches the guest only with coordinates on its screen, and unchanged if they were |
| Capturer.ScreenCapturer.Close | apps/desktop-agent/internal/vmscreen/vmscreen.go:130-138 | undisturbed, a close returns only when the loop has ended and what it was serving has been answered; it panics exactly when the loop goes on although a close was already asked for |
| Capturer.AnsweredExactlyOnce | apps/desktop-agent/internal/vmscreen/vmscreen.go:118-127 | on every run a call that returned got the one answer sent to it, a refused one was sent none, and no call is left accepted without an answer once the loop ended |
| Capturer.RefusedOnceEnded | apps/desktop-agent/internal/vmscreen/vmscreen.go:275-283 | a call begun after the loop ended can only be refused |
| Capturer.EverythingFinishes | apps/desktop-agent/internal/vmscreen/vmscreen.go:118-138 | n calls and m closes take at most 4n+3m+1 steps besides redraws, and are stuck only when all have returned: nothing blocks for ever |
| Capturer.PanicIffOverlap | apps/desktop-agent/internal/vmscreen/vmscreen.go:130-138 | on every run at whose end all closes are over, one has panicked if and only if some close looked while the loop had not ended and another had looked and not returned |
| Capturer.SequentialClosesNeverPanic | apps/desktop-agent/internal/vmscreen/vmscreen.go:130-138 | where no closes overlap in that sense none has panicked at any point, and one that returned saw the loop end |
| Gate.CommandGate.Act | apps/desktop-agent/internal/vbox/gate.go:80-121 | one step of one caller on the channels, or nothing when the channel does not allow it |
| Gate.CommandGate.Exec | apps/desktop-agent/internal/vbox/gate.go:80-87 | undisturbed, a command takes a global slot and gives it back, or gives up and takes none; it is a run of the model |
| Gate.CommandGate.RunForVM | apps/desktop-agent/internal/vbox/gate.go:107-121 | undisturbed, a call for a VM leaves every channel holding what it held before, on success and on giving up at either wait, and is a run of the model |
| Gate.GateSafety | apps/desktop-agent/internal/vbox/gate.go:16-22 | in every interleaving, with cancellation and timeouts, no two commands run for one VM and at most four run in all |
| Gate.RunKeepsInv | apps/desktop-agent/internal/vbox/gate.go:80-121 | on every run each channel holds exactly one value per holder, never more than its capacity |
| Gate.EveryExitGivesBack | apps/desktop-agent/internal/vbox/gate.go:61-121 | a caller that has left, by success or by giving up at either wait, has put into each channel exactly as much as it took |
| Gate.LeavesByRunOrQuit | apps/desktop-agent/internal/vbox/gate.go:80-121 | a caller that has left ran its command exactly once or gave up exactly once, as it reports; also for commands that address no VM |
| Gate.WaitsOnlyWhileHeld | apps/desktop-agent/internal/vbox/gate.go:61-70 | in every interleaving a waiting caller can take its VM's channel exactly when no other caller of the VM is past that wait, and a global slot exactly when fewer than four are held |
| Gate.NoDeadlock | apps/desktop-agent/internal/vbox/gate.go:80-121 | while a caller is unfinished some caller can move without a cancellation or timeout |
| Gate.EveryoneFinishes | apps/desktop-agent/internal/vbox/gate.go:80-121 | N callers take at most 6N steps, and are stuck only when all are done and every channel is empty |
| VmOperations.AgentServer.TryLockVm | apps/desktop-agent/internal/server/server.go:1555-1571 | a try-lock succeeds exactly when the lock of that spelling is free; it is held then, and otherwise the request is over |
| VmOperations.AgentServer.HandleGuarded | apps/desktop-agent/internal/server/server.go:1329-1347 | undisturbed, a delete (or hardware change or disk operation) is a conflict, a rejection or a command exactly as the lock and the state say, gives the lock back on every path, and is a run of the model |
| VmOperations.AgentServer.HandleOperation | apps/desktop-agent/internal/server/server.go:1573-1596 | undisturbed, a start, stop or reset is a conflict exactly when the lock is held, otherwise leaves the VM as its last attempt did, and gives the lock back |
| VmOperations.AgentServer.WaitUntilNotLive | apps/desktop-agent/internal/vbox/snapshot.go:178-195 | the polling loop ends as stopped exactly when some poll before the deadline reads a state that is not live, and then the VM is not live |
| VmOperations.AgentServer.HandleRestore | apps/desktop-agent/internal/vbox/snapshot.go:108-138 | a restore powers a live VM off and waits, fails exactly when that fails or the restore does, and gives the lock back on every path |
| VmOperations.AgentServer.AcceptBackground | apps/desktop-agent/internal/server/createvm.go:117-143 | a clone or export is accepted exactly when the VM is not live and its lock is free; the job then holds the lock |
| VmOperations.AgentServer.RunBackgroundJob | apps/desktop-agent/internal/vbox/clonevm.go:56-64 | the job, in whatever state the VM is by then, is rejected exactly when the VM is live, and the lock is free once its outcome is seen, a panic included |
| VmOperations.CommandsFindVmStopped | apps/desktop-agent/internal/vbox/clonevm.go:56-104 | in every interleaving of requests on one VM, whenever a clone, export, delete, hardware change, disk operation or restore is issued, and while it runs, the VM is not live, if and only if the requests that start the VM spell its identifier as those do |
| VmOperations.StartBehindRuns | apps/desktop-agent/internal/server/server.go:1555-1571 | for any two such requests that spell it differently, the run on which the VM is started between the second read and the command |
| VmOperations.LockExcludes | apps/desktop-agent/internal/server/server.go:1555-1596 | two requests that spell the VM alike are never inside their critical sections together, and one that is over holds no lock |
| VmOperations.PreCheckIsNotEnough | apps/desktop-agent/internal/server/createvm.go:117-142 | a run on which the check made without the lock passes and the VM is then started; the second read under the lock rejects the job |
| JobGoroutines.PointsFollow | apps/desktop-agent/internal/server/createvm.go:226-264 | the language's rules for bodies, deferred calls, panics and recovery, applied to the goroutine, the closure and the recovering call as written, give the order in which a job gives back its lock and writes its outcome |
| JobSafety.SeenFinishedIsUnlocked | apps/desktop-agent/internal/server/createvm.go:137-142 | on every run of any jobs and other requests, whatever the work returns and wherever it panics, a job whose status can be seen as finished holds the lock of no VM |
| JobSafety.EndedIsClean | apps/desktop-agent/internal/server/createvm.go:226-264 | a goroutine that has ended has recovered from any panic, holds neither the table's mutex nor a VM's lock, and its job, if listed, is finished |
| JobResults.SeenResultIsReturned | apps/desktop-agent/internal/server/createvm.go:244-263 | on every run a job seen done shows the message, the VM and the name that its own work returned, and one seen failed the error it returned or the message for a panic |
| JobSafety.NoDeadlock | apps/desktop-agent/internal/server/createvm.go:226-264 | while a goroutine has not ended, it or the holder of the table's mutex can take a step |
| JobSafety.JobsAreTableRuns | apps/desktop-agent/internal/server/createvm.go:219-285 | every run of the goroutines is a run of the job table, so the laws of that table hold of it |
| CreateJobs.JobTable.Sweep | apps/desktop-agent/internal/server/createvm.go:279-285 | the sweep removes exactly the jobs finished more than an hour ago |
| CreateJobs.JobTable.Begin | apps/desktop-agent/internal/server/createvm.go:219-228 | starting a job sweeps the table and adds one running job |
| CreateJobs.JobTable.WorkReturned | apps/desktop-agent/internal/server/createvm.go:244-266 | the result is written to the job it belongs to and to no other |
| CreateJobs.JobLifeCycle | apps/desktop-agent/internal/server/createvm.go:219-285 | on every run, panics included, a job changes state at most once, from running to done or error, and leaves the table only by a sweep more than an hour after it finished |
| CreateJobs.FinishedStays | apps/desktop-agent/internal/server/createvm.go:219-285 | a finished job, as long as it is listed, keeps its result whatever happens later |
| CreateJobs.ResultRecorded | apps/desktop-agent/internal/server/createvm.go:229-264 | work that ends always finds its job still running in the table, and its message, VM and name, or its error, are what the job shows from then on |
| CreateJobs.BeginsRunning | apps/desktop-agent/internal/server/createvm.go:219-224 | a new job is listed as running, and of the others exactly those that ended more than an hour before are dropped |
| OperationLog.Store.LogOperation | apps/desktop-agent/internal/store/store.go:269-301 | with an action and a working insert, one row is added: its identifier is above every old one, it has the time and the entry's VM, action and success, and its message is redacted and past 500 bytes cut and marked; otherwise nothing changes; an error is returned exactly when a statement failed or the action is empty |
| OperationLog.LogHoldsCalls | apps/desktop-agent/internal/store/store.go:269-288 | after any history everything logged is exactly one row for each call with an action whose insert worked, with that call's time and entry, numbered in the order of the calls |
| OperationLog.Store.ListOperations | apps/desktop-agent/internal/store/store.go:320-350 | a listing is newest first, of rows ever logged, as many as asked for or as there are, and no row left out is newer, though the table has been trimmed; an out-of-range limit means 100 |
| OperationLog.OrderBy | apps/desktop-agent/internal/store/store.go:326-332 | ordering by time and identifier, newest first, gives the one ordered listing of the rows |
| OperationLog.TrimIsInvisible | apps/desktop-agent/internal/store/store.go:305-350 | after any history, with any clock and any trims failing, a reader of at most 1000 rows sees the same as on the untrimmed log |
| OperationLog.TrimBounds | apps/desktop-agent/internal/store/store.go:305-316 | after a successful trim at most 1000 rows remain |
| OperationLog.InsertKeepsNewest | apps/desktop-agent/internal/store/store.go:276-283 | inserting a row, wherever its time places it, keeps the newest 1000 rows of the trimmed and untrimmed logs the same |
| CreateVm.Host.CreateVmUnattended | apps/desktop-agent/internal/vbox/createvm.go:134-198 | the unattended create carries out the specified saga, the deferred credential removal included |
| CreateVm.Host.CreateVmManual | apps/desktop-agent/internal/vbox/createvm.go:230-280 | the manual create carries out the specified saga |
| CreateVm.Host.CleanupFailedCreate | apps/desktop-agent/internal/vbox/createvm.go:289-313 | the best-effort undo: unregister, then close the medium, then remove the file if one is left |
| CreateVm.AllOrNothing | apps/desktop-agent/internal/vbox/createvm.go:140-190 | a failure after the identifier is known leaves no VM and no disk if and only if the unregistering, and where needed one of the two disk removals, took effect; success leaves the VM with its disk |
| CreateVm.CleanupIff | apps/desktop-agent/internal/vbox/createvm.go:289-313 | from any state the steps can leave, the cleanup clears everything exactly when those removals take effect, and touches no credential |
| CreateVm.OriginalErrorKept | apps/desktop-agent/internal/vbox/createvm.go:283-313 | the error returned does not depend on how the cleanup went |
| CreateVm.ResultIff | apps/desktop-agent/internal/vbox/createvm.go:134-198 | from the host's decisions alone: the call reports success exactly when everything worked, and otherwise the first thing, in order, that did not |
| CreateVm.NoCredentialLeft | apps/desktop-agent/internal/vbox/createvm.go:177-190 | on every path the credential files are those there were before, if and only if the call did not get as far as writing one (every earlier command worked, and so did creating the file) or its removal works |
| ConsolePorts.FindConsolePort | apps/desktop-agent/internal/vbox/service.go:633-676 | the search returns the specified choice |
| ConsolePorts.CollectUsedPorts | apps/desktop-agent/internal/vbox/service.go:767-818 | the scan collects exactly the in-range ports of the other VMs whose display is on |
| ConsolePorts.ProbeVisitsEachOnce | apps/desktop-agent/internal/vbox/service.go:663-673 | each port of 5000-5999 is visited at exactly one of the 1000 offsets, from any start |
| ConsolePorts.ChosenMeans | apps/desktop-agent/internal/vbox/service.go:633-685 | the search fails exactly when neither the current nor the persisted port can be kept and all 1000 are occupied; otherwise the port is free: the current one if that is, else the persisted one if that is, else the first free one in cyclic order |
| ConsolePorts.ConsoleService.PrepareVmConsole | apps/desktop-agent/internal/vbox/service.go:569-626 | preparing a console with the real scan and search, verifying its status and saving the port equal the specified step; a status is returned exactly when a port was found and both commands succeed |
| ConsolePorts.PrepareDoes | apps/desktop-agent/internal/vbox/service.go:582-617 | an effective preparation leaves the VM's display on at the port found and saves the port its status confirms, or else that one; no other VM is touched |
| ConsolePorts.CurrentPortKept | apps/desktop-agent/internal/vbox/service.go:649-653 | a VM whose display is on at a port of the range that is still free keeps it |
| ConsolePorts.PortComesBack | apps/desktop-agent/internal/vbox/service.go:655-659 | a port that was prepared and saved is chosen again the next time, over any steps of other VMs and disabling in between, as long as it is in range and free |
| ConsolePorts.PortsStayDistinct | apps/desktop-agent/internal/vbox/service.go:569-626 | over any run of non-overlapping prepare and disable steps, the in-range ports of enabled displays stay pairwise distinct |
| StoragePorts.PickSataTarget | apps/desktop-agent/internal/vbox/storage.go:248-268 | the search finds the first AHCI controller's target if there is one, and otherwise tells "full" from "no SATA controller" by whether any AHCI controller exists |
| StoragePorts.FreeControllerPort | apps/desktop-agent/internal/vbox/dvd.go:267-283 | the search for a free or growable port, which for SATA only is the same target the disk picker finds |
| StoragePorts.PickDvdTarget | apps/desktop-agent/internal/vbox/dvd.go:254-262 | SATA controllers first, then any |
| StoragePorts.TargetMeans | apps/desktop-agent/internal/vbox/storage.go:252-262 | a target is the lowest free port, or the next new one of an AHCI controller below its maximum; none means no room |
| StoragePorts.PickersComplete | apps/desktop-agent/internal/vbox/dvd.go:254-283 | a disk finds no target exactly when no AHCI controller has a free or growable port, a DVD exactly when no controller has |
| StoragePorts.DvdPrefersSata | apps/desktop-agent/internal/vbox/dvd.go:254-262 | a new optical drive goes to the first AHCI controller with room if there is one, else to the first controller with room |
| StoragePorts.ParsedMeans | apps/desktop-agent/internal/vbox/storage.go:299-322 | the pickers see as used exactly the ports of a controller that hold a device |
| StoragePorts.TargetsAreFresh | apps/desktop-agent/internal/vbox/storage.go:203-232 | a chosen port has nothing on it and is below the count the controller has or grows to, which is at most its maximum |
| StoragePorts.NextDiskNumber | apps/desktop-agent/internal/vbox/storage.go:343-351 | the image gets the first of the numbers 1 to 1000 whose file does not exist, and an error if there is none |
| StoragePorts.VmStorage.AddNewDisk | apps/desktop-agent/internal/vbox/storage.go:195-237 | a live VM, no target, no folder and no file name are told apart and change nothing; otherwise the disk goes to the picked port under an unused file name, and the state is the specified step whichever commands fail |
| StoragePorts.AddDiskDoes | apps/desktop-agent/internal/vbox/storage.go:222-237 | adding a disk whose commands all work puts just that disk on the port picked, and grows only that port's controller, by that port if it was new |
| StoragePorts.VmStorage.MountIso | apps/desktop-agent/internal/vbox/dvd.go:144-183 | mounting into the drive there is, or into a new one on a picked port, equals the specified step, and finds no target exactly when there is neither |
| StoragePorts.MountDoes | apps/desktop-agent/internal/vbox/dvd.go:158-183 | mounting with commands that work leaves the ISO in the drive there was, or else in a new one on the port picked, and changes no other slot |
| StoragePorts.RunKeepsDisks | apps/desktop-agent/internal/vbox/storage.go:178-437 | over any run of add, mount and detach, failures included, every device sits on a port its controller has, and a disk leaves its slot only when detached from it |
| AttachmentKeys.Attribute | apps/desktop-agent/internal/vbox/guestadditions.go:432-460 | the scan over the sorted names gives the specified attribution |
| AttachmentKeys.SplitKey | apps/desktop-agent/internal/vbox/telemetry_parser.go:207-211 | the greedy pattern splits a key in one way only, whatever dashes the name holds |
| AttachmentKeys.LongestFirstIsRight | apps/desktop-agent/internal/vbox/guestadditions.go:416-461 | with names longest first, in any order among equals, every key goes to its own controller, port and device, in agreement with the pattern, if and only if no controller is named after another one and a number |
| AttachmentKeys.AttributedMeans | apps/desktop-agent/internal/vbox/guestadditions.go:432-460 | a key attributed at all is that controller's name, and numerals that read as that port and device, with dashes between them |
| AttachmentKeys.AmbiguousDropped | apps/desktop-agent/internal/vbox/guestadditions.go:440-455 | a key of a controller whose name and number are also another's name is never attributed to it |
| ShareName.DeriveShareName | apps/web-ui/src/lib/shareName.ts:9-29 | the expression chain and the counting loop give the specified name |
| ShareName.DerivedAccepted | apps/desktop-agent/internal/vbox/sharedfolder.go:23 | for every path and every list of names the derived name has 1 to 64 allowed characters and no leading dash |
| ShareName.CandidatesDistinct | apps/web-ui/src/lib/shareName.ts:22-27 | the suffixed candidates, truncated and case-folded, are pairwise distinct |
| ShareName.DerivedFreeIff | apps/web-ui/src/lib/shareName.ts:18-28 | the derived name is unused if and only if the plain name or one of the 998 candidates is |
| ShareName.DerivedFresh | apps/web-ui/src/lib/shareName.ts:18-28 | with fewer than 998 names in use the result differs from all of them, case aside |
| ShareName.GoodNameKept | apps/web-ui/src/lib/shareName.ts:9-20 | a folder whose own name is acceptable and unused keeps it |
| ShareName.RepairedName | apps/web-ui/src/lib/shareName.ts:13-17 | any other name has each stretch of disallowed characters made one dash, dashes, dots and underscores at its ends dropped, and its first 64 characters kept, or is "share" if nothing is left |
| ShareName.LastSegmentIs | apps/web-ui/src/lib/shareName.ts:10-11 | the folder's name is the last segment of the path that is not blank |
| ShareName.DerivedIsLowest | apps/web-ui/src/lib/shareName.ts:19-28 | an unused name is kept, and a used one gets the lowest number from 2 that makes it unused, if any does |
| ForwardingText.ParseForwardingFields | apps/desktop-agent/internal/vbox/portforwarding.go:47-76 | the loop over the fields of a rule line reads the specified rule |
| ForwardingText.ParseForwardingRules | apps/desktop-agent/internal/vbox/portforwarding.go:28-43 | the loop over the lines of the output reads the specified rules per adapter |
| ForwardingText.RuleRoundTrip | apps/desktop-agent/internal/vbox/portforwarding.go:47-76 | a rule with trimmed fields without commas or line breaks is read back from its printed form unchanged |
| ForwardingText.ShownIs | apps/desktop-agent/internal/vbox/portforwarding.go:15-19 | the printed form of a rule, in full |
| ForwardingText.RuleTextMatched | apps/desktop-agent/internal/vbox/portforwarding.go:15-24 | a rule's printed line matches the pattern, giving back its adapter number and its field list |
| ForwardingText.OutputRoundTrip | apps/desktop-agent/internal/vbox/portforwarding.go:28-43 | from a whole output, whatever its other lines, every adapter gets exactly its rules, in order |
| PortForwarding.ValidatedPrintable | apps/desktop-agent/internal/vbox/portforwarding.go:88-116 | every rule that passes validation survives being printed and read back |
| PortForwarding.NameGuard | apps/desktop-agent/internal/vbox/portforwarding.go:158-162 | the name guard on the parsed text decides as it would on the adapter's rules themselves |
| PortForwarding.PortGuard | apps/desktop-agent/internal/vbox/portforwarding.go:165-171 | the port guard on the parsed text decides as it would on the VM's rules themselves |
| PortForwarding.HostPortForwardedByOtherVM | apps/desktop-agent/internal/vbox/portforwarding.go:271-293 | the scan returns the name of the first other readable VM that uses the port, or nothing |
| PortForwarding.NatService.AddPortForwarding | apps/desktop-agent/internal/vbox/portforwarding.go:84-197 | validation, the guards on printed text and the command together equal the specified step on the rules |
| PortForwarding.AddDoes | apps/desktop-agent/internal/vbox/portforwarding.go:88-116 | an accepted request is within the limits and for a readable VM's adapter in NAT mode, and its command adds one line: the rule with the request's trimmed fields, ports as asked and the loopback address unless it names one; a refused one changes nothing |
| PortForwarding.RefusedBecause | apps/desktop-agent/internal/vbox/portforwarding.go:118-178 | each refusal of a valid request says what is in the way, and another VM it names does use the port |
| PortForwarding.NatService.DeletePortForwarding | apps/desktop-agent/internal/vbox/portforwarding.go:202-237 | an invalid or failed delete changes nothing; an effective one, with unique rules, leaves exactly the lines that are not that adapter's rule of that name, in order |
| PortForwarding.DeleteRemovesExactly | apps/desktop-agent/internal/vbox/portforwarding.go:202-237 | after an effective delete no rule of that name is left on the adapter, and every other line of every VM is as it was |
| PortForwarding.AddKeepsUniqueIff | apps/desktop-agent/internal/vbox/portforwarding.go:146-178 | an accepted rule keeps all rules unique if and only if it clashes with none of a VM whose rules could not be read |
| PortForwarding.AcceptedIffUnique | apps/desktop-agent/internal/vbox/portforwarding.go:158-178 | with all rules read, a valid request for a NAT adapter is accepted if and only if adding its rule keeps all rules unique |
| PortForwarding.RunKeepsUnique | apps/desktop-agent/internal/vbox/portforwarding.go:84-237 | over any run of non-overlapping adds and deletes that read all rules, no two rules on any VMs share host port and protocol and no adapter has two rules of one name up to case |
| Tokenizer.TokenizeCommand | apps/web-ui/src/components/GuestControlPanel.tsx:26-52 | the character loop gives the specified tokens |
| Tokenizer.TokenizeUndoesQuoting | apps/web-ui/src/components/GuestControlPanel.tsx:26-52 | however tokens are written, as any mixture of plain characters and quoted stretches, and whatever white space stands between them, the tokens come back, empty ones included |
| Tokenizer.EveryListExpressible | apps/web-ui/src/components/GuestControlPanel.tsx:26-52 | every list of tokens can be written so that it tokenizes back to itself |
| Tokenizer.TokenizeKeeps | apps/web-ui/src/components/GuestControlPanel.tsx:26-52 | the tokens put together are the input minus delimiting quotes and unquoted white space |

## Left out

- Screen stream: messages are applied in the order sent. The browser's message handler is asynchronous and does not enforce this, so draws may complete in any order within a message only.
- Screen stream: a JPEG that the browser cannot decode, input events, authentication and the WebSocket itself; a failed send ends the stream.
- Screen stream: RunInSync and the lemmas after it ask for sizes that pass the bound of GridFitsIff and JPEGs shorter than 4 GiB; at every size past the bound the law fails, as LawHoldsIffFits shows. A JPEG of 4 GiB or more is not modelled further.
- Capturer: what a grab or an input event does to the guest, and the set-up of the COM session; a failed set-up returns no capturer.
- Gate: a VM is what its identifier's spelling says; the deadline and the context are the choice to give up at a wait, and a running command always ends.
- VmOperations: only commands of the agent make a VM live, and a command takes effect at one moment; nothing is proved about the VirtualBox window changing the state between a read and a command. One VM at a time: different VMs have different locks.
- VmOperations: names, snapshots and directories that the checks also look at, and deleting or taking a snapshot, which need no stopped VM.
- CreateJobs: identifiers are random, and a new one is taken not to be in use.
- JobGoroutines: a panic can come from the work or from recording its result, not from the handful of assignments in the recovering call; taking the VM's lock and registering the job is one step.
- OperationLog.Store.LogOperation: which paths and tokens are redacted is a parameter. Times are integers in the order of their text form, and identifiers grow with every insert, as an autoincrement key does.
- CreateVm.AllOrNothing: supposes that there was no file at the disk path before. If there was one, the medium cannot be created, and the cleanup removes that file.
- CreateVm: a VM that was registered although its identifier could not be read is not cleaned up, and the model says so; validation of the request, wiring the serial console and importing an appliance are not modelled.
- ConsolePorts: the hash that gives the start is any port of the range, and which ports can be bound does not change during one search. Two VMs preparing at the same time hold different locks and are not covered.
- StoragePorts: the image file itself, size limits, ejecting, and the parsing of controller types; a floppy controller is not excluded, as in the source.
- AttachmentKeys: the sort itself; any order with longer names first is covered. Which values count as optical drives is left out.
- ShareName: letter case is folded for ASCII letters, which is all the pattern allows; strings are sequences of characters, not of UTF-16 units.
- ForwardingText: keys and protocols are lower-cased for ASCII letters.
- PortForwarding: the library's case folding and IP parser are parameters; of the parser it is supposed only that an address consists of hexadecimal digits, dots and colons. VMs have non-empty names, and their descriptions are printed in the documented form.
- PortForwarding.AcceptedIffUnique: supposes that existing rules are for tcp or udp, and that t and u are not the same letter up to case.
- PortForwarding: whether the VM is live decides only which command adds the rule; adapter modes are given, not parsed.
- Starting a VM with its retries, telemetry, guest additions, unattended install arguments, React views, configuration and the update check: plumbing, or easy members.
