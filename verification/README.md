# A verified model of the agent's durable state machines

The remote-management agent keeps its promises through small state machines over
durable state: a file offset, a ring of recent ids, a staged binary, a leaf
certificate, an identity file, a temporary file that becomes a destination. Each
of them can crash, retry or interleave, so what they promise is about whole runs.
This project models them in Dafny and proves those promises for every run, or,
where the code does not keep one, shows an input on which it fails and says
exactly when it holds.

How the files fit together:

- `Basics.dfy`: optional values, bytes, digits, powers of two, lists without repeats.
- `LineSplit.dfy`: cutting a byte stream into lines, and subsequences.
- `Shipper.dfy`, `ShipperInvariant.dfy`, `ShipperRuns.dfy`: the log shipper as a
  class, what each of its operations keeps, and runs with crashes and restarts,
  in which every process that wrote the offset file leaves a record of itself.
- `LokiPush.dfy`: grouping a batch into one stream per level.
- `OsEvent.dfy`: the OS event tail with its watermark and ring of ids.
- `Version.dfy`, `Update.dfy`, `UpdatePass.dfy`: the version order, installing
  as file operations cut off at any point, and histories of update passes.
- `Backoff.dfy`, `Rotate.dfy`: the doubling back-off, reconnecting, and leaf
  rotation against a clock.
- `Files.dfy`, `PushSession.dfy`: the chunker, the octal mode, the assembler.
- `Caps.dfy`, `Uplink.dfy`: capability tokens and the command channel.
- `Scrypt.dfy`: scrypt parameters for the release signer's key file.
- `Enroll.dfy`: first boot, and the identity file under overlapping saves.
- `Flows.dfy`: the flow composer's compiler to a graph and the way back.

Conventions. Where the source updates fields in place there is a class whose
methods are proved equal to functions on a value (`View()`, `State()`); runs are
sequences of events over those values. What the world answers (whether a send, a
rename, a signature check succeeds, how many bytes a read returns, when a sleep
ends) is an argument, so that a lemma over all arguments is a lemma over every
behaviour of the world. JSON parsing, signature validity and token decoding are
function-valued fields about which nothing is assumed, with two exceptions: some
event of less than 256 KiB is well-formed (where a restart is shown to go wrong),
and a manifest names the version of its binary (where the executable's version is
followed). A power loss is the number of file operations that still take effect
(`Update`), or an event (`ShipperRuns`, `Enroll`).

Where the code does less than its comments say:

- The log shipper persists the offset of everything read, not of what was
  delivered. A restart loses what was queued or held back at that moment
  (`LogshipRuns.QueuedLineLost`); `LogshipRuns.RestartSafeExactly` gives the
  exact condition, `LogshipRuns.NoLoss` what holds under it, and
  `LogshipRuns.CrashAccounting` what holds of every run. Before any offset
  has been persisted, a shipper that starts at the end of the file starts there
  anew after a crash; `origin` in `LogshipRuns` is the last such point.
- Wait on an abandoned push reports success (`PushSession.WaitReportExactly`).
- A write that fails half-way leaves its bytes in the temporary file, and the
  chunk may be sent again (`PushSession.DeliveredExactly`,
  `PushSession.JunkArrives`).
- A chunked push is waited for by the goroutine that routes chunks, so no chunk
  ever reaches it (`Uplink.Reader.FilePushCommand`, `Uplink.Gate`).
- A pull whose end of file arrives in a read of its own reports size 0
  (`Files.LateEofReportsZero`).
- Dev versions such as "0.0.0-dev" are read as the numbers they begin with, so a
  move between two of them is allowed only if these go up
  (`Version.SuffixIgnored`, `Version.DevBuildsStay`), and versions that are not
  numeric can be left and come back to (`Version.CycleExactly`).
- A release is compared with the version of the running process, which may be
  older than the executable after a staged update was activated; a release in
  between then lowers the executable (`UpdatePass.OlderReleaseInput`,
  `UpdatePass.RollsBackExactly`). A direct install leaves an older staged update
  where it is, and the next start activates that (`UpdatePass.StaleStagedInput`).
  `UpdatePass.NeverFalls` says what rules out both.
- The event tail tells entries apart across polls but not within one window
  (`OsEvent.RepeatedInWindow`, `OsEvent.RepeatsExactly`).
- Saving the identity after a token renewal takes no lock against the save after
  a leaf rotation; both write the same temporary file
  (`IdentityStore.OverlapUnreadable`, `IdentityStore.OverlapExactly`). The
  identity itself is still never lost to another one (`IdentityStore.Stability`).
- A step picked from the composer's menu becomes the id "sNaN"
  (`Flows.RunsAgreeExactly`, `Flows.EdgesKnownExactly`).
- `toComposer` does not undo `buildGraph`: of a check that goes on in both cases it
  makes one whose graph has a dangling edge (`Flows.ElseNextCut`), and zeros come
  back as defaults (`Flows.ZeroComesBackAsDefault`,
  `Flows.ZeroTriggerComesBackAsDefault`). These are properties of the
  two functions; nothing in the repository calls `toComposer`, and the edit
  button hands the stored flow to the composer as it is.

## Model

| member | source | states |
|---|---|---|
| LineSplit.SplitAppend | agent/internal/logship/logship.go:459-482 | what a read adds to the lines depends only on the unterminated tail before it |
| LineSplit.JoinSplit | agent/internal/logship/logship.go:472-482 | lines and tail together are the whole stream |
| LineSplit.SplitUnique | agent/internal/logship/logship.go:472-482 | there is no other way to write a stream as newline-free pieces |
| Logship.Shipper.constructor | agent/internal/logship/logship.go:296-364 | sizes not configured are 200 and 4096; the start offset is the persisted one if within the file, 0 if beyond it or unreadable, and without one the end or 0 |
| Logship.Shipper.FirstIndexByte | agent/internal/logship/logship.go:618-625 | the first newline, or -1 exactly when there is none |
| Logship.Shipper.TakeLines | agent/internal/logship/logship.go:472-482 | the loop yields the non-empty lines and the tail of the buffer |
| Logship.Shipper.Absorb | agent/internal/logship/logship.go:459-488 | one read: offset, held-back bytes, size drop and the lines handed to the queue |
| Logship.Shipper.ReadNew | agent/internal/logship/logship.go:452-497 | one pass over any sequence of read sizes; the result counts the lines handed on |
| Logship.Shipper.Enqueue | agent/internal/logship/logship.go:502-516 | unparseable lines are counted, the oldest are dropped beyond the cap |
| Logship.Shipper.Flush | agent/internal/logship/logship.go:521-589 | the new shipper, sinks and offset file for every combination of answers |
| Logship.Shipper.Send | agent/internal/logship/logship.go:553-571 | each enabled sink accepts or refuses by itself; refusal by any returns the batch |
| Logship.Shipper.Requeue | agent/internal/logship/logship.go:573-580 | a refused batch goes back to the front, the newest are dropped beyond the cap |
| LogshipInvariant.AbsorbedWellformed | agent/internal/logship/logship.go:452-516 | a read of any size keeps the accounting of lines, order and counters |
| LogshipInvariant.FlushedWellformed | agent/internal/logship/logship.go:521-589 | so does a flush, delivered or refused |
| LogshipInvariant.FlushEffect | agent/internal/logship/logship.go:521-589 | what one flush does to queue, deliveries, each sink, counters and offset file, for every combination of answers; only an accepted one persists, and what it persists is the reading offset |
| LogshipInvariant.Conservation | agent/internal/logship/logship.go:325-327 | pushed + queued + skipped is the number of non-empty lines read plus the size drops |
| LogshipInvariant.Reassembly | agent/internal/logship/logship.go:452-497 | for every cutting of the growth into reads, with no line over 1 MiB - 256 KiB, the lines handed on are those of the consumed part and the held-back bytes its tail |
| LogshipInvariant.ReassemblyExactlyUnlessOversize | agent/internal/logship/logship.go:464-469 | a single read keeps that if and only if held-back and new bytes together stay within 1 MiB |
| LogshipInvariant.SplitExactly | agent/internal/logship/logship.go:464-488 | lines handed on and held-back bytes are those of the consumed bytes if and only if no read was dropped for its size |
| LogshipRuns.RunOk | agent/internal/logship/logship.go:428-447 | the invariant of all runs with growth, reads, flushes, crashes inside and outside flushes, restarts, and a log or offset file that is replaced in between |
| LogshipRuns.CrashAccounting | agent/internal/logship/logship.go:336-364 | in every run the file from where shipping began to the offset on disk is divided among the processes that wrote that offset, and each, when it last wrote it, had every line of its part delivered to every sink, counted skipped, or in its queue, and the unfinished rest held back |
| LogshipRuns.StartReads | agent/internal/logship/logship.go:350-362 | whatever the log and the offset file have become: the next process hands on exactly the lines from the saved offset on, or from the beginning if that lies outside the file or cannot be read, or from the end or the beginning without one |
| LogshipRuns.RotatedFileReadWhole | agent/internal/logship/logship.go:350-357 | a file shorter than the saved offset is read from its beginning |
| LogshipRuns.TailLoop | agent/internal/logship/logship.go:428-589 | in every run the queue is the latest of the parseable input, delivered lines followed by it are a subsequence of that input, all of it while the cap is not hit, and the counters balance |
| LogshipRuns.ReassemblyExactly | agent/internal/logship/logship.go:452-497 | in every run a living process has handed on the lines of what it consumed and holds back its tail if and only if no read was dropped for its size |
| LogshipRuns.NoLoss | agent/internal/logship/logship.go:521-601 | if each process had queue and held-back bytes empty when it last wrote the offset file, then over any crashes and restarts every parseable line up to the offset on disk is in every sink, in order, or was dropped for a limit; and up to the reading position, if queued lines count |
| LogshipRuns.RestartSafeExactly | agent/internal/logship/logship.go:581-587 | crash, growth of the file, start, and any reads and flushes that leave nothing to do: each parseable line is counted delivered once and in order, or was dropped for a limit, and none is garbled, if and only if queue and held-back bytes were empty when the offset was written |
| LogshipRuns.RestartDeliversExactly | agent/internal/logship/logship.go:581-587 | where nothing was dropped, the two processes together delivered exactly the parseable lines of the file, in order, under the same condition and no other |
| LogshipRuns.QueuedLineLost | agent/internal/logship/logship.go:527-587 | a run of five events that loses a line |
| LokiPush.Group | agent/internal/logship/logship.go:216-247 | one stream per level in first-seen order, each with exactly the entries of its level in batch order |
| LokiPush.FirstSeenOrder | agent/internal/logship/logship.go:225-234 | a stream's place is fixed by the first entry of its level |
| LokiPush.SelectInOrder | agent/internal/logship/logship.go:225-246 | the values of a stream are those of all entries of its level ("info" for an empty one), in batch order, each the line with the entry's time or, without one, the clock's |
| LokiPush.GroupPartitions | agent/internal/logship/logship.go:216-247 | the streams together hold every entry exactly once |
| OsEvent.Tail.Poll | agent/internal/osevent/osevent.go:159-221 | what is offered is the fresh part of the window sorted by time; the state advances only when send and save succeed |
| OsEvent.Tail.Collect | agent/internal/osevent/osevent.go:170-192 | the filter by ring and watermark |
| OsEvent.Tail.Summarize | agent/internal/osevent/osevent.go:205-211 | the new watermark is the latest time of the batch, its ids are appended |
| OsEvent.RunOk | agent/internal/osevent/osevent.go:159-221 | in every run the saved log is sorted, the watermark its last time stamp and the ring its last 200 ids |
| OsEvent.StateRead | agent/internal/osevent/osevent.go:205-216 | that ring holds the ids of the last 200 entries, oldest first, and the watermark is 0 before any |
| OsEvent.AllSaved | agent/internal/osevent/osevent.go:216-219 | without failed saves the saved log is all that was shipped |
| OsEvent.WatermarkMonotone | agent/internal/osevent/osevent.go:182-212 | the watermark never decreases; failed sends and reads change nothing |
| OsEvent.Coverage | agent/internal/osevent/osevent.go:174-195 | after a successful poll each entry of the window is shipped, known by id, strictly older than a shipped one, or has a negative time stamp |
| OsEvent.ReshipExactly | agent/internal/osevent/osevent.go:179-184 | an already shipped entry would be shipped again if and only if more than 200 entries carry the watermark |
| OsEvent.NoDuplicates | agent/internal/osevent/osevent.go:159-221 | over any run in which no 201 saved entries share a time stamp, no entry is saved twice if and only if no saved poll was shown an entry in two fresh slots |
| OsEvent.ShippedOnce | agent/internal/osevent/osevent.go:159-221 | from the start and without failed saves the same holds of everything shipped |
| OsEvent.RepeatsExactly | agent/internal/osevent/osevent.go:170-192 | what is taken from a window has an entry twice if and only if two fresh slots of the window show it |
| OsEvent.RepeatedInWindow | agent/internal/osevent/osevent.go:174-192 | an event shown twice by one window is shipped twice |
| Version.ParseVer | agent/internal/update/manifest.go:96-114 | the loop computes the numeric reading or finds that there is none |
| Version.CompareVer | agent/internal/update/manifest.go:116-126 | the sign of the comparison is the lexicographic order |
| Version.AtoiExactly | agent/internal/update/manifest.go:106-111 | a component is the number its decimal text denotes, leading zeros or not; anything beyond 64 bits or with another character is none |
| Version.ReadsNumbers | agent/internal/update/manifest.go:96-114 | up to three such numbers joined by dots, with white space around and a "v" or not, are major, minor and patch in this order; missing ones are 0, and more than three make no version |
| Version.ReadsOther | agent/internal/update/manifest.go:96-114 | an empty or non-decimal component makes a version non-numeric |
| Version.ReleaseOrder | agent/internal/update/manifest.go:76-126 | one "a.b.c" replaces another if and only if it is higher in the first number in which they differ |
| Version.NewerIsLexicographic | agent/internal/update/manifest.go:76-92 | between numeric versions a release replaces another if and only if its triple is larger |
| Version.NewerStrictOrder | agent/internal/update/manifest.go:76-92 | on numeric versions that is a strict partial order |
| Version.ChainClimbs | agent/internal/update/manifest.go:76-92 | every chain of updates from a numeric version stays numeric and strictly climbs |
| Version.CycleExactly | agent/internal/update/manifest.go:76-92 | updates can lead back to a version if and only if it is non-empty and not numeric |
| Version.NewerElsewhere | agent/internal/update/manifest.go:76-92 | if one of two versions is not numeric, the second replaces the first if and only if it is another one and the first is not numeric |
| Version.SuffixNotRead | agent/internal/update/manifest.go:96-114 | what follows the first '-' or '+' has no say in how a version is read |
| Version.SuffixIgnored | agent/internal/update/manifest.go:70-92 | between two distinct versions with a suffix a move is allowed if and only if the first core is not numeric, or both are and the second is the higher |
| Version.DevBuildsStay | agent/internal/update/manifest.go:70-92 | neither of "0.0.0-dev" and "0.0.0-dirty" replaces the other |
| Update.Disk.CopyFile | agent/internal/update/install.go:46-62 | the operations of a copy for every way it can go, cut off anywhere |
| Update.Disk.Install | agent/internal/update/install.go:17-43 | the operations and the result of an install for every way it can go, cut off anywhere |
| UpdatePass.Run | agent/internal/update/update.go:116-208 | a refused, up-to-date, no-release or check-only pass leaves every file as it was, and one that is not applied the executable; an applied one was newer, from the pinned publisher and verified |
| UpdatePass.ApplyPending | agent/internal/update/update.go:281-299 | a staged update is renamed into place only if its signature verifies now, and removed if not |
| UpdatePass.InstallAtomic | agent/internal/update/install.go:17-43 | wherever an install is cut off the executable is the old one or exactly the new one |
| UpdatePass.InstallComplete | agent/internal/update/install.go:17-43 | an install that is not cut off replaces or stages, and leaves nothing else |
| UpdatePass.StatusMeaning | agent/internal/update/update.go:116-208 | the same at every point where the power can go, and what an applied pass leaves behind when it does not |
| UpdatePass.StatusExactly | agent/internal/update/update.go:116-208 | when a pass answers no release, up to date, refused, verified and applied, each with if and only if |
| UpdatePass.FailedInstall | agent/internal/update/install.go:17-62 | an install that fails leaves the executable, removes its copy unless closing failed, and leaves nothing staged without its signature |
| UpdatePass.RefusedRemoved | agent/internal/update/update.go:286-290 | a start that finds something staged without a valid signature removes it |
| UpdatePass.Safety | agent/internal/update/update.go:116-208 | over every history of passes, starts, crashes and changes to the staging files the executable is whole and either original or signed under the pinned key |
| UpdatePass.StagedActivates | agent/internal/update/update.go:281-299 | a staged update is the executable after the next start whose rename succeeds, and no staging files are left |
| UpdatePass.AppliedVersionsClimb | agent/internal/update/update.go:139-143 | if each pass is run by the version applied before it, the versions of successive applied passes strictly increase from a numeric one |
| UpdatePass.RestartHasRelease | agent/internal/update/update.go:116-208 | a pass that replaces the executable leaves the running version, and the next process has the release's |
| UpdatePass.RollsBackExactly | agent/internal/update/update.go:139-143 | a pass or a start lowers the version of the executable if and only if it installs a release between the version of the running process and that of the executable, or activates a staged binary that is lower or not numeric |
| UpdatePass.NeverFalls | agent/internal/update/update.go:116-208 | over any passes and starts, cut off anywhere, the version of the executable never falls, as long as each pass that installs is run by the installed version with nothing staged, and nobody puts a lower version in the staging place |
| UpdatePass.StaleStagedInput | agent/internal/update/install.go:25-41 | with something staged it can: version 1 stages 3, is replaced by 4, and the next start brings 3 back |
| UpdatePass.OlderReleaseApplied | agent/cmd/agent/main.go:342-353 | for any three such releases: an update is staged, a start activates it, and the old process that is still running applies one that lies between |
| UpdatePass.OlderReleaseInput | agent/cmd/agent/main.go:342-353 | version 1 stages version 3, starts, and then replaces it by version 2 |
| Backoff.DoubledIsClosed | agent/internal/rotate/rotate.go:193-196 | doubling and cutting off follows the closed form |
| Backoff.ClosedIsCappedExactly | agent/internal/rotate/rotate.go:193-196 | the back-off is min(Min * 2^k, Max) for all k if and only if Min <= Max |
| Reconnect.Waits | agent/internal/uplink/uplink.go:256-294 | for every history of sessions each wait is its base and a jitter of up to half of that, any of which can be drawn |
| Reconnect.KthWait | agent/internal/uplink/uplink.go:276-292 | the base is min(Min * 2^(k-1), Max) after the k-th un-acked session in a row and Min after an acked one |
| Rotate.ThresholdExactly | agent/internal/rotate/rotate.go:91-103 | the threshold is the fraction of the lifetime, at most the lead, at least the retry interval |
| Rotate.ThresholdBounds | agent/internal/rotate/rotate.go:91-103 | the threshold is at least the retry interval and at most the lead |
| Rotate.AttemptInstant | agent/internal/rotate/rotate.go:154-184 | a refresh starts when the window opens, or at once if that has passed; the first at a fixed time after the start if that is configured and earlier |
| Rotate.TurnExactly | agent/internal/rotate/rotate.go:143-200 | what a turn does to clock, leaf and back-off for every answer |
| Rotate.Rotator.constructor | agent/internal/rotate/rotate.go:73-89 | defaults for every setting out of range |
| Rotate.Rotator.Refresh | agent/internal/rotate/rotate.go:204-243 | the leaf is swapped only for a complete, parseable one |
| Rotate.Rotator.Run | agent/internal/rotate/rotate.go:139-201 | the loop follows the timed transition for every sequence of turns |
| Rotate.FailureRun | agent/internal/rotate/rotate.go:187-197 | k failures in a row leave the closed-form back-off and bounded delay |
| Rotate.AttemptsExactly | agent/internal/rotate/rotate.go:91-103 | k + 1 attempts are sure to start before expiry if and only if the longest time of k failures is below the retry interval, or below the lead and within the fraction of the lifetime |
| Rotate.NeverExpired | agent/internal/rotate/rotate.go:135-201 | with at most k failures in a row and fresh leaves in time the presented leaf is valid at every moment |
| Files.SendPull | agent/internal/files/files.go:32-97 | for every course of reads and sends: it finishes if and only if the end of the file is met and sent after reads that all went well, and then the chunks, numbered from 0, within 256 KiB and marked only at the end, carry exactly the bytes read; otherwise it fails and what was sent is unmarked |
| Files.LateEofReportsZero | agent/internal/files/files.go:83-93 | a file of one byte whose end comes in a read of its own is sent whole and reported with size 0 |
| Files.ParseOctal | agent/internal/files/files.go:278-287 | the loop yields the octal value wrapped to 64 bits, or nothing exactly for other digits |
| Files.ParseMode | agent/internal/files/files.go:263-276 | the mode is the octal value modulo 2^32 for strings of any length |
| Files.ModeOfText | agent/internal/files/files.go:263-287 | the base-eight text of a number, with leading zeros or "0o" before it, is the mode with that number |
| PushSession.Push.Chunk | agent/internal/files/files.go:135-159 | acceptance and rejection of a chunk, with failing writes |
| PushSession.Push.FinishLocked | agent/internal/files/files.go:171-197 | close, rename and chmod with every way to fail |
| PushSession.Push.Wait | agent/internal/files/files.go:201-218 | what is reported, and the cleanup on a timeout |
| PushSession.Push.Abandon | agent/internal/files/files.go:221-231 | closes once, cleans up, reports no error |
| PushSession.FinishExactly | agent/internal/files/files.go:171-197 | when the final chunk replaces the destination, which mode it gets, when the temporary file is left and when the session has failed, for every combination of answers |
| PushSession.SessionRun | agent/internal/files/files.go:135-231 | under any interleaving done is closed at most once and the destination replaced at most once, only by chunks 0..k ending in the final one |
| PushSession.DeliveredExactly | agent/internal/files/files.go:150-154 | the destination holds the accepted data if and only if no failed write left bytes behind |
| PushSession.JunkArrives | agent/internal/files/files.go:150-159 | a half-written first chunk followed by the whole transfer ends without an error and with the half chunk in front of the content |
| PushSession.WaitReportExactly | agent/internal/files/files.go:199-231 | a report without error means a replaced file if and only if the session was not abandoned |
| PushSession.ClosedIsFinal | agent/internal/files/files.go:138-140 | nothing changes after close |
| PushSession.RoundTrip | agent/internal/files/files.go:135-197 | the chunks of a transfer put exactly the content at the destination |
| PushSession.PullThenPush | agent/internal/files/files.go:29-197 | a pulled file pushed to a fresh session arrives whole |
| Caps.PassedExactly | agent/internal/caps/caps.go:84-116 | a token passes if and only if it is valid, of the one issuer, for this device and capability, and bound to this command if that has an id |
| Caps.TokenScope | agent/internal/caps/caps.go:84-116 | a token passes for one capability, one device and one command id |
| Uplink.OneTokenOneAction | agent/internal/caps/caps.go:84-116 | all that a session carries out under one token is under one capability and, for commands with an id, one id |
| Caps.UnboundExactly | agent/internal/caps/caps.go:111-113 | the command binding is waived exactly for commands without an id |
| Uplink.Reader.HandleCommand | agent/internal/uplink/uplink.go:429-467 | what a command leaves behind, for every verdict of the gate and every lost frame, which frames get out, and when the session goes on |
| Uplink.Reader.RunScriptCommand | agent/internal/uplink/uplink.go:469-488 | the script runs if it decodes, and the final status fits its end |
| Uplink.Reader.RebootCommand | agent/internal/uplink/uplink.go:490-510 | the result goes out before the reboot, and without it there is none |
| Uplink.Reader.FilePullCommand | agent/internal/uplink/uplink.go:560-579 | success if and only if the pull came to the end of the file, with chunks and a final one; otherwise a beginning and failure |
| Uplink.Reader.FilePushCommand | agent/internal/uplink/uplink.go:582-617 | only an inline push writes; a chunked one ends without a replaced file |
| Uplink.Reader.AwaitPush | agent/internal/uplink/uplink.go:540-547 | the wait ends by the context or by abandonment, the latter without an error |
| Uplink.Renewals | agent/internal/uplink/uplink.go:200-211 | over a whole session the hook is called once for each change of the token and for nothing else, the last token told is the one in use, and the session is acked if and only if an ack came |
| Uplink.Reader.Take | agent/internal/uplink/uplink.go:325-357 | only commands leave a trace or end the session, an answer is missing only if the stream lost it; chunks find no push |
| Uplink.Reader.Serve | agent/internal/uplink/uplink.go:318-359 | a session is the concatenation of its commands' traces, at most the last cut off; it takes every frame if no result is lost and no reboot cut short |
| Uplink.Protocol | agent/internal/uplink/uplink.go:419-426 | a command's frames are UNSUPPORTED, REFUSED or RECEIVED, chunks, one final status, or a beginning of that on a failed send |
| Uplink.SessionProtocol | agent/internal/uplink/uplink.go:318-359 | the frames of the j-th trace of a session are the conversation about its j-th command with the right final status, or a beginning of it where the session ended; only an unsupported command may go without an answer |
| Uplink.FinalStatus | agent/internal/uplink/uplink.go:429-617 | what a command is told in the end: unsupported, refused, or after RECEIVED exactly the status that script, reboot, pull or push came to |
| Uplink.Gate | agent/internal/uplink/uplink.go:436-465 | an action is carried out only under the capability that was checked, after RECEIVED; inventory and patch arms are unreachable |
| Uplink.SessionGate | agent/internal/uplink/uplink.go:441-449 | everything a session carries out belongs to one of its commands whose token passed |
| Scrypt.Pick | tools/signer/main.go:299-305 | the largest power of two within the budget, at least two |
| Scrypt.ParamsFromLimits | tools/signer/main.go:294-323 | no error for any limits; N is the largest power of two that both limits allow and p the largest count of blocks; N, r and p are within the operations limit, within the memory limit if and only if that is at least 2048, and within section 2 of RFC 7914 |
| Scrypt.XorInto | tools/signer/main.go:280-286 | the mask is applied byte by byte |
| Scrypt.XorTwice | tools/signer/main.go:280-286 | applying it twice restores the input |
| Enroll.EnsureEnrolled | agent/internal/enroll/agent.go:74-158 | reuse without any request, HTTP before gRPC, gRPC only after a transient failure, and what is returned in every case |
| Enroll.Live.SetJwt | agent/cmd/agent/main.go:398-418 | the token changes in both places and is persisted exactly when it differs |
| IdentityStore.Stability | agent/internal/enroll/store.go:125-176 | over any starts, renewals, rotations, failed, overlapping and interrupted saves: same device and root, pairs that belong together, no further enrollment |
| IdentityStore.SavedReadable | agent/internal/enroll/agent.go:149-157 | after the first successful save the file can be read back |
| IdentityStore.SaveArrives | agent/internal/enroll/store.go:146-176 | a save that nothing disturbs leaves the file holding the live identity |
| IdentityStore.ChangeArrives | agent/cmd/agent/main.go:398-418 | a renewed token, or a rotated leaf, is in the file after the save that follows it |
| IdentityStore.OneTry | agent/cmd/agent/main.go:398-418 | over every run a goroutine opens the file no more often than a change asked it to save: a failed save is not tried again |
| IdentityStore.EnrolledOnce | agent/internal/enroll/agent.go:74-158 | a blank machine starts any number of times in vain and then enrolls and saves: whatever happens after that, it makes no further enroll request |
| IdentityStore.SerialSavesReadable | agent/internal/enroll/store.go:146-176 | if saves do not overlap the file can be read back at every moment |
| IdentityStore.OverlapExactly | agent/cmd/agent/main.go:398-418 | opening the temporary file for a save can lead, with no further opening, to an unreadable identity file if and only if the other save is under way |
| IdentityStore.OverlapUnreadable | agent/cmd/agent/main.go:398-418 | a renewal and a rotation whose saves overlap can leave a file that no start can read |
| Flows.BuildGraph | frontend/src/Flows.jsx:24-82 | the trigger and each step become their nodes, with trimmed or default names |
| Flows.StepIdUnique | frontend/src/Flows.jsx:20-22 | step ids are distinct and never "sNaN" |
| Flows.NamesSent | frontend/src/Flows.jsx:52-75 | a name is sent without the blanks around it, a blank one as "run script", "notify" or the check's condition |
| Flows.RunEnds | frontend/src/Flows.jsx:24-82 | a built graph's run is over within n + 1 hops |
| Flows.RunsAgreeExactly | frontend/src/Flows.jsx:42-47 | graph and list run the same steps for all outcomes if and only if no reachable check jumps to a later step by id |
| Flows.EdgesKnownExactly | server/internal/flow/graph.go:215-234 | no edge dangles if and only if no check picks a step by id |
| Flows.AcceptedExactly | server/internal/flow/graph.go:170-281 | a built graph passes the server's validation if and only if its fields do, no check picks a step by id, and every check but the last goes on to the next step in some case |
| Flows.UnreachableRefused | server/internal/flow/graph.go:263-269 | a check that ends in both cases before another step has no dangling edge and is refused |
| Flows.ToComposer | frontend/src/Flows.jsx:84-137 | the loop recovers trigger and backbone, at most 64 steps, and fills in what a node lacks: language, operator, threshold 90, timeout 300 |
| Flows.PlainComesBack | frontend/src/Flows.jsx:84-137 | a composer written out in full, with no number that is zero, comes back from the server as it was, trigger and steps |
| Flows.ReopenExactly | frontend/src/Flows.jsx:84-137 | building what is recovered from a stored graph gives that graph again, names and trigger included, if and only if the composer has at most 64 steps, no empty or zero field that has a default, in the trigger or a step, and checks that go on when they hold and not when they fail |
| Flows.FieldsComeBack | frontend/src/Flows.jsx:93-119 | what is recovered of a stored step: every field, but "sh", ">", 90 and 300 for what was empty or zero |
| Flows.TriggerComesBack | frontend/src/Flows.jsx:126-134 | the same of the trigger: ">" and 90 for an empty operator and a threshold of zero |
| Flows.ZeroComesBackAsDefault | server/internal/flow/graph.go:59-69 | a threshold and a timeout of zero are not written by the server and are recovered as 90 and 300 |
| Flows.ZeroTriggerComesBackAsDefault | frontend/src/Flows.jsx:126-134 | the same for the trigger alone, above a step that is stable |
| Flows.ElseNextCut | frontend/src/Flows.jsx:110-111 | a check that goes on in both cases is accepted if its fields are; the graph built from what is recovered has a dangling edge and is refused |

## Left out

- HTTP, gRPC, TLS, JSON and sha256: sends, signature checks, token decoding and parsing are arguments or function-valued fields.
- Process execution, reboot, re-exec, screen capture, input injection, inventory and patch collection: calls without visible semantics.
- The session driver and the metric collectors: not part of this model.
- Truncation or rotation of the log file while the shipper runs: the file only grows; it is replaced only while no process runs.
- Log entry ids, attributes and time stamps in the shipper: lines are shipped as they are, and a duplicate after a restart is a duplicate in the sinks' logs.
- The two goroutines that read the shipper's counters: one goroutine reads and flushes, so its methods are not interleaved.
- The stability of the library sort in the event tail: any sorted order of the fresh entries is allowed.
- A tail without a state path: it is the case in which no save ever succeeds.
- UpdatePass.Run: the status and the files, not the comment, the log lines or the result of re-executing.
- UpdatePass.NeverFalls: for releases whose manifest names the version compiled into the binary; the signature covers the binary and not that name.
- UpdatePass.StagedActivates: an update is staged because renaming over the running executable was refused; whether the same rename succeeds at the next start is an answer of the machine.
- Removals that fail during an install: they are covered as changes to the staging files between passes.
- Rotate.Threshold: the fraction of the lifetime is computed with exact reals, not with floating point.
- Rotate.NeverExpired: for rotation without a forced first one (RotateAfter unset), as a forced attempt that fails would enter the window with a longer back-off.
- Widths of durations and counters: integers are unbounded except in the octal mode and the scrypt limits; a duration that overflows 64 bits takes centuries.
- Files.SendPull: the file is not written to while it is read; the size reported is the one of the first stat.
- The late-ack race between the two reads of the ack flag: the flag is taken as fixed once a session has ended.
- The deployment without a commander: it logs commands and sends nothing.
- A push registered by the reader of a session that has already ended, which a later session's reader could feed: readers of different sessions are not interleaved.
- Power loss that forgets a completed rename: a crash ends the process or the operations, it does not undo them.
- Flows.BuildGraph: thresholds and timeouts are whole numbers, and picked ids are ids (which is all the menu offers), not numerals.
- Flows.ToComposer: flows with a schedule instead of a trigger condition, which the composer does not make, and edges back to the trigger, which the server refuses; the flow's own name, description and cooldown, which `buildGraph` does not put in the graph.
- IdentityStore.EnrolledOnce: the first save happens before the two goroutines run; one that fails counts as a start that left nothing.
