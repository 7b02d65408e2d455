# Verified model of pskit

pskit sets up a Linux host and keeps an eye on it. Most of it is plumbing, but parts of it are small
protocols that have to survive crashes, lost answers and the owner's own edits. This project models
those parts in Dafny 4.11 and proves what they promise, for all inputs and all runs.

`dafny verify dfyconfig.toml` checks everything.

## What is modelled

**Lockdown** (`LockdownMachine`, `LockdownTheorems`, `LockdownCommands`, `LockdownHost`). Closing the
firewall and SSH must never lock the owner out. The machine advances by one file write or one external
command per event; death or reboot may come between any two, and the laptop's confirmation reads the
record in one event and writes its file in a later one, with anything in between. Many attempts may follow
each other. The class `Host` is the imperative program; it logs each write as an event, so every disk it
ever leaves is a state the theorems speak of, and each command with its outcome. Assumed: the machine
starts without a recorded lockdown, `apply`, `finalize` and `revert_if_due` exclude each other, nonces are
new, and the writes of a restore do not raise.

**Session bridge** (`Bridge*`). Append-only replication of session files: plan, framed stream, server
storage, answers, client state. The stream may be cut at any byte and any part of the answers may be
lost. Assumed: one run at a time per device, digests as good as the bytes, an inbox that is a flat map
from path to bytes. JSON is an abstract codec with what RFC 8259 sections 2 and 7 give (`JsonLike`);
`BridgeCodec.CodecExists` shows that such a codec exists. Header lines may have any length; the theorems
that need more of them than not being exactly as long as the server's line limit say so and say what
happens otherwise.

**Change ledger and uninstall** (`Ledger*`, `Lines`). `install_file` and `add_line` are scripts of writes,
which may be cut after any of them; the owner edits what they like in between; uninstall walks the ledger
backwards. `Lines` is a line kept in a shared file. Files hold text.

**Alert queue** (`Cooldown`, `Spool*`). A delivery is a loop of single file operations; messages arrive
between any two of them, the channel takes or refuses each message, and the process may die anywhere.

**Alerts and health runs** (`Grading`, `Alerts`, `AlertHost`, `Health*`). The hysteresis of levels, the life
of each alert key over many runs, the letter a run composes line by line, and the run itself: letter into
the spool, notes into the digest, delivery, and the state saved last. Assumed of the translations: their
words begin with a character that is no white space (`HealthLetter.BothAreSpoken`).

**Pressure guard, memory budget** (`Pressure`, `Budget`). The timed freeze and release of slices, and the
arithmetic of the limits. Times, measurements and shares are exact reals.

## What turned out not to hold, and exactly when it does

- A confirmation that lands after a restore has begun keeps a mixture of old and new settings, unless each
  piece put back by then was the same in both: `LockdownTheorems.LateConfirmationKeepsMixture` is the exact
  rule for every reachable waiting lockdown, and `MixtureIsReached` a run from any machine whose user.rules
  the lockdown changes. `ConfirmedInTimeStays` is the case without a restore.
- `wait_for_confirmation` asks whether any lockdown is recorded, not this one:
  `LockdownTheorems.WaitAnswersForTheWrongLockdown` says when that answers wrongly, and
  `WrongAnswerIsReached` is such a run. `LockdownHost.Host.WaitForConfirmation` ties the answer to it.
- The settings come back "exactly as they were" if and only if ufw has no settings file that was not there
  before, and its last command works or has nothing to switch: `LockdownTheorems.ExactlyAsBefore`.
- A local test of a lockdown where none is allowed is refused only after the lockdown has been applied,
  which is then left to its timer: `LockdownHost.Host.LockdownStep`.
- A revert cut between removing the pending record and writing the reverted one loses the latter:
  `LockdownTheorems.RevertAgain`.
- A header line of exactly the server's limit loses its newline to the payload: the server stores the file
  shifted by one byte, answers ok, and the client is content (`BridgeHeaders.ExactHeaderShifts`,
  `BridgeHistory.ExactHeaderBreaksThePrefix`). The shifted copy is a prefix of the source only if all of it
  is newlines (`BridgeHeaders.ShiftedIffNewlines`). Paths are limited to 1024 characters, of which JSON may
  make six bytes each, so such headers pass the client; `BridgeCodec.ExactHeaderHappens` is one,
  with a safe path and a codec that meets the assumptions. For all other headers the prefix invariant holds.
- A longer header stops the server there (`BridgeCodec.LongHeaderHappens` has such paths). A fault-free run
  brings the client nearer if and only if the first planned header is below the limit, and otherwise
  changes nothing: `BridgeConvergence.CleanRunProgresses`. The file of such a header never arrives
  (`BlockedForever`), and nothing that stands behind it in the plan does any more (`NewerFilesStarve`).
  `FileBecomesComplete` is the rule for each scanned file, `NothingInTheWay` its case for a file with none
  such before it, and `InboxBecomesComplete` that for all.
- The tail guard compares 4096 bytes. `BridgeGuard.GuardedDelivery`: the copy of a file the server got to is
  right if and only if the bytes before that window were. `BridgeGuard.MixtureDelivered` is a run in which
  they were not. Both are about runs that lose nothing; `BridgeGuard.LostAnswerDefeatsTheGuard` is a run with
  lost answers after which not even the window is right.
- Two files whose paths flatten to the same name overwrite each other among what uninstall puts aside:
  `LedgerTheorems.SharedAsideNameLosesBytes`, after a history of installs and edits, and `FlattenedAlike`
  for such paths. `AsideByTheDisk` is the rule: the oldest changed file of that name wins.
- A new file whose record was cut off stays behind: `LedgerTheorems.UnrecordedWriteStays`; `OrphansExactly`
  is the rule for all such files. A rewrite cut after its record is taken for the owner's:
  `CutRewriteLooksEdited`. `UninstallRestores` is the rule for every other path.
- Adding a line and removing it gives a shared file back byte for byte only if it was tidy:
  `Lines.RestoredExactlyWhenTidy`.
- The cooldown stamp is written before the send, so a keyed message that failed is thrown away unless its
  cooldown has passed at the next delivery, and then sent: `SpoolTheorems.RetryIff`, and `OutageIff` for a
  whole run. The introduction of `pskit/notify.py` promises otherwise; the model follows the code.
- A cooldown longer than a week is cut short by other keys: `Cooldown.LongCooldownIsForgotten`;
  `Cooldown.HeldBackExactly` is the exact rule.
- A full body outside ASCII grows beyond the file limit and is queued only to be thrown away:
  `SpoolTheorems.LongForeignBodyIsRefused`; `EnqueuedIsAcceptedIff` is the rule.
- A health run saves the state of all it composed, and the letter is cut at 3000 characters. Which entries
  arrive: `HealthLetter.ArrivesExactly`. A problem behind the cut is saved as told and not told again until
  its repeat time: `HealthHost.ClippedIsSaved`.
- A failed thaw is not noticed and loses the marker: `Pressure.FailedThawStays` says exactly when a slice is
  left stopped without one, and `FailingThawLeaves` is such a run.

## Model

| member | source | states |
|---|---|---|
| LockdownMachine.SafetyNet | pskit/lockdown.py:174-304 | In every reachable state, settings that differ from those before the lockdown have a pending record with an intact snapshot and an enabled timer, or a confirmation, or an applied record of that nonce |
| LockdownMachine.RunKeepsInv | pskit/lockdown.py:132-304 | The inductive invariant behind it holds after any events, from any fresh machine |
| LockdownMachine.SaveKeepsInv | pskit/lockdown.py:132-144 | A snapshot step keeps it; the snapshot is complete exactly when its index is written |
| LockdownMachine.RestoreKeepsInv | pskit/lockdown.py:147-164 | A restore step keeps it; what was copied back stays equal to the snapshot |
| LockdownTheorems.ConfirmedInTimeStays | pskit/lockdown.py:199-203 | A confirmation written before any restore keeps exactly the applied settings from then on |
| LockdownTheorems.ConfirmedInTimeHolds | pskit/lockdown.py:199-203 | In events: a laptop that read the record of an attempt and writes its confirmation before a restore has begun fixes the settings then in place for as long as no later attempt is armed, whatever follows |
| LockdownTheorems.NoEarlyConfirmation | pskit/lockdown.py:257-268 | No confirmation or applied record exists for a lockdown whose changes were not all in place |
| LockdownTheorems.TimerSettles | pskit/lockdown.py:283-304 | From any reachable state with a record, one run of the timer removes it in at most nine writes, whatever confirmations arrive; unconfirmed gives the old settings, confirmed keeps the new and records them |
| LockdownTheorems.RevertAgain | pskit/lockdown.py:297-300 | Commands working or failing: a revert cut after any step and redone gives the files and records of one never cut, but for a lost reverted record at one exact step; ufw is switched and the timer off if either run got to it |
| LockdownTheorems.FinalizeAgain | pskit/lockdown.py:292-294 | The same for a finalize, but for a left-over confirmation at one exact step |
| LockdownTheorems.WaitAnswersForTheWrongLockdown | pskit/lockdown.py:307-320 | While a lockdown waits a look gives no answer; after its revert the look answers yes exactly if an earlier lockdown was on record |
| LockdownTheorems.RecordedSettings | pskit/lockdown.py:271-280 | A recorded lockdown has the applied settings, or a file-by-file mixture with the former ones only if a restore had begun |
| LockdownTheorems.LateConfirmationKeepsMixture | pskit/lockdown.py:283-299 | Every reachable waiting lockdown, any number of pieces put back before the late confirmation: those pieces are recorded as before, the others as applied, and it equals what was applied if and only if each of those pieces was as before already |
| LockdownTheorems.ApplyReachesReady | pskit/lockdown.py:174-203 | From any machine at rest, whatever ufw makes of its files, an undisturbed apply ends in a ready record with an intact snapshot of the former settings |
| LockdownTheorems.MixtureIsReached | pskit/lockdown.py:283-299 | From any fresh machine whose user.rules the lockdown changes, a run that records the lockdown with the former user.rules and the new drop-in |
| LockdownTheorems.WrongAnswerIsReached | pskit/lockdown.py:307-320 | From any fresh machine, a run with a first lockdown recorded and a second one undone, after which the wait for the second answers yes |
| LockdownTheorems.ExactlyAsBefore | pskit/lockdown.py:3-10 | From any reachable unconfirmed record, the timer gives back the former settings exactly if and only if ufw has no new settings file and the firewall state is switched back or was the same |
| LockdownHost.Host.Confirm | pskit/lockdown.py:257-268 | Each answer exactly when it is given; a confirmation writes its file and changes nothing else |
| LockdownHost.Host.Snapshot | pskit/lockdown.py:132-144 | Leaves a snapshot that holds exactly the live settings, which it does not touch |
| LockdownHost.Host.RestoreSnapshot | pskit/lockdown.py:147-164 | Every file of the snapshot and the drop-in are back; so is the firewall's state if the one command that switches it works; then sshd is reloaded if it runs |
| LockdownHost.Host.Arm | pskit/lockdown.py:238-250 | Record, units, reload, enabling, countdown, in this order; on success record and timer are there; on any failure of the first four nothing more is tried and the program is aborting |
| LockdownCommands.UfwCommandsAre | pskit/lockdown.py:217-231 | Whatever the kept rules: everything is closed but the private network first, ufw is enabled last, and in between are exactly the ufw commands among the rules that do not open SSH |
| LockdownHost.Host.ApplyChanges | pskit/lockdown.py:211-235 | Success means that drop-in, sshd test and every one of the ufw commands were tried once, in this order, and worked; the first that fails ends it and begins a restore |
| LockdownHost.Host.Abort | pskit/lockdown.py:206-208 | The record is gone; the timer is off if the command that disables it works; nothing else changes |
| LockdownHost.Host.Apply | pskit/lockdown.py:174-203 | Refused exactly when a record waits; success leaves new settings, record, intact snapshot and timer, and every command has worked, in order; a failure is that of the last one tried, and everything is put back by the commands of a restore |
| LockdownHost.Host.Finalize | pskit/lockdown.py:271-280 | Happens exactly for a confirmed record; its whole new disk |
| LockdownHost.Host.RevertIfDue | pskit/lockdown.py:283-304 | Each of the four verdicts exactly when it is given, and for each the whole new disk and the commands tried, timer and firewall following their outcomes |
| LockdownHost.Host.WaitForConfirmation | pskit/lockdown.py:307-320 | The answer is that of the first look that finds the record gone or confirmed, no without one; it sleeps after every other look; what the disk is after it; never applies another nonce |
| LockdownHost.Host.LockdownStep | pskit/linux/steps_net.py:177-202 | Applies exactly if no lockdown waits; then looks as often as it may, asleep in between, until the record is gone or confirmed; succeeds exactly if that look says yes, and otherwise undoes the lockdown; a local test where none is allowed leaves it waiting; on a machine without an earlier lockdown, success means this attempt is the recorded one |
| BridgePaths.SafeRelIsItself | pskit/bridge.py:69-88 | An accepted path is stored as it is, and every component of it is an ordinary name |
| BridgePaths.ScannedPathIsSafe | pskit/bridge.py:102-124 | A path the client scans passes the server's test exactly if its components are plain and it is neither too long nor too deep |
| BridgePaths.SafeRelExactly | pskit/bridge.py:69-88 | The server's test accepts exactly the paths in the folder of a known source, of plain components, that the source accepts, within length and depth and without odd characters |
| BridgePaths.AcceptedNames | pskit/bridge.py:40-88 | The same by name: accepted are exactly JSON lines below the projects of Claude, roll-outs of Codex, and what is neither lock nor index below an encoded path of Grok, of plain components and within the measures |
| BridgeLimits.ReceiveIsConfined | pskit/bridge.py:234-297 | Whatever bytes arrive: nothing in the inbox is lost, only files with accepted paths are written, none over the limit of a file, no more bytes and answers than a run may have, and only accepted paths are answered otherwise than rejected |
| BridgeLimits.ReceiveJudges | pskit/bridge.py:250-287 | Any items with readable headers: those with a refused path or over the limit of the run are rejected and skipped, one over the limit of a file or one too many ends the run, all others are stored |
| BridgeLimits.GreetingDecides | pskit/bridge.py:239-246 | A request is looked at if and only if its first line is a greeting of this protocol |
| BridgeLimits.BadSizeStops | pskit/bridge.py:265-271 | A header without a sound offset and length ends the run with a refusal; nothing is stored for it |
| BridgePlan.SortedByMtime | pskit/bridge.py:149-149 | The order of a plan is a permutation by time of change |
| BridgePlan.PrecedesIs | pskit/bridge.py:149-149 | Of two files the one changed earlier comes first, and of two changed at once the one scanned first |
| BridgePlan.PlanIs | pskit/bridge.py:146-168 | Only changed files, each once, from the allowed offset, within both limits; never empty while something is to be sent |
| BridgePlan.PlanTakesAllThatFits | pskit/bridge.py:160-168 | A plan is in that order, everything to be sent that is not in it comes after all of it, and the first such file would exceed the budget or the plan has the greatest length |
| BridgePlan.AppendsExactly | pskit/bridge.py:154-157 | A file is sent from where the server has it if and only if it is the same file, has grown, and its last 4096 bytes of then are as they were; otherwise whole |
| BridgePlan.SentUnlessAsRemembered | pskit/bridge.py:150-159 | A file is sent unless size, time and inode are as remembered, and whole where no digest of it is known |
| BridgeHeaders.ServeAny | pskit/bridge.py:250-287 | Any headers but those of exactly the limit: a stream cut at any byte gives the whole items up to the first over-long header, and at most one remainder |
| BridgeHeaders.ReceiveIs | pskit/bridge.py:171-297 | Round trip for the same streams and arbitrary payload bytes: the server does exactly the items sent if and only if no header is over the limit, and otherwise those before it |
| BridgeHeaders.AnyTruncationIsPartial | pskit/bridge.py:222-330 | On every truncation of such a stream: complete items in order, at most one partial append answered resync; a cut whole file changes nothing |
| BridgeRuns.ShrunkStreamIsCut | pskit/bridge.py:171-198 | What the client writes when a file shrank is a cut of the stream of whole items with the same headers |
| BridgeRuns.SentExactly | pskit/bridge.py:171-198 | Reported as sent are exactly the planned files that can be opened, up to the first that shrank |
| BridgeRuns.FramesOf | pskit/bridge.py:171-198 | Each file reported as sent was planned, and the bytes sent for it are what it holds from the planned offset up to the planned size |
| BridgeHeaders.PlanMeetsLimits | pskit/bridge.py:31-36 | A stream built from a plan meets the server's limits on size, total, count and path, and on header lines exactly if none is over the limit |
| BridgeHeaders.ExactHeaderShifts | pskit/bridge.py:252-258 | A header of exactly the limit: the newline becomes the first payload byte and the last payload byte the beginning of the next line |
| BridgeHeaders.ShiftedIffNewlines | pskit/bridge.py:300-330 | What is stored then agrees with the source if and only if the payload is all newlines |
| BridgeHistory.ExactHeaderBreaksThePrefix | pskit/bridge.py:234-297 | A first push with such a header: the stored file is no prefix of the source, and the client records it as complete |
| BridgeHistory.InboxHoldsPrefixes | pskit/bridge.py:300-359 | Append-only sources, no header of exactly the limit: after any history of appends, cuts and lost answers each stored file is a prefix of its source and no recorded size exceeds the stored length |
| BridgeHistory.DeliverBacks | pskit/bridge.py:300-330 | Each item answered ok is stored at least up to its end |
| BridgeConvergence.CleanIs | pskit/device/bridge_push.py:34-65 | A fault-free run is plan, delivery and update of what the server reaches |
| BridgeConvergence.UpdateExactly | pskit/bridge.py:349-359 | Any answers: what the client remembers of each file is the file as scanned with the digest of its present tail if the server stored it, nothing if it asked for it anew, and what it was otherwise |
| BridgeConvergence.StatusesExactly | pskit/bridge.py:333-346 | Any answers: the client has the last status answered for a path, and none for a path that was not answered |
| BridgeConvergence.CleanRunProgresses | pskit/bridge.py:146-168 | While anything is unsynced, a fault-free run strictly decreases the distance (2 for a file planned with an offset, else 1) if and only if the first planned header is below the limit; otherwise it changes nothing |
| BridgeConvergence.InboxBecomesComplete | pskit/bridge.py:349-359 | After twice as many fault-free runs as files, with any budget, every scanned file is complete and remembered if and only if none is blocked by its header; of the headers due now or after a resync none may be exactly at the limit |
| BridgeConvergence.BlockedForever | pskit/bridge.py:250-263 | A blocked file stays blocked and its copy as it is, over any number of fault-free runs; no other file gets to be blocked |
| BridgeConvergence.NewerFilesStarve | pskit/bridge.py:146-168 | While a file with an over-long header is to be sent, neither it nor any file behind it in the order of plans is stored or remembered |
| BridgeConvergence.FileBecomesComplete | pskit/bridge.py:146-168 | For each scanned file: after that many runs it is complete if and only if it is not blocked itself and was complete by the time, if ever, that a file with an over-long header to be sent stood before it |
| BridgeConvergence.NothingInTheWay | pskit/bridge.py:146-168 | A file with no blocked file before it becomes complete if and only if it is not blocked |
| BridgeGuard.AppendAgrees | pskit/bridge.py:127-143 | An append under equal tails agrees with the source from the window on and has the new tail |
| BridgeGuard.GuardedDelivery | pskit/bridge.py:127-156 | Over arbitrary rewrites and runs that lose nothing: a planned file the server gets to has its full length, agrees from 4096 bytes before the append, and wholly if and only if the bytes before agreed; one it does not get to stays as it was on both sides |
| BridgeGuard.MixtureDelivered | pskit/bridge.py:127-156 | Any file rewritten before the window and made longer, its two headers below the limit: a run that ends with the former beginning in the inbox and the client content |
| BridgeGuard.LostAnswerDefeatsTheGuard | pskit/bridge.py:127-156 | A run whose answers are lost, between a rewrite at the same length and its undoing: the next addition is appended to the other version, and the client is content |
| BridgeGuard.LocalRefinesNetwork | pskit/bridge.py:364-393 | Local delivery gives the inbox, client state and count of the network path if and only if no planned header is over the limit |
| BridgePipes.NoScheduleSticks | pskit/device/bridge_push.py:43-50 | If the rest of the request or the whole reply fits its pipe, no schedule blocks both sides |
| BridgePipes.SomeScheduleSticks | pskit/device/bridge_push.py:43-50 | Otherwise some schedule does |
| BridgePipes.PlannedRunNeverBlocks | pskit/bridge.py:250-297 | What is written for a plan, files that shrank included, never blocks without an over-long header, whatever the pipes hold; with one, pipes smaller than the rest of the request and the reply can |
| BridgeHost.ReadExact | pskit/bridge.py:222-231 | Reads exactly the next n bytes, or what is left |
| BridgeHost.Server.StoreItem | pskit/bridge.py:300-330 | In place: append only at the stored length, whole files only when complete; equals Store |
| BridgeHost.Server.ReceiveRequest | pskit/bridge.py:234-297 | The loop with its counters equals Receive on the bytes of the stream |
| BridgeHost.Server.DeliverLocal | pskit/bridge.py:364-388 | The loop equals LocalRun |
| BridgeHost.MakePlan | pskit/bridge.py:146-168 | The two loops equal PlanOf |
| BridgeHost.Consider | pskit/bridge.py:150-159 | One file is sent, and from where, exactly as ToSend and OffsetFor say |
| BridgeHost.WithinBudget | pskit/bridge.py:160-168 | The second loop equals Take |
| BridgeHost.WriteStream | pskit/bridge.py:171-198 | The bytes written and the items reported sent, unreadable and shrinking files included |
| BridgeHost.ReadAnswers | pskit/bridge.py:333-346 | The last status of each path before the final line, garbage skipped |
| BridgeHost.Client.UpdateState | pskit/bridge.py:349-359 | The loop equals Update and counts the ok answers |
| BridgeHost.Client.PushTo | pskit/device/bridge_push.py:34-65 | One run is one step of the history; a failed transport leaves the state alone |
| BridgeCodec.CodecExists | pskit/bridge.py:171-198 | The assumptions made of the JSON codec can be met |
| BridgeCodec.ExactHeaderHappens | pskit/bridge.py:252-258 | With a codec that meets them and a safe path: a fault-free first push with a header of exactly the limit leaves a copy that is no prefix |
| BridgeCodec.LongHeaderHappens | pskit/bridge.py:250-263 | And any longer safe path of that kind blocks its file and stops the run |
| LedgerTheorems.AfterKeepsInv | pskit/state.py:107-154 | The invariant of ledger, backups and files holds after any history of cut installs and lines and of owner edits |
| LedgerTheorems.OneTrueOrigin | pskit/state.py:107-133 | Each path has one origin entry, which tells truly what was there before unless its first write went unrecorded |
| LedgerTheorems.UninstallRestores | pskit/uninstall.py:59-101 | A path not taken over stays, but for exactly the lines recorded for it; a recorded one is as before the kit if and only if the kit created it, or it holds what was last recorded, nothing, or what it held before; otherwise it stays as it is |
| LedgerTheorems.GoneExactly | pskit/uninstall.py:61-81 | Any history, any path: it is gone afterwards if and only if its origin entry says created, or the kit never took it over and it was gone |
| LedgerTheorems.KeptStays | pskit/uninstall.py:63-86 | Any disk: a path that is kept is afterwards what it was, but for the lines recorded for it, and nothing is put aside for it |
| LedgerTheorems.OrphansExactly | pskit/state.py:122-125 | A path whose first write went unrecorded held nothing before, and is as before exactly if the kit recorded it later as its own, or somebody removed it and the kit never recorded it |
| LedgerTheorems.AsideIs | pskit/uninstall.py:73-95 | For any ledger: what is aside under a name is what the oldest entry put there that put anything there |
| LedgerTheorems.AsideByTheDisk | pskit/uninstall.py:73-95 | Told from the disk before the call: it is that of the oldest origin entry of the name whose file was changed, and nothing if there is none |
| LedgerTheorems.CreatedEditsSurvive | pskit/uninstall.py:73-78 | The owner's version of a created file, but for lines recorded since, is aside in the end if and only if the oldest changed file of the same aside name sets the same aside |
| LedgerTheorems.UninstallRestoresUnedited | pskit/uninstall.py:61-99 | Without cuts a path that holds what the kit last wrote is as before the kit |
| LedgerTheorems.OwnerEditsSurvive | pskit/uninstall.py:73-95 | No bytes the owner wrote after the kit are lost: they are in place or aside, unless an older changed file goes by the same aside name |
| LedgerTheorems.SharedAsideNameLosesBytes | pskit/uninstall.py:77-77 | Two files created under one aside name and then edited, from an untouched machine: the bytes of the later one are nowhere |
| LedgerTheorems.FlattenedAlike | pskit/uninstall.py:77-77 | Paths that share one |
| LedgerTheorems.AsideNameIs | pskit/uninstall.py:77-94 | The name something is put aside under: the parts of its path with two underscores in between, with an ending of its own for a former version |
| LedgerTheorems.UnrecordedWriteStays | pskit/state.py:122-125 | A file created and not recorded is left behind |
| LedgerTheorems.InstallingAgainChangesNothing | pskit/state.py:112-117 | After a whole installation, installing the same again makes no write and no entry |
| LedgerTheorems.CutRewriteLooksEdited | pskit/state.py:130-132 | A rewrite cut between record and write leaves the kit's own earlier bytes behind, taken for the owner's |
| LedgerTheorems.UndoAllAt | pskit/uninstall.py:63-99 | The whole reverse pass does to a path what its one origin entry says, whatever the other entries are |
| LedgerTheorems.NeverCutIsFaithful | pskit/state.py:136-143 | Without cuts the ledger's last digest of each path is what the kit last wrote there |
| LedgerHost.TallyIs | pskit/uninstall.py:87-96 | The paths reported as kept changed are exactly the replaced files the owner changed, where no file is both installed whole and given lines |
| LedgerHost.Machine.Has | pskit/state.py:99-101 | True exactly if an origin entry of the path is in the ledger |
| LedgerHost.Machine.InstallFile | pskit/state.py:107-133 | The writes are the script's, in order, so each disk in between is known; the file holds the new bytes and no other changes |
| LedgerHost.Machine.AddLine | pskit/state.py:146-154 | The writes are the script's, in order; adds exactly if the line is not there; no other file changes |
| LedgerHost.Machine.LastWritten | pskit/state.py:136-143 | The loop equals Latest |
| LedgerHost.Machine.Uninstall | pskit/uninstall.py:59-101 | The loop equals the reverse pass, and the report says which changed files were kept |
| Lines.RemovesExactlyTheLine | pskit/state.py:157-166 | Whatever the file holds by then, all other lines stay, in order |
| Lines.LinesEndAt | pskit/state.py:146-166 | Lines end at the ten separators of splitlines, a carriage return and its newline being one, and nowhere else |
| Lines.AddsExactly | pskit/state.py:146-154 | Added exactly if it is not there, and then it comes after all lines but empty ones at the end; in a blank file it is put right behind the white space |
| Lines.RestoredExactlyWhenTidy | pskit/state.py:146-166 | Adding and removing the line gives the file back byte for byte if and only if it was empty, or not blank, ended in one newline and had no other line breaks |
| Cooldown.PruningChangesNothing | pskit/notify.py:159-173 | With cooldowns of at most a week and a clock that does not go back, the pruned table answers like one that never forgets |
| Cooldown.AcceptedApart | pskit/notify.py:159-173 | Two accepted attempts under one key are at least the cooldown apart |
| Cooldown.TableIs | pskit/notify.py:159-173 | For any calls: the stamps in the table are those neither replaced nor forgotten since |
| Cooldown.HeldBackExactly | pskit/notify.py:159-173 | For any calls: held back if and only if such a stamp is younger than the cooldown |
| Cooldown.LongCooldownIsForgotten | pskit/notify.py:170-171 | A cooldown of more than a week can be cut short |
| SpoolTheorems.NothingIsLost | pskit/notify.py:239-289 | At any moment of any run a well-formed message without cooldown is in the spool, in retry, or handed over |
| SpoolTheorems.NothingIsInvented | pskit/notify.py:254-270 | Only queued messages are handed over, as they were queued; only unreadable files are refused |
| SpoolTheorems.AcceptedExactly | pskit/notify.py:250-266 | Which files are messages, and that only what is over the limits of a message is cut off |
| SpoolTheorems.SplitBySeverity | pskit/notify.py:271-287 | Of all hand-overs those of severity info go to the digest and the others to the channel |
| SpoolTheorems.LostOnlyWhenHeldBack | pskit/notify.py:267-270 | A keyed message is dropped only under a remembered stamp of its key younger than its cooldown |
| SpoolTheorems.HeldBackIff | pskit/notify.py:267-270 | And exactly then |
| SpoolTheorems.RetryIff | pskit/notify.py:249-289 | After any run, the first message in retry is removed without being handed over if and only if a remembered stamp of its key is younger than its cooldown; otherwise it is stamped anew, and handed over and removed, or kept if the channel is down, which ends the delivery |
| SpoolTheorems.GoneIsDelivered | pskit/notify.py:254-288 | A message without cooldown that was queued and is in neither folder any more reached the channel |
| SpoolTheorems.AttemptsApart | pskit/notify.py:159-173 | Attempts under one key are spaced, across deliveries and crashes |
| SpoolTheorems.OutageIff | pskit/notify.py:276-288 | A whole run from an empty queue: a keyed message alone that failed reaches the channel at the next delivery if and only if its own cooldown has passed, and is gone from both folders either way |
| SpoolTheorems.EnqueuedIsAcceptedIff | pskit/notify.py:49-70 | What enqueue writes is taken as it is if and only if the file is within the limit |
| SpoolTheorems.StripIs | pskit/notify.py:49-70 | Strip takes away exactly the white space around a text |
| SpoolTheorems.LengthAsWritten | pskit/notify.py:62-70 | The lengths reckoned with are those of the text as it is written: a JSON string of ASCII characters |
| SpoolTheorems.PlainMessageFits | pskit/notify.py:33-35 | The length limits keep plain text within it |
| SpoolTheorems.LongForeignBodyIsRefused | pskit/notify.py:33-35 | They do not keep all text within it |
| SpoolOrder.HandedOverInOrder | pskit/notify.py:183-192 | Growing names: hand-overs come in queueing order across outages and crashes, nothing older is still queued, retry holds at most one message and none is older |
| SpoolOrder.HandedOverOnce | pskit/notify.py:249-289 | Without crashes: strictly in order, once each, and the retried message is strictly the oldest |
| SpoolHost.Notifier.CooldownOk | pskit/notify.py:159-173 | The answer and the new table, written before anything is sent |
| SpoolHost.Notifier.Sorted | pskit/notify.py:189-189 | The names of a folder, each once, ascending |
| SpoolHost.Notifier.PendingFiles | pskit/notify.py:183-192 | Lists exactly what is in the two folders |
| SpoolHost.Notifier.HandleOne | pskit/notify.py:249-289 | One turn: which counter, whether the loop ends, and that the file is gone unless it does |
| SpoolHost.Notifier.Queue | pskit/notify.py:49-70 | Refuses exactly an unknown severity or an empty title; otherwise the clipped message is in the spool under a later name |
| SpoolHost.Notifier.Deliver | pskit/notify.py:239-289 | A run of the machine with arrivals between turns; ends at the first failure; without one nothing queued before its start is in either folder |
| Grading.TwoTriggers | pskit/alerts.py:35-48 | Over any samples the level is that of two independent Schmitt triggers |
| Grading.TwoLowTriggers | pskit/alerts.py:51-53 | The same where lower is worse |
| Grading.ReversalIsWide | pskit/alerts.py:35-48 | Consecutive level changes in opposite directions are more than the margin apart |
| Grading.ReversalsCost | pskit/alerts.py:35-48 | Reversals times margin is at most the total variation |
| Grading.LowReversalsCost | pskit/alerts.py:51-53 | The same where lower is worse |
| Alerts.LifeCycle | pskit/alerts.py:85-129 | What is said of a key is new, then changes and reminders, then cleared or a silent drop; active lists exactly the open keys |
| Alerts.RemindersAreSpaced | pskit/alerts.py:112-114 | A reminder repeats the level last told and comes at least repeat_hours after the previous message |
| Alerts.SaidExactly | pskit/alerts.py:85-116 | After any runs, of a key with one finding exactly what is due is said, by what the owner last heard: new, changed, a reminder if and only if its hours have passed, a digest line if and only if 20 hours have, cleared with the text last stored, and nothing else |
| Alerts.UnreportedIsTold | pskit/alerts.py:117-122 | Of an unreported and unprotected key it is said that it is over, with that text, exactly if its problem was open |
| Alerts.SinceItWasAnnounced | pskit/alerts.py:106-111 | The time stored with an open problem is that of the message which announced it |
| Alerts.SinceIsKept | pskit/alerts.py:96-116 | How long a key has been on record is kept, whatever becomes of it, unless a note becomes a problem |
| Alerts.DigestsAreSpaced | pskit/alerts.py:99-105 | Digest lines of one note are at least 20 hours apart |
| Alerts.CrashedKeysKept | pskit/alerts.py:118-122 | Keys with a crashed probe's prefix keep their record and nothing is said of them |
| Alerts.UnreportedIsCleared | pskit/alerts.py:117-122 | Other keys nobody reports are gone |
| Alerts.LastFindingWins | pskit/alerts.py:90-116 | The stored level, and of a problem the text, is that of the key's last finding |
| Alerts.StoredLevelIsHysteresis | pskit/alerts.py:82-83 | The level fed back to the grading is at all times the hysteresis over all values measured |
| AlertHost.AlertState.ProcessFindings | pskit/alerts.py:85-123 | The loops equal Process, and the five lists tell exactly what was said |
| AlertHost.OutcomeTellsOnlyThat | pskit/alerts.py:57-70 | An outcome lists each thing said once, as what it is, and nothing else |
| AlertHost.Collect | pskit/checks.py:265-284 | All findings of the probes that worked, one for each that did not, and the prefixes to preserve |
| AlertHost.NothingClearedByACrash | pskit/checks.py:265-284 | A key whose probe crashed keeps its record, whatever the other probes report |
| HealthLetter.Compose | pskit/runtime/health.py:19-36 | The loops give the lines in their order, the severity and the title |
| HealthLetter.LetterExactly | pskit/runtime/health.py:19-36 | When there is a letter, when it is critical or a recovery, and each of its lines |
| HealthLetter.HasItsLine | pskit/runtime/health.py:23-29 | Each entry of an outcome has its own line in the letter |
| HealthLetter.ArrivesExactly | pskit/notify.py:49-70 | An entry is in the delivered message, in its place, if and only if its line ends within 3000 characters of the letter and the file is within the limit |
| HealthHost.SavedOnlyWhatWasQueued | pskit/runtime/health.py:39-60 | Whatever crashes come between, the saved state is that of completed runs, and each entry of those is in a queued letter composed with its line, or in the digest |
| HealthHost.ClippedIsSaved | pskit/runtime/health.py:53-60 | Two new problems of which the first fills the letter: the second is saved as told, the delivered body is part of the first line, and the next run within the repeat time says nothing |
| HealthHost.Monitor.Run | pskit/runtime/health.py:49-60 | A whole run on the disk, each disk on its way that of a run which ends there; the letter is queued first, and a delivery without failure has brought it to the channel before the state is saved |
| Pressure.Guard.RunCycle | pskit/runtime/pressure.py:125-153 | One cycle equals Cycle on all fields, markers and stopped slices |
| Pressure.FrozenBriefly | pskit/runtime/pressure.py:125-136 | No frozen stretch lasts MAX_FREEZE_S and one cycle gap |
| Pressure.NoFreezeAfterRelease | pskit/runtime/pressure.py:127-141 | No freeze within HOLD_AFTER_S of a forced release |
| Pressure.FreezeNeedsSixBad | pskit/runtime/pressure.py:138-144 | Every freeze follows six bad samples in six cycles on end |
| Pressure.BadExactly | pskit/runtime/pressure.py:53-62 | When a sample is bad, by its readings |
| Pressure.OutcomeExactly | pskit/runtime/pressure.py:125-153 | What every cycle of every run does, told from what the cycles before it did: release, freeze, thaw, each if and only if |
| Pressure.MarkedExactly | pskit/runtime/pressure.py:104-123 | A slice is marked if and only if the freeze that is on could freeze it |
| Pressure.MarkersOnlyWhileFrozen | pskit/runtime/pressure.py:104-123 | Markers exist only between a freeze and what ends it |
| Pressure.StoppedAreMarked | pskit/runtime/pressure.py:104-123 | While thaws work, the stopped slices are the marked ones |
| Pressure.FailedThawStays | pskit/runtime/pressure.py:115-121 | Over any run, a slice is stopped without a marker if and only if some thaw of it failed and it was not frozen again since |
| Pressure.FailingThawLeaves | pskit/runtime/pressure.py:125-153 | Six bad cycles and two good ones with a refused thaw lead there |
| Pressure.TwoGoodThaw | pskit/runtime/pressure.py:146-152 | Two good samples on end leave nothing frozen |
| Budget.LimitsAreSound | pskit/budget.py:47-89 | Ceilings leave the margin and waste under three steps, low, high and max are ordered, brain at most a third, owner at least a GiB, no limit zero |
| Budget.LimitsAreShares | pskit/budget.py:47-89 | Which share of the memory each limit is, rounded down to whole steps |
| Budget.ReferenceMachine | pskit/budget.py:3-7 | The limits of the machine the documentation describes |
| Budget.NeverRefusesWithoutCi | pskit/budget.py:47-71 | Never refused from 3 GiB without CI |
| Budget.NeverRefusesWithCi | pskit/budget.py:47-71 | Never refused from 2/(2/3 - 0.1277) GiB with CI |
| Budget.RefusedExactly | pskit/budget.py:55-71 | Refused as too small exactly below 2 GiB, and for want of room exactly if less than a GiB is left to the owner |
| Budget.BoundsAreSharp | pskit/budget.py:47-71 | For a brain that asks for a third or more, refused exactly below those |
| Budget.SizesReadBack | pskit/budget.py:92-99 | Parsing a systemd size gives the value cut to MiB, so the value itself exactly for whole MiB |
| Budget.LimitsReachSystemd | pskit/budget.py:72-99 | Every limit computed reads back unchanged |
| Budget.SwapIsLargest | pskit/budget.py:102-107 | The swap size is the largest whole GiB within its three bounds |

## Left out

- The commands ufw, sshd and systemctl are single changes of state or nondeterministic outcomes, and what `ufw status` says is taken to be true; whether a rule opens SSH (`ssh_rule`) and which rules the owner wants to keep (`decide_keep_rules`) are inputs.
- Overlapping `finalize` and `revert_if_due`, two pushes of one device at once, and source rewrites between sending and `update_state` are assumed away: the code does not guard against them.
- File modes, owners, symbolic links, directory entries that are not messages, and files that cannot be read half-way.
- SpoolHost.Notifier.Deliver: arrivals come between turns; arrivals between the writes of one turn are events of the machine in `Spool`, for which the theorems are proved.
- LedgerHost.Machine.Uninstall: the ledger entries for units, users, groups, packages, folders, swap and keys, the removal of the kit's own folders, and errors caught per entry.
- LedgerTheorems.UninstallRestores: of a path that is both installed whole and given single lines, which the kit does not do, it says nothing; `GoneExactly` does. Files that are not text are not modelled.
- LedgerTheorems.OwnerEditsSurvive: digests are taken to be as good as the bytes; paths lie outside the kit's own folders.
- Lines.RestoredExactlyWhenTidy: speaks of lines with something other than white space in them, which the only caller passes.
- AlertHost.AlertState.ProcessFindings: the order in which stored keys are listed is arbitrary, and `active` is a set.
- Channels over HTTP, `flush_digest`, the texts of findings, translation and redaction; `format_message`.
- HealthHost.Monitor.Run: the lock that keeps a second run away, and the receipt written after the state is saved.
- LockdownTheorems.LateConfirmationKeepsMixture: pieces are whole files, written atomically; a confirmation after the record is removed changes nothing and is not spoken of.
- BridgeHost.Server.ReceiveRequest: the delivery receipt and directories in the inbox.
- Budget: floating-point rounding; the shares are exact.
- Pressure: a guard killed while slices are frozen and started anew begins without `frozen_at`, so the bounds count from its own first freeze.
- `steps.py`, `manifest.py`, `server/keys.py`, `device/local.py` and `render.py`: the installer's list of steps, the package manifest, key files, the laptop's own settings and template filling are not part of this model.
