# Control panel for an FM10840 switch card: verified model

This project models the parts of the FM10K control panel that have to be right
when something fails under them, and proves what they promise. Each `.dfy` file
is one module (`Common` holds the shared option and outcome types);
`dafny verify dfyconfig.toml` checks all of them.

| part | modules | what is at stake |
|---|---|---|
| release upgrade | `UpgradeState`, `Updater`, `UpgradeFaults` | a journaled swap of the native tree, the Web package and the state directories, with crashes anywhere, also inside recovery, and a startup gate keyed on process identity |
| board bus | `Bits`, `BoardBus`, `TxLanes`, `GroupApply`, `OpticsSetup` | register transactions behind a mux, on a bus where any call may fail, a failed write may have latched and a good one may have been dropped |
| fan control | `FanCurves`, `FanControl`, `Monitor` | the look-up table, programming it only at full speed, and a controller that may only believe what the chip does |
| confirmed commit | `SwitchConfig`, `SimulatedBus`, `CommitHistory`, `ConfirmedCommit` | timed commits with a durable before-image and incremental register updates |
| watchdog | `PfcWatchdog` | when a PFC storm may be broken, and for how long |
| eye scan | `EyeDevice`, `EyeCounts`, `EyeScan`, `EyePages`, `EyePipeline`, `EyeMetrics` | a lane that is borrowed and must be given back, and a second process that reassembles the matrix page by page |
| driver | `Tlv`, `TlvBuild`, `TlvParse`, `TlvLaws`, `TlvTrees`, `Counter48`, `IovService` | the message codec, wrapping counters read in halves, and the mailbox round robin |
| arithmetic | `EtsShares`, `InternetChecksum`, `EcnCapture`, `EcnProbe` | ETS percentages, one's-complement checksums, and ECN marking |

## How to read it

Code that changes things step by step is imperative here: classes with the
source's fields, methods with its branches in its order, loops with invariants.
What each method must do is said with functions and predicates over values, and
the promises are lemmas about those. Everything outside the code under study is
nondeterministic: `x := *` is the environment's choice.

- Faults. An effect of the updater completes, raises (with or without having
  happened) or is the last thing the process does; that includes every save, the
  permission file and its removal. Single files change at once or not at all. A
  board call may return an error in any case; a good read returns what the
  register holds. A simulated bus call raises before it does anything, or its
  write is dropped silently. A save of the commit authority completes, raises or
  is the last thing the process does, on either side of the disk; after one that
  raised the promises end until the next start, except for what the disk holds.
- Histories. Where "at every moment" or "over any run" is meant, a ghost field
  records all states, bus writes, saves or events so far, and the invariant
  speaks about all of it.
- Progress. A contract that only forbids bad ends is met by code that never gets
  anywhere, so each operation also says when it must succeed. For that an
  environment may be known to be good: `healthy` (nothing on this bus or among
  these callbacks fails), `reachable` (the mux does not), `undisturbed` (nobody
  injects a failure), `reliable` (no request for a page fails), `steady` (services
  and the files that say how a job stands obey), and the three tempers of the
  device under an eye scan. They are constants of the modelled environment that no
  modelled operation looks at. In the updater `raised` says that some effect has
  raised, a check the model does not look into included; an exception without it is
  the program's own, and its cause is stated.
- What is asked of an environment that need not obey is logged: register writes,
  callbacks, named steps, attempts, saves and clock readings, in order. What a
  handler must at least try is said with these logs.
- Time is an integer, read anew at each use, and may jump.

The checksum follows sections 1 and 2 of RFC 1071, the IPv4 header section 3.1
of RFC 791, zero UDP checksums RFC 768, and the ECN field section 5 of RFC 3168.

## Results that differ from what one might expect

- Counter reads. Equal high halves do not make a 48-bit read safe for every
  advance below 2^48: between 2^48 - 2^32 and 2^48 the high half can come round
  to itself. `BoundIsExact` says that every accepted read is a value the counter
  had if and only if it advances by at most 2^48 - 2^32 around it.
- Optics bootstrap. A mux that cannot be restored turns ROLLBACK_FAILED into IO
  (fm10k_board.c:172-174), so IO alone does not mean that the registers were put
  back; the report's `restored` does. `StatusTellsIff` says that over registers
  that were not put back the status is IO if and only if the mux was lost, and
  `FailedRollbackIsMasked` gives such a run.
- Empty nests. A nest nothing was put into is dropped when it is closed
  (fm10k_tlv.c:378-382), so it is not found again; the round trip is stated for
  items that leave something. The comment above the parser says that unknown
  attributes are ignored; that holds for ids below 32, and any other id stops
  the parse (fm10k_tlv.c:506-507).
- Startup gate. The permission file is itself a save (update_gate.py:25) and its
  removal can raise (update_gate.py:29). If either raises and leaves the file of
  the running worker, the rollback that follows moves the native tree away while
  the gate admits starts: `LeakAdmitsMissingTree`. The gate covers every state of
  a repair if and only if no permission has leaked: `GateShieldsRepairIff`. Crash
  atomicity does not depend on that.
- Upgrade outcomes. Seven saves mislead the worker when they raise: those of the
  phases "stopping", "committed" and (in the handler) "aborted", of the progress
  "rolling_back" and "recovery_required" in the handler, of "succeeded", and of the
  consumed candidate. After "committed" the handler skips the rollback
  (installation.py:583-585): what it then shows as rolled back is the old release
  if and only if the journal in memory is not committed (`Undo`). `RaisedCommitMisleads`,
  `RaisedSuccessMisleads`, `RaisedCandidateMisleads`, `RaisedHandlerMisleads`,
  `RaisedIntentMisleads` and `RaisedAbortMisleads` are such runs, one for each of the
  seven; in all but those of "succeeded", of the candidate and of a commit that was
  saved the maintenance marker is dropped over an open journal. Without such a save
  since the job was queued over a settled journal what is shown is true, whatever
  else raised. Crash atomicity does not depend on any of this.
- The fan curve of a failed commit. If the lanes of an undone commit cannot be put
  back its fan curve is not put back either (simulator.py:138-144), and a later
  commit that leaves the curve alone does not write it. The controller follows the
  active configuration's curve unless a restore has failed over a changed curve and
  no fan write has succeeded since (`ApplyHardware`, `adrift`).
- Confirming. `confirm` does not look at the phase of a pending commit
  (simulator.py:178-186). If the first save of a commit raises, the commit stays
  pending without ever being applied, no deadline ends it, and it can be confirmed:
  `RaisedSaveConfirmsNothing`. What `confirm` shows is true if and only if the commit
  was on trial: `ConfirmIsTrueIff`.

## Model

| member | source | states |
|---|---|---|
| `UpgradeState.GateIs` | backend/fm10k_controlpanel/update_gate.py:10-49 | over an absent or finished journal every start is admitted; over an open one exactly those made while the permission file names a process by pid, start time and boot that lives and is no zombie |
| `UpgradeState.AdmittedStartSeesMatchedPair` | backend/fm10k_controlpanel/update_gate.py:31-49 | in every sound state the gate admits a start over an open journal only for the live worker that holds the permission, and only over a present native tree of the same version as the Web package unless that permission has leaked |
| `UpgradeState.SettledIsAllOldOrAllNew` | backend/fm10k_controlpanel/installation.py:578-619 | a terminal journal means all old or all new, contents included: the tree, package and record from before, or the staged tree, the package and the record of the target; never both, and new exactly when the commit was journaled |
| `UpgradeState.UnsettledIsRecoverable` | backend/fm10k_controlpanel/installation.py:656-680 | until the journal is terminal the old release is whole, or everything needed to rebuild it is in the checkpoint |
| `UpgradeState.ShownOutcomeIsTrue` | backend/fm10k_controlpanel/update_helper.py:133-230 | a job shown succeeded has a committed journal and its version installed, one shown failed or rolled back has the prior release installed, unless one of the seven misleading saves has raised for this job |
| `UpgradeState.RecycledPidIsRefused` | backend/fm10k_controlpanel/update_gate.py:10-18 | a process that reuses a dead worker's pid does not inherit its permission |
| `UpgradeState.RebootRevokesPermission` | backend/fm10k_controlpanel/update_gate.py:10-18 | a permission left by an earlier boot never opens the gate |
| `UpgradeState.DriftIsHarmless` | backend/fm10k_controlpanel/update_gate.py:31-49 | services writing, gated starts and processes coming and going between two effects keep every invariant |
| `UpgradeState.FreshHostIsSound` | backend/fm10k_controlpanel/installation.py:540-548 | a host after a first installation satisfies the invariant |
| `Updater.RepairIsHarmless` | backend/fm10k_controlpanel/installation.py:586-614 | any intermediate state of a repair or a switch, behind the closed gate, keeps the invariant |
| `Updater.OpeningIsHarmless` | backend/fm10k_controlpanel/installation.py:649-651 | journaling the intent over a settled release keeps the invariant and is a lawful step |
| `Updater.CheckpointingIsHarmless` | backend/fm10k_controlpanel/installation.py:669-671 | journaling "checkpointed" is sound once the checkpoint is complete |
| `Updater.SwitchingIsHarmless` | backend/fm10k_controlpanel/installation.py:672-675 | journaling "switching" is sound once the native tree is saved |
| `Updater.CommittingIsHarmless` | backend/fm10k_controlpanel/installation.py:692-694 | journaling "committed" is sound once everything is new, and extends the list of commits |
| `UpgradeFaults.GateShieldsRepairIff` | backend/fm10k_controlpanel/update_gate.py:31-49 | the gate keeps starts away from every state a repair or switch passes through if and only if no permission has leaked |
| `UpgradeFaults.LeakAdmitsMissingTree` | backend/fm10k_controlpanel/update_gate.py:21-28 | a run in which the save of the permission raises after replacing the file and the gate then admits a start without a native tree |
| `UpgradeFaults.RaisedCommitMisleads` | backend/fm10k_controlpanel/installation.py:692-705 | a run in which the save of the commit raises, written or not, and the new release is shown as rolled back |
| `UpgradeFaults.RaisedSuccessMisleads` | backend/fm10k_controlpanel/update_helper.py:219-226 | a run in which recording the success raises and the new release is shown as failed |
| `UpgradeFaults.RaisedCandidateMisleads` | backend/fm10k_controlpanel/update_helper.py:220-226 | a run in which consuming the candidate raises and the new release, already shown as succeeded, is shown as failed |
| `UpgradeFaults.RaisedHandlerMisleads` | backend/fm10k_controlpanel/installation.py:696-705 | runs in which the handler cannot record that it rolls back, or that it could not, and the job is shown failed and the marker dropped over an open journal |
| `UpgradeFaults.RaisedIntentMisleads` | backend/fm10k_controlpanel/installation.py:651-654 | a run in which the journaled intent is left open, the panel started again and nothing touched, without the marker |
| `UpgradeFaults.RaisedAbortMisleads` | backend/fm10k_controlpanel/installation.py:705-709 | a run in which journaling the abort raises: the journal stays open, the services stay down, and the job is shown failed without the marker |
| `Updater.CommitsIncrease` | backend/fm10k_controlpanel/installation.py:627-629 | over a whole run nothing is uncommitted and committed versions strictly increase |
| `Updater.UpdateManager.Rollback` | backend/fm10k_controlpanel/installation.py:578-619 | for every crash or exception inside it, rollback keeps the invariant; if it completes, everything is all old and the journal is settled; the directories equal their checkpoint before services start, unless a leaked permission let others start them; a committed transaction is left alone |
| `Updater.UpdateManager.RestoreAll` | backend/fm10k_controlpanel/installation.py:586-614 | native tree, package and record end as the checkpoint has them, and so do the three directories unless a leaked permission let services write them; the checkpoint is not consumed |
| `Updater.UpdateManager.RestoreNative` | backend/fm10k_controlpanel/installation.py:587-599 | the saved tree comes back from a copy; its own integrity checks can never fail |
| `Updater.UpdateManager.RestoreDir` | backend/fm10k_controlpanel/installation.py:600-607 | a directory is removed and copied back; interrupted, it may be anything, and that is repairable |
| `Updater.UpdateManager.RestorePackage` | backend/fm10k_controlpanel/installation.py:608-614 | saved Web package and installation record are put back |
| `Updater.UpdateManager.StartUnderPermission` | backend/fm10k_controlpanel/update_gate.py:21-28 | services start only over a matched pair, at the checkpoint unless a permission has leaked; under its own permission the gate never refuses the worker; afterwards the permission is gone, or its save or removal has raised; done, the services were found healthy |
| `Updater.UpdateManager.StartServices` | backend/fm10k_controlpanel/installation.py:457-459 | native units start only if the gate admits them, and the panel only after them; where the gate admits, an exception is the fault of an effect |
| `Updater.UpdateManager.Grant` | backend/fm10k_controlpanel/update_gate.py:21-28 | the permission file is replaced or removed, or not, however the call ends; left behind by a raising call it counts as leaked |
| `Updater.UpdateManager.Checkpoint` | backend/fm10k_controlpanel/installation.py:657-671 | stopping and checkpointing leaves the old release whole; done means a complete checkpoint journaled; where no effect has raised it is refused only because a directory is missing; done, the pointer to the running configuration was found unchanged |
| `Updater.UpdateManager.CheckpointCopy` | backend/fm10k_controlpanel/installation.py:568-575 | the copy of a directory equals it |
| `Updater.UpdateManager.Switch` | backend/fm10k_controlpanel/installation.py:672-680 | tree and package are new and the switch is journaled, or the old release can still be rebuilt; done, the job is shown restarting |
| `Updater.UpdateManager.MoveAside` | backend/fm10k_controlpanel/installation.py:672-672 | moving the native tree into the checkpoint leaves it in one of the two places |
| `Updater.UpdateManager.Activate` | backend/fm10k_controlpanel/installation.py:681-695 | the new release is started, checked, recorded and committed, or can still be rolled back; done, the configuration was found to be the one of the checkpoint with both services running, and refused without a raising effect it was found not to be; done, the services were found healthy and the accounts unchanged |
| `Updater.UpdateManager.Commit` | backend/fm10k_controlpanel/installation.py:686-695 | the record and then the commit of the new release, after the account check |
| `Updater.UpdateManager.BackOut` | backend/fm10k_controlpanel/installation.py:697-705 | the same for the handler after the checkpoint: rolled back and shown so, or recovery required, unless the journal in memory is committed and rollback is skipped; rolled back if no effect has raised, and on a steady host always one of the two |
| `Updater.UpdateManager.Undo` | backend/fm10k_controlpanel/installation.py:696-709 | an exception ends rolled back, aborted, or in recovery required, unless a save of the handler raises; what is newly shown as rolled back is the old release exactly if the journal in memory is not committed, and the new one otherwise; after an abort the services run again |
| `Updater.UpdateManager.Exchange` | backend/fm10k_controlpanel/installation.py:655-709 | from the journaled intent to the commit, or, where no effect has raised, back to all old for one of two causes: a missing directory or a configuration that changed |
| `Updater.UpdateManager.Open` | backend/fm10k_controlpanel/installation.py:645-654 | the intent is journaled with the panel stopped, or the panel is started again over an unchanged disk |
| `Updater.UpdateManager.Upgrade` | backend/fm10k_controlpanel/installation.py:622-709 | done means the staged tree and the given package are installed and committed for this job; raised means settled on the old release unless recovery is required or a misleading save raised; a release that is not newer changes nothing, and where no effect has raised a newer one is refused only for a missing directory or a changed configuration; a commit rests on each of its seven checks, made in this very run |
| `Updater.UpdateManager.Build` | backend/fm10k_controlpanel/installation.py:636-709 | the new release is staged while the old one runs, and swapped in |
| `Updater.UpdateManager.Progress` | backend/fm10k_controlpanel/update_helper.py:133-138 | state.json and its job move together |
| `Updater.UpdateManager.Tell` | backend/fm10k_controlpanel/update_helper.py:133-138 | a phase on the way is shown before its effects begin |
| `Updater.UpdateManager.Resume` | backend/fm10k_controlpanel/update_helper.py:166-172 | an open journal is aborted or rolled back to all old; recovery misleads nobody |
| `Updater.UpdateManager.Recover` | backend/fm10k_controlpanel/update_helper.py:140-175 | the first recovery that completes leaves all old or, exactly for a committed journal, all new; a busy job that owns the journal gets the result the journal stands for; where it fails the marker stays |
| `Updater.UpdateManager.Settle` | backend/fm10k_controlpanel/update_helper.py:184-189 | the job of an interrupted upgrade ends as the journal stands for, and a recovery that fails is shown as required with the marker on |
| `Updater.UpdateManager.RunJob` | backend/fm10k_controlpanel/update_helper.py:198-223 | a queued job ends succeeded, its candidate installed and consumed, the journal settled; or raises with a settled journal unless recovery is required or a misleading save raised; where no effect has raised it is refused only for a missing directory or a changed configuration, so never a release that is newer; done, the release was downloaded and verified in this run |
| `Updater.UpdateManager.Deliver` | backend/fm10k_controlpanel/update_helper.py:205-218 | downloaded, verified, unpacked and upgraded to, in this order |
| `Updater.UpdateManager.Finish` | backend/fm10k_controlpanel/update_helper.py:224-230 | a failed job is shown failed exactly if nothing more is known of it; the maintenance marker stays while recovery is required and is otherwise gone on a normal end, over an open journal only after a misleading save |
| `Updater.UpdateManager.RunQueued` | backend/fm10k_controlpanel/update_helper.py:198-230 | a queued job: where no effect has raised it ends succeeded with its version installed, or for one of the two causes failed or rolled back on the release before |
| `Updater.UpdateManager.Serve` | backend/fm10k_controlpanel/update_helper.py:190-230 | what a worker does with nothing to recover: an idle panel stays as it is, a job cut short before its switch is shown failed, a queued one is run |
| `Updater.UpdateManager.Work` | backend/fm10k_controlpanel/update_helper.py:177-230 | one worker run, which may be cut short anywhere, keeps every invariant and is a lawful history; where no effect has raised, and for the marker and the job on a steady host whatever raised, it leaves the job with its result and without the marker, or in recovery required with it; a queued release is installed or refused for a cause |
| `Updater.UpdateManager.SetMarker` | backend/fm10k_controlpanel/update_helper.py:26-31 | the marker is dropped only at a terminal journal, or after a misleading save |
| `Updater.UpdateManager.Check` | backend/fm10k_controlpanel/update_helper.py:80-97 | refused exactly while busy, unless a save raises; available exactly when the published version is newer than the installed one, and only then is there a candidate |
| `Updater.UpdateManager.Install` | backend/fm10k_controlpanel/update_helper.py:99-121 | refused exactly while busy, stale or not newer, unless a save raises; otherwise queued with the write lock set, over a settled journal with a clean slate |
| `Updater.UpdateManager.Reboot` | backend/fm10k_controlpanel/update_gate.py:10-18 | a power loss stops the native services, takes every process and, if /run is cleared, the marker and the permission; the invariant holds |
| `Updater.UpdateManager.Live` | backend/fm10k_controlpanel/update_helper.py:140-230 | any schedule of requests between worker runs, interrupted workers and reboots passes through sound states by lawful steps only, and the release changes under the marker only |
| `BoardBus.Bus.SelectMux` | hardware/native/fm10k_board.c:13-35 | success means the branch is selected and the previous one is known |
| `BoardBus.Bus.ReleaseMux` | hardware/native/fm10k_board.c:36-43 | unless the mux is lost the previous branch is selected again |
| `BoardBus.Bus.RestoreMux` | hardware/native/fm10k_board.c:36-43 | any result but IO means the previous branch is selected again |
| `BoardBus.Bus.WriteRetry` | hardware/native/fm10k_board.c:71-79 | success means the register holds the value, and is certain on a bus that works; whatever happens nothing else changed at any moment, and only that value was ever asked for, at most twelve times |
| `TxLanes.EncodedBit` | hardware/native/fm10k_board.c:87-90 | bit i of an encoded mask is lane i |
| `TxLanes.SplitAndJoin` | hardware/native/fm10k_board.c:87-96 | splitting a mask into the two registers and reading it back is the identity |
| `TxLanes.HighByteKeepsReserved` | hardware/native/fm10k_board.c:87-90 | the reserved nibble of the high register is kept |
| `TxLanes.RegistersAre` | hardware/native/fm10k_board.c:80-90 | the branches and registers of the two modules |
| `TxLanes.HalfWritten` | hardware/native/fm10k_board.c:89-92 | between the two register writes the other lanes are already untouched |
| `TxLanes.HalfwayIsConfined` | hardware/native/fm10k_board.c:80-97 | every point of a lane update is confined to the requested lanes |
| `TxLanes.TxRead` | hardware/native/fm10k_board.c:63-70 | success means the lanes of the module |
| `TxLanes.TxUpdate` | hardware/native/fm10k_board.c:80-97 | under every bus fault only the requested lanes change, at every moment; success means they were read back as asked |
| `GroupApply.TxMask` | hardware/native/fm10k_board.c:58-62 | the mask of a group stays within its EPL |
| `GroupApply.TxMaskIsShifted` | hardware/native/fm10k_board.c:58-62 | as a number it is the enabled lanes shifted to the first lane of the EPL, or all four of an aggregate with anything enabled |
| `GroupApply.GroupsAre` | hardware/native/fm10k_board.c:48-52 | which module and lanes each EPL has |
| `GroupApply.OtherEplKeepsItsLanes` | hardware/native/fm10k_board.c:564-598 | what is confined to one EPL leaves every other EPL's lanes alone |
| `GroupApply.ApplyModes` | hardware/native/fm10k_board.c:553-563 | modes change only while quiesced and dark; success means the group's lanes and modes, by these four callbacks in this order, and is certain where nothing fails |
| `GroupApply.Compensate` | hardware/native/fm10k_board.c:586-590 | success means lanes and modes are the captured ones and the protocols released, and is certain where nothing fails |
| `GroupApply.BackOff` | hardware/native/fm10k_board.c:576-582 | protocols that would not pause are released again, or the EPL is given up |
| `GroupApply.Reprogram` | hardware/native/fm10k_board.c:583-598 | target, state before, or marked degraded; after a failure the way back was always tried |
| `GroupApply.Examine` | hardware/native/fm10k_board.c:567-574 | the before-image is what the hardware has, and its lanes are the ones its mode lights |
| `GroupApply.Apply` | hardware/native/fm10k_board.c:564-598 | the group transaction under every bus and callback fault: no lane outside the EPL ever changes, set_modes only runs quiesced and dark, OK means the target lanes by the seven callbacks in order, IO the before-image, ROLLBACK_FAILED a degraded mark; after a pause the way back was tried; OK is certain where nothing fails and the group is as its mode says, and a degraded group is dark if the bus works |
| `OpticsSetup.TuningKeepsLanes` | hardware/native/fm10k_board.c:103-111 | whatever only the 22 settings may change leaves the lanes of the module as they were |
| `OpticsSetup.SettingsAreNotLaneKeys` | hardware/native/fm10k_board.c:103-111 | no setting is a transmit-enable register of either module |
| `OpticsSetup.SettingsAre` | hardware/native/fm10k_board.c:103-111 | the 22 settings, one by one |
| `OpticsSetup.WriteSetting` | hardware/native/fm10k_board.c:112-121 | one setting written and verified, every other register untouched |
| `OpticsSetup.Capture` | hardware/native/fm10k_board.c:131-143 | the before-image is what the 22 registers hold |
| `OpticsSetup.Tune` | hardware/native/fm10k_board.c:144-153 | success means all targets; settings not attempted still hold their before-image |
| `OpticsSetup.Verify` | hardware/native/fm10k_board.c:154-163 | success means all targets with the module dark |
| `OpticsSetup.NoLanes` | hardware/native/fm10k_board.c:130-130 | the darkness test is exact |
| `OpticsSetup.Restore` | hardware/native/fm10k_board.c:166-171 | restored means all 22 registers equal the before-image |
| `OpticsSetup.Setup` | hardware/native/fm10k_board.c:122-176 | no write to a transmit-enable register is ever asked for, and none ever changes; the report is true of the registers whatever becomes of the mux, and each of them holds its captured value or its target; the status is that of the transaction, or IO exactly if the mux was lost; on a bus that works it is OK for a dark module and INVALID for any other |
| `OpticsSetup.Exchange` | hardware/native/fm10k_board.c:144-171 | from the captured registers on: the targets verified, or everything put back as the report says |
| `OpticsSetup.StatusTellsIff` | hardware/native/fm10k_board.c:166-176 | over captured registers that were not put back the status is IO if and only if the mux was lost |
| `OpticsSetup.FailedRollbackIsMasked` | hardware/native/fm10k_board.c:166-176 | a run, write by write, in which the first write latches and fails, the restoring write is dropped, the mux is lost and ROLLBACK_FAILED is reported as IO |
| `FanCurves.RoundEvenIsNearest` | hardware/native/fm10k_board.c:44-47 | rounding is to nearest, halves to even |
| `FanCurves.RoundEvenSeparates` | hardware/native/fm10k_board.c:44-47 | arguments more than one apart round to different integers |
| `FanCurves.LimitsAre` | backend/fm10k_controlpanel/models.py:247-263 | the admissible curves reach from one corner of the schema to the other, and no further |
| `FanCurves.BuildLut` | hardware/native/fm10k_board.c:341-353 | the table built point by point is the specified one |
| `FanCurves.LutIsMonotone` | hardware/native/fm10k_board.c:341-353 | for every admissible curve table temperatures strictly increase and duties never fall |
| `FanCurves.LutProtects` | hardware/native/fm10k_board.c:341-353 | full duty from the critical point on, never below the idle duty |
| `FanCurves.UsualTable` | backend/fm10k_controlpanel/board.py:38-47 | the whole table of the default curve |
| `FanCurves.UsualBytes` | backend/fm10k_controlpanel/board.py:50-65 | and the other control bytes |
| `FanCurves.ResponsesAre` | hardware/native/fm10k_board.c:382-383 | the response register for each of the four response times |
| `FanCurves.ImageMatches` | hardware/native/fm10k_board.c:375-391 | an image is recognised exactly when its 33 control bytes are the curve's and its mode is automatic or full |
| `FanControl.AutomaticModeRunsACurve` | hardware/native/fm10k_board.c:464-503 | over any run of safe writes automatic mode always runs one admissible curve, unless the chip was found in automatic mode over something else and never taken out of it; the table never changes under it |
| `FanControl.RegistersAre` | hardware/native/fm10k_board.c:357-362 | the 35 registers of an image, in order |
| `FanControl.StepIsSafe` | hardware/native/fm10k_board.c:402-412 | a single register write under its guard is a safe step |
| `FanControl.WriteVerified` | hardware/native/fm10k_board.c:402-412 | success means the register holds the value; at most that register changed |
| `FanControl.FanFull` | hardware/native/fm10k_board.c:459-463 | success means full speed; control bytes untouched; where the mux can be reached full speed is the last thing asked for |
| `FanControl.ImageRead` | hardware/native/fm10k_board.c:363-374 | the image is what the 35 registers hold |
| `FanControl.ImageRestore` | hardware/native/fm10k_board.c:464-477 | refused exactly for a foreign image; success means its 33 control bytes and automatic or full speed; every bus step is safe; a failure asks for full speed last where the mux can be reached |
| `FanControl.ProgramTable` | hardware/native/fm10k_board.c:491-493 | the 24 table bytes, in full-speed mode only |
| `FanControl.Configure` | hardware/native/fm10k_board.c:478-503 | success means the chip runs the curve or is held at full speed with it, and is certain for an admissible curve on a bus that works; LUT bytes change only at verified full speed and automatic mode is entered only over one whole curve, at every bus step; a failure asks for full speed last, unless nothing was asked for or the curve runs anyway, and always where the mux can be reached |
| `FanControl.ConfiguredImageMatches` | hardware/native/fm10k_board.c:375-391 | what configure leaves is recognised as the curve's image |
| `FanControl.RestoreUndoes` | hardware/native/fm10k_board.c:392-401 | capture then restore is the identity on the 33 control bytes |
| `Monitor.JoinRuns` | hardware/native/fm10k_monitor.c:46-152 | safe bus histories compose |
| `Monitor.FreshFor` | hardware/native/fm10k_monitor.c:10-26 | a valid sample stays fresh for exactly fifteen seconds; an invalid one leaves the value and is not fresh |
| `Monitor.Controller.constructor` | hardware/native/fm10k_monitor.c:41-45 | initialisation believes nothing, whatever state the chip is in |
| `Monitor.Controller.Manual` | hardware/native/fm10k_board.c:511-533 | manual duty needs a valid curve, no failsafe and a fresh temperature; it is full at a critical one; a failure after the first write means failsafe with full speed asked for last |
| `Monitor.Controller.Tick` | hardware/native/fm10k_board.c:534-552 | manual ends at its deadline; the failsafe is entered and left exactly by temperature unless the bus fails: left only with the curve running at one not above critical minus hysteresis; in failsafe full speed is on the chip, or was asked for last |
| `Monitor.Controller.Step` | hardware/native/fm10k_monitor.c:138-166 | the same for a scheduler turn with a fresh sample; between samples nothing changes |
| `Monitor.Controller.SetCurve` | hardware/native/fm10k_monitor.c:46-69 | the new curve, or the previous one, or failsafe after both were tried, and full speed, in this order |
| `Monitor.Controller.Capture` | hardware/native/fm10k_monitor.c:70-83 | refused exactly under manual duty; a valid snapshot is the chip's own image and the controller's curve, and on a bus that works it is valid exactly if the image is recognised |
| `Monitor.Controller.Reload` | hardware/native/fm10k_monitor.c:90-97 | the image is written and its curve taken over, or nothing believed changes |
| `Monitor.Controller.ReadBack` | hardware/native/fm10k_monitor.c:98-101 | what was written is read back and found equal, if the bus works |
| `Monitor.Controller.Restore` | hardware/native/fm10k_monitor.c:90-111 | success means the captured control bytes, read back, and full speed exactly when protection is required; it is certain for a recognised image on a bus that works; failure means failsafe with full speed asked for last |
| `Monitor.Controller.Install` | hardware/native/fm10k_monitor.c:118-126 | believed only once it reads back |
| `Monitor.Controller.Apply` | hardware/native/fm10k_monitor.c:112-129 | all of the curve, read back, none of the 33 control bytes, or failsafe with full speed asked for last; it succeeds over what has just been captured if the bus works |
| `Monitor.Controller.StillCurrent` | hardware/native/fm10k_monitor.c:114-117 | a snapshot is only applied over if the chip and the controller are as it says |
| `Monitor.Controller.Shutdown` | hardware/native/fm10k_monitor.c:218-228 | manual duty does not outlive the owner; what cannot get its curve back is asked for full speed |
| `SwitchConfig.EnabledLanes` | backend/fm10k_controlpanel/board.py:115-123 | the wanted lanes of a group lie within it |
| `SwitchConfig.ProgramsAgree` | backend/fm10k_controlpanel/board.py:115-123 | the simulator and the native transaction light the same lanes for a configuration |
| `SwitchConfig.GroupEnabledMask` | backend/fm10k_controlpanel/board.py:115-123 | gathering port by port gives exactly the wanted lanes |
| `SwitchConfig.UntouchedGroupsAgree` | backend/fm10k_controlpanel/board.py:126-133 | a group that is neither re-moded nor switched wants the same lanes before and after |
| `SwitchConfig.Affected` | backend/fm10k_controlpanel/simulator.py:108-110 | exactly the touched groups, in order |
| `SimulatedBus.SimBus.UpdateTxMask` | backend/fm10k_controlpanel/board.py:94-112 | dropped writes and an unavailable bus included: only the requested lanes change, and a normal return means they are as requested with the mux put back; on a bus that works it is refused exactly for an invalid request |
| `SimulatedBus.SimBus.UpdateSelected` | backend/fm10k_controlpanel/board.py:97-112 | the same on the selected branch, with at most 12 writes to each register |
| `SimulatedBus.SimBus.ReadTxMask` | backend/fm10k_controlpanel/board.py:89-91 | the lanes of the module |
| `CommitHistory.RevisionNamesConfiguration` | backend/fm10k_controlpanel/simulator.py:156-199 | a revision number names one configuration for ever |
| `CommitHistory.EachCommitEndsOnce` | backend/fm10k_controlpanel/simulator.py:156-199 | every commit that reached trial ends exactly once, except the one still open |
| `CommitHistory.PlainSave` | backend/fm10k_controlpanel/simulator.py:161-170 | a save that neither opens nor ends a commit keeps the record sound |
| `CommitHistory.BeginSave` | backend/fm10k_controlpanel/simulator.py:171-175 | so does the save that puts a commit on trial |
| `CommitHistory.EndSave` | backend/fm10k_controlpanel/simulator.py:178-199 | so does the save that ends it, before its deadline or with the before-image |
| `CommitHistory.ConfirmIsTrueIff` | backend/fm10k_controlpanel/simulator.py:178-186 | what a confirmation shows is true if and only if the pending commit was on trial |
| `CommitHistory.RaisedSaveConfirmsNothing` | backend/fm10k_controlpanel/simulator.py:161-170 | a run in which the first save raises and a commit that was never applied is shown as confirmed |
| `ConfirmedCommit.IncrementalIsFull` | backend/fm10k_controlpanel/simulator.py:107-129 | rewriting only the touched groups gives the full recomputation |
| `ConfirmedCommit.MockConfigd.ApplyGroup` | backend/fm10k_controlpanel/simulator.py:115-126 | one group reaches its target lanes by the named steps in order, its mode set only if it changes and only while dark, and no other group changes |
| `ConfirmedCommit.MockConfigd.RestoreMasks` | backend/fm10k_controlpanel/simulator.py:138-142 | the captured lanes of the affected groups are put back |
| `ConfirmedCommit.MockConfigd.ApplyHardware` | backend/fm10k_controlpanel/simulator.py:107-154 | applied means the full recomputation of the target, undone means every lane and the fan curve as they were, unrestored means exactly the touched groups are degraded, and dark if the bus works; applied is certain where nothing fails |
| `ConfirmedCommit.MockConfigd.Undo` | backend/fm10k_controlpanel/simulator.py:136-154 | the handler: every lane of the touched groups and the fan curve as before, or the groups degraded |
| `ConfirmedCommit.MockConfigd.RestoreHardware` | backend/fm10k_controlpanel/simulator.py:101-105 | the full recomputation, fan curve included |
| `ConfirmedCommit.MockConfigd.Recall` | backend/fm10k_controlpanel/simulator.py:43-60 | a record that is read with a commit on it stands for the before-image under the next revision, shown as rolled back |
| `ConfirmedCommit.MockConfigd.Restart` | backend/fm10k_controlpanel/simulator.py:50-81 | a commit on record is answered with its before-image under the next revision, with the hardware recomputed; it serves wherever nothing fails |
| `ConfirmedCommit.MockConfigd.Tick` | backend/fm10k_controlpanel/simulator.py:201-207 | a commit that survives a tick was seen before its deadline, and one seen before its deadline survives; nothing else changes but an expired one and expired manual duty |
| `ConfirmedCommit.MockConfigd.Rollback` | backend/fm10k_controlpanel/simulator.py:188-199 | the before-image under the next revision, shown as rolled back; or the commit stays open, which needs a failure |
| `ConfirmedCommit.MockConfigd.Transact` | backend/fm10k_controlpanel/simulator.py:163-176 | the commit is on trial with the target applied, or nothing is, unless a save raised; the intent with the before-image is on disk before the first step, and the deadline is the time asked for after the clock reading that follows the last |
| `ConfirmedCommit.MockConfigd.OpenTrial` | backend/fm10k_controlpanel/simulator.py:171-176 | the trial and its deadline are on disk, from a clock reading taken now |
| `ConfirmedCommit.MockConfigd.Apply` | backend/fm10k_controlpanel/simulator.py:156-176 | refused exactly while another is open or for a stale revision, unless something fails; the opened commit has the expected successor revision and the deadline that was asked for, and is still on trial exactly if the closing clock reading is before it |
| `ConfirmedCommit.MockConfigd.Confirm` | backend/fm10k_controlpanel/simulator.py:178-186 | between calls without a raising save: only the open commit, strictly before its deadline by the clock that is recorded, and then always where nothing fails |
| `ConfirmedCommit.MockConfigd.Manual` | backend/fm10k_controlpanel/simulator.py:209-216 | never while a commit is on trial; for the time asked for from the clock reading |
| `ConfirmedCommit.Live` | backend/fm10k_controlpanel/simulator.py:42-216 | any schedule of calls, raising saves, deaths and restarts keeps a sound record on disk |
| `ConfirmedCommit.RunsAreSound` | backend/fm10k_controlpanel/simulator.py:42-216 | what a sound record answers for over its whole history |
| `PfcWatchdog.RunIsUnbroken` | hardware/native/fm10k_pfc_watchdog.c:44-52 | the run the watchdog tracks is unbroken: every sample suspicious, gaps in (0, 300] ms, nothing sent |
| `PfcWatchdog.RunIsMaximal` | hardware/native/fm10k_pfc_watchdog.c:44-52 | and no longer unbroken run ends there |
| `PfcWatchdog.RunDecidesStorm` | hardware/native/fm10k_pfc_watchdog.c:47-57 | its age decides exactly whether a storm of at least detect_ms ends the history |
| `PfcWatchdog.RunGrows` | hardware/native/fm10k_pfc_watchdog.c:44-54 | how one more sample extends, restarts or ends the run |
| `PfcWatchdog.CooldownIsQuiet` | hardware/native/fm10k_pfc_watchdog.c:40-57 | a release comes no earlier than cooldown plus detection after the cooldown began, saturation included |
| `PfcWatchdog.CalmIsNoStorm` | hardware/native/fm10k_pfc_watchdog.c:35-39 | a told sample that is not usable breaks every storm off |
| `PfcWatchdog.LimitsAre` | backend/fm10k_controlpanel/models.py:188-198 | and so do the admissible policies |
| `PfcWatchdog.Watchdog.Observe` | hardware/native/fm10k_pfc_watchdog.c:24-58 | release exactly when what was told ends in an unbroken run of at least detect_ms in which every sample is valid, eligible, paused, queued and unsent, told with the watchdog on, maintenance off, the clock known and no cooldown; a lease is kept exactly if nothing puts it in doubt and it is younger than its recovery time |
| `PfcWatchdog.Watchdog.Judge` | hardware/native/fm10k_pfc_watchdog.c:44-57 | the same for one judged sample |
| `PfcWatchdog.Watchdog.Gap` | hardware/native/fm10k_pfc_watchdog.c:9-14 | breaks the observation off |
| `PfcWatchdog.Watchdog.Configure` | hardware/native/fm10k_pfc_watchdog.c:16-22 | refused exactly while a lease is held or the policy is invalid |
| `PfcWatchdog.Watchdog.Releasing` | hardware/native/fm10k_pfc_watchdog.c:60-68 | a lease is taken once and counted |
| `PfcWatchdog.Watchdog.EndLease` | hardware/native/fm10k_pfc_watchdog.c:75-82 | the lease is counted as ended and the cooldown runs from this moment, or from the next clock reading |
| `PfcWatchdog.Watchdog.Restored` | hardware/native/fm10k_pfc_watchdog.c:70-83 | a lease ends only by success, which starts the cooldown; leases taken are leases ended plus the one held, and the two 64-bit counters are these modulo 2^64 |
| `EyeCounts.DecodeIsMonotone` | hardware/native/fm10k_eye_scan.c:41-45 | encoded order is count order, so decoding is injective |
| `EyeCounts.DecodeIsBounded` | hardware/native/fm10k_eye_scan.c:41-45 | no sample decodes to more than 134184960, so none to the timeout value |
| `EyeCounts.DecodeIs` | hardware/native/fm10k_eye_scan.c:41-45 | a sample is its mantissa, with a leading one and shifted by its exponent |
| `EyeDevice.Device.ReadGroup` | hardware/native/fm10k_eye_scan.c:213-227 | the firmware's run-length contract: positions up to the one reported repeat the same four samples |
| `EyeScan.Scan.Settle` | hardware/native/fm10k_eye_scan.c:64-98 | every debt is tried; no failure means the lane is as the SDK left it; it never fails on a healthy lane, and on one that obeys leaves at most the running column |
| `EyeScan.Scan.ShutDown` | hardware/native/fm10k_eye_scan.c:76-90 | comparator and sampler are given back, each tried whatever the other does |
| `EyeScan.Scan.Finish` | hardware/native/fm10k_eye_scan.c:64-104 | restored means every recorded debt was settled, and only then is the scan called what it was meant to end as; cancelled only on request, complete only without one |
| `EyeScan.Scan.Start` | hardware/native/fm10k_eye_scan.c:105-134 | refused exactly while active, after a failed restoration or for invalid parameters; a scan begins only on a clean lane, with its equaliser paused and, from outside, on a signal |
| `EyeScan.Scan.Setup` | hardware/native/fm10k_eye_scan.c:140-155 | the debt is on record before the first command; done means the comparator was read back in its mode |
| `EyeScan.Scan.TickPreparing` | hardware/native/fm10k_eye_scan.c:178-203 | waiting for the equaliser and preparing the lane, each with its own time limit; the mission sample starts exactly when the lane is usable, prepared and on a signal |
| `EyeScan.Scan.BeginGather` | hardware/native/fm10k_eye_scan.c:156-164 | a column starts empty with its debt on record |
| `EyeScan.Scan.Unpack` | hardware/native/fm10k_eye_scan.c:228-235 | the group loop undoes the run-length encoding: row stays 4*(read_index-1) and no timeout is ever stored |
| `EyeScan.Scan.Gather` | hardware/native/fm10k_eye_scan.c:212-237 | at most 32 positions, none after eight milliseconds; what is filled is what was measured; a healthy lane brings the column to its end or 32 positions further |
| `EyeScan.Scan.CloseColumn` | hardware/native/fm10k_eye_scan.c:238-261 | a column counts only when full and acknowledged; the last one ends the scan as COMPLETE, or as CANCELLED exactly on request, if everything is given back, and a healthy lane never keeps it waiting |
| `EyeScan.Scan.Primed` | hardware/native/fm10k_eye_scan.c:245-257 | after the mission sample the scan runs, or is cancelled if asked |
| `EyeScan.Scan.Tick` | hardware/native/fm10k_eye_scan.c:165-262 | every tick keeps: whole true columns, one finish per ended scan, COMPLETE only with every cell filled and only without a request; the last column ends the scan so, a requested cancellation once no column is running; out of time it fails, and in time on a healthy lane every tick takes it further |
| `EyePages.HonestPagesValidate` | backend/fm10k_controlpanel/eye.py:65-101 | a page of an honest scan passes validation |
| `EyePages.Merge` | backend/fm10k_controlpanel/eye.py:104-136 | merging raises exactly for a page that does not follow, and otherwise extends without changing |
| `EyePages.HonestPagesMerge` | backend/fm10k_controlpanel/eye.py:104-136 | a later honest page is never rejected and the result is a prefix of the true matrix |
| `EyePipeline.Panel.Format` | hardware/native/fm10k_eye_scan.c:272-307 | the page is the window of true columns |
| `EyePipeline.Panel.Next` | backend/fm10k_controlpanel/service.py:526-528 | a page taken where the reader stands brings all that is left or a full page |
| `EyePipeline.Panel.Catch` | backend/fm10k_controlpanel/service.py:526-528 | at most three more pages: the gap closes, or shrinks by exactly three pages |
| `EyePipeline.Panel.ReadLive` | backend/fm10k_controlpanel/service.py:513-530 | a read of the running scan: up to date, and it comes wherever pages come |
| `EyePipeline.Panel.ReadEye` | backend/fm10k_controlpanel/service.py:513-534 | for every interleaving with the scan: never rejected, always a true prefix, complete only as the whole matrix, and the gap closes or shrinks by three pages |
| `EyePipeline.Panel.Evict` | backend/fm10k_controlpanel/service.py:531-532 | dropping cached values only forgets |
| `EyeMetrics.CleanLimit` | backend/fm10k_controlpanel/eye.py:144-149 | a sample is clean up to one error in ten thousand bits |
| `EyeMetrics.Measure` | backend/fm10k_controlpanel/eye.py:151-156 | the longest clean stretch through the centre: it contains every other |
| `EyeMetrics.Metrics` | backend/fm10k_controlpanel/eye.py:139-161 | width and height of the opening, if the centre is clean |
| `Tlv.DwordLenCountsWords` | hardware/reference/driver/fm10k-uio-6.12.101-ies2/fm10k_tlv.h:39-44 | the header macro counts whole words, whatever id and flags are below the length |
| `Tlv.HeaderFields` | hardware/reference/driver/fm10k-uio-6.12.101-ies2/fm10k_tlv.h:29-37 | length, id and flags are read back from a header |
| `Tlv.HeaderSpans` | hardware/reference/driver/fm10k-uio-6.12.101-ies2/fm10k_tlv.c:34-385 | every item spans exactly the words its own header claims |
| `Tlv.TextReadsBack` | hardware/reference/driver/fm10k-uio-6.12.101-ies2/fm10k_tlv.c:84-101 | a stored string is read back with its terminator |
| `Tlv.MacReadsBack` | hardware/reference/driver/fm10k-uio-6.12.101-ies2/fm10k_tlv.c:149-160 | a stored MAC address and VLAN are read back |
| `Tlv.ValueReadsBack` | hardware/reference/driver/fm10k-uio-6.12.101-ies2/fm10k_tlv.c:238-258 | a stored integer is read back at its own length and refused at any other |
| `Tlv.StructReadsBack` | hardware/reference/driver/fm10k-uio-6.12.101-ies2/fm10k_tlv.c:309-329 | a stored structure is read back |
| `Tlv.SignedReadsBack` | hardware/reference/driver/fm10k-uio-6.12.101-ies2/fm10k_tlv.c:198-225 | a signed value survives truncation to its own width |
| `TlvBuild.Grow` | hardware/reference/driver/fm10k-uio-6.12.101-ies2/fm10k_tlv.c:63-66 | the message length grows by exactly what was written; nothing before it changes |
| `TlvBuild.PutText` | hardware/reference/driver/fm10k-uio-6.12.101-ies2/fm10k_tlv.c:34-69 | appends the encoded string |
| `TlvBuild.PutMacVlan` | hardware/reference/driver/fm10k-uio-6.12.101-ies2/fm10k_tlv.c:112-137 | appends the encoded address |
| `TlvBuild.PutFlag` | hardware/reference/driver/fm10k-uio-6.12.101-ies2/fm10k_tlv.c:172-185 | appends a bare header |
| `TlvBuild.PutValue` | hardware/reference/driver/fm10k-uio-6.12.101-ies2/fm10k_tlv.c:198-225 | appends the value cut to its length; refused exactly for lengths other than 1, 2, 4 and 8 |
| `TlvBuild.PutStruct` | hardware/reference/driver/fm10k-uio-6.12.101-ies2/fm10k_tlv.c:270-297 | appends the words; refused exactly for no or a partial word |
| `TlvBuild.PutNest` | hardware/reference/driver/fm10k-uio-6.12.101-ies2/fm10k_tlv.c:340-385 | a filled nest joins its parent; an empty one leaves nothing |
| `TlvBuild.CloseNest` | hardware/reference/driver/fm10k-uio-6.12.101-ies2/fm10k_tlv.c:365-385 | only a nest that holds something is included |
| `TlvBuild.Build` | hardware/reference/driver/fm10k-uio-6.12.101-ies2/fm10k_tlv.c:13-385 | a message holds exactly its items, in a whole number of words |
| `TlvParse.Find` | hardware/reference/driver/fm10k-uio-6.12.101-ies2/fm10k_tlv.c:408-414 | the search of a schema |
| `TlvParse.LookupFinds` | hardware/reference/driver/fm10k-uio-6.12.101-ies2/fm10k_tlv.c:408-414 | in an ascending schema the entry of the id is found if there is one |
| `TlvParse.ValidateItem` | hardware/reference/driver/fm10k-uio-6.12.101-ies2/fm10k_tlv.c:398-456 | the verdict on one item that lies in the buffer |
| `TlvParse.AcceptsReadable` | hardware/reference/driver/fm10k-uio-6.12.101-ies2/fm10k_tlv.c:398-456 | an item is accepted exactly if the getter of its kind can take all of it: a string with its terminator inside the allowed size, a number or structure at its declared length, a nest of whole words |
| `TlvParse.Parse` | hardware/reference/driver/fm10k-uio-6.12.101-ies2/fm10k_tlv.c:471-529 | the loop computes the walk: its results on success, its error otherwise |
| `TlvParse.GetText` | hardware/reference/driver/fm10k-uio-6.12.101-ies2/fm10k_tlv.c:84-101 | copies exactly the string on record |
| `TlvParse.GetStruct` | hardware/reference/driver/fm10k-uio-6.12.101-ies2/fm10k_tlv.c:309-329 | copies exactly the structure on record, or nothing |
| `TlvParse.CopyEndsIff` | hardware/reference/driver/fm10k-uio-6.12.101-ies2/fm10k_tlv.c:323-324 | the copying loop of get_le_struct ends if and only if the length is whole words |
| `TlvLaws.ParsesIffTiled` | hardware/reference/driver/fm10k-uio-6.12.101-ies2/fm10k_tlv.c:471-529 | parsing succeeds exactly when admissible items tile [0, len) |
| `TlvLaws.TiledLengthIsWords` | hardware/reference/driver/fm10k-uio-6.12.101-ies2/fm10k_tlv.c:524-526 | the length of a message that parses is a multiple of four |
| `TlvLaws.SuccessTiles` | hardware/reference/driver/fm10k-uio-6.12.101-ies2/fm10k_tlv.c:502-522 | and its results are the last well-formed item of each id |
| `TlvLaws.BuiltItemsValidate` | hardware/reference/driver/fm10k-uio-6.12.101-ies2/fm10k_tlv.c:398-456 | a built item is accepted if its id is known and skipped if it is not |
| `TlvLaws.BuiltMessagesParse` | hardware/reference/driver/fm10k-uio-6.12.101-ies2/fm10k_tlv.c:471-529 | parsing a built message succeeds and points at its items |
| `TlvLaws.LastWins` | hardware/reference/driver/fm10k-uio-6.12.101-ies2/fm10k_tlv.c:509-515 | of duplicates the last wins |
| `TlvLaws.OthersStay` | hardware/reference/driver/fm10k-uio-6.12.101-ies2/fm10k_tlv.c:509-515 | nothing is found under an id nothing known was put under |
| `TlvLaws.RoundTrip` | hardware/reference/driver/fm10k-uio-6.12.101-ies2/fm10k_tlv.c:34-529 | build and parse: the last item of each known id stands whole at the position found |
| `TlvLaws.NestHolds` | hardware/reference/driver/fm10k-uio-6.12.101-ies2/fm10k_tlv.c:340-385 | a nest that stands is a message for its own items, so the round trip holds one level down |
| `TlvTrees.TreeReadsBack` | hardware/reference/driver/fm10k-uio-6.12.101-ies2/fm10k_tlv.c:34-529 | build, parse, get, at every depth: for each known id exactly what was last put under it is read, and nothing else |
| `TlvTrees.ItemReadsBack` | hardware/reference/driver/fm10k-uio-6.12.101-ies2/fm10k_tlv.c:84-385 | the getter of each kind, and for a nest the parser with its own schema, reads back what the put stored |
| `TlvTrees.BuildAndRead` | hardware/reference/driver/fm10k-uio-6.12.101-ies2/fm10k_tlv.c:13-529 | the same in one buffer |
| `TlvLaws.LargeIdsStop` | hardware/reference/driver/fm10k-uio-6.12.101-ies2/fm10k_tlv.c:506-507 | an id beyond the results array stops the parse |
| `TlvLaws.BuildAndParse` | hardware/reference/driver/fm10k-uio-6.12.101-ies2/fm10k_tlv.c:13-529 | the same in one buffer, written and parsed in place |
| `Counter48.ReadHalves` | hardware/reference/driver/fm10k-uio-6.12.101-ies2/fm10k_common.c:275-298 | the first attempt whose two high halves agree, with the low half read between them |
| `Counter48.ReadIsCurrent` | hardware/reference/driver/fm10k-uio-6.12.101-ies2/fm10k_common.c:275-298 | the value read is the count at the low read if the counter advances by at most 2^48 - 2^32 around it |
| `Counter48.BoundIsExact` | hardware/reference/driver/fm10k-uio-6.12.101-ies2/fm10k_common.c:275-298 | every accepted read is a value the counter had, for all advances up to d, if and only if d is at most 2^48 - 2^32 |
| `Counter48.MachineDeltaIs` | hardware/reference/driver/fm10k-uio-6.12.101-ies2/fm10k_common.c:292-295 | the mixed 32/64-bit subtraction is the difference modulo 2^48 |
| `Counter48.Delta32` | hardware/reference/driver/fm10k-uio-6.12.101-ies2/fm10k_common.c:253-263 | the 32-bit difference and base update are exact below 2^32 |
| `Counter48.Accumulate32` | hardware/reference/driver/fm10k-uio-6.12.101-ies2/fm10k_common.c:253-263 | over any run of 32-bit reads less than 2^32 apart the sum of deltas is the true increment modulo 2^64 |
| `Counter48.Statistic.Read` | hardware/reference/driver/fm10k-uio-6.12.101-ies2/fm10k_common.c:275-296 | the increment since the base modulo 2^48, for any rejected attempts and any distance between reads; nothing exactly while the loop is still running |
| `Counter48.Statistic.Account` | hardware/reference/driver/fm10k-uio-6.12.101-ies2/fm10k_common.c:306-317 | the base follows through every wrap of its halves |
| `Counter48.Accumulate` | hardware/reference/driver/fm10k-uio-6.12.101-ies2/fm10k_common.c:275-317 | over any run the sum of deltas is the true increment modulo 2^64, up to a count of the last round; every round is accounted exactly if every reading loop ended |
| `InternetChecksum.FoldingIsResidue` | backend/fm10k_controlpanel/ecn_lab.py:98-104 | folding is the residue modulo 65535, zero only for zero |
| `InternetChecksum.Compute` | backend/fm10k_controlpanel/ecn_lab.py:98-104 | the loops compute the checksum |
| `InternetChecksum.VerifiesIffMultiple` | scripts/verify_roce_ecn_capture.py:20-26 | data verify exactly when their sum is a positive multiple of 65535 |
| `InternetChecksum.SumOfField` | scripts/probe_roce_ce.py:113-119 | replacing a 16-bit field changes the sum by the difference |
| `InternetChecksum.FilledInVerifies` | backend/fm10k_controlpanel/ecn_lab.py:134-143 | data verify once their checksum is filled in, also as 0xFFFF for zero |
| `EcnCapture.Decode` | scripts/verify_roce_ecn_capture.py:29-64 | the tag loop and the checks decode exactly the accepted frames |
| `EcnCapture.PacketsAreDecoded` | scripts/verify_roce_ecn_capture.py:29-64 | every RoCEv2 packet over IPv4, put together field by field, is decoded to exactly its fields |
| `EcnCapture.DecodedArePackets` | scripts/verify_roce_ecn_capture.py:29-64 | and nothing else is accepted: whatever is decoded can be taken apart that way |
| `EcnCapture.MarkInPlace` | scripts/probe_roce_ce.py:113-119 | the rewrite on the probe's own copy |
| `EcnCapture.MarkingIsLocal` | scripts/probe_roce_ce.py:113-119 | only the ECN field and the header checksum change |
| `EcnCapture.MarkedHeaderVerifies` | scripts/probe_roce_ce.py:116-119 | the repaired header verifies |
| `EcnCapture.MarkedIsDecoded` | scripts/probe_roce_ce.py:113-119 | every accepted frame is accepted after the rewrite, with ECN 3, every other field and the bytes held unchanged as they were |
| `EcnProbe.ParseFrame` | backend/fm10k_controlpanel/ecn_lab.py:150-203 | the parser, tags taken off in a loop |
| `EcnProbe.ProbesAreFound` | backend/fm10k_controlpanel/ecn_lab.py:150-203 | whatever the frame, what is reported of a probe is what its bytes say: tags, addresses, key, traffic class, and each checksum verified or not |
| `EcnProbe.MarkedFramesAreProbes` | backend/fm10k_controlpanel/ecn_lab.py:150-203 | and every frame whose tags, headers and marker are in order is taken for one |
| `EcnProbe.UdpVerifies` | backend/fm10k_controlpanel/ecn_lab.py:139-143 | the datagram verifies under its pseudo-header and its checksum is never zero |
| `EcnProbe.PseudoHeadersAre` | backend/fm10k_controlpanel/ecn_lab.py:131-143 | the pseudo-headers of IPv4 and IPv6 |
| `EcnProbe.Header4Verifies` | backend/fm10k_controlpanel/ecn_lab.py:134-136 | the IPv4 header verifies |
| `EcnProbe.FramesReadBack` | backend/fm10k_controlpanel/ecn_lab.py:123-203 | making then parsing recovers every field with both checksums valid, for every payload, both families, tagged or not |
| `EcnProbe.KeptIgnoresEcn` | backend/fm10k_controlpanel/ecn_lab.py:164-184 | frames that differ only in ECN keep the same compared bytes |
| `EcnProbe.KeptAgrees` | backend/fm10k_controlpanel/ecn_lab.py:164-184 | the probe and the capture verifier compare the same bytes of an IPv4 frame |
| `EtsShares.SharesAddUp` | backend/fm10k_controlpanel/roce.py:29-30 | whole parts and remainders account for the whole quota |
| `EtsShares.ClassesAre` | backend/fm10k_controlpanel/roce.py:21-28 | all eight classes have a share, but for the last one under DSCP classification |
| `EtsShares.LeftoverFits` | backend/fm10k_controlpanel/roce.py:31-34 | what is left over is less than one percent per class |
| `EtsShares.Sort` | backend/fm10k_controlpanel/roce.py:32-32 | largest remainder first, lower class on ties, no class lost |
| `EtsShares.LuckyOnesFellShort` | backend/fm10k_controlpanel/roce.py:32-34 | only a class below its exact quota gets the extra percent |
| `EtsShares.ExtrasGoInOrder` | backend/fm10k_controlpanel/roce.py:32-34 | nobody gets the extra percent ahead of a class with a larger remainder, or an equal one and a lower number; with the sum of 100 this determines the result |
| `EtsShares.Policy` | backend/fm10k_controlpanel/roce.py:21-40 | for all positive weights: 100 in all, at least one on each class and none elsewhere, strictly within one of the exact quota, never less for a larger weight, and the leftover percent in the order of the remainders |
| `IovService.DoublingShifts` | hardware/reference/driver/fm10k-uio-6.12.101-ies2/fm10k_iov.c:181-181 | doubling the word moves every flag up by one |
| `IovService.ResetScan` | hardware/reference/driver/fm10k-uio-6.12.101-ies2/fm10k_iov.c:179-189 | exactly the functions whose flag is set are reset, each once |
| `IovService.Mailboxes.Pass` | hardware/reference/driver/fm10k-uio-6.12.101-ies2/fm10k_iov.c:226-259 | one pass continues the descending cycle, and stops exactly where the shared mailbox was found full |
| `IovService.Mailboxes.Serve` | hardware/reference/driver/fm10k-uio-6.12.101-ies2/fm10k_iov.c:225-271 | over any run the functions processed are a prefix of the endless cycle n-1..0; a second pass is made exactly after one that ran to the end from the middle, and a call stops early only at a full mailbox |
| `IovService.EveryoneGetsATurn` | hardware/reference/driver/fm10k-uio-6.12.101-ies2/fm10k_iov.c:218-224 | any n turns in a row serve every function |

## Left out

- The host: systemctl, dpkg, apt, tar, filesystem detail and health probes are single effects that can fail; digests are equality of contents, and versions are integers.
- `Updater.UpdateManager.Live`: a request that reaches the helper while a worker is still running is not among its schedules; between the worker's last reading and writing of state.json such a request can be overwritten.
- `UpgradeState.AdmittedStartSeesMatchedPair`: promises nothing over an open journal after the worker's own permission has leaked, because it is false there.
- `UpgradeState.ShownOutcomeIsTrue`: promises nothing about a job after one of the seven misleading saves has raised for it, because it is false there; so do the outcome clauses of `Upgrade` and `RunJob`, and the marker law.
- `ConfirmedCommit.Live`: after a save that raised, only the next start is among its schedules.
- The updater's cached packages, account-file digest and an unknown journal schema; the command-line first installation.
- The content of a configuration beyond groups, port enables and the fan curve is one opaque value; degraded ports are whole groups; port counters, the times in the step trace and its rollback entries are not modelled.
- The simulator's fan registers: its fan write decides which curve, if any, the controller follows; the native fan code is modelled register by register instead. The duty of manual control is not kept, only its end.
- `fm10k_fan_bootstrap`, the optical identity, power and diagnostic readers, tachometer arithmetic, and all formatting: no property here depends on them.
- Fan temperatures are real numbers; the reading of one sample is nondeterministic within the sensor's range. Error and sample counters of the monitor are not modelled.
- `nl_fm10k_fan_valid`, `nl_fm10k_group_valid` and the watchdog's policy check are in headers that are not part of this model; the ranges of models.py:188-198 and models.py:247-263 stand for them.
- The eye scan's phase and threshold commands, its error strings and the firmware loader; a job id that is reused; the page's text form (a page that does not fit is a failed request).
- `TlvParse.GetStruct`: excludes a length on record that is asked for and is not whole words; the source's loop does not end on it (`CopyEndsIff`).
- TLV items may claim words beyond the end of their message, but not beyond the buffer: reading there has no meaning in the source.
- `fm10k_tlv_msg_parse`: the dispatch to a message handler is a table lookup.
- Removed-device handling of the counter reads, and the queue-owner check around them.
- The mailbox loop's port resets and connection repairs, which do not affect the order; locking and RCU.
- `headroom_bytes`, `buffer_budget` and the applications of the DCBX policy: single expressions.
- `verify` of the capture script and its pcap reading; the probe's packet filter (the rewrite is proved for every frame the verifier accepts).
- Null-pointer and non-finite argument checks: references and numbers exist here by their types.
- Authentication, the Web front end, telemetry, the XML generator and the remaining scripts.
