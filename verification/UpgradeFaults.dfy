/**
 * Where the updater's promises end: what a raising write can still break, and
 * exactly when.  Each run below is a lawful history, effect by effect.
 */
module UpgradeFaults {
  import opened Common
  import opened UpgradeState
  import opened Updater

  /**
   * The gate keeps starts away from everything a repair or a switch passes
   * through exactly if the worker's permission has not leaked.
   */
  lemma GateShieldsRepairIff(w: World)
    requires Inv(w) && Working(w)
    requires w.disk.journal.Some? && w.disk.journal.value.phase in {Checkpointed, Switching}
    ensures (forall d :: Repairs(w.disk, d) && GateAdmits(w.(disk := d)) ==> Matched(d)) <==> !w.leaked
  {
    var broken := w.disk.(web := Broken);
    assert DurableFor(w.disk, w.disk.journal.value);
    assert Repairs(w.disk, broken) && !Matched(broken);
    assert w.leaked ==> GateAdmits(w.(disk := broken));
  }

  // ----- a host in the middle of an upgrade --------------------------------

  const OLD := Tree(1, 0)
  const NEW := Tree(2, 0)
  const BEFORE := Metadata(1, Package(1, 0))
  const AFTER := Metadata(2, Package(2, 0))
  const DIRS := Dirs(Some(0), Some(0), Some(0))
  const WORKER := Identity(2, 0, 0)
  const JOURNAL := Journal(Switching, BEFORE, OLD, 2, 7, Some(Digests(DIRS, OLD)), NEW, AFTER.package)

  function Host(disk: Disk, native: bool, web: bool, phase: JobPhase, commits: seq<Version>): World {
    World(disk, Services(DIRS, native, web),
          Processes(None, 0, map[2 := Process(0, false)], Some(WORKER), {WORKER}),
          JobState(phase, Some(2), Some(Job(7, 2, phase, BEFORE))), true,
          {7}, commits, false, false, false)
  }

  /** The new tree and package are in place. */
  function Swapped(installed: Metadata, journal: Journal): Disk {
    Disk(Some(NEW), Installed(AFTER.package), installed, Backup(Some(OLD), DIRS, Some(BEFORE.package)), Some(journal))
  }

  /** Nothing has been touched yet. */
  function Untouched(journal: Option<Journal>): Disk {
    Disk(Some(OLD), Installed(BEFORE.package), BEFORE, Backup(None, Dirs(None, None, None), None), journal)
  }

  /** A misleading save has raised. */
  function Misled(w: World): World {
    w.(raised := true, misled := true)
  }

  function Telling(w: World, phase: JobPhase): World {
    w.(state := Shown(w.state, phase))
  }

  /** After a misleading save anything may be shown, and the marker dropped. */
  lemma Tells(w: World, phase: JobPhase)
    requires Inv(w) && w.misled
    ensures var next := Telling(w, phase);
            && Inv(next) && Step(w, next) && Noted(w, next, Done)
            && Inv(next.(marker := false)) && Step(next, next.(marker := false))
  {
  }

  /** The state in which the save of the permission has raised, after replacing the file. */
  function Leaked(w: World): World {
    w.(procs := w.procs.(permission := Some(WORKER)), leaked := true, raised := true)
  }

  lemma PermissionLeaks()
    ensures var w0 := Host(Swapped(BEFORE, JOURNAL), false, false, Restarting, [1]);
            Inv(w0) && Inv(Leaked(w0)) && Step(w0, Leaked(w0)) && Permits(w0, Leaked(w0), Raised, true)
  {
    var w0 := Host(Swapped(BEFORE, JOURNAL), false, false, Restarting, [1]);
    assert DurableFor(w0.disk, JOURNAL);
  }

  /**
   * The permission file is replaced and then its save raises: the rollback
   * that follows moves the native tree away while the gate admits a start.
   */
  lemma LeakAdmitsMissingTree()
    ensures var w0 := Host(Swapped(BEFORE, JOURNAL), false, false, Restarting, [1]);
            var w1 := Leaked(w0);
            var w2 := Telling(w1, RollingBack);
            var w3 := w2.(disk := w2.disk.(native := None));
            && IsRun([w0, w1, w2, w3])
            && Permits(w0, w1, Raised, true) && Noted(w1, w2, Done) && Kept(w2, w3, Done)
            && GateAdmits(w3) && !Quiet(w3.disk) && w3.disk.native.None?
  {
    var w1 := Leaked(Host(Swapped(BEFORE, JOURNAL), false, false, Restarting, [1]));
    var w2 := Telling(w1, RollingBack);
    PermissionLeaks();
    BusyAgrees(w1, RollingBack);
    NotingIsHarmless(w1, RollingBack);
    RepairIsHarmless(w2, w2.disk.(native := None), w2.services.dirs);
    hide Inv, Step, Permits;
  }

  // ----- misleading saves, one by one --------------------------------------

  /** The save of the commit raises, with or without having happened. */
  function Uncertain(w: World, saved: bool): World {
    Misled(if saved then Journaled(w, JOURNAL.(phase := Committed)) else w)
  }

  lemma CommitRaises(saved: bool)
    ensures var w0 := Host(Swapped(AFTER, JOURNAL), true, true, Restarting, [1]);
            Inv(w0) && Inv(Uncertain(w0, saved)) && Step(w0, Uncertain(w0, saved)) && Moved(w0, Uncertain(w0, saved), Raised)
  {
    var w0 := Host(Swapped(AFTER, JOURNAL), true, true, Restarting, [1]);
    assert DurableFor(w0.disk, JOURNAL);
    CommittingIsHarmless(w0, JOURNAL.(phase := Committed));
  }

  /**
   * The commit is saved, or not, and its save raises: the handler shows
   * "rolled back" over the new release and drops the marker, with the journal
   * still open if it was not saved.
   */
  lemma RaisedCommitMisleads(saved: bool)
    ensures var w0 := Host(Swapped(AFTER, JOURNAL), true, true, Restarting, [1]);
            var w1 := Uncertain(w0, saved);
            var w2 := Telling(w1, RollingBack);
            var w3 := Telling(w2, JobRolledBack);
            var w4 := w3.(marker := false);
            && IsRun([w0, w1, w2, w3, w4])
            && Moved(w0, w1, Raised) && Noted(w1, w2, Done) && Noted(w2, w3, Done)
            && w4.state.job.value.phase == JobRolledBack && w4.disk.installed.version == w4.state.job.value.version
            && (Quiet(w4.disk) <==> saved)
  {
    var w1 := Uncertain(Host(Swapped(AFTER, JOURNAL), true, true, Restarting, [1]), saved);
    hide Inv, Step, Moved, Noted;
    CommitRaises(saved);
    Tells(w1, RollingBack);
    Tells(Telling(w1, RollingBack), JobRolledBack);
  }

  /** Recording the success raises: the job is shown failed over the new release. */
  lemma RaisedSuccessMisleads(saved: bool)
    ensures var w0 := Host(Swapped(AFTER, JOURNAL.(phase := Committed)), true, true, Restarting, [1, 2]);
            var w1 := Misled(if saved then Telling(w0, JobSucceeded) else w0);
            var w2 := Telling(w1, JobFailed);
            && IsRun([w0, w1, w2])
            && Noted(w0, w1, Raised) && Noted(w1, w2, Done)
            && w2.state.job.value.phase == JobFailed && w2.disk.installed.version == w2.state.job.value.version
  {
    var w0 := Host(Swapped(AFTER, JOURNAL.(phase := Committed)), true, true, Restarting, [1, 2]);
    assert DurableFor(w0.disk, w0.disk.journal.value);
    var w1 := Misled(if saved then Telling(w0, JobSucceeded) else w0);
    assert Inv(w0) && Inv(w1) && Step(w0, w1);
    Tells(w1, JobFailed);
  }

  /** So does the save that consumes the candidate of a job already shown succeeded. */
  lemma RaisedCandidateMisleads(saved: bool)
    ensures var w0 := Host(Swapped(AFTER, JOURNAL.(phase := Committed)), true, true, JobSucceeded, [1, 2]);
            var w1 := Misled(if saved then w0.(state := w0.state.(candidate := None)) else w0);
            var w2 := Telling(w1, JobFailed);
            && IsRun([w0, w1, w2])
            && Noted(w0, w1, Raised) && Noted(w1, w2, Done)
            && w2.state.job.value.phase == JobFailed && w2.disk.installed.version == w2.state.job.value.version
  {
    var w0 := Host(Swapped(AFTER, JOURNAL.(phase := Committed)), true, true, JobSucceeded, [1, 2]);
    assert DurableFor(w0.disk, w0.disk.journal.value);
    var w1 := Misled(if saved then w0.(state := w0.state.(candidate := None)) else w0);
    assert Inv(w0) && Inv(w1) && Step(w0, w1);
    Tells(w1, JobFailed);
  }

  /**
   * Saving the progress "rolling back" raises in the handler and no rollback is
   * tried; or the rollback has failed and saving "recovery required" raises.
   * The job is shown failed, without the marker, over an open journal.
   */
  lemma RaisedHandlerMisleads(phase: JobPhase)
    requires phase in {Restarting, RollingBack}
    ensures var w0 := Host(Swapped(BEFORE, JOURNAL), true, true, phase, [1]).(raised := true);
            var w1 := Misled(w0);
            var w2 := Telling(w1, JobFailed);
            var w3 := w2.(marker := false);
            && IsRun([w0, w1, w2, w3])
            && Noted(w0, w1, Raised) && Noted(w1, w2, Done)
            && w3.state.job.value.phase == JobFailed && !Quiet(w3.disk) && !AllOld(w3.disk, JOURNAL)
  {
    var w0 := Host(Swapped(BEFORE, JOURNAL), true, true, phase, [1]).(raised := true);
    assert DurableFor(w0.disk, JOURNAL);
    assert Inv(w0);
    Tells(Misled(w0), JobFailed);
  }

  const INTENT := JOURNAL.(phase := Stopping, digests := None)

  lemma IntentRaises()
    ensures var w0 := Host(Untouched(None), true, false, Installing, [1]);
            var w1 := Misled(Journaled(w0, INTENT));
            && Inv(w0) && Inv(w1) && Step(w0, w1) && Moved(w0, w1, Raised)
            && Inv(Running(w1, true, true)) && Step(w1, Running(w1, true, true))
  {
    var w0 := Host(Untouched(None), true, false, Installing, [1]);
    assert WellFormed(INTENT);
    assert Inv(w0);
    RunningIsHarmless(Misled(Journaled(w0, INTENT)), true, true);
  }

  /**
   * The intent is journaled, with the panel stopped, and its save raises: the
   * panel is started again and nothing was touched, but the job is shown failed
   * and the marker dropped over an open journal.
   */
  lemma RaisedIntentMisleads()
    ensures var w0 := Host(Untouched(None), true, false, Installing, [1]);
            var w1 := Misled(Journaled(w0, INTENT));
            var w2 := Running(w1, true, true);
            var w3 := Telling(w2, JobFailed);
            var w4 := w3.(marker := false);
            && IsRun([w0, w1, w2, w3, w4])
            && Moved(w0, w1, Raised) && Noted(w2, w3, Done)
            && w4.state.job.value.phase == JobFailed && AllOld(w4.disk, INTENT) && !Quiet(w4.disk)
  {
    hide Inv, Step, Moved, Noted;
    IntentRaises();
    Tells(Running(Misled(Journaled(Host(Untouched(None), true, false, Installing, [1]), INTENT)), true, true), JobFailed);
  }

  /**
   * The checkpoint has failed and journaling "aborted" raises, without having
   * happened: the journal stays open, the services stay down, and the job is
   * shown failed without the marker.
   */
  lemma RaisedAbortMisleads()
    ensures var w0 := Host(Untouched(Some(INTENT)), false, false, Installing, [1]).(raised := true);
            var w1 := Misled(w0);
            var w2 := Telling(w1, JobFailed);
            var w3 := w2.(marker := false);
            && IsRun([w0, w1, w2, w3])
            && Moved(w0, w1, Raised) && Noted(w1, w2, Done)
            && w3.state.job.value.phase == JobFailed && AllOld(w3.disk, INTENT) && !Quiet(w3.disk) && Stopped(w3)
  {
    var w0 := Host(Untouched(Some(INTENT)), false, false, Installing, [1]).(raised := true);
    assert DurableFor(w0.disk, INTENT);
    assert Inv(w0);
    Tells(Misled(w0), JobFailed);
  }
}
