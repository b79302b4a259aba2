/**
 * The update worker: upgrade, rollback, recovery and job bookkeeping, run on a
 * host where every effect can complete, raise or be the last thing the process
 * does, and where other processes move between any two effects.
 */
module Updater {
  import opened Common
  import opened UpgradeState

  datatype DirName = Etc | NativeState | WebState

  function Get(d: Dirs, k: DirName): Option<int> {
    match k case Etc => d.etc case NativeState => d.native case WebState => d.web
  }

  function Set(d: Dirs, k: DirName, v: Option<int>): Dirs {
    match k case Etc => d.(etc := v) case NativeState => d.(native := v) case WebState => d.(web := v)
  }

  function Flag(w: World, o: Outcome, misleads: bool): World {
    if o.Raised? then w.(raised := true, misled := w.misled || misleads) else w
  }

  lemma FlagIsHarmless(w: World, o: Outcome, misleads: bool)
    requires Inv(w)
    ensures Inv(Flag(w, o, misleads)) && Step(w, Flag(w, o, misleads))
  {
  }

  function Running(w: World, native: bool, web: bool): World {
    w.(services := w.services.(native := native, web := web))
  }

  /** Outside its permission block: the file names the running worker exactly
      if a permission has leaked. */
  predicate Working(w: World) {
    w.procs.worker.Some? && (w.leaked <==> w.procs.permission == w.procs.worker)
  }

  /** Nothing runs that could write the state directories. */
  predicate Stopped(w: World) {
    !w.services.native && !w.services.web
  }

  /** Under the marker the gate is closed and nothing runs, so only the worker can change what
      rollback and checkpoint work on; a leaked permission keeps it open. */
  predicate Shielded(w: World) {
    Working(w) && (w.leaked || Stopped(w)) && !Quiet(w.disk) && w.marker
  }

  /** The services have not moved, while the gate was closed. */
  predicate Resting(a: World, b: World) {
    b.leaked || b.services == a.services
  }

  predicate Flagged(a: World, b: World, o: Outcome) {
    && (a.raised ==> b.raised) && (a.misled ==> b.misled)
    && (o.Raised? ==> b.raised)
    && (o.Done? ==> b.raised == a.raised && b.misled == a.misled)
  }

  /** Not every exception is the fault of an effect: some the program raises
      itself. */
  function Unblamed(o: Outcome): Outcome {
    if o.Raised? then Died else o
  }

  /** A checkpoint could not be taken: a directory is missing. */
  predicate Unfit(w: World) {
    && w.disk.journal.Some? && w.disk.journal.value.phase == Stopping
    && Stopped(w) && !Complete(w.services.dirs)
  }

  /** The new release runs, and its configuration is, or is not, the one of
      the checkpoint. */
  predicate Compared(w: World, same: bool) {
    && w.disk.journal.Some? && w.disk.journal.value.phase == Switching
    && w.services.native && w.services.web
    && w.disk.journal.value.digests.Some?
    && (w.services.dirs.etc == w.disk.journal.value.digests.value.dirs.etc) == same
  }

  /** Since then the panel has shown this phase. */
  ghost predicate Showed(h: seq<World>, from: nat, phase: JobPhase) {
    exists i :: from <= i < |h| && h[i].state.phase == phase
  }

  lemma ShowedStays(h: seq<World>, b: nat, phase: JobPhase, longer: seq<World>, a: nat)
    requires Showed(h, b, phase) && h <= longer && a <= b
    ensures Showed(longer, a, phase)
  {
    var i :| b <= i < |h| && h[i].state.phase == phase;
    assert longer[i].state.phase == phase;
  }

  ghost predicate Seen(h: seq<World>, from: nat, same: bool) {
    exists i :: from <= i < |h| && Compared(h[i], same)
  }

  /** The causes, other than a failing effect, for which a newer release is
      not installed. */
  ghost predicate Hindered(h: seq<World>, from: nat) {
    Seen(h, from, false) || exists i :: from <= i < |h| && Unfit(h[i])
  }

  /** How a job stands whose upgrade was cut short at this point. */
  function Verdict(phase: Phase): JobPhase {
    match phase
    case Committed => JobSucceeded
    case Aborted => JobFailed
    case _ => JobRolledBack
  }

  /** How a worker leaves a job: maintenance goes on if recovery is required,
      and else the job has its result and the marker is gone. */
  predicate Told(w: World) {
    if w.state.phase == RecoveryRequired then w.marker else !w.marker && !Busy(w.state.phase)
  }

  lemma HindranceStays(h: seq<World>, from: nat, longer: seq<World>, earlier: nat)
    requires Hindered(h, from) && h <= longer && earlier <= from
    ensures Hindered(longer, earlier)
  {
    if Seen(h, from, false) {
      var i :| from <= i < |h| && Compared(h[i], false);
      assert Compared(longer[i], false);
    } else {
      var i :| from <= i < |h| && Unfit(h[i]);
      assert Unfit(longer[i]);
    }
  }

  predicate SameWorker(a: Processes, b: Processes) {
    b == a.(live := b.live, used := b.used)
  }

  /** Nothing but processes and the flags has moved. */
  predicate Still(a: World, b: World, o: Outcome) {
    && b == a.(services := b.services, procs := b.procs, raised := b.raised, misled := b.misled)
    && Resting(a, b)
    && SameWorker(a.procs, b.procs)
    && Flagged(a, b, o)
  }

  /** After an effect with outcome `o` the host has drifted: services may have
      moved, but not past a closed gate. */
  predicate Drifted(a: World, b: World, o: Outcome, misleads: bool) {
    && b == a.(services := b.services, procs := b.procs, raised := b.raised, misled := b.misled)
    && (a.services.native ==> b.services.native) && a.services.web == b.services.web
    && SameWorker(a.procs, b.procs)
    && Flagged(a, b, o)
    && (if misleads then o.Raised? ==> b.misled else b.misled == a.misled)
    && (!o.Raised? ==> b.raised == a.raised)
    && (Shielded(a) ==> Resting(a, b))
  }

  lemma DriftingIs(a: World, b: World, o: Outcome, misleads: bool)
    requires Inv(a) && Drift(Flag(a, o, misleads), b)
    ensures Drifted(a, b, o, misleads)
  {
    if Shielded(a) && !a.leaked {
      assert !Granted(a.procs);
      assert b.services.dirs == a.services.dirs;
    }
  }

  /** Services may have started or written, and nothing else has moved. */
  predicate Served(a: World, b: World, o: Outcome) {
    && b == a.(services := b.services, procs := b.procs, raised := b.raised)
    && SameWorker(a.procs, b.procs)
    && (a.services.native ==> b.services.native)
    && (a.services.web ==> b.services.web)
    && Flagged(a, b, o)
  }

  /** The permission file has been written or unlinked, or has not. */
  predicate Permits(a: World, b: World, o: Outcome, give: bool) {
    && b == a.(services := b.services, procs := b.procs, leaked := b.leaked, raised := b.raised)
    && SameWorker(a.procs.(permission := b.procs.permission), b.procs)
    && (a.services.native ==> b.services.native) && (a.services.web ==> b.services.web)
    && Flagged(a, b, o)
    && b.procs.permission in {a.procs.permission, if give then a.procs.worker else None}
    && (o.Done? ==> b.procs.permission == (if give then a.procs.worker else None) && b.leaked == (give && a.leaked))
    && (o.Raised? ==> (b.leaked <==> b.procs.permission == b.procs.worker))
  }

  function Permitted(w: World, give: bool, happens: bool, o: Outcome): World {
    var file := if !happens then w.procs.permission else if give then w.procs.worker else None;
    w.(procs := w.procs.(permission := file), raised := w.raised || o.Raised?,
       leaked := if o.Raised? then file == w.procs.worker else w.leaked && (give || !happens))
  }

  lemma PermittingIsHarmless(w: World, give: bool, happens: bool, o: Outcome)
    requires Inv(w) && w.procs.worker.Some? && (w.leaked ==> Working(w))
    requires give ==> Shielded(w) && Matched(w.disk) && (w.leaked || AtCheckpoint(w.disk, w.services.dirs))
    ensures Inv(Permitted(w, give, happens, o)) && Step(w, Permitted(w, give, happens, o))
    ensures happens || !o.Done? ==>
              forall b :: Drifted(Permitted(w, give, happens, o), b, o, false) ==> Permits(w, b, o, give)
  {
  }

  /** Only state.json has been written. */
  predicate Noted(a: World, b: World, o: Outcome) {
    && b == a.(state := b.state, services := b.services, procs := b.procs,
               raised := b.raised, misled := b.misled)
    && (a.services.native ==> b.services.native) && (a.services.web ==> b.services.web)
    && SameWorker(a.procs, b.procs)
    && Flagged(a, b, o)
  }

  /** progress(): the phase goes to state.json and to its job. */
  function Shown(s: JobState, phase: JobPhase): JobState {
    s.(phase := phase, job := if s.job.Some? then Some(s.job.value.(phase := phase)) else None)
  }

  lemma BusyAgrees(w: World, phase: JobPhase)
    requires Inv(w) && !w.misled && (w.state.job.Some? || !Quiet(w.disk))
    requires Busy(phase) && phase != Queued
    ensures Agree(w.disk, Shown(w.state, phase)) && w.state.job.Some?
    ensures !Quiet(w.disk) ==> Owns(w.disk, w.state)
  {
  }

  lemma BusyHasJob(w: World)
    requires Inv(w)
    ensures !w.misled && Busy(w.state.phase) ==> w.state.job.Some?
  {
  }

  lemma BackedOutAgrees(w: World)
    requires Inv(w) && !w.misled && w.state.phase == RollingBack && w.state.job.Some?
    requires w.disk.journal.Some? && w.disk.journal.value.phase == RolledBack
    requires Owns(w.disk, w.state)
    ensures Agree(w.disk, Shown(w.state, JobRolledBack))
  {
  }

  lemma NotingIsHarmless(w: World, phase: JobPhase)
    requires Inv(w) && (w.misled || Agree(w.disk, Shown(w.state, phase)))
    ensures var next := w.(state := Shown(w.state, phase));
            Inv(next) && Step(w, next)
  {
  }

  /** Commits, directories and processes aside, only the disk has changed. */
  predicate Moved(a: World, b: World, o: Outcome) {
    && b == a.(disk := b.disk, services := b.services, procs := b.procs, commits := b.commits,
               raised := b.raised, misled := b.misled)
    && (a.services.native ==> b.services.native) && (a.services.web ==> b.services.web)
    && SameWorker(a.procs, b.procs)
    && Flagged(a, b, o)
  }

  /** Repairs touch the trees, the package, the installation record and the
      state directories. */
  predicate Kept(a: World, b: World, o: Outcome) {
    && b == a.(disk := b.disk, services := b.services, procs := b.procs, raised := b.raised)
    && b.disk == a.disk.(native := b.disk.native, web := b.disk.web, installed := b.disk.installed)
    && (b.leaked || b.services == a.services.(dirs := b.services.dirs))
    && SameWorker(a.procs, b.procs)
    && Flagged(a, b, o)
  }

  /** An admissible intermediate state of a repair or a switch. */
  predicate Repairs(a: Disk, b: Disk) {
    && a.journal.Some? && a.journal.value.phase in {Checkpointed, Switching}
    && b == a.(native := b.native, web := b.web, installed := b.installed)
    && NativeRecoverable(b, b.journal.value)
    && (b.journal.value.phase == Checkpointed ==> b.installed == b.journal.value.before)
  }

  lemma RepairIsHarmless(a: World, b: Disk, dirs: Dirs)
    requires Inv(a) && Shielded(a) && Repairs(a.disk, b)
    ensures var next := a.(disk := b, services := a.services.(dirs := dirs));
            Inv(next) && Step(a, next) && Shielded(next)
  {
  }

  lemma RunningIsHarmless(w: World, native: bool, web: bool)
    requires Inv(w) && w.procs.worker.Some?
    requires Working(w) || ((w.services.native ==> native) && (web && !w.services.web ==> native))
    requires native && !w.services.native ==> GateAdmits(w)
    ensures Inv(Running(w, native, web)) && Step(w, Running(w, native, web))
  {
  }

  /** The journal moves on to `t`; everything else stays. */
  function Journaled(w: World, t: Journal): World {
    w.(disk := w.disk.(journal := Some(t)),
       commits := if t.phase == Committed then w.commits + [t.target] else w.commits)
  }

  lemma OpeningIsHarmless(w: World, t: Journal)
    requires Inv(w) && w.marker && Working(w) && Quiet(w.disk)
    requires t.phase == Stopping && AllOld(w.disk, t) && t.before.version < t.target == t.staged.version == t.package.version
    requires t.jobId in w.jobs && (w.misled || ForJob(w, t.target, t.jobId))
    ensures Inv(Journaled(w, t)) && Step(w, Journaled(w, t))
  {
    Settled(w);
  }

  lemma Settled(w: World)
    requires Inv(w) && Quiet(w.disk)
    ensures Consistent(w.disk)
  {
    if w.disk.journal.Some? {
      assert DurableFor(w.disk, w.disk.journal.value);
    }
  }

  /** state.json shows a busy job for this release, with nothing journaled. */
  predicate ForJob(w: World, version: Version, jobId: int) {
    && Busy(w.state.phase) && w.state.job.Some? && w.state.job.value.id == jobId
    && w.state.job.value.version == version
    && !Owns(w.disk, w.state)
  }

  lemma FillingIsHarmless(w: World, backup: Backup)
    requires Inv(w) && w.marker && (Quiet(w.disk) || w.disk.journal.value.phase == Stopping)
    ensures var next := w.(disk := w.disk.(backup := backup));
            Inv(next) && Step(w, next)
  {
  }

  lemma CheckpointingIsHarmless(w: World, t: Journal)
    requires Inv(w) && Shielded(w) && AllOld(w.disk, t) && w.disk.journal.value.phase == Stopping
    requires w.disk.journal.value == t.(phase := Stopping, digests := None)
    requires t.phase == Checkpointed && CheckpointHolds(w.disk, t) && w.disk.backup.native == None
    ensures Inv(Journaled(w, t)) && Step(w, Journaled(w, t))
  {
  }

  lemma SwitchingIsHarmless(w: World, t: Journal)
    requires Inv(w) && Shielded(w) && Repairing(w.disk, t)
    requires t.phase == Switching
    ensures Inv(Journaled(w, t)) && Step(w, Journaled(w, t))
  {
  }

  lemma CommittingIsHarmless(w: World, t: Journal)
    requires Inv(w) && w.marker && Working(w) && Carries(w.disk, t) && !Quiet(w.disk)
    requires t.phase == Committed && AllNew(w.disk, t)
    ensures Inv(Journaled(w, t)) && Step(w, Journaled(w, t))
  {
  }

  lemma ClosingIsHarmless(w: World, t: Journal, phase: Phase)
    requires Inv(w) && w.marker && !Quiet(w.disk) && AllOld(w.disk, t) && phase in {RolledBack, Aborted}
    requires w.disk.journal.value == t.(phase := w.disk.journal.value.phase, digests := w.disk.journal.value.digests)
    ensures var next := w.(disk := w.disk.(journal := Some(t.(phase := phase))));
            Inv(next) && Step(w, next)
  {
  }

  /** `t` is the in-memory copy of the journal: only its phase may be ahead. */
  predicate Carries(d: Disk, t: Journal) {
    d.journal.Some? && d.journal.value == t.(phase := d.journal.value.phase)
  }

  /** The release is new, but its commit was saved or not: the save raised. */
  predicate Unconfirmed(w: World, t: Journal) {
    w.misled && Carries(w.disk, t) && AllNew(w.disk, t)
  }

  lemma NewIsNotOld(w: World, t: Journal)
    requires Inv(w) && Unconfirmed(w, t)
    ensures !AllOld(w.disk, t)
  {
    assert DurableFor(w.disk, w.disk.journal.value);
  }

  predicate Repairing(d: Disk, t: Journal) {
    && Carries(d, t)
    && d.journal.value.phase in {Checkpointed, Switching}
    && t.phase in {Checkpointed, Switching}
    && (t.phase == Switching ==> d.backup.native.Some?)
  }

  /** What a rollback finds in the checkpoint, and may do about it. */
  lemma CheckpointIs(w: World, t: Journal)
    requires Inv(w) && Repairing(w.disk, t)
    ensures t.digests.Some? && t.digests.value.native == t.origin
    ensures CheckpointHolds(w.disk, t)
    ensures w.disk.backup.native.Some? ==>
              w.disk.backup.native.value == t.origin && forall n :: Repairs(w.disk, w.disk.(native := n))
    ensures w.disk.backup.native.None? ==> t.phase == Checkpointed && w.disk.native == Some(t.origin)
    ensures Repairs(w.disk, w.disk)
  {
    assert DurableFor(w.disk, w.disk.journal.value);
  }

  /** A history of the host: sound states, lawful steps. */
  ghost predicate IsRun(h: seq<World>) {
    && (forall s <- h :: Inv(s))
    && (forall i :: 0 < i < |h| ==> Step(h[i - 1], h[i]))
  }

  /** Over a whole run nothing is uncommitted, and each commit is newer than
      every release installed before it. */
  lemma {:induction false} CommitsIncrease(h: seq<World>, i: nat, k: nat)
    requires IsRun(h) && i < k < |h|
    ensures h[i].commits <= h[k].commits && h[i].commits != []
    ensures h[i].commits != h[k].commits ==>
              h[i].commits[|h[i].commits| - 1] < h[k].commits[|h[k].commits| - 1]
  {
    if i < k - 1 {
      CommitsIncrease(h, i, k - 1);
    }
    assert Inv(h[i]) && Inv(h[k]) && Step(h[k - 1], h[k]);
  }

  /** What can happen on a host between worker runs, and a worker run. */
  datatype Act =
    | Waits
    | Checks(latest: Option<Version>)
    | Installs(version: Version, recent: bool, id: int)
    | Boots(boot: int, cleared: bool, panel: bool)
    | Works(pid: int, ticks: int)

  /** What is checked or fetched on the way to a commit, without changing anything durable. */
  datatype Check =
    | Downloaded | BundleVerified | Admitted | Staged | ConfigurationRead | PointerUnchanged
    | Healthy | AccountsUnchanged | TreeCopied | PackageUnpacked

  /** This has been done since then. */
  ghost predicate Did(p: seq<Check>, from: nat, c: Check) {
    exists i :: from <= i < |p| && p[i] == c
  }

  /** What a commit rests on: the pointer to the running configuration did not
      move, the services were found healthy and the accounts unchanged ... */
  ghost predicate ExchangeChecked(p: seq<Check>, from: nat) {
    Did(p, from, PointerUnchanged) && Did(p, from, Healthy) && Did(p, from, AccountsUnchanged)
  }

  /** ... the configuration was read with the panel quiet ... */
  ghost predicate SwapChecked(p: seq<Check>, from: nat) {
    Did(p, from, ConfigurationRead) && ExchangeChecked(p, from)
  }

  /** ... and the bundle was verified, admitted and staged. */
  ghost predicate Checked(p: seq<Check>, from: nat) {
    && Did(p, from, BundleVerified) && Did(p, from, Admitted) && Did(p, from, Staged)
    && SwapChecked(p, from)
  }

  /** What was done stays done, and was done since any earlier point too. */
  lemma ChecksStay(p: seq<Check>, b: nat, longer: seq<Check>, a: nat)
    requires p <= longer && a <= b
    ensures forall c :: Did(p, b, c) ==> Did(longer, a, c)
    ensures ExchangeChecked(p, b) ==> ExchangeChecked(longer, a)
    ensures SwapChecked(p, b) ==> SwapChecked(longer, a)
    ensures Checked(p, b) ==> Checked(longer, a)
  {
    forall c | Did(p, b, c)
      ensures Did(longer, a, c)
    {
      var i :| b <= i < |p| && p[i] == c;
      assert longer[i] == c;
    }
  }

  class UpdateManager {
    /** On this host services can always be started and stopped, and the files
        that say how a job stands, state.json and the marker, written; only used
        to say what a handler must do. */
    const steady: bool
    var w: World
    ghost var history: seq<World>
    ghost var passed: seq<Check>  // so far

    ghost predicate Valid()
      reads this
    {
      history != [] && history[|history| - 1] == w && Inv(w) && IsRun(history)
    }

    constructor (initial: World, steady: bool)
      requires Inv(initial)
      ensures Valid() && w == initial && history == [initial] && this.steady == steady
    {
      this.steady := steady;
      w := initial;
      history, passed := [initial], [];
    }

    // ----- effects -------------------------------------------------------

    method Become(next: World)
      requires Valid() && Inv(next) && Step(w, next)
      modifies this
      ensures Valid() && w == next && old(history) <= history && old(passed) <= passed
    {
      w := next;
      history := history + [next];
    }

    method Elapse()
      requires Valid()
      modifies this
      ensures Valid() && old(history) <= history && old(passed) <= passed && Drift(old(w), w)
    {
      StandingStill(w);
      var next: World := *;
      if Drift(w, next) {
        DriftIsHarmless(w, next);
        Become(next);
      }
    }

    /** The outcome is known; other processes move. */
    method Report(o: Outcome, misleads: bool)
      requires Valid()
      modifies this
      ensures Valid() && old(history) <= history && old(passed) <= passed
      ensures Drifted(old(w), w, o, misleads)
    {
      ghost var before := w;
      FlagIsHarmless(w, o, misleads);
      Become(Flag(w, o, misleads));
      Elapse();
      DriftingIs(before, w, o, misleads);
    }

    /** A call that changes nothing durable. */
    method Attempt(ghost check: Check) returns (o: Outcome)
      requires Valid()
      modifies this
      ensures Valid() && old(history) <= history && old(passed) <= passed
      ensures o.Done? ==> Did(passed, |old(passed)|, check)
      ensures w.services.web == old(w).services.web
      ensures Served(old(w), w, o)
      ensures Shielded(old(w)) ==> Still(old(w), w, o)
    {
      o := *;
      Report(o, false);
      if o.Done? {
        passed := passed + [check];
        assert passed[|passed| - 1] == check;
      }
    }

    /** An atomic change: when it does not complete it has happened or not.
        `misleads` marks the saves after which, should they raise, the worker
        goes on to tell a wrong story. */
    method Change(next: World, misleads: bool) returns (o: Outcome)
      requires Valid() && Inv(next) && Step(w, next)
      modifies this
      ensures Valid() && old(history) <= history && old(passed) <= passed
      ensures Drifted(next, w, o, misleads) || (!o.Done? && Drifted(old(w), w, o, misleads))
    {
      o := *;
      var happens: bool := *;
      if o.Done? || happens {
        Become(next);
      }
      Report(o, misleads);
    }

    /** The same for a file that a steady host can always write. */
    method Save(next: World, misleads: bool) returns (o: Outcome)
      requires Valid() && Inv(next) && Step(w, next)
      modifies this
      ensures Valid() && old(history) <= history && old(passed) <= passed
      ensures Drifted(next, w, o, misleads) || (!o.Done? && Drifted(old(w), w, o, misleads))
      ensures steady ==> !o.Raised?
    {
      if !steady {
        o := Change(next, misleads);
        return;
      }
      o := Done;
      var dies: bool, happens: bool := *, *;
      if dies {
        o := Died;
      }
      if !dies || happens {
        Become(next);
      }
      Report(o, misleads);
    }

    /** The same while the host is shielded: repair of the disk or of the
        state directories. */
    method Repair(disk: Disk, dirs: Dirs) returns (o: Outcome)
      requires Valid() && Shielded(w) && Repairs(w.disk, disk)
      modifies this
      ensures Valid() && old(history) <= history && old(passed) <= passed
      ensures Kept(old(w), w, o)
      ensures (w.disk == disk && (w.leaked || w.services.dirs == dirs)) ||
              (!o.Done? && w.disk == old(w).disk && (w.leaked || w.services.dirs == old(w).services.dirs))
    {
      RepairIsHarmless(w, disk, dirs);
      hide Inv, Step, IsRun, Repairs;
      o := Change(w.(disk := disk, services := w.services.(dirs := dirs)), false);
    }

    method RepairDisk(disk: Disk) returns (o: Outcome)
      requires Valid() && Shielded(w) && Repairs(w.disk, disk)
      modifies this
      ensures Valid() && old(history) <= history && old(passed) <= passed
      ensures Kept(old(w), w, o) && Resting(old(w), w)
      ensures w.disk == disk || (!o.Done? && w.disk == old(w).disk)
    {
      o := Repair(disk, w.services.dirs);
    }

    /** A directory is renamed into place: nothing may be there. */
    method PlaceNative(tree: Tree) returns (o: Outcome)
      requires Valid() && Shielded(w) && w.disk.native.None? && Repairs(w.disk, w.disk.(native := Some(tree)))
      modifies this
      ensures Valid() && old(history) <= history && old(passed) <= passed
      ensures Kept(old(w), w, o) && Resting(old(w), w)
      ensures w.disk == old(w).disk.(native := Some(tree)) || (!o.Done? && w.disk == old(w).disk)
    {
      o := RepairDisk(w.disk.(native := Some(tree)));
    }

    // ----- services ------------------------------------------------------

    method SetRunning(native: bool, web: bool, o: Outcome)
      requires Valid() && w.procs.worker.Some?
      requires Working(w) || ((w.services.native ==> native) && (web && !w.services.web ==> native))
      requires native && !w.services.native ==> GateAdmits(w)
      modifies this
      ensures Valid() && old(history) <= history && old(passed) <= passed
      ensures Drifted(Running(old(w), native, web), w, o, false)
    {
      RunningIsHarmless(w, native, web);
      Become(Running(w, native, web));
      Report(o, false);
    }

    /** systemctl stop: everything stops, or part of it. */
    method StopServices() returns (o: Outcome)
      requires Valid() && Working(w)
      modifies this
      ensures Valid() && old(history) <= history && old(passed) <= passed
      ensures w == old(w).(services := w.services, procs := w.procs, raised := w.raised)
      ensures SameWorker(old(w).procs, w.procs) && Flagged(old(w), w, o)
      ensures o.Done? && !Quiet(w.disk) && w.marker ==> Shielded(w)
    {
      o := *;
      var native: bool, web: bool := false, false;
      if !o.Done? {
        native, web := *, *;
      }
      SetRunning(w.services.native && native, w.services.web && web, o);
    }

    method SetPanel(run: bool) returns (o: Outcome)
      requires Valid() && Working(w)
      modifies this
      ensures Valid() && old(history) <= history && old(passed) <= passed
      ensures o.Done? ==> w.services.web == run
      ensures steady ==> !o.Raised?
      ensures w == old(w).(services := w.services, procs := w.procs, raised := w.raised)
      ensures SameWorker(old(w).procs, w.procs) && Flagged(old(w), w, o)
    {
      o := *;
      if steady && o.Raised? {
        o := Died;
      }
      var works: bool := *;
      SetRunning(w.services.native, if o.Done? || works then run else w.services.web, o);
    }

    /** The native units pass the gate first; only then does the panel restart. */
    method StartServices() returns (o: Outcome)
      requires Valid() && w.procs.worker.Some?
      modifies this
      ensures Valid() && old(history) <= history && old(passed) <= passed
      ensures steady && GateAdmits(old(w)) ==> !o.Raised?
      ensures Served(old(w), w, Unblamed(o))
      ensures o.Done? ==> w.services.native && w.services.web
      ensures o.Raised? && GateAdmits(old(w)) ==> w.raised
      ensures o.Done? ==> old(w).services.native || GateAdmits(old(w))
    {
      o := *;
      if !GateAdmits(w) && !w.services.native {
        SetRunning(false, w.services.web, Died);
        o := if o.Done? then Raised else o;
        return;
      }
      if steady && o.Raised? {
        o := Died;
      }
      var native: bool, web: bool := true, true;
      if !o.Done? {
        native, web := *, *;
      }
      native := w.services.native || native;
      SetRunning(native, w.services.web || (native && web), o);
    }

    /** Writing or unlinking the permission file: whatever is not done may
        have happened or not.  What raises and leaves the file has leaked it. */
    method Grant(give: bool) returns (o: Outcome)
      requires Valid() && w.procs.worker.Some? && (w.leaked ==> Working(w))
      requires give ==> Shielded(w) && Matched(w.disk) && (w.leaked || AtCheckpoint(w.disk, w.services.dirs))
      modifies this
      ensures Valid() && old(history) <= history && old(passed) <= passed
      ensures Permits(old(w), w, o, give)
    {
      o := *;
      var happens: bool := *;
      happens := happens || o.Done?;
      PermittingIsHarmless(w, give, happens, o);
      hide Inv, Step, IsRun, Drifted;
      Become(Permitted(w, give, happens, o));
      Report(o, false);
    }

    /** with startup_permission: start the services and check their health
        while the gate honours this process, then close the gate again. */
    method StartUnderPermission() returns (o: Outcome)
      requires Valid() && Shielded(w)
      requires Matched(w.disk) && (w.leaked || AtCheckpoint(w.disk, w.services.dirs))
      modifies this
      ensures Valid() && old(history) <= history && old(passed) <= passed
      ensures o.Done? ==> Did(passed, |old(passed)|, Healthy)
      ensures w.disk == old(w).disk && w.state == old(w).state && w.marker == old(w).marker
      ensures w.jobs == old(w).jobs && w.commits == old(w).commits && w.procs.worker == old(w).procs.worker
      ensures w.procs.boot == old(w).procs.boot
      ensures w.misled == old(w).misled && Flagged(old(w), w, o)
      ensures !o.Died? ==> Working(w)
      ensures o.Done? ==> w.services.native && w.services.web && w.procs.permission.None? && !w.leaked
    {
      hide Did;
      o := Grant(true);
      if !o.Done? {
        return;
      }
      o := StartServices();
      if o.Done? {
        ghost var n := |passed|;
        o := Attempt(Healthy);  // the health check
        if o.Done? {
          ChecksStay(passed, n, passed, |old(passed)|);
        }
      }
      ghost var checked := passed;
      if !o.Died? {
        var r := Grant(false);
        if o.Done? {
          ChecksStay(checked, |old(passed)|, passed, |old(passed)|);
        }
        o := if r.Done? then o else r;
      }
    }

    // ----- rollback ------------------------------------------------------

    /** Move what is in the way aside, then the copy of the saved tree in place. */
    method ReplaceNative(t: Journal) returns (o: Outcome)
      requires Valid() && Shielded(w) && Repairing(w.disk, t) && w.disk.backup.native.Some?
      modifies this
      ensures Valid() && old(history) <= history && old(passed) <= passed
      ensures Kept(old(w), w, o)
      ensures o.Done? ==> w.disk == old(w).disk.(native := Some(t.origin)) && Resting(old(w), w)
    {
      CheckpointIs(w, t);
      hide Inv, Step, IsRun, NativeRecoverable, CheckpointHolds;
      if w.disk.native.Some? {
        :- RepairDisk(w.disk.(native := None));
      }
      o := PlaceNative(w.disk.backup.native.value);
    }

    /** Put the saved native tree back, from a copy. */
    method RestoreNative(t: Journal) returns (o: Outcome)
      requires Valid() && Shielded(w) && Repairing(w.disk, t)
      modifies this
      ensures Valid() && old(history) <= history && old(passed) <= passed
      ensures Kept(old(w), w, o)
      ensures o.Done? ==> w.disk == old(w).disk.(native := Some(t.origin)) && Resting(old(w), w)
    {
      CheckpointIs(w, t);
      hide Inv, Step, IsRun, Repairs;
      if w.disk.backup.native.Some? {
        if w.disk.backup.native.value != t.digests.value.native {
          assert false;  // native rollback checkpoint integrity failed
        }
        :- Attempt(TreeCopied);  // copy to a fresh .restore- directory
        :- ReplaceNative(t);
      } else if t.phase !in {Checkpointed, Stopping} {
        assert false;  // native rollback checkpoint is missing
      }
      o := Done;
    }

    /** rmtree, then copy the checkpoint over; interrupted, anything is left. */
    method RestoreDir(t: Journal, k: DirName) returns (o: Outcome)
      requires Valid() && Shielded(w) && Repairing(w.disk, t)
      modifies this
      ensures Valid() && old(history) <= history && old(passed) <= passed
      ensures Kept(old(w), w, o) && w.disk == old(w).disk
      ensures o.Done? ==> w.leaked || w.services.dirs == Set(old(w).services.dirs, k, Get(t.digests.value.dirs, k))
    {
      CheckpointIs(w, t);
      hide Inv, Step, IsRun, NativeRecoverable, Repairs, DurableFor;
      var origin := Get(w.disk.backup.dirs, k);
      if origin.Some? {
        if origin != Get(t.digests.value.dirs, k) {
          assert false;  // rollback checkpoint integrity failed
        }
        var torn: Option<int> := *;
        :- Repair(w.disk, Set(w.services.dirs, k, torn));
        :- Repair(w.disk, Set(w.services.dirs, k, origin));
      }
      o := Done;
    }

    method RestoreDirs(t: Journal) returns (o: Outcome)
      requires Valid() && Shielded(w) && Repairing(w.disk, t)
      modifies this
      ensures Valid() && old(history) <= history && old(passed) <= passed
      ensures Kept(old(w), w, o) && w.disk == old(w).disk
      ensures o.Done? ==> w.leaked || w.services.dirs == t.digests.value.dirs
    {
      o := Done;
      :- RestoreDir(t, Etc);
      :- RestoreDir(t, NativeState);
      :- RestoreDir(t, WebState);
      o := Done;
    }

    /** dpkg -i and daemon-reload: interrupted, the package is broken. */
    method Dpkg(package: Package) returns (o: Outcome)
      requires Valid() && Shielded(w)
      requires w.disk.journal.value.phase in {Checkpointed, Switching}
      modifies this
      ensures Valid() && old(history) <= history && old(passed) <= passed
      ensures o.Done? ==> Did(passed, |old(passed)|, PackageUnpacked)
      ensures Kept(old(w), w, o) && Resting(old(w), w)
      ensures w.disk == old(w).disk.(web := w.disk.web)
      ensures o.Done? ==> exists i :: |old(history)| - 1 <= i < |history| && history[i].disk.web == Broken
      ensures o.Done? ==> w.disk.web == Installed(package)
    {
      o := Done;
      :- RepairDisk(w.disk.(web := Broken));
      ghost var unpacking := |history| - 1;
      assert history[unpacking].disk.web == Broken;
      :- RepairDisk(w.disk.(web := Installed(package)));
      :- Attempt(PackageUnpacked);
      o := Done;
    }

    /** Put the saved Web package and the installation record back. */
    method RestorePackage(t: Journal) returns (o: Outcome)
      requires Valid() && Shielded(w) && Repairing(w.disk, t)
      modifies this
      ensures Valid() && old(history) <= history && old(passed) <= passed
      ensures o.Done? ==> Did(passed, |old(passed)|, PackageUnpacked)
      ensures Kept(old(w), w, o) && Resting(old(w), w)
      ensures o.Done? ==> w.disk == old(w).disk.(web := Installed(t.before.package), installed := t.before)
    {
      if w.disk.backup.deb != Some(t.before.package) {
        assert false;  // rollback Web package integrity failed
      }
      :- Dpkg(t.before.package);
      o := RepairDisk(w.disk.(installed := t.before));
    }

    method RestoreAll(t: Journal) returns (o: Outcome)
      requires Valid() && Shielded(w) && Repairing(w.disk, t)
      modifies this
      ensures Valid() && old(history) <= history && old(passed) <= passed
      ensures o.Done? ==> Did(passed, |old(passed)|, PackageUnpacked)
      ensures Kept(old(w), w, o)
      ensures o.Done? ==> AllOld(w.disk, t) && (w.leaked || w.services.dirs == t.digests.value.dirs)
    {
      o := Done;
      :- RestoreNative(t);
      :- RestoreDirs(t);
      o := RestorePackage(t);
    }

    /** The journal settles on a state that already is all old. */
    method CloseJournal(t: Journal, phase: Phase, misleads: bool) returns (o: Outcome)
      requires Valid() && w.marker && !Quiet(w.disk) && AllOld(w.disk, t) && w.procs.worker.Some?
      requires phase in {RolledBack, Aborted}
      requires w.disk.journal.value == t.(phase := w.disk.journal.value.phase, digests := w.disk.journal.value.digests)
      modifies this
      ensures Valid() && old(history) <= history && old(passed) <= passed
      ensures w.disk == old(w).disk.(journal := Some(t.(phase := phase))) || (!o.Done? && w.disk == old(w).disk)
      ensures w == old(w).(disk := w.disk, services := w.services, procs := w.procs,
                           raised := w.raised, misled := w.misled)
      ensures SameWorker(old(w).procs, w.procs) && Flagged(old(w), w, o)
      ensures old(w).services.native ==> w.services.native
      ensures old(w).services.web ==> w.services.web
      ensures if misleads then o.Raised? ==> w.misled else w.misled == old(w).misled
      ensures w.leaked == old(w).leaked
    {
      ClosingIsHarmless(w, t, phase);
      hide Inv, Step, IsRun;
      o := Change(w.(disk := w.disk.(journal := Some(t.(phase := phase)))), misleads);
    }

    /**
     * Recovery from the checkpoint; also runs at the next worker start.
     * It never stops on its own checks: it raises only if an effect did.
     */
    method Rollback(t: Journal) returns (o: Outcome)
      requires Valid() && (t.phase == Committed || w.marker) && Working(w)
      requires t.phase == Committed || Repairing(w.disk, t)
      modifies this
      ensures Valid() && old(history) <= history && old(passed) <= passed
      ensures o.Done? && t.phase != Committed ==> Did(passed, |old(passed)|, PackageUnpacked) && Did(passed, |old(passed)|, Healthy)
      ensures w.misled == old(w).misled
      ensures w.state == old(w).state && w.marker == old(w).marker && w.jobs == old(w).jobs
      ensures w.procs.worker == old(w).procs.worker && w.procs.boot == old(w).procs.boot
      ensures Flagged(old(w), w, o)
      ensures !o.Died? ==> Working(w)
      ensures t.phase == Committed ==> o.Done? && w == old(w)
      ensures o.Done? && t.phase != Committed ==>
                && w.disk.journal == Some(t.(phase := RolledBack))
                && AllOld(w.disk, t)
                && w.services.native && w.services.web
    {
      hide Did;
      if t.phase == Committed {
        return Done;
      }
      :- StopServices();
      ghost var n := |passed|;
      :- RestoreAll(t);
      ghost var p0 := passed;
      :- StartUnderPermission();
      ghost var p1 := passed;
      o := CloseJournal(t, RolledBack, false);
      ChecksStay(p0, n, passed, |old(passed)|);
      ChecksStay(p1, |p0|, passed, |old(passed)|);
    }

    // ----- job bookkeeping -----------------------------------------------

    method Progress(phase: JobPhase, misleads: bool) returns (o: Outcome)
      requires Valid() && w.procs.worker.Some?
      requires w.misled || Agree(w.disk, Shown(w.state, phase))
      modifies this
      ensures Valid() && old(history) <= history && old(passed) <= passed
      ensures steady ==> !o.Raised?
      ensures Noted(old(w), w, o)
      ensures if misleads then o.Raised? ==> w.misled else w.misled == old(w).misled
      ensures w.state == Shown(old(w).state, phase) || (!o.Done? && w.state == old(w).state)
      ensures Shielded(old(w)) ==> Shielded(w) && Resting(old(w), w)
    {
      NotingIsHarmless(w, phase);
      hide Inv, Step, IsRun, Agree;
      o := Save(w.(state := Shown(w.state, phase)), misleads);
    }

    /** A job that goes on says where it is. */
    method Tell(phase: JobPhase) returns (o: Outcome)
      requires Valid() && w.procs.worker.Some?
      requires Busy(phase) && phase != Queued && (w.misled || w.state.job.Some? || !Quiet(w.disk))
      modifies this
      ensures Valid() && old(history) <= history && old(passed) <= passed
      ensures steady ==> !o.Raised?
      ensures Noted(old(w), w, o)
      ensures w.misled == old(w).misled && (w.misled || w.state.job.Some?)
      ensures o.Done? ==> Showed(history, |old(history)| - 1, phase)
      ensures w.state == Shown(old(w).state, phase) || (!o.Done? && w.state == old(w).state)
      ensures Shielded(old(w)) ==> Shielded(w) && Resting(old(w), w)
    {
      hide Agree;
      if !w.misled {
        BusyAgrees(w, phase);
      }
      o := Progress(phase, false);
      assert history[|history| - 1] == w;
    }

    // ----- upgrade -------------------------------------------------------

    /** save(paths.journal, transaction) */
    method SaveJournal(t: Journal) returns (o: Outcome)
      requires Valid() && Inv(Journaled(w, t)) && Step(w, Journaled(w, t)) && Working(w)
      modifies this
      ensures Valid() && old(history) <= history && old(passed) <= passed
      ensures w.services.web == old(w).services.web
      ensures Moved(old(w), w, o)
      ensures w.disk == Journaled(old(w), t).disk || (!o.Done? && w.disk == old(w).disk)
      ensures t.phase != Committed ==> w.commits == old(w).commits
      ensures if t.phase in {Stopping, Committed} then o.Raised? ==> w.misled else w.misled == old(w).misled
      ensures Shielded(old(w)) && !Terminal(t.phase) ==> Shielded(w) && Resting(old(w), w)
    {
      hide Inv, Step, IsRun, Carries;
      var misleads := t.phase in {Stopping, Committed};
      o := Change(Journaled(w, t), misleads);
    }

    /** An exception that the program raises itself. */
    method Raise() returns (o: Outcome)
      requires Valid()
      modifies this
      ensures Valid() && old(history) <= history && old(passed) <= passed
      ensures o.Raised? && Served(old(w), w, Died) && w.raised == old(w).raised
      ensures Shielded(old(w)) ==> Still(old(w), w, Died)
    {
      o := Raised;
      Report(Died, false);
    }

    /** A change of the checkpoint directory before the journal relies on it. */
    method Fill(backup: Backup) returns (o: Outcome)
      requires Valid() && w.marker && Working(w)
      requires Quiet(w.disk) || w.disk.journal.value.phase == Stopping
      modifies this
      ensures Valid() && old(history) <= history && old(passed) <= passed
      ensures Moved(old(w), w, o) && w.misled == old(w).misled && w.commits == old(w).commits
      ensures w.disk == old(w).disk.(backup := w.disk.backup)
      ensures o.Done? ==> w.disk.backup == backup
      ensures Shielded(old(w)) ==> Shielded(w) && Resting(old(w), w)
    {
      FillingIsHarmless(w, backup);
      hide Inv, Step, IsRun;
      o := Change(w.(disk := w.disk.(backup := backup)), false);
    }

    /** checkpoint_copy of one directory. */
    method CheckpointCopy(k: DirName) returns (o: Outcome)
      requires Valid() && !w.leaked && Shielded(w) && w.disk.journal.value.phase == Stopping
      modifies this
      ensures Valid() && old(history) <= history && old(passed) <= passed
      ensures Moved(old(w), w, Unblamed(o)) && w.misled == old(w).misled && w.commits == old(w).commits
      ensures Shielded(w) && w.services == old(w).services
      ensures o.Raised? && !w.raised ==> Get(w.services.dirs, k).None?
      ensures w.disk == old(w).disk.(backup := old(w).disk.backup.(dirs := w.disk.backup.dirs)) || !o.Done?
      ensures w.disk == old(w).disk.(backup := w.disk.backup)
      ensures o.Done? ==> Get(w.services.dirs, k).Some? &&
                          w.disk.backup.dirs == Set(old(w).disk.backup.dirs, k, Get(w.services.dirs, k))
    {
      var origin := Get(w.services.dirs, k);
      if origin.None? {
        o := Raise();
        return;
      }
      var torn: Option<int> := *;
      :- Fill(w.disk.backup.(dirs := Set(w.disk.backup.dirs, k, torn)));
      :- Fill(w.disk.backup.(dirs := Set(w.disk.backup.dirs, k, origin)));
      o := Done;
    }

    /** Copy the three directories and keep the rollback package. */
    method CheckpointDirs(deb: Package) returns (o: Outcome)
      requires Valid() && !w.leaked && Shielded(w) && w.disk.journal.value.phase == Stopping
      requires w.disk.backup == Backup(None, Dirs(None, None, None), None)
      modifies this
      ensures Valid() && old(history) <= history && old(passed) <= passed
      ensures Moved(old(w), w, Unblamed(o)) && w.misled == old(w).misled && w.commits == old(w).commits
      ensures Shielded(w) && w.services == old(w).services
      ensures w.disk == old(w).disk.(backup := w.disk.backup)
      ensures o.Raised? && !w.raised ==> !Complete(w.services.dirs)
      ensures o.Done? ==> Complete(w.services.dirs) && w.disk.backup == Backup(None, w.services.dirs, Some(deb))
    {
      o := Done;
      :- CheckpointCopy(Etc);
      :- CheckpointCopy(NativeState);
      :- CheckpointCopy(WebState);
      o := Fill(w.disk.backup.(deb := Some(deb)));
    }

    /** Stop everything and take the checkpoint of the journaled release. */
    method Checkpoint(t0: Journal) returns (o: Outcome, t: Journal)
      requires Valid() && w.marker && !w.leaked && Working(w) && w.disk.journal == Some(t0) && t0.phase == Stopping
      requires w.disk.backup == Backup(None, Dirs(None, None, None), None)
      requires t0.digests.None?
      modifies this
      ensures Valid() && old(history) <= history && old(passed) <= passed
      ensures o.Done? ==> Did(passed, |old(passed)|, PointerUnchanged)
      ensures w == old(w).(disk := w.disk, services := w.services, procs := w.procs,
                           raised := w.raised, misled := w.misled)
      ensures SameWorker(old(w).procs, w.procs) && Flagged(old(w), w, Unblamed(o))
      ensures o.Raised? && !w.raised ==> Unfit(w)
      ensures t == t0.(phase := t.phase, digests := t.digests)
      ensures AllOld(w.disk, t) && w.disk.journal.Some?
      ensures w.disk.journal.value == t.(phase := w.disk.journal.value.phase, digests := w.disk.journal.value.digests)
      ensures w.disk.journal.value.phase in {Stopping, Checkpointed}
      ensures o.Done? ==> Shielded(w) && Repairing(w.disk, t) && t.phase == Checkpointed
                          && w.disk.backup.native.None?
                          && AtCheckpoint(w.disk, w.services.dirs)
    {
      t := t0;
      assert DurableFor(w.disk, t0);
      :- StopServices();
      :- Attempt(PointerUnchanged);  // the durable commit pointer is re-read and compared
      :- CheckpointDirs(t.before.package);
      t := t.(digests := Some(Digests(w.disk.backup.dirs, w.disk.native.value)));
      t := t.(phase := Checkpointed);
      CheckpointingIsHarmless(w, t);
      o := SaveJournal(t);
    }

    /** Move the native tree into the checkpoint directory. */
    method MoveAside(t: Journal) returns (o: Outcome)
      requires Valid() && !w.leaked && Shielded(w) && Repairing(w.disk, t)
      requires t.phase == Checkpointed && w.disk.backup.native.None?
      modifies this
      ensures Valid() && old(history) <= history && old(passed) <= passed
      ensures Moved(old(w), w, o) && w.misled == old(w).misled && w.commits == old(w).commits
      ensures Shielded(w) && w.services == old(w).services && Repairing(w.disk, t)
      ensures o.Done? ==> w.disk == old(w).disk.(native := None,
                                                 backup := old(w).disk.backup.(native := Some(t.origin)))
    {
      assert DurableFor(w.disk, w.disk.journal.value);
      o := Change(w.(disk := w.disk.(native := None, backup := w.disk.backup.(native := w.disk.native))), false);
    }

    /** Put the new tree and package in place of the old ones. */
    method Replace(t: Journal) returns (o: Outcome)
      requires Valid() && !w.leaked && Shielded(w) && Repairing(w.disk, t) && t.phase == Switching
      requires w.disk.native.None?
      modifies this
      ensures Valid() && old(history) <= history && old(passed) <= passed
      ensures o.Done? ==> Did(passed, |old(passed)|, PackageUnpacked)
      ensures Kept(old(w), w, o) && Resting(old(w), w) && Repairing(w.disk, t)
      ensures o.Done? ==> w.disk.native == Some(t.staged) && w.disk.web == Installed(t.package)
    {
      assert DurableFor(w.disk, w.disk.journal.value);
      :- PlaceNative(t.staged);
      o := Dpkg(t.package);
    }

    /** Swap the native tree and the Web package for the new release. */
    method Switch(t0: Journal) returns (o: Outcome, t: Journal)
      requires Valid() && !w.leaked && Shielded(w) && Repairing(w.disk, t0)
      requires t0.phase == Checkpointed && w.disk.backup.native.None?
      modifies this
      ensures Valid() && old(history) <= history && old(passed) <= passed
      ensures w.misled == old(w).misled
      ensures w == old(w).(disk := w.disk, services := w.services, procs := w.procs, state := w.state,
                           raised := w.raised, misled := w.misled)
      ensures SameWorker(old(w).procs, w.procs) && Flagged(old(w), w, o)
      ensures t == t0.(phase := t.phase) && Shielded(w) && Repairing(w.disk, t)
      ensures w.services == old(w).services
      ensures o.Done? ==> w.disk.native == Some(t.staged) && w.disk.web == Installed(t.package)
                          && t.phase == Switching && w.disk.journal == Some(t)
      ensures w.state == Shown(old(w).state, Restarting) || (!o.Done? && w.state == old(w).state)
    {
      hide Durable, Tracked, Granted, Guarded, Ordered, Leaking, IsRun, Step;
      t := t0;
      :- MoveAside(t);
      t := t.(phase := Switching);
      SwitchingIsHarmless(w, t);
      :- SaveJournal(t);
      :- Replace(t);
      o := Tell(Restarting);
    }

    /** save(paths.installation, new) while the switch is journaled. */
    method Record(installed: Metadata) returns (o: Outcome)
      requires Valid() && w.marker && Working(w) && !Quiet(w.disk) && w.disk.journal.value.phase == Switching
      modifies this
      ensures Valid() && old(history) <= history && old(passed) <= passed
      ensures Moved(old(w), w, o) && w.commits == old(w).commits && w.misled == old(w).misled
      ensures w.disk == old(w).disk.(installed := w.disk.installed)
      ensures o.Done? ==> w.disk.installed == installed
    {
      o := Change(w.(disk := w.disk.(installed := installed)), false);
    }

    /** Record the new release, and journal that it stays. */
    method Commit(t0: Journal) returns (o: Outcome, t: Journal)
      requires Valid() && w.marker && !w.leaked && Working(w) && Repairing(w.disk, t0) && w.disk.journal == Some(t0)
      requires t0.phase == Switching && w.disk.native == Some(t0.staged) && w.disk.web == Installed(t0.package)
      modifies this
      ensures Valid() && old(history) <= history && old(passed) <= passed
      ensures o.Done? ==> Did(passed, |old(passed)|, AccountsUnchanged)
      ensures w == old(w).(disk := w.disk, services := w.services, procs := w.procs, commits := w.commits,
                           raised := w.raised, misled := w.misled)
      ensures SameWorker(old(w).procs, w.procs) && Flagged(old(w), w, o)
      ensures t == t0.(phase := t.phase) && t.phase in {Switching, Committed}
      ensures o.Raised? ==> if t.phase == Committed then Unconfirmed(w, t) else Repairing(w.disk, t)
      ensures o.Done? ==> t.phase == Committed && w.disk.journal == Some(t) && AllNew(w.disk, t)
      ensures o.Done? && !w.misled ==> Owns(w.disk, w.state)
    {
      hide Did;
      t := t0;
      assert DurableFor(w.disk, t0);
      :- Attempt(AccountsUnchanged);  // and the package is cached
      ghost var p0 := passed;
      :- Record(Metadata(t.target, t.package));
      t := t.(phase := Committed);
      CommittingIsHarmless(w, t);
      o := SaveJournal(t);
      ChecksStay(p0, |old(passed)|, passed, |old(passed)|);
    }

    /** Start the new release, check it and commit. */
    method Activate(t0: Journal) returns (o: Outcome, t: Journal)
      requires Valid() && !w.leaked && Shielded(w) && Repairing(w.disk, t0) && w.disk.journal == Some(t0)
      requires t0.phase == Switching && AtCheckpoint(w.disk, w.services.dirs)
      requires w.disk.native == Some(t0.staged) && w.disk.web == Installed(t0.package)
      modifies this
      ensures Valid() && old(history) <= history && old(passed) <= passed
      ensures o.Done? ==> Did(passed, |old(passed)|, Healthy) && Did(passed, |old(passed)|, AccountsUnchanged)
      ensures w == old(w).(disk := w.disk, services := w.services, procs := w.procs, commits := w.commits,
                           raised := w.raised, misled := w.misled, leaked := w.leaked)
      ensures w.procs.worker == old(w).procs.worker && w.procs.boot == old(w).procs.boot
      ensures Flagged(old(w), w, Unblamed(o))
      ensures o.Raised? && !w.raised ==> Seen(history, |old(history)| - 1, false)
      ensures o.Done? ==> Seen(history, |old(history)| - 1, true)
      ensures t == t0.(phase := t.phase) && t.phase in {Switching, Committed}
      ensures !o.Died? ==> Working(w)
      ensures o.Raised? ==> if t.phase == Committed then Unconfirmed(w, t) else Repairing(w.disk, t)
      ensures o.Done? ==> t.phase == Committed && w.disk.journal == Some(t) && AllNew(w.disk, t)
      ensures o.Done? && !w.misled ==> Owns(w.disk, w.state)
    {
      hide Did;
      t := t0;
      assert DurableFor(w.disk, t0);
      :- StartUnderPermission();
      ghost var p0 := passed;
      ghost var looked := |history| - 1;
      assert Compared(history[looked], w.services.dirs.etc == t.digests.value.dirs.etc);
      if w.services.dirs.etc != t.digests.value.dirs.etc {
        o := Raise();  // configuration changed unexpectedly
        return;
      }
      ghost var n := |passed|;
      o, t := Commit(t);
      ChecksStay(p0, |old(passed)|, passed, |old(passed)|);
      ChecksStay(passed, n, passed, |old(passed)|);
    }

    /** From the journaled intent to the commit.  `ready` says that the
        checkpoint has been journaled. */
    method Transact(t0: Journal) returns (o: Outcome, ready: bool, t: Journal)
      requires Valid() && w.marker && !w.leaked && Working(w) && w.disk.journal == Some(t0) && t0.phase == Stopping
      requires w.disk.backup == Backup(None, Dirs(None, None, None), None)
      requires t0.digests.None?
      modifies this
      ensures Valid() && old(history) <= history && old(passed) <= passed
      ensures o.Done? ==> ExchangeChecked(passed, |old(passed)|)
      ensures w == old(w).(disk := w.disk, services := w.services, procs := w.procs, state := w.state,
                           commits := w.commits, raised := w.raised, misled := w.misled,
                           leaked := w.leaked)
      ensures w.procs.worker == old(w).procs.worker && w.procs.boot == old(w).procs.boot
      ensures Flagged(old(w), w, Unblamed(o))
      ensures o.Raised? && !w.raised ==> Hindered(history, |old(history)| - 1)
      ensures w.state == Shown(old(w).state, Restarting) || (!o.Done? && w.state == old(w).state)
      ensures t == t0.(phase := t.phase, digests := t.digests)
      ensures !o.Died? ==> Working(w)
      ensures o.Raised? && ready ==> if t.phase == Committed then Unconfirmed(w, t) else Repairing(w.disk, t)
      ensures o.Raised? && !ready ==>
                && AllOld(w.disk, t) && !Quiet(w.disk)
                && w.disk.journal.value ==
                     t.(phase := w.disk.journal.value.phase, digests := w.disk.journal.value.digests)
      ensures o.Done? ==> t.phase == Committed && w.disk.journal == Some(t) && AllNew(w.disk, t)
      ensures o.Done? && !w.misled ==> Owns(w.disk, w.state)
    {
      hide Did;
      ready := false;
      o, t := Checkpoint(t0);
      if !o.Done? {
        return;
      }
      ready := true;
      ghost var checked := passed;
      o, t := Switch(t);
      if !o.Done? {
        return;
      }
      ghost var n := |passed|;
      o, t := Activate(t);
      if o.Done? {
        ChecksStay(checked, |old(passed)|, passed, |old(passed)|);
        ChecksStay(passed, n, passed, |old(passed)|);
      }
    }

    /** Build the new release while the old one keeps running. */
    method Stage(version: Version) returns (o: Outcome, tree: Tree)
      requires Valid() && w.marker && !w.leaked && Working(w) && Quiet(w.disk)
      requires w.misled || Busy(w.state.phase)
      modifies this
      ensures Valid() && old(history) <= history && old(passed) <= passed
      ensures o.Done? ==> Did(passed, |old(passed)|, Staged)
      ensures o.Done? ==> Showed(history, |old(history)| - 1, Preparing) && Showed(history, |old(history)| - 1, Installing)
      ensures w.misled == old(w).misled
      ensures Moved(old(w).(state := w.state), w, o) && w.commits == old(w).commits
      ensures w.disk == old(w).disk.(backup := w.disk.backup)
      ensures o.Done? ==> w.disk.backup == Backup(None, Dirs(None, None, None), None)
      ensures w.misled || Busy(w.state.phase)
      ensures tree.version == version
      ensures w.state == old(w).state || w.state == Shown(old(w).state, w.state.phase)
      ensures w.state.phase in {old(w).state.phase, Preparing, Installing}
      ensures o.Done? ==> w.state == Shown(old(w).state, Installing)
    {
      hide Inv, IsRun, Step, Did, Showed;
      BusyHasJob(w);
      tree := *;
      tree := tree.(version := version);
      :- Tell(Preparing);
      ghost var h0, p0 := history, passed;
      :- Attempt(Staged);  // and admitted once more
      ghost var h1, p1 := history, passed;
      :- Tell(Installing);
      ghost var h2 := history;
      o := Fill(Backup(None, Dirs(None, None, None), None));  // a fresh checkpoint directory
      ShowedStays(h0, |old(history)| - 1, Preparing, history, |old(history)| - 1);
      ShowedStays(h2, |h1| - 1, Installing, history, |old(history)| - 1);
      ChecksStay(p1, |p0|, passed, |old(passed)|);
    }

    /** Quiesce the panel and journal the intent. */
    method Open(version: Version, jobId: int, tree: Tree, package: Package) returns (o: Outcome, t: Journal)
      requires Valid() && w.marker && !w.leaked && Working(w) && Quiet(w.disk) && w.disk.installed.version < version
      requires jobId in w.jobs && (w.misled || ForJob(w, version, jobId))
      requires tree.version == package.version == version
      modifies this
      ensures Valid() && old(history) <= history && old(passed) <= passed
      ensures o.Done? ==> Did(passed, |old(passed)|, ConfigurationRead)
      ensures o.Done? ==> !w.services.web
      ensures steady && o.Raised? ==> w.services.web
      ensures w == old(w).(disk := w.disk, services := w.services, procs := w.procs,
                           raised := w.raised, misled := w.misled)
      ensures SameWorker(old(w).procs, w.procs) && Flagged(old(w), w, Died)
      ensures w.disk == old(w).disk.(journal := w.disk.journal)
      ensures o.Done? ==> w.disk.journal == Some(t)
      ensures t.phase == Stopping && t.digests.None? && t.target == version && t.jobId == jobId
      ensures t.staged == tree && t.package == package && t.before == old(w).disk.installed
      ensures o.Raised? ==> w.raised
      ensures o.Raised? && !w.misled ==> w.disk == old(w).disk
    {
      hide DurableFor, Durable, Tracked, Granted, Guarded, Ordered, Leaking, Known, Agree, IsRun, Did;
      Settled(w);
      t := Journal(Stopping, w.disk.installed, w.disk.native.value, version, jobId, None, tree, package);
      o := SetPanel(false);
      if o.Done? {
        ghost var n := |passed|;
        o := Attempt(ConfigurationRead);
        if o.Done? {
          ChecksStay(passed, n, passed, |old(passed)|);
        }
      }
      if o.Done? {
        OpeningIsHarmless(w, t);
        ghost var checked := passed;
        o := SaveJournal(t);
        ChecksStay(checked, |old(passed)|, passed, |old(passed)|);
      }
      if o.Raised? {
        var r := SetPanel(true);
        o := if r.Died? then Died else Raised;
      }
    }

    /** Its exception handler once the checkpoint was journaled: roll back, and say so. */
    method BackOut(t: Journal) returns (o: Outcome)
      requires Valid() && w.marker && Working(w)
      requires if t.phase == Committed then Unconfirmed(w, t) else Repairing(w.disk, t)
      modifies this
      ensures Valid() && old(history) <= history && old(passed) <= passed
      ensures o.Done? ==> Showed(history, |old(history)| - 1, RollingBack)
      ensures steady && !o.Died? ==>
                && o.Done?
                && w.state == Shown(old(w).state, w.state.phase)
                && w.state.phase in {RecoveryRequired, JobRolledBack}
      ensures w.marker == old(w).marker && w.jobs == old(w).jobs
      ensures w.procs.worker == old(w).procs.worker && w.procs.boot == old(w).procs.boot
      ensures Flagged(old(w), w, Died)
      ensures !o.Died? ==> Working(w)
      ensures !o.Died? && !w.misled && w.state.phase != RecoveryRequired ==>
                w.disk.journal.Some? && w.disk.journal.value.phase == RolledBack
      ensures !o.Died? && !w.raised ==>
                w.state == Shown(old(w).state, JobRolledBack) && AllOld(w.disk, t) && Quiet(w.disk)
      ensures w.state.phase == JobRolledBack && old(w).state.phase != JobRolledBack ==>
                if t.phase == Committed then AllNew(w.disk, t) && !AllOld(w.disk, t) else AllOld(w.disk, t)
    {
      hide DurableFor, Durable, Tracked, Granted, Guarded, Ordered, Leaking, Known, Agree, IsRun, Step, Did;
      if t.phase == Committed { NewIsNotOld(w, t); }
      if !w.misled { BusyAgrees(w, RollingBack); }
      :- Progress(RollingBack, true);
      assert history[|history| - 1].state.phase == RollingBack;
      o := Rollback(t);
      if o.Died? {
        return;
      }
      var shown := if o.Raised? then RecoveryRequired else JobRolledBack;
      if !w.misled {
        if o.Raised? { BusyAgrees(w, RecoveryRequired); } else { BackedOutAgrees(w); }
      }
      o := Progress(shown, o.Raised?);
    }

    /** The exception handler of upgrade(). */
    method Undo(ready: bool, t: Journal) returns (o: Outcome)
      requires Valid() && w.marker && Working(w)
      requires ready ==> if t.phase == Committed then Unconfirmed(w, t) else Repairing(w.disk, t)
      requires !ready ==> AllOld(w.disk, t) && !Quiet(w.disk)
      requires !ready ==> w.disk.journal.value ==
                            t.(phase := w.disk.journal.value.phase, digests := w.disk.journal.value.digests)
      modifies this
      ensures Valid() && old(history) <= history && old(passed) <= passed
      ensures steady && o.Raised? && !ready && !w.misled ==> w.services.native && w.services.web
      ensures steady && ready && o.Raised? ==> w.state.phase in {RecoveryRequired, JobRolledBack}
      ensures w.marker == old(w).marker && w.jobs == old(w).jobs
      ensures w.procs.worker == old(w).procs.worker && w.procs.boot == old(w).procs.boot
      ensures Flagged(old(w), w, Died)
      ensures !o.Done? && (!o.Died? ==> Working(w))
      ensures o.Raised? && !w.raised ==>
                && AllOld(w.disk, t) && Quiet(w.disk)
                && w.state == if ready then Shown(old(w).state, JobRolledBack) else old(w).state
      ensures o.Raised? && !w.misled && w.state.phase != RecoveryRequired ==>
                && Quiet(w.disk)
                && (Owns(w.disk, w.state) ==> w.disk.journal.value.phase in {Aborted, RolledBack})
      ensures w.state.phase == JobRolledBack && old(w).state.phase != JobRolledBack ==>
                if t.phase == Committed then AllNew(w.disk, t) && !AllOld(w.disk, t) else AllOld(w.disk, t)
    {
      hide DurableFor, Durable, Tracked, Granted, Guarded, IsRun, Step;
      if ready {
        :- BackOut(t);
      } else {
        :- CloseJournal(t, Aborted, true);
        :- StartServices();
      }
      o := Raised;
    }

    /** From the journaled intent to the commit, or back. */
    method Exchange(t0: Journal) returns (o: Outcome)
      requires Valid() && w.marker && !w.leaked && Working(w) && w.disk.journal == Some(t0) && t0.phase == Stopping
      requires w.disk.backup == Backup(None, Dirs(None, None, None), None)
      requires t0.digests.None?
      modifies this
      ensures Valid() && old(history) <= history && old(passed) <= passed
      ensures o.Done? ==> ExchangeChecked(passed, |old(passed)|)
      ensures w.marker == old(w).marker && w.jobs == old(w).jobs
      ensures w.procs.worker == old(w).procs.worker && w.procs.boot == old(w).procs.boot
      ensures Flagged(old(w), w, Died)
      ensures !o.Died? ==> Working(w)
      ensures o.Done? ==>
                && w.disk.journal.Some?
                && w.disk.journal.value == t0.(phase := Committed, digests := w.disk.journal.value.digests)
                && AllNew(w.disk, t0)
      ensures o.Raised? && !w.raised ==>
                && Hindered(history, |old(history)| - 1)
                && AllOld(w.disk, t0) && w.state.phase in {old(w).state.phase, Restarting, JobRolledBack}
      ensures o.Done? && !w.misled ==> Owns(w.disk, w.state)
      ensures o.Raised? && !w.misled && w.state.phase != RecoveryRequired ==>
                && Quiet(w.disk)
                && (Owns(w.disk, w.state) ==> w.disk.journal.value.phase in {Aborted, RolledBack})
    {
      hide DurableFor, Durable, Tracked, Granted, Guarded, Ordered, Leaking, Known, Agree, IsRun, Step, Did, Hindered, Seen;
      var ready: bool, t: Journal;
      o, ready, t := Transact(t0);
      if o.Raised? {
        ghost var seen, blamed := history, w.raised;
        o := Undo(ready, t);
        if !blamed {
          HindranceStays(seen, |old(history)| - 1, history, |old(history)| - 1);
        }
      }
    }

    /** The part of upgrade() that runs against the journal. */
    method Swap(version: Version, jobId: int, tree: Tree, package: Package) returns (o: Outcome)
      requires Valid() && w.marker && !w.leaked && Working(w) && Quiet(w.disk) && w.disk.installed.version < version
      requires w.disk.backup == Backup(None, Dirs(None, None, None), None)
      requires jobId in w.jobs && (w.misled || ForJob(w, version, jobId))
      requires tree.version == package.version == version
      modifies this
      ensures Valid() && old(history) <= history && old(passed) <= passed
      ensures o.Done? ==> SwapChecked(passed, |old(passed)|)
      ensures w.marker == old(w).marker && w.jobs == old(w).jobs
      ensures w.procs.worker == old(w).procs.worker && w.procs.boot == old(w).procs.boot
      ensures Flagged(old(w), w, Died)
      ensures !o.Died? ==> Working(w)
      ensures o.Done? ==>
                && w.disk.journal.Some? && w.disk.journal.value.phase == Committed
                && w.disk.journal.value.jobId == jobId && w.disk.journal.value.target == version
                && AllNew(w.disk, w.disk.journal.value)
                && w.disk.journal.value.staged == tree && w.disk.journal.value.package == package
      ensures o.Raised? && !w.raised ==>
                && Hindered(history, |old(history)| - 1)
                && w.disk.installed == old(w).disk.installed
                && (w.state.phase == RecoveryRequired ==> old(w).state.phase == RecoveryRequired)
      ensures o.Done? && !w.misled ==> Owns(w.disk, w.state)
      ensures o.Raised? && !w.misled && w.state.phase != RecoveryRequired ==>
                && Quiet(w.disk)
                && (Owns(w.disk, w.state) ==> w.disk.journal.value.phase in {Aborted, RolledBack})
    {
      hide DurableFor, Durable, Tracked, Granted, Guarded, Ordered, Leaking, Known, Agree, IsRun, Step, Did, Hindered, Seen;
      var t: Journal;
      o, t := Open(version, jobId, tree, package);
      if !o.Done? {
        return;
      }
      ghost var from, p0 := |history| - 1, passed;
      o := Exchange(t);
      if o.Raised? && !w.raised {
        HindranceStays(history, from, history, |old(history)| - 1);
      }
      if o.Done? {
        ChecksStay(p0, |old(passed)|, passed, |old(passed)|);
        ChecksStay(passed, |p0|, passed, |old(passed)|);
      }
    }

    /** Build the new release, and swap it in. */
    method Build(version: Version, jobId: int, package: Package) returns (o: Outcome)
      requires Valid() && w.marker && !w.leaked && Working(w) && Quiet(w.disk)
      requires jobId in w.jobs && (w.misled || ForJob(w, version, jobId))
      requires w.disk.installed.version < version == package.version
      modifies this
      ensures Valid() && old(history) <= history && old(passed) <= passed
      ensures o.Done? ==> Did(passed, |old(passed)|, Staged) && SwapChecked(passed, |old(passed)|)
      ensures w.marker == old(w).marker && w.jobs == old(w).jobs
      ensures w.procs.worker == old(w).procs.worker && w.procs.boot == old(w).procs.boot
      ensures Flagged(old(w), w, Died)
      ensures !o.Died? ==> Working(w)
      ensures o.Done? ==>
                && w.disk.journal.Some? && w.disk.journal.value.phase == Committed
                && w.disk.journal.value.jobId == jobId && w.disk.journal.value.target == version
                && AllNew(w.disk, w.disk.journal.value)
                && w.disk.journal.value.package == package
      ensures o.Raised? && !w.raised ==>
                && Hindered(history, |old(history)| - 1)
                && w.disk.installed == old(w).disk.installed
                && (w.state.phase == RecoveryRequired ==> old(w).state.phase == RecoveryRequired)
      ensures o.Done? && !w.misled ==> Owns(w.disk, w.state)
      ensures o.Raised? && !w.misled && w.state.phase != RecoveryRequired ==>
                && Quiet(w.disk)
                && (Owns(w.disk, w.state) ==> w.disk.journal.value.phase in {Aborted, RolledBack})
    {
      hide Durable, Tracked, Granted, Guarded, Ordered, Leaking, Known, Agree, IsRun, Step, Did, SwapChecked, ExchangeChecked,
           Hindered, Seen;
      var tree: Tree;
      o, tree := Stage(version);
      if o.Done? {
        ghost var p0, from := passed, |history| - 1;
        o := Swap(version, jobId, tree, package);
        if o.Raised? && !w.raised {
          HindranceStays(history, from, history, |old(history)| - 1);
        }
        ChecksStay(p0, |old(passed)|, passed, |old(passed)|);
        ChecksStay(passed, |p0|, passed, |old(passed)|);
      }
    }

    /**
     * upgrade(): install `version` for job `jobId`.  The outcome of every
     * unsuccessful run is one of: nothing changed, aborted or rolled back to
     * the old release, or recovery required.
     */
    method Upgrade(version: Version, jobId: int, package: Package) returns (o: Outcome)
      requires Valid() && w.marker && !w.leaked && Working(w) && Quiet(w.disk)
      requires jobId in w.jobs && (w.misled || ForJob(w, version, jobId))
      requires package.version == version
      modifies this
      ensures Valid() && old(history) <= history && old(passed) <= passed
      ensures o.Done? ==> Checked(passed, |old(passed)|)
      ensures w.marker == old(w).marker && w.jobs == old(w).jobs
      ensures w.procs.worker == old(w).procs.worker && w.procs.boot == old(w).procs.boot
      ensures Flagged(old(w), w, Died)
      ensures !o.Died? ==> Working(w)
      ensures o.Done? ==>
                && w.disk.journal.Some? && w.disk.journal.value.phase == Committed
                && w.disk.journal.value.jobId == jobId && w.disk.journal.value.target == version
                && AllNew(w.disk, w.disk.journal.value)
                && w.disk.journal.value.package == package
      ensures version <= old(w).disk.installed.version ==> !o.Done? && w.disk == old(w).disk
      ensures o.Raised? && !w.raised ==>
                && (version <= old(w).disk.installed.version || Hindered(history, |old(history)| - 1))
                && w.disk.installed == old(w).disk.installed
                && (w.state.phase == RecoveryRequired ==> old(w).state.phase == RecoveryRequired)
      ensures o.Done? && !w.misled ==> Owns(w.disk, w.state)
      ensures o.Raised? && !w.misled && w.state.phase != RecoveryRequired ==>
                && Quiet(w.disk)
                && (Owns(w.disk, w.state) ==> w.disk.journal.value.phase in {Aborted, RolledBack})
    {
      hide Durable, Tracked, Granted, Guarded, Ordered, Leaking, Known, Agree, IsRun, Step, Did, SwapChecked, ExchangeChecked,
           Hindered, Seen;
      o := Done;
      :- Attempt(BundleVerified);
      ghost var p0 := passed;
      if version <= w.disk.installed.version {
        return Raised;  // only a newer release can be installed
      }
      :- Attempt(Admitted);  // and the rollback package; no active transaction
      ghost var p1, from := passed, |history| - 1;
      o := Build(version, jobId, package);
      if o.Raised? && !w.raised {
        HindranceStays(history, from, history, |old(history)| - 1);
      }
      ChecksStay(p0, |old(passed)|, passed, |old(passed)|);
      ChecksStay(p1, |p0|, passed, |old(passed)|);
      ChecksStay(passed, |p1|, passed, |old(passed)|);
    }

    // ----- recovery and the worker ---------------------------------------

    /** lock_writes() and dropping the lock. */
    method SetMarker(on: bool) returns (o: Outcome)
      requires Valid() && (on || w.misled || Quiet(w.disk))
      modifies this
      ensures Valid() && old(history) <= history && old(passed) <= passed
      ensures steady ==> !o.Raised?
      ensures w == old(w).(marker := w.marker, services := w.services, procs := w.procs, raised := w.raised)
      ensures SameWorker(old(w).procs, w.procs) && Flagged(old(w), w, o)
      ensures o.Done? ==> w.marker == on
    {
      o := Save(w.(marker := on), false);
    }

    /** A job whose journal already is settled gets its result. */
    method Conclude(phase: JobPhase) returns (o: Outcome)
      requires Valid() && Working(w) && Quiet(w.disk)
      requires w.misled || Agree(w.disk, Shown(w.state, phase))
      modifies this
      ensures Valid() && old(history) <= history && old(passed) <= passed
      ensures w.misled == old(w).misled
      ensures steady ==> !o.Raised?
      ensures w.disk == old(w).disk && w.procs.worker == old(w).procs.worker && w.procs.boot == old(w).procs.boot
      ensures !o.Died? ==> Working(w)
      ensures Flagged(old(w), w, o)
      ensures w.state == Shown(old(w).state, phase) || (!o.Done? && w.state == old(w).state)
      ensures o.Done? ==> !w.marker
    {
      o := Done;
      :- Progress(phase, false);
      o := SetMarker(false);
    }

    /** Undo an interrupted switch, or close a journal that never got to one. */
    method Resume(t: Journal) returns (o: Outcome)
      requires Valid() && w.marker && Working(w) && !Quiet(w.disk) && w.disk.journal == Some(t)
      modifies this
      ensures Valid() && old(history) <= history && old(passed) <= passed
      ensures w.misled == old(w).misled
      ensures w.state == old(w).state && w.marker == old(w).marker && w.jobs == old(w).jobs
      ensures w.procs.worker == old(w).procs.worker && w.procs.boot == old(w).procs.boot
      ensures !o.Died? ==> Working(w)
      ensures Flagged(old(w), w, o)
      ensures o.Done? ==>
                && AllOld(w.disk, t) && w.services.native && w.services.web
                && w.disk.journal == Some(t.(phase := if t.phase == Stopping then Aborted else RolledBack))
    {
      assert DurableFor(w.disk, t);
      if t.phase == Stopping {
        :- CloseJournal(t, Aborted, false);
        o := StartServices();
      } else {
        o := Rollback(t);
      }
    }

    /** The journal is open: bring the old release back. */
    method Interrupted(t: Journal) returns (o: Outcome)
      requires Valid() && w.marker && Working(w) && !Quiet(w.disk) && w.disk.journal == Some(t)
      modifies this
      ensures Valid() && old(history) <= history && old(passed) <= passed
      ensures o.Done? ==> Showed(history, |old(history)| - 1, RollingBack)
      ensures steady && o.Raised? ==> w.marker
      ensures w.misled == old(w).misled
      ensures w.procs.worker == old(w).procs.worker && w.procs.boot == old(w).procs.boot
      ensures !o.Died? ==> Working(w)
      ensures Flagged(old(w), w, o)
      ensures o.Done? ==> Quiet(w.disk) && AllOld(w.disk, t) && !w.marker
      ensures o.Done? ==> w.state == Shown(old(w).state, JobRolledBack)
      ensures !w.misled ==> w.state.job.Some?
    {
      hide Durable, Tracked, Granted, Guarded, Ordered, Leaking, IsRun, Step;
      :- Tell(RollingBack);
      :- Resume(t);
      o := Conclude(JobRolledBack);
    }

    /**
     * recover(): whatever the last worker left behind is settled as all old
     * or recognised as all new.  It raises only if an effect did.
     */
    method Recover() returns (o: Outcome, handled: bool)
      requires Valid() && (w.disk.journal.Some? ==> w.marker) && !w.leaked && Working(w)
      modifies this
      ensures Valid() && old(history) <= history && old(passed) <= passed
      ensures steady && o.Raised? ==> w.marker
      ensures w.misled == old(w).misled
      ensures w.procs.worker == old(w).procs.worker && w.procs.boot == old(w).procs.boot
      ensures !o.Died? ==> Working(w)
      ensures Flagged(old(w), w, o)
      ensures o.Done? ==> Quiet(w.disk) && if handled then !w.marker else w == old(w)
      ensures o.Done? && old(w).disk.journal.Some? ==>
                var j := old(w).disk.journal.value;
                if j.phase == Committed then AllNew(w.disk, j) else AllOld(w.disk, j)
      ensures o.Done? && handled ==>
                && w.state == Shown(old(w).state, w.state.phase)
                && w.state.phase in {JobSucceeded, JobRolledBack, JobFailed}
      ensures o.Done? && !old(w).misled && Busy(old(w).state.phase) && Owns(old(w).disk, old(w).state) ==>
                handled && w.state.phase == Verdict(old(w).disk.journal.value.phase)
      ensures o.Done? && !old(w).misled && !(Busy(old(w).state.phase) && Owns(old(w).disk, old(w).state)) ==>
                !handled
      ensures o.Raised? && !w.misled ==> w.state.job.Some?
      ensures o.Done? && !handled && !w.misled && Owns(w.disk, w.state) ==> !Busy(w.state.phase)
    {
      handled := false;
      o := Done;
      if w.disk.journal.None? {
        return;
      }
      var t := w.disk.journal.value;
      assert DurableFor(w.disk, t);
      if t.phase == Committed {
        if Busy(w.state.phase) && w.state.job.Some? && w.state.job.value.version == t.target {
          if w.disk.installed.version != t.target {
            assert false;  // committed update and installed version disagree
          }
          :- Conclude(JobSucceeded);
          handled := true;
        }
      } else if Terminal(t.phase) {
        if Busy(w.state.phase) && w.state.job.Some? && w.state.job.value.id == t.jobId {
          :- Conclude(if t.phase == RolledBack then JobRolledBack else JobFailed);
          handled := true;
        }
      } else {
        :- Interrupted(t);
        handled := true;
      }
    }

    /** Recovery, and what is shown if it fails. */
    method Settle() returns (o: Outcome, handled: bool)
      requires Valid() && !w.leaked && Working(w)
      requires Busy(w.state.phase) || w.disk.journal.Some? ==> w.marker
      modifies this
      ensures Valid() && old(history) <= history && old(passed) <= passed
      ensures w.misled == old(w).misled && Flagged(old(w), w, Died)
      ensures w.procs.worker == old(w).procs.worker && w.procs.boot == old(w).procs.boot
      ensures !o.Died? ==> Working(w)
      ensures o.Raised? ==> w.raised
      ensures steady && o.Raised? ==> w.state.phase == RecoveryRequired && w.marker
      ensures o.Done? ==> Quiet(w.disk) && if handled then Told(w) && w.state.phase != RecoveryRequired else w == old(w)
      ensures o.Done? && !old(w).misled ==>
                && (handled <==> Busy(old(w).state.phase) && Owns(old(w).disk, old(w).state))
                && (handled ==> w.state == Shown(old(w).state, Verdict(old(w).disk.journal.value.phase)))
    {
      hide Durable, Tracked, Granted, Guarded, Ordered, Leaking, IsRun, Step, Did;
      o, handled := Recover();
      if o.Raised? {
        if !w.misled { BusyAgrees(w, RecoveryRequired); }
        o := Progress(RecoveryRequired, false);
        o := if o.Died? then Died else Raised;
      }
    }

    /** The checked candidate is consumed. */
    method WriteCandidate() returns (o: Outcome)
      requires Valid() && Working(w) && Quiet(w.disk) && (w.misled || w.state.phase == JobSucceeded)
      modifies this
      ensures Valid() && old(history) <= history && old(passed) <= passed
      ensures steady ==> !o.Raised?
      ensures Noted(old(w), w, o)
      ensures w.state == old(w).state.(candidate := None) || (!o.Done? && w.state == old(w).state)
      ensures o.Raised? ==> w.misled
    {
      o := Save(w.(state := w.state.(candidate := None)), true);
    }

    /** Download the release, verify and unpack it, and upgrade to it. */
    method Deliver(version: Version, jobId: int) returns (o: Outcome)
      requires Valid() && w.marker && !w.leaked && Working(w) && Quiet(w.disk)
      requires jobId in w.jobs && (w.misled || ForJob(w, version, jobId))
      modifies this
      ensures Valid() && old(history) <= history && old(passed) <= passed
      ensures o.Done? ==> Did(passed, |old(passed)|, Downloaded) && Checked(passed, |old(passed)|)
      ensures w.marker == old(w).marker && w.jobs == old(w).jobs
      ensures w.procs.worker == old(w).procs.worker && w.procs.boot == old(w).procs.boot
      ensures Flagged(old(w), w, Died)
      ensures !o.Died? ==> Working(w)
      ensures o.Done? ==>
                && w.disk.journal.Some? && w.disk.journal.value.phase == Committed
                && w.disk.journal.value.jobId == jobId && w.disk.journal.value.target == version
                && AllNew(w.disk, w.disk.journal.value)
      ensures version <= old(w).disk.installed.version ==> !o.Done? && w.disk == old(w).disk
      ensures o.Raised? && !w.raised ==>
                && (version <= old(w).disk.installed.version || Hindered(history, |old(history)| - 1))
                && w.disk.installed == old(w).disk.installed
                && (w.state.phase == RecoveryRequired ==> old(w).state.phase == RecoveryRequired)
      ensures o.Done? && !w.misled ==> Owns(w.disk, w.state)
      ensures o.Raised? && !w.misled && w.state.phase != RecoveryRequired ==>
                && Quiet(w.disk)
                && (Owns(w.disk, w.state) ==> w.disk.journal.value.phase in {Aborted, RolledBack})
    {
      hide Durable, Tracked, Granted, Guarded, Ordered, Leaking, Known, Agree, IsRun, Step, Did, Checked,
           Hindered, Seen;
      var package: Package := *;
      package := package.(version := version);
      o := Attempt(Downloaded);
      if o.Done? {
        ghost var p0, from := passed, |history| - 1;
        o := Upgrade(version, jobId, package);
        if o.Raised? && !w.raised && version > old(w).disk.installed.version {
          HindranceStays(history, from, history, |old(history)| - 1);
        }
        ChecksStay(p0, |old(passed)|, passed, |old(passed)|);
        ChecksStay(passed, |p0|, passed, |old(passed)|);
      }
    }

    /** The try block of work() for a queued job. */
    method RunJob() returns (o: Outcome)
      requires Valid() && w.marker && !w.leaked && Working(w) && Quiet(w.disk) && w.state.phase == Queued
      requires w.misled || !Owns(w.disk, w.state)
      modifies this
      ensures Valid() && old(history) <= history && old(passed) <= passed
      ensures o.Done? ==> Did(passed, |old(passed)|, Downloaded) && Checked(passed, |old(passed)|)
      ensures o.Done? ==> Showed(history, |old(history)| - 1, Downloading)
      ensures w.procs.worker == old(w).procs.worker && w.procs.boot == old(w).procs.boot
      ensures w.marker == old(w).marker && Flagged(old(w), w, Died)
      ensures !o.Died? ==> Working(w)
      ensures o.Done? ==> Quiet(w.disk)
      ensures o.Raised? && !w.misled && w.state.phase != RecoveryRequired ==>
                && Quiet(w.disk)
                && (Owns(w.disk, w.state) ==> w.disk.journal.value.phase in {Aborted, RolledBack})
      ensures (old(w).state.candidate.None? || old(w).state.job.None?
               || old(w).state.candidate.value <= old(w).disk.installed.version)
              ==> o.Raised? && w == old(w)
      ensures o.Raised? && !w.raised ==>
                && Hindered(history, |old(history)| - 1)
                && w.disk.installed == old(w).disk.installed && w.state.phase != RecoveryRequired
      ensures o.Done? ==>
                && old(w).state.candidate.Some?
                && w.disk.installed.version == old(w).state.candidate.value
      ensures o.Done? ==> w.state.phase == JobSucceeded && w.state.candidate == None
    {
      hide Durable, Tracked, Granted, Guarded, Ordered, Leaking, IsRun, Step, Did, Checked, Hindered, Seen;
      if w.state.candidate.None? || w.state.job.None? || w.state.candidate.value <= w.disk.installed.version {
        return Raised;  // queued release is no longer newer
      }
      var version, jobId := w.state.candidate.value, w.state.job.value.id;
      :- Tell(Downloading);
      ghost var p0, from := passed, |history| - 1;
      o := Deliver(version, jobId);
      if !o.Done? {
        if o.Raised? && !w.raised {
          HindranceStays(history, from, history, |old(history)| - 1);
        }
        return;
      }
      ghost var p1 := passed;
      :- Progress(JobSucceeded, true);
      o := WriteCandidate();
      ChecksStay(p1, |p0|, passed, |old(passed)|);
    }

    /** The handlers of work(): a failed job is recorded, and the maintenance
        marker goes unless recovery is still needed. */
    method Finish(result: Outcome) returns (o: Outcome)
      requires Valid() && Working(w) && !result.Died?
      requires result.Done? ==> Quiet(w.disk) && (w.misled || w.state.phase == JobSucceeded)
      requires result.Raised? && !w.misled && w.state.phase != RecoveryRequired ==>
                 && Quiet(w.disk)
                 && (Owns(w.disk, w.state) ==> w.disk.journal.value.phase in {Aborted, RolledBack})
      modifies this
      ensures Valid() && old(history) <= history && old(passed) <= passed
      ensures w.misled == old(w).misled
      ensures w.procs.worker == old(w).procs.worker && w.procs.boot == old(w).procs.boot
      ensures !o.Died? ==> Working(w)
      ensures w.disk == old(w).disk
      ensures o.Done? ==> result.Done?
      ensures !o.Died? && (steady || !w.raised) ==>
                && o == result
                && w.state == if result.Raised? && old(w).state.phase !in {JobRolledBack, RecoveryRequired}
                              then Shown(old(w).state, JobFailed) else old(w).state
      ensures Flagged(old(w), w, Unblamed(o))
      ensures w.state.phase == RecoveryRequired ==> w.state == old(w).state && w.marker == old(w).marker
      ensures (o.Done? || (o.Raised? && (steady || !w.raised))) && w.state.phase != RecoveryRequired ==> !w.marker
      ensures old(w).marker && !w.marker ==> w.misled || Quiet(w.disk)
    {
      hide Did;
      o := result;
      if result.Raised? && w.state.phase !in {JobRolledBack, RecoveryRequired} {
        o := Progress(JobFailed, false);
        o := if o.Died? then Died else Raised;
      }
      if !o.Died? && w.state.phase != RecoveryRequired {
        var r := SetMarker(false);
        o := if r.Done? then o else r;
      }
    }

    /** A queued job is run and its end recorded. */
    method RunQueued() returns (o: Outcome)
      requires Valid() && w.marker && !w.leaked && Working(w) && Quiet(w.disk) && w.state.phase == Queued
      requires w.misled || !Owns(w.disk, w.state)
      modifies this
      ensures Valid() && old(history) <= history && old(passed) <= passed
      ensures w.procs.worker == old(w).procs.worker && w.procs.boot == old(w).procs.boot
      ensures Flagged(old(w), w, Died)
      ensures !o.Died? ==> Working(w)
      ensures o.Done? ==> Quiet(w.disk)
      ensures !o.Died? && (steady || !w.raised) ==> Told(w)
      ensures !o.Died? && w.state.phase == RecoveryRequired && !w.misled ==> w.raised
      ensures !o.Died? && !w.raised ==>
                if o.Done? then
                  && w.state.phase == JobSucceeded
                  && Some(w.disk.installed.version) == old(w).state.candidate
                else
                  && Hindered(history, |old(history)| - 1)
                  && w.state.phase in {JobFailed, JobRolledBack}
                  && w.disk.installed == old(w).disk.installed
    {
      hide Durable, Tracked, Granted, Guarded, Ordered, Leaking, Known, Agree, IsRun, Step, Did, Hindered, Seen;
      o := RunJob();
      if !o.Died? {
        ghost var from, seen := |old(history)| - 1, history;
        o := Finish(o);
        if !w.raised && o.Raised? {
          HindranceStays(seen, from, history, from);
        }
      }
    }

    /** What work() does when there was nothing to recover. */
    method Serve() returns (o: Outcome)
      requires Valid() && (Busy(w.state.phase) ==> w.marker) && !w.leaked && Working(w) && Quiet(w.disk)
      requires !w.misled && Busy(w.state.phase) ==> !Owns(w.disk, w.state)
      modifies this
      ensures Valid() && old(history) <= history && old(passed) <= passed
      ensures w.misled && !old(w).misled ==> old(w).state.phase == Queued
      ensures w.procs.worker == old(w).procs.worker && w.procs.boot == old(w).procs.boot
      ensures Flagged(old(w), w, Died)
      ensures !o.Died? ==> Working(w)
      ensures o.Done? ==> Quiet(w.disk)
      ensures !o.Died? && (steady || !w.raised) ==> Told(w)
      ensures !o.Died? && w.state.phase == RecoveryRequired && !w.misled ==> w.raised
      ensures !o.Died? && !w.raised && !Busy(old(w).state.phase) ==> w.state == old(w).state
      ensures !o.Died? && !w.raised && Busy(old(w).state.phase) && old(w).state.phase != Queued ==>
                w.state == Shown(old(w).state, JobFailed)
      ensures !o.Died? && !w.raised && old(w).state.phase == Queued ==>
                if o.Done? then
                  && w.state.phase == JobSucceeded
                  && Some(w.disk.installed.version) == old(w).state.candidate
                else
                  && Hindered(history, |old(history)| - 1)
                  && w.state.phase in {JobFailed, JobRolledBack}
                  && w.disk.installed == old(w).disk.installed
    {
      hide Durable, Tracked, Granted, Guarded, Ordered, Leaking, IsRun, Step, Did, Hindered, Seen;
      if !Busy(w.state.phase) {
        o := SetMarker(false);
      } else if w.state.phase != Queued {
        :- Progress(JobFailed, false);
        o := SetMarker(false);
      } else {
        o := RunQueued();
      }
    }

    /** work(): one run of the update worker. */
    method Work() returns (o: Outcome)
      requires Valid() && !w.leaked && Working(w)
      modifies this
      ensures Valid() && old(history) <= history && old(passed) <= passed
      ensures w.misled && !old(w).misled ==> old(w).state.phase == Queued
      ensures w.procs.worker == old(w).procs.worker && w.procs.boot == old(w).procs.boot
      ensures !o.Died? ==> Working(w)
      ensures o.Done? ==> Quiet(w.disk)
      ensures !o.Died? && (steady || !w.raised) ==> Told(w)
      ensures !o.Died? && w.state.phase == RecoveryRequired && !w.misled ==> w.raised
      ensures !o.Died? && !w.raised && !Busy(old(w).state.phase) ==> w.state == old(w).state
      ensures !o.Died? && !w.raised && Busy(old(w).state.phase) && Owns(old(w).disk, old(w).state) ==>
                w.state == Shown(old(w).state, Verdict(old(w).disk.journal.value.phase))
      ensures !o.Died? && !w.raised && Busy(old(w).state.phase) && !Owns(old(w).disk, old(w).state) ==>
                if old(w).state.phase != Queued then w.state == Shown(old(w).state, JobFailed)
                else if o.Done? then
                  && w.state.phase == JobSucceeded
                  && Some(w.disk.installed.version) == old(w).state.candidate
                else
                  && Hindered(history, |old(history)| - 1)
                  && w.state.phase in {JobFailed, JobRolledBack}
                  && w.disk.installed == old(w).disk.installed
    {
      hide Durable, Tracked, Granted, Guarded, Ordered, Leaking, IsRun, Step, Did, Hindered, Seen;
      if Busy(w.state.phase) || w.disk.journal.Some? {
        :- SetMarker(true);
      }
      var handled: bool;
      o, handled := Settle();
      if !o.Done? || handled {
        return;
      }
      ghost var from := |history| - 1;
      o := Serve();
      if o.Raised? && !w.raised && old(w).state.phase == Queued {
        HindranceStays(history, from, history, |old(history)| - 1);
      }
    }

    // ----- requests ------------------------------------------------------

    /** A write of state.json that leaves the job alone. */
    method Refresh(next: JobState) returns (o: Outcome)
      requires Valid() && w.procs.worker.None?
      requires !Busy(w.state.phase) && !Busy(next.phase) && next.job == w.state.job
      modifies this
      ensures Valid() && old(history) <= history && old(passed) <= passed
      ensures w.misled == old(w).misled
      ensures steady ==> !o.Raised?
      ensures w.procs.worker == old(w).procs.worker && w.disk == old(w).disk
      ensures w.state == next || (!o.Done? && w.state == old(w).state)
    {
      o := Save(w.(state := next), false);
    }

    /** check(): `latest` is what the release server offers, if it answers. */
    method Check(latest: Option<Version>) returns (o: Outcome)
      requires Valid() && w.procs.worker.None?
      modifies this
      ensures Valid() && old(history) <= history && old(passed) <= passed
      ensures w.misled == old(w).misled
      ensures steady && !Busy(old(w).state.phase) ==> !o.Raised?
      ensures w.procs.worker == old(w).procs.worker && w.disk == old(w).disk
      ensures Busy(old(w).state.phase) ==> o.Raised? && w == old(w)
      ensures w.state.job == old(w).state.job
      ensures o.Done? && w.state.candidate.Some? ==>
                w.state.candidate == latest && w.disk.installed.version < latest.value
      ensures o.Done? && latest.None? ==> w.state.phase == CheckFailed && w.state.candidate.None?
      ensures o.Done? && latest.Some? ==>
                && (w.state.phase == Available <==> w.disk.installed.version < latest.value)
                && (w.state.candidate.Some? <==> w.state.phase == Available)
                && w.state.phase in {Available, UpToDate}
    {
      if Busy(w.state.phase) {
        return Raised;
      }
      :- Refresh(w.state.(candidate := None));
      var next := match latest
        case None => w.state.(phase := CheckFailed)
        case Some(v) =>
          if w.disk.installed.version < v
          then w.state.(phase := Available, candidate := latest)
          else w.state.(phase := UpToDate);
      o := Refresh(next);
    }

    /** install(): queue the checked candidate under a fresh job id. */
    method Install(version: Version, recent: bool, id: int) returns (o: Outcome)
      requires Valid() && w.procs.worker.None? && id !in w.jobs
      modifies this
      ensures Valid() && old(history) <= history && old(passed) <= passed
      ensures w.misled ==> old(w).misled
      ensures steady && o.Raised? ==>
                || Busy(old(w).state.phase) || old(w).state.candidate != Some(version) || !recent
                || version <= old(w).disk.installed.version
      ensures w.procs.worker == old(w).procs.worker && w.disk == old(w).disk
      ensures (Busy(old(w).state.phase) || old(w).state.candidate != Some(version) || !recent
               || version <= w.disk.installed.version) ==> o.Raised? && w == old(w)
      ensures o.Done? ==> w.state == JobState(Queued, Some(version),
                                              Some(Job(id, version, Queued, w.disk.installed)))
                          && w.marker
      ensures o.Done? ==> (w.misled <==> old(w).misled && !Quiet(w.disk))
    {
      if Busy(w.state.phase) || w.state.candidate != Some(version) || !recent
         || version <= w.disk.installed.version {
        return Raised;
      }
      var job := Job(id, version, Queued, w.disk.installed);
      :- Save(w.(state := w.state.(phase := Queued, job := Some(job)), jobs := w.jobs + {id},
                   misled := w.misled && !Quiet(w.disk)), false);
      o := SetMarker(true);
    }

    // ----- lives of the host ---------------------------------------------

    /** A worker process appears under an identity never used before. */
    method Spawn(pid: int, ticks: int) returns (started: bool)
      requires Valid() && w.procs.worker.None?
      modifies this
      ensures Valid() && old(history) <= history && old(passed) <= passed
      ensures started <==>
                && 1 < pid && pid !in old(w).procs.live
                && Identity(pid, ticks, old(w).procs.boot) !in old(w).procs.used
      ensures started ==> Working(w) && !w.leaked && w.procs.worker == Some(Identity(pid, ticks, old(w).procs.boot))
      ensures w == old(w).(procs := w.procs) && w.procs.permission == old(w).procs.permission
      ensures !started ==> w == old(w)
    {
      var id := Identity(pid, ticks, w.procs.boot);
      started := 1 < pid && pid !in w.procs.live && id !in w.procs.used;
      if started {
        Become(w.(procs := w.procs.(live := w.procs.live[pid := Process(ticks, false)],
                                    worker := Some(id), used := w.procs.used + {id})));
      }
    }

    /** The worker process is gone, with or without having cleaned up. */
    method Reap()
      requires Valid() && w.procs.worker.Some?
      modifies this
      ensures Valid() && old(history) <= history && old(passed) <= passed
      ensures w == old(w).(procs := w.procs, leaked := false)
      ensures w.procs == old(w).procs.(worker := None, live := w.procs.live)
      ensures old(w).procs.worker.value.pid !in w.procs.live
    {
      Become(w.(procs := w.procs.(live := w.procs.live - {w.procs.worker.value.pid}, worker := None),
                leaked := false));
    }

    /** Power is lost; /run may or may not be cleared. */
    method Reboot(boot: int, cleared: bool, panel: bool)
      requires Valid() && w.procs.worker.None?
      requires forall id <- w.procs.used :: id.boot != boot
      requires boot != w.procs.boot
      modifies this
      ensures Valid() && old(history) <= history && old(passed) <= passed
      ensures w == old(w).(services := w.services, procs := w.procs, marker := old(w).marker && !cleared)
      ensures !w.services.native && w.services.web == panel && w.services.dirs == old(w).services.dirs
      ensures w.procs == old(w).procs.(boot := boot, live := map[], permission := w.procs.permission)
      ensures w.procs.permission == if cleared then None else old(w).procs.permission
    {
      Become(w.(services := w.services.(native := false, web := panel),
                procs := w.procs.(boot := boot, live := map[],
                                  permission := if cleared then None else w.procs.permission),
                marker := w.marker && !cleared));
    }

    /**
     * Any schedule of requests, worker runs that end anywhere, reboots and
     * movements of other processes.  Every state it passes through is sound
     * and every step lawful: that is Valid().
     */
    method Live(schedule: seq<Act>)
      requires Valid() && w.procs.worker.None?
      modifies this
      ensures Valid() && old(history) <= history && old(passed) <= passed
    {
      for i := 0 to |schedule|
        invariant Valid() && w.procs.worker.None? && old(history) <= history && old(passed) <= passed
      {
        match schedule[i] {
          case Waits => Elapse();
          case Checks(latest) => var o := Check(latest);
          case Installs(version, recent, id) =>
            if id !in w.jobs {
              var o := Install(version, recent, id);
            }
          case Boots(boot, cleared, panel) =>
            if boot != w.procs.boot && forall used <- w.procs.used :: used.boot != boot {
              Reboot(boot, cleared, panel);
            }
          case Works(pid, ticks) =>
            var started := Spawn(pid, ticks);
            if started {
              var o := Work();
              Reap();
            }
        }
      }
    }
  }
}
