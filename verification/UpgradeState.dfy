/**
 * The durable state of the release updater, the processes around it, and what
 * has to hold in every state that a crash could expose.
 */
module UpgradeState {
  import opened Common

  // ----- data ------------------------------------------------------------

  /** Releases are ordered by their version tuple; only the order matters. */
  type Version = int

  datatype Tree = Tree(version: Version, content: int)
  datatype Package = Package(version: Version, content: int)
  /** The installed Web package; an interrupted dpkg run leaves it broken. */
  datatype Web = Broken | Installed(package: Package)
  /** installation.json. */
  datatype Metadata = Metadata(version: Version, package: Package)
  /** Contents of /etc, the native state and the Web state directories. */
  datatype Dirs = Dirs(etc: Option<int>, native: Option<int>, web: Option<int>)
  datatype Digests = Digests(dirs: Dirs, native: Tree)
  datatype Backup = Backup(native: Option<Tree>, dirs: Dirs, deb: Option<Package>)

  datatype Phase = Stopping | Checkpointed | Switching | Committed | RolledBack | Aborted

  /** transaction.json.  `origin`, `staged` and `package` are bookkeeping: the
      native tree when the journal was opened (the file itself keeps only its
      digest), and the tree and the package that are to take its place. */
  datatype Journal = Journal(phase: Phase, before: Metadata, origin: Tree, target: Version,
                             jobId: int, digests: Option<Digests>, staged: Tree, package: Package)

  datatype JobPhase =
    | Idle | Available | UpToDate | CheckFailed
    | Queued | Downloading | Preparing | Installing | Restarting | RollingBack | RecoveryRequired
    | JobSucceeded | JobRolledBack | JobFailed

  /** The current job of state.json.  `prior` is bookkeeping: the installed
      release when the job was queued. */
  datatype Job = Job(id: int, version: Version, phase: JobPhase, prior: Metadata)
  /** state.json. */
  datatype JobState = JobState(phase: JobPhase, candidate: Option<Version>, job: Option<Job>)

  datatype Identity = Identity(pid: int, ticks: int, boot: int)
  datatype Process = Process(ticks: int, zombie: bool)

  /** The upgrade's own part of the disk. */
  datatype Disk = Disk(native: Option<Tree>, web: Web, installed: Metadata,
                       backup: Backup, journal: Option<Journal>)
  /** Running services and the directories they write.  Native services run
      from their admission by the gate to the next completed stop. */
  datatype Services = Services(dirs: Dirs, native: bool, web: bool)
  /** /proc, the permission file, and as bookkeeping the update worker now
      running and every identity so far. */
  datatype Processes = Processes(permission: Option<Identity>, boot: int, live: map<int, Process>,
                                 worker: Option<Identity>, used: set<Identity>)

  datatype World = World(
    disk: Disk, services: Services, procs: Processes,
    state: JobState, marker: bool,
    // bookkeeping only
    jobs: set<int>,         // every job id so far
    commits: seq<Version>,  // versions installed so far, oldest first
    misled: bool,           // a save has raised where the worker then tells a wrong story
    leaked: bool,           // the worker's own permission has outlived its block
    raised: bool)           // some effect has raised

  // ----- the startup gate ------------------------------------------------

  predicate Terminal(p: Phase) {
    p in {Committed, RolledBack, Aborted}
  }

  /** The journal is absent or terminal. */
  predicate Quiet(d: Disk) {
    d.journal.Some? ==> Terminal(d.journal.value.phase)
  }

  /** Reads /proc: a missing, zombie or dead process has no identity. */
  function ProcessIdentity(p: Processes, pid: int): Option<Identity> {
    if pid in p.live && !p.live[pid].zombie
    then Some(Identity(pid, p.live[pid].ticks, p.boot))
    else None
  }

  /** The permission file names a process that is alive right now. */
  predicate Granted(p: Processes) {
    && p.permission.Some?
    && 1 < p.permission.value.pid
    && ProcessIdentity(p, p.permission.value.pid) == p.permission
  }

  /** verify_update_gate returns instead of raising. */
  predicate GateAdmits(w: World) {
    Quiet(w.disk) || Granted(w.procs)
  }

  /** Over an absent or finished journal every start is admitted; over an open
      one exactly those made while the file names a process by its pid, start
      time and boot that lives and is no zombie. */
  lemma GateIs(w: World)
    ensures w.disk.journal.None? ==> GateAdmits(w)
    ensures w.disk.journal.Some? && w.disk.journal.value.phase in {Committed, RolledBack, Aborted} ==> GateAdmits(w)
    ensures w.disk.journal.Some? && w.disk.journal.value.phase in {Stopping, Checkpointed, Switching} ==>
              (GateAdmits(w) <==>
                 exists pid: int, ticks: int ::
                   && w.procs.permission == Some(Identity(pid, ticks, w.procs.boot))
                   && pid > 1 && pid in w.procs.live && w.procs.live[pid] == Process(ticks, false))
  {
    if w.procs.permission.Some? {
      var id := w.procs.permission.value;
      assert id == Identity(id.pid, id.ticks, id.boot);
      if id.pid in w.procs.live {
        assert w.procs.live[id.pid] == Process(w.procs.live[id.pid].ticks, w.procs.live[id.pid].zombie);
      }
    }
  }

  // ----- what every reachable state satisfies ----------------------------

  predicate Matched(d: Disk) {
    d.native.Some? && d.web.Installed? && d.native.value.version == d.web.package.version
  }

  /** Native tree, Web package and installation record belong together. */
  predicate Consistent(d: Disk) {
    Matched(d) && d.web.package == d.installed.package && d.native.value.version == d.installed.version
  }

  predicate AllOld(d: Disk, j: Journal) {
    d.native == Some(j.origin) && d.web == Installed(j.before.package) && d.installed == j.before
  }

  predicate AllNew(d: Disk, j: Journal) {
    d.native == Some(j.staged) && d.web == Installed(j.package) && d.installed == Metadata(j.target, j.package)
  }

  predicate WellFormed(j: Journal) {
    j.origin.version == j.before.version == j.before.package.version < j.target == j.staged.version == j.package.version
  }

  predicate Complete(d: Dirs) {
    d.etc.Some? && d.native.Some? && d.web.Some?
  }

  /** Everything rollback needs is in the checkpoint directory. */
  predicate CheckpointHolds(d: Disk, j: Journal) {
    && j.digests.Some?
    && j.digests.value.native == j.origin
    && Complete(j.digests.value.dirs)
    && d.backup.dirs == j.digests.value.dirs
    && d.backup.deb == Some(j.before.package)
  }

  predicate NativeRecoverable(d: Disk, j: Journal) {
    || d.backup.native == Some(j.origin)
    || (j.phase != Switching && d.backup.native == None && d.native == Some(j.origin))
  }

  predicate DurableFor(d: Disk, j: Journal) {
    && WellFormed(j)
    && match j.phase {
         case Committed => AllNew(d, j)
         case RolledBack => AllOld(d, j)
         case Aborted => AllOld(d, j)
         case Stopping => AllOld(d, j)
         case Checkpointed => CheckpointHolds(d, j) && NativeRecoverable(d, j) && d.installed == j.before
         case Switching => CheckpointHolds(d, j) && NativeRecoverable(d, j)
       }
  }

  /** What survives a crash is always repairable. */
  predicate Durable(d: Disk) {
    if d.journal.Some? then DurableFor(d, d.journal.value) else Consistent(d)
  }

  predicate Busy(p: JobPhase) {
    p in {Queued, Downloading, Preparing, Installing, Restarting, RollingBack, RecoveryRequired}
  }

  /** The journal belongs to the job that state.json shows. */
  predicate Owns(d: Disk, s: JobState) {
    d.journal.Some? && s.job.Some? && d.journal.value.jobId == s.job.value.id
  }

  predicate JobAgrees(d: Disk, s: JobState, job: Job) {
    && job.prior.version < job.version
    && (Busy(job.phase) ==> s.phase == job.phase)
    && if Owns(d, s) then
         var j := d.journal.value;
         && j.target == job.version
         && j.before == job.prior
         && (job.phase == JobSucceeded ==> j.phase == Committed)
         && (job.phase in {JobFailed, JobRolledBack} ==> j.phase in {Aborted, RolledBack})
       else
         && d.installed == job.prior
         && job.phase !in {JobSucceeded, JobRolledBack}
  }

  /** state.json, the journal and the installed release tell one story. */
  predicate Agree(d: Disk, s: JobState) {
    && (!Quiet(d) ==> Owns(d, s) && Busy(s.phase))
    && (Busy(s.phase) ==> s.job.Some? && s.job.value.phase == s.phase)
    && (s.phase == Queued ==> s.candidate == Some(s.job.value.version))
    && (s.job.Some? ==> JobAgrees(d, s, s.job.value))
  }

  /** No job id on record was made up. */
  predicate Known(d: Disk, s: JobState, jobs: set<int>) {
    && (d.journal.Some? ==> d.journal.value.jobId in jobs)
    && (s.job.Some? ==> s.job.value.id in jobs)
  }

  predicate Increasing(s: seq<Version>) {
    forall i, k :: 0 <= i < k < |s| ==> s[i] < s[k]
  }

  /** The installed release is the last one committed. */
  predicate Ordered(d: Disk, commits: seq<Version>) {
    && commits != []
    && Increasing(commits)
    && commits[|commits| - 1] == if Quiet(d) then d.installed.version else d.journal.value.before.version
  }

  /** The worker is alive, and identities are never used twice. */
  predicate Tracked(p: Processes) {
    && (p.permission.Some? ==> p.permission.value in p.used)
    && (p.worker.Some? ==> p.worker.value in p.used && 1 < p.worker.value.pid &&
                           ProcessIdentity(p, p.worker.value.pid) == p.worker)
    && (forall pid <- p.live :: Identity(pid, p.live[pid].ticks, p.boot) in p.used)
  }

  /** The live directories are those of the checkpoint. */
  predicate AtCheckpoint(d: Disk, dirs: Dirs) {
    d.journal.Some? && d.journal.value.digests.Some? && dirs == d.journal.value.digests.value.dirs
  }

  /** Only the running worker holds a permission that the gate honours, and
      only over a matched pair on the directories of the checkpoint. */
  predicate Guarded(w: World) {
    Granted(w.procs) ==>
      && w.procs.permission == w.procs.worker
      && Matched(w.disk)
      && (!Quiet(w.disk) && !w.services.native ==>
            !w.services.web && AtCheckpoint(w.disk, w.services.dirs))
  }

  /** Writing the permission, or removing it, has raised and left the file of
      the worker that still runs. */
  predicate Leaking(w: World) {
    w.raised && w.procs.worker.Some? && w.procs.permission == w.procs.worker
  }

  predicate Inv(w: World) {
    && Durable(w.disk)
    && Tracked(w.procs)
    && (if w.leaked then Leaking(w) else Guarded(w))
    && Ordered(w.disk, w.commits)
    && Known(w.disk, w.state, w.jobs)
    && (w.misled ==> w.raised)
    && (!w.misled ==> Agree(w.disk, w.state))
  }

  /** What every pair of successive states satisfies. */
  predicate Step(a: World, b: World) {
    // The maintenance marker is taken away only once the journal is settled.
    && (a.marker && !b.marker && a.procs.boot == b.procs.boot && !b.misled ==>
          Quiet(a.disk) && Quiet(b.disk))
    // Services first start on the directories of the checkpoint.
    && (!a.services.native && b.services.native && !Quiet(a.disk) ==>
          GateAdmits(a) && (a.leaked || AtCheckpoint(a.disk, a.services.dirs)))
    // The release only ever changes under the marker.
    && (a.disk != b.disk ==> a.marker)
    // Nothing is ever uncommitted.
    && a.commits <= b.commits
    && (b.disk.journal.Some? && b.disk.journal.value.phase == Committed && a.disk.journal != b.disk.journal ==>
          b.commits == a.commits + [b.disk.journal.value.target])
  }

  /** What the rest of the host may do between two effects of the worker:
      running services write their directories, native services start when the
      gate admits them, and other processes come and go. */
  predicate Drift(a: World, b: World) {
    && b == a.(services := b.services, procs := b.procs)
    && ServicesMove(a.services, b.services, GateAdmits(a))
    && ProcessesMove(a.procs, b.procs)
  }

  predicate ServicesMove(a: Services, b: Services, admitted: bool) {
    && a.web == b.web
    && (a.native ==> b.native)
    && (b.native && !a.native ==> admitted)
    && (!b.native ==> b.dirs.etc == a.dirs.etc && b.dirs.native == a.dirs.native)
    && (!b.native && !a.web ==> b.dirs.web == a.dirs.web)
  }

  /** The worker lives on; nobody else takes over an identity already used. */
  predicate ProcessesMove(a: Processes, b: Processes) {
    && b == a.(live := b.live, used := b.used)
    && a.used <= b.used
    && (a.worker.Some? ==> ProcessIdentity(b, a.worker.value.pid) == a.worker)
    && forall pid <- b.live ::
         var id := Identity(pid, b.live[pid].ticks, a.boot);
         && id in b.used
         && (id in a.used && !b.live[pid].zombie ==> ProcessIdentity(a, pid) == Some(id))
  }

  lemma DriftIsHarmless(a: World, b: World)
    requires Inv(a) && Drift(a, b)
    ensures Inv(b) && Step(a, b)
  {
    if Granted(b.procs) {
      var pid := b.procs.permission.value.pid;
      assert Identity(pid, b.procs.live[pid].ticks, a.procs.boot) == a.procs.permission.value;
      assert Granted(a.procs);
    }
  }

  lemma StandingStill(w: World)
    requires Inv(w)
    ensures Drift(w, w)
  {
  }

  // ----- consequences ----------------------------------------------------

  /** Unless a permission has leaked no admitted start sees a missing native
      tree or a mixed pair, and outside a settled journal only the live
      permission writer is ever admitted. */
  lemma AdmittedStartSeesMatchedPair(w: World)
    requires Inv(w) && GateAdmits(w)
    ensures !w.leaked || Quiet(w.disk) ==> Matched(w.disk)
    ensures !Quiet(w.disk) ==>
              && w.procs.worker.Some? && w.procs.permission == w.procs.worker
              && ProcessIdentity(w.procs, w.procs.worker.value.pid) == w.procs.worker
  {
    if Quiet(w.disk) && w.disk.journal.Some? {
      assert DurableFor(w.disk, w.disk.journal.value);
    }
  }

  /** A settled journal means all old or all new, and new exactly when the
      commit was journaled. */
  lemma SettledIsAllOldOrAllNew(w: World)
    requires Inv(w) && w.disk.journal.Some? && Quiet(w.disk)
    ensures var j := w.disk.journal.value;
            && (j.phase == Committed ==> AllNew(w.disk, j) && !AllOld(w.disk, j))
            && (j.phase != Committed ==> AllOld(w.disk, j) && !AllNew(w.disk, j))
  {
    assert DurableFor(w.disk, w.disk.journal.value);
  }

  /** Until a release is committed the old one can be rebuilt. */
  lemma UnsettledIsRecoverable(w: World)
    requires Inv(w) && !Quiet(w.disk)
    ensures var j := w.disk.journal.value;
            || AllOld(w.disk, j)
            || (CheckpointHolds(w.disk, j) && Some(j.origin) in {w.disk.backup.native, w.disk.native})
  {
    assert DurableFor(w.disk, w.disk.journal.value);
  }

  /** What the panel shows about a finished job is true, unless a save has
      raised where the worker then tells a wrong story about this very job. */
  lemma ShownOutcomeIsTrue(w: World)
    requires Inv(w) && !w.misled && w.state.job.Some?
    ensures var job := w.state.job.value;
            && (job.phase == JobSucceeded ==>
                  && w.disk.journal.Some? && w.disk.journal.value.phase == Committed
                  && Consistent(w.disk) && w.disk.installed.version == job.version)
            && (job.phase in {JobFailed, JobRolledBack} ==>
                  && Quiet(w.disk) && Consistent(w.disk)
                  && w.disk.installed == job.prior && w.disk.installed.version < job.version)
  {
    if w.disk.journal.Some? {
      assert DurableFor(w.disk, w.disk.journal.value);
    }
  }

  /** Identities are never reused, so a recycled pid does not inherit a
      dead worker's permission. */
  lemma RecycledPidIsRefused(w: World, pid: int, p: Process)
    requires Inv(w) && !Quiet(w.disk) && w.procs.worker == None
    requires w.procs.permission.Some? && w.procs.permission.value.pid == pid
    requires Identity(pid, p.ticks, w.procs.boot) !in w.procs.used
    ensures !GateAdmits(w.(procs := w.procs.(live := w.procs.live[pid := p])))
  {
  }

  /** Nor does a permission survive a reboot. */
  lemma RebootRevokesPermission(w: World, boot: int, live: map<int, Process>)
    requires Inv(w) && !Quiet(w.disk)
    requires forall id <- w.procs.used :: id.boot != boot
    ensures !GateAdmits(w.(procs := w.procs.(boot := boot, live := live)))
  {
  }

  /** A host on which a first installation has just finished. */
  function FreshHost(tree: Tree, package: Package, dirs: Dirs): World {
    World(Disk(Some(tree), Installed(package), Metadata(tree.version, package),
               Backup(None, Dirs(None, None, None), None), None),
          Services(dirs, true, true),
          Processes(None, 0, map[], None, {}),
          JobState(Idle, None, None), false, {}, [tree.version], false, false, false)
  }

  lemma FreshHostIsSound(tree: Tree, package: Package, dirs: Dirs)
    requires tree.version == package.version
    ensures Inv(FreshHost(tree, package, dirs))
  {
  }
}
