/**
 * The native eye scan: a lane is borrowed, measured column by column from
 * run-length encoded buffers, and given back.
 */
module EyeScan {
  import opened EyeDevice
  import opened EyeCounts

  const X_MAX := 129
  const Y_MAX := 256
  const MISSION := X_MAX  // the priming sample belongs to no column of the matrix

  datatype State = Idle | Preparing | Running | Complete | Cancelled | Failed

  /** What is scanned; fixed for the whole scan. */
  datatype Job = Job(id: int, mode: int, internalLoopback: bool, temporaryMaster: bool,
                     hasRestore: bool, xPoints: nat, yPoints: nat)
  {
    predicate Valid() {
      && xPoints in {33, 65, 129} && yPoints in {32, 64, 128, 256}
      && (internalLoopback || temporaryMaster ==> hasRestore)
    }
  }

  /** A loopback or a temporary firmware has to be put in place first. */
  predicate NeedsPreparation(job: Job) {
    job.internalLoopback || job.temporaryMaster
  }

  /** Where the scan stands; `pending` while a column is being measured. */
  datatype Progress = Progress(priming: bool, pending: bool, columnsDone: nat, row: nat, readIndex: nat, columnMs: int)

  /** What was done to the lane and must be undone, each noted before it is tried. */
  datatype Debts = Debts(paused: bool, prepared: bool, configured: bool)

  /** The true counts of one column. */
  ghost function TrueColumn(eye: (nat, nat) -> Word16, x: nat, yPoints: nat): seq<nat> {
    seq<nat>(yPoints, y requires 0 <= y => Decode(eye(x, y)))
  }

  /** The cell was measured, and holds what was measured; a timeout is no measurement. */
  ghost predicate Cell(errors: array2<nat>, eye: (nat, nat) -> Word16, x: nat, y: nat)
    requires x < errors.Length0 && y < errors.Length1
    reads errors
  {
    eye(x, y) != TIMEOUT && errors[x, y] == Decode(eye(x, y))
  }

  /** Whole columns 0..columns-1, and the first rows of the next. */
  ghost predicate Filled(errors: array2<nat>, eye: (nat, nat) -> Word16, columns: nat, height: nat, rows: nat)
    reads errors
  {
    && errors.Length0 == X_MAX && errors.Length1 == Y_MAX
    && columns <= X_MAX && height <= Y_MAX && rows <= height && (columns == X_MAX ==> rows == 0)
    && (forall x: nat, y: nat :: x < columns && y < height ==> Cell(errors, eye, x, y))
    && (forall y: nat :: y < rows ==> Cell(errors, eye, columns, y))
  }

  /** Everything done to the lane is on record. */
  predicate Owes(lane: Lane, debts: Debts, job: Job, pending: bool) {
    && (lane.dfePaused ==> debts.paused)
    && (lane.compare != job.mode || lane.armed ==> debts.configured)
    && (lane.prepared ==> debts.prepared)
    && (debts.prepared ==> job.hasRestore)
    && (lane.gathering ==> pending)
  }

  /** How the scan was left; `restored` and `restoreFailed` are decided when it is finished. */
  datatype Verdict = Verdict(state: State, restored: bool, restoreFailed: bool) {
    predicate Active() {
      state == Preparing || state == Running
    }
  }

  predicate Shape(job: Job, at: Progress, state: State) {
    && job.Valid() && at.columnsDone <= job.xPoints
    && (at.pending && at.priming ==> state != Running && at.row <= 1 && at.readIndex == at.row + 1)
    && (at.pending && !at.priming ==> state != Preparing && at.columnsDone < job.xPoints && at.readIndex >= 1
                                      && at.row == 4 * (at.readIndex - 1) <= job.yPoints)
    && (state == Running ==> !at.priming)
    && (state == Preparing ==> at.columnsDone == 0)
  }

  /** What a scan that is not active may say about the lane. */
  ghost predicate Settled(v: Verdict, job: Job, at: Progress, lane: Lane, finishes: nat, cancelRequested: bool) {
    if v.state == Idle then finishes == 0 && lane == Clean(job.mode) && !v.restoreFailed
    else
      && finishes == 1 && v.restored == !v.restoreFailed
      && (v.restored ==> lane == Clean(job.mode))
      && (v.state == Complete ==> at.columnsDone == job.xPoints && v.restored && !cancelRequested)
      && (v.state == Cancelled ==> v.restored && cancelRequested)
      && (v.restored && at.columnsDone == job.xPoints ==> v.state == Ending(cancelRequested))
  }

  /** What a scan ends as once the last column is in. */
  function Ending(cancelRequested: bool): State {
    if cancelRequested then Cancelled else Complete
  }

  class Scan {
    const device: Device
    const errors: array2<nat>
    var job: Job
    var at: Progress
    var debts: Debts
    var verdict: Verdict
    var preparationDone: bool
    var cancelRequested: bool
    var startedMs: int
    ghost var finishes: nat  // how often this scan was finished

    ghost predicate Measured()
      reads this, device, errors
    {
      Filled(errors, device.eye, at.columnsDone, job.yPoints, if at.pending && !at.priming then at.row else 0)
    }

    ghost predicate Valid()
      reads this, device, errors
    {
      && Shape(job, at, verdict.state) && Measured()
      && if verdict.Active() then Borrowed() && at.columnsDone < job.xPoints
         else Settled(verdict, job, at, device.lane, finishes, cancelRequested)
    }

    /** While the scan is active. */
    ghost predicate Borrowed()
      reads this, device
    {
      && Owes(device.lane, debts, job, at.pending)
      && (at.pending || verdict.state == Running ==> debts.configured)
      && (debts.configured && NeedsPreparation(job) ==> preparationDone)
      && finishes == 0 && verdict.Active() && !verdict.restored && !verdict.restoreFailed
    }

    constructor (device: Device, mode: int)
      requires device.lane == Clean(mode)
      ensures Valid() && verdict == Verdict(Idle, false, false) && this.device == device
      ensures at == Progress(false, false, 0, 0, 0, 0) && debts == Debts(false, false, false)
      ensures !preparationDone && !cancelRequested
    {
      this.device := device;
      errors := new nat[X_MAX, Y_MAX];
      job := Job(0, mode, false, false, false, 33, 32);
      at, debts := Progress(false, false, 0, 0, 0, 0), Debts(false, false, false);
      verdict := Verdict(Idle, false, false);
      preparationDone, cancelRequested, startedMs := false, false, 0;
      finishes := 0;
    }

    /** The comparator as it was, the sampler off. */
    method ShutDown() returns (failed: bool)
      modifies device`lane
      ensures device.lane == old(device.lane).(compare := device.lane.compare, armed := device.lane.armed)
      ensures !failed || device.temper == Obedient ==> device.lane.compare == job.mode && !device.lane.armed
      ensures device.temper == Healthy ==> !failed
    {
      var written := device.SetCompare(job.mode);
      var seen, mode := device.ReadCompare();
      var off := device.Disarm();
      failed := !written || !seen || mode != job.mode || !off;
    }

    /** Try every debt, whatever becomes of the others. */
    method Settle() returns (failed: bool)
      requires Owes(device.lane, debts, job, at.pending)
      modifies `debts, device`lane, device`log
      ensures !failed ==> device.lane == Clean(job.mode)
      ensures device.temper == Healthy ==> !failed
      ensures device.temper == Obedient ==> device.lane.(gathering := false) == Clean(job.mode)
      ensures old(debts.paused) && debts.paused ==> failed && device.lane.dfePaused == old(device.lane.dfePaused)
      ensures device.log == old(device.log).(restores := device.log.restores)
      ensures device.log.restores == old(device.log).restores +
                if (old(debts).prepared || old(debts).configured) && job.hasRestore then 1 else 0
    {
      failed := false;
      if at.pending {
        var ok, finished := device.Acknowledge();
        failed := !ok || !finished;
      }
      if debts.configured {
        var unsettled := ShutDown();
        failed := failed || unsettled;
      }
      var status := 0;
      if (debts.prepared || debts.configured) && job.hasRestore {
        status := device.Restore();
      }
      failed := failed || status != 0;
      if debts.paused && status != -2 {
        var resumed := device.SetDfe(false);
        failed := failed || !resumed;
      }
      if status != -2 {
        debts := debts.(paused := false);
      }
    }

    /**
     * finish.  Only if every debt was settled is the scan restored, and only
     * then may it be called what it was meant to end as.
     */
    method Finish(wanted: State)
      requires Shape(job, at, verdict.state) && Measured() && Borrowed()
      requires wanted in {Complete, Cancelled, Failed}
      requires wanted == Complete ==> at.columnsDone == job.xPoints && !cancelRequested
      requires wanted == Cancelled ==> cancelRequested
      requires at.columnsDone == job.xPoints ==> wanted == Ending(cancelRequested)
      modifies `debts, `verdict, `finishes, device`lane, device`log
      ensures Valid() && !verdict.Active() && verdict.state != Idle
      ensures verdict.state == if verdict.restored then wanted else Failed
      ensures device.temper == Healthy ==> verdict.restored
      ensures device.log == old(device.log).(restores := device.log.restores)
    {
      hide Filled;
      var failed := Settle();
      verdict := Verdict(if failed then Failed else wanted, !failed, failed);
      finishes := finishes + 1;
    }

    /** fm10k_eye_start.  A lane that could not be restored is never borrowed again. */
    method Start(j: Job, eye: (nat, nat) -> Word16) returns (accepted: bool)
      requires Valid() && j.mode == device.lane.compare
      modifies this, device
      ensures Valid()
      ensures accepted <==> !old(verdict.Active()) && !old(verdict.restoreFailed) && j.Valid()
      ensures accepted ==> verdict.state != Idle && device.eye == eye
      ensures accepted ==> job == j && at.columnsDone == 0 && old(device.lane) == Clean(j.mode)
      ensures !accepted ==> verdict == old(verdict) && at == old(at) && job == old(job) && device.eye == old(device.eye)
      ensures accepted ==> at == Progress(false, false, 0, 0, 0, 0) && !preparationDone && !cancelRequested
      ensures accepted ==> startedMs == device.log.clock
      ensures accepted && verdict.Active() ==>
                && device.lane.dfePaused
                && device.log.signals == old(device.log).signals + (if j.internalLoopback then [] else [true])
      ensures accepted && device.temper == Healthy ==> verdict.state == Preparing
    {
      if verdict.Active() || verdict.restoreFailed || !j.Valid() {
        return false;
      }
      job := j;
      at, debts := Progress(false, false, 0, 0, 0, 0), Debts(false, false, false);
      preparationDone, cancelRequested := false, false;
      finishes := 0;
      device.eye := eye;
      startedMs := device.Now();
      verdict := Verdict(Preparing, false, false);
      Pause();
      accepted := true;
    }

    /** The first thing a scan does to the lane. */
    method Pause()
      requires Valid() && verdict.state == Preparing && debts == Debts(false, false, false) && !at.pending
      modifies `debts, `verdict, `finishes, device`lane, device`log
      ensures Valid() && verdict.state != Idle
      ensures device.log == old(device.log).(restores := device.log.restores, signals := device.log.signals)
      ensures verdict.Active() ==>
                && device.lane.dfePaused
                && device.log.signals == old(device.log).signals + (if job.internalLoopback then [] else [true])
      ensures device.temper == Healthy ==> verdict.state == Preparing
    {
      hide Filled;
      var signal := job.internalLoopback;
      if !signal {
        signal := device.Signal();
      }
      if !signal {
        Finish(Failed);
        return;
      }
      debts := debts.(paused := true);  // noted first: a failed call may have worked
      var paused := device.SetDfe(true);
      if !paused {
        Finish(Failed);
      }
    }

    /** A request only; the running column is finished first. */
    method Cancel()
      requires Valid()
      modifies `cancelRequested
      ensures Valid() && cancelRequested == (verdict.Active() || old(cancelRequested))
    {
      if verdict.Active() {
        cancelRequested := true;
      }
    }

    /** The commands that aim the sampler; the debt is on record before the first of them. */
    method Setup() returns (ok: bool)
      requires Valid() && Borrowed() && (NeedsPreparation(job) ==> preparationDone)
      modifies `debts, device`lane
      ensures Valid() && Borrowed() && debts.configured
      ensures ok ==> device.lane.compare == 0x100
      ensures device.temper == Healthy ==> ok
    {
      hide Filled;
      debts := debts.(configured := true);
      ok := device.Arm();
      if !ok { return; }
      ok := device.SetCompare(0x100);
      if !ok { return; }
      var mode: int;
      ok, mode := device.ReadCompare();
      ok := ok && mode == 0x100;
    }

    method BeginGather(now: int)
      requires Valid() && Borrowed() && !at.pending && debts.configured
      requires at.priming <==> verdict.state == Preparing
      requires !at.priming ==> at.columnsDone < job.xPoints
      modifies `at, `debts, `verdict, `finishes, device`lane, device`log
      ensures Valid() && verdict.state != Idle
      ensures at == old(at).(row := 0, readIndex := 1, columnMs := now, pending := true)
      ensures if verdict.Active() then verdict == old(verdict) else verdict.state == Failed
      ensures device.temper == Healthy ==> verdict.Active()
      ensures device.log == old(device.log).(restores := device.log.restores)
    {
      hide Filled;
      at := at.(row := 0, readIndex := 1, columnMs := now, pending := true);
      var ok := device.Gather();
      if !ok {
        Finish(Failed);
      }
    }

    /** The equaliser is still at work, on a signal. */
    predicate Waits(dfe: Dfe) {
      dfe.ok && !dfe.lost && dfe.busy
    }

    /** Neither failed, nor lost where the signal comes from outside, nor at work. */
    predicate Usable(dfe: Dfe)
      reads this
    {
      dfe.ok && (dfe.lost ==> job.internalLoopback) && (dfe.busy ==> dfe.lost)
    }

    method TickPreparing(now: int)
      requires Valid() && verdict.state == Preparing && !at.pending
      modifies `at, `debts, `verdict, `finishes, `preparationDone, device`lane, device`log
      ensures Valid() && verdict.state in {Preparing, Failed} && at.columnsDone == old(at.columnsDone)
      ensures !device.log.dfe.ok || (device.log.dfe.lost && !job.internalLoopback) ==> verdict.state == Failed
      ensures Waits(device.log.dfe) ==>
                at == old(at) && (verdict.state == Failed <==> now - startedMs > 50000)
      ensures Usable(device.log.dfe) && NeedsPreparation(job) && !old(preparationDone) ==>
                && at == old(at) && (preparationDone <==> device.log.preparation == 0)
                && (verdict.state == Failed <==>
                      device.log.preparation < 0 || (device.log.preparation > 0 && now - startedMs > 120000))
      ensures Usable(device.log.dfe) && !(NeedsPreparation(job) && !old(preparationDone)) && verdict.state == Preparing ==>
                at.pending && at.priming && at.row == 0 && at.readIndex == 1 && at.columnMs == now
      ensures device.temper == Healthy ==> Usable(device.log.dfe) && verdict.state == Preparing
      ensures device.temper == Healthy && NeedsPreparation(job) && !old(preparationDone) ==> preparationDone
      ensures verdict.state == Preparing && at.pending ==> device.log.signals == old(device.log).signals + [true]
    {
      hide Filled;
      var ok, lost, busy := device.DfeStatus();
      if !ok || (lost && !job.internalLoopback) {
        Finish(Failed);
        return;
      }
      if !lost && busy {
        if now - startedMs > 50000 {
          Finish(Failed);
        }
        return;
      }
      if NeedsPreparation(job) && !preparationDone {
        Prepare(now);
        return;
      }
      ok := device.Signal();
      if ok {
        ok := Setup();
      }
      if !ok {
        Finish(Failed);
        return;
      }
      at := at.(priming := true);  // a mission sample first, to find the phase centre
      BeginGather(now);
    }

    method Prepare(now: int)
      requires Valid() && Borrowed() && job.hasRestore && !preparationDone && !at.pending && verdict.state == Preparing
      modifies `debts, `verdict, `finishes, `preparationDone, device`lane, device`log
      ensures Valid() && verdict.state in {Preparing, Failed} && (preparationDone <==> device.log.preparation == 0)
      ensures verdict.state == Failed <==>
                device.log.preparation < 0 || (device.log.preparation > 0 && now - startedMs > 120000)
      ensures device.temper == Healthy ==> device.log.preparation == 0
      ensures device.log == old(device.log).(preparation := device.log.preparation, restores := device.log.restores)
    {
      hide Filled;
      debts := debts.(prepared := true);
      var rc := device.Prepare();
      if rc < 0 {
        Finish(Failed);
      } else if rc == 0 {
        preparationDone := true;
      } else if now - startedMs > 120000 {
        Finish(Failed);
      }
    }

    function Points(): nat
      reads this
    {
      if at.priming then 1 else job.yPoints
    }

    /** The rows that this many buffer positions hold. */
    function Rows(available: nat): nat
      reads this
    {
      if 4 * available < Points() then 4 * available else Points()
    }

    /** Nothing the firmware measures times out. */
    ghost predicate NoTimeouts()
      reads device
    {
      forall x: nat, y: nat :: device.eye(x, y) != TIMEOUT
    }

    /** The column of the matrix being measured. */
    function Column(): nat
      reads this
    {
      if at.priming then MISSION else at.columnsDone
    }

    /** Store positions readIndex .. available of the current column; false on a firmware timeout. */
    method Unpack(available: nat, samples: Group) returns (ok: bool)
      requires Valid() && Borrowed() && at.pending && at.row < Points()
      requires at.readIndex <= available <= (Points() + 3) / 4
      requires forall y: nat :: 4 * at.readIndex - 4 <= y < 4 * available ==> samples.At(y) == device.eye(Column(), y)
      modifies `at, errors
      ensures Valid() && Borrowed() && at.pending
      ensures at == if ok then old(at).(row := Rows(available), readIndex := available + 1) else old(at)
      ensures ok <==> forall y: nat :: old(at.row) <= y < Rows(available) ==> samples.At(y) != TIMEOUT
    {
      var row := at.row;
      var end := available * 4;
      while row < end && row < Points()
        invariant at == old(at) && at.row <= row <= Points()
        invariant at.priming || row <= end
        invariant forall y: nat :: at.row <= y < row ==> samples.At(y) != TIMEOUT
        invariant Filled(errors, device.eye, at.columnsDone, job.yPoints, if at.priming then 0 else row)
      {
        var e := samples.At(row);
        if e == TIMEOUT {
          EarlierRows(errors, device.eye, at.columnsDone, job.yPoints, row, at.row);
          return false;
        }
        if !at.priming {
          assert 4 * at.readIndex - 4 <= row;
          Store(row, Decode(e));
        }
        row := row + 1;
      }
      at := at.(row := row, readIndex := available + 1);
      ok := true;
    }

    /** One cell of the current column. */
    method Store(row: nat, count: nat)
      requires at.columnsDone < X_MAX && row < job.yPoints
      requires Filled(errors, device.eye, at.columnsDone, job.yPoints, row)
      requires device.eye(at.columnsDone, row) != TIMEOUT && count == Decode(device.eye(at.columnsDone, row))
      modifies errors
      ensures Filled(errors, device.eye, at.columnsDone, job.yPoints, row + 1)
    {
      errors[at.columnsDone, row] := count;
      forall x: nat, y: nat | x < at.columnsDone && y < job.yPoints
        ensures Cell(errors, device.eye, x, y)
      {
        assert old(Cell(errors, device.eye, x, y));
      }
      forall y: nat | y < row
        ensures Cell(errors, device.eye, at.columnsDone, y)
      {
        assert old(Cell(errors, device.eye, at.columnsDone, y));
      }
    }

    /** The same column, no earlier in it. */
    predicate Further(a: Progress, b: Progress) {
      b == a.(row := b.row, readIndex := b.readIndex) && a.row <= b.row && a.readIndex <= b.readIndex
    }

    /** Up to 32 buffer reads of the pending column. */
    method Gather(now: int) returns (go: bool)
      requires Valid() && Borrowed() && at.pending
      modifies `at, `debts, `verdict, `finishes, errors, device`lane, device`log
      ensures Valid() && verdict.state != Idle && at.columnsDone == old(at.columnsDone)
      ensures go ==> Borrowed() && at.pending && at.row <= Points()
      ensures verdict.Active() ==> verdict == old(verdict) && Further(old(at), at)
      ensures !verdict.Active() ==> verdict.state == Failed
      ensures device.temper == Healthy && NoTimeouts() ==>
                go && (at.row == Points() || at.readIndex >= old(at.readIndex) + 32)
      ensures device.log.positions <= old(device.log).positions + 32
    {
      hide Filled;
      ghost var elapsed := 0;  // no position is read once eight milliseconds have gone by
      for blocks := 0 to 32
        invariant Valid() && Borrowed() && at.pending && verdict == old(verdict) && Further(old(at), at)
        invariant device.log.positions == old(device.log).positions + blocks && elapsed < 8
        invariant device.temper == Healthy && NoTimeouts() ==> at.readIndex >= old(at.readIndex) + blocks
      {
        if at.row >= Points() {
          break;
        }
        var ok, available, samples := device.ReadGroup(Column(), at.readIndex, (Points() + 3) / 4);
        if !ok {
          Finish(Failed);
          return false;
        }
        if available < at.readIndex {
          return false;
        }
        if available > (Points() + 3) / 4 {
          Finish(Failed);
          return false;
        }
        ok := Unpack(available, samples);
        if !ok {
          Finish(Failed);
          return false;
        }
        var later := device.Later(now);
        elapsed := later - now;
        if later - now >= 8 {
          return false;
        }
      }
      go := true;
    }

    /** A column has been closed: of the matrix, or the mission sample. */
    predicate Closed(a: Progress, b: Progress, v: Verdict) {
      if a.priming then !b.priming && b.columnsDone == a.columnsDone && v.state in {Running, Cancelled}
      else b.columnsDone == a.columnsDone + 1
    }

    /** The column is full: acknowledge it, and move on. */
    method CloseColumn()
      requires Valid() && Borrowed() && at.pending && at.row == Points()
      modifies `at, `debts, `verdict, `finishes, device`lane, device`log
      ensures Valid() && verdict.state != Idle && old(at.columnsDone) <= at.columnsDone <= old(at.columnsDone) + 1
      ensures at.columnsDone > old(at.columnsDone) ==>
                && !at.pending && !old(at.priming)
                && if cancelRequested || at.columnsDone == job.xPoints
                   then verdict.state == if verdict.restored then Ending(cancelRequested) else Failed
                   else verdict == old(verdict)
      ensures device.temper == Healthy ==> !at.pending && verdict.state != Failed && Closed(old(at), at, verdict)
    {
      hide Filled;
      var ok, finished := device.Acknowledge();
      if !ok {
        Finish(Failed);
        return;
      }
      if !finished {
        return;
      }
      if at.priming {
        Primed();
        return;
      }
      FullColumn(errors, device.eye, at.columnsDone, job.yPoints);
      at := at.(pending := false, columnsDone := at.columnsDone + 1);
      if cancelRequested {
        Finish(Cancelled);
      } else if at.columnsDone == job.xPoints {
        Finish(Complete);
      }
    }

    /** After the mission sample: read the phase centre, set the vertical range. */
    method Primed()
      requires Valid() && Borrowed() && at.pending && at.priming && !device.lane.gathering
      modifies `at, `debts, `verdict, `finishes, device`lane, device`log
      ensures Valid() && verdict.state != Idle && at.columnsDone == old(at.columnsDone) && !at.pending
      ensures verdict.Active() ==> verdict.state == Running && !at.priming && !cancelRequested
      ensures device.temper == Healthy ==>
                !at.priming && verdict.state == if cancelRequested then Cancelled else Running
    {
      hide Filled;
      at := at.(pending := false);
      var ok := device.Arm();
      if !ok {
        Finish(Failed);
        return;
      }
      at := at.(priming := false);
      verdict := verdict.(state := Running);
      if cancelRequested {
        Finish(Cancelled);
      }
    }

    /** The scan, and the column being measured, have not run out of time. */
    predicate InTime(now: int)
      reads this
    {
      startedMs <= now <= startedMs + 300000 && (at.pending ==> now - at.columnMs <= 15000)
    }

    /**
     * fm10k_eye_tick.  Columns are only ever added, and each holds what was
     * measured.  Out of time the scan fails; in time, where nothing else goes
     * wrong, every tick takes it further.
     */
    method Tick() returns (ghost now: int)
      requires Valid()
      modifies `at, `debts, `verdict, `finishes, `preparationDone, errors, device`lane, device`log
      ensures Valid() && at.columnsDone >= old(at.columnsDone)
      ensures old(verdict.Active()) ==> verdict.state != Idle
      ensures !old(verdict.Active()) ==> verdict == old(verdict) && at == old(at) && finishes == old(finishes)
      ensures cancelRequested && !old(at.pending) ==> !verdict.Active()
      ensures old(verdict.Active()) && !old(InTime(now)) ==> verdict.state == Failed
      ensures at.columnsDone > old(at.columnsDone) && (cancelRequested || at.columnsDone == job.xPoints) ==>
                verdict.state == if verdict.restored then Ending(cancelRequested) else Failed
      ensures device.temper == Healthy && NoTimeouts() && old(verdict.Active()) && old(InTime(now)) ==>
                && verdict.state != Failed
                && (cancelRequested && !old(at.pending) ==> verdict.state == Cancelled)
                && (!cancelRequested || old(at.pending) ==>
                      if old(at.pending) then
                        || (at.pending && Further(old(at), at) && at.readIndex >= old(at.readIndex) + 32)
                        || (!at.pending && Closed(old(at), at, verdict))
                      else if old(verdict.state) == Preparing && NeedsPreparation(job) && !old(preparationDone) then
                        preparationDone && at == old(at)
                      else
                        at == old(at).(priming := old(verdict.state) == Preparing, row := 0, readIndex := 1,
                                       columnMs := now, pending := true))
    {
      hide Filled;
      now := 0;
      if !verdict.Active() {
        return;
      }
      var time := device.Now();
      now := time;
      if time < startedMs || time - startedMs > 300000 {
        Finish(Failed);
        return;
      }
      if cancelRequested && !at.pending {
        Finish(Cancelled);
        return;
      }
      if verdict.state == Preparing && !at.pending {
        TickPreparing(time);
        return;
      }
      if !at.pending {
        TickRunning(time);
        return;
      }
      if time - at.columnMs > 15000 {
        Finish(Failed);
        return;
      }
      var go := Gather(time);
      if go && at.row == Points() {
        CloseColumn();
      }
    }

    method TickRunning(now: int)
      requires Valid() && verdict.state == Running && !at.pending
      modifies `at, `debts, `verdict, `finishes, device`lane, device`log
      ensures Valid() && verdict.state in {Running, Failed} && at.columnsDone == old(at.columnsDone)
      ensures verdict.state == Running ==>
                at == old(at).(row := 0, readIndex := 1, columnMs := now, pending := true)
      ensures device.temper == Healthy ==> verdict.state == Running
      ensures verdict.state == Running ==> device.log.signals == old(device.log).signals + [true]
    {
      hide Filled;
      if at.columnsDone >= job.xPoints {
        assert false;  // the last column has ended the scan
      }
      var ok := device.Signal();
      if !ok {
        Finish(Failed);
        return;
      }
      BeginGather(now);
    }
  }

  // ----- the matrix ------------------------------------------------------

  lemma EarlierRows(errors: array2<nat>, eye: (nat, nat) -> Word16, columns: nat, height: nat, rows: nat, fewer: nat)
    requires Filled(errors, eye, columns, height, rows) && fewer <= rows
    ensures Filled(errors, eye, columns, height, fewer) && Filled(errors, eye, columns, height, 0)
  {
  }

  lemma FullColumn(errors: array2<nat>, eye: (nat, nat) -> Word16, columns: nat, height: nat)
    requires Filled(errors, eye, columns, height, height) && 0 < height
    ensures Filled(errors, eye, columns + 1, height, 0)
  {
  }
}
