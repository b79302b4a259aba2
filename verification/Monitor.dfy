/**
 * The fan controller: what the software believes about the chip, and why it
 * may believe it.  Temperatures are reals; clock values are 64-bit milliseconds.
 */
module Monitor {
  import opened BoardBus
  import opened Common
  import opened FanCurves
  import opened FanControl

  const SAMPLE_PERIOD_MS := 5000
  const STALE_MS := 15000
  const WORD := 0x1_0000_0000_0000_0000

  datatype FanState = FanState(curve: Curve, curveValid: bool, manual: bool, deadlineMs: nat, failsafe: bool)

  datatype Measurement = Measurement(available: bool, valid: bool, value: real, sampledMs: nat) {
    predicate Fresh(now: nat) {
      available && valid && now >= sampledMs && now - sampledMs < STALE_MS
    }

    function Measure(valid: bool, value: real, now: nat): Measurement {
      if valid then Measurement(true, true, value, now) else this.(valid := false)
    }
  }

  /** A valid sample stays fresh for fifteen seconds; an invalid one is not,
      however old the value it leaves in place. */
  lemma FreshFor(t: Measurement, valid: bool, value: real, taken: nat, now: nat)
    ensures t.Measure(true, value, taken).Fresh(now) <==> taken <= now < taken + 15000
    ensures t.Measure(true, value, taken).value == value
    ensures !t.Measure(false, value, taken).Fresh(now) && t.Measure(false, value, taken).value == t.value
    ensures !t.available ==> !t.Fresh(now)
  {
  }

  /** Autonomous control of this curve, with nothing overriding it. */
  function Running(curve: Curve): FanState {
    FanState(curve, true, false, 0, false)
  }

  /** The curve may be let run at this temperature. */
  predicate Cool(t: Measurement, f: Curve, now: nat) {
    t.Fresh(now) && t.value < f.criticalC as real
  }

  /** ... and far enough below critical to leave the failsafe. */
  predicate Recovered(t: Measurement, f: Curve, now: nat) {
    Cool(t, f, now) && t.value <= (f.criticalC - f.hysteresisC) as real
  }

  /** The chip may run free: coming from the failsafe it has to be cooler. */
  predicate MayRun(fan: FanState, t: Measurement, f: Curve, now: nat) {
    if fan.failsafe then Recovered(t, f, now) else Cool(t, f, now)
  }

  /** What the chip does is what the controller thinks it does. */
  ghost predicate Truthful(fan: FanState, r: Regs) {
    fan.curveValid && !fan.failsafe ==>
      && fan.curve.Valid() && Runs(r, fan.curve)
      && if fan.manual then Mode(r) == 0x30 else Auto(r)
  }

  ghost predicate Sound(fan: FanState, r: Regs) {
    && (fan.manual ==> fan.curveValid && !fan.failsafe)
    && (fan.curveValid ==> fan.curve.Valid())
    && Truthful(fan, r)
  }

  /** What the 35 registers hold. */
  ghost function ImageOf(r: Regs): (image: seq<Byte>)
    ensures |image| == IMAGE && forall i: nat :: i < IMAGE ==> image[i] == At(r, Slot(i))
  {
    seq(IMAGE, i requires 0 <= i < IMAGE => At(r, Slot(i)))
  }

  lemma ReloadedMatches(r: Regs, before: Snapshot)
    requires before.WellFormed() && Matches(before.image, before.curve)
    requires Written(r, before.image, CONTROLS) && (Full(r) || (Auto(r) && before.curve.Some?))
    ensures Matches(ImageOf(r), before.curve) && before.image[..CONTROLS] == ImageOf(r)[..CONTROLS]
  {
    var image := ImageOf(r);
    assert image[33] == Mode(r) && image[34] == At(r, Slot(34));
    forall i: nat | i < CONTROLS
      ensures image[i] == before.image[i]
    {
      assert image[i] == At(r, Slot(i));
    }
  }

  lemma {:induction false} JoinRuns(a: seq<Regs>, c: seq<Regs>)
    requires a <= c && SafeRun(a, 1) && SafeRun(c, |a|)
    ensures SafeRun(c, 1)
  {
    forall i | 1 <= i < |c|
      ensures SafeStep(c[i - 1], c[i])
    {
      if i < |a| {
        assert c[i] == a[i] && c[i - 1] == a[i - 1];
      }
    }
  }

  /** What the controller has asked the bus layer for, whether or not it worked. */
  datatype Attempt = LoadCurve(f: Curve, full: bool) | LoadImage(image: seq<Byte>, full: bool) | FullSpeed | ReadImage

  class Controller {
    const bus: Bus
    var fan: FanState
    var core: Measurement
    var fanDue: nat
    ghost var tried: seq<Attempt>

    /** The invariant of every state the interface can reach. */
    ghost predicate Valid()
      reads this, bus
    {
      Recoverable() && Sound(fan, bus.regs)
    }

    /** What holds even halfway through a transaction: the chip was never mistreated. */
    ghost predicate Recoverable()
      reads this, bus
    {
      && bus.Valid() && SafeRun(bus.trace, 1)
      && (fan.curveValid ==> fan.curve.Valid())
    }

    /** fm10k_monitor_init: no I/O, nothing believed. */
    constructor (bus: Bus)
      requires bus.Valid() && |bus.trace| == 1
      ensures Valid() && this.bus == bus && !fan.curveValid && !fan.manual && !fan.failsafe && fan.deadlineMs == 0
      ensures !core.available && !core.valid && fanDue == 0
    {
      this.bus := bus;
      fan := FanState(Curve(0, 0, 0, 0, 0, 0, 0), false, false, 0, false);
      core := Measurement(false, false, 0.0, 0);
      fanDue := 0;
      tried := [];
    }

    // ----- one fan operation, with the history kept safe -----------------

    method Program(f: Curve, fullSpeed: bool) returns (rc: Rc)
      requires bus.Valid() && SafeRun(bus.trace, 1)
      modifies bus, `tried
      ensures bus.Valid() && SafeRun(bus.trace, 1) && old(bus.trace) <= bus.trace
      ensures rc in {OK, IO, INVALID} && (rc == INVALID <==> !f.Valid())
      ensures rc == INVALID ==> bus.regs == old(bus.regs)
      ensures rc == OK ==> Runs(bus.regs, f) && if fullSpeed then Full(bus.regs) else Auto(bus.regs)
      ensures bus.healthy ==> rc != IO
      ensures bus.reachable && rc == IO ==> EndsFull(bus.asked)
      ensures bus.reachable ==> bus.mux == old(bus.mux)
      ensures tried == old(tried) + [LoadCurve(f, fullSpeed)]
    {
      tried := tried + [LoadCurve(f, fullSpeed)];
      rc := Configure(bus, f, fullSpeed);
      JoinRuns(old(bus.trace), bus.trace);
    }

    method RunFull() returns (rc: Rc)
      requires bus.Valid() && SafeRun(bus.trace, 1)
      modifies bus, `tried
      ensures bus.Valid() && SafeRun(bus.trace, 1) && old(bus.trace) <= bus.trace && rc in {OK, IO}
      ensures SameControls(old(bus.regs), bus.regs)
      ensures rc == OK ==> Full(bus.regs)
      ensures bus.healthy ==> rc == OK
      ensures bus.reachable ==> EndsFull(bus.asked) && bus.mux == old(bus.mux)
      ensures tried == old(tried) + [FullSpeed]
    {
      tried := tried + [FullSpeed];
      rc := FanFull(bus);
      JoinRuns(old(bus.trace), bus.trace);
    }

    // ----- fan_manual and fan_tick ---------------------------------------

    /** The two manual writes, on the selected fan branch. */
    method WriteDuty(duty: Byte) returns (rc: Rc)
      requires bus.Valid() && bus.mux == FAN && SafeRun(bus.trace, 1)
      modifies bus`regs, bus`trace, bus`asked
      ensures bus.Valid() && SafeRun(bus.trace, 1) && old(bus.trace) <= bus.trace && rc in {OK, IO}
      ensures SameControls(old(bus.regs), bus.regs)
      ensures rc == OK ==> Mode(bus.regs) == 0x30 && At(bus.regs, Slot(34)) == duty
      ensures bus.healthy ==> rc == OK
      ensures rc != OK ==> EndsFull(bus.asked)
    {
      rc := WriteVerified(bus, 33, 0x30);
      if rc == OK {
        rc := WriteVerified(bus, 34, duty);
      }
      if rc != OK {
        var full := SelectFull(bus);
      }
    }

    /** fm10k_monitor_manual: a bounded manual duty, never below full when critical. */
    method Manual(percent: int, seconds: int, now: nat) returns (rc: Rc)
      requires Valid()
      modifies this, bus
      ensures Valid()
      ensures rc == INVALID <==>
                old(fan.failsafe) || !old(fan.curveValid) || !old(core).Fresh(now)
                || !(25 <= percent <= 100) || !(1 <= seconds <= 60)
      ensures rc == INVALID ==> fan == old(fan) && bus.regs == old(bus.regs)
      ensures core == old(core) && fan.curve == old(fan.curve) && fan.curveValid == old(fan.curveValid)
      ensures rc == OK ==>
                && fan.manual && fan.deadlineMs == (now + seconds * 1000) % WORD
                && At(bus.regs, Slot(34)) ==
                   Duty(if old(core).value >= old(fan.curve).criticalC as real then 100 else percent)
      ensures rc == IO ==> fan in {old(fan), old(fan).(manual := false, deadlineMs := 0, failsafe := true)}
      ensures rc == OK || bus.reachable ==> bus.mux == old(bus.mux)
      ensures bus.healthy ==> rc != IO
      ensures bus.reachable && rc == IO ==> fan.failsafe && EndsFull(bus.asked)
      ensures fanDue == if old(fan.failsafe) then old(fanDue) else 0
    {
      if fan.failsafe || !fan.curveValid || !core.Fresh(now)
         || percent < 25 || percent > 100 || seconds < 1 || seconds > 60
      {
        rc := INVALID;
        if !fan.failsafe { fanDue := 0; }
        return;
      }
      var duty := if core.value >= fan.curve.criticalC as real then 100 else percent;
      var mux: int;
      rc, mux := bus.SelectMux(FAN);
      fanDue := 0;
      if rc != OK {
        return IO;
      }
      rc := WriteDuty(Duty(duty));
      rc := bus.RestoreMux(mux, rc);
      if rc == OK {
        fan := fan.(manual := true, deadlineMs := (now + seconds * 1000) % WORD);
      } else {
        // nothing is known of the mode now
        fan := fan.(manual := false, deadlineMs := 0, failsafe := true);
      }
    }

    /** fm10k_fan_tick: one turn of the control loop. */
    method Tick(now: nat) returns (rc: Rc)
      requires Valid()
      modifies `fan, bus, `tried
      ensures Valid() && rc in {OK, IO}
      ensures fan.curve == old(fan.curve) && fan.curveValid == old(fan.curveValid)
      ensures old(fan.manual) && now >= old(fan.deadlineMs) ==> !fan.manual
      ensures fan.manual ==> fan == old(fan)
      ensures old(fan.failsafe) && !fan.failsafe ==>
                rc == OK && Recovered(core, fan.curve, now) && Auto(bus.regs)
      ensures fan.curveValid && !Cool(core, fan.curve, now) ==> fan.failsafe
      ensures rc == OK && (!fan.curveValid || fan.failsafe) ==> Full(bus.regs)
      ensures rc == IO && fan.curveValid ==> fan.failsafe
      ensures (rc == OK || bus.healthy) && fan.curveValid ==>
                (fan.failsafe <==> !MayRun(old(fan), core, fan.curve, now))
      ensures bus.reachable && (!fan.curveValid || fan.failsafe) ==> EndsFull(bus.asked)
      ensures (fan.curveValid && !old(fan.failsafe) && Cool(core, fan.curve, now)
               && !(old(fan.manual) && now >= old(fan.deadlineMs))) ==>
                rc == OK && fan == old(fan) && bus.regs == old(bus.regs)
      ensures fan == old(fan) || (!fan.manual && fan.deadlineMs == 0)
      ensures !fan.curveValid ==> fan == old(fan)
      ensures bus.healthy ==> rc == OK
      ensures tried == old(tried) +
                (if !fan.curveValid || !Cool(core, fan.curve, now) then [FullSpeed]
                 else if old(fan.failsafe) && !Recovered(core, fan.curve, now) then [FullSpeed]
                 else if old(fan.failsafe) || (old(fan.manual) && now >= old(fan.deadlineMs))
                 then [LoadCurve(fan.curve, false)]
                 else [])
    {
      if !fan.curveValid {
        rc := RunFull();
        return;
      }
      if !core.Fresh(now) || core.value >= fan.curve.criticalC as real {
        fan := fan.(failsafe := true, manual := false, deadlineMs := 0);
        rc := RunFull();
        return;
      }
      if fan.failsafe && core.value > (fan.curve.criticalC - fan.curve.hysteresisC) as real {
        rc := RunFull();
        return;
      }
      if fan.failsafe || (fan.manual && now >= fan.deadlineMs) {
        rc := Program(fan.curve, false);
        fan := fan.(manual := false, failsafe := rc != OK, deadlineMs := 0);
        return;
      }
      rc := OK;
    }

    // ----- the monitor interface -----------------------------------------

    /** fm10k_fan_read: a sample may be partly invalid; a bus left unrestored voids it. */
    method Sample() returns (rc: Rc, valid: bool, celsius: real, ghost complete: bool)
      requires bus.Valid()
      modifies bus`mux
      ensures bus.Valid() && rc in {OK, IO}
      ensures valid ==> -40.0 <= celsius < 127.0 && bus.mux == old(bus.mux)
      ensures rc == OK ==> valid && complete && bus.mux == old(bus.mux)
      ensures bus.reachable ==>
                && bus.mux == old(bus.mux)
                && (valid <==> -40.0 <= celsius < 127.0)
                && (rc == OK <==> valid && complete)
    {
      valid, celsius, complete := false, 0.0, false;
      var mux: int;
      rc, mux := bus.SelectMux(FAN);
      if rc != OK {
        return IO, false, 0.0, complete;
      }
      var reading: real, others: bool := *, *;
      valid, celsius, complete := -40.0 <= reading < 127.0, reading, others;
      rc := bus.RestoreMux(mux, OK);
      if rc != OK {
        return rc, false, 0.0, complete;
      }
      rc := if valid && others then OK else IO;
    }

    /**
     * fm10k_monitor_step, fan part.  Manual duty ends at its deadline on any
     * turn; a stale or critical temperature engages the failsafe; the failsafe
     * is left only with the curve running again and the core cool enough.
     */
    method Step(now: nat) returns (rc: Rc)
      requires Valid() && now < WORD
      modifies this, bus
      ensures Valid() && rc in {OK, IO}
      ensures fan.curve == old(fan.curve) && fan.curveValid == old(fan.curveValid)
      ensures old(fan.manual) && now >= old(fan.deadlineMs) ==> !fan.manual
      ensures fan.manual ==> fan == old(fan)
      ensures old(fan.failsafe) && !fan.failsafe ==> Recovered(core, fan.curve, now) && Auto(bus.regs)
      ensures old(fanDue) <= now && fan.curveValid && !Cool(core, fan.curve, now) ==> fan.failsafe
      ensures rc == OK && old(fanDue) <= now && (!fan.curveValid || fan.failsafe) ==> Full(bus.regs)
      ensures old(fanDue) <= now && !(old(fan.manual) && now >= old(fan.deadlineMs)) ==>
                fanDue == (now + SAMPLE_PERIOD_MS) % WORD && (core.valid ==> core.sampledMs == now)
      ensures old(fan.manual) && now >= old(fan.deadlineMs) ==> fanDue == 0 && core == old(core)
      ensures now < old(fanDue) && !(old(fan.manual) && now >= old(fan.deadlineMs)) ==>
                rc == OK && fan == old(fan) && core == old(core) && fanDue == old(fanDue)
                && bus.regs == old(bus.regs)
      ensures ((rc == OK || bus.healthy) && fan.curveValid
               && (old(fanDue) <= now || (old(fan.manual) && now >= old(fan.deadlineMs)))) ==>
                (fan.failsafe <==> !MayRun(old(fan), core, fan.curve, now))
      ensures bus.reachable && old(fanDue) <= now && (!fan.curveValid || fan.failsafe) ==> EndsFull(bus.asked)
      ensures core == old(core) || exists valid, value :: core == old(core).Measure(valid, value, now)
    {
      if fan.manual && now >= fan.deadlineMs {
        rc := Tick(now);
        fanDue := 0;
        return;
      }
      if now >= fanDue {
        var valid: bool, celsius: real;
        ghost var complete;
        rc, valid, celsius, complete := Sample();
        core := core.Measure(valid, celsius, now);
        var control := Tick(now);
        fanDue := (now + SAMPLE_PERIOD_MS) % WORD;
        rc := if control != OK then control else rc;
        return;
      }
      rc := OK;  // the slower optical samples do not touch the fan
    }

    /** fm10k_monitor_curve: a new curve, the previous one, or failsafe. */
    method SetCurve(curve: Curve) returns (rc: Rc)
      requires Valid()
      modifies this, bus
      ensures Valid() && core == old(core)
      ensures rc == INVALID <==> !curve.Valid()
      ensures rc == INVALID ==> fan == old(fan) && bus.regs == old(bus.regs)
      ensures rc == OK ==> fan == Running(curve)
      ensures rc == IO ==> old(fan.curveValid) && fan == Running(old(fan.curve))
      ensures rc == ROLLBACK_FAILED ==>
                fan == old(fan).(manual := false, deadlineMs := 0, failsafe := true)
      ensures bus.healthy ==> rc in {OK, INVALID}
      ensures bus.reachable && rc == ROLLBACK_FAILED ==> EndsFull(bus.asked)
      ensures fanDue == if rc in {OK, IO} then 0 else old(fanDue)
      ensures rc == ROLLBACK_FAILED ==>
                tried == old(tried) + [LoadCurve(curve, false)]
                         + (if old(fan.curveValid) then [LoadCurve(old(fan.curve), false)] else []) + [FullSpeed]
    {
      if !curve.Valid() {
        return INVALID;
      }
      var before := fan;
      rc := Program(curve, false);
      if rc == OK {
        fan := Running(curve);
        fanDue := 0;
        return;
      }
      if before.curveValid {
        rc := Program(before.curve, false);
        if rc == OK {
          fan := Running(before.curve);
          fanDue := 0;
          return IO;
        }
      }
      fan := before.(manual := false, deadlineMs := 0, failsafe := true);
      rc := RunFull();
      rc := ROLLBACK_FAILED;
    }

    /** What the controller thinks it programmed. */
    function Programmed(): Option<Curve>
      reads this
    {
      if fan.curveValid then Some(fan.curve) else None
    }

    /** fm10k_monitor_fan_capture: refused while a manual duty is running. */
    method Capture() returns (rc: Rc, out: Snapshot)
      requires bus.Valid()
      modifies bus`mux, `tried
      ensures bus.Valid() && out.WellFormed()
      ensures rc in {OK, IO, INVALID} && (rc == INVALID <==> fan.manual)
      ensures out.valid <==> rc == OK
      ensures rc == OK ==>
                && out.curve == Programmed() && Matches(out.image, out.curve) && out.image == ImageOf(bus.regs)
      ensures bus.healthy && !fan.manual ==> (rc == OK <==> Matches(ImageOf(bus.regs), Programmed()))
      ensures tried == old(tried) + (if fan.manual then [] else [ReadImage])
    {
      out := Snapshot(false, None, seq(IMAGE, i => 0));
      if fan.manual {
        return INVALID, out;
      }
      tried := tried + [ReadImage];
      var image: seq<Byte>;
      rc, image := ImageRead(bus);
      if rc != OK {
        return IO, out;
      }
      assert image == ImageOf(bus.regs);
      var matches := ImageMatches(image, Programmed());
      if !matches {
        return IO, out;
      }
      out := Snapshot(true, Programmed(), image);
    }

    predicate ProtectionRequired(f: Option<Curve>, now: nat): (required: bool)
      reads this
      ensures required <==> f.None? || !MayRun(fan, core, f.value, now)
    {
      || f.None? || !core.Fresh(now)
      || core.value >= f.value.criticalC as real
      || (fan.failsafe && core.value > (f.value.criticalC - f.value.hysteresisC) as real)
    }

    /** Everything a failed transaction leaves: failsafe, at full speed if the bus allows. */
    method Fail()
      requires Recoverable()
      modifies `fan, bus, `tried
      ensures Valid()
      ensures fan == old(fan).(manual := false, deadlineMs := 0, failsafe := true)
      ensures bus.healthy ==> Full(bus.regs)
      ensures bus.reachable ==> EndsFull(bus.asked)
      ensures tried == old(tried) + [FullSpeed]
    {
      fan := fan.(manual := false, deadlineMs := 0, failsafe := true);
      var full := RunFull();
    }

    /** Write a snapshot's image, and take over its curve. */
    method Reload(before: Snapshot, full: bool) returns (rc: Rc)
      requires Recoverable() && before.WellFormed()
      requires before.curve.None? ==> full
      modifies `fan, bus, `tried
      ensures Recoverable()
      ensures rc != OK ==> fan == old(fan)
      ensures rc == OK ==>
                && Sound(fan, bus.regs) && Written(bus.regs, before.image, CONTROLS)
                && Programmed() == before.curve && fan.failsafe == full && !fan.manual && fan.deadlineMs == 0
                && Matches(before.image, before.curve)
                && (if full then Full(bus.regs) else Auto(bus.regs))
      ensures bus.healthy ==> (rc == OK <==> Matches(before.image, before.curve))
      ensures tried == old(tried) + [LoadImage(before.image, full)]
    {
      tried := tried + [LoadImage(before.image, full)];
      rc := ImageRestore(bus, before.image, before.curve, full);
      JoinRuns(old(bus.trace), bus.trace);
      if rc == OK {
        fan := if before.curve.Some? then FanState(before.curve.value, true, false, 0, full)
               else FanState(fan.curve, false, false, 0, full);
        if before.curve.Some? {
          assert Runs(bus.regs, fan.curve);
        }
      }
    }

    /** Capture again, and compare. */
    method ReadBack(before: Snapshot) returns (rc: Rc)
      requires bus.Valid() && before.WellFormed() && before.valid && !fan.manual
      requires Written(bus.regs, before.image, CONTROLS) && Programmed() == before.curve
      requires Matches(before.image, before.curve) && (Full(bus.regs) || (Auto(bus.regs) && before.curve.Some?))
      modifies bus`mux, `tried
      ensures bus.Valid() && rc in {OK, IO}
      ensures bus.healthy ==> rc == OK
      ensures tried == old(tried) + [ReadImage]
    {
      ReloadedMatches(bus.regs, before);
      var after: Snapshot;
      rc, after := Capture();
      if rc != OK || !SnapshotEqual(before, after) {
        rc := IO;
      }
    }

    /**
     * fm10k_monitor_fan_restore.  On success the 33 control bytes are the
     * captured ones and the chip runs free only if it is cool enough;
     * otherwise the controller is in failsafe.
     */
    method Restore(before: Snapshot, now: nat) returns (rc: Rc)
      requires Recoverable() && before.WellFormed() && (before.valid || Valid())
      modifies this, bus
      ensures Valid() && core == old(core)
      ensures !before.valid ==> rc == INVALID && fan == old(fan) && bus.regs == old(bus.regs)
      ensures before.valid ==> !fan.manual
      ensures rc == OK ==>
                && before.valid && Written(bus.regs, before.image, CONTROLS) && Programmed() == before.curve
                && (fan.failsafe <==> old(ProtectionRequired(before.curve, now)))
                && (fan.failsafe ==> Full(bus.regs))
      ensures before.valid && rc != OK ==> fan.failsafe
      ensures bus.healthy && before.valid ==> (rc == OK <==> Matches(before.image, before.curve))
      ensures before.valid && rc != OK && bus.reachable ==> EndsFull(bus.asked)
      ensures before.valid ==> fanDue == 0
      ensures before.valid ==>
                var load := LoadImage(before.image, old(ProtectionRequired(before.curve, now)));
                if rc == OK then tried == old(tried) + [load, ReadImage]
                else tried == old(tried) + [load, FullSpeed] || tried == old(tried) + [load, ReadImage, FullSpeed]
    {
      hide Truthful, Runs, Matches, Written, SafeRun, EndsFull, MayRun;
      if !before.valid {
        return INVALID;
      }
      var full := ProtectionRequired(before.curve, now);
      rc := Reload(before, full);
      if rc == OK {
        rc := ReadBack(before);
      }
      if rc != OK {
        Fail();
      }
      fanDue := 0;
    }

    /** Configure, and believe it only once it reads back. */
    method Install(curve: Curve, full: bool) returns (rc: Rc)
      requires Valid() && curve.Valid() && !fan.manual
      modifies `fan, bus, `tried
      ensures Recoverable() && rc in {OK, IO} && !fan.manual
      ensures rc == OK ==>
                && fan == Running(curve).(failsafe := full)
                && Runs(bus.regs, curve) && if full then Full(bus.regs) else Auto(bus.regs)
      ensures bus.healthy ==> rc == OK
      ensures rc == OK ==> tried == old(tried) + [LoadCurve(curve, full), ReadImage]
      ensures rc != OK ==>
                || tried == old(tried) + [LoadCurve(curve, full)]
                || tried == old(tried) + [LoadCurve(curve, full), ReadImage]
    {
      rc := Program(curve, full);
      if rc == OK {
        fan := Running(curve).(failsafe := full);
        ConfiguredImageMatches(bus.regs, curve, ImageOf(bus.regs));
        var actual: Snapshot;
        rc, actual := Capture();
        if rc == OK && actual.curve != Some(curve) {
          rc := IO;
        }
        if rc == INVALID {
          assert false;
        }
      }
    }

    /** What capturing now would give. */
    ghost predicate Current(s: Snapshot)
      requires s.WellFormed()
      reads this, bus
    {
      && !fan.manual && s.valid && s.curve == Programmed()
      && s.image == ImageOf(bus.regs) && Matches(s.image, s.curve)
    }

    /** Nothing has changed since the snapshot was taken. */
    method StillCurrent(before: Snapshot) returns (rc: Rc)
      requires bus.Valid() && before.WellFormed()
      modifies bus`mux, `tried
      ensures bus.Valid() && rc in {OK, IO}
      ensures rc == OK ==>
                && before.valid && !fan.manual && before.curve == Programmed()
                && Written(bus.regs, before.image, CONTROLS) && Matches(before.image, before.curve)
      ensures bus.healthy && old(Current(before)) ==> rc == OK
      ensures tried == old(tried) + (if fan.manual then [] else [ReadImage])
    {
      var actual: Snapshot;
      rc, actual := Capture();
      if rc != OK || !SnapshotEqual(before, actual) {
        return IO;
      }
      forall k: nat | k < CONTROLS
        ensures At(bus.regs, Slot(k)) == before.image[k]
      {
        assert before.image[..CONTROLS][k] == actual.image[..CONTROLS][k];
      }
    }

    /**
     * fm10k_monitor_fan_apply: a curve transaction against a captured
     * snapshot.  All of it, or none of the 33 control bytes, or failsafe.
     */
    method Apply(curve: Curve, before: Snapshot, now: nat) returns (rc: Rc)
      requires Valid() && before.WellFormed()
      modifies this, bus
      ensures Valid() && core == old(core)
      ensures rc == INVALID <==> !curve.Valid()
      ensures rc == INVALID ==> fan == old(fan) && bus.regs == old(bus.regs)
      ensures rc == OK ==>
                && fan == Running(curve).(failsafe := old(ProtectionRequired(Some(curve), now)))
                && Runs(bus.regs, curve) && if fan.failsafe then Full(bus.regs) else Auto(bus.regs)
      ensures rc == IO ==> SameControls(old(bus.regs), bus.regs) && Programmed() == old(Programmed())
      ensures rc == ROLLBACK_FAILED ==> fan.failsafe && !fan.manual
      ensures bus.healthy && curve.Valid() && old(Current(before)) ==> rc == OK
      ensures rc == ROLLBACK_FAILED && bus.reachable ==> EndsFull(bus.asked)
      ensures rc == OK ==> fanDue == 0
      ensures rc == OK ==> tried == old(tried) + [ReadImage, LoadCurve(curve, fan.failsafe), ReadImage]
      ensures rc == ROLLBACK_FAILED ==> tried != [] && tried[|tried| - 1] == FullSpeed
    {
      hide Runs, Matches, SafeRun, EndsFull, MayRun;
      if !curve.Valid() {
        return INVALID;
      }
      rc := StillCurrent(before);
      if rc != OK {
        return;
      }
      rc := Install(curve, ProtectionRequired(Some(curve), now));
      fanDue := 0;
      if rc == OK {
        return;
      }
      rc := Restore(before, now);
      rc := if rc == OK then IO else ROLLBACK_FAILED;
    }

    /** fm10k_monitor_shutdown: manual duty does not outlive the owner. */
    method Shutdown() returns (rc: Rc)
      requires Valid()
      modifies `fan, bus, `tried
      ensures Valid() && !fan.manual
      ensures !old(fan.manual) ==> rc == OK && fan == old(fan) && bus.regs == old(bus.regs)
      ensures old(fan.manual) && rc == OK ==> fan == Running(old(fan.curve))
      ensures rc != OK ==> fan.failsafe
      ensures bus.healthy ==> rc == OK
      ensures rc != OK && bus.reachable ==> EndsFull(bus.asked)
      ensures old(fan.manual) ==> tried == old(tried) + [LoadCurve(fan.curve, false)] + (if rc == OK then [] else [FullSpeed])
    {
      if !fan.manual {
        return OK;
      }
      rc := IO;
      if fan.curveValid {
        rc := Program(fan.curve, false);
      }
      if rc != OK {
        var full := RunFull();
      }
      fan := fan.(manual := false, deadlineMs := 0, failsafe := rc != OK);
    }
  }
}
