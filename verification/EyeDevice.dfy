/**
 * The lane an eye scan borrows.  Any command may fail; a failed one may have
 * taken effect, an acknowledged one has.
 */
module EyeDevice {

  type Word16 = w: int | 0 <= w < 0x1_0000

  /** Four encoded samples: what one buffer position holds. */
  datatype Group = Group(a: Word16, b: Word16, c: Word16, d: Word16) {
    function At(i: nat): Word16 {
      if i % 4 == 0 then a else if i % 4 == 1 then b else if i % 4 == 2 then c else d
    }
  }

  /**
   * The lane: equaliser paused, comparator mode, sampler and phase interpolator
   * in use, loopback or temporary firmware in place, a column being measured.
   */
  datatype Lane = Lane(dfePaused: bool, compare: int, armed: bool, prepared: bool, gathering: bool)

  /** As the SDK left it. */
  function Clean(mode: int): Lane {
    Lane(false, mode, false, false, false)
  }

  /**
   * What may go wrong: anything; anything but the commands that give the lane
   * back; or nothing at all, and nothing is ever waited for.
   */
  datatype Temper = Faulty | Obedient | Healthy

  /** What the lane reports about its equaliser. */
  datatype Dfe = Dfe(ok: bool, lost: bool, busy: bool)

  /** What has been asked of the device, and what it said last. */
  datatype Log = Log(
    clock: int, dfe: Dfe, preparation: int,
    signals: seq<bool>,  // every answer to whether there is a signal
    positions: nat,      // buffer positions read
    restores: nat)       // times the firmware or loopback was to be put back

  class Device {
    const temper: Temper
    var lane: Lane
    var eye: (nat, nat) -> Word16  // what the firmware measures: column, row
    ghost var log: Log

    constructor (mode: int, temper: Temper)
      ensures lane == Clean(mode) && this.temper == temper
    {
      this.temper := temper;
      lane := Clean(mode);
      eye := (x, y) => 0;
      log := Log(0, Dfe(true, false, false), 0, [], 0, 0);
    }

    method Now() returns (t: int)
      modifies `log
      ensures log == old(log).(clock := t)
    {
      t := *;
      log := log.(clock := t);
    }

    /** The clock again, a few replies after it stood at `now`. */
    method Later(now: int) returns (t: int)
      modifies `log
      ensures log == old(log).(clock := t)
      ensures temper == Healthy ==> t == now
    {
      t := *;
      if temper == Healthy {
        t := now;
      }
      log := log.(clock := t);
    }

    /** A reply that may be bad. */
    method Reply() returns (ok: bool)
      ensures temper == Healthy ==> ok
    {
      ok := *;
      ok := ok || temper == Healthy;
    }

    /** A reply to a command that gives something back. */
    method Obeys() returns (ok: bool)
      ensures temper != Faulty ==> ok
    {
      ok := *;
      ok := ok || temper != Faulty;
    }

    method Signal() returns (ok: bool)
      modifies `log
      ensures log == old(log).(signals := old(log).signals + [ok])
      ensures temper == Healthy ==> ok
    {
      ok := Reply();
      log := log.(signals := log.signals + [ok]);
    }

    /** serdes_set 0x0a: pause (true) or resume the equaliser. */
    method SetDfe(pause: bool) returns (ok: bool)
      modifies `lane
      ensures lane in {old(lane), old(lane).(dfePaused := pause)}
      ensures ok ==> lane.dfePaused == pause
      ensures temper != Faulty ==> ok
    {
      ok := Obeys();
      var latched: bool := *;
      if ok || latched {
        lane := lane.(dfePaused := pause);
      }
    }

    method DfeStatus() returns (ok: bool, lost: bool, busy: bool)
      modifies `log
      ensures log == old(log).(dfe := Dfe(ok, lost, busy))
      ensures temper == Healthy ==> ok && !lost && !busy
    {
      ok := Reply();
      lost, busy := *, *;
      lost, busy := lost && temper != Healthy, busy && temper != Healthy;
      log := log.(dfe := Dfe(ok, lost, busy));
    }

    /** 0 ready, positive not yet, negative failed; any of them may have changed the lane. */
    method Prepare() returns (rc: int)
      modifies `lane, `log
      ensures log == old(log).(preparation := rc)
      ensures lane == old(lane).(prepared := lane.prepared)
      ensures temper == Healthy ==> rc == 0
    {
      rc := *;
      if temper == Healthy {
        rc := 0;
      }
      log := log.(preparation := rc);
      var p: bool := *;
      lane := lane.(prepared := p);
    }

    /** 0 restored; -2 the shared firmware is lost. */
    method Restore() returns (status: int)
      modifies `lane, `log
      ensures log == old(log).(restores := old(log).restores + 1)
      ensures lane == old(lane).(prepared := lane.prepared)
      ensures status == 0 ==> !lane.prepared
      ensures !old(lane).prepared ==> !lane.prepared
      ensures temper != Faulty ==> status == 0
    {
      status := *;
      log := log.(restores := log.restores + 1);
      if temper != Faulty {
        status := 0;
      }
      var p: bool := *;
      lane := lane.(prepared := lane.prepared && p && status != 0);
    }

    /** The commands that set up the sampler. */
    method Arm() returns (ok: bool)
      modifies `lane
      ensures lane == old(lane).(armed := lane.armed)
      ensures temper == Healthy ==> ok
    {
      ok := Reply();
      var a: bool := *;
      lane := lane.(armed := a);
    }

    /** The one command whose effect is read back: a good reply alone is not relied on. */
    method SetCompare(mode: int) returns (ok: bool)
      modifies `lane
      ensures lane in {old(lane), old(lane).(compare := mode)}
      ensures temper != Faulty ==> ok && lane.compare == mode
    {
      ok := Obeys();
      var latched := Obeys();
      if latched {
        lane := lane.(compare := mode);
      }
    }

    method ReadCompare() returns (ok: bool, mode: int)
      ensures ok ==> mode == lane.compare
      ensures temper == Healthy ==> ok
    {
      ok := Reply();
      mode := lane.compare;
    }

    /** The commands that shut the sampler down, each tried whatever the others do. */
    method Disarm() returns (ok: bool)
      modifies `lane
      ensures lane == old(lane).(armed := lane.armed)
      ensures ok ==> !lane.armed
      ensures temper != Faulty ==> ok
    {
      ok := Obeys();
      var a: bool := *;
      lane := lane.(armed := a && !ok);
    }

    method Gather() returns (ok: bool)
      modifies `lane
      ensures lane == old(lane).(gathering := lane.gathering)
      ensures temper == Healthy ==> ok
    {
      ok := Reply();
      var g: bool := *;
      lane := lane.(gathering := g);
    }

    /** The master's acknowledgement: only a finished measurement is reported as one. */
    method Acknowledge() returns (ok: bool, finished: bool)
      modifies `lane
      ensures lane in {old(lane), old(lane).(gathering := false)}
      ensures ok && finished ==> !lane.gathering
      ensures temper == Healthy ==> ok && finished
    {
      ok := Reply();
      finished := Reply();
      if ok && finished {
        lane := lane.(gathering := false);
      }
    }

    /** Do positions j and j + 1 of a column hold the same four samples? */
    predicate Repeats(x: nat, j: nat)
      requires j >= 1
      reads this
    {
      forall y: nat | 4 * j - 4 <= y < 4 * j :: eye(x, y) == eye(x, y + 4)
    }

    /**
     * Buffer position k of a column, run-length encoded: `available` is a
     * position up to which the same four samples repeat, or less than k while
     * k is not measured yet.  A healthy device has measured it, and reports
     * no position beyond the last.
     */
    method ReadGroup(x: nat, k: nat, last: nat) returns (ok: bool, available: nat, samples: Group)
      requires k >= 1
      modifies `log
      ensures log == old(log).(positions := old(log).positions + 1)
      ensures temper == Healthy && k <= last ==> ok && k <= available <= last
      ensures ok && available >= k ==>
                forall y: nat :: 4 * k - 4 <= y < 4 * available ==> samples.At(y) == eye(x, y)
    {
      ghost var next := log.(positions := log.positions + 1);
      ok := Reply();
      available := *;
      if temper == Healthy && !(k <= available <= last) {
        available := k;
      }
      samples := Group(eye(x, 4 * k - 4), eye(x, 4 * k - 3), eye(x, 4 * k - 2), eye(x, 4 * k - 1));
      if available >= k {
        var repeats := available - k;
        available := k;
        for i := 0 to repeats
          invariant k <= available <= k + i
          invariant forall y: nat :: 4 * k - 4 <= y < 4 * available ==> samples.At(y) == eye(x, y)
        {
          if Repeats(x, available) {
            Repetition(x, k, available, samples);
            available := available + 1;
          }
        }
      }
      log := next;
    }

    lemma Repetition(x: nat, k: nat, j: nat, samples: Group)
      requires 1 <= k <= j && Repeats(x, j)
      requires forall y: nat :: 4 * k - 4 <= y < 4 * j ==> samples.At(y) == eye(x, y)
      ensures forall y: nat :: 4 * k - 4 <= y < 4 * j + 4 ==> samples.At(y) == eye(x, y)
    {
      forall y: nat | 4 * j <= y < 4 * j + 4
        ensures samples.At(y) == eye(x, y)
      {
        var z: nat := y - 4;
        assert eye(x, z) == eye(x, z + 4) && samples.At(z) == samples.At(y);
      }
    }
  }
}
