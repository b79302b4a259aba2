/**
 * Programming the fan chip over a faulty bus.  Control bytes change only while
 * the chip is held at full speed, and it is let go only when all of them hold
 * one admissible curve: at every bus write, not just at the end.
 */
module FanControl {
  import opened BoardBus
  import opened Common
  import opened FanCurves

  const FAN := 8  // mux branch of the fan chip

  /** The register behind each image slot. */
  function Register(i: nat): int
    requires i < IMAGE
  {
    if i < 9 then [0x30, 0x4b, 0x4d, 0x45, 0x4e, 0x4f, 0x03, 0x19, 0x21][i]
    else if i < CONTROLS then 0x50 + (i - 9)
    else if i == 33 then 0x4a
    else 0x4c
  }

  /** The registers by their use: initialisation, response, protection, the table, mode and duty. */
  lemma RegistersAre()
    ensures Register(0) == 0x30 && Register(1) == 0x4b && Register(2) == 0x4d
    ensures Register(3) == 0x45 && Register(4) == 0x4e && Register(5) == 0x4f
    ensures Register(6) == 0x03 && Register(7) == 0x19 && Register(8) == 0x21
    ensures forall i: nat :: i < 12 ==> Register(9 + 2 * i) == 0x50 + 2 * i && Register(10 + 2 * i) == 0x51 + 2 * i
    ensures Register(33) == 0x4a && Register(34) == 0x4c
    ensures forall i: nat :: i < IMAGE ==> Slot(i) == Key(8, 0x4c, Register(i))
  {
  }

  lemma RegistersAreDistinct(i: nat, k: nat)
    requires i < IMAGE && k < IMAGE && i != k
    ensures Register(i) != Register(k)
  {
  }

  function Slot(i: nat): Key
    requires i < IMAGE
  {
    Key(FAN, 0x4c, Register(i))
  }

  function Mode(r: Regs): Byte { At(r, Slot(33)) }

  predicate Full(r: Regs) { Mode(r) == 0x30 && At(r, Slot(34)) == 0xff }

  predicate Auto(r: Regs) { Mode(r) == 0x10 }

  /** All 33 control registers hold this curve. */
  ghost predicate Runs(r: Regs, f: Curve)
    requires f.Valid()
  {
    forall i: nat :: i < CONTROLS ==> At(r, Slot(i)) == ControlByte(f, i)
  }

  ghost predicate HoldsACurve(r: Regs) {
    exists f: Curve :: f.Valid() && Runs(r, f)
  }

  ghost predicate SameControls(a: Regs, c: Regs) {
    forall i: nat :: i < CONTROLS ==> At(a, Slot(i)) == At(c, Slot(i))
  }

  /** What one bus write may do. */
  ghost predicate SafeStep(a: Regs, c: Regs) {
    && (SameControls(a, c) || Full(a))
    && (Auto(c) && !Auto(a) ==> HoldsACurve(c))
    && (At(c, Slot(34)) in {At(a, Slot(34)), 0xff} || Mode(a) == 0x30)
  }

  ghost predicate SafeRun(trace: seq<Regs>, from: nat) {
    forall i :: from <= i < |trace| && 0 < i ==> SafeStep(trace[i - 1], trace[i])
  }

  /**
   * Over any run of safe writes, the chip steers itself only from a curve, and
   * from the same one for as long as it does: the table is never edited under
   * it.  The one exception is a chip found in automatic mode over anything
   * else, until it is first taken out of that mode.
   */
  lemma {:induction false} AutomaticModeRunsACurve(trace: seq<Regs>, i: nat)
    requires trace != [] && SafeRun(trace, 1) && i < |trace|
    ensures Auto(trace[i]) ==> HoldsACurve(trace[i]) || (!HoldsACurve(trace[0]) && forall k :: 0 <= k <= i ==> Auto(trace[k]))
    ensures 0 < i && Auto(trace[i - 1]) && Auto(trace[i]) ==> SameControls(trace[i - 1], trace[i])
  {
    if 0 < i {
      var a, c := trace[i - 1], trace[i];
      AutomaticModeRunsACurve(trace, i - 1);
      assert SafeStep(a, c);
      if Auto(a) && Auto(c) && HoldsACurve(a) {
        var f: Curve :| f.Valid() && Runs(a, f);
        assert Runs(c, f);
      }
    }
  }

  // ----- one register ----------------------------------------------------

  /** The old contents, or with slot i set to v. */
  predicate Latched(a: Regs, c: Regs, i: nat, v: Byte)
    requires i < IMAGE
  {
    c == a || c == a[Slot(i) := v]
  }

  lemma WritesAreLocal(a: Regs, c: Regs, i: nat, v: Byte)
    requires i < IMAGE && Latched(a, c, i, v)
    ensures forall k: nat :: k < IMAGE && k != i ==> At(c, Slot(k)) == At(a, Slot(k))
    ensures At(c, Slot(i)) in {At(a, Slot(i)), v}
  {
    forall k: nat | k < IMAGE && k != i
      ensures Slot(k) != Slot(i)
    {
      RegistersAreDistinct(i, k);
    }
  }

  lemma StepIsSafe(a: Regs, c: Regs, i: nat, v: Byte)
    requires i < IMAGE && Latched(a, c, i, v)
    requires i < CONTROLS ==> Full(a)
    requires i == 33 ==> v != 0x10 || HoldsACurve(a)
    requires i == 34 ==> v == 0xff || Mode(a) == 0x30
    ensures SafeStep(a, c)
    ensures i < CONTROLS ==> Full(c)
    ensures i >= CONTROLS ==> SameControls(a, c)
  {
    WritesAreLocal(a, c, i, v);
    if Auto(c) && !Auto(a) {
      var f: Curve :| f.Valid() && Runs(a, f);
      assert Runs(c, f);
    }
  }

  /** write_verified on one slot. */
  method WriteVerified(b: Bus, i: nat, v: Byte) returns (rc: Rc)
    requires b.Valid() && b.mux == FAN && i < IMAGE
    requires i < CONTROLS ==> Full(b.regs)
    requires i == 33 ==> v != 0x10 || HoldsACurve(b.regs)
    requires i == 34 ==> v == 0xff || Mode(b.regs) == 0x30
    modifies b`regs, b`trace, b`asked
    ensures b.Valid() && rc in {OK, IO}
    ensures b.trace == old(b.trace) + [b.regs] && SafeStep(old(b.regs), b.regs)
    ensures b.asked == old(b.asked) + [(Slot(i), v)]
    ensures i < CONTROLS ==> Full(b.regs)
    ensures i >= CONTROLS ==> SameControls(old(b.regs), b.regs)
    ensures forall k: nat :: k < IMAGE && k != i ==> At(b.regs, Slot(k)) == At(old(b.regs), Slot(k))
    ensures rc == OK ==> At(b.regs, Slot(i)) == v
    ensures b.healthy ==> rc == OK
  {
    var written := b.Write(0x4c, Register(i), v);
    var ok, actual := false, 0;
    if written {
      ok, actual := b.Read(0x4c, Register(i));
    }
    rc := if !written || !ok || actual != v then IO else OK;
    StepIsSafe(old(b.regs), b.regs, i, v);
    WritesAreLocal(old(b.regs), b.regs, i, v);
  }

  /** The two writes that ask for full speed. */
  const FULL_SPEED: seq<(Key, Byte)> := [(Slot(33), 0x30), (Slot(34), 0xff)]

  /** The last thing asked of the chip is full speed. */
  ghost predicate EndsFull(asked: seq<(Key, Byte)>) {
    |asked| >= 2 && asked[|asked| - 2..] == FULL_SPEED
  }

  /** Both writes are tried even when the first fails. */
  method SelectFull(b: Bus) returns (rc: Rc)
    requires b.Valid() && b.mux == FAN
    modifies b`regs, b`trace, b`asked
    ensures b.Valid() && old(b.trace) <= b.trace && rc in {OK, IO}
    ensures SafeRun(b.trace, |old(b.trace)|)
    ensures SameControls(old(b.regs), b.regs)
    ensures rc == OK ==> Full(b.regs)
    ensures b.healthy ==> rc == OK
    ensures b.asked == old(b.asked) + FULL_SPEED
  {
    var mode := WriteVerified(b, 33, 0x30);
    var pwm := WriteVerified(b, 34, 0xff);
    rc := if mode != OK || pwm != OK then IO else OK;
  }

  // ----- a whole image ---------------------------------------------------

  /** The image a failed programming run leaves behind is held at full speed if the bus allows. */
  method FallBack(b: Bus, previous: int, ghost from: nat) returns (rc: Rc)
    requires b.Valid() && b.mux == FAN && 0 <= previous < 16
    requires from <= |b.trace| && SafeRun(b.trace, from)
    modifies b
    ensures b.Valid() && old(b.trace) <= b.trace && rc == IO
    ensures SafeRun(b.trace, from) && EndsFull(b.asked)
    ensures b.healthy ==> Full(b.regs)
    ensures b.healthy || b.reachable ==> b.mux == previous
  {
    var full := SelectFull(b);
    rc := b.RestoreMux(previous, IO);
  }

  /** fm10k_fan_full. */
  method FanFull(b: Bus) returns (rc: Rc)
    requires b.Valid()
    modifies b
    ensures b.Valid() && old(b.trace) <= b.trace && rc in {OK, IO}
    ensures SafeRun(b.trace, |old(b.trace)|)
    ensures SameControls(old(b.regs), b.regs)
    ensures rc == OK ==> Full(b.regs) && b.mux == old(b.mux)
    ensures b.asked == old(b.asked) || EndsFull(b.asked)
    ensures b.reachable ==> EndsFull(b.asked) && b.mux == old(b.mux)
    ensures b.healthy ==> rc == OK
  {
    var previous: int;
    rc, previous := b.SelectMux(FAN);
    if rc != OK {
      return IO;
    }
    rc := SelectFull(b);
    rc := b.RestoreMux(previous, rc);
  }

  /** fm10k_fan_image_read. */
  method ImageRead(b: Bus) returns (rc: Rc, image: seq<Byte>)
    requires b.Valid()
    modifies b`mux
    ensures b.Valid() && rc in {OK, IO} && |image| == IMAGE
    ensures rc == OK ==> b.mux == old(b.mux) && forall i: nat :: i < IMAGE ==> image[i] == At(b.regs, Slot(i))
    ensures b.healthy ==> rc == OK
  {
    image := seq(IMAGE, i => 0);
    var mux: int;
    rc, mux := b.SelectMux(FAN);
    if rc != OK {
      return IO, image;
    }
    var values: seq<Byte> := [];
    for i := 0 to IMAGE
      invariant b.Valid() && b.mux == FAN && rc in {OK, IO}
      invariant b.healthy ==> rc == OK
      invariant rc == OK ==> |values| == i && forall k: nat :: k < i ==> values[k] == At(b.regs, Slot(k))
    {
      if rc == OK {
        var ok, v := b.Read(0x4c, Register(i));
        values := values + [v];
        rc := if ok then OK else IO;
      }
    }
    rc := b.RestoreMux(mux, rc);
    if rc == OK {
      image := values;
    }
  }

  /** Slots 0..n-1 hold the first n bytes of the image. */
  ghost predicate Written(r: Regs, image: seq<Byte>, n: nat)
    requires n <= CONTROLS <= |image|
  {
    forall k: nat :: k < n ==> At(r, Slot(k)) == image[k]
  }

  method WriteImage(b: Bus, image: seq<Byte>, ghost from: nat) returns (rc: Rc)
    requires b.Valid() && b.mux == FAN && Full(b.regs) && |image| == IMAGE
    requires from <= |b.trace| && SafeRun(b.trace, from)
    modifies b`regs, b`trace, b`asked
    ensures b.Valid() && old(b.trace) <= b.trace && Full(b.regs) && rc in {OK, IO}
    ensures SafeRun(b.trace, from)
    ensures rc == OK ==> Written(b.regs, image, CONTROLS)
    ensures b.healthy ==> rc == OK
  {
    for i := 0 to CONTROLS
      invariant b.Valid() && b.mux == FAN && Full(b.regs)
      invariant old(b.trace) <= b.trace && SafeRun(b.trace, from)
      invariant Written(b.regs, image, i)
    {
      rc := WriteVerified(b, i, image[i]);
      if rc != OK {
        return;
      }
    }
    rc := OK;
  }

  /** fm10k_fan_image_restore: put a captured image back, or end at full speed. */
  method ImageRestore(b: Bus, image: seq<Byte>, curve: Option<Curve>, fullSpeed: bool) returns (rc: Rc)
    requires b.Valid() && |image| == IMAGE
    modifies b
    ensures b.Valid() && old(b.trace) <= b.trace
    ensures SafeRun(b.trace, |old(b.trace)|)
    ensures rc == INVALID <==> !Matches(image, curve)
    ensures rc in {OK, IO, INVALID}
    ensures rc == INVALID ==> b.regs == old(b.regs)
    ensures rc == OK ==> b.mux == old(b.mux) && Written(b.regs, image, CONTROLS)
    ensures rc == OK ==> if curve.Some? && !fullSpeed then Auto(b.regs) else Full(b.regs)
    ensures rc == IO ==> b.asked == old(b.asked) || EndsFull(b.asked) || Written(b.regs, image, CONTROLS)
    ensures b.reachable ==> b.mux == old(b.mux) && (rc == IO ==> EndsFull(b.asked))
    ensures b.healthy ==> rc != IO
  {
    var matches := ImageMatches(image, curve);
    if !matches {
      return INVALID;
    }
    var mux: int;
    rc, mux := b.SelectMux(FAN);
    if rc != OK {
      return IO;
    }
    rc := SelectFull(b);
    if rc == OK {
      rc := WriteImage(b, image, |old(b.trace)|);
      if rc == OK && curve.Some? && !fullSpeed {
        assert Runs(b.regs, curve.value);
        rc := WriteVerified(b, 33, 0x10);
      }
    }
    if rc != OK {
      rc := FallBack(b, mux, |old(b.trace)|);
      return;
    }
    rc := b.RestoreMux(mux, OK);
  }

  // ----- a curve ---------------------------------------------------------

  /** Slots lo..hi-1 hold the curve. */
  ghost predicate Programmed(r: Regs, f: Curve, lo: nat, hi: nat)
    requires f.Valid() && hi <= CONTROLS
  {
    forall k: nat :: lo <= k < hi ==> At(r, Slot(k)) == ControlByte(f, k)
  }

  method ProgramHead(b: Bus, f: Curve, ghost from: nat) returns (rc: Rc)
    requires f.Valid() && b.Valid() && b.mux == FAN && Full(b.regs)
    requires from <= |b.trace| && SafeRun(b.trace, from)
    modifies b`regs, b`trace, b`asked
    ensures b.Valid() && old(b.trace) <= b.trace && Full(b.regs) && rc in {OK, IO}
    ensures SafeRun(b.trace, from)
    ensures rc == OK ==> Programmed(b.regs, f, 0, 6)
    ensures b.healthy ==> rc == OK
  {
    var initial: seq<Byte> := [0x02, 0x3f, 0x08, Response(f.responseMs), 0, f.hysteresisC];
    for i := 0 to 6
      invariant b.Valid() && old(b.trace) <= b.trace && b.mux == FAN && Full(b.regs)
      invariant SafeRun(b.trace, from)
      invariant Programmed(b.regs, f, 0, i)
    {
      rc := WriteVerified(b, i, initial[i]);
      if rc != OK {
        return;
      }
    }
    rc := OK;
  }

  method ProgramTable(b: Bus, f: Curve, lut: seq<Point>, ghost from: nat) returns (rc: Rc)
    requires f.Valid() && b.Valid() && b.mux == FAN && Full(b.regs)
    requires |lut| == 12 && forall i: nat :: i < 12 ==> lut[i] == LutPoint(f, i)
    requires from <= |b.trace| && SafeRun(b.trace, from)
    requires Programmed(b.regs, f, 0, 6)
    modifies b`regs, b`trace, b`asked
    ensures b.Valid() && old(b.trace) <= b.trace && Full(b.regs) && rc in {OK, IO}
    ensures SafeRun(b.trace, from)
    ensures rc == OK ==> Programmed(b.regs, f, 0, 6) && Programmed(b.regs, f, 9, CONTROLS)
    ensures b.healthy ==> rc == OK
  {
    hide ControlByte, LutPoint;
    for i := 0 to 12
      invariant b.Valid() && old(b.trace) <= b.trace && b.mux == FAN && Full(b.regs)
      invariant SafeRun(b.trace, from)
      invariant Programmed(b.regs, f, 0, 6) && Programmed(b.regs, f, 9, 9 + 2 * i)
    {
      TableBytes(f, i);
      rc := WriteVerified(b, 9 + 2 * i, lut[i].celsius);
      if rc == OK {
        rc := WriteVerified(b, 10 + 2 * i, lut[i].pwm);
      }
      if rc != OK {
        return;
      }
    }
    rc := OK;
  }

  method ProgramLimits(b: Bus, f: Curve, ghost from: nat) returns (rc: Rc)
    requires f.Valid() && b.Valid() && b.mux == FAN && Full(b.regs)
    requires from <= |b.trace| && SafeRun(b.trace, from)
    requires Programmed(b.regs, f, 0, 6) && Programmed(b.regs, f, 9, CONTROLS)
    modifies b`regs, b`trace, b`asked
    ensures b.Valid() && old(b.trace) <= b.trace && Full(b.regs) && rc in {OK, IO}
    ensures SafeRun(b.trace, from)
    ensures rc == OK ==> Runs(b.regs, f)
    ensures b.healthy ==> rc == OK
  {
    rc := WriteVerified(b, 6, 0x06);
    if rc != OK { return; }
    rc := WriteVerified(b, 7, f.criticalC);
    if rc != OK { return; }
    rc := WriteVerified(b, 8, f.hysteresisC);
  }

  method ProgramSelected(b: Bus, f: Curve, lut: seq<Point>, fullSpeed: bool, ghost from: nat) returns (rc: Rc)
    requires f.Valid() && b.Valid() && b.mux == FAN
    requires |lut| == 12 && forall i: nat :: i < 12 ==> lut[i] == LutPoint(f, i)
    requires from <= |b.trace| && SafeRun(b.trace, from)
    modifies b`regs, b`trace, b`asked
    ensures b.Valid() && old(b.trace) <= b.trace && rc in {OK, IO}
    ensures SafeRun(b.trace, from)
    ensures rc == OK ==> Runs(b.regs, f) && if fullSpeed then Full(b.regs) else Auto(b.regs)
    ensures b.healthy ==> rc == OK
  {
    hide ControlByte, LutPoint, SafeStep;
    rc := SelectFull(b);
    if rc != OK { return; }
    rc := ProgramHead(b, f, from);
    if rc != OK { return; }
    rc := ProgramTable(b, f, lut, from);
    if rc != OK { return; }
    rc := ProgramLimits(b, f, from);
    if rc == OK && !fullSpeed {
      rc := WriteVerified(b, 33, 0x10);
    }
  }

  /** fm10k_fan_configure: on success the chip runs this curve, or is held at full speed with it loaded. */
  method Configure(b: Bus, f: Curve, fullSpeed: bool) returns (rc: Rc)
    requires b.Valid()
    modifies b
    ensures b.Valid() && old(b.trace) <= b.trace
    ensures SafeRun(b.trace, |old(b.trace)|)
    ensures rc in {OK, IO, INVALID} && (rc == INVALID <==> !f.Valid())
    ensures rc == INVALID ==> b.regs == old(b.regs)
    ensures rc == OK ==> b.mux == old(b.mux) && Runs(b.regs, f)
    ensures rc == OK ==> if fullSpeed then Full(b.regs) else Auto(b.regs)
    ensures rc == IO ==> b.asked == old(b.asked) || EndsFull(b.asked) || Runs(b.regs, f)
    ensures b.reachable ==> b.mux == old(b.mux) && (rc == IO ==> EndsFull(b.asked))
    ensures b.healthy ==> rc != IO
  {
    var lut := BuildLut(f);
    if lut.None? {
      return INVALID;
    }
    var previous: int;
    rc, previous := b.SelectMux(FAN);
    if rc != OK {
      return IO;
    }
    rc := ProgramSelected(b, f, lut.value, fullSpeed, |old(b.trace)|);
    if rc != OK {
      rc := FallBack(b, previous, |old(b.trace)|);
      return;
    }
    rc := b.RestoreMux(previous, OK);
  }

  /** Configure, then read the image: it is recognised as the curve's own. */
  lemma ConfiguredImageMatches(r: Regs, f: Curve, image: seq<Byte>)
    requires f.Valid() && Runs(r, f) && (Auto(r) || Full(r))
    requires |image| == IMAGE && forall i: nat :: i < IMAGE ==> image[i] == At(r, Slot(i))
    ensures Matches(image, Some(f))
  {
    assert image[33] == At(r, Slot(33)) && image[34] == At(r, Slot(34));
    forall i: nat | i < CONTROLS
      ensures image[i] == ControlByte(f, i)
    {
      assert image[i] == At(r, Slot(i));
    }
  }

  /** Capture, anything at all, restore: the 33 control bytes are the captured ones. */
  lemma RestoreUndoes(before: Regs, image: seq<Byte>, after: Regs)
    requires |image| == IMAGE && forall i: nat :: i < IMAGE ==> image[i] == At(before, Slot(i))
    requires Written(after, image, CONTROLS)
    ensures SameControls(before, after)
  {
  }
}
