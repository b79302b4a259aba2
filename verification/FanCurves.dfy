/**
 * Fan curves, the twelve-point look-up table the chip runs from, and the
 * register image a curve stands for.
 */
module FanCurves {
  import opened Common

  datatype Curve = Curve(
    idleC: int, loadC: int, criticalC: int,
    idlePwm: int, loadPwm: int,
    hysteresisC: int, responseMs: int)
  {
    /** The ranges the configuration schema admits. */
    predicate Valid() {
      && 10 <= idleC <= 80 && 20 <= loadC <= 90 && 30 <= criticalC <= 100
      && 25 <= idlePwm <= 100 && 25 <= loadPwm <= 100
      && 1 <= hysteresisC <= 15
      && responseMs in {5450, 10900, 21600, 43700}
      && idleC + 10 <= loadC < criticalC
      && idlePwm <= loadPwm
    }
  }

  /** The admissible curves reach from one corner to the other, and no further. */
  lemma LimitsAre(f: Curve)
    ensures Curve(10, 20, 30, 25, 25, 1, 5450).Valid() && Curve(80, 90, 100, 100, 100, 15, 43700).Valid()
    ensures Curve(10, 29, 30, 25, 100, 1, 10900).Valid() && Curve(10, 90, 100, 25, 25, 15, 21600).Valid()
    ensures !Curve(11, 20, 30, 25, 25, 1, 5450).Valid() && !Curve(10, 30, 30, 25, 25, 1, 5450).Valid()
    ensures !Curve(10, 20, 30, 26, 25, 1, 5450).Valid()
    ensures f.Valid() ==>
              && 9 < f.idleC < 81 && 19 < f.loadC < 91 && 29 < f.criticalC < 101
              && 24 < f.idlePwm < 101 && 24 < f.loadPwm < 101 && 0 < f.hysteresisC < 16
              && (f.responseMs == 5450 || f.responseMs == 10900 || f.responseMs == 21600 || f.responseMs == 43700)
  {
  }

  datatype Point = Point(celsius: Byte, pwm: Byte)

  // ----- rounding --------------------------------------------------------

  /** Nearest integer to n/d, halves to even. */
  function RoundEven(n: nat, d: nat): nat
    requires d > 0
  {
    var q, r := n / d, n % d;
    q + if 2 * r > d || (2 * r == d && q % 2 == 1) then 1 else 0
  }

  lemma MulGrows(a: int, b: int, d: nat)
    requires a < b
    ensures a * d + d <= b * d
  {
    assert (b - a - 1) * d >= 0;
  }

  /** The two facts that make it round-to-nearest-even. */
  lemma RoundEvenIsNearest(n: nat, d: nat)
    requires d > 0
    ensures 2 * n <= 2 * (RoundEven(n, d) * d) + d && 2 * (RoundEven(n, d) * d) <= 2 * n + d
    ensures 2 * n == 2 * (RoundEven(n, d) * d) + d || 2 * (RoundEven(n, d) * d) == 2 * n + d ==>
              RoundEven(n, d) % 2 == 0
  {
    var q, r := n / d, n % d;
    assert n == q * d + r;
    assert (q + 1) * d == q * d + d;
  }

  lemma RoundEvenIsMonotone(m: nat, n: nat, d: nat)
    requires d > 0 && m <= n
    ensures RoundEven(m, d) <= RoundEven(n, d)
  {
    var a, b := RoundEven(m, d), RoundEven(n, d);
    RoundEvenIsNearest(m, d);
    RoundEvenIsNearest(n, d);
    if m != n && b < a {
      MulGrows(b, a, d);
    }
  }

  /** Arguments more than one apart round to different integers. */
  lemma RoundEvenSeparates(m: nat, n: nat, d: nat)
    requires d > 0 && m + d < n
    ensures RoundEven(m, d) < RoundEven(n, d)
  {
    var a, b := RoundEven(m, d), RoundEven(n, d);
    RoundEvenIsNearest(m, d);
    RoundEvenIsNearest(n, d);
    if b < a {
      MulGrows(b, a, d);
    }
  }

  // ----- the table -------------------------------------------------------

  /** The k-th segment of the linear ramp, in percent. */
  function RampPercent(f: Curve, k: nat): nat
    requires f.Valid() && k < 9
  {
    RoundEven(f.idlePwm * 8 + (f.loadPwm - f.idlePwm) * k, 8)
  }

  function RampCelsius(f: Curve, k: nat): nat
    requires f.Valid() && k < 9
  {
    RoundEven(f.idleC * 8 + (f.loadC - f.idleC) * k, 8)
  }

  function Duty(percent: nat): (duty: Byte)
    requires percent <= 100
  {
    RoundEven(percent * 255, 100)
  }

  lemma RampTermIsBounded(span: nat, k: nat)
    requires k <= 8
    ensures 0 <= span * k <= span * 8
  {
    assert span * (8 - k) >= 0;
  }

  lemma RampIsBounded(f: Curve, k: nat)
    requires f.Valid() && k < 9
    ensures f.idlePwm <= RampPercent(f, k) <= f.loadPwm
    ensures f.idleC <= RampCelsius(f, k) <= f.loadC
    ensures k == 0 ==> RampCelsius(f, k) == f.idleC && RampPercent(f, k) == f.idlePwm
    ensures k == 8 ==> RampCelsius(f, k) == f.loadC && RampPercent(f, k) == f.loadPwm
  {
    RampStaysBetween(f.idlePwm, f.loadPwm, k);
    RampStaysBetween(f.idleC, f.loadC, k);
  }

  lemma RampStaysBetween(from: nat, to: nat, k: nat)
    requires from <= to && k <= 8
    ensures 0 <= from * 8 + (to - from) * k
    ensures from <= RoundEven(from * 8 + (to - from) * k, 8) <= to
    ensures k == 0 ==> RoundEven(from * 8 + (to - from) * k, 8) == from
    ensures k == 8 ==> RoundEven(from * 8 + (to - from) * k, 8) == to
  {
    var n := from * 8 + (to - from) * k;
    RampTermIsBounded(to - from, k);
    RoundEvenIsMonotone(from * 8, n, 8);
    RoundEvenIsMonotone(n, to * 8, 8);
  }

  function LutPoint(f: Curve, i: nat): Point
    requires f.Valid() && i < 12
  {
    if i == 0 then Point(0, Duty(f.idlePwm))
    else if i < 10 then
      RampIsBounded(f, i - 1);
      Point(RampCelsius(f, i - 1), Duty(RampPercent(f, i - 1)))
    else if i == 10 then Point(f.criticalC, 255)
    else Point(127, 255)
  }

  /** fm10k_fan_lut. */
  method BuildLut(f: Curve) returns (lut: Option<seq<Point>>)
    ensures lut.Some? <==> f.Valid()
    ensures lut.Some? ==> |lut.value| == 12 && forall i: nat :: i < 12 ==> lut.value[i] == LutPoint(f, i)
  {
    if !f.Valid() {
      return None;
    }
    var out := [Point(0, Duty(f.idlePwm))];
    for i := 0 to 9
      invariant |out| == i + 1 && forall k: nat :: k <= i ==> out[k] == LutPoint(f, k)
    {
      RampIsBounded(f, i);
      var percent := RoundEven(f.idlePwm * 8 + (f.loadPwm - f.idlePwm) * i, 8);
      var celsius := RoundEven(f.idleC * 8 + (f.loadC - f.idleC) * i, 8);
      out := out + [Point(celsius, RoundEven(percent * 255, 100))];
    }
    out := out + [Point(f.criticalC, 255), Point(127, 255)];
    lut := Some(out);
  }

  /**
   * The chip needs increasing temperatures, and cooling must never fall as it
   * gets hotter: both hold for every admissible curve, however it is rounded.
   */
  lemma LutRises(f: Curve, i: nat)
    requires f.Valid() && i < 11
    ensures LutPoint(f, i).celsius < LutPoint(f, i + 1).celsius
    ensures LutPoint(f, i).pwm <= LutPoint(f, i + 1).pwm
  {
    if i == 0 {
      RampIsBounded(f, 0);
    } else if i < 9 {
      RampSegmentRises(f, i - 1);
    } else if i == 9 {
      RampIsBounded(f, 8);
    }
  }

  lemma RampSegmentRises(f: Curve, k: nat)
    requires f.Valid() && k < 8
    ensures RampCelsius(f, k) < RampCelsius(f, k + 1)
    ensures RampPercent(f, k) <= RampPercent(f, k + 1) <= 100
    ensures Duty(RampPercent(f, k)) <= Duty(RampPercent(f, k + 1))
  {
    RampIsBounded(f, k + 1);
    RampStepSeparates(f.idleC, f.loadC - f.idleC, k);
    RampStepRises(f.idlePwm, f.loadPwm - f.idlePwm, k);
    RoundEvenIsMonotone(RampPercent(f, k) * 255, RampPercent(f, k + 1) * 255, 100);
  }

  lemma RampStepSeparates(base: nat, span: nat, k: nat)
    requires span > 8
    ensures RoundEven(base * 8 + span * k, 8) < RoundEven(base * 8 + span * (k + 1), 8)
  {
    assert span * (k + 1) == span * k + span;
    RoundEvenSeparates(base * 8 + span * k, base * 8 + span * (k + 1), 8);
  }

  lemma RampStepRises(base: nat, span: nat, k: nat)
    ensures RoundEven(base * 8 + span * k, 8) <= RoundEven(base * 8 + span * (k + 1), 8)
  {
    assert span * (k + 1) == span * k + span;
    RoundEvenIsMonotone(base * 8 + span * k, base * 8 + span * (k + 1), 8);
  }

  /** Any two points of the table, not just neighbours. */
  lemma {:induction false} LutIsMonotone(f: Curve, i: nat, k: nat)
    requires f.Valid() && i < k < 12
    ensures LutPoint(f, i).celsius < LutPoint(f, k).celsius
    ensures LutPoint(f, i).pwm <= LutPoint(f, k).pwm
  {
    LutRises(f, k - 1);
    if i < k - 1 {
      LutIsMonotone(f, i, k - 1);
    }
  }

  /** Full duty exactly from the critical point on, unless the ramp asks for it; never below the idle duty. */
  lemma LutProtects(f: Curve, i: nat)
    requires f.Valid() && i < 12
    ensures LutPoint(f, i).celsius >= f.criticalC <==> i >= 10
    ensures i >= 10 ==> LutPoint(f, i).pwm == 255
    ensures Duty(f.idlePwm) <= LutPoint(f, i).pwm
    ensures 64 <= LutPoint(f, i).pwm
  {
    if 0 < i { LutIsMonotone(f, 0, i); }
    if i < 10 { LutIsMonotone(f, i, 10); }
    if i == 11 { LutIsMonotone(f, 10, 11); }
    RoundEvenIsMonotone(25 * 255, f.idlePwm * 255, 100);
  }

  // ----- the register image ----------------------------------------------

  const CONTROLS := 33  // image slots 0..32; slot 33 is the mode, slot 34 the duty
  const IMAGE := 35

  function Response(ms: int): Byte {
    if ms == 5450 then 0x11 else if ms == 10900 then 0x13 else if ms == 21600 then 0x15 else 0x17
  }

  /** What control slot i holds for a curve. */
  function ControlByte(f: Curve, i: nat): Byte
    requires f.Valid() && i < CONTROLS
  {
    if i == 0 then 0x02
    else if i == 1 then 0x3f
    else if i == 2 then 0x08
    else if i == 3 then Response(f.responseMs)
    else if i == 4 then 0
    else if i == 5 then f.hysteresisC
    else if i == 6 then 0x06
    else if i == 7 then f.criticalC
    else if i == 8 then f.hysteresisC
    else if (i - 9) % 2 == 0 then LutPoint(f, (i - 9) / 2).celsius
    else LutPoint(f, (i - 9) / 2).pwm
  }

  const USUAL := Curve(35, 70, 80, 50, 80, 4, 10900)

  /** The table of the usual curve, in numbers. */
  lemma UsualTable()
    ensures USUAL.Valid()
    ensures LutPoint(USUAL, 0) == Point(0, 128) && LutPoint(USUAL, 1) == Point(35, 128)
    ensures LutPoint(USUAL, 2) == Point(39, 138) && LutPoint(USUAL, 3) == Point(44, 148)
    ensures LutPoint(USUAL, 4) == Point(48, 156) && LutPoint(USUAL, 5) == Point(52, 166)
    ensures LutPoint(USUAL, 6) == Point(57, 176) && LutPoint(USUAL, 7) == Point(61, 184)
    ensures LutPoint(USUAL, 8) == Point(66, 194) && LutPoint(USUAL, 9) == Point(70, 204)
    ensures LutPoint(USUAL, 10) == Point(80, 255) && LutPoint(USUAL, 11) == Point(127, 255)
  {
    hide LutPoint;
    UsualRamp(1, 35, 128);
    UsualRamp(2, 39, 138);
    UsualRamp(3, 44, 148);
    UsualRamp(4, 48, 156);
    UsualRamp(5, 52, 166);
    UsualRamp(6, 57, 176);
    UsualRamp(7, 61, 184);
    UsualRamp(8, 66, 194);
    UsualRamp(9, 70, 204);
    UsualEnds();
  }

  lemma UsualRamp(i: nat, celsius: Byte, pwm: Byte)
    requires 1 <= i < 10
    requires celsius == RoundEven(280 + 35 * (i - 1), 8) && pwm == RoundEven(RoundEven(400 + 30 * (i - 1), 8) * 255, 100)
    ensures USUAL.Valid() && LutPoint(USUAL, i) == Point(celsius, pwm)
  {
  }

  lemma UsualEnds()
    ensures USUAL.Valid() && LutPoint(USUAL, 0) == Point(0, 128)
    ensures LutPoint(USUAL, 10) == Point(80, 255) && LutPoint(USUAL, 11) == Point(127, 255)
  {
  }

  /** Its other control bytes, and where the table begins and ends. */
  lemma UsualBytes()
    ensures USUAL.Valid()
    ensures ControlByte(USUAL, 0) == 0x02 && ControlByte(USUAL, 1) == 0x3f && ControlByte(USUAL, 2) == 0x08
    ensures ControlByte(USUAL, 3) == 0x13 && ControlByte(USUAL, 4) == 0 && ControlByte(USUAL, 5) == 4
    ensures ControlByte(USUAL, 6) == 0x06 && ControlByte(USUAL, 7) == 80 && ControlByte(USUAL, 8) == 4
    ensures ControlByte(USUAL, 9) == 0 && ControlByte(USUAL, 10) == 128
    ensures ControlByte(USUAL, 29) == 80 && ControlByte(USUAL, 32) == 255
  {
    UsualEnds();
  }

  /** The four filter settings of the chip. */
  lemma ResponsesAre()
    ensures Response(5450) == 0x11 && Response(10900) == 0x13 && Response(21600) == 0x15 && Response(43700) == 0x17
  {
  }

  predicate FullImage(image: seq<Byte>) {
    |image| == IMAGE && image[33] == 0x30 && image[34] == 255
  }

  /** The image of this curve, running or held at full speed; without a curve, just full speed. */
  predicate Matches(image: seq<Byte>, f: Option<Curve>)
    requires |image| == IMAGE
  {
    match f
    case None => FullImage(image)
    case Some(f) =>
      && f.Valid()
      && (forall i: nat :: i < CONTROLS ==> image[i] == ControlByte(f, i))
      && (image[33] == 0x10 || FullImage(image))
  }

  /** fm10k_fan_image_matches. */
  method ImageMatches(v: seq<Byte>, f: Option<Curve>) returns (matches: bool)
    requires |v| == IMAGE
    ensures matches <==> Matches(v, f)
  {
    var full := v[33] == 0x30 && v[34] == 255;
    if f.None? {
      return full;
    }
    var lut := BuildLut(f.value);
    if lut.None? {
      return false;
    }
    matches := HeadMatches(v, f.value);
    if !matches || (v[33] != 0x10 && !full) {
      return false;
    }
    matches := TableMatches(v, f.value, lut.value);
  }

  method HeadMatches(v: seq<Byte>, c: Curve) returns (matches: bool)
    requires |v| == IMAGE && c.Valid()
    ensures matches <==> forall i: nat :: i < 9 ==> v[i] == ControlByte(c, i)
  {
    hide LutPoint, Response;
    matches := v[0] == 0x02 && v[1] == 0x3f && v[2] == 0x08 && v[3] == Response(c.responseMs)
               && v[4] == 0 && v[5] == c.hysteresisC && v[6] == 0x06
               && v[7] == c.criticalC && v[8] == c.hysteresisC;
    assert matches <==> v[0] == ControlByte(c, 0) && v[1] == ControlByte(c, 1) && v[2] == ControlByte(c, 2)
                        && v[3] == ControlByte(c, 3) && v[4] == ControlByte(c, 4) && v[5] == ControlByte(c, 5)
                        && v[6] == ControlByte(c, 6) && v[7] == ControlByte(c, 7) && v[8] == ControlByte(c, 8);
  }

  method TableMatches(v: seq<Byte>, c: Curve, lut: seq<Point>) returns (matches: bool)
    requires |v| == IMAGE && c.Valid() && |lut| == 12
    requires forall i: nat :: i < 12 ==> lut[i] == LutPoint(c, i)
    requires forall i: nat :: i < 9 ==> v[i] == ControlByte(c, i)
    ensures matches <==> forall i: nat :: i < CONTROLS ==> v[i] == ControlByte(c, i)
  {
    hide LutPoint, ControlByte;
    for i := 0 to 12
      invariant forall k: nat :: k < 9 + 2 * i ==> v[k] == ControlByte(c, k)
    {
      TableBytes(c, i);
      if v[9 + 2 * i] != lut[i].celsius || v[10 + 2 * i] != lut[i].pwm {
        return false;
      }
    }
    matches := true;
  }

  lemma TableBytes(f: Curve, i: nat)
    requires f.Valid() && i < 12
    ensures ControlByte(f, 9 + 2 * i) == LutPoint(f, i).celsius
    ensures ControlByte(f, 10 + 2 * i) == LutPoint(f, i).pwm
  {
  }

  /** A captured configuration: the registers, and the curve they were programmed from. */
  datatype Snapshot = Snapshot(valid: bool, curve: Option<Curve>, image: seq<Byte>)
  {
    predicate WellFormed() {
      |image| == IMAGE
    }
  }

  /** fm10k_fan_snapshot_equal: mode and duty are operational, the 33 control bytes must agree. */
  predicate SnapshotEqual(a: Snapshot, b: Snapshot)
    requires a.WellFormed() && b.WellFormed()
  {
    && a.valid && b.valid && a.curve == b.curve
    && Matches(a.image, a.curve) && Matches(b.image, b.curve)
    && a.image[..CONTROLS] == b.image[..CONTROLS]
  }
}
