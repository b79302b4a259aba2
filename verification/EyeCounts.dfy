/** The firmware's 16-bit error counts: exact below 8192, 13-bit mantissas above, all ones for a timeout. */
module EyeCounts {
  import opened Bits
  import opened EyeDevice

  const TIMEOUT: Word16 := 0xffff
  const COUNT_MAX := 134184960

  function Shift(n: nat, k: nat): nat {
    if k == 0 then n else 2 * Shift(n, k - 1)
  }

  /** fm10k_eye_decode_count, for a sample that is not a timeout. */
  function Decode(e: Word16): nat {
    if e < 0x2000 then e else Shift(0x1000 + e % 0x1000, e / 0x1000 - 1)
  }

  lemma {:induction false} ShiftIsMonotone(m: nat, n: nat, k: nat)
    requires m < n
    ensures Shift(m, k) < Shift(n, k)
  {
    if k > 0 {
      ShiftIsMonotone(m, n, k - 1);
    }
  }

  lemma {:induction false} ShiftDoubles(n: nat, k: nat, more: nat)
    requires k < more && n >= 0x1000
    ensures Shift(2 * n, k) <= Shift(n, more)
    ensures Shift(n, k) >= 0x1000
  {
    if k > 0 {
      ShiftDoubles(n, k - 1, more - 1);
    } else {
      ShiftGrows(n, more);
    }
  }

  lemma {:induction false} ShiftGrows(n: nat, k: nat)
    requires k > 0
    ensures Shift(n, k) >= 2 * n
  {
    if k > 1 {
      ShiftGrows(n, k - 1);
    }
  }

  /** One formula from 0x1000 on. */
  lemma DecodeIsShift(e: Word16)
    requires e >= 0x1000
    ensures Decode(e) == Shift(0x1000 + e % 0x1000, e / 0x1000 - 1)
  {
    if e < 0x2000 {
      assert e / 0x1000 == 1 && e % 0x1000 == e - 0x1000;
    }
  }

  /** Encoded order is count order, so no two samples decode alike. */
  lemma DecodeIsMonotone(a: Word16, b: Word16)
    requires a < b
    ensures Decode(a) < Decode(b)
  {
    if b >= 0x2000 {
      DecodeIsShift(b);
      if a >= 0x1000 {
        DecodeIsShift(a);
        if a / 0x1000 == b / 0x1000 {
          ShiftIsMonotone(0x1000 + a % 0x1000, 0x1000 + b % 0x1000, a / 0x1000 - 1);
        } else {
          ShiftIsMonotone(0x1000 + a % 0x1000, 0x2000, a / 0x1000 - 1);
          ShiftDoubles(0x1000, a / 0x1000 - 1, b / 0x1000 - 1);
          ShiftIsAtLeast(0x1000, 0x1000 + b % 0x1000, b / 0x1000 - 1);
        }
      } else {
        ShiftGrows(0x1000 + b % 0x1000, b / 0x1000 - 1);
      }
    }
  }

  lemma ShiftIsAtLeast(m: nat, n: nat, k: nat)
    requires m <= n
    ensures Shift(m, k) <= Shift(n, k)
  {
    if m < n {
      ShiftIsMonotone(m, n, k);
    }
  }

  /** In numbers: a 13-bit mantissa whose leading bit is implied, and an exponent. */
  lemma DecodeIs(e: Word16)
    ensures Decode(e) == if e < 0x2000 then e as int else (0x1000 + e % 0x1000) * Pow2(e / 0x1000 - 1)
  {
    if e >= 0x2000 {
      DoublesTo(0x1000 + e % 0x1000, e / 0x1000 - 1);
    }
  }

  /** The largest count, which a timeout can never be mistaken for. */
  lemma DecodeIsBounded(e: Word16)
    requires e != TIMEOUT
    ensures Decode(e) <= COUNT_MAX < 0xffff_ffff
  {
    if e < 0xfffe {
      DecodeIsMonotone(e, 0xfffe);
    }
    DoublesTo(0x1ffe, 14);
    assert Decode(0xfffe) == Shift(0x1ffe, 14);
  }

  lemma {:induction false} DoublesTo(n: nat, k: nat)
    ensures Shift(n, k) == n * Pow2(k)
    ensures Pow2(14) == 16384
  {
    if k > 0 {
      DoublesTo(n, k - 1);
    }
    assert Pow2(7) == 128 && Pow2(14) == 128 * Pow2(7);
  }
}
