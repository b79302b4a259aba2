/**
 * Statistics counters: 48 bits read as two 32-bit registers while they run,
 * and differences kept against a base that wraps on its own.
 */
module Counter48 {
  import opened Common

  const W16 := 0x1_0000
  const W32 := 0x1_0000_0000
  const W48 := 0x1_0000_0000_0000
  const W64 := 0x1_0000_0000_0000_0000

  type U32 = u: int | 0 <= u < 0x1_0000_0000
  type U64 = u: int | 0 <= u < 0x1_0000_0000_0000_0000

  /** The registers of a counter whose true count is c. */
  function High(c: nat): U32 { c / W32 % W16 }
  function Low(c: nat): U32 { c % W32 }

  /** The two registers together. */
  function Join(h: U32, l: U32): nat { h * W32 + l }

  lemma RegistersJoin(c: nat)
    ensures Join(High(c), Low(c)) == c % W48
  {
    var q, l := c / W32, c % W32;
    assert c == (q / W16) * W48 + (q % W16) * W32 + l;
  }

  /** The true count at each register read, in order: counters only count up. */
  predicate Rising(c: seq<nat>) {
    forall i, k :: 0 <= i < k < |c| ==> c[i] <= c[k]
  }

  /** Attempt i of the loop saw the high half change. */
  predicate Rolls(c: seq<nat>, i: nat) {
    2 * i + 2 < |c| && High(c[2 * i]) != High(c[2 * i + 2])
  }

  /** Every attempt the schedule allows saw that: the loop is still running at its end. */
  ghost predicate StillRolling(c: seq<nat>) {
    forall i: nat :: 2 * i + 2 < |c| ==> Rolls(c, i)
  }

  /** An attempt the loop accepts sees it advance by at most 2^48 - 2^32. */
  ghost predicate Gentle(c: seq<nat>) {
    forall i: nat :: 2 * i + 2 < |c| && !Rolls(c, i) ==> c[2 * i + 2] - c[2 * i] <= W48 - W32
  }

  /**
   * fm10k_read_hw_stats_48b, the reading loop: high, then low and high until
   * the high half repeats.  `c` schedules the count at successive reads; None
   * if the loop is still running at its end.
   */
  method ReadHalves(c: seq<nat>) returns (r: Option<(U32, U32)>, at: nat)
    requires Rising(c)
    ensures at % 2 == 1 && at <= |c| + 1 && forall i :: 0 <= i < at / 2 ==> Rolls(c, i)
    ensures r.Some? ==>
              && at < |c| - 1
              && r.value == (High(c[at - 1]), Low(c[at])) && High(c[at - 1]) == High(c[at + 1])
    ensures r.None? ==> at >= |c| - 1
    ensures r.None? <==> StillRolling(c)
  {
    at := 1;
    if c == [] {
      return None, at;
    }
    var countH: U32 := High(c[0]);
    while at + 1 < |c|
      invariant at % 2 == 1 && at <= |c| && countH == High(c[at - 1])
      invariant forall i :: 0 <= i < at / 2 ==> Rolls(c, i)
    {
      var previous := countH;
      var countL := Low(c[at]);
      countH := High(c[at + 1]);
      if countH == previous {
        assert !Rolls(c, at / 2);
        return Some((countH, countL)), at;
      }
      assert Rolls(c, at / 2);
      at := at + 2;
    }
    r := None;
  }

  /** Between two equal high halves there is one block of 2^32, unless the counter went all the way round. */
  lemma SameBlock(a: nat, b: nat)
    requires a <= b <= a + W48 - W32 && High(a) == High(b)
    ensures a / W32 == b / W32
  {
    var p, q := a / W32, b / W32;
    assert a == p * W32 + a % W32 && b == q * W32 + b % W32;
    assert p <= q;
    assert q - p < W16;
    assert p == p / W16 * W16 + p % W16 && q == q / W16 * W16 + q % W16;
  }

  /** The value read is the count at the low read exactly if the high half stood in that very block. */
  lemma BlockDecides(a: nat, c: nat)
    ensures Join(High(a), Low(c)) == c % W48 <==> High(a) == High(c)
  {
    RegistersJoin(c);
  }

  /**
   * The value read is the count at the moment the low half was read, provided
   * the counter advances by at most 2^48 - 2^32 around that moment.
   */
  lemma ReadIsCurrent(a: nat, c: nat, b: nat)
    requires a <= c <= b <= a + W48 - W32 && High(a) == High(b)
    ensures Join(High(a), Low(c)) == c % W48
  {
    SameBlock(a, b);
    assert a / W32 <= c / W32 <= b / W32;
    BlockDecides(a, c);
  }

  /** The counter did show, between two reads of the high half, the value that was read. */
  ghost predicate Occurred(a: nat, c: nat, b: nat) {
    exists v: nat :: a <= v <= b && v % W48 == Join(High(a), Low(c))
  }

  /** Every read accepted while the counter advances by at most d is a value it had. */
  ghost predicate SafeUpTo(d: nat) {
    forall a: nat, c: nat, b: nat :: a <= c <= b <= a + d && High(a) == High(b) ==> Occurred(a, c, b)
  }

  /** The exact bound on the advance. */
  lemma BoundIsExact(d: nat)
    ensures SafeUpTo(d) <==> d <= W48 - W32
  {
    if d <= W48 - W32 {
      forall a: nat, c: nat, b: nat | a <= c <= b <= a + d && High(a) == High(b)
        ensures Occurred(a, c, b)
      {
        ReadIsCurrent(a, c, b);
      }
    } else {
      BoundIsTight();
      var a, c, b := W32 - 1, W32 + 5, W48;
      assert a <= c <= b <= a + d && High(a) == High(b) && !Occurred(a, c, b);
    }
  }

  /** One count more than the bound, and the value read need not have occurred at all. */
  lemma BoundIsTight()
    ensures var a, c, b := W32 - 1, W32 + 5, W48;
            a <= c <= b && b - a == W48 - W32 + 1 && High(a) == High(b) && !Occurred(a, c, b)
  {
    assert High(W32 - 1) == 0 && High(W48) == 0 && Low(W32 + 5) == 5;
    forall v: nat | W32 - 1 <= v <= W48
      ensures v % W48 != 5
    {
    }
  }

  // ----- differences -----------------------------------------------------

  /** The subtraction as the machine does it: 32-bit halves, then 64 bits, then the mask. */
  function MachineDelta(h: U32, l: U32, baseH: U32, baseL: U32): nat {
    var high: nat := (h - baseH) % W32;
    ((high * W32 + l - baseL) % W64) % W48
  }

  lemma MachineDeltaIs(h: U32, l: U32, baseH: U32, baseL: U32)
    ensures MachineDelta(h, l, baseH, baseL) == (Join(h, l) - Join(baseH, baseL)) % W48
  {
    var high: nat := (h - baseH) % W32;
    var wraps := if h < baseH then 1 else 0;
    assert high == h - baseH + wraps * W32;
    var x := high * W32 + l - baseL;
    assert x == Join(h, l) - Join(baseH, baseL) + wraps * W64;
    Reduce(x);
    AddWraps(Join(h, l) - Join(baseH, baseL), wraps);
  }

  lemma Reduce(x: int)
    ensures x % W64 % W48 == x % W48
  {
    assert W64 == W16 * W48;
    var q, r := x / W64, x % W64;
    assert x == (q * W16) * W48 + r;
    SameLow48(x, r, q * W16);
  }

  lemma SameLow48(x: int, y: int, k: int)
    requires x == k * W48 + y
    ensures x % W48 == y % W48
  {
    assert x == (k + y / W48) * W48 + y % W48;
  }

  lemma AddWraps(x: int, wraps: int)
    requires wraps in {0, 1}
    ensures (x + wraps * W64) % W48 == x % W48
  {
    SameLow48(x + wraps * W64, x, wraps * W16);
  }

  /** One statistic: the count reported, and the base it is kept against. */
  class Statistic {
    var count: U64
    var baseL: U32
    var baseH: U32
    ghost var origin: nat  // the true count when the base was taken ...
    ghost var current: nat // ... and at the last accounted read

    ghost predicate Valid()
      reads this
    {
      && Join(baseH, baseL) % W48 == current % W48
      && origin <= current && count == (current - origin) % W64
    }

    constructor (c: nat)
      ensures Valid() && origin == current == c && count == 0
    {
      baseL, baseH := Low(c), High(c);
      count, origin, current := 0, c, c;
      new;
      RegistersJoin(c);
      assert Join(High(c), Low(c)) < W48;
    }

    /** fm10k_read_hw_stats_48b: the increment since the base, modulo 2^48. */
    method Read(c: seq<nat>) returns (delta: Option<nat>, at: nat)
      requires Valid() && Rising(c) && Gentle(c) && (c != [] ==> current <= c[0])
      ensures delta.Some? ==>
                && 0 < at < |c| - 1 && delta.value == (c[at] - current) % W48
                && (c[at] < current + W48 ==> delta.value == c[at] - current)
      ensures delta.None? <==> StillRolling(c)
    {
      var r;
      r, at := ReadHalves(c);
      if r.None? {
        return None, at;
      }
      var h, l := r.value.0, r.value.1;
      assert !Rolls(c, at / 2);
      ReadIsCurrent(c[at - 1], c[at], c[at + 1]);
      MachineDeltaIs(h, l, baseH, baseL);
      TrueDelta(Join(h, l), Join(baseH, baseL), c[at], current);
      delta := Some(MachineDelta(h, l, baseH, baseL));
    }

    /** count += delta, then fm10k_update_hw_base_48b: the base moves to what was just read. */
    method Account(delta: nat, ghost c: nat)
      requires Valid() && c >= current && delta == c - current && delta < W48
      modifies this
      ensures Valid() && current == c && origin == old(origin)
      ensures count == (old(count) + delta) % W64
    {
      SumStep(current - origin, delta);
      count := (count + delta) % W64;
      if delta != 0 {
        var sum := (delta + baseL) % W64;
        ghost var before := Join(baseH, baseL);
        ghost var wrapped := (baseH + sum / W32) / W32;
        assert sum == delta + baseL;
        baseL := sum % W32;
        baseH := (baseH + sum / W32) % W32;
        assert before + delta == Join(baseH, baseL) + wrapped * W64;
        BaseStep(before, delta, Join(baseH, baseL), wrapped, current, c);
      }
      current := c;
    }
  }

  lemma TrueDelta(v: nat, base: nat, c: nat, current: nat)
    requires v == c % W48 && base % W48 == current % W48 && current <= c
    ensures (v - base) % W48 == (c - current) % W48
  {
    var a, b, d := c / W48, base / W48, current / W48;
    assert v - base == c - current + (d - a - b) * W48;
    SameLow48(v - base, c - current, d - a - b);
  }

  lemma SumStep(total: nat, delta: nat)
    ensures (total % W64 + delta) % W64 == (total + delta) % W64
  {
    var q := total / W64;
    assert total + delta == q * W64 + (total % W64 + delta);
  }

  lemma BaseStep(before: nat, delta: nat, after: nat, wrapped: int, current: nat, c: nat)
    requires before + delta == after + wrapped * W64 && before % W48 == current % W48 && c == current + delta
    ensures after % W48 == c % W48
  {
    var p, q := before / W48, current / W48;
    assert after == c + (p - q - wrapped * W16) * W48;
    SameLow48(after, c, p - q - wrapped * W16);
  }

  /** fm10k_read_hw_stats_32b and its base update, by the same law in 32 bits. */
  lemma Delta32(base: U32, current: nat, c: nat)
    requires base == current % W32 && current <= c < current + W32
    ensures (Low(c) - base) % W32 == c - current
    ensures (base + (c - current)) % W32 == Low(c)
  {
    var p, q := current / W32, c / W32;
    assert c == q * W32 + Low(c) && current == p * W32 + base;
    assert q == p || q == p + 1;
  }

  /** Packets: a 32-bit register, and the count kept against a base of its own. */
  class Statistic32 {
    var count: U64
    var base: U32
    ghost var origin: nat
    ghost var current: nat

    ghost predicate Valid()
      reads this
    {
      base == Low(current) && origin <= current && count == (current - origin) % W64
    }

    constructor (c: nat)
      ensures Valid() && origin == current == c
    {
      count, base, origin, current := 0, Low(c), c, c;
    }

    /** fm10k_read_hw_stats_32b, count += delta, fm10k_update_hw_base_32b. */
    method Account(c: nat)
      requires Valid() && current <= c < current + W32
      modifies this
      ensures Valid() && current == c && origin == old(origin)
    {
      Delta32(base, current, c);
      var delta: U32 := (Low(c) - base) % W32;
      SumStep(current - origin, delta);
      count := (count + delta) % W64;
      base := (base + delta) % W32;
      current := c;
    }
  }

  /** Read n sees the counter ahead of the read before it, by less than 2^32. */
  predicate Paced(start: nat, counts: seq<nat>, n: nat)
    requires n < |counts|
  {
    var before := if n == 0 then start else counts[n - 1];
    before <= counts[n] < before + W32
  }

  /** Over any run of reads less than 2^32 apart the sum of deltas is the true increment. */
  method Accumulate32(start: nat, counts: seq<nat>) returns (s: Statistic32)
    requires forall n: nat | n < |counts| :: Paced(start, counts, n)
    ensures fresh(s) && s.Valid() && s.current == if counts == [] then start else counts[|counts| - 1]
    ensures s.count == (s.current - start) % W64
  {
    s := new Statistic32(start);
    for n := 0 to |counts|
      invariant fresh(s) && s.Valid() && s.origin == start
      invariant s.current == if n == 0 then start else counts[n - 1]
    {
      assert Paced(start, counts, n);
      s.Account(counts[n]);
    }
  }

  /** The counter as it is read in the next round, seen from count c: ahead of it, by less than 2^48. */
  predicate Ahead(c: nat, round: seq<nat>) {
    forall i :: 0 <= i < |round| ==> c <= round[i] < c + W48
  }

  /** A run of the counter: rising, and never advancing 2^48 from one round to the next. */
  ghost predicate Run(start: nat, rounds: seq<seq<nat>>) {
    && (forall n :: 0 <= n < |rounds| ==> Rising(rounds[n]) && Gentle(rounds[n]))
    && (rounds != [] ==> Ahead(start, rounds[0]))
    && (forall n, i :: 0 <= n < |rounds| - 1 && 0 <= i < |rounds[n]| ==> Ahead(rounds[n][i], rounds[n + 1]))
  }

  /**
   * Any number of rounds: what is reported is the true number of counts from
   * the start to the last round, through every wrap of the 48-bit counter and
   * of both base halves.  It is not done only if a round's loop never ends.
   */
  method Accumulate(start: nat, rounds: seq<seq<nat>>) returns (s: Statistic, done: bool)
    requires Run(start, rounds)
    ensures fresh(s) && s.Valid() && s.origin == start && s.count == (s.current - start) % W64
    ensures done ==> if rounds == [] then s.current == start else s.current in rounds[|rounds| - 1]
    ensures done <==> forall n :: 0 <= n < |rounds| ==> !StillRolling(rounds[n])
  {
    hide Rising, Gentle, StillRolling;
    s := new Statistic(start);
    for n := 0 to |rounds|
      invariant fresh(s) && s.Valid() && s.origin == start
      invariant if n == 0 then s.current == start else s.current in rounds[n - 1]
      invariant n < |rounds| ==> Ahead(s.current, rounds[n])
      invariant forall i :: 0 <= i < n ==> !StillRolling(rounds[i])
    {
      var round := rounds[n];
      var delta, at := s.Read(round);
      if delta.None? {
        return s, false;
      }
      s.Account(delta.value, round[at]);
    }
    done := true;
  }
}
