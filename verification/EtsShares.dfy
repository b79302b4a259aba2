/**
 * Enhanced transmission selection: weights become percentages that add up to
 * exactly 100, by largest remainder with one percent reserved for each class.
 */
module EtsShares {

  /** The congestion-notification class is strict, not a share, under DSCP classification. */
  const CNP_TC := 7

  predicate IsClass(dscp: bool, tc: int) {
    !(dscp && tc == CNP_TC)
  }

  function ClassesTo(dscp: bool, n: nat): (s: seq<nat>)
    ensures |s| <= n && InRange(s, n)
    ensures forall tc: nat :: tc in s <==> tc < n && IsClass(dscp, tc)
  {
    if n == 0 then [] else ClassesTo(dscp, n - 1) + if IsClass(dscp, n - 1) then [n - 1] else []
  }

  /** All eight classes have a share, but for the last one under DSCP classification. */
  lemma {:induction false} ClassesAre(dscp: bool, n: nat)
    requires n <= 8
    ensures |ClassesTo(dscp, n)| == if dscp && n == 8 then 7 else n
    ensures forall i: nat :: i < |ClassesTo(dscp, n)| ==> ClassesTo(dscp, n)[i] == i
  {
    if n > 0 {
      ClassesAre(dscp, n - 1);
    }
  }

  predicate InRange(s: seq<nat>, n: nat) {
    forall i :: 0 <= i < |s| ==> s[i] < n
  }

  /** The sum of f over a list of classes. */
  function SumOf(f: seq<nat>, s: seq<nat>): nat
    requires InRange(s, |f|)
  {
    if s == [] then 0 else f[s[0]] + SumOf(f, s[1..])
  }

  lemma {:induction false} SumAppends(f: seq<nat>, s: seq<nat>, tc: nat)
    requires tc < |f| && InRange(s, |f|)
    ensures SumOf(f, s + [tc]) == SumOf(f, s) + f[tc]
  {
    if s == [] {
      assert s + [tc] == [tc] && [tc][1..] == [];
    } else {
      assert (s + [tc])[1..] == s[1..] + [tc];
      SumAppends(f, s[1..], tc);
    }
  }

  function SumTo(b: seq<nat>, n: nat): nat
    requires n <= |b|
  {
    if n == 0 then 0 else SumTo(b, n - 1) + b[n - 1]
  }

  lemma {:induction false} SumIsOverClasses(b: seq<nat>, dscp: bool, n: nat)
    requires n <= |b| && forall tc: nat :: tc < n && !IsClass(dscp, tc) ==> b[tc] == 0
    ensures SumTo(b, n) == SumOf(b, ClassesTo(dscp, n))
  {
    if n > 0 {
      SumIsOverClasses(b, dscp, n - 1);
      if IsClass(dscp, n - 1) {
        SumAppends(b, ClassesTo(dscp, n - 1), n - 1);
      } else {
        assert ClassesTo(dscp, n) == ClassesTo(dscp, n - 1);
      }
    }
  }

  lemma {:induction false} SumBumped(b: seq<nat>, i: nat, n: nat)
    requires i < |b| && n <= |b|
    ensures SumTo(b[i := b[i] + 1], n) == SumTo(b, n) + if i < n then 1 else 0
  {
    if n > 0 {
      SumBumped(b, i, n - 1);
    }
  }

  // ----- quota and remainder ---------------------------------------------

  function Share(r: nat, w: nat, total: nat): nat requires total > 0 { r * w / total }
  function Rest(r: nat, w: nat, total: nat): nat requires total > 0 { r * w % total }

  function Shares(r: nat, weights: seq<nat>, total: nat): seq<nat>
    requires total > 0
  {
    seq(|weights|, i requires 0 <= i < |weights| => Share(r, weights[i], total))
  }

  function Rests(r: nat, weights: seq<nat>, total: nat): seq<nat>
    requires total > 0
  {
    seq(|weights|, i requires 0 <= i < |weights| => Rest(r, weights[i], total))
  }

  lemma {:induction false} SharesAddUp(r: nat, weights: seq<nat>, total: nat, s: seq<nat>)
    requires total > 0 && InRange(s, |weights|)
    ensures total * SumOf(Shares(r, weights, total), s) + SumOf(Rests(r, weights, total), s) == r * SumOf(weights, s)
  {
    if s != [] {
      SharesAddUp(r, weights, total, s[1..]);
      var w, q, m := weights[s[0]], Share(r, weights[s[0]], total), Rest(r, weights[s[0]], total);
      assert r * w == total * q + m;
      Distribute(total, q, SumOf(Shares(r, weights, total), s[1..]));
      Distribute(r, w, SumOf(weights, s[1..]));
    }
  }

  lemma Distribute(a: nat, x: nat, y: nat)
    ensures a * (x + y) == a * x + a * y
  {
  }

  lemma {:induction false} RestsAreBounded(r: nat, weights: seq<nat>, total: nat, s: seq<nat>)
    requires total > 0 && InRange(s, |weights|)
    ensures SumOf(Rests(r, weights, total), s) <= |s| * (total - 1)
  {
    if s != [] {
      RestsAreBounded(r, weights, total, s[1..]);
      assert |s| * (total - 1) == (|s| - 1) * (total - 1) + (total - 1);
    }
  }

  /** What is left over goes once round at most: it is less than the number of classes. */
  lemma LeftoverFits(r: nat, weights: seq<nat>, total: nat, s: seq<nat>)
    requires total > 0 && InRange(s, |weights|) && total == SumOf(weights, s) && s != []
    ensures var left := r - SumOf(Shares(r, weights, total), s);
            0 <= left < |s| && total * left == SumOf(Rests(r, weights, total), s)
  {
    SharesAddUp(r, weights, total, s);
    RestsAreBounded(r, weights, total, s);
    Balance(total, r, SumOf(Shares(r, weights, total), s), SumOf(Rests(r, weights, total), s), |s|);
  }

  lemma MulMono(a: nat, x: int, y: int)
    requires x <= y
    ensures a * x <= a * y
  {
    assert a * (y - x) >= 0;
  }

  lemma Balance(total: nat, r: nat, given: nat, rest: nat, n: nat)
    requires total > 0 && n > 0 && total * given + rest == r * total && rest <= n * (total - 1)
    ensures 0 <= r - given < n && total * (r - given) == rest
  {
    var left := r - given;
    assert total * left == total * r - total * given;
    assert n * (total - 1) == total * n - n;
    if left < 0 {
      MulMono(total, left, -1);
    } else if left >= n {
      MulMono(total, n, left);
    }
  }

  // ----- who comes first -------------------------------------------------

  /** Larger remainder first, then the lower class. */
  predicate Before(rest: seq<nat>, a: nat, b: nat)
    requires a < |rest| && b < |rest|
  {
    rest[a] > rest[b] || (rest[a] == rest[b] && a <= b)
  }

  predicate Ordered(rest: seq<nat>, s: seq<nat>)
    requires InRange(s, |rest|)
  {
    forall i, k :: 0 <= i < k < |s| ==> Before(rest, s[i], s[k])
  }

  predicate Distinct(s: seq<nat>) {
    forall i, k :: 0 <= i < k < |s| ==> s[i] != s[k]
  }

  lemma ClassesAreDistinct(dscp: bool, n: nat)
    ensures Distinct(ClassesTo(dscp, n))
  {
  }

  /** One class put where it belongs. */
  method Insert(rest: seq<nat>, s: seq<nat>, tc: nat) returns (t: seq<nat>)
    requires tc < |rest| && InRange(s, |rest|) && Ordered(rest, s) && Distinct(s) && tc !in s
    ensures (forall k :: k in t <==> k in s || k == tc) && |t| == |s| + 1 && InRange(t, |rest|)
    ensures Ordered(rest, t) && Distinct(t)
    ensures SumOf(rest, t) == SumOf(rest, s) + rest[tc]
  {
    var i := 0;
    while i < |s| && Before(rest, s[i], tc)
      invariant i <= |s| && forall k :: 0 <= k < i ==> Before(rest, s[k], tc)
    {
      i := i + 1;
    }
    t := s[..i] + [tc] + s[i..];
    InsertOrders(rest, s, i, tc);
    InsertKeeps(s, i, tc);
    SumInserts(rest, s, i, tc);
  }

  lemma InsertKeeps(s: seq<nat>, i: nat, tc: nat)
    requires i <= |s| && Distinct(s) && tc !in s
    ensures var t := s[..i] + [tc] + s[i..];
            (forall k :: k in t <==> k in s || k == tc) && Distinct(t)
  {
    var t := s[..i] + [tc] + s[i..];
    forall k
      ensures k in t <==> k in s || k == tc
    {
      assert s == s[..i] + s[i..];
      assert k in t <==> k in s[..i] || k == tc || k in s[i..];
    }
    InsertKeepsDistinct(s, i, tc);
  }

  lemma InsertKeepsDistinct(s: seq<nat>, i: nat, tc: nat)
    requires i <= |s| && Distinct(s) && tc !in s
    ensures Distinct(s[..i] + [tc] + s[i..])
  {
    var t := s[..i] + [tc] + s[i..];
    assert forall k :: 0 <= k < |t| ==> t[k] == if k < i then s[k] else if k == i then tc else s[k - 1];
  }

  lemma InsertOrders(rest: seq<nat>, s: seq<nat>, i: nat, tc: nat)
    requires tc < |rest| && InRange(s, |rest|) && Ordered(rest, s) && i <= |s|
    requires forall k :: 0 <= k < i ==> Before(rest, s[k], tc)
    requires i < |s| ==> !Before(rest, s[i], tc)
    ensures var t := s[..i] + [tc] + s[i..];
            InRange(t, |rest|) && Ordered(rest, t)
  {
    var t := s[..i] + [tc] + s[i..];
    assert forall k :: 0 <= k < |t| ==> t[k] == if k < i then s[k] else if k == i then tc else s[k - 1];
    forall k | i <= k < |s|
      ensures Before(rest, tc, s[k])
    {
      assert k == i || Before(rest, s[i], s[k]);
    }
    forall x, y | 0 <= x < y < |t|
      ensures Before(rest, t[x], t[y])
    {
      if x != i && y != i {
        var u, v := if x < i then x else x - 1, if y < i then y else y - 1;
        assert Before(rest, s[u], s[v]);
      }
    }
  }

  lemma {:induction false} SumInserts(f: seq<nat>, s: seq<nat>, i: nat, tc: nat)
    requires i <= |s| && tc < |f| && InRange(s, |f|)
    ensures InRange(s[..i] + [tc] + s[i..], |f|)
    ensures SumOf(f, s[..i] + [tc] + s[i..]) == SumOf(f, s) + f[tc]
  {
    var t := s[..i] + [tc] + s[i..];
    if i == 0 {
      assert t[1..] == s;
    } else {
      assert s[1..][..i - 1] == s[..i][1..] && s[1..][i - 1..] == s[i..];
      assert t[1..] == s[1..][..i - 1] + [tc] + s[1..][i - 1..];
      SumInserts(f, s[1..], i - 1, tc);
    }
  }

  method Sort(rest: seq<nat>, classes: seq<nat>) returns (order: seq<nat>)
    requires InRange(classes, |rest|) && Distinct(classes)
    ensures (forall tc :: tc in order <==> tc in classes) && |order| == |classes| && InRange(order, |rest|)
    ensures Ordered(rest, order) && Distinct(order) && SumOf(rest, order) == SumOf(rest, classes)
  {
    order := [];
    for i := 0 to |classes|
      invariant (forall tc :: tc in order <==> tc in classes[..i]) && |order| == i && InRange(order, |rest|)
      invariant Ordered(rest, order) && Distinct(order) && SumOf(rest, order) == SumOf(rest, classes[..i])
    {
      assert classes[..i + 1] == classes[..i] + [classes[i]];
      SumAppends(rest, classes[..i], classes[i]);
      order := Insert(rest, order, classes[i]);
    }
    assert classes[..|classes|] == classes;
  }

  /** Only a class that fell short of its quota gets one percent more. */
  lemma LuckyOnesFellShort(rest: seq<nat>, order: seq<nat>, left: nat, total: nat, i: nat)
    requires InRange(order, |rest|) && Ordered(rest, order)
    requires (forall i :: 0 <= i < |order| ==> rest[order[i]] < total) && total > 0
    requires i < left <= |order| && SumOf(rest, order) == total * left
    ensures rest[order[i]] > 0
  {
    MulMono(total, i + 1, left);
    assert total * (i + 1) == i * total + total;
    if rest[order[i]] == 0 {
      TailIsZero(rest, order, i);
      HeadIsBounded(rest, order, i, total);
    }
  }

  lemma {:induction false} HeadIsBounded(rest: seq<nat>, s: seq<nat>, i: nat, total: nat)
    requires i <= |s| && InRange(s, |rest|) && (forall i :: 0 <= i < |s| ==> rest[s[i]] < total)
    requires forall k :: i <= k < |s| ==> rest[s[k]] == 0
    ensures SumOf(rest, s) <= i * total
  {
    if s != [] {
      if i == 0 {
        HeadIsBounded(rest, s[1..], 0, total);
      } else {
        HeadIsBounded(rest, s[1..], i - 1, total);
        assert i * total == (i - 1) * total + total;
      }
    }
  }

  lemma TailIsZero(rest: seq<nat>, s: seq<nat>, i: nat)
    requires InRange(s, |rest|) && Ordered(rest, s) && i < |s| && rest[s[i]] == 0
    ensures forall k :: i <= k < |s| ==> rest[s[k]] == 0
  {
    forall k | i <= k < |s|
      ensures rest[s[k]] == 0
    {
      assert k == i || Before(rest, s[i], s[k]);
    }
  }

  // ----- the policy ------------------------------------------------------

  /** Within one percent, strictly, of 1 + r * w / total. */
  predicate NearQuota(b: nat, r: nat, w: nat, total: nat) {
    0 < b && (b - 1) * total < r * w + total && r * w < (b - 1) * total + total
  }

  lemma QuotaIsNear(r: nat, w: nat, total: nat, extra: nat)
    requires total > 0 && extra <= 1 && (extra == 1 ==> Rest(r, w, total) > 0)
    ensures NearQuota(1 + Share(r, w, total) + extra, r, w, total)
  {
    var q, m := Share(r, w, total), Rest(r, w, total);
    assert r * w == total * q + m;
    assert (q + extra) * total == total * q + extra * total;
  }

  /** A larger weight has the larger share, or the same share and the larger remainder. */
  lemma WeightsRankShares(r: nat, v: nat, w: nat, total: nat)
    requires total > 0 && r > 0 && v > w
    ensures Share(r, v, total) > Share(r, w, total)
            || (Share(r, v, total) == Share(r, w, total) && Rest(r, v, total) > Rest(r, w, total))
  {
    var p, q := Share(r, v, total), Share(r, w, total);
    if p < q {
      MulMono(total, p + 1, q);
    }
    assert r * v == total * p + Rest(r, v, total) && r * w == total * q + Rest(r, w, total);
    MulMono(r, w + 1, v);
  }

  /** What the percentages promise. */
  ghost predicate Fair(b: seq<nat>, weights: seq<nat>, dscp: bool, r: nat, total: nat)
    requires |b| == |weights| == 8
  {
    && SumTo(b, 8) == 100
    && (forall tc: nat :: tc < 8 ==> if IsClass(dscp, tc) then NearQuota(b[tc], r, weights[tc], total) else b[tc] == 0)
    && (forall i: nat, k: nat :: i < 8 && k < 8 && IsClass(dscp, i) && IsClass(dscp, k) && weights[i] > weights[k] ==>
          b[i] >= b[k])
    && LargestFirst(b, weights, dscp, r, total)
  }

  /** This class got more than its reserved percent and the whole part of its quota. */
  predicate Lucky(b: seq<nat>, weights: seq<nat>, r: nat, total: nat, tc: nat)
    requires |b| == |weights| == 8 && total > 0 && tc < 8
  {
    b[tc] > 1 + Share(r, weights[tc], total)
  }

  /** Nobody gets the extra percent ahead of a class with a larger remainder, or an equal one and a lower number. */
  ghost predicate LargestFirst(b: seq<nat>, weights: seq<nat>, dscp: bool, r: nat, total: nat)
    requires |b| == |weights| == 8
  {
    && total > 0
    && forall i: nat, k: nat ::
         (i < 8 && k < 8 && IsClass(dscp, i) && IsClass(dscp, k) && i != k
          && Before(Rests(r, weights, total), i, k) && Lucky(b, weights, r, total, k)) ==> Lucky(b, weights, r, total, i)
  }

  /**
   * dcbx_policy: the percentages are 100 in all, at least one on each class and
   * none elsewhere, each less than one percent off its exact quota, a larger
   * weight never gets less, and the leftover goes to the largest remainders.
   */
  method Policy(weights: seq<nat>, dscp: bool) returns (bandwidth: array<nat>)
    requires |weights| == 8 && forall w <- weights :: w > 0
    ensures fresh(bandwidth) && bandwidth.Length == 8
    ensures var classes := ClassesTo(dscp, 8);
            Fair(bandwidth[..], weights, dscp, 100 - |classes|, SumOf(weights, classes))
  {
    hide ClassesTo, SumOf, SumTo, Share, Rest, Ordered, Distinct, Fair, Reserved;
    var classes := ClassesTo(dscp, 8);
    assert 0 in classes;
    var total := SumOf(weights, classes);
    var remaining := 100 - |classes|;
    TotalIsPositive(weights, classes);
    bandwidth := Reserve(weights, dscp, remaining, total);
    var rest := Rests(remaining, weights, total);
    ClassesAreDistinct(dscp, 8);
    var order := Sort(rest, classes);
    ghost var base := bandwidth[..];
    LeftoverIs(base, weights, dscp, remaining, total);
    var sum := Total(bandwidth);
    Bump(bandwidth, order, 100 - sum);
    SharesAreFair(base, bandwidth[..], weights, dscp, remaining, total, order, 100 - sum);
  }

  /** One more percent for the first of the order. */
  method Bump(b: array<nat>, order: seq<nat>, left: nat)
    requires b.Length == 8 && InRange(order, 8) && Distinct(order) && left <= |order|
    modifies b
    ensures forall tc: nat :: tc < 8 ==> b[tc] == old(b[tc]) + if tc in order[..left] then 1 else 0
    ensures SumTo(b[..], 8) == SumTo(old(b[..]), 8) + left
  {
    for i := 0 to left
      invariant forall tc: nat :: tc < 8 ==> b[tc] == old(b[tc]) + if tc in order[..i] then 1 else 0
      invariant SumTo(b[..], 8) == SumTo(old(b[..]), 8) + i
    {
      var tc := order[i];
      assert order[..i + 1] == order[..i] + [tc] && tc !in order[..i];
      SumBumped(b[..], tc, 8);
      ghost var bumped := b[..][tc := b[tc] + 1];
      b[tc] := b[tc] + 1;
      assert b[..] == bumped;
    }
  }

  method Total(b: array<nat>) returns (sum: nat)
    requires b.Length == 8
    ensures sum == SumTo(b[..], 8)
  {
    sum := 0;
    for i := 0 to 8
      invariant sum == SumTo(b[..], i)
    {
      sum := sum + b[i];
    }
  }

  lemma TotalIsPositive(weights: seq<nat>, s: seq<nat>)
    requires s != [] && InRange(s, |weights|) && forall w <- weights :: w > 0
    ensures SumOf(weights, s) > 0
  {
    assert weights[s[0]] in weights;
  }

  /** One percent and the whole part of the quota for each class. */
  ghost predicate Reserved(b: seq<nat>, weights: seq<nat>, dscp: bool, r: nat, total: nat)
    requires |b| == |weights| == 8 && total > 0
  {
    forall tc: nat :: tc < 8 ==> b[tc] == if IsClass(dscp, tc) then 1 + Share(r, weights[tc], total) else 0
  }

  method Reserve(weights: seq<nat>, dscp: bool, r: nat, total: nat) returns (b: array<nat>)
    requires |weights| == 8 && total > 0
    ensures fresh(b) && b.Length == 8 && Reserved(b[..], weights, dscp, r, total)
  {
    b := new nat[8](i => 0);
    for tc := 0 to 8
      invariant forall k: nat :: k < 8 ==>
                  b[k] == if k < tc && IsClass(dscp, k) then 1 + Share(r, weights[k], total) else 0
    {
      if IsClass(dscp, tc) {
        b[tc] := 1 + r * weights[tc] / total;
      }
    }
  }

  /** What the whole parts leave of the hundred is what the remainders add up to. */
  lemma LeftoverIs(b: seq<nat>, weights: seq<nat>, dscp: bool, r: nat, total: nat)
    requires |b| == |weights| == 8 && total > 0
    requires total == SumOf(weights, ClassesTo(dscp, 8)) && r == 100 - |ClassesTo(dscp, 8)|
    requires Reserved(b, weights, dscp, r, total)
    ensures var classes := ClassesTo(dscp, 8);
            var left := 100 - SumTo(b, 8);
            0 <= left < |classes| && total * left == SumOf(Rests(r, weights, total), classes)
  {
    hide SumOf, SumTo, Share, Rest, Rests;
    var classes := ClassesTo(dscp, 8);
    assert 0 in classes;
    SumIsOverClasses(b, dscp, 8);
    OnePlus(b, Shares(r, weights, total), classes);
    LeftoverFits(r, weights, total, classes);
  }

  lemma {:induction false} OnePlus(b: seq<nat>, f: seq<nat>, s: seq<nat>)
    requires |b| == |f| && InRange(s, |b|) && forall i :: 0 <= i < |s| ==> b[s[i]] == 1 + f[s[i]]
    ensures SumOf(b, s) == |s| + SumOf(f, s)
  {
    if s != [] {
      OnePlus(b, f, s[1..]);
    }
  }

  /** Everything known once the leftover has been handed out. */
  ghost predicate HandedOut(base: seq<nat>, b: seq<nat>, weights: seq<nat>, dscp: bool, r: nat, total: nat,
                            order: seq<nat>, left: nat)
  {
    && |base| == |b| == |weights| == 8 && total > 0 && r > 0
    && Reserved(base, weights, dscp, r, total)
    && (forall tc: nat :: tc in order <==> tc < 8 && IsClass(dscp, tc))
    && left <= |order| && InRange(order, 8) && Ordered(Rests(r, weights, total), order)
    && SumOf(Rests(r, weights, total), order) == total * left
    && (forall tc: nat :: tc < 8 ==> b[tc] == base[tc] + if tc in order[..left] then 1 else 0)
  }

  lemma ShareIsNear(base: seq<nat>, b: seq<nat>, weights: seq<nat>, dscp: bool, r: nat, total: nat,
                    order: seq<nat>, left: nat, tc: nat)
    requires HandedOut(base, b, weights, dscp, r, total, order, left) && tc < 8
    ensures if IsClass(dscp, tc) then NearQuota(b[tc], r, weights[tc], total) else b[tc] == 0
  {
    if tc in order[..left] {
      var i :| 0 <= i < left && order[i] == tc;
      LuckyOnesFellShort(Rests(r, weights, total), order, left, total, i);
      assert tc in order;
    }
    if IsClass(dscp, tc) {
      QuotaIsNear(r, weights[tc], total, b[tc] - base[tc]);
    }
  }

  lemma ShareFollowsWeight(base: seq<nat>, b: seq<nat>, weights: seq<nat>, dscp: bool, r: nat, total: nat,
                           order: seq<nat>, left: nat, i: nat, k: nat)
    requires HandedOut(base, b, weights, dscp, r, total, order, left) && i < 8 && k < 8
    requires IsClass(dscp, i) && IsClass(dscp, k) && weights[i] > weights[k]
    ensures b[i] >= b[k]
  {
    hide Share, Rest, Ordered, SumOf;
    WeightsRankShares(r, weights[i], weights[k], total);
    var rest := Rests(r, weights, total);
    assert rest[i] == Rest(r, weights[i], total) && rest[k] == Rest(r, weights[k], total);
    if k in order[..left] && rest[i] > rest[k] {
      EarlierIsLucky(rest, order, left, i, k);
    }
  }

  lemma ExtrasGoInOrder(base: seq<nat>, b: seq<nat>, weights: seq<nat>, dscp: bool, r: nat, total: nat,
                        order: seq<nat>, left: nat)
    requires HandedOut(base, b, weights, dscp, r, total, order, left)
    ensures LargestFirst(b, weights, dscp, r, total)
  {
    hide Share, Rest, SumOf, Before;
    var rest := Rests(r, weights, total);
    forall i: nat, k: nat | i < 8 && k < 8 && IsClass(dscp, i) && IsClass(dscp, k) && i != k
                            && Before(rest, i, k) && Lucky(b, weights, r, total, k)
      ensures Lucky(b, weights, r, total, i)
    {
      EarlierIsLucky(rest, order, left, i, k);
    }
  }

  lemma SharesAreFair(base: seq<nat>, b: seq<nat>, weights: seq<nat>, dscp: bool, r: nat, total: nat,
                      order: seq<nat>, left: nat)
    requires HandedOut(base, b, weights, dscp, r, total, order, left) && SumTo(b, 8) == 100
    ensures Fair(b, weights, dscp, r, total)
  {
    forall tc: nat | tc < 8
      ensures if IsClass(dscp, tc) then NearQuota(b[tc], r, weights[tc], total) else b[tc] == 0
    {
      ShareIsNear(base, b, weights, dscp, r, total, order, left, tc);
    }
    forall i: nat, k: nat | i < 8 && k < 8 && IsClass(dscp, i) && IsClass(dscp, k) && weights[i] > weights[k]
      ensures b[i] >= b[k]
    {
      ShareFollowsWeight(base, b, weights, dscp, r, total, order, left, i, k);
    }
    ExtrasGoInOrder(base, b, weights, dscp, r, total, order, left);
  }

  lemma EarlierIsLucky(rest: seq<nat>, order: seq<nat>, left: nat, i: nat, k: nat)
    requires InRange(order, |rest|) && Ordered(rest, order) && left <= |order|
    requires i in order && k in order[..left] && i != k && Before(rest, i, k)
    ensures i in order[..left]
  {
    var x :| 0 <= x < |order| && order[x] == i;
    var y :| 0 <= y < left && order[y] == k;
    BeforeComesFirst(rest, order, x, y);
    assert order[..left][x] == i;
  }

  lemma BeforeComesFirst(rest: seq<nat>, order: seq<nat>, x: nat, y: nat)
    requires InRange(order, |rest|) && Ordered(rest, order) && x < |order| && y < |order|
    requires order[x] != order[y] && Before(rest, order[x], order[y])
    ensures x < y
  {
  }
}
