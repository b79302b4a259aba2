/**
 * Serving virtual functions: which of them are reset, and in what order their
 * mailboxes are processed when the shared one keeps filling up.
 */
module IovService {
  import opened Bits

  const W64 := 0x1_0000_0000_0000_0000

  // ----- the reset scan --------------------------------------------------

  lemma PowersAre()
    ensures Pow2(63) == 0x8000_0000_0000_0000 && Pow2(64) == W64
  {
    assert Pow2(16) == 0x1_0000;
    PowersMultiply(16, 16);
    PowersMultiply(32, 16);
    PowersMultiply(48, 15);
    assert Pow2(15) == 0x8000;
    assert Pow2(64) == 2 * Pow2(63);
  }

  /** The top bit is the sign of the word. */
  lemma {:induction false} TopBit(x: nat, n: nat)
    requires x < Pow2(n + 1)
    ensures Bit(x, n) <==> x >= Pow2(n)
  {
    if n > 0 {
      TopBit(x / 2, n - 1);
    }
  }

  /** v += v: every bit one up, the top one lost. */
  function Doubled(v: nat): nat { 2 * v % W64 }

  lemma DoublingShifts(v: nat, j: nat)
    requires v < W64 && j < 64
    ensures Bit(Doubled(v), j) <==> j > 0 && Bit(v, j - 1)
  {
    PowersAre();
    var q, e := 2 * v / W64, Doubled(v);
    assert 2 * v == Pow2(64) * q + e;
    LowBits(q, e, 64, j);
    assert Bit(2 * v, j) <==> j > 0 && Bit(v, j - 1);
  }

  /** The flags not looked at yet sit at the top: flag i - 1 is the sign bit. */
  ghost predicate Remaining(flags: nat, v: nat, i: nat) {
    && i <= 64 && v < W64
    && forall j: nat :: j < 64 ==> (Bit(v, j) <==> j >= 64 - i && Bit(flags, j - (64 - i)))
  }

  method ShiftUp(flags: nat, n: nat) returns (v: nat)
    requires flags < W64 && 1 <= n <= 64
    ensures Remaining(flags, v, n)
  {
    v := flags;
    for k := 0 to 64 - n
      invariant Remaining(flags, v, 64 - k)
    {
      v := Step(flags, v, 64 - k);
    }
  }

  method Step(ghost flags: nat, v: nat, ghost i: nat) returns (w: nat)
    requires Remaining(flags, v, i) && 0 < i
    ensures w == Doubled(v) && Remaining(flags, w, i - 1)
  {
    w := Doubled(v);
    forall j: nat | j < 64
      ensures Bit(w, j) <==> j >= 64 - (i - 1) && Bit(flags, j - (64 - (i - 1)))
    {
      DoublingShifts(v, j);
    }
  }

  predicate Descending(s: seq<nat>) {
    forall a, b :: 0 <= a < b < |s| ==> s[a] > s[b]
  }

  /** fm10k_iov_event: exactly the functions whose flag is set are reset, each once, highest first. */
  method ResetScan(flags: nat, numVfs: nat) returns (resets: seq<nat>)
    requires flags < W64 && 1 <= numVfs <= 64
    ensures forall vf: nat :: vf in resets <==> vf < numVfs && Bit(flags, vf)
    ensures Descending(resets)
  {
    resets := [];
    var v := ShiftUp(flags, numVfs);
    var i := numVfs;
    while v != 0 && i != 0
      invariant Remaining(flags, v, i) && i <= numVfs
      invariant forall vf: nat :: vf in resets <==> i <= vf < numVfs && Bit(flags, vf)
      invariant Descending(resets) && forall a :: 0 <= a < |resets| ==> resets[a] >= i
      decreases i
    {
      PowersAre();
      TopBit(v, 63);
      i := i - 1;
      if v >= 0x8000_0000_0000_0000 {
        resets := resets + [i];
      }
      v := Step(flags, v, i + 1);
    }
    if v == 0 {
      forall vf: nat | vf < i
        ensures !Bit(flags, vf)
      {
        ZeroBits(vf + (64 - i));
        assert Bit(v, vf + (64 - i)) <==> Bit(flags, vf);
      }
    }
  }

  // ----- the mailbox round robin -----------------------------------------

  /** The k-th mailbox of the endless descending cycle. */
  function Turn(n: nat, k: nat): nat
    requires n > 0
  {
    n - 1 - k % n
  }

  lemma NextTurn(n: nat, k: nat)
    requires n > 0
    ensures Turn(n, k + 1) == if Turn(n, k) == 0 then n - 1 else Turn(n, k) - 1
  {
    var q, r := k / n, k % n;
    assert k + 1 == n * q + (r + 1);
    if r + 1 == n {
      assert k + 1 == n * (q + 1) + 0;
      Residue(k + 1, n, q + 1, 0);
    } else {
      Residue(k + 1, n, q, r + 1);
    }
  }

  lemma Residue(x: nat, n: nat, q: nat, r: nat)
    requires n > 0 && x == n * q + r && r < n
    ensures x % n == r
  {
    var p, s := x / n, x % n;
    assert x == n * p + s;
    assert n * (p - q) == r - s;
    SmallMultiple(n, p - q);
  }

  lemma SmallMultiple(n: nat, d: int)
    requires n * d < n && 0 < n * d + n
    ensures d == 0
  {
    assert n * -d == -(n * d);
    if d > 0 {
      AtLeastOnce(n, d);
    } else if d < 0 {
      AtLeastOnce(n, -d);
    }
  }

  lemma AtLeastOnce(n: nat, d: int)
    requires d >= 1
    ensures n * d >= n
  {
    assert n * (d - 1) >= 0;
  }

  /** Room for n functions, one after the other. */
  function Asked(n: nat): seq<bool> {
    seq(n, k => false)
  }

  class Mailboxes {
    const numVfs: nat
    var nextVfMbx: nat       // one more than the function to start with, or 0 for the last
    ghost var processed: seq<nat>
    ghost var fills: seq<bool>  // every answer to whether the shared mailbox is full

    /** Everything processed so far is the cycle, and the next start continues it. */
    ghost predicate Valid()
      reads this
    {
      && nextVfMbx <= numVfs
      && (numVfs == 0 ==> processed == [])
      && (numVfs > 0 ==>
            && (forall k: nat :: k < |processed| ==> processed[k] == Turn(numVfs, k))
            && Turn(numVfs, |processed|) == Start() - 1)
    }

    function Start(): nat
      reads this
    {
      if nextVfMbx != 0 then nextVfMbx else numVfs
    }

    constructor (numVfs: nat)
      ensures Valid() && this.numVfs == numVfs && processed == []
    {
      this.numVfs := numVfs;
      nextVfMbx, processed, fills := 0, [], [];
    }

    /** Is there no room left in the shared mailbox? */
    method Full() returns (full: bool)
      modifies `fills
      ensures fills == old(fills) + [full]
    {
      full := *;
      fills := fills + [full];
    }

    /** One descending pass from `start`; stopped where the shared mailbox is full. */
    method Pass(start: nat) returns (i: int)
      requires numVfs > 0 ==> forall k: nat :: k < |processed| ==> processed[k] == Turn(numVfs, k)
      requires numVfs > 0 ==> 0 < start && Turn(numVfs, |processed|) == start - 1
      requires start <= numVfs && (numVfs == 0 ==> processed == [])
      modifies `processed, `fills
      ensures -1 <= i < start
      ensures fills == old(fills) + Asked(start - 1 - i) + (if i >= 0 then [true] else [])
      ensures old(processed) <= processed && |processed| == |old(processed)| + (start - 1 - i)
      ensures numVfs == 0 ==> processed == []
      ensures numVfs > 0 ==>
                && (forall k: nat :: k < |processed| ==> processed[k] == Turn(numVfs, k))
                && Turn(numVfs, |processed|) == if i >= 0 then i else numVfs - 1
    {
      i := start - 1;
      while i >= 0
        invariant -1 <= i < start && fills == old(fills) + Asked(start - 1 - i)
        invariant old(processed) <= processed && |processed| == |old(processed)| + (start - 1 - i)
        invariant numVfs == 0 ==> processed == []
        invariant numVfs > 0 ==>
                    && (forall k: nat :: k < |processed| ==> processed[k] == Turn(numVfs, k))
                    && Turn(numVfs, |processed|) == if i >= 0 then i else numVfs - 1
      {
        var full := Full();
        if full {
          break;
        }
        NextTurn(numVfs, |processed|);
        processed := processed + [i];
        i := i - 1;
      }
    }

    /**
     * fm10k_iov_mbx.  However often the shared mailbox is full, the functions
     * are served in the one descending cycle; a call makes at most two passes.
     */
    method Serve() returns (passes: nat)
      requires Valid()
      modifies this
      ensures Valid() && old(processed) <= processed
      ensures 1 <= passes <= 2 && (old(nextVfMbx) == 0 ==> passes == 1)
      ensures |processed| <= |old(processed)| + old(nextVfMbx) + numVfs
      ensures nextVfMbx == 0 ==> |processed| >= |old(processed)| + numVfs
      ensures passes == if 0 < old(nextVfMbx) <= |processed| - |old(processed)| then 2 else 1
      ensures fills == old(fills) + Asked(|processed| - |old(processed)|) + (if nextVfMbx != 0 then [true] else [])
    {
      var i := Pass(Start());
      passes := 1;
      if i >= 0 {
        nextVfMbx := i + 1;
      } else if nextVfMbx != 0 {
        nextVfMbx := 0;
        i := Pass(Start());
        passes := 2;
        if i >= 0 {
          nextVfMbx := i + 1;
        }
      }
    }
  }

  /** No function is starved: any n turns in a row serve every one of the n. */
  lemma EveryoneGetsATurn(n: nat, from: nat, vf: nat) returns (k: nat)
    requires vf < n
    ensures from <= k < from + n && Turn(n, k) == vf
  {
    var want, r, q := n - 1 - vf, from % n, from / n;
    assert from == n * q + r;
    if want >= r {
      k := from + (want - r);
      Residue(k, n, q, want);
    } else {
      k := from + (want + n - r);
      assert k == n * (q + 1) + want;
      Residue(k, n, q + 1, want);
    }
  }
}
