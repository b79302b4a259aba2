/**
 * The one's-complement checksum of RFC 1071: 16-bit words, big-endian, an odd
 * byte padded with zero, carries folded back in.
 */
module InternetChecksum {
  import opened Common

  /** A value in two bytes. */
  type Half = h: int | 0 <= h < 0x1_0000

  function Put16(v: Half): seq<Byte> {
    [v / 0x100, v % 0x100]
  }

  function Be16(s: seq<Byte>, i: nat): Half
    requires i + 1 < |s|
  {
    (s[i] as int) * 0x100 + (s[i + 1] as int)
  }

  function Sum16(s: seq<Byte>): nat {
    if s == [] then 0
    else if |s| == 1 then (s[0] as int) * 0x100
    else Be16(s, 0) + Sum16(s[2..])
  }

  /** Carries folded back until none is left. */
  function Folded(total: nat): Half
    decreases total
  {
    if total / 0x1_0000 == 0 then total else Folded(total % 0x1_0000 + total / 0x1_0000)
  }

  /** What folding means: the residue modulo 65535, with zero only for zero. */
  lemma {:induction false} FoldingIsResidue(total: nat)
    ensures Folded(total) == if total == 0 then 0 else (total - 1) % 65535 + 1
    decreases total
  {
    if total / 0x1_0000 != 0 {
      var next := total % 0x1_0000 + total / 0x1_0000;
      FoldingIsResidue(next);
      assert total - 1 == (next - 1) + (total / 0x1_0000) * 65535;
      SameResidue(total - 1, next - 1, total / 0x1_0000);
    }
  }

  lemma SameResidue(x: int, y: int, k: int)
    requires x == y + k * 65535
    ensures x % 65535 == y % 65535
  {
    assert x == (y / 65535 + k) * 65535 + y % 65535;
  }

  function Checksum(s: seq<Byte>): Half {
    65535 - Folded(Sum16(s))
  }

  /** The checksum loops as all three tools run them. */
  method Compute(data: seq<Byte>) returns (c: Half)
    ensures c == Checksum(data)
  {
    var padded := data;
    if |data| % 2 != 0 {
      padded := data + [0];
      PaddingIsZero(data);
    }
    var total := SumWords(padded);
    total := Fold(total);
    c := 65535 - total;
  }

  method SumWords(s: seq<Byte>) returns (total: nat)
    requires |s| % 2 == 0
    ensures total == Sum16(s)
  {
    total := 0;
    var i := 0;
    while i < |s|
      invariant i <= |s| && i % 2 == 0
      invariant total + Sum16(s[i..]) == Sum16(s)
    {
      assert s[i..][2..] == s[i + 2..] && Be16(s[i..], 0) == Be16(s, i);
      total := total + Be16(s, i);
      i := i + 2;
    }
  }

  method Fold(sum: nat) returns (total: Half)
    ensures total == Folded(sum)
  {
    var t := sum;
    while t / 0x1_0000 != 0
      invariant Folded(t) == Folded(sum)
      decreases t
    {
      t := t % 0x1_0000 + t / 0x1_0000;
    }
    total := t;
  }

  lemma {:induction false} PaddingIsZero(s: seq<Byte>)
    requires |s| % 2 == 1
    ensures Sum16(s + [0]) == Sum16(s)
  {
    if |s| > 1 {
      assert (s + [0])[2..] == s[2..] + [0];
      PaddingIsZero(s[2..]);
    } else {
      assert (s + [0])[2..] == [];
    }
  }

  /** A receiver's test. */
  predicate Verifies(s: seq<Byte>) {
    Checksum(s) == 0
  }

  lemma VerifiesIffMultiple(s: seq<Byte>)
    ensures Verifies(s) <==> Sum16(s) > 0 && Sum16(s) % 65535 == 0
  {
    FoldingIsResidue(Sum16(s));
    var n := Sum16(s);
    if n > 0 {
      var q, r := (n - 1) / 65535, (n - 1) % 65535;
      assert n == q * 65535 + (r + 1);
      if r + 1 == 65535 {
        assert n == (q + 1) * 65535 + 0;
        SameResidue(n, 0, q + 1);
      } else {
        SameResidue(n, r + 1, q);
      }
    }
  }

  // ----- sums of parts ---------------------------------------------------

  lemma {:induction false} SumSplits(a: seq<Byte>, b: seq<Byte>)
    requires |a| % 2 == 0
    ensures Sum16(a + b) == Sum16(a) + Sum16(b)
  {
    if a == [] {
      assert a + b == b;
    } else {
      assert (a + b)[2..] == a[2..] + b;
      SumSplits(a[2..], b);
    }
  }

  /** `s` with two bytes at i replaced. */
  function With16(s: seq<Byte>, i: nat, v: Half): seq<Byte>
    requires i + 1 < |s|
  {
    s[i := v / 0x100][i + 1 := v % 0x100]
  }

  lemma SumOfField(s: seq<Byte>, i: nat, v: Half)
    requires i + 1 < |s| && i % 2 == 0
    ensures Sum16(With16(s, i, v)) == Sum16(s) - Be16(s, i) + v
  {
    hide Sum16;
    var t := With16(s, i, v);
    assert s == s[..i] + ([s[i], s[i + 1]] + s[i + 2..]);
    assert t == s[..i] + (Put16(v) + s[i + 2..]);
    SumSplits(s[..i], [s[i], s[i + 1]] + s[i + 2..]);
    SumSplits(s[..i], Put16(v) + s[i + 2..]);
    SumSplits([s[i], s[i + 1]], s[i + 2..]);
    SumSplits(Put16(v), s[i + 2..]);
    PairSum(s[i], s[i + 1]);
    PairSum(v / 0x100, v % 0x100);
  }

  lemma PairSum(a: Byte, b: Byte)
    ensures Sum16([a, b]) == a * 0x100 + b
  {
    assert [a, b][2..] == [];
  }

  /** Data whose checksum field was zero verify once the checksum is put there, also as 0xFFFF for zero. */
  lemma FilledInVerifies(s: seq<Byte>, i: nat, v: Half)
    requires i + 1 < |s| && i % 2 == 0 && Be16(s, i) == 0
    requires v == Checksum(s) || (v == 65535 && Checksum(s) == 0)
    ensures Verifies(With16(s, i, v))
  {
    SumOfField(s, i, v);
    FoldingIsResidue(Sum16(s));
    VerifiesIffMultiple(With16(s, i, v));
    var n := Sum16(s);
    if n > 0 {
      var q, r := (n - 1) / 65535, (n - 1) % 65535;
      var sum := n + v;
      assert sum == (q + 1) * 65535 || sum == (q + 2) * 65535 by {
        assert n == q * 65535 + (r + 1);
      }
      SameResidue(sum, 0, if sum == (q + 1) * 65535 then q + 1 else q + 2);
    }
  }
}
