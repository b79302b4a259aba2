/** The opening of a finished eye: how far it stays clean from the centre, each way. */
module EyeMetrics {

  /** The error ratio is at most one in ten thousand. */
  predicate Clean(errors: nat, bits: nat) {
    errors * 10000 <= bits
  }

  /** The largest clean count is a ten-thousandth of the bits, rounded down. */
  lemma CleanLimit(errors: nat, bits: nat)
    ensures Clean(errors, bits) <==> errors <= bits / 10000
    ensures Clean(100, 1000000) && !Clean(101, 1000000)
  {
  }

  /** A stretch of the line through the centre, clean throughout. */
  ghost predicate Stretch(line: seq<nat>, bits: nat, centre: nat, low: nat, high: nat) {
    low <= centre <= high < |line| && forall i :: low <= i <= high ==> Clean(line[i], bits)
  }

  /** The longest one: it contains every other. */
  ghost predicate Opening(line: seq<nat>, bits: nat, centre: nat, low: nat, high: nat) {
    && Stretch(line, bits, centre, low, high)
    && forall a: nat, b: nat :: Stretch(line, bits, centre, a, b) ==> low <= a && b <= high
  }

  /** A stretch that cannot grow at either end is the longest. */
  lemma EdgesAreEnough(line: seq<nat>, bits: nat, centre: nat, low: nat, high: nat)
    requires Stretch(line, bits, centre, low, high)
    requires low > 0 ==> !Clean(line[low - 1], bits)
    requires high + 1 < |line| ==> !Clean(line[high + 1], bits)
    ensures Opening(line, bits, centre, low, high)
  {
  }

  /** Outwards from the centre, one sample at a time, in both directions. */
  method Measure(line: seq<nat>, bits: nat, centre: nat) returns (low: nat, high: nat)
    requires centre < |line| && Clean(line[centre], bits)
    ensures Opening(line, bits, centre, low, high)
  {
    low, high := centre, centre;
    while low > 0 && Clean(line[low - 1], bits)
      invariant Stretch(line, bits, centre, low, centre)
    {
      low := low - 1;
    }
    while high + 1 < |line| && Clean(line[high + 1], bits)
      invariant Stretch(line, bits, centre, low, high)
    {
      high := high + 1;
    }
    EdgesAreEnough(line, bits, centre, low, high);
  }

  /** The column of samples at one threshold, across all phases. */
  function Across(data: seq<seq<nat>>, y: nat): seq<nat>
    requires forall x :: 0 <= x < |data| ==> y < |data[x]|
  {
    seq(|data|, x requires 0 <= x < |data| => data[x][y])
  }

  /** metrics: width along the phase axis and height along the threshold axis, through the centre sample. */
  method Metrics(data: seq<seq<nat>>, bits: nat, x: nat, y: nat)
    returns (open: bool, left: nat, right: nat, bottom: nat, top: nat)
    requires x < |data| && forall i :: 0 <= i < |data| ==> y < |data[i]|
    ensures open <==> Clean(data[x][y], bits)
    ensures open ==> Opening(Across(data, y), bits, x, left, right) && Opening(data[x], bits, y, bottom, top)
  {
    left, right, bottom, top := x, x, y, y;
    open := Clean(data[x][y], bits);
    if open {
      left, right := Measure(Across(data, y), bits, x);
      bottom, top := Measure(data[x], bits, y);
    }
  }
}
