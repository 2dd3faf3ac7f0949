/**
  The stereo correlation of calculateCorrelationSequential and
  calculateCorrelationParallel (src/phase-meter-widget.cpp), with samples as
  exact reals. The three running sums (dot product and the two channel
  energies) are modelled exactly; the final float division by
  sqrt(leftEnergy * rightEnergy) is kept symbolic in the constructor Ratio.
*/
module Correlation {
  import opened Wrappers

  /** Below this many samples the sequential path is taken. */
  const ParallelThreshold: nat := 4
  /** Samples per worker used to size the fan-out (sampleCount / 128). */
  const SamplesPerThread: nat := 128

  /** Dot product of the two channels and the energy (sum of squares) of each. */
  datatype Sums = Sums(dot: real, leftEnergy: real, rightEnergy: real)

  /** A correlation value: a plain scalar, or dot / sqrt(leftEnergy * rightEnergy) computed in floating point. */
  datatype Coefficient = Scalar(value: real) | Ratio(dot: real, leftEnergy: real, rightEnergy: real)

  /** Why the as-written parallel path cannot produce a value. */
  datatype Fault = DivisionByZero

  const NoSums: Sums := Sums(0.0, 0.0, 0.0)

  function Plus(a: Sums, b: Sums): Sums
  {
    Sums(a.dot + b.dot, a.leftEnergy + b.leftEnergy, a.rightEnergy + b.rightEnergy)
  }

  /** The contribution of one sample pair. */
  function Term(l: real, r: real): Sums
  {
    Sums(l * r, l * l, r * r)
  }

  /** The three sums over the index range [lo, hi). */
  function RangeSums(left: seq<real>, right: seq<real>, lo: nat, hi: nat): Sums
    requires lo <= hi <= |left| && hi <= |right|
    decreases hi - lo
  {
    if lo == hi then NoSums
    else Plus(RangeSums(left, right, lo, hi - 1), Term(left[hi - 1], right[hi - 1]))
  }

  /** The final step of the parallel path: 0 unless both energies are positive. */
  function CoefficientOf(s: Sums): Coefficient
  {
    if s.leftEnergy > 0.0 && s.rightEnergy > 0.0 then Ratio(s.dot, s.leftEnergy, s.rightEnergy)
    else Scalar(0.0)
  }

  /** The correlation of the first n samples, in exact arithmetic. */
  function CorrelationOf(left: seq<real>, right: seq<real>, n: nat): Coefficient
    requires n <= |left| && n <= |right|
  {
    CoefficientOf(RangeSums(left, right, 0, n))
  }

  // ---------------------------------------------------------------------------
  // Properties of the sums

  /** Sums over adjacent ranges add up to the sum over their union. */
  lemma {:induction false} RangeSumsSplit(left: seq<real>, right: seq<real>, lo: nat, mid: nat, hi: nat)
    requires lo <= mid <= hi <= |left| && hi <= |right|
    ensures RangeSums(left, right, lo, hi) == Plus(RangeSums(left, right, lo, mid), RangeSums(left, right, mid, hi))
    decreases hi - mid
  {
    if mid < hi {
      RangeSumsSplit(left, right, lo, mid, hi - 1);
    }
  }

  /** Energies are never negative, and a silent channel (zero energy) makes the dot product zero. */
  lemma {:induction false} SilenceMeansZeroDot(left: seq<real>, right: seq<real>, lo: nat, hi: nat)
    requires lo <= hi <= |left| && hi <= |right|
    ensures var s := RangeSums(left, right, lo, hi);
      && s.leftEnergy >= 0.0 && s.rightEnergy >= 0.0
      && (s.leftEnergy == 0.0 || s.rightEnergy == 0.0 ==> s.dot == 0.0)
    decreases hi - lo
  {
    if lo < hi {
      SilenceMeansZeroDot(left, right, lo, hi - 1);
      var l, r := left[hi - 1], right[hi - 1];
      SquareFacts(l);
      SquareFacts(r);
      if l == 0.0 { assert l * r == 0.0; }
      if r == 0.0 { assert l * r == 0.0; }
    }
  }

  lemma SquareFacts(x: real)
    ensures x * x >= 0.0
    ensures x != 0.0 ==> x * x > 0.0
  {
    if x > 0.0 {
      PositiveProduct(x, x);
    } else if x < 0.0 {
      PositiveProduct(-x, -x);
      assert (-x) * (-x) == x * x;
    }
  }

  lemma PositiveProduct(a: real, b: real)
    requires a > 0.0 && b > 0.0
    ensures a * b > 0.0
  {
  }

  /** The correlation never divides by a zero energy: a Ratio always has two positive energies. */
  lemma CorrelationWellDefined(left: seq<real>, right: seq<real>, n: nat)
    requires n <= |left| && n <= |right|
    ensures var c := CorrelationOf(left, right, n);
      && (c.Ratio? ==> c.leftEnergy > 0.0 && c.rightEnergy > 0.0)
      && (c.Scalar? ==> c.value == 0.0)
      && ((forall i :: 0 <= i < n ==> left[i] == 0.0) ==> c == Scalar(0.0))
      && ((forall i :: 0 <= i < n ==> right[i] == 0.0) ==> c == Scalar(0.0))
  {
    if forall i :: 0 <= i < n ==> left[i] == 0.0 {
      AllZeroNoEnergy(left, right, n);
    }
    if forall i :: 0 <= i < n ==> right[i] == 0.0 {
      AllZeroRightNoEnergy(left, right, n);
    }
  }

  lemma {:induction false} AllZeroNoEnergy(left: seq<real>, right: seq<real>, n: nat)
    requires n <= |left| && n <= |right|
    requires forall i :: 0 <= i < n ==> left[i] == 0.0
    ensures RangeSums(left, right, 0, n).leftEnergy == 0.0
  {
    if n > 0 {
      AllZeroNoEnergy(left, right, n - 1);
    }
  }

  lemma {:induction false} AllZeroRightNoEnergy(left: seq<real>, right: seq<real>, n: nat)
    requires n <= |left| && n <= |right|
    requires forall i :: 0 <= i < n ==> right[i] == 0.0
    ensures RangeSums(left, right, 0, n).rightEnergy == 0.0
  {
    if n > 0 {
      AllZeroRightNoEnergy(left, right, n - 1);
    }
  }

  // ---------------------------------------------------------------------------
  // Sequential path

  /**
    calculateCorrelationSequential: one loop accumulating the three sums.
    When an energy is zero the source returns the raw dot product instead of 0;
    in exact arithmetic that value is always 0, so both paths agree (with
    single-precision floats an underflowing energy can leave it non-zero).
  */
  method CalculateCorrelationSequential(left: seq<real>, right: seq<real>, sampleCount: nat)
    returns (c: Coefficient)
    requires sampleCount <= |left| && sampleCount <= |right|
    ensures c == CorrelationOf(left, right, sampleCount)
  {
    var correlation, leftSum, rightSum := 0.0, 0.0, 0.0;
    var i := 0;
    while i < sampleCount
      invariant i <= sampleCount
      invariant Sums(correlation, leftSum, rightSum) == RangeSums(left, right, 0, i)
    {
      correlation := correlation + left[i] * right[i];
      leftSum := leftSum + left[i] * left[i];
      rightSum := rightSum + right[i] * right[i];
      i := i + 1;
    }
    if leftSum > 0.0 && rightSum > 0.0 {
      c := Ratio(correlation, leftSum, rightSum);
    } else {
      SilenceMeansZeroDot(left, right, 0, sampleCount);
      c := Scalar(correlation);
    }
  }

  // ---------------------------------------------------------------------------
  // Parallel path: the partition of [0, n) into chunks

  /** numThreads as written: min(n / 128, hardware_concurrency()), which is 0 for n < 128. */
  function ThreadCountAsWritten(n: nat, hw: nat): (k: nat)
    ensures k == 0 <==> n < SamplesPerThread || hw == 0
  {
    Min(n / SamplesPerThread, hw)
  }

  /** The as-written path faults (chunkSize = n / 0) for every 4 <= n < 128. */
  lemma AsWrittenDividesByZero(n: nat, hw: nat)
    requires ParallelThreshold <= n < SamplesPerThread
    ensures ThreadCountAsWritten(n, hw) == 0
  {
  }

  /** numThreads with the evident intent: at least one chunk. */
  function ThreadCount(n: nat, hw: nat): (k: nat)
    requires n >= ParallelThreshold
    ensures 1 <= k <= n
    ensures k == 1 || (k <= n / SamplesPerThread && k <= hw)
    ensures k == ThreadCountAsWritten(n, hw) || ThreadCountAsWritten(n, hw) == 0
  {
    Max(1, ThreadCountAsWritten(n, hw))
  }

  /**
    The chunk boundaries: chunk i is [b[i], b[i + 1]) with b[i] = i * chunkSize
    for i < k, chunkSize = n / k, and b[k] = n (the last chunk takes the remainder).
  */
  function Boundaries(n: nat, k: nat): (b: seq<nat>)
    requires 1 <= k
    ensures |b| == k + 1
  {
    seq(k + 1, i requires 0 <= i <= k => if i == k then n else i * (n / k))
  }

  /** b is non-decreasing. */
  predicate Ascending(b: seq<nat>)
  {
    forall i, j :: 0 <= i <= j < |b| ==> b[i] <= b[j]
  }

  /** The chunks tile [0, n): boundaries run from 0 to n, strictly increasing, so no chunk is empty. */
  lemma ChunksTile(n: nat, k: nat)
    requires 1 <= k <= n
    ensures var b := Boundaries(n, k);
      && b[0] == 0 && b[k] == n && Ascending(b)
      && forall i :: 0 <= i < k ==> b[i] < b[i + 1]
  {
    var b := Boundaries(n, k);
    var c := n / k;
    assert 1 <= c && k * c <= n;
    forall i | 0 <= i < k ensures b[i] < b[i + 1] {
      assert (i + 1) * c == i * c + c;
      if i + 1 < k {
        MulMonotone(i + 1, k, c);
      }
    }
    forall i, j | 0 <= i <= j < |b| ensures b[i] <= b[j] {
      if j < k {
        MulMonotone(i, j, c);
      } else {
        MulMonotone(i, k, c);
      }
    }
  }

  /** The per-chunk partial sums, in chunk order (the futures of the fan-out). */
  function Partials(left: seq<real>, right: seq<real>, n: nat, k: nat): (ps: seq<Sums>)
    requires 1 <= k <= n <= |left| && n <= |right|
    ensures |ps| == k
  {
    ChunksTile(n, k);
    var b := Boundaries(n, k);
    seq(k, i requires 0 <= i < k => RangeSums(left, right, b[i], b[i + 1]))
  }

  /** The fan-in: partial sums added in order. */
  function Total(ps: seq<Sums>): Sums
  {
    if ps == [] then NoSums else Plus(Total(ps[..|ps| - 1]), ps[|ps| - 1])
  }

  /** Partial sums over consecutive ranges add up to the sum over the whole span. */
  lemma {:induction false} TotalOfConsecutive(left: seq<real>, right: seq<real>, b: seq<nat>, ps: seq<Sums>)
    requires |b| == |ps| + 1 && Ascending(b) && b[|ps|] <= |left| && b[|ps|] <= |right|
    requires forall i :: 0 <= i < |ps| ==> ps[i] == RangeSums(left, right, b[i], b[i + 1])
    ensures Total(ps) == RangeSums(left, right, b[0], b[|ps|])
  {
    if ps != [] {
      var m := |ps| - 1;
      TotalOfConsecutive(left, right, b[..m + 1], ps[..m]);
      RangeSumsSplit(left, right, b[0], b[m], b[m + 1]);
    }
  }

  /** Chunk i spans [i * chunkSize, end), with end = n for the last chunk, inside [0, n]. */
  lemma ChunkBounds(n: nat, k: nat, i: nat)
    requires 1 <= k <= n && i < k
    ensures var b := Boundaries(n, k);
      && b[i] == i * (n / k) && b[i + 1] == (if i == k - 1 then n else (i + 1) * (n / k))
      && b[i] <= b[i + 1] <= n
  {
    var b := Boundaries(n, k);
    ChunksTile(n, k);
    assert b[i + 1] <= b[k];
  }

  /** One step of the fan-out: chunk i's partial extends the prefix of partials. */
  lemma PartialsStep(left: seq<real>, right: seq<real>, n: nat, k: nat, i: nat)
    requires 1 <= k <= n <= |left| && n <= |right| && i < k
    ensures var b := Boundaries(n, k);
      && b[i] == i * (n / k) && b[i + 1] == (if i == k - 1 then n else (i + 1) * (n / k))
      && b[i] <= b[i + 1] <= n
      && Partials(left, right, n, k)[..i] + [RangeSums(left, right, b[i], b[i + 1])]
         == Partials(left, right, n, k)[..i + 1]
  {
    ChunkBounds(n, k, i);
    var ps := Partials(left, right, n, k);
    assert ps[..i + 1] == ps[..i] + [ps[i]];
  }

  /** Chunking does not change the sums: the partials add up to the sums over [0, n). */
  lemma ChunkingPreservesSums(left: seq<real>, right: seq<real>, n: nat, k: nat)
    requires 1 <= k <= n <= |left| && n <= |right|
    ensures Total(Partials(left, right, n, k)) == RangeSums(left, right, 0, n)
  {
    ChunksTile(n, k);
    TotalOfConsecutive(left, right, Boundaries(n, k), Partials(left, right, n, k));
  }

  // ---------------------------------------------------------------------------
  // Parallel path as written and corrected

  /**
    calculateCorrelationParallel as written: below 4 samples the sequential
    path; otherwise numThreads may be 0 and the chunk size division faults.
  */
  function CorrelationAsWritten(left: seq<real>, right: seq<real>, n: nat, hw: nat): (r: Result<Coefficient, Fault>)
    requires n <= |left| && n <= |right|
    ensures r.Failure? <==> n >= ParallelThreshold && (n < SamplesPerThread || hw == 0)
    ensures r.Success? ==> r.value == CorrelationOf(left, right, n)
  {
    if n < ParallelThreshold then Success(CorrelationOf(left, right, n))
    else if ThreadCountAsWritten(n, hw) == 0 then Failure(DivisionByZero)
    else
      var k := ThreadCountAsWritten(n, hw);
      ChunkingPreservesSums(left, right, n, k);
      Success(CoefficientOf(Total(Partials(left, right, n, k))))
  }

  /**
    calculateCorrelationParallel with at least one chunk: fan out one partial
    sum per chunk, fan in by addition, then normalise. Equals the exact
    whole-range correlation whatever the number of chunks.
  */
  method CalculateCorrelationParallel(left: seq<real>, right: seq<real>, sampleCount: nat, hw: nat)
    returns (c: Coefficient)
    requires sampleCount <= |left| && sampleCount <= |right|
    ensures c == CorrelationOf(left, right, sampleCount)
  {
    if sampleCount < ParallelThreshold {
      c := CalculateCorrelationSequential(left, right, sampleCount);
      return;
    }
    var numThreads := ThreadCount(sampleCount, hw);
    var chunkSize := sampleCount / numThreads;
    var futures: seq<Sums> := [];
    var i := 0;
    while i < numThreads
      invariant i <= numThreads
      invariant futures == Partials(left, right, sampleCount, numThreads)[..i]
    {
      var start := i * chunkSize;
      var end := if i == numThreads - 1 then sampleCount else (i + 1) * chunkSize;
      PartialsStep(left, right, sampleCount, numThreads, i);
      futures := futures + [RangeSums(left, right, start, end)];
      i := i + 1;
    }
    var total := NoSums;
    var j := 0;
    while j < |futures|
      invariant j <= |futures|
      invariant total == Total(futures[..j])
    {
      assert futures[..j + 1][..j] == futures[..j];
      total := Plus(total, futures[j]);
      j := j + 1;
    }
    assert total == RangeSums(left, right, 0, sampleCount) by {
      assert futures[..j] == Partials(left, right, sampleCount, numThreads);
      ChunkingPreservesSums(left, right, sampleCount, numThreads);
    }
    if total.leftEnergy > 0.0 && total.rightEnergy > 0.0 {
      c := Ratio(total.dot, total.leftEnergy, total.rightEnergy);
    } else {
      c := Scalar(0.0);
    }
  }
}
