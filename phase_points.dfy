/**
  The sampling skeleton of calculatePhasePointsParallel
  (src/phase-meter-widget.cpp): which sample indices are visited and which of
  them emit a point. A point's screen position (atan2, cos, sin and the
  integer casts) is not modelled; each emitted point is identified by the
  sample index it comes from.
*/
module PhasePoints {
  import opened Wrappers

  /** maxPoints of the source; the stride is derived from it. */
  const MaxPoints: nat := 50
  /** magnitude > 0.01 with magnitude = sqrt(l*l + r*r), squared to stay in exact arithmetic. */
  const MinMagnitudeSquared: real := 0.0001

  /** step = max(1, sampleCount / maxPoints). */
  function Stride(n: nat): (step: nat)
    ensures step >= 1
    ensures n < MaxPoints ==> step == 1
    ensures n >= MaxPoints ==> step == n / MaxPoints
  {
    Max(1, n / MaxPoints)
  }

  /** A sample pair is drawn when its magnitude exceeds 0.01. */
  predicate Audible(l: real, r: real)
  {
    l * l + r * r > MinMagnitudeSquared
  }

  /** The indices from, from + step, from + 2 * step, ... that are below n. */
  function StrideIndices(n: nat, step: nat, from: nat): seq<nat>
    requires step >= 1
    decreases n - from
  {
    if from >= n then [] else [from] + StrideIndices(n, step, from + step)
  }

  /** The indices the source visits for sampleCount n. */
  function VisitedIndices(n: nat): seq<nat>
  {
    StrideIndices(n, Stride(n), 0)
  }

  /** The visited indices whose sample pair is audible, in visiting order. */
  function AudibleIndices(left: seq<real>, right: seq<real>, idx: seq<nat>): seq<nat>
    requires forall i :: 0 <= i < |idx| ==> idx[i] < |left| && idx[i] < |right|
  {
    if idx == [] then []
    else
      var last := idx[|idx| - 1];
      AudibleIndices(left, right, idx[..|idx| - 1]) + (if Audible(left[last], right[last]) then [last] else [])
  }

  /** The points emitted for the first n samples, identified by their sample index. */
  function PhasePointsOf(left: seq<real>, right: seq<real>, n: nat): seq<nat>
    requires n <= |left| && n <= |right|
  {
    VisitedIndicesBelow(n);
    AudibleIndices(left, right, VisitedIndices(n))
  }

  // ---------------------------------------------------------------------------
  // The visited indices

  /** Every index in the walk lies in [from, n). */
  lemma {:induction false} StrideIndicesInRange(n: nat, step: nat, from: nat)
    requires step >= 1
    ensures forall j :: 0 <= j < |StrideIndices(n, step, from)| ==> from <= StrideIndices(n, step, from)[j] < n
    decreases n - from
  {
    if from < n {
      StrideIndicesInRange(n, step, from + step);
    }
  }

  /** The j-th index of the walk is from + j * step. */
  lemma {:induction false} StrideIndexAt(n: nat, step: nat, from: nat, j: nat)
    requires step >= 1 && j < |StrideIndices(n, step, from)|
    ensures StrideIndices(n, step, from)[j] == from + j * step
    decreases j
  {
    if j > 0 {
      StrideIndexAt(n, step, from + step, j - 1);
      assert from + step + (j - 1) * step == from + j * step;
    }
  }

  /** The walk is empty exactly when from >= n; otherwise its last index is below n and one more step reaches n. */
  lemma {:induction false} StrideIndicesCount(n: nat, step: nat, from: nat)
    requires step >= 1
    ensures var c := |StrideIndices(n, step, from)|;
      && (c == 0 <==> from >= n)
      && (from < n ==> from + (c - 1) * step < n <= from + c * step)
    decreases n - from
  {
    if from < n {
      var c := |StrideIndices(n, step, from)|;
      StrideIndicesCount(n, step, from + step);
      assert from + step + (c - 1) * step == from + c * step;
      if from + step < n {
        assert from + step + (c - 2) * step == from + (c - 1) * step;
      }
    }
  }

  lemma VisitedIndicesBelow(n: nat)
    ensures forall j :: 0 <= j < |VisitedIndices(n)| ==> VisitedIndices(n)[j] < n
  {
    StrideIndicesInRange(n, Stride(n), 0);
  }

  /** An index is visited exactly when it is below n and a multiple of the stride. */
  lemma VisitedIndexMembership(n: nat, x: nat)
    ensures x in VisitedIndices(n) <==> x < n && x % Stride(n) == 0
  {
    if x in VisitedIndices(n) {
      VisitedIsMultiple(n, x);
    }
    if x < n && x % Stride(n) == 0 {
      MultipleIsVisited(n, x);
    }
  }

  lemma VisitedIsMultiple(n: nat, x: nat)
    requires x in VisitedIndices(n)
    ensures x < n && x % Stride(n) == 0
  {
    var step := Stride(n);
    var s := VisitedIndices(n);
    var j :| 0 <= j < |s| && s[j] == x;
    StrideIndicesInRange(n, step, 0);
    StrideIndexAt(n, step, 0, j);
    MulMod(j, step);
  }

  lemma MultipleIsVisited(n: nat, x: nat)
    requires x < n && x % Stride(n) == 0
    ensures x in VisitedIndices(n)
  {
    var step := Stride(n);
    var s := VisitedIndices(n);
    var j := x / step;
    assert x == j * step;
    StrideIndicesCount(n, step, 0);
    if j >= |s| {
      MulMonotone(|s|, j, step);
      assert false;
    }
    StrideIndexAt(n, step, 0, j);
  }

  lemma MulMod(j: nat, step: nat)
    requires step >= 1
    ensures (j * step) % step == 0
  {
    var q, r := (j * step) / step, (j * step) % step;
    assert j * step == q * step + r;
    if j > q {
      MulMonotone(1, j - q, step);
      assert false;
    } else if j < q {
      MulMonotone(1, q - j, step);
      assert false;
    }
  }

  /**
    How many indices are visited: all n of them below 50 samples, and between
    50 and 99 from 50 samples on, so the 50-point target is not a cap.
  */
  lemma VisitCount(n: nat)
    ensures n < MaxPoints ==> |VisitedIndices(n)| == n
    ensures n >= MaxPoints ==> MaxPoints <= |VisitedIndices(n)| <= 2 * MaxPoints - 1
  {
    var step := Stride(n);
    var c := |VisitedIndices(n)|;
    StrideIndicesCount(n, step, 0);
    if n >= MaxPoints {
      assert 50 * step <= n < 50 * step + 50;
      if c < 50 {
        MulMonotone(c, 49, step);
        assert false;
      }
      if c > 99 {
        MulMonotone(99, c - 1, step);
        assert false;
      }
    }
  }

  /** With 99 samples every index is visited, so 99 points may be emitted. */
  lemma NinetyNineSamplesVisitNinetyNine()
    ensures |VisitedIndices(99)| == 99
    ensures forall x :: 0 <= x < 99 ==> x in VisitedIndices(99)
  {
    forall x | 0 <= x < 99 ensures x in VisitedIndices(99) {
      VisitedIndexMembership(99, x);
    }
    VisitCount(99);
    assert Stride(99) == 1;
    StrideIndicesCount(99, Stride(99), 0);
  }

  // ---------------------------------------------------------------------------
  // The emitted points

  /** A point is emitted for exactly the audible visited indices; never more points than visited indices. */
  lemma {:induction false} AudibleIndicesSelects(left: seq<real>, right: seq<real>, idx: seq<nat>)
    requires forall i :: 0 <= i < |idx| ==> idx[i] < |left| && idx[i] < |right|
    ensures |AudibleIndices(left, right, idx)| <= |idx|
    ensures forall p: nat :: p in AudibleIndices(left, right, idx) <==>
      p in idx && p < |left| && p < |right| && Audible(left[p], right[p])
  {
    if idx != [] {
      AudibleIndicesSelects(left, right, idx[..|idx| - 1]);
      assert idx == idx[..|idx| - 1] + [idx[|idx| - 1]];
    }
  }

  /** Every emitted point comes from a visited index whose sample pair is audible, and vice versa. */
  lemma PhasePointsFromVisitedIndices(left: seq<real>, right: seq<real>, n: nat)
    requires n <= |left| && n <= |right|
    ensures |PhasePointsOf(left, right, n)| <= |VisitedIndices(n)|
    ensures forall p: nat :: p in PhasePointsOf(left, right, n) <==>
      p < n && p % Stride(n) == 0 && Audible(left[p], right[p])
  {
    VisitedIndicesBelow(n);
    AudibleIndicesSelects(left, right, VisitedIndices(n));
    forall p: nat ensures p in PhasePointsOf(left, right, n) <==>
      p < n && p % Stride(n) == 0 && Audible(left[p], right[p])
    {
      VisitedIndexMembership(n, p);
    }
  }

  // ---------------------------------------------------------------------------
  // The method

  /** The index-building loop of calculatePhasePointsParallel: 0, step, 2 * step, ... below sampleCount. */
  method CollectIndices(sampleCount: nat) returns (indices: seq<nat>)
    ensures indices == VisitedIndices(sampleCount)
  {
    var step := Max(1, sampleCount / MaxPoints);
    indices := [];
    var i: nat := 0;
    while i < sampleCount
      invariant indices + StrideIndices(sampleCount, step, i) == VisitedIndices(sampleCount)
      decreases sampleCount - i
    {
      assert StrideIndices(sampleCount, step, i) == [i] + StrideIndices(sampleCount, step, i + step);
      indices := indices + [i];
      i := i + step;
    }
  }

  /** The emitting pass: one point for each index whose sample pair is audible, in index order. */
  method EmitAudible(left: seq<real>, right: seq<real>, indices: seq<nat>) returns (points: seq<nat>)
    requires forall i :: 0 <= i < |indices| ==> indices[i] < |left| && indices[i] < |right|
    ensures points == AudibleIndices(left, right, indices)
  {
    points := [];
    var j := 0;
    while j < |indices|
      invariant j <= |indices|
      invariant points == AudibleIndices(left, right, indices[..j])
    {
      assert indices[..j + 1][..j] == indices[..j];
      var k := indices[j];
      if Audible(left[k], right[k]) {
        points := points + [k];
      }
      j := j + 1;
    }
    assert indices[..j] == indices;
  }

  /**
    calculatePhasePointsParallel: build the visited indices with a stride
    loop, then emit one point per audible index. The source emits from a
    parallel for_each, so its order is unspecified; this model emits in index order.
  */
  method CalculatePhasePoints(left: seq<real>, right: seq<real>, sampleCount: nat)
    returns (points: seq<nat>)
    requires sampleCount <= |left| && sampleCount <= |right|
    ensures points == PhasePointsOf(left, right, sampleCount)
  {
    var indices := CollectIndices(sampleCount);
    VisitedIndicesBelow(sampleCount);
    points := EmitAudible(left, right, indices);
  }
}
