/**
  The render path of the phase meter widget (src/phase-meter-widget.cpp):
  which sources drawAudioDataAsync copies out of the registry, and what
  processAudioSourceData computes for each copy.
*/
module Render {
  import opened Wrappers
  import opened AudioSources
  import Correlation
  import PhasePoints
  import SourceList

  /** In "All Sources" mode at most this many sources are drawn. */
  const MaxRenderedSources: nat := 3
  /** processAudioSourceData works on at most this many samples. */
  const MaxSamples: nat := 512

  /** A point-in-time copy of one source, taken for processing. */
  datatype RenderData = RenderData(name: string, color: Color, leftChannel: seq<real>, rightChannel: seq<real>)

  /**
    What processAudioSourceData returns: the source colour, the correlation,
    and the emitted phase points, each identified by its sample index.
  */
  datatype ProcessedAudioData = ProcessedAudioData(
    color: Color,
    correlation: Correlation.Coefficient,
    points: seq<nat>)

  function CopyOf(e: SourceState): RenderData
  {
    RenderData(e.name, e.color, e.leftChannel, e.rightChannel)
  }

  /** A source is drawn when it is enabled and both of its channels hold samples. */
  predicate Renderable(e: SourceState)
  {
    e.enabled && |e.leftChannel| > 0 && |e.rightChannel| > 0
  }

  // ---------------------------------------------------------------------------
  // Selection

  /** "All Sources": walk the list in order, copying renderable sources while fewer than cap are taken. */
  function SelectAll(es: seq<SourceState>, cap: nat): seq<RenderData>
  {
    if es == [] then []
    else if cap > 0 && Renderable(es[0]) then [CopyOf(es[0])] + SelectAll(es[1..], cap - 1)
    else SelectAll(es[1..], cap)
  }

  /** The selection for combo-box index k: 0 is "All Sources", k > 0 is source k - 1. */
  function RenderSelection(es: seq<SourceState>, k: int): seq<RenderData>
  {
    if k == 0 then SelectAll(es, MaxRenderedSources)
    else if 0 < k <= |es| && Renderable(es[k - 1]) then [CopyOf(es[k - 1])]
    else []
  }

  /** Reference definition: the copies of all renderable sources, in list order. */
  function RenderableCopies(es: seq<SourceState>): (r: seq<RenderData>)
  {
    if es == [] then []
    else (if Renderable(es[0]) then [CopyOf(es[0])] else []) + RenderableCopies(es[1..])
  }

  function Take<T>(s: seq<T>, cap: nat): (r: seq<T>)
    ensures |r| == Min(|s|, cap) && r == s[..|r|]
  {
    if |s| <= cap then s else s[..cap]
  }

  /** "All Sources" takes exactly the first cap renderable sources, in list order. */
  lemma {:induction false} SelectAllIsFirstRenderable(es: seq<SourceState>, cap: nat)
    ensures SelectAll(es, cap) == Take(RenderableCopies(es), cap)
  {
    if es != [] {
      var rest := RenderableCopies(es[1..]);
      if Renderable(es[0]) {
        if cap > 0 {
          SelectAllIsFirstRenderable(es[1..], cap - 1);
          assert RenderableCopies(es) == [CopyOf(es[0])] + rest;
          if |rest| + 1 > cap {
            assert ([CopyOf(es[0])] + rest)[..cap] == [CopyOf(es[0])] + rest[..cap - 1];
          }
        } else {
          SelectAllEmptyCap(es);
        }
      } else {
        SelectAllIsFirstRenderable(es[1..], cap);
      }
    }
  }

  /** One step of the "All Sources" walk, taken at position i of the list. */
  lemma SelectAllStep(es: seq<SourceState>, i: nat, cap: nat)
    requires i < |es|
    ensures SelectAll(es[i..], cap) ==
      if cap > 0 && Renderable(es[i]) then [CopyOf(es[i])] + SelectAll(es[i + 1..], cap - 1)
      else SelectAll(es[i + 1..], cap)
  {
    assert es[i..][1..] == es[i + 1..];
  }

  lemma {:induction false} SelectAllEmptyCap(es: seq<SourceState>)
    ensures SelectAll(es, 0) == []
  {
    if es != [] {
      SelectAllEmptyCap(es[1..]);
    }
  }

  /** Each copy comes from a renderable source of the list. */
  lemma {:induction false} RenderableCopiesFromList(es: seq<SourceState>)
    ensures |RenderableCopies(es)| <= |es|
    ensures forall d :: d in RenderableCopies(es) ==> exists e :: e in es && Renderable(e) && d == CopyOf(e)
    ensures forall e :: e in es && Renderable(e) ==> CopyOf(e) in RenderableCopies(es)
  {
    if es != [] {
      RenderableCopiesFromList(es[1..]);
      assert forall e :: e in es[1..] ==> e in es;
      assert forall e :: e in es ==> e == es[0] || e in es[1..];
    }
  }

  /**
    The render selection: at most 3 copies of renderable sources; with index 0
    exactly min(3, number renderable) of them, in list order; with index k > 0
    the copy of source k - 1 if it exists and is renderable, otherwise nothing.
  */
  lemma RenderSelectionSpec(es: seq<SourceState>, k: int)
    ensures |RenderSelection(es, k)| <= MaxRenderedSources
    ensures forall d :: d in RenderSelection(es, k) ==> exists e :: e in es && Renderable(e) && d == CopyOf(e)
    ensures k == 0 ==> |RenderSelection(es, k)| == Min(|RenderableCopies(es)|, MaxRenderedSources)
    ensures k == 0 ==> RenderSelection(es, k) == RenderableCopies(es)[..|RenderSelection(es, k)|]
    ensures k > 0 ==> (|RenderSelection(es, k)| == 1 <==> k <= |es| && Renderable(es[k - 1]))
    ensures 0 < k <= |es| && Renderable(es[k - 1]) ==> RenderSelection(es, k) == [CopyOf(es[k - 1])]
    ensures k > 0 && !(k <= |es| && Renderable(es[k - 1])) ==> RenderSelection(es, k) == []
    ensures k < 0 ==> RenderSelection(es, k) == []
  {
    SelectAllIsFirstRenderable(es, MaxRenderedSources);
    RenderableCopiesFromList(es);
    if k == 0 {
      var r := RenderSelection(es, k);
      assert forall d :: d in r ==> d in RenderableCopies(es);
    } else if 0 < k <= |es| && Renderable(es[k - 1]) {
      assert es[k - 1] in es;
    }
  }

  /** With five renderable sources, "All Sources" draws exactly the first three. */
  lemma FiveRenderableSourcesDrawThree(es: seq<SourceState>)
    requires |es| == 5 && forall i :: 0 <= i < 5 ==> Renderable(es[i])
    ensures RenderSelection(es, 0) == [CopyOf(es[0]), CopyOf(es[1]), CopyOf(es[2])]
  {
    var e1, e2, e3 := es[1..], es[2..], es[3..];
    assert e1[0] == es[1] && e1[1..] == e2;
    assert e2[0] == es[2] && e2[1..] == e3;
    SelectAllEmptyCap(e3);
    assert SelectAll(e2, 1) == [CopyOf(es[2])];
    assert SelectAll(e1, 2) == [CopyOf(es[1]), CopyOf(es[2])];
  }

  // ---------------------------------------------------------------------------
  // Per-source processing

  /** The working sample count: the left channel's length, at most 512. */
  function SampleCount(data: RenderData): nat
  {
    Min(|data.leftChannel|, MaxSamples)
  }

  /** The right channel holds at least as many samples as are read from the left one. */
  predicate Processable(data: RenderData)
  {
    SampleCount(data) <= |data.rightChannel|
  }

  /** What processing one copy yields, in exact arithmetic. */
  function ProcessedOf(data: RenderData): ProcessedAudioData
    requires Processable(data)
  {
    var n := SampleCount(data);
    if n == 0 then ProcessedAudioData(data.color, Correlation.Scalar(0.0), [])
    else ProcessedAudioData(
      data.color,
      Correlation.CorrelationOf(data.leftChannel, data.rightChannel, n),
      PhasePoints.PhasePointsOf(data.leftChannel, data.rightChannel, n))
  }

  /**
    processAudioSourceData keeps the colour, works on min(|left|, 512)
    samples, yields correlation 0 and no points when there are none, and every
    point comes from an audible visited index below that count.
  */
  lemma ProcessedShape(data: RenderData)
    requires Processable(data)
    ensures var p := ProcessedOf(data);
      && p.color == data.color
      && SampleCount(data) <= MaxSamples
      && (SampleCount(data) == 0 ==> p.correlation == Correlation.Scalar(0.0) && p.points == [])
      && |p.points| <= |PhasePoints.VisitedIndices(SampleCount(data))|
      && (forall q: nat :: q in p.points <==>
            q < SampleCount(data) && q % PhasePoints.Stride(SampleCount(data)) == 0
            && PhasePoints.Audible(data.leftChannel[q], data.rightChannel[q]))
      && (p.correlation.Scalar? ==> p.correlation.value == 0.0)
  {
    var n := SampleCount(data);
    if n > 0 {
      PhasePoints.PhasePointsFromVisitedIndices(data.leftChannel, data.rightChannel, n);
      Correlation.CorrelationWellDefined(data.leftChannel, data.rightChannel, n);
    }
  }

  /**
    processAudioSourceData: cap the sample count at 512, then compute the
    correlation and the phase points of that many samples. `hw` is
    std::thread::hardware_concurrency().
  */
  method ProcessAudioSourceData(data: RenderData, hw: nat) returns (result: ProcessedAudioData)
    requires Processable(data)
    ensures result == ProcessedOf(data)
  {
    result := ProcessedAudioData(data.color, Correlation.Scalar(0.0), []);
    var sampleCount := Min(|data.leftChannel|, MaxSamples);
    if sampleCount == 0 {
      return;
    }
    var c := Correlation.CalculateCorrelationParallel(data.leftChannel, data.rightChannel, sampleCount, hw);
    var points := PhasePoints.CalculatePhasePoints(data.leftChannel, data.rightChannel, sampleCount);
    result := result.(correlation := c, points := points);
  }

  /** The results of processing each selected copy, in selection order. */
  function ProcessedAll(ds: seq<RenderData>): (ps: seq<ProcessedAudioData>)
    requires forall i :: 0 <= i < |ds| ==> Processable(ds[i])
    ensures |ps| == |ds|
    ensures forall i :: 0 <= i < |ds| ==> ps[i] == ProcessedOf(ds[i])
  {
    seq(|ds|, i requires 0 <= i < |ds| && Processable(ds[i]) => ProcessedOf(ds[i]))
  }

  /** Processing one more copy appends its result. */
  lemma ProcessedAllSnoc(ds: seq<RenderData>, i: nat)
    requires i < |ds| && forall j :: 0 <= j < |ds| ==> Processable(ds[j])
    ensures ProcessedAll(ds[..i + 1]) == ProcessedAll(ds[..i]) + [ProcessedOf(ds[i])]
  {
    var a, b := ProcessedAll(ds[..i + 1]), ProcessedAll(ds[..i]) + [ProcessedOf(ds[i])];
    forall j | 0 <= j <= i ensures a[j] == b[j] {
      assert ds[..i + 1][j] == ds[j];
      if j < i {
        assert ds[..i][j] == ds[j];
      }
    }
  }

  /** The processing loop of drawAudioDataAsync: process each copy in turn. */
  method ProcessAll(ds: seq<RenderData>, hw: nat) returns (ps: seq<ProcessedAudioData>)
    requires forall i :: 0 <= i < |ds| ==> Processable(ds[i])
    ensures ps == ProcessedAll(ds)
  {
    ps := [];
    for i := 0 to |ds|
      invariant ps == ProcessedAll(ds[..i])
    {
      var p := ProcessAudioSourceData(ds[i], hw);
      ProcessedAllSnoc(ds, i);
      ps := ps + [p];
    }
    assert ds[..|ds|] == ds;
  }

  /** Every copy the selection takes from a well-formed source list can be processed. */
  lemma SelectionProcessable(es: seq<SourceState>, k: int)
    requires SourceList.WellFormed(es)
    ensures forall i :: 0 <= i < |RenderSelection(es, k)| ==> Processable(RenderSelection(es, k)[i])
  {
    RenderSelectionSpec(es, k);
    var r := RenderSelection(es, k);
    forall i | 0 <= i < |r| ensures Processable(r[i]) {
      assert r[i] in r;
      var e :| e in es && Renderable(e) && r[i] == CopyOf(e);
      var j :| 0 <= j < |es| && es[j] == e;
      assert SourceList.ChannelsBounded(es[j]);
    }
  }

  /** drawAudioDataAsync's outcome for a well-formed list: the processed selection, in selection order. */
  function ProcessedSelection(es: seq<SourceState>, k: int): (ps: seq<ProcessedAudioData>)
    requires SourceList.WellFormed(es)
  {
    SelectionProcessable(es, k);
    ProcessedAll(RenderSelection(es, k))
  }
}
