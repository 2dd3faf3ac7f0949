/**
  The registry and display-flag side of PhaseMeterWidget
  (src/phase-meter-widget.cpp). The widget owns an ordered list of
  AudioSource objects (m_audioSources) and three flags; every method is
  proved against the list functions of module SourceList through the view
  Entries(). Locks, timers, the thread pool and all painting are left out;
  the combo box's current index is a parameter.
*/
module Widget {
  import opened Wrappers
  import opened AudioSources
  import opened SourceList
  import Render

  /** The values held by a list of source objects, in list order. */
  function StatesOf(ss: seq<AudioSource>): (es: seq<SourceState>)
    reads ss
    ensures |es| == |ss|
    ensures forall i :: 0 <= i < |ss| ==> es[i] == ss[i].State()
  {
    seq(|ss|, i requires 0 <= i < |ss| reads ss => ss[i].State())
  }

  /** No object appears twice in the list (each unique_ptr owns its record). */
  predicate Distinct<T(==)>(s: seq<T>)
  {
    forall i, j :: 0 <= i < j < |s| ==> s[i] != s[j]
  }

  lemma StatesOfErase(ss: seq<AudioSource>, k: nat)
    requires k < |ss|
    ensures StatesOf(ss[..k] + ss[k + 1..]) == StatesOf(ss)[..k] + StatesOf(ss)[k + 1..]
  {
    EraseShifts(ss, k);
    EraseShifts(StatesOf(ss), k);
  }

  lemma DistinctErase<T>(s: seq<T>, k: nat)
    requires Distinct(s) && k < |s|
    ensures Distinct(s[..k] + s[k + 1..])
  {
    var r := s[..k] + s[k + 1..];
    EraseShifts(s, k);
    forall a, b | 0 <= a < b < |r| ensures r[a] != r[b] {
      var a', b' := if a < k then a else a + 1, if b < k then b else b + 1;
      assert r[a] == s[a'] && r[b] == s[b'];
    }
  }

  class PhaseMeterWidget {
    var sources: seq<AudioSource>
    var isDestroying: bool
    var needsUpdate: bool
    var isProcessing: bool
    /** How many repaints update() has scheduled. */
    var repaints: nat

    /** The values held by the source objects, in list order. */
    function Entries(): (es: seq<SourceState>)
      reads this, sources
      ensures |es| == |sources|
      ensures forall i :: 0 <= i < |sources| ==> es[i] == sources[i].State()
    {
      StatesOf(sources)
    }

    /**
      Each record is owned once, the list is well formed (unique names, equal
      and bounded channels), and once destroying the list stays empty.
    */
    predicate Valid()
      reads this, sources
    {
      && Distinct(sources)
      && WellFormed(Entries())
      && (isDestroying ==> sources == [])
    }

    constructor ()
      ensures Valid()
      ensures sources == [] && !isDestroying && !needsUpdate && !isProcessing && repaints == 0
    {
      sources := [];
      isDestroying := false;
      needsUpdate := false;
      isProcessing := false;
      repaints := 0;
    }

    /** The std::find_if over m_audioSources: the position of the first record with that name. */
    method FindSource(name: string) returns (r: Option<nat>)
      ensures r == IndexOf(Entries(), name)
      ensures r.Some? <==> name in Names(Entries())
    {
      ghost var es := Entries();
      var i := 0;
      while i < |sources|
        invariant i <= |sources|
        invariant forall j :: 0 <= j < i ==> es[j].name != name
      {
        if sources[i].name == name {
          IndexOfScan(es, name, i);
          return Some(i);
        }
        i := i + 1;
      }
      IndexOfScan(es, name, i);
      return None;
    }

    /** addAudioSource: a no-op while destroying; otherwise append a new record unless the name is taken. */
    method AddAudioSource(name: string, color: Color)
      requires Valid()
      modifies this
      ensures Valid()
      ensures old(isDestroying) ==> Entries() == old(Entries())
      ensures !old(isDestroying) ==> Entries() == Added(old(Entries()), name, color)
      ensures sources == old(sources) || (0 < |sources| && sources[..|sources| - 1] == old(sources) && fresh(sources[|sources| - 1]))
      ensures isDestroying == old(isDestroying) && needsUpdate == old(needsUpdate)
      ensures isProcessing == old(isProcessing) && repaints == old(repaints)
    {
      if isDestroying {
        return;
      }
      ghost var es := Entries();
      var k := FindSource(name);
      if k.None? {
        var source := new AudioSource(name, color);
        sources := sources + [source];
        assert Entries() == es + [NewSourceState(name, color)];
      }
      AddedWellFormed(es, name, color);
    }

    /** removeAudioSource: a no-op while destroying; otherwise erase the record with that name, if any. */
    method RemoveAudioSource(name: string)
      requires Valid()
      modifies this
      ensures Valid()
      ensures old(isDestroying) ==> Entries() == old(Entries())
      ensures !old(isDestroying) ==> Entries() == Removed(old(Entries()), name)
      ensures forall s :: s in sources ==> s in old(sources)
      ensures isDestroying == old(isDestroying) && needsUpdate == old(needsUpdate)
      ensures isProcessing == old(isProcessing) && repaints == old(repaints)
    {
      if isDestroying {
        return;
      }
      ghost var es := Entries();
      var k := FindSource(name);
      if k.Some? {
        var i := k.value;
        ghost var ss := sources;
        sources := sources[..i] + sources[i + 1..];
        StatesOfErase(ss, i);
        assert StatesOf(ss) == es;
        assert Entries() == es[..i] + es[i + 1..];
        DistinctErase(ss, i);
        EraseWellFormed(es, i);
        assert Removed(es, name) == Entries();
      }
    }

    /** Store new sample windows in the record at position k; no other record changes. */
    method WriteChannels(k: nat, l: seq<real>, r: seq<real>)
      requires Distinct(sources) && k < |sources|
      modifies sources[k]
      ensures Entries() == old(Entries())[k := old(Entries())[k].(leftChannel := l, rightChannel := r)]
    {
      ghost var es := Entries();
      var source := sources[k];
      source.leftChannel := l;
      source.rightChannel := r;
      forall j | 0 <= j < |sources| && j != k ensures sources[j].State() == es[j] {
        assert sources[j] != source;
      }
    }

    /** Store a new colour in the record at position k; no other record changes. */
    method WriteColor(k: nat, c: Color)
      requires Distinct(sources) && k < |sources|
      modifies sources[k]
      ensures Entries() == old(Entries())[k := old(Entries())[k].(color := c)]
    {
      ghost var es := Entries();
      var source := sources[k];
      source.color := c;
      forall j | 0 <= j < |sources| && j != k ensures sources[j].State() == es[j] {
        assert sources[j] != source;
      }
    }

    /**
      updateAudioData: a no-op while destroying, for a missing channel, for
      zero frames or for an unknown name; otherwise both channels of the named
      record become the first min(frames, 1024) samples and a repaint is requested.
    */
    method UpdateAudioData(name: string, left: Option<seq<real>>, right: Option<seq<real>>, frames: nat)
      requires Valid()
      requires left.Some? ==> Min(frames, MaxFrames) <= |left.value|
      requires right.Some? ==> Min(frames, MaxFrames) <= |right.value|
      modifies this, sources
      ensures Valid()
      ensures sources == old(sources)
      ensures old(isDestroying) || left.None? || right.None? || frames == 0 ==>
        Entries() == old(Entries()) && needsUpdate == old(needsUpdate)
      ensures !(old(isDestroying) || left.None? || right.None? || frames == 0) ==>
        && Entries() == WithChannels(old(Entries()), name, left.value, right.value, frames)
        && needsUpdate == (old(needsUpdate) || name in Names(old(Entries())))
      ensures isDestroying == old(isDestroying) && isProcessing == old(isProcessing) && repaints == old(repaints)
    {
      if isDestroying || left.None? || right.None? || frames == 0 {
        return;
      }
      ghost var es := Entries();
      var actualFrames := Min(frames, MaxFrames);
      var k := FindSource(name);
      if k.Some? {
        WriteChannels(k.value, left.value[..actualFrames], right.value[..actualFrames]);
        needsUpdate := true;
        WithChannelsAt(es, name, left.value, right.value, frames, k.value);
        assert Entries() == WithChannels(es, name, left.value, right.value, frames);
        WithChannelsWellFormed(es, name, left.value, right.value, frames);
        assert WellFormed(Entries());
      }
    }

    /** getAvailableAudioSources: the names, in list order. */
    method AvailableSources() returns (names: seq<string>)
      ensures names == Names(Entries())
    {
      names := [];
      for i := 0 to |sources|
        invariant names == Names(Entries())[..i]
      {
        names := names + [sources[i].name];
      }
    }

    /** cleanup: mark the widget as destroying and drop every record. */
    method Cleanup()
      modifies this
      ensures Valid()
      ensures isDestroying && sources == [] && Entries() == []
      ensures needsUpdate == old(needsUpdate) && isProcessing == old(isProcessing) && repaints == old(repaints)
    {
      isDestroying := true;
      sources := [];
    }

    /** updateDisplay (the 33 ms timer): repaint once when an update is pending, unless destroying or busy. */
    method UpdateDisplay()
      modifies this
      ensures sources == old(sources) && isDestroying == old(isDestroying) && isProcessing == old(isProcessing)
      ensures old(!isDestroying && needsUpdate && !isProcessing) ==> !needsUpdate && repaints == old(repaints) + 1
      ensures !old(!isDestroying && needsUpdate && !isProcessing) ==>
        needsUpdate == old(needsUpdate) && repaints == old(repaints)
    {
      if !isDestroying && needsUpdate && !isProcessing {
        needsUpdate := false;
        repaints := repaints + 1;
      }
    }

    /** onSourceSelectionChanged: request a repaint unless destroying. */
    method SelectionChanged()
      modifies this
      ensures sources == old(sources) && isDestroying == old(isDestroying) && isProcessing == old(isProcessing)
      ensures needsUpdate == (old(needsUpdate) || !isDestroying) && repaints == old(repaints)
    {
      if !isDestroying {
        needsUpdate := true;
      }
    }

    /**
      onColorButtonClicked after the colour dialog returned `chosen` (None when
      cancelled): recolour source selectedIndex - 1 when it exists.
    */
    method ColorChosen(selectedIndex: int, chosen: Option<Color>)
      requires Valid()
      modifies this, sources
      ensures Valid()
      ensures sources == old(sources) && isDestroying == old(isDestroying)
      ensures isProcessing == old(isProcessing) && repaints == old(repaints)
      ensures old(!isDestroying) && 0 < selectedIndex <= |sources| && chosen.Some? ==>
        Entries() == WithColor(old(Entries()), selectedIndex - 1, chosen.value) && needsUpdate
      ensures !(old(!isDestroying) && 0 < selectedIndex <= |sources| && chosen.Some?) ==>
        Entries() == old(Entries()) && needsUpdate == old(needsUpdate)
    {
      if isDestroying {
        return;
      }
      if selectedIndex > 0 && selectedIndex - 1 < |sources| {
        if chosen.Some? {
          ghost var es := Entries();
          WriteColor(selectedIndex - 1, chosen.value);
          needsUpdate := true;
          assert Entries() == WithColor(es, selectedIndex - 1, chosen.value);
          WithColorWellFormed(es, selectedIndex - 1, chosen.value);
        }
      }
    }

    /**
      The selection block of drawAudioDataAsync: with index 0 copy the first
      three enabled sources with samples, otherwise source selectedIndex - 1
      when it is enabled and has samples.
    */
    method CollectRenderData(selectedIndex: int) returns (data: seq<Render.RenderData>)
      ensures data == Render.RenderSelection(Entries(), selectedIndex)
      ensures |data| <= Render.MaxRenderedSources
    {
      ghost var es := Entries();
      Render.RenderSelectionSpec(es, selectedIndex);
      data := [];
      if selectedIndex == 0 {
        var count := 0;
        var i := 0;
        while i < |sources|
          invariant i <= |sources| && count == |data| <= Render.MaxRenderedSources
          invariant data + Render.SelectAll(es[i..], Render.MaxRenderedSources - count)
                    == Render.SelectAll(es, Render.MaxRenderedSources)
        {
          var source := sources[i];
          Render.SelectAllStep(es, i, Render.MaxRenderedSources - count);
          if source.enabled && count < Render.MaxRenderedSources {
            if |source.leftChannel| > 0 && |source.rightChannel| > 0 {
              data := data + [Render.CopyOf(source.State())];
              count := count + 1;
            }
          }
          i := i + 1;
        }
        assert es[i..] == [];
      } else if selectedIndex > 0 && selectedIndex - 1 < |sources| {
        var source := sources[selectedIndex - 1];
        if source.enabled && |source.leftChannel| > 0 && |source.rightChannel| > 0 {
          data := [Render.CopyOf(source.State())];
        }
      }
    }

    /**
      drawAudioDataAsync without the painting: nothing while processing,
      otherwise the processed result of every selected source, in selection
      order. `hw` is the hardware thread count.
    */
    method DrawAudioData(selectedIndex: int, hw: nat) returns (results: seq<Render.ProcessedAudioData>)
      requires Valid()
      ensures isProcessing ==> results == []
      ensures !isProcessing ==> results == Render.ProcessedSelection(Entries(), selectedIndex)
    {
      results := [];
      if isProcessing {
        return;
      }
      var data := CollectRenderData(selectedIndex);
      Render.SelectionProcessable(Entries(), selectedIndex);
      results := Render.ProcessAll(data, hw);
    }
  }
}
