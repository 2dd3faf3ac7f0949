/**
  The plugin-level state of src/plugin-main.cpp: the pending-data mailbox
  (pendingAudioData), filled by the audio capture callback and drained by
  the 33 ms timer into the widget, the moduleUnloading and
  audioMonitoringActive flags, and the source create/destroy handlers.
  OBS and Qt calls are left out: a source is a value carrying its name (None
  for a null name) and whether it outputs audio; whether the dock and its
  widget exist is the flag dockReady.
*/
module Plugin {
  import opened Wrappers
  import opened AudioSources
  import opened SourceList
  import Widget

  /** The left and right samples waiting for one source. */
  datatype Frames = Frames(left: seq<real>, right: seq<real>)

  /** An obs_source_t as the handlers see it: its name (None when null) and whether it outputs audio. */
  datatype ObsSource = ObsSource(name: Option<string>, outputsAudio: bool)

  /** The audio_data of a capture callback: the two channel buffers (None when null) and the frame count. */
  datatype AudioData = AudioData(left: Option<seq<real>>, right: Option<seq<real>>, frames: nat)

  datatype FrontendEvent = FinishedLoading | Exit | OtherEvent

  /** Every pending pair has two channels of the same, non-zero length. */
  predicate PendingWellFormed(pending: map<string, Frames>)
  {
    forall name :: name in pending ==> |pending[name].left| == |pending[name].right| > 0
  }

  /** Each non-null buffer of the callback holds at least `frames` samples. */
  predicate BuffersHold(audio: AudioData)
  {
    && (audio.left.Some? ==> audio.frames <= |audio.left.value|)
    && (audio.right.Some? ==> audio.frames <= |audio.right.value|)
  }

  // ---------------------------------------------------------------------------
  // The capture callback

  /** Whether the callback stores anything: not unloading, all pointers present, not muted, frames > 0, a name. */
  predicate Stores(unloading: bool, hasUserData: bool, source: Option<ObsSource>, audio: Option<AudioData>,
                   muted: bool)
  {
    && !unloading && hasUserData && source.Some? && audio.Some? && !muted
    && audio.value.left.Some? && audio.value.right.Some? && audio.value.frames > 0
    && source.value.name.Some?
  }

  /** The mailbox after audio_capture_callback: the latest frames overwrite any earlier ones for that name. */
  function Captured(pending: map<string, Frames>, unloading: bool, hasUserData: bool, source: Option<ObsSource>,
                    audio: Option<AudioData>, muted: bool): map<string, Frames>
    requires audio.Some? ==> BuffersHold(audio.value)
  {
    if Stores(unloading, hasUserData, source, audio, muted) then
      var a := audio.value;
      pending[source.value.name.value := Frames(a.left.value[..a.frames], a.right.value[..a.frames])]
    else pending
  }

  /**
    Nothing changes when unloading, for a null pointer, when muted, for zero
    frames or a null name; otherwise exactly `frames` samples of each channel
    are stored under the name and every other entry stays.
  */
  lemma CapturedSpec(pending: map<string, Frames>, unloading: bool, hasUserData: bool, source: Option<ObsSource>,
                     audio: Option<AudioData>, muted: bool)
    requires audio.Some? ==> BuffersHold(audio.value)
    ensures var r := Captured(pending, unloading, hasUserData, source, audio, muted);
      && (!Stores(unloading, hasUserData, source, audio, muted) ==> r == pending)
      && (Stores(unloading, hasUserData, source, audio, muted) ==>
            var name, a := source.value.name.value, audio.value;
            && r.Keys == pending.Keys + {name}
            && |r[name].left| == |r[name].right| == a.frames
            && r[name].left == a.left.value[..a.frames] && r[name].right == a.right.value[..a.frames]
            && forall other :: other in pending && other != name ==> r[other] == pending[other])
    ensures PendingWellFormed(pending) ==>
      PendingWellFormed(Captured(pending, unloading, hasUserData, source, audio, muted))
  {
  }

  /** Two stored captures for the same name leave only the second one. */
  lemma LatestCaptureWins(pending: map<string, Frames>, source: ObsSource, first: AudioData, second: AudioData)
    requires BuffersHold(first) && BuffersHold(second)
    requires Stores(false, true, Some(source), Some(second), false)
    ensures Captured(Captured(pending, false, true, Some(source), Some(first), false),
                     false, true, Some(source), Some(second), false)
         == Captured(pending, false, true, Some(source), Some(second), false)
  {
    var p1 := Captured(pending, false, true, Some(source), Some(first), false);
    var name := source.name.value;
    assert p1.Keys + {name} == pending.Keys + {name};
  }

  // ---------------------------------------------------------------------------
  // The timer drain

  /** One record after its pending pair is handed to updateAudioData with frames = |left|. */
  function Refreshed(e: SourceState, f: Frames): (r: SourceState)
    requires |f.left| == |f.right|
    ensures r.name == e.name && r.color == e.color && r.enabled == e.enabled
    ensures r.leftChannel == f.left[..Min(|f.left|, MaxFrames)]
    ensures r.rightChannel == f.right[..Min(|f.left|, MaxFrames)]
  {
    e.(leftChannel := Truncated(f.left, |f.left|), rightChannel := Truncated(f.right, |f.left|))
  }

  /**
    The records after the drain: each record with a pending pair gets that
    pair's first min(|left|, 1024) samples; the others are unchanged. The
    outcome does not depend on the order in which the hash is walked.
  */
  function DrainedEntries(es: seq<SourceState>, pending: map<string, Frames>): (r: seq<SourceState>)
    requires PendingWellFormed(pending)
    ensures |r| == |es| && Names(r) == Names(es)
    ensures forall i :: 0 <= i < |es| && es[i].name !in pending ==> r[i] == es[i]
    ensures forall i :: 0 <= i < |es| && es[i].name in pending ==> r[i] == Refreshed(es[i], pending[es[i].name])
  {
    var r := seq(|es|, i requires 0 <= i < |es| =>
      if es[i].name in pending then Refreshed(es[i], pending[es[i].name]) else es[i]);
    assert Names(r) == Names(es);
    r
  }

  /** An empty mailbox leaves the records as they are. */
  lemma DrainEmpty(es: seq<SourceState>)
    ensures DrainedEntries(es, map[]) == es
  {
  }

  /** Handing one more pending pair to updateAudioData extends the drained state by that pair. */
  lemma DrainStep(es: seq<SourceState>, done: map<string, Frames>, name: string, f: Frames)
    requires UniqueNames(es) && PendingWellFormed(done)
    requires name !in done && |f.left| == |f.right| > 0
    ensures PendingWellFormed(done[name := f])
    ensures WithChannels(DrainedEntries(es, done), name, f.left, f.right, |f.left|)
         == DrainedEntries(es, done[name := f])
  {
    var d := DrainedEntries(es, done);
    var d' := DrainedEntries(es, done[name := f]);
    match IndexOf(d, name)
    case None =>
      forall i | 0 <= i < |es| ensures d'[i] == d[i] {
        assert Names(d)[i] == es[i].name;
      }
    case Some(k) =>
      var r := d[k := d[k].(leftChannel := Truncated(f.left, |f.left|), rightChannel := Truncated(f.right, |f.left|))];
      assert Names(d)[k] == es[k].name;
      forall i | 0 <= i < |es| ensures d'[i] == r[i] {
        if i != k {
          assert es[i].name != name;
        }
      }
  }

  /** The drain keeps the list well formed. */
  lemma DrainedWellFormed(es: seq<SourceState>, pending: map<string, Frames>)
    requires WellFormed(es) && PendingWellFormed(pending)
    ensures WellFormed(DrainedEntries(es, pending))
  {
    var r := DrainedEntries(es, pending);
    forall i, j | 0 <= i < j < |r| ensures r[i].name != r[j].name {
      assert Names(r)[i] == es[i].name && Names(r)[j] == es[j].name;
    }
  }

  /** Whether the drain touches any record, so that updateAudioData requests a repaint. */
  predicate DrainTouches(es: seq<SourceState>, pending: map<string, Frames>)
  {
    exists name :: name in pending && name in Names(es)
  }

  lemma DrainTouchesStep(es: seq<SourceState>, done: map<string, Frames>, name: string, f: Frames)
    ensures DrainTouches(es, done[name := f]) == (DrainTouches(es, done) || name in Names(es))
  {
    if name in Names(es) {
      assert name in done[name := f];
    }
  }

  /** The pending pairs whose names are not in `remaining`: what the drain has handed over so far. */
  function HandedOver(pending: map<string, Frames>, remaining: set<string>): (m: map<string, Frames>)
    ensures forall k :: k in m <==> k in pending && k !in remaining
    ensures forall k :: k in m ==> m[k] == pending[k]
  {
    map k | k in pending && k !in remaining :: pending[k]
  }

  /** Handing over one more name adds exactly its pair. */
  lemma HandOverOne(pending: map<string, Frames>, remaining: set<string>, name: string)
    requires name in remaining && name in pending
    ensures HandedOver(pending, remaining - {name}) == HandedOver(pending, remaining)[name := pending[name]]
  {
  }

  lemma HandOverAll(pending: map<string, Frames>)
    ensures HandedOver(pending, {}) == pending
    ensures HandedOver(pending, pending.Keys) == map[]
  {
  }

  // ---------------------------------------------------------------------------
  // The plugin state

  class PluginState {
    var moduleUnloading: bool
    var audioMonitoringActive: bool
    /** phaseMeterDock is alive and its widget is reachable. */
    var dockReady: bool
    var pending: map<string, Frames>
    const widget: Widget.PhaseMeterWidget

    predicate Valid()
      reads this, widget, widget.sources
    {
      widget.Valid() && PendingWellFormed(pending)
    }

    /** The statics at load time, with the dock created (or not) around `w`. */
    constructor (w: Widget.PhaseMeterWidget, dockCreated: bool)
      requires w.Valid()
      ensures Valid() && widget == w
      ensures !moduleUnloading && !audioMonitoringActive && dockReady == dockCreated && pending == map[]
    {
      widget := w;
      moduleUnloading := false;
      audioMonitoringActive := false;
      dockReady := dockCreated;
      pending := map[];
    }

    /** audio_capture_callback. */
    method AudioCaptureCallback(hasUserData: bool, source: Option<ObsSource>, audio: Option<AudioData>, muted: bool)
      requires Valid()
      requires audio.Some? ==> BuffersHold(audio.value)
      modifies this
      ensures Valid()
      ensures pending == Captured(old(pending), old(moduleUnloading), hasUserData, source, audio, muted)
      ensures moduleUnloading == old(moduleUnloading) && audioMonitoringActive == old(audioMonitoringActive)
      ensures dockReady == old(dockReady)
    {
      CapturedSpec(pending, moduleUnloading, hasUserData, source, audio, muted);
      if moduleUnloading || !hasUserData || source.None? || audio.None? || muted {
        return;
      }
      var a := audio.value;
      if a.left.Some? && a.right.Some? && a.frames > 0 {
        match source.value.name
        case Some(name) =>
          var leftData := a.left.value[..a.frames];
          var rightData := a.right.value[..a.frames];
          pending := pending[name := Frames(leftData, rightData)];
        case None =>
      }
    }

    /** The body of the drain loop: hand one pending pair to updateAudioData, with frames = |left|. */
    method Deliver(ghost es: seq<SourceState>, ghost done: map<string, Frames>, name: string, f: Frames)
      requires widget.Valid() && WellFormed(es) && PendingWellFormed(done)
      requires name !in done && |f.left| == |f.right| > 0
      requires widget.Entries() == DrainedEntries(es, done)
      modifies widget, widget.sources
      ensures widget.Valid() && widget.sources == old(widget.sources)
      ensures PendingWellFormed(done[name := f])
      ensures widget.Entries() == DrainedEntries(es, done[name := f])
      ensures widget.needsUpdate == (old(widget.needsUpdate) || name in Names(es))
      ensures widget.isDestroying == old(widget.isDestroying) && widget.isProcessing == old(widget.isProcessing)
      ensures widget.repaints == old(widget.repaints)
    {
      assert Names(widget.Entries()) == Names(es);
      widget.UpdateAudioData(name, Some(f.left), Some(f.right), |f.left|);
      DrainStep(es, done, name, f);
    }

    /**
      The timer lambda: with the dock ready, pass every pending pair to
      updateAudioData (frames = |left|) and empty the mailbox.
    */
    method Drain()
      requires Valid()
      modifies this, widget, widget.sources
      ensures Valid()
      ensures moduleUnloading == old(moduleUnloading) && audioMonitoringActive == old(audioMonitoringActive)
      ensures dockReady == old(dockReady)
      ensures widget.isDestroying == old(widget.isDestroying) && widget.isProcessing == old(widget.isProcessing)
      ensures widget.repaints == old(widget.repaints)
      ensures widget.sources == old(widget.sources)
      ensures !dockReady ==>
        pending == old(pending) && widget.Entries() == old(widget.Entries())
        && widget.needsUpdate == old(widget.needsUpdate)
      ensures dockReady ==>
        && pending == map[]
        && widget.Entries() == DrainedEntries(old(widget.Entries()), old(pending))
        && widget.needsUpdate == (old(widget.needsUpdate) || DrainTouches(old(widget.Entries()), old(pending)))
    {
      if !dockReady {
        return;
      }
      ghost var es := widget.Entries();
      var remaining := pending.Keys;
      HandOverAll(pending);
      DrainEmpty(es);
      while remaining != {}
        modifies widget, widget.sources
        invariant widget.Valid() && widget.sources == old(widget.sources)
        invariant remaining <= pending.Keys
        invariant widget.Entries() == DrainedEntries(es, HandedOver(pending, remaining))
        invariant widget.needsUpdate == (old(widget.needsUpdate) || DrainTouches(es, HandedOver(pending, remaining)))
        invariant widget.isDestroying == old(widget.isDestroying) && widget.isProcessing == old(widget.isProcessing)
        invariant widget.repaints == old(widget.repaints)
        decreases |remaining|
      {
        var name :| name in remaining;
        var f := pending[name];
        Deliver(es, HandedOver(pending, remaining), name, f);
        DrainTouchesStep(es, HandedOver(pending, remaining), name, f);
        HandOverOne(pending, remaining, name);
        remaining := remaining - {name};
      }
      pending := map[];
    }

    /** start_audio_monitoring: a no-op when already active or without the dock; otherwise active. */
    method StartAudioMonitoring()
      modifies this
      ensures audioMonitoringActive == (old(audioMonitoringActive) || dockReady)
      ensures moduleUnloading == old(moduleUnloading) && dockReady == old(dockReady) && pending == old(pending)
    {
      if !dockReady || audioMonitoringActive {
        return;
      }
      audioMonitoringActive := true;
    }

    /** stop_audio_monitoring: a no-op when inactive; otherwise inactive. */
    method StopAudioMonitoring()
      modifies this
      ensures !audioMonitoringActive
      ensures moduleUnloading == old(moduleUnloading) && dockReady == old(dockReady) && pending == old(pending)
    {
      if !audioMonitoringActive {
        return;
      }
      audioMonitoringActive := false;
    }

    /**
      source_create_handler: unless unloading, add an audio source with a
      name to the widget, in `color` (the source draws a random hue).
    */
    method SourceCreated(source: Option<ObsSource>, color: Color)
      requires Valid()
      modifies widget
      ensures Valid()
      ensures widget.isDestroying == old(widget.isDestroying) && widget.needsUpdate == old(widget.needsUpdate)
      ensures widget.isProcessing == old(widget.isProcessing) && widget.repaints == old(widget.repaints)
      ensures widget.sources == old(widget.sources)
        || (0 < |widget.sources| && widget.sources[..|widget.sources| - 1] == old(widget.sources)
            && fresh(widget.sources[|widget.sources| - 1]))
      ensures
        if source.Some? && !moduleUnloading && source.value.outputsAudio && dockReady && source.value.name.Some?
           && !widget.isDestroying
        then widget.Entries() == Added(old(widget.Entries()), source.value.name.value, color)
        else widget.Entries() == old(widget.Entries())
    {
      if source.None? || moduleUnloading {
        return;
      }
      if source.value.outputsAudio && dockReady {
        match source.value.name
        case Some(name) =>
          widget.AddAudioSource(name, color);
        case None =>
      }
    }

    /** source_destroy_handler: unless unloading, remove the named source from the widget. */
    method SourceDestroyed(source: Option<ObsSource>)
      requires Valid()
      modifies widget
      ensures Valid()
      ensures widget.isDestroying == old(widget.isDestroying) && widget.needsUpdate == old(widget.needsUpdate)
      ensures widget.isProcessing == old(widget.isProcessing) && widget.repaints == old(widget.repaints)
      ensures forall s :: s in widget.sources ==> s in old(widget.sources)
      ensures
        if source.Some? && !moduleUnloading && dockReady && source.value.name.Some? && !widget.isDestroying
        then widget.Entries() == Removed(old(widget.Entries()), source.value.name.value)
        else widget.Entries() == old(widget.Entries())
    {
      if source.None? || moduleUnloading {
        return;
      }
      if dockReady {
        match source.value.name
        case Some(name) =>
          widget.RemoveAudioSource(name);
        case None =>
      }
    }

    /** obs_event_handler: EXIT marks the module as unloading; other events change no modelled state. */
    method HandleFrontendEvent(event: FrontendEvent)
      modifies this
      ensures moduleUnloading == (old(moduleUnloading) || event == Exit)
      ensures audioMonitoringActive == old(audioMonitoringActive) && dockReady == old(dockReady)
      ensures pending == old(pending)
    {
      if event == Exit {
        moduleUnloading := true;
      }
    }

    /** obs_module_unload: mark unloading, stop monitoring, delete the timer and the dock. */
    method ModuleUnload()
      modifies this
      ensures moduleUnloading && !audioMonitoringActive && !dockReady
      ensures pending == old(pending)
    {
      moduleUnloading := true;
      StopAudioMonitoring();
      dockReady := false;
    }
  }
}
