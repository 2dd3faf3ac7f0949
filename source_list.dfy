/**
  The ordered source list of the phase meter widget (m_audioSources in
  src/phase-meter-widget.cpp) as a sequence of record values, with the
  effect of each registry operation stated as a function on that sequence.
  The widget class proves its methods against these functions.
*/
module SourceList {
  import opened Wrappers
  import opened AudioSources

  /** Capacity cap of a stored channel (maxFrames in updateAudioData). */
  const MaxFrames: nat := 1024

  /** The names of the sources, in list order (getAvailableAudioSources). */
  function Names(es: seq<SourceState>): (r: seq<string>)
    ensures |r| == |es|
    ensures forall i :: 0 <= i < |es| ==> r[i] == es[i].name
  {
    seq(|es|, i requires 0 <= i < |es| => es[i].name)
  }

  /** No two sources share a name. */
  predicate UniqueNames(es: seq<SourceState>)
  {
    forall i, j :: 0 <= i < j < |es| ==> es[i].name != es[j].name
  }

  /** Both channels of a source have the same length, at most the capacity cap. */
  predicate ChannelsBounded(e: SourceState)
  {
    |e.leftChannel| == |e.rightChannel| <= MaxFrames
  }

  /** The invariant every reachable source list keeps. */
  predicate WellFormed(es: seq<SourceState>)
  {
    UniqueNames(es) && forall i :: 0 <= i < |es| ==> ChannelsBounded(es[i])
  }

  /** The position of the first source named `name` (the std::find_if of the registry). */
  function IndexOf(es: seq<SourceState>, name: string): (r: Option<nat>)
    ensures r.Some? ==> r.value < |es| && es[r.value].name == name
    ensures r.Some? ==> forall j :: 0 <= j < r.value ==> es[j].name != name
    ensures r.None? <==> name !in Names(es)
  {
    if es == [] then None
    else if es[0].name == name then Some(0)
    else match IndexOf(es[1..], name)
      case None => None
      case Some(k) => Some(k + 1)
  }

  /** A front-to-back scan that has passed i non-matching records finds i, or nothing at the end. */
  lemma IndexOfScan(es: seq<SourceState>, name: string, i: nat)
    requires i <= |es| && forall j :: 0 <= j < i ==> es[j].name != name
    ensures i < |es| && es[i].name == name ==> IndexOf(es, name) == Some(i)
    ensures i == |es| ==> IndexOf(es, name) == None
  {
    if i < |es| && es[i].name == name {
      assert Names(es)[i] == name;
      assert IndexOf(es, name).value >= i;
    }
    if i == |es| {
      assert forall j :: 0 <= j < |es| ==> Names(es)[j] != name;
    }
  }

  /** addAudioSource: append a new record unless the name is already present. */
  function Added(es: seq<SourceState>, name: string, color: Color): seq<SourceState>
  {
    if name in Names(es) then es else es + [NewSourceState(name, color)]
  }

  /** removeAudioSource: erase the first record with that name, if any. */
  function Removed(es: seq<SourceState>, name: string): seq<SourceState>
  {
    match IndexOf(es, name)
    case None => es
    case Some(k) => es[..k] + es[k + 1..]
  }

  /** The first `frames` samples of a channel, cut at the capacity cap. */
  function Truncated(s: seq<real>, frames: nat): (t: seq<real>)
    requires Min(frames, MaxFrames) <= |s|
    ensures |t| == Min(frames, MaxFrames) && t == s[..|t|]
  {
    s[..Min(frames, MaxFrames)]
  }

  /** updateAudioData on a known name: replace both channels of that record. */
  function WithChannels(es: seq<SourceState>, name: string, left: seq<real>, right: seq<real>,
                        frames: nat): seq<SourceState>
    requires Min(frames, MaxFrames) <= |left| && Min(frames, MaxFrames) <= |right|
  {
    match IndexOf(es, name)
    case None => es
    case Some(k) =>
      es[k := es[k].(leftChannel := Truncated(left, frames), rightChannel := Truncated(right, frames))]
  }

  /** When the name is found at k, only the record at k takes the truncated windows. */
  lemma WithChannelsAt(es: seq<SourceState>, name: string, left: seq<real>, right: seq<real>, frames: nat, k: nat)
    requires Min(frames, MaxFrames) <= |left| && Min(frames, MaxFrames) <= |right|
    requires IndexOf(es, name) == Some(k)
    ensures WithChannels(es, name, left, right, frames) ==
      es[k := es[k].(leftChannel := left[..Min(frames, MaxFrames)], rightChannel := right[..Min(frames, MaxFrames)])]
  {
  }

  /** onColorButtonClicked with a valid colour: recolour the record at position k. */
  function WithColor(es: seq<SourceState>, k: nat, color: Color): seq<SourceState>
    requires k < |es|
  {
    es[k := es[k].(color := color)]
  }

  // ---------------------------------------------------------------------------
  // Adding

  /** The name is present afterwards; a new record goes at the end, and only when the name was absent. */
  lemma AddedAppendsOnlyNewNames(es: seq<SourceState>, name: string, color: Color)
    ensures name in Names(Added(es, name, color))
    ensures name in Names(es) ==> Added(es, name, color) == es
    ensures name !in Names(es) ==> Added(es, name, color) == es + [NewSourceState(name, color)]
    ensures Names(Added(es, name, color)) ==
            if name in Names(es) then Names(es) else Names(es) + [name]
  {
    var r := Added(es, name, color);
    if name !in Names(es) {
      assert Names(r)[|es|] == name;
    }
  }

  /** Adding keeps names unique and channels bounded. */
  lemma AddedWellFormed(es: seq<SourceState>, name: string, color: Color)
    requires WellFormed(es)
    ensures WellFormed(Added(es, name, color))
  {
    if name !in Names(es) {
      var r := Added(es, name, color);
      forall i, j | 0 <= i < j < |r| ensures r[i].name != r[j].name {
        if j == |es| {
          assert Names(es)[i] == r[i].name;
        }
      }
    }
  }

  /** Adding the same name twice is the same as adding it once, whatever the second colour. */
  lemma AddedIdempotent(es: seq<SourceState>, name: string, c1: Color, c2: Color)
    ensures Added(Added(es, name, c1), name, c2) == Added(es, name, c1)
  {
    AddedAppendsOnlyNewNames(es, name, c1);
  }

  // ---------------------------------------------------------------------------
  // Removing

  /** Removing an absent name changes nothing; otherwise exactly the named record leaves, the rest keep their order. */
  lemma RemovedErasesOne(es: seq<SourceState>, name: string)
    ensures name !in Names(es) ==> Removed(es, name) == es
    ensures name in Names(es) ==>
      exists k :: 0 <= k < |es| && es[k].name == name && Removed(es, name) == es[..k] + es[k + 1..]
    ensures |Removed(es, name)| == if name in Names(es) then |es| - 1 else |es|
  {
    match IndexOf(es, name)
    case None =>
    case Some(k) =>
  }

  /** After erasing position k, the elements from k on have moved down by one. */
  lemma EraseShifts<T>(s: seq<T>, k: nat)
    requires k < |s|
    ensures |s[..k] + s[k + 1..]| == |s| - 1
    ensures forall i :: 0 <= i < k ==> (s[..k] + s[k + 1..])[i] == s[i]
    ensures forall i :: k < i < |s| ==> (s[..k] + s[k + 1..])[i - 1] == s[i]
  {
  }

  /** Erasing position k of a well-formed list leaves a well-formed list. */
  lemma EraseWellFormed(es: seq<SourceState>, k: nat)
    requires WellFormed(es) && k < |es|
    ensures WellFormed(es[..k] + es[k + 1..])
  {
    var r := es[..k] + es[k + 1..];
    EraseShifts(es, k);
    forall i, j | 0 <= i < j < |r| ensures r[i].name != r[j].name {
      var i', j' := if i < k then i else i + 1, if j < k then j else j + 1;
      assert r[i] == es[i'] && r[j] == es[j'];
    }
    forall i | 0 <= i < |r| ensures ChannelsBounded(r[i]) {
      var i' := if i < k then i else i + 1;
      assert r[i] == es[i'];
    }
  }

  /** Erasing position k keeps every other element. */
  lemma EraseKeepsOthers<T>(s: seq<T>, k: nat)
    requires k < |s|
    ensures forall i :: 0 <= i < |s| && i != k ==> s[i] in s[..k] + s[k + 1..]
  {
    var r := s[..k] + s[k + 1..];
    EraseShifts(s, k);
    forall i | 0 <= i < |s| && i != k ensures s[i] in r {
      if i < k { assert r[i] == s[i]; } else { assert r[i - 1] == s[i]; }
    }
  }

  /** With unique names, the removed name is gone and every other record stays. */
  lemma RemovedWellFormed(es: seq<SourceState>, name: string)
    requires WellFormed(es)
    ensures WellFormed(Removed(es, name))
    ensures name !in Names(Removed(es, name))
    ensures forall e :: e in es && e.name != name ==> e in Removed(es, name)
  {
    var ix := IndexOf(es, name);
    if ix.Some? {
      var k := ix.value;
      var r := es[..k] + es[k + 1..];
      assert Removed(es, name) == r;
      EraseWellFormed(es, k);
      EraseKeepsOthers(es, k);
      EraseShifts(es, k);
      forall i | 0 <= i < |r| ensures Names(r)[i] != name {
        var i' := if i < k then i else i + 1;
        assert r[i] == es[i'] && i' != k;
      }
    }
  }

  /** Removing a name just added restores the list it was added to. */
  lemma RemoveUndoesAdd(es: seq<SourceState>, name: string, color: Color)
    requires name !in Names(es)
    ensures Removed(Added(es, name, color), name) == es
  {
    var r := Added(es, name, color);
    assert r == es + [NewSourceState(name, color)];
    assert Names(r)[|es|] == name;
    forall j | 0 <= j < |es| ensures r[j].name != name {
      assert Names(es)[j] == es[j].name;
    }
    var k := IndexOf(r, name).value;
    assert k == |es|;
    assert r[..k] == es;
  }

  // ---------------------------------------------------------------------------
  // Updating channels

  /** The update touches only the named record, replaces (not appends) its channels, and keeps names. */
  lemma WithChannelsReplaces(es: seq<SourceState>, name: string, left: seq<real>, right: seq<real>, frames: nat)
    requires Min(frames, MaxFrames) <= |left| && Min(frames, MaxFrames) <= |right|
    ensures var r := WithChannels(es, name, left, right, frames);
      && |r| == |es| && Names(r) == Names(es)
      && (forall i :: 0 <= i < |es| && es[i].name != name ==> r[i] == es[i])
      && (forall i :: 0 <= i < |es| && es[i].name == name && UniqueNames(es) ==>
            && r[i].leftChannel == left[..Min(frames, MaxFrames)]
            && r[i].rightChannel == right[..Min(frames, MaxFrames)]
            && r[i].color == es[i].color && r[i].enabled == es[i].enabled)
  {
    var r := WithChannels(es, name, left, right, frames);
    match IndexOf(es, name)
    case None =>
    case Some(k) =>
      assert Names(r) == Names(es);
  }

  /** After an update, both channels of every record are equal-length and within the cap. */
  lemma WithChannelsWellFormed(es: seq<SourceState>, name: string, left: seq<real>, right: seq<real>,
                               frames: nat)
    requires WellFormed(es)
    requires Min(frames, MaxFrames) <= |left| && Min(frames, MaxFrames) <= |right|
    ensures WellFormed(WithChannels(es, name, left, right, frames))
  {
    WithChannelsReplaces(es, name, left, right, frames);
    var r := WithChannels(es, name, left, right, frames);
    assert forall i, j :: 0 <= i < j < |r| ==> r[i].name == Names(r)[i] && r[j].name == Names(r)[j];
  }

  /** Recolouring keeps the invariant and touches only one record. */
  lemma WithColorWellFormed(es: seq<SourceState>, k: nat, color: Color)
    requires WellFormed(es) && k < |es|
    ensures WellFormed(WithColor(es, k, color))
    ensures Names(WithColor(es, k, color)) == Names(es)
  {
    var r := WithColor(es, k, color);
    assert forall i :: 0 <= i < |r| ==> r[i].name == es[i].name;
  }
}
