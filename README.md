# Phase meter for OBS — a Dafny model of its bookkeeping core

The plugin is a phase meter for OBS written in C++/Qt. It has three moving parts, and this project models each of them:

- **The plugin layer** (`src/plugin-main.cpp`). An OBS audio capture callback drops the latest stereo frames of each source into a mailbox keyed by source name. A 33 ms timer drains that mailbox into the widget. Two flags guard this: `audioMonitoringActive` and `moduleUnloading`.
- **The widget's registry** (`src/phase-meter-widget.cpp`). The widget keeps an ordered registry of `AudioSource` records (`src/phase-meter-widget.h`). Sources are added, removed and refreshed by name, and a needs-update flag drives repainting.
- **The widget's render path**. For each paint, the widget chooses up to three sources, or the one selected source. For each chosen source it computes a stereo correlation and a cloud of phase points from at most 512 samples.

The model is written in Dafny:

- The record is a class with the source's five data fields and its constructor, move constructor and move assignment.
- The widget is a class holding a sequence of record objects and its flags. Every method is proved against functions on the sequence of record values (module `SourceList`).
- The plugin globals are a class holding the flags, the mailbox (a map) and the widget.
- The correlation and the phase-point sampling are methods with the source's loops. Each is proved equal to an exact-arithmetic specification. Lemmas then show the following:
  - chunking the correlation sums does not change them;
  - the chunks tile `[0, n)`;
  - the visited indices are exactly the multiples of the stride;
  - every point comes from an audible visited index.

Samples are exact `real`s rather than `float`s. The final `dot / sqrt(leftEnergy * rightEnergy)` is kept symbolic as `Ratio(dot, leftEnergy, rightEnergy)`. A phase point is identified by the sample index it is drawn from.

In two places the code does less than its own constants and guards suggest. The model records what the code does in both places; for the correlation, the rendering path uses the corrected thread count:

- **Phase points.** The code sets `maxPoints = 50` and reserves that many points. The stride is `max(1, n / 50)`, so from 50 samples on there are between 50 and 99 visited indices, and every one of them can emit a point. For example, 99 samples visit all 99 (`PhasePoints.VisitCount`, `PhasePoints.NinetyNineSamplesVisitNinetyNine`).
- **Chunked correlation.** The guard `sampleCount < 4` sends only counts below 4 to the sequential path. The thread count `min(n / 128, hardware_concurrency())` is zero below 128 samples, so for 4 to 127 samples the division that follows has no valid result (see Findings). `Correlation.CorrelationAsWritten` models that path as written. The rendering path (`Render.ProcessAudioSourceData` and the members that call it) uses the corrected thread count, as listed under "Left out".

## Model

| member | source | states |
|---|---|---|
| AudioSources.AudioSource.constructor | src/phase-meter-widget.h:26 | `AudioSource(n, c)` holds name n, colour c, empty channels, enabled |
| AudioSources.AudioSource.FromMoved | src/phase-meter-widget.h:33-40 | the move-constructed record takes the other's name, colour, both channels and enabled flag; the moved-from record's channels are left empty and its colour and enabled flag stay |
| AudioSources.AudioSource.MoveAssign | src/phase-meter-widget.h:42-52 | move assignment from a different record takes all five of its fields and leaves that record's channels empty, its colour and enabled flag kept; a self-move changes nothing |
| SourceList.IndexOf | src/phase-meter-widget.cpp:79-80 | the lookup finds the first record with the name, and finds none exactly when the name is absent |
| SourceList.AddedAppendsOnlyNewNames | src/phase-meter-widget.cpp:79-84 | after adding, the name is present; an absent name is appended at the end with a fresh record, a present name leaves the list unchanged |
| SourceList.AddedWellFormed | src/phase-meter-widget.cpp:79-84 | adding keeps names unique and channels equal-length and bounded |
| SourceList.AddedIdempotent | src/phase-meter-widget.cpp:79-84 | adding a name twice equals adding it once, whatever the second colour |
| SourceList.RemovedErasesOne | src/phase-meter-widget.cpp:105-109 | removing an absent name changes nothing; otherwise exactly one record with that name is erased and the rest keep their order |
| SourceList.EraseWellFormed | src/phase-meter-widget.cpp:109 | erasing one position keeps the list well formed |
| SourceList.RemovedWellFormed | src/phase-meter-widget.cpp:105-109 | with unique names, removal keeps the list well formed, the name is gone and every other record stays |
| SourceList.RemoveUndoesAdd | src/phase-meter-widget.cpp:71-126 | removing a name just added restores the previous list |
| SourceList.WithChannelsReplaces | src/phase-meter-widget.cpp:134-150 | an update replaces (not appends) both channels of the named record with the first min(frames, 1024) samples, keeps its colour and enabled flag, and leaves every other record and all names as they were |
| SourceList.WithChannelsWellFormed | src/phase-meter-widget.cpp:148-149 | after an update both channels of every record have equal length of at most 1024 and names stay unique |
| SourceList.WithColorWellFormed | src/phase-meter-widget.cpp:491-495 | recolouring one record keeps the list well formed and the names unchanged |
| Correlation.RangeSumsSplit | src/phase-meter-widget.cpp:330-376 | the sums over two adjacent index ranges add up to the sums over their union |
| Correlation.SilenceMeansZeroDot | src/phase-meter-widget.cpp:394-402 | energies are never negative, and a zero energy forces a zero dot product |
| Correlation.CorrelationWellDefined | src/phase-meter-widget.cpp:379-383 | the normalisation only happens with two positive energies; otherwise the correlation is 0, in particular when either channel is all zero |
| Correlation.CalculateCorrelationSequential | src/phase-meter-widget.cpp:386-405 | the loop's three running sums equal the exact sums over the first n samples, and the result is the exact correlation |
| Correlation.ThreadCountAsWritten | src/phase-meter-widget.cpp:325 | the as-written thread count is 0 exactly when n < 128 or the hardware count is 0 |
| Correlation.AsWrittenDividesByZero | src/phase-meter-widget.cpp:319-326 | for every 4 <= n < 128 the thread count is 0, so the chunk size divides by zero |
| Correlation.ThreadCount | src/phase-meter-widget.cpp:325-326 | the corrected thread count is between 1 and n, and equals the as-written one whenever that is not 0 |
| Correlation.ChunksTile | src/phase-meter-widget.cpp:326-332 | the chunks start at 0, end at n, are non-decreasing and none is empty: they tile [0, n) |
| Correlation.TotalOfConsecutive | src/phase-meter-widget.cpp:366-376 | partial sums over consecutive ranges add up to the sum over the whole span |
| Correlation.ChunkBounds | src/phase-meter-widget.cpp:326-332 | chunk i starts at i * chunkSize and ends at the next boundary, or at the sample count for the last chunk, within [0, n] |
| Correlation.PartialsStep | src/phase-meter-widget.cpp:330-362 | chunk i spans [i * chunkSize, end) with end = n for the last chunk, lies within [0, n], and its sum is the next partial |
| Correlation.ChunkingPreservesSums | src/phase-meter-widget.cpp:366-376 | the per-chunk partials add up to the whole-range sums, for every number of chunks |
| Correlation.CorrelationAsWritten | src/phase-meter-widget.cpp:315-384 | the as-written correlation faults exactly when n >= 4 and (n < 128 or no hardware threads), and otherwise equals the exact correlation |
| Correlation.CalculateCorrelationParallel | src/phase-meter-widget.cpp:315-384 | with at least one chunk, the fan-out/fan-in result equals the exact correlation of the first n samples |
| PhasePoints.Stride | src/phase-meter-widget.cpp:412-413 | the stride is at least 1, is 1 below 50 samples and n / 50 from 50 on |
| PhasePoints.StrideIndicesInRange | src/phase-meter-widget.cpp:419-422 | every index the stride loop visits from a start lies between that start and the sample count |
| PhasePoints.StrideIndexAt | src/phase-meter-widget.cpp:419-422 | the j-th visited index is the start plus j steps |
| PhasePoints.StrideIndicesCount | src/phase-meter-widget.cpp:419-422 | nothing is visited exactly when the start is at or past the count; otherwise the last visited index is below the count and one more step reaches it |
| PhasePoints.VisitedIndicesBelow | src/phase-meter-widget.cpp:420 | every visited index is below the sample count |
| PhasePoints.VisitedIndexMembership | src/phase-meter-widget.cpp:419-422 | an index is visited exactly when it is below n and a multiple of the stride |
| PhasePoints.VisitedIsMultiple | src/phase-meter-widget.cpp:419-422 | a visited index is below n and a multiple of the stride |
| PhasePoints.MultipleIsVisited | src/phase-meter-widget.cpp:419-422 | every multiple of the stride below n is visited |
| PhasePoints.VisitCount | src/phase-meter-widget.cpp:412-422 | below 50 samples every index is visited; from 50 on between 50 and 99 are |
| PhasePoints.NinetyNineSamplesVisitNinetyNine | src/phase-meter-widget.cpp:412-422 | 99 samples visit all 99 indices, so the 50-point target is not a cap |
| PhasePoints.AudibleIndicesSelects | src/phase-meter-widget.cpp:426-441 | a point is emitted for exactly the audible indices among those visited, and never more points than indices |
| PhasePoints.PhasePointsFromVisitedIndices | src/phase-meter-widget.cpp:407-445 | the points are exactly the audible multiples of the stride below n, and there are no more of them than visited indices |
| PhasePoints.CollectIndices | src/phase-meter-widget.cpp:419-422 | the index loop collects exactly the visited indices, in increasing order |
| PhasePoints.EmitAudible | src/phase-meter-widget.cpp:426-443 | the emission pass yields exactly the audible indices among those given, in order |
| PhasePoints.CalculatePhasePoints | src/phase-meter-widget.cpp:407-445 | the stride loop builds exactly the visited indices and the emission loop the audible ones among them |
| Render.SelectAllIsFirstRenderable | src/phase-meter-widget.cpp:233-244 | "All Sources" takes exactly the first min(3, number renderable) enabled sources with samples, in list order |
| Render.RenderableCopiesFromList | src/phase-meter-widget.cpp:236-240 | every copy comes from a renderable source of the list and every renderable source is copied |
| Render.RenderSelectionSpec | src/phase-meter-widget.cpp:230-253 | at most 3 copies, all of renderable sources; index 0 takes the first renderable ones in order; index k > 0 yields exactly the copy of source k - 1 when it exists and is renderable, and nothing otherwise; a negative index takes nothing |
| Render.FiveRenderableSourcesDrawThree | src/phase-meter-widget.cpp:233-244 | with five renderable sources only the first three are drawn |
| Render.ProcessedShape | src/phase-meter-widget.cpp:292-313 | processing keeps the colour and works on min(size, 512) samples; with none it yields correlation 0 and no points; its points are the audible multiples of the stride |
| Render.ProcessAudioSourceData | src/phase-meter-widget.cpp:292-313 | the per-source result equals the exact specification of the capped sample window |
| Render.ProcessAll | src/phase-meter-widget.cpp:275-290 | one result per copy, each the processed result of that copy, in selection order |
| Render.SelectionProcessable | src/phase-meter-widget.cpp:230-253 | every copy taken from a well-formed list has enough right-channel samples to be processed |
| Widget.PhaseMeterWidget.constructor | src/phase-meter-widget.cpp:17-22 | a new widget has no sources and all three flags clear |
| Widget.PhaseMeterWidget.FindSource | src/phase-meter-widget.cpp:79-80 | the search returns the first position holding the name, or none exactly when the name is absent |
| Widget.PhaseMeterWidget.AddAudioSource | src/phase-meter-widget.cpp:71-96 | while destroying nothing changes; otherwise the registry becomes the list with the name added once, by appending one newly allocated record; the invariant holds |
| Widget.PhaseMeterWidget.RemoveAudioSource | src/phase-meter-widget.cpp:98-126 | while destroying nothing changes; otherwise the named record is erased and no record is added; the invariant holds |
| Widget.PhaseMeterWidget.WriteChannels | src/phase-meter-widget.cpp:143-149 | the two channel assignments change the record at that position and no other record |
| Widget.PhaseMeterWidget.UpdateAudioData | src/phase-meter-widget.cpp:128-155 | destroying, a null channel, zero frames or an unknown name change nothing; otherwise the named record's channels are replaced by the first min(frames, 1024) samples and a repaint is requested |
| Widget.PhaseMeterWidget.AvailableSources | src/phase-meter-widget.cpp:546-556 | the names of all sources, in registry order |
| Widget.PhaseMeterWidget.Cleanup | src/phase-meter-widget.cpp:502-515 | afterwards the widget is destroying and holds no sources, so every later mutator is a no-op |
| Widget.PhaseMeterWidget.UpdateDisplay | src/phase-meter-widget.cpp:176-183 | a pending update, while not destroying or processing, clears the flag and schedules one repaint; otherwise nothing changes |
| Widget.PhaseMeterWidget.SelectionChanged | src/phase-meter-widget.cpp:476-481 | a selection change requests a repaint unless destroying |
| Widget.PhaseMeterWidget.WriteColor | src/phase-meter-widget.cpp:495 | the colour assignment changes the record at that position and no other record |
| Widget.PhaseMeterWidget.ColorChosen | src/phase-meter-widget.cpp:483-500 | a colour chosen for an existing selected source recolours exactly that record and requests a repaint; otherwise nothing changes |
| Widget.PhaseMeterWidget.CollectRenderData | src/phase-meter-widget.cpp:230-253 | the selection loop copies exactly the render selection of the registry, at most 3 sources |
| Widget.PhaseMeterWidget.DrawAudioData | src/phase-meter-widget.cpp:218-272 | nothing while processing; otherwise one processed result per selected source, in selection order |
| Plugin.CapturedSpec | src/plugin-main.cpp:56-82 | unloading, a null pointer, muted, null channels, zero frames or a null name change nothing; otherwise exactly `frames` samples of each channel are stored under the name, other entries stay, and pending pairs stay equal-length |
| Plugin.LatestCaptureWins | src/plugin-main.cpp:75-78 | two stored captures for one name leave only the later frames |
| Plugin.DrainEmpty | src/plugin-main.cpp:309 | an empty mailbox changes no record |
| Plugin.DrainStep | src/plugin-main.cpp:310-318 | one more updateAudioData call for a not-yet-handed pair extends the drained state by that pair |
| Plugin.DrainedWellFormed | src/plugin-main.cpp:309-320 | the drain keeps the widget's list well formed |
| Plugin.PluginState.constructor | src/plugin-main.cpp:47-53 | at load time the module is not unloading, monitoring is off and the mailbox is empty |
| Plugin.PluginState.AudioCaptureCallback | src/plugin-main.cpp:56-82 | the mailbox becomes the captured mailbox; the flags do not change |
| Plugin.PluginState.Deliver | src/plugin-main.cpp:312-317 | one pending pair handed to updateAudioData extends the drained records by that pair, keeps the widget valid and requests a repaint exactly when the name is registered |
| Plugin.PluginState.Drain | src/plugin-main.cpp:304-323 | with the dock ready, every pending pair reaches updateAudioData, the mailbox ends empty and a repaint is requested exactly when some pending name is registered; without the dock nothing changes |
| Plugin.PluginState.StartAudioMonitoring | src/plugin-main.cpp:133-148 | monitoring becomes active when the dock is ready; it is a no-op when already active |
| Plugin.PluginState.StopAudioMonitoring | src/plugin-main.cpp:151-166 | monitoring is inactive afterwards; it is a no-op when already inactive |
| Plugin.PluginState.SourceCreated | src/plugin-main.cpp:169-199 | unless unloading, a named audio source is added to the widget as one newly allocated record; otherwise the registry is unchanged; the widget's flags and repaint count stay as they were |
| Plugin.PluginState.SourceDestroyed | src/plugin-main.cpp:202-227 | unless unloading, the named source is removed from the widget and no record is added; otherwise the registry is unchanged; the widget's flags and repaint count stay as they were |
| Plugin.PluginState.HandleFrontendEvent | src/plugin-main.cpp:333-353 | EXIT sets moduleUnloading, after which the create and destroy handlers do nothing; other events change no modelled state |
| Plugin.PluginState.ModuleUnload | src/plugin-main.cpp:374-417 | after unloading, the module is marked unloading, monitoring is off and the dock is gone |

## Left out

- **Floating point.** Single-precision rounding, `sqrt`, `atan2`, `cos` and `sin`, the `min(magnitude, 1)` clamp and the integer pixel casts are not modelled. Samples are exact reals, the correlation's division is kept symbolic, and a point is its sample index. Nothing is claimed about the float result lying in [-1, 1].
- **Audible threshold.** The threshold `magnitude > 0.01` is stated as `l*l + r*r > 0.0001`, its exact squared form.
- **Concurrency.** Mutexes, `std::async` futures, the parallel and unsequenced execution policies, and the thread pool and its `waitForDone` are left out. Every operation is sequential. A race between `cleanup` and a concurrent add is outside the model.
- PhasePoints.CalculatePhasePoints: the source emits points from a parallel `for_each`, so their order is unspecified. The model emits them in index order.
- Render.ProcessAudioSourceData: the hardware thread count is a parameter, and the centre and radius are dropped with the point coordinates.
- Render.ProcessAudioSourceData, Render.ProcessAll and Widget.PhaseMeterWidget.DrawAudioData compute the correlation through the corrected thread count `max(1, min(n / 128, hw))` (`Correlation.CalculateCorrelationParallel`). For 4 to 127 samples, or when the hardware count is 0, they return the exact correlation, where the code as written divides by zero (`Correlation.CorrelationAsWritten`).
- **Qt UI.** The following are left out:
  - the combo box and its queued `addItem`/`removeItem` calls;
  - `setupUI`, `paintEvent`, `drawGrid`, `drawPhaseMeter` and `drawProcessedAudioSource`;
  - `updateCorrelationDisplay` and its static counter;
  - `refreshAudioSources`, `resizeEvent` and `closeEvent`;
  - the colour dialog, which is replaced by its result (`None` when cancelled).

  The combo box's current index is a parameter. As in the code, a positive index picks the registry entry at `index - 1`.
- **The processing flag.** `m_isProcessing` is never set to true anywhere in `src/phase-meter-widget.cpp`. The model keeps it as a field that no method changes.
- **OBS host calls.** The following are left out:
  - `obs_enum_sources`;
  - adding and removing capture callbacks;
  - signal-handler registration;
  - menu setup and dock creation (`createPhaseMeterDock`);
  - logging;
  - the sleeps and event pumping in `obs_module_unload`.

  Whether the dock and its widget exist is one flag, `dockReady`. The random HSV colour of a new source is a parameter.
- **Default colour.** The default argument `color = Qt::green` of `addAudioSource` (`src/phase-meter-widget.h:63`) is not modelled. Every modelled caller passes a colour explicitly.
- **Allocation failures.** The `try`/`catch` around the copies in `updateAudioData` is not modelled.
- **The dock files.** `src/phase-meter-dock.cpp` and `src/phase-meter-dock.h` are a thin wrapper with no logic and are not part of this model.
- AudioSources.AudioSource.MoveAssign, AudioSources.AudioSource.FromMoved: the moved-from record's name is not stated. A moved-from QString is valid but its value is not documented: the bodies empty it on construction and swap it on assignment, as Qt does, but the contracts promise neither.

## Findings

| source | as written | input that shows it | evidently intended | confidence | as-written member | corrected member |
|---|---|---|---|---|---|---|
| src/phase-meter-widget.cpp:325-326 | `numThreads = min(sampleCount / 128, hardware_concurrency())`, then `chunkSize = sampleCount / numThreads` | any sampleCount from 4 to 127, e.g. 100, so numThreads = 0 and the division is by zero (also any count when hardware_concurrency() returns 0) | at least one chunk: `numThreads = max(1, min(sampleCount / 128, hw))` | not executed | Correlation.CorrelationAsWritten | Correlation.CalculateCorrelationParallel |
