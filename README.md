# hadronTherapy: lineage tracking, event records and activity reconstruction in Dafny

This project models three pieces of sequential logic in a Geant4/ROOT
hadron-therapy simulation and its offline analysis.

- **The per-event lineage tracker** (`TrackingAction`, module `Tracking`, file
  `tracking.dfy`). It keeps three tables keyed by track ID: child to parent,
  parent to set of children, and track ID to `ParticleMemory`. A starting
  track is inserted into all three with `std::map::insert` semantics, so an
  existing entry is never overwritten. The track gets a `TrackInformation`
  carrying its parent's particle definition. Nuclei and positrons are
  reported to the writer; a positron is reported with its parent's A and Z.
  A finished track gets its final energy and position. `reset` wipes the
  tables at the end of the event.
- **The per-event record buffers and their flush** (`RootWriter`, module
  `Writer`, file `root_writer.dfy`). Each group of parallel `std::vector`
  buffers is one field of the class: positron emitters (A, Z, x, y, z, t),
  nuclei, and escaping particles. The appends are gated by the settings flags
  `minimalTreeForTransverseGammas` and `beamTree`. In minimal mode only
  photons with theta in [85°, 95°] are recorded as escaping. `fillTree` adds
  one row and clears every buffer. The ROOT analysis manager is a ghost sink
  holding the created column list, the scalar columns as last filled, and the
  rows added. `EventAction` (module `Events`, file `event_action.dfy`) drives
  the event boundary: event number in; then flush, tracker reset and counter
  increment, in that order.
- **The offline activity reconstruction** (`plotActivity`, module `Activity`,
  file `activity.dfy`). Its steps are:
  - clamp the window and convert minutes to seconds;
  - give each event a virtual start time `irrTime * (i/N - 1)`;
  - apply an open time gate as one mask to the depth and isotope vectors;
  - smear the depths, which is the identity when the precision is below the
    double epsilon;
  - split into the 15O (Z = 8), 11C (Z = 6) and 13N (Z = 7) streams;
  - fill four histograms that share one model and one scaling factor;
  - build the output file name from the raw option strings.

  The masks, the filters and the split are functions over `seq`. Each is
  proved equal to an independent reference: `Gate` and `Isotope`, which
  filter the row-wise entries. The window clamping and the smearing loop
  change variables in place, so they are methods proved against
  `ClampedWindow` and `Smeared`.

The main invariants proved are these.

- The tracker's tables share one key set.
- Every parent ID that an `.at` lookup relies on is a key.
- The child sets are exactly the inverse of the child-to-parent table (`Lineage`).
- Parents are registered before their children, so no track is its own
  ancestor (`ParentsFirst`, `NoCycles`).
- The writer's parallel vectors always have equal lengths. Each append adds
  exactly the one record the gates allow.

Units: positions in mm and energies in MeV are CLHEP's internal units, so
`/CLHEP::mm` and `/CLHEP::MeV` are the identity. Times are converted from
CLHEP's nanoseconds to seconds (`Second`). The theta gate compares radians with
`85 * Deg` and `95 * Deg`, where `Deg` is CLHEP's `pi / 180`.

Outside inputs are parameters of the model:
- how ROOT assigns a depth to a bin is `binOf: real -> int`;
- the j-th standard-normal draw made while smearing event i is
  `std: (nat, nat) -> real`;
- `std::stod` is `stod: string -> real`;
- the input tree (or its absence) is `tree: Option<seq<EventRecord>>`;
- the Bragg-peak depth read from the dose histogram is `braggPeakDepth`.

The code decides in two places where one might expect otherwise.
- The last event's virtual time is `-irrTime / N`, not 0 (`EventTimeLast`).
  The code spreads the N events over [-irrTime, -irrTime/N].
- The scaling factor multiplies the window, already in seconds, by 60 once
  more (`plotActivity.cxx:93-94` and `:177`). `ScalingFactor` keeps it that
  way.

## Model

| member | source | states |
|---|---|---|
| Common.MapInsert | src/TrackingAction.cpp:36-42 | `insert` adds the key; an existing entry keeps its value; a new key maps to the given value; every other entry is unchanged |
| Writer.PositronColumns.Push | src/RootWriter.cpp:128-133 | the six positron vectors stay equal-length and read row-wise they gain exactly the one new record at the end |
| Writer.NucleiColumns.Push | src/RootWriter.cpp:198-202 | the five nuclei vectors stay equal-length and gain exactly the one new record |
| Writer.EscapeColumns.Push | src/RootWriter.cpp:154-171 | the eleven escape vectors stay equal-length and gain exactly the one new record |
| Writer.WithEventNumber | src/RootWriter.cpp:95-100 | a no-op in minimal mode, otherwise sets the eventID column; nothing else in the pending row changes |
| Writer.WithPrimaryEnd | src/RootWriter.cpp:107-114 | a no-op in minimal mode, otherwise sets the primaryEnd columns; nothing else changes |
| Writer.WithBeamProperties | src/RootWriter.cpp:174-186 | a no-op unless the beam tree is on, otherwise sets the beam columns; nothing else changes |
| Writer.WithPositronEmitter | src/RootWriter.cpp:116-134 | nothing changes in minimal mode or for a null definition; otherwise exactly one record with the definition's baryon number as A, its atomic number as Z, and the time in seconds; only the positron vectors change and they stay aligned |
| Writer.WithNuclei | src/RootWriter.cpp:193-203 | a no-op in minimal mode, otherwise exactly one nucleus record; only the nuclei vectors change |
| Writer.WithEscapingParticle | src/RootWriter.cpp:136-172 | outside minimal mode every particle is recorded; in minimal mode exactly the photons with theta in [85°, 95°] are; one record at most; only the escape vectors change and they stay aligned |
| Writer.Flushed | src/RootWriter.cpp:205-232 | after the flush every vector buffer is empty and the scalar columns are kept |
| Writer.FullTreeMembers | src/RootWriter.cpp:45-68 | the full-tree column list holds exactly the eventID, primaryEnd, positron, nuclei and pdgEsc columns |
| Writer.EscapeMembers | src/RootWriter.cpp:70-79 | the escape column list holds exactly the ten kinematics columns xEsc … initialZEsc |
| Writer.BeamMembers | src/RootWriter.cpp:81-90 | the beam column list holds exactly the seven beam columns |
| Writer.Schema | src/RootWriter.cpp:43-92 | a column is created iff it is an escape column, or a full-tree column outside minimal mode, or a beam column with the beam tree on; the count is 10 + 16 + 7 by the same cases |
| Writer.AllAlignedAppend | src/RootWriter.cpp:205-207 | adding an aligned row to aligned rows keeps every row aligned |
| Writer.RootWriter.constructor | src/RootWriter.cpp:12-23 | a new writer keeps its settings, has empty buffers and zero scalars, and has no columns and no rows |
| Writer.RootWriter.CreateHistograms | src/RootWriter.cpp:37-93 | the sink's column list becomes the schema of the settings |
| Writer.RootWriter.SetEventNumber | src/RootWriter.cpp:95-100 | the pending row changes as WithEventNumber says; rows and columns are unchanged |
| Writer.RootWriter.SetPrimaryEnd | src/RootWriter.cpp:107-114 | the pending row changes as WithPrimaryEnd says; rows and columns are unchanged |
| Writer.RootWriter.AddPositronEmitter | src/RootWriter.cpp:116-134 | the pending row changes as WithPositronEmitter says; vectors stay aligned |
| Writer.RootWriter.AddEscapingParticle | src/RootWriter.cpp:136-172 | the pending row changes as WithEscapingParticle says; vectors stay aligned |
| Writer.RootWriter.AddBeamProperties | src/RootWriter.cpp:174-186 | the pending row changes as WithBeamProperties says |
| Writer.RootWriter.AddNuclei | src/RootWriter.cpp:193-203 | the pending row changes as WithNuclei says; vectors stay aligned |
| Writer.RootWriter.FillTree | src/RootWriter.cpp:205-232 | exactly one row, the pending one, is added to the sink; every buffer is then empty; scalars and columns are kept |
| Tracking.ChildrenAfterStart | src/TrackingAction.cpp:37-40 | the track gets a child set (empty when new); for a positive parent ID the parent's set gains the track; no other set changes; the key set grows by the track only |
| Tracking.StartEmissions | src/TrackingAction.cpp:54-58 | a nucleus record iff the atomic number is positive (outside minimal mode); a positron-emitter record iff the PDG code is -11 and the parent definition exists (outside minimal mode), carrying the parent's A and Z; nothing else in the row changes |
| Tracking.StartKeepsTablesValid | src/TrackingAction.cpp:36-44 | a start keeps the three key sets equal, keeps every needed parent a key, and keeps child sets within the keys |
| Tracking.StartKeepsLineage | src/TrackingAction.cpp:36-40 | for a fresh track ID, the child sets stay exactly the inverse of the child-to-parent table |
| Tracking.StartKeepsParentsFirst | src/TrackingAction.cpp:36-44 | registering a fresh, positive track ID with a different parent keeps every parent registered before its child |
| Tracking.NoCycles | src/TrackingAction.cpp:36-40 | when parents come first, every k-th ancestor (k ≥ 1) was registered earlier, so no track is its own ancestor |
| Tracking.TrackingAction.constructor | include/TrackingAction.h:33-37 | a new tracker has empty tables, all invariants hold, and the print flag is false |
| Tracking.TrackingAction.SetPrintParticleMemoryMap | include/TrackingAction.h:26-28 | reading the flag after setting it gives the value set |
| Tracking.TrackingAction.PreUserTrackingAction | src/TrackingAction.cpp:21-59 | the tables follow MapInsert and ChildrenAfterStart and stay valid; Lineage and ParentsFirst are kept; the TrackInformation carries the position, the energy, the Body flag, and the parent's definition (none for track 1); the writer's pending row changes as StartEmissions says; nothing else changes |
| Tracking.TrackingAction.RegisterTrack | src/TrackingAction.cpp:36-42 | the three inserts and the child-set update, with the table invariants kept |
| Tracking.TrackingAction.PostUserTrackingAction | src/TrackingAction.cpp:61-72 | requires the track to be present; only its finalEnergy and finalPosition change; setPrimaryEnd is applied iff the track ID is 1 |
| Tracking.TrackingAction.Reset | src/TrackingAction.cpp:89-125 | the three tables are empty, all invariants hold, and the print flag is false |
| Events.EventCounter.constructor | src/EventAction.cpp:10 | the processed-event counter starts at 0 |
| Events.EventAction.constructor | src/EventAction.cpp:12-16 | the action keeps the writer, tracker and counter it is given |
| Events.EventAction.BeginOfEventAction | src/EventAction.cpp:18-21 | the event ID goes to the writer as WithEventNumber says; rows and columns are unchanged |
| Events.EventAction.EndOfEventAction | src/EventAction.cpp:23-33 | one row, the event's pending row, is added and the writer's buffers are emptied; then the tracker's tables are empty with every invariant holding; the counter grows by exactly 1 |
| Activity.ClampedWindow | exec/plotActivity.cxx:51-57 | the begin is never negative (0 when it was); the end is kept when after the clamped begin, else it is 120 minutes; the window is non-empty iff the begin is below 120 or the end was after it |
| Activity.ClampedWindowCanBeEmpty | exec/plotActivity.cxx:54-57 | a begin of 200 minutes with the default end gives the window [200, 120] |
| Activity.ClampWindow | exec/plotActivity.cxx:51-57 | the two in-place reassignments compute ClampedWindow |
| Activity.InSeconds | exec/plotActivity.cxx:93-94 | the length is multiplied by 60 and emptiness is preserved |
| Activity.EventTimeFirst | exec/plotActivity.cxx:98 | event 0 starts at -irrTime |
| Activity.EventTimeLast | exec/plotActivity.cxx:98 | event N-1 starts at -irrTime/N |
| Activity.EventTimeMonotone | exec/plotActivity.cxx:98 | the virtual time does not decrease with the event index |
| Activity.EventTimeRange | exec/plotActivity.cxx:98 | every event starts within [-irrTime, 0] |
| Activity.Masked | exec/plotActivity.cxx:109-110 | `vec[mask]` has as many entries as the mask has true values |
| Activity.MaskedSubsequence | exec/plotActivity.cxx:109-110 | `vec[mask]` is a subsequence of `vec` |
| Activity.TimeMask | exec/plotActivity.cxx:100-101 | the mask has one entry per emission time |
| Activity.GateMembers | exec/plotActivity.cxx:100-101 | the gate keeps exactly the entries with timeBegin < eventTime + t < timeEnd |
| Activity.GateIdempotent | exec/plotActivity.cxx:100-101 | gating a gated event changes nothing |
| Activity.TimeFilter | exec/plotActivity.cxx:107-113 | zTimeFilter and idTimeFilter have equal length |
| Activity.TimeFilterIsGate | exec/plotActivity.cxx:107-113 | zTimeFilter and idTimeFilter are the depths and the Z values of the gated entries, so one mask keeps z and id of the same positrons |
| Activity.IsotopeMask | exec/plotActivity.cxx:103-105 | the isotope mask has one entry per id |
| Activity.IsotopeMembers | exec/plotActivity.cxx:103-105 | an isotope stream holds exactly the entries of that Z |
| Activity.IsotopesDisjoint | exec/plotActivity.cxx:103-105 | no entry is in two of the O, C and N streams |
| Activity.IsotopeMaskIsIsotope | exec/plotActivity.cxx:115-117 | masking the depths with an isotope mask gives the depths of that isotope's entries |
| Activity.SimulPrecision | exec/plotActivity.cxx:121-135 | the loop adds sigma times the j-th draw to depth j, for every j, with sigma = precision / 2.355 |
| Activity.Detected | exec/plotActivity.cxx:137-140 | zDetected has the length of zTimeFilter |
| Activity.DetectedIdentityBelowEpsilon | exec/plotActivity.cxx:137-140 | below epsilon zDetected is zTimeFilter; otherwise each depth moves by its own draw |
| Activity.IsotopeStreamsAreSubsequences | exec/plotActivity.cxx:146-148 | the all-stream is zDetected and each isotope stream is a subsequence of it |
| Activity.UnsmearedStreams | exec/plotActivity.cxx:107-148 | without smearing, the all-stream and each isotope stream of an event are the depths of the gated entries (of that Z) |
| Activity.BinCount | exec/plotActivity.cxx:152-155 | a bin holds at most as many entries as were filled |
| Activity.MaskedBinCounts | exec/plotActivity.cxx:146-155 | per bin, three mutually exclusive masks together select no more than the vector holds, and exactly as many when they cover every entry |
| Activity.IsotopeBinsPartition | exec/plotActivity.cxx:146-155 | per bin, O + C + N ≤ all, with equality when every Z is 6, 7 or 8 |
| Activity.EventBinsBounded | exec/plotActivity.cxx:146-155 | the per-bin bound holds for each event's streams |
| Activity.MaskedIdsKnown | exec/plotActivity.cxx:109-110 | the time mask keeps only Z values the event had, so an event whose emitters are all O, C or N keeps only O, C and N entries |
| Activity.EventBinsPartitioned | exec/plotActivity.cxx:107-155 | for an event whose emitters are all O, C or N, per bin O + C + N = all for that event's streams |
| Activity.PerEvent | exec/plotActivity.cxx:97-148 | one stream record per event; entry i is the streams of event i, computed with event i's virtual time |
| Activity.CollectedBinsPartition | exec/plotActivity.cxx:152-155 | per bin, O + C + N ≤ all over all events together, and O + C + N = all when every emitter of every event is O, C or N |
| Activity.ActivityModel | exec/plotActivity.cxx:150 | nBins bins over [0, 1.4 × Bragg-peak depth] |
| Activity.ScalingFactorAdditive | exec/plotActivity.cxx:177 | the factor is additive in nIrrad |
| Activity.ScalingFactorHomogeneous | exec/plotActivity.cxx:177 | the factor for c × nIrrad is c times the factor for nIrrad |
| Activity.OutputFileNameLayout | exec/plotActivity.cxx:223-224 | the name is stem + "_activity_[" followed by the begin string as given, ends in ".root", and is 22 characters longer than its parts |
| Activity.OutputFileNameUsesRawStrings | exec/plotActivity.cxx:223-224 | the name carries "-5" although the clamped window starts at 0 |
| Activity.ActivityHistogramsAgree | exec/plotActivity.cxx:150-182 | the four histograms share the one model and the one factor nIrrad / N × 60 × window length; per bin the isotope histograms together hold no more entries than the sum histogram, and exactly as many when every emitter is O, C or N |
| Activity.PartitionedContents | exec/plotActivity.cxx:152-155 | four histograms with one factor whose entries partition a bin: the O, C and N contents of that bin add up to the sum histogram's content (with ActivityHistogramsAgree: histoO + histoC + histoN = histoAll per bin when every emitter is O, C or N) |
| Activity.ContentHomogeneous | exec/plotActivity.cxx:177-182 | scaling a histogram by c more multiplies every bin's content by c |
| Activity.ActivityFromHomogeneous | exec/plotActivity.cxx:150-182 | running with c × nIrrad gives each of the four histograms c times its factor, the same model and the same entries, and the same file name; with ContentHomogeneous every bin's content is multiplied by c |
| Activity.PlotActivity | exec/plotActivity.cxx:51-182 | an error iff there is no tree; otherwise the histograms for the clamped window and the irradiation time converted to seconds, and the name from the raw strings |
| Activity.RecordOf | exec/plotActivity.cxx:107-113 | a written row with aligned positron vectors is read as an aligned record with one entry per positron |
| Activity.RowsReadable | src/RootWriter.cpp:45-58 | every aligned row the writer adds reads as an aligned record; the tree has the z, Z and t columns the reconstruction reads iff the settings are not minimal |

Functions that only compute carry no contract of their own. These rows state their properties:
- `Activity.EventTime` (`exec/plotActivity.cxx:98`): EventTimeFirst, EventTimeLast, EventTimeMonotone and EventTimeRange.
- `Activity.ScalingFactor` (`exec/plotActivity.cxx:177`): ScalingFactorAdditive, ScalingFactorHomogeneous and ActivityHistogramsAgree.
- `Activity.OutputFileName` (`exec/plotActivity.cxx:223-224`): OutputFileNameLayout and OutputFileNameUsesRawStrings.
- `Activity.Smeared` (`exec/plotActivity.cxx:121-135`): SimulPrecision, the loop proved against it, and DetectedIdentityBelowEpsilon.
- `Activity.IsotopeStreams` (`exec/plotActivity.cxx:146-148`): IsotopeStreamsAreSubsequences and IsotopeBinsPartition.
- `Activity.EventStreams` (`exec/plotActivity.cxx:97-148`): UnsmearedStreams, EventBinsBounded, EventBinsPartitioned and PerEvent.
- `Activity.ActivityFrom` (`exec/plotActivity.cxx:150-182`): ActivityHistogramsAgree, ActivityFromHomogeneous and PlotActivity.
- `Tracking.InitialMemory` (`src/TrackingAction.cpp:31-34`): StartKeepsTablesValid and PreUserTrackingAction, whose memory table gains exactly this entry.
- `Tracking.TrackingAction.DoPrintParticleMemoryMap` (`include/TrackingAction.h:28`): SetPrintParticleMemoryMap, the constructor and Reset.

## Left out

- Geant4 and ROOT are outside the model:
  - geometry, stepping physics and action wiring;
  - RunAction (a progress thread and shell calls) and PrimaryGeneratorAction (random sampling);
  - SteppingAction;
  - the drivers `visu` and `test`;
  - the Python filter.
- `openRootFile`, `closeRootFile`, `addEdep` (a 2D energy histogram) and the empty `addStepLength` are file or histogram I/O. They are not modelled.
- `printParticleMemory` only prints. The commented-out lineage printout in `reset` is not code.
- `RootWriter`'s use of the run manager type (ntuple merging in multi-threaded mode) is not modelled.
- plotActivity's option parsing and file I/O are parameters or left out. In particular, reading the tree and the dose histogram, the `RDataFrame` execution, implicit multi-threading and the console output are not modelled.
- plotActivity's rendering is left out: line styles, canvas, legend (including the legend header at `plotActivity.cxx:201`), writing the output file, and the `--noHisto` flag.
- The dose overlay rescale (`plotActivity.cxx:194`) is left out. It touches only the drawn dose histogram and is floating point.
- ROOT's binning, underflow and overflow are the abstract parameter `binOf`. Host floating point (rounding, NaN, infinities) is replaced by `real`.
- The Gaussian generator is the parameter `std`. Fresh seeding per call is not modelled.
- The processed-event counter is `std::atomic`. It is one shared `EventCounter` object, updated sequentially.
- The source's headers do not match its `.cpp` files; the model follows the `.cpp` files. The mismatches:
  - `RootWriter.h` declares other positron vectors (`idVec`, `zVec`, `tVec`) and other signatures for `addPositronEmitter` (Z, depth, time) and `addBeamProperties` (no energy);
  - `TrackInformation.h` has a two-argument constructor and no `doComeFromBody`;
  - `Settings.h` lacks both flags.
- The writer names the isotope column `Z`, while the reader reads `id`. `RecordOf` takes them to be one column.
- Activity.PlotActivity: requires at least one event. With none the source divides by zero in floating point when it computes the scaling factor (`plotActivity.cxx:177`), which no real value models. The per-event time at `:98` is then never computed.
- Activity.ClampedWindow: does not promise `timeEnd > timeBegin` for every input, because the code does not keep that promise. A begin at or past 120 minutes with no later end yields an empty window, and then a zero or negative scaling factor: a begin of exactly 120 gives [120, 120] and a factor of 0, a begin of 200 gives [200, 120] and a negative factor (`ClampedWindowCanBeEmpty`).
- Activity.Detected: its own contract states only the length. The values are stated by `DetectedIdentityBelowEpsilon` and by `SimulPrecision`, which is the loop.
- Tracking.TrackingAction.PreUserTrackingAction: keeps `Lineage` only when the track ID is new to the tables. It keeps `ParentsFirst` only for a known track, or for a new positive ID whose parent ID differs from it. Geant4 starts each track ID once per event, after its parent.
- Tracking.TrackingAction.PreUserTrackingAction: requires the parent to be registered when an `.at` lookup needs it (`ParentKnown`). The source would throw `std::out_of_range` there.
- Activity.RowsReadable: does not say that a tree written in minimal mode can be reconstructed, because it cannot. Such a tree has no z, Z or t column; the lemma states that instead.
- Writer.RootWriter.FillTree: the sink's rows keep every buffer, including those whose columns the settings never create. Rows are not projected onto `columns`. In minimal mode the gated appends keep the positron and nuclei buffers empty and the full-tree scalars at their initial values. With the beam tree off the beam fields keep their initial values.
- Tracking.TrackingAction.Reset: does not reset the ghost registration counter. Only the registration order matters, not its numbering.
