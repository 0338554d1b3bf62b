# CrashTruth pipeline core in Dafny

CrashTruth turns the object detections of a dash-cam video into a crash
report in stages:

- **The tracker** (`CrashTruth-Tracker.py`) links the car boxes of
  successive frames into tracks by greedy IoU matching. It then computes
  each track's mean pixel speed and its least time to collision (TTC),
  the TTC being estimated from how fast the box height grows.
- **The fault analyzer** (`CrashTruth-FaultAnalyzer.py`) does three
  things:
  - rates each track and the whole video high, medium or low;
  - raises per-track flags (sustained low TTC, hard approach, lateral
    weaving, sudden cut-in, very slow track);
  - infers the video's causes from those flags.
- **The report generator** (`CrashTruth-ReportGenerator.py`) picks the
  primary vehicle and the struck vehicle and computes the report
  statistics.
- **The progress endpoint** (`lambda_getCloudWatch/lambda_function.py`)
  reads "Processed X/Y" log lines and turns them into a progress level
  from 1 to 4. It normalises timestamps to milliseconds, picks the log
  event of the current run, and holds level 4 back until the report
  generator has logged "Report generated".

The model follows the form of the code:

- **Pure helpers are functions.** These are `iou`, `center_wh`,
  `ttc_from_heights`, `risk_bucket`, `infer_causes`,
  `pick_primary_and_struck`, `compute_stats`, `parse_progress_level` and
  `parse_timestamp`.
- **Loops are methods.** These are the tracker's matching loop, its spawn
  loop and its metrics loop, the loops of `flags_for_track`, the
  pagination and selection loops of `fetch_logs_after_timestamp`, and the
  handler's downgrade of level 4. Each method is proved to compute a
  function that states what the loop does; what that function
  guarantees is proved in lemmas beside it.
- **Lemmas state what the code promises** about those functions.

Modules, one per file:

- `Common`: `Option`, and the number of pairs `zip(s, s[1:])` yields.
- `Sorting`: a stable insertion sort with key orders as total preorders,
  the first least element (`min`, `max` and `sorted(...)[0]`), `[:n]` and
  list comprehensions.
- `Text`: Python's string order, `sorted(set(...))`, `rsplit("/", 1)` and
  ASCII `lower()`.
- `Stats`: sums, means, `min`, and population variance.
- `Geometry`: boxes, `iou`, `center_wh` and `ttc_from_heights`.
- `TrackerSpec`: the tracker's data as values, and one function per loop
  of the tracker.
- `TrackerInvariants`: what the tracker guarantees.
- `Tracker`: the tracker's loops as methods, the per-track metrics, and
  the handler.
- `FaultAnalyzer`, `ReportGenerator` and `Progress`: the other three
  stages.

The tracker's `active` dictionary is an association list in insertion
order:

- `d[k] = v` replaces the value in place, or appends a new key.
- `pop` removes the entry.

The matching loop visits a snapshot of this list in its order, which is
the order of `list(active.items())`. The main tracker facts are proved
over every run of frames:

- track ids are 1, 2, 3, ... in creation order;
- a track's frame indices are consecutive;
- `active` lists live tracks by ascending id, each with its latest box;
- history is append-only, and a retired track never changes or comes
  back;
- the number of states equals the number of car boxes.

### Where the code and its description disagree

The comment above the thinning (`CrashTruth-Tracker.py:126`) says it
keeps "only first/last frames and a few samples". The code
(`states[::max(1, len(states)//10 or 1)]`) always keeps the first state,
but not always the last. With fewer than 20 states it keeps them all
(up to 19). The model follows the code:

- `Tracker.ThinLength` gives the count of kept states.
- `Tracker.ThinCanDropLast` shows a 22-state track that loses its last
  state.

## Model

| member | source | states |
|---|---|---|
| `Geometry.Union` | CrashTruth-Tracker.py:21-23 | for well-formed boxes the denominator of `iou` is at least the 1e-6 it adds, so the division never fails |
| `Geometry.UnionLowerBound` | CrashTruth-Tracker.py:20-23 | the area of the union of two well-formed boxes is never negative |
| `Geometry.IntersectionBounds` | CrashTruth-Tracker.py:17-20 | the clamped overlap area lies between 0 and the area of each box |
| `Geometry.IouRange` | CrashTruth-Tracker.py:14-24 | for well-formed boxes `iou` lies in [0, 1): the 1e-6 keeps it strictly below 1 |
| `Geometry.IouSymmetric` | CrashTruth-Tracker.py:14-24 | `iou(a, b) == iou(b, a)` |
| `Geometry.IouDisjoint` | CrashTruth-Tracker.py:17-20 | boxes separated along either axis have `iou` 0 |
| `Geometry.CenterWh` | CrashTruth-Tracker.py:26-30 | the centre is the midpoint of each side; width and height are at least 1, and equal the box's extent when that is at least 1; the centre of a well-formed box lies inside it |
| `Geometry.TtcFromHeights` | CrashTruth-Tracker.py:32-40 | defined exactly when both heights are positive and the approach speed `(1/h_prev - 1/h_curr)/dt` exceeds 1e-6; then positive, and TTC times that speed is the distance proxy `1/h_curr` |
| `Geometry.TtcClosedForm` | CrashTruth-Tracker.py:36-40 | when defined, the TTC equals `dt * h_prev / (h_curr - h_prev)` |
| `Geometry.NonGrowingHasNoTtc` | CrashTruth-Tracker.py:34-39 | a box whose height does not grow over a positive time step gives no TTC |
| `Text.BeforeLastSlash` | CrashTruth-Tracker.py:47 | `key.rsplit("/", 1)[0]`: the key up to, not including, its last slash; the whole key when it has no slash |
| `Text.AfterLastSlash` | CrashTruth-ReportGenerator.py:65 | `prefix.rsplit("/", 1)[-1]`: a slash-free suffix, preceded by a slash when the prefix has one |
| `Text.SplitAtLastSlash` | CrashTruth-ReportGenerator.py:65 | the two halves of `rsplit("/", 1)` joined by "/" give the string back |
| `Text.LexLeTotalPreorder` | CrashTruth-Tracker.py:52 | the string order `frames.sort` uses is total and transitive |
| `Text.LexLeAntisymmetric` | CrashTruth-Tracker.py:52 | two frame names ordered both ways are equal |
| `TrackerSpec.ToBox` | CrashTruth-Tracker.py:60-65 | `float(b.get(f, 0))` for each coordinate: a missing box reads as all zeros, each missing coordinate of a present box as 0, each present one as given; the score as given, or 0.0 when missing |
| `TrackerSpec.CarBoxes` | CrashTruth-Tracker.py:57-65 | never more boxes than detections; none when no detection is a car, one per detection when all are |
| `TrackerSpec.CarBoxesIsFilter` | CrashTruth-Tracker.py:57-65 | the boxes are `ToBox` of exactly the detections labelled "car", in their listed order |
| `TrackerSpec.CarBoxesAppend` | CrashTruth-Tracker.py:57 | the car filter distributes over concatenation of detection lists |
| `TrackerSpec.FrameLeTotalPreorder` | CrashTruth-Tracker.py:52 | ordering frames by name is a total preorder |
| `TrackerSpec.Steps` | CrashTruth-Tracker.py:52-66 | one step per frame, numbered 0, 1, 2, ... and in frame-name order |
| `TrackerSpec.StepsFromFrames` | CrashTruth-Tracker.py:56-66 | every step carries the name and the car boxes of one input frame |
| `TrackerSpec.StepsPermutation` | CrashTruth-Tracker.py:52-66 | the sort only reorders the frames: the (name, car boxes) pairs of the steps are, as a multiset, those of the input frames, so no frame is repeated or lost |
| `TrackerSpec.StepsBoxCount` | CrashTruth-Tracker.py:52-66 | the steps hold as many boxes as there are car detections in all the input frames |
| `TrackerSpec.MakeState` | CrashTruth-Tracker.py:86-90 | the appended state records the step's index, frame and box, with width and height at least 1 |
| `TrackerSpec.KeyIndex` | CrashTruth-Tracker.py:76 | the position of a key in the `active` dictionary, or its length when absent |
| `TrackerSpec.Put` | CrashTruth-Tracker.py:92 | after `active[tid] = b` the entry is present and no other entry is new |
| `TrackerSpec.Pop` | CrashTruth-Tracker.py:96 | `active.pop(tid, None)` adds nothing and leaves a dictionary without the key unchanged |
| `TrackerInvariants.PutReplace` | CrashTruth-Tracker.py:92 | assigning to an existing key replaces its value in place, keeping the order |
| `TrackerInvariants.PutNew` | CrashTruth-Tracker.py:104 | assigning a new key appends it at the end |
| `TrackerInvariants.PopAt` | CrashTruth-Tracker.py:96 | popping a key removes exactly its entry, keeping the others in order |
| `TrackerSpec.BestUpTo` | CrashTruth-Tracker.py:77-83 | the chosen box is unassigned, has IoU above 0 and at least that of every unassigned box, and is the first such; with no choice the best IoU stays 0 |
| `Tracker.BestBox` | CrashTruth-Tracker.py:77-83 | the scan over the frame's boxes computes `BestUpTo` |
| `TrackerSpec.FindTrack` | CrashTruth-Tracker.py:88-89 | the position of the first track with the id, or the list's length |
| `Tracker.AppendState` | CrashTruth-Tracker.py:88-91 | the loop appends the state to the first track with the id and stops |
| `Tracker.MatchEntry` | CrashTruth-Tracker.py:76-96 | one active track is matched (state appended, box replaced, box index assigned) or retired, as `MatchOne` says |
| `Tracker.MatchFrame` | CrashTruth-Tracker.py:74-96 | the matching loop over a snapshot of `active` computes `MatchUpTo` |
| `Tracker.SpawnTracks` | CrashTruth-Tracker.py:99-105 | the loop over unassigned boxes computes `SpawnUpTo` |
| `Tracker.BuildTracks` | CrashTruth-Tracker.py:69-105 | the tracking loop computes `RunUpTo`; track k has id k + 1, at least one state and consecutive frame indices; the number of states equals the number of car boxes |
| `TrackerInvariants.MatchInvInit` | CrashTruth-Tracker.py:74-76 | before the matching loop, nothing is matched and the snapshot is all still to visit |
| `TrackerInvariants.MatchInvMatched` | CrashTruth-Tracker.py:84-93 | a match keeps the matching invariant: the track gains one state in this frame, its entry keeps its place with the new box, and one more box index is assigned |
| `TrackerInvariants.MatchInvRetired` | CrashTruth-Tracker.py:94-96 | a retirement keeps the matching invariant: the entry leaves `active` and no track changes |
| `TrackerInvariants.MatchAll` | CrashTruth-Tracker.py:76-96 | after the matching loop the surviving entries are the matched ones in their old order; each extends a visited track by one state; others are unchanged; states grew by the assigned boxes |
| `TrackerInvariants.AfterMatching` | CrashTruth-Tracker.py:76-96 | from a valid table the matching loop leaves ids increasing, visited tracks extended with the entry's box, assigned indices within the frame, and states counted |
| `TrackerInvariants.CountUnassignedComplement` | CrashTruth-Tracker.py:99-101 | the boxes left unassigned and the assigned ones together are all the frame's boxes |
| `TrackerInvariants.SpawnAll` | CrashTruth-Tracker.py:99-105 | each unassigned box starts a track with the next id and one state in this frame, appended to `active` after the old entries; one track per unassigned box |
| `TrackerInvariants.StepPreserves` | CrashTruth-Tracker.py:73-105 | one frame keeps the tracker invariant (ids 1..n, consecutive frames, `active` lists live tracks by ascending id with their last box) and adds one state per box |
| `TrackerInvariants.StepGrows` | CrashTruth-Tracker.py:73-105 | one frame only appends states, and leaves a track absent from `active` unchanged and absent |
| `TrackerInvariants.RunInvariant` | CrashTruth-Tracker.py:69-105 | after any number of frames the invariant holds and the states number the car boxes seen |
| `TrackerInvariants.HistoryKept` | CrashTruth-Tracker.py:69-105 | between any two points of the run a track's history is only extended, and a retired track is never extended or reactivated |
| `Tracker.StateIdxLeTotalPreorder` | CrashTruth-Tracker.py:109 | ordering states by frame index is a total preorder |
| `Tracker.SortedStates` | CrashTruth-Tracker.py:109 | the sorted states are a permutation of the track's states, ordered by frame index |
| `Tracker.ConsecutiveSorted` | CrashTruth-Tracker.py:109 | sorting the states of a track the tracker built changes nothing |
| `Tracker.SeriesUpTo` | CrashTruth-Tracker.py:112-123 | at most one speed per pair, no more TTCs than speeds, and every TTC positive |
| `Tracker.TransitionSeries` | CrashTruth-Tracker.py:110-123 | the loop over successive pairs computes `SeriesUpTo` |
| `Tracker.SpeedsNonNegative` | CrashTruth-Tracker.py:117-119 | with a non-negative norm every speed is non-negative |
| `Tracker.MeanSpeedNonNegative` | CrashTruth-Tracker.py:124 | the mean speed is non-negative |
| `Tracker.MinTtcIsLeast` | CrashTruth-Tracker.py:125 | `min_ttc_s` is absent exactly when no TTC was found; otherwise it is one of them, the least, and positive |
| `Tracker.ConsecutiveEveryPairCounts` | CrashTruth-Tracker.py:113-119 | with a positive frame rate every pair of consecutive frames yields a speed |
| `Tracker.TrackerTrackSpeeds` | CrashTruth-Tracker.py:109-119 | a tracker-built track is already sorted and has exactly one speed per pair of states |
| `Tracker.SingleStateMetrics` | CrashTruth-Tracker.py:108-127 | a track seen once has speed 0.0, no TTC, and keeps its state |
| `Tracker.Stride` | CrashTruth-Tracker.py:127 | `max(1, n//10 or 1)` is n // 10 from 10 states on and 1 below |
| `Tracker.Thin` | CrashTruth-Tracker.py:127 | the slice keeps no more elements than it had, and always the first |
| `Tracker.ThinAt` | CrashTruth-Tracker.py:127 | element i of `s[::k]` is `s[i * k]` |
| `Tracker.ThinLength` | CrashTruth-Tracker.py:127 | `s[::k]` has `ceil(len(s) / k)` elements |
| `Tracker.ThinCanDropLast` | CrashTruth-Tracker.py:126-127 | of 22 states the stride is 2 and 11 are kept, ending with state 20: the last state is dropped |
| `Tracker.TrackMetrics` | CrashTruth-Tracker.py:108-127 | the body of the metrics loop computes `TrackResult` for one track |
| `Tracker.Results` | CrashTruth-Tracker.py:108 | one output per track |
| `Tracker.ResultsAt` | CrashTruth-Tracker.py:108-127 | output k is the result of track k |
| `Tracker.AllMetrics` | CrashTruth-Tracker.py:108-127 | the metrics loop yields, in order, each track's result |
| `Tracker.TrackResultShape` | CrashTruth-Tracker.py:126-127 | a written track keeps its id and, having states, at least one of them |
| `Tracker.TrackVideo` | CrashTruth-Tracker.py:42-134 | the document has the key's prefix and the frame rate; `tracks_count` is the number of tracks; track k has id k + 1 and at least one state; before thinning, the tracks hold one state per car detection in all the input frames, and track k of the document is the metrics of built track k |
| `Stats.MinOf` | CrashTruth-Tracker.py:125 | `min` is absent only for an empty list; otherwise it is a member, at most every element |
| `Stats.MeanBounds` | CrashTruth-Tracker.py:124 | a mean lies between any lower and upper bound of the values |
| `Stats.MeanAtLeast` | CrashTruth-Tracker.py:124 | a mean is at least any lower bound of the values |
| `FaultAnalyzer.RiskBucket` | CrashTruth-FaultAnalyzer.py:21-31 | high exactly when some track's TTC is at most `TTC_DANGER`, with one reason; otherwise warn and speed reasons each appear exactly when some track shows them; low exactly with the single "no critical flags" reason |
| `FaultAnalyzer.WorstRiskIsHigh` | CrashTruth-FaultAnalyzer.py:122-124 | the worst per-track risk is high exactly when some track is in danger, and above low exactly when some track is in danger, warned or fast |
| `FaultAnalyzer.RiskBucketIsWorst` | CrashTruth-FaultAnalyzer.py:21-31 | the video's risk is the worst per-track risk, and low for no tracks |
| `FaultAnalyzer.SortedStates` | CrashTruth-FaultAnalyzer.py:35 | the sorted states are a permutation ordered by frame index |
| `FaultAnalyzer.TimeStep` | CrashTruth-FaultAnalyzer.py:39 | with the divisor clamped to 1e-6, the time step is positive exactly when the frame index grows |
| `FaultAnalyzer.SeriesUpTo` | CrashTruth-FaultAnalyzer.py:38-49 | no more TTC samples than centre samples, at most one per pair, every TTC positive |
| `FaultAnalyzer.CollectSeries` | CrashTruth-FaultAnalyzer.py:36-49 | the loop over successive pairs computes `SeriesUpTo` |
| `FaultAnalyzer.CxsFromSecondState` | CrashTruth-FaultAnalyzer.py:49 | with increasing frame indices, the centre series is the centre of every state after the first, 0.0 when missing |
| `FaultAnalyzer.LowStreak` | CrashTruth-FaultAnalyzer.py:52-60 | the streak loop finds a run exactly when `SustainedLow` holds |
| `FaultAnalyzer.RunAfterWindow` | CrashTruth-FaultAnalyzer.py:52-57 | the streak after n samples reaches m exactly when the last m samples are all at most `TTC_WARN` |
| `FaultAnalyzer.SustainedLowWindow` | CrashTruth-FaultAnalyzer.py:52-60 | "low_ttc_sustained" fires exactly when `LOW_TTC_FRAMES` consecutive TTC samples are all at most `TTC_WARN` |
| `FaultAnalyzer.SustainedLowNonPositive` | CrashTruth-FaultAnalyzer.py:58 | with `LOW_TTC_FRAMES` at most 0 the rule fires exactly when there is any TTC sample |
| `FaultAnalyzer.HardDropScan` | CrashTruth-FaultAnalyzer.py:63-66 | the loop finds a drop exactly when two successive TTCs fall by at least `TTC_DROP_S` to at most `TTC_WARN` |
| `FaultAnalyzer.CutInEarlySample` | CrashTruth-FaultAnalyzer.py:77-79 | "sudden_cutin" fires exactly when one of the first `max(2, LOW_TTC_FRAMES)` TTC samples is at most `CUTIN_TTC_S` |
| `Stats.ConstantHasNoSpread` | CrashTruth-FaultAnalyzer.py:69-72 | a constant centre series never reaches a positive `LATERAL_STD_MIN` |
| `Stats.Variance` | CrashTruth-FaultAnalyzer.py:71 | the population variance is non-negative |
| `FaultAnalyzer.FlagNamesDistinct` | CrashTruth-FaultAnalyzer.py:59-84 | the five flag names differ |
| `FaultAnalyzer.RawFlagsMembers` | CrashTruth-FaultAnalyzer.py:51-84 | each flag appended is one of the five, and each appears exactly when its rule fires |
| `FaultAnalyzer.TrackFlagsMeaning` | CrashTruth-FaultAnalyzer.py:33-86 | a track's flags are strictly sorted (each once), all among the five names, and each present exactly when its rule fires |
| `FaultAnalyzer.FlagsForTrack` | CrashTruth-FaultAnalyzer.py:33-86 | the loops of `flags_for_track` compute `TrackFlags` |
| `Text.Dedup` | CrashTruth-FaultAnalyzer.py:86 | `set(flags)`: the same names, each once |
| `Text.SortedSet` | CrashTruth-FaultAnalyzer.py:86 | `sorted(set(xs))`: the same names, strictly increasing |
| `Text.StrictlySortedUnique` | CrashTruth-FaultAnalyzer.py:86 | two strictly sorted lists with the same names are equal, so the result depends only on which names occur |
| `FaultAnalyzer.CauseNamesDistinct` | CrashTruth-FaultAnalyzer.py:89-102 | the five cause names differ |
| `FaultAnalyzer.RawCausesMembers` | CrashTruth-FaultAnalyzer.py:89-102 | each cause added is one of the five and is present exactly when its flag (or, for a stationary obstacle, a very slow track plus a low-TTC flag) occurs |
| `FaultAnalyzer.LowTtcByFlags` | CrashTruth-FaultAnalyzer.py:100 | some track has "low_ttc_sustained" or "hard_approach" exactly when one of the two flags occurs on some track |
| `FaultAnalyzer.InferCauses` | CrashTruth-FaultAnalyzer.py:88-103 | the causes are strictly sorted, among the five names, and each present exactly when its condition holds |
| `FaultAnalyzer.InferCausesByFlagsPresent` | CrashTruth-FaultAnalyzer.py:88-103 | the causes depend only on which flags occur, not on which track carries them |
| `FaultAnalyzer.StationaryObstacleFromTwoTracks` | CrashTruth-FaultAnalyzer.py:98-102 | a very slow track and another track with a hard approach give "hard_approach" and "stationary_obstacle_ahead" |
| `FaultAnalyzer.FindingsOf` | CrashTruth-FaultAnalyzer.py:117-134 | one finding per track |
| `FaultAnalyzer.FindingsOfAt` | CrashTruth-FaultAnalyzer.py:119-134 | finding k is the finding of track k |
| `FaultAnalyzer.WorstFindingOfTracks` | CrashTruth-FaultAnalyzer.py:115-124 | the worst finding's risk is the video's `highest_risk` |
| `FaultAnalyzer.AnalyzeTrack` | CrashTruth-FaultAnalyzer.py:120-134 | one loop body computes `FindingOf` |
| `FaultAnalyzer.AnalyzeAll` | CrashTruth-FaultAnalyzer.py:117-121 | the loop collects the findings and the flag lists, in track order |
| `FaultAnalyzer.AnalyzeTracks` | CrashTruth-FaultAnalyzer.py:105-154 | the document has the key's prefix, `fps` defaulting to 5.0, the thresholds, the risk bucket, the findings, a highest risk equal to the worst finding, and the causes inferred from the findings' flags |
| `Sorting.SortBy` | CrashTruth-ReportGenerator.py:41-49 | `sorted` returns a permutation of its input |
| `Sorting.SortBySorted` | CrashTruth-ReportGenerator.py:41-49 | under a total preorder key, `sorted` output is ordered |
| `Sorting.SortByOfSorted` | CrashTruth-Tracker.py:109 | sorting an already ordered list leaves it unchanged |
| `Sorting.SortByHead` | CrashTruth-ReportGenerator.py:50 | `sorted(...)[0]` is the first element of least key in input order |
| `Sorting.SortByHeadIsMin` | CrashTruth-ReportGenerator.py:50 | `sorted(...)[0]` equals `min(...)` with the same key |
| `Sorting.FirstLeastUnique` | CrashTruth-ReportGenerator.py:55-57 | the first element of least key is unique |
| `Sorting.MinIndexIsFirstLeast` | CrashTruth-ReportGenerator.py:55-57 | `min` with a key returns the first element of least key |
| `Sorting.Take` | CrashTruth-ReportGenerator.py:85 | `[:n]` keeps the first min(n, len) elements |
| `Sorting.SortedPrefixKeepsLeast` | CrashTruth-ReportGenerator.py:85 | a prefix of a sorted list is part of it, and every element after it is ordered no earlier than its last element |
| `Sorting.MapSortBy` | CrashTruth-Tracker.py:52 | sorting permutes the elements, so the images of the sorted list under any function are, as a multiset, those of the input |
| `Sorting.SumOfSortBy` | CrashTruth-Tracker.py:52 | sorting does not change a sum over the elements |
| `Sorting.TakeSortedKeepsLeast` | CrashTruth-ReportGenerator.py:81-90 | `sorted(xs, key=...)[:n]` is a sub-multiset of `xs`, and every element it leaves out is ordered no earlier than the last one it keeps |
| `Sorting.Filter` | CrashTruth-ReportGenerator.py:74-76 | a comprehension keeps exactly the elements satisfying its condition |
| `Sorting.FilteredLeast` | CrashTruth-ReportGenerator.py:52-57 | `min` over a filtered list is a member satisfying the filter, of least key among all such |
| `Sorting.FilterPartition` | CrashTruth-ReportGenerator.py:74-76 | three disjoint, exhaustive filters split a list into parts whose sizes add up |
| `ReportGenerator.PrimaryLeTotalPreorder` | CrashTruth-ReportGenerator.py:41-49 | the tuple key (TTC or 1e9, -cut-in, -hard-approach, -speed) is a total preorder |
| `ReportGenerator.TtcLeTotalPreorder` | CrashTruth-ReportGenerator.py:55-57 | ordering by TTC, missing as 1e9, is a total preorder |
| `ReportGenerator.PickPrimaryAndStruck` | CrashTruth-ReportGenerator.py:26-59 | no primary exactly when there are no findings, and then no struck vehicle either |
| `ReportGenerator.PrimaryIsFirstLeast` | CrashTruth-ReportGenerator.py:41-50 | the primary is the first finding of least tuple key |
| `ReportGenerator.StruckExists` | CrashTruth-ReportGenerator.py:52-57 | there is a struck vehicle exactly when some finding is very slow or at most 20 px/s |
| `ReportGenerator.StruckIsFirstLeast` | CrashTruth-ReportGenerator.py:52-57 | the struck vehicle is a slow finding with the least TTC among slow findings, the first such |
| `ReportGenerator.StruckMayLackTtc` | CrashTruth-ReportGenerator.py:55-57 | a slow finding without TTC can be the struck vehicle |
| `Text.Lower` | CrashTruth-ReportGenerator.py:67 | ASCII `lower()`: same length, each upper-case letter lowered |
| `Text.LowerOfLower` | CrashTruth-ReportGenerator.py:67 | a string without upper-case letters is its own lower case |
| `ReportGenerator.MissingRiskIsLow` | CrashTruth-ReportGenerator.py:67 | a finding without risk counts as low |
| `ReportGenerator.ComputeStats` | CrashTruth-ReportGenerator.py:61-132 | the total is the number of findings and each risk count is at most the total; `fps`, `causes_overall`, `thresholds` and `summary` are passed through from the input |
| `ReportGenerator.CountsAddUp` | CrashTruth-ReportGenerator.py:74-76 | when every risk reads high, medium or low, the three counts add up to the total |
| `ReportGenerator.AnalyzerRisk` | CrashTruth-ReportGenerator.py:67 | a risk written by the analyzer reads back as high, medium or low |
| `ReportGenerator.AnalyzerCountsAddUp` | CrashTruth-ReportGenerator.py:74-129 | for the document the analyzer writes, the three risk counts add up to the number of findings, and the statistics carry its causes, thresholds and summary |
| `ReportGenerator.TtcEntries` | CrashTruth-ReportGenerator.py:78 | no more TTC entries than findings |
| `ReportGenerator.WorstTtcMeaning` | CrashTruth-ReportGenerator.py:78-79 | `worst_ttc` is empty exactly when no finding has a TTC; otherwise it names a finding with that TTC, the least, and every entry before it has a strictly greater TTC, so on ties it is the first, as `min` returns |
| `ReportGenerator.SpeedGeTotalPreorder` | CrashTruth-ReportGenerator.py:81-84 | ordering by descending speed is a total preorder |
| `ReportGenerator.FastestMeaning` | CrashTruth-ReportGenerator.py:81-85 | `fastest_tracks` has min(5, n) entries with non-increasing speeds, each a finding's pair, no pair used more often than it occurs; the first is at least as fast as every finding, and every pair left out is no faster than the last one kept |
| `ReportGenerator.FastestKeepsFastest` | CrashTruth-ReportGenerator.py:81-85 | the kept entries are a sub-multiset of the (track id, speed) pairs, and every pair left out is no faster than the last one kept |
| `ReportGenerator.FastestOrder` | CrashTruth-ReportGenerator.py:81-85 | min(5, n) entries with non-increasing speeds, each a finding's pair, the first at least as fast as every finding |
| `ReportGenerator.RiskyLeTotalPreorder` | CrashTruth-ReportGenerator.py:87-90 | the key (TTC or 1e9, -speed) is a total preorder |
| `ReportGenerator.TopRiskyMeaning` | CrashTruth-ReportGenerator.py:87-90 | `top_risky` has min(8, n) findings in key order, a sub-multiset of the input, the first of least key, and every finding left out ranks no earlier than the last one kept |
| `ReportGenerator.TopRiskyOrder` | CrashTruth-ReportGenerator.py:87-90 | min(8, n) findings in key order, all from the input, the first of least key |
| `ReportGenerator.TopRiskyKeepsLeast` | CrashTruth-ReportGenerator.py:87-90 | the kept findings are a sub-multiset of the input, and every finding left out ranks no earlier than the last one kept |
| `ReportGenerator.VideoIdAndWeaving` | CrashTruth-ReportGenerator.py:64-98 | the video id is slash-free and the prefix is it or ends with "/" and it; the weaving count counts "lateral_instability" |
| `Progress.Percentage` | lambda_getCloudWatch/lambda_function.py:526-530 | non-negative; 0 for a zero total; otherwise exactly `processed / total * 100`, at most 100 when processed does not exceed the total |
| `Progress.LevelOf` | lambda_getCloudWatch/lambda_function.py:555-562 | the level is 1 to 4, and level l covers percentages in (25(l-1), 25l] with level 1 open below and level 4 open above |
| `Progress.LevelMonotone` | lambda_getCloudWatch/lambda_function.py:555-562 | a larger percentage never gives a lower level |
| `Progress.LevelMonotoneInProcessed` | lambda_getCloudWatch/lambda_function.py:526-562 | for a fixed total, more processed frames never lower the level |
| `Progress.LevelMonotoneInRatio` | lambda_getCloudWatch/lambda_function.py:526-562 | a larger processed/total ratio never gives a lower level |
| `Progress.FinishedIsLevelFour` | lambda_getCloudWatch/lambda_function.py:526-562 | all frames processed is level 4 |
| `Progress.ClockSeconds` | lambda_getCloudWatch/lambda_function.py:534 | a readable `HH:MM:SS` is under 86400 seconds |
| `Progress.AgeRange` | lambda_getCloudWatch/lambda_function.py:538-547 | the age of a message is in [0, 1 day): the time difference, plus a day when the clock is ahead of now |
| `Progress.RecentAcrossMidnight` | lambda_getCloudWatch/lambda_function.py:543-548 | a message logged at 23:59:30 is recent at 00:00:10 |
| `Progress.UnreadableClockIsRecent` | lambda_getCloudWatch/lambda_function.py:550-552 | a clock that cannot be parsed counts as recent |
| `Progress.ParseProgressLevel` | lambda_getCloudWatch/lambda_function.py:485-581 | level 0 exactly when neither pattern matched, and then all fields empty; otherwise the percentage and its level; the bracketed form carries its counts, its recency and its clock, the plain form its counts, recent, no clock |
| `Progress.ZeroTotalIsLevelOne` | lambda_getCloudWatch/lambda_function.py:496-509 | a matched message with total 0 is level 1 at 0% |
| `Progress.RecentIsMatched` | lambda_getCloudWatch/lambda_function.py:564-581 | a recent result came from a matched message, so its level is 1 to 4 |
| `Progress.ParseInt` | lambda_getCloudWatch/lambda_function.py:623 | `int(s)` succeeds exactly on an optional sign followed by decimal digits |
| `Progress.DigitsRoundTrip` | lambda_getCloudWatch/lambda_function.py:623 | reading back the decimal digits of n gives n |
| `Progress.RenderRoundTrip` | lambda_getCloudWatch/lambda_function.py:623 | `int(str(n)) == n` for every integer |
| `Progress.Trunc` | lambda_getCloudWatch/lambda_function.py:632 | `int(x)` truncates toward zero |
| `Progress.ParseTimestamp` | lambda_getCloudWatch/lambda_function.py:584-634 | milliseconds exactly for ints, floats, ISO strings and integer strings; an unsupported type and an unreadable string raise their errors; an ISO string gives its own value |
| `Progress.SecondsAndMillisAgree` | lambda_getCloudWatch/lambda_function.py:602-607 | a seconds value and the same instant in milliseconds parse alike |
| `Progress.ParseIdempotentOnMillis` | lambda_getCloudWatch/lambda_function.py:602-607 | parsing a result of 10^10 or more again gives it back |
| `Progress.DecimalStringAgreesWithInt` | lambda_getCloudWatch/lambda_function.py:612-626 | a decimal string that `fromisoformat` does not accept parses like the integer it denotes |
| `Progress.WholeFloatSecondsAgree` | lambda_getCloudWatch/lambda_function.py:631-632 | a whole float of seconds parses like the integer |
| `Progress.FloatAboveThresholdIsScaled` | lambda_getCloudWatch/lambda_function.py:631-632 | a float is always scaled by 1000, even at 10^10 where the integer is not |
| `Progress.NewerOrSameTotalPreorder` | lambda_getCloudWatch/lambda_function.py:318 | ordering events newest first is a total preorder |
| `Progress.LatestIsNewest` | lambda_getCloudWatch/lambda_function.py:269 | `max(events, key=timestamp)` is an event with the greatest timestamp, the first such |
| `Progress.FetchLimit` | lambda_getCloudWatch/lambda_function.py:245 | the fetch limit never exceeds 10000 |
| `Progress.FirstStopFrom` | lambda_getCloudWatch/lambda_function.py:291-315 | the first response from m on after which the loop stops |
| `Progress.PagesRead` | lambda_getCloudWatch/lambda_function.py:291-315 | the loop reads at least one response and no more than there are |
| `Progress.PagesReadIsFirstStop` | lambda_getCloudWatch/lambda_function.py:308-315 | the loop stops after the first response that has no next token or brings the events to the fetch limit |
| `Progress.FirstStopIsUnique` | lambda_getCloudWatch/lambda_function.py:291-315 | that first stopping point is unique |
| `Progress.CollectEvents` | lambda_getCloudWatch/lambda_function.py:288-315 | the pagination loop collects the events of exactly the responses it reads |
| `Progress.FirstRecent` | lambda_getCloudWatch/lambda_function.py:321-343 | the scan loop computes `FirstRecentIndex` |
| `Progress.FirstRecentFrom` | lambda_getCloudWatch/lambda_function.py:321-328 | from a position on, the index of the first recent event: it is recent and none before it is; none when no event from there is recent |
| `Progress.FirstRecentIsNewest` | lambda_getCloudWatch/lambda_function.py:318-328 | in the newest-first order, the first recent event is at least as new as every recent event |
| `Progress.FetchLogs` | lambda_getCloudWatch/lambda_function.py:207-353 | the queries, the pagination loop, the sort and the scan compute `Selected` |
| `Progress.SelectedMeaning` | lambda_getCloudWatch/lambda_function.py:255-353 | an "already exists" event gives level 4 at 100% with the latest such event; otherwise a recent collected event that no recent collected event is newer than, with its parsed level 1 to 4 and counts; not found, level 0, exactly when no collected event is recent |
| `Progress.ReportCheck` | lambda_getCloudWatch/lambda_function.py:431-448 | a report is found exactly when some "Report generated" event exists |
| `Progress.ApplyReportCheck` | lambda_getCloudWatch/lambda_function.py:104-122 | the handler's in-place update computes `Gate` |
| `Progress.GateLevelFourNeedsReport` | lambda_getCloudWatch/lambda_function.py:104-122 | after the gate, level 4 stands only with a generated report, whose message it carries |
| `Progress.GateOnlyLowersFour` | lambda_getCloudWatch/lambda_function.py:104-122 | the gate never raises the level, lowers it only from 4 to 3 when no report exists, and keeps the event and its counts |
| `Progress.Handle` | lambda_getCloudWatch/lambda_function.py:101-129 | the result is the report gate applied to the selected event; a found level 4 without a report becomes level 3 at 75% with the waiting status and the same event; any other level passes through unchanged; level 4 stands only with a generated report, whose latest message it carries |

## Left out

- Storage and services. The AWS calls (S3 reads and writes, CloudWatch
  `filter_log_events`, STS role assumption, Bedrock) are not modelled.
  Their inputs become parameters:
  - the frames, tracks and findings that were read;
  - the log-event pages;
  - the "already exists" and "Report generated" events.

  Their outputs become return values.
- JSON parsing and serialisation, the event records, environment
  variables and `print`. The thresholds are a `Thresholds` value, with
  the defaults as a constant.
- The HTTP responses: status codes, CORS headers and the 400/500 error
  bodies of the handlers.
- Report rendering. `fetch_report_from_s3` and the report text are not
  part of this model. That text is what the report generator builds
  after `compute_stats` (`fmt_track`, the Bedrock prompt, the text file).
- `CrashTruth-AnalyzeFrames.py`, `ExtractFramesTrigger.py` and the web
  frontend and backend are not part of this model.
- `round(..., 2)` on speeds, TTCs and percentages is not modelled. Each
  value is kept exact.
- `math.hypot` is the parameter `norm`. `statistics.pstdev(cxs) >= m` is
  stated as `m <= 0` or `variance >= m * m`. Floating point is modelled
  as exact reals.
- The regular expressions of `parse_progress_level` are not modelled. A
  message arrives with what they captured (`Scan`).
- Time sources:
  - `datetime.now()` is the parameter `now`, in seconds since midnight.
  - `datetime.fromisoformat` is an input: the milliseconds of a readable
    ISO string, or none.
- Python's `int()` on strings is modelled as an optional sign followed by
  ASCII digits. Whitespace, underscores and non-ASCII digits are not
  modelled. A `bool` passed as a timestamp counts as an integer in Python
  and is not modelled.
- `fetch_logs_after_timestamp`:
  - The `if not timestamp` default and the query's start and end times
    are not modelled. They only shape which events CloudWatch returns,
    and those events are inputs.
  - A failing "already exists" query behaves as no such event: the
    `alreadyExists` input is empty.
  - A failing "Report generated" query in `check_report_generated`
    behaves as no report: the `reportEvents` input is empty. The error
    text is not modelled.
  - The returned dictionary keeps the fields the model reasons about.
    `timestamp_iso`, `logStreamName`, `searched_from` and the message
    texts are not modelled.
- Text details:
  - `lower()` is modelled for ASCII letters only.
  - A missing field reads as its default (`None` in the model), and the
    model reads an explicit JSON `null` the same way. The source agrees
    for `min_ttc_s` (`CrashTruth-FaultAnalyzer.py:22`, `:25` and
    `:122-123`, `CrashTruth-ReportGenerator.py:32` and `:69`), for the
    heights `h` (`CrashTruth-FaultAnalyzer.py:43-44`, where `null` is
    falsy) and for the report generator's `fps`
    (`CrashTruth-ReportGenerator.py:63`, passed on as `None`).
  - The source raises on `null` where the model reads the default: the
    box and its coordinates (`CrashTruth-Tracker.py:60-64`), the
    analyzer's `fps` (`CrashTruth-FaultAnalyzer.py:19`),
    `mean_speed_pxps` (`CrashTruth-FaultAnalyzer.py:27`, `:83` and
    `:123`, `CrashTruth-ReportGenerator.py:36` and `:72`), `risk`
    (`CrashTruth-ReportGenerator.py:67`) and `flags`
    (`CrashTruth-ReportGenerator.py:39` and `:93`).
  - The source passes `null` on where the model writes the default: a
    `null` `causes`, `thresholds` or `summary` reaches the report as
    `null` rather than `[]` or `{}` (`CrashTruth-ReportGenerator.py:127-129`),
    and a `null` `video_prefix` gives `video_id` `None` rather than the
    empty string (`CrashTruth-ReportGenerator.py:64-65`).
  - The reasons of `risk_bucket` are an enumeration, not their rendered
    text.
  - The analyzer's always-`None` `lateral_std_px` is not modelled.
- `Tracker.TrackVideo`: requires every car box to be well-formed
  (`xmin <= xmax`, `ymin <= ymax`). For other boxes the source's IoU
  denominator can reach zero and raise `ZeroDivisionError`, and that
  path is not modelled.
- `Tracker.TrackVideo`: requires a non-zero `FPS`. With `FPS` 0 the
  source raises `ZeroDivisionError` at `CrashTruth-Tracker.py:113` as
  soon as some track has two states; that path is not modelled. A run
  in which no track has two states (no cars, or only one-state tracks)
  does not divide, and succeeds with `"fps": 0.0`; the requires leaves
  those runs out of the model too.
- `ReportGenerator.FastestMeaning`: does not state the order among equal
  speeds. Python's stable sort keeps input order there; `Sorting.SortBy`
  is a stable insertion sort, but its stability is proved only for the
  first element (`Sorting.SortByHead`).
- `ReportGenerator.TopRiskyMeaning`: does not state the order among
  findings with equal keys, for the same reason.
