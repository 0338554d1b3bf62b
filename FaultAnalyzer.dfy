/**
 * The behaviour flagger and risk ladder of `CrashTruth-FaultAnalyzer.py`.
 *
 * Each track read back from `tracks.json` is flagged by five threshold
 * rules over a recomputed series of times to collision (from the box
 * heights) and of centre-x positions; the video's risk is the worst of the
 * per-track risks, and the flags of all tracks are mapped to causes.  The
 * module constants are one `Thresholds` record.
 */
module FaultAnalyzer {

  import opened Common
  import opened Geometry
  import opened Text
  import Sorting
  import Stats

  /** `TTC_DANGER_S`, `TTC_WARN_S`, `SPEED_FAST_PXPS`, `LOW_TTC_FRAMES`, ... */
  datatype Thresholds = Thresholds(
    ttcDanger: real, ttcWarn: real, speedFast: real, lowTtcFrames: int,
    ttcDrop: real, lateralStdMin: real, cutinTtc: real, speedSlow: real)

  /** The values used when the environment sets none of them. */
  const Defaults := Thresholds(2.5, 4.0, 180.0, 3, 1.0, 5.0, 2.2, 20.0)

  /** A state as read back from `tracks.json`; `h` and `cx` may be absent. */
  datatype StateDoc = StateDoc(idx: int, h: Option<real>, cx: Option<real>)

  /** A track as read back: `min_ttc_s` may be null, `mean_speed_pxps` absent. */
  datatype TrackDoc = TrackDoc(id: int, states: seq<StateDoc>, minTtc: Option<real>, meanSpeed: Option<real>)

  /* ---------- The risk ladder ---------- */

  datatype Risk = Low | Medium | High

  function Rank(r: Risk): nat {
    match r
    case Low => 0
    case Medium => 1
    case High => 2
  }

  function Worse(a: Risk, b: Risk): Risk {
    if Rank(a) >= Rank(b) then a else b
  }

  /** The reasons `risk_bucket` gives, without their rendering as text. */
  datatype Reason = DangerTtc | WarnTtc | HighSpeed | NoCriticalFlags

  datatype Bucket = Bucket(risk: Risk, reasons: seq<Reason>)

  predicate Danger(t: TrackDoc, c: Thresholds) {
    t.minTtc.Some? && t.minTtc.value <= c.ttcDanger
  }

  predicate Warn(t: TrackDoc, c: Thresholds) {
    t.minTtc.Some? && t.minTtc.value <= c.ttcWarn
  }

  predicate Fast(t: TrackDoc, c: Thresholds) {
    t.meanSpeed.GetOr(0.0) >= c.speedFast
  }

  /** `risk_bucket(tracks)`. */
  function RiskBucket(tracks: seq<TrackDoc>, c: Thresholds): (r: Bucket)
    ensures r.risk == High <==> exists k :: 0 <= k < |tracks| && Danger(tracks[k], c)
    ensures r.risk == High ==> r.reasons == [DangerTtc]
    ensures r.risk == Medium ==> r.reasons == [WarnTtc] || r.reasons == [HighSpeed] || r.reasons == [WarnTtc, HighSpeed]
    ensures r.risk != High ==> (WarnTtc in r.reasons <==> exists k :: 0 <= k < |tracks| && Warn(tracks[k], c))
    ensures r.risk != High ==> (HighSpeed in r.reasons <==> exists k :: 0 <= k < |tracks| && Fast(tracks[k], c))
    ensures r.risk == Low <==> r.reasons == [NoCriticalFlags]
  {
    if exists k :: 0 <= k < |tracks| && Danger(tracks[k], c) then Bucket(High, [DangerTtc])
    else
      var reasons :=
        (if exists k :: 0 <= k < |tracks| && Warn(tracks[k], c) then [WarnTtc] else [])
        + (if exists k :: 0 <= k < |tracks| && Fast(tracks[k], c) then [HighSpeed] else []);
      if reasons != [] then Bucket(Medium, reasons) else Bucket(Low, [NoCriticalFlags])
  }

  /** The per-track ladder of the handler. */
  function TrackRisk(t: TrackDoc, c: Thresholds): Risk {
    if Danger(t, c) then High
    else if Warn(t, c) || Fast(t, c) then Medium
    else Low
  }

  /** The worst per-track risk, `Low` for no tracks. */
  function WorstRisk(tracks: seq<TrackDoc>, c: Thresholds): Risk {
    if tracks == [] then Low
    else Worse(WorstRisk(tracks[..|tracks| - 1], c), TrackRisk(tracks[|tracks| - 1], c))
  }

  lemma {:induction false} WorstRiskIsHigh(tracks: seq<TrackDoc>, c: Thresholds)
    ensures WorstRisk(tracks, c) == High <==> exists k :: 0 <= k < |tracks| && Danger(tracks[k], c)
    ensures WorstRisk(tracks, c) != Low <==> exists k :: 0 <= k < |tracks| && (Danger(tracks[k], c) || Warn(tracks[k], c) || Fast(tracks[k], c))
  {
    if tracks != [] {
      var init := tracks[..|tracks| - 1];
      WorstRiskIsHigh(init, c);
      assert forall k :: 0 <= k < |init| ==> init[k] == tracks[k];
    }
  }

  /** The overall bucket is the worst of the per-track risks. */
  lemma RiskBucketIsWorst(tracks: seq<TrackDoc>, c: Thresholds)
    ensures RiskBucket(tracks, c).risk == WorstRisk(tracks, c)
    ensures tracks == [] ==> RiskBucket(tracks, c).risk == Low
  {
    WorstRiskIsHigh(tracks, c);
  }

  /* ---------- The recomputed series ---------- */

  predicate IdxLe(a: StateDoc, b: StateDoc) {
    a.idx <= b.idx
  }

  lemma IdxLeTotalPreorder()
    ensures Sorting.TotalPreorder(IdxLe)
  {
  }

  /** `sorted(t.get("states", []), key=lambda s: s["idx"])` */
  function SortedStates(states: seq<StateDoc>): (r: seq<StateDoc>)
    ensures |r| == |states| && multiset(r) == multiset(states)
    ensures Sorting.Sorted(r, IdxLe)
  {
    IdxLeTotalPreorder();
    Sorting.SortBySorted(states, IdxLe);
    Sorting.SortBy(states, IdxLe)
  }

  /** The defined times to collision and the centre-x samples. */
  datatype FlagSeries = FlagSeries(ttcs: seq<real>, cxs: seq<real>)

  /** The time step of a transition; the frame rate is floored at `Eps`. */
  function TimeStep(a: StateDoc, b: StateDoc, fps: real): (dt: real)
    ensures dt > 0.0 <==> b.idx > a.idx
  {
    var d := (b.idx - a.idx) as real;
    var f := Max(Eps, fps);
    assert d / f * f == d;
    d / f
  }

  /**
   * The series after the first n transitions: a transition with no positive
   * time step is dropped; otherwise it adds the centre x of its second state
   * (0.0 when absent) and, when both heights are present and positive and
   * the object approaches, a time to collision.
   */
  function SeriesUpTo(states: seq<StateDoc>, fps: real, n: nat): (r: FlagSeries)
    requires n <= NumPairs(|states|)
    ensures |r.ttcs| <= |r.cxs| <= n
    ensures forall i :: 0 <= i < |r.ttcs| ==> r.ttcs[i] > 0.0
  {
    if n == 0 then FlagSeries([], [])
    else
      var p := SeriesUpTo(states, fps, n - 1);
      var a, b := states[n - 1], states[n];
      var dt := TimeStep(a, b, fps);
      if dt <= 0.0 then p
      else
        var ttc := if a.h.Some? && b.h.Some? then TtcFromHeights(a.h.value, b.h.value, dt) else None;
        FlagSeries(if ttc.Some? then p.ttcs + [ttc.value] else p.ttcs, p.cxs + [b.cx.GetOr(0.0)])
  }

  function TrackSeries(t: TrackDoc, fps: real): FlagSeries {
    var states := SortedStates(t.states);
    SeriesUpTo(states, fps, NumPairs(|states|))
  }

  /**
   * When every transition moves forward in time, the centre-x series holds
   * the centre of every state but the first.
   */
  lemma {:induction false} CxsFromSecondState(states: seq<StateDoc>, fps: real, n: nat)
    requires n <= NumPairs(|states|)
    requires forall i :: 0 < i < |states| ==> states[i - 1].idx < states[i].idx
    ensures |SeriesUpTo(states, fps, n).cxs| == n
    ensures forall i :: 0 <= i < n ==> SeriesUpTo(states, fps, n).cxs[i] == states[i + 1].cx.GetOr(0.0)
  {
    if n > 0 {
      CxsFromSecondState(states, fps, n - 1);
    }
  }

  /* ---------- The five rules ---------- */

  const LowTtcSustained := "low_ttc_sustained"
  const HardApproach := "hard_approach"
  const LateralInstability := "lateral_instability"
  const SuddenCutin := "sudden_cutin"
  const VerySlowTrack := "very_slow_track"

  const FlagNames := [HardApproach, LateralInstability, LowTtcSustained, SuddenCutin, VerySlowTrack]

  /** The five names differ (their lengths already do). */
  lemma FlagNamesDistinct()
    ensures Distinct(FlagNames)
  {
    assert |HardApproach| == 13 && |LateralInstability| == 19 && |LowTtcSustained| == 17;
    assert |SuddenCutin| == 12 && |VerySlowTrack| == 15;
  }

  /** `low_ttc_run` after the first n samples: the current run of samples at most `warn`. */
  function RunAfter(ttcs: seq<real>, warn: real, n: nat): nat
    requires n <= |ttcs|
  {
    if n == 0 then 0
    else if ttcs[n - 1] <= warn then RunAfter(ttcs, warn, n - 1) + 1
    else 0
  }

  /** The streak loop breaks: after some sample the run reaches `frames`. */
  predicate SustainedLow(ttcs: seq<real>, warn: real, frames: int) {
    exists n :: 1 <= n <= |ttcs| && RunAfter(ttcs, warn, n) >= frames
  }

  /** `len` samples from index i on, each at most `warn`. */
  predicate LowWindow(ttcs: seq<real>, warn: real, i: nat, len: nat)
    requires i + len <= |ttcs|
  {
    forall j :: i <= j < i + len ==> ttcs[j] <= warn
  }

  /** The run after n samples reaches m iff the last m of them are all low. */
  lemma {:induction false} RunAfterWindow(ttcs: seq<real>, warn: real, n: nat, m: nat)
    requires m <= n <= |ttcs|
    ensures RunAfter(ttcs, warn, n) >= m <==> LowWindow(ttcs, warn, n - m, m)
  {
    if m > 0 {
      RunAfterWindow(ttcs, warn, n - 1, m - 1);
    }
  }

  lemma RunAfterAtMost(ttcs: seq<real>, warn: real, n: nat)
    requires n <= |ttcs|
    ensures RunAfter(ttcs, warn, n) <= n
  {
  }

  /** With a positive streak length the flag means a window of low samples. */
  lemma SustainedLowWindow(ttcs: seq<real>, warn: real, frames: int)
    requires frames >= 1
    ensures SustainedLow(ttcs, warn, frames)
        <==> exists i :: 0 <= i && i + frames <= |ttcs| && LowWindow(ttcs, warn, i, frames)
  {
    if SustainedLow(ttcs, warn, frames) {
      var n :| 1 <= n <= |ttcs| && RunAfter(ttcs, warn, n) >= frames;
      RunAfterAtMost(ttcs, warn, n);
      RunAfterWindow(ttcs, warn, n, frames);
      assert LowWindow(ttcs, warn, n - frames, frames);
    }
    if exists i :: 0 <= i && i + frames <= |ttcs| && LowWindow(ttcs, warn, i, frames) {
      var i :| 0 <= i && i + frames <= |ttcs| && LowWindow(ttcs, warn, i, frames);
      RunAfterWindow(ttcs, warn, i + frames, frames);
      assert RunAfter(ttcs, warn, i + frames) >= frames;
    }
  }

  /** A streak length of zero or less is reached by the first sample. */
  lemma SustainedLowNonPositive(ttcs: seq<real>, warn: real, frames: int)
    requires frames <= 0
    ensures SustainedLow(ttcs, warn, frames) <==> ttcs != []
  {
    if ttcs != [] {
      assert RunAfter(ttcs, warn, 1) >= frames;
    }
  }

  /** The adjacent pair at i drops by `ttcDrop` or more into the warning band. */
  predicate DropAt(ttcs: seq<real>, i: nat, c: Thresholds)
    requires i + 1 < |ttcs|
  {
    ttcs[i] - ttcs[i + 1] >= c.ttcDrop && ttcs[i + 1] <= c.ttcWarn
  }

  predicate HardDrop(ttcs: seq<real>, c: Thresholds) {
    exists i :: 0 <= i && i + 1 < |ttcs| && DropAt(ttcs, i, c)
  }

  /** `max(2, LOW_TTC_FRAMES)` */
  function EarlyCount(c: Thresholds): int {
    if 2 >= c.lowTtcFrames then 2 else c.lowTtcFrames
  }

  /** The least of the first `max(2, LOW_TTC_FRAMES)` samples is at most `cutinTtc`. */
  predicate CutIn(ttcs: seq<real>, c: Thresholds) {
    var early := Sorting.Take(ttcs, EarlyCount(c));
    early != [] && Stats.MinOf(early).value <= c.cutinTtc
  }

  lemma CutInEarlySample(ttcs: seq<real>, c: Thresholds)
    ensures CutIn(ttcs, c) <==> exists i :: 0 <= i < |ttcs| && i < EarlyCount(c) && ttcs[i] <= c.cutinTtc
  {
    var early := Sorting.Take(ttcs, EarlyCount(c));
    if early != [] {
      Stats.MinOfAtMost(early, c.cutinTtc);
    }
  }

  /** At least four centre samples whose population deviation reaches the minimum. */
  predicate Weaving(cxs: seq<real>, c: Thresholds) {
    |cxs| >= 4 && Stats.StdAtLeast(cxs, c.lateralStdMin)
  }

  predicate VerySlow(t: TrackDoc, c: Thresholds) {
    t.meanSpeed.GetOr(0.0) <= c.speedSlow
  }

  /** `xs.append(x)` when `b` holds. */
  function AppendIf(xs: seq<string>, b: bool, x: string): seq<string> {
    if b then xs + [x] else xs
  }

  /** The flags in the order the rules append them. */
  function RawFlags(t: TrackDoc, s: FlagSeries, c: Thresholds): seq<string> {
    var low := AppendIf([], SustainedLow(s.ttcs, c.ttcWarn, c.lowTtcFrames), LowTtcSustained);
    var hard := AppendIf(low, HardDrop(s.ttcs, c), HardApproach);
    var weave := AppendIf(hard, Weaving(s.cxs, c), LateralInstability);
    var cut := AppendIf(weave, CutIn(s.ttcs, c), SuddenCutin);
    AppendIf(cut, VerySlow(t, c), VerySlowTrack)
  }

  /** `flags_for_track(t, fps)`: the fired rules' flags, sorted and each once. */
  function TrackFlags(t: TrackDoc, fps: real, c: Thresholds): seq<string> {
    SortedSet(RawFlags(t, TrackSeries(t, fps), c))
  }

  /**
   * The flags of a track are sorted, each appears once, all are among the
   * five names, and each appears exactly when its rule fires.
   */
  lemma TrackFlagsMeaning(t: TrackDoc, fps: real, c: Thresholds)
    ensures var r := TrackFlags(t, fps, c);
            && StrictlySorted(r)
            && (forall f :: f in r ==> f in FlagNames)
            && var s := TrackSeries(t, fps);
            && (LowTtcSustained in r <==> SustainedLow(s.ttcs, c.ttcWarn, c.lowTtcFrames))
            && (HardApproach in r <==> HardDrop(s.ttcs, c))
            && (LateralInstability in r <==> Weaving(s.cxs, c))
            && (SuddenCutin in r <==> CutIn(s.ttcs, c))
            && (VerySlowTrack in r <==> VerySlow(t, c))
  {
    RawFlagsMembers(t, TrackSeries(t, fps), c);
  }

  lemma RawFlagsMembers(t: TrackDoc, s: FlagSeries, c: Thresholds)
    ensures forall f :: f in RawFlags(t, s, c) ==> f in FlagNames
    ensures LowTtcSustained in RawFlags(t, s, c) <==> SustainedLow(s.ttcs, c.ttcWarn, c.lowTtcFrames)
    ensures HardApproach in RawFlags(t, s, c) <==> HardDrop(s.ttcs, c)
    ensures LateralInstability in RawFlags(t, s, c) <==> Weaving(s.cxs, c)
    ensures SuddenCutin in RawFlags(t, s, c) <==> CutIn(s.ttcs, c)
    ensures VerySlowTrack in RawFlags(t, s, c) <==> VerySlow(t, c)
  {
    FlagNamesDistinct();
  }

  /** The pair loop of `flags_for_track`, over the states sorted by index. */
  method CollectSeries(states: seq<StateDoc>, fps: real) returns (ttcs: seq<real>, cxs: seq<real>)
    ensures FlagSeries(ttcs, cxs) == SeriesUpTo(states, fps, NumPairs(|states|))
  {
    ttcs, cxs := [], [];
    for p := 0 to NumPairs(|states|)
      invariant FlagSeries(ttcs, cxs) == SeriesUpTo(states, fps, p)
    {
      var a, b := states[p], states[p + 1];
      var dt := (b.idx - a.idx) as real / Max(Eps, fps);
      if dt <= 0.0 {
        continue;
      }
      if a.h.Some? && b.h.Some? && a.h.value > 0.0 && b.h.value > 0.0 {
        var dPrev, dCurr := 1.0 / a.h.value, 1.0 / b.h.value;
        var v := (dPrev - dCurr) / dt;
        if v > Eps {
          ttcs := ttcs + [dCurr / v];
        }
      }
      cxs := cxs + [b.cx.GetOr(0.0)];
    }
  }

  /** The `low_ttc_run` loop: it breaks once the run reaches `LOW_TTC_FRAMES`. */
  method LowStreak(ttcs: seq<real>, c: Thresholds) returns (found: bool)
    ensures found <==> SustainedLow(ttcs, c.ttcWarn, c.lowTtcFrames)
  {
    found := false;
    var run := 0;
    for i := 0 to |ttcs|
      invariant run == RunAfter(ttcs, c.ttcWarn, i)
      invariant forall n :: 1 <= n <= i ==> RunAfter(ttcs, c.ttcWarn, n) < c.lowTtcFrames
    {
      if ttcs[i] <= c.ttcWarn {
        run := run + 1;
      } else {
        run := 0;
      }
      if run >= c.lowTtcFrames {
        found := true;
        assert RunAfter(ttcs, c.ttcWarn, i + 1) >= c.lowTtcFrames;
        break;
      }
    }
  }

  /** The loop over adjacent samples: it breaks at the first hard drop. */
  method HardDropScan(ttcs: seq<real>, c: Thresholds) returns (found: bool)
    ensures found <==> HardDrop(ttcs, c)
  {
    found := false;
    for i := 0 to NumPairs(|ttcs|)
      invariant forall q :: 0 <= q < i ==> !DropAt(ttcs, q, c)
    {
      var prev, curr := ttcs[i], ttcs[i + 1];
      if prev - curr >= c.ttcDrop && curr <= c.ttcWarn {
        found := true;
        assert DropAt(ttcs, i, c);
        break;
      }
    }
  }

  /** `flags_for_track(t, fps)`: the rules append their flags, then `sorted(set(flags))`. */
  method FlagsForTrack(t: TrackDoc, fps: real, c: Thresholds) returns (flags: seq<string>)
    ensures flags == TrackFlags(t, fps, c)
  {
    var states := SortedStates(t.states);
    var ttcs, cxs := CollectSeries(states, fps);
    ghost var s := FlagSeries(ttcs, cxs);
    var raw: seq<string> := [];
    var low := LowStreak(ttcs, c);
    if low {
      raw := raw + [LowTtcSustained];
    }
    assert raw == AppendIf([], SustainedLow(s.ttcs, c.ttcWarn, c.lowTtcFrames), LowTtcSustained);
    ghost var r1 := raw;
    var hard := HardDropScan(ttcs, c);
    if hard {
      raw := raw + [HardApproach];
    }
    assert raw == AppendIf(r1, HardDrop(s.ttcs, c), HardApproach);
    ghost var r2 := raw;
    if |cxs| >= 4 && Stats.StdAtLeast(cxs, c.lateralStdMin) {
      raw := raw + [LateralInstability];
    }
    assert raw == AppendIf(r2, Weaving(s.cxs, c), LateralInstability);
    ghost var r3 := raw;
    var early := Sorting.Take(ttcs, EarlyCount(c));
    if early != [] && Stats.MinOf(early).value <= c.cutinTtc {
      raw := raw + [SuddenCutin];
    }
    assert raw == AppendIf(r3, CutIn(s.ttcs, c), SuddenCutin);
    ghost var r4 := raw;
    if t.meanSpeed.GetOr(0.0) <= c.speedSlow {
      raw := raw + [VerySlowTrack];
    }
    assert raw == AppendIf(r4, VerySlow(t, c), VerySlowTrack);
    assert raw == RawFlags(t, s, c);
    flags := SortedSet(raw);
  }

  /* ---------- Causes ---------- */

  const CutInCause := "cut_in"
  const HardApproachCause := "hard_approach"
  const StationaryObstacleAhead := "stationary_obstacle_ahead"
  const Tailgating := "tailgating"
  const WeavingCause := "weaving"

  const CauseNames := [CutInCause, HardApproachCause, StationaryObstacleAhead, Tailgating, WeavingCause]

  /** Some track's flag list contains `flag`. */
  predicate AnyHas(all: seq<seq<string>>, flag: string) {
    exists k :: 0 <= k < |all| && flag in all[k]
  }

  /** The causes in the order `infer_causes` adds them. */
  function RawCauses(all: seq<seq<string>>): seq<string> {
    var lowTtc := exists k :: 0 <= k < |all| && (LowTtcSustained in all[k] || HardApproach in all[k]);
    var tail := AppendIf([], AnyHas(all, LowTtcSustained), Tailgating);
    var hard := AppendIf(tail, AnyHas(all, HardApproach), HardApproachCause);
    var cut := AppendIf(hard, AnyHas(all, SuddenCutin), CutInCause);
    var weave := AppendIf(cut, AnyHas(all, LateralInstability), WeavingCause);
    AppendIf(weave, AnyHas(all, VerySlowTrack) && lowTtc, StationaryObstacleAhead)
  }

  lemma CauseNamesDistinct()
    ensures Distinct(CauseNames)
  {
    assert |CutInCause| == 6 && |HardApproachCause| == 13 && |StationaryObstacleAhead| == 25;
    assert |Tailgating| == 10 && |WeavingCause| == 7;
  }

  lemma RawCausesMembers(all: seq<seq<string>>)
    ensures forall x :: x in RawCauses(all) ==> x in CauseNames
    ensures Tailgating in RawCauses(all) <==> AnyHas(all, LowTtcSustained)
    ensures HardApproachCause in RawCauses(all) <==> AnyHas(all, HardApproach)
    ensures CutInCause in RawCauses(all) <==> AnyHas(all, SuddenCutin)
    ensures WeavingCause in RawCauses(all) <==> AnyHas(all, LateralInstability)
    ensures StationaryObstacleAhead in RawCauses(all)
        <==> AnyHas(all, VerySlowTrack) && (AnyHas(all, LowTtcSustained) || AnyHas(all, HardApproach))
  {
    CauseNamesDistinct();
  }

  /** `infer_causes(all_track_flags)`: each cause once, sorted. */
  function InferCauses(all: seq<seq<string>>): (r: seq<string>)
    ensures StrictlySorted(r)
    ensures forall x :: x in r ==> x in CauseNames
    ensures Tailgating in r <==> AnyHas(all, LowTtcSustained)
    ensures HardApproachCause in r <==> AnyHas(all, HardApproach)
    ensures CutInCause in r <==> AnyHas(all, SuddenCutin)
    ensures WeavingCause in r <==> AnyHas(all, LateralInstability)
    ensures StationaryObstacleAhead in r
        <==> AnyHas(all, VerySlowTrack) && (AnyHas(all, LowTtcSustained) || AnyHas(all, HardApproach))
  {
    RawCausesMembers(all);
    SortedSet(RawCauses(all))
  }

  /** `lowttc` is whether some track is flagged low-TTC or hard-approach. */
  lemma LowTtcByFlags(all: seq<seq<string>>)
    ensures (exists k :: 0 <= k < |all| && (LowTtcSustained in all[k] || HardApproach in all[k]))
        <==> AnyHas(all, LowTtcSustained) || AnyHas(all, HardApproach)
  {
  }

  /** Only the flags that occur matter, not which track carries them or in what order. */
  lemma InferCausesByFlagsPresent(all1: seq<seq<string>>, all2: seq<seq<string>>)
    requires forall f :: AnyHas(all1, f) <==> AnyHas(all2, f)
    ensures InferCauses(all1) == InferCauses(all2)
  {
    assert AnyHas(all1, LowTtcSustained) == AnyHas(all2, LowTtcSustained);
    assert AnyHas(all1, HardApproach) == AnyHas(all2, HardApproach);
    assert AnyHas(all1, SuddenCutin) == AnyHas(all2, SuddenCutin);
    assert AnyHas(all1, LateralInstability) == AnyHas(all2, LateralInstability);
    assert AnyHas(all1, VerySlowTrack) == AnyHas(all2, VerySlowTrack);
    LowTtcByFlags(all1);
    LowTtcByFlags(all2);
    assert RawCauses(all1) == RawCauses(all2);
  }

  /**
   * The stationary-obstacle cause may combine two different tracks: one
   * very slow, another approaching hard.
   */
  lemma StationaryObstacleFromTwoTracks()
    ensures InferCauses([[VerySlowTrack], [HardApproach]])
         == [HardApproachCause, StationaryObstacleAhead]
  {
    var all := [[VerySlowTrack], [HardApproach]];
    assert VerySlowTrack in all[0] && HardApproach in all[1];
    assert !AnyHas(all, LowTtcSustained);
    assert !AnyHas(all, SuddenCutin);
    assert !AnyHas(all, LateralInstability);
    StrictlySortedUnique(InferCauses(all), [HardApproachCause, StationaryObstacleAhead]);
  }

  /* ---------- The handler ---------- */

  /** One entry of `findings`. */
  datatype Finding = Finding(trackId: int, risk: Risk, flags: seq<string>, minTtc: Option<real>, meanSpeed: real)

  /** The document written to `<prefix>/faults.json`. */
  datatype FaultsDoc = FaultsDoc(
    videoPrefix: string, fps: real, highestRisk: Risk, reasons: seq<Reason>,
    causes: seq<string>, findings: seq<Finding>, thresholds: Thresholds)

  function FindingOf(t: TrackDoc, fps: real, c: Thresholds): Finding {
    Finding(t.id, TrackRisk(t, c), TrackFlags(t, fps, c), t.minTtc, t.meanSpeed.GetOr(0.0))
  }

  /** The findings of the tracks, in order. */
  function FindingsOf(tracks: seq<TrackDoc>, fps: real, c: Thresholds): (r: seq<Finding>)
    ensures |r| == |tracks|
  {
    if tracks == [] then []
    else FindingsOf(tracks[..|tracks| - 1], fps, c) + [FindingOf(tracks[|tracks| - 1], fps, c)]
  }

  /** There is one finding per track, in the order of the tracks. */
  lemma {:induction false} FindingsOfAt(tracks: seq<TrackDoc>, fps: real, c: Thresholds, k: nat)
    requires k < |tracks|
    ensures FindingsOf(tracks, fps, c)[k] == FindingOf(tracks[k], fps, c)
  {
    if k < |tracks| - 1 {
      FindingsOfAt(tracks[..|tracks| - 1], fps, c, k);
    }
  }

  /** The flag lists of the findings, in order. */
  function FlagsOf(findings: seq<Finding>): seq<seq<string>> {
    if findings == [] then [] else FlagsOf(findings[..|findings| - 1]) + [findings[|findings| - 1].flags]
  }

  lemma FindingsOfSnoc(tracks: seq<TrackDoc>, k: nat, fps: real, c: Thresholds)
    requires k < |tracks|
    ensures FindingsOf(tracks[..k + 1], fps, c) == FindingsOf(tracks[..k], fps, c) + [FindingOf(tracks[k], fps, c)]
  {
    assert tracks[..k + 1][..k] == tracks[..k];
  }

  lemma FlagsOfSnoc(findings: seq<Finding>, f: Finding)
    ensures FlagsOf(findings + [f]) == FlagsOf(findings) + [f.flags]
  {
    assert (findings + [f])[..|findings|] == findings;
  }

  /** The worst risk among the findings. */
  function WorstFinding(findings: seq<Finding>): Risk {
    if findings == [] then Low
    else Worse(WorstFinding(findings[..|findings| - 1]), findings[|findings| - 1].risk)
  }

  lemma {:induction false} WorstFindingOfTracks(tracks: seq<TrackDoc>, fps: real, c: Thresholds)
    ensures WorstFinding(FindingsOf(tracks, fps, c)) == WorstRisk(tracks, c)
  {
    if tracks != [] {
      var init := tracks[..|tracks| - 1];
      WorstFindingOfTracks(init, fps, c);
      assert FindingsOf(tracks, fps, c)[..|tracks| - 1] == FindingsOf(init, fps, c);
    }
  }

  /** The body of `for t in tracks`: the flags and the risk of one track. */
  method AnalyzeTrack(t: TrackDoc, fps: real, c: Thresholds) returns (f: Finding)
    ensures f == FindingOf(t, fps, c)
  {
    var flags := FlagsForTrack(t, fps, c);
    var risk := if Danger(t, c) then High else if Warn(t, c) || Fast(t, c) then Medium else Low;
    f := Finding(t.id, risk, flags, t.minTtc, t.meanSpeed.GetOr(0.0));
  }

  /**
   * Reads the tracks of `key` (`fps` defaults to 5.0) and builds the fault
   * document: the overall bucket, one finding per track in order, the
   * causes of all flags and the thresholds used.
   */
  method AnalyzeTracks(key: string, fpsField: Option<real>, tracks: seq<TrackDoc>, c: Thresholds)
    returns (doc: FaultsDoc)
    ensures doc.videoPrefix == BeforeLastSlash(key)
    ensures doc.fps == fpsField.GetOr(5.0) && doc.thresholds == c
    ensures Bucket(doc.highestRisk, doc.reasons) == RiskBucket(tracks, c)
    ensures doc.findings == FindingsOf(tracks, doc.fps, c)
    ensures doc.highestRisk == WorstFinding(doc.findings)
    ensures doc.causes == InferCauses(FlagsOf(doc.findings))
  {
    var prefix := BeforeLastSlash(key);
    var fps := fpsField.GetOr(5.0);
    var bucket := RiskBucket(tracks, c);
    var findings, allFlags := AnalyzeAll(tracks, fps, c);
    var causes := InferCauses(allFlags);
    RiskBucketIsWorst(tracks, c);
    WorstFindingOfTracks(tracks, fps, c);
    doc := FaultsDoc(prefix, fps, bucket.risk, bucket.reasons, causes, findings, c);
  }

  /** The loop `for t in tracks`, collecting the findings and the flag lists. */
  method AnalyzeAll(tracks: seq<TrackDoc>, fps: real, c: Thresholds)
    returns (findings: seq<Finding>, allFlags: seq<seq<string>>)
    ensures findings == FindingsOf(tracks, fps, c) && allFlags == FlagsOf(findings)
  {
    findings, allFlags := [], [];
    for k := 0 to |tracks|
      invariant findings == FindingsOf(tracks[..k], fps, c)
      invariant allFlags == FlagsOf(findings)
    {
      var f := AnalyzeTrack(tracks[k], fps, c);
      FindingsOfSnoc(tracks, k, fps, c);
      FlagsOfSnoc(findings, f);
      allFlags := allFlags + [f.flags];
      findings := findings + [f];
    }
    assert tracks[..|tracks|] == tracks;
  }
}
