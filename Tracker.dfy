/**
 * The tracking handler of `CrashTruth-Tracker.py`: the greedy IoU loop over
 * frames, the per-track speed and time-to-collision metrics, and the
 * thinning of each track's states.  The loops are proved equal to the
 * step functions of `TrackerSpec`; what those guarantee is proved in
 * `TrackerInvariants` and carried to the results here.
 */
module Tracker {

  import opened Common
  import opened Geometry
  import opened TrackerSpec
  import opened TrackerInvariants
  import Sorting
  import Stats
  import Text

  /* ---------- Tracking ---------- */

  /** `for t in tracks: if t["id"] == tid: t["states"].append(st); break` */
  method AppendState(tracks: seq<Track>, tid: nat, st: State) returns (r: seq<Track>)
    ensures r == AppendTo(tracks, tid, st)
  {
    r := tracks;
    var q := 0;
    while q < |r|
      invariant q <= |r| && r == tracks
      invariant forall p :: 0 <= p < q ==> tracks[p].id != tid
    {
      if r[q].id == tid {
        r := r[q := Track(r[q].id, r[q].states + [st])];
        return;
      }
      q := q + 1;
    }
  }

  /** The scan over a frame's boxes for the active track whose last box is `last`. */
  method BestBox(last: Box, boxes: seq<Box>, assignedIdx: set<nat>) returns (bestJ: Option<nat>, bestIou: real)
    requires WellFormed(last) && AllWellFormed(boxes)
    ensures Best(bestJ, bestIou) == BestUpTo(last, boxes, assignedIdx, |boxes|)
  {
    bestJ, bestIou := None, 0.0;
    for j := 0 to |boxes|
      invariant Best(bestJ, bestIou) == BestUpTo(last, boxes, assignedIdx, j)
    {
      if j in assignedIdx {
        continue;
      }
      var v := Iou(last, boxes[j]);
      if v > bestIou {
        bestIou, bestJ := v, Some(j);
      }
    }
  }

  /** One iteration of the loop over `list(active.items())`: match or retire entry `e`. */
  method MatchEntry(e: Entry, step: Step, thresh: real, m: Matching) returns (r: Matching)
    requires WellFormed(e.last) && AllWellFormed(step.boxes) && ActiveWellFormed(m.active)
    ensures r == MatchOne(e, step, thresh, m)
  {
    var bestJ, bestIou := BestBox(e.last, step.boxes, m.assignedIdx);
    if bestJ.Some? && bestIou >= thresh {
      var b := step.boxes[bestJ.value];
      var tracks := AppendState(m.tracks, e.id, MakeState(step, b));
      r := Matching(tracks, Put(m.active, e.id, b), m.assignedIdx + {bestJ.value});
    } else {
      r := Matching(m.tracks, Pop(m.active, e.id), m.assignedIdx);
    }
  }

  /** The loop over `list(active.items())` for one frame. */
  method MatchFrame(snap: seq<Entry>, step: Step, thresh: real, tracks0: seq<Track>) returns (m: Matching)
    requires ActiveWellFormed(snap) && AllWellFormed(step.boxes)
    ensures m == MatchUpTo(snap, step, thresh, tracks0, |snap|)
  {
    m := Matching(tracks0, snap, {});
    for k := 0 to |snap|
      invariant m == MatchUpTo(snap, step, thresh, tracks0, k)
    {
      MatchUpToNext(snap, step, thresh, tracks0, k);
      m := MatchEntry(snap[k], step, thresh, m);
    }
  }

  /** The loop that starts a track for every box of the frame left unassigned. */
  method SpawnTracks(step: Step, assignedIdx: set<nat>, t0: Tables) returns (t: Tables)
    requires AllWellFormed(step.boxes) && ActiveWellFormed(t0.active)
    ensures t == SpawnUpTo(step, assignedIdx, t0, |step.boxes|)
  {
    var tracks, active, nextId := t0.tracks, t0.active, t0.nextId;
    for j := 0 to |step.boxes|
      invariant Tables(tracks, active, nextId) == SpawnUpTo(step, assignedIdx, t0, j)
    {
      if j in assignedIdx {
        continue;
      }
      var b := step.boxes[j];
      tracks := tracks + [Track(nextId, [MakeState(step, b)])];
      active := Put(active, nextId, b);
      nextId := nextId + 1;
    }
    t := Tables(tracks, active, nextId);
  }

  /**
   * The greedy IoU tracker over the frames `steps`: every active track, in
   * the order of `active`, takes the unassigned box of the frame with the
   * strictly greatest overlap if that overlap reaches `thresh`, or is
   * retired; every box left over starts a new track.
   */
  method BuildTracks(steps: seq<Step>, thresh: real) returns (tracks: seq<Track>)
    requires StepsWellFormed(steps) && Indexed(steps)
    ensures tracks == RunUpTo(steps, thresh, |steps|).tracks
    ensures forall k :: 0 <= k < |tracks| ==>
              tracks[k].id == k + 1 && |tracks[k].states| >= 1 && Consecutive(tracks[k].states)
    ensures TotalStates(tracks) == TotalBoxes(steps)
  {
    var t := Tables([], [], 1);
    for i := 0 to |steps|
      invariant t == RunUpTo(steps, thresh, i)
    {
      var step := steps[i];
      var m := MatchFrame(t.active, step, thresh, t.tracks);
      t := SpawnTracks(step, m.assignedIdx, Tables(m.tracks, m.active, t.nextId));
    }
    tracks := t.tracks;
    RunInvariant(steps, thresh, |steps|);
    assert steps[..|steps|] == steps;
  }

  /* ---------- Per-track metrics ---------- */

  predicate StateIdxLe(a: State, b: State) {
    a.idx <= b.idx
  }

  lemma StateIdxLeTotalPreorder()
    ensures Sorting.TotalPreorder(StateIdxLe)
  {
  }

  /** `sorted(t["states"], key=lambda s: s["idx"])` */
  function SortedStates(states: seq<State>): (r: seq<State>)
    ensures |r| == |states| && multiset(r) == multiset(states)
    ensures Sorting.Sorted(r, StateIdxLe)
  {
    StateIdxLeTotalPreorder();
    Sorting.SortBySorted(states, StateIdxLe);
    Sorting.SortBy(states, StateIdxLe)
  }

  /** The speeds and the defined times to collision of a track's transitions. */
  datatype Series = Series(speeds: seq<real>, ttcs: seq<real>)

  /**
   * The series after the first n transitions: a transition whose time step
   * `(b.idx - a.idx) / fps` is not positive is skipped; otherwise it adds a
   * speed (centre displacement `norm(dx, dy)` over the time step) and, when
   * `ttc_from_heights` is defined, a time to collision.
   */
  function SeriesUpTo(states: seq<State>, fps: real, norm: (real, real) -> real, n: nat): (r: Series)
    requires fps != 0.0 && n <= NumPairs(|states|)
    ensures |r.ttcs| <= |r.speeds| <= n
    ensures forall i :: 0 <= i < |r.ttcs| ==> r.ttcs[i] > 0.0
  {
    if n == 0 then Series([], [])
    else
      var p := SeriesUpTo(states, fps, norm, n - 1);
      var a, b := states[n - 1], states[n];
      var dt := (b.idx - a.idx) as real / fps;
      if dt <= 0.0 then p
      else
        var ttc := TtcFromHeights(a.h, b.h, dt);
        Series(p.speeds + [norm(b.cx - a.cx, b.cy - a.cy) / dt],
               if ttc.Some? then p.ttcs + [ttc.value] else p.ttcs)
  }

  /** Transition n + 1 extends the series of the first n. */
  lemma SeriesNext(states: seq<State>, fps: real, norm: (real, real) -> real, n: nat)
    requires fps != 0.0 && n < NumPairs(|states|)
    ensures var p := SeriesUpTo(states, fps, norm, n);
            var a, b := states[n], states[n + 1];
            var dt := (b.idx - a.idx) as real / fps;
            SeriesUpTo(states, fps, norm, n + 1)
            == if dt <= 0.0 then p
               else
                 var ttc := TtcFromHeights(a.h, b.h, dt);
                 Series(p.speeds + [norm(b.cx - a.cx, b.cy - a.cy) / dt],
                        if ttc.Some? then p.ttcs + [ttc.value] else p.ttcs)
  {
  }

  /** A track as written to `tracks.json`. */
  datatype TrackOut = TrackOut(id: nat, states: seq<State>, meanSpeed: real, minTtc: Option<real>)

  /** The stride of `states[::max(1, len(states)//10 or 1)]`. */
  function Stride(n: nat): (k: nat)
    ensures k >= 1
    ensures n >= 10 ==> k == n / 10
    ensures n < 10 ==> k == 1
  {
    if n / 10 == 0 then 1 else n / 10
  }

  /** `s[::k]`: every k-th element, starting with the first. */
  function Thin<T>(s: seq<T>, k: nat): (r: seq<T>)
    requires k >= 1
    ensures |r| <= |s|
    ensures |s| > 0 ==> |r| > 0 && r[0] == s[0]
    decreases |s|
  {
    if s == [] then [] else [s[0]] + (if k < |s| then Thin(s[k..], k) else [])
  }

  /** i * k, counted up one stride at a time. */
  function Strided(i: nat, k: nat): (r: nat)
    ensures r == i * k
  {
    if i == 0 then 0 else MulSucc(i - 1, k); Strided(i - 1, k) + k
  }

  lemma {:induction false} ThinAtStrided<T>(s: seq<T>, k: nat, i: nat)
    requires k >= 1 && i < |Thin(s, k)|
    ensures Strided(i, k) < |s| && Thin(s, k)[i] == s[Strided(i, k)]
    decreases |s|
  {
    if i > 0 {
      assert k < |s|;
      assert Thin(s, k)[i] == Thin(s[k..], k)[i - 1];
      ThinAtStrided(s[k..], k, i - 1);
      assert s[k..][Strided(i - 1, k)] == s[Strided(i - 1, k) + k];
    }
  }

  /** Element i of the thinned sequence is element i*k of the original, in order. */
  lemma ThinAt<T>(s: seq<T>, k: nat, i: nat)
    requires k >= 1 && i < |Thin(s, k)|
    ensures i * k < |s| && Thin(s, k)[i] == s[i * k]
  {
    ThinAtStrided(s, k, i);
  }

  lemma MulSucc(i: nat, k: nat)
    ensures (i + 1) * k == i * k + k
  {
  }

  lemma MulLe(x: nat, y: nat, k: nat)
    requires x <= y
    ensures x * k <= y * k
  {
  }

  /** The thinned sequence has the fewest elements c with c*k reaching past the end. */
  lemma {:induction false} ThinLengthBounds<T>(s: seq<T>, k: nat)
    requires k >= 1 && |s| > 0
    ensures (|Thin(s, k)| - 1) * k < |s| <= |Thin(s, k)| * k
    decreases |s|
  {
    if k < |s| {
      ThinLengthBounds(s[k..], k);
      var c := |Thin(s[k..], k)|;
      assert |Thin(s, k)| == c + 1;
      MulSucc(c, k);
      if c > 0 {
        MulSucc(c - 1, k);
      }
    }
  }

  lemma DivUnique(a: nat, k: nat, q: nat)
    requires k >= 1 && q * k <= a < q * k + k
    ensures a / k == q
  {
    var q' := a / k;
    assert q' * k <= a < q' * k + k;
    if q' > q {
      MulLe(q + 1, q', k);
      MulSucc(q, k);
    } else if q' < q {
      MulLe(q' + 1, q, k);
      MulSucc(q', k);
    }
  }

  /** `len(states[::k]) == ceil(n / k)`. */
  lemma ThinLength<T>(s: seq<T>, k: nat)
    requires k >= 1
    ensures |Thin(s, k)| == (|s| + k - 1) / k
  {
    if |s| == 0 {
      DivUnique(k - 1, k, 0);
    } else {
      ThinLengthBounds(s, k);
      var c := |Thin(s, k)|;
      MulSucc(c - 1, k);
      DivUnique(|s| + k - 1, k, c);
    }
  }

  /**
   * The first state is always kept, but the last one need not be: of 22
   * states, stride 2 keeps indices 0, 2, ..., 20 and drops state 21.
   */
  lemma ThinCanDropLast<T>(s: seq<T>)
    requires |s| == 22
    ensures var r := Thin(s, Stride(|s|));
            Stride(|s|) == 2 && |r| == 11 && r[0] == s[0] && r[10] == s[20]
  {
    ThinLength(s, 2);
    ThinAt(s, 2, 10);
  }

  function MeanOrZero(xs: seq<real>): real {
    if xs == [] then 0.0 else Stats.Mean(xs)
  }

  /** The metrics and the thinned states of one track (`round` left out). */
  function TrackResult(t: Track, fps: real, norm: (real, real) -> real): TrackOut
    requires fps != 0.0
  {
    var states := SortedStates(t.states);
    var s := SeriesUpTo(states, fps, norm, NumPairs(|states|));
    TrackOut(t.id, Thin(states, Stride(|states|)), MeanOrZero(s.speeds), Stats.MinOf(s.ttcs))
  }

  /** The loop over successive pairs of a track's sorted states. */
  method TransitionSeries(states: seq<State>, fps: real, norm: (real, real) -> real) returns (s: Series)
    requires fps != 0.0
    ensures s == SeriesUpTo(states, fps, norm, NumPairs(|states|))
  {
    var speeds: seq<real> := [];
    var ttcs: seq<real> := [];
    for p := 0 to NumPairs(|states|)
      invariant Series(speeds, ttcs) == SeriesUpTo(states, fps, norm, p)
    {
      SeriesNext(states, fps, norm, p);
      var a, b := states[p], states[p + 1];
      var dt := (b.idx - a.idx) as real / fps;
      if dt <= 0.0 {
        continue;
      }
      speeds := speeds + [norm(b.cx - a.cx, b.cy - a.cy) / dt];
      var ttc := TtcFromHeights(a.h, b.h, dt);
      if ttc.Some? {
        ttcs := ttcs + [ttc.value];
      }
    }
    s := Series(speeds, ttcs);
  }

  /** The body of `for t in tracks` that fills in the metrics of track `t`. */
  method TrackMetrics(t: Track, fps: real, norm: (real, real) -> real) returns (out: TrackOut)
    requires fps != 0.0
    ensures out == TrackResult(t, fps, norm)
  {
    var states := SortedStates(t.states);
    var s := TransitionSeries(states, fps, norm);
    var mean := if |s.speeds| > 0 then Stats.Mean(s.speeds) else 0.0;
    out := TrackOut(t.id, Thin(states, Stride(|states|)), mean, Stats.MinOf(s.ttcs));
  }

  /** A track seen in a single frame has no speed and no time to collision. */
  lemma SingleStateMetrics(t: Track, fps: real, norm: (real, real) -> real)
    requires fps != 0.0 && |t.states| <= 1
    ensures TrackResult(t, fps, norm).meanSpeed == 0.0
    ensures TrackResult(t, fps, norm).minTtc == None
    ensures TrackResult(t, fps, norm).states == t.states
  {
    var states := SortedStates(t.states);
    if |t.states| == 1 {
      assert states[0] in multiset(t.states);
      assert states == t.states;
    }
  }

  /** `min_ttc_s` is the least defined TTC, and it is positive. */
  lemma MinTtcIsLeast(t: Track, fps: real, norm: (real, real) -> real)
    requires fps != 0.0
    ensures var states := SortedStates(t.states);
            var s := SeriesUpTo(states, fps, norm, NumPairs(|states|));
            var m := TrackResult(t, fps, norm).minTtc;
            && (m.None? <==> s.ttcs == [])
            && (m.Some? ==> m.value > 0.0 && m.value in s.ttcs
                            && forall i :: 0 <= i < |s.ttcs| ==> m.value <= s.ttcs[i])
  {
  }

  /** With a positive frame rate and a non-negative norm, speeds are non-negative. */
  lemma {:induction false} SpeedsNonNegative(states: seq<State>, fps: real, norm: (real, real) -> real, n: nat)
    requires fps != 0.0 && n <= NumPairs(|states|)
    requires forall x, y :: norm(x, y) >= 0.0
    ensures forall i :: 0 <= i < |SeriesUpTo(states, fps, norm, n).speeds| ==> SeriesUpTo(states, fps, norm, n).speeds[i] >= 0.0
  {
    if n > 0 {
      SpeedsNonNegative(states, fps, norm, n - 1);
    }
  }

  lemma MeanSpeedNonNegative(t: Track, fps: real, norm: (real, real) -> real)
    requires fps != 0.0
    requires forall x, y :: norm(x, y) >= 0.0
    ensures TrackResult(t, fps, norm).meanSpeed >= 0.0
  {
    var states := SortedStates(t.states);
    var s := SeriesUpTo(states, fps, norm, NumPairs(|states|));
    SpeedsNonNegative(states, fps, norm, NumPairs(|states|));
    if s.speeds != [] {
      Stats.MeanAtLeast(s.speeds, 0.0);
    }
  }

  /** States with consecutive frame indices are already in order. */
  lemma ConsecutiveSorted(states: seq<State>)
    requires Consecutive(states)
    ensures SortedStates(states) == states
  {
    assert Sorting.Sorted(states, StateIdxLe);
    Sorting.SortByOfSorted(states, StateIdxLe);
  }

  lemma {:induction false} ConsecutiveEveryPairCounts(states: seq<State>, fps: real, norm: (real, real) -> real, n: nat)
    requires fps > 0.0 && Consecutive(states) && n <= NumPairs(|states|)
    ensures |SeriesUpTo(states, fps, norm, n).speeds| == n
  {
    if n > 0 {
      ConsecutiveEveryPairCounts(states, fps, norm, n - 1);
      assert states[n].idx - states[n - 1].idx == 1;
      assert 1.0 / fps > 0.0;
    }
  }

  /**
   * For a track the tracker built, with a positive frame rate, every pair
   * of successive states is a transition of one frame and yields a speed.
   */
  lemma TrackerTrackSpeeds(t: Track, fps: real, norm: (real, real) -> real)
    requires fps > 0.0 && Consecutive(t.states)
    ensures SortedStates(t.states) == t.states
    ensures |SeriesUpTo(t.states, fps, norm, NumPairs(|t.states|)).speeds| == NumPairs(|t.states|)
  {
    ConsecutiveSorted(t.states);
    ConsecutiveEveryPairCounts(t.states, fps, norm, NumPairs(|t.states|));
  }

  /* ---------- The handler ---------- */

  /** The document written to `<prefix>/tracks.json`. */
  datatype TracksDoc = TracksDoc(videoPrefix: string, fps: real, tracks: seq<TrackOut>, tracksCount: nat)

  /** The metrics of every track, in order. */
  function Results(tracks: seq<Track>, fps: real, norm: (real, real) -> real): (r: seq<TrackOut>)
    requires fps != 0.0
    ensures |r| == |tracks|
  {
    if tracks == [] then []
    else Results(tracks[..|tracks| - 1], fps, norm) + [TrackResult(tracks[|tracks| - 1], fps, norm)]
  }

  lemma {:induction false} ResultsAt(tracks: seq<Track>, fps: real, norm: (real, real) -> real, k: nat)
    requires fps != 0.0 && k < |tracks|
    ensures Results(tracks, fps, norm)[k] == TrackResult(tracks[k], fps, norm)
  {
    if k < |tracks| - 1 {
      ResultsAt(tracks[..|tracks| - 1], fps, norm, k);
    }
  }

  /** The loop `for t in tracks` that fills in every track's metrics. */
  method AllMetrics(tracks: seq<Track>, fps: real, norm: (real, real) -> real) returns (out: seq<TrackOut>)
    requires fps != 0.0
    ensures |out| == |tracks|
    ensures forall k :: 0 <= k < |tracks| ==> out[k] == TrackResult(tracks[k], fps, norm)
  {
    out := [];
    for k := 0 to |tracks|
      invariant out == Results(tracks[..k], fps, norm)
    {
      var o := TrackMetrics(tracks[k], fps, norm);
      assert tracks[..k + 1][..k] == tracks[..k];
      out := out + [o];
    }
    assert tracks[..|tracks|] == tracks;
    forall k | 0 <= k < |tracks| ensures out[k] == TrackResult(tracks[k], fps, norm) {
      ResultsAt(tracks, fps, norm, k);
    }
  }

  /** The written track keeps its id, and a track with states keeps at least one. */
  lemma TrackResultShape(t: Track, fps: real, norm: (real, real) -> real)
    requires fps != 0.0
    ensures TrackResult(t, fps, norm).id == t.id
    ensures |t.states| >= 1 ==> |TrackResult(t, fps, norm).states| >= 1
  {
  }

  /**
   * Tracks the car detections of one video (`key` names its
   * `detections_all.jsonl`) and writes their metrics; `norm` stands for
   * `math.hypot`.
   */
  method TrackVideo(key: string, frames: seq<RawFrame>, fps: real, thresh: real, norm: (real, real) -> real)
    returns (doc: TracksDoc)
    requires fps != 0.0
    requires StepsWellFormed(Steps(frames))
    ensures doc.videoPrefix == Text.BeforeLastSlash(key) && doc.fps == fps
    ensures doc.tracksCount == |doc.tracks|
    ensures var tracks := RunUpTo(Steps(frames), thresh, |frames|).tracks;
            && |doc.tracks| == |tracks|
            && (forall k :: 0 <= k < |tracks| ==> doc.tracks[k] == TrackResult(tracks[k], fps, norm))
            && TotalStates(tracks) == TotalBoxes(Steps(frames))
            && TotalStates(tracks) == Sorting.SumOf(frames, FrameBoxCount)
    ensures forall k :: 0 <= k < |doc.tracks| ==>
              doc.tracks[k].id == k + 1 && |doc.tracks[k].states| >= 1
  {
    var steps := Steps(frames);
    StepsBoxCount(frames);
    var tracks := BuildTracks(steps, thresh);
    var out := AllMetrics(tracks, fps, norm);
    forall k | 0 <= k < |out| ensures out[k].id == k + 1 && |out[k].states| >= 1 {
      TrackResultShape(tracks[k], fps, norm);
    }
    doc := TracksDoc(Text.BeforeLastSlash(key), fps, out, |out|);
  }
}
