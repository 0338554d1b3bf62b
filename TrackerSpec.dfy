/**
 * The greedy IoU tracker of `CrashTruth-Tracker.py`, stated as functions
 * over its tables.  Each function takes one step of the handler's loops
 * (one box, one active track, one unassigned box, one frame), so that the
 * loops in module `Tracker` are proved equal to them and the invariants in
 * module `TrackerInvariants` are proved about them.
 */
module TrackerSpec {

  import opened Common
  import opened Geometry
  import Sorting
  import Text

  /** `FPS` and `IOU_THRESH` defaults of the handler's environment. */
  const DefaultFps: real := 5.0
  const DefaultIouThresh: real := 0.3

  /* ---------- Input records, as read from `detections_all.jsonl` ---------- */

  /** A box object whose fields may be missing (they read as 0). */
  datatype RawBox = RawBox(xmin: Option<real>, ymin: Option<real>, xmax: Option<real>, ymax: Option<real>)

  datatype RawDetection = RawDetection(labelText: Option<string>, score: Option<real>, box: Option<RawBox>)

  datatype RawFrame = RawFrame(frame: string, detections: seq<RawDetection>)

  /* ---------- Tracker tables ---------- */

  /** One entry of `seq`: frame position, frame name and its car boxes. */
  datatype Step = Step(idx: nat, frame: string, boxes: seq<Box>)

  /** One observation of a track. */
  datatype State = State(idx: nat, frame: string, box: Box, cx: real, cy: real, w: real, h: real)

  /** One entry of the `active` dictionary: track id and its latest box. */
  datatype Entry = Entry(id: nat, last: Box)

  /** A track while it is being built. */
  datatype Track = Track(id: nat, states: seq<State>)

  /** The three variables the tracking loop updates. */
  datatype Tables = Tables(tracks: seq<Track>, active: seq<Entry>, nextId: nat)

  /** The variables the matching loop over active tracks updates. */
  datatype Matching = Matching(tracks: seq<Track>, active: seq<Entry>, assignedIdx: set<nat>)

  /** Result of scanning a frame's boxes for one track: `best_j`, `best_iou`. */
  datatype Best = Best(j: Option<nat>, iou: real)

  /* ---------- Reading the detections (lines 52-66) ---------- */

  /** `float(b.get(..., 0))` for every field; a missing box is all zeros. */
  function ToBox(d: RawDetection): (b: Box)
    ensures d.box.None? ==> b.xmin == 0.0 && b.ymin == 0.0 && b.xmax == 0.0 && b.ymax == 0.0
    ensures d.box.Some? ==>
      && (if d.box.value.xmin.Some? then b.xmin == d.box.value.xmin.value else b.xmin == 0.0)
      && (if d.box.value.ymin.Some? then b.ymin == d.box.value.ymin.value else b.ymin == 0.0)
      && (if d.box.value.xmax.Some? then b.xmax == d.box.value.xmax.value else b.xmax == 0.0)
      && (if d.box.value.ymax.Some? then b.ymax == d.box.value.ymax.value else b.ymax == 0.0)
    ensures if d.score.Some? then b.score == d.score.value else b.score == 0.0
  {
    var r := d.box.GetOr(RawBox(None, None, None, None));
    Box(r.xmin.GetOr(0.0), r.ymin.GetOr(0.0), r.xmax.GetOr(0.0), r.ymax.GetOr(0.0), d.score.GetOr(0.0))
  }

  predicate IsCar(d: RawDetection) {
    d.labelText == Some("car")
  }

  /** The boxes of the detections labelled "car", in their listed order. */
  function CarBoxes(dets: seq<RawDetection>): (r: seq<Box>)
    ensures |r| <= |dets|
    ensures (forall k :: 0 <= k < |dets| ==> !IsCar(dets[k])) ==> r == []
    ensures (forall k :: 0 <= k < |dets| ==> IsCar(dets[k])) ==> |r| == |dets|
  {
    if dets == [] then []
    else (if IsCar(dets[0]) then [ToBox(dets[0])] else []) + CarBoxes(dets[1..])
  }

  /** The car boxes are `ToBox` of exactly the detections labelled "car", in order. */
  lemma {:induction false} CarBoxesIsFilter(dets: seq<RawDetection>)
    ensures var cars := Sorting.Filter(dets, IsCar);
            CarBoxes(dets) == seq(|cars|, i requires 0 <= i < |cars| => ToBox(cars[i]))
  {
    if dets != [] {
      var init, last := dets[..|dets| - 1], dets[|dets| - 1];
      assert dets == init + [last];
      CarBoxesAppend(init, [last]);
      CarBoxesIsFilter(init);
      assert [last][1..] == [];
      var cars := Sorting.Filter(dets, IsCar);
      var initCars := Sorting.Filter(init, IsCar);
      assert cars == initCars + (if IsCar(last) then [last] else []);
    }
  }

  lemma {:induction false} CarBoxesAppend(a: seq<RawDetection>, b: seq<RawDetection>)
    ensures CarBoxes(a + b) == CarBoxes(a) + CarBoxes(b)
  {
    if a != [] {
      assert (a + b)[0] == a[0] && (a + b)[1..] == a[1..] + b;
      CarBoxesAppend(a[1..], b);
    } else {
      assert a + b == b;
    }
  }

  predicate FrameLe(a: RawFrame, b: RawFrame) {
    Text.LexLe(a.frame, b.frame)
  }

  lemma FrameLeTotalPreorder()
    ensures Sorting.TotalPreorder(FrameLe)
  {
    forall a: RawFrame, b: RawFrame ensures FrameLe(a, b) || FrameLe(b, a) {
      Text.LexLeTotal(a.frame, b.frame);
    }
    forall a: RawFrame, b: RawFrame, c: RawFrame | FrameLe(a, b) && FrameLe(b, c) ensures FrameLe(a, c) {
      Text.LexLeTransitive(a.frame, b.frame, c.frame);
    }
  }

  /**
   * `frames.sort(key=frame)` followed by the loop that builds `seq`:
   * frame `i` in name order becomes step `i` with its car boxes.
   */
  function Steps(frames: seq<RawFrame>): (r: seq<Step>)
    ensures |r| == |frames|
    ensures forall i :: 0 <= i < |r| ==> r[i].idx == i
    ensures forall i, j :: 0 <= i < j < |r| ==> Text.LexLe(r[i].frame, r[j].frame)
  {
    var sorted := Sorting.SortBy(frames, FrameLe);
    FrameLeTotalPreorder();
    Sorting.SortBySorted(frames, FrameLe);
    seq(|sorted|, i requires 0 <= i < |sorted| => Step(i, sorted[i].frame, CarBoxes(sorted[i].detections)))
  }

  /** Every step is one of the input frames, with that frame's car boxes. */
  lemma StepsFromFrames(frames: seq<RawFrame>, i: nat)
    requires i < |frames|
    ensures exists k :: 0 <= k < |frames| && Steps(frames)[i].frame == frames[k].frame
                                          && Steps(frames)[i].boxes == CarBoxes(frames[k].detections)
  {
    var sorted := Sorting.SortBy(frames, FrameLe);
    assert sorted[i] in multiset(frames);
    var k :| 0 <= k < |frames| && frames[k] == sorted[i];
  }

  /** What a step keeps of the frame it comes from: the name and the car boxes. */
  function StepContent(s: Step): (seq<char>, seq<Box>) {
    (s.frame, s.boxes)
  }

  function FrameContent(f: RawFrame): (seq<char>, seq<Box>) {
    (f.frame, CarBoxes(f.detections))
  }

  /** The sort only reorders the frames: the steps are the frames, each once. */
  lemma StepsPermutation(frames: seq<RawFrame>)
    ensures multiset(Sorting.Map(Steps(frames), StepContent)) == multiset(Sorting.Map(frames, FrameContent))
  {
    var sorted := Sorting.SortBy(frames, FrameLe);
    assert Sorting.Map(Steps(frames), StepContent) == Sorting.Map(sorted, FrameContent);
    Sorting.MapSortBy(frames, FrameLe, FrameContent);
  }

  function FrameBoxCount(f: RawFrame): nat {
    |CarBoxes(f.detections)|
  }

  function StepBoxCount(s: Step): nat {
    |s.boxes|
  }

  lemma {:induction false} TotalBoxesIsSum(steps: seq<Step>)
    ensures TotalBoxes(steps) == Sorting.SumOf(steps, StepBoxCount)
  {
    if steps != [] {
      var init, last := steps[..|steps| - 1], steps[|steps| - 1];
      assert steps == init + [last];
      TotalBoxesIsSum(init);
      Sorting.SumOfAppend(init, [last], StepBoxCount);
      assert Sorting.SumOf([last], StepBoxCount) == |last.boxes|;
    }
  }

  /** The steps hold as many boxes as there are car detections in all the frames. */
  lemma StepsBoxCount(frames: seq<RawFrame>)
    ensures TotalBoxes(Steps(frames)) == Sorting.SumOf(frames, FrameBoxCount)
  {
    var sorted := Sorting.SortBy(frames, FrameLe);
    TotalBoxesIsSum(Steps(frames));
    Sorting.SumOfPointwise(Steps(frames), StepBoxCount, sorted, FrameBoxCount);
    Sorting.SumOfSortBy(frames, FrameLe, FrameBoxCount);
  }

  /* ---------- Per-box helpers ---------- */

  predicate AllWellFormed(boxes: seq<Box>) {
    forall j :: 0 <= j < |boxes| ==> WellFormed(boxes[j])
  }

  predicate StepsWellFormed(steps: seq<Step>) {
    forall i :: 0 <= i < |steps| ==> AllWellFormed(steps[i].boxes)
  }

  /** The state record appended for box `b` of `step`. */
  function MakeState(step: Step, b: Box): (s: State)
    ensures s.idx == step.idx && s.frame == step.frame && s.box == b
    ensures s.w >= 1.0 && s.h >= 1.0
  {
    var sh := CenterWh(b);
    State(step.idx, step.frame, b, sh.cx, sh.cy, sh.w, sh.h)
  }

  /* ---------- The `active` dictionary (insertion-ordered) ---------- */

  /** The position of `key` in `d`, or `|d|` when it is not a key. */
  function KeyIndex(d: seq<Entry>, key: nat): (p: nat)
    ensures p <= |d|
    ensures p < |d| ==> d[p].id == key
    ensures forall q :: 0 <= q < p ==> d[q].id != key
  {
    if d == [] then 0
    else if d[0].id == key then 0
    else 1 + KeyIndex(d[1..], key)
  }

  /** `key in d` */
  predicate HasKey(d: seq<Entry>, key: nat) {
    KeyIndex(d, key) < |d|
  }

  /** `d[key] = v`: replaces the value in place, or appends a new key. */
  function Put(d: seq<Entry>, key: nat, v: Box): (r: seq<Entry>)
    ensures Entry(key, v) in r
    ensures forall e :: e in r ==> e in d || e == Entry(key, v)
  {
    var p := KeyIndex(d, key);
    if p < |d| then
      var r := d[p := Entry(key, v)];
      assert r[p] == Entry(key, v);
      assert forall i :: 0 <= i < |r| ==> r[i] == d[i] || r[i] == Entry(key, v);
      r
    else d + [Entry(key, v)]
  }

  /** `d.pop(key, None)`. */
  function Pop(d: seq<Entry>, key: nat): (r: seq<Entry>)
    ensures forall e :: e in r ==> e in d
    ensures !HasKey(d, key) ==> r == d
  {
    var p := KeyIndex(d, key);
    if p < |d| then
      var r := d[..p] + d[p + 1..];
      assert forall i :: 0 <= i < |r| ==> r[i] == if i < p then d[i] else d[i + 1];
      r
    else d
  }

  /* ---------- One frame: matching active tracks (lines 74-96) ---------- */

  /**
   * The inner scan over boxes `0..n-1` for one active track with box `last`:
   * an unassigned box replaces the candidate only when its IoU is strictly
   * greater, starting from (None, 0.0).
   */
  function BestUpTo(last: Box, boxes: seq<Box>, assignedIdx: set<nat>, n: nat): (r: Best)
    requires WellFormed(last) && AllWellFormed(boxes)
    requires n <= |boxes|
    ensures r.j.None? ==> r.iou == 0.0
    ensures r.j.Some? ==> r.j.value < n && r.j.value !in assignedIdx && r.iou > 0.0
                          && r.iou == Iou(last, boxes[r.j.value])
    ensures forall k :: 0 <= k < n && k !in assignedIdx ==> Iou(last, boxes[k]) <= r.iou
    ensures r.j.Some? ==> forall k :: 0 <= k < r.j.value && k !in assignedIdx ==> Iou(last, boxes[k]) < r.iou
  {
    if n == 0 then Best(None, 0.0)
    else
      var prev := BestUpTo(last, boxes, assignedIdx, n - 1);
      if n - 1 in assignedIdx then prev
      else
        IouRange(last, boxes[n - 1]);
        var i := Iou(last, boxes[n - 1]);
        if i > prev.iou then Best(Some(n - 1), i) else prev
  }

  /** Index of the first track with id `tid` (the `for t in tracks` search). */
  function FindTrack(tracks: seq<Track>, tid: nat): (k: nat)
    ensures k <= |tracks|
    ensures k < |tracks| ==> tracks[k].id == tid
    ensures forall q :: 0 <= q < k ==> tracks[q].id != tid
  {
    if tracks == [] then 0
    else if tracks[0].id == tid then 0
    else 1 + FindTrack(tracks[1..], tid)
  }

  /** Appends `s` to the states of the track with id `tid`, if there is one. */
  function AppendTo(tracks: seq<Track>, tid: nat, s: State): (r: seq<Track>)
    ensures |r| == |tracks|
  {
    var k := FindTrack(tracks, tid);
    if k < |tracks| then tracks[k := Track(tracks[k].id, tracks[k].states + [s])] else tracks
  }

  predicate ActiveWellFormed(active: seq<Entry>) {
    forall e :: e in active ==> WellFormed(e.last)
  }

  /** One iteration of `for tid, last in list(active.items())`. */
  function MatchOne(e: Entry, step: Step, thresh: real, m: Matching): (r: Matching)
    requires WellFormed(e.last) && AllWellFormed(step.boxes) && ActiveWellFormed(m.active)
    ensures ActiveWellFormed(r.active)
  {
    var best := BestUpTo(e.last, step.boxes, m.assignedIdx, |step.boxes|);
    if best.j.Some? && best.iou >= thresh then
      var b := step.boxes[best.j.value];
      Matching(AppendTo(m.tracks, e.id, MakeState(step, b)), Put(m.active, e.id, b), m.assignedIdx + {best.j.value})
    else
      Matching(m.tracks, Pop(m.active, e.id), m.assignedIdx)
  }

  /** The matching loop after the first `n` entries of the snapshot `snap`. */
  function MatchUpTo(snap: seq<Entry>, step: Step, thresh: real, tracks: seq<Track>, n: nat): (r: Matching)
    requires n <= |snap| && ActiveWellFormed(snap) && AllWellFormed(step.boxes)
    ensures ActiveWellFormed(r.active)
  {
    if n == 0 then Matching(tracks, snap, {})
    else MatchOne(snap[n - 1], step, thresh, MatchUpTo(snap, step, thresh, tracks, n - 1))
  }

  /** One more entry of the snapshot is one more iteration of the loop. */
  lemma MatchUpToNext(snap: seq<Entry>, step: Step, thresh: real, tracks: seq<Track>, n: nat)
    requires n < |snap| && ActiveWellFormed(snap) && AllWellFormed(step.boxes)
    ensures WellFormed(snap[n].last)
    ensures MatchUpTo(snap, step, thresh, tracks, n + 1)
            == MatchOne(snap[n], step, thresh, MatchUpTo(snap, step, thresh, tracks, n))
  {
    assert snap[n] in snap;
  }

  /* ---------- One frame: new tracks (lines 98-105) ---------- */

  /** The loop over boxes `0..n-1` that starts a track for each unassigned box. */
  function SpawnUpTo(step: Step, assignedIdx: set<nat>, t: Tables, n: nat): (r: Tables)
    requires n <= |step.boxes| && AllWellFormed(step.boxes) && ActiveWellFormed(t.active)
    ensures ActiveWellFormed(r.active)
  {
    if n == 0 then t
    else
      var p := SpawnUpTo(step, assignedIdx, t, n - 1);
      if n - 1 in assignedIdx then p
      else
        var b := step.boxes[n - 1];
        Tables(p.tracks + [Track(p.nextId, [MakeState(step, b)])], Put(p.active, p.nextId, b), p.nextId + 1)
  }

  /** One iteration of `for step in seq`. */
  function StepTables(t: Tables, step: Step, thresh: real): (r: Tables)
    requires AllWellFormed(step.boxes) && ActiveWellFormed(t.active)
    ensures ActiveWellFormed(r.active)
  {
    var m := MatchUpTo(t.active, step, thresh, t.tracks, |t.active|);
    SpawnUpTo(step, m.assignedIdx, Tables(m.tracks, m.active, t.nextId), |step.boxes|)
  }

  /** The tables after the first `n` steps, starting from no tracks and id 1. */
  function RunUpTo(steps: seq<Step>, thresh: real, n: nat): (r: Tables)
    requires n <= |steps| && StepsWellFormed(steps)
    ensures ActiveWellFormed(r.active)
  {
    if n == 0 then Tables([], [], 1)
    else StepTables(RunUpTo(steps, thresh, n - 1), steps[n - 1], thresh)
  }

  /* ---------- Counting ---------- */

  function TotalStates(ts: seq<Track>): nat {
    if ts == [] then 0 else TotalStates(ts[..|ts| - 1]) + |ts[|ts| - 1].states|
  }

  function TotalBoxes(steps: seq<Step>): nat {
    if steps == [] then 0 else TotalBoxes(steps[..|steps| - 1]) + |steps[|steps| - 1].boxes|
  }

  /** Number of indices below `n` that are not in `assignedIdx`. */
  function CountUnassigned(assignedIdx: set<nat>, n: nat): nat {
    if n == 0 then 0 else CountUnassigned(assignedIdx, n - 1) + (if n - 1 in assignedIdx then 0 else 1)
  }
}
