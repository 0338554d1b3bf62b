/**
 * What the greedy tracker guarantees, proved about the functions of
 * `TrackerSpec`: track ids are 1, 2, 3, ... in creation order; the active
 * table lists live tracks in ascending id order with each track's latest
 * box; the frame indices of a track are consecutive; a retired track never
 * changes again; and every car box of every frame ends up in exactly one
 * state, so the number of states equals the number of car boxes.
 */
module TrackerInvariants {

  import opened Common
  import opened Geometry
  import opened TrackerSpec

  function LastState(t: Track): State
    requires |t.states| > 0
  {
    t.states[|t.states| - 1]
  }

  /** Frame indices of the states are consecutive integers. */
  ghost predicate Consecutive(states: seq<State>) {
    forall i :: 0 <= i < |states| ==> states[i].idx == states[0].idx + i
  }

  /**
   * After `f` frames: the track at position k has id k + 1, at least one
   * state, consecutive frame indices, and its last state before frame f.
   */
  ghost predicate TracksOk(tracks: seq<Track>, f: nat) {
    forall k :: 0 <= k < |tracks| ==>
      && tracks[k].id == k + 1
      && |tracks[k].states| >= 1
      && Consecutive(tracks[k].states)
      && LastState(tracks[k]).idx < f
  }

  ghost predicate IdsIncreasing(d: seq<Entry>) {
    forall p, q :: 0 <= p < q < |d| ==> d[p].id < d[q].id
  }

  /** An active entry names a track last seen in frame f - 1, with that box. */
  ghost predicate LiveEntry(e: Entry, tracks: seq<Track>, f: nat) {
    && 1 <= e.id <= |tracks|
    && |tracks[e.id - 1].states| > 0
    && LastState(tracks[e.id - 1]).idx + 1 == f
    && LastState(tracks[e.id - 1]).box == e.last
  }

  ghost predicate ActiveOk(active: seq<Entry>, tracks: seq<Track>, f: nat) {
    IdsIncreasing(active) && forall p :: 0 <= p < |active| ==> LiveEntry(active[p], tracks, f)
  }

  /** The invariant of the tracking loop after `f` frames. */
  ghost predicate Inv(t: Tables, f: nat) {
    t.nextId == |t.tracks| + 1 && TracksOk(t.tracks, f) && ActiveOk(t.active, t.tracks, f)
  }

  /* ---------- The ordered dictionary ---------- */

  /** The key sits right after a prefix that does not hold it. */
  lemma KeyIndexAfter(pre: seq<Entry>, e: Entry, suf: seq<Entry>)
    requires !HasKey(pre, e.id)
    ensures KeyIndex(pre + [e] + suf, e.id) == |pre|
  {
    assert (pre + [e] + suf)[|pre|] == e;
  }

  lemma PutReplace(pre: seq<Entry>, e: Entry, suf: seq<Entry>, v: Box)
    requires !HasKey(pre, e.id)
    ensures Put(pre + [e] + suf, e.id, v) == pre + [Entry(e.id, v)] + suf
  {
    KeyIndexAfter(pre, e, suf);
    assert (pre + [e] + suf)[|pre| := Entry(e.id, v)] == pre + [Entry(e.id, v)] + suf;
  }

  lemma PutNew(d: seq<Entry>, key: nat, v: Box)
    requires !HasKey(d, key)
    ensures Put(d, key, v) == d + [Entry(key, v)]
  {
  }

  lemma PopAt(pre: seq<Entry>, e: Entry, suf: seq<Entry>)
    requires !HasKey(pre, e.id)
    ensures Pop(pre + [e] + suf, e.id) == pre + suf
  {
    KeyIndexAfter(pre, e, suf);
    var d := pre + [e] + suf;
    assert d[..|pre|] == pre && d[|pre| + 1..] == suf;
  }

  /* ---------- Counting states ---------- */

  lemma {:induction false} TotalStatesUpdate(ts: seq<Track>, k: nat, t: Track)
    requires k < |ts|
    ensures TotalStates(ts[k := t]) == TotalStates(ts) - |ts[k].states| + |t.states|
  {
    var n := |ts|;
    if k < n - 1 {
      assert ts[k := t][..n - 1] == ts[..n - 1][k := t];
      TotalStatesUpdate(ts[..n - 1], k, t);
    } else {
      assert ts[k := t][..n - 1] == ts[..n - 1];
    }
  }

  lemma TotalStatesAppend(ts: seq<Track>, t: Track)
    ensures TotalStates(ts + [t]) == TotalStates(ts) + |t.states|
  {
    assert (ts + [t])[..|ts|] == ts;
  }

  lemma {:induction false} CountUnassignedIgnoresAbove(a: set<nat>, n: nat, x: nat)
    requires x >= n
    ensures CountUnassigned(a, n) == CountUnassigned(a - {x}, n)
  {
    if n > 0 {
      CountUnassignedIgnoresAbove(a, n - 1, x);
    }
  }

  /** Each index below n is either assigned or counted as unassigned. */
  lemma {:induction false} CountUnassignedComplement(a: set<nat>, n: nat)
    requires forall x :: x in a ==> x < n
    ensures CountUnassigned(a, n) + |a| == n
  {
    if n > 0 {
      var a' := a - {n - 1};
      CountUnassignedIgnoresAbove(a, n - 1, n - 1);
      CountUnassignedComplement(a', n - 1);
      if n - 1 in a {
        assert |a| == |a'| + 1;
      } else {
        assert a' == a;
      }
    }
  }

  /* ---------- Keys ---------- */

  lemma HasKeyAppend(d: seq<Entry>, e: Entry, x: nat)
    ensures HasKey(d + [e], x) <==> HasKey(d, x) || e.id == x
  {
    if HasKey(d + [e], x) && e.id != x {
      var p :| 0 <= p < |d| + 1 && (d + [e])[p].id == x;
      assert (d + [e])[p] == d[p];
    }
    if HasKey(d, x) {
      var p :| 0 <= p < |d| && d[p].id == x;
      assert (d + [e])[p] == d[p];
    }
    assert (d + [e])[|d|] == e;
  }

  /** With increasing ids, no key of `d[..k]` is the id at position k or later. */
  lemma PrefixKeysBelow(d: seq<Entry>, k: nat, x: nat)
    requires IdsIncreasing(d) && k < |d|
    requires x >= d[k].id
    ensures !HasKey(d[..k], x)
  {
    forall p | 0 <= p < k ensures d[..k][p].id != x {
      assert d[..k][p] == d[p];
    }
  }

  lemma HasKeyOfPrefix(d: seq<Entry>, k: nat, x: nat)
    requires k <= |d| && HasKey(d[..k], x)
    ensures HasKey(d, x)
  {
    var p :| 0 <= p < k && d[..k][p].id == x;
    assert d[p] == d[..k][p];
  }

  /* ---------- The matching loop ---------- */

  /** `t` is `t0` with one more state, observed in frame f. */
  ghost predicate Extended(t0: Track, t: Track, f: nat) {
    && t.id == t0.id
    && |t.states| == |t0.states| + 1
    && t.states[..|t0.states|] == t0.states
    && t.states[|t0.states|].idx == f
  }

  /**
   * Compared with `tracks0`, a track is unchanged, or it was visited (its
   * id is a key of `seen`) and extended by one state in frame f.
   */
  ghost predicate TracksSince(seen: seq<Entry>, tracks0: seq<Track>, tracks: seq<Track>, f: nat) {
    |tracks| == |tracks0| &&
    forall i :: 0 <= i < |tracks| ==>
      tracks[i] == tracks0[i] || (HasKey(seen, i + 1) && Extended(tracks0[i], tracks[i], f))
  }

  /** Every entry of `head` is a visited track extended with the box the entry holds. */
  ghost predicate HeadMatched(head: seq<Entry>, seen: seq<Entry>, tracks0: seq<Track>, tracks: seq<Track>, f: nat) {
    |tracks| == |tracks0| &&
    forall p :: 0 <= p < |head| ==>
      && HasKey(seen, head[p].id)
      && 1 <= head[p].id <= |tracks0|
      && Extended(tracks0[head[p].id - 1], tracks[head[p].id - 1], f)
      && tracks[head[p].id - 1].states[|tracks0[head[p].id - 1].states|].box == head[p].last
  }

  /**
   * After the first k entries of the snapshot `snap` of `active`: the
   * entries still to visit are the tail of `active`; the head holds the
   * tracks matched in this frame, in their old order; every other track
   * is unchanged; and one box was assigned per matched track.
   */
  ghost predicate MatchInv(snap: seq<Entry>, f: nat, tracks0: seq<Track>, nb: nat, k: nat, m: Matching)
    requires k <= |snap|
  {
    var np := |m.active| - (|snap| - k);
    && |m.active| >= |snap| - k
    && m.active[np..] == snap[k..]
    && IdsIncreasing(m.active)
    && TracksSince(snap[..k], tracks0, m.tracks, f)
    && HeadMatched(m.active[..np], snap[..k], tracks0, m.tracks, f)
    && (forall x :: x in m.assignedIdx ==> x < nb)
    && |m.assignedIdx| == np
    && TotalStates(m.tracks) == TotalStates(tracks0) + np
  }

  lemma MatchInvInit(snap: seq<Entry>, f: nat, tracks0: seq<Track>, nb: nat)
    requires IdsIncreasing(snap)
    ensures MatchInv(snap, f, tracks0, nb, 0, Matching(tracks0, snap, {}))
  {
    assert snap[0..] == snap;
    assert snap[..0] == [];
  }

  /**
   * What the matching loop needs of the tables it starts from: the
   * snapshot's ids increase and name tracks, and track k has id k + 1.
   */
  ghost predicate SnapOk(snap: seq<Entry>, tracks0: seq<Track>) {
    && IdsIncreasing(snap)
    && (forall p :: 0 <= p < |snap| ==> 1 <= snap[p].id <= |tracks0|)
    && (forall i :: 0 <= i < |tracks0| ==> tracks0[i].id == i + 1)
  }

  lemma SnapOkOfInv(t: Tables, f: nat)
    requires Inv(t, f)
    ensures SnapOk(t.active, t.tracks)
  {
    forall p | 0 <= p < |t.active| ensures 1 <= t.active[p].id <= |t.tracks| {
      assert LiveEntry(t.active[p], t.tracks, f);
    }
  }

  lemma TracksSinceIds(seen: seq<Entry>, tracks0: seq<Track>, tracks: seq<Track>, f: nat, f0: nat)
    requires TracksOk(tracks0, f0) && TracksSince(seen, tracks0, tracks, f)
    ensures forall i :: 0 <= i < |tracks| ==> tracks[i].id == i + 1
  {
  }

  lemma FindTrackAt(tracks: seq<Track>, tid: nat)
    requires forall i :: 0 <= i < |tracks| ==> tracks[i].id == i + 1
    requires 1 <= tid <= |tracks|
    ensures FindTrack(tracks, tid) == tid - 1
  {
    assert tracks[tid - 1].id == tid;
  }

  lemma TracksSinceMatched(seen: seq<Entry>, e: Entry, tracks0: seq<Track>, tracks: seq<Track>, f: nat, nt: Track)
    requires TracksSince(seen, tracks0, tracks, f)
    requires 1 <= e.id <= |tracks| && tracks[e.id - 1] == tracks0[e.id - 1]
    requires Extended(tracks0[e.id - 1], nt, f)
    ensures TracksSince(seen + [e], tracks0, tracks[e.id - 1 := nt], f)
  {
    forall x | true ensures HasKey(seen + [e], x) <==> HasKey(seen, x) || e.id == x {
      HasKeyAppend(seen, e, x);
    }
  }

  lemma TracksSinceRetired(seen: seq<Entry>, e: Entry, tracks0: seq<Track>, tracks: seq<Track>, f: nat)
    requires TracksSince(seen, tracks0, tracks, f)
    ensures TracksSince(seen + [e], tracks0, tracks, f)
  {
    forall x | true ensures HasKey(seen + [e], x) <==> HasKey(seen, x) || e.id == x {
      HasKeyAppend(seen, e, x);
    }
  }

  lemma HeadMatchedMatched(head: seq<Entry>, seen: seq<Entry>, e: Entry, b: Box,
                           tracks0: seq<Track>, tracks: seq<Track>, f: nat, nt: Track)
    requires HeadMatched(head, seen, tracks0, tracks, f)
    requires forall p :: 0 <= p < |head| ==> head[p].id < e.id
    requires 1 <= e.id <= |tracks|
    requires Extended(tracks0[e.id - 1], nt, f) && nt.states[|tracks0[e.id - 1].states|].box == b
    ensures HeadMatched(head + [Entry(e.id, b)], seen + [e], tracks0, tracks[e.id - 1 := nt], f)
  {
    var h := head + [Entry(e.id, b)];
    var ts := tracks[e.id - 1 := nt];
    forall x | true ensures HasKey(seen + [e], x) <==> HasKey(seen, x) || e.id == x {
      HasKeyAppend(seen, e, x);
    }
    forall p | 0 <= p < |h|
      ensures HasKey(seen + [e], h[p].id)
      ensures 1 <= h[p].id <= |tracks0|
      ensures Extended(tracks0[h[p].id - 1], ts[h[p].id - 1], f)
      ensures ts[h[p].id - 1].states[|tracks0[h[p].id - 1].states|].box == h[p].last
    {
      if p < |head| {
        assert h[p] == head[p];
      }
    }
  }

  lemma HeadMatchedRetired(head: seq<Entry>, seen: seq<Entry>, e: Entry, tracks0: seq<Track>, tracks: seq<Track>, f: nat)
    requires HeadMatched(head, seen, tracks0, tracks, f)
    ensures HeadMatched(head, seen + [e], tracks0, tracks, f)
  {
    forall x | true ensures HasKey(seen + [e], x) <==> HasKey(seen, x) || e.id == x {
      HasKeyAppend(seen, e, x);
    }
  }

  /** With increasing ids, dropping one entry keeps the ids increasing. */
  lemma IdsIncreasingDrop(pre: seq<Entry>, e: Entry, suf: seq<Entry>)
    requires IdsIncreasing(pre + [e] + suf)
    ensures IdsIncreasing(pre + suf)
  {
    var a, c := pre + [e] + suf, pre + suf;
    forall p, q | 0 <= p < q < |c| ensures c[p].id < c[q].id {
      var p' := if p < |pre| then p else p + 1;
      var q' := if q < |pre| then q else q + 1;
      assert c[p] == a[p'] && c[q] == a[q'];
    }
  }

  /** Replacing an entry's box keeps the ids increasing. */
  lemma IdsIncreasingReplace(pre: seq<Entry>, e: Entry, suf: seq<Entry>, b: Box)
    requires IdsIncreasing(pre + [e] + suf)
    ensures IdsIncreasing(pre + [Entry(e.id, b)] + suf)
  {
    var a, c := pre + [e] + suf, pre + [Entry(e.id, b)] + suf;
    forall p | 0 <= p < |c| ensures c[p].id == a[p].id {
    }
  }

  lemma CardAddFresh(a: set<nat>, j: nat)
    requires j !in a
    ensures |a + {j}| == |a| + 1
  {
    assert a + {j} - {j} == a;
  }

  lemma PrefixSnoc<T>(s: seq<T>, k: nat)
    requires k < |s|
    ensures s[..k + 1] == s[..k] + [s[k]]
  {
  }

  /** The active table split at the entry being visited. */
  lemma SplitActive(snap: seq<Entry>, k: nat, a: seq<Entry>)
    requires k < |snap| && |a| >= |snap| - k
    requires a[|a| - (|snap| - k)..] == snap[k..]
    requires IdsIncreasing(a)
    ensures var np := |a| - (|snap| - k);
            && a == a[..np] + [snap[k]] + snap[k + 1..]
            && forall p :: 0 <= p < np ==> a[p].id < snap[k].id
  {
    var np := |a| - (|snap| - k);
    assert snap[k..] == [snap[k]] + snap[k + 1..];
    assert a == a[..np] + a[np..];
    assert a[np] == snap[k];
  }

  lemma HeadIdsBelow(pre: seq<Entry>, key: nat)
    requires forall p :: 0 <= p < |pre| ==> pre[p].id < key
    ensures !HasKey(pre, key)
  {
  }

  /** A matched entry: the track gains a state and keeps its place in `active`. */
  lemma MatchInvMatched(snap: seq<Entry>, f: nat, tracks0: seq<Track>, nb: nat, k: nat, m: Matching,
                        j: nat, st: State)
    requires k < |snap| && MatchInv(snap, f, tracks0, nb, k, m)
    requires SnapOk(snap, tracks0)
    requires j < nb && j !in m.assignedIdx && st.idx == f
    ensures MatchInv(snap, f, tracks0, nb, k + 1,
                     Matching(AppendTo(m.tracks, snap[k].id, st), Put(m.active, snap[k].id, st.box), m.assignedIdx + {j}))
  {
    var np := MatchedParts(snap, f, tracks0, nb, k, m, st);
    CardAddFresh(m.assignedIdx, j);
    MatchInvIntro(snap, f, tracks0, nb, k + 1,
                  Matching(AppendTo(m.tracks, snap[k].id, st), Put(m.active, snap[k].id, st.box), m.assignedIdx + {j}),
                  np + 1);
  }

  /** The tables after a match, stated in the terms of the loop invariant. */
  lemma MatchedParts(snap: seq<Entry>, f: nat, tracks0: seq<Track>, nb: nat, k: nat, m: Matching, st: State)
    returns (np: nat)
    requires k < |snap| && MatchInv(snap, f, tracks0, nb, k, m)
    requires SnapOk(snap, tracks0)
    requires st.idx == f
    ensures np == |m.active| - (|snap| - k)
    ensures var na, nt := Put(m.active, snap[k].id, st.box), AppendTo(m.tracks, snap[k].id, st);
            && |na| == np + 1 + (|snap| - (k + 1))
            && na[np + 1..] == snap[k + 1..]
            && IdsIncreasing(na)
            && TracksSince(snap[..k + 1], tracks0, nt, f)
            && HeadMatched(na[..np + 1], snap[..k + 1], tracks0, nt, f)
            && TotalStates(nt) == TotalStates(m.tracks) + 1
  {
    var pre;
    np, pre := MatchedActive(snap, k, m.active, st.box);
    MatchedHead(snap, k, f, tracks0, m.tracks, st, pre);
  }

  /** The visited track gains `st`, and the matched head grows by the visited entry. */
  lemma MatchedHead(snap: seq<Entry>, k: nat, f: nat, tracks0: seq<Track>, mt: seq<Track>, st: State, pre: seq<Entry>)
    requires k < |snap| && SnapOk(snap, tracks0)
    requires TracksSince(snap[..k], tracks0, mt, f)
    requires HeadMatched(pre, snap[..k], tracks0, mt, f)
    requires forall p :: 0 <= p < |pre| ==> pre[p].id < snap[k].id
    requires st.idx == f
    ensures var nt := AppendTo(mt, snap[k].id, st);
            && TracksSince(snap[..k + 1], tracks0, nt, f)
            && HeadMatched(pre + [Entry(snap[k].id, st.box)], snap[..k + 1], tracks0, nt, f)
            && TotalStates(nt) == TotalStates(mt) + 1
  {
    assert 1 <= snap[k].id <= |tracks0|;
    var nt := MatchedTracks(snap, k, f, tracks0, mt, st);
    PrefixSnoc(snap, k);
    HeadMatchedMatched(pre, snap[..k], snap[k], st.box, tracks0, mt, f, nt);
  }

  /** `active[id] = box` for the visited entry: the box is replaced in place. */
  lemma MatchedActive(snap: seq<Entry>, k: nat, a: seq<Entry>, b: Box) returns (np: nat, pre: seq<Entry>)
    requires k < |snap| && |a| >= |snap| - k
    requires a[|a| - (|snap| - k)..] == snap[k..]
    requires IdsIncreasing(a)
    ensures np == |a| - (|snap| - k) && pre == a[..np]
    ensures forall p :: 0 <= p < |pre| ==> pre[p].id < snap[k].id
    ensures var na := Put(a, snap[k].id, b);
            && |na| == np + 1 + (|snap| - (k + 1))
            && na[np + 1..] == snap[k + 1..]
            && na[..np + 1] == pre + [Entry(snap[k].id, b)]
            && IdsIncreasing(na)
  {
    np := |a| - (|snap| - k);
    pre := a[..np];
    var e, suf := snap[k], snap[k + 1..];
    SplitActive(snap, k, a);
    HeadIdsBelow(pre, e.id);
    PutReplace(pre, e, suf, b);
    IdsIncreasingReplace(pre, e, suf, b);
    var na := pre + [Entry(e.id, b)] + suf;
    assert na[np + 1..] == suf;
    assert na[..np + 1] == pre + [Entry(e.id, b)];
  }

  /** The visited track gains the state `st`; the count of states grows by one. */
  lemma MatchedTracks(snap: seq<Entry>, k: nat, f: nat, tracks0: seq<Track>, mt: seq<Track>, st: State)
    returns (nt: Track)
    requires k < |snap| && IdsIncreasing(snap) && 1 <= snap[k].id <= |tracks0|
    requires forall i :: 0 <= i < |tracks0| ==> tracks0[i].id == i + 1
    requires TracksSince(snap[..k], tracks0, mt, f)
    requires st.idx == f
    ensures nt == Track(snap[k].id, tracks0[snap[k].id - 1].states + [st])
    ensures Extended(tracks0[snap[k].id - 1], nt, f)
    ensures nt.states[|tracks0[snap[k].id - 1].states|].box == st.box
    ensures AppendTo(mt, snap[k].id, st) == mt[snap[k].id - 1 := nt]
    ensures TracksSince(snap[..k + 1], tracks0, mt[snap[k].id - 1 := nt], f)
    ensures TotalStates(mt[snap[k].id - 1 := nt]) == TotalStates(mt) + 1
  {
    var e, id := snap[k], snap[k].id;
    PrefixKeysBelow(snap, k, id);
    assert mt[id - 1] == tracks0[id - 1];
    FindTrackAt(mt, id);
    nt := Track(id, tracks0[id - 1].states + [st]);
    TotalStatesUpdate(mt, id - 1, nt);
    PrefixSnoc(snap, k);
    TracksSinceMatched(snap[..k], e, tracks0, mt, f, nt);
  }

  /** The conjuncts of `MatchInv`, with the number of matched entries given. */
  lemma MatchInvIntro(snap: seq<Entry>, f: nat, tracks0: seq<Track>, nb: nat, k: nat, r: Matching, np: nat)
    requires k <= |snap| && |r.active| == np + (|snap| - k)
    requires r.active[np..] == snap[k..]
    requires IdsIncreasing(r.active)
    requires TracksSince(snap[..k], tracks0, r.tracks, f)
    requires HeadMatched(r.active[..np], snap[..k], tracks0, r.tracks, f)
    requires forall x :: x in r.assignedIdx ==> x < nb
    requires |r.assignedIdx| == np
    requires TotalStates(r.tracks) == TotalStates(tracks0) + np
    ensures MatchInv(snap, f, tracks0, nb, k, r)
  {
  }

  /** An unmatched entry: the track is retired and nothing else changes. */
  lemma MatchInvRetired(snap: seq<Entry>, f: nat, tracks0: seq<Track>, nb: nat, k: nat, m: Matching)
    requires k < |snap| && MatchInv(snap, f, tracks0, nb, k, m)
    ensures MatchInv(snap, f, tracks0, nb, k + 1, Matching(m.tracks, Pop(m.active, snap[k].id), m.assignedIdx))
  {
    var e := snap[k];
    var np := |m.active| - (|snap| - k);
    var pre, suf := m.active[..np], snap[k + 1..];
    SplitActive(snap, k, m.active);
    HeadIdsBelow(pre, e.id);
    PopAt(pre, e, suf);
    var na := pre + suf;
    IdsIncreasingDrop(pre, e, suf);
    assert na[np..] == suf;
    assert na[..np] == pre;
    assert snap[..k + 1] == snap[..k] + [e];
    TracksSinceRetired(snap[..k], e, tracks0, m.tracks, f);
    HeadMatchedRetired(pre, snap[..k], e, tracks0, m.tracks, f);
  }

  /** Visiting entry k - 1 of the snapshot keeps the matching invariant. */
  lemma MatchStep(snap: seq<Entry>, step: Step, thresh: real, f: nat, tracks0: seq<Track>, k: nat, m: Matching)
    requires SnapOk(snap, tracks0) && step.idx == f
    requires AllWellFormed(step.boxes) && ActiveWellFormed(snap) && ActiveWellFormed(m.active)
    requires 0 < k <= |snap| && MatchInv(snap, f, tracks0, |step.boxes|, k - 1, m)
    ensures MatchInv(snap, f, tracks0, |step.boxes|, k, MatchOne(snap[k - 1], step, thresh, m))
  {
    var i := k - 1;
    var best := BestUpTo(snap[i].last, step.boxes, m.assignedIdx, |step.boxes|);
    var r := MatchOne(snap[i], step, thresh, m);
    if best.j.Some? && best.iou >= thresh {
      var b := step.boxes[best.j.value];
      MatchInvMatched(snap, f, tracks0, |step.boxes|, i, m, best.j.value, MakeState(step, b));
    } else {
      MatchInvRetired(snap, f, tracks0, |step.boxes|, i, m);
    }
    MatchInvAt(snap, f, tracks0, |step.boxes|, i + 1, k, r);
  }

  lemma MatchInvAt(snap: seq<Entry>, f: nat, tracks0: seq<Track>, nb: nat, a: nat, b: nat, r: Matching)
    requires a == b <= |snap| && MatchInv(snap, f, tracks0, nb, a, r)
    ensures MatchInv(snap, f, tracks0, nb, b, r)
  {
  }

  /** The matching loop's invariant after the first k entries of the snapshot. */
  lemma {:induction false} MatchAll(snap: seq<Entry>, step: Step, thresh: real, f: nat, tracks0: seq<Track>, k: nat)
    requires SnapOk(snap, tracks0) && step.idx == f
    requires AllWellFormed(step.boxes) && ActiveWellFormed(snap)
    requires k <= |snap|
    ensures MatchInv(snap, f, tracks0, |step.boxes|, k, MatchUpTo(snap, step, thresh, tracks0, k))
  {
    if k == 0 {
      assert MatchUpTo(snap, step, thresh, tracks0, 0) == Matching(tracks0, snap, {});
      MatchInvInit(snap, f, tracks0, |step.boxes|);
    } else {
      MatchAll(snap, step, thresh, f, tracks0, k - 1);
      var m := MatchUpTo(snap, step, thresh, tracks0, k - 1);
      MatchStep(snap, step, thresh, f, tracks0, k, m);
      assert MatchUpTo(snap, step, thresh, tracks0, k) == MatchOne(snap[k - 1], step, thresh, m);
    }
  }

  /* ---------- New tracks ---------- */

  /**
   * `t` is `t0` with c new tracks appended, each of one state in frame f
   * with the next ids in order, and c matching entries appended to `active`.
   */
  ghost predicate Spawned(f: nat, t0: Tables, t: Tables) {
    var n0, a0 := |t0.tracks|, |t0.active|;
    && |t.tracks| >= n0
    && t.nextId == |t.tracks| + 1
    && t.tracks[..n0] == t0.tracks
    && |t.active| == a0 + (|t.tracks| - n0)
    && t.active[..a0] == t0.active
    && (forall q :: n0 <= q < |t.tracks| ==>
          && t.tracks[q].id == q + 1
          && |t.tracks[q].states| == 1
          && t.tracks[q].states[0].idx == f
          && t.active[a0 + (q - n0)] == Entry(q + 1, t.tracks[q].states[0].box))
    && TotalStates(t.tracks) == TotalStates(t0.tracks) + (|t.tracks| - n0)
  }

  /** Ids already in the table are below the next id. */
  ghost predicate IdsBelowNext(t: Tables) {
    t.nextId == |t.tracks| + 1 && forall p :: 0 <= p < |t.active| ==> 1 <= t.active[p].id <= |t.tracks|
  }

  lemma SpawnedInit(f: nat, t0: Tables)
    requires t0.nextId == |t0.tracks| + 1
    ensures Spawned(f, t0, t0)
  {
    assert t0.tracks[..|t0.tracks|] == t0.tracks;
    assert t0.active[..|t0.active|] == t0.active;
  }

  lemma SpawnedFresh(f: nat, t0: Tables, t: Tables)
    requires IdsBelowNext(t0) && Spawned(f, t0, t)
    ensures !HasKey(t.active, t.nextId)
  {
    var n0, a0 := |t0.tracks|, |t0.active|;
    forall p | 0 <= p < |t.active| ensures t.active[p].id < t.nextId {
      if p < a0 {
        assert t.active[p] == t.active[..a0][p];
      } else {
        var q := n0 + (p - a0);
        assert t.tracks[q].id == q + 1;
        assert t.active[a0 + (q - n0)].id == q + 1;
      }
    }
  }

  lemma SpawnedTail(f: nat, t0: Tables, t: Tables, st: State)
    requires Spawned(f, t0, t) && st.idx == f
    ensures var nt, na := t.tracks + [Track(t.nextId, [st])], t.active + [Entry(t.nextId, st.box)];
            forall q :: |t0.tracks| <= q < |nt| ==>
              && nt[q].id == q + 1 && |nt[q].states| == 1 && nt[q].states[0].idx == f
              && na[|t0.active| + (q - |t0.tracks|)] == Entry(q + 1, nt[q].states[0].box)
  {
    var n0, a0 := |t0.tracks|, |t0.active|;
    var nt, na := t.tracks + [Track(t.nextId, [st])], t.active + [Entry(t.nextId, st.box)];
    forall q | n0 <= q < |nt|
      ensures nt[q].id == q + 1 && |nt[q].states| == 1 && nt[q].states[0].idx == f
      ensures na[a0 + (q - n0)] == Entry(q + 1, nt[q].states[0].box)
    {
      if q < |t.tracks| {
        assert nt[q] == t.tracks[q];
        assert na[a0 + (q - n0)] == t.active[a0 + (q - n0)];
      }
    }
  }

  lemma SpawnedOne(f: nat, t0: Tables, t: Tables, st: State)
    requires IdsBelowNext(t0) && Spawned(f, t0, t) && st.idx == f
    ensures Spawned(f, t0, Tables(t.tracks + [Track(t.nextId, [st])], Put(t.active, t.nextId, st.box), t.nextId + 1))
  {
    SpawnedFresh(f, t0, t);
    PutNew(t.active, t.nextId, st.box);
    SpawnedSnoc(f, t0, t, st);
  }

  /** One more track of one state, with its entry at the end of `active`. */
  lemma SpawnedSnoc(f: nat, t0: Tables, t: Tables, st: State)
    requires Spawned(f, t0, t) && st.idx == f
    ensures Spawned(f, t0, Tables(t.tracks + [Track(t.nextId, [st])], t.active + [Entry(t.nextId, st.box)], t.nextId + 1))
  {
    var n0, a0 := |t0.tracks|, |t0.active|;
    TotalStatesAppend(t.tracks, Track(t.nextId, [st]));
    SpawnedTail(f, t0, t, st);
    var nt := t.tracks + [Track(t.nextId, [st])];
    var na := t.active + [Entry(t.nextId, st.box)];
    assert nt[..n0] == t.tracks[..n0];
    assert na[..a0] == t.active[..a0];
  }

  lemma {:induction false} SpawnAll(step: Step, assignedIdx: set<nat>, t0: Tables, f: nat, n: nat)
    requires n <= |step.boxes| && AllWellFormed(step.boxes) && ActiveWellFormed(t0.active)
    requires IdsBelowNext(t0) && step.idx == f
    ensures Spawned(f, t0, SpawnUpTo(step, assignedIdx, t0, n))
    ensures |SpawnUpTo(step, assignedIdx, t0, n).tracks| == |t0.tracks| + CountUnassigned(assignedIdx, n)
  {
    if n == 0 {
      SpawnedInit(f, t0);
    } else {
      SpawnAll(step, assignedIdx, t0, f, n - 1);
      var p := SpawnUpTo(step, assignedIdx, t0, n - 1);
      if n - 1 !in assignedIdx {
        SpawnedOne(f, t0, p, MakeState(step, step.boxes[n - 1]));
      }
    }
  }

  /* ---------- One frame ---------- */

  lemma ConsecutiveSnoc(states: seq<State>, st: State)
    requires Consecutive(states) && |states| > 0
    requires st.idx == states[|states| - 1].idx + 1
    ensures Consecutive(states + [st])
  {
  }

  /** Facts about the tables after the matching loop of a frame. */
  lemma AfterMatching(t: Tables, step: Step, thresh: real, f: nat)
    requires Inv(t, f) && step.idx == f && AllWellFormed(step.boxes) && ActiveWellFormed(t.active)
    ensures var m := MatchUpTo(t.active, step, thresh, t.tracks, |t.active|);
            && IdsIncreasing(m.active)
            && TracksSince(t.active, t.tracks, m.tracks, f)
            && HeadMatched(m.active, t.active, t.tracks, m.tracks, f)
            && (forall x :: x in m.assignedIdx ==> x < |step.boxes|)
            && TotalStates(m.tracks) == TotalStates(t.tracks) + |m.assignedIdx|
  {
    var m := MatchUpTo(t.active, step, thresh, t.tracks, |t.active|);
    SnapOkOfInv(t, f);
    MatchAll(t.active, step, thresh, f, t.tracks, |t.active|);
    assert t.active[..|t.active|] == t.active;
    assert m.active[..|m.active|] == m.active;
  }

  /** The track table after a frame: old tracks unchanged or extended in order, new ones of one state. */
  lemma StepTracksOk(t: Tables, m: Matching, t2: Tables, f: nat)
    requires Inv(t, f) && TracksSince(t.active, t.tracks, m.tracks, f)
    requires Spawned(f, Tables(m.tracks, m.active, t.nextId), t2)
    ensures TracksOk(t2.tracks, f + 1)
    ensures forall i :: 0 <= i < |t.tracks| ==> t2.tracks[i] == m.tracks[i]
  {
    var n0 := |t.tracks|;
    forall i | 0 <= i < n0 ensures t2.tracks[i] == m.tracks[i] {
      assert t2.tracks[..n0][i] == t2.tracks[i];
    }
    forall i | 0 <= i < |t2.tracks|
      ensures t2.tracks[i].id == i + 1 && |t2.tracks[i].states| >= 1
      ensures Consecutive(t2.tracks[i].states) && LastState(t2.tracks[i]).idx < f + 1
    {
      if i < n0 {
        OldTrackOk(t, m.tracks, f, i);
      }
    }
  }

  /** A track that existed before the frame is still well-formed after the matching loop. */
  lemma OldTrackOk(t: Tables, mt: seq<Track>, f: nat, i: nat)
    requires TracksOk(t.tracks, f) && ActiveOk(t.active, t.tracks, f)
    requires TracksSince(t.active, t.tracks, mt, f)
    requires i < |t.tracks|
    ensures mt[i].id == i + 1 && |mt[i].states| >= 1
    ensures Consecutive(mt[i].states) && LastState(mt[i]).idx < f + 1
  {
    if mt[i] != t.tracks[i] {
      var p :| 0 <= p < |t.active| && t.active[p].id == i + 1;
      assert LiveEntry(t.active[p], t.tracks, f);
      ExtendedOk(t.tracks[i], mt[i], f);
    }
  }

  lemma ExtendedOk(t0: Track, t: Track, f: nat)
    requires |t0.states| >= 1 && Consecutive(t0.states) && LastState(t0).idx + 1 == f
    requires Extended(t0, t, f)
    ensures |t.states| >= 1 && Consecutive(t.states) && LastState(t).idx == f
  {
    var st := t.states[|t0.states|];
    assert t.states == t0.states + [st];
    ConsecutiveSnoc(t0.states, st);
  }

  /** The active table after a frame: matched entries, then new tracks, ids increasing. */
  lemma StepActiveOk(t: Tables, m: Matching, t2: Tables, f: nat)
    requires Inv(t, f) && IdsIncreasing(m.active)
    requires HeadMatched(m.active, t.active, t.tracks, m.tracks, f)
    requires Spawned(f, Tables(m.tracks, m.active, t.nextId), t2)
    requires forall i :: 0 <= i < |t.tracks| ==> t2.tracks[i] == m.tracks[i]
    ensures ActiveOk(t2.active, t2.tracks, f + 1)
    ensures forall p :: 0 <= p < |t2.active| ==> HasKey(t.active, t2.active[p].id) || t2.active[p].id > |t.tracks|
  {
    var n0, a0 := |t.tracks|, |m.active|;
    forall p | 0 <= p < |t2.active|
      ensures LiveEntry(t2.active[p], t2.tracks, f + 1)
      ensures p < a0 ==> t2.active[p] == m.active[p]
      ensures p < a0 ==> 1 <= t2.active[p].id <= n0 && HasKey(t.active, t2.active[p].id)
      ensures p >= a0 ==> t2.active[p].id == n0 + (p - a0) + 1
    {
      if p < a0 {
        HeadEntryLive(t, m, t2, f, p);
      } else {
        NewEntryLive(t, m, t2, f, p);
      }
    }
  }

  /** An entry matched in this frame names its track, which now ends with that box. */
  lemma HeadEntryLive(t: Tables, m: Matching, t2: Tables, f: nat, p: nat)
    requires HeadMatched(m.active, t.active, t.tracks, m.tracks, f)
    requires Spawned(f, Tables(m.tracks, m.active, t.nextId), t2)
    requires forall i :: 0 <= i < |t.tracks| ==> t2.tracks[i] == m.tracks[i]
    requires p < |m.active|
    ensures t2.active[p] == m.active[p]
    ensures 1 <= t2.active[p].id <= |t.tracks| && HasKey(t.active, t2.active[p].id)
    ensures LiveEntry(t2.active[p], t2.tracks, f + 1)
  {
    assert t2.active[p] == t2.active[..|m.active|][p];
    var e := m.active[p];
    var t0, t1 := t.tracks[e.id - 1], m.tracks[e.id - 1];
    assert Extended(t0, t1, f);
    assert t2.tracks[e.id - 1] == t1;
  }

  /** An entry added in this frame names the new track of one state with that box. */
  lemma NewEntryLive(t: Tables, m: Matching, t2: Tables, f: nat, p: nat)
    requires |m.tracks| == |t.tracks|
    requires Spawned(f, Tables(m.tracks, m.active, t.nextId), t2)
    requires |m.active| <= p < |t2.active|
    ensures t2.active[p].id == |t.tracks| + (p - |m.active|) + 1
    ensures LiveEntry(t2.active[p], t2.tracks, f + 1)
  {
    var q := |t.tracks| + (p - |m.active|);
    assert t2.active[|m.active| + (q - |t.tracks|)] == Entry(q + 1, t2.tracks[q].states[0].box);
  }

  /** Old tracks keep their states as a prefix; no track disappears. */
  ghost predicate Grows(t: Tables, t2: Tables) {
    && |t2.tracks| >= |t.tracks|
    && forall i :: 0 <= i < |t.tracks| ==>
         |t2.tracks[i].states| >= |t.tracks[i].states|
         && t2.tracks[i].states[..|t.tracks[i].states|] == t.tracks[i].states
  }

  /** A track that is not active stays unchanged and inactive. */
  ghost predicate RetiredStay(t: Tables, t2: Tables) {
    && |t2.tracks| >= |t.tracks|
    && forall i :: 0 <= i < |t.tracks| && !HasKey(t.active, i + 1) ==>
         t2.tracks[i] == t.tracks[i] && !HasKey(t2.active, i + 1)
  }

  /** The two phases of a frame: the matching loop, then the new tracks. */
  lemma StepFacts(t: Tables, step: Step, thresh: real, f: nat) returns (m: Matching)
    requires Inv(t, f) && step.idx == f && AllWellFormed(step.boxes) && ActiveWellFormed(t.active)
    ensures m == MatchUpTo(t.active, step, thresh, t.tracks, |t.active|)
    ensures IdsIncreasing(m.active)
    ensures TracksSince(t.active, t.tracks, m.tracks, f)
    ensures HeadMatched(m.active, t.active, t.tracks, m.tracks, f)
    ensures Spawned(f, Tables(m.tracks, m.active, t.nextId), StepTables(t, step, thresh))
    ensures TotalStates(StepTables(t, step, thresh).tracks) == TotalStates(t.tracks) + |step.boxes|
  {
    m := MatchUpTo(t.active, step, thresh, t.tracks, |t.active|);
    AfterMatching(t, step, thresh, f);
    var t1 := Tables(m.tracks, m.active, t.nextId);
    SpawnAll(step, m.assignedIdx, t1, f, |step.boxes|);
    CountUnassignedComplement(m.assignedIdx, |step.boxes|);
  }

  /** The tracking loop's invariant holds again after a frame, with one state per car box added. */
  lemma StepPreserves(t: Tables, step: Step, thresh: real, f: nat)
    requires Inv(t, f) && step.idx == f && AllWellFormed(step.boxes) && ActiveWellFormed(t.active)
    ensures Inv(StepTables(t, step, thresh), f + 1)
    ensures TotalStates(StepTables(t, step, thresh).tracks) == TotalStates(t.tracks) + |step.boxes|
  {
    var m := StepFacts(t, step, thresh, f);
    var t2 := StepTables(t, step, thresh);
    StepTracksOk(t, m, t2, f);
    StepActiveOk(t, m, t2, f);
  }

  /** A frame only appends states, and leaves retired tracks alone. */
  lemma StepGrows(t: Tables, step: Step, thresh: real, f: nat)
    requires Inv(t, f) && step.idx == f && AllWellFormed(step.boxes) && ActiveWellFormed(t.active)
    ensures Grows(t, StepTables(t, step, thresh))
    ensures RetiredStay(t, StepTables(t, step, thresh))
  {
    var m := StepFacts(t, step, thresh, f);
    var t2 := StepTables(t, step, thresh);
    StepTracksOk(t, m, t2, f);
    StepActiveOk(t, m, t2, f);
    GrowsFromParts(t, m.tracks, t2, f);
    RetiredFromParts(t, m.tracks, t2, f);
  }

  lemma GrowsFromParts(t: Tables, mid: seq<Track>, t2: Tables, f: nat)
    requires TracksSince(t.active, t.tracks, mid, f)
    requires |t2.tracks| >= |t.tracks|
    requires forall i :: 0 <= i < |t.tracks| ==> t2.tracks[i] == mid[i]
    ensures Grows(t, t2)
  {
    forall i | 0 <= i < |t.tracks|
      ensures |t2.tracks[i].states| >= |t.tracks[i].states|
      ensures t2.tracks[i].states[..|t.tracks[i].states|] == t.tracks[i].states
    {
      assert t.tracks[i].states[..|t.tracks[i].states|] == t.tracks[i].states;
    }
  }

  lemma RetiredFromParts(t: Tables, mid: seq<Track>, t2: Tables, f: nat)
    requires TracksSince(t.active, t.tracks, mid, f)
    requires |t2.tracks| >= |t.tracks|
    requires forall i :: 0 <= i < |t.tracks| ==> t2.tracks[i] == mid[i]
    requires forall p :: 0 <= p < |t2.active| ==> HasKey(t.active, t2.active[p].id) || t2.active[p].id > |t.tracks|
    ensures RetiredStay(t, t2)
  {
  }

  lemma GrowsTrans(a: Tables, b: Tables, c: Tables)
    requires Grows(a, b) && Grows(b, c)
    ensures Grows(a, c)
  {
    forall i | 0 <= i < |a.tracks|
      ensures |c.tracks[i].states| >= |a.tracks[i].states|
      ensures c.tracks[i].states[..|a.tracks[i].states|] == a.tracks[i].states
    {
      var sa, sb, sc := a.tracks[i].states, b.tracks[i].states, c.tracks[i].states;
      assert sc[..|sb|] == sb;
      assert sc[..|sa|] == sb[..|sa|];
    }
  }

  lemma RetiredTrans(a: Tables, b: Tables, c: Tables)
    requires RetiredStay(a, b) && RetiredStay(b, c)
    ensures RetiredStay(a, c)
  {
  }

  lemma Unchanged(a: Tables)
    ensures Grows(a, a) && RetiredStay(a, a)
  {
    forall i | 0 <= i < |a.tracks| ensures a.tracks[i].states[..|a.tracks[i].states|] == a.tracks[i].states {
    }
  }

  /* ---------- The whole run ---------- */

  /** Step i of the input is frame i. */
  ghost predicate Indexed(steps: seq<Step>) {
    forall i :: 0 <= i < |steps| ==> steps[i].idx == i
  }

  lemma TotalBoxesSnoc(steps: seq<Step>, n: nat)
    requires n < |steps|
    ensures TotalBoxes(steps[..n + 1]) == TotalBoxes(steps[..n]) + |steps[n].boxes|
  {
    assert steps[..n + 1][..n] == steps[..n];
  }

  /**
   * After n frames the invariant holds, and the tracks hold exactly as
   * many states as the frames had car boxes.
   */
  lemma {:induction false} RunInvariant(steps: seq<Step>, thresh: real, n: nat)
    requires n <= |steps| && StepsWellFormed(steps) && Indexed(steps)
    ensures Inv(RunUpTo(steps, thresh, n), n)
    ensures TotalStates(RunUpTo(steps, thresh, n).tracks) == TotalBoxes(steps[..n])
  {
    if n > 0 {
      RunInvariant(steps, thresh, n - 1);
      StepPreserves(RunUpTo(steps, thresh, n - 1), steps[n - 1], thresh, n - 1);
      assert RunUpTo(steps, thresh, n) == StepTables(RunUpTo(steps, thresh, n - 1), steps[n - 1], thresh);
      TotalBoxesSnoc(steps, n - 1);
    }
  }

  /** Frame n only appends states and leaves retired tracks alone. */
  lemma RunStep(steps: seq<Step>, thresh: real, n: nat)
    requires n < |steps| && StepsWellFormed(steps) && Indexed(steps)
    ensures Grows(RunUpTo(steps, thresh, n), RunUpTo(steps, thresh, n + 1))
    ensures RetiredStay(RunUpTo(steps, thresh, n), RunUpTo(steps, thresh, n + 1))
  {
    RunInvariant(steps, thresh, n);
    StepGrows(RunUpTo(steps, thresh, n), steps[n], thresh, n);
  }

  /**
   * From frame n to any later frame n2: states are only ever appended (a
   * track's history is never rewritten), and a track missing from `active`
   * is never extended or re-activated.
   */
  lemma {:induction false} HistoryKept(steps: seq<Step>, thresh: real, n: nat, n2: nat)
    requires n <= n2 <= |steps| && StepsWellFormed(steps) && Indexed(steps)
    ensures Grows(RunUpTo(steps, thresh, n), RunUpTo(steps, thresh, n2))
    ensures RetiredStay(RunUpTo(steps, thresh, n), RunUpTo(steps, thresh, n2))
    decreases n2 - n
  {
    if n2 > n {
      HistoryKept(steps, thresh, n, n2 - 1);
      RunStep(steps, thresh, n2 - 1);
      var a, b, c := RunUpTo(steps, thresh, n), RunUpTo(steps, thresh, n2 - 1), RunUpTo(steps, thresh, n2);
      GrowsTrans(a, b, c);
      RetiredTrans(a, b, c);
    } else {
      Unchanged(RunUpTo(steps, thresh, n));
    }
  }
}
