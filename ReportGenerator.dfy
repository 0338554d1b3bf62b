/**
 * The pure part of `CrashTruth-ReportGenerator.py`: the choice of the
 * primary track (the most dangerous one) and of the struck track (the slow
 * one most likely hit), and the summary statistics handed to the report
 * writer.  Findings are read back from `faults.json`, where any field but
 * the track id may be missing.
 */
module ReportGenerator {

  import opened Common
  import opened Text
  import opened Sorting
  import FaultAnalyzer

  /** One finding as read back; a missing risk reads as "low", a missing speed as 0.0. */
  datatype FindingIn = FindingIn(
    trackId: int, risk: Option<string>, flags: seq<string>, minTtc: Option<real>, meanSpeed: Option<real>)

  /**
   * The parts of `faults.json` the statistics read.  A missing `thresholds`
   * or `summary` object is `None` (the `{}` of `faults.get(..., {})`).
   */
  datatype FaultsIn = FaultsIn(
    videoPrefix: string, fps: Option<real>, findings: seq<FindingIn>, causes: seq<string>,
    thresholds: Option<FaultAnalyzer.Thresholds>, summary: Option<FaultAnalyzer.Bucket>)

  /** The rank of a track without a time to collision. */
  const NoTtc: real := 1000000000.0

  /** The speed at or below which a track counts as slow for the struck pick. */
  const SlowSpeed: real := 20.0

  function Mttc(t: FindingIn): real {
    t.minTtc.GetOr(NoTtc)
  }

  function Spd(t: FindingIn): real {
    t.meanSpeed.GetOr(0.0)
  }

  /** `-int(flag in t["flags"])` */
  function NegHas(t: FindingIn, flag: string): int {
    if flag in t.flags then -1 else 0
  }

  /* ---------- Primary and struck ---------- */

  /** The primary key `(mttc or 1e9, -cut_in, -hard_approach, -speed)`, compared as a tuple. */
  predicate PrimaryLe(a: FindingIn, b: FindingIn) {
    Mttc(a) < Mttc(b)
    || (Mttc(a) == Mttc(b)
        && (NegHas(a, FaultAnalyzer.SuddenCutin) < NegHas(b, FaultAnalyzer.SuddenCutin)
            || (NegHas(a, FaultAnalyzer.SuddenCutin) == NegHas(b, FaultAnalyzer.SuddenCutin)
                && (NegHas(a, FaultAnalyzer.HardApproach) < NegHas(b, FaultAnalyzer.HardApproach)
                    || (NegHas(a, FaultAnalyzer.HardApproach) == NegHas(b, FaultAnalyzer.HardApproach)
                        && -Spd(a) <= -Spd(b))))))
  }

  lemma PrimaryLeTotalPreorder()
    ensures TotalPreorder(PrimaryLe)
  {
  }

  predicate Slowish(t: FindingIn) {
    FaultAnalyzer.VerySlowTrack in t.flags || Spd(t) <= SlowSpeed
  }

  predicate TtcLe(a: FindingIn, b: FindingIn) {
    Mttc(a) <= Mttc(b)
  }

  lemma TtcLeTotalPreorder()
    ensures TotalPreorder(TtcLe)
  {
  }

  datatype Pick = Pick(primary: Option<FindingIn>, struck: Option<FindingIn>)

  /** `min(slowish, key=mttc)` over the slowish findings, if there are any. */
  function Struck(findings: seq<FindingIn>): Option<FindingIn> {
    var slowish := Filter(findings, Slowish);
    if slowish == [] then None else Some(slowish[MinIndex(slowish, TtcLe)])
  }

  /** `pick_primary_and_struck(faults)` */
  function PickPrimaryAndStruck(findings: seq<FindingIn>): (r: Pick)
    ensures r.primary.None? <==> findings == []
    ensures findings == [] ==> r.struck.None?
  {
    if findings == [] then Pick(None, None)
    else Pick(Some(SortBy(findings, PrimaryLe)[0]), Struck(findings))
  }

  /**
   * The primary is the first finding, in input order, whose key is least:
   * the head of the stable sort is what `min` with the same key returns.
   */
  lemma PrimaryIsFirstLeast(findings: seq<FindingIn>)
    requires findings != []
    ensures var p := PickPrimaryAndStruck(findings).primary.value;
            var k := MinIndex(findings, PrimaryLe);
            && p == findings[k]
            && (forall j :: 0 <= j < |findings| ==> PrimaryLe(p, findings[j]))
            && (forall i :: 0 <= i < k ==> !PrimaryLe(findings[i], p))
  {
    PrimaryLeTotalPreorder();
    SortByHeadIsMin(findings, PrimaryLe);
    MinIndexIsFirstLeast(findings, PrimaryLe);
  }

  /** There is a struck track iff some finding is slowish. */
  lemma StruckExists(findings: seq<FindingIn>)
    ensures PickPrimaryAndStruck(findings).struck == Struck(findings)
    ensures Struck(findings).None?
        <==> forall j :: 0 <= j < |findings| ==> !Slowish(findings[j])
  {
    var slowish := Filter(findings, Slowish);
    if slowish != [] {
      assert slowish[0] in findings && Slowish(slowish[0]);
    }
  }

  /**
   * The struck track is the first slowish finding with the least time to
   * collision, a missing one ranking as 1e9.
   */
  lemma StruckIsFirstLeast(findings: seq<FindingIn>)
    requires Struck(findings).Some?
    ensures var s := Struck(findings).value;
            var slowish := Filter(findings, Slowish);
            && s in findings && Slowish(s)
            && (forall j :: 0 <= j < |findings| && Slowish(findings[j]) ==> Mttc(s) <= Mttc(findings[j]))
            && (forall i :: 0 <= i < MinIndex(slowish, TtcLe) ==> Mttc(slowish[i]) > Mttc(s))
  {
    TtcLeTotalPreorder();
    FilteredLeast(findings, Slowish, TtcLe);
  }

  /** A slow track without a time to collision can be the struck one. */
  lemma StruckMayLackTtc()
    ensures var t := FindingIn(1, None, [FaultAnalyzer.VerySlowTrack], None, Some(5.0));
            Struck([t]) == Some(t)
  {
    var t := FindingIn(1, None, [FaultAnalyzer.VerySlowTrack], None, Some(5.0));
    assert Filter([t], Slowish) == [t];
  }

  /* ---------- Summary statistics ---------- */

  /** `t.get("risk", "low").lower()` */
  function RiskOf(t: FindingIn): string {
    Lower(t.risk.GetOr("low"))
  }

  predicate RiskHigh(t: FindingIn) {
    RiskOf(t) == "high"
  }

  predicate RiskMedium(t: FindingIn) {
    RiskOf(t) == "medium"
  }

  predicate RiskLow(t: FindingIn) {
    RiskOf(t) == "low"
  }

  /** How many findings carry `flag`. */
  function CountFlag(findings: seq<FindingIn>, flag: string): nat {
    |Filter(findings, (t: FindingIn) => flag in t.flags)|
  }

  datatype WorstTtc = WorstTtc(trackId: Option<int>, seconds: Option<real>)

  datatype TtcEntry = TtcEntry(trackId: int, seconds: real)

  datatype SpeedEntry = SpeedEntry(trackId: int, speed: real)

  datatype RiskyEntry = RiskyEntry(
    trackId: int, risk: Option<string>, minTtc: Option<real>, meanSpeed: real, flags: seq<string>)

  datatype CauseCounts = CauseCounts(
    suddenCutin: nat, hardApproach: nat, weaving: nat, verySlowTrack: nat, lowTtcSustained: nat)

  datatype ReportStats = ReportStats(
    videoId: string, fps: Option<real>,
    total: nat, high: nat, medium: nat, low: nat,
    worstTtc: WorstTtc, fastest: seq<SpeedEntry>, topRisky: seq<RiskyEntry>,
    causeCounts: CauseCounts, causesOverall: seq<string>,
    thresholds: Option<FaultAnalyzer.Thresholds>, summary: Option<FaultAnalyzer.Bucket>, pick: Pick)

  predicate HasTtc(t: FindingIn) {
    t.minTtc.Some?
  }

  /** `[(t["track_id"], mttc(t)) for t in tracks if mttc(t) is not None]` */
  function TtcEntries(findings: seq<FindingIn>): (r: seq<TtcEntry>)
    ensures |r| <= |findings|
  {
    var f := Filter(findings, HasTtc);
    seq(|f|, i requires 0 <= i < |f| => TtcEntry(f[i].trackId, f[i].minTtc.value))
  }

  predicate SecondsLe(a: TtcEntry, b: TtcEntry) {
    a.seconds <= b.seconds
  }

  function WorstTtcOf(findings: seq<FindingIn>): WorstTtc {
    var ttcs := TtcEntries(findings);
    if ttcs == [] then WorstTtc(None, None)
    else
      var e := ttcs[MinIndex(ttcs, SecondsLe)];
      WorstTtc(Some(e.trackId), Some(e.seconds))
  }

  /**
   * `worst_ttc` is empty iff no finding has a time to collision; otherwise
   * it names a finding with the least one, the first such entry, as `min`
   * returns.
   */
  lemma WorstTtcMeaning(findings: seq<FindingIn>)
    ensures var w := WorstTtcOf(findings);
            var ttcs := TtcEntries(findings);
            && (w.seconds.None? <==> forall k :: 0 <= k < |findings| ==> findings[k].minTtc.None?)
            && (w.seconds.None? <==> w.trackId.None?)
            && (w.seconds.Some? ==> exists k :: 0 <= k < |findings|
                                       && findings[k].minTtc == w.seconds && Some(findings[k].trackId) == w.trackId)
            && (w.seconds.Some? ==> forall k :: 0 <= k < |findings| && findings[k].minTtc.Some?
                                       ==> w.seconds.value <= findings[k].minTtc.value)
            && (w.seconds.Some? ==> forall i :: 0 <= i < MinIndex(ttcs, SecondsLe) ==> ttcs[i].seconds > w.seconds.value)
  {
    var f := Filter(findings, HasTtc);
    var ttcs := TtcEntries(findings);
    if ttcs != [] {
      var m := MinIndex(ttcs, SecondsLe);
      MinIndexIsFirstLeast(ttcs, SecondsLe);
      assert f[m] in findings;
      forall k | 0 <= k < |findings| && findings[k].minTtc.Some?
        ensures ttcs[m].seconds <= findings[k].minTtc.value
      {
        assert findings[k] in f;
        var i :| 0 <= i < |f| && f[i] == findings[k];
        assert SecondsLe(ttcs[m], ttcs[i]);
      }
    } else {
      assert forall k :: 0 <= k < |findings| ==> findings[k].minTtc.None?;
    }
  }

  /** `[(t["track_id"], spd(t)) for t in tracks]` */
  function SpeedEntries(findings: seq<FindingIn>): (r: seq<SpeedEntry>)
    ensures |r| == |findings|
    ensures forall i :: 0 <= i < |r| ==> r[i] == SpeedEntry(findings[i].trackId, Spd(findings[i]))
  {
    seq(|findings|, i requires 0 <= i < |findings| => SpeedEntry(findings[i].trackId, Spd(findings[i])))
  }

  /** The order of `sorted(..., key=speed, reverse=True)`, which stays stable. */
  predicate SpeedGe(a: SpeedEntry, b: SpeedEntry) {
    a.speed >= b.speed
  }

  lemma SpeedGeTotalPreorder()
    ensures TotalPreorder(SpeedGe)
  {
  }

  function Fastest(findings: seq<FindingIn>): seq<SpeedEntry> {
    Take(SortBy(SpeedEntries(findings), SpeedGe), 5)
  }

  /** The entries left out of `fastest_tracks` are no faster than the last one kept. */
  lemma FastestKeepsFastest(findings: seq<FindingIn>)
    ensures var r := Fastest(findings);
            && multiset(r) <= multiset(SpeedEntries(findings))
            && (r != [] ==> forall e :: e in multiset(SpeedEntries(findings)) - multiset(r) ==> e.speed <= r[|r| - 1].speed)
  {
    SpeedGeTotalPreorder();
    TakeSortedKeepsLeast(SpeedEntries(findings), SpeedGe, 5);
  }

  /**
   * The order of `fastest_tracks`: at most five entries, speeds
   * non-increasing, each the pair of some finding, and the first one as
   * fast as any finding.
   */
  lemma FastestOrder(findings: seq<FindingIn>)
    ensures var r := Fastest(findings);
            && |r| == (if |findings| < 5 then |findings| else 5)
            && (forall i, j :: 0 <= i < j < |r| ==> r[i].speed >= r[j].speed)
            && (forall i :: 0 <= i < |r| ==> exists k :: 0 <= k < |findings| && r[i] == SpeedEntry(findings[k].trackId, Spd(findings[k])))
            && (r != [] ==> forall k :: 0 <= k < |findings| ==> r[0].speed >= Spd(findings[k]))
  {
    var es := SpeedEntries(findings);
    var sorted := SortBy(es, SpeedGe);
    SpeedGeTotalPreorder();
    SortBySorted(es, SpeedGe);
    var r := Fastest(findings);
    forall i | 0 <= i < |r|
      ensures exists k :: 0 <= k < |findings| && r[i] == SpeedEntry(findings[k].trackId, Spd(findings[k]))
    {
      assert r[i] == sorted[i];
      assert sorted[i] in multiset(es);
      var k :| 0 <= k < |es| && es[k] == sorted[i];
    }
    if r != [] {
      forall k | 0 <= k < |findings| ensures r[0].speed >= Spd(findings[k]) {
        assert es[k] in multiset(sorted);
        var j :| 0 <= j < |sorted| && sorted[j] == es[k];
        if j > 0 {
          assert SpeedGe(sorted[0], sorted[j]);
        }
      }
    }
  }

  /** `fastest_tracks` are the five fastest (track id, speed) pairs, fastest first. */
  lemma FastestMeaning(findings: seq<FindingIn>)
    ensures var r := Fastest(findings);
            && |r| == (if |findings| < 5 then |findings| else 5)
            && (forall i, j :: 0 <= i < j < |r| ==> r[i].speed >= r[j].speed)
            && (forall i :: 0 <= i < |r| ==> exists k :: 0 <= k < |findings| && r[i] == SpeedEntry(findings[k].trackId, Spd(findings[k])))
            && (r != [] ==> forall k :: 0 <= k < |findings| ==> r[0].speed >= Spd(findings[k]))
            && multiset(r) <= multiset(SpeedEntries(findings))
            && (r != [] ==> forall e :: e in multiset(SpeedEntries(findings)) - multiset(r) ==> e.speed <= r[|r| - 1].speed)
  {
    FastestOrder(findings);
    FastestKeepsFastest(findings);
  }

  /** The key `(mttc or 1e9, -speed)` of `top_risky`. */
  predicate RiskyLe(a: FindingIn, b: FindingIn) {
    Mttc(a) < Mttc(b) || (Mttc(a) == Mttc(b) && -Spd(a) <= -Spd(b))
  }

  lemma RiskyLeTotalPreorder()
    ensures TotalPreorder(RiskyLe)
  {
  }

  function RiskyEntryOf(t: FindingIn): RiskyEntry {
    RiskyEntry(t.trackId, t.risk, t.minTtc, Spd(t), t.flags)
  }

  /** The findings of `top_risky`, before they are rendered as entries. */
  function TopRisky(findings: seq<FindingIn>): seq<FindingIn> {
    Take(SortBy(findings, RiskyLe), 8)
  }

  /** The order of `top_risky`: at most eight findings, in key order, none of them new, the first of least key. */
  lemma TopRiskyOrder(findings: seq<FindingIn>)
    ensures var r := TopRisky(findings);
            && |r| == (if |findings| < 8 then |findings| else 8)
            && (forall i, j :: 0 <= i < j < |r| ==> RiskyLe(r[i], r[j]))
            && (forall i :: 0 <= i < |r| ==> r[i] in findings)
            && (r != [] ==> forall k :: 0 <= k < |findings| ==> RiskyLe(r[0], findings[k]))
  {
    var sorted := SortBy(findings, RiskyLe);
    RiskyLeTotalPreorder();
    SortBySorted(findings, RiskyLe);
    var r := TopRisky(findings);
    forall i | 0 <= i < |r| ensures r[i] in findings {
      assert sorted[i] in multiset(findings);
    }
    if r != [] {
      forall k | 0 <= k < |findings| ensures RiskyLe(r[0], findings[k]) {
        assert findings[k] in multiset(sorted);
        var j :| 0 <= j < |sorted| && sorted[j] == findings[k];
        if j == 0 {
          assert RiskyLe(sorted[0], sorted[0]);
        }
      }
    }
  }

  /** The findings left out of `top_risky` rank no earlier than the last one kept. */
  lemma TopRiskyKeepsLeast(findings: seq<FindingIn>)
    ensures var r := TopRisky(findings);
            && multiset(r) <= multiset(findings)
            && (r != [] ==> forall t :: t in multiset(findings) - multiset(r) ==> RiskyLe(r[|r| - 1], t))
  {
    RiskyLeTotalPreorder();
    TakeSortedKeepsLeast(findings, RiskyLe, 8);
  }

  /** `top_risky` are the eight findings of least key, in key order. */
  lemma TopRiskyMeaning(findings: seq<FindingIn>)
    ensures var r := TopRisky(findings);
            && |r| == (if |findings| < 8 then |findings| else 8)
            && (forall i, j :: 0 <= i < j < |r| ==> RiskyLe(r[i], r[j]))
            && (forall i :: 0 <= i < |r| ==> r[i] in findings)
            && (r != [] ==> forall k :: 0 <= k < |findings| ==> RiskyLe(r[0], findings[k]))
            && multiset(r) <= multiset(findings)
            && (r != [] ==> forall t :: t in multiset(findings) - multiset(r) ==> RiskyLe(r[|r| - 1], t))
  {
    TopRiskyOrder(findings);
    TopRiskyKeepsLeast(findings);
  }

  function Counts(findings: seq<FindingIn>): CauseCounts {
    CauseCounts(
      CountFlag(findings, FaultAnalyzer.SuddenCutin),
      CountFlag(findings, FaultAnalyzer.HardApproach),
      CountFlag(findings, FaultAnalyzer.LateralInstability),
      CountFlag(findings, FaultAnalyzer.VerySlowTrack),
      CountFlag(findings, FaultAnalyzer.LowTtcSustained))
  }

  /** `compute_stats(faults)` */
  function ComputeStats(faults: FaultsIn): (s: ReportStats)
    ensures s.total == |faults.findings|
    ensures s.high <= s.total && s.medium <= s.total && s.low <= s.total
    ensures s.fps == faults.fps && s.causesOverall == faults.causes
    ensures s.thresholds == faults.thresholds && s.summary == faults.summary
  {
    var fs := faults.findings;
    ReportStats(
      if faults.videoPrefix != "" then AfterLastSlash(faults.videoPrefix) else faults.videoPrefix,
      faults.fps,
      |fs|,
      |Filter(fs, RiskHigh)|,
      |Filter(fs, RiskMedium)|,
      |Filter(fs, RiskLow)|,
      WorstTtcOf(fs),
      Fastest(fs),
      seq(|TopRisky(fs)|, i requires 0 <= i < |TopRisky(fs)| => RiskyEntryOf(TopRisky(fs)[i])),
      Counts(fs),
      faults.causes,
      faults.thresholds,
      faults.summary,
      PickPrimaryAndStruck(fs))
  }

  /** A finding without a risk counts as low. */
  lemma MissingRiskIsLow(t: FindingIn)
    requires t.risk.None?
    ensures RiskOf(t) == "low"
  {
    LowerOfLower("low");
  }

  /**
   * When every risk lower-cases to one of the three levels, the three
   * counts add up to the number of findings.
   */
  lemma CountsAddUp(faults: FaultsIn)
    requires forall k :: 0 <= k < |faults.findings| ==> RiskOf(faults.findings[k]) in ["high", "medium", "low"]
    ensures var s := ComputeStats(faults);
            s.high + s.medium + s.low == s.total
  {
    FilterPartition(faults.findings, RiskHigh, RiskMedium, RiskLow);
  }

  /** `video_id` is what follows the last '/' of the prefix, and `weaving` counts lateral instability. */
  lemma VideoIdAndWeaving(faults: FaultsIn)
    ensures var s := ComputeStats(faults);
            && '/' !in s.videoId
            && (faults.videoPrefix == s.videoId || faults.videoPrefix == BeforeLastSlash(faults.videoPrefix) + "/" + s.videoId)
            && s.causeCounts.weaving == |Filter(faults.findings, (t: FindingIn) => FaultAnalyzer.LateralInstability in t.flags)|
  {
    if '/' in faults.videoPrefix {
      SplitAtLastSlash(faults.videoPrefix);
    }
  }

  /* ---------- Findings written by the fault analyzer ---------- */

  function RiskName(r: FaultAnalyzer.Risk): string {
    match r
    case High => "high"
    case Medium => "medium"
    case Low => "low"
  }

  /** A finding of `faults.json` as the analyzer writes it. */
  function FromAnalyzer(f: FaultAnalyzer.Finding): FindingIn {
    FindingIn(f.trackId, Some(RiskName(f.risk)), f.flags, f.minTtc, Some(f.meanSpeed))
  }

  function FromAnalyzerAll(fs: seq<FaultAnalyzer.Finding>): seq<FindingIn> {
    seq(|fs|, k requires 0 <= k < |fs| => FromAnalyzer(fs[k]))
  }

  /** The analyzer writes one of the three risk levels, already in lower case. */
  lemma AnalyzerRisk(f: FaultAnalyzer.Finding)
    ensures RiskOf(FromAnalyzer(f)) in ["high", "medium", "low"]
  {
    match f.risk
    case High => LowerOfLower("high");
    case Medium => LowerOfLower("medium");
    case Low => LowerOfLower("low");
  }

  /** `faults.json` as the fault analyzer writes it, read back by the report generator. */
  function FromDoc(doc: FaultAnalyzer.FaultsDoc): FaultsIn {
    FaultsIn(doc.videoPrefix, Some(doc.fps), FromAnalyzerAll(doc.findings), doc.causes,
             Some(doc.thresholds), Some(FaultAnalyzer.Bucket(doc.highestRisk, doc.reasons)))
  }

  /**
   * For the analyzer's own document the risk counts always add up, and the
   * statistics carry its causes, thresholds and summary.
   */
  lemma AnalyzerCountsAddUp(doc: FaultAnalyzer.FaultsDoc)
    ensures var s := ComputeStats(FromDoc(doc));
            && s.total == |doc.findings|
            && s.high + s.medium + s.low == s.total
            && s.causesOverall == doc.causes && s.thresholds == Some(doc.thresholds)
            && s.summary == Some(FaultAnalyzer.Bucket(doc.highestRisk, doc.reasons))
  {
    var fs := FromAnalyzerAll(doc.findings);
    forall k | 0 <= k < |fs| ensures RiskOf(fs[k]) in ["high", "medium", "low"] {
      AnalyzerRisk(doc.findings[k]);
    }
    CountsAddUp(FromDoc(doc));
  }
}
