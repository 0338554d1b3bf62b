/**
 * The progress endpoint (`lambda_getCloudWatch`): turning "Processed X/Y"
 * log lines into a progress level, normalising timestamps to milliseconds,
 * picking the log event that describes the current run, and holding back
 * level 4 until the report generator has logged "Report generated".
 *
 * The regular expressions are not modelled: each log message arrives with
 * what they extracted (`Scan`). The wall clock is a parameter: `now` is the
 * current time of day in seconds since midnight.
 */
module Progress {

  import opened Common
  import opened Sorting

  // ---------------------------------------------------------------------
  // parse_progress_level
  // ---------------------------------------------------------------------

  /** What `Processed\s+\[(HH:MM:SS)\]\s+(\d+)/(\d+)` captured. */
  datatype BracketMatch = BracketMatch(clock: string, processed: nat, total: nat)

  /** What `Processed\s+(\d+)/(\d+)` captured. */
  datatype PlainMatch = PlainMatch(processed: nat, total: nat)

  /** The outcome of both searches on one message (`None`: no match). */
  datatype Scan = Scan(bracketed: Option<BracketMatch>, plain: Option<PlainMatch>)

  /** The dictionary `parse_progress_level` returns. */
  datatype ProgressInfo = ProgressInfo(level: nat, percentage: real, processed: nat, total: nat,
                                       isRecent: bool, messageTimestamp: Option<string>)

  const Unmatched := ProgressInfo(0, 0.0, 0, 0, false, None)

  const SecondsPerDay: real := 86400.0
  const RecentWindow: real := 120.0

  /** `(processed / total) * 100`, or 0 when there is no total. */
  function Percentage(processed: nat, total: nat): (p: real)
    ensures p >= 0.0
    ensures total == 0 ==> p == 0.0
    ensures total > 0 ==> p * (total as real) == (processed as real) * 100.0
    ensures total > 0 && processed <= total ==> p <= 100.0
  {
    if total > 0 then
      var q := processed as real / total as real;
      assert q * (total as real) == processed as real;
      q * 100.0
    else 0.0
  }

  /** The quarter of the work a percentage falls in: (0,25] is 1, ..., above 75 is 4. */
  function LevelOf(p: real): (l: nat)
    ensures 1 <= l <= 4
    ensures l == 1 || p > 25.0 * (l - 1) as real
    ensures l == 4 || p <= 25.0 * l as real
  {
    if p <= 25.0 then 1
    else if p <= 50.0 then 2
    else if p <= 75.0 then 3
    else 4
  }

  predicate IsDigit(c: char) { '0' <= c <= '9' }

  function DigitValue(c: char): (d: nat)
    requires IsDigit(c)
    ensures d < 10
  {
    c as int - '0' as int
  }

  /** `int(s)` on two digits. */
  function TwoDigits(s: string): (n: nat)
    requires |s| == 2 && IsDigit(s[0]) && IsDigit(s[1])
    ensures n < 100
  {
    DigitValue(s[0]) * 10 + DigitValue(s[1])
  }

  /**
   * `strptime(clock, "%H:%M:%S")` as seconds since midnight; `None` where
   * it raises (a field out of range, or not of the form HH:MM:SS).
   */
  function ClockSeconds(clock: string): (r: Option<nat>)
    ensures r.Some? ==> r.value < 86400
  {
    if |clock| == 8 && clock[2] == ':' && clock[5] == ':'
       && IsDigit(clock[0]) && IsDigit(clock[1]) && IsDigit(clock[3])
       && IsDigit(clock[4]) && IsDigit(clock[6]) && IsDigit(clock[7])
    then
      var h, m, s := TwoDigits(clock[0..2]), TwoDigits(clock[3..5]), TwoDigits(clock[6..8]);
      if h < 24 && m < 60 && s < 60 then Some(h * 3600 + m * 60 + s) else None
    else None
  }

  /**
   * Seconds from the message's clock time back to `now`: the message time
   * is taken as today's, or as yesterday's when it would lie in the future.
   */
  function Age(msg: nat, now: real): real {
    if msg as real > now then now - (msg as real - SecondsPerDay) else now - msg as real
  }

  /** The message was logged within the last two minutes; an unreadable clock counts as recent. */
  function ClockRecent(clock: string, now: real): bool {
    match ClockSeconds(clock)
    case None => true
    case Some(msg) => Age(msg, now) <= RecentWindow
  }

  /** The level, percentage and recency of one log message. */
  function ParseProgressLevel(m: Scan, now: real): (r: ProgressInfo)
    ensures r.level == 0 <==> m.bracketed.None? && m.plain.None?
    ensures r.level == 0 ==> r == Unmatched
    ensures r.level != 0 ==> r.percentage == Percentage(r.processed, r.total) && r.level == LevelOf(r.percentage)
    ensures m.bracketed.Some? ==>
      r.processed == m.bracketed.value.processed && r.total == m.bracketed.value.total
      && r.isRecent == ClockRecent(m.bracketed.value.clock, now)
      && r.messageTimestamp == Some(m.bracketed.value.clock)
    ensures m.bracketed.None? && m.plain.Some? ==>
      r.processed == m.plain.value.processed && r.total == m.plain.value.total
      && r.isRecent && r.messageTimestamp.None?
  {
    match m.bracketed
    case Some(b) =>
      var p := Percentage(b.processed, b.total);
      ProgressInfo(LevelOf(p), p, b.processed, b.total, ClockRecent(b.clock, now), Some(b.clock))
    case None =>
      match m.plain
      case Some(o) =>
        var p := Percentage(o.processed, o.total);
        ProgressInfo(LevelOf(p), p, o.processed, o.total, true, None)
      case None => Unmatched
  }

  /** A higher percentage never gives a lower level. */
  lemma LevelMonotone(p: real, q: real)
    requires p <= q
    ensures LevelOf(p) <= LevelOf(q)
  {
  }

  /** More frames processed out of the same total never lowers the level. */
  lemma LevelMonotoneInProcessed(a: nat, b: nat, total: nat)
    requires a <= b
    ensures LevelOf(Percentage(a, total)) <= LevelOf(Percentage(b, total))
  {
    var pa, pb := Percentage(a, total), Percentage(b, total);
    if total > 0 {
      var ra, rb := a as real, b as real;
      ScaleBoth(ra, rb, 100.0);
      CancelScaled(pa, pb, total as real, ra * 100.0, rb * 100.0);
    }
    LevelMonotone(pa, pb);
  }

  /** The level depends on the ratio processed/total and grows with it. */
  lemma LevelMonotoneInRatio(a: nat, s: nat, b: nat, t: nat)
    requires s > 0 && t > 0
    requires a * t <= b * s
    ensures LevelOf(Percentage(a, s)) <= LevelOf(Percentage(b, t))
  {
    var pa, pb := Percentage(a, s), Percentage(b, t);
    var ra, rb, rs, rt := a as real, b as real, s as real, t as real;
    CastMul(a, t);
    CastMul(b, s);
    ScaleBoth(ra * rt, rb * rs, 100.0);
    assert (ra * 100.0) * rt <= (rb * 100.0) * rs by {
      Rearrange(ra, rt, 100.0);
      Rearrange(rb, rs, 100.0);
    }
    CrossLe(pa, pb, rs, rt, ra * 100.0, rb * 100.0);
    LevelMonotone(pa, pb);
  }

  lemma CastMul(x: nat, y: nat)
    ensures (x * y) as real == (x as real) * (y as real)
  {
  }

  lemma ScaleBoth(x: real, y: real, c: real)
    requires x <= y && c >= 0.0
    ensures x * c <= y * c
  {
  }

  lemma Rearrange(x: real, y: real, c: real)
    ensures (x * c) * y == (x * y) * c
  {
  }

  /** From `pa*t == A`, `pb*t == B` and `A <= B` with positive t, `pa <= pb`. */
  lemma CancelScaled(pa: real, pb: real, t: real, A: real, B: real)
    requires t > 0.0 && pa * t == A && pb * t == B && A <= B
    ensures pa <= pb
  {
    CancelPositive(pa, pb, t);
  }

  /** From `pa*s == A`, `pb*t == B` and `A*t <= B*s` with positive s and t, `pa <= pb`. */
  lemma CrossLe(pa: real, pb: real, s: real, t: real, A: real, B: real)
    requires s > 0.0 && t > 0.0
    requires pa * s == A && pb * t == B && A * t <= B * s
    ensures pa <= pb
  {
    assert pa * (s * t) == A * t;
    assert pb * (s * t) == B * s;
    CancelPositive(pa, pb, s * t);
  }

  /** A matched message without a total is at level 1 with 0 percent. */
  lemma ZeroTotalIsLevelOne(m: Scan, now: real)
    requires m.bracketed.Some? || m.plain.Some?
    requires ParseProgressLevel(m, now).total == 0
    ensures ParseProgressLevel(m, now).level == 1 && ParseProgressLevel(m, now).percentage == 0.0
  {
  }

  /** All frames processed is level 4. */
  lemma FinishedIsLevelFour(processed: nat, total: nat)
    requires 0 < total <= processed
    ensures LevelOf(Percentage(processed, total)) == 4
  {
    var p := Percentage(processed, total);
    assert p * (total as real) == (processed as real) * 100.0;
    assert (total as real) <= (processed as real);
    assert 100.0 * (total as real) <= p * (total as real);
    CancelPositive(100.0, p, total as real);
  }

  /** A positive factor can be cancelled from both sides of `<=`. */
  lemma CancelPositive(x: real, y: real, t: real)
    requires t > 0.0 && x * t <= y * t
    ensures x <= y
  {
  }

  /** Only a message that matched one of the two patterns can be recent. */
  lemma RecentIsMatched(m: Scan, now: real)
    requires ParseProgressLevel(m, now).isRecent
    ensures 1 <= ParseProgressLevel(m, now).level <= 4
  {
  }

  /** The age of a message lies in [0, 1 day) and differs from the plain difference by at most a day. */
  lemma AgeRange(msg: nat, now: real)
    requires msg < 86400 && 0.0 <= now < SecondsPerDay
    ensures 0.0 <= Age(msg, now) < SecondsPerDay
    ensures Age(msg, now) == now - msg as real || Age(msg, now) == now - msg as real + SecondsPerDay
  {
  }

  /** A message from 23:59:30 is recent ten seconds after midnight. */
  lemma RecentAcrossMidnight()
    ensures ClockSeconds("23:59:30") == Some(86370)
    ensures ClockRecent("23:59:30", 10.0)
  {
    assert "23:59:30"[0..2] == "23" && "23:59:30"[3..5] == "59" && "23:59:30"[6..8] == "30";
  }

  /** A clock `strptime` rejects makes the message count as recent. */
  lemma UnreadableClockIsRecent(now: real)
    ensures ClockSeconds("24:00:00") == None
    ensures ClockRecent("24:00:00", now)
  {
    assert "24:00:00"[0..2] == "24";
  }

  // ---------------------------------------------------------------------
  // parse_timestamp
  // ---------------------------------------------------------------------

  /** Integers below this are seconds; from it on, milliseconds. */
  const MillisThreshold: int := 10000000000

  /**
   * The argument of `parse_timestamp`. A string carries, as `iso`, what
   * `datetime.fromisoformat` made of it in milliseconds (`None`: it raised).
   */
  datatype Stamp = IntStamp(i: int) | StrStamp(s: string, iso: Option<int>) | FloatStamp(x: real) | OtherStamp

  datatype Parsed = Millis(ms: int) | InvalidFormat | UnsupportedType

  predicate AllDigits(s: string) {
    forall i :: 0 <= i < |s| ==> IsDigit(s[i])
  }

  /** The value of a string of decimal digits. */
  function DigitsValue(s: string): nat
    requires AllDigits(s)
  {
    if s == [] then 0 else DigitsValue(s[..|s| - 1]) * 10 + DigitValue(s[|s| - 1])
  }

  function DigitChar(d: nat): (c: char)
    requires d < 10
    ensures IsDigit(c) && DigitValue(c) == d
  {
    ('0' as int + d) as char
  }

  /** `str(n)` for a natural number. */
  function Digits(n: nat): (s: string)
    ensures |s| >= 1 && AllDigits(s)
  {
    if n < 10 then [DigitChar(n)] else Digits(n / 10) + [DigitChar(n % 10)]
  }

  /** `int(s)` on an optional sign followed by decimal digits; `None` where it raises. */
  function ParseInt(s: string): (r: Option<int>)
    ensures r.Some? <==> (|s| >= 1 && AllDigits(s)) || (|s| >= 2 && (s[0] == '+' || s[0] == '-') && AllDigits(s[1..]))
  {
    if |s| >= 1 && AllDigits(s) then Some(DigitsValue(s))
    else if |s| >= 2 && s[0] == '+' && AllDigits(s[1..]) then Some(DigitsValue(s[1..]))
    else if |s| >= 2 && s[0] == '-' && AllDigits(s[1..]) then Some(0 - DigitsValue(s[1..]) as int)
    else None
  }

  /** `str(n)`. */
  function Render(n: int): string {
    if n < 0 then "-" + Digits(-n) else Digits(n)
  }

  lemma {:induction false} DigitsRoundTrip(n: nat)
    ensures DigitsValue(Digits(n)) == n
  {
    if n >= 10 {
      DigitsRoundTrip(n / 10);
      var s := Digits(n);
      assert s[..|s| - 1] == Digits(n / 10);
    }
  }

  /** Reading back what `str` wrote gives the number. */
  lemma RenderRoundTrip(n: int)
    ensures ParseInt(Render(n)) == Some(n)
  {
    if n < 0 {
      NegativeRoundTrip(n);
    } else {
      DigitsRoundTrip(n);
    }
  }

  lemma NegativeRoundTrip(n: int)
    requires n < 0
    ensures ParseInt(Render(n)) == Some(n)
  {
    var d := Digits(-n);
    var r := Render(n);
    DigitsRoundTrip(-n);
    assert r == "-" + d && r[1..] == d;
    assert !AllDigits(r) by {
      assert !IsDigit(r[0]);
    }
  }

  /** `int(x)` on a float: truncation toward zero. */
  function Trunc(x: real): (r: int)
    ensures x >= 0.0 ==> r as real <= x < r as real + 1.0
    ensures x < 0.0 ==> r as real - 1.0 < x <= r as real
  {
    if x >= 0.0 then x.Floor else -((-x).Floor)
  }

  /** An integer in seconds is scaled to milliseconds; one in milliseconds is kept. */
  function ScaleToMillis(t: int): int {
    if t < MillisThreshold then t * 1000 else t
  }

  /** `parse_timestamp`: milliseconds since the epoch, or the error it raises. */
  function ParseTimestamp(t: Stamp): (r: Parsed)
    ensures r.Millis? <==> !t.OtherStamp? && !(t.StrStamp? && t.iso.None? && ParseInt(t.s).None?)
    ensures t.OtherStamp? ==> r == UnsupportedType
    ensures t.StrStamp? && t.iso.None? && ParseInt(t.s).None? ==> r == InvalidFormat
    ensures t.StrStamp? && t.iso.Some? ==> r == Millis(t.iso.value)
  {
    match t
    case IntStamp(i) => Millis(ScaleToMillis(i))
    case StrStamp(s, iso) =>
      if iso.Some? then Millis(iso.value)
      else
        (match ParseInt(s)
         case Some(i) => Millis(ScaleToMillis(i))
         case None => InvalidFormat)
    case FloatStamp(x) => Millis(Trunc(x * 1000.0))
    case OtherStamp => UnsupportedType
  }

  /** The same instant given in seconds or in milliseconds parses to the same value. */
  lemma SecondsAndMillisAgree(s: int)
    requires 10000000 <= s < MillisThreshold
    ensures ParseTimestamp(IntStamp(s)) == ParseTimestamp(IntStamp(s * 1000)) == Millis(s * 1000)
  {
  }

  /** Parsing a result that is already in milliseconds leaves it unchanged. */
  lemma ParseIdempotentOnMillis(t: Stamp)
    requires ParseTimestamp(t).Millis? && ParseTimestamp(t).ms >= MillisThreshold
    ensures ParseTimestamp(IntStamp(ParseTimestamp(t).ms)) == ParseTimestamp(t)
  {
  }

  /** A non-ISO string of digits parses as the integer it spells. */
  lemma DecimalStringAgreesWithInt(n: int)
    ensures ParseTimestamp(StrStamp(Render(n), None)) == ParseTimestamp(IntStamp(n))
  {
    RenderRoundTrip(n);
  }

  /** A float is always taken as seconds, so whole seconds agree with the integer below the threshold. */
  lemma WholeFloatSecondsAgree(s: int)
    requires s < MillisThreshold
    ensures ParseTimestamp(FloatStamp(s as real)) == ParseTimestamp(IntStamp(s))
  {
  }

  /** A float is scaled even above the threshold, where the same integer is kept as milliseconds. */
  lemma FloatAboveThresholdIsScaled()
    ensures ParseTimestamp(FloatStamp(MillisThreshold as real)) == Millis(MillisThreshold * 1000)
    ensures ParseTimestamp(IntStamp(MillisThreshold)) == Millis(MillisThreshold)
  {
  }

  // ---------------------------------------------------------------------
  // fetch_logs_after_timestamp: event selection
  // ---------------------------------------------------------------------

  /** One CloudWatch log event, with what the patterns extracted from its message. */
  datatype LogEvent = LogEvent(timestamp: int, message: string, logStream: string, scan: Scan)

  /** The dictionary `fetch_logs_after_timestamp` returns, extended by the handler's report fields. */
  datatype FetchResult = FetchResult(
    found: bool, event: Option<LogEvent>, level: nat, percentage: real,
    processed: nat, total: nat, messageTimestamp: Option<string>,
    totalMatches: nat, alreadyProcessed: bool,
    reportStatus: Option<string>, reportMessage: Option<string>)

  /** `key=lambda x: x["timestamp"]` with `reverse=True`: newer first. */
  predicate NewerOrSame(a: LogEvent, b: LogEvent) {
    a.timestamp >= b.timestamp
  }

  lemma NewerOrSameTotalPreorder()
    ensures TotalPreorder(NewerOrSame)
  {
  }

  /** `max(events, key=timestamp)`: the first event with the largest timestamp. */
  function Latest(events: seq<LogEvent>): (e: LogEvent)
    requires events != []
  {
    events[MinIndex(events, NewerOrSame)]
  }

  lemma LatestIsNewest(events: seq<LogEvent>)
    requires events != []
    ensures Latest(events) in events
    ensures forall e :: e in events ==> e.timestamp <= Latest(events).timestamp
    ensures forall i :: 0 <= i < MinIndex(events, NewerOrSame) ==> events[i].timestamp < Latest(events).timestamp
  {
    NewerOrSameTotalPreorder();
    MinIndexIsFirstLeast(events, NewerOrSame);
  }

  /** `min(limit * 10, 10000)`. */
  function FetchLimit(limit: int): (n: int)
    ensures n <= 10000
  {
    if limit * 10 <= 10000 then limit * 10 else 10000
  }

  /** All events of the given responses, in order. */
  function Flatten(pages: seq<seq<LogEvent>>): (r: seq<LogEvent>)
  {
    if pages == [] then [] else Flatten(pages[..|pages| - 1]) + pages[|pages| - 1]
  }

  lemma FlattenSnoc(pages: seq<seq<LogEvent>>, i: nat)
    requires i < |pages|
    ensures Flatten(pages[..i + 1]) == Flatten(pages[..i]) + pages[i]
  {
    assert pages[..i + 1][..i] == pages[..i];
  }

  /**
   * The pagination loop stops after `n` responses: the n-th had no
   * `nextToken` (it is the last one), or `fetchLimit` events are held.
   */
  predicate StopsAfter(pages: seq<seq<LogEvent>>, fetchLimit: int, n: nat)
    requires n <= |pages|
  {
    n == |pages| || |Flatten(pages[..n])| >= fetchLimit
  }

  function FirstStopFrom(pages: seq<seq<LogEvent>>, fetchLimit: int, m: nat): (n: nat)
    requires 1 <= m <= |pages|
    ensures m <= n <= |pages| && StopsAfter(pages, fetchLimit, n)
    ensures forall k :: m <= k < n ==> !StopsAfter(pages, fetchLimit, k)
    decreases |pages| - m
  {
    if StopsAfter(pages, fetchLimit, m) then m else FirstStopFrom(pages, fetchLimit, m + 1)
  }

  /** How many responses the loop reads. */
  function PagesRead(pages: seq<seq<LogEvent>>, fetchLimit: int): (n: nat)
    requires |pages| >= 1
    ensures 1 <= n <= |pages|
  {
    FirstStopFrom(pages, fetchLimit, 1)
  }

  /** The events the pagination loop collects. */
  function Collected(pages: seq<seq<LogEvent>>, fetchLimit: int): seq<LogEvent>
    requires |pages| >= 1
  {
    Flatten(pages[..PagesRead(pages, fetchLimit)])
  }

  /** The responses read are the shortest prefix after which the loop stops. */
  lemma PagesReadIsFirstStop(pages: seq<seq<LogEvent>>, fetchLimit: int)
    requires |pages| >= 1
    ensures StopsAfter(pages, fetchLimit, PagesRead(pages, fetchLimit))
    ensures forall k :: 1 <= k < PagesRead(pages, fetchLimit) ==> !StopsAfter(pages, fetchLimit, k)
  {
  }

  /**
   * The pagination loop: append each response's events; stop after the
   * last response, or, when more remain, once `fetchLimit` are held.
   */
  method CollectEvents(pages: seq<seq<LogEvent>>, fetchLimit: int) returns (all: seq<LogEvent>)
    requires |pages| >= 1
    ensures all == Collected(pages, fetchLimit)
  {
    all := [];
    var i := 0;
    while true
      invariant 0 <= i < |pages|
      invariant all == Flatten(pages[..i])
      invariant forall k :: 1 <= k <= i ==> !StopsAfter(pages, fetchLimit, k)
      decreases |pages| - i
    {
      FlattenSnoc(pages, i);
      all := all + pages[i];
      i := i + 1;
      if i == |pages| || |all| >= fetchLimit {
        assert StopsAfter(pages, fetchLimit, i);
        FirstStopIsUnique(pages, fetchLimit, i);
        return;
      }
    }
  }

  lemma FirstStopIsUnique(pages: seq<seq<LogEvent>>, fetchLimit: int, n: nat)
    requires 1 <= n <= |pages| && StopsAfter(pages, fetchLimit, n)
    requires forall k :: 1 <= k < n ==> !StopsAfter(pages, fetchLimit, k)
    ensures PagesRead(pages, fetchLimit) == n
  {
    var p := PagesRead(pages, fetchLimit);
    assert !(p < n);
    assert !(n < p);
  }

  /** The event's message is recent by its own clock (or carries none). */
  predicate Recent(e: LogEvent, now: real) {
    ParseProgressLevel(e.scan, now).isRecent
  }

  /** The index of the first recent event from position `i` on, if any. */
  function FirstRecentFrom(events: seq<LogEvent>, now: real, i: nat): (k: Option<nat>)
    requires i <= |events|
    ensures k.Some? ==> i <= k.value < |events| && Recent(events[k.value], now)
    ensures k.Some? ==> forall j :: i <= j < k.value ==> !Recent(events[j], now)
    ensures k.None? ==> forall j :: i <= j < |events| ==> !Recent(events[j], now)
    decreases |events| - i
  {
    if i == |events| then None
    else if Recent(events[i], now) then Some(i)
    else FirstRecentFrom(events, now, i + 1)
  }

  function FirstRecentIndex(events: seq<LogEvent>, now: real): Option<nat> {
    FirstRecentFrom(events, now, 0)
  }

  /** The scan loop `for event in all_events`: it stops at the first recent event. */
  method FirstRecent(events: seq<LogEvent>, now: real) returns (k: Option<nat>)
    ensures k == FirstRecentIndex(events, now)
  {
    var i := 0;
    while i < |events|
      invariant 0 <= i <= |events|
      invariant FirstRecentFrom(events, now, i) == FirstRecentIndex(events, now)
    {
      var info := ParseProgressLevel(events[i].scan, now);
      if info.isRecent {
        return Some(i);
      }
      i := i + 1;
    }
    return None;
  }

  /** A sequence sorted newest first whose first recent event is at k: no recent event is newer. */
  lemma FirstRecentIsNewest(sorted: seq<LogEvent>, all: seq<LogEvent>, now: real, k: nat)
    requires multiset(sorted) == multiset(all)
    requires Sorted(sorted, NewerOrSame)
    requires k < |sorted| && forall j :: 0 <= j < k ==> !Recent(sorted[j], now)
    ensures forall e :: e in all && Recent(e, now) ==> e.timestamp <= sorted[k].timestamp
  {
    forall e | e in all && Recent(e, now) ensures e.timestamp <= sorted[k].timestamp {
      assert e in multiset(all);
      assert e in sorted;
      var j :| 0 <= j < |sorted| && sorted[j] == e;
      assert !(j < k);
    }
  }

  /** What `fetch_logs_after_timestamp` returns when the "already exists" query found events. */
  function AlreadyDone(alreadyExists: seq<LogEvent>): FetchResult
    requires alreadyExists != []
  {
    FetchResult(true, Some(Latest(alreadyExists)), 4, 100.0, 0, 0, None, |alreadyExists|, true, None, None)
  }

  /**
   * The event selection of `fetch_logs_after_timestamp`: a "detections_all.jsonl
   * already exists" event wins and reports level 4 at 100 percent;
   * otherwise the collected "Processed" events are sorted newest first
   * (stably, so equal timestamps keep their collection order) and the
   * first recent one is reported with its parsed progress.
   * `alreadyExists` is empty also when that query failed.
   */
  function Selected(alreadyExists: seq<LogEvent>, pages: seq<seq<LogEvent>>, limit: int, now: real): FetchResult
    requires |pages| >= 1
  {
    if alreadyExists != [] then AlreadyDone(alreadyExists)
    else
      var all := Collected(pages, FetchLimit(limit));
      var sorted := SortBy(all, NewerOrSame);
      match FirstRecentIndex(sorted, now)
      case Some(k) =>
        var info := ParseProgressLevel(sorted[k].scan, now);
        FetchResult(true, Some(sorted[k]), info.level, info.percentage, info.processed, info.total,
                    info.messageTimestamp, |all|, false, None, None)
      case None => FetchResult(false, None, 0, 0.0, 0, 0, None, |all|, false, None, None)
  }

  /**
   * What the selection means: an "already exists" event gives level 4 at
   * 100 percent with the latest such event; otherwise the reported event is
   * a recent collected one, no recent collected event is newer, and the
   * progress is that event's; with no recent event nothing is found.
   */
  lemma SelectedMeaning(alreadyExists: seq<LogEvent>, pages: seq<seq<LogEvent>>, limit: int, now: real)
    requires |pages| >= 1
    ensures var r := Selected(alreadyExists, pages, limit, now);
            && r.reportStatus.None? && r.reportMessage.None?
            && (alreadyExists != [] ==>
                 r.found && r.alreadyProcessed && r.event == Some(Latest(alreadyExists))
                 && r.level == 4 && r.percentage == 100.0 && r.processed == 0 && r.total == 0
                 && r.totalMatches == |alreadyExists|)
            && (alreadyExists == [] ==> !r.alreadyProcessed && r.totalMatches == |Collected(pages, FetchLimit(limit))|)
            && (alreadyExists == [] && !r.found ==>
                 r.event.None? && r.level == 0 && forall e :: e in Collected(pages, FetchLimit(limit)) ==> !Recent(e, now))
    ensures var r := Selected(alreadyExists, pages, limit, now);
            alreadyExists == [] && r.found ==>
              && r.event.Some? && r.event.value in Collected(pages, FetchLimit(limit)) && Recent(r.event.value, now)
              && (forall e :: e in Collected(pages, FetchLimit(limit)) && Recent(e, now) ==> e.timestamp <= r.event.value.timestamp)
              && var info := ParseProgressLevel(r.event.value.scan, now);
                 r.level == info.level && r.percentage == info.percentage && r.processed == info.processed
                 && r.total == info.total && r.messageTimestamp == info.messageTimestamp && 1 <= r.level <= 4
  {
    if alreadyExists == [] {
      var all := Collected(pages, FetchLimit(limit));
      var sorted := SortBy(all, NewerOrSame);
      NewerOrSameTotalPreorder();
      SortBySorted(all, NewerOrSame);
      var k := FirstRecentIndex(sorted, now);
      if k.Some? {
        RecentIsMatched(sorted[k.value].scan, now);
        FirstRecentIsNewest(sorted, all, now, k.value);
        assert sorted[k.value] in multiset(sorted);
      } else {
        forall e | e in all ensures !Recent(e, now) {
          assert e in multiset(sorted);
        }
      }
    }
  }

  /** `fetch_logs_after_timestamp` as a procedure: the queries, the pagination loop, the sort and the scan. */
  method FetchLogs(alreadyExists: seq<LogEvent>, pages: seq<seq<LogEvent>>, limit: int, now: real)
    returns (r: FetchResult)
    requires |pages| >= 1
    ensures r == Selected(alreadyExists, pages, limit, now)
  {
    if alreadyExists != [] {
      return AlreadyDone(alreadyExists);
    }
    var all := CollectEvents(pages, FetchLimit(limit));
    var sorted := SortBy(all, NewerOrSame);
    var k := FirstRecent(sorted, now);
    if k.Some? {
      var e := sorted[k.value];
      var info := ParseProgressLevel(e.scan, now);
      r := FetchResult(true, Some(e), info.level, info.percentage, info.processed, info.total,
                       info.messageTimestamp, |all|, false, None, None);
    } else {
      r := FetchResult(false, None, 0, 0.0, 0, 0, None, |all|, false, None, None);
    }
  }

  // ---------------------------------------------------------------------
  // lambda_handler: the report gate
  // ---------------------------------------------------------------------

  const Waiting := "Processing complete, waiting for report generation"
  const Generated := "Report generated"

  /** `check_report_generated`: the message of the latest "Report generated" event, if any. */
  function ReportCheck(events: seq<LogEvent>): (r: Option<string>)
    ensures r.Some? <==> events != []
  {
    if events == [] then None else Some(Latest(events).message)
  }

  /** The handler's rule: level 4 stands only once the report has been generated. */
  function Gate(r: FetchResult, report: Option<string>): FetchResult {
    if r.found && r.level == 4 then
      match report
      case None => r.(level := 3, percentage := 75.0, reportStatus := Some(Waiting))
      case Some(msg) => r.(reportStatus := Some(Generated), reportMessage := Some(msg))
    else r
  }

  /** The handler updates the result in place as `Gate` says. */
  method ApplyReportCheck(r: FetchResult, report: Option<string>) returns (out: FetchResult)
    ensures out == Gate(r, report)
  {
    out := r;
    if r.found && r.level == 4 {
      if report.None? {
        out := out.(level := 3);
        out := out.(percentage := 75.0);
        out := out.(reportStatus := Some(Waiting));
      } else {
        out := out.(reportStatus := Some(Generated));
        out := out.(reportMessage := report);
      }
    }
  }

  /** After the gate, level 4 is reported only together with a generated report. */
  lemma GateLevelFourNeedsReport(r: FetchResult, report: Option<string>)
    requires Gate(r, report).found && Gate(r, report).level == 4
    ensures report.Some? && Gate(r, report).reportStatus == Some(Generated)
    ensures Gate(r, report).reportMessage == report
  {
  }

  /** The gate never raises a level, lowers it only from 4 to 3, and touches nothing else of the event. */
  lemma GateOnlyLowersFour(r: FetchResult, report: Option<string>)
    ensures Gate(r, report).level <= r.level
    ensures Gate(r, report).level != r.level ==> r.level == 4 && Gate(r, report).level == 3 && report.None?
    ensures Gate(r, report).found == r.found && Gate(r, report).event == r.event
    ensures Gate(r, report).totalMatches == r.totalMatches
  {
  }

  /**
   * The part of `lambda_handler` modelled here: select the event, then
   * apply the report gate using the report generator's recent events.
   */
  method Handle(alreadyExists: seq<LogEvent>, pages: seq<seq<LogEvent>>, limit: int, now: real,
                reportEvents: seq<LogEvent>) returns (out: FetchResult)
    requires |pages| >= 1
    ensures out == Gate(Selected(alreadyExists, pages, limit, now), ReportCheck(reportEvents))
    ensures out.found && out.level == 4 ==> reportEvents != [] && out.reportStatus == Some(Generated)
    ensures var r := Selected(alreadyExists, pages, limit, now);
            r.found && r.level == 4 && reportEvents == [] ==>
              out.level == 3 && out.percentage == 75.0 && out.reportStatus == Some(Waiting) && out.event == r.event
    ensures var r := Selected(alreadyExists, pages, limit, now);
            !(r.found && r.level == 4) ==> out == r
    ensures alreadyExists != [] && reportEvents != [] ==>
      out.level == 4 && out.reportMessage == Some(Latest(reportEvents).message)
  {
    var r := FetchLogs(alreadyExists, pages, limit, now);
    out := ApplyReportCheck(r, ReportCheck(reportEvents));
    if out.found && out.level == 4 {
      GateLevelFourNeedsReport(r, ReportCheck(reportEvents));
    }
  }
}
