/** The sampling side of the scan loop: a ring buffer of scan durations, sorted percentiles,
    and counters published as differences. */
module ControlLoop {
  import opened Wrappers
  import opened Numbers
  import opened Quantiles

  /** One scan: the instant it is measured against (the previous scan's start, or the arming of the timer),
      when it started, and how long it took. */
  datatype Scan = Scan(since: real, startedAt: real, durationMs: real)

  /** The last k elements, or all of them when there are fewer. */
  function Last<T>(s: seq<T>, k: nat): seq<T> {
    if |s| <= k then s else s[|s| - k..]
  }

  function Durations(scans: seq<Scan>): (d: seq<real>)
    ensures |d| == |scans|
  {
    seq(|scans|, i requires 0 <= i < |scans| => scans[i].durationMs)
  }

  /** How many of the first n scans came more than the allowance after the one before. */
  function Late(scans: seq<Scan>, n: nat, allowance: real): nat
    requires n <= |scans|
  {
    if n == 0 then 0
    else Late(scans, n - 1, allowance) + if scans[n - 1].startedAt - scans[n - 1].since > allowance then 1 else 0
  }

  /** How many of the first n scans took more than the period. */
  function Overlong(scans: seq<Scan>, n: nat, period: real): nat
    requires n <= |scans|
  {
    if n == 0 then 0 else Overlong(scans, n - 1, period) + if scans[n - 1].durationMs > period then 1 else 0
  }

  lemma {:induction false} CountsOfPrefix(scans: seq<Scan>, more: Scan, n: nat, allowance: real, period: real)
    requires n <= |scans|
    ensures Late(scans + [more], n, allowance) == Late(scans, n, allowance)
    ensures Overlong(scans + [more], n, period) == Overlong(scans, n, period)
  {
    if n > 0 {
      CountsOfPrefix(scans, more, n - 1, allowance, period);
    }
  }

  predicate CameLate(s: Scan, allowance: real) {
    s.startedAt > s.since + allowance
  }

  ghost function LateScans(scans: seq<Scan>, n: nat, allowance: real): set<nat>
    requires n <= |scans|
  {
    set i: nat | i < n && CameLate(scans[i], allowance)
  }

  predicate TookLong(s: Scan, period: real) {
    s.durationMs > period
  }

  ghost function LongScans(scans: seq<Scan>, n: nat, period: real): set<nat>
    requires n <= |scans|
  {
    set i: nat | i < n && TookLong(scans[i], period)
  }

  /** The late scans counted are the scans with too long a gap before them, each once. */
  lemma {:induction false} LateCountsScans(scans: seq<Scan>, n: nat, allowance: real)
    requires n <= |scans|
    ensures Late(scans, n, allowance) == |LateScans(scans, n, allowance)|
  {
    if n > 0 {
      LateCountsScans(scans, n - 1, allowance);
      var more := if CameLate(scans[n - 1], allowance) then {n - 1} else {};
      assert LateScans(scans, n, allowance) == LateScans(scans, n - 1, allowance) + more;
    }
  }

  /** The overruns counted are the scans that took too long, each once. */
  lemma {:induction false} OverlongCountsScans(scans: seq<Scan>, n: nat, period: real)
    requires n <= |scans|
    ensures Overlong(scans, n, period) == |LongScans(scans, n, period)|
  {
    if n > 0 {
      OverlongCountsScans(scans, n - 1, period);
      var more := if TookLong(scans[n - 1], period) then {n - 1} else {};
      assert LongScans(scans, n, period) == LongScans(scans, n - 1, period) + more;
    }
  }

  // ----- the ring buffer on values -----

  /** The slot of the i-th oldest sample: slot i until the ring is full, then i places after the head. */
  function Slot(capacity: nat, head: nat, count: nat, i: nat): nat {
    if count < capacity then i else if head + i < capacity then head + i else head + i - capacity
  }

  /** The ring holds the last samples of the history, at most its capacity, the oldest one at the head of a full
      ring. */
  ghost predicate Holds(w: seq<real>, head: nat, count: nat, history: seq<real>) {
    && head < |w| && count == Min(|history|, |w|) && (count < |w| ==> head == count)
    && forall i :: 0 <= i < count ==> w[Slot(|w|, head, count, i)] == history[|history| - count + i]
  }

  /** Overwriting the head slot drops the oldest sample of a full ring and adds the new one. */
  lemma RecordKeeps(w: seq<real>, head: nat, count: nat, history: seq<real>, x: real)
    requires Holds(w, head, count, history)
    ensures var head' := if head + 1 == |w| then 0 else head + 1;
      var count' := if count < |w| then count + 1 else count;
      Holds(w[head := x], head', count', history + [x])
  {
    var w', history' := w[head := x], history + [x];
    var head' := if head + 1 == |w| then 0 else head + 1;
    var count' := if count < |w| then count + 1 else count;
    forall i | 0 <= i < count' ensures w'[Slot(|w|, head', count', i)] == history'[|history'| - count' + i] {
      if i < count' - 1 {
        var before := if count < |w| then i else i + 1;
        assert w[Slot(|w|, head, count, before)] == history[|history| - count + before];
      }
    }
  }

  /** The slots in use are the last samples, in some rotation. */
  lemma HoldsRotation(w: seq<real>, head: nat, count: nat, history: seq<real>)
    requires Holds(w, head, count, history)
    ensures Last(history, |w|) == if count < |w| then w[..count] else w[head..] + w[..head]
  {
    var recent := Last(history, |w|);
    var rotated := if count < |w| then w[..count] else w[head..] + w[..head];
    forall i | 0 <= i < count ensures recent[i] == rotated[i] {
      assert w[Slot(|w|, head, count, i)] == history[|history| - count + i];
    }
  }

  lemma SlotsInUse(w: seq<real>, head: nat, count: nat, history: seq<real>)
    requires Holds(w, head, count, history)
    ensures count == |Last(history, |w|)| && multiset(w[..count]) == multiset(Last(history, |w|))
    ensures Sort(w[..count]) == Sort(Last(history, |w|))
  {
    HoldsRotation(w, head, count, history);
    if count == |w| {
      assert w[..count] == w[..head] + w[head..];
    }
    SortSorts(w[..count]);
    SortSorts(Last(history, |w|));
    SortedUnique(Sort(w[..count]), Sort(Last(history, |w|)));
  }

  // ----- the loop -----

  /** What a reading of the loop reports. */
  datatype Quartet = Quartet(samples: nat, p50: Option<real>, p99: Option<real>, max: Option<real>)

  /** The report on some samples. */
  function Reading(s: seq<real>): Quartet {
    if s == [] then Quartet(0, None, None, None)
    else
      SortSorts(s); IndexIsMonotone(|s|, 50, 99);
      var sorted := Sort(s);
      Quartet(|s|, Some(sorted[QuantileIndex(|s|, 50)]), Some(sorted[QuantileIndex(|s|, 99)]), Some(sorted[|s| - 1]))
  }

  /** The report is right: the two nearest-rank percentiles in order, and the maximum. */
  lemma ReadingIsRight(s: seq<real>)
    requires s != []
    ensures var q := Reading(s);
      && NearestRank(s, 50, q.p50.value) && NearestRank(s, 99, q.p99.value)
      && q.p50.value <= q.p99.value <= q.max.value
      && q.max.value in s && (forall u :: u in s ==> u <= q.max.value)
  {
    IndexIsNearestRank(s, 50);
    IndexIsNearestRank(s, 99);
    QuantilesAreOrdered(s, 50, 99);
    LastIsMaximum(s);
  }

  /** Publication sets the sample gauge, and the others when there is a sample. */
  function Gauges(before: Quartet, q: Quartet): Quartet {
    if q.samples > 0 then q else before.(samples := 0)
  }

  /** After publication the sample gauge is the number of samples; the others are the two nearest-rank percentiles and
      the maximum of the samples, or what they were before when there is no sample. */
  lemma GaugesSay(before: Quartet, s: seq<real>)
    ensures var g := Gauges(before, Reading(s));
      && g.samples == |s|
      && (s == [] ==> g.p50 == before.p50 && g.p99 == before.p99 && g.max == before.max)
      && (s != [] ==>
           && g.p50.Some? && g.p99.Some? && g.max.Some?
           && NearestRank(s, 50, g.p50.value) && NearestRank(s, 99, g.p99.value)
           && g.max.value in s && (forall u :: u in s ==> u <= g.max.value))
  {
    if s != [] {
      ReadingIsRight(s);
    }
  }

  class BlueprintControlLoop {
    const window: array<real>
    const windowScratch: array<real>
    const periodMs: real
    const jitterToleranceMs: real
    const publishIntervalMs: real

    var tickCount: nat
    var missedDeadlines: nat
    var overruns: nat
    var nextDeadlineAt: real
    var lastPublishAt: real
    var windowHead: nat
    var windowCount: nat

    var publishedTicks: nat
    var publishedMissed: nat
    var publishedOverruns: nat

    /** The process-wide counters, moved only by increments. */
    var ticksTotal: nat
    var missedTotal: nat
    var overrunsTotal: nat

    /** The published gauges. */
    var gauges: Quartet

    /** Every scan so far, and the instant the next one is measured against. */
    ghost var scans: seq<Scan>
    ghost var reference: real

    ghost predicate RingValid()
      reads this`windowHead, this`windowCount, this`scans, window
    {
      Holds(window[..], windowHead, windowCount, Durations(scans))
    }

    /** The counters are the counts of these scans, and the next deadline is a period after the reference. */
    ghost predicate CountsFor(scans: seq<Scan>)
      reads this`tickCount, this`missedDeadlines, this`overruns, this`nextDeadlineAt, this`reference
    {
      && tickCount == |scans| && overruns == Overlong(scans, |scans|, periodMs)
      && missedDeadlines == Late(scans, |scans|, periodMs + jitterToleranceMs)
      && nextDeadlineAt == reference + periodMs
    }

    ghost predicate PublishedValid()
      reads this`publishedTicks, this`publishedMissed, this`publishedOverruns,
        this`ticksTotal, this`missedTotal, this`overrunsTotal, this`tickCount, this`missedDeadlines, this`overruns
    {
      && ticksTotal == publishedTicks <= tickCount && missedTotal == publishedMissed <= missedDeadlines
      && overrunsTotal == publishedOverruns <= overruns
    }

    /** The counters outside have caught up with the loop. */
    ghost predicate UpToDate()
      reads this`ticksTotal, this`missedTotal, this`overrunsTotal, this`tickCount, this`missedDeadlines, this`overruns
    {
      ticksTotal == tickCount && missedTotal == missedDeadlines && overrunsTotal == overruns
    }

    ghost predicate Valid()
      reads this`windowHead, this`windowCount, this`scans, this`nextDeadlineAt, this`reference,
        this`publishedTicks, this`publishedMissed, this`publishedOverruns,
        this`ticksTotal, this`missedTotal, this`overrunsTotal, this`tickCount, this`missedDeadlines,
        this`overruns, window
    {
      && window != windowScratch && window.Length == windowScratch.Length
      && RingValid() && CountsFor(scans) && PublishedValid()
    }

    ghost function Recent(): seq<real>
      reads this`scans
    {
      Last(Durations(scans), window.Length)
    }

    /** A loaded loop, armed at `now`. */
    constructor (capacity: nat, periodMs: real, jitterToleranceMs: real, publishIntervalMs: real, now: real)
      requires capacity > 0
      ensures Valid() && fresh(window) && fresh(windowScratch) && window.Length == capacity
      ensures scans == [] && UpToDate() && reference == now && lastPublishAt == now
    {
      window := new real[capacity](_ => 0.0);
      windowScratch := new real[capacity](_ => 0.0);
      this.periodMs, this.jitterToleranceMs, this.publishIntervalMs := periodMs, jitterToleranceMs, publishIntervalMs;
      tickCount, missedDeadlines, overruns, windowHead, windowCount := 0, 0, 0, 0, 0;
      publishedTicks, publishedMissed, publishedOverruns := 0, 0, 0;
      ticksTotal, missedTotal, overrunsTotal := 0, 0, 0;
      nextDeadlineAt, lastPublishAt := now + periodMs, now;
      gauges := Quartet(0, None, None, None);
      scans, reference := [], now;
    }

    /** Arming the timer again after a stop: the next scan is measured against now. */
    method Arm(now: real)
      requires Valid()
      modifies this, windowScratch
      ensures Valid() && scans == old(scans) && reference == now && lastPublishAt == now && UpToDate()
      ensures gauges == Gauges(old(gauges), Reading(Recent()))
    {
      nextDeadlineAt, lastPublishAt, reference := now + periodMs, now, now;
      PublishMetrics();
    }

    /** Store one duration at the head of the ring. */
    method Record(durationMs: real, ghost scan: Scan)
      requires RingValid() && scan.durationMs == durationMs
      modifies this`windowHead, this`windowCount, this`scans, window
      ensures scans == old(scans) + [scan] && RingValid()
    {
      ghost var w, before := window[..], Durations(scans);
      RecordKeeps(w, windowHead, windowCount, before, durationMs);
      window[windowHead] := durationMs;
      windowHead := if windowHead + 1 == window.Length then 0 else windowHead + 1;
      if windowCount < window.Length {
        windowCount := windowCount + 1;
      }
      scans := scans + [scan];
      assert window[..] == w[old(windowHead) := durationMs];
      assert Durations(scans) == before + [durationMs];
    }

    /** Count one scan: late when it came more than a period and the tolerance after the one before, and
        overlong when it took more than a period. */
    method Count(startedAt: real, durationMs: real)
      requires CountsFor(scans) && PublishedValid()
      modifies this`tickCount, this`missedDeadlines, this`overruns, this`nextDeadlineAt, this`reference
      ensures CountsFor(scans + [Scan(old(reference), startedAt, durationMs)]) && reference == startedAt
        && PublishedValid()
    {
      CountsOfPrefix(scans, Scan(reference, startedAt, durationMs), |scans|, periodMs + jitterToleranceMs, periodMs);
      if startedAt - nextDeadlineAt > jitterToleranceMs {
        missedDeadlines := missedDeadlines + 1;
      }
      tickCount := tickCount + 1;
      if durationMs > periodMs {
        overruns := overruns + 1;
      }
      nextDeadlineAt, reference := startedAt + periodMs, startedAt;
    }

    /** Count a scan and store its duration. */
    method Sample(startedAt: real, durationMs: real)
      requires Valid()
      modifies this`tickCount, this`missedDeadlines, this`overruns, this`nextDeadlineAt, this`reference,
        this`windowHead, this`windowCount, this`scans, window
      ensures Valid() && scans == old(scans) + [Scan(old(reference), startedAt, durationMs)] && reference == startedAt
    {
      ghost var scan := Scan(reference, startedAt, durationMs);
      Count(startedAt, durationMs);
      Record(durationMs, scan);
    }

    /** One scheduled scan that started and finished at the given instants. The counters outside are brought
        up to date when the publication interval has passed, and otherwise left alone. */
    method TickOnce(startedAt: real, finishedAt: real)
      requires Valid()
      modifies this, window, windowScratch
      ensures Valid() && scans == old(scans) + [Scan(old(reference), startedAt, finishedAt - startedAt)]
      ensures reference == startedAt
      ensures startedAt - old(lastPublishAt) >= publishIntervalMs
        ==> UpToDate() && gauges == Gauges(old(gauges), Reading(Recent())) && lastPublishAt == startedAt
      ensures startedAt - old(lastPublishAt) < publishIntervalMs
        ==> unchanged(this`gauges, this`lastPublishAt, this`ticksTotal, this`missedTotal, this`overrunsTotal)
    {
      Sample(startedAt, finishedAt - startedAt);
      PublishWhenDue(startedAt);
    }

    method PublishWhenDue(startedAt: real)
      requires Valid()
      modifies this`publishedTicks, this`publishedMissed, this`publishedOverruns, this`ticksTotal,
        this`missedTotal, this`overrunsTotal, this`gauges, this`lastPublishAt, windowScratch
      ensures Valid()
      ensures startedAt - old(lastPublishAt) >= publishIntervalMs
        ==> UpToDate() && gauges == Gauges(old(gauges), Reading(Recent())) && lastPublishAt == startedAt
      ensures startedAt - old(lastPublishAt) < publishIntervalMs
        ==> unchanged(this`gauges, this`lastPublishAt, this`ticksTotal, this`missedTotal, this`overrunsTotal)
    {
      if startedAt - lastPublishAt >= publishIntervalMs {
        lastPublishAt := startedAt;
        PublishMetrics();
      }
    }

    /** Sort the slots in use into the scratch array. */
    method SortWindowIntoScratch() returns (n: nat)
      requires Valid()
      modifies windowScratch
      ensures n == windowCount == |Recent()| <= windowScratch.Length && windowScratch[..n] == Sort(Recent())
      ensures multiset(windowScratch[..n]) == multiset(Recent()) && Ascending(windowScratch[..n])
      ensures forall i :: n <= i < windowScratch.Length ==> windowScratch[i] == old(windowScratch[i])
    {
      n := windowCount;
      var sorted := Sort(window[..n]);
      SortSorts(window[..n]);
      SlotsInUse(window[..], windowHead, windowCount, Durations(scans));
      assert window[..][..n] == window[..n];
      for i := 0 to n
        invariant windowScratch[..i] == sorted[..i]
        invariant forall k :: n <= k < windowScratch.Length ==> windowScratch[k] == old(windowScratch[k])
      {
        windowScratch[i] := sorted[i];
      }
      assert sorted[..n] == sorted;
    }

    /** The percentile of the sorted scratch prefix. */
    method Quantile(sampleCount: nat, percentile: int) returns (v: Option<real>)
      requires sampleCount <= windowScratch.Length
      ensures v.None? <==> sampleCount == 0
      ensures sampleCount > 0 ==> 0 <= QuantileIndex(sampleCount, percentile) < sampleCount
      ensures sampleCount > 0 ==> v.value == windowScratch[QuantileIndex(sampleCount, percentile)]
    {
      if sampleCount == 0 {
        return None;
      }
      IndexIsMonotone(sampleCount, percentile, percentile);
      v := Some(windowScratch[QuantileIndex(sampleCount, percentile)]);
    }

    /** The reading that `status` and the gauges report. */
    method Read() returns (q: Quartet)
      requires Valid()
      modifies windowScratch
      ensures q == Reading(Recent())
    {
      var n := SortWindowIntoScratch();
      var p50 := Quantile(n, 50);
      var p99 := Quantile(n, 99);
      q := Quartet(n, p50, p99, if n == 0 then None else Some(windowScratch[n - 1]));
    }

    /** Bring the counters outside up to date by their differences. */
    method PublishCounters()
      requires PublishedValid()
      modifies this`publishedTicks, this`publishedMissed, this`publishedOverruns, this`ticksTotal,
        this`missedTotal, this`overrunsTotal
      ensures PublishedValid() && UpToDate()
    {
      var tickDelta := tickCount - publishedTicks;
      if tickDelta > 0 {
        ticksTotal, publishedTicks := ticksTotal + tickDelta, tickCount;
      }
      var missedDelta := missedDeadlines - publishedMissed;
      if missedDelta > 0 {
        missedTotal, publishedMissed := missedTotal + missedDelta, missedDeadlines;
      }
      var overrunDelta := overruns - publishedOverruns;
      if overrunDelta > 0 {
        overrunsTotal, publishedOverruns := overrunsTotal + overrunDelta, overruns;
      }
    }

    /** Publish the counters and set the gauges; without a sample the percentile gauges keep their values. */
    method PublishMetrics()
      requires Valid()
      modifies this`publishedTicks, this`publishedMissed, this`publishedOverruns, this`ticksTotal,
        this`missedTotal, this`overrunsTotal, this`gauges, windowScratch
      ensures Valid() && UpToDate() && gauges == Gauges(old(gauges), Reading(Recent()))
    {
      PublishCounters();
      var q := Read();
      gauges := Gauges(gauges, q);
    }
  }
}
