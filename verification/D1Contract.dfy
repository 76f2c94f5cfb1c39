/** What a pass means, counted frame by frame: the exact condition under which the evaluator
    answers BACKEND_CONTRACT_PASS. */
module D1Contract {
  import opened Wrappers
  import opened D1Types
  import opened D1Rank
  import opened D1Tally
  import opened D1Evaluator
  import opened D1Stream
  import opened D1Verifier
  import opened D1Agreement
  import opened D1Theorems
  import opened D1Failures

  ghost predicate NothingFailed(request: Request) {
    && request.injected == []
    && forall i :: 0 <= i < |request.observations| ==>
         request.observations[i].failureCode.None? && !request.observations[i].qualityInsufficient
  }

  ghost predicate LastProcessedAt(post: seq<Observation>, i: int) {
    && 0 <= i < |post| && post[i].disposition == Processed
    && forall j :: i < j < |post| ==> post[j].disposition != Processed
  }

  ghost predicate BacklogWithin(post: seq<Observation>, bound: int) {
    exists i :: LastProcessedAt(post, i) && post[|post| - 1].captured - post[i].captured <= bound
  }

  const MILLI: int := 1_000_000

  ghost function FollowsClosely(post: seq<Observation>, limit: int): nat -> bool {
    (i: nat) => 0 < i < |post| && post[i].captured - post[i - 1].captured <= limit
  }

  /** Frames captured at most `limit` after the one before. */
  ghost function CloseFrames(post: seq<Observation>, limit: int): nat {
    Tally(|post|, FollowsClosely(post, limit))
  }

  ghost function HasDisposition(items: seq<Observation>, d: Disposition): nat -> bool {
    (i: nat) => i < |items| && items[i].disposition == d
  }

  ghost function ProcessedFrames(post: seq<Observation>): nat {
    Tally(|post|, HasDisposition(post, Processed))
  }

  ghost function IsQuick(post: seq<Observation>, limit: int): nat -> bool {
    (i: nat) => i < |post| && post[i].disposition == Processed && post[i].processed.Some?
                && post[i].processed.value - post[i].captured <= limit
  }

  /** Frames processed at most `limit` after their capture. */
  ghost function QuickFrames(post: seq<Observation>, limit: int): nat {
    Tally(|post|, IsQuick(post, limit))
  }

  ghost function IsFast(samples: seq<Sample>, rate: real): nat -> bool {
    (i: nat) => i < |samples| && samples[i].bytesPerSecond >= rate
  }

  ghost function FastSamples(samples: seq<Sample>, rate: real): nat {
    Tally(|samples|, IsFast(samples, rate))
  }

  /** The percentile demands on the frames after the warm-up, as shares of frames. */
  ghost predicate EnoughWithin(post: seq<Observation>) {
    && 100 * CloseFrames(post, 200 * MILLI) >= 95 * (|post| - 1)
    && 100 * QuickFrames(post, 200 * MILLI) >= 95 * ProcessedFrames(post)
    && 100 * QuickFrames(post, 500 * MILLI) >= 99 * ProcessedFrames(post)
  }

  /** At least 55 of the 60 samples reach twice the encoded rate. */
  ghost predicate FastEnough(disk: Disk) {
    FastSamples(disk.samples, 2.0 * disk.encodedByteRate) >= 55
  }

  ghost predicate HasSpace(request: Request) {
    && request.disk.freeBytes >= 2_147_483_648
    && request.disk.freeBytes as real > 2.0 * request.disk.encodedByteRate * request.plan.requestedSeconds as real - 1.0
  }

  ghost predicate NoStageFailed(stages: Stages) {
    stages.open != StageFailed && stages.write != StageFailed && stages.finalize != StageFailed && stages.durability != StageFailed
  }

  ghost function IsEarly(items: seq<Observation>, boundary: int): nat -> bool {
    (i: nat) => i < |items| && items[i].captured < boundary
  }

  /** The frames captured no earlier than the warm-up after the first one. */
  ghost function AfterWarmup(request: Request): (post: seq<Observation>)
    requires request.observations != []
    ensures |post| <= |request.observations|
  {
    var items := request.observations;
    var early := IsEarly(items, items[0].captured + request.plan.warmupSeconds * SECOND);
    TallyNone(|items|, early);
    items[Tally(|items|, early)..]
  }

  /** Long enough after the warm-up, at 13.5 frames a second. */
  ghost predicate LongEnough(request: Request, post: seq<Observation>)
    requires request.observations != []
  {
    var span := request.plan.runEnd - request.observations[0].captured - request.plan.warmupSeconds * SECOND;
    span >= request.plan.requestedSeconds * SECOND && 2 * |post| * SECOND >= 27 * span
  }

  ghost predicate EncodedSomething(request: Request) {
    request.disk.encodedByteCount > 0 && request.disk.encodedByteRate > 0.0
  }

  /** The encoded bytes last as long as the run, within a millisecond or a billionth. */
  ghost predicate EncodedConsistently(request: Request)
    requires request.observations != []
  {
    && EncodedSomething(request)
    && Near(request.disk.encodedByteCount as real / request.disk.encodedByteRate,
            (request.plan.runEnd - request.observations[0].captured) as real / 1000000000.0, 0.001)
  }

  /** What is demanded of the frames after the warm-up. */
  ghost predicate FramesMeet(request: Request, post: seq<Observation>)
    requires request.observations != []
  {
    && LongEnough(request, post) && EnoughWithin(post) && BacklogWithin(post, 2 * SECOND)
    && 100 * ProcessedFrames(post) >= 99 * |post|
  }

  /** The contract, without percentiles, derived seconds or accounting. */
  ghost predicate MeetsContract(request: Request) {
    && request.observations != []
    && SoundStream(request.inputKind, request.plan.runEnd, request.observations)
    && NothingFailed(request) && NoStageFailed(request.disk.stages)
    && EncodedConsistently(request)
    && FramesMeet(request, AfterWarmup(request))
    && HasSpace(request) && FastEnough(request.disk)
  }

  // ---- The counts and what the evaluator computes ----

  /** The percentile demands, as the evaluator's samples give them. */
  ghost predicate PercentilesWithin(request: Request, post: seq<Observation>) {
    var gaps, latencies := GapsOf(post), LatenciesOf(ProcessedOf(post));
    && CountAtMost(gaps, 200.0) >= Rank(|gaps|, 95)
    && CountAtMost(latencies, 200.0) >= Rank(|latencies|, 95)
    && CountAtMost(latencies, 500.0) >= Rank(|latencies|, 99)
  }

  ghost predicate ThroughputHigh(request: Request) {
    CountAtLeast(RatesOf(request.disk.samples), 2.0 * request.disk.encodedByteRate) >= 55
  }

  lemma RankIsShare(count: nat, n: nat, percentile: nat)
    ensures count >= Rank(n, percentile) <==> 100 * count >= percentile * n
  {
  }

  lemma {:induction false} GapCounts(post: seq<Observation>, limit: int)
    ensures CountAtMost(GapsOf(post), limit as real) == CloseFrames(post, limit * MILLI)
    ensures |GapsOf(post)| == if post == [] then 0 else |post| - 1
  {
    if |post| < 2 {
      TallyNone(|post|, FollowsClosely(post, limit * MILLI));
    } else {
      var rest := post[1..];
      GapCounts(rest, limit);
      GapShift(post, limit * MILLI);
      assert GapsOf(post)[1..] == GapsOf(rest);
      var gap := post[1].captured - post[0].captured;
      assert Millis(gap) <= limit as real <==> gap <= limit * MILLI;
      hide CloseFrames;
    }
  }

  lemma GapShift(post: seq<Observation>, limit: int)
    requires |post| >= 2
    ensures CloseFrames(post, limit) == CloseFrames(post[1..], limit) + if post[1].captured - post[0].captured <= limit then 1 else 0
  {
    var rest, n := post[1..], |post| - 2;
    var p, q := FollowsClosely(post, limit), FollowsClosely(rest, limit);
    var p1, p2, q1 := (i: nat) => p(i + 1), (i: nat) => p(i + 2), (i: nat) => q(i + 1);
    TallyFront(n + 1, p, p1);
    TallyFront(n, p1, p2);
    TallyFront(n, q, q1);
    TallySame(n, p2, q1);
  }

  lemma {:induction false} LatencyCounts(post: seq<Observation>, limit: int)
    ensures CountAtMost(LatenciesOf(ProcessedOf(post)), limit as real) == QuickFrames(post, limit * MILLI)
  {
    if post != [] {
      var rest := post[1..];
      LatencyCounts(rest, limit);
      TallyFront(|rest|, IsQuick(post, limit * MILLI), IsQuick(rest, limit * MILLI));
      LatencyStep(post, limit);
    }
  }

  lemma LatencyStep(post: seq<Observation>, limit: int)
    requires post != []
    ensures CountAtMost(LatenciesOf(ProcessedOf(post)), limit as real)
         == CountAtMost(LatenciesOf(ProcessedOf(post[1..])), limit as real) + if IsQuick(post, limit * MILLI)(0) then 1 else 0
  {
    var rest := post[1..];
    if post[0].disposition == Processed {
      assert ProcessedOf(post)[1..] == ProcessedOf(rest);
      if post[0].processed.Some? {
        assert LatenciesOf(ProcessedOf(post))[1..] == LatenciesOf(ProcessedOf(rest));
        var latency := post[0].processed.value - post[0].captured;
        assert Millis(latency) <= limit as real <==> latency <= limit * MILLI;
      } else {
        assert LatenciesOf(ProcessedOf(post)) == LatenciesOf(ProcessedOf(rest));
      }
    } else {
      assert ProcessedOf(post) == ProcessedOf(rest);
    }
  }

  lemma {:induction false} SampleCounts(samples: seq<Sample>, rate: real)
    ensures CountAtLeast(RatesOf(samples), rate) == FastSamples(samples, rate)
  {
    if samples != [] {
      var rest := samples[1..];
      SampleCounts(rest, rate);
      TallyFront(|rest|, IsFast(samples, rate), IsFast(rest, rate));
      assert RatesOf(samples)[1..] == RatesOf(rest);
    }
  }

  lemma {:induction false} DispositionCounts(items: seq<Observation>, d: Disposition)
    ensures CountDisposition(items, d) == Tally(|items|, HasDisposition(items, d))
  {
    if items != [] {
      var n := |items| - 1;
      DispositionCounts(items[..n], d);
      TallySame(n, HasDisposition(items, d), HasDisposition(items[..n], d));
    }
  }

  lemma PercentilesAreShares(request: Request, post: seq<Observation>)
    requires post != [] && FramesOk(request.inputKind, request.plan.runEnd, post)
    ensures PercentilesWithin(request, post) <==> EnoughWithin(post)
  {
    GapCounts(post, 200);
    LatencyCounts(post, 200);
    LatencyCounts(post, 500);
    ProcessedHaveTimes(request.inputKind, request.plan.runEnd, post);
    DispositionCounts(post, Processed);
    var processed := |LatenciesOf(ProcessedOf(post))|;
    RankIsShare(CountAtMost(GapsOf(post), 200.0), |post| - 1, 95);
    RankIsShare(CountAtMost(LatenciesOf(ProcessedOf(post)), 200.0), processed, 95);
    RankIsShare(CountAtMost(LatenciesOf(ProcessedOf(post)), 500.0), processed, 99);
    hide FramesOk, GapsOf, LatenciesOf, ProcessedOf, CountAtMost, Rank, CloseFrames, QuickFrames, CountDisposition;
  }

  lemma SpaceIsRequired(request: Request)
    requires request.disk.encodedByteRate >= 0.0 && request.plan.requestedSeconds >= 0
    ensures EnoughSpace(request) <==> HasSpace(request)
  {
    var need := 2.0 * request.disk.encodedByteRate * request.plan.requestedSeconds as real;
    assert need >= 0.0;
    assert need.Floor as real <= need < need.Floor as real + 1.0;
  }

  lemma NoStageFailure(stages: Stages)
    ensures StageFailure(stages).None? <==> NoStageFailed(stages)
  {
  }

  lemma WarmupIsCut(request: Request)
    requires request.observations != [] && Paced(request.observations)
    ensures AfterWarmup(request) == NotEarlierThan(request.observations, Boundary(request))
  {
    var items, boundary := request.observations, Boundary(request);
    SplitIsACut(items, boundary);
    var early := EarlierThan(items, boundary);
    forall i: nat | i < |items| ensures items[i].captured < boundary <==> i < |early| { CutAtBoundary(items, boundary, i); }
    hide Paced, EarlierThan, NotEarlierThan;
    TallyCut(|items|, |early|, IsEarly(items, boundary));
    assert items[|early|..] == NotEarlierThan(items, boundary);
  }

  // ---- Nothing failed ----

  lemma {:induction false} BumpedKeys(counts: map<FailureCode, int>, items: seq<Observation>)
    ensures BumpItems(counts, items) == counts || exists c :: c in BumpItems(counts, items)
    ensures counts == map[] && BumpItems(counts, items) == map[]
      ==> forall i :: 0 <= i < |items| ==> items[i].failureCode.None? && !items[i].qualityInsufficient
    ensures (forall i :: 0 <= i < |items| ==> items[i].failureCode.None? && !items[i].qualityInsufficient)
      ==> BumpItems(counts, items) == counts
  {
    if items != [] {
      var n := |items| - 1;
      BumpedKeys(counts, items[..n]);
      var last := items[n];
      var before := BumpItems(counts, items[..n]);
      if last.failureCode.Some? {
        assert last.failureCode.value in BumpItems(counts, items);
      } else if last.qualityInsufficient {
        assert QualityInsufficient in BumpItems(counts, items);
      } else {
        assert BumpItems(counts, items) == before;
      }
      if counts == map[] && BumpItems(counts, items) == map[] {
        forall i | 0 <= i < |items| ensures items[i].failureCode.None? && !items[i].qualityInsufficient {
          if i < n { assert items[..n][i] == items[i]; }
        }
      }
    }
  }

  lemma {:induction false} CodesKeys(counts: map<FailureCode, int>, codes: seq<FailureCode>)
    ensures codes != [] ==> codes[|codes| - 1] in BumpCodes(counts, codes)
    ensures codes == [] ==> BumpCodes(counts, codes) == counts
  {
  }

  lemma NoCountsIsNothingFailed(request: Request)
    ensures FailureCounts(request, false) == [] <==> NothingFailed(request)
  {
    var named := BumpItems(map[], request.observations);
    var tally := BumpCodes(named, request.injected);
    BumpedKeys(map[], request.observations);
    CodesKeys(named, request.injected);
    CodesKeepNames(named, request.injected);
    forall c ensures Named(SortedItems(tally, 0), c) <==> c in tally {
      SortedItemsNamed(tally, 0, c);
    }
    hide SortedItems, BumpItems, BumpCodes;
    var counts := SortedItems(tally, 0);
    assert FailureCounts(request, false) == counts;
    if counts == [] {
      assert tally == map[] by {
        forall c ensures c !in tally { assert !Named(counts, c); }
      }
      assert named == map[];
    }
    if tally == map[] && counts != [] {
      assert Named(counts, counts[0].0);
    }
  }

  // ---- Thresholds, one by one ----

  lemma SpanInSeconds(span: int, requested: int, n: nat)
    requires span > 0
    ensures Seconds(span) > 0.0
    ensures Seconds(span) >= requested as real <==> span >= requested * SECOND
    ensures n as real / Seconds(span) >= 13.5 <==> 2 * n * SECOND >= 27 * span
  {
    var s := Seconds(span);
    assert n as real / s >= 13.5 <==> n as real >= 13.5 * s by {
      DivideAtLeast(n as real, s, 13.5);
    }
    assert 13.5 * s == 27.0 * span as real / 2000000000.0;
  }

  lemma DivideAtLeast(x: real, y: real, bound: real)
    requires y > 0.0
    ensures x / y >= bound <==> x >= bound * y
  {
    assert (x / y) * y == x;
  }

  lemma DivideAtMost(x: real, y: real, bound: real)
    requires y > 0.0
    ensures x / y <= bound <==> x <= bound * y
  {
    assert (x / y) * y == x;
  }

  lemma ShareOfFrames(a: Accounting)
    requires a.delivered > 0 && a.processed + a.dropped + a.failed == a.delivered
    ensures a.processed as real / a.delivered as real < 0.99 <==> !(100 * a.processed >= 99 * a.delivered)
    ensures (a.dropped + a.failed) as real / a.delivered as real > 0.01 <==> !(100 * a.processed >= 99 * a.delivered)
  {
    DivideAtLeast(a.processed as real, a.delivered as real, 0.99);
    DivideAtMost((a.dropped + a.failed) as real, a.delivered as real, 0.01);
  }

  lemma ProcessedHaveTimes(kind: InputKind, runEnd: int, items: seq<Observation>)
    requires FramesOk(kind, runEnd, items)
    ensures |LatenciesOf(ProcessedOf(items))| == CountDisposition(items, Processed) == |ProcessedOf(items)|
  {
    LatenciesNonNegative(kind, runEnd, items);
    ProcessedLength(items);
  }

  lemma {:induction false} ProcessedLength(items: seq<Observation>)
    ensures |ProcessedOf(items)| == CountDisposition(items, Processed)
  {
    if items != [] {
      ProcessedLength(items[1..]);
      CountFromFront(items, Processed);
    }
  }

  lemma LastProcessedUnique(post: seq<Observation>, i: int, j: int)
    requires LastProcessedAt(post, i) && LastProcessedAt(post, j)
    ensures i == j
  {
  }

  /** The backlog of the summary, in milliseconds, against the bound in nanoseconds. */
  lemma BacklogBounded(kind: InputKind, runEnd: int, post: seq<Observation>, bound: int)
    requires SoundStream(kind, runEnd, post) && ProcessedOf(post) != []
    ensures post != [] && post[|post| - 1].captured >= LatestCompleted(ProcessedOf(post)).captured
    ensures BacklogWithin(post, bound) <==> post[|post| - 1].captured - LatestCompleted(ProcessedOf(post)).captured <= bound
  {
    BacklogIsLastMinusLastProcessed(kind, runEnd, post);
    hide SoundStream, LatestCompleted, ProcessedOf;
    var i :| 0 <= i < |post| && LatestCompleted(ProcessedOf(post)) == post[i] && post[i].disposition == Processed
      && (forall j :: i < j < |post| ==> post[j].disposition != Processed)
      && post[|post| - 1].captured >= post[i].captured;
    assert LastProcessedAt(post, i);
    if BacklogWithin(post, bound) {
      var j :| LastProcessedAt(post, j) && post[|post| - 1].captured - post[j].captured <= bound;
      LastProcessedUnique(post, i, j);
    }
  }

  /** For a sound stream a summary exists unless a span is empty: the negative backlog cannot occur. */
  lemma MetricsExist(request: Request, warmup: seq<Observation>, post: seq<Observation>)
    requires Split(request, warmup, post) && post != [] && request.observations != []
    ensures MetricsOf(request, post).Some?
      <==> request.plan.runEnd > request.observations[0].captured && request.plan.runEnd > Boundary(request)
  {
    PiecesSound(request.inputKind, request.plan.runEnd, warmup, post);
    if ProcessedOf(post) != [] { BacklogBounded(request.inputKind, request.plan.runEnd, post, 0); }
    hide SoundStream, LatestCompleted, ProcessedOf, BacklogWithin, GapsOf, LatenciesOf, RatesOf, NearestRank;
  }

  lemma MetricsRanks(request: Request, post: seq<Observation>)
    requires MetricsOf(request, post).Some?
    ensures var m := MetricsOf(request, post).value;
            var latencies := LatenciesOf(ProcessedOf(post));
            && m.p95Gap == NearestRank(GapsOf(post), 95)
            && m.p95Latency == NearestRank(latencies, 95) && m.p99Latency == NearestRank(latencies, 99)
            && m.p10Throughput == NearestRank(RatesOf(request.disk.samples), 10)
            && (m.backlog.None? <==> ProcessedOf(post) == [])
            && (m.backlog.Some? ==>
                  m.backlog.value == Millis(post[|post| - 1].captured - LatestCompleted(ProcessedOf(post)).captured))
  {
    hide NearestRank, GapsOf, LatenciesOf, ProcessedOf, RatesOf, LatestCompleted, Seconds, Millis, Boundary;
  }

  lemma RankWithin(values: seq<real>, percentile: int, limit: real)
    requires 1 <= percentile <= 100
    ensures var v := NearestRank(values, percentile);
            (v.None? || v.value <= limit) <==> CountAtMost(values, limit) >= Rank(|values|, percentile)
  {
    if values != [] { PercentileWithin(values, percentile, limit); }
  }

  lemma ThroughputWithin(request: Request)
    requires ValidDisk(request.disk)
    ensures var v := NearestRank(RatesOf(request.disk.samples), 10);
            && v.Some?
            && (v.value >= 2.0 * request.disk.encodedByteRate
                <==> CountAtLeast(RatesOf(request.disk.samples), 2.0 * request.disk.encodedByteRate) >= 55)
  {
    RatesNonNegative(request.disk.samples);
    PercentileWithin(RatesOf(request.disk.samples), 10, 2.0 * request.disk.encodedByteRate);
  }

  /** Each demand of the threshold check on its own, in counted form. */
  lemma RanksWithin(request: Request, warmup: seq<Observation>, post: seq<Observation>)
    requires Split(request, warmup, post) && ValidDisk(request.disk) && MetricsOf(request, post).Some?
    ensures var m := MetricsOf(request, post).value;
            && (PercentilesWithin(request, post) <==>
                  && (m.p95Gap.None? || m.p95Gap.value <= 200.0)
                  && (m.p95Latency.None? || m.p95Latency.value <= 200.0)
                  && (m.p99Latency.None? || m.p99Latency.value <= 500.0))
            && m.p10Throughput.Some?
            && (ThroughputHigh(request) <==> m.p10Throughput.value >= 2.0 * request.disk.encodedByteRate)
  {
    hide MetricsOf, Split, ValidDisk, NearestRank, GapsOf, LatenciesOf, ProcessedOf, RatesOf, CountAtMost, CountAtLeast, Rank;
    MetricsRanks(request, post);
    RankWithin(GapsOf(post), 95, 200.0);
    RankWithin(LatenciesOf(ProcessedOf(post)), 95, 200.0);
    RankWithin(LatenciesOf(ProcessedOf(post)), 99, 500.0);
    ThroughputWithin(request);
  }

  lemma SpansWithin(request: Request, post: seq<Observation>)
    requires ValidPlan(request.plan) && MetricsOf(request, post).Some?
    ensures var m := MetricsOf(request, post).value;
            var requested := request.plan.requestedSeconds as real;
            request.observations != [] &&
            (LongEnough(request, post) <==>
               m.totalSeconds >= requested && m.postSeconds >= requested && m.deliveredPerSecond >= 13.5)
  {
    MetricsShape(request, post);
    WarmupSeconds(request);
    var span := request.plan.runEnd - Boundary(request);
    assert span > 0;
    SpanInSeconds(span, request.plan.requestedSeconds, |post|);
    hide MetricsOf, Boundary, Seconds;
  }

  lemma BacklogInTime(request: Request, warmup: seq<Observation>, post: seq<Observation>)
    requires Split(request, warmup, post) && MetricsOf(request, post).Some?
    ensures var m := MetricsOf(request, post).value;
            && (m.backlog.Some? ==> (m.backlog.value <= 2000.0 <==> BacklogWithin(post, 2 * SECOND)))
            && (m.backlog.None? ==> CountDisposition(post, Processed) == 0)
            && (m.backlog.Some? ==> m.p95Latency.Some? && m.p99Latency.Some?)
            && (100 * CountDisposition(post, Processed) >= 99 * |post| ==> m.backlog.Some?)
  {
    PiecesSound(request.inputKind, request.plan.runEnd, warmup, post);
    MetricsShape(request, post);
    MetricsRanks(request, post);
    ProcessedHaveTimes(request.inputKind, request.plan.runEnd, post);
    if ProcessedOf(post) != [] {
      BacklogBounded(request.inputKind, request.plan.runEnd, post, 2 * SECOND);
    }
    hide MetricsOf, SoundStream, BacklogWithin, ProcessedOf, LatestCompleted, CountDisposition, GapsOf, LatenciesOf, RatesOf;
  }

  /** The threshold check asks about the frames first, then the space, then the throughput. */
  lemma ThresholdOrder(request: Request, a: Accounting, m: Metrics)
    requires a.delivered > 0
    ensures ThresholdFailure(request, a, m) ==
      if !(&& m.totalSeconds >= request.plan.requestedSeconds as real && m.postSeconds >= request.plan.requestedSeconds as real
           && m.deliveredPerSecond >= 13.5 && (m.p95Gap.None? || m.p95Gap.value <= 200.0)
           && m.p95Latency.Some? && m.p99Latency.Some? && m.p95Latency.value <= 200.0 && m.p99Latency.value <= 500.0
           && m.backlog.Some? && m.backlog.value <= 2000.0
           && !(a.processed as real / a.delivered as real < 0.99)
           && !((a.dropped + a.failed) as real / a.delivered as real > 0.01))
      then Some(QualityInsufficient)
      else if !EnoughSpace(request) then Some(DiskSpaceInsufficient)
      else if !(m.p10Throughput.Some? && m.p10Throughput.value >= 2.0 * request.disk.encodedByteRate) then Some(DiskThroughputInsufficient)
      else None
  {
    hide RequiredBytes;
  }

  ghost predicate PercentilesMeet(request: Request, post: seq<Observation>)
    requires request.observations != []
  {
    && LongEnough(request, post) && PercentilesWithin(request, post) && BacklogWithin(post, 2 * SECOND)
    && 100 * CountDisposition(post, Processed) >= 99 * |post|
  }

  lemma ThresholdsAreCounts(request: Request, warmup: seq<Observation>, post: seq<Observation>)
    requires Split(request, warmup, post) && ValidDisk(request.disk) && ValidPlan(request.plan)
    requires MetricsOf(request, post).Some? && post != [] && request.observations != []
    ensures ThresholdFailure(request, AccountingOf(post), MetricsOf(request, post).value) ==
      if !PercentilesMeet(request, post) then Some(QualityInsufficient)
      else if !EnoughSpace(request) then Some(DiskSpaceInsufficient)
      else if !ThroughputHigh(request) then Some(DiskThroughputInsufficient)
      else None
  {
    hide *;
    PostAddsUp(request, warmup, post);
    ShareOfFrames(AccountingOf(post));
    RanksWithin(request, warmup, post);
    SpansWithin(request, post);
    BacklogInTime(request, warmup, post);
    ThresholdOrder(request, AccountingOf(post), MetricsOf(request, post).value);
    MeetUnfolds(request, post);
  }

  lemma MeetUnfolds(request: Request, post: seq<Observation>)
    requires request.observations != []
    ensures PercentilesMeet(request, post) <==>
      && LongEnough(request, post) && PercentilesWithin(request, post) && BacklogWithin(post, 2 * SECOND)
      && 100 * CountDisposition(post, Processed) >= 99 * |post|
  {
    hide LongEnough, PercentilesWithin, BacklogWithin, CountDisposition;
  }

  /** The same order in counts of frames and samples. */
  lemma ThresholdsInFrames(request: Request, warmup: seq<Observation>, post: seq<Observation>)
    requires Split(request, warmup, post) && ValidDisk(request.disk) && ValidPlan(request.plan)
    requires MetricsOf(request, post).Some? && post != [] && request.observations != []
    ensures ThresholdFailure(request, AccountingOf(post), MetricsOf(request, post).value) ==
      if !FramesMeet(request, post) then Some(QualityInsufficient)
      else if !HasSpace(request) then Some(DiskSpaceInsufficient)
      else if !FastEnough(request.disk) then Some(DiskThroughputInsufficient)
      else None
  {
    assert ValidPlan(request.plan) && ValidDisk(request.disk) && Split(request, warmup, post);
    hide *;
    ThresholdsAreCounts(request, warmup, post);
    PostIsSound(request, warmup, post);
    SameDemands(request, post);
    RateNotNegative(request);
    SpaceIsRequired(request);
    SamplesAreFast(request);
  }

  lemma PostIsSound(request: Request, warmup: seq<Observation>, post: seq<Observation>)
    requires Split(request, warmup, post)
    ensures FramesOk(request.inputKind, request.plan.runEnd, post)
  {
    PiecesSound(request.inputKind, request.plan.runEnd, warmup, post);
    hide FramesOk, Paced, Ordered;
  }

  lemma RateNotNegative(request: Request)
    requires ValidPlan(request.plan) && ValidDisk(request.disk)
    ensures request.disk.encodedByteRate >= 0.0 && request.plan.requestedSeconds >= 0
  {
  }

  lemma SamplesAreFast(request: Request)
    ensures ThroughputHigh(request) <==> FastEnough(request.disk)
  {
    SampleCounts(request.disk.samples, 2.0 * request.disk.encodedByteRate);
    hide RatesOf, CountAtLeast, FastSamples;
  }

  lemma SameDemands(request: Request, post: seq<Observation>)
    requires request.observations != [] && post != [] && FramesOk(request.inputKind, request.plan.runEnd, post)
    ensures PercentilesMeet(request, post) <==> FramesMeet(request, post)
  {
    PercentilesAreShares(request, post);
    DispositionCounts(post, Processed);
    hide FramesOk, LongEnough, PercentilesWithin, EnoughWithin, BacklogWithin, CountDisposition;
  }

  lemma PostAddsUp(request: Request, warmup: seq<Observation>, post: seq<Observation>)
    requires Split(request, warmup, post)
    ensures var a := AccountingOf(post);
            && a.delivered == |post| && a.processed == CountDisposition(post, Processed)
            && a.processed + a.dropped + a.failed == a.delivered
            && a.qualityInsufficient == CountQuality(post)
  {
    PiecesSound(request.inputKind, request.plan.runEnd, warmup, post);
    AccountingAddsUp(request.inputKind, request.plan.runEnd, post);
    hide CountDisposition, CountQuality, CountDropReasons, SoundStream;
  }

  // ---- Exits that cannot be taken ----

  predicate EmptySpan(request: Request)
    requires request.observations != []
  {
    request.plan.runEnd <= request.observations[0].captured || request.plan.runEnd <= Boundary(request)
  }

  /** For a validated stream the warm-up and the rest are the stream, the accounting of each part
      adds up, no quality flag survives an empty failure count, and a summary is missing only if a
      span is empty: three exits of the evaluator are never taken. */
  lemma UnreachableExits(request: Request)
    requires CheckStream(request.inputKind, request.plan.runEnd, START, request.observations).None?
    ensures var (warmup, post) := SplitWarmup(request);
            var a := AccountingOf(post);
            && warmup + post == request.observations
            && a.processed + a.dropped + a.failed == a.delivered && SumReasons(a.dropReasons) == a.dropped
            && (FailureCounts(request, false) == [] ==> a.qualityInsufficient == 0)
            && (post != [] ==> request.observations != [])
            && (post != [] ==> (MetricsOf(request, post).None? <==> EmptySpan(request)))
  {
    ValidatedSplit(request);
    var warmup, post := SplitWarmup(request).0, SplitWarmup(request).1;
    hide CheckStream, SplitWarmup, MetricsOf, FailureCounts, NothingFailed, SoundStream;
    PostAddsUp(request, warmup, post);
    NoCountsIsNothingFailed(request);
    if NothingFailed(request) { NoQualityAfterSplit(request, warmup, post); }
    if post != [] { MetricsExist(request, warmup, post); }
  }

  // ---- The exact condition of a pass ----

  lemma FailureFields(h: Hasher, request: Request)
    ensures forall code, warmup, accounting, metrics, checked, stops, counts ::
      FailureReceipt(h, request, code, warmup, accounting, metrics, checked, stops, counts).outcome == NoGo
      && FailureReceipt(h, request, code, warmup, accounting, metrics, checked, stops, counts).privacyStops == stops
      && FailureReceipt(h, request, code, warmup, accounting, metrics, checked, stops, counts).privacyChecked == checked
      && FailureReceipt(h, request, code, warmup, accounting, metrics, checked, stops, counts).failureCode == Some(code)
  {
    hide FailureCounts, Named, AddCount, AccountingOf, RequiredBytes, InputDigest, EvaluationDigest, RecomputeDigest;
  }

  lemma PassFields(h: Hasher, request: Request, checked: int, warmup: Accounting, accounting: Accounting, metrics: Metrics)
    ensures var r := ReceiptOf(h, request, BackendContractPass, None, [], checked, 0, warmup, accounting, metrics, false);
            r.outcome == BackendContractPass && r.privacyStops == 0 && r.privacyChecked == checked && r.failureCode == None
  {
    hide RequiredBytes, InputDigest, EvaluationDigest, RecomputeDigest;
  }

  // ---- The code of an answer ----

  /** A pass without a code, or a failure with that code; and no privacy stop. */
  ghost predicate Answers(r: Receipt, code: Option<FailureCode>, checked: int) {
    && r.failureCode == code && r.outcome == (if code.Some? then NoGo else BackendContractPass)
    && r.privacyStops == 0 && r.privacyChecked == checked
  }

  /** What is wrong with the encoded bytes and the frames of a request whose stream is sound. */
  ghost function MeasuredReason(request: Request): Option<FailureCode>
    requires request.observations != []
  {
    if !EncodedSomething(request) then Some(EncoderWriteFailed)
    else if !EncodedConsistently(request) then Some(SchemaIncompatible)
    else if !FramesMeet(request, AfterWarmup(request)) then Some(QualityInsufficient)
    else if !HasSpace(request) then Some(DiskSpaceInsufficient)
    else if !FastEnough(request.disk) then Some(DiskThroughputInsufficient)
    else None
  }

  ghost function StageReason(stages: Stages): Option<FailureCode> {
    if NoStageFailed(stages) then None
    else if stages.open == StageFailed then Some(EncoderUnavailable)
    else if stages.write == StageFailed then Some(EncoderWriteFailed)
    else if stages.finalize == StageFailed then Some(EncoderFinalizeFailed)
    else Some(DiskFsyncFailed)
  }

  /** The occurring code whose name comes first in the alphabet. */
  ghost predicate IsLeastCode(request: Request, code: FailureCode) {
    Occurrences(request, code) > 0 && forall other :: Occurrences(request, other) > 0 ==> Place(code) <= Place(other)
  }

  ghost predicate RunTooShort(request: Request)
    requires request.observations != []
  {
    request.plan.runEnd <= request.observations[0].captured + request.plan.warmupSeconds * SECOND
  }

  lemma FailedHasLeast(request: Request)
    requires !NothingFailed(request)
    ensures exists code :: IsLeastCode(request, code)
    ensures forall code :: IsLeastCode(request, code) ==> FailureCounts(request, false) != [] && FailureCounts(request, false)[0].0 == code
  {
    var counts := FailureCounts(request, false);
    NoCountsIsNothingFailed(request);
    CountsAreOccurrences(request);
    hide NothingFailed, FailureCounts, Occurrences;
    var first := counts[0].0;
    forall other | Occurrences(request, other) > 0 ensures Place(first) <= Place(other) && (other != first ==> Place(first) < Place(other)) {
      FirstIsLeast(counts, other);
    }
    hide Place;
    assert IsLeastCode(request, first);
  }

  lemma FirstIsLeast(counts: Counts, other: FailureCode)
    requires Strict(counts) && Named(counts, other)
    ensures counts != [] && Place(counts[0].0) <= Place(other)
    ensures other != counts[0].0 ==> Place(counts[0].0) < Place(other)
  {
    hide Place;
    var i :| 0 <= i < |counts| && counts[i].0 == other;
  }

  /** What is wrong with a request that names no failure and has frames after the warm-up. */
  ghost function QuietReason(request: Request): Option<FailureCode>
    requires request.observations != []
  {
    if !NoStageFailed(request.disk.stages) then StageReason(request.disk.stages)
    else if RunTooShort(request) then Some(SchemaIncompatible)
    else MeasuredReason(request)
  }

  /** What is wrong with a request whose stream is sound, in the order in which it is found. */
  ghost function Reason(request: Request): Option<FailureCode> {
    if !NothingFailed(request) then
      FailedHasLeast(request);
      var code :| IsLeastCode(request, code);
      Some(code)
    else if request.observations == [] || AfterWarmup(request) == [] then Some(InputUnavailable)
    else QuietReason(request)
  }

  lemma MeasuredAnswer(h: Hasher, request: Request, warmup: seq<Observation>, post: seq<Observation>, checked: int)
    requires Split(request, warmup, post) && ValidDisk(request.disk) && ValidPlan(request.plan)
    requires request.observations != [] && post == AfterWarmup(request) && post != [] && MetricsOf(request, post).Some?
    ensures Answers(JudgeMetrics(h, request, warmup, AccountingOf(post), MetricsOf(request, post).value, checked), MeasuredReason(request), checked)
  {
    hide Split, ValidDisk, ValidPlan, AfterWarmup, FailureReceipt, ReceiptOf, MetricsOf, ThresholdFailure, FramesMeet, HasSpace, FastEnough;
    hide AccountingOf, IsClose, Near, Boundary;
    var m := MetricsOf(request, post).value;
    ThresholdsInFrames(request, warmup, post);
    MetricsShape(request, post);
    if request.disk.encodedByteRate > 0.0 {
      CloseIsNear(request.disk.encodedByteCount as real / request.disk.encodedByteRate, m.totalSeconds, 0.001);
    }
    FailureFields(h, request);
    PassFields(h, request, checked, AccountingOf(warmup), AccountingOf(post), m);
    assert m.totalSeconds == (request.plan.runEnd - request.observations[0].captured) as real / 1000000000.0;
  }

  lemma StreamAnswer(h: Hasher, request: Request, warmup: seq<Observation>, post: seq<Observation>, checked: int)
    requires Split(request, warmup, post) && ValidDisk(request.disk) && ValidPlan(request.plan)
    requires if request.observations == [] then post == [] else post == AfterWarmup(request)
    ensures Answers(JudgeStream(h, request, warmup, post, checked), Reason(request), checked)
  {
    FailureFields(h, request);
    NoCountsIsNothingFailed(request);
    PostAddsUp(request, warmup, post);
    if NothingFailed(request) {
      if post != [] { QuietStreamAnswer(h, request, warmup, post, checked); }
    } else {
      FailedHasLeast(request);
    }
    hide FailureReceipt, JudgeMetrics, MetricsOf, FailureCounts, NothingFailed, Split, AccountingOf, QuietReason, AfterWarmup, IsLeastCode;
    hide ValidDisk, ValidPlan, StageFailure, Answers;
    SimpleAnswers(h, request, warmup, post, checked);
  }

  lemma SimpleAnswers(h: Hasher, request: Request, warmup: seq<Observation>, post: seq<Observation>, checked: int)
    ensures Answers(FailureReceipt(h, request, InputUnavailable, warmup, Some(AccountingOf(post)), None, checked, 0, None), Some(InputUnavailable), checked)
    ensures var counts := FailureCounts(request, false);
            counts != [] ==>
              Answers(FailureReceipt(h, request, counts[0].0, warmup, Some(AccountingOf(post)), None, checked, 0, Some(counts)), Some(counts[0].0), checked)
  {
    FailureFields(h, request);
    hide FailureReceipt, FailureCounts, AccountingOf;
  }

  lemma QuietStreamAnswer(h: Hasher, request: Request, warmup: seq<Observation>, post: seq<Observation>, checked: int)
    requires Split(request, warmup, post) && ValidDisk(request.disk) && ValidPlan(request.plan) && NothingFailed(request)
    requires request.observations != [] && post == AfterWarmup(request) && post != []
    ensures Answers(JudgeStream(h, request, warmup, post, checked), QuietReason(request), checked)
  {
    FailureFields(h, request);
    NoCountsIsNothingFailed(request);
    PostAddsUp(request, warmup, post);
    NoQualityAfterSplit(request, warmup, post);
    MetricsExist(request, warmup, post);
    TooShort(request);
    NoStageFailure(request.disk.stages);
    if MetricsOf(request, post).Some? { MeasuredAnswer(h, request, warmup, post, checked); }
    hide FailureReceipt, JudgeMetrics, MetricsOf, FailureCounts, NothingFailed, Split, AccountingOf, MeasuredReason, AfterWarmup;
    hide ValidDisk, ValidPlan, RunTooShort;
  }

  lemma TooShort(request: Request)
    requires request.observations != [] && ValidPlan(request.plan)
    ensures RunTooShort(request) <==>
      !(request.plan.runEnd > request.observations[0].captured && request.plan.runEnd > Boundary(request))
  {
  }

  lemma NoQualityAfterSplit(request: Request, warmup: seq<Observation>, post: seq<Observation>)
    requires Split(request, warmup, post) && NothingFailed(request)
    ensures CountQuality(post) == 0
  {
    hide SoundStream;
    forall i | 0 <= i < |post| ensures !post[i].qualityInsufficient {
      assert (warmup + post)[|warmup| + i] == post[i];
    }
    NoQuality(post);
  }

  /** The code the evaluator finds once every frame is cleared: that of the first bad frame, or the
      first thing wrong with the request. */
  ghost function Verdict(request: Request): Option<FailureCode> {
    var kind, runEnd, items := request.inputKind, request.plan.runEnd, request.observations;
    if SoundStream(kind, runEnd, items) then Reason(request)
    else
      UnsoundHasBad(kind, runEnd, items);
      var i: nat :| FirstBad(kind, runEnd, items, i);
      BadFrame(kind, runEnd, items, i)
  }

  lemma ClearAnswer(h: Hasher, request: Request)
    requires ValidPlan(request.plan) && ValidDisk(request.disk)
    ensures Answers(JudgeClear(h, request), Verdict(request), |request.observations|)
  {
    var kind, runEnd, items := request.inputKind, request.plan.runEnd, request.observations;
    ClearShape(h, request);
    FailureFields(h, request);
    CheckIsSound(kind, runEnd, START, items);
    AtStart(items);
    hide JudgeClear, JudgeStream, CheckStream, FailureReceipt, SoundStream, Reason, BadFrame, AfterCursor, ValidPlan, ValidDisk, SplitWarmup;
    if SoundStream(kind, runEnd, items) {
      ValidatedSplit(request);
      SplitIsWarmup(request);
      StreamAnswer(h, request, SplitWarmup(request).0, SplitWarmup(request).1, |items|);
    } else {
      UnsoundHasBad(kind, runEnd, items);
      forall i: nat | FirstBad(kind, runEnd, items, i) ensures CheckStream(kind, runEnd, START, items) == BadFrame(kind, runEnd, items, i) {
        StreamCode(kind, runEnd, items, i);
      }
    }
  }

  lemma SplitIsWarmup(request: Request)
    requires SoundStream(request.inputKind, request.plan.runEnd, request.observations)
    ensures if request.observations == [] then SplitWarmup(request).1 == [] else SplitWarmup(request).1 == AfterWarmup(request)
  {
    if request.observations != [] { WarmupIsCut(request); }
    hide AfterWarmup, FramesOk, Paced, Ordered;
  }

  lemma AtStart(items: seq<Observation>)
    ensures AfterCursor(START, items)
  {
  }

  /** There is nothing wrong with a request exactly when it meets the contract. */
  lemma NoVerdictIsContract(request: Request)
    requires ValidPlan(request.plan)
    ensures Verdict(request).None? <==> MeetsContract(request)
  {
    var kind, runEnd, items := request.inputKind, request.plan.runEnd, request.observations;
    if !SoundStream(kind, runEnd, items) { UnsoundHasBad(kind, runEnd, items); }
    assert request.plan.requestedSeconds >= 60;
    hide SoundStream, BadFrame, NothingFailed, EnoughWithin, BacklogWithin, HasSpace, FastEnough, ProcessedFrames, Near, IsLeastCode, AfterWarmup;
  }

  ghost predicate AllClear(guard: Guard, n: nat) {
    forall i: nat :: i < n ==> guard(i) == Clear
  }

  /** Every answer of the evaluator: SCHEMA_INCOMPATIBLE without the lease, PRIVACY_STOP if the guard
      did not clear a frame, and otherwise the verdict on the request. */
  lemma AnswerIsVerdict(h: Hasher, request: Request, guard: Guard, acquire: LeaseAnswer, releaseRaises: bool)
    requires Evaluate(h, request, guard, acquire, releaseRaises).Ok?
    ensures var r := Evaluate(h, request, guard, acquire, releaseRaises).value;
            if acquire != Granted || releaseRaises then Answers(r, Some(SchemaIncompatible), 0)
            else if !AllClear(guard, |request.observations|) then
              && r.failureCode == Some(PrivacyStop) && r.outcome == NoGo && r.privacyStops == 1
              && r.privacyChecked == FirstStop(guard, |request.observations|, 0) + 1
            else Answers(r, Verdict(request), |request.observations|)
  {
    hide *;
    EvaluateShape(h, request, guard, acquire, releaseRaises);
    FailureFields(h, request);
    SchemaAnswers(h, request);
    StopIsFailure(h, request);
    ClearAnswer(h, request);
    FirstStopIsClear(guard, |request.observations|);
  }

  lemma SchemaAnswers(h: Hasher, request: Request)
    ensures Answers(FailureReceipt(h, request, SchemaIncompatible, [], None, None, 0, 0, None), Some(SchemaIncompatible), 0)
  {
    FailureFields(h, request);
    hide FailureReceipt;
  }

  /** A pass is answered exactly when the lease was held and given back, the guard cleared every
      frame, and the request meets the contract. */
  lemma PassIsContract(h: Hasher, request: Request, guard: Guard, acquire: LeaseAnswer, releaseRaises: bool)
    requires Evaluate(h, request, guard, acquire, releaseRaises).Ok?
    ensures Evaluate(h, request, guard, acquire, releaseRaises).value.outcome == BackendContractPass
      <==> acquire == Granted && !releaseRaises && AllClear(guard, |request.observations|) && MeetsContract(request)
  {
    EvaluateShape(h, request, guard, acquire, releaseRaises);
    AnswerIsVerdict(h, request, guard, acquire, releaseRaises);
    NoVerdictIsContract(request);
    hide Evaluate, AllClear, Verdict, MeetsContract, FailureReceipt, StopReceipt, JudgeClear, FirstStop;
  }

  /** A receipt names a privacy stop that counted exactly when the guard stopped a frame under a
      lease that was held and given back. */
  lemma StopMarksTheGuard(h: Hasher, request: Request, guard: Guard, acquire: LeaseAnswer, releaseRaises: bool)
    requires Evaluate(h, request, guard, acquire, releaseRaises).Ok?
    ensures Evaluate(h, request, guard, acquire, releaseRaises).value.privacyStops == 1
      <==> acquire == Granted && !releaseRaises && !AllClear(guard, |request.observations|)
  {
    AnswerIsVerdict(h, request, guard, acquire, releaseRaises);
    hide Evaluate, AllClear, Verdict, FirstStop;
  }

  lemma StopIsFailure(h: Hasher, request: Request)
    ensures forall checked :: StopReceipt(h, request, checked).outcome == NoGo && StopReceipt(h, request, checked).privacyStops == 1
    ensures forall checked :: StopReceipt(h, request, checked).failureCode == Some(PrivacyStop)
    ensures forall checked :: StopReceipt(h, request, checked).privacyChecked == checked
  {
    FailureFields(h, request);
    hide FailureReceipt;
  }

  lemma FirstStopIsClear(guard: Guard, n: nat)
    ensures FirstStop(guard, n, 0) < n <==> !AllClear(guard, n)
  {
    FirstStopInRange(guard, n, 0);
  }

  /** The number of frames a pass is based on. */
  lemma PassFrames(request: Request)
    requires ValidPlan(request.plan) && MeetsContract(request)
    ensures var post := AfterWarmup(request);
            && |post| >= (if request.plan.runKind == Preflight60s then 810 else 16200)
            && 100 * CloseFrames(post, 200 * MILLI) >= 95 * (|post| - 1)
            && 100 * ProcessedFrames(post) >= 99 * |post|
  {
    hide CloseFrames, QuickFrames, ProcessedFrames, BacklogWithin, HasSpace, FastEnough, NothingFailed, SoundStream, AfterWarmup, Near;
  }

  // ---- When a pass verifies ----

  /** The receipt names no failure and reports the disk evidence of the request. */
  ghost predicate RecordsDisk(r: Receipt, request: Request) {
    && r.failureCode == None && r.stages == request.disk.stages && r.freeBytes == request.disk.freeBytes
    && r.requiredBytes == RequiredBytes(request.disk.encodedByteRate, request.plan.requestedSeconds)
  }

  lemma ContractHasSpace(request: Request)
    requires MeetsContract(request) && ValidPlan(request.plan)
    ensures EnoughSpace(request)
  {
    SpaceIsRequired(request);
    hide CloseFrames, QuickFrames, ProcessedFrames, BacklogWithin, HasSpace, EnoughSpace, FastEnough, NothingFailed, SoundStream, AfterWarmup, Near;
  }

  lemma RecordedSpace(r: Receipt, request: Request)
    requires RecordsDisk(r, request) && EnoughSpace(request)
    ensures r.failureCode == None && r.stages == request.disk.stages && r.freeBytes >= r.requiredBytes
  {
    hide RequiredBytes;
  }

  lemma PassKeepsDisk(h: Hasher, request: Request, guard: Guard, acquire: LeaseAnswer, releaseRaises: bool)
    requires Evaluate(h, request, guard, acquire, releaseRaises).Ok?
    requires Evaluate(h, request, guard, acquire, releaseRaises).value.outcome == BackendContractPass
    ensures var r := Evaluate(h, request, guard, acquire, releaseRaises).value;
            RecordsDisk(r, request)
  {
    EvaluateShape(h, request, guard, acquire, releaseRaises);
    FailureFields(h, request);
    hide Evaluate, FirstStop, JudgeClear, StopReceipt, FailureReceipt;
    StopIsFailure(h, request);
    ClearPassKeepsDisk(h, request);
  }

  lemma ClearPassKeepsDisk(h: Hasher, request: Request)
    requires JudgeClear(h, request).outcome == BackendContractPass
    ensures RecordsDisk(JudgeClear(h, request), request)
  {
    ClearShape(h, request);
    FailureFields(h, request);
    hide JudgeClear, CheckStream, FailureReceipt, SplitWarmup, JudgeStream;
    StreamPassKeepsDisk(h, request, SplitWarmup(request).0, SplitWarmup(request).1, |request.observations|);
  }

  lemma StreamPassKeepsDisk(h: Hasher, request: Request, warmup: seq<Observation>, post: seq<Observation>, checked: int)
    requires JudgeStream(h, request, warmup, post, checked).outcome == BackendContractPass
    ensures var r := JudgeStream(h, request, warmup, post, checked);
            RecordsDisk(r, request)
  {
    FailureFields(h, request);
    hide FailureReceipt, FailureCounts, MetricsOf, StageFailure, ThresholdFailure, IsClose, RequiredBytes, InputDigest, EvaluationDigest, RecomputeDigest;
    hide CountDisposition, CountQuality, CountDropReasons;
  }

  /** Of the passes exactly those are verified whose request had all four encoder stages succeed. */
  lemma PassVerifiesIffStages(h: Hasher, request: Request, guard: Guard, acquire: LeaseAnswer, releaseRaises: bool)
    requires Evaluate(h, request, guard, acquire, releaseRaises).Ok?
    requires Evaluate(h, request, guard, acquire, releaseRaises).value.outcome == BackendContractPass
    ensures Verify(h, Evaluate(h, request, guard, acquire, releaseRaises).value) <==> StagesSucceeded(request.disk.stages)
  {
    hide *;
    EvaluatorAndVerifierAgree(h, request, guard, acquire, releaseRaises);
    PassKeepsDisk(h, request, guard, acquire, releaseRaises);
    PassIsContract(h, request, guard, acquire, releaseRaises);
    EvaluateShape(h, request, guard, acquire, releaseRaises);
    ContractHasSpace(request);
    RecordedSpace(Evaluate(h, request, guard, acquire, releaseRaises).value, request);
  }
}
