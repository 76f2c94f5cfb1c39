/** The evaluator and the verifier agree, and what a pass and a privacy stop promise. */
module D1Theorems {
  import opened Wrappers
  import opened D1Types
  import opened D1Rank
  import opened D1Evaluator
  import opened D1Stream
  import opened D1Verifier
  import opened D1Agreement

  // ---- Samples taken from a sound stream ----

  ghost predicate NonNegative(values: seq<real>) {
    forall x :: x in values ==> x >= 0.0
  }

  lemma {:induction false} GapsNonNegative(post: seq<Observation>)
    requires Paced(post)
    ensures |GapsOf(post)| == Max(|post| - 1, 0) && NonNegative(GapsOf(post))
  {
    if |post| >= 2 {
      ConsPaced(post);
      GapsNonNegative(post[1..]);
    }
  }

  /** The count, from the front. */
  lemma {:induction false} CountFromFront(items: seq<Observation>, d: Disposition)
    requires items != []
    ensures CountDisposition(items, d) == CountDisposition(items[1..], d) + if items[0].disposition == d then 1 else 0
    decreases |items|
  {
    var n := |items| - 1;
    if n > 0 {
      CountFromFront(items[..n], d);
      assert items[..n][1..] == items[1..][..n - 1];
    }
  }

  lemma {:induction false} LatenciesNonNegative(kind: InputKind, runEnd: int, items: seq<Observation>)
    requires FramesOk(kind, runEnd, items)
    ensures |LatenciesOf(ProcessedOf(items))| == CountDisposition(items, Processed) && NonNegative(LatenciesOf(ProcessedOf(items)))
  {
    if items != [] {
      ConsFrames(kind, runEnd, items);
      LatenciesNonNegative(kind, runEnd, items[1..]);
      CountFromFront(items, Processed);
      assert FrameOk(kind, runEnd, items[0]);
      if items[0].disposition == Processed {
        assert ProcessedOf(items)[1..] == ProcessedOf(items[1..]);
      } else {
        assert ProcessedOf(items) == ProcessedOf(items[1..]);
      }
    }
  }

  lemma {:induction false} RatesNonNegative(samples: seq<Sample>)
    requires forall i :: 0 <= i < |samples| ==> samples[i].bytesPerSecond >= 0.0
    ensures |RatesOf(samples)| == |samples| && NonNegative(RatesOf(samples))
  {
    if samples != [] { RatesNonNegative(samples[1..]); }
  }

  lemma RankedNonNegative(values: seq<real>, percentile: int)
    requires NonNegative(values)
    ensures NearestRank(values, percentile).Some? ==> NearestRank(values, percentile).value >= 0.0
  {
    if Rankable(values, percentile) { NearestRankIsRank(values, percentile); }
  }

  // ---- A pass ----

  ghost predicate Split(request: Request, warmup: seq<Observation>, post: seq<Observation>) {
    && SoundStream(request.inputKind, request.plan.runEnd, request.observations)
    && warmup + post == request.observations
  }

  /** All values of a metric summary are present and not negative once a rank exists for each. */
  lemma MetricsNonNegative(request: Request, warmup: seq<Observation>, post: seq<Observation>)
    requires Split(request, warmup, post) && ValidDisk(request.disk)
    requires MetricsOf(request, post).Some?
    ensures var m := MetricsOf(request, post).value;
            && (m.p95Gap.Some? ==> m.p95Gap.value >= 0.0) && (m.p95Gap.Some? <==> |post| >= 2)
            && (m.p95Latency.Some? ==> m.p95Latency.value >= 0.0)
            && (m.p99Latency.Some? ==> m.p99Latency.value >= 0.0)
            && (m.p10Throughput.Some? ==> m.p10Throughput.value >= 0.0)
            && (m.backlog.Some? ==> m.backlog.value >= 0.0)
  {
    PiecesSound(request.inputKind, request.plan.runEnd, warmup, post);
    GapsNonNegative(post);
    LatenciesNonNegative(request.inputKind, request.plan.runEnd, post);
    RatesNonNegative(request.disk.samples);
    RankedNonNegative(GapsOf(post), 95);
    RankedNonNegative(LatenciesOf(ProcessedOf(post)), 95);
    RankedNonNegative(LatenciesOf(ProcessedOf(post)), 99);
    RankedNonNegative(RatesOf(request.disk.samples), 10);
    hide SoundStream, NonNegative, NearestRank, GapsOf, LatenciesOf, ProcessedOf, RatesOf, LatestCompleted, ValidDisk;
    assert Rankable(GapsOf(post), 95) <==> |post| >= 2;
  }

  lemma FrameRate(n: int, seconds: real, requested: real)
    requires seconds >= requested > 0.0 && n as real / seconds >= 13.5
    ensures n as real >= 13.5 * requested
  {
    assert n as real == (n as real / seconds) * seconds;
    assert (n as real / seconds) * seconds >= 13.5 * seconds;
  }

  /** The four derived quantities of a summary. */
  lemma MetricsShape(request: Request, post: seq<Observation>)
    requires MetricsOf(request, post).Some?
    ensures request.observations != [] && post != []
    ensures var m := MetricsOf(request, post).value;
            && m.firstCapture == request.observations[0].captured && m.runEnd == request.plan.runEnd
            && m.totalSeconds == Seconds(m.runEnd - m.firstCapture) && m.totalSeconds > 0.0
            && m.postSeconds == Seconds(m.runEnd - Boundary(request)) && m.postSeconds > 0.0
            && m.deliveredPerSecond == |post| as real / m.postSeconds
            && m.deliveredPerSecond >= 0.0
  {
    hide NearestRank, GapsOf, LatenciesOf, ProcessedOf, RatesOf, LatestCompleted, Seconds;
  }

  lemma CloseToItself(x: real, tolerance: real)
    requires tolerance >= 0.0
    ensures IsClose(x, x, tolerance)
  {
  }

  lemma WarmupSeconds(request: Request)
    requires request.plan.warmupSeconds == 5 && request.observations != []
    ensures Seconds(request.plan.runEnd - request.observations[0].captured) - Seconds(request.plan.runEnd - Boundary(request)) == 5.0
  {
  }

  lemma PassMetrics(request: Request, warmup: seq<Observation>, post: seq<Observation>, r: Receipt)
    requires Split(request, warmup, post) && ValidDisk(request.disk) && ValidPlan(request.plan)
    requires MetricsOf(request, post).Some? && post != []
    requires ThresholdFailure(request, AccountingOf(post), MetricsOf(request, post).value).None?
    requires r.accounting == AccountingOf(post) && r.warmupSeconds == 5
    requires r.requestedSeconds == request.plan.requestedSeconds && r.encodedByteRate == request.disk.encodedByteRate
    ensures MetricsSemantic(MetricsOf(request, post).value, r)
  {
    var m := MetricsOf(request, post).value;
    MetricsShape(request, post);
    MetricsNonNegative(request, warmup, post);
    FirstCaptureInRange(request, warmup, post);
    WarmupSeconds(request);
    assert request.plan.requestedSeconds >= 60;
    hide MetricsOf, Split, ValidDisk, Seconds, Boundary, ValidPlan;
    ThresholdsMeanSemantic(request, m, AccountingOf(post), r);
  }

  lemma ThresholdsMeanSemantic(request: Request, m: Metrics, a: Accounting, r: Receipt)
    requires a.delivered > 0 && ThresholdFailure(request, a, m).None?
    requires m.postSeconds > 0.0 && m.totalSeconds >= 0.0 && m.deliveredPerSecond == a.delivered as real / m.postSeconds
    requires m.totalSeconds == Seconds(m.runEnd - m.firstCapture) && m.totalSeconds - m.postSeconds == 5.0
    requires 0 <= m.firstCapture <= m.runEnd && request.plan.requestedSeconds >= 60
    requires m.p95Gap.Some? ==> m.p95Gap.value >= 0.0
    requires m.p95Gap.Some? <==> a.delivered >= 2
    requires m.p95Latency.Some? ==> m.p95Latency.value >= 0.0
    requires m.p99Latency.Some? ==> m.p99Latency.value >= 0.0
    requires m.p10Throughput.Some? ==> m.p10Throughput.value >= 0.0
    requires m.backlog.Some? ==> m.backlog.value >= 0.0
    requires r.accounting == a && r.warmupSeconds == 5
    requires r.requestedSeconds == request.plan.requestedSeconds && r.encodedByteRate == request.disk.encodedByteRate
    ensures MetricsSemantic(m, r)
  {
    CloseToItself(m.totalSeconds, 0.001);
    CloseToItself(5.0, 0.001);
    CloseToItself(m.deliveredPerSecond, 0.000001);
    hide IsClose, RequiredBytes, Seconds;
    FrameRate(a.delivered, m.postSeconds, request.plan.requestedSeconds as real);
  }

  lemma FirstCaptureInRange(request: Request, warmup: seq<Observation>, post: seq<Observation>)
    requires Split(request, warmup, post) && request.observations != []
    ensures 0 <= request.observations[0].captured <= request.plan.runEnd
  {
    assert FrameOk(request.inputKind, request.plan.runEnd, request.observations[0]);
  }

  // ---- Agreement, exit by exit ----

  /** The facts the evaluator has established when it reaches the metrics. */
  ghost predicate Measured(h: Hasher, request: Request, warmup: seq<Observation>, post: seq<Observation>, checked: int) {
    && ValidPlan(request.plan) && ValidDisk(request.disk)
    && Split(request, warmup, post) && checked == |request.observations|
    && AccountingSemantic(AccountingOf(warmup)) && AccountingSemantic(AccountingOf(post))
  }

  lemma PassAgrees(h: Hasher, request: Request, warmup: seq<Observation>, post: seq<Observation>, checked: int)
    requires Measured(h, request, warmup, post, checked) && post != []
    requires MetricsOf(request, post).Some? && AccountingOf(post).qualityInsufficient == 0
    requires request.disk.encodedByteCount > 0 && request.disk.encodedByteRate > 0.0
    requires IsClose(request.disk.encodedByteCount as real / request.disk.encodedByteRate, MetricsOf(request, post).value.totalSeconds, 0.001)
    requires ThresholdFailure(request, AccountingOf(post), MetricsOf(request, post).value).None?
    ensures Agrees(h, ReceiptOf(h, request, BackendContractPass, None, [], checked, 0, AccountingOf(warmup), AccountingOf(post),
                                MetricsOf(request, post).value, false))
  {
    var m := MetricsOf(request, post).value;
    var r := ReceiptOf(h, request, BackendContractPass, None, [], checked, 0, AccountingOf(warmup), AccountingOf(post), m, false);
    MeasuredParts(h, request, warmup, post, checked);
    hide *;
    ReceiptFramed(h, request, BackendContractPass, None, [], checked, 0, AccountingOf(warmup), AccountingOf(post), m);
    PassMetrics(request, warmup, post, r);
    FramedVerifies(h, r);
    PassIsStages(r);
    PassAccepted(h, r);
  }

  lemma MeasuredParts(h: Hasher, request: Request, warmup: seq<Observation>, post: seq<Observation>, checked: int)
    requires Measured(h, request, warmup, post, checked)
    ensures ValidPlan(request.plan) && ValidDisk(request.disk) && Split(request, warmup, post)
    ensures AccountingSemantic(AccountingOf(warmup)) && AccountingSemantic(AccountingOf(post))
    ensures checked == AccountingOf(warmup).delivered + AccountingOf(post).delivered
    ensures CountsSemantic([])
  {
    hide ValidPlan, ValidDisk, SoundStream, AccountingSemantic, CountDisposition, CountQuality, CountDropReasons;
    assert |warmup| + |post| == |warmup + post|;
  }

  lemma PassIsStages(r: Receipt)
    requires r.failureCode.None? && r.failureCounts == [] && r.privacyStops == 0
    requires r.privacyChecked == r.warmupAccounting.delivered + r.accounting.delivered
    requires r.accounting.qualityInsufficient == 0 && r.encodedByteCount > 0 && r.encodedByteRate > 0.0
    requires MetricsSemantic(r.metrics, r)
    requires IsClose(r.encodedByteCount as real / r.encodedByteRate, r.metrics.totalSeconds, 0.001)
    ensures PassSemantic(r) <==> StagesSucceeded(r.stages)
  {
    hide MetricsSemantic, IsClose;
  }

  lemma PassAccepted(h: Hasher, r: Receipt)
    requires r.failureCode.None? && r.outcome == BackendContractPass
    requires Verify(h, r) <==> r.freeBytes >= r.requiredBytes && StagesSucceeded(r.stages)
    ensures Agrees(h, r)
  {
    hide Verify, StagesSucceeded;
  }

  lemma MetricsAgree(h: Hasher, request: Request, warmup: seq<Observation>, post: seq<Observation>, checked: int)
    requires Measured(h, request, warmup, post, checked) && post != []
    requires MetricsOf(request, post).Some? && AccountingOf(post).qualityInsufficient == 0
    ensures Agrees(h, JudgeMetrics(h, request, warmup, AccountingOf(post), MetricsOf(request, post).value, checked))
  {
    hide ReceiptOf, FailureReceipt, MetricsOf, ValidPlan, ValidDisk, Split, AccountingSemantic, IsClose, ThresholdFailure, Agrees;
    hide CountDisposition, CountQuality, CountDropReasons, DropReasonItems;
    var m, a := MetricsOf(request, post).value, AccountingOf(post);
    var disk := request.disk;
    if disk.encodedByteCount <= 0 || disk.encodedByteRate <= 0.0 {
      FailureVerifies(h, request, EncoderWriteFailed, warmup, Some(a), Some(m), checked, None);
    } else if !IsClose(disk.encodedByteCount as real / disk.encodedByteRate, m.totalSeconds, 0.001) {
      FailureVerifies(h, request, SchemaIncompatible, warmup, Some(a), Some(m), checked, None);
    } else if ThresholdFailure(request, a, m).Some? {
      FailureVerifies(h, request, ThresholdFailure(request, a, m).value, warmup, Some(a), Some(m), checked, None);
    } else {
      PassAgrees(h, request, warmup, post, checked);
    }
  }

  lemma StreamAgrees(h: Hasher, request: Request, warmup: seq<Observation>, post: seq<Observation>, checked: int)
    requires Measured(h, request, warmup, post, checked)
    ensures Agrees(h, JudgeStream(h, request, warmup, post, checked))
  {
    var a, counts := AccountingOf(post), FailureCounts(request, false);
    TallySemantic(request, false);
    hide ReceiptOf, FailureReceipt, MetricsOf, JudgeMetrics, FailureCounts, CountsSemantic, StageFailure, Agrees;
    hide ValidPlan, ValidDisk, Split, AccountingSemantic, CountDisposition, CountQuality, CountDropReasons;
    if counts != [] {
      FailureVerifies(h, request, counts[0].0, warmup, Some(a), None, checked, Some(counts));
    } else if a.delivered == 0 {
      FailureVerifies(h, request, InputUnavailable, warmup, Some(a), None, checked, None);
    } else if a.processed + a.dropped + a.failed != a.delivered {
      FailureVerifies(h, request, SchemaIncompatible, warmup, Some(a), None, checked, None);
    } else if a.qualityInsufficient != 0 {
      FailureVerifies(h, request, QualityInsufficient, warmup, Some(a), None, checked, None);
    } else if StageFailure(request.disk.stages).Some? {
      FailureVerifies(h, request, StageFailure(request.disk.stages).value, warmup, Some(a), None, checked, None);
    } else if MetricsOf(request, post).None? {
      FailureVerifies(h, request, SchemaIncompatible, warmup, Some(a), None, checked, None);
    } else {
      MetricsAgree(h, request, warmup, post, checked);
    }
  }

  /** After validation the warm-up and the rest are the two consecutive parts of the stream. */
  lemma ValidatedSplit(request: Request)
    requires CheckStream(request.inputKind, request.plan.runEnd, START, request.observations).None?
    ensures Split(request, SplitWarmup(request).0, SplitWarmup(request).1)
    ensures AccountingSemantic(AccountingOf(SplitWarmup(request).0)) && AccountingSemantic(AccountingOf(SplitWarmup(request).1))
  {
    CheckIsSound(request.inputKind, request.plan.runEnd, START, request.observations);
    if request.observations != [] { SplitIsACut(request.observations, Boundary(request)); }
    var (warmup, post) := SplitWarmup(request);
    assert warmup + post == request.observations;
    PiecesSound(request.inputKind, request.plan.runEnd, warmup, post);
    SoundAccounting(request.inputKind, request.plan.runEnd, warmup);
    SoundAccounting(request.inputKind, request.plan.runEnd, post);
  }

  lemma ClearShape(h: Hasher, request: Request)
    ensures var error := CheckStream(request.inputKind, request.plan.runEnd, START, request.observations);
            JudgeClear(h, request)
            == if error.Some? then FailureReceipt(h, request, error.value, [], None, None, |request.observations|, 0, None)
               else JudgeStream(h, request, SplitWarmup(request).0, SplitWarmup(request).1, |request.observations|)
  {
    hide CheckStream, FailureReceipt, SplitWarmup, JudgeStream;
  }

  lemma ClearAgrees(h: Hasher, request: Request)
    requires ValidPlan(request.plan) && ValidDisk(request.disk)
    ensures Agrees(h, JudgeClear(h, request))
  {
    hide *;
    ClearShape(h, request);
    EmptyIsSemantic();
    var error := CheckStream(request.inputKind, request.plan.runEnd, START, request.observations);
    if error.Some? {
      FailureVerifies(h, request, error.value, [], None, None, |request.observations|, None);
    } else {
      ValidatedIsMeasured(h, request);
      StreamAgrees(h, request, SplitWarmup(request).0, SplitWarmup(request).1, |request.observations|);
    }
  }

  lemma ValidatedIsMeasured(h: Hasher, request: Request)
    requires ValidPlan(request.plan) && ValidDisk(request.disk)
    requires CheckStream(request.inputKind, request.plan.runEnd, START, request.observations).None?
    ensures Measured(h, request, SplitWarmup(request).0, SplitWarmup(request).1, |request.observations|)
  {
    ValidatedSplit(request);
    hide ValidPlan, ValidDisk, Split, AccountingSemantic, CheckStream, SplitWarmup, AccountingOf;
  }

  lemma {:induction false} FirstStopInRange(guard: Guard, n: nat, i: nat)
    requires i <= n
    ensures i <= FirstStop(guard, n, i) <= n
    ensures FirstStop(guard, n, i) < n ==> guard(FirstStop(guard, n, i)) != Clear
    ensures forall k :: i <= k < FirstStop(guard, n, i) ==> guard(k) == Clear
    decreases n - i
  {
    if i < n && guard(i) == Clear { FirstStopInRange(guard, n, i + 1); }
  }

  lemma EvaluateShape(h: Hasher, request: Request, guard: Guard, acquire: LeaseAnswer, releaseRaises: bool)
    requires Evaluate(h, request, guard, acquire, releaseRaises).Ok?
    ensures ValidPlan(request.plan) && ValidDisk(request.disk)
    ensures var stop := FirstStop(guard, |request.observations|, 0);
            Evaluate(h, request, guard, acquire, releaseRaises).value
            == if acquire != Granted || releaseRaises then FailureReceipt(h, request, SchemaIncompatible, [], None, None, 0, 0, None)
               else if stop < |request.observations| then StopReceipt(h, request, stop + 1)
               else JudgeClear(h, request)
  {
    hide FailureReceipt, StopReceipt, JudgeClear, FirstStop, ValidPlan, ValidDisk;
  }

  lemma EvaluateAgrees(h: Hasher, request: Request, guard: Guard, acquire: LeaseAnswer, releaseRaises: bool)
    requires Evaluate(h, request, guard, acquire, releaseRaises).Ok?
    ensures Agrees(h, Evaluate(h, request, guard, acquire, releaseRaises).value)
  {
    hide *;
    EvaluateShape(h, request, guard, acquire, releaseRaises);
    EmptyIsSemantic();
    if acquire != Granted || releaseRaises {
      FailureVerifies(h, request, SchemaIncompatible, [], None, None, 0, None);
    } else {
      var stop := FirstStop(guard, |request.observations|, 0);
      FirstStopInRange(guard, |request.observations|, 0);
      if stop < |request.observations| {
        StopAgrees(h, request, stop + 1);
      } else {
        ClearAgrees(h, request);
      }
    }
  }

  /** Evaluator and verifier agree: a receipt of `evaluate` verifies exactly when it is a stop the
      guard raised, or its code is not the privacy code, the disk had the required space, and it
      is a failure or all four encoder stages succeeded. */
  lemma EvaluatorAndVerifierAgree(h: Hasher, request: Request, guard: Guard, acquire: LeaseAnswer, releaseRaises: bool)
    requires Evaluate(h, request, guard, acquire, releaseRaises).Ok?
    ensures var r := Evaluate(h, request, guard, acquire, releaseRaises).value;
            Verify(h, r) <==>
              if r.failureCode == Some(PrivacyStop) then r.privacyStops == 1
              else r.freeBytes >= r.requiredBytes && (r.outcome == NoGo || StagesSucceeded(r.stages))
  {
    hide Evaluate, Verify;
    EvaluateAgrees(h, request, guard, acquire, releaseRaises);
  }

  lemma StopAgrees(h: Hasher, request: Request, checked: int)
    requires ValidPlan(request.plan) && checked >= 1
    ensures Agrees(h, StopReceipt(h, request, checked))
  {
    hide StopReceipt, Verify;
    StopVerifies(h, request, checked);
  }
}
