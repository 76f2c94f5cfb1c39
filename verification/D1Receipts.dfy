/** What a receipt says, of whatever origin: what the verifier's acceptance means field by field,
    what it promises of a pass, and what a digest and a receipt bind. */
module D1Receipts {
  import opened Wrappers
  import opened D1Types
  import opened D1Rank
  import opened D1Tally
  import opened D1Evaluator
  import opened D1Stream
  import opened D1Verifier
  import opened D1Agreement
  import opened D1Theorems
  import opened D1Failures
  import opened D1Contract

  /** No two documents have one digest. */
  ghost predicate Injective(h: Hasher) {
    forall a, b :: h(a) == h(b) ==> a == b
  }

  // ---- Tampering ----

  /** A receipt is accepted under one digest only. */
  lemma OtherDigestIsRefused(h: Hasher, r: Receipt, d: string)
    requires Verify(h, r) && d != r.resultDigest
    ensures !Verify(h, r.(resultDigest := d))
  {
    hide RequiredBytes, AccountingSemantic, CountsSemantic, ProfileSemantic, StopSemantic, PassSemantic, IsDigest, Named;
    assert r.(resultDigest := d).(resultDigest := "") == r.(resultDigest := "");
  }

  lemma VerifiedDigest(h: Hasher, r: Receipt)
    requires Verify(h, r)
    ensures r.resultDigest == h(ReceiptDoc(r.(resultDigest := "")))
  {
    hide RequiredBytes, AccountingSemantic, CountsSemantic, ProfileSemantic, StopSemantic, PassSemantic, IsDigest, Named;
  }

  /** Two accepted receipts with one digest are one receipt: no field of an accepted receipt can be
      changed under its digest. */
  lemma DigestDeterminesReceipt(h: Hasher, a: Receipt, b: Receipt)
    requires Injective(h) && Verify(h, a) && Verify(h, b) && a.resultDigest == b.resultDigest
    ensures a == b
  {
    hide Verify, Injective;
    VerifiedDigest(h, a);
    VerifiedDigest(h, b);
    OneDocument(h, ReceiptDoc(a.(resultDigest := "")), ReceiptDoc(b.(resultDigest := "")));
    SameButDigest(a, b);
  }

  lemma OneDocument(h: Hasher, x: Doc, y: Doc)
    requires Injective(h) && h(x) == h(y)
    ensures x == y
  {
  }

  lemma SameButDigest(a: Receipt, b: Receipt)
    requires a.(resultDigest := "") == b.(resultDigest := "") && a.resultDigest == b.resultDigest
    ensures a == b
  {
    assert a.(resultDigest := "").(resultDigest := a.resultDigest) == a;
    assert b.(resultDigest := "").(resultDigest := b.resultDigest) == b;
  }

  // ---- What acceptance means ----

  ghost predicate Profile(r: Receipt) {
    && (r.width, r.height, r.framesPerSecond, r.warmupSeconds) == (1280, 720, 15, 5)
    && r.requestedSeconds == (if r.runKind.Preflight60s? then 60 else 1200)
  }

  /** Every frame is accounted for once, and every drop has a reason. */
  ghost predicate Balanced(a: Accounting) {
    && a.processed >= 0 && a.dropped >= 0 && a.failed >= 0
    && a.delivered == a.processed + a.dropped + a.failed
    && a.gaps == (if a.delivered == 0 then 0 else a.delivered - 1)
    && 0 <= a.qualityInsufficient <= a.processed
    && (forall i :: 0 <= i < |a.dropReasons| ==> a.dropReasons[i].1 > 0)
    && (forall i, j :: 0 <= i < j < |a.dropReasons| ==> a.dropReasons[i].1 <= a.dropReasons[j].1)
    && SumReasons(a.dropReasons) == a.dropped
  }

  /** The larger of two gibibytes and the whole bytes of the run at twice its rate. */
  ghost predicate RequiresSpace(r: Receipt) {
    var bytes := 2.0 * r.encodedByteRate * r.requestedSeconds as real;
    && r.requiredBytes >= 2_147_483_648
    && bytes < r.requiredBytes as real + 1.0
    && (r.requiredBytes > 2_147_483_648 ==> r.requiredBytes as real <= bytes)
  }

  ghost predicate Within(value: Option<real>, limit: real) {
    value.Some? && 0.0 <= value.value <= limit
  }

  /** What a receipt of a pass has to say. */
  ghost predicate SaysPass(r: Receipt) {
    var m, a := r.metrics, r.accounting;
    && r.failureCode.None? && r.failureCounts == [] && r.privacyStops == 0
    && r.privacyChecked == r.warmupAccounting.delivered + a.delivered
    && a.qualityInsufficient == 0 && a.delivered > 0 && 100 * a.processed >= 99 * a.delivered
    && r.stages == Stages(Succeeded, Succeeded, Succeeded, Succeeded)
    && 0 <= m.firstCapture <= m.runEnd
    && m.totalSeconds >= r.requestedSeconds as real && m.postSeconds >= r.requestedSeconds as real
    && Near(m.totalSeconds, (m.runEnd - m.firstCapture) as real / 1000000000.0, 0.001)
    && Near(m.totalSeconds - m.postSeconds, 5.0, 0.001)
    && m.postSeconds > 0.0 && m.deliveredPerSecond >= 13.5 && Near(m.deliveredPerSecond, a.delivered as real / m.postSeconds, 0.000001)
    && Within(m.p95Gap, 200.0) && Within(m.p95Latency, 200.0) && Within(m.p99Latency, 500.0) && Within(m.backlog, 2000.0)
    && m.p10Throughput.Some? && m.p10Throughput.value >= 2.0 * r.encodedByteRate
    && r.encodedByteCount > 0 && r.encodedByteRate > 0.0
    && Near(r.encodedByteCount as real / r.encodedByteRate, m.totalSeconds, 0.001)
  }

  /** A privacy stop that counted once and says nothing else. */
  ghost predicate SaysStop(h: Hasher, r: Receipt) {
    && r.outcome == NoGo && r.failureCounts == [(PrivacyStop, 1)] && r.privacyStops == 1 && r.privacyChecked >= 1
    && r.warmupAccounting == Accounting(0, 0, 0, 0, 0, 0, []) && r.accounting == Accounting(0, 0, 0, 0, 0, 0, [])
    && (r.requiredBytes, r.freeBytes, r.encodedByteCount, r.encodedByteRate, r.sampleCount) == (0, 0, 0, 0.0, 0)
    && r.stages == Stages(NotAttempted, NotAttempted, NotAttempted, NotAttempted)
    && r.throughputDigest == h(ThroughputDoc([]))
    && r.inputDigest == r.provenanceDigest == r.reproductionDigest == r.evaluationDigest == h(PrivacyStopDoc(r.privacyChecked))
  }

  /** A failure whose code is counted, or a pass, with the disk evidence either of them needs. */
  ghost predicate SaysOutcome(r: Receipt) {
    && RequiresSpace(r) && r.freeBytes >= r.requiredBytes
    && r.sampleCount == 60 && IsDigest(r.throughputDigest)
    && 0 <= r.privacyStops <= r.privacyChecked
    && if r.outcome == BackendContractPass then SaysPass(r)
       else r.failureCode.Some? && exists i :: 0 <= i < |r.failureCounts| && r.failureCounts[i].0 == r.failureCode.value
  }

  lemma BalancedIsSemantic(a: Accounting)
    ensures AccountingSemantic(a) <==> Balanced(a)
  {
  }

  lemma ProfileIsSemantic(r: Receipt)
    ensures ProfileSemantic(r) <==> Profile(r)
  {
  }

  lemma CountsAreStrict(counts: Counts)
    ensures CountsSemantic(counts) <==> Strict(counts)
  {
    if Strict(counts) { StrictIsSemantic(counts); }
    hide Place;
  }

  lemma RequiredIsSpace(r: Receipt)
    ensures r.requiredBytes == RequiredBytes(r.encodedByteRate, r.requestedSeconds) <==> RequiresSpace(r)
  {
    var bytes := 2.0 * r.encodedByteRate * r.requestedSeconds as real;
    if bytes >= 0.0 {
      assert bytes.Floor as real <= bytes < bytes.Floor as real + 1.0;
    } else {
      assert (-bytes).Floor >= 0;
    }
  }

  lemma SharesOf(a: Accounting)
    requires Balanced(a)
    ensures a.delivered != 0 ==>
      (a.processed as real / a.delivered as real >= 0.99 && (a.dropped + a.failed) as real / a.delivered as real <= 0.01
       <==> 100 * a.processed >= 99 * a.delivered)
  {
    if a.delivered != 0 {
      DivideAtLeast(a.processed as real, a.delivered as real, 0.99);
      DivideAtMost((a.dropped + a.failed) as real, a.delivered as real, 0.01);
    }
  }

  lemma PassSays(r: Receipt)
    requires Balanced(r.accounting) && Profile(r)
    ensures PassSemantic(r) <==> SaysPass(r)
  {
    var m, a := r.metrics, r.accounting;
    SharesOf(a);
    CloseIsNear(m.totalSeconds, Seconds(m.runEnd - m.firstCapture), 0.001);
    CloseIsNear(m.totalSeconds - m.postSeconds, 5.0, 0.001);
    if m.postSeconds != 0.0 { CloseIsNear(m.deliveredPerSecond, a.delivered as real / m.postSeconds, 0.000001); }
    if r.encodedByteRate > 0.0 { CloseIsNear(r.encodedByteCount as real / r.encodedByteRate, m.totalSeconds, 0.001); }
    hide IsClose, Near;
  }

  lemma StopSays(h: Hasher, r: Receipt)
    ensures StopSemantic(h, r) <==> SaysStop(h, r)
  {
  }

  lemma VerifyParts(h: Hasher, r: Receipt)
    ensures Verify(h, r) <==>
      && r.schemaVersion == 1 && !r.sealAttempted && !r.exportAttempted && ProfileSemantic(r)
      && AccountingSemantic(r.warmupAccounting) && AccountingSemantic(r.accounting) && CountsSemantic(r.failureCounts)
      && r.resultDigest == RecomputeDigest(h, r)
      && if r.failureCode == Some(PrivacyStop) then StopSemantic(h, r) else AcceptsOutcome(r)
  {
    hide AccountingSemantic, ProfileSemantic, CountsSemantic, RecomputeDigest, StopSemantic, PassSemantic, Named, RequiredBytes, IsDigest;
  }

  ghost predicate AcceptsOutcome(r: Receipt) {
    && r.requiredBytes == RequiredBytes(r.encodedByteRate, r.requestedSeconds) && r.freeBytes >= r.requiredBytes
    && r.sampleCount == 60 && IsDigest(r.throughputDigest) && 0 <= r.privacyStops <= r.privacyChecked
    && if r.outcome == BackendContractPass then PassSemantic(r)
       else r.failureCode.Some? && Named(r.failureCounts, r.failureCode.value)
  }

  lemma OutcomeSays(r: Receipt)
    requires Balanced(r.accounting) && Profile(r)
    ensures AcceptsOutcome(r) <==> SaysOutcome(r)
  {
    RequiredIsSpace(r);
    PassSays(r);
    hide Balanced, Profile, RequiredBytes, RequiresSpace, PassSemantic, SaysPass, IsDigest;
  }

  /** Acceptance of any receipt, wherever it comes from, is exactly this. */
  lemma VerifyIsExact(h: Hasher, r: Receipt)
    ensures Verify(h, r) <==>
      && r.schemaVersion == 1 && !r.sealAttempted && !r.exportAttempted && Profile(r)
      && Balanced(r.warmupAccounting) && Balanced(r.accounting) && Strict(r.failureCounts)
      && r.resultDigest == h(ReceiptDoc(r.(resultDigest := "")))
      && if r.failureCode == Some(PrivacyStop) then SaysStop(h, r) else SaysOutcome(r)
  {
    hide *;
    VerifyParts(h, r);
    RecomputeIsHash(h, r);
    BalancedIsSemantic(r.warmupAccounting);
    BalancedIsSemantic(r.accounting);
    ProfileIsSemantic(r);
    CountsAreStrict(r.failureCounts);
    StopSays(h, r);
    if Balanced(r.accounting) && Profile(r) { OutcomeSays(r); }
  }

  lemma RecomputeIsHash(h: Hasher, r: Receipt)
    ensures RecomputeDigest(h, r) == h(ReceiptDoc(r.(resultDigest := "")))
  {
  }

  lemma AtLeastRate(delivered: int, postSeconds: real, perSecond: real, requested: int)
    requires requested >= 60 && postSeconds >= requested as real && perSecond >= 13.5 && delivered >= 0
    requires Near(perSecond, delivered as real / postSeconds, 0.000001)
    ensures delivered as real >= 13.499999 * requested as real
  {
    var rate := delivered as real / postSeconds;
    assert rate >= 13.499999;
    assert rate * postSeconds == delivered as real;
    assert rate * postSeconds >= 13.499999 * postSeconds;
  }

  /** An accepted pass of any origin vouches for as many frames as the run kind demands, 99 of 100 of
      them processed, disk space and stages, and the four limits. */
  lemma VerifiedPassCounts(h: Hasher, r: Receipt)
    requires Verify(h, r) && r.outcome == BackendContractPass
    ensures r.accounting.delivered >= (if r.runKind.Preflight60s? then 810 else 16200)
    ensures 100 * r.accounting.processed >= 99 * r.accounting.delivered && r.accounting.qualityInsufficient == 0
    ensures r.freeBytes >= r.requiredBytes >= 2_147_483_648
    ensures r.freeBytes as real > 2.0 * r.encodedByteRate * r.requestedSeconds as real - 1.0
    ensures Within(r.metrics.p95Gap, 200.0) && Within(r.metrics.p95Latency, 200.0) && Within(r.metrics.p99Latency, 500.0)
    ensures Within(r.metrics.backlog, 2000.0) && r.metrics.p10Throughput.Some? && r.metrics.p10Throughput.value >= 2.0 * r.encodedByteRate > 0.0
    ensures r.stages == Stages(Succeeded, Succeeded, Succeeded, Succeeded)
    ensures r.failureCode.None? && r.failureCounts == [] && r.privacyStops == 0
  {
    VerifyIsExact(h, r);
    hide Verify, Strict, IsDigest, Near;
    AtLeastRate(r.accounting.delivered, r.metrics.postSeconds, r.metrics.deliveredPerSecond, r.requestedSeconds);
  }

  // ---- What a receipt of the evaluator records ----

  /** The counts: every occurring code with its number, and the code of the failure itself. */
  ghost predicate CountsTell(request: Request, code: Option<FailureCode>, counts: Counts) {
    && Strict(counts)
    && forall c, n :: (c, n) in counts <==>
         n > 0 && n == (if Occurrences(request, c) > 0 then Occurrences(request, c) else if code == Some(c) then 1 else 0)
  }

  /** Everything about the request that does not depend on how far its evaluation came. */
  ghost predicate Records(h: Hasher, request: Request, r: Receipt) {
    var plan, disk := request.plan, request.disk;
    && r.schemaVersion == 1 && !r.sealAttempted && !r.exportAttempted
    && (r.runKind, r.width, r.height, r.framesPerSecond) == (plan.runKind, plan.width, plan.height, plan.framesPerSecond)
    && (r.requestedSeconds, r.warmupSeconds) == (plan.requestedSeconds, plan.warmupSeconds)
    && (r.freeBytes, r.encodedByteCount, r.encodedByteRate) == (disk.freeBytes, disk.encodedByteCount, disk.encodedByteRate)
    && r.stages == disk.stages && r.sampleCount == |disk.samples| && r.throughputDigest == h(ThroughputDoc(disk.samples))
    && r.authorityDigest == h(AuthorityDoc(request.authority))
    && r.inputDigest == h(InputDoc(plan, request.observations, disk))
    && r.provenanceDigest == h(ProvenanceDoc(request.provenance))
    && r.environmentDigest == h(EnvironmentDoc(request.environment))
    && r.reproductionDigest == h(ReproductionDoc(request.reproduction))
    && r.evaluationDigest == h(EvaluationDoc(r.inputDigest, request.inputKind, request.injected))
    && r.resultDigest == h(ReceiptDoc(r.(resultDigest := "")))
  }

  /** How far the evaluation came: the accountings and the metrics. */
  ghost predicate Accounts(r: Receipt, warmup: Accounting, accounting: Accounting, metrics: Metrics) {
    r.warmupAccounting == warmup && r.accounting == accounting && r.metrics == metrics
  }

  ghost predicate Told(h: Hasher, request: Request, r: Receipt, warmup: Accounting, accounting: Accounting, metrics: Metrics) {
    r.failureCode != Some(PrivacyStop) ==>
      Records(h, request, r) && CountsTell(request, r.failureCode, r.failureCounts) && Accounts(r, warmup, accounting, metrics)
  }

  lemma {:induction false} AddCountExact(counts: Counts, code: FailureCode, item: (FailureCode, int))
    ensures item in AddCount(counts, code) <==> item in counts || item == (code, 1)
    decreases counts
  {
    if counts != [] && Place(code) >= Place(counts[0].0) {
      AddCountExact(counts[1..], code, item);
      assert counts == [counts[0]] + counts[1..];
    }
  }

  lemma OccurringCounts(request: Request, code: FailureCode, n: int)
    ensures (code, n) in FailureCounts(request, false) <==> n > 0 && n == Occurrences(request, code)
  {
    var counts := FailureCounts(request, false);
    CountsAreOccurrences(request);
    hide FailureCounts, Occurrences, Strict;
    if n > 0 && n == Occurrences(request, code) {
      assert Named(counts, code);
      var i :| 0 <= i < |counts| && counts[i].0 == code;
      assert counts[i] == (code, n);
    }
    if (code, n) in counts {
      var i :| 0 <= i < |counts| && counts[i] == (code, n);
    }
  }

  lemma FullCountsTell(request: Request, code: FailureCode)
    ensures CountsTell(request, Some(code), CountsWith(FailureCounts(request, false), code))
  {
    hide FailureCounts, Occurrences, Strict, AddCount, Named;
    var counts := FailureCounts(request, false);
    CountsAreOccurrences(request);
    if !Named(counts, code) { AddCountStrict(counts, code); }
    forall c, n ensures (c, n) in CountsWith(counts, code) <==>
      n > 0 && n == (if Occurrences(request, c) > 0 then Occurrences(request, c) else if code == c then 1 else 0)
    {
      OccurringCounts(request, c, n);
      AddCountExact(counts, code, (c, n));
    }
  }

  lemma NothingToTell(request: Request)
    requires NothingFailed(request)
    ensures CountsTell(request, None, [])
  {
    NoCountsIsNothingFailed(request);
    CountsAreOccurrences(request);
    hide FailureCounts, Occurrences, NothingFailed;
    forall c ensures Occurrences(request, c) == 0 { assert !Named([], c); }
  }

  lemma ReceiptRecords(h: Hasher, request: Request, outcome: ValidationOutcome, code: Option<FailureCode>, counts: Counts,
                       checked: int, warmup: Accounting, accounting: Accounting, metrics: Metrics)
    ensures var r := ReceiptOf(h, request, outcome, code, counts, checked, 0, warmup, accounting, metrics, false);
            Records(h, request, r) && r.failureCode == code && r.failureCounts == counts && Accounts(r, warmup, accounting, metrics)
  {
    DigestIsRecomputed(h, request, outcome, code, counts, checked, 0, warmup, accounting, metrics, false);
    hide RequiredBytes;
  }

  lemma FailureTold(h: Hasher, request: Request, code: FailureCode, warmup: seq<Observation>,
                    accounting: Option<Accounting>, metrics: Option<Metrics>, checked: int, counts: Option<Counts>)
    requires counts.Some? ==> counts.value == FailureCounts(request, false)
    ensures Told(h, request, FailureReceipt(h, request, code, warmup, accounting, metrics, checked, 0, counts), AccountingOf(warmup),
                 if accounting.Some? then accounting.value else EMPTY_ACCOUNTING,
                 if metrics.Some? then metrics.value else EmptyMetrics(request))
  {
    FailureShape(h, request, code, warmup, accounting, metrics, checked, counts);
    FullCountsTell(request, code);
    FailureFields(h, request);
    hide FailureReceipt, FailureCounts, CountsWith, CountsTell, Records, AccountingOf, EmptyMetrics, ReceiptOf;
    ReceiptRecords(h, request, NoGo, Some(code), CountsWith(FailureCounts(request, false), code), checked, AccountingOf(warmup),
                   if accounting.Some? then accounting.value else EMPTY_ACCOUNTING,
                   if metrics.Some? then metrics.value else EmptyMetrics(request));
  }

  /** The metrics are reached by a request that names no failure, has frames after the warm-up, no
      failed stage and a run that goes on after the warm-up. */
  ghost predicate IsMeasured(request: Request) {
    && NothingFailed(request) && request.observations != [] && AfterWarmup(request) != []
    && NoStageFailed(request.disk.stages) && !RunTooShort(request)
  }

  lemma MeasuredTold(h: Hasher, request: Request, warmup: seq<Observation>, post: seq<Observation>, checked: int)
    requires Split(request, warmup, post) && NothingFailed(request) && post != [] && MetricsOf(request, post).Some?
    ensures var m := MetricsOf(request, post).value;
            Told(h, request, JudgeMetrics(h, request, warmup, AccountingOf(post), m, checked), AccountingOf(warmup), AccountingOf(post), m)
  {
    var m, a, disk := MetricsOf(request, post).value, AccountingOf(post), request.disk;
    NothingToTell(request);
    hide Split, NothingFailed, MetricsOf, FailureReceipt, ReceiptOf, ThresholdFailure, IsClose, Told, CountDisposition, CountQuality, CountDropReasons;
    if disk.encodedByteCount <= 0 || disk.encodedByteRate <= 0.0 {
      FailureTold(h, request, EncoderWriteFailed, warmup, Some(a), Some(m), checked, None);
    } else if !IsClose(disk.encodedByteCount as real / disk.encodedByteRate, m.totalSeconds, 0.001) {
      FailureTold(h, request, SchemaIncompatible, warmup, Some(a), Some(m), checked, None);
    } else if ThresholdFailure(request, a, m).Some? {
      FailureTold(h, request, ThresholdFailure(request, a, m).value, warmup, Some(a), Some(m), checked, None);
    } else {
      ReceiptRecords(h, request, BackendContractPass, None, [], checked, AccountingOf(warmup), a, m);
      PassTold(h, request, ReceiptOf(h, request, BackendContractPass, None, [], checked, 0, AccountingOf(warmup), a, m, false), AccountingOf(warmup), a, m);
    }
  }

  lemma PassTold(h: Hasher, request: Request, r: Receipt, warmup: Accounting, accounting: Accounting, metrics: Metrics)
    requires Records(h, request, r) && CountsTell(request, r.failureCode, r.failureCounts) && Accounts(r, warmup, accounting, metrics)
    ensures Told(h, request, r, warmup, accounting, metrics)
  {
    hide Records, CountsTell, Accounts;
  }

  lemma StreamTold(h: Hasher, request: Request, warmup: seq<Observation>, post: seq<Observation>, checked: int)
    requires Split(request, warmup, post) && ValidPlan(request.plan)
    requires if request.observations == [] then post == [] else post == AfterWarmup(request)
    ensures IsMeasured(request) ==> MetricsOf(request, post).Some?
    ensures Told(h, request, JudgeStream(h, request, warmup, post, checked), AccountingOf(warmup), AccountingOf(post),
                 if IsMeasured(request) then MetricsOf(request, post).value else EmptyMetrics(request))
  {
    var a, counts := AccountingOf(post), FailureCounts(request, false);
    NoCountsIsNothingFailed(request);
    PostAddsUp(request, warmup, post);
    if NothingFailed(request) { NoQualityAfterSplit(request, warmup, post); }
    if post != [] {
      MetricsExist(request, warmup, post);
      TooShort(request);
    }
    NoStageFailure(request.disk.stages);
    hide Split, NothingFailed, MetricsOf, FailureReceipt, JudgeMetrics, FailureCounts, StageFailure, Told, RunTooShort, AfterWarmup, EmptyMetrics;
    hide CountDisposition, CountQuality, CountDropReasons;
    if counts != [] {
      FailureTold(h, request, counts[0].0, warmup, Some(a), None, checked, Some(counts));
    } else if a.delivered == 0 {
      FailureTold(h, request, InputUnavailable, warmup, Some(a), None, checked, None);
    } else if StageFailure(request.disk.stages).Some? {
      FailureTold(h, request, StageFailure(request.disk.stages).value, warmup, Some(a), None, checked, None);
    } else if MetricsOf(request, post).None? {
      FailureTold(h, request, SchemaIncompatible, warmup, Some(a), None, checked, None);
    } else {
      MeasuredTold(h, request, warmup, post, checked);
    }
  }

  ghost function BeforeWarmupEnds(request: Request): seq<Observation>
    requires request.observations != []
  {
    request.observations[..|request.observations| - |AfterWarmup(request)|]
  }

  lemma WarmupPart(request: Request)
    requires SoundStream(request.inputKind, request.plan.runEnd, request.observations) && request.observations != []
    ensures SplitWarmup(request) == (BeforeWarmupEnds(request), AfterWarmup(request))
  {
    WarmupIsCut(request);
    SplitIsACut(request.observations, Boundary(request));
    hide AfterWarmup, FramesOk, Paced, Ordered;
    var early, late := SplitWarmup(request).0, SplitWarmup(request).1;
    assert (early + late)[..|early|] == early;
  }

  /** A receipt without PRIVACY_STOP records the request it answers, counts the failures it names,
      and accounts for the frames before and after the end of the warm-up if the stream was judged. */
  lemma ReceiptTellsRequest(h: Hasher, request: Request, guard: Guard, acquire: LeaseAnswer, releaseRaises: bool)
    requires Evaluate(h, request, guard, acquire, releaseRaises).Ok?
    requires Evaluate(h, request, guard, acquire, releaseRaises).value.failureCode != Some(PrivacyStop)
    ensures var r := Evaluate(h, request, guard, acquire, releaseRaises).value;
            && Records(h, request, r) && CountsTell(request, r.failureCode, r.failureCounts)
            && if acquire != Granted || releaseRaises || request.observations == []
                  || !SoundStream(request.inputKind, request.plan.runEnd, request.observations)
               then Accounts(r, EMPTY_ACCOUNTING, EMPTY_ACCOUNTING, Metrics(0, request.plan.runEnd, 0.0, 0.0, 0.0, None, None, None, None, None))
               else if !IsMeasured(request)
               then Accounts(r, AccountingOf(BeforeWarmupEnds(request)), AccountingOf(AfterWarmup(request)),
                             Metrics(0, request.plan.runEnd, 0.0, 0.0, 0.0, None, None, None, None, None))
               else MetricsOf(request, AfterWarmup(request)).Some?
                    && Accounts(r, AccountingOf(BeforeWarmupEnds(request)), AccountingOf(AfterWarmup(request)), MetricsOf(request, AfterWarmup(request)).value)
  {
    var kind, runEnd, items := request.inputKind, request.plan.runEnd, request.observations;
    hide *;
    EvaluateShape(h, request, guard, acquire, releaseRaises);
    EmptyIsSemantic();
    StopIsFailure(h, request);
    NoMetrics(request);
    if acquire != Granted || releaseRaises {
      FailureTold(h, request, SchemaIncompatible, [], None, None, 0, None);
    } else if FirstStop(guard, |items|, 0) >= |items| {
      ClearTold(h, request);
    }
    ToldMeans(h, request, Evaluate(h, request, guard, acquire, releaseRaises).value);
  }

  lemma NoMetrics(request: Request)
    ensures EmptyMetrics(request) == Metrics(0, request.plan.runEnd, 0.0, 0.0, 0.0, None, None, None, None, None)
  {
  }

  lemma ToldMeans(h: Hasher, request: Request, r: Receipt)
    requires r.failureCode != Some(PrivacyStop)
    ensures forall warmup, accounting, metrics :: Told(h, request, r, warmup, accounting, metrics) ==>
      Records(h, request, r) && CountsTell(request, r.failureCode, r.failureCounts) && Accounts(r, warmup, accounting, metrics)
  {
    hide Records, CountsTell, Accounts;
  }

  lemma ClearTold(h: Hasher, request: Request)
    requires ValidPlan(request.plan)
    ensures if request.observations == [] || !SoundStream(request.inputKind, request.plan.runEnd, request.observations)
            then Told(h, request, JudgeClear(h, request), EMPTY_ACCOUNTING, EMPTY_ACCOUNTING, EmptyMetrics(request))
            else
              (IsMeasured(request) ==> MetricsOf(request, AfterWarmup(request)).Some?)
              && Told(h, request, JudgeClear(h, request), AccountingOf(BeforeWarmupEnds(request)), AccountingOf(AfterWarmup(request)),
                      if IsMeasured(request) then MetricsOf(request, AfterWarmup(request)).value else EmptyMetrics(request))
  {
    var kind, runEnd, items := request.inputKind, request.plan.runEnd, request.observations;
    hide *;
    ClearShape(h, request);
    CheckIsSound(kind, runEnd, START, items);
    AtStart(items);
    EmptyIsSemantic();
    var error := CheckStream(kind, runEnd, START, items);
    if error.Some? {
      FailureTold(h, request, error.value, [], None, None, |items|, None);
    } else {
      ValidatedSplit(request);
      if items == [] {
        SplitOfNothing(request);
        NotMeasured(request);
      } else {
        WarmupPart(request);
      }
      StreamTold(h, request, SplitWarmup(request).0, SplitWarmup(request).1, |items|);
    }
  }

  lemma SplitOfNothing(request: Request)
    requires request.observations == []
    ensures SplitWarmup(request) == ([], [])
  {
  }

  lemma NotMeasured(request: Request)
    requires request.observations == []
    ensures !IsMeasured(request)
  {
    hide NothingFailed;
  }

  /** An accounting counts the frames by disposition, the quality flags and the reasons. */
  lemma AccountingCounts(kind: InputKind, runEnd: int, items: seq<Observation>)
    requires FramesOk(kind, runEnd, items)
    ensures var a := AccountingOf(items);
            && a.delivered == |items| && Balanced(a)
            && a.processed == Tally(|items|, HasDisposition(items, Processed))
            && a.dropped == Tally(|items|, HasDisposition(items, DroppedExplicit))
            && a.failed == Tally(|items|, HasDisposition(items, FailedFrame))
            && a.qualityInsufficient == Tally(|items|, IsFlagged(items))
            && a.dropReasons == if a.dropped == 0 then [] else [(Backpressure, a.dropped)]
  {
    DispositionCounts(items, Processed);
    DispositionCounts(items, DroppedExplicit);
    DispositionCounts(items, FailedFrame);
    QualityCounts(items);
    AccountingAddsUp(kind, runEnd, items);
    SoundAccounting(kind, runEnd, items);
    BalancedIsSemantic(AccountingOf(items));
    hide FramesOk, CountDisposition, CountQuality, CountDropReasons, AccountingSemantic, Balanced;
  }

  lemma {:induction false} QualityCounts(items: seq<Observation>)
    ensures CountQuality(items) == Tally(|items|, IsFlagged(items))
  {
    if items != [] {
      var n := |items| - 1;
      QualityCounts(items[..n]);
      TallySame(n, IsFlagged(items), IsFlagged(items[..n]));
    }
  }

  /** The result digest of an answer without PRIVACY_STOP determines the whole request: no frame, no
      disk evidence, no injected code and no document can be exchanged under it. */
  lemma AnswerDeterminesRequest(h: Hasher, a: Request, b: Request, guardA: Guard, guardB: Guard,
                                acquireA: LeaseAnswer, acquireB: LeaseAnswer, raisesA: bool, raisesB: bool)
    requires Injective(h)
    requires Evaluate(h, a, guardA, acquireA, raisesA).Ok? && Evaluate(h, b, guardB, acquireB, raisesB).Ok?
    requires Evaluate(h, a, guardA, acquireA, raisesA).value.failureCode != Some(PrivacyStop)
    requires Evaluate(h, b, guardB, acquireB, raisesB).value.failureCode != Some(PrivacyStop)
    requires Evaluate(h, a, guardA, acquireA, raisesA).value.resultDigest == Evaluate(h, b, guardB, acquireB, raisesB).value.resultDigest
    ensures a == b
    ensures Evaluate(h, a, guardA, acquireA, raisesA) == Evaluate(h, b, guardB, acquireB, raisesB)
  {
    hide *;
    ReceiptTellsRequest(h, a, guardA, acquireA, raisesA);
    ReceiptTellsRequest(h, b, guardB, acquireB, raisesB);
    var ra, rb := Evaluate(h, a, guardA, acquireA, raisesA).value, Evaluate(h, b, guardB, acquireB, raisesB).value;
    RecordsBind(h, a, b, ra, rb);
    OnlyVersionOne(h, a, guardA, acquireA, raisesA);
    OnlyVersionOne(h, b, guardB, acquireB, raisesB);
    SameRequest(a, b);
  }

  lemma SameRequest(a: Request, b: Request)
    requires a.schemaVersion == b.schemaVersion && a.inputKind == b.inputKind && a.plan == b.plan && a.observations == b.observations
    requires a.disk == b.disk && a.injected == b.injected && a.authority == b.authority && a.provenance == b.provenance
    requires a.environment == b.environment && a.reproduction == b.reproduction
    ensures a == b
  {
  }

  lemma OnlyVersionOne(h: Hasher, request: Request, guard: Guard, acquire: LeaseAnswer, releaseRaises: bool)
    requires Evaluate(h, request, guard, acquire, releaseRaises).Ok?
    ensures request.schemaVersion == 1
  {
    hide ValidPlan, ValidDisk, InputDigest, EvaluationDigest, FailureReceipt, UnderLease;
  }

  lemma RecordsBind(h: Hasher, a: Request, b: Request, ra: Receipt, rb: Receipt)
    requires Injective(h) && Records(h, a, ra) && Records(h, b, rb) && ra.resultDigest == rb.resultDigest
    ensures ra == rb && a.inputKind == b.inputKind && a.plan == b.plan && a.observations == b.observations
    ensures a.disk == b.disk && a.injected == b.injected && a.authority == b.authority && a.provenance == b.provenance
    ensures a.environment == b.environment && a.reproduction == b.reproduction
  {
    assert ReceiptDoc(ra.(resultDigest := "")) == ReceiptDoc(rb.(resultDigest := ""));
    assert ra.(resultDigest := "").(resultDigest := ra.resultDigest) == ra;
    assert rb.(resultDigest := "").(resultDigest := rb.resultDigest) == rb;
    assert ra == rb;
    assert AuthorityDoc(a.authority) == AuthorityDoc(b.authority);
    assert InputDoc(a.plan, a.observations, a.disk) == InputDoc(b.plan, b.observations, b.disk);
    assert ProvenanceDoc(a.provenance) == ProvenanceDoc(b.provenance);
    assert EnvironmentDoc(a.environment) == EnvironmentDoc(b.environment);
    assert ReproductionDoc(a.reproduction) == ReproductionDoc(b.reproduction);
    assert EvaluationDoc(ra.inputDigest, a.inputKind, a.injected) == EvaluationDoc(rb.inputDigest, b.inputKind, b.injected);
  }

  /** What a privacy stop does say: the plan, the authority, the environment and the place. */
  lemma StopTells(h: Hasher, request: Request, guard: Guard)
    requires ValidRequest(h, request) && !AllClear(guard, |request.observations|)
    ensures Evaluate(h, request, guard, Granted, false).Ok?
    ensures var r := Evaluate(h, request, guard, Granted, false).value;
            && SaysStop(h, r) && r.failureCode == Some(PrivacyStop)
            && 1 <= r.privacyChecked <= |request.observations| && guard(r.privacyChecked - 1) != Clear
            && (forall i: nat :: i < r.privacyChecked - 1 ==> guard(i) == Clear)
            && r.runKind == request.plan.runKind && r.metrics == Metrics(0, request.plan.runEnd, 0.0, 0.0, 0.0, None, None, None, None, None)
            && r.authorityDigest == h(AuthorityDoc(request.authority)) && r.environmentDigest == h(EnvironmentDoc(request.environment))
  {
    hide *;
    var stop := FirstStop(guard, |request.observations|, 0);
    FirstStopInRange(guard, |request.observations|, 0);
    FirstStopIsClear(guard, |request.observations|);
    StopRuns(h, request, guard);
    StopFields(h, request, stop + 1);
    NoMetrics(request);
    StopVerifies(h, request, stop + 1);
    VerifyIsExact(h, StopReceipt(h, request, stop + 1));
  }

  lemma StopRuns(h: Hasher, request: Request, guard: Guard)
    requires ValidRequest(h, request) && FirstStop(guard, |request.observations|, 0) < |request.observations|
    ensures Evaluate(h, request, guard, Granted, false) == Ok(StopReceipt(h, request, FirstStop(guard, |request.observations|, 0) + 1))
    ensures ValidPlan(request.plan)
  {
    hide StopReceipt, JudgeClear, FirstStop, ValidPlan, ValidDisk;
  }

  lemma StopFields(h: Hasher, request: Request, checked: int)
    ensures var r := StopReceipt(h, request, checked);
            && r.failureCode == Some(PrivacyStop) && r.privacyChecked == checked
            && r.runKind == request.plan.runKind && r.metrics == EmptyMetrics(request)
            && r.authorityDigest == h(AuthorityDoc(request.authority)) && r.environmentDigest == h(EnvironmentDoc(request.environment))
  {
    StopShape(h, request, checked);
    hide StopReceipt, RequiredBytes, InputDigest, EvaluationDigest, RecomputeDigest;
  }

  // ---- What a request has to bring ----

  /** A request is evaluated only if its documents are accepted, its plan is one of the two runs, its
      sixty samples are numbered, and its provenance and reproduction name the digests of its own
      content. */
  lemma RefusedRequest(h: Hasher, request: Request, guard: Guard, acquire: LeaseAnswer, releaseRaises: bool)
    ensures Evaluate(h, request, guard, acquire, releaseRaises).Ok? <==>
      && request.schemaVersion == 1
      && request.authority.accepted && request.environment.accepted && request.provenance.accepted && request.reproduction.accepted
      && request.plan == Plan(request.plan.runKind, 1280, 720, 15, if request.plan.runKind.Preflight60s? then 60 else 1200, 5, request.plan.runEnd)
      && request.plan.runEnd >= 0
      && request.disk.freeBytes >= 0 && request.disk.encodedByteCount >= 0 && request.disk.encodedByteRate >= 0.0
      && |request.disk.samples| == 60
      && (forall i :: 0 <= i < 60 ==> request.disk.samples[i].second == i && request.disk.samples[i].bytesPerSecond >= 0.0)
      && var input := h(InputDoc(request.plan, request.observations, request.disk));
      && request.provenance == Provenance(request.provenance.text, true, request.inputKind, input, |request.observations|)
      && request.reproduction == Reproduction(request.reproduction.text, true, input, input, h(EvaluationDoc(input, request.inputKind, request.injected)))
  {
    hide FailureReceipt, UnderLease;
  }

  /** The provenance and the reproduction of a request determine its frames, plan and disk evidence,
      its kind and its injected codes: none of them can be exchanged. */
  lemma DocumentsDetermineContent(h: Hasher, a: Request, b: Request)
    requires Injective(h) && ValidRequest(h, a) && ValidRequest(h, b)
    requires a.provenance == b.provenance && a.reproduction == b.reproduction
    ensures a.plan == b.plan && a.observations == b.observations && a.disk == b.disk
    ensures a.inputKind == b.inputKind && a.injected == b.injected
  {
    assert InputDoc(a.plan, a.observations, a.disk) == InputDoc(b.plan, b.observations, b.disk) by {
      hide ValidPlan, ValidDisk;
      assert h(InputDoc(a.plan, a.observations, a.disk)) == h(InputDoc(b.plan, b.observations, b.disk));
    }
    assert EvaluationDoc(a.provenance.inputDigest, a.inputKind, a.injected) == EvaluationDoc(b.provenance.inputDigest, b.inputKind, b.injected) by {
      hide ValidPlan, ValidDisk;
      assert h(EvaluationDoc(a.provenance.inputDigest, a.inputKind, a.injected)) == h(EvaluationDoc(b.provenance.inputDigest, b.inputKind, b.injected));
    }
  }
}
