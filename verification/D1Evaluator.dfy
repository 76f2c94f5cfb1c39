/** What the D1 evaluator computes, exit by exit, as functions of the request, the answers of
    the privacy guard and the behaviour of the owner lease. */
module D1Evaluator {
  import opened Wrappers
  import opened D1Types
  import opened D1Rank

  // ---- The frame stream ----

  /** `previous_capture` and `previous_processed`. */
  datatype Cursor = Cursor(capture: Option<int>, processed: Option<int>)

  const START := Cursor(None, None)

  function CheckFields(runEnd: int, item: Observation): Option<FailureCode> {
    match item.disposition
    case Processed =>
      if item.processed.None? || item.processed.value < item.captured || item.processed.value > runEnd
         || item.failureCode.Some? || item.dropReason.Some?
      then Some(SchemaIncompatible) else None
    case DroppedExplicit =>
      if item.processed.Some? || item.failureCode.Some? || item.dropReason.None? then Some(SchemaIncompatible) else None
    case FailedFrame =>
      if item.processed.Some? || item.failureCode.None? || item.dropReason.Some? then Some(SchemaIncompatible) else None
  }

  function CheckItem(kind: InputKind, runEnd: int, cursor: Cursor, item: Observation): Option<FailureCode> {
    if item.sourceKind != kind then Some(SchemaIncompatible)
    else if item.captured < 0 || item.captured > runEnd then Some(SchemaIncompatible)
    else if cursor.capture.Some? && item.captured == cursor.capture.value then Some(FrameStalled)
    else if cursor.capture.Some? && item.captured < cursor.capture.value then Some(ClockRegression)
    else if cursor.capture.Some? && item.captured - cursor.capture.value >= SECOND then Some(FrameStalled)
    else if CheckFields(runEnd, item).Some? then CheckFields(runEnd, item)
    else if item.disposition == Processed && cursor.processed.Some? && item.processed.value <= cursor.processed.value
    then Some(ClockRegression)
    else if item.qualityInsufficient && item.disposition != Processed then Some(SchemaIncompatible)
    else None
  }

  function Move(cursor: Cursor, item: Observation): Cursor {
    Cursor(Some(item.captured), if item.disposition == Processed then item.processed else cursor.processed)
  }

  function CheckStream(kind: InputKind, runEnd: int, cursor: Cursor, items: seq<Observation>): Option<FailureCode>
    decreases |items|
  {
    if items == [] then None
    else
      var failure := CheckItem(kind, runEnd, cursor, items[0]);
      if failure.Some? then failure else CheckStream(kind, runEnd, Move(cursor, items[0]), items[1..])
  }

  // ---- Warm-up and accounting ----

  function EarlierThan(items: seq<Observation>, boundary: int): seq<Observation> {
    if items == [] then []
    else (if items[0].captured < boundary then [items[0]] else []) + EarlierThan(items[1..], boundary)
  }

  function NotEarlierThan(items: seq<Observation>, boundary: int): seq<Observation> {
    if items == [] then []
    else (if items[0].captured >= boundary then [items[0]] else []) + NotEarlierThan(items[1..], boundary)
  }

  function Boundary(request: Request): int
    requires request.observations != []
  {
    request.observations[0].captured + request.plan.warmupSeconds * SECOND
  }

  function SplitWarmup(request: Request): (seq<Observation>, seq<Observation>) {
    if request.observations == [] then ([], [])
    else (EarlierThan(request.observations, Boundary(request)), NotEarlierThan(request.observations, Boundary(request)))
  }

  function CountDisposition(items: seq<Observation>, d: Disposition): nat {
    if items == [] then 0
    else CountDisposition(items[..|items| - 1], d) + if items[|items| - 1].disposition == d then 1 else 0
  }

  function CountQuality(items: seq<Observation>): nat {
    if items == [] then 0
    else CountQuality(items[..|items| - 1]) + if items[|items| - 1].qualityInsufficient then 1 else 0
  }

  function CountDropReasons(items: seq<Observation>): nat {
    if items == [] then 0
    else CountDropReasons(items[..|items| - 1]) + if items[|items| - 1].dropReason.Some? then 1 else 0
  }

  /** There is one drop reason, so the sorted items of the dictionary are at most one pair. */
  function DropReasonItems(count: nat): seq<(DropReason, int)> {
    if count == 0 then [] else [(Backpressure, count)]
  }

  function AccountingOf(items: seq<Observation>): Accounting {
    Accounting(|items|, Max(|items| - 1, 0), CountDisposition(items, Processed), CountDisposition(items, DroppedExplicit),
               CountDisposition(items, FailedFrame), CountQuality(items), DropReasonItems(CountDropReasons(items)))
  }

  // ---- Failure counts ----

  const CODES: seq<FailureCode> := [
    AtomicRenameFailed, ClockRegression, DiskFsyncFailed, DiskSpaceInsufficient, DiskThroughputInsufficient,
    DiskUnavailable, EncoderFinalizeFailed, EncoderUnavailable, EncoderWriteFailed, FrameStalled, InputMalformed,
    InputUnavailable, ManifestValidationFailed, PoseEngineException, PoseEngineUnavailable, PoseOutputInvalid,
    PrivacyStop, QualityInsufficient, SchemaIncompatible, UnknownTechnicalFailure]

  function Bump(counts: map<FailureCode, int>, code: FailureCode): map<FailureCode, int> {
    counts[code := (if code in counts then counts[code] else 0) + 1]
  }

  function BumpItem(counts: map<FailureCode, int>, item: Observation): map<FailureCode, int> {
    var named := if item.failureCode.Some? then Bump(counts, item.failureCode.value) else counts;
    if item.qualityInsufficient then Bump(named, QualityInsufficient) else named
  }

  function BumpItems(counts: map<FailureCode, int>, items: seq<Observation>): map<FailureCode, int> {
    if items == [] then counts else BumpItem(BumpItems(counts, items[..|items| - 1]), items[|items| - 1])
  }

  function BumpCodes(counts: map<FailureCode, int>, codes: seq<FailureCode>): map<FailureCode, int> {
    if codes == [] then counts else Bump(BumpCodes(counts, codes[..|codes| - 1]), codes[|codes| - 1])
  }

  /** tuple(sorted(counts.items())), from the `k`-th name on. */
  function SortedItems(counts: map<FailureCode, int>, k: nat): Counts
    requires k <= 20
    decreases 20 - k
  {
    if k == 20 then []
    else (if CODES[k] in counts then [(CODES[k], counts[CODES[k]])] else []) + SortedItems(counts, k + 1)
  }

  function FailureCounts(request: Request, privacyStop: bool): Counts {
    var tally := BumpCodes(BumpItems(map[], request.observations), request.injected);
    SortedItems(if privacyStop then Bump(tally, PrivacyStop) else tally, 0)
  }

  predicate Named(counts: Counts, code: FailureCode) {
    exists i :: 0 <= i < |counts| && counts[i].0 == code
  }

  /** tuple(sorted((*counts, (code, 1)))) for sorted `counts` without `code`. */
  function AddCount(counts: Counts, code: FailureCode): Counts {
    if counts == [] then [(code, 1)]
    else if Place(code) < Place(counts[0].0) then [(code, 1)] + counts
    else [counts[0]] + AddCount(counts[1..], code)
  }

  // ---- Metrics ----

  function Seconds(ns: int): real { ns as real / 1000000000.0 }

  function Millis(ns: int): real { ns as real / 1000000.0 }

  function GapsOf(post: seq<Observation>): seq<real> {
    if |post| < 2 then [] else [Millis(post[1].captured - post[0].captured)] + GapsOf(post[1..])
  }

  function ProcessedOf(items: seq<Observation>): seq<Observation> {
    if items == [] then []
    else (if items[0].disposition == Processed then [items[0]] else []) + ProcessedOf(items[1..])
  }

  function LatenciesOf(processed: seq<Observation>): seq<real> {
    if processed == [] then []
    else (if processed[0].processed.Some? then [Millis(processed[0].processed.value - processed[0].captured)] else [])
         + LatenciesOf(processed[1..])
  }

  /** The sort key `item.processed_monotonic_ns or -1`: zero counts as missing. */
  function CompletionKey(item: Observation): int {
    if item.processed.Some? && item.processed.value != 0 then item.processed.value else -1
  }

  /** max(processed, key=...): the first item with the greatest key. */
  function LatestCompleted(processed: seq<Observation>): Observation
    requires processed != []
  {
    if |processed| == 1 then processed[0]
    else
      var best := LatestCompleted(processed[..|processed| - 1]);
      var last := processed[|processed| - 1];
      if CompletionKey(last) > CompletionKey(best) then last else best
  }

  function RatesOf(samples: seq<Sample>): seq<real> {
    if samples == [] then [] else [samples[0].bytesPerSecond] + RatesOf(samples[1..])
  }

  function MetricsOf(request: Request, post: seq<Observation>): Option<Metrics> {
    if request.observations == [] || post == [] then None
    else
      var first := request.observations[0].captured;
      var end := request.plan.runEnd;
      var total := Seconds(end - first);
      var postSeconds := Seconds(end - Boundary(request));
      if total <= 0.0 || postSeconds <= 0.0 then None
      else
        var processed := ProcessedOf(post);
        var latencies := LatenciesOf(processed);
        var backlog := if processed == [] then None
                       else Some(Millis(post[|post| - 1].captured - LatestCompleted(processed).captured));
        if backlog.Some? && backlog.value < 0.0 then None
        else Some(Metrics(first, end, total, postSeconds, |post| as real / postSeconds,
                          NearestRank(GapsOf(post), 95), NearestRank(latencies, 95), NearestRank(latencies, 99),
                          NearestRank(RatesOf(request.disk.samples), 10), backlog))
  }

  // ---- Thresholds ----

  function ThresholdFailure(request: Request, accounting: Accounting, m: Metrics): Option<FailureCode>
    requires accounting.delivered > 0
  {
    var requested := request.plan.requestedSeconds as real;
    if m.totalSeconds < requested || m.postSeconds < requested then Some(QualityInsufficient)
    else if m.deliveredPerSecond < 13.5 || (m.p95Gap.Some? && m.p95Gap.value > 200.0) then Some(QualityInsufficient)
    else if m.p95Latency.None? || m.p99Latency.None? || m.p95Latency.value > 200.0 || m.p99Latency.value > 500.0
    then Some(QualityInsufficient)
    else if m.backlog.None? || m.backlog.value > 2000.0 then Some(QualityInsufficient)
    else if accounting.processed as real / accounting.delivered as real < 0.99
            || (accounting.dropped + accounting.failed) as real / accounting.delivered as real > 0.01
    then Some(QualityInsufficient)
    else if request.disk.freeBytes < RequiredBytes(request.disk.encodedByteRate, request.plan.requestedSeconds)
    then Some(DiskSpaceInsufficient)
    else if m.p10Throughput.None? || m.p10Throughput.value < 2.0 * request.disk.encodedByteRate
    then Some(DiskThroughputInsufficient)
    else None
  }

  function StageFailure(stages: Stages): Option<FailureCode> {
    if stages.open == StageFailed then Some(EncoderUnavailable)
    else if stages.write == StageFailed then Some(EncoderWriteFailed)
    else if stages.finalize == StageFailed then Some(EncoderFinalizeFailed)
    else if stages.durability == StageFailed then Some(DiskFsyncFailed)
    else None
  }

  // ---- Receipts ----

  function InputDigest(h: Hasher, request: Request): string {
    h(InputDoc(request.plan, request.observations, request.disk))
  }

  function EvaluationDigest(h: Hasher, request: Request): string {
    h(EvaluationDoc(InputDigest(h, request), request.inputKind, request.injected))
  }

  function RecomputeDigest(h: Hasher, receipt: Receipt): string {
    h(ReceiptDoc(receipt.(resultDigest := "")))
  }

  function EmptyMetrics(request: Request): Metrics {
    Metrics(0, request.plan.runEnd, 0.0, 0.0, 0.0, None, None, None, None, None)
  }

  function ReceiptOf(h: Hasher, request: Request, outcome: ValidationOutcome, code: Option<FailureCode>, counts: Counts,
                     checked: int, stops: int, warmup: Accounting, accounting: Accounting, metrics: Metrics,
                     scrubbed: bool): Receipt {
    var plan, disk := request.plan, request.disk;
    var stopDigest := h(PrivacyStopDoc(checked));
    var base := Receipt(
      1, outcome, code, counts,
      plan.runKind, plan.width, plan.height, plan.framesPerSecond, plan.requestedSeconds, plan.warmupSeconds,
      checked, stops, warmup, accounting, metrics,
      if scrubbed then 0 else RequiredBytes(disk.encodedByteRate, plan.requestedSeconds),
      if scrubbed then 0 else disk.freeBytes,
      if scrubbed then 0 else disk.encodedByteCount,
      if scrubbed then 0.0 else disk.encodedByteRate,
      if scrubbed then 0 else |disk.samples|,
      h(ThroughputDoc(if scrubbed then [] else disk.samples)),
      if scrubbed then NOT_ATTEMPTED else disk.stages,
      false, false,
      h(AuthorityDoc(request.authority)),
      if scrubbed then stopDigest else InputDigest(h, request),
      if scrubbed then stopDigest else h(ProvenanceDoc(request.provenance)),
      h(EnvironmentDoc(request.environment)),
      if scrubbed then stopDigest else h(ReproductionDoc(request.reproduction)),
      if scrubbed then stopDigest else EvaluationDigest(h, request),
      "");
    base.(resultDigest := RecomputeDigest(h, base))
  }

  function FailureReceipt(h: Hasher, request: Request, code: FailureCode, warmup: seq<Observation>,
                          accounting: Option<Accounting>, metrics: Option<Metrics>,
                          checked: int, stops: int, counts: Option<Counts>): Receipt {
    var tallied := if counts.Some? then counts.value else FailureCounts(request, stops > 0);
    var all := if Named(tallied, code) then tallied else AddCount(tallied, code);
    if code == PrivacyStop then
      ReceiptOf(h, request, NoGo, Some(code), all, checked, stops, EMPTY_ACCOUNTING, EMPTY_ACCOUNTING, EmptyMetrics(request), true)
    else
      ReceiptOf(h, request, NoGo, Some(code), all, checked, stops, AccountingOf(warmup),
                if accounting.Some? then accounting.value else EMPTY_ACCOUNTING,
                if metrics.Some? then metrics.value else EmptyMetrics(request), false)
  }

  // ---- The evaluation under the lease ----

  datatype GuardAnswer = Clear | Unsafe | Unknown | GuardRaised

  type Guard = nat -> GuardAnswer

  /** How many frames the guard inspects: up to and including the first that is not clear. */
  function FirstStop(guard: Guard, n: nat, i: nat): nat
    requires i <= n
    decreases n - i
  {
    if i == n then n else if guard(i) != Clear then i else FirstStop(guard, n, i + 1)
  }

  function StopReceipt(h: Hasher, request: Request, checked: int): Receipt {
    FailureReceipt(h, request, PrivacyStop, [], None, None, checked, 1, Some([(PrivacyStop, 1)]))
  }

  function JudgeClear(h: Hasher, request: Request): Receipt {
    var checked := |request.observations|;
    var error := CheckStream(request.inputKind, request.plan.runEnd, START, request.observations);
    if error.Some? then FailureReceipt(h, request, error.value, [], None, None, checked, 0, None)
    else
      var (warmup, post) := SplitWarmup(request);
      JudgeStream(h, request, warmup, post, checked)
  }

  function JudgeStream(h: Hasher, request: Request, warmup: seq<Observation>, post: seq<Observation>, checked: int): Receipt {
    var accounting := AccountingOf(post);
    var counts := FailureCounts(request, false);
    if counts != [] then
      FailureReceipt(h, request, counts[0].0, warmup, Some(accounting), None, checked, 0, Some(counts))
    else if accounting.delivered == 0 then
      FailureReceipt(h, request, InputUnavailable, warmup, Some(accounting), None, checked, 0, None)
    else if accounting.processed + accounting.dropped + accounting.failed != accounting.delivered then
      FailureReceipt(h, request, SchemaIncompatible, warmup, Some(accounting), None, checked, 0, None)
    else if accounting.qualityInsufficient != 0 then
      FailureReceipt(h, request, QualityInsufficient, warmup, Some(accounting), None, checked, 0, None)
    else if StageFailure(request.disk.stages).Some? then
      FailureReceipt(h, request, StageFailure(request.disk.stages).value, warmup, Some(accounting), None, checked, 0, None)
    else
      match MetricsOf(request, post)
      case None => FailureReceipt(h, request, SchemaIncompatible, warmup, Some(accounting), None, checked, 0, None)
      case Some(metrics) => JudgeMetrics(h, request, warmup, accounting, metrics, checked)
  }

  function JudgeMetrics(h: Hasher, request: Request, warmup: seq<Observation>, accounting: Accounting, metrics: Metrics, checked: int): Receipt
    requires accounting.delivered > 0
  {
    var disk := request.disk;
    if disk.encodedByteCount <= 0 || disk.encodedByteRate <= 0.0 then
      FailureReceipt(h, request, EncoderWriteFailed, warmup, Some(accounting), Some(metrics), checked, 0, None)
    else if !IsClose(disk.encodedByteCount as real / disk.encodedByteRate, metrics.totalSeconds, 0.001) then
      FailureReceipt(h, request, SchemaIncompatible, warmup, Some(accounting), Some(metrics), checked, 0, None)
    else
      match ThresholdFailure(request, accounting, metrics)
      case Some(code) => FailureReceipt(h, request, code, warmup, Some(accounting), Some(metrics), checked, 0, None)
      case None =>
        ReceiptOf(h, request, BackendContractPass, None, [], checked, 0, AccountingOf(warmup), accounting, metrics, false)
  }

  function UnderLease(h: Hasher, request: Request, guard: Guard): Receipt {
    var stop := FirstStop(guard, |request.observations|, 0);
    if stop < |request.observations| then StopReceipt(h, request, stop + 1)
    else JudgeClear(h, request)
  }

  // ---- The whole call ----

  predicate ValidPlan(plan: Plan) {
    && plan.requestedSeconds == RequestedSeconds(plan.runKind)
    && (plan.width, plan.height, plan.framesPerSecond, plan.warmupSeconds) == (1280, 720, 15, 5)
    && plan.runEnd >= 0
  }

  predicate ValidDisk(disk: Disk) {
    && disk.freeBytes >= 0 && disk.encodedByteCount >= 0 && disk.encodedByteRate >= 0.0
    && |disk.samples| == 60
    && forall i :: 0 <= i < 60 ==> disk.samples[i].second == i && disk.samples[i].bytesPerSecond >= 0.0
  }

  predicate ValidRequest(h: Hasher, request: Request) {
    && request.schemaVersion == 1
    && ValidPlan(request.plan) && ValidDisk(request.disk)
    && request.authority.accepted && request.environment.accepted
    && request.provenance.accepted
    && request.provenance.sourceKind == request.inputKind
    && request.provenance.inputDigest == InputDigest(h, request)
    && request.provenance.frameCount == |request.observations|
    && request.reproduction.accepted
    && request.reproduction.sourceDigest == request.provenance.inputDigest
    && request.reproduction.inputDigest == request.provenance.inputDigest
    && request.reproduction.evaluationDigest == EvaluationDigest(h, request)
  }

  datatype LeaseAnswer = Granted | Refused | AcquireRaised

  /** The answer of `evaluate`; Err is the ValueError of an invalid request. */
  function Evaluate(h: Hasher, request: Request, guard: Guard, acquire: LeaseAnswer, releaseRaises: bool): Result<Receipt, ()> {
    if !ValidRequest(h, request) then Err(())
    else if acquire != Granted || releaseRaises then
      Ok(FailureReceipt(h, request, SchemaIncompatible, [], None, None, 0, 0, None))
    else Ok(UnderLease(h, request, guard))
  }
}
