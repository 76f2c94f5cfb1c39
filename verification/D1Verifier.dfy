/** The independent verifier: it judges a receipt from the receipt alone. */
module D1Verifier {
  import opened Wrappers
  import opened D1Types
  import opened D1Evaluator

  function SumReasons(items: seq<(DropReason, int)>): int {
    if items == [] then 0 else items[0].1 + SumReasons(items[1..])
  }

  /** There is one drop reason, so a sorted list of pairs is sorted by its counts. */
  predicate ReasonsSorted(items: seq<(DropReason, int)>) {
    forall i, j :: 0 <= i < j < |items| ==> items[i].1 <= items[j].1
  }

  predicate AccountingSemantic(a: Accounting) {
    && a.delivered >= 0 && a.gaps >= 0 && a.processed >= 0 && a.dropped >= 0 && a.failed >= 0 && a.qualityInsufficient >= 0
    && a.gaps == Max(a.delivered - 1, 0)
    && a.processed + a.dropped + a.failed == a.delivered
    && a.qualityInsufficient <= a.processed
    && ReasonsSorted(a.dropReasons)
    && (forall i :: 0 <= i < |a.dropReasons| ==> a.dropReasons[i].1 > 0)
    && SumReasons(a.dropReasons) == a.dropped
  }

  predicate CountsSemantic(counts: Counts) {
    && (forall i, j :: 0 <= i < j < |counts| ==>
          Place(counts[i].0) < Place(counts[j].0) || (counts[i].0 == counts[j].0 && counts[i].1 <= counts[j].1))
    && (forall i, j :: 0 <= i < j < |counts| ==> counts[i].0 != counts[j].0)
    && (forall i :: 0 <= i < |counts| ==> counts[i].1 > 0)
  }

  predicate ValuesPresent(m: Metrics) {
    && m.totalSeconds >= 0.0 && m.postSeconds >= 0.0 && m.deliveredPerSecond >= 0.0
    && m.p95Gap.Some? && m.p95Gap.value >= 0.0
    && m.p95Latency.Some? && m.p95Latency.value >= 0.0
    && m.p99Latency.Some? && m.p99Latency.value >= 0.0
    && m.p10Throughput.Some? && m.p10Throughput.value >= 0.0
    && m.backlog.Some? && m.backlog.value >= 0.0
  }

  predicate MetricsSemantic(m: Metrics, r: Receipt) {
    && ValuesPresent(m)
    && m.firstCapture >= 0 && m.runEnd >= m.firstCapture
    && IsClose(m.totalSeconds, Seconds(m.runEnd - m.firstCapture), 0.001)
    && IsClose(m.totalSeconds - m.postSeconds, r.warmupSeconds as real, 0.001)
    && m.totalSeconds >= r.requestedSeconds as real
    && m.postSeconds >= r.requestedSeconds as real
    && m.postSeconds != 0.0
    && IsClose(m.deliveredPerSecond, r.accounting.delivered as real / m.postSeconds, 0.000001)
    && m.deliveredPerSecond >= 13.5 && m.p95Gap.value <= 200.0
    && m.p95Latency.value <= 200.0 && m.p99Latency.value <= 500.0
    && m.backlog.value <= 2000.0
    && m.p10Throughput.value >= 2.0 * r.encodedByteRate
    && r.accounting.delivered != 0
    && r.accounting.processed as real / r.accounting.delivered as real >= 0.99
    && (r.accounting.dropped + r.accounting.failed) as real / r.accounting.delivered as real <= 0.01
  }

  predicate StopSemantic(h: Hasher, r: Receipt) {
    var stopDigest := h(PrivacyStopDoc(r.privacyChecked));
    && r.outcome == NoGo
    && r.failureCounts == [(PrivacyStop, 1)]
    && r.privacyChecked >= 1 && r.privacyStops == 1
    && r.warmupAccounting == EMPTY_ACCOUNTING && r.accounting == EMPTY_ACCOUNTING
    && r.requiredBytes == 0 && r.freeBytes == 0 && r.encodedByteCount == 0 && r.encodedByteRate == 0.0
    && r.sampleCount == 0 && r.throughputDigest == h(ThroughputDoc([]))
    && r.stages == NOT_ATTEMPTED
    && r.inputDigest == stopDigest && r.provenanceDigest == stopDigest
    && r.reproductionDigest == stopDigest && r.evaluationDigest == stopDigest
  }

  predicate PassSemantic(r: Receipt) {
    && r.failureCode.None? && r.failureCounts == [] && r.privacyStops == 0
    && r.privacyChecked == r.warmupAccounting.delivered + r.accounting.delivered
    && r.accounting.qualityInsufficient == 0 && r.encodedByteCount > 0
    && r.encodedByteRate > 0.0 && StagesSucceeded(r.stages)
    && MetricsSemantic(r.metrics, r)
    && IsClose(r.encodedByteCount as real / r.encodedByteRate, r.metrics.totalSeconds, 0.001)
  }

  predicate ProfileSemantic(r: Receipt) {
    && r.requestedSeconds == RequestedSeconds(r.runKind)
    && (r.width, r.height, r.framesPerSecond, r.warmupSeconds) == (1280, 720, 15, 5)
  }

  /** `verify_receipt_semantics`. */
  predicate Verify(h: Hasher, r: Receipt) {
    && r.schemaVersion == 1
    && !r.sealAttempted && !r.exportAttempted
    && AccountingSemantic(r.warmupAccounting) && AccountingSemantic(r.accounting)
    && CountsSemantic(r.failureCounts)
    && ProfileSemantic(r)
    && r.resultDigest == RecomputeDigest(h, r)
    && if r.failureCode == Some(PrivacyStop) then StopSemantic(h, r)
       else
         && r.requiredBytes == RequiredBytes(r.encodedByteRate, r.requestedSeconds)
         && r.freeBytes >= r.requiredBytes
         && r.sampleCount == 60 && IsDigest(r.throughputDigest)
         && (if r.outcome == BackendContractPass then PassSemantic(r)
             else r.failureCode.Some? && Named(r.failureCounts, r.failureCode.value))
         && 0 <= r.privacyStops <= r.privacyChecked
  }
}
