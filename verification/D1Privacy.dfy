/** What a privacy stop lets out: the plan, the authority, the environment and how many frames
    were inspected, and nothing else of the request. */
module D1Privacy {
  import opened Wrappers
  import opened D1Types
  import opened D1Evaluator
  import opened D1Verifier
  import opened D1Agreement
  import opened D1Theorems

  ghost predicate StoppedAt(request: Request, guard: Guard, index: nat) {
    index < |request.observations| && FirstStop(guard, |request.observations|, 0) == index
  }

  lemma StoppedReceiptDependsOnLittle(h: Hasher, a: Request, b: Request, counts: Counts, checked: int)
    requires a.plan == b.plan && a.authority == b.authority && a.environment == b.environment
    ensures ReceiptOf(h, a, NoGo, Some(PrivacyStop), counts, checked, 1, EMPTY_ACCOUNTING, EMPTY_ACCOUNTING, EmptyMetrics(a), true)
         == ReceiptOf(h, b, NoGo, Some(PrivacyStop), counts, checked, 1, EMPTY_ACCOUNTING, EMPTY_ACCOUNTING, EmptyMetrics(b), true)
  {
    hide RequiredBytes, InputDigest, EvaluationDigest, RecomputeDigest;
  }

  /** Non-interference: two requests that agree on plan, authority and environment and are stopped
      at the same frame get the same receipt, whatever their frames, disk evidence, provenance and
      reproduction are; and the verifier accepts it. */
  lemma StopRevealsNothing(h: Hasher, a: Request, b: Request, guardA: Guard, guardB: Guard, index: nat)
    requires ValidRequest(h, a) && ValidRequest(h, b)
    requires a.plan == b.plan && a.authority == b.authority && a.environment == b.environment
    requires StoppedAt(a, guardA, index) && StoppedAt(b, guardB, index)
    ensures Evaluate(h, a, guardA, Granted, false) == Evaluate(h, b, guardB, Granted, false)
    ensures Evaluate(h, a, guardA, Granted, false).Ok? && Verify(h, Evaluate(h, a, guardA, Granted, false).value)
  {
    EvaluateStopped(h, a, guardA, index);
    EvaluateStopped(h, b, guardB, index);
    hide *;
    StopShape(h, a, index + 1);
    StopShape(h, b, index + 1);
    StoppedReceiptDependsOnLittle(h, a, b, [(PrivacyStop, 1)], index + 1);
    StopVerifies(h, a, index + 1);
  }

  lemma EvaluateStopped(h: Hasher, request: Request, guard: Guard, index: nat)
    requires ValidRequest(h, request) && StoppedAt(request, guard, index)
    ensures Evaluate(h, request, guard, Granted, false) == Ok(StopReceipt(h, request, index + 1))
    ensures ValidPlan(request.plan)
  {
    hide StopReceipt, JudgeClear, FirstStop, ValidPlan, ValidDisk;
  }

  /** The promise ends with the lease: if giving it back raises, the answer carries the digests of
      the whole request and its disk evidence even when the guard had stopped a frame. */
  lemma FailedReleaseIsNotScrubbed(h: Hasher, request: Request, guard: Guard, acquire: LeaseAnswer)
    requires ValidRequest(h, request)
    ensures Evaluate(h, request, guard, acquire, true).Ok?
    ensures var r := Evaluate(h, request, guard, acquire, true).value;
            && r.failureCode == Some(SchemaIncompatible) && r.privacyChecked == 0 && r.privacyStops == 0
            && r.inputDigest == InputDigest(h, request) && r.freeBytes == request.disk.freeBytes
            && r.encodedByteCount == request.disk.encodedByteCount
  {
    hide UnderLease, FailureReceipt;
    assert Evaluate(h, request, guard, acquire, true).value == FailureReceipt(h, request, SchemaIncompatible, [], None, None, 0, 0, None);
    FailureShape(h, request, SchemaIncompatible, [], None, None, 0, None);
    hide FailureCounts, CountsWith, AccountingOf, RequiredBytes, EvaluationDigest, RecomputeDigest;
  }
}
