/** The evaluator as it runs: loops over mutable locals and dictionaries, a guard asked frame by
    frame, and a lease taken and given back. */
module D1Methods {
  import opened Wrappers
  import opened D1Types
  import opened D1Evaluator
  import opened D1Stream

  /** The privacy guard: its answers are fixed in advance, and it records which frames it was shown. */
  class PrivacyGuard {
    const answers: Guard
    var shown: nat

    constructor (answers: Guard)
      ensures this.answers == answers && shown == 0
    {
      this.answers := answers;
      shown := 0;
    }

    method Inspect() returns (answer: GuardAnswer)
      modifies this
      ensures answer == answers(old(shown)) && shown == old(shown) + 1
    {
      answer := answers(shown);
      shown := shown + 1;
    }
  }

  /** The exclusive owner lease, with its answers fixed in advance. */
  class OwnerLease {
    const acquireAnswer: LeaseAnswer
    const releaseRaises: bool
    var acquired: nat
    var released: nat

    constructor (acquireAnswer: LeaseAnswer, releaseRaises: bool)
      ensures this.acquireAnswer == acquireAnswer && this.releaseRaises == releaseRaises && acquired == 0 && released == 0
    {
      this.acquireAnswer := acquireAnswer;
      this.releaseRaises := releaseRaises;
      acquired, released := 0, 0;
    }

    method Acquire() returns (answer: LeaseAnswer)
      modifies this`acquired
      ensures answer == acquireAnswer && acquired == old(acquired) + 1
    {
      acquired := acquired + 1;
      answer := acquireAnswer;
    }

    method Release() returns (raised: bool)
      modifies this`released
      ensures raised == releaseRaises && released == old(released) + 1
    {
      released := released + 1;
      raised := releaseRaises;
    }
  }

  lemma TakeOne<T>(s: seq<T>, i: nat)
    requires i < |s|
    ensures s[..i + 1][..i] == s[..i] && s[..i + 1][i] == s[i] && |s[..i + 1]| == i + 1
  {
  }

  /** `_validate_observations`. */
  method ValidateObservations(request: Request) returns (failure: Option<FailureCode>)
    ensures failure == CheckStream(request.inputKind, request.plan.runEnd, START, request.observations)
  {
    var cursor := START;
    var i := 0;
    var items := request.observations;
    while i < |items|
      invariant 0 <= i <= |items|
      invariant CheckStream(request.inputKind, request.plan.runEnd, START, items)
             == CheckStream(request.inputKind, request.plan.runEnd, cursor, items[i..])
    {
      var found := CheckItem(request.inputKind, request.plan.runEnd, cursor, items[i]);
      assert items[i..][0] == items[i] && items[i..][1..] == items[i + 1..];
      if found.Some? { return found; }
      cursor := Move(cursor, items[i]);
      i := i + 1;
    }
    return None;
  }

  /** `_accounting`. */
  method CountFrames(items: seq<Observation>) returns (accounting: Accounting)
    ensures accounting == AccountingOf(items)
  {
    var reasons: map<DropReason, int> := map[];
    var processed, dropped, failed, quality := 0, 0, 0, 0;
    var i := 0;
    while i < |items|
      invariant 0 <= i <= |items|
      invariant Backpressure in reasons <==> CountDropReasons(items[..i]) > 0
      invariant Backpressure in reasons ==> reasons[Backpressure] == CountDropReasons(items[..i])
      invariant processed == CountDisposition(items[..i], Processed)
      invariant dropped == CountDisposition(items[..i], DroppedExplicit)
      invariant failed == CountDisposition(items[..i], FailedFrame)
      invariant quality == CountQuality(items[..i])
    {
      TakeOne(items, i);
      var item := items[i];
      if item.dropReason.Some? {
        var reason := item.dropReason.value;
        assert reason == Backpressure;
        reasons := reasons[reason := (if reason in reasons then reasons[reason] else 0) + 1];
      }
      match item.disposition {
        case Processed => processed := processed + 1;
        case DroppedExplicit => dropped := dropped + 1;
        case FailedFrame => failed := failed + 1;
      }
      if item.qualityInsufficient { quality := quality + 1; }
      i := i + 1;
    }
    assert items[..i] == items;
    accounting := Accounting(|items|, Max(|items| - 1, 0), processed, dropped, failed, quality,
                             if Backpressure in reasons then [(Backpressure, reasons[Backpressure])] else []);
  }

  /** `_failure_counts`. */
  method TallyFailures(request: Request, privacyStop: bool) returns (counts: Counts)
    ensures counts == FailureCounts(request, privacyStop)
  {
    var tally: map<FailureCode, int> := map[];
    var items, codes := request.observations, request.injected;
    var i := 0;
    while i < |items|
      invariant 0 <= i <= |items|
      invariant tally == BumpItems(map[], items[..i])
    {
      TakeOne(items, i);
      var item := items[i];
      if item.failureCode.Some? { tally := Bump(tally, item.failureCode.value); }
      if item.qualityInsufficient { tally := Bump(tally, QualityInsufficient); }
      i := i + 1;
    }
    assert items[..i] == items;
    i := 0;
    while i < |codes|
      invariant 0 <= i <= |codes|
      invariant tally == BumpCodes(BumpItems(map[], items), codes[..i])
    {
      TakeOne(codes, i);
      tally := Bump(tally, codes[i]);
      i := i + 1;
    }
    assert codes[..i] == codes;
    if privacyStop { tally := Bump(tally, PrivacyStop); }
    counts := SortedItems(tally, 0);
  }

  /** `_evaluate_under_lease`. The guard is shown each frame once, in order, up to the first that is
      not clear. */
  method EvaluateUnderLease(h: Hasher, request: Request, guard: PrivacyGuard) returns (receipt: Receipt)
    requires guard.shown == 0
    modifies guard
    ensures receipt == UnderLease(h, request, guard.answers)
    ensures guard.shown == Min(FirstStop(guard.answers, |request.observations|, 0) + 1, |request.observations|)
  {
    var n := |request.observations|;
    hide StopReceipt, JudgeClear;
    var i := 0;
    while i < n
      invariant 0 <= i <= n && guard.shown == i
      invariant FirstStop(guard.answers, n, 0) == FirstStop(guard.answers, n, i)
    {
      var decision := guard.Inspect();
      if decision != Clear { return StopReceipt(h, request, i + 1); }
      i := i + 1;
    }
    receipt := JudgeFrames(h, request);
  }

  function Min(a: int, b: int): int { if a <= b then a else b }

  /** The part of `_evaluate_under_lease` after the scan. */
  method JudgeFrames(h: Hasher, request: Request) returns (receipt: Receipt)
    ensures receipt == JudgeClear(h, request)
  {
    hide FailureReceipt, JudgeStream, CheckStream, SplitWarmup;
    var checked := |request.observations|;
    var error := ValidateObservations(request);
    if error.Some? { return FailureReceipt(h, request, error.value, [], None, None, checked, 0, None); }
    var (warmup, post) := SplitWarmup(request);
    receipt := JudgePost(h, request, warmup, post, checked);
  }

  method JudgePost(h: Hasher, request: Request, warmup: seq<Observation>, post: seq<Observation>, checked: int) returns (receipt: Receipt)
    ensures receipt == JudgeStream(h, request, warmup, post, checked)
  {
    hide FailureReceipt, JudgeMetrics, MetricsOf, FailureCounts, StageFailure, CountDisposition, CountQuality, CountDropReasons;
    var accounting := CountFrames(post);
    var counts := TallyFailures(request, false);
    if counts != [] {
      return FailureReceipt(h, request, counts[0].0, warmup, Some(accounting), None, checked, 0, Some(counts));
    }
    if accounting.delivered == 0 {
      return FailureReceipt(h, request, InputUnavailable, warmup, Some(accounting), None, checked, 0, None);
    }
    if accounting.processed + accounting.dropped + accounting.failed != accounting.delivered {
      return FailureReceipt(h, request, SchemaIncompatible, warmup, Some(accounting), None, checked, 0, None);
    }
    if accounting.qualityInsufficient != 0 {
      return FailureReceipt(h, request, QualityInsufficient, warmup, Some(accounting), None, checked, 0, None);
    }
    var stage := StageFailure(request.disk.stages);
    if stage.Some? {
      return FailureReceipt(h, request, stage.value, warmup, Some(accounting), None, checked, 0, None);
    }
    var metrics := MetricsOf(request, post);
    if metrics.None? {
      return FailureReceipt(h, request, SchemaIncompatible, warmup, Some(accounting), None, checked, 0, None);
    }
    receipt := JudgeMetrics(h, request, warmup, accounting, metrics.value, checked);
  }

  /** `evaluate`. The lease is asked for once for a valid request and never otherwise, and it is
      given back once if it was granted. */
  method EvaluateRequest(h: Hasher, request: Request, guard: PrivacyGuard, lease: OwnerLease) returns (answer: Result<Receipt, ()>)
    requires guard.shown == 0
    modifies guard, lease
    ensures answer == Evaluate(h, request, guard.answers, lease.acquireAnswer, lease.releaseRaises)
    ensures lease.acquired == old(lease.acquired) + if ValidRequest(h, request) then 1 else 0
    ensures lease.released == old(lease.released) + if ValidRequest(h, request) && lease.acquireAnswer == Granted then 1 else 0
    ensures lease.acquireAnswer != Granted ==> guard.shown == 0
  {
    hide FailureReceipt, UnderLease, ValidRequest;
    if !ValidRequest(h, request) { return Err(()); }
    var acquired := lease.Acquire();
    if acquired != Granted {
      return Ok(FailureReceipt(h, request, SchemaIncompatible, [], None, None, 0, 0, None));
    }
    var result := EvaluateUnderLease(h, request, guard);
    var raised := lease.Release();
    if raised {
      return Ok(FailureReceipt(h, request, SchemaIncompatible, [], None, None, 0, 0, None));
    }
    answer := Ok(result);
  }
}
