/** When the evaluator's receipts satisfy the independent verifier, exactly. */
module D1Agreement {
  import opened Wrappers
  import opened D1Types
  import opened D1Rank
  import opened D1Evaluator
  import opened D1Stream
  import opened D1Verifier

  // ---- Failure counts are sorted, distinct and positive ----

  ghost predicate Positive(counts: map<FailureCode, int>) {
    forall c :: c in counts ==> counts[c] > 0
  }

  lemma PlaceOfCode(code: FailureCode)
    ensures Place(code) < 20 && CODES[Place(code)] == code
  {
  }

  lemma CodeOfPlace(k: nat)
    requires k < 20
    ensures Place(CODES[k]) == k
  {
  }

  /** Names in strictly ascending order with positive counts: what sorting a dictionary yields. */
  ghost predicate Strict(counts: Counts) {
    && (forall i, j :: 0 <= i < j < |counts| ==> Place(counts[i].0) < Place(counts[j].0))
    && (forall i :: 0 <= i < |counts| ==> counts[i].1 > 0)
  }

  ghost predicate AllFrom(counts: Counts, k: int) {
    forall i :: 0 <= i < |counts| ==> Place(counts[i].0) >= k
  }

  lemma StrictIsSemantic(counts: Counts)
    requires Strict(counts)
    ensures CountsSemantic(counts)
  {
    forall i, j | 0 <= i < j < |counts| ensures counts[i].0 != counts[j].0 {
      assert Place(counts[i].0) < Place(counts[j].0);
    }
  }

  lemma SemanticIsStrict(counts: Counts)
    requires CountsSemantic(counts)
    ensures Strict(counts)
  {
    hide Place;
  }

  lemma ConsStrict(first: (FailureCode, int), rest: Counts)
    requires Strict(rest) && AllFrom(rest, Place(first.0) + 1) && first.1 > 0
    ensures Strict([first] + rest) && AllFrom([first] + rest, Place(first.0))
  {
    hide Place;
    var all := [first] + rest;
    assert forall i :: 1 <= i < |all| ==> all[i] == rest[i - 1];
  }

  lemma ConsNamed(first: (FailureCode, int), rest: Counts, code: FailureCode)
    ensures Named([first] + rest, code) <==> first.0 == code || Named(rest, code)
  {
    var all := [first] + rest;
    assert all[0] == first;
    assert forall i :: 1 <= i < |all| ==> all[i] == rest[i - 1];
    assert forall i :: 0 <= i < |rest| ==> all[i + 1] == rest[i];
  }

  lemma {:induction false} SortedItemsStrict(counts: map<FailureCode, int>, k: nat)
    requires Positive(counts) && k <= 20
    ensures Strict(SortedItems(counts, k)) && AllFrom(SortedItems(counts, k), k)
    decreases 20 - k
  {
    if k < 20 {
      SortedItemsStrict(counts, k + 1);
      CodeOfPlace(k);
      hide Place;
      hide Strict;
      if CODES[k] in counts { ConsStrict((CODES[k], counts[CODES[k]]), SortedItems(counts, k + 1)); }
    }
  }

  lemma {:induction false} SortedItemsNamed(counts: map<FailureCode, int>, k: nat, code: FailureCode)
    requires k <= 20
    ensures Named(SortedItems(counts, k), code) <==> code in counts && Place(code) >= k
    decreases 20 - k
  {
    PlaceOfCode(code);
    if k < 20 {
      SortedItemsNamed(counts, k + 1, code);
      CodeOfPlace(k);
      hide Place;
      hide Named;
      if CODES[k] in counts {
        ConsNamed((CODES[k], counts[CODES[k]]), SortedItems(counts, k + 1), code);
      } else {
        assert SortedItems(counts, k) == SortedItems(counts, k + 1);
      }
    }
  }

  lemma {:induction false} BumpedPositive(counts: map<FailureCode, int>, items: seq<Observation>)
    requires Positive(counts)
    ensures Positive(BumpItems(counts, items))
  {
    if items != [] { BumpedPositive(counts, items[..|items| - 1]); }
  }

  lemma {:induction false} BumpedCodesPositive(counts: map<FailureCode, int>, codes: seq<FailureCode>)
    requires Positive(counts)
    ensures Positive(BumpCodes(counts, codes))
  {
    if codes != [] { BumpedCodesPositive(counts, codes[..|codes| - 1]); }
  }

  lemma TallySemantic(request: Request, privacyStop: bool)
    ensures CountsSemantic(FailureCounts(request, privacyStop))
  {
    BumpedPositive(map[], request.observations);
    BumpedCodesPositive(BumpItems(map[], request.observations), request.injected);
    var tally := BumpCodes(BumpItems(map[], request.observations), request.injected);
    var full := if privacyStop then Bump(tally, PrivacyStop) else tally;
    SortedItemsStrict(full, 0);
    StrictIsSemantic(SortedItems(full, 0));
  }

  lemma RestStrict(counts: Counts)
    requires Strict(counts) && counts != []
    ensures Strict(counts[1..]) && AllFrom(counts[1..], Place(counts[0].0) + 1) && counts[0].1 > 0
  {
    hide Place;
    var rest := counts[1..];
    assert forall i :: 0 <= i < |rest| ==> rest[i] == counts[i + 1];
  }

  lemma AllFromFirst(counts: Counts, k: int)
    requires Strict(counts) && counts != [] && k <= Place(counts[0].0)
    ensures AllFrom(counts, k)
  {
    hide Place;
  }

  lemma {:induction false} AddCountStrict(counts: Counts, code: FailureCode)
    requires Strict(counts) && !Named(counts, code)
    ensures Strict(AddCount(counts, code)) && Named(AddCount(counts, code), code)
    ensures AddCount(counts, code)[0].0 == code || (counts != [] && AddCount(counts, code)[0] == counts[0])
    decreases counts
  {
    var added := AddCount(counts, code);
    if counts == [] {
      assert added[0].0 == code;
    } else {
      var first, rest := counts[0], counts[1..];
      assert counts == [first] + rest;
      RestStrict(counts);
      ConsNamed(first, rest, code);
      PlaceOfCode(code);
      PlaceOfCode(first.0);
      if Place(code) < Place(first.0) {
        AllFromFirst(counts, Place(code) + 1);
        ConsStrict((code, 1), counts);
        ConsNamed((code, 1), counts, code);
      } else {
        AddCountStrict(rest, code);
        var tail := AddCount(rest, code);
        AboveFirst(first, rest, tail, code);
        ConsStrict(first, tail);
        ConsNamed(first, tail, code);
      }
    }
  }

  lemma AboveFirst(first: (FailureCode, int), rest: Counts, tail: Counts, code: FailureCode)
    requires Strict(tail) && tail != [] && AllFrom(rest, Place(first.0) + 1) && Place(code) > Place(first.0)
    requires tail[0].0 == code || (rest != [] && tail[0] == rest[0])
    ensures AllFrom(tail, Place(first.0) + 1)
  {
    hide Place;
    AllFromFirst(tail, Place(first.0) + 1);
  }

  lemma AddCountSemantic(counts: Counts, code: FailureCode)
    requires CountsSemantic(counts) && !Named(counts, code)
    ensures CountsSemantic(AddCount(counts, code)) && Named(AddCount(counts, code), code)
  {
    SemanticIsStrict(counts);
    AddCountStrict(counts, code);
    StrictIsSemantic(AddCount(counts, code));
  }

  lemma {:induction false} CodesKeepNames(counts: map<FailureCode, int>, codes: seq<FailureCode>)
    ensures counts.Keys <= BumpCodes(counts, codes).Keys
  {
    if codes != [] { CodesKeepNames(counts, codes[..|codes| - 1]); }
  }

  // ---- Receipts of failures ----

  lemma SoundAccounting(kind: InputKind, runEnd: int, items: seq<Observation>)
    requires FramesOk(kind, runEnd, items)
    ensures AccountingSemantic(AccountingOf(items))
  {
    AccountingAddsUp(kind, runEnd, items);
  }

  ghost predicate EnoughSpace(request: Request) {
    request.disk.freeBytes >= RequiredBytes(request.disk.encodedByteRate, request.plan.requestedSeconds)
  }

  lemma DigestIsRecomputed(h: Hasher, request: Request, outcome: ValidationOutcome, code: Option<FailureCode>, counts: Counts,
                           checked: int, stops: int, warmup: Accounting, accounting: Accounting, metrics: Metrics, scrubbed: bool)
    ensures var r := ReceiptOf(h, request, outcome, code, counts, checked, stops, warmup, accounting, metrics, scrubbed);
            r.resultDigest == RecomputeDigest(h, r)
  {
    hide RequiredBytes, InputDigest, EvaluationDigest;
    var r := ReceiptOf(h, request, outcome, code, counts, checked, stops, warmup, accounting, metrics, scrubbed);
    assert r.(resultDigest := "").(resultDigest := "") == r.(resultDigest := "");
  }

  /** The part of the verifier every receipt of the evaluator meets. */
  ghost predicate Framed(h: Hasher, r: Receipt) {
    && r.schemaVersion == 1 && !r.sealAttempted && !r.exportAttempted && ProfileSemantic(r)
    && r.resultDigest == RecomputeDigest(h, r)
    && r.requiredBytes == RequiredBytes(r.encodedByteRate, r.requestedSeconds)
    && r.sampleCount == 60 && IsDigest(r.throughputDigest)
  }

  lemma ReceiptFramed(h: Hasher, request: Request, outcome: ValidationOutcome, code: Option<FailureCode>, counts: Counts,
                      checked: int, stops: int, warmup: Accounting, accounting: Accounting, metrics: Metrics)
    requires ValidPlan(request.plan) && ValidDisk(request.disk)
    ensures var r := ReceiptOf(h, request, outcome, code, counts, checked, stops, warmup, accounting, metrics, false);
            && Framed(h, r)
            && (r.outcome, r.failureCode, r.failureCounts) == (outcome, code, counts)
            && (r.privacyChecked, r.privacyStops) == (checked, stops)
            && (r.warmupAccounting, r.accounting, r.metrics) == (warmup, accounting, metrics)
            && (r.freeBytes, r.encodedByteCount, r.encodedByteRate, r.stages, r.requestedSeconds, r.warmupSeconds)
                == (request.disk.freeBytes, request.disk.encodedByteCount, request.disk.encodedByteRate,
                    request.disk.stages, request.plan.requestedSeconds, 5)
  {
    DigestIsRecomputed(h, request, outcome, code, counts, checked, stops, warmup, accounting, metrics, false);
    assert IsDigest(h(ThroughputDoc(request.disk.samples)));
    hide RequiredBytes, InputDigest, EvaluationDigest, IsDigest, RecomputeDigest;
  }

  lemma FramedVerifies(h: Hasher, r: Receipt)
    requires Framed(h, r) && r.privacyStops == 0 && r.privacyChecked >= 0
    requires AccountingSemantic(r.warmupAccounting) && AccountingSemantic(r.accounting) && CountsSemantic(r.failureCounts)
    requires r.outcome == NoGo ==> r.failureCode.Some? && Named(r.failureCounts, r.failureCode.value)
    ensures Verify(h, r) <==>
      r.failureCode != Some(PrivacyStop) && r.freeBytes >= r.requiredBytes && (r.outcome == NoGo || PassSemantic(r))
  {
    hide RequiredBytes, InputDigest, EvaluationDigest, IsDigest, RecomputeDigest, AccountingSemantic, CountsSemantic, Named,
         ProfileSemantic, PassSemantic;
  }

  lemma FullCounts(counts: Counts, code: FailureCode)
    requires CountsSemantic(counts)
    ensures CountsSemantic(CountsWith(counts, code)) && Named(CountsWith(counts, code), code)
  {
    if !Named(counts, code) { AddCountSemantic(counts, code); }
  }

  /** The counts and the two forms of a failure receipt. */
  function CountsWith(counts: Counts, code: FailureCode): Counts {
    if Named(counts, code) then counts else AddCount(counts, code)
  }

  lemma FailureShape(h: Hasher, request: Request, code: FailureCode, warmup: seq<Observation>,
                     accounting: Option<Accounting>, metrics: Option<Metrics>, checked: int, counts: Option<Counts>)
    ensures var all := CountsWith(if counts.Some? then counts.value else FailureCounts(request, false), code);
            FailureReceipt(h, request, code, warmup, accounting, metrics, checked, 0, counts)
            == if code == PrivacyStop then
                 ReceiptOf(h, request, NoGo, Some(code), all, checked, 0, EMPTY_ACCOUNTING, EMPTY_ACCOUNTING, EmptyMetrics(request), true)
               else
                 ReceiptOf(h, request, NoGo, Some(code), all, checked, 0, AccountingOf(warmup),
                           if accounting.Some? then accounting.value else EMPTY_ACCOUNTING,
                           if metrics.Some? then metrics.value else EmptyMetrics(request), false)
  {
    hide ReceiptOf, FailureCounts, AddCount, Named, AccountingOf, EmptyMetrics;
  }

  /** A failure receipt not raised by the guard verifies exactly when its code is not the privacy
      code and the disk had the required space. */
  lemma FailureVerifies(h: Hasher, request: Request, code: FailureCode, warmup: seq<Observation>,
                        accounting: Option<Accounting>, metrics: Option<Metrics>, checked: int, counts: Option<Counts>)
    requires ValidPlan(request.plan) && ValidDisk(request.disk) && checked >= 0
    requires AccountingSemantic(AccountingOf(warmup))
    requires accounting.Some? ==> AccountingSemantic(accounting.value)
    requires counts.Some? ==> CountsSemantic(counts.value)
    ensures Agrees(h, FailureReceipt(h, request, code, warmup, accounting, metrics, checked, 0, counts))
  {
    hide *;
    TallySemantic(request, false);
    EmptyIsSemantic();
    var tallied := if counts.Some? then counts.value else FailureCounts(request, false);
    FullCounts(tallied, code);
    FailureShape(h, request, code, warmup, accounting, metrics, checked, counts);
    if code == PrivacyStop {
      ScrubbedNeverVerifies(h, request, CountsWith(tallied, code), checked);
    } else {
      NoGoAgrees(h, request, code, CountsWith(tallied, code), checked, AccountingOf(warmup),
                 if accounting.Some? then accounting.value else EMPTY_ACCOUNTING,
                 if metrics.Some? then metrics.value else EmptyMetrics(request));
    }
  }

  lemma NoGoAgrees(h: Hasher, request: Request, code: FailureCode, counts: Counts, checked: int,
                   warmup: Accounting, accounting: Accounting, metrics: Metrics)
    requires ValidPlan(request.plan) && ValidDisk(request.disk) && checked >= 0
    requires AccountingSemantic(warmup) && AccountingSemantic(accounting) && CountsSemantic(counts)
    requires code != PrivacyStop && Named(counts, code)
    ensures Agrees(h, ReceiptOf(h, request, NoGo, Some(code), counts, checked, 0, warmup, accounting, metrics, false))
  {
    ReceiptFramed(h, request, NoGo, Some(code), counts, checked, 0, warmup, accounting, metrics);
    hide ReceiptOf, Framed, Verify, AccountingSemantic, CountsSemantic, Named, PassSemantic;
    FramedVerifies(h, ReceiptOf(h, request, NoGo, Some(code), counts, checked, 0, warmup, accounting, metrics, false));
  }

  lemma EmptyIsSemantic()
    ensures AccountingSemantic(EMPTY_ACCOUNTING) && AccountingOf([]) == EMPTY_ACCOUNTING
  {
    hide AccountingSemantic, AccountingOf;
    EmptyAccepted();
    EmptyAccounting([]);
  }

  lemma EmptyAccepted()
    ensures AccountingSemantic(EMPTY_ACCOUNTING)
  {
  }

  lemma EmptyAccounting(items: seq<Observation>)
    requires items == []
    ensures AccountingOf(items) == EMPTY_ACCOUNTING
  {
  }

  /** The condition under which a receipt of the evaluator verifies, read off its fields. */
  predicate Accepted(r: Receipt) {
    if r.failureCode == Some(PrivacyStop) then r.privacyStops == 1
    else r.freeBytes >= r.requiredBytes && (r.outcome == NoGo || StagesSucceeded(r.stages))
  }

  predicate Agrees(h: Hasher, r: Receipt) {
    Verify(h, r) <==> Accepted(r)
  }

  lemma ScrubbedNeverVerifies(h: Hasher, request: Request, counts: Counts, checked: int)
    ensures Agrees(h, ReceiptOf(h, request, NoGo, Some(PrivacyStop), counts, checked, 0, EMPTY_ACCOUNTING, EMPTY_ACCOUNTING,
                                EmptyMetrics(request), true))
  {
    hide RequiredBytes, InputDigest, EvaluationDigest, IsDigest, RecomputeDigest, AccountingSemantic, CountsSemantic, ProfileSemantic;
  }

  lemma OneStopSemantic()
    ensures CountsSemantic([(PrivacyStop, 1)]) && Named([(PrivacyStop, 1)], PrivacyStop)
  {
    hide Place;
    assert [(PrivacyStop, 1)][0].0 == PrivacyStop;
  }

  lemma StopShape(h: Hasher, request: Request, checked: int)
    ensures StopReceipt(h, request, checked)
            == ReceiptOf(h, request, NoGo, Some(PrivacyStop), [(PrivacyStop, 1)], checked, 1, EMPTY_ACCOUNTING, EMPTY_ACCOUNTING,
                         EmptyMetrics(request), true)
  {
    OneStopSemantic();
    hide ReceiptOf, CountsSemantic, Named, FailureCounts, AddCount, AccountingOf;
  }

  lemma StopVerifies(h: Hasher, request: Request, checked: int)
    requires ValidPlan(request.plan) && checked >= 1
    ensures var r := StopReceipt(h, request, checked);
            r.failureCode == Some(PrivacyStop) && r.privacyStops == 1 && Verify(h, r)
  {
    StopShape(h, request, checked);
    OneStopSemantic();
    EmptyIsSemantic();
    DigestIsRecomputed(h, request, NoGo, Some(PrivacyStop), [(PrivacyStop, 1)], checked, 1, EMPTY_ACCOUNTING, EMPTY_ACCOUNTING,
                       EmptyMetrics(request), true);
    hide StopReceipt, RequiredBytes, InputDigest, EvaluationDigest, IsDigest, RecomputeDigest, AccountingSemantic, CountsSemantic, Named, Place;
  }
}
