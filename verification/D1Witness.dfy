/** A run of twenty frames a second that meets the contract although no encoder stage was
    attempted: the evaluator passes it and the verifier refuses the receipt. */
module D1Witness {
  import opened Wrappers
  import opened D1Types
  import opened D1Rank
  import opened D1Evaluator
  import opened D1Stream
  import opened D1Verifier
  import opened D1Agreement
  import opened D1Theorems
  import opened D1Contract

  const STEP: int := 50_000_000

  function Frame(t: int): Observation {
    Observation(TestChart, t, Some(t), Processed, false, None, None)
  }

  function Frames(start: int, n: nat): seq<Observation>
    decreases n
  {
    if n == 0 then [] else [Frame(start)] + Frames(start + STEP, n - 1)
  }

  lemma {:induction false} FrameAt(start: int, n: nat, k: nat)
    requires k < n
    ensures |Frames(start, n)| == n && Frames(start, n)[k] == Frame(start + k * STEP)
    decreases k
  {
    if k > 0 {
      FrameAt(start + STEP, n - 1, k - 1);
    } else {
      FramesLength(start + STEP, n - 1);
    }
  }

  lemma {:induction false} FramesLength(start: int, n: nat)
    ensures |Frames(start, n)| == n
    decreases n
  {
    if n > 0 { FramesLength(start + STEP, n - 1); }
  }

  lemma FramesSound(start: int, n: nat, runEnd: int)
    requires 0 <= start && start + n * STEP <= runEnd
    ensures SoundStream(TestChart, runEnd, Frames(start, n))
  {
    var f := Frames(start, n);
    FramesLength(start, n);
    forall k | 0 <= k < n ensures f[k] == Frame(start + k * STEP) { FrameAt(start, n, k); }
    forall k | 0 <= k < n ensures FrameOk(TestChart, runEnd, f[k]) {
      assert start + k * STEP <= runEnd;
    }
    hide Frames;
    forall i, j | 0 <= i < j < n ensures CompletesBefore(f[i], f[j]) { assert i * STEP < j * STEP; }
    forall i | 0 <= i < n - 1 ensures 0 < f[i + 1].captured - f[i].captured < SECOND { assert f[i + 1] == Frame(start + (i + 1) * STEP); }
  }

  lemma {:induction false} AllNotEarlier(start: int, n: nat, boundary: int)
    requires start >= boundary
    ensures NotEarlierThan(Frames(start, n), boundary) == Frames(start, n)
    decreases n
  {
    if n > 0 {
      AllNotEarlier(start + STEP, n - 1, boundary);
      assert Frames(start, n)[1..] == Frames(start + STEP, n - 1);
    }
  }

  lemma {:induction false} NotEarlierFrames(start: int, skipped: nat, n: nat, boundary: int)
    requires boundary == start + skipped * STEP
    ensures NotEarlierThan(Frames(start, skipped + n), boundary) == Frames(boundary, n)
    decreases skipped
  {
    if skipped == 0 {
      AllNotEarlier(start, n, boundary);
    } else {
      assert boundary == start + STEP + (skipped - 1) * STEP;
      assert start < boundary;
      NotEarlierFrames(start + STEP, skipped - 1, n, boundary);
      assert Frames(start, skipped + n)[1..] == Frames(start + STEP, skipped - 1 + n);
    }
  }

  lemma {:induction false} GapsAreShort(start: int, n: nat)
    ensures CountAtMost(GapsOf(Frames(start, n)), 200.0) == |GapsOf(Frames(start, n))|
    decreases n
  {
    if n >= 2 {
      GapsAreShort(start + STEP, n - 1);
      assert Frames(start, n)[1..] == Frames(start + STEP, n - 1);
      assert Frames(start, n)[1] == Frame(start + STEP);
      assert GapsOf(Frames(start, n))[1..] == GapsOf(Frames(start + STEP, n - 1));
      assert GapsOf(Frames(start, n))[0] == 50.0;
    }
  }

  lemma {:induction false} LatenciesAreZero(start: int, n: nat)
    ensures ProcessedOf(Frames(start, n)) == Frames(start, n)
    ensures |LatenciesOf(Frames(start, n))| == n
    ensures CountAtMost(LatenciesOf(Frames(start, n)), 200.0) == n
    ensures CountAtMost(LatenciesOf(Frames(start, n)), 500.0) == n
    ensures CountDisposition(Frames(start, n), Processed) == n
    decreases n
  {
    if n > 0 {
      LatenciesAreZero(start + STEP, n - 1);
      CountFromFront(Frames(start, n), Processed);
      assert Frames(start, n)[1..] == Frames(start + STEP, n - 1);
      assert LatenciesOf(Frames(start, n))[1..] == LatenciesOf(Frames(start + STEP, n - 1));
      assert LatenciesOf(Frames(start, n))[0] == 0.0;
    }
  }

  lemma RankAtMost(n: nat, percentile: nat)
    requires percentile <= 100
    ensures Rank(n, percentile) <= n
  {
    assert percentile * n <= 100 * n;
  }

  function Samples(second: int, n: nat): seq<Sample>
    decreases n
  {
    if n == 0 then [] else [Sample(second, 2.0)] + Samples(second + 1, n - 1)
  }

  lemma {:induction false} SamplesFast(second: int, n: nat)
    ensures |Samples(second, n)| == n && CountAtLeast(RatesOf(Samples(second, n)), 2.0) == n
    ensures forall k :: 0 <= k < n ==> Samples(second, n)[k] == Sample(second + k, 2.0)
    decreases n
  {
    if n > 0 {
      SamplesFast(second + 1, n - 1);
      assert Samples(second, n)[1..] == Samples(second + 1, n - 1);
      assert RatesOf(Samples(second, n))[1..] == RatesOf(Samples(second + 1, n - 1));
    }
  }

  // ---- The request ----

  const PLAN := Plan(Preflight60s, 1280, 720, 15, 60, 5, 65_000_000_000)

  function UnattemptedDisk(): Disk {
    Disk(MIN_REQUIRED_BYTES, 65, 1.0, Samples(0, 60), NOT_ATTEMPTED)
  }

  /** The request, with the digests its own content has. */
  function UnattemptedRequest(h: Hasher): Request {
    var input := h(InputDoc(PLAN, Frames(0, 1300), UnattemptedDisk()));
    var evaluation := h(EvaluationDoc(input, TestChart, []));
    Request(1, TestChart, PLAN, Frames(0, 1300), UnattemptedDisk(), [], Authority("", true),
            Provenance("", true, TestChart, input, 1300), Environment("", true),
            Reproduction("", true, input, input, evaluation))
  }

  lemma RequestIsValid(h: Hasher)
    ensures ValidRequest(h, UnattemptedRequest(h))
  {
    SamplesFast(0, 60);
    FramesLength(0, 1300);
    hide Frames, Samples;
  }

  lemma PostFrames(h: Hasher)
    ensures UnattemptedRequest(h).observations != [] && Boundary(UnattemptedRequest(h)) == 5 * SECOND
    ensures NotEarlierThan(UnattemptedRequest(h).observations, 5 * SECOND) == Frames(5 * SECOND, 1200)
  {
    FrameAt(0, 1300, 0);
    NotEarlierFrames(0, 100, 1200, 5 * SECOND);
    hide Frames, Samples, NotEarlierThan;
  }

  lemma RequestEnough(h: Hasher)
    ensures PercentilesWithin(UnattemptedRequest(h), Frames(5 * SECOND, 1200))
  {
    var post := Frames(5 * SECOND, 1200);
    GapsAreShort(5 * SECOND, 1200);
    RankAtMost(|GapsOf(post)|, 95);
    LatenciesAreZero(5 * SECOND, 1200);
    RankAtMost(1200, 95);
    RankAtMost(1200, 99);
    hide Frames, Samples, GapsOf, LatenciesOf, ProcessedOf, CountAtMost, Rank;
  }

  lemma RequestFast(h: Hasher)
    ensures FastEnough(UnattemptedRequest(h).disk)
  {
    var disk := UnattemptedDisk();
    assert UnattemptedRequest(h).disk == disk && disk.samples == Samples(0, 60) && disk.encodedByteRate == 1.0 by { hide Frames, Samples; }
    SamplesFast(0, 60);
    SampleCounts(disk.samples, 2.0);
    hide UnattemptedRequest, UnattemptedDisk, Frames, Samples, RatesOf, CountAtLeast, FastSamples;
  }

  lemma RequestBacklog()
    ensures BacklogWithin(Frames(5 * SECOND, 1200), 2 * SECOND)
  {
    FrameAt(5 * SECOND, 1200, 1199);
    hide Frames;
    assert LastProcessedAt(Frames(5 * SECOND, 1200), 1199);
  }

  lemma RequestNothingFailed(h: Hasher)
    ensures NothingFailed(UnattemptedRequest(h))
  {
    FramesLength(0, 1300);
    forall k | 0 <= k < 1300 ensures Frames(0, 1300)[k] == Frame(0 + k * STEP) { FrameAt(0, 1300, k); }
    hide Frames, Samples;
  }

  lemma RequestRest(h: Hasher)
    ensures UnattemptedRequest(h).observations != []
    ensures NoStageFailed(UnattemptedRequest(h).disk.stages)
    ensures HasSpace(UnattemptedRequest(h)) && EncodedConsistently(UnattemptedRequest(h))
    ensures LongEnough(UnattemptedRequest(h), Frames(5 * SECOND, 1200))
  {
    FrameAt(0, 1300, 0);
    FramesLength(5 * SECOND, 1200);
    hide Frames, Samples;
  }

  /** The shares of the frames after the warm-up. */
  lemma RequestShares(h: Hasher)
    ensures EnoughWithin(Frames(5 * SECOND, 1200)) && FastEnough(UnattemptedRequest(h).disk)
    ensures ProcessedFrames(Frames(5 * SECOND, 1200)) == 1200 == |Frames(5 * SECOND, 1200)|
  {
    var request, post := UnattemptedRequest(h), Frames(5 * SECOND, 1200);
    assert request.inputKind == TestChart && request.plan.runEnd == 65_000_000_000 by { hide Frames, Samples; }
    FramesSound(5 * SECOND, 1200, 65_000_000_000);
    FramesLength(5 * SECOND, 1200);
    RequestEnough(h);
    RequestFast(h);
    hide Frames, Samples, UnattemptedRequest, PercentilesWithin, EnoughWithin, Paced, Ordered;
    PercentilesAreShares(request, post);
    LatenciesAreZero(5 * SECOND, 1200);
    DispositionCounts(post, Processed);
    hide FastEnough, CountDisposition;
    assert ProcessedFrames(post) == CountDisposition(post, Processed);
  }

  lemma RequestMeetsContract(h: Hasher)
    ensures MeetsContract(UnattemptedRequest(h))
  {
    var request := UnattemptedRequest(h);
    assert request.observations == Frames(0, 1300) && request.inputKind == TestChart && request.plan.runEnd == 65_000_000_000 by {
      hide Frames, Samples;
    }
    FramesSound(0, 1300, 65_000_000_000);
    PostFrames(h);
    RequestBacklog();
    RequestNothingFailed(h);
    RequestRest(h);
    RequestShares(h);
    assert Paced(request.observations) by { hide Frames, Samples, UnattemptedRequest; }
    WarmupIsCut(request);
    hide Frames, Samples, UnattemptedRequest, SoundStream, NothingFailed, LongEnough, EnoughWithin, BacklogWithin;
    hide ProcessedFrames, HasSpace, FastEnough, EncodedConsistently, NotEarlierThan, AfterWarmup, Boundary;
  }

  /** A pass need not verify: this request passes and its receipt is refused. */
  lemma PassMayBeRefused(h: Hasher, guard: Guard)
    requires AllClear(guard, 1300)
    ensures Evaluate(h, UnattemptedRequest(h), guard, Granted, false).Ok?
    ensures var r := Evaluate(h, UnattemptedRequest(h), guard, Granted, false).value;
            r.outcome == BackendContractPass && !Verify(h, r)
  {
    var request := UnattemptedRequest(h);
    RequestIsValid(h);
    RequestMeetsContract(h);
    FramesLength(0, 1300);
    assert |request.observations| == 1300 && request.disk.stages == NOT_ATTEMPTED by { hide Frames, Samples; }
    ValidEvaluates(h, request, guard);
    hide UnattemptedRequest, Evaluate, Verify, MeetsContract, ValidRequest, AllClear, Frames;
    PassIsContract(h, request, guard, Granted, false);
    PassVerifiesIffStages(h, request, guard, Granted, false);
  }

  lemma ValidEvaluates(h: Hasher, request: Request, guard: Guard)
    requires ValidRequest(h, request)
    ensures Evaluate(h, request, guard, Granted, false) == Ok(UnderLease(h, request, guard))
  {
    hide UnderLease, ValidRequest;
  }
}
