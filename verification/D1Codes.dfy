/** Which code a NO_GO carries, said apart for the disk, the stages, the captures and named failures. */
module D1Codes {
  import opened Wrappers
  import opened D1Types
  import opened D1Evaluator
  import opened D1Stream
  import opened D1Failures
  import opened D1Contract

  /** The lease was held and given back, and the guard cleared every frame. */
  ghost predicate Undisturbed(request: Request, guard: Guard, acquire: LeaseAnswer, releaseRaises: bool) {
    acquire == Granted && !releaseRaises && AllClear(guard, |request.observations|)
  }

  /** The frames are sound, none of them and nobody else names a failure, and some come after the warm-up. */
  ghost predicate Quiet(request: Request) {
    && SoundStream(request.inputKind, request.plan.runEnd, request.observations) && NothingFailed(request)
    && request.observations != [] && AfterWarmup(request) != []
  }

  lemma AnswerCode(h: Hasher, request: Request, guard: Guard, acquire: LeaseAnswer, releaseRaises: bool)
    requires Evaluate(h, request, guard, acquire, releaseRaises).Ok? && Undisturbed(request, guard, acquire, releaseRaises)
    ensures Evaluate(h, request, guard, acquire, releaseRaises).value.failureCode == Verdict(request)
  {
    AnswerIsVerdict(h, request, guard, acquire, releaseRaises);
    hide Evaluate, AllClear, Verdict, FirstStop;
  }

  /** With everything else in order, too little space is DISK_SPACE_INSUFFICIENT whatever the samples
      are, and with enough space too few fast samples are DISK_THROUGHPUT_INSUFFICIENT. */
  lemma DiskCodes(h: Hasher, request: Request, guard: Guard, acquire: LeaseAnswer, releaseRaises: bool)
    requires Evaluate(h, request, guard, acquire, releaseRaises).Ok? && Undisturbed(request, guard, acquire, releaseRaises)
    requires Quiet(request) && NoStageFailed(request.disk.stages) && !RunTooShort(request)
    requires EncodedConsistently(request) && FramesMeet(request, AfterWarmup(request))
    ensures var code := Evaluate(h, request, guard, acquire, releaseRaises).value.failureCode;
            && (code == Some(DiskSpaceInsufficient) <==> !HasSpace(request))
            && (code == Some(DiskThroughputInsufficient) <==> HasSpace(request) && FastSamples(request.disk.samples, 2.0 * request.disk.encodedByteRate) < 55)
            && (code == None <==> HasSpace(request) && FastSamples(request.disk.samples, 2.0 * request.disk.encodedByteRate) >= 55)
  {
    hide *;
    AnswerCode(h, request, guard, acquire, releaseRaises);
    QuietVerdict(request);
    DiskReason(request);
  }

  lemma QuietVerdict(request: Request)
    requires Quiet(request) && NoStageFailed(request.disk.stages) && !RunTooShort(request)
    ensures request.observations != [] && Verdict(request) == MeasuredReason(request)
  {
    hide SoundStream, NothingFailed, AfterWarmup, NoStageFailed, RunTooShort, MeasuredReason, IsLeastCode;
  }

  lemma DiskReason(request: Request)
    requires request.observations != [] && EncodedConsistently(request) && FramesMeet(request, AfterWarmup(request))
    ensures MeasuredReason(request) ==
      if !HasSpace(request) then Some(DiskSpaceInsufficient)
      else if FastSamples(request.disk.samples, 2.0 * request.disk.encodedByteRate) < 55 then Some(DiskThroughputInsufficient) else None
  {
    assert EncodedSomething(request) by { hide EncodedSomething, Near; }
    hide AfterWarmup, FramesMeet, HasSpace, FastSamples, EncodedConsistently, EncodedSomething;
  }

  /** The first failed stage, in the order open, write, finalize, durability, gives the code. */
  lemma StageCodes(h: Hasher, request: Request, guard: Guard, acquire: LeaseAnswer, releaseRaises: bool)
    requires Evaluate(h, request, guard, acquire, releaseRaises).Ok? && Undisturbed(request, guard, acquire, releaseRaises)
    requires Quiet(request)
    ensures var code := Evaluate(h, request, guard, acquire, releaseRaises).value.failureCode;
            var stages := request.disk.stages;
            && (stages.open == StageFailed ==> code == Some(EncoderUnavailable))
            && (stages.open != StageFailed && stages.write == StageFailed ==> code == Some(EncoderWriteFailed))
            && (stages.open != StageFailed && stages.write != StageFailed && stages.finalize == StageFailed ==> code == Some(EncoderFinalizeFailed))
            && (code == Some(DiskFsyncFailed) <==>
                  stages.open != StageFailed && stages.write != StageFailed && stages.finalize != StageFailed && stages.durability == StageFailed)
  {
    AnswerCode(h, request, guard, acquire, releaseRaises);
    hide Evaluate, SoundStream, NothingFailed, AfterWarmup, MeasuredReason, Undisturbed, IsLeastCode, RunTooShort;
    MeasuredCodes(request);
  }

  lemma MeasuredCodes(request: Request)
    requires request.observations != []
    ensures MeasuredReason(request) != Some(DiskFsyncFailed)
  {
    hide EncodedSomething, EncodedConsistently, FramesMeet, AfterWarmup, HasSpace, FastEnough;
  }

  /** The first frame that is not as it should be decides. If it is of the right kind and within the
      run, then captured before the frame ahead of it is CLOCK_REGRESSION, and captured at the same
      time or a second or more later is FRAME_STALLED. */
  lemma CaptureCodes(h: Hasher, request: Request, guard: Guard, acquire: LeaseAnswer, releaseRaises: bool, i: nat)
    requires Evaluate(h, request, guard, acquire, releaseRaises).Ok? && Undisturbed(request, guard, acquire, releaseRaises)
    requires 0 < i && FirstBad(request.inputKind, request.plan.runEnd, request.observations, i)
    requires request.observations[i].sourceKind == request.inputKind && 0 <= request.observations[i].captured <= request.plan.runEnd
    ensures var code := Evaluate(h, request, guard, acquire, releaseRaises).value.failureCode;
            var gap := request.observations[i].captured - request.observations[i - 1].captured;
            && (gap < 0 ==> code == Some(ClockRegression))
            && (code == Some(FrameStalled) <==> gap == 0 || gap >= 1_000_000_000)
  {
    hide Evaluate, SoundStream, Undisturbed, FirstBad, BadFrame, Verdict;
    AnswerCode(h, request, guard, acquire, releaseRaises);
    StreamCode(request.inputKind, request.plan.runEnd, request.observations, i);
    FirstBadIsOne(request, i);
    BadCapture(request, i);
  }

  lemma BadCapture(request: Request, i: nat)
    requires 0 < i && FirstBad(request.inputKind, request.plan.runEnd, request.observations, i)
    requires request.observations[i].sourceKind == request.inputKind && 0 <= request.observations[i].captured <= request.plan.runEnd
    ensures var code := BadFrame(request.inputKind, request.plan.runEnd, request.observations, i);
            var gap := request.observations[i].captured - request.observations[i - 1].captured;
            && (gap < 0 ==> code == Some(ClockRegression))
            && (code == Some(FrameStalled) <==> gap == 0 || gap >= 1_000_000_000)
  {
    hide CompletedBefore, FieldsOk;
  }

  lemma FirstBadIsOne(request: Request, i: nat)
    requires FirstBad(request.inputKind, request.plan.runEnd, request.observations, i)
    requires !SoundStream(request.inputKind, request.plan.runEnd, request.observations)
    ensures Verdict(request) == BadFrame(request.inputKind, request.plan.runEnd, request.observations, i)
  {
    hide SoundStream, BadFrame, Reason;
    UnsoundHasBad(request.inputKind, request.plan.runEnd, request.observations);
  }

  /** If anything named a failure, the code is the named one that comes first in the alphabet. */
  lemma NamedCode(h: Hasher, request: Request, guard: Guard, acquire: LeaseAnswer, releaseRaises: bool, code: FailureCode)
    requires Evaluate(h, request, guard, acquire, releaseRaises).Ok? && Undisturbed(request, guard, acquire, releaseRaises)
    requires SoundStream(request.inputKind, request.plan.runEnd, request.observations) && !NothingFailed(request)
    requires Occurrences(request, code) > 0 && forall other :: Occurrences(request, other) > 0 && other != code ==> Place(code) < Place(other)
    ensures Evaluate(h, request, guard, acquire, releaseRaises).value.failureCode == Some(code)
  {
    AnswerCode(h, request, guard, acquire, releaseRaises);
    FailedHasLeast(request);
    hide Evaluate, SoundStream, NothingFailed, Undisturbed, Occurrences, Place;
    assert IsLeastCode(request, code);
  }
}
