/** The request the D1 evaluator judges and the receipt it answers with. Times are integers of
    nanoseconds; rates and derived seconds and milliseconds are exact reals. */
module D1Types {
  import opened Wrappers

  datatype InputKind = TestChart | SyntheticVideo

  datatype RunKind = Preflight60s | Nominal20m

  datatype Disposition = Processed | DroppedExplicit | FailedFrame

  datatype DropReason = Backpressure

  datatype StageState = Succeeded | StageFailed | NotAttempted

  datatype ValidationOutcome = BackendContractPass | NoGo

  datatype FailureCode =
    | InputUnavailable | InputMalformed | FrameStalled | ClockRegression
    | PoseEngineUnavailable | PoseEngineException | PoseOutputInvalid | QualityInsufficient
    | EncoderUnavailable | EncoderWriteFailed | EncoderFinalizeFailed
    | DiskUnavailable | DiskSpaceInsufficient | DiskThroughputInsufficient | DiskFsyncFailed
    | AtomicRenameFailed | ManifestValidationFailed | SchemaIncompatible | PrivacyStop | UnknownTechnicalFailure

  /** The place of a code's name in alphabetical order: sorting by name is sorting by place. */
  function Place(code: FailureCode): nat {
    match code
    case AtomicRenameFailed => 0
    case ClockRegression => 1
    case DiskFsyncFailed => 2
    case DiskSpaceInsufficient => 3
    case DiskThroughputInsufficient => 4
    case DiskUnavailable => 5
    case EncoderFinalizeFailed => 6
    case EncoderUnavailable => 7
    case EncoderWriteFailed => 8
    case FrameStalled => 9
    case InputMalformed => 10
    case InputUnavailable => 11
    case ManifestValidationFailed => 12
    case PoseEngineException => 13
    case PoseEngineUnavailable => 14
    case PoseOutputInvalid => 15
    case PrivacyStop => 16
    case QualityInsufficient => 17
    case SchemaIncompatible => 18
    case UnknownTechnicalFailure => 19
  }

  datatype Plan = Plan(
    runKind: RunKind, width: int, height: int, framesPerSecond: int,
    requestedSeconds: int, warmupSeconds: int, runEnd: int)

  datatype Observation = Observation(
    sourceKind: InputKind, captured: int, processed: Option<int>, disposition: Disposition,
    qualityInsufficient: bool, failureCode: Option<FailureCode>, dropReason: Option<DropReason>)

  datatype Stages = Stages(open: StageState, write: StageState, finalize: StageState, durability: StageState)

  datatype Sample = Sample(second: int, bytesPerSecond: real)

  datatype Disk = Disk(
    freeBytes: int, encodedByteCount: int, encodedByteRate: real, samples: seq<Sample>, stages: Stages)

  /** `accepted` is the result of comparing the document with the fixed constants it must hold. */
  datatype Authority = Authority(text: string, accepted: bool)

  datatype Environment = Environment(text: string, accepted: bool)

  datatype Provenance = Provenance(text: string, accepted: bool, sourceKind: InputKind, inputDigest: string, frameCount: int)

  datatype Reproduction = Reproduction(
    text: string, accepted: bool, sourceDigest: string, inputDigest: string, evaluationDigest: string)

  datatype Request = Request(
    schemaVersion: int, inputKind: InputKind, plan: Plan, observations: seq<Observation>, disk: Disk,
    injected: seq<FailureCode>, authority: Authority, provenance: Provenance,
    environment: Environment, reproduction: Reproduction)

  type Counts = seq<(FailureCode, int)>

  datatype Accounting = Accounting(
    delivered: int, gaps: int, processed: int, dropped: int, failed: int, qualityInsufficient: int,
    dropReasons: seq<(DropReason, int)>)

  const EMPTY_ACCOUNTING := Accounting(0, 0, 0, 0, 0, 0, [])

  datatype Metrics = Metrics(
    firstCapture: int, runEnd: int, totalSeconds: real, postSeconds: real, deliveredPerSecond: real,
    p95Gap: Option<real>, p95Latency: Option<real>, p99Latency: Option<real>,
    p10Throughput: Option<real>, backlog: Option<real>)

  datatype Receipt = Receipt(
    schemaVersion: int, outcome: ValidationOutcome, failureCode: Option<FailureCode>, failureCounts: Counts,
    runKind: RunKind, width: int, height: int, framesPerSecond: int, requestedSeconds: int, warmupSeconds: int,
    privacyChecked: int, privacyStops: int, warmupAccounting: Accounting, accounting: Accounting, metrics: Metrics,
    requiredBytes: int, freeBytes: int, encodedByteCount: int, encodedByteRate: real,
    sampleCount: int, throughputDigest: string, stages: Stages,
    sealAttempted: bool, exportAttempted: bool,
    authorityDigest: string, inputDigest: string, provenanceDigest: string, environmentDigest: string,
    reproductionDigest: string, evaluationDigest: string, resultDigest: string)

  const NOT_ATTEMPTED := Stages(NotAttempted, NotAttempted, NotAttempted, NotAttempted)

  /** The documents that are hashed. A receipt is hashed without its own digest. */
  datatype Doc =
    | ThroughputDoc(samples: seq<Sample>)
    | PrivacyStopDoc(checked: int)
    | InputDoc(plan: Plan, observations: seq<Observation>, disk: Disk)
    | EvaluationDoc(inputDigest: string, kind: InputKind, injected: seq<FailureCode>)
    | AuthorityDoc(authority: Authority)
    | ProvenanceDoc(provenance: Provenance)
    | EnvironmentDoc(environment: Environment)
    | ReproductionDoc(reproduction: Reproduction)
    | ReceiptDoc(receipt: Receipt)

  predicate IsDigest(s: string) {
    |s| == 64 && forall i :: 0 <= i < 64 ==> s[i] in "0123456789abcdef"
  }

  const ZERO_DIGEST: string := seq(64, _ => '0')

  /** SHA-256 over canonical JSON: any function with 64 hexadecimal characters of output. */
  type Hasher = h: Doc -> string | forall d :: IsDigest(h(d)) witness (d => ZERO_DIGEST)

  const SECOND: int := 1_000_000_000
  const MIN_REQUIRED_BYTES: int := 2 * 1024 * 1024 * 1024

  function RequestedSeconds(kind: RunKind): int {
    match kind case Preflight60s => 60 case Nominal20m => 1200
  }

  function Max(a: int, b: int): int { if a >= b then a else b }

  function MaxReal(a: real, b: real): real { if a >= b then a else b }

  function Abs(x: real): real { if x < 0.0 then -x else x }

  /** math.isclose with its default relative tolerance of 1e-9. */
  predicate IsClose(a: real, b: real, absTol: real) {
    Abs(a - b) <= MaxReal(0.000000001 * MaxReal(Abs(a), Abs(b)), absTol)
  }

  /** What closeness means: within the absolute tolerance, or within a billionth of either value. */
  ghost predicate Near(a: real, b: real, absTol: real) {
    var distance := if a >= b then a - b else b - a;
    || distance <= absTol
    || 1000000000.0 * distance <= (if a >= 0.0 then a else -a)
    || 1000000000.0 * distance <= (if b >= 0.0 then b else -b)
  }

  lemma CloseIsNear(a: real, b: real, absTol: real)
    ensures IsClose(a, b, absTol) <==> Near(a, b, absTol)
  {
  }

  /** max(2 GiB, int(2 * rate * seconds)): `int` truncates, and the product is not negative. */
  function RequiredBytes(rate: real, seconds: int): int
  {
    Max(MIN_REQUIRED_BYTES, Truncate(2.0 * rate * seconds as real))
  }

  function Truncate(x: real): int {
    if x >= 0.0 then x.Floor else -((-x).Floor)
  }

  function StagesSucceeded(stages: Stages): bool {
    stages == Stages(Succeeded, Succeeded, Succeeded, Succeeded)
  }
}
