/** Which failure code the frame stream gets, and what the failure counts of a receipt are. */
module D1Failures {
  import opened Wrappers
  import opened D1Types
  import opened D1Tally
  import opened D1Evaluator
  import opened D1Stream
  import opened D1Agreement
  import J = Json

  // ---- The first bad frame ----

  ghost predicate CompletedBefore(items: seq<Observation>, i: nat, time: int)
    requires i <= |items|
  {
    exists j :: 0 <= j < i && IsCompleted(items[j]) && items[j].processed.value >= time
  }

  /** What is wrong with a frame, given the frames before it. */
  ghost function BadFrame(kind: InputKind, runEnd: int, items: seq<Observation>, i: nat): Option<FailureCode>
    requires i < |items|
  {
    var item := items[i];
    if item.sourceKind != kind || !(0 <= item.captured <= runEnd) then Some(SchemaIncompatible)
    else if i > 0 && item.captured < items[i - 1].captured then Some(ClockRegression)
    else if i > 0 && (item.captured == items[i - 1].captured || item.captured >= items[i - 1].captured + SECOND) then Some(FrameStalled)
    else if !FieldsOk(runEnd, item) then Some(SchemaIncompatible)
    else if item.processed.Some? && CompletedBefore(items, i, item.processed.value) then Some(ClockRegression)
    else if item.qualityInsufficient && item.disposition != Processed then Some(SchemaIncompatible)
    else None
  }

  ghost predicate FirstBad(kind: InputKind, runEnd: int, items: seq<Observation>, i: nat) {
    i < |items| && BadFrame(kind, runEnd, items, i).Some? && forall j :: 0 <= j < i ==> BadFrame(kind, runEnd, items, j).None?
  }

  /** The cursor after `k` frames without fault: the last capture and the latest completion. */
  ghost predicate CursorAt(items: seq<Observation>, k: nat, cursor: Cursor)
    requires k <= |items|
  {
    && cursor.capture == (if k > 0 then Some(items[k - 1].captured) else None)
    && (forall j :: 0 <= j < k && IsCompleted(items[j]) ==> cursor.processed.Some? && items[j].processed.value <= cursor.processed.value)
    && (cursor.processed.Some? ==> exists j :: 0 <= j < k && IsCompleted(items[j]) && items[j].processed == cursor.processed)
  }

  lemma CheckIsBadFrame(kind: InputKind, runEnd: int, items: seq<Observation>, k: nat, cursor: Cursor)
    requires k < |items| && CursorAt(items, k, cursor)
    ensures CheckItem(kind, runEnd, cursor, items[k]) == BadFrame(kind, runEnd, items, k)
  {
    var item := items[k];
    if item.processed.Some? && CompletedBefore(items, k, item.processed.value) {
      var j :| 0 <= j < k && IsCompleted(items[j]) && items[j].processed.value >= item.processed.value;
    }
  }

  lemma CursorGoesOn(kind: InputKind, runEnd: int, items: seq<Observation>, k: nat, cursor: Cursor)
    requires k < |items| && CursorAt(items, k, cursor) && CheckItem(kind, runEnd, cursor, items[k]).None?
    ensures CursorAt(items, k + 1, Move(cursor, items[k]))
  {
    if items[k].disposition != Processed && cursor.processed.Some? {
      var j :| 0 <= j < k && IsCompleted(items[j]) && items[j].processed == cursor.processed;
    } else if items[k].disposition == Processed {
      assert IsCompleted(items[k]);
    }
  }

  lemma {:induction false} CheckFrom(kind: InputKind, runEnd: int, items: seq<Observation>, k: nat, cursor: Cursor)
    requires k <= |items| && CursorAt(items, k, cursor) && forall j :: 0 <= j < k ==> BadFrame(kind, runEnd, items, j).None?
    ensures var failure := CheckStream(kind, runEnd, cursor, items[k..]);
            if failure.Some? then exists i :: FirstBad(kind, runEnd, items, i) && BadFrame(kind, runEnd, items, i) == failure
            else forall i :: 0 <= i < |items| ==> BadFrame(kind, runEnd, items, i).None?
    decreases |items| - k
  {
    if k < |items| {
      CheckIsBadFrame(kind, runEnd, items, k, cursor);
      assert items[k..][0] == items[k] && items[k..][1..] == items[k + 1..];
      if CheckItem(kind, runEnd, cursor, items[k]).None? {
        CursorGoesOn(kind, runEnd, items, k, cursor);
        hide CheckItem, Move, CursorAt, BadFrame;
        CheckFrom(kind, runEnd, items, k + 1, Move(cursor, items[k]));
      } else {
        assert FirstBad(kind, runEnd, items, k);
      }
    }
  }

  /** The validator answers the code of the first bad frame, and nothing if there is none. */
  lemma StreamCode(kind: InputKind, runEnd: int, items: seq<Observation>, i: nat)
    requires FirstBad(kind, runEnd, items, i)
    ensures CheckStream(kind, runEnd, START, items) == BadFrame(kind, runEnd, items, i)
    ensures !SoundStream(kind, runEnd, items)
  {
    assert items[0..] == items;
    assert CursorAt(items, 0, START);
    CheckFrom(kind, runEnd, items, 0, START);
    hide BadFrame, CheckStream, CursorAt;
    var failure := CheckStream(kind, runEnd, START, items);
    assert failure.Some?;
    var j: nat :| FirstBad(kind, runEnd, items, j) && BadFrame(kind, runEnd, items, j) == failure;
    assert i == j;
    CheckIsSound(kind, runEnd, START, items);
  }

  /** A stream that is not sound has a first bad frame. */
  lemma UnsoundHasBad(kind: InputKind, runEnd: int, items: seq<Observation>)
    requires !SoundStream(kind, runEnd, items)
    ensures exists i :: FirstBad(kind, runEnd, items, i)
  {
    assert items[0..] == items;
    assert CursorAt(items, 0, START);
    CheckFrom(kind, runEnd, items, 0, START);
    CheckIsSound(kind, runEnd, START, items);
    assert AfterCursor(START, items);
    hide BadFrame, CheckStream, CursorAt, SoundStream;
  }

  // ---- Failure counts ----

  ghost function NamesCode(items: seq<Observation>, code: FailureCode): nat -> bool {
    (i: nat) => i < |items| && items[i].failureCode == Some(code)
  }

  ghost function IsFlagged(items: seq<Observation>): nat -> bool {
    (i: nat) => i < |items| && items[i].qualityInsufficient
  }

  ghost function IsCode(codes: seq<FailureCode>, code: FailureCode): nat -> bool {
    (i: nat) => i < |codes| && codes[i] == code
  }

  ghost function InFrames(items: seq<Observation>, code: FailureCode): nat {
    Tally(|items|, NamesCode(items, code)) + (if code == QualityInsufficient then Tally(|items|, IsFlagged(items)) else 0)
  }

  /** How often a code occurs in a request: in frames, as a quality flag, and injected. */
  ghost function Occurrences(request: Request, code: FailureCode): nat {
    InFrames(request.observations, code) + Tally(|request.injected|, IsCode(request.injected, code))
  }

  function CountIn(counts: map<FailureCode, int>, code: FailureCode): int {
    if code in counts then counts[code] else 0
  }

  lemma {:induction false} ItemCounts(counts: map<FailureCode, int>, items: seq<Observation>, code: FailureCode)
    ensures CountIn(BumpItems(counts, items), code) == CountIn(counts, code) + InFrames(items, code)
  {
    if items != [] {
      var earlier := items[..|items| - 1];
      ItemCounts(counts, earlier, code);
      InFramesStep(items, code);
      hide InFrames;
    }
  }

  lemma InFramesStep(items: seq<Observation>, code: FailureCode)
    requires items != []
    ensures var last := items[|items| - 1];
            InFrames(items, code) == InFrames(items[..|items| - 1], code)
              + (if last.failureCode == Some(code) then 1 else 0) + (if code == QualityInsufficient && last.qualityInsufficient then 1 else 0)
  {
    var n := |items| - 1;
    TallySame(n, NamesCode(items, code), NamesCode(items[..n], code));
    TallySame(n, IsFlagged(items), IsFlagged(items[..n]));
  }

  lemma {:induction false} CodeCounts(counts: map<FailureCode, int>, codes: seq<FailureCode>, code: FailureCode)
    ensures CountIn(BumpCodes(counts, codes), code) == CountIn(counts, code) + Tally(|codes|, IsCode(codes, code))
  {
    if codes != [] {
      var n := |codes| - 1;
      CodeCounts(counts, codes[..n], code);
      TallySame(n, IsCode(codes, code), IsCode(codes[..n], code));
    }
  }

  lemma {:induction false} SortedItemsExact(counts: map<FailureCode, int>, k: nat, i: nat)
    requires k <= 20 && i < |SortedItems(counts, k)|
    ensures var (code, n) := SortedItems(counts, k)[i]; code in counts && counts[code] == n
    decreases 20 - k
  {
    if CODES[k] in counts {
      if i > 0 { SortedItemsExact(counts, k + 1, i - 1); }
    } else {
      SortedItemsExact(counts, k + 1, i);
    }
  }

  /** The failure counts list every code that occurs, with the number of times it does, in
      alphabetical order of the names. */
  lemma CountsAreOccurrences(request: Request)
    ensures var counts := FailureCounts(request, false);
            && Strict(counts)
            && (forall i :: 0 <= i < |counts| ==> counts[i].1 == Occurrences(request, counts[i].0) > 0)
            && (forall code :: Occurrences(request, code) > 0 <==> Named(counts, code))
  {
    var tally := BumpCodes(BumpItems(map[], request.observations), request.injected);
    var counts := FailureCounts(request, false);
    BumpedPositive(map[], request.observations);
    BumpedCodesPositive(BumpItems(map[], request.observations), request.injected);
    SortedItemsStrict(tally, 0);
    forall code ensures CountIn(tally, code) == Occurrences(request, code) && (Named(counts, code) <==> code in tally) {
      ItemCounts(map[], request.observations, code);
      CodeCounts(BumpItems(map[], request.observations), request.injected, code);
      SortedItemsNamed(tally, 0, code);
    }
    hide SortedItems, BumpItems, BumpCodes, Occurrences, Strict, Named;
    forall i | 0 <= i < |counts| ensures counts[i].1 == Occurrences(request, counts[i].0) > 0 {
      SortedItemsExact(tally, 0, i);
      assert Positive(tally);
    }
  }

  // ---- The alphabet ----

  function Name(code: FailureCode): string {
    match code
    case InputUnavailable => "INPUT_UNAVAILABLE"
    case InputMalformed => "INPUT_MALFORMED"
    case FrameStalled => "FRAME_STALLED"
    case ClockRegression => "CLOCK_REGRESSION"
    case PoseEngineUnavailable => "POSE_ENGINE_UNAVAILABLE"
    case PoseEngineException => "POSE_ENGINE_EXCEPTION"
    case PoseOutputInvalid => "POSE_OUTPUT_INVALID"
    case QualityInsufficient => "QUALITY_INSUFFICIENT"
    case EncoderUnavailable => "ENCODER_UNAVAILABLE"
    case EncoderWriteFailed => "ENCODER_WRITE_FAILED"
    case EncoderFinalizeFailed => "ENCODER_FINALIZE_FAILED"
    case DiskUnavailable => "DISK_UNAVAILABLE"
    case DiskSpaceInsufficient => "DISK_SPACE_INSUFFICIENT"
    case DiskThroughputInsufficient => "DISK_THROUGHPUT_INSUFFICIENT"
    case DiskFsyncFailed => "DISK_FSYNC_FAILED"
    case AtomicRenameFailed => "ATOMIC_RENAME_FAILED"
    case ManifestValidationFailed => "MANIFEST_VALIDATION_FAILED"
    case SchemaIncompatible => "SCHEMA_INCOMPATIBLE"
    case PrivacyStop => "PRIVACY_STOP"
    case UnknownTechnicalFailure => "UNKNOWN_TECHNICAL_FAILURE"
  }

  // The places are the alphabetical order of the names: each name is less than the next.

  lemma AlphabetA()
    ensures J.LessAt(Name(AtomicRenameFailed), Name(ClockRegression), 0) && Place(AtomicRenameFailed) == 0 && Place(ClockRegression) == 1
    ensures J.LessAt(Name(ClockRegression), Name(DiskFsyncFailed), 0) && Place(ClockRegression) == 1 && Place(DiskFsyncFailed) == 2
    ensures J.LessAt(Name(DiskFsyncFailed), Name(DiskSpaceInsufficient), 5) && Place(DiskFsyncFailed) == 2 && Place(DiskSpaceInsufficient) == 3
    ensures J.LessAt(Name(DiskSpaceInsufficient), Name(DiskThroughputInsufficient), 5) && Place(DiskSpaceInsufficient) == 3 && Place(DiskThroughputInsufficient) == 4
    ensures J.LessAt(Name(DiskThroughputInsufficient), Name(DiskUnavailable), 5) && Place(DiskThroughputInsufficient) == 4 && Place(DiskUnavailable) == 5
  {
  }

  lemma AlphabetB()
    ensures J.LessAt(Name(DiskUnavailable), Name(EncoderFinalizeFailed), 0) && Place(DiskUnavailable) == 5 && Place(EncoderFinalizeFailed) == 6
    ensures J.LessAt(Name(EncoderFinalizeFailed), Name(EncoderUnavailable), 8) && Place(EncoderFinalizeFailed) == 6 && Place(EncoderUnavailable) == 7
    ensures J.LessAt(Name(EncoderUnavailable), Name(EncoderWriteFailed), 8) && Place(EncoderUnavailable) == 7 && Place(EncoderWriteFailed) == 8
    ensures J.LessAt(Name(EncoderWriteFailed), Name(FrameStalled), 0) && Place(EncoderWriteFailed) == 8 && Place(FrameStalled) == 9
    ensures J.LessAt(Name(FrameStalled), Name(InputMalformed), 0) && Place(FrameStalled) == 9 && Place(InputMalformed) == 10
  {
  }

  lemma AlphabetC()
    ensures J.LessAt(Name(InputMalformed), Name(InputUnavailable), 6) && Place(InputMalformed) == 10 && Place(InputUnavailable) == 11
    ensures J.LessAt(Name(InputUnavailable), Name(ManifestValidationFailed), 0) && Place(InputUnavailable) == 11 && Place(ManifestValidationFailed) == 12
    ensures J.LessAt(Name(ManifestValidationFailed), Name(PoseEngineException), 0) && Place(ManifestValidationFailed) == 12 && Place(PoseEngineException) == 13
    ensures J.LessAt(Name(PoseEngineException), Name(PoseEngineUnavailable), 12) && Place(PoseEngineException) == 13 && Place(PoseEngineUnavailable) == 14
    ensures J.LessAt(Name(PoseEngineUnavailable), Name(PoseOutputInvalid), 5) && Place(PoseEngineUnavailable) == 14 && Place(PoseOutputInvalid) == 15
  {
  }

  lemma AlphabetD()
    ensures J.LessAt(Name(PoseOutputInvalid), Name(PrivacyStop), 1) && Place(PoseOutputInvalid) == 15 && Place(PrivacyStop) == 16
    ensures J.LessAt(Name(PrivacyStop), Name(QualityInsufficient), 0) && Place(PrivacyStop) == 16 && Place(QualityInsufficient) == 17
    ensures J.LessAt(Name(QualityInsufficient), Name(SchemaIncompatible), 0) && Place(QualityInsufficient) == 17 && Place(SchemaIncompatible) == 18
    ensures J.LessAt(Name(SchemaIncompatible), Name(UnknownTechnicalFailure), 0) && Place(SchemaIncompatible) == 18 && Place(UnknownTechnicalFailure) == 19
  {
  }

  /** Sorting by place is sorting by name. */
  lemma PlacesAreAlphabetical(a: FailureCode, b: FailureCode)
    requires Place(b) == Place(a) + 1
    ensures J.Less(Name(a), Name(b))
  {
    PlaceOfCode(a);
    PlaceOfCode(b);
    AlphabetA();
    AlphabetB();
    AlphabetC();
    AlphabetD();
    hide Name, J.LessAt;
    LessHere(Name(a), Name(b));
  }

  lemma LessHere(a: string, b: string)
    ensures forall i :: J.LessAt(a, b, i) ==> J.Less(a, b)
  {
  }
}
