/** What the frame-stream validator guarantees, and what follows for accounting and metrics. */
module D1Stream {
  import opened Wrappers
  import opened D1Types
  import opened D1Rank
  import opened D1Evaluator

  /** What goes with a disposition: a processed frame completed between its capture and the end of
      the run, a dropped one has a reason and a failed one a code, and nothing else is given. */
  ghost predicate FieldsOk(runEnd: int, item: Observation) {
    && (item.disposition == Processed <==> item.processed.Some?)
    && (item.disposition == DroppedExplicit <==> item.dropReason.Some?)
    && (item.disposition == FailedFrame <==> item.failureCode.Some?)
    && (item.processed.Some? ==> item.captured <= item.processed.value <= runEnd)
  }

  /** One frame on its own. */
  ghost predicate FrameOk(kind: InputKind, runEnd: int, item: Observation) {
    && item.sourceKind == kind && 0 <= item.captured <= runEnd
    && FieldsOk(runEnd, item)
    && (item.qualityInsufficient ==> item.disposition == Processed)
  }

  ghost predicate FramesOk(kind: InputKind, runEnd: int, items: seq<Observation>) {
    forall i :: 0 <= i < |items| ==> FrameOk(kind, runEnd, items[i])
  }

  /** Captures move forward by less than a second at a time. */
  ghost predicate Paced(items: seq<Observation>) {
    forall i :: 0 <= i < |items| - 1 ==> 0 < items[i + 1].captured - items[i].captured < SECOND
  }

  /** Processed frames complete in the order they were captured, at different times. */
  ghost predicate Ordered(items: seq<Observation>) {
    forall i, j :: 0 <= i < j < |items| ==> CompletesBefore(items[i], items[j])
  }

  ghost predicate IsCompleted(item: Observation) {
    item.disposition == Processed && item.processed.Some?
  }

  ghost predicate CompletesBefore(a: Observation, b: Observation) {
    IsCompleted(a) && IsCompleted(b) ==> a.processed.value < b.processed.value
  }

  ghost predicate AllLater(time: Option<int>, items: seq<Observation>) {
    forall j :: 0 <= j < |items| && time.Some? && IsCompleted(items[j]) ==> time.value < items[j].processed.value
  }

  ghost predicate AllComplete(first: Observation, items: seq<Observation>) {
    forall j :: 0 <= j < |items| ==> CompletesBefore(first, items[j])
  }

  ghost predicate SoundStream(kind: InputKind, runEnd: int, items: seq<Observation>) {
    FramesOk(kind, runEnd, items) && Paced(items) && Ordered(items)
  }

  ghost predicate AfterCursor(cursor: Cursor, items: seq<Observation>) {
    && (cursor.capture.Some? && items != [] ==> 0 < items[0].captured - cursor.capture.value < SECOND)
    && AllLater(cursor.processed, items)
  }

  lemma {:induction false} ConsFrames(kind: InputKind, runEnd: int, items: seq<Observation>)
    requires items != []
    ensures FramesOk(kind, runEnd, items) <==> FrameOk(kind, runEnd, items[0]) && FramesOk(kind, runEnd, items[1..])
  {
    if FramesOk(kind, runEnd, items) {
      forall i | 0 <= i < |items[1..]| ensures FrameOk(kind, runEnd, items[1..][i]) { assert items[1..][i] == items[i + 1]; }
    } else if FramesOk(kind, runEnd, items[1..]) {
      forall i | 1 <= i < |items| ensures FrameOk(kind, runEnd, items[i]) { assert items[i] == items[1..][i - 1]; }
    }
  }

  lemma ConsPaced(items: seq<Observation>)
    requires items != []
    ensures Paced(items) <==> Paced(items[1..]) && (|items| > 1 ==> 0 < items[1].captured - items[0].captured < SECOND)
  {
    var rest := items[1..];
    if Paced(items) {
      forall i | 0 <= i < |rest| - 1 ensures 0 < rest[i + 1].captured - rest[i].captured < SECOND {
        assert rest[i] == items[i + 1] && rest[i + 1] == items[i + 1 + 1];
      }
      if |items| > 1 { assert 0 < items[0 + 1].captured - items[0].captured < SECOND; }
    }
    if Paced(rest) && (|items| > 1 ==> 0 < items[1].captured - items[0].captured < SECOND) {
      forall i | 0 <= i < |items| - 1 ensures 0 < items[i + 1].captured - items[i].captured < SECOND {
        if i > 0 { assert items[i] == rest[i - 1] && items[i + 1] == rest[i - 1 + 1]; }
      }
    }
  }

  lemma ConsOrdered(items: seq<Observation>)
    requires items != []
    ensures Ordered(items) <==> Ordered(items[1..]) && AllComplete(items[0], items[1..])
  {
    var rest := items[1..];
    assert forall j :: 0 <= j < |rest| ==> rest[j] == items[j + 1];
    assert forall j :: 1 <= j < |items| ==> items[j] == rest[j - 1];
  }

  /** The validator accepts a stream exactly when it is sound. */
  lemma {:induction false} CheckIsSound(kind: InputKind, runEnd: int, cursor: Cursor, items: seq<Observation>)
    ensures CheckStream(kind, runEnd, cursor, items).None? <==> SoundStream(kind, runEnd, items) && AfterCursor(cursor, items)
    decreases |items|
  {
    if items != [] {
      var item, rest := items[0], items[1..];
      ConsFrames(kind, runEnd, items);
      ConsPaced(items);
      ConsOrdered(items);
      CheckIsSound(kind, runEnd, Move(cursor, item), rest);
      hide FramesOk, Paced, Ordered;
      CursorMoves(kind, runEnd, cursor, items);
    }
  }

  lemma CursorMoves(kind: InputKind, runEnd: int, cursor: Cursor, items: seq<Observation>)
    requires items != []
    ensures CheckItem(kind, runEnd, cursor, items[0]).None? && AfterCursor(Move(cursor, items[0]), items[1..])
      <==> FrameOk(kind, runEnd, items[0]) && AfterCursor(cursor, items)
           && (|items| > 1 ==> 0 < items[1].captured - items[0].captured < SECOND)
           && AllComplete(items[0], items[1..])
  {
    var rest := items[1..];
    assert forall j :: 0 <= j < |rest| ==> rest[j] == items[j + 1];
    assert forall j :: 1 <= j < |items| ==> items[j] == rest[j - 1];
  }

  // ---- The warm-up split ----

  lemma {:induction false} CapturesAscend(items: seq<Observation>, i: nat, j: nat)
    requires Paced(items) && i < j < |items|
    ensures items[i].captured < items[j].captured
    decreases j
  {
    assert 0 < items[j - 1 + 1].captured - items[j - 1].captured;
    if i < j - 1 { CapturesAscend(items, i, j - 1); }
  }

  lemma AllLate(items: seq<Observation>, boundary: int)
    requires Paced(items) && items != [] && items[0].captured >= boundary
    ensures EarlierThan(items, boundary) == [] && NotEarlierThan(items, boundary) == items
  {
    forall j | 0 <= j < |items| ensures items[j].captured >= boundary {
      if j > 0 { CapturesAscend(items, 0, j); }
    }
    hide Paced;
    NoneEarlier(items, boundary);
  }

  /** For a stream that moves forward the two filters cut it in two pieces. */
  lemma {:induction false} SplitIsACut(items: seq<Observation>, boundary: int)
    requires Paced(items)
    ensures EarlierThan(items, boundary) + NotEarlierThan(items, boundary) == items
  {
    if items != [] {
      ConsPaced(items);
      if items[0].captured >= boundary {
        AllLate(items, boundary);
      } else {
        hide Paced;
        SplitIsACut(items[1..], boundary);
        var early, late := EarlierThan(items[1..], boundary), NotEarlierThan(items[1..], boundary);
        assert EarlierThan(items, boundary) == [items[0]] + early && NotEarlierThan(items, boundary) == late;
        assert ([items[0]] + early) + late == [items[0]] + (early + late);
        assert items == [items[0]] + items[1..];
      }
    }
  }

  /** The cut lies at the boundary: earlier frames go before it and the others after it. */
  lemma {:induction false} CutAtBoundary(items: seq<Observation>, boundary: int, i: nat)
    requires Paced(items) && i < |items|
    ensures items[i].captured < boundary <==> i < |EarlierThan(items, boundary)|
    decreases items
  {
    if items[0].captured >= boundary {
      AllLate(items, boundary);
      if i > 0 { CapturesAscend(items, 0, i); }
    } else if i > 0 {
      ConsPaced(items);
      hide Paced;
      CutAtBoundary(items[1..], boundary, i - 1);
    }
  }

  lemma {:induction false} NoneEarlier(items: seq<Observation>, boundary: int)
    requires forall j :: 0 <= j < |items| ==> items[j].captured >= boundary
    ensures EarlierThan(items, boundary) == [] && NotEarlierThan(items, boundary) == items
  {
    if items != [] {
      NoneEarlier(items[1..], boundary);
      assert items == [items[0]] + items[1..];
    }
  }

  lemma PiecesSound(kind: InputKind, runEnd: int, warmup: seq<Observation>, post: seq<Observation>)
    requires SoundStream(kind, runEnd, warmup + post)
    ensures SoundStream(kind, runEnd, warmup) && SoundStream(kind, runEnd, post)
  {
    var items := warmup + post;
    assert forall i :: 0 <= i < |warmup| ==> items[i] == warmup[i];
    assert forall i :: 0 <= i < |post| ==> items[|warmup| + i] == post[i];
    forall i | 0 <= i < |post| - 1 ensures 0 < post[i + 1].captured - post[i].captured < SECOND {
      assert 0 < items[|warmup| + i + 1].captured - items[|warmup| + i].captured < SECOND;
    }
    forall i | 0 <= i < |warmup| - 1 ensures 0 < warmup[i + 1].captured - warmup[i].captured < SECOND {
      assert 0 < items[i + 1].captured - items[i].captured < SECOND;
    }
    forall i, j | 0 <= i < j < |post| ensures CompletesBefore(post[i], post[j]) {
      assert CompletesBefore(items[|warmup| + i], items[|warmup| + j]);
    }
  }

  // ---- Accounting ----

  /** Every delivered frame is processed, dropped or failed; the reasons add up to the drops. */
  lemma {:induction false} AccountingAddsUp(kind: InputKind, runEnd: int, items: seq<Observation>)
    requires FramesOk(kind, runEnd, items)
    ensures CountDisposition(items, Processed) + CountDisposition(items, DroppedExplicit) + CountDisposition(items, FailedFrame) == |items|
    ensures CountDropReasons(items) == CountDisposition(items, DroppedExplicit)
    ensures CountQuality(items) <= CountDisposition(items, Processed)
  {
    if items != [] {
      var n := |items| - 1;
      assert FrameOk(kind, runEnd, items[n]);
      assert FramesOk(kind, runEnd, items[..n]);
      AccountingAddsUp(kind, runEnd, items[..n]);
    }
  }

  lemma {:induction false} NoQuality(items: seq<Observation>)
    requires forall i :: 0 <= i < |items| ==> !items[i].qualityInsufficient
    ensures CountQuality(items) == 0
  {
    if items != [] { NoQuality(items[..|items| - 1]); }
  }

  // ---- Backlog ----

  lemma {:induction false} ProcessedInOrder(items: seq<Observation>)
    requires Ordered(items)
    ensures Ordered(ProcessedOf(items))
    ensures forall x :: x in ProcessedOf(items) <==> x in items && x.disposition == Processed
  {
    if items != [] {
      ConsOrdered(items);
      ProcessedInOrder(items[1..]);
      var rest := ProcessedOf(items[1..]);
      assert items == [items[0]] + items[1..];
      forall j | 0 <= j < |rest| ensures CompletesBefore(items[0], rest[j]) {
        assert rest[j] in rest;
        var k :| 0 <= k < |items[1..]| && items[1..][k] == rest[j];
      }
    }
  }

  lemma {:induction false} LatestIsLast(processed: seq<Observation>)
    requires processed != [] && Ordered(processed)
    requires forall i :: 0 <= i < |processed| ==> IsCompleted(processed[i]) && processed[i].processed.value >= 0
    ensures LatestCompleted(processed) == processed[|processed| - 1]
  {
    var n := |processed| - 1;
    if n > 0 {
      var earlier := processed[..n];
      assert forall i, j :: 0 <= i < j < n ==> earlier[i] == processed[i] && earlier[j] == processed[j];
      LatestIsLast(earlier);
      assert CompletesBefore(processed[n - 1], processed[n]);
    }
  }

  lemma {:induction false} LastProcessed(items: seq<Observation>)
    requires ProcessedOf(items) != []
    ensures var last := ProcessedOf(items)[|ProcessedOf(items)| - 1];
            exists i :: 0 <= i < |items| && items[i] == last && last.disposition == Processed
              && forall j :: i < j < |items| ==> items[j].disposition != Processed
  {
    var rest := ProcessedOf(items[1..]);
    if rest != [] {
      LastProcessed(items[1..]);
      var i :| 0 <= i < |items[1..]| && items[1..][i] == rest[|rest| - 1]
        && forall j :: i < j < |items[1..]| ==> items[1..][j].disposition != Processed;
      assert items[i + 1] == rest[|rest| - 1];
      forall j | i + 1 < j < |items| ensures items[j].disposition != Processed { assert items[j] == items[1..][j - 1]; }
    } else {
      NoneProcessed(items[1..]);
      forall j | 0 < j < |items| ensures items[j].disposition != Processed { assert items[j] == items[1..][j - 1]; }
      assert items[0] == ProcessedOf(items)[0];
    }
  }

  lemma {:induction false} NoneProcessed(items: seq<Observation>)
    requires ProcessedOf(items) == []
    ensures forall j :: 0 <= j < |items| ==> items[j].disposition != Processed
  {
    if items != [] {
      NoneProcessed(items[1..]);
      forall j | 1 <= j < |items| ensures items[j].disposition != Processed { assert items[j] == items[1..][j - 1]; }
    }
  }

  /** The backlog is the last delivered capture minus the capture of the last processed frame,
      and is never negative for a sound stream. */
  lemma BacklogIsLastMinusLastProcessed(kind: InputKind, runEnd: int, post: seq<Observation>)
    requires SoundStream(kind, runEnd, post) && ProcessedOf(post) != []
    ensures exists i :: 0 <= i < |post| && LatestCompleted(ProcessedOf(post)) == post[i] && post[i].disposition == Processed
              && (forall j :: i < j < |post| ==> post[j].disposition != Processed)
              && post[|post| - 1].captured >= post[i].captured
  {
    hide FramesOk, Paced, Ordered, LatestCompleted, ProcessedOf;
    LatestProcessedIsLast(kind, runEnd, post);
    LastProcessed(post);
    var processed := ProcessedOf(post);
    var i :| 0 <= i < |post| && post[i] == processed[|processed| - 1] && post[i].disposition == Processed
      && forall j :: i < j < |post| ==> post[j].disposition != Processed;
    if i < |post| - 1 { CapturesAscend(post, i, |post| - 1); }
    assert LatestCompleted(ProcessedOf(post)) == post[i];
  }

  lemma LatestProcessedIsLast(kind: InputKind, runEnd: int, post: seq<Observation>)
    requires SoundStream(kind, runEnd, post) && ProcessedOf(post) != []
    ensures LatestCompleted(ProcessedOf(post)) == ProcessedOf(post)[|ProcessedOf(post)| - 1]
  {
    var processed := ProcessedOf(post);
    ProcessedInOrder(post);
    forall k | 0 <= k < |processed| ensures IsCompleted(processed[k]) && processed[k].processed.value >= 0 {
      assert processed[k] in processed;
      var m :| 0 <= m < |post| && post[m] == processed[k];
      assert FrameOk(kind, runEnd, post[m]);
    }
    hide FramesOk, Paced, ProcessedOf;
    LatestIsLast(processed);
  }
}
