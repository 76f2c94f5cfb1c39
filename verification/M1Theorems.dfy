/** The main results about the M1 store, for every run of calls from the empty store. */
module M1Theorems {
  import opened Wrappers
  import opened Lineage
  import opened M1Tables
  import opened M1Operations
  import opened M1Invariants
  import opened M1History

  ghost predicate Reachable(db: Db, hash: Hash) {
    exists ops :: db == Run(EMPTY_DB, hash, ops)
  }

  lemma ReachableInv(db: Db, hash: Hash)
    requires Reachable(db, hash)
    ensures Inv(db, hash)
  {
    var ops :| db == Run(EMPTY_DB, hash, ops);
    EmptyStore(hash);
    RunKeeps(EMPTY_DB, hash, ops);
  }

  lemma ReachableStep(db: Db, hash: Hash, more: seq<Op>)
    requires Reachable(db, hash)
    ensures Reachable(Run(db, hash, more), hash)
  {
    var ops :| db == Run(EMPTY_DB, hash, ops);
    RunAppend(EMPTY_DB, hash, ops, more);
  }

  // ---- Lineage ----

  /** An artifact is invalidated exactly when a dependency path leads to it from an artifact
      of some withdrawn participant, whatever cycles the dependency edges form. */
  lemma InvalidatedIffReachable(db: Db, hash: Hash, a: Id)
    requires Reachable(db, hash) && a in db.artifacts
    ensures db.artifacts[a].status == Invalidated
      <==> exists path: seq<Id> :: IsPath(db.dependencies, path) && path[|path| - 1] == a
             && Owner(db, path[0]).Some? && IsWithdrawn(db, Owner(db, path[0]).value)
  {
    ReachableInv(db, hash);
    var roots := WithdrawnRoots(db);
    if path: seq<Id> :| IsPath(db.dependencies, path) && path[|path| - 1] == a
                       && Owner(db, path[0]).Some? && IsWithdrawn(db, Owner(db, path[0]).value) {
      ReachableIsInClosure(db.dependencies, roots, path);
    }
    if a in Closure(db.dependencies, roots) {
      var path: seq<Id> :| IsPath(db.dependencies, path) && path[0] in roots && path[|path| - 1] == a;
      assert Owner(db, path[0]).Some?;
    }
  }

  // ---- Frozen withdrawals ----

  lemma {:induction false} SubsetOfEqualSize<T>(small: set<T>, large: set<T>)
    requires small <= large && |small| == |large|
    ensures small == large
  {
    assert large == small + (large - small);
  }

  lemma PairsDetermine(subject: Id, left: set<Id>, right: set<Id>)
    requires Pairs(subject, left) == Pairs(subject, right)
    ensures left == right
  {
    forall a | a in left ensures a in right { assert (subject, a) in Pairs(subject, right); }
    forall a | a in right ensures a in left { assert (subject, a) in Pairs(subject, left); }
  }

  lemma SettledCount(db: Db, p: Id)
    requires Settled(db) && p in db.receipts
    ensures db.receipts[p].response == CanonicalResponse(db.receipts[p].id, db.participants[p].pseudonym, |TasksOf(db, p)|)
    ensures |TasksOf(db, p)| == |LineageOf(db, p)|
  {
    assert SettledFor(db, p);
    PairCount(db.receipts[p].subject, LineageOf(db, p));
  }

  lemma TasksGrow(before: Db, after: Db, p: Id)
    requires Grows(before, after)
    ensures TasksOf(before, p) <= TasksOf(after, p)
  {
  }

  /** Once a participant is withdrawn, later calls leave the receipt, the tasks and the lineage
      of that withdrawal as they are, and the reported count stays the size of both. */
  lemma WithdrawalIsFrozen(db: Db, hash: Hash, more: seq<Op>, p: Id)
    requires Reachable(db, hash) && p in db.receipts
    ensures var later := Run(db, hash, more);
            && p in later.receipts && later.receipts[p] == db.receipts[p]
            && LineageOf(later, p) == LineageOf(db, p)
            && TasksOf(later, p) == TasksOf(db, p) == Pairs(db.receipts[p].subject, LineageOf(later, p))
            && db.receipts[p].response.WithdrawalReply?
            && db.receipts[p].response.taskCount == |TasksOf(later, p)| == |LineageOf(later, p)|
  {
    var later := Run(db, hash, more);
    ReachableStep(db, hash, more);
    ReachableInv(db, hash);
    ReachableInv(later, hash);
    RunGrows(db, hash, more);
    TasksGrow(db, later, p);
    hide Reachable, Run, Shape, LineageAgrees, WithdrawalSlots, LineageOf, TasksOf;
    SettledCount(db, p);
    SettledCount(later, p);
    SubsetOfEqualSize(TasksOf(db, p), TasksOf(later, p));
    assert SettledFor(db, p) && SettledFor(later, p);
    hide Pairs;
    PairsDetermine(db.receipts[p].subject, LineageOf(db, p), LineageOf(later, p));
  }

  /** The status of a session counts the lineage of its withdrawn participant, or nothing; once it is
      terminal it is the same reply in every later store. */
  lemma StatusCountsLineage(db: Db, hash: Hash, more: seq<Op>, session: Id)
    requires Reachable(db, hash) && IsResearch(db, session)
    ensures StatusReply(db, session).Ok? && StatusTells(db, ParticipantOf(db, session), StatusReply(db, session).value)
    ensures StatusReply(db, session).value.terminal ==> StatusReply(Run(db, hash, more), session) == StatusReply(db, session)
  {
    ReachableInv(db, hash);
    RunGrows(db, hash, more);
    hide Reachable, Run, Shape, LineageAgrees, WithdrawalSlots, LineageOf, TasksOf;
    StatusIsSettled(db, session);
    hide Settled;
  }

  /** Withdrawal cannot be undone: every session of the participant, including those opened
      before and touched by crash recovery since, stays withdrawn and blocked. */
  lemma WithdrawalIsTerminal(db: Db, hash: Hash, more: seq<Op>, p: Id, s: Id)
    requires Reachable(db, hash) && IsWithdrawn(db, p)
    ensures var later := Run(db, hash, more);
            && IsWithdrawn(later, p)
            && (s in later.sessions && later.sessions[s].participant == Some(p) ==>
                  s in db.sessions && later.sessions[s].state == Withdrawn && later.sessions[s].collectionBlocked)
  {
    ReachableInv(db, hash);
    assert p in db.receipts && SettledFor(db, p);
    var later := Run(db, hash, more);
    ReachableStep(db, hash, more);
    ReachableInv(later, hash);
    RunGrows(db, hash, more);
    hide Run, Reachable, LineageOf, TasksOf, Shape, LineageAgrees, WithdrawalSlots;
    assert p in later.receipts && SettledFor(later, p);
  }

  /** No research session is ever recording, on any run. */
  lemma ResearchNeverRecords(db: Db, hash: Hash, s: Id)
    requires Reachable(db, hash) && s in db.sessions && db.sessions[s].kind == Research
    ensures db.sessions[s].state in {Draft, ConsentConfirmed, Failed, Withdrawn}
  {
    ReachableInv(db, hash);
    assert SessionOk(db.participants, db.sessions[s]);
  }

  /** With no research session there is no consent receipt, although the readiness check counts
      a table name, `consent_records`, that the schema does not have. */
  lemma NoResearchNoConsents(db: Db, hash: Hash)
    requires Reachable(db, hash)
    requires forall s :: s in db.sessions ==> db.sessions[s].kind != Research
    ensures db.consents == map[]
  {
    ReachableInv(db, hash);
    hide SessionsOk, ArtifactsLinked, WithdrawalsLinked, Settled, LineageAgrees;
    assert db.consents.Keys == {};
  }

  // ---- Event logs ----

  lemma {:induction false} RowsAreLog(db: Db, session: Id, after: nat)
    requires session in db.sessions && GapFree(db, session) && after <= db.sessions[session].eventSeq
    ensures var rows := RowsAfter(db, session, after);
            && |rows| == db.sessions[session].eventSeq - after
            && forall i :: 0 <= i < |rows| ==> rows[i] == (after + i + 1, Log(db, session)[after + i])
    decreases db.sessions[session].eventSeq - after
  {
    var last := db.sessions[session].eventSeq;
    var numbers := SeqNumbersAfter(db, session, after);
    if after == last {
      assert numbers == {};
    } else {
      assert (session, after + 1) in db.events;
      assert after + 1 in numbers;
      assert MinOf(numbers) == after + 1;
      RowsAreLog(db, session, after + 1);
    }
  }

  lemma SameRowsAfter(db: Db, session: Id, k: int)
    requires session in db.sessions && GapFree(db, session) && k < 0
    ensures RowsAfter(db, session, k) == RowsAfter(db, session, 0)
  {
    assert SeqNumbersAfter(db, session, k) == SeqNumbersAfter(db, session, 0);
  }

  lemma NoRowsAfter(db: Db, session: Id, k: int)
    requires session in db.sessions && GapFree(db, session) && k > db.sessions[session].eventSeq
    ensures RowsAfter(db, session, k) == []
  {
    assert SeqNumbersAfter(db, session, k) == {};
  }

  /** In every reachable state the log of a session is numbered 1..event_seq without gaps, and
      asking for the events after `k` returns exactly the log without its first `k` entries. */
  lemma EventsAfterIsSuffix(db: Db, hash: Hash, session: Id, k: int)
    requires Reachable(db, hash) && session in db.sessions
    ensures GapFree(db, session)
    ensures var log := Log(db, session);
            var skip := if k < 0 then 0 else if k > |log| then |log| else k;
            var rows := RowsAfter(db, session, k);
            |rows| == |log| - skip && forall i :: 0 <= i < |rows| ==> rows[i] == (skip + i + 1, log[skip + i])
  {
    hide Reachable, Linked, LineageAgrees, Settled, WithdrawalSlots, RowsAfter;
    ReachableInv(db, hash);
    var last := db.sessions[session].eventSeq;
    if k < 0 {
      SameRowsAfter(db, session, k);
      RowsAreLog(db, session, 0);
    } else if k > last {
      NoRowsAfter(db, session, k);
    } else {
      RowsAreLog(db, session, k);
    }
  }

  /** Later calls only append to a log. */
  lemma LogIsAppendOnly(db: Db, hash: Hash, more: seq<Op>, session: Id)
    requires Reachable(db, hash) && session in db.sessions
    ensures var later := Run(db, hash, more);
            && session in later.sessions && GapFree(db, session) && GapFree(later, session)
            && Log(db, session) <= Log(later, session)
  {
    ReachableInv(db, hash);
    ReachableStep(db, hash, more);
    ReachableInv(Run(db, hash, more), hash);
    RunGrows(db, hash, more);
  }

  // ---- Exactly-once effects ----

  /** A call that is refused or replayed changes nothing. */
  lemma OnlyExecutionChanges(db: Db, hash: Hash, key: Option<string>, request: Request)
    ensures var (after, outcome) := Serve(db, hash, key, request);
            && !outcome.Applied? && !outcome.NotFound?
            && (outcome.Rejected? || outcome.Replayed? ==> after == db)
            && (outcome.Executed? ==>
                  && SlotOf(db, key, request).Some?
                  && SlotOf(db, key, request).value !in db.idempotency
                  && SlotOf(db, key, request).value in after.idempotency
                  && after.idempotency[SlotOf(db, key, request).value]
                       == Remembered(hash(PayloadOf(db, request)), outcome.response))
  {
    hide Perform;
  }

  /** Once a slot has been executed, no later call executes it again: a call with the same
      digest replays the first response, any other is refused, and the store stays as it is. */
  lemma ExactlyOnce(db: Db, hash: Hash, key: Option<string>, request: Request, between: seq<Op>,
                    laterKey: Option<string>, laterRequest: Request)
    requires Serve(db, hash, key, request).1.Executed?
    requires var later := Run(Serve(db, hash, key, request).0, hash, between);
             SlotOf(later, laterKey, laterRequest) == SlotOf(db, key, request)
    ensures var later := Run(Serve(db, hash, key, request).0, hash, between);
            Serve(later, hash, laterKey, laterRequest)
              == (later, if hash(PayloadOf(later, laterRequest)) == hash(PayloadOf(db, request))
                         then Replayed(Serve(db, hash, key, request).1.response)
                         else Rejected(Conflict))
  {
    OnlyExecutionChanges(db, hash, key, request);
    RunGrows(Serve(db, hash, key, request).0, hash, between);
    hide Perform, Run;
  }

  ghost predicate ReceiptIdTaken(db: Db, id: Id) {
    exists q :: q in db.receipts && db.receipts[q].id == id
  }

  lemma FirstAttempt(db: Db, session: Id, p: Id, now: int, id: Id)
    requires Core(db) && IsResearch(db, session) && ParticipantOf(db, session) == p && p !in db.receipts
    ensures var attempt := PerformWithdraw(db, session, p, now, id);
            if ReceiptIdTaken(db, id) then attempt == Abort(Integrity)
            else attempt.Commit? && attempt.response == CanonicalResponse(id, db.participants[p].pseudonym, |LineageOf(db, p)|)
  {
    LoggedWithdrawal(db, session, p, now);
    PairCount(session, LineageOf(db, p));
    hide WithdrawTables, AppendEvent, LineageOf, TasksOf, Core, Shape, LineageAgrees, OthersSettled;
  }

  /** `p`'s slot, if remembered, holds the canonical response under the digest of the request. */
  lemma RememberedWithdrawal(db: Db, hash: Hash, p: Id, key: string, attempt: Attempt)
    requires Inv(db, hash) && p in db.participants
    ensures var slot := (WithdrawScope(p), key);
            var digest := hash(WithdrawPayload(p, db.participants[p].pseudonym));
            var (after, outcome) := Mutate(db, slot, digest, attempt);
            && (slot in db.idempotency ==> p in db.receipts && after == db && outcome == Replayed(db.receipts[p].response))
            && (slot !in db.idempotency && attempt.Abort? ==> outcome == Rejected(attempt.failure))
            && (slot !in db.idempotency && attempt.Commit? ==>
                  outcome == Executed(attempt.response) && after == attempt.db.(idempotency := after.idempotency))
  {
    hide Core;
  }

  lemma ServeWithdrawal(db: Db, hash: Hash, key: Option<string>, session: Id, now: int, id: Id)
    requires IsResearch(db, session) && Key(key, "withdraw-" + ParticipantOf(db, session)).Some?
    ensures var p := ParticipantOf(db, session);
            Serve(db, hash, key, Withdraw(session, now, id))
              == Mutate(db, (WithdrawScope(p), Key(key, "withdraw-" + p).value), hash(WithdrawPayload(p, db.participants[p].pseudonym)),
                        PerformWithdraw(db, session, p, now, id))
  {
    hide PerformWithdraw, Mutate, Key;
  }

  /** Withdrawal is canonical: once the participant holds a receipt, a withdrawal through any of
      the participant's sessions and under any key answers with the one stored response and
      changes nothing but the table of remembered keys. Before that it commits, unless the new
      receipt id is taken. It never conflicts. */
  lemma WithdrawalIsCanonical(db: Db, hash: Hash, key: Option<string>, session: Id, now: int, id: Id)
    requires Reachable(db, hash) && IsResearch(db, session)
    requires Key(key, "withdraw-" + ParticipantOf(db, session)).Some?
    ensures var p := ParticipantOf(db, session);
            var (after, outcome) := Serve(db, hash, key, Withdraw(session, now, id));
            && (p in db.receipts ==>
                  && (outcome == Executed(db.receipts[p].response) || outcome == Replayed(db.receipts[p].response))
                  && after == db.(idempotency := after.idempotency))
            && (p !in db.receipts ==>
                  if ReceiptIdTaken(db, id) then outcome == Rejected(Integrity)
                  else outcome == Executed(CanonicalResponse(id, db.participants[p].pseudonym, |LineageOf(db, p)|)))
  {
    ReachableInv(db, hash);
    hide ReceiptIdTaken, Reachable, LineageOf, Key, LineageOf, Shape, LineageAgrees, Settled;
    var p := ParticipantOf(db, session);
    var attempt := PerformWithdraw(db, session, p, now, id);
    RememberedWithdrawal(db, hash, p, Key(key, "withdraw-" + p).value, attempt);
    if p !in db.receipts {
      FirstAttempt(db, session, p, now, id);
    } else {
      assert attempt == Commit(db, db.receipts[p].response);
    }
    ServeWithdrawal(db, hash, key, session, now, id);
    hide *;
  }
}
