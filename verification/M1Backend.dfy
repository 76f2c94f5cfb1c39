/** The backend as it runs: one SQLite connection whose tables the methods update in place,
    statement by statement, between BEGIN and COMMIT or ROLLBACK. Each method is proved to have
    the effect that `Step` gives its call. */
module M1Backend {
  import opened Wrappers
  import opened Lineage
  import opened M1Tables
  import opened M1Operations
  import opened M1Invariants
  import opened M1Recovery
  import opened M1Quarantine

  lemma OneMoreArtifact(db: Db, session: Id, p: Id, now: int, done: set<Id>, a: Id)
    requires p in db.participants && a in db.artifacts
    ensures var tables := WithdrawTables(db, session, p, now, done);
            a in tables.artifacts &&
            WithdrawTables(db, session, p, now, done + {a})
              == tables.(artifacts := tables.artifacts[a := tables.artifacts[a].(status := Invalidated)],
                         tasks := tables.tasks + {(session, a)})
  {
    var tables := WithdrawTables(db, session, p, now, done);
    assert InvalidateRows(db.artifacts, done + {a}) == tables.artifacts[a := tables.artifacts[a].(status := Invalidated)];
    assert Pairs(session, done + {a}) == Pairs(session, done) + {(session, a)};
    assert db.tasks + Pairs(session, done + {a}) == tables.tasks + {(session, a)};
  }

  lemma EventReceipts(db: Db, session: Id)
    ensures var r := AppendEvent(db, session, WithdrawalRequested); r.Ok? ==> r.value.receipts == db.receipts
  {
  }

  class M1Backend {
    var db: Db
    var snapshot: Db
    const hash: Hash

    constructor (hash: Hash)
      ensures db == EMPTY_DB && this.hash == hash
    {
      this.hash := hash;
      db := EMPTY_DB;
      snapshot := EMPTY_DB;
    }

    // ---- Transactions ----

    method Begin()
      modifies this
      ensures db == old(db) && snapshot == old(db)
    {
      snapshot := db;
    }

    method Rollback()
      modifies this
      ensures db == old(snapshot) && snapshot == old(snapshot)
    {
      db := snapshot;
    }

    method Event(session: Id, body: EventBody) returns (r: Result<int, Failure>)
      modifies this`db
      ensures match AppendEvent(old(db), session, body)
              case Ok(after) => db == after && r == Ok(after.sessions[session].eventSeq)
              case Err(failure) => r == Err(failure)
    {
      if session !in db.sessions {
        return Err(Missing);
      }
      var number := db.sessions[session].eventSeq + 1;
      db := db.(sessions := db.sessions[session := db.sessions[session].(eventSeq := number)]);
      if (session, number) in db.events {
        return Err(Integrity);
      }
      db := db.(events := db.events[(session, number) := body]);
      r := Ok(number);
    }

    /** The first half of `_mutate`: what the slot remembers, if anything. */
    method Recall(slot: Slot, digest: string) returns (known: Option<Outcome>)
      ensures known.None? <==> slot !in db.idempotency
      ensures forall attempt :: known.Some? ==> Mutate(db, slot, digest, attempt) == (db, known.value)
    {
      if slot !in db.idempotency {
        return None;
      }
      if db.idempotency[slot].requestHash != digest {
        return Some(Rejected(Conflict));
      }
      return Some(Replayed(db.idempotency[slot].response));
    }

    /** The second half: store the response, or roll everything back. */
    method Conclude(slot: Slot, digest: string, result: Result<Response, Failure>) returns (outcome: Outcome)
      modifies this
      ensures result.Err? ==> db == old(snapshot) && outcome == Rejected(result.error)
      ensures result.Ok? ==> outcome == Executed(result.value)
                             && db == old(db).(idempotency := old(db).idempotency[slot := Remembered(digest, result.value)])
    {
      match result
      case Err(failure) =>
        Rollback();
        outcome := Rejected(failure);
      case Ok(response) =>
        db := db.(idempotency := db.idempotency[slot := Remembered(digest, response)]);
        outcome := Executed(response);
    }

    // ---- Sessions ----

    method CreateSession(id: Id) returns (outcome: Outcome)
      modifies this
      ensures (db, outcome) == CreateDemoSession(old(db), id)
    {
      Begin();
      if id in db.sessions {
        Rollback();
        return Rejected(Integrity);
      }
      db := db.(sessions := db.sessions[id := Session(Demo, None, None, Draft, 0, false, None, false, None)]);
      outcome := Applied;
    }

    /** `append_event`: the transaction undoes the bumped counter if the row cannot be inserted. */
    method AppendSessionEvent(session: Id, body: EventBody) returns (r: Result<int, Failure>)
      modifies this
      ensures match AppendEvent(old(db), session, body)
              case Ok(after) => db == after && r == Ok(after.sessions[session].eventSeq)
              case Err(failure) => db == old(db) && r == Err(failure)
    {
      Begin();
      r := Event(session, body);
      if r.Err? { Rollback(); }
    }

    // ---- Studies, participants and research sessions ----

    method CreateStudy(code: string, id: Id, key: Option<string>) returns (outcome: Outcome)
      modifies this
      ensures (db, outcome) == Serve(old(db), hash, key, Request.CreateStudy(code, id))
    {
      var checked := Key(key, "study-" + code);
      if checked.None? {
        return Rejected(InvalidTransition);
      }
      var slot, digest := (StudyScope, checked.value), hash(StudyPayload(code));
      Begin();
      var known := Recall(slot, digest);
      if known.Some? {
        return known.value;
      }
      var result: Result<Response, Failure> := Ok(StudyCreated(id));
      if id in db.studies || code in db.studies.Values {
        result := Err(Integrity);
      } else {
        db := db.(studies := db.studies[id := code]);
      }
      outcome := Conclude(slot, digest, result);
    }

    method CreateParticipant(study: Id, id: Id, pseudonym: string, key: Option<string>) returns (outcome: Outcome)
      modifies this
      ensures (db, outcome) == Serve(old(db), hash, key, Request.CreateParticipant(study, id, pseudonym))
    {
      var checked := Key(key, "participant-" + study);
      if checked.None? {
        return Rejected(InvalidTransition);
      }
      var slot, digest := (ParticipantScope, checked.value), hash(ParticipantPayload(study));
      Begin();
      var known := Recall(slot, digest);
      if known.Some? {
        return known.value;
      }
      var result: Result<Response, Failure> := Ok(ParticipantCreated(id, pseudonym));
      if study !in db.studies {
        result := Err(Missing);
      } else if id in db.participants || exists p :: p in db.participants && db.participants[p].pseudonym == pseudonym {
        result := Err(Integrity);
      } else {
        db := db.(participants := db.participants[id := Participant(study, pseudonym, None)]);
      }
      outcome := Conclude(slot, digest, result);
    }

    method CreateResearchSession(study: Id, participant: Id, policy: Option<string>, endDate: Option<string>,
                                 endDateUsable: bool, id: Id, key: Option<string>) returns (outcome: Outcome)
      modifies this
      ensures (db, outcome) == Serve(old(db), hash, key, Request.CreateResearchSession(study, participant, policy, endDate, endDateUsable, id))
    {
      if (policy.Some? && endDate.Some?) || (endDate.Some? && !endDateUsable) {
        return Rejected(InvalidTransition);
      }
      var checked := Key(key, "session-" + participant);
      if checked.None? {
        return Rejected(InvalidTransition);
      }
      var slot, digest := (SessionScope, checked.value), hash(SessionPayload(study, participant, policy, endDate));
      Begin();
      var known := Recall(slot, digest);
      if known.Some? {
        return known.value;
      }
      var result: Result<Response, Failure> := Err(Missing);
      if participant in db.participants && db.participants[participant].study == study {
        if db.participants[participant].withdrawnAt.Some? {
          result := Err(InvalidTransition);
        } else if id in db.sessions {
          result := Err(Integrity);
        } else {
          db := db.(sessions := db.sessions[id := Session(Research, Some(study), Some(participant), Draft, 0, false, None, false, None)]);
          db := db.(retention := db.retention[id := Decision(policy, endDate)]);
          result := Ok(SessionCreated(id, db.participants[participant].pseudonym));
        }
      }
      outcome := Conclude(slot, digest, result);
    }

    /** `create_write_intent`; the check inside the transaction finds what the one before it found. */
    method CreateIntent(session: Id, path: string, pathUsable: bool, id: Id) returns (outcome: Outcome)
      modifies this
      ensures (db, outcome) == CreateWriteIntent(old(db), session, path, pathUsable, id)
    {
      var refused := RequireMutableResearch(db, session);
      if refused.Some? {
        return Rejected(refused.value);
      }
      if !pathUsable {
        return Rejected(InvalidTransition);
      }
      Begin();
      assert RequireMutableResearch(db, session).None?;
      if id in db.intents {
        Rollback();
        return Rejected(Integrity);
      }
      db := db.(intents := db.intents[id := Intent(session, path, Pending)]);
      outcome := Applied;
    }

    method ApplySessionAction(session: Id, action: Action, now: int) returns (outcome: Outcome)
      modifies this
      ensures (db, outcome) == ApplyAction(old(db), session, action, now)
    {
      Begin();
      if session !in db.sessions {
        return NotFound;
      }
      var row := db.sessions[session];
      if row.kind == Research {
        Rollback();
        return Rejected(InvalidTransition);
      }
      var next := Transition(row.state, action);
      if next.None? {
        Rollback();
        return Rejected(InvalidTransition);
      }
      var started := if action == StartAction && next.value != row.state then Some(now) else row.startedAt;
      if next.value != row.state {
        db := db.(sessions := db.sessions[session := row.(state := next.value, startedAt := started)]);
        var logged := Event(session, SessionStateChanged(next.value));
        if logged.Err? {
          Rollback();
          return Rejected(logged.error);
        }
      }
      outcome := Applied;
    }

    method EventsAfter(session: Id, after: int) returns (rows: seq<(int, EventBody)>)
      ensures rows == RowsAfter(db, session, after)
    {
      rows := [];
      var last := after;
      var more := SeqNumbersAfter(db, session, last);
      while more != {}
        invariant last >= after
        invariant more == SeqNumbersAfter(db, session, last)
        invariant rows + RowsAfter(db, session, last) == RowsAfter(db, session, after)
        decreases more
      {
        var next := MinOf(more);
        assert (session, next) in db.events;
        rows := rows + [(next, db.events[(session, next)])];
        assert next !in SeqNumbersAfter(db, session, next);
        last := next;
        more := SeqNumbersAfter(db, session, last);
      }
    }

    method RecordAnswer(session: Id, key: Option<string>, answerId: string, questionId: string, value: Option<string>)
      returns (outcome: Outcome)
      modifies this
      ensures (db, outcome) == Serve(old(db), hash, key, Request.RecordAnswer(session, answerId, questionId, value))
    {
      var checked := Key(key, answerId);
      if checked.None? {
        return Rejected(InvalidTransition);
      }
      var slot := (AnswerScope(session), checked.value);
      var digest := hash(AnswerPayload(answerId, questionId, value));
      Begin();
      var known := Recall(slot, digest);
      if known.Some? {
        return known.value;
      }
      var result: Result<Response, Failure>;
      if session !in db.sessions {
        result := Err(Missing);
      } else if db.sessions[session].state != Recording || db.sessions[session].submitted {
        result := Err(InvalidTransition);
      } else {
        db := db.(answers := db.answers + [Answer(session, answerId, questionId, value)]);
        var logged := Event(session, AnswerRecorded(answerId));
        result := if logged.Ok? then Ok(AnswerAccepted) else Err(logged.error);
      }
      outcome := Conclude(slot, digest, result);
    }

    method SubmitExam(session: Id, key: Option<string>) returns (outcome: Outcome)
      modifies this
      ensures (db, outcome) == Serve(old(db), hash, key, Request.SubmitExam(session))
    {
      var checked := Key(key, "submit");
      if checked.None? {
        return Rejected(InvalidTransition);
      }
      var slot := (SubmitScope(session), checked.value);
      var digest := hash(SubmitPayload);
      Begin();
      var known := Recall(slot, digest);
      if known.Some? {
        return known.value;
      }
      var result: Result<Response, Failure>;
      if session !in db.sessions {
        result := Err(Missing);
      } else if db.sessions[session].state != Recording {
        result := Err(InvalidTransition);
      } else if db.sessions[session].submitted {
        result := Err(Conflict);
      } else {
        db := db.(sessions := db.sessions[session := db.sessions[session].(submitted := true)]);
        db := db.(attempts := db.attempts + [session]);
        var logged := Event(session, ExamSubmitted);
        result := if logged.Ok? then Ok(ExamAccepted) else Err(logged.error);
      }
      outcome := Conclude(slot, digest, result);
    }

    method ConfirmOperatorConsent(session: Id, receipt: Id, version: string, key: Option<string>) returns (outcome: Outcome)
      modifies this
      ensures (db, outcome) == Serve(old(db), hash, key, ConfirmConsent(session, receipt, version))
    {
      var refused := RequireMutableResearch(db, session);
      if refused.Some? {
        return Rejected(refused.value);
      }
      var checked := Key(key, "consent-" + session);
      if checked.None? {
        return Rejected(InvalidTransition);
      }
      var slot := (ConsentScope(session), checked.value);
      var digest := hash(ConsentPayload(receipt, version));
      Begin();
      var known := Recall(slot, digest);
      if known.Some? {
        return known.value;
      }
      db := db.(consents := ReplaceConsent(db.consents, receipt, Consent(session, version)));
      if db.sessions[session].state == Draft {
        db := db.(sessions := db.sessions[session := db.sessions[session].(state := ConsentConfirmed)]);
      }
      assert db.sessions == old(db.sessions)[session := db.sessions[session]];
      var logged := Event(session, OperatorConsentConfirmed(version));
      outcome := Conclude(slot, digest, if logged.Ok? then Ok(ConsentAccepted(session)) else Err(logged.error));
    }

    // ---- Artifacts ----

    /** `require_valid_parents`: the first unusable parent refuses the whole call. */
    method RequireValidParents(parents: seq<Id>) returns (valid: bool)
      ensures valid <==> forall p :: p in parents ==> UsableParent(db, p)
    {
      for i := 0 to |parents|
        invariant forall p :: p in parents[..i] ==> UsableParent(db, p)
      {
        if !UsableParent(db, parents[i]) {
          return false;
        }
        assert parents[..i + 1] == parents[..i] + [parents[i]];
      }
      assert parents[..|parents|] == parents;
      return true;
    }

    method RegisterArtifact(artifact: Id, session: Id, parents: seq<Id>) returns (outcome: Outcome)
      modifies this
      ensures (db, outcome) == M1Operations.RegisterArtifact(old(db), artifact, session, parents)
    {
      var refused := RequireMutableResearch(db, session);
      if refused.Some? {
        return Rejected(refused.value);
      }
      Begin();
      var valid := RequireValidParents(parents);
      if !valid {
        Rollback();
        return Rejected(InvalidTransition);
      }
      if artifact in db.artifacts {
        Rollback();
        return Rejected(Integrity);
      }
      db := db.(artifacts := db.artifacts[artifact := Artifact(session, Valid)]);
      for i := 0 to |parents|
        invariant snapshot == old(db)
        invariant NoDuplicates(parents[..i])
        invariant forall p :: p in parents[..i] ==> (p, artifact) !in old(db).dependencies
        invariant db == old(db).(artifacts := old(db).artifacts[artifact := Artifact(session, Valid)],
                                 dependencies := old(db).dependencies + set p | p in parents[..i] :: (p, artifact))
      {
        if (parents[i], artifact) in db.dependencies {
          assert parents[i] in parents[..i] || (parents[i], artifact) in old(db).dependencies;
          Rollback();
          return Rejected(Integrity);
        }
        assert parents[i] !in parents[..i];
        assert parents[..i + 1] == parents[..i] + [parents[i]];
        db := db.(dependencies := db.dependencies + {(parents[i], artifact)});
      }
      assert parents[..|parents|] == parents;
      outcome := Applied;
    }

    method AddDependency(parent: Id, child: Id) returns (outcome: Outcome)
      modifies this
      ensures (db, outcome) == M1Operations.AddDependency(old(db), parent, child)
    {
      Begin();
      var valid := RequireValidParents([parent]);
      if !valid || child !in db.artifacts {
        assert valid ==> UsableParent(db, parent);
        Rollback();
        return Rejected(InvalidTransition);
      }
      assert parent in [parent];
      if (parent, child) in db.dependencies {
        Rollback();
        return Rejected(Integrity);
      }
      db := db.(dependencies := db.dependencies + {(parent, child)});
      outcome := Applied;
    }

    // ---- Withdrawal ----

    /** The two UPDATE statements that mark the participant and all of the participant's sessions. */
    method MarkWithdrawn(session: Id, participant: Id, now: int)
      requires participant in db.participants
      modifies this`db
      ensures db == WithdrawTables(old(db), session, participant, now, {})
    {
      ghost var before := db;
      var person := db.participants[participant];
      db := db.(participants := db.participants[participant := person.(withdrawnAt := Coalesce(person.withdrawnAt, now))]);
      db := db.(sessions := WithdrawRows(db.sessions, participant, now));
      assert InvalidateRows(before.artifacts, {}) == before.artifacts;
      assert before.tasks + Pairs(session, {}) == before.tasks;
    }

    /** The recursive query and the row loop over what it selected. */
    method InvalidateLineage(session: Id, participant: Id, now: int, ghost before: Db)
      requires Linked(before) && participant in before.participants
      requires db == WithdrawTables(before, session, participant, now, {})
      modifies this`db
      ensures db == WithdrawTables(before, session, participant, now, LineageOf(before, participant))
    {
      WithdrawTablesRoots(before, session, participant, now, {});
      ClosureWithinNodes(before.dependencies, RootsOf(before, participant), before.artifacts.Keys);
      assert db.dependencies == before.dependencies;
      hide Linked, WithdrawTables, RootsOf, Closure;
      var lineage := LineageQuery(db.dependencies, RootsOf(db, participant));
      InvalidateAll(session, participant, now, lineage, before);
    }

    /** The body of the withdrawal transaction for a participant without a receipt. */
    method WithdrawFirst(session: Id, participant: Id, now: int, id: Id) returns (result: Result<Response, Failure>)
      requires Linked(db) && IsResearch(db, session) && ParticipantOf(db, session) == participant
      requires participant !in db.receipts
      modifies this`db
      ensures match PerformWithdraw(old(db), session, participant, now, id)
              case Abort(failure) => result == Err(failure)
              case Commit(after, response) => result == Ok(response) && db == after
    {
      hide Linked, WithdrawTables, LineageOf, TasksOf, AppendEvent;
      var pseudonym := db.participants[participant].pseudonym;
      MarkWithdrawn(session, participant, now);
      InvalidateLineage(session, participant, now, old(db));
      RowLoopPeople(old(db), session, participant, now, LineageOf(old(db), participant));
      var logged := Event(session, WithdrawalRequested);
      if logged.Err? {
        return Err(logged.error);
      }
      EventReceipts(WithdrawTables(old(db), session, participant, now, LineageOf(old(db), participant)), session);
      var response := WithdrawalReply(Some(id), pseudonym, true, |TasksOf(db, participant)|);
      if exists p :: p in db.receipts && db.receipts[p].id == id {
        return Err(Integrity);
      }
      db := db.(receipts := db.receipts[participant := Receipt(id, session, response)]);
      result := Ok(response);
    }

    /** The row loop: one UPDATE and one INSERT OR IGNORE for every selected artifact. */
    method InvalidateAll(session: Id, participant: Id, now: int, lineage: set<Id>, ghost before: Db)
      requires participant in before.participants && lineage <= before.artifacts.Keys
      requires db == WithdrawTables(before, session, participant, now, {})
      modifies this`db
      ensures db == WithdrawTables(before, session, participant, now, lineage)
    {
      hide WithdrawTables;
      var todo := lineage;
      ghost var done: set<Id> := {};
      while todo != {}
        invariant todo <= lineage && done == lineage - todo
        invariant db == WithdrawTables(before, session, participant, now, done)
        decreases todo
      {
        var a :| a in todo;
        OneMoreArtifact(before, session, participant, now, done, a);
        db := db.(artifacts := db.artifacts[a := db.artifacts[a].(status := Invalidated)]);
        db := db.(tasks := db.tasks + {(session, a)});
        todo := todo - {a};
        done := done + {a};
      }
      assert done == lineage;
    }

    method Withdraw(session: Id, key: Option<string>, now: int, id: Id) returns (outcome: Outcome)
      requires Linked(db)
      modifies this
      ensures (db, outcome) == Serve(old(db), hash, key, Request.Withdraw(session, now, id))
    {
      if !IsResearch(db, session) {
        return Rejected(Missing);
      }
      var participant := db.sessions[session].participant.value;
      var checked := Key(key, "withdraw-" + participant);
      if checked.None? {
        return Rejected(InvalidTransition);
      }
      var slot := (WithdrawScope(participant), checked.value);
      var digest := hash(WithdrawPayload(participant, db.participants[participant].pseudonym));
      Begin();
      var known := Recall(slot, digest);
      if known.Some? {
        return known.value;
      }
      if participant in db.receipts {
        outcome := Conclude(slot, digest, Ok(db.receipts[participant].response));
      } else {
        var result := WithdrawFirst(session, participant, now, id);
        outcome := Conclude(slot, digest, result);
      }
    }

    /** In a store that keeps the invariant the status is terminal exactly for a withdrawn
        participant, and then counts the whole lineage; before that there is nothing to count. */
    method WithdrawalStatus(session: Id) returns (r: Result<Response, Failure>)
      ensures r == StatusReply(db, session)
      ensures r.Err? <==> !IsResearch(db, session)
      ensures r.Ok? && Settled(db) ==> StatusTells(db, ParticipantOf(db, session), r.value)
    {
      hide Settled, StatusTells;
      if !IsResearch(db, session) {
        return Err(Missing);
      }
      var p := db.sessions[session].participant.value;
      if Settled(db) { StatusIsSettled(db, session); }
      if p in db.receipts {
        return Ok(db.receipts[p].response);
      }
      return Ok(WithdrawalReply(None, db.participants[p].pseudonym, false, |TasksOf(db, p)|));
    }

    // ---- Recovery ----

    /** The recovery loop over the rows selected at its start: each partial file is moved to quarantine
        before its row is marked. The loop ends early at a file it is stuck with, and the process may
        stop after any number of its transactions, then or after the next move; the rows done so far
        are exactly a prefix, and no file is lost. */
    method RecoverPendingIntents(rows: seq<Id>, storage: Storage, attempts: seq<FileAttempt>, stopAfter: nat, midway: bool)
      returns (done: nat, stuck: bool)
      requires forall i :: i in rows ==> i in PendingIntents(db)
      requires IntentsLinked(db) && NoDuplicates(rows)
      requires |attempts| == |rows| && forall i :: 0 <= i < |rows| ==> |attempts[i].names| == TRIES
      modifies this, storage
      ensures done <= |rows| && done <= stopAfter
      ensures !stuck ==> done == |rows| || done == stopAfter
      ensures db == RecoverAll(old(db), rows[..done])
      ensures NothingLost(old(storage.partials), old(storage.quarantine), storage.partials, storage.quarantine)
      ensures Cleared(old(db), rows, attempts, done, storage.partials)
      ensures stuck ==> done < |rows| && (!attempts[done].directory || attempts[done].followed)
    {
      hide NothingLost, RecoverAll, Cleared;
      var paths := PathsOf(db, rows);
      ghost var p0, q0 := storage.partials, storage.quarantine;
      NothingMoved(p0, q0);
      NothingDone(db);
      NoneCleared(db, rows, attempts, p0);
      assert rows[..0] == [];
      done, stuck := 0, false;
      while done < |rows| && done < stopAfter
        invariant done <= |rows| && done <= stopAfter
        invariant db == RecoverAll(old(db), rows[..done])
        invariant NothingLost(p0, q0, storage.partials, storage.quarantine)
        invariant !stuck && Cleared(old(db), rows, attempts, done, storage.partials)
      {
        ghost var p1 := storage.partials;
        stuck := storage.QuarantineNext(paths[done], attempts[done], p0, q0);
        StillCleared(old(db), rows, attempts, done, p1, storage.partials);
        if stuck { return; }
        OneCleared(old(db), rows, attempts, done, storage.partials);
        MarkRow(rows, done, old(db));
        done := done + 1;
      }
      if midway && done < |rows| {
        ghost var p1 := storage.partials;
        stuck := storage.QuarantineNext(paths[done], attempts[done], p0, q0);
        StillCleared(old(db), rows, attempts, done, p1, storage.partials);
      }
    }

    /** The transaction of one row. */
    method MarkRow(rows: seq<Id>, done: nat, ghost before: Db)
      requires forall i :: i in rows ==> i in PendingIntents(before)
      requires IntentsLinked(before) && NoDuplicates(rows) && done < |rows| && db == RecoverAll(before, rows[..done])
      modifies this
      ensures db == RecoverAll(before, rows[..done + 1])
    {
      assert rows[..done + 1][..done] == rows[..done];
      PrefixPending(before, rows, done);
      var id := rows[done];
      Begin();
      db := db.(intents := db.intents[id := db.intents[id].(status := Quarantined)]);
      var session := db.intents[id].session;
      var row := db.sessions[session];
      db := db.(sessions := db.sessions[session := row.(state := RecoveredState(db, row), collectionBlocked := true)]);
    }
  }

  function PathsOf(db: Db, rows: seq<Id>): (paths: seq<string>)
    requires forall i :: i in rows ==> i in PendingIntents(db)
    ensures |paths| == |rows| && forall i :: 0 <= i < |rows| ==> rows[i] in db.intents && paths[i] == db.intents[rows[i]].path
  {
    assert forall i :: 0 <= i < |rows| ==> rows[i] in PendingIntents(db);
    seq(|rows|, i requires 0 <= i < |rows| => db.intents[rows[i]].path)
  }

  lemma NothingMoved(partials: Files, quarantine: Files)
    ensures NothingLost(partials, quarantine, partials, quarantine)
  {
  }

  /** For the first `n` rows the quarantine could be used, and no usable partial file is left. */
  ghost predicate Cleared(db: Db, rows: seq<Id>, attempts: seq<FileAttempt>, n: nat, partials: Files)
    requires |attempts| == |rows| && n <= |rows|
  {
    forall i :: 0 <= i < n ==>
      attempts[i].directory && (attempts[i].followed && rows[i] in db.intents ==> db.intents[rows[i]].path !in partials)
  }

  lemma NoneCleared(db: Db, rows: seq<Id>, attempts: seq<FileAttempt>, partials: Files)
    requires |attempts| == |rows|
    ensures Cleared(db, rows, attempts, 0, partials)
  {
  }

  lemma StillCleared(db: Db, rows: seq<Id>, attempts: seq<FileAttempt>, n: nat, before: Files, after: Files)
    requires |attempts| == |rows| && n <= |rows| && after.Keys <= before.Keys && Cleared(db, rows, attempts, n, before)
    ensures Cleared(db, rows, attempts, n, after)
  {
    forall path | path in after ensures path in before { assert path in after.Keys; }
  }

  lemma OneCleared(db: Db, rows: seq<Id>, attempts: seq<FileAttempt>, n: nat, partials: Files)
    requires |attempts| == |rows| && n < |rows| && Cleared(db, rows, attempts, n, partials)
    requires attempts[n].directory && (attempts[n].followed && rows[n] in db.intents ==> db.intents[rows[n]].path !in partials)
    ensures Cleared(db, rows, attempts, n + 1, partials)
  {
  }

  lemma NothingDone(db: Db)
    ensures RecoverAll(db, []) == db
  {
  }

  lemma PrefixPending(db: Db, rows: seq<Id>, n: nat)
    requires IntentsLinked(db) && NoDuplicates(rows) && n < |rows|
    requires forall i :: i in rows ==> i in PendingIntents(db)
    ensures var middle := RecoverAll(db, rows[..n]);
            && rows[n] in PendingIntents(middle)
            && middle.intents[rows[n]].session in middle.sessions
  {
    var first := rows[..n];
    assert rows[n] !in Elements(first);
    assert Elements(first) <= PendingIntents(db) by {
      forall i | i in Elements(first) ensures i in PendingIntents(db) { assert i in rows; }
    }
    AnyOrder(db, first);
    PendingAfter(db, Elements(first));
    RecoveredLinked(db, Elements(first));
  }
}
