/** What identifies the rows of the store, and what a session row says: kept by every call. */
module M1Identity {
  import opened Wrappers
  import opened Lineage
  import opened M1Tables
  import opened M1Operations
  import opened M1Invariants
  import opened M1Theorems

  ghost predicate Distinct<K, V>(rows: map<K, V>) {
    forall a, b :: a in rows && b in rows && rows[a] == rows[b] ==> a == b
  }

  function Pseudonyms(participants: map<Id, Participant>): map<Id, string> {
    map p | p in participants :: participants[p].pseudonym
  }

  function ReceiptIds(receipts: map<Id, Receipt>): map<Id, Id> {
    map p | p in receipts :: receipts[p].id
  }

  function ConsentSessions(consents: map<Id, Consent>): map<Id, Id> {
    map c | c in consents :: consents[c].session
  }

  /** Study codes, pseudonyms and receipt ids are unique, and a session has at most one consent. */
  ghost predicate Unique(db: Db) {
    && Distinct(db.studies) && Distinct(Pseudonyms(db.participants)) && Distinct(ReceiptIds(db.receipts))
    && Distinct(ConsentSessions(db.consents))
    && forall p :: p in db.participants ==> db.participants[p].study in db.studies
  }

  /** A demo session is started exactly from its recording on and is never blocked; a research session
      belongs to its participant's study, is withdrawn exactly with its participant and at the same
      time, and is blocked exactly if it is withdrawn or failed. */
  ghost predicate RowTells(participants: map<Id, Participant>, row: Session) {
    if row.kind == Demo then
      && row.study.None? && row.participant.None? && !row.collectionBlocked && row.withdrawnAt.None?
      && row.state != Withdrawn && row.state != Failed
      && (row.startedAt.Some? <==> row.state == Recording || row.state == Sealed)
      && (row.submitted ==> row.state == Recording || row.state == Sealed)
    else
      && row.participant.Some? && row.participant.value in participants
      && row.study == Some(participants[row.participant.value].study)
      && row.startedAt.None? && !row.submitted
      && row.withdrawnAt == participants[row.participant.value].withdrawnAt
      && (row.state == Withdrawn <==> row.withdrawnAt.Some?)
      && (row.collectionBlocked <==> row.state == Withdrawn || row.state == Failed)
      && (row.state == Withdrawn || row.state == Failed || row.state == Draft || row.state == ConsentConfirmed)
  }

  ghost predicate RowsTell(participants: map<Id, Participant>, sessions: map<Id, Session>) {
    forall s :: s in sessions ==> RowTells(participants, sessions[s])
  }

  /** Every research session, and nothing else, has a retention record. */
  ghost predicate Retained(sessions: map<Id, Session>, retention: map<Id, string>) {
    forall s :: s in retention <==> s in sessions && sessions[s].kind == Research
  }

  ghost predicate Proper(db: Db) {
    Unique(db) && RowsTell(db.participants, db.sessions) && Retained(db.sessions, db.retention)
  }

  // ---- Session rows ----

  lemma RowSet(db: Db, s: Id, row: Session)
    requires RowsTell(db.participants, db.sessions) && Retained(db.sessions, db.retention)
    requires s in db.sessions && RowTells(db.participants, row) && row.kind == db.sessions[s].kind
    ensures RowsTell(db.participants, db.sessions[s := row]) && Retained(db.sessions[s := row], db.retention)
  {
  }

  /** Logging an event leaves everything here as it is. */
  lemma EventKeepsProper(db: Db, s: Id, body: EventBody)
    requires Proper(db)
    ensures var r := AppendEvent(db, s, body); r.Ok? ==> Proper(r.value)
  {
    hide Unique;
    if AppendEvent(db, s, body).Ok? {
      var row := db.sessions[s].(eventSeq := db.sessions[s].eventSeq + 1);
      var after := AppendEvent(db, s, body).value;
      assert after == db.(sessions := db.sessions[s := row], events := after.events);
      assert RowTells(db.participants, db.sessions[s]);
      hide AppendEvent, Retained, RowsTell;
      RowSet(db, s, row);
      hide RowTells;
      SameIdentities(db, after);
    }
  }

  lemma SameIdentities(db: Db, after: Db)
    requires Unique(db) && after.studies == db.studies && after.participants == db.participants
    requires after.receipts == db.receipts && after.consents == db.consents
    ensures Unique(after)
  {
  }

  lemma RowThenEventProper(db: Db, middle: Db, s: Id, row: Session, body: EventBody)
    requires Proper(db) && s in db.sessions && RowTells(db.participants, row) && row.kind == db.sessions[s].kind
    requires middle == db.(sessions := db.sessions[s := row], answers := middle.answers, attempts := middle.attempts, consents := middle.consents)
    requires Distinct(ConsentSessions(middle.consents))
    ensures var r := AppendEvent(middle, s, body); r.Ok? ==> Proper(r.value)
  {
    hide RowTells, Distinct;
    RowSet(db, s, row);
    assert Proper(middle);
    hide Unique, RowsTell, Retained;
    EventKeepsProper(middle, s, body);
  }

  lemma ActProper(db: Db, s: Id, action: Action, now: int)
    requires Proper(db)
    ensures Proper(ApplyAction(db, s, action, now).0)
  {
    if ApplyAction(db, s, action, now).0 != db {
      var row := db.sessions[s];
      var next := Transition(row.state, action).value;
      assert RowTells(db.participants, row);
      var moved := row.(state := next, startedAt := if action == StartAction then Some(now) else row.startedAt);
      assert RowTells(db.participants, moved) by { hide Unique, RowsTell, Retained; }
      hide Unique, RowsTell, Retained, RowTells, Distinct, AppendEvent, Transition;
      assert Distinct(ConsentSessions(db.consents)) by { UniqueConsents(db); }
      RowThenEventProper(db, db.(sessions := db.sessions[s := moved]), s, moved, SessionStateChanged(next));
    }
  }

  lemma UniqueConsents(db: Db)
    requires Proper(db)
    ensures Distinct(ConsentSessions(db.consents))
  {
    hide Distinct;
  }

  lemma RecoverProper(db: Db, id: Id)
    requires Proper(db) && Linked(db)
    ensures Proper(RecoverIntent(db, id).0)
  {
    if RecoverIntent(db, id).1 == Applied {
      var s := db.intents[id].session;
      var row := db.sessions[s];
      assert Holds(db.sessions, s) && RowTells(db.participants, row);
      var recovered := row.(state := RecoveredState(db, row), collectionBlocked := true);
      assert RowTells(db.participants, recovered) by { hide Unique, RowsTell, Retained, Linked; }
      hide Unique, RowTells, Linked;
      RowSet(db, s, recovered);
      SameIdentities(db, RecoverIntent(db, id).0);
    }
  }

  // ---- Requests ----

  lemma AnswerProper(db: Db, s: Id, answerId: string, questionId: string, value: Option<string>)
    requires Proper(db)
    ensures var attempt := PerformAnswer(db, s, answerId, questionId, value); attempt.Commit? ==> Proper(attempt.db)
  {
    if PerformAnswer(db, s, answerId, questionId, value).Commit? {
      var middle := db.(answers := db.answers + [Answer(s, answerId, questionId, value)]);
      hide RowTells, Distinct, AppendEvent;
      SameIdentities(db, middle);
      hide Unique, RowsTell, Retained;
      EventKeepsProper(middle, s, AnswerRecorded(answerId));
    }
  }

  lemma SubmitProper(db: Db, s: Id)
    requires Proper(db)
    ensures PerformSubmit(db, s).Commit? ==> Proper(PerformSubmit(db, s).db)
  {
    if PerformSubmit(db, s).Commit? {
      var row := db.sessions[s];
      assert RowTells(db.participants, row);
      UniqueConsents(db);
      assert RowTells(db.participants, row.(submitted := true)) by { hide Unique, RowsTell, Retained; }
      hide Unique, RowsTell, Retained, RowTells, Distinct, AppendEvent;
      RowThenEventProper(db, db.(sessions := db.sessions[s := row.(submitted := true)], attempts := db.attempts + [s]), s,
                         row.(submitted := true), ExamSubmitted);
    }
  }

  lemma OneConsent(consents: map<Id, Consent>, receipt: Id, row: Consent)
    requires Distinct(ConsentSessions(consents))
    ensures Distinct(ConsentSessions(ReplaceConsent(consents, receipt, row)))
  {
    var before, after := ConsentSessions(consents), ConsentSessions(ReplaceConsent(consents, receipt, row));
    forall a, b | a in after && b in after && after[a] == after[b] ensures a == b {
      if a != receipt && b != receipt { assert a in before && b in before && before[a] == before[b]; }
    }
  }

  lemma ConsentProper(db: Db, s: Id, receipt: Id, version: string)
    requires Proper(db)
    ensures var attempt := PerformConsent(db, s, receipt, version); attempt.Commit? ==> Proper(attempt.db)
  {
    if PerformConsent(db, s, receipt, version).Commit? {
      var row := db.sessions[s];
      var confirmed := row.(state := if row.state == Draft then ConsentConfirmed else row.state);
      assert RowTells(db.participants, row);
      assert RowTells(db.participants, confirmed) by { hide Unique, RowsTell, Retained; }
      UniqueConsents(db);
      OneConsent(db.consents, receipt, Consent(s, version));
      hide Unique, RowsTell, Retained, RowTells, Distinct, AppendEvent, IsResearch, MutableResearch, ReplaceConsent;
      RowThenEventProper(db, db.(consents := ReplaceConsent(db.consents, receipt, Consent(s, version)), sessions := db.sessions[s := confirmed]), s,
                         confirmed, OperatorConsentConfirmed(version));
    }
  }

  lemma StudyProper(db: Db, code: string, id: Id)
    requires Proper(db)
    ensures PerformStudy(db, code, id).Commit? ==> Proper(PerformStudy(db, code, id).db)
  {
    hide RowTells;
  }

  lemma ParticipantProper(db: Db, study: Id, id: Id, pseudonym: string)
    requires Proper(db)
    ensures var attempt := PerformParticipant(db, study, id, pseudonym); attempt.Commit? ==> Proper(attempt.db)
  {
    if PerformParticipant(db, study, id, pseudonym).Commit? {
      var after := PerformParticipant(db, study, id, pseudonym).db;
      forall s | s in after.sessions ensures RowTells(after.participants, after.sessions[s]) { assert RowTells(db.participants, db.sessions[s]); }
      var before, names := Pseudonyms(db.participants), Pseudonyms(after.participants);
      forall a, b | a in names && b in names && names[a] == names[b] ensures a == b {
        if a != id && b != id { assert a in before && b in before && before[a] == before[b]; }
      }
    }
  }

  lemma NewSessionProper(db: Db, study: Id, participant: Id, decision: string, id: Id)
    requires Proper(db)
    ensures var attempt := PerformSession(db, study, participant, decision, id); attempt.Commit? ==> Proper(attempt.db)
  {
    if PerformSession(db, study, participant, decision, id).Commit? {
      hide Unique;
      SameIdentities(db, PerformSession(db, study, participant, decision, id).db);
    }
  }

  lemma WithdrawnRow(db: Db, p: Id, now: int, row: Session)
    requires p in db.participants && RowTells(db.participants, row)
    ensures var people := db.participants[p := db.participants[p].(withdrawnAt := Coalesce(db.participants[p].withdrawnAt, now))];
            RowTells(people, if row.participant == Some(p)
                             then row.(state := Withdrawn, collectionBlocked := true, withdrawnAt := Coalesce(row.withdrawnAt, now)) else row)
  {
  }

  lemma WithdrawTablesProper(db: Db, session: Id, p: Id, now: int, lineage: set<Id>)
    requires Proper(db) && p in db.participants
    ensures Proper(WithdrawTables(db, session, p, now, lineage))
  {
    var after := WithdrawTables(db, session, p, now, lineage);
    forall s | s in after.sessions ensures RowTells(after.participants, after.sessions[s]) {
      assert RowTells(db.participants, db.sessions[s]);
      hide RowTells;
      WithdrawnRow(db, p, now, db.sessions[s]);
    }
    hide RowTells;
    assert Pseudonyms(after.participants) == Pseudonyms(db.participants);
    assert Unique(after) by { hide InvalidateRows, Pairs, WithdrawRows; }
  }

  lemma NewReceiptProper(db: Db, p: Id, receipt: Receipt)
    requires Proper(db) && !exists q :: q in db.receipts && db.receipts[q].id == receipt.id
    ensures Proper(db.(receipts := db.receipts[p := receipt]))
  {
    hide RowTells;
    var before, after := ReceiptIds(db.receipts), ReceiptIds(db.receipts[p := receipt]);
    forall a, b | a in after && b in after && after[a] == after[b] ensures a == b {
      if a != p && b != p { assert a in before && b in before && before[a] == before[b]; }
    }
  }

  lemma WithdrawProper(db: Db, session: Id, p: Id, now: int, id: Id)
    requires Proper(db) && p in db.participants
    ensures var attempt := PerformWithdraw(db, session, p, now, id); attempt.Commit? ==> Proper(attempt.db)
  {
    hide Proper, LineageOf, TasksOf, WithdrawTables, AppendEvent;
    var attempt := PerformWithdraw(db, session, p, now, id);
    if attempt.Commit? && p !in db.receipts {
      var tables := WithdrawTables(db, session, p, now, LineageOf(db, p));
      WithdrawTablesProper(db, session, p, now, LineageOf(db, p));
      EventKeepsProper(tables, session, WithdrawalRequested);
      var logged := AppendEvent(tables, session, WithdrawalRequested).value;
      TablesReceipts(db, session, p, now, LineageOf(db, p));
      NewReceiptProper(logged, p, Receipt(id, session, attempt.response));
    }
  }

  lemma TablesReceipts(db: Db, session: Id, p: Id, now: int, lineage: set<Id>)
    requires p in db.participants
    ensures var r := AppendEvent(WithdrawTables(db, session, p, now, lineage), session, WithdrawalRequested);
            r.Ok? ==> r.value.receipts == db.receipts
  {
  }

  lemma PerformProper(db: Db, request: Request)
    requires Proper(db) && Precheck(db, request).None?
    ensures Perform(db, request).Commit? ==> Proper(Perform(db, request).db)
  {
    hide Proper;
    match request
    case RecordAnswer(s, answerId, questionId, value) => AnswerProper(db, s, answerId, questionId, value);
    case SubmitExam(s) => SubmitProper(db, s);
    case CreateStudy(code, id) => StudyProper(db, code, id);
    case CreateParticipant(study, id, pseudonym) => ParticipantProper(db, study, id, pseudonym);
    case CreateResearchSession(study, participant, policy, endDate, _, id) =>
      NewSessionProper(db, study, participant, Decision(policy, endDate), id);
    case ConfirmConsent(s, receipt, version) => ConsentProper(db, s, receipt, version);
    case Withdraw(s, now, id) => WithdrawProper(db, s, ParticipantOf(db, s), now, id);
  }

  lemma SameTablesProper(db: Db, after: Db)
    requires after.studies == db.studies && after.participants == db.participants && after.receipts == db.receipts
    requires after.consents == db.consents && after.sessions == db.sessions && after.retention == db.retention
    requires Proper(db)
    ensures Proper(after)
  {
    hide RowTells, Distinct;
  }

  lemma MutateProper(db: Db, slot: Slot, digest: string, attempt: Attempt)
    requires Proper(db) && (attempt.Commit? ==> Proper(attempt.db))
    ensures Proper(Mutate(db, slot, digest, attempt).0)
  {
    hide Proper;
    if slot !in db.idempotency && attempt.Commit? { SameTablesProper(attempt.db, Mutate(db, slot, digest, attempt).0); }
  }

  lemma ServeProper(db: Db, hash: Hash, key: Option<string>, request: Request)
    requires Proper(db)
    ensures Proper(Serve(db, hash, key, request).0)
  {
    hide Proper, Perform, Precheck, Fallback, ScopeOf, PayloadOf, Key, Mutate;
    if SlotOf(db, key, request).Some? {
      PerformProper(db, request);
      MutateProper(db, SlotOf(db, key, request).value, hash(PayloadOf(db, request)), Perform(db, request));
    }
  }

  lemma RegisterProper(db: Db, artifact: Id, session: Id, parents: seq<Id>)
    requires Proper(db)
    ensures Proper(RegisterArtifact(db, artifact, session, parents).0)
  {
    hide Proper, UsableParent, MutableResearch, NoDuplicates, IsResearch;
    var after := RegisterArtifact(db, artifact, session, parents).0;
    assert after == db.(artifacts := after.artifacts, dependencies := after.dependencies);
    hide RegisterArtifact;
    SameTablesProper(db, after);
  }

  lemma DependProper(db: Db, parent: Id, child: Id)
    requires Proper(db)
    ensures Proper(AddDependency(db, parent, child).0)
  {
    hide Proper, UsableParent;
    var after := AddDependency(db, parent, child).0;
    assert after == db.(dependencies := after.dependencies);
    hide AddDependency;
    SameTablesProper(db, after);
  }

  lemma WriteIntentProper(db: Db, session: Id, path: string, pathUsable: bool, id: Id)
    requires Proper(db)
    ensures Proper(CreateWriteIntent(db, session, path, pathUsable, id).0)
  {
    hide Proper, MutableResearch, IsResearch;
    SameTablesProper(db, CreateWriteIntent(db, session, path, pathUsable, id).0);
  }

  lemma StepProper(db: Db, hash: Hash, op: Op)
    requires Proper(db) && Linked(db)
    ensures Proper(Step(db, hash, op).0)
  {
    hide Proper, Linked, ApplyAction, RegisterArtifact, AddDependency, CreateWriteIntent, RecoverIntent, Serve, AppendEvent;
    match op
    case DemoSession(id) => NewDemoProper(db, id);
    case Append(session, body) => EventKeepsProper(db, session, body);
    case Act(session, action, now) => ActProper(db, session, action, now);
    case Register(artifact, session, parents) => RegisterProper(db, artifact, session, parents);
    case Depend(parent, child) => DependProper(db, parent, child);
    case WriteIntent(session, path, pathUsable, id) => WriteIntentProper(db, session, path, pathUsable, id);
    case Recover(id) => RecoverProper(db, id);
    case Keyed(key, request) => ServeProper(db, hash, key, request);
  }

  lemma NewDemoProper(db: Db, id: Id)
    requires Proper(db)
    ensures Proper(CreateDemoSession(db, id).0)
  {
    hide Unique;
    if CreateDemoSession(db, id).1 == Applied { SameIdentities(db, CreateDemoSession(db, id).0); }
  }

  lemma {:induction false} RunProper(hash: Hash, ops: seq<Op>)
    ensures Proper(Run(EMPTY_DB, hash, ops)) && Inv(Run(EMPTY_DB, hash, ops), hash)
    decreases |ops|
  {
    if ops == [] {
      EmptyStore(hash);
    } else {
      var earlier := Run(EMPTY_DB, hash, ops[..|ops| - 1]);
      RunProper(hash, ops[..|ops| - 1]);
      hide Proper, Shape, LineageAgrees, Settled, WithdrawalSlots;
      StepKeeps(earlier, hash, ops[|ops| - 1]);
      assert Linked(earlier) by { InvLinked(earlier, hash); }
      hide Inv, Linked;
      StepProper(earlier, hash, ops[|ops| - 1]);
    }
  }

  lemma InvLinked(db: Db, hash: Hash)
    requires Inv(db, hash)
    ensures Linked(db)
  {
    hide SessionsOk, ArtifactsLinked, WithdrawalsLinked, RecordsLinked;
  }

  /** In every reachable store the identities are unique and every session row says what it should. */
  lemma ReachableProper(db: Db, hash: Hash)
    requires Reachable(db, hash)
    ensures Proper(db)
  {
    hide Proper, Inv;
    var ops :| db == Run(EMPTY_DB, hash, ops);
    RunProper(hash, ops);
  }
}
