/** What no call ever takes back: the log is append-only, remembered responses and
    withdrawal receipts are final, and a withdrawn or blocked session stays so. */
module M1History {
  import opened Wrappers
  import opened Lineage
  import opened M1Tables
  import opened M1Operations
  import opened M1Invariants

  ghost predicate RowGrows(before: Session, after: Session) {
    && after.kind == before.kind && after.participant == before.participant
    && after.eventSeq >= before.eventSeq
    && (before.state == Withdrawn ==> after.state == Withdrawn)
    && (before.collectionBlocked ==> after.collectionBlocked)
    && (before.submitted ==> after.submitted)
  }

  ghost predicate RowsGrow(before: map<Id, Session>, after: map<Id, Session>) {
    forall s :: s in before ==> s in after && RowGrows(before[s], after[s])
  }

  /** No session is opened for a participant who is already withdrawn. */
  ghost predicate OpensOnlyCurrent(before: Db, after: Db) {
    forall s :: s in after.sessions && s !in before.sessions && after.sessions[s].participant.Some? ==>
      !IsWithdrawn(before, after.sessions[s].participant.value)
  }

  ghost predicate EntriesStay<K, V>(before: map<K, V>, after: map<K, V>) {
    forall k :: k in before ==> k in after && after[k] == before[k]
  }

  ghost predicate PeopleGrow(before: map<Id, Participant>, after: map<Id, Participant>) {
    forall p :: p in before ==>
      && p in after && after[p].pseudonym == before[p].pseudonym
      && (before[p].withdrawnAt.Some? ==> after[p].withdrawnAt == before[p].withdrawnAt)
  }

  ghost predicate ArtifactsGrow(before: map<Id, Artifact>, after: map<Id, Artifact>) {
    forall a :: a in before ==>
      && a in after && after[a].session == before[a].session
      && (before[a].status == Invalidated ==> after[a].status == Invalidated)
  }

  ghost predicate Grows(before: Db, after: Db) {
    && RowsGrow(before.sessions, after.sessions)
    && OpensOnlyCurrent(before, after)
    && EntriesStay(before.events, after.events)
    && EntriesStay(before.receipts, after.receipts)
    && EntriesStay(before.idempotency, after.idempotency)
    && PeopleGrow(before.participants, after.participants)
    && ArtifactsGrow(before.artifacts, after.artifacts)
    && before.tasks <= after.tasks
    && before.dependencies <= after.dependencies
  }

  lemma GrowsTrans(a: Db, b: Db, c: Db)
    requires Grows(a, b) && Grows(b, c)
    ensures Grows(a, c)
  {
  }

  lemma SetRowGrows(sessions: map<Id, Session>, s: Id, row: Session)
    requires s in sessions && RowGrows(sessions[s], row)
    ensures RowsGrow(sessions, sessions[s := row])
  {
  }

  lemma EventGrows(db: Db, session: Id, body: EventBody)
    ensures var r := AppendEvent(db, session, body); r.Ok? ==> Grows(db, r.value)
  {
    if AppendEvent(db, session, body).Ok? {
      SetRowGrows(db.sessions, session, AppendEvent(db, session, body).value.sessions[session]);
    }
  }

  /** A row that grows, and then an event. */
  lemma RowThenEvent(before: Db, middle: Db, s: Id, row: Session, body: EventBody)
    requires s in before.sessions && RowGrows(before.sessions[s], row)
    requires middle == before.(sessions := before.sessions[s := row], answers := middle.answers,
                               attempts := middle.attempts, consents := middle.consents)
    ensures var r := AppendEvent(middle, s, body); r.Ok? ==> Grows(before, r.value)
  {
    SetRowGrows(before.sessions, s, row);
    hide RowsGrow;
    assert Grows(before, middle);
    if AppendEvent(middle, s, body).Ok? {
      EventGrows(middle, s, body);
      hide Grows, AppendEvent;
      GrowsTrans(before, middle, AppendEvent(middle, s, body).value);
    }
  }

  lemma ActGrows(db: Db, session: Id, action: Action, now: int)
    ensures Grows(db, ApplyAction(db, session, action, now).0)
  {
    var after := ApplyAction(db, session, action, now).0;
    if after != db {
      var row := db.sessions[session];
      var next := Transition(row.state, action).value;
      var moved := row.(state := next, startedAt := if action == StartAction then Some(now) else row.startedAt);
      hide Grows;
      RowThenEvent(db, db.(sessions := db.sessions[session := moved]), session, moved, SessionStateChanged(next));
    }
  }

  lemma RecoverGrows(db: Db, id: Id)
    ensures Grows(db, RecoverIntent(db, id).0)
  {
    if RecoverIntent(db, id).1 == Applied {
      var session := db.intents[id].session;
      SetRowGrows(db.sessions, session, RecoverIntent(db, id).0.sessions[session]);
    }
  }

  ghost predicate AttemptGrows(db: Db, attempt: Attempt) {
    attempt.Commit? ==> Grows(db, attempt.db) && attempt.db.idempotency == db.idempotency
  }

  lemma ConsentGrows(db: Db, session: Id, receipt: Id, version: string)
    ensures AttemptGrows(db, PerformConsent(db, session, receipt, version))
  {
    if PerformConsent(db, session, receipt, version).Commit? {
      var current := db.sessions[session];
      var row := current.(state := if current.state == Draft then ConsentConfirmed else current.state);
      var consents := ReplaceConsent(db.consents, receipt, Consent(session, version));
      hide Grows, ReplaceConsent, MutableResearch;
      RowThenEvent(db, db.(sessions := db.sessions[session := row], consents := consents), session, row,
                   OperatorConsentConfirmed(version));
    }
  }

  lemma ExamGrows(db: Db, session: Id, answerId: string, questionId: string, value: Option<string>)
    ensures AttemptGrows(db, PerformAnswer(db, session, answerId, questionId, value))
    ensures AttemptGrows(db, PerformSubmit(db, session))
  {
    hide Grows;
    if PerformAnswer(db, session, answerId, questionId, value).Commit? {
      var noted := db.(answers := db.answers + [Answer(session, answerId, questionId, value)]);
      assert noted.sessions == db.sessions[session := db.sessions[session]];
      RowThenEvent(db, noted, session, db.sessions[session], AnswerRecorded(answerId));
    }
    if PerformSubmit(db, session).Commit? {
      var row := db.sessions[session].(submitted := true);
      RowThenEvent(db, db.(sessions := db.sessions[session := row], attempts := db.attempts + [session]),
                   session, row, ExamSubmitted);
    }
  }

  lemma WithdrawTablesGrow(db: Db, session: Id, p: Id, now: int, lineage: set<Id>)
    requires p in db.participants
    ensures Grows(db, WithdrawTables(db, session, p, now, lineage))
  {
  }

  lemma ReceiptGrows(db: Db, logged: Db, p: Id, receipt: Receipt)
    requires Grows(db, logged) && logged.receipts == db.receipts && p !in db.receipts
    ensures Grows(db, logged.(receipts := logged.receipts[p := receipt]))
  {
    hide RowsGrow, PeopleGrow, ArtifactsGrow;
  }

  lemma TablesEventGrow(db: Db, tables: Db, session: Id)
    requires Grows(db, tables) && tables.receipts == db.receipts && tables.idempotency == db.idempotency
    ensures var r := AppendEvent(tables, session, WithdrawalRequested);
            r.Ok? ==> Grows(db, r.value) && r.value.receipts == db.receipts && r.value.idempotency == db.idempotency
  {
    hide Grows;
    EventGrows(tables, session, WithdrawalRequested);
    if AppendEvent(tables, session, WithdrawalRequested).Ok? {
      GrowsTrans(db, tables, AppendEvent(tables, session, WithdrawalRequested).value);
    }
  }

  lemma WithdrawGrows(db: Db, session: Id, p: Id, now: int, id: Id)
    requires p in db.participants
    ensures AttemptGrows(db, PerformWithdraw(db, session, p, now, id))
  {
    var attempt := PerformWithdraw(db, session, p, now, id);
    if attempt.Commit? && p !in db.receipts {
      var tables := WithdrawTables(db, session, p, now, LineageOf(db, p));
      assert tables.receipts == db.receipts && tables.idempotency == db.idempotency;
      WithdrawTablesGrow(db, session, p, now, LineageOf(db, p));
      hide WithdrawTables, LineageOf, Grows, AppendEvent, TasksOf;
      TablesEventGrow(db, tables, session);
      ReceiptGrows(db, AppendEvent(tables, session, WithdrawalRequested).value, p, attempt.db.receipts[p]);
    } else if attempt.Commit? {
      assert attempt.db == db;
    }
  }

  lemma PerformGrows(db: Db, request: Request)
    requires Precheck(db, request).None?
    ensures AttemptGrows(db, Perform(db, request))
  {
    match request
    case RecordAnswer(session, answerId, questionId, value) => ExamGrows(db, session, answerId, questionId, value);
    case SubmitExam(session) => ExamGrows(db, session, "", "", None);
    case ConfirmConsent(session, receipt, version) => ConsentGrows(db, session, receipt, version);
    case Withdraw(session, now, id) => WithdrawGrows(db, session, ParticipantOf(db, session), now, id);
    case _ => hide AppendEvent;
  }

  lemma GrowsRefl(db: Db)
    ensures Grows(db, db)
  {
  }

  lemma RememberGrows(db: Db, performed: Db, after: Db)
    requires Grows(db, performed) && EntriesStay(db.idempotency, after.idempotency)
    requires after == performed.(idempotency := after.idempotency)
    ensures Grows(db, after)
  {
    hide RowsGrow, PeopleGrow, ArtifactsGrow;
  }

  lemma ServeGrows(db: Db, hash: Hash, key: Option<string>, request: Request)
    ensures Grows(db, Serve(db, hash, key, request).0)
  {
    GrowsRefl(db);
    hide Perform, Grows, Precheck, Fallback, ScopeOf, PayloadOf, Key;
    var slot := SlotOf(db, key, request);
    if slot.Some? && slot.value !in db.idempotency {
      PerformGrows(db, request);
      if Perform(db, request).Commit? {
        RememberGrows(db, Perform(db, request).db, Serve(db, hash, key, request).0);
      }
    }
  }

  /** Only the tables of artifacts, dependencies and intents change, and only by new rows. */
  lemma NewRowsGrow(before: Db, after: Db)
    requires after == before.(artifacts := after.artifacts, dependencies := after.dependencies, intents := after.intents)
    requires EntriesStay(before.artifacts, after.artifacts) && before.dependencies <= after.dependencies
    ensures Grows(before, after)
  {
  }

  lemma RegisterGrows(db: Db, artifact: Id, session: Id, parents: seq<Id>)
    ensures Grows(db, RegisterArtifact(db, artifact, session, parents).0)
  {
    hide Grows, UsableParent, MutableResearch, NoDuplicates, IsResearch;
    var (after, outcome) := RegisterArtifact(db, artifact, session, parents);
    assert db.dependencies <= after.dependencies;
    assert EntriesStay(db.artifacts, after.artifacts);
    assert after == db.(artifacts := after.artifacts, dependencies := after.dependencies);
    hide RegisterArtifact;
    NewRowsGrow(db, after);
  }

  lemma DependGrows(db: Db, parent: Id, child: Id)
    ensures Grows(db, AddDependency(db, parent, child).0)
  {
    hide Grows, UsableParent;
    var after := AddDependency(db, parent, child).0;
    assert db.dependencies <= after.dependencies;
    assert after == db.(dependencies := after.dependencies);
    hide AddDependency;
    NewRowsGrow(db, after);
  }

  lemma WriteIntentGrows(db: Db, session: Id, path: string, pathUsable: bool, id: Id)
    ensures Grows(db, CreateWriteIntent(db, session, path, pathUsable, id).0)
  {
    hide Grows, MutableResearch, IsResearch;
    var after := CreateWriteIntent(db, session, path, pathUsable, id).0;
    assert after == db.(intents := after.intents);
    hide CreateWriteIntent;
    NewRowsGrow(db, after);
  }

  lemma OnlySessionsGrow(before: Db, after: Db)
    requires after == before.(sessions := after.sessions) && RowsGrow(before.sessions, after.sessions)
    requires OpensOnlyCurrent(before, after)
    ensures Grows(before, after)
  {
    assert PeopleGrow(before.participants, after.participants);
    assert ArtifactsGrow(before.artifacts, after.artifacts);
    assert EntriesStay(before.events, after.events);
    assert EntriesStay(before.receipts, after.receipts);
    assert EntriesStay(before.idempotency, after.idempotency);
  }

  lemma DemoSessionGrows(db: Db, id: Id)
    ensures Grows(db, CreateDemoSession(db, id).0)
  {
    hide Grows;
    var after := CreateDemoSession(db, id).0;
    assert RowsGrow(db.sessions, after.sessions);
    assert OpensOnlyCurrent(db, after);
    assert after == db.(sessions := after.sessions);
    hide CreateDemoSession;
    OnlySessionsGrow(db, after);
  }

  lemma StepAppendGrows(db: Db, hash: Hash, session: Id, body: EventBody)
    ensures Grows(db, Step(db, hash, Append(session, body)).0)
  {
    EventGrows(db, session, body);
    hide AppendEvent;
  }

  lemma StepGrows(db: Db, hash: Hash, op: Op)
    ensures Grows(db, Step(db, hash, op).0)
  {
    hide Grows;
    match op
    case Append(session, body) => StepAppendGrows(db, hash, session, body);
    case Act(session, action, now) => ActGrows(db, session, action, now);
    case Recover(id) => RecoverGrows(db, id);
    case Keyed(key, request) => ServeGrows(db, hash, key, request);
    case Register(artifact, session, parents) => RegisterGrows(db, artifact, session, parents);
    case Depend(parent, child) => DependGrows(db, parent, child);
    case DemoSession(id) => DemoSessionGrows(db, id);
    case WriteIntent(session, path, pathUsable, id) => WriteIntentGrows(db, session, path, pathUsable, id);
  }

  lemma {:induction false} RunGrows(db: Db, hash: Hash, ops: seq<Op>)
    ensures Grows(db, Run(db, hash, ops))
    decreases |ops|
  {
    if ops != [] {
      var earlier := ops[..|ops| - 1];
      RunGrows(db, hash, earlier);
      StepGrows(Run(db, hash, earlier), hash, ops[|ops| - 1]);
      hide Grows, Step;
      GrowsTrans(db, Run(db, hash, earlier), Run(db, hash, ops));
    }
  }
}
