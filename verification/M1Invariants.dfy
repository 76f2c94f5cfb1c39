/** What every operation of the M1 backend keeps, and therefore what holds in every state
    reachable from the empty store by any sequence of calls. */
module M1Invariants {
  import opened Wrappers
  import opened Lineage
  import opened M1Tables
  import opened M1Operations

  /** Research sessions never enter the demo lifecycle; demo sessions are never withdrawn. */
  ghost predicate SessionOk(participants: map<Id, Participant>, row: Session) {
    if row.kind == Research
    then row.participant.Some? && row.participant.value in participants
         && row.state in {Draft, ConsentConfirmed, Failed, Withdrawn}
    else row.participant.None? && row.state != Withdrawn
  }

  ghost predicate SessionsOk(sessions: map<Id, Session>, participants: map<Id, Participant>) {
    forall s :: s in sessions ==> SessionOk(participants, sessions[s])
  }

  ghost predicate Holds(sessions: map<Id, Session>, s: Id) {
    s in sessions && sessions[s].kind == Research
  }

  ghost predicate ArtifactsLinked(artifacts: map<Id, Artifact>, dependencies: Edges, sessions: map<Id, Session>) {
    && (forall a :: a in artifacts ==> Holds(sessions, artifacts[a].session))
    && (forall e :: e in dependencies ==> e.0 in artifacts && e.1 in artifacts)
  }

  ghost predicate WithdrawalsLinked(tasks: set<(Id, Id)>, receipts: map<Id, Receipt>, sessions: map<Id, Session>) {
    && (forall t :: t in tasks ==> Holds(sessions, t.0))
    && (forall p :: p in receipts ==> Holds(sessions, receipts[p].subject))
  }

  ghost predicate RecordsLinked(consents: map<Id, Consent>, intents: map<Id, Intent>, sessions: map<Id, Session>) {
    && (forall c :: c in consents ==> Holds(sessions, consents[c].session))
    && (forall i :: i in intents ==> Holds(sessions, intents[i].session))
  }

  /** The foreign keys of the schema, and the kinds of sessions they lead to. */
  ghost predicate Linked(db: Db) {
    && SessionsOk(db.sessions, db.participants)
    && ArtifactsLinked(db.artifacts, db.dependencies, db.sessions)
    && WithdrawalsLinked(db.tasks, db.receipts, db.sessions)
    && RecordsLinked(db.consents, db.intents, db.sessions)
  }

  ghost function WithdrawnRoots(db: Db): set<Id> {
    set a | a in db.artifacts && Owner(db, a).Some? && IsWithdrawn(db, Owner(db, a).value)
  }

  /** The cached status agrees with reachability from the withdrawn participants' artifacts. */
  ghost predicate LineageAgrees(db: Db) {
    forall a :: a in db.artifacts ==>
      (db.artifacts[a].status == Invalidated <==> a in Closure(db.dependencies, WithdrawnRoots(db)))
  }

  function CanonicalResponse(receipt: Id, pseudonym: string, taskCount: nat): Response {
    WithdrawalReply(Some(receipt), pseudonym, true, taskCount)
  }

  ghost predicate SettledFor(db: Db, p: Id)
    requires p in db.receipts
  {
    && IsWithdrawn(db, p)
    && db.receipts[p].subject in db.sessions
    && db.sessions[db.receipts[p].subject].participant == Some(p)
    && db.receipts[p].response == CanonicalResponse(db.receipts[p].id, db.participants[p].pseudonym, |LineageOf(db, p)|)
    && TasksOf(db, p) == Pairs(db.receipts[p].subject, LineageOf(db, p))
    && (forall s :: s in db.sessions && db.sessions[s].participant == Some(p) ==>
          db.sessions[s].state == Withdrawn && db.sessions[s].collectionBlocked)
  }

  /** Exactly the withdrawn participants hold a receipt, and each receipt is settled. */
  ghost predicate Settled(db: Db) {
    && (forall p :: p in db.participants && db.participants[p].withdrawnAt.Some? ==> p in db.receipts)
    && (forall p :: p in db.receipts ==> SettledFor(db, p))
    && (forall t :: t in db.tasks ==> t.0 in db.sessions && db.sessions[t.0].participant.Some?
                                      && db.sessions[t.0].participant.value in db.receipts)
  }

  ghost predicate WithdrawalSlots(db: Db, hash: Hash) {
    forall slot :: slot in db.idempotency && slot.0.WithdrawScope? ==>
      var p := slot.0.participant;
      && p in db.receipts && p in db.participants
      && db.idempotency[slot] == Remembered(hash(WithdrawPayload(p, db.participants[p].pseudonym)), db.receipts[p].response)
  }

  /** The structural part of the invariant, shared by all operations. */
  ghost predicate Shape(db: Db) {
    Linked(db) && Logged(db)
  }

  ghost predicate Core(db: Db) {
    Shape(db) && LineageAgrees(db) && Settled(db)
  }

  ghost predicate Inv(db: Db, hash: Hash) {
    Core(db) && WithdrawalSlots(db, hash)
  }

  // ---- Operations that leave lineage and withdrawals alone ----

  ghost predicate KeptSession(before: Session, after: Session) {
    && after.kind == before.kind && after.participant == before.participant
    && (before.state == Withdrawn ==> after.state == Withdrawn)
    && (before.collectionBlocked ==> after.collectionBlocked)
  }

  ghost predicate KeptSessions(before: map<Id, Session>, after: map<Id, Session>) {
    forall s :: s in before ==> s in after && KeptSession(before[s], after[s])
  }

  ghost predicate NewSession(participants: map<Id, Participant>, row: Session) {
    row.participant.Some? ==> row.participant.value in participants && participants[row.participant.value].withdrawnAt.None?
  }

  ghost predicate NewSessions(before: map<Id, Session>, after: map<Id, Session>, participants: map<Id, Participant>) {
    forall s :: s in after && s !in before ==> NewSession(participants, after[s])
  }

  ghost predicate KeptParticipants(before: map<Id, Participant>, after: map<Id, Participant>) {
    && (forall p :: p in before ==> p in after && after[p] == before[p])
    && (forall p :: p in after && p !in before ==> after[p].withdrawnAt.None?)
  }

  ghost predicate Quiet(before: Db, after: Db) {
    && after.artifacts == before.artifacts && after.dependencies == before.dependencies
    && after.tasks == before.tasks && after.receipts == before.receipts
    && KeptParticipants(before.participants, after.participants)
    && KeptSessions(before.sessions, after.sessions)
    && NewSessions(before.sessions, after.sessions, after.participants)
  }

  lemma QuietLineage(before: Db, after: Db)
    requires Linked(before) && Quiet(before, after)
    ensures WithdrawnRoots(after) == WithdrawnRoots(before)
    ensures forall p :: p in before.participants ==> RootsOf(after, p) == RootsOf(before, p)
  {
    assert forall a :: a in before.artifacts ==> Owner(after, a) == Owner(before, a);
    assert forall a :: a in before.artifacts ==> Owner(before, a).Some? && Owner(before, a).value in before.participants;
  }

  lemma QuietTasks(before: Db, after: Db, p: Id)
    requires Linked(before) && Quiet(before, after)
    ensures TasksOf(after, p) == TasksOf(before, p)
  {
    assert forall t :: t in before.tasks ==> after.sessions[t.0].participant == before.sessions[t.0].participant;
  }

  lemma LineageStays(before: Db, after: Db, p: Id)
    requires Linked(before) && Quiet(before, after)
    ensures p in before.participants ==> LineageOf(after, p) == LineageOf(before, p)
    ensures LineageAgrees(before) ==> LineageAgrees(after)
  {
    QuietLineage(before, after);
    hide Closure, RootsOf, WithdrawnRoots;
  }

  lemma QuietSettledFor(before: Db, after: Db, p: Id)
    requires Linked(before) && Quiet(before, after)
    requires p in before.receipts && SettledFor(before, p)
    ensures LineageOf(after, p) == LineageOf(before, p)
    ensures SettledFor(after, p)
  {
    hide TasksOf, WithdrawnRoots, Closure, RootsOf, Pairs;
    QuietLineage(before, after);
    QuietTasks(before, after, p);
  }

  lemma QuietKeepsWithdrawals(before: Db, after: Db)
    requires Linked(before) && LineageAgrees(before) && Settled(before) && Quiet(before, after)
    ensures LineageAgrees(after) && Settled(after)
  {
    hide SettledFor, Closure, WithdrawnRoots;
    QuietLineage(before, after);
    forall p | p in after.receipts ensures SettledFor(after, p) {
      QuietSettledFor(before, after, p);
    }
  }

  lemma SameRoots(db: Db, after: Db)
    requires after.artifacts == db.artifacts && after.sessions == db.sessions && after.participants == db.participants
    ensures WithdrawnRoots(after) == WithdrawnRoots(db)
    ensures forall p :: RootsOf(after, p) == RootsOf(db, p)
  {
    assert forall a :: Owner(after, a) == Owner(db, a);
  }

  lemma SameOwners(db: Db, after: Db)
    requires after.artifacts.Keys == db.artifacts.Keys
    requires forall a :: a in db.artifacts ==> after.artifacts[a].session == db.artifacts[a].session
    requires after.sessions.Keys == db.sessions.Keys
    requires forall s :: s in db.sessions ==> after.sessions[s].participant == db.sessions[s].participant
    ensures forall a :: Owner(after, a) == Owner(db, a)
  {
  }

  lemma SameTasks(db: Db, after: Db)
    requires after.tasks == db.tasks && after.sessions == db.sessions
    ensures forall p :: TasksOf(after, p) == TasksOf(db, p)
  {
  }

  // ---- The event log ----

  lemma AppendKeepsLog(db: Db, session: Id, body: EventBody)
    requires Logged(db) && session in db.sessions
    ensures AppendEvent(db, session, body).Ok?
    ensures Logged(AppendEvent(db, session, body).value)
  {
    assert GapFree(db, session);
    var after := AppendEvent(db, session, body).value;
    forall s | s in after.sessions ensures GapFree(after, s) {
      assert GapFree(db, s);
    }
  }

  ghost predicate SameLogs(before: Db, after: Db) {
    && after.events == before.events
    && (forall s :: s in before.sessions ==> s in after.sessions && after.sessions[s].eventSeq == before.sessions[s].eventSeq)
    && (forall s :: s in after.sessions && s !in before.sessions ==> after.sessions[s].eventSeq == 0)
  }

  lemma SameLogsKeep(before: Db, after: Db)
    requires Logged(before) && SameLogs(before, after)
    ensures Logged(after)
  {
    forall s | s in after.sessions ensures GapFree(after, s) {
      if s in before.sessions {
        assert GapFree(before, s);
      } else {
        forall n ensures (s, n) !in before.events {
          var key := (s, n);
          assert key.0 !in before.sessions;
        }
      }
    }
  }

  // ---- One operation at a time ----

  lemma KeptHolds(before: map<Id, Session>, after: map<Id, Session>)
    requires KeptSessions(before, after)
    ensures forall s :: Holds(before, s) ==> Holds(after, s)
  {
  }

  lemma QuietShape(before: Db, after: Db)
    requires Linked(before) && Quiet(before, after) && Logged(after)
    requires SessionsOk(after.sessions, after.participants)
    requires RecordsLinked(after.consents, after.intents, after.sessions)
    ensures Shape(after)
  {
    hide KeptSessions, Holds, SessionsOk, NewSessions, KeptParticipants, Logged, RecordsLinked;
    KeptHolds(before.sessions, after.sessions);
  }

  lemma RecordsStay(before: Db, sessions: map<Id, Session>)
    requires Linked(before) && KeptSessions(before.sessions, sessions)
    ensures RecordsLinked(before.consents, before.intents, sessions)
  {
    hide KeptSessions, Holds, SessionsOk;
    KeptHolds(before.sessions, sessions);
  }

  /** Replacing one session row by a later version of itself. */
  lemma SetRow(sessions: map<Id, Session>, participants: map<Id, Participant>, s: Id, row: Session)
    requires SessionsOk(sessions, participants) && s in sessions
    requires KeptSession(sessions[s], row) && SessionOk(participants, row)
    ensures SessionsOk(sessions[s := row], participants)
    ensures KeptSessions(sessions, sessions[s := row])
    ensures NewSessions(sessions, sessions[s := row], participants)
  {
  }

  /** A change of one session row together with tables that no other table refers to. */
  lemma RowChange(before: Db, after: Db, s: Id, row: Session)
    requires Shape(before) && s in before.sessions
    requires KeptSession(before.sessions[s], row) && SessionOk(before.participants, row)
    requires row.eventSeq == before.sessions[s].eventSeq
    requires after == before.(sessions := before.sessions[s := row], answers := after.answers, attempts := after.attempts,
                              consents := after.consents, intents := after.intents, idempotency := after.idempotency)
    requires RecordsLinked(after.consents, after.intents, before.sessions)
    ensures Shape(after) && Quiet(before, after)
  {
    SetRow(before.sessions, before.participants, s, row);
    assert RecordsLinked(after.consents, after.intents, after.sessions) by {
      KeptHolds(before.sessions, after.sessions);
    }
    hide SessionsOk, KeptSessions, NewSessions, RecordsLinked, ArtifactsLinked, WithdrawalsLinked;
    SameLogsKeep(before, after);
    QuietShape(before, after);
  }

  lemma AppendEventQuiet(db: Db, session: Id, body: EventBody)
    requires Shape(db) && session in db.sessions
    ensures var r := AppendEvent(db, session, body);
            r.Ok? && Shape(r.value) && Quiet(db, r.value) && r.value.idempotency == db.idempotency
  {
    AppendKeepsLog(db, session, body);
    hide ArtifactsLinked, WithdrawalsLinked, RecordsLinked, Logged;
    var after := AppendEvent(db, session, body).value;
    SetRow(db.sessions, db.participants, session, after.sessions[session]);
    hide SessionsOk, KeptSessions, NewSessions;
    RecordsStay(db, after.sessions);
    QuietShape(db, after);
  }

  lemma QuietTrans(a: Db, b: Db, c: Db)
    requires Quiet(a, b) && Quiet(b, c)
    ensures Quiet(a, c)
  {
  }

  /** A row change followed by an event of the same session. */
  lemma ChangeThenEvent(before: Db, middle: Db, s: Id, row: Session, body: EventBody)
    requires Shape(before) && s in before.sessions
    requires KeptSession(before.sessions[s], row) && SessionOk(before.participants, row)
    requires row.eventSeq == before.sessions[s].eventSeq
    requires middle == before.(sessions := before.sessions[s := row], answers := middle.answers, attempts := middle.attempts,
                               consents := middle.consents)
    requires RecordsLinked(middle.consents, middle.intents, before.sessions)
    ensures var r := AppendEvent(middle, s, body);
            r.Ok? && Shape(r.value) && Quiet(before, r.value) && r.value.idempotency == before.idempotency
  {
    hide Shape, Quiet, SessionOk, RecordsLinked, KeptSession;
    RowChange(before, middle, s, row);
    AppendEventQuiet(middle, s, body);
    QuietTrans(before, middle, AppendEvent(middle, s, body).value);
  }

  /** A new session row with an empty log. */
  lemma InsertSession(before: Db, after: Db, s: Id, row: Session)
    requires Shape(before) && s !in before.sessions
    requires SessionOk(before.participants, row) && NewSession(before.participants, row) && row.eventSeq == 0
    requires after == before.(sessions := before.sessions[s := row], retention := after.retention)
    ensures Shape(after) && Quiet(before, after)
  {
    assert SessionsOk(after.sessions, after.participants);
    assert KeptSessions(before.sessions, after.sessions);
    assert NewSessions(before.sessions, after.sessions, after.participants);
    hide SessionsOk, KeptSessions, NewSessions, RecordsLinked, ArtifactsLinked, WithdrawalsLinked;
    SameLogsKeep(before, after);
    RecordsStay(before, after.sessions);
    QuietShape(before, after);
  }

  lemma InsertParticipant(before: Db, after: Db, p: Id, row: Participant)
    requires Shape(before) && p !in before.participants && row.withdrawnAt.None?
    requires after == before.(participants := before.participants[p := row])
    ensures Shape(after) && Quiet(before, after)
  {
    assert SessionsOk(after.sessions, after.participants);
    assert KeptParticipants(before.participants, after.participants);
    hide SessionsOk, KeptParticipants, RecordsLinked, ArtifactsLinked, WithdrawalsLinked;
    SameLogsKeep(before, after);
    RecordsStay(before, after.sessions);
    QuietShape(before, after);
  }

  lemma ActQuiet(db: Db, session: Id, action: Action, now: int)
    requires Shape(db)
    ensures var after := ApplyAction(db, session, action, now).0;
            Shape(after) && Quiet(db, after) && after.idempotency == db.idempotency
  {
    var after := ApplyAction(db, session, action, now).0;
    if after != db {
      assert SessionOk(db.participants, db.sessions[session]);
      var row := db.sessions[session];
      var next := Transition(row.state, action).value;
      var started := if action == StartAction then Some(now) else row.startedAt;
      var moved := row.(state := next, startedAt := started);
      ChangeThenEvent(db, db.(sessions := db.sessions[session := moved]), session, moved, SessionStateChanged(next));
    }
  }

  lemma WriteIntentQuiet(db: Db, session: Id, path: string, pathUsable: bool, id: Id)
    requires Shape(db)
    ensures var after := CreateWriteIntent(db, session, path, pathUsable, id).0;
            Shape(after) && Quiet(db, after) && after.idempotency == db.idempotency
  {
    var after := CreateWriteIntent(db, session, path, pathUsable, id).0;
    if after != db {
      hide ArtifactsLinked, WithdrawalsLinked, Logged, MutableResearch;
      assert after.sessions == db.sessions[session := db.sessions[session]];
      RowChange(db, after, session, db.sessions[session]);
    }
  }

  lemma RecoverQuiet(db: Db, id: Id)
    requires Shape(db)
    ensures var after := RecoverIntent(db, id).0;
            Shape(after) && Quiet(db, after) && after.idempotency == db.idempotency
  {
    if RecoverIntent(db, id).1 == Applied {
      hide ArtifactsLinked, WithdrawalsLinked, Logged;
      var session := db.intents[id].session;
      var after := RecoverIntent(db, id).0;
      RowChange(db, after, session, after.sessions[session]);
    }
  }

  lemma PlainOps(db: Db, hash: Hash, op: Op)
    requires Shape(db) && (op.DemoSession? || op.Append? || op.Act? || op.WriteIntent? || op.Recover?)
    ensures var after := Step(db, hash, op).0;
            Shape(after) && Quiet(db, after) && after.idempotency == db.idempotency
  {
    var after := Step(db, hash, op).0;
    if after != db {
      match op
      case DemoSession(id) => InsertSession(db, after, id, after.sessions[id]);
      case Append(session, body) => AppendEventQuiet(db, session, body);
      case Act(session, action, now) => ActQuiet(db, session, action, now);
      case WriteIntent(session, path, pathUsable, id) => WriteIntentQuiet(db, session, path, pathUsable, id);
      case Recover(id) => RecoverQuiet(db, id);
    }
  }

  ghost predicate KeptByAttempt(db: Db, attempt: Attempt) {
    attempt.Commit? ==> Shape(attempt.db) && Quiet(db, attempt.db) && attempt.db.idempotency == db.idempotency
  }

  lemma ConsentsLinked(db: Db, session: Id, receipt: Id, version: string)
    requires Linked(db) && IsResearch(db, session)
    ensures RecordsLinked(ReplaceConsent(db.consents, receipt, Consent(session, version)), db.intents, db.sessions)
  {
    hide SessionsOk, ArtifactsLinked, WithdrawalsLinked;
  }

  lemma ConsentQuiet(db: Db, session: Id, receipt: Id, version: string)
    requires Shape(db)
    ensures KeptByAttempt(db, PerformConsent(db, session, receipt, version))
  {
    if PerformConsent(db, session, receipt, version).Commit? {
      assert SessionOk(db.participants, db.sessions[session]);
      ConsentsLinked(db, session, receipt, version);
      hide Shape, SessionsOk, RecordsLinked, ReplaceConsent, MutableResearch, AppendEvent, Quiet;
      var current := db.sessions[session];
      var row := current.(state := if current.state == Draft then ConsentConfirmed else current.state);
      var consents := ReplaceConsent(db.consents, receipt, Consent(session, version));
      ChangeThenEvent(db, db.(sessions := db.sessions[session := row], consents := consents), session, row,
                      OperatorConsentConfirmed(version));
    }
  }

  lemma AnswerQuiet(db: Db, session: Id, answerId: string, questionId: string, value: Option<string>)
    requires Shape(db)
    ensures KeptByAttempt(db, PerformAnswer(db, session, answerId, questionId, value))
  {
    if PerformAnswer(db, session, answerId, questionId, value).Commit? {
      assert SessionOk(db.participants, db.sessions[session]);
      var noted := db.(answers := db.answers + [Answer(session, answerId, questionId, value)]);
      assert noted.sessions == db.sessions[session := db.sessions[session]];
      hide Quiet, SessionsOk, ArtifactsLinked, WithdrawalsLinked, Logged;
      ChangeThenEvent(db, noted, session, db.sessions[session], AnswerRecorded(answerId));
    }
  }

  lemma SubmitQuiet(db: Db, session: Id)
    requires Shape(db)
    ensures KeptByAttempt(db, PerformSubmit(db, session))
  {
    if PerformSubmit(db, session).Commit? {
      assert SessionOk(db.participants, db.sessions[session]);
      var row := db.sessions[session].(submitted := true);
      hide Quiet, SessionsOk, ArtifactsLinked, WithdrawalsLinked, Logged;
      ChangeThenEvent(db, db.(sessions := db.sessions[session := row], attempts := db.attempts + [session]),
                      session, row, ExamSubmitted);
    }
  }

  lemma StudyQuiet(db: Db, code: string, id: Id)
    requires Shape(db)
    ensures KeptByAttempt(db, PerformStudy(db, code, id))
  {
    if PerformStudy(db, code, id).Commit? {
      hide SessionsOk, ArtifactsLinked, WithdrawalsLinked, RecordsLinked;
      SameLogsKeep(db, PerformStudy(db, code, id).db);
    }
  }

  lemma PlainRequests(db: Db, request: Request)
    requires Shape(db) && !request.Withdraw? && Precheck(db, request).None?
    ensures KeptByAttempt(db, Perform(db, request))
  {
    hide Quiet, Linked, Logged;
    match request
    case RecordAnswer(session, answerId, questionId, value) =>
      hide PerformAnswer;
      AnswerQuiet(db, session, answerId, questionId, value);
    case SubmitExam(session) =>
      hide PerformSubmit;
      SubmitQuiet(db, session);
    case CreateStudy(code, id) =>
      hide PerformStudy;
      StudyQuiet(db, code, id);
    case CreateParticipant(study, id, pseudonym) =>
      var attempt := Perform(db, request);
      if attempt.Commit? { InsertParticipant(db, attempt.db, id, attempt.db.participants[id]); }
    case CreateResearchSession(_, _, _, _, _, id) =>
      var attempt := Perform(db, request);
      if attempt.Commit? { InsertSession(db, attempt.db, id, attempt.db.sessions[id]); }
    case ConfirmConsent(session, receipt, version) =>
      hide PerformConsent;
      ConsentQuiet(db, session, receipt, version);
  }

  // ---- Artifacts ----

  lemma ValidIsOutside(db: Db, parent: Id)
    requires Linked(db) && LineageAgrees(db) && UsableParent(db, parent)
    ensures parent !in Closure(db.dependencies, WithdrawnRoots(db))
  {
  }

  lemma LineageInsideWithdrawn(db: Db, p: Id)
    requires IsWithdrawn(db, p)
    ensures LineageOf(db, p) <= Closure(db.dependencies, WithdrawnRoots(db))
  {
    ClosureIsClosed(db.dependencies, WithdrawnRoots(db));
    ClosureIsLeast(db.dependencies, RootsOf(db, p), Closure(db.dependencies, WithdrawnRoots(db)));
  }

  lemma MoreEdgesKeepLineages(db: Db, after: Db, more: Edges)
    requires Linked(db) && LineageAgrees(db)
    requires after.dependencies == db.dependencies + more
    requires forall e :: e in more ==> UsableParent(db, e.0)
    requires WithdrawnRoots(after) == WithdrawnRoots(db)
    requires forall p :: p in db.receipts ==> RootsOf(after, p) == RootsOf(db, p)
    requires Settled(db)
    ensures Closure(after.dependencies, WithdrawnRoots(after)) == Closure(db.dependencies, WithdrawnRoots(db))
    ensures forall p :: p in db.receipts ==> LineageOf(after, p) == LineageOf(db, p)
  {
    forall e | e in more ensures e.0 !in Closure(db.dependencies, WithdrawnRoots(db)) {
      ValidIsOutside(db, e.0);
    }
    EdgesFromOutside(db.dependencies, more, WithdrawnRoots(db));
    forall p | p in db.receipts ensures LineageOf(after, p) == LineageOf(db, p) {
      assert SettledFor(db, p);
      LineageInsideWithdrawn(db, p);
      EdgesFromOutside(db.dependencies, more, RootsOf(db, p));
    }
  }

  lemma MoreEdgesKeepSettledFor(db: Db, after: Db, p: Id)
    requires p in db.receipts && SettledFor(db, p)
    requires after == db.(artifacts := after.artifacts, dependencies := after.dependencies)
    requires LineageOf(after, p) == LineageOf(db, p)
    ensures SettledFor(after, p)
  {
    SameTasks(db, after);
    hide LineageOf, TasksOf, Pairs;
  }

  /** New edges out of usable artifacts, and possibly one new artifact, settle nothing anew. */
  lemma MoreEdgesKeepSettled(db: Db, after: Db, more: Edges)
    requires Linked(db) && LineageAgrees(db) && Settled(db)
    requires after == db.(artifacts := after.artifacts, dependencies := db.dependencies + more)
    requires forall e :: e in more ==> UsableParent(db, e.0)
    requires WithdrawnRoots(after) == WithdrawnRoots(db)
    requires forall p :: p in db.receipts ==> RootsOf(after, p) == RootsOf(db, p)
    ensures Settled(after)
    ensures Closure(after.dependencies, WithdrawnRoots(after)) == Closure(db.dependencies, WithdrawnRoots(db))
  {
    MoreEdgesKeepLineages(db, after, more);
    hide Closure, RootsOf, WithdrawnRoots, UsableParent, LineageAgrees, LineageOf, SettledFor, Linked;
    forall p | p in after.receipts ensures SettledFor(after, p) {
      MoreEdgesKeepSettledFor(db, after, p);
    }
  }

  lemma DependCore(db: Db, after: Db, parent: Id, child: Id)
    requires Core(db) && UsableParent(db, parent) && child in db.artifacts
    requires after == db.(dependencies := db.dependencies + {(parent, child)})
    ensures Core(after)
  {
    SameRoots(db, after);
    assert Shape(after) by { SameLogsKeep(db, after); }
    hide Closure, RootsOf, WithdrawnRoots, Settled, Linked, Logged;
    MoreEdgesKeepSettled(db, after, {(parent, child)});
  }

  lemma DependKeeps(db: Db, hash: Hash, parent: Id, child: Id)
    requires Inv(db, hash)
    ensures Inv(AddDependency(db, parent, child).0, hash)
  {
    hide Core, UsableParent;
    if AddDependency(db, parent, child).1 == Applied {
      DependCore(db, AddDependency(db, parent, child).0, parent, child);
    }
  }

  lemma SettledAreWithdrawn(db: Db)
    requires Settled(db)
    ensures forall p :: p in db.receipts ==> IsWithdrawn(db, p)
  {
    forall p | p in db.receipts ensures IsWithdrawn(db, p) {
      assert SettledFor(db, p);
    }
  }

  lemma RegisterRoots(db: Db, after: Db, artifact: Id, session: Id)
    requires artifact !in db.artifacts && IsResearch(db, session) && MutableResearch(db, session)
    requires after == db.(artifacts := db.artifacts[artifact := Artifact(session, Valid)], dependencies := after.dependencies)
    ensures WithdrawnRoots(after) == WithdrawnRoots(db)
    ensures forall p :: IsWithdrawn(db, p) ==> RootsOf(after, p) == RootsOf(db, p)
  {
    assert forall a :: a in db.artifacts ==> Owner(after, a) == Owner(db, a);
    assert Owner(after, artifact) == db.sessions[session].participant;
    hide IsResearch;
  }

  lemma RegisterLinked(db: Db, after: Db, artifact: Id, session: Id)
    requires Shape(db) && artifact !in db.artifacts && IsResearch(db, session)
    requires after == db.(artifacts := db.artifacts[artifact := Artifact(session, Valid)], dependencies := after.dependencies)
    requires forall e :: e in after.dependencies ==> e in db.dependencies || (e.0 in db.artifacts && e.1 == artifact)
    ensures Shape(after)
  {
    assert ArtifactsLinked(after.artifacts, after.dependencies, after.sessions);
    hide ArtifactsLinked, SessionsOk, WithdrawalsLinked, RecordsLinked;
    SameLogsKeep(db, after);
  }

  lemma UsableIsRegistered(db: Db)
    ensures forall p :: UsableParent(db, p) ==> p in db.artifacts
  {
  }

  lemma RegisterAgrees(db: Db, after: Db, artifact: Id, session: Id)
    requires Linked(db) && LineageAgrees(db) && artifact !in db.artifacts
    requires after.artifacts == db.artifacts[artifact := Artifact(session, Valid)]
    requires WithdrawnRoots(after) == WithdrawnRoots(db)
    requires Closure(after.dependencies, WithdrawnRoots(after)) == Closure(db.dependencies, WithdrawnRoots(db))
    ensures LineageAgrees(after)
  {
    ClosureWithinNodes(db.dependencies, WithdrawnRoots(db), db.artifacts.Keys);
    hide Closure, WithdrawnRoots, Linked;
  }

  lemma RegisterCommitted(db: Db, artifact: Id, session: Id, parents: seq<Id>)
    requires RegisterArtifact(db, artifact, session, parents).1 == Applied
    ensures IsResearch(db, session) && MutableResearch(db, session) && artifact !in db.artifacts
    ensures forall p :: p in parents ==> UsableParent(db, p)
  {
    hide IsResearch, MutableResearch, UsableParent, NoDuplicates;
  }

  lemma RegisterCore(db: Db, after: Db, artifact: Id, session: Id, more: Edges)
    requires Core(db) && artifact !in db.artifacts && IsResearch(db, session) && MutableResearch(db, session)
    requires forall e :: e in more ==> UsableParent(db, e.0) && e.1 == artifact
    requires after == db.(artifacts := db.artifacts[artifact := Artifact(session, Valid)], dependencies := db.dependencies + more)
    ensures Core(after)
  {
    RegisterRoots(db, after, artifact, session);
    SettledAreWithdrawn(db);
    assert Shape(after) by {
      UsableIsRegistered(db);
      RegisterLinked(db, after, artifact, session);
    }
    hide UsableParent, MutableResearch, IsResearch, Closure, RootsOf, WithdrawnRoots, Settled, Logged, LineageAgrees;
    MoreEdgesKeepSettled(db, after, more);
    RegisterAgrees(db, after, artifact, session);
  }

  lemma RegisterKeeps(db: Db, hash: Hash, artifact: Id, session: Id, parents: seq<Id>)
    requires Inv(db, hash)
    ensures Inv(RegisterArtifact(db, artifact, session, parents).0, hash)
  {
    hide Core, UsableParent, MutableResearch, NoDuplicates;
    if RegisterArtifact(db, artifact, session, parents).1 == Applied {
      RegisterCommitted(db, artifact, session, parents);
      RegisterCore(db, RegisterArtifact(db, artifact, session, parents).0, artifact, session, set p | p in parents :: (p, artifact));
    }
  }

  // ---- Withdrawal ----

  lemma WithdrawRowsKept(db: Db, p: Id, now: int)
    requires Linked(db)
    ensures var rows := WithdrawRows(db.sessions, p, now);
            && KeptSessions(db.sessions, rows) && rows.Keys == db.sessions.Keys
            && SessionsOk(rows, db.participants)
            && (forall s :: s in rows ==> rows[s].eventSeq == db.sessions[s].eventSeq)
  {
  }

  lemma PairSubjects(subject: Id, s: set<Id>)
    ensures forall t :: t in Pairs(subject, s) ==> t.0 == subject
  {
  }

  lemma InvalidatedRows(artifacts: map<Id, Artifact>, lineage: set<Id>)
    ensures InvalidateRows(artifacts, lineage).Keys == artifacts.Keys
    ensures forall a :: a in artifacts ==> InvalidateRows(artifacts, lineage)[a].session == artifacts[a].session
  {
  }

  /** The tables right after the row loop of a withdrawal, for any selected `lineage`. */
  lemma WithdrawTablesShape(db: Db, session: Id, p: Id, now: int, lineage: set<Id>)
    requires Shape(db) && Holds(db.sessions, session) && p in db.participants && lineage <= db.artifacts.Keys
    ensures Shape(WithdrawTables(db, session, p, now, lineage))
  {
    var after := WithdrawTables(db, session, p, now, lineage);
    WithdrawRowsKept(db, p, now);
    InvalidatedRows(db.artifacts, lineage);
    hide WithdrawRows, InvalidateRows, Holds, RecordsLinked;
    assert SessionsOk(after.sessions, after.participants);
    KeptHolds(db.sessions, after.sessions);
    RecordsStay(db, after.sessions);
    hide KeptSessions, SessionsOk;
    PairSubjects(session, lineage);
    hide Pairs;
    assert after.artifacts.Keys == db.artifacts.Keys;
    SameLogsKeep(db, after);
  }

  lemma WithdrawTablesRoots(db: Db, session: Id, p: Id, now: int, lineage: set<Id>)
    requires Linked(db) && p in db.participants
    ensures var after := WithdrawTables(db, session, p, now, lineage);
            && (forall q :: RootsOf(after, q) == RootsOf(db, q))
            && WithdrawnRoots(after) == WithdrawnRoots(db) + RootsOf(db, p)
  {
    var after := WithdrawTables(db, session, p, now, lineage);
    WithdrawRowsKept(db, p, now);
    hide WithdrawRows;
    SameOwners(db, after);
    assert forall q :: IsWithdrawn(after, q) <==> IsWithdrawn(db, q) || q == p;
    hide Linked, KeptSessions, SessionsOk;
    forall q ensures RootsOf(after, q) == RootsOf(db, q) {}
  }

  lemma WithdrawTablesLineage(db: Db, session: Id, p: Id, now: int)
    requires Linked(db) && LineageAgrees(db) && p in db.participants
    ensures var after := WithdrawTables(db, session, p, now, LineageOf(db, p));
            LineageAgrees(after) && forall q :: LineageOf(after, q) == LineageOf(db, q)
  {
    var after := WithdrawTables(db, session, p, now, LineageOf(db, p));
    WithdrawTablesRoots(db, session, p, now, LineageOf(db, p));
    ClosureOfUnion(db.dependencies, WithdrawnRoots(db), RootsOf(db, p));
    hide Closure, WithdrawnRoots, RootsOf, WithdrawRows, Linked;
    assert Closure(after.dependencies, WithdrawnRoots(after)) == Closure(db.dependencies, WithdrawnRoots(db)) + LineageOf(db, p);
  }

  lemma {:induction false} PairCount(subject: Id, s: set<Id>)
    ensures |Pairs(subject, s)| == |s|
  {
    if s != {} {
      var x := AnyOf(s);
      PairCount(subject, s - {x});
      assert Pairs(subject, s) == Pairs(subject, s - {x}) + {(subject, x)};
    }
  }

  lemma NoTasksYet(db: Db, p: Id)
    requires Settled(db) && p !in db.receipts
    ensures TasksOf(db, p) == {}
  {
    hide SettledFor;
  }

  /** What a status says about a participant: it is terminal exactly for a withdrawn one, and then
      names the receipt and counts the whole lineage, which is what there are tasks for; before that
      there is nothing to count. */
  ghost predicate StatusTells(db: Db, p: Id, reply: Response)
    requires p in db.participants
  {
    && reply.WithdrawalReply? && reply.pseudonym == db.participants[p].pseudonym
    && (reply.terminal <==> IsWithdrawn(db, p))
    && (reply.terminal <==> p in db.receipts)
    && reply.receipt == (if p in db.receipts then Some(db.receipts[p].id) else None)
    && reply.taskCount == |TasksOf(db, p)|
    && reply.taskCount == (if reply.terminal then |LineageOf(db, p)| else 0)
  }

  lemma StatusIsSettled(db: Db, session: Id)
    requires Settled(db) && IsResearch(db, session)
    ensures StatusReply(db, session).Ok? && StatusTells(db, ParticipantOf(db, session), StatusReply(db, session).value)
  {
    var p := ParticipantOf(db, session);
    if p in db.receipts {
      assert SettledFor(db, p);
      PairCount(db.receipts[p].subject, LineageOf(db, p));
    } else {
      NoTasksYet(db, p);
    }
    hide LineageOf, Pairs;
  }

  lemma WithdrawTablesTasks(db: Db, session: Id, p: Id, now: int, lineage: set<Id>)
    requires Linked(db) && TasksOf(db, p) == {} && p in db.participants
    requires session in db.sessions && db.sessions[session].participant == Some(p)
    ensures var after := WithdrawTables(db, session, p, now, lineage);
            && TasksOf(after, p) == Pairs(session, lineage)
            && (forall q :: q != p ==> TasksOf(after, q) == TasksOf(db, q))
            && (forall t :: t in after.tasks ==> t in db.tasks || t in Pairs(session, lineage))
  {
    var after := WithdrawTables(db, session, p, now, lineage);
    WithdrawRowsKept(db, p, now);
    assert forall s :: s in after.sessions ==> after.sessions[s].participant == db.sessions[s].participant;
    hide WithdrawRows, InvalidateRows, KeptSessions, SessionsOk, ArtifactsLinked, RecordsLinked;
    PairSubjects(session, lineage);
    hide Pairs;
    assert forall t :: t in db.tasks ==> t !in TasksOf(db, p);
    assert TasksOf(after, p) == Pairs(session, lineage);
    assert forall q :: q != p ==> TasksOf(after, q) == TasksOf(db, q);
  }

  /** What the row loop of `p` leaves of another participant's settled withdrawal. */
  lemma WithdrawTablesSettled(db: Db, session: Id, p: Id, now: int, q: Id)
    requires Linked(db) && LineageAgrees(db) && p in db.participants && q in db.receipts && q != p && SettledFor(db, q)
    requires TasksOf(db, p) == {} && session in db.sessions && db.sessions[session].participant == Some(p)
    ensures SettledFor(WithdrawTables(db, session, p, now, LineageOf(db, p)), q)
  {
    WithdrawRowsKept(db, p, now);
    WithdrawTablesTasks(db, session, p, now, LineageOf(db, p));
    WithdrawTablesLineage(db, session, p, now);
    hide Linked, LineageAgrees, WithdrawRows, LineageOf, TasksOf, InvalidateRows, Pairs, SessionsOk;
  }

  /** Everything about the withdrawal of `p` is in place except its receipt. */
  ghost predicate AwaitsReceipt(db: Db, p: Id, subject: Id, lineage: set<Id>) {
    && p !in db.receipts && IsWithdrawn(db, p)
    && Holds(db.sessions, subject) && db.sessions[subject].participant == Some(p)
    && LineageOf(db, p) == lineage
    && TasksOf(db, p) == Pairs(subject, lineage)
    && (forall s :: s in db.sessions && db.sessions[s].participant == Some(p) ==>
          db.sessions[s].state == Withdrawn && db.sessions[s].collectionBlocked)
    && (forall q :: q in db.participants && db.participants[q].withdrawnAt.Some? ==> q == p || q in db.receipts)
    && (forall t :: t in db.tasks ==>
          t.0 in db.sessions && db.sessions[t.0].participant.Some? && (db.sessions[t.0].participant.value == p || db.sessions[t.0].participant.value in db.receipts))
  }

  ghost predicate OthersSettled(db: Db) {
    forall q :: q in db.receipts ==> SettledFor(db, q)
  }

  /** Who is withdrawn, and whose tasks there are, after the row loop. */
  lemma RowLoopOwners(db: Db, session: Id, p: Id, now: int, lineage: set<Id>)
    requires Linked(db) && Settled(db) && Holds(db.sessions, session) && db.sessions[session].participant == Some(p)
    requires p in db.participants && p !in db.receipts && LineageOf(db, p) == lineage
    requires LineageOf(WithdrawTables(db, session, p, now, lineage), p) == lineage
    ensures AwaitsReceipt(WithdrawTables(db, session, p, now, lineage), p, session, lineage)
  {
    NoTasksYet(db, p);
    WithdrawTablesTasks(db, session, p, now, lineage);
    WithdrawRowsKept(db, p, now);
    hide LineageOf, TasksOf, SettledFor, SessionsOk, Pairs, ArtifactsLinked, RecordsLinked, WithdrawalsLinked, InvalidateRows;
    assert forall t :: t in Pairs(session, lineage) ==> t.0 == session by { PairSubjects(session, lineage); }
  }

  /** The whole store after the row loop of the first withdrawal of `p`. */
  lemma AfterRowLoop(db: Db, session: Id, p: Id, now: int)
    requires Core(db) && IsResearch(db, session) && ParticipantOf(db, session) == p && p !in db.receipts
    ensures var tables := WithdrawTables(db, session, p, now, LineageOf(db, p));
            && Shape(tables) && LineageAgrees(tables) && OthersSettled(tables)
            && AwaitsReceipt(tables, p, session, LineageOf(db, p))
  {
    var lineage := LineageOf(db, p);
    ClosureWithinNodes(db.dependencies, RootsOf(db, p), db.artifacts.Keys);
    WithdrawTablesShape(db, session, p, now, lineage);
    WithdrawTablesLineage(db, session, p, now);
    hide Closure, RootsOf, Logged, TasksOf, SettledFor, AwaitsReceipt, SessionsOk, ArtifactsLinked;
    RowLoopOwners(db, session, p, now, lineage);
    NoTasksYet(db, p);
    hide Settled, LineageAgrees, LineageOf, Linked;
    forall q | q in db.receipts ensures SettledFor(WithdrawTables(db, session, p, now, lineage), q) {
      WithdrawTablesSettled(db, session, p, now, q);
    }
  }

  lemma EventKeepsAwaiting(tables: Db, logged: Db, p: Id, subject: Id, lineage: set<Id>)
    requires Linked(tables) && Quiet(tables, logged) && AwaitsReceipt(tables, p, subject, lineage) && OthersSettled(tables)
    requires logged.sessions.Keys == tables.sessions.Keys && logged.participants == tables.participants
    ensures AwaitsReceipt(logged, p, subject, lineage) && OthersSettled(logged)
  {
    QuietTasks(tables, logged, p);
    LineageStays(tables, logged, p);
    assert OthersSettled(logged) by {
      hide Quiet, Linked;
      forall q | q in tables.receipts ensures SettledFor(logged, q) {
        QuietSettledFor(tables, logged, q);
      }
      assert logged.receipts == tables.receipts by { QuietReceipts(tables, logged); }
    }
    hide LineageOf, TasksOf, Pairs, OthersSettled, Linked, LineageAgrees;
  }

  lemma QuietReceipts(before: Db, after: Db)
    requires Quiet(before, after)
    ensures after.receipts == before.receipts
  {
  }

  lemma OtherReceipt(db: Db, after: Db, q: Id)
    requires q in db.receipts && SettledFor(db, q)
    requires after == db.(receipts := after.receipts) && q in after.receipts && after.receipts[q] == db.receipts[q]
    ensures SettledFor(after, q)
  {
    SameRoots(db, after);
    SameTasks(db, after);
    hide Closure, RootsOf, TasksOf, Pairs, WithdrawnRoots;
  }

  lemma OwnReceipt(db: Db, after: Db, p: Id, receipt: Receipt, lineage: set<Id>)
    requires AwaitsReceipt(db, p, receipt.subject, lineage)
    requires after == db.(receipts := db.receipts[p := receipt])
    requires receipt.response == CanonicalResponse(receipt.id, db.participants[p].pseudonym, |TasksOf(db, p)|)
    ensures SettledFor(after, p)
  {
    SameRoots(db, after);
    SameTasks(db, after);
    PairCount(receipt.subject, lineage);
    hide Closure, RootsOf, TasksOf, Pairs, WithdrawnRoots;
  }

  lemma ReceiptShape(db: Db, after: Db, p: Id, receipt: Receipt)
    requires Shape(db) && LineageAgrees(db) && Holds(db.sessions, receipt.subject)
    requires after == db.(receipts := db.receipts[p := receipt])
    ensures Shape(after) && LineageAgrees(after)
  {
    SameRoots(db, after);
    hide Closure, WithdrawnRoots, RootsOf, SessionsOk, ArtifactsLinked, RecordsLinked;
    SameLogsKeep(db, after);
  }

  /** Adding the receipt of `p` to a store where everything else about `p` is in place. */
  lemma ReceiptSettles(db: Db, after: Db, p: Id, receipt: Receipt, lineage: set<Id>)
    requires Shape(db) && LineageAgrees(db) && OthersSettled(db) && AwaitsReceipt(db, p, receipt.subject, lineage)
    requires after == db.(receipts := db.receipts[p := receipt])
    requires receipt.response == CanonicalResponse(receipt.id, db.participants[p].pseudonym, |TasksOf(db, p)|)
    ensures Core(after)
  {
    ReceiptShape(db, after, p, receipt);
    OwnReceipt(db, after, p, receipt, lineage);
    hide Shape, LineageAgrees, AwaitsReceipt, SettledFor, Settled, Pairs;
    forall q | q in after.receipts ensures SettledFor(after, q) {
      if q != p { OtherReceipt(db, after, q); }
    }
    ReceiptOwners(db, after, p, receipt, lineage);
  }

  lemma ReceiptOwners(db: Db, after: Db, p: Id, receipt: Receipt, lineage: set<Id>)
    requires AwaitsReceipt(db, p, receipt.subject, lineage)
    requires after == db.(receipts := db.receipts[p := receipt])
    requires forall q :: q in after.receipts ==> SettledFor(after, q)
    ensures Settled(after)
  {
    hide SettledFor, LineageOf, TasksOf, Pairs, IsWithdrawn, Holds;
  }

  lemma RowLoopPeople(db: Db, session: Id, p: Id, now: int, lineage: set<Id>)
    requires p in db.participants
    ensures var tables := WithdrawTables(db, session, p, now, lineage);
            && tables.participants.Keys == db.participants.Keys
            && (forall q :: q in db.participants ==> tables.participants[q].pseudonym == db.participants[q].pseudonym)
            && tables.idempotency == db.idempotency && tables.receipts == db.receipts
            && tables.sessions.Keys == db.sessions.Keys
  {
  }

  lemma EventKeepsWithdrawal(tables: Db, session: Id, p: Id, lineage: set<Id>)
    requires Shape(tables) && LineageAgrees(tables) && OthersSettled(tables) && AwaitsReceipt(tables, p, session, lineage)
    ensures var logged := AppendEvent(tables, session, WithdrawalRequested);
            && logged.Ok?
            && logged.value == tables.(sessions := logged.value.sessions, events := logged.value.events)
            && Shape(logged.value) && LineageAgrees(logged.value) && OthersSettled(logged.value)
            && AwaitsReceipt(logged.value, p, session, lineage)
  {
    assert session in tables.sessions;
    hide AwaitsReceipt, LineageAgrees, OthersSettled, Linked, Logged, Quiet, LineageOf;
    AppendEventQuiet(tables, session, WithdrawalRequested);
    var logged := AppendEvent(tables, session, WithdrawalRequested).value;
    LineageStays(tables, logged, p);
    EventKeepsAwaiting(tables, logged, p, session, lineage);
  }

  /** The store just before the receipt is inserted: `WithdrawalRequested` is logged. */
  lemma LoggedWithdrawal(db: Db, session: Id, p: Id, now: int)
    requires Core(db) && IsResearch(db, session) && ParticipantOf(db, session) == p && p !in db.receipts
    ensures var lineage := LineageOf(db, p);
            var tables := WithdrawTables(db, session, p, now, lineage);
            var logged := AppendEvent(tables, session, WithdrawalRequested);
            && logged.Ok?
            && logged.value == tables.(sessions := logged.value.sessions, events := logged.value.events)
            && Shape(logged.value) && LineageAgrees(logged.value) && OthersSettled(logged.value)
            && AwaitsReceipt(logged.value, p, session, lineage)
  {
    AfterRowLoop(db, session, p, now);
    hide *;
    EventKeepsWithdrawal(WithdrawTables(db, session, p, now, LineageOf(db, p)), session, p, LineageOf(db, p));
  }

  lemma FirstWithdrawalSettles(db: Db, session: Id, p: Id, now: int, id: Id)
    requires Core(db) && IsResearch(db, session) && ParticipantOf(db, session) == p
    requires p !in db.receipts && PerformWithdraw(db, session, p, now, id).Commit?
    ensures var attempt := PerformWithdraw(db, session, p, now, id);
            && Core(attempt.db)
            && attempt.db.idempotency == db.idempotency
            && attempt.db.receipts == db.receipts[p := Receipt(id, session, attempt.response)]
            && attempt.db.participants.Keys == db.participants.Keys
            && (forall q :: q in db.participants ==> attempt.db.participants[q].pseudonym == db.participants[q].pseudonym)
  {
    var lineage := LineageOf(db, p);
    LoggedWithdrawal(db, session, p, now);
    RowLoopPeople(db, session, p, now, lineage);
    hide Core, WithdrawTables, AppendEvent, LineageOf, Shape, LineageAgrees, OthersSettled, AwaitsReceipt, TasksOf;
    var logged := AppendEvent(WithdrawTables(db, session, p, now, lineage), session, WithdrawalRequested).value;
    var attempt := PerformWithdraw(db, session, p, now, id);
    ReceiptSettles(logged, attempt.db, p, Receipt(id, session, attempt.response), lineage);
  }

  /** A committed withdrawal, first or repeated, leaves the participant's one receipt. */
  lemma WithdrawAttempt(db: Db, session: Id, p: Id, now: int, id: Id)
    requires Core(db) && IsResearch(db, session) && ParticipantOf(db, session) == p
    ensures var attempt := PerformWithdraw(db, session, p, now, id);
            attempt.Commit? ==>
              && Core(attempt.db) && attempt.db.idempotency == db.idempotency
              && p in attempt.db.receipts && attempt.db.receipts[p].response == attempt.response
              && (forall q :: q in db.receipts ==> q in attempt.db.receipts && attempt.db.receipts[q] == db.receipts[q])
              && (forall q :: q in db.participants ==>
                    q in attempt.db.participants && attempt.db.participants[q].pseudonym == db.participants[q].pseudonym)
  {
    hide Core;
    if PerformWithdraw(db, session, p, now, id).Commit? && p !in db.receipts {
      FirstWithdrawalSettles(db, session, p, now, id);
      hide PerformWithdraw;
    }
  }

  /** The idempotency table plays no part in the other invariants. */
  lemma RememberKeeps(db: Db, after: Db)
    requires after == db.(idempotency := after.idempotency)
    requires Core(db)
    ensures Core(after)
  {
    hide SessionsOk, ArtifactsLinked, WithdrawalsLinked, RecordsLinked, LineageAgrees, Settled, SessionOk;
    SameLogsKeep(db, after);
    assert Quiet(db, after);
    QuietKeepsWithdrawals(db, after);
  }

  /** Remembering a response keeps the invariant; a withdrawal's slot holds the canonical response. */
  lemma MutateKeeps(db: Db, hash: Hash, slot: Slot, digest: string, attempt: Attempt)
    requires Inv(db, hash)
    requires attempt.Commit? ==>
        && Core(attempt.db) && attempt.db.idempotency == db.idempotency
        && (forall p :: p in db.receipts ==> p in attempt.db.receipts && attempt.db.receipts[p] == db.receipts[p])
        && (forall p :: p in db.participants ==> p in attempt.db.participants && attempt.db.participants[p].pseudonym == db.participants[p].pseudonym)
        && (slot.0.WithdrawScope? ==>
              var p := slot.0.participant;
              && p in db.participants && p in attempt.db.receipts && attempt.db.receipts[p].response == attempt.response
              && digest == hash(WithdrawPayload(p, db.participants[p].pseudonym)))
    ensures Inv(Mutate(db, slot, digest, attempt).0, hash)
  {
    hide Core;
    if slot !in db.idempotency && attempt.Commit? {
      RememberKeeps(attempt.db, Mutate(db, slot, digest, attempt).0);
    }
  }

  lemma WithdrawKeeps(db: Db, hash: Hash, key: Option<string>, request: Request)
    requires Inv(db, hash) && request.Withdraw?
    ensures Inv(Serve(db, hash, key, request).0, hash)
  {
    var slot := SlotOf(db, key, request);
    if slot.Some? {
      var p := ParticipantOf(db, request.session);
      var attempt := Perform(db, request);
      WithdrawAttempt(db, request.session, p, request.now, request.newId);
      hide Core, PerformWithdraw, WithdrawalSlots, Mutate;
      MutateKeeps(db, hash, slot.value, hash(PayloadOf(db, request)), attempt);
    }
  }

  // ---- All operations ----

  lemma RequestKeeps(db: Db, hash: Hash, key: Option<string>, request: Request)
    requires Inv(db, hash) && !request.Withdraw?
    ensures Inv(Serve(db, hash, key, request).0, hash)
  {
    var slot := SlotOf(db, key, request);
    if slot.Some? {
      var attempt := Perform(db, request);
      PlainRequests(db, request);
      hide Perform, Shape, LineageAgrees, Settled;
      if attempt.Commit? {
        QuietKeepsWithdrawals(db, attempt.db);
      }
      MutateKeeps(db, hash, slot.value, hash(PayloadOf(db, request)), attempt);
    }
  }

  lemma StepKeeps(db: Db, hash: Hash, op: Op)
    requires Inv(db, hash)
    ensures Inv(Step(db, hash, op).0, hash)
  {
    match op
    case Register(artifact, session, parents) => RegisterKeeps(db, hash, artifact, session, parents);
    case Depend(parent, child) => DependKeeps(db, hash, parent, child);
    case Keyed(key, request) =>
      if request.Withdraw? { WithdrawKeeps(db, hash, key, request); } else { RequestKeeps(db, hash, key, request); }
    case _ =>
      PlainOps(db, hash, op);
      var after := Step(db, hash, op).0;
      hide Step, Shape, LineageAgrees, Settled;
      QuietKeepsWithdrawals(db, after);
  }

  lemma {:induction false} RunKeeps(db: Db, hash: Hash, ops: seq<Op>)
    requires Inv(db, hash)
    ensures Inv(Run(db, hash, ops), hash)
    decreases |ops|
  {
    if ops != [] {
      RunKeeps(db, hash, ops[..|ops| - 1]);
      StepKeeps(Run(db, hash, ops[..|ops| - 1]), hash, ops[|ops| - 1]);
    }
  }

  lemma EmptyStore(hash: Hash)
    ensures Inv(EMPTY_DB, hash)
  {
  }
}
