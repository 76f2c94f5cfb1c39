/** The log of a demo session tells the whole story of its row: replaying it gives the stored
    state, the submission flag and the number of stored answers. */
module M1DemoLog {
  import opened Wrappers
  import opened Lineage
  import opened M1Tables
  import opened M1Operations
  import opened M1Invariants
  import opened M1Theorems

  datatype Story = Story(state: SessionState, submitted: bool, answers: nat)

  function Successor(state: SessionState): Option<SessionState> {
    match state
    case Draft => Some(ConsentConfirmed)
    case ConsentConfirmed => Some(PreflightReady)
    case PreflightReady => Some(Recording)
    case Recording => Some(Sealed)
    case _ => None
  }

  /** One event of a lawful demo log; None when the event cannot happen at this point. */
  function Advance(story: Story, body: EventBody): Option<Story> {
    match body
    case SessionStateChanged(next) =>
      if Successor(story.state) == Some(next) then Some(story.(state := next)) else None
    case AnswerRecorded(_) =>
      if story.state == Recording && !story.submitted then Some(story.(answers := story.answers + 1)) else None
    case ExamSubmitted =>
      if story.state == Recording && !story.submitted then Some(story.(submitted := true)) else None
    case Custom(_, _) => Some(story)
    case _ => None
  }

  function Replay(log: seq<EventBody>): Option<Story> {
    if log == [] then Some(Story(Draft, false, 0))
    else
      match Replay(log[..|log| - 1])
      case None => None
      case Some(story) => Advance(story, log[|log| - 1])
  }

  function AnswersOf(answers: seq<Answer>, session: Id): nat {
    if answers == [] then 0
    else AnswersOf(answers[..|answers| - 1], session) + if answers[|answers| - 1].session == session then 1 else 0
  }

  function AttemptsOf(attempts: seq<Id>, session: Id): nat {
    if attempts == [] then 0
    else AttemptsOf(attempts[..|attempts| - 1], session) + if attempts[|attempts| - 1] == session then 1 else 0
  }

  ghost predicate Tells(db: Db, s: Id)
    requires s in db.sessions && GapFree(db, s)
  {
    && Replay(Log(db, s)) == Some(Story(db.sessions[s].state, db.sessions[s].submitted, AnswersOf(db.answers, s)))
    && AttemptsOf(db.attempts, s) == if db.sessions[s].submitted then 1 else 0
  }

  ghost predicate IsDemo(db: Db, s: Id) {
    s in db.sessions && db.sessions[s].kind == Demo
  }

  ghost predicate LogsTell(db: Db) {
    && Logged(db)
    && (forall s :: IsDemo(db, s) ==> GapFree(db, s) && Tells(db, s))
    && (forall a :: a in db.answers ==> a.session in db.sessions)
    && (forall s :: s in db.attempts ==> s in db.sessions)
  }

  /** Outside callers append only events of their own types, never the store's. */
  predicate Unforged(op: Op) {
    op.Append? ==> op.body.Custom?
  }

  lemma AnswersAppend(answers: seq<Answer>, row: Answer, session: Id)
    ensures AnswersOf(answers + [row], session) == AnswersOf(answers, session) + if row.session == session then 1 else 0
  {
    assert (answers + [row])[..|answers + [row]| - 1] == answers;
  }

  lemma AttemptsAppend(attempts: seq<Id>, row: Id, session: Id)
    ensures AttemptsOf(attempts + [row], session) == AttemptsOf(attempts, session) + if row == session then 1 else 0
  {
    assert (attempts + [row])[..|attempts + [row]| - 1] == attempts;
  }

  lemma {:induction false} NothingYet(answers: seq<Answer>, attempts: seq<Id>, s: Id)
    requires forall a :: a in answers ==> a.session != s
    requires s !in attempts
    ensures AnswersOf(answers, s) == 0 && AttemptsOf(attempts, s) == 0
    decreases |answers| + |attempts|
  {
    if answers != [] {
      NothingYet(answers[..|answers| - 1], attempts, s);
    } else if attempts != [] {
      NothingYet(answers, attempts[..|attempts| - 1], s);
    }
  }

  // ---- Sessions an operation leaves alone ----

  ghost predicate SameStory(before: Db, after: Db, s: Id) {
    && s in before.sessions && s in after.sessions
    && after.sessions[s].state == before.sessions[s].state
    && after.sessions[s].submitted == before.sessions[s].submitted
    && after.sessions[s].eventSeq == before.sessions[s].eventSeq
    && (forall n :: (s, n) in before.events ==> (s, n) in after.events && after.events[(s, n)] == before.events[(s, n)])
    && AnswersOf(after.answers, s) == AnswersOf(before.answers, s)
    && AttemptsOf(after.attempts, s) == AttemptsOf(before.attempts, s)
  }

  lemma SameStoryTells(before: Db, after: Db, s: Id)
    requires SameStory(before, after, s) && GapFree(before, s) && GapFree(after, s) && Tells(before, s)
    ensures Tells(after, s)
  {
    assert Log(after, s) == Log(before, s);
  }

  lemma ReplayAppend(log: seq<EventBody>, body: EventBody)
    ensures Replay(log + [body]) == match Replay(log) case None => None case Some(story) => Advance(story, body)
  {
    assert (log + [body])[..|log + [body]| - 1] == log;
  }

  lemma LogOneMore(before: Db, after: Db, s: Id, body: EventBody)
    requires s in before.sessions && s in after.sessions && GapFree(before, s) && GapFree(after, s)
    requires after.sessions[s].eventSeq == before.sessions[s].eventSeq + 1
    requires forall n :: (s, n) in before.events ==> (s, n) in after.events && after.events[(s, n)] == before.events[(s, n)]
    requires after.events[(s, after.sessions[s].eventSeq)] == body
    ensures Log(after, s) == Log(before, s) + [body]
  {
  }

  /** The session's row has moved on and one event has been logged. */
  lemma OneEventTells(before: Db, after: Db, s: Id, body: EventBody)
    requires s in before.sessions && s in after.sessions && GapFree(before, s) && GapFree(after, s) && Tells(before, s)
    requires after.sessions[s].eventSeq == before.sessions[s].eventSeq + 1
    requires forall n :: (s, n) in before.events ==> (s, n) in after.events && after.events[(s, n)] == before.events[(s, n)]
    requires after.events[(s, after.sessions[s].eventSeq)] == body
    requires Advance(Story(before.sessions[s].state, before.sessions[s].submitted, AnswersOf(before.answers, s)), body)
          == Some(Story(after.sessions[s].state, after.sessions[s].submitted, AnswersOf(after.answers, s)))
    requires AttemptsOf(after.attempts, s) == AttemptsOf(before.attempts, s) + if body.ExamSubmitted? then 1 else 0
    ensures Tells(after, s)
  {
    LogOneMore(before, after, s, body);
    ReplayAppend(Log(before, s), body);
    hide Log, Replay, AnswersOf, AttemptsOf, GapFree;
  }

  /** Everything but `skip` keeps its story, and no demo session is new. */
  ghost predicate OthersSame(before: Db, after: Db, skip: Id) {
    && (forall s :: IsDemo(before, s) && s != skip ==> IsDemo(after, s) && SameStory(before, after, s))
    && (forall s :: IsDemo(after, s) ==> IsDemo(before, s))
    && before.sessions.Keys <= after.sessions.Keys
  }

  lemma OthersTell(before: Db, after: Db, skip: Id)
    requires LogsTell(before) && Logged(after) && OthersSame(before, after, skip)
    requires IsDemo(after, skip) ==> GapFree(after, skip) && Tells(after, skip)
    requires forall a :: a in after.answers ==> a.session in after.sessions
    requires forall s :: s in after.attempts ==> s in after.sessions
    ensures LogsTell(after)
  {
    forall s | IsDemo(after, s) ensures GapFree(after, s) && Tells(after, s) {
      if s != skip {
        assert GapFree(before, s) && Tells(before, s);
        SameStoryTells(before, after, s);
      }
    }
  }

  // ---- Operations ----

  /** A row change of one session, its new answer or attempt rows, and the event that says so. */
  lemma RowEventTells(db: Db, middle: Db, session: Id, row: Session, body: EventBody)
    requires LogsTell(db) && session in db.sessions
    requires row.kind == db.sessions[session].kind && row.eventSeq == db.sessions[session].eventSeq
    requires middle == db.(sessions := db.sessions[session := row], answers := middle.answers, attempts := middle.attempts)
    requires forall a :: a in middle.answers ==> a.session in db.sessions
    requires forall s :: s in middle.attempts ==> s in db.sessions
    requires forall s :: s != session ==> AnswersOf(middle.answers, s) == AnswersOf(db.answers, s)
    requires forall s :: s != session ==> AttemptsOf(middle.attempts, s) == AttemptsOf(db.attempts, s)
    requires IsDemo(db, session) ==>
        Advance(Story(db.sessions[session].state, db.sessions[session].submitted, AnswersOf(db.answers, session)), body)
          == Some(Story(row.state, row.submitted, AnswersOf(middle.answers, session)))
    requires IsDemo(db, session) ==>
        AttemptsOf(middle.attempts, session) == AttemptsOf(db.attempts, session) + if body.ExamSubmitted? then 1 else 0
    ensures AppendEvent(middle, session, body).Ok? && LogsTell(AppendEvent(middle, session, body).value)
  {
    hide AnswersOf, AttemptsOf, Replay, Advance;
    SameLogsKeep(db, middle);
    AppendKeepsLog(middle, session, body);
    var after := AppendEvent(middle, session, body).value;
    if IsDemo(db, session) {
      assert GapFree(db, session) && GapFree(after, session);
      OneEventTells(db, after, session, body);
    }
    RowEventOthers(db, middle, session, row, body);
    hide AppendEvent, Tells;
    OthersTell(db, after, session);
  }

  lemma RowEventOthers(db: Db, middle: Db, session: Id, row: Session, body: EventBody)
    requires session in db.sessions && row.kind == db.sessions[session].kind
    requires middle == db.(sessions := db.sessions[session := row], answers := middle.answers, attempts := middle.attempts)
    requires forall s :: s != session ==> AnswersOf(middle.answers, s) == AnswersOf(db.answers, s)
    requires forall s :: s != session ==> AttemptsOf(middle.attempts, s) == AttemptsOf(db.attempts, s)
    requires AppendEvent(middle, session, body).Ok?
    ensures OthersSame(db, AppendEvent(middle, session, body).value, session)
    ensures AppendEvent(middle, session, body).value.answers == middle.answers
    ensures AppendEvent(middle, session, body).value.attempts == middle.attempts
    ensures AppendEvent(middle, session, body).value.sessions.Keys == db.sessions.Keys
  {
    hide AnswersOf, AttemptsOf;
  }

  lemma AppendTells(db: Db, session: Id, body: EventBody)
    requires LogsTell(db) && session in db.sessions && body.Custom?
    ensures LogsTell(AppendEvent(db, session, body).value)
  {
    hide AnswersOf, AttemptsOf, Replay;
    assert db.sessions == db.sessions[session := db.sessions[session]];
    RowEventTells(db, db, session, db.sessions[session], body);
  }

  lemma ActTells(db: Db, session: Id, action: Action, now: int)
    requires LogsTell(db)
    ensures LogsTell(ApplyAction(db, session, action, now).0)
  {
    var after := ApplyAction(db, session, action, now).0;
    if after != db {
      var current := db.sessions[session];
      var next := Transition(current.state, action).value;
      var row := current.(state := next, startedAt := if action == StartAction then Some(now) else current.startedAt);
      hide AnswersOf, AttemptsOf, Replay;
      RowEventTells(db, db.(sessions := db.sessions[session := row]), session, row, SessionStateChanged(next));
    }
  }

  lemma AnswerTells(db: Db, session: Id, answerId: string, questionId: string, value: Option<string>)
    requires LogsTell(db)
    ensures var attempt := PerformAnswer(db, session, answerId, questionId, value);
            attempt.Commit? ==> LogsTell(attempt.db)
  {
    if PerformAnswer(db, session, answerId, questionId, value).Commit? {
      var row := Answer(session, answerId, questionId, value);
      forall s ensures AnswersOf(db.answers + [row], s) == AnswersOf(db.answers, s) + if s == session then 1 else 0 {
        AnswersAppend(db.answers, row, s);
      }
      hide AnswersOf, AttemptsOf, Replay;
      assert db.sessions == db.sessions[session := db.sessions[session]];
      RowEventTells(db, db.(answers := db.answers + [row]), session, db.sessions[session], AnswerRecorded(answerId));
    }
  }

  lemma SubmitTells(db: Db, session: Id)
    requires LogsTell(db)
    ensures var attempt := PerformSubmit(db, session);
            attempt.Commit? ==> LogsTell(attempt.db)
  {
    if PerformSubmit(db, session).Commit? {
      var row := db.sessions[session].(submitted := true);
      forall s ensures AttemptsOf(db.attempts + [session], s) == AttemptsOf(db.attempts, s) + if s == session then 1 else 0 {
        AttemptsAppend(db.attempts, session, s);
      }
      hide AnswersOf, AttemptsOf, Replay;
      RowEventTells(db, db.(sessions := db.sessions[session := row], attempts := db.attempts + [session]),
                    session, row, ExamSubmitted);
    }
  }

  lemma NewDemoTells(db: Db, id: Id)
    requires LogsTell(db)
    ensures LogsTell(CreateDemoSession(db, id).0)
  {
    var after := CreateDemoSession(db, id).0;
    if id !in db.sessions {
      SameLogsKeep(db, after);
      NothingYet(db.answers, db.attempts, id);
      forall s | IsDemo(after, s) ensures GapFree(after, s) && Tells(after, s) {
        if s == id {
          assert GapFree(after, id);
          assert Log(after, id) == [];
        } else {
          assert GapFree(db, s) && Tells(db, s);
          SameStoryTells(db, after, s);
        }
      }
    }
  }

  /** What the operations on research sessions leave of the demo sessions: everything. */
  ghost predicate DemoUntouched(before: Db, after: Db) {
    && after.answers == before.answers && after.attempts == before.attempts
    && before.sessions.Keys <= after.sessions.Keys
    && (forall s :: IsDemo(before, s) ==> after.sessions[s] == before.sessions[s])
    && (forall s :: IsDemo(after, s) ==> IsDemo(before, s))
    && (forall k :: k in before.events ==> k in after.events && after.events[k] == before.events[k])
  }

  lemma UntouchedTells(before: Db, after: Db)
    requires LogsTell(before) && Logged(after) && DemoUntouched(before, after)
    ensures LogsTell(after)
  {
    forall s | IsDemo(after, s) ensures GapFree(after, s) && Tells(after, s) {
      assert IsDemo(before, s) && GapFree(before, s) && Tells(before, s);
      SameStoryTells(before, after, s);
    }
  }

  lemma ConsentUntouched(db: Db, session: Id, receipt: Id, version: string)
    ensures var attempt := PerformConsent(db, session, receipt, version);
            attempt.Commit? ==> DemoUntouched(db, attempt.db)
  {
    hide MutableResearch, ReplaceConsent;
  }

  lemma WithdrawUntouched(db: Db, session: Id, p: Id, now: int, id: Id)
    requires Linked(db) && p in db.participants
    ensures var attempt := PerformWithdraw(db, session, p, now, id);
            attempt.Commit? ==> DemoUntouched(db, attempt.db)
  {
    hide LineageOf, TasksOf;
    var attempt := PerformWithdraw(db, session, p, now, id);
    if attempt.Commit? && p !in db.receipts {
      RowLoopUntouched(db, session, p, now, LineageOf(db, p));
      hide DemoUntouched, WithdrawTables, AppendEvent;
      ResearchEventUntouched(db, WithdrawTables(db, session, p, now, LineageOf(db, p)), session, attempt.db);
    } else if attempt.Commit? {
      assert attempt.db == db;
    }
  }

  lemma RowLoopUntouched(db: Db, session: Id, p: Id, now: int, lineage: set<Id>)
    requires Linked(db) && p in db.participants && session in db.sessions && db.sessions[session].kind == Research
    ensures var tables := WithdrawTables(db, session, p, now, lineage);
            DemoUntouched(db, tables) && session in tables.sessions && !IsDemo(tables, session)
  {
    hide ArtifactsLinked, WithdrawalsLinked, RecordsLinked, InvalidateRows, Pairs;
    assert forall s :: IsDemo(db, s) ==> SessionOk(db.participants, db.sessions[s]);
    hide SessionsOk;
  }

  lemma ResearchEventUntouched(db: Db, tables: Db, session: Id, after: Db)
    requires DemoUntouched(db, tables) && session in tables.sessions && !IsDemo(tables, session)
    requires AppendEvent(tables, session, WithdrawalRequested).Ok?
    requires after == AppendEvent(tables, session, WithdrawalRequested).value.(receipts := after.receipts)
    ensures DemoUntouched(db, after)
  {
  }

  lemma PerformTells(db: Db, hash: Hash, request: Request)
    requires Inv(db, hash) && LogsTell(db) && Precheck(db, request).None?
    requires Perform(db, request).Commit? ==> Logged(Perform(db, request).db)
    ensures Perform(db, request).Commit? ==> LogsTell(Perform(db, request).db)
  {
    hide LogsTell, Logged, LineageAgrees, Settled, WithdrawalSlots, SessionsOk, ArtifactsLinked, WithdrawalsLinked, RecordsLinked,
      DemoUntouched, PerformAnswer, PerformSubmit;
    var attempt := Perform(db, request);
    if attempt.Commit? {
      match request
      case RecordAnswer(session, answerId, questionId, value) => AnswerTells(db, session, answerId, questionId, value);
      case SubmitExam(session) => SubmitTells(db, session);
      case ConfirmConsent(session, receipt, version) =>
        ConsentUntouched(db, session, receipt, version);
        hide PerformConsent;
        UntouchedTells(db, attempt.db);
      case Withdraw(session, now, id) =>
        WithdrawUntouched(db, session, ParticipantOf(db, session), now, id);
        hide PerformWithdraw;
        UntouchedTells(db, attempt.db);
      case _ =>
        CreationUntouched(db, request);
        hide Perform;
        UntouchedTells(db, attempt.db);
    }
  }

  lemma CreationUntouched(db: Db, request: Request)
    requires Precheck(db, request).None? && Perform(db, request).Commit?
    requires request.CreateStudy? || request.CreateParticipant? || request.CreateResearchSession?
    ensures DemoUntouched(db, Perform(db, request).db)
  {
  }

  lemma PerformLogged(db: Db, hash: Hash, request: Request)
    requires Inv(db, hash) && Precheck(db, request).None?
    ensures Perform(db, request).Commit? ==> Logged(Perform(db, request).db)
  {
    hide LineageAgrees, Settled, WithdrawalSlots, Linked, Logged;
    if request.Withdraw? {
      WithdrawAttempt(db, request.session, ParticipantOf(db, request.session), request.now, request.newId);
    } else {
      PlainRequests(db, request);
    }
  }

  lemma ServeTells(db: Db, hash: Hash, key: Option<string>, request: Request)
    requires Inv(db, hash) && LogsTell(db)
    ensures LogsTell(Serve(db, hash, key, request).0)
  {
    hide Perform, Precheck, Fallback, ScopeOf, PayloadOf, Key, Logged, Inv;
    var slot := SlotOf(db, key, request);
    if slot.Some? && slot.value !in db.idempotency {
      PerformLogged(db, hash, request);
      PerformTells(db, hash, request);
      if Perform(db, request).Commit? {
        var performed := Perform(db, request).db;
        var after := Serve(db, hash, key, request).0;
        SameLogsKeep(performed, after);
        hide LogsTell;
        UntouchedTells(performed, after);
      }
    }
  }

  lemma StepTells(db: Db, hash: Hash, op: Op)
    requires Inv(db, hash) && LogsTell(db) && Unforged(op)
    ensures LogsTell(Step(db, hash, op).0)
  {
    hide LogsTell;
    match op
    case DemoSession(id) => NewDemoTells(db, id);
    case Append(session, body) => if session in db.sessions { AppendTells(db, session, body); }
    case Act(session, action, now) => ActTells(db, session, action, now);
    case Keyed(key, request) => ServeTells(db, hash, key, request);
    case _ => OtherTells(db, hash, op);
  }

  lemma RecoverUntouched(db: Db, id: Id)
    requires Linked(db)
    ensures DemoUntouched(db, RecoverIntent(db, id).0)
  {
    hide ArtifactsLinked, WithdrawalsLinked, SessionsOk;
    var after := RecoverIntent(db, id).0;
    assert forall s :: IsDemo(db, s) ==> after.sessions[s] == db.sessions[s];
    assert after.events == db.events && after.answers == db.answers && after.attempts == db.attempts;
  }

  lemma SameRowsUntouched(db: Db, after: Db)
    requires after == db.(artifacts := after.artifacts, dependencies := after.dependencies, intents := after.intents)
    ensures DemoUntouched(db, after)
  {
  }

  lemma RegisterUntouched(db: Db, artifact: Id, session: Id, parents: seq<Id>)
    ensures DemoUntouched(db, RegisterArtifact(db, artifact, session, parents).0)
  {
    hide UsableParent, MutableResearch, NoDuplicates, IsResearch, DemoUntouched;
    var after := RegisterArtifact(db, artifact, session, parents).0;
    assert after == db.(artifacts := after.artifacts, dependencies := after.dependencies);
    hide RegisterArtifact;
    SameRowsUntouched(db, after);
  }

  lemma DependUntouched(db: Db, parent: Id, child: Id)
    ensures DemoUntouched(db, AddDependency(db, parent, child).0)
  {
    hide UsableParent, DemoUntouched;
    var after := AddDependency(db, parent, child).0;
    assert after == db.(dependencies := after.dependencies);
    hide AddDependency;
    SameRowsUntouched(db, after);
  }

  lemma WriteIntentUntouched(db: Db, session: Id, path: string, pathUsable: bool, id: Id)
    ensures DemoUntouched(db, CreateWriteIntent(db, session, path, pathUsable, id).0)
  {
    hide MutableResearch, IsResearch, DemoUntouched;
    var after := CreateWriteIntent(db, session, path, pathUsable, id).0;
    assert after == db.(intents := after.intents);
    hide CreateWriteIntent;
    SameRowsUntouched(db, after);
  }

  lemma OtherUntouched(db: Db, hash: Hash, op: Op)
    requires Linked(db) && (op.Register? || op.Depend? || op.WriteIntent? || op.Recover?)
    ensures DemoUntouched(db, Step(db, hash, op).0)
  {
    hide DemoUntouched, RecoverIntent, RegisterArtifact, AddDependency, CreateWriteIntent;
    match op
    case Recover(id) => RecoverUntouched(db, id);
    case Register(artifact, session, parents) => RegisterUntouched(db, artifact, session, parents);
    case Depend(parent, child) => DependUntouched(db, parent, child);
    case WriteIntent(session, path, pathUsable, id) => WriteIntentUntouched(db, session, path, pathUsable, id);
  }

  lemma OtherTells(db: Db, hash: Hash, op: Op)
    requires Inv(db, hash) && LogsTell(db) && (op.Register? || op.Depend? || op.WriteIntent? || op.Recover?)
    ensures LogsTell(Step(db, hash, op).0)
  {
    StepKeeps(db, hash, op);
    OtherUntouched(db, hash, op);
    var after := Step(db, hash, op).0;
    hide Step, LogsTell, LineageAgrees, Settled, WithdrawalSlots, Linked, Logged;
    UntouchedTells(db, after);
  }

  /** On any run without forged events, the log of every demo session is lawful, and replaying it
      gives the stored state, whether the exam was submitted, and the number of stored answers;
      the session has one exam attempt if it was submitted and none otherwise. */
  lemma {:induction false} DemoLogTellsTheRow(hash: Hash, ops: seq<Op>)
    requires forall op :: op in ops ==> Unforged(op)
    ensures LogsTell(Run(EMPTY_DB, hash, ops))
    decreases |ops|
  {
    if ops != [] {
      var earlier := ops[..|ops| - 1];
      DemoLogTellsTheRow(hash, earlier);
      EmptyStore(hash);
      RunKeeps(EMPTY_DB, hash, earlier);
      StepTells(Run(EMPTY_DB, hash, earlier), hash, ops[|ops| - 1]);
    }
  }

  // ---- What a lawful log says ----

  lemma {:induction false} PrefixLawful(log: seq<EventBody>, n: nat)
    requires n <= |log| && Replay(log).Some?
    ensures Replay(log[..n]).Some?
    ensures Replay(log[..n]).value.submitted ==> Replay(log).value.submitted
    decreases |log|
  {
    if n == |log| {
      assert log[..n] == log;
    } else {
      PrefixLawful(log[..|log| - 1], n);
      assert log[..|log| - 1][..n] == log[..n];
    }
  }

  /** In a lawful log the exam is submitted at most once, while recording, and no answer is
      recorded after that. */
  lemma SubmittedOnceAndLast(log: seq<EventBody>, i: nat, j: nat)
    requires Replay(log).Some? && i < j < |log| && log[i] == ExamSubmitted
    ensures !log[j].ExamSubmitted? && !log[j].AnswerRecorded?
    ensures Replay(log[..i]).Some? && Replay(log[..i]).value.state == Recording
  {
    PrefixLawful(log, j + 1);
    PrefixLawful(log[..j + 1], j);
    assert log[..j + 1][..j] == log[..j];
    PrefixLawful(log[..j], i + 1);
    assert log[..j][..i + 1] == log[..i + 1];
    PrefixLawful(log[..i + 1], i);
    assert log[..i + 1][..i] == log[..i];
  }
}
