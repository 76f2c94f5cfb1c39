/** What each call answers and what it leaves in the tables, in every reachable store. A call under
    a key comes in one of two ways: its slot is new, or it was executed before. */
module M1Calls {
  import opened Wrappers
  import opened Lineage
  import opened M1Tables
  import opened M1Operations
  import opened M1Invariants
  import opened M1Theorems
  import opened M1DemoLog
  import opened M1Identity

  // ---- Rows and logs ----

  /** One more event in the log of `session`; every other log is as it was. */
  ghost predicate Logs(before: Db, after: Db, session: Id, body: EventBody) {
    && session in before.sessions && Logged(before) && Logged(after) && after.sessions.Keys == before.sessions.Keys
    && GapFree(before, session) && GapFree(after, session)
    && Log(after, session) == Log(before, session) + [body]
    && forall s :: s in before.sessions && s != session ==> GapFree(before, s) && GapFree(after, s) && Log(after, s) == Log(before, s)
  }

  /** The row of `session` is `row` but for the number of its last event; the other rows stay. */
  ghost predicate OnlyRow(before: Db, after: Db, session: Id, row: Session) {
    && session in before.sessions && session in after.sessions
    && after.sessions == before.sessions[session := row.(eventSeq := after.sessions[session].eventSeq)]
  }

  lemma RowThenLogs(db: Db, middle: Db, session: Id, row: Session, body: EventBody)
    requires Logged(db) && session in db.sessions && row.eventSeq == db.sessions[session].eventSeq
    requires middle.events == db.events && middle.sessions == db.sessions[session := row]
    ensures var r := AppendEvent(middle, session, body);
            && r.Ok? && Logs(db, r.value, session, body) && OnlyRow(db, r.value, session, row)
            && r.value == middle.(sessions := r.value.sessions, events := r.value.events)
  {
    hide Logged, Logs;
    EventLogs(db, middle, session, body);
  }

  /** The tables may change before the event, but not the numbers of the logs. */
  lemma EventLogs(db: Db, middle: Db, session: Id, body: EventBody)
    requires Logged(db) && SameLogs(db, middle) && session in db.sessions && middle.sessions.Keys == db.sessions.Keys
    ensures var r := AppendEvent(middle, session, body); r.Ok? && Logs(db, r.value, session, body)
  {
    SameLogsKeep(db, middle);
    AppendKeepsLog(middle, session, body);
    var after := AppendEvent(middle, session, body).value;
    OwnLog(db, middle, after, session, body);
    assert after.sessions.Keys == db.sessions.Keys;
    hide AppendEvent, GapFree, Log, Logged;
    forall s | s in db.sessions && s != session ensures GapFree(db, s) && GapFree(after, s) && Log(after, s) == Log(db, s) {
      OtherLog(db, middle, after, session, body, s);
    }
  }

  lemma OwnLog(db: Db, middle: Db, after: Db, session: Id, body: EventBody)
    requires Logged(db) && Logged(after) && session in db.sessions && middle.events == db.events
    requires session in middle.sessions && middle.sessions[session].eventSeq == db.sessions[session].eventSeq
    requires AppendEvent(middle, session, body) == Ok(after)
    ensures session in after.sessions && GapFree(db, session) && GapFree(after, session)
    ensures Log(after, session) == Log(db, session) + [body]
  {
    assert GapFree(db, session) && GapFree(after, session);
    hide Logged;
    LogOneMore(db, after, session, body);
  }

  lemma OtherLog(db: Db, middle: Db, after: Db, session: Id, body: EventBody, s: Id)
    requires Logged(db) && Logged(after) && s in db.sessions && s != session
    requires SameLogs(db, middle) && middle.sessions.Keys == db.sessions.Keys
    requires AppendEvent(middle, session, body) == Ok(after)
    ensures s in after.sessions && GapFree(db, s) && GapFree(after, s) && Log(after, s) == Log(db, s)
  {
    assert after.sessions[s].eventSeq == db.sessions[s].eventSeq;
    assert GapFree(db, s) && GapFree(after, s);
  }

  /** The slot is named and holds nothing yet. */
  predicate NewCall(db: Db, key: Option<string>, request: Request) {
    SlotOf(db, key, request).Some? && SlotOf(db, key, request).value !in db.idempotency
  }

  lemma FreshCall(db: Db, hash: Hash, key: Option<string>, request: Request)
    requires NewCall(db, key, request)
    ensures var (after, outcome) := Serve(db, hash, key, request);
            match Perform(db, request)
            case Abort(failure) => after == db && outcome == Rejected(failure)
            case Commit(tables, response) => after == tables.(idempotency := after.idempotency) && outcome == Executed(response)
  {
    hide Perform, Fallback, ScopeOf, PayloadOf, Precheck, Key;
  }

  lemma LogsThen(before: Db, middle: Db, after: Db, session: Id, body: EventBody, row: Session)
    requires Logs(before, middle, session, body) && OnlyRow(before, middle, session, row)
    requires after.sessions == middle.sessions && after.events == middle.events
    ensures Logs(before, after, session, body) && OnlyRow(before, after, session, row)
  {
    hide Logs;
    SameLogsLog(before, middle, after, session, body);
  }

  lemma SameLogsLog(before: Db, middle: Db, after: Db, session: Id, body: EventBody)
    requires Logs(before, middle, session, body) && after.sessions == middle.sessions && after.events == middle.events
    ensures Logs(before, after, session, body)
  {
    assert SameLogs(middle, after);
    SameLogsKeep(middle, after);
    forall s | s in before.sessions ensures GapFree(after, s) && GapFree(middle, s) && Log(after, s) == Log(middle, s) {}
  }

  lemma ReachableLogged(db: Db, hash: Hash)
    requires Reachable(db, hash)
    ensures Logged(db)
  {
    hide Reachable, Linked, LineageAgrees, Settled, WithdrawalSlots, Logged;
    ReachableInv(db, hash);
  }

  // ---- Demo sessions ----

  /** An event appended from outside is the last of its session's log; nothing else changes. */
  lemma AppendCall(db: Db, hash: Hash, session: Id, body: EventBody)
    requires Reachable(db, hash)
    ensures var (after, outcome) := Step(db, hash, Append(session, body));
            if session !in db.sessions then after == db && outcome == Rejected(Missing)
            else
              && outcome == Applied && Logs(db, after, session, body) && OnlyRow(db, after, session, db.sessions[session])
              && after == db.(sessions := after.sessions, events := after.events)
  {
    ReachableLogged(db, hash);
    hide Reachable, Logged;
    if session in db.sessions {
      assert db.sessions == db.sessions[session := db.sessions[session]];
      RowThenLogs(db, db, session, db.sessions[session], body);
      hide Logs, OnlyRow;
    }
  }

  /** The state an action asks for. */
  function Goal(action: Action): Option<SessionState> {
    match action
    case ConsentAction => Some(ConsentConfirmed)
    case PreflightAction => Some(PreflightReady)
    case StartAction => Some(Recording)
    case StopAction => Some(Sealed)
    case OtherAction(_) => None
  }

  /** The action is possible: its state is the present one or the next. */
  predicate Fits(state: SessionState, action: Action) {
    Goal(action).Some? && (state == Goal(action).value || Successor(state) == Goal(action))
  }

  /** An action on a demo session is applied exactly if it asks for the present state, which changes
      nothing, or for the next one, which is then logged; a recording notes when it was started. */
  lemma ActCall(db: Db, hash: Hash, session: Id, action: Action, now: int)
    requires Reachable(db, hash)
    ensures var (after, outcome) := Step(db, hash, Act(session, action, now));
            && (outcome == NotFound <==> session !in db.sessions)
            && (outcome == Applied <==> IsDemo(db, session) && Fits(db.sessions[session].state, action))
            && (outcome != Applied ==> after == db && outcome != Rejected(Missing) && outcome != Rejected(Integrity))
            && (outcome == Applied && db.sessions[session].state == Goal(action).value ==> after == db)
            && (outcome == Applied && db.sessions[session].state != Goal(action).value ==>
                  && Logs(db, after, session, SessionStateChanged(Goal(action).value))
                  && OnlyRow(db, after, session, db.sessions[session].(state := Goal(action).value,
                       startedAt := if Goal(action) == Some(Recording) then Some(now) else db.sessions[session].startedAt))
                  && after == db.(sessions := after.sessions, events := after.events))
  {
    ReachableLogged(db, hash);
    hide Reachable, Logged;
    if IsDemo(db, session) {
      var current := db.sessions[session];
      FitsAgrees(current.state, action);
      if Fits(current.state, action) && current.state != Goal(action).value {
        var row := current.(state := Goal(action).value,
                            startedAt := if Goal(action) == Some(Recording) then Some(now) else current.startedAt);
        RowThenLogs(db, db.(sessions := db.sessions[session := row]), session, row, SessionStateChanged(Goal(action).value));
        hide Logs, OnlyRow, Transition, Fits, AppendEvent;
      }
    }
  }

  lemma FitsAgrees(state: SessionState, action: Action)
    ensures Fits(state, action) <==> Transition(state, action).Some?
    ensures Fits(state, action) ==> Transition(state, action) == Goal(action)
    ensures action == StartAction <==> Goal(action) == Some(Recording)
  {
  }

  /** An answer is taken exactly while its session records and the exam is not submitted; the row
      stored and the event logged carry it, and nothing else changes. */
  lemma AnswerCall(db: Db, hash: Hash, key: Option<string>, session: Id, answerId: string, questionId: string, value: Option<string>)
    requires Reachable(db, hash) && NewCall(db, key, RecordAnswer(session, answerId, questionId, value))
    ensures var (after, outcome) := Serve(db, hash, key, RecordAnswer(session, answerId, questionId, value));
            if session !in db.sessions then outcome == Rejected(Missing)
            else if db.sessions[session].state != Recording || db.sessions[session].submitted then outcome == Rejected(InvalidTransition)
            else
              && outcome == Executed(AnswerAccepted)
              && after.answers == db.answers + [Answer(session, answerId, questionId, value)]
              && Logs(db, after, session, AnswerRecorded(answerId)) && OnlyRow(db, after, session, db.sessions[session])
              && after == db.(answers := after.answers, sessions := after.sessions, events := after.events, idempotency := after.idempotency)
  {
    ReachableLogged(db, hash);
    var request := Request.RecordAnswer(session, answerId, questionId, value);
    FreshCall(db, hash, key, request);
    var after := Serve(db, hash, key, request).0;
    hide Reachable, Logged, Serve;
    if session in db.sessions {
      var middle := db.(answers := db.answers + [Answer(session, answerId, questionId, value)]);
      assert db.sessions == db.sessions[session := db.sessions[session]];
      RowThenLogs(db, middle, session, db.sessions[session], AnswerRecorded(answerId));
      hide AppendEvent;
      if PerformAnswer(db, session, answerId, questionId, value).Commit? {
        LogsThen(db, AppendEvent(middle, session, AnswerRecorded(answerId)).value, after, session, AnswerRecorded(answerId), db.sessions[session]);
      }
      hide Logs, OnlyRow;
    }
  }

  /** The exam is submitted exactly once while recording; a second submission is a conflict. */
  lemma SubmitCall(db: Db, hash: Hash, key: Option<string>, session: Id)
    requires Reachable(db, hash) && NewCall(db, key, SubmitExam(session))
    ensures var (after, outcome) := Serve(db, hash, key, SubmitExam(session));
            if session !in db.sessions then outcome == Rejected(Missing)
            else if db.sessions[session].state != Recording then outcome == Rejected(InvalidTransition)
            else if db.sessions[session].submitted then outcome == Rejected(Conflict)
            else
              && outcome == Executed(ExamAccepted) && after.attempts == db.attempts + [session]
              && Logs(db, after, session, ExamSubmitted) && OnlyRow(db, after, session, db.sessions[session].(submitted := true))
              && after == db.(attempts := after.attempts, sessions := after.sessions, events := after.events, idempotency := after.idempotency)
  {
    ReachableLogged(db, hash);
    var request := Request.SubmitExam(session);
    FreshCall(db, hash, key, request);
    var after := Serve(db, hash, key, request).0;
    hide Reachable, Logged, Serve;
    if session in db.sessions {
      var row := db.sessions[session].(submitted := true);
      var middle := db.(sessions := db.sessions[session := row], attempts := db.attempts + [session]);
      RowThenLogs(db, middle, session, row, ExamSubmitted);
      hide AppendEvent;
      if PerformSubmit(db, session).Commit? {
        LogsThen(db, AppendEvent(middle, session, ExamSubmitted).value, after, session, ExamSubmitted, row);
      }
      hide Logs, OnlyRow;
    }
  }
}
