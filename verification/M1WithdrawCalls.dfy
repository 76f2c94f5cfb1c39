/** A withdrawal as a whole: everything that the first one changes, and what a repeated call gets. */
module M1WithdrawCalls {
  import opened Wrappers
  import opened Lineage
  import opened M1Tables
  import opened M1Operations
  import opened M1Invariants
  import opened M1History
  import opened M1Theorems
  import opened M1Identity
  import opened M1Calls
  import opened M1ResearchCalls
  import opened M1Effects

  /** The rows of the sessions of `p` are withdrawn and blocked since `now`; the others stay. */
  ghost predicate SessionsWithdrawn(before: Db, after: Db, p: Id, now: int) {
    && after.sessions.Keys == before.sessions.Keys
    && forall s :: s in before.sessions ==>
         after.sessions[s] == if before.sessions[s].participant != Some(p) then before.sessions[s]
                              else before.sessions[s].(state := Withdrawn, collectionBlocked := true, withdrawnAt := Some(now),
                                                       eventSeq := after.sessions[s].eventSeq)
  }

  /** The artifacts in `lineage` are invalidated, and they alone get a task. */
  ghost predicate LineageWithdrawn(before: Db, after: Db, session: Id, lineage: set<Id>) {
    && after.artifacts.Keys == before.artifacts.Keys
    && (forall a :: a in before.artifacts ==>
          after.artifacts[a] == Artifact(before.artifacts[a].session, if a in lineage then Invalidated else before.artifacts[a].status))
    && (forall s, a :: (s, a) in after.tasks <==> (s, a) in before.tasks || (s == session && a in lineage))
  }

  lemma TablesWithdrawn(db: Db, session: Id, p: Id, now: int, lineage: set<Id>)
    requires p in db.participants && !IsWithdrawn(db, p) && RowsTell(db.participants, db.sessions)
    ensures var tables := WithdrawTables(db, session, p, now, lineage);
            && tables == db.(participants := tables.participants, sessions := tables.sessions, artifacts := tables.artifacts, tasks := tables.tasks)
            && tables.participants == db.participants[p := db.participants[p].(withdrawnAt := Some(now))]
            && SessionsWithdrawn(db, tables, p, now) && LineageWithdrawn(db, tables, session, lineage) && SameLogs(db, tables)
  {
    var tables := WithdrawTables(db, session, p, now, lineage);
    forall s | s in db.sessions && db.sessions[s].participant == Some(p) ensures db.sessions[s].withdrawnAt.None? {
      assert RowTells(db.participants, db.sessions[s]);
    }
    hide RowsTell, RowTells;
    assert LineageWithdrawn(db, tables, session, lineage) by { hide WithdrawRows; }
    assert SessionsWithdrawn(db, tables, p, now) by { hide InvalidateRows, Pairs; }
  }

  lemma EventKeepsRows(db: Db, tables: Db, after: Db, session: Id, p: Id, now: int, lineage: set<Id>)
    requires SessionsWithdrawn(db, tables, p, now) && LineageWithdrawn(db, tables, session, lineage)
    requires session in db.sessions && db.sessions[session].participant == Some(p)
    requires AppendEvent(tables, session, WithdrawalRequested).Ok?
    requires after.sessions == AppendEvent(tables, session, WithdrawalRequested).value.sessions
    requires after.artifacts == tables.artifacts && after.tasks == tables.tasks
    ensures SessionsWithdrawn(db, after, p, now) && LineageWithdrawn(db, after, session, lineage)
  {
  }

  /** What the first withdrawal of `p` does to the tables. */
  ghost predicate FirstEffect(db: Db, after: Db, session: Id, p: Id, now: int, id: Id, response: Response) {
    && p in db.participants
    && after.participants == db.participants[p := db.participants[p].(withdrawnAt := Some(now))]
    && SessionsWithdrawn(db, after, p, now) && LineageWithdrawn(db, after, session, LineageOf(db, p))
    && Logs(db, after, session, WithdrawalRequested)
    && after.receipts == db.receipts[p := Receipt(id, session, response)]
    && after == db.(participants := after.participants, sessions := after.sessions, events := after.events, artifacts := after.artifacts,
                    tasks := after.tasks, receipts := after.receipts, idempotency := after.idempotency)
  }

  lemma AttemptEffect(db: Db, session: Id, p: Id, now: int, id: Id)
    requires Logged(db) && IsResearch(db, session) && ParticipantOf(db, session) == p && p !in db.receipts
    requires !IsWithdrawn(db, p) && RowsTell(db.participants, db.sessions)
    requires PerformWithdraw(db, session, p, now, id).Commit?
    ensures var attempt := PerformWithdraw(db, session, p, now, id);
            FirstEffect(db, attempt.db, session, p, now, id, attempt.response)
  {
    var tables := WithdrawTables(db, session, p, now, LineageOf(db, p));
    TablesWithdrawn(db, session, p, now, LineageOf(db, p));
    EventLogs(db, tables, session, WithdrawalRequested);
    var attempt := PerformWithdraw(db, session, p, now, id);
    AttemptParts(db, session, p, now, id);
    hide RowsTell, WithdrawTables, LineageOf, PerformWithdraw, SessionsWithdrawn, LineageWithdrawn, Logged;
    var logged := AppendEvent(tables, session, WithdrawalRequested).value;
    EventKeepsRows(db, tables, attempt.db, session, p, now, LineageOf(db, p));
    SameLogsLog(db, logged, attempt.db, session, WithdrawalRequested);
    hide Logs;
  }

  lemma AttemptParts(db: Db, session: Id, p: Id, now: int, id: Id)
    requires p in db.participants && p !in db.receipts && PerformWithdraw(db, session, p, now, id).Commit?
    ensures var attempt := PerformWithdraw(db, session, p, now, id);
            var tables := WithdrawTables(db, session, p, now, LineageOf(db, p));
            var logged := AppendEvent(tables, session, WithdrawalRequested);
            && logged.Ok? && tables.receipts == db.receipts
            && attempt.db == logged.value.(receipts := db.receipts[p := Receipt(id, session, attempt.response)])
            && logged.value == tables.(sessions := logged.value.sessions, events := logged.value.events)
  {
    hide LineageOf, TasksOf;
    assert WithdrawTables(db, session, p, now, LineageOf(db, p)).receipts == db.receipts;
    hide WithdrawTables;
  }

  /** The first withdrawal: the participant and every session of the participant are withdrawn, with
      one and the same time; exactly the lineage is invalidated and tasked; one event is logged, for
      the session of the call; nothing else changes. */
  lemma WithdrawCall(db: Db, hash: Hash, key: Option<string>, session: Id, now: int, id: Id)
    requires Reachable(db, hash) && IsResearch(db, session) && ParticipantOf(db, session) !in db.receipts
    requires Serve(db, hash, key, Withdraw(session, now, id)).1.Executed?
    ensures var (after, outcome) := Serve(db, hash, key, Withdraw(session, now, id));
            FirstEffect(db, after, session, ParticipantOf(db, session), now, id, outcome.response)
  {
    var request := Request.Withdraw(session, now, id);
    var p := ParticipantOf(db, session);
    OnlyExecutionChanges(db, hash, key, request);
    FreshCall(db, hash, key, request);
    BeforeWithdrawal(db, hash, p);
    assert Perform(db, request) == PerformWithdraw(db, session, p, now, id);
    var attempt, after := PerformWithdraw(db, session, p, now, id), Serve(db, hash, key, request).0;
    hide *;
    AttemptEffect(db, session, p, now, id);
    RememberedEffect(db, attempt.db, after, session, p, now, id, attempt.response);
  }

  lemma BeforeWithdrawal(db: Db, hash: Hash, p: Id)
    requires Reachable(db, hash)
    ensures Logged(db) && RowsTell(db.participants, db.sessions) && (p in db.receipts <==> IsWithdrawn(db, p))
  {
    hide Reachable, RowsTell, Unique, Retained, Logged;
    SessionFacts(db, hash, p);
    ReachableLogged(db, hash);
    ReachableProper(db, hash);
  }

  lemma RememberedEffect(db: Db, performed: Db, after: Db, session: Id, p: Id, now: int, id: Id, response: Response)
    requires FirstEffect(db, performed, session, p, now, id, response) && after == performed.(idempotency := after.idempotency)
    ensures FirstEffect(db, after, session, p, now, id, response)
  {
    hide LineageOf, Logs;
    SameLogsLog(db, performed, after, session, WithdrawalRequested);
  }

  /** An artifact is registered below `p` and then its own participant withdraws: the artifact is
      invalidated, and a parent keeps its status unless it was in that participant's lineage before. */
  lemma OnlyChildWithdrawn(db: Db, hash: Hash, artifact: Id, session: Id, parents: seq<Id>, p: Id, key: Option<string>, now: int, id: Id)
    requires Reachable(db, hash) && p in parents && RegisterArtifact(db, artifact, session, parents).1 == Applied
    requires Serve(RegisterArtifact(db, artifact, session, parents).0, hash, key, Withdraw(session, now, id)).1.Executed?
    ensures IsResearch(db, session) && p in db.artifacts && artifact !in db.artifacts && db.artifacts[p].status == Valid
    ensures var after := Serve(RegisterArtifact(db, artifact, session, parents).0, hash, key, Withdraw(session, now, id)).0;
            && artifact in after.artifacts && after.artifacts[artifact].status == Invalidated
            && p in after.artifacts && (after.artifacts[p].status == Invalidated <==> p in LineageOf(db, ParticipantOf(db, session)))
  {
    OnceRegistered(db, hash, artifact, session, parents, p);
    hide RegisterArtifact, Reachable, LineageOf, Serve, Logs, SessionsWithdrawn;
    WithdrawCall(RegisterArtifact(db, artifact, session, parents).0, hash, key, session, now, id);
  }

  lemma OnceRegistered(db: Db, hash: Hash, artifact: Id, session: Id, parents: seq<Id>, p: Id)
    requires Reachable(db, hash) && p in parents && RegisterArtifact(db, artifact, session, parents).1 == Applied
    ensures IsResearch(db, session) && p in db.artifacts && artifact !in db.artifacts && db.artifacts[p].status == Valid
    ensures var registered := RegisterArtifact(db, artifact, session, parents).0;
            var q := ParticipantOf(db, session);
            && Reachable(registered, hash) && q !in registered.receipts
            && IsResearch(registered, session) && ParticipantOf(registered, session) == q
            && registered.artifacts == db.artifacts[artifact := Artifact(session, Valid)]
            && artifact in LineageOf(registered, q) && (p in LineageOf(registered, q) <==> p in LineageOf(db, q))
  {
    RegisterCall(db, hash, artifact, session, parents);
    WritableIffOpen(db, hash, session);
    StepReachable(db, hash, Register(artifact, session, parents));
    assert Linked(db) by { ReachableInv(db, hash); hide Reachable, Linked, Logged, LineageAgrees, Settled, WithdrawalSlots; }
    RegisterCommitted(db, artifact, session, parents);
    hide RegisterArtifact, Reachable, Linked, LineageOf, UsableParent, MutableResearch;
    RegisterLineage(db, artifact, session, parents, ParticipantOf(db, session));
    assert p != artifact;
  }
}
