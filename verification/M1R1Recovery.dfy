/** Two schema-v3 checks around a stopped process: the recovery of interrupted reconciliation, and
    the readiness check that decides whether a store may be migrated. */
module M1R1Recovery {
  import opened Wrappers
  import opened Lineage
  import opened M1Tables
  import opened M1Operations
  import opened M1Theorems
  import I = M1Invariants
  import opened M1Identity

  datatype RunState = Queued | Running | RunCompleted | RunBlocked | RunRecoveryRequired | RunFailedTechnical

  datatype TargetState =
    | PendingConfirmation | InProgress | LocalDeletionVerified | ExternalDeletionAttested | TargetRecoveryRequired | Blocked

  datatype Stage = PredeletePending | PredeleteVerified | DeleteMarked | AbsenceVerified | StageRecoveryRequired | StageBlocked

  datatype RunRow = RunRow(state: RunState, failure: Option<string>, terminalAt: Option<int>)

  datatype TargetRow = TargetRow(state: TargetState, version: nat, blocker: Option<string>, updatedAt: int)

  datatype AttemptRow = AttemptRow(stage: Stage, failure: Option<string>, updatedAt: int)

  datatype Tables = Tables(runs: map<Id, RunRow>, targets: map<Id, TargetRow>, attempts: map<Id, AttemptRow>)

  const INTERRUPTED: Option<string> := Some("PROCESS_INTERRUPTED")

  predicate OpenRun(r: RunRow) { r.state.Queued? || r.state.Running? }

  predicate OpenAttempt(a: AttemptRow) {
    a.stage.PredeletePending? || a.stage.PredeleteVerified? || a.stage.DeleteMarked?
  }

  /** The readings of the clock for the three updates. */
  datatype Times = Times(runs: int, targets: int, attempts: int)

  predicate RunRecovered(a: RunRow, b: RunRow, now: int) {
    if a.state == Queued || a.state == Running then b == RunRow(RunRecoveryRequired, Some("PROCESS_INTERRUPTED"), Some(now)) else b == a
  }

  /** The version of an interrupted target rises by exactly one. */
  predicate TargetRecovered(a: TargetRow, b: TargetRow, now: int) {
    if a.state == InProgress then b == TargetRow(TargetRecoveryRequired, a.version + 1, Some("PROCESS_INTERRUPTED"), now) else b == a
  }

  predicate AttemptRecovered(a: AttemptRow, b: AttemptRow, now: int) {
    if a.stage == PredeletePending || a.stage == PredeleteVerified || a.stage == DeleteMarked
    then b == AttemptRow(StageRecoveryRequired, Some("PROCESS_INTERRUPTED"), now) else b == a
  }

  /** The interrupted rows of `before` are marked in `after`, every other row is as it was, and no
      row is added or removed. */
  predicate Recovered(before: Tables, after: Tables, times: Times) {
    && after.runs.Keys == before.runs.Keys && after.targets.Keys == before.targets.Keys && after.attempts.Keys == before.attempts.Keys
    && (forall r :: r in before.runs ==> RunRecovered(before.runs[r], after.runs[r], times.runs))
    && (forall k :: k in before.targets ==> TargetRecovered(before.targets[k], after.targets[k], times.targets))
    && (forall a :: a in before.attempts ==> AttemptRecovered(before.attempts[a], after.attempts[a], times.attempts))
  }

  /** Nothing looks as if it were still going on. */
  predicate NothingGoesOn(t: Tables) {
    && (forall r :: r in t.runs ==> !OpenRun(t.runs[r]))
    && (forall k :: k in t.targets ==> t.targets[k].state != InProgress)
    && (forall a :: a in t.attempts ==> !OpenAttempt(t.attempts[a]))
  }

  /** The runs whose state is another one afterwards. */
  function ChangedRuns(before: Tables, after: Tables): set<Id>
    requires after.runs.Keys == before.runs.Keys
  {
    set r | r in before.runs && after.runs[r].state != before.runs[r].state
  }

  class Reconciliation {
    var tables: Tables

    constructor (tables: Tables)
      ensures this.tables == tables
    {
      this.tables := tables;
    }

    /** The visible part of `recover`: three updates in one transaction, which may be rolled back. */
    method Recover(times: Times, commits: bool) returns (interrupted: Option<nat>)
      modifies this
      ensures interrupted.None? <==> !commits
      ensures commits ==> Recovered(old(tables), tables, times) && NothingGoesOn(tables)
      ensures commits ==> interrupted == Some(|ChangedRuns(old(tables), tables)|)
      ensures !commits ==> tables == old(tables)
    {
      var before := tables;
      var openRuns := set r | r in tables.runs && OpenRun(tables.runs[r]);
      tables := tables.(runs := map r | r in tables.runs ::
        if OpenRun(tables.runs[r]) then RunRow(RunRecoveryRequired, INTERRUPTED, Some(times.runs)) else tables.runs[r]);
      tables := tables.(targets := map k | k in tables.targets ::
        if tables.targets[k].state == InProgress
        then TargetRow(TargetRecoveryRequired, tables.targets[k].version + 1, INTERRUPTED, times.targets) else tables.targets[k]);
      tables := tables.(attempts := map a | a in tables.attempts ::
        if OpenAttempt(tables.attempts[a]) then AttemptRow(StageRecoveryRequired, INTERRUPTED, times.attempts) else tables.attempts[a]);
      assert openRuns == ChangedRuns(before, tables);
      if !commits {
        tables := before;
        return None;
      }
      interrupted := Some(|openRuns|);
    }
  }

  lemma SecondChangesNothing(before: Tables, once: Tables, twice: Tables, times: Times, later: Times)
    requires Recovered(before, once, times) && Recovered(once, twice, later)
    ensures twice == once && ChangedRuns(once, twice) == {}
  {
  }

  /** One call: rolled back, or committed with some clock readings. */
  ghost predicate Called(before: Tables, after: Tables) {
    after == before || exists times :: Recovered(before, after, times)
  }

  /** After the first call that commits, any number of further calls, at any times, committed or
      rolled back, change nothing and count nothing: the version of an interrupted target is raised
      by one, once. */
  lemma {:induction false} RecoveryIsIdempotent(states: seq<Tables>, times: Times, j: nat)
    requires 1 <= j < |states| && Recovered(states[0], states[1], times)
    requires forall i :: 0 <= i < |states| - 1 ==> Called(states[i], states[i + 1])
    ensures states[j] == states[1] && NothingGoesOn(states[j])
    ensures forall k :: k in states[0].targets ==>
      && k in states[j].targets
      && states[j].targets[k].version == states[0].targets[k].version + if states[0].targets[k].state == InProgress then 1 else 0
    ensures j >= 2 ==> states[j].runs.Keys == states[j - 1].runs.Keys && ChangedRuns(states[j - 1], states[j]) == {}
    decreases j
  {
    if j > 1 {
      RecoveryIsIdempotent(states, times, j - 1);
      assert Called(states[j - 1], states[j - 1 + 1]);
      if states[j] != states[j - 1] {
        var later :| Recovered(states[j - 1], states[j], later);
        hide Recovered, ChangedRuns;
        SecondChangesNothing(states[0], states[1], states[j], times, later);
      }
    }
  }

  // ---- Readiness ----

  const ELIGIBILITY_TABLES: seq<string> := [
    "participants", "consent_records", "retention_records", "withdrawal_receipts", "withdrawal_tasks", "artifact_registry",
    "artifact_dependencies", "write_intents", "artifact_manifests", "m2_write_intents"]

  /** The row count of a table of the M1 schema; None when the schema has no table of that name. */
  function RowCount(db: Db, table: string): Option<nat> {
    if table == "participants" then Some(|db.participants|)
    else if table == "consent_receipts" then Some(|db.consents|)
    else if table == "retention_records" then Some(|db.retention|)
    else if table == "withdrawal_receipts" then Some(|db.receipts|)
    else if table == "withdrawal_tasks" then Some(|db.tasks|)
    else if table == "artifact_registry" then Some(|db.artifacts|)
    else if table == "artifact_dependencies" then Some(|db.dependencies|)
    else if table == "write_intents" then Some(|db.intents|)
    else None
  }

  predicate NoResearch(db: Db) {
    forall s :: s in db.sessions ==> db.sessions[s].kind != Research
  }

  /** `eligible`: every counted table is empty; a name without a table is not counted. */
  predicate Eligible(db: Db) {
    && NoResearch(db)
    && forall i :: 0 <= i < |ELIGIBILITY_TABLES| ==>
         RowCount(db, ELIGIBILITY_TABLES[i]).None? || RowCount(db, ELIGIBILITY_TABLES[i]).value == 0
  }

  lemma CountedNames()
    ensures ELIGIBILITY_TABLES[0] == "participants" && ELIGIBILITY_TABLES[2] == "retention_records"
    ensures ELIGIBILITY_TABLES[3] == "withdrawal_receipts" && ELIGIBILITY_TABLES[4] == "withdrawal_tasks"
    ensures ELIGIBILITY_TABLES[5] == "artifact_registry" && ELIGIBILITY_TABLES[6] == "artifact_dependencies"
    ensures ELIGIBILITY_TABLES[7] == "write_intents"
  {
  }

  /** Any store is eligible exactly if it has no research session and seven of its tables are empty;
      the consents are not among them. */
  lemma EligibleIsExact(db: Db)
    ensures Eligible(db) <==>
      && NoResearch(db)
      && db.participants == map[] && db.retention == map[] && db.receipts == map[] && db.tasks == {}
      && db.artifacts == map[] && db.dependencies == {} && db.intents == map[]
  {
    CountedNames();
    if Eligible(db) {
      assert RowCount(db, ELIGIBILITY_TABLES[0]) == Some(|db.participants|) && RowCount(db, ELIGIBILITY_TABLES[2]) == Some(|db.retention|);
      assert RowCount(db, ELIGIBILITY_TABLES[3]) == Some(|db.receipts|) && RowCount(db, ELIGIBILITY_TABLES[4]) == Some(|db.tasks|);
      assert RowCount(db, ELIGIBILITY_TABLES[5]) == Some(|db.artifacts|) && RowCount(db, ELIGIBILITY_TABLES[6]) == Some(|db.dependencies|);
      assert RowCount(db, ELIGIBILITY_TABLES[7]) == Some(|db.intents|);
    }
  }

  /** A reachable store is eligible exactly if it has no participant. It then holds no consent receipt
      either, although the name the check counts for consents belongs to no table. */
  lemma EligibleHasNoConsents(db: Db, hash: Hash)
    requires Reachable(db, hash)
    ensures RowCount(db, "consent_records") == None
    ensures Eligible(db) <==> db.participants == map[]
    ensures Eligible(db) ==> db.consents == map[]
  {
    EligibleIsExact(db);
    hide Eligible, Reachable;
    if db.participants == map[] { NothingWithoutParticipants(db, hash); }
    if Eligible(db) { NoResearchNoConsents(db, hash); }
  }

  lemma NothingWithoutParticipants(db: Db, hash: Hash)
    requires Reachable(db, hash) && db.participants == map[]
    ensures NoResearch(db) && db.retention == map[] && db.receipts == map[] && db.tasks == {}
    ensures db.artifacts == map[] && db.dependencies == {} && db.intents == map[]
  {
    ReachableInv(db, hash);
    ReachableProper(db, hash);
    hide Reachable, Logged, I.LineageAgrees, I.Settled, I.WithdrawalSlots, Unique;
    assert forall s :: s in db.sessions ==> RowTells(db.participants, db.sessions[s]);
    hide RowsTell, I.SessionsOk;
    assert forall s :: !I.Holds(db.sessions, s);
    assert db.retention.Keys == {} && db.receipts.Keys == {} && db.artifacts.Keys == {} && db.intents.Keys == {};
  }
}
