/** The schema-v3 composition: artifacts arrive only sealed, with a reconciliation target, and a
    withdrawal maps every target of every tasked artifact in the same transaction. */
module M1R1 {
  import opened Wrappers
  import opened Lineage
  import opened M1Tables
  import opened M1Operations
  import opened M1Invariants
  import opened M1Theorems

  datatype Target = LocalFile(artifact: Id, path: string) | ExternalCopy(artifact: Id, exportId: string)

  /** A row of `withdrawal_task_targets`; the table is keyed by its unique target id. */
  datatype Mapping = Mapping(subject: Id, artifact: Id, participant: Id, receipt: Id)

  datatype V3 = V3(db: Db, targets: map<Id, Target>, mappings: map<Id, Mapping>)

  const EMPTY_V3 := V3(EMPTY_DB, map[], map[])

  datatype Op3 =
    | Common(op: Op)
    | Seal(artifact: Id, session: Id, parents: seq<Id>, path: string, target: Id)
    | RegisterExternal(artifact: Id, exportId: string, target: Id)

  predicate LocatorTaken(v: V3, id: Id, target: Target) {
    exists t :: t in v.targets && t != id && v.targets[t] == target
  }

  predicate SameSessionParent(db: Db, session: Id, parent: Id) {
    UsableParent(db, parent) && db.artifacts[parent].session == session
  }

  /** The final transaction of `persist`, with the target it registers. */
  function SealArtifact(v: V3, artifact: Id, session: Id, parents: seq<Id>, path: string, target: Id): (V3, Outcome) {
    match RequireMutableResearch(v.db, session)
    case Some(_) => (v, Rejected(InvalidTransition))
    case None =>
      if session !in v.db.retention || artifact in parents || !NoDuplicates(parents)
         || exists p :: p in parents && !SameSessionParent(v.db, session, p)
      then (v, Rejected(InvalidTransition))
      else if artifact in v.db.artifacts || target in v.targets || LocatorTaken(v, target, LocalFile(artifact, path))
              || exists p :: p in parents && (p, artifact) in v.db.dependencies
      then (v, Rejected(Integrity))
      else
        var registered := v.db.(artifacts := v.db.artifacts[artifact := Artifact(session, Valid)],
                                dependencies := v.db.dependencies + set p | p in parents :: (p, artifact));
        match AppendEvent(registered, session, ArtifactSealed(artifact))
        case Err(failure) => (v, Rejected(failure))
        case Ok(after) => (v.(db := after, targets := v.targets[target := LocalFile(artifact, path)]), Applied)
  }

  /** INSERT OR IGNORE, then the stored row must be the requested one. */
  function RegisterExternalTarget(v: V3, artifact: Id, exportId: string, target: Id): (V3, Outcome) {
    var wanted := ExternalCopy(artifact, exportId);
    if artifact !in v.db.artifacts || v.db.artifacts[artifact].status != Valid then (v, Rejected(InvalidTransition))
    else if target in v.targets then
      if v.targets[target] == wanted then (v, Applied) else (v, Rejected(Integrity))
    else if LocatorTaken(v, target, wanted) then (v, Rejected(Integrity))
    else (v.(targets := v.targets[target := wanted]), Applied)
  }

  /** The tasks of `p` joined to the targets of their artifacts. */
  ghost predicate JoinRow(v: V3, after: Db, p: Id, subject: Id, target: Id) {
    target in v.targets && (subject, v.targets[target].artifact) in TasksOf(after, p)
  }

  ghost function JoinedTargets(v: V3, after: Db, p: Id): set<Id> {
    set t | t in v.targets && exists subject :: JoinRow(v, after, p, subject, t)
  }

  /** `FOREIGN KEY(artifact_session_id,participant_id)` refuses another participant's artifact. */
  ghost predicate MappingRefused(v: V3, after: Db, p: Id) {
    exists t :: t in JoinedTargets(v, after, p) && t !in v.mappings && Owner(after, v.targets[t].artifact) != Some(p)
  }

  ghost function MappingFor(v: V3, after: Db, p: Id, receipt: Id, target: Id): Mapping
    requires target in JoinedTargets(v, after, p)
  {
    var subject :| JoinRow(v, after, p, subject, target);
    Mapping(subject, v.targets[target].artifact, p, receipt)
  }

  ghost function WithdrawV3(v: V3, hash: Hash, key: Option<string>, request: Request): (V3, Outcome)
    requires request.Withdraw?
  {
    var (after, outcome) := Serve(v.db, hash, key, request);
    if !outcome.Executed? || after.receipts == v.db.receipts || !IsResearch(v.db, request.session)
       || ParticipantOf(v.db, request.session) !in after.receipts
    then (v.(db := after), outcome)
    else
      var p := ParticipantOf(v.db, request.session);
      if MappingRefused(v, after, p) then (v, Rejected(Integrity))
      else
        var added := map t | t in JoinedTargets(v, after, p) && t !in v.mappings :: MappingFor(v, after, p, after.receipts[p].id, t);
        (V3(after, v.targets, v.mappings + added), outcome)
  }

  ghost function Step3(v: V3, hash: Hash, op: Op3): (V3, Outcome) {
    match op
    case Seal(artifact, session, parents, path, target) => SealArtifact(v, artifact, session, parents, path, target)
    case RegisterExternal(artifact, exportId, target) => RegisterExternalTarget(v, artifact, exportId, target)
    case Common(common) =>
      if common.Register? || common.Depend? then (v, Rejected(InvalidTransition))
      else if common.Keyed? && common.request.Withdraw? then WithdrawV3(v, hash, common.key, common.request)
      else (v.(db := Step(v.db, hash, common).0), Step(v.db, hash, common).1)
  }

  ghost function Run3(v: V3, hash: Hash, ops: seq<Op3>): V3
    decreases |ops|
  {
    if ops == [] then v
    else Step3(Run3(v, hash, ops[..|ops| - 1]), hash, ops[|ops| - 1]).0
  }

  // ---- The invariant ----

  ghost predicate WithinSessions(db: Db) {
    forall e :: e in db.dependencies ==>
      e.0 in db.artifacts && e.1 in db.artifacts && db.artifacts[e.0].session == db.artifacts[e.1].session
  }

  ghost predicate TargetsLinked(v: V3) {
    forall t :: t in v.targets ==> v.targets[t].artifact in v.db.artifacts
  }

  /** The one mapping row of a target: its artifact's own participant, receipt and task. */
  ghost predicate Bound(v: V3, t: Id)
    requires t in v.mappings
  {
    var m := v.mappings[t];
    && t in v.targets && m.artifact == v.targets[t].artifact
    && Owner(v.db, m.artifact) == Some(m.participant)
    && m.participant in v.db.receipts
    && m.receipt == v.db.receipts[m.participant].id
    && m.subject == v.db.receipts[m.participant].subject
    && (m.subject, m.artifact) in v.db.tasks
  }

  ghost predicate MappingsBound(v: V3) {
    forall t :: t in v.mappings ==> Bound(v, t)
  }

  ghost predicate Covered(v: V3) {
    forall t | t in v.targets ::
      var owner := Owner(v.db, v.targets[t].artifact);
      owner.Some? && owner.value in v.db.receipts ==> t in v.mappings
  }

  ghost predicate Inv3(v: V3, hash: Hash) {
    Inv(v.db, hash) && WithinSessions(v.db) && TargetsLinked(v) && MappingsBound(v) && Covered(v)
  }

  /** With edges inside sessions, a participant's lineage is the participant's own artifacts. */
  lemma LineageIsOwn(db: Db, p: Id)
    requires Linked(db) && WithinSessions(db)
    ensures LineageOf(db, p) == RootsOf(db, p)
  {
    forall e | e in db.dependencies && e.0 in RootsOf(db, p) ensures e.1 in RootsOf(db, p) {
      assert Owner(db, e.1) == Owner(db, e.0);
    }
    ClosureIsLeast(db.dependencies, RootsOf(db, p), RootsOf(db, p));
    ClosureIsClosed(db.dependencies, RootsOf(db, p));
  }

  /** The tables the v3 rows refer to are as before. */
  ghost predicate SameBindings(before: Db, after: Db) {
    && after.artifacts == before.artifacts && after.dependencies == before.dependencies
    && after.tasks == before.tasks && after.receipts == before.receipts
    && forall a :: a in before.artifacts ==> Owner(after, a) == Owner(before, a)
  }

  lemma SameBindingsKeep(v: V3, after: V3)
    requires WithinSessions(v.db) && TargetsLinked(v) && MappingsBound(v) && Covered(v)
    requires after.targets == v.targets && after.mappings == v.mappings && SameBindings(v.db, after.db)
    ensures WithinSessions(after.db) && TargetsLinked(after) && MappingsBound(after) && Covered(after)
  {
    hide Owner;
    forall t | t in after.mappings ensures Bound(after, t) {
      assert Bound(v, t);
    }
  }

  lemma QuietBindings(before: Db, after: Db)
    requires Linked(before) && Quiet(before, after)
    ensures SameBindings(before, after)
  {
    hide SessionsOk, WithdrawalsLinked, RecordsLinked;
  }

  lemma CommonKeeps(v: V3, hash: Hash, op: Op)
    requires Inv3(v, hash) && !op.Register? && !op.Depend? && !(op.Keyed? && op.request.Withdraw?)
    ensures Inv3(v.(db := Step(v.db, hash, op).0), hash)
  {
    StepKeeps(v.db, hash, op);
    CommonQuiet(v.db, hash, op);
    hide Step, Inv, WithinSessions, TargetsLinked, MappingsBound, Covered, SameBindings;
    SameBindingsKeep(v, v.(db := Step(v.db, hash, op).0));
  }

  lemma CommonQuiet(db: Db, hash: Hash, op: Op)
    requires Inv(db, hash) && !op.Register? && !op.Depend? && !(op.Keyed? && op.request.Withdraw?)
    ensures SameBindings(db, Step(db, hash, op).0)
  {
    hide LineageAgrees, Settled, WithdrawalSlots, SameBindings, Logged;
    if op.Keyed? {
      ServeBindings(db, hash, op.key, op.request);
    } else {
      PlainOps(db, hash, op);
      hide Step;
      QuietBindings(db, Step(db, hash, op).0);
    }
  }

  lemma ServeBindings(db: Db, hash: Hash, key: Option<string>, request: Request)
    requires Shape(db) && !request.Withdraw?
    ensures SameBindings(db, Serve(db, hash, key, request).0)
  {
    hide Perform, Precheck, Fallback, ScopeOf, PayloadOf, Key, Linked, Logged, Quiet;
    var slot := SlotOf(db, key, request);
    if slot.Some? && slot.value !in db.idempotency {
      PlainRequests(db, request);
      if Perform(db, request).Commit? {
        QuietBindings(db, Perform(db, request).db);
      }
    }
  }

  // ---- New artifacts and targets ----

  lemma SealedStore(v: V3, hash: Hash, artifact: Id, session: Id, more: Edges, registered: Db)
    requires Inv(v.db, hash) && artifact !in v.db.artifacts && IsResearch(v.db, session) && MutableResearch(v.db, session)
    requires forall e :: e in more ==> UsableParent(v.db, e.0) && e.1 == artifact
    requires registered == v.db.(artifacts := v.db.artifacts[artifact := Artifact(session, Valid)], dependencies := v.db.dependencies + more)
    ensures AppendEvent(registered, session, ArtifactSealed(artifact)).Ok?
    ensures Inv(AppendEvent(registered, session, ArtifactSealed(artifact)).value, hash)
    ensures SameBindings(registered, AppendEvent(registered, session, ArtifactSealed(artifact)).value)
  {
    hide UsableParent, MutableResearch, LineageAgrees, Settled, Linked, Logged;
    RegisterCore(v.db, registered, artifact, session, more);
    AppendEventQuiet(registered, session, ArtifactSealed(artifact));
    var after := AppendEvent(registered, session, ArtifactSealed(artifact)).value;
    QuietKeepsWithdrawals(registered, after);
    QuietBindings(registered, after);
    hide SameBindings, Quiet, Shape;
    assert after.idempotency == v.db.idempotency && after.receipts == v.db.receipts && after.participants == v.db.participants;
  }

  /** The session's participant holds no withdrawal receipt. */
  ghost predicate CurrentParticipant(db: Db, session: Id) {
    IsResearch(db, session) && ParticipantOf(db, session) !in db.receipts
  }

  lemma SealedRows(v: V3, after: V3, artifact: Id, session: Id, more: Edges, target: Id, path: string)
    requires Linked(v.db) && WithinSessions(v.db) && TargetsLinked(v) && MappingsBound(v) && Covered(v)
    requires artifact !in v.db.artifacts && IsResearch(v.db, session) && target !in v.targets
    requires CurrentParticipant(v.db, session)
    requires forall e :: e in more ==> e.0 in v.db.artifacts && v.db.artifacts[e.0].session == session && e.1 == artifact
    requires after.db == v.db.(artifacts := v.db.artifacts[artifact := Artifact(session, Valid)], dependencies := v.db.dependencies + more)
    requires after.targets == v.targets[target := LocalFile(artifact, path)] && after.mappings == v.mappings
    ensures WithinSessions(after.db) && TargetsLinked(after) && MappingsBound(after) && Covered(after)
  {
    hide SessionsOk, WithdrawalsLinked, RecordsLinked;
    assert forall a :: a in v.db.artifacts ==> Owner(after.db, a) == Owner(v.db, a);
    assert Owner(after.db, artifact) == Some(ParticipantOf(v.db, session));
    hide Owner;
    assert WithinSessions(after.db);
    forall t | t in after.mappings ensures Bound(after, t) {
      assert Bound(v, t);
    }
  }

  lemma MutableIsCurrent(db: Db, session: Id)
    requires Settled(db) && IsResearch(db, session) && MutableResearch(db, session)
    ensures CurrentParticipant(db, session)
  {
    SettledAreWithdrawn(db);
  }

  lemma SealKeeps(v: V3, hash: Hash, artifact: Id, session: Id, parents: seq<Id>, path: string, target: Id)
    requires Inv3(v, hash)
    ensures Inv3(SealArtifact(v, artifact, session, parents, path, target).0, hash)
  {
    var (after, outcome) := SealArtifact(v, artifact, session, parents, path, target);
    if outcome == Applied {
      SealCommitted(v, artifact, session, parents, path, target);
      MutableIsCurrent(v.db, session);
      var more := set p | p in parents :: (p, artifact);
      var registered := v.db.(artifacts := v.db.artifacts[artifact := Artifact(session, Valid)],
                              dependencies := v.db.dependencies + more);
      hide UsableParent, MutableResearch, IsResearch, LineageAgrees, Settled, Logged, WithdrawalSlots, CurrentParticipant, WithinSessions,
        TargetsLinked, MappingsBound, Covered, SealArtifact;
      UsableIsRegistered(v.db);
      SealedStore(v, hash, artifact, session, more, registered);
      var middle := V3(registered, after.targets, v.mappings);
      SealedRows(v, middle, artifact, session, more, target, path);
      hide SameBindings, Inv;
      SameBindingsKeep(middle, after);
    }
  }

  lemma SealCommitted(v: V3, artifact: Id, session: Id, parents: seq<Id>, path: string, target: Id)
    requires SealArtifact(v, artifact, session, parents, path, target).1 == Applied
    ensures var after := SealArtifact(v, artifact, session, parents, path, target).0;
            var registered := v.db.(artifacts := v.db.artifacts[artifact := Artifact(session, Valid)],
                                    dependencies := v.db.dependencies + set p | p in parents :: (p, artifact));
            && IsResearch(v.db, session) && MutableResearch(v.db, session)
            && artifact !in v.db.artifacts && target !in v.targets
            && (forall p :: p in parents ==> UsableParent(v.db, p) && v.db.artifacts[p].session == session)
            && AppendEvent(registered, session, ArtifactSealed(artifact)) == Ok(after.db)
            && after == V3(after.db, v.targets[target := LocalFile(artifact, path)], v.mappings)
  {
    hide IsResearch, MutableResearch, UsableParent, NoDuplicates, LocatorTaken, AppendEvent;
  }

  lemma ValidIsCurrent(db: Db, a: Id)
    requires Linked(db) && LineageAgrees(db) && Settled(db) && a in db.artifacts && db.artifacts[a].status == Valid
    ensures Owner(db, a).Some? ==> Owner(db, a).value !in db.receipts
  {
    SettledAreWithdrawn(db);
    ClosureIsClosed(db.dependencies, WithdrawnRoots(db));
  }

  lemma NewTargetKeeps(v: V3, after: V3, target: Id, row: Target)
    requires TargetsLinked(v) && MappingsBound(v) && Covered(v)
    requires row.artifact in v.db.artifacts && target !in v.targets
    requires var owner := Owner(v.db, row.artifact); owner.Some? ==> owner.value !in v.db.receipts
    requires after == v.(targets := v.targets[target := row])
    ensures TargetsLinked(after) && MappingsBound(after) && Covered(after)
  {
    hide Owner;
    forall t | t in after.mappings ensures Bound(after, t) {
      assert Bound(v, t);
    }
  }

  lemma ExternalKeeps(v: V3, hash: Hash, artifact: Id, exportId: string, target: Id)
    requires Inv3(v, hash)
    ensures Inv3(RegisterExternalTarget(v, artifact, exportId, target).0, hash)
  {
    var after := RegisterExternalTarget(v, artifact, exportId, target).0;
    if after != v {
      ValidIsCurrent(v.db, artifact);
      hide Inv, Owner, WithinSessions, LocatorTaken, TargetsLinked, MappingsBound, Covered;
      assert after == v.(targets := v.targets[target := ExternalCopy(artifact, exportId)]) && target !in v.targets;
      hide RegisterExternalTarget;
      NewTargetKeeps(v, after, target, ExternalCopy(artifact, exportId));
    }
  }

  // ---- Withdrawal ----

  /** What a first withdrawal leaves for the mapping hook to see. */
  ghost predicate FirstReceipt(before: Db, after: Db, p: Id) {
    && p !in before.receipts && after.receipts.Keys == before.receipts.Keys + {p}
    && (forall q :: q in before.receipts ==> after.receipts[q] == before.receipts[q])
    && before.tasks <= after.tasks
    && after.dependencies == before.dependencies
    && after.artifacts.Keys == before.artifacts.Keys
    && (forall a :: a in before.artifacts ==> after.artifacts[a].session == before.artifacts[a].session)
    && (forall a :: Owner(after, a) == Owner(before, a))
  }

  lemma RowLoopIsFirst(db: Db, session: Id, p: Id, now: int, lineage: set<Id>)
    requires Linked(db) && p in db.participants
    ensures var tables := WithdrawTables(db, session, p, now, lineage);
            && tables.dependencies == db.dependencies && db.tasks <= tables.tasks
            && tables.artifacts.Keys == db.artifacts.Keys
            && (forall a :: a in db.artifacts ==> tables.artifacts[a].session == db.artifacts[a].session)
            && (forall a :: Owner(tables, a) == Owner(db, a))
  {
    var tables := WithdrawTables(db, session, p, now, lineage);
    WithdrawRowsKept(db, p, now);
    InvalidatedRows(db.artifacts, lineage);
    hide WithdrawRows, InvalidateRows, Pairs, Linked;
    SameOwners(db, tables);
  }

  lemma LoggedOwners(tables: Db, session: Id, after: Db)
    requires var r := AppendEvent(tables, session, WithdrawalRequested);
             r.Ok? && after == r.value.(receipts := after.receipts)
    ensures after == tables.(sessions := after.sessions, events := after.events, receipts := after.receipts)
    ensures forall a :: Owner(after, a) == Owner(tables, a)
  {
  }

  lemma FirstReceiptOf(db: Db, tables: Db, after: Db, p: Id, receipt: Receipt)
    requires p !in db.receipts && after.receipts == db.receipts[p := receipt]
    requires after == tables.(sessions := after.sessions, events := after.events, receipts := after.receipts)
    requires forall a :: Owner(after, a) == Owner(tables, a)
    requires tables.dependencies == db.dependencies && db.tasks <= tables.tasks
    requires tables.artifacts.Keys == db.artifacts.Keys
    requires forall a :: a in db.artifacts ==> tables.artifacts[a].session == db.artifacts[a].session
    requires forall a :: Owner(tables, a) == Owner(db, a)
    ensures FirstReceipt(db, after, p)
  {
    hide Owner;
  }

  lemma AttemptIsFirst(db: Db, session: Id, p: Id, now: int, id: Id)
    requires Core(db) && IsResearch(db, session) && ParticipantOf(db, session) == p && p !in db.receipts
    requires PerformWithdraw(db, session, p, now, id).Commit?
    ensures FirstReceipt(db, PerformWithdraw(db, session, p, now, id).db, p)
  {
    var tables := WithdrawTables(db, session, p, now, LineageOf(db, p));
    var after := PerformWithdraw(db, session, p, now, id).db;
    FirstWithdrawalSettles(db, session, p, now, id);
    RowLoopIsFirst(db, session, p, now, LineageOf(db, p));
    AttemptShape(db, session, p, now, id);
    hide *;
    LoggedOwners(tables, session, after);
    FirstReceiptOf(db, tables, after, p, Receipt(id, session, PerformWithdraw(db, session, p, now, id).response));
  }

  lemma AttemptShape(db: Db, session: Id, p: Id, now: int, id: Id)
    requires p in db.participants && p !in db.receipts && PerformWithdraw(db, session, p, now, id).Commit?
    ensures var after := PerformWithdraw(db, session, p, now, id).db;
            var r := AppendEvent(WithdrawTables(db, session, p, now, LineageOf(db, p)), session, WithdrawalRequested);
            r.Ok? && after == r.value.(receipts := after.receipts)
  {
    hide LineageOf, TasksOf, WithdrawTables, AppendEvent;
  }

  /** A withdrawal either changes nothing the mappings refer to, or is the participant's first. */
  lemma WithdrawalEffect(db: Db, hash: Hash, key: Option<string>, request: Request)
    requires Inv(db, hash) && request.Withdraw?
    ensures var (after, outcome) := Serve(db, hash, key, request);
            SameBindings(db, after)
            || (outcome.Executed? && after.receipts != db.receipts && IsResearch(db, request.session)
                && FirstReceipt(db, after, ParticipantOf(db, request.session)))
  {
    hide Inv, FirstReceipt, Key, Fallback;
    var slot := SlotOf(db, key, request);
    if slot.Some? {
      var p := ParticipantOf(db, request.session);
      MutateEffect(db, hash, slot.value, hash(PayloadOf(db, request)), request.session, p, request.now, request.newId);
    }
  }

  lemma MutateEffect(db: Db, hash: Hash, slot: Slot, digest: string, session: Id, p: Id, now: int, id: Id)
    requires Inv(db, hash) && IsResearch(db, session) && ParticipantOf(db, session) == p
    ensures var (after, outcome) := Mutate(db, slot, digest, PerformWithdraw(db, session, p, now, id));
            SameBindings(db, after) || (outcome.Executed? && after.receipts != db.receipts && FirstReceipt(db, after, p))
  {
    hide Core, WithdrawalSlots, FirstReceipt;
    var attempt := PerformWithdraw(db, session, p, now, id);
    if slot !in db.idempotency && attempt.Commit? && p !in db.receipts {
      AttemptIsFirst(db, session, p, now, id);
      hide PerformWithdraw, SameBindings;
      var after := Mutate(db, slot, digest, attempt).0;
      assert after == attempt.db.(idempotency := after.idempotency);
      RememberedIsFirst(db, attempt.db, after, p);
    }
  }

  lemma RememberedIsFirst(before: Db, performed: Db, after: Db, p: Id)
    requires FirstReceipt(before, performed, p) && after == performed.(idempotency := after.idempotency)
    ensures FirstReceipt(before, after, p) && after.receipts != before.receipts
  {
  }

  lemma TasksAreOwn(after: Db, p: Id)
    requires Linked(after) && WithinSessions(after) && p in after.receipts && SettledFor(after, p)
    ensures forall s, a :: (s, a) in TasksOf(after, p) <==> s == after.receipts[p].subject && a in RootsOf(after, p)
    ensures TasksOf(after, p) <= after.tasks
  {
    assert TasksOf(after, p) <= after.tasks;
    LineageIsOwn(after, p);
    hide Linked, LineageOf, WithinSessions, TasksOf, RootsOf;
  }

  /** The hook is never refused, and its rows bind each target to the new receipt. */
  lemma JoinIsOwn(v: V3, after: Db, p: Id)
    requires TargetsLinked(v) && v.db.artifacts.Keys == after.artifacts.Keys && p in after.receipts
    requires forall s, a :: (s, a) in TasksOf(after, p) <==> s == after.receipts[p].subject && a in RootsOf(after, p)
    ensures !MappingRefused(v, after, p)
    ensures forall t :: t in v.targets ==> (t in JoinedTargets(v, after, p) <==> Owner(after, v.targets[t].artifact) == Some(p))
    ensures forall subject, t :: JoinRow(v, after, p, subject, t) ==> subject == after.receipts[p].subject
  {
    assert forall a :: a in RootsOf(after, p) <==> a in after.artifacts && Owner(after, a) == Some(p);
    hide TasksOf, RootsOf, Owner;
    forall t | t in v.targets
      ensures t in JoinedTargets(v, after, p) <==> Owner(after, v.targets[t].artifact) == Some(p)
    {
      if Owner(after, v.targets[t].artifact) == Some(p) {
        assert JoinRow(v, after, p, after.receipts[p].subject, t);
      }
    }
  }

  lemma HookRows(v: V3, after: Db, hash: Hash, p: Id)
    requires Inv3(v, hash) && FirstReceipt(v.db, after, p) && Inv(after, hash)
    ensures !MappingRefused(v, after, p)
    ensures forall t :: t in v.targets ==> (t in JoinedTargets(v, after, p) <==> Owner(after, v.targets[t].artifact) == Some(p))
    ensures forall subject, t :: JoinRow(v, after, p, subject, t) ==> subject == after.receipts[p].subject
    ensures TasksOf(after, p) <= after.tasks
  {
    assert WithinSessions(after);
    assert SettledFor(after, p);
    hide SettledFor, Logged, LineageAgrees, WithdrawalSlots, MappingsBound, Covered, WithinSessions;
    TasksAreOwn(after, p);
    JoinIsOwn(v, after, p);
  }

  lemma WithdrawV3Keeps(v: V3, hash: Hash, key: Option<string>, request: Request)
    requires Inv3(v, hash) && request.Withdraw?
    ensures Inv3(WithdrawV3(v, hash, key, request).0, hash)
    ensures WithdrawV3(v, hash, key, request).1 == Serve(v.db, hash, key, request).1
  {
    var (after, outcome) := Serve(v.db, hash, key, request);
    WithdrawKeeps(v.db, hash, key, request);
    WithdrawalEffect(v.db, hash, key, request);
    hide Serve, Inv;
    if SameBindings(v.db, after) {
      hide MappingRefused, JoinedTargets, FirstReceipt, WithinSessions, TargetsLinked, MappingsBound, Covered;
      SameBindingsKeep(v, v.(db := after));
    } else {
      var p := ParticipantOf(v.db, request.session);
      HookRows(v, after, hash, p);
      var mapped := WithdrawV3(v, hash, key, request).0;
      hide MappingRefused, JoinedTargets, SameBindings;
      NewMappingsBound(v, after, hash, p, mapped);
    }
  }

  lemma NewMappingsBound(v: V3, after: Db, hash: Hash, p: Id, mapped: V3)
    requires Inv3(v, hash) && FirstReceipt(v.db, after, p)
    requires forall t :: t in v.targets ==> (t in JoinedTargets(v, after, p) <==> Owner(after, v.targets[t].artifact) == Some(p))
    requires forall subject, t :: JoinRow(v, after, p, subject, t) ==> subject == after.receipts[p].subject
    requires TasksOf(after, p) <= after.tasks
    requires mapped == V3(after, v.targets, v.mappings + map t | t in JoinedTargets(v, after, p) && t !in v.mappings ::
                                                            MappingFor(v, after, p, after.receipts[p].id, t))
    ensures WithinSessions(after) && TargetsLinked(mapped) && MappingsBound(mapped) && Covered(mapped)
  {
    hide Inv, Owner, TasksOf;
    forall t | t in mapped.mappings ensures Bound(mapped, t) {
      if t in v.mappings {
        assert Bound(v, t);
      } else {
        var subject :| JoinRow(v, after, p, subject, t) && mapped.mappings[t] == Mapping(subject, v.targets[t].artifact, p, after.receipts[p].id);
      }
    }
  }

  lemma Step3Keeps(v: V3, hash: Hash, op: Op3)
    requires Inv3(v, hash)
    ensures Inv3(Step3(v, hash, op).0, hash)
  {
    hide Inv3;
    match op
    case Seal(artifact, session, parents, path, target) => SealKeeps(v, hash, artifact, session, parents, path, target);
    case RegisterExternal(artifact, exportId, target) => ExternalKeeps(v, hash, artifact, exportId, target);
    case Common(common) =>
      if common.Register? || common.Depend? {
      } else if common.Keyed? && common.request.Withdraw? {
        WithdrawV3Keeps(v, hash, common.key, common.request);
      } else {
        CommonKeeps(v, hash, common);
      }
  }

  lemma {:induction false} Run3Keeps(hash: Hash, ops: seq<Op3>)
    ensures Inv3(Run3(EMPTY_V3, hash, ops), hash)
    decreases |ops|
  {
    if ops == [] {
      EmptyStore(hash);
    } else {
      Run3Keeps(hash, ops[..|ops| - 1]);
      Step3Keeps(Run3(EMPTY_V3, hash, ops[..|ops| - 1]), hash, ops[|ops| - 1]);
    }
  }

  // ---- The coverage theorem ----

  /** In every reachable v3 state, each target of each artifact tasked for a withdrawn participant
      has its one mapping row, and that row names the participant, the participant's receipt and
      the very task. A target is mapped only if its artifact's participant is withdrawn. */
  lemma EveryTaskedTargetIsMapped(hash: Hash, ops: seq<Op3>, p: Id, task: (Id, Id), t: Id)
    requires var v := Run3(EMPTY_V3, hash, ops);
             p in v.db.receipts && task in TasksOf(v.db, p) && t in v.targets && v.targets[t].artifact == task.1
    ensures var v := Run3(EMPTY_V3, hash, ops);
            t in v.mappings && v.mappings[t] == Mapping(task.0, task.1, p, v.db.receipts[p].id)
  {
    Run3Keeps(hash, ops);
    var v := Run3(EMPTY_V3, hash, ops);
    hide Run3;
    assert SettledFor(v.db, p);
    LineageIsOwn(v.db, p);
    assert task in Pairs(v.db.receipts[p].subject, RootsOf(v.db, p));
    assert Owner(v.db, task.1) == Some(p);
    assert t in v.mappings;
    assert Bound(v, t);
  }

  lemma MappedOnlyIfWithdrawn(hash: Hash, ops: seq<Op3>, t: Id)
    requires t in Run3(EMPTY_V3, hash, ops).mappings
    ensures var v := Run3(EMPTY_V3, hash, ops);
            && t in v.targets
            && Owner(v.db, v.targets[t].artifact) == Some(v.mappings[t].participant)
            && IsWithdrawn(v.db, v.mappings[t].participant)
            && (v.mappings[t].subject, v.targets[t].artifact) in TasksOf(v.db, v.mappings[t].participant)
  {
    Run3Keeps(hash, ops);
    var v := Run3(EMPTY_V3, hash, ops);
    hide Run3;
    assert Bound(v, t);
    assert SettledFor(v.db, v.mappings[t].participant);
  }

  /** The v3 hook never makes a withdrawal fail: the outcome is that of the M1 operation. */
  lemma HookNeverRefuses(hash: Hash, ops: seq<Op3>, key: Option<string>, request: Request)
    requires request.Withdraw?
    ensures var v := Run3(EMPTY_V3, hash, ops);
            WithdrawV3(v, hash, key, request).1 == Serve(v.db, hash, key, request).1
  {
    Run3Keeps(hash, ops);
    hide Run3;
    WithdrawV3Keeps(Run3(EMPTY_V3, hash, ops), hash, key, request);
  }
}
