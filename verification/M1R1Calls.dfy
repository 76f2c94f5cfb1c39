/** What sealing an artifact and registering an external copy do, at once and in every later store
    of the schema-v3 composition. */
module M1R1Calls {
  import opened Wrappers
  import opened Lineage
  import opened M1Tables
  import opened M1Operations
  import opened M1Invariants
  import opened M1History
  import opened M1Theorems
  import opened M1Identity
  import opened M1Calls
  import opened M1ResearchCalls
  import opened M1R1

  // ---- Reachable stores ----

  ghost predicate Reachable3(v: V3, hash: Hash) {
    exists ops :: v == Run3(EMPTY_V3, hash, ops)
  }

  /** One target row for one file or copy. */
  ghost predicate TargetsDistinct(v: V3) {
    Distinct(v.targets)
  }

  lemma SealParts(v: V3, artifact: Id, session: Id, parents: seq<Id>, path: string, target: Id)
    requires SealArtifact(v, artifact, session, parents, path, target).1 == Applied
    ensures var after := SealArtifact(v, artifact, session, parents, path, target).0;
            var registered := v.db.(artifacts := v.db.artifacts[artifact := Artifact(session, Valid)], dependencies := after.db.dependencies);
            && artifact !in v.db.artifacts && target !in v.targets && !LocatorTaken(v, target, LocalFile(artifact, path))
            && (forall e :: e in after.db.dependencies <==> e in v.db.dependencies || (e.0 in parents && e.1 == artifact))
            && AppendEvent(registered, session, ArtifactSealed(artifact)) == Ok(after.db)
            && after == V3(after.db, v.targets[target := LocalFile(artifact, path)], v.mappings)
  {
    SealCommitted(v, artifact, session, parents, path, target);
    var registered := v.db.(artifacts := v.db.artifacts[artifact := Artifact(session, Valid)],
                            dependencies := v.db.dependencies + set p | p in parents :: (p, artifact));
    assert AppendEvent(registered, session, ArtifactSealed(artifact)).Ok?;
    assert AppendEvent(registered, session, ArtifactSealed(artifact)).value.dependencies == registered.dependencies;
    hide IsResearch, MutableResearch, UsableParent, NoDuplicates, AppendEvent;
  }

  lemma SealProper(v: V3, artifact: Id, session: Id, parents: seq<Id>, path: string, target: Id)
    requires Proper(v.db)
    ensures Proper(SealArtifact(v, artifact, session, parents, path, target).0.db)
  {
    var (after, outcome) := SealArtifact(v, artifact, session, parents, path, target);
    hide SealArtifact, Proper, LocatorTaken, AppendEvent;
    if outcome == Applied {
      SealParts(v, artifact, session, parents, path, target);
      var registered := v.db.(artifacts := v.db.artifacts[artifact := Artifact(session, Valid)], dependencies := after.db.dependencies);
      SameTablesProper(v.db, registered);
      EventKeepsProper(registered, session, ArtifactSealed(artifact));
    } else {
      SealRefused(v, artifact, session, parents, path, target);
    }
  }

  lemma SealRefused(v: V3, artifact: Id, session: Id, parents: seq<Id>, path: string, target: Id)
    ensures var (after, outcome) := SealArtifact(v, artifact, session, parents, path, target); outcome != Applied ==> after == v
  {
    hide IsResearch, MutableResearch, UsableParent, NoDuplicates, LocatorTaken, AppendEvent;
  }

  lemma WithdrawV3Proper(v: V3, hash: Hash, key: Option<string>, request: Request)
    requires Proper(v.db) && request.Withdraw?
    ensures Proper(WithdrawV3(v, hash, key, request).0.db)
  {
    ServeProper(v.db, hash, key, request);
    hide Proper, Serve, MappingRefused, JoinedTargets, IsResearch;
  }

  lemma CommonProper(v: V3, hash: Hash, op: Op)
    requires Inv3(v, hash) && Proper(v.db)
    ensures Proper(Step3(v, hash, Common(op)).0.db)
  {
    assert Linked(v.db) by { InvLinked(v.db, hash); hide Inv; }
    hide Inv3, Proper, Linked, Step, WithdrawV3;
    if op.Keyed? && op.request.Withdraw? {
      WithdrawV3Proper(v, hash, op.key, op.request);
    } else {
      StepProper(v.db, hash, op);
    }
  }

  lemma Step3Proper(v: V3, hash: Hash, op: Op3)
    requires Inv3(v, hash) && Proper(v.db)
    ensures Proper(Step3(v, hash, op).0.db)
  {
    hide Inv3, Proper, SealArtifact;
    match op
    case Seal(artifact, session, parents, path, target) => SealProper(v, artifact, session, parents, path, target);
    case RegisterExternal(artifact, exportId, target) => hide LocatorTaken;
    case Common(common) =>
      CommonProper(v, hash, common);
      hide Step3;
  }

  lemma Step3Distinct(v: V3, hash: Hash, op: Op3)
    requires TargetsDistinct(v)
    ensures TargetsDistinct(Step3(v, hash, op).0)
  {
    hide Serve, Step, MappingRefused, JoinedTargets, IsResearch, MutableResearch, UsableParent, NoDuplicates, AppendEvent, Distinct;
    match op
    case Seal(artifact, session, parents, path, target) =>
      if SealArtifact(v, artifact, session, parents, path, target).1 == Applied {
        SealParts(v, artifact, session, parents, path, target);
        NewTargetDistinct(v, target, LocalFile(artifact, path));
      }
    case RegisterExternal(artifact, exportId, target) =>
      if !LocatorTaken(v, target, ExternalCopy(artifact, exportId)) && target !in v.targets {
        NewTargetDistinct(v, target, ExternalCopy(artifact, exportId));
      }
    case Common(common) =>
  }

  lemma NewTargetDistinct(v: V3, target: Id, row: Target)
    requires Distinct(v.targets) && target !in v.targets && !LocatorTaken(v, target, row)
    ensures Distinct(v.targets[target := row])
  {
  }

  lemma {:induction false} Run3Proper(hash: Hash, ops: seq<Op3>)
    ensures var v := Run3(EMPTY_V3, hash, ops); Inv3(v, hash) && Proper(v.db) && TargetsDistinct(v)
    decreases |ops|
  {
    Run3Keeps(hash, ops);
    if ops != [] {
      Run3Proper(hash, ops[..|ops| - 1]);
      var earlier := Run3(EMPTY_V3, hash, ops[..|ops| - 1]);
      hide Inv3, Proper, TargetsDistinct, Step3;
      Step3Proper(earlier, hash, ops[|ops| - 1]);
      Step3Distinct(earlier, hash, ops[|ops| - 1]);
    }
  }

  lemma Reachable3Inv(v: V3, hash: Hash)
    requires Reachable3(v, hash)
    ensures Inv3(v, hash) && Proper(v.db) && TargetsDistinct(v)
  {
    hide Inv3, Proper, TargetsDistinct, Run3;
    var ops :| v == Run3(EMPTY_V3, hash, ops);
    Run3Proper(hash, ops);
  }

  // ---- Calls ----

  /** Sealing an artifact: refused unless the session is open, every parent is another VALID artifact
      of the same session and the parents are distinct; the artifact and its target must be new. */
  lemma SealCall(v: V3, hash: Hash, artifact: Id, session: Id, parents: seq<Id>, path: string, target: Id)
    requires Reachable3(v, hash)
    ensures var (after, outcome) := Step3(v, hash, Seal(artifact, session, parents, path, target));
            && (outcome != Applied ==> after == v)
            && outcome ==
                 if !IsOpen(v.db, session) || (exists i, j :: 0 <= i < j < |parents| && parents[i] == parents[j])
                    || exists p :: p in parents && !(p != artifact && IsValidOf(v.db, session, p)) then Rejected(InvalidTransition)
                 else if artifact in v.db.artifacts || target in v.targets
                         || exists t :: t in v.targets && v.targets[t] == LocalFile(artifact, path) then Rejected(Integrity)
                 else Applied
  {
    hide Reachable3, Inv3, Proper, TargetsDistinct;
    Reachable3Inv(v, hash);
    assert Inv(v.db, hash) && Retained(v.db.sessions, v.db.retention) by { Parts3(v, hash); }
    OpenTells(v.db, hash, session);
    forall p ensures SameSessionParent(v.db, session, p) <==> IsValidOf(v.db, session, p) { ParentTells(v.db, hash, p); }
    EdgesKnown(v.db, hash, artifact);
    EventAlways(v.db, hash, session, artifact, parents);
    hide Inv, IsResearch, MutableResearch, SameSessionParent, UsableParent, AppendEvent, SealArtifact, NoDuplicates, LocatorTaken;
    SealAnswer(v, artifact, session, parents, path, target);
    SealRefused(v, artifact, session, parents, path, target);
  }

  lemma SealAnswer(v: V3, artifact: Id, session: Id, parents: seq<Id>, path: string, target: Id)
    requires RequireMutableResearch(v.db, session).None? <==> IsOpen(v.db, session)
    requires IsOpen(v.db, session) ==> session in v.db.retention && session in v.db.sessions
    requires forall p :: SameSessionParent(v.db, session, p) <==> IsValidOf(v.db, session, p)
    requires artifact !in v.db.artifacts ==> forall e :: e in v.db.dependencies ==> e.1 != artifact
    requires session in v.db.sessions ==>
      AppendEvent(v.db.(artifacts := v.db.artifacts[artifact := Artifact(session, Valid)],
                        dependencies := v.db.dependencies + set p | p in parents :: (p, artifact)), session, ArtifactSealed(artifact)).Ok?
    ensures SealArtifact(v, artifact, session, parents, path, target).1 ==
         if !IsOpen(v.db, session) || !NoDuplicates(parents) || exists p :: p in parents && !(p != artifact && IsValidOf(v.db, session, p))
         then Rejected(InvalidTransition)
         else if artifact in v.db.artifacts || target in v.targets || LocatorTaken(v, target, LocalFile(artifact, path)) then Rejected(Integrity)
         else Applied
  {
    hide RequireMutableResearch, IsOpen, SameSessionParent, IsValidOf, AppendEvent, NoDuplicates, LocatorTaken;
    assert artifact in parents ==> !(artifact != artifact && IsValidOf(v.db, session, artifact));
  }

  ghost predicate IsValidOf(db: Db, session: Id, p: Id) {
    p in db.artifacts && db.artifacts[p].status == Valid && db.artifacts[p].session == session
  }

  lemma Parts3(v: V3, hash: Hash)
    requires Inv3(v, hash) && Proper(v.db)
    ensures Inv(v.db, hash) && Retained(v.db.sessions, v.db.retention)
  {
    hide Inv, Retained;
  }

  lemma EdgesKnown(db: Db, hash: Hash, artifact: Id)
    requires Inv(db, hash)
    ensures artifact !in db.artifacts ==> forall e :: e in db.dependencies ==> e.1 != artifact
  {
    hide Logged, LineageAgrees, Settled, WithdrawalSlots, SessionsOk, WithdrawalsLinked, RecordsLinked;
  }

  lemma EventAlways(db: Db, hash: Hash, session: Id, artifact: Id, parents: seq<Id>)
    requires Inv(db, hash)
    ensures session in db.sessions ==>
      AppendEvent(db.(artifacts := db.artifacts[artifact := Artifact(session, Valid)],
                      dependencies := db.dependencies + set p | p in parents :: (p, artifact)), session, ArtifactSealed(artifact)).Ok?
  {
    hide Linked, LineageAgrees, Settled, WithdrawalSlots;
    if session in db.sessions { assert GapFree(db, session); }
  }

  /** A sealed artifact is VALID, depends on exactly its parents, has its one target, and its sealing
      is logged; nothing else changes. */
  lemma SealEffect(v: V3, hash: Hash, artifact: Id, session: Id, parents: seq<Id>, path: string, target: Id)
    requires Reachable3(v, hash)
    requires SealArtifact(v, artifact, session, parents, path, target).1 == Applied
    ensures var after := SealArtifact(v, artifact, session, parents, path, target).0;
            && after == V3(after.db, v.targets[target := LocalFile(artifact, path)], v.mappings)
            && after.db == v.db.(artifacts := v.db.artifacts[artifact := Artifact(session, Valid)],
                                 dependencies := after.db.dependencies, sessions := after.db.sessions, events := after.db.events)
            && (forall e :: e in after.db.dependencies <==> e in v.db.dependencies || (e.0 in parents && e.1 == artifact))
            && Logs(v.db, after.db, session, ArtifactSealed(artifact))
            && session in v.db.sessions && OnlyRow(v.db, after.db, session, v.db.sessions[session])
  {
    SealParts(v, artifact, session, parents, path, target);
    assert Logged(v.db) by { Reachable3Inv(v, hash); hide Reachable3, Logged, Linked, LineageAgrees, Settled, WithdrawalSlots; }
    var after := SealArtifact(v, artifact, session, parents, path, target).0;
    var registered := v.db.(artifacts := v.db.artifacts[artifact := Artifact(session, Valid)], dependencies := after.db.dependencies);
    hide SealArtifact, Reachable3, Logged, LocatorTaken;
    assert v.db.sessions == v.db.sessions[session := v.db.sessions[session]];
    RowThenLogs(v.db, registered, session, v.db.sessions[session], ArtifactSealed(artifact));
    hide AppendEvent, Logs, OnlyRow;
  }

  /** An external copy is registered for a VALID artifact, once; a repeated registration under the
      same id is accepted and changes nothing. */
  lemma ExternalCall(v: V3, hash: Hash, artifact: Id, exportId: string, target: Id)
    ensures var (after, outcome) := Step3(v, hash, RegisterExternal(artifact, exportId, target));
            var wanted := ExternalCopy(artifact, exportId);
            && outcome ==
                 (if artifact !in v.db.artifacts || v.db.artifacts[artifact].status != Valid then Rejected(InvalidTransition)
                  else if target in v.targets && v.targets[target] != wanted then Rejected(Integrity)
                  else if target !in v.targets && exists t :: t in v.targets && v.targets[t] == wanted then Rejected(Integrity)
                  else Applied)
            && after == if outcome == Applied then v.(targets := v.targets[target := wanted]) else v
  {
    if target in v.targets { assert v.targets == v.targets[target := v.targets[target]]; }
  }

  // ---- Every later store ----

  ghost predicate Grows3(before: V3, after: V3) {
    Grows(before.db, after.db) && EntriesStay(before.targets, after.targets)
  }

  lemma SealGrows(v: V3, artifact: Id, session: Id, parents: seq<Id>, path: string, target: Id)
    ensures Grows3(v, SealArtifact(v, artifact, session, parents, path, target).0)
  {
    var (after, outcome) := SealArtifact(v, artifact, session, parents, path, target);
    GrowsRefl(v.db);
    hide SealArtifact, Grows, LocatorTaken, AppendEvent;
    if outcome == Applied {
      SealParts(v, artifact, session, parents, path, target);
      var registered := v.db.(artifacts := v.db.artifacts[artifact := Artifact(session, Valid)], dependencies := after.db.dependencies);
      NewRowsGrow(v.db, registered);
      EventGrows(registered, session, ArtifactSealed(artifact));
      GrowsTrans(v.db, registered, after.db);
    } else {
      SealRefused(v, artifact, session, parents, path, target);
    }
  }

  lemma CommonGrows(v: V3, hash: Hash, op: Op)
    ensures Grows3(v, Step3(v, hash, Common(op)).0)
  {
    GrowsRefl(v.db);
    StepGrows(v.db, hash, op);
    hide Grows, MappingRefused, JoinedTargets, IsResearch;
    if op.Keyed? && op.request.Withdraw? {
      assert Step(v.db, hash, op) == Serve(v.db, hash, op.key, op.request);
      hide Step, Serve;
    } else {
      hide Step;
    }
  }

  lemma Step3Grows(v: V3, hash: Hash, op: Op3)
    ensures Grows3(v, Step3(v, hash, op).0)
  {
    GrowsRefl(v.db);
    hide Grows, SealArtifact, LocatorTaken;
    match op
    case Seal(artifact, session, parents, path, target) => SealGrows(v, artifact, session, parents, path, target);
    case RegisterExternal(artifact, exportId, target) =>
    case Common(common) =>
      CommonGrows(v, hash, common);
      hide Step3;
  }

  lemma Grows3Trans(a: V3, b: V3, c: V3)
    requires Grows3(a, b) && Grows3(b, c)
    ensures Grows3(a, c)
  {
    hide Grows;
    GrowsTrans(a.db, b.db, c.db);
  }

  lemma {:induction false} Run3Grows(v: V3, hash: Hash, ops: seq<Op3>)
    requires Inv3(v, hash)
    ensures Grows3(v, Run3(v, hash, ops)) && Inv3(Run3(v, hash, ops), hash)
    decreases |ops|
  {
    if ops == [] {
      GrowsRefl(v.db);
    } else {
      hide Inv3, Grows3, Step3;
      var earlier := Run3(v, hash, ops[..|ops| - 1]);
      Run3Grows(v, hash, ops[..|ops| - 1]);
      Step3Keeps(earlier, hash, ops[|ops| - 1]);
      Step3Grows(earlier, hash, ops[|ops| - 1]);
      Grows3Trans(v, earlier, Step3(earlier, hash, ops[|ops| - 1]).0);
    }
  }

  /** A registered target stays, and once the participant of its artifact is withdrawn, it is mapped,
      by one row that names that participant, the receipt and the task; the artifact is invalidated. */
  lemma TargetIsMapped(v: V3, hash: Hash, more: seq<Op3>, target: Id)
    requires Inv3(v, hash) && target in v.targets
    ensures var later := Run3(v, hash, more);
            var a := v.targets[target].artifact;
            && target in later.targets && later.targets[target] == v.targets[target] && a in later.db.artifacts
            && (forall p :: Owner(later.db, a) == Some(p) && p in later.db.receipts ==>
                  && target in later.mappings && later.db.artifacts[a].status == Invalidated
                  && later.mappings[target] == Mapping(later.db.receipts[p].subject, a, p, later.db.receipts[p].id))
  {
    Run3Grows(v, hash, more);
    var later := Run3(v, hash, more);
    var a := v.targets[target].artifact;
    hide Run3, Grows;
    forall p | Owner(later.db, a) == Some(p) && p in later.db.receipts
      ensures target in later.mappings && later.db.artifacts[a].status == Invalidated
      ensures later.mappings[target] == Mapping(later.db.receipts[p].subject, a, p, later.db.receipts[p].id)
    {
      assert Bound(later, target);
      OwnIsInvalidated(later.db, a, p);
    }
  }

  lemma OwnIsInvalidated(db: Db, a: Id, p: Id)
    requires Settled(db) && LineageAgrees(db) && a in db.artifacts && Owner(db, a) == Some(p) && p in db.receipts
    ensures db.artifacts[a].status == Invalidated
  {
    assert SettledFor(db, p);
    ClosureIsClosed(db.dependencies, WithdrawnRoots(db));
  }

  /** A sealed artifact follows each of its parents in every later store. */
  lemma SealedFollows(v: V3, hash: Hash, artifact: Id, session: Id, parents: seq<Id>, path: string, target: Id, more: seq<Op3>, p: Id)
    requires Reachable3(v, hash) && p in parents
    requires SealArtifact(v, artifact, session, parents, path, target).1 == Applied
    ensures var later := Run3(SealArtifact(v, artifact, session, parents, path, target).0, hash, more);
            && p in later.db.artifacts && artifact in later.db.artifacts && (p, artifact) in later.db.dependencies
            && (later.db.artifacts[p].status == Invalidated ==> later.db.artifacts[artifact].status == Invalidated)
  {
    var after := SealArtifact(v, artifact, session, parents, path, target).0;
    assert Inv3(v, hash) by { Reachable3Inv(v, hash); hide Reachable3, Inv3; }
    SealKeeps(v, hash, artifact, session, parents, path, target);
    SealParts(v, artifact, session, parents, path, target);
    Run3Grows(after, hash, more);
    var later := Run3(after, hash, more);
    assert (p, artifact) in after.db.dependencies;
    hide Run3, SealArtifact, Reachable3, LocatorTaken, AppendEvent, RowsGrow, PeopleGrow, OpensOnlyCurrent;
    EdgeFollows(later.db, hash, p, artifact);
  }

  lemma EdgeFollows(db: Db, hash: Hash, p: Id, a: Id)
    requires Inv(db, hash) && (p, a) in db.dependencies
    ensures p in db.artifacts && a in db.artifacts
    ensures db.artifacts[p].status == Invalidated ==> db.artifacts[a].status == Invalidated
  {
    hide Logged, Settled, WithdrawalSlots, SessionsOk, WithdrawalsLinked, RecordsLinked;
    ClosureIsClosed(db.dependencies, WithdrawnRoots(db));
  }
}
