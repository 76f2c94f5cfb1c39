/** What registering artifacts and edges does to lineages, at once and in every later store. */
module M1Effects {
  import opened Wrappers
  import opened Lineage
  import opened M1Tables
  import opened M1Operations
  import opened M1Invariants
  import opened M1History
  import opened M1Theorems

  // ---- Lineages after a registration ----

  lemma EdgesAvoidNew(db: Db, artifact: Id)
    requires Linked(db) && artifact !in db.artifacts
    ensures forall e :: e in db.dependencies ==> e.0 != artifact && e.1 != artifact
  {
    hide SessionsOk, WithdrawalsLinked, RecordsLinked;
  }

  lemma NewArtifactRoots(db: Db, after: Db, artifact: Id, session: Id)
    requires artifact !in db.artifacts && IsResearch(db, session)
    requires after == db.(artifacts := db.artifacts[artifact := Artifact(session, Valid)], dependencies := after.dependencies)
    ensures forall q :: RootsOf(after, q) == RootsOf(db, q) + if q == ParticipantOf(db, session) then {artifact} else {}
  {
    assert forall a :: a in db.artifacts ==> Owner(after, a) == Owner(db, a);
    assert Owner(after, artifact) == Some(ParticipantOf(db, session));
  }

  /** The lineage of `q` once `artifact` of `session` depends on `parents`. */
  lemma LineageWithNew(db: Db, after: Db, artifact: Id, session: Id, parents: set<Id>, q: Id)
    requires Linked(db) && artifact !in db.artifacts && parents <= db.artifacts.Keys && IsResearch(db, session)
    requires after == db.(artifacts := db.artifacts[artifact := Artifact(session, Valid)],
                          dependencies := db.dependencies + EdgesTo(parents, artifact))
    ensures LineageOf(after, q) == LineageOf(db, q)
      + if q == ParticipantOf(db, session) || parents * LineageOf(db, q) != {} then {artifact} else {}
  {
    EdgesAvoidNew(db, artifact);
    NewArtifactRoots(db, after, artifact, session);
    assert artifact !in RootsOf(db, q);
    hide Closure, Linked, IsResearch;
    NewSink(db.dependencies, parents, artifact, RootsOf(db, q));
    if q == ParticipantOf(db, session) {
      hide RootsOf, EdgesTo;
      ClosureOfUnion(after.dependencies, RootsOf(db, q), {artifact});
      NoChildren(db.dependencies, parents, artifact);
      SinkAlone(after.dependencies, artifact);
    }
  }

  lemma NoChildren(edges: Edges, parents: set<Id>, artifact: Id)
    requires artifact !in parents && forall e :: e in edges ==> e.0 != artifact
    ensures forall e :: e in edges + EdgesTo(parents, artifact) ==> e.0 != artifact
  {
  }

  predicate AnyIn(parents: seq<Id>, lineage: set<Id>) {
    exists p :: p in parents && p in lineage
  }

  function Members(parents: seq<Id>): set<Id> { set p | p in parents }

  lemma RegisterShape(db: Db, artifact: Id, session: Id, parents: seq<Id>)
    requires RegisterArtifact(db, artifact, session, parents).1 == Applied
    ensures RegisterArtifact(db, artifact, session, parents).0
         == db.(artifacts := db.artifacts[artifact := Artifact(session, Valid)],
                dependencies := db.dependencies + EdgesTo(Members(parents), artifact))
    ensures Members(parents) <= db.artifacts.Keys
  {
    RegisterCommitted(db, artifact, session, parents);
    UsableIsRegistered(db);
    var edges := set p | p in parents :: (p, artifact);
    assert edges == EdgesTo(Members(parents), artifact);
    hide IsResearch, MutableResearch, UsableParent, NoDuplicates;
  }

  /** Registering an artifact adds it, VALID, to exactly the lineages of its own participant and of
      those whose lineage holds one of its parents, and changes nothing else. */
  lemma RegisterLineage(db: Db, artifact: Id, session: Id, parents: seq<Id>, q: Id)
    requires Linked(db) && RegisterArtifact(db, artifact, session, parents).1 == Applied
    ensures IsResearch(db, session) && artifact !in db.artifacts
    ensures var after := RegisterArtifact(db, artifact, session, parents).0;
            && after.artifacts == db.artifacts[artifact := Artifact(session, Valid)]
            && after == db.(artifacts := after.artifacts, dependencies := after.dependencies)
            && LineageOf(after, q) == LineageOf(db, q)
                 + if q == ParticipantOf(db, session) || AnyIn(parents, LineageOf(db, q)) then {artifact} else {}
  {
    RegisterCommitted(db, artifact, session, parents);
    RegisterShape(db, artifact, session, parents);
    hide RegisterArtifact, Linked, IsResearch, LineageOf, EdgesTo;
    LineageWithNew(db, RegisterArtifact(db, artifact, session, parents).0, artifact, session, Members(parents), q);
    if AnyIn(parents, LineageOf(db, q)) {
      var p :| p in parents && p in LineageOf(db, q);
      assert p in Members(parents) * LineageOf(db, q);
    }
    if p :| p in Members(parents) * LineageOf(db, q) { assert p in parents; }
  }

  /** Adding an edge adds the child's lineage to exactly the lineages that hold the parent, and
      changes nothing else. */
  lemma DependLineage(db: Db, parent: Id, child: Id, q: Id)
    requires AddDependency(db, parent, child).1 == Applied
    ensures var after := AddDependency(db, parent, child).0;
            && after == db.(dependencies := after.dependencies)
            && LineageOf(after, q) == LineageOf(db, q)
                 + if parent in LineageOf(db, q) then Closure(db.dependencies, {child}) else {}
  {
    var after := AddDependency(db, parent, child).0;
    SameRoots(db, after);
    hide Closure, RootsOf, UsableParent;
    NewEdge(db.dependencies, parent, child, RootsOf(db, q));
  }

  // ---- Every later store ----

  /** A stored edge makes the child follow its parent for ever. */
  lemma ChildFollows(db: Db, hash: Hash, more: seq<Op>, parent: Id, child: Id)
    requires Reachable(db, hash) && (parent, child) in db.dependencies
    ensures var later := Run(db, hash, more);
            && parent in later.artifacts && child in later.artifacts
            && (later.artifacts[parent].status == Invalidated ==> later.artifacts[child].status == Invalidated)
            && (forall q :: parent in LineageOf(later, q) ==> child in LineageOf(later, q))
            && (forall q :: Owner(later, parent) == Some(q) && IsWithdrawn(later, q) ==>
                  later.artifacts[parent].status == Invalidated && later.artifacts[child].status == Invalidated)
  {
    var later := Run(db, hash, more);
    RunGrows(db, hash, more);
    ReachableStep(db, hash, more);
    ReachableInv(later, hash);
    assert (parent, child) in later.dependencies;
    hide Run, Reachable, SessionsOk, WithdrawalsLinked, RecordsLinked, Logged, Settled, WithdrawalSlots, RowsGrow;
    ClosureIsClosed(later.dependencies, WithdrawnRoots(later));
    forall q | parent in LineageOf(later, q) ensures child in LineageOf(later, q) {
      ClosureIsClosed(later.dependencies, RootsOf(later, q));
    }
    hide Closure;
    forall q | Owner(later, parent) == Some(q) && IsWithdrawn(later, q) ensures parent in WithdrawnRoots(later) {}
  }

  lemma StepReachable(db: Db, hash: Hash, op: Op)
    requires Reachable(db, hash)
    ensures Reachable(Step(db, hash, op).0, hash)
  {
    ReachableStep(db, hash, [op]);
    assert [op][..0] == [];
    hide Step, Reachable;
    assert Run(db, hash, []) == db;
  }

  /** A registered artifact follows each of its parents for ever: whenever a parent is invalidated,
      and in particular once a parent's owner withdraws, it is invalidated too and in the lineage. */
  lemma RegisteredFollows(db: Db, hash: Hash, artifact: Id, session: Id, parents: seq<Id>, more: seq<Op>, p: Id)
    requires Reachable(db, hash) && p in parents
    requires RegisterArtifact(db, artifact, session, parents).1 == Applied
    ensures var later := Run(RegisterArtifact(db, artifact, session, parents).0, hash, more);
            && p in later.artifacts && artifact in later.artifacts
            && (later.artifacts[p].status == Invalidated ==> later.artifacts[artifact].status == Invalidated)
            && (forall q :: p in LineageOf(later, q) ==> artifact in LineageOf(later, q))
            && (forall q :: Owner(later, p) == Some(q) && IsWithdrawn(later, q) ==>
                  later.artifacts[p].status == Invalidated && later.artifacts[artifact].status == Invalidated)
  {
    RegisterShape(db, artifact, session, parents);
    assert (p, artifact) in EdgesTo(Members(parents), artifact);
    hide RegisterArtifact, LineageOf, Run, EdgesTo;
    StepReachable(db, hash, Register(artifact, session, parents));
    ChildFollows(RegisterArtifact(db, artifact, session, parents).0, hash, more, p, artifact);
  }

  /** The same for an added edge. */
  lemma DependentFollows(db: Db, hash: Hash, parent: Id, child: Id, more: seq<Op>)
    requires Reachable(db, hash) && AddDependency(db, parent, child).1 == Applied
    ensures var later := Run(AddDependency(db, parent, child).0, hash, more);
            && parent in later.artifacts && child in later.artifacts
            && (later.artifacts[parent].status == Invalidated ==> later.artifacts[child].status == Invalidated)
            && (forall q :: parent in LineageOf(later, q) ==> child in LineageOf(later, q))
  {
    hide LineageOf, Run, UsableParent;
    StepReachable(db, hash, Depend(parent, child));
    ChildFollows(AddDependency(db, parent, child).0, hash, more, parent, child);
  }
}
