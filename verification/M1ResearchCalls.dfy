/** What the calls of a study answer and leave in the tables, in every reachable store. */
module M1ResearchCalls {
  import opened Wrappers
  import opened Lineage
  import opened M1Tables
  import opened M1Operations
  import opened M1Invariants
  import opened M1History
  import opened M1Theorems
  import opened M1Identity
  import opened M1Calls
  import opened M1Effects

  // ---- What may still be written ----

  ghost predicate IsResearchSession(db: Db, session: Id) {
    session in db.sessions && db.sessions[session].kind == Research
  }

  /** A research session that is neither failed nor withdrawn, of a participant without a receipt. */
  ghost predicate IsOpen(db: Db, session: Id) {
    && IsResearchSession(db, session) && db.sessions[session].participant.Some?
    && db.sessions[session].participant.value !in db.receipts
    && (db.sessions[session].state == Draft || db.sessions[session].state == ConsentConfirmed)
  }

  lemma ReceiptMeansWithdrawn(db: Db, p: Id)
    requires Settled(db)
    ensures p in db.receipts <==> IsWithdrawn(db, p)
  {
    hide TasksOf, LineageOf;
    if p in db.receipts { assert SettledFor(db, p); }
  }

  lemma OpenTells(db: Db, hash: Hash, session: Id)
    requires Inv(db, hash) && Proper(db)
    ensures IsResearch(db, session) <==> IsResearchSession(db, session)
    ensures RequireMutableResearch(db, session)
         == if !IsResearchSession(db, session) then Some(Missing)
            else if !IsOpen(db, session) then Some(InvalidTransition) else None
  {
    hide Shape, LineageAgrees, WithdrawalSlots, Unique, Retained;
    if session in db.sessions {
      assert RowTells(db.participants, db.sessions[session]);
      if db.sessions[session].participant.Some? { ReceiptMeansWithdrawn(db, db.sessions[session].participant.value); }
    }
    hide RowsTell, Settled;
  }

  lemma ParentTells(db: Db, hash: Hash, p: Id)
    requires Inv(db, hash) && Proper(db)
    ensures UsableParent(db, p) <==> p in db.artifacts && db.artifacts[p].status == Valid
  {
    hide Logged, Settled, WithdrawalSlots, Unique, Retained, SessionsOk, WithdrawalsLinked, RecordsLinked;
    if p in db.artifacts && db.artifacts[p].status == Valid {
      assert Holds(db.sessions, db.artifacts[p].session);
      assert RowTells(db.participants, db.sessions[db.artifacts[p].session]);
      ClosureIsClosed(db.dependencies, WithdrawnRoots(db));
      hide Closure, Linked, RowsTell;
      assert p !in WithdrawnRoots(db);
    }
  }

  /** Research records may be written exactly in an open session; no other research session, and no
      demo session, is open. */
  lemma WritableIffOpen(db: Db, hash: Hash, session: Id)
    requires Reachable(db, hash)
    ensures IsResearch(db, session) <==> IsResearchSession(db, session)
    ensures RequireMutableResearch(db, session)
         == if !IsResearchSession(db, session) then Some(Missing)
            else if !IsOpen(db, session) then Some(InvalidTransition) else None
  {
    hide Reachable, Inv, Proper;
    ReachableProper(db, hash);
    ReachableInv(db, hash);
    OpenTells(db, hash, session);
    hide *;
  }

  /** An artifact may be a parent exactly if it is registered and VALID: none of a withdrawn
      participant's is. */
  lemma ParentIffValid(db: Db, hash: Hash, p: Id)
    requires Reachable(db, hash)
    ensures UsableParent(db, p) <==> p in db.artifacts && db.artifacts[p].status == Valid
  {
    hide Reachable, Inv, Proper;
    ReachableProper(db, hash);
    ReachableInv(db, hash);
    ParentTells(db, hash, p);
    hide *;
  }

  // ---- Artifacts ----

  /** Registering an artifact: refused unless the session is open, every parent is registered and
      VALID, the artifact is new and the parents are distinct. */
  lemma RegisterCall(db: Db, hash: Hash, artifact: Id, session: Id, parents: seq<Id>)
    requires Reachable(db, hash)
    ensures var (after, outcome) := Step(db, hash, Register(artifact, session, parents));
            && (outcome != Applied ==> after == db)
            && outcome ==
                 if !IsResearchSession(db, session) then Rejected(Missing)
                 else if !IsOpen(db, session) || exists p :: p in parents && !(p in db.artifacts && db.artifacts[p].status == Valid)
                 then Rejected(InvalidTransition)
                 else if artifact in db.artifacts || exists i, j :: 0 <= i < j < |parents| && parents[i] == parents[j]
                 then Rejected(Integrity)
                 else Applied
  {
    WritableIffOpen(db, hash, session);
    forall p ensures UsableParent(db, p) <==> p in db.artifacts && db.artifacts[p].status == Valid { ParentIffValid(db, hash, p); }
    NoEdgesYet(db, hash, artifact);
    hide Reachable, UsableParent, IsResearch, MutableResearch, IsOpen;
  }

  lemma NoEdgesYet(db: Db, hash: Hash, artifact: Id)
    requires Reachable(db, hash)
    ensures artifact !in db.artifacts ==> forall e :: e in db.dependencies ==> e.1 != artifact
  {
    ReachableInv(db, hash);
    hide Reachable, LineageAgrees, Settled, WithdrawalSlots, Logged;
    if artifact !in db.artifacts { EdgesAvoidNew(db, artifact); }
  }

  /** Adding an edge: refused unless both artifacts are registered and the parent is VALID; the same
      edge is not stored twice. */
  lemma DependCall(db: Db, hash: Hash, parent: Id, child: Id)
    requires Reachable(db, hash)
    ensures var (after, outcome) := Step(db, hash, Depend(parent, child));
            && (outcome != Applied ==> after == db)
            && outcome ==
                 if parent !in db.artifacts || child !in db.artifacts || db.artifacts[parent].status != Valid then Rejected(InvalidTransition)
                 else if (parent, child) in db.dependencies then Rejected(Integrity)
                 else Applied
  {
    ParentIffValid(db, hash, parent);
    hide Reachable, UsableParent;
  }

  // ---- Studies, participants, sessions, consents ----

  /** A study is created unless its code or id is taken. */
  lemma StudyCall(db: Db, hash: Hash, key: Option<string>, code: string, id: Id)
    requires NewCall(db, key, CreateStudy(code, id))
    ensures var (after, outcome) := Serve(db, hash, key, CreateStudy(code, id));
            if id in db.studies || exists s :: s in db.studies && db.studies[s] == code
            then after == db && outcome == Rejected(Integrity)
            else outcome == Executed(StudyCreated(id))
                 && after == db.(studies := db.studies[id := code], idempotency := after.idempotency)
  {
    hide Serve, NewCall;
    FreshCall(db, hash, key, CreateStudy(code, id));
  }

  /** A participant is created in a known study under a pseudonym nobody has, and not withdrawn. */
  lemma ParticipantCall(db: Db, hash: Hash, key: Option<string>, study: Id, id: Id, pseudonym: string)
    requires NewCall(db, key, CreateParticipant(study, id, pseudonym))
    ensures var (after, outcome) := Serve(db, hash, key, CreateParticipant(study, id, pseudonym));
            if study !in db.studies then after == db && outcome == Rejected(Missing)
            else if id in db.participants || exists p :: p in db.participants && db.participants[p].pseudonym == pseudonym
            then after == db && outcome == Rejected(Integrity)
            else outcome == Executed(ParticipantCreated(id, pseudonym))
                 && after == db.(participants := db.participants[id := Participant(study, pseudonym, None)], idempotency := after.idempotency)
  {
    hide Serve, NewCall;
    FreshCall(db, hash, key, CreateParticipant(study, id, pseudonym));
  }

  ghost predicate Given(value: Option<string>) { value.Some? && value.value != "" }

  /** A session is opened as a draft for a participant of the study who holds no receipt, with its
      one retention record: the policy, or the end date, or PENDING if neither is given. */
  lemma SessionCall(db: Db, hash: Hash, key: Option<string>, study: Id, p: Id, policy: Option<string>, endDate: Option<string>, usable: bool, id: Id)
    requires Reachable(db, hash) && NewCall(db, key, CreateResearchSession(study, p, policy, endDate, usable, id))
    ensures var (after, outcome) := Serve(db, hash, key, CreateResearchSession(study, p, policy, endDate, usable, id));
            if p !in db.participants || db.participants[p].study != study then after == db && outcome == Rejected(Missing)
            else if p in db.receipts then after == db && outcome == Rejected(InvalidTransition)
            else if id in db.sessions then after == db && outcome == Rejected(Integrity)
            else
              && outcome == Executed(SessionCreated(id, db.participants[p].pseudonym))
              && after == db.(sessions := after.sessions, retention := after.retention, idempotency := after.idempotency)
              && after.sessions == db.sessions[id := Session(Research, Some(study), Some(p), Draft, 0, false, None, false, None)]
              && id !in db.retention && after.retention.Keys == db.retention.Keys + {id}
              && (forall s :: s in db.retention ==> after.retention[s] == db.retention[s])
              && (Given(policy) ==> after.retention[id] == policy.value)
              && (Given(endDate) ==> after.retention[id] == endDate.value)
              && (!Given(policy) && !Given(endDate) ==> after.retention[id] == "PENDING")
  {
    SessionFacts(db, hash, p);
    FreshCall(db, hash, key, CreateResearchSession(study, p, policy, endDate, usable, id));
    SessionRows(db, study, p, policy, endDate, id);
    hide Serve, Reachable, PerformSession, Decision, Retained, Given;
  }

  lemma SessionFacts(db: Db, hash: Hash, p: Id)
    requires Reachable(db, hash)
    ensures Retained(db.sessions, db.retention) && (p in db.receipts <==> IsWithdrawn(db, p))
  {
    ReachableProper(db, hash);
    ReachableInv(db, hash);
    hide Reachable, Shape, LineageAgrees, WithdrawalSlots, Unique, RowsTell, Retained;
    assert Settled(db);
    ReceiptMeansWithdrawn(db, p);
  }

  lemma SessionRows(db: Db, study: Id, p: Id, policy: Option<string>, endDate: Option<string>, id: Id)
    requires Retained(db.sessions, db.retention) && !(policy.Some? && endDate.Some?)
    ensures var attempt := PerformSession(db, study, p, Decision(policy, endDate), id);
            if p !in db.participants || db.participants[p].study != study then attempt == Abort(Missing)
            else if IsWithdrawn(db, p) then attempt == Abort(InvalidTransition)
            else if id in db.sessions then attempt == Abort(Integrity)
            else
              && attempt.Commit? && attempt.response == SessionCreated(id, db.participants[p].pseudonym)
              && attempt.db == db.(sessions := attempt.db.sessions, retention := attempt.db.retention)
              && attempt.db.sessions == db.sessions[id := Session(Research, Some(study), Some(p), Draft, 0, false, None, false, None)]
              && id !in db.retention && attempt.db.retention.Keys == db.retention.Keys + {id}
              && (forall s :: s in db.retention ==> attempt.db.retention[s] == db.retention[s])
              && (Given(policy) ==> attempt.db.retention[id] == policy.value)
              && (Given(endDate) ==> attempt.db.retention[id] == endDate.value)
              && (!Given(policy) && !Given(endDate) ==> attempt.db.retention[id] == "PENDING")
  {
  }

  /** Before any lookup a session is refused exactly for two retention values or an unusable date. */
  lemma SessionRefused(db: Db, hash: Hash, key: Option<string>, study: Id, p: Id, policy: Option<string>, endDate: Option<string>, usable: bool, id: Id)
    ensures (policy.Some? && endDate.Some?) || (endDate.Some? && !usable)
      <==> Precheck(db, CreateResearchSession(study, p, policy, endDate, usable, id)).Some?
    ensures Precheck(db, CreateResearchSession(study, p, policy, endDate, usable, id)).Some? ==>
      Serve(db, hash, key, CreateResearchSession(study, p, policy, endDate, usable, id)) == (db, Rejected(InvalidTransition))
  {
    hide Perform;
  }

  /** A consent is taken exactly in an open session. It is the session's only consent afterwards, the
      others stay but for a row of the same id, a draft is confirmed, and the event says the version. */
  lemma ConsentCall(db: Db, hash: Hash, key: Option<string>, session: Id, receipt: Id, version: string)
    requires Reachable(db, hash)
    ensures var (after, outcome) := Serve(db, hash, key, ConfirmConsent(session, receipt, version));
            && (!IsResearchSession(db, session) ==> after == db && outcome == Rejected(Missing))
            && (IsResearchSession(db, session) && !IsOpen(db, session) ==> after == db && outcome == Rejected(InvalidTransition))
            && (NewCall(db, key, ConfirmConsent(session, receipt, version)) ==>
                  && IsOpen(db, session) && outcome == Executed(ConsentAccepted(session))
                  && receipt in after.consents && after.consents[receipt] == Consent(session, version)
                  && (forall c :: c != receipt ==> (c in after.consents <==> c in db.consents && db.consents[c].session != session))
                  && (forall c :: c != receipt && c in after.consents ==> after.consents[c] == db.consents[c])
                  && Logs(db, after, session, OperatorConsentConfirmed(version))
                  && OnlyRow(db, after, session, db.sessions[session].(state := ConsentConfirmed))
                  && after == db.(consents := after.consents, sessions := after.sessions, events := after.events, idempotency := after.idempotency))
  {
    hide Reachable, Logged, IsResearch, MutableResearch, IsOpen, PerformConsent, Logs, OnlyRow, Key, Mutate;
    WritableIffOpen(db, hash, session);
    if NewCall(db, key, Request.ConfirmConsent(session, receipt, version)) { NewConsent(db, hash, key, session, receipt, version); }
  }

  lemma NewConsent(db: Db, hash: Hash, key: Option<string>, session: Id, receipt: Id, version: string)
    requires Reachable(db, hash) && NewCall(db, key, ConfirmConsent(session, receipt, version))
    ensures var (after, outcome) := Serve(db, hash, key, ConfirmConsent(session, receipt, version));
            && IsOpen(db, session) && outcome == Executed(ConsentAccepted(session))
            && receipt in after.consents && after.consents[receipt] == Consent(session, version)
            && (forall c :: c != receipt ==> (c in after.consents <==> c in db.consents && db.consents[c].session != session))
            && (forall c :: c != receipt && c in after.consents ==> after.consents[c] == db.consents[c])
            && Logs(db, after, session, OperatorConsentConfirmed(version))
            && OnlyRow(db, after, session, db.sessions[session].(state := ConsentConfirmed))
            && after == db.(consents := after.consents, sessions := after.sessions, events := after.events, idempotency := after.idempotency)
  {
    hide Reachable, Logged, IsResearch, MutableResearch, IsOpen, PerformConsent, Logs, OnlyRow, Serve, Key;
    WritableIffOpen(db, hash, session);
    ReachableLogged(db, hash);
    FreshCall(db, hash, key, Request.ConfirmConsent(session, receipt, version));
    assert IsOpen(db, session) && session in db.sessions by { OpenIsKnown(db, session); }
    ConsentRow(db, session, receipt, version);
    LogsThen(db, PerformConsent(db, session, receipt, version).db, Serve(db, hash, key, Request.ConfirmConsent(session, receipt, version)).0,
             session, OperatorConsentConfirmed(version), db.sessions[session].(state := ConsentConfirmed));
  }

  lemma OpenIsKnown(db: Db, session: Id)
    ensures IsOpen(db, session) ==> session in db.sessions
  {
  }

  lemma ConsentRow(db: Db, session: Id, receipt: Id, version: string)
    requires Logged(db) && IsOpen(db, session) && RequireMutableResearch(db, session).None?
    ensures var attempt := PerformConsent(db, session, receipt, version);
            && attempt.Commit? && attempt.response == ConsentAccepted(session)
            && attempt.db.consents == ReplaceConsent(db.consents, receipt, Consent(session, version))
            && Logs(db, attempt.db, session, OperatorConsentConfirmed(version))
            && OnlyRow(db, attempt.db, session, db.sessions[session].(state := ConsentConfirmed))
            && attempt.db == db.(consents := attempt.db.consents, sessions := attempt.db.sessions, events := attempt.db.events)
  {
    hide Logged, ReplaceConsent, IsResearch, MutableResearch;
    var row := db.sessions[session].(state := ConsentConfirmed);
    var middle := db.(consents := ReplaceConsent(db.consents, receipt, Consent(session, version)), sessions := db.sessions[session := row]);
    RowThenLogs(db, middle, session, row, OperatorConsentConfirmed(version));
    hide AppendEvent, Logs, OnlyRow;
  }

  // ---- Write intents ----

  /** A write intent is noted, pending, exactly for an open session and a usable path. */
  lemma WriteIntentCall(db: Db, hash: Hash, session: Id, path: string, usable: bool, id: Id)
    requires Reachable(db, hash)
    ensures var (after, outcome) := Step(db, hash, WriteIntent(session, path, usable, id));
            if !IsResearchSession(db, session) then after == db && outcome == Rejected(Missing)
            else if !IsOpen(db, session) || !usable then after == db && outcome == Rejected(InvalidTransition)
            else if id in db.intents then after == db && outcome == Rejected(Integrity)
            else outcome == Applied && after == db.(intents := db.intents[id := Intent(session, path, Pending)])
  {
    WritableIffOpen(db, hash, session);
    hide Reachable, IsResearch, MutableResearch, IsOpen;
  }
}
