/** What each operation of the M1 backend does to the tables: one transaction each, either
    committed as a whole or rolled back. `Step` is one call, `Run` any sequence of calls. */
module M1Operations {
  import opened Wrappers
  import opened Lineage
  import opened M1Tables

  type Hash = Payload -> string

  datatype Action = ConsentAction | PreflightAction | StartAction | StopAction | OtherAction(name: string)

  datatype Attempt = Commit(db: Db, response: Response) | Abort(failure: Failure)

  datatype Outcome =
    | Applied
    | NotFound
    | Executed(response: Response)
    | Replayed(response: Response)
    | Rejected(failure: Failure)

  // ---- Session lifecycle ----

  /** The demo lifecycle; None is InvalidTransition. */
  function Transition(current: SessionState, action: Action): Option<SessionState> {
    match (current, action)
    case (Draft, ConsentAction) => Some(ConsentConfirmed)
    case (ConsentConfirmed, PreflightAction) => Some(PreflightReady)
    case (PreflightReady, StartAction) => Some(Recording)
    case (Recording, StopAction) => Some(Sealed)
    case (ConsentConfirmed, ConsentAction) => Some(current)
    case (PreflightReady, PreflightAction) => Some(current)
    case (Recording, StartAction) => Some(current)
    case (Sealed, StopAction) => Some(current)
    case _ => None
  }

  /** `_event`: take the next number, then insert under PRIMARY KEY(session_id,event_seq). */
  function AppendEvent(db: Db, session: Id, body: EventBody): Result<Db, Failure> {
    if session !in db.sessions then Err(Missing)
    else
      var number := db.sessions[session].eventSeq + 1;
      if (session, number) in db.events then Err(Integrity)
      else Ok(db.(sessions := db.sessions[session := db.sessions[session].(eventSeq := number)],
                  events := db.events[(session, number) := body]))
  }

  function CommitEvent(db: Db, session: Id, body: EventBody, response: Response): Attempt {
    match AppendEvent(db, session, body)
    case Ok(after) => Commit(after, response)
    case Err(failure) => Abort(failure)
  }

  function ApplyAction(db: Db, session: Id, action: Action, now: int): (Db, Outcome) {
    if session !in db.sessions then (db, NotFound)
    else
      var row := db.sessions[session];
      if row.kind == Research then (db, Rejected(InvalidTransition))
      else match Transition(row.state, action)
        case None => (db, Rejected(InvalidTransition))
        case Some(next) =>
          if next == row.state then (db, Applied)
          else
            var started := if action == StartAction then Some(now) else row.startedAt;
            var moved := db.(sessions := db.sessions[session := row.(state := next, startedAt := started)]);
            match AppendEvent(moved, session, SessionStateChanged(next))
            case Ok(after) => (after, Applied)
            case Err(failure) => (db, Rejected(failure))
  }

  function CreateDemoSession(db: Db, id: Id): (Db, Outcome) {
    if id in db.sessions then (db, Rejected(Integrity))
    else (db.(sessions := db.sessions[id := Session(Demo, None, None, Draft, 0, false, None, false, None)]), Applied)
  }

  // ---- Artifacts ----

  predicate NoDuplicates(s: seq<Id>) {
    forall i, j :: 0 <= i < j < |s| ==> s[i] != s[j]
  }

  function RegisterArtifact(db: Db, artifact: Id, session: Id, parents: seq<Id>): (Db, Outcome) {
    match RequireMutableResearch(db, session)
    case Some(failure) => (db, Rejected(failure))
    case None =>
      if exists p :: p in parents && !UsableParent(db, p) then (db, Rejected(InvalidTransition))
      else if artifact in db.artifacts || !NoDuplicates(parents) || exists p :: p in parents && (p, artifact) in db.dependencies
      then (db, Rejected(Integrity))
      else (db.(artifacts := db.artifacts[artifact := Artifact(session, Valid)],
                dependencies := db.dependencies + set p | p in parents :: (p, artifact)), Applied)
  }

  function AddDependency(db: Db, parent: Id, child: Id): (Db, Outcome) {
    if !UsableParent(db, parent) || child !in db.artifacts then (db, Rejected(InvalidTransition))
    else if (parent, child) in db.dependencies then (db, Rejected(Integrity))
    else (db.(dependencies := db.dependencies + {(parent, child)}), Applied)
  }

  // ---- Write intents and crash recovery ----

  /** `pathUsable` stands for the file-system checks of `_partial_file`. */
  function CreateWriteIntent(db: Db, session: Id, path: string, pathUsable: bool, id: Id): (Db, Outcome) {
    match RequireMutableResearch(db, session)
    case Some(failure) => (db, Rejected(failure))
    case None =>
      if !pathUsable then (db, Rejected(InvalidTransition))
      else if id in db.intents then (db, Rejected(Integrity))
      else (db.(intents := db.intents[id := Intent(session, path, Pending)]), Applied)
  }

  function RecoveredState(db: Db, row: Session): SessionState {
    if row.state == Withdrawn || (row.participant.Some? && IsWithdrawn(db, row.participant.value))
    then Withdrawn else Failed
  }

  /** One iteration of the recovery loop: its own transaction. */
  function RecoverIntent(db: Db, id: Id): (Db, Outcome) {
    if id !in db.intents || db.intents[id].status != Pending then (db, NotFound)
    else
      var session := db.intents[id].session;
      if session !in db.sessions then (db, Rejected(Integrity))
      else
        var row := db.sessions[session];
        (db.(intents := db.intents[id := db.intents[id].(status := Quarantined)],
             sessions := db.sessions[session := row.(state := RecoveredState(db, row), collectionBlocked := true)]),
         Applied)
  }

  // ---- Requests guarded by an idempotency key ----

  datatype Request =
    | RecordAnswer(session: Id, answerId: string, questionId: string, value: Option<string>)
    | SubmitExam(session: Id)
    | CreateStudy(code: string, newId: Id)
    | CreateParticipant(study: Id, newId: Id, pseudonym: string)
    | CreateResearchSession(study: Id, participant: Id, policy: Option<string>, endDate: Option<string>,
                            endDateUsable: bool, newId: Id)
    | ConfirmConsent(session: Id, receipt: Id, version: string)
    | Withdraw(session: Id, now: int, newId: Id)

  /** Checks made before the transaction starts. `endDateUsable`: a valid ISO date, not past. */
  function Precheck(db: Db, request: Request): Option<Failure> {
    match request
    case CreateResearchSession(_, _, policy, endDate, endDateUsable, _) =>
      if policy.Some? && endDate.Some? then Some(InvalidTransition)
      else if endDate.Some? && !endDateUsable then Some(InvalidTransition)
      else None
    case ConfirmConsent(session, _, _) => RequireMutableResearch(db, session)
    case Withdraw(session, _, _) => if IsResearch(db, session) then None else Some(Missing)
    case _ => None
  }

  function ParticipantOf(db: Db, session: Id): Id
    requires IsResearch(db, session)
  {
    db.sessions[session].participant.value
  }

  function Fallback(db: Db, request: Request): string
    requires Precheck(db, request).None?
  {
    match request
    case RecordAnswer(_, answerId, _, _) => answerId
    case SubmitExam(_) => "submit"
    case CreateStudy(code, _) => "study-" + code
    case CreateParticipant(study, _, _) => "participant-" + study
    case CreateResearchSession(_, participant, _, _, _, _) => "session-" + participant
    case ConfirmConsent(session, _, _) => "consent-" + session
    case Withdraw(session, _, _) => "withdraw-" + ParticipantOf(db, session)
  }

  /** `_key`: an absent or empty key falls back; None is InvalidTransition. */
  function Key(key: Option<string>, fallback: string): Option<string> {
    var value := if key.Some? && key.value != "" then key.value else fallback;
    if 1 <= |value| <= 128 && '\\' !in value && '/' !in value && ':' !in value then Some(value) else None
  }

  function ScopeOf(db: Db, request: Request): Scope
    requires Precheck(db, request).None?
  {
    match request
    case RecordAnswer(session, _, _, _) => AnswerScope(session)
    case SubmitExam(session) => SubmitScope(session)
    case CreateStudy(_, _) => StudyScope
    case CreateParticipant(_, _, _) => ParticipantScope
    case CreateResearchSession(_, _, _, _, _, _) => SessionScope
    case ConfirmConsent(session, _, _) => ConsentScope(session)
    case Withdraw(session, _, _) => WithdrawScope(ParticipantOf(db, session))
  }

  function PayloadOf(db: Db, request: Request): Payload
    requires Precheck(db, request).None?
  {
    match request
    case RecordAnswer(_, answerId, questionId, value) => AnswerPayload(answerId, questionId, value)
    case SubmitExam(_) => SubmitPayload
    case CreateStudy(code, _) => StudyPayload(code)
    case CreateParticipant(study, _, _) => ParticipantPayload(study)
    case CreateResearchSession(study, participant, policy, endDate, _, _) =>
      SessionPayload(study, participant, policy, endDate)
    case ConfirmConsent(_, receipt, version) => ConsentPayload(receipt, version)
    case Withdraw(session, _, _) =>
      var participant := ParticipantOf(db, session);
      WithdrawPayload(participant, db.participants[participant].pseudonym)
  }

  function Decision(policy: Option<string>, endDate: Option<string>): string {
    if policy.Some? && policy.value != "" then policy.value
    else if endDate.Some? && endDate.value != "" then endDate.value
    else "PENDING"
  }

  function PerformAnswer(db: Db, session: Id, answerId: string, questionId: string, value: Option<string>): Attempt {
    if session !in db.sessions then Abort(Missing)
    else if db.sessions[session].state != Recording || db.sessions[session].submitted then Abort(InvalidTransition)
    else CommitEvent(db.(answers := db.answers + [Answer(session, answerId, questionId, value)]),
                     session, AnswerRecorded(answerId), AnswerAccepted)
  }

  function PerformSubmit(db: Db, session: Id): Attempt {
    if session !in db.sessions then Abort(Missing)
    else if db.sessions[session].state != Recording then Abort(InvalidTransition)
    else if db.sessions[session].submitted then Abort(Conflict)
    else CommitEvent(db.(sessions := db.sessions[session := db.sessions[session].(submitted := true)],
                         attempts := db.attempts + [session]),
                     session, ExamSubmitted, ExamAccepted)
  }

  function PerformStudy(db: Db, code: string, id: Id): Attempt {
    if id in db.studies || code in db.studies.Values then Abort(Integrity)
    else Commit(db.(studies := db.studies[id := code]), StudyCreated(id))
  }

  function PerformParticipant(db: Db, study: Id, id: Id, pseudonym: string): Attempt {
    if study !in db.studies then Abort(Missing)
    else if id in db.participants || exists p :: p in db.participants && db.participants[p].pseudonym == pseudonym
    then Abort(Integrity)
    else Commit(db.(participants := db.participants[id := Participant(study, pseudonym, None)]),
                ParticipantCreated(id, pseudonym))
  }

  function PerformSession(db: Db, study: Id, participant: Id, decision: string, id: Id): Attempt {
    if participant !in db.participants || db.participants[participant].study != study then Abort(Missing)
    else if db.participants[participant].withdrawnAt.Some? then Abort(InvalidTransition)
    else if id in db.sessions then Abort(Integrity)
    else Commit(db.(sessions := db.sessions[id := Session(Research, Some(study), Some(participant), Draft, 0, false, None, false, None)],
                    retention := db.retention[id := decision]),
                SessionCreated(id, db.participants[participant].pseudonym))
  }

  /** INSERT OR REPLACE: rows that clash on the id or on the unique session go first. */
  function ReplaceConsent(consents: map<Id, Consent>, receipt: Id, row: Consent): map<Id, Consent> {
    (map r | r in consents && r != receipt && consents[r].session != row.session :: consents[r])[receipt := row]
  }

  function PerformConsent(db: Db, session: Id, receipt: Id, version: string): Attempt {
    match RequireMutableResearch(db, session)
    case Some(failure) => Abort(failure)
    case None =>
      var row := db.sessions[session];
      CommitEvent(db.(consents := ReplaceConsent(db.consents, receipt, Consent(session, version)),
                      sessions := db.sessions[session := row.(state := if row.state == Draft then ConsentConfirmed else row.state)]),
                  session, OperatorConsentConfirmed(version), ConsentAccepted(session))
  }

  function Coalesce(value: Option<int>, otherwise: int): Option<int> {
    if value.Some? then value else Some(otherwise)
  }

  function WithdrawRows(sessions: map<Id, Session>, participant: Id, now: int): map<Id, Session> {
    map s | s in sessions ::
      if sessions[s].participant == Some(participant)
      then sessions[s].(state := Withdrawn, collectionBlocked := true, withdrawnAt := Coalesce(sessions[s].withdrawnAt, now))
      else sessions[s]
  }

  function InvalidateRows(artifacts: map<Id, Artifact>, lineage: set<Id>): map<Id, Artifact> {
    map a | a in artifacts :: if a in lineage then artifacts[a].(status := Invalidated) else artifacts[a]
  }

  function Pairs(subject: Id, artifacts: set<Id>): set<(Id, Id)> {
    set a | a in artifacts :: (subject, a)
  }

  /** The tables after the two withdrawal updates and the row loop over `lineage`. */
  function WithdrawTables(db: Db, session: Id, participant: Id, now: int, lineage: set<Id>): Db
    requires participant in db.participants
  {
    db.(participants := db.participants[participant := db.participants[participant].(withdrawnAt := Coalesce(db.participants[participant].withdrawnAt, now))],
        sessions := WithdrawRows(db.sessions, participant, now),
        artifacts := InvalidateRows(db.artifacts, lineage),
        tasks := db.tasks + Pairs(session, lineage))
  }

  ghost function PerformWithdraw(db: Db, session: Id, participant: Id, now: int, id: Id): Attempt
    requires participant in db.participants
  {
    if session !in db.sessions || db.sessions[session].kind != Research || db.sessions[session].participant != Some(participant)
    then Abort(Missing)
    else if participant in db.receipts then Commit(db, db.receipts[participant].response)
    else
      match AppendEvent(WithdrawTables(db, session, participant, now, LineageOf(db, participant)), session, WithdrawalRequested)
      case Err(failure) => Abort(failure)
      case Ok(after) =>
        var response := WithdrawalReply(Some(id), db.participants[participant].pseudonym, true, |TasksOf(after, participant)|);
        if exists p :: p in db.receipts && db.receipts[p].id == id then Abort(Integrity)
        else Commit(after.(receipts := after.receipts[participant := Receipt(id, session, response)]), response)
  }

  ghost function Perform(db: Db, request: Request): Attempt
    requires Precheck(db, request).None?
  {
    match request
    case RecordAnswer(session, answerId, questionId, value) => PerformAnswer(db, session, answerId, questionId, value)
    case SubmitExam(session) => PerformSubmit(db, session)
    case CreateStudy(code, id) => PerformStudy(db, code, id)
    case CreateParticipant(study, id, pseudonym) => PerformParticipant(db, study, id, pseudonym)
    case CreateResearchSession(study, participant, policy, endDate, _, id) =>
      PerformSession(db, study, participant, Decision(policy, endDate), id)
    case ConfirmConsent(session, receipt, version) => PerformConsent(db, session, receipt, version)
    case Withdraw(session, now, id) => PerformWithdraw(db, session, ParticipantOf(db, session), now, id)
  }

  /** `_mutate`: replay what the slot remembers, refuse another payload, or perform once. */
  function Mutate(db: Db, slot: Slot, digest: string, attempt: Attempt): (Db, Outcome) {
    if slot in db.idempotency then
      if db.idempotency[slot].requestHash != digest then (db, Rejected(Conflict))
      else (db, Replayed(db.idempotency[slot].response))
    else
      match attempt
      case Abort(failure) => (db, Rejected(failure))
      case Commit(after, response) =>
        (after.(idempotency := after.idempotency[slot := Remembered(digest, response)]), Executed(response))
  }

  /** The slot a request is remembered under; None when it is refused before any lookup. */
  function SlotOf(db: Db, key: Option<string>, request: Request): Option<Slot> {
    if Precheck(db, request).Some? then None
    else
      match Key(key, Fallback(db, request))
      case None => None
      case Some(value) => Some((ScopeOf(db, request), value))
  }

  ghost function Serve(db: Db, hash: Hash, key: Option<string>, request: Request): (Db, Outcome) {
    match Precheck(db, request)
    case Some(failure) => (db, Rejected(failure))
    case None =>
      match Key(key, Fallback(db, request))
      case None => (db, Rejected(InvalidTransition))
      case Some(value) =>
        Mutate(db, (ScopeOf(db, request), value), hash(PayloadOf(db, request)), Perform(db, request))
  }

  /** `withdrawal_status`; a session that is no research session is not found. */
  function StatusReply(db: Db, session: Id): Result<Response, Failure> {
    if !IsResearch(db, session) then Err(Missing)
    else
      var p := ParticipantOf(db, session);
      Ok(if p in db.receipts then db.receipts[p].response
         else WithdrawalReply(None, db.participants[p].pseudonym, false, |TasksOf(db, p)|))
  }

  // ---- Calls and runs ----

  datatype Op =
    | DemoSession(id: Id)
    | Append(session: Id, body: EventBody)
    | Act(session: Id, action: Action, now: int)
    | Register(artifact: Id, session: Id, parents: seq<Id>)
    | Depend(parent: Id, child: Id)
    | WriteIntent(session: Id, path: string, pathUsable: bool, id: Id)
    | Recover(id: Id)
    | Keyed(key: Option<string>, request: Request)

  ghost function Step(db: Db, hash: Hash, op: Op): (Db, Outcome) {
    match op
    case DemoSession(id) => CreateDemoSession(db, id)
    case Append(session, body) =>
      (match AppendEvent(db, session, body)
       case Ok(after) => (after, Applied)
       case Err(failure) => (db, Rejected(failure)))
    case Act(session, action, now) => ApplyAction(db, session, action, now)
    case Register(artifact, session, parents) => RegisterArtifact(db, artifact, session, parents)
    case Depend(parent, child) => AddDependency(db, parent, child)
    case WriteIntent(session, path, pathUsable, id) => CreateWriteIntent(db, session, path, pathUsable, id)
    case Recover(id) => RecoverIntent(db, id)
    case Keyed(key, request) => Serve(db, hash, key, request)
  }

  ghost function Run(db: Db, hash: Hash, ops: seq<Op>): Db
    decreases |ops|
  {
    if ops == [] then db
    else Step(Run(db, hash, ops[..|ops| - 1]), hash, ops[|ops| - 1]).0
  }

  /** Any two stretches of a run compose. */
  lemma {:induction false} RunAppend(db: Db, hash: Hash, first: seq<Op>, second: seq<Op>)
    ensures Run(db, hash, first + second) == Run(Run(db, hash, first), hash, second)
    decreases |second|
  {
    if second == [] {
      assert first + second == first;
    } else {
      var last := |second| - 1;
      assert (first + second)[..|first + second| - 1] == first + second[..last];
      RunAppend(db, hash, first, second[..last]);
    }
  }
}
