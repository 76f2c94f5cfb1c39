/** The tables of the M1 metadata store, as values. A row id that nothing refers to
    (answers, attempts, retention decisions, withdrawal tasks) is left out: such ids come
    from a supply of fresh tokens. */
module M1Tables {
  import opened Wrappers
  import opened Lineage

  datatype SessionKind = Demo | Research

  datatype SessionState =
    | Draft | ConsentConfirmed | PreflightReady | Recording | Sealed | Failed | Withdrawn

  datatype ArtifactStatus = Valid | Invalidated

  datatype IntentStatus = Pending | Quarantined

  datatype Participant = Participant(study: Id, pseudonym: string, withdrawnAt: Option<int>)

  datatype Session = Session(
    kind: SessionKind,
    study: Option<Id>,
    participant: Option<Id>,
    state: SessionState,
    eventSeq: nat,
    submitted: bool,
    startedAt: Option<int>,
    collectionBlocked: bool,
    withdrawnAt: Option<int>)

  datatype EventBody =
    | SessionStateChanged(state: SessionState)
    | AnswerRecorded(answerId: string)
    | ExamSubmitted
    | OperatorConsentConfirmed(version: string)
    | WithdrawalRequested
    | ArtifactSealed(artifact: Id)
    | Custom(eventType: string, payload: string)

  datatype Consent = Consent(session: Id, version: string)

  datatype Answer = Answer(session: Id, answerId: string, questionId: string, value: Option<string>)

  datatype Artifact = Artifact(session: Id, status: ArtifactStatus)

  datatype Intent = Intent(session: Id, path: string, status: IntentStatus)

  datatype Scope =
    | AnswerScope(session: Id)
    | SubmitScope(session: Id)
    | StudyScope
    | ParticipantScope
    | SessionScope
    | ConsentScope(session: Id)
    | WithdrawScope(participant: Id)

  /** What is hashed to recognise a repeated request. */
  datatype Payload =
    | AnswerPayload(answerId: string, questionId: string, value: Option<string>)
    | SubmitPayload
    | StudyPayload(code: string)
    | ParticipantPayload(study: Id)
    | SessionPayload(study: Id, participant: Id, policy: Option<string>, endDate: Option<string>)
    | ConsentPayload(receipt: Id, version: string)
    | WithdrawPayload(participant: Id, pseudonym: string)

  datatype Response =
    | AnswerAccepted
    | ExamAccepted
    | StudyCreated(study: Id)
    | ParticipantCreated(participant: Id, pseudonym: string)
    | SessionCreated(session: Id, pseudonym: string)
    | ConsentAccepted(session: Id)
    | WithdrawalReply(receipt: Option<Id>, pseudonym: string, terminal: bool, taskCount: nat)

  datatype Remembered = Remembered(requestHash: string, response: Response)

  datatype Receipt = Receipt(id: Id, subject: Id, response: Response)

  type Slot = (Scope, string)

  datatype Db = Db(
    studies: map<Id, string>,
    participants: map<Id, Participant>,
    sessions: map<Id, Session>,
    consents: map<Id, Consent>,
    retention: map<Id, string>,
    attempts: seq<Id>,
    answers: seq<Answer>,
    events: map<(Id, int), EventBody>,
    idempotency: map<Slot, Remembered>,
    artifacts: map<Id, Artifact>,
    dependencies: Edges,
    receipts: map<Id, Receipt>,
    tasks: set<(Id, Id)>,
    intents: map<Id, Intent>)

  const EMPTY_DB := Db(map[], map[], map[], map[], map[], [], [], map[], map[], map[], {}, map[], {}, map[])

  /** KeyError, InvalidTransition, IdempotencyConflict and sqlite3.IntegrityError. */
  datatype Failure = Missing | InvalidTransition | Conflict | Integrity

  // ---- Queries ----

  /** The participant whose session holds the artifact. */
  function Owner(db: Db, artifact: Id): Option<Id> {
    if artifact in db.artifacts && db.artifacts[artifact].session in db.sessions
    then db.sessions[db.artifacts[artifact].session].participant
    else None
  }

  predicate IsWithdrawn(db: Db, participant: Id) {
    participant in db.participants && db.participants[participant].withdrawnAt.Some?
  }

  function RootsOf(db: Db, participant: Id): set<Id> {
    set a | a in db.artifacts && Owner(db, a) == Some(participant)
  }

  /** `lineage` in the recursive query of `withdraw`. */
  ghost function LineageOf(db: Db, participant: Id): set<Id> {
    Closure(db.dependencies, RootsOf(db, participant))
  }

  function TasksOf(db: Db, participant: Id): set<(Id, Id)> {
    set t | t in db.tasks && t.0 in db.sessions && db.sessions[t.0].participant == Some(participant)
  }

  predicate MutableResearch(db: Db, session: Id)
    requires session in db.sessions
  {
    var row := db.sessions[session];
    && (row.participant.Some? ==> !IsWithdrawn(db, row.participant.value))
    && row.state != Withdrawn
    && !row.collectionBlocked
  }

  /** The row of `_require_mutable_research` exists: a research session joined to its participant. */
  predicate IsResearch(db: Db, session: Id) {
    && session in db.sessions
    && db.sessions[session].kind == Research
    && db.sessions[session].participant.Some?
    && db.sessions[session].participant.value in db.participants
  }

  function RequireMutableResearch(db: Db, session: Id): Option<Failure> {
    if !IsResearch(db, session) then Some(Missing)
    else if !MutableResearch(db, session) then Some(InvalidTransition)
    else None
  }

  predicate UsableParent(db: Db, parent: Id) {
    && parent in db.artifacts
    && db.artifacts[parent].session in db.sessions
    && db.artifacts[parent].status == Valid
    && db.sessions[db.artifacts[parent].session].state != Withdrawn
    && (var owner := db.sessions[db.artifacts[parent].session].participant;
        owner.Some? ==> !IsWithdrawn(db, owner.value))
  }

  // ---- Rows of the event log ----

  function MinOf(s: set<int>): (m: int)
    requires s != {}
    ensures m in s && forall x :: x in s ==> m <= x
  {
    MinExists(s);
    var m :| m in s && forall x :: x in s ==> m <= x;
    m
  }

  ghost function AnyOf<T>(s: set<T>): (x: T)
    requires s != {}
    ensures x in s
  {
    var x :| x in s;
    x
  }

  lemma MinExists(s: set<int>)
    requires s != {}
    ensures exists m :: m in s && forall x :: x in s ==> m <= x
  {
    var y := AnyOf(s);
    var rest := s - {y};
    if rest == {} {
      assert forall x :: x in s ==> x == y || x in rest;
    } else {
      MinExists(rest);
      var m :| m in rest && forall x :: x in rest ==> m <= x;
      var least := if m <= y then m else y;
      assert least in s && forall x :: x in s ==> x == y || x in rest;
    }
  }

  function SeqNumbersAfter(db: Db, session: Id, after: int): set<int> {
    set k | k in db.events && k.0 == session && k.1 > after :: k.1
  }

  /** The numbered events of a session after a given number, in the order of the numbers. */
  function RowsAfter(db: Db, session: Id, after: int): (rows: seq<(int, EventBody)>)
    decreases SeqNumbersAfter(db, session, after)
  {
    var numbers := SeqNumbersAfter(db, session, after);
    if numbers == {} then []
    else
      var first := MinOf(numbers);
      assert (session, first) in db.events;
      assert SeqNumbersAfter(db, session, first) < numbers by {
        assert first !in SeqNumbersAfter(db, session, first);
      }
      [(first, db.events[(session, first)])] + RowsAfter(db, session, first)
  }

  /** The numbers of the log have no gap: exactly 1..event_seq. */
  ghost predicate GapFree(db: Db, session: Id)
    requires session in db.sessions
  {
    forall n :: (session, n) in db.events <==> 1 <= n <= db.sessions[session].eventSeq
  }

  /** Every session's log is gap-free and no event is orphaned. */
  ghost predicate Logged(db: Db) {
    && (forall s :: s in db.sessions ==> GapFree(db, s))
    && (forall k :: k in db.events ==> k.0 in db.sessions)
  }

  ghost function Log(db: Db, session: Id): seq<EventBody>
    requires session in db.sessions && GapFree(db, session)
  {
    seq(db.sessions[session].eventSeq, i requires 0 <= i < db.sessions[session].eventSeq => db.events[(session, i + 1)])
  }
}
