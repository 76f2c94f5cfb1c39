/** Repeated calls: which calls share a slot, and what the second of them gets. */
module M1Repeats {
  import opened Wrappers
  import opened Lineage
  import opened M1Tables
  import opened M1Operations
  import opened M1Invariants
  import opened M1History
  import opened M1Theorems

  /** No two payloads have one digest. */
  ghost predicate Injective(hash: Hash) {
    forall a, b :: hash(a) == hash(b) ==> a == b
  }

  /** Both requests ask for the same thing; ids and times that the backend supplies do not count, and
      a withdrawal is the participant's, through whichever session. */
  ghost predicate SameContent(db: Db, a: Request, b: Request) {
    match (a, b)
    case (RecordAnswer(s, x, q, v), RecordAnswer(t, y, r, w)) => s == t && x == y && q == r && v == w
    case (SubmitExam(s), SubmitExam(t)) => s == t
    case (CreateStudy(x, _), CreateStudy(y, _)) => x == y
    case (CreateParticipant(x, _, _), CreateParticipant(y, _, _)) => x == y
    case (CreateResearchSession(s, p, x, d, _, _), CreateResearchSession(t, q, y, e, _, _)) => s == t && p == q && x == y && d == e
    case (ConfirmConsent(s, r, v), ConfirmConsent(t, q, w)) => s == t && r == q && v == w
    case (Withdraw(s, _, _), Withdraw(t, _, _)) =>
      s in db.sessions && t in db.sessions && db.sessions[s].participant == db.sessions[t].participant
    case _ => false
  }

  /** In a store that has grown, requests with one slot have one payload exactly if they have the
      same content. */
  lemma PayloadTells(db: Db, later: Db, key: Option<string>, a: Request, laterKey: Option<string>, b: Request)
    requires Grows(db, later) && SlotOf(db, key, a).Some? && SlotOf(later, laterKey, b) == SlotOf(db, key, a)
    ensures PayloadOf(db, a) == PayloadOf(later, b) <==> SameContent(later, a, b)
  {
    hide Key, Fallback;
    assert ScopeOf(db, a) == ScopeOf(later, b);
  }

  /** A second call on a slot, however much later: it is answered with the first response if it asks
      for the same thing, and refused as a conflict if not; it never changes anything. */
  lemma SecondCall(db: Db, hash: Hash, key: Option<string>, first: Request, between: seq<Op>, laterKey: Option<string>, second: Request)
    requires Injective(hash) && Serve(db, hash, key, first).1.Executed?
    requires var later := Run(Serve(db, hash, key, first).0, hash, between); SlotOf(later, laterKey, second) == SlotOf(db, key, first)
    ensures var later := Run(Serve(db, hash, key, first).0, hash, between);
            Serve(later, hash, laterKey, second)
              == (later, if SameContent(later, first, second) then Replayed(Serve(db, hash, key, first).1.response) else Rejected(Conflict))
  {
    var after := Serve(db, hash, key, first).0;
    var later := Run(after, hash, between);
    ExactlyOnce(db, hash, key, first, between, laterKey, second);
    OnlyExecutionChanges(db, hash, key, first);
    RunGrows(after, hash, between);
    ServeGrows(db, hash, key, first);
    hide Grows, Run, Serve, PayloadOf, ScopeOf, SameContent, Key, Fallback, Precheck;
    GrowsTrans(db, after, later);
    PayloadTells(db, later, key, first, laterKey, second);
  }

  /** The same call again, at once: it replays the response, under a key of its own or none. */
  lemma RetryIsReplayed(db: Db, hash: Hash, key: Option<string>, request: Request)
    requires Serve(db, hash, key, request).1.Executed?
    ensures var (after, outcome) := Serve(db, hash, key, request);
            Serve(after, hash, key, request) == (after, Replayed(outcome.response))
  {
    var after := Serve(db, hash, key, request).0;
    OnlyExecutionChanges(db, hash, key, request);
    ServeGrows(db, hash, key, request);
    if request.ConfirmConsent? { ConsentStaysOpen(db, hash, key, request); }
    SameSlotAgain(db, after, hash, key, request);
  }

  lemma ConsentStaysOpen(db: Db, hash: Hash, key: Option<string>, request: Request)
    requires request.ConfirmConsent? && Serve(db, hash, key, request).1.Executed?
    ensures RequireMutableResearch(Serve(db, hash, key, request).0, request.session).None?
  {
    hide Key, ReplaceConsent;
  }

  lemma SameSlotAgain(db: Db, after: Db, hash: Hash, key: Option<string>, request: Request)
    requires Grows(db, after) && SlotOf(db, key, request).Some? && SlotOf(db, key, request).value in after.idempotency
    requires request.ConfirmConsent? ==> RequireMutableResearch(after, request.session).None?
    ensures Precheck(db, request).None? && SlotOf(after, key, request) == SlotOf(db, key, request)
    ensures var slot := SlotOf(db, key, request).value;
            after.idempotency[slot].requestHash == hash(PayloadOf(db, request)) ==>
              Serve(after, hash, key, request) == (after, Replayed(after.idempotency[slot].response))
  {
    hide Key, Perform;
    assert Precheck(after, request).None?;
    assert PayloadOf(after, request) == PayloadOf(db, request);
  }

  // ---- Keys ----

  predicate IsUsable(key: string) {
    1 <= |key| <= 128 && forall i :: 0 <= i < |key| ==> key[i] != '\\' && key[i] != '/' && key[i] != ':'
  }

  /** A key that was given is used if it is usable and refused if not. */
  lemma GivenKey(db: Db, hash: Hash, key: string, request: Request)
    requires Precheck(db, request).None? && key != ""
    ensures SlotOf(db, Some(key), request) == if IsUsable(key) then Some((ScopeOf(db, request), key)) else None
    ensures !IsUsable(key) ==> Serve(db, hash, Some(key), request) == (db, Rejected(InvalidTransition))
  {
    hide Perform, ScopeOf;
  }

  /** An empty key counts as none, and then the request has a key of its own. */
  lemma NoKeyGiven(db: Db, request: Request)
    requires Precheck(db, request).None?
    ensures SlotOf(db, Some(""), request) == SlotOf(db, None, request)
    ensures SlotOf(db, None, request) == if IsUsable(Fallback(db, request)) then Some((ScopeOf(db, request), Fallback(db, request))) else None
  {
    hide ScopeOf, Fallback;
  }

  /** Without a key, or with an empty one, requests of different kinds or for different things still
      use different slots. */
  lemma FallbackTells(db: Db, key: Option<string>, a: Request, b: Request)
    requires key.None? || key.value == ""
    requires SlotOf(db, key, a).Some? && SlotOf(db, key, a) == SlotOf(db, key, b)
    ensures match (a, b)
            case (RecordAnswer(s, x, _, _), RecordAnswer(t, y, _, _)) => s == t && x == y
            case (CreateStudy(x, _), CreateStudy(y, _)) => x == y
            case (CreateParticipant(x, _, _), CreateParticipant(y, _, _)) => x == y
            case (CreateResearchSession(_, p, _, _, _, _), CreateResearchSession(_, q, _, _, _, _)) => p == q
            case (SubmitExam(s), SubmitExam(t)) => s == t
            case (ConfirmConsent(s, _, _), ConfirmConsent(t, _, _)) => s == t
            case (Withdraw(s, _, _), Withdraw(t, _, _)) => IsResearch(db, s) && IsResearch(db, t) && ParticipantOf(db, s) == ParticipantOf(db, t)
            case _ => false
  {
    assert Key(key, Fallback(db, a)) == Key(key, Fallback(db, b));
    assert Fallback(db, a) == Fallback(db, b);
    hide Key;
    match (a, b)
    case (CreateStudy(x, _), CreateStudy(y, _)) => Suffix("study-", x, y);
    case (CreateParticipant(x, _, _), CreateParticipant(y, _, _)) => Suffix("participant-", x, y);
    case (CreateResearchSession(_, p, _, _, _, _), CreateResearchSession(_, q, _, _, _, _)) => Suffix("session-", p, q);
    case _ =>
  }

  lemma Suffix(prefix: string, x: string, y: string)
    requires prefix + x == prefix + y
    ensures x == y
  {
    assert (prefix + x)[|prefix|..] == x && (prefix + y)[|prefix|..] == y;
  }
}
