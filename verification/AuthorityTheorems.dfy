/** What holds over the whole life of an authority, whatever operations are called and whatever
    faults they meet. */
module AuthorityTheorems {
  import opened Wrappers
  import opened BootstrapCodec
  import opened AuthorityRecords
  import opened AuthorityLife
  import opened AuthorityStore

  /** The place of a life in the cycle. */
  function Rank(l: Life): nat {
    match l
    case Blank => 0
    case TornPending => 1
    case IsPending(p) => 1
    case IsPrepared(p) => 2
    case IsConsumed(p) => 3
    case TornIssue(p) => 4
    case IsIssued(p, g) => 4
    case IsRevoked(p, g) => 5
    case TornEnd(p, g) => 6
    case IsTerminal(p, g, t) => 6
  }

  ghost predicate Absorbing(l: Life) {
    l.TornPending? || l.TornIssue? || l.TornEnd? || l.IsTerminal?
  }

  lemma MoveAdvances(h: BodyHash, a: Life, b: Life, now: int)
    requires Moves(h, a, b, now)
    ensures a == b || Rank(b) == Rank(a) + 1
    ensures Absorbing(a) ==> a == b
    ensures Rank(a) >= 3 ==> b.p == a.p
  {
    hide NewPending, NewPrepared, NewConsumed, NewGrant, RevokedOf, NewTerminal, Unexpired;
  }

  lemma MomentMoves(h: BodyHash, history: seq<Moment>, j: nat)
    requires Biography(h, history) && 0 < j < |history|
    ensures history[j - 1].time <= history[j].time && Moves(h, history[j - 1].life, history[j].life, history[j].time)
    ensures Sound(h, history[j - 1].life) && Sound(h, history[j].life)
  {
    hide Sound, Moves;
    assert Next(h, history[j - 1], history[j - 1 + 1]);
  }

  /** A life only goes forward, one stage at a time, and what is terminal or torn stays as it is:
      the leaves never leave the path from absent to terminal except into a refused state for good. */
  lemma {:induction false} OnlyForward(h: BodyHash, history: seq<Moment>, i: nat, j: nat)
    requires Biography(h, history) && i <= j < |history|
    ensures Rank(history[i].life) <= Rank(history[j].life) <= Rank(history[i].life) + (j - i)
    ensures Absorbing(history[i].life) ==> history[j].life == history[i].life
    ensures history[i].time <= history[j].time
    decreases j
  {
    hide *;
    if i < j {
      OnlyForward(h, history, i, j - 1);
      MomentMoves(h, history, j);
      MoveAdvances(h, history[j - 1].life, history[j].life, history[j].time);
    }
  }

  /** What a grant says apart from being revoked. */
  ghost predicate SameGrant(a: Grant, b: Grant) {
    && a.consumedDigest == b.consumedDigest && a.challenge == b.challenge && a.capability == b.capability
    && a.issuedNs == b.issuedNs && a.expiresNs == b.expiresNs
  }

  lemma RevokedIsSame(h: BodyHash, g: Grant)
    ensures SameGrant(g, RevokedOf(h, g))
  {
    hide GrantDigest;
  }

  lemma GrantStays(h: BodyHash, a: Life, b: Life, now: int)
    requires Moves(h, a, b, now) && HasGrant(a)
    ensures HasGrant(b) && b.p == a.p && SameGrant(a.g, b.g)
  {
    hide NewPending, NewPrepared, NewConsumed, NewGrant, RevokedOf, NewTerminal, Unexpired;
    RevokedIsSame(h, a.g);
  }

  /** At most one grant is ever issued: whenever a grant exists later it is the same one, for the
      same consumed record. */
  lemma {:induction false} OneGrant(h: BodyHash, history: seq<Moment>, i: nat, j: nat)
    requires Biography(h, history) && i <= j < |history| && HasGrant(history[i].life)
    ensures HasGrant(history[j].life) && history[j].life.p == history[i].life.p
    ensures SameGrant(history[i].life.g, history[j].life.g)
    decreases j
  {
    hide Biography, Moves, Sound;
    if i < j {
      OneGrant(h, history, i, j - 1);
      MomentMoves(h, history, j);
      GrantStays(h, history[j - 1].life, history[j].life, history[j].time);
    }
  }

  ghost predicate KeepsPrepared(l: Life, p: AuthorityRecord)
    requires p.PreparedRecord?
  {
    && (l.IsPrepared? ==> l.p == p)
    && (HasRecord(l) && l.p.ConsumedRecord? ==>
          l.p.staticDigest == p.staticDigest && l.p.schemaDigest == p.schemaDigest && l.p.prepared == p.prepared)
  }

  lemma FromPrepared(h: BodyHash, a: Life, b: Life, now: int)
    requires Moves(h, a, b, now) && a.IsPrepared? && a.p.PreparedRecord?
    ensures a == b || (b.IsConsumed? && b.p.ConsumedRecord? && b.p == NewConsumed(h, a.p, b.p.consumed))
  {
    hide NewPending, NewPrepared, NewConsumed, NewGrant, RevokedOf, NewTerminal, Unexpired, AuthorityDigest;
  }

  lemma ConsumedKeeps(h: BodyHash, a: Life, b: Life, p: AuthorityRecord)
    requires p.PreparedRecord? && a.IsPrepared? && a.p == p
    requires b.IsConsumed? && b.p.ConsumedRecord? && b.p == NewConsumed(h, p, b.p.consumed)
    ensures KeepsPrepared(b, p)
  {
    ConsumedFields(h, p, b.p.consumed);
    hide NewConsumed;
  }

  lemma SameRecordKeeps(a: Life, b: Life, p: AuthorityRecord)
    requires p.PreparedRecord? && Rank(a) >= 3 && Rank(b) >= 3 && b.p == a.p && KeepsPrepared(a, p)
    ensures KeepsPrepared(b, p)
  {
  }

  lemma MoveKeepsPrepared(h: BodyHash, a: Life, b: Life, p: AuthorityRecord, now: int)
    requires p.PreparedRecord? && Rank(a) >= 2 && Moves(h, a, b, now) && KeepsPrepared(a, p)
    ensures KeepsPrepared(b, p)
  {
    PreparedOrPast(a, p);
    hide Moves, NewConsumed, Absorbing, KeepsPrepared, Rank;
    if a.IsPrepared? {
      FromPrepared(h, a, b, now);
      if a != b { ConsumedKeeps(h, a, b, p); }
    } else {
      MoveAdvances(h, a, b, now);
      SameRecordKeeps(a, b, p);
    }
  }

  lemma PreparedOrPast(l: Life, p: AuthorityRecord)
    requires p.PreparedRecord? && Rank(l) >= 2 && KeepsPrepared(l, p)
    ensures if l.IsPrepared? then l.p == p else Rank(l) >= 3
  {
  }

  lemma StartsPrepared(l: Life)
    requires l.IsPrepared? && l.p.PreparedRecord?
    ensures KeepsPrepared(l, l.p) && Rank(l) >= 2
  {
  }

  lemma ConsumedFields(h: BodyHash, p: AuthorityRecord, consumed: string)
    requires p.PreparedRecord?
    ensures var q := NewConsumed(h, p, consumed);
            q.ConsumedRecord? && q.staticDigest == p.staticDigest && q.schemaDigest == p.schemaDigest && q.prepared == p.prepared
  {
    hide AuthorityDigest;
  }

  /** The consumed record, and so the grant and the terminal record bound to it, carries the digests
      of the prepared one. */
  lemma {:induction false} ConsumedKeepsPrepared(h: BodyHash, history: seq<Moment>, i: nat, j: nat)
    requires Biography(h, history) && i <= j < |history| && history[i].life.IsPrepared? && history[i].life.p.PreparedRecord?
    ensures KeepsPrepared(history[j].life, history[i].life.p) && Rank(history[j].life) >= 2
    decreases j
  {
    hide Biography, Moves, Sound, Rank, RevokedOf, KeepsPrepared, Absorbing;
    StartsPrepared(history[i].life);
    if i < j {
      ConsumedKeepsPrepared(h, history, i, j - 1);
      MomentMoves(h, history, j);
      MoveAdvances(h, history[j - 1].life, history[j].life, history[j].time);
      MoveKeepsPrepared(h, history[j - 1].life, history[j].life, history[i].life.p, history[j].time);
    }
  }

  /** Every terminal record binds the consumed record and its revoked grant, and that is what an
      inspection of the leaves reports. */
  lemma TerminalBinds(h: BodyHash, d: Leaves, history: seq<Moment>, j: nat)
    requires Biography(h, history) && j < |history| && Shows(h, d, history[j].life)
    requires history[j].life.IsTerminal?
    ensures var IsTerminal(p, g, t) := history[j].life;
            && p.ConsumedRecord? && g.revoked && g.consumedDigest == p.digest
            && t.consumedDigest == p.digest && t.grantDigest == g.digest
            && Inspect(h, d) == TerminalState(t)
  {
    hide *;
    SoundAt(h, history, j);
    InspectionSeesLife(h, d, history[j].life);
    TerminalFacts(h, history[j].life);
  }

  lemma SoundAt(h: BodyHash, history: seq<Moment>, j: nat)
    requires Biography(h, history) && j < |history|
    ensures Sound(h, history[j].life)
  {
    hide Sound, Next;
  }

  lemma TerminalFacts(h: BodyHash, l: Life)
    requires Sound(h, l) && l.IsTerminal?
    ensures l.p.ConsumedRecord? && l.g.revoked && l.g.consumedDigest == l.p.digest
    ensures l.t.consumedDigest == l.p.digest && l.t.grantDigest == l.g.digest && Seen(l) == TerminalState(l.t)
  {
    hide NewPending, AuthorityValid, GrantValid, TerminalValid;
  }

  // ---- Calls ----

  /** A call of one of the six operations. */
  datatype Operation =
    | ToPending
    | ToPrepared(expected: string, staticDigest: string, schemaDigest: string, inert: Inert)
    | ToConsumed(expected: string, consumed: string)
    | ToIssued(expected: string, challenge: string, capability: string, issuedNs: Option<int>)
    | ToRevoked(expected: string)
    | ToTerminal(expected: string, expectedGrant: string)

  /** Where a call made at time `now` would take a life. */
  function Target(h: BodyHash, inertHash: InertHash, l: Life, op: Operation, now: int): Option<Life> {
    match op
    case ToPending => ReserveTarget(h, l)
    case ToPrepared(expected, staticDigest, schemaDigest, inert) =>
      PrepareTarget(h, inertHash, l, expected, staticDigest, schemaDigest, inert)
    case ToConsumed(expected, consumed) => ConsumeTarget(h, l, expected, consumed)
    case ToIssued(expected, challenge, capability, issuedNs) =>
      IssueTarget(h, l, expected, challenge, capability, if issuedNs.Some? then issuedNs.value else now)
    case ToRevoked(expected) => RevokeTarget(h, l, expected, now)
    case ToTerminal(expected, expectedGrant) => TerminalTarget(h, l, expected, expectedGrant, now)
  }

  /** What a call leaves if its write is cut short; a replacement cannot be. */
  function CutShort(l: Life, op: Operation): Option<Life> {
    if op.ToPending? || op.ToIssued? || op.ToTerminal? then TornOf(l) else None
  }

  /** A call leads to another life, or nowhere. */
  lemma TargetLeadsOn(h: BodyHash, inertHash: InertHash, l: Life, op: Operation, now: int)
    ensures Target(h, inertHash, l, op, now) != Some(l) && CutShort(l, op) != Some(l)
  {
    hide NewPending, NewPrepared, NewConsumed, NewGrant, RevokedOf, NewTerminal, IsDigest, InertValid, Unexpired;
  }

  /** The write of a call is reached and leaves something: whole, or cut short in a creation. */
  predicate ChangesLeaf(full: Option<Life>, torn: Option<Life>, faults: Faults) {
    && full.Some? && faults.acquires && faults.sound
    && (faults.extent.Whole? || (faults.extent.Cut? && torn.Some?))
  }

  /** A call without an answer has nevertheless changed the store exactly when its write left
      something and the whole of it was not both acknowledged and followed by the release. */
  lemma SilentStep(h: BodyHash, inertHash: InertHash, before: Life, after: Life, op: Operation, now: int, faults: Faults, answered: bool)
    requires Did(before, after, Target(h, inertHash, before, op, now), CutShort(before, op), faults, answered)
    ensures !answered && after != before
      <==> ChangesLeaf(Target(h, inertHash, before, op, now), CutShort(before, op), faults)
           && !(faults.extent.Whole? && faults.acknowledged && faults.releases)
  {
    TargetLeadsOn(h, inertHash, before, op, now);
    hide Target, CutShort;
  }

  ghost predicate Expired(l: Life, now: int) {
    (l.IsIssued? || l.IsRevoked?) && now > l.g.expiresNs
  }

  /** Past the expiry of its grant no operation can move a life on: every target is out of reach. */
  lemma ExpiredHasNoTarget(h: BodyHash, inertHash: InertHash, l: Life, op: Operation, now: int)
    requires Expired(l, now)
    ensures Target(h, inertHash, l, op, now) == None
  {
    hide IsDigest, InertValid, NewPending, NewPrepared, NewConsumed, NewGrant, RevokedOf, NewTerminal;
  }

  /** One call. The change to the life and whether there is an answer are determined by the call
      and its faults; without an answer there is a change exactly when a write left something that
      was not wholly acknowledged; and once the clock is past the expiry of the grant nothing is
      changed and nothing answered. */
  method Perform(store: Store, op: Operation, faults: Faults) returns (answered: bool)
    requires store.Valid() && !store.held
    modifies store
    ensures store.Valid() && !store.held && old(store.history) <= store.history && old(store.now) <= store.now
    ensures Did(old(store.life), store.life, Target(store.h, store.inertHash, old(store.life), op, store.now),
                CutShort(old(store.life), op), faults, answered)
    ensures !answered && store.life != old(store.life)
      <==> ChangesLeaf(Target(store.h, store.inertHash, old(store.life), op, store.now), CutShort(old(store.life), op), faults)
           && !(faults.extent.Whole? && faults.acknowledged && faults.releases)
    ensures Expired(old(store.life), old(store.now)) ==> store.life == old(store.life) && !answered
  {
    ghost var before, start := store.life, store.now;
    hide *;
    answered := Dispatch(store, op, faults);
    SilentStep(store.h, store.inertHash, before, store.life, op, store.now, faults, answered);
    ExpiredDoesNothing(store.h, store.inertHash, before, store.life, op, start, store.now, faults, answered);
  }

  method Dispatch(store: Store, op: Operation, faults: Faults) returns (answered: bool)
    requires store.Valid() && !store.held
    modifies store
    ensures store.Valid() && !store.held && old(store.history) <= store.history && old(store.now) <= store.now
    ensures Did(old(store.life), store.life, Target(store.h, store.inertHash, old(store.life), op, store.now),
                CutShort(old(store.life), op), faults, answered)
  {
    hide Biography, Shows, Did, ReserveTarget, PrepareTarget, ConsumeTarget, IssueTarget, RevokeTarget, TerminalTarget, TornOf;
    match op {
      case ToPending =>
        var r := store.ReservePending(faults);
        answered := r.Some?;
      case ToPrepared(expected, staticDigest, schemaDigest, inert) =>
        var r := store.FinalizePrepared(expected, staticDigest, schemaDigest, inert, faults);
        answered := r.Some?;
      case ToConsumed(expected, consumed) =>
        var r := store.Consume(expected, consumed, faults);
        answered := r.Some?;
      case ToIssued(expected, challenge, capability, issuedNs) =>
        var r := store.IssueWorkerGrant(expected, challenge, capability, issuedNs, faults);
        answered := r.Some?;
      case ToRevoked(expected) =>
        var r := store.RevokeWorkerGrant(expected, faults);
        answered := r.Some?;
      case ToTerminal(expected, expectedGrant) =>
        var r := store.FinalizeTerminal(expected, expectedGrant, faults);
        answered := r.Some?;
    }
  }

  lemma ExpiredDoesNothing(h: BodyHash, inertHash: InertHash, before: Life, after: Life, op: Operation, start: int, now: int, faults: Faults, answered: bool)
    requires Did(before, after, Target(h, inertHash, before, op, now), CutShort(before, op), faults, answered) && start <= now
    ensures Expired(before, start) ==> after == before && !answered
  {
    if Expired(before, start) { ExpiredHasNoTarget(h, inertHash, before, op, now); }
    hide Target, CutShort;
  }

  /** Any calls one after another, under any faults: past its expiry the grant stays for ever as
      it is, and no call is answered. */
  method PerformAll(store: Store, calls: seq<(Operation, Faults)>) returns (answers: seq<bool>)
    requires store.Valid() && !store.held
    modifies store
    ensures store.Valid() && !store.held && old(store.history) <= store.history && old(store.now) <= store.now
    ensures |answers| == |calls|
    ensures Expired(old(store.life), old(store.now)) ==>
      store.life == old(store.life) && forall i :: 0 <= i < |answers| ==> !answers[i]
  {
    hide Biography, Shows, Did, Target, CutShort;
    answers := [];
    while |answers| < |calls|
      invariant |answers| <= |calls|
      invariant store.Valid() && !store.held && old(store.history) <= store.history && old(store.now) <= store.now
      invariant Expired(old(store.life), old(store.now)) ==>
        store.life == old(store.life) && forall i :: 0 <= i < |answers| ==> !answers[i]
    {
      var answered := Perform(store, calls[|answers|].0, calls[|answers|].1);
      answers := answers + [answered];
    }
  }

  /** An operation without an answer that made its step: the record is written and acknowledged,
      and only the mutex fails to be released. */
  method SilentReservation(h: BodyHash, inertHash: InertHash, now: int) returns (store: Store, r: Option<AuthorityRecord>)
    ensures fresh(store) && store.Valid() && r == None && store.life == IsPending(NewPending(h))
  {
    hide Biography, Shows, NewPending;
    store := new Store(h, inertHash, now);
    r := store.ReservePending(Faults(true, true, Whole, true, false));
  }

  // ---- Expiry ----

  lemma LateMove(h: BodyHash, a: Life, b: Life, now: int)
    requires Moves(h, a, b, now) && (a.IsIssued? || a.IsRevoked?) && now > a.g.expiresNs
    ensures a == b
  {
    hide NewPending, NewPrepared, NewConsumed, NewGrant, RevokedOf, NewTerminal;
  }

  /** With a clock that never goes back, it is enough that the next moment lies past the expiry of
      the grant: it stays as it is for ever, and the terminal state has become unreachable. */
  lemma {:induction false} ExpiredIsFinal(h: BodyHash, history: seq<Moment>, i: nat, j: nat)
    requires Biography(h, history) && i <= j < |history|
    requires history[i].life.IsIssued? || history[i].life.IsRevoked?
    requires i < j ==> history[i + 1].time > history[i].life.g.expiresNs
    ensures history[j].life == history[i].life && !history[j].life.IsTerminal?
    decreases j
  {
    hide Biography, Moves, Sound, Rank, Absorbing;
    if i < j {
      ExpiredIsFinal(h, history, i, j - 1);
      OnlyForward(h, history, i + 1, j);
      MomentMoves(h, history, j);
      LateMove(h, history[j - 1].life, history[j].life, history[j].time);
    }
  }

  // ---- Which calls lead on ----

  /** A call that names a record or a grant which is not the current one leads nowhere. */
  ghost predicate Stale(l: Life, op: Operation) {
    match op
    case ToPending => false
    case ToPrepared(expected, _, _, _) => HasRecord(l) ==> l.p.digest != expected
    case ToConsumed(expected, _) => HasRecord(l) ==> l.p.digest != expected
    case ToIssued(expected, _, _, _) => HasRecord(l) ==> l.p.digest != expected
    case ToRevoked(expected) => HasGrant(l) ==> l.g.digest != expected
    case ToTerminal(expected, expectedGrant) => HasGrant(l) ==> l.p.digest != expected || l.g.digest != expectedGrant
  }

  /** An attestation that vouches for one executable as supervisor and worker, and for the encoder. */
  ghost predicate Attests(a: Inert) {
    && IsDigest(a.worker.sha256) && IsDigest(a.worker.identity) && a.worker.size > 0 && a.supervisor == a.worker
    && IsDigest(a.ffmpeg.sha256) && IsDigest(a.ffmpeg.identity) && a.ffmpeg.size > 0 && IsDigest(a.ffmpegVersion)
    && a.leaseVerified
  }

  /** A call whose arguments are all well formed. */
  ghost predicate WellFormed(op: Operation, now: int) {
    match op
    case ToPending => true
    case ToPrepared(expected, staticDigest, schemaDigest, inert) =>
      IsDigest(expected) && IsDigest(staticDigest) && IsDigest(schemaDigest) && Attests(inert)
    case ToConsumed(expected, consumed) => IsDigest(expected) && IsDigest(consumed)
    case ToIssued(expected, challenge, capability, issuedNs) =>
      IsDigest(expected) && IsDigest(challenge) && IsDigest(capability) && (if issuedNs.Some? then issuedNs.value > 0 else now > 0)
    case ToRevoked(expected) => IsDigest(expected)
    case ToTerminal(expected, expectedGrant) => IsDigest(expected) && IsDigest(expectedGrant)
  }

  /** The stage an operation starts from. */
  ghost predicate AtStage(l: Life, op: Operation) {
    match op
    case ToPending => Rank(l) == 0
    case ToPrepared(_, _, _, _) => l.IsPending?
    case ToConsumed(_, _) => l.IsPrepared?
    case ToIssued(_, _, _, _) => l.IsConsumed?
    case ToRevoked(_) => l.IsIssued?
    case ToTerminal(_, _) => l.IsRevoked?
  }

  /** Revoking and ending are possible while the grant lasts: five minutes from its issue. */
  ghost predicate InTime(l: Life, op: Operation, now: int) {
    op.ToRevoked? || op.ToTerminal? ==> HasGrant(l) && l.g.issuedNs <= now <= l.g.issuedNs + 300_000_000_000
  }

  /** A call leads on exactly from the stage before, with well-formed arguments that name what is
      current, and in time. */
  lemma LeadsOnExactly(h: BodyHash, inertHash: InertHash, l: Life, op: Operation, now: int)
    requires Sound(h, l)
    ensures Target(h, inertHash, l, op, now).Some? <==> AtStage(l, op) && WellFormed(op, now) && !Stale(l, op) && InTime(l, op, now)
  {
    SoundGrantLasts(h, l);
    SoundPrepared(h, l);
    hide *;
    if op.ToRevoked? || op.ToTerminal? { LateLeadsOn(h, inertHash, l, op, now); } else { EarlyLeadsOn(h, inertHash, l, op, now); }
  }

  lemma EarlyLeadsOn(h: BodyHash, inertHash: InertHash, l: Life, op: Operation, now: int)
    requires (l.IsPrepared? ==> l.p.PreparedRecord?) && !op.ToRevoked? && !op.ToTerminal?
    ensures Target(h, inertHash, l, op, now).Some? <==> AtStage(l, op) && WellFormed(op, now) && !Stale(l, op) && InTime(l, op, now)
  {
    hide IsDigest, InertValid, Attests, NewPending, NewPrepared, NewConsumed, NewGrant;
    hide PrepareTarget, ConsumeTarget, IssueTarget, RevokeTarget, TerminalTarget;
    match op
    case ToPending =>
    case ToPrepared(expected, staticDigest, schemaDigest, inert) =>
      AttestsIsValid(inert);
      PrepareWhen(h, inertHash, l, expected, staticDigest, schemaDigest, inert);
    case ToConsumed(expected, consumed) => ConsumeWhen(h, l, expected, consumed);
    case ToIssued(expected, challenge, capability, issuedNs) =>
      IssueWhen(h, l, expected, challenge, capability, if issuedNs.Some? then issuedNs.value else now);
  }

  lemma LateLeadsOn(h: BodyHash, inertHash: InertHash, l: Life, op: Operation, now: int)
    requires (HasGrant(l) ==> l.g.expiresNs == l.g.issuedNs + 300_000_000_000) && (op.ToRevoked? || op.ToTerminal?)
    ensures Target(h, inertHash, l, op, now).Some? <==> AtStage(l, op) && WellFormed(op, now) && !Stale(l, op) && InTime(l, op, now)
  {
    hide IsDigest, RevokedOf, NewTerminal, ReserveTarget, PrepareTarget, ConsumeTarget, IssueTarget, RevokeTarget, TerminalTarget;
    hide Attests, Rank, NewPending, NewPrepared, NewConsumed, NewGrant;
    if op.ToRevoked? { RevokeWhen(h, l, op.expected, now); } else { TerminalWhen(h, l, op.expected, op.expectedGrant, now); }
  }

  lemma AttestsIsValid(a: Inert)
    ensures InertValid(a) <==> Attests(a)
  {
    hide IsDigest;
  }

  lemma SoundGrantLasts(h: BodyHash, l: Life)
    requires Sound(h, l)
    ensures HasGrant(l) ==> l.g.expiresNs == l.g.issuedNs + 300_000_000_000
  {
    hide NewPending, AuthorityValid, TerminalValid, IsDigest, GrantDigest;
  }

  lemma SoundPrepared(h: BodyHash, l: Life)
    requires Sound(h, l)
    ensures l.IsPrepared? ==> l.p.PreparedRecord?
  {
    hide NewPending, AuthorityValid, GrantValid, TerminalValid;
  }

  /** What the record of the next stage says: the arguments of the call, and what it binds. */
  ghost predicate Says(inertHash: InertHash, l: Life, op: Operation, now: int, next: Life) {
    match op
    case ToPending => next.IsPending? && next.p.PendingRecord?
    case ToPrepared(_, staticDigest, schemaDigest, inert) =>
      next.IsPrepared? && next.p.PreparedRecord?
      && next.p.staticDigest == staticDigest && next.p.schemaDigest == schemaDigest && next.p.prepared == inertHash(inert)
    case ToConsumed(_, consumed) =>
      next.IsConsumed? && next.p.ConsumedRecord? && next.p.consumed == consumed && l.IsPrepared? && l.p.PreparedRecord?
      && next.p.staticDigest == l.p.staticDigest && next.p.schemaDigest == l.p.schemaDigest && next.p.prepared == l.p.prepared
    case ToIssued(_, challenge, capability, issuedNs) =>
      next.IsIssued? && l.IsConsumed? && next.p == l.p && next.g.consumedDigest == l.p.digest && !next.g.revoked
      && next.g.challenge == challenge && next.g.capability == capability
      && next.g.issuedNs == if issuedNs.Some? then issuedNs.value else now
    case ToRevoked(_) => next.IsRevoked? && l.IsIssued? && next.p == l.p && SameGrant(l.g, next.g) && next.g.revoked
    case ToTerminal(_, _) =>
      next.IsTerminal? && l.IsRevoked? && next.p == l.p && next.g == l.g
      && next.t.consumedDigest == l.p.digest && next.t.grantDigest == l.g.digest
  }

  /** Each operation leads to the next stage, with a record that says what was asked for. */
  lemma StageAfter(h: BodyHash, inertHash: InertHash, l: Life, op: Operation, now: int)
    requires Target(h, inertHash, l, op, now).Some?
    ensures Says(inertHash, l, op, now, Target(h, inertHash, l, op, now).value)
  {
    hide Says, Target;
    if op.ToPending? || op.ToPrepared? || op.ToConsumed? {
      EarlySays(h, inertHash, l, op, now);
    } else if op.ToIssued? {
      IssueSays(h, inertHash, l, op, now);
    } else if op.ToRevoked? {
      RevokeSays(h, inertHash, l, op, now);
    } else {
      EndSays(h, inertHash, l, op, now);
    }
  }

  lemma EarlySays(h: BodyHash, inertHash: InertHash, l: Life, op: Operation, now: int)
    requires Target(h, inertHash, l, op, now).Some? && (op.ToPending? || op.ToPrepared? || op.ToConsumed?)
    ensures Says(inertHash, l, op, now, Target(h, inertHash, l, op, now).value)
  {
    hide IsDigest, InertValid, AuthorityDigest;
  }

  lemma IssueSays(h: BodyHash, inertHash: InertHash, l: Life, op: Operation, now: int)
    requires Target(h, inertHash, l, op, now).Some? && op.ToIssued?
    ensures Says(inertHash, l, op, now, Target(h, inertHash, l, op, now).value)
  {
    hide IsDigest, NewGrant, ReserveTarget, PrepareTarget, ConsumeTarget, IssueTarget, RevokeTarget, TerminalTarget, SameGrant;
    IssueWhen(h, l, op.expected, op.challenge, op.capability, if op.issuedNs.Some? then op.issuedNs.value else now);
    IssuedFields(h, op.expected, op.challenge, op.capability, if op.issuedNs.Some? then op.issuedNs.value else now);
  }

  lemma RevokeSays(h: BodyHash, inertHash: InertHash, l: Life, op: Operation, now: int)
    requires Target(h, inertHash, l, op, now).Some? && op.ToRevoked?
    ensures Says(inertHash, l, op, now, Target(h, inertHash, l, op, now).value)
  {
    hide IsDigest, Unexpired, RevokedOf, SameGrant, ReserveTarget, PrepareTarget, ConsumeTarget, IssueTarget, RevokeTarget, TerminalTarget;
    RevokeWhen(h, l, op.expected, now);
    RevokedFields(h, l.g);
  }

  lemma EndSays(h: BodyHash, inertHash: InertHash, l: Life, op: Operation, now: int)
    requires Target(h, inertHash, l, op, now).Some? && op.ToTerminal?
    ensures Says(inertHash, l, op, now, Target(h, inertHash, l, op, now).value)
  {
    hide IsDigest, Unexpired, NewTerminal, ReserveTarget, PrepareTarget, ConsumeTarget, IssueTarget, RevokeTarget, TerminalTarget, SameGrant;
    TerminalWhen(h, l, op.expected, op.expectedGrant, now);
    EndFields(h, l.p.digest, l.g.digest);
  }

  lemma IssuedFields(h: BodyHash, expected: string, challenge: string, capability: string, issuedNs: int)
    ensures var g := NewGrant(h, expected, challenge, capability, issuedNs);
            g.consumedDigest == expected && g.challenge == challenge && g.capability == capability && g.issuedNs == issuedNs && !g.revoked
  {
    hide GrantDigest;
  }

  lemma RevokedFields(h: BodyHash, g: Grant)
    ensures SameGrant(g, RevokedOf(h, g)) && RevokedOf(h, g).revoked
  {
    hide GrantDigest;
  }

  lemma EndFields(h: BodyHash, consumedDigest: string, grantDigest: string)
    ensures var t := NewTerminal(h, consumedDigest, grantDigest); t.consumedDigest == consumedDigest && t.grantDigest == grantDigest
  {
    hide TerminalDigest;
  }

  // ---- Preparing once ----

  datatype PrepareStatus = PreparedNonlaunching | PendingNonlaunchable | StateClosed

  /** The three calls of `_prepare_once`: inspecting, reserving and finalizing. */
  datatype PrepareFaults = PrepareFaults(inspecting: Faults, reserving: Faults, finalizing: Faults)

  /** The store is seen to be blank and the reservation is answered. */
  ghost predicate Reserves(l: Life, faults: PrepareFaults) {
    && l.Blank? && faults.inspecting.acquires && faults.inspecting.sound && faults.inspecting.releases
    && faults.reserving == Faults(true, true, Whole, true, true)
  }

  /** The attestations are there and valid, and the finalization is answered. */
  ghost predicate Finalizes(attested: Option<(string, string)>, inert: Option<Inert>, faults: PrepareFaults) {
    && attested.Some? && inert.Some? && IsDigest(attested.value.0) && IsDigest(attested.value.1) && InertValid(inert.value)
    && faults.finalizing == Faults(true, true, Whole, true, true)
  }

  /** `_prepare_once`: an attestor that raises is None. Only a blank store lets it through, and after
      that no later call gets past the first check, however this one ended. */
  method PrepareOnce(store: Store, attested: Option<(string, string)>, inert: Option<Inert>, faults: PrepareFaults)
    returns (status: PrepareStatus, record: Option<AuthorityRecord>)
    requires store.Valid() && !store.held
    modifies store
    ensures store.Valid() && !store.held && old(store.history) <= store.history
    ensures !old(store.life).Blank? ==> status == StateClosed && store.life == old(store.life)
    ensures status != StateClosed ==> !store.life.Blank?
    ensures status != StateClosed <==> Reserves(old(store.life), faults)
    ensures status == PreparedNonlaunching <==> Reserves(old(store.life), faults) && Finalizes(attested, inert, faults)
    ensures status == PreparedNonlaunching <==> record.Some?
    ensures record.Some? ==> store.life.IsPrepared? && store.life.p == record.value
    ensures status == PendingNonlaunchable ==> store.life.IsPending? || store.life.IsPrepared?
  {
    hide Biography, Shows, NewPending, NewPrepared, IsDigest, InertValid;
    var seen := store.InspectStore(faults.inspecting);
    OnlyBlankSeen(store.life);
    if !seen.AbsentState? { return StateClosed, None; }
    var pending := store.ReservePending(faults.reserving);
    if pending.None? { return StateClosed, None; }
    if attested.None? || inert.None? { return PendingNonlaunchable, None; }
    PendingDigest(store.h);
    record := store.FinalizePrepared(pending.value.digest, attested.value.0, attested.value.1, inert.value, faults.finalizing);
    status := if record.Some? then PreparedNonlaunching else PendingNonlaunchable;
  }

  lemma PendingDigest(h: BodyHash)
    ensures IsDigest(NewPending(h).digest)
  {
    hide IsDigest, AuthorityDigest;
  }

  lemma OnlyBlankSeen(l: Life)
    ensures Seen(l).AbsentState? <==> l.Blank?
  {
  }
}
