/** `_D1N2AuthorityStore`: compare-and-swap operations over three files, under a mutex, with a
    fault possible at every stage. */
module AuthorityStore {
  import opened Wrappers
  import opened BootstrapCodec
  import opened AuthorityRecords
  import opened AuthorityLife

  datatype Leaf = PreparedLeaf | GrantLeaf | TerminalLeaf

  function At(d: Leaves, leaf: Leaf): Option<string> {
    match leaf
    case PreparedLeaf => d.prepared
    case GrantLeaf => d.grant
    case TerminalLeaf => d.terminal
  }

  function Put(d: Leaves, leaf: Leaf, text: string): Leaves {
    match leaf
    case PreparedLeaf => d.(prepared := Some(text))
    case GrantLeaf => d.(grant := Some(text))
    case TerminalLeaf => d.(terminal := Some(text))
  }

  /** How far the writing of a leaf comes: not at all, in part, or as a whole. */
  datatype Extent = Untouched | Cut | Whole

  /** The answers one operation gets, fixed in advance: whether the mutex is acquired, whether the
      file system is sound and everything can be read, how far the one write comes, whether it is
      then acknowledged (flushed, durable and read back), and whether the mutex is released. */
  datatype Faults = Faults(acquires: bool, sound: bool, extent: Extent, acknowledged: bool, releases: bool)

  /** Where an operation that leads to `full`, or to `torn` if its write is cut short, leaves a life. */
  function After(before: Life, full: Option<Life>, torn: Option<Life>, f: Faults): Life {
    if full.None? || !f.acquires || !f.sound then before
    else
      match f.extent
      case Untouched => before
      case Cut => if torn.Some? then torn.value else before
      case Whole => full.value
  }

  /** An answer takes the whole step, its acknowledgement and the release of the mutex. */
  predicate Answers(full: Option<Life>, f: Faults) {
    full.Some? && f.acquires && f.sound && f.extent.Whole? && f.acknowledged && f.releases
  }

  /** What an operation did to a life, and whether it gave an answer: both are determined. */
  predicate Did(before: Life, after: Life, full: Option<Life>, torn: Option<Life>, f: Faults, answered: bool) {
    after == After(before, full, torn, f) && (answered <==> Answers(full, f))
  }

  class Store {
    const h: BodyHash
    const inertHash: InertHash
    var leaves: Leaves
    /** The last reading of the monotonic clock. */
    var now: int
    /** Whether the named mutex is held. */
    var held: bool
    ghost var life: Life
    ghost var history: seq<Moment>

    ghost predicate Valid()
      reads this
    {
      && history != [] && Biography(h, history) && history[|history| - 1].life == life && history[|history| - 1].time <= now
      && Shows(h, leaves, life)
    }

    constructor (h: BodyHash, inertHash: InertHash, now: int)
      ensures this.h == h && this.inertHash == inertHash && this.now == now && life == Blank && Valid() && !held
    {
      hide Biography, Shows;
      Birth(h, now);
      this.h, this.inertHash := h, inertHash;
      leaves := Leaves(None, None, None);
      held := false;
      this.now := now;
      life := Blank;
      history := [Moment(now, Blank)];
    }

    // ---- Ports ----

    /** The clock never goes back. */
    method Clock() returns (reading: int)
      requires Valid()
      modifies `now
      ensures Valid() && reading == now >= old(now)
    {
      hide Biography, Shows;
      var passed: int := *;
      if passed > 0 { now := now + passed; }
      reading := now;
    }

    /** `_inspect_locked`; an unsound file system makes the inspection invalid. */
    method InspectLocked(faults: Faults) returns (seen: Inspection)
      requires Valid() && held
      ensures seen == if faults.sound then Seen(life) else InvalidState
      ensures Sound(h, life)
      ensures HasGrant(life) ==> ParsedGrant(h, leaves.grant) == Some(life.g)
      ensures leaves.grant.Some? <==> HasGrant(life) || life.TornIssue?
    {
      hide Biography, Shows, Inspect, Seen, ParsedGrant, Sound;
      SoundNow(h, history);
      InspectionSeesLife(h, leaves, life);
      seen := if faults.sound then Inspect(h, leaves) else InvalidState;
    }

    /** `_grant_locked`; a grant that cannot be read or parsed raises, which ends the operation. */
    method GrantLocked(faults: Faults) returns (grant: Option<Grant>)
      requires Valid() && held
      ensures grant == if faults.sound && HasGrant(life) then Some(life.g) else None
      ensures Sound(h, life)
    {
      hide Biography, Shows, Inspect, Seen, ParsedGrant, Sound;
      SoundNow(h, history);
      InspectionSeesLife(h, leaves, life);
      grant := if faults.sound then ParsedGrant(h, leaves.grant) else None;
    }

    /** `_create`: exclusive, then written, flushed, made durable and read back. A write that is cut
        short leaves any proper beginning of the text, of length `kept`. */
    method Create(leaf: Leaf, text: string, faults: Faults) returns (ok: bool, ghost kept: nat)
      requires held && (At(leaves, leaf).None? ==> text != "")
      modifies `leaves
      ensures ok <==> old(At(leaves, leaf)).None? && faults.extent.Whole? && faults.acknowledged
      ensures old(At(leaves, leaf)).None? ==> kept < |text|
      ensures leaves ==
        if old(At(leaves, leaf)).Some? || faults.extent.Untouched? then old(leaves)
        else Put(old(leaves), leaf, if faults.extent.Cut? && kept < |text| then text[..kept] else text)
    {
      kept := 0;
      if faults.extent.Untouched? || At(leaves, leaf).Some? { return false, 0; }
      if faults.extent.Cut? {
        var written: nat :| written < |text|;
        leaves := Put(leaves, leaf, text[..written]);
        return false, written;
      }
      leaves := Put(leaves, leaf, text);
      ok := faults.acknowledged;
    }

    /** `_transition`: the temporary file replaces the leaf at once or not at all. */
    method Replace(leaf: Leaf, text: string, faults: Faults) returns (ok: bool)
      requires held
      modifies `leaves
      ensures ok <==> faults.extent.Whole? && faults.acknowledged
      ensures leaves == if faults.extent.Whole? then Put(old(leaves), leaf, text) else old(leaves)
    {
      if !faults.extent.Whole? { return false; }
      leaves := Put(leaves, leaf, text);
      ok := faults.acknowledged;
    }

    /** The mutex is taken before an action; the attempt may fail. */
    method AcquireMutex(faults: Faults) returns (ok: bool)
      requires Valid() && !held
      modifies `held
      ensures Valid() && held == ok == faults.acquires
    {
      hide Biography, Shows;
      ok := faults.acquires;
      held := ok;
    }

    /** After the action it is given up; if that fails, mutual exclusion was uncertain. */
    method ReleaseMutex(faults: Faults) returns (ok: bool)
      requires Valid() && held
      modifies `held
      ensures Valid() && !held && ok == faults.releases
    {
      hide Biography, Shows;
      ok := faults.releases;
      held := false;
    }

    /** Enters a new life into the history. */
    ghost method Become(next: Life)
      requires history != [] && Biography(h, history) && history[|history| - 1].life == life && history[|history| - 1].time <= now
      requires Moves(h, life, next, now) && Sound(h, next) && Shows(h, leaves, next)
      modifies `life, `history
      ensures Valid() && life == next && history == old(history) + [Moment(now, next)]
    {
      hide Biography, Shows, Moves, Sound;
      Extend(h, history, Moment(now, next));
      life, history := next, history + [Moment(now, next)];
    }

    /** A creation whose whole and cut results are both known lives. */
    method CreateAs(leaf: Leaf, text: string, ghost full: Life, ghost torn: Life, faults: Faults) returns (ok: bool)
      requires Valid() && held && (At(leaves, leaf).None? ==> CanCreate(h, leaves, leaf, text, life, full, torn, now))
      modifies `leaves, `life, `history
      ensures Valid() && old(history) <= history
      ensures old(At(leaves, leaf)).None? ==>
        (ok <==> faults.extent.Whole? && faults.acknowledged)
        && life == match faults.extent { case Untouched => old(life) case Cut => torn case Whole => full }
      ensures old(At(leaves, leaf)).Some? ==> life == old(life) && !ok
    {
      hide Biography, Shows, Moves, Sound, CanCreate, Put;
      ghost var before := leaves;
      var missing := At(leaves, leaf).None?;
      if missing { CreatesText(h, leaves, leaf, text, life, full, torn, now); }
      ghost var kept;
      ok, kept := Create(leaf, text, faults);
      if !missing || faults.extent.Untouched? { return; }
      if faults.extent.Cut? {
        CreatedCut(h, before, leaf, text, life, full, torn, now, kept);
        Become(torn);
      } else {
        CreatedWhole(h, before, leaf, text, life, full, torn, now);
        Become(full);
      }
    }

    method ReplaceAs(leaf: Leaf, text: string, ghost full: Life, faults: Faults) returns (ok: bool)
      requires Valid() && held && CanReplace(h, leaves, leaf, text, life, full, now)
      modifies `leaves, `life, `history
      ensures Valid() && old(history) <= history
      ensures life == if faults.extent.Whole? then full else old(life)
      ensures ok <==> faults.extent.Whole? && faults.acknowledged
    {
      hide Biography, Shows, Moves, Sound;
      ok := Replace(leaf, text, faults);
      if faults.extent.Whole? { Become(full); }
    }

    // ---- Operations ----

    /** `inspect` */
    method InspectStore(faults: Faults) returns (seen: Inspection)
      requires Valid() && !held
      modifies `held
      ensures Valid() && !held
      ensures seen == if faults.acquires && faults.sound && faults.releases then Seen(life) else InvalidState
    {
      hide Biography, Shows, Seen;
      var acquired := AcquireMutex(faults);
      if !acquired { return InvalidState; }
      seen := InspectLocked(faults);
      var released := ReleaseMutex(faults);
      if !released { seen := InvalidState; }
    }

    /** `reserve_pending` */
    method ReservePending(faults: Faults) returns (r: Option<AuthorityRecord>)
      requires Valid() && !held
      modifies `leaves, `life, `history, `held
      ensures Valid() && !held && old(history) <= history
      ensures Did(old(life), life, ReserveTarget(h, old(life)), TornOf(old(life)), faults, r.Some?)
      ensures r.Some? ==> r.value == NewPending(h)
    {
      hide *;
      NotAcquired(life, ReserveTarget(h, life), TornOf(life), faults);
      var acquired := AcquireMutex(faults);
      if !acquired { return None; }
      r := ReserveLocked(faults);
      var released := ReleaseMutex(faults);
      Released(old(life), life, ReserveTarget(h, old(life)), TornOf(old(life)), faults, r.Some?);
      if !released { r := None; }
    }

    method ReserveLocked(faults: Faults) returns (r: Option<AuthorityRecord>)
      requires Valid() && held && faults.acquires
      modifies `leaves, `life, `history
      ensures Valid() && old(history) <= history
      ensures Did(old(life), life, ReserveTarget(h, old(life)), TornOf(old(life)), faults.(releases := true), r.Some?)
      ensures r.Some? ==> r.value == NewPending(h)
    {
      hide Biography, Shows, Moves, Sound, Seen, NewPending, AuthorityText, CanCreate, Did, ReserveTarget, TornOf;
      var seen := InspectLocked(faults);
      ReserveWhen(h, life);
      NoStep(life, ReserveTarget(h, life), TornOf(life), faults);
      if !seen.AbsentState? { return None; }
      PendingSteps(h, leaves, life, now);
      var ok := CreateAs(PreparedLeaf, AuthorityText(NewPending(h)), IsPending(NewPending(h)), TornPending, faults);
      Stepped(old(life), life, IsPending(NewPending(h)), Some(TornPending), faults, ok);
      r := if ok then Some(NewPending(h)) else None;
    }

    /** `finalize_prepared` */
    method FinalizePrepared(expected: string, staticDigest: string, schemaDigest: string, inert: Inert, faults: Faults)
      returns (r: Option<AuthorityRecord>)
      requires Valid() && !held
      modifies `leaves, `life, `history, `held
      ensures Valid() && !held && old(history) <= history
      ensures Did(old(life), life, PrepareTarget(h, inertHash, old(life), expected, staticDigest, schemaDigest, inert), None, faults, r.Some?)
      ensures r.Some? ==> r.value == NewPrepared(h, staticDigest, schemaDigest, inertHash(inert))
    {
      hide Biography, Shows, Moves, Sound, Seen, NewPrepared, AuthorityText, IsDigest, InertValid, Did, PrepareTarget;
      ghost var full := PrepareTarget(h, inertHash, life, expected, staticDigest, schemaDigest, inert);
      PrepareWhen(h, inertHash, life, expected, staticDigest, schemaDigest, inert);
      NoStep(life, full, None, faults);
      NotAcquired(life, full, None, faults);
      if !(IsDigest(expected) && IsDigest(staticDigest) && IsDigest(schemaDigest) && InertValid(inert)) { return None; }
      var acquired := AcquireMutex(faults);
      if !acquired { return None; }
      r := PrepareLocked(expected, staticDigest, schemaDigest, inert, faults);
      var released := ReleaseMutex(faults);
      Released(old(life), life, full, None, faults, r.Some?);
      if !released { r := None; }
    }

    method PrepareLocked(expected: string, staticDigest: string, schemaDigest: string, inert: Inert, faults: Faults)
      returns (r: Option<AuthorityRecord>)
      requires Valid() && held && faults.acquires
      requires IsDigest(expected) && IsDigest(staticDigest) && IsDigest(schemaDigest) && InertValid(inert)
      modifies `leaves, `life, `history
      ensures Valid() && old(history) <= history
      ensures Did(old(life), life, PrepareTarget(h, inertHash, old(life), expected, staticDigest, schemaDigest, inert), None,
                  faults.(releases := true), r.Some?)
      ensures r.Some? ==> r.value == NewPrepared(h, staticDigest, schemaDigest, inertHash(inert))
    {
      hide Biography, Shows, Moves, Sound, Seen, NewPrepared, AuthorityText, IsDigest, InertValid, CanReplace, Did, PrepareTarget;
      ghost var full := PrepareTarget(h, inertHash, life, expected, staticDigest, schemaDigest, inert);
      var seen := InspectLocked(faults);
      PrepareWhen(h, inertHash, life, expected, staticDigest, schemaDigest, inert);
      StageSeen(h, life);
      NoStep(life, full, None, faults);
      if !seen.AuthorityState? || !seen.record.PendingRecord? || seen.record.digest != expected { return None; }
      var record := NewPrepared(h, staticDigest, schemaDigest, inertHash(inert));
      PreparedSteps(h, leaves, life, seen.record, staticDigest, schemaDigest, inertHash(inert), now);
      var ok := ReplaceAs(PreparedLeaf, AuthorityText(record), IsPrepared(record), faults);
      Stepped(old(life), life, IsPrepared(record), None, faults, ok);
      r := if ok then Some(record) else None;
    }

    /** `consume` */
    method Consume(expected: string, consumed: string, faults: Faults) returns (r: Option<AuthorityRecord>)
      requires Valid() && !held
      modifies `leaves, `life, `history, `held
      ensures Valid() && !held && old(history) <= history
      ensures Did(old(life), life, ConsumeTarget(h, old(life), expected, consumed), None, faults, r.Some?)
      ensures r.Some? ==> life.IsConsumed? && r.value == life.p
    {
      hide Biography, Shows, Moves, Sound, Seen, NewConsumed, AuthorityText, IsDigest, Did, ConsumeTarget;
      ghost var full := ConsumeTarget(h, life, expected, consumed);
      ConsumeWhen(h, life, expected, consumed);
      NoStep(life, full, None, faults);
      NotAcquired(life, full, None, faults);
      if !(IsDigest(expected) && IsDigest(consumed)) { return None; }
      var acquired := AcquireMutex(faults);
      if !acquired { return None; }
      r := ConsumeLocked(expected, consumed, faults);
      var released := ReleaseMutex(faults);
      Released(old(life), life, full, None, faults, r.Some?);
      if !released { r := None; }
    }

    method ConsumeLocked(expected: string, consumed: string, faults: Faults) returns (r: Option<AuthorityRecord>)
      requires Valid() && held && faults.acquires && IsDigest(expected) && IsDigest(consumed)
      modifies `leaves, `life, `history
      ensures Valid() && old(history) <= history
      ensures Did(old(life), life, ConsumeTarget(h, old(life), expected, consumed), None, faults.(releases := true), r.Some?)
      ensures r.Some? ==> life.IsConsumed? && r.value == life.p
    {
      hide Biography, Shows, Moves, Sound, Seen, NewConsumed, AuthorityText, IsDigest, CanReplace, Did, ConsumeTarget;
      ghost var full := ConsumeTarget(h, life, expected, consumed);
      var seen := InspectLocked(faults);
      ConsumeWhen(h, life, expected, consumed);
      StageSeen(h, life);
      NoStep(life, full, None, faults);
      if !seen.AuthorityState? || !seen.record.PreparedRecord? || seen.record.digest != expected { return None; }
      var record := NewConsumed(h, seen.record, consumed);
      ConsumedSteps(h, leaves, life, seen.record, consumed, now);
      var ok := ReplaceAs(PreparedLeaf, AuthorityText(record), IsConsumed(record), faults);
      Stepped(old(life), life, IsConsumed(record), None, faults, ok);
      r := if ok then Some(record) else None;
    }

    /** `issue_worker_grant`; without an issue time the clock gives it. */
    method IssueWorkerGrant(expected: string, challenge: string, capability: string, issuedNs: Option<int>, faults: Faults)
      returns (r: Option<Grant>)
      requires Valid() && !held
      modifies `leaves, `life, `history, `now, `held
      ensures Valid() && !held && old(history) <= history && old(now) <= now
      ensures Did(old(life), life, IssueTarget(h, old(life), expected, challenge, capability, if issuedNs.Some? then issuedNs.value else now),
                  TornOf(old(life)), faults, r.Some?)
      ensures r.Some? ==> life.IsIssued? && r.value == life.g
    {
      hide Biography, Shows, Moves, Sound, Seen, NewGrant, GrantText, IsDigest, Did, IssueTarget, TornOf;
      ghost var torn := TornOf(life);
      var issued: int;
      if !(IsDigest(expected) && IsDigest(challenge) && IsDigest(capability)) {
        issued := if issuedNs.Some? then issuedNs.value else now;
        IssueWhen(h, life, expected, challenge, capability, issued);
        NoStep(life, None, torn, faults);
        return None;
      }
      if issuedNs.Some? { issued := issuedNs.value; } else { issued := Clock(); }
      ghost var full := IssueTarget(h, life, expected, challenge, capability, issued);
      IssueWhen(h, life, expected, challenge, capability, issued);
      NoStep(life, full, torn, faults);
      NotAcquired(life, full, torn, faults);
      if issued <= 0 { return None; }
      var acquired := AcquireMutex(faults);
      if !acquired { return None; }
      r := IssueLocked(expected, challenge, capability, issued, faults);
      var released := ReleaseMutex(faults);
      Released(old(life), life, full, torn, faults, r.Some?);
      if !released { r := None; }
    }

    method IssueLocked(expected: string, challenge: string, capability: string, issued: int, faults: Faults) returns (r: Option<Grant>)
      requires Valid() && held && faults.acquires && IsDigest(expected) && IsDigest(challenge) && IsDigest(capability) && issued > 0
      modifies `leaves, `life, `history
      ensures Valid() && old(history) <= history
      ensures Did(old(life), life, IssueTarget(h, old(life), expected, challenge, capability, issued), TornOf(old(life)),
                  faults.(releases := true), r.Some?)
      ensures r.Some? ==> life.IsIssued? && r.value == life.g
    {
      hide Biography, Shows, Moves, Sound, Seen, NewGrant, GrantText, IsDigest, CanCreate, Did, IssueTarget, TornOf;
      ghost var full, torn := IssueTarget(h, life, expected, challenge, capability, issued), TornOf(life);
      var seen := InspectLocked(faults);
      IssueWhen(h, life, expected, challenge, capability, issued);
      StageSeen(h, life);
      NoStep(life, full, torn, faults);
      if !seen.AuthorityState? || !seen.record.ConsumedRecord? || seen.record.digest != expected { return None; }
      var grant := NewGrant(h, expected, challenge, capability, issued);
      IssuedSteps(h, leaves, life, seen.record, challenge, capability, issued, now);
      IssuedTarget(h, life, seen.record, challenge, capability, issued);
      var ok := CreateAs(GrantLeaf, GrantText(grant), IsIssued(seen.record, grant), TornIssue(seen.record), faults);
      if old(life).IsConsumed? { Stepped(old(life), life, IsIssued(seen.record, grant), torn, faults, ok); }
      r := if ok then Some(grant) else None;
    }

    /** `revoke_worker_grant`: it looks at the grant alone. */
    method RevokeWorkerGrant(expected: string, faults: Faults) returns (r: Option<Grant>)
      requires Valid() && !held
      modifies `leaves, `life, `history, `now, `held
      ensures Valid() && !held && old(history) <= history && old(now) <= now
      ensures Did(old(life), life, RevokeTarget(h, old(life), expected, now), None, faults, r.Some?)
      ensures r.Some? ==> life.IsRevoked? && r.value == life.g
    {
      hide Biography, Shows, Moves, Sound, RevokedOf, GrantText, IsDigest, Did, RevokeTarget, Unexpired;
      RevokeWhen(h, life, expected, now);
      NoStep(life, RevokeTarget(h, life, expected, now), None, faults);
      NotAcquired(life, RevokeTarget(h, life, expected, now), None, faults);
      if !IsDigest(expected) { return None; }
      var acquired := AcquireMutex(faults);
      if !acquired { return None; }
      r := RevokeLocked(expected, faults);
      var released := ReleaseMutex(faults);
      Released(old(life), life, RevokeTarget(h, old(life), expected, now), None, faults, r.Some?);
      if !released { r := None; }
    }

    method RevokeLocked(expected: string, faults: Faults) returns (r: Option<Grant>)
      requires Valid() && held && faults.acquires && IsDigest(expected)
      modifies `leaves, `life, `history, `now
      ensures Valid() && old(history) <= history && old(now) <= now
      ensures Did(old(life), life, RevokeTarget(h, old(life), expected, now), None, faults.(releases := true), r.Some?)
      ensures r.Some? ==> life.IsRevoked? && r.value == life.g
    {
      hide Biography, Shows, Moves, Sound, RevokedOf, GrantText, IsDigest, CanReplace, Did, RevokeTarget, Unexpired;
      var grant := GrantLocked(faults);
      StageGrant(h, life);
      RevokeWhen(h, life, expected, now);
      NoStep(life, RevokeTarget(h, life, expected, now), None, faults);
      if grant.None? || grant.value.revoked || grant.value.digest != expected { return None; }
      var reading := Clock();
      RevokeWhen(h, life, expected, now);
      NoStep(life, RevokeTarget(h, life, expected, now), None, faults);
      if !Unexpired(grant.value, reading) { return None; }
      RevokedSteps(h, leaves, life, grant.value, now);
      ghost var full := IsRevoked(life.p, RevokedOf(h, grant.value));
      var ok := ReplaceAs(GrantLeaf, GrantText(RevokedOf(h, grant.value)), full, faults);
      Stepped(old(life), life, full, None, faults, ok);
      r := if ok then Some(RevokedOf(h, grant.value)) else None;
    }

    /** `finalize_terminal` */
    method FinalizeTerminal(expected: string, expectedGrant: string, faults: Faults) returns (r: Option<Terminal>)
      requires Valid() && !held
      modifies `leaves, `life, `history, `now, `held
      ensures Valid() && !held && old(history) <= history && old(now) <= now
      ensures Did(old(life), life, TerminalTarget(h, old(life), expected, expectedGrant, now), TornOf(old(life)), faults, r.Some?)
      ensures r.Some? ==> life.IsTerminal? && r.value == life.t
    {
      hide Biography, Shows, Moves, Sound, Seen, NewTerminal, TerminalText, IsDigest, Did, TerminalTarget, TornOf, Unexpired;
      ghost var torn := TornOf(life);
      TerminalWhen(h, life, expected, expectedGrant, now);
      NoStep(life, TerminalTarget(h, life, expected, expectedGrant, now), torn, faults);
      NotAcquired(life, TerminalTarget(h, life, expected, expectedGrant, now), torn, faults);
      if !(IsDigest(expected) && IsDigest(expectedGrant)) { return None; }
      var acquired := AcquireMutex(faults);
      if !acquired { return None; }
      r := TerminalLocked(expected, expectedGrant, faults);
      var released := ReleaseMutex(faults);
      Released(old(life), life, TerminalTarget(h, old(life), expected, expectedGrant, now), torn, faults, r.Some?);
      if !released { r := None; }
    }

    method TerminalLocked(expected: string, expectedGrant: string, faults: Faults) returns (r: Option<Terminal>)
      requires Valid() && held && faults.acquires && IsDigest(expected) && IsDigest(expectedGrant)
      modifies `leaves, `life, `history, `now
      ensures Valid() && old(history) <= history && old(now) <= now
      ensures Did(old(life), life, TerminalTarget(h, old(life), expected, expectedGrant, now), TornOf(old(life)),
                  faults.(releases := true), r.Some?)
      ensures r.Some? ==> life.IsTerminal? && r.value == life.t
    {
      hide Biography, Shows, Moves, Sound, Seen, NewTerminal, TerminalText, IsDigest, Unexpired, Did, TerminalTarget, TornOf;
      var seen := InspectLocked(faults);
      TerminalWhen(h, life, expected, expectedGrant, now);
      StageSeen(h, life);
      NoStep(life, TerminalTarget(h, life, expected, expectedGrant, now), TornOf(life), faults);
      if !seen.AuthorityState? || !seen.record.ConsumedRecord? || seen.record.digest != expected { return None; }
      var grant := GrantLocked(faults);
      StageGrant(h, life);
      if grant.None? || !grant.value.revoked || grant.value.digest != expectedGrant || grant.value.consumedDigest != expected {
        return None;
      }
      r := EndLocked(seen.record, grant.value, faults);
    }

    method EndLocked(p: AuthorityRecord, g: Grant, faults: Faults) returns (r: Option<Terminal>)
      requires Valid() && held && Sound(h, life) && Seen(life) == AuthorityState(p) && HasGrant(life) && life.g == g
      requires p.ConsumedRecord? && g.revoked && IsDigest(p.digest) && IsDigest(g.digest) && faults.acquires && faults.sound
      modifies `leaves, `life, `history, `now
      ensures Valid() && old(history) <= history && old(now) <= now
      ensures Did(old(life), life, TerminalTarget(h, old(life), p.digest, g.digest, now), TornOf(old(life)),
                  faults.(releases := true), r.Some?)
      ensures r.Some? ==> life.IsTerminal? && r.value == life.t
    {
      hide Biography, Shows, Moves, Sound, Seen, NewTerminal, TerminalText, IsDigest, Unexpired, CanCreate, Did, TerminalTarget, TornOf;
      var reading := Clock();
      TerminalWhen(h, life, p.digest, g.digest, now);
      NoStep(life, TerminalTarget(h, life, p.digest, g.digest, now), TornOf(life), faults);
      if !Unexpired(g, reading) { return None; }
      TerminalSteps(h, leaves, life, p, g, now);
      EndTarget(h, p, g, now);
      var terminal := NewTerminal(h, p.digest, g.digest);
      var ok := CreateAs(TerminalLeaf, TerminalText(terminal), IsTerminal(p, g, terminal), TornEnd(p, g), faults);
      Stepped(old(life), life, IsTerminal(p, g, terminal), Some(TornEnd(p, g)), faults, ok);
      r := if ok then Some(terminal) else None;
    }
  }

  // ---- What an operation did ----

  lemma NotAcquired(l: Life, full: Option<Life>, torn: Option<Life>, faults: Faults)
    ensures !faults.acquires ==> Did(l, l, full, torn, faults, false)
  {
  }

  lemma NoStep(l: Life, full: Option<Life>, torn: Option<Life>, faults: Faults)
    ensures full.None? || !faults.sound ==> Did(l, l, full, torn, faults, false) && Did(l, l, full, torn, faults.(releases := true), false)
  {
  }

  lemma Stepped(l: Life, next: Life, full: Life, torn: Option<Life>, faults: Faults, ok: bool)
    requires faults.acquires && faults.sound && (ok <==> faults.extent.Whole? && faults.acknowledged)
    requires faults.extent.Untouched? ==> next == l
    requires faults.extent.Cut? ==> next == if torn.Some? then torn.value else l
    requires faults.extent.Whole? ==> next == full
    ensures Did(l, next, Some(full), torn, faults.(releases := true), ok)
  {
  }

  lemma Released(l: Life, next: Life, full: Option<Life>, torn: Option<Life>, faults: Faults, ok: bool)
    requires Did(l, next, full, torn, faults.(releases := true), ok)
    ensures Did(l, next, full, torn, faults, ok && faults.releases)
  {
  }

  // ---- When there is a target ----

  lemma ReserveWhen(h: BodyHash, l: Life)
    ensures Seen(l).AbsentState? ==> ReserveTarget(h, l) == Some(IsPending(NewPending(h))) && TornOf(l) == Some(TornPending)
    ensures !Seen(l).AbsentState? ==> ReserveTarget(h, l) == None
  {
    hide NewPending;
  }

  lemma PrepareWhen(h: BodyHash, inertHash: InertHash, l: Life, expected: string, staticDigest: string, schemaDigest: string, inert: Inert)
    ensures PrepareTarget(h, inertHash, l, expected, staticDigest, schemaDigest, inert) ==
      if IsDigest(expected) && IsDigest(staticDigest) && IsDigest(schemaDigest) && InertValid(inert) && l.IsPending? && l.p.digest == expected
      then Some(IsPrepared(NewPrepared(h, staticDigest, schemaDigest, inertHash(inert)))) else None
  {
    hide NewPrepared, IsDigest, InertValid;
  }

  lemma ConsumeWhen(h: BodyHash, l: Life, expected: string, consumed: string)
    ensures ConsumeTarget(h, l, expected, consumed) ==
      if IsDigest(expected) && IsDigest(consumed) && l.IsPrepared? && l.p.PreparedRecord? && l.p.digest == expected
      then Some(IsConsumed(NewConsumed(h, l.p, consumed))) else None
  {
    hide NewConsumed, IsDigest;
  }

  lemma IssueWhen(h: BodyHash, l: Life, expected: string, challenge: string, capability: string, issuedNs: int)
    ensures IssueTarget(h, l, expected, challenge, capability, issuedNs) ==
      if IsDigest(expected) && IsDigest(challenge) && IsDigest(capability) && issuedNs > 0 && l.IsConsumed? && l.p.digest == expected
      then Some(IsIssued(l.p, NewGrant(h, expected, challenge, capability, issuedNs))) else None
  {
    hide NewGrant, IsDigest;
  }

  lemma RevokeWhen(h: BodyHash, l: Life, expected: string, now: int)
    ensures RevokeTarget(h, l, expected, now) ==
      if IsDigest(expected) && l.IsIssued? && l.g.digest == expected && Unexpired(l.g, now)
      then Some(IsRevoked(l.p, RevokedOf(h, l.g))) else None
  {
    hide RevokedOf, IsDigest, Unexpired;
  }

  lemma TerminalWhen(h: BodyHash, l: Life, expected: string, expectedGrant: string, now: int)
    ensures TerminalTarget(h, l, expected, expectedGrant, now) ==
      if IsDigest(expected) && IsDigest(expectedGrant) && l.IsRevoked? && l.p.digest == expected && l.g.digest == expectedGrant
         && Unexpired(l.g, now)
      then Some(IsTerminal(l.p, l.g, NewTerminal(h, expected, expectedGrant))) else None
  {
    hide NewTerminal, IsDigest, Unexpired;
  }

  /** What the grant says about the stage. */
  lemma StageGrant(h: BodyHash, l: Life)
    requires Sound(h, l)
    ensures l.IsIssued? ==> HasGrant(l) && !l.g.revoked
    ensures l.IsRevoked? ==> HasGrant(l) && l.g.revoked && l.g.consumedDigest == l.p.digest
  {
    hide NewPending, AuthorityValid, GrantValid, TerminalValid;
  }

  /** Writing `text` to a missing leaf makes the life `full`, writing a part of it makes it `torn`. */
  ghost predicate CanCreate(h: BodyHash, d: Leaves, leaf: Leaf, text: string, l: Life, full: Life, torn: Life, now: int) {
    && text != "" && Moves(h, l, full, now) && Moves(h, l, torn, now) && Sound(h, full) && Sound(h, torn)
    && Shows(h, Put(d, leaf, text), full)
    && forall n: nat :: n < |text| ==> Shows(h, Put(d, leaf, text[..n]), torn)
  }

  lemma CreatesText(h: BodyHash, d: Leaves, leaf: Leaf, text: string, l: Life, full: Life, torn: Life, now: int)
    requires CanCreate(h, d, leaf, text, l, full, torn, now)
    ensures text != ""
  {
    hide Moves, Sound, Shows, Put;
  }

  lemma CreatedWhole(h: BodyHash, d: Leaves, leaf: Leaf, text: string, l: Life, full: Life, torn: Life, now: int)
    requires CanCreate(h, d, leaf, text, l, full, torn, now)
    ensures Moves(h, l, full, now) && Sound(h, full) && Shows(h, Put(d, leaf, text), full)
  {
    hide Moves, Sound, Shows, Put;
  }

  lemma CreatedCut(h: BodyHash, d: Leaves, leaf: Leaf, text: string, l: Life, full: Life, torn: Life, now: int, n: nat)
    requires CanCreate(h, d, leaf, text, l, full, torn, now) && n < |text|
    ensures Moves(h, l, torn, now) && Sound(h, torn) && Shows(h, Put(d, leaf, text[..n]), torn)
  {
    hide Moves, Sound, Shows, Put;
  }

  ghost predicate CanReplace(h: BodyHash, d: Leaves, leaf: Leaf, text: string, l: Life, full: Life, now: int) {
    Moves(h, l, full, now) && Sound(h, full) && Shows(h, Put(d, leaf, text), full)
  }

  lemma SoundNow(h: BodyHash, history: seq<Moment>)
    requires history != [] && Biography(h, history)
    ensures Sound(h, history[|history| - 1].life)
  {
    hide Sound, Next;
  }

  lemma Extend(h: BodyHash, history: seq<Moment>, m: Moment)
    requires history != [] && Biography(h, history) && Sound(h, m.life)
    requires history[|history| - 1].time <= m.time && Moves(h, history[|history| - 1].life, m.life, m.time)
    ensures Biography(h, history + [m])
  {
    hide Sound, Moves;
    assert Next(h, history[|history| - 1], m);
    hide Next;
  }

  lemma BlankIsSound(h: BodyHash)
    ensures Sound(h, Blank) && Shows(h, Leaves(None, None, None), Blank)
  {
    hide NewPending, AuthorityValid, GrantValid, TerminalValid, ParseAuthority, ParseGrant, ParseTerminal, AuthorityText, GrantText, TerminalText;
  }

  lemma Birth(h: BodyHash, now: int)
    ensures Biography(h, [Moment(now, Blank)]) && Shows(h, Leaves(None, None, None), Blank)
  {
    hide Next, Sound, Shows;
    BlankIsSound(h);
  }

  lemma OnlyBlankIsAbsent(h: BodyHash, d: Leaves, l: Life)
    requires Shows(h, d, l) && Seen(l).AbsentState?
    ensures l.Blank? && d == Leaves(None, None, None)
  {
    hide ParseAuthority, ParseGrant, ParseTerminal, AuthorityText, GrantText, TerminalText;
  }

  lemma PendingMoves(h: BodyHash, now: int)
    ensures Moves(h, Blank, IsPending(NewPending(h)), now) && Moves(h, Blank, TornPending, now)
    ensures Sound(h, TornPending)
  {
    hide NewPending, NewPrepared, NewConsumed, NewGrant, RevokedOf, NewTerminal, AuthorityValid, GrantValid, TerminalValid;
  }

  lemma PendingShows(h: BodyHash, text: string, p: AuthorityRecord)
    ensures text == AuthorityText(p) ==> Shows(h, Leaves(Some(text), None, None), IsPending(p))
    ensures ParseAuthority(h, text) == None ==> Shows(h, Leaves(Some(text), None, None), TornPending)
  {
    hide ParseAuthority, ParseGrant, ParseTerminal, AuthorityText, GrantText, TerminalText;
  }

  /** The creation of the pending record from a blank life, whole and cut short. */
  lemma PendingSteps(h: BodyHash, d: Leaves, l: Life, now: int)
    requires Shows(h, d, l) && Seen(l).AbsentState?
    ensures l.Blank? && d.prepared.None? && CanCreate(h, d, PreparedLeaf, AuthorityText(NewPending(h)), l, IsPending(NewPending(h)), TornPending, now)
  {
    hide Shows, Seen, Moves, Sound, NewPending, AuthorityText, ParseAuthority;
    OnlyBlankIsAbsent(h, d, l);
    NewPendingValid(h);
    PendingMoves(h, now);
    TornPendings(h);
    var text := AuthorityText(NewPending(h));
    AuthorityTextNotEmpty(NewPending(h));
    PendingShows(h, text, NewPending(h));
    forall n: nat | n < |text| ensures Shows(h, Put(d, PreparedLeaf, text[..n]), TornPending) {
      PendingShows(h, text[..n], NewPending(h));
    }
  }

  lemma TornPendings(h: BodyHash)
    ensures forall n: nat :: n < |AuthorityText(NewPending(h))| ==> ParseAuthority(h, AuthorityText(NewPending(h))[..n]) == None
  {
    hide *;
    NewPendingValid(h);
    PendingIsValid(h);
    forall n: nat | n < |AuthorityText(NewPending(h))| ensures ParseAuthority(h, AuthorityText(NewPending(h))[..n]) == None {
      TornAuthority(h, NewPending(h), n);
    }
  }

  lemma PendingIsValid(h: BodyHash)
    requires Sound(h, IsPending(NewPending(h)))
    ensures AuthorityValid(h, NewPending(h))
  {
    hide NewPending, AuthorityValid;
  }

  // ---- The other steps ----

  lemma MoveTo(h: BodyHash, l: Life, full: Life, now: int)
    requires Sound(h, l)
    ensures l.IsPending? && full.IsPrepared? && full.p.PreparedRecord? && full.p == NewPrepared(h, full.p.staticDigest, full.p.schemaDigest, full.p.prepared)
      ==> Moves(h, l, full, now)
    ensures l.IsPrepared? && full.IsConsumed? && full.p.ConsumedRecord? && full.p == NewConsumed(h, l.p, full.p.consumed) ==> Moves(h, l, full, now)
    ensures l.IsConsumed? ==> Moves(h, l, TornIssue(l.p), now)
    ensures l.IsConsumed? && full.IsIssued? && full.p == l.p && full.g == NewGrant(h, l.p.digest, full.g.challenge, full.g.capability, full.g.issuedNs)
      ==> Moves(h, l, full, now)
    ensures l.IsIssued? && full == IsRevoked(l.p, RevokedOf(h, l.g)) && Unexpired(l.g, now) ==> Moves(h, l, full, now)
    ensures l.IsRevoked? && Unexpired(l.g, now) ==> Moves(h, l, TornEnd(l.p, l.g), now)
    ensures l.IsRevoked? && Unexpired(l.g, now) && full == IsTerminal(l.p, l.g, NewTerminal(h, l.p.digest, l.g.digest)) ==> Moves(h, l, full, now)
  {
    hide NewPending, NewPrepared, NewConsumed, NewGrant, RevokedOf, NewTerminal, AuthorityValid, GrantValid, TerminalValid, Unexpired;
  }

  /** What each stage shows. */
  lemma StageSeen(h: BodyHash, l: Life)
    requires Sound(h, l)
    ensures Seen(l).AbsentState? <==> l.Blank?
    ensures l.IsPending? ==> Seen(l) == AuthorityState(l.p) && l.p.PendingRecord?
    ensures l.IsPrepared? ==> Seen(l) == AuthorityState(l.p) && l.p.PreparedRecord?
    ensures l.IsConsumed? || l.IsIssued? || l.IsRevoked? ==> Seen(l) == AuthorityState(l.p) && l.p.ConsumedRecord?
  {
    hide AuthorityValid, GrantValid, TerminalValid, AuthorityDigest;
  }

  /** Which lives show an authority record. */
  lemma RecordSeen(h: BodyHash, l: Life, p: AuthorityRecord)
    requires Sound(h, l) && Seen(l) == AuthorityState(p)
    ensures HasRecord(l) && l.p == p && AuthorityValid(h, p)
    ensures p.PendingRecord? ==> l.IsPending?
    ensures p.PreparedRecord? ==> l.IsPrepared?
    ensures p.ConsumedRecord? ==> l.IsConsumed? || l.IsIssued? || l.IsRevoked?
  {
    hide AuthorityValid, GrantValid, TerminalValid, AuthorityDigest;
  }

  lemma RecordShows(h: BodyHash, p: AuthorityRecord)
    ensures Shows(h, Leaves(Some(AuthorityText(p)), None, None), IsPrepared(p))
    ensures Shows(h, Leaves(Some(AuthorityText(p)), None, None), IsConsumed(p))
  {
    hide AuthorityText, GrantText, TerminalText, ParseAuthority, ParseGrant, ParseTerminal;
  }

  lemma SimpleLeaves(h: BodyHash, d: Leaves, l: Life)
    requires Shows(h, d, l)
    ensures l.IsPending? || l.IsPrepared? || l.IsConsumed? ==> d == Leaves(Some(AuthorityText(l.p)), None, None)
    ensures l.IsIssued? || l.IsRevoked? ==> d == Leaves(Some(AuthorityText(l.p)), Some(GrantText(l.g)), None)
  {
    hide AuthorityText, GrantText, TerminalText, ParseAuthority, ParseGrant, ParseTerminal;
  }

  lemma PreparedSteps(h: BodyHash, d: Leaves, l: Life, p: AuthorityRecord, staticDigest: string, schemaDigest: string, inertDigest: string, now: int)
    requires Sound(h, l) && Shows(h, d, l) && Seen(l) == AuthorityState(p) && p.PendingRecord?
    requires IsDigest(staticDigest) && IsDigest(schemaDigest) && IsDigest(inertDigest)
    ensures var record := NewPrepared(h, staticDigest, schemaDigest, inertDigest);
            l == IsPending(p) && CanReplace(h, d, PreparedLeaf, AuthorityText(record), l, IsPrepared(record), now)
  {
    var record := NewPrepared(h, staticDigest, schemaDigest, inertDigest);
    assert record == NewPrepared(h, record.staticDigest, record.schemaDigest, record.prepared) && record.PreparedRecord? by {
      hide AuthorityDigest;
    }
    hide Sound, Shows, Seen, Moves, NewPrepared, AuthorityText, IsDigest;
    RecordSeen(h, l, p);
    SimpleLeaves(h, d, l);
    PrepareIsSound(h, staticDigest, schemaDigest, inertDigest);
    MoveTo(h, l, IsPrepared(record), now);
    RecordShows(h, record);
  }

  lemma ConsumedSteps(h: BodyHash, d: Leaves, l: Life, p: AuthorityRecord, consumed: string, now: int)
    requires Sound(h, l) && Shows(h, d, l) && Seen(l) == AuthorityState(p) && p.PreparedRecord? && IsDigest(consumed)
    ensures var record := NewConsumed(h, p, consumed);
            l == IsPrepared(p) && CanReplace(h, d, PreparedLeaf, AuthorityText(record), l, IsConsumed(record), now)
  {
    var record := NewConsumed(h, p, consumed);
    assert record.ConsumedRecord? && record.consumed == consumed by { hide AuthorityDigest; }
    hide Sound, Shows, Seen, Moves, NewConsumed, AuthorityText, IsDigest;
    RecordSeen(h, l, p);
    SimpleLeaves(h, d, l);
    ConsumeIsSound(h, p, consumed);
    MoveTo(h, l, IsConsumed(record), now);
    RecordShows(h, record);
  }

  lemma GrantShows(h: BodyHash, p: AuthorityRecord, g: Grant)
    ensures Shows(h, Leaves(Some(AuthorityText(p)), Some(GrantText(g)), None), IsIssued(p, g))
    ensures Shows(h, Leaves(Some(AuthorityText(p)), Some(GrantText(g)), None), IsRevoked(p, g))
  {
    hide AuthorityText, GrantText, TerminalText, ParseAuthority, ParseGrant, ParseTerminal;
  }

  lemma TornGrantShows(h: BodyHash, p: AuthorityRecord, text: string)
    requires ParseGrant(h, text) == None
    ensures Shows(h, Leaves(Some(AuthorityText(p)), Some(text), None), TornIssue(p))
  {
    hide AuthorityText, GrantText, TerminalText, ParseAuthority, ParseGrant, ParseTerminal;
  }

  lemma TornIssueIsSound(h: BodyHash, p: AuthorityRecord)
    requires p.ConsumedRecord? && AuthorityValid(h, p)
    ensures Sound(h, TornIssue(p))
  {
    hide NewPending, AuthorityValid, GrantValid, TerminalValid;
  }

  lemma IssuedIsValid(h: BodyHash, l: Life)
    requires Sound(h, l) && HasGrant(l)
    ensures GrantValid(h, l.g) && l.g.consumedDigest == l.p.digest && (l.g.revoked <==> !l.IsIssued?)
    ensures l.IsTerminal? ==> TerminalValid(h, l.t)
  {
    hide NewPending, AuthorityValid, GrantValid, TerminalValid;
  }

  lemma GrantFields(h: BodyHash, consumedDigest: string, challenge: string, capability: string, issuedNs: int)
    ensures var g := NewGrant(h, consumedDigest, challenge, capability, issuedNs);
            g == NewGrant(h, consumedDigest, g.challenge, g.capability, g.issuedNs)
  {
    hide GrantDigest;
  }

  lemma IssuedSteps(h: BodyHash, d: Leaves, l: Life, p: AuthorityRecord, challenge: string, capability: string, issuedNs: int, now: int)
    requires Sound(h, l) && Shows(h, d, l) && Seen(l) == AuthorityState(p) && p.ConsumedRecord?
    requires IsDigest(challenge) && IsDigest(capability) && issuedNs > 0
    ensures var g := NewGrant(h, p.digest, challenge, capability, issuedNs);
            && l.p == p && (d.grant.None? <==> l == IsConsumed(p)) && (l.IsConsumed? || l.IsIssued? || l.IsRevoked?)
            && (d.grant.None? ==> CanCreate(h, d, GrantLeaf, GrantText(g), l, IsIssued(p, g), TornIssue(p), now))
  {
    hide Sound, Shows, Seen, Moves, NewGrant, AuthorityText, GrantText, IsDigest, ParseGrant, GrantValid, AuthorityValid;
    var g := NewGrant(h, p.digest, challenge, capability, issuedNs);
    RecordSeen(h, l, p);
    SimpleLeaves(h, d, l);
    if l.IsConsumed? {
      IssueIsSound(h, p, challenge, capability, issuedNs);
      TornIssueIsSound(h, p);
      GrantFields(h, p.digest, challenge, capability, issuedNs);
      MoveTo(h, l, IsIssued(p, g), now);
      IssuedIsValid(h, IsIssued(p, g));
      var text := GrantText(g);
      GrantTextNotEmpty(g);
      GrantShows(h, p, g);
      forall n: nat | n < |text| ensures Shows(h, Put(d, GrantLeaf, text[..n]), TornIssue(p)) {
        TornGrant(h, g, n);
        TornGrantShows(h, p, text[..n]);
      }
    }
  }

  lemma IssuedTarget(h: BodyHash, l: Life, p: AuthorityRecord, challenge: string, capability: string, issuedNs: int)
    requires IsDigest(p.digest) && IsDigest(challenge) && IsDigest(capability) && issuedNs > 0
    ensures l == IsConsumed(p) ==> IssueTarget(h, l, p.digest, challenge, capability, issuedNs)
                                   == Some(IsIssued(p, NewGrant(h, p.digest, challenge, capability, issuedNs)))
    ensures l == IsConsumed(p) ==> TornOf(l) == Some(TornIssue(p))
  {
    hide NewGrant, IsDigest;
  }

  lemma EndTarget(h: BodyHash, p: AuthorityRecord, g: Grant, now: int)
    requires IsDigest(p.digest) && IsDigest(g.digest) && Unexpired(g, now)
    ensures TerminalTarget(h, IsRevoked(p, g), p.digest, g.digest, now) == Some(IsTerminal(p, g, NewTerminal(h, p.digest, g.digest)))
    ensures TornOf(IsRevoked(p, g)) == Some(TornEnd(p, g))
  {
    hide NewTerminal, IsDigest, Unexpired;
  }

  lemma RevokedSteps(h: BodyHash, d: Leaves, l: Life, g: Grant, now: int)
    requires Sound(h, l) && Shows(h, d, l) && HasGrant(l) && l.g == g && !g.revoked && Unexpired(g, now)
    ensures l == IsIssued(l.p, g) && CanReplace(h, d, GrantLeaf, GrantText(RevokedOf(h, g)), l, IsRevoked(l.p, RevokedOf(h, g)), now)
  {
    hide Sound, Shows, Moves, RevokedOf, AuthorityText, GrantText, GrantValid, AuthorityValid, TerminalValid, Unexpired;
    IssuedIsValid(h, l);
    SimpleLeaves(h, d, l);
    RevokeIsSound(h, l.p, g);
    MoveTo(h, l, IsRevoked(l.p, RevokedOf(h, g)), now);
    GrantShows(h, l.p, RevokedOf(h, g));
  }

  lemma TerminalShows(h: BodyHash, p: AuthorityRecord, g: Grant, t: Terminal)
    ensures Shows(h, Leaves(Some(AuthorityText(p)), Some(GrantText(g)), Some(TerminalText(t))), IsTerminal(p, g, t))
  {
    hide AuthorityText, GrantText, TerminalText, ParseAuthority, ParseGrant, ParseTerminal;
  }

  lemma TornTerminalShows(h: BodyHash, p: AuthorityRecord, g: Grant, text: string)
    requires ParseTerminal(h, text) == None
    ensures Shows(h, Leaves(Some(AuthorityText(p)), Some(GrantText(g)), Some(text)), TornEnd(p, g))
  {
    hide AuthorityText, GrantText, TerminalText, ParseAuthority, ParseGrant, ParseTerminal;
  }

  lemma TornTerminals(h: BodyHash, p: AuthorityRecord, g: Grant, t: Terminal)
    requires TerminalValid(h, t)
    ensures forall n: nat :: n < |TerminalText(t)| ==>
      Shows(h, Leaves(Some(AuthorityText(p)), Some(GrantText(g)), Some(TerminalText(t)[..n])), TornEnd(p, g))
  {
    hide Shows, AuthorityText, GrantText, TerminalText, ParseTerminal, TerminalValid;
    forall n: nat | n < |TerminalText(t)|
      ensures Shows(h, Leaves(Some(AuthorityText(p)), Some(GrantText(g)), Some(TerminalText(t)[..n])), TornEnd(p, g))
    {
      TornTerminal(h, t, n);
      TornTerminalShows(h, p, g, TerminalText(t)[..n]);
    }
  }

  lemma TornEndIsSound(h: BodyHash, p: AuthorityRecord, g: Grant)
    requires Sound(h, IsRevoked(p, g))
    ensures Sound(h, TornEnd(p, g))
  {
    hide NewPending, AuthorityValid, GrantValid, TerminalValid;
  }

  lemma TerminalSteps(h: BodyHash, d: Leaves, l: Life, p: AuthorityRecord, g: Grant, now: int)
    requires Sound(h, l) && Shows(h, d, l) && Seen(l) == AuthorityState(p) && p.ConsumedRecord?
    requires HasGrant(l) && l.g == g && g.revoked && Unexpired(g, now)
    ensures var t := NewTerminal(h, p.digest, g.digest);
            l == IsRevoked(p, g) && d.terminal.None? && CanCreate(h, d, TerminalLeaf, TerminalText(t), l, IsTerminal(p, g, t), TornEnd(p, g), now)
  {
    hide Sound, Shows, Seen, Moves, NewTerminal, AuthorityText, GrantText, TerminalText, ParseTerminal, GrantValid, AuthorityValid, TerminalValid, Unexpired;
    var t := NewTerminal(h, p.digest, g.digest);
    RecordSeen(h, l, p);
    IssuedIsValid(h, l);
    SimpleLeaves(h, d, l);
    TerminalIsSound(h, p, g);
    TornEndIsSound(h, p, g);
    IssuedIsValid(h, IsTerminal(p, g, t));
    MoveTo(h, l, IsTerminal(p, g, t), now);
    TerminalShows(h, p, g, t);
    TornTerminals(h, p, g, t);
    TerminalTextNotEmpty(t);
  }
}
