/** The life of the authority: what the three leaves can show, and how that can change. */
module AuthorityLife {
  import opened Wrappers
  import opened Records
  import opened BootstrapCodec
  import opened AuthorityRecords

  /** The bytes of the three leaves. */
  datatype Leaves = Leaves(prepared: Option<string>, grant: Option<string>, terminal: Option<string>)

  datatype Inspection = AbsentState | InvalidState | AuthorityState(record: AuthorityRecord) | TerminalState(terminal: Terminal)

  predicate Binds(p: AuthorityRecord, g: Grant, t: Terminal) {
    && p.ConsumedRecord? && g.revoked
    && t.consumedDigest == p.digest && t.grantDigest == g.digest && g.consumedDigest == p.digest
  }

  /** What follows from the leaves that exist and the records they parse to. */
  function Classify(d: Leaves, p: Option<AuthorityRecord>, g: Option<Grant>, t: Option<Terminal>): Inspection {
    if d.prepared.None? && d.grant.None? && d.terminal.None? then AbsentState
    else if d.prepared.None? || p.None? || (d.grant.Some? && g.None?) then InvalidState
    else if d.terminal.Some? then
      if t.Some? && d.grant.Some? && g.Some? && Binds(p.value, g.value, t.value) then TerminalState(t.value) else InvalidState
    else if d.grant.Some? && !p.value.ConsumedRecord? then InvalidState
    else AuthorityState(p.value)
  }

  function ParsedAuthority(h: BodyHash, leaf: Option<string>): Option<AuthorityRecord> {
    if leaf.Some? then ParseAuthority(h, leaf.value) else None
  }

  function ParsedGrant(h: BodyHash, leaf: Option<string>): Option<Grant> {
    if leaf.Some? then ParseGrant(h, leaf.value) else None
  }

  function ParsedTerminal(h: BodyHash, leaf: Option<string>): Option<Terminal> {
    if leaf.Some? then ParseTerminal(h, leaf.value) else None
  }

  /** `_inspect_locked` on a sound file system. */
  function Inspect(h: BodyHash, d: Leaves): Inspection {
    Classify(d, ParsedAuthority(h, d.prepared), ParsedGrant(h, d.grant), ParsedTerminal(h, d.terminal))
  }

  // ---- Lives ----

  /** The stages of a life. A creation cut short leaves a leaf that can never be read again. */
  datatype Life =
    | Blank
    | TornPending
    | IsPending(p: AuthorityRecord)
    | IsPrepared(p: AuthorityRecord)
    | IsConsumed(p: AuthorityRecord)
    | TornIssue(p: AuthorityRecord)
    | IsIssued(p: AuthorityRecord, g: Grant)
    | IsRevoked(p: AuthorityRecord, g: Grant)
    | TornEnd(p: AuthorityRecord, g: Grant)
    | IsTerminal(p: AuthorityRecord, g: Grant, t: Terminal)

  predicate Unexpired(g: Grant, now: int) { g.issuedNs <= now <= g.expiresNs }

  predicate Sound(h: BodyHash, l: Life) {
    && (l.IsPending? ==> l.p == NewPending(h))
    && (l.IsPrepared? ==> l.p.PreparedRecord?)
    && (l.IsConsumed? || l.TornIssue? || l.IsIssued? || l.IsRevoked? || l.TornEnd? || l.IsTerminal? ==> l.p.ConsumedRecord?)
    && (l.Blank? || l.TornPending? || AuthorityValid(h, l.p))
    && (l.IsIssued? || l.IsRevoked? || l.TornEnd? || l.IsTerminal? ==>
          GrantValid(h, l.g) && l.g.consumedDigest == l.p.digest && (l.g.revoked <==> !l.IsIssued?))
    && (l.IsTerminal? ==> TerminalValid(h, l.t) && l.t.consumedDigest == l.p.digest && l.t.grantDigest == l.g.digest)
  }

  /** The leaves of a life: records whole, except the one that was cut short. */
  predicate Shows(h: BodyHash, d: Leaves, l: Life) {
    match l
    case Blank => d == Leaves(None, None, None)
    case TornPending => d.prepared.Some? && ParseAuthority(h, d.prepared.value).None? && d.grant.None? && d.terminal.None?
    case IsPending(p) => d == Leaves(Some(AuthorityText(p)), None, None)
    case IsPrepared(p) => d == Leaves(Some(AuthorityText(p)), None, None)
    case IsConsumed(p) => d == Leaves(Some(AuthorityText(p)), None, None)
    case TornIssue(p) =>
      d.prepared == Some(AuthorityText(p)) && d.grant.Some? && ParseGrant(h, d.grant.value).None? && d.terminal.None?
    case IsIssued(p, g) => d == Leaves(Some(AuthorityText(p)), Some(GrantText(g)), None)
    case IsRevoked(p, g) => d == Leaves(Some(AuthorityText(p)), Some(GrantText(g)), None)
    case TornEnd(p, g) =>
      d.prepared == Some(AuthorityText(p)) && d.grant == Some(GrantText(g)) && d.terminal.Some?
      && ParseTerminal(h, d.terminal.value).None?
    case IsTerminal(p, g, t) => d == Leaves(Some(AuthorityText(p)), Some(GrantText(g)), Some(TerminalText(t)))
  }

  /** What an inspection makes of a life. */
  function Seen(l: Life): Inspection {
    match l
    case Blank => AbsentState
    case TornPending => InvalidState
    case IsPending(p) => AuthorityState(p)
    case IsPrepared(p) => AuthorityState(p)
    case IsConsumed(p) => AuthorityState(p)
    case TornIssue(p) => InvalidState
    case IsIssued(p, g) => AuthorityState(p)
    case IsRevoked(p, g) => AuthorityState(p)
    case TornEnd(p, g) => InvalidState
    case IsTerminal(p, g, t) => TerminalState(t)
  }

  ghost predicate HasRecord(l: Life) { !l.Blank? && !l.TornPending? }

  ghost predicate HasGrant(l: Life) { l.IsIssued? || l.IsRevoked? || l.TornEnd? || l.IsTerminal? }

  lemma PreparedParses(h: BodyHash, d: Leaves, l: Life)
    requires Shows(h, d, l) && (HasRecord(l) ==> ParseAuthority(h, AuthorityText(l.p)) == Some(l.p))
    ensures d.prepared.Some? <==> !l.Blank?
    ensures ParsedAuthority(h, d.prepared) == if HasRecord(l) then Some(l.p) else None
  {
    hide ParseAuthority, ParseGrant, ParseTerminal, AuthorityText, GrantText, TerminalText;
  }

  lemma GrantParses(h: BodyHash, d: Leaves, l: Life)
    requires Shows(h, d, l) && (HasGrant(l) ==> ParseGrant(h, GrantText(l.g)) == Some(l.g))
    ensures d.grant.Some? <==> HasGrant(l) || l.TornIssue?
    ensures ParsedGrant(h, d.grant) == if HasGrant(l) then Some(l.g) else None
  {
    hide ParseAuthority, ParseGrant, ParseTerminal, AuthorityText, GrantText, TerminalText;
  }

  lemma TerminalParses(h: BodyHash, d: Leaves, l: Life)
    requires Shows(h, d, l) && (l.IsTerminal? ==> ParseTerminal(h, TerminalText(l.t)) == Some(l.t))
    ensures d.terminal.Some? <==> l.TornEnd? || l.IsTerminal?
    ensures ParsedTerminal(h, d.terminal) == if l.IsTerminal? then Some(l.t) else None
  {
    hide ParseAuthority, ParseGrant, ParseTerminal, AuthorityText, GrantText, TerminalText;
  }

  lemma SoundParts(h: BodyHash, l: Life)
    requires Sound(h, l)
    ensures HasRecord(l) ==> AuthorityValid(h, l.p)
    ensures HasGrant(l) ==> GrantValid(h, l.g)
    ensures l.IsTerminal? ==> TerminalValid(h, l.t)
  {
    hide NewPending, AuthorityValid, GrantValid, TerminalValid;
  }

  /** Every whole leaf parses to its record, every torn one to nothing. */
  lemma LeavesParse(h: BodyHash, d: Leaves, l: Life)
    requires Sound(h, l) && Shows(h, d, l)
    ensures d.prepared.Some? <==> !l.Blank?
    ensures ParsedAuthority(h, d.prepared) == if HasRecord(l) then Some(l.p) else None
    ensures d.grant.Some? <==> HasGrant(l) || l.TornIssue?
    ensures ParsedGrant(h, d.grant) == if HasGrant(l) then Some(l.g) else None
    ensures d.terminal.Some? <==> l.TornEnd? || l.IsTerminal?
    ensures ParsedTerminal(h, d.terminal) == if l.IsTerminal? then Some(l.t) else None
  {
    hide Sound, Shows, ParsedAuthority, ParsedGrant, ParsedTerminal, ParseAuthority, ParseGrant, ParseTerminal;
    hide AuthorityText, GrantText, TerminalText, AuthorityValid, GrantValid, TerminalValid;
    SoundParts(h, l);
    if HasRecord(l) { AuthorityReadsBack(h, l.p); }
    if HasGrant(l) { GrantReadsBack(h, l.g); }
    if l.IsTerminal? { TerminalReadsBack(h, l.t); }
    PreparedParses(h, d, l);
    GrantParses(h, d, l);
    TerminalParses(h, d, l);
  }

  /** Inspection reads a life off the bytes exactly: every record is recognised, every torn one
      is refused. */
  lemma InspectionSeesLife(h: BodyHash, d: Leaves, l: Life)
    requires Sound(h, l) && Shows(h, d, l)
    ensures Inspect(h, d) == Seen(l)
    ensures ParsedGrant(h, d.grant) == if HasGrant(l) then Some(l.g) else None
    ensures d.grant.Some? <==> HasGrant(l) || l.TornIssue?
  {
    hide *;
    LeavesParse(h, d, l);
    SoundBinds(h, l);
    ClassifySees(d, l);
    InspectIsClassify(h, d);
  }

  lemma InspectIsClassify(h: BodyHash, d: Leaves)
    ensures Inspect(h, d) == Classify(d, ParsedAuthority(h, d.prepared), ParsedGrant(h, d.grant), ParsedTerminal(h, d.terminal))
  {
    hide Classify, ParsedAuthority, ParsedGrant, ParsedTerminal;
  }

  lemma SoundBinds(h: BodyHash, l: Life)
    requires Sound(h, l)
    ensures HasGrant(l) || l.TornIssue? ==> l.p.ConsumedRecord?
    ensures l.IsTerminal? ==> Binds(l.p, l.g, l.t)
  {
    hide NewPending, AuthorityValid, GrantValid, TerminalValid;
  }

  lemma ClassifySees(d: Leaves, l: Life)
    requires d.prepared.Some? <==> !l.Blank?
    requires d.grant.Some? <==> HasGrant(l) || l.TornIssue?
    requires d.terminal.Some? <==> l.TornEnd? || l.IsTerminal?
    requires HasGrant(l) || l.TornIssue? ==> l.p.ConsumedRecord?
    requires l.IsTerminal? ==> Binds(l.p, l.g, l.t)
    ensures Classify(d, if HasRecord(l) then Some(l.p) else None, if HasGrant(l) then Some(l.g) else None,
                     if l.IsTerminal? then Some(l.t) else None) == Seen(l)
  {
    hide Binds;
  }

  // ---- Moves ----

  /** Where each operation would take a life, if its conditions are met. */
  function ReserveTarget(h: BodyHash, l: Life): Option<Life> {
    if l.Blank? then Some(IsPending(NewPending(h))) else None
  }

  datatype Executable = Executable(sha256: string, size: int, identity: string)

  /** `InertPrepareAttestation` */
  datatype Inert = Inert(supervisor: Executable, worker: Executable, ffmpeg: Executable, ffmpegVersion: string, leaseVerified: bool)

  predicate InertValid(a: Inert) {
    && IsDigest(a.supervisor.sha256) && IsDigest(a.supervisor.identity) && IsDigest(a.worker.sha256) && IsDigest(a.worker.identity)
    && IsDigest(a.ffmpeg.sha256) && IsDigest(a.ffmpeg.identity) && IsDigest(a.ffmpegVersion)
    && a.supervisor.size > 0 && a.worker.size > 0 && a.ffmpeg.size > 0
    && a.supervisor == a.worker && a.leaseVerified
  }

  /** The digest of an attestation. */
  type InertHash = f: Inert -> string | forall a :: IsDigest(f(a)) witness (a => EPOCH_DIGEST)

  function PrepareTarget(h: BodyHash, inertHash: InertHash, l: Life, expected: string, staticDigest: string, schemaDigest: string, inert: Inert): Option<Life> {
    if IsDigest(expected) && IsDigest(staticDigest) && IsDigest(schemaDigest) && InertValid(inert) && l.IsPending? && l.p.digest == expected
    then Some(IsPrepared(NewPrepared(h, staticDigest, schemaDigest, inertHash(inert)))) else None
  }

  function ConsumeTarget(h: BodyHash, l: Life, expected: string, consumed: string): Option<Life> {
    if IsDigest(expected) && IsDigest(consumed) && l.IsPrepared? && l.p.PreparedRecord? && l.p.digest == expected
    then Some(IsConsumed(NewConsumed(h, l.p, consumed))) else None
  }

  function IssueTarget(h: BodyHash, l: Life, expected: string, challenge: string, capability: string, issuedNs: int): Option<Life> {
    if IsDigest(expected) && IsDigest(challenge) && IsDigest(capability) && issuedNs > 0 && l.IsConsumed? && l.p.digest == expected
    then Some(IsIssued(l.p, NewGrant(h, expected, challenge, capability, issuedNs))) else None
  }

  function RevokeTarget(h: BodyHash, l: Life, expected: string, now: int): Option<Life> {
    if IsDigest(expected) && l.IsIssued? && l.g.digest == expected && Unexpired(l.g, now)
    then Some(IsRevoked(l.p, RevokedOf(h, l.g))) else None
  }

  function TerminalTarget(h: BodyHash, l: Life, expected: string, expectedGrant: string, now: int): Option<Life> {
    if IsDigest(expected) && IsDigest(expectedGrant) && l.IsRevoked? && l.p.digest == expected && l.g.digest == expectedGrant
       && Unexpired(l.g, now)
    then Some(IsTerminal(l.p, l.g, NewTerminal(h, expected, expectedGrant))) else None
  }

  /** What is left when the creation of a leaf is cut short. */
  function TornOf(l: Life): Option<Life> {
    match l
    case Blank => Some(TornPending)
    case IsConsumed(p) => Some(TornIssue(p))
    case IsRevoked(p, g) => Some(TornEnd(p, g))
    case _ => None
  }

  /** The whole life cycle: each life moves to the next one or is cut short there. */
  predicate Moves(h: BodyHash, a: Life, b: Life, now: int) {
    || a == b
    || (a.Blank? && (b == IsPending(NewPending(h)) || b == TornPending))
    || (a.IsPending? && b.IsPrepared? && b.p.PreparedRecord? && b.p == NewPrepared(h, b.p.staticDigest, b.p.schemaDigest, b.p.prepared))
    || (a.IsPrepared? && a.p.PreparedRecord? && b.IsConsumed? && b.p.ConsumedRecord? && b.p == NewConsumed(h, a.p, b.p.consumed))
    || (a.IsConsumed? && ((b.IsIssued? && b.p == a.p && b.g == NewGrant(h, a.p.digest, b.g.challenge, b.g.capability, b.g.issuedNs))
                          || b == TornIssue(a.p)))
    || (a.IsIssued? && b == IsRevoked(a.p, RevokedOf(h, a.g)) && Unexpired(a.g, now))
    || (a.IsRevoked? && Unexpired(a.g, now)
        && (b == IsTerminal(a.p, a.g, NewTerminal(h, a.p.digest, a.g.digest)) || b == TornEnd(a.p, a.g)))
  }

  /** A life and the clock reading at which it began. */
  datatype Moment = Moment(time: int, life: Life)

  ghost predicate Next(h: BodyHash, a: Moment, b: Moment) {
    a.time <= b.time && Moves(h, a.life, b.life, b.time)
  }

  ghost predicate Biography(h: BodyHash, history: seq<Moment>) {
    && history != [] && history[0].life.Blank?
    && (forall i :: 0 <= i < |history| ==> Sound(h, history[i].life))
    && (forall i :: 0 <= i < |history| - 1 ==> Next(h, history[i], history[i + 1]))
  }

  // ---- Targets are sound lives ----

  /** A body does not depend on the digest that is left out of it. */
  lemma BodyWithoutDigest(h: BodyHash, d: string, s: string, c: string, p: string, t: string)
    ensures AuthorityDigest(h, PendingRecord(d)) == AuthorityDigest(h, PendingRecord(""))
    ensures AuthorityDigest(h, PreparedRecord(s, p, d, t)) == AuthorityDigest(h, PreparedRecord(s, p, "", t))
    ensures AuthorityDigest(h, ConsumedRecord(s, c, p, d, t)) == AuthorityDigest(h, ConsumedRecord(s, c, p, "", t))
  {
    hide Text, IsDigest;
  }

  lemma GrantWithoutDigest(h: BodyHash, g: Grant, d: string)
    ensures GrantDigest(h, g.(digest := d)) == GrantDigest(h, g)
  {
    hide Text, IsDigest;
  }

  lemma TerminalWithoutDigest(h: BodyHash, t: Terminal, d: string)
    ensures TerminalDigest(h, t.(digest := d)) == TerminalDigest(h, t)
  {
    hide Text, IsDigest;
  }

  lemma NewPendingValid(h: BodyHash)
    ensures Sound(h, IsPending(NewPending(h)))
  {
    hide IsDigest, AuthorityDigest, GrantValid, TerminalValid;
    BodyWithoutDigest(h, NewPending(h).digest, "", "", "", "");
  }

  lemma NewPreparedValid(h: BodyHash, staticDigest: string, schemaDigest: string, inertDigest: string)
    requires IsDigest(staticDigest) && IsDigest(schemaDigest) && IsDigest(inertDigest)
    ensures var r := NewPrepared(h, staticDigest, schemaDigest, inertDigest); r.PreparedRecord? && AuthorityValid(h, r)
  {
    hide IsDigest, AuthorityDigest;
    BodyWithoutDigest(h, NewPrepared(h, staticDigest, schemaDigest, inertDigest).digest, schemaDigest, "", inertDigest, staticDigest);
  }

  lemma PrepareIsSound(h: BodyHash, staticDigest: string, schemaDigest: string, inertDigest: string)
    requires IsDigest(staticDigest) && IsDigest(schemaDigest) && IsDigest(inertDigest)
    ensures Sound(h, IsPrepared(NewPrepared(h, staticDigest, schemaDigest, inertDigest)))
  {
    hide NewPrepared, NewPending, IsDigest, AuthorityValid, GrantValid, TerminalValid;
    NewPreparedValid(h, staticDigest, schemaDigest, inertDigest);
  }

  lemma NewConsumedValid(h: BodyHash, p: AuthorityRecord, consumed: string)
    requires p.PreparedRecord? && AuthorityValid(h, p) && IsDigest(consumed)
    ensures NewConsumed(h, p, consumed).ConsumedRecord? && AuthorityValid(h, NewConsumed(h, p, consumed))
  {
    hide IsDigest, AuthorityDigest;
    BodyWithoutDigest(h, NewConsumed(h, p, consumed).digest, p.schemaDigest, consumed, p.prepared, p.staticDigest);
  }

  lemma ConsumeIsSound(h: BodyHash, p: AuthorityRecord, consumed: string)
    requires p.PreparedRecord? && AuthorityValid(h, p) && IsDigest(consumed)
    ensures Sound(h, IsConsumed(NewConsumed(h, p, consumed)))
  {
    hide NewConsumed, NewPending, IsDigest, AuthorityValid, GrantValid, TerminalValid;
    NewConsumedValid(h, p, consumed);
  }

  lemma NewGrantValid(h: BodyHash, consumedDigest: string, challenge: string, capability: string, issuedNs: int)
    requires IsDigest(consumedDigest) && IsDigest(challenge) && IsDigest(capability) && issuedNs > 0
    ensures var g := NewGrant(h, consumedDigest, challenge, capability, issuedNs);
            GrantValid(h, g) && !g.revoked && g.consumedDigest == consumedDigest
  {
    hide IsDigest, GrantDigest;
    var g := NewGrant(h, consumedDigest, challenge, capability, issuedNs);
    GrantWithoutDigest(h, g.(digest := ""), g.digest);
  }

  lemma IssueIsSound(h: BodyHash, p: AuthorityRecord, challenge: string, capability: string, issuedNs: int)
    requires p.ConsumedRecord? && AuthorityValid(h, p) && IsDigest(challenge) && IsDigest(capability) && issuedNs > 0
    ensures Sound(h, IsIssued(p, NewGrant(h, p.digest, challenge, capability, issuedNs)))
  {
    hide NewGrant, NewPending, IsDigest, AuthorityDigest, GrantValid, TerminalValid;
    NewGrantValid(h, p.digest, challenge, capability, issuedNs);
  }

  lemma RevokedValid(h: BodyHash, g: Grant)
    requires GrantValid(h, g)
    ensures var r := RevokedOf(h, g);
            GrantValid(h, r) && r.revoked && r.consumedDigest == g.consumedDigest
  {
    hide IsDigest, GrantDigest;
    GrantWithoutDigest(h, g.(revoked := true), RevokedOf(h, g).digest);
  }

  lemma RevokeIsSound(h: BodyHash, p: AuthorityRecord, g: Grant)
    requires Sound(h, IsIssued(p, g))
    ensures Sound(h, IsRevoked(p, RevokedOf(h, g)))
  {
    hide RevokedOf, NewPending, AuthorityValid, GrantValid, TerminalValid;
    RevokedValid(h, g);
  }

  lemma NewTerminalValid(h: BodyHash, consumedDigest: string, grantDigest: string)
    requires IsDigest(consumedDigest) && IsDigest(grantDigest)
    ensures var t := NewTerminal(h, consumedDigest, grantDigest);
            TerminalValid(h, t) && t.consumedDigest == consumedDigest && t.grantDigest == grantDigest
  {
    hide IsDigest, TerminalDigest;
    var t := NewTerminal(h, consumedDigest, grantDigest);
    TerminalWithoutDigest(h, t.(digest := ""), t.digest);
  }

  lemma TerminalIsSound(h: BodyHash, p: AuthorityRecord, g: Grant)
    requires Sound(h, IsRevoked(p, g))
    ensures Sound(h, IsTerminal(p, g, NewTerminal(h, p.digest, g.digest)))
  {
    hide NewTerminal, NewPending, IsDigest, AuthorityDigest, GrantDigest, TerminalValid;
    NewTerminalValid(h, p.digest, g.digest);
  }
}
