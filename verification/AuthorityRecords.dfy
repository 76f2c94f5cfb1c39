/** The three records of the authority store: their contents, their digests and their texts. */
module AuthorityRecords {
  import opened Wrappers
  import opened Json
  import opened Records
  import opened BootstrapCodec

  /** SHA-256 of a canonical body. */
  type BodyHash = f: string -> string | forall s :: IsDigest(f(s)) witness (s => EPOCH_DIGEST)

  const TTL_NS: int := 300_000_000_000

  /** The digests a record carries depend on its phase. */
  datatype AuthorityRecord =
    | PendingRecord(digest: string)
    | PreparedRecord(schemaDigest: string, prepared: string, digest: string, staticDigest: string)
    | ConsumedRecord(schemaDigest: string, consumed: string, prepared: string, digest: string, staticDigest: string)

  datatype Grant = Grant(
    revoked: bool, consumedDigest: string, challenge: string, capability: string, issuedNs: int, expiresNs: int, digest: string)

  datatype Terminal = Terminal(consumedDigest: string, grantDigest: string, digest: string)

  const PENDING_KEYS: seq<string> := ["authority_revision", "record_digest", "schema_version", "state"]
  const PREPARED_KEYS: seq<string> := [
    "authority_revision", "binding_schema_digest", "prepared_binding_digest", "record_digest", "schema_version", "state",
    "static_bindings_digest"]
  const CONSUMED_KEYS: seq<string> := [
    "authority_revision", "binding_schema_digest", "consumed_binding_digest", "prepared_binding_digest", "record_digest",
    "schema_version", "state", "static_bindings_digest"]
  const GRANT_KEYS: seq<string> := [
    "capability_digest", "challenge_digest", "consumed_record_digest", "expires_monotonic_ns", "issued_monotonic_ns",
    "record_digest", "schema_version", "state"]
  const TERMINAL_KEYS: seq<string> := [
    "authority_revision", "consumed_record_digest", "record_digest", "revoked_grant_digest", "schema_version", "state",
    "terminal_code"]

  function AuthorityKeys(r: AuthorityRecord): seq<string> {
    match r
    case PendingRecord(_) => PENDING_KEYS
    case PreparedRecord(_, _, _, _) => PREPARED_KEYS
    case ConsumedRecord(_, _, _, _, _) => CONSUMED_KEYS
  }

  function AuthorityValues(r: AuthorityRecord): (v: seq<Value>)
    ensures |v| == |AuthorityKeys(r)|
  {
    match r
    case PendingRecord(d) => [Str(AUTHORITY_REVISION), Str(d), Int(3), Str("PENDING")]
    case PreparedRecord(s, p, d, t) =>
      [Str(AUTHORITY_REVISION), Str(s), Str(p), Str(d), Int(3), Str("PREPARED"), Str(t)]
    case ConsumedRecord(s, c, p, d, t) =>
      [Str(AUTHORITY_REVISION), Str(s), Str(c), Str(p), Str(d), Int(3), Str("CONSUMED"), Str(t)]
  }

  function GrantValues(g: Grant): (v: seq<Value>)
    ensures |v| == 8
  {
    [Str(g.capability), Str(g.challenge), Str(g.consumedDigest), Int(g.expiresNs), Int(g.issuedNs),
     Str(g.digest), Int(2), Str(if g.revoked then "REVOKED" else "ISSUED")]
  }

  function TerminalValues(t: Terminal): (v: seq<Value>)
    ensures |v| == 7
  {
    [Str(AUTHORITY_REVISION), Str(t.consumedDigest), Str(t.digest), Str(t.grantDigest), Int(3), Str("TERMINAL"),
     Str("NONLAUNCHING_NO_GO")]
  }

  function AuthorityText(r: AuthorityRecord): string { Text(AuthorityKeys(r), AuthorityValues(r)) }

  function GrantText(g: Grant): string { Text(GRANT_KEYS, GrantValues(g)) }

  function TerminalText(t: Terminal): string { Text(TERMINAL_KEYS, TerminalValues(t)) }

  // ---- Bodies and digests ----

  const PENDING_BODY_KEYS: seq<string> := ["authority_revision", "schema_version", "state"]
  const PREPARED_BODY_KEYS: seq<string> := [
    "authority_revision", "binding_schema_digest", "prepared_binding_digest", "schema_version", "state", "static_bindings_digest"]
  const CONSUMED_BODY_KEYS: seq<string> := [
    "authority_revision", "binding_schema_digest", "consumed_binding_digest", "prepared_binding_digest", "schema_version",
    "state", "static_bindings_digest"]
  const GRANT_BODY_KEYS: seq<string> := [
    "capability_digest", "challenge_digest", "consumed_record_digest", "expires_monotonic_ns", "issued_monotonic_ns",
    "schema_version", "state"]
  const TERMINAL_BODY_KEYS: seq<string> := [
    "authority_revision", "consumed_record_digest", "revoked_grant_digest", "schema_version", "state", "terminal_code"]

  /** The body of a record is the record without its own digest. */
  function AuthorityBody(r: AuthorityRecord): string {
    match r
    case PendingRecord(_) => Text(PENDING_BODY_KEYS, [Str(AUTHORITY_REVISION), Int(3), Str("PENDING")])
    case PreparedRecord(s, p, _, t) =>
      Text(PREPARED_BODY_KEYS, [Str(AUTHORITY_REVISION), Str(s), Str(p), Int(3), Str("PREPARED"), Str(t)])
    case ConsumedRecord(s, c, p, _, t) =>
      Text(CONSUMED_BODY_KEYS, [Str(AUTHORITY_REVISION), Str(s), Str(c), Str(p), Int(3), Str("CONSUMED"), Str(t)])
  }

  function GrantBody(g: Grant): string {
    Text(GRANT_BODY_KEYS, [Str(g.capability), Str(g.challenge), Str(g.consumedDigest), Int(g.expiresNs), Int(g.issuedNs), Int(2),
                           Str(if g.revoked then "REVOKED" else "ISSUED")])
  }

  function TerminalBody(t: Terminal): string {
    Text(TERMINAL_BODY_KEYS, [Str(AUTHORITY_REVISION), Str(t.consumedDigest), Str(t.grantDigest), Int(3), Str("TERMINAL"),
                              Str("NONLAUNCHING_NO_GO")])
  }

  function AuthorityDigest(h: BodyHash, r: AuthorityRecord): (d: string)
    ensures IsDigest(d)
  {
    h(AuthorityBody(r))
  }

  function GrantDigest(h: BodyHash, g: Grant): (d: string)
    ensures IsDigest(d)
  {
    h(GrantBody(g))
  }

  function TerminalDigest(h: BodyHash, t: Terminal): (d: string)
    ensures IsDigest(d)
  {
    h(TerminalBody(t))
  }

  // ---- New records ----

  function NewPending(h: BodyHash): AuthorityRecord {
    PendingRecord(AuthorityDigest(h, PendingRecord("")))
  }

  function NewPrepared(h: BodyHash, staticDigest: string, schemaDigest: string, inertDigest: string): AuthorityRecord {
    PreparedRecord(schemaDigest, inertDigest, AuthorityDigest(h, PreparedRecord(schemaDigest, inertDigest, "", staticDigest)), staticDigest)
  }

  function NewConsumed(h: BodyHash, p: AuthorityRecord, consumed: string): AuthorityRecord
    requires p.PreparedRecord?
  {
    var body := ConsumedRecord(p.schemaDigest, consumed, p.prepared, "", p.staticDigest);
    ConsumedRecord(p.schemaDigest, consumed, p.prepared, AuthorityDigest(h, body), p.staticDigest)
  }

  function NewGrant(h: BodyHash, consumedDigest: string, challenge: string, capability: string, issuedNs: int): Grant {
    var g := Grant(false, consumedDigest, challenge, capability, issuedNs, issuedNs + TTL_NS, "");
    g.(digest := GrantDigest(h, g))
  }

  function RevokedOf(h: BodyHash, g: Grant): Grant {
    var r := g.(revoked := true);
    r.(digest := GrantDigest(h, r))
  }

  function NewTerminal(h: BodyHash, consumedDigest: string, grantDigest: string): Terminal {
    var t := Terminal(consumedDigest, grantDigest, "");
    t.(digest := TerminalDigest(h, t))
  }

  // ---- Parsing ----

  predicate AuthorityValid(h: BodyHash, r: AuthorityRecord) {
    && IsDigest(r.digest) && r.digest == AuthorityDigest(h, r)
    && (r.PreparedRecord? ==> IsDigest(r.schemaDigest) && IsDigest(r.prepared) && IsDigest(r.staticDigest))
    && (r.ConsumedRecord? ==> IsDigest(r.schemaDigest) && IsDigest(r.prepared) && IsDigest(r.staticDigest) && IsDigest(r.consumed))
  }

  predicate GrantValid(h: BodyHash, g: Grant) {
    && g.issuedNs > 0 && g.expiresNs == g.issuedNs + TTL_NS
    && IsDigest(g.consumedDigest) && IsDigest(g.challenge) && IsDigest(g.capability) && IsDigest(g.digest)
    && g.digest == GrantDigest(h, g)
  }

  predicate TerminalValid(h: BodyHash, t: Terminal) {
    IsDigest(t.consumedDigest) && IsDigest(t.grantDigest) && IsDigest(t.digest) && t.digest == TerminalDigest(h, t)
  }

  /** The text of a value that should be a string. */
  function TextOf(v: Value): string { if v.Str? then v.text else "" }

  function NumberOf(v: Value): int { if v.Int? then v.number else 0 }

  /** The record of the values, which counts only if these are its own values again. */
  function AuthorityOf(v: seq<Value>): AuthorityRecord
    requires |v| == 4 || |v| == 7 || |v| == 8
  {
    if |v| == 4 then PendingRecord(TextOf(v[1]))
    else if |v| == 7 then PreparedRecord(TextOf(v[1]), TextOf(v[2]), TextOf(v[3]), TextOf(v[6]))
    else ConsumedRecord(TextOf(v[1]), TextOf(v[2]), TextOf(v[3]), TextOf(v[4]), TextOf(v[7]))
  }

  function AuthorityFrom(h: BodyHash, read: Option<seq<Value>>): Option<AuthorityRecord>
    requires read.Some? ==> |read.value| == 4 || |read.value| == 7 || |read.value| == 8
  {
    if read.None? then None
    else
      var r := AuthorityOf(read.value);
      if AuthorityValues(r) == read.value && AuthorityValid(h, r) then Some(r) else None
  }

  /** `_parse_authority_record` of what is read. */
  function ParseAuthority(h: BodyHash, payload: string): Option<AuthorityRecord> {
    var pending, prepared, consumed := ReadRecord(payload, PENDING_KEYS), ReadRecord(payload, PREPARED_KEYS), ReadRecord(payload, CONSUMED_KEYS);
    AuthorityFrom(h, if pending.Some? then pending else if prepared.Some? then prepared else consumed)
  }

  /** `_parse_grant` */
  function ParseGrant(h: BodyHash, payload: string): Option<Grant> {
    match ReadRecord(payload, GRANT_KEYS)
    case None => None
    case Some(v) =>
      var g := Grant(v[7] == Str("REVOKED"), TextOf(v[2]), TextOf(v[1]), TextOf(v[0]), NumberOf(v[4]), NumberOf(v[3]), TextOf(v[5]));
      if GrantValues(g) == v && GrantValid(h, g) then Some(g) else None
  }

  /** `_parse_terminal` */
  function ParseTerminal(h: BodyHash, payload: string): Option<Terminal> {
    match ReadRecord(payload, TERMINAL_KEYS)
    case None => None
    case Some(v) =>
      var t := Terminal(TextOf(v[1]), TextOf(v[3]), TextOf(v[2]));
      if TerminalValues(t) == v && TerminalValid(h, t) then Some(t) else None
  }

  // ---- Keys ----

  lemma KeyPiecesA()
    ensures Plain("authority_revision") && Plain("record_digest") && Plain("schema_version") && Plain("state")
  {
  }

  lemma KeyPiecesB()
    ensures Plain("binding_schema_digest") && Plain("prepared_binding_digest") && Plain("static_bindings_digest")
  {
  }

  lemma KeyPiecesC()
    ensures Plain("consumed_binding_digest") && Plain("capability_digest") && Plain("challenge_digest")
  {
  }

  lemma KeyPiecesD()
    ensures Plain("consumed_record_digest") && Plain("expires_monotonic_ns") && Plain("issued_monotonic_ns")
  {
  }

  lemma KeyPiecesE()
    ensures Plain("revoked_grant_digest") && Plain("terminal_code") && Plain("NONLAUNCHING_NO_GO")
  {
  }

  lemma NamesPlain()
    ensures Plain("PENDING") && Plain("PREPARED") && Plain("CONSUMED") && Plain("TERMINAL") && Plain("ISSUED") && Plain("REVOKED")
  {
  }

  lemma PendingKeys()
    ensures AllPlain(PENDING_KEYS) && Ascending(PENDING_KEYS)
  {
    KeyPiecesA();
    var k := PENDING_KEYS;
    assert LessAt(k[0], k[1], 0) && LessAt(k[1], k[2], 0) && LessAt(k[2], k[3], 1);
    hide Plain, LessAt;
  }

  lemma PreparedKeys()
    ensures AllPlain(PREPARED_KEYS) && Ascending(PREPARED_KEYS)
  {
    KeyPiecesA();
    KeyPiecesB();
    var k := PREPARED_KEYS;
    assert LessAt(k[0], k[1], 0) && LessAt(k[1], k[2], 0) && LessAt(k[2], k[3], 0) && LessAt(k[3], k[4], 0)
      && LessAt(k[4], k[5], 1) && LessAt(k[5], k[6], 4);
    hide Plain, LessAt;
  }

  lemma ConsumedKeys()
    ensures AllPlain(CONSUMED_KEYS) && Ascending(CONSUMED_KEYS)
  {
    KeyPiecesA();
    KeyPiecesB();
    KeyPiecesC();
    var k := CONSUMED_KEYS;
    assert LessAt(k[0], k[1], 0) && LessAt(k[1], k[2], 0) && LessAt(k[2], k[3], 0) && LessAt(k[3], k[4], 0)
      && LessAt(k[4], k[5], 0) && LessAt(k[5], k[6], 1) && LessAt(k[6], k[7], 4);
    hide Plain, LessAt;
  }

  lemma GrantKeys()
    ensures AllPlain(GRANT_KEYS) && Ascending(GRANT_KEYS)
  {
    KeyPiecesA();
    KeyPiecesC();
    KeyPiecesD();
    var k := GRANT_KEYS;
    assert LessAt(k[0], k[1], 1) && LessAt(k[1], k[2], 1) && LessAt(k[2], k[3], 0) && LessAt(k[3], k[4], 0)
      && LessAt(k[4], k[5], 0) && LessAt(k[5], k[6], 0) && LessAt(k[6], k[7], 1);
    hide Plain, LessAt;
  }

  lemma TerminalKeys()
    ensures AllPlain(TERMINAL_KEYS) && Ascending(TERMINAL_KEYS)
  {
    KeyPiecesA();
    KeyPiecesD();
    KeyPiecesE();
    var k := TERMINAL_KEYS;
    assert LessAt(k[0], k[1], 0) && LessAt(k[1], k[2], 0) && LessAt(k[2], k[3], 2) && LessAt(k[3], k[4], 0)
      && LessAt(k[4], k[5], 1) && LessAt(k[5], k[6], 0);
    hide Plain, LessAt;
  }

  // ---- Records are read back, and torn ones are not ----

  lemma AuthorityKeysOrdered(r: AuthorityRecord)
    ensures AllPlain(AuthorityKeys(r)) && Ascending(AuthorityKeys(r))
  {
    PendingKeys();
    PreparedKeys();
    ConsumedKeys();
    hide AllPlain, Ascending;
  }

  lemma DigestsGood()
    ensures forall s: string :: IsDigest(s) ==> Good(Str(s))
  {
    hide Good, Plain, IsDigest;
    forall s: string | IsDigest(s) ensures Good(Str(s)) {
      DigestPlain(s);
      StrGood(s);
    }
  }

  lemma ConstantsGood()
    ensures Good(Str(AUTHORITY_REVISION)) && Good(Str("PENDING")) && Good(Str("PREPARED")) && Good(Str("CONSUMED")) && Good(Int(3))
  {
    hide Good, Plain;
    NamesPlain();
    BundleConstantsPlain();
    StrGood(AUTHORITY_REVISION);
    StrGood("PENDING");
    StrGood("PREPARED");
    StrGood("CONSUMED");
    ScalarGood(Int(3));
  }

  lemma PendingValuesGood(r: AuthorityRecord)
    requires r.PendingRecord? && IsDigest(r.digest)
    ensures AllGood(AuthorityValues(r))
  {
    hide Good, Plain, IsDigest;
    ConstantsGood();
    DigestsGood();
  }

  lemma PreparedValuesGood(r: AuthorityRecord)
    requires r.PreparedRecord? && IsDigest(r.digest) && IsDigest(r.schemaDigest) && IsDigest(r.prepared) && IsDigest(r.staticDigest)
    ensures AllGood(AuthorityValues(r))
  {
    hide Good, Plain, IsDigest;
    ConstantsGood();
    DigestsGood();
  }

  lemma ConsumedValuesGood(r: AuthorityRecord)
    requires r.ConsumedRecord? && IsDigest(r.digest) && IsDigest(r.schemaDigest) && IsDigest(r.prepared) && IsDigest(r.staticDigest)
    requires IsDigest(r.consumed)
    ensures AllGood(AuthorityValues(r))
  {
    hide Good, Plain, IsDigest;
    ConstantsGood();
    DigestsGood();
  }

  lemma AuthorityValuesGood(h: BodyHash, r: AuthorityRecord)
    requires AuthorityValid(h, r)
    ensures AllGood(AuthorityValues(r))
  {
    hide AllGood, AuthorityValues, IsDigest, AuthorityDigest;
    if r.PendingRecord? {
      PendingValuesGood(r);
    } else if r.PreparedRecord? {
      PreparedValuesGood(r);
    } else {
      ConsumedValuesGood(r);
    }
  }

  lemma GrantValuesGood(h: BodyHash, g: Grant)
    requires GrantValid(h, g)
    ensures AllGood(GrantValues(g))
  {
    hide Good, Plain, IsDigest, GrantDigest;
    NamesPlain();
    DigestsGood();
    StrGood("ISSUED");
    StrGood("REVOKED");
    ScalarGood(Int(g.expiresNs));
    ScalarGood(Int(g.issuedNs));
    ScalarGood(Int(2));
  }

  lemma TerminalValuesGood(h: BodyHash, t: Terminal)
    requires TerminalValid(h, t)
    ensures AllGood(TerminalValues(t))
  {
    hide Good, Plain, IsDigest, TerminalDigest;
    NamesPlain();
    KeyPiecesE();
    BundleConstantsPlain();
    DigestsGood();
    StrGood(AUTHORITY_REVISION);
    StrGood("TERMINAL");
    StrGood("NONLAUNCHING_NO_GO");
    ScalarGood(Int(3));
  }

  lemma {:induction false} BuildKeys(keys: seq<string>, values: seq<Value>, others: seq<string>)
    requires |keys| == |values|
    ensures Take(Build(keys, values), others).Some? ==> |others| == |keys|
  {
    if keys != [] && others != [] { BuildKeys(keys[1..], values[1..], others[1..]); }
  }

  /** A record is not read as a record with another number of keys. */
  lemma OtherLength(keys: seq<string>, values: seq<Value>, others: seq<string>)
    requires |keys| == |values| && |others| != |keys| && AllPlain(keys) && Ascending(keys) && AllGood(values)
    ensures ReadRecord(Text(keys, values), others) == None
  {
    BuildIsCanonical(keys, values);
    DecodeIsExact(Text(keys, values), Build(keys, values));
    BuildKeys(keys, values, others);
    hide AllPlain, Ascending, AllGood, Take, Decode;
  }

  /** Of the three readings of an authority record's text only its own succeeds. */
  lemma AuthorityReads(h: BodyHash, r: AuthorityRecord)
    requires AuthorityValid(h, r)
    ensures ReadRecord(AuthorityText(r), AuthorityKeys(r)) == Some(AuthorityValues(r))
    ensures !r.PendingRecord? ==> ReadRecord(AuthorityText(r), PENDING_KEYS) == None
    ensures !r.PreparedRecord? ==> ReadRecord(AuthorityText(r), PREPARED_KEYS) == None
    ensures |AuthorityKeys(r)| == if r.PendingRecord? then 4 else if r.PreparedRecord? then 7 else 8
  {
    hide AllPlain, Ascending, AllGood, ReadRecord, Text, AuthorityValid, AuthorityValues;
    AuthorityKeysOrdered(r);
    AuthorityValuesGood(h, r);
    ReadIsExact(AuthorityText(r), AuthorityKeys(r), AuthorityValues(r));
    if !r.PendingRecord? { OtherLength(AuthorityKeys(r), AuthorityValues(r), PENDING_KEYS); }
    if !r.PreparedRecord? { OtherLength(AuthorityKeys(r), AuthorityValues(r), PREPARED_KEYS); }
  }

  lemma AuthorityOfValues(r: AuthorityRecord)
    ensures AuthorityOf(AuthorityValues(r)) == r
  {
    match r
    case PendingRecord(_) =>
    case PreparedRecord(_, _, _, _) =>
    case ConsumedRecord(_, _, _, _, _) =>
  }

  lemma AuthorityOfOwn(h: BodyHash, r: AuthorityRecord)
    requires AuthorityValid(h, r)
    ensures |AuthorityValues(r)| == 4 || |AuthorityValues(r)| == 7 || |AuthorityValues(r)| == 8
    ensures AuthorityFrom(h, Some(AuthorityValues(r))) == Some(r)
  {
    AuthorityOfValues(r);
    hide AuthorityValid, AuthorityOf, AuthorityValues;
  }

  lemma AuthorityReadsBack(h: BodyHash, r: AuthorityRecord)
    requires AuthorityValid(h, r)
    ensures ParseAuthority(h, AuthorityText(r)) == Some(r)
  {
    hide ReadRecord, AuthorityText, AuthorityValid, AuthorityValues, AuthorityFrom;
    AuthorityReads(h, r);
    AuthorityOfOwn(h, r);
  }

  lemma GrantReadsBack(h: BodyHash, g: Grant)
    requires GrantValid(h, g)
    ensures ParseGrant(h, GrantText(g)) == Some(g)
  {
    hide AllPlain, Ascending, AllGood, ReadRecord, Text, GrantValid;
    GrantKeys();
    GrantValuesGood(h, g);
    ReadIsExact(GrantText(g), GRANT_KEYS, GrantValues(g));
  }

  lemma TerminalReadsBack(h: BodyHash, t: Terminal)
    requires TerminalValid(h, t)
    ensures ParseTerminal(h, TerminalText(t)) == Some(t)
  {
    hide AllPlain, Ascending, AllGood, ReadRecord, Text, TerminalValid;
    TerminalKeys();
    TerminalValuesGood(h, t);
    ReadIsExact(TerminalText(t), TERMINAL_KEYS, TerminalValues(t));
  }

  lemma TextNotEmpty(keys: seq<string>, values: seq<Value>)
    requires |keys| == |values|
    ensures Text(keys, values) != ""
  {
  }

  // No text is empty, so each can be cut short.

  lemma AuthorityTextNotEmpty(r: AuthorityRecord)
    ensures AuthorityText(r) != ""
  {
    hide Text, AuthorityKeys, AuthorityValues;
    TextNotEmpty(AuthorityKeys(r), AuthorityValues(r));
  }

  lemma GrantTextNotEmpty(g: Grant)
    ensures GrantText(g) != ""
  {
    hide Text, GrantValues;
    TextNotEmpty(GRANT_KEYS, GrantValues(g));
  }

  lemma TerminalTextNotEmpty(t: Terminal)
    ensures TerminalText(t) != ""
  {
    hide Text, TerminalValues;
    TextNotEmpty(TERMINAL_KEYS, TerminalValues(t));
  }

  lemma TornAuthority(h: BodyHash, r: AuthorityRecord, n: nat)
    requires AuthorityValid(h, r) && n < |AuthorityText(r)|
    ensures ParseAuthority(h, AuthorityText(r)[..n]) == None
  {
    hide AllPlain, Ascending, AllGood, ReadRecord, Text, AuthorityValid;
    AuthorityKeysOrdered(r);
    AuthorityValuesGood(h, r);
    TornIsNotARecord(AuthorityKeys(r), AuthorityValues(r), n, PENDING_KEYS);
    TornIsNotARecord(AuthorityKeys(r), AuthorityValues(r), n, PREPARED_KEYS);
    TornIsNotARecord(AuthorityKeys(r), AuthorityValues(r), n, CONSUMED_KEYS);
  }

  lemma TornGrant(h: BodyHash, g: Grant, n: nat)
    requires GrantValid(h, g) && n < |GrantText(g)|
    ensures ParseGrant(h, GrantText(g)[..n]) == None
  {
    hide AllPlain, Ascending, AllGood, ReadRecord, Text, GrantValid;
    GrantKeys();
    GrantValuesGood(h, g);
    TornIsNotARecord(GRANT_KEYS, GrantValues(g), n, GRANT_KEYS);
  }

  lemma TornTerminal(h: BodyHash, t: Terminal, n: nat)
    requires TerminalValid(h, t) && n < |TerminalText(t)|
    ensures ParseTerminal(h, TerminalText(t)[..n]) == None
  {
    hide AllPlain, Ascending, AllGood, ReadRecord, Text, TerminalValid;
    TerminalKeys();
    TerminalValuesGood(h, t);
    TornIsNotARecord(TERMINAL_KEYS, TerminalValues(t), n, TERMINAL_KEYS);
  }
}
