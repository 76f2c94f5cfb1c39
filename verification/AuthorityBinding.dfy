/** What a record digest binds: every field of a record but the digest itself. */
module AuthorityBinding {
  import opened Wrappers
  import opened Json
  import opened Records
  import opened BootstrapCodec
  import opened AuthorityRecords

  /** No two bodies have one digest. */
  ghost predicate Injective(h: BodyHash) {
    forall a, b :: h(a) == h(b) ==> a == b
  }

  // ---- Members by name ----

  function GrantObject(g: Grant): Members { Build(GRANT_KEYS, GrantValues(g)) }

  function TerminalObject(t: Terminal): Members { Build(TERMINAL_KEYS, TerminalValues(t)) }

  function AuthorityObject(r: AuthorityRecord): Members { Build(AuthorityKeys(r), AuthorityValues(r)) }

  lemma DistinctKeys(i: nat)
    ensures i < 8 ==> GRANT_KEYS[i] !in GRANT_KEYS[..i] && CONSUMED_KEYS[i] !in CONSUMED_KEYS[..i]
    ensures i < 7 ==> TERMINAL_KEYS[i] !in TERMINAL_KEYS[..i] && PREPARED_KEYS[i] !in PREPARED_KEYS[..i]
    ensures i < 4 ==> PENDING_KEYS[i] !in PENDING_KEYS[..i]
  {
  }

  /** The member of each name in a grant's text. */
  lemma GrantMembers(g: Grant)
    ensures GrantText(g) == Encode(Obj(GrantObject(g)))
    ensures Lookup(GrantObject(g), "capability_digest") == Some(Str(g.capability))
    ensures Lookup(GrantObject(g), "challenge_digest") == Some(Str(g.challenge))
    ensures Lookup(GrantObject(g), "consumed_record_digest") == Some(Str(g.consumedDigest))
    ensures Lookup(GrantObject(g), "expires_monotonic_ns") == Some(Int(g.expiresNs))
    ensures Lookup(GrantObject(g), "issued_monotonic_ns") == Some(Int(g.issuedNs))
    ensures Lookup(GrantObject(g), "record_digest") == Some(Str(g.digest))
    ensures Lookup(GrantObject(g), "schema_version") == Some(Int(2))
    ensures Lookup(GrantObject(g), "state") == Some(Str(if g.revoked then "REVOKED" else "ISSUED"))
  {
    hide Encode, Build, Lookup;
    forall i: nat | i < 8 ensures Lookup(GrantObject(g), GRANT_KEYS[i]) == Some(GrantValues(g)[i]) {
      DistinctKeys(i);
      LookupAt(GRANT_KEYS, GrantValues(g), i);
    }
    var k := GRANT_KEYS;
    assert k[0] == "capability_digest" && k[1] == "challenge_digest" && k[2] == "consumed_record_digest" && k[3] == "expires_monotonic_ns";
    assert k[4] == "issued_monotonic_ns" && k[5] == "record_digest" && k[6] == "schema_version" && k[7] == "state";
  }

  lemma TerminalMembers(t: Terminal)
    ensures TerminalText(t) == Encode(Obj(TerminalObject(t)))
    ensures Lookup(TerminalObject(t), "authority_revision") == Some(Str("d1-n2-authority-v1"))
    ensures Lookup(TerminalObject(t), "consumed_record_digest") == Some(Str(t.consumedDigest))
    ensures Lookup(TerminalObject(t), "record_digest") == Some(Str(t.digest))
    ensures Lookup(TerminalObject(t), "revoked_grant_digest") == Some(Str(t.grantDigest))
    ensures Lookup(TerminalObject(t), "schema_version") == Some(Int(3))
    ensures Lookup(TerminalObject(t), "state") == Some(Str("TERMINAL"))
    ensures Lookup(TerminalObject(t), "terminal_code") == Some(Str("NONLAUNCHING_NO_GO"))
  {
    hide Encode, Build, Lookup;
    forall i: nat | i < 7 ensures Lookup(TerminalObject(t), TERMINAL_KEYS[i]) == Some(TerminalValues(t)[i]) {
      DistinctKeys(i);
      LookupAt(TERMINAL_KEYS, TerminalValues(t), i);
    }
    var k := TERMINAL_KEYS;
    assert k[0] == "authority_revision" && k[1] == "consumed_record_digest" && k[2] == "record_digest" && k[3] == "revoked_grant_digest";
    assert k[4] == "schema_version" && k[5] == "state" && k[6] == "terminal_code";
  }

  function StateName(r: AuthorityRecord): string {
    match r
    case PendingRecord(_) => "PENDING"
    case PreparedRecord(_, _, _, _) => "PREPARED"
    case ConsumedRecord(_, _, _, _, _) => "CONSUMED"
  }

  /** The member of each name in an authority record's text. */
  lemma AuthorityMembers(r: AuthorityRecord)
    ensures AuthorityText(r) == Encode(Obj(AuthorityObject(r)))
    ensures Lookup(AuthorityObject(r), "authority_revision") == Some(Str("d1-n2-authority-v1"))
    ensures Lookup(AuthorityObject(r), "schema_version") == Some(Int(3))
    ensures Lookup(AuthorityObject(r), "state") == Some(Str(StateName(r)))
    ensures Lookup(AuthorityObject(r), "record_digest") == Some(Str(r.digest))
    ensures r.PreparedRecord? || r.ConsumedRecord? ==>
      && Lookup(AuthorityObject(r), "static_bindings_digest") == Some(Str(r.staticDigest))
      && Lookup(AuthorityObject(r), "binding_schema_digest") == Some(Str(r.schemaDigest))
      && Lookup(AuthorityObject(r), "prepared_binding_digest") == Some(Str(r.prepared))
    ensures r.ConsumedRecord? ==> Lookup(AuthorityObject(r), "consumed_binding_digest") == Some(Str(r.consumed))
  {
    hide Encode, Build, Lookup;
    var keys, values := AuthorityKeys(r), AuthorityValues(r);
    forall i: nat | i < |keys| ensures Lookup(AuthorityObject(r), keys[i]) == Some(values[i]) {
      DistinctKeys(i);
      LookupAt(keys, values, i);
    }
    match r
    case PendingRecord(_) =>
      assert keys[0] == "authority_revision" && keys[1] == "record_digest" && keys[2] == "schema_version" && keys[3] == "state";
    case PreparedRecord(_, _, _, _) =>
      assert keys[0] == "authority_revision" && keys[1] == "binding_schema_digest" && keys[2] == "prepared_binding_digest";
      assert keys[3] == "record_digest" && keys[4] == "schema_version" && keys[5] == "state" && keys[6] == "static_bindings_digest";
    case ConsumedRecord(_, _, _, _, _) =>
      assert keys[0] == "authority_revision" && keys[1] == "binding_schema_digest" && keys[2] == "consumed_binding_digest";
      assert keys[3] == "prepared_binding_digest" && keys[4] == "record_digest" && keys[5] == "schema_version";
      assert keys[6] == "state" && keys[7] == "static_bindings_digest";
  }

  // ---- The body is the record without its digest ----

  lemma GrantBodyLacksDigest(g: Grant)
    ensures GrantBody(g) == Encode(Obj(Without(GrantObject(g), "record_digest")))
  {
    hide Encode, Build, Without;
    var k, v := GRANT_KEYS, GrantValues(g);
    DistinctKeys(5);
    assert k[5] == "record_digest";
    WithoutAt(k, v, 5);
    assert k[..5] + k[6..] == GRANT_BODY_KEYS;
    assert v[..5] + v[6..] == [v[0], v[1], v[2], v[3], v[4], v[6], v[7]];
  }

  lemma TerminalBodyLacksDigest(t: Terminal)
    ensures TerminalBody(t) == Encode(Obj(Without(TerminalObject(t), "record_digest")))
  {
    hide Encode, Build, Without;
    var k, v := TERMINAL_KEYS, TerminalValues(t);
    DistinctKeys(2);
    assert k[2] == "record_digest";
    WithoutAt(k, v, 2);
    assert k[..2] + k[3..] == TERMINAL_BODY_KEYS;
    assert v[..2] + v[3..] == [v[0], v[1], v[3], v[4], v[5], v[6]];
  }

  lemma AuthorityBodyLacksDigest(r: AuthorityRecord)
    ensures AuthorityBody(r) == Encode(Obj(Without(AuthorityObject(r), "record_digest")))
  {
    hide Encode, Build, Without;
    var k, v := AuthorityKeys(r), AuthorityValues(r);
    match r
    case PendingRecord(_) =>
      DistinctKeys(1);
      assert k[1] == "record_digest";
      WithoutAt(k, v, 1);
      assert k[..1] + k[2..] == PENDING_BODY_KEYS;
      assert v[..1] + v[2..] == [v[0], v[2], v[3]];
    case PreparedRecord(_, _, _, _) =>
      DistinctKeys(3);
      assert k[3] == "record_digest";
      WithoutAt(k, v, 3);
      assert k[..3] + k[4..] == PREPARED_BODY_KEYS;
      assert v[..3] + v[4..] == [v[0], v[1], v[2], v[4], v[5], v[6]];
    case ConsumedRecord(_, _, _, _, _) =>
      DistinctKeys(4);
      assert k[4] == "record_digest";
      WithoutAt(k, v, 4);
      assert k[..4] + k[5..] == CONSUMED_BODY_KEYS;
      assert v[..4] + v[5..] == [v[0], v[1], v[2], v[3], v[5], v[6], v[7]];
  }

  // ---- The body determines the record ----

  ghost predicate GrantPlain(g: Grant) {
    IsDigest(g.consumedDigest) && IsDigest(g.challenge) && IsDigest(g.capability)
  }

  ghost predicate AuthorityPlain(r: AuthorityRecord) {
    && (r.PreparedRecord? || r.ConsumedRecord? ==> IsDigest(r.schemaDigest) && IsDigest(r.prepared) && IsDigest(r.staticDigest))
    && (r.ConsumedRecord? ==> IsDigest(r.consumed))
  }

  lemma GrantBodyKeys()
    ensures AllPlain(GRANT_BODY_KEYS) && Ascending(GRANT_BODY_KEYS)
  {
    KeyPiecesA();
    KeyPiecesC();
    KeyPiecesD();
    var k := GRANT_BODY_KEYS;
    assert LessAt(k[0], k[1], 1) && LessAt(k[1], k[2], 1) && LessAt(k[2], k[3], 0) && LessAt(k[3], k[4], 0)
      && LessAt(k[4], k[5], 0) && LessAt(k[5], k[6], 1);
    hide Plain, LessAt;
  }

  lemma TerminalBodyKeys()
    ensures AllPlain(TERMINAL_BODY_KEYS) && Ascending(TERMINAL_BODY_KEYS)
  {
    KeyPiecesA();
    KeyPiecesD();
    KeyPiecesE();
    var k := TERMINAL_BODY_KEYS;
    assert LessAt(k[0], k[1], 0) && LessAt(k[1], k[2], 0) && LessAt(k[2], k[3], 0) && LessAt(k[3], k[4], 1) && LessAt(k[4], k[5], 0);
    hide Plain, LessAt;
  }

  lemma PreparedBodyKeys()
    ensures AllPlain(PREPARED_BODY_KEYS) && Ascending(PREPARED_BODY_KEYS)
  {
    KeyPiecesA();
    KeyPiecesB();
    var k := PREPARED_BODY_KEYS;
    assert LessAt(k[0], k[1], 0) && LessAt(k[1], k[2], 0) && LessAt(k[2], k[3], 0) && LessAt(k[3], k[4], 1) && LessAt(k[4], k[5], 4);
    hide Plain, LessAt;
  }

  lemma ConsumedBodyKeys()
    ensures AllPlain(CONSUMED_BODY_KEYS) && Ascending(CONSUMED_BODY_KEYS)
  {
    KeyPiecesA();
    KeyPiecesB();
    KeyPiecesC();
    var k := CONSUMED_BODY_KEYS;
    assert LessAt(k[0], k[1], 0) && LessAt(k[1], k[2], 0) && LessAt(k[2], k[3], 0) && LessAt(k[3], k[4], 0)
      && LessAt(k[4], k[5], 1) && LessAt(k[5], k[6], 4);
    hide Plain, LessAt;
  }

  lemma PendingBodyKeys()
    ensures AllPlain(PENDING_BODY_KEYS) && Ascending(PENDING_BODY_KEYS)
  {
    KeyPiecesA();
    var k := PENDING_BODY_KEYS;
    assert LessAt(k[0], k[1], 0) && LessAt(k[1], k[2], 1);
    hide Plain, LessAt;
  }

  function GrantBodyValues(g: Grant): (v: seq<Value>)
    ensures |v| == 7
  {
    [Str(g.capability), Str(g.challenge), Str(g.consumedDigest), Int(g.expiresNs), Int(g.issuedNs), Int(2),
     Str(if g.revoked then "REVOKED" else "ISSUED")]
  }

  lemma GrantBodyGood(g: Grant)
    requires GrantPlain(g)
    ensures GrantBody(g) == Text(GRANT_BODY_KEYS, GrantBodyValues(g)) && AllGood(GrantBodyValues(g))
  {
    hide Good, Plain, IsDigest, Text;
    NamesPlain();
    DigestsGood();
    StrGood("ISSUED");
    StrGood("REVOKED");
    ScalarGood(Int(g.expiresNs));
    ScalarGood(Int(g.issuedNs));
    ScalarGood(Int(2));
  }

  /** The digested body of a grant says everything about it but its digest. */
  lemma GrantBodyDetermines(a: Grant, b: Grant)
    requires GrantPlain(a) && GrantPlain(b) && GrantBody(a) == GrantBody(b)
    ensures a.(digest := "") == b.(digest := "")
  {
    GrantBodyKeys();
    GrantBodyGood(a);
    GrantBodyGood(b);
    hide AllPlain, Ascending, AllGood, Text, GrantPlain;
    TextDetermines(GRANT_BODY_KEYS, GrantBodyValues(a), GrantBodyValues(b));
    var v, w := GrantBodyValues(a), GrantBodyValues(b);
    assert v[0] == w[0] && v[1] == w[1] && v[2] == w[2] && v[3] == w[3] && v[4] == w[4] && v[6] == w[6];
    assert "REVOKED"[0] != "ISSUED"[0];
  }

  function TerminalBodyValues(t: Terminal): (v: seq<Value>)
    ensures |v| == 6
  {
    [Str(AUTHORITY_REVISION), Str(t.consumedDigest), Str(t.grantDigest), Int(3), Str("TERMINAL"), Str("NONLAUNCHING_NO_GO")]
  }

  lemma TerminalBodyGood(t: Terminal)
    requires IsDigest(t.consumedDigest) && IsDigest(t.grantDigest)
    ensures TerminalBody(t) == Text(TERMINAL_BODY_KEYS, TerminalBodyValues(t)) && AllGood(TerminalBodyValues(t))
  {
    hide Good, Plain, IsDigest, Text;
    NamesPlain();
    KeyPiecesE();
    BundleConstantsPlain();
    DigestsGood();
    StrGood(AUTHORITY_REVISION);
    StrGood("TERMINAL");
    StrGood("NONLAUNCHING_NO_GO");
    ScalarGood(Int(3));
  }

  lemma TerminalBodyDetermines(a: Terminal, b: Terminal)
    requires IsDigest(a.consumedDigest) && IsDigest(a.grantDigest) && IsDigest(b.consumedDigest) && IsDigest(b.grantDigest)
    requires TerminalBody(a) == TerminalBody(b)
    ensures a.(digest := "") == b.(digest := "")
  {
    TerminalBodyKeys();
    TerminalBodyGood(a);
    TerminalBodyGood(b);
    hide AllPlain, Ascending, AllGood, Text, IsDigest;
    TextDetermines(TERMINAL_BODY_KEYS, TerminalBodyValues(a), TerminalBodyValues(b));
    var v, w := TerminalBodyValues(a), TerminalBodyValues(b);
    assert v[1] == w[1] && v[2] == w[2];
  }

  function AuthorityBodyKeys(r: AuthorityRecord): seq<string> {
    match r
    case PendingRecord(_) => PENDING_BODY_KEYS
    case PreparedRecord(_, _, _, _) => PREPARED_BODY_KEYS
    case ConsumedRecord(_, _, _, _, _) => CONSUMED_BODY_KEYS
  }

  function AuthorityBodyValues(r: AuthorityRecord): (v: seq<Value>)
    ensures |v| == |AuthorityBodyKeys(r)|
  {
    match r
    case PendingRecord(_) => [Str(AUTHORITY_REVISION), Int(3), Str("PENDING")]
    case PreparedRecord(s, p, _, t) => [Str(AUTHORITY_REVISION), Str(s), Str(p), Int(3), Str("PREPARED"), Str(t)]
    case ConsumedRecord(s, c, p, _, t) => [Str(AUTHORITY_REVISION), Str(s), Str(c), Str(p), Int(3), Str("CONSUMED"), Str(t)]
  }

  lemma AuthorityBodyGood(r: AuthorityRecord)
    requires AuthorityPlain(r)
    ensures AuthorityBody(r) == Text(AuthorityBodyKeys(r), AuthorityBodyValues(r)) && AllGood(AuthorityBodyValues(r))
    ensures AllPlain(AuthorityBodyKeys(r)) && Ascending(AuthorityBodyKeys(r))
  {
    hide Good, Plain, IsDigest, Text, Ascending, AllPlain;
    PendingBodyKeys();
    PreparedBodyKeys();
    ConsumedBodyKeys();
    ConstantsGood();
    DigestsGood();
  }

  /** The digested body of an authority record says everything about it but its digest, its phase
      included. */
  lemma AuthorityBodyDetermines(a: AuthorityRecord, b: AuthorityRecord)
    requires AuthorityPlain(a) && AuthorityPlain(b) && AuthorityBody(a) == AuthorityBody(b)
    ensures a.(digest := "") == b.(digest := "")
  {
    var ka, kb, va, vb := AuthorityBodyKeys(a), AuthorityBodyKeys(b), AuthorityBodyValues(a), AuthorityBodyValues(b);
    AuthorityBodyGood(a);
    AuthorityBodyGood(b);
    SameKeys(ka, va, kb, vb);
    hide AllPlain, Ascending, AllGood, Text, AuthorityPlain;
    SamePhase(a, b);
    TextDetermines(ka, va, vb);
    SameAuthority(a, b);
  }

  lemma SameKeys(keys: seq<string>, values: seq<Value>, others: seq<string>, otherValues: seq<Value>)
    requires |keys| == |values| && |others| == |otherValues| && AllPlain(keys) && Ascending(keys) && AllGood(values)
    requires AllPlain(others) && Ascending(others) && AllGood(otherValues) && Text(keys, values) == Text(others, otherValues)
    ensures |keys| == |others|
  {
    hide AllPlain, Ascending, AllGood, Text, ReadRecord;
    if |others| != |keys| {
      OtherLength(keys, values, others);
      ReadIsExact(Text(others, otherValues), others, otherValues);
    }
  }

  lemma SamePhase(a: AuthorityRecord, b: AuthorityRecord)
    requires |AuthorityBodyKeys(a)| == |AuthorityBodyKeys(b)|
    ensures AuthorityBodyKeys(a) == AuthorityBodyKeys(b)
    ensures (a.PendingRecord? <==> b.PendingRecord?) && (a.PreparedRecord? <==> b.PreparedRecord?) && (a.ConsumedRecord? <==> b.ConsumedRecord?)
  {
  }

  lemma SameAuthority(a: AuthorityRecord, b: AuthorityRecord)
    requires (a.PendingRecord? <==> b.PendingRecord?) && (a.PreparedRecord? <==> b.PreparedRecord?)
    requires AuthorityBodyValues(a) == AuthorityBodyValues(b)
    ensures a.(digest := "") == b.(digest := "")
  {
    var v, w := AuthorityBodyValues(a), AuthorityBodyValues(b);
    if a.PreparedRecord? {
      assert v[1] == w[1] && v[2] == w[2] && v[5] == w[5];
    } else if a.ConsumedRecord? {
      assert v[1] == w[1] && v[2] == w[2] && v[3] == w[3] && v[6] == w[6];
    }
  }

  // ---- Altered leaves are refused ----

  /** A grant lasts five minutes. */
  lemma GrantLasts(h: BodyHash, g: Grant)
    requires GrantValid(h, g)
    ensures g.expiresNs - g.issuedNs == 300_000_000_000 && g.issuedNs > 0 && GrantPlain(g)
  {
    hide IsDigest, GrantDigest;
  }

  /** Valid grants with one digest are one grant: no field of a valid grant can be altered under its
      digest. */
  lemma DigestDeterminesGrant(h: BodyHash, a: Grant, b: Grant)
    requires Injective(h) && GrantValid(h, a) && GrantValid(h, b) && b.digest == a.digest
    ensures a == b
  {
    GrantLasts(h, a);
    GrantLasts(h, b);
    assert h(GrantBody(a)) == h(GrantBody(b)) by { hide IsDigest, GrantBody; }
    hide GrantBody, GrantPlain, GrantValid;
    GrantBodyDetermines(a, b);
    assert a.(digest := "").(digest := a.digest) == a && b.(digest := "").(digest := a.digest) == b;
  }

  lemma DigestDeterminesTerminal(h: BodyHash, a: Terminal, b: Terminal)
    requires Injective(h) && TerminalValid(h, a) && TerminalValid(h, b) && b.digest == a.digest
    ensures a == b
  {
    assert h(TerminalBody(a)) == h(TerminalBody(b)) by { hide IsDigest, TerminalBody; }
    hide TerminalBody, IsDigest;
    TerminalBodyDetermines(a, b);
    assert a.(digest := "").(digest := a.digest) == a && b.(digest := "").(digest := a.digest) == b;
  }

  lemma DigestDeterminesAuthority(h: BodyHash, a: AuthorityRecord, b: AuthorityRecord)
    requires Injective(h) && AuthorityValid(h, a) && AuthorityValid(h, b) && b.digest == a.digest
    ensures a == b
  {
    ValidIsPlain(h, a);
    ValidIsPlain(h, b);
    hide AuthorityBody, AuthorityPlain, AuthorityValid;
    AuthorityBodyDetermines(a, b);
    SameButDigest(a, b);
  }

  lemma ValidIsPlain(h: BodyHash, r: AuthorityRecord)
    requires AuthorityValid(h, r)
    ensures AuthorityPlain(r) && r.digest == h(AuthorityBody(r))
  {
    hide IsDigest, AuthorityBody;
  }

  lemma SameButDigest(a: AuthorityRecord, b: AuthorityRecord)
    requires a.(digest := "") == b.(digest := "") && a.digest == b.digest
    ensures a == b
  {
  }

  /** What is accepted as a grant leaf is the text of a valid grant. */
  lemma GrantIsRead(h: BodyHash, text: string)
    requires ParseGrant(h, text).Some?
    ensures GrantValid(h, ParseGrant(h, text).value) && text == GrantText(ParseGrant(h, text).value)
  {
    hide AllPlain, Ascending, ReadRecord, Text, GrantValid;
    GrantKeys();
    ReadIsExact(text, GRANT_KEYS, GrantValues(ParseGrant(h, text).value));
  }

  /** An accepted grant leaf with a valid grant's digest is that grant's own text: altering the leaf
      in any other place gets it refused. */
  lemma AlteredLeafIsRefused(h: BodyHash, g: Grant, text: string)
    requires Injective(h) && GrantValid(h, g) && text != GrantText(g)
    ensures ParseGrant(h, text).Some? ==> ParseGrant(h, text).value.digest != g.digest
  {
    hide Injective, GrantValid, ParseGrant, GrantText;
    if ParseGrant(h, text).Some? && ParseGrant(h, text).value.digest == g.digest {
      GrantIsRead(h, text);
      var other := ParseGrant(h, text).value;
      DigestDeterminesGrant(h, g, other);
    }
  }

  /** Two grants issued for different consumed records, challenges, capabilities or times have
      different digests. */
  lemma GrantsAreToldApart(h: BodyHash, consumedA: string, challengeA: string, capabilityA: string, issuedA: int,
                           consumedB: string, challengeB: string, capabilityB: string, issuedB: int)
    requires Injective(h)
    requires IsDigest(consumedA) && IsDigest(challengeA) && IsDigest(capabilityA)
    requires IsDigest(consumedB) && IsDigest(challengeB) && IsDigest(capabilityB)
    requires (consumedA, challengeA, capabilityA, issuedA) != (consumedB, challengeB, capabilityB, issuedB)
    ensures NewGrant(h, consumedA, challengeA, capabilityA, issuedA).digest != NewGrant(h, consumedB, challengeB, capabilityB, issuedB).digest
  {
    hide GrantBody, NewGrant, IsDigest, Injective;
    NewGrantDigest(h, consumedA, challengeA, capabilityA, issuedA);
    NewGrantDigest(h, consumedB, challengeB, capabilityB, issuedB);
    var a := Grant(false, consumedA, challengeA, capabilityA, issuedA, issuedA + TTL_NS, "");
    var b := Grant(false, consumedB, challengeB, capabilityB, issuedB, issuedB + TTL_NS, "");
    BodiesApart(a, b);
    DigestsApart(h, GrantBody(a), GrantBody(b));
  }

  lemma DigestsApart(h: BodyHash, x: string, y: string)
    requires Injective(h) && x != y
    ensures h(x) != h(y)
  {
  }

  lemma BodiesApart(a: Grant, b: Grant)
    requires IsDigest(a.consumedDigest) && IsDigest(a.challenge) && IsDigest(a.capability)
    requires IsDigest(b.consumedDigest) && IsDigest(b.challenge) && IsDigest(b.capability)
    requires a.(digest := "") != b.(digest := "")
    ensures GrantBody(a) != GrantBody(b)
  {
    hide GrantBody, IsDigest;
    if GrantBody(a) == GrantBody(b) { GrantBodyDetermines(a, b); }
  }

  lemma NewGrantDigest(h: BodyHash, consumed: string, challenge: string, capability: string, issued: int)
    ensures NewGrant(h, consumed, challenge, capability, issued).digest
         == h(GrantBody(Grant(false, consumed, challenge, capability, issued, issued + TTL_NS, "")))
  {
    hide GrantBody, IsDigest;
  }

  /** A grant has another digest once it is revoked. */
  lemma RevokedIsToldApart(h: BodyHash, g: Grant)
    requires Injective(h) && GrantValid(h, g) && !g.revoked
    ensures RevokedOf(h, g).digest != g.digest
  {
    var revoked := g.(revoked := true);
    GrantLasts(h, g);
    assert g.digest == h(GrantBody(g)) && RevokedOf(h, g).digest == h(GrantBody(revoked)) && GrantPlain(revoked) by { hide IsDigest, GrantBody; }
    hide GrantBody, GrantValid, RevokedOf, GrantPlain;
    if GrantBody(g) == GrantBody(revoked) { GrantBodyDetermines(g, revoked); }
  }
}
