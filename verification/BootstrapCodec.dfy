/** The two formats of the bootstrap: the signed bundle and the provisioning receipt. */
module BootstrapCodec {
  import opened Wrappers
  import opened Json
  import opened Records
  import B64 = Base64Url

  predicate IsHex(c: char) { '0' <= c <= '9' || 'a' <= c <= 'f' }

  predicate IsDigest(s: string) {
    |s| == 64 && forall i :: 0 <= i < |s| ==> IsHex(s[i])
  }

  /** SHA-256 in hexadecimal, over texts and over byte strings. */
  datatype Hash = Hash(ofText: string -> string, ofBytes: seq<B64.Byte> -> string)

  /** `verify_signature`; an exception counts as false. */
  type Verifier = (seq<B64.Byte>, string, seq<B64.Byte>) -> bool

  const BOOTSTRAP_DOMAIN := "D1N2/A0_BOOTSTRAP/v1"
  const AUTHORITY_REVISION := "d1-n2-authority-v1"
  const SIGNATURE_ALGORITHM := "ECDSA_P256_SHA256_IEEE_P1363"
  const PUBLIC_KEY_FORMAT := "BCRYPT_ECCPUBLIC_BLOB_P256"
  const RECEIPT_DOMAIN := "D1N2/A0_BOOTSTRAP_PROVISIONING_RECEIPT/v1"
  const CEREMONY_REVISION := "d1-n2-b0-r1-provisioning-v1"
  const EPOCH_DIGEST := "736a6760f7d8f0f6" + "35c0d1e9b626fe38" + "d60a1c36f7c10131" + "929a4a588597659b"

  const ROOT_KEYS: seq<string> := ["body", "domain", "key_id", "schema_version", "signature_algorithm", "signature_b64url"]
  const BODY_KEYS: seq<string> := ["authority_revision", "bootstrap_epoch_digest", "public_key_b64url", "public_key_format"]
  const RECEIPT_KEYS: seq<string> := KEYS_TO_DOMAIN + KEYS_TO_PARENT + KEYS_TO_WRITE
  const KEYS_TO_DOMAIN: seq<string> := [
    "bootstrap_bundle_sha256", "bootstrap_epoch_digest", "ceremony_revision", "cleanup_clean", "create_new", "domain"]
  const KEYS_TO_PARENT: seq<string> := [
    "installed_unix_ns", "key_id", "leaf_identity_digest", "no_reparse", "parent_durable", "parent_identity_digest"]
  const KEYS_TO_WRITE: seq<string> := [
    "promoted_no_replace", "readback_verified", "result", "schema_version", "share_zero", "write_flushed"]

  // ---- The receipt ----

  datatype ProvisioningResult =
    | Installed | AlreadyExists | InvalidInput | PlatformUnsupported
    | WriteFailed | DurabilityFailed | ReadbackFailed | CleanupFailed

  function ResultName(r: ProvisioningResult): string {
    match r
    case Installed => "INSTALLED"
    case AlreadyExists => "ALREADY_EXISTS"
    case InvalidInput => "INVALID_INPUT"
    case PlatformUnsupported => "PLATFORM_UNSUPPORTED"
    case WriteFailed => "WRITE_FAILED"
    case DurabilityFailed => "DURABILITY_FAILED"
    case ReadbackFailed => "READBACK_FAILED"
    case CleanupFailed => "CLEANUP_FAILED"
  }

  function ResultOf(name: string): Option<ProvisioningResult> {
    if name == "INSTALLED" then Some(Installed)
    else if name == "ALREADY_EXISTS" then Some(AlreadyExists)
    else if name == "INVALID_INPUT" then Some(InvalidInput)
    else if name == "PLATFORM_UNSUPPORTED" then Some(PlatformUnsupported)
    else if name == "WRITE_FAILED" then Some(WriteFailed)
    else if name == "DURABILITY_FAILED" then Some(DurabilityFailed)
    else if name == "READBACK_FAILED" then Some(ReadbackFailed)
    else if name == "CLEANUP_FAILED" then Some(CleanupFailed)
    else None
  }

  datatype Receipt = Receipt(
    result: ProvisioningResult, installedUnixNs: int,
    bundleDigest: string, keyId: string, epochDigest: string,
    createNew: bool, noReparse: bool, shareZero: bool, writeFlushed: bool, parentDurable: bool,
    promotedNoReplace: bool, readbackVerified: bool,
    leafIdentityDigest: string, parentIdentityDigest: string, cleanupClean: bool)

  const MAX_NS: int := 0x8000_0000_0000_0000

  predicate AllTrue(r: Receipt) {
    && r.createNew && r.noReparse && r.shareZero && r.writeFlushed && r.parentDurable
    && r.promotedNoReplace && r.readbackVerified && r.cleanupClean
  }

  predicate Valid(r: Receipt) {
    && 0 <= r.installedUnixNs < MAX_NS
    && IsDigest(r.bundleDigest) && IsDigest(r.keyId) && IsDigest(r.epochDigest)
    && IsDigest(r.leafIdentityDigest) && IsDigest(r.parentIdentityDigest)
    && r.epochDigest == EPOCH_DIGEST
    && (r.result == Installed ==> AllTrue(r))
  }

  function ReceiptValues(r: Receipt): (values: seq<Value>)
    ensures |values| == 18
  {
    [Str(r.bundleDigest), Str(r.epochDigest), Str(CEREMONY_REVISION), Bool(r.cleanupClean), Bool(r.createNew), Str(RECEIPT_DOMAIN),
     Int(r.installedUnixNs), Str(r.keyId), Str(r.leafIdentityDigest), Bool(r.noReparse), Bool(r.parentDurable), Str(r.parentIdentityDigest),
     Bool(r.promotedNoReplace), Bool(r.readbackVerified), Str(ResultName(r.result)), Int(1), Bool(r.shareZero), Bool(r.writeFlushed)]
  }

  /** `canonical_bytes`, for a receipt that is valid. */
  function ReceiptText(r: Receipt): string {
    Text(RECEIPT_KEYS, ReceiptValues(r))
  }

  /** The receipt the values describe, if they have the right types and constants. */
  function ReceiptOfValues(v: seq<Value>): Option<Receipt>
    requires |v| == 18
  {
    if v[15] != Int(1) || v[5] != Str(RECEIPT_DOMAIN) || v[2] != Str(CEREMONY_REVISION) || !v[14].Str? then None
    else if ResultOf(v[14].text).None? then None
    else if !(v[4].Bool? && v[9].Bool? && v[16].Bool? && v[17].Bool? && v[10].Bool? && v[12].Bool? && v[13].Bool? && v[3].Bool?) then None
    else if !(v[6].Int? && v[0].Str? && v[7].Str? && v[1].Str? && v[8].Str? && v[11].Str?) then None
    else
      Some(Receipt(ResultOf(v[14].text).value, v[6].number, v[0].text, v[7].text, v[1].text,
                   v[4].flag, v[9].flag, v[16].flag, v[17].flag, v[10].flag, v[12].flag, v[13].flag,
                   v[8].text, v[11].text, v[3].flag))
  }

  /** `parse_provisioning_receipt` */
  function ParseReceipt(payload: string): Option<Receipt> {
    match ReadRecord(payload, RECEIPT_KEYS)
    case None => None
    case Some(values) =>
      match ReceiptOfValues(values)
      case None => None
      case Some(r) => if Valid(r) && ReceiptText(r) == payload then Some(r) else None
  }

  // ---- The keys are plain and in order ----

  lemma KeysPlain1a()
    ensures Plain("bootstrap_bundle_sha256") && Plain("bootstrap_epoch_digest") && Plain("ceremony_revision")
  {
  }

  lemma KeysPlain1b()
    ensures Plain("cleanup_clean") && Plain("create_new") && Plain("domain")
  {
  }

  lemma KeysPlain1()
    ensures AllPlain(KEYS_TO_DOMAIN)
  {
    KeysPlain1a();
    KeysPlain1b();
    hide Plain;
  }

  lemma KeysPlain2a()
    ensures Plain("installed_unix_ns") && Plain("key_id") && Plain("leaf_identity_digest")
  {
  }

  lemma KeysPlain2b()
    ensures Plain("no_reparse") && Plain("parent_durable") && Plain("parent_identity_digest")
  {
  }

  lemma KeysPlain2()
    ensures AllPlain(KEYS_TO_PARENT)
  {
    KeysPlain2a();
    KeysPlain2b();
    hide Plain;
  }

  lemma KeysPlain3a()
    ensures Plain("promoted_no_replace") && Plain("readback_verified") && Plain("result")
  {
  }

  lemma KeysPlain3b()
    ensures Plain("schema_version") && Plain("share_zero") && Plain("write_flushed")
  {
  }

  lemma KeysPlain3()
    ensures AllPlain(KEYS_TO_WRITE)
  {
    KeysPlain3a();
    KeysPlain3b();
    hide Plain;
  }

  lemma KeysAscend1()
    ensures Ascending(KEYS_TO_DOMAIN)
  {
    var k := KEYS_TO_DOMAIN;
    assert LessAt(k[0], k[1], 10) && LessAt(k[1], k[2], 0) && LessAt(k[2], k[3], 1) && LessAt(k[3], k[4], 1) && LessAt(k[4], k[5], 0);
  }

  lemma KeysAscend2()
    ensures Ascending(KEYS_TO_PARENT)
  {
    var k := KEYS_TO_PARENT;
    assert LessAt(k[0], k[1], 0) && LessAt(k[1], k[2], 0) && LessAt(k[2], k[3], 0) && LessAt(k[3], k[4], 0) && LessAt(k[4], k[5], 7);
  }

  lemma KeysAscend3()
    ensures Ascending(KEYS_TO_WRITE)
  {
    var k := KEYS_TO_WRITE;
    assert LessAt(k[0], k[1], 0) && LessAt(k[1], k[2], 2) && LessAt(k[2], k[3], 0) && LessAt(k[3], k[4], 1) && LessAt(k[4], k[5], 0);
  }

  lemma JoinKeys(a: seq<string>, b: seq<string>, i: int)
    requires AllPlain(a) && AllPlain(b) && Ascending(a) && Ascending(b)
    requires a != [] && b != [] && LessAt(a[|a| - 1], b[0], i)
    ensures AllPlain(a + b) && Ascending(a + b)
  {
    hide Plain;
    assert Less(a[|a| - 1], b[0]);
    hide Less, LessAt;
    var all := a + b;
    forall k | 0 <= k < |all| - 1 ensures Less(all[k], all[k + 1]) {
      if k < |a| - 1 { assert Less(a[k], a[k + 1]); }
      else if k >= |a| { assert Less(b[k - |a|], b[k - |a| + 1]); }
    }
  }

  lemma ReceiptKeysOrdered()
    ensures AllPlain(RECEIPT_KEYS) && Ascending(RECEIPT_KEYS) && |RECEIPT_KEYS| == 18
  {
    KeysPlain1();
    KeysPlain2();
    KeysPlain3();
    KeysAscend1();
    KeysAscend2();
    KeysAscend3();
    hide AllPlain, Ascending;
    assert LessAt(KEYS_TO_DOMAIN[5], KEYS_TO_PARENT[0], 0);
    JoinKeys(KEYS_TO_DOMAIN, KEYS_TO_PARENT, 0);
    assert LessAt((KEYS_TO_DOMAIN + KEYS_TO_PARENT)[11], KEYS_TO_WRITE[0], 1);
    JoinKeys(KEYS_TO_DOMAIN + KEYS_TO_PARENT, KEYS_TO_WRITE, 1);
  }

  lemma ResultBack(r: ProvisioningResult)
    ensures ResultOf(ResultName(r)) == Some(r)
  {
  }

  lemma ResultPlain(r: ProvisioningResult)
    ensures Plain(ResultName(r)) && |ResultName(r)| <= 20
  {
  }

  lemma ConstantsPlain()
    ensures Plain(RECEIPT_DOMAIN) && Plain(CEREMONY_REVISION)
  {
  }

  lemma StrGood(s: string)
    requires Plain(s)
    ensures Good(Str(s))
  {
    hide Plain;
  }

  lemma ScalarGood(v: Value)
    requires v.Int? || v.Bool?
    ensures Good(v)
  {
  }

  lemma DigestPlain(s: string)
    requires IsDigest(s)
    ensures Plain(s)
  {
  }

  lemma ReceiptValuesGood(r: Receipt)
    requires Valid(r)
    ensures AllGood(ReceiptValues(r))
  {
    ConstantsPlain();
    ResultPlain(r.result);
    DigestPlain(r.bundleDigest);
    DigestPlain(r.keyId);
    DigestPlain(r.epochDigest);
    DigestPlain(r.leafIdentityDigest);
    DigestPlain(r.parentIdentityDigest);
    hide Plain, IsDigest, ResultName;
    forall s: string | Plain(s) ensures Good(Str(s)) { StrGood(s); }
    forall v: Value | v.Int? || v.Bool? ensures Good(v) { ScalarGood(v); }
    hide Good, Valid;
  }

  lemma ValuesBack(r: Receipt)
    ensures ReceiptOfValues(ReceiptValues(r)) == Some(r)
  {
    ResultBack(r.result);
    hide ResultOf, ResultName;
  }

  /** Round trip: the parser reads back every valid receipt from its canonical bytes, and accepts
      nothing else. */
  lemma ReceiptRoundTrip(payload: string, r: Receipt)
    ensures ParseReceipt(payload) == Some(r) <==> Valid(r) && payload == ReceiptText(r)
  {
    if Valid(r) && payload == ReceiptText(r) {
      ReceiptKeysOrdered();
      ReceiptValuesGood(r);
      ReadIsExact(payload, RECEIPT_KEYS, ReceiptValues(r));
      ValuesBack(r);
    }
    hide AllPlain, Ascending, AllGood, ReadRecord, ReceiptOfValues, ReceiptValues, Text, Valid;
  }

  lemma {:induction false} PowersOfTen()
    ensures Pow10(19) == 10_000_000_000_000_000_000
  {
    assert Pow10(4) == 10_000 by { assert Pow10(2) == 100; }
    assert Pow10(8) == 100_000_000 by { assert Pow10(6) == 1_000_000; }
    assert Pow10(12) == 1_000_000_000_000 by { assert Pow10(10) == 10_000_000_000; }
    assert Pow10(16) == 10_000_000_000_000_000 by { assert Pow10(14) == 100_000_000_000_000; }
    assert Pow10(18) == 1_000_000_000_000_000_000;
  }

  /** Texts of at most 64 characters, flags and times have short encodings. */
  predicate Short(v: Value) { |Encode(v)| <= 66 }

  lemma TimeShort(ns: int)
    requires 0 <= ns < MAX_NS
    ensures Short(Int(ns))
  {
    PowersOfTen();
    DigitsLength(ns, 19);
  }

  lemma StrShort(s: string)
    requires |s| <= 64
    ensures Short(Str(s))
  {
  }

  lemma BoolShort(b: bool)
    ensures Short(Bool(b))
  {
  }

  /** Every receipt fits in the 16384 bytes the reader and the installer allow. */
  lemma ReceiptFits(r: Receipt)
    requires Valid(r)
    ensures 0 < |ReceiptText(r)| <= 16_384
  {
    var v := ReceiptValues(r);
    ReceiptKeysOrdered();
    ReceiptValuesShort(r);
    KeysShort();
    hide ReceiptValues, Encode;
    assert forall i :: 0 <= i < 18 ==> |RECEIPT_KEYS[i]| + |Encode(v[i])| <= 100 by {
      assert forall i :: 0 <= i < 18 ==> Short(v[i]);
    }
    TextLength(RECEIPT_KEYS, v, 100);
    ObjectLength(Build(RECEIPT_KEYS, v));
  }

  lemma ObjectLength(m: Members)
    ensures |Encode(Obj(m))| == |EncodeMembers(m)| + 2
  {
    hide EncodeMembers;
  }

  lemma KeysShort()
    ensures forall i :: 0 <= i < 18 ==> |RECEIPT_KEYS[i]| <= 25
  {
  }

  lemma TextsShort(r: Receipt)
    requires Valid(r)
    ensures |r.bundleDigest| == |r.epochDigest| == |r.keyId| == |r.leafIdentityDigest| == |r.parentIdentityDigest| == 64
    ensures |RECEIPT_DOMAIN| <= 64 && |CEREMONY_REVISION| <= 64 && |ResultName(r.result)| <= 64
  {
    ResultPlain(r.result);
    hide ResultName;
  }

  lemma ReceiptValuesShort(r: Receipt)
    requires Valid(r)
    ensures forall i :: 0 <= i < 18 ==> Short(ReceiptValues(r)[i])
  {
    TextsShort(r);
    TimeShort(r.installedUnixNs);
    TimeShort(1);
    StrShort(r.bundleDigest);
    StrShort(r.epochDigest);
    StrShort(CEREMONY_REVISION);
    StrShort(RECEIPT_DOMAIN);
    StrShort(r.keyId);
    StrShort(r.leafIdentityDigest);
    StrShort(r.parentIdentityDigest);
    StrShort(ResultName(r.result));
    BoolShort(true);
    BoolShort(false);
    hide Short, ResultName, Valid;
  }

  /** The member of each name in a receipt's text. */
  lemma ReceiptMembers(r: Receipt)
    ensures ReceiptText(r) == Encode(Obj(ReceiptObject(r)))
    ensures Lookup(ReceiptObject(r), "bootstrap_bundle_sha256") == Some(Str(r.bundleDigest))
    ensures Lookup(ReceiptObject(r), "bootstrap_epoch_digest") == Some(Str(r.epochDigest))
    ensures Lookup(ReceiptObject(r), "ceremony_revision") == Some(Str("d1-n2-b0-r1-provisioning-v1"))
    ensures Lookup(ReceiptObject(r), "cleanup_clean") == Some(Bool(r.cleanupClean))
    ensures Lookup(ReceiptObject(r), "create_new") == Some(Bool(r.createNew))
    ensures Lookup(ReceiptObject(r), "domain") == Some(Str("D1N2/A0_BOOTSTRAP_PROVISIONING_RECEIPT/v1"))
    ensures Lookup(ReceiptObject(r), "installed_unix_ns") == Some(Int(r.installedUnixNs))
    ensures Lookup(ReceiptObject(r), "key_id") == Some(Str(r.keyId))
    ensures Lookup(ReceiptObject(r), "leaf_identity_digest") == Some(Str(r.leafIdentityDigest))
    ensures Lookup(ReceiptObject(r), "no_reparse") == Some(Bool(r.noReparse))
    ensures Lookup(ReceiptObject(r), "parent_durable") == Some(Bool(r.parentDurable))
    ensures Lookup(ReceiptObject(r), "parent_identity_digest") == Some(Str(r.parentIdentityDigest))
    ensures Lookup(ReceiptObject(r), "promoted_no_replace") == Some(Bool(r.promotedNoReplace))
    ensures Lookup(ReceiptObject(r), "readback_verified") == Some(Bool(r.readbackVerified))
    ensures Lookup(ReceiptObject(r), "result") == Some(Str(ResultName(r.result)))
    ensures r.result == Installed ==> Lookup(ReceiptObject(r), "result") == Some(Str("INSTALLED"))
    ensures Lookup(ReceiptObject(r), "schema_version") == Some(Int(1))
    ensures Lookup(ReceiptObject(r), "share_zero") == Some(Bool(r.shareZero))
    ensures Lookup(ReceiptObject(r), "write_flushed") == Some(Bool(r.writeFlushed))
  {
    hide Encode, Build, Lookup;
    forall i: nat | i < 18 ensures Lookup(ReceiptObject(r), RECEIPT_KEYS[i]) == Some(ReceiptValues(r)[i]) {
      DistinctKeys(i);
      LookupAt(RECEIPT_KEYS, ReceiptValues(r), i);
    }
    assert RECEIPT_KEYS[0] == "bootstrap_bundle_sha256";
    assert RECEIPT_KEYS[1] == "bootstrap_epoch_digest";
    assert RECEIPT_KEYS[2] == "ceremony_revision";
    assert RECEIPT_KEYS[3] == "cleanup_clean";
    assert RECEIPT_KEYS[4] == "create_new";
    assert RECEIPT_KEYS[5] == "domain";
    assert RECEIPT_KEYS[6] == "installed_unix_ns";
    assert RECEIPT_KEYS[7] == "key_id";
    assert RECEIPT_KEYS[8] == "leaf_identity_digest";
    assert RECEIPT_KEYS[9] == "no_reparse";
    assert RECEIPT_KEYS[10] == "parent_durable";
    assert RECEIPT_KEYS[11] == "parent_identity_digest";
    assert RECEIPT_KEYS[12] == "promoted_no_replace";
    assert RECEIPT_KEYS[13] == "readback_verified";
    assert RECEIPT_KEYS[14] == "result";
    assert RECEIPT_KEYS[15] == "schema_version";
    assert RECEIPT_KEYS[16] == "share_zero";
    assert RECEIPT_KEYS[17] == "write_flushed";
  }

  function ReceiptObject(r: Receipt): Members { Build(RECEIPT_KEYS, ReceiptValues(r)) }

  lemma DistinctKeys(i: nat)
    requires i < 18
    ensures RECEIPT_KEYS[i] !in RECEIPT_KEYS[..i]
  {
  }

  // ---- The bundle ----

  datatype Bundle = Bundle(
    canonicalBytes: string, canonicalBody: string, publicKeyBlob: seq<B64.Byte>, keyId: string,
    epochDigest: string, signature: seq<B64.Byte>)

  function LittleEndian(b: seq<B64.Byte>): int
    requires |b| == 4
  {
    b[0] as int + 0x100 * b[1] as int + 0x1_0000 * b[2] as int + 0x100_0000 * b[3] as int
  }

  /** The header of a BCRYPT P-256 public key: its magic number and the size of a coordinate. */
  predicate IsPublicBlob(b: seq<B64.Byte>) {
    |b| == 72 && LittleEndian(b[..4]) == 0x31534345 && LittleEndian(b[4..8]) == 32
  }

  function PublicBlob(text: string): Option<seq<B64.Byte>> {
    match B64.Decode(text, 72)
    case None => None
    case Some(blob) => if IsPublicBlob(blob) then Some(blob) else None
  }

  function BodyValues(keyText: string): (v: seq<Value>)
    ensures |v| == 4
  {
    [Str(AUTHORITY_REVISION), Str(EPOCH_DIGEST), Str(keyText), Str(PUBLIC_KEY_FORMAT)]
  }

  function BodyOf(keyText: string): Members {
    Build(BODY_KEYS, BodyValues(keyText))
  }

  function RootValues(keyText: string, keyId: string, signatureText: string): (v: seq<Value>)
    ensures |v| == 6
  {
    [Obj(BodyOf(keyText)), Str(BOOTSTRAP_DOMAIN), Str(keyId), Int(1), Str(SIGNATURE_ALGORITHM), Str(signatureText)]
  }

  /** The one text of a bundle with this public key and signature. */
  function BundleText(blob: seq<B64.Byte>, keyId: string, signature: seq<B64.Byte>): string {
    Text(ROOT_KEYS, RootValues(B64.Encode(blob), keyId, B64.Encode(signature)))
  }

  /** `parse_bootstrap_bundle`, once the keys of the root and of the body are checked. */
  function BundleOf(h: Hash, payload: string, root: seq<Value>, body: seq<Value>): Option<Bundle>
    requires |root| == 6 && root[0].Obj? && |body| == 4
  {
    if root[3] != Int(1) || root[1] != Str(BOOTSTRAP_DOMAIN) || root[4] != Str(SIGNATURE_ALGORITHM)
       || !root[2].Str? || !IsDigest(root[2].text)
    then None
    else if body[0] != Str(AUTHORITY_REVISION) || body[3] != Str(PUBLIC_KEY_FORMAT) || body[1] != Str(EPOCH_DIGEST) then None
    else if !body[2].Str? || !root[5].Str? then None
    else
      match (PublicBlob(body[2].text), B64.Decode(root[5].text, 64))
      case (Some(blob), Some(signature)) =>
        if h.ofBytes(blob) != root[2].text then None
        else Some(Bundle(payload, Encode(root[0]), blob, root[2].text, EPOCH_DIGEST, signature))
      case _ => None
  }

  function ParseBundle(h: Hash, payload: string): Option<Bundle> {
    match ReadRecord(payload, ROOT_KEYS)
    case None => None
    case Some(root) =>
      if !root[0].Obj? then None
      else
        match Take(root[0].members, BODY_KEYS)
        case None => None
        case Some(body) => BundleOf(h, payload, root, body)
  }

  datatype Authority = Authority(
    revision: string, bundleDigest: string, keyId: string, epochDigest: string, oneShot: bool, overwrite: bool)

  /** `BootstrapInstallAuthority.valid_for` */
  predicate ValidFor(h: Hash, a: Authority, b: Bundle) {
    && a.revision == AUTHORITY_REVISION && IsDigest(a.bundleDigest) && a.bundleDigest == h.ofText(b.canonicalBytes)
    && a.keyId == b.keyId && a.epochDigest == EPOCH_DIGEST && b.epochDigest == EPOCH_DIGEST
    && a.oneShot && !a.overwrite
  }

  /** `verify_approved_bootstrap_bundle` */
  function VerifyApproved(h: Hash, verify: Verifier, payload: string, a: Authority): Option<Bundle> {
    match ParseBundle(h, payload)
    case None => None
    case Some(b) =>
      if ValidFor(h, a, b) && verify(b.publicKeyBlob, b.canonicalBody, b.signature) then Some(b) else None
  }

  // ---- What a bundle can be ----

  lemma RootKeysOrdered()
    ensures AllPlain(ROOT_KEYS) && Ascending(ROOT_KEYS)
  {
    var k := ROOT_KEYS;
    assert LessAt(k[0], k[1], 0) && LessAt(k[1], k[2], 0) && LessAt(k[2], k[3], 0) && LessAt(k[3], k[4], 1) && LessAt(k[4], k[5], 10);
    RootKeysPlain1();
    RootKeysPlain2();
    hide Plain, LessAt;
  }

  lemma RootKeysPlain1() ensures Plain("body") && Plain("domain") && Plain("key_id") {}

  lemma RootKeysPlain2()
    ensures Plain("schema_version") && Plain("signature_algorithm") && Plain("signature_b64url")
  {
  }

  lemma BodyKeysOrdered()
    ensures AllPlain(BODY_KEYS) && Ascending(BODY_KEYS)
  {
    var k := BODY_KEYS;
    assert LessAt(k[0], k[1], 0) && LessAt(k[1], k[2], 0) && LessAt(k[2], k[3], 11);
    BodyKeysPlain1();
    BodyKeysPlain2();
    hide Plain, LessAt;
  }

  lemma BodyKeysPlain1()
    ensures Plain("authority_revision") && Plain("bootstrap_epoch_digest")
  {
  }

  lemma BodyKeysPlain2()
    ensures Plain("public_key_b64url") && Plain("public_key_format")
  {
  }

  lemma BundleConstantsPlain()
    ensures Plain(BOOTSTRAP_DOMAIN) && Plain(AUTHORITY_REVISION) && Plain(SIGNATURE_ALGORITHM)
  {
  }

  lemma FormatPlain()
    ensures Plain(PUBLIC_KEY_FORMAT)
  {
  }

  lemma HexPieces()
    ensures AllHex("736a6760f7d8f0f6") && AllHex("35c0d1e9b626fe38") && AllHex("d60a1c36f7c10131") && AllHex("929a4a588597659b")
  {
  }

  predicate AllHex(s: string) {
    forall i :: 0 <= i < |s| ==> IsHex(s[i])
  }

  lemma EpochIsDigest()
    ensures IsDigest(EPOCH_DIGEST)
  {
    HexPieces();
  }
}
