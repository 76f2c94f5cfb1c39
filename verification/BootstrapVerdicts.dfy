/** What a verdict of the reader says of any disk, whoever wrote it. */
module BootstrapVerdicts {
  import opened Wrappers
  import opened Json
  import opened Records
  import opened BootstrapCodec
  import opened BootstrapBundle
  import opened BootstrapDisk
  import B64 = Base64Url

  // ---- Bundles by name ----

  function RootObject(blob: seq<B64.Byte>, keyId: string, signature: seq<B64.Byte>): Members {
    Build(ROOT_KEYS, RootValues(B64.Encode(blob), keyId, B64.Encode(signature)))
  }

  lemma DistinctRootKeys(i: nat)
    ensures i < 6 ==> ROOT_KEYS[i] !in ROOT_KEYS[..i]
    ensures i < 4 ==> BODY_KEYS[i] !in BODY_KEYS[..i]
  {
  }

  /** The member of each name in a bundle's text, and of its body, which is what is signed. */
  lemma BundleMembers(blob: seq<B64.Byte>, keyId: string, signature: seq<B64.Byte>)
    ensures BundleText(blob, keyId, signature) == Encode(Obj(RootObject(blob, keyId, signature)))
    ensures Lookup(RootObject(blob, keyId, signature), "schema_version") == Some(Int(1))
    ensures Lookup(RootObject(blob, keyId, signature), "domain") == Some(Str("D1N2/A0_BOOTSTRAP/v1"))
    ensures Lookup(RootObject(blob, keyId, signature), "key_id") == Some(Str(keyId))
    ensures Lookup(RootObject(blob, keyId, signature), "signature_algorithm") == Some(Str("ECDSA_P256_SHA256_IEEE_P1363"))
    ensures Lookup(RootObject(blob, keyId, signature), "signature_b64url") == Some(Str(B64.Encode(signature)))
    ensures Lookup(RootObject(blob, keyId, signature), "body") == Some(Obj(BodyOf(B64.Encode(blob))))
    ensures Lookup(BodyOf(B64.Encode(blob)), "public_key_b64url") == Some(Str(B64.Encode(blob)))
    ensures Lookup(BodyOf(B64.Encode(blob)), "public_key_format") == Some(Str("BCRYPT_ECCPUBLIC_BLOB_P256"))
    ensures Lookup(BodyOf(B64.Encode(blob)), "authority_revision") == Some(Str("d1-n2-authority-v1"))
    ensures Lookup(BodyOf(B64.Encode(blob)), "bootstrap_epoch_digest") == Some(Str(EPOCH_DIGEST))
  {
    hide Encode, Build, Lookup, B64.Encode;
    var keyText, signatureText := B64.Encode(blob), B64.Encode(signature);
    forall i: nat | i < 6 ensures Lookup(RootObject(blob, keyId, signature), ROOT_KEYS[i]) == Some(RootValues(keyText, keyId, signatureText)[i]) {
      DistinctRootKeys(i);
      LookupAt(ROOT_KEYS, RootValues(keyText, keyId, signatureText), i);
    }
    forall i: nat | i < 4 ensures Lookup(BodyOf(keyText), BODY_KEYS[i]) == Some(BodyValues(keyText)[i]) {
      DistinctRootKeys(i);
      LookupAt(BODY_KEYS, BodyValues(keyText), i);
    }
    var k, b := ROOT_KEYS, BODY_KEYS;
    assert k[0] == "body" && k[1] == "domain" && k[2] == "key_id" && k[3] == "schema_version";
    assert k[4] == "signature_algorithm" && k[5] == "signature_b64url";
    assert b[0] == "authority_revision" && b[1] == "bootstrap_epoch_digest" && b[2] == "public_key_b64url" && b[3] == "public_key_format";
  }

  /** The bundle of a public key and a signature. */
  function BundleFor(h: Hash, blob: seq<B64.Byte>, signature: seq<B64.Byte>): Bundle {
    Bundle(BundleText(blob, h.ofBytes(blob), signature), Encode(Obj(BodyOf(B64.Encode(blob)))), blob, h.ofBytes(blob), EPOCH_DIGEST, signature)
  }

  /** A public key starts with the letters ECS1 and its coordinate size, 32. */
  lemma BlobHeader(blob: seq<B64.Byte>)
    ensures IsPublicBlob(blob) <==>
      && |blob| == 72
      && (blob[0] as int, blob[1] as int, blob[2] as int, blob[3] as int) == (0x45, 0x43, 0x53, 0x31)
      && (blob[4] as int, blob[5] as int, blob[6] as int, blob[7] as int) == (32, 0, 0, 0)
  {
    if |blob| == 72 {
      assert blob[..4] == [blob[0], blob[1], blob[2], blob[3]] && blob[4..8] == [blob[4], blob[5], blob[6], blob[7]];
    }
  }

  /** Parsing accepts exactly the texts of the bundles of P-256 keys and 64-byte signatures. */
  lemma ParseBundleIsExact(h: Hash, payload: string, b: Bundle)
    ensures ParseBundle(h, payload) == Some(b) <==>
      && IsPublicBlob(b.publicKeyBlob) && |b.signature| == 64 && IsDigest(h.ofBytes(b.publicKeyBlob))
      && b == BundleFor(h, b.publicKeyBlob, b.signature) && payload == b.canonicalBytes
  {
    if ParseBundle(h, payload) == Some(b) { BundleIsDetermined(h, payload); }
    hide ParseBundle, BundleText, IsDigest, IsPublicBlob, Encode, BodyOf;
    if IsPublicBlob(b.publicKeyBlob) && |b.signature| == 64 && IsDigest(h.ofBytes(b.publicKeyBlob)) {
      BundleReadsBack(h, b.publicKeyBlob, b.signature);
    }
  }

  // ---- Approval ----

  /** A bundle is approved by one authority only: the one-shot, non-overwriting authority that names
      this very text and key; and only if the signature over the body is good. */
  lemma ApprovalIsExact(h: Hash, verify: Verifier, payload: string, a: Authority, b: Bundle)
    ensures VerifyApproved(h, verify, payload, a) == Some(b) <==>
      && ParseBundle(h, payload) == Some(b) && IsDigest(h.ofText(payload))
      && a == Authority("d1-n2-authority-v1", h.ofText(payload), b.keyId, EPOCH_DIGEST, true, false)
      && verify(b.publicKeyBlob, b.canonicalBody, b.signature)
  {
    if ParseBundle(h, payload).Some? { BundleIsDetermined(h, payload); }
    hide ParseBundle, BundleText, IsDigest, IsPublicBlob, Encode;
  }

  // ---- Verdicts on any disk ----

  /** A digest is 64 hexadecimal characters in lower case. */
  lemma DigestIsHex(s: string)
    ensures IsDigest(s) <==> |s| == 64 && forall i :: 0 <= i < 64 ==> s[i] in "0123456789abcdef"
  {
    forall i | 0 <= i < |s| ensures IsHex(s[i]) <==> s[i] in "0123456789abcdef" { HexIsListed(s[i]); }
  }

  lemma HexIsListed(c: char)
    ensures IsHex(c) <==> c in "0123456789abcdef"
  {
    var listed := "0123456789abcdef";
    if IsHex(c) {
      var i := if c <= '9' then c as int - '0' as int else 10 + c as int - 'a' as int;
      assert listed[i] == c;
    }
  }

  /** A receipt of a successful install over the fixed epoch: every claim is made, at a time of 63 bits. */
  ghost predicate ClaimsInstall(r: Receipt) {
    && r == Receipt(Installed, r.installedUnixNs, r.bundleDigest, r.keyId, EPOCH_DIGEST, true, true, true, true, true, true, true,
                    r.leafIdentityDigest, r.parentIdentityDigest, true)
    && 0 <= r.installedUnixNs <= 9_223_372_036_854_775_807
    && IsDigest(r.bundleDigest) && IsDigest(r.keyId) && IsDigest(r.leafIdentityDigest) && IsDigest(r.parentIdentityDigest)
  }

  lemma ClaimsAreValid(r: Receipt)
    ensures Valid(r) && r.result == Installed <==> ClaimsInstall(r)
  {
    EpochIsDigest();
    hide IsDigest;
  }

  /** INSTALLED, of any disk, says exactly this: no partial leaf; a bundle leaf with the text of a
      bundle that is well signed; and a receipt leaf with the text of a receipt of a successful
      install that names the digest and the key of that bundle, its own file and this directory. */
  lemma InstalledIsExact(rules: Rules, d: Disk, b: Bundle, r: Receipt)
    ensures Inspect(rules, d) == InstalledPair(b, r) <==>
      && d.partial.None? && d.bundle.Some? && d.receipt.Some?
      && ParseBundle(rules.hash, d.bundle.value.content) == Some(b)
      && rules.verify(b.publicKeyBlob, b.canonicalBody, b.signature)
      && ClaimsInstall(r) && d.receipt.value.content == ReceiptText(r)
      && r.bundleDigest == rules.hash.ofText(d.bundle.value.content) && r.keyId == b.keyId
      && r.leafIdentityDigest == rules.identityDigest(d.receipt.value.id) && r.parentIdentityDigest == rules.parentDigest
  {
    hide ParseReceipt, ReceiptText, ParseBundle, IsDigest, VerifyApproved;
    ClaimsAreValid(r);
    if d.bundle.Some? && d.receipt.Some? {
      var bundle, receipt := d.bundle.value, d.receipt.value;
      ReceiptRoundTrip(receipt.content, r);
      ApprovalIsExact(rules.hash, rules.verify, bundle.content, AuthorityNamed(r), b);
      if ParseBundle(rules.hash, bundle.content).Some? { BundleFits(rules.hash, bundle.content); }
      if Valid(r) { ReceiptFits(r); }
    }
  }

  /** ABSENT says exactly that none of the three leaves exists. */
  lemma AbsentIsExact(rules: Rules, d: Disk)
    ensures Inspect(rules, d).Absent? <==> d == EMPTY_DISK
  {
    hide ParseReceipt, VerifyApproved;
  }

  lemma PoisonedOtherwise(rules: Rules, d: Disk)
    requires !Inspect(rules, d).InstalledPair? && d != EMPTY_DISK
    ensures Inspect(rules, d) == Poisoned
  {
    AbsentIsExact(rules, d);
    hide Inspect;
  }

  /** A receipt leaf replaced by a byte-equal copy is another file: POISONED. */
  lemma CopiedReceiptIsPoisoned(rules: Rules, d: Disk, copy: File)
    requires Inspect(rules, d).InstalledPair? && copy.content == d.receipt.value.content
    requires rules.identityDigest(copy.id) != rules.identityDigest(d.receipt.value.id)
    ensures Inspect(rules, d.(receipt := Some(copy))) == Poisoned
  {
    var e := d.(receipt := Some(copy));
    ExactAt(rules, d);
    ExactAt(rules, e);
    hide Inspect, Valid, ReceiptText, ParseBundle;
    if Inspect(rules, e).InstalledPair? {
      OneReceipt(Inspect(rules, d).receipt, Inspect(rules, e).receipt);
    }
    PoisonedOtherwise(rules, e);
  }

  lemma ExactAt(rules: Rules, d: Disk)
    ensures Inspect(rules, d).InstalledPair? ==>
      var b, r := Inspect(rules, d).bundle, Inspect(rules, d).receipt;
      && d.partial.None? && d.bundle.Some? && d.receipt.Some?
      && ParseBundle(rules.hash, d.bundle.value.content) == Some(b)
      && Valid(r) && d.receipt.value.content == ReceiptText(r)
      && r.bundleDigest == rules.hash.ofText(d.bundle.value.content)
      && r.leafIdentityDigest == rules.identityDigest(d.receipt.value.id) && r.parentIdentityDigest == rules.parentDigest
  {
    hide Inspect, Valid, ReceiptText, ParseBundle, ClaimsInstall;
    if Inspect(rules, d).InstalledPair? {
      InstalledIsExact(rules, d, Inspect(rules, d).bundle, Inspect(rules, d).receipt);
      ClaimsAreValid(Inspect(rules, d).receipt);
    }
  }

  lemma OneReceipt(a: Receipt, b: Receipt)
    requires Valid(a) && Valid(b) && ReceiptText(a) == ReceiptText(b)
    ensures a == b
  {
    ReceiptRoundTrip(ReceiptText(a), a);
    ReceiptRoundTrip(ReceiptText(a), b);
    hide Valid, ReceiptText, ParseReceipt;
  }

  /** A pair moved to another directory: POISONED. */
  lemma MovedPairIsPoisoned(rules: Rules, other: Rules, d: Disk)
    requires Inspect(rules, d).InstalledPair? && other.parentDigest != rules.parentDigest
    ensures Inspect(other, d) == Poisoned
  {
    ExactAt(rules, d);
    ExactAt(other, d);
    hide Inspect, Valid, ReceiptText, ParseBundle;
    if Inspect(other, d).InstalledPair? { OneReceipt(Inspect(rules, d).receipt, Inspect(other, d).receipt); }
    PoisonedOtherwise(other, d);
  }

  /** A bundle leaf replaced by another content with another digest: POISONED. */
  lemma ReplacedBundleIsPoisoned(rules: Rules, d: Disk, bundle: File)
    requires Inspect(rules, d).InstalledPair?
    requires rules.hash.ofText(bundle.content) != rules.hash.ofText(d.bundle.value.content)
    ensures Inspect(rules, d.(bundle := Some(bundle))) == Poisoned
  {
    var e := d.(bundle := Some(bundle));
    ExactAt(rules, d);
    ExactAt(rules, e);
    hide Inspect, Valid, ReceiptText, ParseBundle;
    if Inspect(rules, e).InstalledPair? { OneReceipt(Inspect(rules, d).receipt, Inspect(rules, e).receipt); }
    PoisonedOtherwise(rules, e);
  }

  /** A partial leaf beside a pair: POISONED. */
  lemma PartialBesideIsPoisoned(rules: Rules, d: Disk)
    requires d.partial.Some?
    ensures Inspect(rules, d) == Poisoned
  {
    hide InspectPair;
  }

  /** With a hash without collisions, a receipt stands for one bundle text. */
  lemma ReceiptStandsForOneBundle(rules: Rules, d: Disk, e: Disk)
    requires forall x, y :: rules.hash.ofText(x) == rules.hash.ofText(y) ==> x == y
    requires Inspect(rules, d).InstalledPair? && Inspect(rules, e).InstalledPair? && d.receipt == e.receipt
    ensures d.bundle.Some? && e.bundle.Some? && d.bundle.value.content == e.bundle.value.content && Inspect(rules, d) == Inspect(rules, e)
  {
    ExactAt(rules, d);
    ExactAt(rules, e);
    hide Inspect, Valid, ReceiptText, ParseBundle;
    OneReceipt(Inspect(rules, d).receipt, Inspect(rules, e).receipt);
  }
}
