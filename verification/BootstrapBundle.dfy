/** What a bundle can be: its text is determined by the public key and the signature. */
module BootstrapBundle {
  import opened Wrappers
  import opened Json
  import opened Records
  import opened BootstrapCodec
  import B64 = Base64Url

  lemma BodyDetermined(m: Members, body: seq<Value>, keyText: string)
    requires Take(m, BODY_KEYS) == Some(body) && |body| == 4
    requires body[0] == Str(AUTHORITY_REVISION) && body[3] == Str(PUBLIC_KEY_FORMAT) && body[1] == Str(EPOCH_DIGEST)
    requires body[2] == Str(keyText)
    ensures m == BodyOf(keyText)
  {
    TakeIsExact(m, BODY_KEYS, body);
    assert body == BodyValues(keyText);
    hide Take;
  }

  /** What the field checks leave. */
  lemma BundleFields(h: Hash, payload: string, root: seq<Value>, body: seq<Value>)
    requires |root| == 6 && root[0].Obj? && |body| == 4
    requires BundleOf(h, payload, root, body).Some?
    ensures var b := BundleOf(h, payload, root, body).value;
            && b.canonicalBytes == payload && b.canonicalBody == Encode(root[0]) && b.epochDigest == EPOCH_DIGEST
            && IsPublicBlob(b.publicKeyBlob) && |b.signature| == 64
            && b.keyId == h.ofBytes(b.publicKeyBlob) && IsDigest(b.keyId)
            && body == BodyValues(B64.Encode(b.publicKeyBlob))
            && root[1..] == RootValues(B64.Encode(b.publicKeyBlob), b.keyId, B64.Encode(b.signature))[1..]
  {
    var b := BundleOf(h, payload, root, body).value;
    hide Encode, IsDigest, LittleEndian;
    B64.DecodeIsExact(body[2].text, b.publicKeyBlob, 72);
    B64.DecodeIsExact(root[5].text, b.signature, 64);
  }

  /** A parsed bundle is the one text of its public key and signature, and its key id is the hash
      of the key. */
  lemma BundleIsDetermined(h: Hash, payload: string)
    requires ParseBundle(h, payload).Some?
    ensures var b := ParseBundle(h, payload).value;
            && payload == b.canonicalBytes == BundleText(b.publicKeyBlob, b.keyId, b.signature)
            && b.canonicalBody == Encode(Obj(BodyOf(B64.Encode(b.publicKeyBlob))))
            && IsPublicBlob(b.publicKeyBlob) && |b.signature| == 64
            && b.keyId == h.ofBytes(b.publicKeyBlob) && IsDigest(b.keyId) && b.epochDigest == EPOCH_DIGEST
  {
    var root := ReadRecord(payload, ROOT_KEYS).value;
    var body := Take(root[0].members, BODY_KEYS).value;
    var b := ParseBundle(h, payload).value;
    assert BundleOf(h, payload, root, body) == Some(b);
    RootKeysOrdered();
    ReadIsExact(payload, ROOT_KEYS, root);
    hide ReadRecord, Take, ParseBundle, BundleOf, Encode, Text, IsDigest, AllPlain, Ascending, AllGood, IsPublicBlob;
    BundleFields(h, payload, root, body);
    BodyDetermined(root[0].members, body, B64.Encode(b.publicKeyBlob));
    var expected := RootValues(B64.Encode(b.publicKeyBlob), b.keyId, B64.Encode(b.signature));
    assert root == [root[0]] + root[1..] && expected == [expected[0]] + expected[1..];
  }

  lemma CharPlain(x: B64.Sextet)
    ensures PlainChar(B64.CharOf(x))
  {
  }

  lemma {:induction false} Base64Plain(b: seq<B64.Byte>)
    ensures Plain(B64.Encode(b))
  {
    B64.EncodeInTwoSteps(b);
    CharsPlain(B64.EncodedSextets(b));
  }

  lemma {:induction false} CharsPlain(x: seq<B64.Sextet>)
    ensures Plain(B64.Chars(x))
  {
    if x != [] {
      CharPlain(x[0]);
      CharsPlain(x[1..]);
    }
  }

  lemma BodyGood(keyText: string)
    requires Plain(keyText)
    ensures Canonical(BodyOf(keyText))
  {
    BodyKeysOrdered();
    BundleConstantsPlain();
    FormatPlain();
    EpochIsDigest();
    DigestPlain(EPOCH_DIGEST);
    StrGood(AUTHORITY_REVISION);
    StrGood(EPOCH_DIGEST);
    StrGood(keyText);
    StrGood(PUBLIC_KEY_FORMAT);
    hide Plain, Good, AllPlain, Ascending, Canonical;
    BuildIsCanonical(BODY_KEYS, BodyValues(keyText));
  }

  lemma ObjGood(m: Members)
    requires Canonical(m)
    ensures Good(Obj(m))
  {
  }

  lemma RootGood(keyText: string, keyId: string, signatureText: string)
    requires Plain(keyText) && IsDigest(keyId) && Plain(signatureText)
    ensures AllGood(RootValues(keyText, keyId, signatureText))
  {
    BodyGood(keyText);
    ObjGood(BodyOf(keyText));
    BundleConstantsPlain();
    DigestPlain(keyId);
    StrGood(BOOTSTRAP_DOMAIN);
    StrGood(keyId);
    ScalarGood(Int(1));
    StrGood(SIGNATURE_ALGORITHM);
    StrGood(signatureText);
    hide Plain, Good, IsDigest, BodyOf, Canonical;
  }

  /** Every P-256 key and 64-byte signature has a bundle, which is read back. */
  lemma BundleReadsBack(h: Hash, blob: seq<B64.Byte>, signature: seq<B64.Byte>)
    requires IsPublicBlob(blob) && |signature| == 64 && IsDigest(h.ofBytes(blob))
    ensures var payload := BundleText(blob, h.ofBytes(blob), signature);
            ParseBundle(h, payload)
            == Some(Bundle(payload, Encode(Obj(BodyOf(B64.Encode(blob)))), blob, h.ofBytes(blob), EPOCH_DIGEST, signature))
  {
    var keyText, signatureText, keyId := B64.Encode(blob), B64.Encode(signature), h.ofBytes(blob);
    var root, payload := RootValues(keyText, keyId, signatureText), BundleText(blob, keyId, signature);
    Base64Plain(blob);
    Base64Plain(signature);
    RootGood(keyText, keyId, signatureText);
    RootKeysOrdered();
    ReadIsExact(payload, ROOT_KEYS, root);
    TakeIsExact(BodyOf(keyText), BODY_KEYS, BodyValues(keyText));
    B64.DecodeIsExact(keyText, blob, 72);
    B64.DecodeIsExact(signatureText, signature, 64);
    assert root[0] == Obj(BodyOf(keyText));
    BundleOfParts(h, payload, blob, signature);
    hide ReadRecord, Take, Encode, Text, IsDigest, AllPlain, Ascending, AllGood, B64.Decode, B64.Encode, Plain, BodyOf, IsPublicBlob, BundleOf;
  }

  lemma BundleOfParts(h: Hash, payload: string, blob: seq<B64.Byte>, signature: seq<B64.Byte>)
    requires IsPublicBlob(blob) && IsDigest(h.ofBytes(blob))
    requires B64.Decode(B64.Encode(blob), 72) == Some(blob) && B64.Decode(B64.Encode(signature), 64) == Some(signature)
    ensures var root := RootValues(B64.Encode(blob), h.ofBytes(blob), B64.Encode(signature));
            BundleOf(h, payload, root, BodyValues(B64.Encode(blob)))
            == Some(Bundle(payload, Encode(root[0]), blob, h.ofBytes(blob), EPOCH_DIGEST, signature))
  {
    hide Encode, IsDigest, B64.Decode, B64.Encode, BodyOf;
  }

  /** Every bundle fits in the 16384 bytes the reader allows: the installer's own limit of one byte
      more makes no difference. */
  lemma BundleFits(h: Hash, payload: string)
    requires ParseBundle(h, payload).Some?
    ensures 0 < |payload| <= 16_384
  {
    BundleIsDetermined(h, payload);
    var b := ParseBundle(h, payload).value;
    B64.FormatLengths(b.publicKeyBlob);
    B64.FormatLengths(b.signature);
    hide ParseBundle, BundleText;
    BundleTextFits(b.publicKeyBlob, b.keyId, b.signature);
  }

  lemma BodyFits(keyText: string)
    requires |keyText| == 96
    ensures |EncodeMembers(BodyOf(keyText))| <= 1000
  {
    ConstantsShort();
    StrLength(AUTHORITY_REVISION);
    StrLength(EPOCH_DIGEST);
    StrLength(keyText);
    StrLength(PUBLIC_KEY_FORMAT);
    hide Encode;
    assert forall i :: 0 <= i < 4 ==> |BODY_KEYS[i]| <= 25;
    TextLength(BODY_KEYS, BodyValues(keyText), 200);
  }

  lemma StrLength(s: string)
    ensures |Encode(Str(s))| == |s| + 2
  {
  }

  lemma ConstantsShort()
    ensures |AUTHORITY_REVISION| <= 64 && |EPOCH_DIGEST| <= 64 && |PUBLIC_KEY_FORMAT| <= 64
    ensures |BOOTSTRAP_DOMAIN| <= 64 && |SIGNATURE_ALGORITHM| <= 64
  {
  }

  lemma BundleTextFits(blob: seq<B64.Byte>, keyId: string, signature: seq<B64.Byte>)
    requires |B64.Encode(blob)| == 96 && IsDigest(keyId) && |B64.Encode(signature)| == 86
    ensures 0 < |BundleText(blob, keyId, signature)| <= 16_384
  {
    var keyText, signatureText := B64.Encode(blob), B64.Encode(signature);
    var root := RootValues(keyText, keyId, signatureText);
    BodyFits(keyText);
    ObjectLength(BodyOf(keyText));
    ConstantsShort();
    StrLength(BOOTSTRAP_DOMAIN);
    StrLength(keyId);
    TimeShort(1);
    StrLength(SIGNATURE_ALGORITHM);
    StrLength(signatureText);
    hide Encode, BodyOf;
    assert forall i :: 0 <= i < 6 ==> |ROOT_KEYS[i]| <= 25;
    TextLength(ROOT_KEYS, root, 1100);
    ObjectLength(Build(ROOT_KEYS, root));
  }
}
