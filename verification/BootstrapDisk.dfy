/** The three leaves of the bootstrap directory, the lawful changes to them, and what the fixed
    reader makes of them. */
module BootstrapDisk {
  import opened Wrappers
  import opened BootstrapCodec
  import opened BootstrapBundle

  /** A file keeps its identity when it is renamed. */
  datatype File = File(id: nat, content: string)

  datatype Leaf = PartialLeaf | BundleLeaf | ReceiptLeaf

  datatype Disk = Disk(partial: Option<File>, bundle: Option<File>, receipt: Option<File>)

  const EMPTY_DISK := Disk(None, None, None)

  function At(d: Disk, leaf: Leaf): Option<File> {
    match leaf
    case PartialLeaf => d.partial
    case BundleLeaf => d.bundle
    case ReceiptLeaf => d.receipt
  }

  /** SHA-256, the signature check, and the digests of a file's and of the directory's identity. */
  datatype Rules = Rules(hash: Hash, verify: Verifier, identityDigest: nat -> string, parentDigest: string)

  const MAXIMUM: nat := 16_384

  // ---- The reader ----

  datatype Inspection = Absent | Poisoned | InstalledPair(bundle: Bundle, receipt: Receipt)

  /** The authority a receipt speaks for. */
  function AuthorityNamed(r: Receipt): Authority {
    Authority(AUTHORITY_REVISION, r.bundleDigest, r.keyId, r.epochDigest, true, false)
  }

  predicate ReadableSize(f: File) { 0 < |f.content| <= MAXIMUM }

  function InspectPair(rules: Rules, bundle: File, receipt: File): Inspection {
    if !ReadableSize(bundle) || !ReadableSize(receipt) then Poisoned
    else
      match ParseReceipt(receipt.content)
      case None => Poisoned
      case Some(r) =>
        if r.result != Installed || r.leafIdentityDigest != rules.identityDigest(receipt.id)
           || r.parentIdentityDigest != rules.parentDigest
        then Poisoned
        else
          match VerifyApproved(rules.hash, rules.verify, bundle.content, AuthorityNamed(r))
          case None => Poisoned
          case Some(b) => InstalledPair(b, r)
  }

  /** What the reader concludes when no port fails it. */
  function Inspect(rules: Rules, d: Disk): Inspection {
    if d.partial.Some? then Poisoned
    else if d.bundle.None? && d.receipt.None? then Absent
    else if d.bundle.None? || d.receipt.None? then Poisoned
    else InspectPair(rules, d.bundle.value, d.receipt.value)
  }

  // ---- Lawful changes ----

  predicate Creates(d: Disk, e: Disk) {
    d.partial.None? && e.partial.Some? && e == d.(partial := e.partial)
  }

  predicate Writes(d: Disk, e: Disk) {
    d.partial.Some? && e.partial.Some? && d.partial.value.id == e.partial.value.id && e == d.(partial := e.partial)
  }

  predicate PromotesBundle(d: Disk, e: Disk) {
    d.partial.Some? && d.bundle.None? && e == d.(partial := None, bundle := d.partial)
  }

  predicate PublishesReceipt(d: Disk, e: Disk) {
    d.partial.Some? && d.receipt.None? && e == d.(partial := None, receipt := d.partial)
  }

  predicate LawfulStep(d: Disk, e: Disk) {
    d == e || Creates(d, e) || Writes(d, e) || PromotesBundle(d, e) || PublishesReceipt(d, e)
  }

  predicate LawfulRun(run: seq<Disk>) {
    forall i :: 0 <= i < |run| - 1 ==> LawfulStep(run[i], run[i + 1])
  }

  /** No leaf but the partial one is ever rewritten, replaced or removed. */
  lemma {:induction false} PublishedLeavesStay(run: seq<Disk>, i: nat, j: nat)
    requires LawfulRun(run) && i <= j < |run|
    ensures run[i].bundle.Some? ==> run[j].bundle == run[i].bundle
    ensures run[i].receipt.Some? ==> run[j].receipt == run[i].receipt
    decreases j
  {
    if i < j {
      PublishedLeavesStay(run, i, j - 1);
      assert LawfulStep(run[j - 1], run[j - 1 + 1]);
    }
  }

  /** A receipt is on the disk only because a move put it there. */
  lemma {:induction false} ReceiptWasPublished(run: seq<Disk>, j: nat)
    requires LawfulRun(run) && j < |run| && run[0].receipt.None? && run[j].receipt.Some?
    ensures exists i :: 0 <= i < j && PublishesReceipt(run[i], run[i + 1])
    decreases j
  {
    if run[j - 1].receipt.Some? {
      ReceiptWasPublished(run, j - 1);
    } else {
      assert LawfulStep(run[j - 1], run[j - 1 + 1]);
      assert PublishesReceipt(run[j - 1], run[j - 1 + 1]);
    }
  }

  /** A bundle that carries a good signature over the fixed epoch. */
  predicate Signed(rules: Rules, content: string) {
    var b := ParseBundle(rules.hash, content);
    b.Some? && rules.verify(b.value.publicKeyBlob, b.value.canonicalBody, b.value.signature)
  }

  /** What holds of the disk at every moment: the bundle is signed, and a receipt stands beside a
      bundle with which it makes a pair the reader accepts. */
  predicate GoodDisk(rules: Rules, d: Disk) {
    && (d.bundle.Some? ==> Signed(rules, d.bundle.value.content))
    && (d.receipt.Some? ==> d.bundle.Some? && InspectPair(rules, d.bundle.value, d.receipt.value).InstalledPair?)
  }

  lemma ApprovedIsSigned(rules: Rules, payload: string, a: Authority)
    requires VerifyApproved(rules.hash, rules.verify, payload, a).Some?
    ensures Signed(rules, payload) && 0 < |payload| <= MAXIMUM
  {
    BundleFits(rules.hash, payload);
    hide ParseBundle, ValidFor;
  }

  /** `_installed_receipt` */
  function ReceiptFor(rules: Rules, b: Bundle, receiptId: nat, clock: int): Receipt {
    Receipt(Installed, clock, rules.hash.ofText(b.canonicalBytes), b.keyId, b.epochDigest,
            true, true, true, true, true, true, true, rules.identityDigest(receiptId), rules.parentDigest, true)
  }

  /** What a bundle brings to a valid receipt. */
  predicate Certified(rules: Rules, b: Bundle) {
    IsDigest(rules.hash.ofText(b.canonicalBytes)) && IsDigest(b.keyId) && b.epochDigest == EPOCH_DIGEST
  }

  lemma ApprovedIsCertified(rules: Rules, payload: string, a: Authority)
    requires VerifyApproved(rules.hash, rules.verify, payload, a).Some?
    ensures Certified(rules, VerifyApproved(rules.hash, rules.verify, payload, a).value)
  {
    BundleIsDetermined(rules.hash, payload);
    hide ParseBundle, IsDigest, BundleText, IsPublicBlob;
  }

  lemma IdealReceipt(rules: Rules, b: Bundle, id: nat, clock: int)
    requires Certified(rules, b) && 0 <= clock < MAX_NS
    ensures IsDigest(rules.parentDigest) && IsDigest(rules.identityDigest(id)) ==> Valid(ReceiptFor(rules, b, id, clock))
  {
    EpochIsDigest();
    hide IsDigest;
  }

  /** A receipt written for an approved payload makes the pair the reader accepts, whatever
      authority approved the payload. */
  lemma PairIsAccepted(rules: Rules, payload: string, a: Authority, bundle: File, receipt: File, clock: int)
    requires VerifyApproved(rules.hash, rules.verify, payload, a).Some?
    requires bundle.content == payload
    requires var r := ReceiptFor(rules, VerifyApproved(rules.hash, rules.verify, payload, a).value, receipt.id, clock);
             Valid(r) && receipt.content == ReceiptText(r)
    ensures var b := VerifyApproved(rules.hash, rules.verify, payload, a).value;
            InspectPair(rules, bundle, receipt) == InstalledPair(b, ReceiptFor(rules, b, receipt.id, clock))
  {
    var b := VerifyApproved(rules.hash, rules.verify, payload, a).value;
    var r := ReceiptFor(rules, b, receipt.id, clock);
    ApprovedIsSigned(rules, payload, a);
    ReceiptFits(r);
    ReceiptRoundTrip(receipt.content, r);
    BundleIsDetermined(rules.hash, payload);
    hide ParseBundle, ParseReceipt, ReceiptText, IsDigest, BundleText, IsPublicBlob;
    assert VerifyApproved(rules.hash, rules.verify, payload, AuthorityNamed(r)) == Some(b);
  }
}
