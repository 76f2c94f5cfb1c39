/** `FixedBootstrapReader`: it concludes nothing that the disk does not bear out, and holds on to
    its handles and its directory lease only when it found an installed pair. */
module BootstrapReader {
  import opened Wrappers
  import opened BootstrapCodec
  import opened BootstrapDisk
  import opened BootstrapPorts
  import opened BootstrapInstaller

  /** `FixedBootstrapLease` */
  datatype Lease = Lease(bundleHandle: nat, receiptHandle: nat, bundleBytes: string, receiptBytes: string)

  ghost predicate Released(world: World)
    reads world
  {
    world.Valid() && world.open == map[] && !world.parentOpen
  }

  /** The lease owns exactly the two open handles and the directory, and its bytes are the leaves'. */
  ghost predicate Holds(world: World, lease: Lease)
    reads world
  {
    && world.Valid() && world.parentOpen
    && lease.bundleHandle != lease.receiptHandle
    && world.open.Keys == {lease.bundleHandle, lease.receiptHandle}
    && world.open[lease.bundleHandle].leaf == BundleLeaf && world.open[lease.receiptHandle].leaf == ReceiptLeaf
    && world.disk.bundle.value.content == lease.bundleBytes
    && world.disk.receipt.value.content == lease.receiptBytes
  }

  /** `_close_failure`: both collections are closed from the last handle, then the directory. */
  method CloseFailure(world: World, handles: seq<nat>) returns (result: Inspection, lease: Option<Lease>)
    requires world.Valid() && Owns(world, handles) && world.parentOpen
    modifies world`open, world`parentOpen, world`unclean
    ensures Released(world) && result == Poisoned && lease == None
  {
    hide LawfulRun, GoodDisk;
    var _ := CloseAll(world, handles);
    var _ := world.CloseParent();
    result, lease := Poisoned, None;
  }

  /** `_valid_info`: None when the leaf cannot be used. `faulted` tells whether a port was to blame. */
  method CheckLeaf(world: World, k: nat) returns (found: Option<InfoAnswer>, ghost faulted: bool)
    requires world.Valid() && k in world.open && At(world.disk, world.open[k].leaf).Some?
    modifies world`facts, world`calls
    ensures world.Valid() && old(world.facts) <= world.facts && old(world.calls) <= world.calls
    ensures found.Some? ==> Plain(At(world.disk, world.open[k].leaf).value) in world.facts
    ensures found.Some? ==>
      && found.value == Info(true, |At(world.disk, world.open[k].leaf).value.content|, At(world.disk, world.open[k].leaf).value.id)
      && ReadableSize(At(world.disk, world.open[k].leaf).value)
    ensures world.steady ==> !faulted
    ensures found.None? && !faulted ==> !ReadableSize(At(world.disk, world.open[k].leaf).value)
  {
    hide LawfulRun, GoodDisk;
    var info := world.Info(k);
    if info.InfoRaised? || !info.ordinary { return None, true; }
    found, faulted := if 0 < info.size <= MAXIMUM then Some(info) else None, false;
  }

  /** The whole content of a leaf of a known size, if the port delivers it. */
  method FetchLeaf(world: World, k: nat, size: nat) returns (bytes: Option<string>)
    requires world.Valid() && k in world.open && world.open[k].position == 0 && size <= MAXIMUM
    requires At(world.disk, world.open[k].leaf).Some? && size == |At(world.disk, world.open[k].leaf).value.content|
    modifies world`open, world`facts, world`calls
    ensures world.Valid() && old(world.facts) <= world.facts && old(world.calls) <= world.calls
    ensures world.open.Keys == old(world.open).Keys
    ensures forall j :: j in world.open ==> world.open[j].leaf == old(world.open)[j].leaf
    ensures forall j :: j in world.open && j != k ==> world.open[j] == old(world.open)[j]
    ensures bytes.Some? ==> bytes.value == At(world.disk, old(world.open)[k].leaf).value.content
    ensures bytes.Some? ==> ReadBack(old(world.open)[k].leaf, bytes.value) in world.facts
    ensures world.steady ==> bytes.Some?
  {
    hide LawfulRun, GoodDisk;
    ghost var content := At(world.disk, world.open[k].leaf).value.content;
    var read := world.Read(k, MAXIMUM + 1);
    if !read.ReadBytes? || |read.bytes| != size { return None; }
    assert content[0..] == content;
    bytes := Some(read.bytes);
  }

  /** The directory lease must be valid and durable before anything is looked at. */
  method CheckDirectory(world: World) returns (ready: bool)
    requires world.Valid() && world.parentOpen
    modifies world`facts, world`calls
    ensures world.Valid() && old(world.calls) <= world.calls && (world.steady ==> ready)
    ensures ready ==> world.calls == old(world.calls) + [ParentValid(Yes), Synced(Yes)]
  {
    hide LawfulRun, GoodDisk;
    var valid := world.ValidateParent();
    var durable := Answer.No;
    if valid.Yes? { durable := world.MakeDurable(); }
    ready := valid.Yes? && durable.Yes?;
  }

  /** Both leaves were ordinary files and were read. */
  ghost predicate BothRead(facts: set<Fact>, d: Disk) {
    && d.bundle.Some? && Plain(d.bundle.value) in facts && ReadBack(BundleLeaf, d.bundle.value.content) in facts
    && d.receipt.Some? && Plain(d.receipt.value) in facts && ReadBack(ReceiptLeaf, d.receipt.value.content) in facts
  }

  /** `inspect` */
  method InspectLeaves(world: World) returns (result: Inspection, lease: Option<Lease>, ghost faulted: bool)
    requires world.Valid() && world.open == map[] && world.parentOpen
    modifies world`open, world`nextHandle, world`parentOpen, world`unclean, world`facts, world`calls
    ensures !result.Poisoned? ==> result == Inspect(world.rules, world.disk)
    ensures !faulted ==> result == Inspect(world.rules, world.disk)
    ensures world.steady ==> !faulted
    ensures !result.Poisoned? ==> old(world.calls) + [ParentValid(Yes), Synced(Yes)] <= world.calls
    ensures result.InstalledPair? ==> BothRead(world.facts, world.disk)
    ensures lease.Some? <==> result.InstalledPair?
    ensures if lease.Some? then Holds(world, lease.value) else Released(world)
  {
    hide LawfulRun, GoodDisk, InspectPair;
    faulted := true;
    var ready := CheckDirectory(world);
    if !ready {
      result, lease := CloseFailure(world, []);
      return;
    }
    var partial := world.OpenInspection(PartialLeaf);
    if !partial.NotThere? {
      faulted := partial.Ambiguous?;
      result, lease := CloseFailure(world, if partial.Opened? then [partial.handle] else []);
      return;
    }
    var bundle := world.OpenInspection(BundleLeaf);
    var receipt := world.OpenInspection(ReceiptLeaf);
    var handles := (if bundle.Opened? then [bundle.handle] else []) + (if receipt.Opened? then [receipt.handle] else []);
    if bundle.Ambiguous? || receipt.Ambiguous? {
      result, lease := CloseFailure(world, handles);
      return;
    }
    if bundle.NotThere? && receipt.NotThere? {
      var clean := world.CloseParent();
      faulted := !clean.Yes?;
      return if clean.Yes? then Absent else Poisoned, None, faulted;
    }
    faulted := false;
    if !bundle.Opened? || !receipt.Opened? {
      result, lease := CloseFailure(world, handles);
      return;
    }
    result, lease, faulted := InspectOpened(world, bundle.handle, receipt.handle);
  }

  /** `inspect` once both leaves are open. */
  method InspectOpened(world: World, bundleHandle: nat, receiptHandle: nat)
    returns (result: Inspection, lease: Option<Lease>, ghost faulted: bool)
    requires world.Valid() && world.parentOpen && bundleHandle != receiptHandle
    requires world.open == map[bundleHandle := Handle(BundleLeaf, 0), receiptHandle := Handle(ReceiptLeaf, 0)]
    requires world.disk.bundle.Some? && world.disk.receipt.Some?
    modifies world`open, world`parentOpen, world`unclean, world`facts, world`calls
    ensures !result.Poisoned? ==> result == InspectPair(world.rules, world.disk.bundle.value, world.disk.receipt.value)
    ensures !faulted ==> result == InspectPair(world.rules, world.disk.bundle.value, world.disk.receipt.value)
    ensures world.steady ==> !faulted
    ensures old(world.calls) <= world.calls && (result.InstalledPair? ==> BothRead(world.facts, world.disk))
    ensures !result.Absent? && (lease.Some? <==> result.InstalledPair?)
    ensures if lease.Some? then Holds(world, lease.value) else Released(world)
  {
    hide LawfulRun, GoodDisk, InspectPair;
    var read, fault := ReadPair(world, bundleHandle, receiptHandle);
    faulted := fault;
    result := Poisoned;
    if read.Some? {
      result := Judge(world.rules, read.value.bundle, read.value.receipt, read.value.receiptId);
      assert world.disk.receipt.value == File(read.value.receiptId, read.value.receipt);
      assert world.disk.bundle.value == File(world.disk.bundle.value.id, read.value.bundle);
    } else {
      UnreadableIsPoisoned(world.rules, world.disk.bundle.value, world.disk.receipt.value);
    }
    if result.Poisoned? {
      result, lease := CloseFailure(world, [bundleHandle, receiptHandle]);
      return;
    }
    lease := Some(Lease(bundleHandle, receiptHandle, read.value.bundle, read.value.receipt));
  }

  lemma UnreadableIsPoisoned(rules: Rules, bundle: File, receipt: File)
    ensures !ReadableSize(bundle) || !ReadableSize(receipt) ==> InspectPair(rules, bundle, receipt) == Poisoned
  {
    hide ParseReceipt, VerifyApproved;
  }

  datatype PairRead = PairRead(bundle: string, receipt: string, receiptId: nat)

  /** Both leaves are looked at, and then both are read. */
  method ReadPair(world: World, bundleHandle: nat, receiptHandle: nat) returns (read: Option<PairRead>, ghost faulted: bool)
    requires world.Valid() && bundleHandle != receiptHandle
    requires world.open == map[bundleHandle := Handle(BundleLeaf, 0), receiptHandle := Handle(ReceiptLeaf, 0)]
    requires world.disk.bundle.Some? && world.disk.receipt.Some?
    modifies world`open, world`facts, world`calls
    ensures world.Valid() && old(world.calls) <= world.calls && world.open.Keys == old(world.open).Keys
    ensures forall j :: j in world.open ==> world.open[j].leaf == old(world.open)[j].leaf
    ensures world.steady ==> !faulted
    ensures read.None? && !faulted ==> !ReadableSize(world.disk.bundle.value) || !ReadableSize(world.disk.receipt.value)
    ensures read.Some? ==> !faulted && ReadableSize(world.disk.bundle.value) && ReadableSize(world.disk.receipt.value)
    ensures read.Some? ==>
      read.value == PairRead(world.disk.bundle.value.content, world.disk.receipt.value.content, world.disk.receipt.value.id)
    ensures read.Some? ==> BothRead(world.facts, world.disk)
  {
    hide LawfulRun, GoodDisk;
    var bundleInfo, bundleFault := CheckLeaf(world, bundleHandle);
    var receiptInfo, receiptFault := CheckLeaf(world, receiptHandle);
    if bundleInfo.None? || receiptInfo.None? {
      return None, (bundleInfo.None? ==> bundleFault) && (receiptInfo.None? ==> receiptFault);
    }
    var bundleBytes := FetchLeaf(world, bundleHandle, bundleInfo.value.size);
    var receiptBytes := FetchLeaf(world, receiptHandle, receiptInfo.value.size);
    if bundleBytes.None? || receiptBytes.None? { return None, true; }
    return Some(PairRead(bundleBytes.value, receiptBytes.value, receiptInfo.value.id)), false;
  }

  /** What the bytes of the two leaves, and the identity of the receipt's file, amount to. */
  method Judge(rules: Rules, bundle: string, receipt: string, receiptId: nat) returns (result: Inspection)
    requires 0 < |bundle| <= MAXIMUM && 0 < |receipt| <= MAXIMUM
    ensures forall bundleId: nat :: result == InspectPair(rules, File(bundleId, bundle), File(receiptId, receipt))
    ensures !result.Absent?
  {
    hide ParseReceipt, VerifyApproved;
    var parsed := ParseReceipt(receipt);
    if parsed.None? || parsed.value.result != Installed || parsed.value.leafIdentityDigest != rules.identityDigest(receiptId)
       || parsed.value.parentIdentityDigest != rules.parentDigest
    {
      return Poisoned;
    }
    var approved := VerifyApproved(rules.hash, rules.verify, bundle, AuthorityNamed(parsed.value));
    if approved.None? {
      return Poisoned;
    }
    result := InstalledPair(approved.value, parsed.value);
  }

  /** `FixedBootstrapLease.close`, the first time: both handles in reverse order, then the directory. */
  method CloseLease(world: World, lease: Lease) returns (clean: bool)
    requires Holds(world, lease)
    modifies world`open, world`parentOpen, world`unclean
    ensures Released(world) && (clean <==> world.unclean == old(world.unclean))
  {
    hide LawfulRun, GoodDisk;
    var receiptClosed := world.Close(lease.receiptHandle);
    var bundleClosed := world.Close(lease.bundleHandle);
    var parentClosed := world.CloseParent();
    clean := receiptClosed.Yes? && bundleClosed.Yes? && parentClosed.Yes?;
  }
}
