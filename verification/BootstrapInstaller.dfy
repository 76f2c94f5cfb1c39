/** `OneShotBootstrapInstaller`: the publish protocol, step by step, over ports that may fail. */
module BootstrapInstaller {
  import opened Wrappers
  import opened BootstrapCodec
  import opened BootstrapDisk
  import opened BootstrapPorts

  datatype Outcome = Outcome(result: ProvisioningResult, receipt: Option<Receipt>)

  /** The handle list holds exactly the open handles, each once. */
  ghost predicate Owns(world: World, handles: seq<nat>)
    reads world
  {
    && (forall i, j :: 0 <= i < j < |handles| ==> handles[i] != handles[j])
    && (forall k :: k in handles <==> k in world.open)
  }

  /** An earlier call answered that it was not sure. */
  predicate Unsure(call: Call) { call.Looked? && call.found.Ambiguous? }

  /** What a port's answer means for the result wherever it is given. */
  function Code(call: Call): ProvisioningResult {
    match call
    case MutexMade(_) => CleanupFailed
    case ParentValid(_) => DurabilityFailed
    case Made(made) => if made.Exists? then AlreadyExists else WriteFailed
    case FlushTried(answer) => if answer.No? then DurabilityFailed else WriteFailed
    case Sought(answer) => if answer.No? then ReadbackFailed else WriteFailed
    case Synced(_) => DurabilityFailed
    case PublishTried(ok) => if ok then Installed else WriteFailed
    case _ => WriteFailed
  }

  /** What the last answer means, after the ones before it: looking for the leaves in the beginning,
      looking at the promoted bundle, and looking at a file before and after it was written. */
  function Told(calls: seq<Call>): ProvisioningResult
    requires calls != []
  {
    var last := calls[|calls| - 1];
    var before := if |calls| >= 2 then calls[|calls| - 2] else last;
    var first := if |calls| >= 3 then calls[|calls| - 3] else last;
    match last
    case Looked(leaf, _) =>
      if leaf != PartialLeaf then ReadbackFailed
      else if Unsure(last) || Unsure(before) || Unsure(first) then WriteFailed else AlreadyExists
    case Asked(info) =>
      if before.Looked? then ReadbackFailed
      else if info.InfoRaised? || before.Made? || before.Timed? then WriteFailed
      else ReadbackFailed
    case Fetched(read) => if read.ReadRaised? && before.Sought? then WriteFailed else ReadbackFailed
    case _ => Code(last)
  }

  lemma Tells(calls: seq<Call>, last: Call)
    ensures !last.Looked? && !last.Asked? && !last.Fetched? ==> Told(calls + [last]) == Code(last)
    ensures calls != [] && last.Asked? ==>
      var before := calls[|calls| - 1];
      Told(calls + [last]) ==
        if before.Looked? then ReadbackFailed
        else if last.info.InfoRaised? || before.Made? || before.Timed? then WriteFailed else ReadbackFailed
    ensures calls != [] && last.Fetched? ==>
      Told(calls + [last]) == if last.read.ReadRaised? && calls[|calls| - 1].Sought? then WriteFailed else ReadbackFailed
  {
  }

  /** `_close_all`: from the last handle to the first, whatever the answers. */
  method CloseAll(world: World, handles: seq<nat>) returns (clean: bool)
    requires world.Valid() && Owns(world, handles)
    modifies world`open, world`unclean
    ensures world.Valid() && world.open == map[]
    ensures world.unclean >= old(world.unclean) && (clean <==> world.unclean == old(world.unclean))
    ensures world.steady ==> clean
  {
    hide LawfulRun, GoodDisk;
    clean := true;
    var rest := handles;
    while rest != []
      invariant world.Valid() && Owns(world, rest)
      invariant world.unclean >= old(world.unclean) && (clean <==> world.unclean == old(world.unclean))
      invariant world.steady ==> clean
      decreases |rest|
    {
      var last := |rest| - 1;
      var closed := world.Close(rest[last]);
      clean := closed.Yes? && clean;
      rest := rest[..last];
    }
  }

  /** `_failure` */
  method Failure(world: World, primary: ProvisioningResult, handles: seq<nat>, mutex: InstallMutex) returns (o: Outcome)
    requires world.Valid() && Owns(world, handles) && world.parentOpen
    requires mutex.world == world && mutex.Consistent() && mutex.owned && !mutex.closed
    modifies world`open, world`parentOpen, world`mutexOpen, world`unclean, mutex
    ensures world.Valid() && world.open == map[] && !world.parentOpen && !world.mutexOpen
    ensures world.unclean >= old(world.unclean)
    ensures o == Outcome(if world.unclean == old(world.unclean) then primary else CleanupFailed, None)
    ensures world.steady ==> o.result == primary
  {
    hide LawfulRun, GoodDisk;
    var clean := CloseAll(world, handles);
    var parentClosed := world.CloseParent();
    clean := parentClosed.Yes? && clean;
    var mutexClean := mutex.Cleanup();
    clean := mutexClean && clean;
    o := Outcome(if clean then primary else CleanupFailed, None);
  }

  const FOUND_EMPTY: seq<Call> := [Looked(BundleLeaf, NotThere), Looked(ReceiptLeaf, NotThere), Looked(PartialLeaf, NotThere)]

  /** `_preflight_absence`: no problem means that none of the three leaves exists. */
  method Preflight(world: World) returns (problem: Option<ProvisioningResult>, handles: seq<nat>)
    requires world.Valid() && world.open == map[]
    modifies world`open, world`nextHandle, world`calls
    ensures world.Valid() && Owns(world, handles)
    ensures |world.calls| == |old(world.calls)| + 3 && old(world.calls) <= world.calls
    ensures var n := |old(world.calls)|;
            && world.calls[n].Looked? && world.calls[n].leaf == BundleLeaf
            && world.calls[n + 1].Looked? && world.calls[n + 1].leaf == ReceiptLeaf
            && world.calls[n + 2].Looked? && world.calls[n + 2].leaf == PartialLeaf
            && problem == (if Unsure(world.calls[n]) || Unsure(world.calls[n + 1]) || Unsure(world.calls[n + 2]) then Some(WriteFailed)
                           else if world.disk != EMPTY_DISK then Some(AlreadyExists) else None)
    ensures problem.None? ==> handles == [] && world.calls == old(world.calls) + FOUND_EMPTY
    ensures world.steady ==> problem == if world.disk == EMPTY_DISK then None else Some(AlreadyExists)
  {
    hide LawfulRun, GoodDisk;
    ghost var made: seq<Call> := [];
    handles := [];
    var ambiguous, existing := false, false;
    var leaves := [BundleLeaf, ReceiptLeaf, PartialLeaf];
    var i := 0;
    while i < 3
      invariant 0 <= i <= 3 && world.Valid() && Owns(world, handles)
      invariant existing <==> handles != []
      invariant existing ==> world.disk != EMPTY_DISK
      invariant world.steady ==> !ambiguous
      invariant world.calls == old(world.calls) + made && |made| == i
      invariant forall j :: 0 <= j < i ==> made[j].Looked? && made[j].leaf == leaves[j]
      invariant ambiguous <==> exists j :: 0 <= j < i && Unsure(made[j])
      invariant ambiguous || existing || forall j :: 0 <= j < i ==> made[j].found.NotThere?
      invariant ambiguous || existing || forall j :: 0 <= j < i ==> At(world.disk, leaves[j]).None?
    {
      var answer := world.OpenInspection(leaves[i]);
      made := made + [Looked(leaves[i], answer)];
      if answer.Ambiguous? {
        assert Unsure(made[i]);
        ambiguous := true;
      } else if answer.Opened? {
        handles := handles + [answer.handle];
        existing := true;
      }
      i := i + 1;
    }
    assert forall j :: 0 <= j < 3 ==> made[j] == world.calls[|old(world.calls)| + j];
    assert ambiguous <==> Unsure(made[0]) || Unsure(made[1]) || Unsure(made[2]);
    if ambiguous { return Some(WriteFailed), handles; }
    if existing { return Some(AlreadyExists), handles; }
    assert At(world.disk, leaves[0]).None? && At(world.disk, leaves[1]).None? && At(world.disk, leaves[2]).None?;
    problem := None;
  }

  /** The write loop: partial writes are continued. */
  method WriteAll(world: World, k: nat, payload: string) returns (ok: bool)
    requires world.Valid() && k in world.open && world.open[k].leaf == PartialLeaf && world.calls != []
    modifies world`disk, world`open, world`history, world`calls
    ensures world.Valid() && old(world.history) <= world.history && old(world.calls) <= world.calls
    ensures !ok ==> world.calls[|world.calls| - 1].Wrote?
    ensures world.open.Keys == old(world.open).Keys
    ensures forall j :: j in world.open ==> world.open[j].leaf == old(world.open)[j].leaf
    ensures world.disk == old(world.disk).(partial := world.disk.partial)
    ensures world.disk.partial.Some? && world.disk.partial.value.id == old(world.disk).partial.value.id
    ensures world.steady && old(world.disk.partial.value.content) == "" && old(world.open[k].position) == 0 ==>
      ok && world.disk.partial.value.content == payload
  {
    hide LawfulRun, GoodDisk;
    ghost var clean := world.steady && world.disk.partial.value.content == "" && world.open[k].position == 0;
    var offset := 0;
    while offset < |payload|
      invariant 0 <= offset <= |payload|
      invariant world.Valid() && old(world.history) <= world.history && old(world.calls) <= world.calls
      invariant world.open.Keys == old(world.open).Keys && k in world.open
      invariant forall j :: j in world.open ==> world.open[j].leaf == old(world.open)[j].leaf
      invariant world.disk == old(world.disk).(partial := world.disk.partial)
      invariant world.disk.partial.Some? && world.disk.partial.value.id == old(world.disk).partial.value.id
      invariant clean ==> world.disk.partial.value.content == payload[..offset] && world.open[k].position == offset
      decreases |payload| - offset
    {
      var written := world.Write(k, payload[offset..]);
      if written <= 0 || written > |payload| - offset { return false; }
      offset := offset + written;
    }
    assert payload[..offset] == payload;
    ok := true;
  }

  /** The file is flushed and read back from its start. */
  method FlushAndRead(world: World, k: nat, payload: string) returns (problem: Option<ProvisioningResult>)
    requires world.Valid() && k in world.open && world.open[k].leaf == PartialLeaf
    requires At(world.disk, PartialLeaf).Some?
    modifies world`open, world`facts, world`calls
    ensures world.Valid() && old(world.calls) <= world.calls && old(world.facts) <= world.facts
    ensures problem.Some? ==> world.calls != [] && problem.value == Told(world.calls) != Installed
    ensures problem.None? ==> world.calls != [] && world.calls[|world.calls| - 1].Fetched?
    ensures world.open.Keys == old(world.open).Keys
    ensures forall j :: j in world.open ==> world.open[j].leaf == old(world.open)[j].leaf
    ensures problem.None? ==> Flushed(world.disk.partial.value) in world.facts && ReadBack(PartialLeaf, payload) in world.facts
    ensures problem.None? ==> payload == Window(world.disk.partial.value.content, 0, MAXIMUM + 1)
    ensures world.steady && world.disk.partial.value.content == payload && |payload| <= MAXIMUM ==> problem.None?
  {
    hide LawfulRun, GoodDisk, Told;
    var flushed := world.Flush(k);
    Tells(old(world.calls), FlushTried(flushed));
    if flushed.Raised? { return Some(WriteFailed); }
    if flushed.No? { return Some(DurabilityFailed); }
    ghost var calls := world.calls;
    var sought := world.SeekStart(k);
    Tells(calls, Sought(sought));
    if sought.Raised? { return Some(WriteFailed); }
    if sought.No? { return Some(ReadbackFailed); }
    calls := world.calls;
    var bytes := world.Read(k, MAXIMUM + 1);
    Tells(calls, Fetched(bytes));
    if bytes.ReadRaised? { return Some(WriteFailed); }
    if bytes.ReadNothing? || bytes.bytes != payload { return Some(ReadbackFailed); }
    problem := None;
  }

  /** The file is flushed and read back, and must still be the ordinary file it was. */
  method Confirm(world: World, k: nat, payload: string, id: nat) returns (problem: Option<ProvisioningResult>)
    requires world.Valid() && k in world.open && world.open[k].leaf == PartialLeaf
    requires At(world.disk, PartialLeaf).Some?
    modifies world`open, world`facts, world`calls
    ensures world.Valid() && old(world.calls) <= world.calls && old(world.facts) <= world.facts
    ensures problem.Some? ==> world.calls != [] && problem.value == Told(world.calls) != Installed
    ensures world.open.Keys == old(world.open).Keys
    ensures forall j :: j in world.open ==> world.open[j].leaf == old(world.open)[j].leaf
    ensures problem.None? ==> world.disk.partial.value == File(id, payload)
    ensures problem.None? ==> Flushed(world.disk.partial.value) in world.facts && ReadBack(PartialLeaf, payload) in world.facts
    ensures problem.None? ==> Plain(world.disk.partial.value) in world.facts
    ensures world.steady && world.disk.partial.value == File(id, payload) && |payload| <= MAXIMUM ==> problem.None?
  {
    hide LawfulRun, GoodDisk, Told;
    problem := FlushAndRead(world, k, payload);
    if problem.Some? { return; }
    ghost var calls := world.calls;
    var final := world.Info(k);
    Tells(calls, Asked(final));
    if final.InfoRaised? { return Some(WriteFailed); }
    if !final.ordinary || final.size != |payload| || final.id != id { return Some(ReadbackFailed); }
    problem := None;
  }

  /** `_write_exact` on the partial leaf: no problem means the file holds the payload and is still
      the same file. Partial writes are continued, and whatever the writes did is read back. */
  method WriteExact(world: World, k: nat, payload: string) returns (problem: Option<ProvisioningResult>)
    requires world.Valid() && k in world.open && world.open[k].leaf == PartialLeaf
    requires world.calls != []
    requires world.calls[|world.calls| - 1].Made? || world.calls[|world.calls| - 1].Timed?
    modifies world`disk, world`open, world`history, world`facts, world`calls
    ensures world.Valid() && old(world.history) <= world.history && old(world.calls) <= world.calls
    ensures problem.Some? ==> problem.value == Told(world.calls)
    ensures world.open.Keys == old(world.open).Keys
    ensures forall j :: j in world.open ==> world.open[j].leaf == old(world.open)[j].leaf
    ensures world.disk == old(world.disk).(partial := world.disk.partial)
    ensures world.disk.partial.Some? && world.disk.partial.value.id == old(world.disk).partial.value.id
    ensures old(world.facts) <= world.facts
    ensures problem.None? ==> world.disk.partial.value.content == payload
    ensures problem.None? ==> Flushed(world.disk.partial.value) in world.facts && ReadBack(PartialLeaf, payload) in world.facts
    ensures problem.None? ==> Plain(File(world.disk.partial.value.id, "")) in world.facts && Plain(world.disk.partial.value) in world.facts
    ensures problem.Some? ==> problem.value != Installed
    ensures world.steady && old(world.disk.partial.value.content) == "" && old(world.open[k].position) == 0 && |payload| <= MAXIMUM ==>
      problem.None?
  {
    hide LawfulRun, GoodDisk;
    var initial := world.Info(k);
    if initial.InfoRaised? || !initial.ordinary || initial.size != 0 { return Some(WriteFailed); }
    assert world.disk.partial.value == File(initial.id, "");
    var written := WriteAll(world, k, payload);
    if !written { return Some(WriteFailed); }
    problem := Confirm(world, k, payload, initial.id);
  }

  /** `_verify_final_bundle` */
  method VerifyFinal(world: World, k: nat, expected: string, authority: Authority) returns (ok: bool)
    requires world.Valid() && k in world.open && world.open[k] == Handle(BundleLeaf, 0)
    requires world.calls != [] && world.calls[|world.calls| - 1].Looked?
    modifies world`open, world`facts, world`calls
    ensures world.Valid() && world.open.Keys == old(world.open).Keys && old(world.facts) <= world.facts
    ensures old(world.calls) <= world.calls && (!ok ==> Told(world.calls) == ReadbackFailed)
    ensures forall j :: j in world.open ==> world.open[j].leaf == old(world.open)[j].leaf
    ensures ok ==> world.disk.bundle.value.content == expected && ReadBack(BundleLeaf, expected) in world.facts
    ensures ok ==> Plain(world.disk.bundle.value) in world.facts && VerifyApproved(world.rules.hash, world.rules.verify, expected, authority).Some?
    ensures world.steady && |expected| <= MAXIMUM && world.disk.bundle.value.content == expected ==>
      (ok <==> VerifyApproved(world.rules.hash, world.rules.verify, expected, authority).Some?)
  {
    hide LawfulRun, GoodDisk, VerifyApproved;
    var info := world.Info(k);
    if info.InfoRaised? || !info.ordinary || info.size != |expected| { return false; }
    var bytes := world.Read(k, MAXIMUM + 1);
    if !bytes.ReadBytes? || bytes.bytes != expected { return false; }
    ok := VerifyApproved(world.rules.hash, world.rules.verify, bytes.bytes, authority).Some?;
  }

  /** The bundle was flushed, was promoted durably, and was read back from its final place; it was an
      ordinary file when it was empty and in the end. */
  ghost predicate BundleVouched(facts: set<Fact>, bundle: Option<File>) {
    && bundle.Some? && Plain(File(bundle.value.id, "")) in facts && Plain(bundle.value) in facts
    && Flushed(bundle.value) in facts && ReadBack(PartialLeaf, bundle.value.content) in facts
    && Durable(Disk(None, bundle, None)) in facts && ReadBack(BundleLeaf, bundle.value.content) in facts
  }

  /** The receipt, still in the partial leaf, was flushed, read back and made durable; it was an
      ordinary file when it was empty and in the end. */
  ghost predicate ReceiptVouched(facts: set<Fact>, d: Disk) {
    && d.partial.Some? && Plain(File(d.partial.value.id, "")) in facts && Plain(d.partial.value) in facts
    && Flushed(d.partial.value) in facts && ReadBack(PartialLeaf, d.partial.value.content) in facts
    && Durable(d) in facts
  }

  /** Everything the receipt claims about how the pair came to be. */
  ghost predicate ReceiptIsTruthful(facts: set<Fact>, d: Disk) {
    BundleVouched(facts, d.bundle) && ReceiptVouched(facts, Disk(d.receipt, d.bundle, None))
  }

  /** A problem is what the last port answered, or an unclean closing call. */
  ghost predicate Explained(before: seq<Call>, after: seq<Call>, unclean: nat, uncleanNow: nat, problem: Option<ProvisioningResult>) {
    && before <= after && unclean <= uncleanNow
    && (problem.Some? ==> after != [] && problem.value == if uncleanNow == unclean then Told(after) else CleanupFailed)
  }

  /** The new partial leaf was found to be an ordinary file, and then the clock was read. */
  ghost predicate CheckedThenTimed(before: seq<Call>, after: seq<Call>, ns: int) {
    && |after| >= |before| + 3
    && after[|before|].Made? && after[|before|].made.Created?
    && after[|before| + 1].Asked? && after[|before| + 1].info.Info? && after[|before| + 1].info.ordinary
    && after[|before| + 2] == Timed(Clock(ns))
  }

  /** The closed partial leaf becomes the bundle, and the directory is made durable. */
  method PromoteDurably(world: World) returns (problem: Option<ProvisioningResult>)
    requires world.Valid() && world.open == map[] && world.parentOpen
    requires world.disk.partial.Some? && world.disk.bundle.None? && Signed(world.rules, world.disk.partial.value.content)
    modifies world`disk, world`history, world`facts, world`calls
    ensures world.Valid() && old(world.history) <= world.history && old(world.facts) <= world.facts
    ensures world.disk == if world.promotion.NotMade? then old(world.disk) else old(world.disk).(partial := None, bundle := old(world.disk).partial)
    ensures problem.None? ==> world.promotion.Acknowledged? && Durable(world.disk) in world.facts
    ensures old(world.calls) <= world.calls && (problem.Some? ==> world.calls != [] && problem.value == Told(world.calls) != Installed)
    ensures world.steady ==> problem == (if world.promotion.Acknowledged? then None else Some(WriteFailed))
  {
    hide LawfulRun, GoodDisk, Signed, Told;
    var promoted := world.PromoteBundle();
    Tells(old(world.calls), PromoteTried(promoted));
    if !promoted { return Some(WriteFailed); }
    ghost var calls := world.calls;
    var durable := world.MakeDurable();
    Tells(calls, Synced(durable));
    problem := if durable.Yes? then None else Some(DurabilityFailed);
  }

  /** From creating the partial leaf to making the promotion durable; on failure the handles that
      are still open are reported. */
  method PromotePayload(world: World, payload: string)
    returns (problem: Option<ProvisioningResult>, handles: seq<nat>)
    requires world.Valid() && world.open == map[] && world.disk == EMPTY_DISK && world.parentOpen
    requires Signed(world.rules, payload) && |payload| <= MAXIMUM
    modifies world`disk, world`open, world`nextHandle, world`nextId, world`history, world`facts, world`calls, world`unclean
    ensures world.Valid() && old(world.history) <= world.history && Owns(world, handles) && old(world.facts) <= world.facts
    ensures world.disk.receipt.None?
    ensures world.disk.bundle.Some? ==> world.disk.bundle.value.content == payload
    ensures problem.None? ==> world.disk.partial.None? && world.disk.bundle.Some? && handles == []
    ensures problem.None? ==> Flushed(world.disk.bundle.value) in world.facts && Durable(world.disk) in world.facts
    ensures problem.None? ==> ReadBack(PartialLeaf, payload) in world.facts
    ensures problem.None? ==> Plain(File(world.disk.bundle.value.id, "")) in world.facts
    ensures problem.None? ==> world.unclean == old(world.unclean)
    ensures Explained(old(world.calls), world.calls, old(world.unclean), world.unclean, problem)
    ensures problem.Some? ==> problem.value != Installed
    ensures world.steady ==> problem == (if world.promotion.Acknowledged? then None else Some(WriteFailed))
    ensures world.steady ==> (world.disk.bundle.Some? <==> !world.promotion.NotMade?)
  {
    hide LawfulRun, GoodDisk, Signed, Told;
    var created := world.CreatePartial();
    Tells(old(world.calls), Made(created));
    if !created.Created? {
      return Some(if created.Exists? then AlreadyExists else WriteFailed), [];
    }
    var k := created.created;
    var written := WriteExact(world, k, payload);
    if written.Some? { return written, [k]; }
    var closed := world.Close(k);
    if !closed.Yes? { return Some(CleanupFailed), []; }
    handles := [];
    problem := PromoteDurably(world);
  }

  /** From creating the partial leaf to verifying the promoted bundle. */
  method PlaceBundle(world: World, payload: string, authority: Authority)
    returns (problem: Option<ProvisioningResult>, handles: seq<nat>)
    requires world.Valid() && world.open == map[] && world.disk == EMPTY_DISK && world.parentOpen
    requires VerifyApproved(world.rules.hash, world.rules.verify, payload, authority).Some?
    modifies world`disk, world`open, world`nextHandle, world`nextId, world`history, world`facts, world`calls, world`unclean
    ensures world.Valid() && old(world.history) <= world.history && Owns(world, handles) && old(world.facts) <= world.facts
    ensures world.disk.receipt.None?
    ensures world.disk.bundle.Some? ==> world.disk.bundle.value.content == payload
    ensures problem.None? ==> world.disk.partial.None? && world.disk.bundle.Some?
    ensures problem.None? ==> BundleVouched(world.facts, world.disk.bundle) && world.unclean == old(world.unclean)
    ensures problem.None? ==> forall k :: k in world.open ==> world.open[k].leaf == BundleLeaf
    ensures Explained(old(world.calls), world.calls, old(world.unclean), world.unclean, problem)
    ensures problem.Some? ==> problem.value != Installed
    ensures world.steady ==> problem == (if world.promotion.Acknowledged? then None else Some(WriteFailed))
    ensures world.steady ==> (world.disk.bundle.Some? <==> !world.promotion.NotMade?)
  {
    hide LawfulRun, GoodDisk, VerifyApproved, Signed;
    ApprovedIsSigned(world.rules, payload, authority);
    problem, handles := PromotePayload(world, payload);
    if problem.Some? { return; }
    var answer := world.OpenInspection(BundleLeaf);
    if !answer.Opened? { return Some(ReadbackFailed), []; }
    handles := [answer.handle];
    var verified := VerifyFinal(world, answer.handle, payload, authority);
    if !verified { return Some(ReadbackFailed), handles; }
    problem := None;
  }

  lemma ReceiptClock(rules: Rules, b: Bundle, id: nat, clock: int)
    ensures ReceiptFor(rules, b, id, clock).installedUnixNs == clock && ReceiptFor(rules, b, id, clock).result == Installed
  {
  }

  /** The receipt's partial leaf is created, looked at, and the receipt is made out. */
  method StartReceipt(world: World, bundle: Bundle, held: seq<nat>)
    returns (problem: Option<ProvisioningResult>, handles: seq<nat>, receipt: Receipt, k: nat)
    requires world.Valid() && Owns(world, held)
    requires world.disk.partial.None? && forall k :: k in world.open ==> world.open[k].leaf == BundleLeaf
    requires Certified(world.rules, bundle)
    modifies world`disk, world`open, world`nextHandle, world`nextId, world`history, world`facts, world`calls
    ensures world.Valid() && old(world.history) <= world.history && Owns(world, handles) && old(world.facts) <= world.facts
    ensures world.disk == old(world.disk).(partial := world.disk.partial)
    ensures world.Ideal() ==> problem.None?
    ensures problem.None? ==> k in world.open && world.open[k] == Handle(PartialLeaf, 0)
    ensures problem.None? ==> world.disk.partial.Some? && world.disk.partial.value.content == ""
    ensures problem.None? ==> Valid(receipt) && receipt == ReceiptFor(world.rules, bundle, world.disk.partial.value.id, receipt.installedUnixNs)
    ensures old(world.calls) <= world.calls && (problem.Some? ==> world.calls != [] && problem.value == Told(world.calls) != Installed)
    ensures problem.None? ==>
      |world.calls| == |old(world.calls)| + 3 && CheckedThenTimed(old(world.calls), world.calls, receipt.installedUnixNs)
  {
    hide LawfulRun, GoodDisk, Valid, Told, ReceiptFor, Certified;
    handles, k := held, 0;
    receipt := ReceiptFor(world.rules, bundle, 0, 0);
    var created := world.CreatePartial();
    Tells(old(world.calls), Made(created));
    if !created.Created? {
      problem := Some(if created.Exists? then AlreadyExists else WriteFailed);
      return;
    }
    k := created.created;
    handles := handles + [k];
    ghost var calls := world.calls;
    var info := world.Info(k);
    Tells(calls, Asked(info));
    problem := Some(WriteFailed);
    if info.InfoRaised? || !info.ordinary || info.size != 0 { return; }
    calls := world.calls;
    var now := world.Now();
    Tells(calls, Timed(now));
    if now.ClockRaised? || !(0 <= now.ns < MAX_NS) { return; }
    receipt := ReceiptFor(world.rules, bundle, info.id, now.ns);
    IdealReceipt(world.rules, bundle, info.id, now.ns);
    ReceiptClock(world.rules, bundle, info.id, now.ns);
    if !Valid(receipt) { return; }
    problem := None;
  }

  /** From creating the receipt's partial leaf to its durable, read back content. */
  method PlaceReceipt(world: World, bundle: Bundle, held: seq<nat>)
    returns (problem: Option<ProvisioningResult>, handles: seq<nat>, receipt: Receipt)
    requires world.Valid() && Owns(world, held) && world.parentOpen
    requires world.disk.partial.None? && world.disk.bundle.Some? && world.disk.receipt.None?
    requires forall k :: k in world.open ==> world.open[k].leaf == BundleLeaf
    requires Certified(world.rules, bundle)
    modifies world`disk, world`open, world`nextHandle, world`nextId, world`history, world`facts, world`calls, world`unclean
    ensures world.Valid() && old(world.history) <= world.history && Owns(world, handles) && old(world.facts) <= world.facts
    ensures world.Ideal() ==> problem.None?
    ensures world.disk == old(world.disk).(partial := world.disk.partial) && world.unclean == old(world.unclean)
    ensures problem.None? ==> world.disk.partial.Some? && ReceiptVouched(world.facts, world.disk)
    ensures problem.None? ==>
      && world.disk.partial.Some? && Valid(receipt) && world.disk.partial.value.content == ReceiptText(receipt)
      && receipt == ReceiptFor(world.rules, bundle, world.disk.partial.value.id, receipt.installedUnixNs)
    ensures Explained(old(world.calls), world.calls, old(world.unclean), world.unclean, problem)
    ensures problem.None? ==> CheckedThenTimed(old(world.calls), world.calls, receipt.installedUnixNs)
    ensures problem.Some? ==> problem.value != Installed
  {
    hide LawfulRun, GoodDisk, Valid, ReceiptText, Told, ReceiptFor, Certified;
    var k;
    problem, handles, receipt, k := StartReceipt(world, bundle, held);
    if problem.Some? { return; }
    ReceiptFits(receipt);
    problem := WriteExact(world, k, ReceiptText(receipt));
    if problem.Some? { return; }
    ghost var calls := world.calls;
    var durable := world.MakeDurable();
    Tells(calls, Synced(durable));
    problem := if durable.Yes? then None else Some(DurabilityFailed);
  }

  /** The bundle and the receipt, and the result, of an install that started from an empty disk. */
  ghost predicate Published(rules: Rules, d: Disk, payload: string, authority: Authority, o: Outcome) {
    && d.partial.None? && d.bundle.Some? && d.receipt.Some? && d.bundle.value.content == payload
    && o.receipt.Some? && VerifyApproved(rules.hash, rules.verify, payload, authority).Some?
    && Inspect(rules, d) == InstalledPair(VerifyApproved(rules.hash, rules.verify, payload, authority).value, o.receipt.value)
  }

  /** The reader's verdict is an installed pair with the bundle that was approved. */
  ghost predicate ShowsPair(rules: Rules, d: Disk, payload: string, authority: Authority) {
    && Inspect(rules, d).InstalledPair?
    && VerifyApproved(rules.hash, rules.verify, payload, authority) == Some(Inspect(rules, d).bundle)
  }

  /** What every run of `install` promises, from the disk before to the disk after. */
  ghost predicate InstallPromise(rules: Rules, before: Disk, after: Disk, payload: string, authority: Authority, o: Outcome) {
    && (before != EMPTY_DISK ==> after == before && o.result != Installed)
    && (VerifyApproved(rules.hash, rules.verify, payload, authority).None? ==> after == before && o == Outcome(InvalidInput, None))
    && (before == EMPTY_DISK && after.bundle.Some? ==> after.bundle.value.content == payload)
    && (o.receipt.Some? <==> o.result == Installed)
    && (o.result == Installed ==> before == EMPTY_DISK && Published(rules, after, payload, authority, o))
    && (before == EMPTY_DISK && after.receipt.Some? ==>
          && (o.result == Installed || o.result == WriteFailed)
          && after.partial.None? && ShowsPair(rules, after, payload, authority))
  }

  /** A receipt on a disk that was empty tells how its move ended: made silently exactly when the
      answer is WRITE_FAILED, acknowledged exactly when it is INSTALLED. */
  ghost predicate MoveTold(publication: MoveAnswer, before: Disk, after: Disk, o: Outcome) {
    before == EMPTY_DISK && after.receipt.Some? ==>
      && !publication.NotMade?
      && (o.result == WriteFailed <==> publication.MadeSilently?)
      && (o.result == Installed <==> publication.Acknowledged?)
  }

  /** In an ideal world the two moves decide everything. */
  ghost predicate MovesDecide(promotion: MoveAnswer, publication: MoveAnswer, after: Disk, o: Outcome) {
    && o.result == (if promotion.Acknowledged? && publication.Acknowledged? then Installed else WriteFailed)
    && (after.bundle.Some? <==> !promotion.NotMade?)
    && (after.receipt.Some? <==> promotion.Acknowledged? && !publication.NotMade?)
  }

  /** The promise is kept and every resource is given back: no handle, no directory lease and no
      mutex is left open on any path. */
  ghost predicate Settled(world: World)
    reads world
  {
    world.Valid() && world.open == map[] && !world.parentOpen && !world.mutexOpen
  }

  lemma NothingPublished(rules: Rules, before: Disk, after: Disk, payload: string, authority: Authority, o: Outcome)
    requires VerifyApproved(rules.hash, rules.verify, payload, authority).Some? && o.result != Installed && o.receipt == None
    requires before != EMPTY_DISK ==> after == before
    requires before == EMPTY_DISK ==> after.receipt.None?
    requires before == EMPTY_DISK && after.bundle.Some? ==> after.bundle.value.content == payload
    ensures InstallPromise(rules, before, after, payload, authority, o)
    ensures forall publication :: MoveTold(publication, before, after, o)
  {
    hide VerifyApproved, Published, ShowsPair;
  }

  /** A failure before the receipt was moved: everything is closed and nothing was published. */
  method GiveUp(world: World, primary: ProvisioningResult, handles: seq<nat>, mutex: InstallMutex,
                payload: string, authority: Authority, ghost before: Disk) returns (o: Outcome)
    requires world.Valid() && Owns(world, handles) && world.parentOpen
    requires mutex.world == world && mutex.Consistent() && mutex.owned && !mutex.closed
    requires VerifyApproved(world.rules.hash, world.rules.verify, payload, authority).Some? && primary != Installed
    requires before != EMPTY_DISK ==> world.disk == before
    requires before == EMPTY_DISK ==> world.disk.receipt.None?
    requires before == EMPTY_DISK && world.disk.bundle.Some? ==> world.disk.bundle.value.content == payload
    modifies world`open, world`parentOpen, world`mutexOpen, world`unclean, mutex
    ensures Settled(world) && o.result != Installed && o.receipt == None
    ensures InstallPromise(world.rules, before, world.disk, payload, authority, o)
    ensures MoveTold(world.publication, before, world.disk, o)
    ensures world.unclean >= old(world.unclean)
    ensures o.result == if world.unclean == old(world.unclean) then primary else CleanupFailed
    ensures world.steady ==> o.result == primary
  {
    hide LawfulRun, GoodDisk, VerifyApproved, InstallPromise, MoveTold;
    o := Failure(world, primary, handles, mutex);
    NothingPublished(world.rules, before, world.disk, payload, authority, o);
  }

  const ENTERED: seq<Call> := [MutexMade(true), MutexTried(Acquired), ParentTaken(true)]

  /** The result is what the last port answered, or CLEANUP_FAILED if any closing or releasing call
      was not clean. */
  ghost predicate Answered(before: seq<Call>, after: seq<Call>, unclean: nat, uncleanNow: nat, o: Outcome) {
    && before <= after && after != [] && unclean <= uncleanNow
    && o.result == if uncleanNow == unclean then Told(after) else CleanupFailed
  }

  /** The mutex, then the directory: either both are held or neither is. */
  method Enter(world: World) returns (problem: Option<ProvisioningResult>, entered: Option<InstallMutex>)
    requires Settled(world)
    modifies world`mutexOpen, world`parentOpen, world`unclean, world`calls
    ensures world.Valid() && (problem.None? <==> entered.Some?)
    ensures Explained(old(world.calls), world.calls, old(world.unclean), world.unclean, problem)
    ensures entered.Some? ==> world.calls == old(world.calls) + ENTERED
    ensures entered.Some? ==> world.unclean == old(world.unclean)
    ensures problem.Some? ==> Settled(world) && problem.value != Installed
    ensures world.steady ==> problem.None?
    ensures entered.Some? ==>
      world.parentOpen && fresh(entered.value) && entered.value.world == world && entered.value.Consistent()
      && entered.value.owned && !entered.value.closed
  {
    hide LawfulRun, GoodDisk;
    var made := world.MakeMutex();
    if !made { return Some(CleanupFailed), None; }
    var mutex := new InstallMutex(world);
    var acquired := mutex.Acquire();
    if !acquired {
      var closed := mutex.Close();
      return Some(if closed then WriteFailed else CleanupFailed), None;
    }
    var parent := world.OpenParent();
    if !parent {
      var clean := mutex.Cleanup();
      return Some(if clean then WriteFailed else CleanupFailed), None;
    }
    problem, entered := None, Some(mutex);
  }

  /** `install` */
  method Install(world: World, payload: string, authority: Authority) returns (o: Outcome)
    requires Settled(world)
    modifies world
    ensures Settled(world) && old(world.history) <= world.history
    ensures old(world.disk) != EMPTY_DISK ==> world.history == old(world.history)
    ensures InstallPromise(world.rules, old(world.disk), world.disk, payload, authority, o)
    ensures MoveTold(world.publication, old(world.disk), world.disk, o)
    ensures world.Ideal() && old(world.disk) == EMPTY_DISK && VerifyApproved(world.rules.hash, world.rules.verify, payload, authority).Some? ==>
      MovesDecide(world.promotion, world.publication, world.disk, o)
    ensures o.result == Installed ==> ReceiptIsTruthful(world.facts, world.disk) && world.unclean == old(world.unclean)
    ensures VerifyApproved(world.rules.hash, world.rules.verify, payload, authority).Some? ==>
      Answered(old(world.calls), world.calls, old(world.unclean), world.unclean, o)
    ensures o.result == Installed ==> old(world.calls) + ENTERED + [ParentValid(Yes)] + FOUND_EMPTY <= world.calls
    ensures world.steady && old(world.disk) != EMPTY_DISK && o.result != InvalidInput ==> o.result == AlreadyExists
  {
    ghost var before := world.disk;
    hide LawfulRun, GoodDisk, VerifyApproved, InstallPromise, MoveTold, MovesDecide;
    var bundle := VerifyApproved(world.rules.hash, world.rules.verify, payload, authority);
    if bundle.None? {
      RejectedPayload(world.rules, before, payload, authority);
      return Outcome(InvalidInput, None);
    }
    var problem, entered := Enter(world);
    if problem.Some? {
      NothingYet(world.rules, before, payload, authority, problem.value);
      return Outcome(problem.value, None);
    }
    o := InstallHolding(world, payload, authority, bundle.value, entered.value);
  }

  lemma RejectedPayload(rules: Rules, d: Disk, payload: string, authority: Authority)
    requires VerifyApproved(rules.hash, rules.verify, payload, authority).None?
    ensures InstallPromise(rules, d, d, payload, authority, Outcome(InvalidInput, None))
    ensures forall publication :: MoveTold(publication, d, d, Outcome(InvalidInput, None))
  {
    hide VerifyApproved, Published, ShowsPair;
  }

  lemma NothingYet(rules: Rules, d: Disk, payload: string, authority: Authority, result: ProvisioningResult)
    requires VerifyApproved(rules.hash, rules.verify, payload, authority).Some? && result != Installed
    ensures InstallPromise(rules, d, d, payload, authority, Outcome(result, None))
    ensures forall publication :: MoveTold(publication, d, d, Outcome(result, None))
  {
    hide VerifyApproved, InstallPromise, MoveTold;
    NothingPublished(rules, d, d, payload, authority, Outcome(result, None));
  }

  /** The directory is validated, then the preflight is made. */
  method CheckEmpty(world: World) returns (problem: Option<ProvisioningResult>, handles: seq<nat>)
    requires world.Valid() && world.open == map[] && world.parentOpen
    modifies world`open, world`nextHandle, world`calls
    ensures world.Valid() && Owns(world, handles)
    ensures Explained(old(world.calls), world.calls, world.unclean, world.unclean, problem)
    ensures problem.None? ==> world.disk == EMPTY_DISK && handles == []
    ensures problem.None? ==> world.calls == old(world.calls) + [ParentValid(Yes)] + FOUND_EMPTY
    ensures problem.Some? ==> problem.value != Installed
    ensures world.steady ==> problem == if world.disk == EMPTY_DISK then None else Some(AlreadyExists)
  {
    hide LawfulRun, GoodDisk;
    var valid := world.ValidateParent();
    if !valid.Yes? { return Some(DurabilityFailed), []; }
    problem, handles := Preflight(world);
  }

  /** `install` once the mutex is owned and the directory is leased. */
  method InstallHolding(world: World, payload: string, authority: Authority, bundle: Bundle, mutex: InstallMutex) returns (o: Outcome)
    requires world.Valid() && world.open == map[] && world.parentOpen
    requires mutex.world == world && mutex.Consistent() && mutex.owned && !mutex.closed
    requires VerifyApproved(world.rules.hash, world.rules.verify, payload, authority) == Some(bundle)
    modifies world, mutex
    ensures Settled(world) && old(world.history) <= world.history
    ensures old(world.disk) != EMPTY_DISK ==> world.history == old(world.history)
    ensures InstallPromise(world.rules, old(world.disk), world.disk, payload, authority, o)
    ensures MoveTold(world.publication, old(world.disk), world.disk, o)
    ensures world.Ideal() && old(world.disk) == EMPTY_DISK ==>
      MovesDecide(world.promotion, world.publication, world.disk, o)
    ensures o.result == Installed ==> ReceiptIsTruthful(world.facts, world.disk) && world.unclean == old(world.unclean)
    ensures Answered(old(world.calls), world.calls, old(world.unclean), world.unclean, o)
    ensures o.result == Installed ==> old(world.calls) + [ParentValid(Yes)] + FOUND_EMPTY <= world.calls
    ensures world.steady && old(world.disk) != EMPTY_DISK ==> o.result == AlreadyExists
  {
    ghost var before := world.disk;
    hide LawfulRun, GoodDisk, VerifyApproved, InstallPromise, MoveTold, MovesDecide, ReceiptIsTruthful;
    var problem, handles := CheckEmpty(world);
    if problem.Some? {
      o := GiveUp(world, problem.value, handles, mutex, payload, authority, before);
      return;
    }
    o := InstallOnEmpty(world, payload, authority, bundle, mutex);
  }

  /** `install` once the preflight found nothing. */
  method InstallOnEmpty(world: World, payload: string, authority: Authority, bundle: Bundle, mutex: InstallMutex) returns (o: Outcome)
    requires world.Valid() && world.open == map[] && world.parentOpen && world.disk == EMPTY_DISK
    requires mutex.world == world && mutex.Consistent() && mutex.owned && !mutex.closed
    requires VerifyApproved(world.rules.hash, world.rules.verify, payload, authority) == Some(bundle)
    modifies world, mutex
    ensures Settled(world) && old(world.history) <= world.history
    ensures InstallPromise(world.rules, EMPTY_DISK, world.disk, payload, authority, o)
    ensures MoveTold(world.publication, EMPTY_DISK, world.disk, o)
    ensures world.Ideal() ==> MovesDecide(world.promotion, world.publication, world.disk, o)
    ensures o.result == Installed ==> ReceiptIsTruthful(world.facts, world.disk) && world.unclean == old(world.unclean)
    ensures Answered(old(world.calls), world.calls, old(world.unclean), world.unclean, o)
  {
    hide LawfulRun, GoodDisk, VerifyApproved, InstallPromise, MoveTold, ReceiptIsTruthful, BundleVouched;
    var problem, handles := PlaceBundle(world, payload, authority);
    if problem.Some? {
      o := GiveUp(world, problem.value, handles, mutex, payload, authority, EMPTY_DISK);
      return;
    }
    o := InstallReceipt(world, payload, authority, bundle, handles, mutex);
  }

  /** The handles, then the directory, then the mutex: all of them are closed, and it was clean only
      if every one of these calls succeeded. */
  method GiveBack(world: World, handles: seq<nat>, mutex: InstallMutex) returns (clean: bool)
    requires world.Valid() && Owns(world, handles) && world.parentOpen
    requires mutex.world == world && mutex.Consistent() && mutex.owned && !mutex.closed
    modifies world`open, world`parentOpen, world`mutexOpen, world`unclean, mutex
    ensures Settled(world) && world.unclean >= old(world.unclean) && (clean <==> world.unclean == old(world.unclean))
    ensures world.steady ==> clean
  {
    hide LawfulRun, GoodDisk;
    var handlesClean := CloseAll(world, handles);
    if !handlesClean {
      var _ := Failure(world, CleanupFailed, [], mutex);
      return false;
    }
    var parentClean := world.CloseParent();
    var mutexClean := mutex.Cleanup();
    clean := parentClean.Yes? && mutexClean;
  }

  /** `install` once the bundle is in place: everything is given back before the receipt is moved. */
  method InstallReceipt(world: World, payload: string, authority: Authority, bundle: Bundle, held: seq<nat>, mutex: InstallMutex)
    returns (o: Outcome)
    requires world.Valid() && Owns(world, held) && world.parentOpen
    requires mutex.world == world && mutex.Consistent() && mutex.owned && !mutex.closed
    requires world.disk.partial.None? && world.disk.bundle.Some? && world.disk.receipt.None?
    requires world.disk.bundle.value.content == payload
    requires forall k :: k in world.open ==> world.open[k].leaf == BundleLeaf
    requires BundleVouched(world.facts, world.disk.bundle)
    requires VerifyApproved(world.rules.hash, world.rules.verify, payload, authority) == Some(bundle)
    modifies world, mutex
    ensures Settled(world) && old(world.history) <= world.history
    ensures InstallPromise(world.rules, EMPTY_DISK, world.disk, payload, authority, o)
    ensures MoveTold(world.publication, EMPTY_DISK, world.disk, o)
    ensures world.Ideal() && world.promotion.Acknowledged? ==> MovesDecide(world.promotion, world.publication, world.disk, o)
    ensures o.result == Installed ==> ReceiptIsTruthful(world.facts, world.disk) && world.unclean == old(world.unclean)
    ensures Answered(old(world.calls), world.calls, old(world.unclean), world.unclean, o)
  {
    hide LawfulRun, GoodDisk, VerifyApproved, InstallPromise, MoveTold, Inspect, InspectPair, Certified, Told, ReceiptFor, ReceiptText, Valid,
      ReceiptVouched;
    ApprovedIsCertified(world.rules, payload, authority);
    var problem, handles, receipt := PlaceReceipt(world, bundle, held);
    if problem.Some? {
      o := GiveUp(world, problem.value, handles, mutex, payload, authority, EMPTY_DISK);
      return;
    }
    var clean := GiveBack(world, handles, mutex);
    if !clean {
      o := Outcome(CleanupFailed, None);
      NothingPublished(world.rules, EMPTY_DISK, world.disk, payload, authority, o);
      return;
    }
    o := MoveReceipt(world, payload, authority, bundle, receipt);
  }

  /** The last step: the one that makes the pair visible to the reader. */
  method MoveReceipt(world: World, payload: string, authority: Authority, bundle: Bundle, receipt: Receipt) returns (o: Outcome)
    requires Settled(world)
    requires world.disk.partial.Some? && world.disk.bundle.Some? && world.disk.receipt.None?
    requires BundleVouched(world.facts, world.disk.bundle) && ReceiptVouched(world.facts, world.disk)
    requires world.disk.bundle.value.content == payload
    requires VerifyApproved(world.rules.hash, world.rules.verify, payload, authority) == Some(bundle)
    requires Valid(receipt) && world.disk.partial.value.content == ReceiptText(receipt)
    requires receipt == ReceiptFor(world.rules, bundle, world.disk.partial.value.id, receipt.installedUnixNs)
    modifies world`disk, world`history, world`calls
    ensures Settled(world) && old(world.history) <= world.history
    ensures InstallPromise(world.rules, EMPTY_DISK, world.disk, payload, authority, o)
    ensures MoveTold(world.publication, EMPTY_DISK, world.disk, o)
    ensures world.promotion.Acknowledged? ==> MovesDecide(world.promotion, world.publication, world.disk, o)
    ensures o.result == Installed ==> ReceiptIsTruthful(world.facts, world.disk) && world.unclean == old(world.unclean)
    ensures Answered(old(world.calls), world.calls, old(world.unclean), world.unclean, o)
  {
    hide LawfulRun, GoodDisk, VerifyApproved, InspectPair, ReceiptText, Valid, InstallPromise, MoveTold, Inspect, Signed,
      BundleVouched, ReceiptVouched, ReceiptFor, Told;
    ghost var placed := world.disk;
    PairIsAccepted(world.rules, payload, authority, placed.bundle.value, placed.partial.value, receipt.installedUnixNs);
    var published := world.PublishReceipt();
    Tells(old(world.calls), PublishTried(published));
    o := if published then Outcome(Installed, Some(receipt)) else Outcome(WriteFailed, None);
    if world.publication.NotMade? {
      NothingPublished(world.rules, EMPTY_DISK, world.disk, payload, authority, o);
    } else {
      ReceiptPublished(world.rules, placed, world.publication, payload, authority, bundle, receipt, o);
    }
  }

  lemma ReceiptPublished(rules: Rules, placed: Disk, publication: MoveAnswer, payload: string, authority: Authority,
                         bundle: Bundle, receipt: Receipt, o: Outcome)
    requires placed.partial.Some? && placed.bundle.Some? && placed.receipt.None? && !publication.NotMade?
    requires placed.bundle.value.content == payload
    requires VerifyApproved(rules.hash, rules.verify, payload, authority) == Some(bundle)
    requires InspectPair(rules, placed.bundle.value, placed.partial.value) == InstalledPair(bundle, receipt)
    requires o == if publication.Acknowledged? then Outcome(Installed, Some(receipt)) else Outcome(WriteFailed, None)
    ensures InstallPromise(rules, EMPTY_DISK, placed.(partial := None, receipt := placed.partial), payload, authority, o)
    ensures MoveTold(publication, EMPTY_DISK, placed.(partial := None, receipt := placed.partial), o)
  {
    hide VerifyApproved, InspectPair;
  }
}
