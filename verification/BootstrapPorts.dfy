/** The ports of the installer and of the reader. Every call may fail, before its effect or after
    it, unless the world is steady; a write may leave anything in the file it writes to. How the two
    moves end is fixed in advance. What the ports do promise: they tell the truth about what they
    report, a file is created only if absent, a move replaces nothing, and the leaves are touched by
    nobody else. */
module BootstrapPorts {
  import opened Wrappers
  import opened BootstrapCodec
  import opened BootstrapDisk

  /** True, false, or an exception. */
  datatype Answer = Yes | No | Raised

  datatype OpenAnswer = Opened(handle: nat) | NotThere | Ambiguous

  datatype CreateAnswer = Created(created: nat) | Exists | CreateAmbiguous

  /** `ordinary`: a plain file on a disk, one link, not pending deletion, under its own path. */
  datatype InfoAnswer = InfoRaised | Info(ordinary: bool, size: nat, id: nat)

  datatype ReadAnswer = ReadRaised | ReadNothing | ReadBytes(bytes: string)

  datatype ClockAnswer = ClockRaised | Clock(ns: int)

  datatype MutexAnswer = Acquired | Abandoned | NotAcquired | AcquireRaised

  /** How a move ends that could be made: not at all, made but reported as failed, or made and
      reported. */
  datatype MoveAnswer = NotMade | MadeSilently | Acknowledged

  datatype Handle = Handle(leaf: Leaf, position: nat)

  /** What a port has vouched for by succeeding. */
  datatype Fact =
    | Flushed(file: File)
    | ReadBack(leaf: Leaf, content: string)
    | Durable(disk: Disk)
    | Plain(file: File)

  /** One call of a port and its answer; closing and releasing calls are counted instead. */
  datatype Call =
    | MutexMade(ok: bool)
    | MutexTried(got: MutexAnswer)
    | ParentTaken(ok: bool)
    | ParentValid(answer: Answer)
    | Looked(leaf: Leaf, found: OpenAnswer)
    | Made(made: CreateAnswer)
    | Asked(info: InfoAnswer)
    | Wrote(written: int)
    | FlushTried(answer: Answer)
    | Sought(answer: Answer)
    | Fetched(read: ReadAnswer)
    | Timed(clock: ClockAnswer)
    | Synced(answer: Answer)
    | PromoteTried(ok: bool)
    | PublishTried(ok: bool)

  class World {
    const rules: Rules
    /** No port fails, except for the moves. */
    const steady: bool
    /** One answer for each move is enough: once a move was tried, the disk is never empty again. */
    const promotion: MoveAnswer
    const publication: MoveAnswer
    var disk: Disk
    var open: map<nat, Handle>
    var nextHandle: nat
    var nextId: nat
    var parentOpen: bool
    var mutexOpen: bool
    ghost var history: seq<Disk>
    ghost var facts: set<Fact>
    ghost var calls: seq<Call>
    /** How many closing and releasing calls did not succeed. */
    ghost var unclean: nat

    /** Every disk there ever was is good, and each follows lawfully from the one before. */
    ghost predicate Valid()
      reads this
    {
      && history != [] && history[|history| - 1] == disk
      && LawfulRun(history)
      && (forall i :: 0 <= i < |history| ==> GoodDisk(rules, history[i]))
      && (forall k :: k in open ==> k < nextHandle && At(disk, open[k].leaf).Some?)
    }

    constructor (rules: Rules, steady: bool, promotion: MoveAnswer, publication: MoveAnswer)
      ensures this.rules == rules && this.steady == steady && this.promotion == promotion && this.publication == publication
      ensures disk == EMPTY_DISK && open == map[] && !parentOpen && !mutexOpen
      ensures history == [EMPTY_DISK] && Valid()
    {
      this.rules, this.steady, this.promotion, this.publication := rules, steady, promotion, publication;
      disk, open, nextHandle, nextId := EMPTY_DISK, map[], 0, 0;
      parentOpen, mutexOpen := false, false;
      history := [EMPTY_DISK];
      facts, calls, unclean := {}, [], 0;
    }

    /** Nothing stands in the way of an install but the moves: no port fails, and the digests of
        identities are digests. */
    ghost predicate Ideal() {
      steady && IsDigest(rules.parentDigest) && forall id: nat :: IsDigest(rules.identityDigest(id))
    }

    /** The history with one more disk. */
    ghost method Record()
      requires history != [] && LawfulRun(history) && LawfulStep(history[|history| - 1], disk) && GoodDisk(rules, disk)
      requires forall i :: 0 <= i < |history| ==> GoodDisk(rules, history[i])
      modifies `history
      ensures history == old(history) + [disk] && LawfulRun(history)
      ensures forall i :: 0 <= i < |history| ==> GoodDisk(rules, history[i])
    {
      hide LawfulStep, GoodDisk;
      history := history + [disk];
    }

    // ---- Handles ----

    /** `open_inspection_tagged` */
    method OpenInspection(leaf: Leaf) returns (r: OpenAnswer)
      requires Valid()
      modifies `open, `nextHandle, `calls
      ensures Valid() && calls == old(calls) + [Looked(leaf, r)]
      ensures r.Opened? ==> At(disk, leaf).Some? && r.handle !in old(open) && open == old(open)[r.handle := Handle(leaf, 0)]
      ensures !r.Opened? ==> open == old(open)
      ensures r.NotThere? ==> At(disk, leaf).None?
      ensures steady ==> !r.Ambiguous?
    {
      hide LawfulRun, GoodDisk;
      var fails: bool := *;
      if fails && !steady {
        r := Ambiguous;
      } else if At(disk, leaf).None? {
        r := NotThere;
      } else {
        r := Opened(nextHandle);
        open := open[nextHandle := Handle(leaf, 0)];
        nextHandle := nextHandle + 1;
      }
      calls := calls + [Looked(leaf, r)];
    }

    /** `create_new_tagged` on the partial leaf. */
    method CreatePartial() returns (r: CreateAnswer)
      requires Valid()
      modifies `disk, `open, `nextHandle, `nextId, `history, `calls
      ensures Valid() && old(history) <= history && calls == old(calls) + [Made(r)]
      ensures disk == old(disk) || Creates(old(disk), disk)
      ensures r.Created? ==> old(disk).partial.None? && disk == old(disk).(partial := Some(File(old(nextId), "")))
      ensures r.Created? ==> r.created !in old(open) && open == old(open)[r.created := Handle(PartialLeaf, 0)]
      ensures !r.Created? ==> open == old(open)
      ensures r.Exists? ==> disk == old(disk) && disk.partial.Some?
      ensures steady && old(disk).partial.None? ==> r.Created?
    {
      hide LawfulRun, GoodDisk;
      var before: bool, after: bool := *, *;
      if disk.partial.Some? {
        r := if before then CreateAmbiguous else Exists;
      } else if before && !steady {
        r := CreateAmbiguous;
      } else {
        PartialIsFree(rules, disk, Some(File(nextId, "")));
        disk := disk.(partial := Some(File(nextId, "")));
        nextId := nextId + 1;
        Record();
        r := CreateAmbiguous;
        if !after || steady {
          r := Created(nextHandle);
          open := open[nextHandle := Handle(PartialLeaf, 0)];
          nextHandle := nextHandle + 1;
        }
      }
      calls := calls + [Made(r)];
    }

    /** A file that is reported to be ordinary is. */
    method Info(k: nat) returns (r: InfoAnswer)
      requires Valid() && k in open
      modifies `facts, `calls
      ensures Valid() && calls == old(calls) + [Asked(r)] && old(facts) <= facts
      ensures r.Info? && r.ordinary ==> At(disk, open[k].leaf).Some? && Plain(At(disk, open[k].leaf).value) in facts
      ensures r.Info? ==> At(disk, open[k].leaf).Some?
      ensures r.Info? ==> r.size == |At(disk, open[k].leaf).value.content| && r.id == At(disk, open[k].leaf).value.id
      ensures steady ==> r.Info? && r.ordinary
    {
      hide LawfulRun, GoodDisk;
      var fails: bool, ordinary: bool := *, *;
      var file := At(disk, open[k].leaf).value;
      r := if fails && !steady then InfoRaised else InfoAnswer.Info(ordinary || steady, |file.content|, file.id);
      if r.Info? && r.ordinary { facts := facts + {Plain(file)}; }
      calls := calls + [Asked(r)];
    }

    /** The file holds anything at all afterwards, and any count may be reported. An exception is
        reported as zero, which the installer treats alike. A steady port writes all the data. */
    method Write(k: nat, data: string) returns (written: int)
      requires Valid() && k in open && open[k].leaf == PartialLeaf
      modifies `disk, `open, `history, `calls
      ensures Valid() && old(history) <= history && calls == old(calls) + [Wrote(written)]
      ensures Writes(old(disk), disk)
      ensures open.Keys == old(open).Keys && forall j :: j in open ==> open[j].leaf == old(open)[j].leaf
      ensures steady && old(open[k].position) == |old(disk.partial.value.content)| ==>
        && written == |data| && disk.partial.value.content == old(disk.partial.value.content) + data
        && open[k].position == |disk.partial.value.content|
    {
      hide LawfulRun, GoodDisk;
      var content: string := *;
      var position: nat := *;
      written := *;
      if steady && open[k].position == |disk.partial.value.content| {
        content := disk.partial.value.content + data;
        position, written := |content|, |data|;
      }
      PartialIsFree(rules, disk, Some(File(disk.partial.value.id, content)));
      disk := disk.(partial := Some(File(disk.partial.value.id, content)));
      open := open[k := Handle(PartialLeaf, position)];
      Record();
      calls := calls + [Wrote(written)];
    }

    /** Any answer, unless the world is steady. */
    method Answers() returns (r: Answer)
      ensures steady ==> r.Yes?
    {
      r := *;
      if steady { r := Yes; }
    }

    method Flush(k: nat) returns (r: Answer)
      requires Valid() && k in open
      modifies `facts, `calls
      ensures Valid() && calls == old(calls) + [FlushTried(r)]
      ensures old(facts) <= facts && (r.Yes? ==> Flushed(At(disk, open[k].leaf).value) in facts)
      ensures steady ==> r.Yes?
    {
      hide LawfulRun, GoodDisk;
      r := Answers();
      if r.Yes? { facts := facts + {Flushed(At(disk, open[k].leaf).value)}; }
      calls := calls + [FlushTried(r)];
    }

    method SeekStart(k: nat) returns (r: Answer)
      requires Valid() && k in open
      modifies `open, `calls
      ensures Valid() && calls == old(calls) + [Sought(r)]
      ensures open.Keys == old(open).Keys && forall j :: j in open ==> open[j].leaf == old(open)[j].leaf
      ensures r.Yes? ==> open[k].position == 0
      ensures steady ==> r.Yes?
    {
      hide LawfulRun, GoodDisk;
      r := Answers();
      if r.Yes? {
        open := open[k := open[k].(position := 0)];
      } else {
        var position: nat := *;
        open := open[k := open[k].(position := position)];
      }
      calls := calls + [Sought(r)];
    }

    method Read(k: nat, limit: nat) returns (r: ReadAnswer)
      requires Valid() && k in open
      modifies `open, `facts, `calls
      ensures Valid() && calls == old(calls) + [Fetched(r)] && old(facts) <= facts
      ensures open.Keys == old(open).Keys && forall j :: j in open ==> open[j].leaf == old(open)[j].leaf
      ensures forall j :: j in open && j != k ==> open[j] == old(open)[j]
      ensures r.ReadBytes? ==> ReadBack(open[k].leaf, r.bytes) in facts
      ensures r.ReadBytes? ==> r.bytes == Window(At(disk, open[k].leaf).value.content, old(open)[k].position, limit)
      ensures steady ==> r.ReadBytes?
    {
      hide LawfulRun, GoodDisk;
      var bytes := Window(At(disk, open[k].leaf).value.content, open[k].position, limit);
      var raises: bool, nothing: bool := *, *;
      if steady { raises, nothing := false, false; }
      var position: nat := *;
      open := open[k := open[k].(position := if raises || nothing then position else open[k].position + |bytes|)];
      r := if raises then ReadRaised else if nothing then ReadNothing else ReadBytes(bytes);
      if r.ReadBytes? { facts := facts + {ReadBack(open[k].leaf, r.bytes)}; }
      calls := calls + [Fetched(r)];
    }

    /** Only an open handle can be closed, so none is closed twice. */
    method Close(k: nat) returns (r: Answer)
      requires Valid() && k in open
      modifies `open, `unclean
      ensures Valid() && open == old(open) - {k} && unclean == old(unclean) + Failure(r)
      ensures steady ==> r.Yes?
    {
      hide LawfulRun, GoodDisk;
      open := open - {k};
      r := Answers();
      unclean := unclean + Failure(r);
    }

    // ---- The directory ----

    method OpenParent() returns (ok: bool)
      requires Valid() && !parentOpen
      modifies `parentOpen, `calls
      ensures Valid() && calls == old(calls) + [ParentTaken(ok)] && parentOpen == ok && (steady ==> ok)
    {
      hide LawfulRun, GoodDisk;
      ok := *;
      if steady { ok := true; }
      parentOpen := ok;
      calls := calls + [ParentTaken(ok)];
    }

    method ValidateParent() returns (r: Answer)
      requires Valid() && parentOpen
      modifies `calls
      ensures Valid() && calls == old(calls) + [ParentValid(r)] && (steady ==> r.Yes?)
    {
      hide LawfulRun, GoodDisk;
      r := Answers();
      calls := calls + [ParentValid(r)];
    }

    method MakeDurable() returns (r: Answer)
      requires Valid() && parentOpen
      modifies `facts, `calls
      ensures Valid() && calls == old(calls) + [Synced(r)] && old(facts) <= facts && (r.Yes? ==> Durable(disk) in facts)
      ensures steady ==> r.Yes?
    {
      hide LawfulRun, GoodDisk;
      r := Answers();
      if r.Yes? { facts := facts + {Durable(disk)}; }
      calls := calls + [Synced(r)];
    }

    /** The directory lease is closed at most once for each time it is taken. */
    method CloseParent() returns (r: Answer)
      requires Valid() && parentOpen
      modifies `parentOpen, `unclean
      ensures Valid() && !parentOpen && unclean == old(unclean) + Failure(r)
      ensures steady ==> r.Yes?
    {
      hide LawfulRun, GoodDisk;
      parentOpen := false;
      r := Answers();
      unclean := unclean + Failure(r);
    }

    method Now() returns (r: ClockAnswer)
      requires Valid()
      modifies `calls
      ensures Valid() && calls == old(calls) + [Timed(r)] && (steady ==> r.Clock? && 0 <= r.ns < MAX_NS)
    {
      hide LawfulRun, GoodDisk;
      r := *;
      if steady && (!r.Clock? || !(0 <= r.ns < MAX_NS)) { r := Clock(0); }
      calls := calls + [Timed(r)];
    }

    // ---- Moves ----

    /** The answer is true only if the move was made; a move that failed may have been made. */
    method PromoteBundle() returns (ok: bool)
      requires Valid() && (forall k :: k in open ==> open[k].leaf != PartialLeaf)
      requires disk.partial.Some? ==> Signed(rules, disk.partial.value.content)
      modifies `disk, `history, `calls
      ensures Valid() && old(history) <= history && calls == old(calls) + [PromoteTried(ok)]
      ensures disk ==
        if promotion.NotMade? || old(disk).partial.None? || old(disk).bundle.Some? then old(disk)
        else old(disk).(partial := None, bundle := old(disk).partial)
      ensures ok <==> promotion.Acknowledged? && PromotesBundle(old(disk), disk)
    {
      hide LawfulRun, GoodDisk, Signed;
      ok := false;
      if !promotion.NotMade? && disk.partial.Some? && disk.bundle.None? {
        SignedBundleIsGood(rules, disk);
        disk := disk.(partial := None, bundle := disk.partial);
        Record();
        ok := promotion.Acknowledged?;
      }
      calls := calls + [PromoteTried(ok)];
    }

    /** The receipt is moved only when nothing is held any more. */
    method PublishReceipt() returns (ok: bool)
      requires Valid() && open == map[] && !parentOpen && !mutexOpen
      requires disk.partial.Some? ==> disk.bundle.Some? && InspectPair(rules, disk.bundle.value, disk.partial.value).InstalledPair?
      modifies `disk, `history, `calls
      ensures Valid() && old(history) <= history && calls == old(calls) + [PublishTried(ok)]
      ensures disk ==
        if publication.NotMade? || old(disk).partial.None? || old(disk).receipt.Some? then old(disk)
        else old(disk).(partial := None, receipt := old(disk).partial)
      ensures ok <==> publication.Acknowledged? && PublishesReceipt(old(disk), disk)
    {
      hide LawfulRun, GoodDisk, InspectPair;
      ok := false;
      if !publication.NotMade? && disk.partial.Some? && disk.receipt.None? {
        AcceptedPairIsGood(rules, disk);
        disk := disk.(partial := None, receipt := disk.partial);
        Record();
        ok := publication.Acknowledged?;
      }
      calls := calls + [PublishTried(ok)];
    }

    // ---- The named mutex ----

    method MakeMutex() returns (ok: bool)
      requires Valid() && !mutexOpen
      modifies `mutexOpen, `calls
      ensures Valid() && calls == old(calls) + [MutexMade(ok)] && mutexOpen == ok && (steady ==> ok)
    {
      hide LawfulRun, GoodDisk;
      ok := *;
      if steady { ok := true; }
      mutexOpen := ok;
      calls := calls + [MutexMade(ok)];
    }

    method AcquireMutex() returns (r: MutexAnswer)
      requires Valid() && mutexOpen
      modifies `calls
      ensures Valid() && calls == old(calls) + [MutexTried(r)] && (steady ==> r.Acquired?)
    {
      hide LawfulRun, GoodDisk;
      r := *;
      if steady { r := Acquired; }
      calls := calls + [MutexTried(r)];
    }

    method ReleaseMutex() returns (r: Answer)
      requires mutexOpen
      modifies `unclean
      ensures unclean == old(unclean) + Failure(r) && (steady ==> r.Yes?)
    {
      r := Answers();
      unclean := unclean + Failure(r);
    }

    method CloseMutex() returns (r: Answer)
      requires mutexOpen
      modifies `mutexOpen, `unclean
      ensures !mutexOpen && unclean == old(unclean) + Failure(r) && (steady ==> r.Yes?)
    {
      mutexOpen := false;
      r := Answers();
      unclean := unclean + Failure(r);
    }
  }

  /** At most `limit` characters from `position` on. */
  function Window(content: string, position: nat, limit: nat): string {
    if position >= |content| then ""
    else if position + limit <= |content| then content[position..position + limit]
    else content[position..]
  }

  function Failure(r: Answer): nat { if r.Yes? then 0 else 1 }

  lemma PartialIsFree(rules: Rules, d: Disk, partial: Option<File>)
    requires GoodDisk(rules, d)
    ensures GoodDisk(rules, d.(partial := partial))
  {
    hide InspectPair, Signed;
  }

  lemma SignedBundleIsGood(rules: Rules, d: Disk)
    requires GoodDisk(rules, d) && d.partial.Some? && d.bundle.None? && Signed(rules, d.partial.value.content)
    ensures GoodDisk(rules, d.(partial := None, bundle := d.partial))
  {
    hide InspectPair, Signed;
  }

  lemma AcceptedPairIsGood(rules: Rules, d: Disk)
    requires GoodDisk(rules, d) && d.partial.Some? && d.receipt.None? && d.bundle.Some?
    requires InspectPair(rules, d.bundle.value, d.partial.value).InstalledPair?
    ensures GoodDisk(rules, d.(partial := None, receipt := d.partial))
  {
    hide InspectPair, Signed;
  }

  /** `FixedBootstrapInstallMutex`: taken at most once and closed at most once. A release that fails
      leaves it owned, so closing it tries the release once more. */
  class InstallMutex {
    const world: World
    var attempted: bool
    var owned: bool
    var closed: bool

    ghost predicate Consistent()
      reads this, world
    {
      && (closed <==> !world.mutexOpen)
      && (owned ==> attempted)
    }

    constructor (world: World)
      requires world.mutexOpen
      ensures this.world == world && !attempted && !owned && !closed && Consistent()
    {
      this.world := world;
      attempted, owned, closed := false, false, false;
    }

    /** An abandoned mutex is owned, but that counts as a failure to acquire. */
    method Acquire() returns (ok: bool)
      requires Consistent() && !closed && world.Valid()
      modifies this, world`calls
      ensures Consistent() && closed == old(closed) && attempted && world.Valid()
      ensures ok ==> owned && !old(attempted)
      ensures old(attempted) ==> world.calls == old(world.calls)
      ensures !old(attempted) ==>
        |world.calls| == |old(world.calls)| + 1 && world.calls[..|old(world.calls)|] == old(world.calls)
        && world.calls[|old(world.calls)|].MutexTried? && (ok <==> world.calls[|old(world.calls)|].got.Acquired?)
      ensures world.steady && !old(attempted) ==> ok
    {
      if attempted || closed { return false; }
      attempted := true;
      var status := world.AcquireMutex();
      if status.AcquireRaised? { return false; }
      owned := status.Acquired? || status.Abandoned?;
      ok := status.Acquired?;
    }

    method Release() returns (ok: bool)
      requires Consistent() && (owned ==> !closed)
      modifies this, world`unclean
      ensures Consistent() && closed == old(closed) && attempted == old(attempted)
      ensures world.unclean == old(world.unclean) + if ok || !old(owned) then 0 else 1
      ensures ok ==> old(owned) && !owned
      ensures !ok ==> owned == old(owned)
      ensures world.steady && old(owned) ==> ok
    {
      if !owned { return false; }
      var released := world.ReleaseMutex();
      if released.Yes? { owned := false; }
      ok := released.Yes?;
    }

    method Close() returns (ok: bool)
      requires Consistent() && (owned ==> !closed)
      modifies this, world`mutexOpen, world`unclean
      ensures Consistent() && closed && !world.mutexOpen
      ensures world.unclean >= old(world.unclean)
      ensures !old(closed) ==> (ok <==> world.unclean == old(world.unclean)) && (ok ==> !owned)
      ensures world.steady ==> ok
    {
      if closed { return true; }
      var releaseClean := true;
      if owned { releaseClean := Release(); }
      closed := true;
      var closeClean := world.CloseMutex();
      ok := releaseClean && closeClean.Yes?;
    }

    /** `_cleanup_mutex` */
    method Cleanup() returns (clean: bool)
      requires Consistent() && !closed
      modifies this, world`mutexOpen, world`unclean
      ensures Consistent() && closed && !world.mutexOpen
      ensures clean ==> old(owned) && !owned
      ensures world.unclean >= old(world.unclean) && (clean <==> old(owned) && world.unclean == old(world.unclean))
      ensures world.steady && old(owned) ==> clean
    {
      clean := Release();
      var closedClean := Close();
      clean := closedClean && clean;
    }
  }
}
