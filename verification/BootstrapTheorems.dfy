/** What the publish protocol promises over crashes and over any sequence of installs. */
module BootstrapTheorems {
  import opened Wrappers
  import opened BootstrapCodec
  import opened BootstrapDisk
  import opened BootstrapInstaller
  import Ports = BootstrapPorts

  /** One run of `install`, or of its beginning: the disks it went through, from the disk it found
      to the last one before it returned or was stopped. */
  datatype Session = Session(payload: string, authority: Authority, run: seq<Disk>, outcome: Option<Outcome>)

  /** `whole` is the run as it would have ended; a stopped session saw a prefix of it. */
  ghost predicate Happened(rules: Rules, s: Session, whole: seq<Disk>, end: Outcome) {
    && s.run != [] && s.run <= whole
    && LawfulRun(whole)
    && (forall i :: 0 <= i < |whole| ==> GoodDisk(rules, whole[i]))
    && (whole[0] != EMPTY_DISK ==> |whole| == 1)
    && InstallPromise(rules, whole[0], whole[|whole| - 1], s.payload, s.authority, end)
    && (s.outcome.Some? ==> s.run == whole && s.outcome.value == end)
  }

  /** Stopped at any moment, an install leaves a disk on which the reader finds an installed pair
      only if the receipt was moved, and then the bundle is the payload that was being installed. */
  lemma CrashSafe(rules: Rules, s: Session, whole: seq<Disk>, end: Outcome, i: nat)
    requires Happened(rules, s, whole, end) && s.run[0] == EMPTY_DISK && i < |s.run|
    requires Inspect(rules, s.run[i]).InstalledPair?
    ensures exists k :: 0 <= k < i && PublishesReceipt(s.run[k], s.run[k + 1])
    ensures s.run[i].bundle.Some? && s.run[i].bundle.value.content == s.payload
  {
    hide GoodDisk, LawfulRun, Inspect, InstallPromise, PublishesReceipt;
    assert s.run[i] == whole[i] && whole[0] == EMPTY_DISK;
    PairNeedsReceipt(rules, whole[i]);
    BundleBeside(rules, whole[i]);
    BundleIsPayload(rules, s, whole, end, i);
    ReceiptWasPublished(whole, i);
    var k :| 0 <= k < i && PublishesReceipt(whole[k], whole[k + 1]);
    assert whole[k] == s.run[k] && whole[k + 1] == s.run[k + 1];
  }

  lemma BundleBeside(rules: Rules, d: Disk)
    requires GoodDisk(rules, d)
    ensures d.receipt.Some? ==> d.bundle.Some?
  {
    hide InspectPair, Signed;
  }

  lemma BundleIsPayload(rules: Rules, s: Session, whole: seq<Disk>, end: Outcome, i: nat)
    requires Happened(rules, s, whole, end) && whole[0] == EMPTY_DISK && i < |whole|
    ensures whole[i].bundle.Some? ==> whole[i].bundle.value.content == s.payload
  {
    PublishedLeavesStay(whole, i, |whole| - 1);
    hide GoodDisk, Published, VerifyApproved, LawfulRun;
  }

  lemma PairNeedsReceipt(rules: Rules, d: Disk)
    ensures Inspect(rules, d).InstalledPair? ==> d.receipt.Some?
  {
    hide InspectPair;
  }

  /** With bundle and receipt in place a partial file can no longer be moved away. */
  lemma {:induction false} PartialStays(run: seq<Disk>, i: nat, j: nat)
    requires LawfulRun(run) && i <= j < |run|
    requires run[i].bundle.Some? && run[i].receipt.Some? && run[i].partial.Some?
    ensures run[j].bundle.Some? && run[j].receipt.Some? && run[j].partial.Some?
    decreases j
  {
    if i < j {
      PartialStays(run, i, j - 1);
      assert LawfulStep(run[j - 1], run[j - 1 + 1]);
    }
  }

  /** The move of the receipt is the last thing an install does to the disk. */
  lemma ReceiptIsLast(rules: Rules, s: Session, whole: seq<Disk>, end: Outcome, i: nat)
    requires Happened(rules, s, whole, end) && whole[0] == EMPTY_DISK && i < |whole| && whole[i].receipt.Some?
    ensures whole[i] == whole[|whole| - 1] && whole[i].partial.None?
    ensures ShowsPair(rules, whole[i], s.payload, s.authority)
    ensures end.result == Installed || end.result == WriteFailed
  {
    hide Published, VerifyApproved, ShowsPair, GoodDisk, LawfulRun;
    BundleBeside(rules, whole[i]);
    PublishedLeavesStay(whole, i, |whole| - 1);
    if whole[i].partial.Some? { PartialStays(whole, i, |whole| - 1); }
  }

  // ---- Any sequence of installs ----

  ghost predicate Succeeded(s: Session) {
    s.outcome.Some? && s.outcome.value.result == Installed
  }

  function End(s: Session): Disk
    requires s.run != []
  {
    s.run[|s.run| - 1]
  }

  ghost predicate IsSession(rules: Rules, s: Session) {
    exists whole, end :: Happened(rules, s, whole, end)
  }

  lemma AppendSession(rules: Rules, sessions: seq<Session>, s: Session)
    requires Sequence(rules, sessions) && IsSession(rules, s) && s.run != []
    requires sessions != [] ==> sessions[|sessions| - 1].run != [] && s.run[0] == End(sessions[|sessions| - 1])
    ensures Sequence(rules, sessions + [s])
  {
    hide IsSession;
    var all := sessions + [s];
    forall i | 0 <= i < |all| ensures IsSession(rules, all[i]) {
      if i < |sessions| { assert IsSession(rules, sessions[i]); }
    }
    forall i | 0 <= i < |all| - 1 ensures RunsOn(all[i], all[i + 1]) {
      if i < |sessions| - 1 { assert RunsOn(sessions[i], sessions[i + 1]); }
    }
  }

  ghost predicate RunsOn(s: Session, t: Session) {
    s.run != [] && t.run != [] && t.run[0] == End(s)
  }

  /** Installs follow one another, each on the disk the one before left, whether it returned or was
      stopped; nobody else touches the leaves. */
  ghost predicate Sequence(rules: Rules, sessions: seq<Session>) {
    && (forall i :: 0 <= i < |sessions| ==> IsSession(rules, sessions[i]))
    && (forall i :: 0 <= i < |sessions| - 1 ==> RunsOn(sessions[i], sessions[i + 1]))
  }

  lemma SessionRuns(rules: Rules, sessions: seq<Session>, i: nat)
    requires Sequence(rules, sessions) && i < |sessions|
    ensures sessions[i].run != [] && LawfulRun(sessions[i].run)
    ensures forall k :: 0 <= k < |sessions[i].run| ==> GoodDisk(rules, sessions[i].run[k])
  {
    hide LawfulStep, GoodDisk, InstallPromise;
    assert IsSession(rules, sessions[i]);
    var whole, end :| Happened(rules, sessions[i], whole, end);
    var run := sessions[i].run;
    forall k | 0 <= k < |run| - 1 ensures LawfulStep(run[k], run[k + 1]) {
      assert LawfulStep(whole[k], whole[k + 1]);
    }
  }

  lemma FindsOther(rules: Rules, s: Session)
    requires IsSession(rules, s) && s.run != [] && s.run[0] != EMPTY_DISK
    ensures s.run == [s.run[0]] && !Succeeded(s)
  {
    hide GoodDisk, LawfulRun, Published, VerifyApproved, ShowsPair;
    var whole, end :| Happened(rules, s, whole, end);
  }

  /** Once a session has left anything at all on the disk, returned or stopped, no later session
      writes to it or succeeds: the disk stays for ever as that session left it. */
  lemma {:induction false} OnlyTheFirstWrites(rules: Rules, sessions: seq<Session>, i: nat, j: nat)
    requires Sequence(rules, sessions) && i <= j < |sessions|
    requires sessions[i].run != [] && End(sessions[i]) != EMPTY_DISK
    ensures sessions[j].run != [] && End(sessions[j]) == End(sessions[i])
    ensures i < j ==> sessions[j].run == [End(sessions[i])] && !Succeeded(sessions[j])
    decreases j
  {
    hide IsSession, Succeeded;
    if i < j {
      OnlyTheFirstWrites(rules, sessions, i, j - 1);
      assert RunsOn(sessions[j - 1], sessions[j - 1 + 1]) && IsSession(rules, sessions[j]);
      FindsOther(rules, sessions[j]);
    }
  }

  /** Once a session that found an empty disk ended with a receipt, returned or stopped, the reader's
      verdict at the end of it and of every later session is one and the same installed pair, with
      the bundle of its payload; and the call itself answered INSTALLED or WRITE_FAILED, if it did
      answer. */
  lemma ReceiptMeansInstalled(rules: Rules, sessions: seq<Session>, i: nat, j: nat)
    requires Sequence(rules, sessions) && i <= j < |sessions|
    requires sessions[i].run != [] && sessions[i].run[0] == EMPTY_DISK && End(sessions[i]).receipt.Some?
    ensures sessions[j].run != [] && Inspect(rules, End(sessions[j])) == Inspect(rules, End(sessions[i]))
    ensures ShowsPair(rules, End(sessions[j]), sessions[i].payload, sessions[i].authority)
    ensures sessions[i].outcome.Some? ==>
      sessions[i].outcome.value.result == Installed || sessions[i].outcome.value.result == WriteFailed
  {
    hide InstallPromise, LawfulRun, GoodDisk, ShowsPair, Inspect;
    assert IsSession(rules, sessions[i]);
    var whole, end :| Happened(rules, sessions[i], whole, end);
    ReceiptIsLast(rules, sessions[i], whole, end, |sessions[i].run| - 1);
    OnlyTheFirstWrites(rules, sessions, i, j);
  }

  /** Over any sequence of installs, with any payloads and stops: once a bundle or a receipt is on
      the disk, its bytes and its identity never change again. */
  lemma {:induction false} PublishedForever(rules: Rules, sessions: seq<Session>, i: nat, j: nat)
    requires Sequence(rules, sessions) && i <= j < |sessions|
    ensures sessions[i].run != [] && sessions[j].run != []
    ensures sessions[i].run[0].bundle.Some? ==> End(sessions[j]).bundle == sessions[i].run[0].bundle
    ensures sessions[i].run[0].receipt.Some? ==> End(sessions[j]).receipt == sessions[i].run[0].receipt
    decreases j
  {
    hide GoodDisk, Happened;
    SessionRuns(rules, sessions, i);
    SessionRuns(rules, sessions, j);
    PublishedLeavesStay(sessions[j].run, 0, |sessions[j].run| - 1);
    if i < j {
      PublishedForever(rules, sessions, i, j - 1);
      assert RunsOn(sessions[j - 1], sessions[j - 1 + 1]);
    }
  }

  lemma SuccessPublishes(rules: Rules, s: Session, whole: seq<Disk>, end: Outcome)
    requires Happened(rules, s, whole, end) && Succeeded(s)
    ensures s.run[0] == EMPTY_DISK && End(s).receipt.Some? && Inspect(rules, End(s)).InstalledPair?
    ensures End(s).bundle.Some? && End(s).bundle.value.content == s.payload
  {
    hide GoodDisk, LawfulRun, InspectPair, VerifyApproved, Inspect;
  }

  /** At most one call ever returns INSTALLED. */
  lemma InstalledAtMostOnce(rules: Rules, sessions: seq<Session>, i: nat, j: nat)
    requires Sequence(rules, sessions) && i < |sessions| && j < |sessions|
    requires Succeeded(sessions[i]) && Succeeded(sessions[j])
    ensures i == j
  {
    if i < j { SucceedsOnce(rules, sessions, i, j); }
    if j < i { SucceedsOnce(rules, sessions, j, i); }
  }

  lemma SucceedsOnce(rules: Rules, sessions: seq<Session>, i: nat, j: nat)
    requires Sequence(rules, sessions) && i < j < |sessions| && Succeeded(sessions[i])
    ensures !Succeeded(sessions[j])
  {
    assert IsSession(rules, sessions[i]);
    var whole, end :| Happened(rules, sessions[i], whole, end);
    SuccessPublishes(rules, sessions[i], whole, end);
    hide Happened, IsSession, Succeeded, Inspect;
    OnlyTheFirstWrites(rules, sessions, i, j);
  }

  /** One install, with the session it is. */
  method InstallRecorded(world: Ports.World, payload: string, authority: Authority) returns (o: Outcome, ghost s: Session)
    requires Settled(world)
    modifies world
    ensures Settled(world) && old(world.history) <= world.history
    ensures s == Session(payload, authority, world.history[|old(world.history)| - 1..], Some(o))
    ensures Happened(world.rules, s, s.run, o) && s.run[0] == old(world.disk) && End(s) == world.disk
  {
    hide GoodDisk, LawfulStep, InstallPromise;
    ghost var n := |world.history| - 1;
    o := Install(world, payload, authority);
    ghost var run := world.history[n..];
    s := Session(payload, authority, run, Some(o));
    assert forall i :: 0 <= i < |run| ==> run[i] == world.history[n + i];
    forall i | 0 <= i < |run| - 1 ensures LawfulStep(run[i], run[i + 1]) {
      assert LawfulStep(world.history[n + i], world.history[n + i + 1]);
    }
  }

  /** An install whose last move took effect without being acknowledged: it answers WRITE_FAILED,
      and the reader finds the pair. */
  method SilentPublication(rules: Rules, payload: string, authority: Authority) returns (world: Ports.World, o: Outcome)
    requires IsDigest(rules.parentDigest) && forall id: nat :: IsDigest(rules.identityDigest(id))
    requires VerifyApproved(rules.hash, rules.verify, payload, authority).Some?
    ensures fresh(world) && Settled(world) && world.rules == rules
    ensures o == Outcome(WriteFailed, None) && ShowsPair(rules, world.disk, payload, authority)
  {
    hide LawfulRun, GoodDisk, VerifyApproved, ShowsPair, Published, IsDigest;
    world := new Ports.World(rules, true, Ports.Acknowledged, Ports.MadeSilently);
    o := Install(world, payload, authority);
  }

  /** An install in which nothing fails. */
  method CleanInstall(rules: Rules, payload: string, authority: Authority) returns (world: Ports.World, o: Outcome)
    requires IsDigest(rules.parentDigest) && forall id: nat :: IsDigest(rules.identityDigest(id))
    requires VerifyApproved(rules.hash, rules.verify, payload, authority).Some?
    ensures fresh(world) && Settled(world) && world.rules == rules
    ensures o.result == Installed && Published(rules, world.disk, payload, authority, o)
  {
    hide LawfulRun, GoodDisk, VerifyApproved, ShowsPair, Published, IsDigest;
    world := new Ports.World(rules, true, Ports.Acknowledged, Ports.Acknowledged);
    o := Install(world, payload, authority);
  }

  /** Installs one after another: their sessions form a sequence, so at most one of them answers
      INSTALLED and nothing it published is touched again. */
  method InstallAll(world: Ports.World, payloads: seq<string>, authorities: seq<Authority>)
    returns (outcomes: seq<Outcome>, ghost sessions: seq<Session>)
    requires |payloads| == |authorities| && Settled(world)
    modifies world
    ensures Settled(world) && |outcomes| == |sessions| == |payloads|
    ensures Sequence(world.rules, sessions)
    ensures forall i :: 0 <= i < |sessions| ==> sessions[i].outcome == Some(outcomes[i]) && sessions[i].payload == payloads[i]
    ensures forall i, j :: 0 <= i < j < |outcomes| && outcomes[i].result == Installed ==> outcomes[j].result != Installed
  {
    hide Happened, Sequence, IsSession;
    EmptySequence(world.rules);
    outcomes, sessions := [], [];
    var i := 0;
    while i < |payloads|
      invariant 0 <= i <= |payloads| && |outcomes| == |sessions| == i
      invariant Settled(world) && Sequence(world.rules, sessions)
      invariant i > 0 ==> sessions[i - 1].run != [] && End(sessions[i - 1]) == world.disk
      invariant forall k :: 0 <= k < i ==> sessions[k].outcome == Some(outcomes[k]) && sessions[k].payload == payloads[k]
    {
      var o, s := InstallRecorded(world, payloads[i], authorities[i]);
      OneSession(world.rules, s, o);
      AppendSession(world.rules, sessions, s);
      outcomes, sessions := outcomes + [o], sessions + [s];
      i := i + 1;
    }
    forall i, j | 0 <= i < j < |outcomes| && outcomes[i].result == Installed ensures outcomes[j].result != Installed {
      if outcomes[j].result == Installed { InstalledAtMostOnce(world.rules, sessions, i, j); }
    }
  }

  lemma EmptySequence(rules: Rules)
    ensures Sequence(rules, [])
  {
  }

  lemma OneSession(rules: Rules, s: Session, o: Outcome)
    requires Happened(rules, s, s.run, o)
    ensures IsSession(rules, s)
  {
    hide Happened;
  }
}
