/** Crash recovery of pending write intents: one transaction per intent, so the process may
    stop after any of them and start over. */
module M1Recovery {
  import opened Wrappers
  import opened Lineage
  import opened M1Tables
  import opened M1Operations
  import opened M1Invariants
  import opened M1Theorems
  import opened M1Identity

  function PendingIntents(db: Db): set<Id> {
    set i | i in db.intents && db.intents[i].status == Pending
  }

  /** The transactions of the recovery loop, in the order the rows were selected. */
  function RecoverAll(db: Db, order: seq<Id>): Db {
    if order == [] then db
    else RecoverIntent(RecoverAll(db, order[..|order| - 1]), order[|order| - 1]).0
  }

  function Elements(order: seq<Id>): set<Id> {
    set i | i in order
  }

  predicate HasPending(db: Db, done: set<Id>, s: Id) {
    exists i :: i in done && i in db.intents && db.intents[i].status == Pending && db.intents[i].session == s
  }

  function QuarantineRows(intents: map<Id, Intent>, done: set<Id>): map<Id, Intent> {
    map i | i in intents :: if i in done then intents[i].(status := Quarantined) else intents[i]
  }

  function FailRows(db: Db, done: set<Id>): map<Id, Session> {
    map s | s in db.sessions ::
      if HasPending(db, done, s)
      then db.sessions[s].(state := RecoveredState(db, db.sessions[s]), collectionBlocked := true)
      else db.sessions[s]
  }

  /** What recovering the set `done` of intents amounts to, in any order. */
  function Recovered(db: Db, done: set<Id>): Db {
    db.(intents := QuarantineRows(db.intents, done), sessions := FailRows(db, done))
  }

  ghost predicate IntentsLinked(db: Db) {
    forall i :: i in db.intents ==> db.intents[i].session in db.sessions
  }

  lemma OneMoreRows(db: Db, done: set<Id>, i: Id)
    requires IntentsLinked(db) && i in db.intents && db.intents[i].status == Pending && i !in done
    ensures var s := db.intents[i].session;
            var before := Recovered(db, done);
            FailRows(db, done + {i}) == before.sessions[s := before.sessions[s].(state := RecoveredState(before, before.sessions[s]), collectionBlocked := true)]
  {
    var s := db.intents[i].session;
    var before := Recovered(db, done);
    assert HasPending(db, done + {i}, s);
    forall t | t in db.sessions && t != s ensures HasPending(db, done + {i}, t) <==> HasPending(db, done, t) {
      if HasPending(db, done + {i}, t) {
        var j :| j in done + {i} && j in db.intents && db.intents[j].status == Pending && db.intents[j].session == t;
        assert j in done;
      }
      if HasPending(db, done, t) {
        var j :| j in done && j in db.intents && db.intents[j].status == Pending && db.intents[j].session == t;
        assert j in done + {i};
      }
    }
    assert RecoveredState(before, before.sessions[s]) == RecoveredState(db, db.sessions[s]);
  }

  lemma OneMore(db: Db, done: set<Id>, i: Id)
    requires IntentsLinked(db) && done <= PendingIntents(db) && i in PendingIntents(db)
    ensures RecoverIntent(Recovered(db, done), i).0 == Recovered(db, done + {i})
  {
    if i in done {
      assert done + {i} == done;
    } else {
      OneMoreRows(db, done, i);
      hide FailRows, HasPending;
      var before := Recovered(db, done);
      assert QuarantineRows(db.intents, done + {i}) == before.intents[i := before.intents[i].(status := Quarantined)];
    }
  }

  lemma {:induction false} AnyOrder(db: Db, order: seq<Id>)
    requires IntentsLinked(db) && Elements(order) <= PendingIntents(db)
    ensures RecoverAll(db, order) == Recovered(db, Elements(order))
  {
    if order == [] {
      assert QuarantineRows(db.intents, {}) == db.intents;
      assert forall s :: !HasPending(db, {}, s);
      assert FailRows(db, {}) == db.sessions;
      assert Elements(order) == {};
    } else {
      var earlier, last := order[..|order| - 1], order[|order| - 1];
      assert order == earlier + [last];
      assert Elements(order) == Elements(earlier) + {last};
      assert last in Elements(order);
      AnyOrder(db, earlier);
      OneMore(db, Elements(earlier), last);
    }
  }

  lemma TwicePending(db: Db, first: set<Id>, rest: set<Id>, s: Id)
    ensures HasPending(db, first + rest, s) <==> HasPending(db, first, s) || HasPending(Recovered(db, first), rest - first, s)
  {
    var middle := Recovered(db, first);
    hide FailRows;
    if HasPending(db, first + rest, s) {
      var i :| i in first + rest && i in db.intents && db.intents[i].status == Pending && db.intents[i].session == s;
      if i !in first {
        assert i in middle.intents && middle.intents[i] == db.intents[i];
        assert i in rest - first;
      }
    }
    if HasPending(db, first, s) {
      var i :| i in first && i in db.intents && db.intents[i].status == Pending && db.intents[i].session == s;
      assert i in first + rest;
    }
    if HasPending(middle, rest - first, s) {
      var i :| i in rest - first && i in middle.intents && middle.intents[i].status == Pending && middle.intents[i].session == s;
      assert i in first + rest;
    }
  }

  lemma Twice(db: Db, first: set<Id>, rest: set<Id>)
    ensures Recovered(Recovered(db, first), rest - first) == Recovered(db, first + rest)
  {
    var middle := Recovered(db, first);
    hide HasPending;
    forall s | s in db.sessions
      ensures FailRows(middle, rest - first)[s] == FailRows(db, first + rest)[s]
    {
      TwicePending(db, first, rest, s);
      assert RecoveredState(middle, middle.sessions[s]) == RecoveredState(db, db.sessions[s]);
    }
    assert FailRows(middle, rest - first) == FailRows(db, first + rest);
    hide FailRows;
    assert QuarantineRows(middle.intents, rest - first) == QuarantineRows(db.intents, first + rest);
  }

  lemma PendingAfter(db: Db, done: set<Id>)
    ensures PendingIntents(Recovered(db, done)) == PendingIntents(db) - done
  {
    hide FailRows;
  }

  lemma RecoveredLinked(db: Db, done: set<Id>)
    requires IntentsLinked(db)
    ensures IntentsLinked(Recovered(db, done))
  {
  }

  lemma ReachableIntents(db: Db, hash: Hash)
    requires Reachable(db, hash)
    ensures IntentsLinked(db)
  {
    ReachableInv(db, hash);
  }

  ghost predicate WasWriting(db: Db, s: Id) {
    exists i :: i in db.intents && db.intents[i].session == s && db.intents[i].status == Pending
  }

  ghost function StoppedState(db: Db, s: Id): SessionState
    requires s in db.sessions && db.sessions[s].participant.Some?
  {
    if db.sessions[s].participant.value in db.receipts then Withdrawn else Failed
  }

  /** After a complete recovery every intent is quarantined, and every session that had a pending one
      is blocked: withdrawn if its participant holds a receipt and failed if not. Nothing else changes. */
  lemma RecoveryOutcome(db: Db, hash: Hash, whole: seq<Id>)
    requires Reachable(db, hash) && Elements(whole) == PendingIntents(db)
    ensures var after := RecoverAll(db, whole);
            && after == db.(sessions := after.sessions, intents := after.intents)
            && after.intents.Keys == db.intents.Keys && after.sessions.Keys == db.sessions.Keys
            && (forall i :: i in db.intents ==> after.intents[i] == Intent(db.intents[i].session, db.intents[i].path, Quarantined))
            && (forall s :: s in db.sessions && !WasWriting(db, s) ==> after.sessions[s] == db.sessions[s])
            && (forall s :: s in db.sessions && WasWriting(db, s) ==>
                  && db.sessions[s].participant.Some?
                  && after.sessions[s] == db.sessions[s].(collectionBlocked := true, state := StoppedState(db, s)))
  {
    ReachableIntents(db, hash);
    AnyOrder(db, whole);
    hide RecoverAll, IntentsLinked, Elements;
    forall s | s in db.sessions
      ensures HasPending(db, PendingIntents(db), s) <==> WasWriting(db, s)
      ensures WasWriting(db, s) ==> db.sessions[s].participant.Some? && RecoveredState(db, db.sessions[s]) == StoppedState(db, s)
    {
      PendingIsWriting(db, s);
      if WasWriting(db, s) { WriterFails(db, hash, s); }
    }
    hide HasPending, WasWriting, RecoveredState, Reachable;
  }

  lemma PendingIsWriting(db: Db, s: Id)
    ensures HasPending(db, PendingIntents(db), s) <==> WasWriting(db, s)
  {
    if i :| i in db.intents && db.intents[i].session == s && db.intents[i].status == Pending { assert i in PendingIntents(db); }
  }

  lemma WriterFails(db: Db, hash: Hash, s: Id)
    requires Reachable(db, hash) && s in db.sessions && WasWriting(db, s)
    ensures db.sessions[s].participant.Some? && RecoveredState(db, db.sessions[s]) == StoppedState(db, s)
  {
    ReachableInv(db, hash);
    ReachableProper(db, hash);
    hide Reachable, Logged, LineageAgrees, WithdrawalSlots, Unique, Retained, ArtifactsLinked, WithdrawalsLinked, SessionsOk;
    assert Holds(db.sessions, s);
    assert RowTells(db.participants, db.sessions[s]);
    hide RowsTell, RecordsLinked, TasksOf, LineageOf;
    var p := db.sessions[s].participant.value;
    if p in db.receipts { assert SettledFor(db, p); }
  }

  /** Recovery may stop after any prefix of its intents and start over on what is still pending,
      in any order: the store ends as after one uninterrupted recovery. */
  lemma RecoveryRestarts(db: Db, hash: Hash, first: seq<Id>, rest: seq<Id>, whole: seq<Id>)
    requires Reachable(db, hash)
    requires Elements(first) <= PendingIntents(db)
    requires Elements(rest) == PendingIntents(RecoverAll(db, first))
    requires Elements(whole) == PendingIntents(db)
    ensures RecoverAll(RecoverAll(db, first), rest) == RecoverAll(db, whole)
  {
    hide Reachable, RecoverAll, Recovered, PendingIntents, IntentsLinked, Elements;
    ReachableIntents(db, hash);
    AnyOrder(db, first);
    AnyOrder(db, whole);
    PendingAfter(db, Elements(first));
    RecoveredLinked(db, Elements(first));
    AnyOrder(RecoverAll(db, first), rest);
    Twice(db, Elements(first), Elements(whole));
    assert Elements(first) + Elements(whole) == Elements(whole);
  }

  /** Recovering as above is a run of `Recover` calls, so all invariants of runs apply to it. */
  lemma {:induction false} RecoveryIsARun(db: Db, hash: Hash, order: seq<Id>)
    ensures RecoverAll(db, order) == Run(db, hash, seq(|order|, i requires 0 <= i < |order| => Recover(order[i])))
  {
    var ops := seq(|order|, i requires 0 <= i < |order| => Recover(order[i]));
    if order != [] {
      var earlier := order[..|order| - 1];
      RecoveryIsARun(db, hash, earlier);
      assert ops[..|ops| - 1] == seq(|earlier|, i requires 0 <= i < |earlier| => Recover(earlier[i]));
    }
  }
}
