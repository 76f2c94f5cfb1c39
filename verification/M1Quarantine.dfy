/** The files beside the store: the partial files that write intents name, and the quarantine to
    which crash recovery moves them. */
module M1Quarantine {
  type Files = map<string, string>

  /** What becomes of the partial file of one intent; if recovery is stuck it ends there. */
  datatype Fate = MovedTo(name: string) | Unusable | Stuck

  /** The answers of the file system for one intent: whether the quarantine directory can be used,
      whether the path names a partial file that may be touched, the names that are tried one after
      another, and whether the rename succeeds. */
  datatype FileAttempt = FileAttempt(directory: bool, followed: bool, names: seq<string>, renames: bool)

  const TRIES: nat := 8

  predicate AllTaken(quarantine: Files, names: seq<string>) {
    forall i :: 0 <= i < |names| ==> names[i] in quarantine
  }

  ghost predicate Holds(quarantine: Files, earlier: Files, content: string) {
    exists name :: name in quarantine && name !in earlier && quarantine[name] == content
  }

  /** What was in quarantine is still there, no partial file appears or changes, each one that is
      gone is in quarantine under a new name, and there are as many files as before. */
  ghost predicate NothingLost(partials: Files, quarantine: Files, partialsNow: Files, quarantineNow: Files) {
    && (forall name :: name in quarantine ==> name in quarantineNow && quarantineNow[name] == quarantine[name])
    && (forall path :: path in partialsNow ==> path in partials && partialsNow[path] == partials[path])
    && (forall path :: path in partials && path !in partialsNow ==> Holds(quarantineNow, quarantine, partials[path]))
    && |partialsNow| + |quarantineNow| == |partials| + |quarantine|
  }

  lemma NothingLostTwice(p0: Files, q0: Files, p1: Files, q1: Files, p2: Files, q2: Files)
    requires NothingLost(p0, q0, p1, q1) && NothingLost(p1, q1, p2, q2)
    ensures NothingLost(p0, q0, p2, q2)
  {
    forall path | path in p0 && path !in p2 ensures Holds(q2, q0, p0[path]) {
      if path in p1 {
        assert Holds(q2, q1, p1[path]);
        var name :| name in q2 && name !in q1 && q2[name] == p1[path];
        assert name !in q0;
      } else {
        assert Holds(q1, q0, p0[path]);
        var name :| name in q1 && name !in q0 && q1[name] == p0[path];
        assert q2[name] == p0[path];
      }
    }
  }

  lemma SameCount(partials: Files, quarantine: Files, path: string, name: string)
    requires path in partials && name !in quarantine
    ensures |partials - {path}| + |quarantine[name := partials[path]]| == |partials| + |quarantine|
  {
    var left, now := partials - {path}, quarantine[name := partials[path]];
    assert left.Keys == partials.Keys - {path} && |left| == |left.Keys| && |partials| == |partials.Keys|;
    assert now.Keys == quarantine.Keys + {name} && |now| == |now.Keys| && |quarantine| == |quarantine.Keys|;
  }

  lemma OneMove(partials: Files, quarantine: Files, path: string, name: string)
    requires path in partials && name !in quarantine
    ensures NothingLost(partials, quarantine, partials - {path}, quarantine[name := partials[path]])
  {
    SameCount(partials, quarantine, path, name);
    var now := quarantine[name := partials[path]];
    assert name in now && now[name] == partials[path];
  }

  class Storage {
    var partials: Files
    var quarantine: Files

    constructor (partials: Files)
      ensures this.partials == partials && quarantine == map[]
    {
      this.partials, quarantine := partials, map[];
    }

    /** The file part of recovering one intent: the file is moved to the first free name; a path
        that cannot be used is passed over. */
    method Quarantine(path: string, attempt: FileAttempt) returns (fate: Fate)
      requires |attempt.names| == TRIES
      modifies this
      ensures NothingLost(old(partials), old(quarantine), partials, quarantine)
      ensures fate.Unusable? <==> attempt.directory && !(attempt.followed && path in old(partials))
      ensures fate.MovedTo? <==>
        attempt.directory && attempt.followed && path in old(partials) && attempt.renames && !AllTaken(old(quarantine), attempt.names)
      ensures fate.MovedTo? ==>
        && fate.name in attempt.names && fate.name !in old(quarantine)
        && partials == old(partials) - {path} && quarantine == old(quarantine)[fate.name := old(partials)[path]]
      ensures !fate.MovedTo? ==> partials == old(partials) && quarantine == old(quarantine)
    {
      if !attempt.directory { return Stuck; }
      if !attempt.followed || path !in partials { return Unusable; }
      var i := 0;
      while i < TRIES
        invariant 0 <= i <= TRIES && AllTaken(quarantine, attempt.names[..i])
        invariant partials == old(partials) && quarantine == old(quarantine)
      {
        var name := attempt.names[i];
        if name !in quarantine {
          if !attempt.renames { return Stuck; }
          OneMove(partials, quarantine, path, name);
          quarantine := quarantine[name := partials[path]];
          partials := partials - {path};
          return MovedTo(name);
        }
        i := i + 1;
      }
      assert attempt.names[..TRIES] == attempt.names;
      fate := Stuck;
    }

    /** One more of several: compared with the files there were at first, nothing is lost either. */
    method QuarantineNext(path: string, attempt: FileAttempt, ghost partials0: Files, ghost quarantine0: Files) returns (stuck: bool)
      requires |attempt.names| == TRIES && NothingLost(partials0, quarantine0, partials, quarantine)
      modifies this
      ensures NothingLost(partials0, quarantine0, partials, quarantine) && partials.Keys <= old(partials).Keys
      ensures if stuck then !attempt.directory || attempt.followed else attempt.directory && (attempt.followed ==> path !in partials)
    {
      ghost var p1, q1 := partials, quarantine;
      hide NothingLost, AllTaken;
      var fate := Quarantine(path, attempt);
      NothingLostTwice(partials0, quarantine0, p1, q1, partials, quarantine);
      stuck := fate.Stuck?;
    }
  }
}
