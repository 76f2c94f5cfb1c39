/** The artifact lineage: everything reachable from a set of root artifacts over the
    dependency edges, which may form cycles. The recursive query of `withdraw` is the
    worklist method `LineageQuery`; `Closure` says what it must compute. */
module Lineage {

  type Id = string
  type Edges = set<(Id, Id)>

  ghost predicate IsPath(edges: Edges, path: seq<Id>) {
    && |path| > 0
    && forall i :: 0 <= i < |path| - 1 ==> (path[i], path[i + 1]) in edges
  }

  /** A path of dependency edges leads from some root to `a`. */
  ghost predicate Reaches(edges: Edges, roots: set<Id>, a: Id) {
    exists path: seq<Id> :: IsPath(edges, path) && path[0] in roots && path[|path| - 1] == a
  }

  ghost predicate ClosedUnder(edges: Edges, s: set<Id>) {
    forall e :: e in edges && e.0 in s ==> e.1 in s
  }

  function Children(edges: Edges): set<Id> {
    set e | e in edges :: e.1
  }

  /** All artifacts reachable from `roots`, the roots included. */
  ghost function Closure(edges: Edges, roots: set<Id>): set<Id> {
    set a | a in roots + Children(edges) && Reaches(edges, roots, a)
  }

  lemma ReachableIsInClosure(edges: Edges, roots: set<Id>, path: seq<Id>)
    requires IsPath(edges, path) && path[0] in roots
    ensures path[|path| - 1] in Closure(edges, roots)
  {
    var a := path[|path| - 1];
    assert Reaches(edges, roots, a);
    if |path| > 1 {
      var e := (path[|path| - 2], path[|path| - 2 + 1]);
      assert e in edges;
      assert a in Children(edges);
    }
  }

  lemma ClosureIsClosed(edges: Edges, roots: set<Id>)
    ensures roots <= Closure(edges, roots)
    ensures ClosedUnder(edges, Closure(edges, roots))
  {
    forall a | a in roots ensures a in Closure(edges, roots) {
      ReachableIsInClosure(edges, roots, [a]);
    }
    forall e | e in edges && e.0 in Closure(edges, roots)
      ensures e.1 in Closure(edges, roots)
    {
      var path: seq<Id> :| IsPath(edges, path) && path[0] in roots && path[|path| - 1] == e.0;
      var longer := path + [e.1];
      assert IsPath(edges, longer);
      ReachableIsInClosure(edges, roots, longer);
    }
  }

  lemma PathStaysInside(edges: Edges, s: set<Id>, path: seq<Id>, i: nat)
    requires IsPath(edges, path) && path[0] in s && ClosedUnder(edges, s)
    requires i < |path|
    ensures path[i] in s
  {
    if i > 0 {
      PathStaysInside(edges, s, path, i - 1);
      assert (path[i - 1], path[i - 1 + 1]) in edges;
    }
  }

  /** The closure is the least set that contains the roots and is closed under the edges. */
  lemma ClosureIsLeast(edges: Edges, roots: set<Id>, s: set<Id>)
    requires roots <= s && ClosedUnder(edges, s)
    ensures Closure(edges, roots) <= s
  {
    forall a | a in Closure(edges, roots) ensures a in s {
      var path: seq<Id> :| IsPath(edges, path) && path[0] in roots && path[|path| - 1] == a;
      PathStaysInside(edges, s, path, |path| - 1);
    }
  }

  /** New edges that start outside the closure do not change it, even if they close a cycle. */
  lemma EdgesFromOutside(edges: Edges, more: Edges, roots: set<Id>)
    requires forall e :: e in more ==> e.0 !in Closure(edges, roots)
    ensures Closure(edges + more, roots) == Closure(edges, roots)
  {
    var inner, outer := Closure(edges, roots), Closure(edges + more, roots);
    assert outer <= inner by {
      ClosureIsClosed(edges, roots);
      ClosureIsLeast(edges + more, roots, inner);
    }
    assert inner <= outer by {
      ClosureIsClosed(edges + more, roots);
      ClosureIsLeast(edges, roots, outer);
    }
  }

  /** The edges from each of `parents` to `child`. */
  function EdgesTo(parents: set<Id>, child: Id): Edges {
    set p | p in parents :: (p, child)
  }

  /** A new artifact without children joins exactly the lineages that hold one of its parents. */
  lemma NewSink(edges: Edges, parents: set<Id>, child: Id, roots: set<Id>)
    requires child !in roots && child !in parents && forall e :: e in edges ==> e.0 != child && e.1 != child
    ensures Closure(edges + EdgesTo(parents, child), roots)
         == Closure(edges, roots) + if parents * Closure(edges, roots) != {} then {child} else {}
  {
    hide Closure;
    var all := edges + EdgesTo(parents, child);
    var before, after := Closure(edges, roots), Closure(all, roots);
    var grown := before + if parents * before != {} then {child} else {};
    ClosureIsClosed(edges, roots);
    ClosureIsClosed(all, roots);
    ClosureIsLeast(edges, roots, after);
    forall e | e in all && e.0 in grown ensures e.1 in grown {
      if e !in edges { assert e.0 in parents && e.1 == child && e.0 in parents * before; }
    }
    ClosureIsLeast(all, roots, grown);
    if p :| p in parents * before {
      assert (p, child) in all;
    }
  }

  /** A child without children of its own is all its lineage. */
  lemma SinkAlone(edges: Edges, child: Id)
    requires forall e :: e in edges ==> e.0 != child
    ensures Closure(edges, {child}) == {child}
  {
    ClosureIsClosed(edges, {child});
    ClosureIsLeast(edges, {child}, {child});
  }

  /** A new edge adds the child's whole lineage to exactly the lineages that hold the parent. */
  lemma NewEdge(edges: Edges, parent: Id, child: Id, roots: set<Id>)
    ensures Closure(edges + {(parent, child)}, roots)
         == Closure(edges, roots) + if parent in Closure(edges, roots) then Closure(edges, {child}) else {}
  {
    hide Closure;
    var all := edges + {(parent, child)};
    var before, after := Closure(edges, roots), Closure(all, roots);
    var grown := before + if parent in before then Closure(edges, {child}) else {};
    ClosureIsClosed(edges, roots);
    ClosureIsClosed(edges, {child});
    ClosureIsClosed(all, roots);
    ClosureIsLeast(edges, roots, after);
    ClosureIsLeast(all, roots, grown);
    if parent in before {
      assert (parent, child) in all && child in after;
      ClosureIsLeast(edges, {child}, after);
    }
  }

  lemma ClosureOfUnion(edges: Edges, left: set<Id>, right: set<Id>)
    ensures Closure(edges, left + right) == Closure(edges, left) + Closure(edges, right)
  {
    hide Closure;
    ClosureIsClosed(edges, left);
    ClosureIsClosed(edges, right);
    ClosureIsClosed(edges, left + right);
    ClosureIsLeast(edges, left + right, Closure(edges, left) + Closure(edges, right));
    ClosureIsLeast(edges, left, Closure(edges, left + right));
    ClosureIsLeast(edges, right, Closure(edges, left + right));
  }

  lemma ClosureWithinNodes(edges: Edges, roots: set<Id>, nodes: set<Id>)
    requires roots <= nodes
    requires forall e :: e in edges ==> e.1 in nodes
    ensures Closure(edges, roots) <= nodes
  {
    ClosureIsLeast(edges, roots, nodes);
  }

  /** The recursive query: rows leave the queue one at a time, each contributes its children,
      and UNION drops the rows already selected. It stops on cyclic graphs too. */
  method LineageQuery(edges: Edges, roots: set<Id>) returns (lineage: set<Id>)
    ensures lineage == Closure(edges, roots)
  {
    lineage := roots;
    var queue := roots;
    ClosureIsClosed(edges, roots);
    while queue != {}
      invariant queue <= lineage <= Closure(edges, roots)
      invariant roots <= lineage
      invariant forall e :: e in edges && e.0 in lineage - queue ==> e.1 in lineage
      decreases Closure(edges, roots) - lineage, queue
    {
      var row :| row in queue;
      var children := set e | e in edges && e.0 == row :: e.1;
      var added := children - lineage;
      assert forall e :: e in edges && e.0 == row ==> e.1 in children;
      ghost var before := lineage;
      lineage := lineage + added;
      queue := queue - {row} + added;
      assert added != {} ==> Closure(edges, roots) - lineage < Closure(edges, roots) - before by {
        if x :| x in added {
          assert x in Closure(edges, roots) - before && x !in Closure(edges, roots) - lineage;
        }
      }
    }
    ClosureIsLeast(edges, roots, lineage);
  }
}
