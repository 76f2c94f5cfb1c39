/** Counting by index, the reference against which everything that is counted is stated. */
module D1Tally {
  /** How many numbers below `n` have a property. */
  ghost function Tally(n: nat, p: nat -> bool): nat {
    if n == 0 then 0 else Tally(n - 1, p) + if p(n - 1) then 1 else 0
  }

  lemma {:induction false} TallySame(n: nat, p: nat -> bool, q: nat -> bool)
    requires forall i: nat :: i < n ==> p(i) == q(i)
    ensures Tally(n, p) == Tally(n, q)
  {
    if n > 0 { TallySame(n - 1, p, q); }
  }

  lemma {:induction false} TallyFront(n: nat, p: nat -> bool, q: nat -> bool)
    requires forall i: nat :: i < n ==> p(i + 1) == q(i)
    ensures Tally(n + 1, p) == Tally(n, q) + if p(0) then 1 else 0
  {
    if n > 0 { TallyFront(n - 1, p, q); }
  }

  lemma {:induction false} TallyNone(n: nat, p: nat -> bool)
    ensures Tally(n, p) == 0 <==> forall i: nat :: i < n ==> !p(i)
    ensures Tally(n, p) <= n
  {
    if n > 0 { TallyNone(n - 1, p); }
  }

  lemma {:induction false} TallyCut(n: nat, cut: nat, p: nat -> bool)
    requires cut <= n && forall i: nat :: i < n ==> (p(i) <==> i < cut)
    ensures Tally(n, p) == cut
  {
    if n > 0 {
      if cut == n { TallyAll(n, p); } else { TallyCut(n - 1, cut, p); }
    }
  }

  lemma {:induction false} TallyAll(n: nat, p: nat -> bool)
    requires forall i: nat :: i < n ==> p(i)
    ensures Tally(n, p) == n
  {
    if n > 0 { TallyAll(n - 1, p); }
  }
}
