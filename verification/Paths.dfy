/** Where a transition relation leads in finitely many steps. */
module Paths {

  lemma PrefixAppend<T>(a: seq<T>, b: seq<T>, x: T)
    requires a <= b
    ensures a <= b + [x]
  {
  }

  ghost predicate LeadsIn<S(!new)>(next: (S, S) -> bool, s: S, t: S, n: nat) {
    if n == 0 then s == t else exists u :: next(s, u) && LeadsIn(next, u, t, n - 1)
  }

  ghost predicate Leads<S(!new)>(next: (S, S) -> bool, s: S, t: S) {
    exists n: nat :: LeadsIn(next, s, t, n)
  }

  lemma Stay<S(!new)>(next: (S, S) -> bool, s: S)
    ensures Leads(next, s, s)
  {
    assert LeadsIn(next, s, s, 0);
  }

  lemma StepThen<S(!new)>(next: (S, S) -> bool, s: S, u: S, t: S)
    requires next(s, u) && Leads(next, u, t)
    ensures Leads(next, s, t)
  {
    var n: nat :| LeadsIn(next, u, t, n);
    assert LeadsIn(next, s, t, n + 1);
  }

  lemma OneStep<S(!new)>(next: (S, S) -> bool, s: S, t: S)
    requires next(s, t)
    ensures Leads(next, s, t)
  {
    Stay(next, t);
    StepThen(next, s, t, t);
  }

  lemma {:induction false} JoinIn<S(!new)>(next: (S, S) -> bool, s: S, u: S, t: S, n: nat)
    requires LeadsIn(next, s, u, n) && Leads(next, u, t)
    ensures Leads(next, s, t)
  {
    if n > 0 {
      var v :| next(s, v) && LeadsIn(next, v, u, n - 1);
      JoinIn(next, v, u, t, n - 1);
      StepThen(next, s, v, t);
    }
  }

  lemma Join<S(!new)>(next: (S, S) -> bool, s: S, u: S, t: S)
    requires Leads(next, s, u) && Leads(next, u, t)
    ensures Leads(next, s, t)
  {
    var n: nat :| LeadsIn(next, s, u, n);
    JoinIn(next, s, u, t, n);
  }

  lemma {:induction false} StaysInsideIn<S(!new)>(next: (S, S) -> bool, inside: S -> bool, s: S, t: S, n: nat)
    requires forall u, v :: inside(u) && next(u, v) ==> inside(v)
    requires inside(s) && LeadsIn(next, s, t, n)
    ensures inside(t)
  {
    if n > 0 {
      var u :| next(s, u) && LeadsIn(next, u, t, n - 1);
      StaysInsideIn(next, inside, u, t, n - 1);
    }
  }

  /** What every step keeps, every path keeps. */
  lemma StaysInside<S(!new)>(next: (S, S) -> bool, inside: S -> bool, s: S, t: S)
    requires forall u, v :: inside(u) && next(u, v) ==> inside(v)
    requires inside(s) && Leads(next, s, t)
    ensures inside(t)
  {
    var n: nat :| LeadsIn(next, s, t, n);
    StaysInsideIn(next, inside, s, t, n);
  }
}
