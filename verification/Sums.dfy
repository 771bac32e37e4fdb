/** Sums over sequences of counters, and the order in which such sequences grow. */
module Sums {

  function Min(a: nat, b: nat): nat {
    if a < b then a else b
  }

  /** How far `b` is above `a`. */
  function Gap(a: nat, b: nat): nat {
    if a <= b then b - a else 0
  }

  /** The sum of the first `k` entries of `s`; positions past the end count as zero. */
  function SumTo(s: seq<nat>, k: nat): nat {
    if k == 0 then 0 else SumTo(s, k - 1) + (if k - 1 < |s| then s[k - 1] else 0)
  }

  function Sum(s: seq<nat>): nat {
    SumTo(s, |s|)
  }

  /** `b` is `a` after some counters went up and some counters were appended. */
  predicate Grows(a: seq<nat>, b: seq<nat>) {
    |a| <= |b| && forall i :: 0 <= i < |a| ==> a[i] <= b[i]
  }

  lemma {:induction false} SumToGrows(a: seq<nat>, b: seq<nat>, k: nat)
    requires Grows(a, b)
    ensures SumTo(a, k) <= SumTo(b, k)
  {
    if k > 0 {
      SumToGrows(a, b, k - 1);
    }
  }

  lemma {:induction false} SumToMonotone(s: seq<nat>, j: nat, k: nat)
    requires j <= k
    ensures SumTo(s, j) <= SumTo(s, k)
  {
    if j < k {
      SumToMonotone(s, j, k - 1);
    }
  }

  lemma {:induction false} SumToPastEnd(s: seq<nat>, k: nat)
    requires |s| <= k
    ensures SumTo(s, k) == Sum(s)
  {
    if |s| < k {
      SumToPastEnd(s, k - 1);
    }
  }

  lemma SumGrows(a: seq<nat>, b: seq<nat>)
    requires Grows(a, b)
    ensures Sum(a) <= Sum(b)
  {
    SumToGrows(a, b, |a|);
    SumToMonotone(b, |a|, |b|);
  }

  /** Two sequences that agree on the first `k` positions have the same sum there. */
  lemma {:induction false} SumToSame(a: seq<nat>, b: seq<nat>, k: nat)
    requires k <= |a| && k <= |b| && a[..k] == b[..k]
    ensures SumTo(a, k) == SumTo(b, k)
  {
    if k > 0 {
      assert a[k - 1] == a[..k][k - 1] == b[..k][k - 1] == b[k - 1];
      assert a[..k - 1] == a[..k][..k - 1] == b[..k][..k - 1] == b[..k - 1];
      SumToSame(a, b, k - 1);
    }
  }

  lemma SumAppend(s: seq<nat>, v: nat)
    ensures Sum(s + [v]) == Sum(s) + v
  {
    SumToSame(s, s + [v], |s|);
  }

  lemma {:induction false} SumToUpdate(s: seq<nat>, i: nat, v: nat, k: nat)
    requires i < |s|
    ensures SumTo(s[i := v], k) == SumTo(s, k) + (if i < k then v - s[i] else 0)
  {
    if k > 0 {
      SumToUpdate(s, i, v, k - 1);
    }
  }

  lemma SumUpdate(s: seq<nat>, i: nat, v: nat)
    requires i < |s|
    ensures Sum(s[i := v]) == Sum(s) - s[i] + v
  {
    SumToUpdate(s, i, v, |s|);
  }

  lemma {:induction false} SumRemove(s: seq<nat>, i: nat)
    requires i < |s|
    ensures Sum(s[..i] + s[i + 1..]) == Sum(s) - s[i]
  {
    var last := |s| - 1;
    var t := s[..last];
    assert s == t + [s[last]];
    SumAppend(t, s[last]);
    if i == last {
      assert s[..i] + s[i + 1..] == t;
    } else {
      assert s[..i] + s[i + 1..] == (t[..i] + t[i + 1..]) + [s[last]];
      SumRemove(t, i);
      SumAppend(t[..i] + t[i + 1..], s[last]);
    }
  }

  lemma {:induction false} SumToAtLeast(s: seq<nat>, i: nat, k: nat)
    requires i < k <= |s|
    ensures s[i] <= SumTo(s, k)
  {
    if i < k - 1 {
      SumToAtLeast(s, i, k - 1);
    }
  }

  lemma SumAtLeast(s: seq<nat>, i: nat)
    requires i < |s|
    ensures s[i] <= Sum(s)
  {
    SumToAtLeast(s, i, |s|);
  }

  /** A sum of entries bounded by `cap` reaches `cap` per entry exactly when every entry does. */
  lemma {:induction false} SumToCapped(s: seq<nat>, cap: nat, k: nat)
    requires k <= |s|
    requires forall i :: 0 <= i < k ==> s[i] <= cap
    ensures SumTo(s, k) <= cap * k
    ensures SumTo(s, k) == cap * k <==> forall i :: 0 <= i < k ==> s[i] == cap
  {
    if k > 0 {
      SumToCapped(s, cap, k - 1);
      assert cap * k == cap * (k - 1) + cap;
      if SumTo(s, k) == cap * k {
        assert s[k - 1] == cap;
      }
    }
  }

  lemma SumCapped(s: seq<nat>, cap: nat)
    requires forall i :: 0 <= i < |s| ==> s[i] <= cap
    ensures Sum(s) <= cap * |s|
    ensures Sum(s) == cap * |s| <==> forall i :: 0 <= i < |s| ==> s[i] == cap
  {
    SumToCapped(s, cap, |s|);
  }
}
