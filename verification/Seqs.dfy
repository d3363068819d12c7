/** Distinct sequences, and facts about sequences that the solver is better given than left to find. */
module Seqs {
  lemma Assoc<T>(x: seq<T>, y: seq<T>, z: seq<T>)
    ensures x + (y + z) == (x + y) + z
  {
  }

  lemma Uncons<T>(a: seq<T>, b: seq<T>)
    requires a != []
    ensures a == [a[0]] + a[1..] && a + b == [a[0]] + (a[1..] + b)
  {
  }

  lemma NoneLeft<T>(a: seq<T>)
    ensures [] + a == a && a + [] == a
  {
  }

  ghost predicate Distinct<T(!new)>(s: seq<T>) {
    forall i, j :: 0 <= i < j < |s| ==> s[i] != s[j]
  }

  lemma DistinctConcat<T(!new)>(s: seq<T>, t: seq<T>)
    requires Distinct(s) && Distinct(t)
    requires forall i, j :: 0 <= i < |s| && 0 <= j < |t| ==> s[i] != t[j]
    ensures Distinct(s + t)
  {
  }

  /** `a` is `b` with some items left out. */
  ghost predicate Thinned<T>(a: seq<T>, b: seq<T>) {
    a == [] || (b != [] && (Thinned(a, b[1..]) || (a[0] == b[0] && Thinned(a[1..], b[1..]))))
  }

  lemma {:induction false} ThinnedHas<T>(a: seq<T>, b: seq<T>, i: nat) returns (k: nat)
    requires Thinned(a, b) && i < |a|
    ensures k < |b| && b[k] == a[i]
  {
    if Thinned(a, b[1..]) {
      k := ThinnedHas(a, b[1..], i);
      k := k + 1;
    } else if i == 0 {
      k := 0;
    } else {
      k := ThinnedHas(a[1..], b[1..], i - 1);
      k := k + 1;
    }
  }

  lemma {:induction false} ThinnedInOrder<T>(a: seq<T>, b: seq<T>, i: nat, j: nat) returns (k: nat, l: nat)
    requires Thinned(a, b) && i < j < |a|
    ensures k < l < |b| && b[k] == a[i] && b[l] == a[j]
  {
    if Thinned(a, b[1..]) {
      k, l := ThinnedInOrder(a, b[1..], i, j);
      k, l := k + 1, l + 1;
    } else if i == 0 {
      l := ThinnedHas(a[1..], b[1..], j - 1);
      k, l := 0, l + 1;
    } else {
      k, l := ThinnedInOrder(a[1..], b[1..], i - 1, j - 1);
      k, l := k + 1, l + 1;
    }
  }
}
