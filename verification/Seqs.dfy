/** Small facts about sequences, sets and maps, stated once so that the larger proofs need not
    rediscover them: concatenation and slices, the first occurrence of an element, elements that
    occur once, sets without members, and maps that agree everywhere. They say nothing about the
    program; the other modules use them by name. */
module Seqs {

  lemma Assoc<T>(a: seq<T>, b: seq<T>, c: seq<T>)
    ensures a + (b + c) == (a + b) + c
  {
  }

  /** Taking the head off a concatenation takes it off the left part. */
  lemma Uncons<T>(a: seq<T>, b: seq<T>)
    requires a != []
    ensures a + b != [] && (a + b)[0] == a[0] && (a + b)[1..] == a[1..] + b
  {
  }

  lemma Cons<T>(x: T, s: seq<T>)
    ensures [x] + s != [] && ([x] + s)[0] == x && ([x] + s)[1..] == s
  {
  }

  /** s split at i is s[..i], s[i] and s[i + 1..]. */
  lemma SplitAt<T>(s: seq<T>, i: nat)
    requires i < |s|
    ensures s[..i] + [s[i]] == s[..i + 1]
    ensures s[i..] == [s[i]] + s[i + 1..]
    ensures s[i..] != [] && s[i..][0] == s[i] && s[i..][1..] == s[i + 1..]
  {
  }

  lemma SliceSnoc<T>(s: seq<T>, from: nat, i: nat)
    requires from <= i < |s|
    ensures s[from..i] + [s[i]] == s[from..i + 1]
  {
  }

  lemma Whole<T>(s: seq<T>)
    ensures s[..|s|] == s && s[0..] == s && s[|s|..] == [] && s[..0] == []
  {
  }

  /** No element occurs twice. */
  ghost predicate Distinct<T>(s: seq<T>) {
    forall i, j :: 0 <= i < j < |s| ==> s[i] != s[j]
  }

  lemma NoMembers<T>(s: set<T>)
    requires forall x :: x !in s
    ensures s == {}
  {
  }

  lemma SameMap<K, V>(a: map<K, V>, b: map<K, V>)
    requires forall k :: k in a <==> k in b
    requires forall k :: k in b ==> a[k] == b[k]
    ensures a == b
  {
  }

  /** Where x first occurs in s. */
  function IndexOf<T(==)>(s: seq<T>, x: T): (i: nat)
    requires x in s
    ensures i < |s| && s[i] == x && forall k :: 0 <= k < i ==> s[k] != x
  {
    if s[0] == x then 0 else 1 + IndexOf(s[1..], x)
  }

  lemma IndexOfFirst<T>(a: seq<T>, x: T, b: seq<T>)
    requires x !in a
    ensures var s := a + ([x] + b);
            x in s && IndexOf(s, x) == |a| && s[..|a|] == a && s[|a| + 1..] == b
  {
    var s := a + ([x] + b);
    assert s[|a|] == x;
    assert forall k :: 0 <= k < |a| ==> s[k] == a[k];
  }

  lemma SplitAtFirst<T>(s: seq<T>, x: T) returns (a: seq<T>, b: seq<T>)
    requires x in s
    ensures a == s[..IndexOf(s, x)] && b == s[IndexOf(s, x) + 1..]
    ensures x !in a && s == a + ([x] + b) && |b| < |s|
  {
    a, b := s[..IndexOf(s, x)], s[IndexOf(s, x) + 1..];
  }

  lemma {:induction false} DistinctCount<T>(s: seq<T>, x: T)
    requires Distinct(s)
    ensures multiset(s)[x] == if x in s then 1 else 0
  {
    if s != [] {
      var n := |s| - 1;
      DistinctCount(s[..n], x);
      assert s == s[..n] + [s[n]];
    }
  }
}
