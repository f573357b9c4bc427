/** Subsequences, and the bookkeeping of a queue that only ever loses elements: what was submitted is
    pending, being worked on, or gone, each once, and what was activated stands in the order of
    submission. The lemmas say how these books change with a submission, a loss, an activation and
    a completion, for sequences of ids in general. */
module Subsequences {
  import opened Seqs

  ghost predicate Picks<T>(a: seq<T>, b: seq<T>, at: seq<nat>) {
    && |at| == |a|
    && (forall i, j :: 0 <= i < j < |at| ==> at[i] < at[j])
    && (forall i :: 0 <= i < |at| ==> at[i] < |b| && b[at[i]] == a[i])
  }

  ghost predicate Subsequence<T>(a: seq<T>, b: seq<T>) {
    exists at: seq<nat> :: Picks(a, b, at)
  }

  lemma SubsequenceRefl<T>(a: seq<T>)
    ensures Subsequence(a, a)
  {
    assert Picks(a, a, seq(|a|, i => i));
  }

  lemma SubsequenceTrans<T>(a: seq<T>, b: seq<T>, c: seq<T>)
    requires Subsequence(a, b) && Subsequence(b, c)
    ensures Subsequence(a, c)
  {
    var p: seq<nat> :| Picks(a, b, p);
    var q: seq<nat> :| Picks(b, c, q);
    assert Picks(a, c, seq(|a|, i requires 0 <= i < |a| => q[p[i]]));
  }

  lemma SubsequenceSnoc<T>(a: seq<T>, b: seq<T>, x: T)
    requires Subsequence(a, b)
    ensures Subsequence(a + [x], b + [x])
  {
    var p: seq<nat> :| Picks(a, b, p);
    assert Picks(a + [x], b + [x], p + [|b|]);
  }

  lemma SubsequenceAfter<T>(front: seq<T>, a: seq<T>, b: seq<T>)
    requires Subsequence(a, b)
    ensures Subsequence(front + a, front + b)
  {
    var p: seq<nat> :| Picks(a, b, p);
    var n := |front|;
    assert Picks(front + a, front + b,
                 seq(n + |a|, i requires 0 <= i < n + |a| => if i < n then i else n + p[i - n]));
  }

  lemma CutIsSubsequence<T>(a: seq<T>, i: nat, j: nat)
    requires i <= j <= |a|
    ensures Subsequence(a[..i] + a[j..], a)
  {
    var n := i + (|a| - j);
    assert Picks(a[..i] + a[j..], a, seq(n, k requires 0 <= k < n => if k < i then k else k + (j - i)));
  }

  lemma SubsequenceDistinct<T>(a: seq<T>, b: seq<T>)
    requires Subsequence(a, b) && Distinct(b)
    ensures Distinct(a)
  {
    var p: seq<nat> :| Picks(a, b, p);
    forall i, j | 0 <= i < j < |a| ensures a[i] != a[j] {
      assert b[p[i]] != b[p[j]];
    }
  }

  lemma SubsequenceMember<T>(a: seq<T>, b: seq<T>, x: T)
    requires Subsequence(a, b) && x in a
    ensures x in b
  {
    var p: seq<nat> :| Picks(a, b, p);
    var i :| 0 <= i < |a| && a[i] == x;
    assert b[p[i]] == x;
  }

  // ---------------------------------------------------------------------
  // Losing elements
  // ---------------------------------------------------------------------

  /** `after` is `before` without the elements of `removed`, the order kept. */
  ghost predicate Loses<T>(before: seq<T>, after: seq<T>, removed: multiset<T>) {
    Subsequence(after, before) && multiset(before) == multiset(after) + removed
  }

  lemma LosesNothing<T>(a: seq<T>)
    ensures Loses(a, a, multiset{})
  {
    SubsequenceRefl(a);
  }

  lemma LosesCut<T>(a: seq<T>, i: nat, j: nat)
    requires i <= j <= |a|
    ensures Loses(a, a[..i] + a[j..], multiset(a[i..j]))
  {
    CutIsSubsequence(a, i, j);
    assert a == a[..i] + a[i..j] + a[j..];
  }

  lemma LosesTrans<T>(a: seq<T>, b: seq<T>, c: seq<T>, first: multiset<T>, second: multiset<T>)
    requires Loses(a, b, first) && Loses(b, c, second)
    ensures Loses(a, c, first + second)
  {
    SubsequenceTrans(c, b, a);
  }

  // ---------------------------------------------------------------------
  // The books of one session
  // ---------------------------------------------------------------------

  /** Everything submitted is pending, being worked on, or gone, each once; what was activated and
      what is pending, in this order, follow the order of submission. */
  ghost predicate Books(submitted: seq<string>, activated: seq<string>, pending: seq<string>,
                        flying: multiset<string>, gone: multiset<string>) {
    && multiset(submitted) == multiset(pending) + flying + gone
    && Subsequence(activated + pending, submitted)
    && Distinct(submitted)
  }

  lemma BooksSubmit(submitted: seq<string>, activated: seq<string>, pending: seq<string>,
                    flying: multiset<string>, gone: multiset<string>, id: string)
    requires Books(submitted, activated, pending, flying, gone) && id !in submitted
    ensures Books(submitted + [id], activated, pending + [id], flying, gone)
  {
    SubsequenceSnoc(activated + pending, submitted, id);
    Assoc(activated, pending, [id]);
  }

  lemma BooksLose(submitted: seq<string>, activated: seq<string>, pending: seq<string>,
                  flying: multiset<string>, gone: multiset<string>, after: seq<string>, removed: multiset<string>)
    requires Books(submitted, activated, pending, flying, gone) && Loses(pending, after, removed)
    ensures Books(submitted, activated, after, flying, gone + removed)
    ensures forall id :: id in removed ==> id !in after
  {
    SubsequenceAfter(activated, after, pending);
    SubsequenceTrans(activated + after, activated + pending, submitted);
    forall id | id in removed ensures id !in after {
      DistinctCount(submitted, id);
      assert multiset(submitted)[id] >= multiset(after)[id] + removed[id];
    }
  }

  lemma BooksActivate(submitted: seq<string>, activated: seq<string>, pending: seq<string>,
                      flying: multiset<string>, gone: multiset<string>)
    requires Books(submitted, activated, pending, flying, gone) && pending != []
    ensures Books(submitted, activated + [pending[0]], pending[1..], flying + multiset{pending[0]}, gone)
    ensures pending[0] !in pending[1..]
  {
    assert pending == [pending[0]] + pending[1..];
    Assoc(activated, [pending[0]], pending[1..]);
    DistinctCount(submitted, pending[0]);
  }

  lemma BooksFinish(submitted: seq<string>, activated: seq<string>, pending: seq<string>,
                    flying: multiset<string>, gone: multiset<string>, id: string)
    requires Books(submitted, activated, pending, flying, gone) && id in flying
    ensures Books(submitted, activated, pending, flying - multiset{id}, gone + multiset{id})
  {
  }

  lemma BooksActivatedNotPending(submitted: seq<string>, activated: seq<string>, pending: seq<string>,
                                 flying: multiset<string>, gone: multiset<string>, id: string)
    requires Books(submitted, activated, pending, flying, gone) && id in activated
    ensures id in submitted && id !in pending
  {
    SubsequenceMember(activated + pending, submitted, id);
    SubsequenceDistinct(activated + pending, submitted);
    var i :| 0 <= i < |activated| && activated[i] == id;
    var all := activated + pending;
    forall j | 0 <= j < |pending| ensures pending[j] != id {
      assert all[i] != all[|activated| + j];
    }
  }

  lemma BooksPendingDistinct(submitted: seq<string>, activated: seq<string>, pending: seq<string>,
                             flying: multiset<string>, gone: multiset<string>)
    requires Books(submitted, activated, pending, flying, gone)
    ensures Distinct(pending)
  {
    SubsequenceDistinct(activated + pending, submitted);
    var all, n := activated + pending, |activated|;
    forall i, j | 0 <= i < j < |pending| ensures pending[i] != pending[j] {
      assert all[n + i] != all[n + j];
    }
  }
}
