/** The stable sort behind a list's sort with a key. */
module StableSort {
  /** Puts an element behind those it does not come before. */
  function Insert<T>(before: (T, T) -> bool, x: T, s: seq<T>): seq<T> {
    if s == [] || before(x, s[0]) then [x] + s else [s[0]] + Insert(before, x, s[1..])
  }

  function Sort<T>(before: (T, T) -> bool, s: seq<T>): seq<T> {
    if s == [] then [] else Insert(before, s[|s| - 1], Sort(before, s[..|s| - 1]))
  }

  /** A strict order in which being neither before nor behind is transitive. */
  ghost predicate IsWeakOrder<T(!new)>(before: (T, T) -> bool) {
    && (forall a, b :: before(a, b) ==> !before(b, a))
    && (forall a, b, c :: before(a, c) ==> before(a, b) || before(b, c))
  }

  ghost predicate InOrder<T(!new)>(before: (T, T) -> bool, s: seq<T>) {
    forall i, j :: 0 <= i < j < |s| ==> !before(s[j], s[i])
  }

  lemma Behind<T(!new)>(before: (T, T) -> bool, x: T, a: T, b: T)
    requires IsWeakOrder(before) && before(x, a) && !before(b, a)
    ensures before(x, b) && !before(b, x)
  {
  }

  lemma {:induction false} InsertMembers<T>(before: (T, T) -> bool, x: T, s: seq<T>)
    ensures multiset(Insert(before, x, s)) == multiset(s) + multiset{x}
    ensures forall y :: y in Insert(before, x, s) <==> y == x || y in s
  {
    if s != [] {
      InsertMembers(before, x, s[1..]);
      assert s == [s[0]] + s[1..];
    }
    assert forall y :: y in Insert(before, x, s) <==> y in multiset(Insert(before, x, s));
  }

  lemma {:induction false} InsertKeepsOrder<T(!new)>(before: (T, T) -> bool, x: T, s: seq<T>)
    requires IsWeakOrder(before) && InOrder(before, s)
    ensures InOrder(before, Insert(before, x, s))
  {
    if s != [] && !before(x, s[0]) {
      var rest := Insert(before, x, s[1..]);
      InsertKeepsOrder(before, x, s[1..]);
      InsertMembers(before, x, s[1..]);
      forall j | 0 <= j < |rest| ensures !before(rest[j], s[0]) {
        assert rest[j] in rest;
      }
    } else if s != [] {
      forall j | 0 <= j < |s| ensures !before(s[j], x) {
        Behind(before, x, s[0], s[j]);
      }
    }
  }

  lemma {:induction false} SortOrders<T(!new)>(before: (T, T) -> bool, s: seq<T>)
    requires IsWeakOrder(before)
    ensures InOrder(before, Sort(before, s))
  {
    if s != [] {
      var n := |s| - 1;
      SortOrders(before, s[..n]);
      InsertKeepsOrder(before, s[n], Sort(before, s[..n]));
    }
  }

  /** Taking the last element out of two lists with the same elements. */
  lemma TakeLast<T>(a: seq<T>, b: seq<T>) returns (k: nat)
    requires a != [] && multiset(a) == multiset(b)
    ensures k < |b| && b[k] == a[|a| - 1]
    ensures multiset(a[..|a| - 1]) == multiset(b[..k] + b[k + 1..])
  {
    var n := |a| - 1;
    assert a == a[..n] + [a[n]];
    assert a[n] in multiset(b);
    k :| 0 <= k < |b| && b[k] == a[n];
    WithoutOne(b, k);
    Cancel(multiset(a[..n]), multiset(b[..k] + b[k + 1..]), a[n]);
  }

  lemma WithoutOne<T>(s: seq<T>, k: nat)
    requires k < |s|
    ensures multiset(s) == multiset(s[..k] + s[k + 1..]) + multiset{s[k]}
  {
    assert s == s[..k] + ([s[k]] + s[k + 1..]);
  }

  lemma Cancel<T>(p: multiset<T>, q: multiset<T>, x: T)
    requires p + multiset{x} == q + multiset{x}
    ensures p == q
  {
    assert p == (p + multiset{x}) - multiset{x};
    assert q == (q + multiset{x}) - multiset{x};
  }

  lemma SortKeepsLength<T>(before: (T, T) -> bool, s: seq<T>)
    ensures |Sort(before, s)| == |s|
  {
    SortPermutes(before, s);
    assert |Sort(before, s)| == |multiset(Sort(before, s))|;
  }

  lemma {:induction false} SortPermutes<T>(before: (T, T) -> bool, s: seq<T>)
    ensures multiset(Sort(before, s)) == multiset(s)
  {
    if s != [] {
      var n := |s| - 1;
      SortPermutes(before, s[..n]);
      InsertMembers(before, s[n], Sort(before, s[..n]));
      assert s == s[..n] + [s[n]];
    }
  }
}
