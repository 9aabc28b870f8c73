/** Lists that are made by keeping some elements of another one, in their order. */
module Selection {
  /** at holds the places of the elements that are kept, in order, and r what is made of them. */
  ghost predicate PicksAt<S, T>(s: seq<S>, keep: S -> bool, image: S -> T, r: seq<T>, at: seq<nat>) {
    && (forall i, j :: 0 <= i < j < |at| ==> at[i] < at[j])
    && (forall k: nat :: k in at <==> k < |s| && keep(s[k]))
    && |r| == |at|
    && forall i :: 0 <= i < |r| ==> at[i] < |s| && r[i] == image(s[at[i]])
  }

  /** r holds what is made of the kept elements of s, one by one and in order. */
  ghost predicate Picks<S, T>(s: seq<S>, keep: S -> bool, image: S -> T, r: seq<T>) {
    exists at: seq<nat> :: PicksAt(s, keep, image, r, at)
  }

  lemma PicksNone<S, T>(keep: S -> bool, image: S -> T)
    ensures Picks([], keep, image, [])
  {
    var at: seq<nat> := [];
    assert PicksAt([], keep, image, [], at);
  }

  lemma PicksOneMore<S, T>(s: seq<S>, x: S, keep: S -> bool, image: S -> T, r: seq<T>)
    requires Picks(s, keep, image, r)
    ensures Picks(s + [x], keep, image, r + if keep(x) then [image(x)] else [])
  {
    var at: seq<nat> :| PicksAt(s, keep, image, r, at);
    if keep(x) {
      PicksAtKept(s, x, keep, image, r, at);
    } else {
      PicksAtDropped(s, x, keep, image, r, at);
      assert r + [] == r;
    }
  }

  lemma PicksAtKept<S, T>(s: seq<S>, x: S, keep: S -> bool, image: S -> T, r: seq<T>, at: seq<nat>)
    requires PicksAt(s, keep, image, r, at) && keep(x)
    ensures PicksAt(s + [x], keep, image, r + [image(x)], at + [|s|])
  {
    var t := s + [x];
    assert forall k: nat :: k < |s| ==> t[k] == s[k];
    assert t[|s|] == x;
    forall k: nat ensures k in at + [|s|] <==> k < |t| && keep(t[k]) {
      assert k in at + [|s|] <==> k in at || k == |s|;
    }
  }

  lemma PicksAtDropped<S, T>(s: seq<S>, x: S, keep: S -> bool, image: S -> T, r: seq<T>, at: seq<nat>)
    requires PicksAt(s, keep, image, r, at) && !keep(x)
    ensures PicksAt(s + [x], keep, image, r, at)
  {
    var t := s + [x];
    assert forall k: nat :: k < |s| ==> t[k] == s[k];
    assert t[|s|] == x;
    forall k: nat ensures k in at <==> k < |t| && keep(t[k]) {
    }
  }

  /** For lists that are built from the end. */
  lemma PicksLast<S, T>(s: seq<S>, keep: S -> bool, image: S -> T, r: seq<T>)
    requires s != [] && Picks(s[..|s| - 1], keep, image, r)
    ensures Picks(s, keep, image, r + if keep(s[|s| - 1]) then [image(s[|s| - 1])] else [])
  {
    assert s == s[..|s| - 1] + [s[|s| - 1]];
    PicksOneMore(s[..|s| - 1], s[|s| - 1], keep, image, r);
  }

  function Same<T>(x: T): T {
    x
  }
}
