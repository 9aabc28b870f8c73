/** In which order transports become usable, and why a request fails (service_shim.cpp). */
module TransportOrder {
  import opened ServiceText
  import opened Transports

  /** The first position at which a list has the name, once it is cleaned. */
  function FirstAt(values: seq<string>, name: string): (i: nat)
    ensures i <= |values|
    ensures i < |values| ==> Clean(values[i]) == name
    ensures forall j :: 0 <= j < i ==> Clean(values[j]) != name
  {
    if values == [] then 0
    else
      var i := FirstAt(values[..|values| - 1], name);
      assert forall j :: 0 <= j < i ==> values[j] == values[..|values| - 1][j];
      if i < |values| - 1 || Clean(values[|values| - 1]) == name then i else |values|
  }

  /** The names come as the list does. */
  ghost predicate ComesAs(names: seq<string>, values: seq<string>) {
    forall i, j :: 0 <= i < j < |names| ==> FirstAt(values, names[i]) < FirstAt(values, names[j]) < |values|
  }

  lemma {:induction false} NormalizedComesAs(values: seq<string>)
    ensures ComesAs(Normalized(values), values)
    ensures forall i :: 0 <= i < |Normalized(values)| ==> FirstAt(values, Normalized(values)[i]) < |values|
  {
    if values != [] {
      var n := |values| - 1;
      var front, last := values[..n], Clean(values[n]);
      NormalizedComesAs(front);
      var before := Normalized(front);
      forall i | 0 <= i < |before| ensures FirstAt(values, before[i]) == FirstAt(front, before[i]) < n {
      }
      if last != "" && last !in before {
        NormalizedMembers(front);
        FirstIsLast(values);
      }
    }
  }

  lemma FoundIsListed(values: seq<string>, name: string)
    ensures FirstAt(values, name) < |values| ==> Lists(values, name)
  {
  }

  lemma FirstIsLast(values: seq<string>)
    requires values != [] && !Lists(values[..|values| - 1], Clean(values[|values| - 1]))
    ensures FirstAt(values, Clean(values[|values| - 1])) == |values| - 1
  {
    FoundIsListed(values[..|values| - 1], Clean(values[|values| - 1]));
  }

  lemma EarlierComesFirst(first: seq<string>, values: seq<string>, n: nat, x: string)
    requires ComesAs(first, values) && n < |first| && x in first[..n]
    ensures FirstAt(values, x) < FirstAt(values, first[n]) < |values|
  {
    var k :| 0 <= k < n && first[..n][k] == x;
    assert first[k] == x;
  }

  lemma {:induction false} CommonComesAs(first: seq<string>, second: seq<string>, values: seq<string>)
    requires ComesAs(first, values)
    ensures ComesAs(Common(first, second), values)
  {
    if first != [] {
      var n := |first| - 1;
      PrefixComesAs(first, values, n);
      CommonComesAs(first[..n], second, values);
      CommonMembers(first[..n], second);
      var kept := Common(first[..n], second);
      forall i | 0 <= i < |kept| ensures FirstAt(values, kept[i]) < FirstAt(values, first[n]) < |values| {
        assert kept[i] in kept;
        EarlierComesFirst(first, values, n, kept[i]);
      }
      OneMoreComesAs(kept, first[n], values);
    }
  }

  lemma OneMoreComesAs(names: seq<string>, name: string, values: seq<string>)
    requires ComesAs(names, values)
    requires forall i :: 0 <= i < |names| ==> FirstAt(values, names[i]) < FirstAt(values, name) < |values|
    ensures ComesAs(names + [name], values)
  {
  }

  lemma PrefixComesAs(first: seq<string>, values: seq<string>, n: nat)
    requires ComesAs(first, values) && n <= |first|
    ensures ComesAs(first[..n], values)
  {
  }

  /** Usable transports come in the order of the type's list, and not of the server's or the client's. */
  lemma UsableInTypeOrder(r: Request)
    ensures ComesAs(Usable(r), r.typeAllowed)
  {
    NormalizedComesAs(r.typeAllowed);
    CommonComesAs(Normalized(r.typeAllowed), Normalized(r.serverAvailable), r.typeAllowed);
    var both := Common(Normalized(r.typeAllowed), Normalized(r.serverAvailable));
    CommonComesAs(both, Normalized(r.clientReachable), r.typeAllowed);
  }

  /** So the fallback of a soft request is the first transport of the type's list that all sides offer. */
  lemma FallbackIsFirstOffered(r: Request, i: nat)
    requires r.required == "" && r.preferenceOrder == [] && i < |r.typeAllowed|
    requires Clean(r.typeAllowed[i]) != "" && Offered(r, Clean(r.typeAllowed[i]))
    requires forall j :: 0 <= j < i ==> Clean(r.typeAllowed[j]) == "" || !Offered(r, Clean(r.typeAllowed[j]))
    ensures Select(r).ok && Select(r).transport == Clean(r.typeAllowed[i])
  {
    UsableIsIntersection(r);
    UsableInTypeOrder(r);
    var name, usable := Clean(r.typeAllowed[i]), Usable(r);
    var k :| 0 <= k < |usable| && usable[k] == name;
    assert FirstAt(r.typeAllowed, name) == i;
    var first := usable[0];
    var j := FirstAt(r.typeAllowed, first);
    assert first in usable && j <= i;
    assert Clean(r.typeAllowed[j]) == first;
    assert j == i;
  }

  /** Why a request fails: nothing is offered by all sides, or what is required is not. */
  lemma FailureExactly(r: Request)
    ensures Select(r).error == NothingUsable <==> forall x :: x != "" ==> !Offered(r, x)
    ensures Select(r).error.RequiredNotUsable? <==>
            r.required != "" && (exists x :: x != "" && Offered(r, x)) && !Select(r).ok
    ensures Select(r).error.RequiredNotUsable? ==> Select(r).error.name == Lowered(r.required)
    ensures Select(r).ok <==> Select(r).error == NoError
  {
    UsableIsIntersection(r);
    if Usable(r) != [] {
      assert Usable(r)[0] in Usable(r);
    }
  }
}
