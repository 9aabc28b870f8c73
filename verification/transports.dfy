/** Negotiating an output transport from three capability sets (service_shim.cpp). */
module Transports {
  import opened ServiceText

  datatype Request = Request(
    typeAllowed: seq<string>,
    serverAvailable: seq<string>,
    clientReachable: seq<string>,
    preferenceOrder: seq<string>,
    required: string)

  datatype Failure = NoError | NothingUsable | RequiredNotUsable(name: string)

  datatype Decision = Decision(ok: bool, transport: string, usable: seq<string>, error: Failure)

  // ----- sets of names -----

  function Clean(s: string): string {
    Lowered(Trimmed(s))
  }

  /** The cleaned names that are not empty, each at its first occurrence. */
  function Normalized(values: seq<string>): seq<string> {
    if values == [] then []
    else
      var before := Normalized(values[..|values| - 1]);
      var value := Clean(values[|values| - 1]);
      if value != "" && value !in before then before + [value] else before
  }

  method NormalizeTransportSet(values: seq<string>) returns (normalized: seq<string>)
    ensures normalized == Normalized(values)
  {
    normalized := [];
    for i := 0 to |values|
      invariant normalized == Normalized(values[..i])
    {
      assert values[..i + 1][..i] == values[..i];
      var value := Trim(values[i]);
      value := ToLower(value);
      if value != "" && value !in normalized {
        normalized := normalized + [value];
      }
    }
    assert values[..|values|] == values;
  }

  /** The members of the first list that the second one has, in the order of the first. */
  function Common(first: seq<string>, second: seq<string>): seq<string> {
    if first == [] then []
    else
      var before := Common(first[..|first| - 1], second);
      if first[|first| - 1] in second then before + [first[|first| - 1]] else before
  }

  method IntersectTransportSets(first: seq<string>, second: seq<string>) returns (result: seq<string>)
    ensures result == Common(first, second)
  {
    result := [];
    for i := 0 to |first|
      invariant result == Common(first[..i], second)
    {
      assert first[..i + 1][..i] == first[..i];
      if first[i] in second {
        result := result + [first[i]];
      }
    }
    assert first[..|first|] == first;
  }

  ghost predicate NoDuplicates(s: seq<string>) {
    forall i, j :: 0 <= i < j < |s| ==> s[i] != s[j]
  }

  /** A name occurs in the list once trimming and case are disregarded. */
  ghost predicate Lists(values: seq<string>, name: string) {
    exists i :: 0 <= i < |values| && Clean(values[i]) == name
  }

  lemma {:induction false} NormalizedMembers(values: seq<string>)
    ensures NoDuplicates(Normalized(values))
    ensures forall x :: x in Normalized(values) <==> x != "" && Lists(values, x)
  {
    if values != [] {
      var front, last := values[..|values| - 1], Clean(values[|values| - 1]);
      NormalizedMembers(front);
      forall x
        ensures Lists(values, x) <==> Lists(front, x) || last == x
      {
        if Lists(front, x) {
          var i :| 0 <= i < |front| && Clean(front[i]) == x;
          assert Clean(values[i]) == x;
        }
        if Lists(values, x) && last != x {
          var i :| 0 <= i < |values| && Clean(values[i]) == x;
          assert Clean(front[i]) == x;
        }
      }
    }
  }

  lemma {:induction false} CommonMembers(first: seq<string>, second: seq<string>)
    ensures forall x :: x in Common(first, second) <==> x in first && x in second
    ensures NoDuplicates(first) ==> NoDuplicates(Common(first, second))
  {
    if first != [] {
      var front := first[..|first| - 1];
      CommonMembers(front, second);
      assert forall x :: x in first <==> x in front || x == first[|first| - 1];
      if NoDuplicates(first) {
        assert NoDuplicates(front);
      }
    }
  }

  // ----- the decision -----

  function Usable(r: Request): seq<string> {
    Common(Common(Normalized(r.typeAllowed), Normalized(r.serverAvailable)), Normalized(r.clientReachable))
  }

  /** The first preference from position i on that is usable. */
  function FirstPreference(preferences: seq<string>, usable: seq<string>, i: nat): (k: nat)
    requires i <= |preferences|
    ensures i <= k <= |preferences|
    ensures forall j :: i <= j < k ==> Lowered(preferences[j]) !in usable
    ensures k < |preferences| ==> Lowered(preferences[k]) in usable
    decreases |preferences| - i
  {
    if i == |preferences| || Lowered(preferences[i]) in usable then i
    else FirstPreference(preferences, usable, i + 1)
  }

  function Select(r: Request): Decision {
    var usable := Usable(r);
    var required := Lowered(r.required);
    if usable == [] then Decision(false, "", usable, NothingUsable)
    else if required != "" then
      if required in usable then Decision(true, required, usable, NoError)
      else Decision(false, "", usable, RequiredNotUsable(required))
    else
      var k := FirstPreference(r.preferenceOrder, usable, 0);
      if k < |r.preferenceOrder| then Decision(true, Lowered(r.preferenceOrder[k]), usable, NoError)
      else Decision(true, usable[0], usable, NoError)
  }

  method SelectOutputTransport(request: Request) returns (selection: Decision)
    ensures selection == Select(request)
  {
    selection := Decision(false, "", [], NoError);
    var typeAllowed := NormalizeTransportSet(request.typeAllowed);
    var serverAvailable := NormalizeTransportSet(request.serverAvailable);
    var clientReachable := NormalizeTransportSet(request.clientReachable);
    var typeAndServer := IntersectTransportSets(typeAllowed, serverAvailable);
    var usable := IntersectTransportSets(typeAndServer, clientReachable);
    selection := selection.(usable := usable);
    if usable == [] {
      selection := selection.(error := NothingUsable);
      return;
    }
    var required := ToLower(request.required);
    if required != "" {
      if required in usable {
        selection := selection.(ok := true, transport := required);
        return;
      }
      selection := selection.(error := RequiredNotUsable(required));
      return;
    }
    var i := 0;
    while i < |request.preferenceOrder|
      invariant 0 <= i <= |request.preferenceOrder|
      invariant FirstPreference(request.preferenceOrder, usable, 0) ==
                FirstPreference(request.preferenceOrder, usable, i)
    {
      var transport := ToLower(request.preferenceOrder[i]);
      if transport in usable {
        selection := selection.(ok := true, transport := transport);
        return;
      }
      i := i + 1;
    }
    selection := selection.(ok := true, transport := usable[0]);
  }

  // ----- what the decision means -----

  /** All three sides list the name. */
  ghost predicate Offered(r: Request, name: string) {
    Lists(r.typeAllowed, name) && Lists(r.serverAvailable, name) && Lists(r.clientReachable, name)
  }

  /** The usable transports are, without duplicates, the names on all three lists. */
  lemma UsableIsIntersection(r: Request)
    ensures NoDuplicates(Usable(r))
    ensures forall x :: x in Usable(r) <==> x != "" && Offered(r, x)
  {
    NormalizedMembers(r.typeAllowed);
    NormalizedMembers(r.serverAvailable);
    NormalizedMembers(r.clientReachable);
    var both := Common(Normalized(r.typeAllowed), Normalized(r.serverAvailable));
    CommonMembers(Normalized(r.typeAllowed), Normalized(r.serverAvailable));
    CommonMembers(both, Normalized(r.clientReachable));
  }

  /** A hard request is honoured exactly when its lower-cased name is on all three lists, and then
      with that name and no other. */
  lemma HardRequest(r: Request)
    requires r.required != ""
    ensures Select(r).ok <==> Offered(r, Lowered(r.required))
    ensures Select(r).ok ==> Select(r).transport == Lowered(r.required)
    ensures !Select(r).ok ==> Select(r).transport == "" && Select(r).error != NoError
  {
    UsableIsIntersection(r);
    assert Lowered(r.required) != "";
    assert Lowered(r.required) in Usable(r) ==> Usable(r) != [];
  }

  /** Adding names to any list never withdraws an honoured hard request. */
  lemma HardRequestMonotone(r: Request, wider: Request)
    requires r.required != "" && wider.required == r.required
    requires forall x :: Lists(r.typeAllowed, x) ==> Lists(wider.typeAllowed, x)
    requires forall x :: Lists(r.serverAvailable, x) ==> Lists(wider.serverAvailable, x)
    requires forall x :: Lists(r.clientReachable, x) ==> Lists(wider.clientReachable, x)
    ensures Select(r).ok ==> Select(wider).ok && Select(wider).transport == Select(r).transport
  {
    HardRequest(r);
    HardRequest(wider);
  }

  /** List entries are trimmed and the requested name is not: a request with a space at either end
      is never honoured. */
  lemma UntrimmedRequestFails(r: Request)
    requires r.required != "" && !Bare(r.required)
    ensures !Select(r).ok
  {
    HardRequest(r);
    LoweredIsBare(r.required);
    if Lists(r.typeAllowed, Lowered(r.required)) {
      var i :| 0 <= i < |r.typeAllowed| && Clean(r.typeAllowed[i]) == Lowered(r.required);
      TrimmedIsBare(r.typeAllowed[i]);
      LoweredIsBare(Trimmed(r.typeAllowed[i]));
      assert false;
    }
  }

  /** A name asked for as it is written is usable exactly when it is not padded and its cleaned form
      is on all three lists. */
  lemma UsableAsWritten(r: Request, name: string)
    requires name != ""
    ensures Lowered(name) in Usable(r) <==> Bare(name) && Offered(r, Clean(name))
  {
    UsableIsIntersection(r);
    if Bare(name) {
      BareIsTrimmed(name);
    } else {
      UntrimmedRequestFails(r.(required := name));
      HardRequest(r.(required := name));
      assert Offered(r.(required := name), Lowered(name)) <==> Offered(r, Lowered(name));
    }
  }

  /** A hard request is honoured exactly when it is not padded and its cleaned name is on all three
      lists; among the requests for an offered name, padding is the only cause of refusal. */
  lemma HardRequestExactly(r: Request)
    requires r.required != ""
    ensures Select(r).ok <==> Bare(r.required) && Offered(r, Clean(r.required))
  {
    UsableIsIntersection(r);
    UsableAsWritten(r, r.required);
    HardRequest(r);
  }

  /** A padded preference is passed over, offered or not: leaving it out changes nothing. */
  lemma PaddedPreferenceIgnored(r: Request, k: nat)
    requires k < |r.preferenceOrder| && !Bare(r.preferenceOrder[k])
    ensures Select(r) == Select(r.(preferenceOrder := r.preferenceOrder[..k] + r.preferenceOrder[k + 1..]))
  {
    var all := r.preferenceOrder;
    var fewer := all[..k] + all[k + 1..];
    UsableAsWritten(r, all[k]);
    var i, j := FirstPreference(all, Usable(r), 0), FirstPreference(fewer, Usable(r), 0);
    assert forall m :: 0 <= m < k ==> fewer[m] == all[m];
    assert forall m :: k <= m < |fewer| ==> fewer[m] == all[m + 1];
    assert i < k ==> fewer[i] == all[i];
    assert i > k && i < |all| ==> fewer[i - 1] == all[i];
    assert j == if i < k then i else i - 1;
  }

  predicate IsPlainName(name: string) {
    name != "" && Bare(name) && Lowered(name) == name
  }

  lemma PaddedName(name: string)
    requires IsPlainName(name)
    ensures !Bare(" " + name) && Clean(" " + name) == name && Clean(name) == name
  {
    BareIsTrimmed(name);
    TrimSurrounded(" ", name, "");
    assert " " + name + "" == " " + name;
  }

  lemma NormalizedPair(a: string, b: string)
    requires IsPlainName(a) && IsPlainName(b) && a != b
    ensures Normalized([a, b]) == [a, b] && Common([a, b], [a, b]) == [a, b]
  {
    PaddedName(a);
    PaddedName(b);
    assert [a, b][..1] == [a] && [a][..0] == [];
    assert Normalized([a]) == [a];
    assert Common([a], [a, b]) == [a];
  }

  /** For any two names that all three sides list: the padded form of one is refused as a requirement, and
      as a preference it gets the other name. */
  lemma PaddedNamesFail(a: string, b: string)
    requires IsPlainName(a) && IsPlainName(b) && a != b
    ensures var hard := Request([a, b], [a, b], [a, b], [], " " + b);
            Offered(hard, Clean(hard.required)) && !Select(hard).ok
    ensures var soft := Request([a, b], [a, b], [a, b], [" " + b], "");
            Offered(soft, Clean(soft.preferenceOrder[0])) && Select(soft).transport == a
  {
    var hard, soft := Request([a, b], [a, b], [a, b], [], " " + b), Request([a, b], [a, b], [a, b], [" " + b], "");
    PaddedName(b);
    NormalizedPair(a, b);
    assert Clean([a, b][1]) == b;
    HardRequestExactly(hard);
    UsableAsWritten(soft, " " + b);
    assert Usable(soft) == [a, b] && soft.preferenceOrder[0] == " " + b;
    assert FirstPreference(soft.preferenceOrder, [a, b], 0) == 1;
  }

  /** The same for two of the harness's own transports. */
  lemma PaddedHttpFails()
    ensures !Select(Request(["disk", "http"], ["disk", "http"], ["disk", "http"], [], " http")).ok
    ensures Select(Request(["disk", "http"], ["disk", "http"], ["disk", "http"], [" http"], "")).transport == "disk"
  {
    assert IsPlainName("disk") && IsPlainName("http");
    assert "disk"[0] != "http"[0];
    PaddedNamesFail("disk", "http");
    assert " " + "http" == " http";
  }

  /** A soft request succeeds whenever anything is usable: with the first usable preference if there
      is one, and otherwise with the first usable transport. */
  lemma SoftRequest(r: Request)
    requires r.required == ""
    ensures Select(r).ok <==> exists x :: x != "" && Offered(r, x)
    ensures Select(r).ok ==> Select(r).transport != "" && Offered(r, Select(r).transport)
    ensures Select(r).ok ==>
              || (exists k :: 0 <= k < |r.preferenceOrder| && Select(r).transport == Lowered(r.preferenceOrder[k]) &&
                              forall j :: 0 <= j < k ==> Lowered(r.preferenceOrder[j]) !in Usable(r))
              || (Select(r).transport == Usable(r)[0] &&
                  forall j :: 0 <= j < |r.preferenceOrder| ==> Lowered(r.preferenceOrder[j]) !in Usable(r))
  {
    UsableIsIntersection(r);
    if Usable(r) != [] {
      assert Usable(r)[0] in Usable(r);
    }
  }

  /** Requests whose lists name the same transports get the same decision, except for the fallback of
      a soft request none of whose preferences is usable. */
  lemma ListOrderOnlyAffectsFallback(r: Request, s: Request)
    requires r.required == s.required && r.preferenceOrder == s.preferenceOrder
    requires forall x :: Offered(r, x) <==> Offered(s, x)
    ensures Select(r).ok == Select(s).ok
    ensures Select(r).transport == Select(s).transport
            || (r.required == "" && Select(r).ok &&
                forall j :: 0 <= j < |r.preferenceOrder| ==> Lowered(r.preferenceOrder[j]) !in Usable(r))
  {
    UsableIsIntersection(r);
    UsableIsIntersection(s);
    assert forall x :: x in Usable(r) <==> x in Usable(s);
    if Usable(r) != [] {
      assert Usable(r)[0] in Usable(s);
    }
    if Usable(s) != [] {
      assert Usable(s)[0] in Usable(r);
    }
    SamePreference(r.preferenceOrder, Usable(r), Usable(s), 0);
  }

  lemma {:induction false} SamePreference(preferences: seq<string>, a: seq<string>, b: seq<string>, i: nat)
    requires i <= |preferences|
    requires forall x :: x in a <==> x in b
    ensures FirstPreference(preferences, a, i) == FirstPreference(preferences, b, i)
    decreases |preferences| - i
  {
    if i < |preferences| {
      SamePreference(preferences, a, b, i + 1);
    }
  }
}
