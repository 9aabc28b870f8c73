/** The string helpers of service_shim.cpp, in the "C" locale. */
module ServiceText {

  predicate IsSpace(c: char) {
    c == ' ' || c == '\t' || c == '\n' || c == '\r' || c == '\U{0B}' || c == '\U{0C}'
  }

  predicate AllSpace(s: string) {
    forall i :: 0 <= i < |s| ==> IsSpace(s[i])
  }

  function TrimStart(s: string): string {
    if s != [] && IsSpace(s[0]) then TrimStart(s[1..]) else s
  }

  function TrimEnd(s: string): string {
    if s != [] && IsSpace(s[|s| - 1]) then TrimEnd(s[..|s| - 1]) else s
  }

  function Trimmed(s: string): string {
    TrimEnd(TrimStart(s))
  }

  method Trim(value: string) returns (r: string)
    ensures r == Trimmed(value)
  {
    var begin := 0;
    assert value[0..] == value;
    while begin < |value| && IsSpace(value[begin])
      invariant 0 <= begin <= |value|
      invariant TrimStart(value[begin..]) == TrimStart(value)
    {
      assert value[begin..][1..] == value[begin + 1..];
      begin := begin + 1;
    }
    ghost var rest := value[begin..];
    assert TrimStart(value) == rest;
    var end := |value|;
    assert value[begin..end] == rest;
    while end > begin && IsSpace(value[end - 1])
      invariant begin <= end <= |value|
      invariant TrimEnd(value[begin..end]) == TrimEnd(rest)
    {
      ghost var s := value[begin..end];
      assert s[|s| - 1] == value[end - 1] && s[..|s| - 1] == value[begin..end - 1];
      end := end - 1;
    }
    r := value[begin..end];
    assert r == [] || r[|r| - 1] == value[end - 1];
  }

  lemma {:induction false} TrimStartConcat(spaces: string, s: string)
    requires AllSpace(spaces)
    ensures TrimStart(spaces + s) == TrimStart(s)
  {
    if spaces == [] {
      assert spaces + s == s;
    } else {
      assert (spaces + s)[1..] == spaces[1..] + s;
      TrimStartConcat(spaces[1..], s);
    }
  }

  lemma {:induction false} TrimEndConcat(s: string, spaces: string)
    requires AllSpace(spaces)
    ensures TrimEnd(s + spaces) == TrimEnd(s)
  {
    if spaces == [] {
      assert s + spaces == s;
    } else {
      var t, n := s + spaces, |spaces| - 1;
      assert t[|t| - 1] == spaces[n] && t[..|t| - 1] == s + spaces[..n];
      TrimEndConcat(s, spaces[..n]);
    }
  }

  /** Text that neither begins nor ends with a space. */
  predicate Bare(s: string) {
    s != [] ==> !IsSpace(s[0]) && !IsSpace(s[|s| - 1])
  }

  lemma {:induction false} TrimEndIsBare(s: string)
    ensures TrimEnd(s) <= s
    ensures TrimEnd(s) != [] ==> !IsSpace(TrimEnd(s)[|TrimEnd(s)| - 1])
  {
    if s != [] && IsSpace(s[|s| - 1]) {
      TrimEndIsBare(s[..|s| - 1]);
    }
  }

  lemma {:induction false} TrimStartIsBare(s: string)
    ensures TrimStart(s) != [] ==> !IsSpace(TrimStart(s)[0])
  {
    if s != [] && IsSpace(s[0]) {
      TrimStartIsBare(s[1..]);
    }
  }

  lemma TrimmedIsBare(s: string)
    ensures Bare(Trimmed(s))
  {
    TrimStartIsBare(s);
    TrimEndIsBare(TrimStart(s));
  }

  lemma BareIsTrimmed(s: string)
    requires Bare(s)
    ensures Trimmed(s) == s
  {
  }

  lemma TrimSurrounded(before: string, s: string, after: string)
    requires AllSpace(before) && AllSpace(after) && Bare(s) && s != []
    ensures Trimmed(before + s + after) == s
  {
    assert before + s + after == before + (s + after);
    TrimStartConcat(before, s + after);
    assert (s + after)[0] == s[0];
    TrimEndConcat(s, after);
  }

  // ----- finding and splitting -----

  /** The first position of c in s, or the length of s. */
  function IndexOf(s: string, c: char): (i: nat)
    ensures i <= |s|
    ensures c !in s[..i]
    ensures i < |s| ==> s[i] == c
  {
    if s == [] || s[0] == c then 0
    else
      var i := IndexOf(s[1..], c);
      assert s[..i + 1] == [s[0]] + s[1..][..i];
      i + 1
  }

  /** The pieces of s between its separators; at least one. */
  function Split(s: string, c: char): (pieces: seq<string>)
    ensures pieces != []
    decreases |s|
  {
    var i := IndexOf(s, c);
    if i == |s| then [s] else [s[..i]] + Split(s[i + 1..], c)
  }

  lemma {:induction false} IndexOfAbsent(s: string, c: char)
    requires c !in s
    ensures IndexOf(s, c) == |s|
  {
    if s != [] {
      IndexOfAbsent(s[1..], c);
    }
  }

  lemma {:induction false} IndexOfConcat(a: string, c: char, b: string)
    requires c !in a
    ensures IndexOf(a + [c] + b, c) == |a|
  {
    if a != [] {
      assert (a + [c] + b)[1..] == a[1..] + [c] + b;
      IndexOfConcat(a[1..], c, b);
    }
  }

  lemma SplitConcat(a: string, c: char, b: string)
    requires c !in a
    ensures Split(a + [c] + b, c) == [a] + Split(b, c)
  {
    IndexOfConcat(a, c, b);
    var s := a + [c] + b;
    assert s[..|a|] == a && s[|a| + 1..] == b;
  }

  lemma SplitSingle(s: string, c: char)
    requires c !in s
    ensures Split(s, c) == [s]
  {
    IndexOfAbsent(s, c);
  }

  // ----- lower case -----

  function Lower(c: char): char {
    if 'A' <= c <= 'Z' then (c as int - 'A' as int + 'a' as int) as char else c
  }

  function Lowered(s: string): (r: string)
    ensures |r| == |s|
  {
    seq(|s|, i requires 0 <= i < |s| => Lower(s[i]))
  }

  method ToLower(value: string) returns (result: string)
    ensures result == Lowered(value)
  {
    result := value;
    var i := 0;
    while i < |result|
      invariant 0 <= i <= |result| == |value|
      invariant forall j :: 0 <= j < i ==> result[j] == Lower(value[j])
      invariant forall j :: i <= j < |value| ==> result[j] == value[j]
    {
      result := result[i := Lower(result[i])];
      i := i + 1;
    }
  }

  lemma LoweredIsBare(s: string)
    ensures Bare(Lowered(s)) <==> Bare(s)
  {
  }

  predicate IsLower(s: string) {
    forall i :: 0 <= i < |s| ==> !('A' <= s[i] <= 'Z')
  }

  lemma LowerIsLowered(s: string)
    requires IsLower(s)
    ensures Lowered(s) == s
  {
  }
}
