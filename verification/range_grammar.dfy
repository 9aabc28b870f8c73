/** Which texts are versions and comparators, as a grammar (service_shim.cpp). */
module RangeGrammar {
  import opened Concatenation
  import opened Wrappers
  import opened ServiceText
  import opened StringOrder
  import opened ProtocolRange

  // ----- numbers -----

  predicate IsNumber(s: string) {
    s != [] && forall i :: 0 <= i < |s| ==> 48 <= s[i] as int <= 57
  }

  function Pow10(n: nat): nat {
    if n == 0 then 1 else 10 * Pow10(n - 1)
  }

  /** Each digit counts by its place. */
  function PlaceValue(s: string): int {
    if s == [] then 0 else (s[0] as int - 48) * Pow10(|s| - 1) + PlaceValue(s[1..])
  }

  lemma Distributed(a: int, b: int, p: int)
    ensures a * (10 * p) + 10 * b == 10 * (a * p + b)
  {
  }

  lemma {:induction false} PlaceOfLast(s: string)
    requires s != []
    ensures PlaceValue(s) == 10 * PlaceValue(s[..|s| - 1]) + (s[|s| - 1] as int - 48)
  {
    if |s| == 1 {
      assert s[..0] == [] && s[1..] == [];
      assert PlaceValue(s) == (s[0] as int - 48) * 1 + 0;
    } else {
      var tail, front := s[1..], s[..|s| - 1];
      PlaceOfLast(tail);
      assert tail[..|tail| - 1] == front[1..];
      Distributed(s[0] as int - 48, PlaceValue(front[1..]), Pow10(|s| - 2));
    }
  }

  lemma {:induction false} ValueIsPlaceValue(s: string)
    requires forall i :: 0 <= i < |s| ==> IsDigit(s[i])
    ensures DigitsValue(s) == PlaceValue(s)
  {
    if s != [] {
      ValueIsPlaceValue(s[..|s| - 1]);
      PlaceOfLast(s);
    }
  }

  lemma NumberIsRead(s: string)
    ensures IntPart(s) == if IsNumber(s) then Some(PlaceValue(s)) else None
  {
    if IsNumber(s) {
      ValueIsPlaceValue(s);
    }
  }

  // ----- versions -----

  /** Three numbers with dots between them, and then nothing, or a minus or plus sign and anything. */
  ghost predicate IsVersion(s: string, v: Version) {
    exists a, b, c, suffix :: Spelled(s, v, a, b, c, suffix)
  }

  predicate Spelled(s: string, v: Version, a: string, b: string, c: string, suffix: string) {
    && IsNumber(a) && IsNumber(b) && IsNumber(c)
    && (suffix == [] || suffix[0] == '-' || suffix[0] == '+')
    && s == a + "." + (b + "." + c) + suffix
    && v.major == PlaceValue(a) && v.minor == PlaceValue(b) && v.patch == PlaceValue(c)
  }

  lemma {:induction false} CoreSplits(s: string)
    ensures Core(s) <= s
    ensures var suffix := s[|Core(s)|..];
            suffix == [] || suffix[0] == '-' || suffix[0] == '+'
  {
    if s != [] && s[0] != '-' && s[0] != '+' {
      CoreSplits(s[1..]);
      assert s[|Core(s)|..] == s[1..][|Core(s[1..])|..];
    }
  }

  lemma SplitOff(s: string, c: char)
    requires |Split(s, c)| > 1
    ensures var i := IndexOf(s, c);
            i < |s| && s == s[..i] + [c] + s[i + 1..] && Split(s, c) == [s[..i]] + Split(s[i + 1..], c)
  {
  }

  lemma ThreePieces(s: string)
    requires |Split(s, '.')| == 3
    ensures var p := Split(s, '.');
            s == p[0] + "." + (p[1] + "." + p[2])
  {
    SplitOff(s, '.');
    var rest := s[IndexOf(s, '.') + 1..];
    assert Split(s, '.')[1..] == Split(rest, '.');
    SplitOff(rest, '.');
    var last := rest[IndexOf(rest, '.') + 1..];
    assert Split(rest, '.')[1..] == Split(last, '.');
    assert |Split(last, '.')| == 1;
    OnePiece(last);
  }

  lemma OnePiece(s: string)
    ensures |Split(s, '.')| == 1 ==> Split(s, '.') == [s]
  {
    var i := IndexOf(s, '.');
    if i < |s| {
      assert |Split(s, '.')| == 1 + |Split(s[i + 1..], '.')|;
    }
  }

  /** A text is read as a version exactly when it is one. */
  lemma VersionExactly(s: string, v: Version)
    ensures SemVer(s) == Some(v) <==> IsVersion(s, v)
  {
    if SemVer(s) == Some(v) {
      var p := Split(Core(s), '.');
      CoreSplits(s);
      ThreePieces(Core(s));
      NumberIsRead(p[0]);
      NumberIsRead(p[1]);
      NumberIsRead(p[2]);
      assert s == Core(s) + s[|Core(s)|..];
      assert Spelled(s, v, p[0], p[1], p[2], s[|Core(s)|..]);
    }
    if IsVersion(s, v) {
      var a, b, c, suffix :| Spelled(s, v, a, b, c, suffix);
      SpelledIsRead(s, v, a, b, c, suffix);
    }
  }

  lemma NumberHasNoMark(s: string)
    requires IsNumber(s)
    ensures '.' !in s && '-' !in s && '+' !in s
  {
  }

  lemma SpelledIsRead(s: string, v: Version, a: string, b: string, c: string, suffix: string)
    requires Spelled(s, v, a, b, c, suffix)
    ensures SemVer(s) == Some(v)
  {
    NumberHasNoMark(a);
    NumberHasNoMark(b);
    NumberHasNoMark(c);
    CoreConcat(a + "." + (b + "." + c), suffix);
    SplitThree(a, b, c);
    NumberIsRead(a);
    NumberIsRead(b);
    NumberIsRead(c);
  }

  // ----- comparators -----

  /** A sign, or none for equality, and a version, with spaces around the two. */
  ghost predicate IsPart(raw: string, c: Comparator) {
    exists before, sign, between, body, after :: Composed(raw, c, before, sign, between, body, after)
  }

  ghost predicate Composed(raw: string, c: Comparator, before: string, sign: string, between: string, body: string,
                           after: string) {
    && AllSpace(before) && AllSpace(between) && AllSpace(after) && (sign == "" ==> between == "")
    && Spells(sign, c.op) && Bare(body) && IsVersion(body, c.version)
    && raw == before + (sign + (between + body)) + after
  }

  lemma {:induction false} TrimStartSplits(s: string) returns (before: string)
    ensures AllSpace(before) && s == before + TrimStart(s)
  {
    if s != [] && IsSpace(s[0]) {
      var more := TrimStartSplits(s[1..]);
      before := [s[0]] + more;
      SplitFirst(s);
      Regroup([s[0]], more, TrimStart(s));
    } else {
      before := [];
      NoGap(s);
    }
  }

  lemma {:induction false} TrimEndSplits(s: string) returns (after: string)
    ensures AllSpace(after) && s == TrimEnd(s) + after
  {
    if s != [] && IsSpace(s[|s| - 1]) {
      var more := TrimEndSplits(s[..|s| - 1]);
      after := more + [s[|s| - 1]];
      SplitLast(s);
      Regroup(TrimEnd(s), more, [s[|s| - 1]]);
    } else {
      after := [];
      NothingAfter(s);
    }
  }

  lemma TrimSplits(s: string) returns (before: string, after: string)
    ensures AllSpace(before) && AllSpace(after) && s == before + Trimmed(s) + after
  {
    before := TrimStartSplits(s);
    after := TrimEndSplits(TrimStart(s));
    Regroup(before, Trimmed(s), after);
  }

  lemma {:induction false} EndStays(s: string)
    requires s != [] && !IsSpace(s[|s| - 1])
    ensures TrimEnd(TrimStart(s)) == TrimStart(s)
    ensures TrimStart(s) != []
  {
    if IsSpace(s[0]) {
      EndStays(s[1..]);
    }
  }

  /** The text behind a sign, when nothing but spaces stands between them. */
  lemma SignSplits(part: string, k: nat) returns (between: string)
    requires Bare(part) && k < |part|
    ensures AllSpace(between) && part == part[..k] + (between + Trimmed(part[k..]))
  {
    var rest := part[k..];
    between := TrimStartSplits(rest);
    EndStays(rest);
    assert part == part[..k] + rest;
  }

  lemma SomethingLeft(part: string, k: nat)
    requires k <= |part|
    ensures Trimmed(part[k..]) != [] ==> k < |part|
  {
    assert k == |part| ==> part[k..] == [];
  }

  lemma OpSplits(part: string) returns (sign: string, between: string)
    requires part != [] && Bare(part) && SplitOp(part).1 != []
    ensures var (op, rest) := SplitOp(part);
            && Spells(sign, op) && AllSpace(between) && (sign == "" ==> between == "") && Bare(rest)
            && part == sign + (between + rest)
  {
    var k := if StartsWith(part, ">=") || StartsWith(part, "<=") || StartsWith(part, "==") then 2
             else if StartsWith(part, ">") || StartsWith(part, "<") || StartsWith(part, "=") then 1 else 0;
    sign := part[..k];
    if k == 0 {
      between := "";
      NoGap(part);
    } else {
      SomethingLeft(part, k);
      between := SignSplits(part, k);
      TrimmedIsBare(part[k..]);
    }
  }

  lemma ComposedIsRead(raw: string, c: Comparator, before: string, sign: string, between: string, body: string,
                       after: string)
    requires Composed(raw, c, before, sign, between, body, after)
    ensures ReadPart(raw) == Some(c)
  {
    VersionExactly(body, c.version);
    BodyBegins(body, c.version);
    SignedIsBare(sign, c.op, between, body);
    TrimSurrounded(before, sign + (between + body), after);
    SignedSplits(sign, c.op, between, body);
  }

  lemma BodyBegins(body: string, v: Version)
    requires IsVersion(body, v)
    ensures body != [] && 48 <= body[0] as int <= 57
  {
    var a, b, c, suffix :| Spelled(body, v, a, b, c, suffix);
    assert body[0] == a[0];
  }

  /** A part of a range is read as a comparator exactly when it is one. */
  lemma PartExactly(raw: string, c: Comparator)
    ensures ReadPart(raw) == Some(c) <==> IsPart(raw, c)
  {
    if ReadPart(raw) == Some(c) {
      var part := Trimmed(raw);
      TrimmedIsBare(raw);
      var before, after := TrimSplits(raw);
      var (op, rest) := SplitOp(part);
      VersionExactly(rest, c.version);
      BodyBegins(rest, c.version);
      var sign, between := OpSplits(part);
      assert Composed(raw, c, before, sign, between, rest, after);
    }
    if IsPart(raw, c) {
      var before, sign, between, body, after :| Composed(raw, c, before, sign, between, body, after);
      ComposedIsRead(raw, c, before, sign, between, body, after);
    }
  }

  // ----- the order of versions -----

  function Positional(v: Version, base: nat): nat {
    (v.major * base + v.minor) * base + v.patch
  }

  lemma Carries(a: nat, b: nat, low: nat, lower: nat, base: nat)
    requires low < base && lower < base
    ensures a * base + low < b * base + lower <==> a < b || (a == b && low < lower)
  {
    if a < b {
      assert (a + 1) * base <= b * base;
    } else if b < a {
      assert (b + 1) * base <= a * base;
    }
  }

  /** Versions are ordered as numbers of three digits are, in any base that is large enough. */
  lemma OrderIsPositional(v: Version, w: Version, base: nat)
    requires v.minor < base && v.patch < base && w.minor < base && w.patch < base
    ensures Before(v, w) <==> Positional(v, base) < Positional(w, base)
  {
    Carries(v.major, w.major, v.minor, w.minor, base);
    Carries(v.major * base + v.minor, w.major * base + w.minor, v.patch, w.patch, base);
    Carries(w.major, v.major, w.minor, v.minor, base);
  }

  /** What a sign in front of a version admits, told by the numbers the versions stand for. */
  lemma SignsMean(sign: string, c: Comparator, v: Version, base: nat)
    requires Spells(sign, c.op)
    requires v.minor < base && v.patch < base && c.version.minor < base && c.version.patch < base
    ensures var given, least := Positional(v, base), Positional(c.version, base);
            Admits(c, v) <==>
            if sign == ">=" then given >= least
            else if sign == ">" then given > least
            else if sign == "<=" then given <= least
            else if sign == "<" then given < least
            else given == least
  {
    OrderIsPositional(v, c.version, base);
    OrderIsPositional(c.version, v, base);
  }

  /** Bounds are hollow exactly when they are in order and yet no version lies between them. */
  lemma HollowExactly(lower: Bound, upper: Bound)
    ensures Hollow(lower, upper) <==>
            && upper.At? && (lower.At? ==> Before(lower.version, upper.version))
            && forall v :: !(AboveLower(lower, v) && BelowUpper(upper, v))
  {
    if upper.At? && (lower.At? ==> Before(lower.version, upper.version)) &&
       forall v :: !(AboveLower(lower, v) && BelowUpper(upper, v)) {
      var least := if lower.At? then Successor(lower.version) else Version(0, 0, 0);
      assert AboveLower(lower, least) && !BelowUpper(upper, least);
      assert AboveLower(lower, upper.version) && !BelowUpper(upper, upper.version);
      if lower.At? {
        assert BelowUpper(upper, lower.version) && !AboveLower(lower, lower.version);
      }
    }
  }
}
