/** Protocol version ranges of the compatibility gate (service_shim.cpp). */
module ProtocolRange {
  import opened ServiceText
  import opened StringOrder
  import opened Wrappers

  datatype Version = Version(major: nat, minor: nat, patch: nat)

  datatype Op = Ge | Gt | Le | Lt | Eq

  /** One comma-separated part of a range. */
  datatype Comparator = Comparator(op: Op, version: Version)

  /** One end of an interval, when it has been set. */
  datatype Bound = Unset | At(version: Version, inclusive: bool)

  datatype Interval = Interval(lower: Bound, upper: Bound)

  // ----- the order of versions -----

  predicate Before(a: Version, b: Version) {
    a.major < b.major || (a.major == b.major && (a.minor < b.minor || (a.minor == b.minor && a.patch < b.patch)))
  }

  function Compare(first: Version, second: Version): (r: int)
    ensures r < 0 <==> Before(first, second)
    ensures r > 0 <==> Before(second, first)
    ensures r == 0 <==> first == second
  {
    if first.major != second.major then (if first.major < second.major then -1 else 1)
    else if first.minor != second.minor then (if first.minor < second.minor then -1 else 1)
    else if first.patch != second.patch then (if first.patch < second.patch then -1 else 1)
    else 0
  }

  // ----- bounds -----

  function MaxLowerBound(first: Bound, second: Bound): Bound {
    if first.Unset? then second
    else if second.Unset? then first
    else
      var comparison := Compare(first.version, second.version);
      if comparison > 0 then first
      else if comparison < 0 then second
      else first.(inclusive := first.inclusive && second.inclusive)
  }

  function MinUpperBound(first: Bound, second: Bound): Bound {
    if first.Unset? then second
    else if second.Unset? then first
    else
      var comparison := Compare(first.version, second.version);
      if comparison < 0 then first
      else if comparison > 0 then second
      else first.(inclusive := first.inclusive && second.inclusive)
  }

  predicate AboveLower(bound: Bound, v: Version) {
    bound.At? ==> Before(bound.version, v) || (bound.inclusive && bound.version == v)
  }

  predicate BelowUpper(bound: Bound, v: Version) {
    bound.At? ==> Before(v, bound.version) || (bound.inclusive && bound.version == v)
  }

  predicate Contains(interval: Interval, v: Version) {
    AboveLower(interval.lower, v) && BelowUpper(interval.upper, v)
  }

  /** What a comparator means. */
  predicate Admits(c: Comparator, v: Version) {
    match c.op
    case Ge => v == c.version || Before(c.version, v)
    case Gt => Before(c.version, v)
    case Le => v == c.version || Before(v, c.version)
    case Lt => Before(v, c.version)
    case Eq => v == c.version
  }

  /** Folding a comparator into the interval. */
  function Apply(interval: Interval, c: Comparator): Interval {
    var bound := At(c.version, c.op.Ge? || c.op.Le? || c.op.Eq?);
    if c.op.Ge? || c.op.Gt? then interval.(lower := MaxLowerBound(interval.lower, bound))
    else if c.op.Le? || c.op.Lt? then interval.(upper := MinUpperBound(interval.upper, bound))
    else Interval(MaxLowerBound(interval.lower, bound), MinUpperBound(interval.upper, bound))
  }

  const EVERYTHING := Interval(Unset, Unset)

  function Narrow(interval: Interval, cs: seq<Comparator>): Interval {
    if cs == [] then interval else Apply(Narrow(interval, cs[..|cs| - 1]), cs[|cs| - 1])
  }

  // ----- parsing -----

  predicate IsDigit(c: char) {
    '0' <= c <= '9'
  }

  function DigitOf(c: char): nat
    requires IsDigit(c)
  {
    c as int - '0' as int
  }

  function DigitsValue(s: string): nat
    requires forall i :: 0 <= i < |s| ==> IsDigit(s[i])
  {
    if s == [] then 0 else DigitsValue(s[..|s| - 1]) * 10 + DigitOf(s[|s| - 1])
  }

  function IntPart(s: string): Option<nat> {
    if s != [] && forall i :: 0 <= i < |s| ==> IsDigit(s[i]) then Some(DigitsValue(s)) else None
  }

  method ParseIntPart(value: string) returns (r: Option<nat>)
    ensures r == IntPart(value)
  {
    if value == "" {
      return None;
    }
    var parsed: nat := 0;
    var i := 0;
    while i < |value|
      invariant 0 <= i <= |value|
      invariant forall j :: 0 <= j < i ==> IsDigit(value[j])
      invariant parsed == DigitsValue(value[..i])
    {
      if !IsDigit(value[i]) {
        return None;
      }
      assert value[..i + 1][..i] == value[..i];
      parsed := parsed * 10 + DigitOf(value[i]);
      i := i + 1;
    }
    assert value[..|value|] == value;
    return Some(parsed);
  }

  /** The text before the first of the two suffix marks. */
  function Core(s: string): string {
    if s == [] || s[0] == '-' || s[0] == '+' then [] else [s[0]] + Core(s[1..])
  }

  /** Exactly three parts separated by dots, each a number; a pre-release or build suffix is ignored. */
  function SemVer(s: string): Option<Version> {
    var parts := Split(Core(s), '.');
    if |parts| != 3 then None
    else
      match (IntPart(parts[0]), IntPart(parts[1]), IntPart(parts[2]))
      case (Some(a), Some(b), Some(c)) => Some(Version(a, b, c))
      case _ => None
  }

  /** std::string::find_first_of for the two suffix marks, cut there. */
  method CutSuffix(value: string) returns (core: string)
    ensures core == Core(value)
  {
    var i := 0;
    assert value[0..] == value;
    while i < |value| && value[i] != '-' && value[i] != '+'
      invariant 0 <= i <= |value|
      invariant Core(value) == value[..i] + Core(value[i..])
    {
      assert value[i..][1..] == value[i + 1..];
      i := i + 1;
    }
    core := value[..i];
  }

  /** std::string::find of a dot from a position, or the length when there is none. */
  function FindDot(s: string, from: nat): (i: nat)
    requires from <= |s|
    ensures from <= i <= |s|
  {
    from + IndexOf(s[from..], '.')
  }

  method ParseSemVer(value: string) returns (r: Option<Version>)
    ensures r == SemVer(value)
  {
    var core := CutSuffix(value);
    assert core[0..] == core;
    var firstDot := FindDot(core, 0);
    if firstDot == |core| {
      assert Split(core, '.') == [core];
      return None;
    }
    var rest := core[firstDot + 1..];
    var secondDot := FindDot(core, firstDot + 1);
    if secondDot == |core| {
      assert Split(core, '.') == [core[..firstDot]] + [rest];
      return None;
    }
    var last := core[secondDot + 1..];
    assert rest[..secondDot - firstDot - 1] == core[firstDot + 1..secondDot];
    assert rest[secondDot - firstDot - 1 + 1..] == last;
    assert Split(core, '.') == [core[..firstDot]] + ([core[firstDot + 1..secondDot]] + Split(last, '.'));
    if FindDot(core, secondDot + 1) != |core| {
      return None;
    }
    var major := ParseIntPart(core[..firstDot]);
    var minor := ParseIntPart(core[firstDot + 1..secondDot]);
    var patch := ParseIntPart(core[secondDot + 1..]);
    if major.None? || minor.None? || patch.None? {
      return None;
    }
    return Some(Version(major.value, minor.value, patch.value));
  }

  /** The comparator sign and the text behind it; no sign means equality. */
  function SplitOp(part: string): (Op, string) {
    if StartsWith(part, ">=") then (Ge, Trimmed(part[2..]))
    else if StartsWith(part, "<=") then (Le, Trimmed(part[2..]))
    else if StartsWith(part, "==") then (Eq, Trimmed(part[2..]))
    else if StartsWith(part, ">") then (Gt, Trimmed(part[1..]))
    else if StartsWith(part, "<") then (Lt, Trimmed(part[1..]))
    else if StartsWith(part, "=") then (Eq, Trimmed(part[1..]))
    else (Eq, part)
  }

  function ReadPart(raw: string): Option<Comparator> {
    var part := Trimmed(raw);
    if part == [] then None
    else
      var (op, rest) := SplitOp(part);
      match SemVer(rest)
      case None => None
      case Some(version) => Some(Comparator(op, version))
  }

  /** The comparators of all parts, or nothing when one of them is malformed. */
  function ReadParts(parts: seq<string>): Option<seq<Comparator>> {
    if parts == [] then Some([])
    else
      match (ReadPart(parts[0]), ReadParts(parts[1..]))
      case (Some(c), Some(cs)) => Some([c] + cs)
      case _ => None
  }

  function Comparators(value: string): Option<seq<Comparator>> {
    ReadParts(Split(value, ','))
  }

  /** The interval of a range text, or nothing when the range is invalid. */
  function RangeInterval(value: string): Option<Interval> {
    match Comparators(value)
    case None => None
    case Some(cs) => Some(Narrow(EVERYTHING, cs))
  }

  function FoldPart(interval: Interval, part: Option<Comparator>): Interval {
    if part.Some? then Apply(interval, part.value) else interval
  }

  /** Folds one part into the interval; the interval is left alone when the part is malformed. */
  method ParseRangePart(rawPart: string, interval: Interval) returns (ok: bool, result: Interval)
    ensures ok <==> ReadPart(rawPart).Some?
    ensures result == FoldPart(interval, ReadPart(rawPart))
  {
    result := interval;
    var part := Trim(rawPart);
    if part == "" {
      return false, result;
    }
    ghost var whole := part;
    var op := "=";
    if StartsWith(part, ">=") || StartsWith(part, "<=") || StartsWith(part, "==") {
      op := part[..2];
      part := Trim(part[2..]);
    } else if StartsWith(part, ">") || StartsWith(part, "<") || StartsWith(part, "=") {
      op := part[..1];
      part := Trim(part[1..]);
    }
    assert part == SplitOp(whole).1;
    var version := ParseSemVer(part);
    if version.None? {
      return false, result;
    }
    var bound := At(version.value, op == ">=" || op == "<=" || op == "=" || op == "==");
    if op == ">=" || op == ">" {
      result := interval.(lower := MaxLowerBound(interval.lower, bound));
    } else if op == "<=" || op == "<" {
      result := interval.(upper := MinUpperBound(interval.upper, bound));
    } else if op == "=" || op == "==" {
      result := Interval(MaxLowerBound(interval.lower, bound), MinUpperBound(interval.upper, bound));
    } else {
      return false, result;
    }
    return true, result;
  }

  /** The position of the next comma from begin, or the length of the text. */
  function FindComma(s: string, begin: nat): (i: nat)
    requires begin <= |s|
    ensures begin <= i <= |s|
  {
    begin + IndexOf(s[begin..], ',')
  }

  /** Reading on from begin, by the first part and what lies behind its comma. */
  lemma CommaStep(value: string, begin: nat, comma: nat)
    requires begin <= |value| && comma == FindComma(value, begin)
    ensures comma == |value| ==> Comparators(value[begin..]) == Joined(ReadPart(value[begin..comma]), Some([]))
    ensures comma < |value| ==>
              Comparators(value[begin..]) == Joined(ReadPart(value[begin..comma]), Comparators(value[comma + 1..]))
  {
    var rest := value[begin..];
    assert value[begin..comma] == rest[..comma - begin];
    if comma < |value| {
      assert rest[comma - begin + 1..] == value[comma + 1..];
      var parts := [value[begin..comma]] + Split(value[comma + 1..], ',');
      assert Split(rest, ',') == parts;
      assert parts[1..] == Split(value[comma + 1..], ',');
    } else {
      assert rest == value[begin..comma];
      var none: seq<string> := [];
      assert [rest][1..] == none && ReadParts(none) == Some([]);
    }
  }

  function Joined(first: Option<Comparator>, rest: Option<seq<Comparator>>): Option<seq<Comparator>> {
    if first.Some? && rest.Some? then Some([first.value] + rest.value) else None
  }

  /** What the whole text reads as, when some comparators have been read and the rest is known. */
  function After(done: seq<Comparator>, rest: Option<seq<Comparator>>): Option<seq<Comparator>> {
    if rest.Some? then Some(done + rest.value) else None
  }

  lemma AfterNothing(rest: Option<seq<Comparator>>)
    ensures After([], rest) == rest
  {
    if rest.Some? {
      assert [] + rest.value == rest.value;
    }
  }

  lemma AfterStep(done: seq<Comparator>, c: Comparator, rest: Option<seq<Comparator>>)
    ensures After(done, Joined(Some(c), rest)) == After(done + [c], rest)
    ensures Narrow(EVERYTHING, done + [c]) == FoldPart(Narrow(EVERYTHING, done), Some(c))
  {
    if rest.Some? {
      assert done + ([c] + rest.value) == done + [c] + rest.value;
    }
    assert (done + [c])[..|done|] == done;
  }

  /** One turn of the loop, at the part that starts at begin. */
  lemma PartStep(value: string, begin: nat, comma: nat, whole: Option<seq<Comparator>>, done: seq<Comparator>)
    requires begin <= |value| && comma == FindComma(value, begin)
    requires whole == After(done, Comparators(value[begin..]))
    ensures var read := ReadPart(value[begin..comma]);
            && (read.None? ==> whole == None)
            && (read.Some? && comma == |value| ==> whole == Some(done + [read.value]))
            && (read.Some? && comma < |value| ==> whole == After(done + [read.value], Comparators(value[comma + 1..])))
            && (read.Some? ==> Narrow(EVERYTHING, done + [read.value]) == FoldPart(Narrow(EVERYTHING, done), read))
  {
    var read := ReadPart(value[begin..comma]);
    CommaStep(value, begin, comma);
    if read.Some? {
      if comma < |value| {
        AfterStep(done, read.value, Comparators(value[comma + 1..]));
      } else {
        AfterStep(done, read.value, Some([]));
        assert done + [read.value] + [] == done + [read.value];
      }
    }
  }

  method ParseProtocolRange(value: string) returns (valid: bool, interval: Interval)
    ensures valid <==> RangeInterval(value).Some?
    ensures valid ==> interval == RangeInterval(value).value
  {
    interval := EVERYTHING;
    ghost var whole := Comparators(value);
    ghost var done: seq<Comparator> := [];
    var begin := 0;
    assert value[0..] == value;
    AfterNothing(whole);
    while begin <= |value|
      invariant 0 <= begin <= |value|
      invariant interval == Narrow(EVERYTHING, done)
      invariant whole == After(done, Comparators(value[begin..]))
      decreases |value| - begin
    {
      var comma := FindComma(value, begin);
      ghost var read := ReadPart(value[begin..comma]);
      PartStep(value, begin, comma, whole, done);
      var ok;
      ok, interval := ParseRangePart(value[begin..comma], interval);
      if !ok {
        return false, interval;
      }
      done := done + [read.value];
      if comma == |value| {
        break;
      }
      begin := comma + 1;
    }
    return true, interval;
  }

  // ----- the intersection test -----

  /** Whether a merged lower and upper bound leave room, as the gate decides it. */
  function Meets(lower: Bound, upper: Bound): bool {
    if lower.Unset? || upper.Unset? then true
    else
      var comparison := Compare(lower.version, upper.version);
      if comparison < 0 then true
      else if comparison > 0 then false
      else lower.inclusive && upper.inclusive
  }

  function IntervalsIntersect(first: Interval, second: Interval): bool {
    Meets(MaxLowerBound(first.lower, second.lower), MinUpperBound(first.upper, second.upper))
  }

  function RangesIntersect(first: string, second: string): bool {
    match (RangeInterval(first), RangeInterval(second))
    case (Some(a), Some(b)) => IntervalsIntersect(a, b)
    case _ => false
  }

  method ProtocolRangesIntersect(first: string, second: string) returns (r: bool)
    ensures r == RangesIntersect(first, second)
  {
    var firstValid, firstInterval := ParseProtocolRange(first);
    var secondValid, secondInterval := ParseProtocolRange(second);
    if !firstValid || !secondValid {
      return false;
    }
    var lower := MaxLowerBound(firstInterval.lower, secondInterval.lower);
    var upper := MinUpperBound(firstInterval.upper, secondInterval.upper);
    if lower.Unset? || upper.Unset? {
      return true;
    }
    var comparison := Compare(lower.version, upper.version);
    if comparison < 0 {
      return true;
    }
    if comparison > 0 {
      return false;
    }
    return lower.inclusive && upper.inclusive;
  }

  // ----- what an interval contains -----

  lemma MaxLowerIsConjunction(a: Bound, b: Bound, v: Version)
    ensures AboveLower(MaxLowerBound(a, b), v) <==> AboveLower(a, v) && AboveLower(b, v)
  {
  }

  lemma MinUpperIsConjunction(a: Bound, b: Bound, v: Version)
    ensures BelowUpper(MinUpperBound(a, b), v) <==> BelowUpper(a, v) && BelowUpper(b, v)
  {
  }

  lemma ApplyAdmits(interval: Interval, c: Comparator, v: Version)
    ensures Contains(Apply(interval, c), v) <==> Contains(interval, v) && Admits(c, v)
  {
    var bound := At(c.version, c.op.Ge? || c.op.Le? || c.op.Eq?);
    MaxLowerIsConjunction(interval.lower, bound, v);
    MinUpperIsConjunction(interval.upper, bound, v);
  }

  lemma {:induction false} NarrowAdmits(cs: seq<Comparator>, v: Version)
    ensures Contains(Narrow(EVERYTHING, cs), v) <==> forall i :: 0 <= i < |cs| ==> Admits(cs[i], v)
  {
    if cs != [] {
      var n := |cs| - 1;
      NarrowAdmits(cs[..n], v);
      ApplyAdmits(Narrow(EVERYTHING, cs[..n]), cs[n], v);
      assert forall i :: 0 <= i < n ==> cs[..n][i] == cs[i];
    }
  }

  /** A valid range's interval contains a version exactly when every comma-separated comparator of
      its text admits it. */
  lemma RangeContains(value: string, v: Version)
    requires RangeInterval(value).Some?
    ensures Contains(RangeInterval(value).value, v) <==>
            forall i :: 0 <= i < |Comparators(value).value| ==> Admits(Comparators(value).value[i], v)
  {
    NarrowAdmits(Comparators(value).value, v);
  }

  // ----- the order of the comparators -----

  /** b is at least as tight a lower bound as a. */
  predicate LowerLeq(a: Bound, b: Bound) {
    a.At? ==> b.At? && (Before(a.version, b.version) || (a.version == b.version && (a.inclusive || !b.inclusive)))
  }

  predicate UpperLeq(a: Bound, b: Bound) {
    a.At? ==> b.At? && (Before(b.version, a.version) || (a.version == b.version && (a.inclusive || !b.inclusive)))
  }

  function LowerOf(c: Comparator): Bound {
    if c.op.Le? || c.op.Lt? then Unset else At(c.version, !c.op.Gt?)
  }

  function UpperOf(c: Comparator): Bound {
    if c.op.Ge? || c.op.Gt? then Unset else At(c.version, !c.op.Lt?)
  }

  lemma ApplyTightens(interval: Interval, c: Comparator)
    ensures var r := Apply(interval, c);
            && LowerLeq(interval.lower, r.lower) && LowerLeq(LowerOf(c), r.lower)
            && (r.lower == interval.lower || r.lower == LowerOf(c))
            && UpperLeq(interval.upper, r.upper) && UpperLeq(UpperOf(c), r.upper)
            && (r.upper == interval.upper || r.upper == UpperOf(c))
  {
  }

  lemma LeqTransitive(a: Bound, b: Bound, c: Bound)
    ensures LowerLeq(a, b) && LowerLeq(b, c) ==> LowerLeq(a, c)
    ensures UpperLeq(a, b) && UpperLeq(b, c) ==> UpperLeq(a, c)
  {
  }

  /** Folding leaves the tightest bound on each side, and takes it from one of the comparators. */
  lemma {:induction false} NarrowIsTightest(cs: seq<Comparator>)
    ensures var r := Narrow(EVERYTHING, cs);
            && (forall i :: 0 <= i < |cs| ==> LowerLeq(LowerOf(cs[i]), r.lower) && UpperLeq(UpperOf(cs[i]), r.upper))
            && (r.lower.Unset? || exists i :: 0 <= i < |cs| && r.lower == LowerOf(cs[i]))
            && (r.upper.Unset? || exists i :: 0 <= i < |cs| && r.upper == UpperOf(cs[i]))
  {
    if cs != [] {
      var n := |cs| - 1;
      var before := Narrow(EVERYTHING, cs[..n]);
      var r := Narrow(EVERYTHING, cs);
      NarrowIsTightest(cs[..n]);
      ApplyTightens(before, cs[n]);
      forall i | 0 <= i < |cs|
        ensures LowerLeq(LowerOf(cs[i]), r.lower) && UpperLeq(UpperOf(cs[i]), r.upper)
      {
        if i < n {
          assert cs[..n][i] == cs[i];
          LeqTransitive(LowerOf(cs[i]), before.lower, r.lower);
          LeqTransitive(UpperOf(cs[i]), before.upper, r.upper);
        }
      }
    }
  }

  lemma TightestIsUnique(cs: seq<Comparator>, ds: seq<Comparator>)
    requires forall c :: c in cs ==> c in ds
    ensures LowerLeq(Narrow(EVERYTHING, cs).lower, Narrow(EVERYTHING, ds).lower)
    ensures UpperLeq(Narrow(EVERYTHING, cs).upper, Narrow(EVERYTHING, ds).upper)
  {
    NarrowIsTightest(cs);
    NarrowIsTightest(ds);
    var a, b := Narrow(EVERYTHING, cs), Narrow(EVERYTHING, ds);
    if a.lower.At? {
      var i :| 0 <= i < |cs| && a.lower == LowerOf(cs[i]);
      assert cs[i] in ds;
    }
    if a.upper.At? {
      var i :| 0 <= i < |cs| && a.upper == UpperOf(cs[i]);
      assert cs[i] in ds;
    }
  }

  /** The interval depends on which comparators a range lists, not on their order or repetition. */
  lemma OrderIsIrrelevant(cs: seq<Comparator>, ds: seq<Comparator>)
    requires forall c :: c in cs <==> c in ds
    ensures Narrow(EVERYTHING, cs) == Narrow(EVERYTHING, ds)
  {
    TightestIsUnique(cs, ds);
    TightestIsUnique(ds, cs);
  }

  // ----- when the intersection test is right -----

  lemma IntersectSymmetric(first: string, second: string)
    ensures RangesIntersect(first, second) == RangesIntersect(second, first)
  {
  }

  function Successor(v: Version): Version {
    v.(patch := v.patch + 1)
  }

  /** The two shapes of bounds the test takes for overlapping although no version lies between them:
      exclusive bounds at consecutive patch numbers, and an upper bound below the first version. */
  predicate Hollow(lower: Bound, upper: Bound) {
    upper.At? && !upper.inclusive &&
    match lower
    case Unset => upper.version == Version(0, 0, 0)
    case At(version, inclusive) => !inclusive && upper.version == Successor(version)
  }

  lemma BetweenBounds(lower: Bound, upper: Bound) returns (v: Version)
    requires Meets(lower, upper) && !Hollow(lower, upper)
    ensures AboveLower(lower, v) && BelowUpper(upper, v)
  {
    if lower.Unset? {
      v := if upper.At? && upper.inclusive then upper.version else Version(0, 0, 0);
    } else if upper.Unset? || !lower.inclusive {
      v := if upper.At? && upper.inclusive then upper.version else Successor(lower.version);
    } else {
      v := lower.version;
    }
  }

  lemma NothingBetween(lower: Bound, upper: Bound, v: Version)
    requires AboveLower(lower, v) && BelowUpper(upper, v)
    ensures Meets(lower, upper) && !Hollow(lower, upper)
  {
  }

  ghost predicate InBoth(first: Interval, second: Interval, v: Version) {
    Contains(first, v) && Contains(second, v)
  }

  /** The gate says yes exactly when some version satisfies both ranges or the merged bounds are hollow,
      and never both: it misses no compatible pair, and its only false yes is a hollow gap. */
  lemma IntersectsExactly(first: Interval, second: Interval)
    ensures var lower, upper := MaxLowerBound(first.lower, second.lower), MinUpperBound(first.upper, second.upper);
            && (IntervalsIntersect(first, second) <==> (exists v :: InBoth(first, second, v)) || Hollow(lower, upper))
            && !((exists v :: InBoth(first, second, v)) && Hollow(lower, upper))
  {
    var lower, upper := MaxLowerBound(first.lower, second.lower), MinUpperBound(first.upper, second.upper);
    forall v: Version
      ensures InBoth(first, second, v) <==> AboveLower(lower, v) && BelowUpper(upper, v)
      ensures InBoth(first, second, v) ==> Meets(lower, upper) && !Hollow(lower, upper)
    {
      MaxLowerIsConjunction(first.lower, second.lower, v);
      MinUpperIsConjunction(first.upper, second.upper, v);
      if InBoth(first, second, v) {
        NothingBetween(lower, upper, v);
      }
    }
    if Meets(lower, upper) && !Hollow(lower, upper) {
      var v := BetweenBounds(lower, upper);
      assert InBoth(first, second, v);
    }
  }

  /** The same for range texts: when the bounds are not hollow, the gate's answer is whether one version
      satisfies every comparator of both texts. */
  lemma GateIsExact(first: string, second: string)
    requires RangeInterval(first).Some? && RangeInterval(second).Some?
    ensures var a, b := RangeInterval(first).value, RangeInterval(second).value;
            var hollow := Hollow(MaxLowerBound(a.lower, b.lower), MinUpperBound(a.upper, b.upper));
            (RangesIntersect(first, second) <==> exists v :: SatisfiesBoth(first, second, v)) <==> !hollow
  {
    var a, b := RangeInterval(first).value, RangeInterval(second).value;
    IntersectsExactly(a, b);
    forall v: Version
      ensures SatisfiesBoth(first, second, v) <==> InBoth(a, b, v)
    {
      RangeContains(first, v);
      RangeContains(second, v);
    }
    if exists v :: InBoth(a, b, v) {
      var v :| InBoth(a, b, v);
      assert SatisfiesBoth(first, second, v);
    }
  }

  ghost predicate SatisfiesBoth(first: string, second: string, v: Version)
    requires Comparators(first).Some? && Comparators(second).Some?
  {
    && (forall i :: 0 <= i < |Comparators(first).value| ==> Admits(Comparators(first).value[i], v))
    && (forall i :: 0 <= i < |Comparators(second).value| ==> Admits(Comparators(second).value[i], v))
  }

  // ----- written ranges are read back -----

  function Decimal(n: nat): string {
    if n < 10 then [('0' as int + n) as char] else Decimal(n / 10) + [('0' as int + n % 10) as char]
  }

  lemma {:induction false} DecimalIsDigits(n: nat)
    ensures Decimal(n) != [] && forall i :: 0 <= i < |Decimal(n)| ==> IsDigit(Decimal(n)[i])
  {
    if n >= 10 {
      DecimalIsDigits(n / 10);
    }
  }

  lemma {:induction false} DecimalRoundTrip(n: nat)
    ensures IntPart(Decimal(n)) == Some(n)
  {
    DecimalIsDigits(n);
    var s := Decimal(n);
    var front := s[..|s| - 1];
    assert DigitOf(s[|s| - 1]) == n % 10;
    assert DigitsValue(s) == DigitsValue(front) * 10 + n % 10;
    if n < 10 {
      assert front == [];
    } else {
      assert front == Decimal(n / 10);
      DecimalIsDigits(n / 10);
      DecimalRoundTrip(n / 10);
    }
  }

  function VersionText(v: Version): string {
    Decimal(v.major) + "." + (Decimal(v.minor) + "." + Decimal(v.patch))
  }

  lemma {:induction false} CoreConcat(core: string, suffix: string)
    requires '-' !in core && '+' !in core
    requires suffix != [] ==> suffix[0] == '-' || suffix[0] == '+'
    ensures Core(core + suffix) == core
  {
    if core == [] {
      assert core + suffix == suffix;
    } else {
      assert (core + suffix)[1..] == core[1..] + suffix;
      CoreConcat(core[1..], suffix);
    }
  }

  lemma VersionRoundTrip(v: Version, suffix: string)
    requires suffix != [] ==> suffix[0] == '-' || suffix[0] == '+'
    ensures SemVer(VersionText(v) + suffix) == Some(v)
  {
    var a, b, c := Decimal(v.major), Decimal(v.minor), Decimal(v.patch);
    DecimalIsDigits(v.major);
    DecimalIsDigits(v.minor);
    DecimalIsDigits(v.patch);
    CoreConcat(VersionText(v), suffix);
    SplitThree(a, b, c);
    DecimalRoundTrip(v.major);
    DecimalRoundTrip(v.minor);
    DecimalRoundTrip(v.patch);
  }

  lemma SplitThree(a: string, b: string, c: string)
    requires '.' !in a && '.' !in b && '.' !in c
    ensures Split(a + "." + (b + "." + c), '.') == [a, b, c]
  {
    assert a + "." + (b + "." + c) == a + ['.'] + (b + ['.'] + c);
    SplitConcat(a, '.', b + ['.'] + c);
    SplitConcat(b, '.', c);
    SplitSingle(c, '.');
  }

  /** The accepted spellings of each comparator sign. */
  predicate Spells(sign: string, op: Op) {
    match op
    case Ge => sign == ">="
    case Gt => sign == ">"
    case Le => sign == "<="
    case Lt => sign == "<"
    case Eq => sign == "" || sign == "=" || sign == "=="
  }

  predicate IsSuffix(suffix: string) {
    (suffix != [] ==> suffix[0] == '-' || suffix[0] == '+') && forall i :: 0 <= i < |suffix| ==> !IsSpace(suffix[i])
  }

  lemma SignIsRead(sign: string, op: Op, rest: string)
    requires Spells(sign, op) && rest != [] && rest[0] != '='
    requires sign == "" ==> !StartsWith(rest, ">") && !StartsWith(rest, "<")
    ensures SplitOp(sign + rest) == (op, if sign == "" then rest else Trimmed(rest))
  {
    var part := sign + rest;
    if sign == "" {
      assert part == rest;
    } else if |sign| == 1 {
      assert part[..1] == sign && part[1..] == rest;
      assert part[1] == rest[0];
      assert |part| >= 2 && part[..2] == sign + [rest[0]];
    } else {
      assert part[..2] == sign && part[2..] == rest;
    }
  }

  lemma VersionIsBare(v: Version, suffix: string)
    requires IsSuffix(suffix)
    ensures var text := VersionText(v) + suffix;
            text != [] && Bare(text) && IsDigit(text[0])
  {
    var text := VersionText(v) + suffix;
    DecimalIsDigits(v.major);
    DecimalIsDigits(v.patch);
    assert text[0] == Decimal(v.major)[0];
    if suffix == [] {
      assert text[|text| - 1] == Decimal(v.patch)[|Decimal(v.patch)| - 1];
    } else {
      assert text[|text| - 1] == suffix[|suffix| - 1];
    }
  }

  /** What is left of a part once the surrounding spaces are gone. */
  lemma SignedIsBare(sign: string, op: Op, between: string, text: string)
    requires Spells(sign, op) && AllSpace(between) && (sign == "" ==> between == "")
    requires text != [] && Bare(text)
    ensures var part := sign + (between + text);
            part != [] && Bare(part)
  {
    var part := sign + (between + text);
    assert part[|part| - 1] == text[|text| - 1];
    assert part[0] == if sign != "" then sign[0] else text[0];
  }

  lemma SignedSplits(sign: string, op: Op, between: string, text: string)
    requires Spells(sign, op) && AllSpace(between) && (sign == "" ==> between == "")
    requires text != [] && Bare(text) && IsDigit(text[0])
    ensures SplitOp(sign + (between + text)) == (op, text)
  {
    var rest := between + text;
    assert rest[0] == if between != "" then between[0] else text[0];
    SignIsRead(sign, op, rest);
    if sign == "" {
      assert rest == text;
    } else {
      TrimSurrounded(between, text, "");
      assert between + text + "" == rest;
    }
  }

  /** A comparator is read from its sign and version however they are spaced, and whatever
      pre-release or build suffix follows the version. */
  lemma PartRoundTrip(c: Comparator, sign: string, suffix: string, before: string, between: string, after: string)
    requires Spells(sign, c.op) && IsSuffix(suffix)
    requires AllSpace(before) && AllSpace(between) && AllSpace(after) && (sign == "" ==> between == "")
    ensures ReadPart(before + (sign + (between + (VersionText(c.version) + suffix))) + after) == Some(c)
  {
    var text := VersionText(c.version) + suffix;
    var part := sign + (between + text);
    VersionIsBare(c.version, suffix);
    SignedIsBare(sign, c.op, between, text);
    TrimSurrounded(before, part, after);
    SignedSplits(sign, c.op, between, text);
    VersionRoundTrip(c.version, suffix);
  }

  /** Texts of comparators joined by commas. */
  function Join(parts: seq<string>): string
    requires parts != []
  {
    if |parts| == 1 then parts[0] else parts[0] + [','] + Join(parts[1..])
  }

  lemma {:induction false} SplitJoin(parts: seq<string>)
    requires parts != [] && forall i :: 0 <= i < |parts| ==> ',' !in parts[i]
    ensures Split(Join(parts), ',') == parts
  {
    if |parts| == 1 {
      SplitSingle(parts[0], ',');
    } else {
      SplitJoin(parts[1..]);
      SplitConcat(parts[0], ',', Join(parts[1..]));
      assert parts == [parts[0]] + parts[1..];
    }
  }

  /** A range is invalid exactly when one of its parts is; there is always at least one part. */
  lemma {:induction false} ReadPartsOf(parts: seq<string>)
    ensures ReadParts(parts).Some? <==> forall i :: 0 <= i < |parts| ==> ReadPart(parts[i]).Some?
    ensures ReadParts(parts).Some? ==>
              |ReadParts(parts).value| == |parts| &&
              forall i :: 0 <= i < |parts| ==> ReadParts(parts).value[i] == ReadPart(parts[i]).value
  {
    if parts != [] {
      ReadPartsOf(parts[1..]);
      assert forall i :: 1 <= i < |parts| ==> parts[i] == parts[1..][i - 1];
    }
  }

  /** Joining readable parts gives a valid range that means all of them at once. */
  lemma JoinedRange(parts: seq<string>, v: Version)
    requires parts != [] && forall i :: 0 <= i < |parts| ==> ',' !in parts[i]
    ensures RangeInterval(Join(parts)).Some? <==> forall i :: 0 <= i < |parts| ==> ReadPart(parts[i]).Some?
    ensures RangeInterval(Join(parts)).Some? ==>
              (Contains(RangeInterval(Join(parts)).value, v) <==>
               forall i :: 0 <= i < |parts| ==> Admits(ReadPart(parts[i]).value, v))
  {
    SplitJoin(parts);
    ReadPartsOf(parts);
    if RangeInterval(Join(parts)).Some? {
      RangeContains(Join(parts), v);
    }
  }

  lemma NarrowByOne(c: Comparator)
    ensures Narrow(EVERYTHING, [c]) == Apply(EVERYTHING, c)
  {
    var cs := [c];
    assert cs[..|cs| - 1] == [] && cs[|cs| - 1] == c;
  }

  lemma SingleComparator(text: string, sign: string, c: Comparator)
    requires Spells(sign, c.op) && ',' !in text && text == sign + VersionText(c.version)
    ensures Comparators(text) == Some([c])
    ensures RangeInterval(text) == Some(Apply(EVERYTHING, c))
  {
    var version := VersionText(c.version);
    assert "" + (sign + ("" + (version + ""))) + "" == text;
    PartRoundTrip(c, sign, "", "", "", "");
    SplitSingle(text, ',');
    ReadPartsOf([text]);
    assert ReadParts([text]).value == [c];
    NarrowByOne(c);
  }

  lemma {:induction false} DigitsAreNotCommas(n: nat)
    ensures ',' !in Decimal(n)
  {
    if n >= 10 {
      DigitsAreNotCommas(n / 10);
    }
  }

  /** For every version, the gate calls "greater than it" and "less than the next patch" compatible,
      although no version satisfies both. */
  lemma HollowFamily(v: Version)
    ensures var first, second := ">" + VersionText(v), "<" + VersionText(Successor(v));
            && RangesIntersect(first, second)
            && Comparators(first).Some? && Comparators(second).Some?
            && !exists u :: SatisfiesBoth(first, second, u)
  {
    var first, second := ">" + VersionText(v), "<" + VersionText(Successor(v));
    DigitsAreNotCommas(v.major);
    DigitsAreNotCommas(v.minor);
    DigitsAreNotCommas(v.patch);
    DigitsAreNotCommas(v.patch + 1);
    SingleComparator(first, ">", Comparator(Gt, v));
    SingleComparator(second, "<", Comparator(Lt, Successor(v)));
    var a, b := Interval(At(v, false), Unset), Interval(Unset, At(Successor(v), false));
    assert RangeInterval(first) == Some(a) && RangeInterval(second) == Some(b);
    IntersectsExactly(a, b);
    forall u: Version
      ensures !SatisfiesBoth(first, second, u)
    {
      RangeContains(first, u);
      RangeContains(second, u);
      assert !InBoth(a, b, u);
    }
  }

  /** For every version, the gate calls "less than it" and "less than the first version" compatible,
      although nothing is less than the first version. */
  lemma BelowFirstFamily(v: Version)
    ensures var first, second := "<" + VersionText(v), "<" + VersionText(Version(0, 0, 0));
            && RangesIntersect(first, second)
            && Comparators(first).Some? && Comparators(second).Some?
            && !exists u :: SatisfiesBoth(first, second, u)
  {
    var least := Version(0, 0, 0);
    var first, second := "<" + VersionText(v), "<" + VersionText(least);
    DigitsAreNotCommas(v.major);
    DigitsAreNotCommas(v.minor);
    DigitsAreNotCommas(v.patch);
    DigitsAreNotCommas(0);
    SingleComparator(first, "<", Comparator(Lt, v));
    SingleComparator(second, "<", Comparator(Lt, least));
    var b := Interval(Unset, At(least, false));
    assert RangeInterval(first) == Some(Interval(Unset, At(v, false))) && RangeInterval(second) == Some(b);
    forall u: Version
      ensures !SatisfiesBoth(first, second, u)
    {
      RangeContains(second, u);
      assert !Contains(b, u);
    }
  }
}
