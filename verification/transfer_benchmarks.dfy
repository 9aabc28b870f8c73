/** The transfer measurements of a run, grouped by topology and transport (transfer_benchmarks of
    build_diagnostics_report.py). */
module TransferBenchmarks {
  import opened StableSort
  import opened Wrappers

  datatype Key = Key(topology: string, transport: string)

  /** The number of the image, one to eight. */
  type Slot = i: nat | 1 <= i <= 8 witness 1

  /** A case of a job. A measurement is absent when it is no finite number that is not negative. */
  datatype Case =
    | Unrelated
    | Benchmark(key: Key, index: Slot, result: string, errors: seq<string>,
                duration: Option<real>, repeat: Option<real>, bytes: Option<real>)

  datatype Sample = Sample(
    index: Slot,
    result: string,
    errors: seq<string>,
    duration: Option<real>,
    repeat: Option<real>,
    bytes: Option<real>)

  datatype Measure = Duration | Repeat | Bytes

  datatype Status = Pass | Skip | Incomplete

  datatype Row = Row(
    key: Key,
    samples: seq<Sample>,
    result: Status,
    first: Option<real>,
    median: Option<real>,
    min: Option<real>,
    max: Option<real>,
    repeatMedian: Option<real>,
    nextSeven: Option<real>,
    total: Option<real>,
    perImage: Option<real>,
    repeatTotal: Option<real>,
    repeatPerImage: Option<real>,
    bytesTotal: Option<real>)

  const PASS := "pass"
  const SKIP := "skip"

  // ----- grouping -----

  /** Only a case that passed contributes its measurements. */
  function SampleOf(c: Case): Sample
    requires c.Benchmark?
  {
    if c.result == PASS then Sample(c.index, c.result, c.errors, c.duration, c.repeat, c.bytes)
    else Sample(c.index, c.result, c.errors, None, None, None)
  }

  /** The samples of a group, in the order of the cases. */
  function Of(cases: seq<Case>, key: Key): seq<Sample> {
    if cases == [] then []
    else
      var last := cases[|cases| - 1];
      Of(cases[..|cases| - 1], key) + (if last.Benchmark? && last.key == key then [SampleOf(last)] else [])
  }

  /** The groups in the order of their first cases. */
  function Keys(cases: seq<Case>): seq<Key> {
    if cases == [] then []
    else
      var last, before := cases[|cases| - 1], Keys(cases[..|cases| - 1]);
      if last.Benchmark? && last.key !in before then before + [last.key] else before
  }

  method Group(cases: seq<Case>) returns (keys: seq<Key>, groups: map<Key, seq<Sample>>)
    ensures keys == Keys(cases)
    ensures forall k :: k in groups <==> k in keys
    ensures forall k :: k in groups ==> groups[k] == Of(cases, k)
  {
    keys, groups := [], map[];
    assert cases[..|cases|] == cases;
    for i := 0 to |cases|
      invariant keys == Keys(cases[..i])
      invariant forall k :: k in groups <==> k in keys
      invariant forall k :: Of(cases[..i], k) == if k in groups then groups[k] else []
    {
      assert cases[..i + 1][..i] == cases[..i];
      var c := cases[i];
      if c.Benchmark? {
        if c.key !in groups {
          keys, groups := keys + [c.key], groups[c.key := []];
        }
        groups := groups[c.key := groups[c.key] + [SampleOf(c)]];
      }
    }
  }

  predicate IsSuperseded(key: Key, keys: seq<Key>) {
    key == Key("remote-route-disk", "http") && Key("remote-http", "http") in keys
  }

  // ----- one group -----

  predicate IndexBefore(a: Sample, b: Sample) {
    a.index < b.index
  }

  lemma IndexOrders()
    ensures IsWeakOrder(IndexBefore)
  {
  }

  /** The images are all there, each once and in order. */
  predicate Complete(sorted: seq<Sample>) {
    |sorted| == 8 && forall i :: 0 <= i < 8 ==> sorted[i].index == i + 1
  }

  function Value(s: Sample, what: Measure): Option<real> {
    match what
    case Duration => s.duration
    case Repeat => s.repeat
    case Bytes => s.bytes
  }

  predicate AllMeasured(samples: seq<Sample>, what: Measure) {
    forall i :: 0 <= i < |samples| ==> Value(samples[i], what).Some?
  }

  /** The sum of the measurements that are present. */
  function Sum(samples: seq<Sample>, what: Measure): real {
    if samples == [] then 0.0
    else
      var v := Value(samples[|samples| - 1], what);
      Sum(samples[..|samples| - 1], what) + (if v.Some? then v.value else 0.0)
  }

  function Least(samples: seq<Sample>): real
    requires samples != [] && AllMeasured(samples, Duration)
  {
    var last := samples[|samples| - 1].duration.value;
    if |samples| == 1 then last
    else
      assert forall i :: 0 <= i < |samples| - 1 ==> Value(samples[i], Duration).Some?;
      var m := Least(samples[..|samples| - 1]);
      if last < m then last else m
  }

  function Greatest(samples: seq<Sample>): real
    requires samples != [] && AllMeasured(samples, Duration)
  {
    var last := samples[|samples| - 1].duration.value;
    if |samples| == 1 then last
    else
      assert forall i :: 0 <= i < |samples| - 1 ==> Value(samples[i], Duration).Some?;
      var m := Greatest(samples[..|samples| - 1]);
      if last > m then last else m
  }

  function Values(samples: seq<Sample>, what: Measure): seq<real>
    requires AllMeasured(samples, what)
  {
    seq(|samples|, i requires 0 <= i < |samples| => Value(samples[i], what).value)
  }

  predicate Smaller(a: real, b: real) {
    a < b
  }

  /** statistics.median of eight values. */
  function Median(samples: seq<Sample>, what: Measure): real
    requires |samples| == 8 && AllMeasured(samples, what)
  {
    SortKeepsLength(Smaller, Values(samples, what));
    var values := Sort(Smaller, Values(samples, what));
    (values[3] + values[4]) / 2.0
  }

  /** The duration of the first sample of image one. */
  function FirstImage(samples: seq<Sample>): Option<real> {
    if samples == [] then None else if samples[0].index == 1 then samples[0].duration else FirstImage(samples[1..])
  }

  function Summary(key: Key, samples: seq<Sample>): Row {
    SummaryOf(key, Sort(IndexBefore, samples))
  }

  /** The row, from the sorted samples alone. */
  function SummaryOf(key: Key, sorted: seq<Sample>): Row {
    var measured := Complete(sorted) && AllMeasured(sorted, Duration);
    var repeated := Complete(sorted) && AllMeasured(sorted, Repeat);
    var total := Sum(sorted, Duration);
    var first := FirstImage(sorted);
    Row(
      key, sorted,
      if measured then Pass
      else if forall i :: 0 <= i < |sorted| ==> sorted[i].result == SKIP then Skip
      else Incomplete,
      first,
      if measured then Some(Median(sorted, Duration)) else None,
      if measured then Some(Least(sorted)) else None,
      if measured then Some(Greatest(sorted)) else None,
      if repeated then Some(Median(sorted, Repeat)) else None,
      if measured && first.Some? then Some((total - first.value) / 7.0) else None,
      if measured then Some(total) else None,
      if measured then Some(total / 8.0) else None,
      if repeated then Some(Sum(sorted, Repeat)) else None,
      if repeated then Some(Sum(sorted, Repeat) / 8.0) else None,
      if measured && AllMeasured(sorted, Bytes) then Some(Sum(sorted, Bytes)) else None)
  }

  /** The rows of the groups that are not superseded. */
  function Rows(cases: seq<Case>, keys: seq<Key>, all: seq<Key>): seq<Row> {
    if keys == [] then []
    else
      var last := keys[|keys| - 1];
      Rows(cases, keys[..|keys| - 1], all) + (if IsSuperseded(last, all) then [] else [Summary(last, Of(cases, last))])
  }

  lemma RowsStep(cases: seq<Case>, keys: seq<Key>, i: nat)
    requires i < |keys|
    ensures IsSuperseded(keys[i], keys) ==> Rows(cases, keys[..i + 1], keys) == Rows(cases, keys[..i], keys)
    ensures !IsSuperseded(keys[i], keys) ==>
              Rows(cases, keys[..i + 1], keys) == Rows(cases, keys[..i], keys) + [Summary(keys[i], Of(cases, keys[i]))]
  {
    assert keys[..i + 1][..i] == keys[..i];
  }

  method Benchmarks(cases: seq<Case>) returns (rows: seq<Row>)
    ensures rows == Rows(cases, Keys(cases), Keys(cases))
  {
    var keys, groups := Group(cases);
    rows := [];
    assert keys[..|keys|] == keys;
    for i := 0 to |keys|
      invariant rows == Rows(cases, keys[..i], keys)
    {
      var key := keys[i];
      assert key in groups;
      RowsStep(cases, keys, i);
      if IsSuperseded(key, keys) {
        continue;
      }
      rows := rows + [Summary(key, groups[key])];
    }
  }

  // ----- the groups hold every case -----

  function SamplesIn(cases: seq<Case>, keys: seq<Key>): nat {
    if keys == [] then 0 else SamplesIn(cases, keys[..|keys| - 1]) + |Of(cases, keys[|keys| - 1])|
  }

  function Matching(cases: seq<Case>): nat {
    if cases == [] then 0 else Matching(cases[..|cases| - 1]) + (if cases[|cases| - 1].Benchmark? then 1 else 0)
  }

  ghost predicate Distinct(keys: seq<Key>) {
    forall i, j :: 0 <= i < j < |keys| ==> keys[i] != keys[j]
  }

  lemma {:induction false} KeysAreDistinct(cases: seq<Case>)
    ensures Distinct(Keys(cases))
  {
    if cases != [] {
      KeysAreDistinct(cases[..|cases| - 1]);
    }
  }

  /** One more case lands in its own group, if that is among the keys, and in no other. */
  lemma {:induction false} OneMoreCase(cases: seq<Case>, c: Case, keys: seq<Key>)
    requires Distinct(keys)
    ensures SamplesIn(cases + [c], keys) == SamplesIn(cases, keys) + (if c.Benchmark? && c.key in keys then 1 else 0)
  {
    if keys != [] {
      var n := |keys| - 1;
      assert (cases + [c])[..|cases|] == cases;
      OneMoreCase(cases, c, keys[..n]);
      assert keys == keys[..n] + [keys[n]];
    }
  }

  lemma {:induction false} NewGroupIsEmpty(cases: seq<Case>, key: Key)
    requires key !in Keys(cases)
    ensures Of(cases, key) == []
  {
    if cases != [] {
      NewGroupIsEmpty(cases[..|cases| - 1], key);
    }
  }

  /** Every matching case is in exactly one group. */
  lemma {:induction false} GroupsPartition(cases: seq<Case>)
    ensures SamplesIn(cases, Keys(cases)) == Matching(cases)
  {
    if cases != [] {
      var n := |cases| - 1;
      var before, c, keys := cases[..n], cases[n], Keys(cases[..n]);
      assert cases == before + [c];
      GroupsPartition(before);
      KeysAreDistinct(before);
      OneMoreCase(before, c, keys);
      if c.Benchmark? && c.key !in keys {
        NewGroupIsEmpty(before, c.key);
        assert Of(before + [c], c.key) == [SampleOf(c)];
        assert (keys + [c.key])[..|keys|] == keys;
      }
    }
  }

  // ----- what a passed group is -----

  function Count(samples: seq<Sample>, index: nat): nat {
    if samples == [] then 0
    else Count(samples[..|samples| - 1], index) + (if samples[|samples| - 1].index == index then 1 else 0)
  }

  /** Each image from one to m occurs once. */
  ghost predicate EachOnce(samples: seq<Sample>, m: nat) {
    forall i: nat :: 1 <= i <= m ==> Count(samples, i) == 1
  }

  lemma {:induction false} CountMultiset(samples: seq<Sample>, index: nat)
    ensures Count(samples, index) == 0 <==> forall s :: s in samples ==> s.index != index
  {
    if samples != [] {
      CountMultiset(samples[..|samples| - 1], index);
      assert samples == samples[..|samples| - 1] + [samples[|samples| - 1]];
    }
  }

  lemma {:induction false} CountFront(s: Sample, rest: seq<Sample>, index: nat)
    ensures Count([s] + rest, index) == (if s.index == index then 1 else 0) + Count(rest, index)
  {
    if rest != [] {
      var n := |rest| - 1;
      assert ([s] + rest)[..|rest|] == [s] + rest[..n];
      CountFront(s, rest[..n], index);
    } else {
      assert ([s] + rest)[..0] == [];
    }
  }

  lemma {:induction false} SumFront(s: Sample, rest: seq<Sample>, what: Measure)
    ensures Sum([s] + rest, what) == (if Value(s, what).Some? then Value(s, what).value else 0.0) + Sum(rest, what)
  {
    if rest != [] {
      var n := |rest| - 1;
      assert ([s] + rest)[..|rest|] == [s] + rest[..n];
      SumFront(s, rest[..n], what);
    } else {
      assert ([s] + rest)[..0] == [];
    }
  }

  lemma {:induction false} InsertCounts(s: Sample, rest: seq<Sample>, index: nat, what: Measure)
    ensures Count(Insert(IndexBefore, s, rest), index) == (if s.index == index then 1 else 0) + Count(rest, index)
    ensures Sum(Insert(IndexBefore, s, rest), what)
            == (if Value(s, what).Some? then Value(s, what).value else 0.0) + Sum(rest, what)
  {
    CountFront(s, rest, index);
    SumFront(s, rest, what);
    if rest != [] && !IndexBefore(s, rest[0]) {
      InsertCounts(s, rest[1..], index, what);
      CountFront(rest[0], Insert(IndexBefore, s, rest[1..]), index);
      SumFront(rest[0], Insert(IndexBefore, s, rest[1..]), what);
      assert [rest[0]] + rest[1..] == rest;
      CountFront(rest[0], rest[1..], index);
      SumFront(rest[0], rest[1..], what);
    }
  }

  /** Sorting changes neither how often an image occurs nor a sum. */
  lemma {:induction false} SortKeepsSums(samples: seq<Sample>, index: nat, what: Measure)
    ensures Count(Sort(IndexBefore, samples), index) == Count(samples, index)
    ensures Sum(Sort(IndexBefore, samples), what) == Sum(samples, what)
  {
    if samples != [] {
      var n := |samples| - 1;
      SortKeepsSums(samples[..n], index, what);
      InsertCounts(samples[n], Sort(IndexBefore, samples[..n]), index, what);
    }
  }

  /** The numbers one to m, each once and in order. */
  predicate Numbered(samples: seq<Sample>, m: nat) {
    |samples| == m && forall i :: 0 <= i < m ==> samples[i].index == i + 1
  }

  lemma {:induction false} NumberedCounts(samples: seq<Sample>, m: nat, index: nat)
    requires Numbered(samples, m)
    ensures Count(samples, index) == if 1 <= index <= m then 1 else 0
  {
    if m > 0 {
      NumberedCounts(samples[..m - 1], m - 1, index);
    }
  }

  lemma {:induction false} CountsNumber(samples: seq<Sample>, m: nat)
    requires InOrder(IndexBefore, samples) && EachOnce(samples, m)
    requires forall s :: s in samples ==> s.index <= m
    ensures Numbered(samples, m)
  {
    assert m > 0 ==> Count(samples, m) == 1;
    if samples != [] {
      var n := |samples| - 1;
      assert samples[n] in samples;
      LastIsGreatest(samples, m);
      DropLast(samples, m);
      CountsNumber(samples[..n], m - 1);
    }
  }

  lemma LastIsGreatest(samples: seq<Sample>, m: nat)
    requires InOrder(IndexBefore, samples) && samples != []
    requires Count(samples, m) > 0 && forall s :: s in samples ==> s.index <= m
    ensures samples[|samples| - 1].index == m
  {
    CountMultiset(samples, m);
    var s :| s in samples && s.index == m;
    var k :| 0 <= k < |samples| && samples[k] == s;
    assert samples[|samples| - 1] in samples;
    assert k == |samples| - 1 || !IndexBefore(samples[|samples| - 1], samples[k]);
  }

  lemma DropLast(samples: seq<Sample>, m: nat)
    requires samples != [] && m > 0 && samples[|samples| - 1].index == m
    requires EachOnce(samples, m) && forall s :: s in samples ==> s.index <= m
    ensures EachOnce(samples[..|samples| - 1], m - 1)
    ensures forall s :: s in samples[..|samples| - 1] ==> s.index <= m - 1
  {
    var rest := samples[..|samples| - 1];
    assert Count(samples, m) == 1;
    CountMultiset(rest, m);
    forall s | s in rest ensures s.index <= m - 1 {
      assert s in samples;
    }
    forall i: nat | 1 <= i <= m - 1 ensures Count(rest, i) == 1 {
      assert Count(samples, i) == 1;
    }
  }

  /** A group is complete exactly when every image occurs exactly once, in whatever order. */
  lemma CompleteExactly(samples: seq<Sample>)
    ensures Complete(Sort(IndexBefore, samples)) <==> EachOnce(samples, 8)
  {
    var sorted := Sort(IndexBefore, samples);
    IndexOrders();
    SortOrders(IndexBefore, samples);
    if Complete(sorted) {
      forall i: nat | 1 <= i <= 8 ensures Count(samples, i) == 1 {
        NumberedCounts(sorted, 8, i);
        SortKeepsSums(samples, i, Duration);
      }
    } else if EachOnce(samples, 8) {
      forall i: nat | 1 <= i <= 8 ensures Count(sorted, i) == 1 {
        SortKeepsSums(samples, i, Duration);
      }
      CountsNumber(sorted, 8);
    }
  }

  lemma SortedMembers(samples: seq<Sample>)
    ensures forall s :: s in Sort(IndexBefore, samples) <==> s in samples
  {
    SortPermutes(IndexBefore, samples);
    forall s ensures s in Sort(IndexBefore, samples) <==> s in samples {
      assert s in multiset(Sort(IndexBefore, samples)) <==> s in multiset(samples);
    }
  }

  lemma {:induction false} SamplesPassed(cases: seq<Case>, key: Key, s: Sample)
    requires s in Of(cases, key) && (s.duration.Some? || s.repeat.Some?)
    ensures s.result == PASS
  {
    var n := |cases| - 1;
    if s in Of(cases[..n], key) {
      SamplesPassed(cases[..n], key, s);
    }
  }

  /** A group passes exactly when each of the eight images occurs once and was measured, which only
      a passed case is. */
  lemma PassExactly(cases: seq<Case>, key: Key)
    ensures var samples := Of(cases, key);
            Summary(key, samples).result.Pass? <==>
              && EachOnce(samples, 8)
              && (forall s :: s in samples ==> s.result == PASS && s.duration.Some?)
  {
    var samples := Of(cases, key);
    var sorted := Sort(IndexBefore, samples);
    CompleteExactly(samples);
    SortedMembers(samples);
    if AllMeasured(sorted, Duration) {
      forall s | s in samples ensures s.result == PASS && s.duration.Some? {
        var i :| 0 <= i < |sorted| && sorted[i] == s;
        assert Value(sorted[i], Duration).Some?;
        SamplesPassed(cases, key, s);
      }
    }
    if forall s :: s in samples ==> s.result == PASS && s.duration.Some? {
      forall i | 0 <= i < |sorted| ensures Value(sorted[i], Duration).Some? {
        assert sorted[i] in samples;
      }
    }
  }

  // ----- what the totals are -----

  lemma {:induction false} Bounds(samples: seq<Sample>, i: nat)
    requires i < |samples| && AllMeasured(samples, Duration)
    ensures Least(samples) <= samples[i].duration.value <= Greatest(samples)
  {
    var n := |samples| - 1;
    if i < n {
      assert forall j :: 0 <= j < n ==> Value(samples[j], Duration).Some?;
      Bounds(samples[..n], i);
    }
  }

  function Times(n: nat, x: real): real {
    if n == 0 then 0.0 else Times(n - 1, x) + x
  }

  lemma EightTimes(x: real)
    ensures Times(8, x) == 8.0 * x
  {
    assert Times(1, x) == x;
    assert Times(3, x) == 3.0 * x;
    assert Times(5, x) == 5.0 * x;
    assert Times(7, x) == 7.0 * x;
  }

  lemma {:induction false} SumBounds(samples: seq<Sample>, least: real, greatest: real)
    requires AllMeasured(samples, Duration)
    requires forall i :: 0 <= i < |samples| ==> least <= samples[i].duration.value <= greatest
    ensures Times(|samples|, least) <= Sum(samples, Duration) <= Times(|samples|, greatest)
  {
    if samples != [] {
      var n := |samples| - 1;
      assert forall j :: 0 <= j < n ==> Value(samples[j], Duration).Some?;
      SumBounds(samples[..n], least, greatest);
      assert Value(samples[n], Duration).Some?;
    }
  }

  lemma MedianBounds(samples: seq<Sample>, least: real, greatest: real)
    requires |samples| == 8 && AllMeasured(samples, Duration)
    requires forall i :: 0 <= i < |samples| ==> least <= samples[i].duration.value <= greatest
    ensures least <= Median(samples, Duration) <= greatest
  {
    var values := Values(samples, Duration);
    var sorted := Sort(Smaller, values);
    SortKeepsLength(Smaller, values);
    SortPermutes(Smaller, values);
    forall i | 0 <= i < 8 ensures least <= sorted[i] <= greatest {
      assert sorted[i] in multiset(sorted);
      assert sorted[i] in values;
      var j :| 0 <= j < 8 && values[j] == sorted[i];
      assert values[j] == Value(samples[j], Duration).value;
    }
  }

  /** Totals exist exactly for passed groups; in exact arithmetic they are sums over the group's cases, and
      the averages and the median lie between the least and the greatest duration. */
  lemma TotalsOfPassed(cases: seq<Case>, key: Key)
    ensures var row := Summary(key, Of(cases, key));
            && (row.total.Some? <==> row.result.Pass?)
            && (row.result.Pass? ==>
                  && row.total.value == Sum(Of(cases, key), Duration)
                  && row.perImage.Some? && 8.0 * row.perImage.value == row.total.value
                  && row.first.Some? && row.nextSeven.Some?
                  && row.first.value + 7.0 * row.nextSeven.value == row.total.value
                  && row.min.Some? && row.max.Some? && row.min.value <= row.perImage.value <= row.max.value
                  && row.median.Some? && row.min.value <= row.median.value <= row.max.value)
  {
    var samples := Of(cases, key);
    var sorted := Sort(IndexBefore, samples);
    if Complete(sorted) && AllMeasured(sorted, Duration) {
      SortKeepsSums(samples, 0, Duration);
      assert Value(sorted[0], Duration).Some?;
      forall i | 0 <= i < |sorted| ensures Least(sorted) <= sorted[i].duration.value <= Greatest(sorted) {
        Bounds(sorted, i);
      }
      SumBounds(sorted, Least(sorted), Greatest(sorted));
      MedianBounds(sorted, Least(sorted), Greatest(sorted));
      EightTimes(Least(sorted));
      EightTimes(Greatest(sorted));
    }
  }

  /** Which groups the report shows. */
  lemma {:induction false} RowsShow(cases: seq<Case>, keys: seq<Key>, all: seq<Key>, row: Row)
    ensures row in Rows(cases, keys, all) <==>
            row.key in keys && !IsSuperseded(row.key, all) && row == Summary(row.key, Of(cases, row.key))
  {
    if keys != [] {
      RowsShow(cases, keys[..|keys| - 1], all, row);
      assert keys == keys[..|keys| - 1] + [keys[|keys| - 1]];
    }
  }

  // ----- the order of the cases -----

  lemma {:induction false} OfConcat(a: seq<Case>, b: seq<Case>, key: Key)
    ensures Of(a + b, key) == Of(a, key) + Of(b, key)
  {
    if b == [] {
      assert a + b == a;
    } else {
      var n := |b| - 1;
      assert (a + b)[..|a + b| - 1] == a + b[..n];
      OfConcat(a, b[..n], key);
    }
  }

  /** A group holds the same samples whatever the order of the cases. */
  lemma {:induction false} OfReordered(cases: seq<Case>, others: seq<Case>, key: Key)
    requires multiset(cases) == multiset(others)
    ensures multiset(Of(cases, key)) == multiset(Of(others, key))
  {
    if cases == [] {
      assert |multiset(others)| == 0;
    } else {
      var n := |cases| - 1;
      var c := cases[n];
      assert cases == cases[..n] + [c];
      var k := TakeLast(cases, others);
      var a, b := others[..k], others[k + 1..];
      assert others == a + ([c] + b);
      OfReordered(cases[..n], a + b, key);
      OfConcat(a, [c] + b, key);
      OfConcat([c], b, key);
      OfConcat(a, b, key);
      OfConcat(cases[..n], [c], key);
    }
  }

  /** The samples one to m are determined by which they are. */
  lemma NumberedUnique(a: seq<Sample>, b: seq<Sample>, m: nat)
    requires Numbered(a, m) && Numbered(b, m) && forall s :: s in a ==> s in b
    ensures a == b
  {
    forall i | 0 <= i < m ensures a[i] == b[i] {
      assert a[i] in b;
      var j :| 0 <= j < m && b[j] == a[i];
      assert j + 1 == i + 1;
    }
  }

  /** The whole summary of a complete group, and so of every passed one, is the same for every order of the
      cases: its samples are sorted into one and the same list, from which all figures are computed. */
  lemma OrderDoesNotMatter(cases: seq<Case>, others: seq<Case>, key: Key)
    requires multiset(cases) == multiset(others) && EachOnce(Of(cases, key), 8)
    ensures Sort(IndexBefore, Of(cases, key)) == Sort(IndexBefore, Of(others, key))
    ensures Summary(key, Of(cases, key)) == Summary(key, Of(others, key))
  {
    var mine, theirs := Of(cases, key), Of(others, key);
    OfReordered(cases, others, key);
    SameSorted(mine, theirs);
  }

  lemma SameSorted(mine: seq<Sample>, theirs: seq<Sample>)
    requires multiset(mine) == multiset(theirs) && EachOnce(mine, 8)
    ensures Sort(IndexBefore, mine) == Sort(IndexBefore, theirs)
  {
    var a, b := Sort(IndexBefore, mine), Sort(IndexBefore, theirs);
    CompleteExactly(mine);
    IndexOrders();
    SortOrders(IndexBefore, theirs);
    SortPermutes(IndexBefore, mine);
    SortPermutes(IndexBefore, theirs);
    assert multiset(a) == multiset(b);
    assert |a| == |multiset(a)| && |b| == |multiset(b)|;
    forall s ensures s in a <==> s in b {
      assert s in multiset(a) <==> s in multiset(b);
    }
    forall i: nat | 1 <= i <= 8 ensures Count(b, i) == 1 {
      NumberedCounts(a, 8, i);
      CountOfMultiset(a, b, i);
    }
    CountsNumber(b, 8);
    NumberedUnique(a, b, 8);
  }

  lemma {:induction false} CountOfMultiset(a: seq<Sample>, b: seq<Sample>, index: nat)
    requires multiset(a) == multiset(b)
    ensures Count(a, index) == Count(b, index)
  {
    if a == [] {
      assert |multiset(b)| == 0;
    } else {
      var n := |a| - 1;
      var k := TakeLast(a, b);
      assert b == b[..k] + ([b[k]] + b[k + 1..]);
      CountOfMultiset(a[..n], b[..k] + b[k + 1..], index);
      CountConcat(b[..k], [b[k]] + b[k + 1..], index);
      CountConcat(b[..k], b[k + 1..], index);
      CountFront(b[k], b[k + 1..], index);
    }
  }

  lemma {:induction false} CountConcat(a: seq<Sample>, b: seq<Sample>, index: nat)
    ensures Count(a + b, index) == Count(a, index) + Count(b, index)
  {
    if b == [] {
      assert a + b == a;
    } else {
      var n := |b| - 1;
      assert (a + b)[..|a + b| - 1] == a + b[..n];
      CountConcat(a, b[..n], index);
    }
  }
}
