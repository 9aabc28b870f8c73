/** The figures of a report's transfer table, each by what it is of the cases. */
module BenchmarkFigures {
  import opened Selection
  import opened StableSort
  import opened TransferBenchmarks
  import opened Wrappers

  // ----- the samples of a group -----

  function InGroup(key: Key): Case -> bool {
    (c: Case) => c.Benchmark? && c.key == key
  }

  /** A sample shows its case, and the measurements of one that passed. */
  function SampleFor(c: Case): Sample {
    match c
    case Unrelated => Sample(1, "", [], None, None, None)
    case Benchmark(_, index, result, errors, duration, repeat, bytes) =>
      if result == "pass" then Sample(index, result, errors, duration, repeat, bytes)
      else Sample(index, result, errors, None, None, None)
  }

  /** A group has one sample for each of its cases, in their order. */
  lemma {:induction false} SamplesPicked(cases: seq<Case>, key: Key)
    ensures Picks(cases, InGroup(key), SampleFor, Of(cases, key))
  {
    if cases == [] {
      PicksNone(InGroup(key), SampleFor);
    } else {
      var n := |cases| - 1;
      SamplesPicked(cases[..n], key);
      PicksLast(cases, InGroup(key), SampleFor, Of(cases[..n], key));
      assert InGroup(key)(cases[n]) <==> cases[n].Benchmark? && cases[n].key == key;
    }
  }

  predicate IsAt(cases: seq<Case>, p: int, key: Key) {
    0 <= p < |cases| && cases[p].Benchmark? && cases[p].key == key
  }

  lemma {:induction false} KeysExactly(cases: seq<Case>)
    ensures forall key :: key in Keys(cases) <==> exists p :: IsAt(cases, p, key)
  {
    if cases != [] {
      var n := |cases| - 1;
      KeysExactly(cases[..n]);
      forall key ensures key in Keys(cases) <==> exists p :: IsAt(cases, p, key) {
        if p :| IsAt(cases[..n], p, key) {
          assert IsAt(cases, p, key);
        }
        if p :| IsAt(cases, p, key) && p < n {
          assert IsAt(cases[..n], p, key);
        }
        assert key in Keys(cases) <==> key in Keys(cases[..n]) || IsAt(cases, n, key);
      }
    }
  }

  /** A case of the one group comes before all of the other. */
  ghost predicate Earlier(cases: seq<Case>, a: Key, b: Key) {
    exists p :: IsAt(cases, p, a) && forall q :: 0 <= q <= p ==> !IsAt(cases, q, b)
  }

  /** The groups are listed in the order in which they first occur. */
  lemma {:induction false} KeysInOrder(cases: seq<Case>, i: nat, j: nat)
    requires i < j < |Keys(cases)|
    ensures Earlier(cases, Keys(cases)[i], Keys(cases)[j])
  {
    var n := |cases| - 1;
    var before := Keys(cases[..n]);
    if j < |before| {
      KeysInOrder(cases[..n], i, j);
      var p :| IsAt(cases[..n], p, before[i]) && forall q :: 0 <= q <= p ==> !IsAt(cases[..n], q, before[j]);
      forall q | 0 <= q <= p ensures !IsAt(cases, q, before[j]) {
        assert !IsAt(cases[..n], q, before[j]);
      }
      assert IsAt(cases, p, before[i]);
    } else {
      KeysExactly(cases[..n]);
      assert before[i] in before;
      var p :| IsAt(cases[..n], p, before[i]);
      assert IsAt(cases, p, before[i]);
      forall q | 0 <= q <= p ensures !IsAt(cases, q, cases[n].key) {
        assert !IsAt(cases[..n], q, cases[n].key);
      }
    }
  }

  /** A group is shown unless it is the disk route's over http and the group that measures http is there. */
  lemma ShownExactly(cases: seq<Case>, row: Row)
    ensures row in Rows(cases, Keys(cases), Keys(cases)) <==>
            && (exists p :: IsAt(cases, p, row.key))
            && row == Summary(row.key, Of(cases, row.key))
            && !(&& row.key.topology == "remote-route-disk" && row.key.transport == "http"
                 && exists p :: IsAt(cases, p, Key("remote-http", "http")))
  {
    var keys := Keys(cases);
    RowsShow(cases, keys, keys, row);
    KeysExactly(cases);
    assert row.key == Key(row.key.topology, row.key.transport);
  }

  lemma {:induction false} RowPlaces(cases: seq<Case>, keys: seq<Key>, all: seq<Key>, i: nat, j: nat)
    returns (a: nat, b: nat)
    requires i < j < |Rows(cases, keys, all)|
    ensures a < b < |keys|
    ensures keys[a] == Rows(cases, keys, all)[i].key && keys[b] == Rows(cases, keys, all)[j].key
  {
    var n := |keys| - 1;
    var before := Rows(cases, keys[..n], all);
    if j < |before| {
      a, b := RowPlaces(cases, keys[..n], all, i, j);
    } else {
      RowsShow(cases, keys[..n], all, before[i]);
      a :| 0 <= a < n && keys[..n][a] == before[i].key;
      b := n;
    }
  }

  /** The rows come in the order in which their groups first occur. */
  lemma RowsInOrder(cases: seq<Case>, i: nat, j: nat)
    requires i < j < |Rows(cases, Keys(cases), Keys(cases))|
    ensures var rows := Rows(cases, Keys(cases), Keys(cases));
            Earlier(cases, rows[i].key, rows[j].key)
  {
    var a, b := RowPlaces(cases, Keys(cases), Keys(cases), i, j);
    KeysInOrder(cases, a, b);
  }

  // ----- the figures of a group -----

  /** The eight images, one after the other. */
  predicate AreTheEight(samples: seq<Sample>) {
    |samples| == 8 && forall i :: 0 <= i < 8 ==> samples[i].index == i + 1
  }

  lemma SumUpTo(samples: seq<Sample>, k: nat, what: Measure)
    requires k < |samples| && Value(samples[k], what).Some?
    ensures Sum(samples[..k + 1], what) == Sum(samples[..k], what) + Value(samples[k], what).value
  {
    assert samples[..k + 1][..k] == samples[..k];
  }

  lemma SumOfEight(s: seq<Sample>, what: Measure)
    requires |s| == 8 && AllMeasured(s, what)
    ensures var v := Values(s, what);
            Sum(s, what) == v[0] + v[1] + v[2] + v[3] + v[4] + v[5] + v[6] + v[7]
  {
    assert s[..0] == [] && s[..8] == s;
    forall k | 0 <= k < 8
      ensures Sum(s[..k + 1], what) == Sum(s[..k], what) + Values(s, what)[k]
    {
      assert Value(s[k], what).Some?;
      SumUpTo(s, k, what);
    }
    assert Sum(s[..0 + 1], what) == Values(s, what)[0];
    assert Sum(s[..2 + 1], what) == Sum(s[..1 + 1], what) + Values(s, what)[2];
    assert Sum(s[..4 + 1], what) == Sum(s[..3 + 1], what) + Values(s, what)[4];
    assert Sum(s[..6 + 1], what) == Sum(s[..5 + 1], what) + Values(s, what)[6];
    assert Sum(s[..7 + 1], what) == Sum(s[..6 + 1], what) + Values(s, what)[7];
  }

  /** Twice the median of eight values is the sum of the middle two once they are in order. */
  ghost predicate IsMedian(m: real, values: seq<real>) {
    exists v: seq<real> :: IsSorted(v, values) && |v| == 8 && 2.0 * m == v[3] + v[4]
  }

  predicate IsSorted(v: seq<real>, values: seq<real>) {
    multiset(v) == multiset(values) && forall i, j :: 0 <= i < j < |v| ==> v[i] <= v[j]
  }

  lemma MedianExactly(samples: seq<Sample>, what: Measure)
    requires |samples| == 8 && AllMeasured(samples, what)
    ensures IsMedian(Median(samples, what), Values(samples, what))
  {
    var values := Values(samples, what);
    var v := Sort(Smaller, values);
    SortKeepsLength(Smaller, values);
    SortPermutes(Smaller, values);
    SortOrders(Smaller, values);
    forall i, j | 0 <= i < j < 8 ensures v[i] <= v[j] {
      assert !Smaller(v[j], v[i]);
    }
    assert IsSorted(v, values);
  }

  lemma {:induction false} LeastIsThere(samples: seq<Sample>)
    requires samples != [] && AllMeasured(samples, Duration)
    ensures exists i :: 0 <= i < |samples| && samples[i].duration == Some(Least(samples))
  {
    var n := |samples| - 1;
    assert forall j :: 0 <= j < |samples| ==> Value(samples[j], Duration).Some?;
    assert Value(samples[n], Duration).Some?;
    if n > 0 {
      LeastIsThere(samples[..n]);
      var i :| 0 <= i < n && samples[..n][i].duration == Some(Least(samples[..n]));
      assert samples[i].duration == Some(Least(samples[..n]));
    }
  }

  lemma {:induction false} GreatestIsThere(samples: seq<Sample>)
    requires samples != [] && AllMeasured(samples, Duration)
    ensures exists i :: 0 <= i < |samples| && samples[i].duration == Some(Greatest(samples))
  {
    var n := |samples| - 1;
    assert forall j :: 0 <= j < |samples| ==> Value(samples[j], Duration).Some?;
    assert Value(samples[n], Duration).Some?;
    if n > 0 {
      GreatestIsThere(samples[..n]);
      var i :| 0 <= i < n && samples[..n][i].duration == Some(Greatest(samples[..n]));
      assert samples[i].duration == Some(Greatest(samples[..n]));
    }
  }

  /** The eight durations of a group, in the order of the images. */
  predicate AreDurations(samples: seq<Sample>, d: seq<real>) {
    |d| == |samples| && forall i :: 0 <= i < |samples| ==> samples[i].duration == Some(d[i])
  }

  predicate AreRepeats(samples: seq<Sample>, d: seq<real>) {
    |d| == |samples| && forall i :: 0 <= i < |samples| ==> samples[i].repeat == Some(d[i])
  }

  predicate AreBytes(samples: seq<Sample>, d: seq<real>) {
    |d| == |samples| && forall i :: 0 <= i < |samples| ==> samples[i].bytes == Some(d[i])
  }

  /** Every figure over the durations of a group that passed. */
  lemma DurationFigures(key: Key, samples: seq<Sample>, d: seq<real>)
    requires AreTheEight(Summary(key, samples).samples) && AreDurations(Summary(key, samples).samples, d)
    ensures var row := Summary(key, samples);
            && row.result == Pass
            && row.first == Some(d[0])
            && row.total == Some(d[0] + d[1] + d[2] + d[3] + d[4] + d[5] + d[6] + d[7])
            && row.perImage.Some? && 8.0 * row.perImage.value == row.total.value
            && row.nextSeven.Some? && 7.0 * row.nextSeven.value == d[1] + d[2] + d[3] + d[4] + d[5] + d[6] + d[7]
            && row.median.Some? && IsMedian(row.median.value, d)
            && row.min.Some? && row.min.value in d && (forall i :: 0 <= i < 8 ==> row.min.value <= d[i])
            && row.max.Some? && row.max.value in d && forall i :: 0 <= i < 8 ==> d[i] <= row.max.value
  {
    var sorted := Sort(IndexBefore, samples);
    forall i | 0 <= i < 8 ensures Value(sorted[i], Duration) == Some(d[i]) {
    }
    assert Values(sorted, Duration) == d;
    assert sorted[0].index == 1;
    SumOfEight(sorted, Duration);
    MedianExactly(sorted, Duration);
    LeastIsThere(sorted);
    GreatestIsThere(sorted);
    forall i | 0 <= i < 8 ensures Least(sorted) <= d[i] <= Greatest(sorted) {
      Bounds(sorted, i);
    }
  }

  /** The figures over the second transfers need only those. */
  lemma RepeatFigures(key: Key, samples: seq<Sample>, d: seq<real>)
    requires AreTheEight(Summary(key, samples).samples) && AreRepeats(Summary(key, samples).samples, d)
    ensures var row := Summary(key, samples);
            && row.repeatTotal == Some(d[0] + d[1] + d[2] + d[3] + d[4] + d[5] + d[6] + d[7])
            && row.repeatPerImage.Some? && 8.0 * row.repeatPerImage.value == row.repeatTotal.value
            && row.repeatMedian.Some? && IsMedian(row.repeatMedian.value, d)
  {
    var sorted := Sort(IndexBefore, samples);
    forall i | 0 <= i < 8 ensures Value(sorted[i], Repeat) == Some(d[i]) {
    }
    assert Values(sorted, Repeat) == d;
    SumOfEight(sorted, Repeat);
    MedianExactly(sorted, Repeat);
  }

  /** The bytes are added up for a group that passed and counted them all. */
  lemma ByteFigures(key: Key, samples: seq<Sample>, d: seq<real>)
    requires Summary(key, samples).result == Pass && AreBytes(Summary(key, samples).samples, d)
    ensures |d| == 8
    ensures Summary(key, samples).bytesTotal == Some(d[0] + d[1] + d[2] + d[3] + d[4] + d[5] + d[6] + d[7])
  {
    var sorted := Sort(IndexBefore, samples);
    forall i | 0 <= i < |sorted| ensures Value(sorted[i], Bytes) == Some(d[i]) {
    }
    assert Values(sorted, Bytes) == d;
    SumOfEight(sorted, Bytes);
  }

  /** A row shows the group's samples by image, is complete for the eight images alone, is skipped when no case
      did anything else, and shows no figure that it has no measurements for. */
  lemma RowExactly(key: Key, samples: seq<Sample>)
    ensures var row := Summary(key, samples);
            && row.key == key && multiset(row.samples) == multiset(samples)
            && (forall i, j :: 0 <= i < j < |row.samples| ==> row.samples[i].index <= row.samples[j].index)
            && (row.result == Pass <==> AreTheEight(row.samples) && exists d :: AreDurations(row.samples, d))
            && (row.result == Skip <==> row.result != Pass && forall s :: s in samples ==> s.result == "skip")
            && (row.repeatTotal.Some? <==> AreTheEight(row.samples) && exists d :: AreRepeats(row.samples, d))
            && (row.bytesTotal.Some? <==> row.result == Pass && exists d :: AreBytes(row.samples, d))
            && (row.total.Some? <==> row.result == Pass) && (row.perImage.Some? <==> row.result == Pass)
            && (row.nextSeven.Some? <==> row.result == Pass) && (row.median.Some? <==> row.result == Pass)
            && (row.min.Some? <==> row.result == Pass) && (row.max.Some? <==> row.result == Pass)
            && (row.repeatMedian.Some? <==> row.repeatTotal.Some?)
            && (row.repeatPerImage.Some? <==> row.repeatTotal.Some?)
  {
    var sorted := Sort(IndexBefore, samples);
    IndexOrders();
    SortOrders(IndexBefore, samples);
    SortPermutes(IndexBefore, samples);
    SortedMembers(samples);
    forall i, j | 0 <= i < j < |sorted| ensures sorted[i].index <= sorted[j].index {
      assert !IndexBefore(sorted[j], sorted[i]);
    }
    Measured(sorted);
    if AreTheEight(sorted) && AllMeasured(sorted, Duration) {
      assert Value(sorted[0], Duration).Some?;
      assert FirstImage(sorted) == sorted[0].duration;
    }
    SkippedExactly(samples, sorted);
  }

  lemma SkippedExactly(samples: seq<Sample>, sorted: seq<Sample>)
    requires forall s :: s in sorted <==> s in samples
    ensures (forall i :: 0 <= i < |sorted| ==> sorted[i].result == "skip") <==>
            forall s :: s in samples ==> s.result == "skip"
  {
    forall s | s in samples && (forall i :: 0 <= i < |sorted| ==> sorted[i].result == "skip")
      ensures s.result == "skip"
    {
      assert s in sorted;
    }
  }

  lemma Measured(samples: seq<Sample>)
    ensures AllMeasured(samples, Duration) <==> exists d :: AreDurations(samples, d)
    ensures AllMeasured(samples, Repeat) <==> exists d :: AreRepeats(samples, d)
    ensures AllMeasured(samples, Bytes) <==> exists d :: AreBytes(samples, d)
  {
    if AllMeasured(samples, Duration) {
      assert forall i :: 0 <= i < |samples| ==> Value(samples[i], Duration).Some?;
      assert AreDurations(samples, Values(samples, Duration));
    }
    if AllMeasured(samples, Repeat) {
      assert forall i :: 0 <= i < |samples| ==> Value(samples[i], Repeat).Some?;
      assert AreRepeats(samples, Values(samples, Repeat));
    }
    if AllMeasured(samples, Bytes) {
      assert forall i :: 0 <= i < |samples| ==> Value(samples[i], Bytes).Some?;
      assert AreBytes(samples, Values(samples, Bytes));
    }
  }
}
