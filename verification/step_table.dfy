/** The table of a composite action's Unix and Windows steps side by side (action_yaml_checker.py). */
module StepTable {
  import opened Concatenation
  import opened StringOrder

  datatype Row = Row(unix: string, windows: string)

  const ONLY := "-Only]"
  const UNIVERSAL := "[Universal]"
  const UNIX := "[Unix"
  const WINDOWS := "[Win"

  /** The step exists on one system only. */
  predicate IsOnly(name: string) {
    Contains(name, ONLY)
  }

  function Head(names: seq<string>): string {
    if names == [] then "" else names[0]
  }

  function Rest(names: seq<string>): seq<string> {
    if names == [] then [] else names[1..]
  }

  /** The names from i on; the pointer may have run past the list. */
  function From(names: seq<string>, i: nat): seq<string> {
    if i <= |names| then names[i..] else []
  }

  // ----- the rows -----

  lemma BlankIsNotOnly()
    ensures !IsOnly("")
  {
    assert |ONLY| == 6;
  }

  /** The row for the two next names; a step of one system only has its row to itself. */
  function NextRow(x: string, y: string): Row {
    if IsOnly(x) then Row(x, "") else if IsOnly(y) then Row("", y) else Row(x, y)
  }

  predicate TakesUnix(x: string, y: string) {
    IsOnly(x) || !IsOnly(y)
  }

  predicate TakesWindows(x: string, y: string) {
    !IsOnly(x)
  }

  function Rows(x: seq<string>, y: seq<string>): seq<Row>
    decreases |x| + |y|
  {
    if x == [] && y == [] then []
    else
      BlankIsNotOnly();
      [NextRow(Head(x), Head(y))] +
      Rows(if TakesUnix(Head(x), Head(y)) then Rest(x) else x, if TakesWindows(Head(x), Head(y)) then Rest(y) else y)
  }

  /** A cell with the step's own text below its name. */
  function WithInfo(name: string, info: map<string, string>): string {
    name + ("\n" + (if name != "" && name in info then info[name] else ""))
  }

  /** A row as it is printed; a cell left blank beside a step of one system only stays blank. */
  function Shown(row: Row, complete: bool, info: map<string, string>): Row {
    if !complete then row
    else if IsOnly(row.unix) then Row(WithInfo(row.unix, info), "")
    else if IsOnly(row.windows) then Row("", WithInfo(row.windows, info))
    else Row(WithInfo(row.unix, info), WithInfo(row.windows, info))
  }

  function AllShown(rows: seq<Row>, complete: bool, info: map<string, string>): seq<Row> {
    if rows == [] then [] else [Shown(rows[0], complete, info)] + AllShown(rows[1..], complete, info)
  }

  lemma FromStep(names: seq<string>, i: nat)
    ensures (if i < |names| then names[i] else "") == Head(From(names, i))
    ensures From(names, i + 1) == Rest(From(names, i))
    ensures From(names, i) == [] <==> i >= |names|
    ensures |From(names, i + 1)| == if i < |names| then |From(names, i)| - 1 else 0
  {
  }

  /** Appending the next row. */
  lemma AppendRow(out: seq<Row>, row: Row, rows: seq<Row>, complete: bool, info: map<string, string>)
    ensures out + AllShown([row] + rows, complete, info) ==
            (out + [Shown(row, complete, info)]) + AllShown(rows, complete, info)
  {
    assert ([row] + rows)[1..] == rows;
  }

  /** The body of the loop: the next row and which of the pointers advance. */
  method BuildRow(x: string, y: string, xRuns: string, yRuns: string, complete: bool, ghost info: map<string, string>)
    returns (row: Row, takeX: bool, takeY: bool)
    requires xRuns == (if x != "" && x in info then info[x] else "")
    requires yRuns == (if y != "" && y in info then info[y] else "")
    ensures row == Shown(NextRow(x, y), complete, info)
    ensures takeX == TakesUnix(x, y) && takeY == TakesWindows(x, y)
  {
    BlankIsNotOnly();
    var xCurr, yCurr := x, y;
    if IsOnly(xCurr) {
      if complete {
        xCurr := xCurr + ("\n" + xRuns);
      }
      return Row(xCurr, ""), true, false;
    }
    if IsOnly(yCurr) {
      if complete {
        yCurr := yCurr + ("\n" + yRuns);
      }
      return Row("", yCurr), false, true;
    }
    if complete {
      xCurr := xCurr + ("\n" + xRuns);
      yCurr := yCurr + ("\n" + yRuns);
    }
    return Row(xCurr, yCurr), true, true;
  }

  method ConditionalZip(x: seq<string>, y: seq<string>, info: map<string, string>, complete: bool)
    returns (combinedList: seq<Row>)
    requires forall name :: name in x || name in y ==> name == "" || name in info
    ensures combinedList == AllShown(Rows(x, y), complete, info)
  {
    combinedList := [];
    var i, j := 0, 0;
    ghost var goal := AllShown(Rows(x, y), complete, info);
    assert From(x, 0) == x && From(y, 0) == y;
    while i < |x| || j < |y|
      invariant goal == combinedList + AllShown(Rows(From(x, i), From(y, j)), complete, info)
      decreases |From(x, i)| + |From(y, j)|
    {
      FromStep(x, i);
      FromStep(y, j);
      BlankIsNotOnly();
      var xCurr := if i < |x| then x[i] else "";
      var yCurr := if j < |y| then y[j] else "";
      var xRuns := if xCurr != "" then info[xCurr] else "";
      var yRuns := if yCurr != "" then info[yCurr] else "";
      var row, takeX, takeY := BuildRow(xCurr, yCurr, xRuns, yRuns, complete, info);
      AppendRow(combinedList, NextRow(xCurr, yCurr),
                Rows(From(x, if takeX then i + 1 else i), From(y, if takeY then j + 1 else j)), complete, info);
      combinedList := combinedList + [row];
      i := if takeX then i + 1 else i;
      j := if takeY then j + 1 else j;
    }
  }

  // ----- what the table shows -----

  /** The cells of a column without the blank ones. */
  function Cells(rows: seq<Row>, unix: bool): seq<string> {
    if rows == [] then []
    else
      var cell := if unix then rows[0].unix else rows[0].windows;
      (if cell == "" then [] else [cell]) + Cells(rows[1..], unix)
  }

  /** Each column lists its steps, all of them and in order. */
  lemma {:induction false} ColumnsAreTheSteps(x: seq<string>, y: seq<string>)
    requires "" !in x && "" !in y
    ensures Cells(Rows(x, y), true) == x && Cells(Rows(x, y), false) == y
    decreases |x| + |y|
  {
    BlankIsNotOnly();
    HeadCell(x);
    HeadCell(y);
    if x != [] || y != [] {
      var restX := if TakesUnix(Head(x), Head(y)) then Rest(x) else x;
      var restY := if TakesWindows(Head(x), Head(y)) then Rest(y) else y;
      ColumnsAreTheSteps(restX, restY);
      FirstCell(NextRow(Head(x), Head(y)), Rows(restX, restY));
      NoGap(x);
      NoGap(y);
    }
  }

  /** The cell a column starts with, if it has steps left. */
  lemma HeadCell(names: seq<string>)
    requires "" !in names
    ensures "" !in Rest(names)
    ensures names == (if Head(names) == "" then [] else [Head(names)]) + Rest(names)
  {
    if names != [] {
      SplitFirst(names);
    }
  }

  lemma FirstCell(row: Row, rows: seq<Row>)
    ensures Cells([row] + rows, true) == (if row.unix == "" then [] else [row.unix]) + Cells(rows, true)
    ensures Cells([row] + rows, false) == (if row.windows == "" then [] else [row.windows]) + Cells(rows, false)
  {
    assert ([row] + rows)[1..] == rows;
  }

  /** A step of one system only has its row to itself. */
  lemma {:induction false} OnlyStandsAlone(x: seq<string>, y: seq<string>, k: nat)
    requires k < |Rows(x, y)|
    ensures IsOnly(Rows(x, y)[k].unix) ==> Rows(x, y)[k].windows == ""
    ensures IsOnly(Rows(x, y)[k].windows) ==> Rows(x, y)[k].unix == ""
    decreases |x| + |y|
  {
    BlankIsNotOnly();
    if k > 0 {
      if IsOnly(Head(x)) {
        OnlyStandsAlone(Rest(x), y, k - 1);
      } else if IsOnly(Head(y)) {
        OnlyStandsAlone(x, Rest(y), k - 1);
      } else {
        OnlyStandsAlone(Rest(x), Rest(y), k - 1);
      }
    }
  }

  /** The steps that are not of one system only. */
  function Plain(names: seq<string>): seq<string> {
    if names == [] then []
    else (if IsOnly(names[0]) then [] else [names[0]]) + Plain(names[1..])
  }

  /** The rows without a step of one system only. */
  function Common(rows: seq<Row>): seq<Row> {
    if rows == [] then []
    else (if IsOnly(rows[0].unix) || IsOnly(rows[0].windows) then [] else [rows[0]]) + Common(rows[1..])
  }

  /** Two lists side by side, the shorter one followed by blanks. */
  function SideBySide(x: seq<string>, y: seq<string>): seq<Row>
    decreases |x| + |y|
  {
    if x == [] && y == [] then [] else [Row(Head(x), Head(y))] + SideBySide(Rest(x), Rest(y))
  }

  lemma FirstRow(row: Row, rows: seq<Row>)
    ensures Common([row] + rows) == (if IsOnly(row.unix) || IsOnly(row.windows) then [] else [row]) + Common(rows)
  {
    assert ([row] + rows)[1..] == rows;
  }

  lemma PlainSteps(names: seq<string>)
    ensures IsOnly(Head(names)) ==> Plain(names) == Plain(Rest(names))
    ensures !IsOnly(Head(names)) ==> Head(Plain(names)) == Head(names) && Rest(Plain(names)) == Plain(Rest(names))
    ensures !IsOnly(Head(names)) ==> (Plain(names) == [] <==> names == [])
  {
    BlankIsNotOnly();
  }

  /** The remaining steps of the two lists pair up one by one: the k-th of the one is in the row of
      the k-th of the other, whatever steps of one system only stand between. */
  lemma {:induction false} RemainingStepsPair(x: seq<string>, y: seq<string>)
    ensures Common(Rows(x, y)) == SideBySide(Plain(x), Plain(y))
    decreases |x| + |y|
  {
    BlankIsNotOnly();
    if x != [] || y != [] {
      PlainSteps(x);
      PlainSteps(y);
      if IsOnly(Head(x)) {
        RemainingStepsPair(Rest(x), y);
        FirstRow(Row(Head(x), ""), Rows(Rest(x), y));
      } else if IsOnly(Head(y)) {
        RemainingStepsPair(x, Rest(y));
        FirstRow(Row("", Head(y)), Rows(x, Rest(y)));
      } else {
        RemainingStepsPair(Rest(x), Rest(y));
        FirstRow(Row(Head(x), Head(y)), Rows(Rest(x), Rest(y)));
      }
    }
  }

  // ----- the check that every step belongs to a system -----

  /** Which names of a list a scan picks out. */
  function Picked(names: seq<string>, part: string, wanted: bool): seq<string> {
    if names == [] then []
    else
      var last := names[|names| - 1];
      Picked(names[..|names| - 1], part, wanted) + (if Contains(last, part) == wanted then [last] else [])
  }

  /** How often the check counts a step, and how often it expects it. */
  function Counted(name: string): nat {
    (if Contains(name, UNIX) then 1 else 0) + (if Contains(name, WINDOWS) then 1 else 0)
  }

  function Expected(name: string): nat {
    if Contains(name, UNIVERSAL) then 0 else 1
  }

  /** The steps the check ought to report. */
  function Uncategorized(names: seq<string>): nat {
    if names == [] then 0
    else Uncategorized(names[..|names| - 1]) +
         (if Expected(names[|names| - 1]) > Counted(names[|names| - 1]) then 1 else 0)
  }

  /** How often steps are counted beyond what is expected: under both systems, or although universal. */
  function Surplus(names: seq<string>): nat {
    if names == [] then 0
    else
      var last := names[|names| - 1];
      Surplus(names[..|names| - 1]) + (if Counted(last) > Expected(last) then Counted(last) - Expected(last) else 0)
  }

  /** The script's test. */
  predicate Accepts(names: seq<string>) {
    |Picked(names, UNIX, true)| + |Picked(names, WINDOWS, true)| == |Picked(names, UNIVERSAL, false)|
  }

  datatype Sorting = Sorted(unix: seq<string>, windows: seq<string>) | Rejected(uncategorized: set<string>)

  method SortSteps(names: seq<string>) returns (r: Sorting)
    ensures r.Sorted? ==> r.unix == Picked(names, UNIX, true) && r.windows == Picked(names, WINDOWS, true)
    ensures r.Sorted? <==> Accepts(names)
    ensures r.Rejected? ==> forall n :: n in r.uncategorized <==> n in names && Expected(n) > Counted(n)
  {
    var stepNames, unixStepNames, winsStepNames := [], [], [];
    assert names[..|names|] == names;
    for i := 0 to |names|
      invariant stepNames == Picked(names[..i], UNIVERSAL, false)
      invariant unixStepNames == Picked(names[..i], UNIX, true)
      invariant winsStepNames == Picked(names[..i], WINDOWS, true)
    {
      assert names[..i + 1][..i] == names[..i];
      if !Contains(names[i], UNIVERSAL) {
        stepNames := stepNames + [names[i]];
      }
      if Contains(names[i], UNIX) {
        unixStepNames := unixStepNames + [names[i]];
      }
      if Contains(names[i], WINDOWS) {
        winsStepNames := winsStepNames + [names[i]];
      }
    }
    if |unixStepNames| + |winsStepNames| != |stepNames| {
      var uncategorized := (set n | n in stepNames) - (set n | n in unixStepNames + winsStepNames);
      forall n ensures n in uncategorized <==> n in names && Expected(n) > Counted(n) {
        PickedMembers(names, UNIVERSAL, false, n);
        PickedMembers(names, UNIX, true, n);
        PickedMembers(names, WINDOWS, true, n);
      }
      return Rejected(uncategorized);
    }
    return Sorted(unixStepNames, winsStepNames);
  }

  lemma {:induction false} PickedMembers(names: seq<string>, part: string, wanted: bool, n: string)
    ensures n in Picked(names, part, wanted) <==> n in names && Contains(n, part) == wanted
  {
    if names != [] {
      PickedMembers(names[..|names| - 1], part, wanted, n);
      assert names == names[..|names| - 1] + [names[|names| - 1]];
    }
  }

  lemma {:induction false} CountsBalance(names: seq<string>)
    ensures |Picked(names, UNIX, true)| + |Picked(names, WINDOWS, true)| + Uncategorized(names)
            == |Picked(names, UNIVERSAL, false)| + Surplus(names)
  {
    if names != [] {
      CountsBalance(names[..|names| - 1]);
    }
  }

  /** Every step that is not universal is marked for some system. */
  predicate AllMarked(names: seq<string>) {
    forall i :: 0 <= i < |names| ==> Counted(names[i]) >= Expected(names[i])
  }

  lemma {:induction false} NoneUncategorized(names: seq<string>)
    ensures Uncategorized(names) == 0 <==> AllMarked(names)
  {
    if names != [] {
      var before := names[..|names| - 1];
      NoneUncategorized(before);
      assert forall i :: 0 <= i < |before| ==> before[i] == names[i];
    }
  }

  /** The test accepts exactly when what is missing is as much as what is counted too often. */
  lemma AcceptsExactly(names: seq<string>)
    ensures Accepts(names) <==> Uncategorized(names) == Surplus(names)
  {
    CountsBalance(names);
  }

  /** Where no step is counted beyond what is expected, the test answers whether every step is marked. */
  lemma RightWithoutSurplus(names: seq<string>)
    requires Surplus(names) == 0
    ensures Accepts(names) <==> AllMarked(names)
  {
    AcceptsExactly(names);
    NoneUncategorized(names);
  }

  /** The test answers that question exactly when there is no surplus, or when steps are missing whose
      number is not the surplus; its other answers are wrong, in both directions. */
  lemma RightExactly(names: seq<string>)
    ensures (Accepts(names) <==> AllMarked(names)) <==>
            Surplus(names) == 0 || (Uncategorized(names) != 0 && Uncategorized(names) != Surplus(names))
    ensures Accepts(names) && !AllMarked(names) <==> Uncategorized(names) == Surplus(names) != 0
    ensures !Accepts(names) && AllMarked(names) <==> Uncategorized(names) == 0 != Surplus(names)
  {
    AcceptsExactly(names);
    NoneUncategorized(names);
  }

  lemma {:induction false} Lacks(s: string, part: string, k: nat)
    requires k < |part| && part[k] !in s
    ensures !Contains(s, part)
  {
    if |part| <= |s| {
      assert s[..|part|][k] == s[k];
    }
    if s != [] {
      Lacks(s[1..], part, k);
    }
  }

  const BOTH := UNIX + "]" + WINDOWS + "]"

  lemma MarkedForBoth()
    ensures Counted(BOTH) == 2 && Expected(BOTH) == 1
  {
    assert BOTH == "" + UNIX + ("]" + WINDOWS + "]");
    ContainsAt("", UNIX, "]" + WINDOWS + "]");
    assert BOTH == (UNIX + "]") + WINDOWS + "]";
    ContainsAt(UNIX + "]", WINDOWS, "]");
    assert UNIVERSAL[4] == 'v' && 'v' !in BOTH;
    Lacks(BOTH, UNIVERSAL, 4);
  }

  lemma OfBoth()
    ensures Uncategorized([BOTH]) == 0 && Surplus([BOTH]) == 1
  {
    MarkedForBoth();
    assert [BOTH][..0] == [];
  }

  /** A step without a mark passes beside one that is marked for both systems. */
  lemma MissingStepPasses(b: string)
    requires '[' !in b
    ensures Accepts([BOTH, b]) && !AllMarked([BOTH, b])
  {
    var names := [BOTH, b];
    OfBoth();
    Lacks(b, UNIX, 0);
    Lacks(b, WINDOWS, 0);
    Lacks(b, UNIVERSAL, 0);
    assert Counted(b) == 0 && Expected(b) == 1;
    assert names[..1] == [BOTH] && names[|names| - 1] == b && names[..|names| - 1] == [BOTH];
    RightExactly(names);
  }

  /** A single step that is marked for both systems is rejected, although nothing is missing. */
  lemma MarkedStepIsRejected()
    ensures !Accepts([BOTH]) && AllMarked([BOTH])
  {
    OfBoth();
    RightExactly([BOTH]);
  }
}
