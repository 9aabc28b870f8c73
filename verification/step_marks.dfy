/** The marks in step names by their letters, the lists they sort into, and the texts of the table's cells. */
module StepMarks {
  import opened Selection
  import opened StringOrder
  import opened StepTable

  ghost predicate Has(name: string, part: string) {
    exists before, after :: name == before + part + after
  }

  /** A step belongs to one system only, is counted for a system, or is expected for none, by these four marks. */
  lemma MarksExactly(name: string)
    ensures IsOnly(name) <==> Has(name, "-Only]")
    ensures Counted(name) == (if Has(name, "[Unix") then 1 else 0) + (if Has(name, "[Win") then 1 else 0)
    ensures Expected(name) == if Has(name, "[Universal]") then 0 else 1
  {
    ContainsExactly(name, ONLY);
    ContainsExactly(name, UNIX);
    ContainsExactly(name, WINDOWS);
    ContainsExactly(name, UNIVERSAL);
  }

  function Carries(part: string, wanted: bool): string -> bool {
    (name: string) => Contains(name, part) == wanted
  }

  lemma {:induction false} StepsPicked(names: seq<string>, part: string, wanted: bool)
    ensures Picks(names, Carries(part, wanted), Same, Picked(names, part, wanted))
  {
    if names == [] {
      PicksNone(Carries(part, wanted), Same);
    } else {
      var n := |names| - 1;
      StepsPicked(names[..n], part, wanted);
      PicksLast(names, Carries(part, wanted), Same, Picked(names[..n], part, wanted));
      assert Carries(part, wanted)(names[n]) <==> (Contains(names[n], part) == wanted);
    }
  }

  /** The two columns hold the steps with the systems' marks, in their order. */
  lemma ColumnsPicked(names: seq<string>)
    ensures Picks(names, Carries("[Unix", true), Same, Picked(names, UNIX, true))
    ensures Picks(names, Carries("[Win", true), Same, Picked(names, WINDOWS, true))
    ensures Picks(names, Carries("[Universal]", false), Same, Picked(names, UNIVERSAL, false))
  {
    StepsPicked(names, UNIX, true);
    StepsPicked(names, WINDOWS, true);
    StepsPicked(names, UNIVERSAL, false);
  }

  /** A cell's text in a complete table: the name, a line break, and the step's own text. */
  function CellText(name: string, info: map<string, string>): string {
    name + ['\n'] + if name in info && name != "" then info[name] else ""
  }

  /** Without texts the table shows the names. With them, every cell of a step that stands beside another or beside the
      end of a list carries its text, and the blank beside a step of one system stays blank. */
  lemma {:induction false} CellsExactly(rows: seq<Row>, complete: bool, info: map<string, string>, k: nat)
    requires k < |rows|
    ensures |AllShown(rows, complete, info)| == |rows|
    ensures var row, shown := rows[k], AllShown(rows, complete, info)[k];
            && (!complete ==> shown == row)
            && (complete ==>
                  && shown.unix == (if !IsOnly(row.unix) && IsOnly(row.windows) then "" else CellText(row.unix, info))
                  && shown.windows == (if IsOnly(row.unix) then "" else CellText(row.windows, info)))
  {
    ShownExactly(rows[0], complete, info);
    if k > 0 {
      CellsExactly(rows[1..], complete, info, k - 1);
    } else {
      ShownLength(rows[1..], complete, info);
    }
  }

  lemma {:induction false} ShownLength(rows: seq<Row>, complete: bool, info: map<string, string>)
    ensures |AllShown(rows, complete, info)| == |rows|
  {
    if rows != [] {
      ShownLength(rows[1..], complete, info);
    }
  }

  lemma ShownExactly(row: Row, complete: bool, info: map<string, string>)
    ensures var shown := Shown(row, complete, info);
            && (!complete ==> shown == row)
            && (complete ==>
                  && shown.unix == (if !IsOnly(row.unix) && IsOnly(row.windows) then "" else CellText(row.unix, info))
                  && shown.windows == (if IsOnly(row.unix) then "" else CellText(row.windows, info)))
  {
    NameAndText(row.unix, if row.unix != "" && row.unix in info then info[row.unix] else "");
    NameAndText(row.windows, if row.windows != "" && row.windows in info then info[row.windows] else "");
  }

  lemma NameAndText(name: string, text: string)
    ensures name + ("\n" + text) == name + ['\n'] + text
  {
    assert "\n" == ['\n'];
  }
}
