/** The records and running totals of a conformance run (matrix.h, matrix.cpp). */
module RunRecords {
  import opened JsonValue
  import opened CaseFiles
  import opened CaseOutcome
  import opened Concatenation

  // ----- running totals -----

  function Tally(records: seq<CaseRecord>, which: Outcome): nat {
    if records == [] then 0
    else Tally(records[..|records| - 1], which) + (if OutcomeOf(records[|records| - 1].result) == which then 1 else 0)
  }

  lemma TallyGrows(records: seq<CaseRecord>, r: CaseRecord, which: Outcome)
    ensures Tally(records + [r], which) == Tally(records, which) + (if OutcomeOf(r.result) == which then 1 else 0)
  {
    DropLast(records, r);
  }

  lemma {:induction false} TalliesAddUp(records: seq<CaseRecord>)
    ensures Tally(records, Pass) + Tally(records, Fail) + Tally(records, Skip) + Tally(records, Error) == |records|
  {
    if records != [] {
      TalliesAddUp(records[..|records| - 1]);
    }
  }

  lemma {:induction false} NoneTallied(records: seq<CaseRecord>, which: Outcome)
    ensures Tally(records, which) == 0 <==> forall i :: 0 <= i < |records| ==> OutcomeOf(records[i].result) != which
  {
    if records != [] {
      var before := records[..|records| - 1];
      NoneTallied(before, which);
      assert forall i :: 0 <= i < |before| ==> before[i] == records[i];
    }
  }

  /** The totals are the tallies of the records. */
  ghost predicate Tallied(records: seq<CaseRecord>, passed: nat, failed: nat, skipped: nat, errored: nat) {
    && passed == Tally(records, Pass)
    && failed == Tally(records, Fail)
    && skipped == Tally(records, Skip)
    && errored == Tally(records, Error)
  }

  /** Every record is filed, and the records are numbered from one. */
  ghost predicate Filed(records: seq<CaseRecord>, filed: map<(int, string), CaseRecord>) {
    forall i :: 0 <= i < |records| ==>
      && ValidRecord(records[i])
      && records[i].index == i + 1
      && (i + 1, records[i].caseId) in filed
      && filed[(i + 1, records[i].caseId)] == records[i]
  }

  lemma FiledGrows(records: seq<CaseRecord>, filed: map<(int, string), CaseRecord>, r: CaseRecord)
    requires Filed(records, filed) && ValidRecord(r) && r.index == |records| + 1
    ensures Filed(records + [r], filed[(r.index, r.caseId) := r])
  {
  }

  /** The text of an event line is what was passed to Event; a case line decodes to its record. */
  ghost predicate HoldsLine(text: string, line: LogLine) {
    match line
    case EventLine(event) => text == event
    case CaseLine(record) => Decode(text) == Got(CaseValue(record), [])
  }

  class MatrixSummary {
    var passed: nat
    var failed: nat
    var skipped: nat
    var errored: nat
    var setupFailureCode: string

    constructor ()
      ensures passed == failed == skipped == errored == 0 && setupFailureCode == ""
    {
      passed, failed, skipped, errored, setupFailureCode := 0, 0, 0, 0, "";
    }

    /** Adds one to the total of a result. */
    method Count(result: string)
      modifies this`passed, this`failed, this`skipped, this`errored
      ensures passed == old(passed) + (if OutcomeOf(result) == Pass then 1 else 0)
      ensures failed == old(failed) + (if OutcomeOf(result) == Fail then 1 else 0)
      ensures skipped == old(skipped) + (if OutcomeOf(result) == Skip then 1 else 0)
      ensures errored == old(errored) + (if OutcomeOf(result) == Error then 1 else 0)
    {
      if result == "pass" {
        passed := passed + 1;
      } else if result == "fail" {
        failed := failed + 1;
      } else if result == "skip" {
        skipped := skipped + 1;
      } else {
        errored := errored + 1;
      }
    }

    predicate Ok()
      reads this
    {
      failed == 0 && errored == 0 && setupFailureCode == ""
    }
  }

  class CaseRecorder {
    const logger: CaseLogger
    const summary: MatrixSummary
    var index: nat

    /** What holds after any sequence of recorded cases, whatever else was logged between them. */
    ghost predicate Valid()
      reads this, logger, summary
    {
      && logger.Valid()
      && index == |logger.records|
      && Filed(logger.records, logger.filed)
      && Tallied(logger.records, summary.passed, summary.failed, summary.skipped, summary.errored)
    }

    constructor (logger: CaseLogger, summary: MatrixSummary)
      requires logger.Valid() && logger.records == []
      requires summary.passed == summary.failed == summary.skipped == summary.errored == 0
      ensures this.logger == logger && this.summary == summary && index == 0 && Valid()
    {
      this.logger, this.summary := logger, summary;
      index := 0;
    }

    /** Numbers the record, counts its result and writes it. */
    method Record(record: CaseRecord) returns (n: int)
      requires Valid() && ValidRecord(record)
      modifies this, logger, summary
      ensures Valid()
      ensures n == index == old(index) + 1
      ensures logger.records == old(logger.records) + [record.(index := n)]
      ensures logger.lines == old(logger.lines) + [CaseLine(record.(index := n))]
      ensures logger.texts[..|logger.texts| - 1] == old(logger.texts)
      ensures summary.setupFailureCode == old(summary.setupFailureCode)
    {
      index := index + 1;
      var stamped := record.(index := index);
      FiledGrows(logger.records, logger.filed, stamped);
      CountResult(stamped);
      ghost var passed, failed, skipped, errored := summary.passed, summary.failed, summary.skipped, summary.errored;
      ghost var code := summary.setupFailureCode;
      assert (logger as object) != summary && (logger as object) != this;
      logger.WriteCase(stamped);
      assert summary.passed == passed && summary.failed == failed && summary.skipped == skipped &&
          summary.errored == errored;
      assert summary.setupFailureCode == code;
      return stamped.index;
    }

    /** Adds one to the total of the record's result. */
    method CountResult(record: CaseRecord)
      requires Tallied(logger.records, summary.passed, summary.failed, summary.skipped, summary.errored)
      modifies summary`passed, summary`failed, summary`skipped, summary`errored
      ensures Tallied(logger.records + [record], summary.passed, summary.failed, summary.skipped, summary.errored)
    {
      TallyGrows(logger.records, record, Pass);
      TallyGrows(logger.records, record, Fail);
      TallyGrows(logger.records, record, Skip);
      TallyGrows(logger.records, record, Error);
      summary.Count(record.result);
    }

    /** The totals account for every record, and the run is good exactly when its setup succeeded
        and every record passed or was skipped. */
    lemma Totals()
      requires index == |logger.records|
      requires Tallied(logger.records, summary.passed, summary.failed, summary.skipped, summary.errored)
      ensures summary.passed + summary.failed + summary.skipped + summary.errored == index
      ensures summary.Ok() <==>
              summary.setupFailureCode == "" &&
              forall i :: 0 <= i < index ==> OutcomeOf(logger.records[i].result) in {Pass, Skip}
    {
      TalliesAddUp(logger.records);
      NoneTallied(logger.records, Fail);
      NoneTallied(logger.records, Error);
    }

    /** The event log splits into the texts that were written, if no caller of Event broke a line in two; its case
        lines, in order, decode to exactly the recorded cases, and so do the case files. */
    lemma Evidence()
      requires Valid()
      requires forall i :: 0 <= i < |logger.lines| && logger.lines[i].EventLine? ==> '\n' !in logger.lines[i].text
      ensures Lines(logger.events) == logger.texts && |logger.texts| == |logger.lines|
      ensures CaseRecords(logger.lines) == logger.records
      ensures forall i :: 0 <= i < |logger.lines| ==>
                HoldsLine(logger.texts[i], logger.lines[i])
      ensures forall i :: 0 <= i < index ==>
                var key := (logger.records[i].index, logger.records[i].caseId);
                key in logger.caseFiles && Decode(logger.caseFiles[key]) == Got(CaseValue(logger.records[i]), [])
    {
      forall i | 0 <= i < |logger.lines|
        ensures '\n' !in logger.texts[i] && HoldsLine(logger.texts[i], logger.lines[i])
      {
        LineHolds(logger.lines, i);
      }
      LogSplits(logger.texts);
      forall i | 0 <= i < index
        ensures Decode(CaseFileText(logger.records[i])) == Got(CaseValue(logger.records[i]), [])
      {
        CaseFileDecodes(logger.records[i]);
      }
    }
  }

  lemma {:induction false} CaseLineIsRecord(lines: seq<LogLine>, i: nat)
    requires i < |lines| && lines[i].CaseLine?
    ensures lines[i].record in CaseRecords(lines)
    decreases |lines|
  {
    if i < |lines| - 1 {
      CaseLineIsRecord(lines[..|lines| - 1], i);
    }
  }

  lemma LineHolds(lines: seq<LogLine>, i: nat)
    requires i < |lines| && (lines[i].EventLine? ==> '\n' !in lines[i].text)
    requires forall j :: 0 <= j < |CaseRecords(lines)| ==> ValidRecord(CaseRecords(lines)[j])
    ensures '\n' !in LineText(lines[i]) && HoldsLine(LineText(lines[i]), lines[i])
  {
    if lines[i].CaseLine? {
      CaseLineIsRecord(lines, i);
      LineDecodes(lines[i].record);
    }
  }

  // ----- whole runs -----

  /** What a run does to its files and totals: log a JSON object, finish a case, or give up its setup. */
  datatype Step = Log(value: Json) | Finish(record: CaseRecord) | GiveUp(code: string)

  predicate ValidStep(step: Step) {
    match step
    case Log(value) => Valid(value)
    case Finish(record) => ValidRecord(record)
    case GiveUp(_) => true
  }

  function NewRecords(step: Step, n: nat): seq<CaseRecord> {
    if step.Finish? then [step.record.(index := n + 1)] else []
  }

  function NewValues(step: Step, n: nat): seq<Json> {
    match step
    case Log(value) => [value]
    case Finish(record) => [CaseValue(record.(index := n + 1))]
    case GiveUp(_) => []
  }

  /** The records of the finished cases, numbered. */
  function Finished(steps: seq<Step>): seq<CaseRecord> {
    if steps == [] then []
    else var before := Finished(steps[..|steps| - 1]); before + NewRecords(steps[|steps| - 1], |before|)
  }

  /** The values a run writes to its event log, in order. */
  function LoggedValues(steps: seq<Step>): seq<Json> {
    if steps == [] then []
    else LoggedValues(steps[..|steps| - 1]) + NewValues(steps[|steps| - 1], |Finished(steps[..|steps| - 1])|)
  }

  /** The last failure of the setup, if any. */
  function LastCode(steps: seq<Step>): string {
    if steps == [] then ""
    else if steps[|steps| - 1].GiveUp? then steps[|steps| - 1].code
    else LastCode(steps[..|steps| - 1])
  }

  /** A line that decodes to the value. */
  ghost predicate Holds(text: string, value: Json) {
    '\n' !in text && Decode(text) == Got(value, [])
  }

  ghost predicate AllHold(texts: seq<string>, values: seq<Json>) {
    |texts| == |values| &&
    (texts == [] || (AllHold(texts[..|texts| - 1], values[..|values| - 1]) &&
                     Holds(texts[|texts| - 1], values[|values| - 1])))
  }

  lemma OneMoreHolds(texts: seq<string>, text: string, values: seq<Json>, value: Json)
    requires AllHold(texts, values) && Holds(text, value)
    ensures AllHold(texts + [text], values + [value])
  {
    DropLast(texts, text);
    DropLast(values, value);
  }

  lemma {:induction false} EachHolds(texts: seq<string>, values: seq<Json>)
    requires AllHold(texts, values)
    ensures forall i :: 0 <= i < |texts| ==> '\n' !in texts[i] && Decode(texts[i]) == Got(values[i], [])
  {
    if texts != [] {
      EachHolds(texts[..|texts| - 1], values[..|values| - 1]);
    }
  }

  lemma OneMoreValue(texts: seq<string>, value: Json, values: seq<Json>)
    requires AllHold(texts, values) && Valid(value)
    ensures AllHold(texts + [Render(Compact, value, 0)], values + [value])
  {
    OnOneLine(value, 0);
    DecodeRendered(Compact, value, 0);
    OneMoreHolds(texts, Render(Compact, value, 0), values, value);
  }

  lemma OneMoreRecord(texts: seq<string>, lines: seq<LogLine>, r: CaseRecord, values: seq<Json>)
    requires |texts| == |lines| > 0 && lines[|lines| - 1] == CaseLine(r) && ValidRecord(r)
    requires texts[|texts| - 1] == LineText(lines[|lines| - 1]) && AllHold(texts[..|texts| - 1], values)
    ensures AllHold(texts, values + [CaseValue(r)])
  {
    LineDecodes(r);
    OneMoreHolds(texts[..|texts| - 1], texts[|texts| - 1], values, CaseValue(r));
    SplitLast(texts);
  }

  lemma OneMoreStep(steps: seq<Step>, step: Step)
    ensures Finished(steps + [step]) == Finished(steps) + NewRecords(step, |Finished(steps)|)
    ensures LoggedValues(steps + [step]) == LoggedValues(steps) + NewValues(step, |Finished(steps)|)
    ensures LastCode(steps + [step]) == if step.GiveUp? then step.code else LastCode(steps)
  {
    DropLast(steps, step);
  }

  /** What holds after the steps of a run. */
  ghost predicate After(recorder: CaseRecorder, steps: seq<Step>)
    reads recorder, recorder.logger, recorder.summary
  {
    && recorder.Valid()
    && recorder.logger.records == Finished(steps)
    && recorder.summary.setupFailureCode == LastCode(steps)
    && AllHold(recorder.logger.texts, LoggedValues(steps))
  }

  /** Logging a JSON object. */
  method LogValue(recorder: CaseRecorder, value: Json, ghost steps: seq<Step>)
    requires After(recorder, steps) && Valid(value)
    modifies recorder.logger
    ensures After(recorder, steps + [Log(value)])
  {
    var text := Render(Compact, value, 0);
    OneMoreValue(recorder.logger.texts, value, LoggedValues(steps));
    OneMoreStep(steps, Log(value));
    NothingAfter(Finished(steps));
    assert (recorder.logger as object) != recorder.summary && (recorder.logger as object) != recorder;
    recorder.logger.Event(text);
  }

  /** Finishing a case. */
  method FinishCase(recorder: CaseRecorder, record: CaseRecord, ghost steps: seq<Step>)
    requires After(recorder, steps) && ValidRecord(record)
    modifies recorder, recorder.logger, recorder.summary
    ensures After(recorder, steps + [Finish(record)])
  {
    OneMoreStep(steps, Finish(record));
    var n := recorder.Record(record);
    OneMoreRecord(recorder.logger.texts, recorder.logger.lines, record.(index := n), LoggedValues(steps));
  }

  /** Giving up the setup. */
  method Abandon(recorder: CaseRecorder, code: string, ghost steps: seq<Step>)
    requires After(recorder, steps)
    modifies recorder.summary`setupFailureCode
    ensures After(recorder, steps + [GiveUp(code)])
  {
    OneMoreStep(steps, GiveUp(code));
    NothingAfter(Finished(steps));
    NothingAfter(LoggedValues(steps));
    assert (recorder.logger as object) != recorder.summary && (recorder.summary as object) != recorder;
    recorder.summary.setupFailureCode := code;
  }

  method Take(recorder: CaseRecorder, step: Step, ghost steps: seq<Step>)
    requires After(recorder, steps) && ValidStep(step)
    modifies recorder, recorder.logger, recorder.summary
    ensures After(recorder, steps + [step])
  {
    match step {
      case Log(value) => LogValue(recorder, value, steps);
      case Finish(record) => FinishCase(recorder, record, steps);
      case GiveUp(code) => Abandon(recorder, code, steps);
    }
  }

  /** Any run: every line of its event log decodes to what was written in that step, the case lines are the finished
      cases among all the others, the case files hold them, and the totals count them. */
  method Run(steps: seq<Step>) returns (recorder: CaseRecorder)
    requires forall i :: 0 <= i < |steps| ==> ValidStep(steps[i])
    ensures recorder.Valid() && recorder.logger.records == Finished(steps)
    ensures recorder.summary.setupFailureCode == LastCode(steps)
    ensures var lines := Lines(recorder.logger.events);
            && |lines| == |LoggedValues(steps)|
            && forall i :: 0 <= i < |lines| ==> Decode(lines[i]) == Got(LoggedValues(steps)[i], [])
  {
    var logger := new CaseLogger();
    var summary := new MatrixSummary();
    recorder := new CaseRecorder(logger, summary);
    for i := 0 to |steps|
      invariant fresh(recorder) && fresh(recorder.logger) && fresh(recorder.summary)
      invariant After(recorder, steps[..i])
    {
      Take(recorder, steps[i], steps[..i]);
      OneMore(steps, i);
    }
    assert steps[..|steps|] == steps;
    EachHolds(recorder.logger.texts, LoggedValues(steps));
    LogSplits(recorder.logger.texts);
  }
}
