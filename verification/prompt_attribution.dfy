/** Attributing the run-level record stream to the cases by prompt (_diagnostics_by_prompt and normalize_job
    of build_diagnostics_report.py). */
module PromptAttribution {
  import opened Concatenation
  import opened Wrappers

  /** A record of the stream or of a case's diagnostics; a field that is missing is empty. */
  datatype Record = Record(prompt: string, severity: string, kind: string, event: string, name: string, message: string)

  /** The answer to a case's request for its diagnostics; an entry that is no object is None. */
  datatype Diagnostics = Diagnostics(ciEnabled: bool, count: Option<int>, records: seq<Option<Record>>)

  /** A case with the diagnostics fetched for it alone, if any. */
  datatype Case = Case(prompt: string, own: Option<Diagnostics>)

  datatype Warning = Warning(severity: string, message: string)

  datatype Summary = Summary(ciEnabled: bool, count: int, events: seq<string>, warnings: seq<Warning>)

  /** A line of the job-level panel. */
  datatype Row = Row(severity: string, kind: string, name: string, message: string, prompt: string)

  function Or(a: string, b: string): string {
    if a != "" then a else b
  }

  // ----- condensing records -----

  /** What a summary keeps of a record. */
  datatype Trace = Silent | Event(name: string) | Warned(warning: Warning)

  /** An event without a name leaves nothing. */
  function TraceOf(r: Record): Trace {
    if r.kind != "event" then Warned(Warning(Or(r.severity, Or(r.kind, "LOG")), Or(r.message, Or(r.event, r.name))))
    else if Or(r.event, r.name) == "" then Silent
    else Event(Or(r.event, r.name))
  }

  function TraceOfEntry(entry: Option<Record>): Trace {
    if entry.Some? then TraceOf(entry.value) else Silent
  }

  function Events(entries: seq<Option<Record>>): seq<string> {
    if entries == [] then []
    else
      var last := TraceOfEntry(entries[|entries| - 1]);
      Events(entries[..|entries| - 1]) + (if last.Event? then [last.name] else [])
  }

  function Warnings(entries: seq<Option<Record>>): seq<Warning> {
    if entries == [] then []
    else
      var last := TraceOfEntry(entries[|entries| - 1]);
      Warnings(entries[..|entries| - 1]) + (if last.Warned? then [last.warning] else [])
  }

  function Summarized(entries: seq<Option<Record>>, ciEnabled: bool): Option<Summary> {
    if entries == [] then None else Some(Summary(ciEnabled, |entries|, Events(entries), Warnings(entries)))
  }

  method SummarizeRecords(entries: seq<Option<Record>>, ciEnabled: bool) returns (summary: Option<Summary>)
    ensures summary == Summarized(entries, ciEnabled)
  {
    if entries == [] {
      return None;
    }
    var events, warnings := [], [];
    for i := 0 to |entries|
      invariant events == Events(entries[..i]) && warnings == Warnings(entries[..i])
    {
      assert entries[..i + 1][..i] == entries[..i];
      if entries[i].None? {
        continue;
      }
      var record := entries[i].value;
      if record.kind == "event" {
        var name := if record.event != "" then record.event else record.name;
        if name != "" {
          events := events + [name];
        }
      } else {
        var severity := Or(record.severity, Or(record.kind, "LOG"));
        warnings := warnings + [Warning(severity, Or(record.message, Or(record.event, record.name)))];
      }
    }
    assert entries[..|entries|] == entries;
    return Some(Summary(ciEnabled, |entries|, events, warnings));
  }

  /** The summary of a case's own diagnostics; a count the server gives replaces the number of entries. */
  function OwnSummary(own: Option<Diagnostics>): Option<Summary> {
    if own.None? then None
    else
      var summary := Summarized(own.value.records, own.value.ciEnabled);
      match own.value.count
      case Some(n) => if summary.Some? && n != 0 then Some(summary.value.(count := n)) else summary
      case None => summary
  }

  method SummarizeCaseDiagnostics(own: Option<Diagnostics>) returns (summary: Option<Summary>)
    ensures summary == OwnSummary(own)
  {
    if own.None? {
      return None;
    }
    summary := SummarizeRecords(own.value.records, own.value.ciEnabled);
    if summary.Some? && own.value.count.Some? {
      var count := own.value.count.value;
      summary := Some(summary.value.(count := if count != 0 then count else summary.value.count));
    }
  }

  /** The summary shows the trace. */
  predicate Shows(summary: Option<Summary>, t: Trace) {
    summary.Some? &&
    match t
    case Silent => false
    case Event(name) => name in summary.value.events
    case Warned(warning) => warning in summary.value.warnings
  }

  /** Some entry leaves the trace. */
  predicate Holds(entries: seq<Option<Record>>, t: Trace) {
    exists i :: 0 <= i < |entries| && TraceOfEntry(entries[i]) == t
  }

  /** A summary shows exactly the traces of its entries. */
  lemma {:induction false} SummaryShows(entries: seq<Option<Record>>, ciEnabled: bool, t: Trace)
    ensures Shows(Summarized(entries, ciEnabled), t) <==> t != Silent && Holds(entries, t)
  {
    if entries != [] {
      var front, last := entries[..|entries| - 1], entries[|entries| - 1];
      SummaryShows(front, ciEnabled, t);
      HoldsOneMore(entries, t);
    }
  }

  lemma HoldsOneMore(entries: seq<Option<Record>>, t: Trace)
    requires entries != []
    ensures Holds(entries, t) <==> Holds(entries[..|entries| - 1], t) || TraceOfEntry(entries[|entries| - 1]) == t
  {
    var front := entries[..|entries| - 1];
    if Holds(front, t) {
      var i :| 0 <= i < |front| && TraceOfEntry(front[i]) == t;
      assert entries[i] == front[i];
    }
    if Holds(entries, t) && TraceOfEntry(entries[|entries| - 1]) != t {
      var i :| 0 <= i < |entries| && TraceOfEntry(entries[i]) == t;
      assert front[i] == entries[i];
    }
  }

  /** The entries that leave nothing. */
  function Silences(entries: seq<Option<Record>>): nat {
    if entries == [] then 0
    else Silences(entries[..|entries| - 1]) + (if TraceOfEntry(entries[|entries| - 1]).Silent? then 1 else 0)
  }

  /** What is missing from a summary, against its count, is exactly the silent entries. */
  lemma {:induction false} SummaryAccounts(entries: seq<Option<Record>>)
    ensures |Events(entries)| + |Warnings(entries)| + Silences(entries) == |entries|
  {
    if entries != [] {
      SummaryAccounts(entries[..|entries| - 1]);
    }
  }

  // ----- grouping the stream -----

  /** The records of a prompt, in order. */
  function Of(records: seq<Record>, prompt: string): seq<Record> {
    if records == [] then []
    else
      var last := records[|records| - 1];
      Of(records[..|records| - 1], prompt) + (if last.prompt == prompt then [last] else [])
  }

  /** The prompts in the order of their first records. */
  function Prompts(records: seq<Record>): seq<string> {
    if records == [] then []
    else
      var last, before := records[|records| - 1].prompt, Prompts(records[..|records| - 1]);
      if last in before then before else before + [last]
  }

  /** The usable records among the lines; a line that is no object is None. */
  function Stream(lines: seq<Option<Record>>): seq<Record> {
    if lines == [] then []
    else
      var before, last := Stream(lines[..|lines| - 1]), lines[|lines| - 1];
      if last.Some? && (last.value.severity != "" || last.value.kind != "") then before + [last.value] else before
  }

  lemma OneMoreLine(records: seq<Record>, r: Record)
    ensures forall p :: Of(records + [r], p) == Of(records, p) + (if r.prompt == p then [r] else [])
    ensures Prompts(records + [r]) ==
            if r.prompt in Prompts(records) then Prompts(records) else Prompts(records) + [r.prompt]
  {
    assert (records + [r])[..|records|] == records;
  }

  /** The dictionary holds the slice of each prompt. */
  ghost predicate Groups(records: seq<Record>, prompts: seq<string>, grouped: map<string, seq<Record>>) {
    && prompts == Prompts(records)
    && (forall p :: p in grouped <==> p in prompts)
    && (forall p :: p in grouped ==> grouped[p] == Of(records, p))
    && (forall p :: Of(records, p) == [] <==> p !in grouped)
  }

  method AddRecord(ghost records: seq<Record>, prompts: seq<string>, grouped: map<string, seq<Record>>, record: Record)
    returns (morePrompts: seq<string>, more: map<string, seq<Record>>)
    requires Groups(records, prompts, grouped)
    ensures Groups(records + [record], morePrompts, more)
  {
    OneMoreLine(records, record);
    morePrompts, more := prompts, grouped;
    var p := record.prompt;
    if p !in more {
      morePrompts, more := morePrompts + [p], more[p := []];
    }
    more := more[p := more[p] + [record]];
    forall q ensures Of(records + [record], q) == if q in more then more[q] else [] {
      if q != p {
        NothingAfter(Of(records, q));
      }
    }
  }

  method DiagnosticsByPrompt(lines: seq<Option<Record>>)
    returns (prompts: seq<string>, grouped: map<string, seq<Record>>)
    ensures Groups(Stream(lines), prompts, grouped)
  {
    prompts, grouped := [], map[];
    assert lines[..|lines|] == lines;
    for i := 0 to |lines|
      invariant Groups(Stream(lines[..i]), prompts, grouped)
    {
      assert lines[..i + 1][..i] == lines[..i];
      if lines[i].None? || (lines[i].value.severity == "" && lines[i].value.kind == "") {
        continue;
      }
      prompts, grouped := AddRecord(Stream(lines[..i]), prompts, grouped, lines[i].value);
    }
  }

  // ----- attribution -----

  /** Some case names the prompt. */
  predicate Claimed(cases: seq<Case>, prompt: string) {
    prompt != "" && exists i :: 0 <= i < |cases| && cases[i].prompt == prompt
  }

  function Entries(records: seq<Record>): seq<Option<Record>> {
    seq(|records|, i requires 0 <= i < |records| => Some(records[i]))
  }

  /** A case's own diagnostics come first. */
  function PanelOf(c: Case, records: seq<Record>): Option<Summary> {
    if OwnSummary(c.own).Some? then OwnSummary(c.own)
    else if c.prompt != "" && Of(records, c.prompt) != [] then Summarized(Entries(Of(records, c.prompt)), true)
    else None
  }

  function RowOf(r: Record): Row {
    Row(r.severity, r.kind, Or(r.name, r.event), r.message, r.prompt)
  }

  function Rows(records: seq<Record>): seq<Row> {
    seq(|records|, i requires 0 <= i < |records| => RowOf(records[i]))
  }

  /** The records of the job-level panel: the slices of the prompts that no case names. */
  function Unattributed(records: seq<Record>, prompts: seq<string>, cases: seq<Case>): seq<Record> {
    if prompts == [] then []
    else
      var last := prompts[|prompts| - 1];
      Unattributed(records, prompts[..|prompts| - 1], cases) + (if Claimed(cases, last) then [] else Of(records, last))
  }

  method FillPanels(cases: seq<Case>, ghost records: seq<Record>, grouped: map<string, seq<Record>>)
    returns (panels: seq<Option<Summary>>, attributedPrompts: set<string>)
    requires forall p :: p in grouped ==> grouped[p] == Of(records, p)
    requires forall p :: Of(records, p) == [] <==> p !in grouped
    ensures |panels| == |cases| && forall i :: 0 <= i < |cases| ==> panels[i] == PanelOf(cases[i], records)
    ensures forall p :: p in attributedPrompts <==> Claimed(cases, p)
  {
    panels, attributedPrompts := [], {};
    for i := 0 to |cases|
      invariant |panels| == i && forall k :: 0 <= k < i ==> panels[k] == PanelOf(cases[k], records)
      invariant forall p :: p in attributedPrompts <==> p != "" && exists k :: 0 <= k < i && cases[k].prompt == p
    {
      var c := cases[i];
      if c.prompt != "" {
        attributedPrompts := attributedPrompts + {c.prompt};
      }
      var panel := SummarizeCaseDiagnostics(c.own);
      if panel.None? && c.prompt != "" && c.prompt in grouped {
        panel := SummarizeRecords(Entries(grouped[c.prompt]), true);
      }
      panels := panels + [panel];
    }
  }

  method AppendRows(rows: seq<Row>, records: seq<Record>) returns (r: seq<Row>)
    ensures r == rows + Rows(records)
  {
    r := rows;
    for i := 0 to |records|
      invariant r == rows + Rows(records[..i])
    {
      var record := records[i];
      var name := if record.name != "" then record.name else record.event;
      r := r + [Row(record.severity, record.kind, name, record.message, record.prompt)];
      assert Rows(records[..i + 1]) == Rows(records[..i]) + [RowOf(record)];
    }
    assert records[..|records|] == records;
  }

  lemma RowsConcat(a: seq<Record>, b: seq<Record>)
    ensures Rows(a + b) == Rows(a) + Rows(b)
  {
  }

  method Attribute(cases: seq<Case>, lines: seq<Option<Record>>)
    returns (panels: seq<Option<Summary>>, unattributed: seq<Row>)
    ensures |panels| == |cases| && forall i :: 0 <= i < |cases| ==> panels[i] == PanelOf(cases[i], Stream(lines))
    ensures unattributed == JobPanel(Stream(lines), cases)
  {
    ghost var records := Stream(lines);
    var prompts, grouped := DiagnosticsByPrompt(lines);
    var attributedPrompts;
    panels, attributedPrompts := FillPanels(cases, records, grouped);
    unattributed := [];
    assert prompts[..|prompts|] == prompts;
    for i := 0 to |prompts|
      invariant unattributed == Rows(Unattributed(records, prompts[..i], cases))
    {
      assert prompts[..i + 1][..i] == prompts[..i];
      var p := prompts[i];
      assert p in grouped;
      if p in attributedPrompts {
        NothingAfter(Unattributed(records, prompts[..i], cases));
        continue;
      }
      RowsConcat(Unattributed(records, prompts[..i], cases), grouped[p]);
      unattributed := AppendRows(unattributed, grouped[p]);
    }
  }

  /** What the job-level panel shows. */
  function JobPanel(records: seq<Record>, cases: seq<Case>): seq<Row> {
    Rows(Unattributed(records, Prompts(records), cases))
  }

  // ----- what is shown, and what is lost -----

  lemma {:induction false} OfMembers(records: seq<Record>, prompt: string, r: Record)
    ensures r in Of(records, prompt) <==> r in records && r.prompt == prompt
  {
    if records != [] {
      OfMembers(records[..|records| - 1], prompt, r);
      assert records == records[..|records| - 1] + [records[|records| - 1]];
    }
  }

  /** The records that no case claims. */
  function Unclaimed(records: seq<Record>, cases: seq<Case>): seq<Record> {
    if records == [] then []
    else
      var last := records[|records| - 1];
      Unclaimed(records[..|records| - 1], cases) + (if Claimed(cases, last.prompt) then [] else [last])
  }

  ghost predicate Distinct(prompts: seq<string>) {
    forall i, j :: 0 <= i < j < |prompts| ==> prompts[i] != prompts[j]
  }

  lemma {:induction false} PromptsAreDistinct(records: seq<Record>)
    ensures Distinct(Prompts(records))
    ensures forall r :: r in records ==> r.prompt in Prompts(records)
  {
    if records != [] {
      var before := records[..|records| - 1];
      PromptsAreDistinct(before);
      assert records == before + [records[|records| - 1]];
    }
  }

  /** One more record lands in its prompt's slice and in no other. */
  lemma {:induction false} OneMoreRecord(records: seq<Record>, r: Record, prompts: seq<string>, cases: seq<Case>)
    requires Distinct(prompts)
    ensures multiset(Unattributed(records + [r], prompts, cases)) == multiset(Unattributed(records, prompts, cases)) +
            (if r.prompt in prompts && !Claimed(cases, r.prompt) then multiset{r} else multiset{})
  {
    if prompts != [] {
      var n := |prompts| - 1;
      assert (records + [r])[..|records|] == records;
      assert prompts == prompts[..n] + [prompts[n]];
      OneMoreRecord(records, r, prompts[..n], cases);
    }
  }

  lemma {:induction false} NoSlice(records: seq<Record>, prompt: string)
    requires prompt !in Prompts(records)
    ensures Of(records, prompt) == []
  {
    if records != [] {
      NoSlice(records[..|records| - 1], prompt);
    }
  }

  /** The job-level panel holds every unclaimed record exactly as often as the stream does. */
  lemma {:induction false} UnattributedIsUnclaimed(records: seq<Record>, cases: seq<Case>)
    ensures multiset(Unattributed(records, Prompts(records), cases)) == multiset(Unclaimed(records, cases))
  {
    if records != [] {
      var n := |records| - 1;
      var before, r, prompts := records[..n], records[n], Prompts(records[..n]);
      assert records == before + [r];
      UnattributedIsUnclaimed(before, cases);
      PromptsAreDistinct(before);
      OneMoreRecord(before, r, prompts, cases);
      if r.prompt !in prompts {
        NoSlice(before, r.prompt);
        assert Of(before + [r], r.prompt) == [r];
        assert (prompts + [r.prompt])[..|prompts|] == prompts;
      }
    }
  }

  lemma {:induction false} UnclaimedMembers(records: seq<Record>, cases: seq<Case>, r: Record)
    ensures r in Unclaimed(records, cases) <==> r in records && !Claimed(cases, r.prompt)
  {
    if records != [] {
      UnclaimedMembers(records[..|records| - 1], cases, r);
      assert records == records[..|records| - 1] + [records[|records| - 1]];
    }
  }

  /** The job-level panel has the record's row. */
  predicate OnJob(cases: seq<Case>, records: seq<Record>, r: Record) {
    RowOf(r) in JobPanel(records, cases)
  }

  /** The panel of a case that names the record's prompt shows what a summary keeps of the record. */
  predicate OnCase(c: Case, records: seq<Record>, r: Record) {
    r.prompt != "" && c.prompt == r.prompt && Shows(PanelOf(c, records), TraceOf(r))
  }

  /** The case has diagnostics of its own. */
  predicate HasOwn(c: Case) {
    c.own.Some? && c.own.value.records != []
  }

  /** They hold an entry with the record's event, or with its warning. */
  predicate Repeats(c: Case, r: Record) {
    HasOwn(c) && Holds(c.own.value.records, TraceOf(r))
  }

  lemma SameMembers<T>(a: seq<T>, b: seq<T>, x: T)
    requires multiset(a) == multiset(b)
    ensures x in a <==> x in b
  {
    assert x in a <==> x in multiset(a);
  }

  lemma OwnShows(c: Case, t: Trace)
    ensures OwnSummary(c.own).Some? <==> HasOwn(c)
    ensures HasOwn(c) ==> (Shows(OwnSummary(c.own), t) <==> t != Silent && Holds(c.own.value.records, t))
  {
    if HasOwn(c) {
      SummaryShows(c.own.value.records, c.own.value.ciEnabled, t);
    }
  }

  lemma SliceShows(records: seq<Record>, r: Record)
    requires r in records
    ensures Of(records, r.prompt) != []
    ensures Shows(Summarized(Entries(Of(records, r.prompt)), true), TraceOf(r)) <==> TraceOf(r) != Silent
  {
    var slice := Of(records, r.prompt);
    OfMembers(records, r.prompt, r);
    var i :| 0 <= i < |slice| && slice[i] == r;
    assert TraceOfEntry(Entries(slice)[i]) == TraceOf(r);
    SummaryShows(Entries(slice), true, TraceOf(r));
  }

  lemma CaseShows(c: Case, records: seq<Record>, r: Record)
    requires r in records
    ensures OnCase(c, records, r) <==>
            r.prompt != "" && c.prompt == r.prompt && TraceOf(r) != Silent && (HasOwn(c) ==> Repeats(c, r))
  {
    OwnShows(c, TraceOf(r));
    if c.prompt == r.prompt {
      SliceShows(records, r);
    }
  }

  lemma JobMembers(cases: seq<Case>, records: seq<Record>, r: Record)
    ensures r in Unattributed(records, Prompts(records), cases) <==> r in records && !Claimed(cases, r.prompt)
  {
    UnattributedIsUnclaimed(records, cases);
    UnclaimedMembers(records, cases, r);
    SameMembers(Unattributed(records, Prompts(records), cases), Unclaimed(records, cases), r);
  }

  lemma JobShows(cases: seq<Case>, records: seq<Record>, r: Record)
    requires r in records
    ensures OnJob(cases, records, r) <==> !Claimed(cases, r.prompt)
  {
    var shown := Unattributed(records, Prompts(records), cases);
    JobMembers(cases, records, r);
    RowShown(shown, r);
    if OnJob(cases, records, r) {
      var i :| 0 <= i < |shown| && Rows(shown)[i] == RowOf(r);
      JobMembers(cases, records, shown[i]);
      assert shown[i].prompt == r.prompt;
    }
  }

  lemma RowShown(shown: seq<Record>, r: Record)
    ensures r in shown ==> RowOf(r) in Rows(shown)
  {
    if r in shown {
      var i :| 0 <= i < |shown| && shown[i] == r;
      assert Rows(shown)[i] == RowOf(r);
    }
  }

  /** A record of the stream is shown in the job-level panel exactly when no case claims its prompt. A claiming case
      shows it exactly when the record leaves a trace, which the case's own diagnostics, if any, have to repeat; no
      record is shown in both ways. */
  lemma WhereShown(cases: seq<Case>, records: seq<Record>, r: Record, c: Case)
    requires r in records && c in cases
    ensures OnJob(cases, records, r) <==> !Claimed(cases, r.prompt)
    ensures OnCase(c, records, r) <==>
            r.prompt != "" && c.prompt == r.prompt && TraceOf(r) != Silent && (HasOwn(c) ==> Repeats(c, r))
    ensures !(OnJob(cases, records, r) && OnCase(c, records, r))
  {
    JobShows(cases, records, r);
    CaseShows(c, records, r);
  }

  /** A record is shown nowhere exactly when cases claim its prompt and either a summary keeps nothing of it or each of
      these cases has diagnostics of its own that do not repeat it. */
  lemma LostExactly(cases: seq<Case>, records: seq<Record>, r: Record)
    requires r in records
    ensures (!OnJob(cases, records, r) && forall i :: 0 <= i < |cases| ==> !OnCase(cases[i], records, r))
            <==>
            Claimed(cases, r.prompt) &&
            (TraceOf(r) == Silent ||
             forall i :: 0 <= i < |cases| && cases[i].prompt == r.prompt ==> HasOwn(cases[i]) && !Repeats(cases[i], r))
  {
    JobShows(cases, records, r);
    forall i | 0 <= i < |cases|
      ensures OnCase(cases[i], records, r) <==>
              r.prompt != "" && cases[i].prompt == r.prompt && TraceOf(r) != Silent &&
              (HasOwn(cases[i]) ==> Repeats(cases[i], r))
    {
      CaseShows(cases[i], records, r);
    }
  }

  /** Alone in the stream, a record is lost to a case whose own diagnostics hold another one. */
  lemma LostRecord(r: Record, other: Record, ciEnabled: bool, count: Option<int>)
    requires r.prompt != "" && TraceOf(other) != TraceOf(r)
    ensures var c := Case(r.prompt, Some(Diagnostics(ciEnabled, count, [Some(other)])));
            !OnJob([c], [r], r) && !OnCase(c, [r], r)
  {
    var c := Case(r.prompt, Some(Diagnostics(ciEnabled, count, [Some(other)])));
    assert [c][0].prompt == r.prompt;
    WhereShown([c], [r], r, c);
  }

  /** A claimed event without a name is lost although its case has no diagnostics of its own. */
  lemma NamelessRecord(prompt: string, message: string)
    requires prompt != ""
    ensures var r, c := Record(prompt, "", "event", "", "", message), Case(prompt, None);
            Stream([Some(r)]) == [r] && !OnJob([c], [r], r) && !OnCase(c, [r], r)
  {
    var r, c := Record(prompt, "", "event", "", "", message), Case(prompt, None);
    assert [Some(r)][..0] == [];
    assert [c][0].prompt == r.prompt;
    WhereShown([c], [r], r, c);
  }
}
