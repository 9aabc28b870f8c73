/** What the panels of prompt_attribution.dfy show of each record, and in which order. */
module ReportOrder {
  import opened Concatenation
  import opened Selection
  import opened Wrappers
  import opened PromptAttribution

  // ----- the entries of a summary -----

  /** An event with a name. */
  predicate IsEvent(entry: Option<Record>) {
    entry.Some? && entry.value.kind == "event" && (entry.value.event != "" || entry.value.name != "")
  }

  function EventName(entry: Option<Record>): string {
    if entry.None? then "" else if entry.value.event != "" then entry.value.event else entry.value.name
  }

  predicate IsWarning(entry: Option<Record>) {
    entry.Some? && entry.value.kind != "event"
  }

  /** A warning is as severe as it says, else as its kind says, and says its message, else its event, else its name. */
  function WarningOf(entry: Option<Record>): Warning {
    if entry.None? then Warning("", "")
    else
      var r := entry.value;
      Warning(
        if r.severity != "" then r.severity else if r.kind != "" then r.kind else "LOG",
        if r.message != "" then r.message else if r.event != "" then r.event else r.name)
  }

  lemma {:induction false} EventsPicked(entries: seq<Option<Record>>)
    ensures Picks(entries, IsEvent, EventName, Events(entries))
  {
    if entries == [] {
      PicksNone(IsEvent, EventName);
    } else {
      var n := |entries| - 1;
      EventsPicked(entries[..n]);
      PicksLast(entries, IsEvent, EventName, Events(entries[..n]));
      LastTrace(entries[n]);
    }
  }

  lemma LastTrace(entry: Option<Record>)
    ensures TraceOfEntry(entry).Event? <==> IsEvent(entry)
    ensures TraceOfEntry(entry).Event? ==> TraceOfEntry(entry).name == EventName(entry)
    ensures TraceOfEntry(entry).Warned? <==> IsWarning(entry)
    ensures TraceOfEntry(entry).Warned? ==> TraceOfEntry(entry).warning == WarningOf(entry)
  {
  }

  lemma {:induction false} WarningsPicked(entries: seq<Option<Record>>)
    ensures Picks(entries, IsWarning, WarningOf, Warnings(entries))
  {
    if entries == [] {
      PicksNone(IsWarning, WarningOf);
    } else {
      var n := |entries| - 1;
      WarningsPicked(entries[..n]);
      PicksLast(entries, IsWarning, WarningOf, Warnings(entries[..n]));
      LastTrace(entries[n]);
    }
  }

  /** A summary counts all entries and shows the named events and the warnings, each list in the entries' order. */
  ghost predicate Summarizes(s: Summary, entries: seq<Option<Record>>, ciEnabled: bool, count: int) {
    && s.ciEnabled == ciEnabled && s.count == count
    && Picks(entries, IsEvent, EventName, s.events) && Picks(entries, IsWarning, WarningOf, s.warnings)
  }

  // ----- the stream -----

  predicate IsUsable(line: Option<Record>) {
    line.Some? && (line.value.severity != "" || line.value.kind != "")
  }

  function RecordIn(line: Option<Record>): Record {
    if line.Some? then line.value else Record("", "", "", "", "", "")
  }

  /** The stream holds the lines with a severity or a kind, in order. */
  lemma {:induction false} StreamPicked(lines: seq<Option<Record>>)
    ensures Picks(lines, IsUsable, RecordIn, Stream(lines))
  {
    if lines == [] {
      PicksNone(IsUsable, RecordIn);
    } else {
      var n := |lines| - 1;
      var before := Stream(lines[..n]);
      StreamPicked(lines[..n]);
      PicksLast(lines, IsUsable, RecordIn, before);
      NothingAfter(before);
    }
  }

  function HasPrompt(prompt: string): Record -> bool {
    (r: Record) => r.prompt == prompt
  }

  /** A prompt's slice holds its records, in order. */
  lemma {:induction false} SlicePicked(records: seq<Record>, prompt: string)
    ensures Picks(records, HasPrompt(prompt), Same, Of(records, prompt))
  {
    if records == [] {
      PicksNone(HasPrompt(prompt), Same);
    } else {
      var n := |records| - 1;
      SlicePicked(records[..n], prompt);
      PicksLast(records, HasPrompt(prompt), Same, Of(records[..n], prompt));
      assert HasPrompt(prompt)(records[n]) <==> records[n].prompt == prompt;
    }
  }

  // ----- the panels -----

  /** A case shows its own diagnostics if they hold any entry, and else the records of its prompt, if there are any; a
      count of its own that is not zero replaces the number of entries. */
  lemma PanelExactly(c: Case, records: seq<Record>)
    ensures var panel, mine := PanelOf(c, records), Of(records, c.prompt);
            if c.own.Some? && c.own.value.records != [] then
              var own := c.own.value;
              var count := if own.count.Some? && own.count.value != 0 then own.count.value else |own.records|;
              panel.Some? && Summarizes(panel.value, own.records, own.ciEnabled, count)
            else if c.prompt != "" && mine != [] then
              panel.Some? && Summarizes(panel.value, Entries(mine), true, |mine|)
            else panel.None?
  {
    EventsPicked(Entries(Of(records, c.prompt)));
    WarningsPicked(Entries(Of(records, c.prompt)));
    if c.own.Some? {
      EventsPicked(c.own.value.records);
      WarningsPicked(c.own.value.records);
    }
  }

  /** A row of the job's panel shows the name first and the event in its place, unlike a summary. */
  lemma RowExactly(records: seq<Record>, cases: seq<Case>, i: nat)
    requires i < |JobPanel(records, cases)|
    ensures |JobPanel(records, cases)| == |Unattributed(records, Prompts(records), cases)|
    ensures var row, r := JobPanel(records, cases)[i], Unattributed(records, Prompts(records), cases)[i];
            && row.severity == r.severity && row.kind == r.kind && row.message == r.message && row.prompt == r.prompt
            && row.name == if r.name != "" then r.name else r.event
  {
  }

  // ----- the order of the job's panel -----

  predicate IsAt(records: seq<Record>, k: int, prompt: string) {
    0 <= k < |records| && records[k].prompt == prompt
  }

  /** The first record of one prompt comes before all of the other. */
  ghost predicate Earlier(records: seq<Record>, p: string, q: string) {
    exists k :: IsAt(records, k, p) && forall l :: 0 <= l <= k ==> !IsAt(records, l, q)
  }

  lemma {:induction false} PromptsOccur(records: seq<Record>)
    ensures forall p :: p in Prompts(records) <==> exists k :: IsAt(records, k, p)
  {
    if records != [] {
      var n := |records| - 1;
      PromptsOccur(records[..n]);
      forall p ensures p in Prompts(records) <==> exists k :: IsAt(records, k, p) {
        if k :| IsAt(records[..n], k, p) {
          assert IsAt(records, k, p);
        }
        if k :| IsAt(records, k, p) && k < n {
          assert IsAt(records[..n], k, p);
        }
        assert p in Prompts(records) <==> p in Prompts(records[..n]) || IsAt(records, n, p);
      }
    }
  }

  lemma {:induction false} PromptsInOrder(records: seq<Record>, i: nat, j: nat)
    requires i < j < |Prompts(records)|
    ensures Earlier(records, Prompts(records)[i], Prompts(records)[j])
  {
    var n := |records| - 1;
    var before := Prompts(records[..n]);
    if j < |before| {
      PromptsInOrder(records[..n], i, j);
      var k :| IsAt(records[..n], k, before[i]) && forall l :: 0 <= l <= k ==> !IsAt(records[..n], l, before[j]);
      forall l | 0 <= l <= k ensures !IsAt(records, l, before[j]) {
        assert !IsAt(records[..n], l, before[j]);
      }
      assert IsAt(records, k, before[i]);
    } else {
      PromptsOccur(records[..n]);
      assert before[i] in before;
      var k :| IsAt(records[..n], k, before[i]);
      assert IsAt(records, k, before[i]);
      forall l | 0 <= l <= k ensures !IsAt(records, l, records[n].prompt) {
        assert !IsAt(records[..n], l, records[n].prompt);
      }
    }
  }

  lemma {:induction false} SliceIsOfPrompt(records: seq<Record>, prompt: string)
    ensures forall r :: r in Of(records, prompt) ==> r.prompt == prompt
    ensures forall p :: Of(Of(records, prompt), p) == if p == prompt then Of(records, prompt) else []
  {
    if records != [] {
      var n := |records| - 1;
      var before := Of(records[..n], prompt);
      SliceIsOfPrompt(records[..n], prompt);
      OneMoreLine(before, records[n]);
      NothingAfter(before);
    }
  }

  lemma {:induction false} OfConcat(a: seq<Record>, b: seq<Record>, p: string)
    ensures Of(a + b, p) == Of(a, p) + Of(b, p)
  {
    if b == [] {
      assert a + b == a;
    } else {
      var n := |b| - 1;
      assert (a + b)[..|a + b| - 1] == a + b[..n];
      OfConcat(a, b[..n], p);
    }
  }

  lemma NotBefore(prompts: seq<string>, p: string)
    requires Distinct(prompts) && prompts != []
    ensures var n := |prompts| - 1;
            && Distinct(prompts[..n]) && prompts[n] !in prompts[..n]
            && (p in prompts <==> p in prompts[..n] || p == prompts[n])
  {
  }

  lemma {:induction false} KeptSlices(records: seq<Record>, prompts: seq<string>, cases: seq<Case>, p: string)
    requires Distinct(prompts)
    ensures Of(Unattributed(records, prompts, cases), p) ==
            if p in prompts && !Claimed(cases, p) then Of(records, p) else []
  {
    if prompts != [] {
      var n := |prompts| - 1;
      var slice := if Claimed(cases, prompts[n]) then [] else Of(records, prompts[n]);
      KeptSlices(records, prompts[..n], cases, p);
      OfConcat(Unattributed(records, prompts[..n], cases), slice, p);
      SliceIsOfPrompt(records, prompts[n]);
      NotBefore(prompts, p);
      NoGap(Of(slice, p));
      NothingAfter(Of(Unattributed(records, prompts[..n], cases), p));
    }
  }

  lemma {:induction false} PlaceOfPrompt(records: seq<Record>, prompts: seq<string>, cases: seq<Case>, i: nat, j: nat)
    returns (a: nat, b: nat)
    requires i < j < |Unattributed(records, prompts, cases)|
    ensures a <= b < |prompts|
    ensures Unattributed(records, prompts, cases)[i].prompt == prompts[a]
    ensures Unattributed(records, prompts, cases)[j].prompt == prompts[b]
  {
    var n := |prompts| - 1;
    var before := Unattributed(records, prompts[..n], cases);
    SliceIsOfPrompt(records, prompts[n]);
    if j < |before| {
      a, b := PlaceOfPrompt(records, prompts[..n], cases, i, j);
    } else if i < |before| {
      a := SomePlace(records, prompts[..n], cases, i);
      b := n;
      assert Unattributed(records, prompts, cases)[j] in Of(records, prompts[n]);
    } else {
      a, b := n, n;
      assert Unattributed(records, prompts, cases)[i] in Of(records, prompts[n]);
      assert Unattributed(records, prompts, cases)[j] in Of(records, prompts[n]);
    }
  }

  lemma {:induction false} SomePlace(records: seq<Record>, prompts: seq<string>, cases: seq<Case>, i: nat)
    returns (a: nat)
    requires i < |Unattributed(records, prompts, cases)|
    ensures a < |prompts| && Unattributed(records, prompts, cases)[i].prompt == prompts[a]
  {
    var n := |prompts| - 1;
    var before := Unattributed(records, prompts[..n], cases);
    SliceIsOfPrompt(records, prompts[n]);
    if i < |before| {
      a := SomePlace(records, prompts[..n], cases, i);
    } else {
      a := n;
      assert Unattributed(records, prompts, cases)[i] in Of(records, prompts[n]);
    }
  }

  /** The job's panel holds the whole slice of each unclaimed prompt and nothing else, prompt by prompt as they first
      occur in the stream. */
  lemma JobPanelInOrder(records: seq<Record>, cases: seq<Case>)
    ensures var shown := Unattributed(records, Prompts(records), cases);
            && (forall p :: Of(shown, p) == if Claimed(cases, p) then [] else Of(records, p))
            && forall i, j :: 0 <= i < j < |shown| ==>
                 shown[i].prompt == shown[j].prompt || Earlier(records, shown[i].prompt, shown[j].prompt)
  {
    var prompts := Prompts(records);
    var shown := Unattributed(records, prompts, cases);
    PromptsAreDistinct(records);
    forall p ensures Of(shown, p) == if Claimed(cases, p) then [] else Of(records, p) {
      KeptSlices(records, prompts, cases, p);
      if p !in prompts {
        NoSlice(records, p);
      }
    }
    forall i, j | 0 <= i < j < |shown|
      ensures shown[i].prompt == shown[j].prompt || Earlier(records, shown[i].prompt, shown[j].prompt)
    {
      var a, b := PlaceOfPrompt(records, prompts, cases, i, j);
      if a < b {
        PromptsInOrder(records, a, b);
      }
    }
  }
}
