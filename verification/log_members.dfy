/** The logged objects by the names and values of their members: the record of a case, an entry of the facade's trace,
    and the entries for delivered events; and the order of a run's records and values. */
module LogMembers {
  import opened Concatenation
  import opened Selection
  import opened Wrappers
  import opened CaseOutcome
  import opened JsonValue
  import opened CaseLog
  import opened CaseFiles
  import opened FacadeTrace
  import opened DeliveryRun
  import opened RunRecords

  type Member = (string, Json)

  /** The members of an object, in order. */
  function Members(fields: Fields): seq<Member> {
    match fields
    case NoFields => []
    case Field(key, value, rest) => [(key, value)] + Members(rest)
  }

  lemma {:induction false} MembersDetermine(a: Fields, b: Fields)
    ensures Members(a) == Members(b) <==> a == b
  {
    if a.Field? && b.Field? {
      Uncons((a.key, a.value), Members(a.rest));
      Uncons((b.key, b.value), Members(b.rest));
      MembersDetermine(a.rest, b.rest);
    }
  }

  // ----- the record of a case -----

  function List(values: seq<string>): Json {
    Arr(TextItems(values))
  }

  function Present(value: Option<Json>): Json {
    if value.Some? then value.value else Atom("null")
  }

  /** The members of a record: five texts, what was asked for where it is set, what was expected and met, and the
      verdict. */
  function CaseMembers(r: CaseRecord): seq<Member> {
    [("case_id", Text(r.caseId)), ("title", Text(r.title)), ("phase", Text(r.phase)),
     ("description", Text(r.description)), ("spec_ref", Text(r.specRef))] +
    (AskedMembers(r) +
     [("expected", Present(r.expected)), ("actual", Present(r.actual)), ("result", Text(r.result)),
      ("errors", List(r.errors))])
  }

  function AskedMembers(r: CaseRecord): seq<Member> {
    (if r.requiredTransport != "" then [("required_transport", Text(r.requiredTransport))] else []) +
    ((if r.preferredOrder != [] then [("preferred_order", List(r.preferredOrder))] else []) +
     (if r.fixture.Some? then [("fixture", r.fixture.value)] else []))
  }

  lemma MemberFirst(key: string, value: Json, rest: Fields)
    ensures Members(Field(key, value, rest)) == [(key, value)] + Members(rest)
  {
  }

  lemma ResultMembers(r: CaseRecord)
    ensures Members(ResultFields(r)) ==
            [("expected", Present(r.expected)), ("actual", Present(r.actual)), ("result", Text(r.result)),
             ("errors", List(r.errors))]
  {
    var last := Field("errors", List(r.errors), NoFields);
    var result := Field("result", Text(r.result), last);
    MemberFirst("errors", List(r.errors), NoFields);
    MemberFirst("result", Text(r.result), last);
    MemberFirst("actual", Present(r.actual), result);
    MemberFirst("expected", Present(r.expected), Field("actual", Present(r.actual), result));
  }

  lemma RequestMembers(r: CaseRecord)
    ensures Members(RequestFields(r)) == AskedMembers(r) + Members(ResultFields(r))
  {
    var rest := ResultFields(r);
    var fixture := Optional(r.fixture.Some?, "fixture", Present(r.fixture), rest);
    var order := Optional(r.preferredOrder != [], "preferred_order", List(r.preferredOrder), fixture);
    OptionalMember(r.fixture.Some?, "fixture", Present(r.fixture), rest);
    OptionalMember(r.preferredOrder != [], "preferred_order", List(r.preferredOrder), fixture);
    OptionalMember(r.requiredTransport != "", "required_transport", Text(r.requiredTransport), order);
    RequestIs(r, fixture, order);
    Regroup4(if r.requiredTransport != "" then [("required_transport", Text(r.requiredTransport))] else [],
             if r.preferredOrder != [] then [("preferred_order", List(r.preferredOrder))] else [],
             if r.fixture.Some? then [("fixture", r.fixture.value)] else [], Members(rest));
  }

  lemma RequestIs(r: CaseRecord, fixture: Fields, order: Fields)
    requires fixture == Optional(r.fixture.Some?, "fixture", Present(r.fixture), ResultFields(r))
    requires order == Optional(r.preferredOrder != [], "preferred_order", List(r.preferredOrder), fixture)
    ensures RequestFields(r) ==
            Optional(r.requiredTransport != "", "required_transport", Text(r.requiredTransport), order)
  {
  }

  lemma OptionalMember(present: bool, key: string, value: Json, rest: Fields)
    ensures Members(Optional(present, key, value, rest)) == (if present then [(key, value)] else []) + Members(rest)
  {
    NoGap(Members(rest));
  }

  lemma MembersOfCase(r: CaseRecord)
    ensures CaseValue(r).Obj? && Members(CaseValue(r).fields) == CaseMembers(r)
  {
    var rest := RequestFields(r);
    ResultMembers(r);
    RequestMembers(r);
    var spec := Field("spec_ref", Text(r.specRef), rest);
    var description := Field("description", Text(r.description), spec);
    var phase := Field("phase", Text(r.phase), description);
    MemberFirst("spec_ref", Text(r.specRef), rest);
    MemberFirst("description", Text(r.description), spec);
    MemberFirst("phase", Text(r.phase), description);
    MemberFirst("title", Text(r.title), phase);
    MemberFirst("case_id", Text(r.caseId), Field("title", Text(r.title), phase));
  }

  // ----- an entry of the trace -----

  lemma {:induction false} MembersAppend(a: Fields, b: Fields)
    ensures Members(Append(a, b)) == Members(a) + Members(b)
  {
    if a.Field? {
      MembersAppend(a.rest, b);
      Regroup([(a.key, a.value)], Members(a.rest), Members(b));
    } else {
      NoGap(Members(b));
    }
  }

  /** The members of an entry: where it was made, the action, the action's own, how it went, and the error if there is
      one. */
  function EntryMembers(e: Entry): seq<Member> {
    [("record", Text("facade_action")), ("phase", Text(e.scope.phase)), ("case", Text(e.scope.caseId)),
     ("action", Text(e.action))] +
    (Members(e.fields) + ([("result", Text(e.result))] + if e.error == "" then [] else [("error", Text(e.error))]))
  }

  lemma OneMember(key: FieldName, x: string)
    ensures Members(One(key, x)) == [(Word(key), Text(x))]
  {
  }

  lemma WithMember(fields: Fields, key: FieldName, x: string)
    ensures Members(With(fields, key, x)) == Members(fields) + [(Word(key), Text(x))]
  {
    MembersAppend(fields, One(key, x));
    OneMember(key, x);
  }

  lemma HeadMembers(scope: Scope, action: string)
    ensures Members(Head(scope, action)) ==
            [("record", Text("facade_action")), ("phase", Text(scope.phase)), ("case", Text(scope.caseId)),
             ("action", Text(action))]
  {
    var first := One(RecordField, "facade_action");
    var phased := With(first, PhaseField, scope.phase);
    OneMember(RecordField, "facade_action");
    WithMember(first, PhaseField, scope.phase);
    WithMember(phased, CaseField, scope.caseId);
    WithMember(With(phased, CaseField, scope.caseId), ActionField, action);
  }

  lemma MembersOfEntry(e: Entry)
    ensures Members(EntryFields(e)) == EntryMembers(e)
  {
    var head := Head(e.scope, e.action);
    var all := Append(head, e.fields);
    HeadMembers(e.scope, e.action);
    MembersAppend(head, e.fields);
    WithMember(all, ResultField, e.result);
    WithMember(With(all, ResultField, e.result), ErrorField, e.error);
  }

  /** The line for the readable trace: the action and how it went, then the fields in braces and the error, where there
      are any. */
  lemma LineOfEntry(action: string, fieldsJson: string, result: string, error: string)
    ensures var line := TraceLine(action, fieldsJson, result, error);
            var head := "facade " + action + " -> " + result;
            && (fieldsJson == "" && error == "" ==> line == head + "\n")
            && (fieldsJson != "" && error == "" ==> line == head + (" {" + fieldsJson + "}") + "\n")
            && (fieldsJson == "" && error != "" ==> line == head + (" error=" + error) + "\n")
            && (fieldsJson != "" && error != "" ==>
                  line == head + (" {" + fieldsJson + "}") + (" error=" + error) + "\n")
  {
    var head := "facade " + action + " -> " + result;
    NothingAfter(head);
    NothingAfter(head + (" {" + fieldsJson + "}"));
  }

  /** The entries for an announced output and share, for the end of a prompt, and for a frame that could not be read. */
  lemma MembersOfNotes(scope: Scope, o: Output, s: Share, message: string)
    ensures OutputNote(scope, o).action == "event.output_ready"
    ensures Members(OutputNote(scope, o).fields) ==
            [("transport", Text(o.transport)), ("consumer_id", Text(o.consumerId))]
    ensures ShareNote(scope, s).action == "event.cuda_share_status"
    ensures Members(ShareNote(scope, s).fields) == [("name", Text(s.name))]
    ensures OutputNote(scope, o).result == ShareNote(scope, s).result == "ok"
    ensures OutputNote(scope, o).error == ShareNote(scope, s).error == ""
    ensures ErrorNote(scope, message) == Entry(scope, "event.parse_error", NoFields, "skip", message)
  {
    OneMember(TransportField, o.transport);
    WithMember(One(TransportField, o.transport), ConsumerField, o.consumerId);
    OneMember(NameField, s.name);
  }

  lemma MembersOfTerminal(scope: Scope, keys: Keys, e: Event)
    requires TerminalMatches(keys, e)
    ensures |TerminalNotes(scope, keys, e)| == 1
    ensures var note := TerminalNotes(scope, keys, e)[0];
            && note.scope == scope && note.action == "event.execution_terminal"
            && Members(note.fields) == [("status", Text(e.terminalStatus))]
            && note.result == (if e.terminalStatus == "success" then "ok" else "fail") && note.error == e.message
  {
    OneMember(StatusField, e.terminalStatus);
  }

  /** Outputs and shares are noted one by one in the order of their event. */
  lemma {:induction false} OutputsNoted(scope: Scope, keys: Keys, outputs: seq<Output>)
    ensures Picks(outputs, MatchesOutput(keys), NoteOfOutput(scope), OutputNotes(scope, keys, outputs))
  {
    if outputs == [] {
      PicksNone(MatchesOutput(keys), NoteOfOutput(scope));
    } else {
      var n := |outputs| - 1;
      OutputsNoted(scope, keys, outputs[..n]);
      PicksLast(outputs, MatchesOutput(keys), NoteOfOutput(scope), OutputNotes(scope, keys, outputs[..n]));
      assert NoteOfOutput(scope)(outputs[n]) == OutputNote(scope, outputs[n]);
      assert MatchesOutput(keys)(outputs[n]) <==> OutputMatches(keys, outputs[n]);
    }
  }

  lemma {:induction false} SharesNoted(scope: Scope, keys: Keys, shares: seq<Share>)
    ensures Picks(shares, MatchesShare(keys), NoteOfShare(scope), ShareNotes(scope, keys, shares))
  {
    if shares == [] {
      PicksNone(MatchesShare(keys), NoteOfShare(scope));
    } else {
      var n := |shares| - 1;
      SharesNoted(scope, keys, shares[..n]);
      PicksLast(shares, MatchesShare(keys), NoteOfShare(scope), ShareNotes(scope, keys, shares[..n]));
      assert NoteOfShare(scope)(shares[n]) == ShareNote(scope, shares[n]);
      assert MatchesShare(keys)(shares[n]) <==> ShareMatches(keys, shares[n]);
    }
  }

  function MatchesOutput(keys: Keys): Output -> bool {
    (o: Output) => OutputMatches(keys, o)
  }

  function NoteOfOutput(scope: Scope): Output -> Entry {
    (o: Output) => OutputNote(scope, o)
  }

  function MatchesShare(keys: Keys): Share -> bool {
    (s: Share) => ShareMatches(keys, s)
  }

  function NoteOfShare(scope: Scope): Share -> Entry {
    (s: Share) => ShareNote(scope, s)
  }

  // ----- a whole run -----

  predicate IsFinish(step: Step) {
    step.Finish?
  }

  /** The record of a finished case, apart from its number. */
  function RecordIn(step: Step): CaseRecord {
    if step.Finish? then step.record.(index := 0)
    else CaseRecord(0, "", "", "", "", "", "", [], None, None, None, "", [])
  }

  function Unnumbered(records: seq<CaseRecord>): seq<CaseRecord> {
    seq(|records|, i requires 0 <= i < |records| => records[i].(index := 0))
  }

  lemma OneMoreUnnumbered(before: seq<CaseRecord>, r: CaseRecord, n: nat)
    ensures Unnumbered(before + [r.(index := n)]) == Unnumbered(before) + [r.(index := 0)]
  {
  }

  /** The records of a run are those of its finished cases, in order and numbered from one. */
  lemma {:induction false} RecordsPicked(steps: seq<Step>)
    ensures Picks(steps, IsFinish, RecordIn, Unnumbered(Finished(steps)))
    ensures forall i :: 0 <= i < |Finished(steps)| ==> Finished(steps)[i].index == i + 1
  {
    if steps == [] {
      PicksNone(IsFinish, RecordIn);
      assert Unnumbered([]) == [];
    } else {
      var n := |steps| - 1;
      var before := Finished(steps[..n]);
      RecordsPicked(steps[..n]);
      PicksLast(steps, IsFinish, RecordIn, Unnumbered(before));
      if steps[n].Finish? {
        OneMoreUnnumbered(before, steps[n].record, |before| + 1);
      } else {
        NothingAfter(before);
        NothingAfter(Unnumbered(before));
      }
    }
  }

  predicate IsWritten(step: Step) {
    !step.GiveUp?
  }

  function ValueIn(step: Step): Json {
    match step
    case Log(value) => value
    case Finish(record) => CaseValue(record)
    case GiveUp(_) => Atom("null")
  }

  lemma NumberIsNotWritten(r: CaseRecord, n: nat)
    ensures CaseValue(r.(index := n)) == CaseValue(r)
  {
    var s := r.(index := n);
    assert ResultFields(s) == ResultFields(r);
    assert RequestFields(s) == RequestFields(r);
  }

  /** A run's log holds the logged values and the finished records, in order. */
  lemma {:induction false} ValuesPicked(steps: seq<Step>)
    ensures Picks(steps, IsWritten, ValueIn, LoggedValues(steps))
  {
    if steps == [] {
      PicksNone(IsWritten, ValueIn);
    } else {
      var n := |steps| - 1;
      var before := LoggedValues(steps[..n]);
      ValuesPicked(steps[..n]);
      PicksLast(steps, IsWritten, ValueIn, before);
      if steps[n].Finish? {
        NumberIsNotWritten(steps[n].record, |Finished(steps[..n])| + 1);
      }
    }
  }

  /** The code of a run is the last one that its setup was given up with. */
  lemma {:induction false} CodeIsLast(steps: seq<Step>)
    ensures if exists i :: 0 <= i < |steps| && steps[i].GiveUp?
            then exists i :: 0 <= i < |steps| && steps[i] == GiveUp(LastCode(steps)) &&
                             forall j :: i < j < |steps| ==> !steps[j].GiveUp?
            else LastCode(steps) == ""
  {
    if steps != [] {
      var n := |steps| - 1;
      CodeIsLast(steps[..n]);
      if !steps[n].GiveUp? && exists i :: 0 <= i < |steps| && steps[i].GiveUp? {
        var k :| 0 <= k < |steps| && steps[k].GiveUp?;
        assert steps[..n][k].GiveUp?;
        var i :| 0 <= i < n && steps[..n][i] == GiveUp(LastCode(steps)) &&
                 forall j :: i < j < n ==> !steps[..n][j].GiveUp?;
        assert steps[i] == GiveUp(LastCode(steps));
        forall j | i < j < |steps| ensures !steps[j].GiveUp? {
          assert j < n ==> !steps[..n][j].GiveUp?;
        }
      }
    }
  }

  // ----- the totals -----

  function Outcomes(records: seq<CaseRecord>): seq<Outcome> {
    seq(|records|, i requires 0 <= i < |records| => OutcomeOf(records[i].result))
  }

  lemma {:induction false} TallyIsCount(records: seq<CaseRecord>, which: Outcome)
    ensures Tally(records, which) == multiset(Outcomes(records))[which]
  {
    if records != [] {
      var n := |records| - 1;
      TallyIsCount(records[..n], which);
      assert Outcomes(records) == Outcomes(records[..n]) + [OutcomeOf(records[n].result)];
    }
  }

  lemma {:induction false} CountIsPlaces(outcomes: seq<Outcome>, which: Outcome)
    ensures multiset(outcomes)[which] == |Places(outcomes, which)|
  {
    if outcomes != [] {
      var n := |outcomes| - 1;
      CountIsPlaces(outcomes[..n], which);
      OnePlaceMore(outcomes, which);
      SplitLast(outcomes);
      assert n !in Places(outcomes[..n], which);
    }
  }

  function Places(outcomes: seq<Outcome>, which: Outcome): set<int> {
    set i | 0 <= i < |outcomes| && outcomes[i] == which
  }

  lemma OnePlaceMore(outcomes: seq<Outcome>, which: Outcome)
    requires outcomes != []
    ensures var n := |outcomes| - 1;
            Places(outcomes, which) == Places(outcomes[..n], which) + if outcomes[n] == which then {n} else {}
  {
  }

  lemma TallyCounts(records: seq<CaseRecord>, which: Outcome)
    ensures Tally(records, which) == |set i | 0 <= i < |records| && OutcomeOf(records[i].result) == which|
  {
    TallyIsCount(records, which);
    CountIsPlaces(Outcomes(records), which);
    assert (set i | 0 <= i < |records| && OutcomeOf(records[i].result) == which) ==
           Places(Outcomes(records), which);
  }

  /** The totals are the numbers of the records with one of three results, and of those with any other. */
  lemma TotalsExactly(records: seq<CaseRecord>, passed: nat, failed: nat, skipped: nat, errored: nat)
    requires Tallied(records, passed, failed, skipped, errored)
    ensures passed == |set i | 0 <= i < |records| && records[i].result == "pass"|
    ensures failed == |set i | 0 <= i < |records| && records[i].result == "fail"|
    ensures skipped == |set i | 0 <= i < |records| && records[i].result == "skip"|
    ensures errored == |set i | 0 <= i < |records| && records[i].result !in {"pass", "fail", "skip"}|
  {
    TallyCounts(records, Pass);
    TallyCounts(records, Fail);
    TallyCounts(records, Skip);
    TallyCounts(records, Error);
    WordsOfOutcomes();
    assert (set i | 0 <= i < |records| && OutcomeOf(records[i].result) == Pass) ==
           set i | 0 <= i < |records| && records[i].result == "pass";
    assert (set i | 0 <= i < |records| && OutcomeOf(records[i].result) == Fail) ==
           set i | 0 <= i < |records| && records[i].result == "fail";
    assert (set i | 0 <= i < |records| && OutcomeOf(records[i].result) == Skip) ==
           set i | 0 <= i < |records| && records[i].result == "skip";
    assert (set i | 0 <= i < |records| && OutcomeOf(records[i].result) == Error) ==
           set i | 0 <= i < |records| && records[i].result !in {"pass", "fail", "skip"};
  }

  lemma WordsOfOutcomes()
    ensures forall result :: OutcomeOf(result) == Pass <==> result == "pass"
    ensures forall result :: OutcomeOf(result) == Fail <==> result == "fail"
    ensures forall result :: OutcomeOf(result) == Skip <==> result == "skip"
    ensures forall result :: OutcomeOf(result) == Error <==> result !in {"pass", "fail", "skip"}
  {
    assert "pass"[0] != "fail"[0] && "pass"[0] != "skip"[0] && "fail"[0] != "skip"[0];
  }
}
