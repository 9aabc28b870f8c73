/** Case records on disk and the running totals of a conformance run. */
module CaseFiles {
  import opened Concatenation
  import opened JsonText
  import opened StructuralCheck
  import opened PrettyPrinter
  import opened JsonValue
  import opened CaseLog
  import opened Wrappers

  /** The three JSON fragments the callers build are values here; absent where the source has
      an empty string. */
  datatype CaseRecord = CaseRecord(
    index: int,
    caseId: string,
    title: string,
    phase: string,
    description: string,
    specRef: string,
    requiredTransport: string,
    preferredOrder: seq<string>,
    fixture: Option<Json>,
    expected: Option<Json>,
    actual: Option<Json>,
    result: string,
    errors: seq<string>)

  predicate ValidFragment(f: Option<Json>) {
    f.Some? ==> Valid(f.value)
  }

  predicate ValidRecord(r: CaseRecord) {
    ValidFragment(r.fixture) && ValidFragment(r.expected) && ValidFragment(r.actual)
  }

  /** The names of a case record's fields. */
  datatype Key =
    | CaseIdKey
    | TitleKey
    | PhaseKey
    | DescriptionKey
    | SpecRefKey
    | RequiredTransportKey
    | PreferredOrderKey
    | FixtureKey
    | ExpectedKey
    | ActualKey
    | ResultKey
    | ErrorsKey

  function Name(k: Key): string {
    match k
    case CaseIdKey => "case_id"
    case TitleKey => "title"
    case PhaseKey => "phase"
    case DescriptionKey => "description"
    case SpecRefKey => "spec_ref"
    case RequiredTransportKey => "required_transport"
    case PreferredOrderKey => "preferred_order"
    case FixtureKey => "fixture"
    case ExpectedKey => "expected"
    case ActualKey => "actual"
    case ResultKey => "result"
    case ErrorsKey => "errors"
  }

  function OrNull(f: Option<Json>): Json {
    if f.Some? then f.value else Atom("null")
  }

  function Strings(values: seq<string>): Json {
    Arr(TextItems(values))
  }

  /** A field that is written only when present. */
  function Optional(present: bool, key: string, value: Json, rest: Fields): Fields {
    if present then Field(key, value, rest) else rest
  }

  function ResultFields(r: CaseRecord): Fields {
    Field(Name(ExpectedKey), OrNull(r.expected),
    Field(Name(ActualKey), OrNull(r.actual),
    Field(Name(ResultKey), Text(r.result),
    Field(Name(ErrorsKey), Strings(r.errors), NoFields))))
  }

  function RequestFields(r: CaseRecord): Fields {
    Optional(r.requiredTransport != "", Name(RequiredTransportKey), Text(r.requiredTransport),
    Optional(r.preferredOrder != [], Name(PreferredOrderKey), Strings(r.preferredOrder),
    Optional(r.fixture.Some?, Name(FixtureKey), if r.fixture.Some? then r.fixture.value else Atom("null"),
             ResultFields(r))))
  }

  function CaseFields(r: CaseRecord): Fields {
    Field(Name(CaseIdKey), Text(r.caseId),
    Field(Name(TitleKey), Text(r.title),
    Field(Name(PhaseKey), Text(r.phase),
    Field(Name(DescriptionKey), Text(r.description),
    Field(Name(SpecRefKey), Text(r.specRef), RequestFields(r))))))
  }

  /** What the record is, as a JSON object. */
  function CaseValue(r: CaseRecord): Json {
    Obj(CaseFields(r))
  }

  function CaseText(r: CaseRecord): string {
    Render(Compact, CaseValue(r), 0)
  }

  lemma ObjectOpens(fields: Fields)
    requires fields != NoFields
    ensures Render(Compact, Obj(fields), 0) == "{" + RenderFields(Compact, fields, 1)
  {
    NoGap(RenderFields(Compact, fields, 1));
  }

  lemma FieldValid(key: string, value: Json, rest: Fields)
    requires Valid(value) && ValidFields(rest)
    ensures ValidFields(Field(key, value, rest))
  {
  }

  lemma ResultFieldsValid(r: CaseRecord)
    requires ValidRecord(r)
    ensures ValidFields(ResultFields(r))
  {
    TextItemsValid(r.errors);
    var errors := Field(Name(ErrorsKey), Strings(r.errors), NoFields);
    var result := Field(Name(ResultKey), Text(r.result), errors);
    FieldValid(Name(ErrorsKey), Strings(r.errors), NoFields);
    FieldValid(Name(ResultKey), Text(r.result), errors);
    FieldValid(Name(ActualKey), OrNull(r.actual), result);
    FieldValid(Name(ExpectedKey), OrNull(r.expected), Field(Name(ActualKey), OrNull(r.actual), result));
  }

  lemma OptionalValid(present: bool, key: string, value: Json, rest: Fields)
    requires Valid(value) && ValidFields(rest)
    ensures ValidFields(Optional(present, key, value, rest))
  {
    FieldValid(key, value, rest);
  }

  lemma RequestFieldsValid(r: CaseRecord)
    requires ValidRecord(r)
    ensures ValidFields(RequestFields(r))
  {
    TextItemsValid(r.preferredOrder);
    ResultFieldsValid(r);
    var fixture := if r.fixture.Some? then r.fixture.value else Atom("null");
    var withFixture := Optional(r.fixture.Some?, Name(FixtureKey), fixture, ResultFields(r));
    OptionalValid(r.fixture.Some?, Name(FixtureKey), fixture, ResultFields(r));
    OptionalValid(r.preferredOrder != [], Name(PreferredOrderKey), Strings(r.preferredOrder), withFixture);
    OptionalValid(r.requiredTransport != "", Name(RequiredTransportKey), Text(r.requiredTransport),
                  Optional(r.preferredOrder != [], Name(PreferredOrderKey), Strings(r.preferredOrder), withFixture));
  }

  lemma CaseValueValid(r: CaseRecord)
    requires ValidRecord(r)
    ensures Valid(CaseValue(r))
  {
    var request := RequestFields(r);
    RequestFieldsValid(r);
    var spec := Field(Name(SpecRefKey), Text(r.specRef), request);
    FieldValid(Name(SpecRefKey), Text(r.specRef), request);
    var description := Field(Name(DescriptionKey), Text(r.description), spec);
    FieldValid(Name(DescriptionKey), Text(r.description), spec);
    var phase := Field(Name(PhaseKey), Text(r.phase), description);
    FieldValid(Name(PhaseKey), Text(r.phase), description);
    FieldValid(Name(TitleKey), Text(r.title), phase);
    FieldValid(Name(CaseIdKey), Text(r.caseId), Field(Name(TitleKey), Text(r.title), phase));
  }

  // ----- the text WriteCase streams together -----

  /** Text without characters to escape stands in a literal as it is. */
  lemma {:induction false} PlainText(text: string)
    requires forall i :: 0 <= i < |text| ==> text[i] != '"' && text[i] >= ' ' && text[i] != '\\'
    ensures Encode(Compact, text) == text
  {
    if text != [] {
      PlainText(text[1..]);
      assert [text[0]] + text[1..] == text;
    }
  }

  lemma NamePlain(k: Key)
    ensures Encode(Compact, Name(k)) == Name(k)
  {
    PlainText(Name(k));
  }

  /** One field, written with its name as a literal prefix. */
  lemma FieldText(k: Key, value: Json, rest: Fields)
    ensures RenderFields(Compact, Field(Name(k), value, rest), 1)
            == "\"" + Name(k) + "\":" + Render(Compact, value, 1) +
               (if rest == NoFields then "}" else "," + RenderFields(Compact, rest, 1))
  {
    var key := Name(k);
    NamePlain(k);
    var tail := if rest == NoFields then "}" else "," + RenderFields(Compact, rest, 1);
    NoGap("}");
    NoGap(RenderFields(Compact, rest, 1));
    NoGap(Render(Compact, value, 1) + tail);
    Regroup("\"", key, "\"");
    assert "\"" + key + "\":" == ("\"" + key + "\"") + ":";
    Regroup("\"" + key + "\"", ":", Render(Compact, value, 1) + tail);
    Regroup("\"" + key + "\":", Render(Compact, value, 1), tail);
  }

  /** Compact text does not depend on the level it is rendered at. */
  lemma {:induction false} CompactAtAnyLevel(v: Json, a: nat, b: nat)
    ensures Render(Compact, v, a) == Render(Compact, v, b)
    decreases v, 0
  {
    match v
    case Arr(items) => CompactItemsAtAnyLevel(items, a + 1, b + 1);
    case Obj(fields) => CompactFieldsAtAnyLevel(fields, a + 1, b + 1);
    case _ =>
  }

  lemma {:induction false} CompactItemsAtAnyLevel(items: Items, a: nat, b: nat)
    ensures RenderItems(Compact, items, a) == RenderItems(Compact, items, b)
    decreases items, 1
  {
    if items.Item? {
      CompactAtAnyLevel(items.head, a, b);
      CompactItemsAtAnyLevel(items.tail, a, b);
    }
  }

  lemma {:induction false} CompactFieldsAtAnyLevel(fields: Fields, a: nat, b: nat)
    ensures RenderFields(Compact, fields, a) == RenderFields(Compact, fields, b)
    decreases fields, 1
  {
    if fields.Field? {
      CompactAtAnyLevel(fields.value, a, b);
      CompactFieldsAtAnyLevel(fields.rest, a, b);
    }
  }

  /** Streaming one field that is not the last one. */
  method PutField(json: string, k: Key, text: string, ghost value: Json, ghost rest: Fields) returns (out: string)
    requires text == Render(Compact, value, 0) && rest != NoFields
    ensures json + RenderFields(Compact, Field(Name(k), value, rest), 1) == out + RenderFields(Compact, rest, 1)
  {
    var key := Name(k);
    out := json + "\"" + key + "\":" + text + ",";
    FieldText(k, value, rest);
    CompactAtAnyLevel(value, 0, 1);
    var head := "\"" + key + "\":" + text;
    assert out == (json + head) + ",";
    ghost var more := RenderFields(Compact, rest, 1);
    Regroup(json, head, "," + more);
    Regroup(json + head, ",", more);
  }

  /** A field whose value is quoted. */
  method PutText(json: string, k: Key, x: string, ghost rest: Fields) returns (out: string)
    requires rest != NoFields
    ensures json + RenderFields(Compact, Field(Name(k), Text(x), rest), 1) == out + RenderFields(Compact, rest, 1)
  {
    var text := Quote(x);
    out := PutField(json, k, text, Text(x), rest);
  }

  function FragmentText(f: Option<Json>): string {
    if f.Some? then Render(Compact, f.value, 0) else "null"
  }

  /** A line of the event log: what a caller passed to Event, or a record. */
  datatype LogLine = EventLine(text: string) | CaseLine(record: CaseRecord)

  function LineText(line: LogLine): string {
    match line
    case EventLine(text) => text
    case CaseLine(record) => CaseText(record)
  }

  /** The texts, each with a line break behind it. */
  function Joined(texts: seq<string>): string {
    if texts == [] then "" else Joined(texts[..|texts| - 1]) + (texts[|texts| - 1] + "\n")
  }

  /** The records among the lines, in order. */
  function CaseRecords(lines: seq<LogLine>): seq<CaseRecord> {
    if lines == [] then []
    else
      var last := lines[|lines| - 1];
      CaseRecords(lines[..|lines| - 1]) + (if last.CaseLine? then [last.record] else [])
  }

  lemma LogGrows(texts: seq<string>, text: string, lines: seq<LogLine>, line: LogLine)
    ensures Joined(texts + [text]) == Joined(texts) + (text + "\n")
    ensures CaseRecords(lines + [line]) == CaseRecords(lines) + (if line.CaseLine? then [line.record] else [])
  {
    DropLast(texts, text);
    DropLast(lines, line);
  }

  class CaseLogger {
    /** The content of mock-client.jsonl, the case.json files by index and id, and the records kept for the index. */
    var events: string
    var caseFiles: map<(int, string), string>
    var records: seq<CaseRecord>
    /** The lines of the event log, their texts, and the record in each case file. */
    ghost var lines: seq<LogLine>
    ghost var texts: seq<string>
    ghost var filed: map<(int, string), CaseRecord>

    /** The event log holds the lines, the case lines among them are the records, and the case files hold the
        records filed there. */
    ghost predicate Valid()
      reads this
    {
      && events == Joined(texts)
      && |texts| == |lines| && (forall i :: 0 <= i < |lines| ==> texts[i] == LineText(lines[i]))
      && records == CaseRecords(lines)
      && caseFiles.Keys == filed.Keys && (forall key :: key in filed ==> caseFiles[key] == CaseFileText(filed[key]))
    }

    /** Nothing but the event log changed. */
    twostate predicate KeepsCases()
      reads this
    {
      caseFiles == old(caseFiles) && filed == old(filed) && records == old(records)
    }

    constructor ()
      ensures Valid() && lines == [] && filed == map[] && records == []
    {
      events, caseFiles, records, lines, texts, filed := "", map[], [], [], [], map[];
    }

    /** Appends a line and its line break to the event log. */
    method AppendLine(text: string, ghost line: LogLine)
      requires Valid() && text == LineText(line)
      modifies `events, `lines, `texts
      ensures events == old(events) + text + "\n"
      ensures lines == old(lines) + [line] && texts == old(texts) + [text]
      ensures events == Joined(texts) && |texts| == |lines|
      ensures forall i :: 0 <= i < |lines| ==> texts[i] == LineText(lines[i])
      ensures CaseRecords(lines) == old(records) + (if line.CaseLine? then [line.record] else [])
    {
      LogGrows(texts, text, lines, line);
      Regroup(events, text, "\n");
      events := events + text + "\n";
      lines, texts := lines + [line], texts + [text];
    }

    method Event(jsonObject: string)
      requires Valid()
      modifies this
      ensures Valid() && lines == old(lines) + [EventLine(jsonObject)] && texts == old(texts) + [jsonObject]
      ensures events == old(events) + jsonObject + "\n"
      ensures KeepsCases()
    {
      AppendLine(jsonObject, EventLine(jsonObject));
    }

    method FileText(text: string, ghost record: CaseRecord, key: (int, string))
      requires Valid() && text == CaseFileText(record)
      modifies `caseFiles, `filed
      ensures Valid() && filed == old(filed)[key := record]
      ensures caseFiles == old(caseFiles)[key := text]
    {
      caseFiles := caseFiles[key := text];
      filed := filed[key := record];
    }

    /** Valid ties the two files to the new line and the new filing. */
    method WriteCase(record: CaseRecord)
      requires Valid() && ValidRecord(record)
      modifies this
      ensures Valid() && lines == old(lines) + [CaseLine(record)] && texts[..|texts| - 1] == old(texts)
      ensures filed == old(filed)[(record.index, record.caseId) := record]
      ensures records == old(records) + [record]
    {
      var compact := WriteHeader(record);
      compact := WriteRequest(compact, record);
      compact := WriteResult(compact, record);
      var pretty := PrettyPrint(compact);
      FileText(pretty + "\n", record, (record.index, record.caseId));
      AppendLine(compact, CaseLine(record));
      records := records + [record];
    }

    static method WriteHeader(record: CaseRecord) returns (json: string)
      ensures CaseText(record) == json + RenderFields(Compact, RequestFields(record), 1)
    {
      json := "{";
      ghost var rest := CaseFields(record);
      ObjectOpens(rest);
      json := PutText(json, CaseIdKey, record.caseId, rest.rest);
      rest := rest.rest;
      json := PutText(json, TitleKey, record.title, rest.rest);
      rest := rest.rest;
      json := PutText(json, PhaseKey, record.phase, rest.rest);
      rest := rest.rest;
      json := PutText(json, DescriptionKey, record.description, rest.rest);
      rest := rest.rest;
      json := PutText(json, SpecRefKey, record.specRef, rest.rest);
    }

    /** The fields that are written only when they are set. */
    static method WriteRequest(prefix: string, record: CaseRecord) returns (json: string)
      requires ValidRecord(record)
      ensures prefix + RenderFields(Compact, RequestFields(record), 1)
              == json + RenderFields(Compact, ResultFields(record), 1)
    {
      json := prefix;
      ghost var rest := RequestFields(record);
      if record.requiredTransport != "" {
        json := PutText(json, RequiredTransportKey, record.requiredTransport, rest.rest);
        rest := rest.rest;
      }
      if record.preferredOrder != [] {
        var text := Array(record.preferredOrder);
        json := PutField(json, PreferredOrderKey, text, Strings(record.preferredOrder), rest.rest);
        rest := rest.rest;
      }
      if record.fixture.Some? {
        var text := Render(Compact, record.fixture.value, 0);
        json := PutField(json, FixtureKey, text, record.fixture.value, rest.rest);
        rest := rest.rest;
      }
    }

    static method WriteResult(prefix: string, record: CaseRecord) returns (json: string)
      requires ValidRecord(record)
      ensures json == prefix + RenderFields(Compact, ResultFields(record), 1)
    {
      ghost var rest := ResultFields(record);
      json := PutField(prefix, ExpectedKey, FragmentText(record.expected), OrNull(record.expected), rest.rest);
      rest := rest.rest;
      json := PutField(json, ActualKey, FragmentText(record.actual), OrNull(record.actual), rest.rest);
      rest := rest.rest;
      json := PutText(json, ResultKey, record.result, rest.rest);
      rest := rest.rest;
      var text := Array(record.errors);
      FieldText(ErrorsKey, Strings(record.errors), NoFields);
      CompactAtAnyLevel(Strings(record.errors), 0, 1);
      var name := "\"" + Name(ErrorsKey) + "\":";
      Regroup(json, name, text);
      Regroup(json, name + text, "}");
      json := json + name + text + "}";
    }
  }

  // ----- the line log -----

  lemma {:induction false} OnOneLine(v: Json, level: nat)
    requires Valid(v)
    ensures '\n' !in Render(Compact, v, level)
    decreases v, 0
  {
    match v
    case Atom(text) =>
      assert forall i :: 0 <= i < |text| ==> IsAtomChar(text[i]) && text[i] != '\n';
    case Text(x) => EncodedOnOneLine(x);
    case Arr(items) => ItemsOnOneLine(items, level + 1);
    case Obj(fields) => FieldsOnOneLine(fields, level + 1);
  }

  lemma {:induction false} ItemsOnOneLine(items: Items, level: nat)
    requires ValidItems(items)
    ensures '\n' !in RenderItems(Compact, items, level)
    decreases items, 1
  {
    if items.Item? {
      OnOneLine(items.head, level);
      ItemsOnOneLine(items.tail, level);
    }
  }

  lemma {:induction false} FieldsOnOneLine(fields: Fields, level: nat)
    requires ValidFields(fields)
    ensures '\n' !in RenderFields(Compact, fields, level)
    decreases fields, 1
  {
    if fields.Field? {
      EncodedOnOneLine(fields.key);
      OnOneLine(fields.value, level);
      FieldsOnOneLine(fields.rest, level);
    }
  }

  /** The lines of a text in which each line ends with a line break. */
  function Lines(s: string): seq<string>
    decreases |s|
  {
    if s == [] then []
    else
      var n := LineLength(s);
      [s[..n]] + (if n < |s| then Lines(s[n + 1..]) else [])
  }

  function LineLength(s: string): (n: nat)
    ensures n <= |s|
  {
    if s == [] || s[0] == '\n' then 0 else 1 + LineLength(s[1..])
  }

  lemma {:induction false} FirstLine(text: string, more: string)
    requires '\n' !in text
    ensures Lines(text + ("\n" + more)) == [text] + Lines(more)
  {
    LineEnds(text, more);
    var s := text + ("\n" + more);
    assert s[..|text|] == text && s[|text| + 1..] == more;
  }

  lemma {:induction false} LineEnds(text: string, more: string)
    requires '\n' !in text
    ensures LineLength(text + ("\n" + more)) == |text|
  {
    if text == [] {
      assert text + ("\n" + more) == "\n" + more;
    } else {
      assert (text + ("\n" + more))[1..] == text[1..] + ("\n" + more);
      LineEnds(text[1..], more);
    }
  }

  lemma LineDecodes(r: CaseRecord)
    requires ValidRecord(r)
    ensures '\n' !in CaseText(r) && Decode(CaseText(r)) == Got(CaseValue(r), [])
  {
    CaseValueValid(r);
    OnOneLine(CaseValue(r), 0);
    DecodeRendered(Compact, CaseValue(r), 0);
  }

  lemma {:induction false} JoinedFront(text: string, texts: seq<string>)
    ensures Joined([text] + texts) == text + ("\n" + Joined(texts))
  {
    var all := [text] + texts;
    if texts == [] {
      assert all[..|all| - 1] == [];
      NoGap(text + "\n");
      NothingAfter("\n");
    } else {
      var front, last := texts[..|texts| - 1], texts[|texts| - 1];
      assert all[..|all| - 1] == [text] + front;
      JoinedFront(text, front);
      Regroup4(text, "\n", Joined(front), last + "\n");
    }
  }

  /** The event log splits into the texts that were written. */
  lemma {:induction false} LogSplits(texts: seq<string>)
    requires forall i :: 0 <= i < |texts| ==> '\n' !in texts[i]
    ensures Lines(Joined(texts)) == texts
  {
    if texts != [] {
      LogSplits(texts[1..]);
      SplitFirst(texts);
      JoinedFront(texts[0], texts[1..]);
      FirstLine(texts[0], Joined(texts[1..]));
    }
  }

  /** The content of case.json. */
  function CaseFileText(r: CaseRecord): string {
    Pretty(CaseText(r), 0, Outside) + "\n"
  }

  /** case.json decodes to the record, and the structural check accepts it. */
  lemma CaseFileDecodes(r: CaseRecord)
    requires ValidRecord(r)
    ensures Decode(CaseFileText(r)) == Got(CaseValue(r), [])
    ensures Verify(CaseFileText(r)).Balanced?
  {
    var v := CaseValue(r);
    CaseValueValid(r);
    PrettyKeepsValue(v);
    ReadRendered(Indented, v, 0, "\n");
    assert SkipBlanks("\n") == [];
    AcceptedWithNewline(Render(Indented, v, 0), CaseFields(r));
  }

  lemma AcceptedWithNewline(text: string, fields: Fields)
    requires ValidFields(fields) && text == Render(Indented, Obj(fields), 0)
    ensures Verify(text + "\n").Balanced?
  {
    ScanRendered(Indented, Obj(fields), 0, "\n", 0);
    assert Scan("\n", Outside, 0) == Accept;
    assert (text + "\n")[0] == '{';
  }
}
