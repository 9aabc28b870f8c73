/** The trace of what the client facade did (facade_log.cpp): one line of the event log for each action. */
module FacadeTrace {
  import opened Concatenation
  import opened JsonValue
  import opened CaseLog
  import opened CaseFiles

  /** The names of an entry's fields. */
  datatype FieldName =
    | RecordField
    | PhaseField
    | CaseField
    | ActionField
    | ResultField
    | ErrorField
    | TransportField
    | ConsumerField
    | NameField
    | StatusField

  function Word(key: FieldName): string {
    match key
    case RecordField => "record"
    case PhaseField => "phase"
    case CaseField => "case"
    case ActionField => "action"
    case ResultField => "result"
    case ErrorField => "error"
    case TransportField => "transport"
    case ConsumerField => "consumer_id"
    case NameField => "name"
    case StatusField => "status"
  }

  /** The phase of the run and its current case. */
  datatype Scope = Scope(phase: string, caseId: string)

  datatype Entry = Entry(scope: Scope, action: string, fields: Fields, result: string, error: string)

  // ----- fields one behind the other -----

  function Append(a: Fields, b: Fields): Fields {
    match a
    case NoFields => b
    case Field(key, value, rest) => Field(key, value, Append(rest, b))
  }

  function One(key: FieldName, x: string): Fields {
    Field(Word(key), Text(x), NoFields)
  }

  function With(fields: Fields, key: FieldName, x: string): Fields {
    Append(fields, One(key, x))
  }

  /** Compact fields without the closing brace. */
  function Body(fields: Fields): string {
    match fields
    case NoFields => ""
    case Field(key, value, rest) =>
      RenderText(Compact, key) +
      (":" + (Render(Compact, value, 1) + (if rest == NoFields then "" else "," + Body(rest))))
  }

  lemma {:induction false} BodyCloses(fields: Fields)
    requires fields != NoFields
    ensures Body(fields) + "}" == RenderFields(Compact, fields, 1)
  {
    var rest := fields.rest;
    var tail := if rest == NoFields then "" else "," + Body(rest);
    if rest == NoFields {
      NoGap("}");
    } else {
      BodyCloses(rest);
      NoGap(RenderFields(Compact, rest, 1));
      Regroup(",", Body(rest), "}");
    }
    var value := Render(Compact, fields.value, 1);
    Regroup(value, tail, "}");
    NoGap(value + (tail + "}"));
    Regroup4(RenderText(Compact, fields.key), ":", value + tail, "}");
  }

  lemma {:induction false} BodyAppends(a: Fields, b: Fields)
    requires a != NoFields && b != NoFields
    ensures Append(a, b) != NoFields
    ensures Body(Append(a, b)) == Body(a) + ("," + Body(b))
  {
    var rest, more := a.rest, "," + Body(b);
    var tail := if rest == NoFields then "" else "," + Body(rest);
    if rest == NoFields {
      NoGap(more);
    } else {
      BodyAppends(rest, b);
      Regroup(",", Body(rest), more);
    }
    var value := Render(Compact, a.value, 1);
    Regroup(value, tail, more);
    Regroup4(RenderText(Compact, a.key), ":", value + tail, more);
  }

  lemma {:induction false} AppendValid(a: Fields, b: Fields)
    ensures ValidFields(Append(a, b)) <==> ValidFields(a) && ValidFields(b)
  {
    if a.Field? {
      AppendValid(a.rest, b);
    }
  }

  lemma WordPlain(key: FieldName)
    ensures Encode(Compact, Word(key)) == Word(key)
  {
    PlainText(Word(key));
  }

  /** A field and its quoted value. */
  method Quoted(key: FieldName, x: string) returns (text: string)
    ensures text == Body(One(key, x))
  {
    var value := Quote(x);
    var word := Word(key);
    text := "\"" + word + "\":" + value;
    WordPlain(key);
    NothingAfter(value);
    Regroup("\"", word, "\"");
    Regroup("\"" + word, "\"", ":");
    Regroup("\"" + (word + "\""), ":", value);
    assert "\":" == "\"" + ":";
  }

  // ----- entries -----

  function Head(scope: Scope, action: string): Fields {
    var phased := With(One(RecordField, "facade_action"), PhaseField, scope.phase);
    With(With(phased, CaseField, scope.caseId), ActionField, action)
  }

  function Outcome(fields: Fields, result: string, error: string): Fields {
    var all := With(fields, ResultField, result);
    if error == "" then all else With(all, ErrorField, error)
  }

  function EntryFields(e: Entry): Fields {
    Outcome(Append(Head(e.scope, e.action), e.fields), e.result, e.error)
  }

  function EntryText(e: Entry): string {
    Render(Compact, Obj(EntryFields(e)), 0)
  }

  function TraceLine(action: string, fieldsJson: string, result: string, error: string): string {
    "facade " + action + " -> " + result +
    (if fieldsJson != "" then " {" + fieldsJson + "}" else "") +
    (if error != "" then " error=" + error else "") + "\n"
  }

  /** The entry's line in the event log is one line, and decodes to the entry. */
  lemma EntryDecodes(e: Entry)
    requires ValidFields(e.fields)
    ensures '\n' !in EntryText(e) && Decode(EntryText(e)) == Got(Obj(EntryFields(e)), [])
  {
    HeadValid(e.scope, e.action);
    AppendValid(Head(e.scope, e.action), e.fields);
    OutcomeValid(Append(Head(e.scope, e.action), e.fields), e.result, e.error);
    OnOneLine(Obj(EntryFields(e)), 0);
    DecodeRendered(Compact, Obj(EntryFields(e)), 0);
  }

  lemma HeadValid(scope: Scope, action: string)
    ensures ValidFields(Head(scope, action))
  {
    var record := One(RecordField, "facade_action");
    var phased := With(record, PhaseField, scope.phase);
    AppendValid(record, One(PhaseField, scope.phase));
    AppendValid(phased, One(CaseField, scope.caseId));
    AppendValid(With(phased, CaseField, scope.caseId), One(ActionField, action));
  }

  lemma OutcomeValid(fields: Fields, result: string, error: string)
    requires ValidFields(fields)
    ensures ValidFields(Outcome(fields, result, error))
  {
    AppendValid(fields, One(ResultField, result));
    AppendValid(With(fields, ResultField, result), One(ErrorField, error));
  }

  /** Streaming one more quoted field. */
  method AddText(record: string, key: FieldName, x: string, ghost fields: Fields) returns (out: string)
    requires fields != NoFields && record == "{" + Body(fields)
    ensures With(fields, key, x) != NoFields && out == "{" + Body(With(fields, key, x))
  {
    var text := Quoted(key, x);
    out := record + "," + text;
    BodyAppends(fields, One(key, x));
    Regroup(record, ",", text);
    Regroup("{", Body(fields), "," + text);
  }

  class FacadeLog {
    const logger: CaseLogger
    const phase: string
    var caseId: string
    var lines: string
    /** What was logged so far. */
    ghost var entries: seq<Entry>

    constructor (logger: CaseLogger, phase: string)
      ensures this.logger == logger && this.phase == phase && caseId == "" && lines == "" && entries == []
    {
      this.logger, this.phase := logger, phase;
      caseId, lines, entries := "", "", [];
    }

    function CurrentScope(): Scope
      reads this
    {
      Scope(phase, caseId)
    }

    method SetCase(caseId: string)
      modifies `caseId, `lines
      ensures this.caseId == caseId && lines == ""
    {
      this.caseId := caseId;
      lines := "";
    }

    /** fieldsJson is the text of the fields without their braces, or empty. */
    method Action(action: string, fieldsJson: string, result: string, error: string, ghost fields: Fields)
      requires logger.Valid() && fieldsJson == Body(fields)
      modifies `lines, `entries, logger
      ensures logger.Valid() && logger.KeepsCases()
      ensures var entry := Entry(CurrentScope(), action, fields, result, error);
              && entries == old(entries) + [entry]
              && logger.lines == old(logger.lines) + [EventLine(EntryText(entry))]
      ensures lines == old(lines) + TraceLine(action, fieldsJson, result, error)
    {
      var record := EntryLine(CurrentScope(), action, fieldsJson, result, error, fields);
      logger.Event(record);
      lines := lines + TraceLine(action, fieldsJson, result, error);
      entries := entries + [Entry(CurrentScope(), action, fields, result, error)];
    }

    static method EntryLine(scope: Scope, action: string, fieldsJson: string, result: string, error: string,
                            ghost fields: Fields)
      returns (record: string)
      requires fieldsJson == Body(fields)
      ensures record == EntryText(Entry(scope, action, fields, result, error))
    {
      record := Opening(scope, action);
      ghost var all := Head(scope, action);
      if fieldsJson != "" {
        BodyAppends(all, fields);
        Regroup(record, ",", fieldsJson);
        Regroup("{", Body(all), "," + fieldsJson);
        record := record + "," + fieldsJson;
      }
      AppendNothing(all);
      all := Append(all, fields);
      record := AddText(record, ResultField, result, all);
      all := With(all, ResultField, result);
      if error != "" {
        record := AddText(record, ErrorField, error, all);
        all := With(all, ErrorField, error);
      }
      BodyCloses(all);
      ObjectOpens(all);
      Regroup("{", Body(all), "}");
      record := record + "}";
    }

    static method Opening(scope: Scope, action: string) returns (record: string)
      ensures Head(scope, action) != NoFields && record == "{" + Body(Head(scope, action))
    {
      var fields := Quoted(RecordField, "facade_action");
      record := "{" + fields;
      ghost var phased := With(One(RecordField, "facade_action"), PhaseField, scope.phase);
      record := AddText(record, PhaseField, scope.phase, One(RecordField, "facade_action"));
      record := AddText(record, CaseField, scope.caseId, phased);
      record := AddText(record, ActionField, action, With(phased, CaseField, scope.caseId));
    }
  }

  lemma {:induction false} AppendNothing(fields: Fields)
    ensures Append(fields, NoFields) == fields
  {
    if fields.Field? {
      AppendNothing(fields.rest);
    }
  }
}
