/** The report's payload inside its script element (json_for_script of build_diagnostics_report.py). */
module ScriptJson {
  import opened Concatenation
  import opened JsonValue
  import opened StringOrder

  // ----- sorted keys -----

  /** Puts a field behind the fields whose keys do not come after its own. */
  function Insert(key: string, value: Json, fields: Fields): Fields {
    match fields
    case NoFields => Field(key, value, NoFields)
    case Field(k, v, rest) =>
      if Precedes(key, k) then Field(key, value, fields) else Field(k, v, Insert(key, value, rest))
  }

  /** The value with the keys of every object in order. */
  function Sorted(v: Json): Json {
    match v
    case Arr(items) => Arr(SortedItems(items))
    case Obj(fields) => Obj(SortedFields(fields))
    case _ => v
  }

  function SortedItems(items: Items): Items {
    match items
    case NoItems => NoItems
    case Item(head, tail) => Item(Sorted(head), SortedItems(tail))
  }

  function SortedFields(fields: Fields): Fields {
    match fields
    case NoFields => NoFields
    case Field(key, value, rest) => Insert(key, Sorted(value), SortedFields(rest))
  }

  function Dumps(payload: Json): string {
    Render(Dumped, Sorted(payload), 0)
  }

  // ----- the three replacements -----

  /** str.replace for a pattern of one character. */
  function Replace(s: string, c: char, with: string): string {
    if s == [] then [] else (if s[0] == c then with else [s[0]]) + Replace(s[1..], c, with)
  }

  const ANGLE := "\\u003c"

  function JsonForScript(payload: Json): string {
    var text := Dumps(payload);
    var noAngle := Replace(text, '<', ANGLE);
    var noLine := Replace(noAngle, '\U{2028}', "\\u2028");
    Replace(noLine, '\U{2029}', "\\u2029")
  }

  /** What turns Dumped text into a writer's text, in one pass. */
  function EscapeAll(w: Writer, s: string): string {
    if s == [] then [] else EscapeOne(w, s[0]) + EscapeAll(w, s[1..])
  }

  function EscapeOne(w: Writer, c: char): string {
    if NeedsEscape(w, c) then UnicodeEscape(c as int) else [c]
  }

  predicate OnlyEscapes(w: Writer) {
    w.ScriptSafe? || w.LineSafe?
  }

  lemma {:induction false} ReplaceConcat(a: string, b: string, c: char, with: string)
    ensures Replace(a + b, c, with) == Replace(a, c, with) + Replace(b, c, with)
  {
    if a == [] {
      assert a + b == b;
    } else {
      assert (a + b)[1..] == a[1..] + b;
      ReplaceConcat(a[1..], b, c, with);
      Regroup(if a[0] == c then with else [a[0]], Replace(a[1..], c, with), Replace(b, c, with));
    }
  }

  lemma {:induction false} ReplaceAbsent(s: string, c: char, with: string)
    requires c !in s
    ensures Replace(s, c, with) == s
  {
    if s != [] {
      ReplaceAbsent(s[1..], c, with);
      assert [s[0]] + s[1..] == s;
    }
  }

  lemma Escapes()
    ensures UnicodeEscape('<' as int) == ANGLE
    ensures UnicodeEscape(0x2028) == "\\u2028"
    ensures UnicodeEscape(0x2029) == "\\u2029"
  {
  }

  lemma ReplaceSingle(x: char, c: char, with: string)
    ensures Replace([x], c, with) == if x == c then with else [x]
  {
    NoGap(if x == c then with else [x]);
  }

  lemma ReplaceOne(x: char, a: string, b: string, d: string)
    requires '\U{2028}' !in a && '\U{2029}' !in a && '\U{2029}' !in b
    ensures Replace(Replace(Replace([x], '<', a), '\U{2028}', b), '\U{2029}', d)
            == if x == '<' then a else if x == '\U{2028}' then b else if x == '\U{2029}' then d else [x]
  {
    ReplaceSingle(x, '<', a);
    ReplaceSingle(x, '\U{2028}', b);
    ReplaceSingle(x, '\U{2029}', d);
    ReplaceAbsent(a, '\U{2028}', b);
    ReplaceAbsent(a, '\U{2029}', d);
    ReplaceAbsent(b, '\U{2029}', d);
  }

  /** The replacements do not disturb one another. */
  lemma {:induction false} ReplacementsInOnePass(s: string)
    ensures Replace(Replace(Replace(s, '<', ANGLE), '\U{2028}', "\\u2028"), '\U{2029}', "\\u2029") ==
            EscapeAll(ScriptSafe, s)
  {
    if s != [] {
      var rest := s[1..];
      ReplacementsInOnePass(rest);
      ReplaceOne(s[0], ANGLE, "\\u2028", "\\u2029");
      Escapes();
      assert s == [s[0]] + rest;
      ReplaceConcat([s[0]], rest, '<', ANGLE);
      var a, b := Replace([s[0]], '<', ANGLE), Replace(rest, '<', ANGLE);
      ReplaceConcat(a, b, '\U{2028}', "\\u2028");
      ReplaceConcat(Replace(a, '\U{2028}', "\\u2028"), Replace(b, '\U{2028}', "\\u2028"), '\U{2029}', "\\u2029");
    }
  }

  // ----- escaping the whole text escapes its string literals -----

  lemma {:induction false} EscapeConcat(w: Writer, a: string, b: string)
    ensures EscapeAll(w, a + b) == EscapeAll(w, a) + EscapeAll(w, b)
  {
    if a == [] {
      assert a + b == b;
    } else {
      assert (a + b)[1..] == a[1..] + b;
      EscapeConcat(w, a[1..], b);
      Regroup(EscapeOne(w, a[0]), EscapeAll(w, a[1..]), EscapeAll(w, b));
    }
  }

  lemma {:induction false} EscapePlain(w: Writer, s: string)
    requires forall i :: 0 <= i < |s| ==> !NeedsEscape(w, s[i])
    ensures EscapeAll(w, s) == s
  {
    if s != [] {
      EscapePlain(w, s[1..]);
      assert [s[0]] + s[1..] == s;
    }
  }

  lemma EscapeEncodedChar(w: Writer, c: char)
    requires OnlyEscapes(w)
    ensures EscapeAll(w, EncodeChar(Dumped, c)) == EncodeChar(w, c)
  {
    if NeedsEscape(w, c) {
      assert EscapeAll(w, [c]) == EscapeOne(w, c) + [];
    } else {
      EscapePlain(w, EncodeChar(Dumped, c));
    }
  }

  lemma {:induction false} EscapeEncoded(w: Writer, s: string)
    requires OnlyEscapes(w)
    ensures EscapeAll(w, Encode(Dumped, s)) == Encode(w, s)
  {
    if s != [] {
      EscapeEncodedChar(w, s[0]);
      EscapeEncoded(w, s[1..]);
      EscapeConcat(w, EncodeChar(Dumped, s[0]), Encode(Dumped, s[1..]));
    }
  }

  lemma EscapeText(w: Writer, x: string)
    requires OnlyEscapes(w)
    ensures EscapeAll(w, RenderText(Dumped, x)) == RenderText(w, x)
  {
    EscapeEncoded(w, x);
    EscapePlain(w, "\"");
    EscapeConcat(w, Encode(Dumped, x), "\"");
    EscapeConcat(w, "\"", Encode(Dumped, x) + "\"");
  }

  lemma EscapeBetween(w: Writer, left: string, plain: string, right: string)
    requires forall i :: 0 <= i < |plain| ==> !NeedsEscape(w, plain[i])
    ensures EscapeAll(w, left + (plain + right)) == EscapeAll(w, left) + (plain + EscapeAll(w, right))
  {
    EscapePlain(w, plain);
    EscapeConcat(w, plain, right);
    EscapeConcat(w, left, plain + right);
  }

  lemma {:induction false} EscapeRendered(w: Writer, v: Json, level: nat)
    requires OnlyEscapes(w) && Valid(v)
    ensures EscapeAll(w, Render(Dumped, v, level)) == Render(w, v, level)
    decreases v, 0
  {
    match v
    case Atom(text) =>
      assert forall i :: 0 <= i < |text| ==> IsAtomChar(text[i]) && !NeedsEscape(w, text[i]);
      EscapePlain(w, text);
    case Text(x) => EscapeText(w, x);
    case Arr(items) =>
      if items == NoItems {
        EscapePlain(w, "[]");
      } else {
        EscapeRenderedItems(w, items, level + 1);
        NoGap(RenderItems(Dumped, items, level + 1));
        NoGap(RenderItems(w, items, level + 1));
        EscapePlain(w, "[");
        EscapeConcat(w, "[", RenderItems(Dumped, items, level + 1));
      }
    case Obj(fields) =>
      if fields == NoFields {
        EscapePlain(w, "{}");
      } else {
        EscapeRenderedFields(w, fields, level + 1);
        NoGap(RenderFields(Dumped, fields, level + 1));
        NoGap(RenderFields(w, fields, level + 1));
        EscapePlain(w, "{");
        EscapeConcat(w, "{", RenderFields(Dumped, fields, level + 1));
      }
  }

  lemma {:induction false} EscapeRenderedItems(w: Writer, items: Items, level: nat)
    requires OnlyEscapes(w) && items.Item? && ValidItems(items)
    ensures EscapeAll(w, RenderItems(Dumped, items, level)) == RenderItems(w, items, level)
    decreases items, 1
  {
    EscapeRendered(w, items.head, level);
    var first := Render(Dumped, items.head, level);
    NoGap("]");
    if items.tail == NoItems {
      EscapePlain(w, "]");
      EscapeConcat(w, first, "]");
    } else {
      EscapeRenderedItems(w, items.tail, level);
      EscapeBetween(w, ",", " ", RenderItems(Dumped, items.tail, level));
      EscapePlain(w, ",");
      EscapeConcat(w, first, "," + (" " + RenderItems(Dumped, items.tail, level)));
    }
  }

  lemma {:induction false} EscapeRenderedFields(w: Writer, fields: Fields, level: nat)
    requires OnlyEscapes(w) && fields.Field? && ValidFields(fields)
    ensures EscapeAll(w, RenderFields(Dumped, fields, level)) == RenderFields(w, fields, level)
    decreases fields, 1
  {
    EscapeRendered(w, fields.value, level);
    var value := Render(Dumped, fields.value, level);
    if fields.rest == NoFields {
      NoGap("}");
      EscapePlain(w, "}");
      EscapeField(w, fields.key, value, "}");
    } else {
      EscapeRenderedFields(w, fields.rest, level);
      EscapeBetween(w, ",", " ", RenderFields(Dumped, fields.rest, level));
      EscapePlain(w, ",");
      EscapeField(w, fields.key, value, "," + (" " + RenderFields(Dumped, fields.rest, level)));
    }
  }

  lemma EscapeField(w: Writer, key: string, value: string, tail: string)
    requires OnlyEscapes(w)
    ensures EscapeAll(w, RenderText(Dumped, key) + (":" + (" " + (value + tail))))
            == RenderText(w, key) + (":" + (" " + (EscapeAll(w, value) + EscapeAll(w, tail))))
  {
    EscapeText(w, key);
    EscapePlain(w, ":");
    EscapeConcat(w, value, tail);
    EscapeBetween(w, ":", " ", value + tail);
    EscapeConcat(w, RenderText(Dumped, key), ":" + (" " + (value + tail)));
  }

  lemma {:induction false} InsertValid(key: string, value: Json, fields: Fields)
    requires Valid(value) && ValidFields(fields)
    ensures ValidFields(Insert(key, value, fields))
  {
    if fields.Field? {
      InsertValid(key, value, fields.rest);
    }
  }

  lemma {:induction false} SortedValid(v: Json)
    requires Valid(v)
    ensures Valid(Sorted(v))
    decreases v, 0
  {
    match v
    case Arr(items) => SortedItemsValid(items);
    case Obj(fields) => SortedFieldsValid(fields);
    case _ =>
  }

  lemma {:induction false} SortedItemsValid(items: Items)
    requires ValidItems(items)
    ensures ValidItems(SortedItems(items))
    decreases items, 1
  {
    if items.Item? {
      SortedValid(items.head);
      SortedItemsValid(items.tail);
    }
  }

  lemma {:induction false} SortedFieldsValid(fields: Fields)
    requires ValidFields(fields)
    ensures ValidFields(SortedFields(fields))
    decreases fields, 1
  {
    if fields.Field? {
      SortedValid(fields.value);
      SortedFieldsValid(fields.rest);
      InsertValid(fields.key, Sorted(fields.value), SortedFields(fields.rest));
    }
  }

  /** Decoding the script text gives the payload back, with the keys of every object in order. */
  lemma ScriptRoundTrip(payload: Json)
    requires Valid(payload)
    ensures Decode(JsonForScript(payload)) == Got(Sorted(payload), [])
  {
    var v := Sorted(payload);
    SortedValid(payload);
    ReplacementsInOnePass(Dumps(payload));
    EscapeRendered(ScriptSafe, v, 0);
    DecodeRendered(ScriptSafe, v, 0);
  }

  lemma {:induction false} EscapedIsSafe(w: Writer, s: string)
    ensures forall i :: 0 <= i < |EscapeAll(w, s)| ==> !NeedsEscape(w, EscapeAll(w, s)[i])
  {
    if s != [] {
      EscapedIsSafe(w, s[1..]);
      var e := UnicodeEscape(if NeedsEscape(w, s[0]) then s[0] as int else 0);
      assert forall i :: 0 <= i < |e| ==> !NeedsEscape(w, e[i]);
    }
  }

  /** The script text holds no character that could end the element or break a line. */
  lemma ScriptIsSafe(payload: Json)
    ensures '<' !in JsonForScript(payload)
    ensures '\U{2028}' !in JsonForScript(payload) && '\U{2029}' !in JsonForScript(payload)
  {
    ReplacementsInOnePass(Dumps(payload));
    EscapedIsSafe(ScriptSafe, Dumps(payload));
    assert forall c :: c in EscapeAll(ScriptSafe, Dumps(payload)) ==> !NeedsEscape(ScriptSafe, c);
  }

  // ----- what sorting keeps -----

  /** The value found under a key, as in a dictionary: the last one wins. */
  function Lookup(fields: Fields, key: string): Found {
    match fields
    case NoFields => Absent
    case Field(k, v, rest) =>
      if Lookup(rest, key).Present? then Lookup(rest, key) else if k == key then Present(v) else Absent
  }

  datatype Found = Absent | Present(value: Json)

  predicate DistinctKeys(fields: Fields) {
    fields.Field? ==> Lookup(fields.rest, fields.key) == Absent && DistinctKeys(fields.rest)
  }

  predicate KeysInOrder(fields: Fields) {
    fields.Field? && fields.rest.Field? ==>
      !Precedes(fields.rest.key, fields.key) && KeysInOrder(fields.rest)
  }

  lemma {:induction false} InsertKeepsOrder(key: string, value: Json, fields: Fields)
    requires KeysInOrder(fields)
    ensures KeysInOrder(Insert(key, value, fields))
  {
    if fields.Field? {
      PrecedesIsStrict(key, fields.key);
      InsertKeepsOrder(key, value, fields.rest);
    }
  }

  lemma {:induction false} InsertLookup(key: string, value: Json, fields: Fields, k: string)
    requires Lookup(fields, key) == Absent
    ensures Lookup(Insert(key, value, fields), k) == if k == key then Present(value) else Lookup(fields, k)
  {
    if fields.Field? {
      InsertLookup(key, value, fields.rest, k);
    }
  }

  /** Every dictionary keeps its keys and its (sorted) values, and lists the keys in order. */
  lemma {:induction false} SortingKeepsDictionary(fields: Fields, k: string)
    requires DistinctKeys(fields)
    ensures KeysInOrder(SortedFields(fields))
    ensures Lookup(SortedFields(fields), k) ==
            match Lookup(fields, k)
            case Absent => Absent
            case Present(v) => Present(Sorted(v))
  {
    if fields.Field? {
      SortingKeepsDictionary(fields.rest, k);
      SortingKeepsDictionary(fields.rest, fields.key);
      InsertKeepsOrder(fields.key, Sorted(fields.value), SortedFields(fields.rest));
      InsertLookup(fields.key, Sorted(fields.value), SortedFields(fields.rest), k);
    }
  }
}
