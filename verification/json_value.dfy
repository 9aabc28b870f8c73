/** JSON values, the repository's four ways of writing them, and one decoder for all four. */
module JsonValue {
  import opened Concatenation
  import opened JsonText
  import opened PrettyPrinter

  /** An atom is a number or one of the bare words; its text is kept as written. */
  datatype Json =
    | Atom(text: string)
    | Text(value: string)
    | Arr(items: Items)
    | Obj(fields: Fields)

  datatype Items = NoItems | Item(head: Json, tail: Items)

  datatype Fields = NoFields | Field(key: string, value: Json, rest: Fields)

  predicate IsAtomChar(c: char) {
    'a' <= c <= 'z' || 'A' <= c <= 'Z' || '0' <= c <= '9' || c == '+' || c == '-' || c == '.'
  }

  predicate Valid(v: Json) {
    match v
    case Atom(text) => text != [] && forall i :: 0 <= i < |text| ==> IsAtomChar(text[i])
    case Text(_) => true
    case Arr(items) => ValidItems(items)
    case Obj(fields) => ValidFields(fields)
  }

  predicate ValidItems(items: Items) {
    items.Item? ==> Valid(items.head) && ValidItems(items.tail)
  }

  predicate ValidFields(fields: Fields) {
    fields.Field? ==> Valid(fields.value) && ValidFields(fields.rest)
  }

  // ----- writing -----

  /** Compact: what the case logger assembles with Quote. Indented: the same after PrettyPrint.
      Dumped: Python's json.dumps without ASCII escaping; the CUDA probe's JsonEscape encodes
      strings the same way. ScriptSafe: Dumped, made safe inside a script element. LineSafe: Dumped
      with the line and paragraph separators escaped. */
  datatype Writer = Compact | Indented | Dumped | ScriptSafe | LineSafe

  function HexDigit(n: nat): char
    requires n < 16
  {
    if n < 10 then ('0' as int + n) as char else ('a' as int + n - 10) as char
  }

  /** A backslash, a u and four lower-case hexadecimal digits. */
  function UnicodeEscape(n: nat): string
    requires n < 0x10000
  {
    ['\\', 'u', HexDigit(n / 4096), HexDigit(n / 256 % 16), HexDigit(n / 16 % 16), HexDigit(n % 16)]
  }

  function EncodeChar(w: Writer, c: char): string {
    if c == '"' then "\\\""
    else if c == '\\' then "\\\\"
    else if c == '\n' then "\\n"
    else if c == '\r' then "\\r"
    else if c == '\t' then "\\t"
    else if w.Compact? || w.Indented? then [c]
    else if c == '\U{08}' then "\\b"
    else if c == '\U{0C}' then "\\f"
    else if c < ' ' then UnicodeEscape(c as int)
    else if NeedsEscape(w, c) then UnicodeEscape(c as int)
    else [c]
  }

  predicate IsLineSeparator(c: char) {
    c == '\U{2028}' || c == '\U{2029}'
  }

  /** What a writer escapes beyond Dumped. */
  predicate NeedsEscape(w: Writer, c: char) {
    (w.ScriptSafe? && c == '<') || ((w.ScriptSafe? || w.LineSafe?) && IsLineSeparator(c))
  }

  function Encode(w: Writer, s: string): string {
    if s == [] then [] else EncodeChar(w, s[0]) + Encode(w, s[1..])
  }

  function Opened(w: Writer, level: nat): string {
    if w.Indented? then Break(level) else ""
  }

  function Closing(w: Writer, level: nat): string {
    if w.Indented? then Break(level) else ""
  }

  function AfterComma(w: Writer, level: nat): string {
    if w.Indented? then Break(level) else if w.Compact? then "" else " "
  }

  function AfterColon(w: Writer): string {
    if w.Compact? then "" else " "
  }

  function RenderText(w: Writer, s: string): string {
    "\"" + (Encode(w, s) + "\"")
  }

  function Render(w: Writer, v: Json, level: nat): string {
    match v
    case Atom(text) => text
    case Text(s) => RenderText(w, s)
    case Arr(items) =>
      if items == NoItems then "[]"
      else "[" + (Opened(w, level + 1) + RenderItems(w, items, level + 1))
    case Obj(fields) =>
      if fields == NoFields then "{}"
      else "{" + (Opened(w, level + 1) + RenderFields(w, fields, level + 1))
  }

  /** The items of an array from its first one to its closing bracket. */
  function RenderItems(w: Writer, items: Items, level: nat): string {
    match items
    case NoItems => []
    case Item(head, tail) =>
      Render(w, head, level) +
      (if tail == NoItems then Closing(w, if level > 0 then level - 1 else 0) + "]"
       else "," + (AfterComma(w, level) + RenderItems(w, tail, level)))
  }

  function RenderFields(w: Writer, fields: Fields, level: nat): string {
    match fields
    case NoFields => []
    case Field(key, value, rest) =>
      RenderText(w, key) + (":" + (AfterColon(w) + (Render(w, value, level) +
      (if rest == NoFields then Closing(w, if level > 0 then level - 1 else 0) + "}"
       else "," + (AfterComma(w, level) + RenderFields(w, rest, level))))))
  }

  // ----- reading -----

  datatype Parsed<T> = Nothing | Got(value: T, rest: string)

  function HexValue(c: char): int {
    if '0' <= c <= '9' then c as int - '0' as int
    else if 'a' <= c <= 'f' then c as int - 'a' as int + 10
    else if 'A' <= c <= 'F' then c as int - 'A' as int + 10
    else -1
  }

  /** One character of a string literal. Accepts the escapes of section 7 of RFC 8259 except
      surrogate halves, and unescaped control characters. */
  function ReadChar(s: string): (r: Parsed<char>)
    ensures r.Got? ==> |r.rest| < |s|
  {
    if s == [] || s[0] == '"' then Nothing
    else if s[0] != '\\' then Got(s[0], s[1..])
    else if |s| < 2 then Nothing
    else
      match s[1]
      case '"' => Got('"', s[2..])
      case '\\' => Got('\\', s[2..])
      case '/' => Got('/', s[2..])
      case 'b' => Got('\U{08}', s[2..])
      case 'f' => Got('\U{0C}', s[2..])
      case 'n' => Got('\n', s[2..])
      case 'r' => Got('\r', s[2..])
      case 't' => Got('\t', s[2..])
      case 'u' =>
        if |s| < 6 || HexValue(s[2]) < 0 || HexValue(s[3]) < 0 || HexValue(s[4]) < 0 || HexValue(s[5]) < 0 then Nothing
        else
          var n := HexValue(s[2]) * 4096 + HexValue(s[3]) * 256 + HexValue(s[4]) * 16 + HexValue(s[5]);
          if 0xD800 <= n < 0xE000 then Nothing else Got(n as char, s[6..])
      case _ => Nothing
  }

  /** The rest of a string literal and its closing quote. */
  function ReadText(s: string): (r: Parsed<string>)
    ensures r.Got? ==> |r.rest| < |s|
    decreases |s|
  {
    if s != [] && s[0] == '"' then Got([], s[1..])
    else
      match ReadChar(s)
      case Nothing => Nothing
      case Got(c, rest) =>
        match ReadText(rest)
        case Nothing => Nothing
        case Got(more, after) => Got([c] + more, after)
  }

  function AtomLength(s: string): (n: nat)
    ensures n <= |s|
  {
    if s == [] || !IsAtomChar(s[0]) then 0 else 1 + AtomLength(s[1..])
  }

  function ReadValue(s: string): (r: Parsed<Json>)
    ensures r.Got? ==> |r.rest| < |s|
    decreases |s|, 0
  {
    var t := SkipBlanks(s);
    if t == [] then Nothing
    else if t[0] == '"' then
      match ReadText(t[1..])
      case Nothing => Nothing
      case Got(x, rest) => Got(Text(x), rest)
    else if t[0] == '[' then
      var u := SkipBlanks(t[1..]);
      if u != [] && u[0] == ']' then Got(Arr(NoItems), u[1..])
      else
        (match ReadItems(u)
         case Nothing => Nothing
         case Got(items, rest) => Got(Arr(items), rest))
    else if t[0] == '{' then
      var u := SkipBlanks(t[1..]);
      if u != [] && u[0] == '}' then Got(Obj(NoFields), u[1..])
      else
        (match ReadFields(u)
         case Nothing => Nothing
         case Got(fields, rest) => Got(Obj(fields), rest))
    else if IsAtomChar(t[0]) then Got(Atom(t[..AtomLength(t)]), t[AtomLength(t)..])
    else Nothing
  }

  function ReadItems(s: string): (r: Parsed<Items>)
    ensures r.Got? ==> |r.rest| < |s|
    decreases |s|, 1
  {
    match ReadValue(s)
    case Nothing => Nothing
    case Got(head, rest) =>
      var t := SkipBlanks(rest);
      if t == [] then Nothing
      else if t[0] == ']' then Got(Item(head, NoItems), t[1..])
      else if t[0] == ',' then
        (match ReadItems(t[1..])
         case Nothing => Nothing
         case Got(tail, after) => Got(Item(head, tail), after))
      else Nothing
  }

  function ReadFields(s: string): (r: Parsed<Fields>)
    ensures r.Got? ==> |r.rest| < |s|
    decreases |s|, 1
  {
    var k := SkipBlanks(s);
    if k == [] || k[0] != '"' then Nothing
    else
      match ReadText(k[1..])
      case Nothing => Nothing
      case Got(key, afterKey) =>
        var colon := SkipBlanks(afterKey);
        if colon == [] || colon[0] != ':' then Nothing
        else
          match ReadValue(colon[1..])
          case Nothing => Nothing
          case Got(value, rest) =>
            var t := SkipBlanks(rest);
            if t == [] then Nothing
            else if t[0] == '}' then Got(Field(key, value, NoFields), t[1..])
            else if t[0] == ',' then
              (match ReadFields(t[1..])
               case Nothing => Nothing
               case Got(more, after) => Got(Field(key, value, more), after))
            else Nothing
  }

  /** A whole document: one value and nothing but blanks around it. */
  function Decode(s: string): Parsed<Json> {
    match ReadValue(s)
    case Nothing => Nothing
    case Got(v, rest) => if SkipBlanks(rest) == [] then Got(v, []) else Nothing
  }

  // ----- reading back what was written -----

  lemma HexRoundTrip(n: nat)
    requires n < 16
    ensures HexValue(HexDigit(n)) == n
  {
  }

  lemma ReadEscape(n: nat, more: string)
    requires n < 0xD800
    ensures ReadChar(UnicodeEscape(n) + more) == Got(n as char, more)
  {
    HexRoundTrip(n / 4096);
    HexRoundTrip(n / 256 % 16);
    HexRoundTrip(n / 16 % 16);
    HexRoundTrip(n % 16);
    FourDigits(n);
    ReadHex(HexDigit(n / 4096), HexDigit(n / 256 % 16), HexDigit(n / 16 % 16), HexDigit(n % 16), n, more);
  }

  lemma FourDigits(n: nat)
    requires n < 0x10000
    ensures n / 4096 * 4096 + n / 256 % 16 * 256 + n / 16 % 16 * 16 + n % 16 == n
  {
    var a := n / 16;
    var b := a / 16;
    assert b == n / 256 && b / 16 == n / 4096;
  }

  lemma ReadHex(a: char, b: char, c: char, d: char, n: nat, more: string)
    requires HexValue(a) >= 0 && HexValue(b) >= 0 && HexValue(c) >= 0 && HexValue(d) >= 0
    requires HexValue(a) * 4096 + HexValue(b) * 256 + HexValue(c) * 16 + HexValue(d) == n < 0xD800
    ensures ReadChar(['\\', 'u', a, b, c, d] + more) == Got(n as char, more)
  {
    var s := ['\\', 'u', a, b, c, d] + more;
    assert s[6..] == more;
  }

  lemma ReadEncodedChar(w: Writer, c: char, more: string)
    ensures ReadChar(EncodeChar(w, c) + more) == Got(c, more)
    ensures (EncodeChar(w, c) + more)[0] != '"'
  {
    var s := EncodeChar(w, c) + more;
    if |EncodeChar(w, c)| == 6 {
      ReadEscape(c as int, more);
    } else if |EncodeChar(w, c)| == 2 {
      assert s[2..] == more;
    } else {
      assert s[1..] == more;
    }
  }

  lemma ReadTextStep(s: string, c: char, rest: string, tail: string, after: string)
    requires s != [] && s[0] != '"' && ReadChar(s) == Got(c, rest) && ReadText(rest) == Got(tail, after)
    ensures ReadText(s) == Got([c] + tail, after)
  {
  }

  lemma {:induction false} ReadEncoded(w: Writer, s: string, more: string)
    ensures ReadText(Encode(w, s) + ("\"" + more)) == Got(s, more)
  {
    if s == [] {
      assert Encode(w, s) + ("\"" + more) == "\"" + more;
      Uncons('"', more);
    } else {
      var rest := Encode(w, s[1..]) + ("\"" + more);
      Regroup(EncodeChar(w, s[0]), Encode(w, s[1..]), "\"" + more);
      ReadEncodedChar(w, s[0], rest);
      ReadEncoded(w, s[1..], more);
      ReadTextStep(EncodeChar(w, s[0]) + rest, s[0], rest, s[1..], more);
      assert [s[0]] + s[1..] == s;
    }
  }

  lemma {:induction false} AtomEnds(text: string, more: string)
    requires forall i :: 0 <= i < |text| ==> IsAtomChar(text[i])
    requires more == [] || !IsAtomChar(more[0])
    ensures AtomLength(text + more) == |text|
  {
    if text == [] {
      assert text + more == more;
    } else {
      assert (text + more)[1..] == text[1..] + more;
      AtomEnds(text[1..], more);
    }
  }

  /** What may follow v without being read as part of it. */
  predicate Separates(v: Json, more: string) {
    v.Atom? && more != [] ==> !IsAtomChar(more[0])
  }

  /** A written value begins with a character that opens a value. */
  lemma RenderHead(w: Writer, v: Json, level: nat)
    requires Valid(v)
    ensures var r := Render(w, v, level);
            r != [] && !IsBlank(r[0]) && !IsClose(r[0]) && (v.Text? || r[0] != '"')
  {
  }

  lemma GapsAreBlank(w: Writer, level: nat)
    ensures AllBlank(Opened(w, level)) && AllBlank(Closing(w, level))
    ensures AllBlank(AfterComma(w, level)) && AllBlank(AfterColon(w))
  {
    BreakIsBlank(level);
  }

  lemma ReadPastBlanks(blanks: string, s: string)
    requires AllBlank(blanks)
    ensures ReadValue(blanks + s) == ReadValue(s)
    ensures ReadItems(blanks + s) == ReadItems(s)
    ensures ReadFields(blanks + s) == ReadFields(s)
  {
    SkipBlanksConcat(blanks, s);
  }

  lemma SkipTo(blanks: string, c: char, more: string)
    requires AllBlank(blanks) && !IsBlank(c)
    ensures SkipBlanks(blanks + ([c] + more)) == [c] + more
    ensures ([c] + more)[0] == c && ([c] + more)[1..] == more
  {
    SkipBlanksConcat(blanks, [c] + more);
  }

  lemma SkipNothing(c: char, more: string)
    requires !IsBlank(c)
    ensures SkipBlanks([c] + more) == [c] + more
    ensures ([c] + more)[0] == c && ([c] + more)[1..] == more
  {
  }

  // One step of each reader, from the parts of the text it meets.

  lemma ReadItemsLast(s: string, head: Json, blanks: string, more: string)
    requires AllBlank(blanks) && ReadValue(s) == Got(head, blanks + ("]" + more))
    ensures ReadItems(s) == Got(Item(head, NoItems), more)
  {
    SkipTo(blanks, ']', more);
  }

  lemma ReadItemsNext(s: string, head: Json, rest: string, tail: Items, more: string)
    requires ReadValue(s) == Got(head, "," + rest) && ReadItems(rest) == Got(tail, more)
    ensures ReadItems(s) == Got(Item(head, tail), more)
  {
    SkipNothing(',', rest);
  }

  lemma ReadFieldsLast(s: string, key: string, blanks: string, more: string, value: Json, afterKey: string)
    requires AllBlank(blanks) && s != [] && s[0] == '"' && ReadText(s[1..]) == Got(key, ":" + afterKey)
    requires ReadValue(afterKey) == Got(value, blanks + ("}" + more))
    ensures ReadFields(s) == Got(Field(key, value, NoFields), more)
  {
    SkipNothing(':', afterKey);
    SkipTo(blanks, '}', more);
  }

  lemma ReadFieldsNext(s: string, key: string, rest: string, value: Json, afterKey: string, tail: Fields, more: string)
    requires s != [] && s[0] == '"' && ReadText(s[1..]) == Got(key, ":" + afterKey)
    requires ReadValue(afterKey) == Got(value, "," + rest) && ReadFields(rest) == Got(tail, more)
    ensures ReadFields(s) == Got(Field(key, value, tail), more)
  {
    SkipNothing(':', afterKey);
    SkipNothing(',', rest);
  }

  lemma ReadArr(blanks: string, s: string, more: string, items: Items)
    requires AllBlank(blanks) && s != [] && !IsBlank(s[0]) && s[0] != ']'
    requires ReadItems(s + more) == Got(items, more)
    ensures ReadValue(("[" + (blanks + s)) + more) == Got(Arr(items), more)
  {
    Regroup4("[", blanks, s, more);
    Uncons('[', blanks + (s + more));
    SkipBlanksConcat(blanks, s + more);
    assert (s + more)[0] == s[0];
  }

  lemma ReadObj(blanks: string, s: string, more: string, fields: Fields)
    requires AllBlank(blanks) && s != [] && !IsBlank(s[0]) && s[0] != '}'
    requires ReadFields(s + more) == Got(fields, more)
    ensures ReadValue(("{" + (blanks + s)) + more) == Got(Obj(fields), more)
  {
    Regroup4("{", blanks, s, more);
    Uncons('{', blanks + (s + more));
    SkipBlanksConcat(blanks, s + more);
    assert (s + more)[0] == s[0];
  }

  lemma ReadEmpty(more: string)
    ensures ReadValue("[]" + more) == Got(Arr(NoItems), more)
    ensures ReadValue("{}" + more) == Got(Obj(NoFields), more)
  {
    assert "[]" + more == "[" + ("]" + more);
    assert "{}" + more == "{" + ("}" + more);
    Uncons('[', "]" + more);
    Uncons(']', more);
    Uncons('{', "}" + more);
    Uncons('}', more);
  }

  lemma ReadAtom(text: string, more: string)
    requires Valid(Atom(text)) && Separates(Atom(text), more)
    ensures ReadValue(text + more) == Got(Atom(text), more)
  {
    AtomEnds(text, more);
    var s := text + more;
    assert IsAtomChar(s[0]) && s[..|text|] == text && s[|text|..] == more;
  }

  lemma ReadString(w: Writer, x: string, more: string)
    ensures ReadText((RenderText(w, x) + more)[1..]) == Got(x, more)
    ensures (RenderText(w, x) + more)[0] == '"'
    ensures ReadValue(RenderText(w, x) + more) == Got(Text(x), more)
  {
    Regroup4("\"", Encode(w, x), "\"", more);
    Uncons('"', Encode(w, x) + ("\"" + more));
    ReadEncoded(w, x, more);
  }

  /** Every value is read back from each writer's text, whatever follows it. */
  lemma {:induction false} ReadRendered(w: Writer, v: Json, level: nat, more: string)
    requires Valid(v) && Separates(v, more)
    ensures ReadValue(Render(w, v, level) + more) == Got(v, more)
    decreases v, 0
  {
    match v
    case Atom(text) => ReadAtom(text, more);
    case Text(x) => ReadString(w, x, more);
    case Arr(items) =>
      if items == NoItems {
        ReadEmptyValue(w, v, level, more);
      } else {
        ReadRenderedItems(w, items, level + 1, more);
        ReadWholeArray(w, items, level, more);
      }
    case Obj(fields) =>
      if fields == NoFields {
        ReadEmptyValue(w, v, level, more);
      } else {
        ReadRenderedFields(w, fields, level + 1, more);
        ReadWholeObject(w, fields, level, more);
      }
  }

  lemma ReadEmptyValue(w: Writer, v: Json, level: nat, more: string)
    requires v == Arr(NoItems) || v == Obj(NoFields)
    ensures ReadValue(Render(w, v, level) + more) == Got(v, more)
  {
    ReadEmpty(more);
  }

  lemma ReadWholeArray(w: Writer, items: Items, level: nat, more: string)
    requires items.Item? && ValidItems(items)
    requires ReadItems(RenderItems(w, items, level + 1) + more) == Got(items, more)
    ensures ReadValue(Render(w, Arr(items), level) + more) == Got(Arr(items), more)
  {
    ArrayParts(w, items, level);
    ReadArr(Opened(w, level + 1), RenderItems(w, items, level + 1), more, items);
  }

  lemma ArrayParts(w: Writer, items: Items, level: nat)
    requires items.Item? && ValidItems(items)
    ensures AllBlank(Opened(w, level + 1))
    ensures var s := RenderItems(w, items, level + 1);
            s != [] && !IsBlank(s[0]) && !IsClose(s[0]) &&
            Render(w, Arr(items), level) == "[" + (Opened(w, level + 1) + s)
  {
    GapsAreBlank(w, level + 1);
    ItemsHead(w, items, level + 1);
  }

  lemma ReadWholeObject(w: Writer, fields: Fields, level: nat, more: string)
    requires fields.Field? && ValidFields(fields)
    requires ReadFields(RenderFields(w, fields, level + 1) + more) == Got(fields, more)
    ensures ReadValue(Render(w, Obj(fields), level) + more) == Got(Obj(fields), more)
  {
    ObjectParts(w, fields, level);
    ReadObj(Opened(w, level + 1), RenderFields(w, fields, level + 1), more, fields);
  }

  lemma ObjectParts(w: Writer, fields: Fields, level: nat)
    requires fields.Field?
    ensures AllBlank(Opened(w, level + 1))
    ensures var s := RenderFields(w, fields, level + 1);
            s != [] && s[0] == '"' && Render(w, Obj(fields), level) == "{" + (Opened(w, level + 1) + s)
  {
    GapsAreBlank(w, level + 1);
    FieldsHead(w, fields, level + 1);
  }

  lemma FieldsHead(w: Writer, fields: Fields, level: nat)
    requires fields.Field?
    ensures RenderFields(w, fields, level) != [] && RenderFields(w, fields, level)[0] == '"'
  {
  }

  lemma ItemsHead(w: Writer, items: Items, level: nat)
    requires items.Item? && ValidItems(items)
    ensures var s := RenderItems(w, items, level);
            s != [] && !IsBlank(s[0]) && !IsClose(s[0])
  {
    RenderHead(w, items.head, level);
  }

  lemma {:induction false} ReadRenderedItems(w: Writer, items: Items, level: nat, more: string)
    requires items.Item? && ValidItems(items) && level > 0
    ensures ReadItems(RenderItems(w, items, level) + more) == Got(items, more)
    decreases items, 1
  {
    var first := Render(w, items.head, level);
    if items.tail == NoItems {
      var gap := Closing(w, level - 1);
      GapsAreBlank(w, level - 1);
      Regroup4(first, gap, "]", more);
      CloseSeparates(items.head, gap, ']', more);
      ReadRendered(w, items.head, level, gap + ("]" + more));
      ReadItemsLast(first + (gap + ("]" + more)), items.head, gap, more);
    } else {
      var gap, rest := AfterComma(w, level), RenderItems(w, items.tail, level);
      GapsAreBlank(w, level);
      Regroup5(first, ",", gap, rest, more);
      ReadRendered(w, items.head, level, "," + (gap + (rest + more)));
      ReadRenderedItems(w, items.tail, level, more);
      ReadPastBlanks(gap, rest + more);
      ReadItemsNext(first + ("," + (gap + (rest + more))), items.head, gap + (rest + more), items.tail, more);
    }
  }

  lemma CloseSeparates(v: Json, blanks: string, close: char, more: string)
    requires AllBlank(blanks) && IsClose(close)
    ensures Separates(v, blanks + ([close] + more))
  {
    if blanks != [] {
      assert (blanks + ([close] + more))[0] == blanks[0];
    }
  }

  lemma {:induction false} ReadRenderedFields(w: Writer, fields: Fields, level: nat, more: string)
    requires fields.Field? && ValidFields(fields) && level > 0
    ensures ReadFields(RenderFields(w, fields, level) + more) == Got(fields, more)
    decreases fields, 1
  {
    var key, colon, value := RenderText(w, fields.key), AfterColon(w), Render(w, fields.value, level);
    GapsAreBlank(w, level);
    GapsAreBlank(w, level - 1);
    if fields.rest == NoFields {
      var gap := Closing(w, level - 1);
      var last := gap + ("}" + more);
      Regroup5(key, ":", colon, value + (gap + "}"), more);
      Regroup4(value, gap, "}", more);
      CloseSeparates(fields.value, gap, '}', more);
      ReadRendered(w, fields.value, level, last);
      ReadPastBlanks(colon, value + last);
      ReadString(w, fields.key, ":" + (colon + (value + last)));
      ReadFieldsLast(key + (":" + (colon + (value + last))), fields.key, gap, more, fields.value,
                     colon + (value + last));
    } else {
      var gap, rest := AfterComma(w, level), RenderFields(w, fields.rest, level);
      var next := gap + (rest + more);
      Regroup5(key, ":", colon, value + ("," + (gap + rest)), more);
      Regroup5(value, ",", gap, rest, more);
      ReadRendered(w, fields.value, level, "," + next);
      ReadPastBlanks(colon, value + ("," + next));
      ReadString(w, fields.key, ":" + (colon + (value + ("," + next))));
      ReadRenderedFields(w, fields.rest, level, more);
      ReadPastBlanks(gap, rest + more);
      ReadFieldsNext(key + (":" + (colon + (value + ("," + next)))), fields.key, next, fields.value,
                     colon + (value + ("," + next)), fields.rest, more);
    }
  }

  /** Decoding any writer's text gives the value back. */
  lemma DecodeRendered(w: Writer, v: Json, level: nat)
    requires Valid(v)
    ensures Decode(Render(w, v, level)) == Got(v, [])
  {
    ReadRendered(w, v, level, []);
    assert Render(w, v, level) + [] == Render(w, v, level);
  }
}
