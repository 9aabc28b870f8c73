/** The case logger: Quote, Array and the two files a case record is written to. */
module CaseLog {
  import opened Concatenation
  import opened JsonText
  import opened StructuralCheck
  import opened PrettyPrinter
  import opened JsonValue

  // ----- what the rendered text does to the two scanners -----

  lemma {:induction false} PlainStaysQuoted(s: string)
    requires forall i :: 0 <= i < |s| ==> s[i] != '"' && s[i] != '\\'
    ensures StaysQuoted(Inside, s) && Advance(Inside, s) == Inside
  {
    if s != [] {
      PlainStaysQuoted(s[1..]);
    }
  }

  lemma EscapeStaysQuoted(c: char, plain: string)
    requires forall i :: 0 <= i < |plain| ==> plain[i] != '"' && plain[i] != '\\'
    ensures StaysQuoted(Inside, ['\\', c] + plain) && Advance(Inside, ['\\', c] + plain) == Inside
  {
    PlainStaysQuoted(plain);
    assert ['\\', c] + plain == ['\\'] + ([c] + plain);
    Uncons('\\', [c] + plain);
    Uncons(c, plain);
    assert Advance(Escaped, [c] + plain) == Inside;
  }

  lemma CharStaysQuoted(w: Writer, c: char)
    ensures StaysQuoted(Inside, EncodeChar(w, c)) && Advance(Inside, EncodeChar(w, c)) == Inside
  {
    var s := EncodeChar(w, c);
    if |s| == 6 {
      EscapeStaysQuoted(s[1], s[2..]);
      assert s == ['\\', s[1]] + s[2..];
    } else if |s| == 2 {
      EscapeStaysQuoted(s[1], []);
      assert s == ['\\', s[1]] + [];
    } else {
      PlainStaysQuoted(s);
    }
  }

  lemma {:induction false} QuotedConcat(q: Quoting, a: string, b: string)
    requires StaysQuoted(q, a) && StaysQuoted(Advance(q, a), b)
    ensures StaysQuoted(q, a + b) && Advance(q, a + b) == Advance(Advance(q, a), b)
    decreases |a|
  {
    if a == [] {
      assert a + b == b;
    } else {
      assert (a + b)[1..] == a[1..] + b;
      QuotedConcat(Step(q, a[0]), a[1..], b);
    }
  }

  /** An encoded string never leaves its literal, whichever writer encoded it. */
  lemma {:induction false} EncodedStaysQuoted(w: Writer, s: string)
    ensures StaysQuoted(Inside, Encode(w, s)) && Advance(Inside, Encode(w, s)) == Inside
  {
    if s != [] {
      CharStaysQuoted(w, s[0]);
      EncodedStaysQuoted(w, s[1..]);
      QuotedConcat(Inside, EncodeChar(w, s[0]), Encode(w, s[1..]));
    }
  }

  lemma {:induction false} ScanQuoted(q: Quoting, s: string, more: string, depth: nat)
    requires StaysQuoted(q, s)
    ensures Scan(s + more, q, depth) == Scan(more, Advance(q, s), depth)
    decreases |s|
  {
    if s == [] {
      assert s + more == more;
    } else {
      assert (s + more)[1..] == s[1..] + more;
      ScanQuoted(Step(q, s[0]), s[1..], more, depth);
    }
  }

  lemma ScanText(w: Writer, x: string, more: string, depth: nat)
    ensures Scan(RenderText(w, x) + more, Outside, depth) == Scan(more, Outside, depth)
  {
    EncodedStaysQuoted(w, x);
    Regroup4("\"", Encode(w, x), "\"", more);
    Uncons('"', Encode(w, x) + ("\"" + more));
    ScanQuoted(Inside, Encode(w, x), "\"" + more, depth);
    Uncons('"', more);
  }

  lemma {:induction false} ScanPlain(s: string, more: string, depth: nat)
    requires forall i :: 0 <= i < |s| ==> s[i] != '"' && !IsOpen(s[i]) && !IsClose(s[i])
    ensures Scan(s + more, Outside, depth) == Scan(more, Outside, depth)
  {
    if s == [] {
      assert s + more == more;
    } else {
      assert (s + more)[1..] == s[1..] + more;
      ScanPlain(s[1..], more, depth);
    }
  }

  /** The depth-counting scan comes back from any rendered value at the depth it entered it. */
  lemma {:induction false} ScanRendered(w: Writer, v: Json, level: nat, more: string, depth: nat)
    requires Valid(v)
    ensures Scan(Render(w, v, level) + more, Outside, depth) == Scan(more, Outside, depth)
    decreases v, 0
  {
    match v
    case Atom(text) => ScanPlain(text, more, depth);
    case Text(x) => ScanText(w, x, more, depth);
    case Arr(items) =>
      if items == NoItems {
        ScanEmpty('[', ']', more, depth);
      } else {
        ScanRenderedItems(w, items, level + 1, more, depth + 1);
        ScanOpened('[', w, RenderItems(w, items, level + 1), level, more, depth);
      }
    case Obj(fields) =>
      if fields == NoFields {
        ScanEmpty('{', '}', more, depth);
      } else {
        ScanRenderedFields(w, fields, level + 1, more, depth + 1);
        ScanOpened('{', w, RenderFields(w, fields, level + 1), level, more, depth);
      }
  }

  lemma ScanOpened(open: char, w: Writer, s: string, level: nat, more: string, depth: nat)
    requires IsOpen(open) && Scan(s + more, Outside, depth + 1) == Scan(more, Outside, depth)
    ensures Scan(([open] + (Opened(w, level + 1) + s)) + more, Outside, depth) == Scan(more, Outside, depth)
  {
    var gap := Opened(w, level + 1);
    GapsAreBlank(w, level + 1);
    Regroup4([open], gap, s, more);
    Uncons(open, gap + (s + more));
    ScanPlain(gap, s + more, depth + 1);
  }

  lemma ScanEmpty(open: char, close: char, more: string, depth: nat)
    requires IsOpen(open) && IsClose(close)
    ensures Scan([open, close] + more, Outside, depth) == Scan(more, Outside, depth)
  {
    assert [open, close] + more == [open] + ([close] + more);
    Uncons(open, [close] + more);
    Uncons(close, more);
  }

  lemma ScanClosing(gap: string, close: char, more: string, depth: nat)
    requires AllBlank(gap) && IsClose(close) && depth > 0
    ensures Scan(gap + ([close] + more), Outside, depth) == Scan(more, Outside, depth - 1)
  {
    ScanPlain(gap, [close] + more, depth);
    Uncons(close, more);
  }

  lemma ScanComma(gap: string, more: string, depth: nat)
    requires AllBlank(gap)
    ensures Scan("," + (gap + more), Outside, depth) == Scan(more, Outside, depth)
  {
    Uncons(',', gap + more);
    ScanPlain(gap, more, depth);
  }

  lemma {:induction false} ScanRenderedItems(w: Writer, items: Items, level: nat, more: string, depth: nat)
    requires items.Item? && ValidItems(items) && level > 0 && depth > 0
    ensures Scan(RenderItems(w, items, level) + more, Outside, depth) == Scan(more, Outside, depth - 1)
    decreases items, 1
  {
    var first := Render(w, items.head, level);
    if items.tail == NoItems {
      var gap := Closing(w, level - 1);
      GapsAreBlank(w, level - 1);
      Regroup4(first, gap, "]", more);
      ScanRendered(w, items.head, level, gap + ("]" + more), depth);
      ScanClosing(gap, ']', more, depth);
    } else {
      var gap, rest := AfterComma(w, level), RenderItems(w, items.tail, level);
      GapsAreBlank(w, level);
      Regroup5(first, ",", gap, rest, more);
      ScanRendered(w, items.head, level, "," + (gap + (rest + more)), depth);
      ScanComma(gap, rest + more, depth);
      ScanRenderedItems(w, items.tail, level, more, depth);
    }
  }

  lemma {:induction false} ScanRenderedFields(w: Writer, fields: Fields, level: nat, more: string, depth: nat)
    requires fields.Field? && ValidFields(fields) && level > 0 && depth > 0
    ensures Scan(RenderFields(w, fields, level) + more, Outside, depth) == Scan(more, Outside, depth - 1)
    decreases fields, 1
  {
    var key, colon, value := RenderText(w, fields.key), AfterColon(w), Render(w, fields.value, level);
    GapsAreBlank(w, level);
    GapsAreBlank(w, level - 1);
    if fields.rest == NoFields {
      var gap := Closing(w, level - 1);
      var last := gap + ("}" + more);
      Regroup5(key, ":", colon, value + (gap + "}"), more);
      Regroup4(value, gap, "}", more);
      ScanField(w, fields.key, colon, value + last, depth);
      ScanRendered(w, fields.value, level, last, depth);
      ScanClosing(gap, '}', more, depth);
    } else {
      var gap, rest := AfterComma(w, level), RenderFields(w, fields.rest, level);
      var next := gap + (rest + more);
      Regroup5(key, ":", colon, value + ("," + (gap + rest)), more);
      Regroup5(value, ",", gap, rest, more);
      ScanField(w, fields.key, colon, value + ("," + next), depth);
      ScanRendered(w, fields.value, level, "," + next, depth);
      ScanComma(gap, rest + more, depth);
      ScanRenderedFields(w, fields.rest, level, more, depth);
    }
  }

  lemma ScanField(w: Writer, key: string, colon: string, more: string, depth: nat)
    requires AllBlank(colon)
    ensures Scan(RenderText(w, key) + (":" + (colon + more)), Outside, depth) == Scan(more, Outside, depth)
  {
    ScanText(w, key, ":" + (colon + more), depth);
    Uncons(':', colon + more);
    ScanPlain(colon, more, depth);
  }

  /** The structural check accepts every object or array any of the writers renders. */
  lemma RenderedIsAccepted(w: Writer, v: Json, level: nat)
    requires Valid(v) && (v.Arr? || v.Obj?)
    ensures Verify(Render(w, v, level)).Balanced?
  {
    ScanRendered(w, v, level, [], 0);
    assert Render(w, v, level) + [] == Render(w, v, level);
    assert IsOpen(Render(w, v, level)[0]);
  }

  /** It also accepts texts that are no JSON: it is blind to the kind of a bracket and to a second value. */
  lemma AcceptedWithoutValue()
    ensures Verify("{]").Balanced? && Decode("{]") == Nothing
    ensures Verify("{}[]").Balanced? && Decode("{}[]") == Nothing
  {
    KindBlind();
    assert "{]"[1..] == "]" && "{}[]"[1..] == "}[]" && "{}[]"[2..] == "[]";
  }

  // ----- the pretty-printer on rendered values -----

  lemma {:induction false} CompactEncodesAlike(s: string)
    ensures Encode(Compact, s) == Encode(Indented, s)
  {
    if s != [] {
      CompactEncodesAlike(s[1..]);
    }
  }

  lemma PrettyText(x: string, more: string, level: nat)
    ensures Pretty(RenderText(Compact, x) + more, level, Outside) ==
            RenderText(Indented, x) + Pretty(more, level, Outside)
  {
    var body := Encode(Compact, x);
    EncodedStaysQuoted(Compact, x);
    CompactEncodesAlike(x);
    Regroup4("\"", body, "\"", more);
    Uncons('"', body + ("\"" + more));
    FirstTurn("\"" + (body + ("\"" + more)), level, Outside, Turn("\"", 1, level, Inside), body + ("\"" + more));
    QuotedVerbatim(body, "\"" + more, level, Inside);
    Uncons('"', more);
    FirstTurn("\"" + more, level, Inside, Turn("\"", 1, level, Outside), more);
    Regroup4("\"", body, "\"", Pretty(more, level, Outside));
  }

  lemma AtomTurn(s: string, level: nat)
    requires s != [] && IsAtomChar(s[0])
    ensures TurnAt(s, level, Outside) == Turn([s[0]], 1, level, Outside)
  {
  }

  lemma {:induction false} PrettyAtom(text: string, more: string, level: nat)
    requires forall i :: 0 <= i < |text| ==> IsAtomChar(text[i])
    ensures Pretty(text + more, level, Outside) == text + Pretty(more, level, Outside)
  {
    if text == [] {
      assert text + more == more;
    } else {
      var c, rest := text[0], text[1..];
      PrettyAtom(rest, more, level);
      DropFirst(text, more);
      AtomTurn(text + more, level);
      FirstTurn(text + more, level, Outside, Turn([c], 1, level, Outside), rest + more);
      Regroup([c], rest, Pretty(more, level, Outside));
      assert [c] + rest == text;
    }
  }

  lemma PrettyOpen(open: char, s: string, more: string, level: nat)
    requires IsOpen(open) && s != [] && !IsClose(s[0])
    ensures Pretty(([open] + ("" + s)) + more, level, Outside) ==
            [open] + (Break(level + 1) + Pretty(s + more, level + 1, Outside))
  {
    Regroup4([open], "", s, more);
    assert "" + (s + more) == s + more;
    Uncons(open, s + more);
    assert (s + more)[0] == s[0];
    FirstTurn([open] + (s + more), level, Outside, Turn([open] + Break(level + 1), 1, level + 1, Outside), s + more);
    Regroup([open], Break(level + 1), Pretty(s + more, level + 1, Outside));
  }

  lemma PrettyClose(close: char, more: string, level: nat)
    requires IsClose(close)
    ensures Pretty([close] + more, level + 1, Outside) == Break(level) + ([close] + Pretty(more, level, Outside))
  {
    Uncons(close, more);
    FirstTurn([close] + more, level + 1, Outside, Turn(Break(level) + [close], 1, level, Outside), more);
    Regroup(Break(level), [close], Pretty(more, level, Outside));
  }

  lemma PrettyComma(more: string, level: nat)
    ensures Pretty("," + more, level, Outside) == "," + (Break(level) + Pretty(more, level, Outside))
  {
    Uncons(',', more);
    FirstTurn("," + more, level, Outside, Turn("," + Break(level), 1, level, Outside), more);
    Regroup(",", Break(level), Pretty(more, level, Outside));
  }

  lemma PrettyColon(more: string, level: nat)
    ensures Pretty(":" + more, level, Outside) == ":" + (" " + Pretty(more, level, Outside))
  {
    Uncons(':', more);
    FirstTurn(":" + more, level, Outside, Turn(": ", 1, level, Outside), more);
    assert ": " == ":" + " ";
    Regroup(":", " ", Pretty(more, level, Outside));
  }

  /** Pretty-printing the compact text of a value gives its indented text, at any depth. */
  lemma {:induction false} PrettyRendered(v: Json, more: string, level: nat)
    requires Valid(v)
    ensures Pretty(Render(Compact, v, level) + more, level, Outside)
            == Render(Indented, v, level) + Pretty(more, level, Outside)
    decreases v, 0
  {
    match v
    case Atom(text) => PrettyAtom(text, more, level);
    case Text(x) => PrettyText(x, more, level);
    case Arr(items) =>
      if items == NoItems {
        PrettyEmpty('[', ']', more, level);
      } else {
        PrettyRenderedItems(items, more, level + 1);
        PrettyArray(items, more, level);
      }
    case Obj(fields) =>
      if fields == NoFields {
        PrettyEmpty('{', '}', more, level);
      } else {
        PrettyRenderedFields(fields, more, level + 1);
        PrettyObject(fields, more, level);
      }
  }

  lemma PrettyArray(items: Items, more: string, level: nat)
    requires items.Item? && ValidItems(items)
    requires Pretty(RenderItems(Compact, items, level + 1) + more, level + 1, Outside)
             == RenderItems(Indented, items, level + 1) + Pretty(more, level, Outside)
    ensures Pretty(Render(Compact, Arr(items), level) + more, level, Outside)
            == Render(Indented, Arr(items), level) + Pretty(more, level, Outside)
  {
    ArrayParts(Compact, items, level);
    PrettyOpen('[', RenderItems(Compact, items, level + 1), more, level);
    Regroup4("[", Break(level + 1), RenderItems(Indented, items, level + 1), Pretty(more, level, Outside));
  }

  lemma PrettyObject(fields: Fields, more: string, level: nat)
    requires fields.Field?
    requires Pretty(RenderFields(Compact, fields, level + 1) + more, level + 1, Outside)
             == RenderFields(Indented, fields, level + 1) + Pretty(more, level, Outside)
    ensures Pretty(Render(Compact, Obj(fields), level) + more, level, Outside)
            == Render(Indented, Obj(fields), level) + Pretty(more, level, Outside)
  {
    ObjectParts(Compact, fields, level);
    PrettyOpen('{', RenderFields(Compact, fields, level + 1), more, level);
    Regroup4("{", Break(level + 1), RenderFields(Indented, fields, level + 1), Pretty(more, level, Outside));
  }

  lemma PrettyEmpty(open: char, close: char, more: string, level: nat)
    requires IsOpen(open) && IsClose(close)
    ensures Pretty([open, close] + more, level, Outside) == [open, close] + Pretty(more, level, Outside)
  {
    FirstTurn([open, close] + more, level, Outside, Turn([open, close], 2, level, Outside), more);
  }

  lemma {:induction false} PrettyRenderedItems(items: Items, more: string, level: nat)
    requires items.Item? && ValidItems(items) && level > 0
    ensures Pretty(RenderItems(Compact, items, level) + more, level, Outside)
            == RenderItems(Indented, items, level) + Pretty(more, level - 1, Outside)
    decreases items, 1
  {
    if items.tail == NoItems {
      PrettyRendered(items.head, "]" + more, level);
      PrettyLastItem(items.head, more, level);
    } else {
      PrettyRendered(items.head, "," + (RenderItems(Compact, items.tail, level) + more), level);
      PrettyRenderedItems(items.tail, more, level);
      PrettyItemBefore(items.head, items.tail, more, level);
    }
  }

  lemma PrettyLastItem(head: Json, more: string, level: nat)
    requires level > 0
    requires Pretty(Render(Compact, head, level) + ("]" + more), level, Outside)
             == Render(Indented, head, level) + Pretty("]" + more, level, Outside)
    ensures Pretty(RenderItems(Compact, Item(head, NoItems), level) + more, level, Outside)
            == RenderItems(Indented, Item(head, NoItems), level) + Pretty(more, level - 1, Outside)
  {
    NoGap("]");
    Regroup(Render(Compact, head, level), "]", more);
    PrettyClose(']', more, level - 1);
    Regroup4(Render(Indented, head, level), Break(level - 1), "]", Pretty(more, level - 1, Outside));
  }

  lemma PrettyItemBefore(head: Json, tail: Items, more: string, level: nat)
    requires level > 0 && tail.Item?
    requires var next := RenderItems(Compact, tail, level) + more;
             && Pretty(Render(Compact, head, level) + ("," + next), level, Outside)
                == Render(Indented, head, level) + Pretty("," + next, level, Outside)
             && Pretty(next, level, Outside) == RenderItems(Indented, tail, level) + Pretty(more, level - 1, Outside)
    ensures Pretty(RenderItems(Compact, Item(head, tail), level) + more, level, Outside)
            == RenderItems(Indented, Item(head, tail), level) + Pretty(more, level - 1, Outside)
  {
    var rest, printed := RenderItems(Compact, tail, level), RenderItems(Indented, tail, level);
    NoGap(rest);
    Regroup4(Render(Compact, head, level), ",", rest, more);
    PrettyComma(rest + more, level);
    Regroup5(Render(Indented, head, level), ",", Break(level), printed, Pretty(more, level - 1, Outside));
  }

  lemma {:induction false} PrettyRenderedFields(fields: Fields, more: string, level: nat)
    requires fields.Field? && ValidFields(fields) && level > 0
    ensures Pretty(RenderFields(Compact, fields, level) + more, level, Outside)
            == RenderFields(Indented, fields, level) + Pretty(more, level - 1, Outside)
    decreases fields, 1
  {
    var key, shownKey := RenderText(Compact, fields.key), RenderText(Indented, fields.key);
    var value, shown := Render(Compact, fields.value, level), Render(Indented, fields.value, level);
    var last := Pretty(more, level - 1, Outside);
    if fields.rest == NoFields {
      NoGap("}");
      NoGap(value + "}");
      Regroup4(key, ":", value + "}", more);
      Regroup(value, "}", more);
      PrettyText(fields.key, ":" + (value + ("}" + more)), level);
      PrettyColon(value + ("}" + more), level);
      PrettyRendered(fields.value, "}" + more, level);
      PrettyClose('}', more, level - 1);
      Regroup5(shownKey, ":", " ", shown + (Break(level - 1) + "}"), last);
      Regroup4(shown, Break(level - 1), "}", last);
    } else {
      var rest, printed := RenderFields(Compact, fields.rest, level), RenderFields(Indented, fields.rest, level);
      NoGap(rest);
      NoGap(value + ("," + rest));
      Regroup4(key, ":", value + ("," + rest), more);
      Regroup4(value, ",", rest, more);
      PrettyText(fields.key, ":" + (value + ("," + (rest + more))), level);
      PrettyColon(value + ("," + (rest + more)), level);
      PrettyRendered(fields.value, "," + (rest + more), level);
      PrettyComma(rest + more, level);
      PrettyRenderedFields(fields.rest, more, level);
      Regroup5(shownKey, ":", " ", shown + ("," + (Break(level) + printed)), last);
      Regroup5(shown, ",", Break(level), printed, last);
    }
  }

  /** The pretty-printed file decodes to the value whose compact text was printed, and is
      accepted or refused by the structural check as the compact text is. */
  lemma PrettyKeepsValue(v: Json)
    requires Valid(v)
    ensures Pretty(Render(Compact, v, 0), 0, Outside) == Render(Indented, v, 0)
    ensures Decode(Pretty(Render(Compact, v, 0), 0, Outside)) == Got(v, [])
    ensures Verify(Pretty(Render(Compact, v, 0), 0, Outside)).Balanced? <==> Verify(Render(Compact, v, 0)).Balanced?
  {
    PrettyKeepsVerdict(Render(Compact, v, 0));
    PrettyRendered(v, [], 0);
    assert Render(Compact, v, 0) + [] == Render(Compact, v, 0);
    assert Render(Indented, v, 0) + Pretty([], 0, Outside) == Render(Indented, v, 0);
    DecodeRendered(Indented, v, 0);
  }

  // ----- Quote and Array -----

  method Quote(value: string) returns (out: string)
    ensures out == RenderText(Compact, value)
  {
    out := "\"";
    ghost var goal := RenderText(Compact, value);
    assert value[0..] == value;
    var i := 0;
    while i < |value|
      invariant 0 <= i <= |value|
      invariant goal == out + (Encode(Compact, value[i..]) + "\"")
    {
      var c := value[i];
      var piece;
      match c {
        case '"' => piece := "\\\"";
        case '\\' => piece := "\\\\";
        case '\n' => piece := "\\n";
        case '\r' => piece := "\\r";
        case '\t' => piece := "\\t";
        case _ => piece := [c];
      }
      QuoteStep(out, value, i, piece);
      out := out + piece;
      i := i + 1;
    }
    NoGap("\"");
    out := out + "\"";
  }

  lemma QuoteStep(out: string, value: string, i: nat, piece: string)
    requires i < |value| && piece == EncodeChar(Compact, value[i])
    ensures out + (Encode(Compact, value[i..]) + "\"") == (out + piece) + (Encode(Compact, value[i + 1..]) + "\"")
  {
    assert value[i..][1..] == value[i + 1..];
    Regroup(piece, Encode(Compact, value[i + 1..]), "\"");
    Regroup(out, piece, Encode(Compact, value[i + 1..]) + "\"");
  }

  /** Quoting loses nothing, escapes every line break and is copied verbatim by the pretty-printer. */
  lemma QuoteRoundTrip(value: string)
    ensures Decode(RenderText(Compact, value)) == Got(Text(value), [])
    ensures Pretty(RenderText(Compact, value), 0, Outside) == RenderText(Compact, value)
    ensures '\n' !in RenderText(Compact, value)
  {
    DecodeRendered(Compact, Text(value), 0);
    PrettyText(value, [], 0);
    CompactEncodesAlike(value);
    assert RenderText(Compact, value) + [] == RenderText(Compact, value);
    EncodedOnOneLine(value);
  }

  lemma {:induction false} EncodedOnOneLine(s: string)
    ensures '\n' !in Encode(Compact, s)
  {
    if s != [] {
      EncodedOnOneLine(s[1..]);
    }
  }

  function TextItems(values: seq<string>): Items {
    if values == [] then NoItems else Item(Text(values[0]), TextItems(values[1..]))
  }

  /** What Array still prints from position i. */
  function ArrayTail(values: seq<string>, i: nat): string
    requires i <= |values|
    decreases |values| - i
  {
    if i == |values| then "]"
    else (if i != 0 then "," else "") + (RenderText(Compact, values[i]) + ArrayTail(values, i + 1))
  }

  lemma {:induction false} ArrayTailRenders(values: seq<string>, i: nat)
    requires i < |values|
    ensures RenderText(Compact, values[i]) + ArrayTail(values, i + 1) == RenderItems(Compact, TextItems(values[i..]), 1)
    decreases |values| - i
  {
    assert values[i..][1..] == values[i + 1..];
    if i + 1 < |values| {
      ArrayTailRenders(values, i + 1);
      NoGap(RenderItems(Compact, TextItems(values[i + 1..]), 1));
    } else {
      NoGap("]");
    }
  }

  /** One turn of the loop. */
  lemma ArrayStep(out: string, values: seq<string>, i: nat)
    requires i < |values|
    ensures out + ArrayTail(values, i)
            == ((out + (if i != 0 then "," else "")) + RenderText(Compact, values[i])) + ArrayTail(values, i + 1)
  {
    var comma, quoted, rest := if i != 0 then "," else "", RenderText(Compact, values[i]), ArrayTail(values, i + 1);
    Regroup(out, comma, quoted + rest);
    Regroup(out + comma, quoted, rest);
  }

  lemma ArrayWhole(values: seq<string>)
    ensures "[" + ArrayTail(values, 0) == Render(Compact, Arr(TextItems(values)), 0)
  {
    if values != [] {
      ArrayTailRenders(values, 0);
      assert values[0..] == values;
      NoGap(RenderText(Compact, values[0]) + ArrayTail(values, 1));
      ArrayOpens(TextItems(values));
    } else {
      assert "[" + "]" == "[]";
    }
  }

  lemma ArrayOpens(items: Items)
    requires items != NoItems
    ensures Render(Compact, Arr(items), 0) == "[" + RenderItems(Compact, items, 1)
  {
    NoGap(RenderItems(Compact, items, 1));
  }

  method Array(values: seq<string>) returns (out: string)
    ensures out == Render(Compact, Arr(TextItems(values)), 0)
  {
    ghost var goal := "[" + ArrayTail(values, 0);
    out := "[";
    for i := 0 to |values|
      invariant goal == out + ArrayTail(values, i)
    {
      ArrayStep(out, values, i);
      NothingAfter(out);
      if i != 0 {
        out := out + ",";
      }
      var quoted := Quote(values[i]);
      out := out + quoted;
    }
    out := out + "]";
    ArrayWhole(values);
  }

  lemma {:induction false} TextItemsValid(values: seq<string>)
    ensures ValidItems(TextItems(values))
  {
    if values != [] {
      TextItemsValid(values[1..]);
    }
  }

  lemma {:induction false} TextItemsInjective(a: seq<string>, b: seq<string>)
    requires TextItems(a) == TextItems(b)
    ensures a == b
  {
    if a != [] {
      TextItemsInjective(a[1..], b[1..]);
      assert a == [a[0]] + a[1..] && b == [b[0]] + b[1..];
    }
  }

  /** Different lists of strings give different arrays, and the structural check accepts each. */
  lemma ArrayInjective(a: seq<string>, b: seq<string>)
    ensures Render(Compact, Arr(TextItems(a)), 0) == Render(Compact, Arr(TextItems(b)), 0) <==> a == b
    ensures Verify(Render(Compact, Arr(TextItems(a)), 0)).Balanced?
  {
    TextItemsValid(a);
    TextItemsValid(b);
    DecodeRendered(Compact, Arr(TextItems(a)), 0);
    DecodeRendered(Compact, Arr(TextItems(b)), 0);
    RenderedIsAccepted(Compact, Arr(TextItems(a)), 0);
    if Render(Compact, Arr(TextItems(a)), 0) == Render(Compact, Arr(TextItems(b)), 0) {
      TextItemsInjective(a, b);
    }
  }
}
