/** What the compact and the spaced writers of json_value.dfy write, apart from how they do it. */
module WriterForms {
  import opened Concatenation
  import opened JsonText
  import opened JsonValue
  import opened CaseLog

  /** Outside literals there are no blanks but, in the wide form, one space behind every comma and colon. due says that
      the space has to stand here. */
  predicate Spaced(wide: bool, s: string, q: Quoting, due: bool)
    decreases |s|
  {
    if s == [] then !due
    else if due then q == Outside && s[0] == ' ' && Spaced(wide, s[1..], q, false)
    else
      && (q == Outside ==> s[0] !in {' ', '\t', '\n', '\r'})
      && Spaced(wide, s[1..], Step(q, s[0]), wide && q == Outside && s[0] in {',', ':'})
  }

  /** One of the writers that keep a text on one line. */
  predicate OnOneLine(w: Writer) {
    !w.Indented?
  }

  lemma {:induction false} SpacedQuoted(wide: bool, q: Quoting, s: string, more: string)
    requires StaysQuoted(q, s)
    ensures Spaced(wide, s + more, q, false) <==> Spaced(wide, more, Advance(q, s), false)
    decreases |s|
  {
    if s == [] {
      NoGap(more);
    } else {
      DropFirst(s, more);
      SpacedQuoted(wide, Step(q, s[0]), s[1..], more);
    }
  }

  lemma SpacedText(w: Writer, x: string, more: string)
    ensures Spaced(!w.Compact?, RenderText(w, x) + more, Outside, false) <==> Spaced(!w.Compact?, more, Outside, false)
  {
    EncodedStaysQuoted(w, x);
    Regroup4("\"", Encode(w, x), "\"", more);
    Uncons('"', Encode(w, x) + ("\"" + more));
    SpacedQuoted(!w.Compact?, Inside, Encode(w, x), "\"" + more);
    Uncons('"', more);
  }

  lemma {:induction false} SpacedAtom(wide: bool, s: string, more: string)
    requires forall i :: 0 <= i < |s| ==> IsAtomChar(s[i])
    ensures Spaced(wide, s + more, Outside, false) <==> Spaced(wide, more, Outside, false)
  {
    if s == [] {
      NoGap(more);
    } else {
      DropFirst(s, more);
      SpacedAtom(wide, s[1..], more);
    }
  }

  /** A bracket. */
  lemma SpacedMark(wide: bool, c: char, more: string)
    requires c in {'[', ']', '{', '}'}
    ensures Spaced(wide, [c] + more, Outside, false) <==> Spaced(wide, more, Outside, false)
  {
    Uncons(c, more);
  }

  lemma SpacedComma(w: Writer, level: nat, more: string)
    requires OnOneLine(w)
    ensures Spaced(!w.Compact?, "," + (AfterComma(w, level) + more), Outside, false) <==>
            Spaced(!w.Compact?, more, Outside, false)
  {
    Uncons(',', AfterComma(w, level) + more);
    if w.Compact? {
      NoGap(more);
    } else {
      Uncons(' ', more);
    }
  }

  lemma SpacedColon(w: Writer, more: string)
    requires OnOneLine(w)
    ensures Spaced(!w.Compact?, ":" + (AfterColon(w) + more), Outside, false) <==>
            Spaced(!w.Compact?, more, Outside, false)
  {
    Uncons(':', AfterColon(w) + more);
    if w.Compact? {
      NoGap(more);
    } else {
      Uncons(' ', more);
    }
  }

  lemma {:induction false} SpacedRendered(w: Writer, v: Json, level: nat, more: string)
    requires Valid(v) && OnOneLine(w)
    ensures Spaced(!w.Compact?, Render(w, v, level) + more, Outside, false) <==>
            Spaced(!w.Compact?, more, Outside, false)
    decreases v, 0
  {
    match v
    case Atom(text) => SpacedAtom(!w.Compact?, text, more);
    case Text(x) => SpacedText(w, x, more);
    case Arr(items) =>
      if items == NoItems {
        SpacedEmpty(w, '[', ']', more);
      } else {
        SpacedItems(w, items, level + 1, more);
        SpacedOpened(w, '[', RenderItems(w, items, level + 1), level, more);
      }
    case Obj(fields) =>
      if fields == NoFields {
        SpacedEmpty(w, '{', '}', more);
      } else {
        SpacedFields(w, fields, level + 1, more);
        SpacedOpened(w, '{', RenderFields(w, fields, level + 1), level, more);
      }
  }

  lemma SpacedEmpty(w: Writer, open: char, close: char, more: string)
    requires open in {'[', '{'} && close in {']', '}'}
    ensures Spaced(!w.Compact?, [open, close] + more, Outside, false) <==> Spaced(!w.Compact?, more, Outside, false)
  {
    assert [open, close] + more == [open] + ([close] + more);
    SpacedMark(!w.Compact?, open, [close] + more);
    SpacedMark(!w.Compact?, close, more);
  }

  lemma SpacedOpened(w: Writer, open: char, s: string, level: nat, more: string)
    requires open in {'[', '{'} && OnOneLine(w)
    requires Spaced(!w.Compact?, s + more, Outside, false) <==> Spaced(!w.Compact?, more, Outside, false)
    ensures Spaced(!w.Compact?, ([open] + (Opened(w, level + 1) + s)) + more, Outside, false) <==>
            Spaced(!w.Compact?, more, Outside, false)
  {
    NoGap(s);
    Regroup([open], s, more);
    SpacedMark(!w.Compact?, open, s + more);
  }

  lemma {:induction false} SpacedItems(w: Writer, items: Items, level: nat, more: string)
    requires items.Item? && ValidItems(items) && OnOneLine(w)
    ensures Spaced(!w.Compact?, RenderItems(w, items, level) + more, Outside, false) <==>
            Spaced(!w.Compact?, more, Outside, false)
    decreases items, 1
  {
    var first := Render(w, items.head, level);
    if items.tail == NoItems {
      NoGap("]");
      Regroup(first, "]", more);
      SpacedRendered(w, items.head, level, "]" + more);
      SpacedMark(!w.Compact?, ']', more);
    } else {
      var gap, rest := AfterComma(w, level), RenderItems(w, items.tail, level);
      Regroup5(first, ",", gap, rest, more);
      SpacedRendered(w, items.head, level, "," + (gap + (rest + more)));
      SpacedComma(w, level, rest + more);
      SpacedItems(w, items.tail, level, more);
    }
  }

  lemma {:induction false} SpacedFields(w: Writer, fields: Fields, level: nat, more: string)
    requires fields.Field? && ValidFields(fields) && OnOneLine(w)
    ensures Spaced(!w.Compact?, RenderFields(w, fields, level) + more, Outside, false) <==>
            Spaced(!w.Compact?, more, Outside, false)
    decreases fields, 1
  {
    var key, colon, value := RenderText(w, fields.key), AfterColon(w), Render(w, fields.value, level);
    if fields.rest == NoFields {
      NoGap("}");
      Regroup5(key, ":", colon, value + "}", more);
      Regroup(value, "}", more);
      SpacedText(w, fields.key, ":" + (colon + (value + ("}" + more))));
      SpacedColon(w, value + ("}" + more));
      SpacedRendered(w, fields.value, level, "}" + more);
      SpacedMark(!w.Compact?, '}', more);
    } else {
      var gap, rest := AfterComma(w, level), RenderFields(w, fields.rest, level);
      var next := "," + (gap + (rest + more));
      Regroup5(key, ":", colon, value + ("," + (gap + rest)), more);
      Regroup5(value, ",", gap, rest, more);
      SpacedText(w, fields.key, ":" + (colon + (value + next)));
      SpacedColon(w, value + next);
      SpacedRendered(w, fields.value, level, next);
      SpacedComma(w, level, rest + more);
      SpacedFields(w, fields.rest, level, more);
    }
  }

  /** The compact writer puts no blanks outside literals; the others on one line put one space behind each comma and
      colon there, and no other blank. */
  lemma RenderedIsSpaced(w: Writer, v: Json, level: nat)
    requires Valid(v) && OnOneLine(w)
    ensures Spaced(!w.Compact?, Render(w, v, level), Outside, false)
  {
    SpacedRendered(w, v, level, []);
    NothingAfter(Render(w, v, level));
  }

  // ----- characters -----

  /** The characters every writer escapes, by their codes. */
  lemma ShortEscapes(w: Writer)
    ensures EncodeChar(w, 34 as char) == ['\\', '"'] && EncodeChar(w, 92 as char) == ['\\', '\\']
    ensures EncodeChar(w, 10 as char) == ['\\', 'n'] && EncodeChar(w, 13 as char) == ['\\', 'r']
    ensures EncodeChar(w, 9 as char) == ['\\', 't']
    ensures !w.Compact? && !w.Indented? ==>
              EncodeChar(w, 8 as char) == ['\\', 'b'] && EncodeChar(w, 12 as char) == ['\\', 'f']
  {
  }

  /** A digit from zero to nine, or a small letter from a to f. */
  predicate IsHex(c: char, n: nat) {
    n < 16 && c as int == if n < 10 then 48 + n else 97 + (n - 10)
  }

  /** Four digits of a code, the last one for the units. */
  ghost predicate IsCode(s: string, c: char) {
    && |s| == 6 && s[0] == '\\' && s[1] == 'u'
    && exists a: nat, b: nat, d: nat, e: nat ::
         IsHex(s[2], a) && IsHex(s[3], b) && IsHex(s[4], d) && IsHex(s[5], e) &&
         c as int == 4096 * a + 256 * b + 16 * d + e
  }

  lemma EscapeIsCode(c: char)
    requires c as int < 0x10000
    ensures IsCode(UnicodeEscape(c as int), c)
  {
    var n := c as int;
    var a, b, d, e := n / 4096, n / 256 % 16, n / 16 % 16, n % 16;
    var s := UnicodeEscape(n);
    HexIsHex(a);
    HexIsHex(b);
    HexIsHex(d);
    HexIsHex(e);
    Places(n);
    assert IsHex(s[2], a) && IsHex(s[3], b) && IsHex(s[4], d) && IsHex(s[5], e);
  }

  lemma HexIsHex(n: nat)
    requires n < 16
    ensures IsHex(HexDigit(n), n)
  {
  }

  lemma Places(n: nat)
    ensures n == 4096 * (n / 4096) + 256 * (n / 256 % 16) + 16 * (n / 16 % 16) + n % 16
  {
    assert n / 16 / 16 == n / 256 && n / 256 / 16 == n / 4096;
  }

  /** Every other character stands for itself, except that a control character is written by its code where it may
      not stand, and an angle bracket and the two line separators where they would end a script or a line. */
  lemma OtherCharacters(w: Writer, c: char)
    requires c as int !in {34, 92, 10, 13, 9, 8, 12}
    ensures var coded := match w
                         case Compact => false
                         case Indented => false
                         case Dumped => c as int < 32
                         case ScriptSafe => c as int < 32 || c as int in {60, 0x2028, 0x2029}
                         case LineSafe => c as int < 32 || c as int in {0x2028, 0x2029};
            if coded then IsCode(EncodeChar(w, c), c) else EncodeChar(w, c) == [c]
  {
    if c as int < 0x10000 {
      EscapeIsCode(c);
    }
  }

  /** The encoding of a text puts those of its characters one behind the other. */
  lemma {:induction false} EncodedOneByOne(w: Writer, a: string, b: string)
    ensures Encode(w, a + b) == Encode(w, a) + Encode(w, b)
  {
    if a == [] {
      NoGap(b);
      NoGap(Encode(w, b));
    } else {
      DropFirst(a, b);
      EncodedOneByOne(w, a[1..], b);
      Regroup(EncodeChar(w, a[0]), Encode(w, a[1..]), Encode(w, b));
    }
  }
}
