/** Undoing json_for_script as its documentation suggests: replacing the escape by '<' again
    (build_diagnostics_report.py). */
module ScriptUndo {
  import opened Concatenation
  import opened JsonText
  import opened JsonValue
  import opened ScriptJson
  import opened StringOrder

  // ----- the replacement on any text -----

  /** str.replace of the escape by '<', left to right. */
  function UndoAngle(s: string): (r: string)
    ensures |r| <= |s|
    decreases |s|
  {
    if s == [] then []
    else if StartsWith(s, ANGLE) then "<" + UndoAngle(s[6..])
    else [s[0]] + UndoAngle(s[1..])
  }

  predicate Mentions(s: string) {
    s != [] && (StartsWith(s, ANGLE) || Mentions(s[1..]))
  }

  /** Replacing '<' neither makes nor breaks a prefix free of '<' and of backslashes. */
  lemma {:induction false} ReplaceKeepsPrefix(s: string, prefix: string)
    requires forall i :: 0 <= i < |prefix| ==> prefix[i] != '<' && prefix[i] != '\\'
    ensures StartsWith(Replace(s, '<', ANGLE), prefix) <==> StartsWith(s, prefix)
    decreases |prefix|
  {
    if prefix != [] && s != [] {
      PrefixByOne(s, prefix);
      PrefixByOne(Replace(s, '<', ANGLE), prefix);
      ReplaceKeepsPrefix(s[1..], prefix[1..]);
      if s[0] != '<' {
        Uncons(s[0], Replace(s[1..], '<', ANGLE));
      }
    }
  }

  lemma {:induction false} UndoSeesThrough(s: string)
    ensures UndoAngle(Replace(s, '<', ANGLE)) == UndoAngle(s)
    decreases |s|
  {
    if s != [] {
      var r := Replace(s, '<', ANGLE);
      if s[0] == '<' {
        UndoSeesThrough(s[1..]);
        assert r[6..] == Replace(s[1..], '<', ANGLE);
      } else if StartsWith(s, ANGLE) {
        assert s == ANGLE + s[6..];
        ReplaceConcat(ANGLE, s[6..], '<', ANGLE);
        ReplaceAbsent(ANGLE, '<', ANGLE);
        UndoSeesThrough(s[6..]);
        assert r[6..] == Replace(s[6..], '<', ANGLE);
      } else {
        UndoSeesThrough(s[1..]);
        Uncons(s[0], Replace(s[1..], '<', ANGLE));
        PrefixByOne(s, ANGLE);
        PrefixByOne(r, ANGLE);
        ReplaceKeepsPrefix(s[1..], ANGLE[1..]);
      }
    }
  }

  lemma {:induction false} UndoIsIdentity(s: string)
    ensures UndoAngle(s) == s <==> !Mentions(s)
    ensures Mentions(s) ==> |UndoAngle(s)| < |s|
    decreases |s|
  {
    if s != [] && !StartsWith(s, ANGLE) {
      UndoIsIdentity(s[1..]);
      assert [s[0]] + s[1..] == s;
    }
  }

  /** The documented way back, as a statement about any text: replacing the escape by '<' again
      restores the text exactly when the text did not contain the escape itself. */
  lemma UndoRestoresExactly(s: string)
    ensures UndoAngle(Replace(s, '<', ANGLE)) == s <==> !Mentions(s)
  {
    UndoSeesThrough(s);
    UndoIsIdentity(s);
  }

  // ----- strings and keys of a payload -----

  /** Some string or key of the value has the property. */
  predicate Somewhere(v: Json, p: string -> bool) {
    match v
    case Atom(_) => false
    case Text(x) => p(x)
    case Arr(items) => SomewhereInItems(items, p)
    case Obj(fields) => SomewhereInFields(fields, p)
  }

  predicate SomewhereInItems(items: Items, p: string -> bool) {
    items.Item? && (Somewhere(items.head, p) || SomewhereInItems(items.tail, p))
  }

  predicate SomewhereInFields(fields: Fields, p: string -> bool) {
    fields.Field? && (p(fields.key) || Somewhere(fields.value, p) || SomewhereInFields(fields.rest, p))
  }

  lemma {:induction false} InsertSomewhere(key: string, value: Json, fields: Fields, p: string -> bool)
    ensures SomewhereInFields(Insert(key, value, fields), p) <==>
            p(key) || Somewhere(value, p) || SomewhereInFields(fields, p)
  {
    if fields.Field? {
      InsertSomewhere(key, value, fields.rest, p);
    }
  }

  lemma {:induction false} SortedSomewhere(v: Json, p: string -> bool)
    ensures Somewhere(Sorted(v), p) <==> Somewhere(v, p)
    decreases v, 0
  {
    match v
    case Arr(items) => SortedItemsSomewhere(items, p);
    case Obj(fields) => SortedFieldsSomewhere(fields, p);
    case _ =>
  }

  lemma {:induction false} SortedItemsSomewhere(items: Items, p: string -> bool)
    ensures SomewhereInItems(SortedItems(items), p) <==> SomewhereInItems(items, p)
    decreases items, 1
  {
    if items.Item? {
      SortedSomewhere(items.head, p);
      SortedItemsSomewhere(items.tail, p);
    }
  }

  lemma {:induction false} SortedFieldsSomewhere(fields: Fields, p: string -> bool)
    ensures SomewhereInFields(SortedFields(fields), p) <==> SomewhereInFields(fields, p)
    decreases fields, 1
  {
    if fields.Field? {
      SortedSomewhere(fields.value, p);
      SortedFieldsSomewhere(fields.rest, p);
      InsertSomewhere(fields.key, Sorted(fields.value), SortedFields(fields.rest), p);
    }
  }

  /** A string or key of the value contains the escape's six characters. */
  predicate ValueMentions(v: Json) {
    Somewhere(v, Mentions)
  }

  predicate HasSeparator(s: string) {
    '\U{2028}' in s || '\U{2029}' in s
  }

  /** A string or key of the value contains a line or paragraph separator. */
  predicate ValueSeparates(v: Json) {
    Somewhere(v, HasSeparator)
  }

  // ----- where the written text mentions the escape -----

  predicate IsPlainLetter(c: char) {
    'a' <= c <= 'z' || '0' <= c <= '9'
  }

  lemma {:induction false} EncodedPrefix(s: string, more: string, prefix: string)
    requires forall i :: 0 <= i < |prefix| ==> IsPlainLetter(prefix[i])
    ensures StartsWith(Encode(LineSafe, s) + ("\"" + more), prefix) <==> StartsWith(s, prefix)
    decreases |prefix|
  {
    var t := Encode(LineSafe, s) + ("\"" + more);
    if prefix != [] {
      PrefixByOne(s, prefix);
      PrefixByOne(t, prefix);
      if s == [] {
        NoGap("\"" + more);
      } else {
        var rest := Encode(LineSafe, s[1..]) + ("\"" + more);
        Regroup(EncodeChar(LineSafe, s[0]), Encode(LineSafe, s[1..]), "\"" + more);
        if IsPlainLetter(s[0]) {
          Uncons(s[0], rest);
          EncodedPrefix(s[1..], more, prefix[1..]);
        }
      }
    }
  }

  lemma AngleHead(s: string)
    ensures StartsWith(s, ANGLE) ==> s != [] && s[0] == '\\'
  {
    PrefixByOne(s, ANGLE);
  }

  /** Nothing begins with the escape except at a backslash. */
  lemma {:induction false} MentionsAfter(plain: string, more: string)
    requires '\\' !in plain
    ensures Mentions(plain + more) <==> Mentions(more)
  {
    if plain == [] {
      NoGap(more);
    } else {
      assert (plain + more)[1..] == plain[1..] + more;
      MentionsAfter(plain[1..], more);
      AngleHead(plain + more);
    }
  }

  lemma MentionsStep(c: char, s: string)
    ensures Mentions([c] + s) <==> (c == '\\' && StartsWith(s, ANGLE[1..])) || Mentions(s)
  {
    Uncons(c, s);
    PrefixByOne([c] + s, ANGLE);
  }

  lemma Differs(s: string, prefix: string, k: nat)
    requires k < |prefix| && k < |s| && s[k] != prefix[k]
    ensures !StartsWith(s, prefix)
  {
  }

  /** The escape of another character is not the escape of '<'. */
  lemma OtherDigits(c: char)
    requires |EncodeChar(LineSafe, c)| > 1 && c != '\\'
    ensures var piece := EncodeChar(LineSafe, c);
            && piece[0] == '\\' && '\\' !in piece[1..]
            && (piece[1] == 'u' ==> |piece| == 6 && (piece[2] == '0' ==> piece[4] != '3'))
  {
  }

  lemma OtherEscape(piece: string, rest: string)
    requires |piece| > 1 && piece[0] == '\\' && '\\' !in piece[1..]
    requires piece[1] == 'u' ==> |piece| == 6 && (piece[2] == '0' ==> piece[4] != '3')
    ensures Mentions(piece + rest) <==> Mentions(rest)
  {
    var tail := piece[1..] + rest;
    assert piece + rest == ['\\'] + tail;
    MentionsStep('\\', tail);
    MentionsAfter(piece[1..], rest);
    if piece[1] == 'u' {
      assert tail[1] == piece[2] && tail[3] == piece[4];
      Differs(tail, ANGLE[1..], if piece[2] == '0' then 3 else 1);
    } else {
      Differs(tail, ANGLE[1..], 0);
    }
  }

  /** Only an encoded backslash can begin a mention, and only with its second character. */
  lemma MentionsChar(c: char, rest: string)
    ensures Mentions(EncodeChar(LineSafe, c) + rest)
            <==> (c == '\\' && StartsWith(rest, ANGLE[1..])) || Mentions(rest)
  {
    var piece := EncodeChar(LineSafe, c);
    if c == '\\' {
      assert piece == ['\\'] + ['\\'];
      Regroup(['\\'], ['\\'], rest);
      MentionsStep('\\', ['\\'] + rest);
      MentionsStep('\\', rest);
      NotEscapedTwice(rest);
    } else if |piece| == 1 {
      MentionsAfter(piece, rest);
    } else {
      OtherDigits(c);
      OtherEscape(piece, rest);
    }
  }

  lemma {:induction false} EncodedMentions(s: string, more: string)
    ensures Mentions(Encode(LineSafe, s) + ("\"" + more)) <==> Mentions(s) || Mentions(more)
  {
    if s == [] {
      NoGap("\"" + more);
      MentionsAfter("\"", more);
    } else {
      var c, rest := s[0], Encode(LineSafe, s[1..]) + ("\"" + more);
      Regroup(EncodeChar(LineSafe, c), Encode(LineSafe, s[1..]), "\"" + more);
      EncodedMentions(s[1..], more);
      assert s == [c] + s[1..];
      MentionsStep(c, s[1..]);
      MentionsChar(c, rest);
      EncodedPrefix(s[1..], more, ANGLE[1..]);
    }
  }

  lemma NotEscapedTwice(s: string)
    ensures !StartsWith(['\\'] + s, ANGLE[1..])
  {
    PrefixByOne(['\\'] + s, ANGLE[1..]);
  }

  lemma TextMentions(x: string, more: string)
    ensures Mentions(RenderText(LineSafe, x) + more) <==> Mentions(x) || Mentions(more)
  {
    Regroup4("\"", Encode(LineSafe, x), "\"", more);
    MentionsAfter("\"", Encode(LineSafe, x) + ("\"" + more));
    EncodedMentions(x, more);
  }

  lemma {:induction false} RenderedMentions(v: Json, level: nat, more: string)
    requires Valid(v)
    ensures Mentions(Render(LineSafe, v, level) + more) <==> ValueMentions(v) || Mentions(more)
    decreases v, 0
  {
    match v
    case Atom(text) =>
      assert forall i :: 0 <= i < |text| ==> IsAtomChar(text[i]) && text[i] != '\\';
      MentionsAfter(text, more);
    case Text(x) => TextMentions(x, more);
    case Arr(items) =>
      if items == NoItems {
        MentionsAfter("[]", more);
      } else {
        var s := RenderItems(LineSafe, items, level + 1);
        NoGap(s);
        Regroup("[", s, more);
        MentionsAfter("[", s + more);
        RenderedItemsMention(items, level + 1, more);
      }
    case Obj(fields) =>
      if fields == NoFields {
        MentionsAfter("{}", more);
      } else {
        var s := RenderFields(LineSafe, fields, level + 1);
        NoGap(s);
        Regroup("{", s, more);
        MentionsAfter("{", s + more);
        RenderedFieldsMention(fields, level + 1, more);
      }
  }

  lemma {:induction false} RenderedItemsMention(items: Items, level: nat, more: string)
    requires items.Item? && ValidItems(items)
    ensures Mentions(RenderItems(LineSafe, items, level) + more) <==>
            SomewhereInItems(items, Mentions) || Mentions(more)
    decreases items, 1
  {
    var first := Render(LineSafe, items.head, level);
    assert SomewhereInItems(items, Mentions) <==> ValueMentions(items.head) || SomewhereInItems(items.tail, Mentions);
    if items.tail == NoItems {
      NoGap("]");
      Regroup(first, "]", more);
      RenderedMentions(items.head, level, "]" + more);
      MentionsAfter("]", more);
    } else {
      var rest := RenderItems(LineSafe, items.tail, level);
      Regroup5(first, ",", " ", rest, more);
      RenderedMentions(items.head, level, "," + (" " + (rest + more)));
      MentionsAfter(",", " " + (rest + more));
      MentionsAfter(" ", rest + more);
      RenderedItemsMention(items.tail, level, more);
    }
  }

  lemma {:induction false} RenderedFieldsMention(fields: Fields, level: nat, more: string)
    requires fields.Field? && ValidFields(fields)
    ensures Mentions(RenderFields(LineSafe, fields, level) + more) <==>
            SomewhereInFields(fields, Mentions) || Mentions(more)
    decreases fields, 1
  {
    var value := Render(LineSafe, fields.value, level);
    if fields.rest == NoFields {
      NoGap("}");
      Regroup(value, "}", more);
      RenderedMentions(fields.value, level, "}" + more);
      MentionsAfter("}", more);
      FieldMentions(fields.key, value + "}", more);
    } else {
      var rest := RenderFields(LineSafe, fields.rest, level);
      Regroup5(value, ",", " ", rest, more);
      RenderedMentions(fields.value, level, "," + (" " + (rest + more)));
      MentionsAfter(",", " " + (rest + more));
      MentionsAfter(" ", rest + more);
      RenderedFieldsMention(fields.rest, level, more);
      FieldMentions(fields.key, value + ("," + (" " + rest)), more);
    }
  }

  lemma FieldMentions(key: string, value: string, more: string)
    ensures Mentions((RenderText(LineSafe, key) + (":" + (" " + value))) + more) <==>
            Mentions(key) || Mentions(value + more)
  {
    Regroup5(RenderText(LineSafe, key), ":", " ", value, more);
    TextMentions(key, ":" + (" " + (value + more)));
    MentionsAfter(":", " " + (value + more));
    MentionsAfter(" ", value + more);
  }

  // ----- undoing a text that does not mention the escape -----

  /** What follows the text is all that can mention the escape. */
  ghost predicate Clean(a: string) {
    forall m {:trigger Mentions(a + m)} :: Mentions(a + m) ==> Mentions(m)
  }

  lemma ShortMentionsNothing(s: string)
    requires |s| < |ANGLE|
    ensures !Mentions(s)
  {
    if s != [] {
      ShortMentionsNothing(s[1..]);
    }
  }

  lemma CleanRest(a: string)
    requires Clean(a) && a != []
    ensures Clean(a[1..])
  {
    forall m | Mentions(a[1..] + m) ensures Mentions(m) {
      assert (a + m)[1..] == a[1..] + m;
      assert Mentions(a + m);
    }
  }

  lemma CleanHead(a: string, b: string)
    requires Clean(a) && a != []
    ensures !StartsWith(a + b, ANGLE)
  {
    if StartsWith(a + b, ANGLE) {
      var m := if |a| >= |ANGLE| then [] else b[..|ANGLE| - |a|];
      assert (a + m)[..|ANGLE|] == (a + b)[..|ANGLE|];
      assert Mentions(a + m);
      ShortMentionsNothing(m);
    }
  }

  lemma {:induction false} UndoClean(a: string, b: string)
    requires Clean(a)
    ensures UndoAngle(a + b) == a + UndoAngle(b)
  {
    if a == [] {
      NoGap(b);
      NoGap(UndoAngle(b));
    } else {
      CleanHead(a, b);
      CleanRest(a);
      UndoClean(a[1..], b);
      DropFirst(a, b);
      DropFirst(a, UndoAngle(b));
      Uncons(a[0], UndoAngle(a[1..] + b));
      assert a + UndoAngle(b) == [a[0]] + (a[1..] + UndoAngle(b));
    }
  }

  lemma PlainIsClean(plain: string)
    requires '\\' !in plain
    ensures Clean(plain)
  {
    forall m ensures Mentions(plain + m) <==> Mentions(m) {
      MentionsAfter(plain, m);
    }
  }

  lemma UndoPlain(plain: string, b: string)
    requires '\\' !in plain
    ensures UndoAngle(plain + b) == plain + UndoAngle(b)
  {
    PlainIsClean(plain);
    UndoClean(plain, b);
  }

  lemma UndoRendered(v: Json, level: nat, more: string)
    requires Valid(v) && !ValueMentions(v)
    ensures UndoAngle(Render(LineSafe, v, level) + more) == Render(LineSafe, v, level) + UndoAngle(more)
  {
    var s := Render(LineSafe, v, level);
    forall m ensures Mentions(s + m) <==> Mentions(m) {
      RenderedMentions(v, level, m);
    }
    UndoClean(s, more);
  }

  lemma UndoText(x: string, more: string)
    requires !Mentions(x)
    ensures UndoAngle(RenderText(LineSafe, x) + more) == RenderText(LineSafe, x) + UndoAngle(more)
  {
    var s := RenderText(LineSafe, x);
    forall m ensures Mentions(s + m) <==> Mentions(m) {
      TextMentions(x, m);
    }
    UndoClean(s, more);
  }

  // ----- a mentioned escape leaves an escape that no decoder reads -----

  /** A backslash before the escape becomes a backslash before '<'. */
  lemma BrokenEscape(rest: string)
    requires StartsWith(rest, ANGLE[1..])
    ensures ReadText(UndoAngle(['\\'] + (['\\'] + rest))) == Nothing
  {
    var t := ['\\'] + rest;
    Uncons('\\', t);
    Uncons('\\', rest);
    PrefixByOne(t, ANGLE);
    NotEscapedTwice(rest);
    PrefixByOne(['\\'] + t, ANGLE);
    assert UndoAngle(['\\'] + t) == ['\\'] + ("<" + UndoAngle(t[6..]));
  }

  /** A backslash pair that is not followed by the rest of the escape is left alone. */
  lemma UndoPair(rest: string)
    requires !StartsWith(rest, ANGLE[1..])
    ensures UndoAngle("\\\\" + rest) == "\\\\" + UndoAngle(rest)
  {
    var t := ['\\'] + rest;
    NotEscapedTwice(rest);
    UndoBackslash(t);
    UndoBackslash(rest);
    Regroup("\\", "\\", rest);
    Regroup("\\", "\\", UndoAngle(rest));
  }

  /** So is a backslash. */
  lemma UndoBackslash(rest: string)
    requires !StartsWith(rest, ANGLE[1..])
    ensures UndoAngle(['\\'] + rest) == ['\\'] + UndoAngle(rest)
  {
    Uncons('\\', rest);
    PrefixByOne(['\\'] + rest, ANGLE);
  }

  lemma UndoChar(c: char, rest: string)
    requires c == '\\' ==> !StartsWith(rest, ANGLE[1..])
    ensures UndoAngle(EncodeChar(LineSafe, c) + rest) == EncodeChar(LineSafe, c) + UndoAngle(rest)
  {
    var piece := EncodeChar(LineSafe, c);
    if c == '\\' {
      UndoPair(rest);
    } else {
      forall m ensures Mentions(piece + m) <==> Mentions(m) {
        MentionsChar(c, m);
      }
      UndoClean(piece, rest);
    }
  }

  lemma {:induction false} BrokenText(x: string, more: string)
    requires Mentions(x)
    ensures ReadText(UndoAngle(Encode(LineSafe, x) + ("\"" + more))) == Nothing
  {
    var c, rest := x[0], Encode(LineSafe, x[1..]) + ("\"" + more);
    var piece := EncodeChar(LineSafe, c);
    Regroup(piece, Encode(LineSafe, x[1..]), "\"" + more);
    assert x == [c] + x[1..];
    MentionsStep(c, x[1..]);
    EncodedPrefix(x[1..], more, ANGLE[1..]);
    if c == '\\' && StartsWith(x[1..], ANGLE[1..]) {
      assert piece == ['\\'] + ['\\'];
      Regroup(['\\'], ['\\'], rest);
      BrokenEscape(rest);
    } else {
      UndoChar(c, rest);
      BrokenText(x[1..], more);
      ReadEncodedChar(LineSafe, c, UndoAngle(rest));
    }
  }

  lemma BrokenString(x: string, more: string)
    requires Mentions(x)
    ensures var t := UndoAngle(RenderText(LineSafe, x) + more);
            t != [] && t[0] == '"' && ReadText(t[1..]) == Nothing && ReadValue(t) == Nothing
  {
    Regroup4("\"", Encode(LineSafe, x), "\"", more);
    UndoPlain("\"", Encode(LineSafe, x) + ("\"" + more));
    BrokenText(x, more);
    Uncons('"', UndoAngle(Encode(LineSafe, x) + ("\"" + more)));
  }

  lemma {:induction false} BrokenValue(v: Json, level: nat, more: string)
    requires Valid(v) && ValueMentions(v)
    ensures ReadValue(UndoAngle(Render(LineSafe, v, level) + more)) == Nothing
    decreases v, 0
  {
    match v
    case Text(x) => BrokenString(x, more);
    case Arr(items) =>
      BrokenItems(items, level + 1, more);
      BrokenArray(items, level, more);
    case Obj(fields) =>
      BrokenFields(fields, level + 1, more);
      BrokenObject(fields, level, more);
  }

  lemma BrokenArray(items: Items, level: nat, more: string)
    requires items.Item? && ValidItems(items)
    requires ReadItems(UndoAngle(RenderItems(LineSafe, items, level + 1) + more)) == Nothing
    ensures ReadValue(UndoAngle(Render(LineSafe, Arr(items), level) + more)) == Nothing
  {
    var s := RenderItems(LineSafe, items, level + 1);
    ItemsStart(items, level + 1, more);
    UndoArray(items, level, more);
    UnreadArray(UndoAngle(s + more));
  }

  lemma UndoArray(items: Items, level: nat, more: string)
    requires items.Item? && ValidItems(items)
    ensures UndoAngle(Render(LineSafe, Arr(items), level) + more)
            == "[" + UndoAngle(RenderItems(LineSafe, items, level + 1) + more)
  {
    var s := RenderItems(LineSafe, items, level + 1);
    ArrayParts(LineSafe, items, level);
    NoGap(s);
    Regroup("[", s, more);
    UndoPlain("[", s + more);
  }

  lemma UnreadArray(s: string)
    requires s != [] && !IsBlank(s[0]) && s[0] != ']' && ReadItems(s) == Nothing
    ensures ReadValue("[" + s) == Nothing
  {
    Uncons('[', s);
  }

  lemma BrokenObject(fields: Fields, level: nat, more: string)
    requires fields.Field?
    requires ReadFields(UndoAngle(RenderFields(LineSafe, fields, level + 1) + more)) == Nothing
    ensures ReadValue(UndoAngle(Render(LineSafe, Obj(fields), level) + more)) == Nothing
  {
    var s := RenderFields(LineSafe, fields, level + 1);
    FieldsStart(fields, level + 1, more);
    UndoObject(fields, level, more);
    UnreadObject(UndoAngle(s + more));
  }

  lemma UndoObject(fields: Fields, level: nat, more: string)
    requires fields.Field?
    ensures UndoAngle(Render(LineSafe, Obj(fields), level) + more)
            == "{" + UndoAngle(RenderFields(LineSafe, fields, level + 1) + more)
  {
    var s := RenderFields(LineSafe, fields, level + 1);
    ObjectParts(LineSafe, fields, level);
    NoGap(s);
    Regroup("{", s, more);
    UndoPlain("{", s + more);
  }

  lemma UnreadObject(s: string)
    requires s != [] && s[0] == '"' && ReadFields(s) == Nothing
    ensures ReadValue("{" + s) == Nothing
  {
    Uncons('{', s);
  }

  /** The reader does not take the items for the end of the array. */
  lemma ItemsStart(items: Items, level: nat, more: string)
    requires items.Item? && ValidItems(items)
    ensures var t := UndoAngle(RenderItems(LineSafe, items, level) + more);
            t != [] && !IsBlank(t[0]) && t[0] != ']'
  {
    var s := RenderItems(LineSafe, items, level);
    ItemsHead(LineSafe, items, level);
    assert s + more == [s[0]] + (s[1..] + more);
    HeadIsNoBackslash(items.head, level);
    UndoPlain([s[0]], s[1..] + more);
  }

  lemma HeadIsNoBackslash(v: Json, level: nat)
    requires Valid(v)
    ensures Render(LineSafe, v, level) != [] && Render(LineSafe, v, level)[0] != '\\'
  {
    RenderHead(LineSafe, v, level);
    if v.Atom? {
      assert IsAtomChar(v.text[0]);
    }
  }

  lemma FieldsStart(fields: Fields, level: nat, more: string)
    requires fields.Field?
    ensures var t := UndoAngle(RenderFields(LineSafe, fields, level) + more);
            t != [] && t[0] == '"'
  {
    var s := RenderFields(LineSafe, fields, level);
    FieldsHead(LineSafe, fields, level);
    assert s + more == "\"" + (s[1..] + more);
    UndoPlain("\"", s[1..] + more);
  }

  lemma {:induction false} BrokenItems(items: Items, level: nat, more: string)
    requires ValidItems(items) && SomewhereInItems(items, Mentions)
    ensures ReadItems(UndoAngle(RenderItems(LineSafe, items, level) + more)) == Nothing
    decreases items, 1
  {
    var first := Render(LineSafe, items.head, level);
    if ValueMentions(items.head) {
      var tail := if items.tail == NoItems then "" + "]" else "," + (" " + RenderItems(LineSafe, items.tail, level));
      BrokenValue(items.head, level, tail + more);
      Regroup(first, tail, more);
    } else {
      var rest := RenderItems(LineSafe, items.tail, level) + more;
      Regroup5(first, ",", " ", RenderItems(LineSafe, items.tail, level), more);
      UndoRendered(items.head, level, "," + (" " + rest));
      UndoPlain(",", " " + rest);
      UndoPlain(" ", rest);
      BrokenItems(items.tail, level, more);
      ReadRendered(LineSafe, items.head, level, "," + (" " + UndoAngle(rest)));
      BrokenAfterItem(first + ("," + (" " + UndoAngle(rest))), items.head, UndoAngle(rest));
    }
  }

  lemma BrokenAfterItem(s: string, head: Json, rest: string)
    requires ReadValue(s) == Got(head, "," + (" " + rest)) && ReadItems(rest) == Nothing
    ensures ReadItems(s) == Nothing
  {
    SkipNothing(',', " " + rest);
    ReadPastBlanks(" ", rest);
  }

  lemma {:induction false} BrokenFields(fields: Fields, level: nat, more: string)
    requires ValidFields(fields) && SomewhereInFields(fields, Mentions)
    ensures ReadFields(UndoAngle(RenderFields(LineSafe, fields, level) + more)) == Nothing
    decreases fields, 1
  {
    var key, value := RenderText(LineSafe, fields.key), Render(LineSafe, fields.value, level);
    var tail := if fields.rest == NoFields then "" + "}" else "," + (" " + RenderFields(LineSafe, fields.rest, level));
    Regroup5(key, ":", " ", value + tail, more);
    Regroup(value, tail, more);
    if Mentions(fields.key) {
      BrokenKey(fields.key, ":" + (" " + (value + (tail + more))));
    } else if ValueMentions(fields.value) {
      BrokenValue(fields.value, level, tail + more);
      BrokenAfterKey(fields.key, value + (tail + more));
    } else {
      var rest := RenderFields(LineSafe, fields.rest, level);
      Regroup4(",", " ", rest, more);
      BrokenFields(fields.rest, level, more);
      BrokenAfterField(fields.key, fields.value, level, rest + more);
    }
  }

  lemma BrokenKey(key: string, after: string)
    requires Mentions(key)
    ensures ReadFields(UndoAngle(RenderText(LineSafe, key) + after)) == Nothing
  {
    BrokenString(key, after);
  }

  lemma UndoKey(key: string, after: string)
    requires !Mentions(key)
    ensures UndoAngle(RenderText(LineSafe, key) + (":" + (" " + after)))
            == RenderText(LineSafe, key) + (":" + (" " + UndoAngle(after)))
  {
    UndoText(key, ":" + (" " + after));
    UndoPlain(":", " " + after);
    UndoPlain(" ", after);
  }

  lemma BrokenAfterKey(key: string, after: string)
    requires !Mentions(key) && ReadValue(UndoAngle(after)) == Nothing
    ensures ReadFields(UndoAngle(RenderText(LineSafe, key) + (":" + (" " + after)))) == Nothing
  {
    var undone := UndoAngle(after);
    UndoKey(key, after);
    ReadString(LineSafe, key, ":" + (" " + undone));
    ReadPastBlanks(" ", undone);
    UnreadValue(RenderText(LineSafe, key) + (":" + (" " + undone)), key, " " + undone);
  }

  lemma BrokenAfterField(key: string, v: Json, level: nat, rest: string)
    requires !Mentions(key) && Valid(v) && !ValueMentions(v) && ReadFields(UndoAngle(rest)) == Nothing
    ensures ReadFields(UndoAngle(RenderText(LineSafe, key) +
                                 (":" + (" " + (Render(LineSafe, v, level) + ("," + (" " + rest))))))) == Nothing
  {
    var next := " " + UndoAngle(rest);
    var after := Render(LineSafe, v, level) + ("," + next);
    UndoKey(key, Render(LineSafe, v, level) + ("," + (" " + rest)));
    UndoRendered(v, level, "," + (" " + rest));
    UndoPlain(",", " " + rest);
    UndoPlain(" ", rest);
    ReadString(LineSafe, key, ":" + (" " + after));
    ReadRendered(LineSafe, v, level, "," + next);
    ReadPastBlanks(" ", after);
    ReadPastBlanks(" ", UndoAngle(rest));
    UnreadRest(RenderText(LineSafe, key) + (":" + (" " + after)), key, " " + after, v, next);
  }

  lemma UnreadValue(s: string, key: string, after: string)
    requires s != [] && s[0] == '"' && ReadText(s[1..]) == Got(key, ":" + after) && ReadValue(after) == Nothing
    ensures ReadFields(s) == Nothing
  {
    SkipNothing(':', after);
  }

  lemma UnreadRest(s: string, key: string, after: string, v: Json, rest: string)
    requires s != [] && s[0] == '"' && ReadText(s[1..]) == Got(key, ":" + after)
    requires ReadValue(after) == Got(v, "," + rest) && ReadFields(rest) == Nothing
    ensures ReadFields(s) == Nothing
  {
    SkipNothing(':', after);
    SkipNothing(',', rest);
  }

  // ----- where the dumped text holds a separator -----

  lemma SeparatorIn(a: string, b: string)
    ensures HasSeparator(a + b) <==> HasSeparator(a) || HasSeparator(b)
  {
  }

  lemma {:induction false} EncodedSeparator(x: string)
    ensures HasSeparator(Encode(Dumped, x)) <==> HasSeparator(x)
  {
    if x != [] {
      EncodedSeparator(x[1..]);
      SeparatorIn(EncodeChar(Dumped, x[0]), Encode(Dumped, x[1..]));
      SeparatorIn([x[0]], x[1..]);
      assert [x[0]] + x[1..] == x;
      assert HasSeparator(EncodeChar(Dumped, x[0])) <==> HasSeparator([x[0]]);
    }
  }

  lemma TextSeparator(x: string)
    ensures HasSeparator(RenderText(Dumped, x)) <==> HasSeparator(x)
  {
    EncodedSeparator(x);
    SeparatorIn(Encode(Dumped, x), "\"");
    SeparatorIn("\"", Encode(Dumped, x) + "\"");
  }

  lemma {:induction false} RenderedSeparator(v: Json, level: nat)
    requires Valid(v)
    ensures HasSeparator(Render(Dumped, v, level)) <==> ValueSeparates(v)
    decreases v, 0
  {
    match v
    case Atom(text) => assert forall i :: 0 <= i < |text| ==> IsAtomChar(text[i]) && !IsLineSeparator(text[i]);
    case Text(x) => TextSeparator(x);
    case Arr(items) =>
      if items != NoItems {
        RenderedItemsSeparator(items, level + 1);
        NoGap(RenderItems(Dumped, items, level + 1));
        SeparatorIn("[", RenderItems(Dumped, items, level + 1));
      }
    case Obj(fields) =>
      if fields != NoFields {
        RenderedFieldsSeparator(fields, level + 1);
        NoGap(RenderFields(Dumped, fields, level + 1));
        SeparatorIn("{", RenderFields(Dumped, fields, level + 1));
      }
  }

  lemma {:induction false} RenderedItemsSeparator(items: Items, level: nat)
    requires items.Item? && ValidItems(items)
    ensures HasSeparator(RenderItems(Dumped, items, level)) <==> SomewhereInItems(items, HasSeparator)
    decreases items, 1
  {
    var first := Render(Dumped, items.head, level);
    RenderedSeparator(items.head, level);
    assert SomewhereInItems(items, HasSeparator) <==>
        ValueSeparates(items.head) || SomewhereInItems(items.tail, HasSeparator);
    if items.tail == NoItems {
      NoGap("]");
      SeparatorIn(first, "]");
    } else {
      var rest := RenderItems(Dumped, items.tail, level);
      RenderedItemsSeparator(items.tail, level);
      SeparatorIn(" ", rest);
      SeparatorIn(",", " " + rest);
      SeparatorIn(first, "," + (" " + rest));
    }
  }

  lemma {:induction false} RenderedFieldsSeparator(fields: Fields, level: nat)
    requires fields.Field? && ValidFields(fields)
    ensures HasSeparator(RenderFields(Dumped, fields, level)) <==> SomewhereInFields(fields, HasSeparator)
    decreases fields, 1
  {
    var value := Render(Dumped, fields.value, level);
    RenderedSeparator(fields.value, level);
    if fields.rest == NoFields {
      NoGap("}");
      SeparatorIn(value, "}");
      FieldSeparator(fields.key, value + "}");
    } else {
      var rest := RenderFields(Dumped, fields.rest, level);
      RenderedFieldsSeparator(fields.rest, level);
      SeparatorIn(" ", rest);
      SeparatorIn(",", " " + rest);
      SeparatorIn(value, "," + (" " + rest));
      FieldSeparator(fields.key, value + ("," + (" " + rest)));
    }
  }

  lemma FieldSeparator(key: string, after: string)
    ensures HasSeparator(RenderText(Dumped, key) + (":" + (" " + after))) <==> HasSeparator(key) || HasSeparator(after)
  {
    TextSeparator(key);
    SeparatorIn(" ", after);
    SeparatorIn(":", " " + after);
    SeparatorIn(RenderText(Dumped, key), ":" + (" " + after));
  }

  lemma LineSafeIsDumped(s: string)
    ensures EscapeAll(LineSafe, s) == s <==> !HasSeparator(s)
  {
    EscapedIsSafe(LineSafe, s);
    if !HasSeparator(s) {
      EscapePlain(LineSafe, s);
    } else {
      var c :| c in s && IsLineSeparator(c);
      assert NeedsEscape(LineSafe, c);
      assert c !in EscapeAll(LineSafe, s);
    }
  }

  // ----- undoing what json_for_script returns -----

  /** The separators can be escaped before '<'. */
  lemma {:induction false} AngleLast(s: string)
    ensures Replace(EscapeAll(LineSafe, s), '<', ANGLE) == EscapeAll(ScriptSafe, s)
  {
    if s != [] {
      AngleLast(s[1..]);
      ReplaceConcat(EscapeOne(LineSafe, s[0]), EscapeAll(LineSafe, s[1..]), '<', ANGLE);
      Escapes();
      if IsLineSeparator(s[0]) {
        ReplaceAbsent(EscapeOne(LineSafe, s[0]), '<', ANGLE);
      } else {
        ReplaceSingle(s[0], '<', ANGLE);
      }
    }
  }

  lemma UndoneText(payload: Json)
    requires Valid(payload)
    ensures UndoAngle(JsonForScript(payload)) == UndoAngle(Render(LineSafe, Sorted(payload), 0))
    ensures Render(LineSafe, Sorted(payload), 0) == EscapeAll(LineSafe, Dumps(payload))
  {
    SortedValid(payload);
    ReplacementsInOnePass(Dumps(payload));
    AngleLast(Dumps(payload));
    UndoSeesThrough(EscapeAll(LineSafe, Dumps(payload)));
    EscapeRendered(LineSafe, Sorted(payload), 0);
  }

  /** Replacing the escape by '<' in what json_for_script returns leaves a text that still decodes to
      the payload exactly when no string and no key contains the escape itself; otherwise the text is
      no JSON document at all. */
  lemma UndoneDecodes(payload: Json)
    requires Valid(payload)
    ensures var text := UndoAngle(JsonForScript(payload));
            if ValueMentions(payload) then Decode(text) == Nothing else Decode(text) == Got(Sorted(payload), [])
  {
    var v := Sorted(payload);
    var x := Render(LineSafe, v, 0);
    SortedValid(payload);
    SortedSomewhere(payload, Mentions);
    UndoneText(payload);
    NothingAfter(x);
    if ValueMentions(payload) {
      BrokenValue(v, 0, "");
    } else {
      UndoRendered(v, 0, "");
      NothingAfter(x);
      DecodeRendered(LineSafe, v, 0);
    }
  }

  /** It restores the dumped document exactly when, besides, no string and no key contains a line or
      paragraph separator. */
  lemma UndoingIsExact(payload: Json)
    requires Valid(payload)
    ensures UndoAngle(JsonForScript(payload)) == Dumps(payload) <==> !ValueMentions(payload) && !ValueSeparates(payload)
  {
    var v := Sorted(payload);
    var x := Render(LineSafe, v, 0);
    SortedValid(payload);
    SortedSomewhere(payload, Mentions);
    SortedSomewhere(payload, HasSeparator);
    UndoneText(payload);
    UndoneDecodes(payload);
    DecodeRendered(Dumped, v, 0);
    if !ValueMentions(payload) {
      NothingAfter(x);
      UndoRendered(v, 0, "");
      LineSafeIsDumped(Dumps(payload));
      RenderedSeparator(v, 0);
    }
  }

  /** A payload that the documented way back turns into no document, and one that it does not restore. */
  lemma UndoingFails()
    ensures Decode(UndoAngle(JsonForScript(Text("\\u003c")))) == Nothing
    ensures UndoAngle(JsonForScript(Text("\U{2028}"))) != Dumps(Text("\U{2028}"))
  {
    UndoneDecodes(Text("\\u003c"));
    assert StartsWith("\\u003c", ANGLE);
    UndoingIsExact(Text("\U{2028}"));
    assert "\U{2028}"[0] == '\U{2028}';
  }
}
