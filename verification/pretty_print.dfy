/** The streaming JSON indenter of the case logger (CaseLogger::PrettyPrint). */
module PrettyPrinter {
  import opened Concatenation
  import opened JsonText
  import opened StructuralCheck

  const MAX_INDENT := 64

  /** Two spaces a level, at most MAX_INDENT levels. */
  function Pad(level: int): (r: string)
    ensures |r| <= 128
  {
    seq(2 * (if level < 0 then 0 else if level > MAX_INDENT then MAX_INDENT else level), _ => ' ')
  }

  /** A line break and the indentation of the next line. */
  function Break(level: int): (r: string)
    ensures 0 < |r| <= 129
  {
    "\n" + Pad(level)
  }

  lemma BreakIsBlank(level: int)
    ensures AllBlank(Break(level))
  {
  }

  function Outdent(indent: nat): nat {
    if indent > 0 then indent - 1 else 0
  }

  /** One turn of the loop: what it prints, how many characters it consumes and the state it leaves. */
  datatype Turn = Turn(text: string, used: nat, indent: nat, q: Quoting)

  function TurnAt(s: string, indent: nat, q: Quoting): (t: Turn)
    requires s != []
    ensures 1 <= t.used <= |s|
  {
    var c := s[0];
    if q != Outside then Turn([c], 1, indent, Step(q, c))
    else if IsBlank(c) then Turn("", 1, indent, Outside)
    else if IsOpen(c) then
      if |s| > 1 && IsClose(s[1]) then Turn([c, s[1]], 2, indent, Outside)
      else Turn([c] + Break(indent + 1), 1, indent + 1, Outside)
    else if IsClose(c) then Turn(Break(Outdent(indent)) + [c], 1, Outdent(indent), Outside)
    else if c == ',' then Turn("," + Break(indent), 1, indent, Outside)
    else if c == ':' then Turn(": ", 1, indent, Outside)
    else Turn([c], 1, indent, Step(Outside, c))
  }

  /** What the loop still prints for the rest s of its input. */
  function Pretty(s: string, indent: nat, q: Quoting): string
    decreases |s|
  {
    if s == [] then []
    else
      var t := TurnAt(s, indent, q);
      t.text + Pretty(s[t.used..], t.indent, t.q)
  }

  /** One turn moves its text from what is still to be printed to what has been. */
  lemma PrettyTurn(text: string, printed: string, i: nat, indent: nat, q: Quoting)
    requires i < |text|
    ensures var t := TurnAt(text[i..], indent, q);
            printed + Pretty(text[i..], indent, q) ==
            (printed + t.text) + Pretty(text[i + t.used..], t.indent, t.q)
  {
    var t := TurnAt(text[i..], indent, q);
    assert text[i..][t.used..] == text[i + t.used..];
    Regroup(printed, t.text, Pretty(text[i + t.used..], t.indent, t.q));
  }

  /** The quoting state that the loop keeps in two flags. */
  function Flags(inString: bool, escape: bool): Quoting {
    if escape then Escaped else if inString then Inside else Outside
  }

  method PrettyPrint(compactJson: string) returns (out: string)
    ensures out == Pretty(compactJson, 0, Outside)
  {
    out := "";
    var indent := 0;
    var inString := false;
    var escape := false;
    var i := 0;
    ghost var goal := Pretty(compactJson, 0, Outside);
    assert compactJson[0..] == compactJson;
    NoGap(goal);
    while i < |compactJson|
      invariant 0 <= i <= |compactJson| && 0 <= indent && (escape ==> inString)
      invariant goal == out + Pretty(compactJson[i..], indent, Flags(inString, escape))
    {
      PrettyTurn(compactJson, out, i, indent, Flags(inString, escape));
      out, indent, inString, escape, i := PrintTurn(compactJson, out, indent, inString, escape, i);
    }
    assert compactJson[i..] == [];
    NothingAfter(out);
  }

  /** The body of the loop. */
  method PrintTurn(compactJson: string, before: string, level: nat, wasInString: bool, wasEscape: bool, at: nat)
    returns (out: string, indent: nat, inString: bool, escape: bool, i: nat)
    requires at < |compactJson| && (wasEscape ==> wasInString)
    ensures var t := TurnAt(compactJson[at..], level, Flags(wasInString, wasEscape));
            && out == before + t.text && indent == t.indent && i == at + t.used
            && (escape ==> inString) && Flags(inString, escape) == t.q
  {
    out, indent, inString, escape, i := before, level, wasInString, wasEscape, at;
    var c := compactJson[i];
    if inString {
      out := out + [c];
      if escape {
        escape := false;
      } else if c == '\\' {
        escape := true;
      } else if c == '"' {
        inString := false;
      }
      i := i + 1;
      return;
    }
    if c == ' ' || c == '\n' || c == '\t' || c == '\r' {
      NothingAfter(out);
      i := i + 1;
      return;
    }
    if c == '"' {
      inString := true;
    }
    out, indent, i := PrintOutside(compactJson, out, indent, i);
  }

  /** The cases of the loop outside string literals, blanks apart. */
  method PrintOutside(compactJson: string, before: string, level: nat, at: nat)
    returns (out: string, indent: nat, i: nat)
    requires at < |compactJson| && !IsBlank(compactJson[at])
    ensures var t := TurnAt(compactJson[at..], level, Outside);
            out == before + t.text && indent == t.indent && i == at + t.used
  {
    out, indent, i := before, level, at;
    var c := compactJson[i];
    match c {
      case '{' | '[' =>
        if i + 1 < |compactJson| && (compactJson[i + 1] == '}' || compactJson[i + 1] == ']') {
          out := out + [c];
          out := out + [compactJson[i + 1]];
          Regroup(before, [c], [compactJson[i + 1]]);
          i := i + 1;
        } else {
          indent := indent + 1;
          out := out + [c];
          out := NewLine(out, indent);
          Regroup(before, [c], Break(indent));
        }
      case '}' | ']' =>
        if indent > 0 {
          indent := indent - 1;
        }
        out := NewLine(out, indent);
        out := out + [c];
        Regroup(before, Break(indent), [c]);
      case ',' =>
        out := out + [c];
        out := NewLine(out, indent);
        Regroup(before, ",", Break(indent));
      case ':' =>
        out := out + ": ";
      case _ =>
        out := out + [c];
    }
    i := i + 1;
  }

  method NewLine(before: string, indent: nat) returns (out: string)
    ensures out == before + Break(indent)
  {
    out := before + "\n";
    out := out + Pad(indent);
    Regroup(before, "\n", Pad(indent));
  }

  // ----- only blanks outside string literals change -----

  /** The text without the blanks outside its string literals. */
  function Strip(s: string, q: Quoting): string
    decreases |s|
  {
    if s == [] then []
    else if q == Outside && IsBlank(s[0]) then Strip(s[1..], q)
    else [s[0]] + Strip(s[1..], Step(q, s[0]))
  }

  lemma {:induction false} StripBlanks(blanks: string, s: string)
    requires AllBlank(blanks)
    ensures Strip(blanks + s, Outside) == Strip(s, Outside)
  {
    if blanks == [] {
      assert blanks + s == s;
    } else {
      assert (blanks + s)[1..] == blanks[1..] + s;
      StripBlanks(blanks[1..], s);
    }
  }

  lemma StripOne(c: char, more: string, q: Quoting)
    requires !(q == Outside && IsBlank(c))
    ensures Strip([c] + more, q) == [c] + Strip(more, Step(q, c))
  {
    assert ([c] + more)[1..] == more;
  }

  lemma StripSpaced(c: char, blanks: string, more: string)
    requires AllBlank(blanks) && !IsBlank(c) && c != '"'
    ensures Strip([c] + blanks + more, Outside) == [c] + Strip(more, Outside)
    ensures Strip(blanks + [c] + more, Outside) == [c] + Strip(more, Outside)
  {
    Regroup([c], blanks, more);
    StripOne(c, blanks + more, Outside);
    StripBlanks(blanks, more);
    Regroup(blanks, [c], more);
    StripBlanks(blanks, [c] + more);
    StripOne(c, more, Outside);
  }

  lemma StripPair(c: char, d: char, more: string)
    requires IsOpen(c) && IsClose(d)
    ensures Strip([c, d] + more, Outside) == [c, d] + Strip(more, Outside)
  {
    assert [c, d] + more == [c] + ([d] + more);
    StripOne(c, [d] + more, Outside);
    StripOne(d, more, Outside);
  }

  /** Stripping what a turn prints leaves what stripping the consumed characters leaves. */
  lemma StripTurn(s: string, indent: nat, q: Quoting, printed: string) returns (kept: string)
    requires s != []
    ensures var t := TurnAt(s, indent, q);
            && Strip(t.text + printed, q) == kept + Strip(printed, t.q)
            && Strip(s, q) == kept + Strip(s[t.used..], t.q)
  {
    var t := TurnAt(s, indent, q);
    var c := s[0];
    if q == Outside && IsBlank(c) {
      kept := [];
      assert t.text + printed == printed;
    } else if q == Outside && IsOpen(c) && t.used == 2 {
      kept := [c, s[1]];
      StripPair(c, s[1], printed);
      StripPair(c, s[1], s[2..]);
      assert s == [c, s[1]] + s[2..];
    } else {
      kept := [c];
      var level := if IsOpen(c) then indent + 1 else if IsClose(c) then Outdent(indent) else indent;
      BreakIsBlank(level);
      if q == Outside && (IsOpen(c) || IsClose(c) || c == ',') {
        StripSpaced(c, Break(level), printed);
      } else if q == Outside && c == ':' {
        assert t.text == [c] + " ";
        StripSpaced(c, " ", printed);
      } else {
        StripOne(c, printed, q);
      }
    }
  }

  lemma {:induction false} PrettyKeepsStripped(s: string, indent: nat, q: Quoting)
    ensures Strip(Pretty(s, indent, q), q) == Strip(s, q)
    decreases |s|
  {
    if s != [] {
      var t := TurnAt(s, indent, q);
      PrettyKeepsStripped(s[t.used..], t.indent, t.q);
      var kept := StripTurn(s, indent, q, Pretty(s[t.used..], t.indent, t.q));
    }
  }

  // ----- printing twice -----

  lemma {:induction false} PrettySkipsBlanks(blanks: string, s: string, indent: nat)
    requires AllBlank(blanks)
    ensures Pretty(blanks + s, indent, Outside) == Pretty(s, indent, Outside)
  {
    if blanks == [] {
      assert blanks + s == s;
    } else {
      assert (blanks + s)[1..] == blanks[1..] + s;
      PrettySkipsBlanks(blanks[1..], s, indent);
      assert Pretty(blanks + s, indent, Outside) == "" + Pretty(blanks[1..] + s, indent, Outside);
    }
  }

  /** The defining equation, for a text put together from parts. */
  lemma FirstTurn(s: string, indent: nat, q: Quoting, t: Turn, rest: string)
    requires s != [] && TurnAt(s, indent, q) == t && s[t.used..] == rest
    ensures Pretty(s, indent, q) == t.text + Pretty(rest, t.indent, t.q)
  {
  }

  /** An opening bracket before a blank starts a line. */
  lemma OpenBefore(c: char, rest: string, indent: nat)
    requires IsOpen(c) && rest != [] && IsBlank(rest[0])
    ensures Pretty([c] + rest, indent, Outside) == ([c] + Break(indent + 1)) + Pretty(rest, indent + 1, Outside)
  {
    assert ([c] + rest)[1] == rest[0] && ([c] + rest)[1..] == rest;
  }

  /** A turn's own text is printed back unchanged, whatever follows it. */
  lemma ReprintTurn(s: string, indent: nat, q: Quoting, more: string)
    requires s != []
    ensures var t := TurnAt(s, indent, q);
            Pretty(t.text + more, indent, q) == t.text + Pretty(more, t.indent, t.q)
  {
    var c := s[0];
    if q == Outside && IsBlank(c) {
      NoGap(more);
      NoGap(Pretty(more, indent, q));
    } else if q == Outside && IsOpen(c) {
      if |s| > 1 && IsClose(s[1]) {
        ReprintPair(c, s[1], indent, more);
      } else {
        ReprintOpen(c, indent, more);
      }
    } else if q == Outside && IsClose(c) {
      ReprintClose(c, indent, more);
    } else if q == Outside && (c == ',' || c == ':') {
      ReprintSpaced(c, indent, more);
    } else {
      ReprintOne(c, indent, q, more);
    }
  }

  lemma ReprintOne(c: char, indent: nat, q: Quoting, more: string)
    requires q != Outside || (!IsBlank(c) && !IsOpen(c) && !IsClose(c) && c != ',' && c != ':')
    ensures Pretty([c] + more, indent, q) == [c] + Pretty(more, indent, Step(q, c))
  {
    Uncons(c, more);
    FirstTurn([c] + more, indent, q, Turn([c], 1, indent, Step(q, c)), more);
  }

  lemma ReprintPair(c: char, d: char, indent: nat, more: string)
    requires IsOpen(c) && IsClose(d)
    ensures Pretty([c, d] + more, indent, Outside) == [c, d] + Pretty(more, indent, Outside)
  {
    assert ([c, d] + more)[2..] == more;
    FirstTurn([c, d] + more, indent, Outside, Turn([c, d], 2, indent, Outside), more);
  }

  lemma ReprintOpen(c: char, indent: nat, more: string)
    requires IsOpen(c)
    ensures Pretty([c] + Break(indent + 1) + more, indent, Outside)
            == [c] + Break(indent + 1) + Pretty(more, indent + 1, Outside)
  {
    var b := Break(indent + 1);
    BreakIsBlank(indent + 1);
    Regroup([c], b, more);
    assert (b + more)[0] == b[0];
    OpenBefore(c, b + more, indent);
    PrettySkipsBlanks(b, more, indent + 1);
  }

  lemma ReprintClose(c: char, indent: nat, more: string)
    requires IsClose(c)
    ensures var b := Break(Outdent(indent));
            Pretty(b + [c] + more, indent, Outside) == b + [c] + Pretty(more, Outdent(indent), Outside)
  {
    var b := Break(Outdent(indent));
    BreakIsBlank(Outdent(indent));
    Regroup(b, [c], more);
    PrettySkipsBlanks(b, [c] + more, indent);
    Uncons(c, more);
    FirstTurn([c] + more, indent, Outside, Turn(b + [c], 1, Outdent(indent), Outside), more);
  }

  lemma ReprintSpaced(c: char, indent: nat, more: string)
    requires c == ',' || c == ':'
    ensures var b := if c == ',' then Break(indent) else " ";
            Pretty([c] + b + more, indent, Outside) == [c] + b + Pretty(more, indent, Outside)
  {
    var b := if c == ',' then Break(indent) else " ";
    BreakIsBlank(indent);
    Regroup([c], b, more);
    Uncons(c, b + more);
    assert c == ':' ==> [c] + b == ": ";
    FirstTurn([c] + (b + more), indent, Outside, Turn([c] + b, 1, indent, Outside), b + more);
    PrettySkipsBlanks(b, more, indent);
  }

  lemma {:induction false} PrettyIsIdempotent(s: string, indent: nat, q: Quoting)
    ensures Pretty(Pretty(s, indent, q), indent, q) == Pretty(s, indent, q)
    decreases |s|
  {
    if s != [] {
      var t := TurnAt(s, indent, q);
      PrettyIsIdempotent(s[t.used..], t.indent, t.q);
      ReprintTurn(s, indent, q, Pretty(s[t.used..], t.indent, t.q));
    }
  }

  // ----- size -----

  /** Unbalanced input included: the indentation is clamped, so a character never costs more
      than a line break, 128 spaces and itself. */
  lemma {:induction false} PrettyIsBounded(s: string, indent: nat, q: Quoting)
    ensures |Pretty(s, indent, q)| <= 130 * |s|
    decreases |s|
  {
    if s != [] {
      var t := TurnAt(s, indent, q);
      assert |t.text| <= 130 * t.used;
      PrettyIsBounded(s[t.used..], t.indent, t.q);
    }
  }

  // ----- the structural check sees no difference -----

  lemma {:induction false} ScanIgnoresBlanks(s: string, q: Quoting, depth: nat)
    ensures Scan(Strip(s, q), q, depth) == Scan(s, q, depth)
    decreases |s|
  {
    if s != [] {
      if q == Outside && IsBlank(s[0]) {
        ScanIgnoresBlanks(s[1..], q, depth);
      } else {
        var next := Step(q, s[0]);
        var rest := Strip(s[1..], next);
        assert Strip(s, q)[1..] == rest;
        if q == Outside && IsOpen(s[0]) {
          ScanIgnoresBlanks(s[1..], next, depth + 1);
        } else if q == Outside && IsClose(s[0]) {
          if depth > 0 {
            ScanIgnoresBlanks(s[1..], next, depth - 1);
          }
        } else {
          ScanIgnoresBlanks(s[1..], next, depth);
        }
      }
    }
  }

  /** The check on a text, read off the stripped text. */
  lemma {:induction false} VerdictOfStripped(s: string)
    ensures var stripped := Strip(s, Outside);
            Verify(s).Balanced? <==> stripped != [] && IsOpen(stripped[0]) && Scan(stripped, Outside, 0) == Accept
    ensures var stripped := Strip(s, Outside);
            Verify(s).NotContainer? <==> stripped == [] || !IsOpen(stripped[0])
    ensures var stripped := Strip(s, Outside);
            Verify(s).EarlyClose? <==> stripped != [] && IsOpen(stripped[0]) && Scan(stripped, Outside, 0) == Early
  {
    var blanks := SkipBlanksSplit(s);
    var body := SkipBlanks(s);
    StripBlanks(blanks, body);
    ScanIgnoresBlanks(body, Outside, 0);
    if body != [] {
      assert Strip(body, Outside)[0] == body[0];
    }
  }

  /** Pretty-printing never changes the check's answer, nor the reason of a refusal. */
  lemma PrettyKeepsVerdict(s: string)
    ensures var printed := Pretty(s, 0, Outside);
            && (Verify(printed).Balanced? <==> Verify(s).Balanced?)
            && (Verify(printed).NotContainer? <==> Verify(s).NotContainer?)
            && (Verify(printed).EarlyClose? <==> Verify(s).EarlyClose?)
  {
    var printed := Pretty(s, 0, Outside);
    PrettyKeepsStripped(s, 0, Outside);
    VerdictOfStripped(s);
    VerdictOfStripped(printed);
  }

  // ----- string literals -----

  /** Text that stays inside a string literal is copied as it is. */
  lemma {:induction false} QuotedVerbatim(body: string, more: string, indent: nat, q: Quoting)
    requires StaysQuoted(q, body)
    ensures Pretty(body + more, indent, q) == body + Pretty(more, indent, Advance(q, body))
    decreases |body|
  {
    if body == [] {
      assert body + more == more;
    } else {
      var c, rest := body[0], body[1..];
      assert (body + more)[1..] == rest + more;
      FirstTurn(body + more, indent, q, Turn([c], 1, indent, Step(q, c)), rest + more);
      QuotedVerbatim(rest, more, indent, Step(q, c));
      Regroup([c], rest, Pretty(more, indent, Advance(q, body)));
      assert [c] + rest == body;
    }
  }

  // ----- what the layout is -----

  /** The layout by structure: every group's content is one level deeper than the group, an
      empty group stays closed up, and a comma ends its line. */
  function Layout(f: Forest, level: nat): string
    requires WellFormed(f)
    decreases f, 1
  {
    match f
    case Done => []
    case Other(c, rest) =>
      (if IsBlank(c) then "" else if c == ',' then "," + Break(level) else if c == ':' then ": " else [c])
      + Layout(rest, level)
    case Literal(body, rest) => "\"" + (SpellBody(body) + ("\"" + Layout(rest, level)))
    case Group(open, inner, close, rest) => GroupLayout(open, inner, close, level) + Layout(rest, level)
  }

  function GroupLayout(open: char, inner: Forest, close: char, level: nat): string
    requires WellFormed(inner)
    decreases inner, 2
  {
    if inner == Done then [open, close]
    else [open] + Break(level + 1) + (Layout(inner, level + 1) + (Break(level) + [close]))
  }

  lemma {:induction false} BodyStaysQuoted(body: seq<Item>)
    requires forall i :: 0 <= i < |body| ==> GoodItem(body[i])
    ensures StaysQuoted(Inside, SpellBody(body)) && Advance(Inside, SpellBody(body)) == Inside
  {
    if body != [] {
      BodyStaysQuoted(body[1..]);
      var s := SpellBody(body);
      assert GoodItem(body[0]);
      if body[0].Plain? {
        assert s[1..] == SpellBody(body[1..]);
      } else {
        assert s[1..] == [body[0].c] + SpellBody(body[1..]);
        assert s[1..][1..] == SpellBody(body[1..]);
      }
    }
  }

  lemma PrettyLiteral(body: seq<Item>, more: string, level: nat)
    requires forall i :: 0 <= i < |body| ==> GoodItem(body[i])
    ensures Pretty("\"" + (SpellBody(body) + ("\"" + more)), level, Outside)
            == "\"" + (SpellBody(body) + ("\"" + Pretty(more, level, Outside)))
  {
    BodyStaysQuoted(body);
    var inside := SpellBody(body) + ("\"" + more);
    Uncons('"', inside);
    FirstTurn("\"" + inside, level, Outside, Turn("\"", 1, level, Inside), inside);
    QuotedVerbatim(SpellBody(body), "\"" + more, level, Inside);
    Uncons('"', more);
    FirstTurn("\"" + more, level, Inside, Turn("\"", 1, level, Outside), more);
  }

  lemma PrettyEmptyGroup(open: char, close: char, after: string, level: nat)
    requires IsOpen(open) && IsClose(close)
    ensures Pretty([open] + ([close] + after), level, Outside) == [open, close] + Pretty(after, level, Outside)
  {
    var s := [open] + ([close] + after);
    FirstTurn(s, level, Outside, Turn([open, close], 2, level, Outside), after);
  }

  lemma PrettyOpening(open: char, inside: string, level: nat)
    requires IsOpen(open) && inside != [] && !IsClose(inside[0])
    ensures Pretty([open] + inside, level, Outside) == ([open] + Break(level + 1)) + Pretty(inside, level + 1, Outside)
  {
    Uncons(open, inside);
    FirstTurn([open] + inside, level, Outside, Turn([open] + Break(level + 1), 1, level + 1, Outside), inside);
  }

  lemma PrettyClosing(close: char, after: string, level: nat)
    requires IsClose(close)
    ensures Pretty([close] + after, level + 1, Outside) == (Break(level) + [close]) + Pretty(after, level, Outside)
  {
    Uncons(close, after);
    FirstTurn([close] + after, level + 1, Outside, Turn(Break(level) + [close], 1, level, Outside), after);
  }

  lemma PrettyGroup(open: char, inner: string, printed: string, close: char, after: string, level: nat)
    requires IsOpen(open) && IsClose(close) && inner != [] && !IsClose(inner[0])
    requires Pretty(inner + ([close] + after), level + 1, Outside)
             == printed + Pretty([close] + after, level + 1, Outside)
    ensures Pretty([open] + (inner + ([close] + after)), level, Outside)
            == [open] + Break(level + 1) + (printed + (Break(level) + [close])) + Pretty(after, level, Outside)
  {
    PrettyOpening(open, inner + ([close] + after), level);
    PrettyClosing(close, after, level);
    var rest := Pretty(after, level, Outside);
    Regroup(printed, Break(level) + [close], rest);
    Regroup([open] + Break(level + 1), printed + (Break(level) + [close]), rest);
  }

  lemma InnerIsNotClosed(f: Forest)
    requires WellFormed(f) && f != Done
    ensures Spell(f) != [] && !IsClose(Spell(f)[0])
  {
  }

  lemma {:induction false} PrettyForest(f: Forest, more: string, level: nat)
    requires WellFormed(f)
    ensures Pretty(Spell(f) + more, level, Outside) == Layout(f, level) + Pretty(more, level, Outside)
    decreases f
  {
    if f == Done {
      assert Spell(f) + more == more;
      return;
    }
    PrettyForest(f.rest, more, level);
    var after := Spell(f.rest) + more;
    var printed, last := Layout(f.rest, level), Pretty(more, level, Outside);
    match f
    case Other(c, rest) =>
      Regroup([c], Spell(rest), more);
      Uncons(c, after);
      var t := TurnAt([c] + after, level, Outside);
      FirstTurn([c] + after, level, Outside, t, after);
      Regroup(t.text, printed, last);
    case Literal(body, rest) =>
      PrettyLiteral(body, after, level);
      Regroup5("\"", SpellBody(body), "\"", Spell(rest), more);
      Regroup5("\"", SpellBody(body), "\"", printed, last);
    case Group(open, inner, close, rest) =>
      Regroup5([open], Spell(inner), [close], Spell(rest), more);
      PrettyForest(inner, [close] + after, level + 1);
      if inner == Done {
        PrettyEmptyGroup(open, close, after, level);
        assert Spell(inner) + ([close] + after) == [close] + after;
      } else {
        InnerIsNotClosed(inner);
        PrettyGroup(open, Spell(inner), Layout(inner, level + 1), close, after, level);
      }
      Regroup(GroupLayout(open, inner, close, level), printed, last);
  }

  /** On every text the structural check accepts, the printer produces the structural layout. */
  lemma PrettyIsLayout(text: string, blanks: string, f: Forest)
    requires Reads(text, blanks, f, [])
    ensures Pretty(text, 0, Outside) == Layout(f, 0)
  {
    PrettySkipsBlanks(blanks, Spell(f) + [], 0);
    PrettyForest(f, [], 0);
  }
}
