/** The depth-counting JSON check (verify_structural.cpp) against a grammar of balanced text. */
module StructuralCheck {
  import opened Concatenation
  import opened JsonText

  // ----- the scanner -----

  datatype Note = NotContainer | EarlyClose | Unterminated | Balanced(size: nat)

  datatype Verdict = Accept | Early | Unfinished

  /** The verdict of the counting loop on the rest of the text. */
  function Scan(s: string, q: Quoting, depth: nat): Verdict {
    if s == [] then
      if depth == 0 && q == Outside then Accept else Unfinished
    else if q != Outside then Scan(s[1..], Step(q, s[0]), depth)
    else if IsOpen(s[0]) then Scan(s[1..], Outside, depth + 1)
    else if IsClose(s[0]) then
      if depth == 0 then Early else Scan(s[1..], Outside, depth - 1)
    else Scan(s[1..], Step(Outside, s[0]), depth)
  }

  function Verify(text: string): Note {
    var body := SkipBlanks(text);
    if body == [] || !IsOpen(body[0]) then NotContainer
    else
      match Scan(body, Outside, 0)
      case Accept => Balanced(|text|)
      case Early => EarlyClose
      case Unfinished => Unterminated
  }

  /** One turn of the loop, by position. */
  lemma ScanAt(s: string, i: nat, q: Quoting, depth: nat)
    requires i < |s|
    ensures Scan(s[i..], q, depth) ==
            if q == Outside && IsOpen(s[i]) then Scan(s[i + 1..], Outside, depth + 1)
            else if q == Outside && IsClose(s[i]) then
              if depth == 0 then Early else Scan(s[i + 1..], Outside, depth - 1)
            else Scan(s[i + 1..], Step(q, s[i]), depth)
  {
    assert s[i..][1..] == s[i + 1..];
  }

  method ValidateJson(bytes: string) returns (ok: bool, note: Note)
    ensures note == Verify(bytes)
    ensures ok <==> note.Balanced?
  {
    var i := 0;
    assert bytes[0..] == bytes;
    while i < |bytes| && IsBlank(bytes[i])
      invariant 0 <= i <= |bytes|
      invariant SkipBlanks(bytes[i..]) == SkipBlanks(bytes)
    {
      assert bytes[i..][1..] == bytes[i + 1..];
      i := i + 1;
    }
    assert SkipBlanks(bytes) == bytes[i..];
    if i >= |bytes| || (bytes[i] != '{' && bytes[i] != '[') {
      return false, NotContainer;
    }
    ghost var verdict := Scan(bytes[i..], Outside, 0);
    ghost var q := Outside;
    var depth := 0;
    var inString := false;
    var escaped := false;
    while i < |bytes|
      invariant 0 <= i <= |bytes| && 0 <= depth
      invariant inString == (q != Outside) && escaped == (q == Escaped)
      invariant Scan(bytes[i..], q, depth) == verdict
    {
      var c := bytes[i];
      ScanAt(bytes, i, q, depth);
      if inString {
        if escaped {
          escaped := false;
        } else if c == '\\' {
          escaped := true;
        } else if c == '"' {
          inString := false;
        }
      } else if c == '"' {
        inString := true;
      } else if c == '{' || c == '[' {
        depth := depth + 1;
      } else if c == '}' || c == ']' {
        depth := depth - 1;
        if depth < 0 {
          return false, EarlyClose;
        }
      }
      assert Scan(bytes[i + 1..], Step(q, c), depth) == verdict;
      q, i := Step(q, c), i + 1;
    }
    assert bytes[i..] == [];
    if depth != 0 || inString {
      return false, Unterminated;
    }
    return true, Balanced(|bytes|);
  }

  // ----- the grammar -----

  datatype Item = Plain(c: char) | Escape(c: char)

  /** Text as nested groups, string literals and other characters. Nothing relates the
      kind of a group's closing bracket to that of its opening one. */
  datatype Forest =
    | Done
    | Other(c: char, rest: Forest)
    | Literal(body: seq<Item>, rest: Forest)
    | Group(open: char, inner: Forest, close: char, rest: Forest)

  predicate GoodItem(item: Item) {
    item.Plain? ==> item.c != '"' && item.c != '\\'
  }

  predicate WellFormed(f: Forest) {
    match f
    case Done => true
    case Other(c, rest) => c != '"' && !IsOpen(c) && !IsClose(c) && WellFormed(rest)
    case Literal(body, rest) => (forall i :: 0 <= i < |body| ==> GoodItem(body[i])) && WellFormed(rest)
    case Group(open, inner, close, rest) => IsOpen(open) && IsClose(close) && WellFormed(inner) && WellFormed(rest)
  }

  function SpellBody(body: seq<Item>): string {
    if body == [] then []
    else (match body[0] case Plain(c) => [c] case Escape(c) => ['\\', c]) + SpellBody(body[1..])
  }

  function Spell(f: Forest): string {
    match f
    case Done => []
    case Other(c, rest) => [c] + Spell(rest)
    case Literal(body, rest) => "\"" + (SpellBody(body) + ("\"" + Spell(rest)))
    case Group(open, inner, close, rest) => [open] + (Spell(inner) + ([close] + Spell(rest)))
  }

  // ----- every word of the grammar is scanned back to the depth it started from -----

  lemma {:induction false} ScanBody(body: seq<Item>, tail: string, depth: nat)
    requires forall i :: 0 <= i < |body| ==> GoodItem(body[i])
    ensures Scan(SpellBody(body) + "\"" + tail, Inside, depth) == Scan(tail, Outside, depth)
  {
    if body == [] {
      NoGap("\"");
      Uncons('"', tail);
    } else {
      var c, after := body[0].c, SpellBody(body[1..]) + "\"" + tail;
      ScanBody(body[1..], tail, depth);
      assert GoodItem(body[0]);
      if body[0].Plain? {
        assert SpellBody(body) + "\"" + tail == [c] + after;
        Uncons(c, after);
      } else {
        assert SpellBody(body) + "\"" + tail == ['\\'] + ([c] + after);
        Uncons('\\', [c] + after);
        Uncons(c, after);
      }
    }
  }

  lemma {:induction false} ScanForest(f: Forest, tail: string, depth: nat)
    requires WellFormed(f)
    ensures Scan(Spell(f) + tail, Outside, depth) == Scan(tail, Outside, depth)
    decreases f
  {
    match f
    case Done => NoGap(tail);
    case Other(c, rest) =>
      Regroup([c], Spell(rest), tail);
      Uncons(c, Spell(rest) + tail);
      ScanForest(rest, tail, depth);
    case Literal(body, rest) =>
      var after := Spell(rest) + tail;
      Regroup5("\"", SpellBody(body), "\"", Spell(rest), tail);
      Regroup(SpellBody(body), "\"", after);
      Uncons('"', SpellBody(body) + ("\"" + after));
      ScanBody(body, after, depth);
      ScanForest(rest, tail, depth);
    case Group(open, inner, close, rest) =>
      var after := Spell(rest) + tail;
      Regroup5([open], Spell(inner), [close], Spell(rest), tail);
      Uncons(open, Spell(inner) + ([close] + after));
      ScanForest(inner, [close] + after, depth + 1);
      Uncons(close, after);
      ScanForest(rest, tail, depth);
  }

  // ----- whatever the scanner does not leave unfinished has a reading in the grammar -----

  lemma {:induction false} ReadBody(s: string, depth: nat) returns (body: seq<Item>, tail: string)
    requires Scan(s, Inside, depth) != Unfinished
    ensures forall i :: 0 <= i < |body| ==> GoodItem(body[i])
    ensures s == SpellBody(body) + "\"" + tail
    ensures Scan(tail, Outside, depth) == Scan(s, Inside, depth)
    decreases |s|
  {
    if s[0] == '"' {
      body, tail := [], s[1..];
    } else if s[0] == '\\' {
      assert s[1..] != [];
      var rest;
      rest, tail := ReadBody(s[2..], depth);
      assert s[1..][1..] == s[2..];
      body := [Escape(s[1])] + rest;
      assert body[1..] == rest;
      assert s == ['\\', s[1]] + s[2..];
    } else {
      var rest;
      rest, tail := ReadBody(s[1..], depth);
      body := [Plain(s[0])] + rest;
      assert body[1..] == rest;
      assert s == [s[0]] + s[1..];
    }
  }

  lemma JoinLiteral(s: string, body: seq<Item>, rest: Forest, tail: string)
    requires s != [] && s[0] == '"' && s[1..] == SpellBody(body) + "\"" + (Spell(rest) + tail)
    ensures s == Spell(Literal(body, rest)) + tail
  {
    assert s == ['"'] + s[1..];
    assert Spell(Literal(body, rest)) + tail == "\"" + (SpellBody(body) + "\"" + (Spell(rest) + tail));
  }

  lemma JoinGroup(s: string, inner: Forest, after: string, rest: Forest, tail: string)
    requires s != [] && s[1..] == Spell(inner) + after
    requires after != [] && after[1..] == Spell(rest) + tail
    ensures s == Spell(Group(s[0], inner, after[0], rest)) + tail
  {
    assert s == [s[0]] + s[1..];
    assert after == [after[0]] + after[1..];
    assert Spell(Group(s[0], inner, after[0], rest)) + tail ==
        [s[0]] + (Spell(inner) + ([after[0]] + (Spell(rest) + tail)));
  }

  lemma JoinOther(s: string, rest: Forest, tail: string)
    requires s != [] && s[1..] == Spell(rest) + tail
    ensures s == Spell(Other(s[0], rest)) + tail
  {
    assert s == [s[0]] + s[1..];
    assert Spell(Other(s[0], rest)) + tail == [s[0]] + (Spell(rest) + tail);
  }

  /** A finished scan splits the text into a word of the grammar and either nothing or a
      text that begins with a bracket closing what was open before it. */
  lemma {:induction false} ReadForest(s: string, depth: nat) returns (f: Forest, tail: string)
    requires Scan(s, Outside, depth) != Unfinished
    ensures WellFormed(f) && s == Spell(f) + tail
    ensures tail == [] ==> depth == 0 && Scan(s, Outside, depth) == Accept
    ensures tail != [] ==> IsClose(tail[0])
    ensures tail != [] && depth == 0 ==> Scan(s, Outside, depth) == Early
    ensures tail != [] && depth > 0 ==> Scan(tail[1..], Outside, depth - 1) == Scan(s, Outside, depth)
    decreases |s|
  {
    if s == [] || IsClose(s[0]) {
      f, tail := Done, s;
      assert Spell(f) + tail == s;
    } else if s[0] == '"' {
      var body, after := ReadBody(s[1..], depth);
      var rest;
      rest, tail := ReadForest(after, depth);
      f := Literal(body, rest);
      JoinLiteral(s, body, rest, tail);
    } else if IsOpen(s[0]) {
      var inner, after := ReadForest(s[1..], depth + 1);
      var rest;
      rest, tail := ReadForest(after[1..], depth);
      f := Group(s[0], inner, after[0], rest);
      JoinGroup(s, inner, after, rest, tail);
    } else {
      var rest;
      rest, tail := ReadForest(s[1..], depth);
      f := Other(s[0], rest);
      JoinOther(s, rest, tail);
    }
  }

  // ----- what the check accepts and why it refuses -----

  /** blanks + f spells the text. */
  ghost predicate Reads(text: string, blanks: string, f: Forest, tail: string) {
    AllBlank(blanks) && WellFormed(f) && text == blanks + (Spell(f) + tail)
  }

  lemma BodyOf(text: string, blanks: string, f: Forest, tail: string)
    requires Reads(text, blanks, f, tail) && f.Group?
    ensures SkipBlanks(text) == Spell(f) + tail
  {
    SkipBlanksConcat(blanks, Spell(f) + tail);
    assert (Spell(f) + tail)[0] == f.open;
  }

  /** Accepted exactly when the text is blanks followed by a word of the grammar that begins
      with a group. */
  lemma AcceptedIsBalanced(text: string)
    ensures Verify(text).Balanced? <==> exists blanks, f :: Reads(text, blanks, f, []) && f.Group?
  {
    var body := SkipBlanks(text);
    if Verify(text).Balanced? {
      var blanks := SkipBlanksSplit(text);
      var f, tail := ReadForest(body, 0);
      assert Reads(text, blanks, f, []);
      assert Spell(f) == body;
      assert f.Group?;
    }
    if exists blanks, f :: Reads(text, blanks, f, []) && f.Group? {
      var blanks, f :| Reads(text, blanks, f, []) && f.Group?;
      BodyOf(text, blanks, f, []);
      ScanForest(f, [], 0);
    }
  }

  /** Refused for an early close exactly when a word of the grammar is followed by a closing
      bracket that nothing opened. */
  lemma EarlyCloseIsSurplus(text: string)
    ensures Verify(text).EarlyClose? <==>
            exists blanks, f, tail :: Reads(text, blanks, f, tail) && f.Group? && tail != [] && IsClose(tail[0])
  {
    var body := SkipBlanks(text);
    if Verify(text).EarlyClose? {
      var blanks := SkipBlanksSplit(text);
      var f, tail := ReadForest(body, 0);
      assert Reads(text, blanks, f, tail);
      assert f.Group?;
    }
    if exists blanks, f, tail :: Reads(text, blanks, f, tail) && f.Group? && tail != [] && IsClose(tail[0]) {
      var blanks, f, tail :| Reads(text, blanks, f, tail) && f.Group? && tail != [] && IsClose(tail[0]);
      BodyOf(text, blanks, f, tail);
      ScanForest(f, tail, 0);
    }
  }

  /** The check does not see the kind of a bracket, nor what follows the first value. */
  lemma KindBlind()
    ensures Verify("{]").Balanced? && Verify("{}[]").Balanced?
  {
    assert "{]"[1..] == "]" && "]"[1..] == "";
    assert Scan("]", Outside, 1) == Accept;
    assert "{}[]"[1..] == "}[]" && "}[]"[1..] == "[]" && "[]"[1..] == "]";
    assert Scan("[]", Outside, 0) == Accept;
    assert Scan("}[]", Outside, 1) == Accept;
  }
}
