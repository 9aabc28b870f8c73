/** What every printed text looks like, line by line, apart from how it is printed (case_logger.cpp). */
module PrettyLines {
  import opened Concatenation
  import opened JsonText
  import opened PrettyPrinter

  function AfterSpaces(s: string): (r: string)
    ensures |r| <= |s|
  {
    if s != [] && s[0] == ' ' then AfterSpaces(s[1..]) else s
  }

  /** Two spaces a level, for 64 levels at most. */
  function Indentation(depth: nat): nat {
    if depth > 64 then 128 else 2 * depth
  }

  /** Outside literals, a line is broken behind every comma and behind every bracket that is not closed at once, and
      before every closing one; a line is indented by the groups open around it; a colon is followed by one space; and
      there are no other blanks. due says that a line has to be broken here. */
  predicate Laid(s: string, q: Quoting, depth: nat, due: bool)
    decreases |s|
  {
    if s == [] then !due
    else if q != Outside then !due && Laid(s[1..], Step(q, s[0]), depth, false)
    else if s[0] == '\n' then
      var rest := AfterSpaces(s[1..]);
      var spaces := |s| - 1 - |rest|;
      if due then spaces == Indentation(depth) && (rest != [] ==> !IsClose(rest[0])) &&
          Laid(rest, Outside, depth, false)
      else
        var outer := if depth > 0 then depth - 1 else 0;
        rest != [] && IsClose(rest[0]) && spaces == Indentation(outer) && Laid(rest[1..], Outside, outer, false)
    else if due then false
    else if IsOpen(s[0]) then
      if |s| > 1 && IsClose(s[1]) then Laid(s[2..], Outside, depth, false) else Laid(s[1..], Outside, depth + 1, true)
    else if s[0] == ',' then Laid(s[1..], Outside, depth, true)
    else if s[0] == ':' then |s| > 1 && s[1] == ' ' && Laid(s[2..], Outside, depth, false)
    else !IsClose(s[0]) && !IsBlank(s[0]) && Laid(s[1..], Step(Outside, s[0]), depth, false)
  }

  /** A text that a broken line can go on with. */
  predicate GoesOn(s: string) {
    s != [] ==> s[0] != ' ' && !IsClose(s[0])
  }

  lemma {:induction false} PrettyGoesOn(s: string, depth: nat)
    ensures GoesOn(Pretty(s, depth, Outside))
    decreases |s|
  {
    if s != [] && IsBlank(s[0]) {
      PrettyGoesOn(s[1..], depth);
      NoGap(Pretty(s[1..], depth, Outside));
    }
  }

  lemma {:induction false} SpacesEnd(n: nat, s: string)
    requires s != [] ==> s[0] != ' '
    ensures AfterSpaces(seq(n, _ => ' ') + s) == s
  {
    var spaces := seq(n, _ => ' ');
    if n == 0 {
      NoGap(s);
    } else {
      assert (spaces + s)[0] == ' ' && (spaces + s)[1..] == seq(n - 1, _ => ' ') + s;
      SpacesEnd(n - 1, s);
    }
  }

  /** A broken line, as it is printed. */
  lemma BrokenLine(level: nat, s: string)
    requires s != [] ==> s[0] != ' '
    ensures var t := Break(level) + s;
            t != [] && t[0] == '\n' && AfterSpaces(t[1..]) == s && |t| - 1 - |s| == Indentation(level)
  {
    var pad := Pad(level);
    assert pad == seq(|pad|, _ => ' ');
    SpacesEnd(|pad|, s);
    assert (Break(level) + s)[1..] == pad + s;
  }

  lemma OpensLine(depth: nat, s: string)
    requires GoesOn(s) && Laid(s, Outside, depth, false)
    ensures Laid(Break(depth) + s, Outside, depth, true)
  {
    BrokenLine(depth, s);
  }

  lemma ClosesLine(depth: nat, c: char, s: string)
    requires IsClose(c) && Laid(s, Outside, Outdent(depth), false)
    ensures Laid(Break(Outdent(depth)) + ([c] + s), Outside, depth, false)
  {
    BrokenLine(Outdent(depth), [c] + s);
    Uncons(c, s);
  }

  /** A blank, a quote or any other character that stands for itself. */
  predicate Stays(text: string) {
    |text| <= 1 &&
    (text != [] ==>
       !IsBlank(text[0]) && !IsOpen(text[0]) && !IsClose(text[0]) && text[0] != ',' && text[0] != ':')
  }

  lemma StayTurn(text: string, printed: string, q: Quoting, depth: nat)
    requires Stays(text) && q == (if text == [] then Outside else Step(Outside, text[0]))
    requires Laid(printed, q, depth, false)
    ensures Laid(text + printed, Outside, depth, false)
  {
    if text == [] {
      NoGap(printed);
    } else {
      assert text == [text[0]];
      Uncons(text[0], printed);
    }
  }

  lemma QuotedTurn(c: char, printed: string, q: Quoting, depth: nat)
    requires q != Outside && Laid(printed, Step(q, c), depth, false)
    ensures Laid([c] + printed, q, depth, false)
  {
    Uncons(c, printed);
  }

  lemma OpenTurn(c: char, s: string, depth: nat)
    requires IsOpen(c) && GoesOn(s) && Laid(s, Outside, depth + 1, false)
    ensures Laid([c] + Break(depth + 1) + s, Outside, depth, false)
  {
    OpensLine(depth + 1, s);
    Regroup([c], Break(depth + 1), s);
    Uncons(c, Break(depth + 1) + s);
  }

  lemma PairTurn(open: char, close: char, s: string, depth: nat)
    requires IsOpen(open) && IsClose(close) && Laid(s, Outside, depth, false)
    ensures Laid([open, close] + s, Outside, depth, false)
  {
    assert ([open, close] + s)[2..] == s;
  }

  lemma CommaTurn(s: string, depth: nat)
    requires GoesOn(s) && Laid(s, Outside, depth, false)
    ensures Laid("," + Break(depth) + s, Outside, depth, false)
  {
    OpensLine(depth, s);
    Regroup(",", Break(depth), s);
    Uncons(',', Break(depth) + s);
  }

  lemma ColonTurn(s: string, depth: nat)
    requires Laid(s, Outside, depth, false)
    ensures Laid(": " + s, Outside, depth, false)
  {
    assert (": " + s)[2..] == s;
  }

  lemma CloseTurn(c: char, s: string, depth: nat)
    requires IsClose(c) && Laid(s, Outside, Outdent(depth), false)
    ensures Laid(Break(Outdent(depth)) + [c] + s, Outside, depth, false)
  {
    ClosesLine(depth, c, s);
    Regroup(Break(Outdent(depth)), [c], s);
  }

  /** Every printed text is laid out in lines, whatever was printed. */
  lemma {:induction false} PrettyIsLaid(s: string, depth: nat, q: Quoting)
    ensures Laid(Pretty(s, depth, q), q, depth, false)
    decreases |s|
  {
    if s != [] {
      var t := TurnAt(s, depth, q);
      var rest := s[t.used..];
      var printed := Pretty(rest, t.indent, t.q);
      PrettyIsLaid(rest, t.indent, t.q);
      if q != Outside {
        QuotedTurn(s[0], printed, q, depth);
      } else {
        PrettyGoesOn(rest, t.indent);
        if IsOpen(s[0]) && |s| > 1 && IsClose(s[1]) {
          PairTurn(s[0], s[1], printed, depth);
        } else if IsOpen(s[0]) {
          OpenTurn(s[0], printed, depth);
        } else if IsClose(s[0]) {
          CloseTurn(s[0], printed, depth);
        } else if s[0] == ',' {
          CommaTurn(printed, depth);
        } else if s[0] == ':' {
          ColonTurn(printed, depth);
        } else {
          StayTurn(t.text, printed, t.q, depth);
        }
      }
    }
  }
}
