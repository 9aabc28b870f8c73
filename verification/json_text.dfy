/** Characters and string-literal tracking shared by the two hand-written JSON scanners. */
module JsonText {
  import opened Concatenation

  predicate IsBlank(c: char) {
    c == ' ' || c == '\n' || c == '\t' || c == '\r'
  }

  predicate IsOpen(c: char) {
    c == '{' || c == '['
  }

  predicate IsClose(c: char) {
    c == '}' || c == ']'
  }

  predicate AllBlank(s: string) {
    forall i :: 0 <= i < |s| ==> IsBlank(s[i])
  }

  /** Where a scanner stands with respect to string literals: the source's two flags
      (in a string, and just after a backslash) never hold without the first. */
  datatype Quoting = Outside | Inside | Escaped

  function Step(q: Quoting, c: char): Quoting {
    match q
    case Outside => if c == '"' then Inside else Outside
    case Escaped => Inside
    case Inside => if c == '\\' then Escaped else if c == '"' then Outside else Inside
  }

  /** The quoting state after all of s. */
  function Advance(q: Quoting, s: string): Quoting
    decreases |s|
  {
    if s == [] then q else Advance(Step(q, s[0]), s[1..])
  }

  /** Every character of s is read inside a string literal. */
  predicate StaysQuoted(q: Quoting, s: string)
    decreases |s|
  {
    s != [] ==> q != Outside && StaysQuoted(Step(q, s[0]), s[1..])
  }

  /** The text from its first character that is not blank. */
  function SkipBlanks(s: string): (r: string)
    ensures |r| <= |s|
  {
    if s != [] && IsBlank(s[0]) then SkipBlanks(s[1..]) else s
  }

  lemma {:induction false} SkipBlanksSplit(s: string) returns (blanks: string)
    ensures AllBlank(blanks) && s == blanks + SkipBlanks(s)
    ensures SkipBlanks(s) == [] || !IsBlank(SkipBlanks(s)[0])
  {
    if s != [] && IsBlank(s[0]) {
      var more := SkipBlanksSplit(s[1..]);
      blanks := [s[0]] + more;
      SplitFirst(s);
      Regroup([s[0]], more, SkipBlanks(s));
    } else {
      blanks := [];
      NoGap(s);
    }
  }

  lemma {:induction false} SkipBlanksConcat(blanks: string, s: string)
    requires AllBlank(blanks)
    ensures SkipBlanks(blanks + s) == SkipBlanks(s)
  {
    if blanks == [] {
      assert blanks + s == s;
    } else {
      assert (blanks + s)[1..] == blanks[1..] + s;
      SkipBlanksConcat(blanks[1..], s);
    }
  }
}
