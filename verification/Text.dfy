/** Line-oriented text: splitting with kept terminators, joining, and decimal
    numerals. Only '\n' ends a line. */
module Text {

  type Line = string

  predicate Terminated(line: Line) {
    |line| > 0 && line[|line| - 1] == '\n'
  }

  /** A single line: non-empty, with '\n' nowhere but at its end. */
  predicate IsLine(line: Line) {
    |line| > 0 && forall i :: 0 <= i < |line| - 1 ==> line[i] != '\n'
  }

  predicate AllLines(lines: seq<Line>) {
    forall i :: 0 <= i < |lines| ==> IsLine(lines[i])
  }

  /** What splitting a text yields: lines, all terminated except perhaps the last. */
  ghost predicate Canonical(lines: seq<Line>) {
    && AllLines(lines)
    && (forall i :: 0 <= i < |lines| - 1 ==> Terminated(lines[i]))
  }

  function FirstLineLength(text: string): (n: nat)
    requires text != ""
    ensures 0 < n <= |text|
    ensures IsLine(text[..n])
    ensures n < |text| ==> Terminated(text[..n])
  {
    if text[0] == '\n' || |text| == 1 then 1 else
      var m := FirstLineLength(text[1..]);
      assert text[..m + 1] == [text[0]] + text[1..][..m];
      m + 1
  }

  /** `str.splitlines(keepends=True)` on a text whose only line break is '\n'. */
  function SplitLines(text: string): (lines: seq<Line>)
    decreases |text|
  {
    if text == "" then [] else
      var n := FirstLineLength(text);
      [text[..n]] + SplitLines(text[n..])
  }

  /** `"".join(lines)`. */
  function Join(lines: seq<Line>): string {
    if lines == [] then "" else lines[0] + Join(lines[1..])
  }

  /** `str.removesuffix("\n")`. */
  function RemoveNewline(s: string): (r: string)
    ensures s == if Terminated(s) then r + "\n" else r
  {
    if Terminated(s) then
      assert s == s[..|s| - 1] + "\n";
      s[..|s| - 1]
    else s
  }

  lemma ConcatAssoc<T>(a: seq<T>, b: seq<T>, c: seq<T>)
    ensures a + b + c == a + (b + c)
  {
  }

  lemma DropPrefix<T>(a: seq<T>, b: seq<T>)
    ensures |a| <= |a + b| && (a + b)[|a|..] == b
  {
  }

  lemma ConcatHead<T>(acc: seq<T>, xs: seq<T>)
    requires xs != []
    ensures acc + [xs[0]] + xs[1..] == acc + xs
  {
  }

  lemma {:induction false} JoinAppend(a: seq<Line>, b: seq<Line>)
    ensures Join(a + b) == Join(a) + Join(b)
  {
    if a == [] {
      assert a + b == b;
    } else {
      JoinAppend(a[1..], b);
      assert (a + b)[1..] == a[1..] + b;
    }
  }

  lemma FirstLineIs(line: Line, rest: string)
    requires IsLine(line)
    requires Terminated(line) || rest == ""
    ensures FirstLineLength(line + rest) == |line|
  {
    var text := line + rest;
    var n := FirstLineLength(text);
    assert forall i :: 0 <= i < n ==> text[..n][i] == text[i];
    assert forall i :: 0 <= i < |line| ==> text[i] == line[i];
  }

  /** Splitting after a line peels that line off. */
  lemma SplitCons(line: Line, rest: string)
    requires IsLine(line)
    requires Terminated(line) || rest == ""
    ensures SplitLines(line + rest) == [line] + SplitLines(rest)
  {
    FirstLineIs(line, rest);
    assert (line + rest)[..|line|] == line;
    assert (line + rest)[|line|..] == rest;
  }

  /** Text after an unterminated line continues that line. */
  lemma PrefixMerges(head: string, text: string)
    requires IsLine(head) && !Terminated(head) && text != ""
    ensures SplitLines(head + text) == [head + SplitLines(text)[0]] + SplitLines(text)[1..]
  {
    var n := FirstLineLength(text);
    var first, rest := text[..n], text[n..];
    assert text == first + rest;
    var line := head + first;
    assert head + text == line + rest;
    assert IsLine(line);
    assert Terminated(first) ==> Terminated(line);
    if rest != "" { assert n < |text|; }
    SplitCons(line, rest);
    SplitCons(first, rest);
  }

  /** Splitting loses nothing and yields canonical lines. */
  lemma {:induction false} SplitThenJoin(text: string)
    ensures Join(SplitLines(text)) == text
    ensures Canonical(SplitLines(text))
    decreases |text|
  {
    if text != "" {
      var n := FirstLineLength(text);
      SplitThenJoin(text[n..]);
      assert text == text[..n] + text[n..];
      if n == |text| {
        assert SplitLines(text[n..]) == [];
      }
    }
  }

  /** Canonical lines survive joining and splitting. */
  lemma {:induction false} JoinThenSplit(lines: seq<Line>)
    requires Canonical(lines)
    ensures SplitLines(Join(lines)) == lines
  {
    if lines != [] {
      JoinThenSplit(lines[1..]);
      if |lines| == 1 {
        assert Join(lines[1..]) == "";
      }
      SplitCons(lines[0], Join(lines[1..]));
    }
  }

  // ---- decimal numerals ----

  predicate IsDigit(c: char) { '0' <= c <= '9' }

  function DigitChar(d: nat): (c: char)
    requires d < 10
    ensures IsDigit(c) && c as int - '0' as int == d
  {
    ['0', '1', '2', '3', '4', '5', '6', '7', '8', '9'][d]
  }

  function Numeral(n: nat): (s: string)
    ensures |s| > 0 && forall i :: 0 <= i < |s| ==> IsDigit(s[i])
  {
    if n < 10 then [DigitChar(n)] else Numeral(n / 10) + [DigitChar(n % 10)]
  }

  function DigitValue(c: char): nat
    requires IsDigit(c)
  {
    c as int - '0' as int
  }

  function NumeralValue(s: string): nat
    requires forall i :: 0 <= i < |s| ==> IsDigit(s[i])
  {
    if s == "" then 0 else NumeralValue(s[..|s| - 1]) * 10 + DigitValue(s[|s| - 1])
  }

  lemma {:induction false} NumeralValueOfNumeral(n: nat)
    ensures NumeralValue(Numeral(n)) == n
  {
    if n >= 10 {
      NumeralValueOfNumeral(n / 10);
      var s := Numeral(n);
      assert s[..|s| - 1] == Numeral(n / 10);
    } else {
      assert Numeral(n)[..0] == "";
    }
  }

  /** Length of the longest prefix made of digits. */
  function DigitSpan(s: string): (n: nat)
    ensures n <= |s|
    ensures forall i :: 0 <= i < n ==> IsDigit(s[i])
    ensures n < |s| ==> !IsDigit(s[n])
  {
    if s == "" || !IsDigit(s[0]) then 0 else 1 + DigitSpan(s[1..])
  }

  lemma DigitSpanOf(digits: string, rest: string)
    requires forall i :: 0 <= i < |digits| ==> IsDigit(digits[i])
    requires rest == "" || !IsDigit(rest[0])
    ensures DigitSpan(digits + rest) == |digits|
  {
    var s := digits + rest;
    assert forall i :: 0 <= i < |digits| ==> s[i] == digits[i];
    assert rest != "" ==> s[|digits|] == rest[0];
  }
}
