/**
The text operations the program takes from Python: character classes, splitting a string into
lines, decimal numbers and joining.
 */
module Text {
  import opened Options
  import opened Seqs

  const UNIT_SEPARATOR := "\U{1F}"

  // `str.isspace`, which `\s`, `\S` and `str.strip` all use.
  predicate IsSpace(c: char) {
    || '\t' <= c <= '\r'
    || '\U{1C}' <= c <= ' '
    || c == '\U{85}' || c == '\U{A0}' || c == '\U{1680}'
    || '\U{2000}' <= c <= '\U{200A}'
    || c == '\U{2028}' || c == '\U{2029}' || c == '\U{202F}' || c == '\U{205F}' || c == '\U{3000}'
  }

  // The line boundaries of `str.splitlines`; "\r\n" counts as one boundary.
  predicate IsLineBreak(c: char) {
    || '\n' <= c <= '\r'
    || '\U{1C}' <= c <= '\U{1E}'
    || c == '\U{85}' || c == '\U{2028}' || c == '\U{2029}'
  }

  // The zeros of the other runs of ten decimal digits (general category Nd, Unicode 16).
  const OTHER_ZEROS: seq<nat> := [
    0x660, 0x6F0, 0x7C0, 0x966, 0x9E6, 0xA66, 0xAE6, 0xB66, 0xBE6, 0xC66,
    0xCE6, 0xD66, 0xDE6, 0xE50, 0xED0, 0xF20, 0x1040, 0x1090, 0x17E0, 0x1810,
    0x1946, 0x19D0, 0x1A80, 0x1A90, 0x1B50, 0x1BB0, 0x1C40, 0x1C50, 0xA620, 0xA8D0,
    0xA900, 0xA9D0, 0xA9F0, 0xAA50, 0xABF0, 0xFF10, 0x104A0, 0x10D30, 0x10D40, 0x11066,
    0x110F0, 0x11136, 0x111D0, 0x112F0, 0x11450, 0x114D0, 0x11650, 0x116C0, 0x116D0, 0x116DA,
    0x11730, 0x118E0, 0x11950, 0x11BF0, 0x11C50, 0x11D50, 0x11DA0, 0x11F50, 0x16130, 0x16A60,
    0x16AC0, 0x16B50, 0x16D70, 0x1CCF0, 0x1D7CE, 0x1D7D8, 0x1D7E2, 0x1D7EC, 0x1D7F6, 0x1E140,
    0x1E2F0, 0x1E4F0, 0x1E5F1, 0x1E950, 0x1FBF0
  ]

  // The value of a decimal digit, as `\d` accepts and `int` reads it.
  function DigitValue(c: char): (d: Option<nat>)
    ensures d.Some? ==> d.value < 10
    ensures c < '\U{660}' ==> (d.Some? <==> '0' <= c <= '9')
  {
    if '0' <= c <= '9' then Some(c as int - '0' as int) else OtherDigit(c as int, OTHER_ZEROS)
  }

  function OtherDigit(code: nat, zeros: seq<nat>): (d: Option<nat>)
    ensures d.Some? ==> d.value < 10 && 0x660 <= code
  {
    if zeros == [] then None
    else if 0x660 <= zeros[0] <= code <= zeros[0] + 9 then Some(code - zeros[0])
    else OtherDigit(code, zeros[1..])
  }

  predicate IsDigit(c: char) {
    DigitValue(c).Some?
  }

  // ----- the classes, listed -----

  lemma SpacesAre(c: char)
    ensures IsSpace(c) <==>
      || c in "\t\n\U{B}\U{C}\r\U{1C}\U{1D}\U{1E}\U{1F} \U{85}\U{A0}\U{1680}"
      || c in "\U{2000}\U{2001}\U{2002}\U{2003}\U{2004}\U{2005}\U{2006}\U{2007}\U{2008}\U{2009}\U{200A}"
      || c in "\U{2028}\U{2029}\U{202F}\U{205F}\U{3000}"
  {
  }

  lemma LineBreaksAre(c: char)
    ensures IsLineBreak(c) <==> c in "\n\U{B}\U{C}\r\U{1C}\U{1D}\U{1E}\U{85}\U{2028}\U{2029}"
  {
  }

  // A digit's value is its distance to the first zero whose run of ten it is in, at `k`; with no
  // such zero, so at the end of the list, it is no digit.
  lemma {:induction false} OtherDigitIs(code: nat, zeros: seq<nat>, k: nat)
    requires forall j :: 0 <= j < |zeros| ==> 0x660 <= zeros[j]
    requires k <= |zeros|
    requires forall j :: 0 <= j < k ==> code - zeros[j] !in {0, 1, 2, 3, 4, 5, 6, 7, 8, 9}
    requires k < |zeros| ==> code - zeros[k] in {0, 1, 2, 3, 4, 5, 6, 7, 8, 9}
    ensures OtherDigit(code, zeros) == if k < |zeros| then Some(code - zeros[k]) else None
  {
    if k > 0 {
      assert code - zeros[0] !in {0, 1, 2, 3, 4, 5, 6, 7, 8, 9};
      OtherDigitIs(code, zeros[1..], k - 1);
    }
  }

  // ----- trimming and joining -----

  function TrimRight(s: string): (r: string)
    ensures r <= s
    ensures r == "" || !IsSpace(r[|r| - 1])
    ensures forall i :: |r| <= i < |s| ==> IsSpace(s[i])
  {
    if s == "" || !IsSpace(s[|s| - 1]) then s else TrimRight(s[..|s| - 1])
  }

  function TrimLeft(s: string): string {
    Dropped(IsSpace, s)
  }

  // `str.strip`.
  function Strip(s: string): string {
    TrimRight(TrimLeft(s))
  }

  // The text after the literal `lit`.
  function Expect(lit: string, s: string): Option<string> {
    if lit <= s then Some(s[|lit|..]) else None
  }

  // `sep.join(parts)`.
  function Join(sep: string, parts: seq<string>): string {
    if parts == [] then ""
    else if |parts| == 1 then parts[0]
    else parts[0] + sep + Join(sep, parts[1..])
  }

  lemma {:induction false} JoinConcat(sep: string, a: seq<string>, b: seq<string>)
    requires a != [] && b != []
    ensures Join(sep, a + b) == Join(sep, a) + sep + Join(sep, b)
  {
    if |a| == 1 {
      assert (a + b)[1..] == b;
    } else {
      assert (a + b)[1..] == a[1..] + b;
      JoinConcat(sep, a[1..], b);
      ConcatAssociates(a[0] + sep, Join(sep, a[1..]), sep);
      ConcatAssociates(a[0] + sep, Join(sep, a[1..]) + sep, Join(sep, b));
    }
  }

  // A character in none of the parts, and not in the separator, is not in the joined text.
  lemma {:induction false} JoinAvoids(sep: string, parts: seq<string>, c: char)
    requires c !in sep && forall p :: p in parts ==> c !in p
    ensures c !in Join(sep, parts)
  {
    if |parts| > 1 {
      JoinAvoids(sep, parts[1..], c);
    }
  }

  // ----- lines -----

  predicate IsNotLineBreak(c: char) {
    !IsLineBreak(c)
  }

  // How many characters the line boundary at `n` takes.
  function BreakAt(s: string, n: nat): (k: nat)
    requires n < |s|
    ensures 1 <= k <= |s| - n
  {
    if n + 1 < |s| && s[n] == '\r' && s[n + 1] == '\n' then 2 else 1
  }

  // The text after the first line boundary.
  function NextLine(s: string): (rest: string)
    requires Run(IsNotLineBreak, s) < |s|
    ensures |rest| < |s|
  {
    var n := Run(IsNotLineBreak, s);
    s[n + BreakAt(s, n)..]
  }

  // `str.splitlines`.
  function SplitLines(s: string): seq<string> {
    if s == "" then []
    else
      var n := Run(IsNotLineBreak, s);
      if n == |s| then [s] else [s[..n]] + SplitLines(NextLine(s))
  }

  predicate NoBreak(s: string) {
    forall c :: c in s ==> !IsLineBreak(c)
  }

  lemma {:induction false} SplitLinesNoBreak(s: string)
    ensures forall l :: l in SplitLines(s) ==> NoBreak(l)
  {
    if s != "" {
      var n := Run(IsNotLineBreak, s);
      RunEnds(IsNotLineBreak, s);
      if n < |s| {
        SplitLinesNoBreak(NextLine(s));
      }
    }
  }

  // `a` ends a line, and `b` does not continue its line boundary.
  ghost predicate EndsLine(a: string, b: string) {
    a == "" || (IsLineBreak(a[|a| - 1]) && !(a[|a| - 1] == '\r' && b != "" && b[0] == '\n'))
  }

  // What follows `a` neither moves its first line boundary nor changes the text after it.
  lemma FirstLine(a: string, b: string)
    requires a != "" && EndsLine(a, b)
    ensures Run(IsNotLineBreak, a) < |a| && Run(IsNotLineBreak, a + b) == Run(IsNotLineBreak, a)
    ensures NextLine(a + b) == NextLine(a) + b
    ensures EndsLine(NextLine(a), b)
  {
    var last, n := a[|a| - 1], Run(IsNotLineBreak, a);
    assert IsLineBreak(last);
    RunEnds(IsNotLineBreak, a);
    hide IsLineBreak;
    RunStops(IsNotLineBreak, a, b);
    assert (a + b)[n] == a[n];
    if n + 1 < |a| {
      assert (a + b)[n + 1] == a[n + 1];
    }
    hide Run;
    var k := n + BreakAt(a, n);
    assert BreakAt(a + b, n) == BreakAt(a, n);
    DropFirst(a, b, k);
    assert k < |a| ==> a[k..][|a[k..]| - 1] == last;
  }

  lemma SplitFirst(s: string)
    requires Run(IsNotLineBreak, s) < |s|
    ensures SplitLines(s) == [s[..Run(IsNotLineBreak, s)]] + SplitLines(NextLine(s))
  {
  }

  lemma DropFirst(a: string, b: string, k: nat)
    requires k <= |a|
    ensures (a + b)[k..] == a[k..] + b
  {
  }

  lemma {:induction false} SplitLinesConcat(a: string, b: string)
    requires EndsLine(a, b)
    ensures SplitLines(a + b) == SplitLines(a) + SplitLines(b)
    decreases |a|
  {
    if a == "" {
      assert a + b == b;
    } else {
      FirstLine(a, b);
      SplitFirst(a);
      SplitFirst(a + b);
      var n := Run(IsNotLineBreak, a);
      hide SplitLines, Run, NextLine, IsLineBreak;
      assert (a + b)[..n] == a[..n];
      SplitLinesConcat(NextLine(a), b);
      ConcatAssociates([a[..n]], SplitLines(NextLine(a)), SplitLines(b));
    }
  }

  lemma SplitOneLine(line: string)
    requires NoBreak(line)
    ensures SplitLines(line + "\n") == [line]
    ensures line != "" ==> SplitLines(line) == [line]
  {
    RunIs(IsNotLineBreak, line, "\n");
    assert (line + "\n")[..|line|] == line;
    assert NextLine(line + "\n") == "";
    RunIs(IsNotLineBreak, line, "");
    assert line + "" == line;
  }

  // Every line followed by "\n".
  function Unlines(lines: seq<string>): string {
    if lines == [] then "" else lines[0] + "\n" + Unlines(lines[1..])
  }

  lemma {:induction false} SplitUnlines(lines: seq<string>)
    requires forall l :: l in lines ==> NoBreak(l)
    ensures SplitLines(Unlines(lines)) == lines
  {
    if lines != [] {
      SplitOneLine(lines[0]);
      SplitLinesConcat(lines[0] + "\n", Unlines(lines[1..]));
      SplitUnlines(lines[1..]);
    }
  }

  // Lines joined without a final "\n" split the same way, unless the last line is empty.
  lemma {:induction false} SplitJoined(lines: seq<string>)
    requires forall l :: l in lines ==> NoBreak(l)
    requires lines != [] ==> lines[|lines| - 1] != ""
    ensures SplitLines(Join("\n", lines)) == lines
  {
    if |lines| == 1 {
      SplitOneLine(lines[0]);
    } else if |lines| > 1 {
      SplitOneLine(lines[0]);
      SplitLinesConcat(lines[0] + "\n", Join("\n", lines[1..]));
      SplitJoined(lines[1..]);
    }
  }

  // ----- decimal numbers -----

  // `int` on a string of decimal digits.
  function Value(s: string): nat
    requires forall c :: c in s ==> IsDigit(c)
  {
    if s == "" then 0 else (assert IsDigit(s[|s| - 1]); 10 * Value(s[..|s| - 1]) + DigitValue(s[|s| - 1]).value)
  }

  // `str` on a natural number.
  function Decimal(n: nat): (s: string)
    ensures s != "" && forall c :: c in s ==> '0' <= c <= '9'
  {
    var last := ('0' as int + n % 10) as char;
    if n < 10 then [last] else Decimal(n / 10) + [last]
  }

  lemma {:induction false} ValueOfDecimal(n: nat)
    ensures Value(Decimal(n)) == n
  {
    var s := Decimal(n);
    if n >= 10 {
      assert s[..|s| - 1] == Decimal(n / 10);
      ValueOfDecimal(n / 10);
    } else {
      assert s[..|s| - 1] == "";
    }
  }
}
