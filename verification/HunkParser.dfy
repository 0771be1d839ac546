/**
The unified-diff hunk parser: the line-by-line loop, the hunks it denotes, and a printer.
 */
module HunkParser {
  import opened Options
  import opened Seqs
  import opened Text
  import opened Diff

  // ----- the hunk header -----

  datatype Header = Header(
    oldStart: nat, oldCount: Option<nat>, newStart: nat, newCount: Option<nat>, heading: string)

  // `(\d+)`: the number, and the text after it.
  function Number(s: string): Option<(nat, string)> {
    var n := Run(IsDigit, s);
    RunEnds(IsDigit, s);
    if n == 0 then None else Some((Value(s[..n]), s[n..]))
  }

  // `(?:,(\d+))?`.
  function OptionalCount(s: string): (Option<nat>, string) {
    if s != "" && s[0] == ',' then
      match Number(s[1..])
      case Some((n, rest)) => (Some(n), rest)
      case None => (None, s)
    else (None, s)
  }

  // `(?: ?(.*))?$`.
  function Heading(tail: string): string {
    if tail != "" && tail[0] == ' ' then tail[1..] else tail
  }

  // The literal `lit`, a line number, and a count that may be missing.
  function ParseSpan(lit: string, s: string): Option<(nat, Option<nat>, string)> {
    var a :- Expect(lit, s);
    var (start, b) :- Number(a);
    var (count, rest) := OptionalCount(b);
    Some((start, count, rest))
  }

  function ParseHeader(raw: string): Option<Header> {
    var (oldStart, oldCount, a) :- ParseSpan("@@ -", raw);
    var (newStart, newCount, b) :- ParseSpan(" +", a);
    var tail :- Expect(" @@", b);
    Some(Header(oldStart, oldCount, newStart, newCount, Heading(tail)))
  }

  predicate IsHeader(raw: string) {
    ParseHeader(raw).Some?
  }

  // ----- the header's grammar -----

  // A start and a count as written, and a whole header line.
  datatype Span = Span(start: string, count: Option<string>)
  datatype Written = Written(oldSpan: Span, newSpan: Span, tail: string)

  ghost predicate AreDigits(s: string) {
    s != "" && forall c :: c in s ==> IsDigit(c)
  }

  ghost predicate ValidSpan(s: Span) {
    AreDigits(s.start) && (s.count.Some? ==> AreDigits(s.count.value))
  }

  ghost predicate Valid(w: Written) {
    ValidSpan(w.oldSpan) && ValidSpan(w.newSpan)
  }

  ghost function CountText(count: Option<string>): string {
    if count.None? then "" else "," + count.value
  }

  ghost function SpanText(s: Span): string {
    s.start + CountText(s.count)
  }

  ghost function HeaderText(w: Written): string {
    "@@ -" + SpanText(w.oldSpan) + (" +" + SpanText(w.newSpan) + (" @@" + w.tail))
  }

  ghost function CountValue(count: Option<string>): Option<nat>
    requires count.Some? ==> AreDigits(count.value)
  {
    if count.None? then None else Some(Value(count.value))
  }

  ghost function Meaning(w: Written): Header
    requires Valid(w)
  {
    Header(Value(w.oldSpan.start), CountValue(w.oldSpan.count),
           Value(w.newSpan.start), CountValue(w.newSpan.count), Heading(w.tail))
  }

  lemma NumberIs(digits: string, rest: string)
    requires AreDigits(digits) && (rest == "" || !IsDigit(rest[0]))
    ensures Number(digits + rest) == Some((Value(digits), rest))
  {
    RunIs(IsDigit, digits, rest);
    assert (digits + rest)[..|digits|] == digits;
  }

  lemma OptionalCountIs(count: Option<string>, rest: string)
    requires count.Some? ==> AreDigits(count.value)
    requires rest != "" && rest[0] == ' '
    ensures OptionalCount(CountText(count) + rest) == (CountValue(count), rest)
  {
    assert !IsDigit(rest[0]);
    hide IsDigit, Value, Number, AreDigits;
    if count.Some? {
      NumberIs(count.value, rest);
      var text := CountText(count) + rest;
      assert text == "," + (count.value + rest);
      assert text[0] == ',' && text[1..] == count.value + rest;
    } else {
      assert CountText(count) + rest == rest;
    }
  }

  lemma SpanIs(lit: string, s: Span, rest: string)
    requires ValidSpan(s) && rest != "" && rest[0] == ' '
    ensures ParseSpan(lit, lit + SpanText(s) + rest) == Some((Value(s.start), CountValue(s.count), rest))
  {
    var b := CountText(s.count) + rest;
    assert lit + SpanText(s) + rest == lit + (s.start + b);
    NumberIs(s.start, b);
    OptionalCountIs(s.count, rest);
  }

  // Every header line the grammar allows is recognised with its meaning.
  lemma HeaderComplete(w: Written)
    requires Valid(w)
    ensures ParseHeader(HeaderText(w)) == Some(Meaning(w))
  {
    var c := " @@" + w.tail;
    var b := " +" + SpanText(w.newSpan) + c;
    hide ParseSpan, SpanText;
    SpanIs("@@ -", w.oldSpan, b);
    SpanIs(" +", w.newSpan, c);
    assert c[3..] == w.tail;
  }

  lemma NumberWritten(s: string) returns (digits: string)
    requires Number(s).Some?
    ensures AreDigits(digits) && s == digits + Number(s).value.1 && Value(digits) == Number(s).value.0
  {
    RunEnds(IsDigit, s);
    hide IsDigit;
    var n := Run(IsDigit, s);
    digits := s[..n];
    assert s == digits + s[n..];
  }

  lemma OptionalCountWritten(s: string) returns (count: Option<string>)
    ensures count.Some? ==> AreDigits(count.value)
    ensures s == CountText(count) + OptionalCount(s).1 && CountValue(count) == OptionalCount(s).0
  {
    count := None;
    if s != "" && s[0] == ',' && Number(s[1..]).Some? {
      var digits := NumberWritten(s[1..]);
      count := Some(digits);
      assert s == "," + s[1..];
    }
  }

  lemma SpanWritten(lit: string, s: string) returns (span: Span)
    requires ParseSpan(lit, s).Some?
    ensures var (start, count, rest) := ParseSpan(lit, s).value;
            && ValidSpan(span) && s == lit + SpanText(span) + rest
            && Value(span.start) == start && CountValue(span.count) == count
  {
    var a := Expect(lit, s).value;
    assert s == lit + a;
    hide Number, OptionalCount;
    var start := NumberWritten(a);
    var b := Number(a).value.1;
    var count := OptionalCountWritten(b);
    span := Span(start, count);
    var rest := OptionalCount(b).1;
    ConcatAssociates(start, CountText(count), rest);
    ConcatAssociates(lit, start + CountText(count), rest);
  }

  // Every recognised header line is one the grammar allows.
  lemma HeaderSound(raw: string) returns (w: Written)
    requires IsHeader(raw)
    ensures Valid(w) && raw == HeaderText(w) && ParseHeader(raw) == Some(Meaning(w))
  {
    hide ParseSpan, SpanText, ValidSpan;
    var a := ParseSpan("@@ -", raw).value.2;
    var b := ParseSpan(" +", a).value.2;
    var tail := Expect(" @@", b).value;
    assert b == " @@" + tail;
    var oldSpan := SpanWritten("@@ -", raw);
    var newSpan := SpanWritten(" +", a);
    w := Written(oldSpan, newSpan, tail);
  }

  // The recogniser accepts exactly the grammar, with the numbers and the heading as written; a space
  // before the heading is not part of it.
  lemma HeaderGrammar(raw: string, h: Header)
    ensures ParseHeader(raw) == Some(h) <==>
            exists w: Written ::
              && Valid(w) && HeaderText(w) == raw
              && h.oldStart == Value(w.oldSpan.start) && h.oldCount == CountValue(w.oldSpan.count)
              && h.newStart == Value(w.newSpan.start) && h.newCount == CountValue(w.newSpan.count)
              && (w.tail == " " + h.heading || (w.tail == h.heading && !(" " <= h.heading)))
  {
    if ParseHeader(raw) == Some(h) {
      var w := HeaderSound(raw);
      HeadingIs(w.tail, h.heading);
    }
    if w: Written :|
      && Valid(w) && HeaderText(w) == raw
      && h.oldStart == Value(w.oldSpan.start) && h.oldCount == CountValue(w.oldSpan.count)
      && h.newStart == Value(w.newSpan.start) && h.newCount == CountValue(w.newSpan.count)
      && (w.tail == " " + h.heading || (w.tail == h.heading && !(" " <= h.heading)))
    {
      HeadingIs(w.tail, h.heading);
      HeaderComplete(w);
    }
  }

  lemma HeadingIs(tail: string, heading: string)
    ensures Heading(tail) == heading <==> tail == " " + heading || (tail == heading && !(" " <= heading))
  {
    assert tail != "" ==> tail == [tail[0]] + tail[1..];
  }

  // ----- the hunks a patch denotes -----

  predicate IsNote(raw: string) {
    raw != "" && raw[0] == '\\'
  }

  // What one body line contributes when the next line numbers are `oldNo` and `newNo`.
  function NumberLine(raw: string, oldNo: nat, newNo: nat): seq<DiffLine> {
    if IsNote(raw) then []
    else if raw != "" && raw[0] == '+' then [DiffLine(Added, raw[1..], None, Some(newNo))]
    else if raw != "" && raw[0] == '-' then [DiffLine(Removed, raw[1..], Some(oldNo), None)]
    else [DiffLine(Context, if raw == "" then "" else raw[1..], Some(oldNo), Some(newNo))]
  }

  // The body lines, numbered from `oldNo` and `newNo`.
  function NumberLines(body: seq<string>, oldNo: nat, newNo: nat): seq<DiffLine> {
    if body == [] then []
    else
      var first := NumberLine(body[0], oldNo, newNo);
      first + NumberLines(body[1..], oldNo + OldLength(first), newNo + NewLength(first))
  }

  function BuildHunk(h: Header, lines: seq<DiffLine>): DiffHunk {
    DiffHunk(h.oldStart, h.oldCount.GetOr(1), h.newStart, h.newCount.GetOr(1), h.heading, lines)
  }

  predicate IsNotHeader(raw: string) {
    !IsHeader(raw)
  }

  // Each header owns the lines up to the next one; lines before the first header are ignored.
  function HunksOfLines(lines: seq<string>): seq<DiffHunk> {
    if lines == [] then []
    else match ParseHeader(lines[0])
      case None => HunksOfLines(lines[1..])
      case Some(h) =>
        var n := Run(IsNotHeader, lines[1..]);
        [BuildHunk(h, NumberLines(lines[1..][..n], h.oldStart, h.newStart))] + HunksOfLines(lines[1..][n..])
  }

  function Hunks(patch: string): seq<DiffHunk> {
    HunksOfLines(SplitLines(patch))
  }

  // ----- the parser's loop -----

  // What is still to come when `header` is open with `lines` read and `rest` left.
  ghost function Remaining(header: Option<Header>, lines: seq<DiffLine>, oldNo: nat, newNo: nat, rest: seq<string>)
    : seq<DiffHunk>
  {
    match header
    case None => HunksOfLines(rest)
    case Some(h) =>
      var n := Run(IsNotHeader, rest);
      [BuildHunk(h, lines + NumberLines(rest[..n], oldNo, newNo))] + HunksOfLines(rest[n..])
  }

  lemma RemainingAtEnds(raws: seq<string>, header: Option<Header>, lines: seq<DiffLine>, oldNo: nat, newNo: nat)
    ensures Remaining(None, [], 0, 0, raws) == HunksOfLines(raws)
    ensures Remaining(header, lines, oldNo, newNo, [])
         == if header.None? then [] else [BuildHunk(header.value, lines)]
  {
    if header.Some? {
      assert lines + NumberLines([], oldNo, newNo) == lines;
    }
  }

  lemma RemainingHeader(header: Option<Header>, lines: seq<DiffLine>, oldNo: nat, newNo: nat, rest: seq<string>)
    requires rest != [] && IsHeader(rest[0])
    ensures var h := ParseHeader(rest[0]).value;
            Remaining(header, lines, oldNo, newNo, rest) ==
            (if header.None? then [] else [BuildHunk(header.value, lines)])
            + Remaining(Some(h), [], h.oldStart, h.newStart, rest[1..])
  {
    hide ParseHeader;
    assert rest[..0] == [] && rest[0..] == rest;
    if header.Some? {
      assert lines + NumberLines([], oldNo, newNo) == lines;
    }
    var h, n := ParseHeader(rest[0]).value, Run(IsNotHeader, rest[1..]);
    var body := NumberLines(rest[1..][..n], h.oldStart, h.newStart);
    assert [] + body == body;
  }

  lemma RemainingPreamble(rest: seq<string>, lines: seq<DiffLine>, oldNo: nat, newNo: nat)
    requires rest != [] && !IsHeader(rest[0])
    ensures Remaining(None, lines, oldNo, newNo, rest) == Remaining(None, lines, oldNo, newNo, rest[1..])
  {
  }

  lemma RemainingBody(header: Header, lines: seq<DiffLine>, oldNo: nat, newNo: nat, rest: seq<string>,
                      more: seq<DiffLine>, oldNo': nat, newNo': nat)
    requires rest != [] && !IsHeader(rest[0])
    requires NumberLine(rest[0], oldNo, newNo) == more
    requires oldNo' == oldNo + OldLength(more) && newNo' == newNo + NewLength(more)
    ensures Remaining(Some(header), lines, oldNo, newNo, rest)
         == Remaining(Some(header), lines + more, oldNo', newNo', rest[1..])
  {
    hide ParseHeader, HunksOfLines;
    var n := Run(IsNotHeader, rest[1..]);
    assert Run(IsNotHeader, rest) == n + 1;
    var body := rest[1..][..n];
    assert rest[..n + 1] == [rest[0]] + body;
    assert rest[n + 1..] == rest[1..][n..];
    assert ([rest[0]] + body)[1..] == body;
    ConcatAssociates(lines, more, NumberLines(body, oldNo', newNo'));
  }

  method ParseHunks(patch: string) returns (hunks: seq<DiffHunk>)
    ensures hunks == Hunks(patch)
  {
    hide ParseHeader, HunksOfLines, Remaining;
    hunks := [];
    var header: Option<Header> := None;
    var lines: seq<DiffLine> := [];
    var oldLine: nat, newLine: nat := 0, 0;
    var raws := SplitLines(patch);
    assert raws[0..] == raws;
    RemainingAtEnds(raws, None, [], 0, 0);
    for i := 0 to |raws|
      invariant Hunks(patch) == hunks + Remaining(header, lines, oldLine, newLine, raws[i..])
    {
      var raw := raws[i];
      ghost var rest := raws[i..];
      assert rest[1..] == raws[i + 1..];
      var parsed := ParseHeader(raw);
      if parsed.Some? {
        RemainingHeader(header, lines, oldLine, newLine, rest);
        if header.Some? {
          hunks := hunks + [BuildHunk(header.value, lines)];
        }
        header := parsed;
        oldLine := parsed.value.oldStart;
        newLine := parsed.value.newStart;
        lines := [];
        continue;
      }
      if header.None? {
        RemainingPreamble(rest, lines, oldLine, newLine);
        continue;
      }
      ghost var more := NumberLine(raw, oldLine, newLine);
      RemainingBody(header.value, lines, oldLine, newLine, rest, more,
                    oldLine + OldLength(more), newLine + NewLength(more));
      if IsNote(raw) {
        assert more == [] && lines + more == lines;
      } else if raw != "" && raw[0] == '+' {
        lines := lines + [DiffLine(Added, raw[1..], None, Some(newLine))];
        newLine := newLine + 1;
      } else if raw != "" && raw[0] == '-' {
        lines := lines + [DiffLine(Removed, raw[1..], Some(oldLine), None)];
        oldLine := oldLine + 1;
      } else {
        lines := lines + [DiffLine(Context, if raw == "" then "" else raw[1..], Some(oldLine), Some(newLine))];
        oldLine := oldLine + 1;
        newLine := newLine + 1;
      }
    }
    assert raws[|raws|..] == [];
    RemainingAtEnds(raws, header, lines, oldLine, newLine);
    if header.Some? {
      hunks := hunks + [BuildHunk(header.value, lines)];
    }
  }
}
