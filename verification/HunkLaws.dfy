/**
What the parser promises for every patch text: line numbers, independence of the parts of a patch,
and the round trip with a printer.
 */
module HunkLaws {
  import opened Options
  import opened Seqs
  import opened Text
  import opened Diff
  import opened HunkParser

  // ----- line numbers -----

  lemma {:induction false} NumberLinesNumbered(body: seq<string>, oldNo: nat, newNo: nat)
    ensures NumberedFrom(NumberLines(body, oldNo, newNo), oldNo, newNo)
  {
    if body != [] {
      var first := NumberLine(body[0], oldNo, newNo);
      var oldNo', newNo' := oldNo + OldLength(first), newNo + NewLength(first);
      var rest := NumberLines(body[1..], oldNo', newNo');
      NumberLinesNumbered(body[1..], oldNo', newNo');
      if first == [] {
        assert first + rest == rest;
      } else {
        assert first == [first[0]];
        assert NumberedAt(first, 0, oldNo, newNo) by { assert first[..0] == []; }
        hide NumberLine, NumberLines;
        NumberedCons(first[0], rest, oldNo, newNo);
      }
    }
  }

  // What a hunk needs for a printed form to exist: consistent numbers and no line breaks.
  ghost predicate Printable(h: DiffHunk) {
    WellNumbered(h) && NoBreak(h.heading) && forall l :: l in h.lines ==> NoBreak(l.content)
  }

  lemma {:induction false} NumberLinesNoBreak(body: seq<string>, oldNo: nat, newNo: nat)
    requires forall raw :: raw in body ==> NoBreak(raw)
    ensures forall l :: l in NumberLines(body, oldNo, newNo) ==> NoBreak(l.content)
  {
    if body != [] {
      var first := NumberLine(body[0], oldNo, newNo);
      NumberLinesNoBreak(body[1..], oldNo + OldLength(first), newNo + NewLength(first));
      assert body[0] in body;
      forall l | l in first ensures NoBreak(l.content) {
        assert forall c :: c in l.content ==> c in body[0];
      }
    }
  }

  lemma HeadingNoBreak(raw: string)
    requires IsHeader(raw) && NoBreak(raw)
    ensures NoBreak(ParseHeader(raw).value.heading)
  {
    var w := HeaderSound(raw);
    hide ParseHeader, IsLineBreak;
    assert forall c :: c in w.tail ==> c in raw;
  }

  // Every hunk of every patch text is numbered consistently, whatever counts its header claims.
  lemma {:induction false} ParsedHunksPrintable(lines: seq<string>)
    requires forall raw :: raw in lines ==> NoBreak(raw)
    ensures forall h :: h in HunksOfLines(lines) ==> Printable(h)
    decreases |lines|
  {
    hide IsLineBreak;
    if lines != [] {
      if IsHeader(lines[0]) {
        HeadingNoBreak(lines[0]);
        hide ParseHeader;
        var h := ParseHeader(lines[0]).value;
        var rest := lines[1..];
        var n := Run(IsNotHeader, rest);
        NumberLinesNumbered(rest[..n], h.oldStart, h.newStart);
        NumberLinesNoBreak(rest[..n], h.oldStart, h.newStart);
        ParsedHunksPrintable(rest[n..]);
      } else {
        hide ParseHeader;
        ParsedHunksPrintable(lines[1..]);
      }
    }
  }

  lemma LineNumbers(patch: string)
    ensures forall h :: h in Hunks(patch) ==> WellNumbered(h)
    ensures forall h :: h in Hunks(patch) ==> Printable(h)
  {
    SplitLinesNoBreak(patch);
    ParsedHunksPrintable(SplitLines(patch));
  }

  // ----- composition -----

  lemma {:induction false} HunksOfLinesConcat(a: seq<string>, b: seq<string>)
    requires b == [] || IsHeader(b[0])
    ensures HunksOfLines(a + b) == HunksOfLines(a) + HunksOfLines(b)
    decreases |a|
  {
    hide ParseHeader;
    if a == [] {
      assert a + b == b;
    } else {
      var rest := a[1..];
      assert (a + b)[1..] == rest + b;
      if IsHeader(a[0]) {
        var n := Run(IsNotHeader, rest);
        RunStops(IsNotHeader, rest, b);
        assert (rest + b)[..n] == rest[..n];
        assert (rest + b)[n..] == rest[n..] + b;
        HunksOfLinesConcat(rest[n..], b);
        var h := ParseHeader(a[0]).value;
        ConcatAssociates([BuildHunk(h, NumberLines(rest[..n], h.oldStart, h.newStart))],
                         HunksOfLines(rest[n..]), HunksOfLines(b));
      } else {
        HunksOfLinesConcat(rest, b);
      }
    }
  }

  // `b` is empty or its first line is a hunk header.
  ghost predicate StartsWithHeader(b: string) {
    SplitLines(b) == [] || IsHeader(SplitLines(b)[0])
  }

  // A patch whose first part ends a line parses part by part.
  lemma ParseParts(a: string, b: string)
    requires EndsLine(a, b) && StartsWithHeader(b)
    ensures Hunks(a + b) == Hunks(a) + Hunks(b)
  {
    SplitLinesConcat(a, b);
    HunksOfLinesConcat(SplitLines(a), SplitLines(b));
  }

  // A first part without a final line break can be followed by "\n" and a second part.
  lemma ParseJoinedParts(a: string, b: string)
    requires a == "" || !IsLineBreak(a[|a| - 1]) || a[|a| - 1] == '\r'
    requires StartsWithHeader(b)
    ensures Hunks(a + "\n" + b) == Hunks(a) + Hunks(b)
  {
    ParseParts(a + "\n", b);
    FinalBreak(a);
    if a == "" {
      hide ParseHeader;
      assert SplitLines("\n") == [""] by { SplitOneLine(""); }
      assert !IsHeader("") by { EmptyIsNotHeader(); }
      assert HunksOfLines([""]) == HunksOfLines([]);
    }
  }

  function LineTotal(hunks: seq<DiffHunk>): nat {
    if hunks == [] then 0 else |hunks[0].lines| + LineTotal(hunks[1..])
  }

  lemma {:induction false} BlankBodyLine(body: seq<string>, oldNo: nat, newNo: nat)
    ensures |NumberLines(body + [""], oldNo, newNo)| == |NumberLines(body, oldNo, newNo)| + 1
  {
    if body == [] {
      assert body + [""] == [""];
    } else {
      var first := NumberLine(body[0], oldNo, newNo);
      assert (body + [""])[1..] == body[1..] + [""];
      BlankBodyLine(body[1..], oldNo + OldLength(first), newNo + NewLength(first));
    }
  }

  // An empty line at the end is one more line of the last hunk.
  lemma {:induction false} BlankLine(lines: seq<string>)
    ensures var a, b := HunksOfLines(lines), HunksOfLines(lines + [""]);
            |a| == |b| && LineTotal(b) == LineTotal(a) + (if a == [] then 0 else 1)
    decreases |lines|
  {
    EmptyIsNotHeader();
    hide ParseHeader;
    if lines == [] {
      assert lines + [""] == [""];
    } else {
      var rest := lines[1..];
      assert (lines + [""])[1..] == rest + [""];
      if IsHeader(lines[0]) {
        var h, n := ParseHeader(lines[0]).value, Run(IsNotHeader, rest);
        if n < |rest| {
          RunStops(IsNotHeader, rest, [""]);
          assert (rest + [""])[..n] == rest[..n] && (rest + [""])[n..] == rest[n..] + [""];
          RunEnds(IsNotHeader, rest);
          BlankLine(rest[n..]);
        } else {
          RunEnds(IsNotHeader, rest);
          RunIs(IsNotHeader, rest + [""], []);
          assert rest + [""] + [] == rest + [""];
          assert (rest + [""])[..n + 1] == rest + [""] && (rest + [""])[n + 1..] == [];
          assert rest[..n] == rest && rest[n..] == [];
          BlankBodyLine(rest, h.oldStart, h.newStart);
        }
      } else {
        BlankLine(rest);
      }
    }
  }

  // After a first part that ends its line, one more "\n" is an empty line, which belongs to the last
  // hunk: then the parts parse separately exactly when the first part has no hunk.
  lemma ParseAfterBlankLine(a: string, b: string)
    requires a != "" && IsLineBreak(a[|a| - 1]) && a[|a| - 1] != '\r' && StartsWithHeader(b)
    ensures Hunks(a + "\n" + b) == Hunks(a) + Hunks(b) <==> Hunks(a) == []
  {
    ParseParts(a + "\n", b);
    SplitLinesConcat(a, "\n");
    SplitOneLine("");
    assert "" + "\n" == "\n";
    BlankLine(SplitLines(a));
    hide HunksOfLines, SplitLines;
    var x, y, z := Hunks(a), Hunks(a + "\n"), Hunks(b);
    if y + z == x + z {
      assert (y + z)[..|y|] == y && (x + z)[..|x|] == x;
    }
  }

  lemma EmptyIsNotHeader()
    ensures !IsHeader("")
  {
  }

  // Ending the last line explicitly does not change the lines.
  lemma {:induction false} FinalBreak(a: string)
    requires a != "" ==> !IsLineBreak(a[|a| - 1]) || a[|a| - 1] == '\r'
    ensures a != "" ==> SplitLines(a + "\n") == SplitLines(a)
    decreases |a|
  {
    if a != "" {
      var n := Run(IsNotLineBreak, a);
      RunEnds(IsNotLineBreak, a);
      if n == |a| {
        SplitOneLine(a);
      } else {
        RunStops(IsNotLineBreak, a, "\n");
        assert (a + "\n")[..n] == a[..n];
        assert (a + "\n")[n] == a[n];
        if n + 1 < |a| {
          assert (a + "\n")[n + 1] == a[n + 1];
        }
        var rest := NextLine(a);
        if rest == "" {
          assert n + BreakAt(a, n) == |a|;
          assert NextLine(a + "\n") == "";
        } else {
          assert NextLine(a + "\n") == rest + "\n";
          assert rest[|rest| - 1] == a[|a| - 1];
          FinalBreak(rest);
        }
      }
    }
  }

  // ----- lines that do not matter -----

  predicate IsNotNote(raw: string) {
    !IsNote(raw)
  }

  lemma NoteIsNotHeader(raw: string)
    requires IsNote(raw)
    ensures !IsHeader(raw)
  {
    assert !("@@ -" <= raw);
  }

  lemma NoteHasNoLine(raw: string, oldNo: nat, newNo: nat)
    requires IsNote(raw)
    ensures NumberLine(raw, oldNo, newNo) == []
  {
  }

  lemma NumberLinesCons(raw: string, rest: seq<string>, oldNo: nat, newNo: nat)
    ensures var first := NumberLine(raw, oldNo, newNo);
            NumberLines([raw] + rest, oldNo, newNo)
            == first + NumberLines(rest, oldNo + OldLength(first), newNo + NewLength(first))
  {
    assert ([raw] + rest)[1..] == rest;
    hide NumberLine;
  }

  lemma KeptCons(raw: string, rest: seq<string>)
    ensures Filter(IsNotNote, [raw] + rest)
         == if IsNote(raw) then Filter(IsNotNote, rest) else [raw] + Filter(IsNotNote, rest)
  {
    assert ([raw] + rest)[1..] == rest;
    assert [] + Filter(IsNotNote, rest) == Filter(IsNotNote, rest);
    hide IsNote;
  }

  ghost predicate NotesLeftOut(body: seq<string>, oldNo: nat, newNo: nat) {
    NumberLines(Filter(IsNotNote, body), oldNo, newNo) == NumberLines(body, oldNo, newNo)
  }

  lemma NoteLeftOut(note: string, rest: seq<string>, oldNo: nat, newNo: nat)
    requires IsNote(note) && NotesLeftOut(rest, oldNo, newNo)
    ensures NotesLeftOut([note] + rest, oldNo, newNo)
  {
    KeptCons(note, rest);
    NoteHasNoLine(note, oldNo, newNo);
    NumberLinesCons(note, rest, oldNo, newNo);
    assert OldLength([]) == NewLength([]) == 0;
    hide NumberLines, NumberLine, Filter, IsNote;
    assert [] + NumberLines(rest, oldNo, newNo) == NumberLines(rest, oldNo, newNo);
  }

  lemma LineKept(raw: string, rest: seq<string>, oldNo: nat, newNo: nat)
    requires !IsNote(raw)
    requires var first := NumberLine(raw, oldNo, newNo);
             NotesLeftOut(rest, oldNo + OldLength(first), newNo + NewLength(first))
    ensures NotesLeftOut([raw] + rest, oldNo, newNo)
  {
    hide NumberLines, NumberLine, Filter, IsNote, OldLength, NewLength;
    KeptCons(raw, rest);
    NumberLinesCons(raw, rest, oldNo, newNo);
    NumberLinesCons(raw, Filter(IsNotNote, rest), oldNo, newNo);
  }

  lemma {:induction false} NumberLinesIgnoresNotes(body: seq<string>, oldNo: nat, newNo: nat)
    ensures NotesLeftOut(body, oldNo, newNo)
  {
    if body != [] {
      var raw, rest := body[0], body[1..];
      var first := NumberLine(raw, oldNo, newNo);
      assert body == [raw] + rest;
      hide NumberLine, IsNote, OldLength, NewLength, NotesLeftOut;
      if IsNote(raw) {
        NumberLinesIgnoresNotes(rest, oldNo, newNo);
        NoteLeftOut(raw, rest, oldNo, newNo);
      } else {
        NumberLinesIgnoresNotes(rest, oldNo + OldLength(first), newNo + NewLength(first));
        LineKept(raw, rest, oldNo, newNo);
      }
    }
  }

  lemma {:induction false} RunIgnoresNotes(lines: seq<string>)
    ensures var n, kept := Run(IsNotHeader, lines), Filter(IsNotNote, lines);
            && Run(IsNotHeader, kept) == |Filter(IsNotNote, lines[..n])|
            && kept == Filter(IsNotNote, lines[..n]) + Filter(IsNotNote, lines[n..])
  {
    var n := Run(IsNotHeader, lines);
    assert lines == lines[..n] + lines[n..];
    FilterConcat(IsNotNote, lines[..n], lines[n..]);
    var after := Filter(IsNotNote, lines[n..]);
    RunEnds(IsNotHeader, lines);
    if n < |lines| {
      if IsNote(lines[n]) {
        NoteIsNotHeader(lines[n]);
      }
      assert after[0] == lines[n];
    }
    hide ParseHeader;
    FilterMembers(IsNotNote, lines[..n]);
    forall raw | raw in Filter(IsNotNote, lines[..n]) ensures IsNotHeader(raw) {
      assert raw in lines[..n];
    }
    RunIs(IsNotHeader, Filter(IsNotNote, lines[..n]), after);
  }

  // "\ No newline at end of file" lines change nothing, wherever and however often they occur.
  lemma {:induction false} NotesIgnored(lines: seq<string>)
    ensures HunksOfLines(lines) == HunksOfLines(Filter(IsNotNote, lines))
    decreases |lines|
  {
    if lines != [] {
      var rest := lines[1..];
      var kept := Filter(IsNotNote, rest);
      if IsNote(lines[0]) {
        NoteIsNotHeader(lines[0]);
        assert [] + kept == kept;
        hide ParseHeader;
        NotesIgnored(rest);
      } else {
        hide ParseHeader;
        assert ([lines[0]] + kept)[1..] == kept;
        if IsHeader(lines[0]) {
          var n := Run(IsNotHeader, rest);
          RunIgnoresNotes(rest);
          var h := ParseHeader(lines[0]).value;
          NumberLinesIgnoresNotes(rest[..n], h.oldStart, h.newStart);
          NotesIgnored(rest[n..]);
          assert kept[..Run(IsNotHeader, kept)] == Filter(IsNotNote, rest[..n]);
          assert kept[Run(IsNotHeader, kept)..] == Filter(IsNotNote, rest[n..]);
        } else {
          NotesIgnored(rest);
        }
      }
    }
  }

  lemma NoteInsertion(a: seq<string>, note: string, b: seq<string>)
    requires IsNote(note)
    ensures HunksOfLines(a + [note] + b) == HunksOfLines(a + b)
  {
    FilterDrops(IsNotNote, a, note, b);
    NotesIgnored(a + [note] + b);
    NotesIgnored(a + b);
  }

  // ----- what a body line becomes -----

  // The lines that do not start with a backslash.
  function Counted(body: seq<string>): seq<string> {
    if body == [] then []
    else if body[0] != "" && body[0][0] == '\\' then Counted(body[1..])
    else [body[0]] + Counted(body[1..])
  }

  lemma {:induction false} CountedIs(body: seq<string>)
    ensures Counted(body) == Filter(IsNotNote, body)
  {
    if body != [] {
      CountedIs(body[1..]);
    }
  }

  lemma {:induction false} LinesOfBody(body: seq<string>, oldNo: nat, newNo: nat)
    ensures var raws, lines := Counted(body), NumberLines(body, oldNo, newNo);
            && |lines| == |raws|
            && forall k :: 0 <= k < |raws| ==>
                 && (lines[k].kind == Added <==> raws[k] != "" && raws[k][0] == '+')
                 && (lines[k].kind == Removed <==> raws[k] != "" && raws[k][0] == '-')
                 && lines[k].content == if raws[k] == "" then "" else raws[k][1..]
  {
    if body != [] {
      var first := NumberLine(body[0], oldNo, newNo);
      var oldNo', newNo' := oldNo + OldLength(first), newNo + NewLength(first);
      LinesOfBody(body[1..], oldNo', newNo');
      var rest, raws := NumberLines(body[1..], oldNo', newNo'), Counted(body[1..]);
      assert NumberLines(body, oldNo, newNo) == first + rest;
      assert Counted(body) == (if first == [] then [] else [body[0]]) + raws;
      assert first != [] ==>
        && |first| == 1
        && (first[0].kind == Added <==> body[0] != "" && body[0][0] == '+')
        && (first[0].kind == Removed <==> body[0] != "" && body[0][0] == '-')
        && first[0].content == if body[0] == "" then "" else body[0][1..];
      hide NumberLine, NumberLines, Counted, OldLength, NewLength;
    }
  }

  lemma OneHunk(header: string, body: seq<string>)
    requires IsHeader(header) && forall raw :: raw in body ==> !IsHeader(raw)
    ensures var h := ParseHeader(header).value;
            HunksOfLines([header] + body) == [BuildHunk(h, NumberLines(body, h.oldStart, h.newStart))]
  {
    hide ParseHeader, NumberLines;
    RunIs(IsNotHeader, body, []);
    assert body + [] == body && ([header] + body)[1..] == body;
    assert body[..|body|] == body && body[|body|..] == [];
  }

  // A header line and the lines after it, up to the next header, are one hunk: a line for each that does
  // not start with a backslash, added, removed or context by its first character, which is dropped.
  lemma HunkOfText(patch: string, header: string, body: seq<string>)
    requires SplitLines(patch) == [header] + body
    requires IsHeader(header) && forall raw :: raw in body ==> !IsHeader(raw)
    ensures |Hunks(patch)| == 1
    ensures var h, raws := Hunks(patch)[0], Counted(body);
            && |h.lines| == |raws|
            && forall k :: 0 <= k < |raws| ==>
                 && (h.lines[k].kind == Added <==> raws[k] != "" && raws[k][0] == '+')
                 && (h.lines[k].kind == Removed <==> raws[k] != "" && raws[k][0] == '-')
                 && h.lines[k].content == if raws[k] == "" then "" else raws[k][1..]
  {
    var h := ParseHeader(header).value;
    LinesOfBody(body, h.oldStart, h.newStart);
    hide ParseHeader, NumberLines, SplitLines, HunksOfLines, Counted;
    OneHunk(header, body);
  }

  // In patch text: dropping every line that starts with a backslash changes nothing.
  lemma NotesDropped(patch: string)
    ensures Hunks(Unlines(Counted(SplitLines(patch)))) == Hunks(patch)
  {
    var lines := SplitLines(patch);
    SplitLinesNoBreak(patch);
    FilterMembers(IsNotNote, lines);
    NotesIgnored(lines);
    CountedIs(lines);
    hide SplitLines, Unlines, Filter, HunksOfLines, Counted;
    SplitUnlines(Filter(IsNotNote, lines));
  }

  // A backslash line put between two lines of a patch, or at its end, changes nothing.
  lemma NoteInText(a: string, note: string, b: string)
    requires EndsLine(a, b) && note != "" && note[0] == '\\' && NoBreak(note)
    ensures Hunks(a + note + "\n" + b) == Hunks(a + b)
    ensures Hunks(a + note) == Hunks(a)
  {
    assert EndsLine(a, note) && EndsLine(a, note + "\n" + b) && EndsLine(note + "\n", b);
    SplitOneLine(note);
    assert a + (note + "\n" + b) == a + note + "\n" + b;
    assert IsNote(note);
    hide SplitLines, HunksOfLines, EndsLine, IsNote, NoBreak;
    SplitLinesConcat(a, note + "\n" + b);
    SplitLinesConcat(note + "\n", b);
    SplitLinesConcat(a, b);
    SplitLinesConcat(a, note);
    ConcatAssociates(SplitLines(a), [note], SplitLines(b));
    NoteInsertion(SplitLines(a), note, SplitLines(b));
    NoteInsertion(SplitLines(a), note, []);
    assert SplitLines(a) + [note] + [] == SplitLines(a) + [note] && SplitLines(a) + [] == SplitLines(a);
  }

  // ----- text before the first header -----

  lemma {:induction false} PreambleIgnored(preamble: seq<string>, lines: seq<string>)
    requires forall raw :: raw in preamble ==> !IsHeader(raw)
    ensures HunksOfLines(preamble + lines) == HunksOfLines(lines)
  {
    hide ParseHeader;
    if preamble == [] {
      assert preamble + lines == lines;
    } else {
      assert (preamble + lines)[1..] == preamble[1..] + lines;
      assert preamble[0] in preamble;
      PreambleIgnored(preamble[1..], lines);
    }
  }

  // Text without a header before a patch changes nothing.
  lemma PreambleInText(a: string, b: string)
    requires EndsLine(a, b) && forall raw :: raw in SplitLines(a) ==> !IsHeader(raw)
    ensures Hunks(a + b) == Hunks(b)
  {
    hide SplitLines, HunksOfLines, ParseHeader;
    SplitLinesConcat(a, b);
    PreambleIgnored(SplitLines(a), SplitLines(b));
  }

  // ----- printing -----

  function Sign(kind: LineKind): char {
    match kind
    case Context => ' '
    case Added => '+'
    case Removed => '-'
  }

  function PrintLine(l: DiffLine): string {
    [Sign(l.kind)] + l.content
  }

  // A count, left out when it is 1 and `brief` asks for that.
  function PrintCount(count: nat, brief: bool): Option<string> {
    if brief && count == 1 then None else Some(Decimal(count))
  }

  ghost function HeaderParts(h: DiffHunk, brief: bool): Written {
    Written(Span(Decimal(h.oldStart), PrintCount(h.oldCount, brief)),
            Span(Decimal(h.newStart), PrintCount(h.newCount, brief)),
            if h.heading == "" then "" else " " + h.heading)
  }

  ghost function PrintHunk(h: DiffHunk, brief: bool): seq<string> {
    [HeaderText(HeaderParts(h, brief))] + Map(PrintLine, h.lines)
  }

  ghost function PrintedLines(hunks: seq<DiffHunk>, brief: bool): seq<string> {
    if hunks == [] then [] else PrintHunk(hunks[0], brief) + PrintedLines(hunks[1..], brief)
  }

  ghost function Print(hunks: seq<DiffHunk>, brief: bool): string {
    Unlines(PrintedLines(hunks, brief))
  }

  lemma DecimalIsDigits(n: nat)
    ensures AreDigits(Decimal(n))
  {
    assert forall c :: c in Decimal(n) ==> IsDigit(c);
  }

  lemma PrintedHeaderParses(h: DiffHunk, brief: bool)
    ensures var parsed := ParseHeader(HeaderText(HeaderParts(h, brief)));
            && parsed.Some?
            && forall lines :: BuildHunk(parsed.value, lines) == h.(lines := lines)
  {
    var w := HeaderParts(h, brief);
    DecimalIsDigits(h.oldStart);
    DecimalIsDigits(h.oldCount);
    DecimalIsDigits(h.newStart);
    DecimalIsDigits(h.newCount);
    ValueOfDecimal(h.oldStart);
    ValueOfDecimal(h.oldCount);
    ValueOfDecimal(h.newStart);
    ValueOfDecimal(h.newCount);
    HeaderComplete(w);
    hide ParseHeader, HeaderText;
    assert Heading(w.tail) == h.heading;
  }

  lemma PrintedLineIsNotHeader(l: DiffLine)
    ensures !IsHeader(PrintLine(l))
  {
    assert PrintLine(l)[0] != '@';
  }

  lemma {:induction false} PrintedLinesParse(lines: seq<DiffLine>, oldNo: nat, newNo: nat)
    requires NumberedFrom(lines, oldNo, newNo)
    ensures NumberLines(Map(PrintLine, lines), oldNo, newNo) == lines
  {
    if lines != [] {
      var first, rest := lines[0], lines[1..];
      assert lines == [first] + rest;
      NumberedCons(first, rest, oldNo, newNo);
      assert [first][..0] == [];
      assert PrintLine(first)[1..] == first.content;
      assert NumberLine(PrintLine(first), oldNo, newNo) == [first];
      assert Map(PrintLine, lines) == [PrintLine(first)] + Map(PrintLine, rest);
      hide NumberLine, PrintLine, NumberedAt;
      PrintedLinesParse(rest, oldNo + OldLength([first]), newNo + NewLength([first]));
    }
  }

  lemma {:induction false} PrintedHunkParses(h: DiffHunk, brief: bool)
    requires WellNumbered(h)
    ensures HunksOfLines(PrintHunk(h, brief)) == [h]
  {
    PrintedHeaderParses(h, brief);
    PrintedLinesParse(h.lines, h.oldStart, h.newStart);
    var body := Map(PrintLine, h.lines);
    forall raw | raw in body ensures !IsHeader(raw) {
      var k :| 0 <= k < |body| && body[k] == raw;
      PrintedLineIsNotHeader(h.lines[k]);
    }
    hide ParseHeader, HeaderText;
    RunIs(IsNotHeader, body, []);
    assert body + [] == body;
    assert PrintHunk(h, brief)[1..] == body;
    assert body[..|body|] == body && body[|body|..] == [];
    var parsed := ParseHeader(HeaderText(HeaderParts(h, brief))).value;
    assert BuildHunk(parsed, h.lines) == h;
    assert parsed.oldStart == h.oldStart && parsed.newStart == h.newStart by {
      assert BuildHunk(parsed, []) == h.(lines := []);
    }
  }

  lemma {:induction false} PrintedHunksParse(hunks: seq<DiffHunk>, brief: bool)
    requires forall h :: h in hunks ==> WellNumbered(h)
    ensures HunksOfLines(PrintedLines(hunks, brief)) == hunks
    ensures hunks != [] ==> IsHeader(PrintedLines(hunks, brief)[0])
  {
    if hunks != [] {
      PrintedHunkParses(hunks[0], brief);
      PrintedHunksParse(hunks[1..], brief);
      PrintedHeaderParses(hunks[0], brief);
      assert PrintHunk(hunks[0], brief)[0] == HeaderText(HeaderParts(hunks[0], brief));
      hide ParseHeader, HeaderText, HunksOfLines, PrintHunk;
      assert hunks == [hunks[0]] + hunks[1..];
      HunksOfLinesConcat(PrintHunk(hunks[0], brief), PrintedLines(hunks[1..], brief));
    }
  }

  lemma PrintedHunkNoBreak(h: DiffHunk, brief: bool)
    requires Printable(h)
    ensures forall raw :: raw in PrintHunk(h, brief) ==> NoBreak(raw)
  {
    forall l | l in h.lines ensures NoBreak(PrintLine(l)) {
    }
    var w := HeaderParts(h, brief);
    assert NoBreak(SpanText(w.oldSpan)) && NoBreak(SpanText(w.newSpan)) && NoBreak(w.tail);
    assert NoBreak("@@ -") && NoBreak(" +") && NoBreak(" @@");
    hide IsLineBreak, SpanText;
    assert NoBreak(HeaderText(w));
  }

  lemma {:induction false} PrintedNoBreak(hunks: seq<DiffHunk>, brief: bool)
    requires forall h :: h in hunks ==> Printable(h)
    ensures forall raw :: raw in PrintedLines(hunks, brief) ==> NoBreak(raw)
  {
    if hunks != [] {
      PrintedHunkNoBreak(hunks[0], brief);
      hide NoBreak;
      PrintedNoBreak(hunks[1..], brief);
    }
  }

  // Parsing a printed patch gives back the hunks exactly when every hunk is printable.
  lemma RoundTrip(hunks: seq<DiffHunk>, brief: bool)
    ensures Hunks(Print(hunks, brief)) == hunks <==> forall h :: h in hunks ==> Printable(h)
  {
    if forall h :: h in hunks ==> Printable(h) {
      PrintedNoBreak(hunks, brief);
      SplitUnlines(PrintedLines(hunks, brief));
      PrintedHunksParse(hunks, brief);
    }
    if Hunks(Print(hunks, brief)) == hunks {
      LineNumbers(Print(hunks, brief));
    }
  }

  lemma PrintedHunkNonempty(h: DiffHunk, brief: bool)
    ensures forall l :: l in PrintHunk(h, brief) ==> l != ""
  {
    assert HeaderText(HeaderParts(h, brief)) != "";
    hide HeaderText;
    var body := Map(PrintLine, h.lines);
    assert forall k :: 0 <= k < |body| ==> body[k] != "";
    hide Map;
    assert forall l :: l in body ==> l != "";
  }

  lemma {:induction false} PrintedLastLine(hunks: seq<DiffHunk>, brief: bool)
    ensures var lines := PrintedLines(hunks, brief);
            lines != [] ==> lines[|lines| - 1] != ""
  {
    if hunks != [] {
      PrintedHunkNonempty(hunks[0], brief);
      hide PrintHunk;
      PrintedLastLine(hunks[1..], brief);
      var first, later := PrintHunk(hunks[0], brief), PrintedLines(hunks[1..], brief);
      assert PrintedLines(hunks, brief) == first + later;
    }
  }

  // The same without a final line break, which is how GitHub sends a patch.
  lemma RoundTripUnterminated(hunks: seq<DiffHunk>, brief: bool)
    ensures Hunks(Join("\n", PrintedLines(hunks, brief))) == hunks <==> forall h :: h in hunks ==> Printable(h)
  {
    var patch := Join("\n", PrintedLines(hunks, brief));
    if forall h :: h in hunks ==> Printable(h) {
      PrintedNoBreak(hunks, brief);
      PrintedLastLine(hunks, brief);
      SplitJoined(PrintedLines(hunks, brief));
      PrintedHunksParse(hunks, brief);
    }
    if Hunks(patch) == hunks {
      LineNumbers(patch);
    }
  }

  // Printing what was parsed, with or without counts of 1, normalises any text and loses nothing.
  lemma Reprint(patch: string, brief: bool)
    ensures Hunks(Print(Hunks(patch), brief)) == Hunks(patch)
  {
    LineNumbers(patch);
    RoundTrip(Hunks(patch), brief);
  }
}
