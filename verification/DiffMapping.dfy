/** Which lines of a diff can be commented on, and which ranges a comment can be anchored to. */
module DiffMapping {
  import opened Options
  import opened Diff
  import opened HunkParser
  import opened HunkLaws

  function NumberOn(line: DiffLine, side: DiffSide): Option<nat> {
    if side == RIGHT then line.newLine else line.oldLine
  }

  function LineSet(lines: seq<DiffLine>, side: DiffSide): set<nat> {
    set l | l in lines && NumberOn(l, side).Some? :: NumberOn(l, side).value
  }

  function CommentableSet(hunks: seq<DiffHunk>, side: DiffSide): set<nat> {
    set h, n | h in hunks && n in LineSet(h.lines, side) :: n
  }

  method CommentableLines(fileDiff: FileDiff, side: DiffSide) returns (lines: set<nat>)
    ensures lines == CommentableSet(fileDiff.hunks, side)
  {
    lines := {};
    var hunks := fileDiff.hunks;
    for i := 0 to |hunks|
      invariant lines == CommentableSet(hunks[..i], side)
    {
      var hunk := hunks[i];
      ghost var before := lines;
      for j := 0 to |hunk.lines|
        invariant lines == before + LineSet(hunk.lines[..j], side)
      {
        var number := NumberOn(hunk.lines[j], side);
        assert hunk.lines[..j + 1] == hunk.lines[..j] + [hunk.lines[j]];
        if number.Some? {
          lines := lines + {number.value};
        }
      }
      assert hunk.lines[..|hunk.lines|] == hunk.lines;
      assert hunks[..i + 1] == hunks[..i] + [hunk];
    }
    assert hunks[..|hunks|] == hunks;
  }

  function CanAnchor(diff: NormalizedDiff, path: string, startLine: int, endLine: int, side: DiffSide): bool {
    match diff.File(path)
    case None => false
    case Some(file) =>
      var lines := CommentableSet(file.hunks, side);
      startLine in lines && endLine in lines
  }

  // ----- the commentable lines are intervals -----

  function Start(h: DiffHunk, side: DiffSide): nat {
    if side == RIGHT then h.newStart else h.oldStart
  }

  function Length(lines: seq<DiffLine>, side: DiffSide): nat {
    if side == RIGHT then NewLength(lines) else OldLength(lines)
  }

  // The first line number after the hunk.
  function End(h: DiffHunk, side: DiffSide): nat {
    Start(h, side) + Length(h.lines, side)
  }

  predicate InHunk(h: DiffHunk, side: DiffSide, n: int) {
    Start(h, side) <= n < End(h, side)
  }

  // The line of a hunk that is the `d`-th on its side.
  lemma {:induction false} LineAtOffset(lines: seq<DiffLine>, side: DiffSide, d: nat) returns (k: nat)
    requires d < Length(lines, side)
    ensures k < |lines| && Length(lines[..k], side) == d && Length(lines[..k + 1], side) == d + 1
  {
    var first, rest := lines[0], lines[1..];
    var n := Length([first], side);
    assert lines == [first] + rest;
    LengthConcat([first], rest);
    if d < n {
      k := 0;
      assert lines[..0] == [] && lines[..1] == [first];
    } else {
      var k' := LineAtOffset(rest, side, d - n);
      k := k' + 1;
      assert lines[..k] == [first] + rest[..k'] && lines[..k + 1] == [first] + rest[..k' + 1];
      LengthConcat([first], rest[..k']);
      LengthConcat([first], rest[..k' + 1]);
    }
  }

  lemma LengthOfNext(lines: seq<DiffLine>, k: nat)
    requires k < |lines|
    ensures OldLength(lines[..k + 1]) == OldLength(lines[..k]) + OldLength([lines[k]])
    ensures NewLength(lines[..k + 1]) == NewLength(lines[..k]) + NewLength([lines[k]])
    ensures OldLength(lines[..k + 1]) <= OldLength(lines) && NewLength(lines[..k + 1]) <= NewLength(lines)
  {
    hide OldLength, NewLength;
    assert lines[..k + 1] == lines[..k] + [lines[k]];
    assert lines == lines[..k + 1] + lines[k + 1..];
    LengthConcat(lines[..k], [lines[k]]);
    LengthConcat(lines[..k + 1], lines[k + 1..]);
  }

  lemma LineNumberInHunk(h: DiffHunk, side: DiffSide, k: nat)
    requires WellNumbered(h) && k < |h.lines|
    ensures var before, number := Length(h.lines[..k], side), NumberOn(h.lines[k], side);
            && (number.Some? ==> number.value == Start(h, side) + before)
            && Length(h.lines[..k + 1], side) == before + (if number.Some? then 1 else 0) <= Length(h.lines, side)
  {
    assert NumberedAt(h.lines, k, h.oldStart, h.newStart);
    LengthOfNext(h.lines, k);
    assert OldLength([h.lines[k]]) == (if h.lines[k].kind.Added? then 0 else 1);
    assert NewLength([h.lines[k]]) == (if h.lines[k].kind.Removed? then 0 else 1);
  }

  lemma HunkLinesInterval(h: DiffHunk, side: DiffSide, n: nat)
    requires WellNumbered(h)
    ensures n in LineSet(h.lines, side) <==> InHunk(h, side, n)
  {
    hide WellNumbered, Length, NumberOn;
    if n in LineSet(h.lines, side) {
      var l :| l in h.lines && NumberOn(l, side) == Some(n);
      var k :| 0 <= k < |h.lines| && h.lines[k] == l;
      LineNumberInHunk(h, side, k);
    }
    if InHunk(h, side, n) {
      var k := LineAtOffset(h.lines, side, n - Start(h, side));
      LineNumberInHunk(h, side, k);
      assert NumberOn(h.lines[k], side) == Some(n);
    }
  }

  lemma CommentableIntervals(hunks: seq<DiffHunk>, side: DiffSide, n: nat)
    requires forall h :: h in hunks ==> WellNumbered(h)
    ensures n in CommentableSet(hunks, side) <==> exists h :: h in hunks && InHunk(h, side, n)
  {
    forall h | h in hunks ensures n in LineSet(h.lines, side) <==> InHunk(h, side, n) {
      HunkLinesInterval(h, side, n);
    }
  }

  // For every patch text, the commentable lines of a side are the union of the hunks' intervals.
  lemma CommentableOfPatch(patch: string, side: DiffSide)
    ensures forall n: nat :: n in CommentableSet(Hunks(patch), side)
                        <==> exists h :: h in Hunks(patch) && InHunk(h, side, n)
  {
    LineNumbers(patch);
    forall n: nat
      ensures n in CommentableSet(Hunks(patch), side) <==> exists h :: h in Hunks(patch) && InHunk(h, side, n)
    {
      CommentableIntervals(Hunks(patch), side, n);
    }
  }

  // Two endpoints in one hunk: every line between them is commentable.
  lemma OneHunkRange(hunks: seq<DiffHunk>, h: DiffHunk, side: DiffSide, a: nat, b: nat)
    requires forall g :: g in hunks ==> WellNumbered(g)
    requires h in hunks && InHunk(h, side, a) && InHunk(h, side, b)
    ensures forall n :: a <= n <= b ==> n in CommentableSet(hunks, side)
  {
    forall n | a <= n <= b ensures n in CommentableSet(hunks, side) {
      CommentableIntervals(hunks, side, n);
    }
  }

  // ----- ranges that leave a hunk -----

  // The line after every hunk that ends inside the range is commentable too.
  ghost predicate NoGap(hunks: seq<DiffHunk>, side: DiffSide, a: nat, b: nat) {
    forall h :: h in hunks && a < End(h, side) <= b ==> End(h, side) in CommentableSet(hunks, side)
  }

  lemma {:induction false} NoGapCovers(hunks: seq<DiffHunk>, side: DiffSide, a: nat, b: nat, n: nat)
    requires forall h :: h in hunks ==> WellNumbered(h)
    requires a in CommentableSet(hunks, side) && NoGap(hunks, side, a, b) && a <= n <= b
    ensures n in CommentableSet(hunks, side)
    decreases n
  {
    hide WellNumbered, CommentableSet;
    if a < n {
      NoGapCovers(hunks, side, a, b, n - 1);
      CommentableIntervals(hunks, side, n - 1);
      var h :| h in hunks && InHunk(h, side, n - 1);
      CommentableIntervals(hunks, side, n);
      if n == End(h, side) {
        assert End(h, side) in CommentableSet(hunks, side);
      } else {
        assert InHunk(h, side, n);
      }
    }
  }

  // An anchorable range is commentable on every line exactly when no hunk in it ends in a gap.
  lemma AnchoredRangeIsCommentable(patch: string, side: DiffSide, a: nat, b: nat)
    requires a in CommentableSet(Hunks(patch), side) && b in CommentableSet(Hunks(patch), side)
    ensures (forall n :: a <= n <= b ==> n in CommentableSet(Hunks(patch), side))
       <==> NoGap(Hunks(patch), side, a, b)
  {
    LineNumbers(patch);
    if NoGap(Hunks(patch), side, a, b) {
      forall n | a <= n <= b ensures n in CommentableSet(Hunks(patch), side) {
        NoGapCovers(Hunks(patch), side, a, b, n);
      }
    }
  }

  // Only the endpoints are checked: a range over two distant hunks anchors although line 5 is not in the diff.
  lemma AnchorsAcrossGap()
    ensures exists diff: NormalizedDiff, path ::
              && CanAnchor(diff, path, 1, 9, RIGHT)
              && diff.File(path).Some?
              && 5 !in CommentableSet(diff.File(path).value.hunks, RIGHT)
              && forall h :: h in diff.File(path).value.hunks ==> Printable(h)
  {
    var one := DiffLine(Added, "", None, Some(1));
    var nine := DiffLine(Added, "", None, Some(9));
    var hunks := [DiffHunk(1, 0, 1, 1, "", [one]), DiffHunk(9, 0, 9, 1, "", [nine])];
    var file := FileDiff("a.py", FileModified, None, false, hunks);
    var diff := NormalizedDiff([file]);
    assert diff.File("a.py") == Some(file);
    assert hunks[0].lines[0] == one && hunks[1].lines[0] == nine;
    assert one in hunks[0].lines && nine in hunks[1].lines;
    assert 1 in LineSet(hunks[0].lines, RIGHT) by { assert NumberOn(one, RIGHT) == Some(1); }
    assert 9 in LineSet(hunks[1].lines, RIGHT) by { assert NumberOn(nine, RIGHT) == Some(9); }
    assert hunks[0] in hunks && hunks[1] in hunks;
    forall h | h in hunks ensures Printable(h) {
      assert h.lines[..0] == [];
      assert NumberedAt(h.lines, 0, h.oldStart, h.newStart);
    }
    assert CanAnchor(diff, "a.py", 1, 9, RIGHT);
  }
}
