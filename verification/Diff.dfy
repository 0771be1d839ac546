/** The normalized diff: per-file hunks whose lines carry their old- and new-file numbers. */
module Diff {
  import opened Options

  datatype FileChangeKind = FileAdded | FileModified | FileRemoved | FileRenamed

  datatype LineKind = Context | Added | Removed

  // Which side of the diff a location is on, in GitHub's terms.
  datatype DiffSide = LEFT | RIGHT

  datatype DiffLine = DiffLine(kind: LineKind, content: string, oldLine: Option<nat>, newLine: Option<nat>)

  datatype DiffHunk = DiffHunk(
    oldStart: nat, oldCount: nat, newStart: nat, newCount: nat, heading: string, lines: seq<DiffLine>)

  datatype FileDiff = FileDiff(
    path: string, changeKind: FileChangeKind, previousPath: Option<string>, isBinary: bool, hunks: seq<DiffHunk>)

  datatype NormalizedDiff = NormalizedDiff(files: seq<FileDiff>) {
    // The first file of that path.
    function File(path: string): Option<FileDiff> {
      FirstWithPath(files, path)
    }
  }

  function FirstWithPath(files: seq<FileDiff>, path: string): Option<FileDiff> {
    if files == [] then None
    else if files[0].path == path then Some(files[0])
    else FirstWithPath(files[1..], path)
  }

  // ----- line numbering -----

  // How many of the lines exist in the old file.
  function OldLength(lines: seq<DiffLine>): nat {
    if lines == [] then 0 else (if lines[0].kind.Added? then 0 else 1) + OldLength(lines[1..])
  }

  // How many of the lines exist in the new file.
  function NewLength(lines: seq<DiffLine>): nat {
    if lines == [] then 0 else (if lines[0].kind.Removed? then 0 else 1) + NewLength(lines[1..])
  }

  // Line `k` is numbered by the lines before it, on the sides its kind puts it on.
  ghost predicate NumberedAt(lines: seq<DiffLine>, k: nat, oldNo: nat, newNo: nat)
    requires k < |lines|
  {
    && lines[k].oldLine == (if lines[k].kind.Added? then None else Some(oldNo + OldLength(lines[..k])))
    && lines[k].newLine == (if lines[k].kind.Removed? then None else Some(newNo + NewLength(lines[..k])))
  }

  ghost predicate NumberedFrom(lines: seq<DiffLine>, oldNo: nat, newNo: nat) {
    forall k :: 0 <= k < |lines| ==> NumberedAt(lines, k, oldNo, newNo)
  }

  ghost predicate WellNumbered(h: DiffHunk) {
    NumberedFrom(h.lines, h.oldStart, h.newStart)
  }

  lemma LengthConcat(a: seq<DiffLine>, b: seq<DiffLine>)
    ensures OldLength(a + b) == OldLength(a) + OldLength(b)
    ensures NewLength(a + b) == NewLength(a) + NewLength(b)
  {
    if a == [] {
      assert a + b == b;
    } else {
      assert (a + b)[1..] == a[1..] + b;
      LengthConcat(a[1..], b);
    }
  }

  // Numbering the later lines after the first line is numbering the rest from where it ends.
  lemma NumberedRest(first: DiffLine, rest: seq<DiffLine>, k: nat, oldNo: nat, newNo: nat)
    requires k < |rest|
    ensures NumberedAt([first] + rest, k + 1, oldNo, newNo)
       <==> NumberedAt(rest, k, oldNo + OldLength([first]), newNo + NewLength([first]))
  {
    assert ([first] + rest)[..k + 1] == [first] + rest[..k];
    LengthConcat([first], rest[..k]);
  }

  lemma NumberedCons(first: DiffLine, rest: seq<DiffLine>, oldNo: nat, newNo: nat)
    ensures NumberedFrom([first] + rest, oldNo, newNo) <==>
      && NumberedAt([first], 0, oldNo, newNo)
      && NumberedFrom(rest, oldNo + OldLength([first]), newNo + NewLength([first]))
  {
    var lines := [first] + rest;
    var oldNo', newNo' := oldNo + OldLength([first]), newNo + NewLength([first]);
    forall k | 0 <= k < |rest|
      ensures NumberedAt(lines, k + 1, oldNo, newNo) <==> NumberedAt(rest, k, oldNo', newNo')
    {
      NumberedRest(first, rest, k, oldNo, newNo);
    }
    assert lines[..0] == [first][..0] == [];
    assert NumberedAt(lines, 0, oldNo, newNo) <==> NumberedAt([first], 0, oldNo, newNo);
    hide NumberedAt;
    if NumberedAt([first], 0, oldNo, newNo) && NumberedFrom(rest, oldNo', newNo') {
      forall k | 0 <= k < |lines| ensures NumberedAt(lines, k, oldNo, newNo) {
        if k > 0 {
          assert NumberedAt(rest, k - 1, oldNo', newNo');
        }
      }
    }
    if NumberedFrom(lines, oldNo, newNo) {
      forall k | 0 <= k < |rest| ensures NumberedAt(rest, k, oldNo', newNo') {
        assert NumberedAt(lines, k + 1, oldNo, newNo);
      }
    }
  }
}
