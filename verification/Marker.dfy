/**
The hidden review marker: rendering it, finding it in a review body and reading its fields.

`\w` accepts letters and digits of every script. Which characters above ASCII it accepts is a
parameter, `word`, and every statement here holds for all of its values.
 */
module Marker {
  import opened Options
  import opened Seqs
  import opened Text

  const OPEN := "<!--"
  const NAME := "bicho-pr-reviewer:1"
  const CLOSE := "-->"

  datatype ReviewMarker = ReviewMarker(
    headSha: string, workflowVersion: string, runFingerprint: string, modelId: string, promptVersion: string)

  // ----- rendering -----

  function Field(pair: (string, string)): string {
    pair.0 + "=" + pair.1
  }

  function Pairs(m: ReviewMarker): seq<(string, string)> {
    [("head_sha", m.headSha), ("workflow_version", m.workflowVersion), ("run", m.runFingerprint),
     ("model", m.modelId), ("prompt", m.promptVersion)]
  }

  function Fields(m: ReviewMarker): string {
    Join(" ", Map(Field, Pairs(m)))
  }

  const HEAD := OPEN + " " + NAME + " "

  function Render(m: ReviewMarker): string {
    HEAD + Fields(m) + " " + CLOSE
  }

  // ----- finding the marker block -----

  // The text after `<!--\s*bicho-pr-reviewer:1\s+` at the start of `u`.
  function Opening(u: string): (rest: Option<string>)
    ensures rest.Some? ==> |rest.value| < |u|
  {
    var a :- Expect(OPEN, u);
    AfterName(TrimLeft(a))
  }

  // The text after `bicho-pr-reviewer:1\s+`.
  function AfterName(u: string): (rest: Option<string>)
    ensures rest.Some? ==> |rest.value| < |u|
  {
    var b :- Expect(NAME, u);
    if b == "" || !IsSpace(b[0]) then None else Some(TrimLeft(b))
  }

  // The text before the first "-->".
  function Until(u: string): Option<string> {
    if u == "" then None
    else if CLOSE <= u then Some("")
    else match Until(u[1..]) case None => None case Some(s) => Some([u[0]] + s)
  }

  // The fields of the marker block at the start of `u`: `(?P<fields>.*?)\s*-->` after the opening.
  function BlockAt(u: string): Option<string> {
    var rest :- Opening(u);
    var before :- Until(rest);
    Some(TrimRight(before))
  }

  // The fields of the leftmost marker block.
  function Search(u: string): Option<string> {
    if u == "" then None
    else if BlockAt(u).Some? then BlockAt(u)
    else Search(u[1..])
  }

  // ----- reading the fields -----

  predicate IsWord(word: char -> bool, c: char) {
    if c < '\U{80}' then '0' <= c <= '9' || 'A' <= c <= 'Z' || 'a' <= c <= 'z' || c == '_' else word(c)
  }

  // Below 128 a word character is a letter, a digit or "_".
  lemma WordIs(word: char -> bool, c: char)
    requires c < '\U{80}'
    ensures IsWord(word, c) <==>
      || c in {'0', '1', '2', '3', '4', '5', '6', '7', '8', '9', '_'}
      || c in {'A', 'B', 'C', 'D', 'E', 'F', 'G', 'H', 'I', 'J', 'K', 'L', 'M'}
      || c in {'N', 'O', 'P', 'Q', 'R', 'S', 'T', 'U', 'V', 'W', 'X', 'Y', 'Z'}
      || c in {'a', 'b', 'c', 'd', 'e', 'f', 'g', 'h', 'i', 'j', 'k', 'l', 'm'}
      || c in {'n', 'o', 'p', 'q', 'r', 's', 't', 'u', 'v', 'w', 'x', 'y', 'z'}
  {
  }

  function Word(word: char -> bool): char -> bool {
    (c: char) => IsWord(word, c)
  }

  predicate IsNotSpace(c: char) {
    !IsSpace(c)
  }

  // A match of `(\w+)=(\S*)` at the start of `s`, and the text after it.
  function PairAt(word: char -> bool, s: string): (r: Option<((string, string), string)>)
    ensures r.Some? ==> |r.value.1| < |s|
  {
    var key := Taken(Word(word), s);
    if key == "" then None
    else
      var after :- Expect("=", Dropped(Word(word), s));
      Some(((key, Taken(IsNotSpace, after)), Dropped(IsNotSpace, after)))
  }

  // All matches, from left to right.
  function FieldPairs(word: char -> bool, s: string): seq<(string, string)>
    decreases |s|
  {
    if s == "" then []
    else match PairAt(word, s)
      case Some((pair, rest)) => [pair] + FieldPairs(word, rest)
      case None => FieldPairs(word, s[1..])
  }

  // `dict(pairs)`: the last value of a key counts.
  function DictOf(pairs: seq<(string, string)>): map<string, string> {
    if pairs == [] then map[]
    else DictOf(pairs[..|pairs| - 1])[pairs[|pairs| - 1].0 := pairs[|pairs| - 1].1]
  }

  function MarkerOf(fields: map<string, string>): Option<ReviewMarker> {
    if {"head_sha", "workflow_version", "run", "model", "prompt"} <= fields.Keys then
      Some(ReviewMarker(
             fields["head_sha"], fields["workflow_version"], fields["run"], fields["model"], fields["prompt"]))
    else None
  }

  function Parse(word: char -> bool, text: string): Option<ReviewMarker> {
    var fields :- Search(text);
    MarkerOf(DictOf(FieldPairs(word, fields)))
  }

  // ----- field values that survive -----

  ghost predicate SafeField(v: string) {
    (forall c :: c in v ==> !IsSpace(c)) && Until(v).None?
  }

  ghost predicate Safe(m: ReviewMarker) {
    && SafeField(m.headSha) && SafeField(m.workflowVersion) && SafeField(m.runFingerprint)
    && SafeField(m.modelId) && SafeField(m.promptVersion)
  }
}
