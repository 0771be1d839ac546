/** Composing one review draft from the verified findings. */
module Compose {
  import opened Options
  import opened Seqs
  import opened Text
  import opened Diff
  import opened DiffMapping
  import opened Findings
  import opened Marker

  const WORKFLOW_VERSION := "1"
  const PROMPT_VERSION := "v1"

  // What the program takes from its surroundings: the characters above ASCII that `\w` accepts, the
  // hexadecimal SHA-256 digest, and how many reviews GitHub lists in one answer.
  datatype Env = Env(word: char -> bool, digest: string -> string, page: nat)

  datatype OutcomeStatus = RanOk | RanZeroFindings | RanError | RanTimeout | RanSkipped

  datatype Diagnostic = Diagnostic(source: string, status: OutcomeStatus, message: string)

  datatype AnalyzerOutcome = AnalyzerOutcome(
    source: string, status: OutcomeStatus, findings: seq<Finding>, diagnostics: seq<Diagnostic>)

  datatype InlineComment = InlineComment(
    path: string, line: int, body: string, side: DiffSide, startLine: Option<int>, startSide: Option<DiffSide>)

  datatype ReviewEvent = COMMENT | REQUEST_CHANGES | APPROVE

  datatype ReviewDraft = ReviewDraft(
    summary: string, event: ReviewEvent, commitId: string, inlineComments: seq<InlineComment>)

  // What the comment's validator enforces.
  predicate ValidComment(c: InlineComment) {
    c.startLine.Some? ==> c.startLine.value <= c.line
  }

  // ----- anchoring -----

  function Anchored(diff: NormalizedDiff): Finding -> Finding {
    (f: Finding) => f.(canPublishInline := CanAnchor(diff, f.path, f.startLine, f.endLine, f.diffSide))
  }

  method AnchorFindings(findings: seq<Finding>, diff: NormalizedDiff) returns (result: seq<Finding>)
    ensures result == Map(Anchored(diff), findings)
  {
    hide CanAnchor, Map;
    result := [];
    assert Map(Anchored(diff), findings[..0]) == [];
    for i := 0 to |findings|
      invariant result == Map(Anchored(diff), findings[..i])
    {
      var finding := findings[i];
      assert findings[..i + 1] == findings[..i] + [finding];
      MapConcat(Anchored(diff), findings[..i], [finding]);
      var anchorable := CanAnchor(diff, finding.path, finding.startLine, finding.endLine, finding.diffSide);
      if finding.canPublishInline == anchorable {
        result := result + [finding];
      } else {
        result := result + [finding.(canPublishInline := anchorable)];
      }
    }
    assert findings[..|findings|] == findings;
  }

  // ----- texts -----

  function CategoryText(c: Category): string {
    match c
    case Correctness => "correctness"
    case Security => "security"
    case Performance => "performance"
    case Maintainability => "maintainability"
    case Tests => "tests"
    case Contracts => "contracts"
    case Dependency => "dependency"
  }

  function SeverityText(s: Severity): string {
    match s
    case Info => "info"
    case LowSeverity => "low"
    case MediumSeverity => "medium"
    case HighSeverity => "high"
    case Critical => "critical"
  }

  function StatusText(s: OutcomeStatus): string {
    match s
    case RanOk => "ok"
    case RanZeroFindings => "zero_findings"
    case RanError => "error"
    case RanTimeout => "timeout"
    case RanSkipped => "skipped"
  }

  function IntText(n: int): string {
    if n < 0 then "-" + Decimal(-n) else Decimal(n)
  }

  function CommentBody(f: Finding): string {
    "**[" + CategoryText(f.category) + " \U{B7} " + SeverityText(f.severity) + "]** " + f.title + "\n\n"
    + f.explanation + "\n\n**Impact:** " + f.impact + "\n\n**Recommendation:** " + f.recommendation
  }

  function ToComment(f: Finding): InlineComment {
    var multiline := f.startLine != f.endLine;
    InlineComment(f.path, f.endLine, CommentBody(f), f.diffSide,
                  if multiline then Some(f.startLine) else None, if multiline then Some(f.diffSide) else None)
  }

  function SummaryItem(f: Finding): string {
    "- `" + f.path + ":" + IntText(f.startLine) + "` \U{2014} " + f.title
  }

  function Note(d: Diagnostic): string {
    "- " + d.source + ": " + StatusText(d.status) + " \U{2014} " + d.message
  }

  predicate Degraded(o: AnalyzerOutcome) {
    o.status in {RanError, RanTimeout, RanSkipped}
  }

  function Diagnostics(o: AnalyzerOutcome): seq<Diagnostic> {
    o.diagnostics
  }

  function HeadLines(confirmed: seq<Finding>): (lines: seq<string>)
    ensures lines != []
  {
    ["## Bicho PR Review", ""]
    + [if confirmed != [] then Decimal(|confirmed|) + " confirmed finding(s)." else "No confirmed issues found."]
  }

  function UnanchoredLines(summaryOnly: seq<Finding>): seq<string> {
    if summaryOnly == [] then []
    else ["", "### Findings not anchorable to the diff"] + Map(SummaryItem, summaryOnly)
  }

  function NoteLines(degraded: seq<AnalyzerOutcome>): seq<string> {
    if degraded == [] then []
    else ["", "### Analysis notes"] + Map(Note, Flatten(Map(Diagnostics, degraded)))
  }

  // The lines of the summary before the marker.
  function SummaryLines(confirmed: seq<Finding>, summaryOnly: seq<Finding>, outcomes: seq<AnalyzerOutcome>)
    : (lines: seq<string>)
    ensures lines != []
  {
    HeadLines(confirmed) + UnanchoredLines(summaryOnly) + NoteLines(Filter(Degraded, outcomes))
  }

  method RenderSummary(confirmed: seq<Finding>, summaryOnly: seq<Finding>, outcomes: seq<AnalyzerOutcome>,
                       marker: ReviewMarker)
    returns (summary: string)
    ensures summary == Join("\n", SummaryLines(confirmed, summaryOnly, outcomes) + ["", Render(marker)])
  {
    hide Join, Render, Map, Flatten, Filter;
    var lines := ["## Bicho PR Review", ""];
    lines := lines
      + [if confirmed != [] then Decimal(|confirmed|) + " confirmed finding(s)." else "No confirmed issues found."];
    ghost var head := lines;
    assert head == HeadLines(confirmed);
    if summaryOnly != [] {
      lines := lines + ["", "### Findings not anchorable to the diff"];
      lines := lines + Map(SummaryItem, summaryOnly);
      ConcatAssociates(head, ["", "### Findings not anchorable to the diff"], Map(SummaryItem, summaryOnly));
    }
    ghost var listed := lines;
    assert listed == head + UnanchoredLines(summaryOnly);
    hide HeadLines, UnanchoredLines;
    var degraded := Filter(Degraded, outcomes);
    if degraded != [] {
      var notes := Map(Note, Flatten(Map(Diagnostics, degraded)));
      lines := lines + ["", "### Analysis notes"];
      lines := lines + notes;
      ConcatAssociates(listed, ["", "### Analysis notes"], notes);
    }
    assert lines == listed + NoteLines(degraded);
    lines := lines + ["", Render(marker)];
    summary := Join("\n", lines);
  }

  // ----- the marker -----

  function ModelId(findings: seq<Finding>): string {
    if findings == [] then "none"
    else if findings[0].modelId.Some? then findings[0].modelId.value
    else ModelId(findings[1..])
  }

  method FindModelId(findings: seq<Finding>) returns (id: string)
    ensures id == ModelId(findings)
    ensures
      || (exists k :: 0 <= k < |findings| && findings[k].modelId == Some(id)
                   && forall j :: 0 <= j < k ==> findings[j].modelId.None?)
      || (id == "none" && forall f :: f in findings ==> f.modelId.None?)
  {
    for i := 0 to |findings|
      invariant ModelId(findings) == ModelId(findings[i..])
      invariant forall k :: 0 <= k < i ==> findings[k].modelId.None?
    {
      assert findings[i..][1..] == findings[i + 1..];
      if findings[i].modelId.Some? {
        assert findings[i] in findings;
        return findings[i].modelId.value;
      }
    }
    return "none";
  }

  function RunFingerprint(env: Env, headSha: string): string {
    var hex := env.digest(headSha + UNIT_SEPARATOR + WORKFLOW_VERSION + UNIT_SEPARATOR + PROMPT_VERSION);
    if |hex| <= 12 then hex else hex[..12]
  }

  function MarkerFor(env: Env, headSha: string, confirmed: seq<Finding>): ReviewMarker {
    ReviewMarker(headSha, WORKFLOW_VERSION, RunFingerprint(env, headSha), ModelId(confirmed), PROMPT_VERSION)
  }

  // ----- the draft -----

  predicate IsSevere(f: Finding) {
    f.severity in {HighSeverity, Critical}
  }

  function EventFor(confirmed: seq<Finding>): ReviewEvent {
    if exists f :: f in confirmed && IsSevere(f) then REQUEST_CHANGES else COMMENT
  }

  function ConfirmedFindings(findings: seq<Finding>, diff: NormalizedDiff): seq<Finding> {
    Map(Anchored(diff), Filter(IsConfirmed, findings))
  }

  function ComposeDraft(env: Env, findings: seq<Finding>, diff: NormalizedDiff, headSha: string,
                        outcomes: seq<AnalyzerOutcome>)
    : (draft: ReviewDraft)
    ensures draft.commitId == headSha
  {
    var confirmed := ConfirmedFindings(findings, diff);
    var lines := SummaryLines(confirmed, Filter(PublishInSummary, confirmed), outcomes);
    ReviewDraft(
      Join("\n", lines + ["", Render(MarkerFor(env, headSha, confirmed))]),
      EventFor(confirmed),
      headSha,
      Map(ToComment, Filter(PublishInline, confirmed)))
  }

  method ComposeReview(env: Env, findings: seq<Finding>, diff: NormalizedDiff, headSha: string,
                       outcomes: seq<AnalyzerOutcome>)
    returns (draft: ReviewDraft)
    ensures draft == ComposeDraft(env, findings, diff, headSha, outcomes)
  {
    hide Filter, Map, Join, Render, SummaryLines, EventFor;
    var confirmed := AnchorFindings(Filter(IsConfirmed, findings), diff);
    var modelId := FindModelId(confirmed);
    var marker := ReviewMarker(headSha, WORKFLOW_VERSION, RunFingerprint(env, headSha), modelId, PROMPT_VERSION);
    var summary := RenderSummary(confirmed, Filter(PublishInSummary, confirmed), outcomes, marker);
    draft := ReviewDraft(summary, EventFor(confirmed), headSha, Map(ToComment, Filter(PublishInline, confirmed)));
  }

  // ----- what is published -----

  // Inline comments and summary items together are the confirmed findings, each once.
  lemma DraftPartitions(findings: seq<Finding>, diff: NormalizedDiff)
    ensures var confirmed := ConfirmedFindings(findings, diff);
            multiset(Filter(PublishInline, confirmed)) + multiset(Filter(PublishInSummary, confirmed))
            == multiset(confirmed)
    ensures |ConfirmedFindings(findings, diff)| == |Filter(IsConfirmed, findings)|
    ensures forall c :: c in ConfirmedFindings(findings, diff) ==>
      exists f :: f in findings && IsConfirmed(f) && c == Anchored(diff)(f)
  {
    var kept := Filter(IsConfirmed, findings);
    var confirmed := ConfirmedFindings(findings, diff);
    FilterMembers(IsConfirmed, findings);
    forall c | c in confirmed ensures exists f :: f in findings && IsConfirmed(f) && c == Anchored(diff)(f) {
      var k :| 0 <= k < |confirmed| && confirmed[k] == c;
      assert kept[k] in kept;
    }
    FilterSplits(PublishInline, PublishInSummary, confirmed);
  }

  // The comment covers the finding's lines.
  ghost predicate PlacedAt(c: InlineComment, f: Finding) {
    && c.path == f.path && c.side == f.diffSide && c.line == f.endLine
    && c.startLine == if f.startLine < f.endLine then Some(f.startLine) else None
  }

  // With line ranges as the finding's validators leave them, every inline comment covers a confirmed
  // finding, sits on commentable lines, and its own validator accepts it.
  lemma CommentsAnchor(env: Env, findings: seq<Finding>, diff: NormalizedDiff, headSha: string,
                       outcomes: seq<AnalyzerOutcome>, k: nat)
    requires forall f :: f in findings ==> 1 <= f.startLine <= f.endLine
    requires k < |ComposeDraft(env, findings, diff, headSha, outcomes).inlineComments|
    ensures var c := ComposeDraft(env, findings, diff, headSha, outcomes).inlineComments[k];
            var file := diff.File(c.path);
            && ValidComment(c)
            && (c.startLine.Some? ==> c.startLine.value < c.line && c.startSide == Some(c.side))
            && file.Some?
            && c.line in CommentableSet(file.value.hunks, c.side)
            && (c.startLine.Some? ==> c.startLine.value in CommentableSet(file.value.hunks, c.side))
            && exists f :: f in findings && IsConfirmed(f) && PlacedAt(c, f)
  {
    var confirmed := ConfirmedFindings(findings, diff);
    var inline := Filter(PublishInline, confirmed);
    hide SummaryLines, Join, Render;
    var draft := ComposeDraft(env, findings, diff, headSha, outcomes);
    assert draft.inlineComments == Map(ToComment, inline);
    FilterMembers(PublishInline, confirmed);
    assert inline[k] in confirmed;
    DraftPartitions(findings, diff);
    var f :| f in findings && IsConfirmed(f) && inline[k] == Anchored(diff)(f);
    assert PlacedAt(draft.inlineComments[k], f);
    hide Filter, Map, CommentBody, CommentableSet;
  }

  // A confirmed finding is published inline exactly when its endpoints anchor and it is not held back.
  lemma InlineExactly(findings: seq<Finding>, diff: NormalizedDiff, f: Finding)
    requires f in findings && IsConfirmed(f)
    ensures var a := Anchored(diff)(f);
            && a in ConfirmedFindings(findings, diff)
            && (PublishInline(a) <==> CanAnchor(diff, f.path, f.startLine, f.endLine, f.diffSide) && !f.summaryOnly)
            && (PublishInSummary(a) <==> !PublishInline(a))
  {
    var kept := Filter(IsConfirmed, findings);
    FilterMembers(IsConfirmed, findings);
    var k :| 0 <= k < |kept| && kept[k] == f;
    assert ConfirmedFindings(findings, diff)[k] == Anchored(diff)(f);
  }

  // Changes are requested exactly when a confirmed finding is high or critical.
  lemma EventExactly(env: Env, findings: seq<Finding>, diff: NormalizedDiff, headSha: string,
                     outcomes: seq<AnalyzerOutcome>)
    ensures var event := ComposeDraft(env, findings, diff, headSha, outcomes).event;
            && (event == REQUEST_CHANGES <==>
                exists f :: f in findings && f.state == Confirmed
                         && (f.severity == HighSeverity || f.severity == Critical))
            && event != APPROVE
  {
    var confirmed := ConfirmedFindings(findings, diff);
    hide SummaryLines, Join, Render;
    assert ComposeDraft(env, findings, diff, headSha, outcomes).event == EventFor(confirmed);
    DraftPartitions(findings, diff);
    if f :| f in findings && f.state == Confirmed && IsSevere(f) {
      InlineExactly(findings, diff, f);
      assert Anchored(diff)(f) in confirmed && IsSevere(Anchored(diff)(f));
    }
  }
}
