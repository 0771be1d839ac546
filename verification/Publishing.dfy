/** The publish end of a run: the guards, GitHub's memory of reviews, and when a draft is recognised. */
module Publishing {
  import opened Options
  import opened Seqs
  import opened Text
  import opened Diff
  import opened DiffMapping
  import opened Findings
  import opened Marker
  import opened MarkerLaws
  import opened MarkerReading
  import opened Compose

  datatype ReviewOptions = ReviewOptions(dryRun: bool, force: bool)

  datatype ReviewStatus = DryRun | Completed | Skipped | Stale

  // Who wrote a review: a run of this program (None for a run of an earlier process), or somebody else.
  datatype Author = Bicho(run: Option<nat>, forced: bool) | Other(login: string)

  datatype Review = Review(id: nat, author: Author, commitId: string, body: string)

  // ----- the guards -----

  // The review's marker names this head and this workflow version.
  predicate Reviews(env: Env, body: string, headSha: string) {
    var m := Parse(env.word, body);
    m.Some? && m.value.headSha == headSha && m.value.workflowVersion == WORKFLOW_VERSION
  }

  // The reviews that one listing shows: the oldest ones. The program asks for one listing only.
  function Listed(env: Env, reviews: seq<Review>): (listed: seq<Review>)
    ensures listed <= reviews
    ensures |listed| == if |reviews| <= env.page then |reviews| else env.page
  {
    if |reviews| <= env.page then reviews else reviews[..env.page]
  }

  // A listed review names the head.
  ghost predicate Named(env: Env, reviews: seq<Review>, headSha: string) {
    exists r :: r in Listed(env, reviews) && Reviews(env, r.body, headSha)
  }

  // What the guard decides when GitHub holds these reviews.
  function GuardDecision(env: Env, options: ReviewOptions, headSha: string, reviews: seq<Review>)
    : (decision: Option<ReviewStatus>)
    ensures decision.Some? ==> decision.value == DryRun || decision.value == Skipped
    ensures decision == Some(DryRun) <==> options.dryRun
    ensures decision == Some(Skipped) <==> !options.dryRun && !options.force && Named(env, reviews, headSha)
  {
    if options.dryRun then Some(DryRun)
    else if options.force then None
    else if exists r :: r in Listed(env, reviews) && Reviews(env, r.body, headSha) then Some(Skipped)
    else None
  }

  datatype Node = StaleHeadGuardNode | PublishNode | END

  function RouteAfterIdempotency(decision: Option<ReviewStatus>): Node {
    if decision.Some? then END else StaleHeadGuardNode
  }

  function RouteAfterStale(decision: Option<ReviewStatus>): Node {
    if decision == Some(Stale) then END else PublishNode
  }

  // ----- GitHub -----

  // A pull request on GitHub: its head and the reviews posted so far.
  class GitHub {
    var headSha: string
    var reviews: seq<Review>

    constructor (headSha: string, reviews: seq<Review>)
      ensures this.headSha == headSha && this.reviews == reviews
    {
      this.headSha := headSha;
      this.reviews := reviews;
    }

    method ListReviews(env: Env) returns (listed: seq<Review>)
      ensures listed == Listed(env, reviews)
    {
      listed := if |reviews| <= env.page then reviews else reviews[..env.page];
    }

    method PublishReview(author: Author, draft: ReviewDraft) returns (id: nat)
      modifies this
      ensures headSha == old(headSha)
      ensures id == |old(reviews)|
      ensures reviews == old(reviews) + [Review(id, author, draft.commitId, draft.summary)]
    {
      id := |reviews|;
      reviews := reviews + [Review(id, author, draft.commitId, draft.summary)];
    }

    // A commit is pushed to the pull request.
    method Push(newHead: string)
      modifies this
      ensures headSha == newHead && reviews == old(reviews)
    {
      headSha := newHead;
    }
  }

  // ----- the nodes -----

  method IdempotencyGuard(env: Env, options: ReviewOptions, headSha: string, github: GitHub)
    returns (decision: Option<ReviewStatus>)
    ensures decision == GuardDecision(env, options, headSha, github.reviews)
  {
    hide Parse;
    if options.dryRun {
      return Some(DryRun);
    }
    if options.force {
      return None;
    }
    var reviews := github.ListReviews(env);
    for i := 0 to |reviews|
      invariant forall k :: 0 <= k < i ==> !Reviews(env, reviews[k].body, headSha)
    {
      var marker := Parse(env.word, reviews[i].body);
      if marker.Some? && marker.value.headSha == headSha && marker.value.workflowVersion == WORKFLOW_VERSION {
        assert Reviews(env, reviews[i].body, headSha);
        return Some(Skipped);
      }
    }
    return None;
  }

  method StaleHeadGuard(analyzed: string, github: GitHub) returns (decision: Option<ReviewStatus>)
    ensures decision == if github.headSha != analyzed then Some(Stale) else None
  {
    if github.headSha != analyzed {
      return Some(Stale);
    }
    return None;
  }

  // The tail of a run, from the composed draft to its decision, with `push` the commit that may land
  // while the guards run.
  method PublishTail(env: Env, options: ReviewOptions, run: nat, draft: ReviewDraft, push: Option<string>,
                     github: GitHub)
    returns (status: ReviewStatus, reviewId: Option<nat>)
    modifies github
    ensures github.headSha == if push.Some? then push.value else old(github.headSha)
    ensures status == TailStatus(env, options, draft.commitId, old(github.reviews), github.headSha)
    ensures reviewId == if status == Completed then Some(|old(github.reviews)|) else None
    ensures github.reviews == old(github.reviews)
      + if status == Completed
        then [Review(|old(github.reviews)|, Bicho(Some(run), options.force), draft.commitId, draft.summary)] else []
  {
    var decision := IdempotencyGuard(env, options, draft.commitId, github);
    if push.Some? {
      github.Push(push.value);
    }
    if RouteAfterIdempotency(decision) == END {
      return decision.value, None;
    }
    decision := StaleHeadGuard(draft.commitId, github);
    if RouteAfterStale(decision) == END {
      return Stale, None;
    }
    var id := github.PublishReview(Bicho(Some(run), options.force), draft);
    return Completed, Some(id);
  }

  // How a run that analyzed `headSha` ends: it publishes only a live run of a head that is still
  // current and, unless forced, not reviewed yet.
  function TailStatus(env: Env, options: ReviewOptions, headSha: string, reviews: seq<Review>, current: string)
    : (status: ReviewStatus)
    ensures status == Completed <==>
      && !options.dryRun && current == headSha
      && (options.force || !Named(env, reviews, headSha))
    ensures status == Skipped <==> !options.dryRun && !options.force && Named(env, reviews, headSha)
    ensures status == DryRun <==> options.dryRun
    ensures status == Stale ==> current != headSha
  {
    match GuardDecision(env, options, headSha, reviews)
    case Some(s) => s
    case None => if current != headSha then Stale else Completed
  }

  // ----- recognising a published draft -----

  // Digests are hexadecimal.
  ghost predicate HexDigest(env: Env) {
    forall s: string :: forall c :: c in env.digest(s) ==> '0' <= c <= '9' || 'a' <= c <= 'f'
  }

  // The summary text before the marker.
  function Preamble(confirmed: seq<Finding>, outcomes: seq<AnalyzerOutcome>): string {
    Join("\n", SummaryLines(confirmed, Filter(PublishInSummary, confirmed), outcomes)) + "\n\n"
  }

  lemma JoinTwoMore(lines: seq<string>, last: string)
    requires lines != []
    ensures Join("\n", lines + ["", last]) == Join("\n", lines) + "\n\n" + last
  {
    JoinConcat("\n", lines, ["", last]);
    assert ["", last][1..] == [last];
    assert Join("\n", ["", last]) == "\n" + last;
    var text := Join("\n", lines);
    ConcatAssociates(text, "\n", "\n" + last);
    ConcatAssociates(text, "\n\n", last);
    assert "\n" + ("\n" + last) == "\n\n" + last;
  }

  lemma SummaryShape(env: Env, findings: seq<Finding>, diff: NormalizedDiff, headSha: string,
                     outcomes: seq<AnalyzerOutcome>)
    ensures var confirmed := ConfirmedFindings(findings, diff);
            ComposeDraft(env, findings, diff, headSha, outcomes).summary
            == Preamble(confirmed, outcomes) + Render(MarkerFor(env, headSha, confirmed))
  {
    var confirmed := ConfirmedFindings(findings, diff);
    hide Join, Render, SummaryLines, ConfirmedFindings, EventFor, MarkerFor, Filter, Map;
    JoinTwoMore(SummaryLines(confirmed, Filter(PublishInSummary, confirmed), outcomes),
                Render(MarkerFor(env, headSha, confirmed)));
  }

  lemma EarlyFieldsAreSafe(env: Env, headSha: string, confirmed: seq<Finding>)
    requires HexDigest(env) && SafeField(headSha)
    ensures SafeEarly(MarkerFor(env, headSha, confirmed)) && SafeField(PROMPT_VERSION)
  {
    var fingerprint := RunFingerprint(env, headSha);
    var hex := env.digest(headSha + UNIT_SEPARATOR + WORKFLOW_VERSION + UNIT_SEPARATOR + PROMPT_VERSION);
    assert forall c :: c in fingerprint ==> c in hex;
    assert forall c :: c in fingerprint ==> '0' <= c <= '9' || 'a' <= c <= 'f';
    hide RunFingerprint, ModelId;
    NoAngleNoClose(fingerprint);
    NoAngleNoClose(WORKFLOW_VERSION);
    NoAngleNoClose(PROMPT_VERSION);
  }

  // A published summary reads back as the complete marker block in the text before its marker, if there
  // is one, and otherwise as its own marker exactly when the model id has no whitespace and no "-->".
  lemma DraftReadsBack(env: Env, findings: seq<Finding>, diff: NormalizedDiff, headSha: string,
                       outcomes: seq<AnalyzerOutcome>)
    requires HexDigest(env) && SafeField(headSha)
    ensures var confirmed := ConfirmedFindings(findings, diff);
            var preamble := Preamble(confirmed, outcomes);
            var read := Parse(env.word, ComposeDraft(env, findings, diff, headSha, outcomes).summary);
            && (Search(preamble).Some? ==> read == Parse(env.word, preamble))
            && (Search(preamble).None? ==>
                  (read == Some(MarkerFor(env, headSha, confirmed)) <==> SafeField(ModelId(confirmed))))
  {
    var confirmed := ConfirmedFindings(findings, diff);
    SummaryShape(env, findings, diff, headSha, outcomes);
    EarlyFieldsAreSafe(env, headSha, confirmed);
    var preamble, m := Preamble(confirmed, outcomes), MarkerFor(env, headSha, confirmed);
    assert m.modelId == ModelId(confirmed) && m.promptVersion == PROMPT_VERSION;
    hide ComposeDraft, Preamble, MarkerFor, Render, Parse, Search, ConfirmedFindings, SafeField, ModelId;
    assert preamble + Render(m) + "" == preamble + Render(m);
    if Search(preamble).Some? {
      EarlierBlock(env.word, preamble, m, "");
    } else {
      RoundTripInBody(env.word, preamble, m, "");
    }
  }

  // The text before the marker holds no marker block and the model id keeps the head, or it holds a
  // block that names the same head and workflow version.
  ghost predicate Recognisable(env: Env, confirmed: seq<Finding>, outcomes: seq<AnalyzerOutcome>, headSha: string) {
    var preamble := Preamble(confirmed, outcomes);
    if Search(preamble).Some? then Reviews(env, preamble, headSha)
    else KeepsHead(env.word, preamble, MarkerFor(env, headSha, confirmed))
  }

  // The guard recognises a published draft exactly when it is recognisable, whatever its model id.
  lemma DraftRecognised(env: Env, findings: seq<Finding>, diff: NormalizedDiff, headSha: string,
                        outcomes: seq<AnalyzerOutcome>)
    requires HexDigest(env) && SafeField(headSha)
    ensures Reviews(env, ComposeDraft(env, findings, diff, headSha, outcomes).summary, headSha)
       <==> Recognisable(env, ConfirmedFindings(findings, diff), outcomes, headSha)
  {
    var confirmed := ConfirmedFindings(findings, diff);
    SummaryShape(env, findings, diff, headSha, outcomes);
    EarlyFieldsAreSafe(env, headSha, confirmed);
    var preamble, m := Preamble(confirmed, outcomes), MarkerFor(env, headSha, confirmed);
    assert m.headSha == headSha && m.workflowVersion == WORKFLOW_VERSION;
    hide ComposeDraft, Preamble, MarkerFor, Render, Parse, Search, ConfirmedFindings, KeepsHead, SafeField;
    assert preamble + Render(m) + "" == preamble + Render(m);
    if Search(preamble).Some? {
      EarlierBlock(env.word, preamble, m, "");
    } else {
      HeadReadBack(env.word, preamble, m, "");
    }
  }

  // With a plain model id only a marker block in the text before can hide the marker.
  lemma PlainModelRecognisable(env: Env, confirmed: seq<Finding>, outcomes: seq<AnalyzerOutcome>, headSha: string)
    requires PlainModel(ModelId(confirmed))
    ensures var preamble := Preamble(confirmed, outcomes);
            Recognisable(env, confirmed, outcomes, headSha)
            <==> Search(preamble).None? || Reviews(env, preamble, headSha)
  {
    var m := MarkerFor(env, headSha, confirmed);
    assert SafeField(m.promptVersion) by { NoAngleNoClose(PROMPT_VERSION); }
    assert m.modelId == ModelId(confirmed);
    hide Preamble, Reviews, Search, KeepsHead, MarkerFor, ModelId, PlainModel, SafeField;
    PlainModelKeepsHead(env.word, Preamble(confirmed, outcomes), m);
  }

  // ----- texts that keep the marker visible, and one that hides it -----

  lemma DecimalNoAngle(n: int)
    ensures '<' !in IntText(n)
  {
  }

  lemma ItemNoAngle(f: Finding)
    requires '<' !in f.path && '<' !in f.title
    ensures '<' !in SummaryItem(f)
  {
    DecimalNoAngle(f.startLine);
    hide IntText;
  }

  lemma NoteNoAngle(d: Diagnostic)
    requires '<' !in d.source && '<' !in d.message
    ensures '<' !in Note(d)
  {
    assert '<' !in StatusText(d.status);
    hide StatusText;
  }

  lemma LinesNoAngle(items: seq<Finding>, notes: seq<Diagnostic>)
    requires forall f :: f in items ==> '<' !in f.path && '<' !in f.title
    requires forall d :: d in notes ==> '<' !in d.source && '<' !in d.message
    ensures forall l :: l in Map(SummaryItem, items) + Map(Note, notes) ==> '<' !in l
  {
    hide SummaryItem, Note;
    var itemLines, noteLines := Map(SummaryItem, items), Map(Note, notes);
    forall k | 0 <= k < |items| ensures '<' !in itemLines[k] {
      assert items[k] in items;
      ItemNoAngle(items[k]);
    }
    forall k | 0 <= k < |notes| ensures '<' !in noteLines[k] {
      assert notes[k] in notes;
      NoteNoAngle(notes[k]);
    }
  }

  lemma {:induction false} FlattenMembers<T>(ss: seq<seq<T>>)
    ensures forall x :: x in Flatten(ss) ==> exists s :: s in ss && x in s
  {
    if ss != [] {
      FlattenMembers(ss[1..]);
      forall x | x in Flatten(ss) ensures exists s :: s in ss && x in s {
        assert Flatten(ss) == ss[0] + Flatten(ss[1..]);
        if x in ss[0] {
          assert ss[0] in ss;
        } else {
          assert x in Flatten(ss[1..]);
          var s :| s in ss[1..] && x in s;
          assert s in ss;
        }
      }
    }
  }

  // No text that goes into the summary holds a '<'.
  ghost predicate PlainTexts(findings: seq<Finding>, outcomes: seq<AnalyzerOutcome>) {
    && (forall f :: f in findings ==> '<' !in f.path && '<' !in f.title)
    && (forall o :: o in outcomes ==> forall d :: d in o.diagnostics ==> '<' !in d.source && '<' !in d.message)
  }

  lemma DegradedNotes(outcomes: seq<AnalyzerOutcome>)
    requires forall o :: o in outcomes ==> forall d :: d in o.diagnostics ==> '<' !in d.source && '<' !in d.message
    ensures forall d :: d in Flatten(Map(Diagnostics, Filter(Degraded, outcomes))) ==>
      '<' !in d.source && '<' !in d.message
  {
    var degraded := Filter(Degraded, outcomes);
    FilterMembers(Degraded, outcomes);
    var lists := Map(Diagnostics, degraded);
    FlattenMembers(lists);
    forall d: Diagnostic | d in Flatten(lists) ensures '<' !in d.source && '<' !in d.message {
      var s :| s in lists && d in s;
      var k :| 0 <= k < |lists| && lists[k] == s;
      assert degraded[k] in degraded;
    }
  }

  // Plain texts keep the marker visible.
  lemma PlainTextsHideNothing(findings: seq<Finding>, diff: NormalizedDiff, outcomes: seq<AnalyzerOutcome>)
    requires PlainTexts(findings, outcomes)
    ensures Search(Preamble(ConfirmedFindings(findings, diff), outcomes)).None?
  {
    var confirmed := ConfirmedFindings(findings, diff);
    DraftPartitions(findings, diff);
    var items := Filter(PublishInSummary, confirmed);
    FilterMembers(PublishInSummary, confirmed);
    forall f | f in items ensures '<' !in f.path && '<' !in f.title {
      assert f in confirmed;
    }
    DegradedNotes(outcomes);
    var degraded := Filter(Degraded, outcomes);
    LinesNoAngle(items, Flatten(Map(Diagnostics, degraded)));
    hide Filter, ConfirmedFindings;
    SummaryNoAngle(confirmed, items, degraded);
    JoinAvoids("\n", HeadLines(confirmed) + UnanchoredLines(items) + NoteLines(degraded), '<');
    NoAngleNoBlock(Preamble(confirmed, outcomes));
  }

  ghost predicate NoAngles(lines: seq<string>) {
    forall l :: l in lines ==> '<' !in l
  }

  lemma NoAnglesConcat(a: seq<string>, b: seq<string>)
    ensures NoAngles(a + b) <==> NoAngles(a) && NoAngles(b)
  {
    assert forall l :: l in a ==> l in a + b;
    assert forall l :: l in b ==> l in a + b;
  }

  lemma HeadNoAngle(confirmed: seq<Finding>)
    ensures NoAngles(HeadLines(confirmed))
  {
    DecimalNoAngle(|confirmed|);
    hide Decimal;
    var second := if confirmed != [] then Decimal(|confirmed|) + " confirmed finding(s)."
                  else "No confirmed issues found.";
    assert '<' !in second;
    assert HeadLines(confirmed) == ["## Bicho PR Review", "", second];
  }

  lemma SectionNoAngle(title: string, lines: seq<string>)
    requires '<' !in title && NoAngles(lines)
    ensures NoAngles(["", title] + lines)
  {
    assert NoAngles(["", title]);
    hide NoAngles;
    NoAnglesConcat(["", title], lines);
  }

  lemma SectionTitles()
    ensures '<' !in "### Findings not anchorable to the diff" && '<' !in "### Analysis notes"
  {
  }

  lemma UnanchoredNoAngle(items: seq<Finding>)
    requires NoAngles(Map(SummaryItem, items))
    ensures NoAngles(UnanchoredLines(items))
  {
    SectionTitles();
    if items == [] {
      assert UnanchoredLines(items) == [];
    } else {
      var title := "### Findings not anchorable to the diff";
      assert UnanchoredLines(items) == ["", title] + Map(SummaryItem, items);
      hide Map, NoAngles, SummaryItem, UnanchoredLines;
      SectionNoAngle(title, Map(SummaryItem, items));
    }
  }

  lemma NoteLinesNoAngle(degraded: seq<AnalyzerOutcome>)
    requires NoAngles(Map(Note, Flatten(Map(Diagnostics, degraded))))
    ensures NoAngles(NoteLines(degraded))
  {
    assert NoAngles([]);
    hide Map, Flatten, NoAngles, Note;
    var title := "### Analysis notes";
    assert '<' !in title;
    SectionNoAngle(title, Map(Note, Flatten(Map(Diagnostics, degraded))));
  }

  lemma SummaryNoAngle(confirmed: seq<Finding>, items: seq<Finding>, degraded: seq<AnalyzerOutcome>)
    requires NoAngles(Map(SummaryItem, items) + Map(Note, Flatten(Map(Diagnostics, degraded))))
    ensures NoAngles(HeadLines(confirmed) + UnanchoredLines(items) + NoteLines(degraded))
  {
    hide Map, Flatten, NoAngles, HeadLines, UnanchoredLines, NoteLines;
    NoAnglesConcat(Map(SummaryItem, items), Map(Note, Flatten(Map(Diagnostics, degraded))));
    HeadNoAngle(confirmed);
    UnanchoredNoAngle(items);
    NoteLinesNoAngle(degraded);
    NoAnglesConcat(HeadLines(confirmed), UnanchoredLines(items));
    NoAnglesConcat(HeadLines(confirmed) + UnanchoredLines(items), NoteLines(degraded));
  }

  // A marker block without fields, which a finding's title may hold.
  const HIDING_TITLE := HEAD + ("x" + (" " + CLOSE))

  lemma HidingBlock(word: char -> bool, before: string, after: string)
    requires '<' !in before
    ensures Search(before + (HIDING_TITLE + after)) == Some("x")
    ensures Parse(word, before + (HIDING_TITLE + after)).None?
  {
    var block := HEAD + ("x" + (" " + (CLOSE + after)));
    TitlePieces(HEAD, "x", " ", CLOSE, after);
    assert Begins("x");
    NoAngleNoClose("x");
    assert Shown("x") == "x";
    OwnBlock("x", after);
    assert block != "" by { assert |HEAD| > 0; }
    SearchSkips(before, block);
    NoPairs(word, "x");
    hide Search, BlockAt, FieldPairs;
    assert DictOf([]) == map[];
    assert "head_sha" !in DictOf([]);
  }

  lemma TitlePieces(a: string, b: string, c: string, d: string, e: string)
    ensures a + (b + (c + d)) + e == a + (b + (c + (d + e)))
  {
  }

  // The summary item of a finding is its place, without '<' if the path has none, and its title.
  lemma ItemIs(f: Finding) returns (lead: string)
    requires '<' !in f.path
    ensures '<' !in lead && SummaryItem(f) == lead + f.title
  {
    lead := "- `" + f.path + ":" + IntText(f.startLine) + "` \U{2014} ";
    DecimalNoAngle(f.startLine);
    hide IntText;
  }

  lemma LoneSummary(f: Finding)
    requires PublishInSummary(f)
    ensures SummaryLines([f], Filter(PublishInSummary, [f]), [])
         == HeadLines([f]) + ["", "### Findings not anchorable to the diff"] + [SummaryItem(f)]
  {
    var none: seq<AnalyzerOutcome> := [];
    assert Filter(Degraded, none) == none;
    assert Filter(PublishInSummary, [f]) == [f];
    assert Map(SummaryItem, [f]) == [SummaryItem(f)];
    assert NoteLines(none) == [];
    hide HeadLines, Filter, Map, SummaryItem;
    ConcatAssociates(HeadLines([f]), ["", "### Findings not anchorable to the diff"], [SummaryItem(f)]);
  }

  lemma LoneHeadNoAngle(f: Finding)
    ensures NoAngles(HeadLines([f]) + ["", "### Findings not anchorable to the diff"])
  {
    HeadNoAngle([f]);
    SectionTitles();
    assert NoAngles(["", "### Findings not anchorable to the diff"]);
    hide HeadLines, NoAngles;
    NoAnglesConcat(HeadLines([f]), ["", "### Findings not anchorable to the diff"]);
  }

  lemma HidingPreamble(f: Finding) returns (before: string)
    requires IsConfirmed(f) && !f.canPublishInline && f.title == HIDING_TITLE && '<' !in f.path
    ensures '<' !in before && Preamble([f], []) == before + (HIDING_TITLE + "\n\n")
  {
    var lead := ItemIs(f);
    LoneSummary(f);
    LoneHeadNoAngle(f);
    var lines, item := HeadLines([f]) + ["", "### Findings not anchorable to the diff"], SummaryItem(f);
    assert forall l :: l in lines ==> '<' !in l;
    assert Join("\n", [item]) == item;
    hide HeadLines, Filter, SummaryLines, SummaryItem, NoAngles;
    JoinConcat("\n", lines, [item]);
    JoinAvoids("\n", lines, '<');
    hide Join;
    before := Join("\n", lines) + "\n" + lead;
    RegroupPreamble(Join("\n", lines), lead, HIDING_TITLE);
  }

  lemma RegroupPreamble(text: string, lead: string, title: string)
    ensures text + "\n" + (lead + title) + "\n\n" == text + "\n" + lead + (title + "\n\n")
  {
  }

  // Such a title on a finding that the diff does not anchor hides the review from every later run.
  lemma TitleHidesReview(env: Env, f: Finding, diff: NormalizedDiff, headSha: string)
    requires HexDigest(env) && SafeField(headSha)
    requires IsConfirmed(f) && f.title == HIDING_TITLE && '<' !in f.path
    requires !CanAnchor(diff, f.path, f.startLine, f.endLine, f.diffSide)
    ensures !Reviews(env, ComposeDraft(env, [f], diff, headSha, []).summary, headSha)
  {
    var a := Anchored(diff)(f);
    assert Filter(IsConfirmed, [f]) == [f];
    assert ConfirmedFindings([f], diff) == [a];
    hide CanAnchor, ConfirmedFindings, Preamble, ComposeDraft, Until, KeepsHead;
    var before := HidingPreamble(a);
    HidingBlock(env.word, before, "\n\n");
    DraftRecognised(env, [f], diff, headSha, []);
  }

  // The guard does not compare prompt versions: a head reviewed under any other prompt is skipped.
  lemma PromptVersionIgnored(env: Env, m: ReviewMarker, prefix: string, suffix: string, earlier: seq<Review>)
    requires Safe(m) && m.workflowVersion == WORKFLOW_VERSION && Search(prefix).None?
    requires exists r :: r in Listed(env, earlier) && r.body == prefix + Render(m) + suffix
    ensures GuardDecision(env, ReviewOptions(false, false), m.headSha, earlier) == Some(Skipped)
  {
    ParseInBody(env.word, prefix, m, suffix);
    hide Parse, Render, Search, Safe;
    var r :| r in Listed(env, earlier) && r.body == prefix + Render(m) + suffix;
    assert Reviews(env, r.body, m.headSha);
  }
}
