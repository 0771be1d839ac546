/** What a draft says: which findings it comments on and where, and what its summary names. */
module DraftLaws {
  import opened Options
  import opened Seqs
  import opened Text
  import opened Diff
  import opened DiffMapping
  import opened Findings
  import opened Marker
  import opened Compose
  import opened Publishing

  // ----- inline comments -----

  // A path, a side, the first line if there is more than one, and the last line.
  datatype Place = Place(path: string, side: DiffSide, start: Option<int>, end: int)

  function PlaceOf(c: InlineComment): Place {
    Place(c.path, c.side, c.startLine, c.line)
  }

  // The places of the confirmed findings that anchor and are not held back, in order.
  function AnchoredPlaces(findings: seq<Finding>, diff: NormalizedDiff): seq<Place> {
    if findings == [] then []
    else
      var f, rest := findings[0], AnchoredPlaces(findings[1..], diff);
      if f.state == Confirmed && CanAnchor(diff, f.path, f.startLine, f.endLine, f.diffSide) && !f.summaryOnly then
        [Place(f.path, f.diffSide, if f.startLine == f.endLine then None else Some(f.startLine), f.endLine)] + rest
      else rest
  }

  function Comments(findings: seq<Finding>, diff: NormalizedDiff): seq<InlineComment> {
    Map(ToComment, Filter(PublishInline, ConfirmedFindings(findings, diff)))
  }

  lemma FirstComment(f: Finding, rest: seq<Finding>, diff: NormalizedDiff)
    ensures Comments([f] + rest, diff)
         == (if IsConfirmed(f) && PublishInline(Anchored(diff)(f)) then [ToComment(Anchored(diff)(f))] else [])
            + Comments(rest, diff)
  {
    hide CanAnchor, CommentBody;
    assert ([f] + rest)[1..] == rest;
    FilterConcat(IsConfirmed, [f], rest);
    assert Filter(IsConfirmed, [f]) == if IsConfirmed(f) then [f] else [];
    MapConcat(Anchored(diff), Filter(IsConfirmed, [f]), Filter(IsConfirmed, rest));
    var first := Map(Anchored(diff), Filter(IsConfirmed, [f]));
    assert first == if IsConfirmed(f) then [Anchored(diff)(f)] else [];
    FilterConcat(PublishInline, first, ConfirmedFindings(rest, diff));
    var kept := Filter(PublishInline, first);
    assert kept == if IsConfirmed(f) && PublishInline(Anchored(diff)(f)) then [Anchored(diff)(f)] else [];
    MapConcat(ToComment, kept, Filter(PublishInline, ConfirmedFindings(rest, diff)));
    hide Filter, Map, ToComment;
    assert Map(ToComment, kept) == if kept == [] then [] else [ToComment(Anchored(diff)(f))];
  }

  lemma {:induction false} CommentPlaces(findings: seq<Finding>, diff: NormalizedDiff)
    ensures Map(PlaceOf, Comments(findings, diff)) == AnchoredPlaces(findings, diff)
  {
    if findings != [] {
      var f, rest := findings[0], findings[1..];
      assert findings == [f] + rest;
      CommentPlaces(rest, diff);
      FirstComment(f, rest, diff);
      var a := Anchored(diff)(f);
      var first := if IsConfirmed(f) && PublishInline(a) then [ToComment(a)] else [];
      assert Map(PlaceOf, first) == if first == [] then [] else [PlaceOf(ToComment(a))];
      hide Map, Filter, Comments, CommentBody, CanAnchor;
      MapConcat(PlaceOf, first, Comments(rest, diff));
    } else {
      assert ConfirmedFindings([], diff) == [];
    }
  }

  // The draft comments on every confirmed finding that anchors and is not held back, at its place, once,
  // in order, and on nothing else.
  lemma DraftComments(env: Env, findings: seq<Finding>, diff: NormalizedDiff, headSha: string,
                      outcomes: seq<AnalyzerOutcome>)
    ensures Map(PlaceOf, ComposeDraft(env, findings, diff, headSha, outcomes).inlineComments)
         == AnchoredPlaces(findings, diff)
  {
    hide SummaryLines, Render, EventFor, Map, Filter, AnchoredPlaces;
    CommentPlaces(findings, diff);
  }

  // ----- the summary -----

  // The text holds the part.
  ghost predicate Occurs(part: string, text: string) {
    exists before, after :: text == before + part + after
  }

  lemma OccursInside(part: string, text: string, before: string, after: string)
    requires Occurs(part, text)
    ensures Occurs(part, before + text + after)
  {
    var a, b :| text == a + part + b;
    assert before + text + after == (before + a) + part + (b + after);
  }

  lemma {:induction false} OccursInJoin(sep: string, parts: seq<string>, k: nat)
    requires k < |parts|
    ensures Occurs(parts[k], Join(sep, parts))
  {
    if |parts| == 1 {
      assert Join(sep, parts) == "" + parts[0] + "";
    } else if k == 0 {
      var later := sep + Join(sep, parts[1..]);
      assert Join(sep, parts) == "" + parts[0] + later;
    } else {
      OccursInJoin(sep, parts[1..], k - 1);
      OccursInside(parts[k], Join(sep, parts[1..]), parts[0] + sep, "");
      assert Join(sep, parts) == parts[0] + sep + Join(sep, parts[1..]) + "";
    }
  }

  // A part of a line of the summary occurs in the summary.
  lemma OccursInSummary(env: Env, findings: seq<Finding>, diff: NormalizedDiff, headSha: string,
                        outcomes: seq<AnalyzerOutcome>, line: string, part: string)
    requires var confirmed := ConfirmedFindings(findings, diff);
             line in SummaryLines(confirmed, Filter(PublishInSummary, confirmed), outcomes)
    requires Occurs(part, line)
    ensures Occurs(part, ComposeDraft(env, findings, diff, headSha, outcomes).summary)
  {
    var confirmed := ConfirmedFindings(findings, diff);
    var lines := SummaryLines(confirmed, Filter(PublishInSummary, confirmed), outcomes);
    var marker := Render(MarkerFor(env, headSha, confirmed));
    SummaryShape(env, findings, diff, headSha, outcomes);
    hide SummaryLines, Render, MarkerFor, ConfirmedFindings, ComposeDraft, Occurs, Filter, Join;
    var k :| 0 <= k < |lines| && lines[k] == line;
    OccursInJoin("\n", lines, k);
    OccursThrough(part, line, Join("\n", lines));
    OccursInside(part, Join("\n", lines), "", "\n\n" + marker);
    assert "" + Join("\n", lines) + ("\n\n" + marker) == Join("\n", lines) + "\n\n" + marker;
  }

  lemma OccursThrough(part: string, line: string, text: string)
    requires Occurs(part, line) && Occurs(line, text)
    ensures Occurs(part, text)
  {
    var before, after :| text == before + line + after;
    OccursInside(part, line, before, after);
  }

  lemma ItemSays(f: Finding)
    ensures Occurs(f.title, SummaryItem(f)) && Occurs(f.path + ":" + IntText(f.startLine), SummaryItem(f))
  {
    hide IntText;
    var place := f.path + ":" + IntText(f.startLine);
    assert SummaryItem(f) == "- `" + place + ("` \U{2014} " + f.title);
    assert SummaryItem(f) == ("- `" + place + "` \U{2014} ") + f.title + "";
  }

  lemma NoteSays(d: Diagnostic)
    ensures Occurs(d.source, Note(d)) && Occurs(d.message, Note(d))
  {
    var status := StatusText(d.status);
    hide StatusText;
    assert Note(d) == "- " + d.source + (": " + status + " \U{2014} " + d.message);
    assert Note(d) == ("- " + d.source + ": " + status + " \U{2014} ") + d.message + "";
  }

  lemma ItemIsListed(findings: seq<Finding>, diff: NormalizedDiff, outcomes: seq<AnalyzerOutcome>, f: Finding)
    requires f in findings && f.state == Confirmed
    requires f.summaryOnly || !CanAnchor(diff, f.path, f.startLine, f.endLine, f.diffSide)
    ensures var confirmed := ConfirmedFindings(findings, diff);
            SummaryItem(f) in SummaryLines(confirmed, Filter(PublishInSummary, confirmed), outcomes)
  {
    var confirmed := ConfirmedFindings(findings, diff);
    var items := Filter(PublishInSummary, confirmed);
    var a := Anchored(diff)(f);
    InlineExactly(findings, diff, f);
    FilterMembers(PublishInSummary, confirmed);
    assert a in items && SummaryItem(a) == SummaryItem(f);
    hide ConfirmedFindings, Filter, SummaryItem, CanAnchor, HeadLines, NoteLines;
    var k :| 0 <= k < |items| && items[k] == a;
    assert Map(SummaryItem, items)[k] in UnanchoredLines(items);
  }

  // The summary names the title and the place of every confirmed finding that is not commented on inline.
  lemma SummaryNames(env: Env, findings: seq<Finding>, diff: NormalizedDiff, headSha: string,
                     outcomes: seq<AnalyzerOutcome>, f: Finding)
    requires f in findings && f.state == Confirmed
    requires f.summaryOnly || !CanAnchor(diff, f.path, f.startLine, f.endLine, f.diffSide)
    ensures var summary := ComposeDraft(env, findings, diff, headSha, outcomes).summary;
            Occurs(f.title, summary) && Occurs(f.path + ":" + IntText(f.startLine), summary)
  {
    ItemIsListed(findings, diff, outcomes, f);
    ItemSays(f);
    hide ConfirmedFindings, Filter, SummaryItem, SummaryLines, ComposeDraft, Occurs, CanAnchor, IntText;
    OccursInSummary(env, findings, diff, headSha, outcomes, SummaryItem(f), f.title);
    OccursInSummary(env, findings, diff, headSha, outcomes, SummaryItem(f), f.path + ":" + IntText(f.startLine));
  }

  lemma {:induction false} FlattenHas<T>(ss: seq<seq<T>>, s: seq<T>, x: T)
    requires s in ss && x in s
    ensures x in Flatten(ss)
  {
    if s != ss[0] {
      FlattenHas(ss[1..], s, x);
    }
  }

  lemma NoteIsListed(confirmed: seq<Finding>, items: seq<Finding>, outcomes: seq<AnalyzerOutcome>,
                     o: AnalyzerOutcome, d: Diagnostic)
    requires o in outcomes && d in o.diagnostics
    requires o.status == RanError || o.status == RanTimeout || o.status == RanSkipped
    ensures Note(d) in SummaryLines(confirmed, items, outcomes)
  {
    var degraded := Filter(Degraded, outcomes);
    FilterMembers(Degraded, outcomes);
    assert o in degraded;
    var k :| 0 <= k < |degraded| && degraded[k] == o;
    var lists := Map(Diagnostics, degraded);
    assert lists[k] == o.diagnostics && lists[k] in lists;
    FlattenHas(lists, o.diagnostics, d);
    var all := Flatten(lists);
    hide Filter, Flatten, Note, HeadLines, UnanchoredLines;
    var l :| 0 <= l < |all| && all[l] == d;
    assert Map(Note, all)[l] in NoteLines(degraded);
  }

  // The summary passes on every note of an analyzer that failed, timed out or was skipped.
  lemma SummaryNotes(env: Env, findings: seq<Finding>, diff: NormalizedDiff, headSha: string,
                     outcomes: seq<AnalyzerOutcome>, o: AnalyzerOutcome, d: Diagnostic)
    requires o in outcomes && d in o.diagnostics
    requires o.status == RanError || o.status == RanTimeout || o.status == RanSkipped
    ensures var summary := ComposeDraft(env, findings, diff, headSha, outcomes).summary;
            Occurs(d.source, summary) && Occurs(d.message, summary)
  {
    var confirmed := ConfirmedFindings(findings, diff);
    NoteIsListed(confirmed, Filter(PublishInSummary, confirmed), outcomes, o, d);
    NoteSays(d);
    hide ConfirmedFindings, Filter, Note, SummaryLines, ComposeDraft, Occurs;
    OccursInSummary(env, findings, diff, headSha, outcomes, Note(d), d.source);
    OccursInSummary(env, findings, diff, headSha, outcomes, Note(d), d.message);
  }

  // ----- nothing else is listed -----

  // How many findings are confirmed but not commented on inline.
  function Unanchored(findings: seq<Finding>, diff: NormalizedDiff): nat {
    if findings == [] then 0
    else
      var f := findings[0];
      (if f.state == Confirmed
          && (f.summaryOnly || !CanAnchor(diff, f.path, f.startLine, f.endLine, f.diffSide)) then 1 else 0)
      + Unanchored(findings[1..], diff)
  }

  // How many notes the degraded analyzers left.
  function NoteCount(outcomes: seq<AnalyzerOutcome>): nat {
    if outcomes == [] then 0
    else
      var o := outcomes[0];
      (if o.status == RanOk || o.status == RanZeroFindings then 0 else |o.diagnostics|) + NoteCount(outcomes[1..])
  }

  lemma {:induction false} UnanchoredCounted(findings: seq<Finding>, diff: NormalizedDiff)
    ensures |Filter(PublishInSummary, ConfirmedFindings(findings, diff))| == Unanchored(findings, diff)
  {
    if findings != [] {
      var f, rest := findings[0], findings[1..];
      UnanchoredCounted(rest, diff);
      var first := if IsConfirmed(f) then [Anchored(diff)(f)] else [];
      assert ConfirmedFindings(findings, diff) == first + ConfirmedFindings(rest, diff) by {
        assert findings == [f] + rest;
        FilterConcat(IsConfirmed, [f], rest);
        assert Filter(IsConfirmed, [f]) == if IsConfirmed(f) then [f] else [];
        MapConcat(Anchored(diff), Filter(IsConfirmed, [f]), Filter(IsConfirmed, rest));
        assert Map(Anchored(diff), Filter(IsConfirmed, [f])) == first;
        hide CanAnchor, Filter, Map;
      }
      FilterConcat(PublishInSummary, first, ConfirmedFindings(rest, diff));
      assert |Filter(PublishInSummary, first)|
          == if IsConfirmed(f) && PublishInSummary(Anchored(diff)(f)) then 1 else 0;
      hide Filter, Map, ConfirmedFindings, CanAnchor;
    }
  }

  lemma {:induction false} NotesCounted(outcomes: seq<AnalyzerOutcome>)
    ensures |Flatten(Map(Diagnostics, Filter(Degraded, outcomes)))| == NoteCount(outcomes)
  {
    if outcomes != [] {
      var o, rest := outcomes[0], outcomes[1..];
      NotesCounted(rest);
      var kept := Filter(Degraded, rest);
      assert Filter(Degraded, outcomes) == if Degraded(o) then [o] + kept else kept;
      if Degraded(o) {
        assert ([o] + kept)[1..] == kept;
        assert Map(Diagnostics, [o] + kept) == [o.diagnostics] + Map(Diagnostics, kept);
        assert ([o.diagnostics] + Map(Diagnostics, kept))[1..] == Map(Diagnostics, kept);
      }
    }
  }

  lemma LinesLength(confirmed: seq<Finding>, items: seq<Finding>, outcomes: seq<AnalyzerOutcome>)
    ensures var degraded := Filter(Degraded, outcomes);
            |SummaryLines(confirmed, items, outcomes)|
            == 3 + (if items == [] then 0 else 2 + |items|)
                 + (if degraded == [] then 0 else 2 + |Flatten(Map(Diagnostics, degraded))|)
  {
    hide Filter, Flatten;
  }

  // The summary's text before the marker is three lines, two and one for each finding that is not
  // commented on inline if there are any, and two and one for each note if an analyzer is degraded.
  lemma SummaryLength(findings: seq<Finding>, diff: NormalizedDiff, outcomes: seq<AnalyzerOutcome>)
    ensures var confirmed := ConfirmedFindings(findings, diff);
            |SummaryLines(confirmed, Filter(PublishInSummary, confirmed), outcomes)|
            == 3
               + (if Unanchored(findings, diff) == 0 then 0 else 2 + Unanchored(findings, diff))
               + (if forall o :: o in outcomes ==> o.status == RanOk || o.status == RanZeroFindings then 0
                  else 2 + NoteCount(outcomes))
  {
    var confirmed := ConfirmedFindings(findings, diff);
    UnanchoredCounted(findings, diff);
    NotesCounted(outcomes);
    FilterMembers(Degraded, outcomes);
    var items, degraded := Filter(PublishInSummary, confirmed), Filter(Degraded, outcomes);
    assert degraded == [] <==> forall o :: o in outcomes ==> !Degraded(o) by {
      assert degraded != [] ==> degraded[0] in degraded;
    }
    assert degraded == [] <==> forall o :: o in outcomes ==> o.status == RanOk || o.status == RanZeroFindings;
    hide Filter, ConfirmedFindings, Flatten, Unanchored, NoteCount, Degraded, SummaryLines, Map;
    LinesLength(confirmed, items, outcomes);
  }

  // ----- the marker -----

  // Number `k` is the first confirmed finding with a model id, and has this one.
  ghost predicate FirstModel(findings: seq<Finding>, id: string, k: nat) {
    && k < |findings| && findings[k].state == Confirmed && findings[k].modelId == Some(id)
    && forall j :: 0 <= j < k && findings[j].state == Confirmed ==> findings[j].modelId.None?
  }

  ghost predicate NoModel(findings: seq<Finding>) {
    forall j :: 0 <= j < |findings| && findings[j].state == Confirmed ==> findings[j].modelId.None?
  }

  // The model id of the first confirmed finding that has one, or "none" if none has.
  ghost predicate IsModelId(findings: seq<Finding>, id: string) {
    (exists k: nat :: FirstModel(findings, id, k)) || (id == "none" && NoModel(findings))
  }

  lemma ModelIdNext(findings: seq<Finding>, id: string)
    requires findings != []
    requires var f := findings[0];
             if f.state == Confirmed && f.modelId.Some? then f.modelId == Some(id) else IsModelId(findings[1..], id)
    ensures IsModelId(findings, id)
  {
    var f, rest := findings[0], findings[1..];
    if f.state == Confirmed && f.modelId.Some? {
      assert FirstModel(findings, id, 0);
    } else {
      assert forall j :: 0 < j < |findings| ==> findings[j] == rest[j - 1];
      if k: nat :| FirstModel(rest, id, k) {
        assert FirstModel(findings, id, k + 1);
      }
    }
  }

  lemma {:induction false} ModelIdIs(findings: seq<Finding>, diff: NormalizedDiff)
    ensures IsModelId(findings, ModelId(ConfirmedFindings(findings, diff)))
  {
    if findings != [] {
      var f, rest := findings[0], findings[1..];
      assert findings == [f] + rest;
      ModelIdIs(rest, diff);
      FilterFirst(f, rest);
      var kept := Filter(IsConfirmed, rest);
      assert IsConfirmed(f) ==>
        Map(Anchored(diff), [f] + kept) == [Anchored(diff)(f)] + Map(Anchored(diff), kept)
      by {
        assert ([f] + kept)[1..] == kept;
      }
      hide IsModelId, Filter, Map, CanAnchor;
      ModelIdNext(findings, ModelId(ConfirmedFindings(findings, diff)));
    }
  }

  lemma FilterFirst(f: Finding, rest: seq<Finding>)
    ensures Filter(IsConfirmed, [f] + rest)
         == if IsConfirmed(f) then [f] + Filter(IsConfirmed, rest) else Filter(IsConfirmed, rest)
  {
    assert ([f] + rest)[1..] == rest;
  }

  // The summary ends with a marker that names the head, workflow version 1, prompt version v1 and the model of
  // the first confirmed finding that a model reported.
  lemma MarkerNames(env: Env, findings: seq<Finding>, diff: NormalizedDiff, headSha: string,
                    outcomes: seq<AnalyzerOutcome>)
    ensures exists m: ReviewMarker, before ::
      && ComposeDraft(env, findings, diff, headSha, outcomes).summary == before + "\n\n" + Render(m)
      && m.headSha == headSha && m.workflowVersion == "1" && m.promptVersion == "v1"
      && IsModelId(findings, m.modelId)
  {
    var confirmed := ConfirmedFindings(findings, diff);
    var lines := SummaryLines(confirmed, Filter(PublishInSummary, confirmed), outcomes);
    SummaryShape(env, findings, diff, headSha, outcomes);
    ModelIdIs(findings, diff);
    var m := MarkerFor(env, headSha, confirmed);
    hide SummaryLines, Render, ConfirmedFindings, ComposeDraft, Filter, Join, IsModelId;
    assert m.modelId == ModelId(confirmed);
  }

  // The marker's run is the first 12 characters of a SHA-256 digest, which has 64, and, without a collision
  // of the two digests, tells two heads apart.
  lemma RunTellsHeads(env: Env, a: string, b: string)
    requires forall s :: |env.digest(s)| == 64
    requires var end := UNIT_SEPARATOR + "1" + UNIT_SEPARATOR + "v1";
             env.digest(a + end)[..12] == env.digest(b + end)[..12] ==> a + end == b + end
    ensures |RunFingerprint(env, a)| == 12
    ensures RunFingerprint(env, a) == RunFingerprint(env, b) <==> a == b
  {
    var end := UNIT_SEPARATOR + WORKFLOW_VERSION + UNIT_SEPARATOR + PROMPT_VERSION;
    PayloadIs(a, UNIT_SEPARATOR, WORKFLOW_VERSION, PROMPT_VERSION);
    PayloadIs(b, UNIT_SEPARATOR, WORKFLOW_VERSION, PROMPT_VERSION);
    if a + end == b + end {
      assert |a + end| == |a| + |end| && |b + end| == |b| + |end|;
      assert (a + end)[..|a|] == a && (b + end)[..|b|] == b;
    }
  }

  lemma PayloadIs(head: string, u: string, v: string, w: string)
    ensures head + u + v + u + w == head + (u + v + u + w)
  {
  }

  // A comment says what the finding says.
  lemma CommentSays(f: Finding)
    ensures var body := ToComment(f).body;
            Occurs(f.title, body) && Occurs(f.explanation, body) && Occurs(f.impact, body)
            && Occurs(f.recommendation, body)
  {
    var head := "**[" + CategoryText(f.category) + " \U{B7} " + SeverityText(f.severity) + "]** ";
    hide CategoryText, SeverityText;
    var a, b, c := "\n\n", "\n\n**Impact:** ", "\n\n**Recommendation:** ";
    assert CommentBody(f) == head + f.title + a + f.explanation + b + f.impact + c + f.recommendation;
    SevenParts(head, f.title, a, f.explanation, b, f.impact, c, f.recommendation);
  }

  lemma SevenParts(h: string, t: string, a: string, e: string, b: string, i: string, c: string, r: string)
    ensures var body := h + t + a + e + b + i + c + r;
            Occurs(t, body) && Occurs(e, body) && Occurs(i, body) && Occurs(r, body)
  {
    var body := h + t + a + e + b + i + c + r;
    assert body == h + t + (a + e + b + i + c + r);
    assert body == (h + t + a) + e + (b + i + c + r);
    assert body == (h + t + a + e + b) + i + (c + r);
    assert body == (h + t + a + e + b + i + c) + r + "";
  }
}
