/**
From analyzer outcomes to published findings: the fan-in, deduplication, verification and composition
taken together.
 */
module Pipeline {
  import opened Options
  import opened Seqs
  import opened Diff
  import opened HunkParser
  import opened DiffMapping
  import opened Findings
  import opened Dedup
  import opened DedupLaws
  import opened DedupTwice
  import opened Verifier
  import opened Compose

  function FindingsOf(o: AnalyzerOutcome): seq<Finding> {
    o.findings
  }

  function AllFindings(outcomes: seq<AnalyzerOutcome>): seq<Finding> {
    Flatten(Map(FindingsOf, outcomes))
  }

  // `collect_findings`: the fan-in of the parallel analyzers.
  function CollectFindings(outcomes: seq<AnalyzerOutcome>): seq<Finding> {
    Deduplicated(AllFindings(outcomes))
  }

  lemma {:induction false} AllFindingsAre(outcomes: seq<AnalyzerOutcome>, f: Finding)
    ensures f in AllFindings(outcomes) <==> exists o :: o in outcomes && f in o.findings
  {
    if outcomes != [] {
      AllFindingsAre(outcomes[1..], f);
      assert AllFindings(outcomes) == outcomes[0].findings + AllFindings(outcomes[1..]);
      assert outcomes == [outcomes[0]] + outcomes[1..];
    }
  }

  // The collected finding is this reported one, but for what deduplication sets.
  ghost predicate IsCollected(d: Finding, f: Finding) {
    d == f.(state := d.state, reason := d.reason, confidence := d.confidence, evidence := d.evidence)
  }

  lemma ResolvedIsCollected(f: Finding, all: set<Finding>, d: Finding)
    requires ViewOf(d) == Resolve(f, all)
    ensures IsCollected(d, f)
  {
    hide RanksBefore, UnionEvidence, BestId, IsBest, Corroborated, GroupOf;
    var g := d.(evidence := []);
    assert d == g.(evidence := d.evidence);
  }

  lemma SameViews(findings: seq<Finding>)
    requires DistinctIds(findings)
    ensures var result, all := Deduplicated(findings), Elements(findings);
            && |result| == |findings|
            && (forall k :: 0 <= k < |findings| ==> Resolve(findings[k], all) in Map(ViewOf, result))
            && (forall l :: 0 <= l < |result| ==> ViewOf(result[l]) in Map(Resolver(all), findings))
  {
    var result, all := Deduplicated(findings), Elements(findings);
    DeduplicatedResolves(findings);
    hide Deduplicated, ViewOf, Resolve;
    var views, resolved := Map(ViewOf, result), Map(Resolver(all), findings);
    assert |multiset(views)| == |views| && |multiset(resolved)| == |resolved|;
    forall k | 0 <= k < |findings| ensures Resolve(findings[k], all) in views {
      assert resolved[k] in multiset(views);
    }
    forall l | 0 <= l < |result| ensures ViewOf(result[l]) in resolved {
      assert views[l] in multiset(resolved);
    }
  }

  lemma ReportedIsCollected(findings: seq<Finding>, f: Finding)
    requires DistinctIds(findings) && f in findings
    ensures exists d :: d in Deduplicated(findings) && IsCollected(d, f)
  {
    SameViews(findings);
    var result, all := Deduplicated(findings), Elements(findings);
    hide Deduplicated, ViewOf, Resolve, Resolver, IsCollected, DistinctIds, Elements;
    var k :| 0 <= k < |findings| && findings[k] == f;
    var views := Map(ViewOf, result);
    var l :| 0 <= l < |views| && views[l] == Resolve(f, all);
    ResolvedIsCollected(f, all, result[l]);
    assert result[l] in result;
  }

  lemma CollectedWasReported(findings: seq<Finding>, d: Finding)
    requires DistinctIds(findings) && d in Deduplicated(findings)
    ensures exists f :: f in findings && IsCollected(d, f)
  {
    SameViews(findings);
    var result, all := Deduplicated(findings), Elements(findings);
    hide Deduplicated, ViewOf, Resolve, IsCollected, DistinctIds, Elements;
    var l :| 0 <= l < |result| && result[l] == d;
    var resolved := Map(Resolver(all), findings);
    var k :| 0 <= k < |resolved| && resolved[k] == ViewOf(d);
    ResolvedIsCollected(findings[k], all, d);
    assert findings[k] in findings;
  }

  // Every finding of every analyzer is collected, whatever the analyzer's status, and nothing else is.
  lemma NothingLost(outcomes: seq<AnalyzerOutcome>)
    requires DistinctIds(AllFindings(outcomes))
    ensures forall o, f :: o in outcomes && f in o.findings ==>
      exists d :: d in CollectFindings(outcomes) && IsCollected(d, f)
    ensures forall d :: d in CollectFindings(outcomes) ==>
      exists o, f :: o in outcomes && f in o.findings && IsCollected(d, f)
  {
    var findings, result := AllFindings(outcomes), CollectFindings(outcomes);
    hide Deduplicated, IsCollected, DistinctIds, AllFindings;
    forall o, f | o in outcomes && f in o.findings ensures exists d :: d in result && IsCollected(d, f) {
      AllFindingsAre(outcomes, f);
      ReportedIsCollected(findings, f);
    }
    forall d | d in result ensures exists o, f :: o in outcomes && f in o.findings && IsCollected(d, f) {
      CollectedWasReported(findings, d);
      var f :| f in findings && IsCollected(d, f);
      AllFindingsAre(outcomes, f);
    }
  }

  // ----- from patch text to anchors -----

  // A changed file as GitHub lists it.
  datatype ChangedFile = ChangedFile(
    filename: string, status: string, patch: Option<string>, previousFilename: Option<string>)

  function ChangeKind(status: string): FileChangeKind {
    if status == "added" then FileAdded
    else if status == "removed" then FileRemoved
    else if status == "renamed" then FileRenamed
    else FileModified
  }

  lemma KindsAre(status: string)
    ensures status == "added" <==> ChangeKind(status) == FileAdded
    ensures status == "removed" <==> ChangeKind(status) == FileRemoved
    ensures status == "renamed" <==> ChangeKind(status) == FileRenamed
  {
    assert |"added"| < |"removed"| && "removed"[2] != "renamed"[2];
  }

  function ToFileDiff(changed: ChangedFile): FileDiff {
    FileDiff(changed.filename, ChangeKind(changed.status), changed.previousFilename, changed.patch.None?,
             Hunks(changed.patch.GetOr("")))
  }

  function NormalizeDiff(files: seq<ChangedFile>): NormalizedDiff {
    NormalizedDiff(Map(ToFileDiff, files))
  }

  // The first changed file of that name.
  ghost predicate IsFirst(files: seq<ChangedFile>, path: string, k: nat) {
    k < |files| && files[k].filename == path && forall j :: 0 <= j < k ==> files[j].filename != path
  }

  lemma {:induction false} FirstFile(files: seq<ChangedFile>, path: string)
    ensures NormalizeDiff(files).File(path).Some? <==> exists k: nat :: IsFirst(files, path, k)
    ensures forall k: nat :: IsFirst(files, path, k) ==> NormalizeDiff(files).File(path) == Some(ToFileDiff(files[k]))
  {
    hide Hunks;
    if files != [] {
      FirstFile(files[1..], path);
      if files[0].filename == path {
        assert IsFirst(files, path, 0);
      } else {
        forall k: nat ensures IsFirst(files, path, k + 1) <==> IsFirst(files[1..], path, k) {
          assert forall j :: 0 <= j < |files| - 1 ==> files[1..][j] == files[j + 1];
        }
        forall k: nat | IsFirst(files, path, k) ensures k > 0 && IsFirst(files[1..], path, k - 1) {
          assert IsFirst(files, path, k - 1 + 1);
        }
        if k: nat :| IsFirst(files[1..], path, k) {
          assert IsFirst(files, path, k + 1);
        }
      }
    }
  }

  // A comment can be anchored exactly when both its end lines lie in hunks of the parsed patch of the
  // first file of that name; a file without a patch takes no comment.
  lemma AnchorsExactly(files: seq<ChangedFile>, path: string, startLine: nat, endLine: nat, side: DiffSide)
    ensures CanAnchor(NormalizeDiff(files), path, startLine, endLine, side) <==>
      exists k: nat, g, h :: IsFirst(files, path, k) && files[k].patch.Some?
        && g in Hunks(files[k].patch.value) && InHunk(g, side, startLine)
        && h in Hunks(files[k].patch.value) && InHunk(h, side, endLine)
  {
    FirstFile(files, path);
    assert Hunks("") == [];
    hide Hunks, NormalizeDiff;
    var diff := NormalizeDiff(files);
    if k: nat :| IsFirst(files, path, k) {
      var patch := files[k].patch.GetOr("");
      CommentableOfPatch(patch, side);
      assert diff.File(path) == Some(ToFileDiff(files[k]));
      forall l: nat | IsFirst(files, path, l) ensures l == k {
        assert files[l].filename == path && files[k].filename == path;
      }
    }
  }

  // ----- at most one published finding per fingerprint -----

  function FingerprintOf(f: Finding): string {
    f.fingerprint
  }

  lemma {:induction false} ConfirmedAreDistinct(findings: seq<Finding>)
    requires OnePerFingerprint(findings)
    ensures NoRepeats(Map(FingerprintOf, Filter(IsConfirmed, findings)))
  {
    if findings != [] {
      var first, rest := findings[0], findings[1..];
      assert forall i :: 0 <= i < |rest| ==> rest[i] == findings[i + 1];
      forall i | 0 <= i < |rest| && rest[i].fingerprint == first.fingerprint ensures rest[i].state == Duplicate {
        assert findings[i + 1].fingerprint == findings[0].fingerprint;
      }
      ConfirmedAreDistinct(rest);
      FilterMembers(IsConfirmed, rest);
      var kept := Filter(IsConfirmed, rest);
      if IsConfirmed(first) {
        forall k | 0 <= k < |kept| ensures kept[k].fingerprint != first.fingerprint {
          assert kept[k] in kept;
          var i :| 0 <= i < |rest| && rest[i] == kept[k];
        }
        assert Filter(IsConfirmed, findings) == [first] + kept;
      } else {
        assert Filter(IsConfirmed, findings) == kept;
      }
    }
  }

  lemma VerifiedOnePer(findings: seq<Finding>, result: ModelResult)
    requires OnePerFingerprint(findings)
    ensures OnePerFingerprint(ModelPass(findings, result))
  {
    var verified := ModelPass(findings, result);
    forall i | 0 <= i < |findings|
      ensures |verified| == |findings| && verified[i].fingerprint == findings[i].fingerprint
      ensures findings[i].state == Duplicate ==> verified[i].state == Duplicate
    {
      ModelPassDecides(findings, result, i);
    }
    assert |findings| == 0 ==> verified == findings;
    hide ModelPass;
  }

  // Whatever findings come in and whatever the model answers, no two published findings share a
  // fingerprint: the draft publishes exactly the confirmed findings, each once (DraftPartitions).
  lemma OnePublishedPerFingerprint(outcomes: seq<AnalyzerOutcome>, result: ModelResult, diff: NormalizedDiff)
    ensures NoRepeats(Map(FingerprintOf, ConfirmedFindings(ModelPass(CollectFindings(outcomes), result), diff)))
  {
    var collected := CollectFindings(outcomes);
    OneSurvivor(AllFindings(outcomes));
    hide ModelPass, Deduplicated;
    VerifiedOnePer(collected, result);
    var verified := ModelPass(collected, result);
    ConfirmedAreDistinct(verified);
    hide Filter, CanAnchor;
    MapMap(Anchored(diff), FingerprintOf, FingerprintOf, Filter(IsConfirmed, verified));
  }

  // ----- what the policy publishes -----

  predicate PolicyConfirms(v: View) {
    v.finding.state == Confirmed || (v.finding.state == Candidate && v.finding.confidence != Low)
  }

  // Some finding of the fingerprint is confirmed by the policy after deduplication.
  ghost predicate Published(findings: seq<Finding>, fp: string) {
    exists d :: d in PolicyPass(Deduplicated(findings)) && IsConfirmed(d) && d.fingerprint == fp
  }

  // A fingerprint is published exactly when the best finding of its group is more than Low, or two
  // source kinds report it; the confidence of the other findings of the group does not matter.
  lemma PublishedFingerprints(findings: seq<Finding>, fp: string)
    requires DistinctIds(findings) && forall f :: f in findings ==> f.state == Candidate
    ensures Published(findings, fp)
       <==> var group := GroupOf(Elements(findings), fp);
            exists f :: f in findings && IsBest(f, group) && (f.confidence != Low || Corroborated(group))
  {
    var result, all := Deduplicated(findings), Elements(findings);
    var group := GroupOf(all, fp);
    DeduplicatedResolves(findings);
    ConfirmedViews(result, fp);
    ResolvedViews(findings, fp);
    hide Deduplicated, PolicyPass, Resolver, ViewOf, IsBest, Corroborated, PolicyConfirms;
    var views, resolved := Map(ViewOf, result), Map(Resolver(all), findings);
    assert forall v :: v in views <==> v in multiset(views);
    assert forall v :: v in resolved <==> v in multiset(resolved);
  }

  lemma AloneIsBest(b: Finding)
    ensures GroupOf(Elements([b]), b.fingerprint) == {b} && IsBest(b, {b})
  {
  }

  lemma SureIsNotBest(a: Finding, b: Finding)
    requires DoubtfulAndSure(a, b) && a.sourceKind == b.sourceKind
    ensures var group := GroupOf(Elements([a, b]), b.fingerprint);
            group == {a, b} && !IsBest(b, group) && !Corroborated(group)
  {
    assert !RanksBefore(b, a);
    hide RanksBefore;
  }

  lemma SureAlone(b: Finding)
    requires b.state == Candidate && b.confidence == High
    ensures Published([b], b.fingerprint)
  {
    AloneIsBest(b);
    hide PolicyPass, Deduplicated, IsBest, Corroborated, GroupOf, Elements, IsConfirmed;
    PublishedFingerprints([b], b.fingerprint);
    assert b in [b];
  }

  lemma SureHidden(a: Finding, b: Finding)
    requires DoubtfulAndSure(a, b) && a.sourceKind == b.sourceKind && a.state == Candidate && b.state == Candidate
    ensures !Published([a, b], b.fingerprint)
  {
    SureIsNotBest(a, b);
    var group := GroupOf(Elements([a, b]), b.fingerprint);
    assert a.confidence == Low;
    assert DistinctIds([a, b]);
    hide PolicyPass, Deduplicated, IsBest, Corroborated, GroupOf, Elements, DoubtfulAndSure, IsConfirmed;
    forall f | f in [a, b] ensures !(IsBest(f, group) && (f.confidence != Low || Corroborated(group))) {
      assert f == a || f == b;
    }
    PublishedFingerprints([a, b], b.fingerprint);
  }

  // A sure finding is published alone, but not next to a severe, doubtful one of the same source kind.
  lemma DoubtfulHidesSure(a: Finding, b: Finding)
    requires DoubtfulAndSure(a, b) && a.sourceKind == b.sourceKind && a.state == Candidate && b.state == Candidate
    ensures Published([b], b.fingerprint) && !Published([a, b], b.fingerprint)
  {
    SureHidden(a, b);
    assert b.confidence == High;
    hide Published, DoubtfulAndSure;
    SureAlone(b);
  }

  lemma VerifiedMatches(d: Finding)
    ensures PolicyVerify(d).fingerprint == ViewOf(d).finding.fingerprint
    ensures IsConfirmed(PolicyVerify(d)) <==> PolicyConfirms(ViewOf(d))
  {
  }

  lemma ConfirmedViews(result: seq<Finding>, fp: string)
    ensures (exists d :: d in PolicyPass(result) && IsConfirmed(d) && d.fingerprint == fp)
       <==> exists v :: v in Map(ViewOf, result) && PolicyConfirms(v) && v.finding.fingerprint == fp
  {
    var passed, views := PolicyPass(result), Map(ViewOf, result);
    hide PolicyVerify, ViewOf, PolicyConfirms, IsConfirmed;
    forall k | 0 <= k < |result|
      ensures passed[k].fingerprint == views[k].finding.fingerprint
      ensures IsConfirmed(passed[k]) <==> PolicyConfirms(views[k])
    {
      VerifiedMatches(result[k]);
    }
    hide PolicyPass, Map;
    if d :| d in passed && IsConfirmed(d) && d.fingerprint == fp {
      var k :| 0 <= k < |passed| && passed[k] == d;
      assert views[k] in views;
    }
    if v :| v in views && PolicyConfirms(v) && v.finding.fingerprint == fp {
      var k :| 0 <= k < |views| && views[k] == v;
      assert passed[k] in passed;
    }
  }

  lemma ResolvedViews(findings: seq<Finding>, fp: string)
    requires DistinctIds(findings) && forall f :: f in findings ==> f.state == Candidate
    ensures var all := Elements(findings);
            var group := GroupOf(all, fp);
            (exists v :: v in Map(Resolver(all), findings) && PolicyConfirms(v) && v.finding.fingerprint == fp)
            <==> exists f :: f in findings && IsBest(f, group) && (f.confidence != Low || Corroborated(group))
  {
    var all := Elements(findings);
    var group, resolved := GroupOf(all, fp), Map(Resolver(all), findings);
    forall k | 0 <= k < |findings|
      ensures PolicyConfirms(resolved[k]) && resolved[k].finding.fingerprint == fp
         <==> IsBest(findings[k], group) && (findings[k].confidence != Low || Corroborated(group))
    {
      assert findings[k] in findings && findings[k] in all;
      OneResolved(findings[k], all, fp);
    }
    hide IsBest, Corroborated, PolicyConfirms, Resolver;
    if v :| v in resolved && PolicyConfirms(v) && v.finding.fingerprint == fp {
      var k :| 0 <= k < |resolved| && resolved[k] == v;
      assert findings[k] in findings;
    }
    if f :| f in findings && IsBest(f, group) && (f.confidence != Low || Corroborated(group)) {
      var k :| 0 <= k < |findings| && findings[k] == f;
      assert resolved[k] in resolved;
    }
  }

  lemma OneResolved(f: Finding, all: set<Finding>, fp: string)
    requires f in all && f.state == Candidate
    ensures var v, group := Resolve(f, all), GroupOf(all, fp);
            PolicyConfirms(v) && v.finding.fingerprint == fp
            <==> IsBest(f, group) && (f.confidence != Low || Corroborated(group))
  {
    hide RanksBefore, UnionEvidence, BestId;
    if f.fingerprint == fp {
      assert f in GroupOf(all, fp);
    }
  }

  // ----- the order of the fan-in does not matter -----

  function PolicyView(v: View): View {
    View(PolicyVerify(v.finding), v.evidence)
  }

  predicate ConfirmedView(v: View) {
    IsConfirmed(v.finding)
  }

  function AnchorView(diff: NormalizedDiff): View -> View {
    (v: View) => View(Anchored(diff)(v.finding), v.evidence)
  }

  predicate InlineView(v: View) {
    PublishInline(v.finding)
  }

  predicate SummaryView(v: View) {
    PublishInSummary(v.finding)
  }

  function CommentView(v: View): InlineComment {
    ToComment(v.finding)
  }

  // The confirmed findings as views are a function of the collected findings as views.
  lemma ConfirmedAsViews(findings: seq<Finding>, diff: NormalizedDiff)
    ensures Map(ViewOf, ConfirmedFindings(PolicyPass(findings), diff))
         == Map(AnchorView(diff), Filter(ConfirmedView, Map(PolicyView, Map(ViewOf, findings))))
  {
    var passed := PolicyPass(findings);
    var kept := Filter(IsConfirmed, passed);
    hide Anchored, PolicyVerify, ViewOf, AnchorView, PolicyView, ConfirmedView, IsConfirmed, Map, Filter;
    forall f: Finding
      ensures ViewOf(Anchored(diff)(f)) == AnchorView(diff)(ViewOf(f))
      ensures ViewOf(PolicyVerify(f)) == PolicyView(ViewOf(f))
      ensures IsConfirmed(f) == ConfirmedView(ViewOf(f))
    {
      AnchoredView(f, diff);
      VerifiedView(f);
      TestsOfView(f);
    }
    MapSquare(Anchored(diff), ViewOf, AnchorView(diff), kept);
    MapFilter(ViewOf, IsConfirmed, ConfirmedView, passed);
    MapSquare(PolicyVerify, ViewOf, PolicyView, findings);
  }

  lemma AnchoredView(f: Finding, diff: NormalizedDiff)
    ensures ViewOf(Anchored(diff)(f)) == AnchorView(diff)(ViewOf(f))
  {
    hide CanAnchor;
  }

  lemma VerifiedView(f: Finding)
    ensures ViewOf(PolicyVerify(f)) == PolicyView(ViewOf(f))
  {
  }

  lemma TestsOfView(f: Finding)
    ensures IsConfirmed(f) == ConfirmedView(ViewOf(f))
    ensures PublishInline(f) == InlineView(ViewOf(f)) && PublishInSummary(f) == SummaryView(ViewOf(f))
  {
  }

  lemma CommentOfView(f: Finding)
    ensures CommentView(ViewOf(f)) == ToComment(f)
  {
    assert CommentBody(f.(evidence := [])) == CommentBody(f);
  }

  lemma SameConfirmed(a: seq<Finding>, b: seq<Finding>, diff: NormalizedDiff)
    requires Reordered(Map(ViewOf, a), Map(ViewOf, b))
    ensures Reordered(Map(ViewOf, ConfirmedFindings(PolicyPass(a), diff)),
                      Map(ViewOf, ConfirmedFindings(PolicyPass(b), diff)))
  {
    ConfirmedAsViews(a, diff);
    ConfirmedAsViews(b, diff);
    hide Map, Filter, ViewOf, PolicyPass;
    var va, vb := Map(ViewOf, a), Map(ViewOf, b);
    MapReordered(PolicyView, va, vb);
    FilterReordered(ConfirmedView, Map(PolicyView, va), Map(PolicyView, vb));
    MapReordered(AnchorView(diff), Filter(ConfirmedView, Map(PolicyView, va)),
                 Filter(ConfirmedView, Map(PolicyView, vb)));
  }

  lemma CommentsAsViews(confirmed: seq<Finding>)
    ensures Map(ToComment, Filter(PublishInline, confirmed))
         == Map(CommentView, Filter(InlineView, Map(ViewOf, confirmed)))
    ensures Map(ViewOf, Filter(PublishInSummary, confirmed)) == Filter(SummaryView, Map(ViewOf, confirmed))
  {
    hide ViewOf, CommentView, ToComment, InlineView, SummaryView, PublishInline, PublishInSummary, Map, Filter;
    forall f: Finding
      ensures CommentView(ViewOf(f)) == ToComment(f)
      ensures PublishInline(f) == InlineView(ViewOf(f)) && PublishInSummary(f) == SummaryView(ViewOf(f))
    {
      CommentOfView(f);
      TestsOfView(f);
    }
    MapMap(ViewOf, CommentView, ToComment, Filter(PublishInline, confirmed));
    MapFilter(ViewOf, PublishInline, InlineView, confirmed);
    MapFilter(ViewOf, PublishInSummary, SummaryView, confirmed);
  }

  lemma SameEvent(a: seq<Finding>, b: seq<Finding>)
    requires Reordered(Map(ViewOf, a), Map(ViewOf, b))
    ensures EventFor(a) == EventFor(b)
  {
    SevereIn(a, b);
    SevereIn(b, a);
  }

  lemma SevereIn(a: seq<Finding>, b: seq<Finding>)
    requires Reordered(Map(ViewOf, a), Map(ViewOf, b))
    ensures (exists f :: f in a && IsSevere(f)) ==> exists g :: g in b && IsSevere(g)
  {
    if f :| f in a && IsSevere(f) {
      var k :| 0 <= k < |a| && a[k] == f;
      var va, vb := Map(ViewOf, a), Map(ViewOf, b);
      assert va[k] in multiset(vb);
      var l :| 0 <= l < |vb| && vb[l] == va[k];
      assert b[l] in b && IsSevere(b[l]);
    }
  }

  // The draft of a run that verifies by policy.
  function PolicyDraft(env: Env, outcomes: seq<AnalyzerOutcome>, diff: NormalizedDiff, headSha: string): ReviewDraft {
    ComposeDraft(env, PolicyPass(CollectFindings(outcomes)), diff, headSha, outcomes)
  }

  // The findings a policy draft lists in its summary.
  function PolicySummary(outcomes: seq<AnalyzerOutcome>, diff: NormalizedDiff): seq<Finding> {
    Filter(PublishInSummary, ConfirmedFindings(PolicyPass(CollectFindings(outcomes)), diff))
  }

  // In whatever order the analyzers report, the draft has the same inline comments, lists the same
  // findings in its summary and asks for the same event.
  lemma FanInOrderIndependent(env: Env, a: seq<AnalyzerOutcome>, b: seq<AnalyzerOutcome>, diff: NormalizedDiff,
                              headSha: string)
    requires Reordered(a, b) && DistinctIds(AllFindings(a))
    ensures Reordered(PolicyDraft(env, a, diff, headSha).inlineComments,
                      PolicyDraft(env, b, diff, headSha).inlineComments)
    ensures Reordered(Map(ViewOf, PolicySummary(a, diff)), Map(ViewOf, PolicySummary(b, diff)))
    ensures PolicyDraft(env, a, diff, headSha).event == PolicyDraft(env, b, diff, headSha).event
  {
    MapReordered(FindingsOf, a, b);
    FlattenReordered(Map(FindingsOf, a), Map(FindingsOf, b));
    OrderIndependent(AllFindings(a), AllFindings(b));
    hide Flatten, Deduplicated, PolicyPass, SummaryLines, ViewOf, MarkerFor;
    SameConfirmed(CollectFindings(a), CollectFindings(b), diff);
    var ca := ConfirmedFindings(PolicyPass(CollectFindings(a)), diff);
    var cb := ConfirmedFindings(PolicyPass(CollectFindings(b)), diff);
    hide ConfirmedFindings;
    SameEvent(ca, cb);
    CommentsAsViews(ca);
    CommentsAsViews(cb);
    hide Filter, Map, EventFor;
    var va, vb := Map(ViewOf, ca), Map(ViewOf, cb);
    FilterReordered(InlineView, va, vb);
    FilterReordered(SummaryView, va, vb);
    MapReordered(CommentView, Filter(InlineView, va), Filter(InlineView, vb));
  }
}
