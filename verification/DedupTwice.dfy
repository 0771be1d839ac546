/** What a second and a third deduplication change: nothing but the survivors' confidence. */
module DedupTwice {
  import opened Seqs
  import opened Findings
  import opened Dedup
  import opened DedupLaws

  // A merged group: the survivor, with all the evidence, before the findings merged into it.
  ghost predicate IsMerged(group: seq<Finding>) {
    && |group| > 1 && DistinctIds(group)
    && (forall k :: 0 < k < |group| ==> RanksBefore(group[0], group[k]))
    && (forall k :: 0 < k < |group| ==> group[k] == MergedInto(group[0].id)(group[k]))
    && NoRepeats(group[0].evidence)
    && (forall k :: 0 < k < |group| ==> forall e :: e in group[k].evidence ==> e in group[0].evidence)
  }

  // The same group with the survivor's confidence raised once more if two source kinds report it.
  ghost function Reconfirmed(group: seq<Finding>): seq<Finding>
    requires group != []
  {
    var s := group[0];
    [if OtherSource(s, group[1..]) then s.(confidence := s.confidence.Raised()) else s] + group[1..]
  }

  // ----- a first pass gives merged groups -----

  // Raising the survivor's confidence keeps it ahead of the others.
  lemma RaisedRanksBefore(s: Finding, e: Finding, l: Finding, id: string)
    requires RanksBefore(s, l)
    requires e == s.(evidence := e.evidence, confidence := e.confidence)
    requires e.confidence == s.confidence || e.confidence == s.confidence.Raised()
    ensures RanksBefore(e, MergedInto(id)(l))
  {
  }

  lemma LoserMerged(group: seq<Finding>, s: Finding, e: Finding, l: Finding)
    requires IsBest(s, Elements(group)) && l in group && l.id != s.id
    requires e == s.(evidence := e.evidence, confidence := e.confidence)
    requires e.confidence == s.confidence || e.confidence == s.confidence.Raised()
    requires (set r | r in e.evidence) == UnionEvidence(Elements(group))
    ensures RanksBefore(e, MergedInto(s.id)(l))
    ensures MergedInto(s.id)(l) == MergedInto(e.id)(MergedInto(s.id)(l))
    ensures forall r :: r in MergedInto(s.id)(l).evidence ==> r in e.evidence
  {
    assert l in Elements(group);
    RaisedRanksBefore(s, e, l, s.id);
    forall r | r in l.evidence ensures r in e.evidence {
      assert r in UnionEvidence(Elements(group));
    }
  }

  lemma MergeGroupIsMerged(group: seq<Finding>)
    requires |group| > 1 && DistinctIds(group)
    ensures IsMerged(MergeGroup(group))
  {
    var s := Survivor(group);
    var losers := Filter(LacksId(s.id), group);
    var e := Enrich(s, losers);
    var marked := Map(MergedInto(s.id), losers);
    Enriched(group);
    SurvivorIsBest(group);
    LosersAreTheRest(group, s);
    FilterMembers(LacksId(s.id), group);
    FilterDistinctIds(LacksId(s.id), group);
    assert |multiset([s] + losers)| == |multiset(group)|;
    assert MergeGroup(group) == [e] + marked;
    hide MergeGroup, Filter, Enrich, Survivor;
    forall k | 0 <= k < |losers|
      ensures RanksBefore(e, marked[k]) && marked[k] == MergedInto(e.id)(marked[k])
      ensures marked[k].id == losers[k].id != e.id
      ensures forall r :: r in marked[k].evidence ==> r in e.evidence
    {
      assert losers[k] in losers;
      LoserMerged(group, s, e, losers[k]);
    }
    hide RanksBefore, MergedInto, Map, Corroborated, UnionEvidence, IsBest;
    MergedFromParts(e, marked, losers);
  }

  lemma MergedFromParts(e: Finding, marked: seq<Finding>, losers: seq<Finding>)
    requires |marked| == |losers| > 0 && DistinctIds(losers) && NoRepeats(e.evidence)
    requires forall k :: 0 <= k < |losers| ==> marked[k].id == losers[k].id != e.id
    requires forall k :: 0 <= k < |losers| ==> RanksBefore(e, marked[k]) && marked[k] == MergedInto(e.id)(marked[k])
    requires forall k :: 0 <= k < |losers| ==> forall r :: r in marked[k].evidence ==> r in e.evidence
    ensures IsMerged([e] + marked)
  {
    hide RanksBefore, MergedInto;
    var merged := [e] + marked;
    assert forall k :: 0 < k < |merged| ==> merged[k] == marked[k - 1];
    assert DistinctIds(merged);
  }

  // ----- a further pass over a merged group -----

  lemma {:induction false} AddRefsAbsorbs(seen: seq<EvidenceRef>, refs: seq<EvidenceRef>)
    requires forall e :: e in refs ==> e in seen
    ensures AddRefs(seen, refs) == seen
    decreases |refs|
  {
    if refs != [] {
      assert refs[0] in refs;
      AddRefsAbsorbs(seen, refs[1..]);
    }
  }

  lemma {:induction false} AddEvidenceAbsorbs(seen: seq<EvidenceRef>, findings: seq<Finding>)
    requires forall k :: 0 <= k < |findings| ==> forall e :: e in findings[k].evidence ==> e in seen
    ensures AddEvidence(seen, findings) == seen
    decreases |findings|
  {
    if findings != [] {
      AddRefsAbsorbs(seen, findings[0].evidence);
      AddEvidenceAbsorbs(seen, findings[1..]);
    }
  }

  lemma {:induction false} AddRefsCopies(seen: seq<EvidenceRef>, refs: seq<EvidenceRef>)
    requires NoRepeats(seen + refs)
    ensures AddRefs(seen, refs) == seen + refs
    decreases |refs|
  {
    if refs != [] {
      assert (seen + refs)[|seen|] == refs[0];
      forall i | 0 <= i < |seen| ensures seen[i] != refs[0] {
        assert (seen + refs)[i] != (seen + refs)[|seen|];
      }
      assert seen + [refs[0]] + refs[1..] == seen + refs;
      AddRefsCopies(seen + [refs[0]], refs[1..]);
    }
  }

  lemma {:induction false} SurvivorOfRanked(group: seq<Finding>)
    requires group != [] && forall k :: 0 < k < |group| ==> RanksBefore(group[0], group[k])
    ensures Survivor(group) == group[0]
  {
    if |group| > 1 {
      var later := Survivor(group[1..]);
      var k :| 0 <= k < |group[1..]| && group[1..][k] == later;
      assert RanksBefore(group[0], group[k + 1]);
      RanksTotal(group[0], later);
    }
  }

  lemma SurvivorEvidence(group: seq<Finding>)
    requires IsMerged(group)
    ensures AddEvidence([], group) == group[0].evidence
  {
    hide RanksBefore, MergedInto;
    var own := group[0].evidence;
    assert [] + own == own;
    AddRefsCopies([], own);
    AddEvidenceAbsorbs(own, group[1..]);
  }

  lemma SurvivorSeverity(group: seq<Finding>)
    requires IsMerged(group)
    ensures MaxSeverity(group) == group[0].severity
  {
    forall f | f in group ensures f.severity.Rank() <= group[0].severity.Rank() {
      var k :| 0 <= k < |group| && group[k] == f;
      assert k > 0 ==> RanksBefore(group[0], group[k]);
    }
    assert group[0] in group;
    MaxSeverityIs(group, group[0].severity);
  }

  lemma LosersOfMerged(group: seq<Finding>)
    requires IsMerged(group)
    ensures Filter(LacksId(group[0].id), group) == group[1..]
    ensures Map(MergedInto(group[0].id), group[1..]) == group[1..]
  {
    hide RanksBefore, MergedInto;
    FilterOne(LacksId(group[0].id), group, 0);
    assert group[..0] + group[1..] == group[1..];
    var losers := group[1..];
    forall k | 0 <= k < |losers| ensures MergedInto(group[0].id)(losers[k]) == losers[k] {
      assert losers[k] == group[k + 1];
    }
  }

  lemma MergeOfMerged(group: seq<Finding>)
    requires IsMerged(group)
    ensures MergeGroup(group) == Reconfirmed(group)
    ensures IsMerged(Reconfirmed(group))
    ensures OtherSource(Reconfirmed(group)[0], Reconfirmed(group)[1..]) == OtherSource(group[0], group[1..])
  {
    SurvivorOfRanked(group);
    LosersOfMerged(group);
    EnrichMerged(group);
    MergeGroupIsMerged(group);
    ReconfirmedSources(group);
    hide RanksBefore, Filter, MergedInto, Enrich, Survivor, IsMerged, Map, OtherSource;
    assert MergeGroup(group) == [Enrich(group[0], group[1..])] + group[1..];
  }

  lemma EnrichMerged(group: seq<Finding>)
    requires IsMerged(group)
    ensures Reconfirmed(group) == [Enrich(group[0], group[1..])] + group[1..]
  {
    SurvivorEvidence(group);
    SurvivorSeverity(group);
    hide IsMerged, AddEvidence, MaxSeverity;
    assert [group[0]] + group[1..] == group;
  }

  lemma ReconfirmedSources(group: seq<Finding>)
    requires group != []
    ensures Reconfirmed(group)[1..] == group[1..]
    ensures OtherSource(Reconfirmed(group)[0], Reconfirmed(group)[1..]) == OtherSource(group[0], group[1..])
  {
  }

  // ----- all findings -----

  lemma DeduplicatedConcat(a: seq<Finding>, b: seq<Finding>, fp: string)
    requires a != [] && forall f :: f in a ==> f.fingerprint == fp
    requires forall f :: f in b ==> f.fingerprint != fp
    ensures Deduplicated(a + b) == MergeGroup(a) + Deduplicated(b)
  {
    hide Filter, MergeGroup;
    var all := a + b;
    assert all[0] == a[0] && a[0] in a;
    FilterConcat(HasFingerprint(fp), a, b);
    FilterConcat(LacksFingerprint(fp), a, b);
    FilterAll(HasFingerprint(fp), a);
    FilterAll(LacksFingerprint(fp), b);
    FilterNone(HasFingerprint(fp), b);
    FilterNone(LacksFingerprint(fp), a);
    assert Filter(HasFingerprint(fp), all) == a && Filter(LacksFingerprint(fp), all) == b;
  }

  // A survivor of one source kind, or one that is already sure, is not raised further.
  ghost predicate Settled(group: seq<Finding>)
    requires group != []
  {
    !OtherSource(group[0], group[1..]) || group[0].confidence == High
  }

  lemma ReconfirmedSettled(group: seq<Finding>)
    requires group != []
    ensures Reconfirmed(group) == group <==> Settled(group)
  {
    assert group == [group[0]] + group[1..];
    assert Reconfirmed(group)[0] == group[0] ==> group[0].confidence == Reconfirmed(group)[0].confidence;
  }

  // Equal but for the confidence of the findings, which is at most one step higher in `b`.
  ghost predicate OnlyConfidence(a: seq<Finding>, b: seq<Finding>) {
    && |a| == |b|
    && forall i :: 0 <= i < |a| ==>
      && b[i] == a[i].(confidence := b[i].confidence)
      && (b[i].confidence == a[i].confidence || b[i].confidence == a[i].confidence.Raised())
  }

  lemma OnlyConfidenceConcat(a: seq<Finding>, a': seq<Finding>, b: seq<Finding>, b': seq<Finding>)
    requires OnlyConfidence(a, a') && OnlyConfidence(b, b')
    ensures OnlyConfidence(a + b, a' + b')
  {
  }

  lemma ReconfirmedOnlyConfidence(group: seq<Finding>)
    requires group != []
    ensures OnlyConfidence(group, Reconfirmed(group))
  {
  }

  // The first group of a deduplicated list and the findings after it.
  lemma FirstMerged(findings: seq<Finding>) returns (group: seq<Finding>, rest: seq<Finding>, fp: string)
    requires findings != [] && DistinctIds(findings)
    ensures |rest| < |findings| && DistinctIds(rest) && group != [] && DistinctIds(group)
    ensures rest == Filter(LacksFingerprint(findings[0].fingerprint), findings)
    ensures group == Filter(HasFingerprint(findings[0].fingerprint), findings)
    ensures fp == findings[0].fingerprint
    ensures Deduplicated(findings) == MergeGroup(group) + Deduplicated(rest)
    ensures MergeGroup(group) != [] && forall f :: f in MergeGroup(group) ==> f.fingerprint == fp
    ensures forall f :: f in Deduplicated(rest) ==> f.fingerprint != fp
    ensures |group| == 1 ==> MergeGroup(group) == group
    ensures |group| > 1 ==> IsMerged(MergeGroup(group))
  {
    fp := findings[0].fingerprint;
    group, rest := Filter(HasFingerprint(fp), findings), Filter(LacksFingerprint(fp), findings);
    FilterShrinks(LacksFingerprint(fp), findings);
    FilterKeepsFirst(HasFingerprint(fp), findings);
    FilterMembers(HasFingerprint(fp), findings);
    FilterMembers(LacksFingerprint(fp), findings);
    FilterDistinctIds(HasFingerprint(fp), findings);
    FilterDistinctIds(LacksFingerprint(fp), findings);
    MergedGroupStates(group, fp);
    FingerprintsKept(rest);
    assert |group| == 1 ==> MergeGroup(group) == group;
    hide Filter, RanksBefore, MergedInto;
    if |group| > 1 {
      MergeGroupIsMerged(group);
    }
  }

  lemma SecondGroup(group: seq<Finding>)
    requires group != [] && (|group| > 1 ==> IsMerged(group))
    ensures MergeGroup(group) == Reconfirmed(group)
    ensures |group| > 1 ==> IsMerged(Reconfirmed(group))
    ensures MergeGroup(MergeGroup(group)) == Reconfirmed(Reconfirmed(group))
  {
    if |group| == 1 {
      assert Reconfirmed(group) == group by { assert group == [group[0]] + group[1..]; }
      assert MergeGroup(group) == group;
    } else {
      hide IsMerged, MergeGroup, Reconfirmed;
      MergeOfMerged(group);
      MergeOfMerged(Reconfirmed(group));
    }
  }

  lemma ReconfirmedFingerprint(group: seq<Finding>, fp: string)
    requires group != [] && forall f :: f in group ==> f.fingerprint == fp
    ensures forall f :: f in Reconfirmed(group) ==> f.fingerprint == fp
  {
    assert group[0] in group;
    assert forall f :: f in group[1..] ==> f in group;
  }

  // A second pass keeps every finding, its state, severity and evidence, and its place.
  lemma {:induction false} SecondPass(findings: seq<Finding>)
    requires DistinctIds(findings)
    ensures OnlyConfidence(Deduplicated(findings), Deduplicated(Deduplicated(findings)))
    decreases |findings|
  {
    if findings != [] {
      var group, rest, fp := FirstMerged(findings);
      SecondPass(rest);
      var merged := MergeGroup(group);
      hide Deduplicated, MergeGroup, IsMerged, Filter;
      DeduplicatedConcat(merged, Deduplicated(rest), fp);
      SecondGroup(merged);
      ReconfirmedOnlyConfidence(merged);
      OnlyConfidenceConcat(merged, Reconfirmed(merged), Deduplicated(rest), Deduplicated(Deduplicated(rest)));
    }
  }

  lemma RaisedTwice(group: seq<Finding>)
    requires group != []
    requires OtherSource(Reconfirmed(group)[0], Reconfirmed(group)[1..]) == OtherSource(group[0], group[1..])
    requires OtherSource(group[0], group[1..]) ==> group[0].confidence != Low
    ensures Reconfirmed(Reconfirmed(group)) == Reconfirmed(group)
  {
    ReconfirmedSettled(Reconfirmed(group));
  }

  lemma SecondGroupSettles(original: seq<Finding>)
    requires original != [] && DistinctIds(original)
    ensures var group := MergeGroup(original);
            group != [] && Reconfirmed(Reconfirmed(group)) == Reconfirmed(group)
  {
    var group := MergeGroup(original);
    if |original| == 1 {
      assert group == [group[0]] + group[1..];
      assert !OtherSource(group[0], group[1..]);
      ReconfirmedSettled(group);
    } else {
      MergeGroupIsMerged(original);
      MergeOfMerged(group);
      Enriched(original);
      RaisedOnce(original);
      RaisedTwice(group);
    }
  }

  lemma MarkedSources(s: Finding, e: Finding, losers: seq<Finding>, id: string)
    requires e.sourceKind == s.sourceKind
    ensures OtherSource(e, Map(MergedInto(id), losers)) <==> OtherSource(s, losers)
  {
    var marked := Map(MergedInto(id), losers);
    assert forall k :: 0 <= k < |losers| ==> marked[k].sourceKind == losers[k].sourceKind;
    hide Map, MergedInto;
    if OtherSource(s, losers) {
      var l :| l in losers && l.sourceKind != s.sourceKind;
      var k :| 0 <= k < |losers| && losers[k] == l;
      assert marked[k] in marked;
    }
    if OtherSource(e, marked) {
      var m :| m in marked && m.sourceKind != s.sourceKind;
      var k :| 0 <= k < |marked| && marked[k] == m;
      assert losers[k] in losers;
    }
  }

  lemma LosersCorroborate(original: seq<Finding>, s: Finding)
    requires s in original && DistinctIds(original)
    ensures OtherSource(s, Filter(LacksId(s.id), original)) <==> Corroborated(Elements(original))
  {
    var losers := Filter(LacksId(s.id), original);
    LosersAreTheRest(original, s);
    hide Filter;
    OtherSourceIsCorroborated(s, losers);
    assert Elements([s] + losers) == Elements(original) by {
      assert forall f :: f in [s] + losers <==> f in original;
    }
  }

  // Two source kinds raise the survivor above Low.
  lemma RaisedOnce(original: seq<Finding>)
    requires |original| > 1 && DistinctIds(original)
    ensures var group := MergeGroup(original);
            && group != []
            && (OtherSource(group[0], group[1..]) <==> Corroborated(Elements(original)))
            && group[0].confidence == (if Corroborated(Elements(original)) then Survivor(original).confidence.Raised()
                                       else Survivor(original).confidence)
  {
    var s := Survivor(original);
    var losers := Filter(LacksId(s.id), original);
    var e := Enrich(s, losers);
    var group, marked := MergeGroup(original), Map(MergedInto(s.id), losers);
    assert group == [e] + marked;
    Enriched(original);
    assert e.sourceKind == s.sourceKind;
    hide *;
    assert group[0] == e && group[1..] == marked;
    LosersCorroborate(original, s);
    MarkedSources(s, e, losers, s.id);
  }

  // A third pass changes nothing.
  lemma {:induction false} ThirdPass(findings: seq<Finding>)
    requires DistinctIds(findings)
    ensures var twice := Deduplicated(Deduplicated(findings));
            Deduplicated(twice) == twice
    decreases |findings|
  {
    if findings != [] {
      var group, rest, fp := FirstMerged(findings);
      ThirdPass(rest);
      SecondGroupSettles(group);
      var merged, others := MergeGroup(group), Deduplicated(rest);
      hide Deduplicated, MergeGroup, IsMerged, Filter, OtherSource;
      DeduplicatedConcat(merged, others, fp);
      SecondGroup(merged);
      FingerprintsKept(others);
      ReconfirmedFingerprint(merged, fp);
      DeduplicatedConcat(Reconfirmed(merged), Deduplicated(others), fp);
    }
  }

  // ----- when one pass is enough -----

  // The finding survives with Low confidence although two source kinds report the issue.
  ghost predicate RisesTwice(f: Finding, all: set<Finding>) {
    var group := GroupOf(all, f.fingerprint);
    IsBest(f, group) && Corroborated(group) && f.confidence == Low
  }

  lemma GroupSettles(findings: seq<Finding>, group: seq<Finding>, fp: string)
    requires group != [] && DistinctIds(group)
    requires GroupOf(Elements(findings), fp) == Elements(group)
    ensures MergeGroup(group) != []
    ensures Reconfirmed(MergeGroup(group)) == MergeGroup(group)
       <==> forall f :: f in group ==> !RisesTwice(f, Elements(findings))
  {
    forall f | f in group ensures f.fingerprint == fp {
      assert f in GroupOf(Elements(findings), fp);
    }
    var s := Survivor(group);
    SurvivorIsBest(group);
    var merged := MergeGroup(group);
    if |group| == 1 {
      assert merged == [group[0]] == [merged[0]] + merged[1..];
      assert Elements(group) == {group[0]};
    } else {
      RaisedOnce(group);
      ReconfirmedSettled(merged);
    }
    hide MergeGroup, Survivor, RanksBefore;
    forall f | f in group && RisesTwice(f, Elements(findings)) ensures f.id == s.id && f.confidence == s.confidence {
      BestIsUnique(Elements(group), f);
      BestIsUnique(Elements(group), s);
      DistinctElements(group, f, s);
    }
  }

  lemma DistinctElements(findings: seq<Finding>, f: Finding, g: Finding)
    requires DistinctIds(findings) && f in findings && g in findings && f.id == g.id
    ensures f == g
  {
  }

  lemma RisesElsewhere(findings: seq<Finding>, fp: string)
    ensures var rest := Filter(LacksFingerprint(fp), findings);
            forall f :: f in rest ==> (RisesTwice(f, Elements(rest)) <==> RisesTwice(f, Elements(findings)))
    ensures GroupOf(Elements(findings), fp) == Elements(Filter(HasFingerprint(fp), findings))
    ensures forall f :: f in findings <==>
                        f in Filter(LacksFingerprint(fp), findings) || f in Filter(HasFingerprint(fp), findings)
  {
    FilterMembers(HasFingerprint(fp), findings);
    FilterMembers(LacksFingerprint(fp), findings);
    var rest := Filter(LacksFingerprint(fp), findings);
    hide Filter, RanksBefore;
    forall f | f in rest ensures RisesTwice(f, Elements(rest)) <==> RisesTwice(f, Elements(findings)) {
      assert GroupOf(Elements(rest), f.fingerprint) == GroupOf(Elements(findings), f.fingerprint);
    }
  }

  // One pass is a fixed point exactly when no survivor of two source kinds started at Low.
  lemma {:induction false} OnePassIsEnough(findings: seq<Finding>)
    requires DistinctIds(findings)
    ensures Deduplicated(Deduplicated(findings)) == Deduplicated(findings)
       <==> forall f :: f in findings ==> !RisesTwice(f, Elements(findings))
    decreases |findings|
  {
    if findings != [] {
      var group, rest, fp := FirstMerged(findings);
      hide Filter, Deduplicated, MergeGroup, IsMerged, RisesTwice, Reconfirmed, GroupOf, Elements, DistinctIds;
      OnePassIsEnough(rest);
      RisesElsewhere(findings, fp);
      GroupSettles(findings, group, fp);
      var merged, others := MergeGroup(group), Deduplicated(rest);
      DeduplicatedConcat(merged, others, fp);
      SecondGroup(merged);
      assert |Reconfirmed(merged)| == |merged| by { ReconfirmedOnlyConfidence(merged); }
      SamePieces(Reconfirmed(merged), Deduplicated(others), merged, others);
    }
  }

  // Such findings exist: a severe but doubtful finding of a model and a scanner's sure but minor one.
  ghost predicate DoubtfulAndSure(a: Finding, b: Finding) {
    && a.id != b.id && a.fingerprint == b.fingerprint
    && a.severity == HighSeverity && a.confidence == Low
    && b.severity == LowSeverity && b.confidence == High
  }

  lemma DoubtfulIsBest(a: Finding, b: Finding)
    requires DoubtfulAndSure(a, b)
    ensures DistinctIds([a, b]) && Survivor([a, b]) == a
    ensures Deduplicated([a, b]) == MergeGroup([a, b])
  {
    var fp := a.fingerprint;
    SurvivorOfRanked([a, b]);
    DeduplicatedConcat([a, b], [], fp);
    assert [a, b] + [] == [a, b];
    hide MergeGroup;
    assert MergeGroup([a, b]) + [] == MergeGroup([a, b]);
  }

  lemma MergedPair(a: Finding, b: Finding)
    requires a.id != b.id && Survivor([a, b]) == a
    ensures |MergeGroup([a, b])| == 2 && MergeGroup([a, b])[0].id == a.id
  {
    FilterOne(LacksId(a.id), [a, b], 0);
    hide Filter, Survivor, AddEvidence, MaxSeverity;
  }

  lemma PairCorroborated(a: Finding, b: Finding)
    requires a.sourceKind != b.sourceKind
    ensures Corroborated(Elements([a, b]))
  {
    assert a in Elements([a, b]) && b in Elements([a, b]);
  }

  // A merged group deduplicates to itself with the survivor's confidence raised.
  lemma RaisedAgain(merged: seq<Finding>, fp: string)
    requires IsMerged(merged) && OtherSource(merged[0], merged[1..])
    requires forall f :: f in merged ==> f.fingerprint == fp
    ensures Deduplicated(merged) == [merged[0].(confidence := merged[0].confidence.Raised())] + merged[1..]
  {
    DeduplicatedConcat(merged, [], fp);
    assert Deduplicated([]) == [] && merged + [] == merged;
    MergeOfMerged(merged);
    hide MergeGroup, IsMerged, Deduplicated, OtherSource;
    assert MergeGroup(merged) + [] == MergeGroup(merged);
  }

  // The first pass raises such a survivor to MEDIUM, the second to HIGH.
  lemma SecondPassRaises(a: Finding, b: Finding)
    requires DoubtfulAndSure(a, b) && a.sourceKind == LlmAnalyzer && b.sourceKind == Semgrep
    ensures var once := Deduplicated([a, b]);
            var twice := Deduplicated(once);
            && |once| == |twice| == 2
            && once[0].id == twice[0].id == a.id
            && once[0].confidence == Medium && twice[0].confidence == High
  {
    var group := [a, b];
    DoubtfulIsBest(a, b);
    var merged := MergeGroup(group);
    assert a.confidence == Low && a.id != b.id;
    var _, _, fp := FirstMerged(group);
    hide *;
    MergedPair(a, b);
    PairCorroborated(a, b);
    RaisedOnce(group);
    MergeGroupIsMerged(group);
    RaisedAgain(merged, fp);
  }

  lemma SamePieces<T>(a: seq<T>, b: seq<T>, c: seq<T>, d: seq<T>)
    requires |a| == |c|
    ensures a + b == c + d <==> a == c && b == d
  {
    if a + b == c + d {
      assert (a + b)[..|a|] == a && (c + d)[..|a|] == c;
      assert (a + b)[|a|..] == b && (c + d)[|a|..] == d;
    }
  }
}
