/**
What deduplication promises: a result that depends only on the set of findings, one survivor per
fingerprint with nothing lost, and stability under a second pass.
 */
module DedupLaws {
  import opened Options
  import opened Seqs
  import opened Findings
  import opened Dedup

  ghost predicate DistinctIds(findings: seq<Finding>) {
    forall i, j :: 0 <= i < j < |findings| ==> findings[i].id != findings[j].id
  }

  function Elements(findings: seq<Finding>): set<Finding> {
    set f | f in findings
  }

  // ----- the result, stated without order -----

  // A finding with its evidence as a set.
  datatype View = View(finding: Finding, evidence: set<EvidenceRef>)

  function ViewOf(f: Finding): View {
    View(f.(evidence := []), set e | e in f.evidence)
  }

  ghost function GroupOf(all: set<Finding>, fp: string): set<Finding> {
    set f | f in all && f.fingerprint == fp
  }

  ghost predicate IsBest(f: Finding, group: set<Finding>) {
    f in group && forall g :: g in group && g != f ==> RanksBefore(f, g)
  }

  // Two source kinds report the issue.
  ghost predicate Corroborated(group: set<Finding>) {
    exists f, g :: f in group && g in group && f.sourceKind != g.sourceKind
  }

  ghost function BestId(group: set<Finding>): string {
    if exists b :: IsBest(b, group) then (var b :| IsBest(b, group); b.id) else ""
  }

  // What deduplicating the findings `all` makes of `f`: a finding alone is kept as it is, the best of
  // a group gathers the evidence and the corroboration of the group, the others become duplicates.
  ghost function Resolve(f: Finding, all: set<Finding>): View {
    var group := GroupOf(all, f.fingerprint);
    if group == {f} then ViewOf(f)
    else if IsBest(f, group) then
      View(f.(evidence := [], confidence := if Corroborated(group) then f.confidence.Raised() else f.confidence),
           UnionEvidence(group))
    else ViewOf(f.(state := Duplicate, reason := Some("merged into " + BestId(group))))
  }

  ghost function Resolver(all: set<Finding>): Finding -> View {
    (f: Finding) => Resolve(f, all)
  }

  // ----- one group -----

  lemma {:induction false} SurvivorIsBest(group: seq<Finding>)
    requires group != [] && DistinctIds(group)
    ensures IsBest(Survivor(group), Elements(group))
  {
    var s := Survivor(group);
    if |group| > 1 {
      var rest := group[1..];
      SurvivorIsBest(rest);
      var later := Survivor(rest);
      RanksTotal(later, group[0]);
      assert later.id != group[0].id;
      forall g | g in Elements(group) && g != s ensures RanksBefore(s, g) {
        if g != group[0] {
          assert g in rest;
          if s == group[0] && g != later {
            RanksTransitive(s, later, g);
          }
        }
      }
    }
  }

  lemma {:induction false} NoneBefore(group: seq<Finding>)
    requires group != []
    ensures forall f :: f in group ==> !RanksBefore(f, Survivor(group))
  {
    var s := Survivor(group);
    RanksTotal(group[0], group[0]);
    if |group| > 1 {
      var rest := group[1..];
      NoneBefore(rest);
      var later := Survivor(rest);
      RanksTotal(later, group[0]);
      forall f | f in group ensures !RanksBefore(f, s) {
        assert f == group[0] || f in rest;
        if RanksBefore(f, s) {
          RanksBetween(f, later, s);
        }
      }
    }
  }

  // No finding of the group is more severe than the survivor; of the equally severe ones none is surer, of
  // those none has a better source, and of those none a lower id.
  lemma SurvivorOrder(group: seq<Finding>, f: Finding)
    requires group != [] && f in group
    ensures var s := Survivor(group);
            && s in group
            && !MoreSevere(f.severity, s.severity)
            && (f.severity == s.severity ==> !Surer(f.confidence, s.confidence))
            && (f.severity == s.severity && f.confidence == s.confidence ==>
                  !BetterSource(f.sourceKind, s.sourceKind))
            && (f.severity == s.severity && f.confidence == s.confidence && f.sourceKind == s.sourceKind ==>
                  !InDictionaryBefore(f.id, s.id))
  {
    NoneBefore(group);
    RanksBeforeIs(f, Survivor(group));
    hide Survivor, RanksBefore, InDictionaryBefore, MoreSevere, Surer, BetterSource;
  }

  lemma BestIsUnique(group: set<Finding>, s: Finding)
    requires IsBest(s, group)
    ensures BestId(group) == s.id
  {
    var b :| IsBest(b, group) && BestId(group) == b.id;
    RanksTotal(b, s);
  }

  lemma {:induction false} AddRefsMembers(seen: seq<EvidenceRef>, refs: seq<EvidenceRef>)
    requires NoRepeats(seen)
    ensures NoRepeats(AddRefs(seen, refs))
    ensures forall e :: e in AddRefs(seen, refs) <==> e in seen || e in refs
    decreases |refs|
  {
    if refs != [] {
      AddRefsMembers(if refs[0] in seen then seen else seen + [refs[0]], refs[1..]);
    }
  }

  // The merged evidence is the union, without repeats.
  lemma {:induction false} AddEvidenceMembers(seen: seq<EvidenceRef>, findings: seq<Finding>)
    requires NoRepeats(seen)
    ensures NoRepeats(AddEvidence(seen, findings))
    ensures forall e :: e in AddEvidence(seen, findings) <==> e in seen || exists f :: f in findings && e in f.evidence
    decreases |findings|
  {
    if findings != [] {
      AddRefsMembers(seen, findings[0].evidence);
      AddEvidenceMembers(AddRefs(seen, findings[0].evidence), findings[1..]);
      forall e
        ensures (exists f :: f in findings && e in f.evidence)
           <==> e in findings[0].evidence || exists f :: f in findings[1..] && e in f.evidence
      {
        assert findings == [findings[0]] + findings[1..];
      }
    }
  }

  lemma {:induction false} MaxSeverityIs(group: seq<Finding>, s: Severity)
    requires exists f :: f in group && f.severity == s
    requires forall f :: f in group ==> f.severity.Rank() <= s.Rank()
    ensures MaxSeverity(group) == s
  {
    if |group| > 1 {
      var f :| f in group && f.severity == s;
      if g :| g in group[1..] && g.severity == s {
        MaxSeverityIs(group[1..], s);
      } else {
        assert f == group[0];
        MaxSeverityAtMost(group[1..], s);
      }
    }
  }

  lemma {:induction false} MaxSeverityAtMost(group: seq<Finding>, s: Severity)
    requires group != [] && forall f :: f in group ==> f.severity.Rank() <= s.Rank()
    ensures MaxSeverity(group).Rank() <= s.Rank()
  {
    if |group| > 1 {
      MaxSeverityAtMost(group[1..], s);
    }
  }

  // Taking out the survivor's id leaves exactly the other findings.
  lemma LosersAreTheRest(group: seq<Finding>, s: Finding)
    requires s in group && DistinctIds(group)
    ensures multiset([s] + Filter(LacksId(s.id), group)) == multiset(group)
    ensures forall f :: f in Filter(LacksId(s.id), group) <==> f in group && f != s
  {
    hide Filter;
    var k :| 0 <= k < |group| && group[k] == s;
    assert forall i :: 0 <= i < |group| && i != k ==> group[i].id != s.id;
    FilterOne(LacksId(s.id), group, k);
    TakenOut(group, k);
    FilterMembers(LacksId(s.id), group);
    forall f | f in group && f != s ensures LacksId(s.id)(f) {
      var i :| 0 <= i < |group| && group[i] == f;
    }
  }

  ghost function UnionEvidence(group: set<Finding>): set<EvidenceRef> {
    set g, e | g in group && e in g.evidence :: e
  }

  lemma MergedEvidenceIsUnion(all: seq<Finding>)
    ensures (set e | e in AddEvidence([], all)) == UnionEvidence(Elements(all))
  {
    AddEvidenceMembers([], all);
  }

  lemma OtherSourceIsCorroborated(s: Finding, losers: seq<Finding>)
    ensures OtherSource(s, losers) <==> Corroborated(Elements([s] + losers))
  {
    var all := [s] + losers;
    assert s in all;
    if OtherSource(s, losers) {
      var l :| l in losers && l.sourceKind != s.sourceKind;
      assert l in all;
      assert l in Elements(all) && s in Elements(all);
    }
    if Corroborated(Elements(all)) {
      var f, g :| f in Elements(all) && g in Elements(all) && f.sourceKind != g.sourceKind;
      assert f == s || f in losers;
      assert g == s || g in losers;
    }
  }

  // The survivor's severity already is the group's highest, its evidence becomes the group's, and its
  // confidence rises one step exactly when the group holds two source kinds.
  lemma Enriched(group: seq<Finding>)
    requires group != [] && DistinctIds(group)
    ensures var s := Survivor(group);
            var e := Enrich(s, Filter(LacksId(s.id), group));
            && e == s.(evidence := e.evidence, confidence := e.confidence)
            && (forall f :: f in group ==> f.severity.Rank() <= s.severity.Rank())
            && e.confidence == (if Corroborated(Elements(group)) then s.confidence.Raised() else s.confidence)
            && NoRepeats(e.evidence)
            && (set r | r in e.evidence) == UnionEvidence(Elements(group))
  {
    var s := Survivor(group);
    var losers := Filter(LacksId(s.id), group);
    var all := [s] + losers;
    LosersAreTheRest(group, s);
    SurvivorIsBest(group);
    assert forall f :: f in all <==> f in group;
    assert Elements(all) == Elements(group);
    forall f | f in group ensures f.severity.Rank() <= s.severity.Rank() {
      assert f in Elements(group);
    }
    hide RanksBefore, Filter, Survivor;
    MaxSeverityIs(all, s.severity);
    MergedEvidenceIsUnion(all);
    AddEvidenceMembers([], all);
    OtherSourceIsCorroborated(s, losers);
  }

  // The survivor's own references come first, then those of the others, each once.
  lemma EvidenceInOrder(s: Finding, losers: seq<Finding>)
    ensures InOrderOf(Enrich(s, losers).evidence, s.evidence + EvidenceOf(losers))
  {
    var all := [s] + losers;
    MoreEvidence([], [], all);
    assert all[1..] == losers;
    assert [] + EvidenceOf(all) == s.evidence + EvidenceOf(losers);
    hide InOrderOf, AddEvidence;
  }

  lemma BestResolves(group: seq<Finding>, all: set<Finding>)
    requires |group| > 1 && DistinctIds(group)
    requires GroupOf(all, Survivor(group).fingerprint) == Elements(group)
    ensures Resolve(Survivor(group), all)
         == ViewOf(Enrich(Survivor(group), Filter(LacksId(Survivor(group).id), group)))
  {
    Enriched(group);
    SurvivorIsBest(group);
    assert group[0] in Elements(group) && group[1] in Elements(group) && group[0].id != group[1].id;
    hide Filter, Survivor, Enrich, RanksBefore;
  }

  lemma LoserResolves(s: Finding, l: Finding, all: set<Finding>)
    requires l != s && IsBest(s, GroupOf(all, l.fingerprint)) && l in all
    ensures Resolve(l, all) == ViewOf(MergedInto(s.id)(l))
  {
    var group := GroupOf(all, l.fingerprint);
    BestIsUnique(group, s);
    assert l in group;
    assert s in group;
    RanksTotal(s, l);
    hide RanksBefore;
  }

  lemma GroupResolves(group: seq<Finding>, all: set<Finding>, fp: string)
    requires group != [] && DistinctIds(group)
    requires GroupOf(all, fp) == Elements(group)
    ensures Reordered(Map(ViewOf, MergeGroup(group)), Map(Resolver(all), group))
  {
    forall f | f in group ensures f.fingerprint == fp {
      assert f in GroupOf(all, fp);
    }
    if |group| == 1 {
      assert group == [group[0]];
      assert Elements(group) == {group[0]};
      assert Map(ViewOf, group) == [ViewOf(group[0])] == Map(Resolver(all), group);
    } else {
      var s := Survivor(group);
      var losers := Filter(LacksId(s.id), group);
      SurvivorIsBest(group);
      LosersAreTheRest(group, s);
      BestResolves(group, all);
      assert MergeGroup(group) == [Enrich(s, losers)] + Map(MergedInto(s.id), losers);
      hide Filter, Survivor, Enrich, RanksBefore, MergeGroup, Resolve, ViewOf;
      forall l | l in losers ensures Resolve(l, all) == ViewOf(MergedInto(s.id)(l)) {
        assert l in GroupOf(all, fp);
        LoserResolves(s, l, all);
      }
      MapMap(MergedInto(s.id), ViewOf, Resolver(all), losers);
      MapConcat(ViewOf, [Enrich(s, losers)], Map(MergedInto(s.id), losers));
      MapReordered(Resolver(all), [s] + losers, group);
      MapConcat(Resolver(all), [s], losers);
      assert Map(ViewOf, [Enrich(s, losers)]) == [ViewOf(Enrich(s, losers))] == Map(Resolver(all), [s]);
    }
  }

  // ----- all findings -----

  lemma {:induction false} FilterDistinctIds(p: Finding -> bool, findings: seq<Finding>)
    requires DistinctIds(findings)
    ensures DistinctIds(Filter(p, findings))
  {
    if findings != [] {
      FilterDistinctIds(p, findings[1..]);
      FilterMembers(p, findings[1..]);
      var later := Filter(p, findings[1..]);
      forall k | 0 <= k < |later| ensures later[k].id != findings[0].id {
        assert later[k] in findings[1..];
      }
    }
  }

  // Taking one fingerprint out does not change the other groups.
  lemma ResolvesElsewhere(findings: seq<Finding>, fp: string)
    ensures var rest := Filter(LacksFingerprint(fp), findings);
            Map(Resolver(Elements(rest)), rest) == Map(Resolver(Elements(findings)), rest)
  {
    var rest := Filter(LacksFingerprint(fp), findings);
    FilterMembers(LacksFingerprint(fp), findings);
    forall f | f in rest ensures Resolver(Elements(rest))(f) == Resolver(Elements(findings))(f) {
      assert GroupOf(Elements(rest), f.fingerprint) == GroupOf(Elements(findings), f.fingerprint);
    }
    MapAgrees(Resolver(Elements(rest)), Resolver(Elements(findings)), rest);
  }

  lemma FirstGroupResolves(findings: seq<Finding>)
    requires findings != [] && DistinctIds(findings)
    ensures var group := Filter(HasFingerprint(findings[0].fingerprint), findings);
            && group != []
            && Reordered(Map(ViewOf, MergeGroup(group)), Map(Resolver(Elements(findings)), group))
  {
    var fp := findings[0].fingerprint;
    FilterKeepsFirst(HasFingerprint(fp), findings);
    FilterMembers(HasFingerprint(fp), findings);
    FilterDistinctIds(HasFingerprint(fp), findings);
    hide MergeGroup, Filter;
    GroupResolves(Filter(HasFingerprint(fp), findings), Elements(findings), fp);
  }

  // Deduplication gives each finding what the set of all findings determines, however they are ordered.
  lemma {:induction false} DeduplicatedResolves(findings: seq<Finding>)
    requires DistinctIds(findings)
    ensures Reordered(Map(ViewOf, Deduplicated(findings)), Map(Resolver(Elements(findings)), findings))
    decreases |findings|
  {
    if findings != [] {
      var fp, all := findings[0].fingerprint, Elements(findings);
      var group, rest := Filter(HasFingerprint(fp), findings), Filter(LacksFingerprint(fp), findings);
      FilterShrinks(LacksFingerprint(fp), findings);
      FilterSplits(HasFingerprint(fp), LacksFingerprint(fp), findings);
      FirstGroupResolves(findings);
      FilterDistinctIds(LacksFingerprint(fp), findings);
      DeduplicatedResolves(rest);
      ResolvesElsewhere(findings, fp);
      assert Deduplicated(findings) == MergeGroup(group) + Deduplicated(rest);
      hide Filter, MergeGroup, Resolver, ViewOf, DistinctIds, Elements, Deduplicated;
      MapReordered(Resolver(all), group + rest, findings);
      MapConcat(Resolver(all), group, rest);
      MapConcat(ViewOf, MergeGroup(group), Deduplicated(rest));
    }
  }

  // Any reordering of the findings gives the same results equally often.
  lemma OrderIndependent(a: seq<Finding>, b: seq<Finding>)
    requires DistinctIds(a) && Reordered(a, b)
    ensures Reordered(Map(ViewOf, Deduplicated(a)), Map(ViewOf, Deduplicated(b)))
  {
    hide Deduplicated, ViewOf, Resolver;
    DistinctIdsReordered(a, b);
    DeduplicatedResolves(a);
    DeduplicatedResolves(b);
    assert Elements(a) == Elements(b) by {
      assert forall f :: f in a <==> f in multiset(a);
      assert forall f :: f in b <==> f in multiset(b);
    }
    hide DistinctIds, Elements;
    MapReordered(Resolver(Elements(a)), a, b);
  }

  function IdOf(f: Finding): string {
    f.id
  }

  function ViewId(v: View): string {
    v.finding.id
  }

  lemma DistinctById(findings: seq<Finding>)
    ensures DistinctIds(findings) <==> NoRepeats(Map(IdOf, findings))
  {
    var ids := Map(IdOf, findings);
    assert forall i :: 0 <= i < |findings| ==> ids[i] == findings[i].id;
    if NoRepeats(ids) {
      forall i, j | 0 <= i < j < |findings| ensures findings[i].id != findings[j].id {
        assert ids[i] != ids[j];
      }
    }
  }

  lemma DistinctIdsReordered(a: seq<Finding>, b: seq<Finding>)
    requires DistinctIds(a) && Reordered(a, b)
    ensures DistinctIds(b)
  {
    hide DistinctIds;
    DistinctById(a);
    DistinctById(b);
    MapReordered(IdOf, a, b);
    NoRepeatsReordered(Map(IdOf, a), Map(IdOf, b));
  }

  lemma ResolvedIds(findings: seq<Finding>, all: set<Finding>)
    ensures Map(ViewId, Map(ViewOf, findings)) == Map(IdOf, findings)
    ensures Map(ViewId, Map(Resolver(all), findings)) == Map(IdOf, findings)
  {
    MapMap(ViewOf, ViewId, IdOf, findings);
    hide RanksBefore;
    MapMap(Resolver(all), ViewId, IdOf, findings);
  }

  // Nothing is lost and nothing is added: the ids of the result are those of the input.
  lemma IdsConserved(findings: seq<Finding>)
    requires DistinctIds(findings)
    ensures Reordered(Map(IdOf, Deduplicated(findings)), Map(IdOf, findings))
    ensures DistinctIds(Deduplicated(findings))
  {
    hide Deduplicated, ViewOf, Resolver, DistinctIds, NoRepeats, Elements, Map;
    var result, all := Deduplicated(findings), Elements(findings);
    DeduplicatedResolves(findings);
    ResolvedIds(findings, all);
    ResolvedIds(result, all);
    MapReordered(ViewId, Map(ViewOf, result), Map(Resolver(all), findings));
    DistinctById(findings);
    DistinctById(result);
    NoRepeatsReordered(Map(IdOf, findings), Map(IdOf, result));
  }

  lemma MergedGroupStates(group: seq<Finding>, fp: string)
    requires group != [] && forall f :: f in group ==> f.fingerprint == fp
    ensures forall d :: d in MergeGroup(group) ==> d.fingerprint == fp
    ensures forall k :: 0 < k < |MergeGroup(group)| ==> MergeGroup(group)[k].state == Duplicate
  {
    if |group| > 1 {
      var s := Survivor(group);
      FilterMembers(LacksId(s.id), group);
      var losers := Filter(LacksId(s.id), group);
      forall k | 0 <= k < |losers| ensures Map(MergedInto(s.id), losers)[k].fingerprint == fp {
        assert losers[k] in losers;
      }
    }
  }

  // Later findings of one fingerprint are duplicates.
  ghost predicate OnePerFingerprint(findings: seq<Finding>) {
    forall i, j :: 0 <= i < j < |findings| && findings[i].fingerprint == findings[j].fingerprint
               ==> findings[j].state == Duplicate
  }

  lemma {:induction false} FingerprintsKept(findings: seq<Finding>)
    ensures forall d :: d in Deduplicated(findings) ==> exists f :: f in findings && f.fingerprint == d.fingerprint
    decreases |findings|
  {
    if findings != [] {
      var fp := findings[0].fingerprint;
      var group, rest := Filter(HasFingerprint(fp), findings), Filter(LacksFingerprint(fp), findings);
      FilterShrinks(LacksFingerprint(fp), findings);
      FilterKeepsFirst(HasFingerprint(fp), findings);
      FilterMembers(HasFingerprint(fp), findings);
      FilterMembers(LacksFingerprint(fp), findings);
      MergedGroupStates(group, fp);
      hide Filter, MergeGroup;
      FingerprintsKept(rest);
      assert findings[0] in findings;
    }
  }

  // Of the findings with one fingerprint, all but the first in the result are duplicates, whatever
  // the ids and states of the input.
  lemma {:induction false} OneSurvivor(findings: seq<Finding>)
    ensures OnePerFingerprint(Deduplicated(findings))
    decreases |findings|
  {
    if findings != [] {
      var fp := findings[0].fingerprint;
      var group, rest := Filter(HasFingerprint(fp), findings), Filter(LacksFingerprint(fp), findings);
      FilterShrinks(LacksFingerprint(fp), findings);
      FilterKeepsFirst(HasFingerprint(fp), findings);
      FilterMembers(HasFingerprint(fp), findings);
      FilterMembers(LacksFingerprint(fp), findings);
      MergedGroupStates(group, fp);
      OneSurvivor(rest);
      FingerprintsKept(rest);
      var merged, others := MergeGroup(group), Deduplicated(rest);
      assert Deduplicated(findings) == merged + others;
      hide Filter, MergeGroup, Deduplicated;
      OnePerFingerprintConcat(merged, others, fp);
    }
  }

  lemma OnePerFingerprintConcat(merged: seq<Finding>, others: seq<Finding>, fp: string)
    requires forall d :: d in merged ==> d.fingerprint == fp
    requires forall k :: 0 < k < |merged| ==> merged[k].state == Duplicate
    requires forall d :: d in others ==> d.fingerprint != fp
    requires OnePerFingerprint(others)
    ensures OnePerFingerprint(merged + others)
  {
    var all := merged + others;
    forall i | 0 <= i < |merged| ensures all[i].fingerprint == fp {
      assert all[i] in merged;
    }
    forall j | |merged| <= j < |all| ensures all[j].fingerprint != fp {
      assert all[j] in others;
    }
    forall i, j | 0 <= i < j < |all| && all[i].fingerprint == all[j].fingerprint ensures all[j].state == Duplicate {
      if i >= |merged| {
        assert all[i] == others[i - |merged|] && all[j] == others[j - |merged|];
      }
    }
  }

  // ----- the order of the result -----

  // Fingerprint `a` appears before `b` does.
  ghost predicate AppearsBefore(findings: seq<Finding>, a: string, b: string) {
    exists p :: 0 <= p < |findings| && findings[p].fingerprint == a
             && forall q :: 0 <= q <= p ==> findings[q].fingerprint != b
  }

  lemma AppearsNext(f: Finding, rest: seq<Finding>, a: string, b: string)
    ensures AppearsBefore([f] + rest, a, b)
       <==> f.fingerprint != b && (f.fingerprint == a || AppearsBefore(rest, a, b))
  {
    var all := [f] + rest;
    assert all[0] == f && forall k :: 0 < k < |all| ==> all[k] == rest[k - 1];
    if p :| 0 <= p < |rest| && rest[p].fingerprint == a && forall q :: 0 <= q <= p ==> rest[q].fingerprint != b {
      assert all[p + 1].fingerprint == a;
    }
    if p :| 0 <= p < |all| && all[p].fingerprint == a && forall q :: 0 <= q <= p ==> all[q].fingerprint != b {
      assert p > 0 ==> rest[p - 1].fingerprint == a;
      forall q | 0 <= q < p ensures rest[q].fingerprint != b {
        assert all[q + 1].fingerprint != b;
      }
    }
  }

  // Fingerprints taken out do not change the order of the others.
  lemma {:induction false} AppearsAmongOthers(findings: seq<Finding>, gone: string, a: string, b: string)
    requires b != gone && AppearsBefore(Filter(LacksFingerprint(gone), findings), a, b)
    ensures AppearsBefore(findings, a, b)
  {
    if findings != [] {
      var f, rest := findings[0], findings[1..];
      var kept := Filter(LacksFingerprint(gone), rest);
      assert findings == [f] + rest;
      assert Filter(LacksFingerprint(gone), findings) == (if f.fingerprint != gone then [f] else []) + kept;
      hide AppearsBefore, Filter;
      AppearsNext(f, rest, a, b);
      AppearsNext(f, kept, a, b);
      assert [] + kept == kept;
      if AppearsBefore(kept, a, b) {
        AppearsAmongOthers(rest, gone, a, b);
      }
    }
  }

  // The findings of `result` list their fingerprints in the order in which `findings` do.
  ghost predicate InAppearance(result: seq<Finding>, findings: seq<Finding>) {
    forall i, j :: 0 <= i < j < |result| && result[i].fingerprint != result[j].fingerprint ==>
      AppearsBefore(findings, result[i].fingerprint, result[j].fingerprint)
  }

  lemma AppearanceConcat(merged: seq<Finding>, others: seq<Finding>, findings: seq<Finding>)
    requires findings != []
    requires var fp := findings[0].fingerprint;
             && (forall d :: d in merged ==> d.fingerprint == fp)
             && (forall d :: d in others ==> d.fingerprint != fp)
             && InAppearance(others, Filter(LacksFingerprint(fp), findings))
    ensures InAppearance(merged + others, findings)
  {
    var all, fp := merged + others, findings[0].fingerprint;
    hide AppearsBefore, Filter;
    forall i, j | 0 <= i < j < |all| && all[i].fingerprint != all[j].fingerprint
      ensures AppearsBefore(findings, all[i].fingerprint, all[j].fingerprint)
    {
      if i < |merged| {
        assert all[i] in merged;
        AppearsNext(findings[0], findings[1..], fp, all[j].fingerprint);
        assert findings == [findings[0]] + findings[1..];
      } else {
        assert all[i] == others[i - |merged|] && all[j] == others[j - |merged|] && all[j] in others;
        AppearsAmongOthers(findings, fp, all[i].fingerprint, all[j].fingerprint);
      }
    }
  }

  // The result lists the fingerprints one after the other, in the order in which they first appear.
  lemma {:induction false} InOrderOfAppearance(findings: seq<Finding>)
    ensures InAppearance(Deduplicated(findings), findings)
    decreases |findings|
  {
    if findings != [] {
      var fp := findings[0].fingerprint;
      var group, rest := Filter(HasFingerprint(fp), findings), Filter(LacksFingerprint(fp), findings);
      FilterShrinks(LacksFingerprint(fp), findings);
      FilterKeepsFirst(HasFingerprint(fp), findings);
      FilterMembers(HasFingerprint(fp), findings);
      FilterMembers(LacksFingerprint(fp), findings);
      MergedGroupStates(group, fp);
      InOrderOfAppearance(rest);
      FingerprintsKept(rest);
      assert Deduplicated(findings) == MergeGroup(group) + Deduplicated(rest);
      hide Filter, MergeGroup, Deduplicated, InAppearance;
      AppearanceConcat(MergeGroup(group), Deduplicated(rest), findings);
    }
  }
}
