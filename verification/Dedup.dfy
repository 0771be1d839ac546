/** Deduplication of findings that share a fingerprint: the loops, and the result they denote. */
module Dedup {
  import opened Options
  import opened Seqs
  import opened Findings

  // ----- the steps on one group -----

  // The first of the findings that none of the others ranks before: `sorted(...)[0]`.
  function Survivor(group: seq<Finding>): (s: Finding)
    requires group != []
    ensures s in group
  {
    if |group| == 1 then group[0]
    else
      var later := Survivor(group[1..]);
      if RanksBefore(later, group[0]) then later else group[0]
  }

  function MaxSeverity(group: seq<Finding>): Severity
    requires group != []
  {
    if |group| == 1 then group[0].severity
    else
      var later := MaxSeverity(group[1..]);
      if later.Rank() > group[0].severity.Rank() then later else group[0].severity
  }

  // Keys of an insertion-ordered dict `seen` after setting every one of `refs`.
  function AddRefs(seen: seq<EvidenceRef>, refs: seq<EvidenceRef>): seq<EvidenceRef>
    decreases |refs|
  {
    if refs == [] then seen
    else AddRefs(if refs[0] in seen then seen else seen + [refs[0]], refs[1..])
  }

  function AddEvidence(seen: seq<EvidenceRef>, findings: seq<Finding>): seq<EvidenceRef>
    decreases |findings|
  {
    if findings == [] then seen else AddEvidence(AddRefs(seen, findings[0].evidence), findings[1..])
  }

  // The references of all findings, one after the other.
  function EvidenceOf(findings: seq<Finding>): seq<EvidenceRef> {
    if findings == [] then [] else findings[0].evidence + EvidenceOf(findings[1..])
  }

  // `merged` holds what `all` holds, each once, in order of first occurrence: before any occurrence of a
  // reference, those ahead of it in `merged` have occurred.
  ghost predicate InOrderOf(merged: seq<EvidenceRef>, all: seq<EvidenceRef>) {
    && NoRepeats(merged)
    && (forall e :: e in merged <==> e in all)
    && (forall i, j, q :: 0 <= i < j < |merged| && 0 <= q < |all| && all[q] == merged[j] ==> merged[i] in all[..q])
  }

  lemma OneMoreRef(seen: seq<EvidenceRef>, all: seq<EvidenceRef>, ref: EvidenceRef)
    requires InOrderOf(seen, all)
    ensures InOrderOf(if ref in seen then seen else seen + [ref], all + [ref])
  {
    var next, more := if ref in seen then seen else seen + [ref], all + [ref];
    forall i, j, q | 0 <= i < j < |next| && 0 <= q < |more| && more[q] == next[j] ensures next[i] in more[..q] {
      assert next[i] == seen[i] && seen[i] in seen;
      if q < |all| {
        assert more[..q] == all[..q];
        assert all[q] in all;
      } else {
        assert more[..q] == all;
      }
    }
  }

  lemma {:induction false} MoreRefs(seen: seq<EvidenceRef>, all: seq<EvidenceRef>, refs: seq<EvidenceRef>)
    requires InOrderOf(seen, all)
    ensures InOrderOf(AddRefs(seen, refs), all + refs)
    decreases |refs|
  {
    hide InOrderOf;
    if refs == [] {
      assert all + refs == all;
    } else {
      OneMoreRef(seen, all, refs[0]);
      assert all + [refs[0]] + refs[1..] == all + refs;
      MoreRefs(if refs[0] in seen then seen else seen + [refs[0]], all + [refs[0]], refs[1..]);
    }
  }

  lemma {:induction false} MoreEvidence(seen: seq<EvidenceRef>, all: seq<EvidenceRef>, findings: seq<Finding>)
    requires InOrderOf(seen, all)
    ensures InOrderOf(AddEvidence(seen, findings), all + EvidenceOf(findings))
    decreases |findings|
  {
    hide InOrderOf, AddRefs;
    if findings == [] {
      assert all + [] == all;
    } else {
      var refs := findings[0].evidence;
      MoreRefs(seen, all, refs);
      MoreEvidence(AddRefs(seen, refs), all + refs, findings[1..]);
      ConcatAssociates(all, refs, EvidenceOf(findings[1..]));
    }
  }

  method MergeEvidence(findings: seq<Finding>) returns (merged: seq<EvidenceRef>)
    ensures merged == AddEvidence([], findings)
    ensures InOrderOf(merged, EvidenceOf(findings))
  {
    MoreEvidence([], [], findings);
    assert [] + EvidenceOf(findings) == EvidenceOf(findings);
    merged := [];
    for i := 0 to |findings|
      invariant AddEvidence(merged, findings[i..]) == AddEvidence([], findings)
    {
      var refs := findings[i].evidence;
      ghost var before := merged;
      for j := 0 to |refs|
        invariant AddRefs(merged, refs[j..]) == AddRefs(before, refs)
      {
        assert refs[j..][1..] == refs[j + 1..];
        if refs[j] !in merged {
          merged := merged + [refs[j]];
        }
      }
      assert findings[i..][1..] == findings[i + 1..];
    }
  }

  predicate OtherSource(s: Finding, losers: seq<Finding>) {
    exists l :: l in losers && l.sourceKind != s.sourceKind
  }

  function Enrich(s: Finding, losers: seq<Finding>): Finding {
    s.(evidence := AddEvidence([], [s] + losers),
       severity := MaxSeverity([s] + losers),
       confidence := if OtherSource(s, losers) then s.confidence.Raised() else s.confidence)
  }

  function MergedInto(id: string): Finding -> Finding {
    (f: Finding) => f.(state := Duplicate, reason := Some("merged into " + id))
  }

  function LacksId(id: string): Finding -> bool {
    (f: Finding) => f.id != id
  }

  function MergeGroup(group: seq<Finding>): seq<Finding>
    requires group != []
  {
    if |group| == 1 then group
    else
      var s := Survivor(group);
      var losers := Filter(LacksId(s.id), group);
      [Enrich(s, losers)] + Map(MergedInto(s.id), losers)
  }

  // ----- all groups -----

  function HasFingerprint(fp: string): Finding -> bool {
    (f: Finding) => f.fingerprint == fp
  }

  function LacksFingerprint(fp: string): Finding -> bool {
    (f: Finding) => f.fingerprint != fp
  }

  // The groups in order of first appearance, each merged.
  function Deduplicated(findings: seq<Finding>): seq<Finding>
    decreases |findings|
  {
    if findings == [] then []
    else
      var fp := findings[0].fingerprint;
      FilterShrinks(LacksFingerprint(fp), findings);
      FilterKeepsFirst(HasFingerprint(fp), findings);
      MergeGroup(Filter(HasFingerprint(fp), findings)) + Deduplicated(Filter(LacksFingerprint(fp), findings))
  }

  // The fingerprints in order of first appearance.
  function Fingerprints(findings: seq<Finding>): seq<string>
    decreases |findings|
  {
    if findings == [] then []
    else
      var fp := findings[0].fingerprint;
      FilterShrinks(LacksFingerprint(fp), findings);
      [fp] + Fingerprints(Filter(LacksFingerprint(fp), findings))
  }

  // ----- the loops -----

  lemma {:induction false} FingerprintsAre(findings: seq<Finding>)
    ensures forall fp :: fp in Fingerprints(findings) <==> exists f :: f in findings && f.fingerprint == fp
    decreases |findings|
  {
    if findings != [] {
      var fp := findings[0].fingerprint;
      FilterShrinks(LacksFingerprint(fp), findings);
      FilterMembers(LacksFingerprint(fp), findings);
      FingerprintsAre(Filter(LacksFingerprint(fp), findings));
    }
  }

  // One more finding appends its fingerprint if that is new.
  lemma {:induction false} FingerprintsNext(findings: seq<Finding>, f: Finding)
    ensures Fingerprints(findings + [f])
         == if f.fingerprint in Fingerprints(findings) then Fingerprints(findings)
            else Fingerprints(findings) + [f.fingerprint]
    decreases |findings|
  {
    if findings == [] {
      assert findings + [f] == [f];
      assert Filter(LacksFingerprint(f.fingerprint), [f]) == [];
    } else {
      var fp := findings[0].fingerprint;
      var rest := Filter(LacksFingerprint(fp), findings);
      FilterShrinks(LacksFingerprint(fp), findings);
      FilterConcat(LacksFingerprint(fp), findings, [f]);
      if f.fingerprint == fp {
        assert Filter(LacksFingerprint(fp), [f]) == [];
        assert rest + [] == rest;
      } else {
        assert Filter(LacksFingerprint(fp), [f]) == [f];
        FingerprintsNext(rest, f);
      }
    }
  }

  function MergeGroups(findings: seq<Finding>, fps: seq<string>): seq<Finding>
    requires forall fp :: fp in fps ==> Filter(HasFingerprint(fp), findings) != []
  {
    if fps == [] then []
    else MergeGroups(findings, fps[..|fps| - 1]) + MergeGroup(Filter(HasFingerprint(fps[|fps| - 1]), findings))
  }

  lemma {:induction false} MergeGroupsFront(findings: seq<Finding>, fps: seq<string>)
    requires fps != [] && forall fp :: fp in fps ==> Filter(HasFingerprint(fp), findings) != []
    ensures MergeGroups(findings, fps)
         == MergeGroup(Filter(HasFingerprint(fps[0]), findings)) + MergeGroups(findings, fps[1..])
  {
    hide MergeGroup, Filter;
    if |fps| > 1 {
      var front, last := fps[..|fps| - 1], fps[|fps| - 1];
      MergeGroupsFront(findings, front);
      assert front[1..] == fps[1..][..|fps| - 2];
      ConcatAssociates(MergeGroup(Filter(HasFingerprint(fps[0]), findings)), MergeGroups(findings, front[1..]),
                       MergeGroup(Filter(HasFingerprint(last), findings)));
    }
  }

  lemma {:induction false} MergeGroupsElsewhere(a: seq<Finding>, b: seq<Finding>, fps: seq<string>)
    requires forall fp :: fp in fps ==> Filter(HasFingerprint(fp), a) == Filter(HasFingerprint(fp), b) != []
    ensures MergeGroups(a, fps) == MergeGroups(b, fps)
  {
    hide MergeGroup, Filter;
    if fps != [] {
      MergeGroupsElsewhere(a, b, fps[..|fps| - 1]);
    }
  }

  // The group of another fingerprint is the same after one fingerprint is taken out.
  lemma {:induction false} GroupElsewhere(findings: seq<Finding>, gone: string, fp: string)
    requires fp != gone
    ensures Filter(HasFingerprint(fp), Filter(LacksFingerprint(gone), findings)) == Filter(HasFingerprint(fp), findings)
  {
    if findings != [] {
      GroupElsewhere(findings[1..], gone, fp);
      var first := if findings[0].fingerprint != gone then [findings[0]] else [];
      FilterConcat(HasFingerprint(fp), first, Filter(LacksFingerprint(gone), findings[1..]));
    }
  }

  lemma GroupNonempty(findings: seq<Finding>, fp: string)
    ensures fp in Fingerprints(findings) <==> Filter(HasFingerprint(fp), findings) != []
  {
    FingerprintsAre(findings);
    var group := Filter(HasFingerprint(fp), findings);
    FilterMembers(HasFingerprint(fp), findings);
    assert group != [] ==> group[0] in group;
    if fp in Fingerprints(findings) {
      var f :| f in findings && f.fingerprint == fp;
      assert f in group;
    }
  }

  // Going through the groups by fingerprint gives the deduplicated findings.
  lemma {:induction false} MergeGroupsIsDeduplicated(findings: seq<Finding>)
    ensures forall fp :: fp in Fingerprints(findings) ==> Filter(HasFingerprint(fp), findings) != []
    ensures MergeGroups(findings, Fingerprints(findings)) == Deduplicated(findings)
    decreases |findings|
  {
    forall fp | fp in Fingerprints(findings) ensures Filter(HasFingerprint(fp), findings) != [] {
      GroupNonempty(findings, fp);
    }
    if findings != [] {
      var first := findings[0].fingerprint;
      var rest := Filter(LacksFingerprint(first), findings);
      FilterShrinks(LacksFingerprint(first), findings);
      FilterMembers(LacksFingerprint(first), findings);
      MergeGroupsIsDeduplicated(rest);
      var fps := Fingerprints(findings);
      assert fps == [first] + Fingerprints(rest);
      FingerprintsAre(rest);
      forall fp | fp in Fingerprints(rest)
        ensures Filter(HasFingerprint(fp), rest) == Filter(HasFingerprint(fp), findings)
      {
        GroupElsewhere(findings, first, fp);
      }
      hide MergeGroup;
      MergeGroupsFront(findings, fps);
      MergeGroupsElsewhere(findings, rest, Fingerprints(rest));
    }
  }

  // `groups` and `keys` are the insertion-ordered dict of the findings by fingerprint.
  ghost predicate Grouped(groups: map<string, seq<Finding>>, keys: seq<string>, findings: seq<Finding>) {
    && keys == Fingerprints(findings)
    && (forall fp :: fp in groups <==> fp in keys)
    && (forall fp :: fp in groups ==> groups[fp] == Filter(HasFingerprint(fp), findings))
  }

  lemma GroupedNext(groups: map<string, seq<Finding>>, keys: seq<string>, findings: seq<Finding>, f: Finding)
    requires Grouped(groups, keys, findings)
    ensures var fp := f.fingerprint;
            if fp in groups then Grouped(groups[fp := groups[fp] + [f]], keys, findings + [f])
            else Grouped(groups[fp := [f]], keys + [fp], findings + [f])
  {
    FingerprintsNext(findings, f);
    forall fp
      ensures Filter(HasFingerprint(fp), findings + [f])
           == Filter(HasFingerprint(fp), findings) + (if f.fingerprint == fp then [f] else [])
    {
      FilterConcat(HasFingerprint(fp), findings, [f]);
      assert Filter(HasFingerprint(fp), [f]) == if f.fingerprint == fp then [f] else [];
    }
    hide Filter, Fingerprints;
    GroupNonempty(findings, f.fingerprint);
  }

  method Deduplicate(findings: seq<Finding>) returns (result: seq<Finding>)
    ensures result == Deduplicated(findings)
  {
    hide Deduplicated, Fingerprints, Filter, AddEvidence, MaxSeverity;
    // A Python dict remembers the order in which its keys were inserted.
    var groups: map<string, seq<Finding>> := map[];
    var keys: seq<string> := [];
    assert Grouped(groups, keys, findings[..0]) by {
      GroupedNone();
      assert findings[..0] == [];
    }
    for i := 0 to |findings|
      invariant Grouped(groups, keys, findings[..i])
    {
      var finding := findings[i];
      GroupedNext(groups, keys, findings[..i], finding);
      assert findings[..i + 1] == findings[..i] + [finding];
      if finding.fingerprint !in groups {
        groups := groups[finding.fingerprint := []];
        keys := keys + [finding.fingerprint];
      }
      groups := groups[finding.fingerprint := groups[finding.fingerprint] + [finding]];
    }
    assert findings[..|findings|] == findings;
    MergeGroupsIsDeduplicated(findings);

    hide MergeGroups;
    result := [];
    MergeGroupsNext(findings, keys);
    for j := 0 to |keys|
      invariant result == MergeGroups(findings, keys[..j])
    {
      var group := groups[keys[j]];
      ghost var before := result;
      if |group| == 1 {
        result := result + [group[0]];
        assert MergeGroup(group) == [group[0]];
      } else {
        var survivor := Survivor(group);
        var losers := Filter(LacksId(survivor.id), group);
        result := result + [Enrich(survivor, losers)];
        result := result + Map(MergedInto(survivor.id), losers);
        ConcatAssociates(before, [Enrich(survivor, losers)], Map(MergedInto(survivor.id), losers));
      }
      assert result == before + MergeGroup(group);
    }
    assert keys[..|keys|] == keys;
  }

  lemma MergeGroupsNext(findings: seq<Finding>, keys: seq<string>)
    requires forall fp :: fp in keys ==> Filter(HasFingerprint(fp), findings) != []
    ensures MergeGroups(findings, keys[..0]) == []
    ensures forall j ::
      0 <= j < |keys| ==>
        MergeGroups(findings, keys[..j + 1])
        == MergeGroups(findings, keys[..j]) + MergeGroup(Filter(HasFingerprint(keys[j]), findings))
  {
    forall j | 0 <= j < |keys|
      ensures MergeGroups(findings, keys[..j + 1])
           == MergeGroups(findings, keys[..j]) + MergeGroup(Filter(HasFingerprint(keys[j]), findings))
    {
      hide MergeGroup, Filter;
      assert keys[..j + 1][..j] == keys[..j];
    }
  }

  lemma GroupedNone()
    ensures Grouped(map[], [], [])
  {
  }
}
