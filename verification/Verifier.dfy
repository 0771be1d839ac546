/** Finding verification: the confidence policy, and an untrusted model's verdicts over it. */
module Verifier {
  import opened Options
  import opened Seqs
  import opened Findings

  datatype Verdict = Verdict(index: int, keep: bool, reason: string)

  // What the model call came back with; a failed call and a missing report are the same.
  datatype ModelResult = CallFailed | Report(verdicts: seq<Verdict>)

  function PolicyVerify(f: Finding): Finding {
    if f.state != Candidate then f
    else if f.confidence == Low then
      f.(state := Rejected, reason := Some("confidence below threshold for the first-pass policy"))
    else f.(state := Confirmed, reason := Some("confirmed by the first-pass policy"))
  }

  // Keys of a dict comprehension: the last verdict on an index counts.
  function LastVerdict(verdicts: seq<Verdict>, index: int): Option<Verdict> {
    if verdicts == [] then None
    else
      var last := verdicts[|verdicts| - 1];
      if last.index == index then Some(last) else LastVerdict(verdicts[..|verdicts| - 1], index)
  }

  function OrElse(reason: string, default: string): string {
    if reason == "" then default else reason
  }

  function Apply(index: nat, f: Finding, verdicts: seq<Verdict>): Finding {
    if f.state != Candidate then f
    else match LastVerdict(verdicts, index)
      case None => PolicyVerify(f)
      case Some(v) =>
        if v.keep then f.(state := Confirmed, reason := Some(OrElse(v.reason, "confirmed by the verifier")))
        else f.(state := Rejected, reason := Some(OrElse(v.reason, "rejected by the verifier")))
  }

  function PolicyPass(findings: seq<Finding>): seq<Finding> {
    Map(PolicyVerify, findings)
  }

  function ModelPass(findings: seq<Finding>, result: ModelResult): seq<Finding> {
    if forall f :: f in findings ==> f.state != Candidate then findings
    else match result
      case CallFailed => Map(PolicyVerify, findings)
      case Report(verdicts) => seq(|findings|, i requires 0 <= i < |findings| => Apply(i, findings[i], verdicts))
  }

  // ----- which findings are confirmed -----

  // The report's decision on `index` is its last verdict with that index.
  ghost predicate Keeps(verdicts: seq<Verdict>, index: nat) {
    exists k :: 0 <= k < |verdicts| && verdicts[k].index == index && verdicts[k].keep
             && forall l :: k < l < |verdicts| ==> verdicts[l].index != index
  }

  ghost predicate Mentions(verdicts: seq<Verdict>, index: nat) {
    exists k :: 0 <= k < |verdicts| && verdicts[k].index == index
  }

  lemma MentionsNext(verdicts: seq<Verdict>, v: Verdict, index: nat)
    ensures Mentions(verdicts + [v], index) <==> v.index == index || Mentions(verdicts, index)
  {
    var all, n := verdicts + [v], |verdicts|;
    assert all[n] == v;
    if k :| 0 <= k < n && verdicts[k].index == index {
      assert all[k].index == index;
    }
  }

  lemma KeepsNext(verdicts: seq<Verdict>, v: Verdict, index: nat)
    ensures Keeps(verdicts + [v], index) <==> if v.index == index then v.keep else Keeps(verdicts, index)
  {
    var all, n := verdicts + [v], |verdicts|;
    assert all[n] == v && forall k :: 0 <= k < n ==> all[k] == verdicts[k];
    if v.index != index {
      if k :| 0 <= k < n && verdicts[k].index == index && verdicts[k].keep
              && forall l :: k < l < n ==> verdicts[l].index != index
      {
        assert all[k].index == index && all[k].keep;
      }
    }
  }

  lemma {:induction false} LastVerdictIs(verdicts: seq<Verdict>, index: nat)
    ensures LastVerdict(verdicts, index).Some? <==> Mentions(verdicts, index)
    ensures (LastVerdict(verdicts, index).Some? && LastVerdict(verdicts, index).value.keep) <==> Keeps(verdicts, index)
  {
    if verdicts != [] {
      var front, last := verdicts[..|verdicts| - 1], verdicts[|verdicts| - 1];
      assert verdicts == front + [last];
      hide Mentions, Keeps;
      LastVerdictIs(front, index);
      MentionsNext(front, last, index);
      KeepsNext(front, last, index);
    }
  }

  // When a finding is published after verification by the model.
  ghost predicate Approved(findings: seq<Finding>, result: ModelResult, i: nat)
    requires i < |findings|
  {
    || findings[i].state == Confirmed
    || (findings[i].state == Candidate
        && if result.Report? && Mentions(result.verdicts, i) then Keeps(result.verdicts, i)
           else findings[i].confidence != Low)
  }

  // The last verdict on `index` is number `k`.
  ghost predicate IsLastVerdict(verdicts: seq<Verdict>, index: nat, k: nat) {
    k < |verdicts| && verdicts[k].index == index && forall l :: k < l < |verdicts| ==> verdicts[l].index != index
  }

  lemma {:induction false} LastVerdictAt(verdicts: seq<Verdict>, index: nat)
    ensures LastVerdict(verdicts, index).None? ==> !Mentions(verdicts, index)
    ensures LastVerdict(verdicts, index).Some? ==>
      exists k: nat :: IsLastVerdict(verdicts, index, k) && LastVerdict(verdicts, index) == Some(verdicts[k])
  {
    if verdicts != [] {
      var front, n := verdicts[..|verdicts| - 1], |verdicts| - 1;
      LastVerdictAt(front, index);
      assert forall l :: 0 <= l < n ==> front[l] == verdicts[l];
      if verdicts[n].index == index {
        assert IsLastVerdict(verdicts, index, n);
      } else if LastVerdict(front, index).Some? {
        var k: nat :| IsLastVerdict(front, index, k) && LastVerdict(front, index) == Some(front[k]);
        assert IsLastVerdict(verdicts, index, k) && verdicts[k] == front[k];
      }
    }
  }

  // The reason of a candidate decided by this verdict.
  lemma VerdictReason(i: nat, f: Finding, verdicts: seq<Verdict>)
    requires f.state == Candidate && Mentions(verdicts, i)
    ensures exists k: nat :: IsLastVerdict(verdicts, i, k) && Apply(i, f, verdicts).reason == Some(
      if verdicts[k].reason != "" then verdicts[k].reason
      else if verdicts[k].keep then "confirmed by the verifier" else "rejected by the verifier")
  {
    LastVerdictAt(verdicts, i);
    hide Mentions, LastVerdict, IsLastVerdict;
  }

  lemma PolicyReason(f: Finding)
    requires f.state == Candidate
    ensures PolicyVerify(f).reason == Some(
      if f.confidence == Low then "confidence below threshold for the first-pass policy"
      else "confirmed by the first-pass policy")
  {
  }

  // Every decided candidate carries the reason of the verdict that decided it, or a standard one.
  lemma ReasonGiven(findings: seq<Finding>, result: ModelResult, i: nat)
    requires i < |findings| && findings[i].state == Candidate
    ensures |ModelPass(findings, result)| == |findings|
    ensures var v := ModelPass(findings, result)[i];
            if result.Report? && Mentions(result.verdicts, i) then
              exists k: nat :: IsLastVerdict(result.verdicts, i, k) && v.reason == Some(
                if result.verdicts[k].reason != "" then result.verdicts[k].reason
                else if result.verdicts[k].keep then "confirmed by the verifier" else "rejected by the verifier")
            else
              v.reason == Some(if findings[i].confidence == Low then
                                 "confidence below threshold for the first-pass policy"
                               else "confirmed by the first-pass policy")
  {
    var f := findings[i];
    assert f in findings;
    PolicyReason(f);
    hide Mentions, Keeps, LastVerdict, IsLastVerdict, Map, PolicyVerify;
    if result.Report? {
      LastVerdictAt(result.verdicts, i);
      LastVerdictIs(result.verdicts, i);
      assert !Mentions(result.verdicts, i) ==> Apply(i, f, result.verdicts) == PolicyVerify(f);
      hide Apply;
      if Mentions(result.verdicts, i) {
        VerdictReason(i, f, result.verdicts);
      }
    }
  }

  lemma ApplyDecides(i: nat, f: Finding, verdicts: seq<Verdict>)
    ensures var v := Apply(i, f, verdicts);
            && v == f.(state := v.state, reason := v.reason)
            && (f.state != Candidate ==> v == f)
            && (f.state == Candidate ==> v.state == Confirmed || v.state == Rejected)
            && (v.state == Confirmed <==>
                || f.state == Confirmed
                || (f.state == Candidate && if Mentions(verdicts, i) then Keeps(verdicts, i) else f.confidence != Low))
  {
    LastVerdictIs(verdicts, i);
    hide LastVerdict, Mentions, Keeps;
  }

  // Whatever the model answers, verification changes states and reasons only: it decides every
  // candidate, by the last verdict on its index or else by confidence, and no other finding.
  lemma ModelPassDecides(findings: seq<Finding>, result: ModelResult, i: nat)
    requires i < |findings|
    ensures |ModelPass(findings, result)| == |findings|
    ensures var f, v := findings[i], ModelPass(findings, result)[i];
            && v == f.(state := v.state, reason := v.reason)
            && (f.state != Candidate ==> v == f)
            && (f.state == Candidate ==> v.state == Confirmed || v.state == Rejected)
            && (IsConfirmed(v) <==> Approved(findings, result, i))
  {
    assert findings[i] in findings;
    hide Mentions, Keeps, Map, Apply;
    if result.Report? {
      ApplyDecides(i, findings[i], result.verdicts);
    }
  }
}
