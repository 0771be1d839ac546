/** The normalized finding, and the strict order in which findings of one issue are ranked. */
module Findings {
  import opened Options
  import opened Diff

  datatype Category = Correctness | Security | Performance | Maintainability | Tests | Contracts | Dependency

  datatype Severity = Info | LowSeverity | MediumSeverity | HighSeverity | Critical {
    function Rank(): nat {
      match this
      case Info => 0
      case LowSeverity => 1
      case MediumSeverity => 2
      case HighSeverity => 3
      case Critical => 4
    }
  }

  datatype Confidence = Low | Medium | High {
    function Rank(): nat {
      match this
      case Low => 0
      case Medium => 1
      case High => 2
    }

    // One step up, capped at High.
    function Raised(): Confidence {
      if Low? then Medium else High
    }
  }

  datatype SourceKind = LlmAnalyzer | Semgrep | PipAudit {
    function Priority(): nat {
      match this
      case Semgrep => 2
      case PipAudit => 1
      case LlmAnalyzer => 0
    }
  }

  datatype VerificationState =
    Candidate | Confirmed | Rejected | Duplicate | NeedsContext | OutOfScope | CannotAnchor | StaleFinding

  datatype EvidenceRef = EvidenceRef(path: string, startLine: int, endLine: int, detail: string)

  datatype Finding = Finding(
    id: string,
    fingerprint: string,
    category: Category,
    subcategory: string,
    severity: Severity,
    confidence: Confidence,
    title: string,
    explanation: string,
    impact: string,
    recommendation: string,
    path: string,
    startLine: int,
    endLine: int,
    diffSide: DiffSide,
    snippet: string,
    evidence: seq<EvidenceRef>,
    sourceKind: SourceKind,
    sourceName: string,
    state: VerificationState,
    reason: Option<string>,
    headSha: string,
    promptVersion: Option<string>,
    modelId: Option<string>,
    language: string,
    framework: Option<string>,
    canPublishInline: bool,
    summaryOnly: bool)

  predicate IsConfirmed(f: Finding) {
    f.state == Confirmed
  }

  predicate PublishInline(f: Finding) {
    IsConfirmed(f) && f.canPublishInline && !f.summaryOnly
  }

  predicate PublishInSummary(f: Finding) {
    IsConfirmed(f) && (f.summaryOnly || !f.canPublishInline)
  }

  // ----- ranking -----

  // Strings compare by code point, as in Python.
  predicate StringLess(a: string, b: string) {
    b != "" && (a == "" || a[0] < b[0] || (a[0] == b[0] && StringLess(a[1..], b[1..])))
  }

  // Higher severity first, then confidence, then source priority; ties go to the lower id.
  predicate RanksBefore(a: Finding, b: Finding) {
    var (s, t) := (a.severity.Rank(), b.severity.Rank());
    var (c, d) := (a.confidence.Rank(), b.confidence.Rank());
    var (p, q) := (a.sourceKind.Priority(), b.sourceKind.Priority());
    s > t || (s == t && (c > d || (c == d && (p > q || (p == q && StringLess(a.id, b.id))))))
  }

  lemma {:induction false} StringLessTransitive(a: string, b: string, c: string)
    requires StringLess(a, b) && StringLess(b, c)
    ensures StringLess(a, c)
  {
    if a != "" && a[0] == b[0] && b[0] == c[0] {
      StringLessTransitive(a[1..], b[1..], c[1..]);
    }
  }

  lemma {:induction false} StringLessTotal(a: string, b: string)
    ensures !(StringLess(a, b) && StringLess(b, a))
    ensures a != b <==> StringLess(a, b) || StringLess(b, a)
  {
    if a != "" && b != "" {
      assert a == [a[0]] + a[1..] && b == [b[0]] + b[1..];
      StringLessTotal(a[1..], b[1..]);
    }
  }

  // `a` comes before `b` in a dictionary: it is the beginning of `b`, or smaller where they first differ.
  ghost predicate InDictionaryBefore(a: string, b: string) {
    exists k: nat :: k <= |a| && k < |b| && a[..k] == b[..k] && (k == |a| || a[k] < b[k])
  }

  // Words that differ in the first letter, or are empty, are compared there.
  lemma ComparedAtOnce(a: string, b: string)
    requires a == "" || b == "" || a[0] != b[0]
    ensures InDictionaryBefore(a, b) <==> b != "" && (a == "" || a[0] < b[0])
  {
    assert a[..0] == b[..0];
    forall k: nat | 0 < k <= |a| && k < |b| ensures a[..k] != b[..k] {
      assert a[..k][0] == a[0] && b[..k][0] == b[0];
    }
  }

  lemma BeginningIs(s: string, k: nat)
    requires k < |s|
    ensures s[..k + 1] == [s[0]] + s[1..][..k] && s[1..][..k] == s[..k + 1][1..]
  {
  }

  lemma ComparedLater(a: string, b: string)
    requires a != "" && b != "" && a[0] == b[0]
    ensures InDictionaryBefore(a, b) <==> InDictionaryBefore(a[1..], b[1..])
  {
    forall k: nat | k < |a| && k < |b| ensures a[..k + 1] == b[..k + 1] <==> a[1..][..k] == b[1..][..k] {
      BeginningIs(a, k);
      BeginningIs(b, k);
    }
    if k: nat :|
      k <= |a[1..]| && k < |b[1..]| && a[1..][..k] == b[1..][..k] && (k == |a[1..]| || a[1..][k] < b[1..][k])
    {
      assert a[..k + 1] == b[..k + 1];
    }
    if k: nat :| k <= |a| && k < |b| && a[..k] == b[..k] && (k == |a| || a[k] < b[k]) {
      assert k > 0;
      assert a[1..][..k - 1] == b[1..][..k - 1];
      assert k < |a| ==> a[1..][k - 1] == a[k];
    }
  }

  lemma {:induction false} StringLessIs(a: string, b: string)
    ensures StringLess(a, b) <==> InDictionaryBefore(a, b)
  {
    hide InDictionaryBefore;
    if a != "" && b != "" && a[0] == b[0] {
      StringLessIs(a[1..], b[1..]);
      ComparedLater(a, b);
    } else {
      ComparedAtOnce(a, b);
    }
  }

  lemma StringLessBetween(a: string, b: string, c: string)
    requires StringLess(a, c)
    ensures StringLess(a, b) || StringLess(b, c)
  {
    StringLessTotal(a, b);
    if StringLess(b, a) {
      StringLessTransitive(b, a, c);
    }
  }

  lemma RanksBetween(a: Finding, b: Finding, c: Finding)
    requires RanksBefore(a, c)
    ensures RanksBefore(a, b) || RanksBefore(b, c)
  {
    if StringLess(a.id, c.id) {
      StringLessBetween(a.id, b.id, c.id);
    }
  }

  // ----- the ranking in plain terms -----

  ghost predicate MoreSevere(a: Severity, b: Severity) {
    || (a == Critical && b in {HighSeverity, MediumSeverity, LowSeverity, Info})
    || (a == HighSeverity && b in {MediumSeverity, LowSeverity, Info})
    || (a == MediumSeverity && b in {LowSeverity, Info})
    || (a == LowSeverity && b == Info)
  }

  ghost predicate Surer(a: Confidence, b: Confidence) {
    (a == High && b in {Medium, Low}) || (a == Medium && b == Low)
  }

  ghost predicate BetterSource(a: SourceKind, b: SourceKind) {
    (a == Semgrep && b in {PipAudit, LlmAnalyzer}) || (a == PipAudit && b == LlmAnalyzer)
  }

  // The ranking compares severity, then confidence, then source, then id.
  lemma RanksBeforeIs(a: Finding, b: Finding)
    ensures RanksBefore(a, b) <==>
      || MoreSevere(a.severity, b.severity)
      || (a.severity == b.severity && Surer(a.confidence, b.confidence))
      || (a.severity == b.severity && a.confidence == b.confidence && BetterSource(a.sourceKind, b.sourceKind))
      || (a.severity == b.severity && a.confidence == b.confidence && a.sourceKind == b.sourceKind
          && InDictionaryBefore(a.id, b.id))
  {
    StringLessIs(a.id, b.id);
    hide StringLess, InDictionaryBefore;
  }

  lemma RanksTransitive(a: Finding, b: Finding, c: Finding)
    requires RanksBefore(a, b) && RanksBefore(b, c)
    ensures RanksBefore(a, c)
  {
    if StringLess(a.id, b.id) && StringLess(b.id, c.id) {
      StringLessTransitive(a.id, b.id, c.id);
    }
  }

  // Findings with different ids are strictly ordered one way.
  lemma RanksTotal(a: Finding, b: Finding)
    ensures !(RanksBefore(a, b) && RanksBefore(b, a))
    ensures a.id != b.id ==> RanksBefore(a, b) || RanksBefore(b, a)
  {
    StringLessTotal(a.id, b.id);
  }
}
