/**
The marker's regular expression, read as a backtracking matcher reads it: of all ways to match at one
place, greedy parts prefer more and the lazy part prefers less, from left to right.
 */
module MarkerPattern {
  import opened Options
  import opened Seqs
  import opened Text
  import opened Marker
  import opened MarkerLaws

  // One way to match `<!--\s*bicho-pr-reviewer:1\s+(?P<fields>.*?)\s*-->`, and the text after it.
  datatype Pieces = Pieces(lead: string, gap: string, fields: string, tail: string, rest: string)

  ghost predicate AllSpace(s: string) {
    forall c :: c in s ==> IsSpace(c)
  }

  ghost predicate Matches(u: string, p: Pieces) {
    && AllSpace(p.lead) && AllSpace(p.gap) && p.gap != "" && AllSpace(p.tail)
    && u == OPEN + (p.lead + (NAME + (p.gap + (p.fields + (p.tail + (CLOSE + p.rest))))))
  }

  ghost predicate Preferred(p: Pieces, q: Pieces) {
    || |p.lead| > |q.lead|
    || (|p.lead| == |q.lead| && (|p.gap| > |q.gap|
    || (|p.gap| == |q.gap| && (|p.fields| < |q.fields|
    || (|p.fields| == |q.fields| && |p.tail| >= |q.tail|)))))
  }

  lemma {:induction false} UntilAtMost(a: string, rest: string)
    ensures Until(a + (CLOSE + rest)).Some? && Until(a + (CLOSE + rest)).value <= a
  {
    var u := a + (CLOSE + rest);
    if a == "" {
      assert u == CLOSE + rest;
      assert CLOSE <= u;
    } else {
      DropFirst(a, CLOSE + rest, 1);
      UntilAtMost(a[1..], rest);
      assert [a[0]] + a[1..] == a;
    }
  }

  lemma {:induction false} UntilSplits(u: string) returns (rest: string)
    requires Until(u).Some?
    ensures u == Until(u).value + (CLOSE + rest)
  {
    if CLOSE <= u {
      rest := u[|CLOSE|..];
    } else {
      rest := UntilSplits(u[1..]);
      var s := Until(u[1..]).value;
      ConcatAssociates([u[0]], s, CLOSE + rest);
      assert u == [u[0]] + u[1..];
    }
  }

  lemma TrimRightEnds(s: string)
    ensures TrimRight(s) <= s && AllSpace(s[|TrimRight(s)|..])
    ensures TrimRight(s) == "" || !IsSpace(TrimRight(s)[|TrimRight(s)| - 1])
  {
  }

  // Any match leaves what the deterministic reading leaves, up to a shorter gap.
  lemma MatchOpens(u: string, q: Pieces) returns (w: string, more: string)
    requires Matches(u, q)
    ensures Opening(u) == Some(w) && AllSpace(more)
    ensures q.fields + (q.tail + (CLOSE + q.rest)) == more + w
    ensures w == "" || !IsSpace(w[0])
  {
    var body := q.fields + (q.tail + (CLOSE + q.rest));
    more := TrimLeftSplits(body);
    w := TrimLeft(body);
    var gap := q.gap + more;
    ConcatAssociates(q.gap, more, w);
    assert forall c :: c in q.lead + gap ==> IsSpace(c) by {
      assert forall c :: c in q.lead + gap ==> c in q.lead || c in q.gap || c in more;
    }
    hide TrimLeft, IsSpace;
    OpeningIs(q.lead, gap, w);
  }

  // The deterministic reading finds a match exactly when there is one, and it is the preferred one.
  lemma BlockIsPreferredMatch(u: string)
    ensures BlockAt(u).Some? <==> exists q :: Matches(u, q)
    ensures BlockAt(u).Some? ==>
      exists p :: Matches(u, p) && BlockAt(u) == Some(p.fields) && forall q :: Matches(u, q) ==> Preferred(p, q)
  {
    if q :| Matches(u, q) {
      var w, more := MatchOpens(u, q);
      var before := q.fields + q.tail;
      ConcatAssociates(q.fields, q.tail, CLOSE + q.rest);
      UntilAtMost(before, q.rest);
      NoDashIn(more);
      UntilSkips(more, w);
    }
    if BlockAt(u).Some? {
      var p := ChosenMatch(u);
      forall q | Matches(u, q) ensures Preferred(p, q) {
        ChosenIsPreferred(u, p, q);
      }
    }
  }

  lemma NoDashIn(spaces: string)
    requires AllSpace(spaces)
    ensures '-' !in spaces
  {
  }

  ghost predicate Chosen(u: string, p: Pieces) {
    && Matches(u, p) && BlockAt(u) == Some(p.fields)
    && Opening(u) == Some(p.fields + (p.tail + (CLOSE + p.rest)))
    && Until(p.fields + (p.tail + (CLOSE + p.rest))) == Some(p.fields + p.tail)
  }

  lemma BlockIs(u: string)
    requires BlockAt(u).Some?
    ensures Opening(u).Some? && Until(Opening(u).value).Some?
    ensures BlockAt(u) == Some(TrimRight(Until(Opening(u).value).value))
  {
    hide Opening, Until, TrimRight;
  }

  lemma ChosenMatch(u: string) returns (p: Pieces)
    requires BlockAt(u).Some?
    ensures Chosen(u, p)
  {
    BlockIs(u);
    hide Until, TrimRight, Opening, BlockAt, IsSpace, Matches;
    var w := Opening(u).value;
    var before := Until(w).value;
    var fields := TrimRight(before);
    TrimRightEnds(before);
    var lead, gap := OpeningPieces(u);
    var rest := UntilSplits(w);
    var tail := before[|fields|..];
    assert before == fields + tail;
    assert AllSpace(lead) && AllSpace(gap) by {
      assert forall c :: c in lead ==> c in lead + gap;
      assert forall c :: c in gap ==> c in lead + gap;
    }
    hide AllSpace;
    p := Pieces(lead, gap, fields, tail, rest);
    ConcatAssociates(fields, tail, CLOSE + rest);
    PiecesMatch(u, p);
  }

  lemma PiecesMatch(u: string, p: Pieces)
    requires AllSpace(p.lead) && AllSpace(p.gap) && p.gap != "" && AllSpace(p.tail)
    requires u == OPEN + p.lead + NAME + p.gap + (p.fields + (p.tail + (CLOSE + p.rest)))
    ensures Matches(u, p)
  {
    hide AllSpace;
    PiecesConcat(OPEN, p.lead, NAME, p.gap, p.fields + (p.tail + (CLOSE + p.rest)));
  }

  lemma ChosenIsPreferred(u: string, p: Pieces, q: Pieces)
    requires Chosen(u, p) && Matches(u, q)
    ensures Preferred(p, q)
  {
    var w, more := MatchOpens(u, q);
    SameLead(u, p, q);
    GapLength(u, p, q, w, more);
    ChosenFields(u, p);
    hide Matches, Until, Opening, BlockAt;
    if more == "" {
      assert more + w == w;
      SameGap(p, q);
    }
  }

  // With the same text after the gap, the chosen fields are the shortest and the chosen tail the longest.
  lemma SameGap(p: Pieces, q: Pieces)
    requires p.fields + (p.tail + (CLOSE + p.rest)) == q.fields + (q.tail + (CLOSE + q.rest))
    requires Until(p.fields + (p.tail + (CLOSE + p.rest))) == Some(p.fields + p.tail)
    requires (p.fields == "" || !IsSpace(p.fields[|p.fields| - 1])) && AllSpace(q.tail)
    ensures |p.fields| <= |q.fields|
    ensures |p.fields| == |q.fields| ==> |p.tail| >= |q.tail|
  {
    ConcatAssociates(q.fields, q.tail, CLOSE + q.rest);
    ConcatAssociates(p.fields, p.tail, CLOSE + p.rest);
    hide Until, AllSpace, IsSpace;
    UntilAtMost(q.fields + q.tail, q.rest);
    FieldsShortest(p.fields, p.tail, q.fields, q.tail);
    SameTail(p.fields + p.tail, p.rest, q.fields, q.tail, q.rest);
  }

  lemma FieldsShortest(pFields: string, pTail: string, qFields: string, qTail: string)
    requires pFields == "" || !IsSpace(pFields[|pFields| - 1])
    requires pFields + pTail <= qFields + qTail && AllSpace(qTail)
    ensures |pFields| <= |qFields|
  {
    TailIsSpace(qFields, qTail, "");
    assert qFields + qTail + "" == qFields + qTail;
    if |pFields| > 0 {
      assert pFields[|pFields| - 1] == (pFields + pTail)[|pFields| - 1];
    }
  }

  lemma TailIsSpace(fields: string, tail: string, rest: string)
    requires AllSpace(tail)
    ensures forall k :: |fields| <= k < |fields + tail| ==> IsSpace((fields + tail + rest)[k])
  {
    hide IsSpace;
    forall k | |fields| <= k < |fields + tail| ensures IsSpace((fields + tail + rest)[k]) {
      assert (fields + tail + rest)[k] == tail[k - |fields|];
    }
  }

  lemma SameTail(s: string, pRest: string, qFields: string, qTail: string, qRest: string)
    requires s + (CLOSE + pRest) == qFields + qTail + (CLOSE + qRest)
    requires s <= qFields + qTail && AllSpace(qTail)
    ensures |qFields| <= |s| ==> |s| == |qFields + qTail|
  {
    assert (s + (CLOSE + pRest))[|s|] == CLOSE[0];
    assert !IsSpace(CLOSE[0]);
    TailIsSpace(qFields, qTail, CLOSE + qRest);
  }

  lemma ChosenFields(u: string, p: Pieces)
    requires Chosen(u, p)
    ensures p.fields == "" || !IsSpace(p.fields[|p.fields| - 1])
  {
    hide IsSpace, Matches, Opening;
  }

  lemma GapLength(u: string, p: Pieces, q: Pieces, w: string, more: string)
    requires Chosen(u, p) && Matches(u, q) && |p.lead| == |q.lead|
    requires Opening(u) == Some(w) && q.fields + (q.tail + (CLOSE + q.rest)) == more + w
    ensures |p.gap| == |q.gap| + |more|
  {
    assert |u| == |OPEN| + |p.lead| + |NAME| + |p.gap| + |w|;
    assert |u| == |OPEN| + |q.lead| + |NAME| + |q.gap| + |more| + |w|;
  }

  lemma SameLead(u: string, p: Pieces, q: Pieces)
    requires Matches(u, p) && Matches(u, q)
    ensures |p.lead| == |q.lead|
  {
    var bodyP := p.gap + (p.fields + (p.tail + (CLOSE + p.rest)));
    var bodyQ := q.gap + (q.fields + (q.tail + (CLOSE + q.rest)));
    assert !IsSpace(NAME[0]);
    assert (NAME + bodyP)[0] == NAME[0] && (NAME + bodyQ)[0] == NAME[0];
    TrimLeftIs(p.lead, NAME + bodyP);
    TrimLeftIs(q.lead, NAME + bodyQ);
    ExpectIs(OPEN, p.lead + (NAME + bodyP));
    ExpectIs(OPEN, q.lead + (NAME + bodyQ));
    RunIs(IsSpace, p.lead, NAME + bodyP);
    RunIs(IsSpace, q.lead, NAME + bodyQ);
  }
}
