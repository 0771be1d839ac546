/**
Schedules that publish twice on one head: two runs side by side, or one after the other when the first
review's marker cannot be seen. And the steps of one run alone, against the tail that runs them in a row.
 */
module Schedules {
  import opened Options
  import opened Seqs
  import opened Diff
  import opened DiffMapping
  import opened Findings
  import opened Marker
  import opened MarkerLaws
  import opened MarkerReading
  import opened Compose
  import opened Publishing
  import opened Runs
  import opened HeadLaws

  const LIVE := ReviewOptions(false, false)

  // What the analyzers of a run find.
  datatype Analysis = Analysis(findings: seq<Finding>, diff: NormalizedDiff, outcomes: seq<AnalyzerOutcome>)

  const NOTHING := Analysis([], NormalizedDiff([]), [])

  // ----- the steps of one live run -----

  function OriginOf(direct: bool): Origin {
    if direct then Direct else Background
  }

  // From the start of a run to its draft.
  function Prepare(i: nat, direct: bool, a: Analysis): seq<Event> {
    (if direct then [] else [Acquire(i)]) + [Fetch(i), Draft(i, a.findings, a.diff, a.outcomes)]
  }

  function Land(i: nat): seq<Event> {
    [CheckHead(i), Publish(i)]
  }

  function DraftOf(env: Env, w: World, a: Analysis): (draft: ReviewDraft)
    ensures draft.commitId == w.head
  {
    hide Render, SummaryLines, EventFor, ConfirmedFindings;
    ComposeDraft(env, a.findings, a.diff, w.head, a.outcomes)
  }

  // The run is not started, and there is a permit for it if it needs one.
  predicate Ready(w: World, i: nat, direct: bool) {
    i < |w.tasks| && w.tasks[i] == NewTask(LIVE, OriginOf(direct)) && (direct || w.permits > 0)
  }

  // The run stands at `pc` with its draft.
  function Underway(env: Env, w: World, i: nat, direct: bool, a: Analysis, pc: Pc): World
    requires Ready(w, i, direct)
  {
    w.(permits := w.permits - (if direct then 0 else 1),
       tasks := w.tasks[i := Task(LIVE, pc, w.head, Some(DraftOf(env, w, a)), direct)])
  }

  lemma ExecOne(env: Env, w: World, e: Event)
    ensures Exec(env, w, [e]) == Step(env, w, e)
  {
    hide Step;
    assert [e][1..] == [];
  }

  lemma ExecTwo(env: Env, w: World, e: Event, f: Event)
    ensures Exec(env, w, [e, f]) == Step(env, Step(env, w, e), f)
  {
    hide Step;
    assert [e, f] == [e] + [f];
    ExecConcat(env, w, [e], [f]);
    ExecOne(env, w, e);
    ExecOne(env, Step(env, w, e), f);
  }

  lemma PrepareSteps(env: Env, w: World, i: nat, direct: bool, a: Analysis)
    requires Ready(w, i, direct)
    ensures Exec(env, w, Prepare(i, direct, a)) == Underway(env, w, i, direct, a, Guarding)
  {
    hide ComposeDraft;
    var fetch, draft := Fetch(i), Draft(i, a.findings, a.diff, a.outcomes);
    var w1 := if direct then w else Step(env, w, Acquire(i));
    var w2 := Step(env, w1, fetch);
    var w3 := Step(env, w2, draft);
    assert w3 == Underway(env, w, i, direct, a, Guarding);
    hide Step;
    ExecTwo(env, w1, fetch, draft);
    if direct {
      assert Prepare(i, direct, a) == [fetch, draft];
    } else {
      ExecConcat(env, w, [Acquire(i)], [fetch, draft]);
      ExecOne(env, w, Acquire(i));
    }
  }

  // A listed review names the head.
  ghost predicate HeadNamed(env: Env, w: World) {
    Named(env, w.reviews, w.head)
  }

  lemma GuardStep(env: Env, w: World, i: nat, direct: bool, a: Analysis)
    requires Ready(w, i, direct)
    ensures Step(env, Underway(env, w, i, direct, a, Guarding), Guard(i))
         == if HeadNamed(env, w) then w.(tasks := Underway(env, w, i, direct, a, Ended(Skipped, None)).tasks)
            else Underway(env, w, i, direct, a, CheckingHead)
  {
    hide ComposeDraft, Named, DraftOf;
  }

  // What the run posts.
  function Posted(env: Env, w: World, i: nat, a: Analysis): Review {
    Review(|w.reviews|, Bicho(Some(i), false), w.head, DraftOf(env, w, a).summary)
  }

  // The state after the run has checked the head of `w` and posted.
  lemma LandSteps(env: Env, w: World, i: nat)
    requires At(w, i, CheckingHead) && w.tasks[i].draft.Some? && w.tasks[i].head == w.head
    requires w.tasks[i].draft.value.commitId == w.head && !w.tasks[i].options.force
    ensures var v, t := Exec(env, w, Land(i)), w.tasks[i];
            && v.head == w.head && v.permits == w.permits + (if t.direct then 0 else 1)
            && v.reviews == w.reviews + [Review(|w.reviews|, Bicho(Some(i), false), w.head, t.draft.value.summary)]
            && v.tasks == w.tasks[i := t.(pc := Ended(Completed, Some(|w.reviews|)))]
  {
    hide ComposeDraft, GuardDecision;
    ExecTwo(env, w, CheckHead(i), Publish(i));
  }

  lemma LandAfterEnd(env: Env, w: World, i: nat)
    requires i < |w.tasks| && w.tasks[i].pc.Ended?
    ensures Exec(env, w, Land(i)) == w
  {
    hide ComposeDraft, GuardDecision;
    ExecTwo(env, w, CheckHead(i), Publish(i));
  }

  // ----- a whole run -----

  function Alone(i: nat, direct: bool, a: Analysis): seq<Event> {
    Prepare(i, direct, a) + ([Guard(i)] + Land(i))
  }

  // A live run alone is skipped if a review names the head, and otherwise posts its draft.
  lemma AloneSteps(env: Env, w: World, i: nat, direct: bool, a: Analysis)
    requires Ready(w, i, direct)
    ensures var v := Exec(env, w, Alone(i, direct, a));
            && v.head == w.head && v.permits == w.permits && |v.tasks| == |w.tasks|
            && (forall j :: 0 <= j < |w.tasks| && j != i ==> v.tasks[j] == w.tasks[j])
            && (if HeadNamed(env, w)
                then v.reviews == w.reviews && v.tasks[i].pc == Ended(Skipped, None)
                else v.reviews == w.reviews + [Posted(env, w, i, a)]
                     && v.tasks[i].pc == Ended(Completed, Some(|w.reviews|)))
  {
    PrepareSteps(env, w, i, direct, a);
    GuardStep(env, w, i, direct, a);
    var w1 := Underway(env, w, i, direct, a, Guarding);
    var w2 := Step(env, w1, Guard(i));
    hide Step, Exec, DraftOf, Prepare, Land, HeadNamed;
    ExecConcat(env, w, Prepare(i, direct, a), [Guard(i)] + Land(i));
    ExecConcat(env, w1, [Guard(i)], Land(i));
    ExecOne(env, w1, Guard(i));
    if HeadNamed(env, w) {
      LandAfterEnd(env, w2, i);
    } else {
      LandSteps(env, w2, i);
    }
  }

  function TwoTasks(w: World, x: bool, y: bool): World {
    w.(tasks := [NewTask(LIVE, OriginOf(x)), NewTask(LIVE, OriginOf(y))])
  }

  function TwoScheduled(x: bool, y: bool): seq<Event> {
    [Schedule(LIVE, OriginOf(x)), Schedule(LIVE, OriginOf(y))]
  }

  lemma TwoScheduledSteps(env: Env, w: World, x: bool, y: bool)
    requires w.tasks == []
    ensures Exec(env, w, TwoScheduled(x, y)) == TwoTasks(w, x, y)
  {
    ExecTwo(env, w, Schedule(LIVE, OriginOf(x)), Schedule(LIVE, OriginOf(y)));
  }

  // ----- two runs side by side -----

  function Abreast(x: bool, y: bool): seq<Event> {
    Prepare(0, x, NOTHING) + ([Guard(0)] + (Prepare(1, y, NOTHING) + ([Guard(1)] + (Land(0) + Land(1)))))
  }

  function TwoAbreast(x: bool, y: bool): seq<Event> {
    TwoScheduled(x, y) + Abreast(x, y)
  }

  lemma ToTheGuard(env: Env, w: World, i: nat, direct: bool, rest: seq<Event>)
    requires Ready(w, i, direct) && w.reviews == []
    ensures Exec(env, w, Prepare(i, direct, NOTHING) + ([Guard(i)] + rest))
         == Exec(env, Underway(env, w, i, direct, NOTHING, CheckingHead), rest)
  {
    PrepareSteps(env, w, i, direct, NOTHING);
    GuardStep(env, w, i, direct, NOTHING);
    var w1 := Underway(env, w, i, direct, NOTHING, Guarding);
    assert !HeadNamed(env, w);
    hide Step, Exec, Prepare, Underway, HeadNamed;
    ExecConcat(env, w, Prepare(i, direct, NOTHING), [Guard(i)] + rest);
    ExecConcat(env, w1, [Guard(i)], rest);
    ExecOne(env, w1, Guard(i));
  }

  lemma BothLand(env: Env, w: World)
    requires At(w, 0, CheckingHead) && At(w, 1, CheckingHead)
    requires forall i :: i in {0, 1} ==>
      && w.tasks[i].draft.Some? && w.tasks[i].head == w.tasks[i].draft.value.commitId == w.head
      && !w.tasks[i].options.force
    ensures var v := Exec(env, w, Land(0) + Land(1));
            !OncePerHead(v.reviews) && |v.reviews| == |w.reviews| + 2
  {
    hide Exec, Land, OncePerHead;
    ExecConcat(env, w, Land(0), Land(1));
    LandSteps(env, w, 0);
    LandSteps(env, Exec(env, w, Land(0)), 1);
    TwoOfOneHead(Exec(env, Exec(env, w, Land(0)), Land(1)).reviews);
  }

  lemma AbreastPublish(env: Env, w: World, x: bool, y: bool)
    requires w.reviews == [] && |w.tasks| == 2 && Ready(w, 0, x) && w.tasks[1] == NewTask(LIVE, OriginOf(y))
    requires y || w.permits > if x then 0 else 1
    ensures var v := Exec(env, w, Abreast(x, y));
            !OncePerHead(v.reviews) && |v.reviews| == 2
  {
    var w1 := Underway(env, w, 0, x, NOTHING, CheckingHead);
    var w2 := Underway(env, w1, 1, y, NOTHING, CheckingHead);
    hide DraftOf, Exec, Prepare, Land, OncePerHead;
    assert forall i :: i in {0, 1} ==>
      && At(w2, i, CheckingHead) && w2.tasks[i].draft.Some?
      && w2.tasks[i].head == w2.tasks[i].draft.value.commitId == w2.head && !w2.tasks[i].options.force;
    hide Underway;
    ToTheGuard(env, w, 0, x, Prepare(1, y, NOTHING) + ([Guard(1)] + (Land(0) + Land(1))));
    ToTheGuard(env, w1, 1, y, Land(0) + Land(1));
    BothLand(env, w2);
  }

  lemma TwoOfOneHead(reviews: seq<Review>)
    requires |reviews| >= 2
    requires var a, b := reviews[|reviews| - 2], reviews[|reviews| - 1];
             a.author.Bicho? && b.author.Bicho? && a.commitId == b.commitId && !b.author.forced
    ensures !OncePerHead(reviews)
  {
    var n := |reviews| - 2;
    assert reviews[n].commitId == reviews[n + 1].commitId;
  }

  lemma EmptyRunIsPlain(i: nat, direct: bool)
    ensures forall e :: e in Prepare(i, direct, NOTHING) ==> PlainEvent(e)
    ensures forall e :: e in Land(i) ==> PlainEvent(e)
  {
    assert ConfirmedFindings([], NOTHING.diff) == [];
    assert PlainTexts([], []);
    NoAngleNoClose("none");
    assert PlainModel(ModelId([]));
    hide PlainTexts, PlainModel, ConfirmedFindings, ModelId;
  }

  lemma TwoAbreastIsClean(env: Env, w: World, x: bool, y: bool)
    ensures AllClean(env, w, TwoAbreast(x, y))
  {
    EmptyRunIsPlain(0, x);
    EmptyRunIsPlain(1, y);
    assert PlainEvent(Guard(0)) && PlainEvent(Guard(1));
    assert PlainEvent(Schedule(LIVE, OriginOf(x))) && PlainEvent(Schedule(LIVE, OriginOf(y)));
    hide Prepare, Land, PlainEvent;
    PlainSchedulesAreClean(env, w, TwoAbreast(x, y));
  }

  predicate CallFree(events: seq<Event>) {
    forall e :: e in events ==> !e.Schedule?
  }

  lemma CallFreeConcat(a: seq<Event>, b: seq<Event>)
    requires CallFree(a) && CallFree(b)
    ensures CallFree(a + b)
  {
  }

  lemma {:induction false} NoCalls(events: seq<Event>)
    requires CallFree(events)
    ensures LiveCalls(events) == 0
  {
    if events != [] {
      assert events[0] in events;
      NoCalls(events[1..]);
    }
  }

  lemma RunIsCallFree(i: nat, direct: bool, rest: seq<Event>)
    requires CallFree(rest)
    ensures CallFree(Prepare(i, direct, NOTHING) + ([Guard(i)] + rest))
  {
    assert CallFree([Guard(i)]) && CallFree(Prepare(i, direct, NOTHING));
    hide Prepare, CallFree;
    CallFreeConcat([Guard(i)], rest);
    CallFreeConcat(Prepare(i, direct, NOTHING), [Guard(i)] + rest);
  }

  lemma TwoAbreastCalls(x: bool, y: bool)
    ensures LiveCalls(TwoAbreast(x, y)) == (if x then 1 else 0) + (if y then 1 else 0)
  {
    var rest := Abreast(x, y);
    assert CallFree(Land(0) + Land(1));
    hide Prepare, Land, CallFree;
    RunIsCallFree(1, y, Land(0) + Land(1));
    RunIsCallFree(0, x, Prepare(1, y, NOTHING) + ([Guard(1)] + (Land(0) + Land(1))));
    NoCalls(rest);
    hide Abreast;
    var events := TwoAbreast(x, y);
    assert events[1..][1..] == rest;
    assert events[1..][0] == Schedule(LIVE, OriginOf(y));
  }

  lemma TwoAbreastFail(env: Env, c: nat, d: nat) returns (w: World, events: seq<Event>)
    requires c + d >= 2
    ensures GoodStart(env, w, c) && AllClean(env, w, events) && LiveCalls(events) <= d
    ensures |Exec(env, w, events).reviews| == 2 && !OncePerHead(Exec(env, w, events).reviews)
  {
    // The first run takes a permit if there is one, and so does the second.
    var x, y := c < 1, c < 2;
    w, events := World("", [], c, []), TwoAbreast(x, y);
    assert GoodStart(env, w, c) by {
      NoAngleNoClose("");
    }
    TwoAbreastIsClean(env, w, x, y);
    TwoAbreastCalls(x, y);
    TwoScheduledSteps(env, w, x, y);
    AbreastPublish(env, TwoTasks(w, x, y), x, y);
    hide GoodStart, AllClean, Abreast, OncePerHead;
    ExecConcat(env, w, TwoScheduled(x, y), Abreast(x, y));
  }

  // ----- a full listing -----

  function Comments(n: nat): (reviews: seq<Review>)
    ensures |reviews| == n
    ensures forall r :: r in reviews ==> r.author.Other? && r.body == ""
  {
    if n == 0 then [] else Comments(n - 1) + [Review(n - 1, Other("someone"), "", "")]
  }

  lemma CommentNamesNothing(env: Env, headSha: string)
    ensures !Reviews(env, "", headSha)
  {
  }

  lemma EmptyDraftIsRecognised(env: Env, w: World)
    requires HexDigest(env) && SafeField(w.head)
    ensures Reviews(env, DraftOf(env, w, NOTHING).summary, w.head)
  {
    var confirmed := ConfirmedFindings([], NOTHING.diff);
    assert confirmed == [];
    assert PlainTexts([], []);
    NoAngleNoClose("none");
    assert PlainModel(ModelId([]));
    hide HexDigest, SafeField, PlainTexts, ConfirmedFindings, Recognisable, PlainModel, ModelId, Preamble, Search;
    PlainTextsHideNothing([], NOTHING.diff, []);
    PlainModelRecognisable(env, confirmed, [], w.head);
    DraftRecognised(env, [], NOTHING.diff, w.head, []);
    hide ComposeDraft, Reviews;
  }

  // Other people's reviews fill the listing, and an earlier process has reviewed the head after them.
  function FullPage(env: Env, c: nat): World {
    var w := World("", [], c, []);
    w.(reviews := Comments(env.page)
                  + [Review(env.page, Bicho(None, false), "", DraftOf(env, w, NOTHING).summary)])
  }

  lemma FullPageShape(env: Env, c: nat)
    ensures var w, comments := FullPage(env, c), Comments(env.page);
            && |w.reviews| == env.page + 1 && w.head == "" && w.permits == c && w.tasks == []
            && Listed(env, w.reviews) == comments
            && (forall r :: r in w.reviews ==> r in comments || r == w.reviews[env.page])
            && w.reviews[env.page].author == Bicho(None, false) && w.reviews[env.page].commitId == ""
            && w.reviews[env.page].body == DraftOf(env, World("", [], c, []), NOTHING).summary
            && (forall k :: 0 <= k < env.page ==> w.reviews[k].author.Other?)
  {
    hide DraftOf;
    var w, comments := FullPage(env, c), Comments(env.page);
    assert forall k :: 0 <= k < env.page ==> w.reviews[k] == comments[k] && comments[k] in comments;
  }

  lemma LastReviewOnly(w: World, comments: seq<Review>)
    requires |w.reviews| == |comments| + 1
    requires forall k :: 0 <= k < |comments| ==> w.reviews[k].author.Other?
    ensures OncePerHead(w.reviews)
  {
  }

  lemma FullPageIsGood(env: Env, c: nat)
    requires HexDigest(env)
    ensures GoodStart(env, FullPage(env, c), c) && !HeadNamed(env, FullPage(env, c))
  {
    var w, comments := FullPage(env, c), Comments(env.page);
    assert SafeField("") by { NoAngleNoClose(""); }
    FullPageShape(env, c);
    hide HexDigest, SafeField, Reviews, DraftOf, FullPage, Listed;
    assert !HeadNamed(env, w) by { CommentNamesNothing(env, ""); }
    EmptyDraftIsRecognised(env, World("", [], c, []));
    hide HeadNamed, OncePerHead, Comments;
    LastReviewOnly(w, comments);
  }

  lemma OneCallPlain(direct: bool)
    ensures forall e :: e in [Schedule(LIVE, OriginOf(direct))] + Alone(0, direct, NOTHING) ==> PlainEvent(e)
    ensures LiveCalls([Schedule(LIVE, OriginOf(direct))] + Alone(0, direct, NOTHING)) == if direct then 1 else 0
  {
    EmptyRunIsPlain(0, direct);
    assert PlainEvent(Guard(0)) && PlainEvent(Schedule(LIVE, OriginOf(direct)));
    assert CallFree(Land(0));
    var rest := Alone(0, direct, NOTHING);
    hide PlainEvent, Prepare, Land, CallFree;
    RunIsCallFree(0, direct, Land(0));
    NoCalls(rest);
    hide Alone;
    var events := [Schedule(LIVE, OriginOf(direct))] + rest;
    assert events[1..] == rest;
  }

  // A single live run on a head that no listed review names posts its draft.
  lemma LoneRun(env: Env, w: World, c: nat, direct: bool)
    requires w.tasks == [] && w.permits == c && (direct || c > 0) && !HeadNamed(env, w)
    ensures Exec(env, w, [Schedule(LIVE, OriginOf(direct))] + Alone(0, direct, NOTHING)).reviews
         == w.reviews + [Posted(env, w, 0, NOTHING)]
  {
    var schedule := Schedule(LIVE, OriginOf(direct));
    var w1 := w.(tasks := [NewTask(LIVE, OriginOf(direct))]);
    assert Step(env, w, schedule) == w1;
    assert Ready(w1, 0, direct);
    SameDraft(env, w1, w, NOTHING);
    hide Alone, Exec, Step, Named, DraftOf, Ready;
    ExecConcat(env, w, [schedule], Alone(0, direct, NOTHING));
    ExecOne(env, w, schedule);
    AloneSteps(env, w1, 0, direct, NOTHING);
  }

  // Then a single run does not see that review and posts another.
  lemma FullPageFails(env: Env, c: nat, d: nat) returns (w: World, events: seq<Event>)
    requires HexDigest(env) && c + d >= 1
    ensures GoodStart(env, w, c) && AllClean(env, w, events) && LiveCalls(events) <= d
    ensures |Exec(env, w, events).reviews| == env.page + 2 && !OncePerHead(Exec(env, w, events).reviews)
  {
    var direct := c < 1;
    w, events := FullPage(env, c), [Schedule(LIVE, OriginOf(direct))] + Alone(0, direct, NOTHING);
    hide HexDigest, GoodStart, AllClean, Alone, Exec, OncePerHead, HeadNamed, DraftOf, FullPage, Listed, PlainEvent;
    FullPageIsGood(env, c);
    FullPageShape(env, c);
    OneCallPlain(direct);
    PlainSchedulesAreClean(env, w, events);
    LoneRun(env, w, c, direct);
    TwoOfOneHead(Exec(env, w, events).reviews);
  }

  // ----- once per head, exactly -----

  lemma AtMostOne(reviews: seq<Review>)
    requires |reviews| <= 1
    ensures OncePerHead(reviews)
  {
  }

  // Publication is once per head, in every schedule of clean runs with `c` permits, up to `d` live runs
  // called directly and up to `n` reviews in the end, exactly when there cannot be two reviews, nobody can
  // post, or one live run at a time can and all reviews but the last fit in one listing.
  lemma OncePerHeadExactly(env: Env, c: nat, d: nat, n: nat)
    requires HexDigest(env)
    ensures (forall w, events ::
               && GoodStart(env, w, c) && AllClean(env, w, events)
               && LiveCalls(events) <= d && |Exec(env, w, events).reviews| <= n
               ==> OncePerHead(Exec(env, w, events).reviews))
       <==> n <= 1 || c + d == 0 || (c + d == 1 && n <= env.page + 1)
  {
    hide HexDigest, GoodStart, AllClean, Exec, OncePerHead, LiveCalls;
    if n <= 1 || c + d == 0 || (c + d == 1 && n <= env.page + 1) {
      forall w, events | GoodStart(env, w, c) && AllClean(env, w, events)
                      && LiveCalls(events) <= d && |Exec(env, w, events).reviews| <= n
        ensures OncePerHead(Exec(env, w, events).reviews)
      {
        if n <= 1 {
          AtMostOne(Exec(env, w, events).reviews);
        } else {
          OneAtATimeOncePerHead(env, w, events, c);
        }
      }
    } else if c + d >= 2 {
      var w, events := TwoAbreastFail(env, c, d);
      assert |Exec(env, w, events).reviews| <= n;
    } else {
      var w, events := FullPageFails(env, c, d);
      assert |Exec(env, w, events).reviews| <= n;
    }
  }

  // ----- two runs one after the other -----

  function BackToBack(a: Analysis, b: Analysis): seq<Event> {
    TwoScheduled(false, false) + (Alone(0, false, a) + Alone(1, false, b))
  }

  ghost predicate RecognisableOn(env: Env, a: Analysis, headSha: string) {
    Recognisable(env, ConfirmedFindings(a.findings, a.diff), a.outcomes, headSha)
  }

  // Two live background runs, one after the other: the first posts, and what it leaves decides the second.
  lemma BackToBackSteps(env: Env, w: World, c: nat, a: Analysis, b: Analysis)
    requires Runs.Start(w, c) && c > 0 && !HeadNamed(env, w)
    ensures var v, n, first := Exec(env, w, BackToBack(a, b)), |w.reviews|, w.reviews + [Posted(env, w, 0, a)];
            && |v.tasks| == 2 && v.tasks[0].pc == Ended(Completed, Some(n))
            && (if Named(env, first, w.head)
                then v.reviews == first && v.tasks[1].pc == Ended(Skipped, None)
                else |v.reviews| == n + 2 && v.reviews[..n + 1] == first
                     && v.reviews[n + 1].author == Bicho(Some(1), false) && v.reviews[n + 1].commitId == w.head
                     && v.tasks[1].pc == Ended(Completed, Some(n + 1)))
  {
    var w0 := TwoTasks(w, false, false);
    TwoScheduledSteps(env, w, false, false);
    AloneSteps(env, w0, 0, false, a);
    var w1 := Exec(env, w0, Alone(0, false, a));
    AloneSteps(env, w1, 1, false, b);
    hide Exec, Alone, DraftOf, Named;
    ExecConcat(env, w0, Alone(0, false, a), Alone(1, false, b));
    ExecConcat(env, w, TwoScheduled(false, false), Alone(0, false, a) + Alone(1, false, b));
    assert Posted(env, w0, 0, a) == Posted(env, w, 0, a) by { SameDraft(env, w0, w, a); }
  }

  lemma SameDraft(env: Env, w: World, v: World, a: Analysis)
    requires w.head == v.head
    ensures DraftOf(env, w, a) == DraftOf(env, v, a)
  {
    hide ComposeDraft;
  }

  // Of two live background runs, one after the other on a head that no listed review names yet, the first
  // completes, and the second is skipped exactly when the first one's review is recognisable and listed;
  // otherwise it completes too.
  lemma SecondRunExactly(env: Env, w: World, c: nat, a: Analysis, b: Analysis)
    requires HexDigest(env) && Runs.Start(w, c) && c > 0 && SafeField(w.head) && !HeadNamed(env, w)
    ensures var v, n := Exec(env, w, BackToBack(a, b)), |w.reviews|;
            var seen := RecognisableOn(env, a, w.head) && n < env.page;
            && |v.tasks| == 2 && v.tasks[0].pc == Ended(Completed, Some(n))
            && (v.tasks[1].pc == Ended(Completed, Some(n + 1)) <==> !seen)
            && (v.tasks[1].pc == Ended(Skipped, None) <==> seen)
            && |v.reviews| == n + (if seen then 1 else 2)
            && (!seen ==> !OncePerHead(v.reviews))
  {
    FirstReviewNames(env, w, a);
    BackToBackSteps(env, w, c, a, b);
    hide Exec, BackToBack, HexDigest, SafeField, HeadNamed, Posted, RecognisableOn, OncePerHead, Named, Runs.Start;
    var reviews := Exec(env, w, BackToBack(a, b)).reviews;
    if !(RecognisableOn(env, a, w.head) && |w.reviews| < env.page) {
      BothPosted(env, w, a, reviews);
    }
  }

  lemma BothPosted(env: Env, w: World, a: Analysis, reviews: seq<Review>)
    requires var n := |w.reviews|;
             && |reviews| == n + 2 && reviews[..n + 1] == w.reviews + [Posted(env, w, 0, a)]
             && reviews[n + 1].author == Bicho(Some(1), false) && reviews[n + 1].commitId == w.head
    ensures !OncePerHead(reviews)
  {
    hide DraftOf, OncePerHead;
    assert reviews[..|w.reviews| + 1][|w.reviews|] == Posted(env, w, 0, a);
    TwoOfOneHead(reviews);
  }

  // One more review is listed while the listing is not full.
  lemma ListedNext(env: Env, reviews: seq<Review>, last: Review)
    ensures Listed(env, reviews + [last])
         == if |reviews| < env.page then reviews + [last] else Listed(env, reviews)
    ensures |reviews| < env.page ==> Listed(env, reviews) == reviews
  {
    if |reviews| >= env.page {
      assert (reviews + [last])[..env.page] == reviews[..env.page];
    }
  }

  lemma FirstReviewNames(env: Env, w: World, a: Analysis)
    requires HexDigest(env) && SafeField(w.head) && !HeadNamed(env, w)
    ensures Named(env, w.reviews + [Posted(env, w, 0, a)], w.head)
       <==> RecognisableOn(env, a, w.head) && |w.reviews| < env.page
  {
    DraftRecognised(env, a.findings, a.diff, w.head, a.outcomes);
    var last := Posted(env, w, 0, a);
    ListedNext(env, w.reviews, last);
    hide HexDigest, SafeField, Reviews, Recognisable, ConfirmedFindings, ComposeDraft, Listed;
    assert forall r :: r in w.reviews + [last] <==> r in w.reviews || r == last;
  }

  // With plain model ids the second run completes exactly when the text before the first one's marker
  // holds a marker block that does not name the same head and workflow version, or the listing is full.
  lemma SecondRunPlain(env: Env, w: World, c: nat, a: Analysis, b: Analysis)
    requires HexDigest(env) && Runs.Start(w, c) && c > 0 && SafeField(w.head) && !HeadNamed(env, w)
    requires PlainModel(ModelId(ConfirmedFindings(a.findings, a.diff)))
    ensures var v := Exec(env, w, BackToBack(a, b));
            var preamble := Preamble(ConfirmedFindings(a.findings, a.diff), a.outcomes);
            |v.tasks| == 2
            && (v.tasks[1].pc == Ended(Completed, Some(|w.reviews| + 1))
                <==> (Search(preamble).Some? && !Reviews(env, preamble, w.head)) || |w.reviews| >= env.page)
  {
    var confirmed := ConfirmedFindings(a.findings, a.diff);
    PlainModelRecognisable(env, confirmed, a.outcomes, w.head);
    hide HexDigest, Runs.Start, SafeField, HeadNamed, PlainModel, Recognisable, Exec, BackToBack, OncePerHead;
    hide Preamble, Search, Reviews, ConfirmedFindings;
    SecondRunExactly(env, w, c, a, b);
  }

  // A title is enough: with one permit, two runs one after the other both publish.
  lemma HiddenMarkerPublishesTwice(env: Env, head: string, f: Finding, diff: NormalizedDiff, b: Analysis)
    requires HexDigest(env) && SafeField(head)
    requires IsConfirmed(f) && f.title == HIDING_TITLE && '<' !in f.path
    requires !CanAnchor(diff, f.path, f.startLine, f.endLine, f.diffSide)
    ensures !OncePerHead(Exec(env, World(head, [], 1, []), BackToBack(Analysis([f], diff, []), b)).reviews)
  {
    TitleHidesReview(env, f, diff, head);
    DraftRecognised(env, [f], diff, head, []);
    var w := World(head, [], 1, []);
    assert !HeadNamed(env, w);
    hide HexDigest, SafeField, Reviews, CanAnchor, HeadNamed, Recognisable, ConfirmedFindings, ComposeDraft, Exec;
    hide BackToBack, OncePerHead;
    SecondRunExactly(env, w, 1, Analysis([f], diff, []), b);
  }

  // So is a model id: the reviews of its findings are read as reviews of another head.
  lemma HiddenModelPublishesTwice(env: Env, head: string, f: Finding, diff: NormalizedDiff, b: Analysis)
    requires HexDigest(env) && SafeField(head) && head != "y"
    requires IsConfirmed(f) && f.modelId == Some(HIDING_MODEL) && '<' !in f.path && '<' !in f.title
    ensures !OncePerHead(Exec(env, World(head, [], 1, []), BackToBack(Analysis([f], diff, []), b)).reviews)
  {
    var w, confirmed := World(head, [], 1, []), ConfirmedFindings([f], diff);
    ModelHidesReview(env, f, diff, head);
    assert !HeadNamed(env, w);
    hide HexDigest, SafeField, Reviews, CanAnchor, HeadNamed, Recognisable, ConfirmedFindings, ComposeDraft, Exec;
    hide BackToBack, OncePerHead;
    SecondRunExactly(env, w, 1, Analysis([f], diff, []), b);
  }

  lemma ModelHidesReview(env: Env, f: Finding, diff: NormalizedDiff, head: string)
    requires head != "y"
    requires IsConfirmed(f) && f.modelId == Some(HIDING_MODEL) && '<' !in f.path && '<' !in f.title
    ensures !Recognisable(env, ConfirmedFindings([f], diff), [], head)
  {
    var confirmed := ConfirmedFindings([f], diff);
    assert PlainTexts([f], []);
    assert Filter(IsConfirmed, [f]) == [f];
    assert confirmed == [Anchored(diff)(f)];
    var m := MarkerFor(env, head, confirmed);
    assert m.modelId == HIDING_MODEL && m.headSha == head;
    assert SafeField(m.promptVersion) by { NoAngleNoClose(PROMPT_VERSION); }
    hide PlainTexts, ConfirmedFindings, Preamble, Search, KeepsHead, MarkerFor, SafeField, CanAnchor;
    PlainTextsHideNothing([f], diff, []);
    HidingModelLosesHead(env.word, Preamble(confirmed, []), m);
  }

  // ----- one run at a time -----

  // With no other run in between, a run ends as the method that executes its nodes in a row does.
  lemma TailSteps(env: Env, w: World, i: nat, push: string)
    requires At(w, i, Guarding) && w.tasks[i].draft.Some? && w.tasks[i].draft.value.commitId == w.tasks[i].head
    ensures var t, v := w.tasks[i], Exec(env, w, [Guard(i), Push(push), CheckHead(i), Publish(i)]);
            var status := TailStatus(env, t.options, t.head, w.reviews, push);
            && |v.tasks| == |w.tasks|
            && v.tasks[i].pc == Ended(status, if status == Completed then Some(|w.reviews|) else None)
            && v.reviews == w.reviews
               + if status == Completed
                 then [Review(|w.reviews|, Bicho(Some(i), t.options.force), t.head, t.draft.value.summary)] else []
  {
    hide GuardDecision;
    var events := [Guard(i), Push(push), CheckHead(i), Publish(i)];
    var w1 := Step(env, w, events[0]);
    var w2 := Step(env, w1, events[1]);
    var w3 := Step(env, w2, events[2]);
    var w4 := Step(env, w3, events[3]);
    assert w.reviews + [] == w.reviews;
    assert Exec(env, w, events) == w4 by {
      hide Step;
      assert events[1..][1..] == events[2..] && events[2..][1..] == events[3..] && events[3..][1..] == [];
      assert Exec(env, w4, []) == w4;
      assert Exec(env, w3, events[3..]) == w4;
      assert Exec(env, w2, events[2..]) == w4;
      assert Exec(env, w1, events[1..]) == w4;
    }
  }
}
