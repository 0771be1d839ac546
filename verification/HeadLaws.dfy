/**
Publication is once per head when live runs follow one another and the pull request has few reviews: for
every schedule in which the permits and the live runs called directly together allow one run at a time,
and across restarts of the process.
 */
module HeadLaws {
  import opened Options
  import opened Seqs
  import opened Marker
  import opened MarkerReading
  import opened Compose
  import opened Publishing
  import opened Runs
  import opened RunLaws

  // Two reviews of one head: the later one was forced.
  ghost predicate OncePerHead(reviews: seq<Review>) {
    forall a, b ::
      0 <= a < b < |reviews| && reviews[a].author.Bicho? && reviews[b].author.Bicho?
      && reviews[a].commitId == reviews[b].commitId
      ==> reviews[b].author.forced
  }

  // ----- runs whose reviews are recognised -----

  // A draft that is about to be composed will be recognisable on the head its run analyzed, and heads
  // are safe, as commit hashes are.
  ghost predicate Clean(env: Env, w: World, e: Event) {
    match e
    case Draft(i, findings, diff, outcomes) =>
      At(w, i, Composing) ==> Recognisable(env, ConfirmedFindings(findings, diff), outcomes, w.tasks[i].head)
    case Push(newHead) => SafeField(newHead)
    case _ => true
  }

  ghost predicate AllClean(env: Env, w: World, events: seq<Event>)
    decreases |events|
  {
    events == [] || (Clean(env, w, events[0]) && AllClean(env, Step(env, w, events[0]), events[1..]))
  }

  // Texts without '<' and a plain model id.
  ghost predicate PlainEvent(e: Event) {
    match e
    case Draft(_, findings, diff, outcomes) =>
      PlainTexts(findings, outcomes) && PlainModel(ModelId(ConfirmedFindings(findings, diff)))
    case Push(newHead) => SafeField(newHead)
    case _ => true
  }

  lemma PlainIsClean(env: Env, w: World, e: Event)
    requires PlainEvent(e)
    ensures Clean(env, w, e)
  {
    if e.Draft? && At(w, e.run, Composing) {
      var confirmed := ConfirmedFindings(e.findings, e.diff);
      PlainTextsHideNothing(e.findings, e.diff, e.outcomes);
      hide PlainTexts, ConfirmedFindings, Recognisable, PlainModel, ModelId;
      PlainModelRecognisable(env, confirmed, e.outcomes, w.tasks[e.run].head);
    }
  }

  // Plain texts and plain model ids make every schedule clean, from every state.
  lemma {:induction false} PlainSchedulesAreClean(env: Env, w: World, events: seq<Event>)
    requires forall e :: e in events ==> PlainEvent(e)
    ensures AllClean(env, w, events)
    decreases |events|
  {
    if events != [] {
      assert events[0] in events;
      PlainIsClean(env, w, events[0]);
      hide PlainEvent, Clean, Step;
      PlainSchedulesAreClean(env, Step(env, w, events[0]), events[1..]);
    }
  }

  // The program's reviews, and the drafts to come, are recognised on the heads they are for.
  ghost predicate Recognised(env: Env, w: World) {
    && SafeField(w.head)
    && (forall r :: r in w.reviews && r.author.Bicho? ==> Reviews(env, r.body, r.commitId))
    && (forall t :: t in w.tasks ==> RecognisedTask(env, t))
  }

  ghost predicate RecognisedTask(env: Env, t: Task) {
    && (t.pc in {Composing, Guarding, CheckingHead, Publishing} ==> SafeField(t.head))
    && (t.pc in {Guarding, CheckingHead, Publishing} ==>
          t.draft.Some? && t.draft.value.commitId == t.head && Reviews(env, t.draft.value.summary, t.head))
  }

  lemma CleanDraftRecognised(env: Env, w: World, e: Event)
    requires HexDigest(env) && e.Draft? && At(w, e.run, Composing) && Clean(env, w, e)
    requires SafeField(w.tasks[e.run].head)
    ensures var headSha := w.tasks[e.run].head;
            var draft := ComposeDraft(env, e.findings, e.diff, headSha, e.outcomes);
            draft.commitId == headSha && Reviews(env, draft.summary, headSha)
  {
    hide ConfirmedFindings, Preamble, Reviews, Recognisable, SafeField, HexDigest;
    DraftRecognised(env, e.findings, e.diff, w.tasks[e.run].head, e.outcomes);
    hide SummaryLines, Render, MarkerFor;
  }

  // The run that moves stays recognised.
  lemma RecognisedHere(env: Env, w: World, e: Event)
    requires HexDigest(env) && Recognised(env, w) && Clean(env, w, e)
    requires OfRun(e) && e.run < |w.tasks|
    ensures var v := Step(env, w, e);
            |v.tasks| == |w.tasks| && RecognisedTask(env, v.tasks[e.run])
  {
    var t := w.tasks[e.run];
    assert t in w.tasks;
    assert RecognisedTask(env, t) && SafeField(w.head);
    if e.Draft? && t.pc.Composing? {
      CleanDraftRecognised(env, w, e);
    }
    hide HexDigest, SafeField, Reviews, Recognised, Clean, GuardDecision, ComposeDraft;
  }

  lemma RecognisedStep(env: Env, w: World, e: Event)
    requires HexDigest(env) && Recognised(env, w) && Clean(env, w, e)
    ensures Recognised(env, Step(env, w, e))
  {
    var v := Step(env, w, e);
    StepShape(env, w, e);
    StepPosts(env, w, e);
    assert SafeField(v.head) by { hide ComposeDraft, GuardDecision, SafeField; }
    RecognisedTasks(env, w, e);
    hide Step, Reviews, SafeField, HexDigest, Clean, RecognisedTask;
    forall r | r in v.reviews && r.author.Bicho? ensures Reviews(env, r.body, r.commitId) {
      assert r in w.reviews || r == v.reviews[|w.reviews|];
      if (e.Publish? || e.LoseResponse?) && At(w, e.run, Publishing) {
        PublishingIsRecognised(env, w, e.run);
      }
    }
  }

  lemma {:induction false} RecognisedAlways(env: Env, w: World, events: seq<Event>)
    requires HexDigest(env) && Recognised(env, w) && AllClean(env, w, events)
    ensures Recognised(env, Exec(env, w, events))
    decreases |events|
  {
    if events != [] {
      hide HexDigest, Recognised, Clean, Step;
      RecognisedStep(env, w, events[0]);
      RecognisedAlways(env, Step(env, w, events[0]), events[1..]);
    }
  }

  lemma PublishingIsRecognised(env: Env, w: World, i: nat)
    requires Recognised(env, w) && At(w, i, Publishing)
    ensures w.tasks[i].draft.Some? && Reviews(env, w.tasks[i].draft.value.summary, w.tasks[i].draft.value.commitId)
  {
    assert w.tasks[i] in w.tasks;
    hide Reviews;
  }

  lemma RecognisedTasks(env: Env, w: World, e: Event)
    requires HexDigest(env) && Recognised(env, w) && Clean(env, w, e)
    ensures forall t :: t in Step(env, w, e).tasks ==> RecognisedTask(env, t)
  {
    var v := Step(env, w, e);
    StepShape(env, w, e);
    if OfRun(e) && e.run < |w.tasks| {
      RecognisedHere(env, w, e);
    }
    assert forall t :: t in w.tasks ==> RecognisedTask(env, t);
    assert e.Schedule? ==> RecognisedTask(env, NewTask(e.options, e.origin));
    hide Step, Reviews, SafeField, HexDigest, Clean, RecognisedTask, Recognised;
    forall t | t in v.tasks ensures RecognisedTask(env, t) {
      var i :| 0 <= i < |v.tasks| && v.tasks[i] == t;
      if i < |w.tasks| {
        assert w.tasks[i] in w.tasks;
      }
    }
  }

  // ----- one run at a time -----

  // The live runs that were called directly.
  function LiveDirects(w: World): set<nat> {
    set i: nat | i < |w.tasks| && w.tasks[i].direct && !w.tasks[i].options.dryRun
  }

  predicate IsLiveCall(e: Event) {
    e.Schedule? && e.origin.Direct? && !e.options.dryRun
  }

  // How many live runs the events call directly.
  function LiveCalls(events: seq<Event>): nat {
    if events == [] then 0 else (if IsLiveCall(events[0]) then 1 else 0) + LiveCalls(events[1..])
  }

  lemma LiveDirectsStep(env: Env, w: World, e: Event)
    ensures |LiveDirects(Step(env, w, e))| == |LiveDirects(w)| + if IsLiveCall(e) then 1 else 0
  {
    var v := Step(env, w, e);
    StepShape(env, w, e);
    hide Step;
    assert |w.tasks| !in LiveDirects(w);
    assert LiveDirects(v) == if IsLiveCall(e) then LiveDirects(w) + {|w.tasks|} else LiveDirects(w);
  }

  // No listed review of a run is for the head.
  ghost predicate Unreviewed(env: Env, w: World, headSha: string) {
    forall r :: r in Listed(env, w.reviews) && r.author.Bicho? ==> r.commitId != headSha
  }

  // A run that passed the guard unforced has a head that no listed review of a run is for.
  ghost predicate Fresh(env: Env, w: World) {
    forall t :: t in w.tasks && t.pc in {CheckingHead, Publishing} && !t.options.force ==> Unreviewed(env, w, t.head)
  }

  // No more live runs than that are under way at once.
  ghost predicate OneAtATime(w: World, c: nat) {
    PermitsKept(w, c) && c + |LiveDirects(w)| <= 1
  }

  predicate RunningLive(w: World, i: nat) {
    i < |w.tasks| && Running(w.tasks[i].pc) && !w.tasks[i].options.dryRun
  }

  lemma RunnersAreCounted(w: World, c: nat, runners: set<nat>)
    requires PermitsKept(w, c) && forall i :: i in runners ==> RunningLive(w, i)
    ensures |runners| <= c + |LiveDirects(w)|
  {
    var all := Holders(w) + LiveDirects(w);
    assert runners <= all;
    UnionSize(Holders(w), LiveDirects(w));
    SubsetSize(runners, all);
  }

  lemma OneRunner(w: World, c: nat, i: nat, j: nat)
    requires OneAtATime(w, c) && RunningLive(w, i) && RunningLive(w, j)
    ensures i == j
  {
    assert i != j ==> |{i, j}| == 2;
    RunnersAreCounted(w, c, {i, j});
  }

  lemma UnionSize<T>(a: set<T>, b: set<T>)
    ensures |a + b| <= |a| + |b|
  {
    assert a + b == a + (b - a);
    SubsetSize(b - a, b);
  }

  lemma SubsetSize<T>(a: set<T>, b: set<T>)
    requires a <= b
    ensures |a| <= |b|
  {
    assert b == a + (b - a);
  }

  // The guard lets an unforced run through only when no listed review of its head is recognised.
  lemma GuardPasses(env: Env, w: World, i: nat)
    requires Recognised(env, w) && At(w, i, Guarding) && !w.tasks[i].options.force
    requires Step(env, w, Guard(i)).tasks[i].pc == CheckingHead
    ensures Unreviewed(env, w, w.tasks[i].head)
  {
    hide Reviews;
    forall r | r in Listed(env, w.reviews) && r.author.Bicho? ensures r.commitId != w.tasks[i].head {
      assert r in w.reviews && Reviews(env, r.body, r.commitId);
    }
  }

  // What a longer list shows besides what the shorter one shows is new.
  lemma ListedGrows(env: Env, a: seq<Review>, b: seq<Review>)
    requires a <= b
    ensures Listed(env, a) <= Listed(env, b)
    ensures forall r :: r in Listed(env, b) ==> r in Listed(env, a) || r in b[|a|..]
  {
    var shown := Listed(env, b);
    forall r | r in shown ensures r in Listed(env, a) || r in b[|a|..] {
      var k :| 0 <= k < |shown| && shown[k] == r;
      assert b[k] == r;
      if k < |a| {
        assert a[k] == r && Listed(env, a)[k] == r;
      } else {
        assert b[|a|..][k - |a|] == r;
      }
    }
  }

  lemma FreshStep(env: Env, w: World, e: Event, c: nat)
    requires Recognised(env, w) && Fresh(env, w) && Ledger(w) && OneAtATime(w, c)
    ensures Fresh(env, Step(env, w, e))
  {
    var v := Step(env, w, e);
    StepShape(env, w, e);
    StepPosts(env, w, e);
    hide Step, Recognised, Ledger, OneAtATime, Unreviewed;
    forall t | t in v.tasks && t.pc in {CheckingHead, Publishing} && !t.options.force
      ensures Unreviewed(env, v, t.head)
    {
      var i :| 0 <= i < |v.tasks| && v.tasks[i] == t;
      FreshTask(env, w, e, c, i);
    }
  }

  // Only the guard lets a run pass it.
  lemma PastGuard(env: Env, w: World, e: Event, i: nat)
    requires i < |w.tasks| && e != Guard(i)
    requires i < |Step(env, w, e).tasks| && Step(env, w, e).tasks[i].pc in {CheckingHead, Publishing}
    ensures w.tasks[i].pc in {CheckingHead, Publishing} && Step(env, w, e).tasks[i].head == w.tasks[i].head
    ensures Step(env, w, e).tasks[i].options == w.tasks[i].options
  {
    hide ComposeDraft, GuardDecision;
  }

  // While a run past the guard stays there, nobody posts.
  lemma OthersDoNotPost(env: Env, w: World, e: Event, c: nat, i: nat)
    requires Ledger(w) && OneAtATime(w, c) && i < |w.tasks| && w.tasks[i].pc in {CheckingHead, Publishing}
    requires At(Step(env, w, e), i, CheckingHead) || At(Step(env, w, e), i, Publishing)
    ensures e.Publish? || e.LoseResponse? ==> !At(w, e.run, Publishing)
  {
    if (e.Publish? || e.LoseResponse?) && At(w, e.run, Publishing) {
      assert Drafted(w, i) && Drafted(w, e.run);
      hide Ledger;
      OneRunner(w, c, i, e.run);
      hide ComposeDraft, GuardDecision, OneAtATime;
    }
  }

  // One task of the new state.
  lemma FreshTask(env: Env, w: World, e: Event, c: nat, i: nat)
    requires Recognised(env, w) && Fresh(env, w) && Ledger(w) && OneAtATime(w, c)
    requires var v := Step(env, w, e);
             i < |v.tasks| && v.tasks[i].pc in {CheckingHead, Publishing} && !v.tasks[i].options.force
    ensures var v := Step(env, w, e); Unreviewed(env, v, v.tasks[i].head)
  {
    var v := Step(env, w, e);
    StepShape(env, w, e);
    StepPosts(env, w, e);
    assert i < |w.tasks| && w.tasks[i] in w.tasks;
    if e == Guard(i) {
      if At(w, i, Guarding) {
        GuardPasses(env, w, i);
      }
      hide ComposeDraft, GuardDecision, Recognised, Ledger, OneAtATime, Unreviewed;
    } else {
      hide Recognised;
      PastGuard(env, w, e, i);
      OthersDoNotPost(env, w, e, c, i);
      hide Step, Ledger, OneAtATime, Listed;
      ListedGrows(env, w.reviews, v.reviews);
    }
  }

  lemma OnceStep(env: Env, w: World, e: Event, c: nat)
    requires Ledger(w) && Fresh(env, w) && OncePerHead(w.reviews) && OneAtATime(w, c)
    requires c + |LiveDirects(w)| == 0 || |Step(env, w, e).reviews| <= env.page + 1
    ensures OncePerHead(Step(env, w, e).reviews)
  {
    var v := Step(env, w, e);
    StepPosts(env, w, e);
    if (e.Publish? || e.LoseResponse?) && At(w, e.run, Publishing) && v.reviews != w.reviews {
      assert Drafted(w, e.run);
      assert w.tasks[e.run] in w.tasks;
      RunnersAreCounted(w, c, {e.run});
      assert Listed(env, w.reviews) == w.reviews;
    }
    hide Step, Ledger, OneAtATime, Listed;
    forall a, b | 0 <= a < b < |v.reviews| && v.reviews[a].author.Bicho? && v.reviews[b].author.Bicho?
              && v.reviews[a].commitId == v.reviews[b].commitId
      ensures v.reviews[b].author.forced
    {
      assert v.reviews[a] == w.reviews[a] && w.reviews[a] in w.reviews;
    }
  }

  lemma {:induction false} ReviewsGrow(env: Env, w: World, events: seq<Event>)
    ensures w.reviews <= Exec(env, w, events).reviews
    decreases |events|
  {
    if events != [] {
      StepShape(env, w, events[0]);
      hide Step;
      ReviewsGrow(env, Step(env, w, events[0]), events[1..]);
    }
  }

  // Nobody can post, or all reviews but perhaps the last are listed.
  predicate Bounded(env: Env, runners: nat, reviews: seq<Review>) {
    runners == 0 || (runners == 1 && |reviews| <= env.page + 1)
  }

  lemma {:induction false} OnceAlways(env: Env, w: World, events: seq<Event>, c: nat)
    requires HexDigest(env) && AllClean(env, w, events) && PermitsKept(w, c)
    requires Bounded(env, c + |LiveDirects(w)| + LiveCalls(events), Exec(env, w, events).reviews)
    requires Recognised(env, w) && Ledger(w) && Fresh(env, w) && OncePerHead(w.reviews)
    ensures OncePerHead(Exec(env, w, events).reviews)
    decreases |events|
  {
    if events != [] {
      var e, v := events[0], Step(env, w, events[0]);
      LiveDirectsStep(env, w, e);
      ReviewsGrow(env, v, events[1..]);
      hide HexDigest, Clean, Step, Recognised, Ledger, Fresh, PermitsKept, OncePerHead, LiveDirects, IsLiveCall;
      RecognisedStep(env, w, e);
      LedgerStep(env, w, e);
      FreshStep(env, w, e, c);
      PermitsStep(env, w, e, c);
      OnceStep(env, w, e, c);
      OnceAlways(env, v, events[1..], c);
    }
  }

  // A start after which reviews can be recognised: earlier processes left recognised reviews, once per head.
  ghost predicate GoodStart(env: Env, w: World, c: nat) {
    && Start(w, c) && SafeField(w.head) && OncePerHead(w.reviews)
    && forall r :: r in w.reviews && r.author.Bicho? ==> Reviews(env, r.body, r.commitId)
  }

  lemma GoodStartIsRecognised(env: Env, w: World, c: nat)
    requires GoodStart(env, w, c)
    ensures Recognised(env, w) && Ledger(w) && Fresh(env, w) && PermitsKept(w, c) && LiveDirects(w) == {}
  {
    hide Reviews, SafeField, OncePerHead;
    StartLedger(w, c);
    StartKeepsPermits(w, c);
  }

  // While the permits and the live runs called directly together allow one run at a time, and all reviews
  // but the last fit in one listing, no schedule of clean runs publishes twice on one head, unless the
  // later is forced.
  lemma OneAtATimeOncePerHead(env: Env, w: World, events: seq<Event>, c: nat)
    requires HexDigest(env) && GoodStart(env, w, c) && AllClean(env, w, events)
    requires Bounded(env, c + LiveCalls(events), Exec(env, w, events).reviews)
    ensures OncePerHead(Exec(env, w, events).reviews)
  {
    GoodStartIsRecognised(env, w, c);
    hide HexDigest, Reviews, SafeField, AllClean, Ledger, Fresh, Recognised, Bounded;
    OnceAlways(env, w, events, c);
  }

  lemma {:induction false} DryCallsAreNotLive(events: seq<Event>)
    requires forall e :: e in events && e.Schedule? && e.origin.Direct? ==> e.options.dryRun
    ensures LiveCalls(events) == 0
  {
    if events != [] {
      assert events[0] in events;
      DryCallsAreNotLive(events[1..]);
    }
  }

  // With one permit any number of dry runs may be called directly, as the endpoint does by default.
  lemma DryCallsHarmless(env: Env, w: World, events: seq<Event>)
    requires HexDigest(env) && GoodStart(env, w, 1) && AllClean(env, w, events)
    requires forall e :: e in events && e.Schedule? && e.origin.Direct? ==> e.options.dryRun
    requires |Exec(env, w, events).reviews| <= env.page + 1
    ensures OncePerHead(Exec(env, w, events).reviews)
  {
    DryCallsAreNotLive(events);
    hide HexDigest, GoodStart, AllClean, Exec, OncePerHead;
    OneAtATimeOncePerHead(env, w, events, 1);
  }

  // ----- restarts -----

  // The reviews as a later process finds them: the runs that wrote them are gone.
  function Forget(r: Review): Review {
    if r.author.Bicho? then r.(author := Bicho(None, r.author.forced)) else r
  }

  // A new process with `c` permits starts; the runs of the old one are lost.
  function Restarted(w: World, c: nat): World {
    World(w.head, Map(Forget, w.reviews), c, [])
  }

  // A process leaves a good start for the next one, wherever its runs are when it ends.
  lemma RestartIsGood(env: Env, w: World, events: seq<Event>, c: nat, next: nat)
    requires HexDigest(env) && GoodStart(env, w, c) && AllClean(env, w, events)
    requires Bounded(env, c + LiveCalls(events), Exec(env, w, events).reviews)
    ensures GoodStart(env, Restarted(Exec(env, w, events), next), next)
  {
    OneAtATimeOncePerHead(env, w, events, c);
    GoodStartIsRecognised(env, w, c);
    hide HexDigest, Reviews, SafeField, AllClean, Ledger, Fresh, GoodStart, Bounded;
    RecognisedAlways(env, w, events);
    hide Exec;
    RestartKeeps(env, Exec(env, w, events), next);
  }

  lemma RestartKeeps(env: Env, w: World, next: nat)
    requires Recognised(env, w) && OncePerHead(w.reviews)
    ensures GoodStart(env, Restarted(w, next), next)
  {
    hide Reviews, SafeField;
    var reviews := Map(Forget, w.reviews);
    assert |reviews| == |w.reviews| && forall k :: 0 <= k < |reviews| ==> reviews[k] == Forget(w.reviews[k]);
    hide Map;
    forall r | r in reviews && r.author.Bicho? ensures r.author.run.None? && Reviews(env, r.body, r.commitId) {
      var k :| 0 <= k < |reviews| && reviews[k] == r;
      assert w.reviews[k] in w.reviews;
    }
  }

  // The life of one process: its permits and what happens while it runs.
  datatype Life = Life(permits: nat, events: seq<Event>)

  // One process after the other.
  function Lives(env: Env, w: World, lives: seq<Life>): World
    decreases |lives|
  {
    if lives == [] then w
    else Lives(env, Exec(env, Restarted(w, lives[0].permits), lives[0].events), lives[1..])
  }

  // Every process keeps to one live run at a time, and its runs are clean.
  ghost predicate CleanLives(env: Env, w: World, lives: seq<Life>)
    decreases |lives|
  {
    lives == [] || (var life := lives[0];
      && life.permits + LiveCalls(life.events) <= 1
      && AllClean(env, Restarted(w, life.permits), life.events)
      && CleanLives(env, Exec(env, Restarted(w, life.permits), life.events), lives[1..]))
  }

  lemma {:induction false} LivesGrow(env: Env, w: World, lives: seq<Life>)
    ensures |w.reviews| <= |Lives(env, w, lives).reviews|
    decreases |lives|
  {
    if lives != [] {
      var start := Restarted(w, lives[0].permits);
      ReviewsGrow(env, start, lives[0].events);
      hide Exec;
      LivesGrow(env, Exec(env, start, lives[0].events), lives[1..]);
    }
  }

  // However often the process restarts, and whenever, publication stays once per head while all reviews
  // but the last fit in one listing.
  lemma {:induction false} RestartsOncePerHead(env: Env, w: World, lives: seq<Life>)
    requires HexDigest(env) && CleanLives(env, w, lives) && |Lives(env, w, lives).reviews| <= env.page + 1
    requires Recognised(env, w) && OncePerHead(w.reviews)
    ensures OncePerHead(Lives(env, w, lives).reviews)
    decreases |lives|
  {
    hide HexDigest, Recognised, OncePerHead, AllClean;
    if lives != [] {
      var life := lives[0];
      var start := Restarted(w, life.permits);
      LivesGrow(env, Exec(env, start, life.events), lives[1..]);
      RestartKeeps(env, w, life.permits);
      hide Exec, Restarted, GoodStart;
      OneAtATimeOncePerHead(env, start, life.events, life.permits);
      GoodStartIsRecognised(env, start, life.permits);
      RecognisedAlways(env, start, life.events);
      RestartsOncePerHead(env, Exec(env, start, life.events), lives[1..]);
    }
  }
}
