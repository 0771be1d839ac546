/** What every run later than a publication does, in every interleaving and for every number of permits. */
module LaterRuns {
  import opened Options
  import opened Seqs
  import opened Marker
  import opened Compose
  import opened Publishing
  import opened Runs
  import opened RunLaws
  import opened HeadLaws
  import opened Schedules

  // ----- a completed run leaves a review that names its head -----

  // The draft that run `j` is about to compose will be recognisable on the head it analyzed.
  ghost predicate CleanFor(env: Env, w: World, e: Event, j: nat) {
    e.Draft? && e.run == j && At(w, j, Composing) ==>
      && SafeField(w.tasks[j].head)
      && Recognisable(env, ConfirmedFindings(e.findings, e.diff), e.outcomes, w.tasks[j].head)
  }

  ghost predicate AllCleanFor(env: Env, w: World, events: seq<Event>, j: nat)
    decreases |events|
  {
    events == [] || (CleanFor(env, w, events[0], j) && AllCleanFor(env, Step(env, w, events[0]), events[1..], j))
  }

  // In a clean schedule that holds for every run.
  lemma {:induction false} CleanSchedulesAreCleanFor(env: Env, w: World, events: seq<Event>, j: nat)
    requires HexDigest(env) && Recognised(env, w) && AllClean(env, w, events)
    ensures AllCleanFor(env, w, events, j)
    decreases |events|
  {
    if events != [] {
      var e := events[0];
      if e.Draft? && At(w, e.run, Composing) {
        assert w.tasks[e.run] in w.tasks;
        assert RecognisedTask(env, w.tasks[e.run]);
      }
      hide HexDigest, Recognised, Recognisable, ConfirmedFindings, SafeField, Step;
      RecognisedStep(env, w, e);
      CleanSchedulesAreCleanFor(env, Step(env, w, e), events[1..], j);
    }
  }

  // A draft of run `j` past its composition is recognised on the head it is for.
  ghost predicate Legible(env: Env, w: World, j: nat) {
    j < |w.tasks| && w.tasks[j].draft.Some?
    && (w.tasks[j].pc in {Guarding, CheckingHead, Publishing} || w.tasks[j].pc.Ended?)
    ==> Reviews(env, w.tasks[j].draft.value.summary, w.tasks[j].head)
  }

  lemma LegibleStep(env: Env, w: World, e: Event, j: nat)
    requires HexDigest(env) && Legible(env, w, j) && CleanFor(env, w, e, j)
    ensures Legible(env, Step(env, w, e), j)
  {
    if e.Draft? && e.run == j && At(w, j, Composing) {
      hide ConfirmedFindings, Reviews, Recognisable, SafeField, HexDigest;
      DraftRecognised(env, e.findings, e.diff, w.tasks[j].head, e.outcomes);
      hide ComposeDraft, GuardDecision;
    } else {
      hide ComposeDraft, GuardDecision, Reviews, CleanFor, HexDigest;
    }
  }

  lemma {:induction false} LegibleAlways(env: Env, w: World, events: seq<Event>, j: nat)
    requires HexDigest(env) && Legible(env, w, j) && AllCleanFor(env, w, events, j)
    ensures Legible(env, Exec(env, w, events), j)
    decreases |events|
  {
    if events != [] {
      hide HexDigest, Legible, CleanFor, Step;
      LegibleStep(env, w, events[0], j);
      LegibleAlways(env, Step(env, w, events[0]), events[1..], j);
    }
  }

  // The run completed, and its review is early enough to be listed.
  predicate CompletedListed(env: Env, w: World, j: nat) {
    && j < |w.tasks| && w.tasks[j].pc.Ended? && w.tasks[j].pc.status == Completed
    && w.tasks[j].pc.reviewId.Some? && w.tasks[j].pc.reviewId.value < env.page
  }

  // A run that completed has left a review that the guard recognises on the head it analyzed, if it is
  // listed, whatever the other runs and earlier processes left.
  lemma CompletedIsNamed(env: Env, w: World, events: seq<Event>, c: nat, j: nat)
    requires HexDigest(env) && Runs.Start(w, c) && AllCleanFor(env, w, events, j)
    requires CompletedListed(env, Exec(env, w, events), j)
    ensures var v := Exec(env, w, events); Named(env, v.reviews, v.tasks[j].head)
  {
    assert Legible(env, w, j);
    hide HexDigest, Legible, AllCleanFor, Reviews;
    LegibleAlways(env, w, events, j);
    RunContract(env, w, events, c);
    var v := Exec(env, w, events);
    hide Exec;
    assert Accounted(v, j);
    var k := v.tasks[j].pc.reviewId.value;
    assert PostedBy(v, j, k) && Genuine(v, j, k);
    assert Listed(env, v.reviews)[k] == v.reviews[k];
    LegibleMeans(env, v, j);
  }

  lemma LegibleMeans(env: Env, v: World, j: nat)
    requires j < |v.tasks| && v.tasks[j].draft.Some? && v.tasks[j].pc.Ended?
    ensures Legible(env, v, j) <==> Reviews(env, v.tasks[j].draft.value.summary, v.tasks[j].head)
  {
    hide Reviews;
  }

  // ----- runs after it -----

  // A live, unforced run that may still analyze the head, or has analyzed it.
  predicate Concerned(w: World, i: nat, head: string) {
    i < |w.tasks| && w.tasks[i].options == LIVE && (w.tasks[i].pc in {Waiting, Fetching} || w.tasks[i].head == head)
  }

  // It is not past the guard and has posted nothing, and if it ended, it was skipped.
  ghost predicate HeldBack(w: World, i: nat, head: string) {
    Concerned(w, i, head) ==> Early(w.tasks[i].pc) && PostedNothing(w, i)
  }

  predicate Early(pc: Pc) {
    || pc in {Waiting, Fetching, Composing, Guarding, Crashed, Ended(Skipped, None)}
    || pc in {WaitingElsewhere, RunningElsewhere, EndedElsewhere}
  }

  lemma NamedStep(env: Env, w: World, e: Event, head: string)
    requires Named(env, w.reviews, head)
    ensures Named(env, Step(env, w, e).reviews, head)
  {
    StepShape(env, w, e);
    hide Step, Reviews;
    ListedGrows(env, w.reviews, Step(env, w, e).reviews);
  }

  // A run keeps its head once it has fetched it.
  lemma HeadFixed(env: Env, w: World, e: Event, i: nat)
    requires i < |w.tasks| && w.tasks[i].pc !in {Waiting, Fetching}
    ensures var v := Step(env, w, e);
            i < |v.tasks| && v.tasks[i].pc !in {Waiting, Fetching} && v.tasks[i].head == w.tasks[i].head
  {
    hide ComposeDraft, GuardDecision;
  }

  lemma HeldBackMoves(env: Env, w: World, e: Event, i: nat, head: string)
    requires Named(env, w.reviews, head) && HeldBack(w, i, head) && Concerned(w, i, head)
    requires OfRun(e) && e.run == i && Concerned(Step(env, w, e), i, head)
    ensures Early(Step(env, w, e).tasks[i].pc)
    ensures Step(env, w, e).reviews == w.reviews && PostedNothing(w, i)
  {
    StepMoves(env, w, e);
    var t, u := w.tasks[i], Step(env, w, e).tasks[i];
    if u.pc == CheckingHead {
      if e != Guard(i) {
        PastGuard(env, w, e, i);
      }
      if t.pc == Guarding {
        GuardSkips(env, w, i);
      }
    }
    hide Named, Step, PostedNothing;
  }

  // While a listed review names the head, the guard skips every live, unforced run on it.
  lemma GuardSkips(env: Env, w: World, i: nat)
    requires At(w, i, Guarding) && w.tasks[i].options == LIVE && Named(env, w.reviews, w.tasks[i].head)
    ensures Step(env, w, Guard(i)).tasks[i].pc == Ended(Skipped, None)
  {
    hide GuardDecision, Named;
  }

  lemma HeldBackStep(env: Env, w: World, e: Event, i: nat, head: string)
    requires Named(env, w.reviews, head) && HeldBack(w, i, head) && Ledger(w)
    ensures HeldBack(Step(env, w, e), i, head)
  {
    var v := Step(env, w, e);
    StepShape(env, w, e);
    StepPosts(env, w, e);
    if Concerned(v, i, head) {
      if i == |w.tasks| {
        NeverPosted(w, i);
        hide Step, Ledger;
        assert v.reviews == w.reviews;
        assert forall k: nat :: PostedBy(v, i, k) <==> PostedBy(w, i, k);
      } else if OfRun(e) && e.run == i {
        if w.tasks[i].pc !in {Waiting, Fetching} {
          HeadFixed(env, w, e, i);
        }
        hide Step, Ledger;
        HeldBackMoves(env, w, e, i, head);
        assert forall k: nat :: PostedBy(v, i, k) <==> PostedBy(w, i, k);
      } else {
        hide Step, Ledger;
        assert v.tasks[i] == w.tasks[i];
        assert forall k: nat :: PostedBy(v, i, k) <==> PostedBy(w, i, k);
      }
    }
  }

  lemma {:induction false} HeldBackAlways(env: Env, w: World, events: seq<Event>, i: nat, head: string)
    requires Named(env, w.reviews, head) && HeldBack(w, i, head) && Ledger(w)
    ensures HeldBack(Exec(env, w, events), i, head)
    decreases |events|
  {
    if events != [] {
      hide Step, Named, HeldBack, Ledger;
      HeldBackStep(env, w, events[0], i, head);
      NamedStep(env, w, events[0], head);
      LedgerStep(env, w, events[0]);
      HeldBackAlways(env, Step(env, w, events[0]), events[1..], i, head);
    }
  }

  // The run posts nothing, and if it ends, it ends SKIPPED.
  ghost predicate Skips(v: World, i: nat) {
    PostedNothing(v, i) && (i < |v.tasks| && v.tasks[i].pc.Ended? ==> v.tasks[i].pc == Ended(Skipped, None))
  }

  ghost predicate LiveOn(v: World, i: nat, head: string) {
    i < |v.tasks| && v.tasks[i].options == LIVE && v.tasks[i].head == head
  }

  // Once a run has completed on a head with a listed review, every live, unforced run on it that had not
  // passed the guard by then, or was not even scheduled, is skipped.
  lemma LaterRunsSkip(env: Env, w: World, before: seq<Event>, after: seq<Event>, c: nat, j: nat, i: nat)
    requires HexDigest(env) && Runs.Start(w, c) && AllCleanFor(env, w, before, j)
    requires var mid := Exec(env, w, before);
             && CompletedListed(env, mid, j)
             && (i < |mid.tasks| ==> mid.tasks[i].pc in {Waiting, Fetching, Composing, Guarding})
    ensures var mid, v := Exec(env, w, before), Exec(env, w, before + after);
            LiveOn(v, i, mid.tasks[j].head) ==> Skips(v, i)
  {
    var mid := Exec(env, w, before);
    var head := mid.tasks[j].head;
    CompletedIsNamed(env, w, before, c, j);
    StartLedger(w, c);
    LedgerAlways(env, w, before);
    ExecConcat(env, w, before, after);
    hide HexDigest, Exec, Named, AllCleanFor;
    assert HeldBack(mid, i, head) by {
      if i < |mid.tasks| {
        assert Accounted(mid, i);
      }
    }
    HeldBackAlways(env, mid, after, i, head);
  }

  // In clean schedules that holds after every run that completed.
  lemma CleanLaterRunsSkip(env: Env, w: World, before: seq<Event>, after: seq<Event>, c: nat, j: nat, i: nat)
    requires HexDigest(env) && GoodStart(env, w, c) && AllClean(env, w, before)
    requires var mid := Exec(env, w, before);
             && CompletedListed(env, mid, j)
             && (i < |mid.tasks| ==> mid.tasks[i].pc in {Waiting, Fetching, Composing, Guarding})
    ensures var mid, v := Exec(env, w, before), Exec(env, w, before + after);
            LiveOn(v, i, mid.tasks[j].head) ==> Skips(v, i)
  {
    GoodStartIsRecognised(env, w, c);
    hide HexDigest, AllClean, AllCleanFor, Recognised, Ledger, Fresh, PermitsKept, Exec, Skips, LiveOn;
    CleanSchedulesAreCleanFor(env, w, before, j);
    LaterRunsSkip(env, w, before, after, c, j, i);
  }

  // ----- runs of the next process -----

  lemma ListedForgotten(env: Env, reviews: seq<Review>)
    ensures Listed(env, Map(Forget, reviews)) == Map(Forget, Listed(env, reviews))
  {
    hide Forget;
  }

  lemma NamedAfterRestart(env: Env, w: World, next: nat, head: string)
    requires Named(env, w.reviews, head)
    ensures Named(env, Restarted(w, next).reviews, head)
  {
    ListedForgotten(env, w.reviews);
    var listed := Listed(env, w.reviews);
    hide Reviews, Listed;
    var r :| r in listed && Reviews(env, r.body, head);
    var k :| 0 <= k < |listed| && listed[k] == r;
    assert Map(Forget, listed)[k].body == r.body;
  }

  lemma RestartStarts(w: World, next: nat)
    ensures Runs.Start(Restarted(w, next), next)
  {
    var reviews := Map(Forget, w.reviews);
    forall r | r in reviews && r.author.Bicho? ensures r.author.run.None? {
      var k :| 0 <= k < |reviews| && reviews[k] == r;
    }
  }

  // The memory is GitHub's: after a run has completed on a head with a listed review, every live,
  // unforced run of the next process on that head is skipped too, for every number of permits.
  lemma NextProcessSkips(env: Env, w: World, before: seq<Event>, c: nat, next: nat, after: seq<Event>, j: nat, i: nat)
    requires HexDigest(env) && Runs.Start(w, c) && AllCleanFor(env, w, before, j)
    requires CompletedListed(env, Exec(env, w, before), j)
    ensures var mid := Exec(env, w, before);
            var v := Exec(env, Restarted(mid, next), after);
            LiveOn(v, i, mid.tasks[j].head) ==> Skips(v, i)
  {
    var mid := Exec(env, w, before);
    var head, start := mid.tasks[j].head, Restarted(mid, next);
    CompletedIsNamed(env, w, before, c, j);
    NamedAfterRestart(env, mid, next, head);
    RestartStarts(mid, next);
    StartLedger(start, next);
    assert start.tasks == [];
    hide HexDigest, Exec, Named, AllCleanFor, Restarted, Ledger;
    HeldBackAlways(env, start, after, i, head);
  }
}
