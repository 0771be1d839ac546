/** A run that posts nothing, because it failed or for any other reason, makes no difference to anybody else. */
module Isolation {
  import opened Seqs
  import opened Compose
  import opened Publishing
  import opened Runs
  import opened RunLaws
  import opened HeadLaws

  // Not a step of run `i`.
  function NotOf(i: nat): Event -> bool {
    (e: Event) => !(OfRun(e) && e.run == i)
  }

  function Without(events: seq<Event>, i: nat): seq<Event> {
    Filter(NotOf(i), events)
  }

  // A run that waits for a permit takes one only when one is free; waiting is not a step.
  predicate Possible(env: Env, w: World, events: seq<Event>)
    decreases |events|
  {
    events == []
    || ((events[0].Acquire? && CanAcquire(w, events[0].run) ==> w.permits > 0)
        && Possible(env, Step(env, w, events[0]), events[1..]))
  }

  predicate HasPermit(w: World, i: nat) {
    i < |w.tasks| && Holding(w.tasks[i])
  }

  // `v` is like `w`, but for run `i`, which holds no permit there.
  ghost predicate AlikeButFor(w: World, v: World, i: nat) {
    && v.head == w.head && v.reviews == w.reviews && |v.tasks| == |w.tasks|
    && (forall j :: 0 <= j < |w.tasks| && j != i ==> v.tasks[j] == w.tasks[j])
    && !HasPermit(v, i)
    && v.permits == w.permits + if HasPermit(w, i) then 1 else 0
  }

  // The effect of a step of another run is the same in both.
  ghost predicate SameEffect(env: Env, w: World, v: World, e: Event)
    requires OfRun(e)
  {
    var w', v' := Step(env, w, e), Step(env, v, e);
    && v'.head == w'.head && v'.reviews == w'.reviews && v'.permits - v.permits == w'.permits - w.permits
    && (e.run < |w.tasks| ==> e.run < |w'.tasks| && e.run < |v'.tasks| && v'.tasks[e.run] == w'.tasks[e.run])
  }

  lemma SamePost(env: Env, w: World, v: World, e: Event, i: nat)
    requires AlikeButFor(w, v, i) && (e.Publish? || e.LoseResponse?) && e.run != i
    ensures SameEffect(env, w, v, e)
  {
    hide ComposeDraft, GuardDecision, Holding;
  }

  lemma SameDecision(env: Env, w: World, v: World, e: Event, i: nat)
    requires AlikeButFor(w, v, i) && (e.Guard? || e.CheckHead?) && e.run != i
    ensures SameEffect(env, w, v, e)
  {
    hide ComposeDraft, GuardDecision, Holding;
  }

  lemma SameWork(env: Env, w: World, v: World, e: Event, i: nat)
    requires AlikeButFor(w, v, i) && (e.Fetch? || e.Draft? || e.Crash? || e.Finish?) && e.run != i
    ensures SameEffect(env, w, v, e)
  {
    hide ComposeDraft, GuardDecision, Holding;
  }

  lemma SameAcquire(env: Env, w: World, v: World, e: Event, i: nat)
    requires AlikeButFor(w, v, i) && e.Acquire? && e.run != i
    requires CanAcquire(w, e.run) ==> w.permits > 0
    ensures SameEffect(env, w, v, e)
  {
    hide ComposeDraft, GuardDecision, Holding;
  }

  lemma SameStep(env: Env, w: World, v: World, e: Event, i: nat)
    requires AlikeButFor(w, v, i) && OfRun(e) && e.run != i
    requires e.Acquire? && CanAcquire(w, e.run) ==> w.permits > 0
    ensures SameEffect(env, w, v, e)
  {
    hide SameEffect, AlikeButFor, CanAcquire;
    match e {
      case Acquire(_) => SameAcquire(env, w, v, e, i);
      case Guard(_) => SameDecision(env, w, v, e, i);
      case CheckHead(_) => SameDecision(env, w, v, e, i);
      case Publish(_) => SamePost(env, w, v, e, i);
      case LoseResponse(_) => SamePost(env, w, v, e, i);
      case _ => SameWork(env, w, v, e, i);
    }
  }

  lemma OthersStep(env: Env, w: World, v: World, e: Event, i: nat)
    requires AlikeButFor(w, v, i) && NotOf(i)(e)
    requires e.Acquire? && CanAcquire(w, e.run) ==> w.permits > 0
    ensures AlikeButFor(Step(env, w, e), Step(env, v, e), i)
  {
    StepShape(env, w, e);
    StepShape(env, v, e);
    if OfRun(e) {
      RunStepShape(env, w, e);
      RunStepShape(env, v, e);
      SameStep(env, w, v, e, i);
      hide Step, Holding;
    } else {
      hide ComposeDraft, GuardDecision;
    }
  }

  // A step of run `i` that posts nothing changes nothing but the run and its permit.
  lemma OwnStep(env: Env, w: World, v: World, e: Event, i: nat)
    requires AlikeButFor(w, v, i) && OfRun(e) && e.run == i && Step(env, w, e).reviews == w.reviews
    ensures AlikeButFor(Step(env, w, e), v, i)
  {
    RunStepShape(env, w, e);
    assert Step(env, w, e).head == w.head by { hide ComposeDraft, GuardDecision; }
    if i < |w.tasks| {
      PermitsHere(env, w, e);
    } else {
      hide ComposeDraft, GuardDecision;
      assert Step(env, w, e) == w;
    }
    hide Step, Holding;
  }

  // What a run has posted stays posted.
  lemma PostedNothingBefore(env: Env, w: World, e: Event, rest: seq<Event>, i: nat)
    requires PostedNothing(Exec(env, Step(env, w, e), rest), i) && OfRun(e) && e.run == i
    ensures Step(env, w, e).reviews == w.reviews
  {
    var v := Step(env, w, e);
    var end := Exec(env, v, rest);
    ReviewsGrow(env, v, rest);
    StepPosts(env, w, e);
    hide Step, Exec;
    var k := |w.reviews|;
    assert k < |v.reviews| ==> v.reviews[k] == end.reviews[k];
    assert !PostedBy(end, i, k);
  }

  lemma {:induction false} AlikeAlways(env: Env, w: World, v: World, events: seq<Event>, i: nat)
    requires AlikeButFor(w, v, i) && Possible(env, w, events) && PostedNothing(Exec(env, w, events), i)
    ensures AlikeButFor(Exec(env, w, events), Exec(env, v, Without(events, i)), i)
    decreases |events|
  {
    if events != [] {
      var e, rest := events[0], events[1..];
      var kept := Without(rest, i);
      hide Step, AlikeButFor, PostedNothing, CanAcquire;
      if NotOf(i)(e) {
        OthersStep(env, w, v, e, i);
        AlikeAlways(env, Step(env, w, e), Step(env, v, e), rest, i);
        assert Without(events, i) == [e] + kept;
        assert ([e] + kept)[1..] == kept;
      } else {
        PostedNothingBefore(env, w, e, rest, i);
        OwnStep(env, w, v, e, i);
        AlikeAlways(env, Step(env, w, e), v, rest, i);
        assert Without(events, i) == [] + kept == kept;
      }
    }
  }

  // Leaving out every step of a run that posts nothing changes no other run, no review and not the head,
  // and frees the permit it may hold.
  lemma SilentRunIsIsolated(env: Env, w: World, events: seq<Event>, c: nat, i: nat)
    requires Start(w, c) && Possible(env, w, events) && PostedNothing(Exec(env, w, events), i)
    ensures AlikeButFor(Exec(env, w, events), Exec(env, w, Without(events, i)), i)
  {
    hide Exec, Possible, Without, PostedNothing;
    AlikeAlways(env, w, w, events, i);
  }
}
