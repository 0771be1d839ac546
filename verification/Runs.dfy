/**
One pull request and all runs that matter to it: those of the background runner, on this and on other pull
requests, which share a semaphore, and those called directly, interleaved step by step with each other and
with what other people do to the pull request.
 */
module Runs {
  import opened Options
  import opened Diff
  import opened Findings
  import opened Compose
  import opened Publishing

  // Where a run is. Of a run on another pull request only its use of the semaphore matters here.
  datatype Pc =
    | Waiting
    | Fetching
    | Composing
    | Guarding
    | CheckingHead
    | Publishing
    | Ended(status: ReviewStatus, reviewId: Option<nat>)
    | Crashed
    | WaitingElsewhere
    | RunningElsewhere
    | EndedElsewhere

  // A run; a direct one was called through `POST /reviews`, which does not go through the semaphore.
  datatype Task = Task(options: ReviewOptions, pc: Pc, head: string, draft: Option<ReviewDraft>, direct: bool)

  datatype World = World(head: string, reviews: seq<Review>, permits: nat, tasks: seq<Task>)

  datatype Origin = Background | Direct | Elsewhere

  datatype Event =
    | Schedule(options: ReviewOptions, origin: Origin)
    | Acquire(run: nat)
    | Fetch(run: nat)
    | Draft(run: nat, findings: seq<Finding>, diff: NormalizedDiff, outcomes: seq<AnalyzerOutcome>)
    | Guard(run: nat)
    | CheckHead(run: nat)
    | Publish(run: nat)
    | LoseResponse(run: nat)                // the review is posted, but the run fails or times out
    | Crash(run: nat)                       // the run fails or times out before posting
    | Finish(run: nat)                      // a run on another pull request ends
    | Push(newHead: string)
    | Comment(login: string, body: string)

  predicate Running(pc: Pc) {
    pc in {Fetching, Composing, Guarding, CheckingHead, Publishing, RunningElsewhere}
  }

  // The run holds a permit of the semaphore.
  predicate Holding(t: Task) {
    Running(t.pc) && !t.direct
  }

  function NewTask(options: ReviewOptions, origin: Origin): Task {
    var pc := match origin
              case Background => Waiting
              case Direct => Fetching
              case Elsewhere => WaitingElsewhere;
    Task(options, pc, "", None, origin.Direct?)
  }

  // A step of a run.
  predicate OfRun(e: Event) {
    !e.Schedule? && !e.Push? && !e.Comment?
  }

  predicate At(w: World, i: nat, pc: Pc) {
    i < |w.tasks| && w.tasks[i].pc == pc
  }

  // The run waits for a permit.
  predicate CanAcquire(w: World, i: nat) {
    (At(w, i, Waiting) || At(w, i, WaitingElsewhere)) && !w.tasks[i].direct
  }

  function MoveTo(w: World, i: nat, pc: Pc): World
    requires i < |w.tasks|
  {
    w.(tasks := w.tasks[i := w.tasks[i].(pc := pc)])
  }

  // The run ends and gives its permit back, if it holds one.
  function Release(w: World, i: nat, pc: Pc): World
    requires i < |w.tasks|
  {
    MoveTo(w, i, pc).(permits := w.permits + if w.tasks[i].direct then 0 else 1)
  }

  // The run's draft appears on GitHub.
  function Post(w: World, i: nat): World
    requires i < |w.tasks|
  {
    match w.tasks[i].draft
    case None => w
    case Some(d) =>
      var author := Bicho(Some(i), w.tasks[i].options.force);
      w.(reviews := w.reviews + [Review(|w.reviews|, author, d.commitId, d.summary)])
  }

  // One step; an event that cannot happen changes nothing.
  function Step(env: Env, w: World, e: Event): World {
    match e
    case Schedule(options, origin) => w.(tasks := w.tasks + [NewTask(options, origin)])
    case Acquire(i) =>
      if CanAcquire(w, i) && w.permits > 0 then
        MoveTo(w, i, if w.tasks[i].pc.Waiting? then Fetching else RunningElsewhere).(permits := w.permits - 1)
      else w
    case Fetch(i) =>
      if At(w, i, Fetching) then w.(tasks := w.tasks[i := w.tasks[i].(pc := Composing, head := w.head)]) else w
    case Draft(i, findings, diff, outcomes) =>
      if At(w, i, Composing) then
        var draft := ComposeDraft(env, findings, diff, w.tasks[i].head, outcomes);
        w.(tasks := w.tasks[i := w.tasks[i].(pc := Guarding, draft := Some(draft))])
      else w
    case Guard(i) =>
      if At(w, i, Guarding) then
        match GuardDecision(env, w.tasks[i].options, w.tasks[i].head, w.reviews)
        case Some(status) => Release(w, i, Ended(status, None))
        case None => MoveTo(w, i, CheckingHead)
      else w
    case CheckHead(i) =>
      if !At(w, i, CheckingHead) then w
      else if w.head != w.tasks[i].head then Release(w, i, Ended(Stale, None))
      else MoveTo(w, i, Publishing)
    case Publish(i) =>
      if At(w, i, Publishing) then Release(Post(w, i), i, Ended(Completed, Some(|w.reviews|))) else w
    case LoseResponse(i) => if At(w, i, Publishing) then Release(Post(w, i), i, Crashed) else w
    case Crash(i) => if i < |w.tasks| && Running(w.tasks[i].pc) then Release(w, i, Crashed) else w
    case Finish(i) => if At(w, i, RunningElsewhere) then Release(w, i, EndedElsewhere) else w
    case Push(newHead) => w.(head := newHead)
    case Comment(login, body) => w.(reviews := w.reviews + [Review(|w.reviews|, Other(login), w.head, body)])
  }

  function Exec(env: Env, w: World, events: seq<Event>): World
    decreases |events|
  {
    if events == [] then w else Exec(env, Step(env, w, events[0]), events[1..])
  }

  // A process with `c` permits starts; the pull request may hold reviews of earlier processes.
  predicate Start(w: World, c: nat) {
    w.permits == c && w.tasks == [] && forall r :: r in w.reviews && r.author.Bicho? ==> r.author.run.None?
  }

  lemma {:induction false} ExecConcat(env: Env, w: World, a: seq<Event>, b: seq<Event>)
    ensures Exec(env, w, a + b) == Exec(env, Exec(env, w, a), b)
    decreases |a|
  {
    if a == [] {
      assert a + b == b;
    } else {
      assert (a + b)[1..] == a[1..] + b;
      hide Step;
      ExecConcat(env, Step(env, w, a[0]), a[1..], b);
    }
  }

  lemma ExecSnoc(env: Env, w: World, events: seq<Event>)
    requires events != []
    ensures var n := |events| - 1;
            Exec(env, w, events) == Step(env, Exec(env, w, events[..n]), events[n])
  {
    var n := |events| - 1;
    hide Step;
    assert events == events[..n] + [events[n]];
    ExecConcat(env, w, events[..n], [events[n]]);
    assert [events[n]][1..] == [];
  }

  // A step of a run changes no other run.
  lemma RunStepShape(env: Env, w: World, e: Event)
    requires OfRun(e)
    ensures var v := Step(env, w, e);
            && w.reviews <= v.reviews
            && |v.tasks| == |w.tasks|
            && forall j :: 0 <= j < |w.tasks| ==>
                 && v.tasks[j].options == w.tasks[j].options && v.tasks[j].direct == w.tasks[j].direct
                 && (j != e.run ==> v.tasks[j] == w.tasks[j])
  {
    hide ComposeDraft, GuardDecision;
  }

  // What a step can change: at most one task, and the reviews only at their end.
  lemma StepShape(env: Env, w: World, e: Event)
    ensures var v := Step(env, w, e);
            && w.reviews <= v.reviews
            && |w.tasks| <= |v.tasks|
            && (forall i :: 0 <= i < |w.tasks| ==>
                  v.tasks[i].options == w.tasks[i].options && v.tasks[i].direct == w.tasks[i].direct)
            && (e.Schedule? ==> v.tasks == w.tasks + [NewTask(e.options, e.origin)])
            && (!e.Schedule? ==> |v.tasks| == |w.tasks|)
            && (e.Schedule? || e.Push? || e.Comment? ==> v.permits == w.permits && v.tasks[..|w.tasks|] == w.tasks)
            && (OfRun(e) ==>
                  forall j :: 0 <= j < |w.tasks| && j != e.run ==> v.tasks[j] == w.tasks[j])
  {
    if OfRun(e) {
      hide Step;
      RunStepShape(env, w, e);
    }
  }
}
