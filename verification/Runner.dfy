/** The in-process background runner: tasks bounded by a semaphore, and waiting for all of them. */
module Runner {
  import opened Options
  import opened Diff
  import opened Findings
  import opened Compose
  import opened Publishing
  import opened Runs
  import opened RunLaws

  predicate Done(pc: Pc) {
    pc.Ended? || pc.Crashed? || pc.EndedElsewhere?
  }

  // How many steps a run may still take.
  function StepsLeft(pc: Pc): nat {
    match pc
    case Waiting => 6
    case Fetching => 5
    case Composing => 4
    case Guarding => 3
    case CheckingHead => 2
    case Publishing => 1
    case Ended(_, _) => 0
    case Crashed => 0
    case WaitingElsewhere => 2
    case RunningElsewhere => 1
    case EndedElsewhere => 0
  }

  predicate WaitsForPermit(pc: Pc) {
    pc.Waiting? || pc.WaitingElsewhere?
  }

  // Direct runs do not belong to the runner.
  function Load(t: Task): nat {
    if t.direct then 0 else StepsLeft(t.pc)
  }

  function Work(tasks: seq<Task>): nat {
    if tasks == [] then 0 else Load(tasks[0]) + Work(tasks[1..])
  }

  lemma {:induction false} WorkUpdate(tasks: seq<Task>, i: nat, t: Task)
    requires i < |tasks|
    ensures Work(tasks[i := t]) == Work(tasks) - Load(tasks[i]) + Load(t)
  {
    if i == 0 {
      assert tasks[i := t][1..] == tasks[1..];
    } else {
      assert tasks[i := t][1..] == tasks[1..][i - 1 := t];
      WorkUpdate(tasks[1..], i - 1, t);
    }
  }

  // A run of the runner that is not done.
  predicate Open(t: Task) {
    !t.direct && !Done(t.pc)
  }

  function OpenRuns(runs: seq<Task>): set<nat> {
    set i: nat | i < |runs| && Open(runs[i])
  }

  // What happens without the runner: pushes, other people's reviews, and runs that are called directly.
  predicate Foreign(runs: seq<Task>, e: Event) {
    || e.Push? || e.Comment? || (e.Schedule? && e.origin.Direct?)
    || (OfRun(e) && e.run < |runs| && runs[e.run].direct)
  }

  lemma {:induction false} WorkOfOwn(a: seq<Task>, b: seq<Task>)
    requires |a| <= |b|
    requires forall i :: 0 <= i < |a| ==> b[i] == a[i] || (a[i].direct && b[i].direct)
    requires forall i :: |a| <= i < |b| ==> b[i].direct
    ensures Work(b) == Work(a)
    decreases |b|
  {
    if b != [] {
      assert forall i :: 0 <= i < |b[1..]| ==> b[1..][i] == b[i + 1];
      if a != [] {
        assert forall i :: 0 <= i < |a[1..]| ==> a[1..][i] == a[i + 1];
        WorkOfOwn(a[1..], b[1..]);
      } else {
        WorkOfOwn([], b[1..]);
      }
    }
  }

  // Nothing foreign touches a run of the runner.
  lemma ForeignShape(env: Env, w: World, e: Event)
    requires Foreign(w.tasks, e)
    ensures var v := Step(env, w, e);
            && |w.tasks| <= |v.tasks|
            && (forall i :: 0 <= i < |w.tasks| ==>
                  v.tasks[i] == w.tasks[i] || (w.tasks[i].direct && v.tasks[i].direct))
            && (forall i :: |w.tasks| <= i < |v.tasks| ==> v.tasks[i].direct)
  {
    StepShape(env, w, e);
    hide Step;
  }

  lemma ForeignKeeps(env: Env, w: World, e: Event, c: nat)
    requires Foreign(w.tasks, e) && PermitsKept(World("", [], w.permits, w.tasks), c)
    ensures var v := Step(env, w, e);
            && OpenRuns(v.tasks) == OpenRuns(w.tasks) && Work(v.tasks) == Work(w.tasks)
            && PermitsKept(World("", [], v.permits, v.tasks), c)
  {
    var v := Step(env, w, e);
    ForeignShape(env, w, e);
    assert Holders(w) == Holders(World("", [], w.permits, w.tasks));
    assert Holders(v) == Holders(World("", [], v.permits, v.tasks));
    PermitsStep(env, w, e, c);
    hide Step, Holders, Work;
    WorkOfOwn(w.tasks, v.tasks);
  }

  // Only direct runs are new.
  ghost predicate NothingScheduled(trace: seq<Event>) {
    forall k :: 0 <= k < |trace| ==> trace[k].Schedule? ==> trace[k].origin.Direct?
  }

  lemma NothingYet(env: Env, w: World)
    ensures Exec(env, w, []) == w
  {
  }

  // Without open runs all permits are free.
  lemma AllDone(w: World, c: nat)
    requires OpenRuns(w.tasks) == {} && PermitsKept(w, c)
    ensures w.permits == c && forall i :: 0 <= i < |w.tasks| ==> w.tasks[i].direct || Done(w.tasks[i].pc)
  {
    forall i: nat | i < |w.tasks| ensures w.tasks[i].direct || Done(w.tasks[i].pc) {
      assert i !in OpenRuns(w.tasks);
    }
    assert Holders(w) == {};
  }

  // With a permit to hand out or held, some unfinished run can take a step.
  lemma SomeCanStep(w: World, c: nat, i: nat)
    requires PermitsKept(w, c) && c > 0 && i < |w.tasks| && Open(w.tasks[i])
    ensures exists j :: 0 <= j < |w.tasks| && Open(w.tasks[j]) && (WaitsForPermit(w.tasks[j].pc) ==> w.permits > 0)
  {
    if Holders(w) != {} {
      var j :| j in Holders(w);
      assert Open(w.tasks[j]) && !WaitsForPermit(w.tasks[j].pc);
    } else {
      assert w.permits > 0;
    }
  }

  // What the rest of the program decides about one step of a run: whether it fails, and what the
  // analyzers found.
  datatype Choice = Choice(fails: bool, findings: seq<Finding>, diff: NormalizedDiff, outcomes: seq<AnalyzerOutcome>)

  // The event of a run that takes its next step.
  function NextEvent(w: World, i: nat, choice: Choice): Event
    requires i < |w.tasks| && !Done(w.tasks[i].pc)
  {
    match w.tasks[i].pc
    case Waiting => Acquire(i)
    case Publishing => if choice.fails then LoseResponse(i) else Publish(i)
    case Fetching => if choice.fails then Crash(i) else Fetch(i)
    case Composing => if choice.fails then Crash(i) else Draft(i, choice.findings, choice.diff, choice.outcomes)
    case Guarding => if choice.fails then Crash(i) else Guard(i)
    case CheckingHead => if choice.fails then Crash(i) else CheckHead(i)
    case WaitingElsewhere => Acquire(i)
    case RunningElsewhere => if choice.fails then Crash(i) else Finish(i)
  }

  class BackgroundReviewRunner {
    const env: Env
    const concurrency: nat
    const github: GitHub
    var permits: nat
    var runs: seq<Task>      // every run of the process, in order
    var tasks: set<nat>      // the scheduled runs that are not done

    ghost predicate Valid()
      reads this
    {
      && tasks == OpenRuns(runs)
      && PermitsKept(World("", [], permits, runs), concurrency)
    }

    ghost function State(): World
      reads this, github
    {
      World(github.headSha, github.reviews, permits, runs)
    }

    constructor (env: Env, github: GitHub, concurrency: nat)
      ensures Valid() && this.env == env && this.github == github && this.concurrency == concurrency
      ensures State() == World(github.headSha, github.reviews, concurrency, [])
    {
      this.env := env;
      this.github := github;
      this.concurrency := concurrency;
      permits := concurrency;
      runs := [];
      tasks := {};
    }

    // Schedules a review of this pull request or of another one.
    method Schedule(options: ReviewOptions, elsewhere: bool)
      requires Valid()
      modifies this
      ensures Valid()
      ensures State() == Step(env, old(State()), Event.Schedule(options, if elsewhere then Elsewhere else Background))
      ensures tasks == old(tasks) + {|old(runs)|}
    {
      ghost var before := World("", [], permits, runs);
      runs := runs + [NewTask(options, if elsewhere then Elsewhere else Background)];
      tasks := tasks + {|runs| - 1};
      assert Holders(World("", [], permits, runs)) == Holders(before);
    }

    // Replaces run `i`, gives back `released` permits, and discards the run if it is done.
    method Settle(i: nat, t: Task, released: bool)
      requires Valid() && i < |runs| && Open(runs[i])
      requires !t.direct && released == Done(t.pc) && (released ==> Running(runs[i].pc))
      requires !released ==> Running(t.pc) && (Running(runs[i].pc) || permits > 0)
      modifies this
      ensures Valid() && runs == old(runs)[i := t]
      ensures permits == old(permits) + (if released then 1 else 0) - (if WaitsForPermit(old(runs[i].pc)) then 1 else 0)
      ensures tasks == if released then old(tasks) - {i} else old(tasks)
      ensures Work(runs) == old(Work(runs)) - Load(old(runs[i])) + Load(t)
    {
      ghost var before := World("", [], permits, runs);
      WorkUpdate(runs, i, t);
      if WaitsForPermit(runs[i].pc) {
        permits := permits - 1;
      }
      if released {
        permits := permits + 1;
        tasks := tasks - {i};
      }
      runs := runs[i := t];
      HoldersMove(before, World("", [], permits, runs), i);
    }

    // ----- the nodes of the review, as steps of run `i` -----

    method RunFetch(i: nat)
      requires Valid() && i < |runs| && !runs[i].direct && runs[i].pc == Fetching
      modifies this
      ensures Valid() && Work(runs) < old(Work(runs)) && tasks == old(tasks)
      ensures State() == Step(env, old(State()), Fetch(i))
      ensures runs == old(runs)[i := old(runs[i]).(pc := Composing, head := github.headSha)]
    {
      Settle(i, runs[i].(pc := Composing, head := github.headSha), false);
    }

    method RunCompose(i: nat, findings: seq<Finding>, diff: NormalizedDiff, outcomes: seq<AnalyzerOutcome>)
      requires Valid() && i < |runs| && !runs[i].direct && runs[i].pc == Composing
      modifies this
      ensures Valid() && Work(runs) < old(Work(runs)) && tasks == old(tasks)
      ensures State() == Step(env, old(State()), Draft(i, findings, diff, outcomes))
      ensures var t := old(runs[i]);
              runs == old(runs)[i := t.(pc := Guarding,
                                        draft := Some(ComposeDraft(env, findings, diff, t.head, outcomes)))]
    {
      hide ComposeDraft;
      var draft := ComposeReview(env, findings, diff, runs[i].head, outcomes);
      Settle(i, runs[i].(pc := Guarding, draft := Some(draft)), false);
    }

    method RunGuard(i: nat)
      requires Valid() && i < |runs| && !runs[i].direct && runs[i].pc == Guarding
      modifies this
      ensures Valid() && Work(runs) < old(Work(runs))
      ensures State() == Step(env, old(State()), Guard(i))
      ensures var t := old(runs[i]);
              runs == old(runs)[i := t.(pc := if t.options.dryRun then Ended(DryRun, None)
                                              else if !t.options.force && Named(env, github.reviews, t.head) then
                                                Ended(Skipped, None)
                                              else CheckingHead)]
      ensures tasks == if Done(runs[i].pc) then old(tasks) - {i} else old(tasks)
    {
      hide GuardDecision, Named;
      var decision := IdempotencyGuard(env, runs[i].options, runs[i].head, github);
      if RouteAfterIdempotency(decision) == END {
        Settle(i, runs[i].(pc := Ended(decision.value, None)), true);
      } else {
        Settle(i, runs[i].(pc := CheckingHead), false);
      }
    }

    method RunCheckHead(i: nat)
      requires Valid() && i < |runs| && !runs[i].direct && runs[i].pc == CheckingHead
      modifies this
      ensures Valid() && Work(runs) < old(Work(runs))
      ensures State() == Step(env, old(State()), CheckHead(i))
      ensures var t := old(runs[i]);
              runs == old(runs)[i := t.(pc := if github.headSha == t.head then Publishing else Ended(Stale, None))]
      ensures tasks == if Done(runs[i].pc) then old(tasks) - {i} else old(tasks)
    {
      var decision := StaleHeadGuard(runs[i].head, github);
      if RouteAfterStale(decision) == END {
        Settle(i, runs[i].(pc := Ended(Stale, None)), true);
      } else {
        Settle(i, runs[i].(pc := Publishing), false);
      }
    }

    // Posts the review; the run then completes, or fails without having seen the answer.
    method RunPublish(i: nat, fails: bool)
      requires Valid() && i < |runs| && !runs[i].direct && runs[i].pc == Publishing && runs[i].draft.Some?
      modifies this, github
      ensures Valid() && Work(runs) < old(Work(runs)) && tasks == old(tasks) - {i}
      ensures State() == Step(env, old(State()), if fails then LoseResponse(i) else Publish(i))
      ensures var t, n := old(runs[i]), |old(github.reviews)|;
              && runs == old(runs)[i := t.(pc := if fails then Crashed else Ended(Completed, Some(n)))]
              && github.headSha == old(github.headSha)
              && github.reviews == old(github.reviews)
                 + [Review(n, Bicho(Some(i), t.options.force), t.draft.value.commitId, t.draft.value.summary)]
    {
      var id := github.PublishReview(Bicho(Some(i), runs[i].options.force), runs[i].draft.value);
      Settle(i, runs[i].(pc := if fails then Crashed else Ended(Completed, Some(id))), true);
    }

    // A failure inside a run is caught: the run ends and the permit is free again.
    method RunFails(i: nat)
      requires Valid() && i < |runs| && !runs[i].direct && Running(runs[i].pc)
      modifies this
      ensures Valid() && Work(runs) < old(Work(runs)) && tasks == old(tasks) - {i}
      ensures State() == Step(env, old(State()), Crash(i))
      ensures runs == old(runs)[i := old(runs[i]).(pc := Crashed)]
    {
      Settle(i, runs[i].(pc := Crashed), true);
    }

    method RunAcquire(i: nat)
      requires Valid() && i < |runs| && !runs[i].direct && WaitsForPermit(runs[i].pc) && permits > 0
      modifies this
      ensures Valid() && Work(runs) < old(Work(runs)) && tasks == old(tasks)
      ensures State() == Step(env, old(State()), Acquire(i))
      ensures var t := old(runs[i]);
              runs == old(runs)[i := t.(pc := if t.pc.Waiting? then Fetching else RunningElsewhere)]
    {
      Settle(i, runs[i].(pc := if runs[i].pc.Waiting? then Fetching else RunningElsewhere), false);
    }

    // A review of another pull request, which takes its time and ends.
    method RunElsewhere(i: nat)
      requires Valid() && i < |runs| && !runs[i].direct && runs[i].pc == RunningElsewhere
      modifies this
      ensures Valid() && Work(runs) < old(Work(runs)) && tasks == old(tasks) - {i}
      ensures State() == Step(env, old(State()), Finish(i))
      ensures runs == old(runs)[i := old(runs[i]).(pc := EndedElsewhere)]
    {
      Settle(i, runs[i].(pc := EndedElsewhere), true);
    }

    // Run `i` takes its next step, as one of the review's nodes or by failing. A run that does not fail goes
    // on to the next node, as the node decides.
    method Advance(i: nat, choice: Choice)
      requires Valid() && i in tasks && (WaitsForPermit(runs[i].pc) ==> permits > 0)
      requires Drafted(State(), i)
      modifies this, github
      ensures Valid() && Work(runs) < old(Work(runs))
      ensures State() == Step(env, old(State()), NextEvent(old(State()), i, choice))
      ensures |runs| == |old(runs)| && forall j :: 0 <= j < |runs| && j != i ==> runs[j] == old(runs)[j]
      ensures tasks == if Done(runs[i].pc) then old(tasks) - {i} else old(tasks)
      ensures github.headSha == old(github.headSha)
      ensures var t := old(runs[i]); !t.pc.Publishing? ==> github.reviews == old(github.reviews)
      ensures var t := old(runs[i]); choice.fails && !WaitsForPermit(t.pc) ==> runs[i] == t.(pc := Crashed)
      ensures var t := old(runs[i]); t.pc.Waiting? ==> runs[i] == t.(pc := Fetching)
      ensures var t := old(runs[i]);
              !choice.fails && t.pc.Fetching? ==> runs[i] == t.(pc := Composing, head := old(github.headSha))
      ensures var t := old(runs[i]); !choice.fails && t.pc.Composing? ==>
        runs[i] == t.(pc := Guarding,
                      draft := Some(ComposeDraft(env, choice.findings, choice.diff, t.head, choice.outcomes)))
      ensures var t := old(runs[i]); !choice.fails && t.pc.Guarding? ==>
        runs[i] == t.(pc := if t.options.dryRun then Ended(DryRun, None)
                            else if !t.options.force && Named(env, old(github.reviews), t.head) then
                              Ended(Skipped, None)
                            else CheckingHead)
      ensures var t := old(runs[i]); !choice.fails && t.pc.CheckingHead? ==>
        runs[i] == t.(pc := if old(github.headSha) == t.head then Publishing else Ended(Stale, None))
      ensures var t := old(runs[i]); t.pc.Publishing? ==>
        && (!choice.fails ==> runs[i] == t.(pc := Ended(Completed, Some(|old(github.reviews)|))))
        && t.draft.Some?
        && github.reviews == old(github.reviews)
           + [Review(|old(github.reviews)|, Bicho(Some(i), t.options.force), t.draft.value.commitId,
                     t.draft.value.summary)]
      ensures var t := old(runs[i]); t.pc.WaitingElsewhere? ==> runs[i] == t.(pc := RunningElsewhere)
      ensures var t := old(runs[i]);
              !choice.fails && t.pc.RunningElsewhere? ==> runs[i] == t.(pc := EndedElsewhere)
    {
      assert i < |runs| && Open(runs[i]);
      hide Step, GuardDecision, TailStatus, ComposeDraft, Work, PermitsKept, Named;
      var pc := runs[i].pc;
      if WaitsForPermit(pc) {
        RunAcquire(i);
      } else if pc.Publishing? {
        RunPublish(i, choice.fails);
      } else if choice.fails {
        RunFails(i);
      } else if pc.Fetching? {
        RunFetch(i);
      } else if pc.Composing? {
        RunCompose(i, choice.findings, choice.diff, choice.outcomes);
      } else if pc.Guarding? {
        RunGuard(i);
      } else if pc.CheckingHead? {
        RunCheckHead(i);
      } else {
        RunElsewhere(i);
      }
    }

    // A run that waits for a free permit, with nobody else acting and without a failure, ends as the tail
    // of a run says: in a live run of a head that no listed review names, with its draft posted.
    method RunAlone(i: nat, findings: seq<Finding>, diff: NormalizedDiff, outcomes: seq<AnalyzerOutcome>)
      requires Valid() && i in tasks && runs[i].pc == Waiting && permits > 0
      modifies this, github
      ensures Valid() && tasks == old(tasks) - {i} && github.headSha == old(github.headSha)
      ensures |runs| == |old(runs)| && forall j :: 0 <= j < |runs| && j != i ==> runs[j] == old(runs)[j]
      ensures var options, head, n := old(runs[i].options), old(github.headSha), |old(github.reviews)|;
              var status := TailStatus(env, options, head, old(github.reviews), head);
              && runs[i].pc == Ended(status, if status == Completed then Some(n) else None)
              && github.reviews == old(github.reviews)
                 + if status != Completed then []
                   else [Review(n, Bicho(Some(i), options.force), head,
                                ComposeDraft(env, findings, diff, head, outcomes).summary)]
    {
      hide Step, Work, PermitsKept, Named, ComposeDraft;
      var choice := Choice(false, findings, diff, outcomes);
      Advance(i, choice);
      Advance(i, choice);
      Advance(i, choice);
      Advance(i, choice);
      if !Done(runs[i].pc) {
        Advance(i, choice);
        Advance(i, choice);
      }
    }

    // Some unfinished run that can step, as the event loop may pick it.
    method Pick() returns (i: nat)
      requires Valid() && concurrency > 0 && tasks != {}
      ensures i in tasks && (WaitsForPermit(runs[i].pc) ==> permits > 0)
    {
      ghost var w := World("", [], permits, runs);
      ghost var k :| k in tasks;
      SomeCanStep(w, concurrency, k);
      i :| i in tasks && (WaitsForPermit(runs[i].pc) ==> permits > 0);
    }

    // Some run takes a step; the trace grows by its event.
    method DrainStep(choice: Choice, ghost start: World, ghost before: seq<Event>) returns (ghost trace: seq<Event>)
      requires Valid() && Ledger(State()) && concurrency > 0 && tasks != {}
      requires State() == Exec(env, start, before)
      modifies this, github
      ensures Valid() && Ledger(State()) && Work(runs) < old(Work(runs))
      ensures State() == Exec(env, start, trace)
      ensures |trace| == |before| + 1 && before <= trace && !trace[|before|].Schedule?
    {
      var i := Pick();
      ghost var e := NextEvent(State(), i, choice);
      assert Drafted(State(), i) && !e.Schedule?;
      LedgerStep(env, State(), e);
      Advance(i, choice);
      hide Step;
      trace := before + [e];
      ExecSnoc(env, start, trace);
      assert trace[..|before|] == before;
    }

    // Something foreign happens meanwhile; the runner has no part in it.
    method OthersAct(e: Event, ghost start: World, ghost before: seq<Event>) returns (ghost trace: seq<Event>)
      requires Valid() && Ledger(State()) && State() == Exec(env, start, before) && Foreign(runs, e)
      modifies this, github
      ensures Valid() && Ledger(State()) && State() == Exec(env, start, trace)
      ensures tasks == old(tasks) && Work(runs) == old(Work(runs))
      ensures |trace| == |before| + 1 && before <= trace && trace[|before|] == e
    {
      hide Step, Ledger, Work, OpenRuns, PermitsKept, Exec, Foreign, Accounted, Drafted, Genuine;
      ghost var state := State();
      LedgerStep(env, state, e);
      ForeignKeeps(env, state, e, concurrency);
      var w := Step(env, World(github.headSha, github.reviews, permits, runs), e);
      assert w == Step(env, state, e);
      github.headSha, github.reviews, permits, runs := w.head, w.reviews, w.permits, w.tasks;
      assert State() == w;
      trace := before + [e];
      ExecSnoc(env, start, trace);
      assert trace[..|before|] == before;
    }

    // Foreign events, as many as there are.
    method Meanwhile(ghost start: World, ghost before: seq<Event>) returns (ghost trace: seq<Event>)
      requires Valid() && Ledger(State()) && State() == Exec(env, start, before) && NothingScheduled(before)
      modifies this, github
      ensures Valid() && Ledger(State()) && State() == Exec(env, start, trace) && NothingScheduled(trace)
      ensures tasks == old(tasks) && Work(runs) == old(Work(runs))
    {
      hide Ledger, Work, Exec;
      trace := before;
      var more: nat := *;
      while more > 0
        invariant Valid() && Ledger(State()) && State() == Exec(env, start, trace) && NothingScheduled(trace)
        invariant tasks == old(tasks) && Work(runs) == old(Work(runs))
      {
        var e: Event := *;
        if Foreign(runs, e) {
          ghost var earlier := trace;
          trace := OthersAct(e, start, trace);
          assert forall k :: 0 <= k < |earlier| ==> trace[k] == earlier[k];
        }
        more := more - 1;
      }
    }

    // Waits until no scheduled run is left. The trace tells what happened meanwhile: steps of the runs, in
    // an order and with outcomes nobody controls, and whatever is foreign to the runner.
    method Drain() returns (ghost trace: seq<Event>)
      requires Valid() && Ledger(State()) && (concurrency > 0 || tasks == {})
      modifies this, github
      ensures Valid() && tasks == {} && permits == concurrency
      ensures State() == Exec(env, old(State()), trace) && NothingScheduled(trace)
      ensures forall i :: 0 <= i < |runs| ==> runs[i].direct || Done(runs[i].pc)
    {
      hide Step, Ledger, Exec, Work, OpenRuns, PermitsKept;
      ghost var start := State();
      trace := [];
      assert Exec(env, start, []) == start by { NothingYet(env, start); }
      while tasks != {}
        invariant Valid() && Ledger(State()) && State() == Exec(env, start, trace) && NothingScheduled(trace)
        invariant concurrency > 0 || tasks == {}
        decreases Work(runs)
      {
        var snapshot := tasks;
        ghost var work := Work(runs);
        while snapshot * tasks != {}
          invariant Valid() && Ledger(State()) && State() == Exec(env, start, trace) && NothingScheduled(trace)
          invariant Work(runs) < work || (Work(runs) == work && tasks == snapshot)
          decreases Work(runs)
        {
          trace := Meanwhile(start, trace);
          var choice: Choice := *;
          ghost var earlier := trace;
          trace := DrainStep(choice, start, trace);
          assert forall k :: 0 <= k < |earlier| ==> trace[k] == earlier[k];
        }
      }
      AllDone(World("", [], permits, runs), concurrency);
    }
  }
}
