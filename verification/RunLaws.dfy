/** What holds in every interleaving of runs: permits, single publication, and once per head. */
module RunLaws {
  import opened Options
  import opened Seqs
  import opened Marker
  import opened Compose
  import opened Publishing
  import opened Runs

  // ----- permits -----

  function Holders(w: World): set<nat> {
    set i: nat | i < |w.tasks| && Holding(w.tasks[i])
  }

  // Free permits and the reviews that hold one together are the configured concurrency.
  ghost predicate PermitsKept(w: World, c: nat) {
    w.permits + |Holders(w)| == c
  }

  lemma HoldersMove(w: World, v: World, i: nat)
    requires |v.tasks| == |w.tasks| && i < |w.tasks|
    requires forall j :: 0 <= j < |w.tasks| && j != i ==> Holding(v.tasks[j]) == Holding(w.tasks[j])
    ensures |Holders(v)| == |Holders(w)| - (if Holding(w.tasks[i]) then 1 else 0)
                                         + (if Holding(v.tasks[i]) then 1 else 0)
  {
    hide Holding;
    var rest := Holders(w) - {i};
    assert Holders(w) == if Holding(w.tasks[i]) then rest + {i} else rest;
    assert Holders(v) == if Holding(v.tasks[i]) then rest + {i} else rest;
  }

  // A run takes a permit when it starts to hold one, and gives one back when it stops.
  lemma PermitsHere(env: Env, w: World, e: Event)
    requires OfRun(e) && e.run < |w.tasks|
    ensures var v := Step(env, w, e);
            && |v.tasks| == |w.tasks|
            && v.permits + (if Holding(v.tasks[e.run]) then 1 else 0)
               == w.permits + (if Holding(w.tasks[e.run]) then 1 else 0)
  {
    hide ComposeDraft, GuardDecision;
  }

  lemma PermitsStep(env: Env, w: World, e: Event, c: nat)
    requires PermitsKept(w, c)
    ensures PermitsKept(Step(env, w, e), c)
  {
    var v := Step(env, w, e);
    StepShape(env, w, e);
    if !OfRun(e) {
      hide Step;
      assert Holders(v) == Holders(w) by {
        assert forall j :: 0 <= j < |w.tasks| ==> v.tasks[j] == w.tasks[j];
      }
    } else if e.run < |w.tasks| {
      PermitsHere(env, w, e);
      hide Step, Holding;
      HoldersMove(w, v, e.run);
      hide Holders;
    }
  }

  lemma {:induction false} PermitsAlways(env: Env, w: World, events: seq<Event>, c: nat)
    requires PermitsKept(w, c)
    ensures PermitsKept(Exec(env, w, events), c)
    decreases |events|
  {
    if events != [] {
      PermitsStep(env, w, events[0], c);
      hide Step;
      PermitsAlways(env, Step(env, w, events[0]), events[1..], c);
    }
  }

  lemma StartKeepsPermits(w: World, c: nat)
    requires Start(w, c)
    ensures PermitsKept(w, c)
  {
    assert Holders(w) == {};
  }

  // At most `c` background reviews run at once, whatever the schedule and whatever is called directly.
  lemma BoundedConcurrency(env: Env, w: World, events: seq<Event>, c: nat)
    requires Start(w, c)
    ensures var v := Exec(env, w, events);
            v.permits + |Holders(v)| == c && |Holders(v)| <= c
  {
    StartKeepsPermits(w, c);
    PermitsAlways(env, w, events, c);
  }

  // A failing run gives its permit back and changes no other run and no review.
  lemma CrashIsIsolated(env: Env, w: World, i: nat)
    requires i < |w.tasks| && Running(w.tasks[i].pc)
    ensures var v := Step(env, w, Crash(i));
            && v.permits == w.permits + (if w.tasks[i].direct then 0 else 1) && v.tasks[i].pc == Crashed
            && v.reviews == w.reviews && v.head == w.head && |v.tasks| == |w.tasks|
            && (forall j :: 0 <= j < |w.tasks| && j != i ==> v.tasks[j] == w.tasks[j])
            && Holders(v) == Holders(w) - {i}
  {
  }

  // ----- each run publishes at most once, and only what it may -----

  ghost predicate PostedBy(w: World, i: nat, k: nat) {
    k < |w.reviews| && w.reviews[k].author.Bicho? && w.reviews[k].author.run == Some(i)
  }

  ghost predicate PostedNothing(w: World, i: nat) {
    forall k :: !PostedBy(w, i, k)
  }

  // The state of a run agrees with the reviews it has posted.
  ghost predicate Accounted(w: World, i: nat)
    requires i < |w.tasks|
  {
    var t := w.tasks[i];
    match t.pc
    case Ended(status, reviewId) =>
      && (reviewId.Some? <==> status == Completed)
      && (status == DryRun <==> t.options.dryRun)
      && (status == Completed ==> forall k :: PostedBy(w, i, k) <==> k == reviewId.value)
      && (status != Completed ==> PostedNothing(w, i))
    case Crashed => forall k, l :: PostedBy(w, i, k) && PostedBy(w, i, l) ==> k == l
    case _ => PostedNothing(w, i)
  }

  // A run past the guards is a live run, with a draft for the head it analyzed.
  ghost predicate Drafted(w: World, i: nat)
    requires i < |w.tasks|
  {
    var t := w.tasks[i];
    && (t.pc in {Guarding, CheckingHead, Publishing} ==> t.draft.Some? && t.draft.value.commitId == t.head)
    && (t.pc in {CheckingHead, Publishing} ==> !t.options.dryRun)
  }

  // A review of a run is that run's draft, for the head it analyzed, and the run was live.
  ghost predicate Genuine(w: World, i: nat, k: nat)
    requires k < |w.reviews|
  {
    var r := w.reviews[k];
    && i < |w.tasks| && !w.tasks[i].options.dryRun && w.tasks[i].draft.Some?
    && r.commitId == w.tasks[i].head == w.tasks[i].draft.value.commitId
    && r.body == w.tasks[i].draft.value.summary
    && r.author == Bicho(Some(i), w.tasks[i].options.force)
  }

  ghost predicate Ledger(w: World) {
    && (forall i :: 0 <= i < |w.tasks| ==> Accounted(w, i) && Drafted(w, i))
    && (forall i, k :: PostedBy(w, i, k) ==> Genuine(w, i, k))
  }

  // Another run's step leaves the account of run `i` alone.
  lemma AccountElsewhere(w: World, v: World, i: nat)
    requires i < |w.tasks| <= |v.tasks| && v.tasks[i] == w.tasks[i] && w.reviews <= v.reviews
    requires forall k :: |w.reviews| <= k < |v.reviews| ==>
      v.reviews[k].author.Other? || v.reviews[k].author.run != Some(i)
    requires Accounted(w, i) && Drafted(w, i)
    ensures Accounted(v, i) && Drafted(v, i)
    ensures forall k :: PostedBy(v, i, k) <==> PostedBy(w, i, k)
  {
    assert forall k :: PostedBy(v, i, k) <==> PostedBy(w, i, k);
  }

  // What a step appends to the reviews: nothing, a comment, or the draft of the run that moves.
  lemma StepPosts(env: Env, w: World, e: Event)
    ensures var v := Step(env, w, e);
            || v.reviews == w.reviews
            || (e.Comment? && v.reviews == w.reviews + [Review(|w.reviews|, Other(e.login), w.head, e.body)])
            || ((e.Publish? || e.LoseResponse?) && At(w, e.run, Publishing) && w.tasks[e.run].draft.Some?
                && v.reviews == w.reviews + [
                     Review(|w.reviews|, Bicho(Some(e.run), w.tasks[e.run].options.force),
                            w.tasks[e.run].draft.value.commitId, w.tasks[e.run].draft.value.summary)])
  {
    hide ComposeDraft, GuardDecision;
  }

  // The account of the run that posts.
  lemma AccountPosting(env: Env, w: World, e: Event)
    requires Ledger(w) && (e.Publish? || e.LoseResponse?) && At(w, e.run, Publishing)
    ensures var v := Step(env, w, e); |v.tasks| == |w.tasks| && Accounted(v, e.run) && Drafted(v, e.run)
  {
    var v, i := Step(env, w, e), e.run;
    StepPosts(env, w, e);
    assert Accounted(w, i) && Drafted(w, i);
    hide Ledger;
    assert v.reviews == w.reviews + [v.reviews[|w.reviews|]];
    forall k: nat ensures PostedBy(v, i, k) <==> k == |w.reviews| {
      assert k < |w.reviews| ==> v.reviews[k] == w.reviews[k] && !PostedBy(w, i, k);
    }
    hide PostedBy;
  }

  // How a run moves without posting.
  ghost predicate Moves(t: Task, u: Task) {
    || u == t
    || (u == t.(pc := u.pc) && ((u.pc == Crashed && Running(t.pc)) || (t.pc == Waiting && u.pc == Fetching)))
    || (u == t.(pc := u.pc, head := u.head) && t.pc == Fetching && u.pc == Composing)
    || (u == t.(pc := Guarding, draft := u.draft) && t.pc == Composing
        && u.draft.Some? && u.draft.value.commitId == t.head)
    || (u == t.(pc := CheckingHead) && t.pc == Guarding && !t.options.dryRun)
    || (u == t.(pc := Publishing) && t.pc == CheckingHead)
    || (u == t.(pc := Ended(DryRun, None)) && t.pc == Guarding && t.options.dryRun)
    || (u == t.(pc := Ended(Skipped, None)) && t.pc == Guarding && !t.options.dryRun)
    || (u == t.(pc := Ended(Stale, None)) && t.pc == CheckingHead)
    || (u == t.(pc := RunningElsewhere) && t.pc == WaitingElsewhere)
    || (u == t.(pc := EndedElsewhere) && t.pc == RunningElsewhere)
  }

  lemma StepMoves(env: Env, w: World, e: Event)
    requires OfRun(e) && e.run < |w.tasks|
    requires e.Publish? || e.LoseResponse? ==> !At(w, e.run, Publishing)
    ensures var v := Step(env, w, e);
            |v.tasks| == |w.tasks| && v.reviews == w.reviews && Moves(w.tasks[e.run], v.tasks[e.run])
  {
    hide SummaryLines, Render, EventFor, ConfirmedFindings, Map, Filter;
  }

  lemma MovesKeepDrafted(w: World, v: World, i: nat)
    requires i < |w.tasks| == |v.tasks| && Moves(w.tasks[i], v.tasks[i]) && Drafted(w, i)
    ensures Drafted(v, i)
  {
  }

  // A run that moves without posting has posted nothing, or stays where it is.
  lemma MovesKeepAccount(w: World, v: World, i: nat)
    requires i < |w.tasks| == |v.tasks| && Moves(w.tasks[i], v.tasks[i]) && Accounted(w, i) && Drafted(w, i)
    requires v.reviews == w.reviews
    ensures Accounted(v, i)
  {
    assert forall k: nat :: PostedBy(v, i, k) <==> PostedBy(w, i, k);
    hide PostedBy;
    var t, u := w.tasks[i], v.tasks[i];
    if u != t {
      assert PostedNothing(w, i) && PostedNothing(v, i);
      hide PostedNothing;
    }
  }

  // The account of a run that moves without posting.
  lemma AccountMoving(env: Env, w: World, e: Event)
    requires Ledger(w) && OfRun(e) && e.run < |w.tasks|
    requires e.Publish? || e.LoseResponse? ==> !At(w, e.run, Publishing)
    ensures var v := Step(env, w, e); |v.tasks| == |w.tasks| && Accounted(v, e.run) && Drafted(v, e.run)
  {
    var v, i := Step(env, w, e), e.run;
    StepMoves(env, w, e);
    assert Accounted(w, i) && Drafted(w, i);
    hide Ledger, Step, Moves, Accounted, Drafted;
    MovesKeepAccount(w, v, i);
    MovesKeepDrafted(w, v, i);
  }

  // The account of the run that moves.
  lemma AccountHere(env: Env, w: World, e: Event)
    requires Ledger(w) && OfRun(e) && e.run < |w.tasks|
    ensures var v := Step(env, w, e); |v.tasks| == |w.tasks| && Accounted(v, e.run) && Drafted(v, e.run)
  {
    hide Ledger, Step, Accounted, Drafted;
    if (e.Publish? || e.LoseResponse?) && At(w, e.run, Publishing) {
      AccountPosting(env, w, e);
    } else {
      AccountMoving(env, w, e);
    }
  }

  lemma GenuineStep(env: Env, w: World, e: Event, i: nat, k: nat)
    requires Ledger(w) && PostedBy(Step(env, w, e), i, k)
    ensures Genuine(Step(env, w, e), i, k)
  {
    var v := Step(env, w, e);
    StepShape(env, w, e);
    StepPosts(env, w, e);
    if k < |w.reviews| {
      assert PostedBy(w, i, k) && Genuine(w, i, k);
      assert Accounted(w, i);
      hide ComposeDraft, GuardDecision;
    } else {
      assert Drafted(w, i);
      hide ComposeDraft, GuardDecision;
    }
  }

  lemma StartPostsNothing(w: World, c: nat, i: nat)
    requires Start(w, c)
    ensures PostedNothing(w, i)
  {
    forall k: nat ensures !PostedBy(w, i, k) {
      assert k < |w.reviews| ==> w.reviews[k] in w.reviews;
    }
  }

  // A run that does not exist has posted nothing.
  lemma NeverPosted(w: World, i: nat)
    requires Ledger(w) && i >= |w.tasks|
    ensures PostedNothing(w, i)
  {
  }

  lemma LedgerStep(env: Env, w: World, e: Event)
    requires Ledger(w)
    ensures Ledger(Step(env, w, e))
  {
    var v := Step(env, w, e);
    StepShape(env, w, e);
    StepPosts(env, w, e);
    forall i: nat, k: nat | PostedBy(v, i, k) ensures Genuine(v, i, k) {
      GenuineStep(env, w, e, i, k);
    }
    forall i | 0 <= i < |v.tasks| ensures Accounted(v, i) && Drafted(v, i) {
      if i == |w.tasks| {
        assert v.reviews == w.reviews;
        NeverPosted(w, i);
        assert forall k: nat :: PostedBy(v, i, k) <==> PostedBy(w, i, k);
      } else if OfRun(e) && i == e.run {
        AccountHere(env, w, e);
      } else {
        assert Accounted(w, i) && Drafted(w, i);
        assert v.tasks[i] == w.tasks[i];
        AccountElsewhere(w, v, i);
      }
    }
  }

  lemma {:induction false} LedgerAlways(env: Env, w: World, events: seq<Event>)
    requires Ledger(w)
    ensures Ledger(Exec(env, w, events))
    decreases |events|
  {
    if events != [] {
      LedgerStep(env, w, events[0]);
      hide Step, Ledger;
      LedgerAlways(env, Step(env, w, events[0]), events[1..]);
    }
  }

  lemma StartLedger(w: World, c: nat)
    requires Start(w, c)
    ensures Ledger(w)
  {
    forall i: nat ensures PostedNothing(w, i) {
      StartPostsNothing(w, c, i);
    }
  }

  // In every interleaving a run posts at most one review, its own draft for the head it analyzed, and
  // none in a dry run; a run that ended has a review id exactly when it is Completed, and that is the
  // one review it posted.
  lemma RunContract(env: Env, w: World, events: seq<Event>, c: nat)
    requires Start(w, c)
    ensures var v := Exec(env, w, events);
            && (forall i :: 0 <= i < |v.tasks| ==> Accounted(v, i))
            && (forall i, k :: PostedBy(v, i, k) ==> Genuine(v, i, k))
            && (forall i, k, l :: PostedBy(v, i, k) && PostedBy(v, i, l) ==> k == l)
  {
    StartLedger(w, c);
    LedgerAlways(env, w, events);
    hide Exec;
    var v := Exec(env, w, events);
    forall i: nat, k: nat, l: nat | PostedBy(v, i, k) && PostedBy(v, i, l) ensures k == l {
      assert Genuine(v, i, k);
      assert Accounted(v, i);
    }
  }
}
