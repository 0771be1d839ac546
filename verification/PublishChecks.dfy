/** What has happened before a review is posted, in every interleaving. */
module PublishChecks {
  import opened Compose
  import opened Publishing
  import opened Runs
  import opened RunLaws

  // At step `g` run `i`, live and on `head`, passed the guard: it was forced, or no listed review named it.
  ghost predicate PassedAt(env: Env, w: World, events: seq<Event>, i: nat, head: string, g: nat) {
    && g < |events| && events[g] == Guard(i)
    && var u := Exec(env, w, events[..g]);
       && At(u, i, Guarding) && u.tasks[i].head == head && !u.tasks[i].options.dryRun
       && (u.tasks[i].options.force || !Named(env, u.reviews, head))
  }

  // At step `h` run `i` found the pull request still on `head`.
  ghost predicate CheckedAt(env: Env, w: World, events: seq<Event>, i: nat, head: string, h: nat) {
    && h < |events| && events[h] == CheckHead(i)
    && var u := Exec(env, w, events[..h]);
       At(u, i, CheckingHead) && u.head == head
  }

  ghost predicate Passed(env: Env, w: World, events: seq<Event>, i: nat, head: string) {
    exists g: nat :: PassedAt(env, w, events, i, head, g)
  }

  // First the guard, then the head.
  ghost predicate Approved(env: Env, w: World, events: seq<Event>, i: nat, head: string) {
    exists g: nat, h: nat :: g < h && PassedAt(env, w, events, i, head, g) && CheckedAt(env, w, events, i, head, h)
  }

  lemma AtExtends(env: Env, w: World, events: seq<Event>, e: Event, i: nat, head: string, k: nat)
    ensures PassedAt(env, w, events, i, head, k) ==> PassedAt(env, w, events + [e], i, head, k)
    ensures CheckedAt(env, w, events, i, head, k) ==> CheckedAt(env, w, events + [e], i, head, k)
  {
    if k < |events| {
      assert (events + [e])[k] == events[k] && (events + [e])[..k] == events[..k];
    }
    hide Exec, Reviews;
  }

  lemma PassedExtends(env: Env, w: World, events: seq<Event>, e: Event, i: nat, head: string)
    requires Passed(env, w, events, i, head)
    ensures Passed(env, w, events + [e], i, head)
  {
    hide PassedAt;
    var g: nat :| PassedAt(env, w, events, i, head, g);
    AtExtends(env, w, events, e, i, head, g);
  }

  lemma ApprovedExtends(env: Env, w: World, events: seq<Event>, e: Event, i: nat, head: string)
    requires Approved(env, w, events, i, head)
    ensures Approved(env, w, events + [e], i, head)
  {
    hide PassedAt, CheckedAt;
    var g: nat, h: nat :| g < h && PassedAt(env, w, events, i, head, g) && CheckedAt(env, w, events, i, head, h);
    AtExtends(env, w, events, e, i, head, g);
    AtExtends(env, w, events, e, i, head, h);
  }

  // A run past the guard, and past the head check, has got there by its own steps, and whoever has
  // posted a review has taken both for the head of that review.
  ghost predicate ChecksFirst(env: Env, w: World, events: seq<Event>) {
    var v := Exec(env, w, events);
    && (forall i :: 0 <= i < |v.tasks| && v.tasks[i].pc == CheckingHead ==> Passed(env, w, events, i, v.tasks[i].head))
    && (forall i :: 0 <= i < |v.tasks| && v.tasks[i].pc == Publishing ==> Approved(env, w, events, i, v.tasks[i].head))
    && (forall i: nat, k: nat :: PostedBy(v, i, k) ==> Approved(env, w, events, i, v.reviews[k].commitId))
  }

  // A run keeps its head from the guard on.
  lemma StaysPast(env: Env, w: World, e: Event, i: nat, pc: Pc)
    requires pc == CheckingHead || pc == Publishing
    requires At(w, i, pc) && At(Step(env, w, e), i, pc)
    ensures Step(env, w, e).tasks[i].head == w.tasks[i].head
  {
    hide ComposeDraft, GuardDecision;
  }

  lemma ReachesCheckingHead(env: Env, w: World, e: Event, i: nat)
    requires !At(w, i, CheckingHead) && At(Step(env, w, e), i, CheckingHead)
    ensures e == Guard(i) && At(w, i, Guarding) && Step(env, w, e).tasks[i].head == w.tasks[i].head
    ensures GuardDecision(env, w.tasks[i].options, w.tasks[i].head, w.reviews).None?
  {
    hide ComposeDraft, GuardDecision;
  }

  lemma ReachesPublishing(env: Env, w: World, e: Event, i: nat)
    requires !At(w, i, Publishing) && At(Step(env, w, e), i, Publishing)
    ensures e == CheckHead(i) && At(w, i, CheckingHead)
    ensures w.head == Step(env, w, e).tasks[i].head == w.tasks[i].head
  {
    hide ComposeDraft, GuardDecision;
  }

  lemma PassesNow(env: Env, w: World, front: seq<Event>, e: Event, i: nat)
    requires var mid := Exec(env, w, front); !At(mid, i, CheckingHead) && At(Step(env, mid, e), i, CheckingHead)
    ensures Passed(env, w, front + [e], i, Step(env, Exec(env, w, front), e).tasks[i].head)
  {
    var mid := Exec(env, w, front);
    ReachesCheckingHead(env, mid, e, i);
    var events := front + [e];
    assert events[|front|] == e && events[..|front|] == front;
    hide Exec, Step, Reviews;
    assert PassedAt(env, w, events, i, mid.tasks[i].head, |front|);
  }

  lemma ApprovedNow(env: Env, w: World, front: seq<Event>, e: Event, i: nat)
    requires ChecksFirst(env, w, front)
    requires var mid := Exec(env, w, front); !At(mid, i, Publishing) && At(Step(env, mid, e), i, Publishing)
    ensures Approved(env, w, front + [e], i, Step(env, Exec(env, w, front), e).tasks[i].head)
  {
    var mid := Exec(env, w, front);
    ReachesPublishing(env, mid, e, i);
    var events, head := front + [e], mid.tasks[i].head;
    assert Passed(env, w, front, i, head);
    hide Exec, Step, ChecksFirst, PassedAt;
    var g: nat :| PassedAt(env, w, front, i, head, g);
    assert g < |front| by { PassedWithin(env, w, front, i, head, g); }
    AtExtends(env, w, front, e, i, head, g);
    assert events[|front|] == e && events[..|front|] == front;
    assert CheckedAt(env, w, events, i, head, |front|);
  }

  lemma PassedWithin(env: Env, w: World, events: seq<Event>, i: nat, head: string, g: nat)
    requires PassedAt(env, w, events, i, head, g)
    ensures g < |events|
  {
    hide Exec, Reviews;
  }

  lemma ChecksStep(env: Env, w: World, front: seq<Event>, e: Event)
    requires ChecksFirst(env, w, front) && Ledger(Exec(env, w, front))
    requires Exec(env, w, front + [e]) == Step(env, Exec(env, w, front), e)
    ensures ChecksFirst(env, w, front + [e])
  {
    var mid, v, events := Exec(env, w, front), Exec(env, w, front + [e]), front + [e];
    StepPosts(env, mid, e);
    hide Exec, Step, Passed, Approved;
    forall i | 0 <= i < |v.tasks| && v.tasks[i].pc == CheckingHead ensures Passed(env, w, events, i, v.tasks[i].head) {
      if At(mid, i, CheckingHead) {
        StaysPast(env, mid, e, i, CheckingHead);
        PassedExtends(env, w, front, e, i, mid.tasks[i].head);
      } else {
        PassesNow(env, w, front, e, i);
      }
    }
    forall i | 0 <= i < |v.tasks| && v.tasks[i].pc == Publishing ensures Approved(env, w, events, i, v.tasks[i].head) {
      if At(mid, i, Publishing) {
        StaysPast(env, mid, e, i, Publishing);
        ApprovedExtends(env, w, front, e, i, mid.tasks[i].head);
      } else {
        ApprovedNow(env, w, front, e, i);
      }
    }
    forall i: nat, k: nat | PostedBy(v, i, k) ensures Approved(env, w, events, i, v.reviews[k].commitId) {
      if k < |mid.reviews| {
        assert PostedBy(mid, i, k);
        ApprovedExtends(env, w, front, e, i, mid.reviews[k].commitId);
      } else {
        assert Drafted(mid, i);
        ApprovedExtends(env, w, front, e, i, mid.tasks[i].head);
      }
    }
  }

  lemma NothingChecked(env: Env, w: World, c: nat)
    requires Start(w, c)
    ensures ChecksFirst(env, w, [])
  {
    forall i: nat ensures PostedNothing(w, i) {
      StartPostsNothing(w, c, i);
    }
    assert Exec(env, w, []) == w;
  }

  // In every interleaving, whoever posts a review has first passed the guard, forced or while no review
  // named the head, and then found the pull request still on the head of the review.
  lemma {:induction false} PublishesChecked(env: Env, w: World, events: seq<Event>, c: nat)
    requires Start(w, c)
    ensures ChecksFirst(env, w, events)
    decreases |events|
  {
    if events == [] {
      NothingChecked(env, w, c);
    } else {
      var n := |events| - 1;
      var front, e := events[..n], events[n];
      PublishesChecked(env, w, front, c);
      StartLedger(w, c);
      LedgerAlways(env, w, front);
      ExecSnoc(env, w, events);
      assert events == front + [e];
      hide Exec, Step, Ledger, ChecksFirst;
      ChecksStep(env, w, front, e);
    }
  }
}
