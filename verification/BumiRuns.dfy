/** What holds over whole runs of the pipeline. */
module BumiRuns {
  import opened Wrappers
  import opened BumiTypes
  import opened BumiSteps
  import opened BumiDelivery
  import opened BumiProgress
  import opened BumiGates
  import opened BumiSystem

  /** Barrier safety. Whatever was delivered, redelivered, retried or lost on the way,
      when a parent's wait step lets it through, every module of that phase has a
      stored result. */
  lemma BarrierSafety(c: Config, s: Sys, evs: seq<Event>, i: nat, e: Env, f: Folder)
    requires ValidConfig(c) && Init(c, s) && Legal(c, s, evs)
    requires CanDeliver(c, Reached(s, evs), i, e)
    requires Reached(s, evs).queue[i].body.job.None?
    requires BarrierFolder(Reached(s, evs).queue[i].body.state) == Some(f)
    requires DeliveryAt(Reached(s, evs), i, e).Next().Some?
    requires var s' := DeliveryAt(Reached(s, evs), i, e).Next().value.body.state;
             s' != Reached(s, evs).queue[i].body.state && s' != Error
    ensures Complete(c, Reached(s, evs).bucket, f)
  {
    hide Deliver, Init;
    InitInv(c, s);
    ReachedInv(c, s, evs);
    var now := Reached(s, evs);
    var d := DeliveryAt(now, i, e);
    assert MsgInv(c, now, now.queue[i]);
    NeverFuture(c, now, now.queue[i], e);
    NextMoves(d);
    TransitionCertifies(c, d, d.Next().value.body.state);
  }

  /** The barrier both ways. With reads that show what is stored, a parent's wait step lets
      it through exactly when a result of every module is stored and fits the page, the
      wait is in time, and its listing does not raise, nor the publication without a
      retry. */
  lemma BarrierExact(c: Config, s: Sys, evs: seq<Event>, i: nat, e: Env, f: Folder)
    requires ValidConfig(c) && Init(c, s) && Legal(c, s, evs) && CanDeliver(c, Reached(s, evs), i, e)
    requires var b := Reached(s, evs).queue[i].body; b.job.None? && BarrierFolder(b.state) == Some(f)
    requires Current(c, Reached(s, evs).bucket, e)
    ensures var now := Reached(s, evs);
            var b := now.queue[i].body;
            Took(DeliveryAt(now, i, e), b.state, PastBarrier(f)) <==>
              && Gathered(c, now.bucket, f) && b.waitTimeout.Some? && e.t0 - b.lastUpdate <= b.waitTimeout.value
              && e.faultAt >= 1 && (e.faultAt == 1 ==> Retried(b, e))
  {
    hide Deliver, Init, Apply, HasHistory, Faithful;
    InitInv(c, s);
    ReachedInv(c, s, evs);
    var now := Reached(s, evs);
    assert MsgInv(c, now, now.queue[i]);
    WaitGateExact(DeliveryAt(now, i, e), f);
    CountIsGathered(c, now.queue[i].body, now.bucket, e, f);
    hide FolderListing, Current, Gathered, EnvOk, Took;
  }

  /** And it stays so: a parent beyond a barrier never meets a bucket that lacks one
      of that phase's results. */
  lemma ResultsStay(c: Config, s: Sys, evs: seq<Event>, m: Msg, f: Folder)
    requires ValidConfig(c) && Init(c, s) && Legal(c, s, evs)
    requires m in Reached(s, evs).queue && m.body.job.None? && f in Behind(m.body.state) && !Shortcut(c, m.body.state)
    ensures Complete(c, Reached(s, evs).bucket, f)
  {
    hide MsgInv;
    InitInv(c, s);
    ReachedInv(c, s, evs);
    assert MsgInv(c, Reached(s, evs), m);
    MessageBarriers(c, Reached(s, evs), m);
  }

  /** Gate safety. Whatever happened before, a parent that leaves a gate whose reads were
      current leaves for every module of the phase a stored result that is no timeout, or
      for the archive no error unless a call of the step raised and the retry goes on. */
  lemma GateSafety(c: Config, s: Sys, evs: seq<Event>, i: nat, e: Env)
    requires ValidConfig(c) && Init(c, s) && Legal(c, s, evs) && CanDeliver(c, Reached(s, evs), i, e)
    requires var b := Reached(s, evs).queue[i].body;
             b.job.None? && (b.state == WaitedChecklist || b.state == WaitedArchive)
    requires Current(c, Reached(s, evs).bucket, e)
    ensures var now, d := Reached(s, evs), DeliveryAt(Reached(s, evs), i, e);
            && (Took(d, WaitedChecklist, CollectedCheckResult) <==>
                  && d.body.state == WaitedChecklist && NoStoredTimeout(c, now.bucket) && !TaskLate(d.body, e)
                  && e.faultAt >= CollectCalls(d.body, e) && (e.faultAt == CollectCalls(d.body, e) ==> Retried(d.body, e)))
            && (Took(d, WaitedArchive, CheckedArchiveResult) <==>
                  && d.body.state == WaitedArchive && !TaskLate(d.body, e)
                  && (ArchiveReadRaised(d.body, e) || (NoStoredError(c, now.bucket) && e.faultAt > |c.modules(Archive)| + 1)))
  {
    hide Deliver, Init, Faithful, MsgInv, Inv, Legal;
    InitInv(c, s);
    ReachedInv(c, s, evs);
    GateIsExact(c, Reached(s, evs), i, e);
  }

  lemma GateIsExact(c: Config, s: Sys, i: nat, e: Env)
    requires ValidConfig(c) && Inv(c, s) && CanDeliver(c, s, i, e) && Current(c, s.bucket, e)
    requires s.queue[i].body.job.None? && (s.queue[i].body.state == WaitedChecklist || s.queue[i].body.state == WaitedArchive)
    ensures var d := DeliveryAt(s, i, e);
            && (Took(d, WaitedChecklist, CollectedCheckResult) <==>
                  && d.body.state == WaitedChecklist && NoStoredTimeout(c, s.bucket) && !TaskLate(d.body, e)
                  && e.faultAt >= CollectCalls(d.body, e) && (e.faultAt == CollectCalls(d.body, e) ==> Retried(d.body, e)))
            && (Took(d, WaitedArchive, CheckedArchiveResult) <==>
                  && d.body.state == WaitedArchive && !TaskLate(d.body, e)
                  && (ArchiveReadRaised(d.body, e) || (NoStoredError(c, s.bucket) && e.faultAt > |c.modules(Archive)| + 1)))
  {
    hide Deliver, Faithful, HasHistory, Current, NoStoredError, NoStoredTimeout, EnvOk, TaskLate;
    var d := DeliveryAt(s, i, e);
    assert MsgInv(c, s, s.queue[i]);
    MessageBarriers(c, s, s.queue[i]);
    StoredOutcomes(c, d.body, s.bucket, e);
    if d.body.state == WaitedChecklist {
      assert Recommendations in Behind(d.body.state);
      CollectGateExact(d);
    } else {
      assert Archive in Behind(d.body.state);
      ArchiveGateExact(d);
      CountIsGathered(c, d.body, s.bucket, e, Archive);
      CleanMeansNoneBad(d.body, e);
    }
  }

  lemma CleanMeansNoneBad(b: Body, e: Env)
    ensures var keys := FolderListing(b, e, Archive);
            ArchiveClean(b, e) <==> FirstBad(e, keys) == |keys|
  {
  }

  /** A parent found at the end of the pipeline went through all nine stages, each
      certified and each gate examined, and the checklist is completed. */
  lemma FinishedPipelines(c: Config, s: Sys, evs: seq<Event>, m: Msg) returns (ds: seq<Delivery>, at: seq<nat>)
    requires ValidConfig(c) && Init(c, s) && Legal(c, s, evs) && c.modules(Recommendations) != []
    requires m in Reached(s, evs).queue && m.body.job.None? && m.body.state == UpdatedChecklist
    ensures Reached(s, evs).lastCompleted == Some(c.createdAt)
    ensures History(c, ds) && End(ds) == m.body && TakesStages(States(ds), at, 9)
    ensures forall i :: 0 <= i < 9 ==>
              at[i] < |ds| && Certified(c, ds[at[i]], STAGES[i], STAGES[i+1]) && Examined(c, ds[at[i]], STAGES[i], STAGES[i+1])
  {
    hide Faithful, Sound, Init, Apply, Certified, Examined, History;
    InitInv(c, s);
    ReachedInv(c, s, evs);
    assert MsgInv(c, Reached(s, evs), m);
    ds :| Outcome(c, ds, m, Reached(s, evs).bucket);
    EndsWithNext(c, ds);
    at := PipelineWasPassed(c, ds);
  }

  lemma EndsWithNext(c: Config, ds: seq<Delivery>)
    requires History(c, ds)
    ensures ds != [] && ds[|ds| - 1].Next().Some?
  {
  }

  // --- message conservation -----------------------------------------------------------

  predicate CrashFree(evs: seq<Event>) {
    forall i :: 0 <= i < |evs| ==> !evs[i].Crashed?
  }

  predicate HandlersWork(evs: seq<Event>) {
    forall i :: 0 <= i < |evs| && evs[i].Delivered? ==> !evs[i].env.handlerFault
  }

  function Parents(s: Sys): seq<Msg> { For(None, s.queue) }

  lemma TakeOut(job: Option<Job>, queue: seq<Msg>, i: nat)
    requires i < |queue|
    ensures |For(job, queue)| == |For(job, queue[..i] + queue[i+1..])| + (if queue[i].body.job == job then 1 else 0)
  {
    assert queue == queue[..i] + ([queue[i]] + queue[i+1..]);
    ForConcat(job, queue[..i], [queue[i]] + queue[i+1..]);
    ForConcat(job, [queue[i]], queue[i+1..]);
    ForConcat(job, queue[..i], queue[i+1..]);
  }

  /** How the number of live parent messages changes with a delivery. */
  lemma DeliveryConserves(c: Config, s: Sys, i: nat, e: Env)
    requires CanDeliver(c, s, i, e)
    ensures var s' := Apply(s, Delivered(i, e));
            |Parents(s')| + |s'.ended| == |Parents(s)| + |s.ended|
  {
    hide Deliver, Raised;
    var d := DeliveryAt(s, i, e);
    TakeOut(None, s.queue, i);
    ForConcat(None, s.queue[..i] + s.queue[i+1..], d.after.sent);
    if d.body.job.None? {
      OneContinuation(d.body, d.bucket, d.lastCompleted, e);
    } else {
      ForSelects(None, d.after.sent);
      if For(None, d.after.sent) != [] { ChildPublishesItself(d, For(None, d.after.sent)[0]); }
    }
  }

  /** Message conservation. In a run without crashes there is, until the parent ends,
      exactly one live parent message. */
  lemma {:induction false} OneLiveParent(c: Config, s: Sys, evs: seq<Event>)
    requires Legal(c, s, evs) && CrashFree(evs) && |Parents(s)| + |s.ended| == 1
    ensures |Parents(Reached(s, evs))| + |Reached(s, evs).ended| == 1
    decreases |evs|
  {
    hide Apply, EnvOk;
    if evs != [] {
      if evs[0].Delivered? {
        DeliveryConserves(c, s, evs[0].i, evs[0].env);
      } else {
        OthersConserve(s, evs[0]);
      }
      OneLiveParent(c, Apply(s, evs[0]), evs[1..]);
    }
  }

  lemma OthersConserve(s: Sys, ev: Event)
    requires ev.Others?
    ensures Apply(s, ev).queue == s.queue && Apply(s, ev).ended == s.ended
  {
  }

  lemma InitHasOneParent(c: Config, s: Sys)
    requires Init(c, s)
    ensures |Parents(s)| + |s.ended| == 1
  {
    assert For(None, s.queue) == [s.queue[0]] + For(None, s.queue[1..]);
  }

  predicate EndedWell(x: Ending) {
    x.body.state == UpdatedChecklist || x.body.state == Error
  }

  lemma EndsWell(c: Config, s: Sys, i: nat, e: Env)
    requires Inv(c, s) && CanDeliver(c, s, i, e) && !e.handlerFault
    ensures var d := DeliveryAt(s, i, e);
            d.body.job.None? && d.Next().None? ==> EndedWell(Ending(d.body, Raised(d.body, d.bucket, d.lastCompleted, e)))
  {
    hide Deliver, Raised;
    var d := DeliveryAt(s, i, e);
    assert MsgInv(c, s, s.queue[i]);
    OneContinuation(d.body, d.bucket, d.lastCompleted, e);
  }

  /** As long as the error handlers can publish, a parent only ends in one of its two
      terminal states; and in any run, one that ends without raising has completed
      the checklist. */
  lemma {:induction false} ParentsEndWell(c: Config, s: Sys, evs: seq<Event>)
    requires ValidConfig(c) && Inv(c, s) && Legal(c, s, evs)
    ensures forall x :: x in Reached(s, evs).ended && !x.raised && StepOf(x.body).Some? ==>
                          Reached(s, evs).lastCompleted == Some(c.createdAt)
    ensures HandlersWork(evs) && (forall x :: x in s.ended ==> EndedWell(x)) ==>
              forall x :: x in Reached(s, evs).ended ==> EndedWell(x)
    decreases |evs|
  {
    ReachedInv(c, s, evs);
    if evs != [] {
      EventKeepsInv(c, s, evs[0]);
      var s' := Apply(s, evs[0]);
      if HandlersWork(evs) && (forall x :: x in s.ended ==> EndedWell(x)) {
        if evs[0].Delivered? { EndsWell(c, s, evs[0].i, evs[0].env); }
        assert forall x :: x in s'.ended ==> EndedWell(x);
      }
      ParentsEndWell(c, s', evs[1..]);
    }
  }

  // --- termination ------------------------------------------------------------------------

  function Later(a: int, b: int): int { if a < b then b else a }

  /** What the parent may still cost: its budget from its next possible delivery on. */
  function Potential(s: Sys): nat {
    if Parents(s) == [] then 0
    else Budget(Parents(s)[0].body, Later(s.clock, Parents(s)[0].notBefore)) + 1
  }

  function ParentDeliveries(s: Sys, evs: seq<Event>): nat
    decreases |evs|
  {
    if evs == [] then 0
    else if !evs[0].Others? && evs[0].i >= |s.queue| then 0
    else (if evs[0].Delivered? && s.queue[evs[0].i].body.job.None? then 1 else 0)
         + ParentDeliveries(Apply(s, evs[0]), evs[1..])
  }

  lemma BudgetShrinks(b: Body, now: int, later: int)
    requires now <= later
    ensures Budget(b, later) <= Budget(b, now)
  {
  }

  /** With one parent in the queue, its delivery leaves its continuation as the only one. */
  lemma OnlyParent(queue: seq<Msg>, i: nat, sent: seq<Msg>)
    requires i < |queue| && queue[i].body.job.None? && |For(None, queue)| == 1
    ensures For(None, queue) == [queue[i]]
    ensures For(None, queue[..i] + queue[i+1..] + sent) == For(None, sent)
  {
    TakeOut(None, queue, i);
    ForConcat(None, queue[..i] + queue[i+1..], sent);
    ForSelects(None, queue);
  }

  /** The continuation of a parent's delivery has a smaller budget left than the message
      delivered had at its first chance. */
  lemma NextPays(c: Config, s: Sys, i: nat, e: Env)
    requires Inv(c, s) && CanDeliver(c, s, i, e) && s.queue[i].body.job.None? && DeliveryAt(s, i, e).Next().Some?
    ensures var m, m' := s.queue[i], DeliveryAt(s, i, e).Next().value;
            Budget(m'.body, Later(e.t2, m'.notBefore)) < Budget(m.body, Later(s.clock, m.notBefore))
  {
    hide Deliver, Budget, HasHistory;
    var d, m := DeliveryAt(s, i, e), s.queue[i];
    var m' := d.Next().value;
    assert MsgInv(c, s, m);
    NeverFuture(c, s, m, e);
    MeasureDecreases(d, Later(e.t2, m'.notBefore));
    BudgetDecreases(d.body, e.t0, m'.body, Later(e.t2, m'.notBefore));
    BudgetShrinks(m.body, Later(s.clock, m.notBefore), e.t0);
  }

  lemma ParentPays(c: Config, s: Sys, i: nat, e: Env)
    requires ValidConfig(c) && Inv(c, s) && CanDeliver(c, s, i, e)
    requires s.queue[i].body.job.None? && |Parents(s)| == 1
    ensures Potential(Apply(s, Delivered(i, e))) < Potential(s) && |Parents(Apply(s, Delivered(i, e)))| <= 1
  {
    hide Deliver, Raised, Budget, Inv, Later, EnvOk;
    var d, s' := DeliveryAt(s, i, e), Apply(s, Delivered(i, e));
    OnlyParent(s.queue, i, d.after.sent);
    OneContinuation(d.body, d.bucket, d.lastCompleted, e);
    if d.Next().Some? {
      NextPays(c, s, i, e);
      assert Parents(s') == [d.Next().value];
    }
  }

  lemma QueueWithout(queue: seq<Msg>, i: nat, sent: seq<Msg>)
    requires i < |queue| && queue[i].body.job.Some?
    ensures For(None, queue[..i] + queue[i+1..] + sent) == For(None, queue) + For(None, sent)
  {
    ForConcat(None, queue[..i] + queue[i+1..], sent);
    ForConcat(None, queue[..i], queue[i+1..]);
    ForConcat(None, queue[..i], [queue[i]] + queue[i+1..]);
    ForConcat(None, [queue[i]], queue[i+1..]);
    assert queue == queue[..i] + ([queue[i]] + queue[i+1..]);
  }

  lemma ChildrenAreFree(c: Config, s: Sys, i: nat, e: Env)
    requires CanDeliver(c, s, i, e) && s.queue[i].body.job.Some?
    ensures Parents(Apply(s, Delivered(i, e))) == Parents(s) && Potential(Apply(s, Delivered(i, e))) <= Potential(s)
  {
    hide Deliver, Raised, Budget;
    var d := DeliveryAt(s, i, e);
    QueueWithout(s.queue, i, d.after.sent);
    if For(None, d.after.sent) != [] {
      ForSelects(None, d.after.sent);
      ChildPublishesItself(d, For(None, d.after.sent)[0]);
    }
    if Parents(s) != [] {
      var m := Parents(s)[0];
      BudgetShrinks(m.body, Later(s.clock, m.notBefore), Later(e.t2, m.notBefore));
    }
  }

  /** Termination over runs: without crashes, however calls fail and children
      interleave, the parent is delivered at most Potential times. */
  lemma {:induction false} ParentDeliveriesAreBounded(c: Config, s: Sys, evs: seq<Event>)
    requires ValidConfig(c) && Inv(c, s) && Legal(c, s, evs) && CrashFree(evs) && |Parents(s)| <= 1
    ensures ParentDeliveries(s, evs) <= Potential(s)
    decreases |evs|
  {
    hide Deliver, Apply, Inv, Budget;
    if evs != [] {
      var ev := evs[0];
      EventKeepsInv(c, s, ev);
      if ev.Others? {
        OthersConserve(s, ev);
        OthersKeepClock(s, ev);
      } else if s.queue[ev.i].body.job.None? {
        TakeOut(None, s.queue, ev.i);
        ParentPays(c, s, ev.i, ev.env);
      } else {
        ChildrenAreFree(c, s, ev.i, ev.env);
      }
      ParentDeliveriesAreBounded(c, Apply(s, ev), evs[1..]);
    }
  }

  lemma OthersKeepClock(s: Sys, ev: Event)
    requires ev.Others?
    ensures Apply(s, ev).clock == s.clock
  {
  }
}
