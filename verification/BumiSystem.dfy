/** The pipeline as a system: one run's parent and child messages in the queue, the
    shared bucket and the checklist, under any order of deliveries, crashes between a
    delivery's effects and its ack, and activity of other organizations and runs. */
module BumiSystem {
  import opened Wrappers
  import opened BumiTypes
  import opened BumiSteps
  import opened BumiDelivery
  import opened BumiProgress
  import opened BumiGates

  /** A parent delivery that published no continuation. */
  datatype Ending = Ending(body: Body, raised: bool)

  datatype Sys = Sys(queue: seq<Msg>, bucket: Bucket, lastCompleted: Option<int>, clock: int, ended: seq<Ending>)

  /** A delivery that runs to its ack; one that dies before it, with or without having
      run the error handler, so that the message is delivered again; a change of
      objects that belong to other runs. */
  datatype Event =
    | Delivered(i: nat, env: Env)
    | Crashed(i: nat, env: Env, handled: bool)
    | Others(bucket: Bucket)

  ghost predicate Possible(c: Config, s: Sys, ev: Event) {
    match ev
    case Delivered(i, e) => CanDeliver(c, s, i, e)
    case Crashed(i, e, _) => CanDeliver(c, s, i, e)
    case Others(bucket) =>
      forall k :: Own(c, k) ==> (k in bucket <==> k in s.bucket) && (k in bucket ==> bucket[k] == s.bucket[k])
  }

  ghost predicate CanDeliver(c: Config, s: Sys, i: nat, e: Env) {
    && i < |s.queue|
    && s.queue[i].notBefore <= e.t0 && s.clock <= e.t0
    && EnvOk(c, s.queue[i].body, s.bucket, e)
  }

  function DeliveryAt(s: Sys, i: nat, e: Env): (d: Delivery)
    requires i < |s.queue|
    ensures Faithful(d)
  {
    var b := s.queue[i].body;
    Delivery(b, s.bucket, s.lastCompleted, e, Deliver(b, s.bucket, s.lastCompleted, e))
  }

  /** The effects of a delivery that died before its error handler. */
  function Partial(d: Delivery): St {
    var st := Fresh(d.body, d.bucket, d.lastCompleted);
    match StepOf(d.body)
    case None => st
    case Some(step) => Attempt(step, st, d.env).st
  }

  function Apply(s: Sys, ev: Event): Sys
    requires ev.Others? || ev.i < |s.queue|
  {
    match ev
    case Delivered(i, e) =>
      var d := DeliveryAt(s, i, e);
      var st := d.after;
      Sys(s.queue[..i] + s.queue[i+1..] + st.sent, st.bucket, st.lastCompleted, e.t2,
          if d.body.job.None? && d.Next().None?
          then s.ended + [Ending(d.body, Raised(d.body, d.bucket, d.lastCompleted, e))] else s.ended)
    case Crashed(i, e, handled) =>
      var d := DeliveryAt(s, i, e);
      var st := if handled then d.after else Partial(d);
      Sys(s.queue + st.sent, st.bucket, st.lastCompleted, e.t2, s.ended)
    case Others(bucket) => s.(bucket := bucket)
  }

  /** The run has just been scheduled: one parent message, nothing stored yet. */
  ghost predicate Init(c: Config, s: Sys) {
    && |s.queue| == 1 && s.ended == []
    && BodyOk(c, s.queue[0].body) && s.queue[0].body.job.None? && s.queue[0].body.state == Created
    && s.queue[0].body.lastUpdate <= s.clock
    && forall k :: k in s.bucket ==> !Own(c, k)
  }

  ghost predicate Legal(c: Config, s: Sys, evs: seq<Event>)
    decreases |evs|
  {
    evs == [] || (Possible(c, s, evs[0]) && Legal(c, Apply(s, evs[0]), evs[1..]))
  }

  function Reached(s: Sys, evs: seq<Event>): Sys
    decreases |evs|
  {
    if evs == [] then s
    else if evs[0].Others? || evs[0].i < |s.queue| then Reached(Apply(s, evs[0]), evs[1..])
    else s
  }

  // --- the invariant ------------------------------------------------------------------

  predicate ChecklistHolds(c: Config, b: Body, lastCompleted: Option<int>) {
    b.job.None? && b.state == UpdatedChecklist ==> lastCompleted == Some(c.createdAt)
  }

  /** A sound history that ends with this message and whose results are still stored. */
  ghost predicate Outcome(c: Config, ds: seq<Delivery>, m: Msg, bucket: Bucket) {
    History(c, ds) && ds[|ds| - 1].Next() == Some(m) && Grows(c, ds[|ds| - 1].after.bucket, bucket)
  }

  /** Every parent message is the scheduled one or the outcome of a sound history. */
  ghost predicate HasHistory(c: Config, m: Msg, bucket: Bucket, clock: int) {
    m.body.job.None? ==>
      || (m.body.state == Created && m.body.lastUpdate <= clock)
      || exists ds: seq<Delivery> :: Outcome(c, ds, m, bucket)
  }

  ghost predicate MsgInv(c: Config, s: Sys, m: Msg) {
    && BodyOk(c, m.body)
    && ChecklistHolds(c, m.body, s.lastCompleted)
    && HasHistory(c, m, s.bucket, s.clock)
  }

  ghost predicate Inv(c: Config, s: Sys) {
    && BucketOk(c, s.bucket)
    && (forall m :: m in s.queue ==> MsgInv(c, s, m))
    && (forall x :: x in s.ended && !x.raised && StepOf(x.body).Some? ==> s.lastCompleted == Some(c.createdAt))
  }

  lemma InitInv(c: Config, s: Sys)
    requires Init(c, s)
    ensures Inv(c, s)
  {
  }

  // --- one delivery ---------------------------------------------------------------------

  predicate ChecklistStep(b: Body, before: Option<int>, after: Option<int>) {
    after == before || (b.job.None? && after == Some(b.createdAt))
  }

  lemma FanOutChecklist(st: St, e: Env, f: Folder, names: seq<string>, target: State)
    ensures FanOut(st, e, f, names, target).st.lastCompleted == st.lastCompleted
  {
    CreateChildrenSends(st, e, f, names);
  }

  lemma ReadsChecklist(st: St, e: Env)
    ensures DoCollect(st, e).st.lastCompleted == st.lastCompleted
    ensures DoCheckArchive(st, e).st.lastCompleted == st.lastCompleted
  {
    var called := Call(st, e);
    if called.Ok? {
      ReadAllKeeps(called.st, e, FolderListing(st.body, e, Recommendations));
      InspectKeeps(MoveTo(called.st, CheckedArchiveResult), e, FolderListing(st.body, e, Archive));
    }
  }

  lemma ExecuteChecklist(st: St, e: Env, step: Step)
    requires StepOf(st.body) == Some(step)
    ensures ChecklistStep(st.body, st.lastCompleted, Execute(step, st, e).st.lastCompleted)
  {
    var called := Call(st, e);
    match step {
      case InitializeChecklist =>
        if called.Ok? {
          FanOutChecklist(called.st, e, Recommendations, Enabled(e.installed(Recommendations), e.disabled), InitializedChecklist);
        }
      case InitializeArchive =>
        if called.Ok? { FanOutChecklist(called.st, e, Archive, Enabled(e.installed(Archive), e.disabled), InitializedArchive); }
      case InitializeService =>
        if called.Ok? { FanOutChecklist(called.st, e, Service, Enabled(e.installed(Service), e.disabled), InitializedService); }
      case CollectCheckResult => ReadsChecklist(st, e);
      case CheckArchiveResult => ReadsChecklist(st, e);
      case _ =>
    }
  }

  /** Only a parent completes the checklist, and only with its own timestamp. */
  lemma ChildNeverCompletes(d: Delivery)
    requires Faithful(d)
    ensures ChecklistStep(d.body, d.lastCompleted, d.after.lastCompleted)
    ensures ChecklistStep(d.body, d.lastCompleted, Partial(d).lastCompleted)
  {
    if StepOf(d.body).Some? {
      ExecuteChecklist(Fresh(d.body, d.bucket, d.lastCompleted), d.env, StepOf(d.body).value);
    }
  }

  /** A parent's failing step that does not raise has completed the checklist. */
  lemma FailingCompletes(d: Delivery)
    requires Faithful(d) && d.body.job.None? && d.body.state == Error
    ensures !Raised(d.body, d.bucket, d.lastCompleted, d.env) ==> d.after.lastCompleted == Some(d.body.createdAt)
  {
  }

  /** What a delivery of this run leaves behind, whether or not it got to its handler. */
  lemma PartialKeeps(c: Config, d: Delivery)
    requires BodyOk(c, d.body) && BucketOk(c, d.bucket) && EnvOk(c, d.body, d.bucket, d.env)
    ensures StOk(c, Partial(d)) && Grows(c, d.bucket, Partial(d).bucket)
  {
    if StepOf(d.body).Some? {
      AttemptKeeps(c, Fresh(d.body, d.bucket, d.lastCompleted), d.env, StepOf(d.body).value, d.bucket);
    }
  }

  lemma OnlyOneFor(job: Option<Job>, sent: seq<Msg>, m: Msg)
    requires |For(job, sent)| <= 1 && m in sent && m.body.job == job
    ensures For(job, sent) == [m]
  {
    ForSelects(job, sent);
  }

  lemma AfterPublishes(d: Delivery, m: Msg)
    requires Faithful(d) && m in d.after.sent && m.body.job == d.body.job
    ensures d.Next() == Some(m)
  {
    OneContinuation(d.body, d.bucket, d.lastCompleted, d.env);
    OnlyOneFor(d.body.job, d.after.sent, m);
  }

  lemma PartialPublishes(d: Delivery, m: Msg)
    requires Faithful(d) && m in Partial(d).sent && m.body.job == d.body.job
    ensures d.Next() == Some(m)
  {
    ForSelects(d.body.job, Partial(d).sent);
    var step := StepOf(d.body).value;
    var st := Fresh(d.body, d.bucket, d.lastCompleted);
    AttemptSends(st, d.env, step);
    if Attempt(step, st, d.env).Ok? { AfterPublishes(d, m); }
  }

  // --- preservation ------------------------------------------------------------------------

  /** A message that stays in the queue keeps its invariant while the run's objects
      only grow, the checklist only gets this run's timestamp and time passes. */
  lemma MsgInvStable(c: Config, s: Sys, s': Sys, m: Msg)
    requires MsgInv(c, s, m) && Grows(c, s.bucket, s'.bucket) && s.clock <= s'.clock
    requires s'.lastCompleted == s.lastCompleted || s'.lastCompleted == Some(c.createdAt)
    ensures MsgInv(c, s', m)
  {
    hide History, ChecklistHolds, BodyOk;
    if m.body.job.None? && !(m.body.state == Created && m.body.lastUpdate <= s.clock) {
      var ds: seq<Delivery> :| Outcome(c, ds, m, s.bucket);
      assert Outcome(c, ds, m, s'.bucket);
    }
    ChecklistStable(c, m.body, s.lastCompleted, s'.lastCompleted);
  }

  lemma ChecklistStable(c: Config, b: Body, before: Option<int>, after: Option<int>)
    requires ChecklistHolds(c, b, before) && (after == before || after == Some(c.createdAt))
    ensures ChecklistHolds(c, b, after)
  {
  }

  lemma ChainExtends(ds: seq<Delivery>, d: Delivery)
    requires Chain(ds) && ds != [] && Linked(ds[|ds| - 1], d) && InTime(d.env) && Faithful(d)
    ensures Chain(ds + [d])
  {
    hide Faithful;
    var longer := ds + [d];
    forall i | 0 < i < |longer| ensures Linked(longer[i-1], longer[i]) {
      if i < |ds| { assert Linked(ds[i-1], ds[i]); }
    }
    forall i | 0 <= i < |longer| ensures FaithfulAt(longer, i) {
      if i < |ds| { assert FaithfulAt(ds, i); }
    }
  }

  lemma SoundExtends(c: Config, ds: seq<Delivery>, d: Delivery)
    requires Sound(c, d) && forall i {:trigger SoundAt(c, ds, i)} :: 0 <= i < |ds| ==> SoundAt(c, ds, i)
    ensures forall i {:trigger SoundAt(c, ds + [d], i)} :: 0 <= i < |ds| + 1 ==> SoundAt(c, ds + [d], i)
  {
    hide Sound;
    forall i | 0 <= i < |ds| + 1 ensures SoundAt(c, ds + [d], i) {
      if i < |ds| { assert SoundAt(c, ds, i); }
    }
  }

  lemma GrowthExtends(c: Config, ds: seq<Delivery>, d: Delivery)
    requires ds != [] && Grows(c, ds[|ds| - 1].after.bucket, d.bucket)
    requires forall i {:trigger GrowsTo(c, ds, i)} :: 0 < i < |ds| ==> GrowsTo(c, ds, i)
    ensures forall i {:trigger GrowsTo(c, ds + [d], i)} :: 0 < i < |ds| + 1 ==> GrowsTo(c, ds + [d], i)
  {
    hide Grows;
    forall i | 0 < i < |ds| + 1 ensures GrowsTo(c, ds + [d], i) {
      if i < |ds| { assert GrowsTo(c, ds, i); }
    }
  }

  lemma FirstHistory(c: Config, d: Delivery)
    requires Sound(c, d) && d.body.state == Created && d.body.lastUpdate <= d.env.t0 && d.Next().Some?
    ensures History(c, [d])
  {
    hide Faithful;
    assert FaithfulAt([d], 0);
  }

  lemma LongerHistory(c: Config, ds: seq<Delivery>, m: Msg, d: Delivery)
    requires Outcome(c, ds, m, d.bucket) && m.body == d.body && m.notBefore <= d.env.t0
    requires Sound(c, d) && d.Next().Some?
    ensures History(c, ds + [d])
  {
    SoundExtends(c, ds, d);
    GrowthExtends(c, ds, d);
    assert InTime(d.env) && Faithful(d);
    hide Sound, Faithful, Grows, FaithfulAt;
    ChainExtends(ds, d);
  }

  /** The continuation of a sound parent delivery extends its history. */
  lemma HistoryExtends(c: Config, d: Delivery, m: Msg, sent: Msg, bucket: Bucket, clock: int)
    requires HasHistory(c, m, d.bucket, clock) && m.body == d.body && m.notBefore <= d.env.t0 && clock <= d.env.t0
    requires Sound(c, d) && d.Next() == Some(sent) && Grows(c, d.after.bucket, bucket)
    ensures exists ds: seq<Delivery> :: Outcome(c, ds, sent, bucket)
  {
    if m.body.state == Created && m.body.lastUpdate <= clock {
      FirstHistory(c, d);
      hide History, Sound;
      assert Outcome(c, [d], sent, bucket);
    } else {
      assert d.body.job.None?;
      hide History, Sound;
      var ds: seq<Delivery> :| Outcome(c, ds, m, d.bucket);
      LongerHistory(c, ds, m, d);
      assert (ds + [d])[|ds|] == d;
      assert Outcome(c, ds + [d], sent, bucket);
    }
  }

  lemma ChecklistExtends(c: Config, d: Delivery)
    requires ValidConfig(c) && Sound(c, d) && ChecklistHolds(c, d.body, d.lastCompleted)
    requires d.Next().Some? && d.body.lastUpdate <= d.env.t0
    ensures ChecklistHolds(c, d.Next().value.body, d.after.lastCompleted)
  {
    var s' := d.Next().value.body.state;
    MeasureDecreases(d, d.Next().value.notBefore);
    ChildNeverCompletes(d);
    if s' != Error && s' != d.body.state { TransitionCertifies(c, d, s'); }
  }

  /** The error handler changes neither the bucket nor the checklist. */
  lemma HandlerOnlyPublishes(d: Delivery)
    requires Faithful(d)
    ensures d.after.bucket == Partial(d).bucket && d.after.lastCompleted == Partial(d).lastCompleted
  {
    hide Attempt;
  }

  /** The body keeps its job, and so does every message published. */
  predicate KeepsJob(job: Option<Job>, st: St) {
    st.body.job == job && forall m :: m in st.sent ==> m.body.job == job
  }

  lemma ProcessKeepsJob(st: St, e: Env)
    requires st.body.job.Some? && KeepsJob(st.body.job, st)
    ensures KeepsJob(st.body.job, DoProcess(st, e).st)
  {
    hide OwnKey, ResultOf;
  }

  lemma CheckKeepsJob(st: St, e: Env, step: Step)
    requires st.body.job.Some? && KeepsJob(st.body.job, st)
    ensures KeepsJob(st.body.job, Check(step, st, e).st)
  {
    hide OwnKey;
  }

  lemma CleanupKeepsJob(st: St, e: Env)
    requires KeepsJob(st.body.job, st)
    ensures KeepsJob(st.body.job, DoCleanup(st, e).st)
  {
    hide Stale;
  }

  lemma AttemptKeepsJob(st: St, e: Env, step: Step)
    requires st.body.job.Some? && KeepsJob(st.body.job, st) && StepOf(st.body) == Some(step)
    ensures KeepsJob(st.body.job, Attempt(step, st, e).st)
  {
    CheckKeepsJob(st, e, step);
    if Check(step, st, e).Ok? {
      match step {
        case Process => ProcessKeepsJob(st, e);
        case Cleanup => CleanupKeepsJob(st, e);
        case _ => hide Check, DoProcess, DoCleanup;
      }
    }
  }

  lemma ChildPublishesItself(d: Delivery, m: Msg)
    requires Faithful(d) && d.body.job.Some? && (m in d.after.sent || m in Partial(d).sent)
    ensures m.body.job == d.body.job
  {
    var st := Fresh(d.body, d.bucket, d.lastCompleted);
    if StepOf(d.body).Some? { AttemptKeepsJob(st, d.env, StepOf(d.body).value); }
    hide Attempt, StepOf;
  }

  /** A sound parent's continuation satisfies the message invariant afterwards. */
  lemma NextInv(c: Config, s: Sys, i: nat, e: Env, s': Sys)
    requires ValidConfig(c) && Inv(c, s) && CanDeliver(c, s, i, e) && s.queue[i].body.job.None?
    requires DeliveryAt(s, i, e).Next().Some? && BodyOk(c, DeliveryAt(s, i, e).Next().value.body)
    requires s'.bucket == DeliveryAt(s, i, e).after.bucket && s'.clock == e.t2
    requires s'.lastCompleted == DeliveryAt(s, i, e).after.lastCompleted
    requires Grows(c, s.bucket, s'.bucket)
    ensures MsgInv(c, s', DeliveryAt(s, i, e).Next().value)
  {
    hide Deliver, Chain;
    var d := DeliveryAt(s, i, e);
    var m := s.queue[i];
    assert MsgInv(c, s, m);
    NeverFuture(c, s, m, e);
    ChecklistExtends(c, d);
    HistoryExtends(c, d, m, d.Next().value, s'.bucket, s.clock);
  }

  lemma NeverFuture(c: Config, s: Sys, m: Msg, e: Env)
    requires MsgInv(c, s, m) && m.body.job.None? && m.notBefore <= e.t0 && s.clock <= e.t0
    ensures m.body.lastUpdate <= e.t0
  {
    if m.body.state != Created || m.body.lastUpdate > s.clock {
      var ds: seq<Delivery> :| Outcome(c, ds, m, s.bucket);
      var last := ds[|ds| - 1];
      NeverEarly(ds, |ds| - 1);
      assert FaithfulAt(ds, |ds| - 1);
      MeasureDecreases(last, e.t0);
    }
  }

  /** The barriers behind a parent message hold in the bucket it meets. */
  lemma MessageBarriers(c: Config, s: Sys, m: Msg)
    requires ValidConfig(c) && MsgInv(c, s, m)
    ensures BarriersHold(c, m.body, s.bucket)
  {
    hide History, Gathered;
    if m.body.job.None? && m.body.state != Created {
      var ds: seq<Delivery> :| Outcome(c, ds, m, s.bucket);
      EndBarriers(c, ds, s.bucket);
    }
  }

  lemma SentInv(c: Config, s: Sys, i: nat, e: Env, st: St, s': Sys, m: Msg)
    requires ValidConfig(c) && Inv(c, s) && CanDeliver(c, s, i, e) && m in st.sent
    requires st == DeliveryAt(s, i, e).after || st == Partial(DeliveryAt(s, i, e))
    requires s'.bucket == st.bucket && s'.lastCompleted == st.lastCompleted && s'.clock == e.t2
    requires StOk(c, st) && Grows(c, s.bucket, st.bucket)
    ensures MsgInv(c, s', m)
  {
    hide Deliver, Partial, Chain;
    var d := DeliveryAt(s, i, e);
    if d.body.job.Some? {
      ChildPublishesItself(d, m);
    } else if m.body.job.None? {
      if st == d.after { AfterPublishes(d, m); } else { PartialPublishes(d, m); }
      HandlerOnlyPublishes(d);
      NextInv(c, s, i, e, s');
    }
  }

  lemma EffectsKeep(c: Config, s: Sys, i: nat, e: Env, st: St)
    requires ValidConfig(c) && Inv(c, s) && CanDeliver(c, s, i, e)
    requires st == DeliveryAt(s, i, e).after || st == Partial(DeliveryAt(s, i, e))
    ensures StOk(c, st) && Grows(c, s.bucket, st.bucket)
    ensures st.lastCompleted == s.lastCompleted || st.lastCompleted == Some(c.createdAt)
  {
    hide Partial, Attempt;
    var d := DeliveryAt(s, i, e);
    assert MsgInv(c, s, s.queue[i]);
    if st == d.after {
      DeliverKeeps(c, d.body, d.bucket, d.lastCompleted, e);
    } else {
      PartialKeeps(c, d);
    }
    ChildNeverCompletes(d);
  }

  lemma EndingInv(c: Config, s: Sys, i: nat, e: Env)
    requires Inv(c, s) && CanDeliver(c, s, i, e) && ValidConfig(c)
    ensures var d := DeliveryAt(s, i, e);
            d.body.job.None? && d.Next().None? && !Raised(d.body, d.bucket, d.lastCompleted, e) && StepOf(d.body).Some?
            ==> d.after.lastCompleted == Some(c.createdAt)
  {
    hide Deliver, Attempt, Raised;
    var d := DeliveryAt(s, i, e);
    assert MsgInv(c, s, s.queue[i]);
    OneContinuation(d.body, d.bucket, d.lastCompleted, e);
    ChildNeverCompletes(d);
    if d.body.job.None? && d.body.state == Error { FailingCompletes(d); }
  }

  lemma EventKeepsInv(c: Config, s: Sys, ev: Event)
    requires ValidConfig(c) && Inv(c, s) && Possible(c, s, ev)
    ensures Inv(c, Apply(s, ev))
  {
    hide Deliver, Partial, Chain, Raised;
    var s' := Apply(s, ev);
    if ev.Others? {
      forall m | m in s.queue ensures MsgInv(c, s', m) { MsgInvStable(c, s, s', m); }
    } else {
      var d := DeliveryAt(s, ev.i, ev.env);
      var st := if ev.Delivered? || ev.handled then d.after else Partial(d);
      EffectsKeep(c, s, ev.i, ev.env, st);
      forall m | m in s'.queue ensures MsgInv(c, s', m) {
        if m in st.sent {
          SentInv(c, s, ev.i, ev.env, st, s', m);
        } else {
          assert m in s.queue;
          MsgInvStable(c, s, s', m);
        }
      }
      EndingInv(c, s, ev.i, ev.env);
    }
  }

  lemma {:induction false} ReachedInv(c: Config, s: Sys, evs: seq<Event>)
    requires ValidConfig(c) && Inv(c, s) && Legal(c, s, evs)
    ensures Inv(c, Reached(s, evs))
    decreases |evs|
  {
    hide Inv, Apply;
    if evs != [] {
      EventKeepsInv(c, s, evs[0]);
      ReachedInv(c, Apply(s, evs[0]), evs[1..]);
    }
  }
}
