/** What single deliveries publish and store, said of the messages and objects themselves:
    the children of a fan-out, the result a child stores, what a cleanup deletes, and
    when and how a task's next message is due. */
module BumiEffects {
  import opened Wrappers
  import opened BumiTypes
  import opened BumiSteps
  import opened BumiDelivery
  import opened BumiProgress
  import opened BumiGates

  // --- the fan-out ----------------------------------------------------------------

  /** The state from which a parent fans a folder out, and the one it is in afterwards. */
  function FansFrom(f: Folder): State {
    match f case Recommendations => Started case Archive => CollectedCheckResult case Service => CheckedArchiveResult
  }

  function FansTo(f: Folder): State {
    match f case Recommendations => InitializedChecklist case Archive => InitializedArchive case Service => InitializedService
  }

  /** How often a name is listed. */
  function Times(names: seq<string>, name: string): nat {
    if names == [] then 0 else (if names[0] == name then 1 else 0) + Times(names[1..], name)
  }

  /** How many messages for the job the fan-out of a folder owes. */
  function Owed(e: Env, f: Folder, job: Job): nat {
    if job.folder == f && job.name !in e.disabled then Times(e.installed(f), job.name) else 0
  }

  lemma {:induction false} EnabledCounts(installed: seq<string>, disabled: set<string>, name: string)
    ensures Times(Enabled(installed, disabled), name) == if name in disabled then 0 else Times(installed, name)
  {
    if installed != [] {
      var rest := Enabled(installed[1..], disabled);
      EnabledCounts(installed[1..], disabled, name);
      if installed[0] in disabled {
        assert Enabled(installed, disabled) == rest;
      } else {
        assert Enabled(installed, disabled)[1..] == rest;
      }
    }
  }

  /** The messages of the step so far are the children made, and nothing else. */
  predicate OnlyChildren(st: St, e: Env) {
    forall m :: m in st.sent ==>
      m.body.job.Some? && m == Msg(Body(st.body.org, st.body.createdAt, st.body.checklist, Created, 0, st.body.maxRetries,
                                        st.body.taskTimeout, None, e.t1, None, m.body.job, None), e.t1)
  }

  function Sent(st: St, job: Job): nat { |For(Some(job), st.sent)| }

  lemma {:induction false} CreateChildrenMakes(st: St, e: Env, f: Folder, names: seq<string>, job: Job)
    requires OnlyChildren(st, e)
    ensures var r := CreateChildren(st, e, f, names);
            var wanted := if job.folder == f then Times(names, job.name) else 0;
            && OnlyChildren(r.st, e) && r.st.body == st.body
            && Sent(st, job) <= Sent(r.st, job) <= Sent(st, job) + wanted
            && (r.Ok? ==> Sent(r.st, job) == Sent(st, job) + wanted && |r.st.sent| == |st.sent| + |names|)
    decreases |names|
  {
    if names != [] {
      var m := At(ChildBody(st.body, e, f, names[0]), false, e.t1);
      var r := Publish(st, e, m);
      if r.Ok? {
        ForConcat(Some(job), st.sent, [m]);
        ForOne(Some(job), m);
        assert OnlyChildren(r.st, e);
        CreateChildrenMakes(r.st, e, f, names[1..], job);
      }
    }
  }

  lemma ForOne(job: Option<Job>, m: Msg)
    ensures For(job, [m]) == if m.body.job == job then [m] else []
  {
    assert For(job, [m][1..]) == [];
  }

  /** What a fan-out step has published when it ends: children, and when it goes through
      the parent with their number. */
  ghost predicate Fans(b: Body, r: Run, e: Env, f: Folder, target: State, job: Job) {
    && Sent(r.st, job) <= Owed(e, f, job)
    && (forall m :: m in r.st.sent && m.body.job.Some? ==>
          m == Msg(Body(b.org, b.createdAt, b.checklist, Created, 0, b.maxRetries, b.taskTimeout, None, e.t1, None, m.body.job, None), e.t1))
    && (r.st.body.state == target ==>
          Sent(r.st, job) == Owed(e, f, job)
          && r.st.body.childrenCount == Some(|r.st.sent| - |For(None, r.st.sent)|))
  }

  lemma {:induction false} NoneForParent(sent: seq<Msg>)
    requires forall m :: m in sent ==> m.body.job.Some?
    ensures For(None, sent) == []
  {
    if sent != [] { NoneForParent(sent[1..]); }
  }

  lemma CountPublished(st: St, e: Env, n: nat, f: Folder, target: State, job: Job)
    requires OnlyChildren(st, e) && st.body.job.None? && |st.sent| == n && Sent(st, job) == Owed(e, f, job)
    ensures Fans(st.body, UpdateTimeout(MoveTo(st.(body := st.body.(childrenCount := Some(n))), target), e), e, f, target, job)
  {
    hide Owed;
    NoneForParent(st.sent);
    var m := At(st.body.(childrenCount := Some(n), state := target, lastUpdate := e.t1), false, e.t1);
    ForConcat(Some(job), st.sent, [m]);
    ForConcat(None, st.sent, [m]);
    ForOne(Some(job), m);
    ForOne(None, m);
  }

  lemma FanOutFans(st: St, e: Env, f: Folder, target: State, job: Job)
    requires st.sent == [] && st.body.job.None? && st.body.state != target
    ensures Fans(st.body, FanOut(st, e, f, Enabled(e.installed(f), e.disabled), target), e, f, target, job)
  {
    var names := Enabled(e.installed(f), e.disabled);
    EnabledCounts(e.installed(f), e.disabled, job.name);
    CreateChildrenMakes(st, e, f, names, job);
    hide CreateChildren, Enabled, UpdateTimeout;
    var made := CreateChildren(st, e, f, names);
    if made.Ok? { CountPublished(made.st, e, |names|, f, target, job); }
  }

  lemma InitializeFans(st: St, e: Env, f: Folder, target: State, job: Job)
    requires st.sent == [] && st.body.job.None? && st.body.state != target
    ensures Fans(st.body, DoInitialize(st, e, f, target), e, f, target, job)
  {
    hide FanOut;
    var called := Call(st, e);
    if called.Ok? { FanOutFans(called.st, e, f, target, job); }
  }

  lemma InitializeChecklistFans(st: St, e: Env, job: Job)
    requires st.sent == [] && st.body.job.None? && st.body.state == Started
    ensures var r := DoInitializeChecklist(st, e);
            && Fans(st.body, r, e, Recommendations, InitializedChecklist, job)
            && (r.st.body.state == InitializedChecklist ==> exists n :: n in e.installed(Recommendations) && n !in e.disabled)
            && (r.st.body.state == WaitedService ==> forall n :: n in e.installed(Recommendations) ==> n in e.disabled)
  {
    hide FanOut;
    var called := Call(st, e);
    if called.Ok? {
      FanOutFans(called.st, e, Recommendations, InitializedChecklist, job);
      CreateChildrenSends(called.st, e, Recommendations, Enabled(e.installed(Recommendations), e.disabled));
      SomeEnabled(e.installed(Recommendations), e.disabled);
      ShortcutFans(called.st, e, job);
      FanOutSends(called.st, e, Recommendations, Enabled(e.installed(Recommendations), e.disabled), InitializedChecklist);
    }
  }

  lemma ShortcutFans(st: St, e: Env, job: Job)
    requires st.sent == [] && st.body.job.None?
    ensures Fans(st.body, UpdateTimeout(MoveTo(st, WaitedService), e), e, Recommendations, InitializedChecklist, job)
  {
    var m := At(st.body.(state := WaitedService, lastUpdate := e.t1), false, e.t1);
    ForOne(Some(job), m);
    assert [] + [m] == [m];
  }

  lemma {:induction false} SomeEnabled(installed: seq<string>, disabled: set<string>)
    ensures Enabled(installed, disabled) == [] <==> forall n :: n in installed ==> n in disabled
  {
    if installed != [] {
      assert installed == [installed[0]] + installed[1..];
      SomeEnabled(installed[1..], disabled);
    }
  }

  lemma ParentToo(sent: seq<Msg>, m: Msg, job: Job)
    requires m.body.job.None?
    ensures For(Some(job), sent + [m]) == For(Some(job), sent) && |For(None, sent + [m])| == |For(None, sent)| + 1
  {
    ForConcat(Some(job), sent, [m]);
    ForConcat(None, sent, [m]);
    ForOne(Some(job), m);
    ForOne(None, m);
  }

  /** The handler publishes at most the parent again. */
  lemma HandlerFans(step: Step, r: Run, e: Env, job: Job)
    requires r.st.body.job.None?
    ensures var sent := Finish(step, r, e).sent;
            && For(Some(job), sent) == For(Some(job), r.st.sent) && |sent| - |For(None, sent)| == |r.st.sent| - |For(None, r.st.sent)|
            && forall m :: m in sent && m.body.job.Some? ==> m in r.st.sent
  {
    if r.Raise? {
      var again := Retry(step, r.st.body, r.exn, e);
      if again.Some? { ParentToo(r.st.sent, At(again.value, Waits(step) || Terminal(step), e.t2), job); }
    }
    hide For, CanContinue;
  }

  /** Of a job, the delivery publishes at most as many children as modules of that name are
      installed and not disabled, and all of them when the parent moves on; then the parent
      carries the number of all children. */
  predicate Fanned(d: Delivery, f: Folder, job: Job) {
    var e, sent, next := d.env, d.after.sent, d.Next();
    var owed := if job.folder == f && job.name !in e.disabled then Times(e.installed(f), job.name) else 0;
    && |For(Some(job), sent)| <= owed
    && (next.Some? && next.value.body.state == FansTo(f) ==>
          && |For(Some(job), sent)| == owed
          && next.value.body.childrenCount == Some(|sent| - |For(None, sent)|))
  }

  /** What the parent's fan-out delivery leaves in the queue: the children owed, and each of
      them is a new task of the parent's run. And the parent only goes around the fan-out of recommendations
      when every module is disabled. */
  lemma FanOutMakesChildren(d: Delivery, f: Folder, job: Job)
    requires Faithful(d) && d.body.job.None? && d.body.state == FansFrom(f)
    ensures Fanned(d, f, job)
    ensures forall m :: m in d.after.sent && m.body.job.Some? ==>
              m == Msg(Body(d.body.org, d.body.createdAt, d.body.checklist, Created, 0, d.body.maxRetries, d.body.taskTimeout,
                            None, d.env.t1, None, m.body.job, None), d.env.t1)
    ensures Took(d, Started, InitializedChecklist) ==> exists n :: n in d.env.installed(f) && n !in d.env.disabled
    ensures Took(d, Started, WaitedService) ==> forall n :: n in d.env.installed(f) ==> n in d.env.disabled
  {
    var st, step := Fresh(d.body, d.bucket, d.lastCompleted), StepOf(d.body).value;
    AttemptFans(st, d.env, f, job);
    AttemptSends(st, d.env, step);
    NextIs(d, step);
    HandlerFans(step, Attempt(step, st, d.env), d.env, job);
    FansAfter(d, Attempt(step, st, d.env), f, job);
  }

  lemma FansAfter(d: Delivery, r: Run, f: Folder, job: Job)
    requires Fans(d.body, r, d.env, f, FansTo(f), job)
    requires For(Some(job), d.after.sent) == For(Some(job), r.st.sent)
    requires |d.after.sent| - |For(None, d.after.sent)| == |r.st.sent| - |For(None, r.st.sent)|
    requires forall m :: m in d.after.sent && m.body.job.Some? ==> m in r.st.sent
    requires d.Next() == if r.Ok? then Some(At(r.st.body, false, d.env.t1))
                         else if d.env.handlerFault then None
                         else Some(At(AfterError(r.st.body, r.exn), false, d.env.t2))
    ensures Fanned(d, f, job)
    ensures d.Next().Some? && d.Next().value.body.state != Error ==> d.Next().value.body.state == r.st.body.state
  {
    hide For, LastFor;
  }

  lemma AttemptFans(st: St, e: Env, f: Folder, job: Job)
    requires st.sent == [] && st.body.job.None? && st.body.state == FansFrom(f)
    ensures var r := Attempt(StepOf(st.body).value, st, e);
            && Fans(st.body, r, e, f, FansTo(f), job)
            && (st.body.state == Started ==>
                  && (r.st.body.state == InitializedChecklist ==> exists n :: n in e.installed(Recommendations) && n !in e.disabled)
                  && (r.st.body.state == WaitedService ==> forall n :: n in e.installed(Recommendations) ==> n in e.disabled))
  {
    if st.body.state == Started {
      InitializeChecklistFans(st, e, job);
    } else {
      InitializeFans(st, e, f, FansTo(f), job);
    }
    hide DoInitialize, DoInitializeChecklist;
  }

  // --- what a child stores -----------------------------------------------------------

  /** The text with which a module fails: what it threw or returned as its error. */
  function FailureText(run: ModuleRun): string {
    match run
    case Threw(text) => text
    case Returned(error) => if error.Some? then error.value else ""
  }

  predicate Late(b: Body, e: Env) { e.t0 - b.lastUpdate > b.taskTimeout }

  /** A child at work stores one object, under its own key, unless a call up to the upload
      raises. The object has a set timeout exactly when the child came too late, and a set
      error exactly when it was in time, its module enabled, and the module threw or
      returned a text that is not empty; that text is the error. */
  lemma ChildStores(d: Delivery)
    requires Faithful(d) && d.body.job.Some? && d.body.state == Started
    ensures var b, e := d.body, d.env;
            var key := Key(b.org, b.createdAt, b.job.value.folder, b.job.value.name);
            var uploads := if Late(b, e) then e.faultAt > 0 else e.faultAt > 1;
            if !uploads then d.after.bucket == d.bucket
            else
              && key in d.after.bucket && d.after.bucket == d.bucket[key := d.after.bucket[key]]
              && var r := d.after.bucket[key];
                 && (r.timeoutError.Some? && r.timeoutError.value != "" <==> Late(b, e))
                 && (r.error.Some? && r.error.value != "" <==>
                       !Late(b, e) && b.job.value.name !in e.disabled && FailureText(e.run) != "")
                 && (r.error.Some? && r.error.value != "" ==> r.error.value == FailureText(e.run))
  {
    var st := Fresh(d.body, d.bucket, d.lastCompleted);
    var r := Attempt(Process, st, d.env);
    assert d.after.bucket == r.st.bucket;
  }

  lemma StoredFailure(c: Config, bucket: Bucket, f: Folder, name: string)
    requires ResultKey(c, f, name) in bucket && name in c.modules(f)
    ensures var r := bucket[ResultKey(c, f, name)];
            && (f.Recommendations? && r.timeoutError.Some? && r.timeoutError.value != "" ==> !NoStoredTimeout(c, bucket))
            && (f.Archive? && ((r.timeoutError.Some? && r.timeoutError.value != "") || (r.error.Some? && r.error.value != "")) ==>
                  !NoStoredError(c, bucket))
  {
  }

  /** With what a child stored still in place and current reads, a parent behind the barrier
      does not pass the gate of the child's folder: an archive child that failed or came too
      late stops it, unless a call of the gate raises first; so does a late recommendation. */
  lemma FailuresStopTheGate(c: Config, child: Delivery, d: Delivery)
    requires Faithful(child) && BodyOk(c, child.body) && child.body.job.Some? && child.body.state == Started
    requires if Late(child.body, child.env) then child.env.faultAt > 0 else child.env.faultAt > 1
    requires ValidConfig(c) && Sound(c, d) && BarriersHold(c, d.body, d.bucket) && Current(c, d.bucket, d.env)
    requires var key := Key(c.org, c.createdAt, child.body.job.value.folder, child.body.job.value.name);
             key in d.bucket && key in child.after.bucket && d.bucket[key] == child.after.bucket[key]
    ensures child.body.job.value.folder.Recommendations? && Late(child.body, child.env) ==>
              !Took(d, WaitedChecklist, CollectedCheckResult)
    ensures child.body.job.value.folder.Archive?
            && (Late(child.body, child.env)
                || (child.body.job.value.name !in child.env.disabled && FailureText(child.env.run) != "")) ==>
              (Took(d, WaitedArchive, CheckedArchiveResult) ==> ArchiveReadRaised(d.body, d.env))
  {
    ChildStores(child);
    var b := child.body;
    assert ResultKey(c, b.job.value.folder, b.job.value.name) == Key(c.org, c.createdAt, b.job.value.folder, b.job.value.name);
    StoredFailure(c, d.bucket, b.job.value.folder, b.job.value.name);
    StoredOutcomes(c, d.body, d.bucket, d.env);
    if d.body.state == WaitedChecklist { CollectGateExact(d); }
    if d.body.state == WaitedArchive { ArchiveGateExact(d); }
    hide Faithful, Current, EnvOk, NoTimeouts, FailureText, Late, NoStoredError, NoStoredTimeout, TaskLate;
  }

  // --- what a cleanup deletes -----------------------------------------------------------

  /** The timestamp occurs in the object's name. */
  ghost predicate Mentions(k: Key, createdAt: int) {
    exists before: string, after: string :: Path(k) == before + Decimal(createdAt) + after
  }

  lemma MentionsIs(k: Key, createdAt: int)
    ensures Mentions(k, createdAt) <==> Contains(Path(k), Decimal(createdAt))
  {
    var text, part := Path(k), Decimal(createdAt);
    hide Path, Decimal;
    if Mentions(k, createdAt) {
      var before: string, after: string :| text == before + part + after;
      ContainsMiddle(before, part, after);
    }
    if Contains(text, part) {
      var i :| 0 <= i <= |text| && part <= text[i..];
      assert text == text[..i] + part + text[i + |part|..];
    }
  }

  /** A child that has stored its result deletes, unless a call raises, the listed objects of
      its organization whose names do not mention its run, and changes nothing else. With no
      more objects than a page shows, these are all that it sees. */
  lemma CleanupDeletes(d: Delivery, k: Key)
    requires Faithful(d) && d.body.job.Some? && d.body.state == Processed
    ensures k in d.after.bucket <==>
              && k in d.bucket
              && !(d.env.faultAt > 1 && k in Listing(d.env, OfOrg(d.body.org)) && !Mentions(k, d.body.createdAt))
    ensures k in d.after.bucket ==> d.after.bucket[k] == d.bucket[k]
    ensures Distinct(d.env.seen) ==>
              && (k in Listing(d.env, OfOrg(d.body.org)) ==> k in d.env.seen && k.org == d.body.org)
              && (|Listing(d.env, OfOrg(d.body.org))| < PAGE && k in d.env.seen && k.org == d.body.org ==>
                    k in Listing(d.env, OfOrg(d.body.org)))
  {
    MentionsIs(k, d.body.createdAt);
    if Distinct(d.env.seen) { ListingShows(d.env, OfOrg(d.body.org)); }
    CleanupAttempt(Fresh(d.body, d.bucket, d.lastCompleted), d.env);
    hide Contains, Path, Decimal, Listing, Mentions, Attempt;
  }

  lemma CleanupAttempt(st: St, e: Env)
    requires st.body.job.Some? && st.body.state == Processed && st.calls == 0
    ensures Attempt(Cleanup, st, e).st.bucket ==
              if e.faultAt > 1 then st.bucket - Stale(st.body, Listing(e, OfOrg(st.body.org))) else st.bucket
  {
    hide Stale, Listing;
    assert st.bucket - {} == st.bucket;
  }

  // --- when the next message is due -----------------------------------------------------

  /** The seconds a task has for its step, if the step is timed: a wait's own timeout for
      a waiting parent, the task's for the others. */
  function Deadline(b: Body): Option<int> {
    match b.state
    case Created | Started => Some(b.taskTimeout)
    case WaitedChecklist | CollectedCheckResult | WaitedArchive | CheckedArchiveResult =>
      if b.job.None? then Some(b.taskTimeout) else None
    case InitializedChecklist | InitializedArchive | InitializedService => if b.job.None? then b.waitTimeout else None
    case _ => None
  }

  predicate Overdue(b: Body, e: Env) { Deadline(b).Some? && e.t0 - b.lastUpdate > Deadline(b).value }

  /** A late child fails in the same way unless storing its timeout raises. */
  predicate TooLate(b: Body, e: Env) { Overdue(b, e) && !(b.job.Some? && b.state.Started? && e.faultAt == 0) }

  lemma {:induction false} CreateChildrenRaises(st: St, e: Env, f: Folder, names: seq<string>)
    ensures CreateChildren(st, e, f, names).Raise? ==> CreateChildren(st, e, f, names).exn == Failure
    decreases |names|
  {
    if names != [] && Call(st, e).Ok? {
      CreateChildrenRaises(Publish(st, e, At(ChildBody(st.body, e, f, names[0]), false, e.t1)).st, e, f, names[1..]);
    }
  }

  lemma InitializesRaise(st: St, e: Env, f: Folder, target: State)
    ensures var r := DoInitialize(st, e, f, target);
            && (r.Raise? ==> r.exn == Failure) && (r.Ok? ==> r.st.body.lastUpdate == e.t1)
    ensures var r := DoInitializeChecklist(st, e);
            && (r.Raise? ==> r.exn == Failure) && (r.Ok? ==> r.st.body.lastUpdate == e.t1)
  {
    var called := Call(st, e);
    if called.Ok? {
      CreateChildrenRaises(called.st, e, f, Enabled(e.installed(f), e.disabled));
      CreateChildrenRaises(called.st, e, Recommendations, Enabled(e.installed(Recommendations), e.disabled));
    }
    hide Enabled, CreateChildren;
  }

  /** A step's own work only raises failures, and a step that goes through has reset the
      clock, but for a wait that stays and the update of the checklist. */
  lemma ExecuteRaises(st: St, e: Env, step: Step)
    requires StepOf(st.body) == Some(step) && !Terminal(step) && !Waits(step)
    ensures var r := Execute(step, st, e);
            && (r.Raise? ==> r.exn == Failure)
            && (r.Ok? ==> r.st.body.lastUpdate == if step.UpdateChecklist? then st.body.lastUpdate else e.t1)
  {
    match step {
      case InitializeChecklist => InitializesRaise(st, e, Recommendations, InitializedChecklist);
      case InitializeArchive => InitializesRaise(st, e, Archive, InitializedArchive);
      case InitializeService => InitializesRaise(st, e, Service, InitializedService);
      case CollectCheckResult =>
        if Call(st, e).Ok? { ReadAllKeeps(Call(st, e).st, e, FolderListing(st.body, e, Recommendations)); }
        hide FolderListing, TimedOut;
      case CheckArchiveResult =>
        var called := Call(MoveTo(st, CheckedArchiveResult), e);
        if called.Ok? { InspectExact(called.st, e, FolderListing(st.body, e, Archive)); }
        hide Listing, Inspect;
      case _ =>
    }
  }

  lemma WaitRaises(st: St, e: Env, step: Step)
    requires StepOf(st.body) == Some(step) && Waits(step) && st.calls == 0
    ensures var r := Execute(step, st, e);
            && (r.Raise? ==> r.exn == Failure)
            && (r.Ok? ==> r.st.body.lastUpdate == if r.st.body.state == st.body.state then st.body.lastUpdate else e.t1)
  {
    var f := match step case WaitChecklist => Recommendations case WaitArchive => Archive case _ => Service;
    WaitAttempt(st, e, f, PastBarrier(f));
    hide FolderListing;
  }

  lemma CheckRaises(st: St, e: Env, step: Step)
    requires StepOf(st.body) == Some(step) && !Terminal(step) && st.calls == 0
    ensures var r := Check(step, st, e);
            && (TooLate(st.body, e) ==> r.Raise? && r.exn == (if Waits(step) then WaitTimeout else TaskTimeout) && r.st.body == st.body)
            && (r.Raise? && !TooLate(st.body, e) ==> r.exn == Failure)
  {
  }

  lemma Raises(st: St, e: Env, step: Step)
    requires StepOf(st.body) == Some(step) && !Terminal(step) && st.calls == 0
    ensures var r := Attempt(step, st, e);
            && (TooLate(st.body, e) ==> r.Raise? && r.exn == (if Waits(step) then WaitTimeout else TaskTimeout) && r.st.body == st.body)
            && (r.Raise? && !TooLate(st.body, e) ==> r.exn == Failure)
            && (r.Ok? ==>
                  r.st.body.lastUpdate == if step.UpdateChecklist? || r.st.body.state == st.body.state then st.body.lastUpdate else e.t1)
  {
    CheckRaises(st, e, step);
    if Waits(step) { WaitRaises(st, e, step); } else { ExecuteRaises(st, e, step); }
    if !Waits(step) && Check(step, st, e).Ok? { Leaves(st, e, step); }
    hide Execute, Check, TooLate, StepOf;
  }

  /** A step that goes through and does not wait leaves its state. */
  lemma Leaves(st: St, e: Env, step: Step)
    requires StepOf(st.body) == Some(step) && !Terminal(step) && !Waits(step) && Check(step, st, e).Ok?
    ensures Execute(step, st, e).Ok? ==> Execute(step, st, e).st.body.state != st.body.state
  {
    ExecuteMoves(st, e, step);
    hide Execute;
  }

  /** A task that comes too late fails for that reason, whatever retries are left: its next
      message says so, if the handler can publish it. */
  lemma TooLateFails(d: Delivery)
    requires Faithful(d) && StepOf(d.body).Some? && !Terminal(StepOf(d.body).value) && TooLate(d.body, d.env)
    ensures var b, e, waits := d.body, d.env, BarrierFolder(d.body.state).Some?;
            d.Next() ==
              if e.handlerFault then None
              else if waits then Some(Msg(b.(state := Error, reason := Some(WaitTimeout), lastUpdate := e.t2), e.t2 + 2))
              else Some(Msg(b.(state := Error, reason := Some(TaskTimeout)), e.t2))
  {
    var step := StepOf(d.body).value;
    NextIs(d, step);
    Raises(Fresh(d.body, d.bucket, d.lastCompleted), d.env, step);
    hide Attempt, Faithful, Delivery.Next, Deadline;
  }

  /** Otherwise the next message keeps what a task keeps. If nothing raised it is due at
      once, with the clock of the step reset, or for a wait after the delay, with the clock
      reset when the barrier opened. If a call raised, a retry is consumed, or the task
      fails for that when none was left; a wait then starts anew. */
  lemma NextIsDue(d: Delivery)
    requires Faithful(d) && StepOf(d.body).Some? && !Terminal(StepOf(d.body).value) && !TooLate(d.body, d.env) && d.Next().Some?
    ensures var b, e, m, waits := d.body, d.env, d.Next().value, BarrierFolder(d.body.state).Some? && d.body.job.None?;
            var raised := Raised(d.body, d.bucket, d.lastCompleted, d.env);
            && SameTask(b, m.body)
            && m.notBefore == (if raised then e.t2 else e.t1) + (if waits then 2 else 0)
            && (!raised ==>
                  && m.body.tries == b.tries && m.body.reason == b.reason
                  && m.body.lastUpdate == if b.state.WaitedService? || m.body.state == b.state then b.lastUpdate else e.t1)
            && (raised ==>
                  && (if b.tries < b.maxRetries then m.body.tries == b.tries + 1 && m.body.reason == b.reason
                      else m.body.tries == b.tries && m.body.reason == Some(Failure) && m.body.state == Error)
                  && (waits ==> m.body.lastUpdate == e.t2))
  {
    var step, st := StepOf(d.body).value, Fresh(d.body, d.bucket, d.lastCompleted);
    NextIs(d, step);
    Raises(st, d.env, step);
    AttemptSends(st, d.env, step);
    StepNames(d.body, step);
    hide *;
    DueAfter(d.body, step, Attempt(step, st, d.env), d.env, d.Next().value);
  }

  lemma StepNames(b: Body, step: Step)
    requires StepOf(b) == Some(step)
    ensures Waits(step) <==> BarrierFolder(b.state).Some? && b.job.None?
    ensures step.UpdateChecklist? ==> b.state.WaitedService?
    ensures b.state.WaitedService? && b.job.None? ==> step.UpdateChecklist?
    ensures b.job.Some? ==> !b.state.WaitedService?
  {
  }

  lemma DueAfter(b: Body, step: Step, r: Run, e: Env, m: Msg)
    requires SendsOne(Terminal(step), Waits(step), b, r, e)
    requires r.Raise? ==> r.exn == Failure && !e.handlerFault
    requires r.Ok? ==> r.st.body.lastUpdate == if step.UpdateChecklist? || r.st.body.state == b.state then b.lastUpdate else e.t1
    requires m == if r.Ok? then At(r.st.body, Waits(step), e.t1)
                  else At(AfterError(Restarted(step, r.st.body, e), r.exn), Waits(step), e.t2)
    ensures SameTask(b, m.body) && m.notBefore == (if r.Raise? then e.t2 else e.t1) + (if Waits(step) then 2 else 0)
    ensures r.Ok? ==> m.body.tries == b.tries && m.body.reason == b.reason
                      && m.body.lastUpdate == if step.UpdateChecklist? || m.body.state == b.state then b.lastUpdate else e.t1
    ensures r.Raise? ==> if b.tries < b.maxRetries then m.body.tries == b.tries + 1 && m.body.reason == b.reason
                         else m.body.tries == b.tries && m.body.reason == Some(Failure) && m.body.state == Error
    ensures r.Raise? && Waits(step) ==> m.body.lastUpdate == e.t2
  {
    hide For;
  }

  /** A terminal step that failed is put back as it was, after the delay. */
  lemma PutBackUnchanged(d: Delivery)
    requires Faithful(d) && StepOf(d.body).Some? && Terminal(StepOf(d.body).value) && d.Next().Some?
    ensures d.Next() == Some(Msg(d.body, d.env.t2 + 2))
  {
    var step, st := StepOf(d.body).value, Fresh(d.body, d.bucket, d.lastCompleted);
    AttemptSends(st, d.env, step);
    TerminalLeavesBody(st, d.env, step);
    FinishSends(step, d.body, Attempt(step, st, d.env), d.env);
    hide Attempt, For;
  }

  lemma ReadsLeaveBucket(st: St, e: Env)
    ensures DoCollect(st, e).st.bucket == st.bucket && DoCheckArchive(st, e).st.bucket == st.bucket
  {
    var called := Call(st, e);
    if called.Ok? {
      ReadAllKeeps(called.st, e, FolderListing(st.body, e, Recommendations));
      InspectKeeps(MoveTo(called.st, CheckedArchiveResult), e, FolderListing(st.body, e, Archive));
    }
  }

  lemma FansLeaveBucket(st: St, e: Env, f: Folder, target: State)
    ensures DoInitialize(st, e, f, target).st.bucket == st.bucket && DoInitializeChecklist(st, e).st.bucket == st.bucket
  {
    var called := Call(st, e);
    if called.Ok? {
      CreateChildrenSends(called.st, e, f, Enabled(e.installed(f), e.disabled));
      CreateChildrenSends(called.st, e, Recommendations, Enabled(e.installed(Recommendations), e.disabled));
    }
    hide Enabled, CreateChildren, For;
  }

  /** Only a child that works or cleans up touches the bucket. */
  lemma OthersLeaveBucket(d: Delivery)
    requires Faithful(d) && (d.body.job.None? || !(d.body.state.Started? || d.body.state.Processed?))
    ensures d.after.bucket == d.bucket
  {
    if StepOf(d.body).Some? {
      var step, st := StepOf(d.body).value, Fresh(d.body, d.bucket, d.lastCompleted);
      match step {
        case InitializeChecklist => FansLeaveBucket(st, d.env, Recommendations, InitializedChecklist);
        case InitializeArchive => FansLeaveBucket(st, d.env, Archive, InitializedArchive);
        case InitializeService => FansLeaveBucket(st, d.env, Service, InitializedService);
        case CollectCheckResult => ReadsLeaveBucket(st, d.env);
        case CheckArchiveResult => ReadsLeaveBucket(st, d.env);
        case _ =>
      }
      assert Attempt(step, st, d.env).st.bucket == d.bucket;
      hide Attempt;
    }
  }

  /** Where a delivery that raises nothing takes a task: always on, but for a wait that stays
      and a gate that fails it. */
  function LeadsTo(b: Body): set<State> {
    match b.state
    case Created => {Started}
    case Started => if b.job.Some? then {Processed} else {InitializedChecklist, WaitedService}
    case InitializedChecklist => {InitializedChecklist, WaitedChecklist}
    case WaitedChecklist => {CollectedCheckResult, Error}
    case CollectedCheckResult => {InitializedArchive}
    case InitializedArchive => {InitializedArchive, WaitedArchive}
    case WaitedArchive => {CheckedArchiveResult, Error}
    case CheckedArchiveResult => {InitializedService}
    case InitializedService => {InitializedService, WaitedService}
    case WaitedService => {UpdatedChecklist}
    case _ => {}
  }

  lemma InitializesLead(st: St, e: Env, f: Folder, target: State)
    ensures DoInitialize(st, e, f, target).Ok? ==> DoInitialize(st, e, f, target).st.body.state == target
    ensures DoInitializeChecklist(st, e).Ok? ==>
              DoInitializeChecklist(st, e).st.body.state in {InitializedChecklist, WaitedService}
  {
  }

  lemma ReadsLead(st: St, e: Env)
    requires st.body.state == WaitedChecklist || st.body.state == WaitedArchive
    ensures DoCollect(st, e).Ok? ==> DoCollect(st, e).st.body.state in {CollectedCheckResult, Error}
    ensures DoCheckArchive(st, e).Ok? ==> DoCheckArchive(st, e).st.body.state in {CheckedArchiveResult, Error}
  {
    var called := Call(st, e);
    if called.Ok? {
      InspectKeeps(MoveTo(called.st, CheckedArchiveResult), e, FolderListing(st.body, e, Archive));
    }
    hide Listing, Inspect, ReadAll, TimedOut;
  }

  lemma ExecuteLeads(st: St, e: Env, step: Step)
    requires StepOf(st.body) == Some(step) && !Terminal(step)
    ensures Execute(step, st, e).Ok? ==> Execute(step, st, e).st.body.state in LeadsTo(st.body)
  {
    match step {
      case InitializeChecklist => InitializesLead(st, e, Recommendations, InitializedChecklist);
      case InitializeArchive => InitializesLead(st, e, Archive, InitializedArchive);
      case InitializeService => InitializesLead(st, e, Service, InitializedService);
      case CollectCheckResult => ReadsLead(st, e);
      case CheckArchiveResult => ReadsLead(st, e);
      case _ => hide FolderListing;
    }
    hide DoInitialize, DoInitializeChecklist, DoCollect, DoCheckArchive;
  }

  /** A delivery that raises nothing and does not end its task takes it on. */
  lemma NextStateIs(d: Delivery)
    requires Faithful(d) && StepOf(d.body).Some? && !Terminal(StepOf(d.body).value)
    requires !Raised(d.body, d.bucket, d.lastCompleted, d.env)
    ensures d.Next().Some? && d.Next().value.body.state in LeadsTo(d.body)
  {
    NextIs(d, StepOf(d.body).value);
    ExecuteLeads(Fresh(d.body, d.bucket, d.lastCompleted), d.env, StepOf(d.body).value);
    hide Execute, Faithful, Delivery.Next, LeadsTo;
  }
}
