/** One delivery of the pipeline: what it publishes, how it moves the state, what it
    does to the bucket, and when a barrier or a gate lets the task through. */
module BumiDelivery {
  import opened Wrappers
  import opened BumiTypes
  import opened BumiSteps

  /** One run of one organization: its modules are fixed while it lasts. */
  datatype Config = Config(org: string, createdAt: int, modules: Folder -> seq<string>)

  ghost predicate ValidConfig(c: Config) {
    forall f :: Distinct(c.modules(f))
  }

  predicate Own(c: Config, k: Key) {
    k.org == c.org && k.createdAt == c.createdAt
  }

  function BarrierFolder(s: State): Option<Folder> {
    match s
    case InitializedChecklist => Some(Recommendations)
    case InitializedArchive => Some(Archive)
    case InitializedService => Some(Service)
    case _ => None
  }

  /** Bodies of this run: a child works on a listed module and carries no wait
      timeout; a parent at a barrier expects one result for each module. */
  predicate BodyOk(c: Config, b: Body) {
    && b.org == c.org && b.createdAt == c.createdAt
    && (b.job.Some? ==>
          && b.job.value.name in c.modules(b.job.value.folder)
          && b.waitTimeout.None?
          && (b.state.Created? || b.state.Started? || b.state.Processed? || b.state.Error?))
    && (b.job.None? ==>
          && b.waitTimeout.Some?
          && !b.state.Processed? && !b.state.Completed?
          && (BarrierFolder(b.state).Some? ==>
                b.childrenCount == Some(|c.modules(BarrierFolder(b.state).value)|)))
  }

  predicate BucketOk(c: Config, bucket: Bucket) {
    forall k :: k in bucket && Own(c, k) ==> k.name in c.modules(k.folder)
  }

  predicate Grows(c: Config, before: Bucket, after: Bucket) {
    forall k :: k in before && Own(c, k) ==> k in after
  }

  predicate Complete(c: Config, bucket: Bucket, f: Folder) {
    forall name :: name in c.modules(f) ==> Key(c.org, c.createdAt, f, name) in bucket
  }

  /** The reads of a delivery may be older than the bucket it writes to; what they
      show of this run was written before. A parent sees the run's module list. */
  ghost predicate EnvOk(c: Config, b: Body, bucket: Bucket, e: Env) {
    && e.t0 <= e.t1 <= e.t2
    && Distinct(e.seen)
    && (forall k :: k in e.seen <==> k in e.content)
    && (forall k :: k in e.seen && Own(c, k) ==> k in bucket)
    && (b.job.None? ==> forall f :: Enabled(e.installed(f), e.disabled) == c.modules(f))
  }

  predicate StOk(c: Config, st: St) {
    && BodyOk(c, st.body)
    && BucketOk(c, st.bucket)
    && forall m :: m in st.sent ==> BodyOk(c, m.body)
  }

  // --- bodies and buckets stay well-formed -----------------------------------

  lemma ContinueKeeps(c: Config, st: St, e: Env, delayed: bool)
    requires StOk(c, st)
    ensures var r := Continue(st, e, delayed); StOk(c, r.st) && r.st.bucket == st.bucket
  {
  }

  lemma {:induction false} CreateChildrenKeeps(c: Config, st: St, e: Env, f: Folder, names: seq<string>)
    requires StOk(c, st) && forall n :: n in names ==> n in c.modules(f)
    ensures var r := CreateChildren(st, e, f, names);
            StOk(c, r.st) && r.st.body == st.body && r.st.bucket == st.bucket && r.st.lastCompleted == st.lastCompleted
    decreases |names|
  {
    if names != [] {
      var r := Publish(st, e, At(ChildBody(st.body, e, f, names[0]), false, e.t1));
      if r.Ok? { CreateChildrenKeeps(c, r.st, e, f, names[1..]); }
    }
  }

  lemma {:induction false} ReadAllKeeps(st: St, e: Env, keys: seq<Key>)
    ensures ReadAll(st, e, keys).st == st.(calls := ReadAll(st, e, keys).st.calls)
    ensures ReadAll(st, e, keys).Ok? <==> !(st.calls <= e.faultAt < st.calls + |keys|)
    ensures ReadAll(st, e, keys).Ok? ==> ReadAll(st, e, keys).st.calls == st.calls + |keys|
    ensures ReadAll(st, e, keys).Raise? ==> ReadAll(st, e, keys).exn == Failure
    decreases |keys|
  {
    if keys != [] && st.calls != e.faultAt {
      ReadAllKeeps(st.(calls := st.calls + 1), e, keys[1..]);
    }
  }

  lemma {:induction false} InspectKeeps(st: St, e: Env, keys: seq<Key>)
    ensures var r := Inspect(st, e, keys);
            || r.st == st.(calls := r.st.calls)
            || (r.Ok? && r.st == MoveTo(st.(calls := r.st.calls), Error))
    decreases |keys|
  {
    if keys != [] && st.calls != e.faultAt && !Erroneous(e, keys[0]) {
      InspectKeeps(st.(calls := st.calls + 1), e, keys[1..]);
    }
  }

  lemma ContainsMiddle(text: string, part: string, tail: string)
    ensures Contains(text + part + tail, part)
  {
    assert (text + part + tail)[|text|..] == part + tail;
  }

  lemma PathIs(k: Key)
    ensures Path(k) == (k.org + "/") + Decimal(k.createdAt) + ("/" + FolderName(k.folder) + "/" + k.name + ".json")
  {
    hide Decimal, FolderName;
  }

  /** Cleanup never names an object of its own run. */
  lemma OwnNamesAreKept(b: Body, keys: seq<Key>, k: Key)
    requires k.createdAt == b.createdAt
    ensures k !in Stale(b, keys)
  {
    hide Decimal, FolderName, Path, Contains;
    PathIs(k);
    ContainsMiddle(k.org + "/", Decimal(k.createdAt), "/" + FolderName(k.folder) + "/" + k.name + ".json");
  }

  lemma CleanupKeeps(c: Config, st: St, e: Env)
    requires StOk(c, st)
    ensures StOk(c, DoCleanup(st, e).st) && Grows(c, st.bucket, DoCleanup(st, e).st.bucket)
  {
    forall k, keys | Own(c, k) ensures k !in Stale(st.body, keys) {
      OwnNamesAreKept(st.body, keys, k);
    }
  }

  lemma FanOutKeeps(c: Config, st: St, e: Env, f: Folder, target: State)
    requires StOk(c, st) && st.body.job.None? && BarrierFolder(target) == Some(f)
    ensures var r := FanOut(st, e, f, c.modules(f), target); StOk(c, r.st) && r.st.bucket == st.bucket
  {
    CreateChildrenKeeps(c, st, e, f, c.modules(f));
    var made := CreateChildren(st, e, f, c.modules(f));
    if made.Ok? {
      var st' := MoveTo(made.st.(body := made.st.body.(childrenCount := Some(|c.modules(f)|))), target);
      ContinueKeeps(c, st'.(body := st'.body.(lastUpdate := e.t1)), e, false);
    }
  }

  lemma CollectKeeps(c: Config, st: St, e: Env)
    requires StOk(c, st) && st.body.job.None?
    ensures var r := DoCollect(st, e); StOk(c, r.st) && r.st.bucket == st.bucket
  {
    var called := Call(st, e);
    if called.Ok? {
      var keys := FolderListing(st.body, e, Recommendations);
      ReadAllKeeps(called.st, e, keys);
      var read := ReadAll(called.st, e, keys);
      if read.Ok? {
        ConcludeKeeps(c, read.st, e, keys);
        ConcludeKeeps(c, read.st.(calls := read.st.calls + 1), e, keys);
      }
    }
  }

  lemma ConcludeKeeps(c: Config, st: St, e: Env, keys: seq<Key>)
    requires StOk(c, st) && st.body.job.None?
    ensures var r := Conclude(st, e, keys); StOk(c, r.st) && r.st.bucket == st.bucket
  {
    var st' := MoveTo(st, if exists k :: k in keys && TimedOut(e, k) then Error else CollectedCheckResult);
    ContinueKeeps(c, st'.(body := st'.body.(lastUpdate := e.t1)), e, false);
  }

  lemma CheckArchiveKeeps(c: Config, st: St, e: Env)
    requires StOk(c, st) && st.body.job.None?
    ensures var r := DoCheckArchive(st, e); StOk(c, r.st) && r.st.bucket == st.bucket
  {
    var st' := MoveTo(st, CheckedArchiveResult);
    if Call(st', e).Ok? { InspectKeeps(Call(st', e).st, e, FolderListing(st.body, e, Archive)); }
  }

  lemma WaitKeeps(c: Config, st: St, e: Env, f: Folder, target: State)
    requires StOk(c, st) && st.body.job.None? && BarrierFolder(target).None? && !target.Processed? && !target.Completed?
    ensures var r := DoWait(st, e, f, target); StOk(c, r.st) && r.st.bucket == st.bucket
  {
    var called := Call(st, e);
    if called.Ok? {
      ContinueKeeps(c, called.st, e, true);
      ContinueKeeps(c, MoveTo(called.st.(body := called.st.body.(lastUpdate := e.t1)), target), e, true);
    }
  }

  lemma UploadKeeps(c: Config, st: St, e: Env, result: Result)
    requires StOk(c, st) && st.body.job.Some?
    ensures var r := Upload(st, e, result); StOk(c, r.st) && Grows(c, st.bucket, r.st.bucket) && r.st.body == st.body
  {
  }

  lemma ProcessKeeps(c: Config, st: St, e: Env)
    requires StOk(c, st) && st.body.job.Some?
    ensures var r := DoProcess(st, e); StOk(c, r.st) && Grows(c, st.bucket, r.st.bucket)
  {
    var called := Call(st, e);
    if called.Ok? {
      var result := if st.body.job.value.name in e.disabled then Result(None, None) else ResultOf(e.run);
      UploadKeeps(c, called.st, e, result);
      var stored := Upload(called.st, e, result);
      if stored.Ok? {
        var st' := MoveTo(stored.st, Processed);
        ContinueKeeps(c, st'.(body := st'.body.(lastUpdate := e.t1)), e, false);
      }
    }
  }

  lemma ChildKeeps(c: Config, st: St, e: Env, step: Step)
    requires StOk(c, st) && StepOf(st.body) == Some(step) && st.body.job.Some?
    ensures var r := Attempt(step, st, e); StOk(c, r.st) && Grows(c, st.bucket, r.st.bucket)
  {
    match step {
      case Process =>
        UploadKeeps(c, st, e, Result(None, Some(TIMEOUT_TEXT)));
        ProcessKeeps(c, st, e);
      case Cleanup => CleanupKeeps(c, st, e);
      case _ =>
    }
  }

  lemma InitializeKeeps(c: Config, st: St, e: Env, f: Folder, target: State)
    requires StOk(c, st) && st.body.job.None? && BarrierFolder(target) == Some(f)
    requires Enabled(e.installed(f), e.disabled) == c.modules(f)
    ensures var r := DoInitialize(st, e, f, target); StOk(c, r.st) && r.st.bucket == st.bucket
  {
    if Call(st, e).Ok? { FanOutKeeps(c, Call(st, e).st, e, f, target); }
  }

  lemma InitializeChecklistKeeps(c: Config, st: St, e: Env)
    requires StOk(c, st) && st.body.job.None?
    requires Enabled(e.installed(Recommendations), e.disabled) == c.modules(Recommendations)
    ensures var r := DoInitializeChecklist(st, e); StOk(c, r.st) && r.st.bucket == st.bucket
  {
    if Call(st, e).Ok? {
      FanOutKeeps(c, Call(st, e).st, e, Recommendations, InitializedChecklist);
      var st' := MoveTo(Call(st, e).st, WaitedService);
      ContinueKeeps(c, st'.(body := st'.body.(lastUpdate := e.t1)), e, false);
    }
  }

  lemma SimpleKeeps(c: Config, st: St, e: Env, step: Step)
    requires StOk(c, st) && st.body.job.None?
    requires step.SetStarted? || step.UpdateChecklist? || step.SetSucceededNotifiable? || step.SetFailedNotifiable?
    ensures var r := Execute(step, st, e); StOk(c, r.st) && r.st.bucket == st.bucket
  {
  }

  lemma ExecuteKeeps(c: Config, st: St, e: Env, step: Step, bucket: Bucket)
    requires StOk(c, st) && StepOf(st.body) == Some(step) && EnvOk(c, st.body, bucket, e) && st.body.job.None?
    ensures var r := Execute(step, st, e); StOk(c, r.st) && r.st.bucket == st.bucket
  {
    match step {
      case InitializeChecklist => InitializeChecklistKeeps(c, st, e);
      case InitializeArchive => InitializeKeeps(c, st, e, Archive, InitializedArchive);
      case InitializeService => InitializeKeeps(c, st, e, Service, InitializedService);
      case WaitChecklist => WaitKeeps(c, st, e, Recommendations, WaitedChecklist);
      case WaitArchive => WaitKeeps(c, st, e, Archive, WaitedArchive);
      case WaitService => WaitKeeps(c, st, e, Service, WaitedService);
      case CollectCheckResult => CollectKeeps(c, st, e);
      case CheckArchiveResult => CheckArchiveKeeps(c, st, e);
      case _ => SimpleKeeps(c, st, e, step);
    }
  }

  lemma AttemptKeeps(c: Config, st: St, e: Env, step: Step, bucket: Bucket)
    requires StOk(c, st) && StepOf(st.body) == Some(step) && EnvOk(c, st.body, bucket, e)
    ensures var r := Attempt(step, st, e); StOk(c, r.st) && Grows(c, st.bucket, r.st.bucket)
  {
    if st.body.job.Some? {
      ChildKeeps(c, st, e, step);
    } else {
      ExecuteKeeps(c, st, e, step, bucket);
    }
  }

  lemma FinishKeeps(c: Config, r: Run, e: Env, step: Step)
    requires StOk(c, r.st)
    ensures StOk(c, Finish(step, r, e)) && Finish(step, r, e).bucket == r.st.bucket
  {
    if r.Raise? {
      var again := Retry(step, r.st.body, r.exn, e);
      if again.Some? { assert BodyOk(c, again.value); }
    }
  }

  /** Every message a delivery publishes is well-formed, only listed modules are
      stored, and no object of the run is lost. */
  lemma DeliverKeeps(c: Config, b: Body, bucket: Bucket, lastCompleted: Option<int>, e: Env)
    requires BodyOk(c, b) && BucketOk(c, bucket) && EnvOk(c, b, bucket, e)
    ensures var d := Deliver(b, bucket, lastCompleted, e); StOk(c, d) && Grows(c, bucket, d.bucket)
  {
    if StepOf(b).Some? {
      var step := StepOf(b).value;
      var st := Fresh(b, bucket, lastCompleted);
      AttemptKeeps(c, st, e, step, bucket);
      FinishKeeps(c, Attempt(step, st, e), e, step);
    }
  }

  // --- messages ---------------------------------------------------------------

  /** The messages that continue the task with the given job. */
  function For(job: Option<Job>, sent: seq<Msg>): seq<Msg> {
    if sent == [] then []
    else (if sent[0].body.job == job then [sent[0]] else []) + For(job, sent[1..])
  }

  lemma {:induction false} ForSelects(job: Option<Job>, sent: seq<Msg>)
    ensures forall m :: m in For(job, sent) <==> m in sent && m.body.job == job
  {
    if sent != [] { ForSelects(job, sent[1..]); }
  }

  lemma {:induction false} ForConcat(job: Option<Job>, a: seq<Msg>, b: seq<Msg>)
    ensures For(job, a + b) == For(job, a) + For(job, b)
  {
    if a == [] {
      assert a + b == b;
    } else {
      assert (a + b)[1..] == a[1..] + b;
      ForConcat(job, a[1..], b);
    }
  }

  lemma {:induction false} CreateChildrenSends(st: St, e: Env, f: Folder, names: seq<string>)
    ensures var r := CreateChildren(st, e, f, names);
            && r.st == st.(sent := r.st.sent, calls := r.st.calls)
            && For(None, r.st.sent) == For(None, st.sent)
    decreases |names|
  {
    if names != [] {
      var m := At(ChildBody(st.body, e, f, names[0]), false, e.t1);
      var r := Publish(st, e, m);
      if r.Ok? {
        ForConcat(None, st.sent, [m]);
        CreateChildrenSends(r.st, e, f, names[1..]);
      }
    }
  }

  /** Between attempts only these fields change. */
  predicate SameTask(b: Body, b': Body) {
    && b'.org == b.org && b'.createdAt == b.createdAt && b'.checklist == b.checklist
    && b'.maxRetries == b.maxRetries && b'.taskTimeout == b.taskTimeout && b'.waitTimeout == b.waitTimeout
    && b'.job == b.job
  }

  /** A step that succeeds has published the task's next message as its last act,
      unless it is terminal; a step that raises has not published it. */
  predicate SendsOne(terminal: bool, delayed: bool, b: Body, r: Run, e: Env) {
    && For(b.job, r.st.sent) == (if r.Ok? && !terminal then [At(r.st.body, delayed, e.t1)] else [])
    && SameTask(b, r.st.body) && r.st.body.tries == b.tries && r.st.body.reason == b.reason
  }

  lemma ContinueSends(st: St, e: Env, delayed: bool)
    requires For(st.body.job, st.sent) == []
    ensures var r := Continue(st, e, delayed);
            && For(st.body.job, r.st.sent) == (if r.Ok? then [At(st.body, delayed, e.t1)] else [])
            && r.st.body == st.body && r.st.bucket == st.bucket && r.st.lastCompleted == st.lastCompleted
  {
    ForConcat(st.body.job, st.sent, [At(st.body, delayed, e.t1)]);
  }

  lemma FanOutSends(st: St, e: Env, f: Folder, names: seq<string>, target: State)
    requires st.sent == [] && st.body.job.None?
    ensures var r := FanOut(st, e, f, names, target);
            && For(None, r.st.sent) == (if r.Ok? then [At(r.st.body, false, e.t1)] else [])
            && SameTask(st.body, r.st.body) && r.st.body.tries == st.body.tries && r.st.body.reason == st.body.reason
            && r.st.lastCompleted == st.lastCompleted
            && r.st.body.state in {st.body.state, target}
            && (r.Ok? ==> r.st.body.state == target && r.st.body.lastUpdate == e.t1)
  {
    CreateChildrenSends(st, e, f, names);
    var made := CreateChildren(st, e, f, names);
    if made.Ok? {
      var b := made.st.body.(childrenCount := Some(|names|), state := target, lastUpdate := e.t1);
      ForConcat(None, made.st.sent, [At(b, false, e.t1)]);
    }
  }

  lemma InitializeSends(st: St, e: Env, f: Folder, target: State)
    requires st.sent == [] && st.body.job.None?
    ensures SendsOne(false, false, st.body, DoInitialize(st, e, f, target), e)
  {
    var called := Call(st, e);
    if called.Ok? { FanOutSends(called.st, e, f, Enabled(e.installed(f), e.disabled), target); }
  }

  lemma InitializeChecklistSends(st: St, e: Env)
    requires st.sent == [] && st.body.job.None?
    ensures SendsOne(false, false, st.body, DoInitializeChecklist(st, e), e)
  {
    var called := Call(st, e);
    if called.Ok? {
      FanOutSends(called.st, e, Recommendations, Enabled(e.installed(Recommendations), e.disabled), InitializedChecklist);
    }
  }

  lemma CollectSends(st: St, e: Env)
    requires st.sent == []
    ensures SendsOne(false, false, st.body, DoCollect(st, e), e)
  {
    var called := Call(st, e);
    if called.Ok? { ReadAllKeeps(called.st, e, FolderListing(st.body, e, Recommendations)); }
  }

  lemma CheckArchiveSends(st: St, e: Env)
    requires st.sent == []
    ensures SendsOne(false, false, st.body, DoCheckArchive(st, e), e)
  {
    var called := Call(MoveTo(st, CheckedArchiveResult), e);
    if called.Ok? { InspectKeeps(called.st, e, FolderListing(st.body, e, Archive)); }
  }

  lemma WaitSends(st: St, e: Env, f: Folder, target: State)
    requires st.sent == []
    ensures SendsOne(false, true, st.body, DoWait(st, e, f, target), e)
  {
    var called := Call(st, e);
    if called.Ok? {
      ContinueSends(called.st, e, true);
      ContinueSends(MoveTo(called.st.(body := called.st.body.(lastUpdate := e.t1)), target), e, true);
    }
  }

  lemma ProcessSends(st: St, e: Env)
    requires st.sent == [] && st.body.job.Some?
    ensures SendsOne(false, false, st.body, DoProcess(st, e), e)
  {
  }

  lemma SimpleSends(st: St, e: Env, step: Step)
    requires st.sent == [] && (step.SetStarted? || step.UpdateChecklist?)
    ensures SendsOne(false, false, st.body, Execute(step, st, e), e)
  {
  }

  lemma TerminalSends(st: St, e: Env, step: Step)
    requires st.sent == [] && Terminal(step)
    ensures SendsOne(true, false, st.body, Execute(step, st, e), e)
  {
  }

  lemma ExecuteSends(st: St, e: Env, step: Step)
    requires st.sent == [] && StepOf(st.body) == Some(step)
    ensures SendsOne(Terminal(step), Waits(step), st.body, Execute(step, st, e), e)
  {
    match step {
      case InitializeChecklist => InitializeChecklistSends(st, e);
      case InitializeArchive => InitializeSends(st, e, Archive, InitializedArchive);
      case InitializeService => InitializeSends(st, e, Service, InitializedService);
      case CollectCheckResult => CollectSends(st, e);
      case CheckArchiveResult => CheckArchiveSends(st, e);
      case WaitChecklist => WaitSends(st, e, Recommendations, WaitedChecklist);
      case WaitArchive => WaitSends(st, e, Archive, WaitedArchive);
      case WaitService => WaitSends(st, e, Service, WaitedService);
      case Process => ProcessSends(st, e);
      case SetStarted | UpdateChecklist => SimpleSends(st, e, step);
      case _ => TerminalSends(st, e, step);
    }
  }

  lemma AttemptSends(st: St, e: Env, step: Step)
    requires st.sent == [] && StepOf(st.body) == Some(step)
    ensures SendsOne(Terminal(step), Waits(step), st.body, Attempt(step, st, e), e)
  {
    ExecuteSends(st, e, step);
  }

  /** The message that continues the task, among those a delivery published. */
  function LastFor(job: Option<Job>, sent: seq<Msg>): (m: Option<Msg>)
    ensures m.Some? ==> m.value.body.job == job
  {
    ForSelects(job, sent);
    var own := For(job, sent);
    if own == [] then None else Some(own[|own| - 1])
  }

  predicate Raised(b: Body, bucket: Bucket, lastCompleted: Option<int>, e: Env) {
    && StepOf(b).Some?
    && Attempt(StepOf(b).value, Fresh(b, bucket, lastCompleted), e).Raise?
  }

  lemma TerminalLeavesBody(st: St, e: Env, step: Step)
    requires Terminal(step)
    ensures Attempt(step, st, e).st.body == st.body
  {
  }

  lemma FinishSends(step: Step, b: Body, r: Run, e: Env)
    requires SendsOne(Terminal(step), Waits(step), b, r, e) && (Terminal(step) ==> r.st.body == b)
    ensures var again := Retry(step, r.st.body, if r.Raise? then r.exn else Failure, e);
            For(b.job, Finish(step, r, e).sent) ==
              if r.Ok? then (if Terminal(step) then [] else [At(r.st.body, Waits(step), e.t1)])
              else if again.Some? && !e.handlerFault then [At(again.value, Waits(step) || Terminal(step), e.t2)]
              else []
  {
    if r.Raise? {
      var again := Retry(step, r.st.body, r.exn, e);
      if again.Some? && !e.handlerFault {
        ForConcat(b.job, r.st.sent, [At(again.value, Waits(step) || Terminal(step), e.t2)]);
      }
    }
  }

  /** Message conservation. A delivery publishes at most one continuation. It
      publishes one exactly when the step is not terminal and neither raised nor was
      followed by a failed publish in the handler, or when the step is terminal,
      raised, and may still be put back. */
  lemma OneContinuation(b: Body, bucket: Bucket, lastCompleted: Option<int>, e: Env)
    ensures var own := For(b.job, Deliver(b, bucket, lastCompleted, e).sent);
            var raised := Raised(b, bucket, lastCompleted, e);
            && |own| <= 1
            && (|own| == 1 <==>
                  && StepOf(b).Some?
                  && (if Terminal(StepOf(b).value)
                      then raised && !e.handlerFault && b.waitTimeout.Some? && e.t2 - b.lastUpdate <= b.waitTimeout.value
                      else raised ==> !e.handlerFault))
  {
    if StepOf(b).Some? {
      var step := StepOf(b).value;
      var st := Fresh(b, bucket, lastCompleted);
      AttemptSends(st, e, step);
      if Terminal(step) { TerminalLeavesBody(st, e, step); }
      FinishSends(step, b, Attempt(step, st, e), e);
    }
  }
}
