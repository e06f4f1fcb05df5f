/** The pipeline's task objects as they run: each step updates the body and the world
    in place, and is proved to do what its specification function says. */
module BumiWorker {
  import opened Wrappers
  import opened BumiTypes
  import S = BumiSteps

  datatype Outcome = Pass | Fail(exn: Exn) {
    predicate IsFailure() { Fail? }
    function PropagateFailure(): Outcome { this }
  }

  class Task {
    var body: Body
    var bucket: Bucket
    var lastCompleted: Option<int>
    var sent: seq<Msg>
    var calls: nat
    const env: S.Env

    constructor (body: Body, bucket: Bucket, lastCompleted: Option<int>, env: S.Env)
      ensures View() == S.Fresh(body, bucket, lastCompleted) && this.env == env
    {
      this.body, this.bucket, this.lastCompleted := body, bucket, lastCompleted;
      this.sent, this.calls, this.env := [], 0, env;
    }

    function View(): S.St
      reads this
    {
      S.St(body, bucket, lastCompleted, sent, calls)
    }

    /** The object's state and the way the method ended are those of a run. */
    predicate Shows(o: Outcome, r: S.Run)
      reads this
    {
      r == if o.Pass? then S.Ok(View()) else S.Raise(View(), o.exn)
    }

    /** Any external call: it may raise. */
    method Call() returns (o: Outcome)
      modifies this`calls
      ensures Shows(o, S.Call(old(View()), env))
    {
      if calls == env.faultAt { return Fail(Failure); }
      calls := calls + 1;
      return Pass;
    }

    method PutTask(b: Body, delayed: bool, now: int) returns (o: Outcome)
      modifies this`calls, this`sent
      ensures Shows(o, S.Publish(old(View()), env, S.At(b, delayed, now)))
    {
      o := Call();
      if o.Fail? { return; }
      sent := sent + [Msg(b, now + if delayed then DELAY else 0)];
      return Pass;
    }

    method SaveResultToFile(r: Result) returns (o: Outcome)
      requires body.job.Some?
      modifies this`calls, this`bucket
      ensures Shows(o, S.Upload(old(View()), env, r))
    {
      o := Call();
      if o.Fail? { return; }
      bucket := bucket[S.OwnKey(body) := r];
      return Pass;
    }

    method Continue(delayed: bool) returns (o: Outcome)
      modifies this`calls, this`sent
      ensures Shows(o, S.Continue(old(View()), env, delayed))
    {
      o := PutTask(body, delayed, env.t1);
    }

    method UpdateTimeout() returns (o: Outcome)
      modifies this
      ensures Shows(o, S.UpdateTimeout(old(View()), env))
    {
      body := body.(lastUpdate := env.t1);
      o := Continue(false);
    }

    method SetStarted() returns (o: Outcome)
      modifies this
      ensures Shows(o, S.Execute(Step.SetStarted, old(View()), env))
    {
      body := body.(state := Started);
      o := UpdateTimeout();
    }

    method CreateChildren(f: Folder, names: seq<string>) returns (o: Outcome)
      modifies this`calls, this`sent
      ensures Shows(o, S.CreateChildren(old(View()), env, f, names))
    {
      for i := 0 to |names|
        invariant body == old(body) && bucket == old(bucket) && lastCompleted == old(lastCompleted)
        invariant S.CreateChildren(old(View()), env, f, names) == S.CreateChildren(View(), env, f, names[i..])
      {
        assert names[i..][1..] == names[i+1..];
        :- PutTask(S.ChildBody(body, env, f, names[i]), false, env.t1);
      }
      return Pass;
    }

    method ListModules(f: Folder) returns (o: Outcome, names: seq<string>)
      modifies this`calls
      ensures Shows(o, S.Call(old(View()), env))
      ensures o.Pass? ==> names == Enabled(env.installed(f), env.disabled)
    {
      names := [];
      o := Call();
      if o.Pass? { names := WithoutDisabled(env.installed(f), env.disabled); }
    }

    static method WithoutDisabled(modules: seq<string>, disabled: set<string>) returns (names: seq<string>)
      ensures names == Enabled(modules, disabled)
    {
      names := [];
      assert modules[0..] == modules;
      hide Enabled;
      for i := 0 to |modules|
        invariant names + Enabled(modules[i..], disabled) == Enabled(modules, disabled)
      {
        EnabledNext(modules, i, disabled);
        if modules[i] !in disabled { names := names + [modules[i]]; }
      }
      EnabledEnds(modules, disabled);
    }

    static lemma EnabledNext(modules: seq<string>, i: nat, disabled: set<string>)
      requires i < |modules|
      ensures Enabled(modules[i..], disabled) ==
                if modules[i] in disabled then Enabled(modules[i+1..], disabled)
                else [modules[i]] + Enabled(modules[i+1..], disabled)
    {
      assert modules[i..][0] == modules[i] && modules[i..][1..] == modules[i+1..];
    }

    static lemma EnabledEnds(modules: seq<string>, disabled: set<string>)
      ensures Enabled(modules[|modules|..], disabled) == []
    {
    }

    method InitializeChecklist() returns (o: Outcome)
      modifies this
      ensures Shows(o, S.DoInitializeChecklist(old(View()), env))
    {
      var names: seq<string>;
      o, names := ListModules(Recommendations);
      if o.Fail? { return o; }
      if names == [] {
        body := body.(state := WaitedService);
      } else {
        o := CreateChildren(Recommendations, names);
        if o.Fail? { return; }
        body := body.(childrenCount := Some(|names|));
        body := body.(state := InitializedChecklist);
      }
      o := UpdateTimeout();
    }

    /** InitializeService, and InitializeArchive which inherits from it. */
    method Initialize(f: Folder, target: State) returns (o: Outcome)
      modifies this
      ensures Shows(o, S.DoInitialize(old(View()), env, f, target))
    {
      var names: seq<string>;
      o, names := ListModules(f);
      if o.Fail? { return o; }
      :- CreateChildren(f, names);
      body := body.(childrenCount := Some(|names|));
      body := body.(state := target);
      o := UpdateTimeout();
    }

    method WaitTasksResult(f: Folder, target: State) returns (o: Outcome)
      modifies this
      ensures Shows(o, S.DoWait(old(View()), env, f, target))
    {
      o := Call();
      if o.Fail? { return; }
      if body.childrenCount.None? { return Fail(Failure); }
      if |S.FolderListing(body, env, f)| == body.childrenCount.value {
        body := body.(lastUpdate := env.t1);
        body := body.(state := target);
      }
      o := Continue(true);
    }

    method CollectCheckResult() returns (o: Outcome)
      modifies this
      ensures Shows(o, S.DoCollect(old(View()), env))
    {
      o := Call();
      if o.Fail? { return; }
      var keys := S.FolderListing(body, env, Recommendations);
      ghost var listed := View();
      var needRaise := false;
      for i := 0 to |keys|
        invariant body == old(body) && bucket == old(bucket) && lastCompleted == old(lastCompleted) && sent == old(sent)
        invariant S.ReadAll(listed, env, keys) == S.ReadAll(View(), env, keys[i..])
        invariant needRaise <==> exists k :: k in keys[..i] && S.TimedOut(env, k)
      {
        assert keys[i..][1..] == keys[i+1..];
        assert keys[..i+1] == keys[..i] + [keys[i]];
        :- Call();
        if S.TimedOut(env, keys[i]) { needRaise := true; }
      }
      assert keys[..|keys|] == keys;
      if keys != [] { :- Call(); }
      body := body.(state := if needRaise then Error else CollectedCheckResult);
      o := UpdateTimeout();
    }

    method CheckArchiveResult() returns (o: Outcome)
      modifies this
      ensures Shows(o, S.DoCheckArchive(old(View()), env))
    {
      body := body.(state := CheckedArchiveResult);
      :- Call();
      var keys := S.FolderListing(body, env, Archive);
      ghost var listed := View();
      var i := 0;
      while i < |keys|
        invariant 0 <= i <= |keys|
        invariant body == listed.body && bucket == listed.bucket
        invariant lastCompleted == listed.lastCompleted && sent == listed.sent
        invariant S.Inspect(listed, env, keys) == S.Inspect(View(), env, keys[i..])
      {
        assert keys[i..][1..] == keys[i+1..];
        :- Call();
        if S.Erroneous(env, keys[i]) {
          body := body.(state := Error);
          break;
        }
        i := i + 1;
      }
      o := UpdateTimeout();
    }

    method UpdateChecklist() returns (o: Outcome)
      modifies this
      ensures Shows(o, S.DoUpdateChecklist(old(View()), env))
    {
      o := Call();
      if o.Fail? { return; }
      lastCompleted := Some(body.createdAt);
      body := body.(state := UpdatedChecklist);
      o := Continue(false);
    }

    method SetFailed() returns (o: Outcome)
      modifies this
      ensures Shows(o, S.DoFail(old(View()), env))
    {
      if body.job.None? {
        o := Call();
        if o.Fail? { return; }
        lastCompleted := Some(body.createdAt);
      }
      return Pass;
    }

    method SetFailedNotifiable() returns (o: Outcome)
      modifies this
      ensures Shows(o, S.DoFailNotifiable(old(View()), env))
    {
      o := Call();
      if o.Fail? { return; }
      o := SetFailed();
    }

    method Process() returns (o: Outcome)
      requires body.job.Some?
      modifies this
      ensures Shows(o, S.DoProcess(old(View()), env))
    {
      o := Call();
      if o.Fail? { return; }
      if body.job.value.name in env.disabled {
        o := SaveResultToFile(Result(None, None));
        if o.Fail? { return; }
      } else {
        o := SaveResultToFile(S.ResultOf(env.run));
        if o.Fail? { return; }
      }
      body := body.(state := Processed);
      o := UpdateTimeout();
    }

    method Cleanup() returns (o: Outcome)
      modifies this
      ensures Shows(o, S.DoCleanup(old(View()), env))
    {
      hide Contains;
      :- Call();
      var keys := S.Listing(env, OfOrg(body.org));
      var stale: set<Key> := {};
      for i := 0 to |keys|
        invariant stale == S.Stale(body, keys[..i])
      {
        assert keys[..i+1] == keys[..i] + [keys[i]];
        if S.OtherRun(body, keys[i]) { stale := stale + {keys[i]}; }
      }
      assert keys[..|keys|] == keys;
      if stale != {} {
        o := Call();
        if o.Fail? { return; }
        bucket := bucket - stale;
      }
      return Pass;
    }

    method CheckTimeout(step: Step) returns (o: Outcome)
      requires step == Step.Process ==> body.job.Some?
      modifies this
      ensures Shows(o, S.Check(step, old(View()), env))
    {
      match step {
        case SetStarted | InitializeChecklist | CollectCheckResult | InitializeArchive
           | CheckArchiveResult | InitializeService =>
          if env.t0 - body.lastUpdate > body.taskTimeout { return Fail(TaskTimeout); }
        case WaitChecklist | WaitArchive | WaitService =>
          if body.waitTimeout.None? { return Fail(Failure); }
          if env.t0 - body.lastUpdate > body.waitTimeout.value { return Fail(WaitTimeout); }
        case Process =>
          if env.t0 - body.lastUpdate > body.taskTimeout {
            o := SaveResultToFile(Result(None, Some(S.TIMEOUT_TEXT)));
            if o.Fail? { return; }
            return Fail(TaskTimeout);
          }
        case _ =>
      }
      return Pass;
    }

    method ExecuteStep(step: Step) returns (o: Outcome)
      requires step == Step.Process ==> body.job.Some?
      modifies this
      ensures Shows(o, S.Execute(step, old(View()), env))
    {
      match step {
        case SetStarted => o := SetStarted();
        case InitializeChecklist => o := InitializeChecklist();
        case WaitChecklist => o := WaitTasksResult(Recommendations, WaitedChecklist);
        case CollectCheckResult => o := CollectCheckResult();
        case InitializeArchive => o := Initialize(Archive, InitializedArchive);
        case WaitArchive => o := WaitTasksResult(Archive, WaitedArchive);
        case CheckArchiveResult => o := CheckArchiveResult();
        case InitializeService => o := Initialize(Service, InitializedService);
        case WaitService => o := WaitTasksResult(Service, WaitedService);
        case UpdateChecklist => o := UpdateChecklist();
        case SetSucceededNotifiable => o := Call();
        case SetFailedNotifiable => o := SetFailedNotifiable();
        case Process => o := Process();
        case Cleanup => o := Cleanup();
        case SetFailed => o := SetFailed();
      }
    }

    method HandleException(step: Step, x: Exn)
      modifies this
      ensures View() == S.Handle(step, old(View()), x, env)
    {
      if Terminal(step) {
        if body.waitTimeout.Some? && env.t2 - body.lastUpdate <= body.waitTimeout.value && !env.handlerFault {
          sent := sent + [S.At(body, true, env.t2)];
        }
        return;
      }
      if S.Waits(step) { body := body.(lastUpdate := env.t2); }
      if x == Failure && body.tries < body.maxRetries {
        body := body.(tries := body.tries + 1);
      } else {
        body := body.(reason := Some(x), state := Error);
      }
      if !env.handlerFault { sent := sent + [S.At(body, S.Waits(step), env.t2)]; }
    }

    /** A whole delivery, from the table lookup to the ack. */
    method ProcessTask()
      requires View() == S.Fresh(body, bucket, lastCompleted)
      modifies this
      ensures View() == S.Deliver(old(body), old(bucket), old(lastCompleted), env)
    {
      var entry := StepOf(body);
      if entry.None? { return; }
      var step := entry.value;
      var o := CheckTimeout(step);
      if o.Pass? { o := ExecuteStep(step); }
      if o.Fail? { HandleException(step, o.exn); }
    }
  }
}
