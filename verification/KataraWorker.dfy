/** The report worker's task objects as they run: each step updates the task through the
    API and the body in place, and is proved to do what its specification function says. */
module KataraWorker {
  import opened Wrappers
  import K = Katara

  datatype Outcome = Pass | Fail(exn: K.Exn) {
    predicate IsFailure() { Fail? }
    function PropagateFailure(): Outcome { this }
  }

  class TaskStep {
    var body: K.Body
    var task: K.Task
    var born: seq<K.Task>
    var posted: nat
    var sent: seq<K.Body>
    var calls: nat
    const env: K.Env

    constructor (body: K.Body, task: K.Task, env: K.Env)
      ensures View() == K.Fresh(body, task) && this.env == env
    {
      this.body, this.task, this.env := body, task, env;
      this.born, this.posted, this.sent, this.calls := [], 0, [], 0;
    }

    function View(): K.St
      reads this
    {
      K.St(body, task, born, posted, sent, calls)
    }

    /** The object's state and the way the method ended are those of a run. */
    predicate Shows(o: Outcome, r: K.Run)
      reads this
    {
      r == if o.Pass? then K.Ok(View()) else K.Raise(View(), o.exn)
    }

    method Call() returns (o: Outcome)
      modifies this`calls
      ensures Shows(o, K.Call(old(View()), env))
    {
      if calls == env.faultAt { return Fail(K.Failure); }
      calls := calls + 1;
      return Pass;
    }

    method TaskUpdate(t: K.Task) returns (o: Outcome)
      modifies this`calls, this`task
      ensures Shows(o, K.Update(old(View()), env, t))
    {
      o := Call();
      if o.Pass? || env.applied { task := t; }
    }

    method TasksCreate(tasks: seq<K.Task>) returns (o: Outcome)
      modifies this`calls, this`born
      ensures Shows(o, K.Create(old(View()), env, tasks))
    {
      o := Call();
      if o.Pass? || env.applied { born := born + tasks; }
    }

    method PutTask() returns (o: Outcome)
      modifies this`calls, this`sent
      ensures Shows(o, K.Publish(old(View()), env))
    {
      o := Call();
      if o.Fail? { return; }
      sent := sent + [body];
      return Pass;
    }

    method CheckTimeoutThreshold() returns (o: Outcome)
      modifies this
      ensures Shows(o, K.Advance(old(View()), env))
    {
      if env.now - body.lastUpdate > K.MAX_UPDATE_THRESHOLD { return Fail(K.Timeout); }
      body := body.(lastUpdate := env.now);
      o := PutTask();
    }

    method SetCompleted() returns (o: Outcome)
      modifies this
      ensures Shows(o, K.Complete(old(View()), env))
    {
      o := TaskUpdate(task.(state := K.Completed));
    }

    method SetState(s: K.State) returns (o: Outcome)
      modifies this
      ensures Shows(o, K.Move(old(View()), env, s))
    {
      o := TaskUpdate(task.(state := s));
      if o.Fail? { return; }
      o := CheckTimeoutThreshold();
    }

    method GetScopes() returns (o: Outcome)
      modifies this
      ensures Shows(o, K.GetScopes(old(View()), env))
    {
      o := Call();
      if o.Fail? { return; }
      if !env.recipient {
        o := SetCompleted();
        return;
      }
      :- Call();
      if env.orgDisabled {
        body := body.(disabled := true);
        return Fail(K.Failure);
      }
      :- Call();
      :- TaskUpdate(task.(scopes := Some(env.scopes), state := K.GotScopes));
      o := CheckTimeoutThreshold();
    }

    /** list.remove: takes out the first equal entry. */
    static method Remove(s: seq<K.UserRole>, r: K.UserRole) returns (kept: seq<K.UserRole>)
      ensures kept == K.RemoveFirst(s, r)
    {
      var i := 0;
      while i < |s| && s[i] != r
        invariant i <= |s| && K.RemoveFirst(s, r) == s[..i] + K.RemoveFirst(s[i..], r)
      {
        assert s[i..][1..] == s[i+1..] && s[..i] + [s[i]] == s[..i+1];
        i := i + 1;
      }
      assert i < |s| ==> s[i..][0] == r && s[i..][1..] == s[i+1..];
      kept := s[..i] + if i < |s| then s[i+1..] else [];
    }

    /** Removes, over a copy, the entries of users already seen. */
    static method RemoveDuplicates(roles: seq<K.UserRole>) returns (kept: seq<K.UserRole>)
      ensures kept == K.WithoutDuplicates(roles)
      ensures K.DistinctUsers(kept) && forall r :: r in kept <==> K.IsFirst(roles, r)
    {
      kept := roles;
      var ids: set<string> := {};
      for i := 0 to |roles|
        invariant K.RemoveSeen(kept, roles[i..], ids) == K.WithoutDuplicates(roles)
      {
        assert roles[i..][0] == roles[i] && roles[i..][1..] == roles[i+1..];
        if roles[i].user in ids {
          kept := Remove(kept, roles[i]);
        } else {
          ids := ids + {roles[i].user};
        }
      }
      K.DuplicatesRemoved(roles);
    }

    method GetRecipients() returns (o: Outcome)
      modifies this
      ensures Shows(o, K.GetRecipients(old(View()), env))
    {
      o := Call();
      if o.Fail? { return; }
      if !env.recipient {
        o := SetCompleted();
        return;
      }
      if task.scopes.None? { return Fail(K.Failure); }
      :- Call();
      if env.roles == [] {
        o := SetCompleted();
        return;
      }
      var kept := RemoveDuplicates(env.roles);
      :- TaskUpdate(task.(roles := Some(kept), state := K.GotRecipients));
      o := CheckTimeoutThreshold();
    }

    method SetGeneratingReportData() returns (o: Outcome)
      modifies this
      ensures Shows(o, K.SetGeneratingReportData(old(View()), env))
    {
      o := Call();
      if o.Fail? { return; }
      if task.roles.None? { return Fail(K.Failure); }
      var roles := task.roles.value;
      var tasks: seq<K.Task> := [];
      for i := 0 to |roles|
        invariant tasks == K.Children(View(), roles)[..i]
      {
        tasks := tasks + [K.Task(K.CheckingEmailSettings, task.scopes, None, Some(roles[i]), false, Some(body.task))];
      }
      :- TasksCreate(tasks);
      o := SetCompleted();
    }

    method CheckingEmployeeEmailSettings() returns (o: Outcome)
      modifies this
      ensures Shows(o, K.CheckEmail(old(View()), env))
    {
      o := Call();
      if o.Fail? { return; }
      if task.role.None? { return Fail(K.Failure); }
      :- Call();
      if !env.employee {
        o := SetCompleted();
        return;
      }
      if !env.templateKnown { return Fail(K.Failure); }
      :- Call();
      if !env.emailEnabled {
        o := SetCompleted();
        return;
      }
      o := SetState(K.GeneratingData);
    }

    method GenerateReportData() returns (o: Outcome)
      modifies this
      ensures Shows(o, K.GenerateReportData(old(View()), env))
    {
      o := Call();
      if o.Fail? { return; }
      if task.role.None? { return Fail(K.Failure); }
      :- Call();
      if !env.report {
        o := SetCompleted();
        return;
      }
      :- Call();
      :- TaskUpdate(task.(url := true, state := K.GeneratedData));
      o := CheckTimeoutThreshold();
    }

    method PutToHerald() returns (o: Outcome)
      modifies this
      ensures Shows(o, K.PutToHerald(old(View()), env))
    {
      o := Call();
      if o.Fail? { return; }
      if !task.url {
        o := SetCompleted();
        return;
      }
      var post := Call();
      if post.Pass? {
        posted := posted + 1;
        o := SetCompleted();
        return;
      }
      if env.applied { posted := posted + 1; }
      // the completion is still made, and its own failure takes the place of the posting's
      calls := calls + 1;
      if !env.closing.LeftOpen? { task := task.(state := K.Completed); }
      return post;
    }

    method Execute() returns (o: Outcome)
      modifies this
      ensures Shows(o, K.Execute(old(View()), env))
    {
      match task.state
      case Created => o := SetState(K.Started);
      case Started => o := SetState(K.GettingScopes);
      case GettingScopes => o := GetScopes();
      case GotScopes => o := SetState(K.GettingRecipients);
      case GettingRecipients => o := GetRecipients();
      case GotRecipients => o := SetGeneratingReportData();
      case CheckingEmailSettings => o := CheckingEmployeeEmailSettings();
      case GeneratingData => o := GenerateReportData();
      case GeneratedData => o := SetState(K.PuttingToHerald);
      case PuttingToHerald => o := PutToHerald();
      case Completed => o := Pass;
      case Error => o := Pass;
    }

    method HandleException(exn: K.Exn)
      modifies this
      ensures View() == K.Handle(old(View()), env, exn)
    {
      if K.CanContinue(View(), exn) {
        body := body.(tries := body.tries + 1);
        if env.handlerFaultAt != 0 { sent := sent + [body]; }
      } else {
        // SetFailed: read the task, look up its organization, mark it
        if env.handlerFaultAt == 0 || !env.recipient || env.handlerFaultAt == 1 || env.handlerFaultAt == 2 { return; }
        task := task.(state := K.Error);
      }
    }

    /** Handles one message of the queue. */
    method ProcessTask()
      requires View() == K.Fresh(body, task)
      modifies this
      ensures View() == K.Deliver(old(body), old(task), env)
    {
      if task.state.Completed? || task.state.Error? { return; }
      var o := Call();
      if o.Fail? { return; }
      o := Execute();
      if o.Fail? { HandleException(o.exn); }
    }
  }
}
