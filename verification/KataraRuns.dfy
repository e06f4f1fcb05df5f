/** Whole runs of the report worker: what every delivery keeps, how long a chain of
    messages is, and what a run without failures leaves behind. */
module KataraRuns {
  import opened Wrappers
  import opened Katara

  predicate Terminal(s: State) { s.Completed? || s.Error? }

  function Rank(s: State): nat {
    match s
    case Created => 0 case Started => 1 case GettingScopes => 2 case GotScopes => 3
    case GettingRecipients => 4 case GotRecipients => 5
    case CheckingEmailSettings => 6 case GeneratingData => 7 case GeneratedData => 8 case PuttingToHerald => 9
    case Completed => 10 case Error => 10
  }

  /** What a run of a step may leave: at most one continuation, and none if it raises;
      the task never goes back; children and the report come from one step each. */
  predicate Progress(task: Task, body: Body, r: Run, now: int) {
    && Rank(r.st.task.state) >= Rank(task.state)
    && r.st.body.task == body.task && r.st.body.tries == body.tries
    && |r.st.sent| <= 1
    && (r.Raise? ==> r.st.sent == [])
    && (r.st.sent != [] ==> r.st.sent == [r.st.body] && Rank(r.st.task.state) > Rank(task.state) && r.st.body.lastUpdate == now)
    && (r.st.born != [] ==> task.state.GotRecipients?)
    && (r.st.posted > 0 ==> task.state.PuttingToHerald?) && r.st.posted <= 1
    && (r.Ok? && r.st.sent == [] ==> r.st.task.state.Completed?)
  }

  /** A delivery that has done nothing but read the task. */
  predicate Untouched(st: St) { st.born == [] && st.posted == 0 && st.sent == [] && !Terminal(st.task.state) }

  lemma MoveProgresses(st: St, e: Env, s: State)
    requires Untouched(st) && Rank(s) > Rank(st.task.state)
    ensures Progress(st.task, st.body, Move(st, e, s), e.now)
  {
  }

  lemma GetScopesProgresses(st: St, e: Env)
    requires Untouched(st) && st.task.state.GettingScopes?
    ensures Progress(st.task, st.body, GetScopes(st, e), e.now)
  {
  }

  lemma GetRecipientsProgresses(st: St, e: Env)
    requires Untouched(st) && st.task.state.GettingRecipients?
    ensures Progress(st.task, st.body, GetRecipients(st, e), e.now)
  {
    hide WithoutDuplicates;
  }

  lemma SetGeneratingReportDataProgresses(st: St, e: Env)
    requires Untouched(st) && st.task.state.GotRecipients?
    ensures Progress(st.task, st.body, SetGeneratingReportData(st, e), e.now)
  {
    hide Children;
  }

  lemma CheckEmailProgresses(st: St, e: Env)
    requires Untouched(st) && st.task.state.CheckingEmailSettings?
    ensures Progress(st.task, st.body, CheckEmail(st, e), e.now)
  {
  }

  lemma GenerateReportDataProgresses(st: St, e: Env)
    requires Untouched(st) && st.task.state.GeneratingData?
    ensures Progress(st.task, st.body, GenerateReportData(st, e), e.now)
  {
  }

  lemma PutToHeraldProgresses(st: St, e: Env)
    requires Untouched(st) && st.task.state.PuttingToHerald?
    ensures Progress(st.task, st.body, PutToHerald(st, e), e.now)
  {
  }

  lemma StepProgresses(st: St, e: Env)
    requires Untouched(st)
    ensures Progress(st.task, st.body, Execute(st, e), e.now)
  {
    hide Progress, Move, GetScopes, GetRecipients, SetGeneratingReportData, CheckEmail, GenerateReportData, PutToHerald;
    match st.task.state
    case Created => MoveProgresses(st, e, Started);
    case Started => MoveProgresses(st, e, GettingScopes);
    case GettingScopes => GetScopesProgresses(st, e);
    case GotScopes => MoveProgresses(st, e, GettingRecipients);
    case GettingRecipients => GetRecipientsProgresses(st, e);
    case GotRecipients => SetGeneratingReportDataProgresses(st, e);
    case CheckingEmailSettings => CheckEmailProgresses(st, e);
    case GeneratingData => GenerateReportDataProgresses(st, e);
    case GeneratedData => MoveProgresses(st, e, PuttingToHerald);
    case PuttingToHerald => PutToHeraldProgresses(st, e);
    case Completed =>
    case Error =>
  }

  /** Each delivery that is followed by another either moves the task forward with the
      retries unchanged, or consumes a retry; otherwise it ends the chain. */
  lemma DeliveryMovesOrEnds(body: Body, task: Task, e: Env)
    requires body.tries <= MAX_RETRIES
    ensures var d := Deliver(body, task, e);
            && |d.sent| <= 1 && Rank(d.task.state) >= Rank(task.state)
            && forall b :: b in d.sent ==>
                 && b.task == body.task && b.tries <= MAX_RETRIES
                 && if b.tries == body.tries then Rank(d.task.state) > Rank(task.state) && b.lastUpdate == e.now
                    else b.tries == body.tries + 1
  {
    var st := Fresh(body, task);
    if !Terminal(task.state) && Call(st, e).Ok? { StepProgresses(Call(st, e).st, e); }
    hide Execute;
  }

  /** A terminal task absorbs every later delivery. */
  lemma TerminalAbsorbs(body: Body, task: Task, e: Env)
    requires Terminal(task.state)
    ensures Deliver(body, task, e) == Fresh(body, task)
  {
  }

  /** One delivery of a chain. */
  datatype Link = Link(body: Body, task: Task, env: Env)

  predicate Chain(links: seq<Link>) {
    forall i, j :: 0 <= i && j == i + 1 < |links| ==>
      var d := Deliver(links[i].body, links[i].task, links[i].env);
      d.sent == [links[j].body] && Rank(d.task.state) <= Rank(links[j].task.state)
  }

  /** A chain of deliveries, each of the message the one before published, is no longer
      than the stages and retries left when it starts; so every chain ends. */
  lemma {:induction false} ChainsAreBounded(links: seq<Link>)
    requires Chain(links) && links != [] && links[0].body.tries <= MAX_RETRIES
    ensures |links| <= 1 + (10 - Rank(links[0].task.state)) + (MAX_RETRIES - links[0].body.tries)
  {
    if |links| > 1 {
      var l := links[0];
      DeliveryMovesOrEnds(l.body, l.task, l.env);
      var d := Deliver(l.body, l.task, l.env);
      assert links[1].body in d.sent;
      hide Deliver;
      assert forall i :: 0 <= i < |links| - 1 ==> links[1..][i] == links[i+1];
      ChainsAreBounded(links[1..]);
    }
  }

  // --- runs without failures -----------------------------------------------------------

  /** The tasks, the live message of each, and the reports posted. */
  datatype Sys = Sys(tasks: seq<Task>, live: map<nat, Body>, herald: seq<nat>)

  /** No call raises, nothing times out, the organization is enabled and the report's mail
      template is known. */
  predicate Clean(e: Env, b: Body) {
    && e.faultAt > 10 && e.now - b.lastUpdate <= MAX_UPDATE_THRESHOLD
    && !e.orgDisabled && e.templateKnown
  }

  function Births(first: nat, n: nat, now: int): map<nat, Body> {
    map id: nat | first <= id < first + n :: Body(id, 0, now, false)
  }

  function Step(s: Sys, id: nat, e: Env): Sys
    requires id < |s.tasks| && id in s.live
  {
    var d := Deliver(s.live[id], s.tasks[id], e);
    Sys(s.tasks[id := d.task] + d.born,
        (if d.sent == [] then s.live - {id} else s.live[id := d.sent[0]]) + Births(|s.tasks|, |d.born|, e.now),
        if d.posted > 0 then s.herald + [id] else s.herald)
  }

  predicate TaskOk(t: Task) {
    match t.state
    case Created | Started | GettingScopes => t.roles.None? && t.role.None? && !t.url && t.parent.None?
    case GotScopes | GettingRecipients => t.scopes.Some? && t.roles.None? && t.role.None? && !t.url && t.parent.None?
    case GotRecipients => t.roles.Some? && DistinctUsers(t.roles.value) && t.role.None? && !t.url && t.parent.None?
    case CheckingEmailSettings | GeneratingData => t.role.Some? && t.roles.None? && !t.url && t.parent.Some?
    case GeneratedData | PuttingToHerald => t.role.Some? && t.roles.None? && t.url && t.parent.Some?
    case Completed => (t.roles.Some? ==> DistinctUsers(t.roles.value) && t.parent.None?) && (t.role.Some? <==> t.parent.Some?)
                      && (t.url ==> t.parent.Some?)
    case Error => false
  }

  /** The recipients of a task's children, in the order of creation. */
  function Offspring(tasks: seq<Task>, id: nat): seq<UserRole> {
    if tasks == [] then []
    else
      var t := tasks[|tasks| - 1];
      Offspring(tasks[..|tasks| - 1], id) + if t.parent == Some(id) && t.role.Some? then [t.role.value] else []
  }

  /** Whom a task's children must serve. */
  function Served(t: Task): seq<UserRole> { if t.state.Completed? && t.roles.Some? then t.roles.value else [] }

  function Count(s: seq<nat>, id: nat): nat { multiset(s)[id] }

  ghost predicate InvAt(s: Sys, id: nat) {
    && (id < |s.tasks| ==> TaskOk(s.tasks[id]))
    && (id in s.live <==> id < |s.tasks| && !Terminal(s.tasks[id].state))
    && (id in s.live ==> s.live[id].task == id)
    && Count(s.herald, id) == (if id < |s.tasks| && s.tasks[id].state.Completed? && s.tasks[id].url then 1 else 0)
    && Offspring(s.tasks, id) == if id < |s.tasks| then Served(s.tasks[id]) else []
  }

  ghost predicate Inv(s: Sys) { forall id: nat :: InvAt(s, id) }

  /** What a clean delivery of a well-formed task does to it. */
  predicate CleanDelivery(b: Body, t: Task, d: St) {
    && TaskOk(d.task) && d.task.parent == t.parent && d.task.role == t.role
    && (t.roles.Some? ==> d.task.roles == t.roles)
    && (d.sent == [] <==> Terminal(d.task.state)) && (d.sent != [] ==> |d.sent| == 1 && d.sent[0].task == b.task)
    && (d.posted > 0 <==> d.task.state.Completed? && d.task.url)
    && |d.born| == |Served(d.task)|
    && (forall i :: 0 <= i < |d.born| ==>
          && d.born[i] == Task(CheckingEmailSettings, t.scopes, None, Some(Served(d.task)[i]), false, Some(b.task))
          && TaskOk(d.born[i]))
  }

  predicate CleanRun(b: Body, t: Task, r: Run) { r.Ok? && CleanDelivery(b, t, r.st) }

  lemma CleanMove(st: St, e: Env, s: State)
    requires Untouched(st) && st.calls <= 5 && Clean(e, st.body) && TaskOk(st.task.(state := s)) && !Terminal(s)
    ensures CleanRun(st.body, st.task, Move(st, e, s))
  {
  }

  lemma CleanGetScopes(st: St, e: Env)
    requires Untouched(st) && st.calls == 1 && Clean(e, st.body) && TaskOk(st.task) && st.task.state.GettingScopes?
    ensures CleanRun(st.body, st.task, GetScopes(st, e))
  {
  }

  lemma CleanGetRecipients(st: St, e: Env)
    requires Untouched(st) && st.calls == 1 && Clean(e, st.body) && TaskOk(st.task) && st.task.state.GettingRecipients?
    ensures CleanRun(st.body, st.task, GetRecipients(st, e))
  {
    hide DistinctUsers, WithoutDuplicates;
    DuplicatesRemoved(e.roles);
  }

  lemma SetGeneratingIs(st: St, e: Env)
    requires Untouched(st) && st.calls == 1 && e.faultAt > 10 && st.task.roles.Some?
    ensures SetGeneratingReportData(st, e)
              == Ok(st.(calls := 4, born := Children(st.(calls := 2), st.task.roles.value), task := st.task.(state := Completed)))
  {
    hide Children;
    var born := Children(st.(calls := 2), st.task.roles.value);
    assert [] + born == born;
  }

  lemma CleanSetGeneratingReportData(st: St, e: Env)
    requires Untouched(st) && st.calls == 1 && Clean(e, st.body) && TaskOk(st.task) && st.task.state.GotRecipients?
    ensures CleanRun(st.body, st.task, SetGeneratingReportData(st, e))
  {
    SetGeneratingIs(st, e);
    ChildrenOk(st.(calls := 2), st.task.roles.value);
    hide Children, DistinctUsers, SetGeneratingReportData;
  }

  lemma ChildrenOk(st: St, roles: seq<UserRole>)
    ensures |Children(st, roles)| == |roles|
    ensures forall i :: 0 <= i < |roles| ==>
              var c := Children(st, roles)[i];
              c == Task(CheckingEmailSettings, st.task.scopes, None, Some(roles[i]), false, Some(st.body.task)) && TaskOk(c)
  {
  }

  lemma CleanCheckEmail(st: St, e: Env)
    requires Untouched(st) && st.calls == 1 && Clean(e, st.body) && TaskOk(st.task) && st.task.state.CheckingEmailSettings?
    ensures CleanRun(st.body, st.task, CheckEmail(st, e))
  {
  }

  lemma CleanGenerateReportData(st: St, e: Env)
    requires Untouched(st) && st.calls == 1 && Clean(e, st.body) && TaskOk(st.task) && st.task.state.GeneratingData?
    ensures CleanRun(st.body, st.task, GenerateReportData(st, e))
  {
  }

  lemma CleanPutToHerald(st: St, e: Env)
    requires Untouched(st) && st.calls == 1 && Clean(e, st.body) && TaskOk(st.task) && st.task.state.PuttingToHerald?
    ensures CleanRun(st.body, st.task, PutToHerald(st, e))
  {
  }

  lemma CleanDelivers(b: Body, t: Task, e: Env)
    requires TaskOk(t) && !Terminal(t.state) && Clean(e, b)
    ensures CleanDelivery(b, t, Deliver(b, t, e))
  {
    var st := Call(Fresh(b, t), e).st;
    hide CleanDelivery, Move, GetScopes, GetRecipients, SetGeneratingReportData, CheckEmail, GenerateReportData, PutToHerald;
    match t.state
    case Created => CleanMove(st, e, Started);
    case Started => CleanMove(st, e, GettingScopes);
    case GettingScopes => CleanGetScopes(st, e);
    case GotScopes => CleanMove(st, e, GettingRecipients);
    case GettingRecipients => CleanGetRecipients(st, e);
    case GotRecipients => CleanSetGeneratingReportData(st, e);
    case CheckingEmailSettings => CleanCheckEmail(st, e);
    case GeneratingData => CleanGenerateReportData(st, e);
    case GeneratedData => CleanMove(st, e, PuttingToHerald);
    case PuttingToHerald => CleanPutToHerald(st, e);
    case Completed =>
    case Error =>
  }

  // --- the invariant of clean runs --------------------------------------------------------

  lemma {:induction false} OffspringOfMore(tasks: seq<Task>, more: seq<Task>, id: nat, roles: seq<UserRole>, parent: nat)
    requires |more| == |roles|
    requires forall i :: 0 <= i < |more| ==> more[i].parent == Some(parent) && more[i].role == Some(roles[i])
    ensures Offspring(tasks + more, id) == Offspring(tasks, id) + if id == parent then roles else []
  {
    if more == [] {
      assert tasks + more == tasks;
    } else {
      var n := |more| - 1;
      OffspringOfMore(tasks, more[..n], id, roles[..n], parent);
      OffspringSnoc(tasks + more[..n], more[n], id);
      assert tasks + more == tasks + more[..n] + [more[n]];
      assert roles == roles[..n] + [roles[n]];
    }
  }

  lemma OffspringSnoc(tasks: seq<Task>, t: Task, id: nat)
    ensures Offspring(tasks + [t], id) == Offspring(tasks, id) + if t.parent == Some(id) && t.role.Some? then [t.role.value] else []
  {
    assert (tasks + [t])[..|tasks|] == tasks;
  }

  lemma {:induction false} OffspringSame(tasks: seq<Task>, i: nat, t: Task, id: nat)
    requires i < |tasks| && t.parent == tasks[i].parent && t.role == tasks[i].role
    ensures Offspring(tasks[i := t], id) == Offspring(tasks, id)
  {
    var n := |tasks| - 1;
    if i == n {
      assert tasks[i := t][..n] == tasks[..n];
    } else {
      assert tasks[i := t][..n] == tasks[..n][i := t];
      OffspringSame(tasks[..n], i, t, id);
    }
  }

  /** The tasks, messages and reports of a step, seen from another task. */
  lemma StepLeaves(s: Sys, id: nat, e: Env, j: nat)
    requires id < |s.tasks| && id in s.live && j != id
    ensures var d, s' := Deliver(s.live[id], s.tasks[id], e), Step(s, id, e);
            && |s'.tasks| == |s.tasks| + |d.born| && Count(s'.herald, j) == Count(s.herald, j)
            && (j < |s.tasks| ==> s'.tasks[j] == s.tasks[j] && (j in s'.live <==> j in s.live)
                                  && (j in s.live ==> s'.live[j] == s.live[j]))
            && (|s.tasks| <= j < |s'.tasks| ==> s'.tasks[j] == d.born[j - |s.tasks|] && j in s'.live && s'.live[j].task == j)
            && (j >= |s'.tasks| ==> (j in s'.live <==> j in s.live))
  {
    hide Deliver;
  }

  lemma StepAtOther(s: Sys, id: nat, e: Env, j: nat)
    requires id < |s.tasks| && id in s.live && InvAt(s, id) && InvAt(s, j) && j != id
    requires CleanDelivery(s.live[id], s.tasks[id], Deliver(s.live[id], s.tasks[id], e))
    ensures InvAt(Step(s, id, e), j)
  {
    StepOffspring(s, id, e, j);
    StepLeaves(s, id, e, j);
    var d, s' := Deliver(s.live[id], s.tasks[id], e), Step(s, id, e);
    hide *;
    if |s.tasks| <= j < |s'.tasks| {
      BornServesNobody(s.live[id], s.tasks[id], d, j - |s.tasks|);
      NobodyAt(s, j);
      BornInv(s', j);
    } else {
      SameInv(s, s', j);
    }
  }

  lemma SameInv(s: Sys, s': Sys, j: nat)
    requires InvAt(s, j) && (j < |s'.tasks| <==> j < |s.tasks|) && (j < |s.tasks| ==> s'.tasks[j] == s.tasks[j])
    requires (j in s'.live <==> j in s.live) && (j in s.live ==> j < |s.tasks| && s'.live[j] == s.live[j])
    requires Count(s'.herald, j) == Count(s.herald, j) && Offspring(s'.tasks, j) == Offspring(s.tasks, j)
    ensures InvAt(s', j)
  {
    hide TaskOk, Offspring, Count, Served;
  }

  lemma NobodyAt(s: Sys, j: nat)
    requires InvAt(s, j) && j >= |s.tasks|
    ensures Count(s.herald, j) == 0 && Offspring(s.tasks, j) == [] && j !in s.live
  {
    hide Offspring, Count;
  }

  lemma BornInv(s: Sys, j: nat)
    requires j < |s.tasks| && TaskOk(s.tasks[j]) && s.tasks[j].state.CheckingEmailSettings? && Served(s.tasks[j]) == []
    requires j in s.live && s.live[j].task == j && Count(s.herald, j) == 0 && Offspring(s.tasks, j) == []
    ensures InvAt(s, j)
  {
    hide TaskOk, Offspring, Count, Served;
  }

  lemma BornServesNobody(b: Body, t: Task, d: St, k: nat)
    requires CleanDelivery(b, t, d) && k < |d.born|
    ensures TaskOk(d.born[k]) && d.born[k].state.CheckingEmailSettings? && Served(d.born[k]) == []
  {
  }

  lemma StepOffspring(s: Sys, id: nat, e: Env, j: nat)
    requires id < |s.tasks| && id in s.live && s.live[id].task == id
    requires CleanDelivery(s.live[id], s.tasks[id], Deliver(s.live[id], s.tasks[id], e))
    ensures Offspring(Step(s, id, e).tasks, j) ==
              Offspring(s.tasks, j) + if j == id then Served(Deliver(s.live[id], s.tasks[id], e).task) else []
  {
    hide Deliver, DistinctUsers, TaskOk, Served;
    var d := Deliver(s.live[id], s.tasks[id], e);
    OffspringSame(s.tasks, id, d.task, j);
    OffspringOfMore(s.tasks[id := d.task], d.born, j, Served(d.task), id);
  }

  lemma StepAtSelf(s: Sys, id: nat, e: Env)
    requires id < |s.tasks| && id in s.live && InvAt(s, id)
    requires CleanDelivery(s.live[id], s.tasks[id], Deliver(s.live[id], s.tasks[id], e))
    ensures InvAt(Step(s, id, e), id)
  {
    hide Deliver, DistinctUsers;
    var d := Deliver(s.live[id], s.tasks[id], e);
    StepOffspring(s, id, e, id);
  }

  /** A clean delivery of any live message keeps the invariant. */
  lemma StepKeepsInv(s: Sys, id: nat, e: Env)
    requires Inv(s) && id in s.live && Clean(e, s.live[id])
    ensures id < |s.tasks| && Inv(Step(s, id, e))
  {
    assert InvAt(s, id);
    CleanDelivers(s.live[id], s.tasks[id], e);
    hide CleanDelivery, InvAt, Step, Clean;
    forall j: nat ensures InvAt(Step(s, id, e), j) {
      assert InvAt(s, j);
      if j == id { StepAtSelf(s, id, e); } else { StepAtOther(s, id, e, j); }
    }
  }

  /** Every scheduled report starts as a fresh task with one message. */
  predicate Starts(s: Sys) {
    && s.herald == []
    && (forall i :: 0 <= i < |s.tasks| ==> s.tasks[i] == Task(Created, None, None, None, false, None) && i in s.live)
    && (forall id :: id in s.live ==> id < |s.tasks| && s.live[id].task == id)
  }

  lemma {:induction false} NoOffspring(tasks: seq<Task>, id: nat)
    requires forall i :: 0 <= i < |tasks| ==> tasks[i].parent.None?
    ensures Offspring(tasks, id) == []
  {
    if tasks != [] { NoOffspring(tasks[..|tasks| - 1], id); }
  }

  lemma StartKeepsInv(s: Sys)
    requires Starts(s)
    ensures Inv(s)
  {
    forall id: nat ensures InvAt(s, id) { NoOffspring(s.tasks, id); }
  }

  /** A run: live messages are delivered one after the other, in any order. */
  ghost predicate CleanRunOf(states: seq<Sys>, picks: seq<nat>, envs: seq<Env>) {
    && |states| == |picks| + 1 == |envs| + 1 && Starts(states[0])
    && forall i :: 0 <= i < |picks| ==> CleanStep(states, picks, envs, i)
  }

  ghost predicate CleanStep(states: seq<Sys>, picks: seq<nat>, envs: seq<Env>, i: nat)
    requires i + 1 < |states| && i < |picks| && i < |envs|
  {
    && picks[i] < |states[i].tasks| && picks[i] in states[i].live
    && Clean(envs[i], states[i].live[picks[i]])
    && states[i+1] == Step(states[i], picks[i], envs[i])
  }

  lemma {:induction false} RunKeepsInv(states: seq<Sys>, picks: seq<nat>, envs: seq<Env>, i: nat)
    requires CleanRunOf(states, picks, envs) && i < |states|
    ensures Inv(states[i])
  {
    hide Inv, Deliver, Clean, Step, Starts;
    if i == 0 {
      StartKeepsInv(states[0]);
    } else {
      RunKeepsInv(states, picks, envs, i - 1);
      assert CleanStep(states, picks, envs, i - 1);
      StepKeepsInv(states[i-1], picks[i-1], envs[i-1]);
    }
  }

  /** Fan-out conservation: when a clean run has no message left, every task is completed;
      a task that collected recipients has one child for each of them, in order, with no
      user twice; and a child has one posted report or completed silently. */
  lemma FanOutConserved(states: seq<Sys>, picks: seq<nat>, envs: seq<Env>, id: nat)
    requires CleanRunOf(states, picks, envs)
    requires var s := states[|states| - 1]; s.live == map[] && id < |s.tasks|
    ensures var s := states[|states| - 1];
            && s.tasks[id].state.Completed?
            && (s.tasks[id].roles.Some? ==> DistinctUsers(s.tasks[id].roles.value) && Offspring(s.tasks, id) == s.tasks[id].roles.value)
            && (s.tasks[id].roles.None? ==> Offspring(s.tasks, id) == [])
            && Count(s.herald, id) == (if s.tasks[id].url then 1 else 0)
            && (s.tasks[id].url ==> s.tasks[id].parent.Some?)
  {
    var s := states[|states| - 1];
    RunKeepsInv(states, picks, envs, |states| - 1);
    assert InvAt(s, id);
  }

  /** The recipients a task collects are exactly the first entries of the users the
      authorization service named. */
  lemma RecipientsCollected(b: Body, t: Task, e: Env)
    requires t.state.GettingRecipients? && TaskOk(t) && Clean(e, b) && e.recipient && e.roles != []
    ensures var d := Deliver(b, t, e);
            && d.task.state.GotRecipients? && d.task.roles.Some? && DistinctUsers(d.task.roles.value)
            && forall r :: r in d.task.roles.value <==> IsFirst(e.roles, r)
  {
    DuplicatesRemoved(e.roles);
    hide WithoutDuplicates;
  }

  /** What one clean step of any task does to the roles stored for task id. */
  lemma RolesStay(s: Sys, pick: nat, e: Env, id: nat)
    requires Inv(s) && pick in s.live && pick < |s.tasks| && Clean(e, s.live[pick]) && id < |s.tasks|
    requires s.tasks[id].roles.Some? || Terminal(s.tasks[id].state)
    ensures var s' := Step(s, pick, e);
            && id < |s'.tasks| && s'.tasks[id].roles == s.tasks[id].roles
            && (Terminal(s.tasks[id].state) ==> Terminal(s'.tasks[id].state))
  {
    assert InvAt(s, pick) && InvAt(s, id);
    if pick == id { CleanDelivers(s.live[id], s.tasks[id], e); } else { StepLeaves(s, pick, e, id); }
    hide Deliver, InvAt;
  }

  /** Roles, once stored, do not change over the rest of a clean run, and a task that ended
      without any gets none. */
  lemma {:induction false} RolesAreFinal(states: seq<Sys>, picks: seq<nat>, envs: seq<Env>, id: nat, i: nat, j: nat)
    requires CleanRunOf(states, picks, envs) && i <= j < |states| && id < |states[i].tasks|
    requires states[i].tasks[id].roles.Some? || Terminal(states[i].tasks[id].state)
    ensures id < |states[j].tasks| && states[j].tasks[id].roles == states[i].tasks[id].roles
    ensures Terminal(states[i].tasks[id].state) ==> Terminal(states[j].tasks[id].state)
    decreases j - i
  {
    hide Deliver, Inv, Starts, Clean, Step;
    if i < j {
      RolesAreFinal(states, picks, envs, id, i, j - 1);
      RunKeepsInv(states, picks, envs, j - 1);
      assert CleanStep(states, picks, envs, j - 1);
      RolesStay(states[j-1], picks[j-1], envs[j-1], id);
    }
  }

  /** From the authorization service's answer to the children: when a clean run has no
      message left, the children of a task that asked for its recipients are for exactly
      the first entries of the users it was then told, each user once; and there is none
      when the recipient was gone or nobody was named. */
  lemma NamedUsersAreServed(states: seq<Sys>, picks: seq<nat>, envs: seq<Env>, i: nat)
    requires CleanRunOf(states, picks, envs) && states[|states| - 1].live == map[]
    requires i < |picks| && picks[i] < |states[i].tasks| && states[i].tasks[picks[i]].state.GettingRecipients?
    ensures var children := Offspring(states[|states| - 1].tasks, picks[i]);
            && DistinctUsers(children)
            && forall r :: r in children <==> envs[i].recipient && IsFirst(envs[i].roles, r)
  {
    var id, last := picks[i], |states| - 1;
    assert CleanStep(states, picks, envs, i);
    RunKeepsInv(states, picks, envs, i);
    assert InvAt(states[i], id);
    var b, t, e := states[i].live[id], states[i].tasks[id], envs[i];
    if e.recipient && e.roles != [] { RecipientsCollected(b, t, e); } else { NobodyCollected(b, t, e); }
    assert states[i+1].tasks[id] == Deliver(b, t, e).task;
    RolesAreFinal(states, picks, envs, id, i + 1, last);
    FanOutConserved(states, picks, envs, id);
  }

  lemma NobodyCollected(b: Body, t: Task, e: Env)
    requires t.state.GettingRecipients? && TaskOk(t) && Clean(e, b) && (!e.recipient || e.roles == [])
    ensures Deliver(b, t, e).task == t.(state := Completed) && forall r :: !IsFirst([], r)
  {
  }

  // --- which way a delivery goes ------------------------------------------------------------

  /** Where a clean delivery takes a task, by what the services answered. */
  lemma CleanOutcomes(b: Body, t: Task, e: Env)
    requires TaskOk(t) && !Terminal(t.state) && Clean(e, b)
    ensures var d := Deliver(b, t, e);
            match t.state
            case Created => d.task == t.(state := Started)
            case Started => d.task == t.(state := GettingScopes)
            case GettingScopes =>
              d.task == if e.recipient then t.(scopes := Some(e.scopes), state := GotScopes) else t.(state := Completed)
            case GotScopes => d.task == t.(state := GettingRecipients)
            case GettingRecipients =>
              if e.recipient && e.roles != [] then d.task.state.GotRecipients? && d.task.scopes == t.scopes && !d.task.url
              else d.task == t.(state := Completed)
            case GotRecipients => d.task == t.(state := Completed)
            case CheckingEmailSettings =>
              d.task == t.(state := if e.employee && e.emailEnabled then GeneratingData else Completed)
            case GeneratingData =>
              d.task == if e.report then t.(url := true, state := GeneratedData) else t.(state := Completed)
            case GeneratedData => d.task == t.(state := PuttingToHerald)
            case PuttingToHerald => d.task == t.(state := Completed) && d.posted == 1
  {
    hide WithoutDuplicates, Children, DistinctUsers;
    if t.state.PuttingToHerald? { assert t.url; }
  }

  /** The run delivered task id, before its n-th delivery, while it had the given state. */
  predicate Passed(states: seq<Sys>, picks: seq<nat>, i: int, n: nat, id: nat, s: State) {
    && 0 <= i < n && i < |picks| && i < |states| && picks[i] == id
    && id < |states[i].tasks| && states[i].tasks[id].state == s
  }

  /** Once its employee was found with the mail enabled. */
  ghost predicate MailWanted(states: seq<Sys>, picks: seq<nat>, envs: seq<Env>, n: nat, id: nat) {
    exists i :: Passed(states, picks, i, n, id, CheckingEmailSettings) && i < |envs| && envs[i].employee && envs[i].emailEnabled
  }

  /** Once its report was made. */
  ghost predicate ReportMade(states: seq<Sys>, picks: seq<nat>, envs: seq<Env>, n: nat, id: nat) {
    exists i :: Passed(states, picks, i, n, id, GeneratingData) && i < |envs| && envs[i].report
  }

  predicate ChildTold(t: Task, wanted: bool, made: bool) {
    && (t.state.CheckingEmailSettings? ==> !wanted && !made)
    && (t.state.GeneratingData? ==> wanted && !made)
    && (t.state.GeneratedData? || t.state.PuttingToHerald? ==> wanted && made)
    && (t.url <==> wanted && made)
  }

  lemma PassedMore(states: seq<Sys>, picks: seq<nat>, envs: seq<Env>, n: nat, id: nat)
    requires n < |states| && n < |picks| && n < |envs|
    ensures MailWanted(states, picks, envs, n + 1, id) <==>
              || MailWanted(states, picks, envs, n, id)
              || (Passed(states, picks, n, n + 1, id, CheckingEmailSettings) && envs[n].employee && envs[n].emailEnabled)
    ensures ReportMade(states, picks, envs, n + 1, id) <==>
              ReportMade(states, picks, envs, n, id) || (Passed(states, picks, n, n + 1, id, GeneratingData) && envs[n].report)
  {
    forall i, s | i != n ensures Passed(states, picks, i, n + 1, id, s) <==> Passed(states, picks, i, n, id, s) {}
  }

  /** A task's parent and recipient stay, and one that is not delivered stays as it is. */
  lemma CleanStepAt(s: Sys, pick: nat, e: Env, id: nat)
    requires Inv(s) && pick in s.live && pick < |s.tasks| && Clean(e, s.live[pick]) && id < |s.tasks|
    ensures var s' := Step(s, pick, e);
            && id < |s'.tasks| && s'.tasks[id].role == s.tasks[id].role
            && s'.tasks[id] == if pick == id then Deliver(s.live[id], s.tasks[id], e).task else s.tasks[id]
  {
    assert InvAt(s, pick) && InvAt(s, id);
    if pick == id { CleanDelivers(s.live[id], s.tasks[id], e); } else { StepLeaves(s, pick, e, id); }
    hide Deliver, InvAt;
  }

  /** A new task is one of the delivery's children. */
  lemma CleanStepBears(s: Sys, pick: nat, e: Env, id: nat)
    requires Inv(s) && pick in s.live && pick < |s.tasks| && Clean(e, s.live[pick])
    requires |s.tasks| <= id < |Step(s, pick, e).tasks|
    ensures Step(s, pick, e).tasks[id].state.CheckingEmailSettings? && !Step(s, pick, e).tasks[id].url
  {
    assert InvAt(s, pick);
    CleanDelivers(s.live[pick], s.tasks[pick], e);
    hide Deliver, InvAt;
  }

  lemma NotYetPassed(states: seq<Sys>, picks: seq<nat>, envs: seq<Env>, n: nat, id: nat)
    requires forall i, s :: !Passed(states, picks, i, n, id, s)
    ensures !MailWanted(states, picks, envs, n, id) && !ReportMade(states, picks, envs, n, id)
  {
  }

  lemma {:induction false} NoneUnborn(states: seq<Sys>, picks: seq<nat>, envs: seq<Env>, i: nat, n: nat, id: nat)
    requires CleanRunOf(states, picks, envs) && i <= n < |states| && id < |states[i].tasks|
    ensures |states[i].tasks| <= |states[n].tasks|
    decreases n - i
  {
    hide Deliver, Inv, Starts, Clean, Step;
    if i < n {
      NoneUnborn(states, picks, envs, i, n - 1, id);
      RunKeepsInv(states, picks, envs, n - 1);
      assert CleanStep(states, picks, envs, n - 1);
      CleanStepAt(states[n-1], picks[n-1], envs[n-1], id);
      MoreTasks(states[n-1], picks[n-1], envs[n-1]);
    }
  }

  lemma MoreTasks(s: Sys, pick: nat, e: Env)
    requires pick in s.live && pick < |s.tasks|
    ensures |s.tasks| <= |Step(s, pick, e).tasks|
  {
    hide Deliver;
  }

  lemma {:induction false} ChildrenAreTold(states: seq<Sys>, picks: seq<nat>, envs: seq<Env>, n: nat, id: nat)
    requires CleanRunOf(states, picks, envs) && n < |states| && id < |states[n].tasks| && states[n].tasks[id].role.Some?
    ensures ChildTold(states[n].tasks[id], MailWanted(states, picks, envs, n, id), ReportMade(states, picks, envs, n, id))
  {
    hide Deliver, Inv, Clean, Step, MailWanted, ReportMade, ChildTold;
    if n == 0 { return; }
    RunKeepsInv(states, picks, envs, n - 1);
    assert CleanStep(states, picks, envs, n - 1);
    var s, pick, e := states[n-1], picks[n-1], envs[n-1];
    if id < |s.tasks| {
      CleanStepAt(s, pick, e, id);
      ChildrenAreTold(states, picks, envs, n - 1, id);
      PassedMore(states, picks, envs, n - 1, id);
      if pick == id {
        ToldMore(s, id, e, MailWanted(states, picks, envs, n - 1, id), ReportMade(states, picks, envs, n - 1, id));
      }
    } else {
      CleanStepBears(s, pick, e, id);
      forall i, x | Passed(states, picks, i, n, id, x) ensures false {
        NoneUnborn(states, picks, envs, i, n - 1, id);
      }
      NotYetPassed(states, picks, envs, n, id);
      BornTold(states[n].tasks[id]);
    }
  }

  lemma BornTold(t: Task)
    requires t.state.CheckingEmailSettings? && !t.url
    ensures ChildTold(t, false, false)
  {
  }

  lemma ToldMore(s: Sys, id: nat, e: Env, wanted: bool, made: bool)
    requires Inv(s) && id in s.live && id < |s.tasks| && Clean(e, s.live[id])
    requires s.tasks[id].role.Some? && ChildTold(s.tasks[id], wanted, made)
    ensures var t := s.tasks[id];
            ChildTold(Deliver(s.live[id], t, e).task,
                      wanted || (t.state.CheckingEmailSettings? && e.employee && e.emailEnabled),
                      made || (t.state.GeneratingData? && e.report))
  {
    assert InvAt(s, id);
    CleanOutcomes(s.live[id], s.tasks[id], e);
    hide Deliver, Inv;
  }

  /** When a clean run has no message left, a child posted its report, once, exactly when
      in its own deliveries the employee was found with the mail enabled and the report
      was made. */
  lemma ReportsArePosted(states: seq<Sys>, picks: seq<nat>, envs: seq<Env>, id: nat)
    requires CleanRunOf(states, picks, envs)
    requires var s := states[|states| - 1]; s.live == map[] && id < |s.tasks| && s.tasks[id].role.Some?
    ensures Count(states[|states| - 1].herald, id) ==
              if MailWanted(states, picks, envs, |picks|, id) && ReportMade(states, picks, envs, |picks|, id) then 1 else 0
  {
    FanOutConserved(states, picks, envs, id);
    ChildrenAreTold(states, picks, envs, |picks|, id);
    hide MailWanted, ReportMade, CleanRunOf;
  }

  // --- with failures ------------------------------------------------------------------------

  const CALM := Env(0, 99, false, Closed, 99, true, false, [], [], true, true, true, true)

  /** A delivery that failed and published its retry. */
  predicate RetryPublished(b: Body, e: Env) { b.tries < MAX_RETRIES && e.handlerFaultAt != 0 }

  /** Call n of the delivery takes effect, whether or not it raises. */
  predicate TakesEffect(e: Env, n: nat) { e.faultAt > n || (e.faultAt == n && e.applied) }

  /** Creating the children and completing the parent are two calls: when the second
      raises, the retry creates the children again. */
  lemma RetryDuplicatesChildren(r: UserRole)
    ensures var t := Task(GotRecipients, Some([]), Some([r]), None, false, None);
            var b := Body(0, 0, 0, false);
            var first := Deliver(b, t, CALM.(faultAt := 3));
            && first.task == t && |first.born| == 1 && first.sent == [b.(tries := 1)]
            && |Deliver(first.sent[0], first.task, CALM).born| == 1
  {
  }

  lemma Creates(b: Body, t: Task, e: Env)
    requires t.state.GotRecipients? && t.roles.Some?
    ensures var d := Deliver(b, t, e);
            && |d.born| == (if TakesEffect(e, 2) then |t.roles.value| else 0)
            && (d.sent != [] <==> 1 <= e.faultAt <= 3 && RetryPublished(b, e))
            && (d.sent != [] ==> d.task == (if e.faultAt == 3 && e.applied then t.(state := Completed) else t))
            && (d.sent != [] ==> d.sent == [b.(tries := b.tries + 1)])
  {
    assert |Children(Fresh(b, t), t.roles.value)| == |t.roles.value|;
    hide Children;
  }

  /** A delivery that created children leads to another that creates them again exactly
      when either the creation raised after taking effect or the completion raised
      without effect, the retry was published, and the creation then takes effect. */
  lemma RecreatesIff(b: Body, t: Task, e: Env, e': Env)
    requires t.state.GotRecipients? && t.roles.Some?
    ensures var d := Deliver(b, t, e);
            && (d.born != [] && d.sent != [] && d.task == t <==>
                  && t.roles.value != [] && RetryPublished(b, e)
                  && ((e.faultAt == 2 && e.applied) || (e.faultAt == 3 && !e.applied)))
            && (d.born != [] && d.sent != [] ==>
                  |Deliver(d.sent[0], d.task, e').born| ==
                    if d.task == t && TakesEffect(e', 2) then |t.roles.value| else 0)
  {
    Creates(b, t, e);
    var d := Deliver(b, t, e);
    if d.sent != [] && d.task == t { Creates(d.sent[0], t, e'); }
    if d.sent != [] && d.task != t { TerminalAbsorbs(d.sent[0], d.task, e'); }
    hide Execute;
  }

  /** What becomes of a delivery that gives up: the task is marked failed exactly when the
      handler's calls go through and its organization can be found. */
  predicate GivesUp(d: St, reached: Task, e: Env) {
    d.sent == [] && d.task == if e.recipient && e.handlerFaultAt > 2 then reached.(state := Error) else reached
  }

  /** A disabled organization, and a report without a mail template, fail the delivery: it
      is retried while a retry is left, and then given up. */
  lemma RefusalsAreRetried(b: Body, t: Task, e: Env)
    requires e.faultAt > 10
    requires || (t.state.GettingScopes? && e.recipient && e.orgDisabled)
             || (t.state.CheckingEmailSettings? && t.role.Some? && e.employee && !e.templateKnown)
    ensures var d := Deliver(b, t, e);
            if b.tries >= MAX_RETRIES then GivesUp(d, t, e)
            else && d.task == t
                 && d.sent == if e.handlerFaultAt == 0 then []
                              else [b.(tries := b.tries + 1, disabled := b.disabled || t.state.GettingScopes?)]
  {
  }

  /** A step run late against the same step run in time. */
  predicate LateRun(r: Run, intime: Run) {
    && intime.Ok? && r.st.task == intime.st.task && r.st.sent == []
    && if Terminal(intime.st.task.state) then r.Ok? else r == Raise(r.st, Timeout)
  }

  lemma LateMoves(st: St, e: Env, s: State)
    requires st.sent == [] && e.faultAt > 10 && st.calls < 5 && e.now - st.body.lastUpdate > MAX_UPDATE_THRESHOLD && !Terminal(s)
    ensures LateRun(Move(st, e, s), Move(st.(body := st.body.(lastUpdate := e.now)), e, s))
  {
  }

  lemma LateParents(st: St, e: Env)
    requires Untouched(st) && e.faultAt > 10 && st.calls == 1 && TaskOk(st.task) && !e.orgDisabled
    requires e.now - st.body.lastUpdate > MAX_UPDATE_THRESHOLD
    ensures var st' := st.(body := st.body.(lastUpdate := e.now));
            && (st.task.state.GettingScopes? ==> LateRun(GetScopes(st, e), GetScopes(st', e)))
            && (st.task.state.GettingRecipients? ==> LateRun(GetRecipients(st, e), GetRecipients(st', e)))
            && (st.task.state.GotRecipients? ==> LateRun(SetGeneratingReportData(st, e), SetGeneratingReportData(st', e)))
  {
    hide WithoutDuplicates, Children, DistinctUsers;
  }

  lemma LateChildren(st: St, e: Env)
    requires Untouched(st) && e.faultAt > 10 && st.calls == 1 && TaskOk(st.task) && e.templateKnown
    requires e.now - st.body.lastUpdate > MAX_UPDATE_THRESHOLD
    ensures var st' := st.(body := st.body.(lastUpdate := e.now));
            && (st.task.state.CheckingEmailSettings? ==> LateRun(CheckEmail(st, e), CheckEmail(st', e)))
            && (st.task.state.GeneratingData? ==> LateRun(GenerateReportData(st, e), GenerateReportData(st', e)))
            && (st.task.state.PuttingToHerald? ==> LateRun(PutToHerald(st, e), PutToHerald(st', e)))
  {
    hide DistinctUsers;
  }

  lemma LateExecutes(st: St, e: Env)
    requires Untouched(st) && e.faultAt > 10 && st.calls == 1 && TaskOk(st.task) && !e.orgDisabled && e.templateKnown
    requires e.now - st.body.lastUpdate > MAX_UPDATE_THRESHOLD
    ensures LateRun(Execute(st, e), Execute(st.(body := st.body.(lastUpdate := e.now)), e))
  {
    match st.task.state {
      case Created => LateMoves(st, e, Started);
      case Started => LateMoves(st, e, GettingScopes);
      case GotScopes => LateMoves(st, e, GettingRecipients);
      case GeneratedData => LateMoves(st, e, PuttingToHerald);
      case GettingScopes | GettingRecipients | GotRecipients => LateParents(st, e);
      case _ => LateChildren(st, e);
    }
    hide Move, GetScopes, GetRecipients, SetGeneratingReportData, CheckEmail, GenerateReportData, PutToHerald, LateRun;
  }

  /** A delivery that comes more than an hour after the last update and would go on gives
      up without a retry, at the state it reached; one that completes its task is not
      held up. */
  lemma LateGivesUp(b: Body, t: Task, e: Env)
    requires TaskOk(t) && !Terminal(t.state) && e.faultAt > 10 && !e.orgDisabled && e.templateKnown
    requires e.now - b.lastUpdate > MAX_UPDATE_THRESHOLD
    ensures var d, clean := Deliver(b, t, e), Deliver(b.(lastUpdate := e.now), t, e);
            if Terminal(clean.task.state) then d.task == clean.task && d.sent == [] else GivesUp(d, clean.task, e)
  {
    LateExecutes(Call(Fresh(b, t), e).st, e);
    hide Execute;
  }

  lemma Posts(b: Body, t: Task, e: Env)
    requires t.state.PuttingToHerald? && t.url
    ensures var d := Deliver(b, t, e);
            && d.posted == (if TakesEffect(e, 2) then 1 else 0)
            && (d.sent != [] <==> 1 <= e.faultAt <= 3 && RetryPublished(b, e))
            && (d.sent != [] ==> (d.task == t <==> StaysOpen(e)) && (d.task != t ==> d.task.state.Completed?))
            && (d.sent != [] ==> d.sent == [b.(tries := b.tries + 1)])
  {
  }

  /** The failing posting step leaves its task as it was. */
  predicate StaysOpen(e: Env) {
    e.faultAt == 1 || (e.faultAt == 2 && e.closing.LeftOpen?) || (e.faultAt == 3 && !e.applied)
  }

  /** A posting that raised is made again by no later delivery exactly when the completion
      that followed it took effect or no retry was published. */
  lemma NotPostedAgainIff(b: Body, t: Task, e: Env, e': Env)
    requires t.state.PuttingToHerald? && t.url && e.faultAt == 2
    ensures var d := Deliver(b, t, e);
            && (d.sent == [] || Terminal(d.task.state) <==> !e.closing.LeftOpen? || !RetryPublished(b, e))
            && forall b' :: b' in d.sent ==>
                 Deliver(b', d.task, e').posted == if e.closing.LeftOpen? && TakesEffect(e', 2) then 1 else 0
  {
    Posts(b, t, e);
    var d := Deliver(b, t, e);
    if d.sent != [] {
      if d.task == t { Posts(d.sent[0], t, e'); } else { TerminalAbsorbs(d.sent[0], d.task, e'); }
    }
    hide Execute;
  }

  /** A report is posted by a delivery and by the retry exactly when the posting took
      effect both times, and after the first the retry was published with the task still
      to be posted: the completion raised without effect. */
  lemma PostedTwiceIff(b: Body, t: Task, e: Env, e': Env)
    requires t.state.PuttingToHerald? && t.url
    ensures var d := Deliver(b, t, e);
            d.posted + (if d.sent == [] then 0 else Deliver(d.sent[0], d.task, e').posted) == 2 <==>
              && TakesEffect(e', 2) && RetryPublished(b, e)
              && ((e.faultAt == 3 && !e.applied) || (e.faultAt == 2 && e.applied && e.closing.LeftOpen?))
  {
    Posts(b, t, e);
    var d := Deliver(b, t, e);
    if d.sent != [] {
      if d.task == t { Posts(d.sent[0], t, e'); } else { TerminalAbsorbs(d.sent[0], d.task, e'); }
    }
    hide Execute;
  }
}
