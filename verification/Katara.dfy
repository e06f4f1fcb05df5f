/** The report worker: what one delivery of a task's message does to the task. External
    calls are numbered in the order they are made; the environment says which of them, if
    any, raises. */
module Katara {
  import opened Wrappers

  const MAX_RETRIES: nat := 10
  const MAX_UPDATE_THRESHOLD := 3600

  datatype State =
    | Created | Started | GettingScopes | GotScopes | GettingRecipients | GotRecipients
    | CheckingEmailSettings | GeneratingData | GeneratedData | PuttingToHerald
    | Completed | Error

  datatype UserRole = UserRole(user: string, role: string, scope: string)

  /** A task as the API holds it, with the parts of its result that steps set. */
  datatype Task = Task(state: State, scopes: Option<seq<string>>, roles: Option<seq<UserRole>>, role: Option<UserRole>,
                       url: bool, parent: Option<nat>)

  /** The body of a message: it names its task. */
  datatype Body = Body(task: nat, tries: nat, lastUpdate: int, disabled: bool)

  datatype Exn = Timeout | Failure

  /** How a completion that follows a failed posting ends: it goes through, it raises
      although it took effect, or it raises without effect. */
  datatype Closing = Closed | ClosedRaising | LeftOpen

  /** Everything a delivery does not control: the clock; the call that raises and whether
      it took effect all the same; the end of a completion made after that call; the call
      of the error handler that raises; and what the services answer. */
  datatype Env = Env(now: int, faultAt: nat, applied: bool, closing: Closing, handlerFaultAt: nat,
                     recipient: bool, orgDisabled: bool, scopes: seq<string>, roles: seq<UserRole>,
                     employee: bool, templateKnown: bool, emailEnabled: bool, report: bool)

  /** A delivery in progress: body and task, the tasks it created, whether it posted the
      report, the continuations it published and the number of calls made. */
  datatype St = St(body: Body, task: Task, born: seq<Task>, posted: nat, sent: seq<Body>, calls: nat)

  datatype Run = Ok(st: St) | Raise(st: St, exn: Exn) {
    predicate IsFailure() { Raise? }
    function PropagateFailure(): Run requires Raise? { this }
    function Extract(): St requires Ok? { st }
  }

  function Fresh(body: Body, task: Task): St { St(body, task, [], 0, [], 0) }

  function Call(st: St, e: Env): Run {
    if st.calls == e.faultAt then Raise(st, Failure) else Ok(st.(calls := st.calls + 1))
  }

  /** task_update: an update that raises may have taken effect. */
  function Update(st: St, e: Env, task: Task): Run {
    if st.calls == e.faultAt then Raise(if e.applied then st.(task := task) else st, Failure)
    else Ok(st.(calls := st.calls + 1, task := task))
  }

  function SetState(st: St, e: Env, s: State): Run { Update(st, e, st.task.(state := s)) }

  /** tasks_create, with the same proviso. */
  function Create(st: St, e: Env, tasks: seq<Task>): Run {
    if st.calls == e.faultAt then Raise(if e.applied then st.(born := st.born + tasks) else st, Failure)
    else Ok(st.(calls := st.calls + 1, born := st.born + tasks))
  }

  function Publish(st: St, e: Env): Run {
    var st :- Call(st, e);
    Ok(st.(sent := st.sent + [st.body]))
  }

  /** The end of every step that goes on: the check of the time since the last update. */
  function Advance(st: St, e: Env): Run {
    if e.now - st.body.lastUpdate > MAX_UPDATE_THRESHOLD then Raise(st, Timeout)
    else Publish(st.(body := st.body.(lastUpdate := e.now)), e)
  }

  function Complete(st: St, e: Env): Run { SetState(st, e, Completed) }

  // --- the steps --------------------------------------------------------------------

  function Move(st: St, e: Env, s: State): Run {
    var st :- SetState(st, e, s);
    Advance(st, e)
  }

  function GetScopes(st: St, e: Env): Run {
    var st :- Call(st, e);
    if !e.recipient then Complete(st, e)
    else
      var st :- Call(st, e);
      if e.orgDisabled then Raise(st.(body := st.body.(disabled := true)), Failure)
      else
        var st :- Call(st, e);
        var st :- Update(st, e, st.task.(scopes := Some(e.scopes), state := GotScopes));
        Advance(st, e)
  }

  function GetRecipients(st: St, e: Env): Run {
    var st :- Call(st, e);
    if !e.recipient then Complete(st, e)
    else if st.task.scopes.None? then Raise(st, Failure)
    else
      var st :- Call(st, e);
      if e.roles == [] then Complete(st, e)
      else
        var st :- Update(st, e, st.task.(roles := Some(WithoutDuplicates(e.roles)), state := GotRecipients));
        Advance(st, e)
  }

  function Child(st: St, r: UserRole): Task {
    Task(CheckingEmailSettings, st.task.scopes, None, Some(r), false, Some(st.body.task))
  }

  function Children(st: St, roles: seq<UserRole>): seq<Task> {
    seq(|roles|, i requires 0 <= i < |roles| => Child(st, roles[i]))
  }

  function SetGeneratingReportData(st: St, e: Env): Run {
    var st :- Call(st, e);
    if st.task.roles.None? then Raise(st, Failure)
    else
      var st :- Create(st, e, Children(st, st.task.roles.value));
      Complete(st, e)
  }

  function CheckEmail(st: St, e: Env): Run {
    var st :- Call(st, e);
    if st.task.role.None? then Raise(st, Failure)
    else
      var st :- Call(st, e);
      if !e.employee then Complete(st, e)
      else if !e.templateKnown then Raise(st, Failure)
      else
        var st :- Call(st, e);
        if !e.emailEnabled then Complete(st, e) else Move(st, e, GeneratingData)
  }

  function GenerateReportData(st: St, e: Env): Run {
    var st :- Call(st, e);
    if st.task.role.None? then Raise(st, Failure)
    else
      var st :- Call(st, e);
      if !e.report then Complete(st, e)
      else
        var st :- Call(st, e);
        var st :- Update(st, e, st.task.(url := true, state := GeneratedData));
        Advance(st, e)
  }

  /** The completion comes last whatever the posting did, as a call of its own. When the
      posting raised, the step raises whether or not the completion does. */
  function PutToHerald(st: St, e: Env): Run {
    var st :- Call(st, e);
    if !st.task.url then Complete(st, e)
    else if st.calls == e.faultAt then
      var st := st.(posted := st.posted + if e.applied then 1 else 0, calls := st.calls + 1);
      Raise(if e.closing.LeftOpen? then st else st.(task := st.task.(state := Completed)), Failure)
    else Complete(st.(posted := st.posted + 1, calls := st.calls + 1), e)
  }

  function Execute(st: St, e: Env): Run {
    match st.task.state
    case Created => Move(st, e, Started)
    case Started => Move(st, e, GettingScopes)
    case GettingScopes => GetScopes(st, e)
    case GotScopes => Move(st, e, GettingRecipients)
    case GettingRecipients => GetRecipients(st, e)
    case GotRecipients => SetGeneratingReportData(st, e)
    case CheckingEmailSettings => CheckEmail(st, e)
    case GeneratingData => GenerateReportData(st, e)
    case GeneratedData => Move(st, e, PuttingToHerald)
    case PuttingToHerald => PutToHerald(st, e)
    case Completed => Ok(st)
    case Error => Ok(st)
  }

  // --- the error handler ---------------------------------------------------------------

  /** SetFailed reads the task, looks up its organization, and only then marks the task;
      any of these may raise, and then the message is just acknowledged. */
  function SetFailed(st: St, e: Env): St {
    if e.handlerFaultAt == 0 || !e.recipient || e.handlerFaultAt == 1 || e.handlerFaultAt == 2 then st
    else st.(task := st.task.(state := Error))
  }

  predicate CanContinue(st: St, exn: Exn) { exn != Timeout && st.body.tries < MAX_RETRIES }

  function Handle(st: St, e: Env, exn: Exn): St {
    if CanContinue(st, exn) then
      var b := st.body.(tries := st.body.tries + 1);
      var st' := st.(body := b);
      if e.handlerFaultAt == 0 then st' else st'.(sent := st'.sent + [b])
    else SetFailed(st, e)
  }

  /** One delivery. A terminal task has no step: its message is acknowledged. */
  function Deliver(body: Body, task: Task, e: Env): St {
    var st := Fresh(body, task);
    if task.state.Completed? || task.state.Error? then st
    else
      match Call(st, e)
      case Raise(st, _) => st
      case Ok(st) =>
        match Execute(st, e)
        case Ok(st) => st
        case Raise(st, exn) => Handle(st, e, exn)
  }

  // --- removing duplicate recipients ------------------------------------------------------

  function RemoveFirst(s: seq<UserRole>, r: UserRole): seq<UserRole> {
    if s == [] then [] else if s[0] == r then s[1..] else [s[0]] + RemoveFirst(s[1..], r)
  }

  /** The loop over a copy: an entry whose user was seen before is removed by value from
      the list that is kept. */
  function RemoveSeen(kept: seq<UserRole>, copy: seq<UserRole>, ids: set<string>): seq<UserRole>
    decreases copy
  {
    if copy == [] then kept
    else if copy[0].user in ids then RemoveSeen(RemoveFirst(kept, copy[0]), copy[1..], ids)
    else RemoveSeen(kept, copy[1..], ids + {copy[0].user})
  }

  function WithoutDuplicates(roles: seq<UserRole>): seq<UserRole> { RemoveSeen(roles, roles, {}) }

  /** The first entry of every user not yet seen. */
  function Firsts(roles: seq<UserRole>, ids: set<string>): seq<UserRole> {
    if roles == [] then []
    else if roles[0].user in ids then Firsts(roles[1..], ids)
    else [roles[0]] + Firsts(roles[1..], ids + {roles[0].user})
  }

  predicate DistinctUsers(roles: seq<UserRole>) {
    forall i, j :: 0 <= i < j < |roles| ==> roles[i].user != roles[j].user
  }

  lemma {:induction false} RemoveFirstIs(s: seq<UserRole>, r: UserRole)
    requires r in s
    ensures multiset(RemoveFirst(s, r)) == multiset(s) - multiset{r}
  {
    assert s == [s[0]] + s[1..];
    if s[0] != r { RemoveFirstIs(s[1..], r); }
  }

  lemma {:induction false} RemoveSeenIs(done: multiset<UserRole>, kept: seq<UserRole>, copy: seq<UserRole>, ids: set<string>)
    requires multiset(kept) == done + multiset(copy)
    ensures multiset(RemoveSeen(kept, copy, ids)) == done + multiset(Firsts(copy, ids))
    decreases copy
  {
    if copy != [] {
      var r, rest := copy[0], copy[1..];
      assert copy == [r] + rest;
      assert multiset(copy) == multiset{r} + multiset(rest);
      if r.user in ids {
        assert r in multiset(kept);
        RemoveFirstIs(kept, r);
        RemoveSeenIs(done, RemoveFirst(kept, r), rest, ids);
      } else {
        var firsts := Firsts(rest, ids + {r.user});
        RemoveSeenIs(done + multiset{r}, kept, rest, ids + {r.user});
        assert multiset([r] + firsts) == multiset{r} + multiset(firsts);
      }
    }
  }

  /** The entry is its user's first one. */
  predicate FirstAt(roles: seq<UserRole>, k: int) {
    0 <= k < |roles| && forall m :: 0 <= m < k ==> roles[m].user != roles[k].user
  }

  ghost predicate IsFirst(roles: seq<UserRole>, r: UserRole) {
    exists k :: FirstAt(roles, k) && roles[k] == r
  }

  lemma {:induction false} FirstsDistinct(roles: seq<UserRole>, ids: set<string>)
    ensures DistinctUsers(Firsts(roles, ids))
    ensures forall r :: r in Firsts(roles, ids) ==> r.user !in ids
  {
    if roles != [] {
      var seen := ids + {roles[0].user};
      if roles[0].user in ids {
        FirstsDistinct(roles[1..], ids);
      } else {
        FirstsDistinct(roles[1..], seen);
        var f := Firsts(roles[1..], seen);
        assert forall i :: 0 <= i < |f| ==> f[i] in f;
      }
    }
  }

  lemma {:induction false} FirstsAre(roles: seq<UserRole>, ids: set<string>, r: UserRole)
    ensures r in Firsts(roles, ids) <==> r.user !in ids && IsFirst(roles, r)
  {
    if roles != [] {
      var rest := roles[1..];
      var seen := if roles[0].user in ids then ids else ids + {roles[0].user};
      FirstsAre(rest, seen, r);
      FirstOfTail(roles, r);
    }
  }

  lemma FirstOfTail(roles: seq<UserRole>, r: UserRole)
    requires roles != []
    ensures IsFirst(roles, r) <==> r == roles[0] || (r.user != roles[0].user && IsFirst(roles[1..], r))
  {
    var rest := roles[1..];
    if IsFirst(roles, r) {
      var k :| FirstAt(roles, k) && roles[k] == r;
      FirstTail(roles, k);
    }
    if r.user != roles[0].user && IsFirst(rest, r) {
      var k :| FirstAt(rest, k) && rest[k] == r;
      FirstTail(roles, k + 1);
    }
    assert FirstAt(roles, 0);
  }

  lemma FirstTail(roles: seq<UserRole>, k: nat)
    requires k < |roles|
    ensures k == 0 ==> FirstAt(roles, k)
    ensures k > 0 ==> (FirstAt(roles, k) <==> FirstAt(roles[1..], k - 1) && roles[0].user != roles[k].user)
  {
    if k > 0 && FirstAt(roles[1..], k - 1) && roles[0].user != roles[k].user {
      forall m | 0 <= m < k ensures roles[m].user != roles[k].user {
        assert m > 0 ==> roles[m] == roles[1..][m-1];
      }
    }
    if k > 0 && FirstAt(roles, k) {
      forall m | 0 <= m < k - 1 ensures roles[1..][m].user != roles[1..][k-1].user {
        assert roles[1..][m] == roles[m+1];
      }
    }
  }

  /** Every user has a first entry. */
  lemma {:induction false} SomeFirst(roles: seq<UserRole>, i: nat) returns (k: nat)
    requires i < |roles|
    ensures k <= i && FirstAt(roles, k) && roles[k].user == roles[i].user
  {
    k := 0;
    while roles[k].user != roles[i].user
      invariant k <= i && forall m :: 0 <= m < k ==> roles[m].user != roles[i].user
      decreases i - k
    {
      k := k + 1;
    }
  }

  /** What is kept are exactly the users' first entries, in some order: every user stays
      exactly once and none is lost. */
  lemma DuplicatesRemoved(roles: seq<UserRole>)
    ensures DistinctUsers(WithoutDuplicates(roles))
    ensures forall r :: r in WithoutDuplicates(roles) <==> IsFirst(roles, r)
    ensures forall i :: 0 <= i < |roles| ==> HasUser(WithoutDuplicates(roles), roles[i].user)
  {
    var kept, firsts := WithoutDuplicates(roles), Firsts(roles, {});
    RemoveSeenIs(multiset{}, roles, roles, {});
    FirstsDistinct(roles, {});
    SameMultisetDistinct(firsts, kept);
    forall r ensures r in kept <==> IsFirst(roles, r) {
      FirstsAre(roles, {}, r);
      assert r in kept <==> r in multiset(kept);
      assert r in firsts <==> r in multiset(firsts);
    }
    forall i | 0 <= i < |roles| ensures HasUser(kept, roles[i].user) {
      var k := SomeFirst(roles, i);
      assert roles[k] in kept;
    }
  }

  predicate HasUser(roles: seq<UserRole>, user: string) { exists k :: 0 <= k < |roles| && roles[k].user == user }

  lemma SameMultisetDistinct(a: seq<UserRole>, b: seq<UserRole>)
    requires DistinctUsers(a) && multiset(a) == multiset(b)
    ensures DistinctUsers(b)
  {
    forall i, j | 0 <= i < j < |b| ensures b[i].user != b[j].user {
      assert b[i] in multiset(a) && b[j] in multiset(a);
      var p :| 0 <= p < |a| && a[p] == b[i];
      var q :| 0 <= q < |a| && a[q] == b[j];
      OnceOnly(a, p);
      if b[i] == b[j] { TwiceIn(b, i, j); }
    }
  }

  lemma TwiceIn(b: seq<UserRole>, i: nat, j: nat)
    requires i < j < |b| && b[i] == b[j]
    ensures multiset(b)[b[i]] >= 2
  {
    assert b == b[..i] + [b[i]] + b[i+1..j] + [b[j]] + b[j+1..];
  }

  lemma OnceOnly(a: seq<UserRole>, p: nat)
    requires DistinctUsers(a) && p < |a|
    ensures multiset(a)[a[p]] == 1
  {
    assert a == a[..p] + [a[p]] + a[p+1..];
    assert a[p] !in a[..p] && a[p] !in a[p+1..];
  }
}
