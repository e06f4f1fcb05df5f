/** How a delivery moves a task forward, and why every task stops. */
module BumiProgress {
  import opened Wrappers
  import opened BumiTypes
  import opened BumiSteps
  import opened BumiDelivery

  /** Position of a state in the pipeline. */
  function Rank(s: State): nat {
    match s
    case Created => 0
    case Started => 1
    case InitializedChecklist => 2
    case WaitedChecklist => 3
    case CollectedCheckResult => 4
    case InitializedArchive => 5
    case WaitedArchive => 6
    case CheckedArchiveResult => 7
    case InitializedService => 8
    case WaitedService => 9
    case UpdatedChecklist => 10
    case Processed => 10
    case Completed => 11
    case Error => 11
  }

  /** The states a successful step may lead to, next to failing. */
  predicate Advances(s: State, s': State) {
    match s
    case Created => s' == Started
    case Started => s' == InitializedChecklist || s' == WaitedService || s' == Processed
    case InitializedChecklist => s' == WaitedChecklist
    case WaitedChecklist => s' == CollectedCheckResult
    case CollectedCheckResult => s' == InitializedArchive
    case InitializedArchive => s' == WaitedArchive
    case WaitedArchive => s' == CheckedArchiveResult
    case CheckedArchiveResult => s' == InitializedService
    case InitializedService => s' == WaitedService
    case WaitedService => s' == UpdatedChecklist
    case _ => false
  }

  predicate Moves(s: State, s': State) {
    s' == s || s' == Error || Advances(s, s')
  }

  /** A wait that stays where it is leaves its body alone and is still in time. */
  predicate StillWaiting(b: Body, b': Body, e: Env) {
    b' == b && b.waitTimeout.Some? && e.t0 - b.lastUpdate <= b.waitTimeout.value
  }

  predicate Progress(terminal: bool, waits: bool, b: Body, r: Run, e: Env) {
    && Moves(b.state, r.st.body.state)
    && (r.st.body.lastUpdate == b.lastUpdate || r.st.body.lastUpdate == e.t1)
    && (r.Ok? && !terminal ==> r.st.body.state != b.state || (waits && StillWaiting(b, r.st.body, e)))
  }

  lemma FanOutMoves(st: St, e: Env, f: Folder, names: seq<string>, target: State)
    requires Advances(st.body.state, target) && target != st.body.state
    ensures Progress(false, false, st.body, FanOut(st, e, f, names, target), e)
  {
    CreateChildrenSends(st, e, f, names);
  }

  lemma InitializeMoves(st: St, e: Env, f: Folder, target: State)
    requires Advances(st.body.state, target) && target != st.body.state
    ensures Progress(false, false, st.body, DoInitialize(st, e, f, target), e)
  {
    var called := Call(st, e);
    if called.Ok? { FanOutMoves(called.st, e, f, Enabled(e.installed(f), e.disabled), target); }
  }

  lemma InitializeChecklistMoves(st: St, e: Env)
    requires st.body.state == Started
    ensures Progress(false, false, st.body, DoInitializeChecklist(st, e), e)
  {
    var called := Call(st, e);
    if called.Ok? {
      FanOutMoves(called.st, e, Recommendations, Enabled(e.installed(Recommendations), e.disabled), InitializedChecklist);
    }
  }

  lemma CollectMoves(st: St, e: Env)
    requires st.body.state == WaitedChecklist
    ensures Progress(false, false, st.body, DoCollect(st, e), e)
  {
    var called := Call(st, e);
    if called.Ok? { ReadAllKeeps(called.st, e, FolderListing(st.body, e, Recommendations)); }
  }

  lemma CheckArchiveMoves(st: St, e: Env)
    requires st.body.state == WaitedArchive
    ensures Progress(false, false, st.body, DoCheckArchive(st, e), e)
  {
    var called := Call(MoveTo(st, CheckedArchiveResult), e);
    if called.Ok? { InspectKeeps(called.st, e, FolderListing(st.body, e, Archive)); }
  }

  lemma WaitMoves(st: St, e: Env, f: Folder, target: State)
    requires Advances(st.body.state, target) && target != st.body.state
    requires st.body.waitTimeout.Some? && e.t0 - st.body.lastUpdate <= st.body.waitTimeout.value
    ensures Progress(false, true, st.body, DoWait(st, e, f, target), e)
  {
  }

  lemma ExecuteMoves(st: St, e: Env, step: Step)
    requires StepOf(st.body) == Some(step) && Check(step, st, e).Ok?
    ensures Progress(Terminal(step), Waits(step), st.body, Execute(step, st, e), e)
  {
    match step {
      case InitializeChecklist => InitializeChecklistMoves(st, e);
      case InitializeArchive => InitializeMoves(st, e, Archive, InitializedArchive);
      case InitializeService => InitializeMoves(st, e, Service, InitializedService);
      case CollectCheckResult => CollectMoves(st, e);
      case CheckArchiveResult => CheckArchiveMoves(st, e);
      case WaitChecklist => WaitMoves(st, e, Recommendations, WaitedChecklist);
      case WaitArchive => WaitMoves(st, e, Archive, WaitedArchive);
      case WaitService => WaitMoves(st, e, Service, WaitedService);
      case _ =>
    }
  }

  lemma AttemptMoves(st: St, e: Env, step: Step)
    requires StepOf(st.body) == Some(step)
    ensures Progress(Terminal(step), Waits(step), st.body, Attempt(step, st, e), e)
  {
    if Check(step, st, e).Ok? { ExecuteMoves(st, e, step); }
  }

  // --- the measure --------------------------------------------------------------

  function Max0(n: int): nat { if n < 0 then 0 else n }

  function StagesLeft(b: Body): nat { 11 - Rank(b.state) }

  function RetriesLeft(b: Body): nat { Max0(b.maxRetries - b.tries) }

  /** Seconds, counting the current one, until the wait deadline. */
  function TimeLeft(b: Body, now: int): nat {
    if b.waitTimeout.Some? then Max0(b.lastUpdate + b.waitTimeout.value - now + 1) else 0
  }

  predicate LexBelow(b': Body, now': int, b: Body, now: int) {
    || StagesLeft(b') < StagesLeft(b)
    || (StagesLeft(b') == StagesLeft(b) && RetriesLeft(b') < RetriesLeft(b))
    || (StagesLeft(b') == StagesLeft(b) && RetriesLeft(b') == RetriesLeft(b) && TimeLeft(b', now') < TimeLeft(b, now))
  }

  predicate NoMoreUnits(b': Body, b: Body) {
    StagesLeft(b') <= StagesLeft(b) && RetriesLeft(b') <= RetriesLeft(b)
  }

  predicate InTime(e: Env) { e.t0 <= e.t1 <= e.t2 }

  lemma MovesDescend(b: Body, b': Body)
    requires Moves(b.state, b'.state)
    ensures StagesLeft(b') <= StagesLeft(b)
    ensures b'.state != b.state && b.state != Completed ==> StagesLeft(b') < StagesLeft(b)
  {
  }

  lemma AfterErrorDescends(b: Body, x: Exn)
    requires b.state != Error && b.state != Completed
    ensures var b' := AfterError(b, x);
            && StagesLeft(b') <= StagesLeft(b) && RetriesLeft(b') <= RetriesLeft(b)
            && (StagesLeft(b') < StagesLeft(b) || RetriesLeft(b') < RetriesLeft(b))
  {
  }

  predicate Descends(b': Body, now': int, b: Body, now: int) {
    && LexBelow(b', now', b, now) && NoMoreUnits(b', b)
    && b'.lastUpdate <= now' && b'.waitTimeout == b.waitTimeout && b'.job == b.job
    && Moves(b.state, b'.state)
  }

  lemma OkDescends(step: Step, b: Body, st: St, e: Env, now': int)
    requires InTime(e) && b.lastUpdate <= e.t0 && StepOf(b) == Some(step) && !Terminal(step)
    requires SameTask(b, st.body) && st.body.tries == b.tries
    requires Progress(false, Waits(step), b, Ok(st), e)
    requires At(st.body, Waits(step), e.t1).notBefore <= now'
    ensures Descends(st.body, now', b, e.t0)
  {
    MovesDescend(b, st.body);
  }

  lemma RaiseDescends(step: Step, b: Body, st: St, x: Exn, e: Env, now': int)
    requires InTime(e) && b.lastUpdate <= e.t0 && StepOf(b) == Some(step) && !Terminal(step)
    requires SameTask(b, st.body) && st.body.tries == b.tries
    requires Progress(false, Waits(step), b, Raise(st, x), e)
    requires e.t2 <= now'
    ensures Descends(Retry(step, st.body, x, e).value, now', b, e.t0)
  {
    MovesDescend(b, st.body);
    var b' := if Waits(step) then st.body.(lastUpdate := e.t2) else st.body;
    if st.body.state == Error {
      assert StagesLeft(AfterError(b', x)) < StagesLeft(b);
    } else {
      AfterErrorDescends(b', x);
    }
  }

  lemma TerminalDescends(step: Step, b: Body, x: Exn, e: Env, now': int)
    requires InTime(e) && b.lastUpdate <= e.t0 && Terminal(step)
    requires Retry(step, b, x, e).Some? && e.t2 + DELAY <= now'
    ensures Descends(b, now', b, e.t0)
  {
  }

  lemma ContinuationDescends(step: Step, b: Body, r: Run, e: Env, now': int)
    requires InTime(e) && b.lastUpdate <= e.t0 && StepOf(b) == Some(step)
    requires SendsOne(Terminal(step), Waits(step), b, r, e) && Progress(Terminal(step), Waits(step), b, r, e)
    requires Terminal(step) ==> r.st.body == b
    requires var own := For(b.job, Finish(step, r, e).sent); own != [] && own[|own| - 1].notBefore <= now'
    ensures var own := For(b.job, Finish(step, r, e).sent); Descends(own[|own| - 1].body, now', b, e.t0)
  {
    FinishSends(step, b, r, e);
    if r.Ok? {
      OkDescends(step, b, r.st, e, now');
    } else if Terminal(step) {
      TerminalDescends(step, b, r.exn, e, now');
    } else {
      RaiseDescends(step, b, r.st, r.exn, e, now');
    }
  }

  // --- chains of deliveries -------------------------------------------------------

  /** A delivery of one task: what it met and what it left behind. */
  datatype Delivery = Delivery(body: Body, bucket: Bucket, lastCompleted: Option<int>, env: Env, after: St) {
    function Next(): Option<Msg> { LastFor(body.job, after.sent) }
  }

  predicate Faithful(d: Delivery) {
    d.after == Deliver(d.body, d.bucket, d.lastCompleted, d.env)
  }

  /** The second delivery is of the message the first one published, not too early. */
  predicate Linked(d: Delivery, d': Delivery) {
    d.Next().Some? && d.Next().value.body == d'.body && d.Next().value.notBefore <= d'.env.t0
  }

  predicate FaithfulAt(ds: seq<Delivery>, i: nat)
    requires i < |ds|
  {
    InTime(ds[i].env) && Faithful(ds[i])
  }

  ghost predicate Chain(ds: seq<Delivery>) {
    && (forall i {:trigger FaithfulAt(ds, i)} :: 0 <= i < |ds| ==> FaithfulAt(ds, i))
    && (forall i :: 0 < i < |ds| ==> Linked(ds[i-1], ds[i]))
  }

  /** Each delivery that continues the task lowers, in this order: the stages left,
      the retries left, the time to the wait deadline. The clock restart after a
      failed wait is paid for by the retry it consumes. */
  lemma MeasureDecreases(d: Delivery, now': int)
    requires Faithful(d) && InTime(d.env) && d.body.lastUpdate <= d.env.t0
    requires d.Next().Some? && d.Next().value.notBefore <= now'
    ensures Descends(d.Next().value.body, now', d.body, d.env.t0)
  {
    hide Attempt;
    var b, e := d.body, d.env;
    var step := StepOf(b).value;
    var st := Fresh(b, d.bucket, d.lastCompleted);
    AttemptSends(st, e, step);
    AttemptMoves(st, e, step);
    if Terminal(step) { TerminalLeavesBody(st, e, step); }
    ContinuationDescends(step, b, Attempt(step, st, e), e, now');
  }

  function WaitSpan(b: Body): nat {
    if b.waitTimeout.Some? then Max0(b.waitTimeout.value) else 0
  }

  /** An upper bound on the deliveries a task has left. */
  function Budget(b: Body, now: int): nat {
    (StagesLeft(b) + RetriesLeft(b)) * (WaitSpan(b) + 2) + TimeLeft(b, now)
  }

  lemma Scale(units': nat, units: nat, span: nat)
    requires units' < units
    ensures units' * span + span <= units * span
  {
    assert (units - units' - 1) * span >= 0;
    assert units * span == (units - units' - 1) * span + units' * span + span;
  }

  lemma TimeLeftFits(b: Body, now: int)
    requires b.lastUpdate <= now
    ensures TimeLeft(b, now) < WaitSpan(b) + 2
  {
  }

  lemma BudgetDecreases(b: Body, now: int, b': Body, now': int)
    requires LexBelow(b', now', b, now) && NoMoreUnits(b', b)
    requires b'.waitTimeout == b.waitTimeout && b'.lastUpdate <= now'
    ensures Budget(b', now') < Budget(b, now)
  {
    var units, units' := StagesLeft(b) + RetriesLeft(b), StagesLeft(b') + RetriesLeft(b');
    TimeLeftFits(b', now');
    if units' < units { Scale(units', units, WaitSpan(b) + 2); }
  }

  /** Termination with a bound: from any body, however its deliveries fail, at most
      Budget + 1 of them follow one another. */
  lemma {:induction false} ChainsAreBounded(ds: seq<Delivery>)
    requires Chain(ds) && ds != [] && ds[0].body.lastUpdate <= ds[0].env.t0
    ensures |ds| <= Budget(ds[0].body, ds[0].env.t0) + 1
    decreases |ds|
  {
    hide Faithful;
    if |ds| > 1 {
      var d, d' := ds[0], ds[1];
      assert Linked(ds[1-1], ds[1]);
      assert FaithfulAt(ds, 0);
      MeasureDecreases(d, d'.env.t0);
      BudgetDecreases(d.body, d.env.t0, d'.body, d'.env.t0);
      var rest := ds[1..];
      forall i | 0 < i < |rest| ensures Linked(rest[i-1], rest[i]) {
        assert Linked(ds[i+1-1], ds[i+1]);
      }
      forall i | 0 <= i < |rest| ensures FaithfulAt(rest, i) { assert FaithfulAt(ds, i + 1); }
      ChainsAreBounded(rest);
    }
  }
}
