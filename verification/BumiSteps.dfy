/** What one delivery does, as functions: every step of the pipeline, the timeout
    checks and the error handlers. External calls are numbered in the order they are
    made; the environment says which of them, if any, raises. */
module BumiSteps {
  import opened Wrappers
  import opened BumiTypes

  /** How the outcome of the module run is reported. */
  datatype ModuleRun = Returned(error: Option<string>) | Threw(text: string)

  /** Everything a delivery does not control: the clock when the timeout check, the
      step and the error handler run; the installed and the disabled modules; the
      external call that raises; whether the handler's own publish raises; the bucket
      as the reads of this delivery see it, in listing order; the module's outcome. */
  datatype Env = Env(
    t0: int, t1: int, t2: int,
    installed: Folder -> seq<string>, disabled: set<string>,
    faultAt: nat, handlerFault: bool,
    seen: seq<Key>, content: Bucket,
    run: ModuleRun)

  /** The state of a delivery in progress: the body, the shared world, the messages
      published so far and the number of external calls made. */
  datatype St = St(body: Body, bucket: Bucket, lastCompleted: Option<int>, sent: seq<Msg>, calls: nat)

  datatype Run = Ok(st: St) | Raise(st: St, exn: Exn) {
    predicate IsFailure() { Raise? }
    function PropagateFailure(): Run requires Raise? { this }
    function Extract(): St requires Ok? { st }
  }

  function Call(st: St, e: Env): Run {
    if st.calls == e.faultAt then Raise(st, Failure) else Ok(st.(calls := st.calls + 1))
  }

  function At(b: Body, delayed: bool, now: int): Msg {
    Msg(b, now + if delayed then DELAY else 0)
  }

  function Publish(st: St, e: Env, m: Msg): Run {
    var st :- Call(st, e);
    Ok(st.(sent := st.sent + [m]))
  }

  function Upload(st: St, e: Env, r: Result): Run
    requires st.body.job.Some?
  {
    var st :- Call(st, e);
    Ok(st.(bucket := st.bucket[OwnKey(st.body) := r]))
  }

  function OwnKey(b: Body): Key
    requires b.job.Some?
  {
    Key(b.org, b.createdAt, b.job.value.folder, b.job.value.name)
  }

  function Listing(e: Env, p: Prefix): seq<Key> {
    FirstPage(Select(e.seen, p))
  }

  function FolderListing(b: Body, e: Env, f: Folder): seq<Key> {
    Listing(e, OfFolder(b.org, b.createdAt, f))
  }

  // --- timeout checks -------------------------------------------------------

  predicate TaskLate(b: Body, e: Env) {
    e.t0 - b.lastUpdate > b.taskTimeout
  }

  const TIMEOUT_TEXT := "Timeout error while process task"

  function Check(step: Step, st: St, e: Env): (r: Run)
    requires step == Process ==> st.body.job.Some?
    ensures r.Ok? ==> r.st == st
  {
    match step
    case SetStarted | InitializeChecklist | CollectCheckResult | InitializeArchive
       | CheckArchiveResult | InitializeService =>
      if TaskLate(st.body, e) then Raise(st, TaskTimeout) else Ok(st)
    case WaitChecklist | WaitArchive | WaitService =>
      if st.body.waitTimeout.None? then Raise(st, Failure)
      else if e.t0 - st.body.lastUpdate > st.body.waitTimeout.value then Raise(st, WaitTimeout)
      else Ok(st)
    case Process =>
      if TaskLate(st.body, e) then
        var st :- Upload(st, e, Result(None, Some(TIMEOUT_TEXT)));
        Raise(st, TaskTimeout)
      else Ok(st)
    case _ => Ok(st)
  }

  // --- steps ----------------------------------------------------------------

  function Continue(st: St, e: Env, delayed: bool): Run {
    Publish(st, e, At(st.body, delayed, e.t1))
  }

  function UpdateTimeout(st: St, e: Env): Run {
    Continue(st.(body := st.body.(lastUpdate := e.t1)), e, false)
  }

  function MoveTo(st: St, s: State): St {
    st.(body := st.body.(state := s))
  }

  function ChildBody(b: Body, e: Env, f: Folder, name: string): Body {
    Body(b.org, b.createdAt, b.checklist, Created, 0, b.maxRetries, b.taskTimeout, None,
         e.t1, None, Some(Job(name, f)), None)
  }

  function CreateChildren(st: St, e: Env, f: Folder, names: seq<string>): Run
    decreases |names|
  {
    if names == [] then Ok(st)
    else
      var st :- Publish(st, e, At(ChildBody(st.body, e, f, names[0]), false, e.t1));
      CreateChildren(st, e, f, names[1..])
  }

  function FanOut(st: St, e: Env, f: Folder, names: seq<string>, target: State): Run {
    var st :- CreateChildren(st, e, f, names);
    UpdateTimeout(MoveTo(st.(body := st.body.(childrenCount := Some(|names|))), target), e)
  }

  function DoInitializeChecklist(st: St, e: Env): Run {
    var st :- Call(st, e);
    var names := Enabled(e.installed(Recommendations), e.disabled);
    if names == [] then UpdateTimeout(MoveTo(st, WaitedService), e)
    else FanOut(st, e, Recommendations, names, InitializedChecklist)
  }

  function DoInitialize(st: St, e: Env, f: Folder, target: State): Run {
    var st :- Call(st, e);
    FanOut(st, e, f, Enabled(e.installed(f), e.disabled), target)
  }

  function DoWait(st: St, e: Env, f: Folder, target: State): Run {
    var st :- Call(st, e);
    if st.body.childrenCount.None? then Raise(st, Failure)
    else if |FolderListing(st.body, e, f)| == st.body.childrenCount.value then
      Continue(MoveTo(st.(body := st.body.(lastUpdate := e.t1)), target), e, true)
    else Continue(st, e, true)
  }

  /** Downloads the listed objects one after the other. */
  function ReadAll(st: St, e: Env, keys: seq<Key>): Run
    decreases |keys|
  {
    if keys == [] then Ok(st)
    else
      var st :- Call(st, e);
      ReadAll(st, e, keys[1..])
  }

  predicate TimedOut(e: Env, k: Key) {
    k in e.content && Truthy(e.content[k].timeoutError)
  }

  predicate Erroneous(e: Env, k: Key) {
    k in e.content && Bad(e.content[k])
  }

  /** The collected results fail the task when one of them is a timeout. */
  function Conclude(st: St, e: Env, keys: seq<Key>): Run {
    UpdateTimeout(MoveTo(st, if exists k :: k in keys && TimedOut(e, k) then Error else CollectedCheckResult), e)
  }

  function DoCollect(st: St, e: Env): Run {
    var st :- Call(st, e);
    var keys := FolderListing(st.body, e, Recommendations);
    var st :- ReadAll(st, e, keys);
    var st :- if keys == [] then Ok(st) else Call(st, e);
    Conclude(st, e, keys)
  }

  /** Reads archive results until the first erroneous one, which fails the task. */
  function Inspect(st: St, e: Env, keys: seq<Key>): Run
    decreases |keys|
  {
    if keys == [] then Ok(st)
    else
      var st :- Call(st, e);
      if Erroneous(e, keys[0]) then Ok(MoveTo(st, Error)) else Inspect(st, e, keys[1..])
  }

  function DoCheckArchive(st: St, e: Env): Run {
    var st := MoveTo(st, CheckedArchiveResult);
    var st :- Call(st, e);
    var st :- Inspect(st, e, FolderListing(st.body, e, Archive));
    UpdateTimeout(st, e)
  }

  function ChecklistUpdate(st: St, e: Env): Run {
    var st :- Call(st, e);
    Ok(st.(lastCompleted := Some(st.body.createdAt)))
  }

  function DoUpdateChecklist(st: St, e: Env): Run {
    var st :- ChecklistUpdate(st, e);
    Continue(MoveTo(st, UpdatedChecklist), e, false)
  }

  /** Collecting the failed modules for the log only reads. */
  function DoSucceed(st: St, e: Env): Run {
    Call(st, e)
  }

  /** A child task must not complete the checklist. */
  function DoFail(st: St, e: Env): Run {
    if st.body.job.Some? then Ok(st) else ChecklistUpdate(st, e)
  }

  function DoFailNotifiable(st: St, e: Env): Run {
    var st :- Call(st, e);
    DoFail(st, e)
  }

  function ResultOf(run: ModuleRun): Result {
    match run
    case Returned(error) => Result(error, None)
    case Threw(text) => Result(Some(text), None)
  }

  function DoProcess(st: St, e: Env): Run
    requires st.body.job.Some?
  {
    var st :- Call(st, e);
    var r := if st.body.job.value.name in e.disabled then Result(None, None) else ResultOf(e.run);
    var st :- Upload(st, e, r);
    UpdateTimeout(MoveTo(st, Processed), e)
  }

  /** The object's name does not contain the run's timestamp. */
  predicate OtherRun(b: Body, k: Key) {
    !Contains(Path(k), Decimal(b.createdAt))
  }

  function Stale(b: Body, keys: seq<Key>): set<Key> {
    set k | k in keys && OtherRun(b, k)
  }

  function DoCleanup(st: St, e: Env): Run {
    var st :- Call(st, e);
    var stale := Stale(st.body, Listing(e, OfOrg(st.body.org)));
    if stale == {} then Ok(st)
    else
      var st :- Call(st, e);
      Ok(st.(bucket := st.bucket - stale))
  }

  function Execute(step: Step, st: St, e: Env): Run
    requires step == Process ==> st.body.job.Some?
  {
    match step
    case SetStarted => UpdateTimeout(MoveTo(st, Started), e)
    case InitializeChecklist => DoInitializeChecklist(st, e)
    case WaitChecklist => DoWait(st, e, Recommendations, WaitedChecklist)
    case CollectCheckResult => DoCollect(st, e)
    case InitializeArchive => DoInitialize(st, e, Archive, InitializedArchive)
    case WaitArchive => DoWait(st, e, Archive, WaitedArchive)
    case CheckArchiveResult => DoCheckArchive(st, e)
    case InitializeService => DoInitialize(st, e, Service, InitializedService)
    case WaitService => DoWait(st, e, Service, WaitedService)
    case UpdateChecklist => DoUpdateChecklist(st, e)
    case SetSucceededNotifiable => DoSucceed(st, e)
    case SetFailedNotifiable => DoFailNotifiable(st, e)
    case Process => DoProcess(st, e)
    case Cleanup => DoCleanup(st, e)
    case SetFailed => DoFail(st, e)
  }

  /** The timeout check followed by the step. */
  function Attempt(step: Step, st: St, e: Env): Run
    requires step == Process ==> st.body.job.Some?
  {
    var st :- Check(step, st, e);
    Execute(step, st, e)
  }

  // --- error handling -------------------------------------------------------

  predicate CanContinue(b: Body, x: Exn) {
    x == Failure && b.tries < b.maxRetries
  }

  function AfterError(b: Body, x: Exn): Body {
    if CanContinue(b, x) then b.(tries := b.tries + 1)
    else b.(reason := Some(x), state := Error)
  }

  predicate Waits(step: Step) {
    step.WaitChecklist? || step.WaitArchive? || step.WaitService?
  }

  /** The body the handler publishes, if any: a terminal step is put back unchanged
      while the wait time lasts, and not at all for a body without a wait timeout. */
  function Retry(step: Step, b: Body, x: Exn, e: Env): Option<Body> {
    if Terminal(step) then
      if b.waitTimeout.Some? && e.t2 - b.lastUpdate <= b.waitTimeout.value then Some(b) else None
    else if Waits(step) then Some(AfterError(b.(lastUpdate := e.t2), x))
    else Some(AfterError(b, x))
  }

  function Handle(step: Step, st: St, x: Exn, e: Env): St {
    var again := Retry(step, st.body, x, e);
    if again.None? then st
    else
      var st := st.(body := again.value);
      if e.handlerFault then st
      else st.(sent := st.sent + [At(st.body, Waits(step) || Terminal(step), e.t2)])
  }

  function Fresh(b: Body, bucket: Bucket, lastCompleted: Option<int>): St {
    St(b, bucket, lastCompleted, [], 0)
  }

  function Finish(step: Step, r: Run, e: Env): St {
    match r
    case Ok(st) => st
    case Raise(st, x) => Handle(step, st, x, e)
  }

  /** A whole delivery: table lookup, timeout check, step, error handler, ack. */
  function Deliver(b: Body, bucket: Bucket, lastCompleted: Option<int>, e: Env): St {
    var st := Fresh(b, bucket, lastCompleted);
    match StepOf(b)
    case None => st
    case Some(step) => Finish(step, Attempt(step, st, e), e)
  }
}
