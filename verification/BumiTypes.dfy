/** Data of the recommendation pipeline: task bodies, queue messages, the result
    bucket, and the two state-to-step tables. */
module BumiTypes {
  import opened Wrappers

  /** Seconds a message stays in the delayed queue before it is delivered. */
  const DELAY: int := 2

  /** Objects returned by one listing call of the bucket. */
  const PAGE: nat := 1000

  datatype State =
    | Created | Started
    | InitializedChecklist | WaitedChecklist | CollectedCheckResult
    | InitializedArchive | WaitedArchive | CheckedArchiveResult
    | InitializedService | WaitedService | UpdatedChecklist
    | Processed | Completed | Error

  datatype Folder = Recommendations | Archive | Service

  datatype Exn = TaskTimeout | WaitTimeout | Failure

  /** What a child task works on; a parent task has none. */
  datatype Job = Job(name: string, folder: Folder)

  /** The JSON body of a queue message. A child body carries neither a wait timeout
      nor a children count. */
  datatype Body = Body(
    org: string, createdAt: int, checklist: string, state: State,
    tries: int, maxRetries: int, taskTimeout: int, waitTimeout: Option<int>,
    lastUpdate: int, childrenCount: Option<int>, job: Option<Job>, reason: Option<Exn>)

  /** A queued message; a delayed one is not delivered before its time. */
  datatype Msg = Msg(body: Body, notBefore: int)

  datatype Key = Key(org: string, createdAt: int, folder: Folder, name: string)

  /** A stored module result; the module's data is not looked at by the pipeline. */
  datatype Result = Result(error: Option<string>, timeoutError: Option<string>)

  type Bucket = map<Key, Result>

  /** The step classes. */
  datatype Step =
    | SetStarted | InitializeChecklist | WaitChecklist | CollectCheckResult
    | InitializeArchive | WaitArchive | CheckArchiveResult
    | InitializeService | WaitService | UpdateChecklist
    | SetSucceededNotifiable | SetFailedNotifiable
    | Process | Cleanup | SetFailed

  function ParentStep(s: State): Option<Step> {
    match s
    case Created => Some(SetStarted)
    case Started => Some(InitializeChecklist)
    case InitializedChecklist => Some(WaitChecklist)
    case WaitedChecklist => Some(CollectCheckResult)
    case CollectedCheckResult => Some(InitializeArchive)
    case InitializedArchive => Some(WaitArchive)
    case WaitedArchive => Some(CheckArchiveResult)
    case CheckedArchiveResult => Some(InitializeService)
    case InitializedService => Some(WaitService)
    case WaitedService => Some(UpdateChecklist)
    case UpdatedChecklist => Some(SetSucceededNotifiable)
    case Error => Some(SetFailedNotifiable)
    case _ => None
  }

  function ChildStep(s: State): Option<Step> {
    match s
    case Created => Some(SetStarted)
    case Started => Some(Process)
    case Processed => Some(Cleanup)
    case Error => Some(SetFailed)
    case _ => None
  }

  /** The step the worker runs for a message: the table depends on whether the body
      names a module. None is a table miss, for which the message is dropped. */
  function StepOf(b: Body): Option<Step> {
    if b.job.Some? then ChildStep(b.state) else ParentStep(b.state)
  }

  predicate Terminal(step: Step) {
    step.SetSucceededNotifiable? || step.SetFailedNotifiable? || step.Cleanup? || step.SetFailed?
  }

  /** A string field counts as set when it is present and not empty. */
  predicate Truthy(text: Option<string>) {
    text.Some? && text.value != ""
  }

  predicate Bad(r: Result) {
    Truthy(r.timeoutError) || Truthy(r.error)
  }

  predicate Distinct<T(==)>(s: seq<T>) {
    forall i, j :: 0 <= i < j < |s| ==> s[i] != s[j]
  }

  /** Installed modules minus the disabled ones, in installation order. */
  function Enabled(installed: seq<string>, disabled: set<string>): seq<string> {
    if installed == [] then []
    else (if installed[0] in disabled then [] else [installed[0]]) + Enabled(installed[1..], disabled)
  }

  /** The two name prefixes the pipeline lists. */
  datatype Prefix = OfOrg(org: string) | OfFolder(org: string, createdAt: int, folder: Folder)

  predicate Under(k: Key, p: Prefix) {
    && k.org == p.org
    && (p.OfFolder? ==> k.createdAt == p.createdAt && k.folder == p.folder)
  }

  /** The keys under a prefix, in listing order. */
  function Select(keys: seq<Key>, p: Prefix): seq<Key> {
    if keys == [] then []
    else (if Under(keys[0], p) then [keys[0]] else []) + Select(keys[1..], p)
  }

  function FirstPage(keys: seq<Key>): seq<Key> {
    if |keys| <= PAGE then keys else keys[..PAGE]
  }

  // --- object names ---------------------------------------------------------

  function Digit(d: int): char
    requires 0 <= d < 10
  {
    "0123456789"[d]
  }

  function Decimal(n: int): string
    decreases if n < 0 then 1 - n else n
  {
    if n < 0 then "-" + Decimal(-n)
    else if n < 10 then [Digit(n)]
    else Decimal(n / 10) + [Digit(n % 10)]
  }

  function FolderName(f: Folder): string {
    match f
    case Recommendations => "recommendations"
    case Archive => "archive"
    case Service => "service"
  }

  function PrefixText(p: Prefix): string {
    match p
    case OfOrg(org) => org + "/"
    case OfFolder(org, createdAt, f) => org + "/" + Decimal(createdAt) + "/" + FolderName(f) + "/"
  }

  function Path(k: Key): string {
    PrefixText(OfFolder(k.org, k.createdAt, k.folder)) + k.name + ".json"
  }

  predicate Contains(text: string, part: string) {
    exists i {:trigger text[i..]} :: 0 <= i <= |text| && part <= text[i..]
  }
}
