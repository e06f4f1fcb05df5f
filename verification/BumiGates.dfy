/** When a barrier or a gate lets a task through, and what a finished pipeline has
    been through. */
module BumiGates {
  import opened Wrappers
  import opened BumiTypes
  import opened BumiSteps
  import opened BumiDelivery
  import opened BumiProgress

  // --- listings -------------------------------------------------------------------

  lemma {:induction false} SelectIsFilter(keys: seq<Key>, p: Prefix)
    ensures forall k :: k in Select(keys, p) <==> k in keys && Under(k, p)
    ensures Distinct(keys) ==> Distinct(Select(keys, p))
  {
    if keys != [] {
      SelectIsFilter(keys[1..], p);
      assert forall k :: k in keys <==> k == keys[0] || k in keys[1..];
      if Distinct(keys) {
        assert Distinct(keys[1..]);
        assert keys[0] !in keys[1..];
      }
    }
  }

  /** A first page shows keys of the prefix, each once; if it is not full, all of them. */
  lemma ListingShows(e: Env, p: Prefix)
    requires Distinct(e.seen)
    ensures var keys := Listing(e, p);
            && Distinct(keys)
            && (forall k :: k in keys ==> k in e.seen && Under(k, p))
            && (|keys| < PAGE ==> forall k :: k in e.seen && Under(k, p) ==> k in keys)
  {
    SelectIsFilter(e.seen, p);
  }

  lemma {:induction false} DistinctSize<T>(s: seq<T>)
    requires Distinct(s)
    ensures |(set x | x in s)| == |s|
  {
    if s != [] {
      var rest := s[1..];
      assert (set x | x in s) == (set x | x in rest) + {s[0]};
      DistinctSize(rest);
    }
  }

  lemma Pigeonhole<T>(a: set<T>, b: set<T>)
    requires a <= b && |a| >= |b|
    ensures a == b
  {
    assert b == a + (b - a);
  }

  function Names(keys: seq<Key>): set<string> {
    set k | k in keys :: k.name
  }

  lemma {:induction false} NamesAreDistinct(keys: seq<Key>, p: Prefix)
    requires Distinct(keys) && p.OfFolder? && forall k :: k in keys ==> Under(k, p)
    ensures |Names(keys)| == |keys|
  {
    if keys != [] {
      var rest := keys[1..];
      assert keys == [keys[0]] + rest;
      forall k | k in rest ensures k.name != keys[0].name && Under(k, p) {
        assert k in keys && Under(keys[0], p);
      }
      assert Names(keys) == Names(rest) + {keys[0].name};
      NamesAreDistinct(rest, p);
    }
  }

  /** Equal counts mean equal sets: with as many distinct listed objects as modules, no
      module lacks an object exactly when no object is of a module outside the list. */
  lemma CountsImplySets(keys: seq<Key>, names: seq<string>, p: Prefix)
    requires Distinct(keys) && Distinct(names) && p.OfFolder? && |keys| == |names|
    requires forall k :: k in keys ==> Under(k, p)
    ensures (forall name :: name in names ==> Key(p.org, p.createdAt, p.folder, name) in keys)
              <==> (forall k :: k in keys ==> k.name in names)
  {
    var found := Names(keys);
    var wanted := set n | n in names;
    NamesAreDistinct(keys, p);
    DistinctSize(names);
    if forall k :: k in keys ==> k.name in names {
      Pigeonhole(found, wanted);
      forall name | name in names ensures Key(p.org, p.createdAt, p.folder, name) in keys {
        assert name in found;
      }
    }
    if forall name :: name in names ==> Key(p.org, p.createdAt, p.folder, name) in keys {
      assert wanted <= found by {
        forall n | n in wanted ensures n in found { assert Key(p.org, p.createdAt, p.folder, n) in keys; }
      }
      Pigeonhole(wanted, found);
      forall k | k in keys ensures k.name in names { assert k.name in found; }
    }
  }

  predicate SeenComplete(c: Config, e: Env, f: Folder) {
    forall name :: name in c.modules(f) ==> Key(c.org, c.createdAt, f, name) in e.seen
  }

  /** The barrier test: the number of listed objects equals the number of modules
      exactly when the listing's bucket holds a result of every module and the
      modules fit one listing page. */
  lemma BarrierTestExact(c: Config, b: Body, bucket: Bucket, e: Env, f: Folder)
    requires ValidConfig(c) && BodyOk(c, b) && BucketOk(c, bucket) && EnvOk(c, b, bucket, e)
    ensures |FolderListing(b, e, f)| == |c.modules(f)| <==> SeenComplete(c, e, f) && |c.modules(f)| <= PAGE
  {
    var p := OfFolder(b.org, b.createdAt, f);
    var keys, all, names := Listing(e, p), Select(e.seen, p), c.modules(f);
    ListingShows(e, p);
    SelectIsFilter(e.seen, p);
    if |keys| == |names| {
      CountsImplySets(keys, names, p);
    }
    if SeenComplete(c, e, f) && |names| <= PAGE {
      var found := Names(all);
      NamesAreDistinct(all, p);
      DistinctSize(names);
      assert found == set n | n in names by {
        forall n | n in names ensures n in found { assert Key(c.org, c.createdAt, f, n) in all; }
      }
    }
  }

  /** When the modules have changed since the count was taken, an equal count opens the
      barrier with every module's result in sight exactly when no listed object is of a
      module that is no longer there. */
  lemma BarrierWithOtherModules(st: St, e: Env, f: Folder, target: State, names: seq<string>)
    requires Distinct(e.seen) && Distinct(names) && st.body.childrenCount == Some(|names|) && target != st.body.state
    ensures var keys := FolderListing(st.body, e, f);
            DoWait(st, e, f, target).st.body.state == target ==>
              ((forall n :: n in names ==> Key(st.body.org, st.body.createdAt, f, n) in keys)
                 <==> forall k :: k in keys ==> k.name in names)
  {
    var p := OfFolder(st.body.org, st.body.createdAt, f);
    ListingShows(e, p);
    if |Listing(e, p)| == |names| { CountsImplySets(Listing(e, p), names, p); }
    hide FolderListing, Listing;
  }

  /** A result of every module of the folder is stored, and one page lists them all. */
  predicate Gathered(c: Config, bucket: Bucket, f: Folder) {
    Complete(c, bucket, f) && |c.modules(f)| <= PAGE
  }

  /** A wait step that moves on left no module of its folder without a stored result. */
  lemma WaitGate(c: Config, st: St, bucket: Bucket, e: Env, f: Folder, target: State)
    requires ValidConfig(c) && BodyOk(c, st.body) && BucketOk(c, bucket) && EnvOk(c, st.body, bucket, e)
    requires st.body.job.None? && BarrierFolder(st.body.state) == Some(f) && target != st.body.state
    ensures DoWait(st, e, f, target).st.body.state == target ==> Gathered(c, bucket, f)
  {
    BarrierTestExact(c, st.body, bucket, e, f);
  }

  // --- gates ------------------------------------------------------------------------

  predicate NoTimeouts(b: Body, e: Env) {
    forall k :: k in FolderListing(b, e, Recommendations) ==> !TimedOut(e, k)
  }

  predicate ArchiveClean(b: Body, e: Env) {
    forall k :: k in FolderListing(b, e, Archive) ==> !Erroneous(e, k)
  }

  /** A failure of this delivery is retried. */
  predicate Retried(b: Body, e: Env) { b.tries < b.maxRetries && !e.handlerFault }

  /** The number of the call with which collecting publishes its outcome: one call lists,
      one reads each object, and one more follows unless there is none. */
  function CollectCalls(b: Body, e: Env): nat {
    var n := |FolderListing(b, e, Recommendations)|;
    if n == 0 then 1 else n + 2
  }

  /** Nothing raised before the outcome was known, it is no timeout, and if publishing it
      raised, the handler published it. */
  predicate CollectPasses(b: Body, e: Env) {
    && !TaskLate(b, e) && NoTimeouts(b, e) && e.faultAt >= CollectCalls(b, e)
    && (e.faultAt == CollectCalls(b, e) ==> Retried(b, e))
  }

  /** Position of the first erroneous object, or the length when there is none. */
  function FirstBad(e: Env, keys: seq<Key>): (n: nat)
    ensures n <= |keys| && (forall i :: 0 <= i < n ==> !Erroneous(e, keys[i]))
    ensures n < |keys| ==> Erroneous(e, keys[n])
  {
    if keys == [] || Erroneous(e, keys[0]) then 0 else 1 + FirstBad(e, keys[1..])
  }

  /** A call raised before an erroneous archive result was read, and the retry was
      published: with the next state, for the state moves on before anything is read. */
  predicate ArchiveReadRaised(b: Body, e: Env) {
    e.faultAt <= FirstBad(e, FolderListing(b, e, Archive)) + 1 && Retried(b, e)
  }

  predicate ArchivePasses(b: Body, e: Env) {
    var keys := FolderListing(b, e, Archive);
    && !TaskLate(b, e)
    && if e.faultAt <= FirstBad(e, keys) + 1 then Retried(b, e) else FirstBad(e, keys) == |keys|
  }

  lemma {:induction false} InspectExact(st: St, e: Env, keys: seq<Key>)
    ensures var r := Inspect(st, e, keys);
            var n := FirstBad(e, keys);
            && (r.Raise? <==> st.calls <= e.faultAt < st.calls + |keys| && e.faultAt <= st.calls + n)
            && r.st.body == (if n < |keys| && !r.Raise? then st.body.(state := Error) else st.body)
            && (r.Raise? ==> r.exn == Failure)
            && (r.Ok? && n == |keys| ==> r.st == st.(calls := st.calls + n))
    decreases |keys|
  {
    if keys != [] && st.calls != e.faultAt && !Erroneous(e, keys[0]) {
      InspectExact(st.(calls := st.calls + 1), e, keys[1..]);
    }
  }

  /** The task leaves this delivery in another state than it came in. */
  predicate Took(d: Delivery, s: State, s': State) {
    d.body.state == s && d.Next().Some? && d.Next().value.body.state == s'
  }

  /** The body an error handler starts from: a wait that failed starts anew. */
  function Restarted(step: Step, b: Body, e: Env): Body { if Waits(step) then b.(lastUpdate := e.t2) else b }

  /** What a step that does not end the task leads to. */
  lemma NextIs(d: Delivery, step: Step)
    requires Faithful(d) && StepOf(d.body) == Some(step) && !Terminal(step)
    ensures var r := Attempt(step, Fresh(d.body, d.bucket, d.lastCompleted), d.env);
            d.Next() == if r.Ok? then Some(At(r.st.body, Waits(step), d.env.t1))
                        else if d.env.handlerFault then None
                        else Some(At(AfterError(Restarted(step, r.st.body, d.env), r.exn), Waits(step), d.env.t2))
  {
    hide Attempt, For;
    var st := Fresh(d.body, d.bucket, d.lastCompleted);
    AttemptSends(st, d.env, step);
    FinishSends(step, d.body, Attempt(step, st, d.env), d.env);
  }

  /** The barrier's test passes in time, and if publishing the outcome raised, the handler
      published it. */
  predicate WaitPasses(b: Body, e: Env, f: Folder) {
    && b.waitTimeout.Some? && e.t0 - b.lastUpdate <= b.waitTimeout.value
    && b.childrenCount == Some(|FolderListing(b, e, f)|)
    && e.faultAt >= 1 && (e.faultAt == 1 ==> Retried(b, e))
  }

  /** The state behind the barrier of a folder. */
  function PastBarrier(f: Folder): State {
    match f case Recommendations => WaitedChecklist case Archive => WaitedArchive case Service => WaitedService
  }

  lemma WaitAttempt(st: St, e: Env, f: Folder, target: State)
    requires st.calls == 0 && target != st.body.state && target != Error
    ensures var r := DoWait(st, e, f, target);
            var counted := st.body.childrenCount == Some(|FolderListing(st.body, e, f)|);
            && (r.Raise? ==> r.exn == Failure)
            && (e.faultAt == 0 || !counted ==> r.st.body == st.body)
            && (e.faultAt > 0 && counted ==>
                  r.st.body == st.body.(state := target, lastUpdate := e.t1) && (r.Raise? <==> e.faultAt == 1))
  {
    hide Listing;
  }

  lemma WaitStep(st: St, e: Env, f: Folder)
    requires st.calls == 0 && st.body.job.None? && BarrierFolder(st.body.state) == Some(f)
    ensures var r := Attempt(StepOf(st.body).value, st, e);
            var b := st.body;
            var intime := b.waitTimeout.Some? && e.t0 - b.lastUpdate <= b.waitTimeout.value;
            && (intime && e.faultAt > 0 && b.childrenCount == Some(|FolderListing(b, e, f)|) ==>
                  r.st.body == b.(state := PastBarrier(f), lastUpdate := e.t1)
                  && (r.Raise? <==> e.faultAt == 1) && (r.Raise? ==> r.exn == Failure))
            && (!(intime && e.faultAt > 0 && b.childrenCount == Some(|FolderListing(b, e, f)|)) ==> r.st.body == b)
  {
    WaitAttempt(st, e, f, PastBarrier(f));
    hide FolderListing, DoWait;
  }

  /** A barrier lets a task through exactly when this holds. */
  lemma WaitGateExact(d: Delivery, f: Folder)
    requires Faithful(d) && d.body.job.None? && BarrierFolder(d.body.state) == Some(f)
    ensures Took(d, d.body.state, PastBarrier(f)) <==> WaitPasses(d.body, d.env, f)
  {
    NextIs(d, StepOf(d.body).value);
    WaitStep(Fresh(d.body, d.bucket, d.lastCompleted), d.env, f);
    hide Faithful, FolderListing, Attempt, Delivery.Next;
  }

  lemma CollectAttempt(st: St, e: Env)
    requires st.body.state == WaitedChecklist && st.calls == 0 && st.body.job.None?
    ensures var r := Attempt(CollectCheckResult, st, e);
            && (r.Ok? <==> !TaskLate(st.body, e) && e.faultAt > CollectCalls(st.body, e))
            && (r.Raise? ==> (r.exn == Failure <==> !TaskLate(st.body, e)))
            && r.st.body.state == (if TaskLate(st.body, e) || e.faultAt < CollectCalls(st.body, e) then WaitedChecklist
                                   else if NoTimeouts(st.body, e) then CollectedCheckResult else Error)
            && r.st.body.tries == st.body.tries && r.st.body.maxRetries == st.body.maxRetries
  {
    var keys := FolderListing(st.body, e, Recommendations);
    var called := Call(st, e);
    if called.Ok? { ReadAllKeeps(called.st, e, keys); }
    hide TimedOut, Listing;
  }

  /** The collect gate lets a task through exactly when this holds. */
  lemma CollectGateExact(d: Delivery)
    requires Faithful(d) && d.body.job.None? && d.body.state == WaitedChecklist
    ensures Took(d, WaitedChecklist, CollectedCheckResult) <==> CollectPasses(d.body, d.env)
  {
    NextIs(d, CollectCheckResult);
    CollectAttempt(Fresh(d.body, d.bucket, d.lastCompleted), d.env);
    hide Attempt, Faithful, NoTimeouts, TaskLate, CollectCalls;
  }

  lemma ArchiveAttempt(st: St, e: Env)
    requires st.body.state == WaitedArchive && st.calls == 0 && st.body.job.None?
    ensures var r := Attempt(CheckArchiveResult, st, e);
            var keys := FolderListing(st.body, e, Archive);
            var n := FirstBad(e, keys);
            && (r.Raise? ==> (r.exn == Failure <==> !TaskLate(st.body, e)))
            && (TaskLate(st.body, e) ==> r.Raise?)
            && (!TaskLate(st.body, e) && e.faultAt <= n + 1 ==> r.Raise? && r.st.body.state == CheckedArchiveResult)
            && (!TaskLate(st.body, e) && e.faultAt > n + 1 ==>
                  if n < |keys| then r.st.body.state == Error else r.Ok? && r.st.body.state == CheckedArchiveResult)
            && r.st.body.tries == st.body.tries && r.st.body.maxRetries == st.body.maxRetries
  {
    var keys := FolderListing(st.body, e, Archive);
    var called := Call(MoveTo(st, CheckedArchiveResult), e);
    if called.Ok? { InspectExact(called.st, e, keys); }
    hide FirstBad, Inspect, Listing;
  }

  /** The archive gate lets a task through exactly when this holds: the results read were
      clean, or a call raised before an erroneous one was read and the retry goes on. */
  lemma ArchiveGateExact(d: Delivery)
    requires Faithful(d) && d.body.job.None? && d.body.state == WaitedArchive
    ensures Took(d, WaitedArchive, CheckedArchiveResult) <==> ArchivePasses(d.body, d.env)
  {
    NextIs(d, CheckArchiveResult);
    ArchiveAttempt(Fresh(d.body, d.bucket, d.lastCompleted), d.env);
    hide Attempt, Faithful, FirstBad, TaskLate;
  }

  // --- what is read and what is stored ------------------------------------------------

  /** Every object of the run is listed and read as it is stored. */
  predicate Current(c: Config, bucket: Bucket, e: Env) {
    forall k :: k in bucket && Own(c, k) ==> k in e.seen && k in e.content && e.content[k] == bucket[k]
  }

  function ResultKey(c: Config, f: Folder, name: string): Key { Key(c.org, c.createdAt, f, name) }

  predicate NoStoredTimeout(c: Config, bucket: Bucket) {
    forall name :: name in c.modules(Recommendations) ==>
      var k := ResultKey(c, Recommendations, name);
      k in bucket && (bucket[k].timeoutError == None || bucket[k].timeoutError == Some(""))
  }

  predicate NoStoredError(c: Config, bucket: Bucket) {
    forall name :: name in c.modules(Archive) ==>
      var k := ResultKey(c, Archive, name);
      && k in bucket && (bucket[k].timeoutError == None || bucket[k].timeoutError == Some(""))
      && (bucket[k].error == None || bucket[k].error == Some(""))
  }

  /** With current reads of a gathered folder, a step sees exactly the stored results. */
  lemma ListedIffStored(c: Config, b: Body, bucket: Bucket, e: Env, f: Folder, k: Key)
    requires ValidConfig(c) && BodyOk(c, b) && BucketOk(c, bucket) && EnvOk(c, b, bucket, e)
    requires Gathered(c, bucket, f) && Current(c, bucket, e)
    ensures k in FolderListing(b, e, f) <==> k.name in c.modules(f) && k == ResultKey(c, f, k.name)
    ensures k in FolderListing(b, e, f) ==> k in bucket && k in e.content && e.content[k] == bucket[k]
  {
    var p := OfFolder(b.org, b.createdAt, f);
    var keys := Listing(e, p);
    ListingShows(e, p);
    assert forall name :: name in c.modules(f) ==> Own(c, ResultKey(c, f, name));
    BarrierTestExact(c, b, bucket, e, f);
    assert forall k :: k in keys ==> Own(c, k) && k.name in c.modules(f);
    CountsImplySets(keys, c.modules(f), p);
  }

  /** With current reads, the barrier's test is about what is stored. */
  lemma CountIsGathered(c: Config, b: Body, bucket: Bucket, e: Env, f: Folder)
    requires ValidConfig(c) && BodyOk(c, b) && BucketOk(c, bucket) && EnvOk(c, b, bucket, e) && Current(c, bucket, e)
    ensures |FolderListing(b, e, f)| == |c.modules(f)| <==> Gathered(c, bucket, f)
  {
    BarrierTestExact(c, b, bucket, e, f);
    assert forall name :: name in c.modules(f) ==> Own(c, Key(c.org, c.createdAt, f, name));
  }

  lemma StoredOutcomes(c: Config, b: Body, bucket: Bucket, e: Env)
    requires ValidConfig(c) && BodyOk(c, b) && BucketOk(c, bucket) && EnvOk(c, b, bucket, e) && Current(c, bucket, e)
    ensures Gathered(c, bucket, Recommendations) ==> (NoTimeouts(b, e) <==> NoStoredTimeout(c, bucket))
    ensures Gathered(c, bucket, Archive) ==> (ArchiveClean(b, e) <==> NoStoredError(c, bucket))
  {
    forall f, k | Gathered(c, bucket, f)
      ensures k in FolderListing(b, e, f) <==> k.name in c.modules(f) && k == ResultKey(c, f, k.name)
      ensures k in FolderListing(b, e, f) ==> k in bucket && k in e.content && e.content[k] == bucket[k]
    {
      ListedIffStored(c, b, bucket, e, f, k);
    }
    hide FolderListing;
  }

  // --- what a finished pipeline went through --------------------------------------------

  /** A delivery of this run's parent task in a well-formed world. */
  ghost predicate Sound(c: Config, d: Delivery) {
    && d.body.job.None? && BodyOk(c, d.body) && BucketOk(c, d.bucket)
    && EnvOk(c, d.body, d.bucket, d.env) && Faithful(d)
  }

  /** A continuation that has not failed carries the state the attempt reached. */
  lemma NextState(d: Delivery)
    requires Faithful(d) && d.Next().Some? && d.Next().value.body.state != Error
    ensures var r := Attempt(StepOf(d.body).value, Fresh(d.body, d.bucket, d.lastCompleted), d.env);
            r.st.body.state == d.Next().value.body.state
  {
    hide Attempt;
    var step := StepOf(d.body).value;
    var st := Fresh(d.body, d.bucket, d.lastCompleted);
    AttemptSends(st, d.env, step);
    if Terminal(step) { TerminalLeavesBody(st, d.env, step); }
    FinishState(step, d.body, Attempt(step, st, d.env), d.env);
  }

  lemma CheckLeavesState(step: Step, st: St, e: Env)
    requires step == Process ==> st.body.job.Some?
    ensures Check(step, st, e).Raise? ==> Attempt(step, st, e).st.body == st.body
    ensures Check(step, st, e).Ok? ==> Attempt(step, st, e) == Execute(step, st, e)
  {
  }

  lemma FinishState(step: Step, b: Body, r: Run, e: Env)
    requires SendsOne(Terminal(step), Waits(step), b, r, e) && (Terminal(step) ==> r.st.body == b)
    ensures var own := For(b.job, Finish(step, r, e).sent);
            own != [] && own[|own| - 1].body.state != Error ==> own[|own| - 1].body.state == r.st.body.state
  {
    FinishSends(step, b, r, e);
  }

  /** What each transition certifies. */
  predicate Certified(c: Config, d: Delivery, s: State, s': State) {
    match (s, s')
    case (InitializedChecklist, WaitedChecklist) => Gathered(c, d.bucket, Recommendations)
    case (WaitedChecklist, CollectedCheckResult) => CollectPasses(d.body, d.env)
    case (InitializedArchive, WaitedArchive) => Gathered(c, d.bucket, Archive)
    case (WaitedArchive, CheckedArchiveResult) => ArchivePasses(d.body, d.env)
    case (InitializedService, WaitedService) => Gathered(c, d.bucket, Service)
    case (Started, WaitedService) => c.modules(Recommendations) == []
    case (WaitedService, UpdatedChecklist) => d.after.lastCompleted == Some(d.body.createdAt)
    case _ => true
  }

  lemma ShortcutGate(st: St, e: Env)
    requires st.body.state == Started
    ensures DoInitializeChecklist(st, e).st.body.state == WaitedService ==>
              Enabled(e.installed(Recommendations), e.disabled) == []
  {
    var called := Call(st, e);
    if called.Ok? {
      CreateChildrenSends(called.st, e, Recommendations, Enabled(e.installed(Recommendations), e.disabled));
    }
  }

  lemma UpdateGate(d: Delivery)
    requires Faithful(d) && d.body.job.None? && d.body.state == WaitedService
    ensures Attempt(UpdateChecklist, Fresh(d.body, d.bucket, d.lastCompleted), d.env).st.body.state == UpdatedChecklist ==>
            d.after.lastCompleted == Some(d.body.createdAt)
  {
  }

  lemma TransitionCertifies(c: Config, d: Delivery, s': State)
    requires ValidConfig(c) && Sound(c, d) && Took(d, d.body.state, s') && s' != Error && s' != d.body.state
    ensures Certified(c, d, d.body.state, s')
  {
    var st := Fresh(d.body, d.bucket, d.lastCompleted);
    NextState(d);
    CheckLeavesState(StepOf(d.body).value, st, d.env);
    match d.body.state {
      case InitializedChecklist => WaitGate(c, st, d.bucket, d.env, Recommendations, WaitedChecklist);
      case WaitedChecklist => CollectGateExact(d);
      case InitializedArchive => WaitGate(c, st, d.bucket, d.env, Archive, WaitedArchive);
      case WaitedArchive => ArchiveGateExact(d);
      case InitializedService => WaitGate(c, st, d.bucket, d.env, Service, WaitedService);
      case Started => ShortcutGate(st, d.env);
      case WaitedService => UpdateGate(d);
      case _ =>
    }
  }

  // --- barriers stay behind -------------------------------------------------------------

  /** The barriers behind a parent's state. */
  function Behind(s: State): set<Folder> {
    match s
    case WaitedChecklist | CollectedCheckResult | InitializedArchive => {Recommendations}
    case WaitedArchive | CheckedArchiveResult | InitializedService => {Recommendations, Archive}
    case WaitedService | UpdatedChecklist => {Recommendations, Archive, Service}
    case _ => {}
  }

  /** An organization without recommendation modules goes around all barriers. */
  predicate Shortcut(c: Config, s: State) {
    c.modules(Recommendations) == [] && (s == WaitedService || s == UpdatedChecklist)
  }

  predicate BarriersHold(c: Config, b: Body, bucket: Bucket) {
    b.job.None? && !Shortcut(c, b.state) ==> forall f :: f in Behind(b.state) ==> Gathered(c, bucket, f)
  }

  lemma GatheredGrows(c: Config, before: Bucket, after: Bucket, f: Folder)
    requires Gathered(c, before, f) && Grows(c, before, after)
    ensures Gathered(c, after, f)
  {
    forall name | name in c.modules(f) ensures Key(c.org, c.createdAt, f, name) in after {
      assert Own(c, Key(c.org, c.createdAt, f, name));
    }
  }

  lemma BarriersOpen(c: Config, s: State, s': State, before: Bucket, after: Bucket)
    requires Moves(s, s') && !(s == Started && s' == WaitedService) && Grows(c, before, after)
    requires forall f :: f in Behind(s) ==> Gathered(c, before, f)
    requires BarrierFolder(s).Some? && s' != s && s' != Error ==> Gathered(c, before, BarrierFolder(s).value)
    ensures forall f :: f in Behind(s') ==> Gathered(c, after, f)
  {
    forall f | f in Behind(s') ensures Gathered(c, after, f) { GatheredGrows(c, before, after, f); }
  }

  lemma NextMoves(d: Delivery)
    requires Faithful(d) && InTime(d.env) && d.Next().Some? && d.body.lastUpdate <= d.env.t0
    ensures Moves(d.body.state, d.Next().value.body.state)
  {
    MeasureDecreases(d, d.Next().value.notBefore);
  }

  lemma NextIsCertified(c: Config, d: Delivery, s: State, s': State)
    requires ValidConfig(c) && Sound(c, d) && d.Next().Some?
    requires d.body.state == s && d.Next().value.body.state == s'
    ensures s' != Error && s' != s ==> Certified(c, d, s, s')
  {
    if s' != Error && s' != s { TransitionCertifies(c, d, s'); }
  }

  lemma BarriersExtend(c: Config, d: Delivery, b': Body, bucket: Bucket)
    requires ValidConfig(c) && Sound(c, d) && BarriersHold(c, d.body, d.bucket) && Grows(c, d.bucket, bucket)
    requires d.Next().Some? && d.Next().value.body == b' && d.body.lastUpdate <= d.env.t0
    ensures BarriersHold(c, b', bucket)
  {
    NextMoves(d);
    if b'.job.None? && !Shortcut(c, b'.state) && b'.state != Error {
      NextIsCertified(c, d, d.body.state, b'.state);
      BarriersOpen(c, d.body.state, b'.state, d.bucket, bucket);
    }
  }

  ghost predicate SoundAt(c: Config, ds: seq<Delivery>, i: nat)
    requires i < |ds|
  {
    Sound(c, ds[i])
  }

  /** What is stored of the run between two deliveries only grows. */
  predicate GrowsTo(c: Config, ds: seq<Delivery>, i: nat)
    requires 0 < i < |ds|
  {
    Grows(c, ds[i-1].after.bucket, ds[i].bucket)
  }

  /** A chain of sound deliveries that starts with the task's creation. */
  ghost predicate History(c: Config, ds: seq<Delivery>) {
    && Chain(ds) && ds != []
    && ds[0].body.state == Created && ds[0].body.lastUpdate <= ds[0].env.t0
    && (forall i {:trigger SoundAt(c, ds, i)} :: 0 <= i < |ds| ==> SoundAt(c, ds, i))
    && (forall i {:trigger GrowsTo(c, ds, i)} :: 0 < i < |ds| ==> GrowsTo(c, ds, i))
    && ds[|ds| - 1].Next().Some?
  }

  function End(ds: seq<Delivery>): Body
    requires ds != [] && ds[|ds| - 1].Next().Some?
  {
    ds[|ds| - 1].Next().value.body
  }

  lemma {:induction false} NeverEarly(ds: seq<Delivery>, i: nat)
    requires Chain(ds) && i < |ds| && ds[0].body.lastUpdate <= ds[0].env.t0
    ensures ds[i].body.lastUpdate <= ds[i].env.t0
  {
    if i > 0 {
      NeverEarly(ds, i - 1);
      var d := ds[i-1];
      assert Linked(d, ds[i]);
      assert FaithfulAt(ds, i - 1);
      MeasureDecreases(d, ds[i].env.t0);
    }
  }

  /** A sound delivery keeps what was stored of the run. */
  lemma DeliveryGrows(c: Config, d: Delivery, bucket: Bucket)
    requires Sound(c, d) && Grows(c, d.after.bucket, bucket)
    ensures Grows(c, d.bucket, bucket)
  {
    DeliverKeeps(c, d.body, d.bucket, d.lastCompleted, d.env);
    hide Deliver;
  }

  /** Along a history, every barrier behind the task stays complete. */
  lemma {:induction false} BarriersBehind(c: Config, ds: seq<Delivery>, i: nat)
    requires ValidConfig(c) && History(c, ds) && i < |ds|
    ensures BarriersHold(c, ds[i].body, ds[i].bucket)
  {
    hide Sound, Faithful, BarriersHold, Linked, Grows;
    if i == 0 {
      NothingBehind(c, ds[0]);
    } else {
      BarriersBehind(c, ds, i - 1);
      assert SoundAt(c, ds, i - 1) && GrowsTo(c, ds, i);
      NextBody(ds, i);
      NeverEarly(ds, i - 1);
      DeliveryGrows(c, ds[i-1], ds[i].bucket);
      BarriersExtend(c, ds[i-1], ds[i].body, ds[i].bucket);
    }
  }

  lemma NothingBehind(c: Config, d: Delivery)
    requires d.body.state == Created
    ensures BarriersHold(c, d.body, d.bucket)
  {
  }

  lemma NextBody(ds: seq<Delivery>, i: nat)
    requires Chain(ds) && 0 < i < |ds|
    ensures ds[i-1].Next().Some? && ds[i-1].Next().value.body == ds[i].body
  {
    assert Linked(ds[i-1], ds[i]);
  }

  lemma EndBarriers(c: Config, ds: seq<Delivery>, bucket: Bucket)
    requires ValidConfig(c) && History(c, ds) && Grows(c, ds[|ds| - 1].after.bucket, bucket)
    ensures BarriersHold(c, End(ds), bucket)
  {
    hide Sound, Faithful, BarriersHold, Linked, Grows;
    var n := |ds| - 1;
    BarriersBehind(c, ds, n);
    assert SoundAt(c, ds, n);
    NeverEarly(ds, n);
    DeliveryGrows(c, ds[n], bucket);
    BarriersExtend(c, ds[n], End(ds), bucket);
  }

  lemma StepMoves(ds: seq<Delivery>, i: nat)
    requires Chain(ds) && i < |ds| && ds[0].body.lastUpdate <= ds[0].env.t0 && ds[i].Next().Some?
    ensures Moves(ds[i].body.state, ds[i].Next().value.body.state)
  {
    NeverEarly(ds, i);
    var d := ds[i];
    assert FaithfulAt(ds, i);
    MeasureDecreases(d, d.Next().value.notBefore);
  }

  /** The states the task went through: one per delivery, then the last one. */
  function States(ds: seq<Delivery>): (states: seq<State>)
    requires ds != [] && ds[|ds| - 1].Next().Some?
    ensures |states| == |ds| + 1 && states[|ds|] == End(ds).state
    ensures forall i :: 0 <= i < |ds| ==> states[i] == ds[i].body.state
  {
    seq(|ds| + 1, i requires 0 <= i <= |ds| => if i < |ds| then ds[i].body.state else End(ds).state)
  }

  predicate Route(states: seq<State>) {
    && states != [] && states[0] == Created
    && forall i :: 0 < i < |states| ==> Moves(states[i-1], states[i])
  }

  lemma NextOf(ds: seq<Delivery>, i: nat)
    requires Chain(ds) && i < |ds| && ds[|ds| - 1].Next().Some?
    ensures ds[i].Next().Some? && ds[i].Next().value.body.state == States(ds)[i+1]
  {
    if i + 1 < |ds| { assert Linked(ds[i+1-1], ds[i+1]); }
  }

  /** Order: along a history the state stays, advances or fails, and never goes back. */
  lemma HistoryIsRoute(c: Config, ds: seq<Delivery>)
    requires History(c, ds)
    ensures Route(States(ds))
  {
    var states := States(ds);
    forall i | 0 < i < |states| ensures Moves(states[i-1], states[i]) {
      NextOf(ds, i - 1);
      StepMoves(ds, i - 1);
    }
  }

  lemma {:induction false} RouteNeverTurnsBack(states: seq<State>, i: nat, j: nat)
    requires Route(states) && i <= j < |states|
    ensures Rank(states[i]) <= Rank(states[j])
    ensures states[i] == Error ==> states[j] == Error
    decreases j - i
  {
    if i < j { RouteNeverTurnsBack(states, i, j - 1); }
  }

  /** The state a parent comes from, the shortcut aside. */
  function Before(s: State): State {
    match s
    case InitializedChecklist => Started
    case WaitedChecklist => InitializedChecklist
    case CollectedCheckResult => WaitedChecklist
    case InitializedArchive => CollectedCheckResult
    case WaitedArchive => InitializedArchive
    case CheckedArchiveResult => WaitedArchive
    case InitializedService => CheckedArchiveResult
    case WaitedService => InitializedService
    case UpdatedChecklist => WaitedService
    case _ => Created
  }

  /** Where the path entered the state it has at position n. */
  lemma {:induction false} Entry(states: seq<State>, n: nat, s: State) returns (i: nat)
    requires Route(states) && n < |states| && states[n] == s && s != Created && s != Error && s != Processed
    requires forall k :: !Goes(states, k, Started, WaitedService)
    ensures i < n && Goes(states, i, Before(s), s)
    decreases n
  {
    assert Moves(states[n-1], states[n]);
    if states[n-1] == s {
      i := Entry(states, n - 1, s);
    } else {
      i := n - 1;
      assert !Goes(states, i, Started, WaitedService);
    }
  }

  predicate Goes(states: seq<State>, i: nat, s: State, s': State) {
    i + 1 < |states| && states[i] == s && states[i+1] == s'
  }

  const STAGES := [Started, InitializedChecklist, WaitedChecklist, CollectedCheckResult, InitializedArchive,
                   WaitedArchive, CheckedArchiveResult, InitializedService, WaitedService, UpdatedChecklist]

  /** Increasing positions at which the path makes the first n stages. */
  ghost predicate TakesStages(states: seq<State>, at: seq<nat>, n: nat) {
    && |at| == n < |STAGES|
    && (forall i, j :: 0 <= i < j < n ==> at[i] < at[j])
    && (forall i :: 0 <= i < n ==> Goes(states, at[i], STAGES[i], STAGES[i+1]))
  }

  lemma {:induction false} RouteTakesStages(states: seq<State>, position: nat, n: nat) returns (at: seq<nat>)
    requires Route(states) && n < |STAGES| && position < |states| && states[position] == STAGES[n]
    requires forall k :: !Goes(states, k, Started, WaitedService)
    ensures TakesStages(states, at, n) && forall i :: 0 <= i < n ==> at[i] < position
    decreases n
  {
    if n == 0 {
      at := [];
    } else {
      var i := Entry(states, position, STAGES[n]);
      var earlier := RouteTakesStages(states, i, n - 1);
      at := earlier + [i];
    }
  }

  /** Every change of state along a history, other than failing, met its condition. */
  lemma CertifiedAt(c: Config, ds: seq<Delivery>, i: nat)
    requires ValidConfig(c) && History(c, ds) && i < |ds|
    requires States(ds)[i+1] != Error && States(ds)[i+1] != States(ds)[i]
    ensures Certified(c, ds[i], States(ds)[i], States(ds)[i+1])
  {
    NextOf(ds, i);
    assert SoundAt(c, ds, i);
    TransitionCertifies(c, ds[i], States(ds)[i+1]);
  }

  lemma NoShortcut(c: Config, ds: seq<Delivery>)
    requires ValidConfig(c) && History(c, ds) && c.modules(Recommendations) != []
    ensures forall i :: !Goes(States(ds), i, Started, WaitedService)
  {
    forall i ensures !Goes(States(ds), i, Started, WaitedService) {
      if Goes(States(ds), i, Started, WaitedService) { CertifiedAt(c, ds, i); }
    }
  }

  lemma StageIsCertified(c: Config, ds: seq<Delivery>, i: nat, s: State, s': State)
    requires ValidConfig(c) && History(c, ds) && Goes(States(ds), i, s, s') && s' != Error && s' != s
    ensures i < |ds| && Certified(c, ds[i], s, s')
  {
    CertifiedAt(c, ds, i);
  }

  /** What passing a gate means for what is stored, if the gate's reads were current. */
  predicate Examined(c: Config, d: Delivery, s: State, s': State) {
    Current(c, d.bucket, d.env) ==>
      match (s, s')
      case (WaitedChecklist, CollectedCheckResult) => NoStoredTimeout(c, d.bucket)
      case (WaitedArchive, CheckedArchiveResult) => NoStoredError(c, d.bucket) || ArchiveReadRaised(d.body, d.env)
      case _ => true
  }

  lemma GateExamines(c: Config, d: Delivery, s: State, s': State)
    requires ValidConfig(c) && Sound(c, d) && d.body.state == s && Certified(c, d, s, s') && BarriersHold(c, d.body, d.bucket)
    ensures Examined(c, d, s, s')
  {
    if Current(c, d.bucket, d.env) { StoredOutcomes(c, d.body, d.bucket, d.env); }
    hide NoStoredTimeout, NoStoredError, Current, EnvOk, Faithful, Gathered, NoTimeouts;
  }

  lemma StageIsExamined(c: Config, ds: seq<Delivery>, i: nat, s: State, s': State)
    requires ValidConfig(c) && History(c, ds) && Goes(States(ds), i, s, s') && s' != Error && s' != s
    ensures i < |ds| && Certified(c, ds[i], s, s') && Examined(c, ds[i], s, s')
  {
    hide Faithful, Sound, Certified, BarriersHold, Examined;
    StageIsCertified(c, ds, i, s, s');
    assert SoundAt(c, ds, i);
    BarriersBehind(c, ds, i);
    GateExamines(c, ds[i], s, s');
  }

  /** A task that reached the end of the pipeline took all nine stages in order, and
      each met its condition: all results of a folder were stored when its barrier
      opened, the collect and the archive gate passed as they may, so that with current
      reads no stored recommendation was a timeout, and no stored archive result
      erroneous unless a call of that step raised first, and the checklist was
      completed. The one way around is an organization without recommendation modules. */
  lemma PipelineWasPassed(c: Config, ds: seq<Delivery>) returns (at: seq<nat>)
    requires ValidConfig(c) && History(c, ds) && End(ds).state == UpdatedChecklist
    requires c.modules(Recommendations) != []
    ensures TakesStages(States(ds), at, 9)
    ensures forall i :: 0 <= i < 9 ==>
              at[i] < |ds| && Certified(c, ds[at[i]], STAGES[i], STAGES[i+1]) && Examined(c, ds[at[i]], STAGES[i], STAGES[i+1])
  {
    hide Faithful, Examined;
    HistoryIsRoute(c, ds);
    NoShortcut(c, ds);
    at := RouteTakesStages(States(ds), |ds|, 9);
    forall i | 0 <= i < 9
      ensures at[i] < |ds| && Certified(c, ds[at[i]], STAGES[i], STAGES[i+1]) && Examined(c, ds[at[i]], STAGES[i], STAGES[i+1])
    {
      StageIsExamined(c, ds, at[i], STAGES[i], STAGES[i+1]);
    }
  }
}
