/** Where the pipeline's promises end. */
module BumiLimits {
  import opened Wrappers
  import opened BumiTypes
  import opened BumiSteps
  import opened BumiDelivery
  import opened BumiProgress
  import opened BumiGates

  /** When the archive listing raises and a retry is left, the task goes on to the
      next stage although an archive result in sight is erroneous. */
  lemma FailedReadSkipsGate(d: Delivery, k: Key)
    requires Faithful(d) && d.body.job.None? && d.body.state == WaitedArchive && !TaskLate(d.body, d.env)
    requires d.env.faultAt == 0 && !d.env.handlerFault && d.body.tries < d.body.maxRetries
    requires k in FolderListing(d.body, d.env, Archive) && Erroneous(d.env, k)
    ensures d.Next().Some? && d.Next().value.body.state == CheckedArchiveResult
    ensures StepOf(d.Next().value.body) == Some(InitializeService)
  {
    var st := Fresh(d.body, d.bucket, d.lastCompleted);
    assert Attempt(CheckArchiveResult, st, d.env) == Raise(MoveTo(st, CheckedArchiveResult), Failure);
    var m := At(AfterError(MoveTo(st, CheckedArchiveResult).body, Failure), false, d.env.t2);
    assert d.after.sent == [m];
    assert For(None, [m]) == [m] + For(None, []);
  }

  const A := Key("org", 1, Recommendations, "a")
  const B := Key("org", 1, Recommendations, "b")

  function Parent(state: State, tries: int, count: Option<int>): Body {
    Body("org", 1, "checklist", state, tries, 5, 100, Some(100), 0, count, None, None)
  }

  function At0(disabled: set<string>, faultAt: nat, seen: seq<Key>): Env {
    Env(0, 0, 0, (f: Folder) => ["a", "b"], disabled, faultAt, false, seen,
        map k | k in seen :: Result(None, None), Returned(None))
  }

  function Child(state: State): Body {
    Body("org", 1, "checklist", state, 0, 5, 100, None, 0, None, Some(Job("a", Recommendations)), None)
  }

  /** Why the barrier needs a fixed module list. Module a is fanned out, publishing
      the task of module b fails, and a is disabled before the retry: the parent then
      waits for one result, and the result of a opens the barrier without one of b. */
  lemma ChangedModulesOpenTheBarrier()
    ensures var first := Deliver(Parent(Started, 0, None), map[], None, At0({}, 2, []));
            && |first.sent| == 2 && first.sent[0].body == Child(Created)
            && first.sent[1].body == Parent(Started, 1, None)
    ensures var second := Deliver(Parent(Started, 1, None), map[], None, At0({"a"}, 9, []));
            LastFor(None, second.sent) == Some(Msg(Parent(InitializedChecklist, 1, Some(1)), 0))
    ensures var started := Deliver(Child(Created), map[], None, At0({"a"}, 9, []));
            started.sent == [Msg(Child(Started), 0)]
    ensures var processed := Deliver(Child(Started), map[], None, At0({"a"}, 9, []));
            processed.bucket == map[A := Result(None, None)]
    ensures var waited := Deliver(Parent(InitializedChecklist, 1, Some(1)), map[A := Result(None, None)], None,
                                  At0({"a"}, 9, [A]));
            && waited.sent == [Msg(Parent(WaitedChecklist, 1, Some(1)), DELAY)]
            && B !in waited.bucket
  {
    hide Deliver;
    FirstAttempt();
    SecondAttempt();
    ChildRuns();
    Opened();
  }

  lemma ChildRuns()
    ensures Deliver(Child(Created), map[], None, At0({"a"}, 9, [])).sent == [Msg(Child(Started), 0)]
    ensures Deliver(Child(Started), map[], None, At0({"a"}, 9, [])).bucket == map[A := Result(None, None)]
  {
  }

  lemma FirstAttempt()
    ensures var first := Deliver(Parent(Started, 0, None), map[], None, At0({}, 2, []));
            && |first.sent| == 2 && first.sent[0].body == Child(Created)
            && first.sent[1].body == Parent(Started, 1, None)
  {
    var e := At0({}, 2, []);
    assert Enabled(["b"], {}) == ["b"];
    assert Enabled(["a", "b"], {}) == ["a", "b"];
    var st := Fresh(Parent(Started, 0, None), map[], None).(calls := 1);
    var a := At(ChildBody(st.body, e, Recommendations, "a"), false, 0);
    var st' := st.(calls := 2, sent := [] + [a]);
    assert ["a", "b"][1..] == ["b"];
    assert CreateChildren(st', e, Recommendations, ["b"]) == Raise(st', Failure);
    assert CreateChildren(st, e, Recommendations, ["a", "b"]) == Raise(st', Failure);
  }

  lemma SecondAttempt()
    ensures var second := Deliver(Parent(Started, 1, None), map[], None, At0({"a"}, 9, []));
            LastFor(None, second.sent) == Some(Msg(Parent(InitializedChecklist, 1, Some(1)), 0))
  {
    var e := At0({"a"}, 9, []);
    assert ["a", "b"][1..] == ["b"];
    assert Enabled(["b"], {"a"}) == ["b"];
    assert Enabled(["a", "b"], {"a"}) == ["b"];
    var st := Fresh(Parent(Started, 1, None), map[], None).(calls := 1);
    var b := At(ChildBody(st.body, e, Recommendations, "b"), false, 0);
    var st' := st.(calls := 2, sent := [] + [b]);
    assert CreateChildren(st', e, Recommendations, []) == Ok(st');
    assert CreateChildren(st, e, Recommendations, ["b"]) == Ok(st');
    var m := Msg(Parent(InitializedChecklist, 1, Some(1)), 0);
    assert Deliver(Parent(Started, 1, None), map[], None, e).sent == [b] + [m];
    assert For(None, [m]) == [m] + For(None, []);
    ForConcat(None, [b], [m]);
    assert For(None, [b]) == [] + For(None, []);
  }

  lemma Opened()
    ensures var waited := Deliver(Parent(InitializedChecklist, 1, Some(1)), map[A := Result(None, None)], None,
                                  At0({"a"}, 9, [A]));
            && waited.sent == [Msg(Parent(WaitedChecklist, 1, Some(1)), DELAY)]
            && B !in waited.bucket
  {
    var p := OfFolder("org", 1, Recommendations);
    assert Select([A], p) == [A] + Select([], p);
  }
}
