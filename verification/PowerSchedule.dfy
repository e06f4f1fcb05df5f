/** Power schedules: which trigger an evaluation acts on. Times are instants of one day;
    last is the previous evaluation and now the current one. */
module PowerSchedule {
  import opened Sorting
  import opened Wrappers

  datatype Action = PowerOn | PowerOff
  datatype Trigger = Trigger(time: int, action: Action)

  // --- the specification: which trigger fired ------------------------------------------

  /** The latest trigger not after an instant. */
  function Latest(ts: seq<int>, x: int): (r: Option<int>)
    requires Increasing(ts)
    ensures r.None? ==> forall t :: t in ts ==> x < t
    ensures r.Some? ==> r.value in ts && r.value <= x && forall t :: t in ts && t <= x ==> t <= r.value
  {
    if ts == [] then None
    else
      var n := |ts| - 1;
      assert ts == ts[..n] + [ts[n]] && ts[n] in ts;
      if ts[n] <= x then Some(ts[n]) else Latest(ts[..n], x)
  }

  /** The earliest trigger not before an instant. */
  function Earliest(ts: seq<int>, x: int): (r: Option<int>)
    requires Increasing(ts)
    ensures r.None? ==> forall t :: t in ts ==> t < x
    ensures r.Some? ==> r.value in ts && x <= r.value && forall t :: t in ts && x <= t ==> r.value <= t
  {
    if ts == [] then None
    else
      assert ts == [ts[0]] + ts[1..] && ts[0] in ts;
      if x <= ts[0] then Some(ts[0]) else Earliest(ts[1..], x)
  }

  /** The trigger an evaluation acts on. Before the first trigger of the day it is the
      latest one reached; after it, the earliest one since the last evaluation, counting
      the last evaluation and not now. */
  function Fired(ts: seq<int>, last: int, now: int): Option<int>
    requires Increasing(ts)
  {
    if |ts| == 0 || now < last then None
    else if |ts| == 1 then if last <= ts[0] <= now then Some(ts[0]) else None
    else if last == now then if ts[0] <= now <= ts[|ts| - 1] then Latest(ts, now) else None
    else if last <= ts[0] then if last == ts[0] && now <= ts[1] then None else Latest(ts, now)
    else if Earliest(ts, last).Some? && Earliest(ts, last).value < now then Earliest(ts, last)
    else None
  }

  // --- properties of the specification --------------------------------------------------

  /** Catch-up: an evaluation whose predecessor was before the first trigger acts on the
      latest trigger not after now, and on none exactly when none was reached. */
  lemma CatchUp(ts: seq<int>, last: int, now: int)
    requires Increasing(ts) && last <= now && forall t :: t in ts ==> last < t
    ensures Fired(ts, last, now) == Latest(ts, now)
    ensures Fired(ts, last, now) == None <==> forall t :: t in ts ==> now < t
  {
    if ts != [] { assert ts[0] in ts; }
  }

  /** Only a trigger of the window can fire, unless the window is a single instant. */
  lemma FiredWithin(ts: seq<int>, last: int, now: int)
    requires Increasing(ts) && last != now && Fired(ts, last, now).Some?
    ensures var t := Fired(ts, last, now).value; t in ts && last <= t <= now
  {
  }

  lemma FiredIsTrigger(ts: seq<int>, last: int, now: int)
    requires Increasing(ts) && Fired(ts, last, now).Some?
    ensures Fired(ts, last, now).value in ts
  {
  }

  /** At most one trigger in the closed window. */
  predicate Sparse(ts: seq<int>, last: int, now: int) {
    forall t, u :: t in ts && u in ts && last <= t <= now && last <= u <= now ==> t == u
  }

  /** Does the window own the trigger: the first trigger of the day belongs to the window
      that ends with it, every other one to the window that starts with it. */
  predicate Owns(ts: seq<int>, last: int, now: int, t: int)
    requires ts != []
  {
    if t == ts[0] then last < t <= now else last <= t < now
  }

  lemma FiresIff(ts: seq<int>, last: int, now: int, t: int)
    requires Increasing(ts) && |ts| >= 2 && last < now && Sparse(ts, last, now) && t in ts
    ensures Fired(ts, last, now) == Some(t) <==> Owns(ts, last, now, t)
  {
    assert ts[0] in ts && ts[1] in ts;
    if Owns(ts, last, now, t) && t != ts[0] {
      assert ts[0] < t;
      assert ts[0] < last;
    }
    if Fired(ts, last, now) == Some(t) {
      FiredWithin(ts, last, now);
      assert Sparse(ts, last, now);
    }
  }

  /** The windows between consecutive evaluation instants that act on a trigger. */
  function Firings(ts: seq<int>, at: seq<int>, t: int): nat
    requires Increasing(ts)
  {
    if |at| < 2 then 0
    else Firings(ts, at[1..], t) + if Fired(ts, at[0], at[1]) == Some(t) then 1 else 0
  }

  predicate SparseWindows(ts: seq<int>, at: seq<int>) {
    forall i {:trigger at[i]} :: 0 <= i < |at| - 1 ==> Sparse(ts, at[i], at[i+1])
  }

  lemma {:induction false} NoFiringBefore(ts: seq<int>, at: seq<int>, t: int)
    requires Increasing(ts) && |ts| >= 2 && Increasing(at) && SparseWindows(ts, at) && t in ts
    requires at != [] ==> if t == ts[0] then t <= at[0] else t < at[0]
    ensures Firings(ts, at, t) == 0
  {
    if |at| >= 2 {
      assert at[0] < at[1];
      FiresIff(ts, at[0], at[1], t);
      SparseTail(ts, at);
      NoFiringBefore(ts, at[1..], t);
    }
  }

  lemma SparseTail(ts: seq<int>, at: seq<int>)
    requires |at| >= 2 && Increasing(at) && SparseWindows(ts, at)
    ensures Increasing(at[1..]) && SparseWindows(ts, at[1..]) && Sparse(ts, at[0], at[1]) && at[1..][0] == at[1]
  {
    forall i | 0 <= i < |at[1..]| - 1 ensures Sparse(ts, at[1..][i], at[1..][i+1]) {
      assert at[1..][i] == at[i+1] && at[1..][i+1] == at[i+2];
    }
  }

  /** Exactly-once firing: over windows that share their endpoints and hold at most one
      trigger each, every trigger strictly inside the whole span fires in exactly one
      window, whether or not it falls on a boundary. */
  lemma {:induction false} ExactlyOnce(ts: seq<int>, at: seq<int>, t: int)
    requires Increasing(ts) && |ts| >= 2 && Increasing(at) && SparseWindows(ts, at)
    requires t in ts && |at| >= 2 && at[0] < t < at[|at| - 1]
    ensures Firings(ts, at, t) == 1
  {
    assert at[0] < at[1];
    FiresIff(ts, at[0], at[1], t);
    SparseTail(ts, at);
    var rest := at[1..];
    if Owns(ts, at[0], at[1], t) {
      NoFiringBefore(ts, rest, t);
    } else {
      OnceFrom(ts, rest, t);
    }
  }

  /** The same from an instant that may itself be the trigger. */
  lemma {:induction false} OnceFrom(ts: seq<int>, at: seq<int>, t: int)
    requires Increasing(ts) && |ts| >= 2 && Increasing(at) && SparseWindows(ts, at) && t in ts
    requires at != [] && t < at[|at| - 1] && if t == ts[0] then at[0] < t else at[0] <= t
    ensures Firings(ts, at, t) == 1
  {
    assert at[0] < at[1];
    FiresIff(ts, at[0], at[1], t);
    SparseTail(ts, at);
    if Owns(ts, at[0], at[1], t) {
      NoFiringBefore(ts, at[1..], t);
    } else {
      OnceFrom(ts, at[1..], t);
    }
  }

  // --- the worker's own windows overlap -------------------------------------------------

  /** A window as the worker makes it: it notes an instant, then evaluates a little later;
      the noted instant is where the next window starts. */
  datatype Window = Window(last: int, noted: int, now: int)

  predicate Chained(ws: seq<Window>) {
    && (forall i :: 0 <= i < |ws| ==> ws[i].last < ws[i].noted <= ws[i].now)
    && (forall i, j :: 0 <= i < |ws| && j == i + 1 < |ws| ==> ws[j].last == ws[i].noted)
  }

  predicate AllSparse(ts: seq<int>, ws: seq<Window>) {
    forall i :: 0 <= i < |ws| ==> Sparse(ts, ws[i].last, ws[i].now)
  }

  predicate FiresIn(ts: seq<int>, w: Window, t: int)
    requires Increasing(ts)
  {
    Fired(ts, w.last, w.now) == Some(t)
  }

  /** No trigger inside the span is lost. */
  lemma {:induction false} NeverLost(ts: seq<int>, ws: seq<Window>, t: int) returns (i: nat)
    requires Increasing(ts) && |ts| >= 2 && Chained(ws) && AllSparse(ts, ws) && t in ts
    requires ws != [] && ws[0].last < t < ws[|ws| - 1].noted
    ensures i < |ws| && FiresIn(ts, ws[i], t)
  {
    i := 0;
    while !Owns(ts, ws[i].last, ws[i].now, t)
      invariant i < |ws| && if t == ts[0] then ws[i].last < t else ws[i].last <= t
      decreases |ws| - i
    {
      i := i + 1;
      assert i < |ws| ==> ws[i].last == ws[i-1].noted;
    }
    FiresIff(ts, ws[i].last, ws[i].now, t);
  }

  /** A trigger fires in two consecutive windows exactly when it falls between the noted
      instant and the evaluation that follows it. */
  lemma TwiceIffBetween(ts: seq<int>, ws: seq<Window>, i: nat, t: int)
    requires Increasing(ts) && |ts| >= 2 && Chained(ws) && AllSparse(ts, ws) && t in ts
    requires i + 1 < |ws| && ws[i].now < ws[i+1].now
    ensures FiresIn(ts, ws[i], t) && FiresIn(ts, ws[i+1], t) <==>
              if t == ts[0] then ws[i].noted < t <= ws[i].now else ws[i].noted <= t < ws[i].now
  {
    var j := i + 1;
    assert ws[j].last == ws[i].noted;
    FiresIff(ts, ws[i].last, ws[i].now, t);
    FiresIff(ts, ws[j].last, ws[j].now, t);
  }

  // --- where exactly-once and latest-missed stop ------------------------------------------

  /** With a single trigger, it fires exactly when the closed window holds it. */
  lemma SingleTriggerFires(t: int, last: int, now: int)
    ensures Fired([t], last, now) == Some(t) <==> last <= t <= now
  {
  }

  /** A window that starts after the only trigger, or that starts with it, fires it never
      or once more. */
  lemma {:induction false} SingleTriggerFrom(at: seq<int>, t: int)
    requires Increasing(at) && at != [] && t <= at[0]
    ensures Firings([t], at, t) == if t == at[0] && |at| >= 2 then 1 else 0
  {
    if |at| >= 2 {
      assert at[0] < at[1];
      IncreasingTail(at);
      SingleTriggerFires(t, at[0], at[1]);
      SingleTriggerFrom(at[1..], t);
    }
  }

  lemma IncreasingTail(at: seq<int>)
    requires Increasing(at) && at != []
    ensures Increasing(at[1..])
  {
  }

  /** With a single trigger, over windows that share their endpoints, it fires in both
      windows that touch it when it is an endpoint, and in exactly one otherwise. */
  lemma {:induction false} SingleTriggerFirings(at: seq<int>, t: int)
    requires Increasing(at) && |at| >= 2 && at[0] < t < at[|at| - 1]
    ensures Firings([t], at, t) == if t in at then 2 else 1
  {
    assert at[0] < at[1];
    IncreasingTail(at);
    SingleTriggerFires(t, at[0], at[1]);
    assert at == [at[0]] + at[1..];
    if at[1] < t {
      SingleTriggerFirings(at[1..], t);
    } else {
      SingleTriggerFrom(at[1..], t);
      assert t in at ==> t == at[1];
    }
  }

  /** With a single trigger a boundary instant fires in both windows. */
  lemma SingleTriggerFiresTwice()
    ensures Firings([5], [0, 5, 9], 5) == 2
  {
    SingleTriggerFirings([0, 5, 9], 5);
    assert [0, 5, 9][1] == 5;
  }

  /** Once the first trigger has passed, several missed triggers give the earliest. */
  lemma MissedGivesEarliest()
    ensures Fired([1, 5, 7], 3, 9) == Some(5) && Latest([1, 5, 7], 9) == Some(7)
  {
    assert [1, 5, 7][1..] == [5, 7];
    assert Earliest([1, 5, 7], 3) == Earliest([5, 7], 3);
  }

  /** However many were missed: a window that starts after the first trigger fires the
      earliest one from its start on that lies before now, and none if there is none. */
  lemma EarliestMissedFires(ts: seq<int>, last: int, now: int, t: int)
    requires Increasing(ts) && |ts| >= 2 && ts[0] < last < now
    ensures Fired(ts, last, now) == Some(t) <==>
              t in ts && last <= t < now && forall u :: u in ts && last <= u ==> t <= u
    ensures Fired(ts, last, now) == None <==> forall u :: u in ts && last <= u ==> now <= u
  {
    var e := Earliest(ts, last);
    if e.Some? {
      assert e.value in ts && last <= e.value;
    }
  }

  /** A window that starts with the first trigger fires the latest one reached, unless it
      ends before or with the second. */
  lemma FromFirstFires(ts: seq<int>, now: int, t: int)
    requires Increasing(ts) && |ts| >= 2 && ts[0] < now
    ensures Fired(ts, ts[0], now) == Some(t) <==>
              ts[1] < now && t in ts && t <= now && forall u :: u in ts && u <= now ==> u <= t
  {
    assert ts[0] in ts && ts[1] in ts;
  }

  /** Then the latest missed trigger fires exactly when the window holds no second one. */
  lemma LatestMissedIff(ts: seq<int>, last: int, now: int)
    requires Increasing(ts) && |ts| >= 2 && ts[0] < last < now
    requires exists t :: t in ts && last <= t < now
    ensures Fired(ts, last, now) == Latest(ts, now) <==> Sparse(ts, last, now)
  {
    var e, l := Earliest(ts, last), Latest(ts, now);
    assert ts[0] in ts;
    if e == l {
      forall t, u | t in ts && u in ts && last <= t <= now && last <= u <= now ensures t == u {
        assert e.value <= t <= l.value && e.value <= u <= l.value;
      }
    }
  }

  /** At a single instant an evaluation acts on the latest trigger, even a long past one. */
  lemma InstantFires(ts: seq<int>, now: int)
    requires Increasing(ts) && |ts| >= 2
    ensures Fired(ts, now, now).Some? <==> ts[0] <= now <= ts[|ts| - 1]
    ensures ts[0] <= now <= ts[|ts| - 1] ==> Fired(ts, now, now) == Latest(ts, now)
  {
    assert ts[0] in ts;
  }

  // --- the worker ---------------------------------------------------------------------------

  datatype Reason = NoChanges | Disabled | Outdated | DisabledOrg | NoResources | Error
  datatype Result = Ok(action: Option<Action>) | Conflict

  function Times(triggers: seq<Trigger>): seq<int> { seq(|triggers|, i requires 0 <= i < |triggers| => triggers[i].time) }

  /** The part two segments share: two points, one or none. */
  function Intersect(a: (int, int), b: (int, int)): seq<int> {
    var first := if a.0 >= b.0 then a.0 else b.0;
    var last := if a.1 <= b.1 then a.1 else b.1;
    if first < last then [first, last] else if first == last then [first] else []
  }

  lemma IntersectIsShared(a: (int, int), b: (int, int), x: int)
    ensures var r := Intersect(a, b);
            a.0 <= x <= a.1 && b.0 <= x <= b.1 <==> r != [] && r[0] <= x <= r[|r| - 1]
  {
  }

  lemma EarliestIs(ts: seq<int>, i: nat, x: int)
    requires Increasing(ts) && i + 1 < |ts| && ts[i] < x <= ts[i+1]
    ensures Earliest(ts, x) == Some(ts[i+1])
  {
    var e := Earliest(ts, x);
    assert ts[i+1] in ts;
    var k :| 0 <= k < |ts| && ts[k] == e.value;
    assert ts[k] <= ts[i] <==> k <= i;
  }

  lemma LatestIs(ts: seq<int>, i: nat, x: int)
    requires Increasing(ts) && i < |ts| && ts[i] <= x && (i + 1 < |ts| ==> x < ts[i+1])
    ensures Latest(ts, x) == Some(ts[i])
  {
    var e := Latest(ts, x);
    assert ts[i] in ts;
    var k :| 0 <= k < |ts| && ts[k] == e.value;
    assert ts[k] <= ts[i] <==> k <= i;
  }

  lemma NothingReached(ts: seq<int>, last: int, now: int)
    requires Increasing(ts) && |ts| >= 2 && (ts[|ts| - 1] < last || now < last || now < ts[0])
    ensures Fired(ts, last, now) == None
  {
    assert ts[0] <= ts[|ts| - 1];
    assert Earliest(ts, last).Some? ==> Earliest(ts, last).value <= ts[|ts| - 1];
    assert Latest(ts, now).Some? ==> Latest(ts, now).value >= ts[0];
  }

  /** Walks over the periods between triggers. */
  method FindFired(ts: seq<int>, last: int, now: int) returns (r: Option<int>)
    requires Increasing(ts) && |ts| != 1
    ensures r == Fired(ts, last, now)
  {
    var run := (last, now);
    var candidate: Option<int> := None;
    var i := 0;
    while i + 1 < |ts|
      invariant 0 <= i && (if ts == [] then i == 0 else i < |ts|)
      invariant candidate.Some? ==> 0 < i && candidate.value == ts[i] && last <= ts[0] && ts[i] <= now && last < now
      invariant candidate.Some? ==> last < ts[0] || ts[1] < now
      invariant candidate.None? && i > 0 ==> ts[i] < last || now < last || now < ts[0]
    {
      var period := (ts[i], ts[i+1]);
      assert ts[0] <= ts[i] < ts[i+1] <= ts[|ts| - 1];
      var cross := Intersect(period, run);
      if cross == [last, now] {
        if ts[i] < last { EarliestIs(ts, i, last); }
        return None;
      } else if cross != [] && cross != [period.0, period.1] {
        if period.1 <= now {
          if ts[i] < last { EarliestIs(ts, i, last); }
          if now == period.1 { LatestIs(ts, i + 1, now); }
          return Some(period.1);
        }
        LatestIs(ts, i, now);
        return Some(period.0);
      } else if cross == [period.0, period.1] {
        candidate := if candidate.None? || candidate.value < period.1 then Some(period.1) else candidate;
      }
      i := i + 1;
    }
    if candidate.Some? {
      LatestIs(ts, i, now);
    } else if ts != [] {
      NothingReached(ts, last, now);
    }
    return candidate;
  }

  /** A schedule as the API returns it. */
  datatype Schedule = Schedule(enabled: bool, outdated: bool, orgDisabled: bool, triggers: seq<Trigger>, lastEval: int)

  /** How acting on the resources of a schedule goes. */
  datatype Outcome = Acted | NoneFound | Failed

  datatype LastError = Kept | Cleared | Recorded
  datatype Updates = Updates(lastEval: int, lastRun: Option<int>, lastRunError: LastError)

  class PowerScheduleWorker {
    var reason: Option<Reason>

    constructor ()
      ensures reason == None
    {
      reason := None;
    }

    /** The action of the trigger that fired, if one did; triggers at the same time are in
        conflict. */
    method GetAction(triggers: seq<Trigger>, last: int, now: int) returns (r: Result)
      modifies this
      ensures r.Conflict? <==> !Distinct(Times(triggers))
      ensures r.Conflict? ==> reason == old(reason)
      ensures r.Ok? ==> Increasing(Sorted(Times(triggers)))
      ensures r.Ok? ==> match Fired(Sorted(Times(triggers)), last, now)
                        case None => r.action == None && reason == Some(NoChanges)
                        case Some(t) => r.action.Some? && Trigger(t, r.action.value) in triggers && reason == old(reason)
    {
      var times: seq<int> := [];
      var actions: map<int, Action> := map[];
      for i := 0 to |triggers|
        invariant times == Times(triggers[..i]) && Distinct(times)
        invariant forall t :: t in times <==> t in actions
        invariant forall t :: t in actions ==> Trigger(t, actions[t]) in triggers
      {
        var time := triggers[i].time;
        if time in actions {
          assert Times(triggers)[i] == time && Times(triggers[..i]) == Times(triggers)[..i];
          return Conflict;
        }
        times := times + [time];
        actions := actions[time := triggers[i].action];
      }
      assert triggers[..|triggers|] == triggers;
      SortedIncreases(times);
      var ts := Sorted(times);
      assert forall t :: t in ts <==> t in multiset(times);
      if |ts| == 1 && last <= ts[0] <= now {
        return Ok(Some(actions[ts[0]]));
      }
      var candidate := None;
      if |ts| != 1 { candidate := FindFired(ts, last, now); }
      if candidate.None? {
        reason := Some(NoChanges);
        return Ok(None);
      }
      FiredIsTrigger(ts, last, now);
      return Ok(Some(actions[candidate.value]));
    }

    method ProcessSchedule(schedule: Schedule, now: int, resources: Outcome) returns (failed: bool, action: Option<Action>)
      modifies this
      ensures schedule.enabled && !schedule.outdated && !schedule.orgDisabled && Distinct(Times(schedule.triggers)) ==>
                && Increasing(Sorted(Times(schedule.triggers)))
                && (action.Some? <==> Fired(Sorted(Times(schedule.triggers)), schedule.lastEval, now).Some?)
                && (action.Some? ==> Trigger(Fired(Sorted(Times(schedule.triggers)), schedule.lastEval, now).value, action.value)
                                       in schedule.triggers)
                && (failed <==> action.Some? && resources.Failed?)
                && (action.None? ==> reason == Some(NoChanges))
                && (action.Some? && resources.NoneFound? ==> reason == Some(NoResources))
                && (action.Some? && resources.Acted? ==> reason == old(reason))
      ensures !schedule.enabled || schedule.outdated || schedule.orgDisabled ==>
                !failed && action.None? && reason.Some? && reason.value in {Disabled, Outdated, DisabledOrg}
      ensures schedule.enabled && !schedule.outdated && !schedule.orgDisabled && !Distinct(Times(schedule.triggers)) ==>
                failed && action.None?
    {
      failed, action := false, None;
      if !schedule.enabled {
        reason := Some(Disabled);
        return;
      }
      if schedule.outdated {
        reason := Some(Outdated);
        return;
      }
      if schedule.orgDisabled {
        reason := Some(DisabledOrg);
        return;
      }
      var r := GetAction(schedule.triggers, schedule.lastEval, now);
      if r.Conflict? { return true, None; }
      action := r.action;
      if action.None? { return; }
      match resources
      case Acted =>
      case NoneFound => reason := Some(NoResources);
      case Failed => failed := true;
    }

    /** Evaluates a schedule. The instant noted before the evaluation becomes the start of
        the next window however the evaluation went; a run is recorded unless nothing was
        to do, and a failure is recorded with it. A schedule that is disabled, outdated or
        of a disabled organization only gets the noted instant; conflicting triggers, or a
        schedule that could not be read, are a failed run. */
    method ProcessTask(schedule: Option<Schedule>, noted: int, now: int, resources: Outcome)
        returns (u: Updates, action: Option<Action>)
      modifies this
      ensures u.lastEval == noted
      ensures schedule.None? ==> u == Updates(noted, Some(noted), Recorded) && action.None?
      ensures schedule.Some? && (!schedule.value.enabled || schedule.value.outdated || schedule.value.orgDisabled) ==>
                u == Updates(noted, None, Kept) && action.None?
      ensures schedule.Some? && schedule.value.enabled && !schedule.value.outdated && !schedule.value.orgDisabled
              && !Distinct(Times(schedule.value.triggers)) ==>
                u == Updates(noted, Some(noted), Recorded) && action.None?
      ensures schedule.Some? && Distinct(Times(schedule.value.triggers)) && schedule.value.enabled
              && !schedule.value.outdated && !schedule.value.orgDisabled ==>
                && Increasing(Sorted(Times(schedule.value.triggers)))
                && (action.Some? <==> Fired(Sorted(Times(schedule.value.triggers)), schedule.value.lastEval, now).Some?)
                && (action.Some? ==>
                      Trigger(Fired(Sorted(Times(schedule.value.triggers)), schedule.value.lastEval, now).value, action.value)
                        in schedule.value.triggers)
                && u == if action.None? then Updates(noted, None, Kept)
                        else Updates(noted, Some(noted), if resources.Failed? then Recorded else Cleared)
    {
      reason, action := None, None;
      var failed := true;
      if schedule.Some? { failed, action := ProcessSchedule(schedule.value, now, resources); }
      if failed { reason := Some(Error); }
      var quiet := reason.Some? && reason.value in {NoChanges, Disabled, Outdated, DisabledOrg};
      u := Updates(noted, if quiet then None else Some(noted),
                   if failed then Recorded else if quiet then Kept else Cleared);
    }
  }
}
