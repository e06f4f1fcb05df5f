/** Subscription checks: limits, the grace period, and disabling the organization. */
module Bailiff {
  import opened Wrappers

  const DAY := 86400

  datatype Status = Active | LimitExceeded | Suspended

  /** A grace start of zero means none is recorded. */
  datatype Subscription = Subscription(status: Status, graceStart: int)

  /** What an organization has of a limited kind: a number, or one per month. */
  datatype Value = Number(n: int) | Months(values: seq<int>)

  predicate Above(v: Value, limit: int) {
    match v
    case Number(n) => n > limit
    case Months(values) => exists i :: 0 <= i < |values| && values[i] > limit
  }

  /** Some limit the organization has a value for is exceeded. */
  predicate Exceeded(limits: map<string, int>, entities: map<string, Value>) {
    exists k :: k in limits && k in entities && Above(entities[k], limits[k])
  }

  /** The plan's limits, with the one for its unit multiplied by the quantity. */
  function LimitsFor(limits: map<string, int>, unit: Option<string>, quantity: int): map<string, int> {
    var q := if quantity == 0 then 1 else quantity;
    match unit
    case None => limits
    case Some(u) => limits[u := if u in limits then limits[u] * q else q]
  }

  /** The decision of a check. */
  function Decide(s: Subscription, now: int, stripeActive: bool, graceDays: nat, exceeded: bool): Subscription {
    if !stripeActive then s.(status := Suspended)
    else if !exceeded then Subscription(Active, 0)
    else
      var start := if s.graceStart != 0 then s.graceStart else now;
      if start > now - graceDays * DAY then Subscription(LimitExceeded, start) else s.(status := Suspended)
  }

  // --- runs of checks -------------------------------------------------------------------

  datatype Check = Check(now: int, stripeActive: bool, exceeded: bool)

  /** A check as it went: whether its decision was recorded in the subscription, and
      whether it then got as far as the organization. */
  datatype Visit = Visit(check: Check, recorded: bool, done: bool)

  /** The subscription and the organization's disabled flag. */
  datatype World = World(subscription: Subscription, disabled: bool)

  function Visited(w: World, v: Visit, graceDays: nat): World {
    var s := if v.recorded then Decide(w.subscription, v.check.now, v.check.stripeActive, graceDays, v.check.exceeded)
             else w.subscription;
    World(s, if v.done then s.status.Suspended? else w.disabled)
  }

  /** After a run of checks of a new subscription. */
  function After(visits: seq<Visit>, graceDays: nat): World {
    if visits == [] then World(Subscription(Active, 0), false)
    else Visited(After(visits[..|visits| - 1], graceDays), visits[|visits| - 1], graceDays)
  }

  /** The recorded checks that found Stripe active: the ones the grace period depends on. */
  function Counted(visits: seq<Visit>): seq<Check> {
    if visits == [] then []
    else
      var v, before := visits[|visits| - 1], Counted(visits[..|visits| - 1]);
      if v.recorded && v.check.stripeActive then before + [v.check] else before
  }

  /** The last of the visits that recorded a decision. */
  function LastRecorded(visits: seq<Visit>): (r: Option<nat>)
    ensures r.Some? ==> r.value < |visits| && visits[r.value].recorded
    ensures forall i :: (if r.Some? then r.value < i else 0 <= i) && i < |visits| ==> !visits[i].recorded
  {
    var n := |visits| - 1;
    if visits == [] then None else if visits[n].recorded then Some(n) else LastRecorded(visits[..n])
  }

  /** The last of the visits that went through. */
  function LastDone(visits: seq<Visit>): (r: Option<nat>)
    ensures r.Some? ==> r.value < |visits| && visits[r.value].done
    ensures forall i :: (if r.Some? then r.value < i else 0 <= i) && i < |visits| ==> !visits[i].done
  {
    var n := |visits| - 1;
    if visits == [] then None else if visits[n].done then Some(n) else LastDone(visits[..n])
  }

  /** The first check of the unbroken run of exceeded ones at the end, if there is one. */
  function StreakStart(checks: seq<Check>): (r: Option<nat>)
    ensures r.Some? ==> r.value < |checks| && forall i :: r.value <= i < |checks| ==> checks[i].exceeded
    ensures r.Some? && r.value > 0 ==> !checks[r.value - 1].exceeded
    ensures r.None? <==> checks == [] || !checks[|checks| - 1].exceeded
  {
    var n := |checks| - 1;
    if checks == [] || !checks[n].exceeded then None
    else if StreakStart(checks[..n]).None? then Some(n)
    else StreakStart(checks[..n])
  }

  /** Only a recorded check can go through, and time does not run backwards. */
  predicate Possible(visits: seq<Visit>) {
    && (forall i :: 0 <= i < |visits| ==> visits[i].check.now > 0 && (visits[i].done ==> visits[i].recorded))
    && (forall i, j :: 0 <= i < j < |visits| ==> visits[i].check.now <= visits[j].check.now)
  }

  /** The grace period is over: the present streak started that long before the last check. */
  predicate GraceOver(checks: seq<Check>, graceDays: nat) {
    var start := StreakStart(checks);
    start.Some? && checks[start.value].now <= checks[|checks| - 1].now - graceDays * DAY
  }

  /** What the recorded checks say of the subscription. */
  function Verdict(visits: seq<Visit>, graceDays: nat): Status {
    var counted, last := Counted(visits), LastRecorded(visits);
    if last.None? then Active
    else if !visits[last.value].check.stripeActive || GraceOver(counted, graceDays) then Suspended
    else if StreakStart(counted).Some? then LimitExceeded
    else Active
  }

  lemma {:induction false} CountedTimes(visits: seq<Visit>)
    requires Possible(visits)
    ensures forall c :: c in Counted(visits) ==> 0 < c.now <= visits[|visits| - 1].check.now
    ensures LastRecorded(visits).Some? && visits[LastRecorded(visits).value].check.stripeActive ==>
              Counted(visits) != [] && Counted(visits)[|Counted(visits)| - 1] == visits[LastRecorded(visits).value].check
  {
    if visits != [] { CountedTimes(visits[..|visits| - 1]); }
  }

  lemma StreakGrows(checks: seq<Check>, c: Check)
    ensures var r := StreakStart(checks + [c]);
            r == if !c.exceeded then None else if StreakStart(checks).None? then Some(|checks|) else StreakStart(checks)
  {
    assert (checks + [c])[..|checks|] == checks;
  }

  /** What a recorded streak makes of the recorded start. */
  function StartOf(checks: seq<Check>, graceDays: nat): int {
    if graceDays > 0 && StreakStart(checks).Some? then checks[StreakStart(checks).value].now else 0
  }

  /** A recorded check with Stripe active, seen from the checks counted before it. */
  lemma CountedCheck(counted: seq<Check>, status: Status, c: Check, graceDays: nat)
    requires forall x :: x in counted ==> 0 < x.now <= c.now
    requires c.now > 0 && c.stripeActive
    ensures var more := counted + [c];
            Decide(Subscription(status, StartOf(counted, graceDays)), c.now, true, graceDays, c.exceeded)
              == Subscription(if GraceOver(more, graceDays) then Suspended
                              else if StreakStart(more).Some? then LimitExceeded else Active, StartOf(more, graceDays))
  {
    StreakGrows(counted, c);
    assert graceDays > 0 ==> graceDays * DAY > 0;
  }

  lemma {:induction false} SubscriptionOverRuns(visits: seq<Visit>, graceDays: nat)
    requires Possible(visits)
    ensures After(visits, graceDays).subscription == Subscription(Verdict(visits, graceDays), StartOf(Counted(visits), graceDays))
  {
    if visits != [] {
      var n := |visits| - 1;
      var v, before := visits[n], visits[..n];
      SubscriptionOverRuns(before, graceDays);
      CountedTimes(before);
      if v.recorded && v.check.stripeActive {
        CountedCheck(Counted(before), After(before, graceDays).subscription.status, v.check, graceDays);
      }
      hide StreakStart, GraceOver, StartOf;
    }
  }

  lemma {:induction false} DisabledAsLastDone(visits: seq<Visit>, graceDays: nat)
    ensures After(visits, graceDays).disabled <==>
              LastDone(visits).Some? && After(visits[..LastDone(visits).value + 1], graceDays).subscription.status.Suspended?
  {
    hide Decide;
    if visits != [] {
      var n := |visits| - 1;
      DisabledAsLastDone(visits[..n], graceDays);
      assert visits[..n + 1] == visits;
      var last := LastDone(visits[..n]);
      if last.Some? { assert visits[..last.value + 1] == visits[..n][..last.value + 1]; }
    }
  }

  /** The grace period over any run of checks, some of which failed half way. The recorded
      start is the first check of the present streak, among the recorded checks that found
      Stripe active, except for an empty grace period which records none. The subscription
      is suspended exactly when the last recorded check found Stripe inactive or that
      streak the grace period old. And the organization is disabled exactly when the
      subscription was suspended at the last check that went through. */
  lemma GraceOverRuns(visits: seq<Visit>, graceDays: nat)
    requires Possible(visits)
    ensures var w := After(visits, graceDays);
            && w.subscription == Subscription(Verdict(visits, graceDays), StartOf(Counted(visits), graceDays))
            && (w.disabled <==> LastDone(visits).Some? && Verdict(visits[..LastDone(visits).value + 1], graceDays).Suspended?)
  {
    SubscriptionOverRuns(visits, graceDays);
    DisabledAsLastDone(visits, graceDays);
    if LastDone(visits).Some? { SubscriptionOverRuns(visits[..LastDone(visits).value + 1], graceDays); }
    hide After, Verdict, StartOf, Counted, LastDone;
  }

  /** A suspension means that the last recorded check found Stripe inactive, or limits
      exceeded at every check that counted since one that is the grace period old. */
  lemma SuspendedOnlyAfterGrace(visits: seq<Visit>, graceDays: nat) returns (k: nat, i: nat)
    requires Possible(visits) && After(visits, graceDays).subscription.status.Suspended?
    ensures LastRecorded(visits) == Some(k) && k < |visits|
    ensures visits[k].check.stripeActive ==>
              var counted := Counted(visits);
              && i < |counted| && counted[|counted| - 1] == visits[k].check
              && counted[i].now <= visits[k].check.now - graceDays * DAY
              && (graceDays > 0 ==> After(visits, graceDays).subscription.graceStart == counted[i].now)
              && forall j :: i <= j < |counted| ==> counted[j].exceeded
  {
    SubscriptionOverRuns(visits, graceDays);
    CountedTimes(visits);
    k, i := LastRecorded(visits).value, 0;
    if visits[k].check.stripeActive { i := StreakStart(Counted(visits)).value; }
  }

  /** A suspension after an active Stripe stays while the limits are exceeded, whatever
      becomes of the checks. */
  lemma SuspensionStays(visits: seq<Visit>, graceDays: nat, v: Visit)
    requires Possible(visits + [v]) && v.check.exceeded && After(visits, graceDays).subscription.status.Suspended?
    requires LastRecorded(visits).Some? && visits[LastRecorded(visits).value].check.stripeActive
    ensures After(visits + [v], graceDays).subscription.status.Suspended?
  {
    var all := visits + [v];
    assert all[..|visits|] == visits;
    assert forall i :: 0 <= i < |visits| ==> visits[i] == all[i];
    SubscriptionOverRuns(visits, graceDays);
    SubscriptionOverRuns(all, graceDays);
    CountedTimes(visits);
    StreakGrows(Counted(visits), v.check);
  }

  // --- the worker --------------------------------------------------------------------------

  datatype Outcome = Done | Raised

  /** What a check reads: the clock, Stripe, the plan and the organization's entities. */
  datatype Facts = Facts(now: int, stripeActive: bool, graceDays: nat, limits: map<string, int>, unit: Option<string>,
                         quantity: int, entities: map<string, Value>)

  predicate Breached(f: Facts) { Exceeded(LimitsFor(f.limits, f.unit, f.quantity), f.entities) }

  /** A limit is breached exactly when some key other than the plan's unit has a value above
      its limit, or the unit has one above its limit times the quantity, or above the
      quantity itself when the plan has no limit for it; a quantity of zero counts as one.
      A value given by months is above when some month is. */
  lemma BreachedIff(f: Facts)
    ensures var m := if f.quantity == 0 then 1 else f.quantity;
            Breached(f) <==>
              || (exists k :: k in f.limits && f.unit != Some(k) && k in f.entities && Peak(f.entities[k], f.limits[k]))
              || (f.unit.Some? && f.unit.value in f.entities
                  && Peak(f.entities[f.unit.value], if f.unit.value in f.limits then f.limits[f.unit.value] * m else m))
  {
    var all := LimitsFor(f.limits, f.unit, f.quantity);
    if Breached(f) {
      var k :| k in all && k in f.entities && Above(f.entities[k], all[k]);
      PeakIsAbove(f.entities[k], all[k]);
      if f.unit != Some(k) { assert k in f.limits && all[k] == f.limits[k]; }
    }
    forall k | k in f.limits && f.unit != Some(k) && k in f.entities && Peak(f.entities[k], f.limits[k]) ensures Breached(f) {
      PeakIsAbove(f.entities[k], f.limits[k]);
      assert k in all && all[k] == f.limits[k];
    }
    if f.unit.Some? && f.unit.value in f.entities {
      assert f.unit.value in all;
      PeakIsAbove(f.entities[f.unit.value], all[f.unit.value]);
    }
  }

  /** The largest number given is above the limit. */
  predicate Peak(v: Value, limit: int) {
    match v
    case Number(n) => limit < n
    case Months(values) => limit < Largest(values, limit)
  }

  function Largest(values: seq<int>, least: int): (m: int)
    ensures m >= least && (m == least || m in values) && forall x :: x in values ==> x <= m
  {
    if values == [] then least
    else
      var rest := Largest(values[1..], least);
      assert values == [values[0]] + values[1..];
      if values[0] > rest then values[0] else rest
  }

  lemma PeakIsAbove(v: Value, limit: int)
    ensures Peak(v, limit) <==> Above(v, limit)
  {
    if v.Months? {
      assert forall i :: 0 <= i < |v.values| ==> v.values[i] in v.values;
    }
  }

  /** Some visit with this check leads from one world to the other. */
  predicate Leads(w: World, c: Check, done: bool, graceDays: nat, w': World) {
    w' == Visited(w, Visit(c, true, done), graceDays) || (!done && w' == Visited(w, Visit(c, false, false), graceDays))
  }

  class BailiffWorker {
    var subscription: Subscription
    var disabled: bool
    var calls: nat
    const failsAt: nat

    constructor (subscription: Subscription, disabled: bool, failsAt: nat)
      ensures this.subscription == subscription && this.disabled == disabled && calls == 0 && this.failsAt == failsAt
    {
      this.subscription, this.disabled, this.calls, this.failsAt := subscription, disabled, 0, failsAt;
    }

    method Call() returns (o: Outcome)
      modifies this`calls
      ensures o.Raised? <==> old(calls) == failsAt
      ensures calls == old(calls) + if o.Done? then 1 else 0
    {
      if calls == failsAt { return Raised; }
      calls := calls + 1;
      return Done;
    }

    static method MonthAbove(values: seq<int>, limit: int) returns (r: bool)
      ensures r <==> Above(Months(values), limit)
    {
      r := false;
      for i := 0 to |values|
        invariant !r && forall j :: 0 <= j < i ==> values[j] <= limit
      {
        if values[i] > limit { return true; }
      }
    }

    /** The loop over the limits; a month above its limit does not end it. */
    static method FindExceeded(limits: map<string, int>, entities: map<string, Value>) returns (exceeded: bool)
      ensures exceeded <==> Exceeded(limits, entities)
    {
      exceeded := false;
      var left := limits.Keys;
      while left != {}
        invariant left <= limits.Keys
        invariant exceeded <==> exists k :: k in limits && k !in left && k in entities && Above(entities[k], limits[k])
        decreases left
      {
        var k :| k in left;
        left := left - {k};
        if k in entities {
          match entities[k]
          case Months(values) =>
            var r := MonthAbove(values, limits[k]);
            if r { exceeded := true; }
          case Number(n) =>
            if n > limits[k] {
              exceeded := true;
              break;
            }
        }
      }
    }

    method ProcessSubscriptionStatus(f: Facts) returns (body: Subscription)
      ensures body == Decide(subscription, f.now, f.stripeActive, f.graceDays, Breached(f))
    {
      var exceeded := FindExceeded(LimitsFor(f.limits, f.unit, f.quantity), f.entities);
      body := subscription.(status := Suspended);
      if f.stripeActive {
        if !exceeded {
          body := Subscription(Active, 0);
        } else {
          var current := if subscription.graceStart != 0 then subscription.graceStart else f.now;
          var threshold := f.now - f.graceDays * DAY;
          if current > threshold { body := Subscription(LimitExceeded, current); }
        }
      }
    }

    /** A check is a visit: when it succeeds its decision was recorded and the organization
        is disabled exactly when the subscription is suspended; when it fails, the decision
        was recorded or not, and the organization is as before. It fails exactly when one of
        its calls does. */
    method CheckSubscription(f: Facts) returns (o: Outcome)
      modifies this`subscription, this`disabled, this`calls
      ensures Leads(World(old(subscription), old(disabled)), Check(f.now, f.stripeActive, Breached(f)), o.Done?, f.graceDays,
                    World(subscription, disabled))
      ensures if o.Raised? then old(calls) <= calls == failsAt else !(old(calls) <= failsAt < calls)
    {
      // the subscription and the organization's summary
      o := Call();
      if o.Raised? { return; }
      o := Call();
      if o.Raised? { return; }
      var body := ProcessSubscriptionStatus(f);
      if body != subscription {
        o := Call();
        if o.Raised? { return; }
        subscription := body;
      }
      var suspended := body.status.Suspended?;
      if suspended != disabled {
        o := Call();
        if o.Raised? { return; }
        disabled := suspended;
      }
    }
  }

  /** Deciding again on the same facts changes nothing, so a check that failed half way is
      completed by repeating it. */
  lemma DecideTwice(s: Subscription, now: int, stripeActive: bool, graceDays: nat, exceeded: bool)
    requires now > 0
    ensures var d := Decide(s, now, stripeActive, graceDays, exceeded);
            Decide(d, now, stripeActive, graceDays, exceeded) == d
  {
    assert graceDays * DAY >= 0;
  }
}
