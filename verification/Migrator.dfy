/** The Mongo migrator: local migrations in order of their datetimes, and the collection
    of those recorded as applied. Any external call may end a command. */
module Migrator {
  import opened Sorting
  import opened Wrappers

  datatype Command = Command(downgrade: bool, to: Option<int>)
  datatype Run = Up(datetime: int) | Down(datetime: int)
  datatype Outcome = Done | UnknownRemote | Unapplied | Died

  function Elems(s: seq<int>): set<int> { set x | x in s }

  /** The recorded migrations are the first ones of the local migrations. */
  predicate Prefix(local: seq<int>, recorded: set<int>) {
    exists k :: 0 <= k <= |local| && recorded == Elems(local[..k])
  }

  /** Prefixes are the downward closed sets of local migrations. */
  lemma PrefixIff(local: seq<int>, recorded: set<int>)
    requires Increasing(local)
    ensures Prefix(local, recorded) <==>
              recorded <= Elems(local) && forall d, e :: d in local && e in recorded && d <= e ==> d in recorded
  {
    if Prefix(local, recorded) {
      var k :| 0 <= k <= |local| && recorded == Elems(local[..k]);
      forall d, e | d in local && e in recorded && d <= e ensures d in recorded {
        var i :| 0 <= i < |local| && local[i] == d;
        var j :| 0 <= j < k && local[j] == e;
        assert i <= j;
        assert local[..k][i] == d;
      }
    }
    if recorded <= Elems(local) && forall d, e :: d in local && e in recorded && d <= e ==> d in recorded {
      ClosedIsPrefix(local, recorded);
    }
  }

  lemma {:induction false} ClosedIsPrefix(local: seq<int>, recorded: set<int>)
    requires Increasing(local) && recorded <= Elems(local)
    requires forall d, e :: d in local && e in recorded && d <= e ==> d in recorded
    ensures Prefix(local, recorded)
  {
    var n := |local|;
    if local == [] || local[n-1] in recorded {
      assert local[..n] == local;
      assert recorded == Elems(local[..n]);
    } else {
      var shorter := local[..n-1];
      ClosedIsPrefix(shorter, recorded);
      var k :| 0 <= k <= n - 1 && recorded == Elems(shorter[..k]);
      assert shorter[..k] == local[..k];
    }
  }

  // --- what a command would run, were it not cut short -------------------------------------

  predicate Beyond(d: int, to: Option<int>) { to.Some? && d > to.value }

  predicate Newer(d: int, recorded: set<int>) { forall r :: r in recorded ==> r < d }

  /** The migrations newer than every recorded one, up to the target, oldest first. */
  function ToApply(local: seq<int>, recorded: set<int>, to: Option<int>): seq<int> {
    if local == [] || Beyond(local[0], to) then []
    else (if Newer(local[0], recorded) then [local[0]] else []) + ToApply(local[1..], recorded, to)
  }

  /** The recorded migrations newer than the target, newest first. */
  function ToRevert(local: seq<int>, recorded: set<int>, to: Option<int>): seq<int> {
    var n := |local|;
    if local == [] || (to.Some? && local[n-1] <= to.value) then []
    else (if local[n-1] in recorded then [local[n-1]] else []) + ToRevert(local[..n-1], recorded, to)
  }

  function Planned(local: seq<int>, recorded: set<int>, c: Command): seq<int> {
    if c.downgrade then ToRevert(local, recorded, c.to) else ToApply(local, recorded, c.to)
  }

  /** The record after some planned migrations went through. */
  function After(recorded: set<int>, c: Command, went: seq<int>): set<int> {
    if c.downgrade then recorded - Elems(went) else recorded + Elems(went)
  }

  /** The migrations run by a command, each in the command's direction. */
  function Runs(c: Command, went: seq<int>): (runs: seq<Run>)
    ensures |runs| == |went|
    ensures forall i :: 0 <= i < |runs| ==> (runs[i].Down? <==> c.downgrade) && runs[i].datetime == went[i]
  {
    seq(|went|, i requires 0 <= i < |went| => if c.downgrade then Down(went[i]) else Up(went[i]))
  }

  /** A command changes nothing if a recorded migration is not known locally; otherwise
      some of the planned migrations go through, in order. */
  predicate MayBecome(local: seq<int>, recorded: set<int>, c: Command, recorded': set<int>) {
    || recorded' == recorded
    || (recorded <= Elems(local)
        && exists n :: 0 <= n <= |Planned(local, recorded, c)|
             && recorded' == After(recorded, c, Planned(local, recorded, c)[..n]))
  }

  predicate Decreasing(s: seq<int>) { forall i, j :: 0 <= i < j < |s| ==> s[i] > s[j] }

  lemma {:induction false} ToApplyIs(local: seq<int>, recorded: set<int>, to: Option<int>)
    requires Increasing(local)
    ensures Increasing(ToApply(local, recorded, to))
    ensures forall d :: d in ToApply(local, recorded, to) <==>
              d in local && (to.Some? ==> d <= to.value) && forall r :: r in recorded ==> r < d
  {
    if local != [] {
      var rest := local[1..];
      assert local == [local[0]] + rest;
      assert forall d :: d in rest ==> local[0] < d;
      ToApplyIs(rest, recorded, to);
      IncreasingCons(local[0], ToApply(rest, recorded, to));
    }
  }

  lemma {:induction false} ToRevertIs(local: seq<int>, recorded: set<int>, to: Option<int>)
    requires Increasing(local)
    ensures Decreasing(ToRevert(local, recorded, to))
    ensures forall d :: d in ToRevert(local, recorded, to) <==>
              d in local && d in recorded && (to.Some? ==> to.value < d)
  {
    if local != [] {
      var n := |local| - 1;
      var rest := local[..n];
      assert local == rest + [local[n]];
      assert forall d :: d in rest ==> d < local[n];
      ToRevertIs(rest, recorded, to);
      DecreasingCons(local[n], ToRevert(rest, recorded, to));
    }
  }

  lemma DecreasingCons(x: int, s: seq<int>)
    requires Decreasing(s) && forall y :: y in s ==> y < x
    ensures Decreasing([x] + s)
  {
    var r := [x] + s;
    forall i, j | 0 <= i < j < |r| ensures r[i] > r[j] {
      assert r[j] == s[j-1] && s[j-1] in s;
      assert i > 0 ==> r[i] == s[i-1];
    }
  }

  // --- histories ------------------------------------------------------------------------------

  /** Being in a prefix of an ordered plan is inherited by what the plan has earlier. */
  lemma EarlierToo(plan: seq<int>, n: nat, d: int, e: int)
    requires n <= |plan| && d in plan && e in plan[..n]
    requires (Increasing(plan) && d <= e) || (Decreasing(plan) && d >= e)
    ensures d in plan[..n]
  {
    var i :| 0 <= i < |plan| && plan[i] == d;
    var j :| 0 <= j < n && plan[j] == e;
    assert i <= j;
    assert plan[..n][i] == d;
  }

  lemma UpKeepsPrefix(local: seq<int>, recorded: set<int>, to: Option<int>, n: nat)
    requires Increasing(local) && Prefix(local, recorded) && n <= |ToApply(local, recorded, to)|
    ensures Prefix(local, recorded + Elems(ToApply(local, recorded, to)[..n]))
  {
    var plan := ToApply(local, recorded, to);
    var recorded' := recorded + Elems(plan[..n]);
    PrefixIff(local, recorded);
    ToApplyIs(local, recorded, to);
    assert forall x :: x in plan[..n] ==> x in plan;
    forall d, e | d in local && e in recorded' && d <= e ensures d in recorded' {
      if e !in recorded && d !in recorded {
        forall r | r in recorded ensures r < d { assert d <= r ==> d in recorded; }
        assert d in plan;
        EarlierToo(plan, n, d, e);
      }
    }
    PrefixIff(local, recorded');
  }

  lemma DownKeepsPrefix(local: seq<int>, recorded: set<int>, to: Option<int>, n: nat)
    requires Increasing(local) && Prefix(local, recorded) && n <= |ToRevert(local, recorded, to)|
    ensures Prefix(local, recorded - Elems(ToRevert(local, recorded, to)[..n]))
  {
    var plan := ToRevert(local, recorded, to);
    var recorded' := recorded - Elems(plan[..n]);
    PrefixIff(local, recorded);
    ToRevertIs(local, recorded, to);
    assert forall x :: x in plan[..n] ==> x in plan;
    forall d, e | d in local && e in recorded' && d <= e ensures d in recorded' {
      if d in plan[..n] {
        assert e in plan;
        EarlierToo(plan, n, e, d);
      }
    }
    PrefixIff(local, recorded');
  }

  /** However a command ends, a prefix stays a prefix. */
  lemma CommandKeepsPrefix(local: seq<int>, recorded: set<int>, c: Command, recorded': set<int>)
    requires Increasing(local) && Prefix(local, recorded) && MayBecome(local, recorded, c, recorded')
    ensures Prefix(local, recorded')
  {
    if recorded' != recorded {
      var n :| 0 <= n <= |Planned(local, recorded, c)|
               && recorded' == After(recorded, c, Planned(local, recorded, c)[..n]);
      hide Prefix;
      if c.downgrade { DownKeepsPrefix(local, recorded, c.to, n); } else { UpKeepsPrefix(local, recorded, c.to, n); }
    }
  }

  /** Over any history of commands and crashes, a prefix stays a prefix. */
  lemma {:induction false} HistoryKeepsPrefix(local: seq<int>, records: seq<set<int>>, commands: seq<Command>)
    requires Increasing(local) && |records| == |commands| + 1 && Prefix(local, records[0])
    requires forall i :: 0 <= i < |commands| ==> MayBecome(local, records[i], commands[i], records[i+1])
    ensures forall i :: 0 <= i < |records| ==> Prefix(local, records[i])
  {
    for i := 0 to |commands|
      invariant forall j :: 0 <= j <= i ==> Prefix(local, records[j])
    {
      CommandKeepsPrefix(local, records[i], commands[i], records[i+1]);
    }
  }

  /** The local migrations up to a target. */
  function UpTo(local: seq<int>, t: int): set<int> { set d | d in local && d <= t }

  function Complete(local: seq<int>, recorded: set<int>, c: Command): set<int> {
    After(recorded, c, Planned(local, recorded, c))
  }

  /** What a command that is not cut short leaves recorded: a downgrade the migrations up
      to its target, none without one; an upgrade also the local ones up to its target that
      are newer than everything recorded. */
  lemma CompleteIs(local: seq<int>, recorded: set<int>, c: Command, d: int)
    requires Increasing(local) && recorded <= Elems(local)
    ensures d in Complete(local, recorded, c) <==>
              if c.downgrade then d in recorded && c.to.Some? && d <= c.to.value
              else d in recorded || (d in local && (c.to.Some? ==> d <= c.to.value) && forall r :: r in recorded ==> r < d)
  {
    ToApplyIs(local, recorded, c.to);
    ToRevertIs(local, recorded, c.to);
    hide ToApply, ToRevert;
  }

  /** Upgrading to a target and downgrading to an earlier one leaves exactly the migrations
      up to the earlier one. */
  lemma UpThenDown(local: seq<int>, recorded: set<int>, t1: int, t2: int)
    requires Increasing(local) && Prefix(local, recorded) && t1 <= t2
    ensures Complete(local, Complete(local, recorded, Command(false, Some(t2))), Command(true, Some(t1))) == UpTo(local, t1)
  {
    var up := Complete(local, recorded, Command(false, Some(t2)));
    PrefixIff(local, recorded);
    ToApplyIs(local, recorded, Some(t2));
    ToRevertIs(local, up, Some(t1));
    hide ToApply, ToRevert, Increasing, Decreasing, Prefix;
    forall d | d in local && d <= t1 ensures d in up {
      if d !in recorded {
        forall r | r in recorded ensures r < d { assert d <= r ==> d in recorded; }
        assert d in ToApply(local, recorded, Some(t2));
      }
    }
    var down := Complete(local, up, Command(true, Some(t1)));
    assert forall d :: d in up ==> d in local;
    assert forall d :: d in down <==> d in local && d <= t1;
  }

  /** An upgrade without a target completes the record exactly when it was a prefix. */
  lemma UpgradeCompletesIff(local: seq<int>, recorded: set<int>)
    requires Increasing(local) && recorded <= Elems(local)
    ensures Elems(local) <= Complete(local, recorded, Command(false, None)) <==> Prefix(local, recorded)
  {
    var up := Complete(local, recorded, Command(false, None));
    PrefixIff(local, recorded);
    ToApplyIs(local, recorded, None);
    if Prefix(local, recorded) {
      forall d | d in Elems(local) ensures d in up {
        if d !in recorded {
          forall r | r in recorded ensures r < d { assert d <= r ==> d in recorded; }
          assert d in ToApply(local, recorded, None);
        }
      }
    }
    if Elems(local) <= up {
      forall d, e | d in local && e in recorded && d <= e ensures d in recorded {
        assert d in Elems(local);
        assert d in recorded || d in ToApply(local, recorded, None);
      }
    }
  }

  // --- the migrator -----------------------------------------------------------------------------

  class Migrator {
    const local: seq<int>
    var recorded: set<int>
    var ran: seq<Run>
    var calls: nat
    const diesAt: nat

    constructor (local: seq<int>, recorded: set<int>, diesAt: nat)
      ensures this.local == local && this.recorded == recorded && ran == [] && calls == 0 && this.diesAt == diesAt
    {
      this.local, this.recorded, this.ran, this.calls, this.diesAt := local, recorded, [], 0, diesAt;
    }

    /** Calls went through up to now, or the last one ended the command. */
    predicate Calls(before: nat, o: Outcome)
      reads this`calls
    {
      before <= calls && if o.Died? then calls == diesAt else !(before <= diesAt < calls)
    }

    /** An external call; the command may end here. */
    method Call() returns (o: Outcome)
      modifies this`calls
      ensures o == if old(calls) == diesAt then Died else Done
      ensures calls == if old(calls) == diesAt then old(calls) else old(calls) + 1
    {
      if calls == diesAt { return Died; }
      calls := calls + 1;
      return Done;
    }

    /** The recorded migrations, sorted. */
    method GetRemoteMigrations() returns (o: Outcome, remote: seq<int>)
      modifies this`calls
      ensures o.Done? || o.Died?
      ensures Calls(old(calls), o)
      ensures o.Done? ==> Increasing(remote) && Elems(remote) == recorded
    {
      remote := [];
      o := Call();
      if o.Died? { return; }
      var found := Listed(recorded);
      SortedIncreases(found);
      assert forall x :: x in Sorted(found) <==> x in multiset(found);
      remote := Sorted(found);
      assert Elems(remote) == Elems(found);
    }

    /** The members of a set in some order. */
    static method Listed(s: set<int>) returns (r: seq<int>)
      ensures Distinct(r) && Elems(r) == s
    {
      r := [];
      var left := s;
      while left != {}
        invariant left <= s && Elems(r) == s - left && Distinct(r)
        decreases left
      {
        NotEmpty(left);
        var d :| d in left;
        assert d !in Elems(r);
        assert Elems(r + [d]) == Elems(r) + {d};
        left := left - {d};
        r := r + [d];
      }
    }

    /** Runs a migration and then records it; a command that ends meanwhile may have run
        it without recording it. */
    method RunAndRecord(d: int, downgrade: bool) returns (o: Outcome)
      modifies this`calls, this`recorded, this`ran
      ensures o.Done? || o.Died?
      ensures Calls(old(calls), o)
      ensures RanOne(d, downgrade, o.Done?, old(recorded), old(ran), recorded, ran)
    {
      o := Call();
      if o.Died? { return; }
      ran := ran + [if downgrade then Down(d) else Up(d)];
      o := Call();
      if o.Died? { return; }
      recorded := if downgrade then recorded - {d} else recorded + {d};
    }

    method Upgrade(remote: seq<int>, to: Option<int>) returns (o: Outcome)
      requires Increasing(local) && Increasing(remote) && Elems(remote) == recorded
      modifies this`calls, this`recorded, this`ran
      ensures o.Done? || o.Died?
      ensures Calls(old(calls), o)
      ensures Went(Command(false, to), ToApply(local, old(recorded), to), o.Done?, old(recorded), old(ran), recorded, ran)
    {
      ghost var c, went: seq<int>, r0, s0 := Command(false, to), [], recorded, ran;
      ghost var plan := ToApply(local, r0, to);
      Starting(c, plan, r0, s0);
      assert local[0..] == local && ApplyFrom(local, |local|, recorded, to) == [];
      hide ApplyFrom, ToApply, Underway, Elems, Increasing, Went, RanOne, Newer;
      for i := 0 to |local|
        invariant Calls(old(calls), Done)
        invariant Underway(c, plan, went, ApplyFrom(local, i, r0, to), r0, s0, recorded, ran)
      {
        var d := local[i];
        ApplyFromStep(local, i, r0, to);
        if to.Some? && d > to.value { break; }
        NewerThanAll(remote, r0, d);
        if remote == [] || remote[|remote| - 1] < d {
          ghost var r, s, rest := recorded, ran, ApplyFrom(local, i + 1, r0, to);
          o := RunAndRecord(d, false);
          WentOne(c, plan, went, d, rest, r0, s0, r, s, o.Done?, recorded, ran);
          if o.Died? { return; }
          went := went + [d];
        }
      }
      WentAll(c, plan, went, r0, s0, recorded, ran);
      return Done;
    }

    method Downgrade(remote: seq<int>, to: Option<int>) returns (o: Outcome)
      requires Increasing(local) && Elems(remote) == recorded
      modifies this`calls, this`recorded, this`ran
      ensures o.Done? || o.Died?
      ensures Calls(old(calls), o)
      ensures Went(Command(true, to), ToRevert(local, old(recorded), to), o.Done?, old(recorded), old(ran), recorded, ran)
    {
      ghost var c, went: seq<int>, r0, s0 := Command(true, to), [], recorded, ran;
      ghost var plan := ToRevert(local, r0, to);
      hide ToRevert, Underway, Elems, Increasing, Went, RanOne;
      Starting(c, plan, r0, s0);
      ToRevertEnds(local, r0, to);
      for i := |local| downto 0
        invariant Calls(old(calls), Done)
        invariant Underway(c, plan, went, ToRevert(local[..i], r0, to), r0, s0, recorded, ran)
      {
        var d := local[i];
        ToRevertStep(local, i, r0, to);
        if to.Some? && d <= to.value { break; }
        InRemote(remote, r0, d);
        if d in remote {
          ghost var r, s, rest := recorded, ran, ToRevert(local[..i], r0, to);
          o := RunAndRecord(d, true);
          WentOne(c, plan, went, d, rest, r0, s0, r, s, o.Done?, recorded, ran);
          if o.Died? { return; }
          went := went + [d];
        }
      }
      WentAll(c, plan, went, r0, s0, recorded, ran);
      return Done;
    }

    /** One command. It is refused when a recorded migration is not known locally. If it is
        not cut short, what was planned went through in order, and an upgrade without a
        target fails exactly when the record was not a prefix; it is cut short exactly when
        one of its calls is. */
    method Migrate(downgrade: bool, to: Option<int>) returns (o: Outcome)
      requires Increasing(local)
      modifies this`calls, this`recorded, this`ran
      ensures Calls(old(calls), o)
      ensures MayBecome(local, old(recorded), Command(downgrade, to), recorded)
      ensures Prefix(local, old(recorded)) ==> Prefix(local, recorded)
      ensures o.UnknownRemote? ==> recorded == old(recorded) && ran == old(ran) && !(old(recorded) <= Elems(local))
      ensures !(old(recorded) <= Elems(local)) ==> o.UnknownRemote? || o.Died?
      ensures o.Done? || o.Unapplied? ==>
                var c := Command(downgrade, to);
                && recorded == Complete(local, old(recorded), c)
                && ran == old(ran) + Runs(c, Planned(local, old(recorded), c))
      ensures o.Done? && !downgrade && to == None ==> Prefix(local, old(recorded)) && recorded == Elems(local)
      ensures o.Unapplied? ==> !downgrade && to == None && !Prefix(local, old(recorded))
    {
      ghost var c, before, s0 := Command(downgrade, to), recorded, ran;
      var remote;
      o, remote := GetRemoteMigrations();
      if o.Died? { return; }
      AllKnown(local, remote, recorded);
      hide Elems, ToApply, ToRevert, Prefix, Went, Increasing;
      if exists d :: d in remote && d !in local { return UnknownRemote; }
      if downgrade {
        o := Downgrade(remote, to);
      } else {
        o := Upgrade(remote, to);
      }
      CommandWent(local, before, s0, c, o.Done?, recorded, ran);
      if o.Died? || downgrade || to.Some? { return; }
      UpgradeCompletesIff(local, before);
      ToApplyIs(local, before, None);
      o, remote := GetRemoteMigrations();
      if o.Died? { return; }
      AllKnown(remote, local, Elems(local));
      UntargetedCompletes(local, before, recorded);
      if exists d :: d in local && d !in remote { return Unapplied; }
    }
  }

  lemma AllKnown(local: seq<int>, remote: seq<int>, recorded: set<int>)
    requires Elems(remote) == recorded
    ensures (exists d :: d in remote && d !in local) <==> !(recorded <= Elems(local))
  {
    if d :| d in remote && d !in local { assert d in Elems(remote); }
    if forall d :: d in remote ==> d in local {
      forall d | d in recorded ensures d in Elems(local) { assert d in remote; }
    }
  }

  /** A record that an untargeted upgrade leaves holds nothing but local migrations. */
  lemma UntargetedCompletes(local: seq<int>, before: set<int>, after: set<int>)
    requires Increasing(local) && before <= Elems(local) && after == Complete(local, before, Command(false, None))
    ensures after <= Elems(local)
  {
    ToApplyIs(local, before, None);
    var plan := ToApply(local, before, None);
    forall d | d in after ensures d in Elems(local) { assert d in before || d in plan; }
  }

  lemma CommandWent(local: seq<int>, before: set<int>, ran0: seq<Run>, c: Command, done: bool, after: set<int>, ran: seq<Run>)
    requires Increasing(local) && before <= Elems(local)
    requires Went(c, Planned(local, before, c), done, before, ran0, after, ran)
    ensures MayBecome(local, before, c, after) && (Prefix(local, before) ==> Prefix(local, after))
    ensures done ==> after == Complete(local, before, c) && ran == ran0 + Runs(c, Planned(local, before, c))
  {
    var plan := Planned(local, before, c);
    assert plan[..|plan|] == plan;
    hide Prefix, Elems, Runs;
    PrefixAfter(local, before, c, after);
  }

  lemma InRemote(remote: seq<int>, recorded: set<int>, d: int)
    requires Elems(remote) == recorded
    ensures d in remote <==> d in recorded
  {
    assert d in remote <==> d in Elems(remote);
  }

  lemma NewerThanAll(remote: seq<int>, recorded: set<int>, d: int)
    requires Increasing(remote) && Elems(remote) == recorded
    ensures remote == [] || remote[|remote| - 1] < d <==> Newer(d, recorded)
  {
    if remote != [] { assert remote[|remote| - 1] in Elems(remote); }
    forall r | r in recorded && (remote == [] || remote[|remote| - 1] < d) ensures r < d {
      assert r in Elems(remote);
    }
  }

  /** A migration ran and then was recorded; cut short, it may have run unrecorded. */
  predicate RanOne(d: int, downgrade: bool, done: bool, r: set<int>, s: seq<Run>, r': set<int>, s': seq<Run>) {
    var run := if downgrade then Down(d) else Up(d);
    if done then r' == (if downgrade then r - {d} else r + {d}) && s' == s + [run]
    else r' == r && (s' == s || s' == s + [run])
  }

  /** The first migrations of a plan went through and are recorded, in order. */
  predicate Underway(c: Command, plan: seq<int>, went: seq<int>, rest: seq<int>, before: set<int>, ran0: seq<Run>,
                     recorded: set<int>, ran: seq<Run>) {
    plan == went + rest && recorded == After(before, c, went) && ran == ran0 + Runs(c, went)
  }

  /** The whole plan went through and is recorded, or a first part of it is. */
  predicate Went(c: Command, plan: seq<int>, done: bool, before: set<int>, ran0: seq<Run>, recorded: set<int>, ran: seq<Run>) {
    if done then recorded == After(before, c, plan) && ran == ran0 + Runs(c, plan)
    else exists n :: 0 <= n <= |plan| && recorded == After(before, c, plan[..n])
  }

  lemma Starting(c: Command, plan: seq<int>, before: set<int>, ran: seq<Run>)
    ensures Underway(c, plan, [], plan, before, ran, before, ran)
  {
  }

  lemma WentOne(c: Command, plan: seq<int>, went: seq<int>, d: int, rest: seq<int>, before: set<int>, ran0: seq<Run>,
                r: set<int>, s: seq<Run>, done: bool, r': set<int>, s': seq<Run>)
    requires Underway(c, plan, went, [d] + rest, before, ran0, r, s) && RanOne(d, c.downgrade, done, r, s, r', s')
    ensures if done then Underway(c, plan, went + [d], rest, before, ran0, r', s')
            else Went(c, plan, false, before, ran0, r', s')
  {
    assert plan[..|went|] == went;
    assert went + ([d] + rest) == went + [d] + rest;
    assert Elems(went + [d]) == Elems(went) + Elems([d]);
    assert Runs(c, went + [d]) == Runs(c, went) + [if c.downgrade then Down(d) else Up(d)];
  }

  lemma WentAll(c: Command, plan: seq<int>, went: seq<int>, before: set<int>, ran0: seq<Run>, r: set<int>, s: seq<Run>)
    requires Underway(c, plan, went, [], before, ran0, r, s)
    ensures Went(c, plan, true, before, ran0, r, s)
  {
    assert went + [] == went;
  }

  lemma NotEmpty(s: set<int>)
    ensures s == {} || exists d :: d in s
  {
    if forall d :: d !in s { assert s == {}; }
  }

  /** What is planned from the i-th local migration on. */
  function ApplyFrom(local: seq<int>, i: nat, recorded: set<int>, to: Option<int>): seq<int>
    requires i <= |local|
  {
    ToApply(local[i..], recorded, to)
  }

  lemma ApplyFromStep(local: seq<int>, i: nat, recorded: set<int>, to: Option<int>)
    requires i < |local|
    ensures ApplyFrom(local, i, recorded, to) ==
              if Beyond(local[i], to) then []
              else (if Newer(local[i], recorded) then [local[i]] else []) + ApplyFrom(local, i + 1, recorded, to)
  {
    assert local[i..][0] == local[i] && local[i..][1..] == local[i+1..];
  }

  lemma ToRevertEnds(local: seq<int>, recorded: set<int>, to: Option<int>)
    ensures local[..|local|] == local && ToRevert(local[..0], recorded, to) == []
  {
  }

  lemma ToRevertStep(local: seq<int>, i: nat, recorded: set<int>, to: Option<int>)
    requires i < |local|
    ensures ToRevert(local[..i+1], recorded, to) ==
              if to.Some? && local[i] <= to.value then []
              else if local[i] in recorded then [local[i]] + ToRevert(local[..i], recorded, to)
              else ToRevert(local[..i], recorded, to)
  {
    assert [] + ToRevert(local[..i], recorded, to) == ToRevert(local[..i], recorded, to);
    assert local[..i+1][i] == local[i] && local[..i+1][..i] == local[..i];
  }

  lemma PrefixAfter(local: seq<int>, recorded: set<int>, c: Command, recorded': set<int>)
    requires Increasing(local) && MayBecome(local, recorded, c, recorded')
    ensures Prefix(local, recorded) ==> Prefix(local, recorded')
  {
    if Prefix(local, recorded) { CommandKeepsPrefix(local, recorded, c, recorded'); }
  }
}
