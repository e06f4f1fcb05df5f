/** What a whole run of the Mongo cleaner keeps, at every moment it may end: nothing is
    lost, budgets hold, only rows of deleted owners go, and a stamp means all gone. */
module CleanerRun {
  import opened Wrappers
  import opened CleanerTypes

  datatype AccountRow = AccountRow(org: string, deleted: bool, cleanedAt: int)
  datatype OrgRow = OrgRow(deleted: bool, demo: bool, cleanedAt: int)

  /** The stores the cleaner works on, and what it may still delete. */
  datatype World = World(
    db: map<Collection, Rows>,
    files: Files,
    last: map<string, nat>,
    limits: map<Collection, nat>,
    accounts: map<string, AccountRow>,
    orgs: map<string, OrgRow>)

  datatype Config = Config(archive: bool, max: nat, budget: nat)

  const ACCOUNT_COLLECTIONS := [RawExpenses, Resources]
  const ORG_COLLECTIONS := [Events, ArchivedRecommendations, Checklists, Resources, WebhookObserver, WebhookLogs]

  predicate Covers(owner: Owner, c: Collection) {
    match owner
    case ByAccount(_) => c in ACCOUNT_COLLECTIONS
    case ByOrg(_) => c in ORG_COLLECTIONS
  }

  predicate Deleted(w: World, owner: Owner) {
    match owner
    case ByAccount(a) =>
      && a in w.accounts && w.accounts[a].org in w.orgs
      && (w.orgs[w.accounts[a].org].deleted || w.accounts[a].deleted)
    case ByOrg(o) => o in w.orgs && w.orgs[o].deleted
  }

  predicate Demo(w: World, a: string) {
    a in w.accounts && w.accounts[a].org in w.orgs && w.orgs[w.accounts[a].org].demo
  }

  /** When the owner's rows were cleaned, zero if they were not. */
  function CleanedAt(w: World, owner: Owner): int {
    match owner
    case ByAccount(a) => if a in w.accounts then w.accounts[a].cleanedAt else 0
    case ByOrg(o) => if o in w.orgs then w.orgs[o].cleanedAt else 0
  }

  predicate Due(w: World, owner: Owner) { Deleted(w, owner) && CleanedAt(w, owner) == 0 }

  function RowsOf(w: World, c: Collection): Rows { if c in w.db then w.db[c] else map[] }

  predicate NoneLeft(w: World, owner: Owner) {
    forall c :: Covers(owner, c) ==> Matching(RowsOf(w, c), owner) == {}
  }

  function Last(w: World, a: string): nat { if a in w.last then w.last[a] else 0 }

  // --- what holds at every moment ---------------------------------------------------

  predicate Removable(w0: World, c: Collection, r: Row) {
    || (r.account.Some? && Covers(ByAccount(r.account.value), c) && Deleted(w0, ByAccount(r.account.value)))
    || (r.org.Some? && Covers(ByOrg(r.org.value), c) && Deleted(w0, ByOrg(r.org.value)))
  }

  /** The collection lost at most the budget, only rows of deleted owners, and no other
      row changed. */
  ghost predicate RowsKept(budget: nat, w0: World, w: World, c: Collection) {
    && c in w.db && c in w.limits
    && Remain(w0, c, RowsOf(w0, c), RowsOf(w, c))
    && |RowsOf(w0, c)| - |RowsOf(w, c)| <= budget
  }

  ghost predicate Remain(w0: World, c: Collection, before: Rows, after: Rows) {
    && (forall id :: id in after ==> id in before && after[id] == before[id])
    && (forall id :: id in before && id !in after ==> Removable(w0, c, before[id]))
  }

  /** The archive of an account only grows at its end; a run that archives keeps it in
      files 1..k without gaps, another one does not touch it. */
  ghost predicate ArchiveKept(cfg: Config, w0: World, w: World, a: string) {
    && (if cfg.archive then Shape(w.files, a, cfg.max, Last(w, a)) else w.files == w0.files)
    && Content(w0.files, a, Last(w0, a)) <= Content(w.files, a, Last(w, a))
  }

  /** An expense row is in its collection, or archived, or need not be archived. */
  ghost predicate Conserved(cfg: Config, w0: World, w: World, id: Id) {
    id in RowsOf(w0, RawExpenses) ==>
      var r := RowsOf(w0, RawExpenses)[id];
      || id in RowsOf(w, RawExpenses)
      || !cfg.archive
      || (r.account.Some? && (Demo(w0, r.account.value) ||
            Doc(id, r) in Content(w.files, r.account.value, Last(w, r.account.value))))
  }

  ghost predicate OwnersKept(w0: World, w: World) {
    && w.accounts.Keys == w0.accounts.Keys && w.orgs.Keys == w0.orgs.Keys
    && (forall a :: a in w.accounts ==> w.accounts[a].org == w0.accounts[a].org && w.accounts[a].deleted == w0.accounts[a].deleted)
    && (forall o :: o in w.orgs ==> w.orgs[o].deleted == w0.orgs[o].deleted && w.orgs[o].demo == w0.orgs[o].demo)
    && (forall owner :: StampKept(w0, w, owner))
  }

  /** An owner is stamped cleaned only when it is due and none of its rows remain. */
  predicate StampKept(w0: World, w: World, owner: Owner) {
    CleanedAt(w, owner) == CleanedAt(w0, owner) || (Due(w0, owner) && NoneLeft(w, owner))
  }

  ghost predicate Sound(cfg: Config, w0: World, w: World) {
    && (forall c: Collection :: RowsKept(cfg.budget, w0, w, c))
    && (forall a: string :: ArchiveKept(cfg, w0, w, a))
    && (forall id: Id :: Conserved(cfg, w0, w, id))
    && OwnersKept(w0, w)
  }

  /** Remaining limit plus rows deleted is the configured limit. */
  ghost predicate Balanced(cfg: Config, w0: World, w: World, c: Collection) {
    c in w.limits && w.limits[c] + |RowsOf(w0, c)| - |RowsOf(w, c)| == cfg.budget
  }

  // --- deleting rows keeps it ---------------------------------------------------------

  datatype Deletion = Deletion(c: Collection, owner: Owner, sweep: Sweep, gone: set<Id>, now: Archive, added: seq<Doc>)

  /** However far a deletion gets: rows of the owner leave the collection, no more than
      the limit allows, and whatever must be archived is archived before it leaves. */
  ghost predicate Changes(w: World, w': World, max: nat, x: Deletion) {
    && x.c in w.db && x.c in w.limits
    && x.sweep.rows == w.db[x.c] && x.sweep.max == max && x.sweep.start == Archive(w.files, Last(w, x.sweep.account))
    && x.sweep.Safe(x.gone, x.now, x.added)
    && x.gone <= Matching(w.db[x.c], x.owner) && |x.gone| <= w.limits[x.c]
    && w' == w.(db := w.db[x.c := w.db[x.c] - x.gone], files := x.now.files,
                last := w.last[x.sweep.account := x.now.last])
  }

  /** A deletion that is not cut short takes all the owner's rows or as many as the limit
      allows, and archives each of them exactly once if they must be archived. */
  ghost predicate Completes(w: World, x: Deletion, rest: nat) {
    && x.c in w.limits && x.c in w.db && rest == w.limits[x.c] - |x.gone|
    && (|x.gone| == w.limits[x.c] || x.gone == Matching(w.db[x.c], x.owner))
    && x.gone == Ids(x.sweep.ids) && Known(x.sweep.rows, x.sweep.ids)
    && (x.sweep.archive ==> multiset(x.added) == multiset(DocsOf(x.sweep.rows, x.sweep.ids)))
  }

  /** The rows of the owner may go from the collection, archived if they must be. */
  predicate May(cfg: Config, w0: World, c: Collection, owner: Owner, archive: bool, account: string) {
    && Covers(owner, c) && Deleted(w0, owner) && (owner.ByAccount? ==> owner.account == account)
    && (archive <==> c == RawExpenses && cfg.archive && !Demo(w0, account))
  }

  /** A deletion the run may make, apart from what it takes off the limit. */
  ghost predicate Step(cfg: Config, w0: World, w: World, w': World, x: Deletion) {
    && May(cfg, w0, x.c, x.owner, x.sweep.archive, x.sweep.account)
    && Changes(w, w'.(limits := w.limits), cfg.max, x) && w'.limits.Keys == w.limits.Keys
    && |x.gone| + |RowsOf(w0, x.c)| - |RowsOf(w, x.c)| <= cfg.budget
  }

  lemma SizeMinus<K, V>(m: map<K, V>, s: set<K>)
    requires s <= m.Keys
    ensures |m - s| == |m| - |s|
  {
    assert (m - s).Keys == m.Keys - s;
    assert |m.Keys - s| == |m.Keys| - |s|;
  }

  lemma RowsGo(w0: World, c: Collection, before: Rows, after: Rows, owner: Owner, gone: set<Id>)
    requires Remain(w0, c, before, after) && gone <= Matching(after, owner)
    requires Covers(owner, c) && Deleted(w0, owner)
    ensures Remain(w0, c, before, after - gone) && |after - gone| == |after| - |gone|
  {
    SizeMinus(after, gone);
    hide Covers, Deleted;
    forall id | id in before && id !in after - gone ensures Removable(w0, c, before[id]) {
      if id in after { assert Owns(owner, after[id]); }
    }
  }

  lemma StepKeepsRows(cfg: Config, w0: World, w: World, w': World, x: Deletion, d: Collection)
    requires RowsKept(cfg.budget, w0, w, d)
    requires Step(cfg, w0, w, w', x)
    ensures RowsKept(cfg.budget, w0, w', d)
    ensures d == x.c ==> |RowsOf(w', d)| == |RowsOf(w, d)| - |x.gone|
    ensures d != x.c ==> RowsOf(w', d) == RowsOf(w, d)
  {
    hide Covers, Deleted, Demo, Removable, Sweep.Safe, Matching, Remain;
    if d == x.c { RowsGo(w0, x.c, RowsOf(w0, x.c), RowsOf(w, x.c), x.owner, x.gone); }
  }

  lemma StepKeepsArchive(cfg: Config, w0: World, w: World, w': World, x: Deletion, a: string)
    requires ArchiveKept(cfg, w0, w, a)
    requires Step(cfg, w0, w, w', x)
    ensures ArchiveKept(cfg, w0, w', a)
    ensures Content(w.files, a, Last(w, a)) <= Content(w'.files, a, Last(w', a))
  {
    hide Deleted, Covers, Matching;
    if x.sweep.archive && a != x.sweep.account {
      OtherAccount(w.files, w'.files, a, cfg.max, Last(w, a));
    }
  }

  lemma OtherAccount(files: Files, files': Files, a: string, max: nat, k: nat)
    requires Shape(files, a, max, k)
    requires forall f: File :: f.account == a ==> (f in files' <==> f in files) && Lines(files', f) == Lines(files, f)
    ensures Shape(files', a, max, k) && Content(files', a, k) == Content(files, a, k)
  {
    ContentUntouched(files, files', a, k);
  }

  lemma StepConserves(cfg: Config, w0: World, w: World, w': World, x: Deletion, id: Id)
    requires Conserved(cfg, w0, w, id) && RowsKept(cfg.budget, w0, w, RawExpenses)
    requires forall a: string :: ArchiveKept(cfg, w0, w, a)
    requires Step(cfg, w0, w, w', x)
    ensures Conserved(cfg, w0, w', id)
  {
    if id in RowsOf(w0, RawExpenses) && RowsOf(w0, RawExpenses)[id].account.Some? {
      var a := RowsOf(w0, RawExpenses)[id].account.value;
      assert ArchiveKept(cfg, w0, w, a);
      StepKeepsArchive(cfg, w0, w, w', x, a);
      hide ArchiveKept, Shape, Content;
      if id in RowsOf(w, RawExpenses) && id !in RowsOf(w', RawExpenses) && cfg.archive {
        assert id in Matching(RowsOf(w, x.c), x.owner);
        assert x.owner == ByAccount(a);
      }
    }
  }

  predicate Shrunk(w: World, w': World, c: Collection) {
    forall id :: id in RowsOf(w', c) ==> id in RowsOf(w, c) && RowsOf(w', c)[id] == RowsOf(w, c)[id]
  }

  lemma LessLeft(w: World, w': World, owner: Owner)
    requires NoneLeft(w, owner) && forall c: Collection :: Shrunk(w, w', c)
    ensures NoneLeft(w', owner)
  {
    forall c | Covers(owner, c) ensures Matching(RowsOf(w', c), owner) == {} {
      assert Shrunk(w, w', c);
      assert Matching(RowsOf(w', c), owner) <= Matching(RowsOf(w, c), owner);
    }
  }

  lemma OwnersStay(w0: World, w: World, w': World)
    requires OwnersKept(w0, w) && w'.accounts == w.accounts && w'.orgs == w.orgs
    requires forall c: Collection :: Shrunk(w, w', c)
    ensures OwnersKept(w0, w')
  {
    hide NoneLeft, Due, Shrunk;
    forall o: Owner ensures StampKept(w0, w', o) {
      assert StampKept(w0, w, o);
      if NoneLeft(w, o) { LessLeft(w, w', o); }
    }
  }

  lemma StepShrinks(cfg: Config, w0: World, w: World, w': World, x: Deletion)
    requires Step(cfg, w0, w, w', x)
    ensures w'.accounts == w.accounts && w'.orgs == w.orgs && forall c: Collection :: Shrunk(w, w', c)
  {
    hide Sweep.Safe, May, Matching, Last;
    assert forall c :: c != x.c ==> RowsOf(w', c) == RowsOf(w, c);
    assert RowsOf(w', x.c) == RowsOf(w, x.c) - x.gone;
  }

  lemma StepKeepsOwners(cfg: Config, w0: World, w: World, w': World, x: Deletion)
    requires OwnersKept(w0, w) && Step(cfg, w0, w, w', x)
    ensures OwnersKept(w0, w')
  {
    StepShrinks(cfg, w0, w, w', x);
    hide *;
    OwnersStay(w0, w, w');
  }

  /** Deleting some rows of a deleted owner, however far it gets, keeps the run sound. */
  lemma StepKeeps(cfg: Config, w0: World, w: World, w': World, x: Deletion)
    requires Sound(cfg, w0, w) && Step(cfg, w0, w, w', x)
    ensures Sound(cfg, w0, w')
  {
    hide Step, RowsKept, ArchiveKept, Conserved, OwnersKept;
    forall d: Collection ensures RowsKept(cfg.budget, w0, w', d) {
      StepKeepsRows(cfg, w0, w, w', x, d);
    }
    forall a: string ensures ArchiveKept(cfg, w0, w', a) {
      StepKeepsArchive(cfg, w0, w, w', x, a);
    }
    forall id: Id ensures Conserved(cfg, w0, w', id) {
      StepConserves(cfg, w0, w, w', x, id);
    }
    StepKeepsOwners(cfg, w0, w, w', x);
  }

  /** The rows deleted come off the collection's limit, and no other limit changes. */
  lemma StepBalances(cfg: Config, w0: World, w: World, w': World, x: Deletion, d: Collection)
    requires Sound(cfg, w0, w) && Step(cfg, w0, w, w', x)
    requires Balanced(cfg, w0, w, d) && d in w'.limits
    requires w'.limits[d] == if d == x.c then w.limits[d] - |x.gone| else w.limits[d]
    ensures Balanced(cfg, w0, w', d)
  {
    hide Step, RowsKept, ArchiveKept, Conserved, OwnersKept;
    StepKeepsRows(cfg, w0, w, w', x, d);
  }

  /** Either the collection's limit is exhausted or no row of the owner is left. */
  predicate Swiped(w: World, c: Collection, owner: Owner) {
    c in w.limits && (w.limits[c] > 0 ==> Matching(RowsOf(w, c), owner) == {})
  }

  ghost predicate OnBudget(cfg: Config, w0: World, w: World) {
    forall c: Collection :: Balanced(cfg, w0, w, c)
  }

  /** Everything deletions took is off the limits. */
  ghost predicate Steady(cfg: Config, w0: World, w: World) { Sound(cfg, w0, w) && OnBudget(cfg, w0, w) }

  /** After a deletion, when its rows are taken off the limit of the collection. */
  function Charged(w: World, x: Deletion): World
    requires x.c in w.limits && |x.gone| <= w.limits[x.c]
  {
    w.(limits := w.limits[x.c := w.limits[x.c] - |x.gone|])
  }

  lemma AfterStep(cfg: Config, w0: World, w: World, w': World, x: Deletion)
    requires Steady(cfg, w0, w) && Step(cfg, w0, w, w', x) && w'.limits == w.limits
    requires x.c in w.limits && |x.gone| <= w.limits[x.c]
    ensures Sound(cfg, w0, w') && Sound(cfg, w0, Charged(w', x)) && Steady(cfg, w0, Charged(w', x))
    ensures forall d :: d != x.c && Swiped(w, d, x.owner) ==> Swiped(Charged(w', x), d, x.owner)
    ensures |x.gone| == w.limits[x.c] || x.gone == Matching(RowsOf(w, x.c), x.owner) ==> Swiped(Charged(w', x), x.c, x.owner)
  {
    var w'' := Charged(w', x);
    StepCharged(cfg, w0, w, w', x);
    StepKeeps(cfg, w0, w, w', x);
    StepKeeps(cfg, w0, w, w'', x);
    hide Sound, Balanced, Step, Matching, RowsOf;
    forall d: Collection ensures Balanced(cfg, w0, w'', d) {
      assert Balanced(cfg, w0, w, d);
      LimitKnown(cfg, w0, w, d);
      StepBalances(cfg, w0, w, w'', x, d);
    }
    hide Swiped;
    forall d | d != x.c && Swiped(w, d, x.owner) ensures Swiped(w'', d, x.owner) {
      LimitKnown(cfg, w0, w, d);
      StepSpares(cfg, w0, w, w'', x, d);
    }
    if |x.gone| == w.limits[x.c] || x.gone == Matching(RowsOf(w, x.c), x.owner) { StepSwipes(cfg, w0, w, w'', x); }
  }

  /** Some deletion took the run from w to w'; when it was not cut short, rest is what
      remains of the collection's limit. */
  ghost predicate Stepped(cfg: Config, w0: World, w: World, w': World, c: Collection, owner: Owner, done: bool, rest: nat) {
    exists x :: TookStep(cfg, w0, w, w', c, owner, done, rest, x)
  }

  ghost predicate TookStep(cfg: Config, w0: World, w: World, w': World, c: Collection, owner: Owner, done: bool, rest: nat,
                           x: Deletion) {
    && Step(cfg, w0, w, w', x) && w'.limits == w.limits && x.c == c && x.owner == owner
    && (done ==> Completes(w, x, rest))
  }

  lemma StepMade(cfg: Config, w0: World, w: World, w': World, x: Deletion, done: bool, rest: nat)
    requires Steady(cfg, w0, w) && May(cfg, w0, x.c, x.owner, x.sweep.archive, x.sweep.account)
    requires Changes(w, w', cfg.max, x) && (done ==> Completes(w, x, rest))
    ensures Stepped(cfg, w0, w, w', x.c, x.owner, done, rest)
  {
    hide Sound, May, Completes, Sweep.Safe, Matching;
    assert Balanced(cfg, w0, w, x.c);
    assert w'.(limits := w.limits) == w';
    assert TookStep(cfg, w0, w, w', x.c, x.owner, done, rest, x);
  }

  lemma StepBounds(cfg: Config, w0: World, w: World, w': World, x: Deletion)
    requires Step(cfg, w0, w, w', x)
    ensures x.c in w.limits && x.c in w.db && |x.gone| <= w.limits[x.c] && RowsOf(w, x.c) == w.db[x.c]
  {
    hide May, Sweep.Safe, Matching, Last;
  }

  lemma TookLimits(cfg: Config, w0: World, w: World, w': World, c: Collection, owner: Owner, done: bool, rest: nat,
                   x: Deletion)
    requires TookStep(cfg, w0, w, w', c, owner, done, rest, x)
    ensures Step(cfg, w0, w, w', x) && w'.limits == w.limits && x.c == c && x.owner == owner
    ensures c in w.limits && |x.gone| <= w.limits[c]
    ensures done ==> Charged(w', x) == w'.(limits := w'.limits[c := rest])
    ensures done ==> |x.gone| == w.limits[c] || x.gone == Matching(RowsOf(w, c), owner)
  {
    StepBounds(cfg, w0, w, w', x);
    hide Step, Matching, Known, Ids, DocsOf, RowsOf;
    if done {
      CompletesMeans(w, x, rest);
      hide Completes;
      ChargedIs(w', x, rest);
    }
  }

  lemma CompletesMeans(w: World, x: Deletion, rest: nat)
    requires Completes(w, x, rest)
    ensures x.c in w.limits && x.c in w.db && rest == w.limits[x.c] - |x.gone|
    ensures |x.gone| == w.limits[x.c] || x.gone == Matching(w.db[x.c], x.owner)
  {
  }

  lemma ChargedIs(w: World, x: Deletion, rest: nat)
    requires x.c in w.limits && |x.gone| <= w.limits[x.c] && rest == w.limits[x.c] - |x.gone|
    ensures Charged(w, x) == w.(limits := w.limits[x.c := rest])
  {
  }

  lemma AfterStepped(cfg: Config, w0: World, w: World, w': World, c: Collection, owner: Owner, done: bool, rest: nat)
    requires Steady(cfg, w0, w) && Stepped(cfg, w0, w, w', c, owner, done, rest)
    ensures Sound(cfg, w0, w')
    ensures done ==> var w'' := w'.(limits := w'.limits[c := rest]); Sound(cfg, w0, w'') && Steady(cfg, w0, w'')
    ensures done ==> var w'' := w'.(limits := w'.limits[c := rest]);
              Swiped(w'', c, owner) && forall d :: d != c && Swiped(w, d, owner) ==> Swiped(w'', d, owner)
  {
    var x :| TookStep(cfg, w0, w, w', c, owner, done, rest, x);
    hide Sound, Steady, Swiped, Step;
    TookLimits(cfg, w0, w, w', c, owner, done, rest, x);
    hide TookStep, Matching;
    AfterStep(cfg, w0, w, w', x);
  }

  lemma LimitKnown(cfg: Config, w0: World, w: World, c: Collection)
    requires Steady(cfg, w0, w)
    ensures c in w.limits
  {
    hide Sound;
    assert Balanced(cfg, w0, w, c);
  }

  lemma StepCharged(cfg: Config, w0: World, w: World, w': World, x: Deletion)
    requires Step(cfg, w0, w, w', x) && x.c in w.limits && |x.gone| <= w.limits[x.c] && w'.limits == w.limits
    ensures Step(cfg, w0, w, Charged(w', x), x)
  {
    hide Covers, Deleted, Demo, Matching, Sweep.Safe;
  }

  lemma StepSwipes(cfg: Config, w0: World, w: World, w': World, x: Deletion)
    requires Step(cfg, w0, w, w', x) && x.c in w.limits && |x.gone| <= w.limits[x.c]
    requires x.c in w'.limits && w'.limits[x.c] == w.limits[x.c] - |x.gone|
    requires |x.gone| == w.limits[x.c] || x.gone == Matching(RowsOf(w, x.c), x.owner)
    ensures Swiped(w', x.c, x.owner)
  {
    hide Sweep.Safe, Covers, Deleted, Demo;
    assert RowsOf(w', x.c) == RowsOf(w, x.c) - x.gone;
  }

  lemma StepSpares(cfg: Config, w0: World, w: World, w': World, x: Deletion, d: Collection)
    requires Step(cfg, w0, w, w', x) && d != x.c && Swiped(w, d, x.owner)
    requires d in w'.limits && w'.limits[d] == w.limits[d]
    ensures Swiped(w', d, x.owner)
  {
    hide Sweep.Safe, Covers, Deleted, Demo, Matching;
    assert RowsOf(w', d) == RowsOf(w, d);
  }

  // --- stamping keeps it ----------------------------------------------------------------

  function Stamp(w: World, owner: Owner, now: int): World {
    match owner
    case ByAccount(a) => if a in w.accounts then w.(accounts := w.accounts[a := w.accounts[a].(cleanedAt := now)]) else w
    case ByOrg(o) => if o in w.orgs then w.(orgs := w.orgs[o := w.orgs[o].(cleanedAt := now)]) else w
  }

  lemma StampKeepsOwners(w0: World, w: World, owner: Owner, now: int)
    requires OwnersKept(w0, w) && Due(w0, owner) && NoneLeft(w, owner)
    ensures OwnersKept(w0, Stamp(w, owner, now))
  {
    var w' := Stamp(w, owner, now);
    hide Due;
    assert NoneLeft(w', owner);
    forall o: Owner ensures StampKept(w0, w', o) {
      assert StampKept(w0, w, o);
      assert o == owner || CleanedAt(w', o) == CleanedAt(w, o);
    }
  }

  lemma StampKeeps(cfg: Config, w0: World, w: World, owner: Owner, now: int)
    requires Sound(cfg, w0, w) && Due(w0, owner) && NoneLeft(w, owner)
    ensures Sound(cfg, w0, Stamp(w, owner, now))
    ensures forall c :: Balanced(cfg, w0, w, c) ==> Balanced(cfg, w0, Stamp(w, owner, now), c)
  {
    StampKeepsOwners(w0, w, owner, now);
    var w' := Stamp(w, owner, now);
    hide Due, NoneLeft, OwnersKept, Remain, Shape, Content, Demo;
    forall c: Collection ensures RowsKept(cfg.budget, w0, w', c) { assert RowsKept(cfg.budget, w0, w, c); }
    forall a: string ensures ArchiveKept(cfg, w0, w', a) { assert ArchiveKept(cfg, w0, w, a); }
    forall id: Id ensures Conserved(cfg, w0, w', id) { assert Conserved(cfg, w0, w, id); }
  }

  /** Who is still to be cleaned, among accounts and among organizations. */
  function DueAccounts(w: World): set<string> { set a | a in w.accounts && Due(w, ByAccount(a)) }

  function DueOrgs(w: World): set<string> { set o | o in w.orgs && Due(w, ByOrg(o)) }

  lemma DueFromStart(cfg: Config, w0: World, w: World, owner: Owner)
    requires Sound(cfg, w0, w) && Due(w, owner)
    ensures Due(w0, owner)
  {
    hide RowsKept, ArchiveKept, Conserved;
    assert StampKept(w0, w, owner);
  }

  lemma StampShrinks(w: World, owner: Owner, now: int)
    requires now != 0 && Due(w, owner)
    ensures owner.ByAccount? ==> DueAccounts(Stamp(w, owner, now)) < DueAccounts(w)
    ensures owner.ByOrg? ==> DueOrgs(Stamp(w, owner, now)) < DueOrgs(w)
  {
    match owner
    case ByAccount(a) => assert a in DueAccounts(w) && a !in DueAccounts(Stamp(w, owner, now));
    case ByOrg(o) => assert o in DueOrgs(w) && o !in DueOrgs(Stamp(w, owner, now));
  }

  /** Nothing is deleted yet, and every limit is the configured one. */
  predicate Starts(cfg: Config, w: World) {
    forall c: Collection :: c in w.db && c in w.limits && w.limits[c] == cfg.budget
  }

  lemma StartIsSteady(cfg: Config, w0: World, w: World)
    requires Starts(cfg, w) && w == w0.(limits := w.limits)
    requires cfg.archive ==> forall a: string :: Shape(w0.files, a, cfg.max, Last(w0, a))
    ensures Steady(cfg, w0, w)
  {
    forall c: Collection ensures RowsKept(cfg.budget, w0, w, c) && Balanced(cfg, w0, w, c) {}
    forall a: string ensures ArchiveKept(cfg, w0, w, a) {
      assert cfg.archive ==> Shape(w0.files, a, cfg.max, Last(w0, a));
      assert Last(w, a) == Last(w0, a);
    }
    forall o: Owner ensures StampKept(w0, w, o) {}
    forall id: Id ensures Conserved(cfg, w0, w, id) {}
  }

  /** When every collection an owner is covered by was deleted from and no limit is
      exhausted, nothing of the owner is left. */
  lemma AllSwiped(w: World, cs: seq<Collection>, owner: Owner)
    requires forall c :: c in cs <==> Covers(owner, c)
    requires forall c :: c in cs ==> Swiped(w, c, owner) && w.limits[c] > 0
    ensures NoneLeft(w, owner)
  {
  }

  predicate SameOwners(w: World, w': World) { w'.accounts == w.accounts && w'.orgs == w.orgs }

  /** The owner got its stamp, and no other owner changed. */
  predicate Stamps(w: World, w': World, owner: Owner, now: int) { SameOwners(Stamp(w, owner, now), w') }

  lemma StampsMade(w: World, w': World, owner: Owner, now: int)
    requires SameOwners(w, w')
    ensures Stamps(w, Stamp(w', owner, now), owner, now)
  {
  }

  lemma DueStill(w: World, w': World, owner: Owner)
    requires SameOwners(w, w')
    ensures Due(w', owner) == Due(w, owner)
  {
  }

  lemma SteadySound(cfg: Config, w0: World, w: World)
    requires Steady(cfg, w0, w)
    ensures Sound(cfg, w0, w)
  {
  }

  /** Whether an account is a demo, and who is deleted, does not change during a run. */
  lemma MayDelete(cfg: Config, w0: World, w: World, owner: Owner, archive: bool, account: string)
    requires Steady(cfg, w0, w) && Due(w, owner) && Due(w0, owner)
    requires owner.ByAccount? ==> account == owner.account && (archive <==> cfg.archive && !Demo(w, account))
    ensures forall c :: Covers(owner, c) ==> May(cfg, w0, c, owner, archive && c == RawExpenses, account)
  {
    hide RowsKept, ArchiveKept, Conserved, OnBudget;
  }

  predicate SameLimits(w: World, w': World, cs: seq<Collection>) {
    forall c :: c !in cs && c in w.limits ==> c in w'.limits && w'.limits[c] == w.limits[c]
  }

  lemma OnlyLimit(w: World, w': World, w'': World, c: Collection)
    requires w'.limits == w.limits && SameLimits(w', w'', [c])
    ensures SameLimits(w, w'', [c])
  {
  }

  /** The owner's rows are gone from the first i collections, as far as limits allow. */
  ghost predicate Emptied(w: World, w': World, cs: seq<Collection>, i: nat, owner: Owner) {
    && i <= |cs| && SameLimits(w, w', cs)
    && forall j :: 0 <= j < i ==> Swiped(w', cs[j], owner)
  }

  lemma EmptiedMore(w: World, w': World, w'': World, cs: seq<Collection>, i: nat, owner: Owner)
    requires Emptied(w, w', cs, i, owner) && i < |cs| && Distinct(cs) && SameLimits(w', w'', [cs[i]])
    ensures SameLimits(w, w'', cs)
    ensures Swiped(w'', cs[i], owner) && (forall d :: d != cs[i] && Swiped(w', d, owner) ==> Swiped(w'', d, owner)) ==>
              Emptied(w, w'', cs, i + 1, owner)
  {
    hide Swiped;
    assert forall d :: d !in cs ==> d !in [cs[i]];
  }

  lemma EmptiedAll(w: World, w': World, cs: seq<Collection>, owner: Owner)
    requires Emptied(w, w', cs, |cs|, owner)
    ensures SameLimits(w, w', cs) && forall c :: c in cs ==> Swiped(w', c, owner)
  {
  }

  /** Cleaning organizations changes nothing for accounts but the shared limit. */
  predicate AccountsAside(w: World, w': World) {
    DueAccounts(w') == DueAccounts(w) && SameLimits(w, w', ORG_COLLECTIONS)
  }

  lemma ExhaustedStill(w: World, w': World)
    requires SameLimits(w, w', ORG_COLLECTIONS) && !Exhausted(w, ORG_COLLECTIONS) && Exhausted(w, ACCOUNT_COLLECTIONS)
    ensures Exhausted(w', ACCOUNT_COLLECTIONS)
  {
    var c :| c in ACCOUNT_COLLECTIONS && c in w.limits && w.limits[c] == 0;
    assert c !in ORG_COLLECTIONS;
  }

  predicate Exhausted(w: World, cs: seq<Collection>) { exists c :: c in cs && c in w.limits && w.limits[c] == 0 }

  /** A finished run leaves somebody unclean only if a limit ran out. */
  ghost predicate Finished(w: World) {
    && (DueAccounts(w) == {} || Exhausted(w, ACCOUNT_COLLECTIONS))
    && (DueOrgs(w) == {} || Exhausted(w, ORG_COLLECTIONS))
  }

  /** If a finished run deleted less than its budget from every collection, every deleted
      owner is stamped and none of its rows remain. */
  lemma EverythingCleaned(cfg: Config, w0: World, w: World, owner: Owner)
    requires Steady(cfg, w0, w) && Finished(w)
    requires forall c :: c in ACCOUNT_COLLECTIONS + ORG_COLLECTIONS ==> |RowsOf(w0, c)| - |RowsOf(w, c)| < cfg.budget
    requires Due(w0, owner)
    ensures CleanedAt(w, owner) != 0 && NoneLeft(w, owner)
  {
    hide RowsKept, ArchiveKept, Conserved, RowsOf;
    forall c | c in ACCOUNT_COLLECTIONS + ORG_COLLECTIONS ensures c in w.limits && w.limits[c] != 0 {
      assert Balanced(cfg, w0, w, c);
    }
    assert DueAccounts(w) == {} && DueOrgs(w) == {};
    assert StampKept(w0, w, owner);
    NobodyDue(w, owner);
  }

  lemma NobodyDue(w: World, owner: Owner)
    requires DueAccounts(w) == {} && DueOrgs(w) == {}
    ensures !Due(w, owner)
  {
    match owner
    case ByAccount(a) => assert a in DueAccounts(w) <==> a in w.accounts && Due(w, owner);
    case ByOrg(o) => assert o in DueOrgs(w) <==> o in w.orgs && Due(w, owner);
  }

  /** A spent limit means exactly the budget was deleted. */
  lemma SpentExactly(cfg: Config, w0: World, w: World, c: Collection)
    requires Steady(cfg, w0, w)
    ensures c in w.limits && (w.limits[c] == 0 <==> |RowsOf(w0, c)| - |RowsOf(w, c)| == cfg.budget)
  {
    hide Sound;
    assert Balanced(cfg, w0, w, c);
  }

  /** Fewer owners are due after a stamp, and as many if the deletion stopped short. */
  lemma OwnersLeft(w: World, w': World, owner: Owner, now: int)
    requires Due(w, owner) && now != 0
    ensures Stamps(w, w', owner, now) && owner.ByAccount? ==> |DueAccounts(w')| < |DueAccounts(w)| && !Due(w', owner)
    ensures Stamps(w, w', owner, now) && owner.ByOrg? ==> |DueOrgs(w')| < |DueOrgs(w)|
    ensures SameOwners(w, w') ==> DueAccounts(w') == DueAccounts(w) && DueOrgs(w') == DueOrgs(w)
    ensures Stamps(w, w', owner, now) && owner.ByOrg? ==> DueAccounts(w') == DueAccounts(w)
  {
    StampShrinks(w, owner, now);
    if Stamps(w, w', owner, now) {
      var s := Stamp(w, owner, now);
      assert DueAccounts(w') == DueAccounts(s) && DueOrgs(w') == DueOrgs(s);
      if owner.ByAccount? { Smaller(DueAccounts(s), DueAccounts(w)); } else { Smaller(DueOrgs(s), DueOrgs(w)); }
    }
  }

  lemma {:induction false} Smaller<T>(a: set<T>, b: set<T>)
    requires a < b
    ensures |a| < |b|
  {
    var x :| x in b && x !in a;
    AtMost(a, b - {x});
  }

  lemma {:induction false} AtMost<T>(a: set<T>, b: set<T>)
    requires a <= b
    ensures |a| <= |b|
  {
    if a != {} {
      var x :| x in a;
      AtMost(a - {x}, b - {x});
    }
  }
}
