/** The Mongo cleaner: deletes the rows of deleted cloud accounts and organizations in
    chunks under a budget per collection, archiving raw expenses first. Every external
    call may end the run. */
module Cleaner {
  import opened Wrappers
  import opened CleanerTypes
  import opened CleanerRun

  const FILE_MAX_ROWS: nat := 10000
  const CHUNK_SIZE: nat := 500
  const ROWS_LIMIT: nat := 10000

  datatype Outcome = Done | Died

  /** What the settings of a run may give; an absent branch gives nothing. */
  datatype Settings = Settings(archiveEnable: Option<string>, fileMaxRows: Option<nat>, chunkSize: Option<nat>,
                               rowsLimit: Option<nat>)

  /** Any text enables archiving. */
  function ArchiveEnable(s: Settings): bool { s.archiveEnable.Some? && s.archiveEnable.value != "" }

  function FileMaxRows(s: Settings): nat {
    if s.fileMaxRows.Some? && s.fileMaxRows.value != 0 then s.fileMaxRows.value else FILE_MAX_ROWS
  }

  function RowsLimit(s: Settings): nat { if s.rowsLimit.Some? then s.rowsLimit.value else ROWS_LIMIT }

  function Configured(s: Settings): Config { Config(ArchiveEnable(s), FileMaxRows(s), RowsLimit(s)) }

  // --- a run in the settings' own terms ------------------------------------------------

  function Given(setting: Option<nat>, otherwise: nat): nat { if setting.Some? then setting.value else otherwise }

  /** The row is a deleted account's or one of a deleted organization's accounts', or the
      deleted organization's own, in a collection cleaned for it. */
  predicate Doomed(w: World, c: Collection, r: Row) {
    || (r.account.Some? && r.account.value in w.accounts && w.accounts[r.account.value].org in w.orgs
        && (w.accounts[r.account.value].deleted || w.orgs[w.accounts[r.account.value].org].deleted)
        && (c == RawExpenses || c == Resources))
    || (r.org.Some? && r.org.value in w.orgs && w.orgs[r.org.value].deleted && c != RawExpenses)
  }

  /** Some archive file of the account holds the row. */
  ghost predicate Archived(files: Files, account: string, d: Doc) {
    exists n :: File(account, n) in files && d in files[File(account, n)]
  }

  predicate IsDemo(w: World, a: string) {
    a in w.accounts && w.accounts[a].org in w.orgs && w.orgs[w.accounts[a].org].demo
  }

  /** Wherever a run ends: rows only go, unchanged ones stay, no more than the given number
      from a collection and only those of deleted owners. With any text given to enable
      archiving, every expense row that went is an account's, and in one of that account's
      files unless the account is a demo; and no file holds more rows than given. Without,
      no file is touched. */
  ghost predicate Kept(s: Settings, w0: World, w: World) {
    && (forall c: Collection, id: Id :: id in RowsOf(w, c) ==> id in RowsOf(w0, c) && RowsOf(w, c)[id] == RowsOf(w0, c)[id])
    && (forall c: Collection :: |RowsOf(w0, c)| - |RowsOf(w, c)| <= Given(s.rowsLimit, 10000))
    && (forall c: Collection, id: Id :: id in RowsOf(w0, c) && id !in RowsOf(w, c) ==> Doomed(w0, c, RowsOf(w0, c)[id]))
    && if s.archiveEnable == None || s.archiveEnable == Some("") then w.files == w0.files
       else && (forall id: Id :: id in RowsOf(w0, RawExpenses) && id !in RowsOf(w, RawExpenses) ==>
                  var r := RowsOf(w0, RawExpenses)[id];
                  r.account.Some? && (IsDemo(w0, r.account.value) || Archived(w.files, r.account.value, Doc(id, r))))
            && (forall f :: f in w.files ==>
                  |w.files[f]| <= if s.fileMaxRows == Some(0) then 10000 else Given(s.fileMaxRows, 10000))
  }

  /** When a run goes through and no collection lost as many rows as it might: every deleted
      account, account of a deleted organization, and deleted organization not cleaned
      before is stamped, and nothing of it is left. */
  ghost predicate Cleaned(s: Settings, w0: World, w: World) {
    (forall c: Collection :: |RowsOf(w0, c)| - |RowsOf(w, c)| < Given(s.rowsLimit, 10000)) ==>
      && (forall a :: a in w0.accounts && w0.accounts[a].org in w0.orgs && w0.accounts[a].cleanedAt == 0
                      && (w0.accounts[a].deleted || w0.orgs[w0.accounts[a].org].deleted) ==>
            && a in w.accounts && w.accounts[a].cleanedAt != 0
            && NothingOf(w, [RawExpenses, Resources], Some(a), None))
      && (forall o :: o in w0.orgs && w0.orgs[o].cleanedAt == 0 && w0.orgs[o].deleted ==>
            && o in w.orgs && w.orgs[o].cleanedAt != 0
            && NothingOf(w, [Resources, ArchivedRecommendations, Checklists, WebhookObserver, WebhookLogs, Events], None, Some(o)))
  }

  /** No row in the collections is the account's, or the organization's. */
  predicate NothingOf(w: World, cs: seq<Collection>, account: Option<string>, org: Option<string>) {
    forall c, id :: c in cs && id in RowsOf(w, c) ==>
      (account.Some? ==> RowsOf(w, c)[id].account != account) && (org.Some? ==> RowsOf(w, c)[id].org != org)
  }

  lemma {:induction false} ContentInFiles(files: Files, account: string, k: nat, d: Doc)
    requires d in Content(files, account, k)
    ensures Archived(files, account, d)
  {
    if d in Lines(files, File(account, k)) {
      assert File(account, k) in files;
    } else {
      ContentInFiles(files, account, k - 1, d);
    }
  }

  lemma ShapesBound(w: World, max: nat)
    requires forall a: string :: Shape(w.files, a, max, Last(w, a))
    ensures forall f :: f in w.files ==> |w.files[f]| <= max
  {
    forall f | f in w.files ensures |w.files[f]| <= max {
      assert Shape(w.files, f.account, max, Last(w, f.account));
      assert f == File(f.account, f.number) && Lines(w.files, f) == w.files[f];
    }
  }

  lemma SoundKeeps(s: Settings, w0: World, w: World)
    requires Sound(Configured(s), w0, w)
    ensures Kept(s, w0, w)
  {
    var cfg := Configured(s);
    forall c: Collection
      ensures forall id: Id :: id in RowsOf(w, c) ==> id in RowsOf(w0, c) && RowsOf(w, c)[id] == RowsOf(w0, c)[id]
      ensures |RowsOf(w0, c)| - |RowsOf(w, c)| <= Given(s.rowsLimit, 10000)
      ensures forall id: Id :: id in RowsOf(w0, c) && id !in RowsOf(w, c) ==> Doomed(w0, c, RowsOf(w0, c)[id])
    {
      assert RowsKept(cfg.budget, w0, w, c);
    }
    FilesKept(s, w0, w);
    hide RowsKept, ArchiveKept, Conserved, OwnersKept, Doomed, RowsOf, Archived;
  }

  lemma FilesKept(s: Settings, w0: World, w: World)
    requires Sound(Configured(s), w0, w)
    ensures if s.archiveEnable == None || s.archiveEnable == Some("") then w.files == w0.files
            else && (forall id: Id :: id in RowsOf(w0, RawExpenses) && id !in RowsOf(w, RawExpenses) ==>
                       var r := RowsOf(w0, RawExpenses)[id];
                       r.account.Some? && (IsDemo(w0, r.account.value) || Archived(w.files, r.account.value, Doc(id, r))))
                 && (forall f :: f in w.files ==>
                       |w.files[f]| <= if s.fileMaxRows == Some(0) then 10000 else Given(s.fileMaxRows, 10000))
  {
    var cfg := Configured(s);
    assert ArchiveKept(cfg, w0, w, "");
    if cfg.archive {
      forall a: string ensures Shape(w.files, a, cfg.max, Last(w, a)) { assert ArchiveKept(cfg, w0, w, a); }
      ShapesBound(w, cfg.max);
      forall id: Id | id in RowsOf(w0, RawExpenses) && id !in RowsOf(w, RawExpenses)
        ensures var r := RowsOf(w0, RawExpenses)[id];
                r.account.Some? && (IsDemo(w0, r.account.value) || Archived(w.files, r.account.value, Doc(id, r)))
      {
        var r := RowsOf(w0, RawExpenses)[id];
        assert Conserved(cfg, w0, w, id);
        if !Demo(w0, r.account.value) { ContentInFiles(w.files, r.account.value, Last(w, r.account.value), Doc(id, r)); }
      }
    }
  }

  lemma NoneLeftMeans(w: World, owner: Owner)
    requires NoneLeft(w, owner)
    ensures owner.ByAccount? ==> NothingOf(w, [RawExpenses, Resources], Some(owner.account), None)
    ensures owner.ByOrg? ==>
              NothingOf(w, [Resources, ArchivedRecommendations, Checklists, WebhookObserver, WebhookLogs, Events], None, Some(owner.org))
  {
    forall c, id | Covers(owner, c) && id in RowsOf(w, c) ensures !Owns(owner, RowsOf(w, c)[id]) {
      assert id in Matching(RowsOf(w, c), owner) <==> Owns(owner, RowsOf(w, c)[id]);
    }
  }

  lemma SteadyCleans(s: Settings, w0: World, w: World)
    requires Steady(Configured(s), w0, w) && Finished(w)
    ensures Cleaned(s, w0, w)
  {
    if forall c: Collection :: |RowsOf(w0, c)| - |RowsOf(w, c)| < Given(s.rowsLimit, 10000) {
      forall owner | Due(w0, owner)
        ensures CleanedAt(w, owner) != 0
        ensures owner.ByAccount? ==> NothingOf(w, [RawExpenses, Resources], Some(owner.account), None)
        ensures owner.ByOrg? ==>
                  NothingOf(w, [Resources, ArchivedRecommendations, Checklists, WebhookObserver, WebhookLogs, Events], None, Some(owner.org))
      {
        EverythingCleaned(Configured(s), w0, w, owner);
        NoneLeftMeans(w, owner);
      }
      OwnersCleaned(s, w0, w);
    }
  }

  lemma OwnersCleaned(s: Settings, w0: World, w: World)
    requires forall owner :: Due(w0, owner) ==>
               && CleanedAt(w, owner) != 0
               && (owner.ByAccount? ==> NothingOf(w, [RawExpenses, Resources], Some(owner.account), None))
               && (owner.ByOrg? ==>
                     NothingOf(w, [Resources, ArchivedRecommendations, Checklists, WebhookObserver, WebhookLogs, Events],
                               None, Some(owner.org)))
    ensures Cleaned(s, w0, w)
  {
    hide NothingOf;
    forall a | a in w0.accounts && w0.accounts[a].org in w0.orgs && w0.accounts[a].cleanedAt == 0
               && (w0.accounts[a].deleted || w0.orgs[w0.accounts[a].org].deleted)
      ensures a in w.accounts && w.accounts[a].cleanedAt != 0 && NothingOf(w, [RawExpenses, Resources], Some(a), None)
    {
      assert Due(w0, ByAccount(a));
    }
    forall o | o in w0.orgs && w0.orgs[o].cleanedAt == 0 && w0.orgs[o].deleted
      ensures && o in w.orgs && w.orgs[o].cleanedAt != 0
              && NothingOf(w, [Resources, ArchivedRecommendations, Checklists, WebhookObserver, WebhookLogs, Events], None, Some(o))
    {
      assert Due(w0, ByOrg(o));
    }
  }

  class CleanMongoDB {
    var archiveEnable: bool
    var fileMaxRows: nat
    var chunkSize: nat
    var limits: map<Collection, nat>
    var db: map<Collection, Rows>
    var files: Files
    var accounts: map<string, AccountRow>
    var orgs: map<string, OrgRow>
    var calls: nat
    ghost var last: map<string, nat>
    const diesAt: nat
    const now: int

    ghost predicate Settled()
      reads this`fileMaxRows, this`chunkSize, this`limits, this`db
    {
      && fileMaxRows > 0 && now > 0
      && (forall c :: c in limits && c in db)
    }

    ghost function View(): World
      reads this`db, this`files, this`last, this`limits, this`accounts, this`orgs
    {
      World(db, files, last, limits, accounts, orgs)
    }

    ghost function Cfg(budget: nat): Config
      reads this`archiveEnable, this`fileMaxRows
    {
      Config(archiveEnable, fileMaxRows, budget)
    }

    ghost predicate Soundly(w0: World, budget: nat)
      reads this
    {
      Settled() && Sound(Cfg(budget), w0, View())
    }

    ghost predicate Steadily(w0: World, budget: nat)
      reads this
    {
      Settled() && Steady(Cfg(budget), w0, View()) && Sound(Cfg(budget), w0, View())
    }

    ghost predicate AccountGiven(r: Option<string>, isDemo: bool)
      reads this`db, this`files, this`last, this`limits, this`accounts, this`orgs
    {
      if r.Some? then Due(View(), ByAccount(r.value)) && isDemo == Demo(View(), r.value) else DueAccounts(View()) == {}
    }

    ghost predicate OrgGiven(r: Option<string>)
      reads this`db, this`files, this`last, this`limits, this`accounts, this`orgs
    {
      if r.Some? then Due(View(), ByOrg(r.value)) else DueOrgs(View()) == {}
    }

    /** An external call; the run may end here. */
    method Call() returns (o: Outcome)
      modifies this`calls
      ensures o.Died? <==> old(calls) == diesAt
      ensures calls == old(calls) + if o.Done? then 1 else 0
    {
      if calls == diesAt { return Died; }
      calls := calls + 1;
      return Done;
    }

    /** find(filter).limit(n): that many matching ids, or all of them, in any order. */
    method FindIds(c: Collection, owner: Owner, n: nat) returns (ids: seq<Id>)
      requires Settled()
      ensures Found(db[c], owner, n, ids)
    {
      ids := [];
      var left := Matching(db[c], owner);
      while |ids| < n && left != {}
        invariant |ids| <= n && Distinct(ids) && Known(db[c], ids)
        invariant left <= Matching(db[c], owner)
        invariant forall id :: id in ids <==> id in Matching(db[c], owner) && id !in left
        invariant |left| + |ids| == |Matching(db[c], owner)|
        decreases left
      {
        var id :| id in left;
        left := left - {id};
        ids := ids + [id];
      }
      if |ids| < n {
        assert forall id :: id in Ids(ids) <==> id in Matching(db[c], owner);
      }
    }

    /** find({_id in ids}): the rows in any order. */
    method FetchDocs(c: Collection, ids: seq<Id>) returns (docs: seq<Doc>)
      requires Settled() && Known(db[c], ids)
      ensures |docs| == |ids| && multiset(docs) == multiset(DocsOf(db[c], ids))
    {
      docs := DocsOf(db[c], ids);
    }

    /** The archive file with the highest number, or the first one. */
    method GetArchiveFile(account: string, ghost k: nat) returns (last: nat)
      requires Shape(files, account, fileMaxRows, k)
      ensures last == if k == 0 then 1 else k
    {
      last := 1;
      var left := files.Keys;
      while left != {}
        invariant left <= files.Keys
        invariant 1 <= last && (last == 1 || File(account, last) in files)
        invariant forall n :: File(account, n) in files && File(account, n) !in left ==> n <= last
        decreases left
      {
        var f :| f in left;
        left := left - {f};
        if f.account == account && f.number > last { last := f.number; }
      }
      if k > 0 { assert File(account, k) in files; }
    }

    method SplitChunkByFiles(chunk: seq<Id>, available: int, first: nat, max: nat) returns (pieces: seq<Piece>)
      requires max > 0
      ensures Split(pieces, chunk, if available < 0 then 0 else available, first, max)
    {
      var room := if available < 0 then 0 else available;
      var i := if room <= |chunk| then room else |chunk|;
      pieces := [Piece(first, 0, chunk[..i])];
      while i < |chunk|
        invariant 0 <= i <= |chunk| && Split(pieces, chunk[..i], room, first, max)
        invariant i < |chunk| ==> |pieces[0].ids| == room && (|pieces| > 1 ==> |pieces[|pieces| - 1].ids| == max)
      {
        var next := if i + max <= |chunk| then i + max else |chunk|;
        SplitMore(pieces, chunk, i, next, room, first, max);
        pieces := pieces + [Piece(first + |pieces|, i, chunk[i..next])];
        i := next;
      }
      assert chunk[..|chunk|] == chunk;
    }

    /** Opens the file for appending and writes the rows; a run that ends meanwhile has
        written some of them. */
    method Append(f: File, docs: seq<Doc>) returns (o: Outcome, ghost written: seq<Doc>)
      modifies this`calls, this`files
      ensures o.Died? ==> calls == diesAt || chunkSize == 0
      ensures written <= docs && (o.Done? ==> written == docs)
      ensures files == old(files)[f := Lines(old(files), f) + written]
    {
      o := Call();
      var n: nat := |docs|;
      if o.Died? { n :| 0 <= n <= |docs|; }
      files := files[f := Lines(files, f) + docs[..n]];
      return o, docs[..n];
    }

    /** Saves one piece of a chunk to the given file of the account. */
    method ArchivePiece(c: Collection, account: string, n: nat, ids: seq<Id>, ghost now: Archive)
        returns (o: Outcome, ghost next: Archive, ghost written: seq<Doc>)
      requires Settled() && now.files == files && Shape(files, account, fileMaxRows, now.last) && Known(db[c], ids)
      requires Fits(now, account, fileMaxRows, n, |ids|)
      modifies this`calls, this`files
      ensures o.Died? ==> calls == diesAt || chunkSize == 0
      ensures next.files == files && Extended(now, next, account, fileMaxRows, written)
      ensures o.Done? ==> next.last == n && multiset(written) == multiset(DocsOf(db[c], ids))
      ensures o.Done? ==> |Lines(files, File(account, n))| == Held(now, account, n) + |ids|
    {
      ExtendedByNothing(now, account, fileMaxRows);
      next, written := now, [];
      o := Call();
      if o.Died? { return; }
      var docs := FetchDocs(c, ids);
      hide *;
      o, written := Append(File(account, n), docs);
      next := Archive(files, n);
      PartExtends(now, account, fileMaxRows, n, docs, written);
    }

    /** One round of saving the pieces of a chunk. */
    method SavePiece(c: Collection, piece: Piece, account: string, ghost job: Job, ghost i: nat, ghost now: Archive,
                     ghost added: seq<Doc>)
        returns (o: Outcome, ghost next: Archive, ghost added': seq<Doc>)
      requires Settled() && now.files == files && i < |job.pieces| && piece == job.pieces[i] && job.Saved(i, now, added)
      requires job.account == account && job.max == fileMaxRows && job.rows == db[c]
      modifies this`calls, this`files
      ensures o.Died? ==> calls == diesAt || chunkSize == 0
      ensures next.files == files && Extended(job.start, next, account, fileMaxRows, added')
      ensures o.Done? ==> job.Saved(i + 1, next, added')
    {
      hide *;
      job.Ready(i, now, added);
      ghost var written;
      o, next, written := ArchivePiece(c, account, piece.number, piece.ids, now);
      job.AfterPiece(i, now, next, added, written);
      added' := added + written;
    }

    method SavePieces(c: Collection, pieces: seq<Piece>, account: string, ghost job: Job)
        returns (o: Outcome, ghost now: Archive, ghost added: seq<Doc>)
      requires Settled() && Shape(files, account, fileMaxRows, job.start.last) && job.Planned()
      requires job.start.files == files && job.account == account && job.max == fileMaxRows
      requires job.rows == db[c] && job.pieces == pieces
      modifies this`calls, this`files
      ensures o.Died? ==> calls == diesAt || chunkSize == 0
      ensures now.files == files && Extended(job.start, now, account, fileMaxRows, added)
      ensures o.Done? ==> multiset(added) == multiset(DocsOf(job.rows, job.chunk))
    {
      now, added := job.start, [];
      job.Starts();
      hide *;
      for i := 0 to |pieces|
        invariant Settled() && now.files == files && job.Saved(i, now, added)
      {
        o, now, added := SavePiece(c, pieces[i], account, job, i, now, added);
        if o.Died? { return; }
      }
      job.Finished(now, added);
      return Done, now, added;
    }

    /** Archives one chunk. The archive's content grows at its end by rows of the
        chunk, and by exactly the chunk's rows when the run does not end here. */
    method ArchiveChunk(c: Collection, account: string, chunk: seq<Id>, ghost k: nat)
        returns (o: Outcome, ghost k': nat, ghost added: seq<Doc>)
      requires Settled() && Shape(files, account, fileMaxRows, k) && Known(db[c], chunk)
      modifies this`calls, this`files
      ensures o.Died? ==> calls == diesAt || chunkSize == 0
      ensures Extended(Archive(old(files), k), Archive(files, k'), account, fileMaxRows, added)
      ensures o.Done? ==> multiset(added) == multiset(DocsOf(db[c], chunk))
    {
      var last := GetArchiveFile(account, k);
      var available := fileMaxRows - |Lines(files, File(account, last))|;
      LastHasRoom(files, account, fileMaxRows, k);
      var pieces := SplitChunkByFiles(chunk, available, last, fileMaxRows);
      hide Extended, Shape, DocsOf, Split;
      ghost var job := Job(Archive(files, k), account, fileMaxRows, db[c], chunk, pieces);
      ghost var now;
      o, now, added := SavePieces(c, pieces, account, job);
      k' := now.last;
    }

    /** delete_many({_id in ids}); a run that ends meanwhile has deleted some of them. */
    method DeleteMany(c: Collection, ids: seq<Id>) returns (o: Outcome, ghost some: set<Id>)
      requires c in db
      modifies this`calls, this`db
      ensures o.Died? ==> calls == diesAt || chunkSize == 0
      ensures some <= Ids(ids) && (o.Done? ==> some == Ids(ids))
      ensures db == old(db)[c := old(db)[c] - some]
    {
      o := Call();
      var all := Ids(ids);
      if o.Died? {
        var part: set<Id> :| part <= all;
        db := db[c := db[c] - part];
        return o, part;
      }
      db := db[c := db[c] - all];
      return o, all;
    }

    /** Archives a chunk if it must be, then deletes it. */
    method ArchiveAndDelete(c: Collection, chunk: seq<Id>, archive: bool, account: string, ghost k: nat)
        returns (o: Outcome, ghost some: set<Id>, ghost k': nat, ghost more: seq<Doc>)
      requires Settled() && Known(db[c], chunk) && (archive ==> Shape(files, account, fileMaxRows, k))
      modifies this`calls, this`files, this`db
      ensures o.Died? ==> calls == diesAt || chunkSize == 0
      ensures some <= Ids(chunk) && db == old(db)[c := old(db)[c] - some] && Settled()
      ensures if archive then Extended(Archive(old(files), k), Archive(files, k'), account, fileMaxRows, more)
              else files == old(files) && k' == k && more == []
      ensures o.Done? ==> some == Ids(chunk)
      ensures archive && (o.Done? || some != {}) ==> multiset(more) == multiset(DocsOf(old(db)[c], chunk))
    {
      some, k', more := {}, k, [];
      assert db[c] - {} == db[c] && db[c := db[c]] == db;
      if archive {
        o, k', more := ArchiveChunk(c, account, chunk, k);
        if o.Died? { return; }
      }
      hide Extended, DocsOf, Known, Shape;
      o, some := DeleteMany(c, chunk);
    }

    /** How far the deletion of some rows of a collection got. */
    ghost predicate Swept(c: Collection, sweep: Sweep, gone: set<Id>, db0: map<Collection, Rows>, now: Archive)
      reads this`files, this`db
    {
      now.files == files && db == db0[c := sweep.rows - gone]
    }

    /** One chunk of a deletion. */
    method DeleteChunk(c: Collection, ids: seq<Id>, j: nat, next: nat, archive: bool, account: string,
                       ghost sweep: Sweep, ghost db0: map<Collection, Rows>, ghost now: Archive, ghost added: seq<Doc>)
        returns (o: Outcome, ghost gone: set<Id>, ghost later: Archive, ghost added': seq<Doc>)
      requires Settled() && j <= next <= |ids| && sweep.ids == ids
      requires sweep.Through(j, now, added) && Swept(c, sweep, Ids(ids[..j]), db0, now)
      requires sweep.archive == archive && sweep.account == account && sweep.max == fileMaxRows
      modifies this`calls, this`files, this`db
      ensures o.Died? ==> calls == diesAt || chunkSize == 0
      ensures Settled() && Swept(c, sweep, gone, db0, later) && sweep.Safe(gone, later, added')
      ensures o.Done? ==> gone == Ids(ids[..next]) && sweep.Through(next, later, added')
    {
      sweep.NextChunk(j, next, now, added);
      ghost var before := Ids(ids[..j]);
      assert db[c] == sweep.rows - before;
      hide Ids, Known, DocsOf, Settled, Extended, Sweep.Through, Sweep.Safe, Shape;
      ghost var k', more, some;
      o, some, k', more := ArchiveAndDelete(c, ids[j..next], archive, account, now.last);
      later, added', gone := Archive(files, k'), added + more, before + some;
      RemovedTwice(db0, c, sweep.rows, before, some);
      sweep.AfterChunk(j, next, now, later, added, more, some);
    }

    /** Deletes the rows with the given ids chunk by chunk. */
    method DeleteChunks(c: Collection, ids: seq<Id>, archive: bool, account: string, ghost sweep: Sweep, ghost owner: Owner)
        returns (o: Outcome, ghost x: Deletion)
      requires Settled() && chunkSize > 0 && sweep.Through(0, sweep.start, [])
      requires sweep.ids == ids && sweep.rows == db[c] && sweep.start.files == files
      requires sweep.archive == archive && sweep.account == account && sweep.max == fileMaxRows
      modifies this`calls, this`files, this`db
      ensures o.Died? ==> calls == diesAt || chunkSize == 0
      ensures Settled() && x.c == c && x.owner == owner && x.sweep == sweep
      ensures files == x.now.files && db == old(db)[c := old(db)[c] - x.gone]
      ensures x.sweep.Safe(x.gone, x.now, x.added)
      ensures o.Done? ==> sweep.Through(|ids|, x.now, x.added) && x.gone == Ids(ids)
    {
      ghost var now, added, gone := sweep.start, [], {};
      var j := 0;
      NoneSwept(c, sweep, db);
      hide Ids, Settled, Sweep.Through, Sweep.Safe, Known;
      while j < |ids|
        invariant 0 <= j <= |ids| && gone == Ids(ids[..j]) && Settled()
        invariant sweep.Through(j, now, added) && Swept(c, sweep, gone, old(db), now)
      {
        var next := if j + chunkSize <= |ids| then j + chunkSize else |ids|;
        o, gone, now, added := DeleteChunk(c, ids, j, next, archive, account, sweep, old(db), now, added);
        if o.Died? { return o, Deletion(c, owner, sweep, gone, now, added); }
        j := next;
      }
      SweepSafe(sweep, now, added);
      assert ids[..j] == ids;
      return Done, Deletion(c, owner, sweep, gone, now, added);
    }

    /** Deletes the rows found for an owner. */
    method DeleteFound(c: Collection, ids: seq<Id>, limit: nat, archive: bool, account: string, ghost owner: Owner)
        returns (o: Outcome, rest: nat, ghost x: Deletion)
      requires Settled() && (archive ==> Shape(files, account, fileMaxRows, Last(View(), account)))
      requires chunkSize > 0 && limit == limits[c] && Found(db[c], owner, limit, ids)
      modifies this`calls, this`files, this`db, this`last
      ensures o.Died? ==> calls == diesAt || chunkSize == 0
      ensures Settled() && x.c == c && x.owner == owner && x.sweep.account == account && x.sweep.archive == archive
      ensures Changes(old(View()), View(), fileMaxRows, x)
      ensures o.Done? ==> Completes(old(View()), x, rest)
    {
      ghost var w := View();
      ghost var sweep := Sweep(db[c], ids, Archive(files, Last(w, account)), account, fileMaxRows, archive);
      sweep.Starts();
      assert c in w.db && c in w.limits && |ids| <= limit;
      hide Sweep.Safe, Sweep.Through, Changes, Completes, Settled, Shape, Found, Ids, Matching, Known, Last, Distinct;
      o, x := DeleteChunks(c, ids, archive, account, sweep, owner);
      last := last[account := x.now.last];
      rest := limit - |ids|;
      ChangesMade(w, View(), x, limit, o.Done?, rest);
    }

    /** Deletes rows of the owner as long as the collection's limit lasts, and returns
        what is left of the limit. */
    method DeleteInChunks(c: Collection, owner: Owner, archive: bool, account: string)
        returns (o: Outcome, rest: nat, ghost x: Deletion)
      requires Settled() && (archive ==> Shape(files, account, fileMaxRows, Last(View(), account)))
      modifies this`calls, this`files, this`db, this`last
      ensures o.Died? ==> calls == diesAt || chunkSize == 0
      ensures Settled() && x.c == c && x.owner == owner && x.sweep.account == account && x.sweep.archive == archive
      ensures Changes(old(View()), View(), fileMaxRows, x)
      ensures o.Done? ==> Completes(old(View()), x, rest)
    {
      var limit := if c in limits then limits[c] else 0;
      x := Nothing(View(), c, owner, archive, account, fileMaxRows);
      o, rest := Done, 0;
      if limit == 0 {
        last := last[account := x.now.last];
        return;
      }
      o := Call();
      if o.Died? {
        last := last[account := x.now.last];
        return;
      }
      var ids := FindIds(c, owner, limit);
      // range() refuses a step of zero
      if chunkSize == 0 {
        last := last[account := x.now.last];
        return Died, 0, x;
      }
      hide *;
      o, rest, x := DeleteFound(c, ids, limit, archive, account, owner);
    }

    /** A deletion as a step of the run. */
    method DeleteStep(c: Collection, owner: Owner, archive: bool, account: string, ghost w0: World, ghost budget: nat)
        returns (o: Outcome, rest: nat)
      requires Settled() && Steady(Cfg(budget), w0, View()) && May(Cfg(budget), w0, c, owner, archive, account)
      modifies this`calls, this`files, this`db, this`last
      ensures o.Died? ==> calls == diesAt || chunkSize == 0
      ensures Settled() && Stepped(Cfg(budget), w0, old(View()), View(), c, owner, o.Done?, rest)
      ensures View().limits == old(View()).limits
    {
      ghost var w := View();
      RunningHas(Cfg(budget), w0, w, account);
      assert archive ==> archiveEnable;
      hide Shape, May, Steady, Last, Settled, Stepped, Changes, Completes;
      ghost var x;
      o, rest, x := DeleteInChunks(c, owner, archive, account);
      StepMade(Cfg(budget), w0, w, View(), x, o.Done?, rest);
    }

    /** Deletes rows of the owner from a collection and records what is left of its
        limit. */
    method DeleteFrom(c: Collection, owner: Owner, archive: bool, account: string, ghost w0: World, ghost budget: nat)
        returns (o: Outcome)
      requires Settled() && Steady(Cfg(budget), w0, View()) && May(Cfg(budget), w0, c, owner, archive, account)
      modifies this`calls, this`files, this`db, this`limits, this`last
      ensures o.Died? ==> calls == diesAt || chunkSize == 0
      ensures Settled() && Sound(Cfg(budget), w0, View())
      ensures o.Done? ==> Steady(Cfg(budget), w0, View()) && Swiped(View(), c, owner)
      ensures o.Done? ==> forall d :: d != c && Swiped(old(View()), d, owner) ==> Swiped(View(), d, owner)
      ensures SameLimits(old(View()), View(), [c])
    {
      ghost var w := View();
      hide *;
      var rest;
      o, rest := DeleteStep(c, owner, archive, account, w0, budget);
      ghost var w' := View();
      AfterStepped(Cfg(budget), w0, w, w', c, owner, o.Done?, rest);
      Charge(c, rest, o.Done?);
      OnlyLimit(w, w', View(), c);
    }

    method Charge(c: Collection, rest: nat, done: bool)
      requires Settled()
      modifies this`limits
      ensures Settled() && View() == if done then old(View()).(limits := old(View()).limits[c := rest]) else old(View())
      ensures SameLimits(old(View()), View(), [c])
    {
      if done { limits := limits[c := rest]; }
    }

    /** UPDATE … SET cleaned_at: the stamp of the owner. */
    method UpdateCleanedAt(owner: Owner, ghost w0: World, ghost budget: nat) returns (o: Outcome)
      requires Steady(Cfg(budget), w0, View()) && Due(View(), owner) && NoneLeft(View(), owner)
      modifies this`calls, this`accounts, this`orgs
      ensures o.Died? ==> calls == diesAt || chunkSize == 0
      ensures Steady(Cfg(budget), w0, View()) && Sound(Cfg(budget), w0, View())
      ensures View() == if o.Done? then Stamp(old(View()), owner, now) else old(View())
    {
      hide Sound;
      o := Call();
      if o.Died? { return; }
      DueFromStart(Cfg(budget), w0, View(), owner);
      StampKeeps(Cfg(budget), w0, View(), owner, now);
      match owner
      case ByAccount(a) => accounts := accounts[a := accounts[a].(cleanedAt := now)];
      case ByOrg(g) => orgs := orgs[g := orgs[g].(cleanedAt := now)];
    }

    predicate LimitsLast(cs: seq<Collection>)
      reads this`limits
    {
      forall c :: c in cs ==> c in limits && limits[c] > 0
    }

    /** Deletes an owner's rows from the collections that hold them, one after the other. */
    method DeleteFromAll(owner: Owner, cs: seq<Collection>, archive: bool, ghost w0: World, ghost budget: nat)
        returns (o: Outcome)
      requires Settled() && Steady(Cfg(budget), w0, View()) && Due(View(), owner)
      requires Distinct(cs) && forall c :: c in cs ==> Covers(owner, c)
      requires owner.ByAccount? ==> (archive <==> archiveEnable && !Demo(View(), owner.account))
      modifies this`calls, this`files, this`db, this`limits, this`last
      ensures o.Died? ==> calls == diesAt || chunkSize == 0
      ensures Settled() && Sound(Cfg(budget), w0, View())
      ensures o.Done? ==> Steady(Cfg(budget), w0, View()) && forall c :: c in cs ==> Swiped(View(), c, owner)
      ensures SameLimits(old(View()), View(), cs)
    {
      var account := if owner.ByAccount? then owner.account else "";
      ghost var cfg, w := Cfg(budget), View();
      DueFromStart(cfg, w0, w, owner);
      MayDelete(cfg, w0, w, owner, archive, account);
      SteadySound(cfg, w0, w);
      assert Emptied(w, w, cs, 0, owner);
      hide *;
      for i := 0 to |cs|
        invariant Settled() && Steady(cfg, w0, View()) && Sound(cfg, w0, View())
        invariant Emptied(w, View(), cs, i, owner)
      {
        assert cs[i] in cs && Covers(owner, cs[i]);
        ghost var before := View();
        o := DeleteFrom(cs[i], owner, archive && cs[i] == RawExpenses, account, w0, budget);
        EmptiedMore(w, before, View(), cs, i, owner);
        if o.Died? { return; }
      }
      EmptiedAll(w, View(), cs, owner);
      return Done;
    }

    /** Deletes an owner's rows and stamps the owner if no limit ran out. */
    method DeleteByOwner(owner: Owner, cs: seq<Collection>, archive: bool, ghost w0: World, ghost budget: nat)
        returns (o: Outcome)
      requires Settled() && Steady(Cfg(budget), w0, View()) && Due(View(), owner)
      requires Distinct(cs) && forall c :: c in cs <==> Covers(owner, c)
      requires owner.ByAccount? ==> (archive <==> archiveEnable && !Demo(View(), owner.account))
      modifies this`calls, this`files, this`db, this`limits, this`last, this`accounts, this`orgs
      ensures o.Died? ==> calls == diesAt || chunkSize == 0
      ensures Settled() && Sound(Cfg(budget), w0, View())
      ensures o.Done? ==> Steady(Cfg(budget), w0, View())
      ensures o.Done? ==> if LimitsLast(cs) then Stamps(old(View()), View(), owner, now) else SameOwners(old(View()), View())
      ensures SameLimits(old(View()), View(), cs)
    {
      ghost var w := View();
      hide Sound, OnBudget, Steady, Swiped, Due, Demo, Covers;
      o := DeleteFromAll(owner, cs, archive, w0, budget);
      if o.Done? && LimitsLast(cs) {
        AllSwiped(View(), cs, owner);
        DueStill(w, View(), owner);
        ghost var w1 := View();
        o := UpdateCleanedAt(owner, w0, budget);
        StampsMade(w, w1, owner, now);
      }
    }

    /** An account that is deleted, or whose organization is, and not yet cleaned. */
    method GetDeletedCloudAccount() returns (o: Outcome, r: Option<string>, isDemo: bool)
      modifies this`calls
      ensures o.Died? ==> calls == diesAt || chunkSize == 0
      ensures r.Some? ==> isDemo == Demo(View(), r.value)
      ensures o.Done? ==> if r.Some? then Due(View(), ByAccount(r.value)) else DueAccounts(View()) == {}
    {
      r, isDemo := None, false;
      o := Call();
      if o.Died? { return; }
      var due := set a | a in accounts && accounts[a].org in orgs
                         && (orgs[accounts[a].org].deleted || accounts[a].deleted) && accounts[a].cleanedAt == 0;
      assert due == DueAccounts(View());
      if due != {} {
        var a :| a in due;
        r, isDemo := Some(a), orgs[accounts[a].org].demo;
      }
    }

    method GetDeletedOrganization() returns (o: Outcome, r: Option<string>)
      modifies this`calls
      ensures o.Died? ==> calls == diesAt || chunkSize == 0
      ensures o.Done? ==> if r.Some? then Due(View(), ByOrg(r.value)) else DueOrgs(View()) == {}
    {
      r := None;
      o := Call();
      if o.Died? { return; }
      var due := set g | g in orgs && orgs[g].deleted && orgs[g].cleanedAt == 0;
      assert due == DueOrgs(View());
      if due != {} {
        var g :| g in due;
        r := Some(g);
      }
    }

    /** One account's share of a run: it gets its stamp, or a limit runs out. */
    method DeleteAccount(account: string, isDemo: bool, ghost w0: World, ghost budget: nat) returns (o: Outcome)
      requires Settled() && Steady(Cfg(budget), w0, View())
      requires Due(View(), ByAccount(account)) && isDemo == Demo(View(), account)
      modifies this`calls, this`files, this`db, this`limits, this`last, this`accounts, this`orgs
      ensures o.Died? ==> calls == diesAt || chunkSize == 0
      ensures Settled() && Sound(Cfg(budget), w0, View())
      ensures o.Done? ==> Steady(Cfg(budget), w0, View())
      ensures o.Done? && LimitsLast(ACCOUNT_COLLECTIONS) ==>
                |DueAccounts(View())| < |old(DueAccounts(View()))| && !Due(View(), ByAccount(account))
      ensures o.Done? && !LimitsLast(ACCOUNT_COLLECTIONS) ==> DueAccounts(View()) == old(DueAccounts(View()))
    {
      ghost var w := View();
      var owner := ByAccount(account);
      assert forall c :: c in ACCOUNT_COLLECTIONS <==> Covers(owner, c);
      hide Sound, Steady, Demo, DueAccounts, Due, Covers, Stamps, SameOwners, Settled;
      o := DeleteByOwner(owner, ACCOUNT_COLLECTIONS, archiveEnable && !isDemo, w0, budget);
      OwnersLeft(w, View(), owner, now);
    }

    /** Cleans an account and looks for the next one. */
    method NextAccount(account: string, isDemo: bool, ghost w0: World, ghost budget: nat)
        returns (o: Outcome, next: Option<string>, isDemo': bool)
      requires Steadily(w0, budget) && AccountGiven(Some(account), isDemo)
      modifies this`calls, this`files, this`db, this`limits, this`last, this`accounts, this`orgs
      ensures o.Died? ==> calls == diesAt || chunkSize == 0
      ensures if o.Done? then Steadily(w0, budget) else Soundly(w0, budget)
      ensures o.Done? ==> AccountGiven(next, isDemo')
      ensures o.Done? && LimitsLast(ACCOUNT_COLLECTIONS) ==> |DueAccounts(View())| < |old(DueAccounts(View()))| && next != Some(account)
      ensures o.Done? && !LimitsLast(ACCOUNT_COLLECTIONS) ==> DueAccounts(View()) == old(DueAccounts(View()))
    {
      hide Sound, Steady, Demo, DueAccounts, Due, Settled, LimitsLast;
      next, isDemo' := None, false;
      o := DeleteAccount(account, isDemo, w0, budget);
      if o.Done? { o, next, isDemo' := GetDeletedCloudAccount(); }
    }

    /** Cleans deleted accounts one after the other, until none is left or a limit runs
        out. Each round stamps an account or exhausts a limit. */
    method DeleteByCloudAccount(ghost w0: World, ghost budget: nat) returns (o: Outcome)
      requires Steadily(w0, budget)
      modifies this`calls, this`files, this`db, this`limits, this`last, this`accounts, this`orgs
      ensures o.Died? ==> calls == diesAt || chunkSize == 0
      ensures if o.Done? then Steadily(w0, budget) else Soundly(w0, budget)
      ensures o.Done? ==> DueAccounts(View()) == {} || Exhausted(View(), ACCOUNT_COLLECTIONS)
    {
      var account, isDemo;
      o, account, isDemo := GetDeletedCloudAccount();
      if o.Died? { return; }
      hide Steadily, Soundly, LimitsLast, DueAccounts, Exhausted;
      while account.Some? && LimitsLast(ACCOUNT_COLLECTIONS)
        invariant o.Done? && Steadily(w0, budget) && AccountGiven(account, isDemo)
        decreases |DueAccounts(View())|, LimitsLast(ACCOUNT_COLLECTIONS)
      {
        var cleaned := account.value;
        o, account, isDemo := NextAccount(cleaned, isDemo, w0, budget);
        if o.Died? { return; }
        // not stamped, so left for the next run
        if account == Some(cleaned) { break; }
      }
      LimitsKnown(w0, budget);
      if account.None? { NoAccountGiven(isDemo); } else { SomeExhausted(ACCOUNT_COLLECTIONS); }
    }

    ghost predicate AccountsBefore(w: World)
      reads this
    {
      && DueAccounts(View()) == DueAccounts(w)
      && (Exhausted(w, ACCOUNT_COLLECTIONS) ==> Exhausted(View(), ACCOUNT_COLLECTIONS))
    }

    lemma NoAccountGiven(isDemo: bool)
      requires AccountGiven(None, isDemo)
      ensures DueAccounts(View()) == {}
    {
    }

    lemma NoneGiven()
      requires OrgGiven(None)
      ensures DueOrgs(View()) == {}
    {
    }

    lemma LimitsKnown(w0: World, budget: nat)
      requires Steadily(w0, budget)
      ensures forall c: Collection :: c in limits
    {
    }

    lemma NotExhausted(cs: seq<Collection>)
      requires LimitsLast(cs)
      ensures !Exhausted(View(), cs)
    {
    }

    lemma SomeExhausted(cs: seq<Collection>)
      requires !LimitsLast(cs) && forall c: Collection :: c in limits
      ensures Exhausted(View(), cs)
    {
    }

    /** One organization's share of a run: it gets its stamp, or a limit runs out. */
    method DeleteOrganization(org: string, ghost w0: World, ghost budget: nat) returns (o: Outcome)
      requires Settled() && Steady(Cfg(budget), w0, View()) && Due(View(), ByOrg(org))
      modifies this`calls, this`files, this`db, this`limits, this`last, this`accounts, this`orgs
      ensures o.Died? ==> calls == diesAt || chunkSize == 0
      ensures if o.Done? then Steadily(w0, budget) else Soundly(w0, budget)
      ensures o.Done? && LimitsLast(ORG_COLLECTIONS) ==> |DueOrgs(View())| < |old(DueOrgs(View()))|
      ensures o.Done? && !LimitsLast(ORG_COLLECTIONS) ==> DueOrgs(View()) == old(DueOrgs(View()))
      ensures o.Done? ==> AccountsAside(old(View()), View())
    {
      ghost var w := View();
      var owner := ByOrg(org);
      assert forall c :: c in ORG_COLLECTIONS <==> Covers(owner, c);
      hide Sound, Steady, Demo, DueOrgs, Due, Covers, Stamps, SameOwners, Settled;
      o := DeleteByOwner(owner, ORG_COLLECTIONS, false, w0, budget);
      OwnersLeft(w, View(), owner, now);
    }

    /** Cleans an organization and looks for the next one. */
    method NextOrganization(org: string, ghost w0: World, ghost budget: nat) returns (o: Outcome, next: Option<string>)
      requires Steadily(w0, budget) && OrgGiven(Some(org))
      modifies this`calls, this`files, this`db, this`limits, this`last, this`accounts, this`orgs
      ensures o.Died? ==> calls == diesAt || chunkSize == 0
      ensures if o.Done? then Steadily(w0, budget) else Soundly(w0, budget)
      ensures o.Done? ==> OrgGiven(next)
      ensures o.Done? && LimitsLast(ORG_COLLECTIONS) ==> |DueOrgs(View())| < |old(DueOrgs(View()))|
      ensures o.Done? && !LimitsLast(ORG_COLLECTIONS) ==> DueOrgs(View()) == old(DueOrgs(View()))
      ensures o.Done? ==> AccountsAside(old(View()), View())
    {
      hide Sound, Steady, Demo, DueOrgs, Due, Settled, LimitsLast;
      next := None;
      o := DeleteOrganization(org, w0, budget);
      if o.Done? { o, next := GetDeletedOrganization(); }
    }

    /** Cleans deleted organizations one after the other, until none is left or a limit
        runs out. */
    method DeleteByOrganization(ghost w0: World, ghost budget: nat) returns (o: Outcome)
      requires Steadily(w0, budget)
      modifies this`calls, this`files, this`db, this`limits, this`last, this`accounts, this`orgs
      ensures o.Died? ==> calls == diesAt || chunkSize == 0
      ensures if o.Done? then Steadily(w0, budget) else Soundly(w0, budget)
      ensures o.Done? ==> DueOrgs(View()) == {} || Exhausted(View(), ORG_COLLECTIONS)
      ensures o.Done? ==> DueAccounts(View()) == old(DueAccounts(View()))
      ensures o.Done? && Exhausted(old(View()), ACCOUNT_COLLECTIONS) ==> Exhausted(View(), ACCOUNT_COLLECTIONS)
    {
      var info;
      o, info := GetDeletedOrganization();
      if o.Died? { return; }
      ghost var w := View();
      hide Steadily, Soundly, LimitsLast, DueOrgs, DueAccounts, OrgGiven, Exhausted, SameLimits;
      while info.Some? && LimitsLast(ORG_COLLECTIONS)
        invariant o.Done? && Steadily(w0, budget) && OrgGiven(info)
        invariant AccountsBefore(w)
        decreases |DueOrgs(View())|, LimitsLast(ORG_COLLECTIONS)
      {
        ghost var before := View();
        NotExhausted(ORG_COLLECTIONS);
        o, info := NextOrganization(info.value, w0, budget);
        if o.Died? { return; }
        if Exhausted(before, ACCOUNT_COLLECTIONS) { ExhaustedStill(before, View()); }
      }
      LimitsKnown(w0, budget);
      if info.None? { NoneGiven(); } else { SomeExhausted(ORG_COLLECTIONS); }
    }

    method SetLimits(rowsLimit: nat)
      modifies this`limits
      ensures limits.Keys == old(limits).Keys && forall c :: c in limits ==> limits[c] == rowsLimit
    {
      var left := limits.Keys;
      while left != {}
        invariant left <= limits.Keys && limits.Keys == old(limits).Keys
        invariant forall c :: c in limits && c !in left ==> limits[c] == rowsLimit
        decreases left
      {
        var c :| c in left;
        left := left - {c};
        limits := limits[c := rowsLimit];
      }
    }

    method TakeSettings(settings: Settings)
      modifies this`archiveEnable, this`fileMaxRows, this`chunkSize
      ensures archiveEnable == ArchiveEnable(settings) && fileMaxRows == FileMaxRows(settings)
      ensures settings.chunkSize == None ==> chunkSize == CHUNK_SIZE
      ensures settings.chunkSize.Some? ==> chunkSize == settings.chunkSize.value
    {
      archiveEnable := ArchiveEnable(settings);
      fileMaxRows := FileMaxRows(settings);
      chunkSize := if settings.chunkSize.Some? then settings.chunkSize.value else CHUNK_SIZE;
    }

    /** Reads the settings of a run. */
    method Configure(settings: Settings)
      requires now > 0 && forall c: Collection :: c in db && c in limits
      requires ArchiveEnable(settings) ==> forall a: string :: Shape(files, a, FileMaxRows(settings), Last(View(), a))
      modifies this`archiveEnable, this`fileMaxRows, this`chunkSize, this`limits
      ensures Steadily(old(View()), RowsLimit(settings)) && Cfg(RowsLimit(settings)) == Configured(settings)
      ensures chunkSize == 0 ==> settings.chunkSize == Some(0)
    {
      ghost var w0 := View();
      hide Shape, Last, Steady, Sound;
      TakeSettings(settings);
      SetLimits(RowsLimit(settings));
      StartIsSteady(Configured(settings), w0, View());
      SteadySound(Configured(settings), w0, View());
    }

    method CleanOwners(ghost w0: World, ghost budget: nat) returns (o: Outcome)
      requires Steadily(w0, budget)
      modifies this`calls, this`files, this`db, this`limits, this`last, this`accounts, this`orgs
      ensures o.Died? ==> calls == diesAt || chunkSize == 0
      ensures if o.Done? then Steadily(w0, budget) && Finished(View()) else Soundly(w0, budget)
    {
      hide Sound, Steady, Due, DueAccounts, DueOrgs, Exhausted;
      o := DeleteByCloudAccount(w0, budget);
      if o.Died? { return; }
      o := DeleteByOrganization(w0, budget);
    }

    /** A whole run, from any state; if it archives, the archive has the usual shape. Wherever the run
        ends it is sound; if it goes through, limits and deletions balance, and somebody
        stays unclean only if a limit ran out. In the settings' own terms: what is kept is
        kept, and what should go is gone. The run ends early only at a call that fails, or
        at its first deletion for chunks of no rows. */
    method CleanMongo(settings: Settings) returns (o: Outcome)
      requires now > 0 && forall c: Collection :: c in db && c in limits
      requires ArchiveEnable(settings) ==> forall a: string :: Shape(files, a, FileMaxRows(settings), Last(View(), a))
      modifies this
      ensures Sound(Configured(settings), old(View()), View())
      ensures o.Done? ==> Steady(Configured(settings), old(View()), View()) && Finished(View())
      ensures Kept(settings, old(View()), View())
      ensures o.Done? ==> Cleaned(settings, old(View()), View())
      ensures o.Died? ==> calls == diesAt || settings.chunkSize == Some(0)
    {
      ghost var w0 := View();
      Configure(settings);
      hide *;
      o := CleanOwners(w0, RowsLimit(settings));
      EndsSound(settings, w0, o.Done?);
      SoundKeeps(settings, w0, View());
      if o.Done? { SteadyCleans(settings, w0, View()); }
    }

    lemma EndsSound(settings: Settings, w0: World, done: bool)
      requires Cfg(RowsLimit(settings)) == Configured(settings)
      requires if done then Steadily(w0, RowsLimit(settings)) && Finished(View()) else Soundly(w0, RowsLimit(settings))
      ensures Sound(Configured(settings), w0, View())
      ensures done ==> Steady(Configured(settings), w0, View()) && Finished(View())
    {
      hide Sound, Steady, Finished;
    }
  }

  lemma RunningHas(cfg: Config, w0: World, w: World, account: string)
    requires Steady(cfg, w0, w)
    ensures cfg.archive ==> Shape(w.files, account, cfg.max, Last(w, account))
  {
    assert ArchiveKept(cfg, w0, w, account);
  }

  lemma LastHasRoom(files: Files, account: string, max: nat, k: nat)
    requires Shape(files, account, max, k)
    ensures |Lines(files, File(account, k))| <= max
    ensures k == 0 ==> Lines(files, File(account, 1)) == []
  {
  }

  lemma RemovedTwice(db: map<Collection, Rows>, c: Collection, rows: Rows, a: set<Id>, b: set<Id>)
    ensures db[c := rows - a][c := rows - a - b] == db[c := rows - (a + b)]
  {
    assert rows - a - b == rows - (a + b);
  }

  lemma NoneSwept(c: Collection, sweep: Sweep, db: map<Collection, Rows>)
    requires c in db && sweep.rows == db[c]
    ensures Ids(sweep.ids[..0]) == {} && db == db[c := sweep.rows - {}]
  {
    assert sweep.rows - {} == sweep.rows;
  }

  lemma SweepSafe(sweep: Sweep, now: Archive, added: seq<Doc>)
    requires sweep.Through(|sweep.ids|, now, added)
    ensures sweep.Safe(Ids(sweep.ids), now, added)
  {
    assert sweep.ids[..|sweep.ids|] == sweep.ids;
  }

  ghost function Nothing(w: World, c: Collection, owner: Owner, archive: bool, account: string, max: nat): (x: Deletion)
    requires c in w.db && c in w.limits && (archive ==> Shape(w.files, account, max, Last(w, account)))
    ensures Changes(w, w.(last := w.last[account := x.now.last]), max, x)
    ensures w.limits[c] == 0 ==> Completes(w, x, 0)
    ensures x.c == c && x.owner == owner && x.sweep.account == account && x.sweep.archive == archive
  {
    var sweep := Sweep(w.db[c], [], Archive(w.files, Last(w, account)), account, max, archive);
    sweep.Starts();
    assert w.db[c] - {} == w.db[c] && w.db[c := w.db[c]] == w.db;
    Deletion(c, owner, sweep, {}, sweep.start, [])
  }

  lemma ChangesMade(w: World, w': World, x: Deletion, limit: nat, done: bool, rest: nat)
    requires x.c in w.db && x.c in w.limits && limit == w.limits[x.c]
    requires x.sweep.rows == w.db[x.c] && x.sweep.start == Archive(w.files, Last(w, x.sweep.account))
    requires x.sweep.Safe(x.gone, x.now, x.added) && Found(w.db[x.c], x.owner, limit, x.sweep.ids)
    requires w' == w.(db := w.db[x.c := w.db[x.c] - x.gone], files := x.now.files,
                      last := w.last[x.sweep.account := x.now.last])
    requires done ==> x.gone == Ids(x.sweep.ids) && rest == limit - |x.sweep.ids|
    requires done ==> x.sweep.Through(|x.sweep.ids|, x.now, x.added)
    ensures Changes(w, w', x.sweep.max, x)
    ensures done ==> Completes(w, x, rest)
  {
    DistinctIds(x.sweep.ids);
    AtMost(x.gone, Ids(x.sweep.ids));
    assert Ids(x.sweep.ids) <= Matching(w.db[x.c], x.owner);
    hide Matching, Extended, Distinct;
    assert DocsOf(x.sweep.rows, x.sweep.ids)[..|x.sweep.ids|] == DocsOf(x.sweep.rows, x.sweep.ids);
  }
}
