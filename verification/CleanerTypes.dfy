/** Data of the Mongo cleaner: rows and their owners, and the numbered archive files. */
module CleanerTypes {
  import opened Wrappers

  datatype Id = ObjectId(hex: string)

  datatype Collection =
    | RawExpenses | Resources
    | ArchivedRecommendations | Checklists | WebhookObserver | WebhookLogs | Events

  datatype Row = Row(account: Option<string>, org: Option<string>, data: string)
  type Rows = map<Id, Row>

  /** A row with its id, as an archive file holds it. */
  datatype Doc = Doc(id: Id, row: Row)

  /** The filter of a deletion. */
  datatype Owner = ByAccount(account: string) | ByOrg(org: string)

  predicate Owns(owner: Owner, r: Row) {
    match owner
    case ByAccount(a) => r.account == Some(a)
    case ByOrg(o) => r.org == Some(o)
  }

  function Matching(rows: Rows, owner: Owner): set<Id> {
    set id | id in rows && Owns(owner, rows[id])
  }

  predicate Distinct<T(==)>(s: seq<T>) {
    forall i, j :: 0 <= i < j < |s| ==> s[i] != s[j]
  }

  function Ids(s: seq<Id>): set<Id> { set x | x in s }

  predicate Known(rows: Rows, ids: seq<Id>) {
    forall i :: 0 <= i < |ids| ==> ids[i] in rows
  }

  /** As many matching ids as allowed, or all of them, each once. */
  predicate Found(rows: Rows, owner: Owner, limit: nat, ids: seq<Id>) {
    && Distinct(ids) && Known(rows, ids) && |ids| <= limit
    && (forall id :: id in ids ==> id in Matching(rows, owner))
    && (|ids| < limit ==> Ids(ids) == Matching(rows, owner))
  }

  function DocsOf(rows: Rows, ids: seq<Id>): (docs: seq<Doc>)
    requires Known(rows, ids)
    ensures |docs| == |ids|
    ensures forall i :: 0 <= i < |ids| ==> docs[i] == Doc(ids[i], rows[ids[i]])
  {
    if ids == [] then [] else [Doc(ids[0], rows[ids[0]])] + DocsOf(rows, ids[1..])
  }

  /** Deleting some found rows of a collection while archiving them or not. */
  datatype Sweep = Sweep(rows: Rows, ids: seq<Id>, start: Archive, account: string, max: nat, archive: bool) {
    /** What holds however far the deletion got. */
    ghost predicate Safe(gone: set<Id>, now: Archive, added: seq<Doc>) {
      && Distinct(ids) && Known(rows, ids) && gone <= Ids(ids)
      && (if archive then Extended(start, now, account, max, added) else now == start && added == [])
      && (archive ==> forall id :: id in gone ==> Doc(id, rows[id]) in added)
    }

    /** The first j rows are deleted, and archived exactly once each. */
    ghost predicate Through(j: nat, now: Archive, added: seq<Doc>) {
      && j <= |ids| && Safe(Ids(ids[..j]), now, added)
      && (archive ==> multiset(added) == multiset(DocsOf(rows, ids)[..j]))
    }

    lemma Starts()
      requires Distinct(ids) && Known(rows, ids)
      requires archive ==> Shape(start.files, account, max, start.last)
      ensures Through(0, start, [])
    {
      if archive { ExtendedByNothing(start, account, max); }
    }

    /** The rows of the next chunk are still there. */
    lemma NextChunk(j: nat, next: nat, now: Archive, added: seq<Doc>)
      requires Through(j, now, added) && j <= next <= |ids|
      ensures Known(rows - Ids(ids[..j]), ids[j..next])
      ensures archive ==> Shape(now.files, account, max, now.last)
    {
      hide Content;
      ChunkLeft(rows, ids, j, next);
    }

    /** Some rows of a chunk are deleted, all of them if the run goes on; if any is, the
        whole chunk was archived before. */
    lemma AfterChunk(j: nat, next: nat, now: Archive, later: Archive, added: seq<Doc>, more: seq<Doc>, some: set<Id>)
      requires Through(j, now, added) && j <= next <= |ids| && some <= Ids(ids[j..next])
      requires if archive then Extended(now, later, account, max, more) else later == now && more == []
      requires Known(rows - Ids(ids[..j]), ids[j..next])
      ensures archive && multiset(more) != multiset(DocsOf(rows - Ids(ids[..j]), ids[j..next])) && some == {} ==>
                Safe(Ids(ids[..j]) + some, later, added + more)
      ensures archive ==> multiset(more) == multiset(DocsOf(rows - Ids(ids[..j]), ids[j..next])) ==>
                Safe(Ids(ids[..j]) + some, later, added + more)
      ensures !archive ==> Safe(Ids(ids[..j]) + some, later, added + more)
      ensures some == Ids(ids[j..next]) ==>
                (archive ==> multiset(more) == multiset(DocsOf(rows - Ids(ids[..j]), ids[j..next]))) ==>
                Ids(ids[..j]) + some == Ids(ids[..next]) && Through(next, later, added + more)
    {
      IdsOfPrefix(ids, j, next);
      ChunkLeft(rows, ids, j, next);
      hide DocsOf, Extended, Known, Distinct, Ids, Through, Safe;
      if !archive || multiset(more) == multiset(DocsOf(rows, ids)[j..next]) {
        Deletes(j, next, now, later, added, more, some);
      } else if some == {} {
        EndsArchiving(j, now, later, added, more);
        assert Ids(ids[..j]) + some == Ids(ids[..j]);
      }
    }

    /** A run that ends while a chunk is archived. */
    lemma EndsArchiving(j: nat, now: Archive, next: Archive, added: seq<Doc>, more: seq<Doc>)
      requires archive && Through(j, now, added) && Extended(now, next, account, max, more)
      ensures Safe(Ids(ids[..j]), next, added + more)
    {
      ExtendedTwice(start, now, next, account, max, added, more);
    }

    lemma Deletes(j: nat, next: nat, now: Archive, later: Archive, added: seq<Doc>, more: seq<Doc>, some: set<Id>)
      requires Through(j, now, added) && j <= next <= |ids| && some <= Ids(ids[j..next])
      requires if archive then Extended(now, later, account, max, more) else later == now && more == []
      requires archive ==> multiset(more) == multiset(DocsOf(rows, ids)[j..next])
      ensures Safe(Ids(ids[..j]) + some, later, added + more)
      ensures some == Ids(ids[j..next]) ==> Through(next, later, added + more)
    {
      if archive {
        EndsArchiving(j, now, later, added, more);
        hide Extended;
        DocsAmong(rows, ids, j, next, more, some);
        MultisetOfPrefix(DocsOf(rows, ids), j, next, added, more);
      }
      hide *;
      IdsOfPrefix(ids, j, next);
      IdsOfPart(ids, j, next);
      EndsSafely(j, next, later, added, more, some);
    }

    lemma EndsSafely(j: nat, next: nat, later: Archive, added: seq<Doc>, more: seq<Doc>, some: set<Id>)
      requires j <= next <= |ids| && some <= Ids(ids)
      requires Safe(Ids(ids[..j]), later, added + more)
      requires archive ==> forall id :: id in some ==> id in rows && Doc(id, rows[id]) in more
      requires archive ==> multiset(added + more) == multiset(DocsOf(rows, ids)[..next])
      requires Ids(ids[..next]) == Ids(ids[..j]) + Ids(ids[j..next])
      ensures Safe(Ids(ids[..j]) + some, later, added + more)
      ensures some == Ids(ids[j..next]) ==> Through(next, later, added + more)
    {
      hide Extended, DocsOf;
    }
  }

  lemma ChunkLeft(rows: Rows, ids: seq<Id>, j: nat, next: nat)
    requires Distinct(ids) && Known(rows, ids) && j <= next <= |ids|
    ensures var left, chunk := rows - Ids(ids[..j]), ids[j..next];
            && Known(left, chunk) && DocsOf(left, chunk) == DocsOf(rows, ids)[j..next]
            && Ids(chunk) !! Ids(ids[..j]) && left - Ids(chunk) == rows - Ids(ids[..next])
  {
    var left, chunk := rows - Ids(ids[..j]), ids[j..next];
    ChunkKnown(rows, ids, j, next);
    hide Distinct;
    assert DocsOf(left, chunk) == DocsOf(rows, ids)[j..next];
    hide *;
    IdsOfPrefix(ids, j, next);
    assert left - Ids(chunk) == rows - Ids(ids[..next]);
  }

  lemma ChunkKnown(rows: Rows, ids: seq<Id>, j: nat, next: nat)
    requires Distinct(ids) && Known(rows, ids) && j <= next <= |ids|
    ensures Ids(ids[j..next]) !! Ids(ids[..j])
    ensures Known(rows - Ids(ids[..j]), ids[j..next])
  {
    var chunk := ids[j..next];
    forall i | 0 <= i < |chunk| ensures chunk[i] in rows && chunk[i] !in Ids(ids[..j]) {
      assert chunk[i] == ids[j + i];
    }
  }

  lemma MultisetOfPrefix(docs: seq<Doc>, j: nat, next: nat, x: seq<Doc>, y: seq<Doc>)
    requires j <= next <= |docs| && multiset(x) == multiset(docs[..j]) && multiset(y) == multiset(docs[j..next])
    ensures multiset(x + y) == multiset(docs[..next])
  {
    assert docs[..next] == docs[..j] + docs[j..next];
  }

  lemma IdsOfPrefix(ids: seq<Id>, j: nat, next: nat)
    requires j <= next <= |ids|
    ensures Ids(ids[..next]) == Ids(ids[..j]) + Ids(ids[j..next])
  {
    assert ids[..next] == ids[..j] + ids[j..next];
  }

  lemma IdsOfPart(ids: seq<Id>, j: nat, next: nat)
    requires j <= next <= |ids|
    ensures Ids(ids[j..next]) <= Ids(ids)
  {
  }

  lemma DocsAmong(rows: Rows, ids: seq<Id>, j: nat, next: nat, more: seq<Doc>, some: set<Id>)
    requires Known(rows, ids) && j <= next <= |ids| && some <= Ids(ids[j..next])
    requires multiset(more) == multiset(DocsOf(rows, ids)[j..next])
    ensures forall id :: id in some ==> id in rows && Doc(id, rows[id]) in more
  {
    forall id | id in some ensures id in rows && Doc(id, rows[id]) in more {
      var i :| 0 <= i < next - j && ids[j..next][i] == id;
      assert DocsOf(rows, ids)[j..next][i] == Doc(id, rows[id]);
      assert Doc(id, rows[id]) in multiset(more);
    }
  }

  lemma {:induction false} DistinctIds(s: seq<Id>)
    requires Distinct(s)
    ensures |Ids(s)| == |s|
  {
    if s != [] {
      var rest := s[1..];
      assert Ids(s) == Ids(rest) + {s[0]};
      DistinctIds(rest);
    }
  }

  // --- archive files ----------------------------------------------------------

  datatype File = File(account: string, number: int)
  type Files = map<File, seq<Doc>>

  function Lines(files: Files, f: File): seq<Doc> {
    if f in files then files[f] else []
  }

  /** Files 1..k of an account without gaps: all but the last are full, none holds
      more than the maximum. */
  ghost predicate Shape(files: Files, account: string, max: nat, k: nat) {
    && (forall n :: File(account, n) in files <==> 1 <= n <= k)
    && (forall n :: 1 <= n < k ==> |Lines(files, File(account, n))| == max)
    && |Lines(files, File(account, k))| <= max
  }

  /** The lines of files 1..k, one after the other. */
  function Content(files: Files, account: string, k: nat): seq<Doc> {
    if k == 0 then [] else Content(files, account, k - 1) + Lines(files, File(account, k))
  }

  lemma {:induction false} ContentUntouched(files: Files, files': Files, account: string, k: nat)
    requires forall n :: 1 <= n <= k ==> Lines(files', File(account, n)) == Lines(files, File(account, n))
    ensures Content(files', account, k) == Content(files, account, k)
  {
    if k > 0 { ContentUntouched(files, files', account, k - 1); }
  }

  /** Appending to the last file, or to the next one when the last is full, appends to
      the content and keeps the shape. */
  lemma AppendKeepsShape(files: Files, account: string, max: nat, k: nat, n: nat, docs: seq<Doc>)
    requires Shape(files, account, max, k)
    requires n == k >= 1 || (n == k + 1 && (k == 0 || |Lines(files, File(account, k))| == max))
    requires |Lines(files, File(account, n))| + |docs| <= max
    ensures var files' := files[File(account, n) := Lines(files, File(account, n)) + docs];
            && Shape(files', account, max, n)
            && Content(files', account, n) == Content(files, account, k) + docs
  {
    var files' := files[File(account, n) := Lines(files, File(account, n)) + docs];
    ContentUntouched(files, files', account, n - 1);
    if n == k + 1 {
      assert Lines(files, File(account, n)) == [];
      assert Content(files, account, k) + Lines(files', File(account, n)) == Content(files, account, k) + docs;
    } else {
      assert Content(files, account, k) == Content(files, account, k - 1) + Lines(files, File(account, k));
    }
  }

  /** The archive directory and how many files an account has there. */
  datatype Archive = Archive(files: Files, last: nat)

  /** The account's archive gained the given lines at its end and kept its shape; other
      accounts' files are as they were. */
  ghost predicate Extended(before: Archive, after: Archive, account: string, max: nat, added: seq<Doc>) {
    && Shape(after.files, account, max, after.last)
    && Content(after.files, account, after.last) == Content(before.files, account, before.last) + added
    && forall f: File :: f.account != account ==>
         (f in after.files <==> f in before.files) && Lines(after.files, f) == Lines(before.files, f)
  }

  lemma ExtendedByNothing(a: Archive, account: string, max: nat)
    requires Shape(a.files, account, max, a.last)
    ensures Extended(a, a, account, max, [])
  {
  }

  lemma ExtendedTwice(a: Archive, b: Archive, c: Archive, account: string, max: nat, x: seq<Doc>, y: seq<Doc>)
    requires Extended(a, b, account, max, x) && Extended(b, c, account, max, y)
    ensures Extended(a, c, account, max, x + y)
  {
    assert Content(a.files, account, a.last) + x + y == Content(a.files, account, a.last) + (x + y);
  }

  /** Some rows fit file n: the last one while it has room, or the next when it is full. */
  predicate Fits(a: Archive, account: string, max: nat, n: nat, size: nat) {
    || (n == a.last >= 1 && |Lines(a.files, File(account, n))| + size <= max)
    || (n == a.last + 1 && (a.last == 0 || |Lines(a.files, File(account, a.last))| == max) && size <= max)
  }

  /** How many rows file n already holds when more rows are put there. */
  function Held(a: Archive, account: string, n: nat): nat {
    if n == a.last then |Lines(a.files, File(account, n))| else 0
  }

  lemma AppendExtends(a: Archive, account: string, max: nat, n: nat, docs: seq<Doc>)
    requires Shape(a.files, account, max, a.last) && Fits(a, account, max, n, |docs|)
    ensures var b := Archive(a.files[File(account, n) := Lines(a.files, File(account, n)) + docs], n);
            && Extended(a, b, account, max, docs)
            && |Lines(b.files, File(account, n))| == Held(a, account, n) + |docs|
  {
    hide Content;
    AppendKeepsShape(a.files, account, max, a.last, n, docs);
  }

  /** Writing the first of some rows to a file they all fit. */
  lemma PartExtends(a: Archive, account: string, max: nat, n: nat, docs: seq<Doc>, written: seq<Doc>)
    requires Shape(a.files, account, max, a.last) && Fits(a, account, max, n, |docs|) && written <= docs
    ensures var b := Archive(a.files[File(account, n) := Lines(a.files, File(account, n)) + written], n);
            && Extended(a, b, account, max, written)
            && |Lines(b.files, File(account, n))| == Held(a, account, n) + |written|
  {
    hide Extended, Shape;
    AppendExtends(a, account, max, n, written);
  }

  // --- splitting a chunk over files ---------------------------------------------

  /** A piece of a chunk, from a position in it on, meant for one file. */
  datatype Piece = Piece(number: nat, from: nat, ids: seq<Id>) {
    function To(): nat { from + |ids| }

    predicate Of(chunk: seq<Id>) { To() <= |chunk| && ids == chunk[from..To()] }
  }

  /** The chunk is cut into consecutive pieces: one for the room in the first file, then
      full files, then a rest. */
  predicate Split(pieces: seq<Piece>, chunk: seq<Id>, room: int, first: nat, max: nat) {
    && pieces != [] && pieces[0].from == 0 && pieces[|pieces| - 1].To() == |chunk|
    && (forall i :: 0 <= i < |pieces| ==> pieces[i].number == first + i && pieces[i].Of(chunk))
    && (forall i :: 1 <= i < |pieces| ==> pieces[i].from == pieces[i-1].To())
    && |pieces[0].ids| <= room && (|pieces| > 1 ==> |pieces[0].ids| == room)
    && (forall i :: 1 <= i < |pieces| ==> 0 < |pieces[i].ids| <= max)
    && (forall i :: 1 <= i < |pieces| - 1 ==> |pieces[i].ids| == max)
  }

  lemma SplitMore(pieces: seq<Piece>, chunk: seq<Id>, i: nat, next: nat, room: nat, first: nat, max: nat)
    requires i < next <= |chunk| && next - i <= max
    requires Split(pieces, chunk[..i], room, first, max) && |pieces[0].ids| == room
    requires |pieces| > 1 ==> |pieces[|pieces| - 1].ids| == max
    ensures Split(pieces + [Piece(first + |pieces|, i, chunk[i..next])], chunk[..next], room, first, max)
  {
    var last := Piece(first + |pieces|, i, chunk[i..next]);
    assert last.Of(chunk[..next]);
    forall j | 0 <= j < |pieces| ensures pieces[j].Of(chunk[..next]) {
      OfMore(pieces[j], chunk, i, next);
    }
    hide Piece.Of;
    var more := pieces + [last];
    assert forall j :: 0 <= j < |pieces| ==> more[j] == pieces[j];
  }

  lemma OfMore(p: Piece, chunk: seq<Id>, i: nat, next: nat)
    requires i <= next <= |chunk| && p.Of(chunk[..i])
    ensures p.Of(chunk[..next])
  {
    assert chunk[..i][p.from..p.To()] == chunk[..next][p.from..p.To()];
  }

  function FirstFile(a: Archive): nat { if a.last == 0 then 1 else a.last }

  function Room(a: Archive, account: string, max: nat): int {
    if a.last == 0 then max else max - |Lines(a.files, File(account, a.last))|
  }

  /** Saving the pieces of a chunk of rows, starting from an archive. */
  datatype Job = Job(start: Archive, account: string, max: nat, rows: Rows, chunk: seq<Id>, pieces: seq<Piece>) {
    predicate Planned() {
      && Known(rows, chunk)
      && Split(pieces, chunk, Room(start, account, max), FirstFile(start), max)
    }

    /** The first i pieces are in their files; the archive gained exactly their rows. */
    ghost predicate Saved(i: nat, now: Archive, added: seq<Doc>) {
      && Planned() && i <= |pieces|
      && Extended(start, now, account, max, added)
      && (if i == 0 then now == start else now.last == pieces[i-1].number)
      && multiset(added) == multiset(DocsOf(rows, chunk)[..if i == 0 then 0 else pieces[i-1].To()])
      && (i < |pieces| ==> Fits(now, account, max, pieces[i].number, |pieces[i].ids|))
    }

    lemma Starts()
      requires Shape(start.files, account, max, start.last) && Planned()
      ensures Saved(0, start, [])
    {
      ExtendedByNothing(start, account, max);
    }

    lemma Ready(i: nat, now: Archive, added: seq<Doc>)
      requires Saved(i, now, added) && i < |pieces|
      ensures Shape(now.files, account, max, now.last) && Known(rows, pieces[i].ids)
      ensures Fits(now, account, max, pieces[i].number, |pieces[i].ids|)
    {
      assert pieces[i].Of(chunk);
    }

    /** Once a piece fills its file, the next one fits the next file. */
    lemma NextFits(i: nat, now: Archive, next: Archive)
      requires Planned() && i + 1 < |pieces| && next.last == pieces[i].number
      requires Fits(now, account, max, next.last, |pieces[i].ids|)
      requires if i == 0 then now == start else now.last == pieces[i-1].number
      requires |Lines(next.files, File(account, next.last))| == Held(now, account, next.last) + |pieces[i].ids|
      ensures Fits(next, account, max, pieces[i+1].number, |pieces[i+1].ids|)
    {
    }

    /** After a piece is saved, or the run ends while it is. */
    lemma AfterPiece(i: nat, now: Archive, next: Archive, added: seq<Doc>, written: seq<Doc>)
      requires Saved(i, now, added) && i < |pieces| && Known(rows, pieces[i].ids)
      requires Extended(now, next, account, max, written)
      ensures Extended(start, next, account, max, added + written)
      ensures && next.last == pieces[i].number && multiset(written) == multiset(DocsOf(rows, pieces[i].ids))
              && |Lines(next.files, File(account, next.last))| == Held(now, account, next.last) + |pieces[i].ids| ==>
              Saved(i + 1, next, added + written)
    {
      ExtendedTwice(start, now, next, account, max, added, written);
      hide Extended, Fits;
      assert pieces[i].Of(chunk);
      if next.last == pieces[i].number && multiset(written) == multiset(DocsOf(rows, pieces[i].ids))
         && |Lines(next.files, File(account, next.last))| == Held(now, account, next.last) + |pieces[i].ids| {
        if i + 1 < |pieces| { NextFits(i, now, next); }
        DocsOfPart(rows, chunk, pieces[i].from, pieces[i].To());
        MultisetOfPrefix(DocsOf(rows, chunk), pieces[i].from, pieces[i].To(), added, written);
      }
    }

    lemma Finished(now: Archive, added: seq<Doc>)
      requires Saved(|pieces|, now, added)
      ensures Extended(start, now, account, max, added)
      ensures Known(rows, chunk) && multiset(added) == multiset(DocsOf(rows, chunk))
    {
      assert DocsOf(rows, chunk)[..|chunk|] == DocsOf(rows, chunk);
    }
  }

  lemma DocsOfPart(rows: Rows, chunk: seq<Id>, from: nat, to: nat)
    requires Known(rows, chunk) && from <= to <= |chunk|
    ensures Known(rows, chunk[from..to]) && DocsOf(rows, chunk)[from..to] == DocsOf(rows, chunk[from..to])
  {
  }
}
