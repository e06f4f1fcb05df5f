/** Duplicate statistics of object buckets: what the grouped queries and the loops over
    their answers count, against counting object by object. */
module Gemini {
  import opened Wrappers

  /** A stored object: its content tag, its bucket and its size. */
  datatype Object = Object(tag: string, bucket: string, size: nat)

  /** An object under the key it is grouped by. */
  datatype Keyed<K> = Keyed(key: K, bucket: string, size: nat)

  // --- counting --------------------------------------------------------------------------

  /** Objects of a bucket with one key, and with one of several keys. */
  function Cnt<K(==)>(rows: seq<Keyed<K>>, k: K, b: string): nat {
    if rows == [] then 0
    else (if rows[0].key == k && rows[0].bucket == b then 1 else 0) + Cnt(rows[1..], k, b)
  }

  function CntIn<K(==)>(rows: seq<Keyed<K>>, ks: set<K>, b: string): nat {
    if rows == [] then 0
    else (if rows[0].key in ks && rows[0].bucket == b then 1 else 0) + CntIn(rows[1..], ks, b)
  }

  function Size<K(==)>(rows: seq<Keyed<K>>, k: K, b: string): nat {
    if rows == [] then 0
    else (if rows[0].key == k && rows[0].bucket == b then rows[0].size else 0) + Size(rows[1..], k, b)
  }

  function SizeIn<K(==)>(rows: seq<Keyed<K>>, ks: set<K>, b: string): nat {
    if rows == [] then 0
    else (if rows[0].key in ks && rows[0].bucket == b then rows[0].size else 0) + SizeIn(rows[1..], ks, b)
  }

  function Keys<K>(ks: seq<K>): set<K> { set k | k in ks }

  predicate Distinct<T(==)>(s: seq<T>) { forall i, j :: 0 <= i < j < |s| ==> s[i] != s[j] }

  /** Sums over groups. */
  function SumCnt<K(==)>(rows: seq<Keyed<K>>, ks: seq<K>, b: string): nat {
    if ks == [] then 0 else Cnt(rows, ks[0], b) + SumCnt(rows, ks[1..], b)
  }

  function SumSize<K(==)>(rows: seq<Keyed<K>>, ks: seq<K>, b: string): nat {
    if ks == [] then 0 else Size(rows, ks[0], b) + SumSize(rows, ks[1..], b)
  }

  lemma {:induction false} OneMoreKey<K>(rows: seq<Keyed<K>>, ks: set<K>, k: K, b: string)
    requires k !in ks
    ensures CntIn(rows, ks + {k}, b) == CntIn(rows, ks, b) + Cnt(rows, k, b)
    ensures SizeIn(rows, ks + {k}, b) == SizeIn(rows, ks, b) + Size(rows, k, b)
  {
    if rows != [] { OneMoreKey(rows[1..], ks, k, b); }
  }

  lemma {:induction false} NoKeys<K>(rows: seq<Keyed<K>>, b: string)
    ensures CntIn(rows, {}, b) == 0 && SizeIn(rows, {}, b) == 0
  {
    if rows != [] { NoKeys(rows[1..], b); }
  }

  /** Adding up the groups of distinct keys counts every object with one of the keys
      exactly once. */
  lemma {:induction false} GroupsAddUp<K>(rows: seq<Keyed<K>>, ks: seq<K>, b: string)
    requires Distinct(ks)
    ensures SumCnt(rows, ks, b) == CntIn(rows, Keys(ks), b)
    ensures SumSize(rows, ks, b) == SizeIn(rows, Keys(ks), b)
  {
    if ks == [] {
      NoKeys(rows, b);
      assert Keys(ks) == {};
    } else {
      assert Keys(ks) == Keys(ks[1..]) + {ks[0]};
      GroupsAddUp(rows, ks[1..], b);
      OneMoreKey(rows, Keys(ks[1..]), ks[0], b);
    }
  }

  // --- the cross matrix ---------------------------------------------------------------------

  function ByTag(objects: seq<Object>): seq<Keyed<string>> {
    seq(|objects|, i requires 0 <= i < |objects| => Keyed(objects[i].tag, objects[i].bucket, objects[i].size))
  }

  /** The tags that occur in a bucket. */
  function TagsOf(objects: seq<Object>, b: string): set<string> {
    set i | 0 <= i < |objects| && objects[i].bucket == b :: objects[i].tag
  }

  /** Object by object: those of bucket a whose tag occurs in bucket b. */
  function AlsoIn(objects: seq<Object>, a: string, b: string): nat { CntIn(ByTag(objects), TagsOf(objects, b), a) }

  function SizeAlsoIn(objects: seq<Object>, a: string, b: string): nat { SizeIn(ByTag(objects), TagsOf(objects, b), a) }

  /** The tags both buckets have a group for. */
  function Shared(objects: seq<Object>, a: string, b: string): set<string> {
    TagsOf(objects, a) * TagsOf(objects, b)
  }

  /** What joining the groups of two buckets on their tags sums up to: over each shared
      tag, the counts of both groups and the size of the first. */
  ghost predicate JoinSums(objects: seq<Object>, a: string, b: string, count: nat, size: nat) {
    exists ts :: JoinSumsOver(objects, a, b, count, size, ts)
  }

  ghost predicate JoinSumsOver(objects: seq<Object>, a: string, b: string, count: nat, size: nat, ts: seq<string>) {
    && Distinct(ts) && Keys(ts) == Shared(objects, a, b)
    && count == SumCnt(ByTag(objects), ts, a) + SumCnt(ByTag(objects), ts, b)
    && size == SumSize(ByTag(objects), ts, a)
  }

  datatype Cell = Cell(a: string, b: string, count: nat, size: nat)

  /** The answer of the cross query: a cell for each pair of listed buckets that share a
      tag, with the sums of their join. */
  ghost predicate CrossAnswer(objects: seq<Object>, buckets: seq<string>, q: seq<Cell>) {
    && (forall i, j :: 0 <= i < j < |q| ==> (q[i].a, q[i].b) != (q[j].a, q[j].b))
    && (forall i :: 0 <= i < |q| ==>
          q[i].a in buckets && q[i].b in buckets && Shared(objects, q[i].a, q[i].b) != {}
          && JoinSums(objects, q[i].a, q[i].b, q[i].count, q[i].size))
    && (forall a, b :: a in buckets && b in buckets && Shared(objects, a, b) != {} ==>
          exists i :: 0 <= i < |q| && q[i].a == a && q[i].b == b)
  }

  lemma {:induction false} SharedCounts(rows: seq<Keyed<string>>, ts: set<string>, us: set<string>, a: string)
    requires forall i :: 0 <= i < |rows| && rows[i].bucket == a ==> rows[i].key in us
    ensures CntIn(rows, us * ts, a) == CntIn(rows, ts, a)
    ensures SizeIn(rows, us * ts, a) == SizeIn(rows, ts, a)
  {
    if rows != [] {
      assert rows[0].bucket == a ==> rows[0].key in us;
      forall i | 0 <= i < |rows[1..]| && rows[1..][i].bucket == a ensures rows[1..][i].key in us {
        assert rows[1..][i] == rows[i+1];
      }
      SharedCounts(rows[1..], ts, us, a);
    }
  }

  /** The grouped join equals counting object by object. */
  lemma JoinCounts(objects: seq<Object>, a: string, b: string, count: nat, size: nat)
    requires JoinSums(objects, a, b, count, size)
    ensures count == AlsoIn(objects, a, b) + AlsoIn(objects, b, a)
    ensures size == SizeAlsoIn(objects, a, b)
  {
    var ts :| JoinSumsOver(objects, a, b, count, size, ts);
    var rows := ByTag(objects);
    GroupsAddUp(rows, ts, a);
    GroupsAddUp(rows, ts, b);
    assert forall i :: 0 <= i < |rows| && rows[i].bucket == a ==> rows[i].key in TagsOf(objects, a);
    assert forall i :: 0 <= i < |rows| && rows[i].bucket == b ==> rows[i].key in TagsOf(objects, b);
    SharedCounts(rows, TagsOf(objects, b), TagsOf(objects, a), a);
    SharedCounts(rows, TagsOf(objects, a), TagsOf(objects, b), b);
    assert TagsOf(objects, b) * TagsOf(objects, a) == Shared(objects, a, b);
  }

  lemma NothingShared(objects: seq<Object>, a: string, b: string)
    requires Shared(objects, a, b) == {}
    ensures AlsoIn(objects, a, b) == 0 && AlsoIn(objects, b, a) == 0 && SizeAlsoIn(objects, a, b) == 0
  {
    var rows := ByTag(objects);
    assert forall i :: 0 <= i < |rows| && rows[i].bucket == a ==> rows[i].key in TagsOf(objects, a);
    assert forall i :: 0 <= i < |rows| && rows[i].bucket == b ==> rows[i].key in TagsOf(objects, b);
    SharedCounts(rows, TagsOf(objects, b), TagsOf(objects, a), a);
    SharedCounts(rows, TagsOf(objects, a), TagsOf(objects, b), b);
    assert TagsOf(objects, b) * TagsOf(objects, a) == Shared(objects, a, b);
    NoKeys(rows, a);
    NoKeys(rows, b);
  }

  /** All objects of a bucket have tags that occur in it. */
  lemma OwnTags(objects: seq<Object>, a: string)
    ensures AlsoIn(objects, a, a) == |Of(objects, a)|
  {
    OwnTagsOf(objects, TagsOf(objects, a), a);
  }

  function Of(objects: seq<Object>, b: string): seq<Object> {
    if objects == [] then [] else (if objects[0].bucket == b then [objects[0]] else []) + Of(objects[1..], b)
  }

  lemma {:induction false} OwnTagsOf(objects: seq<Object>, ts: set<string>, a: string)
    requires TagsOf(objects, a) <= ts
    ensures CntIn(ByTag(objects), ts, a) == |Of(objects, a)|
  {
    if objects != [] {
      assert ByTag(objects)[1..] == ByTag(objects[1..]);
      forall t | t in TagsOf(objects[1..], a) ensures t in ts {
        var i :| 0 <= i < |objects[1..]| && objects[1..][i].bucket == a && objects[1..][i].tag == t;
        assert objects[i+1].tag == t && objects[i+1].bucket == a;
        assert t in TagsOf(objects, a);
      }
      assert objects[0].bucket == a ==> objects[0].tag in TagsOf(objects, a);
      OwnTagsOf(objects[1..], ts, a);
    }
  }

  /** The objects counted, by their positions. */
  function Positions<K(==)>(rows: seq<Keyed<K>>, ks: set<K>, b: string): set<int> {
    set i | 0 <= i < |rows| && rows[i].key in ks && rows[i].bucket == b
  }

  lemma NotEmpty(s: set<int>)
    ensures s == {} || exists d :: d in s
  {
    if forall d :: d !in s { assert s == {}; }
  }

  lemma {:induction false} SameSize(s: set<int>, t: set<int>)
    requires forall i :: i in s <==> i + 1 in t
    ensures |s| == |t|
  {
    NotEmpty(s);
    NotEmpty(t);
    forall y | y in t ensures y - 1 in s {}
    if s == {} {
      assert t == {};
    } else {
      var x :| x in s;
      SameSize(s - {x}, t - {x + 1});
    }
  }

  lemma {:induction false} CountsPositions<K>(rows: seq<Keyed<K>>, ks: set<K>, b: string)
    ensures CntIn(rows, ks, b) == |Positions(rows, ks, b)|
  {
    if rows != [] {
      var rest, all := Positions(rows[1..], ks, b), Positions(rows, ks, b);
      CountsPositions(rows[1..], ks, b);
      assert forall i :: i in rest <==> i + 1 in all - {0};
      SameSize(rest, all - {0});
      assert 0 in all ==> |all| == |all - {0}| + 1;
    }
  }

  /** The objects of bucket a that have a duplicate in bucket b, by their positions. */
  ghost function Duplicated(objects: seq<Object>, a: string, b: string): set<int> {
    set i | 0 <= i < |objects| && objects[i].bucket == a
            && exists j :: 0 <= j < |objects| && objects[j].bucket == b && objects[j].tag == objects[i].tag
  }

  /** The answer of the query and so the matrix count exactly the objects of either bucket
      that have a duplicate in the other. */
  lemma DuplicatesCounted(objects: seq<Object>, a: string, b: string)
    ensures AlsoIn(objects, a, b) == |Duplicated(objects, a, b)|
  {
    var rows, tags := ByTag(objects), TagsOf(objects, b);
    CountsPositions(rows, tags, a);
    assert Positions(rows, tags, a) == Duplicated(objects, a, b);
  }

  datatype Info = Info(duplicatedObjects: nat, duplicatesSize: nat)

  /** What a cell of the matrix should say. */
  function Expected(objects: seq<Object>, a: string, b: string): Info {
    Info(if a == b then |Of(objects, a)| else AlsoIn(objects, a, b) + AlsoIn(objects, b, a), SizeAlsoIn(objects, a, b))
  }

  /** The matrix covers exactly the pairs of listed buckets, counts what it should and is
      symmetric in its counts. */
  ghost predicate RightMatrix(objects: seq<Object>, buckets: seq<string>, m: map<(string, string), Info>) {
    && (forall p :: p in m <==> p.0 in buckets && p.1 in buckets)
    && (forall p :: p in m ==> m[p] == Expected(objects, p.0, p.1))
    && (forall a, b :: (a, b) in m && (b, a) in m ==> m[(a, b)].duplicatedObjects == m[(b, a)].duplicatedObjects)
  }

  lemma CellIsExpected(objects: seq<Object>, c: Cell)
    requires JoinSums(objects, c.a, c.b, c.count, c.size)
    ensures Info(if c.a == c.b then c.count / 2 else c.count, c.size) == Expected(objects, c.a, c.b)
  {
    JoinCounts(objects, c.a, c.b, c.count, c.size);
    OwnTags(objects, c.a);
  }

  lemma EmptyIsExpected(objects: seq<Object>, a: string, b: string)
    requires Shared(objects, a, b) == {}
    ensures Info(0, 0) == Expected(objects, a, b)
  {
    NothingShared(objects, a, b);
    OwnTags(objects, a);
  }

  lemma Unanswered(objects: seq<Object>, buckets: seq<string>, q: seq<Cell>, a: string, b: string)
    requires CrossAnswer(objects, buckets, q) && a in buckets && b in buckets
    requires forall i :: 0 <= i < |q| ==> (q[i].a, q[i].b) != (a, b)
    ensures Info(0, 0) == Expected(objects, a, b)
  {
    assert Shared(objects, a, b) == {};
    EmptyIsExpected(objects, a, b);
  }

  ghost predicate PartlyFilled(objects: seq<Object>, buckets: seq<string>, m: map<(string, string), Info>) {
    forall p :: p in m ==> p.0 in buckets && p.1 in buckets && m[p] == Expected(objects, p.0, p.1)
  }

  predicate Answered(q: seq<Cell>, m: map<(string, string), Info>) {
    forall i :: 0 <= i < |q| ==> (q[i].a, q[i].b) in m
  }

  /** Pairs of listed buckets, each pair in one order or the other. */
  predicate AllPairs(buckets: seq<string>, pairs: seq<(string, string)>) {
    && (forall p :: p in pairs ==> p.0 in buckets && p.1 in buckets)
    && (forall a, b :: a in buckets && b in buckets ==> (a, b) in pairs || (b, a) in pairs)
  }

  lemma PairListed(buckets: seq<string>, pairs: seq<(string, string)>, i: nat)
    requires AllPairs(buckets, pairs) && i < |pairs|
    ensures pairs[i].0 in buckets && pairs[i].1 in buckets
  {
    assert pairs[i] in pairs;
  }

  /** combinations(buckets, 2) and each bucket with itself. */
  method BucketPairs(buckets: seq<string>) returns (pairs: seq<(string, string)>)
    ensures AllPairs(buckets, pairs)
  {
    pairs := [];
    for i := 0 to |buckets|
      invariant forall p :: p in pairs ==> p.0 in buckets && p.1 in buckets
      invariant forall j, k :: 0 <= j < i && j < k < |buckets| ==> (buckets[j], buckets[k]) in pairs
    {
      for n := i + 1 to |buckets|
        invariant forall p :: p in pairs ==> p.0 in buckets && p.1 in buckets
        invariant forall j, k :: 0 <= j < i && j < k < |buckets| ==> (buckets[j], buckets[k]) in pairs
        invariant forall k :: i < k < n ==> (buckets[i], buckets[k]) in pairs
      {
        pairs := pairs + [(buckets[i], buckets[n])];
      }
    }
    ghost var combinations := pairs;
    for i := 0 to |buckets|
      invariant forall p :: p in pairs ==> p.0 in buckets && p.1 in buckets
      invariant forall p :: p in combinations ==> p in pairs
      invariant forall j :: 0 <= j < i ==> (buckets[j], buckets[j]) in pairs
    {
      pairs := pairs + [(buckets[i], buckets[i])];
    }
  }

  method FillEmpty(m: map<(string, string), Info>, p: (string, string), ghost q: seq<Cell>, ghost buckets: seq<string>,
                   ghost objects: seq<Object>)
      returns (m': map<(string, string), Info>)
    requires CrossAnswer(objects, buckets, q) && PartlyFilled(objects, buckets, m) && Answered(q, m)
    requires p.0 in buckets && p.1 in buckets
    ensures PartlyFilled(objects, buckets, m') && Answered(q, m') && p in m' && forall x :: x in m ==> x in m'
  {
    m' := m;
    if p !in m {
      Unanswered(objects, buckets, q, p.0, p.1);
      hide Expected;
      m' := m[p := Info(0, 0)];
    }
  }

  predicate Covered(m: map<(string, string), Info>, p: (string, string)) { p in m && (p.1, p.0) in m }

  method FillBoth(m: map<(string, string), Info>, p: (string, string), ghost q: seq<Cell>, ghost buckets: seq<string>,
                  ghost objects: seq<Object>)
      returns (m': map<(string, string), Info>)
    requires CrossAnswer(objects, buckets, q) && PartlyFilled(objects, buckets, m) && Answered(q, m)
    requires p.0 in buckets && p.1 in buckets
    ensures PartlyFilled(objects, buckets, m') && Answered(q, m')
    ensures Covered(m', p) && forall x :: Covered(m, x) ==> Covered(m', x)
  {
    hide CrossAnswer, Expected, PartlyFilled, Answered;
    m' := FillEmpty(m, p, q, buckets, objects);
    if p.0 != p.1 {
      m' := FillEmpty(m', (p.1, p.0), q, buckets, objects);
    } else {
      assert (p.1, p.0) == p;
    }
  }

  method FillFromAnswer(q: seq<Cell>, ghost buckets: seq<string>, ghost objects: seq<Object>)
      returns (m: map<(string, string), Info>)
    requires CrossAnswer(objects, buckets, q)
    ensures PartlyFilled(objects, buckets, m) && Answered(q, m)
  {
    m := map[];
    hide Expected, JoinSums, Shared;
    for i := 0 to |q|
      invariant PartlyFilled(objects, buckets, m) && Answered(q[..i], m)
      invariant forall p :: p in m ==> exists j :: 0 <= j < i && p == (q[j].a, q[j].b)
    {
      var r := q[i];
      CellIsExpected(objects, r);
      // because of sum(b1.cnt + b2.cnt) for the same bucket
      m := m[(r.a, r.b) := Info(if r.a == r.b then r.count / 2 else r.count, r.size)];
    }
    assert q[..|q|] == q;
  }

  /** Fills the matrix from the answer of the query, and with zeros where it is silent. */
  method CalculateCrossMatrix(q: seq<Cell>, buckets: seq<string>, ghost objects: seq<Object>)
      returns (m: map<(string, string), Info>)
    requires CrossAnswer(objects, buckets, q)
    ensures RightMatrix(objects, buckets, m)
  {
    m := FillFromAnswer(q, buckets, objects);
    var pairs := BucketPairs(buckets);
    hide CrossAnswer, Expected, PartlyFilled, Answered, Covered, RightMatrix, AllPairs;
    for i := 0 to |pairs|
      invariant PartlyFilled(objects, buckets, m) && Answered(q, m)
      invariant forall j :: 0 <= j < i ==> Covered(m, pairs[j])
    {
      PairListed(buckets, pairs, i);
      m := FillBoth(m, pairs[i], q, buckets, objects);
    }
    FilledIsRight(objects, buckets, pairs, m);
  }

  lemma FilledIsRight(objects: seq<Object>, buckets: seq<string>, pairs: seq<(string, string)>,
                      m: map<(string, string), Info>)
    requires PartlyFilled(objects, buckets, m)
    requires AllPairs(buckets, pairs)
    requires forall j :: 0 <= j < |pairs| ==> Covered(m, pairs[j])
    ensures RightMatrix(objects, buckets, m)
  {
    assert forall p :: p in pairs ==> Covered(m, p);
    forall a, b | a in buckets && b in buckets ensures (a, b) in m {
      assert (a, b) in pairs || (b, a) in pairs;
    }
    forall p: (string, string) | p.0 in buckets && p.1 in buckets ensures p in m {
      assert p == (p.0, p.1);
    }
  }

  // --- objects with duplicates -------------------------------------------------------------

  /** A group of the second query: the buckets of all objects with one tag and size. */
  datatype Group = Group(buckets: seq<string>, size: nat)

  datatype Key = Key(tag: string, size: nat)

  function ByTagAndSize(objects: seq<Object>): seq<Keyed<Key>> {
    seq(|objects|, i requires 0 <= i < |objects| =>
      Keyed(Key(objects[i].tag, objects[i].size), objects[i].bucket, objects[i].size))
  }

  /** The tag is that of two objects or more, wherever they are. */
  predicate Repeated(objects: seq<Object>, tag: string) {
    exists i, j :: 0 <= i < j < |objects| && objects[i].tag == tag && objects[j].tag == tag
  }

  function RepeatedKeys(objects: seq<Object>): set<Key> {
    set i | 0 <= i < |objects| && Repeated(objects, objects[i].tag) :: Key(objects[i].tag, objects[i].size)
  }

  function Occ(buckets: seq<string>, b: string): nat {
    if buckets == [] then 0 else (if buckets[0] == b then 1 else 0) + Occ(buckets[1..], b)
  }

  /** The answer of the second query: one group for each tag and size among the objects
      with a repeated tag, holding the buckets of all of them. */
  ghost predicate GroupsAnswer(objects: seq<Object>, g: seq<Group>, ks: seq<Key>) {
    && |ks| == |g| && Distinct(ks) && Keys(ks) == RepeatedKeys(objects)
    && (forall i :: 0 <= i < |g| ==> g[i].size == ks[i].size && g[i].buckets != [])
    && (forall i, b :: 0 <= i < |g| ==> Occ(g[i].buckets, b) == Cnt(ByTagAndSize(objects), ks[i], b))
  }

  function BucketSet(buckets: seq<string>): set<string> { set b | b in buckets }

  /** The objects of a bucket whose tag is repeated anywhere. */
  function RepeatedIn(objects: seq<Object>, b: string): nat { CntIn(ByTagAndSize(objects), RepeatedKeys(objects), b) }

  lemma {:induction false} OccLength(buckets: seq<string>, b: string)
    ensures Occ(buckets, b) <= |buckets|
    ensures Occ(buckets, b) > 0 <==> b in buckets
  {
    if buckets != [] {
      OccLength(buckets[1..], b);
      assert buckets == [buckets[0]] + buckets[1..];
    }
  }

  lemma {:induction false} OccAll(buckets: seq<string>, b: string)
    requires forall i :: 0 <= i < |buckets| ==> buckets[i] == b
    ensures Occ(buckets, b) == |buckets|
  {
    if buckets != [] { OccAll(buckets[1..], b); }
  }

  lemma OneBucket(buckets: seq<string>, b: string)
    requires |BucketSet(buckets)| == 1 && b in buckets
    ensures Occ(buckets, b) == |buckets|
  {
    var s := BucketSet(buckets);
    assert b in s;
    forall i | 0 <= i < |buckets| ensures buckets[i] == b {
      assert buckets[i] in s;
      SingletonSame(s, buckets[i], b);
    }
    OccAll(buckets, b);
  }

  lemma SingletonSame(s: set<string>, x: string, y: string)
    requires |s| == 1 && x in s && y in s
    ensures x == y
  {
    assert |s - {x}| == 0;
  }

  datatype Stats = Stats(objects: nat, size: nat)

  /** A group adds its objects of the bucket, and their sizes except that of one object if
      the group lies in this bucket alone. */
  function Add(w: Stats, r: Group, b: string): Stats {
    var occ := Occ(r.buckets, b);
    var spared := if |BucketSet(r.buckets)| == 1 && occ > 0 then 1 else 0;
    Stats(w.objects + occ, if occ >= spared then w.size + (occ - spared) * r.size else w.size)
  }

  /** What the groups add up to for a bucket. */
  function Wanted(g: seq<Group>, b: string): Stats {
    if g == [] then Stats(0, 0) else Add(Wanted(g[..|g| - 1], b), g[|g| - 1], b)
  }

  lemma WantedStep(g: seq<Group>, i: nat, b: string)
    requires i < |g|
    ensures Wanted(g[..i+1], b) == Add(Wanted(g[..i], b), g[i], b)
  {
    assert g[..i+1][..i] == g[..i];
  }

  method CalculateObjectsWithDuplicates(g: seq<Group>, buckets: seq<string>, ghost objects: seq<Object>, ghost ks: seq<Key>)
      returns (stats: map<string, Stats>)
    requires GroupsAnswer(objects, g, ks)
    ensures forall b :: b in stats <==> b in buckets
    ensures forall b :: b in buckets ==> stats[b] == Wanted(g, b) && stats[b].objects == RepeatedIn(objects, b)
  {
    stats := map[];
    for i := 0 to |buckets|
      invariant forall b :: b in stats <==> b in buckets[..i]
      invariant forall b :: b in stats ==> stats[b] == Wanted(g, b) && stats[b].objects == RepeatedIn(objects, b)
    {
      var b := buckets[i];
      var s := OfBucket(g, b);
      WantedCounts(objects, g, ks, b);
      stats := stats[b := s];
      assert buckets[..i+1] == buckets[..i] + [b];
    }
    assert buckets[..|buckets|] == buckets;
  }

  /** The loop over the groups for one bucket. */
  method OfBucket(g: seq<Group>, bucket: string) returns (s: Stats)
    requires forall i :: 0 <= i < |g| ==> g[i].buckets != []
    ensures s == Wanted(g, bucket)
  {
    s := Stats(0, 0);
    hide Wanted;
    assert g[..0] == [] && Wanted([], bucket) == s by { NothingWanted(bucket); }
    for i := 0 to |g|
      invariant s == Wanted(g[..i], bucket)
    {
      WantedStep(g, i, bucket);
      s := OneGroup(s, g[i], bucket);
    }
    assert g[..|g|] == g;
  }

  lemma NothingWanted(b: string)
    ensures Wanted([], b) == Stats(0, 0)
  {
  }

  method OneGroup(w: Stats, r: Group, bucket: string) returns (s: Stats)
    requires r.buckets != []
    ensures s == Add(w, r, bucket)
  {
    var objects, size := w.objects, w.size;
    var occurrence := Occ(r.buckets, bucket);
    OccLength(r.buckets, bucket);
    if occurrence == 0 { return w; }
    assert bucket in BucketSet(r.buckets);
    if |BucketSet(r.buckets)| == 1 {
      OneBucket(r.buckets, bucket);
      objects := objects + |r.buckets|;
      size := size + (|r.buckets| - 1) * r.size;
    }
    if |BucketSet(r.buckets)| > 1 {
      objects := objects + occurrence;
      size := size + occurrence * r.size;
    }
    return Stats(objects, size);
  }

  lemma {:induction false} WantedSums(rows: seq<Keyed<Key>>, g: seq<Group>, ks: seq<Key>, b: string)
    requires |ks| == |g| && forall i :: 0 <= i < |g| ==> Occ(g[i].buckets, b) == Cnt(rows, ks[i], b)
    ensures Wanted(g, b).objects == SumCnt(rows, ks, b)
  {
    if g != [] {
      var n := |g| - 1;
      WantedSums(rows, g[..n], ks[..n], b);
      assert ks == ks[..n] + [ks[n]];
      SumCntSnoc(rows, ks[..n], ks[n], b);
    }
  }

  lemma {:induction false} SumCntSnoc<K>(rows: seq<Keyed<K>>, ks: seq<K>, k: K, b: string)
    ensures SumCnt(rows, ks + [k], b) == SumCnt(rows, ks, b) + Cnt(rows, k, b)
  {
    if ks == [] {
      assert [] + [k] == [k];
    } else {
      assert (ks + [k])[1..] == ks[1..] + [k];
      SumCntSnoc(rows, ks[1..], k, b);
    }
  }

  lemma WantedCounts(objects: seq<Object>, g: seq<Group>, ks: seq<Key>, b: string)
    requires GroupsAnswer(objects, g, ks)
    ensures Wanted(g, b).objects == RepeatedIn(objects, b)
  {
    WantedSums(ByTagAndSize(objects), g, ks, b);
    GroupsAddUp(ByTagAndSize(objects), ks, b);
  }

  /** The sizes not counted for a bucket: one object for every group that lies in it alone. */
  function Spared(g: seq<Group>, b: string): nat {
    if g == [] then 0
    else
      var r := g[|g| - 1];
      Spared(g[..|g| - 1], b) + if |BucketSet(r.buckets)| == 1 && Occ(r.buckets, b) > 0 then r.size else 0
  }

  lemma {:induction false} SizeOfKey(rows: seq<Keyed<Key>>, k: Key, b: string)
    requires forall i :: 0 <= i < |rows| ==> rows[i].size == rows[i].key.size
    ensures Size(rows, k, b) == Cnt(rows, k, b) * k.size
  {
    if rows != [] {
      assert rows[0].size == rows[0].key.size;
      SizeOfKey(rows[1..], k, b);
    }
  }

  lemma {:induction false} SumSizeSnoc<K>(rows: seq<Keyed<K>>, ks: seq<K>, k: K, b: string)
    ensures SumSize(rows, ks + [k], b) == SumSize(rows, ks, b) + Size(rows, k, b)
  {
    if ks == [] {
      assert [] + [k] == [k];
    } else {
      assert (ks + [k])[1..] == ks[1..] + [k];
      SumSizeSnoc(rows, ks[1..], k, b);
    }
  }

  lemma {:induction false} WantedSizes(rows: seq<Keyed<Key>>, g: seq<Group>, ks: seq<Key>, b: string)
    requires forall i :: 0 <= i < |rows| ==> rows[i].size == rows[i].key.size
    requires |ks| == |g| && forall i :: 0 <= i < |g| ==> g[i].size == ks[i].size && Occ(g[i].buckets, b) == Cnt(rows, ks[i], b)
    ensures Wanted(g, b).size + Spared(g, b) == SumSize(rows, ks, b)
  {
    if g != [] {
      var n := |g| - 1;
      WantedSizes(rows, g[..n], ks[..n], b);
      assert ks == ks[..n] + [ks[n]];
      SumSizeSnoc(rows, ks[..n], ks[n], b);
      SizeOfKey(rows, ks[n], b);
      OneLess(Occ(g[n].buckets, b), g[n].size);
    }
  }

  lemma OneLess(n: nat, size: nat)
    ensures n > 0 ==> (n - 1) * size + size == n * size
  {
    if n > 0 { assert n == (n - 1) + 1; }
  }

  /** The size reported for a bucket and the sizes spared make up the sizes of all its
      objects whose tag is repeated. */
  lemma SizesCount(objects: seq<Object>, g: seq<Group>, ks: seq<Key>, b: string)
    requires GroupsAnswer(objects, g, ks)
    ensures Wanted(g, b).size + Spared(g, b) == SizeIn(ByTagAndSize(objects), RepeatedKeys(objects), b)
  {
    WantedSizes(ByTagAndSize(objects), g, ks, b);
    GroupsAddUp(ByTagAndSize(objects), ks, b);
  }

  /** Another object, of any bucket, has the same tag. */
  predicate HasTwin(objects: seq<Object>, i: int)
    requires 0 <= i < |objects|
  {
    exists j :: 0 <= j < |objects| && j != i && objects[j].tag == objects[i].tag
  }

  /** What is counted for a bucket are exactly its objects that share their tag with another
      object of any bucket. */
  lemma RepeatedCounted(objects: seq<Object>, b: string)
    ensures RepeatedIn(objects, b) == |(set i | 0 <= i < |objects| && objects[i].bucket == b && HasTwin(objects, i))|
  {
    var rows, ks := ByTagAndSize(objects), RepeatedKeys(objects);
    CountsPositions(rows, ks, b);
    forall i | 0 <= i < |objects| ensures rows[i].key in ks <==> HasTwin(objects, i) { TwinByKey(objects, i); }
    hide HasTwin, RepeatedKeys;
    assert Positions(rows, ks, b) == set i | 0 <= i < |objects| && objects[i].bucket == b && HasTwin(objects, i);
  }

  lemma TwinByKey(objects: seq<Object>, i: nat)
    requires i < |objects|
    ensures Key(objects[i].tag, objects[i].size) in RepeatedKeys(objects) <==> HasTwin(objects, i)
  {
    AnotherOne(objects, i);
    hide Repeated, HasTwin;
    var key := Key(objects[i].tag, objects[i].size);
    if key in RepeatedKeys(objects) {
      var k :| 0 <= k < |objects| && Repeated(objects, objects[k].tag) && Key(objects[k].tag, objects[k].size) == key;
      assert objects[k].tag == objects[i].tag;
    }
  }

  lemma AnotherOne(objects: seq<Object>, i: nat)
    requires i < |objects|
    ensures Repeated(objects, objects[i].tag) <==> HasTwin(objects, i)
  {
    if HasTwin(objects, i) {
      var j :| 0 <= j < |objects| && j != i && objects[j].tag == objects[i].tag;
      assert j < i || i < j;
    }
    if Repeated(objects, objects[i].tag) {
      var x, y :| 0 <= x < y < |objects| && objects[x].tag == objects[i].tag && objects[y].tag == objects[i].tag;
      assert x != i || y != i;
    }
  }

  /** Object by object: those whose tag is repeated, in whatever bucket. */
  function AllRepeated(rows: seq<Keyed<Key>>, ks: set<Key>): nat {
    if rows == [] then 0 else (if rows[0].key in ks then 1 else 0) + AllRepeated(rows[1..], ks)
  }

  function SumOver(rows: seq<Keyed<Key>>, ks: set<Key>, buckets: seq<string>): nat {
    if buckets == [] then 0 else CntIn(rows, ks, buckets[0]) + SumOver(rows, ks, buckets[1..])
  }

  /** When every bucket is listed once, the buckets' numbers add up to the number of objects
      with a repeated tag. */
  lemma {:induction false} BucketsAddUp(rows: seq<Keyed<Key>>, ks: set<Key>, buckets: seq<string>)
    requires Distinct(buckets) && forall i :: 0 <= i < |rows| ==> rows[i].bucket in buckets
    ensures SumOver(rows, ks, buckets) == AllRepeated(rows, ks)
  {
    if rows == [] {
      NoRows(ks, buckets);
    } else {
      BucketsAddUp(rows[1..], ks, buckets);
      OneMoreRow(rows, ks, buckets);
    }
  }

  lemma {:induction false} NoRows(ks: set<Key>, buckets: seq<string>)
    ensures SumOver([], ks, buckets) == 0
  {
    if buckets != [] { NoRows(ks, buckets[1..]); }
  }

  lemma {:induction false} OneMoreRow(rows: seq<Keyed<Key>>, ks: set<Key>, buckets: seq<string>)
    requires rows != [] && Distinct(buckets)
    ensures SumOver(rows, ks, buckets) ==
              SumOver(rows[1..], ks, buckets) + if rows[0].key in ks && rows[0].bucket in buckets then 1 else 0
  {
    if buckets != [] { OneMoreRow(rows, ks, buckets[1..]); }
  }

  /** Object by object, over the given ones: those whose tag is repeated among all. */
  function RepeatedAmong(objects: seq<Object>, all: seq<Object>): nat {
    if objects == [] then 0 else (if Repeated(all, objects[0].tag) then 1 else 0) + RepeatedAmong(objects[1..], all)
  }

  lemma {:induction false} KeysTell(objects: seq<Object>, all: seq<Object>)
    requires forall i :: 0 <= i < |objects| ==> objects[i] in all
    ensures AllRepeated(ByTagAndSize(objects), RepeatedKeys(all)) == RepeatedAmong(objects, all)
  {
    if objects != [] {
      assert ByTagAndSize(objects)[1..] == ByTagAndSize(objects[1..]);
      KeysTell(objects[1..], all);
      var i :| 0 <= i < |all| && all[i] == objects[0];
      var k := Key(objects[0].tag, objects[0].size);
      if Repeated(all, all[i].tag) { assert k in RepeatedKeys(all); }
    }
  }

  /** When every bucket is listed once, the buckets' numbers of objects with duplicates add
      up to the number of objects whose tag is repeated. */
  lemma DuplicatesAddUp(objects: seq<Object>, buckets: seq<string>)
    requires Distinct(buckets) && forall i :: 0 <= i < |objects| ==> objects[i].bucket in buckets
    ensures SumOver(ByTagAndSize(objects), RepeatedKeys(objects), buckets) == RepeatedAmong(objects, objects)
  {
    BucketsAddUp(ByTagAndSize(objects), RepeatedKeys(objects), buckets);
    KeysTell(objects, objects);
  }
}
