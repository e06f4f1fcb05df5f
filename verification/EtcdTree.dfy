/** The etcd client: nested structures written to, read from and merged into a store of
    keys. A key is the list of its components. */
module EtcdTree {
  import opened Wrappers

  type Path = seq<string>
  type Store = map<Path, string>

  /** A nested structure: a value or a dict. */
  datatype Tree = Leaf(value: string) | Dict(kids: map<string, Tree>)

  function Get(t: Tree, p: Path): Option<string> {
    if p == [] then (if t.Leaf? then Some(t.value) else None)
    else if t.Dict? && p[0] in t.kids then Get(t.kids[p[0]], p[1..])
    else None
  }

  function Look(s: Store, p: Path): Option<string> { if p in s then Some(s[p]) else None }

  predicate Under(base: Path, p: Path) { base <= p }

  /** A path under the base, without it. */
  function Rest(base: Path, p: Path): Path
    requires Under(base, p)
  {
    p[|base|..]
  }

  /** No dict in it is empty. */
  ghost predicate Full(t: Tree) {
    match t
    case Leaf(_) => true
    case Dict(kids) => kids != map[] && forall k :: k in kids ==> Full(kids[k])
  }

  /** Directories and values do not mix: no key lies below another. */
  predicate TreeShaped(s: Store) { forall p, q :: p in s && q in s && p <= q ==> p == q }

  lemma {:induction false} SomeLeaf(t: Tree) returns (p: Path)
    requires Full(t)
    ensures Get(t, p).Some?
    decreases t
  {
    match t
    case Leaf(_) => p := [];
    case Dict(kids) =>
      var k :| k in kids;
      var q := SomeLeaf(kids[k]);
      p := [k] + q;
      assert p[1..] == q;
  }

  /** A structure without empty dicts is determined by its values. */
  lemma {:induction false} SameValuesSameTree(a: Tree, b: Tree)
    requires Full(a) && Full(b) && forall p :: Get(a, p) == Get(b, p)
    ensures a == b
    decreases a
  {
    assert Get(a, []) == Get(b, []);
    if a.Dict? {
      KidsIncluded(a, b);
      KidsIncluded(b, a);
      forall k | k in a.kids ensures a.kids[k] == b.kids[k] {
        forall p ensures Get(a.kids[k], p) == Get(b.kids[k], p) {
          assert ([k] + p)[1..] == p;
          assert Get(a, [k] + p) == Get(b, [k] + p);
        }
        SameValuesSameTree(a.kids[k], b.kids[k]);
      }
      assert a.kids == b.kids;
    }
  }

  lemma KidsIncluded(a: Tree, b: Tree)
    requires a.Dict? && b.Dict? && Full(a) && forall p :: Get(a, p) == Get(b, p)
    ensures forall k :: k in a.kids ==> k in b.kids
  {
    forall k | k in a.kids ensures k in b.kids {
      var q := SomeLeaf(a.kids[k]);
      assert ([k] + q)[1..] == q;
      assert Get(a, [k] + q) == Get(b, [k] + q);
    }
  }

  // --- what the operations do to the store --------------------------------------------

  /** After a structure was written below a branch: its values are there, everything else is
      as before. */
  ghost predicate Wrote(before: Store, after: Store, branch: Path, t: Tree) {
    forall p :: Look(after, p) ==
      if Under(branch, p) && Get(t, Rest(branch, p)).Some? then Get(t, Rest(branch, p)) else Look(before, p)
  }

  /** A structure read from a branch holds exactly the values below it. */
  ghost predicate ReadAs(s: Store, branch: Path, t: Tree) { Full(t) && forall p :: Get(t, p) == Look(s, branch + p) }

  ghost predicate EmptyBelow(s: Store, branch: Path) { forall p :: p in s ==> !Under(branch, p) }

  /** Reading a branch after writing a structure of non-empty dicts onto it, when it was
      empty, returns that structure. */
  lemma RoundTrip(before: Store, after: Store, branch: Path, t: Tree, read: Tree)
    requires EmptyBelow(before, branch) && Full(t) && Wrote(before, after, branch, t) && ReadAs(after, branch, read)
    ensures read == t
  {
    forall p ensures Get(read, p) == Get(t, p) {
      var full := branch + p;
      assert Under(branch, full) && Rest(branch, full) == p;
      assert Look(after, full) == if Get(t, p).Some? then Get(t, p) else Look(before, full);
    }
    SameValuesSameTree(read, t);
  }

  /** After an update: values the structure names stay if they were there and are added if
      not; values it does not name go, except those under names that are absent from its top
      level when extra keys are to stay there. */
  ghost predicate Merged(before: Store, after: Store, base: Path, t: Tree, removeKeys: bool) {
    forall p :: Look(after, p) == MergedAt(before, base, t, removeKeys, p)
  }

  function MergedAt(before: Store, base: Path, t: Tree, removeKeys: bool, p: Path): Option<string> {
    if !Under(base, p) || p == base then Look(before, p)
    else
      var r := Rest(base, p);
      if Get(t, r).Some? then (if p in before then Look(before, p) else Get(t, r))
      else if removeKeys || (t.Dict? && r[0] in t.kids) then None
      else Look(before, p)
  }

  /** Updating twice with the same structure is updating once. */
  lemma UpdateTwice(a: Store, b: Store, c: Store, base: Path, t: Tree, removeKeys: bool)
    requires Merged(a, b, base, t, removeKeys) && Merged(b, c, base, t, removeKeys)
    ensures c == b
  {
    forall p ensures Look(c, p) == Look(b, p) {
      assert Look(c, p) == MergedAt(b, base, t, removeKeys, p);
      assert Look(b, p) == MergedAt(a, base, t, removeKeys, p);
    }
    assert forall p :: p in c <==> Look(c, p).Some?;
    assert forall p :: p in b <==> Look(b, p).Some?;
    forall p | p in c ensures p in b && c[p] == b[p] { assert Look(c, p) == Look(b, p); }
    forall p | p in b ensures p in c { assert Look(c, p) == Look(b, p); }
  }

  /** What an update means for single values: those the structure names stay or are added,
      those it does not name go, except, when extra keys may stay, under names that are not
      in its top level; and nothing changes outside. */
  lemma UpdateKeeps(before: Store, after: Store, base: Path, t: Tree, removeKeys: bool, p: Path)
    requires Merged(before, after, base, t, removeKeys)
    ensures p != [] && Get(t, p).Some? && base + p in before ==> Look(after, base + p) == Look(before, base + p)
    ensures p != [] && Get(t, p).Some? && base + p !in before ==> Look(after, base + p) == Get(t, p)
    ensures p != [] && !removeKeys && t.Dict? && p[0] !in t.kids ==> Look(after, base + p) == Look(before, base + p)
    ensures p != [] && (removeKeys || (t.Dict? && p[0] in t.kids)) && Get(t, p).None? ==> base + p !in after
    ensures p == base || !(base <= p) ==> Look(after, p) == Look(before, p)
  {
    assert p != [] ==> Under(base, base + p) && Rest(base, base + p) == p;
    assert Look(after, base + p) == MergedAt(before, base, t, removeKeys, base + p);
    assert Look(after, p) == MergedAt(before, base, t, removeKeys, p);
  }

  /** The structure and what is stored agree on which keys are directories. */
  ghost predicate Fits(s: Store, base: Path, t: Tree)
    decreases t
  {
    match t
    case Leaf(_) => forall p :: p in s && base <= p ==> p == base
    case Dict(kids) => base !in s && forall k :: k in kids ==> Fits(s, base + [k], kids[k])
  }

  lemma {:induction false} FitsStill(s: Store, s': Store, base: Path, t: Tree)
    requires Fits(s, base, t) && forall p :: base <= p ==> Look(s', p) == Look(s, p)
    ensures Fits(s', base, t)
    decreases t
  {
    assert Look(s', base) == Look(s, base);
    match t
    case Leaf(_) =>
      forall p | p in s' && base <= p ensures p == base { assert Look(s', p) == Look(s, p); }
    case Dict(kids) =>
      forall k | k in kids ensures Fits(s', base + [k], kids[k]) {
        FitsStill(s, s', base + [k], kids[k]);
      }
  }

  /** No value sits at the key or above it. */
  ghost predicate Open(s: Store, key: Path) { forall p :: p in s ==> !(p <= key) }

  /** Values the structure has below one of some names. */
  predicate Named(base: Path, names: set<string>, p: Path) {
    base <= p && |p| > |base| && p[|base|] in names
  }

  /** The part of a write that concerns some names. */
  ghost predicate WroteSome(before: Store, after: Store, branch: Path, t: Tree, done: set<string>) {
    forall p :: Look(after, p) ==
      if Named(branch, done, p) && Get(t, Rest(branch, p)).Some? then Get(t, Rest(branch, p)) else Look(before, p)
  }

  /** Writing one more name. */
  lemma WroteMore(before: Store, mid: Store, after: Store, branch: Path, t: Tree, done: set<string>, k: string)
    requires t.Dict? && k in t.kids && k !in done && WroteSome(before, mid, branch, t, done)
    requires Wrote(mid, after, branch + [k], t.kids[k])
    ensures WroteSome(before, after, branch, t, done + {k})
  {
    forall p ensures Look(after, p) ==
        if Named(branch, done + {k}, p) && Get(t, Rest(branch, p)).Some? then Get(t, Rest(branch, p)) else Look(before, p)
    {
      assert Look(mid, p) ==
        if Named(branch, done, p) && Get(t, Rest(branch, p)).Some? then Get(t, Rest(branch, p)) else Look(before, p);
      assert Look(after, p) ==
        if Under(branch + [k], p) && Get(t.kids[k], Rest(branch + [k], p)).Some? then Get(t.kids[k], Rest(branch + [k], p))
        else Look(mid, p);
      BelowName(branch, k, p);
      if Under(branch + [k], p) { assert Get(t, Rest(branch, p)) == Get(t.kids[k], Rest(branch + [k], p)); }
    }
  }

  lemma BelowName(base: Path, k: string, p: Path)
    ensures base + [k] <= p <==> Named(base, {k}, p)
    ensures base + [k] <= p ==> Rest(base, p) == [k] + Rest(base + [k], p) && Rest(base, p)[1..] == Rest(base + [k], p)
  {
    if base <= p && |p| > |base| && p[|base|] == k {
      assert p[..|base|+1] == base + [k];
    }
  }

  /** What is below one name is as before, as long as others were written. */
  lemma NameUntouched(before: Store, mid: Store, branch: Path, t: Tree, done: set<string>, k: string)
    requires WroteSome(before, mid, branch, t, done) && k !in done
    ensures forall p :: branch + [k] <= p ==> Look(mid, p) == Look(before, p)
  {
    forall p | branch + [k] <= p ensures Look(mid, p) == Look(before, p) { BelowName(branch, k, p); }
  }

  lemma StillOpen(before: Store, mid: Store, branch: Path, t: Tree, done: set<string>)
    requires WroteSome(before, mid, branch, t, done) && Open(before, branch)
    ensures Open(mid, branch)
  {
    forall p | p in mid ensures !(p <= branch) {
      assert Look(mid, p).Some?;
      assert !(p <= branch && Named(branch, done, p));
    }
  }

  lemma OpenBelow(s: Store, branch: Path, k: string, t: Tree)
    requires Open(s, branch) && Fits(s, branch + [k], t)
    ensures t.Dict? ==> Open(s, branch + [k])
    ensures t.Leaf? ==> forall p :: p in s && (p <= branch + [k] || branch + [k] <= p) ==> p == branch + [k]
  {
    forall p | p in s ensures p <= branch + [k] ==> p == branch + [k] { AboveName(p, branch, k); }
  }

  lemma AboveName(p: Path, branch: Path, k: string)
    ensures p <= branch + [k] ==> p <= branch || p == branch + [k]
  {
    if p <= branch + [k] && |p| <= |branch| { assert (branch + [k])[..|p|] == branch[..|p|]; }
  }

  lemma WroteValue(before: Store, key: Path, value: string)
    ensures Wrote(before, before[key := value], key, Leaf(value))
  {
    forall p ensures Under(key, p) && Rest(key, p) == [] <==> p == key {
      if Under(key, p) && Rest(key, p) == [] { assert p == key + Rest(key, p); }
    }
  }

  lemma AllWritten(before: Store, after: Store, branch: Path, t: Tree)
    requires t.Dict? && WroteSome(before, after, branch, t, t.kids.Keys)
    ensures Wrote(before, after, branch, t)
  {
    forall p ensures Look(after, p) ==
        if Under(branch, p) && Get(t, Rest(branch, p)).Some? then Get(t, Rest(branch, p)) else Look(before, p)
    {
      assert Under(branch, p) && Get(t, Rest(branch, p)).Some? ==> Named(branch, t.kids.Keys, p);
    }
  }

  // --- merging name by name ---------------------------------------------------------------

  /** An update of which some names are done: extra names are pruned, names done are merged. */
  ghost predicate MergedSome(before: Store, after: Store, base: Path, t: Tree, removeKeys: bool, done: set<string>)
    requires t.Dict?
  {
    forall p :: Look(after, p) == MergedSomeAt(before, base, t, removeKeys, done, p)
  }

  function MergedSomeAt(before: Store, base: Path, t: Tree, removeKeys: bool, done: set<string>, p: Path): Option<string>
    requires t.Dict?
  {
    if Named(base, t.kids.Keys - done, p) then Look(before, p) else MergedAt(before, base, t, removeKeys, p)
  }

  lemma Pruned(before: Store, after: Store, base: Path, t: Tree, removeKeys: bool, children: set<string>)
    requires t.Dict? && Listed(before, base, children)
    requires if removeKeys then forall p :: Look(after, p) == (if Named(base, children - t.kids.Keys, p) then None else Look(before, p))
             else after == before
    ensures MergedSome(before, after, base, t, removeKeys, {})
  {
    forall p ensures Look(after, p) == MergedSomeAt(before, base, t, removeKeys, {}, p) {
      if base <= p && p != base {
        var k := p[|base|];
        BelowName(base, k, p);
        assert p in before ==> k in children;
        assert Rest(base, p)[0] == k;
      }
    }
  }

  /** The names are those right below the key. */
  ghost predicate Listed(s: Store, base: Path, names: set<string>) {
    forall k :: k in names <==> exists p :: p in s && base + [k] <= p
  }

  ghost predicate Untouched(before: Store, mid: Store, key: Path) { forall p :: key <= p ==> Look(mid, p) == Look(before, p) }

  /** What the next name finds. */
  lemma ReadyForName(before: Store, mid: Store, base: Path, t: Tree, removeKeys: bool, done: set<string>, k: string,
                     children: set<string>)
    requires t.Dict? && MergedSome(before, mid, base, t, removeKeys, done) && k in t.kids && k !in done
    requires Open(before, base) && Fits(before, base, t)
    requires Listed(before, base, children)
    ensures Open(mid, base) && Untouched(before, mid, base + [k])
    ensures Fits(before, base + [k], t.kids[k]) && Fits(mid, base + [k], t.kids[k])
    ensures k in t.kids.Keys - children <==> EmptyBelow(mid, base + [k])
    ensures EmptyBelow(mid, base + [k]) <==> EmptyBelow(before, base + [k])
  {
    UnmergedYet(before, mid, base, t, removeKeys, done, k);
    FitsStill(before, mid, base + [k], t.kids[k]);
    assert k in children <==> exists p :: p in before && Under(base + [k], p);
  }

  lemma UnmergedYet(before: Store, mid: Store, base: Path, t: Tree, removeKeys: bool, done: set<string>, k: string)
    requires t.Dict? && MergedSome(before, mid, base, t, removeKeys, done) && k in t.kids && k !in done
    requires Open(before, base)
    ensures forall p :: base + [k] <= p ==> Look(mid, p) == Look(before, p)
    ensures Open(mid, base) && (EmptyBelow(mid, base + [k]) <==> EmptyBelow(before, base + [k]))
  {
    forall p | base + [k] <= p ensures Look(mid, p) == Look(before, p) {
      BelowName(base, k, p);
      assert Look(mid, p) == MergedSomeAt(before, base, t, removeKeys, done, p);
    }
    forall p | p in mid ensures !(p <= base) {
      assert Look(mid, p) == MergedSomeAt(before, base, t, removeKeys, done, p);
      assert p <= base ==> Look(mid, p) == Look(before, p);
    }
    if EmptyBelow(before, base + [k]) {
      forall p | p in mid ensures !Under(base + [k], p) { assert Under(base + [k], p) ==> Look(mid, p) == Look(before, p); }
    }
    if EmptyBelow(mid, base + [k]) {
      forall p | p in before ensures !Under(base + [k], p) { assert Under(base + [k], p) ==> Look(mid, p) == Look(before, p); }
    }
  }

  lemma MergedMore(before: Store, mid: Store, after: Store, base: Path, t: Tree, removeKeys: bool, done: set<string>,
                   k: string)
    requires t.Dict? && MergedSome(before, mid, base, t, removeKeys, done) && k in t.kids && k !in done
    requires Untouched(before, mid, base + [k])
    requires Fits(before, base + [k], t.kids[k])
    requires if EmptyBelow(before, base + [k]) then Wrote(mid, after, base + [k], t.kids[k])
             else if t.kids[k].Dict? then Merged(mid, after, base + [k], t.kids[k], true)
             else after == mid
    ensures MergedSome(before, after, base, t, removeKeys, done + {k})
  {
    forall p ensures Look(after, p) == MergedSomeAt(before, base, t, removeKeys, done + {k}, p) {
      assert Look(mid, p) == MergedSomeAt(before, base, t, removeKeys, done, p);
      BelowName(base, k, p);
      if base + [k] <= p {
        OneNameMerged(before, mid, after, base, t, removeKeys, k, p);
      } else {
        assert Look(after, p) == Look(mid, p);
      }
    }
  }

  lemma OneNameMerged(before: Store, mid: Store, after: Store, base: Path, t: Tree, removeKeys: bool, k: string, p: Path)
    requires t.Dict? && k in t.kids && base + [k] <= p && Look(mid, p) == Look(before, p)
    requires Fits(before, base + [k], t.kids[k])
    requires if EmptyBelow(before, base + [k]) then Wrote(mid, after, base + [k], t.kids[k])
             else if t.kids[k].Dict? then Merged(mid, after, base + [k], t.kids[k], true)
             else after == mid
    ensures Look(after, p) == MergedAt(before, base, t, removeKeys, p)
  {
    BelowName(base, k, p);
    var r, sub := Rest(base, p), Rest(base + [k], p);
    assert Get(t, r) == Get(t.kids[k], sub);
    if EmptyBelow(before, base + [k]) {
      assert Under(base + [k], p);
      assert Look(after, p) == if Get(t.kids[k], sub).Some? then Get(t.kids[k], sub) else Look(mid, p);
    } else if t.kids[k].Dict? {
      assert Look(after, p) == MergedAt(mid, base + [k], t.kids[k], true, p);
      if p == base + [k] {
        assert p !in before;
      } else {
        assert p in mid <==> p in before;
      }
    } else {
      ValueThere(before, base + [k], t.kids[k], p);
    }
  }

  /** Where a value is meant and something is stored, it is that value and nothing else. */
  lemma ValueThere(s: Store, key: Path, t: Tree, p: Path)
    requires t.Leaf? && Fits(s, key, t) && !EmptyBelow(s, key) && key <= p
    ensures key in s && (p != key ==> p !in s)
    ensures Get(t, Rest(key, p)).Some? <==> p == key
  {
    var q :| q in s && Under(key, q);
    assert q == key;
    assert p == key + Rest(key, p);
  }

  lemma AllMerged(before: Store, after: Store, base: Path, t: Tree, removeKeys: bool)
    requires t.Dict? && MergedSome(before, after, base, t, removeKeys, t.kids.Keys)
    ensures Merged(before, after, base, t, removeKeys)
  {
    forall p ensures Look(after, p) == MergedAt(before, base, t, removeKeys, p) {
      assert Look(after, p) == MergedSomeAt(before, base, t, removeKeys, t.kids.Keys, p);
    }
  }

  /** Nothing stored below a key is in the way of any structure. */
  lemma {:induction false} EmptyFits(s: Store, branch: Path, t: Tree)
    requires EmptyBelow(s, branch)
    ensures Fits(s, branch, t)
    decreases t
  {
    assert Under(branch, branch);
    match t
    case Leaf(_) => assert forall p :: p in s ==> !Under(branch, p);
    case Dict(kids) =>
      forall k | k in kids ensures Fits(s, branch + [k], kids[k]) {
        forall p | p in s ensures !Under(branch + [k], p) {
          assert !Under(branch, p);
          assert branch + [k] <= p ==> branch <= p;
        }
        EmptyFits(s, branch + [k], kids[k]);
      }
  }

  function Sub(t: Tree, q: Path): Option<Tree> {
    if q == [] then Some(t) else if t.Dict? && q[0] in t.kids then Sub(t.kids[q[0]], q[1..]) else None
  }

  lemma {:induction false} SubValues(t: Tree, q: Path, x: Path)
    requires Sub(t, q).Some?
    ensures Get(t, q + x) == Get(Sub(t, q).value, x)
    decreases |q|
  {
    if q == [] {
      assert q + x == x;
    } else {
      assert (q + x)[0] == q[0] && (q + x)[1..] == q[1..] + x;
      SubValues(t.kids[q[0]], q[1..], x);
    }
  }

  lemma {:induction false} SubSnoc(t: Tree, q: Path, k: string)
    requires Sub(t, q).Some? && Sub(t, q).value.Dict? && k in Sub(t, q).value.kids
    ensures Sub(t, q + [k]) == Some(Sub(t, q).value.kids[k])
    decreases |q|
  {
    if q == [] {
      assert q + [k] == [k] && [k][1..] == [];
    } else {
      assert (q + [k])[0] == q[0] && (q + [k])[1..] == q[1..] + [k];
      SubSnoc(t.kids[q[0]], q[1..], k);
    }
  }

  /** After an update the structure still fits, so the update can be repeated. */
  lemma {:induction false} MergedFits(before: Store, after: Store, base: Path, t: Tree, removeKeys: bool, q: Path, sub: Tree)
    requires t.Dict? && base !in before && Merged(before, after, base, t, removeKeys) && Sub(t, q) == Some(sub)
    ensures Fits(after, base + q, sub)
    decreases sub
  {
    match sub
    case Leaf(_) =>
      forall p | p in after && base + q <= p ensures p == base + q {
        var x := p[|base| + |q|..];
        assert p == base + (q + x);
        SubValues(t, q, x);
        assert Look(after, p) == MergedAt(before, base, t, removeKeys, p);
        assert Rest(base, p) == q + x;
        assert x != [] ==> Get(t, q + x).None?;
      }
    case Dict(kids) =>
      assert Look(after, base + q) == MergedAt(before, base, t, removeKeys, base + q);
      SubValues(t, q, []);
      assert q + [] == q && Rest(base, base + q) == q && (q == [] ==> base + q == base);
      forall k | k in kids ensures Fits(after, base + q + [k], kids[k]) {
        SubSnoc(t, q, k);
        assert base + q + [k] == base + (q + [k]);
        MergedFits(before, after, base, t, removeKeys, q + [k], kids[k]);
      }
  }

  // --- building nested dicts from leaves ---------------------------------------------------

  /** No value of the dict lies on the way to the new one, and the new one hides none. */
  predicate CanInsert(t: Tree, parts: Path) {
    parts != [] && t.Dict? && (parts[0] in t.kids ==> |parts| > 1 && CanInsert(t.kids[parts[0]], parts[1..]))
  }

  /** Walks down the dicts, adding the missing ones, and puts the value at the end. */
  function Insert(t: Tree, parts: Path, value: string): Tree
    requires CanInsert(t, parts)
    decreases |parts|
  {
    var k := parts[0];
    if |parts| == 1 then Dict(t.kids[k := Leaf(value)])
    else if k in t.kids then Dict(t.kids[k := Insert(t.kids[k], parts[1..], value)])
    else Dict(t.kids[k := Insert(Dict(map[]), parts[1..], value)])
  }

  /** Every dict below the top has something in it. */
  ghost predicate FullBelow(t: Tree) { t.Dict? && forall k :: k in t.kids ==> Full(t.kids[k]) }

  lemma {:induction false} InsertIs(t: Tree, parts: Path, value: string)
    requires CanInsert(t, parts) && FullBelow(t)
    ensures var r := Insert(t, parts, value);
            && FullBelow(r) && r.kids != map[]
            && forall p :: Get(r, p) == if p == parts then Some(value) else Get(t, p)
    decreases |parts|
  {
    var k, rest := parts[0], parts[1..];
    var r := Insert(t, parts, value);
    assert k in r.kids;
    if |parts| > 1 {
      var sub := if k in t.kids then t.kids[k] else Dict(map[]);
      InsertIs(sub, rest, value);
      forall p ensures Get(r, p) == if p == parts then Some(value) else Get(t, p) {
        if p != [] && p[0] == k {
          assert p == [k] + p[1..] && parts == [k] + rest;
          assert Get(sub, p[1..]) == Get(t, p);
        }
      }
    } else {
      forall p ensures Get(r, p) == if p == parts then Some(value) else Get(t, p) {
        if p != [] && p[0] == k { assert p == [k] + p[1..]; }
      }
    }
  }

  /** The dict holds exactly the given keys of the branch. */
  ghost predicate ReadSome(s: Store, branch: Path, done: set<Path>, t: Tree) {
    && FullBelow(t) && (done != {} ==> t.kids != map[])
    && forall p :: Get(t, p) == if branch + p in done && branch + p in s then Some(s[branch + p]) else None
  }

  /** A tree-shaped store never puts a value in the way of another. */
  lemma {:induction false} NothingInTheWay(t: Tree, parts: Path)
    requires FullBelow(t) && parts != []
    requires forall p :: Get(t, p).Some? ==> !(p <= parts) && !(parts <= p)
    ensures CanInsert(t, parts)
    decreases |parts|
  {
    var k := parts[0];
    if k in t.kids {
      var sub, rest := t.kids[k], parts[1..];
      assert parts == [k] + rest;
      forall p | Get(sub, p).Some? ensures !(p <= rest) && !(rest <= p) {
        assert ([k] + p)[1..] == p;
        assert Get(t, [k] + p) == Get(sub, p);
        assert p <= rest ==> [k] + p <= parts;
        assert rest <= p ==> parts <= [k] + p;
      }
      var q := SomeLeaf(sub);
      assert [] <= q && [] <= rest;
      assert sub.Leaf? ==> Get(sub, []).Some?;
      NothingInTheWay(sub, rest);
    }
  }

  lemma Insertable(s: Store, branch: Path, done: set<Path>, t: Tree, parts: Path)
    requires TreeShaped(s) && ReadSome(s, branch, done, t)
    requires branch + parts in s && branch + parts !in done && branch !in s
    ensures CanInsert(t, parts)
  {
    assert parts != [] by { assert parts == [] ==> branch + parts == branch; }
    forall p | Get(t, p).Some? ensures !(p <= parts) && !(parts <= p) {
      assert branch + p in done && branch + p in s;
      assert p <= parts ==> branch + p <= branch + parts;
      assert parts <= p ==> branch + parts <= branch + p;
    }
    NothingInTheWay(t, parts);
  }

  lemma InsertedOne(s: Store, branch: Path, done: set<Path>, t: Tree, parts: Path)
    requires ReadSome(s, branch, done, t) && CanInsert(t, parts) && branch + parts in s
    ensures ReadSome(s, branch, done + {branch + parts}, Insert(t, parts, s[branch + parts]))
  {
    InsertIs(t, parts, s[branch + parts]);
    forall p ensures branch + p == branch + parts <==> p == parts {
      if branch + p == branch + parts { assert p == (branch + p)[|branch|..] == (branch + parts)[|branch|..] == parts; }
    }
  }

  lemma AllRead(s: Store, branch: Path, nodes: set<Path>, t: Tree)
    requires ReadSome(s, branch, nodes, t) && nodes != {} && forall p :: p in nodes <==> p in s && branch <= p
    ensures ReadAs(s, branch, t)
  {
    forall p ensures Get(t, p) == Look(s, branch + p) { assert branch <= branch + p; }
  }

  // --- the client ------------------------------------------------------------------------

  class Client {
    var store: Store

    constructor ()
      ensures store == map[]
    {
      store := map[];
    }

    /** Writing below a value or onto a directory is refused by the store. */
    method Write(key: Path, value: string)
      requires TreeShaped(store) && forall p :: p in store && (p <= key || key <= p) ==> p == key
      modifies this
      ensures TreeShaped(store) && store == old(store)[key := value]
    {
      store := store[key := value];
    }

    method Delete(key: Path)
      modifies this
      ensures forall p :: Look(store, p) == if key <= p then None else old(Look(store, p))
      ensures old(TreeShaped(store)) ==> TreeShaped(store)
    {
      store := map p | p in store && !(key <= p) :: store[p];
    }

    /** The names right below a key. */
    method Children(base: Path) returns (names: set<string>)
      ensures Listed(store, base, names)
    {
      names := set p | p in store && base <= p && |p| > |base| :: p[|base|];
      forall k ensures k in names <==> exists p :: p in store && base + [k] <= p {
        if k in names {
          var p :| p in store && base <= p && |p| > |base| && p[|base|] == k;
          assert base + [k] <= p;
        }
        if exists p :: p in store && base + [k] <= p {
          var p :| p in store && base + [k] <= p;
          assert base <= p && p[|base|] == k;
        }
      }
    }

    /** Writes a structure below a branch, name by name. */
    method WriteBranch(branch: Path, structure: Tree)
      requires structure.Dict? && TreeShaped(store) && Open(store, branch) && Fits(store, branch, structure)
      modifies this
      ensures TreeShaped(store) && Wrote(old(store), store, branch, structure)
      decreases structure
    {
      var left := structure.kids.Keys;
      ghost var before, done := store, {};
      while left != {}
        invariant left <= structure.kids.Keys && done == structure.kids.Keys - left
        invariant TreeShaped(store) && WroteSome(before, store, branch, structure, done)
        decreases left
      {
        var key :| key in left;
        left := left - {key};
        ghost var mid := store;
        NameUntouched(before, mid, branch, structure, done, key);
        StillOpen(before, mid, branch, structure, done);
        FitsStill(before, mid, branch + [key], structure.kids[key]);
        WriteName(branch, key, structure);
        WroteMore(before, mid, store, branch, structure, done, key);
        done := done + {key};
      }
      AllWritten(before, store, branch, structure);
    }

    method WriteName(branch: Path, key: string, structure: Tree)
      requires structure.Dict? && key in structure.kids && TreeShaped(store) && Open(store, branch)
      requires Fits(store, branch + [key], structure.kids[key])
      modifies this
      ensures TreeShaped(store) && Wrote(old(store), store, branch + [key], structure.kids[key])
      decreases structure, 0
    {
      var fullKey := branch + [key];
      OpenBelow(store, branch, key, structure.kids[key]);
      match structure.kids[key]
      case Dict(_) => WriteBranch(fullKey, structure.kids[key]);
      case Leaf(value) =>
        WroteValue(store, fullKey, value);
        Write(fullKey, value);
    }

    /** Reads a branch as nested dicts; a branch with nothing at or below it is not found,
        and a value in its place comes back under an empty name. */
    method ReadBranch(branch: Path) returns (r: Option<Tree>)
      requires TreeShaped(store)
      ensures r.None? <==> EmptyBelow(store, branch)
      ensures branch in store ==> r == Some(Dict(map["" := Leaf(store[branch])]))
      ensures r.Some? && branch !in store ==> r.value.Dict? && ReadAs(store, branch, r.value)
    {
      if branch in store {
        assert Under(branch, branch);
        return Some(Dict(map["" := Leaf(store[branch])]));
      }
      r := ReadBelow(branch);
    }

    method ReadBelow(branch: Path) returns (r: Option<Tree>)
      requires TreeShaped(store) && branch !in store
      ensures r.None? <==> EmptyBelow(store, branch)
      ensures r.Some? ==> r.value.Dict? && ReadAs(store, branch, r.value)
    {
      var nodes := set p | p in store && branch <= p;
      if nodes == {} {
        assert forall p :: p in store && branch <= p ==> p in nodes;
        return None;
      }
      var res, left := Dict(map[]), nodes;
      ghost var done: set<Path> := {};
      while left != {}
        invariant left <= nodes && done == nodes - left && res.Dict?
        invariant ReadSome(store, branch, done, res)
        decreases left
      {
        var p :| p in left;
        left := left - {p};
        var parts := p[|branch|..];
        assert branch + parts == p;
        Insertable(store, branch, done, res, parts);
        InsertedOne(store, branch, done, res, parts);
        res := Insert(res, parts, store[p]);
        done := done + {p};
      }
      assert exists p :: p in nodes;
      AllRead(store, branch, nodes, res);
      return Some(res);
    }

    /** Merges a structure into what is stored below a key; a key with nothing below it is
        not found, and nothing changes. */
    method UpdateStructure(base: Path, structure: Tree, removeKeys: bool) returns (found: bool)
      requires structure.Dict? && TreeShaped(store) && Open(store, base) && Fits(store, base, structure)
      modifies this
      ensures found <==> !old(EmptyBelow(store, base))
      ensures TreeShaped(store)
      ensures if found then Merged(old(store), store, base, structure, removeKeys) else store == old(store)
      decreases structure, 2
    {
      found := Exists(base);
      if found { Merge(base, structure, removeKeys); }
    }

    method Exists(base: Path) returns (found: bool)
      ensures found <==> !EmptyBelow(store, base)
    {
      found := exists p :: p in store && base <= p;
      assert found <==> exists p :: p in store && Under(base, p);
    }

    method Merge(base: Path, structure: Tree, removeKeys: bool)
      requires structure.Dict? && TreeShaped(store) && Open(store, base) && Fits(store, base, structure)
      requires !EmptyBelow(store, base)
      modifies this
      ensures TreeShaped(store) && Merged(old(store), store, base, structure, removeKeys)
      decreases structure, 1
    {
      ghost var before, done: set<string> := store, {};
      var children := Prune(base, structure, removeKeys);
      var added := structure.kids.Keys - children;
      var left := structure.kids.Keys;
      hide *;
      while left != {}
        invariant left <= structure.kids.Keys && done == structure.kids.Keys - left
        invariant TreeShaped(store) && MergedSome(before, store, base, structure, removeKeys, done)
        decreases left
      {
        var key :| key in left;
        left := left - {key};
        ghost var mid := store;
        ReadyForName(before, mid, base, structure, removeKeys, done, key, children);
        UpdateName(base, key, structure, key in added);
        MergedMore(before, mid, store, base, structure, removeKeys, done, key);
        done := done + {key};
      }
      AllMerged(before, store, base, structure, removeKeys);
    }

    /** Lists the names below the key and removes the extra ones, if they are to go. */
    method Prune(base: Path, structure: Tree, removeKeys: bool) returns (children: set<string>)
      requires structure.Dict? && TreeShaped(store)
      modifies this
      ensures TreeShaped(store) && Listed(old(store), base, children)
      ensures MergedSome(old(store), store, base, structure, removeKeys, {})
    {
      children := Children(base);
      ghost var before := store;
      if removeKeys { RemoveNames(base, children - structure.kids.Keys); }
      Pruned(before, store, base, structure, removeKeys, children);
    }

    method RemoveNames(base: Path, removed: set<string>)
      requires TreeShaped(store)
      modifies this
      ensures TreeShaped(store)
      ensures forall p :: Look(store, p) == if Named(base, removed, p) then None else old(Look(store, p))
    {
      var left := removed;
      ghost var before := store;
      while left != {}
        invariant left <= removed && TreeShaped(store)
        invariant forall p :: Look(store, p) == if Named(base, removed - left, p) then None else Look(before, p)
        decreases left
      {
        var key :| key in left;
        left := left - {key};
        forall p ensures base + [key] <= p <==> Named(base, {key}, p) { BelowName(base, key, p); }
        Delete(base + [key]);
      }
    }

    method UpdateName(base: Path, key: string, structure: Tree, added: bool)
      requires structure.Dict? && key in structure.kids && TreeShaped(store) && Open(store, base)
      requires Fits(store, base + [key], structure.kids[key])
      requires added <==> EmptyBelow(store, base + [key])
      modifies this
      ensures TreeShaped(store)
      ensures if added then Wrote(old(store), store, base + [key], structure.kids[key])
              else if structure.kids[key].Dict? then Merged(old(store), store, base + [key], structure.kids[key], true)
              else store == old(store)
      decreases structure, 0
    {
      var fullKey := base + [key];
      OpenBelow(store, base, key, structure.kids[key]);
      match structure.kids[key]
      case Dict(_) =>
        if added {
          WriteBranch(fullKey, structure.kids[key]);
        } else {
          var found := UpdateStructure(fullKey, structure.kids[key], true);
        }
      case Leaf(value) =>
        if added {
          WroteValue(store, fullKey, value);
          Write(fullKey, value);
        }
    }
  }
}
