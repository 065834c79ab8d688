/**
 What the index means, on values: the tree that sequential AddAd and DeleteAd
 build (pkg/inmem/index.go), and what one lookup path sees of it.
 */
module IndexTree {
  import opened AdModel
  import opened Ranking

  type Path = seq<Value>

  datatype Tree = LeafTree(ads: seq<Ad>) | NodeTree(children: map<Value, Tree>)

  function EmptyTree(k: Option<Key>): Tree {
    if k.None? then LeafTree([]) else NodeTree(map[])
  }

  /** Four levels in key order, with ranked leaves. */
  ghost predicate Shaped(t: Tree, k: Option<Key>)
    decreases Depth(k)
  {
    match k
    case None => t.LeafTree? && Ranked(t.ads)
    case Some(key) => t.NodeTree? && ShapedChildren(t.children, key)
  }

  ghost predicate ShapedChildren(children: map<Value, Tree>, key: Key)
    decreases Depth(Some(key)), 0
  {
    forall v | v in children :: Shaped(children[v], Below(key))
  }

  function ChildOrEmpty(children: map<Value, Tree>, key: Key, v: Value): Tree {
    if v in children then children[v] else EmptyTree(Below(key))
  }

  /** AddAd: the ad goes under every one of its values, at every level. */
  ghost function Add(t: Tree, k: Option<Key>, ad: Ad): (r: Tree)
    requires Shaped(t, k) && Indexable(ad)
    ensures Shaped(r, k)
    decreases Depth(k)
  {
    match k
    case None => AddOrUpdateElems(t.ads, ad); LeafTree(AddOrUpdate(t.ads, ad))
    case Some(key) => NodeTree(AddEach(t.children, key, ad, ValuesByKey(ad, key)))
  }

  ghost function AddEach(children: map<Value, Tree>, key: Key, ad: Ad, vs: seq<Value>): (r: map<Value, Tree>)
    requires ShapedChildren(children, key) && Indexable(ad)
    ensures ShapedChildren(r, key)
    decreases Depth(Some(key)), |vs|
  {
    if vs == [] then children
    else
      var done := AddEach(children, key, ad, vs[..|vs| - 1]);
      var v := vs[|vs| - 1];
      done[v := Add(ChildOrEmpty(done, key, v), Below(key), ad)]
  }

  /** DeleteAd: the ad's id leaves every leaf under the ad's values that exists. */
  ghost function Del(t: Tree, k: Option<Key>, ad: Ad): (r: Tree)
    requires Shaped(t, k) && Indexable(ad)
    ensures Shaped(r, k)
    decreases Depth(k)
  {
    match k
    case None => RemoveElems(t.ads, ad.id); LeafTree(Remove(t.ads, ad.id))
    case Some(key) => NodeTree(DelEach(t.children, key, ad, ValuesByKey(ad, key)))
  }

  ghost function DelEach(children: map<Value, Tree>, key: Key, ad: Ad, vs: seq<Value>): (r: map<Value, Tree>)
    requires ShapedChildren(children, key) && Indexable(ad)
    ensures ShapedChildren(r, key)
    decreases Depth(Some(key)), |vs|
  {
    if vs == [] then children
    else
      var done := DelEach(children, key, ad, vs[..|vs| - 1]);
      var v := vs[|vs| - 1];
      if v in done then done[v := Del(done[v], Below(key), ad)] else done
  }

  /** The leaf at the end of a path; None where a child is missing. */
  function Find(t: Tree, p: Path): Option<seq<Ad>>
    decreases |p|
  {
    if p == [] then (if t.LeafTree? then Some(t.ads) else None)
    else if t.NodeTree? && p[0] in t.children then Find(t.children[p[0]], p[1..])
    else None
  }

  function At(t: Tree, p: Path): seq<Ad> {
    match Find(t, p) case Some(ads) => ads case None => []
  }

  /** The path GetAd walks from a node for `k`. */
  function RequestPath(req: Request, k: Option<Key>): Path
    decreases Depth(k)
  {
    match k
    case None => []
    case Some(key) => [RequestValue(req, key)] + RequestPath(req, Below(key))
  }

  /** The ad is indexed under every value of the path. */
  predicate Covers(ad: Ad, k: Option<Key>, p: Path)
    requires Indexable(ad)
    decreases Depth(k)
  {
    match k
    case None => p == []
    case Some(key) => p != [] && p[0] in ValuesByKey(ad, key) && Covers(ad, Below(key), p[1..])
  }

  lemma {:induction false} FindRanked(t: Tree, k: Option<Key>, p: Path)
    requires Shaped(t, k)
    ensures Ranked(At(t, p))
    ensures Find(t, p).Some? ==> |p| == Depth(k)
    decreases |p|
  {
    if p != [] && k.Some? && p[0] in t.children {
      FindRanked(t.children[p[0]], Below(k.value), p[1..]);
    }
  }

  lemma {:induction false} CoversLength(ad: Ad, k: Option<Key>, p: Path)
    requires Indexable(ad) && Covers(ad, k, p)
    ensures |p| == Depth(k)
    decreases Depth(k)
  {
    if k.Some? { CoversLength(ad, Below(k.value), p[1..]); }
  }

  /** The path of a request is covered by exactly the ads the request asks for. */
  lemma PathMeaning(ad: Ad, req: Request)
    requires Indexable(ad)
    ensures Covers(ad, Top, RequestPath(req, Top)) <==> Matches(ad, req)
  {
    AgeMeaning(ad, AgeValue(req.age));
    TextMeaning(ad.country, TextValue(req.country));
    TextMeaning(ad.platform, TextValue(req.platform));
    TextMeaning(ad.gender, TextValue(req.gender));
    var p := RequestPath(req, Top);
    var p1, p2, p3 := p[1..], p[1..][1..], p[1..][1..][1..];
    assert p1 == RequestPath(req, Some(Country));
    assert p2 == RequestPath(req, Some(Platform));
    assert p3 == RequestPath(req, Some(Gender)) && p3[1..] == [];
    assert Covers(ad, Some(Gender), p3) <==> TextValue(req.gender) in Texts(ad.gender);
    assert Covers(ad, Some(Platform), p2) <==> TextValue(req.platform) in Texts(ad.platform) && Covers(ad, Some(Gender), p3);
    assert Covers(ad, Some(Country), p1) <==> TextValue(req.country) in Texts(ad.country) && Covers(ad, Some(Platform), p2);
  }

  /** AddAd changes exactly the lookups the ad covers. */
  lemma {:induction false} AddFind(t: Tree, k: Option<Key>, ad: Ad, p: Path)
    requires Shaped(t, k) && Indexable(ad)
    ensures Find(Add(t, k, ad), p) ==
      if Covers(ad, k, p) then Some(AddOrUpdate(At(t, p), ad)) else Find(t, p)
    decreases Depth(k)
  {
    if k.Some? && p != [] {
      AddEachFind(t.children, k.value, ad, ValuesByKey(ad, k.value), p);
      assert NodeTree(t.children) == t;
    }
  }

  /** Only which values are walked matters: not their order, not their repetition. */
  lemma {:induction false} AddEachFind(children: map<Value, Tree>, key: Key, ad: Ad, vs: seq<Value>, p: Path)
    requires ShapedChildren(children, key) && Indexable(ad) && p != []
    ensures Find(NodeTree(AddEach(children, key, ad, vs)), p) ==
      if p[0] in vs && Covers(ad, Below(key), p[1..])
      then Some(AddOrUpdate(At(NodeTree(children), p), ad))
      else Find(NodeTree(children), p)
    decreases Depth(Some(key)), |vs|
  {
    if vs != [] {
      var init, v := vs[..|vs| - 1], vs[|vs| - 1];
      assert vs == init + [v];
      AddEachFind(children, key, ad, init, p);
      AddOneFind(AddEach(children, key, ad, init), key, ad, v, p);
      if p[0] in init {
        FindRanked(NodeTree(children), Some(key), p);
        UpdateIdempotent(At(NodeTree(children), p), ad);
      }
    }
  }

  lemma {:induction false} AddOneFind(children: map<Value, Tree>, key: Key, ad: Ad, v: Value, p: Path)
    requires ShapedChildren(children, key) && Indexable(ad) && p != []
    ensures Find(NodeTree(children[v := Add(ChildOrEmpty(children, key, v), Below(key), ad)]), p) ==
      if p[0] == v && Covers(ad, Below(key), p[1..])
      then Some(AddOrUpdate(At(NodeTree(children), p), ad))
      else Find(NodeTree(children), p)
    decreases Depth(Some(key)), 0
  {
    if p[0] == v {
      AddFind(ChildOrEmpty(children, key, v), Below(key), ad, p[1..]);
      ChildAt(children, key, p, ad);
    }
  }

  /** A missing child and a new empty one answer alike, off the paths about to be filled. */
  lemma ChildAt(children: map<Value, Tree>, key: Key, p: Path, ad: Ad)
    requires ShapedChildren(children, key) && Indexable(ad) && p != []
    ensures At(ChildOrEmpty(children, key, p[0]), p[1..]) == At(NodeTree(children), p)
    ensures !Covers(ad, Below(key), p[1..]) ==>
      Find(ChildOrEmpty(children, key, p[0]), p[1..]) == Find(NodeTree(children), p)
  {}

  lemma {:induction false} DelFind(t: Tree, k: Option<Key>, ad: Ad, p: Path)
    requires Shaped(t, k) && Indexable(ad)
    ensures Find(Del(t, k, ad), p) ==
      if Covers(ad, k, p) && Find(t, p).Some? then Some(Remove(At(t, p), ad.id)) else Find(t, p)
    decreases Depth(k)
  {
    if k.Some? && p != [] {
      DelEachFind(t.children, k.value, ad, ValuesByKey(ad, k.value), p);
      assert NodeTree(t.children) == t;
    }
  }

  lemma {:induction false} DelEachFind(children: map<Value, Tree>, key: Key, ad: Ad, vs: seq<Value>, p: Path)
    requires ShapedChildren(children, key) && Indexable(ad) && p != []
    ensures Find(NodeTree(DelEach(children, key, ad, vs)), p) ==
      if p[0] in vs && Covers(ad, Below(key), p[1..]) && Find(NodeTree(children), p).Some?
      then Some(Remove(At(NodeTree(children), p), ad.id))
      else Find(NodeTree(children), p)
    decreases Depth(Some(key)), |vs|
  {
    if vs != [] {
      var init, v := vs[..|vs| - 1], vs[|vs| - 1];
      assert vs == init + [v];
      DelEachFind(children, key, ad, init, p);
      DelOneFind(DelEach(children, key, ad, init), key, ad, v, p);
      FindRanked(NodeTree(children), Some(key), p);
      RemoveTwice(At(NodeTree(children), p), ad.id);
    }
  }

  lemma {:induction false} DelOneFind(children: map<Value, Tree>, key: Key, ad: Ad, v: Value, p: Path)
    requires ShapedChildren(children, key) && Indexable(ad) && p != []
    ensures Find(NodeTree(if v in children then children[v := Del(children[v], Below(key), ad)] else children), p) ==
      if p[0] == v && Covers(ad, Below(key), p[1..]) && Find(NodeTree(children), p).Some?
      then Some(Remove(At(NodeTree(children), p), ad.id))
      else Find(NodeTree(children), p)
    decreases Depth(Some(key)), 0
  {
    if p[0] == v && v in children {
      DelFind(children[v], Below(key), ad, p[1..]);
    }
  }

  // Laws of the two operations, as every lookup sees them.

  const Top: Option<Key> := Some(Age)

  ghost predicate SameLookups(t: Tree, u: Tree) {
    forall p :: Find(t, p) == Find(u, p)
  }

  lemma AddIdempotent(t: Tree, ad: Ad)
    requires Shaped(t, Top) && Indexable(ad)
    ensures SameLookups(Add(Add(t, Top, ad), Top, ad), Add(t, Top, ad))
  {
    var once := Add(t, Top, ad);
    forall p ensures Find(Add(once, Top, ad), p) == Find(once, p) {
      AddFind(t, Top, ad, p);
      AddFind(once, Top, ad, p);
      FindRanked(t, Top, p);
      UpdateIdempotent(At(t, p), ad);
    }
  }

  lemma AddsCommute(t: Tree, a: Ad, b: Ad)
    requires Shaped(t, Top) && Indexable(a) && Indexable(b) && a.id != b.id
    ensures SameLookups(Add(Add(t, Top, a), Top, b), Add(Add(t, Top, b), Top, a))
  {
    var ta, tb := Add(t, Top, a), Add(t, Top, b);
    forall p ensures Find(Add(ta, Top, b), p) == Find(Add(tb, Top, a), p) {
      AddFind(t, Top, a, p);
      AddFind(t, Top, b, p);
      AddFind(ta, Top, b, p);
      AddFind(tb, Top, a, p);
      FindRanked(t, Top, p);
      UpdatesCommute(At(t, p), a, b);
    }
  }

  /** Deleting a freshly added ad restores what every lookup returns; deleting it again changes nothing. */
  lemma DelUndoesAdd(t: Tree, ad: Ad)
    requires Shaped(t, Top) && Indexable(ad)
    requires forall p, a | a in At(t, p) :: a.id != ad.id
    ensures forall p :: At(Del(Add(t, Top, ad), Top, ad), p) == At(t, p)
    ensures SameLookups(Del(Del(Add(t, Top, ad), Top, ad), Top, ad), Del(Add(t, Top, ad), Top, ad))
  {
    var added := Add(t, Top, ad);
    var gone := Del(added, Top, ad);
    forall p ensures At(gone, p) == At(t, p) && Find(Del(gone, Top, ad), p) == Find(gone, p) {
      AddFind(t, Top, ad, p);
      DelFind(added, Top, ad, p);
      DelFind(gone, Top, ad, p);
      FindRanked(t, Top, p);
      FindRanked(added, Top, p);
      RemoveUndoesUpdate(At(t, p), ad);
      RemoveTwice(At(added, p), ad.id);
    }
  }

  /** AddAd as it would be with the values de-duplicated at every level, which the source has commented out. */
  ghost function AddOnce(t: Tree, k: Option<Key>, ad: Ad): (r: Tree)
    requires Shaped(t, k) && Indexable(ad)
    ensures Shaped(r, k)
    decreases Depth(k)
  {
    match k
    case None => AddOrUpdateElems(t.ads, ad); LeafTree(AddOrUpdate(t.ads, ad))
    case Some(key) => NodeTree(AddOnceEach(t.children, key, ad, Dedup(ValuesByKey(ad, key))))
  }

  ghost function AddOnceEach(children: map<Value, Tree>, key: Key, ad: Ad, vs: seq<Value>): (r: map<Value, Tree>)
    requires ShapedChildren(children, key) && Indexable(ad)
    ensures ShapedChildren(r, key)
    decreases Depth(Some(key)), |vs|
  {
    if vs == [] then children
    else
      var done := AddOnceEach(children, key, ad, vs[..|vs| - 1]);
      var v := vs[|vs| - 1];
      done[v := AddOnce(ChildOrEmpty(done, key, v), Below(key), ad)]
  }

  lemma {:induction false} AddOnceFind(t: Tree, k: Option<Key>, ad: Ad, p: Path)
    requires Shaped(t, k) && Indexable(ad)
    ensures Find(AddOnce(t, k, ad), p) ==
      if Covers(ad, k, p) then Some(AddOrUpdate(At(t, p), ad)) else Find(t, p)
    decreases Depth(k)
  {
    if k.Some? && p != [] {
      AddOnceEachFind(t.children, k.value, ad, Dedup(ValuesByKey(ad, k.value)), p);
      assert NodeTree(t.children) == t;
    }
  }

  lemma {:induction false} AddOnceEachFind(children: map<Value, Tree>, key: Key, ad: Ad, vs: seq<Value>, p: Path)
    requires ShapedChildren(children, key) && Indexable(ad) && p != []
    ensures Find(NodeTree(AddOnceEach(children, key, ad, vs)), p) ==
      if p[0] in vs && Covers(ad, Below(key), p[1..])
      then Some(AddOrUpdate(At(NodeTree(children), p), ad))
      else Find(NodeTree(children), p)
    decreases Depth(Some(key)), |vs|
  {
    if vs != [] {
      var init, v := vs[..|vs| - 1], vs[|vs| - 1];
      assert vs == init + [v];
      AddOnceEachFind(children, key, ad, init, p);
      AddOnceOneFind(AddOnceEach(children, key, ad, init), key, ad, v, p);
      if p[0] in init {
        FindRanked(NodeTree(children), Some(key), p);
        UpdateIdempotent(At(NodeTree(children), p), ad);
      }
    }
  }

  lemma {:induction false} AddOnceOneFind(children: map<Value, Tree>, key: Key, ad: Ad, v: Value, p: Path)
    requires ShapedChildren(children, key) && Indexable(ad) && p != []
    ensures Find(NodeTree(children[v := AddOnce(ChildOrEmpty(children, key, v), Below(key), ad)]), p) ==
      if p[0] == v && Covers(ad, Below(key), p[1..])
      then Some(AddOrUpdate(At(NodeTree(children), p), ad))
      else Find(NodeTree(children), p)
    decreases Depth(Some(key)), 0
  {
    if p[0] == v {
      AddOnceFind(ChildOrEmpty(children, key, v), Below(key), ad, p[1..]);
      ChildAt(children, key, p, ad);
    }
  }

  /** De-duplicating at every level would change no lookup. */
  lemma DedupSameLookups(t: Tree, ad: Ad)
    requires Shaped(t, Top) && Indexable(ad)
    ensures SameLookups(AddOnce(t, Top, ad), Add(t, Top, ad))
  {
    forall p ensures Find(AddOnce(t, Top, ad), p) == Find(Add(t, Top, ad), p) {
      AddOnceFind(t, Top, ad, p);
      AddFind(t, Top, ad, p);
    }
  }

  // A batch.

  ghost function AddBatch(t: Tree, batch: seq<Ad>): (r: Tree)
    requires Shaped(t, Top) && forall a | a in batch :: Indexable(a)
    ensures Shaped(r, Top)
  {
    if batch == [] then t else Add(AddBatch(t, batch[..|batch| - 1]), Top, batch[|batch| - 1])
  }

  ghost predicate Overwritten(batch: seq<Ad>, p: Path, id: AdID)
    requires forall a | a in batch :: Indexable(a)
  {
    exists b | b in batch :: b.id == id && Covers(b, Top, p)
  }

  ghost function Kept(t: Tree, batch: seq<Ad>, p: Path): set<Ad>
    requires forall a | a in batch :: Indexable(a)
  {
    set a | a in At(t, p) && !Overwritten(batch, p, a.id)
  }

  ghost function Covered(batch: seq<Ad>, p: Path): set<Ad>
    requires forall a | a in batch :: Indexable(a)
  {
    set b | b in batch && Covers(b, Top, p)
  }

  lemma {:induction false} BatchAt(t: Tree, batch: seq<Ad>, p: Path)
    requires Shaped(t, Top) && UniqueIds(Elems(batch)) && forall a | a in batch :: Indexable(a)
    ensures Elems(At(AddBatch(t, batch), p)) == Kept(t, batch, p) + Covered(batch, p)
  {
    if batch == [] {
      assert AddBatch(t, batch) == t;
    } else {
      var init, last := batch[..|batch| - 1], batch[|batch| - 1];
      assert batch == init + [last];
      assert Elems(init) <= Elems(batch) && last in Elems(batch);
      BatchAt(t, init, p);
      BatchStep(t, init, last, p);
      var u := AddBatch(t, init);
      AddFind(u, Top, last, p);
      FindRanked(u, Top, p);
      AddOrUpdateElems(At(u, p), last);
    }
  }

  lemma BatchStep(t: Tree, init: seq<Ad>, last: Ad, p: Path)
    requires Indexable(last) && forall a | a in init :: Indexable(a)
    requires UniqueIds(Elems(init + [last]))
    ensures Kept(t, init + [last], p) + Covered(init + [last], p) ==
      if Covers(last, Top, p) then Replace(Kept(t, init, p) + Covered(init, p), last)
      else Kept(t, init, p) + Covered(init, p)
  {
    OverwrittenSnoc(init, last, p);
    CoveredSnoc(init, last, p);
  }

  lemma CoveredSnoc(init: seq<Ad>, last: Ad, p: Path)
    requires Indexable(last) && forall a | a in init :: Indexable(a)
    requires UniqueIds(Elems(init + [last]))
    ensures Covered(init + [last], p) == Covered(init, p) + if Covers(last, Top, p) then {last} else {}
    ensures forall a | a in Covered(init, p) && a.id == last.id :: a == last
  {
    assert forall a | a in init + [last] :: a in Elems(init + [last]);
  }

  lemma OverwrittenSnoc(init: seq<Ad>, last: Ad, p: Path)
    requires Indexable(last) && forall a | a in init :: Indexable(a)
    ensures forall id :: Overwritten(init + [last], p, id) <==>
      Overwritten(init, p, id) || (last.id == id && Covers(last, Top, p))
  {}

  /** A batch read in any order, which Restore's query leaves open, gives the same answers. */
  lemma BatchOrderIrrelevant(t: Tree, batch: seq<Ad>, other: seq<Ad>, p: Path)
    requires Shaped(t, Top) && UniqueIds(Elems(batch)) && Elems(batch) == Elems(other)
    requires forall a | a in batch :: Indexable(a)
    requires forall a | a in other :: Indexable(a)
    ensures At(AddBatch(t, batch), p) == At(AddBatch(t, other), p)
  {
    assert forall a :: a in batch <==> a in Elems(batch);
    assert forall a :: a in other <==> a in Elems(other);
    BatchAt(t, batch, p);
    BatchAt(t, other, p);
    FindRanked(AddBatch(t, batch), Top, p);
    FindRanked(AddBatch(t, other), Top, p);
    SortedUnique(At(AddBatch(t, batch), p), At(AddBatch(t, other), p));
  }

  // How many leaves an ad is in.

  ghost function ValueSet(ad: Ad, key: Key): set<Value>
    requires Indexable(ad)
  {
    set v | v in ValuesByKey(ad, key)
  }

  ghost function Prefixed(vs: set<Value>, tails: set<Path>): set<Path> {
    set v, q | v in vs && q in tails :: [v] + q
  }

  ghost function Paths(ad: Ad, k: Option<Key>): set<Path>
    requires Indexable(ad)
    decreases Depth(k)
  {
    match k
    case None => {[]}
    case Some(key) => Prefixed(ValueSet(ad, key), Paths(ad, Below(key)))
  }

  lemma {:induction false} PathsCovered(ad: Ad, k: Option<Key>, p: Path)
    requires Indexable(ad)
    ensures p in Paths(ad, k) <==> Covers(ad, k, p)
    decreases Depth(k)
  {
    if k.Some? {
      if p != [] {
        PathsCovered(ad, Below(k.value), p[1..]);
        assert p == [p[0]] + p[1..];
      }
      forall v, q | v in ValueSet(ad, k.value) && q in Paths(ad, Below(k.value)) ensures ([v] + q)[1..] == q {}
    }
  }

  lemma {:induction false} PrefixedSize(vs: set<Value>, tails: set<Path>)
    ensures |Prefixed(vs, tails)| == |vs| * |tails|
  {
    if vs == {} {
      assert Prefixed(vs, tails) == {};
    } else {
      var v :| v in vs;
      PrefixedSize(vs - {v}, tails);
      OnePrefixSize(v, tails);
      PrefixedStep(v, vs - {v}, tails);
      assert vs == {v} + (vs - {v});
      Distribute(|vs - {v}|, |tails|);
    }
  }

  lemma PrefixedStep(v: Value, rest: set<Value>, tails: set<Path>)
    requires v !in rest
    ensures |Prefixed({v} + rest, tails)| == |Prefixed({v}, tails)| + |Prefixed(rest, tails)|
  {
    PrefixedUnion({v}, rest, tails);
    assert forall q | q in Prefixed({v}, tails) :: q[0] == v;
    assert forall q | q in Prefixed(rest, tails) :: q[0] != v;
    UnionSize(Prefixed({v}, tails), Prefixed(rest, tails));
  }

  lemma UnionSize<T>(a: set<T>, b: set<T>)
    requires a !! b
    ensures |a + b| == |a| + |b|
  {}

  lemma Distribute(n: nat, m: nat)
    ensures m + n * m == (1 + n) * m
  {}

  lemma PrefixedUnion(vs: set<Value>, ws: set<Value>, tails: set<Path>)
    ensures Prefixed(vs + ws, tails) == Prefixed(vs, tails) + Prefixed(ws, tails)
  {
    forall p | p in Prefixed(vs + ws, tails) ensures p in Prefixed(vs, tails) + Prefixed(ws, tails) {
      var v, q :| v in vs + ws && q in tails && p == [v] + q;
      assert v in vs || v in ws;
    }
    forall p | p in Prefixed(vs, tails) ensures p in Prefixed(vs + ws, tails) {
      var v, q :| v in vs && q in tails && p == [v] + q;
      assert v in vs + ws;
    }
    forall p | p in Prefixed(ws, tails) ensures p in Prefixed(vs + ws, tails) {
      var v, q :| v in ws && q in tails && p == [v] + q;
      assert v in vs + ws;
    }
  }

  lemma {:induction false} OnePrefixSize(v: Value, tails: set<Path>)
    ensures |Prefixed({v}, tails)| == |tails|
  {
    if tails == {} {
      assert Prefixed({v}, tails) == {};
    } else {
      var q :| q in tails;
      OnePrefixSize(v, tails - {q});
      forall r | r in tails - {q} ensures [v] + r != [v] + q {
        assert ([v] + r)[1..] == r && ([v] + q)[1..] == q;
      }
      forall p ensures p in Prefixed({v}, tails) <==> p in Prefixed({v}, tails - {q}) + {[v] + q} {
        if p in Prefixed({v}, tails) {
          var r :| r in tails && p == [v] + r;
          assert r == q || r in tails - {q};
        }
      }
      assert Prefixed({v}, tails) == Prefixed({v}, tails - {q}) + {[v] + q};
      UnionSize(Prefixed({v}, tails - {q}), {[v] + q});
    }
  }

  /** The leaves that hold a freshly added ad: the product of the four numbers of distinct values. */
  lemma LeavesHolding(t: Tree, ad: Ad)
    requires Shaped(t, Top) && Indexable(ad)
    requires forall p :: ad !in At(t, p)
    ensures forall p :: ad in At(Add(t, Top, ad), p) <==> p in Paths(ad, Top)
    ensures |Paths(ad, Top)| ==
      |ValueSet(ad, Age)| * (|ValueSet(ad, Country)| * (|ValueSet(ad, Platform)| * |ValueSet(ad, Gender)|))
  {
    forall p ensures ad in At(Add(t, Top, ad), p) <==> p in Paths(ad, Top) {
      PathsCovered(ad, Top, p);
      AddFind(t, Top, ad, p);
      FindRanked(t, Top, p);
      AddOrUpdateElems(At(t, p), ad);
      assert Covers(ad, Top, p) ==> ad in Elems(AddOrUpdate(At(t, p), ad));
    }
    PathsSize(ad);
  }

  lemma PathsSize(ad: Ad)
    requires Indexable(ad)
    ensures |Paths(ad, Top)| ==
      |ValueSet(ad, Age)| * (|ValueSet(ad, Country)| * (|ValueSet(ad, Platform)| * |ValueSet(ad, Gender)|))
  {
    var p0, p1, p2 := Paths(ad, Some(Gender)), Paths(ad, Some(Platform)), Paths(ad, Some(Country));
    PrefixedSize(ValueSet(ad, Gender), {[]});
    assert p0 == Prefixed(ValueSet(ad, Gender), {[]}) && |p0| == |ValueSet(ad, Gender)|;
    PrefixedSize(ValueSet(ad, Platform), p0);
    assert p1 == Prefixed(ValueSet(ad, Platform), p0);
    PrefixedSize(ValueSet(ad, Country), p1);
    assert p2 == Prefixed(ValueSet(ad, Country), p1);
    PrefixedSize(ValueSet(ad, Age), p2);
  }
}
