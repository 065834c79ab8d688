/**
 Whole histories of a store whose index is the concurrent one: every AddAd run by
 some complete schedule of its goroutines, every DeleteAd by its loops
 (pkg/inmem/index.go:27-95). The store's mutex orders the operations.
 */
module ConcurrentStore {
  import opened AdModel
  import opened Ranking
  import opened IndexTree
  import opened Store
  import opened ConcurrentAdd

  datatype HeapStore = HeapStore(ads: map<AdID, Ad>, heap: map<Ref, Node>, root: Ref, pos: map<Ref, Path>)

  const NewHeapStore: HeapStore := HeapStore(map[], map[0 := Inner(Age, map[])], 0, map[0 := []])

  /** DeleteAd from node n for key k down. */
  ghost function DelNode(h: map<Ref, Node>, n: Ref, k: Option<Key>, ad: Ad): map<Ref, Node>
    requires Indexable(ad)
    decreases Depth(k)
  {
    match k
    case None => if n in h && h[n].Leaf? then h[n := Leaf(Remove(h[n].ads, ad.id))] else h
    case Some(key) => DelValues(h, n, key, ad, ValuesByKey(ad, key))
  }

  ghost function DelValues(h: map<Ref, Node>, n: Ref, key: Key, ad: Ad, vs: seq<Value>): map<Ref, Node>
    requires Indexable(ad)
    decreases Depth(Some(key)), |vs|
  {
    if vs == [] then h
    else
      var done := DelValues(h, n, key, ad, vs[..|vs| - 1]);
      var v := vs[|vs| - 1];
      if n in done && done[n].Inner? && v in done[n].children then DelNode(done, done[n].children[v], Below(key), ad) else done
  }

  /** What a delete below a position may change: leaves further down, and those stay ranked. */
  ghost predicate ChangedBelow(h: map<Ref, Node>, h': map<Ref, Node>, pos: map<Ref, Path>, p: Path)
    requires pos.Keys == h.Keys
  {
    && h'.Keys == h.Keys
    && (forall m | m in h :: h'[m] == h[m] || (h[m].Leaf? && h'[m].Leaf? && p <= pos[m] && Ranked(h'[m].ads)))
  }

  lemma BelowIsIndex(h: map<Ref, Node>, h': map<Ref, Node>, root: Ref, pos: map<Ref, Path>, p: Path)
    requires IsIndex(h, root, pos) && ChangedBelow(h, h', pos, p)
    ensures IsIndex(h', root, pos)
  {}

  lemma {:induction false} DelFrame(h: map<Ref, Node>, root: Ref, pos: map<Ref, Path>, n: Ref, k: Option<Key>, ad: Ad)
    requires Indexable(ad) && IsIndex(h, root, pos) && n in h && KeyAt(|pos[n]|) == k
    ensures ChangedBelow(h, DelNode(h, n, k, ad), pos, pos[n])
    decreases Depth(k)
  {
    match k
    case None =>
      if h[n].Leaf? { RemoveRanked(h[n].ads, ad.id); }
    case Some(key) => DelValuesFrame(h, root, pos, n, key, ad, ValuesByKey(ad, key));
  }

  lemma {:induction false} DelValuesFrame(h: map<Ref, Node>, root: Ref, pos: map<Ref, Path>, n: Ref, key: Key, ad: Ad, vs: seq<Value>)
    requires Indexable(ad) && IsIndex(h, root, pos) && n in h && KeyAt(|pos[n]|) == Some(key)
    ensures ChangedBelow(h, DelValues(h, n, key, ad, vs), pos, pos[n])
    decreases Depth(Some(key)), |vs|
  {
    if vs != [] {
      var done, v := DelValues(h, n, key, ad, vs[..|vs| - 1]), vs[|vs| - 1];
      DelValuesFrame(h, root, pos, n, key, ad, vs[..|vs| - 1]);
      BelowIsIndex(h, done, root, pos, pos[n]);
      if done[n].Inner? && v in done[n].children {
        var c := done[n].children[v];
        DelFrame(done, root, pos, c, Below(key), ad);
        FurtherDown(h, done, DelNode(done, c, Below(key), ad), pos, pos[n], pos[c]);
      }
    }
  }

  lemma FurtherDown(h: map<Ref, Node>, h1: map<Ref, Node>, h2: map<Ref, Node>, pos: map<Ref, Path>, p: Path, q: Path)
    requires pos.Keys == h.Keys && ChangedBelow(h, h1, pos, p) && p <= q && ChangedBelow(h1, h2, pos, q)
    ensures ChangedBelow(h, h2, pos, p)
  {}

  /** A change below one position is not seen from another of the same depth. */
  lemma {:induction false} SeenElsewhere(h: map<Ref, Node>, h': map<Ref, Node>, root: Ref, pos: map<Ref, Path>, p: Path, m: Ref, q: Path)
    requires IsIndex(h, root, pos) && ChangedBelow(h, h', pos, p) && m in h
    requires |p| <= |pos[m]| && pos[m][..|p|] != p
    ensures HeapFind(h', m, q) == HeapFind(h, m, q)
    decreases |q|
  {
    assert h'[m] == h[m];
    if q != [] && h[m].Inner? && q[0] in h[m].children {
      var c := h[m].children[q[0]];
      assert pos[c][..|p|] == pos[m][..|p|];
      SeenElsewhere(h, h', root, pos, p, c, q[1..]);
    }
  }

  /** A lookup with the id taken out. */
  function Reduced(found: Option<seq<Ad>>, id: AdID, covered: bool): Option<seq<Ad>> {
    if covered && found.Some? then Some(Remove(found.value, id)) else found
  }

  lemma {:induction false} DelNodeFind(h: map<Ref, Node>, root: Ref, pos: map<Ref, Path>, n: Ref, k: Option<Key>, ad: Ad, p: Path)
    requires Indexable(ad) && IsIndex(h, root, pos) && n in h && KeyAt(|pos[n]|) == k
    ensures HeapFind(DelNode(h, n, k, ad), n, p) == Reduced(HeapFind(h, n, p), ad.id, Covers(ad, k, p))
    decreases Depth(k)
  {
    match k
    case None =>
    case Some(key) =>
      DelValuesFind(h, root, pos, n, key, ad, ValuesByKey(ad, key), p);
      DelValuesFrame(h, root, pos, n, key, ad, ValuesByKey(ad, key));
  }

  lemma {:induction false} DelValuesFind(h: map<Ref, Node>, root: Ref, pos: map<Ref, Path>, n: Ref, key: Key, ad: Ad, vs: seq<Value>, p: Path)
    requires Indexable(ad) && IsIndex(h, root, pos) && n in h && KeyAt(|pos[n]|) == Some(key)
    ensures HeapFind(DelValues(h, n, key, ad, vs), n, p) ==
      Reduced(HeapFind(h, n, p), ad.id, p != [] && p[0] in vs && Covers(ad, Below(key), p[1..]))
    decreases Depth(Some(key)), |vs|
  {
    if vs != [] {
      var init, v := vs[..|vs| - 1], vs[|vs| - 1];
      assert vs == init + [v];
      var done := DelValues(h, n, key, ad, init);
      DelValuesFind(h, root, pos, n, key, ad, init, p);
      DelValuesFrame(h, root, pos, n, key, ad, init);
      BelowIsIndex(h, done, root, pos, pos[n]);
      assert h[n].Inner? && done[n] == h[n];
      if v in done[n].children {
        DelChildFind(done, root, pos, n, key, ad, v, p);
        FoundRanked(h, root, pos, n, p);
        if HeapFind(h, n, p).Some? { RemoveTwice(HeapFind(h, n, p).value, ad.id); }
      } else if p != [] && p[0] == v {
        assert HeapFind(h, n, p) == None;
      }
    }
  }

  lemma {:induction false} FoundRanked(h: map<Ref, Node>, root: Ref, pos: map<Ref, Path>, n: Ref, p: Path)
    requires IsIndex(h, root, pos)
    ensures HeapFind(h, n, p).Some? ==> Ranked(HeapFind(h, n, p).value)
    decreases |p|
  {
    if n in h && p != [] && h[n].Inner? && p[0] in h[n].children {
      FoundRanked(h, root, pos, h[n].children[p[0]], p[1..]);
    }
  }

  lemma {:induction false} DelChildFind(h: map<Ref, Node>, root: Ref, pos: map<Ref, Path>, n: Ref, key: Key, ad: Ad, v: Value, p: Path)
    requires Indexable(ad) && IsIndex(h, root, pos) && n in h && KeyAt(|pos[n]|) == Some(key)
    requires h[n].Inner? && v in h[n].children
    ensures HeapFind(DelNode(h, h[n].children[v], Below(key), ad), n, p) ==
      Reduced(HeapFind(h, n, p), ad.id, p != [] && p[0] == v && Covers(ad, Below(key), p[1..]))
    decreases Depth(Some(key)), 0
  {
    var c := h[n].children[v];
    var h' := DelNode(h, c, Below(key), ad);
    DelFrame(h, root, pos, c, Below(key), ad);
    assert h'[n] == h[n];
    if p != [] && p[0] in h[n].children {
      var d := h[n].children[p[0]];
      assert HeapFind(h', n, p) == HeapFind(h', d, p[1..]) && HeapFind(h, n, p) == HeapFind(h, d, p[1..]);
      if p[0] == v {
        DelNodeFind(h, root, pos, c, Below(key), ad, p[1..]);
      } else {
        assert pos[d][..|pos[c]|] == pos[d] && pos[d][|pos[n]|] != pos[c][|pos[n]|];
        SeenElsewhere(h, h', root, pos, pos[c], d, p[1..]);
      }
    }
  }

  /** The heap store has the map of the store, and the lookups of its tree. */
  ghost predicate Mirrors(hs: HeapStore, s: StoreState) {
    && IsIndex(hs.heap, hs.root, hs.pos) && Shaped(s.tree, Top) && hs.ads == s.ads
    && forall p :: HeapFind(hs.heap, hs.root, p) == Find(s.tree, p)
  }

  /** An operation on the heap: a create by any complete schedule. */
  ghost predicate HeapStep(hs: HeapStore, op: StoreOp, hs': HeapStore) {
    match op
    case StoreCreate(ad) => Indexable(ad) && exists ss :: CreatedBy(hs, ad, ss, hs')
    case StoreBatch(_) => false
    case StoreDelete(id) =>
      && id in hs.ads && Indexable(hs.ads[id])
      && hs' == hs.(heap := DelNode(hs.heap, hs.root, Top, hs.ads[id]))
  }

  ghost predicate CreatedBy(hs: HeapStore, ad: Ad, ss: seq<State>, hs': HeapStore)
    requires Indexable(ad)
  {
    && Schedule(hs.heap, hs.root, hs.pos, ad, ss)
    && var s := ss[|ss| - 1];
       s.tasks == [] && hs' == HeapStore(hs.ads[ad.id := ad], s.heap, hs.root, s.pos)
  }

  lemma NewMirrors()
    ensures Mirrors(NewHeapStore, Empty)
  {
    forall p ensures HeapFind(NewHeapStore.heap, 0, p) == Find(Empty.tree, p) {}
  }

  lemma StepMirrors(hs: HeapStore, s: StoreState, op: StoreOp, hs': HeapStore)
    requires Mirrors(hs, s) && HeapStep(hs, op, hs')
    ensures Apply(s, op).Ok? && Mirrors(hs', Apply(s, op).value)
  {
    match op
    case StoreCreate(ad) =>
      var ss :| CreatedBy(hs, ad, ss, hs');
      InterleavingsAgree(hs.heap, hs.root, hs.pos, ad, ss, s.tree);
      EndsAsIndex(hs.heap, hs.root, hs.pos, ad, ss);
    case StoreDelete(id) => DeleteMirrors(hs, s, id, hs');
  }

  lemma DeleteMirrors(hs: HeapStore, s: StoreState, id: AdID, hs': HeapStore)
    requires Mirrors(hs, s) && HeapStep(hs, StoreDelete(id), hs')
    ensures TryDelete(s, id).Ok? && Mirrors(hs', TryDelete(s, id).value)
  {
    var ad := hs.ads[id];
    DelFrame(hs.heap, hs.root, hs.pos, hs.root, Top, ad);
    BelowIsIndex(hs.heap, hs'.heap, hs.root, hs.pos, []);
    forall p ensures HeapFind(hs'.heap, hs.root, p) == Find(Del(s.tree, Top, ad), p) {
      DelNodeFind(hs.heap, hs.root, hs.pos, hs.root, Top, ad, p);
      DelFind(s.tree, Top, ad, p);
      assert HeapFind(hs.heap, hs.root, p) == Find(s.tree, p);
    }
  }

  /** A history of the heap store, batches as their creates. */
  ghost predicate HeapRun(ops: seq<StoreOp>, trace: seq<HeapStore>) {
    && |trace| == |ops| + 1 && trace[0] == NewHeapStore
    && forall j | 0 <= j < |ops| :: HeapStep(trace[j], ops[j], trace[j + 1])
  }

  lemma {:induction false} RunMirrors(ops: seq<StoreOp>, trace: seq<HeapStore>)
    requires HeapRun(ops, trace)
    ensures Run(ops).Ok? && Mirrors(trace[|ops|], Run(ops).value)
  {
    if ops == [] {
      NewMirrors();
    } else {
      var n := |ops| - 1;
      RunMirrors(ops[..n], trace[..n + 1]);
      assert HeapStep(trace[n], ops[n], trace[n + 1]);
      StepMirrors(trace[n], Run(ops[..n]).value, ops[n], trace[n + 1]);
    }
  }

  /**
   For every history of creates, batches and deletes, whatever the schedule of each
   AddAd: every lookup in the heap is the lookup in the tree of the sequential
   history.
   */
  lemma HistoriesAgree(ops: seq<StoreOp>, trace: seq<HeapStore>)
    requires HeapRun(Singles(ops), trace)
    ensures Run(ops).Ok?
    ensures var last := trace[|Singles(ops)|];
      forall p :: HeapFind(last.heap, last.root, p) == Find(Run(ops).value.tree, p)
  {
    RunMirrors(Singles(ops), trace);
    RunSingles(Empty, ops);
  }

  /** GetAd on the heap. */
  ghost function HeapQuery(hs: HeapStore, req: Request): seq<Ad>
    requires WellFormed(req)
  {
    match HeapFind(hs.heap, hs.root, RequestPath(req, Top)) case Some(ads) => Page(ads, req) case None => []
  }

  /** So with immutable ads a read of the concurrent store is the filter of the ads created and not deleted since. */
  lemma ConcurrentReads(ops: seq<StoreOp>, trace: seq<HeapStore>, req: Request)
    requires HeapRun(Singles(ops), trace) && OneAdPerId(Singles(ops)) && WellFormed(req)
    ensures var matching := set a | a in LiveAfter(ops) && Matches(a, req);
      UniqueIds(matching) && HeapQuery(trace[|Singles(ops)|], req) == Page(SortedAds(matching), req)
  {
    HistoriesAgree(ops, trace);
    RunMeaning(ops);
    QueryMeaning(Run(ops).value, req);
  }
}
