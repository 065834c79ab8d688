/**
 Every interleaving of the goroutines of one AddAd (pkg/inmem/index.go:27-59,
 114-118). A goroutine's get, its set, and a leaf's locked update are the atomic
 steps; the heap is a map from references to nodes. The store's mutex admits one
 AddAd at a time, so no other operation takes part.

 Duplicate values race: two goroutines may both miss a child, both make one, and
 the later set discards the earlier child. `entered` (nodes whose AddAd has
 begun) and `pos` (the path a node was made for) are history variables.
 */
module ConcurrentAdd {
  import opened AdModel
  import opened Ranking
  import opened IndexTree

  type Ref = nat

  datatype Node = Inner(key: Key, children: map<Value, Ref>) | Leaf(ads: seq<Ad>)

  datatype Task =
    | Enter(n: Ref)                      // a call child.AddAd(ad) about to begin
    | Get(n: Ref, v: Value)              // a goroutine about to get its child
    | Set(n: Ref, v: Value, child: Ref)  // it missed, made a child, is about to set it

  datatype State = State(heap: map<Ref, Node>, tasks: seq<Task>, entered: set<Ref>, pos: map<Ref, Path>)

  function NewNode(k: Option<Key>): Node {
    if k.None? then Leaf([]) else Inner(k.value, map[])
  }

  function Swap(tasks: seq<Task>, i: nat, next: seq<Task>): seq<Task>
    requires i < |tasks|
  {
    tasks[..i] + next + tasks[i + 1..]
  }

  function Gets(n: Ref, vs: seq<Value>): seq<Task> {
    seq(|vs|, i requires 0 <= i < |vs| => Get(n, vs[i]))
  }

  /** Task i takes its next atomic step; `spare` is the reference a new child gets. */
  ghost predicate Step(s: State, ad: Ad, i: nat, spare: Ref, s': State)
    requires Indexable(ad)
  {
    && i < |s.tasks|
    && match s.tasks[i]
       case Enter(n) =>
         && n in s.heap
         && (match s.heap[n]
             case Leaf(ads) =>
               s' == s.(heap := s.heap[n := Leaf(AddOrUpdate(ads, ad))], tasks := Swap(s.tasks, i, []), entered := s.entered + {n})
             case Inner(key, _) =>
               s' == s.(tasks := Swap(s.tasks, i, Gets(n, ValuesByKey(ad, key))), entered := s.entered + {n}))
       case Get(n, v) =>
         && n in s.heap && s.heap[n].Inner? && n in s.pos
         && if v in s.heap[n].children
            then s' == s.(tasks := Swap(s.tasks, i, [Enter(s.heap[n].children[v])]))
            else
              && spare !in s.heap
              && s' == s.(heap := s.heap[spare := NewNode(Below(s.heap[n].key))],
                          tasks := Swap(s.tasks, i, [Set(n, v, spare)]),
                          pos := s.pos[spare := s.pos[n] + [v]])
       case Set(n, v, c) =>
         && n in s.heap && s.heap[n].Inner?
         && s' == s.(heap := s.heap[n := Inner(s.heap[n].key, s.heap[n].children[v := c])],
                     tasks := Swap(s.tasks, i, [Enter(c)]))
  }

  /** What a lookup finds from node n of a heap. */
  ghost function HeapFind(h: map<Ref, Node>, n: Ref, p: Path): Option<seq<Ad>>
    decreases |p|
  {
    if n !in h then None
    else if p == [] then (if h[n].Leaf? then Some(h[n].ads) else None)
    else if h[n].Inner? && p[0] in h[n].children then HeapFind(h, h[n].children[p[0]], p[1..])
    else None
  }

  function KeyAt(depth: nat): Option<Key> {
    if depth == 0 then Some(Age) else if depth == 1 then Some(Country)
    else if depth == 2 then Some(Platform) else if depth == 3 then Some(Gender) else None
  }

  /** The nodes of h form the four-level index below root. */
  ghost predicate Placed(h: map<Ref, Node>, pos: map<Ref, Path>) {
    && pos.Keys == h.Keys
    && (forall n | n in h ::
          && |pos[n]| <= 4
          && (match h[n]
              case Leaf(ads) => |pos[n]| == 4
              case Inner(key, children) =>
                && KeyAt(|pos[n]|) == Some(key)
                && (forall v | v in children :: children[v] in h && pos[children[v]] == pos[n] + [v])))
  }

  ghost predicate IsIndex(h: map<Ref, Node>, root: Ref, pos: map<Ref, Path>) {
    && Placed(h, pos)
    && root in h && pos[root] == []
    && (forall n | n in h && h[n].Leaf? :: Ranked(h[n].ads))
  }

  function Start(h: map<Ref, Node>, root: Ref, pos: map<Ref, Path>): State {
    State(h, [Enter(root)], {}, pos)
  }

  /** The ad belongs under every value of this prefix of a path. */
  ghost predicate OnWay(ad: Ad, p: Path)
    requires Indexable(ad)
  {
    forall i | 0 <= i < |p| :: KeyAt(i).Some? && p[i] in ValuesByKey(ad, KeyAt(i).value)
  }

  ghost predicate TaskOk(h0: map<Ref, Node>, s: State, ad: Ad, t: Task)
    requires Indexable(ad) && s.pos.Keys == s.heap.Keys
  {
    match t
    case Enter(n) => n in s.heap && OnWay(ad, s.pos[n])
    case Get(n, v) => n in s.heap && s.heap[n].Inner? && n in s.entered && v in ValuesByKey(ad, s.heap[n].key)
    case Set(n, v, c) =>
      && n in s.heap && s.heap[n].Inner? && n in s.entered && v in ValuesByKey(ad, s.heap[n].key)
      && c in s.heap && c !in h0 && s.pos[c] == s.pos[n] + [v]
      && (n in h0 && h0[n].Inner? ==> v !in h0[n].children)
  }

  /** Relative to the heap before AddAd: old nodes lost nothing, new ones hold only this ad. */
  ghost predicate NodeOk(h0: map<Ref, Node>, s: State, ad: Ad, n: Ref)
    requires Indexable(ad) && n in s.heap
  {
    match s.heap[n]
    case Leaf(ads) =>
      var before := if n in h0 && h0[n].Leaf? then h0[n].ads else [];
      && (n in h0 ==> h0[n].Leaf?)
      && ads == if n in s.entered then AddOrUpdate(before, ad) else before
    case Inner(key, children) =>
      var before := if n in h0 && h0[n].Inner? then h0[n].children else map[];
      && (n in h0 ==> h0[n].Inner? && h0[n].key == key)
      && (forall v | v in before :: v in children && children[v] == before[v])
      && (forall v | v in children && v !in before ::
            n in s.entered && v in ValuesByKey(ad, key) && children[v] !in h0)
  }

  /** The value v of a node AddAd has begun on is done or on its way. */
  ghost predicate UnderWay(s: State, n: Ref, v: Value)
    requires n in s.heap && s.heap[n].Inner?
  {
    || Get(n, v) in s.tasks
    || (exists c :: Set(n, v, c) in s.tasks)
    || (v in s.heap[n].children && (s.heap[n].children[v] in s.entered || Enter(s.heap[n].children[v]) in s.tasks))
  }

  ghost predicate Inv(h0: map<Ref, Node>, root: Ref, ad: Ad, s: State) {
    && Indexable(ad)
    && Placed(s.heap, s.pos) && s.entered <= s.heap.Keys && h0.Keys <= s.heap.Keys
    && root in h0 && s.pos[root] == []
    && (root in s.entered || Enter(root) in s.tasks)
    && (forall n | n in s.entered :: OnWay(ad, s.pos[n]))
    && (forall t | t in s.tasks :: TaskOk(h0, s, ad, t))
    && (forall n | n in s.heap :: NodeOk(h0, s, ad, n))
    && (forall n, v | n in s.entered && s.heap[n].Inner? && v in ValuesByKey(ad, s.heap[n].key) :: UnderWay(s, n, v))
  }

  lemma StartInv(h: map<Ref, Node>, root: Ref, pos: map<Ref, Path>, ad: Ad)
    requires Indexable(ad) && IsIndex(h, root, pos)
    ensures Inv(h, root, ad, Start(h, root, pos))
  {}

  /** How a step changes which tasks there are. */
  ghost predicate Swapped(tasks: seq<Task>, t: Task, next: seq<Task>, tasks': seq<Task>) {
    && t in tasks
    && (forall u | u in tasks && u != t :: u in tasks')
    && (forall u | u in next :: u in tasks')
    && (forall u | u in tasks' :: u in tasks || u in next)
  }

  lemma SwapTasks(tasks: seq<Task>, i: nat, next: seq<Task>)
    requires i < |tasks|
    ensures Swapped(tasks, tasks[i], next, Swap(tasks, i, next))
  {
    assert tasks == tasks[..i] + [tasks[i]] + tasks[i + 1..];
  }

  lemma StepInv(h0: map<Ref, Node>, root: Ref, ad: Ad, s: State, i: nat, spare: Ref, s': State)
    requires Inv(h0, root, ad, s) && Step(s, ad, i, spare, s')
    requires forall n | n in h0 && h0[n].Leaf? :: Ranked(h0[n].ads)
    ensures Inv(h0, root, ad, s')
  {
    assert TaskOk(h0, s, ad, s.tasks[i]);
    match s.tasks[i]
    case Enter(n) =>
      if s.heap[n].Leaf? {
        SwapTasks(s.tasks, i, []);
        EnterLeaf(h0, root, ad, s, n, s');
      } else {
        SwapTasks(s.tasks, i, Gets(n, ValuesByKey(ad, s.heap[n].key)));
        EnterInner(h0, root, ad, s, n, s');
      }
    case Get(n, v) =>
      if v in s.heap[n].children {
        SwapTasks(s.tasks, i, [Enter(s.heap[n].children[v])]);
        GetHit(h0, root, ad, s, n, v, s');
      } else {
        SwapTasks(s.tasks, i, [Set(n, v, spare)]);
        GetMiss(h0, root, ad, s, n, v, spare, s');
      }
    case Set(n, v, c) =>
      SwapTasks(s.tasks, i, [Enter(c)]);
      SetChild(h0, root, ad, s, n, v, c, s');
  }

  lemma EnterLeaf(h0: map<Ref, Node>, root: Ref, ad: Ad, s: State, n: Ref, s': State)
    requires Inv(h0, root, ad, s) && n in s.heap && s.heap[n].Leaf?
    requires Swapped(s.tasks, Enter(n), [], s'.tasks)
    requires s' == State(s.heap[n := Leaf(AddOrUpdate(s.heap[n].ads, ad))], s'.tasks, s.entered + {n}, s.pos)
    requires forall n | n in h0 && h0[n].Leaf? :: Ranked(h0[n].ads)
    ensures Inv(h0, root, ad, s')
  {
    assert TaskOk(h0, s, ad, Enter(n)) && NodeOk(h0, s, ad, n);
    var before := if n in h0 then h0[n].ads else [];
    UpdateIdempotent(before, ad);
    LeafUpdated(h0, root, ad, s, n, before, AddOrUpdate(s.heap[n].ads, ad), s');
  }

  lemma LeafUpdated(h0: map<Ref, Node>, root: Ref, ad: Ad, s: State, n: Ref, before: seq<Ad>, ads: seq<Ad>, s': State)
    requires Inv(h0, root, ad, s) && n in s.heap && s.heap[n].Leaf?
    requires before == (if n in h0 && h0[n].Leaf? then h0[n].ads else []) && ads == AddOrUpdate(before, ad)
    requires Swapped(s.tasks, Enter(n), [], s'.tasks)
    requires s' == State(s.heap[n := Leaf(ads)], s'.tasks, s.entered + {n}, s.pos)
    ensures Inv(h0, root, ad, s')
  {
    assert TaskOk(h0, s, ad, Enter(n)) && NodeOk(h0, s, ad, n);
    forall m | m in s'.heap ensures NodeOk(h0, s', ad, m) { assert NodeOk(h0, s, ad, m); }
    forall t | t in s'.tasks ensures TaskOk(h0, s', ad, t) { assert TaskOk(h0, s, ad, t); }
    forall m, v | m in s'.entered && s'.heap[m].Inner? && v in ValuesByKey(ad, s'.heap[m].key)
      ensures UnderWay(s', m, v)
    {
      assert UnderWay(s, m, v);
    }
  }

  lemma EnterInner(h0: map<Ref, Node>, root: Ref, ad: Ad, s: State, n: Ref, s': State)
    requires Inv(h0, root, ad, s) && n in s.heap && s.heap[n].Inner?
    requires Swapped(s.tasks, Enter(n), Gets(n, ValuesByKey(ad, s.heap[n].key)), s'.tasks)
    requires s' == State(s.heap, s'.tasks, s.entered + {n}, s.pos)
    ensures Inv(h0, root, ad, s')
  {
    var vs := ValuesByKey(ad, s.heap[n].key);
    assert TaskOk(h0, s, ad, Enter(n));
    forall m | m in s'.heap ensures NodeOk(h0, s', ad, m) { assert NodeOk(h0, s, ad, m); }
    forall t | t in s'.tasks ensures TaskOk(h0, s', ad, t) {
      if t in s.tasks { assert TaskOk(h0, s, ad, t); }
    }
    forall m, v | m in s'.entered && s'.heap[m].Inner? && v in ValuesByKey(ad, s'.heap[m].key)
      ensures UnderWay(s', m, v)
    {
      if m == n {
        var j :| 0 <= j < |vs| && vs[j] == v;
        assert Gets(n, vs)[j] == Get(n, v);
      } else {
        assert UnderWay(s, m, v);
      }
    }
  }

  lemma GetHit(h0: map<Ref, Node>, root: Ref, ad: Ad, s: State, n: Ref, v: Value, s': State)
    requires Inv(h0, root, ad, s) && n in s.heap && s.heap[n].Inner? && v in s.heap[n].children
    requires Swapped(s.tasks, Get(n, v), [Enter(s.heap[n].children[v])], s'.tasks)
    requires s' == State(s.heap, s'.tasks, s.entered, s.pos)
    ensures Inv(h0, root, ad, s')
  {
    var c := s.heap[n].children[v];
    assert TaskOk(h0, s, ad, Get(n, v));
    OnWayChild(ad, s.pos[n], s.heap[n].key, v);
    forall m | m in s'.heap ensures NodeOk(h0, s', ad, m) { assert NodeOk(h0, s, ad, m); }
    forall t | t in s'.tasks ensures TaskOk(h0, s', ad, t) {
      if t in s.tasks { assert TaskOk(h0, s, ad, t); }
    }
    forall m, w | m in s'.entered && s'.heap[m].Inner? && w in ValuesByKey(ad, s'.heap[m].key)
      ensures UnderWay(s', m, w)
    {
      assert UnderWay(s, m, w);
      assert Enter(c) in s'.tasks;
    }
  }

  lemma OnWayChild(ad: Ad, p: Path, key: Key, v: Value)
    requires Indexable(ad) && OnWay(ad, p) && KeyAt(|p|) == Some(key) && v in ValuesByKey(ad, key)
    ensures OnWay(ad, p + [v])
  {}

  lemma GetMiss(h0: map<Ref, Node>, root: Ref, ad: Ad, s: State, n: Ref, v: Value, spare: Ref, s': State)
    requires Inv(h0, root, ad, s) && n in s.heap && s.heap[n].Inner? && v !in s.heap[n].children && spare !in s.heap
    requires Swapped(s.tasks, Get(n, v), [Set(n, v, spare)], s'.tasks)
    requires s' == State(s.heap[spare := NewNode(Below(s.heap[n].key))], s'.tasks, s.entered, s.pos[spare := s.pos[n] + [v]])
    ensures Inv(h0, root, ad, s')
  {
    assert TaskOk(h0, s, ad, Get(n, v)) && NodeOk(h0, s, ad, n);
    ChildMade(s.heap, s.pos, n, v, spare);
    forall m | m in s'.heap ensures NodeOk(h0, s', ad, m) {
      if m != spare { assert NodeOk(h0, s, ad, m); }
    }
    forall t | t in s'.tasks ensures TaskOk(h0, s', ad, t) {
      if t in s.tasks { assert TaskOk(h0, s, ad, t); }
    }
    forall m, w | m in s'.entered && s'.heap[m].Inner? && w in ValuesByKey(ad, s'.heap[m].key)
      ensures UnderWay(s', m, w)
    {
      assert m != spare && s'.heap[m] == s.heap[m];
      assert UnderWay(s, m, w);
      assert Set(n, v, spare) in s'.tasks;
    }
  }

  lemma ChildMade(h: map<Ref, Node>, pos: map<Ref, Path>, n: Ref, v: Value, spare: Ref)
    requires Placed(h, pos) && n in h && h[n].Inner? && spare !in h
    ensures Placed(h[spare := NewNode(Below(h[n].key))], pos[spare := pos[n] + [v]])
  {}

  lemma SetChild(h0: map<Ref, Node>, root: Ref, ad: Ad, s: State, n: Ref, v: Value, c: Ref, s': State)
    requires Inv(h0, root, ad, s) && n in s.heap && s.heap[n].Inner?
    requires Swapped(s.tasks, Set(n, v, c), [Enter(c)], s'.tasks)
    requires s' == State(s.heap[n := Inner(s.heap[n].key, s.heap[n].children[v := c])], s'.tasks, s.entered, s.pos)
    ensures Inv(h0, root, ad, s')
  {
    assert TaskOk(h0, s, ad, Set(n, v, c)) && NodeOk(h0, s, ad, n);
    OnWayChild(ad, s.pos[n], s.heap[n].key, v);
    SetNodes(h0, ad, s, n, v, c, s');
    forall t | t in s'.tasks ensures TaskOk(h0, s', ad, t) {
      if t in s.tasks { assert TaskOk(h0, s, ad, t); }
    }
    forall m, w | m in s'.entered && s'.heap[m].Inner? && w in ValuesByKey(ad, s'.heap[m].key)
      ensures UnderWay(s', m, w)
    {
      assert UnderWay(s, m, w);
      SetUnderWay(s, n, v, c, s', m, w);
    }
  }

  lemma SetUnderWay(s: State, n: Ref, v: Value, c: Ref, s': State, m: Ref, w: Value)
    requires n in s.heap && s.heap[n].Inner? && m in s.heap && s.heap[m].Inner? && UnderWay(s, m, w)
    requires Swapped(s.tasks, Set(n, v, c), [Enter(c)], s'.tasks) && s'.entered == s.entered
    requires s'.heap == s.heap[n := Inner(s.heap[n].key, s.heap[n].children[v := c])]
    ensures UnderWay(s', m, w)
  {
    assert Enter(c) in s'.tasks;
  }

  lemma SetNodes(h0: map<Ref, Node>, ad: Ad, s: State, n: Ref, v: Value, c: Ref, s': State)
    requires Indexable(ad) && n in s.heap && s.heap[n].Inner?
    requires Placed(s.heap, s.pos) && forall m | m in s.heap :: NodeOk(h0, s, ad, m)
    requires n in s.entered && v in ValuesByKey(ad, s.heap[n].key) && c in s.heap && c !in h0 && s.pos[c] == s.pos[n] + [v]
    requires n in h0 && h0[n].Inner? ==> v !in h0[n].children
    requires s'.heap == s.heap[n := Inner(s.heap[n].key, s.heap[n].children[v := c])]
    requires s'.entered == s.entered && s'.pos == s.pos
    ensures Placed(s'.heap, s'.pos) && forall m | m in s'.heap :: NodeOk(h0, s', ad, m)
  {
    forall m | m in s'.heap ensures NodeOk(h0, s', ad, m) { assert NodeOk(h0, s, ad, m); }
  }

  // The end of a schedule.

  function Updated(found: Option<seq<Ad>>, ad: Ad, covered: bool): Option<seq<Ad>> {
    if covered then Some(AddOrUpdate(if found.Some? then found.value else [], ad)) else found
  }

  /** One step down the old heap, read off the new one: a child that is new finds nothing there. */
  lemma OldStep(h0: map<Ref, Node>, s: State, ad: Ad, n: Ref, p: Path)
    requires Indexable(ad) && n in s.heap && s.heap[n].Inner? && p != []
    requires NodeOk(h0, s, ad, n)
    ensures p[0] in s.heap[n].children ==> HeapFind(h0, n, p) == HeapFind(h0, s.heap[n].children[p[0]], p[1..])
    ensures p[0] !in s.heap[n].children ==> HeapFind(h0, n, p) == None
  {}

  ghost predicate Closed(h: map<Ref, Node>) {
    forall n, v | n in h && h[n].Inner? && v in h[n].children :: h[n].children[v] in h
  }

  lemma OffWayChild(ad: Ad, p: Path, key: Key, v: Value)
    requires Indexable(ad) && KeyAt(|p|) == Some(key)
    requires !OnWay(ad, p) || v !in ValuesByKey(ad, key)
    ensures !OnWay(ad, p + [v])
  {
    assert (p + [v])[|p|] == v;
    assert forall i | 0 <= i < |p| :: p[i] == (p + [v])[i];
  }

  /** What holds at an inner node once no goroutine is left. */
  ghost predicate DoneAt(h0: map<Ref, Node>, ad: Ad, s: State, n: Ref)
    requires Indexable(ad) && n in s.heap && s.heap[n].Inner?
  {
    var key, children := s.heap[n].key, s.heap[n].children;
    && NodeOk(h0, s, ad, n)
    && n in s.pos && KeyAt(|s.pos[n]|) == Some(key)
    && (forall v | v in children :: children[v] in s.heap && children[v] in s.pos && s.pos[children[v]] == s.pos[n] + [v])
    && (n in s.entered ==> OnWay(ad, s.pos[n]))
    && (n in s.entered ==> forall v | v in ValuesByKey(ad, key) :: v in children && children[v] in s.entered)
  }

  lemma AllDone(h0: map<Ref, Node>, root: Ref, ad: Ad, s: State, n: Ref)
    requires Inv(h0, root, ad, s) && s.tasks == [] && n in s.heap && s.heap[n].Inner?
    ensures DoneAt(h0, ad, s, n)
  {
    assert NodeOk(h0, s, ad, n);
    forall v | n in s.entered && v in ValuesByKey(ad, s.heap[n].key) ensures v in s.heap[n].children && s.heap[n].children[v] in s.entered {
      assert UnderWay(s, n, v);
    }
  }

  /** The claim of FinishedSub at one node. */
  ghost predicate FinishedAt(h0: map<Ref, Node>, ad: Ad, s: State, n: Ref, p: Path)
    requires Indexable(ad) && n in s.pos
  {
    && (n in s.entered ==> HeapFind(s.heap, n, p) == Updated(HeapFind(h0, n, p), ad, Covers(ad, KeyAt(|s.pos[n]|), p)))
    && (n in h0 && !OnWay(ad, s.pos[n]) ==> HeapFind(s.heap, n, p) == HeapFind(h0, n, p))
  }

  lemma FinishedAbove(h0: map<Ref, Node>, ad: Ad, s: State, n: Ref, p: Path)
    requires Indexable(ad) && n in s.heap && s.heap[n].Inner? && p != [] && DoneAt(h0, ad, s, n) && Closed(h0)
    requires p[0] in s.heap[n].children && FinishedAt(h0, ad, s, s.heap[n].children[p[0]], p[1..])
    ensures FinishedAt(h0, ad, s, n, p)
  {
    var key, c := s.heap[n].key, s.heap[n].children[p[0]];
    OldStep(h0, s, ad, n, p);
    assert KeyAt(|s.pos[c]|) == Below(key);
    assert HeapFind(s.heap, n, p) == HeapFind(s.heap, c, p[1..]);
    assert n in h0 && p[0] in h0[n].children ==> c in h0;
    if !OnWay(ad, s.pos[n]) || p[0] !in ValuesByKey(ad, key) {
      OffWayChild(ad, s.pos[n], key, p[0]);
    }
  }

  lemma FinishedMiss(h0: map<Ref, Node>, ad: Ad, s: State, n: Ref, p: Path)
    requires Indexable(ad) && n in s.heap && s.heap[n].Inner? && DoneAt(h0, ad, s, n)
    requires p == [] || p[0] !in s.heap[n].children
    ensures FinishedAt(h0, ad, s, n, p)
  {
    if p != [] {
      OldStep(h0, s, ad, n, p);
      assert Covers(ad, KeyAt(|s.pos[n]|), p) ==> p[0] in ValuesByKey(ad, s.heap[n].key);
    }
  }

  lemma FinishedLeaf(h0: map<Ref, Node>, ad: Ad, s: State, n: Ref, p: Path)
    requires Indexable(ad) && n in s.heap && s.heap[n].Leaf? && NodeOk(h0, s, ad, n)
    requires n in s.pos && |s.pos[n]| == 4 && (n in s.entered ==> OnWay(ad, s.pos[n]))
    ensures FinishedAt(h0, ad, s, n, p)
  {
    assert KeyAt(|s.pos[n]|) == None;
  }

  /** Below a node AddAd has entered, all covered leaves have the ad; off its way nothing has changed. */
  lemma {:induction false} FinishedSub(h0: map<Ref, Node>, root: Ref, ad: Ad, s: State, n: Ref, p: Path)
    requires Inv(h0, root, ad, s) && s.tasks == [] && n in s.heap && Closed(h0)
    ensures FinishedAt(h0, ad, s, n, p)
    decreases |p|
  {
    assert NodeOk(h0, s, ad, n);
    if s.heap[n].Inner? {
      AllDone(h0, root, ad, s, n);
      if p != [] && p[0] in s.heap[n].children {
        FinishedSub(h0, root, ad, s, s.heap[n].children[p[0]], p[1..]);
        FinishedAbove(h0, ad, s, n, p);
      } else {
        FinishedMiss(h0, ad, s, n, p);
      }
    } else {
      FinishedLeaf(h0, ad, s, n, p);
    }
  }

  /** When no goroutine is left, every lookup is what a sequential AddAd would have left. */
  lemma Finished(h0: map<Ref, Node>, root: Ref, ad: Ad, s: State, p: Path)
    requires Inv(h0, root, ad, s) && s.tasks == [] && Closed(h0)
    ensures HeapFind(s.heap, root, p) == Updated(HeapFind(h0, root, p), ad, Covers(ad, Top, p))
  {
    FinishedSub(h0, root, ad, s, root, p);
  }

  ghost predicate Next(s: State, ad: Ad, s': State)
    requires Indexable(ad)
  {
    exists i, spare :: Step(s, ad, i, spare, s')
  }

  ghost predicate Enabled(s: State, ad: Ad)
    requires Indexable(ad)
  {
    exists s' :: Next(s, ad, s')
  }

  ghost predicate Schedule(h: map<Ref, Node>, root: Ref, pos: map<Ref, Path>, ad: Ad, ss: seq<State>)
    requires Indexable(ad)
  {
    && ss != [] && ss[0] == Start(h, root, pos)
    && forall j | 0 <= j < |ss| - 1 :: Next(ss[j], ad, ss[j + 1])
  }

  lemma {:induction false} ScheduleInv(h: map<Ref, Node>, root: Ref, pos: map<Ref, Path>, ad: Ad, ss: seq<State>, j: nat)
    requires Indexable(ad) && IsIndex(h, root, pos) && Schedule(h, root, pos, ad, ss) && j < |ss|
    ensures Inv(h, root, ad, ss[j])
  {
    if j == 0 {
      StartInv(h, root, pos, ad);
    } else {
      ScheduleInv(h, root, pos, ad, ss, j - 1);
      assert Next(ss[j - 1], ad, ss[j - 1 + 1]);
      var i, spare :| Step(ss[j - 1], ad, i, spare, ss[j]);
      StepInv(h, root, ad, ss[j - 1], i, spare, ss[j]);
    }
  }

  /** Any interleaving that has run to its end leaves the lookups of one sequential AddAd. */
  lemma InterleavingsAgree(h: map<Ref, Node>, root: Ref, pos: map<Ref, Path>, ad: Ad, ss: seq<State>, t: Tree)
    requires Indexable(ad) && IsIndex(h, root, pos) && Schedule(h, root, pos, ad, ss) && ss[|ss| - 1].tasks == []
    requires Shaped(t, Top) && forall p :: HeapFind(h, root, p) == Find(t, p)
    ensures forall p :: HeapFind(ss[|ss| - 1].heap, root, p) == Find(Add(t, Top, ad), p)
  {
    ScheduleInv(h, root, pos, ad, ss, |ss| - 1);
    forall p ensures HeapFind(ss[|ss| - 1].heap, root, p) == Find(Add(t, Top, ad), p) {
      Finished(h, root, ad, ss[|ss| - 1], p);
      AddFind(t, Top, ad, p);
    }
  }

  /** And the heap it leaves is an index again. */
  lemma EndsAsIndex(h: map<Ref, Node>, root: Ref, pos: map<Ref, Path>, ad: Ad, ss: seq<State>)
    requires Indexable(ad) && IsIndex(h, root, pos) && Schedule(h, root, pos, ad, ss)
    ensures IsIndex(ss[|ss| - 1].heap, root, ss[|ss| - 1].pos)
  {
    var s := ss[|ss| - 1];
    ScheduleInv(h, root, pos, ad, ss, |ss| - 1);
    forall n | n in s.heap && s.heap[n].Leaf? ensures Ranked(s.heap[n].ads) {
      assert NodeOk(h, s, ad, n);
      var before := if n in h then h[n].ads else [];
      AddOrUpdateElems(before, ad);
    }
  }

  /** A leaf made during the AddAd, discarded or not, never holds another ad; an old leaf loses none. */
  lemma NothingLost(h: map<Ref, Node>, root: Ref, pos: map<Ref, Path>, ad: Ad, ss: seq<State>, j: nat, n: Ref)
    requires Indexable(ad) && IsIndex(h, root, pos) && Schedule(h, root, pos, ad, ss) && j < |ss|
    requires n in ss[j].heap && ss[j].heap[n].Leaf?
    ensures n !in h ==> ss[j].heap[n].ads == [] || ss[j].heap[n].ads == [ad]
    ensures n in h ==> h[n].Leaf? && forall a | a in h[n].ads && a.id != ad.id :: a in ss[j].heap[n].ads
  {
    ScheduleInv(h, root, pos, ad, ss, j);
    assert NodeOk(h, ss[j], ad, n);
    if n in h {
      AddOrUpdateElems(h[n].ads, ad);
      forall a | a in h[n].ads && a.id != ad.id ensures a in ss[j].heap[n].ads {
        assert a in Elems(AddOrUpdate(h[n].ads, ad));
      }
    }
  }

  // Every schedule ends.

  /** An upper bound on the steps of one call on a node at level k. */
  ghost function Work(ad: Ad, k: Option<Key>): nat
    requires Indexable(ad)
    decreases Depth(k)
  {
    match k
    case None => 1
    case Some(key) => 1 + |ValuesByKey(ad, key)| * (2 + Work(ad, Below(key)))
  }

  ghost function TaskWork(ad: Ad, pos: map<Ref, Path>, t: Task): nat
    requires Indexable(ad)
  {
    if t.n !in pos then 0
    else match t
      case Enter(n) => Work(ad, KeyAt(|pos[n]|))
      case Get(n, _) => 2 + Work(ad, KeyAt(|pos[n]| + 1))
      case Set(n, _, _) => 1 + Work(ad, KeyAt(|pos[n]| + 1))
  }

  ghost function Total(ad: Ad, pos: map<Ref, Path>, tasks: seq<Task>): nat
    requires Indexable(ad)
  {
    if tasks == [] then 0 else TaskWork(ad, pos, tasks[0]) + Total(ad, pos, tasks[1..])
  }

  lemma {:induction false} TotalConcat(ad: Ad, pos: map<Ref, Path>, a: seq<Task>, b: seq<Task>)
    requires Indexable(ad)
    ensures Total(ad, pos, a + b) == Total(ad, pos, a) + Total(ad, pos, b)
  {
    if a == [] {
      assert a + b == b;
    } else {
      assert (a + b)[1..] == a[1..] + b;
      TotalConcat(ad, pos, a[1..], b);
    }
  }

  lemma TotalSwap(ad: Ad, pos: map<Ref, Path>, tasks: seq<Task>, i: nat, next: seq<Task>)
    requires Indexable(ad) && i < |tasks|
    ensures Total(ad, pos, Swap(tasks, i, next)) + TaskWork(ad, pos, tasks[i]) == Total(ad, pos, tasks) + Total(ad, pos, next)
  {
    assert tasks == tasks[..i] + ([tasks[i]] + tasks[i + 1..]);
    TotalConcat(ad, pos, tasks[..i], [tasks[i]] + tasks[i + 1..]);
    TotalConcat(ad, pos, [tasks[i]], tasks[i + 1..]);
    assert Swap(tasks, i, next) == tasks[..i] + (next + tasks[i + 1..]);
    TotalConcat(ad, pos, tasks[..i], next + tasks[i + 1..]);
    TotalConcat(ad, pos, next, tasks[i + 1..]);
    assert [tasks[i]][1..] == [];
    assert Total(ad, pos, [tasks[i]]) == TaskWork(ad, pos, tasks[i]);
  }

  lemma {:induction false} TotalFrame(ad: Ad, pos: map<Ref, Path>, tasks: seq<Task>, spare: Ref, p: Path)
    requires Indexable(ad) && forall t | t in tasks :: t.n != spare
    ensures Total(ad, pos[spare := p], tasks) == Total(ad, pos, tasks)
  {
    if tasks != [] {
      assert tasks[0] in tasks;
      TotalFrame(ad, pos, tasks[1..], spare, p);
    }
  }

  lemma {:induction false} TotalGets(ad: Ad, pos: map<Ref, Path>, n: Ref, vs: seq<Value>)
    requires Indexable(ad) && n in pos
    ensures Total(ad, pos, Gets(n, vs)) == |vs| * (2 + Work(ad, KeyAt(|pos[n]| + 1)))
  {
    if vs != [] {
      assert Gets(n, vs)[1..] == Gets(n, vs[1..]);
      TotalGets(ad, pos, n, vs[1..]);
      Distribute(|vs| - 1, 2 + Work(ad, KeyAt(|pos[n]| + 1)));
    }
  }

  lemma StepWork(h0: map<Ref, Node>, root: Ref, ad: Ad, s: State, i: nat, spare: Ref, s': State)
    requires Inv(h0, root, ad, s) && Step(s, ad, i, spare, s')
    ensures Total(ad, s'.pos, s'.tasks) < Total(ad, s.pos, s.tasks)
  {
    var t := s.tasks[i];
    assert TaskOk(h0, s, ad, t);
    match t
    case Enter(n) =>
      if s.heap[n].Leaf? {
        TotalSwap(ad, s.pos, s.tasks, i, []);
      } else {
        EnterWork(ad, s, n, s.heap[n].key);
        TotalSwap(ad, s.pos, s.tasks, i, Gets(n, ValuesByKey(ad, s.heap[n].key)));
      }
    case Get(n, v) =>
      if v in s.heap[n].children {
        var c := s.heap[n].children[v];
        OneTask(ad, s.pos, Enter(c));
        assert TaskWork(ad, s.pos, Enter(c)) < TaskWork(ad, s.pos, t);
        TotalSwap(ad, s.pos, s.tasks, i, [Enter(c)]);
      } else {
        GetMissWork(h0, root, ad, s, i, spare);
      }
    case Set(n, v, c) =>
      OneTask(ad, s.pos, Enter(c));
      assert TaskWork(ad, s.pos, Enter(c)) < TaskWork(ad, s.pos, t);
      TotalSwap(ad, s.pos, s.tasks, i, [Enter(c)]);
  }

  lemma EnterWork(ad: Ad, s: State, n: Ref, key: Key)
    requires Indexable(ad) && n in s.pos && KeyAt(|s.pos[n]|) == Some(key)
    ensures Total(ad, s.pos, Gets(n, ValuesByKey(ad, key))) < TaskWork(ad, s.pos, Enter(n))
  {
    TotalGets(ad, s.pos, n, ValuesByKey(ad, key));
    assert KeyAt(|s.pos[n]| + 1) == Below(key);
  }

  lemma GetMissWork(h0: map<Ref, Node>, root: Ref, ad: Ad, s: State, i: nat, spare: Ref)
    requires Inv(h0, root, ad, s) && i < |s.tasks| && s.tasks[i].Get? && spare !in s.heap
    ensures var t := s.tasks[i];
      t.n in s.pos &&
      Total(ad, s.pos[spare := s.pos[t.n] + [t.v]], Swap(s.tasks, i, [Set(t.n, t.v, spare)])) < Total(ad, s.pos, s.tasks)
  {
    var t := s.tasks[i];
    assert TaskOk(h0, s, ad, t);
    var next := Set(t.n, t.v, spare);
    SwapTasks(s.tasks, i, [next]);
    forall u | u in Swap(s.tasks, i, [next]) ensures u.n != spare {
      assert u in s.tasks ==> TaskOk(h0, s, ad, u);
    }
    OneTask(ad, s.pos, next);
    TotalSwap(ad, s.pos, s.tasks, i, [next]);
    TotalFrame(ad, s.pos, Swap(s.tasks, i, [next]), spare, s.pos[t.n] + [t.v]);
  }

  lemma OneTask(ad: Ad, pos: map<Ref, Path>, t: Task)
    requires Indexable(ad)
    ensures Total(ad, pos, [t]) == TaskWork(ad, pos, t)
  {
    assert [t][1..] == [];
  }

  lemma {:induction false} WorkLeft(h: map<Ref, Node>, root: Ref, pos: map<Ref, Path>, ad: Ad, ss: seq<State>, j: nat)
    requires Indexable(ad) && IsIndex(h, root, pos) && Schedule(h, root, pos, ad, ss) && j < |ss|
    ensures j + Total(ad, ss[j].pos, ss[j].tasks) <= Work(ad, Top)
  {
    if j == 0 {
      OneTask(ad, pos, Enter(root));
    } else {
      WorkLeft(h, root, pos, ad, ss, j - 1);
      ScheduleInv(h, root, pos, ad, ss, j - 1);
      assert Next(ss[j - 1], ad, ss[j - 1 + 1]);
      var i, spare :| Step(ss[j - 1], ad, i, spare, ss[j]);
      StepWork(h, root, ad, ss[j - 1], i, spare, ss[j]);
    }
  }

  lemma {:induction false} UnusedRef(refs: set<Ref>) returns (r: Ref)
    ensures r !in refs && forall n | n in refs :: n < r
  {
    if refs == {} {
      r := 0;
    } else {
      var m :| m in refs;
      var r' := UnusedRef(refs - {m});
      r := if r' > m then r' else m + 1;
      assert forall n | n in refs :: n == m || n in refs - {m};
    }
  }

  /** No schedule is longer than the ad's work, and one that stops early can go on. */
  lemma SchedulesEnd(h: map<Ref, Node>, root: Ref, pos: map<Ref, Path>, ad: Ad, ss: seq<State>)
    requires Indexable(ad) && IsIndex(h, root, pos) && Schedule(h, root, pos, ad, ss)
    ensures |ss| <= Work(ad, Top) + 1
    ensures ss[|ss| - 1].tasks != [] ==> Enabled(ss[|ss| - 1], ad)
  {
    var s := ss[|ss| - 1];
    WorkLeft(h, root, pos, ad, ss, |ss| - 1);
    ScheduleInv(h, root, pos, ad, ss, |ss| - 1);
    if s.tasks != [] {
      assert s.tasks[0] in s.tasks;
      assert TaskOk(h, s, ad, s.tasks[0]);
      var spare := UnusedRef(s.heap.Keys);
      var s' := CanStep(s, ad, spare);
      assert Step(s, ad, 0, spare, s') && Next(s, ad, s');
    }
  }

  /** Any schedule can be carried on to its end. */
  lemma {:induction false} RunToEnd(h: map<Ref, Node>, root: Ref, pos: map<Ref, Path>, ad: Ad, ss: seq<State>) returns (full: seq<State>)
    requires Indexable(ad) && IsIndex(h, root, pos) && Schedule(h, root, pos, ad, ss)
    ensures Schedule(h, root, pos, ad, full) && ss <= full && full[|full| - 1].tasks == []
    decreases Work(ad, Top) + 1 - |ss|
  {
    SchedulesEnd(h, root, pos, ad, ss);
    var last := ss[|ss| - 1];
    if last.tasks == [] {
      full := ss;
    } else {
      var s' :| Next(last, ad, s');
      var more := ss + [s'];
      assert forall j | 0 <= j < |ss| - 1 :: Next(more[j], ad, more[j + 1]) by {
        forall j | 0 <= j < |ss| - 1 ensures Next(more[j], ad, more[j + 1]) { assert Next(ss[j], ad, ss[j + 1]); }
      }
      SchedulesEnd(h, root, pos, ad, more);
      full := RunToEnd(h, root, pos, ad, more);
    }
  }

  lemma CanStep(s: State, ad: Ad, spare: Ref) returns (s': State)
    requires Indexable(ad) && s.pos.Keys == s.heap.Keys && spare !in s.heap
    requires s.tasks != [] && s.tasks[0].n in s.heap && (s.heap[s.tasks[0].n].Inner? || s.tasks[0].Enter?)
    ensures Step(s, ad, 0, spare, s')
  {
    var n := s.tasks[0].n;
    match s.tasks[0]
    case Enter(_) =>
      match s.heap[n] {
        case Leaf(ads) =>
          s' := s.(heap := s.heap[n := Leaf(AddOrUpdate(ads, ad))], tasks := Swap(s.tasks, 0, []), entered := s.entered + {n});
        case Inner(key, _) =>
          s' := s.(tasks := Swap(s.tasks, 0, Gets(n, ValuesByKey(ad, key))), entered := s.entered + {n});
      }
    case Get(_, v) =>
      if v in s.heap[n].children {
        s' := s.(tasks := Swap(s.tasks, 0, [Enter(s.heap[n].children[v])]));
      } else {
        s' := s.(heap := s.heap[spare := NewNode(Below(s.heap[n].key))],
                 tasks := Swap(s.tasks, 0, [Set(n, v, spare)]),
                 pos := s.pos[spare := s.pos[n] + [v]]);
      }
    case Set(_, v, c) =>
      s' := s.(heap := s.heap[n := Inner(s.heap[n].key, s.heap[n].children[v := c])], tasks := Swap(s.tasks, 0, [Enter(c)]));
  }
}
