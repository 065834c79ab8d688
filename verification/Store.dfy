/**
 The in-memory store (pkg/inmem/store.go): the map of ads by id beside the
 index, and what makes the index agree with filtering the live ads.
 */
module Store {
  import opened AdModel
  import opened Ranking
  import opened IndexTree
  import opened Index

  datatype StoreState = StoreState(ads: map<AdID, Ad>, tree: Tree)

  const Empty: StoreState := StoreState(map[], NodeTree(map[]))

  ghost function Create(s: StoreState, ad: Ad): StoreState
    requires Shaped(s.tree, Top) && Indexable(ad)
  {
    StoreState(s.ads[ad.id := ad], Add(s.tree, Top, ad))
  }

  /** Deletion takes the ad from the index only; the map keeps it. */
  ghost function Delete(s: StoreState, id: AdID): StoreState
    requires Shaped(s.tree, Top) && id in s.ads && Indexable(s.ads[id])
  {
    s.(tree := Del(s.tree, Top, s.ads[id]))
  }

  function Query(s: StoreState, req: Request): seq<Ad>
    requires WellFormed(req)
  {
    Page(At(s.tree, RequestPath(req, Top)), req)
  }

  /** The all-wildcard path, which every ad is on. */
  const Everything: Path := [AgeValue(0), TextValue(""), TextValue(""), TextValue("")]

  /** The live ads: those a lookup with no restriction can reach. */
  ghost function Live(s: StoreState): set<Ad> {
    Elems(At(s.tree, Everything))
  }

  ghost function OnPath(S: set<Ad>, p: Path): set<Ad> {
    set a | a in S && Indexable(a) && Covers(a, Top, p)
  }

  /** The index is right: on every path, exactly the live ads indexed under all of its values. */
  ghost predicate Agrees(s: StoreState) {
    && Shaped(s.tree, Top)
    && (forall id | id in s.ads :: s.ads[id].id == id)
    && (forall a | a in Live(s) :: Indexable(a) && a.id in s.ads && s.ads[a.id] == a)
    && (forall p :: Elems(At(s.tree, p)) == OnPath(Live(s), p))
  }

  lemma EverythingCovered(ad: Ad)
    requires Indexable(ad)
    ensures Covers(ad, Top, Everything)
  {
    EverythingPath();
    PathMeaning(ad, Request(0, "", "", "", 0, 1));
  }

  lemma EverythingPath()
    ensures RequestPath(Request(0, "", "", "", 0, 1), Top) == Everything
  {}

  lemma EmptyAgrees()
    ensures Agrees(Empty) && Live(Empty) == {}
  {}

  /** A read of a store that agrees is: filter the live ads, sort them, take a page. */
  lemma QueryMeaning(s: StoreState, req: Request)
    requires Agrees(s) && WellFormed(req)
    ensures UniqueIds(set a | a in Live(s) && Matches(a, req))
    ensures Query(s, req) == Page(SortedAds(set a | a in Live(s) && Matches(a, req)), req)
  {
    var p := RequestPath(req, Top);
    FindRanked(s.tree, Top, p);
    forall a | a in Live(s) ensures Covers(a, Top, p) <==> Matches(a, req) {
      PathMeaning(a, req);
    }
    var matching := set a | a in Live(s) && Matches(a, req);
    assert Elems(At(s.tree, p)) == matching;
    SortedUnique(At(s.tree, p), SortedAds(matching));
  }

  /**
   A read, field by field: of the live ads whose targeting each set field of the
   request meets, ordered by CreatedAt and then id, those ranked offset to
   offset + limit, counting from 1.
   */
  lemma ReadInFields(s: StoreState, req: Request)
    requires Agrees(s) && WellFormed(req)
    ensures var found := Query(s, req);
      forall i, j | 0 <= i < j < |found| ::
        found[i].createdAt < found[j].createdAt || (found[i].createdAt == found[j].createdAt && found[i].id < found[j].id)
    ensures var found := Query(s, req);
      var matching := set a | a in Live(s)
        && (req.age == 0 || a.ageStart <= req.age <= a.ageEnd)
        && (req.country == "" || req.country in a.country)
        && (req.platform == "" || req.platform in a.platform)
        && (req.gender == "" || req.gender in a.gender);
      && (forall a | a in found :: a in matching)
      && (forall a | a in matching ::
            var rank := 1 + |set b | b in matching && (b.createdAt < a.createdAt || (b.createdAt == a.createdAt && b.id < a.id))|;
            a in found <==> req.offset <= rank <= req.offset + req.limit)
  {
    QueryMeaning(s, req);
    var matching := set a | a in Live(s) && Matches(a, req);
    PageInFields(matching, req);
    MatchingInFields(Live(s), req);
  }

  /** That page, of any set of live ads. */
  ghost predicate PageOf(live: set<Ad>, req: Request, found: seq<Ad>) {
    && (forall i, j | 0 <= i < j < |found| ::
          found[i].createdAt < found[j].createdAt || (found[i].createdAt == found[j].createdAt && found[i].id < found[j].id))
    && var matching := set a | a in live
         && (req.age == 0 || a.ageStart <= req.age <= a.ageEnd)
         && (req.country == "" || req.country in a.country)
         && (req.platform == "" || req.platform in a.platform)
         && (req.gender == "" || req.gender in a.gender);
       && (forall a | a in found :: a in matching)
       && (forall a | a in matching ::
             var rank := 1 + |set b | b in matching && (b.createdAt < a.createdAt || (b.createdAt == a.createdAt && b.id < a.id))|;
             a in found <==> req.offset <= rank <= req.offset + req.limit)
  }

  lemma ReadIsPage(s: StoreState, req: Request)
    requires Agrees(s) && WellFormed(req)
    ensures PageOf(Live(s), req, Query(s, req))
  {
    ReadInFields(s, req);
  }

  lemma MatchingInFields(live: set<Ad>, req: Request)
    ensures (set a | a in live && Matches(a, req)) == set a | a in live
      && (req.age == 0 || a.ageStart <= req.age <= a.ageEnd)
      && (req.country == "" || req.country in a.country)
      && (req.platform == "" || req.platform in a.platform)
      && (req.gender == "" || req.gender in a.gender)
  {}

  /** Every value the first ad is indexed under, the second is too. */
  ghost predicate TargetsKept(a: Ad, b: Ad)
    requires Indexable(a) && Indexable(b)
  {
    forall key: Key :: ValueSet(a, key) <= ValueSet(b, key)
  }

  lemma {:induction false} KeptPaths(a: Ad, b: Ad, k: Option<Key>, p: Path)
    requires Indexable(a) && Indexable(b) && TargetsKept(a, b) && Covers(a, k, p)
    ensures Covers(b, k, p)
    decreases Depth(k)
  {
    if k.Some? {
      assert p[0] in ValueSet(a, k.value);
      assert p[0] in ValueSet(b, k.value);
      KeptPaths(a, b, Below(k.value), p[1..]);
    }
  }

  /** A path on which only one level is not the wildcard. */
  function PathWith(key: Key, v: Value): Path {
    match key
    case Age => [v, TextValue(""), TextValue(""), TextValue("")]
    case Country => [AgeValue(0), v, TextValue(""), TextValue("")]
    case Platform => [AgeValue(0), TextValue(""), v, TextValue("")]
    case Gender => [AgeValue(0), TextValue(""), TextValue(""), v]
  }

  lemma PathWithCovered(ad: Ad, key: Key, v: Value)
    requires Indexable(ad)
    ensures Covers(ad, Top, PathWith(key, v)) <==> v in ValuesByKey(ad, key)
  {
    var p := PathWith(key, v);
    var p1, p2, p3 := p[1..], p[1..][1..], p[1..][1..][1..];
    assert p3[1..] == [];
    AgeMeaning(ad, AgeValue(0));
    TextMeaning(ad.country, TextValue(""));
    TextMeaning(ad.platform, TextValue(""));
    TextMeaning(ad.gender, TextValue(""));
    assert Covers(ad, Some(Gender), p3) <==> p3[0] in ValuesByKey(ad, Gender);
    assert Covers(ad, Some(Platform), p2) <==> p2[0] in ValuesByKey(ad, Platform) && Covers(ad, Some(Gender), p3);
    assert Covers(ad, Some(Country), p1) <==> p1[0] in ValuesByKey(ad, Country) && Covers(ad, Some(Platform), p2);
    assert Covers(ad, Top, p) <==> p[0] in ValuesByKey(ad, Age) && Covers(ad, Some(Country), p1);
  }

  lemma CreateAt(s: StoreState, ad: Ad, p: Path)
    requires Agrees(s) && Indexable(ad)
    ensures Elems(At(Create(s, ad).tree, p)) ==
      if Covers(ad, Top, p) then Replace(OnPath(Live(s), p), ad) else OnPath(Live(s), p)
  {
    AddFind(s.tree, Top, ad, p);
    FindRanked(s.tree, Top, p);
    AddOrUpdateElems(At(s.tree, p), ad);
  }

  lemma CreateLive(s: StoreState, ad: Ad)
    requires Agrees(s) && Indexable(ad)
    ensures Live(Create(s, ad)) == Replace(Live(s), ad)
  {
    CreateAt(s, ad, Everything);
    EverythingCovered(ad);
  }

  lemma KeptAgrees(s: StoreState, ad: Ad)
    requires Agrees(s) && Indexable(ad)
    requires forall a | a in Live(s) && a.id == ad.id :: TargetsKept(a, ad)
    ensures Agrees(Create(s, ad))
  {
    CreateLive(s, ad);
    var s' := Create(s, ad);
    var live := Live(s);
    forall p ensures Elems(At(s'.tree, p)) == OnPath(Replace(live, ad), p) {
      CreateAt(s, ad, p);
      ReplacedOnPath(live, ad, p);
    }
  }

  lemma ReplacedOnPath(live: set<Ad>, ad: Ad, p: Path)
    requires Indexable(ad) && forall a | a in live :: Indexable(a)
    requires forall a | a in live && a.id == ad.id :: TargetsKept(a, ad)
    ensures OnPath(Replace(live, ad), p) == if Covers(ad, Top, p) then Replace(OnPath(live, p), ad) else OnPath(live, p)
  {
    forall a | a in OnPath(live, p) && a.id == ad.id ensures Covers(ad, Top, p) {
      KeptPaths(a, ad, Top, p);
    }
  }

  lemma DroppedDisagrees(s: StoreState, ad: Ad, a: Ad)
    requires Agrees(s) && Indexable(ad)
    requires a in Live(s) && a.id == ad.id && !TargetsKept(a, ad)
    ensures !Agrees(Create(s, ad))
  {
    CreateLive(s, ad);
    var key: Key :| !(ValueSet(a, key) <= ValueSet(ad, key));
    var v :| v in ValueSet(a, key) && v !in ValueSet(ad, key);
    var p := PathWith(key, v);
    PathWithCovered(a, key, v);
    PathWithCovered(ad, key, v);
    CreateAt(s, ad, p);
    assert a in Elems(At(Create(s, ad).tree, p));
    assert a !in Live(Create(s, ad));
  }

  /**
   When re-adding an id is right: exactly when the live ad it replaces, if any,
   is indexed under no value the new one drops. Otherwise the old ad stays behind
   on the paths the new one does not reach.
   */
  lemma CreateAgrees(s: StoreState, ad: Ad)
    requires Agrees(s) && Indexable(ad)
    ensures Live(Create(s, ad)) == Replace(Live(s), ad)
    ensures Agrees(Create(s, ad)) <==> forall a | a in Live(s) && a.id == ad.id :: TargetsKept(a, ad)
  {
    CreateLive(s, ad);
    if forall a | a in Live(s) && a.id == ad.id :: TargetsKept(a, ad) {
      KeptAgrees(s, ad);
    } else {
      var a :| a in Live(s) && a.id == ad.id && !TargetsKept(a, ad);
      DroppedDisagrees(s, ad, a);
    }
  }

  /** An id used for one ad only: creating it, again or not, is always right. */
  lemma CreateSame(s: StoreState, ad: Ad)
    requires Agrees(s) && Indexable(ad)
    requires forall a | a in Live(s) && a.id == ad.id :: a == ad
    ensures Agrees(Create(s, ad)) && Live(Create(s, ad)) == Live(s) + {ad}
  {
    CreateAgrees(s, ad);
  }

  lemma DeleteAt(s: StoreState, id: AdID, p: Path)
    requires Agrees(s) && id in s.ads && Indexable(s.ads[id])
    ensures Elems(At(Delete(s, id).tree, p)) == OnPath(Without(Live(s), id), p)
  {
    var ad := s.ads[id];
    DelFind(s.tree, Top, ad, p);
    FindRanked(s.tree, Top, p);
    RemoveElems(At(s.tree, p), id);
    assert forall a | a in OnPath(Live(s), p) && a.id == id :: a == ad;
  }

  /** Deleting a known id takes exactly its ad out of every answer, and again changes nothing. */
  lemma DeleteAgrees(s: StoreState, id: AdID)
    requires Agrees(s) && id in s.ads && Indexable(s.ads[id])
    ensures Agrees(Delete(s, id)) && Live(Delete(s, id)) == Without(Live(s), id)
  {
    DeleteAt(s, id, Everything);
    EverythingOn(Without(Live(s), id));
    forall p ensures Elems(At(Delete(s, id).tree, p)) == OnPath(Without(Live(s), id), p) {
      DeleteAt(s, id, p);
    }
  }

  lemma EverythingOn(S: set<Ad>)
    requires forall a | a in S :: Indexable(a)
    ensures OnPath(S, Everything) == S
  {
    forall a | a in S ensures Covers(a, Top, Everything) {
      EverythingCovered(a);
    }
  }

  // Operations that may panic.

  /** CreateAd, or a panic (a store's tree is always shaped). */
  ghost function TryCreate(s: StoreState, ad: Ad): Result<StoreState> {
    if Shaped(s.tree, Top) && Indexable(ad) then Ok(Create(s, ad)) else Panic
  }

  /** DeleteAd, or a panic: an unknown id is a nil dereference. */
  ghost function TryDelete(s: StoreState, id: AdID): Result<StoreState> {
    if Shaped(s.tree, Top) && id in s.ads && Indexable(s.ads[id]) then Ok(Delete(s, id)) else Panic
  }

  /** The store after creating the ads in order; a panic ends the process. */
  ghost function CreateEach(s: StoreState, ads: seq<Ad>): Result<StoreState> {
    if ads == [] then Ok(s)
    else
      match CreateEach(s, ads[..|ads| - 1])
      case Panic => Panic
      case Ok(t) => TryCreate(t, ads[|ads| - 1])
  }

  lemma CreateEachSnoc(s: StoreState, ads: seq<Ad>, ad: Ad)
    ensures CreateEach(s, ads + [ad]) ==
      match CreateEach(s, ads) case Panic => Panic case Ok(t) => TryCreate(t, ad)
  {
    assert (ads + [ad])[..|ads|] == ads;
  }

  lemma CreateOneMore(s: StoreState, ad: Ad, all: set<Ad>)
    requires Agrees(s) && UniqueIds(all) && Live(s) + {ad} <= all
    ensures TryCreate(s, ad).Ok? <==> Indexable(ad)
    ensures Indexable(ad) ==> Agrees(TryCreate(s, ad).value) && Live(TryCreate(s, ad).value) == Live(s) + {ad}
  {
    assert ad in all && forall a | a in Live(s) :: a in all;
    if Indexable(ad) { CreateSame(s, ad); }
  }

  lemma LastAdded(live: set<Ad>, init: seq<Ad>, last: Ad)
    ensures live + Elems(init + [last]) == (live + Elems(init)) + {last}
    ensures UniqueIds(live + Elems(init + [last])) ==> UniqueIds(live + Elems(init))
  {}

  /** Creating ads of distinct ids adds exactly them, and panics exactly when one of them ends at age 255. */
  lemma {:induction false} CreateEachMeaning(s: StoreState, ads: seq<Ad>)
    requires Agrees(s) && UniqueIds(Live(s) + Elems(ads))
    ensures CreateEach(s, ads).Ok? <==> forall a | a in ads :: Indexable(a)
    ensures CreateEach(s, ads).Ok? ==> Agrees(CreateEach(s, ads).value) && Live(CreateEach(s, ads).value) == Live(s) + Elems(ads)
  {
    if ads == [] {
      assert Live(s) + Elems(ads) == Live(s);
    } else {
      var init, last := ads[..|ads| - 1], ads[|ads| - 1];
      assert ads == init + [last];
      LastAdded(Live(s), init, last);
      CreateEachMeaning(s, init);
      if CreateEach(s, init).Ok? {
        CreateOneMore(CreateEach(s, init).value, last, Live(s) + Elems(ads));
      }
    }
  }

  /** In the index, that is the batch of adds. */
  lemma {:induction false} CreateEachTree(s: StoreState, ads: seq<Ad>)
    requires Shaped(s.tree, Top)
    ensures CreateEach(s, ads).Ok? <==> forall a | a in ads :: Indexable(a)
    ensures CreateEach(s, ads).Ok? ==> CreateEach(s, ads).value.tree == AddBatch(s.tree, ads)
  {
    if ads != [] {
      var init, last := ads[..|ads| - 1], ads[|ads| - 1];
      assert ads == init + [last];
      CreateEachTree(s, init);
    }
  }

  // Whole histories of a store.

  datatype StoreOp = StoreCreate(ad: Ad) | StoreBatch(ads: seq<Ad>) | StoreDelete(id: AdID)

  ghost function Apply(s: StoreState, op: StoreOp): Result<StoreState> {
    match op
    case StoreCreate(ad) => TryCreate(s, ad)
    case StoreBatch(ads) => CreateEach(s, ads)
    case StoreDelete(id) => TryDelete(s, id)
  }

  /** The store after the operations; a panic ends the process. */
  ghost function RunFrom(s: StoreState, ops: seq<StoreOp>): Result<StoreState> {
    if ops == [] then Ok(s)
    else
      match RunFrom(s, ops[..|ops| - 1])
      case Panic => Panic
      case Ok(t) => Apply(t, ops[|ops| - 1])
  }

  ghost function Run(ops: seq<StoreOp>): Result<StoreState> {
    RunFrom(Empty, ops)
  }

  /** The history with every batch as its creates. */
  function Singles(ops: seq<StoreOp>): seq<StoreOp> {
    if ops == [] then []
    else
      var last := ops[|ops| - 1];
      Singles(ops[..|ops| - 1]) + if last.StoreBatch? then Creates(last.ads) else [last]
  }

  function Creates(ads: seq<Ad>): seq<StoreOp> {
    seq(|ads|, i requires 0 <= i < |ads| => StoreCreate(ads[i]))
  }

  lemma {:induction false} RunJoin(s: StoreState, a: seq<StoreOp>, b: seq<StoreOp>)
    ensures RunFrom(s, a + b) == match RunFrom(s, a) case Panic => Panic case Ok(t) => RunFrom(t, b)
  {
    if b == [] {
      assert a + b == a;
    } else {
      assert (a + b)[..|a + b| - 1] == a + b[..|b| - 1];
      RunJoin(s, a, b[..|b| - 1]);
    }
  }

  lemma {:induction false} RunCreates(s: StoreState, ads: seq<Ad>)
    ensures RunFrom(s, Creates(ads)) == CreateEach(s, ads)
  {
    if ads != [] {
      assert Creates(ads)[..|ads| - 1] == Creates(ads[..|ads| - 1]);
      RunCreates(s, ads[..|ads| - 1]);
    }
  }

  /** A batch is its creates, one by one. */
  lemma {:induction false} RunSingles(s: StoreState, ops: seq<StoreOp>)
    ensures RunFrom(s, Singles(ops)) == RunFrom(s, ops)
    ensures forall op | op in Singles(ops) :: !op.StoreBatch?
  {
    if ops != [] {
      var init, last := ops[..|ops| - 1], ops[|ops| - 1];
      RunSingles(s, init);
      RunJoin(s, Singles(init), if last.StoreBatch? then Creates(last.ads) else [last]);
      if RunFrom(s, init).Ok? {
        if last.StoreBatch? {
          RunCreates(RunFrom(s, init).value, last.ads);
        } else {
          OneOp(RunFrom(s, init).value, last);
        }
      }
    }
  }

  lemma OneOp(s: StoreState, op: StoreOp)
    ensures RunFrom(s, [op]) == Apply(s, op)
  {
    assert [op][..0] == [];
  }

  lemma RunSnoc(ops: seq<StoreOp>, op: StoreOp)
    ensures Run(ops + [op]) == match Run(ops) case Panic => Panic case Ok(s) => Apply(s, op)
  {
    assert (ops + [op])[..|ops|] == ops;
  }

  /** What the operations mean: the ads created and not deleted since. */
  ghost function LiveAfter(ops: seq<StoreOp>): set<Ad> {
    if ops == [] then {} else LiveStep(LiveAfter(ops[..|ops| - 1]), ops[|ops| - 1])
  }

  ghost function LiveStep(live: set<Ad>, op: StoreOp): set<Ad> {
    match op
    case StoreCreate(ad) => Replace(live, ad)
    case StoreBatch(ads) => ReplaceEach(live, ads)
    case StoreDelete(id) => Without(live, id)
  }

  ghost function ReplaceEach(live: set<Ad>, ads: seq<Ad>): set<Ad> {
    if ads == [] then live else Replace(ReplaceEach(live, ads[..|ads| - 1]), ads[|ads| - 1])
  }

  /** Ads are immutable: an id is only ever created with one ad. */
  ghost predicate OneAdPerId(ops: seq<StoreOp>) {
    forall i, j | 0 <= i < |ops| && 0 <= j < |ops| && ops[i].StoreCreate? && ops[j].StoreCreate? && ops[i].ad.id == ops[j].ad.id ::
      ops[i].ad == ops[j].ad
  }

  ghost predicate Created(ops: seq<StoreOp>, id: AdID) {
    exists i :: 0 <= i < |ops| && ops[i].StoreCreate? && ops[i].ad.id == id
  }

  /** Every delete names an ad created before it, and every ad survives the age expansion. */
  ghost predicate Harmless(ops: seq<StoreOp>) {
    forall i | 0 <= i < |ops| :: HarmlessAfter(ops[..i], ops[i])
  }

  ghost predicate HarmlessAfter(before: seq<StoreOp>, op: StoreOp) {
    match op
    case StoreCreate(ad) => Indexable(ad)
    case StoreBatch(ads) => forall a | a in ads :: Indexable(a)
    case StoreDelete(id) => Created(before, id)
  }

  ghost predicate FromCreates(s: StoreState, ops: seq<StoreOp>) {
    && (forall id :: id in s.ads <==> Created(ops, id))
    && (forall id | id in s.ads :: StoreCreate(s.ads[id]) in ops && Indexable(s.ads[id]))
    && (forall a | a in Live(s) :: StoreCreate(a) in ops)
  }

  lemma {:induction false} SinglesMeaning(ops: seq<StoreOp>)
    requires OneAdPerId(ops) && forall op | op in ops :: !op.StoreBatch?
    ensures Run(ops).Ok? <==> Harmless(ops)
    ensures Run(ops).Ok? ==> Agrees(Run(ops).value) && Live(Run(ops).value) == LiveAfter(ops) && FromCreates(Run(ops).value, ops)
  {
    if ops == [] {
      EmptyAgrees();
    } else {
      var init, last := ops[..|ops| - 1], ops[|ops| - 1];
      assert ops == init + [last];
      assert OneAdPerId(init);
      SinglesMeaning(init);
      HarmlessSnoc(init, last);
      if Run(init).Ok? {
        RunStep(init, last);
      }
    }
  }

  lemma HarmlessSnoc(init: seq<StoreOp>, last: StoreOp)
    ensures Harmless(init + [last]) <==> Harmless(init) && HarmlessAfter(init, last)
  {
    var ops := init + [last];
    assert ops[..|init|] == init && ops[|init|] == last;
    forall i | 0 <= i < |init| ensures ops[i] == init[i] && ops[..i] == init[..i] {}
  }

  lemma RunStep(init: seq<StoreOp>, last: StoreOp)
    requires OneAdPerId(init + [last]) && !last.StoreBatch?
    requires Run(init).Ok? && Agrees(Run(init).value) && FromCreates(Run(init).value, init)
    ensures var r := Run(init + [last]);
      && (r.Ok? <==> HarmlessAfter(init, last))
      && (r.Ok? ==> Agrees(r.value) && FromCreates(r.value, init + [last]))
      && (r.Ok? ==> Live(r.value) == LiveStep(Live(Run(init).value), last))
  {
    var s, ops := Run(init).value, init + [last];
    assert ops[..|ops| - 1] == init && ops[|init|] == last;
    match last
    case StoreCreate(ad) =>
      if Indexable(ad) {
        forall a | a in Live(s) && a.id == ad.id ensures a == ad {
          assert StoreCreate(a) in init;
          var i :| 0 <= i < |init| && init[i] == StoreCreate(a);
          assert ops[i] == StoreCreate(a);
        }
        CreateSame(s, ad);
        CreateLive(s, ad);
        CreatedSnoc(init, last);
      }
    case StoreDelete(id) =>
      CreatedSnoc(init, last);
      if id in s.ads {
        DeleteAgrees(s, id);
      }
  }

  lemma CreatedSnoc(init: seq<StoreOp>, last: StoreOp)
    ensures forall id :: Created(init + [last], id) <==> Created(init, id) || (last.StoreCreate? && last.ad.id == id)
    ensures forall op :: op in init + [last] <==> op in init || op == last
  {
    var ops := init + [last];
    assert ops[|init|] == last;
    forall id | Created(init, id) ensures Created(ops, id) {
      var i :| 0 <= i < |init| && init[i].StoreCreate? && init[i].ad.id == id;
      assert ops[i] == init[i];
    }
  }

  /**
   For every history of creates, batches and deletes over immutable ads: the store
   panics exactly when a delete names an id not created before it or an ad ends at
   age 255, and otherwise the index agrees with the ads created and not deleted
   since.
   */
  lemma RunMeaning(ops: seq<StoreOp>)
    requires OneAdPerId(Singles(ops))
    ensures Run(ops).Ok? <==> Harmless(Singles(ops))
    ensures Run(ops).Ok? ==> Agrees(Run(ops).value) && Live(Run(ops).value) == LiveAfter(ops)
  {
    RunSingles(Empty, ops);
    SinglesMeaning(Singles(ops));
    LiveSingles(ops);
  }

  /** The live ads after a history: each created, and since then neither deleted nor created otherwise. */
  lemma {:induction false} LiveMeaning(ops: seq<StoreOp>, a: Ad)
    requires forall op | op in ops :: !op.StoreBatch?
    ensures a in LiveAfter(ops) <==> exists i ::
      0 <= i < |ops| && ops[i] == StoreCreate(a) &&
      forall j | i < j < |ops| :: ops[j] != StoreDelete(a.id) && (ops[j].StoreCreate? ==> ops[j].ad.id != a.id)
  {
    if ops != [] {
      var n := |ops| - 1;
      var init := ops[..n];
      LiveMeaning(init, a);
      assert ops == init + [ops[n]];
      if a in LiveAfter(ops) && a in LiveAfter(init) && ops[n] != StoreCreate(a) {
        var i :| 0 <= i < n && init[i] == StoreCreate(a) &&
          forall j | i < j < n :: init[j] != StoreDelete(a.id) && (init[j].StoreCreate? ==> init[j].ad.id != a.id);
        assert ops[i] == StoreCreate(a);
      } else if a in LiveAfter(ops) {
        assert ops[n] == StoreCreate(a);
      }
      forall i | 0 <= i < n && ops[i] == StoreCreate(a) ensures init[i] == StoreCreate(a) {}
    }
  }

  lemma {:induction false} LiveSingles(ops: seq<StoreOp>)
    ensures LiveAfter(Singles(ops)) == LiveAfter(ops)
  {
    if ops != [] {
      var init, last := ops[..|ops| - 1], ops[|ops| - 1];
      LiveSingles(init);
      if last.StoreBatch? {
        LiveCreates(Singles(init), last.ads);
      } else {
        assert (Singles(init) + [last])[..|Singles(init)|] == Singles(init);
      }
    }
  }

  lemma {:induction false} LiveCreates(ops: seq<StoreOp>, ads: seq<Ad>)
    ensures LiveAfter(ops + Creates(ads)) == ReplaceEach(LiveAfter(ops), ads)
  {
    var all := ops + Creates(ads);
    if ads == [] {
      assert all == ops;
    } else {
      var init := ads[..|ads| - 1];
      assert all[..|all| - 1] == ops + Creates(init);
      LiveCreates(ops, init);
    }
  }

  lemma BatchPrefix(s: StoreState, batch: seq<Ad>, i: nat)
    requires i < |batch|
    ensures CreateEach(s, batch[..i + 1]) ==
      match CreateEach(s, batch[..i]) case Panic => Panic case Ok(t) => TryCreate(t, batch[i])
  {
    assert batch[..i + 1][..i] == batch[..i];
  }

  class InMemoryStore {
    var ads: map<AdID, Ad>
    const adIndexRoot: IndexInternalNode
    ghost var Repr: set<object>

    ghost predicate Valid()
      reads this, Repr
    {
      && this in Repr && adIndexRoot in Repr && adIndexRoot.Repr <= Repr && this !in adIndexRoot.Repr
      && adIndexRoot.key == Age && adIndexRoot.Valid()
    }

    ghost function State(): StoreState
      reads this, adIndexRoot
    {
      StoreState(ads, adIndexRoot.Contents)
    }

    constructor ()
      ensures Valid() && fresh(Repr) && State() == Empty
    {
      ads := map[];
      adIndexRoot := new IndexInternalNode(Age);
      new;
      Repr := {this} + adIndexRoot.Repr;
    }

    /** On an ad that ends at age 255 the process dies, after the map was written. */
    method CreateAd(ad: Ad) returns (r: Result<AdID>)
      requires Valid()
      modifies Repr
      ensures Valid() && fresh(Repr - old(Repr))
      ensures r == if Indexable(ad) then Ok(ad.id) else Panic
      ensures (if r.Ok? then Ok(State()) else Panic) == Apply(old(State()), StoreCreate(ad))
      ensures r.Panic? ==> State() == old(State()).(ads := old(ads)[ad.id := ad])
    {
      ads := ads[ad.id := ad];
      var added := adIndexRoot.AddAd(ad);
      Repr := Repr + adIndexRoot.Repr;
      r := if added.Panic? then Panic else Ok(ad.id);
    }

    method CreateBatchAds(batch: seq<Ad>) returns (r: Result<()>)
      requires Valid()
      modifies Repr
      ensures Valid() && fresh(Repr - old(Repr))
      ensures r.Panic? <==> exists a :: a in batch && !Indexable(a)
      ensures (if r.Ok? then Ok(State()) else Panic) == Apply(old(State()), StoreBatch(batch))
    {
      ghost var s := State();
      CreateEachTree(s, batch);
      for i := 0 to |batch|
        invariant Valid() && fresh(Repr - old(Repr))
        invariant CreateEach(s, batch[..i]) == Ok(State())
      {
        BatchPrefix(s, batch, i);
        var added := CreateAd(batch[i]);
        if added.Panic? {
          return Panic;
        }
      }
      assert batch[..|batch|] == batch;
      r := Ok(());
    }

    method GetAds(req: Request) returns (found: seq<Ad>, count: nat)
      requires Valid() && WellFormed(req)
      ensures found == Query(State(), req) && count == |found|
      ensures Agrees(State()) ==> forall i, j | 0 <= i < j < |found| ::
        found[i].createdAt < found[j].createdAt || (found[i].createdAt == found[j].createdAt && found[i].id < found[j].id)
      ensures Agrees(State()) ==>
        var matching := set a | a in Live(State())
          && (req.age == 0 || a.ageStart <= req.age <= a.ageEnd)
          && (req.country == "" || req.country in a.country)
          && (req.platform == "" || req.platform in a.platform)
          && (req.gender == "" || req.gender in a.gender);
        && (forall a | a in found :: a in matching)
        && (forall a | a in matching ::
              var rank := 1 + |set b | b in matching && (b.createdAt < a.createdAt || (b.createdAt == a.createdAt && b.id < a.id))|;
              a in found <==> req.offset <= rank <= req.offset + req.limit)
    {
      if Agrees(State()) {
        ReadInFields(State(), req);
      }
      found := adIndexRoot.GetAd(req);
      count := |found|;
    }

    /** An unknown id reaches the index as a nil pointer. */
    method DeleteAd(adID: AdID) returns (r: Result<()>)
      requires Valid()
      modifies Repr
      ensures Valid() && fresh(Repr - old(Repr))
      ensures r.Panic? <==> adID !in old(ads) || !Indexable(old(ads)[adID])
      ensures (if r.Ok? then Ok(State()) else Panic) == Apply(old(State()), StoreDelete(adID))
      ensures r.Panic? ==> State() == old(State())
    {
      if adID !in ads {
        return Panic;
      }
      r := adIndexRoot.DeleteAd(ads[adID]);
      Repr := Repr + adIndexRoot.Repr;
    }
  }
}
