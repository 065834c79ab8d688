/**
 The dispatcher's handlers (pkg/dispatcher/request_multiplexer.go), as written:
 a delayed create leaves a timer whose closure captures a variable. A single
 create captures its own request; the batch loop, under the go 1.21 rule for loop
 variables, shares one variable among all its closures.
 */
module Dispatcher {
  import opened AdModel
  import opened Ranking
  import opened IndexTree
  import opened Index
  import opened Store
  import opened Log
  import opened Replica

  /** A captured variable. */
  class Variable {
    var ad: Ad

    constructor (ad: Ad)
      ensures this.ad == ad
    {
      this.ad := ad;
    }
  }

  datatype Timer = Timer(due: Time, captured: Variable)

  function AlreadyStarted(ads: seq<Ad>, now: Time): seq<Ad> {
    if ads == [] then []
    else AlreadyStarted(ads[..|ads| - 1], now) + if now > ads[|ads| - 1].startAt then [ads[|ads| - 1]] else []
  }

  function Delayed(ads: seq<Ad>, now: Time): seq<Ad> {
    if ads == [] then []
    else Delayed(ads[..|ads| - 1], now) + if now > ads[|ads| - 1].startAt then [] else [ads[|ads| - 1]]
  }

  class Dispatcher {
    const store: InMemoryStore
    var timers: seq<Timer>

    ghost predicate Valid()
      reads this, store, store.Repr, set t | t in timers :: t.captured
    {
      && store.Valid() && this !in store.Repr
      && forall t | t in timers :: t.captured !in store.Repr
    }

    constructor (store: InMemoryStore)
      requires store.Valid()
      ensures Valid() && this.store == store && timers == []
    {
      this.store := store;
      timers := [];
    }

    /** Create the ad now, or leave a timer on the variable that holds it. */
    method Launch(v: Variable, now: Time) returns (r: Result<()>)
      requires Valid() && v !in store.Repr
      modifies this, store.Repr
      ensures Valid() && fresh(store.Repr - old(store.Repr)) && v.ad == old(v.ad)
      ensures now > v.ad.startAt ==> timers == old(timers) && (r.Ok? <==> TryCreate(old(store.State()), v.ad).Ok?)
      ensures now > v.ad.startAt && r.Ok? ==> Ok(store.State()) == TryCreate(old(store.State()), v.ad)
      ensures now <= v.ad.startAt ==> r.Ok? && store.State() == old(store.State())
      ensures now <= v.ad.startAt ==> timers == old(timers) + [Timer(v.ad.startAt, v)]
    {
      if now > v.ad.startAt {
        var created := store.CreateAd(v.ad);
        r := if created.Ok? then Ok(()) else Panic;
      } else {
        timers := timers + [Timer(v.ad.startAt, v)];
        r := Ok(());
      }
    }

    /** An iteration of the batch loop: the loop variable takes the next ad. */
    method AssignAndLaunch(v: Variable, ad: Ad, now: Time) returns (r: Result<()>)
      requires Valid() && v !in store.Repr
      modifies this, v, store.Repr
      ensures Valid() && fresh(store.Repr - old(store.Repr)) && v.ad == ad
      ensures now > ad.startAt ==> timers == old(timers) && (r.Ok? <==> TryCreate(old(store.State()), ad).Ok?)
      ensures now > ad.startAt && r.Ok? ==> Ok(store.State()) == TryCreate(old(store.State()), ad)
      ensures now <= ad.startAt ==> r.Ok? && store.State() == old(store.State())
      ensures now <= ad.startAt ==> timers == old(timers) + [Timer(ad.startAt, v)]
    {
      v.ad := ad;
      r := Launch(v, now);
    }

    /** handleCreateAdRequest up to its reply: the request has its own variable. */
    method HandleCreate(ad: Ad, now: Time) returns (r: Result<()>)
      requires Valid()
      modifies this, store.Repr
      ensures Valid() && fresh(store.Repr - old(store.Repr))
      ensures now > ad.startAt ==> timers == old(timers) && (r.Ok? <==> TryCreate(old(store.State()), ad).Ok?)
      ensures now > ad.startAt && r.Ok? ==> Ok(store.State()) == TryCreate(old(store.State()), ad)
      ensures now <= ad.startAt ==> r.Ok? && store.State() == old(store.State())
      ensures now <= ad.startAt ==> exists v: Variable :: fresh(v) && v.ad == ad && timers == old(timers) + [Timer(ad.startAt, v)]
    {
      var v := new Variable(ad);
      r := Launch(v, now);
    }

    method HandleDelete(adID: AdID) returns (r: Result<()>)
      requires Valid()
      modifies store.Repr
      ensures Valid() && fresh(store.Repr - old(store.Repr))
      ensures r.Ok? <==> TryDelete(old(store.State()), adID).Ok?
      ensures r.Ok? ==> Ok(store.State()) == TryDelete(old(store.State()), adID)
    {
      r := store.DeleteAd(adID);
    }

    /** A timer's closure: it creates whatever its variable holds when it fires. */
    method Fire(i: nat) returns (r: Result<()>)
      requires Valid() && i < |timers|
      modifies this, store.Repr
      ensures Valid() && fresh(store.Repr - old(store.Repr))
      ensures timers == old(timers)[..i] + old(timers)[i + 1..]
      ensures r.Ok? <==> TryCreate(old(store.State()), old(timers)[i].captured.ad).Ok?
      ensures r.Ok? ==> Ok(store.State()) == TryCreate(old(store.State()), old(timers)[i].captured.ad)
    {
      var created := store.CreateAd(timers[i].captured.ad);
      timers := timers[..i] + timers[i + 1..];
      r := if created.Ok? then Ok(()) else Panic;
    }

    /**
     handleCreateBatchAdRequest up to its reply, with the clock standing still.
     Every delayed ad gets a timer, and every such timer ends up with the last ad
     of the batch.
     */
    method HandleCreateBatch(ads: seq<Ad>, now: Time) returns (r: Result<()>)
      requires Valid()
      modifies this, store.Repr
      ensures Valid() && fresh(store.Repr - old(store.Repr))
      ensures r.Ok? <==> CreateEach(old(store.State()), AlreadyStarted(ads, now)).Ok?
      ensures r.Ok? ==> Ok(store.State()) == CreateEach(old(store.State()), AlreadyStarted(ads, now))
      ensures ads == [] ==> r.Ok? && timers == old(timers) && store.State() == old(store.State())
      ensures r.Ok? && ads != [] ==> exists v: Variable ::
        fresh(v) && v !in store.Repr && v.ad == ads[|ads| - 1] && timers == old(timers) + TimersFor(Delayed(ads, now), v)
    {
      if ads == [] {
        return Ok(());
      }
      var v := new Variable(ads[0]);
      ghost var s, before := store.State(), timers;
      for i := 0 to |ads|
        invariant Valid() && fresh(store.Repr - old(store.Repr)) && v !in store.Repr
        invariant Ok(store.State()) == CreateEach(s, AlreadyStarted(ads[..i], now))
        invariant i > 0 ==> v.ad == ads[i - 1]
        invariant timers == before + TimersFor(Delayed(ads[..i], now), v)
      {
        LaunchStep(s, ads, i, now, v);
        r := AssignAndLaunch(v, ads[i], now);
        if r.Panic? {
          PanicStays(s, ads, i + 1, now);
          return;
        }
      }
      assert ads[..|ads|] == ads;
      r := Ok(());
    }

    /** Every timer fires, in whatever order, all of them on one variable. */
    method FireAll(ghost v: Variable) returns (r: Result<()>)
      requires Valid() && v !in store.Repr && forall t | t in timers :: t.captured == v
      modifies this, store.Repr
      ensures Valid() && fresh(store.Repr - old(store.Repr)) && v.ad == old(v.ad)
      ensures (if r.Ok? then Ok(store.State()) else Panic) == CreateEach(old(store.State()), Repeat(v.ad, |old(timers)|))
    {
      ghost var s, n, k := store.State(), |timers|, 0;
      r := Ok(());
      while timers != []
        invariant Valid() && fresh(store.Repr - old(store.Repr)) && v.ad == old(v.ad) && v !in store.Repr
        invariant k + |timers| == n && r.Ok? && CreateEach(s, Repeat(v.ad, k)) == Ok(store.State())
        invariant forall t | t in timers :: t.captured == v
        decreases |timers|
      {
        var i :| 0 <= i < |timers|;
        RepeatStep(s, v.ad, k);
        r := Fire(i);
        k := k + 1;
        if r.Panic? {
          PanicRepeats(s, v.ad, k, n);
          return;
        }
      }
    }

    /**
     A restored batch and the firing of every timer it left: what is created after
     the started ads is the last ad, once for every delayed one.
     */
    method RestoreAndFireAll(ads: seq<Ad>, now: Time) returns (r: Result<()>)
      requires Valid() && timers == []
      modifies this, store.Repr
      ensures (if r.Ok? then Ok(store.State()) else Panic) == CreateEach(old(store.State()), AllCreated(ads, now))
    {
      ghost var s := store.State();
      r := HandleCreateBatch(ads, now);
      if ads != [] {
        CreateJoin(s, AlreadyStarted(ads, now), Captured(ads, now));
        if r.Ok? {
          ghost var v: Variable :| v !in store.Repr && v.ad == ads[|ads| - 1] && timers == TimersFor(Delayed(ads, now), v);
          TimersOn(Delayed(ads, now), v);
          r := FireAll(v);
        }
      }
    }
  }

  function TimersFor(ads: seq<Ad>, v: Variable): seq<Timer> {
    seq(|ads|, i requires 0 <= i < |ads| => Timer(ads[i].startAt, v))
  }

  lemma StartedSnoc(ads: seq<Ad>, i: nat, now: Time)
    requires i < |ads|
    ensures now > ads[i].startAt ==>
      AlreadyStarted(ads[..i + 1], now) == AlreadyStarted(ads[..i], now) + [ads[i]] && Delayed(ads[..i + 1], now) == Delayed(ads[..i], now)
    ensures now <= ads[i].startAt ==>
      AlreadyStarted(ads[..i + 1], now) == AlreadyStarted(ads[..i], now) && Delayed(ads[..i + 1], now) == Delayed(ads[..i], now) + [ads[i]]
  {
    assert ads[..i + 1][..i] == ads[..i];
  }

  lemma TimersOn(ads: seq<Ad>, v: Variable)
    ensures |TimersFor(ads, v)| == |ads| && forall t | t in TimersFor(ads, v) :: t.captured == v
  {}

  lemma TimersSnoc(ads: seq<Ad>, ad: Ad, v: Variable)
    ensures TimersFor(ads + [ad], v) == TimersFor(ads, v) + [Timer(ad.startAt, v)]
  {}

  /** What the loop has done after i ads, and what it does with the next. */
  lemma LaunchStep(s: StoreState, ads: seq<Ad>, i: nat, now: Time, v: Variable)
    requires i < |ads| && CreateEach(s, AlreadyStarted(ads[..i], now)).Ok?
    ensures now > ads[i].startAt ==>
      && CreateEach(s, AlreadyStarted(ads[..i + 1], now)) == TryCreate(CreateEach(s, AlreadyStarted(ads[..i], now)).value, ads[i])
      && Delayed(ads[..i + 1], now) == Delayed(ads[..i], now)
    ensures now <= ads[i].startAt ==>
      && AlreadyStarted(ads[..i + 1], now) == AlreadyStarted(ads[..i], now)
      && TimersFor(Delayed(ads[..i + 1], now), v) == TimersFor(Delayed(ads[..i], now), v) + [Timer(ads[i].startAt, v)]
  {
    StartedSnoc(ads, i, now);
    if now > ads[i].startAt {
      CreateEachSnoc(s, AlreadyStarted(ads[..i], now), ads[i]);
    } else {
      TimersSnoc(Delayed(ads[..i], now), ads[i], v);
    }
  }

  lemma {:induction false} PanicStays(s: StoreState, ads: seq<Ad>, n: nat, now: Time)
    requires n <= |ads| && CreateEach(s, AlreadyStarted(ads[..n], now)) == Panic
    ensures CreateEach(s, AlreadyStarted(ads, now)) == Panic
    decreases |ads| - n
  {
    if n < |ads| {
      StartedSnoc(ads, n, now);
      CreateEachSnoc(s, AlreadyStarted(ads[..n], now), ads[n]);
      PanicStays(s, ads, n + 1, now);
    } else {
      assert ads[..n] == ads;
    }
  }

  lemma {:induction false} StartedOrDelayed(ads: seq<Ad>, now: Time)
    ensures forall a :: a in AlreadyStarted(ads, now) <==> a in ads && now > a.startAt
    ensures forall a :: a in Delayed(ads, now) <==> a in ads && now <= a.startAt
  {
    if ads != [] {
      var init, last := ads[..|ads| - 1], ads[|ads| - 1];
      assert ads == init + [last];
      StartedOrDelayed(init, now);
    }
  }

  lemma CreateSome(s: StoreState, ads: seq<Ad>, some: seq<Ad>)
    requires Agrees(s) && UniqueIds(Live(s) + Elems(ads)) && forall a | a in ads :: Indexable(a)
    requires forall a | a in some :: a in ads
    ensures CreateEach(s, some).Ok? && Live(CreateEach(s, some).value) == Live(s) + Elems(some)
  {
    CreateSomeAgrees(s, ads, some);
  }

  lemma CreateSomeAgrees(s: StoreState, ads: seq<Ad>, some: seq<Ad>)
    requires Agrees(s) && UniqueIds(Live(s) + Elems(ads)) && forall a | a in ads :: Indexable(a)
    requires forall a | a in some :: a in ads
    ensures CreateEach(s, some).Ok? && Agrees(CreateEach(s, some).value)
    ensures Live(CreateEach(s, some).value) == Live(s) + Elems(some)
  {
    assert Live(s) + Elems(some) <= Live(s) + Elems(ads);
    CreateEachMeaning(s, some);
  }

  function Repeat(ad: Ad, n: nat): seq<Ad> {
    seq(n, _ => ad)
  }

  /** What the timers of a batch create: each what the shared variable ends with. */
  function Captured(ads: seq<Ad>, now: Time): seq<Ad>
    requires ads != []
  {
    Repeat(ads[|ads| - 1], |Delayed(ads, now)|)
  }

  /** All that a restored batch creates, in the end. */
  function AllCreated(ads: seq<Ad>, now: Time): seq<Ad> {
    if ads == [] then [] else AlreadyStarted(ads, now) + Captured(ads, now)
  }

  lemma {:induction false} CreateJoin(s: StoreState, a: seq<Ad>, b: seq<Ad>)
    ensures CreateEach(s, a + b) == match CreateEach(s, a) case Panic => Panic case Ok(t) => CreateEach(t, b)
  {
    if b == [] {
      assert a + b == a;
    } else {
      assert (a + b)[..|a + b| - 1] == a + b[..|b| - 1];
      CreateJoin(s, a, b[..|b| - 1]);
    }
  }

  lemma RepeatStep(s: StoreState, ad: Ad, k: nat)
    ensures CreateEach(s, Repeat(ad, k + 1)) ==
      match CreateEach(s, Repeat(ad, k)) case Panic => Panic case Ok(t) => TryCreate(t, ad)
  {
    assert Repeat(ad, k + 1) == Repeat(ad, k) + [ad];
    CreateEachSnoc(s, Repeat(ad, k), ad);
  }

  lemma PanicRepeats(s: StoreState, ad: Ad, k: nat, n: nat)
    requires k <= n && CreateEach(s, Repeat(ad, k)).Panic?
    ensures CreateEach(s, Repeat(ad, n)).Panic?
  {
    assert Repeat(ad, n) == Repeat(ad, k) + Repeat(ad, n - k);
    CreateJoin(s, Repeat(ad, k), Repeat(ad, n - k));
  }

  /**
   When a batch comes out right: exactly when no delayed ad is other than the last.
   Any other delayed ad that is not live already never appears, though all timers fire.
   */
  lemma SharedVariable(s: StoreState, ads: seq<Ad>, now: Time)
    requires Agrees(s) && UniqueIds(Live(s) + Elems(ads)) && ads != [] && forall a | a in ads :: Indexable(a)
    ensures CreateEach(s, AlreadyStarted(ads, now) + Delayed(ads, now)).Ok?
    ensures CreateEach(s, AllCreated(ads, now)).Ok?
    ensures Live(CreateEach(s, AlreadyStarted(ads, now) + Delayed(ads, now)).value) == Live(s) + Elems(ads)
    ensures Live(CreateEach(s, AllCreated(ads, now)).value) == Live(s) + Elems(ads)
      <==> forall a | a in ads && now <= a.startAt :: a == ads[|ads| - 1] || a in Live(s)
  {
    var intended, asWritten := AlreadyStarted(ads, now) + Delayed(ads, now), AllCreated(ads, now);
    IntendedElems(ads, now);
    WrittenElems(ads, now);
    CreateSome(s, ads, intended);
    CreateSome(s, ads, asWritten);
    Added(Live(s), Elems(ads), Elems(asWritten));
  }

  lemma IntendedElems(ads: seq<Ad>, now: Time)
    ensures Elems(AlreadyStarted(ads, now) + Delayed(ads, now)) == Elems(ads)
    ensures forall a | a in AlreadyStarted(ads, now) + Delayed(ads, now) :: a in ads
  {
    StartedOrDelayed(ads, now);
  }

  lemma WrittenElems(ads: seq<Ad>, now: Time)
    requires ads != []
    ensures Elems(AllCreated(ads, now)) <= Elems(ads) && forall a | a in AllCreated(ads, now) :: a in ads
    ensures forall a | a in Elems(ads) :: a in Elems(AllCreated(ads, now)) <==> now > a.startAt || a == ads[|ads| - 1]
  {
    StartedOrDelayed(ads, now);
    RepeatIn(AlreadyStarted(ads, now), ads[|ads| - 1], |Delayed(ads, now)|);
    HasOne(Delayed(ads, now));
  }

  /** Restoring only adds: over a store that is not empty it is right exactly when nothing live is missing from the snapshot. */
  lemma RestoreOnlyAdds(s: StoreState, snapshot: seq<Ad>)
    requires Agrees(s) && UniqueIds(Live(s) + Elems(snapshot)) && forall a | a in snapshot :: Indexable(a)
    ensures CreateEach(s, snapshot).Ok?
    ensures Live(CreateEach(s, snapshot).value) == Elems(snapshot) <==> Live(s) <= Elems(snapshot)
  {
    CreateEachMeaning(s, snapshot);
  }

  lemma Added(live: set<Ad>, wanted: set<Ad>, created: set<Ad>)
    requires created <= wanted
    ensures live + created == live + wanted <==> forall a | a in wanted :: a in created || a in live
  {
    assert live + created == live + wanted ==> forall a | a in wanted :: a in live + created;
  }

  // Before all timers have fired, and after a delete.

  /** The delayed ads that start by d, and those that start later. */
  function StartingBy(ads: seq<Ad>, now: Time, d: Time): seq<Ad> {
    if ads == [] then []
    else
      var last := ads[|ads| - 1];
      StartingBy(ads[..|ads| - 1], now, d) + if now <= last.startAt <= d then [last] else []
  }

  function StartingAfter(ads: seq<Ad>, now: Time, d: Time): seq<Ad> {
    if ads == [] then []
    else
      var last := ads[|ads| - 1];
      StartingAfter(ads[..|ads| - 1], now, d) + if now <= last.startAt && d < last.startAt then [last] else []
  }

  lemma {:induction false} ByOrAfter(ads: seq<Ad>, now: Time, d: Time)
    ensures forall a :: a in StartingBy(ads, now, d) <==> a in ads && now <= a.startAt <= d
    ensures forall a :: a in StartingAfter(ads, now, d) <==> a in ads && now <= a.startAt && d < a.startAt
    ensures |StartingBy(ads, now, d)| + |StartingAfter(ads, now, d)| == |Delayed(ads, now)|
  {
    if ads != [] {
      var init, last := ads[..|ads| - 1], ads[|ads| - 1];
      assert ads == init + [last];
      ByOrAfter(init, now, d);
    }
  }

  /** What a restored batch has created by time d. */
  function CreatedBy(ads: seq<Ad>, now: Time, d: Time): seq<Ad>
    requires ads != []
  {
    AlreadyStarted(ads, now) + Repeat(ads[|ads| - 1], |StartingBy(ads, now, d)|)
  }

  lemma RepeatElems(ad: Ad, n: nat)
    ensures Elems(Repeat(ad, n)) == if n == 0 then {} else {ad}
  {
    if n > 0 { assert Repeat(ad, n)[0] == ad; }
  }

  lemma HasOne(s: seq<Ad>)
    ensures |s| > 0 <==> exists a :: a in s
  {
    if |s| > 0 { assert s[0] in s; }
  }

  lemma RepeatIn(s: seq<Ad>, ad: Ad, n: nat)
    ensures forall a :: a in s + Repeat(ad, n) <==> a in s || (a == ad && n > 0)
  {
    if n > 0 { assert Repeat(ad, n)[0] == ad; }
  }

  lemma SomeStart(ads: seq<Ad>, now: Time, d: Time)
    ensures |StartingBy(ads, now, d)| > 0 <==> exists a :: a in ads && now <= a.startAt <= d
  {
    ByOrAfter(ads, now, d);
    HasOne(StartingBy(ads, now, d));
  }

  lemma CreatedByElems(ads: seq<Ad>, now: Time, d: Time)
    requires ads != []
    ensures var last := ads[|ads| - 1];
      last in Elems(CreatedBy(ads, now, d)) <==> now > last.startAt || exists a :: a in ads && now <= a.startAt <= d
    ensures forall a | a in CreatedBy(ads, now, d) :: a in ads
  {
    StartedOrDelayed(ads, now);
    SomeStart(ads, now, d);
    RepeatIn(AlreadyStarted(ads, now), ads[|ads| - 1], |StartingBy(ads, now, d)|);
  }

  /**
   The last ad of a batch is served from the first start of any delayed one on: at d
   it is live exactly when it had started, was live before, or some delayed ad's
   start has come, its own or not.
   */
  lemma LastEarly(s: StoreState, ads: seq<Ad>, now: Time, d: Time)
    requires Agrees(s) && UniqueIds(Live(s) + Elems(ads)) && ads != [] && forall a | a in ads :: Indexable(a)
    ensures var t := CreateEach(s, CreatedBy(ads, now, d)); var last := ads[|ads| - 1];
      t.Ok? && (last in Live(t.value) <==>
        last in Live(s) || now > last.startAt || exists a :: a in ads && now <= a.startAt <= d)
  {
    CreatedByElems(ads, now, d);
    CreateSome(s, ads, CreatedBy(ads, now, d));
  }

  /**
   Deleted at d, it comes back exactly when some delayed ad of the batch starts
   later: that ad's timer creates it again.
   */
  lemma LastComesBack(s: StoreState, ads: seq<Ad>, now: Time, d: Time, t: StoreState, u: StoreState)
    requires Agrees(s) && UniqueIds(Live(s) + Elems(ads)) && ads != [] && forall a | a in ads :: Indexable(a)
    requires CreateEach(s, CreatedBy(ads, now, d)) == Ok(t) && TryDelete(t, ads[|ads| - 1].id) == Ok(u)
    ensures var last := ads[|ads| - 1]; var w := CreateEach(u, Repeat(last, |StartingAfter(ads, now, d)|));
      w.Ok? && (last in Live(w.value) <==> exists a :: a in ads && now <= a.startAt && d < a.startAt)
  {
    var last, n := ads[|ads| - 1], |StartingAfter(ads, now, d)|;
    CreatedByElems(ads, now, d);
    CreateSomeAgrees(s, ads, CreatedBy(ads, now, d));
    AgainAfterDelete(t, u, last, n);
    ByOrAfter(ads, now, d);
    HasOne(StartingAfter(ads, now, d));
    assert (exists a :: a in ads && now <= a.startAt && d < a.startAt) <==> n > 0;
  }

  lemma AgainAfterDelete(t: StoreState, u: StoreState, ad: Ad, n: nat)
    requires Agrees(t) && Indexable(ad) && TryDelete(t, ad.id) == Ok(u)
    ensures var w := CreateEach(u, Repeat(ad, n)); w.Ok? && (ad in Live(w.value) <==> n > 0)
  {
    DeleteAgrees(t, ad.id);
    RepeatElems(ad, n);
    assert forall a | a in Live(u) :: a.id != ad.id;
    assert UniqueIds(Live(u));
    CreateEachMeaning(u, Repeat(ad, n));
  }

  /**
   The order of the restored batch, which its query leaves open, does not matter
   exactly when no ad is delayed, or the last ad is the same, or neither last ad
   needs a timer to be live.
   */
  lemma RestoreOrderFree(s: StoreState, ads: seq<Ad>, other: seq<Ad>, now: Time)
    requires Agrees(s) && UniqueIds(Live(s) + Elems(ads)) && ads != [] && forall a | a in ads :: Indexable(a)
    requires other != [] && Elems(ads) == Elems(other)
    ensures CreateEach(s, AllCreated(ads, now)).Ok? && CreateEach(s, AllCreated(other, now)).Ok?
    ensures Live(CreateEach(s, AllCreated(ads, now)).value) == Live(CreateEach(s, AllCreated(other, now)).value) <==>
      || (forall a | a in ads :: now > a.startAt)
      || ads[|ads| - 1] == other[|other| - 1]
      || (WithoutTimer(s, ads[|ads| - 1], now) && WithoutTimer(s, other[|other| - 1], now))
  {
    forall a ensures a in ads <==> a in other {
      assert a in Elems(ads) <==> a in Elems(other);
    }
    AllCreatedLive(s, ads, now);
    AllCreatedLive(s, other, now);
    assert StartedSet(ads, now) == StartedSet(other, now);
    var base := Live(s) + StartedSet(ads, now);
    OneOrOther(base, forall a | a in ads :: now > a.startAt, ads[|ads| - 1], other[|other| - 1]);
  }

  ghost function StartedSet(ads: seq<Ad>, now: Time): set<Ad> {
    set a | a in ads && now > a.startAt
  }

  lemma OneOrOther(base: set<Ad>, none: bool, x: Ad, y: Ad)
    ensures base + (if none then {} else {x}) == base + (if none then {} else {y}) <==> none || x == y || (x in base && y in base)
  {
    assert x in base + {x} && y in base + {y};
  }

  ghost predicate WithoutTimer(s: StoreState, ad: Ad, now: Time) {
    ad in Live(s) || now > ad.startAt
  }

  lemma AllCreatedLive(s: StoreState, ads: seq<Ad>, now: Time)
    requires Agrees(s) && UniqueIds(Live(s) + Elems(ads)) && ads != [] && forall a | a in ads :: Indexable(a)
    ensures CreateEach(s, AllCreated(ads, now)).Ok?
    ensures Live(CreateEach(s, AllCreated(ads, now)).value) ==
      (Live(s) + StartedSet(ads, now)) + if forall a | a in ads :: now > a.startAt then {} else {ads[|ads| - 1]}
  {
    AllCreatedElems(ads, now);
    CreateSome(s, ads, AllCreated(ads, now));
  }

  lemma AllCreatedElems(ads: seq<Ad>, now: Time)
    requires ads != []
    ensures forall a | a in AllCreated(ads, now) :: a in ads
    ensures Elems(AllCreated(ads, now)) == StartedSet(ads, now) + if forall a | a in ads :: now > a.startAt then {} else {ads[|ads| - 1]}
  {
    StartedOrDelayed(ads, now);
    HasOne(Delayed(ads, now));
    RepeatIn(AlreadyStarted(ads, now), ads[|ads| - 1], |Delayed(ads, now)|);
  }
}
