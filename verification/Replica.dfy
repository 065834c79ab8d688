/**
 One replica: Restore and Subscribe (pkg/service/ad.go:185-280) feeding the
 dispatcher that owns the store (pkg/dispatcher/request_multiplexer.go). The
 subscriber, the dispatcher and the start timers run concurrently; a step is a
 send, a receive, a store call under the store's mutex, or a timer firing.

 A start timer left by a create entry has the entry's ad. One left by the batch
 loop has the loop's variable, which is one for the whole loop under go 1.21, the
 version in go.mod, and one per ad from go 1.22 on: `perAd` says which, and both
 are modelled. `base` and `handled` are history variables: the version restored
 from and the log operations applied since.
 */
module Replica {
  import opened AdModel
  import opened Ranking
  import opened IndexTree
  import opened Store
  import opened Log

  datatype Phase = Down | Restoring | Subscribed

  /** What the dispatcher's request channel carries, and a handler's later stages. */
  datatype Msg =
    | BatchMsg(ads: seq<Ad>)                // the restored ads still to be handled
    | EntryMsg(op: Op)                      // a log operation
    | CheckReply(req: ReqId, adID: AdID)    // applied; about to look for the caller's channel
    | SendReply(req: ReqId, adID: AdID)     // found it; about to send on it

  /** A start timer; without an ad of its own it creates what the loop variable holds when it fires. */
  datatype StartTimer = StartTimer(due: Time, own: Option<Ad>)

  datatype Replica = Replica(
    phase: Phase, version: nat, lastID: nat, batch: seq<Entry>,
    sending: Option<Msg>, handling: Option<Msg>,
    store: StoreState, timers: multiset<StartTimer>, loopVar: Option<Ad>, perAd: bool, crashed: bool,
    base: nat, handled: seq<Op>)

  function NewReplica(perAd: bool): Replica {
    Replica(Down, 0, 0, [], None, None, Empty, multiset{}, None, perAd, false, 0, [])
  }

  datatype Step =
    | Snapshot(ads: seq<Ad>)   // Restore reads the table and sends the batch
    | Receive                  // the dispatcher takes a message
    | BatchAd                  // handleCreateBatchAdRequest, one ad
    | BatchDone                // ... its reply: Restore returns, Subscribe begins
    | ApplyEntry               // handleCreateAdRequest, handleDeleteAdRequest: the store part
    | Check(found: bool)       // ... Exists
    | Reply                    // ... Load and send
    | Fire(t: StartTimer)      // a start timer
    | Read                     // XREAD
    | Accept                   // Subscribe looks at the next message of a read

  ghost function WithStore(r: Replica, s: Result<StoreState>): Replica {
    match s case Ok(store) => r.(store := store) case Panic => r.(crashed := true)
  }

  /** Create at once when the ad has started, else leave it to a timer. */
  ghost function Launch(r: Replica, ad: Ad, own: Option<Ad>, now: Time): Replica {
    if now > ad.startAt then WithStore(r, TryCreate(r.store, ad))
    else r.(timers := r.timers + multiset{StartTimer(ad.startAt, own)})
  }

  /** One iteration of the batch loop. */
  ghost function Iterate(r: Replica, ads: seq<Ad>, now: Time): Replica
    requires ads != []
  {
    Launch(r.(loopVar := Some(ads[0])), ads[0], if r.perAd then Some(ads[0]) else None, now).(handling := Some(BatchMsg(ads[1..])))
  }

  function Caught(t: StartTimer, v: Option<Ad>): Option<Ad> {
    if t.own.Some? then t.own else v
  }

  /** A table has no row twice. */
  ghost predicate NoRepeats(ads: seq<Ad>) {
    forall i, j | 0 <= i < j < |ads| :: ads[i] != ads[j]
  }

  ghost predicate ReplicaNext(l: LogState, r: Replica, step: Step, r': Replica) {
    && !r.crashed
    && match step
       case Snapshot(ads) =>
         && r.phase == Down && Elems(ads) == Active(l.rows) && NoRepeats(ads)
         && var v := MaxVersion(l.rows);
            r' == r.(phase := Restoring, version := v, base := v, sending := Some(BatchMsg(ads)))
       case Receive =>
         && r.sending.Some? && r.handling.None?
         && r' == r.(sending := None, handling := r.sending)
       case BatchAd =>
         && r.handling.Some? && r.handling.value.BatchMsg? && r.handling.value.ads != []
         && r' == Iterate(r, r.handling.value.ads, l.now)
       case BatchDone =>
         && r.handling == Some(BatchMsg([]))
         && r' == r.(handling := None, phase := Subscribed, lastID := r.version)
       case ApplyEntry =>
         && r.handling.Some? && r.handling.value.EntryMsg?
         && (match r.handling.value.op
             case CreateOp(ad, req) =>
               r' == Launch(r, ad, Some(ad), l.now).(handling := Some(CheckReply(req, ad.id)), handled := r.handled + [r.handling.value.op])
             case DeleteOp(id) =>
               r' == WithStore(r, TryDelete(r.store, id)).(handling := None, handled := r.handled + [r.handling.value.op]))
       case Check(found) =>
         && r.handling.Some? && r.handling.value.CheckReply?
         && r' == r.(handling := if found then Some(SendReply(r.handling.value.req, r.handling.value.adID)) else None)
       case Reply =>
         && r.handling.Some? && r.handling.value.SendReply?
         && r' == r.(handling := None)
       case Fire(t) =>
         && t in r.timers && t.due <= l.now && Caught(t, r.loopVar).Some?
         && r' == WithStore(r, TryCreate(r.store, Caught(t, r.loopVar).value)).(timers := r.timers - multiset{t})
       case Read =>
         && r.phase == Subscribed && r.batch == [] && r.sending.None?
         && r' == r.(batch := XRead(l.stream, r.lastID))
       case Accept =>
         && r.batch != [] && r.sending.None?
         && var m := r.batch[0];
            r' == if r.version < m.id
                  then r.(version := m.id, lastID := m.id, sending := Some(EntryMsg(m.op)), batch := r.batch[1..])
                  else r.(batch := r.batch[1..])
  }

  ghost predicate NoneDue(timers: multiset<StartTimer>, now: Time) {
    forall t | t in timers :: t.due > now
  }

  /** No timer that is due is one for this id. */
  ghost predicate OwnFired(timers: multiset<StartTimer>, v: Option<Ad>, id: AdID, now: Time) {
    forall t | t in timers && Caught(t, v).Some? && Caught(t, v).value.id == id :: t.due > now
  }

  /**
   Assumed of a replica's environment: it never falls more than 100000 entries
   behind when it reads; an ad's own timer, if due, has fired before its delete is
   applied; and where the loop variable is shared, no restored ad but the last of
   its batch has yet to start.
   */
  ghost predicate Timely(l: LogState, r: Replica, step: Step) {
    && (step == Read ==> r.version + MaxLen >= |l.stream|)
    && (step == ApplyEntry && r.handling.Some? && r.handling.value.EntryMsg? && r.handling.value.op.DeleteOp? ==>
          OwnFired(r.timers, r.loopVar, r.handling.value.op.id, l.now))
    && (step == BatchAd && !r.perAd && r.handling.Some? && r.handling.value.BatchMsg? && |r.handling.value.ads| > 1 ==>
          l.now > r.handling.value.ads[0].startAt)
  }

  // What a replica holds.

  function OpsIn(m: Option<Msg>): seq<Op> {
    if m.Some? && m.value.EntryMsg? then [m.value.op] else []
  }

  function AdsIn(m: Option<Msg>): seq<Ad> {
    if m.Some? && m.value.BatchMsg? then m.value.ads else []
  }

  /** Operations accepted from the stream and not yet applied. */
  function Queue(r: Replica): seq<Op> {
    OpsIn(r.handling) + OpsIn(r.sending)
  }

  /** Restored ads not yet handled. */
  function Rest(r: Replica): seq<Ad> {
    AdsIn(r.handling) + AdsIn(r.sending)
  }

  ghost function TimerAds(timers: multiset<StartTimer>, v: Option<Ad>): set<Ad> {
    set t | t in timers && Caught(t, v).Some? :: Caught(t, v).value
  }

  /** How many committed operations the replica has applied. */
  function Applied(r: Replica): nat {
    r.base + |r.handled|
  }

  ghost predicate PhaseOk(r: Replica) {
    match r.phase
    case Down => r == NewReplica(r.perAd)
    case Restoring =>
      && r.handled == [] && r.batch == [] && r.version == r.base
      && ((r.sending.Some? && r.sending.value.BatchMsg? && r.handling.None?)
          || (r.sending.None? && r.handling.Some? && r.handling.value.BatchMsg?))
    case Subscribed =>
      && r.lastID == r.version
      && (r.handling.Some? ==> !r.handling.value.BatchMsg?)
      && (r.sending.Some? ==> r.sending.value.EntryMsg?)
  }

  /**
   Exactly-once: from the restored version on, every operation up to the
   replica's version once and in order, and a read that continues there.
   */
  ghost predicate InSequence(history: seq<Op>, base: nat, version: nat, done: seq<Op>, batch: seq<Entry>) {
    && base <= version <= |history|
    && done == history[base..version]
    && version + |batch| <= |history|
    && (forall i | 0 <= i < |batch| :: batch[i] == Entry(version + 1 + i, history[version + i]))
  }

  ghost predicate SequenceOk(history: seq<Op>, r: Replica) {
    InSequence(history, r.base, r.version, r.handled + Queue(r), r.batch)
  }

  /** The store agrees with its live ads, all started, and these with the pending ones are `all`. */
  ghost predicate Holds(s: StoreState, pending: set<Ad>, all: set<Ad>, now: Time) {
    && Agrees(s) && Live(s) + pending == all
    && (forall ad | ad in Live(s) :: ad.startAt <= now)
  }

  /** One timer an ad, due when it starts; none on the loop variable while the loop goes on. */
  ghost predicate TimersOk(timers: multiset<StartTimer>, v: Option<Ad>, rest: seq<Ad>) {
    && (forall t | t in timers :: timers[t] == 1 && Caught(t, v).Some? && t.due == Caught(t, v).value.startAt)
    && (forall t, u | t in timers && u in timers && Caught(t, v).value.id == Caught(u, v).value.id :: t == u)
    && (rest != [] ==> forall t | t in timers :: t.own.Some?)
  }

  /** No id is at once in the store's map and on a timer or in the rest of the batch, nor twice in the batch. */
  ghost predicate Apart(known: set<AdID>, timers: set<Ad>, rest: seq<Ad>) {
    && (forall a | a in timers :: a.id !in known)
    && (forall i | 0 <= i < |rest| :: rest[i].id !in known && forall a | a in timers :: a.id != rest[i].id)
    && (forall i, j | 0 <= i < j < |rest| :: rest[i].id != rest[j].id)
  }

  /** All of it together: store, timers, and the rest of the batch stand for the ads `all`. */
  ghost predicate Held(s: StoreState, timers: multiset<StartTimer>, v: Option<Ad>, rest: seq<Ad>, all: set<Ad>, now: Time) {
    && Holds(s, TimerAds(timers, v) + Elems(rest), all, now)
    && TimersOk(timers, v, rest) && Apart(s.ads.Keys, TimerAds(timers, v), rest)
  }

  ghost predicate StoreOk(history: seq<Op>, now: Time, r: Replica) {
    && !r.crashed && Applied(r) <= |history|
    && Held(r.store, r.timers, r.loopVar, Rest(r), Fold(history[..Applied(r)]), now)
    && r.store.ads.Keys <= Made(history[..Applied(r)])
  }

  ghost predicate ReplicaInv(l: LogState, r: Replica) {
    PhaseOk(r) && (r.phase != Down ==> SequenceOk(l.history, r) && StoreOk(l.history, l.now, r))
  }

  /** What a replica's log grows by does not disturb it. */
  lemma LogGrows(l: LogState, l': LogState, r: Replica)
    requires ReplicaInv(l, r) && l.history <= l'.history && l.now <= l'.now
    ensures ReplicaInv(l', r)
  {
    if r.phase != Down {
      SequenceGrows(l.history, l'.history, r);
      StoreGrows(l.history, l.now, l'.history, l'.now, r);
    }
  }

  lemma SequenceGrows(history: seq<Op>, history': seq<Op>, r: Replica)
    requires SequenceOk(history, r) && history <= history'
    ensures SequenceOk(history', r)
  {
    assert history'[r.base..r.version] == history[r.base..r.version];
  }

  lemma StoreGrows(history: seq<Op>, now: Time, history': seq<Op>, now': Time, r: Replica)
    requires StoreOk(history, now, r) && history <= history' && now <= now'
    ensures StoreOk(history', now', r)
  {
    assert history'[..Applied(r)] == history[..Applied(r)];
  }

  /** A step that leaves alone what the store holds and waits for. */
  lemma SameHeld(history: seq<Op>, now: Time, r: Replica, r': Replica)
    requires StoreOk(history, now, r) && Rest(r') == Rest(r)
    requires r' == r.(phase := r'.phase, version := r'.version, lastID := r'.lastID, batch := r'.batch,
                      sending := r'.sending, handling := r'.handling)
    ensures StoreOk(history, now, r')
  {
    assert Applied(r') == Applied(r);
  }

  // Every step keeps the invariant.

  /** Immutable, well-formed ads. */
  ghost predicate ProperAds(all: set<Ad>) {
    UniqueIds(all) && forall a | a in all :: Indexable(a) && a.startAt < a.endAt
  }

  lemma {:induction false} FoldProper(history: seq<Op>, now: Time)
    requires AllSensible(history, now)
    ensures ProperAds(Fold(history))
  {
    if history != [] {
      FoldProper(history[..|history| - 1], now);
      FoldMade(history[..|history| - 1]);
    }
  }

  lemma FoldOk(history: seq<Op>, n: nat, now: Time)
    requires n <= |history| && AllSensible(history, now)
    ensures ProperAds(Fold(history[..n]))
  {
    SensiblePrefix(history, n, now);
    FoldProper(history[..n], now);
  }

  lemma CreateHolds(s: StoreState, pending: set<Ad>, pending': set<Ad>, ad: Ad, all: set<Ad>, now: Time)
    requires Holds(s, pending, all, now) && ProperAds(all + {ad}) && ad.startAt <= now
    requires pending' + {ad} == pending + {ad}
    ensures TryCreate(s, ad) == Ok(Create(s, ad)) && Holds(Create(s, ad), pending', all + {ad}, now)
  {
    SameId(Live(s), all, ad);
    CreateSame(s, ad);
    Unions(Live(s), pending, pending', ad);
  }

  lemma SameId(live: set<Ad>, all: set<Ad>, ad: Ad)
    requires live <= all && UniqueIds(all + {ad})
    ensures forall a | a in live && a.id == ad.id :: a == ad
  {}

  lemma Unions(a: set<Ad>, b: set<Ad>, c: set<Ad>, ad: Ad)
    requires c + {ad} == b + {ad}
    ensures (a + {ad}) + c == (a + b) + {ad}
  {
    assert forall x :: x in c + {ad} <==> x in b + {ad};
  }

  lemma AllProper(l: LogState, r: Replica)
    requires AllSensible(l.history, l.now) && ReplicaInv(l, r) && r.phase != Down
    ensures Applied(r) <= |l.history| && ProperAds(Fold(l.history[..Applied(r)]))
  {
    FoldOk(l.history, Applied(r), l.now);
  }

  // Timers and ids.

  /** The loop variable matters only to timers without an ad of their own. */
  lemma OwnTimers(timers: multiset<StartTimer>, v: Option<Ad>, v': Option<Ad>)
    requires forall t | t in timers :: t.own.Some?
    ensures TimerAds(timers, v) == TimerAds(timers, v')
  {
    assert forall t | t in timers :: Caught(t, v) == Caught(t, v');
  }

  lemma TimerLeft(timers: multiset<StartTimer>, v: Option<Ad>, t: StartTimer, ad: Ad)
    requires Caught(t, v) == Some(ad)
    ensures TimerAds(timers + multiset{t}, v) == TimerAds(timers, v) + {ad}
  {
    var timers' := timers + multiset{t};
    assert forall u :: u in timers' <==> u in timers || u == t;
    forall a ensures a in TimerAds(timers', v) <==> a in TimerAds(timers, v) + {ad} {
      if a in TimerAds(timers, v) {
        var u :| u in timers && Caught(u, v) == Some(a);
        assert u in timers';
      }
      assert t in timers';
    }
  }

  lemma TimerGone(timers: multiset<StartTimer>, v: Option<Ad>, rest: seq<Ad>, t: StartTimer)
    requires TimersOk(timers, v, rest) && t in timers
    ensures TimersOk(timers - multiset{t}, v, rest)
    ensures TimerAds(timers - multiset{t}, v) == TimerAds(timers, v) - {Caught(t, v).value}
    ensures forall a | a in TimerAds(timers - multiset{t}, v) :: a.id != Caught(t, v).value.id
  {
    var timers' := timers - multiset{t};
    assert forall u :: u in timers' <==> u in timers && u != t;
    assert forall u | u in timers' :: timers'[u] == timers[u];
    forall a ensures a in TimerAds(timers', v) <==> a in TimerAds(timers, v) && a != Caught(t, v).value {
      if a in TimerAds(timers, v) && a != Caught(t, v).value {
        var u :| u in timers && Caught(u, v) == Some(a);
        assert u in timers';
      }
    }
  }

  lemma TimerAdded(timers: multiset<StartTimer>, v: Option<Ad>, t: StartTimer, rest: seq<Ad>)
    requires TimersOk(timers, v, rest) && Caught(t, v).Some? && t.due == Caught(t, v).value.startAt
    requires forall a | a in TimerAds(timers, v) :: a.id != Caught(t, v).value.id
    requires rest != [] ==> t.own.Some?
    ensures TimersOk(timers + multiset{t}, v, rest)
  {
    var timers' := timers + multiset{t};
    assert forall u :: u in timers' <==> u in timers || u == t;
    forall u | u in timers ensures Caught(u, v).value.id != Caught(t, v).value.id {
      assert Caught(u, v).value in TimerAds(timers, v);
    }
    assert t !in timers;
  }

  /** The loop goes on to its next ad: no timer is on its variable yet. */
  lemma LoopMoves(timers: multiset<StartTimer>, v: Option<Ad>, ads: seq<Ad>)
    requires TimersOk(timers, v, ads) && ads != []
    ensures TimersOk(timers, Some(ads[0]), ads[1..]) && TimerAds(timers, Some(ads[0])) == TimerAds(timers, v)
  {
    OwnTimers(timers, v, Some(ads[0]));
    assert forall t | t in timers :: Caught(t, v) == Caught(t, Some(ads[0]));
  }

  lemma ApartNext(known: set<AdID>, timers: set<Ad>, ads: seq<Ad>)
    requires Apart(known, timers, ads) && ads != []
    ensures Apart(known + {ads[0].id}, timers, ads[1..])
    ensures Apart(known, timers + {ads[0]}, ads[1..])
    ensures ads[0].id !in known && forall a | a in timers :: a.id != ads[0].id
  {
    var rest := ads[1..];
    assert forall i | 0 <= i < |rest| :: rest[i] == ads[i + 1] && ads[0].id != ads[i + 1].id;
  }

  // What each change keeps of what is held.

  /** The head of the batch is created. */
  lemma IterateNow(s: StoreState, timers: multiset<StartTimer>, v: Option<Ad>, ads: seq<Ad>, all: set<Ad>, now: Time)
    requires Held(s, timers, v, ads, all, now) && ProperAds(all) && ads != [] && ads[0].startAt <= now
    ensures ads[0] in all && TryCreate(s, ads[0]) == Ok(Create(s, ads[0]))
    ensures Held(Create(s, ads[0]), timers, Some(ads[0]), ads[1..], all, now)
  {
    LoopMoves(timers, v, ads);
    ApartNext(s.ads.Keys, TimerAds(timers, v), ads);
    HeadPending(s, TimerAds(timers, v), ads, all, now);
    CreateHolds(s, TimerAds(timers, v) + Elems(ads), TimerAds(timers, v) + Elems(ads[1..]), ads[0], all, now);
  }

  lemma HeadPending(s: StoreState, timers: set<Ad>, ads: seq<Ad>, all: set<Ad>, now: Time)
    requires Holds(s, timers + Elems(ads), all, now) && ads != []
    ensures ads[0] in all && all + {ads[0]} == all
    ensures timers + Elems(ads) == (timers + {ads[0]}) + Elems(ads[1..])
    ensures (timers + Elems(ads[1..])) + {ads[0]} == (timers + Elems(ads)) + {ads[0]}
  {
    assert ads == [ads[0]] + ads[1..];
    assert Elems(ads) == {ads[0]} + Elems(ads[1..]);
  }

  /** The head of the batch gets a timer: its own, or, for the last ad, one on the loop variable. */
  lemma IterateLater(s: StoreState, timers: multiset<StartTimer>, v: Option<Ad>, ads: seq<Ad>, t: StartTimer, all: set<Ad>, now: Time)
    requires Held(s, timers, v, ads, all, now) && ads != [] && t.due == ads[0].startAt
    requires t.own == Some(ads[0]) || (t.own == None && |ads| == 1)
    ensures Held(s, timers + multiset{t}, Some(ads[0]), ads[1..], all, now)
  {
    LoopMoves(timers, v, ads);
    ApartNext(s.ads.Keys, TimerAds(timers, v), ads);
    HeadPending(s, TimerAds(timers, v), ads, all, now);
    TimerLeft(timers, Some(ads[0]), t, ads[0]);
    TimerAdded(timers, Some(ads[0]), t, ads[1..]);
  }

  /** A new ad is created. */
  lemma CreateHeld(s: StoreState, timers: multiset<StartTimer>, v: Option<Ad>, ad: Ad, all: set<Ad>, now: Time)
    requires Held(s, timers, v, [], all, now) && ProperAds(all + {ad}) && ad.startAt <= now
    requires forall a | a in all :: a.id != ad.id
    ensures TryCreate(s, ad) == Ok(Create(s, ad)) && Held(Create(s, ad), timers, v, [], all + {ad}, now)
  {
    NewToTimers(s, TimerAds(timers, v), all, ad, now);
    CreateHolds(s, TimerAds(timers, v) + Elems([]), TimerAds(timers, v) + Elems([]), ad, all, now);
  }

  lemma NewToTimers(s: StoreState, timers: set<Ad>, all: set<Ad>, ad: Ad, now: Time)
    requires Holds(s, timers + Elems([]), all, now) && forall a | a in all :: a.id != ad.id
    ensures forall a | a in timers :: a.id != ad.id
    ensures timers + Elems([]) == timers
  {
    assert timers + Elems([]) == timers;
    assert timers <= all;
  }

  /** A new ad gets a timer. */
  lemma WaitHeld(s: StoreState, timers: multiset<StartTimer>, v: Option<Ad>, ad: Ad, all: set<Ad>, now: Time)
    requires Held(s, timers, v, [], all, now) && ad.id !in s.ads && forall a | a in all :: a.id != ad.id
    ensures Held(s, timers + multiset{StartTimer(ad.startAt, Some(ad))}, v, [], all + {ad}, now)
  {
    var t := StartTimer(ad.startAt, Some(ad));
    NewToTimers(s, TimerAds(timers, v), all, ad, now);
    TimerLeft(timers, v, t, ad);
    TimerAdded(timers, v, t, []);
    WaitHolds(s, TimerAds(timers, v), ad, all, now);
  }

  lemma WaitHolds(s: StoreState, timers: set<Ad>, ad: Ad, all: set<Ad>, now: Time)
    requires Holds(s, timers + Elems([]), all, now)
    ensures Holds(s, (timers + {ad}) + Elems([]), all + {ad}, now)
  {
    assert Live(s) + ((timers + {ad}) + Elems([])) == all + {ad};
  }

  /** A timer fires. */
  lemma FireHeld(s: StoreState, timers: multiset<StartTimer>, v: Option<Ad>, rest: seq<Ad>, t: StartTimer, all: set<Ad>, now: Time)
    requires Held(s, timers, v, rest, all, now) && ProperAds(all) && t in timers && t.due <= now
    ensures Caught(t, v).Some? && Caught(t, v).value in all
    ensures var ad := Caught(t, v).value;
      TryCreate(s, ad) == Ok(Create(s, ad)) && Held(Create(s, ad), timers - multiset{t}, v, rest, all, now)
  {
    var ad := Caught(t, v).value;
    TimerGone(timers, v, rest, t);
    assert ad in TimerAds(timers, v);
    TimerPending(s, TimerAds(timers, v), Elems(rest), ad, all, now);
    CreateHolds(s, TimerAds(timers, v) + Elems(rest), TimerAds(timers - multiset{t}, v) + Elems(rest), ad, all, now);
  }

  lemma TimerPending(s: StoreState, timers: set<Ad>, rest: set<Ad>, ad: Ad, all: set<Ad>, now: Time)
    requires Holds(s, timers + rest, all, now) && ad in timers
    ensures ad in all && all + {ad} == all
    ensures ((timers - {ad}) + rest) + {ad} == (timers + rest) + {ad}
  {}

  /** An ad no timer waits for is deleted. */
  lemma DeleteHeld(s: StoreState, timers: multiset<StartTimer>, v: Option<Ad>, id: AdID, all: set<Ad>, now: Time)
    requires Held(s, timers, v, [], all, now) && TryDelete(s, id).Ok? && forall t :: !Waits(timers, v, id, t)
    ensures Held(Delete(s, id), timers, v, [], Without(all, id), now)
  {
    NoTimerAd(timers, v, id);
    DeleteHolds(s, TimerAds(timers, v), id, all, now);
  }

  lemma DeleteHolds(s: StoreState, timers: set<Ad>, id: AdID, all: set<Ad>, now: Time)
    requires Holds(s, timers + Elems([]), all, now) && TryDelete(s, id).Ok? && forall a | a in timers :: a.id != id
    ensures Holds(Delete(s, id), timers + Elems([]), Without(all, id), now)
  {
    DeleteAgrees(s, id);
    assert timers + Elems([]) == Without(timers, id);
  }

  lemma NoTimerAd(timers: multiset<StartTimer>, v: Option<Ad>, id: AdID)
    requires forall t :: !Waits(timers, v, id, t)
    ensures forall a | a in TimerAds(timers, v) :: a.id != id
  {
    forall a | a in TimerAds(timers, v) ensures a.id != id {
      var t :| t in timers && Caught(t, v) == Some(a);
      assert !Waits(timers, v, id, t);
    }
  }

  lemma SnapshotHeld(ads: seq<Ad>, now: Time)
    requires UniqueIds(Elems(ads)) && NoRepeats(ads)
    ensures Held(Empty, multiset{}, None, ads, Elems(ads), now)
  {
    EmptyAgrees();
    assert TimerAds(multiset{}, None) == {};
    assert forall i | 0 <= i < |ads| :: ads[i] in Elems(ads);
    assert Live(Empty) + ({} + Elems(ads)) == Elems(ads);
  }

  // The steps.

  lemma BatchAdInv(l: LogState, r: Replica, r': Replica)
    requires AllSensible(l.history, l.now) && ReplicaInv(l, r) && ReplicaNext(l, r, BatchAd, r') && Timely(l, r, BatchAd)
    ensures ReplicaInv(l, r')
  {
    AllProper(l, r);
    var ads := r.handling.value.ads;
    assert Rest(r) == ads;
    FoldMade(l.history[..Applied(r)]);
    BatchAdStore(l.history, l.now, r, ads, r');
    BatchSequence(l.history, r, ads, r');
  }

  lemma BatchAdStore(history: seq<Op>, now: Time, r: Replica, ads: seq<Ad>, r': Replica)
    requires StoreOk(history, now, r) && ProperAds(Fold(history[..Applied(r)])) && ads != [] && Rest(r) == ads && r.sending.None?
    requires forall a | a in Fold(history[..Applied(r)]) :: a.id in Made(history[..Applied(r)])
    requires (now > ads[0].startAt || r.perAd || |ads| == 1) && r' == Iterate(r, ads, now)
    ensures StoreOk(history, now, r')
    ensures r' == r.(store := r'.store, timers := r'.timers, loopVar := r'.loopVar, handling := Some(BatchMsg(ads[1..])))
  {
    assert r'.sending == r.sending && Rest(r') == ads[1..];
    if now > ads[0].startAt {
      BatchNow(history, now, r, ads, r');
    } else {
      BatchLater(history, now, r, ads, r');
    }
  }

  lemma BatchSequence(history: seq<Op>, r: Replica, ads: seq<Ad>, r': Replica)
    requires SequenceOk(history, r) && r.handling == Some(BatchMsg(ads)) && ads != []
    requires r' == r.(store := r'.store, timers := r'.timers, loopVar := r'.loopVar, handling := Some(BatchMsg(ads[1..])))
    ensures SequenceOk(history, r')
  {
    assert Queue(r') == Queue(r);
  }

  lemma BatchNow(history: seq<Op>, now: Time, r: Replica, ads: seq<Ad>, r': Replica)
    requires StoreOk(history, now, r) && ProperAds(Fold(history[..Applied(r)])) && ads != [] && Rest(r) == ads
    requires forall a | a in Fold(history[..Applied(r)]) :: a.id in Made(history[..Applied(r)])
    requires now > ads[0].startAt && r' == Iterate(r, ads, now) && Rest(r') == ads[1..]
    ensures StoreOk(history, now, r') && r' == r.(store := r'.store, loopVar := r'.loopVar, handling := Some(BatchMsg(ads[1..])))
  {
    IterateNow(r.store, r.timers, r.loopVar, ads, Fold(history[..Applied(r)]), now);
    assert Applied(r') == Applied(r) && r'.store == Create(r.store, ads[0]);
  }

  lemma BatchLater(history: seq<Op>, now: Time, r: Replica, ads: seq<Ad>, r': Replica)
    requires StoreOk(history, now, r) && ads != [] && Rest(r) == ads
    requires now <= ads[0].startAt && (r.perAd || |ads| == 1) && r' == Iterate(r, ads, now) && Rest(r') == ads[1..]
    ensures StoreOk(history, now, r') && r' == r.(timers := r'.timers, loopVar := r'.loopVar, handling := Some(BatchMsg(ads[1..])))
  {
    var t := StartTimer(ads[0].startAt, if r.perAd then Some(ads[0]) else None);
    IterateLater(r.store, r.timers, r.loopVar, ads, t, Fold(history[..Applied(r)]), now);
    assert Applied(r') == Applied(r);
  }

  lemma NextOp(history: seq<Op>, r: Replica)
    requires SequenceOk(history, r) && r.handling.Some? && r.handling.value.EntryMsg?
    ensures Applied(r) < |history| && history[Applied(r)] == r.handling.value.op
    ensures Fold(history[..Applied(r) + 1]) == FoldStep(Fold(history[..Applied(r)]), r.handling.value.op)
  {
    var op := r.handling.value.op;
    assert (r.handled + Queue(r))[|r.handled|] == op;
    assert history[..Applied(r) + 1] == history[..Applied(r)] + [op];
    FoldSnoc(history[..Applied(r)], op);
  }

  lemma AppliedSequence(history: seq<Op>, r: Replica, r': Replica)
    requires SequenceOk(history, r) && r.handling.Some? && r.handling.value.EntryMsg?
    requires r'.handled == r.handled + [r.handling.value.op] && OpsIn(r'.handling) == []
    requires r'.sending == r.sending && r'.base == r.base && r'.version == r.version && r'.batch == r.batch
    ensures SequenceOk(history, r')
  {
    assert r'.handled + Queue(r') == r.handled + Queue(r);
  }

  /** The effect of a create entry. */
  ghost predicate Launched(r: Replica, ad: Ad, req: ReqId, now: Time, r': Replica) {
    r' == Launch(r, ad, Some(ad), now).(handling := Some(CheckReply(req, ad.id)), handled := r.handled + [CreateOp(ad, req)])
  }

  lemma ApplyCreateInv(l: LogState, r: Replica, ad: Ad, req: ReqId, r': Replica)
    requires AllSensible(l.history, l.now) && ReplicaInv(l, r)
    requires r.phase == Subscribed && r.handling == Some(EntryMsg(CreateOp(ad, req))) && Launched(r, ad, req, l.now, r')
    ensures ReplicaInv(l, r')
  {
    NextOp(l.history, r);
    NewEntry(l, r, ad, req);
    LaunchedStore(l.history, l.now, r, ad, req, r');
    AppliedSequence(l.history, r, r');
  }

  lemma NewEntry(l: LogState, r: Replica, ad: Ad, req: ReqId)
    requires AllSensible(l.history, l.now) && SequenceOk(l.history, r) && r.handling == Some(EntryMsg(CreateOp(ad, req)))
    ensures Applied(r) < |l.history| && l.history[Applied(r)] == CreateOp(ad, req)
    ensures ProperAds(Fold(l.history[..Applied(r)]) + {ad})
    ensures ad.id !in Made(l.history[..Applied(r)]) && forall a | a in Fold(l.history[..Applied(r)]) :: a.id != ad.id
  {
    NextOp(l.history, r);
    FoldOk(l.history, Applied(r) + 1, l.now);
    SensiblePrefix(l.history, Applied(r), l.now);
    FoldMade(l.history[..Applied(r)]);
  }

  lemma LaunchedStore(history: seq<Op>, now: Time, r: Replica, ad: Ad, req: ReqId, r': Replica)
    requires StoreOk(history, now, r) && Rest(r) == [] && Applied(r) < |history| && history[Applied(r)] == CreateOp(ad, req)
    requires ProperAds(Fold(history[..Applied(r)]) + {ad}) && ad.id !in Made(history[..Applied(r)])
    requires forall a | a in Fold(history[..Applied(r)]) :: a.id != ad.id
    requires Launched(r, ad, req, now, r')
    ensures StoreOk(history, now, r') && r' == r.(store := r'.store, timers := r'.timers, handling := r'.handling, handled := r'.handled)
  {
    OneMoreFold(history, Applied(r));
    if now > ad.startAt {
      var s := NewStore(r.store, r.timers, r.loopVar, ad, Fold(history[..Applied(r)]), now);
      LaunchNowEffect(r, ad, req, now, s, r');
      LaunchedTo(history, now, r, ad, req, s, r.timers, r');
    } else {
      WaitHeld(r.store, r.timers, r.loopVar, ad, Fold(history[..Applied(r)]), now);
      LaunchedTo(history, now, r, ad, req, r.store, r.timers + multiset{StartTimer(ad.startAt, Some(ad))}, r');
    }
  }

  lemma NewStore(s: StoreState, timers: multiset<StartTimer>, v: Option<Ad>, ad: Ad, all: set<Ad>, now: Time) returns (s': StoreState)
    requires Held(s, timers, v, [], all, now) && ProperAds(all + {ad}) && ad.startAt <= now
    requires forall a | a in all :: a.id != ad.id
    ensures TryCreate(s, ad) == Ok(s') && Held(s', timers, v, [], all + {ad}, now) && s'.ads.Keys == s.ads.Keys + {ad.id}
  {
    CreateHeld(s, timers, v, ad, all, now);
    s' := Create(s, ad);
  }

  lemma LaunchNowEffect(r: Replica, ad: Ad, req: ReqId, now: Time, s: StoreState, r': Replica)
    requires now > ad.startAt && TryCreate(r.store, ad) == Ok(s) && Launched(r, ad, req, now, r')
    ensures r' == r.(store := s, handling := Some(CheckReply(req, ad.id)), handled := r.handled + [CreateOp(ad, req)])
  {}

  lemma LaunchedTo(history: seq<Op>, now: Time, r: Replica, ad: Ad, req: ReqId, s: StoreState, timers: multiset<StartTimer>, r': Replica)
    requires Rest(r) == [] && Applied(r) < |history| && !r.crashed && r.store.ads.Keys <= Made(history[..Applied(r)])
    requires Fold(history[..Applied(r) + 1]) == Fold(history[..Applied(r)]) + {ad}
    requires Made(history[..Applied(r) + 1]) == Made(history[..Applied(r)]) + {ad.id}
    requires Held(s, timers, r.loopVar, [], Fold(history[..Applied(r)]) + {ad}, now) && s.ads.Keys <= r.store.ads.Keys + {ad.id}
    requires r' == r.(store := s, timers := timers, handling := Some(CheckReply(req, ad.id)), handled := r.handled + [CreateOp(ad, req)])
    ensures StoreOk(history, now, r')
  {
    assert Applied(r') == Applied(r) + 1 && Rest(r') == [];
  }

  lemma OneMoreFold(history: seq<Op>, n: nat)
    requires n < |history|
    ensures Fold(history[..n + 1]) == FoldStep(Fold(history[..n]), history[n])
    ensures Made(history[..n + 1]) == Made(history[..n]) + if history[n].CreateOp? then {history[n].ad.id} else {}
  {
    assert history[..n + 1] == history[..n] + [history[n]];
    FoldSnoc(history[..n], history[n]);
  }

  lemma ApplyInv(l: LogState, r: Replica, r': Replica)
    requires AllSensible(l.history, l.now) && ReplicaInv(l, r) && ReplicaNext(l, r, ApplyEntry, r') && Timely(l, r, ApplyEntry)
    ensures ReplicaInv(l, r')
  {
    match r.handling.value.op
    case CreateOp(ad, req) => ApplyCreateInv(l, r, ad, req, r');
    case DeleteOp(id) =>
      DeleteKnown(l, r, id);
      DeleteEffect(l, r, id, r');
      ApplyDeleteInv(l, r, id, r');
  }

  /** An applied create is live at once exactly when its ad started before; otherwise its own timer waits for the start. */
  lemma EntryShows(l: LogState, r: Replica, ad: Ad, req: ReqId, r': Replica)
    requires AllSensible(l.history, l.now) && ReplicaInv(l, r) && r.handling == Some(EntryMsg(CreateOp(ad, req))) && ReplicaNext(l, r, ApplyEntry, r')
    ensures ad in Live(r'.store) <==> l.now > ad.startAt
    ensures r'.timers == if l.now > ad.startAt then r.timers else r.timers + multiset{StartTimer(ad.startAt, Some(ad))}
  {
    NewEntry(l, r, ad, req);
    NotYetLive(r.store, r.timers, r.loopVar, Rest(r), Fold(l.history[..Applied(r)]), l.now, ad);
    if l.now > ad.startAt {
      CreateLive(r.store, ad);
    }
  }

  lemma NotYetLive(s: StoreState, timers: multiset<StartTimer>, v: Option<Ad>, rest: seq<Ad>, all: set<Ad>, now: Time, ad: Ad)
    requires Held(s, timers, v, rest, all, now) && forall a | a in all :: a.id != ad.id
    ensures ad !in Live(s)
  {}

  /** A restored ad is live at once exactly when it started before; otherwise a timer waits for its start, on its own or the loop's variable. */
  lemma RestoredShows(l: LogState, r: Replica, r': Replica)
    requires AllSensible(l.history, l.now) && ReplicaInv(l, r) && ReplicaNext(l, r, BatchAd, r')
    ensures var ad := r.handling.value.ads[0];
      && (ad in Live(r'.store) <==> l.now > ad.startAt) && r'.loopVar == Some(ad)
      && r'.timers == if l.now > ad.startAt then r.timers else r.timers + multiset{StartTimer(ad.startAt, if r.perAd then Some(ad) else None)}
  {
    AllProper(l, r);
    var ad := r.handling.value.ads[0];
    assert Rest(r) == r.handling.value.ads;
    HeadUnknown(r.store, r.timers, r.loopVar, Rest(r), Fold(l.history[..Applied(r)]), l.now);
    if l.now > ad.startAt {
      CreateLive(r.store, ad);
    }
  }

  lemma HeadUnknown(s: StoreState, timers: multiset<StartTimer>, v: Option<Ad>, ads: seq<Ad>, all: set<Ad>, now: Time)
    requires Held(s, timers, v, ads, all, now) && ProperAds(all) && ads != []
    ensures ads[0] !in Live(s) && Indexable(ads[0]) && Agrees(s)
  {
    HeadPending(s, TimerAds(timers, v), ads, all, now);
  }

  // Deletes.

  ghost predicate Ended(all: set<Ad>, id: AdID, now: Time) {
    exists a :: a in all && a.id == id && a.endAt <= now
  }

  lemma DeletesEnded(history: seq<Op>, now: Time, r: Replica, id: AdID)
    requires AllSensible(history, now) && SequenceOk(history, r) && r.handling == Some(EntryMsg(DeleteOp(id)))
    ensures Applied(r) <= |history| && Ended(Fold(history[..Applied(r)]), id, now)
    ensures ProperAds(Fold(history[..Applied(r)]))
  {
    NextOp(history, r);
    FoldOk(history, Applied(r), now);
    SensiblePrefix(history, Applied(r), now);
  }

  /** The ad a timer stands for is waited for by this timer, and by its id. */
  ghost predicate Waits(timers: multiset<StartTimer>, v: Option<Ad>, id: AdID, t: StartTimer) {
    t in timers && Caught(t, v).Some? && Caught(t, v).value.id == id
  }

  lemma NewToTimersOnly(s: StoreState, timers: set<Ad>, all: set<Ad>, now: Time)
    requires Holds(s, timers + Elems([]), all, now)
    ensures timers <= all && Live(s) + timers == all
  {
    assert timers + Elems([]) == timers;
  }

  lemma KnownUnlessWaiting(s: StoreState, timers: multiset<StartTimer>, v: Option<Ad>, all: set<Ad>, id: AdID, now: Time)
    requires Held(s, timers, v, [], all, now) && ProperAds(all) && Ended(all, id, now)
    ensures TryDelete(s, id).Panic? <==> exists t :: Waits(timers, v, id, t)
    ensures forall t | Waits(timers, v, id, t) :: t.due <= now
  {
    var a :| a in all && a.id == id && a.endAt <= now;
    NewToTimersOnly(s, TimerAds(timers, v), all, now);
    forall t | Waits(timers, v, id, t) ensures t.due <= now && id !in s.ads {
      assert Caught(t, v).value in TimerAds(timers, v);
    }
    if a in Live(s) {
      assert id in s.ads && Indexable(s.ads[id]);
    } else {
      assert a in TimerAds(timers, v);
      var t :| t in timers && Caught(t, v) == Some(a);
      assert Waits(timers, v, id, t);
    }
  }

  /**
   A delete entry dereferences nil exactly when the start timer of its own ad has
   not fired, and then that timer is overdue.
   */
  lemma DeletePanics(l: LogState, r: Replica, id: AdID)
    requires AllSensible(l.history, l.now) && ReplicaInv(l, r) && r.handling == Some(EntryMsg(DeleteOp(id)))
    ensures TryDelete(r.store, id).Panic? <==> exists t :: Waits(r.timers, r.loopVar, id, t)
    ensures forall t | Waits(r.timers, r.loopVar, id, t) :: t.due <= l.now
  {
    DeletesEnded(l.history, l.now, r, id);
    assert Rest(r) == [];
    KnownUnlessWaiting(r.store, r.timers, r.loopVar, Fold(l.history[..Applied(r)]), id, l.now);
  }

  /** So with the ad's own timer fired the store knows the ad, and the nil dereference is out of reach. */
  lemma DeleteKnown(l: LogState, r: Replica, id: AdID)
    requires AllSensible(l.history, l.now) && ReplicaInv(l, r) && r.handling == Some(EntryMsg(DeleteOp(id)))
    requires OwnFired(r.timers, r.loopVar, id, l.now)
    ensures TryDelete(r.store, id).Ok?
    ensures forall t :: !Waits(r.timers, r.loopVar, id, t)
  {
    DeletePanics(l, r, id);
  }

  lemma DeleteEffect(l: LogState, r: Replica, id: AdID, r': Replica)
    requires ReplicaNext(l, r, ApplyEntry, r') && r.handling == Some(EntryMsg(DeleteOp(id))) && TryDelete(r.store, id).Ok?
    ensures r' == r.(store := Delete(r.store, id), handling := None, handled := r.handled + [DeleteOp(id)])
  {}

  lemma ApplyDeleteInv(l: LogState, r: Replica, id: AdID, r': Replica)
    requires ReplicaInv(l, r) && r.phase != Down && r.handling == Some(EntryMsg(DeleteOp(id)))
    requires TryDelete(r.store, id).Ok? && forall t :: !Waits(r.timers, r.loopVar, id, t)
    requires r' == r.(store := Delete(r.store, id), handling := None, handled := r.handled + [DeleteOp(id)])
    ensures ReplicaInv(l, r')
  {
    NextOp(l.history, r);
    assert Rest(r) == [] && Rest(r') == [];
    DeletedStore(l.history, l.now, r, id, r');
    AppliedSequence(l.history, r, r');
  }

  lemma DeletedStore(history: seq<Op>, now: Time, r: Replica, id: AdID, r': Replica)
    requires StoreOk(history, now, r) && Applied(r) < |history| && history[Applied(r)] == DeleteOp(id)
    requires TryDelete(r.store, id).Ok? && forall t :: !Waits(r.timers, r.loopVar, id, t)
    requires r' == r.(store := Delete(r.store, id), handling := None, handled := r.handled + [DeleteOp(id)])
    requires Rest(r) == [] && Rest(r') == []
    ensures StoreOk(history, now, r')
  {
    OneMoreFold(history, Applied(r));
    DeleteHeld(r.store, r.timers, r.loopVar, id, Fold(history[..Applied(r)]), now);
    assert Applied(r') == Applied(r) + 1;
  }

  // Timers, reads, and messages on their way.

  lemma FireInv(l: LogState, r: Replica, t: StartTimer, r': Replica)
    requires AllSensible(l.history, l.now) && ReplicaInv(l, r) && ReplicaNext(l, r, Fire(t), r')
    ensures ReplicaInv(l, r')
  {
    AllProper(l, r);
    FoldMade(l.history[..Applied(r)]);
    FiredStore(l.history, l.now, r, t, r');
    assert Queue(r') == Queue(r);
  }

  lemma FiredStore(history: seq<Op>, now: Time, r: Replica, t: StartTimer, r': Replica)
    requires StoreOk(history, now, r) && ProperAds(Fold(history[..Applied(r)])) && t in r.timers && t.due <= now && Caught(t, r.loopVar).Some?
    requires forall a | a in Fold(history[..Applied(r)]) :: a.id in Made(history[..Applied(r)])
    requires r' == WithStore(r, TryCreate(r.store, Caught(t, r.loopVar).value)).(timers := r.timers - multiset{t})
    ensures StoreOk(history, now, r') && r' == r.(store := r'.store, timers := r'.timers)
  {
    FireHeld(r.store, r.timers, r.loopVar, Rest(r), t, Fold(history[..Applied(r)]), now);
    assert Applied(r') == Applied(r) && Rest(r') == Rest(r);
  }

  lemma ReadNext(stream: seq<Entry>, history: seq<Op>, version: nat)
    requires Gapless(stream, history) && version + MaxLen >= |stream| && version <= |history|
    ensures var batch := XRead(stream, version);
      && version + |batch| <= |history|
      && forall i | 0 <= i < |batch| :: batch[i] == Entry(version + 1 + i, history[version + i])
  {
    ReadMeaning(stream, history, version);
    var batch, later := XRead(stream, version), Later(stream, version);
    assert batch == later[..|batch|];
    forall i | 0 <= i < |batch| ensures batch[i] == Entry(version + 1 + i, history[version + i]) {
      assert batch[i] == later[i] == stream[version + i];
    }
  }

  lemma ReadSequence(stream: seq<Entry>, history: seq<Op>, r: Replica, r': Replica)
    requires Gapless(stream, history) && SequenceOk(history, r) && r.batch == [] && r.version + MaxLen >= |stream|
    requires r' == r.(batch := XRead(stream, r.version))
    ensures SequenceOk(history, r')
  {
    ReadNext(stream, history, r.version);
    assert Queue(r') == Queue(r);
  }

  lemma ReadInv(l: LogState, r: Replica, r': Replica)
    requires Gapless(l.stream, l.history) && ReplicaInv(l, r) && ReplicaNext(l, r, Read, r') && Timely(l, r, Read)
    ensures ReplicaInv(l, r')
  {
    ReadSequence(l.stream, l.history, r, r');
    assert Rest(r') == Rest(r);
    SameHeld(l.history, l.now, r, r');
  }

  lemma AcceptInv(l: LogState, r: Replica, r': Replica)
    requires ReplicaInv(l, r) && ReplicaNext(l, r, Accept, r')
    ensures ReplicaInv(l, r') && r'.version == r.version + 1
  {
    AcceptSequence(l.history, r, r');
    assert Rest(r') == Rest(r);
    SameHeld(l.history, l.now, r, r');
  }

  lemma AcceptSequence(history: seq<Op>, r: Replica, r': Replica)
    requires SequenceOk(history, r) && r.batch != [] && r.sending.None?
    requires r' == r.(version := r.batch[0].id, lastID := r.batch[0].id, sending := Some(EntryMsg(r.batch[0].op)), batch := r.batch[1..])
    ensures SequenceOk(history, r') && r'.version == r.version + 1
  {
    assert r.batch[0] == Entry(r.version + 1, history[r.version]);
    assert history[r.base..r.version + 1] == history[r.base..r.version] + [history[r.version]];
    assert Queue(r') == Queue(r) + [history[r.version]];
    assert r'.handled + Queue(r') == (r.handled + Queue(r)) + [history[r.version]];
    forall i | 0 <= i < |r'.batch| ensures r'.batch[i] == Entry(r'.version + 1 + i, history[r'.version + i]) {
      assert r'.batch[i] == r.batch[i + 1];
    }
  }

  lemma SnapshotInv(l: LogState, r: Replica, ads: seq<Ad>, r': Replica)
    requires LossFree(l) && ReplicaInv(l, r) && ReplicaNext(l, r, Snapshot(ads), r')
    ensures ReplicaInv(l, r')
  {
    assert l.history[..|l.history|] == l.history;
    assert l.history[|l.history|..|l.history|] == [];
    FoldProper(l.history, l.now);
    assert Rest(r') == ads;
    SnapshotHeld(ads, l.now);
  }

  lemma SameContents(l: LogState, r: Replica, r': Replica)
    requires SequenceOk(l.history, r) && StoreOk(l.history, l.now, r)
    requires r' == r.(phase := r'.phase, lastID := r'.lastID, sending := r'.sending, handling := r'.handling)
    requires Queue(r') == Queue(r) && Rest(r') == Rest(r)
    ensures SequenceOk(l.history, r') && StoreOk(l.history, l.now, r')
  {}

  lemma ReceiveInv(l: LogState, r: Replica, r': Replica)
    requires ReplicaInv(l, r) && ReplicaNext(l, r, Receive, r')
    ensures ReplicaInv(l, r')
  {
    assert Queue(r') == Queue(r) && Rest(r') == Rest(r);
    SameContents(l, r, r');
  }

  lemma BatchDoneInv(l: LogState, r: Replica, r': Replica)
    requires ReplicaInv(l, r) && ReplicaNext(l, r, BatchDone, r')
    ensures ReplicaInv(l, r')
  {
    assert Rest(r') == Rest(r);
    SameContents(l, r, r');
  }

  lemma ReplyInv(l: LogState, r: Replica, step: Step, r': Replica)
    requires ReplicaInv(l, r) && ReplicaNext(l, r, step, r') && (step.Check? || step.Reply?)
    ensures ReplicaInv(l, r')
  {
    assert Rest(r') == Rest(r);
    SameContents(l, r, r');
  }

  /** The replica invariant holds after every step of a replica whose environment is as assumed. */
  lemma ReplicaPreserved(l: LogState, r: Replica, step: Step, r': Replica)
    requires LossFree(l) && ReplicaInv(l, r) && ReplicaNext(l, r, step, r') && Timely(l, r, step)
    ensures ReplicaInv(l, r')
  {
    match step
    case Snapshot(ads) => SnapshotInv(l, r, ads, r');
    case BatchAd => BatchAdInv(l, r, r');
    case ApplyEntry => ApplyInv(l, r, r');
    case Fire(t) => FireInv(l, r, t, r');
    case Read => ReadInv(l, r, r');
    case Accept => AcceptInv(l, r, r');
    case Receive => ReceiveInv(l, r, r');
    case BatchDone => BatchDoneInv(l, r, r');
    case Check(_) => ReplyInv(l, r, step, r');
    case Reply => ReplyInv(l, r, step, r');
  }

  // What the invariant says.

  /** Ads of a set that have started. */
  ghost function Started(S: set<Ad>, now: Time): set<Ad> {
    set a | a in S && a.startAt <= now
  }

  /** With no timer due, live is exactly what has started. */
  lemma LiveIsStarted(s: StoreState, timers: multiset<StartTimer>, v: Option<Ad>, all: set<Ad>, now: Time)
    requires Held(s, timers, v, [], all, now) && NoneDue(timers, now)
    ensures Live(s) == Started(all, now)
  {
    NewToTimersOnly(s, TimerAds(timers, v), all, now);
    forall a | a in TimerAds(timers, v) ensures a.startAt > now {
      var t :| t in timers && Caught(t, v) == Some(a);
    }
  }

  ghost predicate Settled(l: LogState, r: Replica) {
    r.phase == Subscribed && Queue(r) == [] && NoneDue(r.timers, l.now)
  }

  lemma IdleLive(l: LogState, r: Replica)
    requires ReplicaInv(l, r) && Settled(l, r)
    ensures r.base <= r.version <= |l.history| && r.handled == l.history[r.base..r.version]
    ensures Agrees(r.store) && Live(r.store) == Started(Fold(l.history[..r.version]), l.now)
  {
    AllApplied(l.history, r);
    assert Rest(r) == [];
    LiveIsStarted(r.store, r.timers, r.loopVar, Fold(l.history[..r.version]), l.now);
  }

  /**
   A replica whose dispatcher has caught up and whose due timers have fired has
   live exactly the ads committed up to its version, not deleted up to it, and
   started: of the table itself, when it is at the last version.
   */
  lemma CaughtUp(l: LogState, r: Replica)
    requires Active(l.rows) == Fold(l.history) && ReplicaInv(l, r) && Settled(l, r)
    ensures r.base <= r.version <= |l.history| && r.handled == l.history[r.base..r.version]
    ensures Live(r.store) == Started(Fold(l.history[..r.version]), l.now)
    ensures r.version == |l.history| ==> Live(r.store) == Started(Active(l.rows), l.now)
  {
    IdleLive(l, r);
    assert l.history[..|l.history|] == l.history;
  }

  lemma AllApplied(history: seq<Op>, r: Replica)
    requires SequenceOk(history, r) && Queue(r) == []
    ensures Applied(r) == r.version && r.handled == history[r.base..r.version]
  {
    assert |history[r.base..r.version]| == |r.handled|;
  }

  /** End to end: such a replica's answer is the naive answer over the table as of its version. */
  lemma NaiveAnswer(l: LogState, r: Replica, req: Request)
    requires ReplicaInv(l, r) && Settled(l, r) && WellFormed(req)
    ensures r.version <= |l.history|
    ensures var wanted := Wanted(Fold(l.history[..r.version]), l.now, req);
      UniqueIds(wanted) && Query(r.store, req) == Page(SortedAds(wanted), req)
  {
    IdleLive(l, r);
    AnswerOf(r.store, Fold(l.history[..r.version]), l.now, req);
  }

  ghost function Wanted(all: set<Ad>, now: Time, req: Request): set<Ad> {
    set a | a in all && a.startAt <= now && Matches(a, req)
  }

  lemma AnswerOf(s: StoreState, all: set<Ad>, now: Time, req: Request)
    requires Agrees(s) && Live(s) == Started(all, now) && WellFormed(req)
    ensures UniqueIds(Wanted(all, now, req)) && Query(s, req) == Page(SortedAds(Wanted(all, now, req)), req)
  {
    QueryMeaning(s, req);
    assert Wanted(all, now, req) == set a | a in Live(s) && Matches(a, req);
  }

  /** Two replicas at one version answer alike, whatever they were restored from. */
  lemma SameVersionSameAnswer(l: LogState, r: Replica, q: Replica, req: Request)
    requires ReplicaInv(l, r) && ReplicaInv(l, q) && Settled(l, r) && Settled(l, q) && WellFormed(req)
    requires r.version == q.version
    ensures Query(r.store, req) == Query(q.store, req)
  {
    NaiveAnswer(l, r, req);
    NaiveAnswer(l, q, req);
  }

  // What the shared loop variable loses.

  predicate Creates(op: Op, id: AdID) {
    op.CreateOp? && op.ad.id == id
  }

  /** Since version v no entry creates the id again. */
  ghost predicate NotRecreated(stream: seq<Entry>, id: AdID, v: nat) {
    forall e | e in stream && Creates(e.op, id) :: e.id <= v
  }

  /** The store does not know the id, and nothing on its way will create it. */
  ghost predicate Lost(r: Replica, id: AdID, v: nat) {
    && r.phase != Down && r.version >= v && (r.phase == Subscribed ==> r.lastID >= v)
    && id !in r.store.ads
    && (forall t | t in r.timers && Caught(t, r.loopVar).Some? :: Caught(t, r.loopVar).value.id != id)
    && (r.loopVar.Some? ==> r.loopVar.value.id != id)
    && (forall a | a in Rest(r) :: a.id != id)
    && (forall op | op in Queue(r) :: !Creates(op, id))
    && (forall e | e in r.batch :: !Creates(e.op, id))
  }

  lemma LaunchOther(r: Replica, ad: Ad, own: Option<Ad>, now: Time, id: AdID)
    requires ad.id != id && id !in r.store.ads && (own.Some? ==> own.value == ad) && (r.loopVar.Some? ==> r.loopVar.value.id != id)
    requires forall t | t in r.timers && Caught(t, r.loopVar).Some? :: Caught(t, r.loopVar).value.id != id
    ensures var r' := Launch(r, ad, own, now);
      && r' == r.(store := r'.store, timers := r'.timers, crashed := r'.crashed)
      && id !in r'.store.ads
      && (forall t | t in r'.timers && Caught(t, r'.loopVar).Some? :: Caught(t, r'.loopVar).value.id != id)
  {
    var r' := Launch(r, ad, own, now);
    assert forall t :: t in r'.timers ==> t in r.timers || t == StartTimer(ad.startAt, own);
  }

  lemma IterateOther(r: Replica, ads: seq<Ad>, now: Time, id: AdID)
    requires ads != [] && id !in r.store.ads && forall a | a in ads :: a.id != id
    requires forall t | t in r.timers && t.own.Some? :: t.own.value.id != id
    ensures var r' := Iterate(r, ads, now);
      && r' == r.(store := r'.store, timers := r'.timers, crashed := r'.crashed, loopVar := Some(ads[0]), handling := Some(BatchMsg(ads[1..])))
      && id !in r'.store.ads
      && (forall t | t in r'.timers && Caught(t, r'.loopVar).Some? :: Caught(t, r'.loopVar).value.id != id)
  {
    var q := r.(loopVar := Some(ads[0]));
    forall t | t in q.timers && Caught(t, q.loopVar).Some? ensures Caught(t, q.loopVar).value.id != id {
      assert ads[0] in ads;
    }
    LaunchOther(q, ads[0], if r.perAd then Some(ads[0]) else None, now, id);
  }

  lemma LostQueue(r: Replica, r': Replica, id: AdID, v: nat)
    requires Lost(r, id, v) && r'.phase != Down && r'.version >= v && (r'.phase == Subscribed ==> r'.lastID >= v)
    requires r' == r.(phase := r'.phase, version := r'.version, lastID := r'.lastID, sending := r'.sending, handling := r'.handling,
                      batch := r'.batch, handled := r'.handled)
    requires (forall a | a in Rest(r') :: a in Rest(r)) && (forall op | op in Queue(r') :: !Creates(op, id))
    requires forall e | e in r'.batch :: !Creates(e.op, id)
    ensures Lost(r', id, v)
  {}

  lemma LostBatchAd(l: LogState, r: Replica, r': Replica, id: AdID, v: nat)
    requires Lost(r, id, v) && PhaseOk(r) && ReplicaNext(l, r, BatchAd, r')
    ensures Lost(r', id, v)
  {
    var ads := r.handling.value.ads;
    assert forall a | a in ads :: a in Rest(r);
    forall t | t in r.timers && t.own.Some? ensures t.own.value.id != id {
      assert Caught(t, r.loopVar) == t.own;
    }
    IterateOther(r, ads, l.now, id);
    assert forall a | a in ads[1..] :: a in ads;
    assert forall a | a in Rest(r') :: a in Rest(r);
    assert Queue(r') == Queue(r);
  }

  lemma LostCreate(l: LogState, r: Replica, ad: Ad, req: ReqId, r': Replica, id: AdID, v: nat)
    requires Lost(r, id, v) && r.handling == Some(EntryMsg(CreateOp(ad, req))) && ReplicaNext(l, r, ApplyEntry, r')
    ensures Lost(r', id, v)
  {
    assert CreateOp(ad, req) in Queue(r);
    LaunchOther(r, ad, Some(ad), l.now, id);
    assert Rest(r') == Rest(r) && forall op | op in Queue(r') :: op in Queue(r);
  }

  lemma LostDelete(l: LogState, r: Replica, other: AdID, r': Replica, id: AdID, v: nat)
    requires Lost(r, id, v) && r.handling == Some(EntryMsg(DeleteOp(other))) && ReplicaNext(l, r, ApplyEntry, r')
    ensures Lost(r', id, v)
  {
    assert Rest(r') == Rest(r) && forall op | op in Queue(r') :: op in Queue(r);
  }

  lemma LostFire(l: LogState, r: Replica, t: StartTimer, r': Replica, id: AdID, v: nat)
    requires Lost(r, id, v) && ReplicaNext(l, r, Fire(t), r')
    ensures Lost(r', id, v)
  {
    assert forall u | u in r'.timers :: u in r.timers;
    assert Rest(r') == Rest(r) && Queue(r') == Queue(r);
  }

  lemma LostAccept(l: LogState, r: Replica, r': Replica, id: AdID, v: nat)
    requires Lost(r, id, v) && PhaseOk(r) && ReplicaNext(l, r, Accept, r')
    ensures Lost(r', id, v)
  {
    assert r.batch[0] in r.batch && forall e | e in r.batch[1..] :: e in r.batch;
    assert forall op | op in Queue(r') :: op in Queue(r) || op == r.batch[0].op;
    assert Rest(r') == Rest(r);
    LostQueue(r, r', id, v);
  }

  lemma LostRead(l: LogState, r: Replica, r': Replica, id: AdID, v: nat)
    requires Lost(r, id, v) && ReplicaNext(l, r, Read, r') && NotRecreated(l.stream, id, v)
    ensures Lost(r', id, v)
  {
    ReadFromStream(l.stream, r.lastID);
    LostQueue(r, r', id, v);
  }

  lemma LostHanded(l: LogState, r: Replica, step: Step, r': Replica, id: AdID, v: nat)
    requires Lost(r, id, v) && PhaseOk(r) && ReplicaNext(l, r, step, r') && (step.Receive? || step.BatchDone?)
    ensures Lost(r', id, v)
  {
    assert Rest(r') == Rest(r) && Queue(r') == Queue(r);
    LostQueue(r, r', id, v);
  }

  lemma LostReply(l: LogState, r: Replica, step: Step, r': Replica, id: AdID, v: nat)
    requires Lost(r, id, v) && ReplicaNext(l, r, step, r') && (step.Check? || step.Reply?)
    ensures Lost(r', id, v)
  {
    assert Rest(r') == Rest(r) && Queue(r') == Queue(r);
    LostQueue(r, r', id, v);
  }

  /** No step brings a lost ad back. */
  lemma LostStays(l: LogState, r: Replica, step: Step, r': Replica, id: AdID, v: nat)
    requires Lost(r, id, v) && PhaseOk(r) && ReplicaNext(l, r, step, r') && NotRecreated(l.stream, id, v)
    ensures Lost(r', id, v)
  {
    match step
    case Snapshot(_) => assert false;
    case BatchAd => LostBatchAd(l, r, r', id, v);
    case ApplyEntry =>
      match r.handling.value.op {
        case CreateOp(ad, req) => LostCreate(l, r, ad, req, r', id, v);
        case DeleteOp(other) => LostDelete(l, r, other, r', id, v);
      }
    case Fire(t) => LostFire(l, r, t, r', id, v);
    case Read => LostRead(l, r, r', id, v);
    case Accept => LostAccept(l, r, r', id, v);
    case Check(_) => LostReply(l, r, step, r', id, v);
    case Reply => LostReply(l, r, step, r', id, v);
    case _ => LostHanded(l, r, step, r', id, v);
  }

  lemma PhaseStays(l: LogState, r: Replica, step: Step, r': Replica)
    requires PhaseOk(r) && ReplicaNext(l, r, step, r')
    ensures PhaseOk(r')
  {
    if step.BatchAd? || step.ApplyEntry? || step.Fire? {
      HandlerPhase(l, r, step, r');
    }
  }

  lemma HandlerPhase(l: LogState, r: Replica, step: Step, r': Replica)
    requires PhaseOk(r) && ReplicaNext(l, r, step, r') && (step.BatchAd? || step.ApplyEntry? || step.Fire?)
    ensures PhaseOk(r')
  {
    HandlerKeeps(l, r, step, r');
  }

  lemma HandlerKeeps(l: LogState, r: Replica, step: Step, r': Replica)
    requires ReplicaNext(l, r, step, r') && (step.BatchAd? || step.ApplyEntry? || step.Fire?)
    ensures r' == r.(store := r'.store, timers := r'.timers, loopVar := r'.loopVar, crashed := r'.crashed,
                     handling := r'.handling, handled := r'.handled)
    ensures step.BatchAd? ==> r'.handling.Some? && r'.handling.value.BatchMsg? && r'.handled == r.handled
    ensures step.Fire? ==> r'.handling == r.handling && r'.handled == r.handled && r.timers != multiset{}
    ensures step.ApplyEntry? ==> r'.handling.None? || r'.handling.value.CheckReply?
  {}

  /** The steps of one replica from some state on, whatever its environment. */
  ghost predicate Steps(ls: seq<LogState>, rs: seq<Replica>, steps: seq<Step>) {
    && |rs| == |steps| + 1 && |ls| == |steps|
    && forall j | 0 <= j < |steps| :: ReplicaNext(ls[j], rs[j], steps[j], rs[j + 1])
  }

  lemma {:induction false} LostForGood(ls: seq<LogState>, rs: seq<Replica>, steps: seq<Step>, id: AdID, v: nat, j: nat)
    requires Steps(ls, rs, steps) && PhaseOk(rs[0]) && Lost(rs[0], id, v) && j < |rs|
    requires forall k | 0 <= k < |ls| :: NotRecreated(ls[k].stream, id, v)
    ensures PhaseOk(rs[j]) && Lost(rs[j], id, v)
  {
    if j > 0 {
      LostForGood(ls, rs, steps, id, v, j - 1);
      assert ReplicaNext(ls[j - 1], rs[j - 1], steps[j - 1], rs[j - 1 + 1]);
      PhaseStays(ls[j - 1], rs[j - 1], steps[j - 1], rs[j]);
      LostStays(ls[j - 1], rs[j - 1], steps[j - 1], rs[j], id, v);
    }
  }

  /** A lost ad never appears, and when its delete arrives the nil dereference does. */
  lemma LostDeletePanics(ls: seq<LogState>, rs: seq<Replica>, steps: seq<Step>, id: AdID, v: nat, j: nat)
    requires Steps(ls, rs, steps) && PhaseOk(rs[0]) && Lost(rs[0], id, v) && j < |steps|
    requires forall k | 0 <= k < |ls| :: NotRecreated(ls[k].stream, id, v)
    ensures id !in rs[j].store.ads
    ensures steps[j] == ApplyEntry && rs[j].handling == Some(EntryMsg(DeleteOp(id))) ==> rs[j + 1].crashed
  {
    LostForGood(ls, rs, steps, id, v, j);
  }

  /**
   When the batch loop moves on, an id not in the rest of the batch and not in the
   store is lost: timers left for it create another ad.
   */
  lemma LoopLoses(l: LogState, r: Replica, r': Replica, id: AdID)
    requires r.phase == Restoring && PhaseOk(r) && r.handling.Some? && r.handling.value.BatchMsg?
    requires !r.perAd && (forall t | t in r.timers :: t.own.None?) && id !in r.store.ads
    requires (forall a | a in r.handling.value.ads :: a.id != id) && ReplicaNext(l, r, BatchAd, r')
    ensures Lost(r', id, r.version)
  {
    var ads := r.handling.value.ads;
    IterateOther(r, ads, l.now, id);
    assert forall a | a in ads[1..] :: a in ads;
  }

  /** Such a restore comes up: of two active ads yet to start, the first is lost. */
  lemma RestoreLoses(l: LogState, a: Ad, b: Ad) returns (rs: seq<Replica>)
    requires Active(l.rows) == {a, b} && a.id != b.id && l.now <= a.startAt && l.now <= b.startAt
    ensures |rs| == 5 && rs[0] == NewReplica(false)
    ensures ReplicaNext(l, rs[0], Snapshot([a, b]), rs[1]) && ReplicaNext(l, rs[1], Receive, rs[2])
    ensures ReplicaNext(l, rs[2], BatchAd, rs[3]) && ReplicaNext(l, rs[3], BatchAd, rs[4])
    ensures Lost(rs[4], a.id, MaxVersion(l.rows))
  {
    var v, r := MaxVersion(l.rows), NewReplica(false);
    var r1 := r.(phase := Restoring, version := v, base := v, sending := Some(BatchMsg([a, b])));
    var r2 := r1.(sending := None, handling := Some(BatchMsg([a, b])));
    var r3 := r2.(loopVar := Some(a), timers := multiset{} + multiset{StartTimer(a.startAt, None)}, handling := Some(BatchMsg([b])));
    assert [a, b][1..] == [b] && Elems([a, b]) == {a, b};
    var r4 := Iterate(r3, [b], l.now);
    LoopLoses(l, r3, r4, a.id);
    rs := [r, r1, r2, r3, r4];
  }
}
