/**
 Runs of the system from the empty service, step by step: a read that returns the ad
 just created, a delete that reaches a dispatcher which has applied its create, a
 restored ad whose start timer fires, a dispatcher left blocked. They show that what
 is proved of such states is proved of something.
 */
module Scenarios {
  import opened AdModel
  import opened Ranking
  import opened IndexTree
  import opened Store
  import opened Log
  import opened Replica
  import opened Cluster
  import opened Replies
  import opened Progress

  /** A replica of an empty service, restored. */
  const Idler: Replica := NewReplica(false).(phase := Subscribed)

  const Booted: State := State(InitialLog, map[0 := Idler], map[])

  lemma Boot() returns (run: Run)
    ensures RunTo(run, Booted)
  {
    var r := NewReplica(false);
    var r1 := r.(phase := Restoring, sending := Some(BatchMsg([])));
    var r2 := r1.(sending := None, handling := Some(BatchMsg([])));
    var c := State(InitialLog, map[0 := r], map[]);
    run := Run([c], []);
    assert Elems([]) == Active(map[]) == {};
    assert ReplicaNext(InitialLog, r, Snapshot([]), r1) && ReplicaNext(InitialLog, r1, Receive, r2) && ReplicaNext(InitialLog, r2, BatchDone, Idler);
    run := ExtendReplica(run, c, Snapshot([]), r1);
    run := ExtendReplica(run, State(InitialLog, map[0 := r1], map[]), Receive, r2);
    run := ExtendReplica(run, State(InitialLog, map[0 := r2], map[]), BatchDone, Idler);
  }

  /** A step of the only replica that no call takes part in. */
  lemma ExtendReplica(run: Run, c: State, step: Step, r': Replica) returns (run': Run)
    requires RunTo(run, c) && c.replicas.Keys == {0} && ReplicaNext(c.log, c.replicas[0], step, r') && Timely(c.log, c.replicas[0], step)
    requires !step.Check? && !step.Reply?
    ensures RunTo(run', c.(replicas := map[0 := r']))
  {
    var d := c.(replicas := map[0 := r']);
    assert d.replicas == c.replicas[0 := r'];
    assert ReplicaEvents(c, 0, step, d);
    run' := Extend(run, c, ReplicaEvent(0, step), d);
  }

  lemma ExtendLog(run: Run, c: State, step: LogStep, l: LogState) returns (run': Run)
    requires RunTo(run, c) && LogNext(c.log, step, l) && Healthy(c.log, step) && (step.Obtain? ==> step.op.DeleteOp?)
    ensures RunTo(run', c.(log := l))
  {
    run' := Extend(run, c, LogEvent(step), c.(log := l));
  }

  /** The ad as the first commit stores it, and its operation and call. */
  function Stored(ad: Ad): Ad {
    ad.(version := 1)
  }

  function FirstOp(ad: Ad): Op {
    CreateOp(Stored(ad), 0)
  }

  function FirstCall(ad: Ad, chan: Chan): Call {
    Call(0, CreateCall(ad), 0, chan, Waiting, Submitted)
  }

  function FirstLog(ad: Ad, now: Time): LogState {
    LogState(map[ad.id := Row(Stored(ad), true)], [Entry(1, FirstOp(ad))], Idle, [FirstOp(ad)], now)
  }

  /** An ad that has started, and ends at the clock's start or later. */
  predicate Running(ad: Ad) {
    Indexable(ad) && ad.startAt < 0 <= ad.endAt
  }

  lemma WriteFirst(ad: Ad) returns (run: Run)
    requires Running(ad)
    ensures RunTo(run, State(FirstLog(ad, 0), map[0 := Idler], map[0 := FirstCall(ad, EmptyChan)]))
  {
    run := Boot();
    run := WriteOn(run, Idler, ad);
  }

  /** The first write, with replica r there. */
  lemma WriteOn(before: Run, r: Replica, ad: Ad) returns (run: Run)
    requires RunTo(before, State(InitialLog, map[0 := r], map[])) && Indexable(ad) && ad.startAt < ad.endAt
    ensures RunTo(run, State(FirstLog(ad, 0), map[0 := r], map[0 := FirstCall(ad, EmptyChan)]))
  {
    var c0 := State(InitialLog, map[0 := r], map[]);
    var calls := map[0 := FirstCall(ad, EmptyChan).(stage := Begun)];
    var c1 := c0.(calls := calls);
    assert c1.calls == c0.calls[0 := calls[0]];
    run := Extend(before, c0, BeginCreate(0, 0, ad), c1);
    var l2 := InitialLog.(writer := Holding(CreateOp(ad, 0)));
    var c2 := c1.(log := l2, calls := map[0 := FirstCall(ad, EmptyChan)]);
    assert c2.calls == c1.calls[0 := FirstCall(ad, EmptyChan)];
    run := Extend(run, c1, LogEvent(Obtain(CreateOp(ad, 0))), c2);
    var l3 := LogState(map[ad.id := Row(Stored(ad), true)], [], Written(FirstOp(ad), 1), [FirstOp(ad)], 0);
    assert MaxVersion(map[]) == 0 && InsertRow(map[], Stored(ad)) == l3.rows;
    run := ExtendLog(run, c2, Commit, l3);
    assert [] + [Entry(1, FirstOp(ad))] == FirstLog(ad, 0).stream;
    run := ExtendLog(run, c2.(log := l3), Publish, FirstLog(ad, 0));
  }

  /** The replica that has applied the first create. */
  ghost function Applier(ad: Ad, handling: Option<Msg>): Replica
    requires Indexable(ad)
  {
    Idler.(version := 1, lastID := 1, store := Create(Empty, Stored(ad)), handling := handling, handled := [FirstOp(ad)])
  }

  ghost function Applied1(ad: Ad, handling: Option<Msg>, chan: Chan): State
    requires Indexable(ad)
  {
    State(FirstLog(ad, 0), map[0 := Applier(ad, handling)], map[0 := FirstCall(ad, chan)])
  }

  lemma DeliverFirst(ad: Ad) returns (run: Run)
    requires Running(ad)
    ensures RunTo(run, State(FirstLog(ad, 0), map[0 := Idler.(version := 1, lastID := 1, handling := Some(EntryMsg(FirstOp(ad))))], map[0 := FirstCall(ad, EmptyChan)]))
  {
    run := WriteFirst(ad);
    var l, calls, e := FirstLog(ad, 0), map[0 := FirstCall(ad, EmptyChan)], Entry(1, FirstOp(ad));
    ReadOne([e], 0, e);
    var r1 := Idler.(batch := [e]);
    run := ExtendReplica(run, State(l, map[0 := Idler], calls), Read, r1);
    var r2 := Idler.(version := 1, lastID := 1, sending := Some(EntryMsg(e.op)));
    assert [e][1..] == [];
    run := ExtendReplica(run, State(l, map[0 := r1], calls), Accept, r2);
    run := ExtendReplica(run, State(l, map[0 := r2], calls), Receive, r2.(sending := None, handling := Some(EntryMsg(e.op))));
  }

  lemma ApplyFirst(ad: Ad) returns (run: Run)
    requires Running(ad)
    ensures RunTo(run, Applied1(ad, Some(SendReply(0, ad.id)), EmptyChan))
  {
    run := DeliverFirst(ad);
    var r := Idler.(version := 1, lastID := 1, handling := Some(EntryMsg(FirstOp(ad))));
    var c, d := Applied1(ad, Some(CheckReply(0, ad.id)), EmptyChan), Applied1(ad, Some(SendReply(0, ad.id)), EmptyChan);
    FirstApplied(ad, r, c.replicas[0]);
    run := ExtendReplica(run, c.(replicas := map[0 := r]), ApplyEntry, c.replicas[0]);
    FirstFound(ad, c, d);
    run := Extend(run, c, ReplicaEvent(0, Check(true)), d);
  }

  lemma FirstApplied(ad: Ad, r: Replica, r': Replica)
    requires Running(ad) && r == Idler.(version := 1, lastID := 1, handling := Some(EntryMsg(FirstOp(ad))))
    requires r' == Applier(ad, Some(CheckReply(0, ad.id)))
    ensures ReplicaNext(FirstLog(ad, 0), r, ApplyEntry, r')
  {
    assert [] + [FirstOp(ad)] == r'.handled && TryCreate(Empty, Stored(ad)) == Ok(Create(Empty, Stored(ad)));
  }

  lemma FirstFound(ad: Ad, c: State, d: State)
    requires Indexable(ad) && c == Applied1(ad, Some(CheckReply(0, ad.id)), EmptyChan) && d == Applied1(ad, Some(SendReply(0, ad.id)), EmptyChan)
    ensures ReplicaEvents(c, 0, Check(true), d)
  {
    assert d.replicas == c.replicas[0 := d.replicas[0]];
  }

  lemma FirstReplied(ad: Ad, c: State, d: State)
    requires Indexable(ad) && c == Applied1(ad, Some(SendReply(0, ad.id)), EmptyChan) && d == Applied1(ad, None, FullChan(Created(ad.id)))
    ensures ReplicaEvents(c, 0, Reply, d)
  {
    assert d.replicas == c.replicas[0 := d.replicas[0]] && d.calls == c.calls[0 := d.calls[0]];
  }

  lemma ReadOne(stream: seq<Entry>, id: nat, e: Entry)
    requires stream == [e] || (|stream| == 2 && stream[1] == e && stream[0].id <= id)
    requires e.id > id
    ensures XRead(stream, id) == [e]
  {
    assert Retained(stream) == stream;
    assert After([], id) == [];
    assert [e][1..] == [];
    assert After([e], id) == [e];
    if |stream| == 2 {
      assert stream[1..] == [e];
    }
  }

  /** A run that leaves a dispatcher blocked. */
  lemma BlockComesUp(ad: Ad) returns (run: Run)
    requires Running(ad)
    ensures IsRun(run) && Blocked(Last(run), 0, 0)
  {
    run := ApplyFirst(ad);
    var c := Applied1(ad, Some(SendReply(0, ad.id)), EmptyChan);
    var c1 := c.(calls := map[0 := FirstCall(ad, EmptyChan).(outcome := GaveUp)]);
    assert c1.calls == c.calls[0 := c1.calls[0]];
    run := Extend(run, c, GiveUp(0), c1);
    var c2 := c.(calls := map[0 := FirstCall(ad, NoChan).(outcome := GaveUp)]);
    assert c2.calls == c1.calls[0 := c2.calls[0]];
    run := Extend(run, c1, Leave(0), c2);
  }

  /** A run that brings a delete to a dispatcher, its ad live. */
  lemma DeleteComesUp(ad: Ad) returns (run: Run)
    requires Running(ad)
    ensures IsRun(run) && 0 in Last(run).replicas
    ensures Last(run).replicas[0].handling == Some(EntryMsg(DeleteOp(ad.id))) && Live(Last(run).replicas[0].store) == {Stored(ad)}
    ensures Timely(Last(run).log, Last(run).replicas[0], ApplyEntry)
  {
    run := ApplyFirst(ad);
    var c := Applied1(ad, None, FullChan(Created(ad.id)));
    FirstReplied(ad, Applied1(ad, Some(SendReply(0, ad.id)), EmptyChan), c);
    run := Extend(run, Applied1(ad, Some(SendReply(0, ad.id)), EmptyChan), ReplicaEvent(0, Reply), c);
    run := DeleteFirst(run, ad, c);
    run := HandDelete(run, ad, c.(log := DeletedLog(ad)));
    EmptyAgrees();
    CreateSame(Empty, Stored(ad));
  }

  lemma HandDelete(run: Run, ad: Ad, c: State) returns (run': Run)
    requires Running(ad) && RunTo(run, c) && c.log == DeletedLog(ad) && c.replicas == map[0 := Applier(ad, None)]
    ensures RunTo(run', c.(replicas := map[0 := Sent(Applier(ad, None), ad.id).(sending := None, handling := Some(EntryMsg(DeleteOp(ad.id))))]))
  {
    var r, e := Applier(ad, None), Entry(2, DeleteOp(ad.id));
    DeliverDelete(c.log, r, ad.id);
    run' := ExtendReplica(run, c, Read, r.(batch := [e]));
    run' := ExtendReplica(run', c.(replicas := map[0 := r.(batch := [e])]), Accept, Sent(r, ad.id));
    run' := ExtendReplica(run', c.(replicas := map[0 := Sent(r, ad.id)]), Receive, Sent(r, ad.id).(sending := None, handling := Some(EntryMsg(e.op))));
  }

  function Sent(r: Replica, id: AdID): Replica {
    r.(version := 2, lastID := 2, sending := Some(EntryMsg(DeleteOp(id))))
  }

  function DeletedLog(ad: Ad): LogState {
    LogState(map[ad.id := Row(ad.(version := 2), false)], [Entry(1, FirstOp(ad)), Entry(2, DeleteOp(ad.id))], Idle,
             [FirstOp(ad), DeleteOp(ad.id)], ad.endAt)
  }

  lemma DeliverDelete(l: LogState, r: Replica, id: AdID)
    requires |l.stream| == 2 && l.stream[0].id == 1 && l.stream[1] == Entry(2, DeleteOp(id))
    requires r.phase == Subscribed && !r.crashed && r.version == 1 && r.lastID == 1 && r.batch == [] && r.sending == None && r.handling == None
    ensures ReplicaNext(l, r, Read, r.(batch := [Entry(2, DeleteOp(id))]))
    ensures ReplicaNext(l, r.(batch := [Entry(2, DeleteOp(id))]), Accept, Sent(r, id))
  {
    ReadOne(l.stream, 1, l.stream[1]);
    assert [l.stream[1]][1..] == [];
  }

  lemma DeleteFirst(run: Run, ad: Ad, c: State) returns (run': Run)
    requires Running(ad) && RunTo(run, c) && c.log == FirstLog(ad, 0)
    ensures RunTo(run', c.(log := DeletedLog(ad)))
  {
    var l := FirstLog(ad, ad.endAt);
    run' := ExtendLog(run, c, Tick(ad.endAt), l);
    run' := ExtendLog(run', c.(log := l), Obtain(DeleteOp(ad.id)), l.(writer := Holding(DeleteOp(ad.id))));
    var l2 := DeletedLog(ad).(stream := l.stream, writer := Written(DeleteOp(ad.id), 2));
    assert l.rows[ad.id].ad.version == 1;
    MaxIs(l.rows, 1);
    assert DeleteRow(l.rows, ad.id, 2) == l2.rows;
    assert [FirstOp(ad)] + [DeleteOp(ad.id)] == l2.history;
    run' := ExtendLog(run', c.(log := l.(writer := Holding(DeleteOp(ad.id)))), Commit, l2);
    assert l.stream + [Entry(2, DeleteOp(ad.id))] == DeletedLog(ad).stream;
    run' := ExtendLog(run', c.(log := l2), Publish, DeletedLog(ad));
  }

  // A read that returns a live ad, and a restored ad whose timer fires.

  const AnyAd: Request := Request(0, "", "", "", 0, 10)

  ghost function Reader(ad: Ad, stage: Stage, chan: Chan, outcome: Outcome): State
    requires Indexable(ad)
  {
    var c := Applied1(ad, None, FullChan(Created(ad.id)));
    c.(calls := c.calls[1 := Call(0, GetCall(AnyAd), 0, chan, outcome, stage)])
  }

  /** A run from the empty service in which a read returns the ad just created. */
  lemma ReadComesUp(ad: Ad) returns (run: Run)
    requires Running(ad)
    ensures IsRun(run) && 1 in Last(run).calls && Last(run).calls[1].kind == GetCall(AnyAd)
    ensures Last(run).calls[1].outcome == Returned(Got([Stored(ad)], 1))
  {
    run := ApplyFirst(ad);
    var c, c1 := Applied1(ad, Some(SendReply(0, ad.id)), EmptyChan), Applied1(ad, None, FullChan(Created(ad.id)));
    FirstReplied(ad, c, c1);
    run := Extend(run, c, ReplicaEvent(0, Reply), c1);
    run := Extend(run, c1, BeginGet(1, 0, AnyAd), Reader(ad, Begun, EmptyChan, Waiting));
    run := ReadThrough(run, ad);
  }

  lemma ReadThrough(run: Run, ad: Ad) returns (run': Run)
    requires Running(ad) && RunTo(run, Reader(ad, Begun, EmptyChan, Waiting))
    ensures RunTo(run', Reader(ad, Done, EmptyChan, Returned(Got([Stored(ad)], 1))))
  {
    var found := [Stored(ad)];
    FindsFirst(ad);
    CallsAlike(ad);
    run' := Extend(run, Reader(ad, Begun, EmptyChan, Waiting), TakeGet(1), Reader(ad, Spawned, EmptyChan, Waiting));
    run' := Extend(run', Reader(ad, Spawned, EmptyChan, Waiting), ReadGet(1), Reader(ad, HasRead(found), EmptyChan, Waiting));
    run' := Extend(run', Reader(ad, HasRead(found), EmptyChan, Waiting), CheckGet(1), Reader(ad, Sending(found), EmptyChan, Waiting));
    run' := Extend(run', Reader(ad, Sending(found), EmptyChan, Waiting), SendGet(1), Reader(ad, Done, FullChan(Got(found, 1)), Waiting));
    run' := Extend(run', Reader(ad, Done, FullChan(Got(found, 1)), Waiting), Return(1), Reader(ad, Done, EmptyChan, Returned(Got(found, 1))));
  }

  lemma CallsAlike(ad: Ad)
    requires Indexable(ad)
    ensures forall s, h, o, s', h', o' ::
      Reader(ad, s', h', o').calls == Reader(ad, s, h, o).calls[1 := Reader(ad, s', h', o').calls[1]]
  {}

  lemma FindsFirst(ad: Ad)
    requires Indexable(ad)
    ensures Query(Create(Empty, Stored(ad)), AnyAd) == [Stored(ad)]
  {
    var s := Create(Empty, Stored(ad));
    EmptyAgrees();
    CreateSame(Empty, Stored(ad));
    QueryMeaning(s, AnyAd);
    assert (set a | a in Live(s) && Matches(a, AnyAd)) == {Stored(ad)};
    OneRanked(SortedAds({Stored(ad)}), Stored(ad));
  }

  lemma OneRanked(s: seq<Ad>, ad: Ad)
    requires Ranked(s) && Elems(s) == {ad}
    ensures s == [ad]
  {
    assert Elems([ad]) == {ad};
    SortedUnique(s, [ad]);
  }

  /** A replica restored from the table of one ad yet to start. */
  function Restored(ad: Ad, phase: Phase, sending: Option<Msg>, handling: Option<Msg>): Replica {
    NewReplica(false).(phase := phase, version := 1, base := 1, sending := sending, handling := handling)
  }

  function OnTimer(ad: Ad, r: Replica): Replica {
    r.(timers := multiset{StartTimer(ad.startAt, None)}, loopVar := Some(Stored(ad)))
  }

  lemma RestoreOne(ad: Ad) returns (run: Run)
    requires Indexable(ad) && 0 <= ad.startAt < ad.endAt
    ensures RunTo(run, State(FirstLog(ad, 0), map[0 := OnTimer(ad, Restored(ad, Subscribed, None, None)).(lastID := 1)], map[0 := FirstCall(ad, EmptyChan)]))
  {
    var r0 := NewReplica(false);
    var c0 := State(InitialLog, map[0 := r0], map[]);
    run := Run([c0], []);
    run := WriteOn(run, r0, ad);
    var c := State(FirstLog(ad, 0), map[0 := r0], map[0 := FirstCall(ad, EmptyChan)]);
    var ads := [Stored(ad)];
    var r1, r2 := Restored(ad, Restoring, Some(BatchMsg(ads)), None), Restored(ad, Restoring, None, Some(BatchMsg(ads)));
    var r3 := OnTimer(ad, Restored(ad, Restoring, None, Some(BatchMsg([]))));
    SnapshotOne(ad, r0, r1);
    run := ExtendReplica(run, c, Snapshot(ads), r1);
    run := ExtendReplica(run, c.(replicas := map[0 := r1]), Receive, r2);
    LaunchOne(ad, r2, r3);
    run := ExtendReplica(run, c.(replicas := map[0 := r2]), BatchAd, r3);
    run := ExtendReplica(run, c.(replicas := map[0 := r3]), BatchDone, OnTimer(ad, Restored(ad, Subscribed, None, None)).(lastID := 1));
  }

  lemma SnapshotOne(ad: Ad, r0: Replica, r1: Replica)
    requires r0 == NewReplica(false) && r1 == Restored(ad, Restoring, Some(BatchMsg([Stored(ad)])), None)
    ensures ReplicaNext(FirstLog(ad, 0), r0, Snapshot([Stored(ad)]), r1)
  {
    var rows := FirstLog(ad, 0).rows;
    assert rows[ad.id].ad.version == 1;
    MaxIs(rows, 1);
    assert Elems([Stored(ad)]) == {Stored(ad)} == Active(rows);
  }

  lemma LaunchOne(ad: Ad, r2: Replica, r3: Replica)
    requires 0 <= ad.startAt && r2 == Restored(ad, Restoring, None, Some(BatchMsg([Stored(ad)])))
    requires r3 == OnTimer(ad, Restored(ad, Restoring, None, Some(BatchMsg([]))))
    ensures ReplicaNext(FirstLog(ad, 0), r2, BatchAd, r3)
  {
    assert [Stored(ad)][1..] == [];
    assert multiset{} + multiset{StartTimer(ad.startAt, None)} == r3.timers;
  }

  /** A run in which an ad restored before its start is live once its timer has fired, the loop variable shared. */
  lemma DelayedComesUp(ad: Ad) returns (run: Run)
    requires Indexable(ad) && 0 <= ad.startAt < ad.endAt
    ensures IsRun(run) && Last(run).log.now == ad.startAt && 0 in Last(run).replicas
    ensures var r := Last(run).replicas[0]; !r.perAd && r.base == 1 && |r.timers| == 0 && Stored(ad) in Live(r.store)
  {
    run := RestoreOne(ad);
    var r := OnTimer(ad, Restored(ad, Subscribed, None, None)).(lastID := 1);
    var c := State(FirstLog(ad, 0), map[0 := r], map[0 := FirstCall(ad, EmptyChan)]);
    run := ExtendLog(run, c, Tick(ad.startAt), FirstLog(ad, ad.startAt));
    var t := StartTimer(ad.startAt, None);
    assert |multiset{t}| == 1;
    var d;
    run, d := DueTimerFires(run, c.(log := FirstLog(ad, ad.startAt)), 0, t);
  }
}
