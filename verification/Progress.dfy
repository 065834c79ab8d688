/**
 That the system does get on: from every state of a run there is a continuation in
 which a replica settles at the end of the stream, a waiting read is answered, and a
 waiting create is, as long as the dispatcher concerned is not blocked for good.
 */
module Progress {
  import opened AdModel
  import opened Ranking
  import opened IndexTree
  import opened Store
  import opened Log
  import opened Replica
  import opened Cluster
  import opened Answers
  import opened Replies

  function Last(run: Run): State
    requires run.states != []
  {
    run.states[|run.states| - 1]
  }

  ghost predicate RunTo(run: Run, c: State) {
    IsRun(run) && Last(run) == c
  }

  /** A run carried on. */
  ghost predicate Continues(run: Run, run': Run) {
    IsRun(run) && IsRun(run') && run.states <= run'.states && run.events <= run'.events
  }

  lemma Extend(run: Run, c: State, e: Event, d: State) returns (run': Run)
    requires RunTo(run, c) && Next(c, e, d) && Assumed(c, e)
    ensures RunTo(run', d) && Continues(run, run') && run' == Run(run.states + [d], run.events + [e])
  {
    run' := Run(run.states + [d], run.events + [e]);
    forall j | 0 <= j < |run'.events| ensures StepAt(run', j) {
      if j < |run.events| {
        assert StepAt(run, j);
      }
    }
  }

  lemma InvAt(run: Run, c: State)
    requires RunTo(run, c)
    ensures Inv(c)
  {
    RunInv(run, |run.states| - 1);
  }

  lemma ReplicaInvAt(run: Run, c: State, i: ReplicaId)
    requires RunTo(run, c) && i in c.replicas
    ensures ReplicaInv(c.log, c.replicas[i]) && HealthyInv(c.log)
  {
    InvAt(run, c);
  }

  lemma ContinuesOn(a: Run, b: Run, c: Run)
    requires Continues(a, b) && Continues(b, c)
    ensures Continues(a, c)
  {}

  // What a replica's own steps change.

  ghost predicate Replied(call: Call, call': Call, i: ReplicaId) {
    || call' == call
    || (call.kind.CreateCall? && call.owner == i && call.chan == EmptyChan && call'.chan.FullChan? && call' == call.(chan := call'.chan))
  }

  /** Replica i has gone on to r; of the calls, at most creates of its callers got their replies. */
  ghost predicate Went(c: State, d: State, i: ReplicaId, r: Replica) {
    && d.log == c.log && i in c.replicas && d.replicas == c.replicas[i := r]
    && d.calls.Keys == c.calls.Keys && forall q | q in c.calls :: Replied(c.calls[q], d.calls[q], i)
  }

  lemma WentOn(a: State, b: State, c: State, i: ReplicaId, r: Replica, s: Replica)
    requires Went(a, b, i, r) && Went(b, c, i, s)
    ensures Went(a, c, i, s)
  {
    forall q | q in a.calls ensures Replied(a.calls[q], c.calls[q], i) {
      assert Replied(a.calls[q], b.calls[q], i) && Replied(b.calls[q], c.calls[q], i);
    }
  }

  /** A step of a replica in which no call takes part. */
  lemma Go(run: Run, c: State, i: ReplicaId, step: Step, r: Replica) returns (run': Run, d: State)
    requires RunTo(run, c) && i in c.replicas && ReplicaNext(c.log, c.replicas[i], step, r) && Timely(c.log, c.replicas[i], step)
    requires !step.Check? && !step.Reply?
    ensures RunTo(run', d) && Continues(run, run') && run'.events == run.events + [ReplicaEvent(i, step)]
    ensures Went(c, d, i, r) && d == c.(replicas := c.replicas[i := r])
  {
    d := c.(replicas := c.replicas[i := r]);
    assert ReplicaEvents(c, i, step, d);
    run' := Extend(run, c, ReplicaEvent(i, step), d);
  }

  // Timers.

  /**
   A due timer can fire, in every state of every run; then it is gone and its ad is
   live.
   */
  lemma DueTimerFires(run: Run, c: State, i: ReplicaId, t: StartTimer) returns (run': Run, d: State)
    requires RunTo(run, c) && i in c.replicas && t in c.replicas[i].timers && t.due <= c.log.now
    ensures RunTo(run', d) && Continues(run, run') && run'.events == run.events + [ReplicaEvent(i, Fire(t))]
    ensures i in d.replicas && t !in d.replicas[i].timers && |d.replicas[i].timers| < |c.replicas[i].timers|
    ensures Caught(t, c.replicas[i].loopVar).Some? && Caught(t, c.replicas[i].loopVar).value in Live(d.replicas[i].store)
    ensures Went(c, d, i, d.replicas[i]) && d.calls == c.calls
    ensures var r, s := c.replicas[i], d.replicas[i]; s == r.(store := s.store, timers := r.timers - multiset{t})
  {
    ReplicaInvAt(run, c, i);
    var s := Fired(c.log, c.replicas[i], t);
    run', d := Go(run, c, i, Fire(t), s);
  }

  lemma Fired(l: LogState, r: Replica, t: StartTimer) returns (s: Replica)
    requires LossFree(l) && ReplicaInv(l, r) && t in r.timers && t.due <= l.now
    ensures ReplicaNext(l, r, Fire(t), s) && s == r.(store := s.store, timers := r.timers - multiset{t})
    ensures t !in s.timers && |s.timers| < |r.timers|
    ensures Caught(t, r.loopVar).Some? && Caught(t, r.loopVar).value in Live(s.store)
  {
    AllProper(l, r);
    s := FiredTo(r, t, Fold(l.history[..Applied(r)]), l.now);
    OneTimer(r.timers, r.loopVar, Rest(r), t);
  }

  lemma FiredTo(r: Replica, t: StartTimer, all: set<Ad>, now: Time) returns (s: Replica)
    requires Held(r.store, r.timers, r.loopVar, Rest(r), all, now) && ProperAds(all) && t in r.timers && t.due <= now
    ensures Caught(t, r.loopVar).Some? && TryCreate(r.store, Caught(t, r.loopVar).value) == Ok(s.store)
    ensures s == r.(store := s.store, timers := r.timers - multiset{t}) && Caught(t, r.loopVar).value in Live(s.store)
  {
    FireHeld(r.store, r.timers, r.loopVar, Rest(r), t, all, now);
    var ad := Caught(t, r.loopVar).value;
    s := r.(store := Create(r.store, ad), timers := r.timers - multiset{t});
    ThenLive(r.store, ad);
  }

  lemma OneTimer(timers: multiset<StartTimer>, v: Option<Ad>, rest: seq<Ad>, t: StartTimer)
    requires TimersOk(timers, v, rest) && t in timers
    ensures t !in timers - multiset{t} && |timers - multiset{t}| < |timers|
  {}

  lemma ThenLive(s: StoreState, ad: Ad)
    requires Agrees(s) && Indexable(ad)
    ensures ad in Live(Create(s, ad))
  {
    CreateLive(s, ad);
  }

  /** All that are due, one by one. */
  lemma {:induction false} FireDue(run: Run, c: State, i: ReplicaId) returns (run': Run, d: State)
    requires RunTo(run, c) && i in c.replicas
    ensures RunTo(run', d) && Continues(run, run') && i in d.replicas && Went(c, d, i, d.replicas[i]) && d.calls == c.calls
    ensures NoneDue(d.replicas[i].timers, c.log.now)
    ensures var r, s := c.replicas[i], d.replicas[i]; s == r.(store := s.store, timers := s.timers)
    decreases |c.replicas[i].timers|
  {
    if NoneDue(c.replicas[i].timers, c.log.now) {
      run', d := run, c;
      Stays(c, i);
    } else {
      var t :| t in c.replicas[i].timers && t.due <= c.log.now;
      var run1, c1 := DueTimerFires(run, c, i, t);
      run', d := FireDue(run1, c1, i);
      WentOn(c, c1, d, i, c1.replicas[i], d.replicas[i]);
      ContinuesOn(run, run1, run');
    }
  }

  lemma Stays(c: State, i: ReplicaId)
    requires i in c.replicas
    ensures Went(c, c, i, c.replicas[i])
  {
    assert c.replicas == c.replicas[i := c.replicas[i]];
  }

  // The dispatcher.

  /** The dispatcher is not about to send on a channel that is gone. */
  ghost predicate Free(c: State, i: ReplicaId) {
    i in c.replicas && forall q :: !Blocked(c, i, q)
  }

  /** Exists. */
  lemma Look(run: Run, c: State, i: ReplicaId) returns (run': Run, d: State)
    requires RunTo(run, c) && i in c.replicas && c.replicas[i].handling.Some? && c.replicas[i].handling.value.CheckReply?
    ensures RunTo(run', d) && Continues(run, run') && d.calls == c.calls
    ensures var h := c.replicas[i].handling.value;
      Went(c, d, i, c.replicas[i].(handling := if Registered(c, i, h.req) then Some(SendReply(h.req, h.adID)) else None))
  {
    var r := c.replicas[i];
    var found := Registered(c, i, r.handling.value.req);
    var r1 := r.(handling := if found then Some(SendReply(r.handling.value.req, r.handling.value.adID)) else None);
    RunInv(run, |run.states| - 1);
    NotCrashed(c, i);
    d := c.(replicas := c.replicas[i := r1]);
    LookEvent(c, i, found, d);
    run' := Extend(run, c, ReplicaEvent(i, Check(found)), d);
  }

  lemma LookEvent(c: State, i: ReplicaId, found: bool, d: State)
    requires i in c.replicas && !c.replicas[i].crashed && c.replicas[i].handling.Some? && c.replicas[i].handling.value.CheckReply?
    requires var h := c.replicas[i].handling.value;
      && (found <==> Registered(c, i, h.req))
      && d == c.(replicas := c.replicas[i := c.replicas[i].(handling := if found then Some(SendReply(h.req, h.adID)) else None)])
    ensures ReplicaEvents(c, i, Check(found), d)
  {}

  /** A reply under way is sent, or its caller found gone. */
  lemma FinishReply(run: Run, c: State, i: ReplicaId) returns (run': Run, d: State)
    requires RunTo(run, c) && Free(c, i)
    requires var h := c.replicas[i].handling; h.Some? && (h.value.CheckReply? || h.value.SendReply?)
    ensures RunTo(run', d) && Continues(run, run') && Went(c, d, i, c.replicas[i].(handling := None))
  {
    if c.replicas[i].handling.value.SendReply? {
      run', d := Send(run, c, i);
    } else {
      var run1, c1 := Look(run, c, i);
      if c1.replicas[i].handling.Some? {
        FoundNotBlocked(c, c1, i);
        run', d := Send(run1, c1, i);
        WentOn(c, c1, d, i, c1.replicas[i], c.replicas[i].(handling := None));
        ContinuesOn(run, run1, run');
      } else {
        run', d := run1, c1;
      }
    }
  }

  lemma FoundNotBlocked(c: State, c1: State, i: ReplicaId)
    requires i in c.replicas && c.replicas[i].handling.Some? && c.replicas[i].handling.value.CheckReply? && c1.calls == c.calls
    requires var h := c.replicas[i].handling.value;
      Went(c, c1, i, c.replicas[i].(handling := if Registered(c, i, h.req) then Some(SendReply(h.req, h.adID)) else None))
    requires c1.replicas[i].handling.Some?
    ensures c1.replicas[i].handling.value.SendReply? && !Blocked(c1, i, c1.replicas[i].handling.value.req)
  {}

  lemma Send(run: Run, c: State, i: ReplicaId) returns (run': Run, d: State)
    requires RunTo(run, c) && i in c.replicas && c.replicas[i].handling.Some? && c.replicas[i].handling.value.SendReply?
    requires !Blocked(c, i, c.replicas[i].handling.value.req)
    ensures RunTo(run', d) && Continues(run, run') && Went(c, d, i, c.replicas[i].(handling := None))
  {
    var r := c.replicas[i];
    var q := r.handling.value.req;
    SendBlocksOnlyOnTimeout(run, |run.states| - 1, i, q);
    var d0 :| ReplicaEvents(c, i, Reply, d0);
    d := d0;
    run' := Extend(run, c, ReplicaEvent(i, Reply), d);
    CreateHandled(run, c, i);
  }

  lemma CreateHandled(run: Run, c: State, i: ReplicaId)
    requires RunTo(run, c) && i in c.replicas && c.replicas[i].handling.Some? && c.replicas[i].handling.value.SendReply?
    ensures var q := c.replicas[i].handling.value.req; q in c.calls && c.calls[q].kind.CreateCall?
  {
    InvAt(run, c);
    assert ReplyingOk(c.replicas[i], i, c.calls);
  }

  /** Replica r has applied the operation in hand, and its reply is done with. */
  ghost predicate Did(r: Replica, op: Op, s: Replica) {
    s == r.(store := s.store, timers := s.timers, handling := None, handled := r.handled + [op])
  }

  /** An entry in hand can be applied, once no timer is due. */
  lemma EntryStep(l: LogState, r: Replica, op: Op) returns (s: Replica)
    requires LossFree(l) && ReplicaInv(l, r) && r.handling == Some(EntryMsg(op)) && NoneDue(r.timers, l.now)
    ensures ReplicaNext(l, r, ApplyEntry, s) && Timely(l, r, ApplyEntry)
    ensures s == r.(store := s.store, timers := s.timers, handled := r.handled + [op],
                    handling := if op.CreateOp? then Some(CheckReply(op.req, op.ad.id)) else None)
  {
    match op
    case CreateOp(ad, req) => s := CreateStep(l, r, ad, req);
    case DeleteOp(id) =>
      DeleteKnown(l, r, id);
      s := r.(store := Delete(r.store, id), handling := None, handled := r.handled + [op]);
  }

  lemma CreateStep(l: LogState, r: Replica, ad: Ad, req: ReqId) returns (s: Replica)
    requires LossFree(l) && ReplicaInv(l, r) && r.handling == Some(EntryMsg(CreateOp(ad, req)))
    ensures ReplicaNext(l, r, ApplyEntry, s)
    ensures s == r.(store := s.store, timers := s.timers, handled := r.handled + [CreateOp(ad, req)], handling := Some(CheckReply(req, ad.id)))
  {
    s := Launch(r, ad, Some(ad), l.now).(handling := Some(CheckReply(req, ad.id)), handled := r.handled + [CreateOp(ad, req)]);
    NewEntry(l, r, ad, req);
    assert Rest(r) == [];
    LaunchedStore(l.history, l.now, r, ad, req, s);
  }

  lemma Apply1(run: Run, c: State, i: ReplicaId, op: Op) returns (run': Run, d: State)
    requires RunTo(run, c) && i in c.replicas && c.replicas[i].handling == Some(EntryMsg(op))
    ensures RunTo(run', d) && Continues(run, run') && i in d.replicas && Went(c, d, i, d.replicas[i]) && Did(c.replicas[i], op, d.replicas[i])
  {
    var run1, c1 := FireDue(run, c, i);
    ReplicaInvAt(run1, c1, i);
    var s := EntryStep(c1.log, c1.replicas[i], op);
    var run2, c2 := Go(run1, c1, i, ApplyEntry, s);
    WentOn(c, c1, c2, i, c1.replicas[i], s);
    ContinuesOn(run, run1, run2);
    if op.CreateOp? {
      run', d := FinishReply(run2, c2, i);
      WentOn(c, c2, d, i, s, d.replicas[i]);
      ContinuesOn(run, run2, run');
    } else {
      run', d := run2, c2;
    }
  }

  /** The dispatcher takes the message that is being sent, and deals with it. */
  lemma Take(run: Run, c: State, i: ReplicaId, op: Op) returns (run': Run, d: State)
    requires RunTo(run, c) && i in c.replicas && c.replicas[i].handling == None && c.replicas[i].sending == Some(EntryMsg(op))
    ensures RunTo(run', d) && Continues(run, run') && i in d.replicas && Went(c, d, i, d.replicas[i])
    ensures Did(c.replicas[i].(sending := None), op, d.replicas[i])
  {
    ReplicaInvAt(run, c, i);
    var r1 := c.replicas[i].(sending := None, handling := Some(EntryMsg(op)));
    var run1, c1 := Go(run, c, i, Receive, r1);
    run', d := Apply1(run1, c1, i, op);
    WentOn(c, c1, d, i, r1, d.replicas[i]);
    ContinuesOn(run, run1, run');
  }

  /** A subscribed replica with nothing in hand or on the way. */
  ghost predicate Resting(c: State, i: ReplicaId) {
    i in c.replicas && c.replicas[i].phase == Subscribed && c.replicas[i].handling == None && c.replicas[i].sending == None
  }

  ghost predicate SameVersion(r: Replica, s: Replica) {
    s.phase == r.phase && s.version == r.version && s.lastID == r.lastID && s.batch == r.batch && s.base == r.base
  }

  lemma Drain(run: Run, c: State, i: ReplicaId) returns (run': Run, d: State)
    requires RunTo(run, c) && Free(c, i) && c.replicas[i].phase == Subscribed
    ensures RunTo(run', d) && Continues(run, run') && Resting(d, i) && Went(c, d, i, d.replicas[i]) && SameVersion(c.replicas[i], d.replicas[i])
  {
    var run1, c1 := Finish(run, c, i);
    if c1.replicas[i].sending.None? {
      run', d := run1, c1;
    } else {
      ReplicaInvAt(run1, c1, i);
      run', d := Take(run1, c1, i, c1.replicas[i].sending.value.op);
      WentOn(c, c1, d, i, c1.replicas[i], d.replicas[i]);
      ContinuesOn(run, run1, run');
    }
  }

  /** What the dispatcher has in hand is dealt with. */
  lemma Finish(run: Run, c: State, i: ReplicaId) returns (run': Run, d: State)
    requires RunTo(run, c) && Free(c, i) && c.replicas[i].phase == Subscribed
    ensures RunTo(run', d) && Continues(run, run') && i in d.replicas && Went(c, d, i, d.replicas[i]) && d.replicas[i].handling == None
    ensures SameVersion(c.replicas[i], d.replicas[i]) && d.replicas[i].sending == c.replicas[i].sending
  {
    ReplicaInvAt(run, c, i);
    match c.replicas[i].handling
    case None =>
      run', d := run, c;
      Stays(c, i);
    case Some(EntryMsg(op)) => run', d := Apply1(run, c, i, op);
    case Some(BatchMsg(_)) => assert false;
    case Some(CheckReply(_, _)) => run', d := FinishReply(run, c, i);
    case Some(SendReply(_, _)) => run', d := FinishReply(run, c, i);
  }

  /** The next entry of a read is accepted and applied. */
  lemma NextEntry(run: Run, c: State, i: ReplicaId) returns (run': Run, d: State)
    requires RunTo(run, c) && Resting(c, i) && c.replicas[i].batch != []
    ensures RunTo(run', d) && Continues(run, run') && Resting(d, i) && Went(c, d, i, d.replicas[i])
    ensures d.replicas[i].version == c.replicas[i].version + 1 && d.replicas[i].batch == c.replicas[i].batch[1..]
    ensures d.replicas[i].base == c.replicas[i].base
  {
    ReplicaInvAt(run, c, i);
    var r := c.replicas[i];
    var m := r.batch[0];
    AcceptedNext(c.log.history, r);
    var r1 := r.(version := m.id, lastID := m.id, sending := Some(EntryMsg(m.op)), batch := r.batch[1..]);
    var run1, c1 := Go(run, c, i, Accept, r1);
    run', d := Take(run1, c1, i, m.op);
    WentOn(c, c1, d, i, r1, d.replicas[i]);
    ContinuesOn(run, run1, run');
  }

  lemma AcceptedNext(history: seq<Op>, r: Replica)
    requires SequenceOk(history, r) && r.batch != []
    ensures r.batch[0].id == r.version + 1
  {}

  lemma Poll(run: Run, c: State, i: ReplicaId) returns (run': Run, d: State)
    requires RunTo(run, c) && Resting(c, i) && c.replicas[i].batch == []
    requires c.replicas[i].version + MaxLen >= |c.log.stream| > c.replicas[i].version
    ensures RunTo(run', d) && Continues(run, run') && Resting(d, i) && Went(c, d, i, d.replicas[i])
    ensures d.replicas[i].version == c.replicas[i].version && d.replicas[i].batch != [] && d.replicas[i].base == c.replicas[i].base
  {
    ReplicaInvAt(run, c, i);
    var r := c.replicas[i];
    ReadMeaning(c.log.stream, c.log.history, r.version);
    run', d := Go(run, c, i, Read, r.(batch := XRead(c.log.stream, r.lastID)));
  }

  /** All entries up to the end of the stream. */
  lemma {:induction false} Deliver(run: Run, c: State, i: ReplicaId) returns (run': Run, d: State)
    requires RunTo(run, c) && Resting(c, i) && c.replicas[i].version + MaxLen >= |c.log.stream|
    ensures RunTo(run', d) && Continues(run, run') && Resting(d, i) && Went(c, d, i, d.replicas[i])
    ensures d.replicas[i].batch == [] && d.replicas[i].version >= |c.log.stream| && d.replicas[i].version >= c.replicas[i].version
    ensures d.replicas[i].base == c.replicas[i].base
    decreases if c.replicas[i].version <= |c.log.history| then |c.log.history| - c.replicas[i].version else 0, if c.replicas[i].batch == [] then 1 else 0
  {
    ReplicaInvAt(run, c, i);
    var r := c.replicas[i];
    if r.batch == [] && r.version >= |c.log.stream| {
      run', d := run, c;
      Stays(c, i);
    } else {
      var run1, c1;
      if r.batch == [] {
        run1, c1 := Poll(run, c, i);
      } else {
        AcceptedNext(c.log.history, r);
        run1, c1 := NextEntry(run, c, i);
      }
      run', d := Deliver(run1, c1, i);
      WentOn(c, c1, d, i, c1.replicas[i], d.replicas[i]);
      ContinuesOn(run, run1, run');
    }
  }

  /** A subscribed replica settles at the end of the stream. */
  lemma Settle(run: Run, c: State, i: ReplicaId) returns (run': Run, d: State)
    requires RunTo(run, c) && Free(c, i) && c.replicas[i].phase == Subscribed && c.replicas[i].version + MaxLen >= |c.log.stream|
    ensures RunTo(run', d) && Continues(run, run') && Resting(d, i) && Went(c, d, i, d.replicas[i])
    ensures Settled(d.log, d.replicas[i]) && d.replicas[i].version >= |c.log.stream| && d.replicas[i].base == c.replicas[i].base
  {
    var run1, c1 := Drain(run, c, i);
    var run2, c2 := Deliver(run1, c1, i);
    run', d := FireDue(run2, c2, i);
    WentOn(c, c1, c2, i, c1.replicas[i], c2.replicas[i]);
    WentOn(c, c2, d, i, c2.replicas[i], d.replicas[i]);
    ContinuesOn(run, run1, run2);
    ContinuesOn(run, run2, run');
  }

  // Restoring.

  /** As Went, with time passing. */
  ghost predicate WentLater(c: State, d: State, i: ReplicaId, r: Replica) {
    && d.log == c.log.(now := d.log.now) && d.log.now >= c.log.now && d.calls == c.calls
    && i in c.replicas && d.replicas == c.replicas[i := r]
  }

  lemma WaitUntil(run: Run, c: State, to: Time) returns (run': Run, d: State)
    requires RunTo(run, c) && to >= c.log.now
    ensures RunTo(run', d) && Continues(run, run') && d == c.(log := c.log.(now := to))
  {
    d := c.(log := c.log.(now := to));
    assert LogEvents(c, Tick(to), d);
    run' := Extend(run, c, LogEvent(Tick(to)), d);
  }

  /** An ad of the batch, if need be after waiting for its start. */
  lemma OneOfBatch(run: Run, c: State, i: ReplicaId, ads: seq<Ad>) returns (run': Run, d: State)
    requires RunTo(run, c) && i in c.replicas && c.replicas[i].phase == Restoring && c.replicas[i].handling == Some(BatchMsg(ads)) && ads != []
    ensures RunTo(run', d) && Continues(run, run') && i in d.replicas && WentLater(c, d, i, d.replicas[i])
    ensures var r, s := c.replicas[i], d.replicas[i];
      s == r.(store := s.store, timers := s.timers, loopVar := s.loopVar, crashed := s.crashed, handling := Some(BatchMsg(ads[1..])))
  {
    var run1, c1 := WaitUntil(run, c, if c.log.now > ads[0].startAt then c.log.now else ads[0].startAt + 1);
    ReplicaInvAt(run1, c1, i);
    var s := BatchStep1(c1.log, c1.replicas[i], ads);
    run', d := Go(run1, c1, i, BatchAd, s);
    ContinuesOn(run, run1, run');
  }

  lemma BatchStep1(l: LogState, r: Replica, ads: seq<Ad>) returns (s: Replica)
    requires !r.crashed && r.handling == Some(BatchMsg(ads)) && ads != [] && l.now > ads[0].startAt
    ensures ReplicaNext(l, r, BatchAd, s) && Timely(l, r, BatchAd)
    ensures s == r.(store := s.store, timers := s.timers, loopVar := s.loopVar, crashed := s.crashed, handling := Some(BatchMsg(ads[1..])))
  {
    s := Iterate(r, ads, l.now);
  }

  lemma {:induction false} Batch(run: Run, c: State, i: ReplicaId, ads: seq<Ad>) returns (run': Run, d: State)
    requires RunTo(run, c) && i in c.replicas && c.replicas[i].phase == Restoring && c.replicas[i].handling == Some(BatchMsg(ads))
    ensures RunTo(run', d) && Continues(run, run') && i in d.replicas && WentLater(c, d, i, d.replicas[i])
    ensures Resting(d, i) && d.replicas[i].version == c.replicas[i].version
    decreases |ads|
  {
    if ads == [] {
      ReplicaInvAt(run, c, i);
      var r := c.replicas[i];
      run', d := Go(run, c, i, BatchDone, r.(handling := None, phase := Subscribed, lastID := r.version));
    } else {
      var run1, c1 := OneOfBatch(run, c, i, ads);
      run', d := Batch(run1, c1, i, ads[1..]);
      ContinuesOn(run, run1, run');
    }
  }

  /** A restore completes. */
  lemma CompleteRestore(run: Run, c: State, i: ReplicaId) returns (run': Run, d: State)
    requires RunTo(run, c) && i in c.replicas && c.replicas[i].phase == Restoring
    ensures RunTo(run', d) && Continues(run, run') && i in d.replicas && WentLater(c, d, i, d.replicas[i])
    ensures Resting(d, i) && d.replicas[i].version == c.replicas[i].version
  {
    PhaseAt(run, c, i);
    if c.replicas[i].handling.Some? {
      run', d := Batch(run, c, i, c.replicas[i].handling.value.ads);
    } else {
      var ads := c.replicas[i].sending.value.ads;
      var run1, c1 := TakeBatch(run, c, i, ads);
      run', d := Batch(run1, c1, i, ads);
      ContinuesOn(run, run1, run');
    }
  }

  lemma PhaseAt(run: Run, c: State, i: ReplicaId)
    requires RunTo(run, c) && i in c.replicas
    ensures PhaseOk(c.replicas[i]) && !c.replicas[i].crashed
  {
    ReplicaInvAt(run, c, i);
  }

  lemma TakeBatch(run: Run, c: State, i: ReplicaId, ads: seq<Ad>) returns (run': Run, d: State)
    requires RunTo(run, c) && i in c.replicas && c.replicas[i].sending == Some(BatchMsg(ads)) && c.replicas[i].handling == None
    ensures RunTo(run', d) && Continues(run, run') && i in d.replicas && WentLater(c, d, i, d.replicas[i])
    ensures d.replicas[i] == c.replicas[i].(sending := None, handling := Some(BatchMsg(ads)))
  {
    PhaseAt(run, c, i);
    run', d := Go(run, c, i, Receive, c.replicas[i].(sending := None, handling := Some(BatchMsg(ads))));
  }

  lemma {:induction false} Listing(S: set<Ad>) returns (ads: seq<Ad>)
    ensures Elems(ads) == S && NoRepeats(ads)
  {
    if S == {} {
      ads := [];
    } else {
      var a :| a in S;
      var rest := Listing(S - {a});
      assert a !in Elems(rest);
      ads := [a] + rest;
      assert Elems(ads) == {a} + Elems(rest);
    }
  }

  /** A replica that is down restores. */
  lemma StartUp(run: Run, c: State, i: ReplicaId) returns (run': Run, d: State)
    requires RunTo(run, c) && i in c.replicas && c.replicas[i].phase == Down
    ensures RunTo(run', d) && Continues(run, run') && i in d.replicas && WentLater(c, d, i, d.replicas[i])
    ensures Resting(d, i) && d.replicas[i].version >= |c.log.stream|
  {
    var run1, c1 := TakeSnapshot(run, c, i);
    run', d := CompleteRestore(run1, c1, i);
    ContinuesOn(run, run1, run');
  }

  lemma TakeSnapshot(run: Run, c: State, i: ReplicaId) returns (run': Run, d: State)
    requires RunTo(run, c) && i in c.replicas && c.replicas[i].phase == Down
    ensures RunTo(run', d) && Continues(run, run') && i in d.replicas && WentLater(c, d, i, d.replicas[i])
    ensures d.replicas[i].phase == Restoring && d.replicas[i].version >= |c.log.stream|
  {
    PhaseAt(run, c, i);
    LogAt(run, c);
    var v := MaxVersion(c.log.rows);
    var ads := Listing(Active(c.log.rows));
    run', d := Go(run, c, i, Snapshot(ads), c.replicas[i].(phase := Restoring, version := v, base := v, sending := Some(BatchMsg(ads))));
  }

  lemma LogAt(run: Run, c: State)
    requires RunTo(run, c)
    ensures MaxVersion(c.log.rows) == |c.log.history| >= |c.log.stream|
    ensures c.log.rows.Keys <= Made(c.log.history)
    ensures c.log.writer == Idle ==> |c.log.history| == |c.log.stream| && LastId(c.log.stream) == |c.log.stream|
    ensures c.log.writer.Written? ==> c.log.writer.version > LastId(c.log.stream)
  {
    InvAt(run, c);
    GaplessLast(c.log.stream, c.log.history);
  }

  lemma GaplessLast(stream: seq<Entry>, history: seq<Op>)
    requires Gapless(stream, history)
    ensures LastId(stream) == |stream|
  {}

  lemma RestingFree(c: State, i: ReplicaId)
    requires Resting(c, i)
    ensures Free(c, i)
  {}

  /**
   From every state of every run a replica can settle at the end of the stream, unless
   its dispatcher is blocked for good or it has fallen too far behind. What it then
   answers is EveryAnswer's.
   */
  lemma AlwaysSettles(run: Run, i: ReplicaId) returns (run': Run)
    requires IsRun(run) && Free(Last(run), i)
    requires Last(run).replicas[i].phase != Down ==> Last(run).replicas[i].version + 100000 >= |Last(run).log.stream|
    ensures Continues(run, run') && i in Last(run').replicas && Last(run').log.stream == Last(run).log.stream
    ensures Settled(Last(run').log, Last(run').replicas[i]) && Last(run').replicas[i].version >= |Last(run').log.stream|
  {
    var c := Last(run);
    if c.replicas[i].phase == Subscribed {
      var d;
      run', d := Settle(run, c, i);
    } else {
      var run1, c1, d;
      if c.replicas[i].phase == Down {
        run1, c1 := StartUp(run, c, i);
      } else {
        run1, c1 := CompleteRestore(run, c, i);
      }
      RestingFree(c1, i);
      run', d := Settle(run1, c1, i);
      ContinuesOn(run, run1, run');
    }
  }

  // Reads.

  /** A step of the call q alone. */
  lemma CallGo(run: Run, c: State, q: ReqId, e: Event, call: Call) returns (run': Run, d: State)
    requires RunTo(run, c) && q in c.calls && CallEvents(c, q, e, c.(calls := c.calls[q := call]))
    requires e == TakeGet(q) || e == ReadGet(q) || e == CheckGet(q) || e == SendGet(q) || e == Return(q)
    ensures RunTo(run', d) && Continues(run, run') && d == c.(calls := c.calls[q := call])
  {
    d := c.(calls := c.calls[q := call]);
    run' := Extend(run, c, e, d);
  }

  ghost predicate WaitingRead(c: State, g: ReqId) {
    g in c.calls && c.calls[g].kind.GetCall? && c.calls[g].outcome == Waiting && c.calls[g].owner in c.replicas
  }

  lemma ReadCallOk(run: Run, c: State, g: ReqId)
    requires RunTo(run, c) && WaitingRead(c, g)
    ensures var call := c.calls[g];
      && call.chan != NoChan && WellFormed(call.kind.req) && call.stage != Submitted && (call.chan.FullChan? ==> call.stage == Done)
      && (call.stage == Done ==> call.chan.FullChan? && call.chan.reply.Got?)
  {
    InvAt(run, c);
    assert CallOk(c.calls[g], g, c.replicas, c.log.now);
  }

  /** Its dispatcher free, a waiting read gets taken. */
  lemma GetTaken(run: Run, c: State, g: ReqId) returns (run': Run, d: State)
    requires RunTo(run, c) && WaitingRead(c, g) && c.calls[g].stage == Begun && Free(c, c.calls[g].owner)
    ensures RunTo(run', d) && Continues(run, run') && WaitingRead(d, g) && d.calls[g] == c.calls[g].(stage := Spawned)
  {
    var i := c.calls[g].owner;
    var run1, c1;
    if c.replicas[i].phase == Restoring {
      run1, c1 := CompleteRestore(run, c, i);
    } else if c.replicas[i].phase == Down {
      ReplicaInvAt(run, c, i);
      run1, c1 := run, c;
    } else {
      run1, c1 := Finish(run, c, i);
      assert Replied(c.calls[g], c1.calls[g], i);
    }
    run', d := CallGo(run1, c1, g, TakeGet(g), c.calls[g].(stage := Spawned));
    if run1 != run {
      ContinuesOn(run, run1, run');
    }
  }

  lemma ReadOn(run: Run, c: State, g: ReqId) returns (run': Run, d: State)
    requires RunTo(run, c) && WaitingRead(c, g) && c.calls[g].stage != Begun
    ensures RunTo(run', d) && Continues(run, run') && WaitingRead(d, g) && d.calls[g].stage == Done
    decreases 5 - ReadProgress(c.calls[g].stage)
  {
    ReadCallOk(run, c, g);
    var call := c.calls[g];
    var run1, c1;
    match call.stage {
      case Spawned => run1, c1 := CallGo(run, c, g, ReadGet(g), call.(stage := HasRead(Query(c.replicas[call.owner].store, call.kind.req))));
      case HasRead(found) => run1, c1 := CallGo(run, c, g, CheckGet(g), call.(stage := Sending(found)));
      case Sending(found) => run1, c1 := CallGo(run, c, g, SendGet(g), call.(stage := Done, chan := FullChan(Got(found, |found|))));
      case Done => run1, c1 := run, c;
    }
    if call.stage == Done {
      run', d := run, c;
    } else {
      run', d := ReadOn(run1, c1, g);
      ContinuesOn(run, run1, run');
    }
  }

  /**
   From every state of every run, a read whose caller waits can be answered, unless
   the dispatcher has yet to take it and is blocked for good.
   */
  lemma ReadAnswered(run: Run, g: ReqId) returns (run': Run)
    requires IsRun(run) && g in Last(run).calls && Last(run).calls[g].kind.GetCall? && Last(run).calls[g].outcome == Waiting
    requires Last(run).calls[g].stage == Begun ==> Free(Last(run), Last(run).calls[g].owner)
    ensures Continues(run, run') && g in Last(run').calls
    ensures Last(run').calls[g].outcome.Returned? && Last(run').calls[g].outcome.reply.Got?
  {
    var c := Last(run);
    OwnerKnown(run, c, g);
    var run1, c1 := run, c;
    if c.calls[g].stage == Begun {
      run1, c1 := GetTaken(run, c, g);
    }
    var run2, c2 := ReadOn(run1, c1, g);
    if run1 != run {
      ContinuesOn(run, run1, run2);
    }
    ReadCallOk(run2, c2, g);
    var d;
    run', d := CallGo(run2, c2, g, Return(g), c2.calls[g].(chan := EmptyChan, outcome := Returned(c2.calls[g].chan.reply)));
    ContinuesOn(run, run2, run');
  }

  lemma OwnerKnown(run: Run, c: State, q: ReqId)
    requires RunTo(run, c) && q in c.calls
    ensures c.calls[q].owner in c.replicas
  {
    InvAt(run, c);
    assert CallOk(c.calls[q], q, c.replicas, c.log.now);
  }

  // Creates.

  /** The call q waits for a create that is committed as number k + 1. */
  ghost predicate CommittedCall(c: State, q: ReqId, k: nat) {
    && q in c.calls && c.calls[q].kind.CreateCall? && c.calls[q].outcome == Waiting
    && k < |c.log.history| && c.log.history[k].CreateOp? && c.log.history[k].req == q
  }

  lemma AppliedThenFull(run: Run, c: State, q: ReqId, k: nat)
    requires RunTo(run, c) && CommittedCall(c, q, k) && Resting(c, c.calls[q].owner)
    requires c.replicas[c.calls[q].owner].base <= k < c.replicas[c.calls[q].owner].version
    ensures c.calls[q].chan == FullChan(Created(c.calls[q].kind.ad.id))
  {
    var i := c.calls[q].owner;
    AppliedAt(run, c, i, k);
    DeliveredAt(run, c, i, q, k - c.replicas[i].base);
    CreateIsVisible(run, |run.states| - 1, q);
  }

  lemma AppliedAt(run: Run, c: State, i: ReplicaId, k: nat)
    requires RunTo(run, c) && Resting(c, i) && c.replicas[i].base <= k < c.replicas[i].version
    ensures k < |c.log.history| && k - c.replicas[i].base < |c.replicas[i].handled|
    ensures c.replicas[i].handled[k - c.replicas[i].base] == c.log.history[k]
  {
    SequenceAt(run, c, i);
    AppliedOp(c.log.history, c.replicas[i], k);
  }

  lemma SequenceAt(run: Run, c: State, i: ReplicaId)
    requires RunTo(run, c) && i in c.replicas && c.replicas[i].phase != Down
    ensures SequenceOk(c.log.history, c.replicas[i])
  {
    ReplicaInvAt(run, c, i);
  }

  lemma AppliedOp(history: seq<Op>, r: Replica, k: nat)
    requires SequenceOk(history, r) && Queue(r) == [] && r.base <= k < r.version
    ensures k - r.base < |r.handled| && r.handled[k - r.base] == history[k]
  {
    AllApplied(history, r);
  }

  lemma DeliveredAt(run: Run, c: State, i: ReplicaId, q: ReqId, n: nat)
    requires RunTo(run, c) && Resting(c, i) && n < |c.replicas[i].handled|
    requires c.replicas[i].handled[n].CreateOp? && c.replicas[i].handled[n].req == q
    requires q in c.calls && c.calls[q].owner == i && c.calls[q].outcome == Waiting
    ensures c.calls[q].chan.FullChan?
  {
    InvAt(run, c);
    assert DeliveredOk(c.replicas[i], i, c.calls);
  }

  /**
   From every state of every run, a waiting create whose entry is in the stream can be
   answered with its ad's id, once its replica is subscribed from before it, unless
   the dispatcher is blocked for good or has fallen too far behind.
   */
  lemma CreateAnswered(run: Run, q: ReqId, k: nat) returns (run': Run)
    requires IsRun(run) && CommittedCall(Last(run), q, k) && k < |Last(run).log.stream|
    requires var c := Last(run); var i := c.calls[q].owner;
      && Free(c, i) && c.replicas[i].phase == Subscribed && c.replicas[i].base <= k
      && c.replicas[i].version + 100000 >= |c.log.stream|
    ensures Continues(run, run') && q in Last(run').calls
    ensures Last(run').calls[q].outcome == Returned(Created(Last(run).calls[q].kind.ad.id))
  {
    var c := Last(run);
    var i := c.calls[q].owner;
    var run1, c1 := Settle(run, c, i);
    assert Replied(c.calls[q], c1.calls[q], i);
    AppliedThenFull(run1, c1, q, k);
    var d;
    run', d := CallGo(run1, c1, q, Return(q), c1.calls[q].(chan := EmptyChan, outcome := Returned(c1.calls[q].chan.reply)));
    ContinuesOn(run, run1, run');
  }

  /** A call that can be written: the lock is free, and its ad is as assumed. */
  ghost predicate Writable(c: State, q: ReqId) {
    && c.log.writer == Idle && q in c.calls && c.calls[q].kind.CreateCall? && c.calls[q].stage == Begun
    && var ad := c.calls[q].kind.ad;
       Indexable(ad) && ad.startAt < ad.endAt && ad.id !in Made(c.log.history)
  }

  lemma LogGo(run: Run, c: State, step: LogStep, l: LogState) returns (run': Run, d: State)
    requires RunTo(run, c) && LogNext(c.log, step, l) && Healthy(c.log, step) && !step.Obtain?
    ensures RunTo(run', d) && Continues(run, run') && d == c.(log := l)
  {
    d := c.(log := l);
    run' := Extend(run, c, LogEvent(step), d);
  }

  lemma WriteGoes(run: Run, c: State, q: ReqId) returns (run': Run, d: State)
    requires RunTo(run, c) && Writable(c, q)
    ensures RunTo(run', d) && Continues(run, run') && d.replicas == c.replicas
    ensures d.calls == c.calls[q := c.calls[q].(stage := Submitted)]
    ensures |d.log.stream| == |c.log.stream| + 1 == |d.log.history| && d.log.now == c.log.now
    ensures d.log.history == c.log.history + [CreateOp(c.calls[q].kind.ad.(version := |d.log.history|), q)]
  {
    LogAt(run, c);
    var op := CreateOp(c.calls[q].kind.ad, q);
    var run1, c1 := Locked(run, c, q, op);
    var l2 := CommitStep(c1.log, op.ad, q);
    var run2, c2 := LogGo(run1, c1, Commit, l2);
    var l3 := Published(run2, c2, l2.writer.op, l2.writer.version);
    run', d := LogGo(run2, c2, Publish, l3);
    ContinuesOn(run, run1, run2);
    ContinuesOn(run, run2, run');
  }

  lemma Locked(run: Run, c: State, q: ReqId, op: Op) returns (run': Run, d: State)
    requires RunTo(run, c) && Writable(c, q) && op == CreateOp(c.calls[q].kind.ad, q)
    ensures RunTo(run', d) && Continues(run, run') && d == c.(log := c.log.(writer := Holding(op)), calls := c.calls[q := c.calls[q].(stage := Submitted)])
  {
    d := c.(log := c.log.(writer := Holding(op)), calls := c.calls[q := c.calls[q].(stage := Submitted)]);
    run' := Extend(run, c, LogEvent(Obtain(op)), d);
  }

  lemma CommitStep(l: LogState, ad: Ad, q: ReqId) returns (l': LogState)
    requires l.writer == Holding(CreateOp(ad, q)) && ad.id !in l.rows && MaxVersion(l.rows) == |l.history|
    requires Indexable(ad) && ad.startAt < ad.endAt && ad.id !in Made(l.history)
    ensures LogNext(l, Commit, l') && Healthy(l, Commit)
    ensures var stored := CreateOp(ad.(version := |l.history| + 1), q);
      l' == l.(rows := l'.rows, writer := Written(stored, |l.history| + 1), history := l.history + [stored])
  {
    var v := MaxVersion(l.rows) + 1;
    var stored := CreateOp(ad.(version := v), q);
    l' := l.(rows := InsertRow(l.rows, stored.ad), writer := Written(stored, v), history := l.history + [stored]);
  }

  lemma Published(run: Run, c: State, op: Op, v: nat) returns (l: LogState)
    requires RunTo(run, c) && c.log.writer == Written(op, v)
    ensures LogNext(c.log, Publish, l) && l == c.log.(stream := c.log.stream + [Entry(v, op)], writer := Idle)
  {
    LogAt(run, c);
    l := c.log.(stream := c.log.stream + [Entry(v, op)], writer := Idle);
  }

  /** From the call to its answer: a create of a new, proper ad can succeed whenever the lock is free. */
  lemma CreateSucceeds(run: Run, q: ReqId) returns (run': Run)
    requires IsRun(run) && Writable(Last(run), q) && Last(run).calls[q].outcome == Waiting
    requires var c := Last(run); var i := c.calls[q].owner;
      Free(c, i) && c.replicas[i].phase == Subscribed && c.replicas[i].version + 100000 > |c.log.stream|
    ensures Continues(run, run') && q in Last(run').calls
    ensures Last(run').calls[q].outcome == Returned(Created(Last(run).calls[q].kind.ad.id))
  {
    var c := Last(run);
    ReplicaInvAt(run, c, c.calls[q].owner);
    var run1, c1 := WriteGoes(run, c, q);
    StillFree(c, c1, q);
    run' := CreateAnswered(run1, q, |c.log.history|);
    ContinuesOn(run, run1, run');
  }

  lemma StillFree(c: State, c1: State, q: ReqId)
    requires q in c.calls && Free(c, c.calls[q].owner) && c1.replicas == c.replicas && c1.calls == c.calls[q := c.calls[q].(stage := Submitted)]
    ensures Free(c1, c.calls[q].owner)
  {
    forall p ensures !Blocked(c1, c.calls[q].owner, p) {
      assert !Blocked(c, c.calls[q].owner, p);
    }
  }
}
