/**
 The whole system: the log, any number of replicas, and the callers of CreateAd
 and GetAds waiting for replies (pkg/service/ad.go:367-436). Each call registers
 a channel of capacity one under a fresh request id; the replica that finds it
 registered sends its reply there.

 As written, a send is two steps, Exists, then Load and send; and so is a caller's
 end: it receives or times out, and its channel is deregistered later.
 */
module Cluster {
  import opened AdModel
  import opened Ranking
  import opened IndexTree
  import opened Store
  import opened Log
  import opened Replica

  type ReplicaId = nat

  datatype ReplyMsg = Created(adID: AdID) | Got(ads: seq<Ad>, total: nat)

  datatype Kind = CreateCall(ad: Ad) | GetCall(req: Request)

  datatype Chan = NoChan | EmptyChan | FullChan(reply: ReplyMsg)

  datatype Outcome = Waiting | Returned(reply: ReplyMsg) | ErrUnknown | GaveUp

  datatype Stage =
    | Begun
    | Submitted                 // a create: handed to the writer
    | Spawned                   // a read: its goroutine has not read yet
    | HasRead(found: seq<Ad>)   // ... has read the store
    | Sending(found: seq<Ad>)   // ... has found the caller's channel
    | Done

  datatype Call = Call(owner: ReplicaId, kind: Kind, began: Time, chan: Chan, outcome: Outcome, stage: Stage)

  datatype State = State(log: LogState, replicas: map<ReplicaId, Replica>, calls: map<ReqId, Call>)

  datatype Event =
    | LogEvent(step: LogStep)
    | ReplicaEvent(i: ReplicaId, rstep: Step)
    | BeginCreate(q: ReqId, i: ReplicaId, ad: Ad)
    | BeginGet(q: ReqId, i: ReplicaId, req: Request)
    | TakeGet(q: ReqId)    // the dispatcher receives the read and spawns its goroutine
    | ReadGet(q: ReqId)    // Store.GetAds, under the store's mutex
    | CheckGet(q: ReqId)   // Exists
    | SendGet(q: ReqId)    // Load and send
    | Return(q: ReqId)     // the caller receives
    | GiveUp(q: ReqId)     // the caller times out, or its write failed
    | Leave(q: ReqId)      // the deferred Delete of its channel

  predicate KindMatches(kind: Kind, reply: ReplyMsg) {
    match kind
    case CreateCall(_) => reply.Created?
    case GetCall(_) => reply.Got?
  }

  ghost predicate LogEvents(c: State, step: LogStep, c': State) {
    && LogNext(c.log, step, c'.log) && c'.replicas == c.replicas
    && if step.Obtain? && step.op.CreateOp? then
         && step.op.req in c.calls
         && var call := c.calls[step.op.req];
            && call.kind == CreateCall(step.op.ad) && call.stage == Begun
            && c'.calls == c.calls[step.op.req := call.(stage := Submitted)]
       else c'.calls == c.calls
  }

  predicate Registered(c: State, i: ReplicaId, q: ReqId) {
    q in c.calls && c.calls[q].owner == i && c.calls[q].chan != NoChan
  }

  ghost predicate ReplicaEvents(c: State, i: ReplicaId, step: Step, c': State) {
    && c'.log == c.log && i in c.replicas && i in c'.replicas
    && ReplicaNext(c.log, c.replicas[i], step, c'.replicas[i])
    && c'.replicas == c.replicas[i := c'.replicas[i]]
    && (step.Check? ==> (step.found <==> Registered(c, i, c.replicas[i].handling.value.req)))
    && if step.Reply? then
         var h := c.replicas[i].handling.value;
         && Registered(c, i, h.req) && c.calls[h.req].chan == EmptyChan
         && c'.calls == c.calls[h.req := c.calls[h.req].(chan := FullChan(Created(h.adID)))]
       else c'.calls == c.calls
  }

  /** A step of one call. */
  ghost predicate CallEvents(c: State, q: ReqId, e: Event, c': State) {
    && c'.log == c.log && c'.replicas == c.replicas
    && q in c.calls && q in c'.calls && c'.calls == c.calls[q := c'.calls[q]]
    && var call, call' := c.calls[q], c'.calls[q];
       match e
       case TakeGet(_) =>
         && call.kind.GetCall? && call.stage == Begun
         && call.owner in c.replicas && c.replicas[call.owner].handling.None?
         && call' == call.(stage := Spawned)
       case ReadGet(_) =>
         && call.kind.GetCall? && call.stage == Spawned && call.owner in c.replicas && WellFormed(call.kind.req)
         && call' == call.(stage := HasRead(Query(c.replicas[call.owner].store, call.kind.req)))
       case CheckGet(_) =>
         && call.stage.HasRead?
         && call' == call.(stage := if call.chan == NoChan then Done else Sending(call.stage.found))
       case SendGet(_) =>
         && call.stage.Sending? && call.chan == EmptyChan
         && call' == call.(stage := Done, chan := FullChan(Got(call.stage.found, |call.stage.found|)))
       case Return(_) =>
         && call.chan.FullChan? && call.outcome == Waiting
         && call' == call.(chan := EmptyChan,
                           outcome := if KindMatches(call.kind, call.chan.reply) then Returned(call.chan.reply) else ErrUnknown)
       case GiveUp(_) =>
         call.outcome == Waiting && call' == call.(outcome := GaveUp)
       case Leave(_) =>
         call.outcome != Waiting && call' == call.(chan := NoChan)
       case _ => false
  }

  ghost predicate Next(c: State, e: Event, c': State) {
    match e
    case LogEvent(step) => LogEvents(c, step, c')
    case ReplicaEvent(i, step) => ReplicaEvents(c, i, step, c')
    case BeginCreate(q, i, ad) =>
      q !in c.calls && i in c.replicas &&
      c' == c.(calls := c.calls[q := Call(i, CreateCall(ad), c.log.now, EmptyChan, Waiting, Begun)])
    case BeginGet(q, i, req) =>
      q !in c.calls && i in c.replicas && WellFormed(req) &&
      c' == c.(calls := c.calls[q := Call(i, GetCall(req), c.log.now, EmptyChan, Waiting, Begun)])
    case TakeGet(q) => CallEvents(c, q, e, c')
    case ReadGet(q) => CallEvents(c, q, e, c')
    case CheckGet(q) => CallEvents(c, q, e, c')
    case SendGet(q) => CallEvents(c, q, e, c')
    case Return(q) => CallEvents(c, q, e, c')
    case GiveUp(q) => CallEvents(c, q, e, c')
    case Leave(q) => CallEvents(c, q, e, c')
  }

  ghost predicate Initial(c: State) {
    && c.log == InitialLog && c.calls == map[]
    && (forall i | i in c.replicas :: c.replicas[i] == NewReplica(c.replicas[i].perAd))
  }

  /** The environment is as Log and Replica assume it. */
  ghost predicate Assumed(c: State, e: Event) {
    match e
    case LogEvent(step) => Healthy(c.log, step)
    case ReplicaEvent(i, step) => i in c.replicas ==> Timely(c.log, c.replicas[i], step)
    case _ => true
  }

  ghost predicate BaseInv(c: State) {
    HealthyInv(c.log) && forall i | i in c.replicas :: ReplicaInv(c.log, c.replicas[i])
  }

  lemma LogEventBase(c: State, step: LogStep, c': State)
    requires BaseInv(c) && Healthy(c.log, step) && LogNext(c.log, step, c'.log) && c'.replicas == c.replicas
    ensures BaseInv(c')
  {
    HealthyPreserved(c.log, step, c'.log);
    HealthyGrows(c.log, step, c'.log);
    forall i | i in c'.replicas ensures ReplicaInv(c'.log, c'.replicas[i]) {
      assert ReplicaInv(c.log, c.replicas[i]);
      LogGrows(c.log, c'.log, c.replicas[i]);
    }
  }

  lemma HealthyGrows(l: LogState, step: LogStep, l': LogState)
    requires HealthyInv(l) && LogNext(l, step, l') && Healthy(l, step)
    ensures l.history <= l'.history && l.now <= l'.now
  {
    LogPreserved(l, step, l');
  }

  lemma BasePreserved(c: State, e: Event, c': State)
    requires BaseInv(c) && Next(c, e, c') && Assumed(c, e)
    ensures BaseInv(c')
  {
    match e
    case LogEvent(step) => LogEventBase(c, step, c');
    case ReplicaEvent(i, step) =>
      ReplicaPreserved(c.log, c.replicas[i], step, c'.replicas[i]);
    case _ =>
  }

  // Calls and the log: each create call commits at most once, under its own id.

  ghost predicate Submission(calls: map<ReqId, Call>, q: ReqId, ad: Ad) {
    && q in calls && calls[q].kind.CreateCall? && calls[q].stage == Submitted
    && ad == calls[q].kind.ad.(version := ad.version)
  }

  ghost predicate UsedIn(history: seq<Op>, q: ReqId) {
    exists k :: 0 <= k < |history| && history[k].CreateOp? && history[k].req == q
  }

  ghost predicate HistoryOk(history: seq<Op>, calls: map<ReqId, Call>) {
    && (forall k | 0 <= k < |history| && history[k].CreateOp? :: Submission(calls, history[k].req, history[k].ad))
    && (forall j, k | 0 <= j < k < |history| && history[j].CreateOp? && history[k].CreateOp? :: history[j].req != history[k].req)
  }

  ghost predicate WriterOk(l: LogState, calls: map<ReqId, Call>) {
    l.writer.Holding? && l.writer.op.CreateOp? ==>
      Submission(calls, l.writer.op.req, l.writer.op.ad) && !UsedIn(l.history, l.writer.op.req)
  }

  // Calls and the replicas.

  predicate Answered(call: Call) {
    call.chan.FullChan? || call.outcome.Returned?
  }

  function Answer(call: Call): ReplyMsg
    requires Answered(call)
  {
    if call.chan.FullChan? then call.chan.reply else call.outcome.reply
  }

  /** The replica has applied the create of request q, for the ad it answers with. */
  ghost predicate HasApplied(r: Replica, q: ReqId, reply: ReplyMsg) {
    exists k :: 0 <= k < |r.handled| && r.handled[k].CreateOp? && r.handled[k].req == q && reply == Created(r.handled[k].ad.id)
  }

  ghost predicate CallOk(call: Call, q: ReqId, replicas: map<ReplicaId, Replica>, now: Time) {
    && call.began <= now && call.owner in replicas
    && (call.outcome == Waiting ==> call.chan != NoChan) && call.outcome != ErrUnknown
    && (call.outcome.Returned? ==> !call.chan.FullChan?)
    && (Answered(call) ==> KindMatches(call.kind, Answer(call)))
    && match call.kind
       case CreateCall(_) =>
         && (call.stage == Begun || call.stage == Submitted)
         && (Answered(call) ==> HasApplied(replicas[call.owner], q, Answer(call)))
       case GetCall(req) =>
         && WellFormed(req) && call.stage != Submitted && (Answered(call) ==> call.stage == Done)
         && (call.stage == Done && call.outcome == Waiting ==> call.chan.FullChan?)
         && (Answered(call) ==> Answer(call).total == |Answer(call).ads|)
  }

  ghost predicate ReplyingOk(r: Replica, i: ReplicaId, calls: map<ReqId, Call>) {
    r.handling.Some? && (r.handling.value.CheckReply? || r.handling.value.SendReply?) ==>
      var q := r.handling.value.req;
      && r.handled != [] && r.handled[|r.handled| - 1].CreateOp?
      && r.handled[|r.handled| - 1].req == q && r.handled[|r.handled| - 1].ad.id == r.handling.value.adID
      && q in calls && calls[q].kind.CreateCall?
      && (calls[q].owner == i ==> !Answered(calls[q]))
      && (r.handling.value.SendReply? ==> calls[q].owner == i)
  }

  ghost predicate Handles(r: Replica, q: ReqId) {
    r.handling.Some? && (r.handling.value.CheckReply? || r.handling.value.SendReply?) && r.handling.value.req == q
  }

  /** A caller that waits for an ad its replica has applied has its reply, or is about to get it. */
  ghost predicate DeliveredOk(r: Replica, i: ReplicaId, calls: map<ReqId, Call>) {
    forall k | 0 <= k < |r.handled| && r.handled[k].CreateOp? ::
      var q := r.handled[k].req;
      q in calls && (calls[q].owner == i && calls[q].outcome == Waiting ==> calls[q].chan.FullChan? || Handles(r, q))
  }

  /** The ads a replica's timers stand for. */
  ghost function WaitingAds(r: Replica): set<Ad> {
    TimerAds(r.timers, r.loopVar)
  }

  /** An ad waits for a timer only if it had not started when its call began. */
  ghost predicate WaitingOk(r: Replica, history: seq<Op>, calls: map<ReqId, Call>) {
    forall k | 0 <= k < |history| && history[k].CreateOp? && history[k].ad in WaitingAds(r) ::
      history[k].req in calls && calls[history[k].req].began <= history[k].ad.startAt
  }

  ghost predicate CallsInv(c: State) {
    && HistoryOk(c.log.history, c.calls) && WriterOk(c.log, c.calls)
    && (forall q | q in c.calls :: CallOk(c.calls[q], q, c.replicas, c.log.now))
    && (forall i | i in c.replicas :: ReplyingOk(c.replicas[i], i, c.calls))
    && (forall i | i in c.replicas :: WaitingOk(c.replicas[i], c.log.history, c.calls))
    && (forall i | i in c.replicas :: DeliveredOk(c.replicas[i], i, c.calls))
  }

  ghost predicate Inv(c: State) {
    BaseInv(c) && CallsInv(c)
  }

  lemma InitialInv(c: State)
    requires Initial(c)
    ensures Inv(c)
  {}

  // Preservation, event by event.

  /** A call may move on as long as it keeps its identity and is not newly answered. */
  ghost predicate Quiet(call: Call, call': Call) {
    && call'.owner == call.owner && call'.kind == call.kind && call'.began == call.began
    && (call.stage == Submitted <==> call'.stage == Submitted)
    && (Answered(call') ==> Answered(call) || call.kind.GetCall?)
    && (call'.outcome == Waiting ==> call.outcome == Waiting && (call.chan.FullChan? ==> call'.chan.FullChan?))
  }

  lemma QuietCalls(c: State, c': State, q: ReqId)
    requires CallsInv(c) && c'.log == c.log && c'.replicas == c.replicas
    requires q in c'.calls && c'.calls == c.calls[q := c'.calls[q]]
    requires q in c.calls ==> Quiet(c.calls[q], c'.calls[q])
    requires CallOk(c'.calls[q], q, c'.replicas, c'.log.now)
    ensures CallsInv(c')
  {
    forall p | p in c'.calls ensures CallOk(c'.calls[p], p, c'.replicas, c'.log.now) {
      if p != q { assert CallOk(c.calls[p], p, c.replicas, c.log.now); }
    }
    forall k | 0 <= k < |c.log.history| && c.log.history[k].CreateOp?
      ensures Submission(c'.calls, c.log.history[k].req, c.log.history[k].ad)
    {
      assert Submission(c.calls, c.log.history[k].req, c.log.history[k].ad);
    }
    forall i | i in c'.replicas ensures ReplyingOk(c'.replicas[i], i, c'.calls) && WaitingOk(c'.replicas[i], c'.log.history, c'.calls) {
      assert ReplyingOk(c.replicas[i], i, c.calls) && WaitingOk(c.replicas[i], c.log.history, c.calls);
    }
    QuietDelivered(c, c', q);
  }

  lemma QuietDelivered(c: State, c': State, q: ReqId)
    requires forall i | i in c.replicas :: DeliveredOk(c.replicas[i], i, c.calls)
    requires c'.replicas == c.replicas && q in c'.calls && c'.calls == c.calls[q := c'.calls[q]]
    requires q in c.calls ==> Quiet(c.calls[q], c'.calls[q])
    ensures forall i | i in c'.replicas :: DeliveredOk(c'.replicas[i], i, c'.calls)
  {
    forall i | i in c'.replicas ensures DeliveredOk(c'.replicas[i], i, c'.calls) {
      assert DeliveredOk(c.replicas[i], i, c.calls);
    }
  }

  lemma CallEventInv(c: State, q: ReqId, e: Event, c': State)
    requires CallsInv(c) && CallEvents(c, q, e, c')
    ensures CallsInv(c')
  {
    assert CallOk(c.calls[q], q, c.replicas, c.log.now);
    QuietCalls(c, c', q);
  }

  lemma BeginInv(c: State, q: ReqId, call: Call, c': State)
    requires CallsInv(c) && q !in c.calls && c' == c.(calls := c.calls[q := call])
    requires CallOk(call, q, c.replicas, c.log.now)
    ensures CallsInv(c')
  {
    QuietCalls(c, c', q);
  }

  // The log.

  lemma HistorySnoc(history: seq<Op>, op: Op, calls: map<ReqId, Call>)
    requires HistoryOk(history, calls)
    requires op.CreateOp? ==> Submission(calls, op.req, op.ad) && !UsedIn(history, op.req)
    ensures HistoryOk(history + [op], calls)
  {}

  lemma TimersSnoc(r: Replica, history: seq<Op>, op: Op, calls: map<ReqId, Call>)
    requires WaitingOk(r, history, calls) && (op.CreateOp? ==> op.ad !in WaitingAds(r))
    ensures WaitingOk(r, history + [op], calls)
  {}

  lemma {:induction false} FoldSource(history: seq<Op>, n: nat, a: Ad)
    requires n <= |history| && a in Fold(history[..n])
    ensures exists k :: 0 <= k < n && history[k].CreateOp? && history[k].ad == a
  {
    if n > 0 {
      assert history[..n] == history[..n - 1] + [history[n - 1]];
      FoldSnoc(history[..n - 1], history[n - 1]);
      if a in Fold(history[..n - 1]) {
        FoldSource(history, n - 1, a);
      } else {
        assert history[n - 1].CreateOp? && history[n - 1].ad == a;
      }
    }
  }

  /** A timer's ad has been committed, so no later commit is the same ad: their numbers differ. */
  lemma TimersPast(l: LogState, r: Replica, ad: Ad)
    requires ReplicaInv(l, r) && Numbered(l.history) && ad.version == |l.history| + 1
    ensures ad !in WaitingAds(r)
  {
    if r.phase != Down && ad in WaitingAds(r) {
      TimerCommitted(l, r, ad);
    }
  }

  lemma TimerCommitted(l: LogState, r: Replica, ad: Ad)
    requires StoreOk(l.history, l.now, r) && ad in WaitingAds(r)
    ensures exists k :: 0 <= k < |l.history| && l.history[k].CreateOp? && l.history[k].ad == ad
  {
    TimerPending(r.store, WaitingAds(r), Elems(Rest(r)), ad, Fold(l.history[..Applied(r)]), l.now);
    FoldSource(l.history, Applied(r), ad);
  }

  lemma CommitCalls(c: State, c': State)
    requires BaseInv(c) && CallsInv(c) && LogEvents(c, Commit, c') && Committed(c.log, c'.log)
    ensures CallsInv(c')
  {
    var op := c'.log.writer.op;
    if op.CreateOp? {
      assert Submission(c.calls, c.log.writer.op.req, c.log.writer.op.ad);
    }
    HistorySnoc(c.log.history, op, c.calls);
    forall i | i in c'.replicas ensures WaitingOk(c'.replicas[i], c'.log.history, c'.calls) {
      assert WaitingOk(c.replicas[i], c.log.history, c.calls);
      if op.CreateOp? { TimersPast(c.log, c.replicas[i], op.ad); }
      TimersSnoc(c.replicas[i], c.log.history, op, c.calls);
    }
  }

  lemma ObtainCalls(c: State, op: Op, c': State)
    requires CallsInv(c) && LogEvents(c, Obtain(op), c')
    ensures CallsInv(c')
  {
    if op.CreateOp? {
      var q := op.req;
      forall p | p in c'.calls ensures CallOk(c'.calls[p], p, c'.replicas, c'.log.now) {
        assert CallOk(c.calls[p], p, c.replicas, c.log.now);
      }
      forall k | 0 <= k < |c.log.history| && c.log.history[k].CreateOp?
        ensures Submission(c'.calls, c.log.history[k].req, c.log.history[k].ad) && c.log.history[k].req != q
      {
        assert Submission(c.calls, c.log.history[k].req, c.log.history[k].ad);
      }
      forall i | i in c'.replicas ensures ReplyingOk(c'.replicas[i], i, c'.calls) && WaitingOk(c'.replicas[i], c'.log.history, c'.calls) {
        assert ReplyingOk(c.replicas[i], i, c.calls) && WaitingOk(c.replicas[i], c.log.history, c.calls);
      }
    }
  }

  lemma OtherLogCalls(c: State, step: LogStep, c': State)
    requires CallsInv(c) && LogEvents(c, step, c') && !step.Obtain? && !step.Commit?
    ensures CallsInv(c')
  {
    forall p | p in c'.calls ensures CallOk(c'.calls[p], p, c'.replicas, c'.log.now) {
      assert CallOk(c.calls[p], p, c.replicas, c.log.now);
    }
  }

  // The replicas.

  /** What a step of a replica may do to the facts about calls. */
  lemma ReplicaCalls(c: State, i: ReplicaId, c': State)
    requires CallsInv(c) && c'.log == c.log && c'.calls == c.calls && i in c.replicas && i in c'.replicas
    requires c'.replicas == c.replicas[i := c'.replicas[i]]
    requires c.replicas[i].handled <= c'.replicas[i].handled
    requires ReplyingOk(c'.replicas[i], i, c.calls) && WaitingOk(c'.replicas[i], c.log.history, c.calls)
    requires DeliveredOk(c'.replicas[i], i, c.calls)
    ensures CallsInv(c')
  {
    forall q | q in c'.calls ensures CallOk(c'.calls[q], q, c'.replicas, c'.log.now) {
      assert CallOk(c.calls[q], q, c.replicas, c.log.now);
      if c.calls[q].owner == i && c.calls[q].kind.CreateCall? && Answered(c.calls[q]) {
        AppliedStays(c.replicas[i], c'.replicas[i], q, Answer(c.calls[q]));
      }
    }
  }

  lemma AppliedStays(r: Replica, r': Replica, q: ReqId, reply: ReplyMsg)
    requires HasApplied(r, q, reply) && r.handled <= r'.handled
    ensures HasApplied(r', q, reply)
  {
    var k :| 0 <= k < |r.handled| && r.handled[k].CreateOp? && r.handled[k].req == q && reply == Created(r.handled[k].ad.id);
    assert r'.handled[k] == r.handled[k];
  }

  lemma HandledIsHistory(history: seq<Op>, r: Replica, k: nat)
    requires SequenceOk(history, r) && k < |r.handled|
    ensures r.base + k < |history| && r.handled[k] == history[r.base + k]
  {
    assert (r.handled + Queue(r))[k] == history[r.base..r.version][k];
  }

  /** No operation is applied twice, so the reply to a create finds its channel unused. */
  lemma NotYetApplied(history: seq<Op>, calls: map<ReqId, Call>, r: Replica, q: ReqId, reply: ReplyMsg)
    requires HistoryOk(history, calls) && SequenceOk(history, r)
    requires r.handling.Some? && r.handling.value.EntryMsg? && r.handling.value.op.CreateOp? && r.handling.value.op.req == q
    ensures !HasApplied(r, q, reply)
  {
    NextOp(history, r);
    forall k | 0 <= k < |r.handled| && r.handled[k].CreateOp? ensures r.handled[k].req != q {
      HandledIsHistory(history, r, k);
    }
  }

  ghost predicate MayWait(timers: set<Ad>, ad: Ad, now: Time, timers': set<Ad>) {
    timers' == timers || (timers' == timers + {ad} && ad.startAt >= now)
  }

  lemma ApplyEffect(l: LogState, r: Replica, r': Replica)
    requires ReplicaNext(l, r, ApplyEntry, r')
    ensures r.handling.Some? && r.handling.value.EntryMsg? && r'.handled == r.handled + [r.handling.value.op]
    ensures match r.handling.value.op
      case CreateOp(ad, req) => r'.handling == Some(CheckReply(req, ad.id)) && MayWait(WaitingAds(r), ad, l.now, WaitingAds(r'))
      case DeleteOp(_) => r'.handling == None && WaitingAds(r') == WaitingAds(r)
  {
    match r.handling.value.op
    case CreateOp(ad, req) => TimerLeft(r.timers, r.loopVar, StartTimer(ad.startAt, Some(ad)), ad);
    case DeleteOp(_) =>
  }

  lemma BatchEffect(l: LogState, r: Replica, r': Replica)
    requires ReplicaNext(l, r, BatchAd, r') && Timely(l, r, BatchAd) && TimersOk(r.timers, r.loopVar, AdsIn(r.handling))
    ensures r.handling.Some? && r.handling.value.BatchMsg? && r.handling.value.ads != []
    ensures r'.handled == r.handled && r'.handling.Some? && r'.handling.value.BatchMsg?
    ensures MayWait(WaitingAds(r), r.handling.value.ads[0], l.now, WaitingAds(r'))
  {
    var ads := r.handling.value.ads;
    LoopMoves(r.timers, r.loopVar, ads);
    var t := StartTimer(ads[0].startAt, if r.perAd then Some(ads[0]) else None);
    TimerLeft(r.timers, Some(ads[0]), t, ads[0]);
  }

  lemma OtherEffect(l: LogState, r: Replica, step: Step, r': Replica)
    requires ReplicaNext(l, r, step, r') && PhaseOk(r)
    requires step.Snapshot? || step.Receive? || step.BatchDone? || step.Fire? || step.Read? || step.Accept?
    ensures r'.handled == r.handled && WaitingAds(r') <= WaitingAds(r)
    ensures r'.handling == r.handling || r'.handling.None? || r'.handling.value.EntryMsg? || r'.handling.value.BatchMsg?
    ensures r.handling.Some? && (r.handling.value.CheckReply? || r.handling.value.SendReply?) ==> r'.handling == r.handling
  {
    assert forall t | t in r'.timers :: t in r.timers;
  }

  lemma DeliveredApply(r: Replica, r': Replica, i: ReplicaId, calls: map<ReqId, Call>, op: Op)
    requires DeliveredOk(r, i, calls) && r.handling == Some(EntryMsg(op)) && r'.handled == r.handled + [op]
    requires op.CreateOp? ==> op.req in calls && Handles(r', op.req)
    ensures DeliveredOk(r', i, calls)
  {}

  lemma DeliveredSame(r: Replica, r': Replica, i: ReplicaId, calls: map<ReqId, Call>)
    requires DeliveredOk(r, i, calls) && r'.handled == r.handled
    requires forall q | Handles(r, q) && q in calls && calls[q].owner == i && calls[q].outcome == Waiting :: Handles(r', q)
    ensures DeliveredOk(r', i, calls)
  {}

  lemma ApplyCalls(c: State, i: ReplicaId, c': State)
    requires BaseInv(c) && CallsInv(c) && ReplicaEvents(c, i, ApplyEntry, c')
    ensures CallsInv(c')
  {
    var r, r' := c.replicas[i], c'.replicas[i];
    ApplyEffect(c.log, r, r');
    var op := r.handling.value.op;
    assert ReplicaInv(c.log, r) && r.phase != Down;
    if op.CreateOp? {
      NextOp(c.log.history, r);
      assert Submission(c.calls, op.req, op.ad);
      if c.calls[op.req].owner == i { UnansweredYet(c, i, op.req); }
      LaunchTimers(c, i, op.ad, r');
    }
    assert WaitingOk(r, c.log.history, c.calls) && DeliveredOk(r, i, c.calls);
    DeliveredApply(r, r', i, c.calls, op);
    ReplicaCalls(c, i, c');
  }

  lemma UnansweredYet(c: State, i: ReplicaId, q: ReqId)
    requires CallsInv(c) && i in c.replicas && SequenceOk(c.log.history, c.replicas[i])
    requires var h := c.replicas[i].handling; h.Some? && h.value.EntryMsg? && h.value.op.CreateOp? && h.value.op.req == q
    requires q in c.calls && c.calls[q].kind.CreateCall? && c.calls[q].owner == i
    ensures !Answered(c.calls[q])
  {
    assert CallOk(c.calls[q], q, c.replicas, c.log.now);
    if Answered(c.calls[q]) {
      NotYetApplied(c.log.history, c.calls, c.replicas[i], q, Answer(c.calls[q]));
    }
  }

  /** An ad put on a timer now has not started yet, and its call began before now. */
  lemma LaunchTimers(c: State, i: ReplicaId, ad: Ad, r': Replica)
    requires CallsInv(c) && i in c.replicas
    requires MayWait(WaitingAds(c.replicas[i]), ad, c.log.now, WaitingAds(r'))
    ensures WaitingOk(r', c.log.history, c.calls)
  {
    var history := c.log.history;
    assert WaitingOk(c.replicas[i], history, c.calls);
    forall k | 0 <= k < |history| && history[k].CreateOp? && history[k].ad in WaitingAds(r')
      ensures history[k].req in c.calls && c.calls[history[k].req].began <= history[k].ad.startAt
    {
      assert Submission(c.calls, history[k].req, history[k].ad);
      assert CallOk(c.calls[history[k].req], history[k].req, c.replicas, c.log.now);
    }
  }

  lemma RestTimers(l: LogState, r: Replica)
    requires ReplicaInv(l, r) && r.handling.Some? && r.handling.value.BatchMsg?
    ensures TimersOk(r.timers, r.loopVar, AdsIn(r.handling))
  {
    assert Rest(r) == AdsIn(r.handling);
  }

  lemma BatchAdCalls(c: State, i: ReplicaId, c': State)
    requires BaseInv(c) && CallsInv(c) && ReplicaEvents(c, i, BatchAd, c')
    requires Timely(c.log, c.replicas[i], BatchAd)
    ensures CallsInv(c')
  {
    assert ReplicaInv(c.log, c.replicas[i]);
    RestTimers(c.log, c.replicas[i]);
    BatchEffect(c.log, c.replicas[i], c'.replicas[i]);
    LaunchTimers(c, i, c.replicas[i].handling.value.ads[0], c'.replicas[i]);
    assert WaitingOk(c'.replicas[i], c.log.history, c.calls) && DeliveredOk(c.replicas[i], i, c.calls);
    DeliveredSame(c.replicas[i], c'.replicas[i], i, c.calls);
    ReplicaCalls(c, i, c');
  }

  lemma ReplyCalls(c: State, i: ReplicaId, c': State)
    requires CallsInv(c) && ReplicaEvents(c, i, Reply, c')
    ensures CallsInv(c')
  {
    var r := c.replicas[i];
    var q, id := r.handling.value.req, r.handling.value.adID;
    assert ReplyingOk(r, i, c.calls) && CallOk(c.calls[q], q, c.replicas, c.log.now);
    var last := |r.handled| - 1;
    assert r.handled[last].CreateOp? && r.handled[last].req == q && Created(id) == Created(r.handled[last].ad.id);
    assert HasApplied(r, q, Created(id));
    AnsweredInv(c, i, q, id, c'.replicas[i], c');
  }

  lemma AnsweredInv(c: State, i: ReplicaId, q: ReqId, id: AdID, r': Replica, c': State)
    requires CallsInv(c) && i in c.replicas && q in c.calls && c.calls[q].owner == i && c.calls[q].kind.CreateCall?
    requires c.calls[q].chan == EmptyChan && !Answered(c.calls[q]) && HasApplied(c.replicas[i], q, Created(id))
    requires r' == c.replicas[i].(handling := None) && Handles(c.replicas[i], q)
    requires c' == c.(replicas := c.replicas[i := r'], calls := c.calls[q := c.calls[q].(chan := FullChan(Created(id)))])
    ensures CallsInv(c')
  {
    forall p | p in c'.calls ensures CallOk(c'.calls[p], p, c'.replicas, c'.log.now) {
      assert CallOk(c.calls[p], p, c.replicas, c.log.now);
    }
    forall k | 0 <= k < |c.log.history| && c.log.history[k].CreateOp?
      ensures Submission(c'.calls, c.log.history[k].req, c.log.history[k].ad)
    {
      assert Submission(c.calls, c.log.history[k].req, c.log.history[k].ad);
    }
    forall j | j in c'.replicas ensures ReplyingOk(c'.replicas[j], j, c'.calls) && WaitingOk(c'.replicas[j], c'.log.history, c'.calls) {
      assert ReplyingOk(c.replicas[j], j, c.calls) && WaitingOk(c.replicas[j], c.log.history, c.calls);
    }
    AnsweredDelivered(c, i, q, id, r', c');
  }

  lemma AnsweredDelivered(c: State, i: ReplicaId, q: ReqId, id: AdID, r': Replica, c': State)
    requires (forall j | j in c.replicas :: DeliveredOk(c.replicas[j], j, c.calls)) && i in c.replicas && q in c.calls
    requires r' == c.replicas[i].(handling := None) && Handles(c.replicas[i], q)
    requires c' == c.(replicas := c.replicas[i := r'], calls := c.calls[q := c.calls[q].(chan := FullChan(Created(id)))])
    ensures forall j | j in c'.replicas :: DeliveredOk(c'.replicas[j], j, c'.calls)
  {
    forall j | j in c'.replicas ensures DeliveredOk(c'.replicas[j], j, c'.calls) {
      assert DeliveredOk(c.replicas[j], j, c.calls);
    }
  }

  lemma CheckCalls(c: State, i: ReplicaId, found: bool, c': State)
    requires CallsInv(c) && ReplicaEvents(c, i, Check(found), c')
    ensures CallsInv(c')
  {
    assert ReplyingOk(c.replicas[i], i, c.calls) && WaitingOk(c.replicas[i], c.log.history, c.calls);
    assert DeliveredOk(c.replicas[i], i, c.calls);
    FoundIfWaiting(c, i, found, c');
    DeliveredSame(c.replicas[i], c'.replicas[i], i, c.calls);
    ReplicaCalls(c, i, c');
  }

  /** Exists finds the channel of every caller that waits. */
  lemma FoundIfWaiting(c: State, i: ReplicaId, found: bool, c': State)
    requires CallsInv(c) && ReplicaEvents(c, i, Check(found), c')
    ensures forall q | Handles(c.replicas[i], q) && q in c.calls && c.calls[q].owner == i && c.calls[q].outcome == Waiting :: Handles(c'.replicas[i], q)
  {
    forall q | Handles(c.replicas[i], q) && q in c.calls && c.calls[q].owner == i && c.calls[q].outcome == Waiting
      ensures Handles(c'.replicas[i], q)
    {
      assert CallOk(c.calls[q], q, c.replicas, c.log.now);
    }
  }

  lemma OtherReplicaCalls(c: State, i: ReplicaId, step: Step, c': State)
    requires i in c.replicas && PhaseOk(c.replicas[i]) && CallsInv(c) && ReplicaEvents(c, i, step, c')
    requires step.Snapshot? || step.Receive? || step.BatchDone? || step.Fire? || step.Read? || step.Accept?
    ensures CallsInv(c')
  {
    var r, r' := c.replicas[i], c'.replicas[i];
    assert PhaseOk(r);
    OtherEffect(c.log, r, step, r');
    assert WaitingOk(r, c.log.history, c.calls) && ReplyingOk(r, i, c.calls);
    assert ReplyingOk(r', i, c.calls);
    FewerTimers(r, r', c.log.history, c.calls);
    assert DeliveredOk(r, i, c.calls);
    DeliveredSame(r, r', i, c.calls);
    ReplicaCalls(c, i, c');
  }

  lemma FewerTimers(r: Replica, r': Replica, history: seq<Op>, calls: map<ReqId, Call>)
    requires WaitingOk(r, history, calls) && WaitingAds(r') <= WaitingAds(r)
    ensures WaitingOk(r', history, calls)
  {}

  lemma LogEventCalls(c: State, step: LogStep, c': State)
    requires BaseInv(c) && CallsInv(c) && LogEvents(c, step, c') && Healthy(c.log, step)
    ensures CallsInv(c')
  {
    if step == Commit {
      CommitTable(c.log, c'.log);
      CommitCalls(c, c');
    } else if step.Obtain? {
      ObtainCalls(c, step.op, c');
    } else {
      OtherLogCalls(c, step, c');
    }
  }

  lemma ReplicaEventCalls(c: State, i: ReplicaId, step: Step, c': State)
    requires BaseInv(c) && CallsInv(c) && ReplicaEvents(c, i, step, c')
    requires Timely(c.log, c.replicas[i], step)
    ensures CallsInv(c')
  {
    match step
    case ApplyEntry => ApplyCalls(c, i, c');
    case BatchAd => BatchAdCalls(c, i, c');
    case Reply => ReplyCalls(c, i, c');
    case Check(found) => CheckCalls(c, i, found, c');
    case _ => OtherReplicaCalls(c, i, step, c');
  }

  /** Every step of the system keeps the whole invariant. */
  lemma Preserved(c: State, e: Event, c': State)
    requires Inv(c) && Next(c, e, c') && Assumed(c, e)
    ensures Inv(c')
  {
    BasePreserved(c, e, c');
    CallsPreserved(c, e, c');
  }

  lemma CallsPreserved(c: State, e: Event, c': State)
    requires Inv(c) && Next(c, e, c') && Assumed(c, e)
    ensures CallsInv(c')
  {
    match e
    case LogEvent(step) => LogEventCalls(c, step, c');
    case ReplicaEvent(i, step) => ReplicaEventCalls(c, i, step, c');
    case BeginCreate(q, i, ad) => BeginInv(c, q, Call(i, CreateCall(ad), c.log.now, EmptyChan, Waiting, Begun), c');
    case BeginGet(q, i, req) => BeginInv(c, q, Call(i, GetCall(req), c.log.now, EmptyChan, Waiting, Begun), c');
    case TakeGet(q) => CallEventInv(c, q, e, c');
    case ReadGet(q) => CallEventInv(c, q, e, c');
    case CheckGet(q) => CallEventInv(c, q, e, c');
    case SendGet(q) => CallEventInv(c, q, e, c');
    case Return(q) => CallEventInv(c, q, e, c');
    case GiveUp(q) => CallEventInv(c, q, e, c');
    case Leave(q) => CallEventInv(c, q, e, c');
  }

  // Runs.

  datatype Run = Run(states: seq<State>, events: seq<Event>)

  ghost predicate StepAt(run: Run, j: nat)
    requires |run.states| == |run.events| + 1 && j < |run.events|
  {
    Next(run.states[j], run.events[j], run.states[j + 1]) && Assumed(run.states[j], run.events[j])
  }

  ghost predicate IsRun(run: Run) {
    && |run.states| == |run.events| + 1 && Initial(run.states[0])
    && forall j | 0 <= j < |run.events| :: StepAt(run, j)
  }

  lemma {:induction false} RunInv(run: Run, j: nat)
    requires IsRun(run) && j < |run.states|
    ensures Inv(run.states[j])
  {
    if j == 0 {
      InitialInv(run.states[0]);
    } else {
      RunInv(run, j - 1);
      assert StepAt(run, j - 1);
      Preserved(run.states[j - 1], run.events[j - 1], run.states[j]);
    }
  }

  /** The replica's answer is the page of the active, started, matching ads as of its version. */
  ghost predicate AnswersNaively(l: LogState, r: Replica, req: Request)
    requires WellFormed(req) && r.version <= |l.history|
  {
    var wanted := Wanted(Fold(l.history[..r.version]), l.now, req);
    UniqueIds(wanted) && Query(r.store, req) == Page(SortedAds(wanted), req)
  }

  lemma SettledAnswer(l: LogState, r: Replica, req: Request)
    requires ReplicaInv(l, r) && Settled(l, r) && WellFormed(req)
    ensures r.version <= |l.history| && AnswersNaively(l, r, req)
  {
    NaiveAnswer(l, r, req);
  }

  /**
   End to end: in every run, a replica with nothing queued and no timer due
   answers every request naively; at the last version, over the table's own rows.
   PageOf says it in the ads' own fields, and FoldMeaning what the fold is.
   */
  lemma EveryAnswer(run: Run, j: nat, i: ReplicaId, req: Request)
    requires IsRun(run) && j < |run.states| && i in run.states[j].replicas && WellFormed(req)
    requires Settled(run.states[j].log, run.states[j].replicas[i])
    ensures var l, r := run.states[j].log, run.states[j].replicas[i];
      && r.version <= |l.history| && AnswersNaively(l, r, req)
      && (r.version == |l.history| ==> Fold(l.history[..r.version]) == Active(l.rows))
    ensures var l, r := run.states[j].log, run.states[j].replicas[i];
      PageOf((set a | a in Fold(l.history[..r.version]) && a.startAt <= l.now), req, Query(r.store, req))
  {
    RunInv(run, j);
    var l, r := run.states[j].log, run.states[j].replicas[i];
    SettledAnswer(l, r, req);
    SettledPage(l, r, req);
    WholeHistory(l);
  }

  lemma SettledPage(l: LogState, r: Replica, req: Request)
    requires ReplicaInv(l, r) && Settled(l, r) && WellFormed(req)
    ensures r.version <= |l.history|
    ensures PageOf((set a | a in Fold(l.history[..r.version]) && a.startAt <= l.now), req, Query(r.store, req))
  {
    IdleLive(l, r);
    ReadIsPage(r.store, req);
    assert Live(r.store) == set a | a in Fold(l.history[..r.version]) && a.startAt <= l.now;
  }

  lemma WholeHistory(l: LogState)
    requires HealthyInv(l)
    ensures Fold(l.history[..|l.history|]) == Active(l.rows)
  {
    assert l.history[..|l.history|] == l.history;
  }

  /** In no run does a replica panic, and no caller ever sees an unexpected reply. */
  lemma NoPanicNoUnknown(run: Run, j: nat)
    requires IsRun(run) && j < |run.states|
    ensures forall i | i in run.states[j].replicas :: !run.states[j].replicas[i].crashed
    ensures forall q | q in run.states[j].calls :: run.states[j].calls[q].outcome != ErrUnknown
  {
    RunInv(run, j);
    var c := run.states[j];
    forall i | i in c.replicas ensures !c.replicas[i].crashed {
      assert ReplicaInv(c.log, c.replicas[i]);
    }
    forall q | q in c.calls ensures c.calls[q].outcome != ErrUnknown {
      assert CallOk(c.calls[q], q, c.replicas, c.log.now);
    }
  }
}
