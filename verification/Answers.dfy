/**
 What callers are told, over whole runs of the system: a successful CreateAd, a
 read, and a read after a create (pkg/service/ad.go:366-436).
 */
module Answers {
  import opened AdModel
  import opened Ranking
  import opened IndexTree
  import opened Store
  import opened Log
  import opened Replica
  import opened Cluster

  // What a successful CreateAd promises.

  ghost predicate DeletedAfter(history: seq<Op>, k: nat, n: nat, id: AdID) {
    exists m :: k < m < n && m < |history| && history[m] == DeleteOp(id)
  }

  lemma {:induction false} CreatedStays(history: seq<Op>, k: nat, n: nat)
    requires k < n <= |history| && history[k].CreateOp?
    ensures history[k].ad in Fold(history[..n]) || DeletedAfter(history, k, n, history[k].ad.id)
  {
    assert history[..n] == history[..n - 1] + [history[n - 1]];
    FoldSnoc(history[..n - 1], history[n - 1]);
    if k < n - 1 {
      CreatedStays(history, k, n - 1);
      if history[n - 1] == DeleteOp(history[k].ad.id) {
        assert DeletedAfter(history, k, n, history[k].ad.id);
      }
    }
  }

  /** The commit number k is the one of request q, for the ad it was called with. */
  ghost predicate CommitOf(c: State, q: ReqId, k: nat)
    requires q in c.calls && c.calls[q].kind.CreateCall?
  {
    k < |c.log.history| && c.log.history[k] == CreateOp(c.calls[q].kind.ad.(version := k + 1), q)
  }

  lemma AnsweredCommit(c: State, q: ReqId) returns (k: nat)
    requires Numbered(c.log.history) && CallsInv(c)
    requires forall i | i in c.replicas && c.replicas[i].phase != Down :: SequenceOk(c.log.history, c.replicas[i])
    requires forall i | i in c.replicas && c.replicas[i].phase == Down :: c.replicas[i].handled == []
    requires q in c.calls && c.calls[q].kind.CreateCall? && Answered(c.calls[q])
    ensures c.calls[q].owner in c.replicas && CommitOf(c, q, k) && Answer(c.calls[q]) == Created(c.calls[q].kind.ad.id)
    ensures var r := c.replicas[c.calls[q].owner]; r.base <= k < Applied(r)
  {
    var call := c.calls[q];
    assert CallOk(call, q, c.replicas, c.log.now);
    var r := c.replicas[call.owner];
    assert HasApplied(r, q, Answer(call));
    var m :| 0 <= m < |r.handled| && r.handled[m].CreateOp? && r.handled[m].req == q && Answer(call) == Created(r.handled[m].ad.id);
    HandledIsHistory(c.log.history, r, m);
    k := r.base + m;
    assert Submission(c.calls, q, c.log.history[k].ad);
  }

  lemma LiveUnlessDeleted(l: LogState, r: Replica, calls: map<ReqId, Call>, k: nat)
    requires PhaseOk(r) && StoreOk(l.history, l.now, r) && WaitingOk(r, l.history, calls) && r.handled != []
    requires k < Applied(r) && l.history[k].CreateOp? && l.history[k].req in calls
    requires l.history[k].ad.startAt < calls[l.history[k].req].began
    ensures l.history[k].ad in Live(r.store) || DeletedAfter(l.history, k, Applied(r), l.history[k].ad.id)
  {
    CreatedStays(l.history, k, Applied(r));
    assert Rest(r) == [];
    NewToTimersOnly(r.store, WaitingAds(r), Fold(l.history[..Applied(r)]), l.now);
  }

  /** The ad of request q has been applied at its replica, and is live there or deleted since. */
  ghost predicate Visible(c: State, q: ReqId, k: nat)
    requires q in c.calls && c.calls[q].kind.CreateCall?
  {
    var call := c.calls[q];
    && call.owner in c.replicas && CommitOf(c, q, k)
    && var r := c.replicas[call.owner];
       && r.base <= k < Applied(r)
       && (c.log.history[k].ad in Live(r.store) || DeletedAfter(c.log.history, k, Applied(r), call.kind.ad.id))
  }

  /**
   In every run: a caller that got a reply to CreateAd got its own ad's id; and if
   the ad had started when the call began, from the reply on it is live at that
   replica until its delete is applied there.
   */
  lemma CreateIsVisible(run: Run, j: nat, q: ReqId)
    requires IsRun(run) && j < |run.states|
    requires var c := run.states[j]; q in c.calls && c.calls[q].kind.CreateCall? && Answered(c.calls[q])
    ensures var call := run.states[j].calls[q];
      && Answer(call) == Created(call.kind.ad.id)
      && (call.kind.ad.startAt < call.began ==> exists k :: Visible(run.states[j], q, k))
  {
    RunInv(run, j);
    var c := run.states[j];
    var call := c.calls[q];
    forall i | i in c.replicas
      ensures if c.replicas[i].phase == Down then c.replicas[i].handled == [] else SequenceOk(c.log.history, c.replicas[i])
    {
      assert ReplicaInv(c.log, c.replicas[i]);
    }
    var k := AnsweredCommit(c, q);
    if call.kind.ad.startAt < call.began {
      var r := c.replicas[call.owner];
      assert ReplicaInv(c.log, r) && r.handled != [];
      LiveUnlessDeleted(c.log, r, c.calls, k);
      assert Visible(c, q, k);
    }
  }

  /** A live ad is in the answer of every lookup that asks for it. */
  lemma LiveIsFound(s: StoreState, ad: Ad, req: Request)
    requires Agrees(s) && ad in Live(s) && Matches(ad, req)
    ensures ad in At(s.tree, RequestPath(req, Top))
  {
    var p := RequestPath(req, Top);
    PathMeaning(ad, req);
    assert ad in OnPath(Live(s), p);
    assert ad in Elems(At(s.tree, p));
  }

  // What a read returns.

  /** In state c the read of q has been spawned and not yet done, and doing it now would find these ads. */
  ghost predicate ReadAt(c: State, q: ReqId, found: seq<Ad>) {
    && q in c.calls && c.calls[q].kind.GetCall? && c.calls[q].stage == Spawned
    && c.calls[q].owner in c.replicas && WellFormed(c.calls[q].kind.req)
    && found == Query(c.replicas[c.calls[q].owner].store, c.calls[q].kind.req)
  }

  /** What a read has found, on its way to the caller or there. */
  function Found(call: Call): Option<seq<Ad>> {
    if call.stage.HasRead? || call.stage.Sending? then Some(call.stage.found)
    else if call.chan.FullChan? && call.chan.reply.Got? then Some(call.chan.reply.ads)
    else if call.outcome.Returned? && call.outcome.reply.Got? then Some(call.outcome.reply.ads)
    else None
  }

  lemma FoundByCall(c: State, q: ReqId, e: Event, c': State)
    requires CallEvents(c, q, e, c') && CallOk(c.calls[q], q, c.replicas, c.log.now)
    requires c.calls[q].kind.GetCall? && Found(c'.calls[q]).Some?
    ensures Found(c.calls[q]) == Found(c'.calls[q]) || ReadAt(c, q, Found(c'.calls[q]).value)
  {}

  lemma FoundStep(c: State, e: Event, c': State, q: ReqId)
    requires CallsInv(c) && Next(c, e, c') && q in c'.calls && c'.calls[q].kind.GetCall? && Found(c'.calls[q]).Some?
    ensures (q in c.calls && c.calls[q].kind == c'.calls[q].kind && c.calls[q].owner == c'.calls[q].owner)
    ensures Found(c.calls[q]) == Found(c'.calls[q]) || ReadAt(c, q, Found(c'.calls[q]).value)
  {
    assert q in c.calls ==> CallOk(c.calls[q], q, c.replicas, c.log.now);
    match e
    case LogEvent(_) =>
    case ReplicaEvent(i, _) => assert ReplyingOk(c.replicas[i], i, c.calls);
    case BeginCreate(_, _, _) =>
    case BeginGet(_, _, _) =>
    case TakeGet(p) => if p == q { FoundByCall(c, q, e, c'); }
    case ReadGet(p) => if p == q { FoundByCall(c, q, e, c'); }
    case CheckGet(p) => if p == q { FoundByCall(c, q, e, c'); }
    case SendGet(p) => if p == q { FoundByCall(c, q, e, c'); }
    case Return(p) => if p == q { FoundByCall(c, q, e, c'); }
    case GiveUp(p) => if p == q { FoundByCall(c, q, e, c'); }
    case Leave(p) => if p == q { FoundByCall(c, q, e, c'); }
  }

  lemma {:induction false} ReadMoment(run: Run, j: nat, q: ReqId) returns (m: nat)
    requires IsRun(run) && j < |run.states|
    requires var c := run.states[j]; q in c.calls && c.calls[q].kind.GetCall? && Found(c.calls[q]).Some?
    ensures m < j && ReadAt(run.states[m], q, Found(run.states[j].calls[q]).value)
    ensures run.states[m].calls[q].kind == run.states[j].calls[q].kind && run.states[m].calls[q].owner == run.states[j].calls[q].owner
  {
    assert j > 0;
    RunInv(run, j - 1);
    assert StepAt(run, j - 1);
    FoundStep(run.states[j - 1], run.events[j - 1], run.states[j], q);
    if ReadAt(run.states[j - 1], q, Found(run.states[j].calls[q]).value) {
      m := j - 1;
    } else {
      m := ReadMoment(run, j - 1, q);
    }
  }

  /** The ads live at a replica that a request asks for. */
  ghost function LiveMatching(s: StoreState, req: Request): set<Ad> {
    set a | a in Live(s) && Matches(a, req)
  }

  /** Reading now gives the page of the live, matching ads, in order. */
  ghost predicate ReadsNaively(c: State, q: ReqId, kind: Kind, found: seq<Ad>) {
    && ReadAt(c, q, found) && c.calls[q].kind == kind
    && var s := c.replicas[c.calls[q].owner].store;
       && UniqueIds(LiveMatching(s, kind.req)) && found == Page(SortedAds(LiveMatching(s, kind.req)), kind.req)
       && PageOf(Live(s), kind.req, found)
  }

  /** What a call was begun with stays: its kind, its replica, and when. */
  lemma BeginFixes(run: Run, b: nat, j: nat, q: ReqId)
    requires IsRun(run) && b < |run.events| && b < j < |run.states|
    ensures var e := run.events[b]; e.BeginGet? && e.q == q ==>
      && q !in run.states[b].calls && q in run.states[j].calls && run.states[j].calls[q].kind == GetCall(e.req)
      && run.states[j].calls[q].owner == e.i && run.states[j].calls[q].began == run.states[b].log.now
    ensures var e := run.events[b]; e.BeginCreate? && e.q == q ==>
      && q !in run.states[b].calls && q in run.states[j].calls && run.states[j].calls[q].kind == CreateCall(e.ad)
      && run.states[j].calls[q].owner == e.i && run.states[j].calls[q].began == run.states[b].log.now
  {
    var e := run.events[b];
    assert StepAt(run, b);
    if (e.BeginGet? || e.BeginCreate?) && e.q == q {
      RunGrows(run, b + 1, j, e.i, q);
    }
  }

  lemma AnsweredNaively(run: Run, j: nat, q: ReqId) returns (m: nat)
    requires IsRun(run) && j < |run.states|
    requires var c := run.states[j]; q in c.calls && c.calls[q].kind.GetCall? && Answered(c.calls[q])
    ensures var call := run.states[j].calls[q];
      && Answer(call).Got? && m < j && ReadsNaively(run.states[m], q, call.kind, Answer(call).ads)
      && run.states[m].calls[q].owner == call.owner
  {
    AnsweredGot(run, j, q);
    m := ReadMoment(run, j, q);
    RunInv(run, m);
    NaiveRead(run.states[m], q, Answer(run.states[j].calls[q]).ads);
  }

  /** The store of replica i has, of its live ads, this page of the request. */
  ghost predicate PageAt(c: State, i: ReplicaId, req: Request, found: seq<Ad>) {
    i in c.replicas && PageOf(Live(c.replicas[i].store), req, found)
  }

  /**
   In every run: the answer to a read begun with a request at a replica is, at one
   moment between the beginning and the reply, the page that request asks for of the
   ads live there; and its total is its length.
   */
  lemma ReadsAreAtomic(run: Run, b: nat, j: nat, q: ReqId)
    requires IsRun(run) && b < |run.events| && run.events[b].BeginGet? && run.events[b].q == q
    requires b < j < |run.states| && q in run.states[j].calls && Answered(run.states[j].calls[q])
    ensures var e, answer := run.events[b], Answer(run.states[j].calls[q]);
      && answer.Got? && answer.total == |answer.ads|
      && exists m :: b < m < j && PageAt(run.states[m], e.i, e.req, answer.ads)
  {
    BeginFixes(run, b, j, q);
    var m := AnsweredNaively(run, j, q);
    AnsweredTotal(run, j, q);
    if m <= b {
      RunGrows(run, m, b, run.states[m].calls[q].owner, q);
    }
    assert PageAt(run.states[m], run.events[b].i, run.events[b].req, Answer(run.states[j].calls[q]).ads);
  }

  lemma AnsweredTotal(run: Run, j: nat, q: ReqId)
    requires IsRun(run) && j < |run.states|
    requires var c := run.states[j]; q in c.calls && c.calls[q].kind.GetCall? && Answered(c.calls[q])
    ensures Answer(run.states[j].calls[q]).Got? && Answer(run.states[j].calls[q]).total == |Answer(run.states[j].calls[q]).ads|
  {
    RunInv(run, j);
    assert CallOk(run.states[j].calls[q], q, run.states[j].replicas, run.states[j].log.now);
  }

  lemma AnsweredGot(run: Run, j: nat, q: ReqId)
    requires IsRun(run) && j < |run.states|
    requires var c := run.states[j]; q in c.calls && c.calls[q].kind.GetCall? && Answered(c.calls[q])
    ensures Answer(run.states[j].calls[q]).Got? && Found(run.states[j].calls[q]) == Some(Answer(run.states[j].calls[q]).ads)
  {
    RunInv(run, j);
    assert CallOk(run.states[j].calls[q], q, run.states[j].replicas, run.states[j].log.now);
  }

  lemma StoreAgrees(l: LogState, r: Replica)
    requires ReplicaInv(l, r)
    ensures Agrees(r.store)
  {
    if r.phase == Down { EmptyAgrees(); }
  }

  lemma NaiveRead(c: State, q: ReqId, found: seq<Ad>)
    requires Inv(c) && q in c.calls && c.calls[q].kind.GetCall? && ReadAt(c, q, found)
    ensures ReadsNaively(c, q, c.calls[q].kind, found)
  {
    assert CallOk(c.calls[q], q, c.replicas, c.log.now);
    var r := c.replicas[c.calls[q].owner];
    StoreAgrees(c.log, r);
    QueryMeaning(r.store, c.calls[q].kind.req);
    ReadIsPage(r.store, c.calls[q].kind.req);
  }

  // What a reader sees of a write it has been told of.

  /** What no step takes back: commits, what a replica has applied, the identity of a call. */
  ghost predicate Grown(c: State, c': State, i: ReplicaId, q: ReqId)
    requires i in c.replicas && q in c.calls
  {
    && c.log.history <= c'.log.history
    && i in c'.replicas && Applied(c.replicas[i]) <= Applied(c'.replicas[i])
    && (c.replicas[i].handled != [] ==> c'.replicas[i].handled != [] && c'.replicas[i].base == c.replicas[i].base)
    && q in c'.calls && c'.calls[q].kind == c.calls[q].kind
    && c'.calls[q].owner == c.calls[q].owner && c'.calls[q].began == c.calls[q].began
  }

  lemma AppliedGrows(l: LogState, r: Replica, step: Step, r': Replica)
    requires ReplicaNext(l, r, step, r') && PhaseOk(r)
    ensures Applied(r) <= Applied(r')
    ensures r.handled != [] ==> r'.handled != [] && r'.base == r.base
  {}

  lemma StepGrows(c: State, e: Event, c': State, i: ReplicaId, q: ReqId)
    requires BaseInv(c) && Next(c, e, c') && Assumed(c, e) && i in c.replicas && q in c.calls
    ensures Grown(c, c', i, q)
  {
    LogStays(c, e, c');
    ReplicaStays(c, e, c', i);
    SameCall(c, e, c', q);
  }

  lemma LogStays(c: State, e: Event, c': State)
    requires HealthyInv(c.log) && Next(c, e, c') && Assumed(c, e)
    ensures c.log.history <= c'.log.history
  {
    if e.LogEvent? {
      HealthyGrows(c.log, e.step, c'.log);
    }
  }

  lemma ReplicaStays(c: State, e: Event, c': State, i: ReplicaId)
    requires BaseInv(c) && Next(c, e, c') && i in c.replicas
    ensures i in c'.replicas && Applied(c.replicas[i]) <= Applied(c'.replicas[i])
    ensures c.replicas[i].handled != [] ==> c'.replicas[i].handled != [] && c'.replicas[i].base == c.replicas[i].base
  {
    if e.ReplicaEvent? {
      assert ReplicaInv(c.log, c.replicas[e.i]);
      ReplicaStepGrows(c, e.i, e.rstep, c', i);
    } else {
      SameReplicas(c, e, c');
    }
  }

  lemma SameReplicas(c: State, e: Event, c': State)
    requires Next(c, e, c') && !e.ReplicaEvent?
    ensures c'.replicas == c.replicas && (!e.LogEvent? ==> c'.log == c.log)
  {}

  lemma SameCall(c: State, e: Event, c': State, q: ReqId)
    requires Next(c, e, c') && q in c.calls
    ensures q in c'.calls && c'.calls[q].kind == c.calls[q].kind
    ensures c'.calls[q].owner == c.calls[q].owner && c'.calls[q].began == c.calls[q].began
  {}

  lemma ReplicaStepGrows(c: State, k: ReplicaId, step: Step, c': State, i: ReplicaId)
    requires ReplicaEvents(c, k, step, c') && PhaseOk(c.replicas[k]) && i in c.replicas
    ensures c'.log == c.log && i in c'.replicas && Applied(c.replicas[i]) <= Applied(c'.replicas[i])
    ensures c.replicas[i].handled != [] ==> c'.replicas[i].handled != [] && c'.replicas[i].base == c.replicas[i].base
  {
    AppliedGrows(c.log, c.replicas[k], step, c'.replicas[k]);
  }

  lemma NextGrows(run: Run, n: nat, i: ReplicaId, q: ReqId)
    requires IsRun(run) && n + 1 < |run.states| && i in run.states[n].replicas && q in run.states[n].calls
    ensures Grown(run.states[n], run.states[n + 1], i, q)
  {
    RunInv(run, n);
    assert StepAt(run, n);
    StepGrows(run.states[n], run.events[n], run.states[n + 1], i, q);
  }

  lemma GrownOn(a: State, b: State, c: State, i: ReplicaId, q: ReqId)
    requires i in a.replicas && q in a.calls && Grown(a, b, i, q) && Grown(b, c, i, q)
    ensures Grown(a, c, i, q)
  {}

  lemma {:induction false} RunGrows(run: Run, j: nat, n: nat, i: ReplicaId, q: ReqId)
    requires IsRun(run) && j <= n < |run.states| && i in run.states[j].replicas && q in run.states[j].calls
    ensures Grown(run.states[j], run.states[n], i, q)
  {
    if j < n {
      RunGrows(run, j, n - 1, i, q);
      NextGrows(run, n - 1, i, q);
      GrownOn(run.states[j], run.states[n - 1], run.states[n], i, q);
    }
  }

  lemma VisibleStays(c: State, c': State, q: ReqId, k: nat)
    requires Inv(c') && q in c.calls && c.calls[q].kind.CreateCall? && Visible(c, q, k)
    requires Grown(c, c', c.calls[q].owner, q) && c.replicas[c.calls[q].owner].handled != []
    requires c.calls[q].kind.ad.startAt < c.calls[q].began
    ensures Visible(c', q, k)
  {
    assert c'.log.history[k] == c.log.history[k];
    var r := c'.replicas[c'.calls[q].owner];
    assert ReplicaInv(c'.log, r) && WaitingOk(r, c'.log.history, c'.calls);
    LiveUnlessDeleted(c'.log, r, c'.calls, k);
  }

  /** The read of g, done in state c, sees the ad of q unless its delete has been applied. */
  ghost predicate SeesWrite(c: State, q: ReqId, g: ReqId, k: nat) {
    && q in c.calls && c.calls[q].kind.CreateCall? && CommitOf(c, q, k)
    && g in c.calls && c.calls[g].kind.GetCall? && c.calls[g].owner in c.replicas
    && var r := c.replicas[c.calls[g].owner];
       c.log.history[k].ad in LiveMatching(r.store, c.calls[g].kind.req)
       || DeletedAfter(c.log.history, k, Applied(r), c.calls[q].kind.ad.id)
  }

  lemma SeesIfVisible(c: State, q: ReqId, g: ReqId, k: nat)
    requires q in c.calls && c.calls[q].kind.CreateCall? && Visible(c, q, k)
    requires g in c.calls && c.calls[g].kind.GetCall? && c.calls[g].owner == c.calls[q].owner
    requires Matches(c.calls[q].kind.ad, c.calls[g].kind.req)
    ensures SeesWrite(c, q, g, k)
  {
    assert Matches(c.log.history[k].ad, c.calls[g].kind.req);
  }

  /** The ad answered for in state j is still visible in state m. */
  lemma VisibleLater(run: Run, j: nat, m: nat, q: ReqId) returns (k: nat)
    requires IsRun(run) && j <= m < |run.states|
    requires AnsweredCreate(run.states[j], q)
    ensures q in run.states[m].calls && run.states[m].calls[q].kind == run.states[j].calls[q].kind
    ensures run.states[m].calls[q].owner == run.states[j].calls[q].owner
    ensures Visible(run.states[m], q, k)
  {
    AnsweredOwner(run, j, q);
    CreateIsVisible(run, j, q);
    k :| Visible(run.states[j], q, k);
    RunGrows(run, j, m, run.states[j].calls[q].owner, q);
    RunInv(run, m);
    VisibleStays(run.states[j], run.states[m], q, k);
  }

  /** A call begun after state j is read after it. */
  lemma ReadLater(run: Run, j: nat, n: nat, g: ReqId) returns (m: nat)
    requires IsRun(run) && j <= n < |run.states| && g !in run.states[j].calls
    requires AnsweredGet(run.states[n], g)
    ensures Answer(run.states[n].calls[g]).Got?
    ensures j < m < n && g in run.states[m].calls && run.states[m].calls[g].owner == run.states[n].calls[g].owner
    ensures ReadsNaively(run.states[m], g, run.states[n].calls[g].kind, Answer(run.states[n].calls[g]).ads)
  {
    m := AnsweredNaively(run, n, g);
    if m <= j {
      RunGrows(run, m, j, run.states[m].calls[g].owner, g);
    }
  }

  /** A reply has come to the CreateAd of an ad that had started when the call began. */
  ghost predicate AnsweredCreate(c: State, q: ReqId) {
    q in c.calls && c.calls[q].kind.CreateCall? && Answered(c.calls[q]) && c.calls[q].kind.ad.startAt < c.calls[q].began
  }

  ghost predicate AnsweredGet(c: State, g: ReqId) {
    g in c.calls && c.calls[g].kind.GetCall? && Answered(c.calls[g])
  }

  /**
   In every run: once a reply has come to the CreateAd of a started ad, every
   matching read begun later at that replica returns the page of live ads that
   include it, unless its delete has been applied there by then.
   */
  lemma ReadsSeeWrites(run: Run, j: nat, n: nat, q: ReqId, g: ReqId)
    requires IsRun(run) && j <= n < |run.states| && AnsweredCreate(run.states[j], q)
    requires g !in run.states[j].calls && AnsweredGet(run.states[n], g)
    requires run.states[n].calls[g].owner == run.states[j].calls[q].owner
    requires Matches(run.states[j].calls[q].kind.ad, run.states[n].calls[g].kind.req)
    ensures Answer(run.states[n].calls[g]).Got?
    ensures exists m, k ::
      && j < m < n && SeesWrite(run.states[m], q, g, k)
      && ReadsNaively(run.states[m], g, run.states[n].calls[g].kind, Answer(run.states[n].calls[g]).ads)
  {
    var m := ReadLater(run, j, n, g);
    var k := VisibleLater(run, j, m, q);
    SeesIfVisible(run.states[m], q, g, k);
  }

  lemma AnsweredOwner(run: Run, j: nat, q: ReqId)
    requires IsRun(run) && j < |run.states| && AnsweredCreate(run.states[j], q)
    ensures var c := run.states[j]; c.calls[q].owner in c.replicas && c.replicas[c.calls[q].owner].handled != []
  {
    RunInv(run, j);
    var c := run.states[j];
    assert CallOk(c.calls[q], q, c.replicas, c.log.now);
  }
}
