/**
 The sending of replies, over whole runs: when a sender is blocked
 (pkg/dispatcher/request_multiplexer.go:52-53, 78-79, 90-91), and that a request is
 replied to once.
 */
module Replies {
  import opened AdModel
  import opened Ranking
  import opened IndexTree
  import opened Store
  import opened Log
  import opened Replica
  import opened Cluster
  import opened Answers

  // Blocked senders.

  /** A dispatcher about to send for q at replica i. */
  ghost predicate AboutToSend(c: State, i: ReplicaId, q: ReqId) {
    && i in c.replicas && c.replicas[i].handling.Some? && c.replicas[i].handling.value.SendReply?
    && c.replicas[i].handling.value.req == q
  }

  ghost predicate CanSend(c: State, i: ReplicaId) {
    exists d :: ReplicaEvents(c, i, Reply, d)
  }

  /**
   A dispatcher about to send a reply never finds the channel full. It can send
   exactly when its caller has not timed out and deregistered since the check.
   */
  lemma SendBlocksOnlyOnTimeout(run: Run, j: nat, i: ReplicaId, q: ReqId)
    requires IsRun(run) && j < |run.states| && AboutToSend(run.states[j], i, q)
    ensures var c := run.states[j];
      && q in c.calls && c.calls[q].owner == i && !c.calls[q].chan.FullChan?
      && (CanSend(c, i) <==> c.calls[q].chan != NoChan)
      && (c.calls[q].chan == NoChan ==> c.calls[q].outcome == GaveUp)
  {
    RunInv(run, j);
    var c := run.states[j];
    assert ReplyingOk(c.replicas[i], i, c.calls);
    assert CallOk(c.calls[q], q, c.replicas, c.log.now);
    NotCrashed(c, i);
    SendEnabled(c, i, q);
  }

  lemma NotCrashed(c: State, i: ReplicaId)
    requires BaseInv(c) && i in c.replicas
    ensures !c.replicas[i].crashed
  {
    assert ReplicaInv(c.log, c.replicas[i]);
  }

  lemma SendEnabled(c: State, i: ReplicaId, q: ReqId)
    requires AboutToSend(c, i, q) && !c.replicas[i].crashed && q in c.calls && c.calls[q].owner == i && !c.calls[q].chan.FullChan?
    ensures CanSend(c, i) <==> c.calls[q].chan != NoChan
  {
    var r' := c.replicas[i].(handling := None);
    var d := c.(replicas := c.replicas[i := r'], calls := c.calls[q := c.calls[q].(chan := FullChan(Created(c.replicas[i].handling.value.adID)))]);
    if c.calls[q].chan != NoChan {
      assert ReplicaNext(c.log, c.replicas[i], Reply, d.replicas[i]);
      assert ReplicaEvents(c, i, Reply, d);
    }
  }

  /** A dispatcher about to send on a channel that is gone. */
  ghost predicate Blocked(c: State, i: ReplicaId, q: ReqId) {
    AboutToSend(c, i, q) && q in c.calls && c.calls[q].chan == NoChan
  }

  lemma BlockedStep(c: State, e: Event, d: State, i: ReplicaId, q: ReqId)
    requires Next(c, e, d) && Blocked(c, i, q)
    ensures Blocked(d, i, q) && d.replicas[i].handled == c.replicas[i].handled
  {
    if e.ReplicaEvent? && e.i == i {
      BlockedReplica(c, e.rstep, d, i, q);
    }
  }

  lemma BlockedReplica(c: State, step: Step, d: State, i: ReplicaId, q: ReqId)
    requires ReplicaEvents(c, i, step, d) && Blocked(c, i, q)
    ensures Blocked(d, i, q) && d.replicas[i].handled == c.replicas[i].handled
  {}

  /** Once there it stays there, and its replica applies no entry any more. */
  lemma {:induction false} BlockedForGood(run: Run, j: nat, n: nat, i: ReplicaId, q: ReqId)
    requires IsRun(run) && j <= n < |run.states| && Blocked(run.states[j], i, q)
    ensures Blocked(run.states[n], i, q) && run.states[n].replicas[i].handled == run.states[j].replicas[i].handled
  {
    if j < n {
      BlockedForGood(run, j, n - 1, i, q);
      assert StepAt(run, n - 1);
      BlockedStep(run.states[n - 1], run.events[n - 1], run.states[n], i, q);
    }
  }

  // At most one reply.

  /** The send of a reply to q, by a create entry's handler or by a read's goroutine. */
  ghost predicate Sends(c: State, e: Event, q: ReqId) {
    || e == SendGet(q)
    || (e.ReplicaEvent? && e.rstep == Reply && e.i in c.replicas
        && c.replicas[e.i].handling.Some? && c.replicas[e.i].handling.value.SendReply? && c.replicas[e.i].handling.value.req == q)
  }

  /** Exists says yes for q. */
  ghost predicate Finds(c: State, e: Event, q: ReqId) {
    || (e == CheckGet(q) && q in c.calls && c.calls[q].chan != NoChan)
    || (e.ReplicaEvent? && e.rstep == Check(true) && e.i in c.replicas
        && c.replicas[e.i].handling.Some? && c.replicas[e.i].handling.value.CheckReply? && c.replicas[e.i].handling.value.req == q)
  }

  /** How far a dispatcher has come: entries applied, and the stages of the last one's reply. */
  function Progress(r: Replica): nat {
    3 * |r.handled| + (if r.handling.Some? && r.handling.value.CheckReply? then 0
                       else if r.handling.Some? && r.handling.value.SendReply? then 1 else 2)
  }

  lemma Progresses(l: LogState, r: Replica, step: Step, r': Replica)
    requires ReplicaNext(l, r, step, r') && PhaseOk(r)
    ensures Progress(r) <= Progress(r') && (step.Check? || step.Reply? ==> Progress(r) < Progress(r'))
  {}

  function ReadProgress(stage: Stage): nat {
    match stage
    case Begun => 0
    case Submitted => 0
    case Spawned => 1
    case HasRead(_) => 2
    case Sending(_) => 3
    case Done => 4
  }

  /** Nothing goes back, neither a dispatcher nor a call. */
  ghost predicate Onward(c: State, c': State, i: ReplicaId, q: ReqId)
    requires i in c.replicas && q in c.calls
  {
    && i in c'.replicas && Progress(c.replicas[i]) <= Progress(c'.replicas[i])
    && q in c'.calls && c'.calls[q].owner == c.calls[q].owner && c'.calls[q].kind == c.calls[q].kind
    && (c.calls[q].kind.GetCall? ==> ReadProgress(c.calls[q].stage) <= ReadProgress(c'.calls[q].stage))
  }

  lemma CallOnward(c: State, e: Event, c': State, q: ReqId)
    requires Next(c, e, c') && q in c.calls
    ensures q in c'.calls && c'.calls[q].owner == c.calls[q].owner && c'.calls[q].kind == c.calls[q].kind
    ensures c.calls[q].kind.GetCall? ==> ReadProgress(c.calls[q].stage) <= ReadProgress(c'.calls[q].stage)
  {}

  lemma ReplicaOnward(c: State, e: Event, c': State, i: ReplicaId)
    requires BaseInv(c) && Next(c, e, c') && i in c.replicas
    ensures i in c'.replicas && Progress(c.replicas[i]) <= Progress(c'.replicas[i])
  {
    if e.ReplicaEvent? {
      assert ReplicaInv(c.log, c.replicas[e.i]);
      Progresses(c.log, c.replicas[e.i], e.rstep, c'.replicas[e.i]);
    } else {
      SameReplicas(c, e, c');
    }
  }

  lemma {:induction false} RunOnward(run: Run, j: nat, n: nat, i: ReplicaId, q: ReqId)
    requires IsRun(run) && j <= n < |run.states| && i in run.states[j].replicas && q in run.states[j].calls
    ensures Onward(run.states[j], run.states[n], i, q)
  {
    if j < n {
      RunOnward(run, j, n - 1, i, q);
      NextOnward(run, n - 1, i, q);
      OnwardOn(run.states[j], run.states[n - 1], run.states[n], i, q);
    }
  }

  lemma NextOnward(run: Run, n: nat, i: ReplicaId, q: ReqId)
    requires IsRun(run) && n + 1 < |run.states| && i in run.states[n].replicas && q in run.states[n].calls
    ensures Onward(run.states[n], run.states[n + 1], i, q)
  {
    RunInv(run, n);
    assert StepAt(run, n);
    CallOnward(run.states[n], run.events[n], run.states[n + 1], q);
    ReplicaOnward(run.states[n], run.events[n], run.states[n + 1], i);
  }

  lemma OnwardOn(a: State, b: State, c: State, i: ReplicaId, q: ReqId)
    requires i in a.replicas && q in a.calls && Onward(a, b, i, q) && Onward(b, c, i, q)
    ensures Onward(a, c, i, q)
  {}

  /** Two handlers for one request at a replica have applied one and the same entry. */
  lemma OneHandler(c: State, d: State, i: ReplicaId, q: ReqId, m: nat, n: nat)
    requires i in c.replicas && i in d.replicas && HistoryOk(d.log.history, d.calls) && c.log.history <= d.log.history
    requires SequenceOk(c.log.history, c.replicas[i]) && SequenceOk(d.log.history, d.replicas[i])
    requires c.replicas[i].base == d.replicas[i].base
    requires m < |c.replicas[i].handled| && c.replicas[i].handled[m].CreateOp? && c.replicas[i].handled[m].req == q
    requires n < |d.replicas[i].handled| && d.replicas[i].handled[n].CreateOp? && d.replicas[i].handled[n].req == q
    ensures m == n
  {
    HandledIsHistory(c.log.history, c.replicas[i], m);
    HandledIsHistory(d.log.history, d.replicas[i], n);
  }

  /** A dispatcher whose last applied entry is q's create. */
  ghost predicate Handling(c: State, i: ReplicaId, q: ReqId) {
    && i in c.replicas && HistoryOk(c.log.history, c.calls)
    && var r := c.replicas[i];
       SequenceOk(c.log.history, r) && r.handled != [] && r.handled[|r.handled| - 1].CreateOp? && r.handled[|r.handled| - 1].req == q
  }

  lemma HandlerApplied(c: State, i: ReplicaId, q: ReqId)
    requires Inv(c) && i in c.replicas && Handles(c.replicas[i], q)
    ensures Handling(c, i, q) && q in c.calls && c.calls[q].kind.CreateCall?
    ensures c.replicas[i].handling.value.SendReply? ==> c.calls[q].owner == i
  {
    assert ReplyingOk(c.replicas[i], i, c.calls);
    assert ReplicaInv(c.log, c.replicas[i]);
  }

  /** The same stage of the same request's reply, at the same replica, is reached once. */
  lemma StageOnce(c: State, d: State, i: ReplicaId, q: ReqId)
    requires Handling(c, i, q) && Handling(d, i, q) && q in c.calls && Grown(c, d, i, q)
    requires Progress(c.replicas[i]) < Progress(d.replicas[i])
    requires Handles(c.replicas[i], q) && Handles(d.replicas[i], q)
    ensures c.replicas[i].handling.value.CheckReply? && d.replicas[i].handling.value.SendReply?
  {
    OneHandler(c, d, i, q, |c.replicas[i].handled| - 1, |d.replicas[i].handled| - 1);
  }

  /** Where a reply to q is sent, or its channel found: by its owner's dispatcher, or by the read's own goroutine. */
  ghost predicate ByOwner(c: State, e: Event, q: ReqId)
    requires q in c.calls
  {
    var call := c.calls[q];
    if call.kind.CreateCall? then
      && e.ReplicaEvent? && e.i == call.owner && e.i in c.replicas && Handles(c.replicas[e.i], q)
      && if c.replicas[e.i].handling.value.CheckReply? then e.rstep.Check? else e.rstep.Reply?
    else (e == CheckGet(q) && call.stage.HasRead?) || (e == SendGet(q) && call.stage.Sending?)
  }

  lemma AtOwner(c: State, e: Event, d: State, q: ReqId)
    requires Inv(c) && Next(c, e, d) && (Sends(c, e, q) || Finds(c, e, q))
    ensures q in c.calls && c.calls[q].owner in c.replicas && ByOwner(c, e, q)
  {
    if e.ReplicaEvent? {
      HandlerAtOwner(c, e.i, e.rstep, d, q);
    } else {
      ReadAtOwner(c, e, d, q);
    }
  }

  lemma HandlerAtOwner(c: State, i: ReplicaId, step: Step, d: State, q: ReqId)
    requires Inv(c) && ReplicaEvents(c, i, step, d) && Handles(c.replicas[i], q)
    requires step == (if c.replicas[i].handling.value.CheckReply? then Check(true) else Reply)
    ensures q in c.calls && c.calls[q].kind.CreateCall? && c.calls[q].owner == i
  {
    HandlerApplied(c, i, q);
  }

  lemma ReadAtOwner(c: State, e: Event, d: State, q: ReqId)
    requires CallsInv(c) && CallEvents(c, q, e, d) && (e == SendGet(q) || e == CheckGet(q))
    ensures c.calls[q].kind.GetCall? && c.calls[q].owner in c.replicas
    ensures if e == CheckGet(q) then c.calls[q].stage.HasRead? else c.calls[q].stage.Sending?
  {
    assert CallOk(c.calls[q], q, c.replicas, c.log.now);
  }

  lemma ReadStepsOn(c: State, e: Event, d: State, q: ReqId)
    requires Next(c, e, d) && q in c.calls && c.calls[q].kind.GetCall? && ByOwner(c, e, q)
    ensures q in d.calls && ReadProgress(c.calls[q].stage) < ReadProgress(d.calls[q].stage)
  {}

  lemma StepsOn(c: State, e: Event, d: State, q: ReqId)
    requires Inv(c) && Next(c, e, d) && q in c.calls && c.calls[q].owner in c.replicas && ByOwner(c, e, q)
    ensures q in d.calls && c.calls[q].owner in d.replicas
    ensures c.calls[q].kind.CreateCall? ==> Progress(c.replicas[c.calls[q].owner]) < Progress(d.replicas[c.calls[q].owner])
    ensures c.calls[q].kind.GetCall? ==> ReadProgress(c.calls[q].stage) < ReadProgress(d.calls[q].stage)
  {
    if c.calls[q].kind.CreateCall? {
      CallOnward(c, e, d, q);
      OwnerProgress(c, e.i, e.rstep, d);
    } else {
      SameReplicas(c, e, d);
      ReadStepsOn(c, e, d, q);
    }
  }

  lemma OwnerProgress(c: State, i: ReplicaId, step: Step, d: State)
    requires BaseInv(c) && ReplicaEvents(c, i, step, d) && (step.Check? || step.Reply?)
    ensures Progress(c.replicas[i]) < Progress(d.replicas[i])
  {
    assert ReplicaInv(c.log, c.replicas[i]);
    Progresses(c.log, c.replicas[i], step, d.replicas[i]);
  }

  /** From a send or a find to another, the same thing is not done again. */
  lemma NotAgain(c: State, e: Event, d: State, f: Event, q: ReqId)
    requires q in c.calls && c.calls[q].owner in c.replicas && ByOwner(c, e, q)
    requires c.calls[q].kind.CreateCall? ==> Handling(c, c.calls[q].owner, q) && Handling(d, c.calls[q].owner, q)
    requires q in d.calls && d.calls[q].owner == c.calls[q].owner && d.calls[q].kind == c.calls[q].kind && ByOwner(d, f, q)
    requires Grown(c, d, c.calls[q].owner, q)
    requires c.calls[q].kind.CreateCall? ==> Progress(c.replicas[c.calls[q].owner]) < Progress(d.replicas[c.calls[q].owner])
    requires c.calls[q].kind.GetCall? ==> ReadProgress(c.calls[q].stage) < ReadProgress(d.calls[q].stage)
    ensures !(Sends(c, e, q) && Sends(d, f, q)) && !(Finds(c, e, q) && Finds(d, f, q))
  {
    if c.calls[q].kind.CreateCall? {
      StageOnce(c, d, c.calls[q].owner, q);
    }
  }

  lemma NotTwice(run: Run, j: nat, k: nat, q: ReqId)
    requires IsRun(run) && j < k < |run.events|
    requires Sends(run.states[j], run.events[j], q) || Finds(run.states[j], run.events[j], q)
    requires Sends(run.states[k], run.events[k], q) || Finds(run.states[k], run.events[k], q)
    ensures !(Sends(run.states[j], run.events[j], q) && Sends(run.states[k], run.events[k], q))
    ensures !(Finds(run.states[j], run.events[j], q) && Finds(run.states[k], run.events[k], q))
  {
    var i := OwnerStep(run, j, q);
    var i' := OwnerStep(run, k, q);
    RunOnward(run, j + 1, k, i, q);
    RunGrows(run, j, k, i, q);
    if run.states[j].calls[q].kind.CreateCall? {
      RunInv(run, j);
      RunInv(run, k);
      HandlerApplied(run.states[j], i, q);
      HandlerApplied(run.states[k], i, q);
    }
    NotAgain(run.states[j], run.events[j], run.states[k], run.events[k], q);
  }

  lemma OwnerStep(run: Run, j: nat, q: ReqId) returns (i: ReplicaId)
    requires IsRun(run) && j < |run.events| && (Sends(run.states[j], run.events[j], q) || Finds(run.states[j], run.events[j], q))
    ensures var c, d := run.states[j], run.states[j + 1];
      && q in c.calls && i == c.calls[q].owner && i in c.replicas && ByOwner(c, run.events[j], q)
      && q in d.calls && i in d.replicas
      && (c.calls[q].kind.CreateCall? ==> Progress(c.replicas[i]) < Progress(d.replicas[i]))
      && (c.calls[q].kind.GetCall? ==> ReadProgress(c.calls[q].stage) < ReadProgress(d.calls[q].stage))
      && d.calls[q].kind == c.calls[q].kind
  {
    RunInv(run, j);
    assert StepAt(run, j);
    AtOwner(run.states[j], run.events[j], run.states[j + 1], q);
    i := run.states[j].calls[q].owner;
    StepsOn(run.states[j], run.events[j], run.states[j + 1], q);
    CallOnward(run.states[j], run.events[j], run.states[j + 1], q);
  }

  /**
   In every run, across all replicas, at most one reply is sent to a request, and its
   channel is found at most once. Not the channel ensures this: a caller that has
   received leaves it empty and registered for a while. What does is that no replica
   applies an entry twice.
   */
  lemma AtMostOneReply(run: Run, j: nat, k: nat, q: ReqId)
    requires IsRun(run) && j < |run.events| && k < |run.events|
    ensures Sends(run.states[j], run.events[j], q) && Sends(run.states[k], run.events[k], q) ==> j == k
    ensures Finds(run.states[j], run.events[j], q) && Finds(run.states[k], run.events[k], q) ==> j == k
  {
    if (Sends(run.states[j], run.events[j], q) && Sends(run.states[k], run.events[k], q))
       || (Finds(run.states[j], run.events[j], q) && Finds(run.states[k], run.events[k], q))
    {
      if j < k { NotTwice(run, j, k, q); }
      if k < j { NotTwice(run, k, j, q); }
    }
  }
}
