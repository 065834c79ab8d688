/**
 The service's Subscribe against the replica's transitions: one read and the handling
 of its messages (Service.AdService.Poll) does to the version, the last id and the
 dispatcher's channel what any run of a replica's steps from one read to the end of its
 batch does, however the dispatcher and the timers are scheduled in between
 (pkg/service/ad.go:241-276).
 */
module Subscriber {
  import opened AdModel
  import opened Log
  import opened Replica
  import opened Service

  /** What the subscriber puts on the dispatcher's channel over some states. */
  function SentOver(rs: seq<Replica>): seq<Msg> {
    if |rs| < 2 then []
    else
      var n := |rs| - 1;
      SentOver(rs[..n]) + if rs[n - 1].sending.None? && rs[n].sending.Some? then [rs[n].sending.value] else []
  }

  /** Where a subscriber is, some way through the messages of a read. */
  ghost predicate Through(r: Replica, version: nat, msgs: seq<Entry>, sent: seq<Msg>) {
    && r.phase == Subscribed && PhaseOk(r)
    && |r.batch| <= |msgs| && r.batch == msgs[|msgs| - |r.batch|..]
    && var accepted := Accepted(version, msgs[..|msgs| - |r.batch|]);
       r.version == VersionAfter(version, accepted) && sent == Sends(accepted)
  }

  lemma OtherStep(l: LogState, r: Replica, step: Step, r': Replica)
    requires PhaseOk(r) && r.phase == Subscribed && ReplicaNext(l, r, step, r') && !step.Read? && !step.Accept?
    ensures r'.phase == Subscribed && r'.batch == r.batch && r'.version == r.version
    ensures r.sending.None? ==> r'.sending.None?
  {}

  lemma AcceptStep(l: LogState, r: Replica, r': Replica, version: nat, msgs: seq<Entry>, sent: seq<Msg>)
    requires Through(r, version, msgs, sent) && ReplicaNext(l, r, Accept, r')
    ensures r'.sending.Some? ==> Through(r', version, msgs, sent + [r'.sending.value])
    ensures r'.sending.None? ==> Through(r', version, msgs, sent)
  {
    PhaseStays(l, r, Accept, r');
    var k := |msgs| - |r.batch|;
    assert r.batch[0] == msgs[k] && r.batch[1..] == msgs[k + 1..];
    AcceptedStep(version, msgs, k);
  }

  lemma ThroughStep(l: LogState, r: Replica, step: Step, r': Replica, version: nat, msgs: seq<Entry>, sent: seq<Msg>)
    requires Through(r, version, msgs, sent) && ReplicaNext(l, r, step, r') && !step.Read?
    ensures Through(r', version, msgs, sent + if r.sending.None? && r'.sending.Some? then [r'.sending.value] else [])
  {
    assert sent + [] == sent;
    PhaseStays(l, r, step, r');
    if step.Accept? {
      AcceptStep(l, r, r', version, msgs, sent);
    } else {
      OtherStep(l, r, step, r');
    }
  }

  lemma {:induction false} ThroughRun(ls: seq<LogState>, rs: seq<Replica>, steps: seq<Step>, n: nat)
    requires Steps(ls, rs, steps) && PhaseOk(rs[0]) && rs[0].phase == Subscribed && rs[0].batch == []
    requires steps != [] && steps[0] == Read && forall j | 1 <= j < |steps| :: !steps[j].Read?
    requires 1 <= n < |rs|
    ensures Through(rs[n], rs[0].version, XRead(ls[0].stream, rs[0].version), SentOver(rs[..n + 1]))
  {
    var v, msgs := rs[0].version, XRead(ls[0].stream, rs[0].version);
    assert rs[..n + 1][..n] == rs[..n];
    if n == 1 {
      assert ReplicaNext(ls[0], rs[0], steps[0], rs[0 + 1]);
      PhaseStays(ls[0], rs[0], steps[0], rs[1]);
      assert msgs[0..] == msgs && msgs[..0] == [];
      assert SentOver(rs[..1]) == [];
    } else {
      ThroughRun(ls, rs, steps, n - 1);
      assert ReplicaNext(ls[n - 1], rs[n - 1], steps[n - 1], rs[n - 1 + 1]);
      ThroughStep(ls[n - 1], rs[n - 1], steps[n - 1], rs[n], v, msgs, SentOver(rs[..n]));
    }
  }

  /**
   Over any steps of a replica from a read to the end of its batch, the version and
   last id move, and the channel gets, exactly what Poll says.
   */
  lemma PollIsSteps(ls: seq<LogState>, rs: seq<Replica>, steps: seq<Step>)
    requires Steps(ls, rs, steps) && PhaseOk(rs[0]) && rs[0].phase == Subscribed && rs[0].batch == []
    requires steps != [] && steps[0] == Read && (forall j | 1 <= j < |steps| :: !steps[j].Read?) && rs[|steps|].batch == []
    ensures var accepted := Accepted(rs[0].version, XRead(ls[0].stream, rs[0].version));
      && SentOver(rs) == Sends(accepted)
      && rs[|steps|].version == VersionAfter(rs[0].version, accepted) == rs[|steps|].lastID
  {
    ThroughRun(ls, rs, steps, |steps|);
    var msgs := XRead(ls[0].stream, rs[0].version);
    assert msgs[..|msgs|] == msgs && rs[..|rs|] == rs;
  }
}
