/**
 The service's own methods (pkg/service/ad.go), step by step, against the
 transitions of Log. Whether a lock is obtained, a commit succeeds or a publish
 arrives is the environment's choice, passed in.
 */
module Service {
  import opened AdModel
  import opened Ranking
  import opened Log
  import opened Replica

  ghost function ActiveAmong(t: Table, ids: set<AdID>): set<Ad> {
    set id | id in ids && id in t && t[id].active :: t[id].ad
  }

  lemma OneMore(t: Table, ids: set<AdID>, id: AdID)
    requires id in t
    ensures ActiveAmong(t, ids + {id}) == ActiveAmong(t, ids) + (if t[id].active then {t[id].ad} else {})
  {
    forall a | a in ActiveAmong(t, ids) ensures a in ActiveAmong(t, ids + {id}) {
      var i :| i in ids && i in t && t[i].active && t[i].ad == a;
      assert i in ids + {id};
    }
    assert id in ids + {id};
  }

  /** The database, the stream and the lock the replicas share. */
  class Shared {
    var rows: Table
    var stream: seq<Entry>
    var held: bool
    ghost var history: seq<Op>
    ghost var now: Time

    ghost function State(): LogState
      reads this
    {
      LogState(rows, stream, Idle, history, now)
    }

    /** SELECT COALESCE(MAX(version), 0) FROM ads */
    method SelectMaxVersion() returns (max: nat)
      ensures max == MaxVersion(rows)
    {
      max := 0;
      var left := rows.Keys;
      while left != {}
        invariant left <= rows.Keys
        invariant forall id | id in rows.Keys - left :: rows[id].ad.version <= max
        invariant left == rows.Keys ==> max == 0
        invariant left != rows.Keys ==> exists id :: id in rows.Keys - left && rows[id].ad.version == max
        decreases left
      {
        var id :| id in left;
        if rows[id].ad.version > max || left == rows.Keys {
          max := rows[id].ad.version;
        }
        left := left - {id};
        assert id in rows.Keys - left;
      }
      assert IsMax(rows, max);
    }

    /** SELECT * FROM ads WHERE is_active = true, in some order */
    method FindActive() returns (ads: seq<Ad>)
      ensures Elems(ads) == Active(rows)
      ensures TableOk(rows) ==> NoRepeats(ads)
    {
      ads := [];
      var left := rows.Keys;
      while left != {}
        invariant left <= rows.Keys
        invariant Elems(ads) == ActiveAmong(rows, rows.Keys - left)
        invariant TableOk(rows) ==> NoRepeats(ads) && forall a | a in ads :: a.id in rows.Keys - left
        decreases left
      {
        var id :| id in left;
        OneMore(rows, rows.Keys - left, id);
        assert rows.Keys - (left - {id}) == rows.Keys - left + {id};
        left := left - {id};
        if rows[id].active {
          ads := ads + [rows[id].ad];
        }
      }
      assert rows.Keys - left == rows.Keys;
      assert ActiveAmong(rows, rows.Keys) == Active(rows);
    }

    method XAddEntry(id: nat, op: Op, arrives: bool) returns (ok: bool)
      modifies this`stream
      ensures ok <==> arrives && XAdd(old(stream), Entry(id, op)).Some?
      ensures stream == if ok then old(stream) + [Entry(id, op)] else old(stream)
    {
      ok := false;
      if arrives {
        match XAdd(stream, Entry(id, op)) {
          case Some(s) => stream := s; ok := true;
          case None =>
        }
      }
    }
  }

  lemma DeletedRows(t: Table, id: AdID, v: nat)
    requires v == MaxVersion(t) + 1
    ensures var t' := Collect(Deactivate(t, id, v), v);
      && (forall i :: i in t' <==> i in t && (i == id || t[i].active))
      && (forall i | i in t' :: t'[i] == if i == id then Row(t[i].ad.(version := v), false) else t[i])
  {}

  class AdService {
    const shared: Shared
    var Version: nat
    var lastID: nat
    var sent: seq<Msg>   // what has gone down the dispatcher's request channel

    constructor (shared: Shared)
      ensures this.shared == shared && Version == 0 && sent == []
    {
      this.shared := shared;
      Version, lastID, sent := 0, 0, [];
    }

    /**
     With the lock, the call is one whole write of the log or none of it. It succeeds
     exactly when it obtains the lock, commits under a new id, and its publish arrives
     under an id above the stream's last; an error after the commit leaves the row
     without its entry.
     */
    method StoreAndPublishWithLock(ad: Ad, req: ReqId, obtained: bool, commits: bool, arrives: bool) returns (err: bool)
      requires !shared.held
      modifies shared
      ensures !shared.held
      ensures obtained && commits && ad.id !in old(shared.rows) ==>
        Writes(old(shared.State()), CreateOp(ad, req), arrives, shared.State())
      ensures !(obtained && commits && ad.id !in old(shared.rows)) ==> shared.State() == old(shared.State())
      ensures var last := if old(shared.stream) == [] then 0 else old(shared.stream)[|old(shared.stream)| - 1].id;
        !err <==> obtained && commits && arrives && ad.id !in old(shared.rows) && MaxVersion(old(shared.rows)) + 1 > last
      ensures var stored := ad.(version := MaxVersion(old(shared.rows)) + 1);
        && (obtained && commits && ad.id !in old(shared.rows) ==> shared.rows == old(shared.rows)[ad.id := Row(stored, true)])
        && shared.stream == if err then old(shared.stream) else old(shared.stream) + [Entry(stored.version, CreateOp(stored, req))]
    {
      ghost var l := shared.State();
      if !obtained {
        return true;
      }
      shared.held := true;
      var maxVersion := shared.SelectMaxVersion();
      var stored := ad.(version := maxVersion + 1);
      if !commits || ad.id in shared.rows {
        shared.held := false;
        return true;
      }
      shared.rows := InsertRow(shared.rows, stored);
      shared.history := shared.history + [CreateOp(stored, req)];
      var ok := shared.XAddEntry(stored.version, CreateOp(stored, req), arrives);
      shared.held := false;
      err := !ok;
      ghost var l1 := l.(writer := Holding(CreateOp(ad, req)));
      ghost var l2 := l.(rows := shared.rows, writer := Written(CreateOp(stored, req), stored.version), history := shared.history);
      assert LogNext(l, Obtain(CreateOp(ad, req)), l1) && LogNext(l1, Commit, l2);
      assert LogNext(l2, if arrives then Publish else LosePublish, shared.State());
    }

    method DeleteAd(adID: AdID, obtained: bool, commits: bool, arrives: bool) returns (err: bool)
      requires !shared.held
      modifies shared
      ensures !shared.held
      ensures obtained && commits ==> Writes(old(shared.State()), DeleteOp(adID), arrives, shared.State())
      ensures !(obtained && commits) ==> shared.State() == old(shared.State())
      ensures var last := if old(shared.stream) == [] then 0 else old(shared.stream)[|old(shared.stream)| - 1].id;
        !err <==> obtained && commits && arrives && MaxVersion(old(shared.rows)) + 1 > last
      ensures obtained && commits ==>
        && (forall id :: id in shared.rows <==> id in old(shared.rows) && (id == adID || old(shared.rows)[id].active))
        && (forall id | id in shared.rows :: shared.rows[id] ==
              if id == adID then Row(old(shared.rows)[id].ad.(version := MaxVersion(old(shared.rows)) + 1), false) else old(shared.rows)[id])
      ensures shared.stream ==
        if err then old(shared.stream) else old(shared.stream) + [Entry(MaxVersion(old(shared.rows)) + 1, DeleteOp(adID))]
    {
      ghost var l := shared.State();
      if !obtained {
        return true;
      }
      shared.held := true;
      var maxVersion := shared.SelectMaxVersion();
      maxVersion := maxVersion + 1;
      if !commits {
        shared.held := false;
        return true;
      }
      shared.rows := Deactivate(shared.rows, adID, maxVersion);
      shared.rows := Collect(shared.rows, maxVersion);
      shared.history := shared.history + [DeleteOp(adID)];
      var ok := shared.XAddEntry(maxVersion, DeleteOp(adID), arrives);
      shared.held := false;
      err := !ok;
      ghost var l1 := l.(writer := Holding(DeleteOp(adID)));
      DeletedRows(l.rows, adID, maxVersion);
      ghost var l2 := l.(rows := shared.rows, writer := Written(DeleteOp(adID), maxVersion), history := shared.history);
      assert LogNext(l, Obtain(DeleteOp(adID)), l1) && LogNext(l1, Commit, l2);
      assert LogNext(l2, if arrives then Publish else LosePublish, shared.State());
    }

    /**
     The snapshot and the batch it sends; the wait for the reply is Replica's
     BatchDone. A failure after the first query leaves the version changed.
     */
    method Restore(queried: bool, commits: bool) returns (err: bool)
      modifies this
      ensures err <==> !(queried && commits)
      ensures Version == (if queried then MaxVersion(shared.rows) else old(Version)) && lastID == old(lastID)
      ensures err ==> sent == old(sent)
      ensures !err ==> exists ads :: Elems(ads) == Active(shared.rows) && sent == old(sent) + [BatchMsg(ads)]
    {
      if !queried {
        return true;
      }
      Version := shared.SelectMaxVersion();
      var ads := shared.FindActive();
      if !commits {
        return true;
      }
      sent := sent + [BatchMsg(ads)];
      err := false;
    }

    /** The body of Subscribe's loop over the messages of one read. */
    method HandleMessages(msgs: seq<Entry>)
      modifies this
      ensures Version == VersionAfter(old(Version), Accepted(old(Version), msgs))
      ensures sent == old(sent) + Sends(Accepted(old(Version), msgs))
      ensures var accepted := Accepted(old(Version), msgs);
        && |sent| == |old(sent)| + |accepted| && old(sent) <= sent
        && (forall k | |old(sent)| <= k < |sent| :: sent[k] == EntryMsg(accepted[k - |old(sent)|].op))
        && Version == if accepted == [] then old(Version) else accepted[|accepted| - 1].id
      ensures lastID == if Accepted(old(Version), msgs) == [] then old(lastID) else Version
    {
      ghost var accepted := [];
      for i := 0 to |msgs|
        invariant accepted == Accepted(old(Version), msgs[..i])
        invariant Version == VersionAfter(old(Version), accepted)
        invariant sent == old(sent) + Sends(accepted)
        invariant lastID == if accepted == [] then old(lastID) else Version
      {
        var m := msgs[i];
        AcceptedStep(old(Version), msgs, i);
        if Version < m.id {
          Version := m.id;
          lastID := m.id;
          sent := sent + [EntryMsg(m.op)];
          accepted := accepted + [m];
        }
      }
      assert msgs[..|msgs|] == msgs;
      SentAt(old(sent), accepted, sent);
    }

    /** One read of Subscribe's loop. */
    method Poll(stream: seq<Entry>) returns (accepted: seq<Entry>)
      requires lastID == Version
      modifies this
      ensures accepted == Accepted(old(Version), XRead(stream, old(Version)))
      ensures sent == old(sent) + Sends(accepted) && Version == VersionAfter(old(Version), accepted) == lastID
    {
      var msgs := XRead(stream, lastID);
      accepted := Accepted(Version, msgs);
      HandleMessages(msgs);
    }

    /**
     Subscribe, for any number of reads; streams[n] is the stream as its n-th read
     finds it, others appending in between. Whatever the stream holds, what is sent
     is accepted in strictly increasing order of ids above the version. Of a stream
     without gaps that no read finds too far ahead, every entry from the version on
     is sent, once and in order, ten at most a read; restored ahead of the stream,
     the subscriber waits for it.
     */
    method Subscribe(streams: seq<seq<Entry>>) returns (accepted: seq<Entry>)
      modifies this
      ensures Followed(streams, |streams|, shared.history, old(Version), accepted)
      ensures sent == old(sent) + Sends(accepted) && Version == VersionAfter(old(Version), accepted) == lastID
      ensures |sent| == |old(sent)| + |accepted| && old(sent) <= sent
      ensures forall k | |old(sent)| <= k < |sent| :: sent[k] == EntryMsg(accepted[k - |old(sent)|].op)
    {
      ghost var from, before := Version, sent;
      lastID := Version;
      accepted := [];
      for n := 0 to |streams|
        invariant Followed(streams, n, shared.history, from, accepted)
        invariant sent == before + Sends(accepted) && Version == VersionAfter(from, accepted) == lastID
      {
        ghost var next := Round(streams, n, shared.history, from, accepted);
        var more := Poll(streams[n]);
        SendsJoin(before, accepted, more);
        accepted := accepted + more;
      }
      SentAt(before, accepted, sent);
    }
  }

  /** Where a read takes a subscriber: ten entries on, or to the end. */
  function NextVersion(version: nat, end: nat): nat {
    if version >= end then version else if version + ReadCount < end then version + ReadCount else end
  }

  /** Where the first n reads take it. */
  function Reached(from: nat, streams: seq<seq<Entry>>, n: nat): nat
    requires n <= |streams|
  {
    if n == 0 then from else NextVersion(Reached(from, streams, n - 1), |streams[n - 1]|)
  }

  /** None of the first n reads finds a gap, or the subscriber too far behind. */
  ghost predicate Readable(streams: seq<seq<Entry>>, n: nat, history: seq<Op>, from: nat)
    requires n <= |streams|
  {
    n == 0 || (Readable(streams, n - 1, history, from) && Gapless(streams[n - 1], history) &&
               Reached(from, streams, n - 1) + 100000 >= |streams[n - 1]|)
  }

  ghost predicate Came(streams: seq<seq<Entry>>, e: Entry) {
    exists s :: s in streams && e in s
  }

  /** What a replica accepts in n reads. */
  ghost predicate Followed(streams: seq<seq<Entry>>, n: nat, history: seq<Op>, from: nat, accepted: seq<Entry>)
    requires n <= |streams|
  {
    && Increasing(from, accepted) && (forall e | e in accepted :: Came(streams, e))
    && (Readable(streams, n, history, from) && from <= |history| ==>
          from <= Reached(from, streams, n) <= |history| && accepted == Entries(history, from, Reached(from, streams, n)))
  }

  /** The messages the version test lets through. */
  function Accepted(version: nat, msgs: seq<Entry>): seq<Entry> {
    if msgs == [] then []
    else
      var init, m := Accepted(version, msgs[..|msgs| - 1]), msgs[|msgs| - 1];
      if VersionAfter(version, init) < m.id then init + [m] else init
  }

  function VersionAfter(version: nat, accepted: seq<Entry>): nat {
    if accepted == [] then version else accepted[|accepted| - 1].id
  }

  function Sends(entries: seq<Entry>): seq<Msg> {
    seq(|entries|, i requires 0 <= i < |entries| => EntryMsg(entries[i].op))
  }

  lemma AcceptedStep(version: nat, msgs: seq<Entry>, i: nat)
    requires i < |msgs|
    ensures var accepted := Accepted(version, msgs[..i]);
      && Accepted(version, msgs[..i + 1]) == (if VersionAfter(version, accepted) < msgs[i].id then accepted + [msgs[i]] else accepted)
      && Sends(accepted + [msgs[i]]) == Sends(accepted) + [EntryMsg(msgs[i].op)]
  {
    assert msgs[..i + 1][..i] == msgs[..i];
  }

  lemma SentAt(before: seq<Msg>, accepted: seq<Entry>, sent: seq<Msg>)
    requires sent == before + Sends(accepted)
    ensures |sent| == |before| + |accepted| && before <= sent
    ensures forall k | |before| <= k < |sent| :: sent[k] == EntryMsg(accepted[k - |before|].op)
  {}

  /** A message is accepted exactly when its id is above the version and above all before it. */
  lemma {:induction false} AcceptedMeaning(version: nat, msgs: seq<Entry>, e: Entry)
    ensures e in Accepted(version, msgs) <==>
      version < e.id && exists i :: 0 <= i < |msgs| && msgs[i] == e && forall j | 0 <= j < i :: msgs[j].id < e.id
  {
    if msgs != [] {
      var n := |msgs| - 1;
      var init, m := msgs[..n], msgs[n];
      AcceptedMeaning(version, init, e);
      VersionIsMax(version, init);
      assert msgs == init + [m];
      forall i | 0 <= i < n ensures init[i] == msgs[i] {}
      if e in Accepted(version, msgs) && e !in Accepted(version, init) {
        assert msgs[n] == e;
      }
    }
  }

  /** The version after accepting is the highest of it and all ids seen. */
  lemma {:induction false} VersionIsMax(version: nat, msgs: seq<Entry>)
    ensures version <= VersionAfter(version, Accepted(version, msgs))
    ensures forall i | 0 <= i < |msgs| :: msgs[i].id <= VersionAfter(version, Accepted(version, msgs))
    ensures VersionAfter(version, Accepted(version, msgs)) == version ||
      exists i :: 0 <= i < |msgs| && msgs[i].id == VersionAfter(version, Accepted(version, msgs))
  {
    if msgs != [] {
      var n := |msgs| - 1;
      var init := msgs[..n];
      VersionIsMax(version, init);
      forall i | 0 <= i < n ensures init[i] == msgs[i] {}
      assert VersionAfter(version, Accepted(version, msgs)) ==
        if VersionAfter(version, Accepted(version, init)) < msgs[n].id then msgs[n].id else VersionAfter(version, Accepted(version, init));
    }
  }

  /** Ids strictly increase, from above the version. */
  predicate Increasing(version: nat, s: seq<Entry>) {
    s == [] ||
    var init := s[..|s| - 1];
    Increasing(version, init) && VersionAfter(version, init) < s[|s| - 1].id
  }

  lemma {:induction false} IncreasingMeaning(version: nat, s: seq<Entry>, i: nat, j: nat)
    requires Increasing(version, s) && i < j < |s|
    ensures version < s[i].id < s[j].id
  {
    var init := s[..|s| - 1];
    if j < |s| - 1 {
      IncreasingMeaning(version, init, i, j);
    } else if i < j - 1 {
      IncreasingMeaning(version, init, i, j - 1);
    } else {
      FirstAbove(version, init);
    }
  }

  lemma {:induction false} FirstAbove(version: nat, s: seq<Entry>)
    requires Increasing(version, s)
    ensures version <= VersionAfter(version, s)
    ensures s != [] ==> version < s[|s| - 1].id
  {
    if s != [] { FirstAbove(version, s[..|s| - 1]); }
  }

  lemma {:induction false} IncreasingOn(version: nat, s: seq<Entry>, t: seq<Entry>)
    requires Increasing(version, s) && Increasing(VersionAfter(version, s), t)
    ensures Increasing(version, s + t) && VersionAfter(version, s + t) == VersionAfter(VersionAfter(version, s), t)
  {
    if t == [] {
      assert s + t == s;
    } else {
      var init := t[..|t| - 1];
      IncreasingOn(version, s, init);
      assert (s + t)[..|s + t| - 1] == s + init;
    }
  }

  /** Commits a+1 to b, as their entries. */
  function Entries(history: seq<Op>, a: nat, b: nat): seq<Entry>
    requires a <= b <= |history|
  {
    seq(b - a, i requires 0 <= i < b - a => Entry(a + 1 + i, history[a + i]))
  }

  /** Whatever arrives, what is accepted is in strictly increasing order. */
  lemma {:induction false} AcceptedIncreasing(version: nat, msgs: seq<Entry>)
    ensures Increasing(version, Accepted(version, msgs)) && forall e | e in Accepted(version, msgs) :: e in msgs
  {
    if msgs != [] {
      AcceptedIncreasing(version, msgs[..|msgs| - 1]);
    }
  }

  /** All is accepted exactly when it arrives in that order. */
  lemma {:induction false} AllAccepted(version: nat, msgs: seq<Entry>)
    ensures Accepted(version, msgs) == msgs <==> Increasing(version, msgs)
  {
    AcceptedIncreasing(version, msgs);
    if Increasing(version, msgs) {
      InOrderAccepted(version, msgs);
    }
  }

  lemma {:induction false} InOrderAccepted(version: nat, msgs: seq<Entry>)
    requires Increasing(version, msgs)
    ensures Accepted(version, msgs) == msgs
  {
    if msgs != [] {
      var init, m := msgs[..|msgs| - 1], msgs[|msgs| - 1];
      InOrderAccepted(version, init);
      assert msgs == init + [m];
    }
  }

  lemma AcceptedMore(version: nat, accepted: seq<Entry>, msgs: seq<Entry>)
    requires Increasing(version, accepted)
    ensures var more := Accepted(VersionAfter(version, accepted), msgs);
      && Increasing(version, accepted + more) && (forall e | e in more :: e in msgs)
      && VersionAfter(version, accepted + more) == VersionAfter(VersionAfter(version, accepted), more)
      && Sends(accepted + more) == Sends(accepted) + Sends(more)
  {
    AcceptedIncreasing(VersionAfter(version, accepted), msgs);
    IncreasingOn(version, accepted, Accepted(VersionAfter(version, accepted), msgs));
  }

  lemma SendsJoin(before: seq<Msg>, a: seq<Entry>, b: seq<Entry>)
    ensures (before + Sends(a)) + Sends(b) == before + Sends(a + b)
  {}

  lemma Round(streams: seq<seq<Entry>>, n: nat, history: seq<Op>, from: nat, accepted: seq<Entry>) returns (next: seq<Entry>)
    requires n < |streams| && Followed(streams, n, history, from, accepted)
    ensures next == accepted + Accepted(VersionAfter(from, accepted), XRead(streams[n], VersionAfter(from, accepted)))
    ensures Followed(streams, n + 1, history, from, next)
    ensures VersionAfter(from, next) ==
      VersionAfter(VersionAfter(from, accepted), Accepted(VersionAfter(from, accepted), XRead(streams[n], VersionAfter(from, accepted))))
  {
    var version := VersionAfter(from, accepted);
    next := accepted + Accepted(version, XRead(streams[n], version));
    RoundOrder(streams, n, from, accepted);
    if Readable(streams, n + 1, history, from) && from <= |history| {
      RoundOfReadable(streams[n], history, from, Reached(from, streams, n), accepted);
    }
  }

  lemma RoundOrder(streams: seq<seq<Entry>>, n: nat, from: nat, accepted: seq<Entry>)
    requires n < |streams| && Increasing(from, accepted) && forall e | e in accepted :: Came(streams, e)
    ensures var version := VersionAfter(from, accepted);
      var more := Accepted(version, XRead(streams[n], version));
      && Increasing(from, accepted + more) && (forall e | e in accepted + more :: Came(streams, e))
      && VersionAfter(from, accepted + more) == VersionAfter(version, more)
      && Sends(accepted + more) == Sends(accepted) + Sends(more)
  {
    var version := VersionAfter(from, accepted);
    ReadFromStream(streams[n], version);
    AcceptedMore(from, accepted, XRead(streams[n], version));
    assert streams[n] in streams;
  }

  lemma RoundOfReadable(stream: seq<Entry>, history: seq<Op>, from: nat, version: nat, accepted: seq<Entry>)
    requires Gapless(stream, history) && version + MaxLen >= |stream| && from <= version <= |history|
    requires accepted == Entries(history, from, version)
    ensures VersionAfter(from, accepted) == version <= NextVersion(version, |stream|) <= |history|
    ensures accepted + Accepted(version, XRead(stream, version)) == Entries(history, from, NextVersion(version, |stream|))
  {
    ReadOn(stream, history, from, version);
  }

  /** One more read of a stream without gaps, from a version at or past the one begun with. */
  lemma ReadOn(stream: seq<Entry>, history: seq<Op>, from: nat, version: nat)
    requires Gapless(stream, history) && version + MaxLen >= |stream| && from <= version <= |history|
    ensures var msgs := XRead(stream, version);
      && Accepted(version, msgs) == msgs && version + |msgs| <= |history|
      && |msgs| == (if version >= |stream| then 0 else if version + ReadCount < |stream| then ReadCount else |stream| - version)
      && Entries(history, from, version) + msgs == Entries(history, from, version + |msgs|)
      && VersionAfter(version, msgs) == version + |msgs|
  {
    ReadMeaning(stream, history, version);
    ReadNext(stream, history, version);
    NextEntries(history, from, version, XRead(stream, version));
    InOrderAccepted(version, XRead(stream, version));
  }

  lemma {:induction false} NextEntries(history: seq<Op>, from: nat, version: nat, msgs: seq<Entry>)
    requires from <= version && version + |msgs| <= |history|
    requires forall i | 0 <= i < |msgs| :: msgs[i] == Entry(version + 1 + i, history[version + i])
    ensures Entries(history, from, version) + msgs == Entries(history, from, version + |msgs|)
    ensures Increasing(version, msgs) && VersionAfter(version, msgs) == version + |msgs|
    decreases |msgs|
  {
    if msgs != [] {
      NextEntries(history, from, version, msgs[..|msgs| - 1]);
    }
  }
}
