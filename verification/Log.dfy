/**
 The replicated log (pkg/service/ad.go:47-115 and 303-364): a table of ads, a
 stream whose ids are the table's versions, and writers that take turns under a
 lock. One transition is one transaction or one command to the stream.

 Taken as given: the lock gives mutual exclusion; a transaction is atomic; the
 stream rejects an id that does not exceed its last one, even after trimming.
 `history` records the committed operations in order.
 */
module Log {
  import opened AdModel
  import opened Ranking

  type ReqId = nat

  datatype Op = CreateOp(ad: Ad, req: ReqId) | DeleteOp(id: AdID)

  /** Stream entry 0-id. */
  datatype Entry = Entry(id: nat, op: Op)

  /** A row; the version column is `ad.version`. */
  datatype Row = Row(ad: Ad, active: bool)

  type Table = map<AdID, Row>

  datatype Writer =
    | Idle
    | Holding(op: Op)                  // has the lock, has not committed
    | Written(op: Op, version: nat)    // has committed, has not published

  datatype LogState = LogState(rows: Table, stream: seq<Entry>, writer: Writer, history: seq<Op>, now: Time)

  const InitialLog: LogState := LogState(map[], [], Idle, [], 0)

  // The table.

  ghost predicate IsMax(t: Table, m: nat) {
    && (forall id | id in t :: t[id].ad.version <= m)
    && (t == map[] ==> m == 0)
    && (t != map[] ==> exists id :: id in t && t[id].ad.version == m)
  }

  lemma {:induction false} MaxExists(t: Table) returns (m: nat)
    ensures IsMax(t, m)
  {
    if t == map[] {
      m := 0;
    } else {
      var id :| id in t;
      var rest := MaxExists(t - {id});
      m := if rest > t[id].ad.version then rest else t[id].ad.version;
      assert forall i | i in t :: i == id || (i in t - {id} && (t - {id})[i] == t[i]);
    }
  }

  lemma HasMax(t: Table)
    ensures exists m: nat :: IsMax(t, m)
  {
    var m := MaxExists(t);
  }

  /** SELECT COALESCE(MAX(version), 0) FROM ads */
  ghost function MaxVersion(t: Table): (m: nat)
    ensures IsMax(t, m)
  {
    HasMax(t);
    var m: nat :| IsMax(t, m);
    m
  }

  lemma MaxIs(t: Table, m: nat)
    requires forall id | id in t :: t[id].ad.version <= m
    requires exists id :: id in t && t[id].ad.version == m
    ensures MaxVersion(t) == m
  {}

  function InsertRow(t: Table, ad: Ad): Table {
    t[ad.id := Row(ad, true)]
  }

  /** UPDATE ads SET is_active = false, version = v WHERE id = id */
  function Deactivate(t: Table, id: AdID, v: nat): Table {
    if id in t then t[id := Row(t[id].ad.(version := v), false)] else t
  }

  /** DELETE FROM ads WHERE version < v AND is_active = false */
  function Collect(t: Table, v: nat): Table {
    map id | id in t && !(t[id].ad.version < v && !t[id].active) :: t[id]
  }

  function DeleteRow(t: Table, id: AdID, v: nat): Table {
    Collect(Deactivate(t, id, v), v)
  }

  /** The ads a snapshot restores: SELECT * FROM ads WHERE is_active = true */
  ghost function Active(t: Table): set<Ad> {
    set id | id in t && t[id].active :: t[id].ad
  }

  ghost predicate TableOk(t: Table) {
    && (forall id | id in t :: t[id].ad.id == id && t[id].ad.version >= 1)
    && (forall i, j | i in t && j in t && i != j :: t[i].ad.version != t[j].ad.version)
    && (forall i, j | i in t && j in t && !t[i].active && !t[j].active :: i == j)
  }

  lemma InsertOk(t: Table, ad: Ad)
    requires TableOk(t) && ad.id !in t && ad.version == MaxVersion(t) + 1
    ensures TableOk(InsertRow(t, ad))
  {}

  lemma InsertMax(t: Table, ad: Ad)
    requires ad.id !in t && ad.version == MaxVersion(t) + 1
    ensures MaxVersion(InsertRow(t, ad)) == MaxVersion(t) + 1
  {
    var t' := InsertRow(t, ad);
    assert t'[ad.id].ad.version == ad.version;
    MaxIs(t', ad.version);
  }

  lemma InsertActive(t: Table, ad: Ad)
    requires ad.id !in t
    ensures Active(InsertRow(t, ad)) == Active(t) + {ad}
  {
    var t' := InsertRow(t, ad);
    forall a | a in Active(t) ensures a in Active(t') {
      var id :| id in t && t[id].active && t[id].ad == a;
      assert t'[id] == t[id];
    }
    assert t'[ad.id] == Row(ad, true);
  }

  /** What a delete of an existing row leaves: the active rows, and the tombstone. */
  ghost predicate Deleted(t: Table, id: AdID, v: nat, t': Table) {
    && (forall i :: i in t' <==> i == id || (i in t && t[i].active))
    && (forall i | i in t' && i != id :: t'[i] == t[i])
    && id in t && t'[id] == Row(t[id].ad.(version := v), false)
  }

  lemma DeleteRows(t: Table, id: AdID)
    requires id in t
    ensures Deleted(t, id, MaxVersion(t) + 1, DeleteRow(t, id, MaxVersion(t) + 1))
  {}

  lemma DeletedOk(t: Table, id: AdID, v: nat, t': Table)
    requires TableOk(t) && Deleted(t, id, v, t') && v == MaxVersion(t) + 1
    ensures TableOk(t') && MaxVersion(t') == v
  {
    assert forall i | i in t :: t[i].ad.version < v;
    assert t'[id].ad.version == v;
    MaxIs(t', v);
  }

  lemma DeletedActive(t: Table, id: AdID, v: nat, t': Table)
    requires TableOk(t) && Deleted(t, id, v, t')
    ensures Active(t') == Without(Active(t), id)
  {
    forall a | a in Without(Active(t), id) ensures a in Active(t') {
      var i :| i in t && t[i].active && t[i].ad == a;
      assert i != id && t'[i] == t[i];
    }
  }

  /**
   A delete of an existing row keeps the table in order: its tombstone is the
   only inactive row and carries the new maximum, so collecting the older ones
   cannot lower it.
   */
  lemma DeleteTable(t: Table, id: AdID)
    requires TableOk(t) && id in t
    ensures var t' := DeleteRow(t, id, MaxVersion(t) + 1);
      && TableOk(t') && MaxVersion(t') == MaxVersion(t) + 1
      && (forall i :: i in t' && !t'[i].active <==> i == id)
      && t'[id].ad.version == MaxVersion(t')
      && Active(t') == Without(Active(t), id)
  {
    DeleteRows(t, id);
    DeletedOk(t, id, MaxVersion(t) + 1, DeleteRow(t, id, MaxVersion(t) + 1));
    DeletedActive(t, id, MaxVersion(t) + 1, DeleteRow(t, id, MaxVersion(t) + 1));
  }

  lemma DeleteActive(t: Table, id: AdID)
    requires TableOk(t) && id in t && t[id].active
    ensures Active(DeleteRow(t, id, MaxVersion(t) + 1)) == Without(Active(t), id)
  {
    DeleteTable(t, id);
  }

  lemma DeleteMax(t: Table, id: AdID)
    requires id in t
    ensures MaxVersion(DeleteRow(t, id, MaxVersion(t) + 1)) == MaxVersion(t) + 1
  {
    var t' := DeleteRow(t, id, MaxVersion(t) + 1);
    assert t'[id].ad.version == MaxVersion(t) + 1;
    MaxIs(t', MaxVersion(t) + 1);
  }

  lemma DeleteKeeps(t: Table, id: AdID)
    requires TableOk(t) && id in t
    ensures TableOk(DeleteRow(t, id, MaxVersion(t) + 1))
    ensures MaxVersion(DeleteRow(t, id, MaxVersion(t) + 1)) == MaxVersion(t) + 1
  {
    DeleteTable(t, id);
  }

  function ActiveRows(t: Table): Table {
    map id | id in t && t[id].active :: t[id]
  }

  lemma CollectAll(t: Table, id: AdID)
    requires id !in t
    ensures DeleteRow(t, id, MaxVersion(t) + 1) == ActiveRows(t)
  {}

  /**
   A delete of an id with no row is not harmless: it collects every tombstone, and
   the maximum version falls exactly when a tombstone carried it.
   */
  lemma DeleteMissingRow(t: Table, id: AdID)
    requires TableOk(t) && id !in t
    ensures MaxVersion(DeleteRow(t, id, MaxVersion(t) + 1)) < MaxVersion(t) <==>
      exists i :: i in t && !t[i].active && t[i].ad.version == MaxVersion(t)
  {
    CollectAll(t, id);
    MaxOfActive(t);
  }

  lemma MaxOfActive(t: Table)
    requires TableOk(t)
    ensures MaxVersion(ActiveRows(t)) <= MaxVersion(t)
    ensures MaxVersion(ActiveRows(t)) < MaxVersion(t) <==>
      exists i :: i in t && !t[i].active && t[i].ad.version == MaxVersion(t)
  {
    var t' := ActiveRows(t);
    var max := MaxVersion(t);
    if t != map[] {
      var j :| j in t && t[j].ad.version == max;
      if t[j].active {
        assert t'[j] == t[j];
        MaxIs(t', max);
      } else if t' != map[] {
        var k :| k in t' && t'[k].ad.version == MaxVersion(t');
        assert k in t && t[k].ad.version != t[j].ad.version;
      }
    }
  }

  // The stream.

  function LastId(stream: seq<Entry>): nat {
    if stream == [] then 0 else stream[|stream| - 1].id
  }

  /** XADD with an explicit id: None when the stream rejects it. */
  function XAdd(stream: seq<Entry>, e: Entry): Option<seq<Entry>> {
    if e.id > LastId(stream) then Some(stream + [e]) else None
  }

  const MaxLen: nat := 100000
  const ReadCount: nat := 10

  /** What exact trimming keeps of everything ever appended. */
  function Retained(stream: seq<Entry>): seq<Entry> {
    if |stream| > MaxLen then stream[|stream| - MaxLen..] else stream
  }

  function After(stream: seq<Entry>, id: nat): seq<Entry> {
    if stream == [] then []
    else (if stream[0].id > id then [stream[0]] else []) + After(stream[1..], id)
  }

  /** XREAD COUNT 10 from an id: the first retained entries above it. */
  function XRead(stream: seq<Entry>, id: nat): seq<Entry> {
    var later := After(Retained(stream), id);
    if |later| > ReadCount then later[..ReadCount] else later
  }

  // The log as a transition system.

  datatype LogStep = Obtain(op: Op) | Abandon | Commit | Publish | LosePublish | Tick(to: Time)

  ghost predicate LogNext(l: LogState, step: LogStep, l': LogState) {
    match step
    case Obtain(op) => l.writer == Idle && l' == l.(writer := Holding(op))
    case Abandon => l.writer.Holding? && l' == l.(writer := Idle)
    case Commit => l.writer.Holding? && Commits(l, l.writer.op, l')
    case Publish =>
      && l.writer.Written?
      && (match XAdd(l.stream, Entry(l.writer.version, l.writer.op))
          case Some(stream) => l' == l.(stream := stream, writer := Idle)
          case None => l' == l.(writer := Idle))
    case LosePublish => l.writer.Written? && l' == l.(writer := Idle)
    case Tick(to) => to >= l.now && l' == l.(now := to)
  }

  ghost predicate Commits(l: LogState, op: Op, l': LogState) {
    var v := MaxVersion(l.rows) + 1;
    match op
    case CreateOp(ad, req) =>
      var stored := CreateOp(ad.(version := v), req);
      && ad.id !in l.rows
      && l' == l.(rows := InsertRow(l.rows, stored.ad), writer := Written(stored, v), history := l.history + [stored])
    case DeleteOp(id) =>
      l' == l.(rows := DeleteRow(l.rows, id, v), writer := Written(op, v), history := l.history + [op])
  }

  /** Assumed of deletes: the row exists. */
  ghost predicate RowExists(l: LogState, step: LogStep) {
    step == Commit && l.writer.Holding? && l.writer.op.DeleteOp? ==> l.writer.op.id in l.rows
  }

  /** The committed operation an entry stands for. */
  ghost predicate TrueEntry(history: seq<Op>, e: Entry) {
    1 <= e.id <= |history| && e.op == history[e.id - 1]
  }

  /** A created ad carries its commit's number as its version. */
  ghost predicate Numbered(history: seq<Op>) {
    forall k | 0 <= k < |history| && history[k].CreateOp? :: history[k].ad.version == k + 1
  }

  ghost predicate LogInv(l: LogState) {
    && TableOk(l.rows)
    && MaxVersion(l.rows) == |l.history|
    && (forall i, j | 0 <= i < j < |l.stream| :: l.stream[i].id < l.stream[j].id)
    && (forall i | 0 <= i < |l.stream| :: TrueEntry(l.history, l.stream[i]))
    && Numbered(l.history)
    && (l.writer.Written? ==>
          && l.writer.version == |l.history| > LastId(l.stream)
          && TrueEntry(l.history, Entry(l.writer.version, l.writer.op)))
  }

  /** What a commit does to the rest of the log. */
  ghost predicate Committed(l: LogState, l': LogState) {
    && l'.stream == l.stream && l'.now == l.now && l'.writer.Written?
    && l'.history == l.history + [l'.writer.op] && l'.writer.version == |l'.history|
    && (l'.writer.op.CreateOp? ==> l'.writer.op.ad.version == |l'.history|)
    && TableOk(l'.rows) && MaxVersion(l'.rows) == |l'.history|
  }

  lemma CommitTable(l: LogState, l': LogState)
    requires LogInv(l) && LogNext(l, Commit, l') && RowExists(l, Commit)
    ensures Committed(l, l')
  {
    match l.writer.op
    case CreateOp(ad, req) => CreateTable(l, ad, req, l');
    case DeleteOp(id) => DeletedTable(l, id, l');
  }

  lemma CreateTable(l: LogState, ad: Ad, req: ReqId, l': LogState)
    requires LogInv(l) && l.writer == Holding(CreateOp(ad, req)) && LogNext(l, Commit, l')
    ensures Committed(l, l')
  {
    InsertOk(l.rows, ad.(version := MaxVersion(l.rows) + 1));
    InsertMax(l.rows, ad.(version := MaxVersion(l.rows) + 1));
  }

  lemma DeletedTable(l: LogState, id: AdID, l': LogState)
    requires TableOk(l.rows) && MaxVersion(l.rows) == |l.history|
    requires l.writer == Holding(DeleteOp(id)) && Commits(l, DeleteOp(id), l') && id in l.rows
    ensures Committed(l, l')
  {
    DeleteKeeps(l.rows, id);
  }

  lemma CommittedInv(l: LogState, l': LogState)
    requires LogInv(l) && Committed(l, l')
    ensures LogInv(l')
  {
    forall i | 0 <= i < |l'.stream| ensures TrueEntry(l'.history, l'.stream[i]) {
      assert TrueEntry(l.history, l.stream[i]);
    }
    if l.stream != [] {
      assert TrueEntry(l.history, l.stream[|l.stream| - 1]);
    }
  }

  /**
   In every run, with or without lost publishes: the maximum version counts the
   commits, versions are distinct, at most one tombstone stays, stream ids
   strictly increase, and each entry is the commit of that number. In particular
   the stream never rejects a publish.
   */
  lemma LogPreserved(l: LogState, step: LogStep, l': LogState)
    requires LogInv(l) && LogNext(l, step, l') && RowExists(l, step)
    ensures LogInv(l')
    ensures step == Publish ==> l'.stream == l.stream + [Entry(l.writer.version, l.writer.op)]
    ensures l.history <= l'.history && l.stream <= l'.stream && l.now <= l'.now
  {
    if step == Commit {
      CommitTable(l, l');
      CommittedInv(l, l');
    }
  }

  lemma InitialLogInv()
    ensures LogInv(InitialLog)
  {}

  // Runs in which no publish is lost.

  ghost function Fold(history: seq<Op>): set<Ad> {
    if history == [] then {} else FoldStep(Fold(history[..|history| - 1]), history[|history| - 1])
  }

  ghost function FoldStep(S: set<Ad>, op: Op): set<Ad> {
    match op
    case CreateOp(ad, _) => S + {ad}
    case DeleteOp(id) => Without(S, id)
  }

  /** The ids ever created. */
  ghost function Made(history: seq<Op>): set<AdID> {
    if history == [] then {}
    else
      var last := history[|history| - 1];
      Made(history[..|history| - 1]) + if last.CreateOp? then {last.ad.id} else {}
  }

  /**
   Assumed of the environment: no publish is lost; an ad's id is new, and it starts
   before it ends and survives the age expansion; a delete comes once, from the
   scheduler, at or after the ad's end.
   */
  ghost predicate Healthy(l: LogState, step: LogStep) {
    && step != LosePublish
    && (step == Commit && l.writer.Holding? ==>
          match l.writer.op
          case CreateOp(ad, _) => Indexable(ad) && ad.startAt < ad.endAt && ad.id !in Made(l.history)
          case DeleteOp(id) => id in l.rows && l.rows[id].active && l.rows[id].ad.endAt <= l.now)
  }

  /** The operation makes sense after the ones before it. */
  ghost predicate Sensible(made: set<AdID>, before: set<Ad>, op: Op, now: Time) {
    match op
    case CreateOp(ad, _) => Indexable(ad) && ad.startAt < ad.endAt && ad.id !in made
    case DeleteOp(id) => exists a :: a in before && a.id == id && a.endAt <= now
  }

  ghost predicate Gapless(stream: seq<Entry>, history: seq<Op>) {
    |stream| <= |history| && forall i | 0 <= i < |stream| :: stream[i] == Entry(i + 1, history[i])
  }

  /** What replicas rely on. */
  ghost predicate LossFree(l: LogState) {
    && Gapless(l.stream, l.history)
    && MaxVersion(l.rows) == |l.history| && Active(l.rows) == Fold(l.history)
    && AllSensible(l.history, l.now)
  }

  ghost predicate HealthyInv(l: LogState) {
    && LogInv(l) && LossFree(l)
    && |l.history| == |l.stream| + (if l.writer.Written? then 1 else 0)
    && UniqueIds(Fold(l.history)) && l.rows.Keys <= Made(l.history)
  }

  ghost predicate AllSensible(history: seq<Op>, now: Time) {
    history == [] ||
    var init := history[..|history| - 1];
    AllSensible(init, now) && Sensible(Made(init), Fold(init), history[|history| - 1], now)
  }

  lemma {:induction false} SensibleLater(history: seq<Op>, now: Time, later: Time)
    requires AllSensible(history, now) && now <= later
    ensures AllSensible(history, later)
  {
    if history != [] {
      SensibleLater(history[..|history| - 1], now, later);
    }
  }

  lemma {:induction false} SensiblePrefix(history: seq<Op>, n: nat, now: Time)
    requires AllSensible(history, now) && n <= |history|
    ensures AllSensible(history[..n], now)
    ensures n < |history| ==> Sensible(Made(history[..n]), Fold(history[..n]), history[n], now)
  {
    if n < |history| {
      var init := history[..|history| - 1];
      SensiblePrefix(init, n, now);
      assert init[..n] == history[..n];
      if n == |history| - 1 {
        assert history[..n] == init;
      }
    } else {
      assert history[..n] == history;
    }
  }

  lemma SensibleSnoc(history: seq<Op>, op: Op, now: Time)
    requires AllSensible(history, now) && Sensible(Made(history), Fold(history), op, now)
    ensures AllSensible(history + [op], now)
  {
    assert (history + [op])[..|history|] == history;
  }

  lemma FoldSnoc(history: seq<Op>, op: Op)
    ensures Fold(history + [op]) == FoldStep(Fold(history), op)
    ensures Made(history + [op]) == Made(history) + if op.CreateOp? then {op.ad.id} else {}
  {
    assert (history + [op])[..|history|] == history;
  }

  /** The fold: each ad created and not deleted since. */
  lemma {:induction false} FoldMeaning(history: seq<Op>, a: Ad)
    ensures a in Fold(history) <==> exists k ::
      0 <= k < |history| && history[k].CreateOp? && history[k].ad == a &&
      forall m | k < m < |history| :: history[m] != DeleteOp(a.id)
  {
    if history != [] {
      var n := |history| - 1;
      var init := history[..n];
      FoldMeaning(init, a);
      if a in Fold(history) && history[n].DeleteOp? {
        var k :| 0 <= k < n && init[k].CreateOp? && init[k].ad == a && forall m | k < m < n :: init[m] != DeleteOp(a.id);
        assert history[k] == init[k];
        assert forall m | k < m < |history| :: m == n || history[m] == init[m];
      } else if a in Fold(history) && history[n].ad != a {
        var k :| 0 <= k < n && init[k].CreateOp? && init[k].ad == a && forall m | k < m < n :: init[m] != DeleteOp(a.id);
        assert history[k] == init[k];
        assert forall m | k < m < |history| :: m == n || history[m] == init[m];
      } else if a in Fold(history) {
        assert history[n].ad == a;
      }
      forall k, m | 0 <= k < m < n ensures init[k] == history[k] && init[m] == history[m] {}
      forall k | 0 <= k < n ensures init[k] == history[k] {}
    }
  }

  lemma {:induction false} FoldMade(history: seq<Op>)
    ensures forall a | a in Fold(history) :: a.id in Made(history)
  {
    if history != [] {
      FoldMade(history[..|history| - 1]);
    }
  }

  /** Without lost publishes the stream has no gap, and the active rows are the fold of the commits. */
  lemma HealthyPreserved(l: LogState, step: LogStep, l': LogState)
    requires HealthyInv(l) && LogNext(l, step, l') && Healthy(l, step)
    ensures HealthyInv(l')
  {
    LogPreserved(l, step, l');
    if step == Commit {
      CommitTable(l, l');
      CommitActive(l, l');
      CommitKeys(l, l');
      HealthyCommit(l, l');
    } else {
      HealthyOther(l, l');
    }
  }

  lemma GaplessSnoc(stream: seq<Entry>, history: seq<Op>, e: Entry)
    requires Gapless(stream, history) && |history| == |stream| + 1 == e.id && TrueEntry(history, e)
    ensures Gapless(stream + [e], history)
  {}

  lemma HealthyOther(l: LogState, l': LogState)
    requires HealthyInv(l) && LogInv(l') && l'.history == l.history && l'.rows == l.rows && l.now <= l'.now
    requires || (l'.stream == l.stream && (l'.writer.Written? <==> l.writer.Written?))
             || (l.writer.Written? && !l'.writer.Written? && l'.stream == l.stream + [Entry(l.writer.version, l.writer.op)])
    ensures HealthyInv(l')
  {
    SensibleLater(l.history, l.now, l'.now);
    if l'.stream != l.stream {
      GaplessSnoc(l.stream, l.history, Entry(l.writer.version, l.writer.op));
    }
  }

  lemma HealthyCommit(l: LogState, l': LogState)
    requires HealthyInv(l) && Committed(l, l') && LogInv(l') && !l.writer.Written?
    requires Active(l'.rows) == FoldStep(Active(l.rows), l'.writer.op) && Sensible(Made(l.history), Active(l.rows), l'.writer.op, l.now)
    requires l'.rows.Keys <= l.rows.Keys + if l'.writer.op.CreateOp? then {l'.writer.op.ad.id} else {}
    ensures HealthyInv(l')
  {
    CommitLossFree(l, l');
    FoldSnoc(l.history, l'.writer.op);
    KeysMade(l.rows.Keys, l'.rows.Keys, l.history, l'.writer.op);
    CommitUnique(l.history, l'.writer.op, l.now);
  }

  lemma CommitLossFree(l: LogState, l': LogState)
    requires LossFree(l) && Committed(l, l')
    requires Active(l'.rows) == FoldStep(Active(l.rows), l'.writer.op) && Sensible(Made(l.history), Active(l.rows), l'.writer.op, l.now)
    ensures LossFree(l')
  {
    FoldSnoc(l.history, l'.writer.op);
    SensibleSnoc(l.history, l'.writer.op, l.now);
  }

  lemma CommitUnique(history: seq<Op>, op: Op, now: Time)
    requires UniqueIds(Fold(history)) && Sensible(Made(history), Fold(history), op, now)
    ensures UniqueIds(Fold(history + [op]))
  {
    FoldSnoc(history, op);
    FoldMade(history);
  }

  lemma KeysMade(ids: set<AdID>, ids': set<AdID>, history: seq<Op>, op: Op)
    requires ids <= Made(history) && ids' <= ids + if op.CreateOp? then {op.ad.id} else {}
    ensures ids' <= Made(history + [op])
  {
    FoldSnoc(history, op);
  }

  lemma CommitKeys(l: LogState, l': LogState)
    requires LogNext(l, Commit, l')
    ensures l'.rows.Keys <= l.rows.Keys + if l'.writer.op.CreateOp? then {l'.writer.op.ad.id} else {}
  {}

  lemma CommitActive(l: LogState, l': LogState)
    requires TableOk(l.rows) && LogNext(l, Commit, l') && Healthy(l, Commit)
    ensures Active(l'.rows) == FoldStep(Active(l.rows), l'.writer.op)
    ensures Sensible(Made(l.history), Active(l.rows), l'.writer.op, l.now)
  {
    match l.writer.op
    case CreateOp(ad, req) => CommitCreate(l, ad, req, l');
    case DeleteOp(id) => CommitDelete(l, id, l');
  }

  lemma CommitCreate(l: LogState, ad: Ad, req: ReqId, l': LogState)
    requires l.writer == Holding(CreateOp(ad, req)) && LogNext(l, Commit, l') && Healthy(l, Commit)
    ensures Active(l'.rows) == FoldStep(Active(l.rows), l'.writer.op)
    ensures Sensible(Made(l.history), Active(l.rows), l'.writer.op, l.now)
  {
    InsertActive(l.rows, ad.(version := MaxVersion(l.rows) + 1));
  }

  lemma CommitDelete(l: LogState, id: AdID, l': LogState)
    requires TableOk(l.rows) && l.writer == Holding(DeleteOp(id)) && LogNext(l, Commit, l') && Healthy(l, Commit)
    ensures Active(l'.rows) == FoldStep(Active(l.rows), l'.writer.op)
    ensures Sensible(Made(l.history), Active(l.rows), l'.writer.op, l.now)
  {
    DeleteActive(l.rows, id);
    assert l.rows[id].ad in Active(l.rows);
  }

  // Reading the stream.

  ghost predicate Consecutive(s: seq<Entry>, base: nat) {
    forall i | 0 <= i < |s| :: s[i].id == base + 1 + i
  }

  lemma {:induction false} AfterConsecutive(s: seq<Entry>, base: nat, id: nat)
    requires Consecutive(s, base)
    ensures After(s, id) == if id <= base then s else if id - base >= |s| then [] else s[id - base..]
  {
    if s != [] {
      assert s[0].id == base + 1;
      assert Consecutive(s[1..], base + 1) by {
        forall i | 0 <= i < |s| - 1 ensures s[1..][i].id == base + 2 + i { assert s[1..][i] == s[i + 1]; }
      }
      AfterConsecutive(s[1..], base + 1, id);
      assert s == [s[0]] + s[1..];
    }
  }

  lemma {:induction false} AfterIn(stream: seq<Entry>, id: nat)
    ensures forall e | e in After(stream, id) :: e in stream && e.id > id
  {
    if stream != [] { AfterIn(stream[1..], id); }
  }

  /** Whatever the stream holds, a read returns entries of it above the id. */
  lemma ReadFromStream(stream: seq<Entry>, id: nat)
    ensures forall e | e in XRead(stream, id) :: e in stream && e.id > id
  {
    AfterIn(Retained(stream), id);
    var later, read := After(Retained(stream), id), XRead(stream, id);
    forall e | e in read ensures e in stream && e.id > id {
      var i :| 0 <= i < |read| && read[i] == e;
      assert later[i] == e;
      assert e in Retained(stream);
    }
  }

  /** Every later entry of the stream, trimmed or not. */
  function Later(stream: seq<Entry>, version: nat): seq<Entry> {
    if version < |stream| then stream[version..] else []
  }

  /**
   A read by a replica at `version` returns the next entries, in order and with
   no gap, exactly when the replica is at most 100000 entries behind.
   */
  lemma ReadMeaning(stream: seq<Entry>, history: seq<Op>, version: nat)
    requires Gapless(stream, history)
    ensures XRead(stream, version) <= Later(stream, version) <==> version + 100000 >= |stream|
    ensures version + 100000 >= |stream| ==>
      |XRead(stream, version)| == if version >= |stream| then 0 else if version + 10 < |stream| then 10 else |stream| - version
  {
    ReadAfter(stream, history, version);
    if version + MaxLen < |stream| {
      assert XRead(stream, version)[0] == stream[|stream| - MaxLen];
    }
  }

  lemma ReadAfter(stream: seq<Entry>, history: seq<Op>, version: nat)
    requires Gapless(stream, history)
    ensures version + MaxLen >= |stream| ==> After(Retained(stream), version) == Later(stream, version)
    ensures version + MaxLen < |stream| ==> After(Retained(stream), version) == stream[|stream| - MaxLen..]
  {
    var from := if |stream| > MaxLen then |stream| - MaxLen else 0;
    assert Retained(stream) == stream[from..];
    assert Consecutive(stream[from..], from);
    AfterConsecutive(stream[from..], from, version);
  }

  // Why a delete must find its row.

  /** A write that commits and then publishes, or loses its publish. */
  ghost predicate Writes(l: LogState, op: Op, arrives: bool, l': LogState) {
    exists l1, l2 ::
      LogNext(l, Obtain(op), l1) && LogNext(l1, Commit, l2) && LogNext(l2, if arrives then Publish else LosePublish, l')
  }

  /** One write that is published, as a whole. */
  ghost predicate Wrote(l: LogState, op: Op, l': LogState) {
    var v := MaxVersion(l.rows) + 1;
    var done := match op case CreateOp(ad, req) => CreateOp(ad.(version := v), req) case DeleteOp(id) => op;
    && l.writer == Idle && (op.CreateOp? ==> op.ad.id !in l.rows)
    && l' == l.(
         rows := match op case CreateOp(ad, _) => InsertRow(l.rows, ad.(version := v)) case DeleteOp(id) => DeleteRow(l.rows, id, v),
         stream := if v > LastId(l.stream) then l.stream + [Entry(v, done)] else l.stream,
         history := l.history + [done])
  }

  lemma WriteEffect(l: LogState, op: Op, l': LogState)
    requires Writes(l, op, true, l')
    ensures Wrote(l, op, l')
  {}

  lemma WriteHappens(l: LogState, op: Op) returns (l': LogState)
    requires l.writer == Idle && (op.CreateOp? ==> op.ad.id !in l.rows)
    ensures Writes(l, op, true, l')
  {
    var v := MaxVersion(l.rows) + 1;
    var done := match op case CreateOp(ad, req) => CreateOp(ad.(version := v), req) case DeleteOp(_) => op;
    var rows := match op case CreateOp(ad, _) => InsertRow(l.rows, ad.(version := v)) case DeleteOp(id) => DeleteRow(l.rows, id, v);
    var l1 := l.(writer := Holding(op));
    var l2 := l.(rows := rows, writer := Written(done, v), history := l.history + [done]);
    l' := l2.(writer := Idle, stream := if v > LastId(l.stream) then l.stream + [Entry(v, done)] else l.stream);
    assert LogNext(l, Obtain(op), l1) && LogNext(l1, Commit, l2) && LogNext(l2, Publish, l');
  }

  lemma WriteKeepsInv(l: LogState, op: Op, l': LogState)
    requires LogInv(l) && Writes(l, op, true, l') && (op.DeleteOp? ==> op.id in l.rows)
    ensures LogInv(l')
  {
    var l1, l2 :| LogNext(l, Obtain(op), l1) && LogNext(l1, Commit, l2) && LogNext(l2, Publish, l');
    LogPreserved(l, Obtain(op), l1);
    LogPreserved(l1, Commit, l2);
    LogPreserved(l2, Publish, l');
  }

  /** By how much the stream is ahead of the table: how many creates it will reject. */
  function Ahead(last: nat, max: nat): nat {
    if last > max then last - max else 0
  }

  ghost predicate CreateRun(ls: seq<LogState>, ops: seq<Op>) {
    && |ls| == |ops| + 1
    && forall j | 0 <= j < |ops| :: ops[j].CreateOp? && Writes(ls[j], ops[j], true, ls[j + 1])
  }

  lemma OneCreate(l: LogState, op: Op, l': LogState)
    requires op.CreateOp? && Writes(l, op, true, l')
    ensures MaxVersion(l'.rows) == MaxVersion(l.rows) + 1
    ensures op.ad.id in l'.rows && l'.rows[op.ad.id].active
    ensures l'.stream == l.stream <==> Ahead(LastId(l.stream), MaxVersion(l.rows)) > 0
    ensures Ahead(LastId(l'.stream), MaxVersion(l'.rows)) ==
      if l'.stream == l.stream then Ahead(LastId(l.stream), MaxVersion(l.rows)) - 1 else 0
  {
    WriteEffect(l, op, l');
    InsertMax(l.rows, op.ad.(version := MaxVersion(l.rows) + 1));
  }

  /** Of the creates that follow, the stream rejects exactly as many as it is ahead, and those first. */
  lemma {:induction false} LostCreates(ls: seq<LogState>, ops: seq<Op>, j: nat)
    requires CreateRun(ls, ops) && j < |ops|
    ensures var ahead := Ahead(LastId(ls[0].stream), MaxVersion(ls[0].rows));
      && (ls[j + 1].stream == ls[j].stream <==> j < ahead)
      && Ahead(LastId(ls[j + 1].stream), MaxVersion(ls[j + 1].rows)) == if j < ahead then ahead - j - 1 else 0
  {
    if j > 0 {
      LostCreates(ls, ops, j - 1);
      assert j - 1 + 1 == j;
    }
    OneCreate(ls[j], ops[j], ls[j + 1]);
  }

  /**
   A delete takes a version and an id in the stream whether or not it finds its row.
   The next create is rejected by the stream, its row active, exactly when it does
   not.
   */
  lemma MissingRowLosesCreate(l: LogState, id: AdID, l1: LogState, ad: Ad, req: ReqId, l2: LogState)
    requires LogInv(l) && ad.id !in l.rows && ad.id != id
    requires Writes(l, DeleteOp(id), true, l1) && Writes(l1, CreateOp(ad, req), true, l2)
    ensures l2.stream == l1.stream <==> id !in l.rows
    ensures ad.id in l2.rows && l2.rows[ad.id].active
  {
    AheadAfterDelete(l, id, l1);
    OneCreate(l1, CreateOp(ad, req), l2);
  }

  /** How far the stream is ahead after a delete: not at all, or past the highest active version. */
  lemma AheadAfterDelete(l: LogState, id: AdID, l1: LogState)
    requires LogInv(l) && Writes(l, DeleteOp(id), true, l1)
    ensures Ahead(LastId(l1.stream), MaxVersion(l1.rows)) ==
      if id in l.rows then 0 else |l.history| + 1 - MaxVersion(ActiveRows(l.rows))
    ensures id !in l.rows ==> Ahead(LastId(l1.stream), MaxVersion(l1.rows)) > 0
  {
    StreamNotAhead(l);
    DeleteTops(l, id, l1);
    if id in l.rows {
      FoundTop(l, id, l1);
    } else {
      MissingTop(l, id, l1);
    }
  }

  lemma DeleteTops(l: LogState, id: AdID, l1: LogState)
    requires LastId(l.stream) <= MaxVersion(l.rows) && Writes(l, DeleteOp(id), true, l1)
    ensures LastId(l1.stream) == MaxVersion(l.rows) + 1
  {
    WriteEffect(l, DeleteOp(id), l1);
  }

  lemma DeleteWritten(l: LogState, id: AdID, l1: LogState)
    requires Writes(l, DeleteOp(id), true, l1)
    ensures l1.rows == DeleteRow(l.rows, id, MaxVersion(l.rows) + 1)
  {
    WriteEffect(l, DeleteOp(id), l1);
  }

  lemma FoundTop(l: LogState, id: AdID, l1: LogState)
    requires id in l.rows && Writes(l, DeleteOp(id), true, l1)
    ensures MaxVersion(l1.rows) == MaxVersion(l.rows) + 1
  {
    DeleteWritten(l, id, l1);
    DeleteMax(l.rows, id);
  }

  lemma MissingTop(l: LogState, id: AdID, l1: LogState)
    requires TableOk(l.rows) && id !in l.rows && Writes(l, DeleteOp(id), true, l1)
    ensures MaxVersion(l1.rows) == MaxVersion(ActiveRows(l.rows)) <= MaxVersion(l.rows)
  {
    DeleteWritten(l, id, l1);
    CollectAll(l.rows, id);
    MaxOfActive(l.rows);
  }

  lemma StreamNotAhead(l: LogState)
    requires LogInv(l)
    ensures LastId(l.stream) <= MaxVersion(l.rows)
  {
    if l.stream != [] {
      assert TrueEntry(l.history, l.stream[|l.stream| - 1]);
    }
  }

  /** Such a loss comes up: create a, delete an id with no row, create b. */
  lemma LostCreateComesUp(a: Ad, id: AdID, b: Ad) returns (l: LogState, l1: LogState, l2: LogState)
    requires a.id != id && b.id != id && a.id != b.id
    ensures Writes(InitialLog, CreateOp(a, 0), true, l) && Writes(l, DeleteOp(id), true, l1) && Writes(l1, CreateOp(b, 1), true, l2)
    ensures l2.stream == l1.stream && b.id in l2.rows && l2.rows[b.id].active
  {
    InitialLogInv();
    l := WriteHappens(InitialLog, CreateOp(a, 0));
    WriteKeepsInv(InitialLog, CreateOp(a, 0), l);
    WriteEffect(InitialLog, CreateOp(a, 0), l);
    l1 := WriteHappens(l, DeleteOp(id));
    WriteEffect(l, DeleteOp(id), l1);
    l2 := WriteHappens(l1, CreateOp(b, 1));
    MissingRowLosesCreate(l, id, l1, b, 1, l2);
  }
}
