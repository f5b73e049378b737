// How far the Redis seat counter is from the free seats of the database, and
// the reconcile job that closes the gap.
module RedisLedger {
  import opened Prelude
  import opened Tables
  import opened Admission
  import opened Ledger
  import opened Worker
  import opened Protocol
  import opened Safety
  import opened Seats

  // ---- Reconcile ----

  // The counters after a reconcile of `sections`.
  function Reconciled(db: Db, redis: map<SectionId, int>, sections: set<SectionId>): map<SectionId, int> {
    redis + map s | s in sections && s in db.seats :: FreeSeats(db, s)
  }

  // The sections whose counter is missing or wrong.
  function OutOfSync(db: Db, redis: map<SectionId, int>, sections: set<SectionId>): set<SectionId> {
    set s | s in sections && s in db.seats && (s !in redis || redis[s] != FreeSeats(db, s))
  }

  class SlotCounters {
    var slots: map<SectionId, int>

    constructor (slots: map<SectionId, int>)
      ensures this.slots == slots
    {
      this.slots := slots;
    }

    method Set(s: SectionId, value: int)
      modifies this
      ensures slots == old(slots)[s := value]
    {
      slots := slots[s := value];
    }

    method IncrBy(s: SectionId, delta: int)
      modifies this
      ensures slots == old(slots)[s := (if s in old(slots) then old(slots)[s] else 0) + delta]
    {
      slots := slots[s := (if s in slots then slots[s] else 0) + delta];
    }

    // `rows` are the sections of the current semester as read from the database.
    method ReconcileCurrentSemesterSlots(tables: RegistrationTables, rows: seq<SectionId>) returns (fixedCount: nat)
      requires forall i :: 0 <= i < |rows| ==> rows[i] in tables.seats
      requires forall i, j :: 0 <= i < j < |rows| ==> rows[i] != rows[j]
      modifies this
      ensures slots == Reconciled(tables.View(), old(slots), Seen(rows, |rows|))
      ensures fixedCount == |OutOfSync(tables.View(), old(slots), Seen(rows, |rows|))|
      ensures forall s :: s in rows ==>
        s in slots && slots[s] == if tables.seats[s].slMax > tables.seats[s].slDk
                                  then tables.seats[s].slMax - tables.seats[s].slDk else 0
      ensures forall s :: s !in rows ==> (s in slots <==> s in old(slots)) && (s in slots ==> slots[s] == old(slots)[s])
      ensures fixedCount == |set s | s in rows && (s !in old(slots) || slots[s] != old(slots)[s])|
      ensures tables.View() == old(tables.View())
    {
      var redisValues := slots;   // mget before any write
      fixedCount := 0;
      for i := 0 to |rows|
        invariant slots == Reconciled(tables.View(), redisValues, Seen(rows, i))
        invariant fixedCount == |OutOfSync(tables.View(), redisValues, Seen(rows, i))|
      {
        var expected := if tables.seats[rows[i]].slMax - tables.seats[rows[i]].slDk > 0
                        then tables.seats[rows[i]].slMax - tables.seats[rows[i]].slDk else 0;
        assert expected == FreeSeats(tables.View(), rows[i]);
        SeenOneMore(rows, i);
        OneMoreSection(tables.View(), redisValues, Seen(rows, i), rows[i]);
        if rows[i] !in redisValues || redisValues[rows[i]] != expected {
          fixedCount := fixedCount + 1;
          Set(rows[i], expected);
        }
      }
      ReconciledMeans(tables.View(), redisValues, rows);
    }
  }

  // The first `n` sections of a list.
  function Seen(rows: seq<SectionId>, n: nat): set<SectionId>
    requires n <= |rows|
  {
    set i | 0 <= i < n :: rows[i]
  }

  // Every listed counter is the free seats, every other key stays, and the wrong
  // keys are those that changed.
  lemma ReconciledMeans(db: Db, redis: map<SectionId, int>, rows: seq<SectionId>)
    requires forall i :: 0 <= i < |rows| ==> rows[i] in db.seats
    ensures var after := Reconciled(db, redis, Seen(rows, |rows|));
            && (forall s :: s in rows ==>
                  s in db.seats && s in after
                  && after[s] == if db.seats[s].slMax > db.seats[s].slDk then db.seats[s].slMax - db.seats[s].slDk
                  else 0)
            && (forall s :: s !in rows ==> (s in after <==> s in redis) && (s in after ==> after[s] == redis[s]))
            && OutOfSync(db, redis, Seen(rows, |rows|)) ==
               set s | s in rows && (s !in redis || after[s] != redis[s])
  {
    forall s ensures s in rows <==> s in Seen(rows, |rows|) {}
  }

  lemma SeenOneMore(rows: seq<SectionId>, n: nat)
    requires n < |rows| && forall i, j :: 0 <= i < j < |rows| ==> rows[i] != rows[j]
    ensures Seen(rows, n + 1) == Seen(rows, n) + {rows[n]} && rows[n] !in Seen(rows, n)
  {
  }

  lemma OneMoreSection(db: Db, redis: map<SectionId, int>, before: set<SectionId>, x: SectionId)
    requires x in db.seats && x !in before
    ensures var wrong := x !in redis || redis[x] != FreeSeats(db, x);
            && Reconciled(db, redis, before + {x}) ==
               (if wrong then Reconciled(db, redis, before)[x := FreeSeats(db, x)] else Reconciled(db, redis, before))
            && |OutOfSync(db, redis, before + {x})| == |OutOfSync(db, redis, before)| + if wrong then 1 else 0
  {
    if x !in redis || redis[x] != FreeSeats(db, x) {
      assert OutOfSync(db, redis, before + {x}) == OutOfSync(db, redis, before) + {x};
    } else {
      assert OutOfSync(db, redis, before + {x}) == OutOfSync(db, redis, before);
    }
  }

  // A second reconcile with no step in between finds nothing to fix and writes nothing.
  lemma ReconcileIdempotent(db: Db, redis: map<SectionId, int>, sections: set<SectionId>)
    ensures OutOfSync(db, Reconciled(db, redis, sections), sections) == {}
    ensures Reconciled(db, Reconciled(db, redis, sections), sections) == Reconciled(db, redis, sections)
  {
  }

  // ---- The ledger ----

  // Requests on `s` that Redis has accounted for and the seat counter has not:
  // a CREATE counts one, a CANCEL takes one back.
  function UnservedOn(s: SectionId): Item -> int {
    (it: Item) =>
      if it.section == s && Unserved(it) then (if it.kind == CREATE then 1 else -1) else 0
  }

  ghost function Gap(st: State, s: SectionId): int
    requires s in st.db.seats && s in st.redis
  {
    st.redis[s] - (st.db.seats[s].slMax - st.db.seats[s].slDk) + Tally(st.db.items, UnservedOn(s))
  }

  predicate Cached(st: State, s: SectionId) { s in st.db.seats && s in st.redis }

  lemma {:induction false} RowsCount(b: BatchId, kind: BatchKind, payload: seq<JobItem>, k: nat, s: SectionId)
    requires k <= |payload|
    requires forall j :: k <= j < |payload| ==> payload[j].sectionId.Some?
    requires forall i, j :: k <= i < j < |payload| ==> payload[i].sectionId != payload[j].sectionId
    ensures SumFrom(b, kind, payload, k, UnservedOn(s)) ==
            if exists j :: k <= j < |payload| && payload[j].sectionId == Some(s) then (if kind == CREATE then 1 else -1)
            else 0
    decreases |payload| - k
  {
    if k < |payload| { RowsCount(b, kind, payload, k + 1, s); }
  }

  // Inserting a batch and moving the counters of its sections the other way.
  lemma InsertGap(db: Db, b: BatchId, batch: Batch, ids: seq<SectionId>, s: SectionId)
    requires Insertable(db, b, batch)
    requires |ids| == |batch.payload| && forall k :: 0 <= k < |ids| ==> batch.payload[k].sectionId == Some(ids[k])
    ensures Tally(InsertBatch(db, b, batch).items, UnservedOn(s)) ==
            Tally(db.items, UnservedOn(s)) + if s in ids then (if batch.kind == CREATE then 1 else -1) else 0
  {
    InsertedTally(db.items, b, batch.kind, batch.payload, 0, UnservedOn(s));
    RowsCount(b, batch.kind, batch.payload, 0, s);
    if s in ids {
      var k :| 0 <= k < |ids| && ids[k] == s;
      assert batch.payload[k].sectionId == Some(s);
    }
  }

  lemma PublishGap(st: State, sub: Submission, batch: Batch, ids: seq<SectionId>, redis: map<SectionId, int>,
                   s: SectionId)
    requires Insertable(st.db, sub.batch, batch) && Cached(st, s)
    requires |ids| == |batch.payload| && forall k :: 0 <= k < |ids| ==> batch.payload[k].sectionId == Some(ids[k])
    requires s in redis && redis[s] == st.redis[s]
    ensures var next := Publish(st, InsertBatch(st.db, sub.batch, batch),
            Bump(redis, ids, if batch.kind == CREATE then -1 else 1), sub);
            Cached(next, s) && Gap(next, s) == Gap(st, s)
  {
    InsertGap(st.db, sub.batch, batch, ids, s);
  }

  lemma SubmitGap(cfg: Config, st: State, a: Action, s: SectionId)
    requires Enabled(cfg, st, a) && (a.SubmitCreate? || a.SubmitCancel?) && st.db.seats.Keys == cfg.catalog.rows.Keys
    requires Cached(st, s)
    ensures Cached(Apply(cfg, st, a), s) && Gap(Apply(cfg, st, a), s) == Gap(st, s)
  {
    if a.SubmitCreate? {
      CreateInsertable(cfg, st, a.sub);
      PublishGap(st, a.sub, CreateBatchOf(cfg, a.sub), Rows(cfg, a.sub), Refill(st.db, st.redis, Rows(cfg, a.sub)), s);
    } else {
      CancelInsertable(cfg, st, a.sub);
      PublishGap(st, a.sub, CancelBatchOf(cfg, st.db, a.sub), Rows(cfg, a.sub), st.redis, s);
    }
  }

  // What a table step must do to leave the gap alone.
  ghost predicate Neutral(a: Db, b: Db, s: SectionId) {
    && s in a.seats && s in b.seats && a.seats[s].slMax == b.seats[s].slMax
    && a.seats[s].slDk + Tally(a.items, UnservedOn(s)) == b.seats[s].slDk + Tally(b.items, UnservedOn(s))
  }

  lemma AcquireNeutral(db: Db, i: ItemId, s: SectionId)
    requires i in db.items && Unserved(db.items[i]) && db.items[i].kind == CREATE
    requires db.items[i].section in db.seats && s in db.seats
    ensures Neutral(db, Acquire(db, i, db.items[i].section).0, s)
  {
    var after := Acquire(db, i, db.items[i].section).0;
    TallyUpdate(db.items, i, after.items[i], UnservedOn(s));
  }

  lemma ReleaseNeutral(db: Db, c: ItemId, s: SectionId)
    requires Releasable(db, c) && s in db.seats
    requires db.items[db.items[c].source.value].status == Success
    ensures Neutral(db, Released(db, c), s)
  {
    var src := db.items[c].source.value;
    var after := Released(db, c);
    ReleaseRows(db, c);
    TallyUpdate(db.items, src, after.items[src], UnservedOn(s));
    TallyUpdate(db.items[src := after.items[src]], c, after.items[c], UnservedOn(s));
  }

  lemma MarkNeutral(db: Db, i: ItemId, s: SectionId)
    requires i in db.items && Unserved(db.items[i]) && s in db.seats
    ensures Neutral(db, MarkFailed(db, i), s)
  {
    TallyUpdate(db.items, i, MarkFailed(db, i).items[i], UnservedOn(s));
  }

  lemma MarkBatchNeutral(db: Db, b: BatchId, s: SectionId)
    requires b in db.batches && s in db.seats
    ensures Neutral(db, MarkBatchFailed(db, b), s)
  {
    TallySame(db.items, MarkBatchFailed(db, b).items, UnservedOn(s), UnservedOn(s));
  }

  lemma AttemptNeutral(g: Regime, db: Db, job: Job, at: Progress, k: nat, s: SectionId)
    requires DbInv(g, db) && OneHandler(g) && CancelsAlone(g) && job.batch in db.batches && job == JobOf(db, job.batch)
             && s in db.seats
    requires k < |job.items| && Fillable(job, k) && Todo(job, at.snapshot, k) && Tracks(g, db, job, at.snapshot, k)
    ensures Neutral(db, Attempt(db, job, k).0, s)
  {
    var i := job.items[k].itemId;
    assert EntryWf(db, job.batch, k) && ItemWf(db, i);
    match job.kind
    case CREATE => AcquireNeutral(db, i, s);
    case CANCEL =>
      var src := job.items[k].source.value;
      assert SourceWf(db, db.items[i], src) && WaitsOn(db, i, src);
      ReleaseUnclamped(g, db, i);
      ReleaseNeutral(db, i, s);
  }

  lemma AdvanceNeutral(g: Regime, db: Db, job: Job, at: Progress, fault: bool, s: SectionId)
    requires DbInv(g, db) && OneHandler(g) && CancelsAlone(g) && job.batch in db.batches && job == JobOf(db, job.batch)
             && s in db.seats
    requires HandlerOk(g, db, job, at)
    ensures Neutral(db, Advance(db, job, at, fault).0, s)
  {
    match at.phase
    case AtItem(k) =>
      if k < |job.items| && Todo(job, at.snapshot, k) && Fillable(job, k) && !fault {
        AttemptNeutral(g, db, job, at, k, s);
      }
    case Marking(k) =>
      if !fault { MarkNeutral(db, job.items[k].itemId, s); }
    case _ =>
  }

  lemma StepGap(cfg: Config, st: State, a: Action, s: SectionId)
    requires Inv(cfg, st) && OneHandler(cfg.regime) && Enabled(cfg, st, a) && Spares(st, a, s) && Cached(st, s)
    ensures Cached(Apply(cfg, st, a), s) && Gap(Apply(cfg, st, a), s) == Gap(st, s)
  {
    match a
    case SubmitCreate(_) => SubmitGap(cfg, st, a, s);
    case SubmitCancel(_) => SubmitGap(cfg, st, a, s);
    case Work(t, fault) =>
      AdvanceNeutral(cfg.regime, st.db, JobOf(st.db, st.mail[t].batch), st.mail[t].place.at, fault, s);
    case SettleDead(t, fault) =>
      if !fault { MarkBatchNeutral(st.db, st.mail[t].batch, s); }
    case _ =>
  }

  // A cache fill that leaves the counter of `s` as it is.
  predicate Spares(st: State, a: Action, s: SectionId) {
    a.CacheFill? && s in st.redis ==> s in a.redis && a.redis[s] == st.redis[s]
  }

  // No cache fill from state m to state n writes the key of `s`.
  ghost predicate NoFill(states: seq<State>, actions: seq<Action>, m: nat, n: nat, s: SectionId) {
    forall i :: m <= i < n && i < |actions| && i < |states| ==> Spares(states[i], actions[i], s)
  }

  ghost predicate GapKept(states: seq<State>, k: nat, s: SectionId)
    requires k + 1 < |states|
  {
    Cached(states[k], s) ==> Cached(states[k + 1], s) && Gap(states[k + 1], s) == Gap(states[k], s)
  }

  lemma GapStep(cfg: Config, states: seq<State>, actions: seq<Action>, n: nat, s: SectionId)
    requires Run(cfg, states, actions) && n < |actions| && Init(cfg, states[0]) && Steady(cfg)
    requires Spares(states[n], actions[n], s)
    ensures GapKept(states, n, s)
  {
    if Cached(states[n], s) {
      InitHolds(cfg, states[0]);
      RunKeeps(cfg, states, actions, n);
      StepGap(cfg, states[n], actions[n], s);
    }
  }

  lemma {:induction false} GapByInduction(states: seq<State>, m: nat, n: nat, s: SectionId)
    requires m <= n < |states| && Cached(states[m], s)
    requires forall k :: m <= k < n ==> GapKept(states, k, s)
    ensures Cached(states[n], s) && Gap(states[n], s) == Gap(states[m], s)
  {
    if m < n {
      GapByInduction(states, m, n - 1, s);
      assert GapKept(states, n - 1, s);
    }
  }

  // Nothing but a cache fill of the key changes the gap.
  lemma GapConstant(cfg: Config, states: seq<State>, actions: seq<Action>, m: nat, n: nat, s: SectionId)
    requires Run(cfg, states, actions) && m <= n < |states| && Init(cfg, states[0]) && Steady(cfg)
    requires NoFill(states, actions, m, n, s) && Cached(states[m], s)
    ensures Cached(states[n], s) && Gap(states[n], s) == Gap(states[m], s)
  {
    forall k | m <= k < n ensures GapKept(states, k, s) { GapStep(cfg, states, actions, k, s); }
    GapByInduction(states, m, n, s);
  }

  // ---- The identity in terms of counts ----

  function CountOn(s: SectionId, kind: BatchKind, status: ItemStatus): Item -> int {
    (it: Item) => if it.section == s && it.kind == kind && it.status == status then 1 else 0
  }

  ghost function Count(db: Db, s: SectionId, kind: BatchKind, status: ItemStatus): int {
    Tally(db.items, CountOn(s, kind, status))
  }

  lemma UnservedCounts(db: Db, s: SectionId)
    ensures Tally(db.items, UnservedOn(s)) ==
            Count(db, s, CREATE, Pending) + Count(db, s, CREATE, Failed) - Count(db, s, CANCEL, Pending)
              - Count(db, s, CANCEL, Failed)
  {
    var creates := (it: Item) => CountOn(s, CREATE, Pending)(it) + CountOn(s, CREATE, Failed)(it);
    var cancels := (it: Item) => CountOn(s, CANCEL, Pending)(it) + CountOn(s, CANCEL, Failed)(it);
    TallyPlus(db.items, CountOn(s, CREATE, Pending), CountOn(s, CREATE, Failed), creates);
    TallyPlus(db.items, CountOn(s, CANCEL, Pending), CountOn(s, CANCEL, Failed), cancels);
    TallyPlus(db.items, UnservedOn(s), cancels, creates);
  }

  // From a reconcile at state m on, as long as no other cache fill writes the
  // key, the counter is off by (P0 - P - F) + (Q + G - Q0): P and Q count the
  // pending creates and cancels now, P0 and Q0 those at the reconcile, and F
  // and G the creates and cancels that failed since.
  lemma RedisIdentity(cfg: Config, states: seq<State>, actions: seq<Action>, m: nat, n: nat, s: SectionId)
    requires Run(cfg, states, actions) && m <= n < |states| && Init(cfg, states[0]) && Steady(cfg)
    requires NoFill(states, actions, m, n, s) && Cached(states[m], s)
             && states[m].redis[s] == FreeSeats(states[m].db, s)
    ensures Cached(states[n], s)
    ensures var before, after := states[m].db, states[n].db;
            states[n].redis[s] - (after.seats[s].slMax - after.seats[s].slDk) ==
            (Count(before, s, CREATE, Pending) - Count(after, s, CREATE, Pending)
             - (Count(after, s, CREATE, Failed) - Count(before, s, CREATE, Failed)))
            + (Count(after, s, CANCEL, Pending) + (Count(after, s, CANCEL, Failed) - Count(before, s, CANCEL, Failed))
               - Count(before, s, CANCEL, Pending))
  {
    GapConstant(cfg, states, actions, m, n, s);
    UnservedCounts(states[m].db, s);
    UnservedCounts(states[n].db, s);
    CounterIsFree(cfg, states, actions, m, s);
  }

  lemma NonePending(db: Db, s: SectionId, kind: BatchKind)
    requires forall i :: i in db.items && db.items[i].section == s ==> db.items[i].status != Pending
    ensures Count(db, s, kind, Pending) == 0
  {
    TallyZero(db.items, CountOn(s, kind, Pending));
  }

  // With nothing pending at either end, each CREATE that failed since the
  // reconcile has left the counter one too low and each failed CANCEL one too
  // high: only the next reconcile brings it back.
  lemma DriftAtRest(cfg: Config, states: seq<State>, actions: seq<Action>, m: nat, n: nat, s: SectionId)
    requires Run(cfg, states, actions) && m <= n < |states| && Init(cfg, states[0]) && Steady(cfg)
    requires NoFill(states, actions, m, n, s) && Cached(states[m], s)
             && states[m].redis[s] == FreeSeats(states[m].db, s)
    requires forall i :: i in states[m].db.items && states[m].db.items[i].section == s ==>
               states[m].db.items[i].status != Pending
    requires forall i :: i in states[n].db.items && states[n].db.items[i].section == s ==>
               states[n].db.items[i].status != Pending
    ensures Cached(states[n], s)
    ensures var before, after := states[m].db, states[n].db;
            states[n].redis[s] - (after.seats[s].slMax - after.seats[s].slDk) ==
            (Count(after, s, CANCEL, Failed) - Count(before, s, CANCEL, Failed))
            - (Count(after, s, CREATE, Failed) - Count(before, s, CREATE, Failed))
  {
    RedisIdentity(cfg, states, actions, m, n, s);
    NonePending(states[m].db, s, CREATE);
    NonePending(states[m].db, s, CANCEL);
    NonePending(states[n].db, s, CREATE);
    NonePending(states[n].db, s, CANCEL);
  }

  lemma CounterIsFree(cfg: Config, states: seq<State>, actions: seq<Action>, m: nat, s: SectionId)
    requires Run(cfg, states, actions) && m < |states| && Init(cfg, states[0]) && CancelsAlone(cfg.regime)
    requires s in states[m].db.seats
    ensures FreeSeats(states[m].db, s) == states[m].db.seats[s].slMax - states[m].db.seats[s].slDk
  {
    NoOverselling(cfg, states, actions, m, s);
  }
}
