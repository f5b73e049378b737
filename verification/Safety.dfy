// The invariant of every run of the protocol, and the seat theorems it gives.
module Safety {
  import opened Prelude
  import opened Tables
  import opened Admission
  import opened Ledger
  import opened Worker
  import opened Recovery
  import opened Protocol

  // ---- Handlers and the tables ----

  // Entry `j` is still to be settled: PENDING, or FAILED by a dead letter that
  // did not wait for the handler.
  predicate StillDue(g: Regime, it: Item) { it.status == Pending || (it.status == Failed && !DeadWaits(g, it.kind)) }

  // The snapshot is still right about every entry from `k` on, and the entries
  // before `k` are settled.
  ghost predicate Tracks(g: Regime, db: Db, job: Job, snapshot: map<ItemId, ItemStatus>, k: nat) {
    forall j :: 0 <= j < |job.items| ==>
      job.items[j].itemId in db.items
      && (db.items[job.items[j].itemId].status == Pending ==> j >= k && Todo(job, snapshot, j))
      && (j >= k && Todo(job, snapshot, j) ==> StillDue(g, db.items[job.items[j].itemId]))
  }

  ghost predicate HandlerOk(g: Regime, db: Db, job: Job, at: Progress) {
    match at.phase
    case AtItem(k) => k <= |job.items| && Tracks(g, db, job, at.snapshot, k)
    case Marking(k) => k < |job.items| && Tracks(g, db, job, at.snapshot, k) && Todo(job, at.snapshot, k)
    case _ => true
  }

  predicate GovernedBatch(cfg: Config, db: Db, b: BatchId) {
    b in db.batches && Governed(cfg.regime, db.batches[b].kind)
  }

  ghost predicate Alone(cfg: Config, s: State, t: Tag)
    requires t in s.mail
  {
    forall u :: u in s.mail && Live(s.mail[u]) && s.mail[u].batch == s.mail[t].batch ==> u == t
  }

  ghost predicate HandlersOk(cfg: Config, s: State) {
    && (forall t :: t in s.mail ==> s.mail[t].batch in s.db.batches)
    && (forall t :: t in s.mail && Live(s.mail[t]) && GovernedBatch(cfg, s.db, s.mail[t].batch) ==>
          Alone(cfg, s, t) && HandlerOk(cfg.regime, s.db, JobOf(s.db, s.mail[t].batch), s.mail[t].place.at))
  }

  ghost predicate Inv(cfg: Config, s: State) {
    && ConfigOk(cfg) && CancelsAlone(cfg.regime)
    && s.db.seats.Keys == cfg.catalog.rows.Keys
    && DbInv(cfg.regime, s.db)
    && HandlersOk(cfg, s)
  }

  // ---- Steps of one batch leave the handlers of others alone ----

  predicate SameDue(before: Item, after: Item) {
    && before.kind == after.kind
    && (before.status == Pending <==> after.status == Pending)
    && (before.status == Failed ==> after.status == Failed)
  }

  ghost predicate PendingElsewhere(g: Regime, a: Db, b: Db, batch: BatchId) {
    && a.items.Keys <= b.items.Keys
    && (forall i :: i in a.items && a.items[i].batch != batch && Governed(g, a.items[i].kind) ==>
          SameDue(a.items[i], b.items[i]))
    && (forall n :: n in a.batches ==>
          n in b.batches && b.batches[n].kind == a.batches[n].kind && b.batches[n].payload == a.batches[n].payload)
  }

  lemma OtherHandlerOk(g: Regime, a: Db, b: Db, batch: BatchId, other: BatchId, at: Progress)
    requires Wf(a) && PendingElsewhere(g, a, b, batch)
    requires other in a.batches && other != batch && Governed(g, a.batches[other].kind)
    requires HandlerOk(g, a, JobOf(a, other), at)
    ensures HandlerOk(g, b, JobOf(b, other), at)
  {
    var job := JobOf(a, other);
    assert JobOf(b, other) == job;
    forall j | 0 <= j < |job.items|
      ensures job.items[j].itemId in a.items && a.items[job.items[j].itemId].batch == other
      ensures a.items[job.items[j].itemId].kind == job.kind
    {
      assert EntryWf(a, other, j);
      assert ItemWf(a, job.items[j].itemId);
    }
  }

  lemma OtherHandlersOk(cfg: Config, s: State, t: State, batch: BatchId)
    requires HandlersOk(cfg, s) && Wf(s.db) && PendingElsewhere(cfg.regime, s.db, t.db, batch)
    // Every live delivery of a governed batch is an old one of another batch, or satisfies the claim.
    requires forall u :: u in t.mail ==> t.mail[u].batch in t.db.batches
    requires forall u :: u in t.mail && Live(t.mail[u]) && t.mail[u].batch != batch ==>
               u in s.mail && s.mail[u] == t.mail[u]
    requires forall u ::
      u in t.mail && Live(t.mail[u]) && t.mail[u].batch == batch && GovernedBatch(cfg, t.db, batch) ==>
      Alone(cfg, t, u) && HandlerOk(cfg.regime, t.db, JobOf(t.db, batch), t.mail[u].place.at)
    ensures HandlersOk(cfg, t)
  {
    forall u | u in t.mail && Live(t.mail[u]) && GovernedBatch(cfg, t.db, t.mail[u].batch) && t.mail[u].batch != batch
      ensures Alone(cfg, t, u) && HandlerOk(cfg.regime, t.db, JobOf(t.db, t.mail[u].batch), t.mail[u].place.at)
    {
      var other := t.mail[u].batch;
      assert GovernedBatch(cfg, s.db, other) && Alone(cfg, s, u);
      OtherHandlerOk(cfg.regime, s.db, t.db, batch, other, t.mail[u].place.at);
    }
  }

  // ---- A handler step ----

  // One step of a governed handler keeps it accurate.
  lemma AdvanceTracks(g: Regime, db: Db, job: Job, at: Progress, fault: bool)
    requires DbInv(g, db) && job.batch in db.batches && job == JobOf(db, job.batch)
    requires Governed(g, job.kind) && HandlerOk(g, db, job, at)
    ensures HandlerOk(g, Advance(db, job, at, fault).0, job, Advance(db, job, at, fault).1)
  {
    StoredJobFits(db, job.batch);
    match at.phase
    case Loading =>
      if !fault { LoadTracks(g, db, job); }
    case AtItem(k) =>
      if k < |job.items| && Todo(job, at.snapshot, k) && Fillable(job, k) && !fault {
        AttemptTracks(g, db, job, at.snapshot, k);
      }
    case Marking(k) =>
    case _ =>
  }

  lemma LoadTracks(g: Regime, db: Db, job: Job)
    requires Fits(db, job)
    ensures Tracks(g, db, job, Snapshot(db, job.batch), 0)
  {
  }

  lemma AttemptTracks(g: Regime, db: Db, job: Job, snapshot: map<ItemId, ItemStatus>, k: nat)
    requires Wf(db) && Fits(db, job) && job == JobOf(db, job.batch) && k < |job.items| && Fillable(job, k)
    requires Tracks(g, db, job, snapshot, k) && Todo(job, snapshot, k)
    ensures var (db', ok) := Attempt(db, job, k);
            && (ok ==> Tracks(g, db', job, snapshot, k + 1))
            && (!ok ==> db' == db)
  {
    var i := job.items[k].itemId;
    assert EntryWf(db, job.batch, k) && ItemWf(db, i);
    if job.kind == CANCEL {
      var src := job.items[k].source.value;
      assert SourceWf(db, db.items[i], src);
      forall j | 0 <= j < |job.items| ensures job.items[j].itemId != src {}
    }
  }

  // What a step does to the tables, whatever the regime.
  lemma AdvanceDb(g: Regime, db: Db, job: Job, at: Progress, fault: bool)
    requires DbInv(g, db) && CancelsAlone(g) && job.batch in db.batches && job == JobOf(db, job.batch)
    requires Governed(g, job.kind) ==> HandlerOk(g, db, job, at)
    ensures var after := Advance(db, job, at, fault).0;
            DbInv(g, after) && Settling(db, after) && PendingElsewhere(g, db, after, job.batch)
  {
    match at.phase
    case Loading =>
      if job.items == [] && !fault { FinishDb(g, db, job); }
    case AtItem(k) =>
      if k >= |job.items| {
        if !fault { FinishDb(g, db, job); }
      } else if Todo(job, at.snapshot, k) && Fillable(job, k) && !fault {
        AttemptDb(g, db, job, at, k);
      }
    case Marking(k) =>
      if !fault && k < |job.items| && job.items[k].itemId in db.items { MarkDb(g, db, job, at, k); }
    case _ =>
  }

  lemma FinishDb(g: Regime, db: Db, job: Job)
    requires DbInv(g, db) && job.batch in db.batches && job == JobOf(db, job.batch)
    requires Governed(g, job.kind) ==> forall j :: 0 <= j < |job.items| && job.items[j].itemId in db.items ==>
               db.items[job.items[j].itemId].status != Pending
    ensures DbInv(g, Complete(db, job.batch)) && Settling(db, Complete(db, job.batch))
    ensures PendingElsewhere(g, db, Complete(db, job.batch), job.batch)
  {
    forall i | i in db.items && db.items[i].batch == job.batch && Governed(g, db.items[i].kind)
      ensures db.items[i].status != Pending
    {
      assert ItemWf(db, i);
    }
    CompleteKeeps(g, db, job.batch);
  }

  lemma AttemptDb(g: Regime, db: Db, job: Job, at: Progress, k: nat)
    requires DbInv(g, db) && CancelsAlone(g) && job.batch in db.batches && job == JobOf(db, job.batch)
    requires k < |job.items| && Fillable(job, k) && Todo(job, at.snapshot, k)
    requires Governed(g, job.kind) ==> Tracks(g, db, job, at.snapshot, k)
    ensures var after := Attempt(db, job, k).0;
            DbInv(g, after) && Settling(db, after) && PendingElsewhere(g, db, after, job.batch)
  {
    EntryItem(db, job.batch, k);
    match job.kind
    case CREATE => AttemptCreateDb(g, db, job, k);
    case CANCEL => AttemptCancelDb(g, db, job, k);
  }

  lemma AttemptCreateDb(g: Regime, db: Db, job: Job, k: nat)
    requires DbInv(g, db) && job.batch in db.batches && job == JobOf(db, job.batch) && job.kind == CREATE
    requires k < |job.items| && Fillable(job, k)
    requires Governed(g, CREATE) && job.items[k].itemId in db.items ==> Unserved(db.items[job.items[k].itemId])
    ensures var after := Attempt(db, job, k).0;
            DbInv(g, after) && Settling(db, after) && PendingElsewhere(g, db, after, job.batch)
  {
    EntryItem(db, job.batch, k);
    AcquireKeeps(g, db, job.items[k].itemId);
    AcquireElsewhere(g, db, job.items[k].itemId);
  }

  // A payload entry and its item row name the same section.
  lemma EntryItem(db: Db, b: BatchId, k: nat)
    requires Wf(db) && b in db.batches && k < |db.batches[b].payload|
    ensures var entry := db.batches[b].payload[k];
            && entry.itemId in db.items && db.items[entry.itemId].batch == b
               && db.items[entry.itemId].kind == db.batches[b].kind
            && entry.sectionId == Some(db.items[entry.itemId].section) && entry.source == db.items[entry.itemId].source
  {
    assert EntryWf(db, b, k);
    assert ItemWf(db, db.batches[b].payload[k].itemId);
  }

  lemma AcquireElsewhere(g: Regime, db: Db, i: ItemId)
    requires i in db.items && db.items[i].kind == CREATE
    ensures PendingElsewhere(g, db, Acquire(db, i, db.items[i].section).0, db.items[i].batch)
  {
  }

  lemma AttemptCancelDb(g: Regime, db: Db, job: Job, k: nat)
    requires DbInv(g, db) && job.batch in db.batches && job == JobOf(db, job.batch) && job.kind == CANCEL
    requires k < |job.items| && Fillable(job, k)
    requires job.items[k].itemId in db.items ==> db.items[job.items[k].itemId].status == Pending
    ensures var after := Attempt(db, job, k).0;
            DbInv(g, after) && Settling(db, after) && PendingElsewhere(g, db, after, job.batch)
  {
    var i := job.items[k].itemId;
    assert EntryWf(db, job.batch, k) && ItemWf(db, i);
    ReleaseKeeps(g, db, i);
    ReleaseElsewhere(g, db, i);
  }

  lemma ReleaseElsewhere(g: Regime, db: Db, c: ItemId)
    requires DbInv(g, db)
    requires c in db.items && db.items[c].kind == CANCEL && db.items[c].status == Pending && db.items[c].source.Some?
    ensures PendingElsewhere(g, db, Released(db, c), db.items[c].batch)
  {
    var src := db.items[c].source.value;
    assert ItemWf(db, c) && SourceWf(db, db.items[c], src);
    ReleaseUnclamped(g, db, c);
    ReleaseRows(db, c);
    if OneHandler(g) { assert WaitsOn(db, c, src); }
  }

  lemma MarkDb(g: Regime, db: Db, job: Job, at: Progress, k: nat)
    requires DbInv(g, db) && CancelsAlone(g) && job.batch in db.batches && job == JobOf(db, job.batch)
    requires k < |job.items| && job.items[k].itemId in db.items
    requires Governed(g, job.kind) ==> Tracks(g, db, job, at.snapshot, k) && Todo(job, at.snapshot, k)
    ensures var after := MarkFailed(db, job.items[k].itemId);
            DbInv(g, after) && Settling(db, after) && PendingElsewhere(g, db, after, job.batch)
  {
    var i := job.items[k].itemId;
    assert EntryWf(db, job.batch, k) && ItemWf(db, i);
    MarkFailedKeeps(g, db, i);
  }

  // ---- Each action keeps the invariant ----

  // The handler of `t` moves the tables to `db` and itself to `at`.
  lemma HandlerMoved(cfg: Config, s: State, t: Tag, db: Db, at: Progress)
    requires Wf(s.db) && HandlersOk(cfg, s) && t in s.mail && Live(s.mail[t])
    requires PendingElsewhere(cfg.regime, s.db, db, s.mail[t].batch)
    requires GovernedBatch(cfg, s.db, s.mail[t].batch) ==> HandlerOk(cfg.regime, db, JobOf(s.db, s.mail[t].batch), at)
    ensures HandlersOk(cfg, Move(s, t, Handling(at)).(db := db))
  {
    var b := s.mail[t].batch;
    var after := Move(s, t, Handling(at)).(db := db);
    assert JobOf(db, b) == JobOf(s.db, b);
    forall u | u in after.mail && Live(after.mail[u]) && after.mail[u].batch == b && GovernedBatch(cfg, after.db, b)
      ensures Alone(cfg, after, u) && HandlerOk(cfg.regime, after.db, JobOf(after.db, b), after.mail[u].place.at)
    {
      assert Alone(cfg, s, t);
    }
    OtherHandlersOk(cfg, s, after, b);
  }

  lemma WorkKeeps(cfg: Config, s: State, t: Tag, fault: bool)
    requires Inv(cfg, s) && Enabled(cfg, s, Work(t, fault))
    ensures Inv(cfg, Worked(s, t, fault))
    ensures Settling(s.db, Worked(s, t, fault).db)
  {
    var d := s.mail[t];
    var job := JobOf(s.db, d.batch);
    var (db, at) := Advance(s.db, job, d.place.at, fault);
    AdvanceDb(cfg.regime, s.db, job, d.place.at, fault);
    if Governed(cfg.regime, job.kind) { AdvanceTracks(cfg.regime, s.db, job, d.place.at, fault); }
    HandlerMoved(cfg, s, t, db, at);
  }

  lemma DeliverKeeps(cfg: Config, s: State, t: Tag)
    requires Inv(cfg, s) && Enabled(cfg, s, Deliver(t))
    ensures Inv(cfg, Apply(cfg, s, Deliver(t)))
  {
    OtherHandlersOk(cfg, s, Apply(cfg, s, Deliver(t)), s.mail[t].batch);
  }

  // Publishing a copy, acknowledging, requeueing and crashing add no live handler.
  lemma QuietKeeps(cfg: Config, s: State, a: Action)
    requires Inv(cfg, s) && Enabled(cfg, s, a) && (a.Republish? || a.Ack? || a.Crash? || a.Redeliver? || a.CacheFill?)
    ensures Inv(cfg, Apply(cfg, s, a))
  {
    var after := Apply(cfg, s, a);
    forall u | u in after.mail && Live(after.mail[u]) ensures u in s.mail && s.mail[u] == after.mail[u] {}
    forall u | u in after.mail && Live(after.mail[u]) && GovernedBatch(cfg, after.db, after.mail[u].batch)
      ensures Alone(cfg, after, u)
              && HandlerOk(cfg.regime, after.db, JobOf(after.db, after.mail[u].batch), after.mail[u].place.at)
    {
      assert Alone(cfg, s, u);
    }
  }

  lemma BatchFailedElsewhere(g: Regime, db: Db, b: BatchId)
    requires b in db.batches
    ensures PendingElsewhere(g, db, MarkBatchFailed(db, b), b)
  {
  }

  // A dead letter that does not wait leaves a live handler accurate.
  lemma DeadTracks(g: Regime, db: Db, b: BatchId, at: Progress)
    requires Wf(db) && b in db.batches && !DeadWaits(g, db.batches[b].kind) && HandlerOk(g, db, JobOf(db, b), at)
    ensures HandlerOk(g, MarkBatchFailed(db, b), JobOf(db, b), at)
  {
    var job := JobOf(db, b);
    forall j | 0 <= j < |job.items|
      ensures job.items[j].itemId in db.items && db.items[job.items[j].itemId].kind == job.kind
    {
      EntryItem(db, b, j);
    }
  }

  // The dead-letter consumer moves the tables to `db`.
  lemma DeadMoved(cfg: Config, s: State, t: Tag, db: Db)
    requires Wf(s.db) && HandlersOk(cfg, s) && t in s.mail && DeadMayRun(cfg, s, s.mail[t].batch) && !Live(s.mail[t])
    requires db == s.db || db == MarkBatchFailed(s.db, s.mail[t].batch)
    ensures HandlersOk(cfg, Move(s, t, DeadAcking).(db := db))
  {
    var b := s.mail[t].batch;
    var after := Move(s, t, DeadAcking).(db := db);
    BatchFailedElsewhere(cfg.regime, s.db, b);
    forall u | u in after.mail && Live(after.mail[u]) && after.mail[u].batch == b && GovernedBatch(cfg, db, b)
      ensures Alone(cfg, after, u) && HandlerOk(cfg.regime, db, JobOf(db, b), after.mail[u].place.at)
    {
      assert Alone(cfg, s, u) && Live(s.mail[u]);
      if db != s.db { DeadTracks(cfg.regime, s.db, b, s.mail[u].place.at); }
      assert JobOf(db, b) == JobOf(s.db, b);
    }
    OtherHandlersOk(cfg, s, after, b);
  }

  lemma SettleDeadKeeps(cfg: Config, s: State, t: Tag, fault: bool)
    requires Inv(cfg, s) && Enabled(cfg, s, SettleDead(t, fault))
    ensures Inv(cfg, Apply(cfg, s, SettleDead(t, fault)))
    ensures Settling(s.db, Apply(cfg, s, SettleDead(t, fault)).db)
  {
    var b := s.mail[t].batch;
    if fault {
      DeadMoved(cfg, s, t, s.db);
    } else {
      MarkBatchFailedKeeps(cfg.regime, s.db, b);
      DeadMoved(cfg, s, t, MarkBatchFailed(s.db, b));
    }
  }

  lemma InsertedElsewhere(g: Regime, db: Db, b: BatchId, batch: Batch)
    requires Insertable(db, b, batch)
    ensures PendingElsewhere(g, db, InsertBatch(db, b, batch), b)
    ensures forall i :: i in db.items ==> InsertBatch(db, b, batch).items[i] == db.items[i]
  {
    InsertedRows(db.items, b, batch.kind, batch.payload, 0);
  }

  lemma PublishKeeps(cfg: Config, s: State, sub: Submission, batch: Batch, redis: map<SectionId, int>)
    requires Inv(cfg, s) && Insertable(s.db, sub.batch, batch) && sub.tag !in s.mail
    ensures Inv(cfg, Publish(s, InsertBatch(s.db, sub.batch, batch), redis, sub))
  {
    var db := InsertBatch(s.db, sub.batch, batch);
    InsertKeeps(cfg.regime, s.db, sub.batch, batch);
    InsertedElsewhere(cfg.regime, s.db, sub.batch, batch);
    NewBatchHandlers(cfg, s, sub, db, redis);
  }

  lemma NewBatchHandlers(cfg: Config, s: State, sub: Submission, db: Db, redis: map<SectionId, int>)
    requires Wf(s.db) && HandlersOk(cfg, s) && sub.tag !in s.mail && sub.batch !in s.db.batches
             && sub.batch in db.batches
    requires PendingElsewhere(cfg.regime, s.db, db, sub.batch)
    ensures HandlersOk(cfg, Publish(s, db, redis, sub))
  {
    OtherHandlersOk(cfg, s, Publish(s, db, redis, sub), sub.batch);
  }

  lemma CreateInsertable(cfg: Config, s: State, sub: Submission)
    requires CreateAdmitted(cfg, s, sub) && s.db.seats.Keys == cfg.catalog.rows.Keys
    ensures Insertable(s.db, sub.batch, CreateBatchOf(cfg, sub))
  {
    AllRowsDistinct(cfg.catalog, sub.semester, Distinct(sub.codes));
    RowsInCatalog(cfg.catalog, sub.semester, Distinct(sub.codes));
  }

  lemma SourcesCancellable(cfg: Config, s: State, sub: Submission, j: nat)
    requires CancelAdmitted(cfg, s, sub) && j < |Rows(cfg, sub)|
    ensures var batch := CancelBatchOf(cfg, s.db, sub);
            batch.payload[j].source.Some? ==> Cancellable(s.db, batch, batch.payload[j])
  {
    var src := SourceOf(s.db, sub.active, Rows(cfg, sub)[j]);
    if src.Some? {
      var k :| 0 <= k < |sub.active| && sub.active[k] == src.value;
      assert ActiveItem(s.db, sub.user, sub.semester, sub.active[k]);
    }
  }

  lemma NoneWaiting(cfg: Config, s: State, sub: Submission, c: BatchId)
    requires CancelAdmitted(cfg, s, sub)
    ensures !WaitingCancel(s.db, c, sub.user, sub.semester)
  {
    if WaitingCancel(s.db, c, sub.user, sub.semester) {
      assert WaitingBatch(s.db, sub.user, sub.semester, c);
    }
  }

  lemma CancelInsertable(cfg: Config, s: State, sub: Submission)
    requires CancelAdmitted(cfg, s, sub) && s.db.seats.Keys == cfg.catalog.rows.Keys
    ensures Insertable(s.db, sub.batch, CancelBatchOf(cfg, s.db, sub))
  {
    AllRowsDistinct(cfg.catalog, sub.semester, Distinct(sub.codes));
    RowsInCatalog(cfg.catalog, sub.semester, Distinct(sub.codes));
    var batch := CancelBatchOf(cfg, s.db, sub);
    forall c ensures !WaitingCancel(s.db, c, batch.user, batch.semester) { NoneWaiting(cfg, s, sub, c); }
    forall j | 0 <= j < |batch.payload| && batch.payload[j].source.Some?
      ensures Cancellable(s.db, batch, batch.payload[j])
    {
      SourcesCancellable(cfg, s, sub, j);
    }
  }

  lemma StepKeeps(cfg: Config, s: State, a: Action)
    requires Inv(cfg, s) && Enabled(cfg, s, a)
    ensures Inv(cfg, Apply(cfg, s, a))
  {
    match a
    case SubmitCreate(sub) =>
      CreateInsertable(cfg, s, sub);
      PublishKeeps(cfg, s, sub, CreateBatchOf(cfg, sub), Apply(cfg, s, a).redis);
    case SubmitCancel(sub) =>
      CancelInsertable(cfg, s, sub);
      PublishKeeps(cfg, s, sub, CancelBatchOf(cfg, s.db, sub), Apply(cfg, s, a).redis);
    case Deliver(t) => DeliverKeeps(cfg, s, t);
    case Work(t, fault) => WorkKeeps(cfg, s, t, fault);
    case SettleDead(t, fault) => SettleDeadKeeps(cfg, s, t, fault);
    case _ => QuietKeeps(cfg, s, a);
  }

  lemma InitHolds(cfg: Config, s: State)
    requires Init(cfg, s) && CancelsAlone(cfg.regime)
    ensures Inv(cfg, s)
  {
    forall x | x in s.db.seats ensures Tally(s.db.items, HeldOn(x)) == 0 {
      TallyZero(s.db.items, HeldOn(x));
    }
  }

  // Every state of every run satisfies the invariant.
  lemma {:induction false} RunKeeps(cfg: Config, states: seq<State>, actions: seq<Action>, n: nat)
    requires Run(cfg, states, actions) && n < |states| && Inv(cfg, states[0])
    ensures Inv(cfg, states[n])
  {
    if n > 0 {
      RunKeeps(cfg, states, actions, n - 1);
      StepKeeps(cfg, states[n - 1], actions[n - 1]);
    }
  }

  // ---- What holds without any assumption about consumers ----

  // A handler step moves no row to another batch, section, kind or source.
  lemma AdvanceShape(db: Db, job: Job, at: Progress, fault: bool)
    requires Wf(db) && job.batch in db.batches && job == JobOf(db, job.batch)
    ensures SameShape(db, Advance(db, job, at, fault).0)
  {
    match at.phase
    case AtItem(k) => if k < |job.items| { EntryItem(db, job.batch, k); }
    case _ =>
  }

  ghost predicate Shaped(cfg: Config, s: State) {
    ConfigOk(cfg) && s.db.seats.Keys == cfg.catalog.rows.Keys && Wf(s.db)
  }

  lemma ShapedStep(cfg: Config, s: State, a: Action)
    requires Shaped(cfg, s) && Enabled(cfg, s, a)
    ensures Shaped(cfg, Apply(cfg, s, a))
  {
    match a
    case SubmitCreate(sub) =>
      CreateInsertable(cfg, s, sub);
      InsertWf(s.db, sub.batch, CreateBatchOf(cfg, sub));
    case SubmitCancel(sub) =>
      CancelInsertable(cfg, s, sub);
      InsertWf(s.db, sub.batch, CancelBatchOf(cfg, s.db, sub));
    case Work(t, fault) =>
      AdvanceShape(s.db, JobOf(s.db, s.mail[t].batch), s.mail[t].place.at, fault);
      ShapeKeepsWf(s.db, Worked(s, t, fault).db);
    case SettleDead(t, fault) =>
      ShapeKeepsWf(s.db, MarkBatchFailed(s.db, s.mail[t].batch));
    case _ =>
  }

  // The rows of every run fit together, whatever the consumers do.
  lemma {:induction false} ShapedHolds(cfg: Config, states: seq<State>, actions: seq<Action>, n: nat)
    requires Run(cfg, states, actions) && n < |states| && Init(cfg, states[0])
    ensures Shaped(cfg, states[n])
  {
    if n > 0 {
      ShapedHolds(cfg, states, actions, n - 1);
      ShapedStep(cfg, states[n - 1], actions[n - 1]);
    }
  }
}
