// Crash transparency: a handler stopped between any two of its steps and run
// again from the start leaves the tables one uninterrupted run would have left.
module Recovery {
  import opened Prelude
  import opened Tables
  import opened Ledger
  import opened Worker

  const NO_FAULT: nat -> bool := n => false

  // The payload entries are distinct stored items of the batch, and none of
  // them is the source of another.
  ghost predicate Fits(db: Db, job: Job) {
    && job.batch in db.batches
    && (forall k :: 0 <= k < |job.items| ==>
          job.items[k].itemId in db.items && db.items[job.items[k].itemId].batch == job.batch)
    && (forall j, k :: 0 <= j < k < |job.items| ==> job.items[j].itemId != job.items[k].itemId)
    && (forall j, k :: 0 <= j < |job.items| && 0 <= k < |job.items| && job.kind == CANCEL ==>
          job.items[j].source != Some(job.items[k].itemId))
  }

  // What a handler that is never interrupted does to entry `k`.
  function SettleOne(db: Db, job: Job, snapshot: map<ItemId, ItemStatus>, k: nat): Db
    requires k < |job.items| && job.items[k].itemId in db.items
  {
    var i := job.items[k].itemId;
    if !Todo(job, snapshot, k) then db
    else if Fillable(job, k) && Attempt(db, job, k).1 then Attempt(db, job, k).0
    else MarkFailed(db, i)
  }

  // The first `k` entries settled in order.
  function SettleFirst(db: Db, job: Job, snapshot: map<ItemId, ItemStatus>, k: nat): (r: Db)
    requires Fits(db, job) && k <= |job.items|
    ensures Fits(r, job)
  {
    if k == 0 then db
    else SettleOne(SettleFirst(db, job, snapshot, k - 1), job, snapshot, k - 1)
  }

  // Settling touches the status of no entry but its own, and leaves that one settled.
  lemma {:induction false} SettledStatus(db: Db, job: Job, snapshot: map<ItemId, ItemStatus>, k: nat, j: nat)
    requires Fits(db, job) && k <= |job.items| && j < |job.items|
    ensures var before, after := db.items[job.items[j].itemId],
            SettleFirst(db, job, snapshot, k).items[job.items[j].itemId];
            if j < k && Todo(job, snapshot, j) then after.status != Pending else after.status == before.status
  {
    if k > 0 { SettledStatus(db, job, snapshot, k - 1, j); }
  }

  // The whole uninterrupted, fault-free handler.
  function Settle(db: Db, job: Job): Db
    requires Fits(db, job)
  {
    Complete(SettleFirst(db, job, Snapshot(db, job.batch), |job.items|), job.batch)
  }

  // A second run over tables in which the first `k` entries are settled skips
  // those and repeats the rest.
  lemma SecondLook(db: Db, job: Job, k: nat, j: nat)
    requires Fits(db, job) && k <= |job.items| && j < |job.items|
    ensures var first := Snapshot(db, job.batch);
            var second := Snapshot(SettleFirst(db, job, first, k), job.batch);
            Todo(job, second, j) <==> j >= k && Todo(job, first, j)
  {
    SettledStatus(db, job, Snapshot(db, job.batch), k, j);
  }

  lemma OneMore(db: Db, job: Job, snapshot: map<ItemId, ItemStatus>, k: nat)
    requires Fits(db, job) && k < |job.items|
    ensures SettleFirst(db, job, snapshot, k + 1) == SettleOne(SettleFirst(db, job, snapshot, k), job, snapshot, k)
  {
  }

  lemma StepAgrees(a: Db, b: Db, job: Job, s: map<ItemId, ItemStatus>, t: map<ItemId, ItemStatus>, k: nat)
    requires Fits(a, job) && Fits(b, job) && 0 < k <= |job.items|
    requires SettleFirst(a, job, s, k - 1) == SettleFirst(b, job, t, k - 1)
             && Todo(job, s, k - 1) == Todo(job, t, k - 1)
    ensures SettleFirst(a, job, s, k) == SettleFirst(b, job, t, k)
  {
    OneMore(a, job, s, k - 1);
    OneMore(b, job, t, k - 1);
  }

  // `second` reports as settled exactly the first `k` entries and what `first` did.
  ghost predicate SkipsFirst(job: Job, first: map<ItemId, ItemStatus>, second: map<ItemId, ItemStatus>, k: nat) {
    forall j :: 0 <= j < |job.items| ==> (Todo(job, second, j) <==> j >= k && Todo(job, first, j))
  }

  lemma SkipsAt(job: Job, first: map<ItemId, ItemStatus>, second: map<ItemId, ItemStatus>, k: nat, j: nat)
    requires SkipsFirst(job, first, second, k) && k <= j < |job.items|
    ensures Todo(job, second, j) == Todo(job, first, j)
  {
  }

  lemma {:induction false} ResumeSkips(stopped: Db, job: Job, first: map<ItemId, ItemStatus>,
                                       second: map<ItemId, ItemStatus>, k: nat, m: nat)
    requires Fits(stopped, job) && m <= k <= |job.items| && SkipsFirst(job, first, second, k)
    ensures SettleFirst(stopped, job, second, m) == stopped
  {
    if m > 0 {
      ResumeSkips(stopped, job, first, second, k, m - 1);
      OneMore(stopped, job, second, m - 1);
    }
  }

  lemma {:induction false} ResumeRest(db: Db, stopped: Db, job: Job, first: map<ItemId, ItemStatus>,
                                      second: map<ItemId, ItemStatus>, k: nat, m: nat)
    requires Fits(db, job) && Fits(stopped, job) && k <= m <= |job.items| && SkipsFirst(job, first, second, k)
    requires stopped == SettleFirst(db, job, first, k)
    ensures SettleFirst(stopped, job, second, m) == SettleFirst(db, job, first, m)
  {
    if m == k {
      ResumeSkips(stopped, job, first, second, k, k);
    } else {
      ResumeRest(db, stopped, job, first, second, k, m - 1);
      SkipsAt(job, first, second, k, m - 1);
      StepAgrees(stopped, db, job, second, first, m);
    }
  }

  lemma Resume(db: Db, job: Job, k: nat)
    requires Fits(db, job) && k <= |job.items|
    ensures Settle(SettleFirst(db, job, Snapshot(db, job.batch), k), job) == Settle(db, job)
  {
    var first := Snapshot(db, job.batch);
    var stopped := SettleFirst(db, job, first, k);
    var second := Snapshot(stopped, job.batch);
    forall j | 0 <= j < |job.items| ensures Todo(job, second, j) <==> j >= k && Todo(job, first, j) {
      SecondLook(db, job, k, j);
    }
    ResumeRest(db, stopped, job, first, second, k, |job.items|);
  }

  // Where a fault-free handler is after any number of steps.
  ghost predicate Underway(db: Db, job: Job, now: Db, at: Progress)
    requires Fits(db, job)
  {
    var first := Snapshot(db, job.batch);
    match at.phase
    case Loading => now == db && at == START
    case AtItem(k) => k <= |job.items| && job.items != [] && at.snapshot == first
    && now == SettleFirst(db, job, first, k)
    case Marking(k) =>
      k < |job.items| && at.snapshot == first && now == SettleFirst(db, job, first, k) && Todo(job, first, k)
      && (Fillable(job, k) ==> Attempt(now, job, k) == (now, false))
    case Acking => now == Settle(db, job)
    case _ => false
  }

  lemma AtItemUnderway(db: Db, job: Job, now: Db, k: nat)
    requires Fits(db, job) && k < |job.items|
    requires now == SettleFirst(db, job, Snapshot(db, job.batch), k)
    ensures var (next, at) := Advance(now, job, Progress(AtItem(k), Snapshot(db, job.batch)), false);
            Underway(db, job, next, at)
  {
    OneMore(db, job, Snapshot(db, job.batch), k);
  }

  lemma AdvanceUnderway(db: Db, job: Job, now: Db, at: Progress)
    requires Fits(db, job) && Underway(db, job, now, at)
    ensures var (next, at') := Advance(now, job, at, false); Underway(db, job, next, at')
  {
    match at.phase
    case AtItem(k) =>
      if k < |job.items| { AtItemUnderway(db, job, now, k); }
    case Marking(k) =>
      OneMore(db, job, Snapshot(db, job.batch), k);
    case _ =>
  }

  lemma {:induction false} StepsUnderway(db: Db, job: Job, n: nat)
    requires Fits(db, job)
    ensures var (now, at) := Steps(db, job, NO_FAULT, n); Underway(db, job, now, at)
  {
    if n > 0 {
      StepsUnderway(db, job, n - 1);
      var (now, at) := Steps(db, job, NO_FAULT, n - 1);
      AdvanceUnderway(db, job, now, at);
    }
  }

  // Completing the batch changes nothing a second run looks at.
  lemma {:induction false} SettledAgain(db: Db, job: Job, m: nat)
    requires Fits(db, job) && m <= |job.items|
    requires forall k :: 0 <= k < |job.items| ==> db.items[job.items[k].itemId].status != Pending
    ensures SettleFirst(db, job, Snapshot(db, job.batch), m) == db
  {
    if m > 0 { SettledAgain(db, job, m - 1); }
  }

  lemma FinishedAgain(db: Db, job: Job)
    requires Fits(db, job)
    ensures Fits(Settle(db, job), job) && Settle(Settle(db, job), job) == Settle(db, job)
  {
    var done := Settle(db, job);
    var first := Snapshot(db, job.batch);
    forall k | 0 <= k < |job.items| ensures done.items[job.items[k].itemId].status != Pending {
      SettledStatus(db, job, first, |job.items|, k);
    }
    SettledAgain(done, job, |job.items|);
    assert Complete(done, job.batch) == done;
  }

  lemma RerunFrom(db: Db, job: Job, now: Db, at: Progress)
    requires Fits(db, job) && Underway(db, job, now, at)
    ensures Fits(now, job) && Settle(now, job) == Settle(db, job)
  {
    match at.phase
    case Loading =>
    case AtItem(k) => Resume(db, job, k);
    case Marking(k) => Resume(db, job, k);
    case Acking => FinishedAgain(db, job);
  }

  // Stopping after any number of steps and running again gives what one run gives.
  lemma CrashTransparent(db: Db, job: Job, n: nat)
    requires Fits(db, job)
    ensures Fits(Steps(db, job, NO_FAULT, n).0, job)
    ensures Settle(Steps(db, job, NO_FAULT, n).0, job) == Settle(db, job)
  {
    StepsUnderway(db, job, n);
    var (now, at) := Steps(db, job, NO_FAULT, n);
    RerunFrom(db, job, now, at);
  }

  // The same for any number of crashes: `cuts` says after how many steps each
  // attempt but the last stops.
  function AfterCrashes(db: Db, job: Job, cuts: seq<nat>): Db
    decreases |cuts|
  {
    if cuts == [] then db else AfterCrashes(Steps(db, job, NO_FAULT, cuts[0]).0, job, cuts[1..])
  }

  lemma {:induction false} CrashesTransparent(db: Db, job: Job, cuts: seq<nat>)
    requires Fits(db, job)
    ensures Fits(AfterCrashes(db, job, cuts), job)
    ensures Settle(AfterCrashes(db, job, cuts), job) == Settle(db, job)
    decreases |cuts|
  {
    if cuts != [] {
      CrashTransparent(db, job, cuts[0]);
      CrashesTransparent(Steps(db, job, NO_FAULT, cuts[0]).0, job, cuts[1..]);
    }
  }

  // Steps still ahead of a handler.
  function Ahead(job: Job, at: Progress): nat {
    match at.phase
    case Loading => 2 * |job.items| + 2
    case AtItem(k) => if k <= |job.items| then 2 * (|job.items| - k) + 1 else 1
    case Marking(k) => if k < |job.items| then 2 * (|job.items| - k) else 0
    case _ => 0
  }

  // A handler left alone ends, without a fault, in exactly the tables Settle describes.
  lemma {:induction false} RunsToSettle(db: Db, job: Job, n: nat)
    requires Fits(db, job) && n >= 2 * |job.items| + 2
    ensures Steps(db, job, NO_FAULT, n).1.phase == Acking
    ensures Steps(db, job, NO_FAULT, n).0 == Settle(db, job)
  {
    AheadFalls(db, job, n);
    StepsUnderway(db, job, n);
  }

  lemma AheadStep(db: Db, job: Job, n: nat)
    requires Fits(db, job)
    ensures var left := Ahead(job, Steps(db, job, NO_FAULT, n).1);
            Ahead(job, Steps(db, job, NO_FAULT, n + 1).1) <= if left == 0 then 0 else left - 1
  {
    StepsUnderway(db, job, n);
    var (now, at) := Steps(db, job, NO_FAULT, n);
    AdvanceUnderway(db, job, now, at);
    StepsNext(db, job, NO_FAULT, n);
  }

  ghost predicate FallsAt(left: nat -> nat, k: nat) { left(k + 1) <= if left(k) == 0 then 0 else left(k) - 1 }

  // A count that falls by one until it is zero.
  lemma {:induction false} Falls(left: nat -> nat, top: nat, n: nat)
    requires left(0) <= top && forall k: nat :: FallsAt(left, k)
    ensures left(n) <= if n <= top then top - n else 0
  {
    if n > 0 {
      Falls(left, top, n - 1);
      assert FallsAt(left, n - 1);
    }
  }

  lemma AheadFalls(db: Db, job: Job, n: nat)
    requires Fits(db, job)
    ensures Ahead(job, Steps(db, job, NO_FAULT, n).1) <= if n <= 2 * |job.items| + 2 then 2 * |job.items| + 2 - n else 0
  {
    var left := (k: nat) => Ahead(job, Steps(db, job, NO_FAULT, k).1);
    assert Steps(db, job, NO_FAULT, 0).1 == START;
    forall k: nat ensures FallsAt(left, k) { AheadStep(db, job, k); }
    Falls(left, 2 * |job.items| + 2, n);
  }

  // ---- What the two counts of a handler mean ----

  // Entries below `k` that the snapshot has PENDING and whose item has this status now.
  function WithStatus(job: Job, snapshot: map<ItemId, ItemStatus>, db: Db, status: ItemStatus, k: nat): nat
    requires k <= |job.items|
  {
    if k == 0 then 0
    else
      WithStatus(job, snapshot, db, status, k - 1)
      + if Todo(job, snapshot, k - 1) && HasStatus(db, job.items[k - 1].itemId, status) then 1 else 0
  }

  predicate HasStatus(db: Db, i: ItemId, status: ItemStatus) { i in db.items && db.items[i].status == status }

  lemma {:induction false} SameStatuses(job: Job, snapshot: map<ItemId, ItemStatus>, a: Db, b: Db, status: ItemStatus,
                                        k: nat)
    requires k <= |job.items|
    requires forall j :: 0 <= j < k ==>
               (HasStatus(a, job.items[j].itemId, status) <==> HasStatus(b, job.items[j].itemId, status))
    ensures WithStatus(job, snapshot, a, status, k) == WithStatus(job, snapshot, b, status, k)
  {
    if k > 0 { SameStatuses(job, snapshot, a, b, status, k - 1); }
  }

  // The counts of `n` steps are the statuses of the entries gone past.
  ghost predicate CountsMatch(first: map<ItemId, ItemStatus>, job: Job, now: Db, at: Progress, settled: nat,
                              refused: nat) {
    match at.phase
    case Loading => settled == 0 && refused == 0
    case AtItem(k) => k <= |job.items| && at.snapshot == first && CountsAt(first, job, now, k, settled, refused)
    case Marking(k) =>
      k < |job.items| && at.snapshot == first && Todo(job, first, k) && CountsAt(first, job, now, k, settled, refused)
    case Acking => CountsAt(first, job, now, |job.items|, settled, refused)
    case _ => true
  }

  predicate CountsAt(first: map<ItemId, ItemStatus>, job: Job, now: Db, k: nat, settled: nat, refused: nat)
    requires k <= |job.items|
  {
    settled == WithStatus(job, first, now, Success, k) && refused == WithStatus(job, first, now, Failed, k)
  }

  // Only the entry at the position changes its status, and its batch never changes.
  lemma AdvanceElsewhere(db: Db, job: Job, at: Progress, fault: bool)
    requires Fits(db, job)
    ensures var after := Advance(db, job, at, fault).0;
            && Fits(after, job)
            && forall j :: 0 <= j < |job.items| && !((at.phase.AtItem? || at.phase.Marking?) && at.phase.k == j) ==>
                 after.items[job.items[j].itemId].status == db.items[job.items[j].itemId].status
  {
  }

  lemma CountsPastEntry(first: map<ItemId, ItemStatus>, job: Job, a: Db, b: Db, k: nat, settled: nat, refused: nat)
    requires Fits(a, job) && Fits(b, job) && k < |job.items| && CountsAt(first, job, a, k, settled, refused)
    requires forall j :: 0 <= j < k ==> b.items[job.items[j].itemId].status == a.items[job.items[j].itemId].status
    ensures CountsAt(first, job, b, k, settled, refused)
    ensures var status := b.items[job.items[k].itemId].status;
            CountsAt(first, job, b, k + 1, settled + (if Todo(job, first, k) && status == Success then 1 else 0),
                     refused + (if Todo(job, first, k) && status == Failed then 1 else 0))
  {
    SameStatuses(job, first, a, b, Success, k);
    SameStatuses(job, first, a, b, Failed, k);
  }

  lemma CountsStep(db: Db, first: map<ItemId, ItemStatus>, job: Job, at: Progress, fault: bool, settled: nat,
                   refused: nat)
    requires Fits(db, job) && CountsMatch(first, job, db, at, settled, refused)
    requires at.phase == Loading ==> first == Snapshot(db, job.batch)
    ensures var (after, next) := Advance(db, job, at, fault);
            CountsMatch(first, job, after, next, settled + (if Settles(job, at, next) then 1 else 0),
                        refused + (if Refuses(at, next) then 1 else 0))
  {
    AdvanceElsewhere(db, job, at, fault);
    var (after, next) := Advance(db, job, at, fault);
    match at.phase
    case AtItem(k) => if k < |job.items| { CountsPastEntry(first, job, db, after, k, settled, refused); }
      else {
        SameStatuses(job, first, db, after, Success, k);
        SameStatuses(job, first, db, after, Failed, k);
      }
    case Marking(k) => CountsPastEntry(first, job, db, after, k, settled, refused);
    case _ =>
  }

  lemma {:induction false} CountsSoFar(db: Db, job: Job, faults: nat -> bool, n: nat)
    requires Fits(db, job)
    ensures var (now, at) := Steps(db, job, faults, n);
            && Fits(now, job) && (at.phase == Loading ==> now == db)
            && CountsMatch(Snapshot(db, job.batch), job, now, at, SettledBy(db, job, faults, n),
                  RefusedBy(db, job, faults, n))
  {
    if n > 0 {
      CountsSoFar(db, job, faults, n - 1);
      var (now, at) := Steps(db, job, faults, n - 1);
      AdvanceElsewhere(now, job, at, faults(n - 1));
      CountsStep(now, Snapshot(db, job.batch), job, at, faults(n - 1), SettledBy(db, job, faults, n - 1),
                 RefusedBy(db, job, faults, n - 1));
    }
  }

  // Of the entries a finished handler found PENDING, as many are SUCCESS as it
  // counted successes and as many FAILED as it counted failures.
  lemma CountsAreStatuses(db: Db, job: Job, faults: nat -> bool, n: nat)
    requires Fits(db, job) && Steps(db, job, faults, n).1.phase == Acking
    ensures var (now, first) := (Steps(db, job, faults, n).0, Snapshot(db, job.batch));
            && SettledBy(db, job, faults, n) == WithStatus(job, first, now, Success, |job.items|)
            && RefusedBy(db, job, faults, n) == WithStatus(job, first, now, Failed, |job.items|)
  {
    CountsSoFar(db, job, faults, n);
  }

  // A batch built by the API always fits.
  lemma StoredJobFits(db: Db, b: BatchId)
    requires Wf(db) && b in db.batches
    ensures Fits(db, JobOf(db, b))
  {
    var job := JobOf(db, b);
    forall k | 0 <= k < |job.items|
      ensures job.items[k].itemId in db.items && db.items[job.items[k].itemId].batch == b
      ensures db.items[job.items[k].itemId].index == k && ItemWf(db, job.items[k].itemId)
    {
      assert EntryWf(db, b, k);
      assert ItemWf(db, job.items[k].itemId);
    }
    forall j, k | 0 <= j < |job.items| && 0 <= k < |job.items| && job.kind == CANCEL
      ensures job.items[j].source != Some(job.items[k].itemId)
    {
      var i := job.items[j].itemId;
      if job.items[j].source.Some? { assert SourceWf(db, db.items[i], job.items[j].source.value); }
    }
  }

  // Run by the handler methods: whatever happened to earlier attempts, an
  // attempt without faults succeeds and leaves what one clean run leaves.
  method CreateAfterCrashes(tables: RegistrationTables, handler: CreateBatchHandler, job: Job, ghost db: Db,
                            ghost cuts: seq<nat>)
    returns (ok: bool)
    requires handler.tables == tables && job.kind == CREATE && Fits(db, job)
    requires tables.View() == AfterCrashes(db, job, cuts)
    modifies tables
    ensures ok && tables.View() == Settle(db, job)
  {
    CrashesTransparent(db, job, cuts);
    ghost var before := tables.View();
    var succeeded, failed, steps;
    ok, succeeded, failed, steps := handler.Handle(job, NO_FAULT);
    StepsUnderway(before, job, steps);
  }

  method CancelAfterCrashes(tables: RegistrationTables, handler: CancelBatchHandler, job: Job, ghost db: Db,
                            ghost cuts: seq<nat>)
    returns (ok: bool)
    requires handler.tables == tables && job.kind == CANCEL && Fits(db, job)
    requires tables.View() == AfterCrashes(db, job, cuts)
    modifies tables
    ensures ok && tables.View() == Settle(db, job)
  {
    CrashesTransparent(db, job, cuts);
    ghost var before := tables.View();
    var succeeded, failed, steps;
    ok, succeeded, failed, steps := handler.Handle(job, NO_FAULT);
    StepsUnderway(before, job, steps);
  }
}
