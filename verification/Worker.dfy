// The CREATE and CANCEL batch handlers of the worker. `Advance` is one step of
// a handler, with at most one SQL statement in it; the handler methods below
// are proved to be runs of it.
module Worker {
  import opened Prelude
  import opened Tables

  datatype Phase =
    | Loading            // about to load the status snapshot
    | AtItem(k: nat)     // about to settle payload entry k, or to complete when k is past the end
    | Marking(k: nat)    // about to mark entry k FAILED
    | Acking             // batch marked COMPLETED, message not acknowledged yet
    | Failing            // a statement threw out of the handler
    | Republished        // a copy of the message was published, the original is not acknowledged yet

  datatype Progress = Progress(phase: Phase, snapshot: map<ItemId, ItemStatus>)

  const START := Progress(Loading, map[])

  // The snapshot says this entry is still to be settled.
  predicate Todo(job: Job, snapshot: map<ItemId, ItemStatus>, k: nat)
    requires k < |job.items|
  {
    job.items[k].itemId in snapshot && snapshot[job.items[k].itemId] == Pending
  }

  // The entry names everything its statement needs.
  predicate Fillable(job: Job, k: nat)
    requires k < |job.items|
  {
    job.items[k].sectionId.Some? && (job.kind == CANCEL ==> job.items[k].source.Some?)
  }

  // The statement in the try block: the new tables and whether it returned.
  function Attempt(db: Db, job: Job, k: nat): (r: (Db, bool))
    requires k < |job.items| && Fillable(job, k)
  {
    var entry := job.items[k];
    match job.kind
    case CREATE =>
      var (db', left) := Acquire(db, entry.itemId, entry.sectionId.value);
      (db', left.Some?)
    case CANCEL =>
      (Release(db, entry.itemId, entry.sectionId.value, entry.source.value), true)
  }

  // One step. `fault` says that the statement of this step throws without
  // having been applied.
  function Advance(db: Db, job: Job, at: Progress, fault: bool): (Db, Progress) {
    match at.phase
    case Loading =>
      if job.items == [] then Finish(db, job, at, fault)
      else if fault then (db, at.(phase := Failing))
      else (db, Progress(AtItem(0), Snapshot(db, job.batch)))
    case AtItem(k) =>
      if k >= |job.items| then Finish(db, job, at, fault)
      else if !Todo(job, at.snapshot, k) then (db, at.(phase := AtItem(k + 1)))
      else if !Fillable(job, k) || fault then (db, at.(phase := Marking(k)))
      else
        var (db', ok) := Attempt(db, job, k);
        (db', at.(phase := if ok then AtItem(k + 1) else Marking(k)))
    case Marking(k) =>
      if fault || k >= |job.items| || job.items[k].itemId !in db.items then (db, at.(phase := Failing))
      else (MarkFailed(db, job.items[k].itemId), at.(phase := AtItem(k + 1)))
    case _ => (db, at)
  }

  function Finish(db: Db, job: Job, at: Progress, fault: bool): (Db, Progress) {
    if fault || job.batch !in db.batches then (db, at.(phase := Failing))
    else (Complete(db, job.batch), at.(phase := Acking))
  }

  // `n` steps from the start of the handler; faults(i) is the fault of step i.
  function Steps(db: Db, job: Job, faults: nat -> bool, n: nat): (Db, Progress) {
    if n == 0 then (db, START)
    else
      var (db', at) := Steps(db, job, faults, n - 1);
      Advance(db', job, at, faults(n - 1))
  }

  // A step that settles an entry, and one that marks an entry FAILED.
  predicate Settles(job: Job, at: Progress, next: Progress) {
    && at.phase.AtItem? && at.phase.k < |job.items| && Todo(job, at.snapshot, at.phase.k)
    && next.phase == AtItem(at.phase.k + 1)
  }

  predicate Refuses(at: Progress, next: Progress) { at.phase.Marking? && next.phase.AtItem? }

  // How many of the first `n` steps did so.
  function SettledBy(db: Db, job: Job, faults: nat -> bool, n: nat): nat {
    if n == 0 then 0
    else
      SettledBy(db, job, faults, n - 1)
      + if Settles(job, Steps(db, job, faults, n - 1).1, Steps(db, job, faults, n).1) then 1 else 0
  }

  function RefusedBy(db: Db, job: Job, faults: nat -> bool, n: nat): nat {
    if n == 0 then 0
    else
      RefusedBy(db, job, faults, n - 1)
      + if Refuses(Steps(db, job, faults, n - 1).1, Steps(db, job, faults, n).1) then 1 else 0
  }

  lemma StepsNext(before: Db, job: Job, faults: nat -> bool, n: nat)
    ensures var (mid, at) := Steps(before, job, faults, n);
            Steps(before, job, faults, n + 1) == Advance(mid, job, at, faults(n))
  {
  }

  // One more step, from a known state to a known state.
  lemma CountsNext(before: Db, job: Job, faults: nat -> bool, n: nat, at: Progress, next: Progress)
    requires Steps(before, job, faults, n).1 == at && Steps(before, job, faults, n + 1).1 == next
    ensures SettledBy(before, job, faults, n + 1) ==
            SettledBy(before, job, faults, n) + if Settles(job, at, next) then 1 else 0
    ensures RefusedBy(before, job, faults, n + 1) ==
            RefusedBy(before, job, faults, n) + if Refuses(at, next) then 1 else 0
  {
  }

  // What an entry adds to the counts in one step, and in two.
  lemma CountsOne(before: Db, job: Job, faults: nat -> bool, n: nat, snapshot: map<ItemId, ItemStatus>, k: nat,
                  outcome: Outcome)
    requires k < |job.items| && outcome == if Todo(job, snapshot, k) then Settled else Skipped
    requires Steps(before, job, faults, n).1 == Progress(AtItem(k), snapshot)
    requires Steps(before, job, faults, n + 1).1 == Progress(AtItem(k + 1), snapshot)
    ensures SettledBy(before, job, faults, n + 1) ==
            SettledBy(before, job, faults, n) + if outcome == Settled then 1 else 0
    ensures RefusedBy(before, job, faults, n + 1) == RefusedBy(before, job, faults, n)
  {
    CountsNext(before, job, faults, n, Progress(AtItem(k), snapshot), Progress(AtItem(k + 1), snapshot));
  }

  lemma CountsTwo(before: Db, job: Job, faults: nat -> bool, n: nat, snapshot: map<ItemId, ItemStatus>, k: nat,
                  outcome: Outcome)
    requires outcome == Refused || outcome == Threw
    requires Steps(before, job, faults, n).1 == Progress(AtItem(k), snapshot)
    requires Steps(before, job, faults, n + 1).1 == Progress(Marking(k), snapshot)
    requires Steps(before, job, faults, n + 2).1 ==
             Progress(if outcome == Threw then Failing else AtItem(k + 1), snapshot)
    ensures SettledBy(before, job, faults, n + 2) == SettledBy(before, job, faults, n)
    ensures RefusedBy(before, job, faults, n + 2) ==
            RefusedBy(before, job, faults, n) + if outcome == Refused then 1 else 0
  {
    CountsNext(before, job, faults, n, Progress(AtItem(k), snapshot), Progress(Marking(k), snapshot));
    CountsNext(before, job, faults, n + 1, Progress(Marking(k), snapshot),
               Progress(if outcome == Threw then Failing else AtItem(k + 1), snapshot));
  }

  // The steps of one entry, in one go.
  lemma StepsPast(before: Db, job: Job, faults: nat -> bool, n: nat, snapshot: map<ItemId, ItemStatus>, k: nat,
                  mid: Db, after: Db, outcome: Outcome, used: nat)
    requires k < |job.items| && Steps(before, job, faults, n) == (mid, Progress(AtItem(k), snapshot))
    requires ItemSteps(mid, job, snapshot, k, faults, n, after, outcome, used)
    ensures Steps(before, job, faults, n + 1) == Advance(mid, job, Progress(AtItem(k), snapshot), faults(n))
    ensures Steps(before, job, faults, n + used) ==
            (after, Progress(if outcome == Threw then Failing else AtItem(k + 1), snapshot))
  {
    StepsNext(before, job, faults, n);
    if used == 2 { StepsNext(before, job, faults, n + 1); }
  }

  lemma EntryPast(before: Db, job: Job, faults: nat -> bool, n: nat, snapshot: map<ItemId, ItemStatus>, k: nat,
                  mid: Db, after: Db, outcome: Outcome, used: nat)
    requires k < |job.items| && Steps(before, job, faults, n) == (mid, Progress(AtItem(k), snapshot))
    requires ItemSteps(mid, job, snapshot, k, faults, n, after, outcome, used)
    ensures Steps(before, job, faults, n + used) ==
            (after, Progress(if outcome == Threw then Failing else AtItem(k + 1), snapshot))
    ensures SettledBy(before, job, faults, n + used) ==
            SettledBy(before, job, faults, n) + if outcome == Settled then 1 else 0
    ensures RefusedBy(before, job, faults, n + used) ==
            RefusedBy(before, job, faults, n) + if outcome == Refused then 1 else 0
  {
    StepsPast(before, job, faults, n, snapshot, k, mid, after, outcome, used);
    if used == 1 {
      CountsOne(before, job, faults, n, snapshot, k, outcome);
    } else {
      CountsTwo(before, job, faults, n, snapshot, k, outcome);
    }
  }

  lemma StepsFinish(before: Db, job: Job, faults: nat -> bool, n: nat, snapshot: map<ItemId, ItemStatus>, mid: Db)
    requires Steps(before, job, faults, n) == (mid, Progress(AtItem(|job.items|), snapshot))
    ensures Steps(before, job, faults, n + 1) == Finish(mid, job, Progress(AtItem(|job.items|), snapshot), faults(n))
    ensures SettledBy(before, job, faults, n + 1) == SettledBy(before, job, faults, n)
    ensures RefusedBy(before, job, faults, n + 1) == RefusedBy(before, job, faults, n)
  {
  }

  lemma StepsLoad(before: Db, job: Job, faults: nat -> bool)
    requires job.items != []
    ensures Steps(before, job, faults, 1) ==
            (before, if faults(0) then START.(phase := Failing) else Progress(AtItem(0), Snapshot(before, job.batch)))
    ensures SettledBy(before, job, faults, 1) == 0 && RefusedBy(before, job, faults, 1) == 0
  {
    NothingYet(before, job, faults);
  }

  lemma StepsEmpty(before: Db, job: Job, faults: nat -> bool)
    requires job.items == []
    ensures Steps(before, job, faults, 1) == Finish(before, job, START, faults(0))
    ensures SettledBy(before, job, faults, 1) == 0 && RefusedBy(before, job, faults, 1) == 0
  {
    NothingYet(before, job, faults);
  }

  lemma NothingYet(before: Db, job: Job, faults: nat -> bool)
    ensures Steps(before, job, faults, 0) == (before, START)
    ensures SettledBy(before, job, faults, 1) == 0 && RefusedBy(before, job, faults, 1) == 0
  {
    assert SettledBy(before, job, faults, 0) == 0 && RefusedBy(before, job, faults, 0) == 0;
  }

  // Payload entries from `k` on that the snapshot reports PENDING.
  function TodoFrom(job: Job, snapshot: map<ItemId, ItemStatus>, k: nat): nat
    requires k <= |job.items|
    decreases |job.items| - k
  {
    if k == |job.items| then 0
    else (if Todo(job, snapshot, k) then 1 else 0) + TodoFrom(job, snapshot, k + 1)
  }

  // ---- The tables and their statements ----

  class RegistrationTables {
    var seats: map<SectionId, Seat>
    var items: map<ItemId, Item>
    var batches: map<BatchId, Batch>

    function View(): Db
      reads this
    {
      Db(seats, items, batches)
    }

    constructor (db: Db)
      ensures View() == db
    {
      seats, items, batches := db.seats, db.items, db.batches;
    }

    // One CTE. None stands for the "section is full" error: no seat was free, or
    // one was taken and there was no row to mark.
    method AcquireSlotAndMarkSuccess(item: ItemId, section: SectionId) returns (left: Option<int>)
      modifies this
      ensures View() == Acquire(old(View()), item, section).0
      ensures left == Acquire(old(View()), item, section).1
      ensures left.None? <==>
                section !in old(seats) || old(seats)[section].slDk >= old(seats)[section].slMax || item !in old(items)
      ensures left.None? ==> items == old(items)
      ensures left.Some? ==>
        && seats[section].slDk == old(seats)[section].slDk + 1
           && left.value == seats[section].slMax - seats[section].slDk
        && items[item].status == Success && items[item].remaining == left
      ensures seats.Keys == old(seats).Keys && forall s :: s in seats && s != section ==> seats[s] == old(seats)[s]
      ensures items.Keys == old(items).Keys && forall i :: i in items && i != item ==> items[i] == old(items)[i]
      ensures batches == old(batches)
    {
      left := None;
      if section in seats && seats[section].slDk < seats[section].slMax {
        seats := seats[section := seats[section].(slDk := seats[section].slDk + 1)];
        if item in items {
          left := Some(seats[section].slMax - seats[section].slDk);
          items := items[item := items[item].(status := Success, remaining := left, held := items[item].held + 1)];
        }
      }
    }

    method ReleaseSlotAndMarkItems(item: ItemId, section: SectionId, source: ItemId) returns (remaining: int)
      modifies this
      ensures View() == Release(old(View()), item, section, source)
      ensures section in old(seats) ==>
        seats[section].slDk == if old(seats)[section].slDk > 0 then old(seats)[section].slDk - 1 else 0
      ensures item in old(items) ==> items[item].status == Success
      ensures source in old(items) && source != item ==> items[source].status == Cancelled
      ensures seats.Keys == old(seats).Keys && forall s :: s in seats && s != section ==> seats[s] == old(seats)[s]
      ensures items.Keys == old(items).Keys && forall i :: i in items && i != item && i != source ==>
                items[i] == old(items)[i]
      ensures batches == old(batches)
      ensures item in old(items) && section in old(seats) ==> remaining == seats[section].slMax - seats[section].slDk
      ensures item !in old(items) || section !in old(seats) ==> remaining == 0
    {
      var left := None;
      if section in seats {
        seats := seats[section := seats[section].(slDk := Clamped(seats[section].slDk))];
        left := Some(seats[section].slMax - seats[section].slDk);
      }
      if source in items {
        items := items[source :=
          items[source].(status := Cancelled, remaining := left, held := items[source].held - 1)];
      }
      remaining := 0;
      if item in items {
        items := items[item := items[item].(status := Success, remaining := left)];
        if left.Some? { remaining := left.value; }
      }
    }

    method MarkItemFailed(item: ItemId) returns (ok: bool)
      modifies this`items
      ensures ok == (item in old(items))
      ensures View() == if ok then MarkFailed(old(View()), item) else old(View())
      ensures ok ==> items[item] == old(items)[item].(status := Failed)
      ensures items.Keys == old(items).Keys && forall i :: i in items && i != item ==> items[i] == old(items)[i]
    {
      ok := item in items;
      if ok { items := items[item := items[item].(status := Failed)]; }
    }

    method CompleteBatch(b: BatchId) returns (ok: bool)
      modifies this`batches
      ensures ok == (b in old(batches))
      ensures View() == if ok then Complete(old(View()), b) else old(View())
    {
      ok := b in batches;
      if ok { batches := batches[b := batches[b].(status := Completed)]; }
    }

    // The dead-letter transaction; it throws when the batch does not exist.
    method MarkBatchFailed(b: BatchId) returns (ok: bool)
      modifies this
      ensures ok == (b in old(batches))
      ensures View() == if ok then Tables.MarkBatchFailed(old(View()), b) else old(View())
      ensures ok ==> batches[b].status == Completed && forall i :: i in items && items[i].batch == b ==>
                items[i].status != Pending
      ensures items.Keys == old(items).Keys && seats == old(seats)
      ensures forall i :: i in items && !(ok && old(items)[i].batch == b && old(items)[i].status == Pending) ==>
                items[i] == old(items)[i]
    {
      ok := b in batches;
      if ok {
        items := map i | i in items :: FailPending(items[i], b);
        batches := batches[b := batches[b].(status := Completed)];
      }
    }

    method FindItemStatuses(b: BatchId) returns (snapshot: map<ItemId, ItemStatus>)
      ensures snapshot == Snapshot(View(), b)
    {
      snapshot := map i | i in items && items[i].batch == b :: items[i].status;
    }
  }

  // ---- The handlers ----

  datatype Outcome = Skipped | Settled | Refused | Threw

  // What settling entry `k` does, as one or two steps starting with step `n`.
  ghost predicate ItemSteps(before: Db, job: Job, snapshot: map<ItemId, ItemStatus>, k: nat, faults: nat -> bool,
                            n: nat, after: Db, outcome: Outcome, used: nat)
    requires k < |job.items|
  {
    var (db1, at1) := Advance(before, job, Progress(AtItem(k), snapshot), faults(n));
    var end := Progress(if outcome == Threw then Failing else AtItem(k + 1), snapshot);
    && (outcome == Skipped <==> !Todo(job, snapshot, k))
    && used == (if outcome == Skipped || outcome == Settled then 1 else 2)
    && (used == 1 ==> (db1, at1) == (after, end))
    && (used == 2 ==> at1.phase == Marking(k) && Advance(db1, job, at1, faults(n + 1)) == (after, end))
  }

  // Both handlers return false when a statement throws out of them, and the
  // number of steps they took. `faults` decides which statements throw.

  class CreateBatchHandler {
    const tables: RegistrationTables

    constructor (tables: RegistrationTables)
      ensures this.tables == tables
    {
      this.tables := tables;
    }

    method Handle(job: Job, faults: nat -> bool) returns (ok: bool, successCount: nat, failCount: nat, steps: nat)
      requires job.kind == CREATE
      modifies tables
      ensures tables.View() == Steps(old(tables.View()), job, faults, steps).0
      ensures Steps(old(tables.View()), job, faults, steps).1.phase == if ok then Acking else Failing
      ensures successCount == SettledBy(old(tables.View()), job, faults, steps)
      ensures failCount == RefusedBy(old(tables.View()), job, faults, steps)
      ensures ok && job.items != [] ==>
                successCount + failCount == TodoFrom(job, Snapshot(old(tables.View()), job.batch), 0)
    {
      ok, successCount, failCount, steps := false, 0, 0, 0;
      ghost var before := tables.View();
      if job.items == [] {
        StepsEmpty(before, job, faults);
        if !faults(0) { ok := tables.CompleteBatch(job.batch); }
        steps := 1;
        return;
      }
      StepsLoad(before, job, faults);
      steps := 1;
      if faults(0) { return; }
      var statusMap := tables.FindItemStatuses(job.batch);
      ok, successCount, failCount, steps := SettleItems(job, statusMap, faults, before);
    }

    // The loop over the payload and the final batch update.
    method SettleItems(job: Job, statusMap: map<ItemId, ItemStatus>, faults: nat -> bool, ghost before: Db)
      returns (ok: bool, successCount: nat, failCount: nat, steps: nat)
      requires job.kind == CREATE
      requires Steps(before, job, faults, 1) == (tables.View(), Progress(AtItem(0), statusMap))
      requires SettledBy(before, job, faults, 1) == 0 && RefusedBy(before, job, faults, 1) == 0
      modifies tables
      ensures tables.View() == Steps(before, job, faults, steps).0
      ensures Steps(before, job, faults, steps).1.phase == if ok then Acking else Failing
      ensures successCount == SettledBy(before, job, faults, steps)
              && failCount == RefusedBy(before, job, faults, steps)
      ensures ok ==> successCount + failCount == TodoFrom(job, statusMap, 0)
    {
      ok, successCount, failCount, steps := false, 0, 0, 1;
      var k := 0;
      while k < |job.items|
        invariant k <= |job.items|
        invariant Steps(before, job, faults, steps) == (tables.View(), Progress(AtItem(k), statusMap))
        invariant successCount == SettledBy(before, job, faults, steps)
        invariant failCount == RefusedBy(before, job, faults, steps)
        invariant successCount + failCount + TodoFrom(job, statusMap, k) == TodoFrom(job, statusMap, 0)
      {
        var outcome;
        outcome, steps := SettleItem(job, statusMap, k, faults, steps, before);
        match outcome {
          case Skipped => {}
          case Settled => successCount := successCount + 1;
          case Refused => failCount := failCount + 1;
          case Threw => return;
        }
        k := k + 1;
      }
      StepsFinish(before, job, faults, steps, statusMap, tables.View());
      if !faults(steps) { ok := tables.CompleteBatch(job.batch); }
      steps := steps + 1;
    }

    // The loop body.
    method SettleItem(job: Job, statusMap: map<ItemId, ItemStatus>, k: nat, faults: nat -> bool, n: nat,
                      ghost before: Db)
      returns (outcome: Outcome, m: nat)
      requires job.kind == CREATE && k < |job.items|
      requires Steps(before, job, faults, n) == (tables.View(), Progress(AtItem(k), statusMap))
      modifies tables
      ensures outcome == Skipped <==> !Todo(job, statusMap, k)
      ensures Steps(before, job, faults, m) ==
              (tables.View(), Progress(if outcome == Threw then Failing else AtItem(k + 1), statusMap))
      ensures SettledBy(before, job, faults, m) ==
              SettledBy(before, job, faults, n) + if outcome == Settled then 1 else 0
      ensures RefusedBy(before, job, faults, m) ==
              RefusedBy(before, job, faults, n) + if outcome == Refused then 1 else 0
    {
      ghost var mid := tables.View();
      var used;
      outcome, used := TrySettle(job, statusMap, k, faults, n);
      EntryPast(before, job, faults, n, statusMap, k, mid, tables.View(), outcome, used);
      m := n + used;
    }

    method TrySettle(job: Job, statusMap: map<ItemId, ItemStatus>, k: nat, faults: nat -> bool, n: nat)
      returns (outcome: Outcome, used: nat)
      requires job.kind == CREATE && k < |job.items|
      modifies tables
      ensures ItemSteps(old(tables.View()), job, statusMap, k, faults, n, tables.View(), outcome, used)
    {
      var entry := job.items[k];
      if entry.itemId !in statusMap || statusMap[entry.itemId] != Pending {
        return Skipped, 1;
      }
      if entry.sectionId.Some? && !faults(n) {
        var left := tables.AcquireSlotAndMarkSuccess(entry.itemId, entry.sectionId.value);
        if left.Some? {
          return Settled, 1;
        }
      }
      if !faults(n + 1) {
        var marked := tables.MarkItemFailed(entry.itemId);
        if marked {
          return Refused, 2;
        }
      }
      return Threw, 2;
    }
  }

  class CancelBatchHandler {
    const tables: RegistrationTables

    constructor (tables: RegistrationTables)
      ensures this.tables == tables
    {
      this.tables := tables;
    }

    method Handle(job: Job, faults: nat -> bool) returns (ok: bool, successCount: nat, failCount: nat, steps: nat)
      requires job.kind == CANCEL
      modifies tables
      ensures tables.View() == Steps(old(tables.View()), job, faults, steps).0
      ensures Steps(old(tables.View()), job, faults, steps).1.phase == if ok then Acking else Failing
      ensures successCount == SettledBy(old(tables.View()), job, faults, steps)
      ensures failCount == RefusedBy(old(tables.View()), job, faults, steps)
      ensures ok && job.items != [] ==>
                successCount + failCount == TodoFrom(job, Snapshot(old(tables.View()), job.batch), 0)
    {
      ok, successCount, failCount, steps := false, 0, 0, 0;
      ghost var before := tables.View();
      if job.items == [] {
        StepsEmpty(before, job, faults);
        if !faults(0) { ok := tables.CompleteBatch(job.batch); }
        steps := 1;
        return;
      }
      StepsLoad(before, job, faults);
      steps := 1;
      if faults(0) { return; }
      var statusMap := tables.FindItemStatuses(job.batch);
      ok, successCount, failCount, steps := SettleItems(job, statusMap, faults, before);
    }

    // The loop over the payload and the final batch update.
    method SettleItems(job: Job, statusMap: map<ItemId, ItemStatus>, faults: nat -> bool, ghost before: Db)
      returns (ok: bool, successCount: nat, failCount: nat, steps: nat)
      requires job.kind == CANCEL
      requires Steps(before, job, faults, 1) == (tables.View(), Progress(AtItem(0), statusMap))
      requires SettledBy(before, job, faults, 1) == 0 && RefusedBy(before, job, faults, 1) == 0
      modifies tables
      ensures tables.View() == Steps(before, job, faults, steps).0
      ensures Steps(before, job, faults, steps).1.phase == if ok then Acking else Failing
      ensures successCount == SettledBy(before, job, faults, steps)
              && failCount == RefusedBy(before, job, faults, steps)
      ensures ok ==> successCount + failCount == TodoFrom(job, statusMap, 0)
    {
      ok, successCount, failCount, steps := false, 0, 0, 1;
      var k := 0;
      while k < |job.items|
        invariant k <= |job.items|
        invariant Steps(before, job, faults, steps) == (tables.View(), Progress(AtItem(k), statusMap))
        invariant successCount == SettledBy(before, job, faults, steps)
        invariant failCount == RefusedBy(before, job, faults, steps)
        invariant successCount + failCount + TodoFrom(job, statusMap, k) == TodoFrom(job, statusMap, 0)
      {
        var outcome;
        outcome, steps := SettleItem(job, statusMap, k, faults, steps, before);
        match outcome {
          case Skipped => {}
          case Settled => successCount := successCount + 1;
          case Refused => failCount := failCount + 1;
          case Threw => return;
        }
        k := k + 1;
      }
      StepsFinish(before, job, faults, steps, statusMap, tables.View());
      if !faults(steps) { ok := tables.CompleteBatch(job.batch); }
      steps := steps + 1;
    }

    // The loop body.
    method SettleItem(job: Job, statusMap: map<ItemId, ItemStatus>, k: nat, faults: nat -> bool, n: nat,
                      ghost before: Db)
      returns (outcome: Outcome, m: nat)
      requires job.kind == CANCEL && k < |job.items|
      requires Steps(before, job, faults, n) == (tables.View(), Progress(AtItem(k), statusMap))
      modifies tables
      ensures outcome == Skipped <==> !Todo(job, statusMap, k)
      ensures Steps(before, job, faults, m) ==
              (tables.View(), Progress(if outcome == Threw then Failing else AtItem(k + 1), statusMap))
      ensures SettledBy(before, job, faults, m) ==
              SettledBy(before, job, faults, n) + if outcome == Settled then 1 else 0
      ensures RefusedBy(before, job, faults, m) ==
              RefusedBy(before, job, faults, n) + if outcome == Refused then 1 else 0
    {
      ghost var mid := tables.View();
      var used;
      outcome, used := TrySettle(job, statusMap, k, faults, n);
      EntryPast(before, job, faults, n, statusMap, k, mid, tables.View(), outcome, used);
      m := n + used;
    }

    method TrySettle(job: Job, statusMap: map<ItemId, ItemStatus>, k: nat, faults: nat -> bool, n: nat)
      returns (outcome: Outcome, used: nat)
      requires job.kind == CANCEL && k < |job.items|
      modifies tables
      ensures ItemSteps(old(tables.View()), job, statusMap, k, faults, n, tables.View(), outcome, used)
    {
      var entry := job.items[k];
      if entry.itemId !in statusMap || statusMap[entry.itemId] != Pending {
        return Skipped, 1;
      }
      if entry.sectionId.Some? && entry.source.Some? && !faults(n) {
        var _ := tables.ReleaseSlotAndMarkItems(entry.itemId, entry.sectionId.value, entry.source.value);
        return Settled, 1;
      }
      if !faults(n + 1) {
        var marked := tables.MarkItemFailed(entry.itemId);
        if marked {
          return Refused, 2;
        }
      }
      return Threw, 2;
    }
  }
}
