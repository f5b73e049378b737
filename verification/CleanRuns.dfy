// What a handler that meets no fault leaves behind, row by row and seat by seat.
module CleanRuns {
  import opened Prelude
  import opened Tables
  import opened Ledger
  import opened Worker
  import opened Recovery
  import opened Safety

  // A PENDING item of the batch whose payload entry comes before `n`.
  predicate Waits(db: Db, b: BatchId, n: nat, i: ItemId) {
    i in db.items && db.items[i].batch == b && db.items[i].status == Pending && db.items[i].index < n
  }

  lemma EntryAt(db: Db, b: BatchId, n: nat)
    requires Wf(db) && b in db.batches && n < |db.batches[b].payload|
    ensures var i := db.batches[b].payload[n].itemId;
            && i in db.items && db.items[i].batch == b && db.items[i].index == n && db.items[i].section in db.seats
            && db.batches[b].payload[n] == JobItem(i, Some(db.items[i].section), db.items[i].source)
            && db.items[i].kind == db.batches[b].kind
  {
    assert EntryWf(db, b, n);
    assert ItemWf(db, db.batches[b].payload[n].itemId);
  }

  // Position `n` belongs to one item.
  lemma OneAt(db: Db, b: BatchId, n: nat, i: ItemId)
    requires Wf(db) && b in db.batches && n < |db.batches[b].payload|
    requires i in db.items && db.items[i].batch == b && db.items[i].index == n
    ensures i == db.batches[b].payload[n].itemId
  {
    assert ItemWf(db, i);
  }

  // ---- CANCEL ----

  // Such an item names the registration it gives up.
  predicate GivesBack(db: Db, b: BatchId, n: nat, c: ItemId) { Waits(db, b, n, c) && db.items[c].source.Some? }

  ghost predicate SeatBack(db: Db, b: BatchId, n: nat, s: SectionId) {
    exists c :: GivesBack(db, b, n, c) && db.items[c].section == s
  }

  ghost predicate GivenUp(db: Db, b: BatchId, n: nat, i: ItemId) {
    exists c :: GivesBack(db, b, n, c) && db.items[c].source == Some(i)
  }

  // One seat less, never below zero.
  function Lowered(seat: Seat): Seat { Seat(seat.slMax, if seat.slDk > 0 then seat.slDk - 1 else 0) }

  function LeftAfterRelease(seat: Seat): Option<int> { Some(seat.slMax - Lowered(seat).slDk) }

  // The row of an item once the first `n` entries are settled.
  ghost function AfterCancel(db: Db, b: BatchId, n: nat, i: ItemId): Item
    requires i in db.items && (db.items[i].section in db.seats)
  {
    var it := db.items[i];
    if GivesBack(db, b, n, i) then it.(status := Success, remaining := LeftAfterRelease(db.seats[it.section]))
    else if Waits(db, b, n, i) then it.(status := Failed)
    else if GivenUp(db, b, n, i) then
      it.(status := Cancelled, remaining := LeftAfterRelease(db.seats[it.section]), held := it.held - 1)
    else it
  }

  ghost predicate CancelledSoFar(db: Db, b: BatchId, n: nat, now: Db) {
    && now.batches == db.batches && now.seats.Keys == db.seats.Keys && now.items.Keys == db.items.Keys
    && (forall s :: s in db.seats ==> now.seats[s] == if SeatBack(db, b, n, s) then Lowered(db.seats[s])
    else db.seats[s])
    && (forall i :: i in db.items && db.items[i].section in db.seats ==> now.items[i] == AfterCancel(db, b, n, i))
  }

  lemma RowsHaveSeats(db: Db)
    requires Wf(db)
    ensures forall i :: i in db.items ==> db.items[i].section in db.seats
  {
    forall i | i in db.items ensures db.items[i].section in db.seats { assert ItemWf(db, i); }
  }

  // Items that give back one seat, or give up one registration, are the same item.
  lemma SameGiver(db: Db, b: BatchId, c: ItemId, d: ItemId, n: nat)
    requires Wf(db) && GivesBack(db, b, n, c) && GivesBack(db, b, n, d)
    requires db.items[c].section == db.items[d].section || db.items[c].source == db.items[d].source
    ensures c == d
  {
    assert ItemWf(db, c) && ItemWf(db, d);
    assert SourceWf(db, db.items[c], db.items[c].source.value) && SourceWf(db, db.items[d], db.items[d].source.value);
    assert SameSlot(db.items[c], db.items[d]);
  }

  lemma SourceElsewhere(db: Db, b: BatchId, n: nat, c: ItemId)
    requires Wf(db) && b in db.batches && db.batches[b].kind == CANCEL && GivesBack(db, b, n, c)
    ensures var src := db.items[c].source.value;
            src in db.items && db.items[src].batch != b && db.items[src].section == db.items[c].section
  {
    assert ItemWf(db, c);
    assert SourceWf(db, db.items[c], db.items[c].source.value);
    assert ItemWf(db, db.items[c].source.value);
  }

  // The seat of entry `n` and its source are as they were before the first entry.
  lemma UntilEntry(db: Db, b: BatchId, n: nat, now: Db)
    requires Wf(db) && b in db.batches && db.batches[b].kind == CANCEL && n < |db.batches[b].payload|
    requires CancelledSoFar(db, b, n, now)
    ensures var i := db.batches[b].payload[n].itemId;
            && i in db.items && db.items[i].section in db.seats && now.items[i] == db.items[i]
            && (GivesBack(db, b, n + 1, i) ==>
                  && db.items[i].source.value in db.items
                  && now.seats[db.items[i].section] == db.seats[db.items[i].section]
                  && now.items[db.items[i].source.value] == db.items[db.items[i].source.value])
  {
    EntryAt(db, b, n);
    RowsHaveSeats(db);
    var i := db.batches[b].payload[n].itemId;
    if GivenUp(db, b, n, i) {
      var c :| GivesBack(db, b, n, c) && db.items[c].source == Some(i);
      SourceElsewhere(db, b, n, c);
    }
    if GivesBack(db, b, n + 1, i) {
      SourceElsewhere(db, b, n + 1, i);
      if SeatBack(db, b, n, db.items[i].section) {
        var c :| GivesBack(db, b, n, c) && db.items[c].section == db.items[i].section;
        SameGiver(db, b, c, i, n + 1);
      }
      if GivenUp(db, b, n, db.items[i].source.value) {
        var c :| GivesBack(db, b, n, c) && db.items[c].source == db.items[i].source;
        SameGiver(db, b, c, i, n + 1);
      }
    }
  }

  // Settling one more entry.
  lemma CancelOneMore(db: Db, b: BatchId, n: nat, now: Db)
    requires Wf(db) && b in db.batches && db.batches[b].kind == CANCEL && n < |db.batches[b].payload|
    requires CancelledSoFar(db, b, n, now)
    ensures db.batches[b].payload[n].itemId in now.items
    ensures CancelledSoFar(db, b, n + 1, SettleOne(now, JobOf(db, b), Snapshot(db, b), n))
  {
    EntryAt(db, b, n);
    UntilEntry(db, b, n, now);
    RowsHaveSeats(db);
    var i := db.batches[b].payload[n].itemId;
    var after := SettleOne(now, JobOf(db, b), Snapshot(db, b), n);
    WaitsMore(db, b, n);
    if GivesBack(db, b, n + 1, i) {
      OneMoreBack(db, b, n, now, after, i);
    } else {
      OneMoreRefused(db, b, n, now, after, i);
    }
  }

  lemma WaitsMore(db: Db, b: BatchId, n: nat)
    requires Wf(db) && b in db.batches && n < |db.batches[b].payload|
    ensures var i := db.batches[b].payload[n].itemId;
            !Waits(db, b, n, i)
            && forall j :: Waits(db, b, n + 1, j) <==>
                 Waits(db, b, n, j) || (j == i && i in db.items && db.items[i].status == Pending)
  {
    EntryAt(db, b, n);
    var i := db.batches[b].payload[n].itemId;
    forall j ensures Waits(db, b, n + 1, j) <==> Waits(db, b, n, j) || (j == i && db.items[i].status == Pending) {
      if Waits(db, b, n + 1, j) && db.items[j].index == n { OneAt(db, b, n, j); }
    }
  }

  lemma OneMoreRefused(db: Db, b: BatchId, n: nat, now: Db, after: Db, i: ItemId)
    requires CancelledSoFar(db, b, n, now) && !GivesBack(db, b, n + 1, i) && !Waits(db, b, n, i)
    requires i in db.items && now.items[i] == db.items[i]
    requires forall j :: Waits(db, b, n + 1, j) <==> Waits(db, b, n, j) || (j == i && db.items[i].status == Pending)
    requires after == if db.items[i].status == Pending then MarkFailed(now, i) else now
    ensures CancelledSoFar(db, b, n + 1, after)
  {
    NoneMoreBack(db, b, n, i);
  }

  lemma OneMoreBack(db: Db, b: BatchId, n: nat, now: Db, after: Db, i: ItemId)
    requires Wf(db) && b in db.batches && db.batches[b].kind == CANCEL
    requires CancelledSoFar(db, b, n, now) && GivesBack(db, b, n + 1, i) && !Waits(db, b, n, i)
    requires forall j :: Waits(db, b, n + 1, j) <==> Waits(db, b, n, j) || j == i
    requires db.items[i].section in db.seats && now.items[i] == db.items[i]
    requires now.seats[db.items[i].section] == db.seats[db.items[i].section]
    requires db.items[i].source.value in db.items
             && now.items[db.items[i].source.value] == db.items[db.items[i].source.value]
    requires after == Release(now, i, db.items[i].section, db.items[i].source.value)
    ensures CancelledSoFar(db, b, n + 1, after)
  {
    var src := db.items[i].source.value;
    SourceElsewhere(db, b, n + 1, i);
    assert SeatBack(db, b, n + 1, db.items[i].section) && GivenUp(db, b, n + 1, src);
    forall s | s != db.items[i].section ensures SeatBack(db, b, n + 1, s) <==> SeatBack(db, b, n, s) {
      if SeatBack(db, b, n, s) {
        var c :| GivesBack(db, b, n, c) && db.items[c].section == s;
        assert GivesBack(db, b, n + 1, c);
      }
    }
    forall j: ItemId | j != src ensures GivenUp(db, b, n + 1, j) <==> GivenUp(db, b, n, j) {
      if GivenUp(db, b, n, j) {
        var c :| GivesBack(db, b, n, c) && db.items[c].source == Some(j);
        assert GivesBack(db, b, n + 1, c);
      }
    }
  }

  lemma NoneMoreBack(db: Db, b: BatchId, n: nat, i: ItemId)
    requires !GivesBack(db, b, n + 1, i)
    requires forall j :: Waits(db, b, n + 1, j) ==> Waits(db, b, n, j) || j == i
    ensures forall j :: GivesBack(db, b, n + 1, j) <==> GivesBack(db, b, n, j)
    ensures forall s :: SeatBack(db, b, n + 1, s) <==> SeatBack(db, b, n, s)
    ensures forall j :: GivenUp(db, b, n + 1, j) <==> GivenUp(db, b, n, j)
  {
    forall j ensures GivesBack(db, b, n + 1, j) <==> GivesBack(db, b, n, j) {}
    forall s ensures SeatBack(db, b, n + 1, s) <==> SeatBack(db, b, n, s) {
      if c :| GivesBack(db, b, n, c) && db.items[c].section == s { assert GivesBack(db, b, n + 1, c); }
    }
    forall j: ItemId ensures GivenUp(db, b, n + 1, j) <==> GivenUp(db, b, n, j) {
      if c :| GivesBack(db, b, n, c) && db.items[c].source == Some(j) { assert GivesBack(db, b, n + 1, c); }
    }
  }

  lemma {:induction false} CancelFirst(db: Db, b: BatchId, n: nat)
    requires Wf(db) && b in db.batches && db.batches[b].kind == CANCEL && n <= |db.batches[b].payload|
    ensures Fits(db, JobOf(db, b))
    ensures CancelledSoFar(db, b, n, SettleFirst(db, JobOf(db, b), Snapshot(db, b), n))
  {
    StoredJobFits(db, b);
    if n > 0 {
      CancelFirst(db, b, n - 1);
      CancelOneMore(db, b, n - 1, SettleFirst(db, JobOf(db, b), Snapshot(db, b), n - 1));
    }
  }

  // ---- CREATE ----

  // Such an item finds a seat; a batch lists a section once, so no other entry of
  // the batch can have taken it.
  predicate TakesSeat(db: Db, b: BatchId, n: nat, i: ItemId) {
    Waits(db, b, n, i) && db.items[i].section in db.seats
    && db.seats[db.items[i].section].slDk < db.seats[db.items[i].section].slMax
  }

  ghost predicate SeatTaken(db: Db, b: BatchId, n: nat, s: SectionId) {
    exists i :: TakesSeat(db, b, n, i) && db.items[i].section == s
  }

  function AfterCreate(db: Db, b: BatchId, n: nat, i: ItemId): Item
    requires i in db.items && db.items[i].section in db.seats
  {
    var it, seat := db.items[i], db.seats[db.items[i].section];
    if TakesSeat(db, b, n, i) then
      it.(status := Success, remaining := Some(seat.slMax - seat.slDk - 1), held := it.held + 1)
    else if Waits(db, b, n, i) then it.(status := Failed)
    else it
  }

  ghost predicate CreatedSoFar(db: Db, b: BatchId, n: nat, now: Db) {
    && now.batches == db.batches && now.seats.Keys == db.seats.Keys && now.items.Keys == db.items.Keys
    && (forall s :: s in db.seats ==>
          now.seats[s] == if SeatTaken(db, b, n, s) then db.seats[s].(slDk := db.seats[s].slDk + 1) else db.seats[s])
    && (forall i :: i in db.items && db.items[i].section in db.seats ==> now.items[i] == AfterCreate(db, b, n, i))
  }

  lemma CreateOneMore(db: Db, b: BatchId, n: nat, now: Db)
    requires Wf(db) && b in db.batches && db.batches[b].kind == CREATE && n < |db.batches[b].payload|
    requires CreatedSoFar(db, b, n, now)
    ensures db.batches[b].payload[n].itemId in now.items
    ensures CreatedSoFar(db, b, n + 1, SettleOne(now, JobOf(db, b), Snapshot(db, b), n))
  {
    EntryAt(db, b, n);
    RowsHaveSeats(db);
    WaitsMore(db, b, n);
    var i := db.batches[b].payload[n].itemId;
    if SeatTaken(db, b, n, db.items[i].section) {
      var j :| TakesSeat(db, b, n, j) && db.items[j].section == db.items[i].section;
      assert SameSlot(db.items[i], db.items[j]);
    }
    OneMoreTaken(db, b, n, now, SettleOne(now, JobOf(db, b), Snapshot(db, b), n), i);
  }

  lemma OneMoreTaken(db: Db, b: BatchId, n: nat, now: Db, after: Db, i: ItemId)
    requires CreatedSoFar(db, b, n, now) && !Waits(db, b, n, i) && i in db.items && db.items[i].section in db.seats
    requires forall j :: Waits(db, b, n + 1, j) <==> Waits(db, b, n, j) || (j == i && db.items[i].status == Pending)
    requires !SeatTaken(db, b, n, db.items[i].section)
    requires after == if db.items[i].status != Pending then now
                      else if Acquire(now, i, db.items[i].section).1.Some? then Acquire(now, i, db.items[i].section).0
                      else MarkFailed(now, i)
    ensures CreatedSoFar(db, b, n + 1, after)
  {
    forall s ensures SeatTaken(db, b, n + 1, s) <==>
                     SeatTaken(db, b, n, s) || (TakesSeat(db, b, n + 1, i) && db.items[i].section == s)
    {
      if SeatTaken(db, b, n, s) {
        var j :| TakesSeat(db, b, n, j) && db.items[j].section == s;
        assert TakesSeat(db, b, n + 1, j);
      }
    }
  }

  lemma {:induction false} CreateFirst(db: Db, b: BatchId, n: nat)
    requires Wf(db) && b in db.batches && db.batches[b].kind == CREATE && n <= |db.batches[b].payload|
    ensures Fits(db, JobOf(db, b))
    ensures CreatedSoFar(db, b, n, SettleFirst(db, JobOf(db, b), Snapshot(db, b), n))
  {
    StoredJobFits(db, b);
    if n > 0 {
      CreateFirst(db, b, n - 1);
      CreateOneMore(db, b, n - 1, SettleFirst(db, JobOf(db, b), Snapshot(db, b), n - 1));
    }
  }

  // ---- The counts ----

  ghost function WaitingWith(db: Db, b: BatchId, n: nat, p: ItemId -> bool): set<ItemId> {
    set i | i in db.items && Waits(db, b, n, i) && p(i)
  }

  lemma {:induction false} CountItems(db: Db, b: BatchId, n: nat, now: Db, status: ItemStatus, p: ItemId -> bool)
    requires Wf(db) && b in db.batches && n <= |db.batches[b].payload|
    requires forall i :: Waits(db, b, |db.batches[b].payload|, i) ==> (HasStatus(now, i, status) <==> p(i))
    ensures WithStatus(JobOf(db, b), Snapshot(db, b), now, status, n) == |WaitingWith(db, b, n, p)|
  {
    if n == 0 {
      assert WaitingWith(db, b, 0, p) == {};
    } else {
      CountItems(db, b, n - 1, now, status, p);
      EntryAt(db, b, n - 1);
      OneMoreWaiting(db, b, n - 1, p);
    }
  }

  lemma OneMoreWaiting(db: Db, b: BatchId, n: nat, p: ItemId -> bool)
    requires Wf(db) && b in db.batches && n < |db.batches[b].payload|
    ensures var i := db.batches[b].payload[n].itemId;
            i in db.items
            && |WaitingWith(db, b, n + 1, p)| ==
               |WaitingWith(db, b, n, p)| + (if db.items[i].status == Pending && p(i) then 1 else 0)
            && (db.items[i].status == Pending ==> Waits(db, b, |db.batches[b].payload|, i))
  {
    EntryAt(db, b, n);
    WaitsMore(db, b, n);
    var i := db.batches[b].payload[n].itemId;
    var fewer, more := WaitingWith(db, b, n, p), WaitingWith(db, b, n + 1, p);
    assert i !in fewer;
    assert more == fewer + if db.items[i].status == Pending && p(i) then {i} else {};
  }

  // ---- The handlers, run once without a fault on a stored batch ----

  // A PENDING item of the batch; every one has an entry in the payload.
  predicate PendingIn(db: Db, b: BatchId, i: ItemId) {
    i in db.items && db.items[i].batch == b && db.items[i].status == Pending
  }

  lemma AllWait(db: Db, b: BatchId)
    requires Wf(db) && b in db.batches
    ensures forall i :: PendingIn(db, b, i) <==> Waits(db, b, |db.batches[b].payload|, i)
  {
    forall i | PendingIn(db, b, i) ensures Waits(db, b, |db.batches[b].payload|, i) { assert ItemWf(db, i); }
  }

  // Every PENDING cancel item with a source is SUCCESS and its source CANCELLED,
  // each with the seats left; every other one is FAILED; its section has one seat
  // less taken; nothing else changed but the batch, which is COMPLETED.
  ghost predicate CancelsDone(db: Db, b: BatchId, now: Db)
    requires b in db.batches
  {
    && now.batches == db.batches[b := db.batches[b].(status := Completed)]
    && now.seats.Keys == db.seats.Keys && now.items.Keys == db.items.Keys
    && (forall s :: s in db.seats ==>
          now.seats[s] ==
          if exists c :: PendingIn(db, b, c) && db.items[c].source.Some? && db.items[c].section == s
          then Lowered(db.seats[s]) else db.seats[s])
    && (forall c :: PendingIn(db, b, c) && db.items[c].section in db.seats ==>
          now.items[c] == if db.items[c].source.Some?
                          then db.items[c].(status := Success, remaining :=
                            LeftAfterRelease(db.seats[db.items[c].section]))
                          else db.items[c].(status := Failed))
    && (forall i :: i in db.items && db.items[i].section in db.seats && !PendingIn(db, b, i) ==>
          now.items[i] ==
          if exists c :: PendingIn(db, b, c) && db.items[c].source == Some(i)
          then db.items[i].(status := Cancelled, remaining := LeftAfterRelease(db.seats[db.items[i].section]),
                            held := db.items[i].held - 1)
          else db.items[i])
  }

  lemma CancelsAreDone(db: Db, b: BatchId, now: Db)
    requires Wf(db) && b in db.batches && CancelledSoFar(db, b, |db.batches[b].payload|, now)
    ensures CancelsDone(db, b, Complete(now, b))
  {
    AllWait(db, b);
    var n := |db.batches[b].payload|;
    forall s ensures SeatBack(db, b, n, s) <==>
                     exists c :: PendingIn(db, b, c) && db.items[c].source.Some? && db.items[c].section == s
    {
      if c :| PendingIn(db, b, c) && db.items[c].source.Some? && db.items[c].section == s {
        assert GivesBack(db, b, n, c);
      }
    }
    forall i: ItemId
      ensures GivenUp(db, b, n, i) <==> exists c :: PendingIn(db, b, c) && db.items[c].source == Some(i)
    {
      if c :| PendingIn(db, b, c) && db.items[c].source == Some(i) { assert GivesBack(db, b, n, c); }
    }
  }

  method CleanCancel(tables: RegistrationTables, handler: CancelBatchHandler, b: BatchId)
    returns (ok: bool, successCount: nat, failCount: nat)
    requires handler.tables == tables && Wf(tables.View())
    requires b in tables.batches && tables.batches[b].kind == CANCEL
    modifies tables
    ensures ok && CancelsDone(old(tables.View()), b, tables.View())
    ensures successCount == |set c | c in old(tables.items) && PendingIn(old(tables.View()), b, c)
                                     && old(tables.items)[c].source.Some?|
    ensures failCount == |set c | c in old(tables.items) && PendingIn(old(tables.View()), b, c)
                                  && old(tables.items)[c].source.None?|
  {
    ghost var db := tables.View();
    var job := Job(b, CANCEL, tables.batches[b].payload);
    CancelFirst(db, b, |job.items|);
    var steps;
    ok, successCount, failCount, steps := handler.Handle(job, NO_FAULT);
    StepsUnderway(db, job, steps);
    CancelsAreDone(db, b, SettleFirst(db, job, Snapshot(db, b), |job.items|));
    CountsAreStatuses(db, job, NO_FAULT, steps);
    CancelCounts(db, b, tables.View());
  }

  lemma CancelStatuses(db: Db, b: BatchId, now: Db)
    requires Wf(db) && b in db.batches && CancelsDone(db, b, now)
    ensures var n := |db.batches[b].payload|;
            && (forall i :: Waits(db, b, n, i) ==> (HasStatus(now, i, Success) <==> db.items[i].source.Some?))
            && (forall i :: Waits(db, b, n, i) ==> (HasStatus(now, i, Failed) <==> !db.items[i].source.Some?))
  {
    AllWait(db, b);
    RowsHaveSeats(db);
  }

  lemma CancelCounts(db: Db, b: BatchId, now: Db)
    requires Wf(db) && b in db.batches && CancelsDone(db, b, now)
    ensures var (job, n) := (JobOf(db, b), |db.batches[b].payload|);
            && WithStatus(job, Snapshot(db, b), now, Success, n) ==
               |set c | c in db.items && PendingIn(db, b, c) && db.items[c].source.Some?|
            && WithStatus(job, Snapshot(db, b), now, Failed, n) ==
               |set c | c in db.items && PendingIn(db, b, c) && db.items[c].source.None?|
  {
    CancelStatuses(db, b, now);
    var n := |db.batches[b].payload|;
    var yes := (i: ItemId) => i in db.items && db.items[i].source.Some?;
    var no := (i: ItemId) => i in db.items && db.items[i].source.None?;
    CountItems(db, b, n, now, Success, yes);
    CountItems(db, b, n, now, Failed, no);
    CancelSets(db, b, yes, no);
  }

  lemma CancelSets(db: Db, b: BatchId, yes: ItemId -> bool, no: ItemId -> bool)
    requires Wf(db) && b in db.batches
    requires forall i :: yes(i) <==> i in db.items && db.items[i].source.Some?
    requires forall i :: no(i) <==> i in db.items && db.items[i].source.None?
    ensures var n := |db.batches[b].payload|;
            && WaitingWith(db, b, n, yes) == (set c | c in db.items && PendingIn(db, b, c) && db.items[c].source.Some?)
            && WaitingWith(db, b, n, no) == (set c | c in db.items && PendingIn(db, b, c) && db.items[c].source.None?)
  {
    AllWait(db, b);
  }

  predicate SeatFree(db: Db, i: ItemId) {
    i in db.items && db.items[i].section in db.seats
    && db.seats[db.items[i].section].slDk < db.seats[db.items[i].section].slMax
  }

  // Every PENDING item whose section has a free seat takes it and is SUCCESS with
  // the seats left after it; every other one is FAILED; nothing else changed but
  // the batch, which is COMPLETED.
  ghost predicate CreatesDone(db: Db, b: BatchId, now: Db)
    requires b in db.batches
  {
    && now.batches == db.batches[b := db.batches[b].(status := Completed)]
    && now.seats.Keys == db.seats.Keys && now.items.Keys == db.items.Keys
    && (forall s :: s in db.seats ==>
          now.seats[s] ==
          if db.seats[s].slDk < db.seats[s].slMax && exists i :: PendingIn(db, b, i) && db.items[i].section == s
          then db.seats[s].(slDk := db.seats[s].slDk + 1) else db.seats[s])
    && (forall i :: PendingIn(db, b, i) && db.items[i].section in db.seats ==>
          var seat := db.seats[db.items[i].section];
          now.items[i] ==
          if seat.slDk < seat.slMax then
            db.items[i].(status := Success, remaining := Some(seat.slMax - seat.slDk - 1), held := db.items[i].held + 1)
          else db.items[i].(status := Failed))
    && (forall i :: i in db.items && db.items[i].section in db.seats && !PendingIn(db, b, i) ==>
          now.items[i] == db.items[i])
  }

  lemma CreatesAreDone(db: Db, b: BatchId, now: Db)
    requires Wf(db) && b in db.batches && CreatedSoFar(db, b, |db.batches[b].payload|, now)
    ensures CreatesDone(db, b, Complete(now, b))
  {
    AllWait(db, b);
    var n := |db.batches[b].payload|;
    forall s | s in db.seats
      ensures SeatTaken(db, b, n, s) <==>
              db.seats[s].slDk < db.seats[s].slMax && exists i :: PendingIn(db, b, i) && db.items[i].section == s
    {
      if db.seats[s].slDk < db.seats[s].slMax {
        if i :| PendingIn(db, b, i) && db.items[i].section == s { assert TakesSeat(db, b, n, i); }
      }
    }
  }

  lemma CreateStatuses(db: Db, b: BatchId, now: Db)
    requires Wf(db) && b in db.batches && CreatesDone(db, b, now)
    ensures var n := |db.batches[b].payload|;
            && (forall i :: Waits(db, b, n, i) ==> (HasStatus(now, i, Success) <==> SeatFree(db, i)))
            && (forall i :: Waits(db, b, n, i) ==> (HasStatus(now, i, Failed) <==> !SeatFree(db, i)))
  {
    AllWait(db, b);
    RowsHaveSeats(db);
  }

  lemma CreateCounts(db: Db, b: BatchId, now: Db)
    requires Wf(db) && b in db.batches && CreatesDone(db, b, now)
    ensures var (job, n) := (JobOf(db, b), |db.batches[b].payload|);
            && WithStatus(job, Snapshot(db, b), now, Success, n) ==
               |set i | i in db.items && PendingIn(db, b, i) && SeatFree(db, i)|
            && WithStatus(job, Snapshot(db, b), now, Failed, n) ==
               |set i | i in db.items && PendingIn(db, b, i) && !SeatFree(db, i)|
  {
    CreateStatuses(db, b, now);
    var n := |db.batches[b].payload|;
    var yes := (i: ItemId) => i in db.items && SeatFree(db, i);
    var no := (i: ItemId) => i in db.items && !SeatFree(db, i);
    CountItems(db, b, n, now, Success, yes);
    CountItems(db, b, n, now, Failed, no);
    CreateSets(db, b, yes, no);
  }

  lemma CreateSets(db: Db, b: BatchId, yes: ItemId -> bool, no: ItemId -> bool)
    requires Wf(db) && b in db.batches
    requires forall i :: yes(i) <==> i in db.items && SeatFree(db, i)
    requires forall i :: no(i) <==> i in db.items && !SeatFree(db, i)
    ensures var n := |db.batches[b].payload|;
            && WaitingWith(db, b, n, yes) == (set i | i in db.items && PendingIn(db, b, i) && SeatFree(db, i))
            && WaitingWith(db, b, n, no) == (set i | i in db.items && PendingIn(db, b, i) && !SeatFree(db, i))
  {
    AllWait(db, b);
  }

  method CleanCreate(tables: RegistrationTables, handler: CreateBatchHandler, b: BatchId)
    returns (ok: bool, successCount: nat, failCount: nat)
    requires handler.tables == tables && Wf(tables.View())
    requires b in tables.batches && tables.batches[b].kind == CREATE
    modifies tables
    ensures ok && CreatesDone(old(tables.View()), b, tables.View())
    ensures successCount == |set i | i in old(tables.items) && PendingIn(old(tables.View()), b, i)
                                     && SeatFree(old(tables.View()), i)|
    ensures failCount == |set i | i in old(tables.items) && PendingIn(old(tables.View()), b, i)
                                  && !SeatFree(old(tables.View()), i)|
  {
    ghost var db := tables.View();
    var job := Job(b, CREATE, tables.batches[b].payload);
    CreateFirst(db, b, |job.items|);
    var steps;
    ok, successCount, failCount, steps := handler.Handle(job, NO_FAULT);
    StepsUnderway(db, job, steps);
    CreatesAreDone(db, b, SettleFirst(db, job, Snapshot(db, b), |job.items|));
    CountsAreStatuses(db, job, NO_FAULT, steps);
    CreateCounts(db, b, tables.View());
  }
}
