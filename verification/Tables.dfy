// The registration tables and the SQL statements that change them. Every
// function below that returns a Db is one statement (or one Prisma
// transaction), so it is one atomic step.
module Tables {
  import opened Prelude

  type SectionId = nat   // uuid of a class_sections row
  type ItemId = nat      // uuid of a registration_batch_items row
  type BatchId = nat     // uuid of a registration_batches row
  type UserId = nat
  type CourseId = nat

  datatype BatchKind = CREATE | CANCEL
  datatype BatchStatus = Waiting | Completed  // PENDING | COMPLETED
  datatype ItemStatus = Pending | Success | Cancelled | Failed

  datatype Seat = Seat(slMax: int, slDk: int)

  // One entry of a queue payload. A field the producer could not fill is None.
  datatype JobItem = JobItem(itemId: ItemId, sectionId: Option<SectionId>, source: Option<ItemId>)

  // The body of a queue message, never edited after it is published.
  datatype Job = Job(batch: BatchId, kind: BatchKind, items: seq<JobItem>)

  // A registration_batch_items row. `batch`, `section`, `status` and
  // `remaining` are columns and `kind` is the type of the joined batch. The
  // last three are history the table does not store: the item's place in the
  // published payload, the source item the payload names, and how many seats
  // have been taken for the item and not given back.
  datatype Item = Item(
    batch: BatchId, kind: BatchKind, section: SectionId, status: ItemStatus, remaining: Option<int>,
    index: nat, source: Option<ItemId>, held: int)

  // A registration_batches row with the payload published for it.
  datatype Batch = Batch(user: UserId, semester: string, kind: BatchKind, status: BatchStatus, payload: seq<JobItem>)

  datatype Db = Db(seats: map<SectionId, Seat>, items: map<ItemId, Item>, batches: map<BatchId, Batch>)

  function JobOf(db: Db, b: BatchId): Job
    requires b in db.batches
  {
    Job(b, db.batches[b].kind, db.batches[b].payload)
  }

  // ---- Worker statements ----

  // The acquire CTE: take a seat if one is free and mark the item SUCCESS.
  // The seat update does not depend on the item row, so a missing row still
  // costs a seat.
  function Acquire(db: Db, item: ItemId, section: SectionId): (r: (Db, Option<int>)) {
    if section in db.seats && db.seats[section].slDk < db.seats[section].slMax then
      var seat := db.seats[section].(slDk := db.seats[section].slDk + 1);
      var left := seat.slMax - seat.slDk;
      var seated := db.(seats := db.seats[section := seat]);
      if item in db.items then
        var row := db.items[item];
        (seated.(items := db.items[item := row.(status := Success, remaining := Some(left), held := row.held + 1)]),
         Some(left))
      else (seated, None)
    else (db, None)
  }

  // GREATEST(sl_dk - 1, 0)
  function Clamped(slDk: int): int { if slDk - 1 > 0 then slDk - 1 else 0 }

  // The release CTE: give the seat back, mark the source item CANCELLED and
  // the cancel item SUCCESS.
  function Release(db: Db, item: ItemId, section: SectionId, source: ItemId): Db {
    var seat := if section in db.seats then Some(db.seats[section].(slDk := Clamped(db.seats[section].slDk))) else None;
    var left := if seat.Some? then Some(seat.value.slMax - seat.value.slDk) else None;
    var seats := if seat.Some? then db.seats[section := seat.value] else db.seats;
    var items1 := if source in db.items
                  then db.items[source :=
                    db.items[source].(status := Cancelled, remaining := left, held := db.items[source].held - 1)]
                  else db.items;
    var items2 := if item in items1 then items1[item := items1[item].(status := Success, remaining := left)]
    else items1;
    db.(seats := seats, items := items2)
  }

  // markItemFailed: update by primary key, whatever the current status.
  function MarkFailed(db: Db, item: ItemId): Db
    requires item in db.items
  {
    db.(items := db.items[item := db.items[item].(status := Failed)])
  }

  function Complete(db: Db, b: BatchId): Db
    requires b in db.batches
  {
    db.(batches := db.batches[b := db.batches[b].(status := Completed)])
  }

  function FailPending(it: Item, b: BatchId): Item {
    if it.batch == b && it.status == Pending then it.(status := Failed) else it
  }

  // The dead-letter transaction: every PENDING item of the batch fails and
  // the batch is COMPLETED.
  function MarkBatchFailed(db: Db, b: BatchId): Db
    requires b in db.batches
  {
    Complete(db.(items := map i | i in db.items :: FailPending(db.items[i], b)), b)
  }

  // The status snapshot a handler loads before its loop.
  function Snapshot(db: Db, b: BatchId): map<ItemId, ItemStatus> {
    map i | i in db.items && db.items[i].batch == b :: db.items[i].status
  }

  // ---- API statement ----

  // Adds the rows of one new batch, one item per payload entry from `k` on.
  function InsertItems(items: map<ItemId, Item>, b: BatchId, kind: BatchKind, payload: seq<JobItem>,
                       k: nat): map<ItemId, Item>
    requires k <= |payload|
    requires forall j :: k <= j < |payload| ==> payload[j].sectionId.Some?
    decreases |payload| - k
  {
    if k == |payload| then items
    else
      var row := Item(b, kind, payload[k].sectionId.value, Pending, None, k, payload[k].source, 0);
      InsertItems(items[payload[k].itemId := row], b, kind, payload, k + 1)
  }

  // batch.create with its nested createMany.
  function InsertBatch(db: Db, b: BatchId, batch: Batch): Db
    requires forall j :: 0 <= j < |batch.payload| ==> batch.payload[j].sectionId.Some?
  {
    Db(db.seats, InsertItems(db.items, b, batch.kind, batch.payload, 0), db.batches[b := batch])
  }
}
