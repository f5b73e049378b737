// Many students, few seats: from any state on, if the section sees no
// cancellation and no database error, every interleaving gives out exactly the
// seats that are left.
module Contention {
  import opened Prelude
  import opened Tables
  import opened Admission
  import opened Ledger
  import opened Worker
  import opened Protocol
  import opened Safety
  import opened Seats

  // ---- Calm on one section ----

  predicate Full(db: Db, s: SectionId) { s in db.seats && db.seats[s].slDk >= db.seats[s].slMax }

  // Some item of the batch on `s` is still PENDING.
  ghost predicate ListsPending(db: Db, b: BatchId, s: SectionId) {
    exists i :: i in db.items && db.items[i].batch == b && db.items[i].section == s && db.items[i].status == Pending
  }

  ghost predicate NoCancelOn(db: Db, s: SectionId) {
    forall i :: i in db.items && db.items[i].kind == CANCEL && db.items[i].section == s ==>
      db.items[i].status != Pending
  }

  // A handler about to mark an item of `s` FAILED saw the section full.
  predicate SawFull(db: Db, job: Job, at: Progress, s: SectionId) {
    at.phase.Marking? && at.phase.k < |job.items| && job.items[at.phase.k].sectionId == Some(s) ==> Full(db, s)
  }

  // A copy of a batch that still has a PENDING item on `s` is not dead, is not
  // about to die, and marks no item of `s` FAILED unless the section is full.
  ghost predicate Unhurt(cfg: Config, db: Db, d: Delivery, s: SectionId) {
    && d.batch in db.batches
    && (ListsPending(db, d.batch, s) ==>
          || d.place == Queued
          || (d.place.Handling?
              && (d.place.at.phase == Failing ==> d.retry < cfg.maxRetries)
              && SawFull(db, JobOf(db, d.batch), d.place.at, s)))
  }

  ghost predicate MailUnhurt(cfg: Config, st: State, s: SectionId) {
    forall t :: t in st.mail ==> Unhurt(cfg, st.db, st.mail[t], s)
  }

  ghost predicate CalmAt(cfg: Config, st: State, s: SectionId) { NoCancelOn(st.db, s) && MailUnhurt(cfg, st, s) }

  // No cancel of `s` is submitted, and no statement throws in a handler whose
  // batch still has a PENDING item on `s`. Anything else may happen.
  ghost predicate Calm(cfg: Config, st: State, a: Action, s: SectionId) {
    match a
    case SubmitCancel(sub) => Known(cfg.catalog, sub.semester, Distinct(sub.codes)) ==> s !in Rows(cfg, sub)
    case Work(t, fault) => fault && t in st.mail ==> !ListsPending(st.db, st.mail[t].batch, s)
    case _ => true
  }

  ghost predicate CalmBetween(cfg: Config, states: seq<State>, actions: seq<Action>, m: nat, n: nat, s: SectionId) {
    forall k :: m <= k < n && k < |states| && k < |actions| ==> Calm(cfg, states[k], actions[k], s)
  }

  // ---- Contenders ----

  // A CREATE item on `s` that was PENDING in `origin` or came in since.
  predicate Contends(origin: Db, db: Db, s: SectionId, i: ItemId) {
    && i in db.items && db.items[i].kind == CREATE && db.items[i].section == s
    && (i in origin.items ==> origin.items[i].status == Pending)
  }

  ghost function Contenders(origin: Db, db: Db, s: SectionId): set<ItemId> {
    set i | i in db.items && Contends(origin, db, s, i)
  }

  predicate Won(origin: Db, db: Db, s: SectionId, i: ItemId) {
    Contends(origin, db, s, i) && db.items[i].status == Success
  }

  ghost function Winners(origin: Db, db: Db, s: SectionId): set<ItemId> {
    set i | i in db.items && Won(origin, db, s, i)
  }

  // A contender fails only when the section is full, and a winner records a
  // number of seats left between the number now and the number at first.
  predicate Fair(origin: Db, db: Db, s: SectionId, i: ItemId)
    requires i in db.items && s in db.seats && s in origin.seats
  {
    && db.items[i].status != Cancelled
    && (db.items[i].status == Failed ==> Full(db, s))
    && (db.items[i].status == Success ==>
          db.items[i].remaining.Some?
          && db.seats[s].slMax - db.seats[s].slDk <= db.items[i].remaining.value
                                                  < db.seats[s].slMax - origin.seats[s].slDk)
  }

  // A registration of `origin` on `s`, or an item that had lost by then.
  predicate Decided(origin: Db, s: SectionId, i: ItemId) {
    i in origin.items && origin.items[i].section == s && origin.items[i].kind == CREATE
    && origin.items[i].status != Pending
  }

  ghost predicate KeepsDecided(origin: Db, db: Db, s: SectionId) {
    && (forall i :: i in origin.items ==> i in db.items && Mould(db.items[i]) == Mould(origin.items[i]))
    && (forall i :: Decided(origin, s, i) ==> db.items[i].status == origin.items[i].status)
  }

  predicate SameRecord(origin: Db, db: Db, s: SectionId, i: ItemId, j: ItemId) {
    Won(origin, db, s, i) && Won(origin, db, s, j) && db.items[i].remaining == db.items[j].remaining
  }

  ghost predicate Honest(origin: Db, db: Db, s: SectionId) {
    && s in origin.seats && s in db.seats
    && origin.seats[s].slMax == db.seats[s].slMax && origin.seats[s].slDk <= db.seats[s].slDk
    && NoCancelOn(db, s) && KeepsDecided(origin, db, s)
    && (forall i {:trigger Contends(origin, db, s, i)} :: Contends(origin, db, s, i) ==> Fair(origin, db, s, i))
    && (forall i, j {:trigger SameRecord(origin, db, s, i, j)} :: SameRecord(origin, db, s, i, j) ==> i == j)
  }

  lemma HonestAtFirst(db: Db, s: SectionId)
    requires s in db.seats && NoCancelOn(db, s)
    ensures Honest(db, db, s)
  {
  }

  // ---- Statements ----

  // Rows on `s`, and its seats, are as before.
  ghost predicate Untouched(a: Db, b: Db, s: SectionId) {
    && s in a.seats && s in b.seats && a.seats[s] == b.seats[s]
    && (forall i :: i in a.items ==> i in b.items && Mould(a.items[i]) == Mould(b.items[i]))
    && (forall i :: i in b.items && b.items[i].section == s ==> i in a.items && a.items[i] == b.items[i])
  }

  lemma UntouchedHonest(origin: Db, a: Db, b: Db, s: SectionId)
    requires Honest(origin, a, s) && Untouched(a, b, s)
    ensures Honest(origin, b, s)
  {
    forall i | Contends(origin, b, s, i) ensures Fair(origin, b, s, i) { assert Contends(origin, a, s, i); }
    forall i, j | SameRecord(origin, b, s, i, j) ensures i == j {
      assert SameRecord(origin, a, s, i, j);
    }
  }

  // A PENDING item on the section takes a seat, or the section is full.
  lemma AcquireHonest(origin: Db, db: Db, i: ItemId, s: SectionId)
    requires Honest(origin, db, s) && i in db.items && db.items[i].status == Pending && db.items[i].section in db.seats
    ensures Honest(origin, Acquire(db, i, db.items[i].section).0, s)
  {
    var x := db.items[i].section;
    var after := Acquire(db, i, x).0;
    if x != s {
      UntouchedHonest(origin, db, after, s);
    } else if db.seats[s].slDk < db.seats[s].slMax {
      forall j | Contends(origin, after, s, j) ensures Fair(origin, after, s, j) { assert Contends(origin, db, s, j); }
      forall j, k | SameRecord(origin, after, s, j, k) ensures j == k
      {
        if j != i { assert Contends(origin, db, s, j); }
        if k != i { assert Contends(origin, db, s, k); }
        if j != i && k != i { assert SameRecord(origin, db, s, j, k); }
      }
    }
  }

  lemma MarkHonest(origin: Db, db: Db, i: ItemId, s: SectionId)
    requires Honest(origin, db, s) && i in db.items && db.items[i].status == Pending
    requires db.items[i].section == s ==> Full(db, s)
    ensures Honest(origin, MarkFailed(db, i), s)
  {
    var after := MarkFailed(db, i);
    forall j | Contends(origin, after, s, j) ensures Fair(origin, after, s, j) { assert Contends(origin, db, s, j); }
    forall j, k | SameRecord(origin, after, s, j, k) ensures j == k
    {
      assert SameRecord(origin, db, s, j, k);
    }
  }

  // A cancel item that is released is on another section.
  lemma ReleaseHonest(origin: Db, db: Db, c: ItemId, s: SectionId)
    requires Honest(origin, db, s) && Releasable(db, c)
    ensures Honest(origin, Released(db, c), s)
  {
    ReleaseRows(db, c);
    UntouchedHonest(origin, db, Released(db, c), s);
  }

  lemma InsertHonest(origin: Db, db: Db, b: BatchId, batch: Batch, s: SectionId)
    requires Honest(origin, db, s) && Insertable(db, b, batch)
    requires batch.kind == CANCEL ==> forall j :: 0 <= j < |batch.payload| ==> batch.payload[j].sectionId != Some(s)
    ensures Honest(origin, InsertBatch(db, b, batch), s)
  {
    var after := InsertBatch(db, b, batch);
    InsertedRows(db.items, b, batch.kind, batch.payload, 0);
    forall i | i in after.items && i !in db.items
      ensures after.items[i].status == Pending && after.items[i].kind == batch.kind
      ensures batch.kind == CANCEL ==> after.items[i].section != s
    {
      NewItem(db, b, batch, i);
    }
    forall i | Contends(origin, after, s, i) ensures Fair(origin, after, s, i) {
      if i in db.items { assert Contends(origin, db, s, i); }
    }
    forall i, j | SameRecord(origin, after, s, i, j) ensures i == j
    {
      assert SameRecord(origin, db, s, i, j);
    }
  }

  lemma DeadLetterHonest(origin: Db, db: Db, b: BatchId, s: SectionId)
    requires Honest(origin, db, s) && b in db.batches && !ListsPending(db, b, s)
    ensures Honest(origin, MarkBatchFailed(db, b), s)
  {
    var after := MarkBatchFailed(db, b);
    forall i | i in after.items && after.items[i].section == s ensures db.items[i] == after.items[i] {
      assert db.items[i].batch == b ==> db.items[i].status != Pending;
    }
    UntouchedHonest(origin, db, after, s);
  }

  // ---- A handler step ----

  // The entry a handler works on, when dead letters wait: its item is PENDING.
  lemma EntryAhead(g: Regime, db: Db, job: Job, snapshot: map<ItemId, ItemStatus>, k: nat)
    requires Wf(db) && g.dead == AllWait && job.batch in db.batches && job == JobOf(db, job.batch)
    requires k < |job.items| && Tracks(g, db, job, snapshot, k) && Todo(job, snapshot, k)
    ensures var i := job.items[k].itemId;
            && i in db.items && db.items[i].status == Pending && db.items[i].batch == job.batch
               && db.items[i].kind == job.kind
            && job.items[k].sectionId == Some(db.items[i].section) && db.items[i].section in db.seats
            && job.items[k].source == db.items[i].source
  {
    EntryItem(db, job.batch, k);
    assert ItemWf(db, job.items[k].itemId);
  }

  lemma AdvanceHonest(g: Regime, origin: Db, db: Db, job: Job, at: Progress, fault: bool, s: SectionId)
    requires DbInv(g, db) && g.dead == AllWait && job.batch in db.batches && job == JobOf(db, job.batch)
    requires HandlerOk(g, db, job, at) && Honest(origin, db, s)
    requires ListsPending(db, job.batch, s) ==> SawFull(db, job, at, s)
    ensures Honest(origin, Advance(db, job, at, fault).0, s)
  {
    match at.phase
    case AtItem(k) =>
      if k < |job.items| && Todo(job, at.snapshot, k) && Fillable(job, k) && !fault {
        AttemptHonest(g, origin, db, job, at, k, s);
      } else {
        UntouchedHonest(origin, db, Advance(db, job, at, fault).0, s);
      }
    case Marking(k) =>
      if !fault {
        EntryAhead(g, db, job, at.snapshot, k);
        MarkHonest(origin, db, job.items[k].itemId, s);
      }
    case _ => UntouchedHonest(origin, db, Advance(db, job, at, fault).0, s);
  }

  lemma AttemptHonest(g: Regime, origin: Db, db: Db, job: Job, at: Progress, k: nat, s: SectionId)
    requires DbInv(g, db) && g.dead == AllWait && job.batch in db.batches && job == JobOf(db, job.batch)
             && Honest(origin, db, s)
    requires k < |job.items| && Fillable(job, k) && Tracks(g, db, job, at.snapshot, k) && Todo(job, at.snapshot, k)
    ensures Honest(origin, Attempt(db, job, k).0, s)
  {
    EntryAhead(g, db, job, at.snapshot, k);
    var i := job.items[k].itemId;
    match job.kind
    case CREATE => AcquireHonest(origin, db, i, s);
    case CANCEL =>
      ReadyToRelease(g, db, job.batch, k);
      assert Attempt(db, job, k).0 == Released(db, i);
      ReleaseHonest(origin, db, i, s);
  }

  lemma ReadyToRelease(g: Regime, db: Db, b: BatchId, k: nat)
    requires DbInv(g, db) && b in db.batches && k < |db.batches[b].payload| && db.batches[b].kind == CANCEL
    requires db.batches[b].payload[k].source.Some?
    requires db.batches[b].payload[k].itemId in db.items ==> db.items[db.batches[b].payload[k].itemId].status == Pending
    ensures Releasable(db, db.batches[b].payload[k].itemId)
  {
    var c := db.batches[b].payload[k].itemId;
    EntryItem(db, b, k);
    assert ItemWf(db, c);
    ReleaseUnclamped(g, db, c);
  }

  // A handler of a batch with a PENDING item on `s` stays unhurt without faults.
  lemma AdvanceUnhurt(g: Regime, db: Db, job: Job, at: Progress, s: SectionId)
    requires DbInv(g, db) && g.dead == AllWait && job.batch in db.batches && job == JobOf(db, job.batch)
    requires HandlerOk(g, db, job, at) && NoCancelOn(db, s) && ListsPending(db, job.batch, s) && SawFull(db, job, at, s)
    requires at.phase == Loading || at.phase.AtItem? || at.phase.Marking?
    ensures var (after, at') := Advance(db, job, at, false); at'.phase != Failing && SawFull(after, job, at', s)
  {
    OwnKind(db, job.batch, s);
    match at.phase
    case AtItem(k) =>
      if k < |job.items| && Todo(job, at.snapshot, k) { EntryAhead(g, db, job, at.snapshot, k); }
    case Marking(k) => EntryAhead(g, db, job, at.snapshot, k);
    case _ =>
  }

  lemma OwnKind(db: Db, b: BatchId, s: SectionId)
    requires Wf(db) && b in db.batches && NoCancelOn(db, s) && ListsPending(db, b, s)
    ensures db.batches[b].kind == CREATE
  {
    var i :| i in db.items && db.items[i].batch == b && db.items[i].section == s && db.items[i].status == Pending;
    assert ItemWf(db, i);
  }

  // ---- Every calm action ----

  ghost predicate CalmInv(cfg: Config, origin: Db, st: State, s: SectionId) {
    Honest(origin, st.db, s) && CalmAt(cfg, st, s)
  }

  // Copies stay unhurt when nothing becomes PENDING and no seat of `s` comes free.
  lemma StillUnhurt(cfg: Config, a: Db, b: Db, d: Delivery, s: SectionId)
    requires Unhurt(cfg, a, d, s) && Settling(a, b) && (Full(a, s) ==> Full(b, s))
    ensures Unhurt(cfg, b, d, s)
  {
    assert a.batches[d.batch].(status := Waiting) == b.batches[d.batch].(status := Waiting);
    if ListsPending(b, d.batch, s) {
      var i :| i in b.items && b.items[i].batch == d.batch && b.items[i].section == s && b.items[i].status == Pending;
      assert Mould(a.items[i]) == Mould(b.items[i]);
      assert ListsPending(a, d.batch, s);
    }
  }

  // The seats taken on a section never fall while it is calm.
  lemma AdvanceStaysFull(g: Regime, db: Db, job: Job, at: Progress, fault: bool, s: SectionId)
    requires DbInv(g, db) && g.dead == AllWait && job.batch in db.batches && job == JobOf(db, job.batch)
    requires HandlerOk(g, db, job, at) && NoCancelOn(db, s)
    ensures Full(db, s) ==> Full(Advance(db, job, at, fault).0, s)
  {
    match at.phase
    case AtItem(k) =>
      if k < |job.items| && Todo(job, at.snapshot, k) { EntryAhead(g, db, job, at.snapshot, k); }
    case _ =>
  }

  lemma WorkCalm(cfg: Config, origin: Db, st: State, t: Tag, fault: bool, s: SectionId)
    requires Inv(cfg, st) && Quiet(cfg) && CalmInv(cfg, origin, st, s) && Enabled(cfg, st, Work(t, fault))
    requires Calm(cfg, st, Work(t, fault), s)
    ensures CalmInv(cfg, origin, Worked(st, t, fault), s)
  {
    assert Unhurt(cfg, st.db, st.mail[t], s);
    AdvanceHonest(cfg.regime, origin, st.db, JobOf(st.db, st.mail[t].batch), st.mail[t].place.at, fault, s);
    WorkUnhurt(cfg, st, t, fault, s);
  }

  lemma WorkSettles(cfg: Config, st: State, t: Tag, fault: bool, s: SectionId)
    requires Inv(cfg, st) && Quiet(cfg) && NoCancelOn(st.db, s) && Enabled(cfg, st, Work(t, fault))
    ensures var next := Worked(st, t, fault); Settling(st.db, next.db) && (Full(st.db, s) ==> Full(next.db, s))
  {
    WorkKeeps(cfg, st, t, fault);
    AdvanceStaysFull(cfg.regime, st.db, JobOf(st.db, st.mail[t].batch), st.mail[t].place.at, fault, s);
  }

  lemma WorkUnhurt(cfg: Config, st: State, t: Tag, fault: bool, s: SectionId)
    requires Inv(cfg, st) && Quiet(cfg) && CalmAt(cfg, st, s) && Enabled(cfg, st, Work(t, fault))
             && Calm(cfg, st, Work(t, fault), s)
    ensures MailUnhurt(cfg, Worked(st, t, fault), s)
  {
    var next := Worked(st, t, fault);
    WorkSettles(cfg, st, t, fault, s);
    forall u | u in next.mail ensures Unhurt(cfg, next.db, next.mail[u], s) {
      assert Unhurt(cfg, st.db, st.mail[u], s);
      if u == t { WorkerUnhurt(cfg, st, t, fault, s); } else { StillUnhurt(cfg, st.db, next.db, st.mail[u], s); }
    }
  }

  lemma WorkerUnhurt(cfg: Config, st: State, t: Tag, fault: bool, s: SectionId)
    requires Inv(cfg, st) && Quiet(cfg) && NoCancelOn(st.db, s) && Enabled(cfg, st, Work(t, fault))
    requires Unhurt(cfg, st.db, st.mail[t], s) && Calm(cfg, st, Work(t, fault), s)
    requires Settling(st.db, Worked(st, t, fault).db)
    ensures Unhurt(cfg, Worked(st, t, fault).db, Worked(st, t, fault).mail[t], s)
  {
    var d := st.mail[t];
    var job := JobOf(st.db, d.batch);
    var (db, at) := Advance(st.db, job, d.place.at, fault);
    if ListsPending(db, d.batch, s) {
      PendingBefore(st.db, db, d.batch, s);
      AdvanceUnhurt(cfg.regime, st.db, job, d.place.at, s);
      assert st.db.batches[d.batch].(status := Waiting) == db.batches[d.batch].(status := Waiting);
    }
  }

  lemma PendingBefore(a: Db, b: Db, n: BatchId, s: SectionId)
    requires Settling(a, b) && ListsPending(b, n, s)
    ensures ListsPending(a, n, s)
  {
    var i :| i in b.items && b.items[i].batch == n && b.items[i].section == s && b.items[i].status == Pending;
    assert Mould(a.items[i]) == Mould(b.items[i]);
  }

  lemma SubmitCalm(cfg: Config, origin: Db, st: State, sub: Submission, batch: Batch, redis: map<SectionId, int>,
                   s: SectionId)
    requires Wf(st.db) && CalmInv(cfg, origin, st, s) && Insertable(st.db, sub.batch, batch) && sub.tag !in st.mail
    requires batch.kind == CANCEL ==> forall j :: 0 <= j < |batch.payload| ==> batch.payload[j].sectionId != Some(s)
    ensures CalmInv(cfg, origin, Publish(st, InsertBatch(st.db, sub.batch, batch), redis, sub), s)
  {
    var db := InsertBatch(st.db, sub.batch, batch);
    InsertHonest(origin, st.db, sub.batch, batch, s);
    forall u | u in st.mail
      ensures Unhurt(cfg, db, st.mail[u], s)
    {
      InsertUnhurt(cfg, st.db, sub.batch, batch, st.mail[u], s);
    }
  }

  lemma InsertUnhurt(cfg: Config, db: Db, b: BatchId, batch: Batch, d: Delivery, s: SectionId)
    requires Insertable(db, b, batch) && Unhurt(cfg, db, d, s)
    ensures Unhurt(cfg, InsertBatch(db, b, batch), d, s)
  {
    var after := InsertBatch(db, b, batch);
    InsertedRows(db.items, b, batch.kind, batch.payload, 0);
    if ListsPending(after, d.batch, s) {
      var i :| i in after.items && after.items[i].batch == d.batch && after.items[i].section == s
        && after.items[i].status == Pending;
      if i !in db.items { NewItem(db, b, batch, i); }
      assert ListsPending(db, d.batch, s);
    }
  }

  lemma DeadCalm(cfg: Config, origin: Db, st: State, t: Tag, fault: bool, s: SectionId)
    requires Inv(cfg, st) && CalmInv(cfg, origin, st, s) && Enabled(cfg, st, SettleDead(t, fault))
    ensures CalmInv(cfg, origin, Apply(cfg, st, SettleDead(t, fault)), s)
  {
    assert Unhurt(cfg, st.db, st.mail[t], s);
    if !fault { DeadLetterHonest(origin, st.db, st.mail[t].batch, s); }
    DeadUnhurt(cfg, st, t, fault, s);
  }

  lemma DeadUnhurt(cfg: Config, st: State, t: Tag, fault: bool, s: SectionId)
    requires Inv(cfg, st) && MailUnhurt(cfg, st, s) && Enabled(cfg, st, SettleDead(t, fault))
    ensures MailUnhurt(cfg, Apply(cfg, st, SettleDead(t, fault)), s)
  {
    DeadSettles(cfg, st, t, fault);
    MovedUnhurt(cfg, st, t, Apply(cfg, st, SettleDead(t, fault)).db, s);
  }

  lemma DeadSettles(cfg: Config, st: State, t: Tag, fault: bool)
    requires Inv(cfg, st) && Enabled(cfg, st, SettleDead(t, fault))
    ensures var after := Apply(cfg, st, SettleDead(t, fault)).db; Settling(st.db, after) && st.db.seats == after.seats
  {
    DeadLetterSettles(st.db, st.mail[t].batch);
  }

  lemma DeadLetterSettles(db: Db, b: BatchId)
    requires b in db.batches
    ensures Settling(db, MarkBatchFailed(db, b)) && db.seats == MarkBatchFailed(db, b).seats
  {
  }

  lemma MovedUnhurt(cfg: Config, st: State, t: Tag, db: Db, s: SectionId)
    requires MailUnhurt(cfg, st, s) && t in st.mail && st.mail[t].place == Dead
    requires Settling(st.db, db) && st.db.seats == db.seats
    ensures forall u :: u in st.mail ==>
              Unhurt(cfg, db, if u == t then st.mail[u].(place := DeadAcking) else st.mail[u], s)
  {
    forall u | u in st.mail
      ensures Unhurt(cfg, db, if u == t then st.mail[u].(place := DeadAcking) else st.mail[u], s)
    {
      assert Unhurt(cfg, st.db, st.mail[u], s);
      StillUnhurt(cfg, st.db, db, st.mail[u], s);
    }
  }

  lemma MailCalm(cfg: Config, origin: Db, st: State, a: Action, s: SectionId)
    requires CalmInv(cfg, origin, st, s) && Enabled(cfg, st, a)
    requires a.CacheFill? || a.Deliver? || a.Republish? || a.Ack? || a.Crash? || a.Redeliver?
    ensures CalmInv(cfg, origin, Apply(cfg, st, a), s)
  {
    var next := Apply(cfg, st, a);
    forall u | u in next.mail ensures Unhurt(cfg, next.db, next.mail[u], s) {
      if u in st.mail { assert Unhurt(cfg, st.db, st.mail[u], s); }
      if !a.CacheFill? { assert Unhurt(cfg, st.db, st.mail[a.tag], s); }
    }
  }

  lemma CancelElsewhere(cfg: Config, st: State, sub: Submission, s: SectionId)
    requires CancelAdmitted(cfg, st, sub) && s !in Rows(cfg, sub)
    ensures var payload := CancelBatchOf(cfg, st.db, sub).payload;
            forall j :: 0 <= j < |payload| ==> payload[j].sectionId != Some(s)
  {
  }

  lemma CalmStep(cfg: Config, origin: Db, st: State, a: Action, s: SectionId)
    requires Inv(cfg, st) && Quiet(cfg) && CalmInv(cfg, origin, st, s) && Enabled(cfg, st, a) && Calm(cfg, st, a, s)
    ensures CalmInv(cfg, origin, Apply(cfg, st, a), s)
  {
    match a
    case SubmitCreate(sub) =>
      CreateInsertable(cfg, st, sub);
      SubmitCalm(cfg, origin, st, sub, CreateBatchOf(cfg, sub), Apply(cfg, st, a).redis, s);
    case SubmitCancel(sub) =>
      CancelInsertable(cfg, st, sub);
      CancelElsewhere(cfg, st, sub, s);
      SubmitCalm(cfg, origin, st, sub, CancelBatchOf(cfg, st.db, sub), Apply(cfg, st, a).redis, s);
    case Work(t, fault) => WorkCalm(cfg, origin, st, t, fault, s);
    case SettleDead(t, fault) => DeadCalm(cfg, origin, st, t, fault, s);
    case _ => MailCalm(cfg, origin, st, a, s);
  }

  ghost predicate CalmKept(cfg: Config, origin: Db, states: seq<State>, k: nat, s: SectionId)
    requires k + 1 < |states|
  {
    CalmInv(cfg, origin, states[k], s) ==> CalmInv(cfg, origin, states[k + 1], s)
  }

  lemma {:induction false} CalmByInduction(cfg: Config, origin: Db, states: seq<State>, m: nat, n: nat, s: SectionId)
    requires m <= n < |states| && CalmInv(cfg, origin, states[m], s)
    requires forall k :: m <= k < n ==> CalmKept(cfg, origin, states, k, s)
    ensures CalmInv(cfg, origin, states[n], s)
  {
    if m < n {
      CalmByInduction(cfg, origin, states, m, n - 1, s);
      assert CalmKept(cfg, origin, states, n - 1, s);
    }
  }

  lemma CalmHolds(cfg: Config, states: seq<State>, actions: seq<Action>, m: nat, n: nat, s: SectionId)
    requires Run(cfg, states, actions) && m <= n < |states| && Init(cfg, states[0]) && Quiet(cfg)
             && s in cfg.catalog.rows
    requires CalmAt(cfg, states[m], s) && CalmBetween(cfg, states, actions, m, n, s)
    ensures CalmInv(cfg, states[m].db, states[n], s)
  {
    InitHolds(cfg, states[0]);
    RunKeeps(cfg, states, actions, m);
    HonestAtFirst(states[m].db, s);
    forall k | m <= k < n ensures CalmKept(cfg, states[m].db, states, k, s) {
      RunKeeps(cfg, states, actions, k);
      if CalmInv(cfg, states[m].db, states[k], s) { CalmStep(cfg, states[m].db, states[k], actions[k], s); }
    }
    CalmByInduction(cfg, states[m].db, states, m, n, s);
  }

  // ---- The seats are given out exactly ----

  ghost function SuccessSet(db: Db, s: SectionId): set<ItemId> { set i | i in db.items && SuccessOn?(db.items[i], s) }

  lemma RegisteredIsSet(db: Db, s: SectionId)
    ensures Registered(db, s) == |SuccessSet(db, s)|
  {
    var p := (it: Item) => SuccessOn?(it, s);
    TallyCount(db.items, p, SuccessOn(s));
    assert SuccessSet(db, s) == KeysWhere(db.items, p);
  }

  // Winners are the registrations that were not there at first.
  lemma WinnersAreNew(origin: Db, db: Db, s: SectionId)
    requires Honest(origin, db, s)
    ensures |Winners(origin, db, s)| == Registered(db, s) - Registered(origin, s)
  {
    RegisteredIsSet(db, s);
    RegisteredIsSet(origin, s);
    var before, won := SuccessSet(origin, s), Winners(origin, db, s);
    forall i | i in SuccessSet(db, s) ensures i in before + won {
      if i in origin.items { assert Mould(db.items[i]) == Mould(origin.items[i]); }
    }
    forall i | i in before ensures i in SuccessSet(db, s) { assert Mould(db.items[i]) == Mould(origin.items[i]); }
    assert SuccessSet(db, s) == before + won && before !! won;
  }

  lemma WinnersFill(origin: Db, db: Db, s: SectionId, free: int)
    requires Honest(origin, db, s) && db.seats[s].slDk <= db.seats[s].slMax
    requires free == origin.seats[s].slMax - origin.seats[s].slDk
    requires |Winners(origin, db, s)| == db.seats[s].slDk - origin.seats[s].slDk
    requires forall i :: i in db.items && db.items[i].section == s ==> db.items[i].status != Pending
    ensures |Winners(origin, db, s)| == if |Contenders(origin, db, s)| < free then |Contenders(origin, db, s)| else free
    ensures forall i :: i in Contenders(origin, db, s) ==> db.items[i].status == Success || db.items[i].status == Failed
  {
    var all, won := Contenders(origin, db, s), Winners(origin, db, s);
    forall i | i in all ensures Fair(origin, db, s, i) { assert Contends(origin, db, s, i); }
    assert won <= all;
    FewerInSubset(won, all);
    if won != all {
      var i :| i in all && i !in won;
      assert Fair(origin, db, s, i);
    }
  }

  lemma FewerInSubset(a: set<ItemId>, b: set<ItemId>)
    requires a <= b
    ensures |a| <= |b| && (a == b || |a| < |b|)
  {
    assert b == a + (b - a);
  }

  // From any state of a run on: with F seats free and no cancel and no fault on
  // the section, once nothing on it is PENDING, exactly min(F, N) of the N items
  // that were PENDING or came in since are SUCCESS, and the rest are FAILED.
  lemma ExactContention(cfg: Config, states: seq<State>, actions: seq<Action>, m: nat, n: nat, s: SectionId)
    requires Run(cfg, states, actions) && m <= n < |states| && Init(cfg, states[0]) && Quiet(cfg)
             && s in cfg.catalog.rows
    requires CalmAt(cfg, states[m], s) && CalmBetween(cfg, states, actions, m, n, s)
    requires forall i :: i in states[n].db.items && states[n].db.items[i].section == s ==>
               states[n].db.items[i].status != Pending
    ensures s in states[m].db.seats
    ensures var free := FreeOn(states[m].db, s);
            var all := Contenders(states[m].db, states[n].db, s);
            |Winners(states[m].db, states[n].db, s)| == if |all| < free then |all| else free
    ensures var (all, won) := (Contenders(states[m].db, states[n].db, s), Winners(states[m].db, states[n].db, s));
            won <= all && forall i :: i in all - won ==> states[n].db.items[i].status == Failed
  {
    CalmHolds(cfg, states, actions, m, n, s);
    var origin, db := states[m].db, states[n].db;
    SeatConservation(cfg, states, actions, m, s);
    SeatConservation(cfg, states, actions, n, s);
    NoOverselling(cfg, states, actions, n, s);
    WinnersAreNew(origin, db, s);
    WinnersFill(origin, db, s, origin.seats[s].slMax - origin.seats[s].slDk);
  }

  function FreeOn(db: Db, s: SectionId): int
    requires s in db.seats
  {
    db.seats[s].slMax - db.seats[s].slDk
  }

  ghost predicate Recorded(db: Db, items: set<ItemId>, v: int) {
    exists i :: i in items && i in db.items && db.items[i].remaining == Some(v)
  }

  // At every moment the winners so far recorded pairwise different numbers of
  // seats left: each number from the seats free now up to one below the seats
  // free at first, once.
  lemma DistinctRecords(cfg: Config, states: seq<State>, actions: seq<Action>, m: nat, n: nat, s: SectionId)
    requires Run(cfg, states, actions) && m <= n < |states| && Init(cfg, states[0]) && Quiet(cfg)
             && s in cfg.catalog.rows
    requires CalmAt(cfg, states[m], s) && CalmBetween(cfg, states, actions, m, n, s)
    ensures s in states[m].db.seats && s in states[n].db.seats && 0 <= FreeOn(states[n].db, s)
    ensures var (won, items) := (Winners(states[m].db, states[n].db, s), states[n].db.items);
            && (forall i :: i in won ==>
                  items[i].remaining.Some?
                  && FreeOn(states[n].db, s) <= items[i].remaining.value < FreeOn(states[m].db, s))
            && (forall i, j :: i in won && j in won && items[i].remaining == items[j].remaining ==> i == j)
            && (forall v :: FreeOn(states[n].db, s) <= v < FreeOn(states[m].db, s) ==>
                  Recorded(states[n].db, won, v))
  {
    CalmHolds(cfg, states, actions, m, n, s);
    NoOverselling(cfg, states, actions, n, s);
    SeatConservation(cfg, states, actions, m, s);
    SeatConservation(cfg, states, actions, n, s);
    WinnersAreNew(states[m].db, states[n].db, s);
    RecordsFill(states[m].db, states[n].db, s);
  }

  lemma RecordsFill(origin: Db, db: Db, s: SectionId)
    requires Honest(origin, db, s) && |Winners(origin, db, s)| == FreeOn(origin, s) - FreeOn(db, s)
    ensures var won := Winners(origin, db, s);
            && (forall i :: i in won ==>
                  db.items[i].remaining.Some? && FreeOn(db, s) <= db.items[i].remaining.value < FreeOn(origin, s))
            && (forall i, j :: i in won && j in won && db.items[i].remaining == db.items[j].remaining ==> i == j)
            && (forall v :: FreeOn(db, s) <= v < FreeOn(origin, s) ==> Recorded(db, won, v))
  {
    var won := Winners(origin, db, s);
    forall i | i in won ensures Won(origin, db, s, i) && Fair(origin, db, s, i) { assert Contends(origin, db, s, i); }
    forall i, j | i in won && j in won && db.items[i].remaining == db.items[j].remaining
      ensures i == j
    {
      assert SameRecord(origin, db, s, i, j);
    }
    var record := (i: ItemId) =>
      if i in db.items && db.items[i].remaining.Some? then db.items[i].remaining.value else 0;
    forall v | FreeOn(db, s) <= v < FreeOn(origin, s) ensures Recorded(db, won, v) {
      var i := FillsRange(won, record, FreeOn(db, s), FreeOn(origin, s), v);
      assert db.items[i].remaining == Some(v);
    }
  }

  // The k-th success on a section records the seats left after it: the seats
  // at the start minus k.
  lemma KthSuccess(cfg: Config, states: seq<State>, actions: seq<Action>, n: nat, i: ItemId)
    requires Run(cfg, states, actions) && n < |actions| && Init(cfg, states[0]) && Steady(cfg)
    requires i in states[n].db.items && states[n].db.items[i].kind == CREATE && states[n].db.items[i].status != Success
    requires i in states[n + 1].db.items && states[n + 1].db.items[i].status == Success
    ensures var after := states[n + 1].db;
            var x := after.items[i].section;
            && x in after.seats && x in cfg.regime.base
            && after.items[i].remaining.Some?
            && after.items[i].remaining.value == after.seats[x].slMax - cfg.regime.base[x] - Registered(after, x)
  {
    RecordedAt(cfg, states, actions, n, i);
    SeatConservation(cfg, states, actions, n + 1, states[n + 1].db.items[i].section);
  }

  lemma RecordedAt(cfg: Config, states: seq<State>, actions: seq<Action>, n: nat, i: ItemId)
    requires Run(cfg, states, actions) && n < |actions| && Init(cfg, states[0])
    requires i in states[n].db.items && states[n].db.items[i].kind == CREATE && states[n].db.items[i].status != Success
    requires i in states[n + 1].db.items && states[n + 1].db.items[i].status == Success
    ensures var after := states[n + 1].db;
            var x := after.items[i].section;
            && x in after.seats && after.items[i].remaining.Some?
            && after.items[i].remaining.value == after.seats[x].slMax - after.seats[x].slDk
  {
    ShapedHolds(cfg, states, actions, n);
    RecordedSeats(cfg, states[n], actions[n], states[n + 1], i);
  }

  lemma RecordedSeats(cfg: Config, s: State, a: Action, next: State, i: ItemId)
    requires Wf(s.db) && s.db.seats.Keys == cfg.catalog.rows.Keys && Enabled(cfg, s, a) && next == Apply(cfg, s, a)
    requires i in s.db.items && s.db.items[i].kind == CREATE && s.db.items[i].status != Success
    requires i in next.db.items && next.db.items[i].status == Success
    ensures var after := next.db;
            var x := after.items[i].section;
            && x in after.seats && after.items[i].remaining.Some?
            && after.items[i].remaining.value == after.seats[x].slMax - after.seats[x].slDk
  {
    match a
    case SubmitCreate(_) => SubmittedKeepOld(cfg, s, a, i);
    case SubmitCancel(_) => SubmittedKeepOld(cfg, s, a, i);
    case Work(t, fault) => AcquireRecords(cfg.regime, s.db, JobOf(s.db, s.mail[t].batch), s.mail[t].place.at, fault, i);
    case SettleDead(t, fault) =>
    case _ =>
  }

  lemma AcquireRecords(g: Regime, db: Db, job: Job, at: Progress, fault: bool, i: ItemId)
    requires Wf(db) && job.batch in db.batches && job == JobOf(db, job.batch)
    requires i in db.items && db.items[i].kind == CREATE && db.items[i].status != Success
    requires i in Advance(db, job, at, fault).0.items && Advance(db, job, at, fault).0.items[i].status == Success
    ensures var after := Advance(db, job, at, fault).0;
            var x := after.items[i].section;
            && x in after.seats && after.items[i].remaining.Some?
            && after.items[i].remaining.value == after.seats[x].slMax - after.seats[x].slDk
  {
    match at.phase
    case AtItem(k) =>
      if k < |job.items| {
        assert EntryWf(db, job.batch, k) && ItemWf(db, job.items[k].itemId);
      }
    case _ =>
  }
}
