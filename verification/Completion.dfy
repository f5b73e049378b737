// COMPLETED means settled, in every run: handlers may share a batch and dead
// letters may overlap them.
module Completion {
  import opened Tables
  import opened Ledger
  import opened Worker
  import opened Protocol
  import opened Safety

  // A PENDING item of the batch lies ahead of the handler, whose snapshot has it PENDING.
  ghost predicate PendingAhead(db: Db, b: BatchId, at: Progress) {
    at.phase.AtItem? || at.phase.Marking? ==>
      forall i :: i in db.items && db.items[i].batch == b && db.items[i].status == Pending ==>
        at.phase.k <= db.items[i].index && i in at.snapshot && at.snapshot[i] == Pending
  }

  ghost predicate NonePending(db: Db, b: BatchId) {
    forall i :: i in db.items && db.items[i].batch == b ==> db.items[i].status != Pending
  }

  ghost predicate CompletedSettled(db: Db) {
    forall b :: b in db.batches && db.batches[b].status == Completed ==> NonePending(db, b)
  }

  ghost predicate Tidy(cfg: Config, s: State) {
    && Shaped(cfg, s) && CompletedSettled(s.db)
    && (forall t :: t in s.mail ==> s.mail[t].batch in s.db.batches)
    && (forall t :: t in s.mail && Live(s.mail[t]) ==> PendingAhead(s.db, s.mail[t].batch, s.mail[t].place.at))
  }

  // An item of an old batch is PENDING only if it was, at the same place.
  ghost predicate NoneReturns(a: Db, b: Db) {
    && a.batches.Keys <= b.batches.Keys
    && forall i :: i in b.items && b.items[i].status == Pending && b.items[i].batch in a.batches ==>
         i in a.items && a.items[i].status == Pending
         && a.items[i].batch == b.items[i].batch && a.items[i].index == b.items[i].index
  }

  lemma StaysAhead(a: Db, b: Db, n: BatchId, at: Progress)
    requires NoneReturns(a, b) && n in a.batches && PendingAhead(a, n, at)
    ensures PendingAhead(b, n, at)
  {
  }

  // ---- Statements ----

  // A batch is COMPLETED only if it was or has nothing PENDING now.
  lemma SettledKept(a: Db, b: Db)
    requires CompletedSettled(a) && NoneReturns(a, b)
    requires forall n :: n in b.batches && b.batches[n].status == Completed ==>
               NonePending(b, n) || (n in a.batches && a.batches[n].status == Completed)
    ensures CompletedSettled(b)
  {
    forall n | n in b.batches && b.batches[n].status == Completed ensures NonePending(b, n) {
      if n in a.batches && a.batches[n].status == Completed { assert NonePending(a, n); }
    }
  }

  lemma EntryPlace(db: Db, b: BatchId, k: nat)
    requires Wf(db) && b in db.batches && k < |db.batches[b].payload|
    ensures var c := db.batches[b].payload[k].itemId;
            c in db.items && forall i :: i in db.items && db.items[i].batch == b && db.items[i].index == k <==> i == c
  {
    assert EntryWf(db, b, k);
    forall i | i in db.items && db.items[i].batch == b && db.items[i].index == k
      ensures i == db.batches[b].payload[k].itemId
    {
      assert ItemWf(db, i);
    }
  }

  lemma PastTheEnd(db: Db, b: BatchId, at: Progress)
    requires Wf(db) && b in db.batches && PendingAhead(db, b, at)
    requires db.batches[b].payload == [] || (at.phase.AtItem? && |db.batches[b].payload| <= at.phase.k)
    ensures NonePending(db, b)
  {
    forall i | i in db.items && db.items[i].batch == b ensures db.items[i].status != Pending {
      assert ItemWf(db, i);
    }
  }

  // Entry `k` is settled and the rest is as it was.
  lemma PastEntry(db: Db, after: Db, b: BatchId, k: nat, snapshot: map<ItemId, ItemStatus>)
    requires Wf(db) && b in db.batches && k < |db.batches[b].payload| && NoneReturns(db, after)
    requires PendingAhead(db, b, Progress(AtItem(k), snapshot))
    requires var c := db.batches[b].payload[k].itemId;
             (c in after.items ==> after.items[c].status != Pending) || c !in snapshot || snapshot[c] != Pending
    ensures PendingAhead(after, b, Progress(AtItem(k + 1), snapshot))
  {
    EntryPlace(db, b, k);
  }

  lemma AttemptReturns(db: Db, job: Job, k: nat)
    requires Wf(db) && job.batch in db.batches && job == JobOf(db, job.batch) && k < |job.items| && Fillable(job, k)
    ensures var (after, ok) := Attempt(db, job, k);
            && NoneReturns(db, after) && after.batches == db.batches
            && (ok ==> job.items[k].itemId in after.items && after.items[job.items[k].itemId].status != Pending)
  {
    EntryItem(db, job.batch, k);
  }

  lemma AdvanceReturns(db: Db, job: Job, at: Progress, fault: bool)
    requires Wf(db) && job.batch in db.batches && job == JobOf(db, job.batch)
    ensures NoneReturns(db, Advance(db, job, at, fault).0)
  {
    match at.phase
    case AtItem(k) =>
      if k < |job.items| && Todo(job, at.snapshot, k) && Fillable(job, k) && !fault { AttemptReturns(db, job, k); }
    case _ =>
  }

  lemma AdvanceAhead(db: Db, job: Job, at: Progress, fault: bool)
    requires Wf(db) && job.batch in db.batches && job == JobOf(db, job.batch) && PendingAhead(db, job.batch, at)
    ensures var (after, at') := Advance(db, job, at, fault); PendingAhead(after, job.batch, at')
  {
    AdvanceReturns(db, job, at, fault);
    var after := Advance(db, job, at, fault).0;
    match at.phase
    case AtItem(k) =>
      if k < |job.items| {
        if Todo(job, at.snapshot, k) && Fillable(job, k) && !fault { AttemptReturns(db, job, k); }
        StaysAhead(db, after, job.batch, at);
        if Advance(db, job, at, fault).1.phase == AtItem(k + 1) { PastEntry(db, after, job.batch, k, at.snapshot); }
      }
    case Marking(k) => if !fault && k < |job.items| { PastEntry(db, after, job.batch, k, at.snapshot); }
    case _ =>
  }

  lemma AdvanceSettled(db: Db, job: Job, at: Progress, fault: bool)
    requires Wf(db) && job.batch in db.batches && job == JobOf(db, job.batch)
    requires PendingAhead(db, job.batch, at) && CompletedSettled(db)
    ensures CompletedSettled(Advance(db, job, at, fault).0)
  {
    AdvanceReturns(db, job, at, fault);
    var after := Advance(db, job, at, fault).0;
    if at.phase == Loading || (at.phase.AtItem? && at.phase.k >= |job.items|) {
      if job.items == [] || at.phase.AtItem? { PastTheEnd(db, job.batch, at); }
    } else {
      AdvanceCompletesNone(db, job, at, fault);
    }
    SettledKept(db, after);
  }

  lemma AdvanceCompletesNone(db: Db, job: Job, at: Progress, fault: bool)
    requires at.phase != Loading && (at.phase.AtItem? ==> at.phase.k < |job.items|)
    ensures Advance(db, job, at, fault).0.batches == db.batches
  {
  }

  // ---- Steps and runs ----

  lemma StepTidy(cfg: Config, s: State, a: Action)
    requires Tidy(cfg, s) && Enabled(cfg, s, a)
    ensures Tidy(cfg, Apply(cfg, s, a))
  {
    var after := Apply(cfg, s, a);
    ShapedStep(cfg, s, a);
    match a
    case SubmitCreate(sub) =>
      CreateInsertable(cfg, s, sub);
      InsertTidy(cfg, s, sub, CreateBatchOf(cfg, sub), after.redis);
    case SubmitCancel(sub) =>
      CancelInsertable(cfg, s, sub);
      InsertTidy(cfg, s, sub, CancelBatchOf(cfg, s.db, sub), after.redis);
    case Work(t, fault) => WorkTidy(cfg, s, t, fault);
    case SettleDead(t, fault) => DeadTidy(cfg, s, t, fault);
    case _ => MailTidy(cfg, s, a);
  }

  lemma MailTidy(cfg: Config, s: State, a: Action)
    requires Tidy(cfg, s) && Enabled(cfg, s, a)
    requires a.CacheFill? || a.Deliver? || a.Republish? || a.Ack? || a.Crash? || a.Redeliver?
    ensures Tidy(cfg, Apply(cfg, s, a))
  {
  }

  lemma OthersAhead(cfg: Config, s: State, db: Db)
    requires Tidy(cfg, s) && NoneReturns(s.db, db)
    ensures forall t :: t in s.mail ==> s.mail[t].batch in db.batches
    ensures forall t :: t in s.mail && Live(s.mail[t]) ==> PendingAhead(db, s.mail[t].batch, s.mail[t].place.at)
  {
    forall t | t in s.mail && Live(s.mail[t]) ensures PendingAhead(db, s.mail[t].batch, s.mail[t].place.at) {
      StaysAhead(s.db, db, s.mail[t].batch, s.mail[t].place.at);
    }
  }

  lemma InsertTidy(cfg: Config, s: State, sub: Submission, batch: Batch, redis: map<SectionId, int>)
    requires Tidy(cfg, s) && Insertable(s.db, sub.batch, batch) && batch.status == Waiting
    requires Shaped(cfg, Publish(s, InsertBatch(s.db, sub.batch, batch), redis, sub))
    ensures Tidy(cfg, Publish(s, InsertBatch(s.db, sub.batch, batch), redis, sub))
  {
    var db := InsertBatch(s.db, sub.batch, batch);
    InsertedRows(s.db.items, sub.batch, batch.kind, batch.payload, 0);
    forall i | i in db.items && i !in s.db.items ensures db.items[i].batch == sub.batch {
      NewItem(s.db, sub.batch, batch, i);
    }
    SettledKept(s.db, db);
    OthersAhead(cfg, s, db);
  }

  lemma WorkTidy(cfg: Config, s: State, t: Tag, fault: bool)
    requires Tidy(cfg, s) && Enabled(cfg, s, Work(t, fault)) && Shaped(cfg, Worked(s, t, fault))
    ensures Tidy(cfg, Worked(s, t, fault))
  {
    var job, at := JobOf(s.db, s.mail[t].batch), s.mail[t].place.at;
    AdvanceReturns(s.db, job, at, fault);
    AdvanceAhead(s.db, job, at, fault);
    AdvanceSettled(s.db, job, at, fault);
    OthersAhead(cfg, s, Worked(s, t, fault).db);
  }

  lemma DeadTidy(cfg: Config, s: State, t: Tag, fault: bool)
    requires Tidy(cfg, s) && Enabled(cfg, s, SettleDead(t, fault)) && Shaped(cfg, Apply(cfg, s, SettleDead(t, fault)))
    ensures Tidy(cfg, Apply(cfg, s, SettleDead(t, fault)))
  {
    var db := Apply(cfg, s, SettleDead(t, fault)).db;
    SettledKept(s.db, db);
    OthersAhead(cfg, s, db);
  }

  lemma {:induction false} TidyHolds(cfg: Config, states: seq<State>, actions: seq<Action>, n: nat)
    requires Run(cfg, states, actions) && n < |states| && Init(cfg, states[0])
    ensures Tidy(cfg, states[n])
  {
    if n > 0 {
      TidyHolds(cfg, states, actions, n - 1);
      StepTidy(cfg, states[n - 1], actions[n - 1]);
    }
  }

  // In every state of every run no item of a COMPLETED batch is PENDING, and a
  // PENDING item lies ahead of every live handler of its batch.
  lemma CompletedIsSettled(cfg: Config, states: seq<State>, actions: seq<Action>, n: nat, i: ItemId)
    requires Run(cfg, states, actions) && n < |states| && Init(cfg, states[0])
    requires i in states[n].db.items
    ensures var db := states[n].db;
            db.items[i].batch in db.batches
            && (db.batches[db.items[i].batch].status == Completed ==> db.items[i].status != Pending)
  {
    TidyHolds(cfg, states, actions, n);
    assert ItemWf(states[n].db, i);
    if states[n].db.batches[states[n].db.items[i].batch].status == Completed {
      assert NonePending(states[n].db, states[n].db.items[i].batch);
    }
  }
}
