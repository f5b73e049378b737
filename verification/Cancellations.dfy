// A cancellation that names its registration is granted: from any state on, if
// no statement throws for the batch and no copy of it dies.
module Cancellations {
  import opened Prelude
  import opened Tables
  import opened Ledger
  import opened Worker
  import opened Protocol
  import opened Safety
  import opened Seats

  // The item asks to give up a registration and has not been refused.
  predicate Standing(db: Db, i: ItemId) {
    i in db.items && db.items[i].source.Some? && (db.items[i].status == Pending || db.items[i].status == Success)
  }

  // A copy of the batch is about to mark an entry FAILED only if it names no registration.
  predicate MarksUnnamed(db: Db, d: Delivery) {
    d.batch in db.batches && d.place.Handling? && d.place.at.phase.Marking?
    && d.place.at.phase.k < |db.batches[d.batch].payload| ==>
      db.batches[d.batch].payload[d.place.at.phase.k].source.None?
  }

  ghost predicate Undisturbed(st: State, b: BatchId) {
    && b in st.db.batches && st.db.batches[b].kind == CANCEL
    && forall t :: t in st.mail && st.mail[t].batch == b ==> MarksUnnamed(st.db, st.mail[t])
  }

  // No copy of the batch is dead in states m to n, and no statement of its
  // handlers throws in between.
  ghost predicate Spared(states: seq<State>, actions: seq<Action>, m: nat, n: nat, b: BatchId) {
    && (forall k, t :: m <= k <= n && k < |states| && t in states[k].mail && states[k].mail[t].batch == b ==>
          states[k].mail[t].place != Dead)
    && (forall k :: m <= k < n && k < |states| && k < |actions| ==> !Throws(states[k], actions[k], b))
  }

  predicate Throws(st: State, a: Action, b: BatchId) {
    a.Work? && a.fault && a.tag in st.mail && st.mail[a.tag].batch == b
  }

  ghost predicate NoneDead(st: State, b: BatchId) {
    forall t :: t in st.mail && st.mail[t].batch == b ==> st.mail[t].place != Dead
  }

  // A handler step of another batch leaves the items of this one alone.
  lemma ElsewhereStands(db: Db, job: Job, at: Progress, fault: bool, i: ItemId)
    requires Wf(db) && job.batch in db.batches && job == JobOf(db, job.batch)
    requires Standing(db, i) && db.items[i].kind == CANCEL && db.items[i].batch != job.batch
    ensures Standing(Advance(db, job, at, fault).0, i)
  {
    match at.phase
    case AtItem(k) => if k < |job.items| { NotTouched(db, job.batch, k, i); }
    case Marking(k) => if k < |job.items| { NotTouched(db, job.batch, k, i); }
    case _ =>
  }

  lemma NotTouched(db: Db, b: BatchId, k: nat, i: ItemId)
    requires Wf(db) && b in db.batches && k < |db.batches[b].payload|
    requires i in db.items && db.items[i].kind == CANCEL && db.items[i].batch != b
    ensures var entry := db.batches[b].payload[k];
            && entry.itemId != i && entry.source != Some(i)
            && entry.itemId in db.items && entry.sectionId == Some(db.items[entry.itemId].section)
  {
    EntryItem(db, b, k);
    var c := db.batches[b].payload[k].itemId;
    assert ItemWf(db, c);
    if db.items[c].source.Some? { assert SourceWf(db, db.items[c], db.items[c].source.value); }
  }

  // A handler step of the batch itself, without a fault.
  lemma OwnStands(db: Db, job: Job, at: Progress, i: ItemId)
    requires Wf(db) && job.batch in db.batches && job == JobOf(db, job.batch) && job.kind == CANCEL
    requires at.phase.Marking? && at.phase.k < |job.items| ==> job.items[at.phase.k].source.None?
    requires Standing(db, i)
    ensures Standing(Advance(db, job, at, false).0, i)
    ensures var next := Advance(db, job, at, false).1;
            next.phase.Marking? && next.phase.k < |job.items| ==> job.items[next.phase.k].source.None?
  {
    OwnMarks(db, job, at);
    match at.phase
    case AtItem(k) => if k < |job.items| { OwnSource(db, job.batch, k, i); }
    case Marking(k) => if k < |job.items| { EntryItem(db, job.batch, k); }
    case _ =>
  }

  lemma OwnMarks(db: Db, job: Job, at: Progress)
    requires Wf(db) && job.batch in db.batches && job == JobOf(db, job.batch) && job.kind == CANCEL
    ensures var next := Advance(db, job, at, false).1;
            next.phase.Marking? && next.phase.k < |job.items| ==> job.items[next.phase.k].source.None? || next == at
  {
    match at.phase
    case AtItem(k) => if k < |job.items| { EntryItem(db, job.batch, k); }
    case _ =>
  }

  lemma OwnSource(db: Db, b: BatchId, k: nat, i: ItemId)
    requires Wf(db) && b in db.batches && db.batches[b].kind == CANCEL && k < |db.batches[b].payload|
    requires i in db.items && db.items[i].source.Some?
    ensures var entry := db.batches[b].payload[k]; entry.itemId in db.items && entry.source != Some(i)
  {
    EntryItem(db, b, k);
    var c := db.batches[b].payload[k].itemId;
    assert ItemWf(db, c) && ItemWf(db, i);
    if db.items[c].source.Some? { assert SourceWf(db, db.items[c], db.items[c].source.value); }
  }

  // One step of the run.
  lemma StepStands(cfg: Config, st: State, a: Action, b: BatchId, i: ItemId)
    requires Shaped(cfg, st) && Enabled(cfg, st, a) && Undisturbed(st, b) && NoneDead(st, b) && !Throws(st, a, b)
    requires Standing(st.db, i) && st.db.items[i].batch == b
    ensures var next := Apply(cfg, st, a); Standing(next.db, i) && next.db.items[i].batch == b
  {
    assert ItemWf(st.db, i);
    match a
    case SubmitCreate(_) => SubmittedKeepOld(cfg, st, a, i);
    case SubmitCancel(_) => SubmittedKeepOld(cfg, st, a, i);
    case Work(t, fault) =>
      var job, at := JobOf(st.db, st.mail[t].batch), st.mail[t].place.at;
      AdvanceShape(st.db, job, at, fault);
      assert Mould(Worked(st, t, fault).db.items[i]) == Mould(st.db.items[i]);
      if st.mail[t].batch == b {
        OwnStands(st.db, job, at, i);
      } else {
        ElsewhereStands(st.db, job, at, fault, i);
      }
    case _ =>
  }

  // A batch keeps its kind and payload.
  lemma BatchStays(cfg: Config, st: State, a: Action, b: BatchId)
    requires Shaped(cfg, st) && Enabled(cfg, st, a) && b in st.db.batches
    ensures var after := Apply(cfg, st, a).db;
            b in after.batches && after.batches[b].kind == st.db.batches[b].kind
            && after.batches[b].payload == st.db.batches[b].payload
  {
    if a.Work? {
      AdvanceShape(st.db, JobOf(st.db, st.mail[a.tag].batch), st.mail[a.tag].place.at, a.fault);
      assert st.db.batches[b].(status := Waiting) == Apply(cfg, st, a).db.batches[b].(status := Waiting);
    }
  }

  lemma StepUndisturbed(cfg: Config, st: State, a: Action, b: BatchId)
    requires Shaped(cfg, st) && Enabled(cfg, st, a) && Undisturbed(st, b) && !Throws(st, a, b)
    ensures Undisturbed(Apply(cfg, st, a), b)
  {
    var next := Apply(cfg, st, a);
    BatchStays(cfg, st, a, b);
    forall t | t in next.mail && next.mail[t].batch == b ensures MarksUnnamed(next.db, next.mail[t]) {
      if t in st.mail && st.mail[t].batch == b { assert MarksUnnamed(st.db, st.mail[t]); }
      if a.Work? && a.tag == t { OwnMarks(st.db, JobOf(st.db, b), st.mail[t].place.at); }
    }
  }

  lemma SparedAt(states: seq<State>, actions: seq<Action>, m: nat, n: nat, k: nat, b: BatchId)
    requires Spared(states, actions, m, n, b) && m <= k < n < |states| && n <= |actions|
    ensures NoneDead(states[k], b) && !Throws(states[k], actions[k], b)
  {
  }

  // From one state of a run to the next.
  lemma NextStands(cfg: Config, states: seq<State>, actions: seq<Action>, n: nat, b: BatchId, i: ItemId)
    requires Run(cfg, states, actions) && n < |actions| && Init(cfg, states[0])
    requires Undisturbed(states[n], b) && NoneDead(states[n], b) && !Throws(states[n], actions[n], b)
    requires Standing(states[n].db, i) && states[n].db.items[i].batch == b
    ensures Undisturbed(states[n + 1], b) && Standing(states[n + 1].db, i) && states[n + 1].db.items[i].batch == b
  {
    ShapedHolds(cfg, states, actions, n);
    StepUndisturbed(cfg, states[n], actions[n], b);
    StepStands(cfg, states[n], actions[n], b, i);
  }

  ghost predicate StandsAt(states: seq<State>, k: nat, b: BatchId, i: ItemId)
    requires k < |states|
  {
    Undisturbed(states[k], b) && Standing(states[k].db, i) && states[k].db.items[i].batch == b
  }

  lemma {:induction false} StandsByInduction(states: seq<State>, m: nat, n: nat, b: BatchId, i: ItemId)
    requires m <= n < |states| && StandsAt(states, m, b, i)
    requires forall k :: m <= k < n && StandsAt(states, k, b, i) ==> StandsAt(states, k + 1, b, i)
    ensures StandsAt(states, n, b, i)
  {
    if m < n {
      StandsByInduction(states, m, n - 1, b, i);
      assert StandsAt(states, n - 1, b, i);
      assert n - 1 + 1 == n;
    }
  }

  lemma StandsOn(cfg: Config, states: seq<State>, actions: seq<Action>, m: nat, n: nat, b: BatchId, i: ItemId)
    requires Run(cfg, states, actions) && m <= n < |states| && Init(cfg, states[0])
    requires Spared(states, actions, m, n, b) && StandsAt(states, m, b, i)
    ensures StandsAt(states, n, b, i)
  {
    forall k | m <= k < n && StandsAt(states, k, b, i) ensures StandsAt(states, k + 1, b, i) {
      SparedAt(states, actions, m, n, k, b);
      NextStands(cfg, states, actions, k, b, i);
    }
    StandsByInduction(states, m, n, b, i);
  }

  // From any state of any run: once nothing of the batch is PENDING, every cancel
  // item that names its registration is SUCCESS; with one handler per batch and
  // dead letters of CANCEL batches waiting, that registration is CANCELLED.
  lemma CancelsGranted(cfg: Config, states: seq<State>, actions: seq<Action>, m: nat, n: nat, b: BatchId, i: ItemId)
    requires Run(cfg, states, actions) && m <= n < |states| && Init(cfg, states[0])
    requires Undisturbed(states[m], b) && Spared(states, actions, m, n, b)
    requires Standing(states[m].db, i) && states[m].db.items[i].batch == b
    requires forall j :: j in states[n].db.items && states[n].db.items[j].batch == b ==>
               states[n].db.items[j].status != Pending
    ensures i in states[n].db.items && states[n].db.items[i].status == Success
    ensures states[n].db.items[i].source == states[m].db.items[i].source
    ensures Steady(cfg) ==>
      var src := states[n].db.items[i].source.value;
      src in states[n].db.items && states[n].db.items[src].status == Cancelled
  {
    StandsOn(cfg, states, actions, m, n, b, i);
    SourceStays(cfg, states, actions, m, n, i);
    if Steady(cfg) {
      InitHolds(cfg, states[0]);
      RunKeeps(cfg, states, actions, n);
      assert ItemWf(states[n].db, i);
      assert Cancels(states[n].db, i, states[n].db.items[i].source.value);
    }
  }

  lemma SourceStays(cfg: Config, states: seq<State>, actions: seq<Action>, m: nat, n: nat, i: ItemId)
    requires Run(cfg, states, actions) && m <= n < |states| && Init(cfg, states[0]) && i in states[m].db.items
    ensures i in states[n].db.items && Mould(states[n].db.items[i]) == Mould(states[m].db.items[i])
  {
    var mould := Mould(states[m].db.items[i]);
    forall k | m <= k < n && Moulded(states, k, i, mould) ensures Moulded(states, k + 1, i, mould) {
      MouldNext(cfg, states, actions, k, i);
    }
    MouldByInduction(states, m, n, i, mould);
  }

  predicate Moulded(states: seq<State>, k: nat, i: ItemId, mould: Item)
    requires k < |states|
  {
    i in states[k].db.items && Mould(states[k].db.items[i]) == mould
  }

  lemma {:induction false} MouldByInduction(states: seq<State>, m: nat, n: nat, i: ItemId, mould: Item)
    requires m <= n < |states| && Moulded(states, m, i, mould)
    requires forall k :: m <= k < n && Moulded(states, k, i, mould) ==> Moulded(states, k + 1, i, mould)
    ensures Moulded(states, n, i, mould)
  {
    if m < n {
      MouldByInduction(states, m, n - 1, i, mould);
      assert Moulded(states, n - 1, i, mould);
      assert n - 1 + 1 == n;
    }
  }

  lemma MouldNext(cfg: Config, states: seq<State>, actions: seq<Action>, n: nat, i: ItemId)
    requires Run(cfg, states, actions) && n < |actions| && Init(cfg, states[0]) && i in states[n].db.items
    ensures i in states[n + 1].db.items && Mould(states[n + 1].db.items[i]) == Mould(states[n].db.items[i])
  {
    ShapedHolds(cfg, states, actions, n);
    MouldStays(cfg, states[n], actions[n], i);
  }

  lemma MouldStays(cfg: Config, st: State, a: Action, i: ItemId)
    requires Shaped(cfg, st) && Enabled(cfg, st, a) && i in st.db.items
    ensures i in Apply(cfg, st, a).db.items && Mould(Apply(cfg, st, a).db.items[i]) == Mould(st.db.items[i])
  {
    match a
    case SubmitCreate(_) => SubmittedKeepOld(cfg, st, a, i);
    case SubmitCancel(_) => SubmittedKeepOld(cfg, st, a, i);
    case Work(t, fault) => AdvanceShape(st.db, JobOf(st.db, st.mail[t].batch), st.mail[t].place.at, fault);
    case _ =>
  }
}
