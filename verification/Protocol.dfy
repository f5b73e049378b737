// The registration protocol as a labelled transition system: API requests, queue
// deliveries, handler steps, crashes, retries and dead-lettering, interleaved
// in any order.
module Protocol {
  import opened Prelude
  import opened Tables
  import opened Admission
  import opened Ledger
  import opened Worker

  type Tag = nat   // one published copy of a message

  datatype Config = Config(regime: Regime, catalog: Catalog, settings: Settings, maxRetries: nat)

  datatype Place =
    | Queued                  // in the main queue
    | Handling(at: Progress)  // delivered, not acknowledged
    | Dead                    // in the dead-letter queue
    | DeadAcking              // the dead-letter consumer is done with it, not acknowledged

  // A copy of a batch message with its retry headers. The body is the payload
  // of the batch; retries copy it unchanged.
  datatype Delivery = Delivery(batch: BatchId, retry: nat, firstQueuedAt: Option<int>, place: Place)

  // `starts` counts the deliveries of a batch to a handler; `lost` holds the
  // batches whose message was never queued or whose dead-letter transaction failed.
  datatype State = State(db: Db, redis: map<SectionId, int>, mail: map<Tag, Delivery>,
                         starts: map<BatchId, nat>, lost: set<BatchId>)

  // An API request with the values the run supplies: the clock, fresh ids, the
  // answer of findActiveRegistrationItems, and whether the message gets queued.
  datatype Submission = Submission(user: UserId, semester: string, codes: seq<string>, now: int,
                                   active: seq<ItemId>, batch: BatchId, itemIds: seq<ItemId>, tag: Tag, published: bool)

  datatype Action =
    | SubmitCreate(sub: Submission)
    | SubmitCancel(sub: Submission)
    | CacheFill(redis: map<SectionId, int>)        // expiry, prewarm or reconcile: Redis takes any value
    | Deliver(tag: Tag)
    | Work(tag: Tag, fault: bool)                  // one step of a handler
    | Republish(tag: Tag, copy: Tag, now: int)     // publish the retry or dead-letter copy
    | Ack(tag: Tag)
    | Crash(tag: Tag)                              // the broker takes the message back
    | Redeliver(tag: Tag, copy: Tag)               // the broker requeues a message whose handler still runs
    | SettleDead(tag: Tag, fault: bool)            // the dead-letter transaction

  // ---- API requests ----

  function Rows(cfg: Config, sub: Submission): seq<SectionId>
    requires Known(cfg.catalog, sub.semester, Distinct(sub.codes))
  {
    AllRows(cfg.catalog, sub.semester, Distinct(sub.codes))
  }

  function CreatePayload(ids: seq<SectionId>, itemIds: seq<ItemId>): seq<JobItem>
    requires |ids| == |itemIds|
  {
    seq(|ids|, k requires 0 <= k < |ids| => JobItem(itemIds[k], Some(ids[k]), None))
  }

  // The last listed registered item of the section.
  function SourceOf(db: Db, active: seq<ItemId>, s: SectionId): (r: Option<ItemId>)
    requires forall k :: 0 <= k < |active| ==> active[k] in db.items
    ensures r.Some? ==> r.value in active && db.items[r.value].section == s
  {
    if active == [] then None
    else if db.items[active[|active| - 1]].section == s then Some(active[|active| - 1])
    else SourceOf(db, active[..|active| - 1], s)
  }

  function CancelPayload(db: Db, active: seq<ItemId>, ids: seq<SectionId>, itemIds: seq<ItemId>): seq<JobItem>
    requires |ids| == |itemIds| && forall k :: 0 <= k < |active| ==> active[k] in db.items
  {
    seq(|ids|, k requires 0 <= k < |ids| => JobItem(itemIds[k], Some(ids[k]), SourceOf(db, active, ids[k])))
  }

  ghost predicate FreshIds(s: State, sub: Submission, n: nat) {
    && sub.batch !in s.db.batches && sub.tag !in s.mail && sub.batch !in s.starts && sub.batch !in s.lost
    && |sub.itemIds| == n
    && (forall k :: 0 <= k < n ==> sub.itemIds[k] !in s.db.items)
    && (forall j, k :: 0 <= j < k < n ==> sub.itemIds[j] != sub.itemIds[k])
  }

  ghost predicate ActiveInCatalog(cfg: Config, db: Db, active: seq<ItemId>) {
    forall k :: 0 <= k < |active| ==> active[k] in db.items && db.items[active[k]].section in cfg.catalog.rows
  }

  ghost predicate CreateAdmitted(cfg: Config, s: State, sub: Submission) {
    && CatalogWf(cfg.catalog)
    && ActiveAnswer(s.db, sub.user, sub.semester, None, sub.active)
    && ActiveInCatalog(cfg, s.db, sub.active)
    && CreateRejection(cfg.catalog, cfg.settings, s.db, s.redis, sub.user, sub.semester, Distinct(sub.codes), sub.now,
          sub.active).None?
    && FreshIds(s, sub, |Rows(cfg, sub)|)
  }

  ghost predicate CancelAdmitted(cfg: Config, s: State, sub: Submission) {
    && CatalogWf(cfg.catalog)
    && Known(cfg.catalog, sub.semester, Distinct(sub.codes))
    && ActiveAnswer(s.db, sub.user, sub.semester, Some(IdSet(Rows(cfg, sub))), sub.active)
    && CancelRejection(cfg.catalog, cfg.settings, s.db, sub.user, sub.semester, Distinct(sub.codes), sub.now,
          sub.active).None?
    && FreshIds(s, sub, |Rows(cfg, sub)|)
  }

  function CreateBatchOf(cfg: Config, sub: Submission): Batch
    requires Known(cfg.catalog, sub.semester, Distinct(sub.codes)) && |sub.itemIds| == |Rows(cfg, sub)|
  {
    Batch(sub.user, sub.semester, CREATE, Waiting, CreatePayload(Rows(cfg, sub), sub.itemIds))
  }

  function CancelBatchOf(cfg: Config, db: Db, sub: Submission): Batch
    requires Known(cfg.catalog, sub.semester, Distinct(sub.codes)) && |sub.itemIds| == |Rows(cfg, sub)|
    requires forall k :: 0 <= k < |sub.active| ==> sub.active[k] in db.items
  {
    Batch(sub.user, sub.semester, CANCEL, Waiting, CancelPayload(db, sub.active, Rows(cfg, sub), sub.itemIds))
  }

  // Insert the batch and publish its message.
  function Publish(s: State, db: Db, redis: map<SectionId, int>, sub: Submission): State {
    State(db, redis,
          if sub.published then s.mail[sub.tag := Delivery(sub.batch, 0, None, Queued)] else s.mail,
          s.starts[sub.batch := 0],
          if sub.published then s.lost else s.lost + {sub.batch})
  }

  // ---- Deliveries ----

  // The handler may still change the tables.
  predicate Live(d: Delivery) {
    d.place.Handling? && (d.place.at.phase == Loading || d.place.at.phase.AtItem? || d.place.at.phase.Marking?)
  }

  // No handler of the batch may still change the tables.
  ghost predicate Idle(s: State, b: BatchId) {
    forall t :: t in s.mail && s.mail[t].batch == b ==> !Live(s.mail[t])
  }

  // At most one handler works on a batch at a time, where the regime says so.
  ghost predicate Exclusive(cfg: Config, s: State, b: BatchId) {
    b in s.db.batches && (Governed(cfg.regime, s.db.batches[b].kind) ==> Idle(s, b))
  }

  // A dead letter waits for the handler of its batch, where the regime says so.
  ghost predicate DeadMayRun(cfg: Config, s: State, b: BatchId) {
    b in s.db.batches && (DeadWaits(cfg.regime, s.db.batches[b].kind) ==> Idle(s, b))
  }

  predicate In(s: State, t: Tag, place: Place) { t in s.mail && s.mail[t].place == place }

  predicate InPhase(s: State, t: Tag, phase: Phase) {
    t in s.mail && s.mail[t].place.Handling? && s.mail[t].place.at.phase == phase
  }

  ghost predicate Enabled(cfg: Config, s: State, a: Action) {
    match a
    case SubmitCreate(sub) => CreateAdmitted(cfg, s, sub)
    case SubmitCancel(sub) => CancelAdmitted(cfg, s, sub)
    case CacheFill(_) => true
    case Deliver(t) => In(s, t, Queued) && Exclusive(cfg, s, s.mail[t].batch) && s.mail[t].batch in s.starts
    case Work(t, _) => t in s.mail && Live(s.mail[t]) && s.mail[t].batch in s.db.batches
    case Republish(t, copy, _) => InPhase(s, t, Failing) && copy !in s.mail
    case Ack(t) => InPhase(s, t, Acking) || InPhase(s, t, Republished) || In(s, t, DeadAcking)
    case Crash(t) => t in s.mail && (s.mail[t].place.Handling? || s.mail[t].place == DeadAcking)
    case Redeliver(t, copy) => t in s.mail && s.mail[t].place.Handling? && copy !in s.mail
    case SettleDead(t, fault) => In(s, t, Dead) && DeadMayRun(cfg, s, s.mail[t].batch)
  }

  // The copy published when a handler threw: a retry, or the dead letter once
  // the retries are used up.
  function CopyOf(cfg: Config, d: Delivery, now: int): Delivery {
    if d.retry < cfg.maxRetries then
      Delivery(d.batch, d.retry + 1, if d.firstQueuedAt.Some? then d.firstQueuedAt else Some(now), Queued)
    else
      Delivery(d.batch, d.retry, d.firstQueuedAt, Dead)
  }

  function Move(s: State, t: Tag, place: Place): State
    requires t in s.mail
  {
    s.(mail := s.mail[t := s.mail[t].(place := place)])
  }

  function Worked(s: State, t: Tag, fault: bool): State
    requires t in s.mail && s.mail[t].place.Handling? && s.mail[t].batch in s.db.batches
  {
    var d := s.mail[t];
    var (db, at) := Advance(s.db, JobOf(s.db, d.batch), d.place.at, fault);
    Move(s, t, Handling(at)).(db := db)
  }

  ghost function Apply(cfg: Config, s: State, a: Action): State
    requires Enabled(cfg, s, a)
  {
    match a
    case SubmitCreate(sub) =>
      CreatePayloadFilled(Rows(cfg, sub), sub.itemIds);
      var ids := Rows(cfg, sub);
      Publish(s, InsertBatch(s.db, sub.batch, CreateBatchOf(cfg, sub)), Bump(Refill(s.db, s.redis, ids), ids, -1), sub)
    case SubmitCancel(sub) =>
      CancelPayloadFilled(s.db, sub.active, Rows(cfg, sub), sub.itemIds);
      Publish(s, InsertBatch(s.db, sub.batch, CancelBatchOf(cfg, s.db, sub)), Bump(s.redis, Rows(cfg, sub), 1), sub)
    case CacheFill(redis) => s.(redis := redis)
    case Deliver(t) =>
      var b := s.mail[t].batch;
      Move(s, t, Handling(START)).(starts := s.starts[b := s.starts[b] + 1])
    case Work(t, fault) => Worked(s, t, fault)
    case Republish(t, copy, now) =>
      var d := s.mail[t];
      s.(mail := s.mail[t := d.(place := Handling(d.place.at.(phase := Republished)))][copy := CopyOf(cfg, d, now)])
    case Ack(t) => s.(mail := s.mail - {t})
    case Redeliver(t, copy) => s.(mail := s.mail[copy := s.mail[t].(place := Queued)])
    case Crash(t) => Move(s, t, if s.mail[t].place == DeadAcking then Dead else Queued)
    case SettleDead(t, fault) =>
      var b := s.mail[t].batch;
      if fault then Move(s, t, DeadAcking).(lost := s.lost + {b})
      else Move(s, t, DeadAcking).(db := MarkBatchFailed(s.db, b))
  }

  lemma CreatePayloadFilled(ids: seq<SectionId>, itemIds: seq<ItemId>)
    requires |ids| == |itemIds|
    ensures forall j :: 0 <= j < |ids| ==> CreatePayload(ids, itemIds)[j].sectionId.Some?
  {
  }

  lemma CancelPayloadFilled(db: Db, active: seq<ItemId>, ids: seq<SectionId>, itemIds: seq<ItemId>)
    requires |ids| == |itemIds| && forall k :: 0 <= k < |active| ==> active[k] in db.items
    ensures forall j :: 0 <= j < |ids| ==> CancelPayload(db, active, ids, itemIds)[j].sectionId.Some?
  {
  }

  // ---- Runs ----

  ghost predicate ConfigOk(cfg: Config) {
    && CatalogWf(cfg.catalog)
    && cfg.regime.base.Keys == cfg.catalog.rows.Keys
    && 0 <= cfg.settings.maxCredits
  }

  // No batch yet, and every section between empty and full.
  ghost predicate Init(cfg: Config, s: State) {
    && ConfigOk(cfg)
    && s.db.items == map[] && s.db.batches == map[] && s.mail == map[] && s.starts == map[] && s.lost == {}
    && s.db.seats.Keys == cfg.catalog.rows.Keys
    && forall x :: x in s.db.seats ==>
       cfg.regime.base[x] == s.db.seats[x].slDk && 0 <= s.db.seats[x].slDk <= s.db.seats[x].slMax
  }

  // `states` is the run of `actions` from its first state.
  ghost predicate Run(cfg: Config, states: seq<State>, actions: seq<Action>) {
    && |states| == |actions| + 1
    && forall i :: 0 <= i < |actions| ==>
       Enabled(cfg, states[i], actions[i]) && states[i + 1] == Apply(cfg, states[i], actions[i])
  }
}
