// A small system to run by hand: one section with one row and two free seats,
// one student, and any number of retries.
module OneSection {
  import opened Prelude
  import opened Tables
  import opened Timetable
  import opened Pairing
  import opened Admission
  import opened Ledger
  import opened Worker
  import opened Protocol

  const ROW := SectionRow(0, "A", 0, None, None, false, None, None, None, None, None, None)
  const CATALOG := Catalog(map[0 := ROW], map[("S", "A") := [0]], map[0 := 3])

  function OneRowSystem(dead: DeadLetters, m: nat): Config {
    Config(Regime(map[0 := 3], OnePerBatch, dead), CATALOG, Settings("S", 0, 10, 20), m)
  }

  function Ask(b: BatchId, i: ItemId, t: Tag): Submission { Submission(7, "S", ["A"], 5, [], b, [i], t, true) }

  function Return(b: BatchId, i: ItemId, t: Tag): Submission { Submission(7, "S", ["A"], 5, [0], b, [i], t, true) }

  // The items, batches and message copies of the runs.
  function Taken(b: BatchId, status: ItemStatus, remaining: Option<int>, held: int): Item {
    Item(b, CREATE, 0, status, remaining, 0, None, held)
  }

  function Given(b: BatchId, status: ItemStatus, remaining: Option<int>): Item {
    Item(b, CANCEL, 0, status, remaining, 0, Some(0), 0)
  }

  function Asked(i: ItemId, status: BatchStatus): Batch { Batch(7, "S", CREATE, status, [JobItem(i, Some(0), None)]) }

  function Returned(i: ItemId, status: BatchStatus): Batch {
    Batch(7, "S", CANCEL, status, [JobItem(i, Some(0), Some(0))])
  }

  // The retry headers of a copy: new, or after `k` failed attempts.
  datatype Header = Header(retry: nat, firstQueuedAt: Option<int>)

  const NEW := Header(0, None)

  function Worn(k: nat): Header { Header(k, if k == 0 then None else Some(9)) }

  function Copy(b: BatchId, h: Header, place: Place): Delivery { Delivery(b, h.retry, h.firstQueuedAt, place) }

  function At(k: nat, i: ItemId): Place { Handling(Progress(AtItem(k), map[i := Pending])) }

  lemma CatalogOk()
    ensures CatalogWf(CATALOG)
  {
    assert EntryOk(CATALOG, "A", [0]);
  }

  lemma RowsOfA()
    ensures Distinct(["A"]) == ["A"] && Known(CATALOG, "S", ["A"]) && AllRows(CATALOG, "S", ["A"]) == [0]
  {
    var codes := ["A"];
    assert codes[..0] == [] && codes[1..] == [] && Distinct([]) == [];
    assert AllRows(CATALOG, "S", []) == [];
    assert CATALOG.lookup[("S", codes[0])] == [0];
  }

  lemma NothingClashes()
    ensures ConflictFree(RowSet([ROW]))
  {
  }

  lemma NoLimitBroken()
    ensures PairingOk([ROW])
  {
  }

  lemma OneCourse()
    ensures Credits(CATALOG, {}) == 0 && Credits(CATALOG, {0}) == 3
  {
    var credit: CourseId -> int := c => if c in CATALOG.credits then CATALOG.credits[c] else 0;
    SumPick({0}, credit, 0);
    assert {0} - {0} == {};
  }

  lemma ChoiceOfA()
    ensures CatalogWf(CATALOG) && Known(CATALOG, "S", ["A"])
    ensures ChoiceRejection(CATALOG, Settings("S", 0, 10, 20), "S", ["A"], []).None?
  {
    CatalogOk();
    RowsOfA();
    NothingClashes();
    NoLimitBroken();
    OneCourse();
    var reps := Representatives(CATALOG, "S", ["A"]);
    assert reps == [ROW] && reps + [] == [ROW];
    assert RowsAt(CATALOG, [0]) == [ROW] && RowsAt(CATALOG, [0]) + [] == [ROW];
    assert CoursesOf([]) == {} && CoursesOf([ROW]) == {0};
  }

  lemma AskPasses(s: State)
    requires 0 in s.db.seats && 1 <= FreeSeats(s.db, 0) && (0 in s.redis ==> 1 <= s.redis[0])
    requires forall c :: c in s.db.batches ==> s.db.batches[c].status != Waiting
    ensures CatalogWf(CATALOG)
    ensures CreateRejection(CATALOG, Settings("S", 0, 10, 20), s.db, s.redis, 7, "S", ["A"], 5, []).None?
  {
    ChoiceOfA();
    RowsOfA();
    assert RowsAt(CATALOG, SectionsOf(s.db, [])) == [];
    assert FullIds(Refill(s.db, s.redis, [0]), [0]) == {};
    assert Representatives(CATALOG, "S", ["A"]) == [ROW];
  }

  lemma NothingListed(db: Db)
    requires forall j :: j in db.items ==> db.items[j].status != Success
    ensures ActiveAnswer(db, 7, "S", None, []) && ActiveInCatalog(OneRowSystem(AllWait, 0), db, [])
  {
  }

  // A request for the section is accepted while nothing is pending and a seat is left.
  lemma AskAccepted(dead: DeadLetters, m: nat, s: State, b: BatchId, i: ItemId, t: Tag)
    requires FreshIds(s, Ask(b, i, t), 1)
    requires 0 in s.db.seats && 1 <= FreeSeats(s.db, 0) && (0 in s.redis ==> 1 <= s.redis[0])
    requires forall c :: c in s.db.batches ==> s.db.batches[c].status != Waiting
    requires forall j :: j in s.db.items ==> s.db.items[j].status != Success
    ensures Rows(OneRowSystem(dead, m), Ask(b, i, t)) == [0]
            && Enabled(OneRowSystem(dead, m), s, SubmitCreate(Ask(b, i, t)))
  {
    AskPasses(s);
    NothingListed(s.db);
    AskAdmitted(dead, m, s, Ask(b, i, t));
  }

  lemma AskAdmitted(dead: DeadLetters, m: nat, s: State, sub: Submission)
    requires sub.user == 7 && sub.semester == "S" && sub.codes == ["A"] && sub.now == 5 && sub.active == []
             && FreshIds(s, sub, 1)
    requires ActiveAnswer(s.db, 7, "S", None, []) && CatalogWf(CATALOG)
    requires CreateRejection(CATALOG, Settings("S", 0, 10, 20), s.db, s.redis, 7, "S", ["A"], 5, []).None?
    ensures Rows(OneRowSystem(dead, m), sub) == [0] && Enabled(OneRowSystem(dead, m), s, SubmitCreate(sub))
  {
    RowsOfA();
    assert CreateAdmitted(OneRowSystem(dead, m), s, sub);
  }

  // Registration 0 is the student's only one and no cancel is pending.
  ghost predicate MayReturn(db: Db) {
    && 0 in db.items && db.items[0].kind == CREATE && db.items[0].section == 0 && db.items[0].status == Success
    && db.items[0].batch in db.batches
    && db.batches[db.items[0].batch].user == 7 && db.batches[db.items[0].batch].semester == "S"
    && (forall j :: j in db.items && j != 0 ==> db.items[j].kind == CANCEL)
    && (forall c :: c in db.batches && db.batches[c].kind == CANCEL ==> db.batches[c].status != Waiting)
  }

  // A cancel of registration 0 is then accepted.
  lemma ReturnAccepted(dead: DeadLetters, m: nat, s: State, b: BatchId, i: ItemId, t: Tag)
    requires FreshIds(s, Return(b, i, t), 1)
    requires MayReturn(s.db)
    ensures Rows(OneRowSystem(dead, m), Return(b, i, t)) == [0]
            && Enabled(OneRowSystem(dead, m), s, SubmitCancel(Return(b, i, t)))
  {
    CatalogOk();
    RowsOfA();
    assert SectionsOf(s.db, [0]) == [0] && Representatives(CATALOG, "S", ["A"]) == [ROW];
    assert ActiveItem(s.db, 7, "S", 0);
    assert ActiveAnswer(s.db, 7, "S", Some(IdSet([0])), [0]) by {
      forall j | ActiveItem(s.db, 7, "S", j) ensures AnsweredBy(s.db, [0], j) { assert [0][0] == j; }
    }
    assert CancelAdmitted(OneRowSystem(dead, m), s, Return(b, i, t));
  }

  lemma SourceOfReturn(db: Db)
    requires 0 in db.items && db.items[0].section == 0
    ensures SourceOf(db, [0], 0) == Some(0)
  {
  }

  // ---- Steps as updates ----

  // A batch of one item stored, its message not published yet.
  function Unsent(s: State, b: BatchId, i: ItemId, row: Item, batch: Batch, counter: int): State {
    State(Db(s.db.seats, s.db.items[i := row], s.db.batches[b := batch]), s.redis[0 := counter], s.mail, s.starts,
      s.lost)
  }

  function Stored(s: State, b: BatchId, i: ItemId, t: Tag, row: Item, batch: Batch, counter: int): State {
    Placed(Unsent(s, b, i, row, batch, counter), t, b, NEW, Queued).(starts := s.starts[b := 0])
  }

  function Placed(s: State, t: Tag, b: BatchId, h: Header, place: Place): State {
    s.(mail := s.mail[t := Copy(b, h, place)])
  }

  function Started(s: State, t: Tag, b: BatchId, h: Header, starts: nat): State {
    Placed(s, t, b, h, Handling(START)).(starts := s.starts[b := starts])
  }

  function Changed(db: Db, slDk: int, i: ItemId, row: Item): Db {
    Db(db.seats[0 := Seat(5, slDk)], db.items[i := row], db.batches)
  }

  function Buried(db: Db, b: BatchId, i: ItemId, row: Item, batch: Batch): Db {
    Db(db.seats, db.items[i := row], db.batches[b := batch])
  }

  // The dead-letter transaction of a batch with one item, PENDING.
  lemma Buries(db: Db, b: BatchId, i: ItemId)
    requires b in db.batches && i in db.items && db.items[i].status == Pending
    requires forall j :: j in db.items && db.items[j].batch == b <==> j == i
    ensures MarkBatchFailed(db, b) ==
            Buried(db, b, i, db.items[i].(status := Failed), db.batches[b].(status := Completed))
  {
    assert MarkBatchFailed(db, b).items == db.items[i := db.items[i].(status := Failed)];
  }

  // Storing a batch of one item.
  lemma OneRow(db: Db, b: BatchId, batch: Batch)
    requires |batch.payload| == 1 && batch.payload[0].sectionId.Some?
    ensures InsertBatch(db, b, batch) ==
            Db(db.seats,
               db.items[batch.payload[0].itemId :=
                        Item(b, batch.kind, batch.payload[0].sectionId.value, Pending, None, 0, batch.payload[0].source,
                          0)],
               db.batches[b := batch])
  {
    var row := Item(b, batch.kind, batch.payload[0].sectionId.value, Pending, None, 0, batch.payload[0].source, 0);
    assert InsertItems(db.items[batch.payload[0].itemId := row], b, batch.kind, batch.payload, 1) ==
           db.items[batch.payload[0].itemId := row];
  }

  lemma AskStores(dead: DeadLetters, m: nat, s: State, b: BatchId, i: ItemId, t: Tag)
    requires Enabled(OneRowSystem(dead, m), s, SubmitCreate(Ask(b, i, t))) && 0 in s.db.seats
    requires Rows(OneRowSystem(dead, m), Ask(b, i, t)) == [0]
    ensures var free := if 0 in s.redis then s.redis[0] else FreeSeats(s.db, 0);
            Apply(OneRowSystem(dead, m), s, SubmitCreate(Ask(b, i, t))) ==
            Stored(s, b, i, t, Taken(b, Pending, None, 0), Asked(i, Waiting), free - 1)
  {
    var batch := CreateBatchOf(OneRowSystem(dead, m), Ask(b, i, t));
    assert batch == Asked(i, Waiting);
    AskPublished(s, b, i, t);
  }

  lemma AskPublished(s: State, b: BatchId, i: ItemId, t: Tag)
    requires 0 in s.db.seats
    ensures var free := if 0 in s.redis then s.redis[0] else FreeSeats(s.db, 0);
            Publish(s, InsertBatch(s.db, b, Asked(i, Waiting)), Bump(Refill(s.db, s.redis, [0]), [0], -1),
              Ask(b, i, t)) ==
            Stored(s, b, i, t, Taken(b, Pending, None, 0), Asked(i, Waiting), free - 1)
  {
    OneRow(s.db, b, Asked(i, Waiting));
    CountersOfAsk(s.db, s.redis);
  }

  lemma CountersOfAsk(db: Db, redis: map<SectionId, int>)
    requires 0 in db.seats
    ensures var free := if 0 in redis then redis[0] else FreeSeats(db, 0);
            Bump(Refill(db, redis, [0]), [0], -1) == redis[0 := free - 1]
  {
    var filled := Refill(db, redis, [0]);
    assert Bump(filled, [0], -1) == redis[0 := filled[0] - 1];
  }

  lemma ReturnedBatch(dead: DeadLetters, m: nat, db: Db, b: BatchId, i: ItemId, t: Tag)
    requires 0 in db.items && db.items[0].section == 0
    requires Known(CATALOG, "S", Distinct(["A"])) && Rows(OneRowSystem(dead, m), Return(b, i, t)) == [0]
    ensures CancelBatchOf(OneRowSystem(dead, m), db, Return(b, i, t)) == Returned(i, Waiting)
  {
    SourceOfReturn(db);
    assert CancelPayload(db, [0], [0], [i]) == [JobItem(i, Some(0), Some(0))];
  }

  lemma ReturnStores(dead: DeadLetters, m: nat, s: State, b: BatchId, i: ItemId, t: Tag)
    requires Enabled(OneRowSystem(dead, m), s, SubmitCancel(Return(b, i, t)))
    requires 0 in s.db.items && s.db.items[0].section == 0 && 0 in s.redis
             && Rows(OneRowSystem(dead, m), Return(b, i, t)) == [0]
    ensures Apply(OneRowSystem(dead, m), s, SubmitCancel(Return(b, i, t))) ==
            Stored(s, b, i, t, Given(b, Pending, None), Returned(i, Waiting), s.redis[0] + 1)
  {
    ReturnedBatch(dead, m, s.db, b, i, t);
    ReturnPublished(s, b, i, t);
  }

  lemma ReturnPublished(s: State, b: BatchId, i: ItemId, t: Tag)
    requires 0 in s.redis
    ensures Publish(s, InsertBatch(s.db, b, Returned(i, Waiting)), Bump(s.redis, [0], 1), Return(b, i, t)) ==
            Stored(s, b, i, t, Given(b, Pending, None), Returned(i, Waiting), s.redis[0] + 1)
  {
    OneRow(s.db, b, Returned(i, Waiting));
    CountersOfReturn(s.redis);
  }

  lemma CountersOfReturn(redis: map<SectionId, int>)
    requires 0 in redis
    ensures Bump(redis, [0], 1) == redis[0 := redis[0] + 1]
  {
  }

  // A message no handler works on is delivered.
  lemma Delivers(cfg: Config, s: State, t: Tag, b: BatchId, h: Header)
    requires t in s.mail && s.mail[t] == Copy(b, h, Queued) && b in s.db.batches && b in s.starts && Idle(s, b)
    ensures Leads(cfg, s, Deliver(t), Started(s, t, b, h, s.starts[b] + 1))
  {
  }

  // A handler reads the one PENDING item of its batch.
  lemma Reads(cfg: Config, s: State, t: Tag, i: ItemId)
    requires Enabled(cfg, s, Work(t, false)) && s.mail[t].place == Handling(START)
    requires s.db.batches[s.mail[t].batch].payload != []
    requires forall j :: j in s.db.items && s.db.items[j].batch == s.mail[t].batch <==> j == i
    requires s.db.items[i].status == Pending
    ensures Apply(cfg, s, Work(t, false)) == s.(mail := s.mail[t := s.mail[t].(place := At(0, i))])
  {
    assert Snapshot(s.db, s.mail[t].batch) == map[i := Pending];
  }

  // A handler of a request takes a seat.
  lemma Takes(cfg: Config, s: State, t: Tag, b: BatchId, h: Header, i: ItemId, taken: nat)
    requires t in s.mail && s.mail[t] == Copy(b, h, At(0, i))
    requires b in s.db.batches && s.db.batches[b].payload == Asked(i, Waiting).payload && s.db.batches[b].kind == CREATE
    requires 0 in s.db.seats && s.db.seats[0] == Seat(5, taken) && taken < 5
    requires i in s.db.items && s.db.items[i] == Taken(b, s.db.items[i].status, None, 0)
    ensures Leads(cfg, s, Work(t, false),
                  Placed(s, t, b, h, At(1, i)).(db :=
                    Changed(s.db, taken + 1, i, Taken(b, Success, Some(4 - taken), 1))))
  {
    assert JobOf(s.db, b).items[0] == JobItem(i, Some(0), None);
  }

  // The seat of registration 0 given back by item `c`, which leaves `left` taken.
  function GivenBack(s: State, t: Tag, b: BatchId, h: Header, c: ItemId, left: int, held: int): State {
    Placed(s, t, b, h, At(1, c)).(db := Changed(Changed(s.db, left, 0, Taken(0, Cancelled, Some(5 - left), held)),
                                             left, c, Given(b, Success, Some(5 - left))))
  }

  // The handler of `t` is about to do so; registration 0 keeps `held` seats.
  ghost predicate Owes(s: State, t: Tag, b: BatchId, h: Header, c: ItemId, left: nat, held: int,
                       remaining: Option<int>) {
    && t in s.mail && s.mail[t] == Copy(b, h, At(0, c))
    && b in s.db.batches && s.db.batches[b].payload == Returned(c, Waiting).payload && s.db.batches[b].kind == CANCEL
    && c != 0 && 0 in s.db.seats && s.db.seats[0] == Seat(5, left + 1)
    && 0 in s.db.items && s.db.items[0] == Taken(0, s.db.items[0].status, remaining, held + 1)
    && c in s.db.items && s.db.items[c] == Given(b, s.db.items[c].status, None)
  }

  // A handler of a cancel gives back the seat of registration 0.
  lemma Gives(cfg: Config, s: State, t: Tag, b: BatchId, h: Header, c: ItemId, left: nat, held: int,
              remaining: Option<int>)
    requires Owes(s, t, b, h, c, left, held, remaining)
    ensures Leads(cfg, s, Work(t, false), GivenBack(s, t, b, h, c, left, held))
  {
    assert s.db.seats[0 := Seat(5, left)][0 := Seat(5, left)] == s.db.seats[0 := Seat(5, left)];
    assert JobOf(s.db, b).items[0] == JobItem(c, Some(0), Some(0));
  }

  // The dead-letter consumer settles a batch with one item.
  lemma SettlesDead(cfg: Config, s: State, t: Tag, b: BatchId, h: Header, i: ItemId)
    requires Enabled(cfg, s, SettleDead(t, false)) && s.mail[t] == Copy(b, h, Dead)
    requires b in s.db.batches && i in s.db.items && s.db.items[i].status == Pending
    requires forall j :: j in s.db.items && s.db.items[j].batch == b <==> j == i
    ensures Apply(cfg, s, SettleDead(t, false)) ==
            Placed(s, t, b, h, DeadAcking).(db :=
              Buried(s.db, b, i, s.db.items[i].(status := Failed), s.db.batches[b].(status := Completed)))
  {
    Buries(s.db, b, i);
  }

  ghost predicate Leads(cfg: Config, s: State, a: Action, t: State) { Enabled(cfg, s, a) && Apply(cfg, s, a) == t }

  function Empty(): State { State(Db(map[0 := Seat(5, 3)], map[], map[]), map[], map[], map[], {}) }

  // A run from an initial state to `s`.
  ghost predicate Ends(cfg: Config, states: seq<State>, actions: seq<Action>, s: State) {
    Run(cfg, states, actions) && Init(cfg, states[0]) && states[|actions|] == s
  }

  lemma SystemOk(dead: DeadLetters, m: nat)
    ensures ConfigOk(OneRowSystem(dead, m))
  {
    CatalogOk();
  }

  lemma StartsEmpty(dead: DeadLetters, m: nat)
    ensures Init(OneRowSystem(dead, m), Empty())
  {
    SystemOk(dead, m);
    OnlySection();
  }

  lemma OnlySection()
    ensures Empty().db.seats.Keys == CATALOG.rows.Keys && forall x :: x in Empty().db.seats <==> x == 0
  {
    var seats := map[0 := Seat(5, 3)];
    forall x ensures x in seats <==> x in CATALOG.rows {}
    assert seats.Keys == CATALOG.rows.Keys;
  }

  lemma StartRun(dead: DeadLetters, m: nat) returns (states: seq<State>, actions: seq<Action>)
    ensures states == [Empty()] && actions == [] && Ends(OneRowSystem(dead, m), states, actions, Empty())
  {
    states, actions := [Empty()], [];
    StartsEmpty(dead, m);
  }

  lemma Extended(cfg: Config, states: seq<State>, actions: seq<Action>, s: State, a: Action, t: State)
    returns (longer: seq<State>, more: seq<Action>)
    requires Ends(cfg, states, actions, s) && Leads(cfg, s, a, t)
    ensures longer == states + [t] && more == actions + [a] && Ends(cfg, longer, more, t)
  {
    longer, more := states + [t], actions + [a];
    forall i | 0 <= i < |more|
      ensures Enabled(cfg, longer[i], more[i]) && longer[i + 1] == Apply(cfg, longer[i], more[i])
    {
      if i < |actions| { assert longer[i] == states[i] && longer[i + 1] == states[i + 1]; }
    }
  }

  // ---- Using up the retries ----

  // A queued copy of `b` under tag `t` after `k` failed attempts; `s` has the other copies.
  function Wearing(s: State, t: Tag, b: BatchId, k: nat): State {
    Placed(s, t, b, Worn(k), Queued).(starts := s.starts[b := k])
  }

  function Attempting(s: State, t: Tag, b: BatchId, k: nat, phase: Phase): State {
    Placed(s, t, b, Worn(k), Handling(START.(phase := phase))).(starts := s.starts[b := k + 1])
  }

  function Republishing(s: State, t: Tag, copy: Tag, b: BatchId, k: nat): State {
    Placed(Attempting(s, t, b, k, Republished), copy, b, Worn(k + 1), Queued)
  }

  // No other copy of `b`, and both tags are free.
  ghost predicate OnlyCopy(s: State, b: BatchId, t: Tag) {
    && b in s.db.batches && t !in s.mail && t + 1 !in s.mail
    && forall u :: u in s.mail ==> s.mail[u].batch != b
  }

  lemma RoundDelivers(cfg: Config, s: State, t: Tag, b: BatchId, k: nat)
    requires OnlyCopy(s, b, t)
    ensures Leads(cfg, Wearing(s, t + 1, b, k), Deliver(t + 1), Attempting(s, t + 1, b, k, Loading))
  {
    assert Idle(Wearing(s, t + 1, b, k), b);
    assert s.starts[b := k][b := k + 1] == s.starts[b := k + 1];
    var d := Copy(b, Worn(k), Handling(START));
    assert s.mail[t + 1 := Copy(b, Worn(k), Queued)][t + 1 := d] == s.mail[t + 1 := d];
  }

  lemma RoundThrows(cfg: Config, s: State, t: Tag, b: BatchId, k: nat)
    requires OnlyCopy(s, b, t)
    ensures Leads(cfg, Attempting(s, t + 1, b, k, Loading), Work(t + 1, true), Attempting(s, t + 1, b, k, Failing))
  {
    var d, e := Copy(b, Worn(k), Handling(START)), Copy(b, Worn(k), Handling(START.(phase := Failing)));
    assert s.mail[t + 1 := d][t + 1 := e] == s.mail[t + 1 := e];
  }

  lemma RoundRepublishes(cfg: Config, s: State, t: Tag, b: BatchId, k: nat)
    requires OnlyCopy(s, b, t) && k < cfg.maxRetries
    ensures Leads(cfg, Attempting(s, t + 1, b, k, Failing), Republish(t + 1, t, 9), Republishing(s, t + 1, t, b, k))
  {
    var d, e := Copy(b, Worn(k), Handling(START.(phase := Failing))),
      Copy(b, Worn(k), Handling(START.(phase := Republished)));
    assert s.mail[t + 1 := d][t + 1 := e] == s.mail[t + 1 := e];
  }

  lemma RoundAcks(cfg: Config, s: State, t: Tag, b: BatchId, k: nat)
    requires OnlyCopy(s, b, t)
    ensures Leads(cfg, Republishing(s, t + 1, t, b, k), Ack(t + 1), Wearing(s, t, b, k + 1))
  {
    var e, q := Copy(b, Worn(k), Handling(START.(phase := Republished))), Copy(b, Worn(k + 1), Queued);
    assert s.mail[t + 1 := e][t := q] - {t + 1} == s.mail[t := q];
  }

  lemma TagsFree(s: State, b: BatchId, t: Tag)
    requires OtherCopies(s, b, t)
    ensures OtherCopies(s, b, t + 1) && OnlyCopy(s, b, t)
  {
  }

  // One failed attempt, in four steps.
  lemma Round(cfg: Config, states: seq<State>, actions: seq<Action>, s: State, t: Tag, b: BatchId, k: nat)
    returns (longer: seq<State>, more: seq<Action>)
    requires OnlyCopy(s, b, t) && k < cfg.maxRetries && Ends(cfg, states, actions, Wearing(s, t + 1, b, k))
    ensures Ends(cfg, longer, more, Wearing(s, t, b, k + 1)) && |more| == |actions| + 4
  {
    RoundDelivers(cfg, s, t, b, k);
    longer, more := Extended(cfg, states, actions, Wearing(s, t + 1, b, k), Deliver(t + 1),
                             Attempting(s, t + 1, b, k, Loading));
    RoundThrows(cfg, s, t, b, k);
    longer, more := Extended(cfg, longer, more, Attempting(s, t + 1, b, k, Loading), Work(t + 1, true),
                             Attempting(s, t + 1, b, k, Failing));
    RoundRepublishes(cfg, s, t, b, k);
    longer, more := Extended(cfg, longer, more, Attempting(s, t + 1, b, k, Failing), Republish(t + 1, t, 9),
                             Republishing(s, t + 1, t, b, k));
    RoundAcks(cfg, s, t, b, k);
    longer, more := Extended(cfg, longer, more, Republishing(s, t + 1, t, b, k), Ack(t + 1), Wearing(s, t, b, k + 1));
  }

  // The copies in `s` are of other batches and have lower tags.
  ghost predicate OtherCopies(s: State, b: BatchId, t: Tag) {
    b in s.db.batches && forall u :: u in s.mail ==> s.mail[u].batch != b && u < t
  }

  // A copy published under tag `first` ends under tag `t` with `m` failed attempts.
  lemma {:induction false} WearsOut(cfg: Config, states: seq<State>, actions: seq<Action>, s: State, first: Tag, t: Tag,
                                    b: BatchId, m: nat)
    returns (longer: seq<State>, more: seq<Action>)
    requires first == t + m && m <= cfg.maxRetries && OtherCopies(s, b, t)
    requires Ends(cfg, states, actions, Wearing(s, first, b, 0))
    ensures Ends(cfg, longer, more, Wearing(s, t, b, m)) && |more| == |actions| + 4 * m
    decreases m
  {
    if m == 0 {
      longer, more := states, actions;
    } else {
      TagsFree(s, b, t);
      var before, steps := WearsOut(cfg, states, actions, s, first, t + 1, b, m - 1);
      longer, more := LastRound(cfg, before, steps, s, t, b, m);
    }
  }

  lemma LastRound(cfg: Config, states: seq<State>, actions: seq<Action>, s: State, t: Tag, b: BatchId, m: nat)
    returns (longer: seq<State>, more: seq<Action>)
    requires OnlyCopy(s, b, t) && 0 < m <= cfg.maxRetries && Ends(cfg, states, actions, Wearing(s, t + 1, b, m - 1))
    ensures Ends(cfg, longer, more, Wearing(s, t, b, m)) && |more| == |actions| + 4
  {
    longer, more := Round(cfg, states, actions, s, t, b, m - 1);
  }
}
