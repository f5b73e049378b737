// What the tables satisfy between any two statements of a run, and that each
// statement keeps it.
module Ledger {
  import opened Prelude
  import opened Tables

  // Which batches have at most one live handler at a time.
  datatype Handlers = AnyNumber | OnePerCancel | OnePerBatch

  // Which dead-letter transactions wait until no handler of their batch is live.
  datatype DeadLetters = AnyTime | CancelsWait | AllWait

  // Assumptions about the consumers. `base` is the initial seat counter.
  datatype Regime = Regime(base: map<SectionId, int>, handlers: Handlers, dead: DeadLetters)

  predicate OneHandler(g: Regime) { g.handlers == OnePerBatch }

  predicate Governed(g: Regime, kind: BatchKind) {
    OneHandler(g) || (g.handlers == OnePerCancel && kind == CANCEL)
  }

  predicate DeadWaits(g: Regime, kind: BatchKind) {
    g.dead == AllWait || (g.dead == CancelsWait && kind == CANCEL)
  }

  // Handlers and dead letters of CANCEL batches come one at a time.
  predicate CancelsAlone(g: Regime) { g.handlers != AnyNumber && g.dead != AnyTime }

  // The request of this item has not taken effect.
  predicate Unserved(it: Item) { it.status == Pending || it.status == Failed }

  // ---- Shape: how items, payloads and batches refer to each other ----

  ghost predicate SourceWf(db: Db, it: Item, source: ItemId) {
    && source in db.items
    && var src := db.items[source];
    && src.kind == CREATE && src.section == it.section
    && src.batch in db.batches && it.batch in db.batches
    && db.batches[src.batch].user == db.batches[it.batch].user
    && db.batches[src.batch].semester == db.batches[it.batch].semester
  }

  ghost predicate ItemWf(db: Db, i: ItemId)
    requires i in db.items
  {
    var it := db.items[i];
    && it.batch in db.batches
    && it.kind == db.batches[it.batch].kind
    && it.index < |db.batches[it.batch].payload|
    && db.batches[it.batch].payload[it.index] == JobItem(i, Some(it.section), it.source)
    && it.section in db.seats
    && (it.kind == CREATE ==> it.source == None)
    && (it.source.Some? ==> SourceWf(db, it, it.source.value))
  }

  ghost predicate EntryWf(db: Db, b: BatchId, k: nat)
    requires b in db.batches && k < |db.batches[b].payload|
  {
    var i := db.batches[b].payload[k].itemId;
    i in db.items && db.items[i].batch == b && db.items[i].index == k
  }

  // A batch lists a section at most once.
  predicate SameSlot(a: Item, b: Item) { a.batch == b.batch && a.section == b.section }

  ghost predicate Wf(db: Db) {
    && (forall i {:trigger ItemWf(db, i)} :: i in db.items ==> ItemWf(db, i))
    && (forall b, k: nat {:trigger EntryWf(db, b, k)} :: b in db.batches && k < |db.batches[b].payload| ==>
          EntryWf(db, b, k))
    && (forall i, j {:trigger SameSlot(db.items[i], db.items[j])} ::
          i in db.items && j in db.items && SameSlot(db.items[i], db.items[j]) ==> i == j)
  }

  // ---- Seats ----

  function HeldOn(section: SectionId): Item -> int {
    (it: Item) => if it.section == section then it.held else 0
  }

  ghost predicate SeatsBalance(g: Regime, db: Db) {
    && db.seats.Keys <= g.base.Keys
    && forall s :: s in db.seats ==>
      0 <= db.seats[s].slDk <= db.seats[s].slMax
      && 0 <= g.base[s] && db.seats[s].slDk == g.base[s] + Tally(db.items, HeldOn(s))
  }

  // A cancel item still to be settled holds on to a seat of its source.
  ghost predicate WaitsOn(db: Db, c: ItemId, source: ItemId)
    requires c in db.items
  {
    db.items[c].status == Pending && db.items[c].source == Some(source)
  }

  ghost predicate HeldWf(db: Db) {
    && (forall i :: i in db.items ==> 0 <= db.items[i].held)
    && (forall i :: i in db.items && db.items[i].kind == CANCEL ==> db.items[i].held == 0)
    && (forall i :: i in db.items && db.items[i].kind == CREATE && db.items[i].status == Success ==>
          1 <= db.items[i].held)
    && (forall c, src :: c in db.items && WaitsOn(db, c, src) ==> src in db.items && 1 <= db.items[src].held)
    && (forall c, d, src :: c in db.items && d in db.items && WaitsOn(db, c, src) && WaitsOn(db, d, src) ==> c == d)
  }

  // ---- Batches ----

  ghost predicate WaitingCancel(db: Db, b: BatchId, user: UserId, semester: string) {
    b in db.batches && db.batches[b].kind == CANCEL && db.batches[b].status == Waiting
    && db.batches[b].user == user && db.batches[b].semester == semester
  }

  ghost predicate BatchesWf(g: Regime, db: Db) {
    // COMPLETED implies no PENDING item.
    && (forall i :: i in db.items && db.items[i].status == Pending && Governed(g, db.items[i].kind) ==>
          db.items[i].batch in db.batches && db.batches[db.items[i].batch].status == Waiting)
    && (forall b, c, u, s :: WaitingCancel(db, b, u, s) && WaitingCancel(db, c, u, s) ==> b == c)
  }

  // ---- What one handler per batch adds ----

  // `c` is the settled cancellation of `i`.
  ghost predicate Cancels(db: Db, c: ItemId, i: ItemId) {
    c in db.items && db.items[c].kind == CANCEL && db.items[c].status == Success && db.items[c].source == Some(i)
  }

  ghost predicate HasCancel(db: Db, i: ItemId)
    requires i in db.items
  {
    db.items[i].kind == CREATE && exists c :: Cancels(db, c, i)
  }

  ghost predicate Exact(db: Db) {
    && (forall i :: i in db.items && db.items[i].kind == CREATE ==>
          db.items[i].held == if db.items[i].status == Success then 1 else 0)
    && (forall c, src :: c in db.items && WaitsOn(db, c, src) ==> src in db.items && db.items[src].status == Success)
    && (forall c, i :: Cancels(db, c, i) ==> i in db.items && db.items[i].status == Cancelled)
    && (forall i {:trigger HasCancel(db, i)} :: i in db.items && db.items[i].status == Cancelled ==> HasCancel(db, i))
    && (forall c, d, i :: Cancels(db, c, i) && Cancels(db, d, i) ==> c == d)
    && (forall i :: i in db.items && db.items[i].kind == CANCEL && db.items[i].status == Success ==>
          db.items[i].source.Some?)
  }

  ghost predicate DbInv(g: Regime, db: Db) {
    && Wf(db)
    && SeatsBalance(g, db)
    && HeldWf(db)
    && BatchesWf(g, db)
    && (OneHandler(g) ==> Exact(db))
  }

  // ---- Statements keep the shape ----

  function Mould(it: Item): Item {
    it.(status := Pending, remaining := None, held := 0)
  }

  ghost predicate SameShape(a: Db, b: Db) {
    && a.items.Keys == b.items.Keys && a.batches.Keys == b.batches.Keys && a.seats.Keys == b.seats.Keys
    && (forall i :: i in a.items ==> Mould(a.items[i]) == Mould(b.items[i]))
    && (forall c :: c in a.batches ==> a.batches[c].(status := Waiting) == b.batches[c].(status := Waiting))
    && (forall s :: s in a.seats ==> a.seats[s].slMax == b.seats[s].slMax)
  }

  lemma ShapeKeepsWf(a: Db, b: Db)
    requires Wf(a) && SameShape(a, b)
    ensures Wf(b)
  {
    forall i | i in b.items ensures ItemWf(b, i) {
      assert ItemWf(a, i);
      assert Mould(a.items[i]) == Mould(b.items[i]);
      var n := a.items[i].batch;
      assert a.batches[n].(status := Waiting) == b.batches[n].(status := Waiting);
      if b.items[i].source.Some? {
        var src := b.items[i].source.value;
        assert SourceWf(a, a.items[i], src);
        assert Mould(a.items[src]) == Mould(b.items[src]);
        var m := a.items[src].batch;
        assert a.batches[m].(status := Waiting) == b.batches[m].(status := Waiting);
      }
    }
    forall n, k: nat | n in b.batches && k < |b.batches[n].payload| ensures EntryWf(b, n, k) {
      assert a.batches[n].(status := Waiting) == b.batches[n].(status := Waiting);
      assert EntryWf(a, n, k);
      var i := a.batches[n].payload[k].itemId;
      assert Mould(a.items[i]) == Mould(b.items[i]);
    }
    forall i, j | i in b.items && j in b.items && SameSlot(b.items[i], b.items[j])
      ensures i == j
    {
      assert Mould(a.items[i]) == Mould(b.items[i]) && Mould(a.items[j]) == Mould(b.items[j]);
      assert SameSlot(a.items[i], a.items[j]);
    }
  }

  // ---- Each statement keeps the invariant ----

  // No item becomes PENDING again and no batch waits again.
  ghost predicate Settling(a: Db, b: Db) {
    && SameShape(a, b)
    && (forall i :: i in a.items && b.items[i].status == Pending ==> a.items[i].status == Pending)
    && (forall n :: n in a.batches && b.batches[n].status == Waiting ==> a.batches[n].status == Waiting)
  }

  // Every statement but the release takes back nothing that was settled.
  ghost predicate Gentle(a: Db, b: Db) {
    && a.items.Keys == b.items.Keys
    && (forall i :: i in a.items ==> a.items[i].held <= b.items[i].held)
    && (forall i :: i in a.items && a.items[i].kind == CANCEL ==>
          a.items[i].held == b.items[i].held && (a.items[i].status == Success <==> b.items[i].status == Success))
    && (forall i :: i in a.items && b.items[i].kind == CREATE && b.items[i].status == Success ==> 1 <= b.items[i].held)
  }

  ghost predicate GentleExact(a: Db, b: Db) {
    && a.items.Keys == b.items.Keys
    && (forall i :: i in a.items ==> (a.items[i].status == Cancelled <==> b.items[i].status == Cancelled))
    && (forall i :: i in a.items && a.items[i].status == Success ==> b.items[i].status == Success)
    && (forall i :: i in b.items && b.items[i].kind == CREATE ==>
          b.items[i].held == if b.items[i].status == Success then 1 else 0)
  }

  lemma WaitsOnBack(a: Db, b: Db)
    requires Settling(a, b)
    ensures forall c, src :: c in b.items && WaitsOn(b, c, src) ==> WaitsOn(a, c, src)
  {
    forall c, src | c in b.items && WaitsOn(b, c, src) ensures WaitsOn(a, c, src) {
      assert Mould(a.items[c]) == Mould(b.items[c]);
    }
  }

  lemma HeldKept(a: Db, b: Db)
    requires HeldWf(a) && Settling(a, b) && Gentle(a, b)
    ensures HeldWf(b)
  {
    WaitsOnBack(a, b);
    forall i | i in b.items && b.items[i].kind == CANCEL ensures b.items[i].held == 0 {
      assert Mould(a.items[i]) == Mould(b.items[i]);
    }
  }

  lemma BatchesKept(g: Regime, a: Db, b: Db)
    requires BatchesWf(g, a) && Settling(a, b)
    requires forall i :: i in b.items && b.items[i].status == Pending && Governed(g, b.items[i].kind) ==>
      b.items[i].batch in b.batches && b.batches[b.items[i].batch].status == Waiting
    ensures BatchesWf(g, b)
  {
    forall n, m, u, s | WaitingCancel(b, n, u, s) && WaitingCancel(b, m, u, s) ensures n == m {
      assert a.batches[n].(status := Waiting) == b.batches[n].(status := Waiting);
      assert a.batches[m].(status := Waiting) == b.batches[m].(status := Waiting);
      assert WaitingCancel(a, n, u, s) && WaitingCancel(a, m, u, s);
    }
  }

  // Items of a batch whose status is unchanged keep the batch invariant.
  lemma BatchesKeptByItems(g: Regime, a: Db, b: Db)
    requires BatchesWf(g, a) && Settling(a, b) && a.batches == b.batches
    ensures BatchesWf(g, b)
  {
    forall i | i in b.items && b.items[i].status == Pending && Governed(g, b.items[i].kind)
      ensures b.items[i].batch in b.batches && b.batches[b.items[i].batch].status == Waiting
    {
      assert Mould(a.items[i]) == Mould(b.items[i]);
    }
    BatchesKept(g, a, b);
  }

  lemma CancelsKept(a: Db, b: Db, c: ItemId, i: ItemId)
    requires Settling(a, b) && Gentle(a, b)
    ensures Cancels(a, c, i) <==> Cancels(b, c, i)
  {
    if c in a.items { assert Mould(a.items[c]) == Mould(b.items[c]); }
  }

  lemma ExactKept(a: Db, b: Db)
    requires Exact(a) && Settling(a, b) && Gentle(a, b) && GentleExact(a, b)
    ensures Exact(b)
  {
    WaitsOnBack(a, b);
    forall c, i ensures Cancels(a, c, i) <==> Cancels(b, c, i) { CancelsKept(a, b, c, i); }
    forall i | i in b.items && b.items[i].status == Cancelled ensures HasCancel(b, i) {
      assert HasCancel(a, i);
      assert Mould(a.items[i]) == Mould(b.items[i]);
      var c :| Cancels(a, c, i);
      assert Cancels(b, c, i);
    }
    forall i | i in b.items && b.items[i].kind == CANCEL && b.items[i].status == Success
      ensures b.items[i].source.Some?
    {
      assert Mould(a.items[i]) == Mould(b.items[i]);
    }
  }

  lemma OneRowBalance(g: Regime, db: Db, after: Db, i: ItemId)
    requires SeatsBalance(g, db) && i in db.items && i in after.items
    requires after.items == db.items[i := after.items[i]] && after.items[i].section == db.items[i].section
    requires db.items[i].section in db.seats
    requires var s := db.items[i].section;
             && s in after.seats && after.seats == db.seats[s := after.seats[s]]
             && after.seats[s].slMax == db.seats[s].slMax
             && 0 <= after.seats[s].slDk <= after.seats[s].slMax
             && after.seats[s].slDk - db.seats[s].slDk == after.items[i].held - db.items[i].held
    ensures SeatsBalance(g, after)
  {
    forall s | s in after.seats
      ensures after.seats[s].slDk == g.base[s] + Tally(after.items, HeldOn(s))
    {
      TallyUpdate(db.items, i, after.items[i], HeldOn(s));
    }
  }

  // A gentle statement that balances the seats keeps everything.
  lemma GentleKeeps(g: Regime, db: Db, after: Db)
    requires DbInv(g, db) && SeatsBalance(g, after)
    requires Settling(db, after) && Gentle(db, after) && db.batches == after.batches
    requires OneHandler(g) ==> GentleExact(db, after)
    ensures DbInv(g, after)
  {
    ShapeKeepsWf(db, after);
    HeldKept(db, after);
    BatchesKeptByItems(g, db, after);
    if OneHandler(g) { ExactKept(db, after); }
  }

  lemma AcquireShape(db: Db, i: ItemId)
    requires i in db.items && db.items[i].section in db.seats
    ensures Settling(db, Acquire(db, i, db.items[i].section).0)
  {
  }

  lemma AcquireGentle(db: Db, i: ItemId)
    requires HeldWf(db) && i in db.items && db.items[i].kind == CREATE && db.items[i].section in db.seats
    ensures var after := Acquire(db, i, db.items[i].section).0;
            Gentle(db, after) && (Exact(db) && Unserved(db.items[i]) ==> GentleExact(db, after))
  {
  }

  lemma AcquireBalance(g: Regime, db: Db, i: ItemId)
    requires SeatsBalance(g, db) && i in db.items && db.items[i].section in db.seats
    ensures SeatsBalance(g, Acquire(db, i, db.items[i].section).0)
  {
    var s := db.items[i].section;
    if db.seats[s].slDk < db.seats[s].slMax { OneRowBalance(g, db, Acquire(db, i, s).0, i); }
  }

  lemma AcquireKeeps(g: Regime, db: Db, i: ItemId)
    requires DbInv(g, db)
    requires i in db.items && db.items[i].kind == CREATE
    requires OneHandler(g) ==> Unserved(db.items[i])
    ensures DbInv(g, Acquire(db, i, db.items[i].section).0)
    ensures Settling(db, Acquire(db, i, db.items[i].section).0)
  {
    assert ItemWf(db, i);
    AcquireShape(db, i);
    AcquireGentle(db, i);
    AcquireBalance(g, db, i);
    GentleKeeps(g, db, Acquire(db, i, db.items[i].section).0);
  }

  lemma MarkFailedGentle(g: Regime, db: Db, i: ItemId)
    requires HeldWf(db) && CancelsAlone(g) && (OneHandler(g) ==> Exact(db))
    requires i in db.items && (Governed(g, db.items[i].kind) ==> Unserved(db.items[i]))
    ensures Settling(db, MarkFailed(db, i)) && Gentle(db, MarkFailed(db, i))
    ensures OneHandler(g) ==> GentleExact(db, MarkFailed(db, i))
  {
  }

  lemma MarkFailedKeeps(g: Regime, db: Db, i: ItemId)
    requires DbInv(g, db) && CancelsAlone(g)
    requires i in db.items && (Governed(g, db.items[i].kind) ==> Unserved(db.items[i]))
    ensures DbInv(g, MarkFailed(db, i))
    ensures Settling(db, MarkFailed(db, i))
  {
    assert ItemWf(db, i);
    MarkFailedGentle(g, db, i);
    OneRowBalance(g, db, MarkFailed(db, i), i);
    GentleKeeps(g, db, MarkFailed(db, i));
  }

  // The seat given back is one the source really holds, so the clamp at zero
  // has no effect.
  lemma ReleaseUnclamped(g: Regime, db: Db, c: ItemId)
    requires Wf(db) && SeatsBalance(g, db) && HeldWf(db)
    requires c in db.items && db.items[c].kind == CANCEL && db.items[c].status == Pending && db.items[c].source.Some?
    ensures db.items[c].section in db.seats
    ensures 1 <= db.seats[db.items[c].section].slDk
    ensures Clamped(db.seats[db.items[c].section].slDk) == db.seats[db.items[c].section].slDk - 1
  {
    var s, src := db.items[c].section, db.items[c].source.value;
    assert ItemWf(db, c) && SourceWf(db, db.items[c], src) && WaitsOn(db, c, src);
    TallyAtLeast(db.items, src, HeldOn(s));
  }

  // A cancel item about to be released: everything the statement relies on.
  ghost predicate Releasable(db: Db, c: ItemId) {
    && c in db.items && db.items[c].kind == CANCEL && db.items[c].status == Pending && db.items[c].source.Some?
    && SourceWf(db, db.items[c], db.items[c].source.value)
    && db.items[c].section in db.seats && 1 <= db.seats[db.items[c].section].slDk
  }

  function Released(db: Db, c: ItemId): Db
    requires c in db.items && db.items[c].source.Some?
  {
    Release(db, c, db.items[c].section, db.items[c].source.value)
  }

  lemma ReleaseRows(db: Db, c: ItemId)
    requires Releasable(db, c)
    ensures var s, src := db.items[c].section, db.items[c].source.value;
            var seat := db.seats[s].(slDk := db.seats[s].slDk - 1);
            var left := Some(seat.slMax - seat.slDk);
            && src != c
            && Released(db, c) == db.(
              seats := db.seats[s := seat],
              items := db.items[src :=
                db.items[src].(status := Cancelled, remaining := left, held := db.items[src].held - 1)]
                         [c := db.items[c].(status := Success, remaining := left)])
  {
  }

  lemma ReleaseBalance(g: Regime, db: Db, c: ItemId)
    requires SeatsBalance(g, db) && Releasable(db, c)
    ensures SeatsBalance(g, Released(db, c))
  {
    var s, src := db.items[c].section, db.items[c].source.value;
    var after := Released(db, c);
    ReleaseRows(db, c);
    var items1 := db.items[src := after.items[src]];
    assert after.items == items1[c := after.items[c]];
    forall t | t in after.seats
      ensures after.seats[t].slDk == g.base[t] + Tally(after.items, HeldOn(t))
    {
      TallyUpdate(db.items, src, after.items[src], HeldOn(t));
      TallyUpdate(items1, c, after.items[c], HeldOn(t));
    }
  }

  lemma ReleaseHeld(db: Db, c: ItemId)
    requires HeldWf(db) && Releasable(db, c)
    ensures HeldWf(Released(db, c))
  {
    var src := db.items[c].source.value;
    var after := Released(db, c);
    ReleaseRows(db, c);
    assert WaitsOn(db, c, src);
    forall d, x | d in after.items && WaitsOn(after, d, x) ensures d != c && x != src && WaitsOn(db, d, x) {
      assert WaitsOn(db, d, x);
    }
  }

  lemma ReleaseExact(db: Db, c: ItemId)
    requires HeldWf(db) && Exact(db) && Releasable(db, c)
    ensures Exact(Released(db, c))
  {
    var src := db.items[c].source.value;
    var after := Released(db, c);
    ReleaseRows(db, c);
    assert WaitsOn(db, c, src);
    assert Cancels(after, c, src);
    forall d, i | Cancels(after, d, i) ensures (d == c && i == src) || (d != c && Cancels(db, d, i) && i != src) {
      if d != c { assert Cancels(db, d, i); }
    }
    forall i | i in after.items && after.items[i].status == Cancelled ensures HasCancel(after, i) {
      if i != src {
        assert HasCancel(db, i);
        var d :| Cancels(db, d, i);
        assert Cancels(after, d, i);
      }
    }
    forall d, x | d in after.items && WaitsOn(after, d, x) ensures WaitsOn(db, d, x) && x != src {
      assert WaitsOn(db, d, x);
    }
  }

  lemma ReleaseKeeps(g: Regime, db: Db, c: ItemId)
    requires DbInv(g, db)
    requires c in db.items && db.items[c].kind == CANCEL && db.items[c].status == Pending && db.items[c].source.Some?
    ensures DbInv(g, Released(db, c)) && Settling(db, Released(db, c))
  {
    assert ItemWf(db, c);
    ReleaseUnclamped(g, db, c);
    assert Releasable(db, c);
    ReleaseSettles(db, c);
    ReleaseBalance(g, db, c);
    ReleaseHeld(db, c);
    ShapeKeepsWf(db, Released(db, c));
    BatchesKeptByItems(g, db, Released(db, c));
    if OneHandler(g) { ReleaseExact(db, c); }
  }

  lemma ReleaseSettles(db: Db, c: ItemId)
    requires Releasable(db, c)
    ensures SameShape(db, Released(db, c)) && Settling(db, Released(db, c)) && Released(db, c).batches == db.batches
  {
    ReleaseRows(db, c);
  }

  lemma CompleteKeeps(g: Regime, db: Db, b: BatchId)
    requires DbInv(g, db) && b in db.batches
    requires forall i :: i in db.items && db.items[i].batch == b && Governed(g, db.items[i].kind) ==>
               db.items[i].status != Pending
    ensures DbInv(g, Complete(db, b)) && Settling(db, Complete(db, b))
  {
    var after := Complete(db, b);
    ShapeKeepsWf(db, after);
    HeldKept(db, after);
    BatchesKept(g, db, after);
    if OneHandler(g) { ExactKept(db, after); }
  }

  // The first half of the dead-letter transaction.
  function PendingFailed(db: Db, b: BatchId): Db {
    db.(items := map i | i in db.items :: FailPending(db.items[i], b))
  }

  lemma PendingFailedGentle(db: Db, b: BatchId)
    requires HeldWf(db)
    ensures Settling(db, PendingFailed(db, b)) && Gentle(db, PendingFailed(db, b))
    ensures Exact(db) ==> GentleExact(db, PendingFailed(db, b))
  {
  }

  lemma PendingFailedBalance(g: Regime, db: Db, b: BatchId)
    requires SeatsBalance(g, db)
    ensures SeatsBalance(g, PendingFailed(db, b))
  {
    var mid := PendingFailed(db, b);
    forall s | s in mid.seats
      ensures mid.seats[s].slDk == g.base[s] + Tally(mid.items, HeldOn(s))
    {
      TallySame(db.items, mid.items, HeldOn(s), HeldOn(s));
    }
  }

  lemma MarkBatchFailedKeeps(g: Regime, db: Db, b: BatchId)
    requires DbInv(g, db) && b in db.batches
    ensures DbInv(g, MarkBatchFailed(db, b)) && Settling(db, MarkBatchFailed(db, b))
  {
    var mid := PendingFailed(db, b);
    PendingFailedGentle(db, b);
    PendingFailedBalance(g, db, b);
    GentleKeeps(g, db, mid);
    forall i | i in mid.items && mid.items[i].batch == b ensures mid.items[i].status != Pending {}
    CompleteKeeps(g, mid, b);
    SettlingTwice(db, mid, MarkBatchFailed(db, b));
  }

  lemma SettlingTwice(a: Db, b: Db, c: Db)
    requires Settling(a, b) && Settling(b, c)
    ensures Settling(a, c)
  {
    forall i | i in a.items
      ensures Mould(a.items[i]) == Mould(c.items[i])
    {
      assert Mould(a.items[i]) == Mould(b.items[i]);
    }
    forall n | n in a.batches ensures a.batches[n].(status := Waiting) == c.batches[n].(status := Waiting) {
      assert a.batches[n].(status := Waiting) == b.batches[n].(status := Waiting);
    }
  }

  // ---- Inserting a batch ----

  ghost predicate FreshPayload(items: map<ItemId, Item>, payload: seq<JobItem>) {
    && (forall j :: 0 <= j < |payload| ==> payload[j].sectionId.Some? && payload[j].itemId !in items)
    && (forall j, k :: 0 <= j < k < |payload| ==> payload[j].itemId != payload[k].itemId)
    && (forall j, k :: 0 <= j < k < |payload| ==> payload[j].sectionId != payload[k].sectionId)
  }

  function NewRow(b: BatchId, kind: BatchKind, payload: seq<JobItem>, j: nat): Item
    requires j < |payload| && payload[j].sectionId.Some?
  {
    Item(b, kind, payload[j].sectionId.value, Pending, None, j, payload[j].source, 0)
  }

  lemma {:induction false} InsertedRows(items: map<ItemId, Item>, b: BatchId, kind: BatchKind, payload: seq<JobItem>,
                                        k: nat)
    requires k <= |payload|
    requires forall j :: k <= j < |payload| ==> payload[j].sectionId.Some? && payload[j].itemId !in items
    requires forall i, j :: k <= i < j < |payload| ==> payload[i].itemId != payload[j].itemId
    ensures var all := InsertItems(items, b, kind, payload, k);
            && (forall i :: i in items ==> i in all && all[i] == items[i])
            && (forall j :: k <= j < |payload| ==>
                  payload[j].itemId in all && all[payload[j].itemId] == NewRow(b, kind, payload, j))
            && (forall i :: i in all && i !in items ==>
                  k <= all[i].index < |payload| && payload[all[i].index].itemId == i)
    decreases |payload| - k
  {
    if k < |payload| {
      InsertedRows(items[payload[k].itemId := NewRow(b, kind, payload, k)], b, kind, payload, k + 1);
    }
  }

  function SumFrom(b: BatchId, kind: BatchKind, payload: seq<JobItem>, k: nat, weight: Item -> int): int
    requires k <= |payload|
    requires forall j :: k <= j < |payload| ==> payload[j].sectionId.Some?
    decreases |payload| - k
  {
    if k == |payload| then 0 else weight(NewRow(b, kind, payload, k)) + SumFrom(b, kind, payload, k + 1, weight)
  }

  lemma {:induction false} InsertedTally(items: map<ItemId, Item>, b: BatchId, kind: BatchKind, payload: seq<JobItem>,
                                         k: nat, weight: Item -> int)
    requires k <= |payload|
    requires forall j :: k <= j < |payload| ==> payload[j].sectionId.Some? && payload[j].itemId !in items
    requires forall i, j :: k <= i < j < |payload| ==> payload[i].itemId != payload[j].itemId
    ensures Tally(InsertItems(items, b, kind, payload, k), weight) ==
            Tally(items, weight) + SumFrom(b, kind, payload, k, weight)
    decreases |payload| - k
  {
    if k < |payload| {
      var row := NewRow(b, kind, payload, k);
      TallyInsert(items, payload[k].itemId, row, weight);
      InsertedTally(items[payload[k].itemId := row], b, kind, payload, k + 1, weight);
    }
  }

  lemma {:induction false} WeightlessRows(b: BatchId, kind: BatchKind, payload: seq<JobItem>, k: nat,
                                          weight: Item -> int)
    requires k <= |payload|
    requires forall j :: k <= j < |payload| ==> payload[j].sectionId.Some? && weight(NewRow(b, kind, payload, j)) == 0
    ensures SumFrom(b, kind, payload, k, weight) == 0
    decreases |payload| - k
  {
    if k < |payload| { WeightlessRows(b, kind, payload, k + 1, weight); }
  }

  // What admission and payload building guarantee of a new batch.
  ghost predicate Insertable(db: Db, b: BatchId, batch: Batch) {
    && b !in db.batches && batch.status == Waiting
    && FreshPayload(db.items, batch.payload)
    && (forall j :: 0 <= j < |batch.payload| ==> batch.payload[j].sectionId.value in db.seats)
    && (batch.kind == CREATE ==> forall j :: 0 <= j < |batch.payload| ==> batch.payload[j].source == None)
    && (batch.kind == CANCEL ==>
          && (forall c :: !WaitingCancel(db, c, batch.user, batch.semester))
          && (forall j :: 0 <= j < |batch.payload| && batch.payload[j].source.Some? ==>
                Cancellable(db, batch, batch.payload[j])))
  }

  // The source a cancel entry names is a registration the student holds.
  ghost predicate Cancellable(db: Db, batch: Batch, entry: JobItem)
    requires entry.source.Some?
  {
    && entry.source.value in db.items
    && var src := db.items[entry.source.value];
    && src.kind == CREATE && src.status == Success && entry.sectionId == Some(src.section)
    && src.batch in db.batches && db.batches[src.batch].user == batch.user
       && db.batches[src.batch].semester == batch.semester
  }

  lemma InsertWf(db: Db, b: BatchId, batch: Batch)
    requires Wf(db) && Insertable(db, b, batch)
    ensures Wf(InsertBatch(db, b, batch))
  {
    var after := InsertBatch(db, b, batch);
    InsertedRows(db.items, b, batch.kind, batch.payload, 0);
    forall i | i in after.items ensures ItemWf(after, i) {
      if i in db.items {
        assert ItemWf(db, i);
        if db.items[i].source.Some? { assert SourceWf(db, db.items[i], db.items[i].source.value); }
      } else {
        var j := after.items[i].index;
        assert after.items[i] == NewRow(b, batch.kind, batch.payload, j);
        if batch.kind == CANCEL && batch.payload[j].source.Some? {
          assert Cancellable(db, batch, batch.payload[j]);
        }
      }
    }
    forall n, k: nat | n in after.batches && k < |after.batches[n].payload| ensures EntryWf(after, n, k) {
      if n != b { assert EntryWf(db, n, k); }
    }
    forall i | i in db.items ensures db.items[i].batch != b { assert ItemWf(db, i); }
    forall i, j | i in after.items && j in after.items && SameSlot(after.items[i], after.items[j]) ensures i == j {
      if i in db.items && j in db.items {
        assert SameSlot(db.items[i], db.items[j]);
      }
    }
  }

  lemma InsertBalance(g: Regime, db: Db, b: BatchId, batch: Batch)
    requires SeatsBalance(g, db) && Insertable(db, b, batch)
    ensures SeatsBalance(g, InsertBatch(db, b, batch))
  {
    var after := InsertBatch(db, b, batch);
    forall s | s in after.seats
      ensures after.seats[s].slDk == g.base[s] + Tally(after.items, HeldOn(s))
    {
      InsertedTally(db.items, b, batch.kind, batch.payload, 0, HeldOn(s));
      WeightlessRows(b, batch.kind, batch.payload, 0, HeldOn(s));
    }
  }

  // A cancel item already waiting belongs to another student's batch.
  lemma OldWaiter(g: Regime, db: Db, b: BatchId, batch: Batch, d: ItemId, j: nat)
    requires Wf(db) && BatchesWf(g, db) && CancelsAlone(g) && Insertable(db, b, batch) && batch.kind == CANCEL
    requires j < |batch.payload| && batch.payload[j].source.Some?
    requires d in db.items
    ensures !WaitsOn(db, d, batch.payload[j].source.value)
  {
    var src := batch.payload[j].source.value;
    assert Cancellable(db, batch, batch.payload[j]);
    if WaitsOn(db, d, src) {
      assert ItemWf(db, d);
      assert WaitingCancel(db, db.items[d].batch, batch.user, batch.semester);
    }
  }

  lemma InsertHeld(g: Regime, db: Db, b: BatchId, batch: Batch)
    requires Wf(db) && HeldWf(db) && BatchesWf(g, db) && CancelsAlone(g) && Insertable(db, b, batch)
    ensures HeldWf(InsertBatch(db, b, batch))
  {
    var after := InsertBatch(db, b, batch);
    InsertedRows(db.items, b, batch.kind, batch.payload, 0);
    forall c, src | c in after.items && WaitsOn(after, c, src)
      ensures src in after.items && 1 <= after.items[src].held
    {
      if c in db.items { assert WaitsOn(db, c, src); }
      else { assert Cancellable(db, batch, batch.payload[after.items[c].index]); }
    }
    forall c, d, src | c in after.items && d in after.items && WaitsOn(after, c, src) && WaitsOn(after, d, src)
      ensures c == d
    {
      if c in db.items && d in db.items {
        assert WaitsOn(db, c, src) && WaitsOn(db, d, src);
      } else if c in db.items {
        assert WaitsOn(db, c, src);
        OldWaiter(g, db, b, batch, c, after.items[d].index);
      } else if d in db.items {
        assert WaitsOn(db, d, src);
        OldWaiter(g, db, b, batch, d, after.items[c].index);
      } else {
        assert Cancellable(db, batch, batch.payload[after.items[c].index]);
        assert Cancellable(db, batch, batch.payload[after.items[d].index]);
      }
    }
  }

  lemma InsertExact(db: Db, b: BatchId, batch: Batch)
    requires Exact(db) && Insertable(db, b, batch)
    ensures Exact(InsertBatch(db, b, batch))
  {
    var after := InsertBatch(db, b, batch);
    InsertedRows(db.items, b, batch.kind, batch.payload, 0);
    forall c, src | c in after.items && WaitsOn(after, c, src)
      ensures src in after.items && after.items[src].status == Success
    {
      if c in db.items { assert WaitsOn(db, c, src); }
      else { assert Cancellable(db, batch, batch.payload[after.items[c].index]); }
    }
    assert forall c, i :: Cancels(after, c, i) ==> Cancels(db, c, i);
    forall i | i in after.items && after.items[i].status == Cancelled ensures HasCancel(after, i) {
      assert HasCancel(db, i);
      var c :| Cancels(db, c, i);
      assert Cancels(after, c, i);
    }
  }

  lemma InsertKeeps(g: Regime, db: Db, b: BatchId, batch: Batch)
    requires DbInv(g, db) && CancelsAlone(g) && Insertable(db, b, batch)
    ensures DbInv(g, InsertBatch(db, b, batch))
  {
    var after := InsertBatch(db, b, batch);
    InsertWf(db, b, batch);
    InsertBalance(g, db, b, batch);
    InsertHeld(g, db, b, batch);
    InsertBatches(g, db, b, batch);
    if OneHandler(g) { InsertExact(db, b, batch); }
  }

  lemma InsertBatches(g: Regime, db: Db, b: BatchId, batch: Batch)
    requires BatchesWf(g, db) && Insertable(db, b, batch)
    ensures BatchesWf(g, InsertBatch(db, b, batch))
  {
    var after := InsertBatch(db, b, batch);
    InsertedRows(db.items, b, batch.kind, batch.payload, 0);
    forall c, d, u, s | WaitingCancel(after, c, u, s) && WaitingCancel(after, d, u, s) ensures c == d {
      if c != b { assert WaitingCancel(db, c, u, s); }
      if d != b { assert WaitingCancel(db, d, u, s); }
    }
  }

  // An item that an insert adds.
  lemma NewItem(db: Db, b: BatchId, batch: Batch, i: ItemId)
    requires Insertable(db, b, batch) && i !in db.items && i in InsertBatch(db, b, batch).items
    ensures var row := InsertBatch(db, b, batch).items[i];
            && row.batch == b && row.kind == batch.kind && row.status == Pending
            && row.index < |batch.payload| && batch.payload[row.index].itemId == i
            && batch.payload[row.index].sectionId == Some(row.section) && row.source == batch.payload[row.index].source
  {
    InsertedRows(db.items, b, batch.kind, batch.payload, 0);
  }
}
