// The item counts of the dashboard overview and what they add up to.
module DashboardCounts {
  import opened Tables
  import opened Ledger
  import opened Protocol
  import opened Safety
  import opened Seats

  predicate InSemester(db: Db, semester: string, i: ItemId) {
    i in db.items && db.items[i].batch in db.batches && db.batches[db.items[i].batch].semester == semester
  }

  ghost function ItemsOf(db: Db, semester: string): set<ItemId> { set i | i in db.items && InSemester(db, semester, i) }

  ghost function ItemsBy(db: Db, semester: string, kind: BatchKind, status: ItemStatus): set<ItemId> {
    set i | i in db.items && InSemester(db, semester, i) && db.items[i].kind == kind && db.items[i].status == status
  }

  // ---- The grouped query and the loop over it ----

  datatype CountRow = CountRow(kind: BatchKind, status: ItemStatus, count: nat)

  // GROUP BY type, status: one row for each group that is not empty.
  ghost predicate GroupedBy(db: Db, semester: string, rows: seq<CountRow>) {
    && (forall j, k :: 0 <= j < k < |rows| ==> rows[j].kind != rows[k].kind || rows[j].status != rows[k].status)
    && (forall k :: 0 <= k < |rows| ==> rows[k].count == |ItemsBy(db, semester, rows[k].kind, rows[k].status)|)
    && (forall kind, status :: ItemsBy(db, semester, kind, status) != {} ==>
          exists k :: 0 <= k < |rows| && rows[k].kind == kind && rows[k].status == status)
  }

  // What the listed rows of one group add up to.
  function CountIn(rows: seq<CountRow>, kind: BatchKind, status: ItemStatus): nat {
    if rows == [] then 0
    else
      var last := rows[|rows| - 1];
      CountIn(rows[..|rows| - 1], kind, status) + if last.kind == kind && last.status == status then last.count else 0
  }

  lemma {:induction false} NotListed(rows: seq<CountRow>, kind: BatchKind, status: ItemStatus)
    requires forall k :: 0 <= k < |rows| ==> rows[k].kind != kind || rows[k].status != status
    ensures CountIn(rows, kind, status) == 0
  {
    if rows != [] { NotListed(rows[..|rows| - 1], kind, status); }
  }

  lemma {:induction false} ListedOnce(rows: seq<CountRow>, n: nat)
    requires n < |rows|
    requires forall j, k :: 0 <= j < k < |rows| ==> rows[j].kind != rows[k].kind || rows[j].status != rows[k].status
    ensures CountIn(rows, rows[n].kind, rows[n].status) == rows[n].count
  {
    var rest := rows[..|rows| - 1];
    if n == |rows| - 1 { NotListed(rest, rows[n].kind, rows[n].status); } else { ListedOnce(rest, n); }
  }

  lemma GroupCount(db: Db, semester: string, rows: seq<CountRow>, kind: BatchKind, status: ItemStatus)
    requires GroupedBy(db, semester, rows)
    ensures CountIn(rows, kind, status) == |ItemsBy(db, semester, kind, status)|
  {
    if k :| 0 <= k < |rows| && rows[k].kind == kind && rows[k].status == status {
      ListedOnce(rows, k);
    } else {
      NotListed(rows, kind, status);
      assert ItemsBy(db, semester, kind, status) == {};
    }
  }

  datatype Overview = Overview(successItemsCreate: nat, successItemsCancel: nat, failedItemsCreate: nat,
                               failedItemsCancel: nat,
                               pendingItems: nat, totalAllItems: nat)

  ghost predicate Counts(db: Db, semester: string, o: Overview) {
    && o.successItemsCreate == |ItemsBy(db, semester, CREATE, Success)| + |ItemsBy(db, semester, CANCEL, Success)|
    && o.successItemsCancel == |ItemsBy(db, semester, CANCEL, Success)|
    && o.failedItemsCreate == |ItemsBy(db, semester, CREATE, Failed)|
    && o.failedItemsCancel == |ItemsBy(db, semester, CANCEL, Failed)|
    && o.pendingItems == |ItemsBy(db, semester, CREATE, Pending)| + |ItemsBy(db, semester, CANCEL, Pending)|
    && o.totalAllItems ==
       o.successItemsCreate + o.successItemsCancel + o.failedItemsCreate + o.failedItemsCancel + o.pendingItems
  }

  method GetOverview(rows: seq<CountRow>, ghost db: Db, ghost semester: string) returns (o: Overview)
    requires GroupedBy(db, semester, rows)
    ensures Counts(db, semester, o)
  {
    var successItemsCreate, failedItemsCreate, successItemsCancel, failedItemsCancel, pendingItems := 0, 0, 0, 0, 0;
    for n := 0 to |rows|
      invariant successItemsCreate == CountIn(rows[..n], CREATE, Success)
      invariant successItemsCancel == CountIn(rows[..n], CANCEL, Success)
      invariant failedItemsCreate == CountIn(rows[..n], CREATE, Failed)
      invariant failedItemsCancel == CountIn(rows[..n], CANCEL, Failed)
      invariant pendingItems == CountIn(rows[..n], CREATE, Pending) + CountIn(rows[..n], CANCEL, Pending)
    {
      var row := rows[n];
      assert rows[..n + 1][..n] == rows[..n];
      if row.status == Pending {
        pendingItems := pendingItems + row.count;
      } else if row.status == Success {
        if row.kind == CREATE { successItemsCreate := successItemsCreate + row.count; }
        if row.kind == CANCEL { successItemsCancel := successItemsCancel + row.count; }
      } else if row.status == Failed {
        if row.kind == CREATE { failedItemsCreate := failedItemsCreate + row.count; }
        if row.kind == CANCEL { failedItemsCancel := failedItemsCancel + row.count; }
      }
    }
    assert rows[..|rows|] == rows;
    GroupCount(db, semester, rows, CREATE, Success);
    GroupCount(db, semester, rows, CANCEL, Success);
    GroupCount(db, semester, rows, CREATE, Failed);
    GroupCount(db, semester, rows, CANCEL, Failed);
    GroupCount(db, semester, rows, CREATE, Pending);
    GroupCount(db, semester, rows, CANCEL, Pending);
    successItemsCreate := successItemsCreate + successItemsCancel;
    var total := successItemsCreate + successItemsCancel + failedItemsCreate + failedItemsCancel + pendingItems;
    o := Overview(successItemsCreate, successItemsCancel, failedItemsCreate, failedItemsCancel, pendingItems, total);
  }

  // ---- What the counts mean ----

  // Within a semester, as many CREATE items are CANCELLED as CANCEL items succeeded.
  lemma CancelsPerSemester(cfg: Config, states: seq<State>, actions: seq<Action>, n: nat, semester: string)
    requires Run(cfg, states, actions) && n < |states| && Init(cfg, states[0]) && Steady(cfg)
    ensures |ItemsBy(states[n].db, semester, CANCEL, Success)| == |ItemsBy(states[n].db, semester, CREATE, Cancelled)|
  {
    var db := states[n].db;
    var f := CancelBijection(cfg, states, actions, n);
    var a, b := ItemsBy(db, semester, CANCEL, Success), ItemsBy(db, semester, CREATE, Cancelled);
    SemesterHalf(db, semester, f);
    var g := map c | c in a :: f[c];
    Matched(a, b, g);
  }

  lemma SemesterHalf(db: Db, semester: string, f: map<ItemId, ItemId>)
    requires f.Keys == CancelSuccesses(db) && f.Values == CancelledCreates(db)
    requires forall c :: c in f ==> SamePlace(db, c, f[c])
    ensures forall c :: c in ItemsBy(db, semester, CANCEL, Success) ==>
              c in f && f[c] in ItemsBy(db, semester, CREATE, Cancelled)
    ensures forall i :: i in ItemsBy(db, semester, CREATE, Cancelled) ==>
      exists c :: c in ItemsBy(db, semester, CANCEL, Success) && c in f && f[c] == i
  {
    forall c | c in ItemsBy(db, semester, CANCEL, Success)
      ensures c in f && f[c] in ItemsBy(db, semester, CREATE, Cancelled)
    {
      assert c in CancelSuccesses(db);
      assert f[c] in f.Values;
    }
    forall i | i in ItemsBy(db, semester, CREATE, Cancelled)
      ensures exists c :: c in ItemsBy(db, semester, CANCEL, Success) && c in f && f[c] == i
    {
      assert i in f.Values;
      var c :| c in f && f[c] == i;
      assert SamePlace(db, c, i);
      assert c in ItemsBy(db, semester, CANCEL, Success);
    }
  }

  // successItemsCreate += successItemsCancel makes it the number of CREATE
  // items of the semester that were ever SUCCESS, and the total the number of
  // its items.
  lemma DashboardCorrection(cfg: Config, states: seq<State>, actions: seq<Action>, n: nat, semester: string,
                            o: Overview)
    requires Run(cfg, states, actions) && n < |states| && Init(cfg, states[0]) && Steady(cfg)
    requires Counts(states[n].db, semester, o)
    ensures o.successItemsCreate == |set i | i in ItemsOf(states[n].db, semester) && EverSucceeded(states, n, i)|
    ensures o.totalAllItems == |ItemsOf(states[n].db, semester)|
  {
    var db := states[n].db;
    CancelsPerSemester(cfg, states, actions, n, semester);
    EverSucceededSet(cfg, states, actions, n, semester);
    InitHolds(cfg, states[0]);
    RunKeeps(cfg, states, actions, n);
    EveryItemCounted(db, semester);
  }

  lemma EverSucceededSet(cfg: Config, states: seq<State>, actions: seq<Action>, n: nat, semester: string)
    requires Run(cfg, states, actions) && n < |states| && Init(cfg, states[0]) && Steady(cfg)
    ensures |set i | i in ItemsOf(states[n].db, semester) && EverSucceeded(states, n, i)| ==
            |ItemsBy(states[n].db, semester, CREATE, Success)| + |ItemsBy(states[n].db, semester, CREATE, Cancelled)|
  {
    var db := states[n].db;
    var seated, given := ItemsBy(db, semester, CREATE, Success), ItemsBy(db, semester, CREATE, Cancelled);
    forall i | i in ItemsOf(db, semester) ensures EverSucceeded(states, n, i) <==> i in seated + given {
      EverSucceededNow(cfg, states, actions, n, i);
    }
    assert (set i | i in ItemsOf(db, semester) && EverSucceeded(states, n, i)) == seated + given;
  }

  ghost function ItemsOfKind(db: Db, semester: string, kind: BatchKind): set<ItemId> {
    set i | i in db.items && InSemester(db, semester, i) && db.items[i].kind == kind
  }

  ghost function ItemsAmong(db: Db, semester: string, kind: BatchKind, statuses: set<ItemStatus>): set<ItemId> {
    set i | i in db.items && InSemester(db, semester, i) && db.items[i].kind == kind && db.items[i].status in statuses
  }

  lemma OneMoreStatus(db: Db, semester: string, kind: BatchKind, statuses: set<ItemStatus>, status: ItemStatus)
    requires status !in statuses
    ensures |ItemsAmong(db, semester, kind, statuses + {status})|
            == |ItemsAmong(db, semester, kind, statuses)| + |ItemsBy(db, semester, kind, status)|
  {
    var before, more := ItemsAmong(db, semester, kind, statuses), ItemsBy(db, semester, kind, status);
    assert ItemsAmong(db, semester, kind, statuses + {status}) == before + more;
    assert before !! more;
  }

  lemma KindCounted(db: Db, semester: string, kind: BatchKind)
    ensures |ItemsOfKind(db, semester, kind)| ==
            |ItemsBy(db, semester, kind, Success)| + |ItemsBy(db, semester, kind, Cancelled)|
            + |ItemsBy(db, semester, kind, Failed)| + |ItemsBy(db, semester, kind, Pending)|
  {
    assert ItemsAmong(db, semester, kind, {}) == {};
    OneMoreStatus(db, semester, kind, {}, Success);
    OneMoreStatus(db, semester, kind, {} + {Success}, Cancelled);
    OneMoreStatus(db, semester, kind, {} + {Success} + {Cancelled}, Failed);
    OneMoreStatus(db, semester, kind, {} + {Success} + {Cancelled} + {Failed}, Pending);
    assert ItemsOfKind(db, semester, kind) ==
           ItemsAmong(db, semester, kind, {} + {Success} + {Cancelled} + {Failed} + {Pending});
  }

  // A CANCEL item is never CANCELLED, so seven groups make up the semester.
  lemma EveryItemCounted(db: Db, semester: string)
    requires Exact(db)
    ensures |ItemsOf(db, semester)| ==
            |ItemsBy(db, semester, CREATE, Success)| + |ItemsBy(db, semester, CREATE, Cancelled)|
            + |ItemsBy(db, semester, CREATE, Failed)| + |ItemsBy(db, semester, CREATE, Pending)|
            + |ItemsBy(db, semester, CANCEL, Success)|
            + |ItemsBy(db, semester, CANCEL, Failed)| + |ItemsBy(db, semester, CANCEL, Pending)|
  {
    KindCounted(db, semester, CREATE);
    KindCounted(db, semester, CANCEL);
    assert ItemsOf(db, semester) == ItemsOfKind(db, semester, CREATE) + ItemsOfKind(db, semester, CANCEL);
    NoCancelledCancel(db, semester);
  }

  lemma NoCancelledCancel(db: Db, semester: string)
    requires Exact(db)
    ensures ItemsBy(db, semester, CANCEL, Cancelled) == {}
  {
    forall i | i in db.items && db.items[i].status == Cancelled
      ensures db.items[i].kind == CREATE
    {
      assert HasCancel(db, i);
    }
  }
}
