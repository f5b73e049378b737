// The token-locked read-through cache of registration slots: many readers,
// expiring keys, invalidation and Redis failures, interleaved in any order.
module ReadThrough {
  import opened Prelude

  type Slots = seq<nat>    // the registration slots of a semester, by id
  type Token = nat         // randomUUID
  type ReaderId = nat

  const MAX_WAIT := 1000   // REGISTRATION_SLOT_CACHE_MAX_WAIT_MS
  const WAIT := 50         // REGISTRATION_SLOT_CACHE_WAIT_MS

  // Redis stores the token only; `owner` records who took the lock.
  datatype Lock = Lock(token: Token, owner: ReaderId)

  datatype Shared = Shared(cache: Option<Slots>, lock: Option<Lock>)

  // A command that throws was either not applied or applied with its reply lost.
  datatype Fault = Fine | Refused | Lost

  datatype Phase =
    | Starting                       // about to read the cache
    | Locking                        // about to try SET NX
    | Loading                        // about to load under the lock
    | Storing(slots: Slots)          // about to fill the cache
    | Releasing(kept: Option<Slots>) // in the finally block; None: an exception is pending
    | Waiting(until: int)            // polling the cache
    | Fallback                       // about to load without the cache
    | Done(slots: Slots)
    | Threw

  // ---- One awaited call of a reader ----

  // SET key token PX ttl NX
  function SetNx(s: Shared, token: Token, me: ReaderId): Shared {
    if s.lock.None? then s.(lock := Some(Lock(token, me))) else s
  }

  // The release script: delete the lock if it still holds this token.
  function Unlock(s: Shared, token: Token): Shared {
    if s.lock.Some? && s.lock.value.token == token then s.(lock := None) else s
  }

  function ReaderStep(db: Slots, s: Shared, me: ReaderId, token: Token, phase: Phase, now: int, fault: Fault)
    : (Shared, Phase)
  {
    match phase
    case Starting =>
      (s, if fault != Fine then Fallback else if s.cache.Some? then Done(s.cache.value) else Locking)
    case Locking =>
      (if fault == Refused then s else SetNx(s, token, me),
       if fault != Fine then Fallback else if s.lock.None? then Loading else Waiting(now + MAX_WAIT))
    case Loading =>
      (s, if fault != Fine then Releasing(None) else Storing(db))
    case Storing(slots) =>
      (if fault == Refused then s else s.(cache := Some(slots)),
       Releasing(if fault == Fine then Some(slots) else None))
    case Releasing(kept) =>
      (if fault == Refused then s else Unlock(s, token),
       if fault == Fine && kept.Some? then Done(kept.value) else Fallback)
    case Waiting(until) =>
      (s, if now >= until || fault != Fine then Fallback
          else if s.cache.Some? then Done(s.cache.value)
          else Waiting(until))
    case Fallback =>
      (s, if fault == Fine then Done(db) else Threw)
    case _ => (s, phase)
  }

  // ---- The system ----

  datatype Reader = Reader(token: Token, phase: Phase)

  datatype System = System(db: Slots, shared: Shared, readers: map<ReaderId, Reader>)

  datatype Action =
    | Arrive(reader: ReaderId, token: Token)
    | Step(reader: ReaderId, now: int, fault: Fault)
    | LockExpires
    | CacheGone                  // expiry or invalidation
    | DbChanges(slots: Slots)

  // Tokens are drawn at random and never repeat.
  ghost predicate Enabled(s: System, a: Action) {
    match a
    case Arrive(r, token) => r !in s.readers && forall q :: q in s.readers ==> s.readers[q].token != token
    case Step(r, _, _) => r in s.readers
    case _ => true
  }

  function Stepped(s: System, r: ReaderId, now: int, fault: Fault): System
    requires r in s.readers
  {
    var (shared, phase) := ReaderStep(s.db, s.shared, r, s.readers[r].token, s.readers[r].phase, now, fault);
    s.(shared := shared, readers := s.readers[r := s.readers[r].(phase := phase)])
  }

  ghost function Apply(s: System, a: Action): System
    requires Enabled(s, a)
  {
    match a
    case Arrive(r, token) => s.(readers := s.readers[r := Reader(token, Starting)])
    case Step(r, now, fault) => Stepped(s, r, now, fault)
    case LockExpires => s.(shared := s.shared.(lock := None))
    case CacheGone => s.(shared := s.shared.(cache := None))
    case DbChanges(slots) => s.(db := slots)
  }

  ghost predicate Init(s: System) { s.readers == map[] && s.shared == Shared(None, None) }

  ghost predicate Run(states: seq<System>, actions: seq<Action>) {
    && |states| == |actions| + 1
    && forall i :: 0 <= i < |actions| ==>
       Enabled(states[i], actions[i]) && states[i + 1] == Apply(states[i], actions[i])
  }

  // ---- The lock ----

  ghost predicate TokensOwn(s: System) {
    && (forall q, r :: q in s.readers && r in s.readers && s.readers[q].token == s.readers[r].token ==> q == r)
    && (s.shared.lock.Some? ==>
          s.shared.lock.value.owner in s.readers
          && s.readers[s.shared.lock.value.owner].token == s.shared.lock.value.token)
  }

  lemma StepTokens(s: System, a: Action)
    requires TokensOwn(s) && Enabled(s, a)
    ensures TokensOwn(Apply(s, a))
  {
  }

  lemma {:induction false} TokensHold(states: seq<System>, actions: seq<Action>, n: nat)
    requires Run(states, actions) && n < |states| && Init(states[0])
    ensures TokensOwn(states[n])
  {
    if n > 0 {
      TokensHold(states, actions, n - 1);
      StepTokens(states[n - 1], actions[n - 1]);
    }
  }

  // No step of a reader removes or replaces a lock another reader took, however
  // late its release comes; a release that goes through does remove its own.
  lemma ReleaseIsOwn(states: seq<System>, actions: seq<Action>, n: nat)
    requires Run(states, actions) && n < |actions| && Init(states[0]) && actions[n].Step?
    ensures var (before, after, r) := (states[n], states[n + 1], actions[n].reader);
            && (before.shared.lock.Some? && before.shared.lock.value.owner != r ==>
                  after.shared.lock == before.shared.lock)
            && (before.readers[r].phase.Releasing? && actions[n].fault != Refused ==>
                  after.shared.lock.Some? ==> after.shared.lock.value.owner != r)
  {
    TokensHold(states, actions, n);
    StepOwn(states[n], actions[n]);
  }

  lemma StepOwn(s: System, a: Action)
    requires TokensOwn(s) && a.Step? && Enabled(s, a)
    ensures s.shared.lock.Some? && s.shared.lock.value.owner != a.reader ==> Apply(s, a).shared.lock == s.shared.lock
    ensures s.readers[a.reader].phase.Releasing? && a.fault != Refused && Apply(s, a).shared.lock.Some? ==>
      Apply(s, a).shared.lock.value.owner != a.reader
  {
  }

  // ---- One loader at a time, unless the lock expires ----

  predicate Holds(p: Phase) { p.Loading? || p.Storing? || p.Releasing? }

  ghost predicate HoldersLocked(s: System) {
    forall r :: r in s.readers && Holds(s.readers[r].phase) ==> s.shared.lock == Some(Lock(s.readers[r].token, r))
  }

  lemma StepHolders(s: System, a: Action)
    requires TokensOwn(s) && HoldersLocked(s) && Enabled(s, a) && a != LockExpires
    ensures HoldersLocked(Apply(s, a))
  {
    var next := Apply(s, a);
    forall r | r in next.readers && Holds(next.readers[r].phase)
      ensures next.shared.lock == Some(Lock(next.readers[r].token, r))
    {
      if a.Step? && r != a.reader { StepOwn(s, a); }
    }
  }

  lemma {:induction false} HoldersHold(states: seq<System>, actions: seq<Action>, n: nat)
    requires Run(states, actions) && n < |states| && Init(states[0])
    requires forall i :: 0 <= i < n ==> actions[i] != LockExpires
    ensures HoldersLocked(states[n])
  {
    if n > 0 {
      HoldersHold(states, actions, n - 1);
      TokensHold(states, actions, n - 1);
      StepHolders(states[n - 1], actions[n - 1]);
    }
  }

  lemma OneLoader(states: seq<System>, actions: seq<Action>, n: nat, q: ReaderId, r: ReaderId)
    requires Run(states, actions) && n < |states| && Init(states[0])
    requires forall i :: 0 <= i < n ==> actions[i] != LockExpires
    requires q in states[n].readers && Holds(states[n].readers[q].phase)
    requires r in states[n].readers && Holds(states[n].readers[r].phase)
    ensures q == r
  {
    HoldersHold(states, actions, n);
  }

  // ---- What is returned was loaded ----

  // Step `m` is a call of loadFromDb that returned `v`.
  predicate LoadAt(states: seq<System>, actions: seq<Action>, m: nat, v: Slots) {
    && m < |actions| && m < |states| && actions[m].Step? && actions[m].fault == Fine
       && actions[m].reader in states[m].readers
    && (states[m].readers[actions[m].reader].phase == Loading || states[m].readers[actions[m].reader].phase == Fallback)
    && states[m].db == v
  }

  ghost predicate LoadedBefore(states: seq<System>, actions: seq<Action>, n: nat, v: Slots) {
    exists m: nat :: m < n && LoadAt(states, actions, m, v)
  }

  // The value a phase carries, if any.
  function Carried(p: Phase): Option<Slots> {
    match p
    case Storing(v) => Some(v)
    case Releasing(kept) => kept
    case Done(v) => Some(v)
    case _ => None
  }

  ghost predicate AllLoaded(states: seq<System>, actions: seq<Action>, n: nat)
    requires n < |states|
  {
    && (states[n].shared.cache.Some? ==> LoadedBefore(states, actions, n, states[n].shared.cache.value))
    && (forall r :: r in states[n].readers && Carried(states[n].readers[r].phase).Some? ==>
          LoadedBefore(states, actions, n, Carried(states[n].readers[r].phase).value))
  }

  lemma {:induction false} LoadedHolds(states: seq<System>, actions: seq<Action>, n: nat)
    requires Run(states, actions) && n < |states| && Init(states[0])
    ensures AllLoaded(states, actions, n)
  {
    if n > 0 {
      LoadedHolds(states, actions, n - 1);
      LoadedStep(states, actions, n - 1);
    }
  }

  lemma LoadedStep(states: seq<System>, actions: seq<Action>, n: nat)
    requires Run(states, actions) && n < |actions| && AllLoaded(states, actions, n)
    ensures AllLoaded(states, actions, n + 1)
  {
    var s, a, next := states[n], actions[n], states[n + 1];
    forall v | LoadedBefore(states, actions, n, v) ensures LoadedBefore(states, actions, n + 1, v) {
      var m: nat :| m < n && LoadAt(states, actions, m, v);
    }
    if a.Step? && LoadAt(states, actions, n, s.db) { assert LoadedBefore(states, actions, n + 1, s.db); }
    forall r | r in next.readers && Carried(next.readers[r].phase).Some?
      ensures LoadedBefore(states, actions, n + 1, Carried(next.readers[r].phase).value)
    {
      if a.Step? && r == a.reader {
        assert s.readers[r].phase == Loading || s.readers[r].phase == Fallback
               || Carried(next.readers[r].phase) == Carried(s.readers[r].phase)
               || Carried(next.readers[r].phase) == s.shared.cache;
      }
    }
  }

  // Every answer was returned by loadFromDb earlier in the run: no reader makes
  // one up, and none reads a half-written cache.
  lemma ReturnedWasLoaded(states: seq<System>, actions: seq<Action>, n: nat, r: ReaderId)
    requires Run(states, actions) && n < |states| && Init(states[0])
    requires r in states[n].readers && states[n].readers[r].phase.Done?
    ensures exists m: nat :: m < n && LoadAt(states, actions, m, states[n].readers[r].phase.slots)
  {
    LoadedHolds(states, actions, n);
  }

  // ---- readThroughRegistrationSlotsCache ----

  // What the n-th awaited call of one reader meets: the clock, the database,
  // the keys as other clients left them, and a fault.
  datatype Moment = Moment(now: int, db: Slots, shared: Shared, fault: Fault)

  // The phase of a reader after `n` calls.
  function Trace(world: nat -> Moment, me: ReaderId, token: Token, n: nat): Phase {
    if n == 0 then Starting
    else
      var w := world(n - 1);
      ReaderStep(w.db, w.shared, me, token, Trace(world, me, token, n - 1), w.now, w.fault).1
  }

  // The keys after the n-th call.
  function Effect(world: nat -> Moment, me: ReaderId, token: Token, n: nat): Shared {
    var w := world(n);
    ReaderStep(w.db, w.shared, me, token, Trace(world, me, token, n), w.now, w.fault).0
  }

  // The clock never goes back, and a poll sleeps before it looks again.
  predicate Ticks(world: nat -> Moment, me: ReaderId, token: Token, n: nat) {
    && world(n).now <= world(n + 1).now
    && (Trace(world, me, token, n).Waiting? && Trace(world, me, token, n + 1).Waiting? ==>
          world(n).now + WAIT <= world(n + 1).now)
  }

  ghost predicate ClockOk(world: nat -> Moment, me: ReaderId, token: Token) {
    forall n: nat {:trigger Ticks(world, me, token, n)} :: Ticks(world, me, token, n)
  }

  // The first `n` calls did to the keys what the reader's steps do.
  ghost predicate Followed(world: nat -> Moment, me: ReaderId, token: Token, n: nat, log: seq<Shared>) {
    |log| == n && forall i {:trigger log[i]} :: 0 <= i < n ==> log[i] == Effect(world, me, token, i)
  }

  // One more call: `s` is what it left in the keys, `next` the reader's new phase.
  lemma Called(world: nat -> Moment, me: ReaderId, token: Token, n: nat, phase: Phase, log: seq<Shared>, s: Shared,
               next: Phase)
    requires Trace(world, me, token, n) == phase && Followed(world, me, token, n, log)
    requires (s, next) == ReaderStep(world(n).db, world(n).shared, me, token, phase, world(n).now, world(n).fault)
    ensures Trace(world, me, token, n + 1) == next && Followed(world, me, token, n + 1, log + [s])
  {
  }

  class SlotsCache {
    var cache: Option<Slots>
    var lock: Option<Lock>
    ghost var log: seq<Shared>   // the keys after each call

    constructor ()
      ensures View() == Shared(None, None) && log == []
    {
      cache, lock, log := None, None, [];
    }

    function View(): Shared
      reads this
    {
      Shared(cache, lock)
    }

    // Other clients run between two awaited calls.
    method Meanwhile(s: Shared)
      modifies this`cache, this`lock
      ensures View() == s
    {
      cache, lock := s.cache, s.lock;
    }

    method GetCache(fault: Fault) returns (value: Option<Slots>)
      modifies this`log
      ensures log == old(log) + [View()]
      ensures value == if fault == Fine then cache else None
    {
      value := if fault == Fine then cache else None;
      log := log + [View()];
    }

    method TrySetLock(token: Token, me: ReaderId, fault: Fault) returns (ok: bool)
      modifies this
      ensures View() == if fault == Refused then old(View()) else SetNx(old(View()), token, me)
      ensures log == old(log) + [View()]
      ensures ok == (fault == Fine && old(lock).None?)
    {
      ok := fault == Fine && lock.None?;
      if fault != Refused && lock.None? { lock := Some(Lock(token, me)); }
      log := log + [View()];
    }

    method SetCache(slots: Slots, fault: Fault)
      modifies this
      ensures View() == if fault == Refused then old(View()) else old(View()).(cache := Some(slots))
      ensures log == old(log) + [View()]
    {
      if fault != Refused { cache := Some(slots); }
      log := log + [View()];
    }

    method ReleaseLock(token: Token, fault: Fault)
      modifies this
      ensures View() == if fault == Refused then old(View()) else Unlock(old(View()), token)
      ensures log == old(log) + [View()]
    {
      if fault != Refused && lock.Some? && lock.value.token == token { lock := None; }
      log := log + [View()];
    }

    method LoadFromDb(w: Moment) returns (slots: Option<Slots>)
      modifies this`log
      ensures log == old(log) + [View()]
      ensures slots == if w.fault == Fine then Some(w.db) else None
    {
      slots := if w.fault == Fine then Some(w.db) else None;
      log := log + [View()];
    }

    // The part under the lock: load, fill, and release whatever happens.
    // None: an exception left the block.
    method LoadUnderLock(world: nat -> Moment, me: ReaderId, token: Token, n: nat)
      returns (slots: Option<Slots>, m: nat)
      requires Trace(world, me, token, n) == Loading && Followed(world, me, token, n, log)
      modifies this
      ensures n < m <= n + 3
      ensures Trace(world, me, token, m) == if slots.Some? then Done(slots.value) else Fallback
      ensures Followed(world, me, token, m, log)
    {
      Meanwhile(world(n).shared);
      ghost var before := log;
      slots := LoadFromDb(world(n));
      Called(world, me, token, n, Loading, before, View(),
             if slots.Some? then Storing(slots.value) else Releasing(None));
      m := n + 1;
      if slots.Some? {
        slots := Fill(world, me, token, m, slots.value);
        m := m + 1;
      }
      slots := Finally(world, me, token, m, slots);
      m := m + 1;
    }

    method Fill(world: nat -> Moment, me: ReaderId, token: Token, n: nat, slots: Slots) returns (kept: Option<Slots>)
      requires Trace(world, me, token, n) == Storing(slots) && Followed(world, me, token, n, log)
      modifies this
      ensures Trace(world, me, token, n + 1) == Releasing(kept) && Followed(world, me, token, n + 1, log)
    {
      Meanwhile(world(n).shared);
      ghost var before := log;
      SetCache(slots, world(n).fault);
      kept := if world(n).fault == Fine then Some(slots) else None;
      Called(world, me, token, n, Storing(slots), before, View(), Releasing(kept));
    }

    // The finally block; an exception in it replaces the result.
    method Finally(world: nat -> Moment, me: ReaderId, token: Token, n: nat, kept: Option<Slots>)
      returns (slots: Option<Slots>)
      requires Trace(world, me, token, n) == Releasing(kept) && Followed(world, me, token, n, log)
      modifies this
      ensures Trace(world, me, token, n + 1) == if slots.Some? then Done(slots.value) else Fallback
      ensures Followed(world, me, token, n + 1, log)
    {
      Meanwhile(world(n).shared);
      ghost var before := log;
      ReleaseLock(token, world(n).fault);
      slots := if world(n).fault == Fine then kept else None;
      Called(world, me, token, n, Releasing(kept), before, View(), if slots.Some? then Done(slots.value) else Fallback);
    }

    // The polling loop. None: time is up or a read threw.
    method Poll(world: nat -> Moment, me: ReaderId, token: Token, n: nat, waitUntil: int)
      returns (slots: Option<Slots>, m: nat)
      requires ClockOk(world, me, token) && Followed(world, me, token, n, log)
      requires n > 0 && Trace(world, me, token, n) == Waiting(waitUntil) && waitUntil == world(n - 1).now + MAX_WAIT
      modifies this
      ensures n < m <= n + 21
      ensures Trace(world, me, token, m) == if slots.Some? then Done(slots.value) else Fallback
      ensures Followed(world, me, token, m, log)
    {
      m := n;
      assert Ticks(world, me, token, n - 1);
      while world(m).now < waitUntil
        invariant n <= m && Trace(world, me, token, m) == Waiting(waitUntil)
        invariant Followed(world, me, token, m, log)
        invariant world(n - 1).now + WAIT * (m - n) <= world(m).now
        invariant WAIT * (m - n) < MAX_WAIT + WAIT
        decreases waitUntil - world(m).now
      {
        Meanwhile(world(m).shared);
        ghost var before := log;
        slots := GetCache(world(m).fault);
        Called(world, me, token, m, Waiting(waitUntil), before, View(),
               if world(m).fault != Fine then Fallback else if slots.Some? then Done(slots.value)
               else Waiting(waitUntil));
        m := m + 1;
        if world(m - 1).fault != Fine || slots.Some? { return; }
        assert Ticks(world, me, token, m - 1);
      }
      Meanwhile(world(m).shared);
      Called(world, me, token, m, Waiting(waitUntil), log, View(), Fallback);
      log := log + [View()];
      return None, m + 1;
    }

    // Read the cache, then try to take the lock. The phase says where to go on.
    method Open(world: nat -> Moment, me: ReaderId, token: Token) returns (phase: Phase, n: nat)
      requires log == []
      modifies this
      ensures 1 <= n <= 2 && Trace(world, me, token, n) == phase && Followed(world, me, token, n, log)
      ensures phase.Done? || phase == Fallback
              || (n == 2 && (phase == Loading || phase == Waiting(world(1).now + MAX_WAIT)))
    {
      Meanwhile(world(0).shared);
      var cached := GetCache(world(0).fault);
      phase := if world(0).fault != Fine then Fallback else if cached.Some? then Done(cached.value) else Locking;
      Called(world, me, token, 0, Starting, [], View(), phase);
      n := 1;
      if phase != Locking { return; }
      Meanwhile(world(1).shared);
      ghost var before := log;
      var locked := TrySetLock(token, me, world(1).fault);
      phase := if world(1).fault != Fine then Fallback
               else if locked then Loading
               else Waiting(world(1).now + MAX_WAIT);
      Called(world, me, token, 1, Locking, before, View(), phase);
      n := 2;
    }

    // Proved to be a run of ReaderStep: the same phases, the same writes, at
    // most 24 calls, and an exception only when the last load throws.
    method ReadThroughRegistrationSlotsCache(world: nat -> Moment, me: ReaderId, token: Token)
      returns (slots: Option<Slots>, n: nat)
      requires ClockOk(world, me, token) && log == []
      modifies this
      ensures n <= 24
      ensures Trace(world, me, token, n) == if slots.Some? then Done(slots.value) else Threw
      ensures Followed(world, me, token, n, log)
    {
      var phase;
      phase, n := Open(world, me, token);
      slots := None;
      match phase {
        case Done(cached) => return Some(cached), n;
        case Loading => slots, n := LoadUnderLock(world, me, token, n);
        case Waiting(until) => slots, n := Poll(world, me, token, n, until);
        case _ =>
      }
      if slots.Some? { return; }
      Meanwhile(world(n).shared);
      ghost var before := log;
      slots := LoadFromDb(world(n));
      Called(world, me, token, n, Fallback, before, View(), if slots.Some? then Done(slots.value) else Threw);
      n := n + 1;
    }
  }

  // ---- What a reader returns and writes ----

  lemma {:induction false} DoneStays(world: nat -> Moment, me: ReaderId, token: Token, k: nat, n: nat)
    requires k <= n && (Trace(world, me, token, k).Done? || Trace(world, me, token, k) == Threw)
    ensures Trace(world, me, token, n) == Trace(world, me, token, k)
  {
    if k < n { DoneStays(world, me, token, k, n - 1); }
  }

  // The first call that answers fixes the answer.
  lemma AnswerAt(world: nat -> Moment, me: ReaderId, token: Token, k: nat, n: nat, v: Slots, slots: Option<Slots>)
    requires Trace(world, me, token, k) == Done(v)
    requires Trace(world, me, token, n) == if slots.Some? then Done(slots.value) else Threw
    ensures slots == Some(v)
  {
    if k <= n { DoneStays(world, me, token, k, n); } else { DoneStays(world, me, token, n, k); }
  }

  // Calls 0 to k - 1 met no fault.
  ghost predicate AllFine(world: nat -> Moment, k: nat) { forall i :: 0 <= i < k ==> world(i).fault == Fine }

  // A cached value is returned as it is.
  lemma HitTrace(world: nat -> Moment, me: ReaderId, token: Token)
    requires world(0).fault == Fine && world(0).shared.cache.Some?
    ensures Trace(world, me, token, 1) == Done(world(0).shared.cache.value)
    ensures Effect(world, me, token, 0) == world(0).shared
  {
    assert Trace(world, me, token, 0) == Starting;
  }

  // Nothing cached and the lock free: take the lock, load, fill, release.
  ghost predicate Misses(world: nat -> Moment) {
    AllFine(world, 5) && world(0).shared.cache.None? && world(1).shared.lock.None?
  }

  lemma MissTrace(world: nat -> Moment, me: ReaderId, token: Token)
    requires Misses(world)
    ensures Trace(world, me, token, 0) == Starting && Trace(world, me, token, 1) == Locking
    ensures Trace(world, me, token, 2) == Loading && Trace(world, me, token, 3) == Storing(world(2).db)
    ensures Trace(world, me, token, 4) == Releasing(Some(world(2).db))
    ensures Trace(world, me, token, 5) == Done(world(2).db)
  {
    assert world(0).fault == Fine && world(1).fault == Fine && world(2).fault == Fine && world(3).fault == Fine;
    assert Trace(world, me, token, 0) == Starting;
    assert Trace(world, me, token, 1) == Locking;
    assert Trace(world, me, token, 2) == Loading;
    assert Trace(world, me, token, 3) == Storing(world(2).db);
    assert Trace(world, me, token, 4) == Releasing(Some(world(2).db));
  }

  lemma MissEffects(world: nat -> Moment, me: ReaderId, token: Token)
    requires Misses(world)
    ensures Effect(world, me, token, 1) == Shared(world(1).shared.cache, Some(Lock(token, me)))
    ensures Effect(world, me, token, 3) == Shared(Some(world(2).db), world(3).shared.lock)
    ensures Effect(world, me, token, 4) ==
            if world(4).shared.lock.Some? && world(4).shared.lock.value.token == token
            then Shared(world(4).shared.cache, None) else world(4).shared
  {
    MissTrace(world, me, token);
    assert world(1).fault == Fine && world(3).fault == Fine && world(4).fault == Fine;
  }

  // Nothing cached and the lock taken: the first poll in time that finds a value
  // returns it; if none does, the database is read.
  ghost predicate Polls(world: nat -> Moment, k: nat) {
    && k >= 2 && AllFine(world, k) && world(0).shared.cache.None? && world(1).shared.lock.Some?
    && forall i :: 2 <= i < k ==> world(i).now < world(1).now + 1000 && world(i).shared.cache.None?
  }

  lemma {:induction false} PollTrace(world: nat -> Moment, me: ReaderId, token: Token, k: nat)
    requires Polls(world, k)
    ensures Trace(world, me, token, k) == Waiting(world(1).now + 1000)
  {
    if k == 2 {
      assert world(0).fault == Fine && world(1).fault == Fine;
      assert Trace(world, me, token, 0) == Starting;
      assert Trace(world, me, token, 1) == Locking;
    } else {
      PollTrace(world, me, token, k - 1);
    }
  }

  // readThroughRegistrationSlotsCache on a hit, on a miss, and while another
  // reader loads.
  method ReadSlots(keys: SlotsCache, world: nat -> Moment, me: ReaderId, token: Token, ghost k: nat)
    returns (slots: Option<Slots>, n: nat)
    requires ClockOk(world, me, token) && keys.log == []
    modifies keys
    ensures slots.None? ==> exists m :: 0 <= m < n && world(m).fault != Fine
    ensures world(0).fault == Fine && world(0).shared.cache.Some? ==>
      slots == world(0).shared.cache && |keys.log| >= 1 && keys.log[0] == world(0).shared
    ensures Misses(world) ==>
      && slots == Some(world(2).db) && |keys.log| >= 5
      && keys.log[1] == Shared(world(1).shared.cache, Some(Lock(token, me)))
      && keys.log[3] == Shared(Some(world(2).db), world(3).shared.lock)
      && keys.log[4] == (if world(4).shared.lock.Some? && world(4).shared.lock.value.token == token
                         then Shared(world(4).shared.cache, None) else world(4).shared)
    ensures Polls(world, k) && world(k).fault == Fine && world(k).now < world(1).now + 1000
            && world(k).shared.cache.Some? ==>
      slots == world(k).shared.cache
    ensures Polls(world, k) && world(k).now >= world(1).now + 1000 && world(k + 1).fault == Fine ==>
      slots == Some(world(k + 1).db)
  {
    slots, n := keys.ReadThroughRegistrationSlotsCache(world, me, token);
    if slots.None? { ghost var m := ThrewAfterFault(world, me, token, n); }
    if world(0).fault == Fine && world(0).shared.cache.Some? {
      HitTrace(world, me, token);
      AnswerAt(world, me, token, 1, n, world(0).shared.cache.value, slots);
      NotYet(world, me, token, n, 0);
    }
    if Misses(world) {
      MissTrace(world, me, token);
      MissEffects(world, me, token);
      AnswerAt(world, me, token, 5, n, world(2).db, slots);
      NotYet(world, me, token, n, 4);
    }
    if Polls(world, k) {
      PollTrace(world, me, token, k);
      if world(k).fault == Fine && world(k).now < world(1).now + 1000 && world(k).shared.cache.Some? {
        AnswerAt(world, me, token, k + 1, n, world(k).shared.cache.value, slots);
      }
      if world(k).now >= world(1).now + 1000 && world(k + 1).fault == Fine {
        assert Trace(world, me, token, k + 1) == Fallback;
        AnswerAt(world, me, token, k + 2, n, world(k + 1).db, slots);
      }
    }
  }

  // A phase that is not final at `k` means that the answer comes later.
  lemma NotYet(world: nat -> Moment, me: ReaderId, token: Token, n: nat, k: nat)
    requires Trace(world, me, token, n).Done? || Trace(world, me, token, n) == Threw
    requires !Trace(world, me, token, k).Done? && Trace(world, me, token, k) != Threw
    ensures n > k
  {
    if n <= k { DoneStays(world, me, token, n, k); }
  }

  lemma {:induction false} ThrewAfterFault(world: nat -> Moment, me: ReaderId, token: Token, n: nat) returns (m: nat)
    requires Trace(world, me, token, n) == Threw
    ensures m < n && world(m).fault != Fine
  {
    m := n - 1;
    if Trace(world, me, token, n - 1) == Threw { m := ThrewAfterFault(world, me, token, n - 1); }
  }
}
