/**
  The read-through cache with stampede protection
  (src/core/redis/redis.service.ts, getOrSetWithStampedeProtection).

  One cache key and its computing lock are modelled; values stand for their JSON text. The lock
  holds the constant '1', so nothing ties it to the caller that took it.
*/
module StampedeCaches {
  import opened Prelude

  /** Cached values are JSON text. */
  type Json = string

  datatype Options = Options(ttlMs: nat, lockTtlMs: nat, maxRetries: nat)

  datatype Reply = Returned(value: Json) | Threw

  // ---------------------------------------------------------------------------------------------
  // One call, with the store's answers as inputs
  // ---------------------------------------------------------------------------------------------

  /** How one command went; an open circuit skips it and yields its fallback. */
  datatype Command = Ran | Skipped | Broken

  /** What a poll found: an entry, none (or a skipped GET), or an error. */
  datatype Answer = Hit(value: Json) | Miss | Failed

  /** The number of leading misses. */
  function Misses(answers: seq<Answer>): (n: nat)
    ensures n <= |answers|
    ensures forall i | 0 <= i < n :: answers[i].Miss?
    ensures n < |answers| ==> !answers[n].Miss?
  {
    if answers == [] || !answers[0].Miss? then 0 else 1 + Misses(answers[1..])
  }

  /** The commands of one call; only GET and the SET of the value go through the circuit breaker. */
  datatype Commands = Commands(read: Command, lockBroken: bool, store: Command, delBroken: bool)

  /** Whether the fetched value reaches the cache. */
  predicate Stores(k: Commands, fetched: Reply) {
    fetched.Returned? && k.store == Ran
  }

  /** What the fetch and the store amount to for the caller. */
  function Computed(k: Commands, fetched: Reply): Reply {
    if fetched.Returned? && k.store == Broken then Threw else fetched
  }

  class ComputedEntry {
    var cached: Option<Json>
    var locked: bool

    constructor ()
      ensures cached == None && !locked
    {
      cached, locked := None, false;
    }

    /**
      `polled[i]` is what the cache answers after the i-th sleep, when other callers have had time to
      act; `fetched` is what the fetcher does if it is run.
    */
    method GetOrSet(o: Options, k: Commands, polled: seq<Answer>, fetched: Reply)
      returns (r: Reply, fetches: nat, polls: nat)
      requires |polled| == o.maxRetries
      modifies this
      ensures k.read == Broken ==> r == Threw && fetches == polls == 0
      ensures k.read == Ran && old(cached).Some? ==> r == Returned(old(cached).value) && fetches == polls == 0
      ensures FirstGetMisses(k, old(cached)) && k.lockBroken ==> r == Threw && fetches == polls == 0
      ensures FirstGetMisses(k, old(cached)) && !k.lockBroken && !old(locked) ==>
                r == (if k.delBroken then Threw else Computed(k, fetched)) && fetches == 1 && polls == 0
                && locked == k.delBroken
      ensures FirstGetMisses(k, old(cached)) && !k.lockBroken && old(locked) ==>
                var n := Misses(polled);
                if n < o.maxRetries
                then r == (if polled[n].Hit? then Returned(polled[n].value) else Threw)
                     && fetches == 0 && polls == n + 1
                else r == Computed(k, fetched) && fetches == 1 && polls == n
      ensures !FirstGetMisses(k, old(cached)) || k.lockBroken || old(locked) ==> locked == old(locked)
      ensures cached == if fetches == 1 && Stores(k, fetched) then Some(fetched.value) else old(cached)
      ensures k.read == Skipped || (k.read == Ran && old(cached) == None) <==> FirstGetMisses(k, old(cached))
      ensures fetches == 1 && r.Returned? ==> fetched == r && k.store != Broken
      ensures fetches == 1 && r.Threw? ==> fetched.Threw? || k.store == Broken || k.delBroken
      ensures fetches == 1 && fetched.Returned? && k.store == Ran ==> cached == Some(fetched.value)
      ensures fetches == 0 || fetched.Threw? || k.store != Ran ==> cached == old(cached)
    {
      fetches, polls := 0, 0;
      if k.read == Broken { return Threw, 0, 0; }
      if k.read == Ran && cached.Some? { return Returned(cached.value), 0, 0; }
      if k.lockBroken { return Threw, 0, 0; }
      if !locked {
        locked := true;
        r := FetchAndSet(k, fetched);
        fetches := 1;
        if k.delBroken { return Threw, fetches, polls; }
        locked := false;
        return r, fetches, polls;
      }
      while polls < o.maxRetries
        invariant polls <= o.maxRetries && Misses(polled) >= polls
        invariant cached == old(cached) && locked
      {
        var answer := polled[polls];
        polls := polls + 1;
        if answer.Failed? { return Threw, fetches, polls; }
        if answer.Hit? { return Returned(answer.value), fetches, polls; }
      }
      r := FetchAndSet(k, fetched);
      fetches := 1;
    }

    /** const value = await fetcher(); await this.set(...); return value */
    method FetchAndSet(k: Commands, fetched: Reply) returns (r: Reply)
      modifies this`cached
      ensures r == Computed(k, fetched)
      ensures cached == if Stores(k, fetched) then Some(fetched.value) else old(cached)
      ensures fetched.Returned? && k.store != Broken ==> r == fetched
      ensures fetched.Threw? || k.store == Broken ==> r == Threw
      ensures cached == if fetched.Returned? && k.store == Ran then Some(fetched.value) else old(cached)
    {
      if fetched.Threw? || k.store == Broken { return Threw; }
      if k.store == Ran { cached := Some(fetched.value); }
      r := fetched;
    }
  }

  /** The first GET finds nothing, or is skipped. */
  predicate FirstGetMisses(k: Commands, cached: Option<Json>) {
    k.read == Skipped || (k.read == Ran && cached.None?)
  }

  // ---------------------------------------------------------------------------------------------
  // Any number of concurrent callers
  // ---------------------------------------------------------------------------------------------

  datatype Phase =
    | Reading
    | Locking
    | Polling(done: nat)
    | Fetching(lease: Option<int>)
    | Storing(value: Json, lease: Option<int>)
    | Releasing(reply: Reply, deadline: int)
    | Done(reply: Reply)

  /** `own` is the value this caller's own fetch produced, if any. */
  datatype Caller = Caller(phase: Phase, fetches: nat, own: Option<Json>, polls: nat)

  datatype Entry = Entry(value: Json, expireAt: int)

  datatype World = World(
    now: int, cache: Option<Entry>, lock: Option<int>, fetched: set<Json>, callers: map<nat, Caller>)

  /** `down` marks a command answered by the circuit breaker's fallback instead of by Redis. */
  datatype Event =
    | Tick(ms: nat)
    | CacheExpires
    | LockExpires
    | Invalidate
    | Arrive(id: nat)
    | Read(id: nat, down: bool)
    | ReadError(id: nat)
    | TryLock(id: nat)
    | LockError(id: nat)
    | Poll(id: nat, down: bool)
    | PollError(id: nat)
    | GiveUp(id: nat)
    | FetchOk(id: nat, value: Json)
    | FetchError(id: nat)
    | Store(id: nat, down: bool)
    | StoreError(id: nat)
    | Release(id: nat)
    | ReleaseError(id: nat)

  /** The caller whose own progress the event is. */
  function Actor(e: Event): Option<nat> {
    if e.Tick? || e.CacheExpires? || e.LockExpires? || e.Invalidate? || e.Arrive? then None else Some(e.id)
  }

  predicate Enabled(o: Options, w: World, e: Event) {
    match e
    case Tick(_) => true
    case CacheExpires => w.cache.Some? && w.now >= w.cache.value.expireAt
    case LockExpires => w.lock.Some? && w.now >= w.lock.value
    case Invalidate => true
    case Arrive(id) => id !in w.callers
    case _ =>
      && e.id in w.callers
      && var p := w.callers[e.id].phase;
      match e
      case Read(_, _) => p.Reading?
      case ReadError(_) => p.Reading?
      case TryLock(_) => p.Locking?
      case LockError(_) => p.Locking?
      case Poll(_, _) => p.Polling? && p.done < o.maxRetries
      case PollError(_) => p.Polling? && p.done < o.maxRetries
      case GiveUp(_) => p.Polling? && p.done >= o.maxRetries
      case FetchOk(_, _) => p.Fetching?
      case FetchError(_) => p.Fetching?
      case Store(_, _) => p.Storing?
      case StoreError(_) => p.Storing?
      case Release(_) => p.Releasing?
      case ReleaseError(_) => p.Releasing?
      case _ => true
  }

  function At(w: World, id: nat, p: Phase): World
    requires id in w.callers
  {
    w.(callers := w.callers[id := w.callers[id].(phase := p)])
  }

  /** Where a caller goes with its answer: a lock holder must still delete the lock. */
  function Finish(lease: Option<int>, r: Reply): Phase {
    if lease.Some? then Releasing(r, lease.value) else Done(r)
  }

  function Next(o: Options, w: World, e: Event): World
    requires Enabled(o, w, e)
  {
    match e
    case Tick(ms) => w.(now := w.now + ms)
    case CacheExpires => w.(cache := None)
    case LockExpires => w.(lock := None)
    case Invalidate => w.(cache := None)
    case Arrive(id) => w.(callers := w.callers[id := Caller(Reading, 0, None, 0)])
    case Read(id, down) =>
      At(w, id, if !down && w.cache.Some? then Done(Returned(w.cache.value.value)) else Locking)
    case ReadError(id) => At(w, id, Done(Threw))
    case TryLock(id) =>
      if w.lock.None? then At(w, id, Fetching(Some(w.now + o.lockTtlMs))).(lock := Some(w.now + o.lockTtlMs))
      else At(w, id, Polling(0))
    case LockError(id) => At(w, id, Done(Threw))
    case Poll(id, down) =>
      var c := w.callers[id];
      var p := if !down && w.cache.Some? then Done(Returned(w.cache.value.value)) else Polling(c.phase.done + 1);
      w.(callers := w.callers[id := c.(phase := p, polls := c.polls + 1)])
    case PollError(id) =>
      var c := w.callers[id];
      w.(callers := w.callers[id := c.(phase := Done(Threw), polls := c.polls + 1)])
    case GiveUp(id) => At(w, id, Fetching(None))
    case FetchOk(id, v) =>
      var c := w.callers[id];
      w.(fetched := w.fetched + {v},
         callers := w.callers[id := Caller(Storing(v, c.phase.lease), c.fetches + 1, Some(v), c.polls)])
    case FetchError(id) =>
      var c := w.callers[id];
      w.(callers := w.callers[id := c.(phase := Finish(c.phase.lease, Threw), fetches := c.fetches + 1)])
    case Store(id, down) =>
      var p := w.callers[id].phase;
      At(w, id, Finish(p.lease, Returned(p.value)))
        .(cache := if down then w.cache else Some(Entry(p.value, w.now + o.ttlMs)))
    case StoreError(id) => At(w, id, Finish(w.callers[id].phase.lease, Threw))
    case Release(id) => At(w, id, Done(w.callers[id].phase.reply)).(lock := None)
    case ReleaseError(id) => At(w, id, Done(Threw))
  }

  ghost predicate IsRun(o: Options, ws: seq<World>, es: seq<Event>) {
    && |ws| == |es| + 1
    && ws[0].cache == None && ws[0].lock == None && ws[0].fetched == {} && ws[0].callers == map[]
    && forall i | 0 <= i < |es| :: Enabled(o, ws[i], es[i]) && ws[i + 1] == Next(o, ws[i], es[i])
  }

  // Transparency --------------------------------------------------------------------------------

  ghost predicate CallerOk(o: Options, w: World, c: Caller) {
    && c.fetches <= 1 && c.polls <= o.maxRetries
    && (c.own.Some? ==> c.fetches == 1 && c.own.value in w.fetched)
    && match c.phase
       case Reading => c.fetches == 0 && c.polls == 0
       case Locking => c.fetches == 0 && c.polls == 0
       case Polling(n) => c.fetches == 0 && c.polls == n
       case Fetching(_) => c.fetches == 0
       case Storing(v, _) => c.own == Some(v)
       case Releasing(r, _) => c.fetches == 1 && (r.Returned? ==> c.own == Some(r.value))
       case Done(r) => r.Returned? ==> r.value in w.fetched && (c.fetches == 1 ==> c.own == Some(r.value))
  }

  ghost predicate Transparent(o: Options, w: World) {
    && (w.cache.Some? ==> w.cache.value.value in w.fetched)
    && forall id | id in w.callers :: CallerOk(o, w, w.callers[id])
  }

  /** A caller other than the actor is as it was, and the values fetched stay fetched. */
  lemma BystanderOk(o: Options, w: World, e: Event, id: nat)
    requires Enabled(o, w, e) && id in w.callers && CallerOk(o, w, w.callers[id]) && Actor(e) != Some(id)
    ensures id in Next(o, w, e).callers && CallerOk(o, Next(o, w, e), Next(o, w, e).callers[id])
  {
    var w' := Next(o, w, e);
    assert w'.callers[id] == w.callers[id] && w.fetched <= w'.fetched;
  }

  lemma CallerOkStep(o: Options, w: World, e: Event, id: nat)
    requires Transparent(o, w) && Enabled(o, w, e) && id in Next(o, w, e).callers
    ensures CallerOk(o, Next(o, w, e), Next(o, w, e).callers[id])
  {
    if id in w.callers {
      assert CallerOk(o, w, w.callers[id]);
      if Actor(e) != Some(id) {
        BystanderOk(o, w, e, id);
      }
    }
  }

  lemma TransparentStep(o: Options, w: World, e: Event)
    requires Transparent(o, w) && Enabled(o, w, e)
    ensures Transparent(o, Next(o, w, e))
  {
    forall id | id in Next(o, w, e).callers ensures CallerOk(o, Next(o, w, e), Next(o, w, e).callers[id]) {
      CallerOkStep(o, w, e, id);
    }
    if e.Store? {
      assert CallerOk(o, w, w.callers[e.id]);
    }
  }

  /**
    However callers, expiry, invalidation and Redis failures interleave, the cache only ever holds a
    value some fetch produced; a call that returns, returns such a value, its own if it fetched; and
    it fetched at most once and polled at most maxRetries times.
  */
  lemma {:induction false} CacheIsTransparent(o: Options, ws: seq<World>, es: seq<Event>, i: nat)
    requires IsRun(o, ws, es) && i <= |es|
    ensures Transparent(o, ws[i])
  {
    if i > 0 {
      CacheIsTransparent(o, ws, es, i - 1);
      TransparentStep(o, ws[i - 1], es[i - 1]);
      assert ws[i] == Next(o, ws[i - 1], es[i - 1]);
    }
  }

  // Every call ends -----------------------------------------------------------------------------

  /** Steps a caller can still take. */
  function Rank(o: Options, p: Phase): nat {
    match p
    case Reading => o.maxRetries + 6
    case Locking => o.maxRetries + 5
    case Polling(n) => (if n < o.maxRetries then o.maxRetries - n else 0) + 4
    case Fetching(_) => 3
    case Storing(_, _) => 2
    case Releasing(_, _) => 1
    case Done(_) => 0
  }

  /** How many of the first n events are steps of caller `id`. */
  function OwnSteps(es: seq<Event>, id: nat, n: nat): nat
    requires n <= |es|
  {
    if n == 0 then 0 else OwnSteps(es, id, n - 1) + (if Actor(es[n - 1]) == Some(id) then 1 else 0)
  }

  lemma {:induction false} CallsAreBounded(o: Options, ws: seq<World>, es: seq<Event>, id: nat, i: nat)
    requires IsRun(o, ws, es) && i <= |es|
    ensures id !in ws[i].callers ==> OwnSteps(es, id, i) == 0
    ensures id in ws[i].callers ==> OwnSteps(es, id, i) + Rank(o, ws[i].callers[id].phase) <= o.maxRetries + 6
  {
    if i > 0 {
      CallsAreBounded(o, ws, es, id, i - 1);
      assert ws[i] == Next(o, ws[i - 1], es[i - 1]);
    }
  }

  /** A call that has not ended can always take its next step: it never waits for another caller. */
  lemma CallsNeverBlock(o: Options, w: World, id: nat, v: Json) returns (e: Event)
    requires id in w.callers && !w.callers[id].phase.Done?
    ensures Enabled(o, w, e) && Actor(e) == Some(id)
    ensures !Next(o, w, e).callers[id].phase.Done? ==>
              Rank(o, Next(o, w, e).callers[id].phase) < Rank(o, w.callers[id].phase)
  {
    e := match w.callers[id].phase
         case Reading => Read(id, false)
         case Locking => TryLock(id)
         case Polling(n) => if n < o.maxRetries then Poll(id, false) else GiveUp(id)
         case Fetching(_) => FetchOk(id, v)
         case Storing(_, _) => Store(id, false)
         case Releasing(_, _) => Release(id);
  }

  // What a call comes to --------------------------------------------------------------------------

  /** A command or the fetch of this call has failed. */
  predicate IsError(e: Event, id: nat) {
    && (e.ReadError? || e.LockError? || e.PollError? || e.FetchError? || e.StoreError? || e.ReleaseError?)
    && e.id == id
  }

  /** The call's reply says whether something has failed. */
  predicate Tells(w: World, id: nat, failed: bool) {
    if id !in w.callers then !failed
    else
      match w.callers[id].phase
      case Done(r) => r.Threw? <==> failed
      case Releasing(r, _) => r.Threw? <==> failed
      case _ => !failed
  }

  lemma TellsStep(o: Options, w: World, e: Event, id: nat, failed: bool)
    requires Enabled(o, w, e) && Tells(w, id, failed)
    ensures Tells(Next(o, w, e), id, failed || IsError(e, id))
  {
  }

  ghost predicate FailedBefore(es: seq<Event>, i: nat, id: nat)
    requires i <= |es|
  {
    exists m :: 0 <= m < i && IsError(es[m], id)
  }

  lemma {:induction false} RepliesTell(o: Options, ws: seq<World>, es: seq<Event>, i: nat, id: nat)
    requires IsRun(o, ws, es) && i <= |es|
    ensures Tells(ws[i], id, FailedBefore(es, i, id))
  {
    if i > 0 {
      RepliesTell(o, ws, es, i - 1, id);
      TellsStep(o, ws[i - 1], es[i - 1], id, FailedBefore(es, i - 1, id));
      assert ws[i] == Next(o, ws[i - 1], es[i - 1]);
      assert FailedBefore(es, i, id) <==> FailedBefore(es, i - 1, id) || IsError(es[i - 1], id);
    }
  }

  /** A call throws exactly if its fetch or one of its own commands has failed. */
  lemma ThrowsIff(o: Options, ws: seq<World>, es: seq<Event>, i: nat, id: nat)
    requires IsRun(o, ws, es) && i <= |es| && id in ws[i].callers && ws[i].callers[id].phase.Done?
    ensures ws[i].callers[id].phase.reply == Threw <==> exists m :: 0 <= m < i && IsError(es[m], id)
  {
    RepliesTell(o, ws, es, i, id);
  }

  lemma EndedStep(o: Options, w: World, e: Event, id: nat)
    requires Enabled(o, w, e) && id in w.callers && w.callers[id].phase.Done?
    ensures id in Next(o, w, e).callers && Next(o, w, e).callers[id] == w.callers[id]
  {
  }

  lemma {:induction false} EndedStays(o: Options, ws: seq<World>, es: seq<Event>, i: nat, j: nat, id: nat)
    requires IsRun(o, ws, es) && i <= j <= |es| && id in ws[i].callers && ws[i].callers[id].phase.Done?
    ensures id in ws[j].callers && ws[j].callers[id] == ws[i].callers[id]
    decreases j
  {
    if i < j {
      EndedStays(o, ws, es, i, j - 1, id);
      EndedStep(o, ws[j - 1], es[j - 1], id);
      assert ws[j] == Next(o, ws[j - 1], es[j - 1]);
    }
  }

  /** A read or a poll that finds an entry ends the call for good with that very value. */
  lemma HitEndsTheCall(o: Options, ws: seq<World>, es: seq<Event>, m: nat, j: nat, id: nat)
    requires IsRun(o, ws, es) && m < j <= |es| && (es[m] == Read(id, false) || es[m] == Poll(id, false))
    requires ws[m].cache.Some?
    ensures id in ws[j].callers && ws[j].callers[id].phase == Done(Returned(ws[m].cache.value.value))
    ensures id in ws[m].callers && ws[j].callers[id].fetches == ws[m].callers[id].fetches
  {
    assert Enabled(o, ws[m], es[m]) && ws[m + 1] == Next(o, ws[m], es[m]);
    EndedStays(o, ws, es, m + 1, j, id);
  }

  predicate ChangesEntry(e: Event) {
    e.CacheExpires? || e.Invalidate? || (e.Store? && !e.down)
  }

  /** The cache holds what was stored last, to expire ttlMs after that, until it expires or is invalidated. */
  lemma {:induction false} EntryIsTheLastStore(o: Options, ws: seq<World>, es: seq<Event>, m: nat, j: nat)
    requires IsRun(o, ws, es) && m < j <= |es| && es[m].Store? && !es[m].down
    requires forall n | m < n < j :: !ChangesEntry(es[n])
    ensures es[m].id in ws[m].callers && ws[m].callers[es[m].id].phase.Storing?
    ensures ws[j].cache == Some(Entry(ws[m].callers[es[m].id].phase.value, ws[m].now + o.ttlMs))
    decreases j
  {
    assert Enabled(o, ws[m], es[m]) && Enabled(o, ws[j - 1], es[j - 1]) && ws[j] == Next(o, ws[j - 1], es[j - 1]);
    if m + 1 < j {
      EntryIsTheLastStore(o, ws, es, m, j - 1);
    }
  }

  /** And after that there is none until the next store. */
  lemma {:induction false} GoneUntilStored(o: Options, ws: seq<World>, es: seq<Event>, m: nat, j: nat)
    requires IsRun(o, ws, es) && m < j <= |es| && (es[m].CacheExpires? || es[m].Invalidate?)
    requires forall n | m < n < j :: !(es[n].Store? && !es[n].down)
    ensures ws[j].cache == None
    decreases j
  {
    assert Enabled(o, ws[j - 1], es[j - 1]) && ws[j] == Next(o, ws[j - 1], es[j - 1]);
    if m + 1 < j {
      GoneUntilStored(o, ws, es, m, j - 1);
    }
  }

  // One holder at a time ------------------------------------------------------------------------

  /** The end of the lease under which this caller computes, if it won the lock. */
  function Deadline(p: Phase): Option<int> {
    match p
    case Fetching(lease) => lease
    case Storing(_, lease) => lease
    case Releasing(_, d) => Some(d)
    case _ => None
  }

  predicate Holder(w: World, id: nat) {
    id in w.callers && Deadline(w.callers[id].phase).Some?
  }

  /** Every holder took the lock at most d ms ago. */
  ghost predicate Within(o: Options, w: World, d: int) {
    forall id | Holder(w, id) :: w.now <= Deadline(w.callers[id].phase).value - o.lockTtlMs + d
  }

  ghost predicate Exclusive(w: World) {
    forall a, b | Holder(w, a) && Holder(w, b) :: a == b
  }

  /** Each holder's lease is the lock itself, so there is at most one. */
  ghost predicate HoldersOwnLock(w: World) {
    && Exclusive(w)
    && forall id | Holder(w, id) :: w.lock == Deadline(w.callers[id].phase)
  }

  lemma HoldersOwnLockStep(o: Options, w: World, e: Event, d: int)
    requires HoldersOwnLock(w) && Enabled(o, w, e) && Within(o, w, d) && d < o.lockTtlMs
    ensures HoldersOwnLock(Next(o, w, e))
  {
    var w' := Next(o, w, e);
    forall a | Holder(w', a) ensures w'.lock == Deadline(w'.callers[a].phase) {
      assert Holder(w, a) || e == TryLock(a);
      assert e.Release? ==> Holder(w, e.id);
    }
    forall a, b | Holder(w', a) && Holder(w', b) ensures a == b {
      assert (Holder(w, a) || e == TryLock(a)) && (Holder(w, b) || e == TryLock(b));
    }
  }

  lemma {:induction false} HolderOwnsLock(o: Options, ws: seq<World>, es: seq<Event>, d: int, i: nat)
    requires IsRun(o, ws, es) && i <= |es| && d < o.lockTtlMs
    requires forall k | 0 <= k <= i :: Within(o, ws[k], d)
    ensures HoldersOwnLock(ws[i])
  {
    if i > 0 {
      HolderOwnsLock(o, ws, es, d, i - 1);
      HoldersOwnLockStep(o, ws[i - 1], es[i - 1], d);
      assert ws[i] == Next(o, ws[i - 1], es[i - 1]);
    }
  }

  /** Some run leads to w in which every holder always computed for at most d ms. */
  ghost predicate Reachable(o: Options, w: World, d: int) {
    exists ws: seq<World>, es: seq<Event> :: RunTo(o, ws, es, w, d)
  }

  ghost predicate RunTo(o: Options, ws: seq<World>, es: seq<Event>, w: World, d: int) {
    IsRun(o, ws, es) && ws[|es|] == w && forall k | 0 <= k <= |es| :: Within(o, ws[k], d)
  }

  lemma Start(o: Options, d: int) returns (w: World)
    ensures w == World(0, None, None, {}, map[]) && Reachable(o, w, d)
  {
    w := World(0, None, None, {}, map[]);
    assert RunTo(o, [w], [], w, d);
  }

  lemma Step(o: Options, w: World, d: int, e: Event) returns (w': World)
    requires Reachable(o, w, d) && Enabled(o, w, e) && Within(o, Next(o, w, e), d)
    ensures w' == Next(o, w, e) && Reachable(o, w', d)
  {
    w' := Next(o, w, e);
    var ws, es :| RunTo(o, ws, es, w, d);
    assert RunTo(o, ws + [w'], es + [e], w', d);
  }

  /**
    If every holder fetches, stores and releases within d ms, then no two of them ever compute at the
    same time, and that is guaranteed exactly when d is below the lock's ttl.
  */
  lemma ExclusiveIffWithinTtl(o: Options, d: nat)
    ensures (forall w: World | Reachable(o, w, d) :: Exclusive(w)) <==> d < o.lockTtlMs
  {
    if d < o.lockTtlMs {
      forall w: World | Reachable(o, w, d) ensures Exclusive(w) {
        var ws, es :| RunTo(o, ws, es, w, d);
        HolderOwnsLock(o, ws, es, d, |es|);
      }
    } else {
      var w := Overrun(o, d);
      assert Holder(w, 0) && Holder(w, 1);
    }
  }

  /** A new caller misses the cold cache. */
  lemma MissCold(o: Options, w: World, d: int, id: nat) returns (w': World)
    requires Reachable(o, w, d) && Within(o, w, d) && id !in w.callers && w.cache == None
    ensures Reachable(o, w', d) && Within(o, w', d)
    ensures w' == w.(callers := w.callers[id := Caller(Locking, 0, None, 0)])
  {
    w' := Step(o, w, d, Arrive(id));
    w' := Step(o, w', d, Read(id, false));
  }

  /** A caller that missed wins the free lock. */
  lemma Win(o: Options, w: World, d: nat, id: nat) returns (w': World)
    requires Reachable(o, w, d) && Within(o, w, d) && w.lock == None
    requires id in w.callers && w.callers[id] == Caller(Locking, 0, None, 0)
    ensures Reachable(o, w', d) && Within(o, w', d) && Holder(w', id)
    ensures w' == w.(lock := Some(w.now + o.lockTtlMs),
                     callers := w.callers[id := Caller(Fetching(Some(w.now + o.lockTtlMs)), 0, None, 0)])
  {
    w' := Step(o, w, d, TryLock(id));
  }

  /** The lock of a holder that took it when the run began expires. */
  lemma FirstLeaseEnds(o: Options, w: World, d: nat) returns (w': World)
    requires d >= o.lockTtlMs && Reachable(o, w, d)
    requires w.now == 0 && w.lock == Some(o.lockTtlMs)
    requires forall id | Holder(w, id) :: Deadline(w.callers[id].phase) == Some(o.lockTtlMs)
    ensures Reachable(o, w', d) && Within(o, w', d) && w' == w.(now := o.lockTtlMs, lock := None)
  {
    w' := Step(o, w, d, Tick(o.lockTtlMs));
    w' := Step(o, w', d, LockExpires);
  }

  /** A holder that is still computing when its lock expires is joined by the next caller. */
  lemma Overrun(o: Options, d: nat) returns (w: World)
    requires d >= o.lockTtlMs
    ensures Reachable(o, w, d) && Within(o, w, d)
    ensures Holder(w, 0) && Holder(w, 1)
    ensures w == World(o.lockTtlMs, None, Some(2 * o.lockTtlMs), {},
                       map[0 := Caller(Fetching(Some(o.lockTtlMs)), 0, None, 0),
                           1 := Caller(Fetching(Some(2 * o.lockTtlMs)), 0, None, 0)])
  {
    w := Start(o, d);
    w := MissCold(o, w, d, 0);
    w := Win(o, w, d, 0);
    w := FirstLeaseEnds(o, w, d);
    w := MissCold(o, w, d, 1);
    w := Win(o, w, d, 1);
  }

  /**
    The lock is deleted without an ownership check, so one overrun spoils the next holders too: here
    callers 1 and 2 compute at once although both are well inside their own leases.
  */
  lemma UncheckedRelease(o: Options) returns (w: World)
    requires o.lockTtlMs > 0
    ensures Reachable(o, w, o.lockTtlMs) && Holder(w, 1) && Holder(w, 2)
    ensures w.now < Deadline(w.callers[1].phase).value && w.now < Deadline(w.callers[2].phase).value
  {
    var t := o.lockTtlMs;
    w := Overrun(o, t);
    w := AbandonUnchecked(o, w, t);
    w := MissCold(o, w, t, 2);
    w := Win(o, w, t, 2);
  }

  /** A holder whose fetch fails deletes the lock, whosever it is by now. */
  lemma AbandonUnchecked(o: Options, w: World, d: nat) returns (w': World)
    requires Reachable(o, w, d) && Within(o, w, d)
    requires 0 in w.callers && w.callers[0].phase.Fetching? && Holder(w, 0)
    ensures Reachable(o, w', d) && Within(o, w', d)
    ensures w' == w.(lock := None,
                     callers := w.callers[0 := w.callers[0].(phase := Done(Threw),
                                                             fetches := w.callers[0].fetches + 1)])
  {
    w' := Step(o, w, d, FetchError(0));
    w' := Step(o, w', d, Release(0));
  }

  /** A holder fetches v, stores it and releases the lock, all in no time. */
  lemma Compute(o: Options, w: World, d: nat, id: nat, v: Json) returns (w': World)
    requires Reachable(o, w, d) && Within(o, w, d) && Holder(w, id)
    requires w.callers[id] == Caller(Fetching(w.lock), 0, None, 0)
    ensures Reachable(o, w', d) && Within(o, w', d)
    ensures w' == w.(cache := Some(Entry(v, w.now + o.ttlMs)), lock := None, fetched := w.fetched + {v},
                     callers := w.callers[id := Caller(Done(Returned(v)), 1, Some(v), 0)])
  {
    w' := FetchAndStore(o, w, d, id, v);
    w' := Step(o, w', d, Release(id));
  }

  lemma FetchAndStore(o: Options, w: World, d: nat, id: nat, v: Json) returns (w': World)
    requires Reachable(o, w, d) && Within(o, w, d) && Holder(w, id)
    requires w.callers[id] == Caller(Fetching(w.lock), 0, None, 0)
    ensures Reachable(o, w', d) && Within(o, w', d)
    ensures w' == w.(cache := Some(Entry(v, w.now + o.ttlMs)), fetched := w.fetched + {v}, callers := w'.callers)
    ensures w.lock.Some?
    ensures w'.callers == w.callers[id := Caller(Releasing(Returned(v), w.lock.value), 1, Some(v), 0)]
  {
    w' := Step(o, w, d, FetchOk(id, v));
    w' := Step(o, w', d, Store(id, false));
  }

  lemma TwoMisses(o: Options) returns (w: World)
    ensures Reachable(o, w, 0) && Within(o, w, 0)
    ensures w == World(0, None, None, {}, map[0 := Caller(Locking, 0, None, 0), 1 := Caller(Locking, 0, None, 0)])
  {
    w := Start(o, 0);
    w := MissCold(o, w, 0, 0);
    w := MissCold(o, w, 0, 1);
  }

  /**
    The winner of the lock does not look at the cache again. Two callers that both missed before the
    first of them stored its value both fetch, one after the other, though nothing timed out, nothing
    failed and no time passed.
  */
  lemma NoSecondRead(o: Options, v: Json, v': Json) returns (w: World)
    ensures Reachable(o, w, 0) && w.now == 0 && w.fetched == {v, v'}
    ensures w.callers == map[0 := Caller(Done(Returned(v)), 1, Some(v), 0),
                             1 := Caller(Done(Returned(v')), 1, Some(v'), 0)]
  {
    w := TwoMisses(o);
    w := Win(o, w, 0, 0);
    w := Compute(o, w, 0, 0, v);
    w := Win(o, w, 0, 1);
    w := Compute(o, w, 0, 1, v');
  }
}
