/**
  The delayed retry queue of in-process event handlers (src/common/events/retry-queue.ts) over the
  Redis structures it uses: payload keys with a time to live, a sorted-set index scored by due time,
  and the dead-letter list.

  Every Redis command, and every stretch of JavaScript between two awaits, is one step. Enqueuers,
  any number of draining processes, the clock and key expiry interleave freely.
*/
module RetryQueues {
  import opened Prelude

  const QUEUE_TTL_PADDING_MS := 5 * 60 * 1000
  const DRAIN_BATCH := 64

  /** retryDelaysMs; its length is maxRetries. */
  datatype Config = Config(retryDelaysMs: seq<nat>)

  function MaxRetries(c: Config): nat {
    |c.retryDelaysMs|
  }

  /** The delay before attempt `attempt`, with the source's fallback to the last entry. */
  function DelayMs(c: Config, attempt: nat): nat
    requires MaxRetries(c) > 0 && attempt >= 1
  {
    if attempt - 1 < MaxRetries(c) then c.retryDelaysMs[attempt - 1] else c.retryDelaysMs[MaxRetries(c) - 1]
  }

  /** The k-th retry caused by one failed handler call; `root` names that call. */
  datatype Id = Id(root: nat, attempt: nat)

  function Previous(id: Id): Id
    requires id.attempt > 1
  {
    Id(id.root, id.attempt - 1)
  }

  function Following(id: Id): Id {
    Id(id.root, id.attempt + 1)
  }

  /** The queued JSON: which retry it is, and its nextRetryAt. */
  datatype Item = Item(id: Id, nextRetryAt: int)

  /** A payload key holds the attempt and the due millisecond, and nothing else. */
  datatype Key = Key(attempt: nat, at: int)

  function TierKey(item: Item): Key {
    Key(item.id.attempt, item.nextRetryAt)
  }

  datatype Payload = Payload(item: Item, expireAt: int)

  datatype Member = Member(key: Key, score: int)

  /** A draining process between two awaits; `now` is the clock it read when its drain began. */
  datatype Drainer =
    | Draining(now: int, due: seq<Member>)
    | Claimed(now: int, due: seq<Member>, key: Key)

  /** What has become of a scheduled retry. */
  datatype Fate =
    | Writing
    | Stored(key: Key)
    | Delivered
    | Expired
    | Overwritten
    | Pushing
    | DeadLettered
    | Lost

  /**
    `writes` and `pushes` are Redis transactions issued but not yet executed (they are not awaited).
    `fates` and `claimed` are history, never read by a step.
  */
  datatype World = World(
    now: int,
    store: map<Key, Payload>,
    index: map<Key, int>,
    writes: map<Id, Item>,
    pushes: set<Id>,
    drainers: map<nat, Drainer>,
    fates: map<Id, Fate>,
    claimed: set<Id>)

  datatype Event =
    | Tick(ms: nat)
    | HandlerFails(root: nat)
    | WriteLands(id: Id)
    | WriteFails(id: Id)
    | PushLands(id: Id)
    | PushFails(id: Id)
    | PayloadExpires(key: Key)
    | BeginDrain(d: nat, now: int, due: seq<Member>)
    | Claim(d: nat)
    | Take(d: nat, throws: bool)
    | ClaimUnanswered(d: nat)
    | TakeUnanswered(d: nat)
    | Skip(d: nat)
    | Stop(d: nat)

  /** ZRANGEBYSCORE index -inf now WITHSCORES LIMIT 0 64: due members, lowest scores first. */
  ghost predicate IsDueBatch(index: map<Key, int>, now: int, due: seq<Member>) {
    && |due| <= DRAIN_BATCH
    && (forall i | 0 <= i < |due| :: due[i].key in index && index[due[i].key] == due[i].score <= now)
    && (forall i, j | 0 <= i < j < |due| :: due[i].key != due[j].key && due[i].score <= due[j].score)
    && (forall k | k in index && index[k] <= now ::
          (exists i | 0 <= i < |due| :: due[i].key == k)
          || (|due| == DRAIN_BATCH && forall i | 0 <= i < |due| :: due[i].score <= index[k]))
  }

  ghost predicate Enabled(w: World, e: Event) {
    match e
    case Tick(_) => true
    case HandlerFails(root) => forall id | id in w.fates :: id.root != root
    case WriteLands(id) => id in w.writes
    case WriteFails(id) => id in w.writes
    case PushLands(id) => id in w.pushes
    case PushFails(id) => id in w.pushes
    case PayloadExpires(key) => key in w.store && w.now >= w.store[key].expireAt
    case BeginDrain(d, now, due) => d !in w.drainers && now <= w.now && IsDueBatch(w.index, now, due)
    case Claim(d) => d in w.drainers && w.drainers[d].Draining? && w.drainers[d].due != []
    case Take(d, _) => d in w.drainers && w.drainers[d].Claimed?
    case ClaimUnanswered(d) => d in w.drainers && w.drainers[d].Draining? && w.drainers[d].due != []
    case TakeUnanswered(d) => d in w.drainers && w.drainers[d].Claimed?
    case Skip(d) => d in w.drainers && (w.drainers[d].Claimed? || w.drainers[d].due != [])
    case Stop(d) => d in w.drainers
  }

  /** scheduleRetry: queue the item, or give it up once the attempts are spent. */
  function Schedule(c: Config, w: World, id: Id): World
    requires id.attempt >= 1
  {
    if id.attempt > MaxRetries(c) then w.(pushes := w.pushes + {id}, fates := w.fates[id := Pushing])
    else w.(writes := w.writes[id := Item(id, w.now + DelayMs(c, id.attempt))], fates := w.fates[id := Writing])
  }

  /** The payload under `key` disappears, and its item meets `fate`. */
  function Drop(w: World, key: Key, fate: Fate): World
    requires key in w.store
  {
    w.(store := w.store - {key}, fates := w.fates[w.store[key].item.id := fate])
  }

  /** The transaction SET payload PX delay+padding; ZADD index. */
  function Put(c: Config, w: World, id: Id): World
    requires id in w.writes && id.attempt >= 1 && MaxRetries(c) > 0
  {
    var item := w.writes[id];
    var key := TierKey(item);
    w.(store := w.store[key := Payload(item, w.now + DelayMs(c, id.attempt) + QUEUE_TTL_PADDING_MS)],
       index := w.index[key := item.nextRetryAt],
       writes := w.writes - {id},
       fates := w.fates[id := Stored(key)])
  }

  /** The same, keeping account of the payload that SET replaces. */
  function Land(c: Config, w: World, id: Id): World
    requires id in w.writes && id.attempt >= 1 && MaxRetries(c) > 0
  {
    var key := TierKey(w.writes[id]);
    Put(c, if key in w.store then Drop(w, key, Overwritten) else w, id)
  }

  /** One member of the batch: skip it, or try to remove it from the index. */
  function TryClaim(w: World, d: nat): World
    requires d in w.drainers && w.drainers[d].Draining? && w.drainers[d].due != []
  {
    var p := w.drainers[d];
    var m := p.due[0];
    if m.score > p.now || m.key !in w.index then w.(drainers := w.drainers[d := Draining(p.now, p.due[1..])])
    else w.(index := w.index - {m.key},
            drainers := w.drainers[d := Claimed(p.now, p.due[1..], m.key)],
            claimed := if m.key in w.store then w.claimed + {w.store[m.key].item.id} else w.claimed)
  }

  /** GETDEL and, in the same turn, the handlers; `throws` says that one of them threw. */
  function TakePayload(c: Config, w: World, d: nat, throws: bool): World
    requires d in w.drainers && w.drainers[d].Claimed?
  {
    var p := w.drainers[d];
    var resumed := Resume(w, d);
    if p.key !in w.store then resumed
    else
      var item := w.store[p.key].item;
      if item.nextRetryAt > p.now then
        Drop(w, p.key, Lost).(index := w.index[p.key := item.nextRetryAt], drainers := w.drainers - {d})
      else
        var delivered := Drop(resumed, p.key, Delivered);
        if throws then Schedule(c, delivered, Following(item.id)) else delivered
  }

  /** ZREM runs, but the drainer is told that it removed nothing. */
  function ClaimLost(w: World, d: nat): World
    requires d in w.drainers && w.drainers[d].Draining? && w.drainers[d].due != []
  {
    var p := w.drainers[d];
    w.(index := w.index - {p.due[0].key}, drainers := w.drainers[d := Draining(p.now, p.due[1..])])
  }

  /** GETDEL runs, but the drainer never sees the payload. */
  function TakeLost(w: World, d: nat): World
    requires d in w.drainers && w.drainers[d].Claimed?
  {
    var key, resumed := w.drainers[d].key, Resume(w, d);
    if key in w.store then Drop(resumed, key, Lost) else resumed
  }

  /** An open circuit answers for Redis, which never sees the command: on to the next member. */
  function SkipMember(w: World, d: nat): World
    requires d in w.drainers && (w.drainers[d].Claimed? || w.drainers[d].due != [])
  {
    var p := w.drainers[d];
    if p.Claimed? then Resume(w, d) else w.(drainers := w.drainers[d := Draining(p.now, p.due[1..])])
  }

  function Resume(w: World, d: nat): World
    requires d in w.drainers
  {
    w.(drainers := w.drainers[d := Draining(w.drainers[d].now, w.drainers[d].due)])
  }

  /** Attempts start at one; a transaction is only ever issued when there are retries. */
  ghost predicate WellTyped(c: Config, w: World) {
    forall id | id in w.writes :: id.attempt >= 1 && MaxRetries(c) > 0
  }

  function Next(c: Config, w: World, e: Event): World
    requires WellTyped(c, w) && Enabled(w, e)
  {
    match e
    case Tick(ms) => w.(now := w.now + ms)
    case HandlerFails(root) => Schedule(c, w, Id(root, 1))
    case WriteLands(id) => Land(c, w, id)
    case WriteFails(id) => w.(writes := w.writes - {id}, fates := w.fates[id := Lost])
    case PushLands(id) => w.(pushes := w.pushes - {id}, fates := w.fates[id := DeadLettered])
    case PushFails(id) => w.(pushes := w.pushes - {id}, fates := w.fates[id := Lost])
    case PayloadExpires(key) => Drop(w, key, Expired)
    case BeginDrain(d, now, due) => w.(drainers := w.drainers[d := Draining(now, due)])
    case Claim(d) => TryClaim(w, d)
    case Take(d, throws) => TakePayload(c, w, d, throws)
    case ClaimUnanswered(d) => ClaimLost(w, d)
    case TakeUnanswered(d) => TakeLost(w, d)
    case Skip(d) => SkipMember(w, d)
    case Stop(d) => w.(drainers := w.drainers - {d})
  }

  const EMPTY := World(0, map[], map[], map[], {}, map[], map[], {})

  ghost predicate IsRun(c: Config, ws: seq<World>, es: seq<Event>) {
    && |ws| == |es| + 1 && ws[0] == EMPTY.(now := ws[0].now)
    && forall i | 0 <= i < |es| :: WellTyped(c, ws[i]) && Enabled(ws[i], es[i]) && ws[i + 1] == Next(c, ws[i], es[i])
  }

  // ---------------------------------------------------------------------------------------------
  // What every interleaving keeps
  // ---------------------------------------------------------------------------------------------

  /** Each scheduled retry is in exactly the place its one fate names. */
  ghost predicate Conserved(
    fates: map<Id, Fate>, writes: map<Id, Item>, store: map<Key, Payload>, pushes: set<Id>)
  {
    && (forall id | id in writes :: id in fates && fates[id] == Writing && writes[id].id == id)
    && (forall id | id in fates && fates[id] == Writing :: id in writes)
    && (forall k | k in store :: store[k].item.id in fates && fates[store[k].item.id] == Stored(k))
    && (forall id | id in fates && fates[id].Stored? ::
          fates[id].key in store && store[fates[id].key].item.id == id)
    && (forall id | id in pushes :: id in fates && fates[id] == Pushing)
    && (forall id | id in fates && fates[id] == Pushing :: id in pushes)
  }

  /** Attempts stay in 1..maxRetries + 1, and only the last one takes the dead-letter path. */
  ghost predicate Numbered(c: Config, fates: map<Id, Fate>) {
    forall id | id in fates ::
      && 1 <= id.attempt <= MaxRetries(c) + 1
      && (id.attempt <= MaxRetries(c) ==> !fates[id].Pushing? && !fates[id].DeadLettered?)
      && (id.attempt > MaxRetries(c) ==> fates[id].Pushing? || fates[id].DeadLettered? || fates[id].Lost?)
  }

  /** A retry is scheduled only when the one before it has been delivered. */
  ghost predicate Chained(fates: map<Id, Fate>) {
    forall id {:trigger Previous(id)} | id in fates && id.attempt > 1 ::
      Previous(id) in fates && fates[Previous(id)] == Delivered
  }

  /** A queued item's attempt is in range and its time was computed no later than now. */
  ghost predicate WritesAgree(c: Config, now: int, writes: map<Id, Item>) {
    forall id | id in writes ::
      && 1 <= id.attempt <= MaxRetries(c)
      && writes[id].id == id && writes[id].nextRetryAt <= now + DelayMs(c, id.attempt)
  }

  /** The key repeats the payload's attempt and time, and the payload outlives that time by the padding. */
  ghost predicate StoreAgrees(c: Config, store: map<Key, Payload>) {
    forall k | k in store ::
      && TierKey(store[k].item) == k && 1 <= k.attempt <= MaxRetries(c)
      && store[k].expireAt >= k.at + QUEUE_TTL_PADDING_MS
  }

  ghost predicate IndexAgrees(index: map<Key, int>) {
    forall k | k in index :: index[k] == k.at
  }

  ghost predicate DrainersAgree(drainers: map<nat, Drainer>) {
    forall d | d in drainers ::
      && (forall i | 0 <= i < |drainers[d].due| ::
            drainers[d].due[i].score == drainers[d].due[i].key.at <= drainers[d].now)
      && (drainers[d].Claimed? ==> drainers[d].key.at <= drainers[d].now)
  }

  ghost predicate Invariant(c: Config, w: World) {
    && Conserved(w.fates, w.writes, w.store, w.pushes) && Numbered(c, w.fates) && Chained(w.fates)
    && WritesAgree(c, w.now, w.writes) && StoreAgrees(c, w.store)
    && IndexAgrees(w.index) && DrainersAgree(w.drainers)
  }

  // One field at a time --------------------------------------------------------------------------

  lemma ConservedEnter(fates: map<Id, Fate>, writes: map<Id, Item>, store: map<Key, Payload>, pushes: set<Id>, id: Id,
                       item: Item)
    requires Conserved(fates, writes, store, pushes) && id !in fates && item.id == id
    ensures Conserved(fates[id := Writing], writes[id := item], store, pushes)
    ensures Conserved(fates[id := Pushing], writes, store, pushes + {id})
  {
  }

  lemma ConservedLand(fates: map<Id, Fate>, writes: map<Id, Item>, store: map<Key, Payload>, pushes: set<Id>, id: Id,
                      key: Key, p: Payload)
    requires Conserved(fates, writes, store, pushes) && id in writes && key !in store && p.item.id == id
    ensures Conserved(fates[id := Stored(key)], writes - {id}, store[key := p], pushes)
  {
    assert fates[id] == Writing;
  }

  lemma ConservedDrop(fates: map<Id, Fate>, writes: map<Id, Item>, store: map<Key, Payload>, pushes: set<Id>, key: Key,
                      fate: Fate)
    requires Conserved(fates, writes, store, pushes) && key in store
    requires fate == Delivered || fate == Expired || fate == Overwritten || fate == Lost
    ensures Conserved(fates[store[key].item.id := fate], writes, store - {key}, pushes)
  {
    assert fates[store[key].item.id] == Stored(key);
  }

  lemma ConservedReply(fates: map<Id, Fate>, writes: map<Id, Item>, store: map<Key, Payload>, pushes: set<Id>, id: Id,
                       fate: Fate)
    requires Conserved(fates, writes, store, pushes) && (fate == Lost || fate == DeadLettered)
    ensures id in writes ==> Conserved(fates[id := fate], writes - {id}, store, pushes)
    ensures id in pushes ==> Conserved(fates[id := fate], writes, store, pushes - {id})
  {
  }

  /** The history stays well formed when one retry that has not been delivered yet moves on. */
  lemma HistoryStep(c: Config, fates: map<Id, Fate>, id: Id, fate: Fate)
    requires Numbered(c, fates) && Chained(fates)
    requires id in fates ==> fates[id] != Delivered
    requires id !in fates ==> 1 <= id.attempt <= MaxRetries(c) + 1
    requires id !in fates && id.attempt > 1 ==> Previous(id) in fates && fates[Previous(id)] == Delivered
    requires id.attempt <= MaxRetries(c) ==> !fate.Pushing? && !fate.DeadLettered?
    requires id.attempt > MaxRetries(c) ==> fate.Pushing? || fate.DeadLettered? || fate.Lost?
    ensures Numbered(c, fates[id := fate]) && Chained(fates[id := fate])
  {
  }

  // One event at a time --------------------------------------------------------------------------

  lemma DropStep(c: Config, w: World, key: Key, fate: Fate)
    requires Invariant(c, w) && key in w.store
    requires fate == Delivered || fate == Expired || fate == Overwritten || fate == Lost
    ensures Invariant(c, Drop(w, key, fate))
    ensures var id := w.store[key].item.id;
            && 1 <= id.attempt <= MaxRetries(c)
            && Following(id) !in Drop(w, key, fate).fates
            && Previous(Following(id)) in Drop(w, key, fate).fates
            && Drop(w, key, fate).fates[Previous(Following(id))] == fate
  {
    var id := w.store[key].item.id;
    assert w.fates[id] == Stored(key);
    assert Previous(Following(id)) == id;
    ConservedDrop(w.fates, w.writes, w.store, w.pushes, key, fate);
    HistoryStep(c, w.fates, id, fate);
  }

  lemma ScheduleStep(c: Config, w: World, id: Id)
    requires Invariant(c, w) && id !in w.fates && 1 <= id.attempt <= MaxRetries(c) + 1
    requires id.attempt > 1 ==> Previous(id) in w.fates && w.fates[Previous(id)] == Delivered
    ensures Invariant(c, Schedule(c, w, id))
  {
    if id.attempt > MaxRetries(c) {
      ConservedEnter(w.fates, w.writes, w.store, w.pushes, id, Item(id, 0));
      HistoryStep(c, w.fates, id, Pushing);
    } else {
      ConservedEnter(w.fates, w.writes, w.store, w.pushes, id, Item(id, w.now + DelayMs(c, id.attempt)));
      HistoryStep(c, w.fates, id, Writing);
    }
  }

  lemma PutStep(c: Config, w: World, id: Id)
    requires Invariant(c, w) && id in w.writes && TierKey(w.writes[id]) !in w.store
    ensures Invariant(c, Put(c, w, id))
  {
    var key := TierKey(w.writes[id]);
    var w' := Put(c, w, id);
    ConservedLand(w.fates, w.writes, w.store, w.pushes, id, key, w'.store[key]);
    HistoryStep(c, w.fates, id, Stored(key));
    assert StoreAgrees(c, w'.store);
  }

  lemma LandStep(c: Config, w: World, id: Id)
    requires Invariant(c, w) && id in w.writes
    ensures Invariant(c, Land(c, w, id))
  {
    var key := TierKey(w.writes[id]);
    if key in w.store {
      DropStep(c, w, key, Overwritten);
      PutStep(c, Drop(w, key, Overwritten), id);
    } else {
      PutStep(c, w, id);
    }
  }

  lemma ResumeStep(c: Config, w: World, d: nat)
    requires Invariant(c, w) && d in w.drainers
    ensures Invariant(c, Resume(w, d))
  {
    assert DrainersAgree(Resume(w, d).drainers);
  }

  lemma RetryStep(c: Config, w: World, key: Key)
    requires Invariant(c, w) && key in w.store
    ensures Invariant(c, Schedule(c, Drop(w, key, Delivered), Following(w.store[key].item.id)))
  {
    DropStep(c, w, key, Delivered);
    ScheduleStep(c, Drop(w, key, Delivered), Following(w.store[key].item.id));
  }

  /** A claimed item is always due, so the branch that puts it back is never taken. */
  lemma ClaimedIsDue(c: Config, w: World, d: nat)
    requires Invariant(c, w) && d in w.drainers && w.drainers[d].Claimed? && w.drainers[d].key in w.store
    ensures w.store[w.drainers[d].key].item.nextRetryAt <= w.drainers[d].now
  {
  }

  lemma TakeStep(c: Config, w: World, d: nat, throws: bool)
    requires Invariant(c, w) && d in w.drainers && w.drainers[d].Claimed?
    ensures Invariant(c, TakePayload(c, w, d, throws))
  {
    var key := w.drainers[d].key;
    ResumeStep(c, w, d);
    if key in w.store {
      ClaimedIsDue(c, w, d);
      if throws {
        RetryStep(c, Resume(w, d), key);
      } else {
        DropStep(c, Resume(w, d), key, Delivered);
      }
    }
  }

  lemma SkipStep(c: Config, w: World, d: nat)
    requires Invariant(c, w) && Enabled(w, Skip(d))
    ensures Invariant(c, SkipMember(w, d))
  {
    assert DrainersAgree(SkipMember(w, d).drainers);
  }

  lemma LostStep(c: Config, w: World, d: nat)
    requires Invariant(c, w) && d in w.drainers
    ensures w.drainers[d].Claimed? ==> Invariant(c, TakeLost(w, d))
    ensures w.drainers[d].Draining? && w.drainers[d].due != [] ==> Invariant(c, ClaimLost(w, d))
  {
    if w.drainers[d].Claimed? {
      ResumeStep(c, w, d);
      if w.drainers[d].key in w.store {
        DropStep(c, Resume(w, d), w.drainers[d].key, Lost);
      }
    } else if w.drainers[d].due != [] {
      assert DrainersAgree(ClaimLost(w, d).drainers);
    }
  }

  lemma ReplyStep(c: Config, w: World, id: Id)
    requires Invariant(c, w)
    ensures id in w.writes ==> Invariant(c, w.(writes := w.writes - {id}, fates := w.fates[id := Lost]))
    ensures id in w.pushes ==> Invariant(c, w.(pushes := w.pushes - {id}, fates := w.fates[id := Lost]))
  {
    ConservedReply(w.fates, w.writes, w.store, w.pushes, id, Lost);
    if id in w.writes || id in w.pushes {
      HistoryStep(c, w.fates, id, Lost);
    }
  }

  lemma PushStep(c: Config, w: World, id: Id)
    requires Invariant(c, w) && id in w.pushes
    ensures Invariant(c, w.(pushes := w.pushes - {id}, fates := w.fates[id := DeadLettered]))
  {
    ConservedReply(w.fates, w.writes, w.store, w.pushes, id, DeadLettered);
    HistoryStep(c, w.fates, id, DeadLettered);
  }

  lemma ClaimStep(c: Config, w: World, d: nat)
    requires Invariant(c, w) && d in w.drainers && w.drainers[d].Draining? && w.drainers[d].due != []
    ensures Invariant(c, TryClaim(w, d))
  {
    assert DrainersAgree(TryClaim(w, d).drainers);
  }

  lemma InvariantStep(c: Config, w: World, e: Event)
    requires Invariant(c, w) && Enabled(w, e)
    ensures WellTyped(c, w) && Invariant(c, Next(c, w, e))
  {
    match e
    case Tick(_) =>
    case HandlerFails(root) => ScheduleStep(c, w, Id(root, 1));
    case WriteLands(id) => LandStep(c, w, id);
    case WriteFails(id) => ReplyStep(c, w, id);
    case PushLands(id) => PushStep(c, w, id);
    case PushFails(id) => ReplyStep(c, w, id);
    case PayloadExpires(key) => DropStep(c, w, key, Expired);
    case BeginDrain(_, _, _) =>
    case Claim(d) => ClaimStep(c, w, d);
    case Take(d, throws) => TakeStep(c, w, d, throws);
    case ClaimUnanswered(d) => LostStep(c, w, d);
    case TakeUnanswered(d) => LostStep(c, w, d);
    case Skip(d) => SkipStep(c, w, d);
    case Stop(_) =>
  }

  lemma {:induction false} InvariantHolds(c: Config, ws: seq<World>, es: seq<Event>, i: nat)
    requires IsRun(c, ws, es) && i <= |es|
    ensures Invariant(c, ws[i])
  {
    if i > 0 {
      InvariantHolds(c, ws, es, i - 1);
      InvariantStep(c, ws[i - 1], es[i - 1]);
      assert ws[i] == Next(c, ws[i - 1], es[i - 1]);
    }
  }

  // ---------------------------------------------------------------------------------------------
  // The theorems about every run
  // ---------------------------------------------------------------------------------------------

  /**
    Index, key and payload always agree: so a drainer never meets a member scored in its future, and
    never puts a claimed item back.
  */
  lemma IndexAgreement(c: Config, ws: seq<World>, es: seq<Event>, i: nat)
    requires IsRun(c, ws, es) && i <= |es|
    ensures forall k | k in ws[i].index && k in ws[i].store ::
              && ws[i].index[k] == k.at == ws[i].store[k].item.nextRetryAt
              && 1 <= k.attempt == ws[i].store[k].item.id.attempt <= MaxRetries(c)
    ensures forall d | d in ws[i].drainers ::
              && (forall m <- ws[i].drainers[d].due :: m.score <= ws[i].drainers[d].now)
              && (ws[i].drainers[d].Claimed? && ws[i].drainers[d].key in ws[i].store ==>
                    ws[i].store[ws[i].drainers[d].key].item.nextRetryAt <= ws[i].drainers[d].now)
  {
    InvariantHolds(c, ws, es, i);
  }

  predicate Final(f: Fate) {
    f == Delivered || f == Expired || f == Overwritten || f == DeadLettered || f == Lost
  }

  /** A stored retry has not been followed up yet. */
  lemma StoredFacts(c: Config, w: World, key: Key)
    requires Invariant(c, w) && key in w.store
    ensures var id := w.store[key].item.id;
            && 1 <= id.attempt <= MaxRetries(c)
            && id in w.fates && w.fates[id] == Stored(key) && Following(id) !in w.fates
  {
    assert Previous(Following(w.store[key].item.id)) == w.store[key].item.id;
  }

  /** What a delivery does to the fate of any retry. */
  lemma TakeFates(c: Config, w: World, d: nat, throws: bool, id: Id)
    requires Invariant(c, w) && d in w.drainers && w.drainers[d].Claimed?
    ensures var after, key := TakePayload(c, w, d, throws).fates, w.drainers[d].key;
            var taken := key in w.store && w.store[key].item.id == id;
            && (id in w.fates ==> id in after && after[id] == if taken then Delivered else w.fates[id])
            && (id !in w.fates && id in after ==> after[id] == Writing || after[id] == Pushing)
  {
    var key := w.drainers[d].key;
    if key in w.store {
      ClaimedIsDue(c, w, d);
      StoredFacts(c, w, key);
    }
  }

  lemma LandFates(c: Config, w: World, i: Id, id: Id)
    requires Invariant(c, w) && i in w.writes
    ensures var after, key := Land(c, w, i).fates, TierKey(w.writes[i]);
            var lost := key in w.store && w.store[key].item.id == id;
            && (id in w.fates <==> id in after)
            && (id in w.fates ==>
                  after[id] == if id == i then Stored(key) else if lost then Overwritten else w.fates[id])
            && (lost ==> id != i && w.fates[id] == Stored(key))
            && w.fates[i] == Writing
  {
  }

  lemma FinalStep(c: Config, w: World, e: Event, id: Id)
    requires Invariant(c, w) && Enabled(w, e) && id in w.fates
    ensures WellTyped(c, w) && id in Next(c, w, e).fates
    ensures Final(w.fates[id]) ==> Next(c, w, e).fates[id] == w.fates[id]
  {
    if e.WriteLands? {
      LandFates(c, w, e.id, id);
    } else if e.Take? {
      TakeFates(c, w, e.d, e.throws, id);
    } else if e.TakeUnanswered? {
      LostFates(c, w, e.d, id);
    } else {
      OtherFates(c, w, e, id);
    }
  }

  /** What an unanswered GETDEL does to the fate of any retry. */
  lemma LostFates(c: Config, w: World, d: nat, id: Id)
    requires Invariant(c, w) && d in w.drainers && w.drainers[d].Claimed?
    ensures var after, key := TakeLost(w, d).fates, w.drainers[d].key;
            var taken := key in w.store && w.store[key].item.id == id;
            && (id in w.fates <==> id in after)
            && (id in w.fates ==> after[id] == if taken then Lost else w.fates[id])
            && (taken ==> id in w.fates && w.fates[id] == Stored(key))
  {
  }

  predicate IsOverwritten(fates: map<Id, Fate>, id: Id) {
    id in fates && fates[id] == Overwritten
  }

  lemma OverwrittenStep(c: Config, w: World, e: Event, id: Id)
    requires Invariant(c, w) && Enabled(w, e)
    ensures WellTyped(c, w)
    ensures IsOverwritten(Next(c, w, e).fates, id) <==> IsOverwritten(w.fates, id) || Overwrites(w, e, id)
  {
    if e.WriteLands? {
      LandFates(c, w, e.id, id);
    } else if e.Take? {
      TakeFates(c, w, e.d, e.throws, id);
    } else if e.TakeUnanswered? {
      LostFates(c, w, e.d, id);
    } else {
      OtherFates(c, w, e, id);
    }
  }

  /** The steps that schedule a retry, or settle one that is waiting. */
  predicate ChangesFates(e: Event) {
    e.HandlerFails? || e.WriteFails? || e.PushLands? || e.PushFails? || e.PayloadExpires?
  }

  lemma IdleFates(c: Config, w: World, e: Event)
    requires Invariant(c, w) && Enabled(w, e) && !e.WriteLands? && !e.Take? && !e.TakeUnanswered? && !ChangesFates(e)
    ensures WellTyped(c, w) && Next(c, w, e).fates == w.fates
  {
  }

  lemma ReplyFates(c: Config, w: World, e: Event, id: Id)
    requires Invariant(c, w) && Enabled(w, e) && ChangesFates(e)
    ensures WellTyped(c, w)
    ensures var after := Next(c, w, e).fates;
            && (id in w.fates ==> id in after && (Final(w.fates[id]) ==> after[id] == w.fates[id]))
            && (id in after && (id !in w.fates || w.fates[id] != Overwritten) ==> after[id] != Overwritten)
            && (id in w.fates && w.fates[id] != Writing ==> after[id] != Writing)
  {
  }

  lemma OtherFates(c: Config, w: World, e: Event, id: Id)
    requires Invariant(c, w) && Enabled(w, e) && !e.WriteLands? && !e.Take? && !e.TakeUnanswered?
    ensures WellTyped(c, w)
    ensures var after := Next(c, w, e).fates;
            && (id in w.fates ==> id in after && (Final(w.fates[id]) ==> after[id] == w.fates[id]))
            && (id in after && (id !in w.fates || w.fates[id] != Overwritten) ==> after[id] != Overwritten)
            && (id in w.fates && w.fates[id] != Writing ==> after[id] != Writing)
  {
    if ChangesFates(e) {
      ReplyFates(c, w, e, id);
    } else {
      IdleFates(c, w, e);
    }
  }

  predicate Overwrites(w: World, e: Event, id: Id) {
    && e.WriteLands? && e.id in w.writes
    && var key := TierKey(w.writes[e.id]);
    key in w.store && w.store[key].item.id == id
  }

  /** The retry is still accounted for, and if it has met its end, that is still its end. */
  predicate KeepsEnd(before: map<Id, Fate>, after: map<Id, Fate>, id: Id)
    requires id in before
  {
    id in after && (Final(before[id]) ==> after[id] == before[id])
  }

  ghost predicate StepsKeepEnd(ws: seq<World>, id: Id) {
    forall m | 0 <= m < |ws| - 1 && id in ws[m].fates :: KeepsEnd(ws[m].fates, ws[m + 1].fates, id)
  }

  lemma {:induction false} EndIsKept(ws: seq<World>, i: nat, j: nat, id: Id)
    requires i <= j < |ws| && id in ws[i].fates && StepsKeepEnd(ws, id)
    ensures KeepsEnd(ws[i].fates, ws[j].fates, id)
    decreases j
  {
    if i < j {
      EndIsKept(ws, i, j - 1, id);
      assert KeepsEnd(ws[j - 1].fates, ws[j - 1 + 1].fates, id);
    }
  }

  lemma RunFatesStep(c: Config, ws: seq<World>, es: seq<Event>, j: nat, id: Id)
    requires IsRun(c, ws, es) && j < |es|
    ensures id in ws[j].fates ==> KeepsEnd(ws[j].fates, ws[j + 1].fates, id)
    ensures IsOverwritten(ws[j + 1].fates, id) <==> IsOverwritten(ws[j].fates, id) || Overwrites(ws[j], es[j], id)
  {
    InvariantHolds(c, ws, es, j);
    if id in ws[j].fates {
      FinalStep(c, ws[j], es[j], id);
    }
    OverwrittenStep(c, ws[j], es[j], id);
    assert ws[j + 1] == Next(c, ws[j], es[j]);
  }

  /**
    A retry meets at most one end: once it is delivered, expired, overwritten, dead-lettered or lost
    it stays so. In particular no retry is ever handed to the handlers twice.
  */
  lemma FateIsFinal(c: Config, ws: seq<World>, es: seq<Event>, i: nat, j: nat, id: Id)
    requires IsRun(c, ws, es) && i <= j <= |es| && id in ws[i].fates
    ensures id in ws[j].fates && (Final(ws[i].fates[id]) ==> ws[j].fates[id] == ws[i].fates[id])
  {
    forall m | 0 <= m < |ws| - 1 && id in ws[m].fates ensures KeepsEnd(ws[m].fates, ws[m + 1].fates, id) {
      RunFatesStep(c, ws, es, m, id);
    }
    EndIsKept(ws, i, j, id);
  }

  /**
    Conservation: a scheduled retry is in exactly one place, and that place is where its fate says:
    in an unexecuted transaction, stored under its own key, in an unexecuted dead-letter push, or gone.
  */
  lemma EachRetryIsInOnePlace(c: Config, ws: seq<World>, es: seq<Event>, i: nat, id: Id)
    requires IsRun(c, ws, es) && i <= |es| && id in ws[i].fates
    ensures var w, f := ws[i], ws[i].fates[id];
            && (id in w.writes <==> f == Writing)
            && (id in w.pushes <==> f == Pushing)
            && (forall k :: (k in w.store && w.store[k].item.id == id) <==> f == Stored(k))
    ensures !Final(ws[i].fates[id]) <==>
            id in ws[i].writes || id in ws[i].pushes || exists k :: k in ws[i].store && ws[i].store[k].item.id == id
  {
    InvariantHolds(c, ws, es, i);
    var f := ws[i].fates[id];
    assert f.Stored? ==> f.key in ws[i].store && ws[i].store[f.key].item.id == id;
  }

  // Budget ----------------------------------------------------------------------------------------

  function DeliveredOf(w: World, root: nat): set<Id> {
    set id | id in w.fates && id.root == root && w.fates[id] == Delivered
  }

  function FirstAttempts(root: nat, n: nat): (ids: set<Id>)
    ensures |ids| == n
    ensures forall id :: id in ids <==> id.root == root && 1 <= id.attempt <= n
  {
    if n == 0 then {} else FirstAttempts(root, n - 1) + {Id(root, n)}
  }

  lemma {:induction false} AncestorsDelivered(c: Config, w: World, id: Id, attempt: nat)
    requires Chained(w.fates) && id in w.fates && 1 <= attempt < id.attempt
    ensures Id(id.root, attempt) in w.fates && w.fates[Id(id.root, attempt)] == Delivered
    decreases id.attempt
  {
    var before := Previous(id);
    if attempt < before.attempt {
      AncestorsDelivered(c, w, before, attempt);
    }
  }

  /**
    One failed handler call costs at most maxRetries redeliveries; its one dead letter carries attempt
    maxRetries + 1 and comes only after all of them were delivered.
  */
  lemma RetryBudget(c: Config, ws: seq<World>, es: seq<Event>, i: nat, root: nat)
    requires IsRun(c, ws, es) && i <= |es|
    ensures |DeliveredOf(ws[i], root)| <= MaxRetries(c)
    ensures forall id | id in ws[i].fates && id.root == root
                        && (ws[i].fates[id].Pushing? || ws[i].fates[id].DeadLettered?) ::
              id.attempt == MaxRetries(c) + 1 && DeliveredOf(ws[i], root) == FirstAttempts(root, MaxRetries(c))
  {
    InvariantHolds(c, ws, es, i);
    var n := MaxRetries(c);
    assert DeliveredOf(ws[i], root) <= FirstAttempts(root, n);
    SubsetSize(DeliveredOf(ws[i], root), FirstAttempts(root, n));
    forall id | id in ws[i].fates && id.root == root && (ws[i].fates[id].Pushing? || ws[i].fates[id].DeadLettered?)
      ensures id.attempt == n + 1 && DeliveredOf(ws[i], root) == FirstAttempts(root, n)
    {
      forall e | e in FirstAttempts(root, n) ensures e in DeliveredOf(ws[i], root) {
        AncestorsDelivered(c, ws[i], id, e.attempt);
      }
    }
  }

  // Collisions ------------------------------------------------------------------------------------

  /** Only an overwriting step overwrites. */
  ghost predicate StepsOverwrite(ws: seq<World>, es: seq<Event>, id: Id)
    requires |ws| == |es| + 1
  {
    forall m | 0 <= m < |es| ::
      IsOverwritten(ws[m + 1].fates, id) <==> IsOverwritten(ws[m].fates, id) || Overwrites(ws[m], es[m], id)
  }

  lemma {:induction false} OverwrittenByStep(ws: seq<World>, es: seq<Event>, i: nat, id: Id)
    requires |ws| == |es| + 1 && i <= |es| && StepsOverwrite(ws, es, id) && !IsOverwritten(ws[0].fates, id)
    ensures IsOverwritten(ws[i].fates, id) <==> exists m | 0 <= m < i :: Overwrites(ws[m], es[m], id)
  {
    if i > 0 {
      OverwrittenByStep(ws, es, i - 1, id);
      assert IsOverwritten(ws[i - 1 + 1].fates, id) <==>
             IsOverwritten(ws[i - 1].fates, id) || Overwrites(ws[i - 1], es[i - 1], id);
    }
  }

  /** A retry is overwritten exactly when another transaction lands on its key while it is stored. */
  lemma OverwrittenIff(c: Config, ws: seq<World>, es: seq<Event>, i: nat, id: Id)
    requires IsRun(c, ws, es) && i <= |es|
    ensures IsOverwritten(ws[i].fates, id) <==> exists m | 0 <= m < i :: Overwrites(ws[m], es[m], id)
  {
    forall m | 0 <= m < |es|
      ensures IsOverwritten(ws[m + 1].fates, id) <==> IsOverwritten(ws[m].fates, id) || Overwrites(ws[m], es[m], id)
    {
      RunFatesStep(c, ws, es, m, id);
    }
    OverwrittenByStep(ws, es, i, id);
  }

  /** Step m schedules the retry. */
  predicate Schedules(ws: seq<World>, m: nat, id: Id) {
    m + 1 < |ws| && id !in ws[m].fates && id in ws[m + 1].writes
  }

  /** The item was made in step m, at the clock of that moment. */
  predicate MadeIn(c: Config, ws: seq<World>, m: nat, item: Item) {
    && Schedules(ws, m, item.id) && 1 <= item.id.attempt <= |c.retryDelaysMs|
    && item.nextRetryAt == ws[m].now + c.retryDelaysMs[item.id.attempt - 1]
  }

  ghost predicate MadeBefore(c: Config, ws: seq<World>, j: nat, item: Item) {
    exists m: nat :: m < j && MadeIn(c, ws, m, item)
  }

  /** A queued item is one of the step before, or new. */
  ghost predicate QueuesOrKeeps(c: Config, w: World, w': World) {
    forall id | id in w'.writes && !(id in w.writes && w'.writes[id] == w.writes[id]) ::
      && id !in w.fates && 1 <= id.attempt <= |c.retryDelaysMs|
      && w'.writes[id] == Item(id, w.now + c.retryDelaysMs[id.attempt - 1])
  }

  /** A stored item is one of the step before, or was queued. */
  ghost predicate LandsOrKeeps(w: World, w': World) {
    forall k | k in w'.store && !(k in w.store && w'.store[k] == w.store[k]) ::
      w'.store[k].item.id in w.writes && w.writes[w'.store[k].item.id] == w'.store[k].item
  }

  lemma ScheduleQueues(c: Config, w: World, w': World, id: Id)
    requires w'.writes == w.writes && w'.now == w.now && id !in w.fates && id.attempt >= 1
    ensures QueuesOrKeeps(c, w, Schedule(c, w', id))
  {
  }

  lemma TakeQueues(c: Config, w: World, d: nat, throws: bool)
    requires Invariant(c, w) && Enabled(w, Take(d, throws))
    ensures QueuesOrKeeps(c, w, TakePayload(c, w, d, throws)) && LandsOrKeeps(w, TakePayload(c, w, d, throws))
  {
    var key, resumed := w.drainers[d].key, Resume(w, d);
    if key in w.store {
      ClaimedIsDue(c, w, d);
      StoredFacts(c, w, key);
      ScheduleQueues(c, w, Drop(resumed, key, Delivered), Following(w.store[key].item.id));
    }
  }

  lemma LandQueues(c: Config, w: World, id: Id)
    requires Invariant(c, w) && id in w.writes
    ensures QueuesOrKeeps(c, w, Land(c, w, id)) && LandsOrKeeps(w, Land(c, w, id))
  {
  }

  lemma ItemsStep(c: Config, w: World, e: Event)
    requires Invariant(c, w) && Enabled(w, e)
    ensures WellTyped(c, w) && QueuesOrKeeps(c, w, Next(c, w, e)) && LandsOrKeeps(w, Next(c, w, e))
  {
    if e.Take? {
      TakeQueues(c, w, e.d, e.throws);
    } else if e.WriteLands? {
      LandQueues(c, w, e.id);
    } else if e.HandlerFails? {
      ScheduleQueues(c, w, w, Id(e.root, 1));
    } else {
      QueuesNothing(c, w, e);
    }
  }

  lemma QueuesNothing(c: Config, w: World, e: Event)
    requires WellTyped(c, w) && Enabled(w, e) && !e.Take? && !e.WriteLands? && !e.HandlerFails?
    ensures var w' := Next(c, w, e);
            && (forall id | id in w'.writes :: id in w.writes && w'.writes[id] == w.writes[id])
            && (forall k | k in w'.store :: k in w.store && w'.store[k] == w.store[k])
  {
  }

  ghost predicate QueuedAreMade(c: Config, ws: seq<World>, j: nat)
    requires j < |ws|
  {
    forall id | id in ws[j].writes :: MadeBefore(c, ws, j, ws[j].writes[id])
  }

  ghost predicate StoredAreMade(c: Config, ws: seq<World>, j: nat)
    requires j < |ws|
  {
    forall k | k in ws[j].store :: MadeBefore(c, ws, j, ws[j].store[k].item)
  }

  lemma MadeLonger(c: Config, ws: seq<World>, j: nat, item: Item)
    requires MadeBefore(c, ws, j, item)
    ensures MadeBefore(c, ws, j + 1, item)
  {
  }

  lemma MadeStep(c: Config, ws: seq<World>, j: nat)
    requires j + 1 < |ws| && WritesAgree(c, ws[j + 1].now, ws[j + 1].writes)
    requires QueuesOrKeeps(c, ws[j], ws[j + 1]) && LandsOrKeeps(ws[j], ws[j + 1])
    requires QueuedAreMade(c, ws, j) && StoredAreMade(c, ws, j)
    ensures QueuedAreMade(c, ws, j + 1) && StoredAreMade(c, ws, j + 1)
  {
    var w, w' := ws[j], ws[j + 1];
    forall id | id in w'.writes ensures MadeBefore(c, ws, j + 1, w'.writes[id]) {
      if id in w.writes && w'.writes[id] == w.writes[id] {
        MadeLonger(c, ws, j, w.writes[id]);
      } else {
        assert MadeIn(c, ws, j, w'.writes[id]);
      }
    }
    forall k | k in w'.store ensures MadeBefore(c, ws, j + 1, w'.store[k].item) {
      MadeLonger(c, ws, j, w'.store[k].item);
    }
  }

  /** Every item, queued or stored, was made in an earlier step, due its attempt's own delay after that step's clock. */
  lemma {:induction false} ItemsAreMade(c: Config, ws: seq<World>, es: seq<Event>, j: nat)
    requires IsRun(c, ws, es) && j <= |es|
    ensures QueuedAreMade(c, ws, j) && StoredAreMade(c, ws, j)
  {
    if j > 0 {
      ItemsAreMade(c, ws, es, j - 1);
      InvariantHolds(c, ws, es, j - 1);
      InvariantHolds(c, ws, es, j);
      ItemsStep(c, ws[j - 1], es[j - 1]);
      assert ws[j] == Next(c, ws[j - 1], es[j - 1]);
      MadeStep(c, ws, j - 1);
    }
  }

  /** The transaction of step n stored this payload, to live its attempt's delay and five minutes. */
  predicate LandedIn(c: Config, ws: seq<World>, es: seq<Event>, n: nat, p: Payload) {
    && n < |es| && n < |ws| && es[n] == WriteLands(p.item.id) && p.item.id in ws[n].writes
    && ws[n].writes[p.item.id] == p.item && 1 <= p.item.id.attempt <= |c.retryDelaysMs|
    && p.expireAt == ws[n].now + c.retryDelaysMs[p.item.id.attempt - 1] + 5 * 60 * 1000
  }

  ghost predicate LandedBefore(c: Config, ws: seq<World>, es: seq<Event>, j: nat, p: Payload) {
    exists n: nat :: n < j && LandedIn(c, ws, es, n, p)
  }

  lemma LandingStep(c: Config, w: World, e: Event, k: Key)
    requires Invariant(c, w) && Enabled(w, e)
    ensures WellTyped(c, w)
    ensures var w' := Next(c, w, e);
            k in w'.store && !(k in w.store && w'.store[k] == w.store[k]) ==>
              var p := w'.store[k];
              && e == WriteLands(p.item.id) && p.item.id in w.writes && w.writes[p.item.id] == p.item
              && 1 <= p.item.id.attempt <= |c.retryDelaysMs|
              && p.expireAt == w.now + c.retryDelaysMs[p.item.id.attempt - 1] + 5 * 60 * 1000
  {
    if e.Take? {
      TakeStore(c, w, e.d, e.throws);
    } else if e.WriteLands? {
      LandIs(c, w, e.id, k);
    } else {
      StoresNothing(c, w, e);
    }
  }

  lemma LandIs(c: Config, w: World, id: Id, k: Key)
    requires Invariant(c, w) && id in w.writes
    ensures var w' := Land(c, w, id);
            k in w'.store ==>
              if k == TierKey(w.writes[id]) then
                && w'.store[k].item == w.writes[id] && 1 <= id.attempt <= |c.retryDelaysMs|
                && w'.store[k].expireAt == w.now + c.retryDelaysMs[id.attempt - 1] + 5 * 60 * 1000
              else k in w.store && w'.store[k] == w.store[k]
  {
  }

  lemma StoresNothing(c: Config, w: World, e: Event)
    requires WellTyped(c, w) && Enabled(w, e) && !e.Take? && !e.WriteLands?
    ensures forall k | k in Next(c, w, e).store :: k in w.store && Next(c, w, e).store[k] == w.store[k]
  {
  }

  lemma RunLandingStep(c: Config, ws: seq<World>, es: seq<Event>, j: nat, k: Key)
    requires IsRun(c, ws, es) && j < |es| && k in ws[j + 1].store
    ensures (k in ws[j].store && ws[j + 1].store[k] == ws[j].store[k]) || LandedIn(c, ws, es, j, ws[j + 1].store[k])
  {
    InvariantHolds(c, ws, es, j);
    LandingStep(c, ws[j], es[j], k);
    assert ws[j + 1] == Next(c, ws[j], es[j]);
  }

  /** Every payload in the store was put there by a transaction of an earlier step, with exactly that life time. */
  lemma {:induction false} PayloadsHaveLanded(c: Config, ws: seq<World>, es: seq<Event>, j: nat, k: Key)
    requires IsRun(c, ws, es) && j <= |es| && k in ws[j].store
    ensures LandedBefore(c, ws, es, j, ws[j].store[k])
  {
    if j > 0 {
      RunLandingStep(c, ws, es, j - 1, k);
      if !LandedIn(c, ws, es, j - 1, ws[j].store[k]) {
        PayloadsHaveLanded(c, ws, es, j - 1, k);
        var n: nat :| n < j - 1 && LandedIn(c, ws, es, n, ws[j - 1].store[k]);
        assert LandedIn(c, ws, es, n, ws[j].store[k]);
      }
    }
  }

  /** The step takes the key off the index, whether or not the drainer is told. */
  predicate TakesOff(w: World, e: Event, key: Key) {
    && (e.Claim? || e.ClaimUnanswered?) && e.d in w.drainers && w.drainers[e.d].due != []
    && w.drainers[e.d].due[0].key == key
  }

  lemma IndexStep(c: Config, w: World, e: Event, key: Key)
    requires Invariant(c, w) && Enabled(w, e) && !TakesOff(w, e, key)
    requires key in w.index || (e.WriteLands? && TierKey(w.writes[e.id]) == key)
    ensures WellTyped(c, w) && key in Next(c, w, e).index && Next(c, w, e).index[key] == key.at
  {
    if e.Take? {
      if w.drainers[e.d].key in w.store {
        ClaimedIsDue(c, w, e.d);
      }
    }
  }

  /** A retry that has landed can be found by every drain from its due time on, until a drainer takes its key off. */
  lemma {:induction false} IndexedUntilClaimed(c: Config, ws: seq<World>, es: seq<Event>, n: nat, j: nat, id: Id)
    requires IsRun(c, ws, es) && n < j <= |es| && es[n] == WriteLands(id) && id in ws[n].writes
    requires forall m | n < m < j :: !TakesOff(ws[m], es[m], TierKey(ws[n].writes[id]))
    ensures var key := TierKey(ws[n].writes[id]);
            key in ws[j].index && ws[j].index[key] == ws[n].writes[id].nextRetryAt
    decreases j
  {
    InvariantHolds(c, ws, es, j - 1);
    if n + 1 < j {
      IndexedUntilClaimed(c, ws, es, n, j - 1, id);
    }
    IndexStep(c, ws[j - 1], es[j - 1], TierKey(ws[n].writes[id]));
    assert ws[j] == Next(c, ws[j - 1], es[j - 1]);
  }

  /** Steps m and n, at the same millisecond, schedule this retry and another with its attempt number. */
  ghost predicate ScheduledTogether(ws: seq<World>, m: nat, n: nat, id: Id, other: Id) {
    && other != id && other.attempt == id.attempt
    && Schedules(ws, m, id) && Schedules(ws, n, other) && ws[m].now == ws[n].now
  }

  /** An overwritten retry shares attempt and scheduling millisecond with another: distinct pairs are safe. */
  lemma OverwrittenSharesMillisecond(c: Config, ws: seq<World>, es: seq<Event>, i: nat, id: Id)
    requires IsRun(c, ws, es) && i <= |es| && IsOverwritten(ws[i].fates, id)
    ensures exists other, m: nat, n: nat :: m < i && n < i && ScheduledTogether(ws, m, n, id, other)
  {
    OverwrittenIff(c, ws, es, i, id);
    var j :| 0 <= j < i && Overwrites(ws[j], es[j], id);
    InvariantHolds(c, ws, es, j);
    ItemsAreMade(c, ws, es, j);
    SameKeyTogether(c, ws, j, ws[j].store[TierKey(ws[j].writes[es[j].id])].item, ws[j].writes[es[j].id]);
    LandFates(c, ws[j], es[j].id, id);
  }

  lemma SameKeyTogether(c: Config, ws: seq<World>, j: nat, stored: Item, landing: Item)
    requires MadeBefore(c, ws, j, stored) && MadeBefore(c, ws, j, landing)
    requires stored.id != landing.id && TierKey(stored) == TierKey(landing)
    ensures exists m: nat, n: nat :: m < j && n < j && ScheduledTogether(ws, m, n, stored.id, landing.id)
  {
    var m: nat :| m < j && MadeIn(c, ws, m, stored);
    var n: nat :| n < j && MadeIn(c, ws, n, landing);
    assert ScheduledTogether(ws, m, n, stored.id, landing.id);
  }

  /** Two handlers that fail in the same millisecond share a key, and the second retry erases the first. */
  lemma SameMillisecondOverwrites(c: Config) returns (ws: seq<World>, es: seq<Event>)
    requires MaxRetries(c) > 0
    ensures IsRun(c, ws, es) && IsOverwritten(ws[|es|].fates, Id(0, 1))
  {
    var a, b, at := Id(0, 1), Id(1, 1), DelayMs(c, 1);
    es := [HandlerFails(0), HandlerFails(1), WriteLands(a), WriteLands(b)];
    var w1 := EMPTY.(writes := map[a := Item(a, at)], fates := map[a := Writing]);
    var w2 := EMPTY.(writes := map[a := Item(a, at), b := Item(b, at)], fates := map[a := Writing, b := Writing]);
    TwoFailures(c, a, b, w1, w2);
    LandOverLand(c, w2, a, b);
    ws := [EMPTY, w1, w2, Land(c, w2, a), Land(c, Land(c, w2, a), b)];
  }

  lemma TwoFailures(c: Config, a: Id, b: Id, w1: World, w2: World)
    requires MaxRetries(c) > 0 && a == Id(0, 1) && b == Id(1, 1)
    requires w1 == EMPTY.(writes := map[a := Item(a, DelayMs(c, 1))], fates := map[a := Writing])
    requires w2 == EMPTY.(writes := map[a := Item(a, DelayMs(c, 1)), b := Item(b, DelayMs(c, 1))],
                          fates := map[a := Writing, b := Writing])
    ensures Next(c, EMPTY, HandlerFails(0)) == w1 && Next(c, w1, HandlerFails(1)) == w2
  {
  }

  /** Of two transactions for one free key, the second overwrites the first. */
  lemma LandOverLand(c: Config, w: World, a: Id, b: Id)
    requires MaxRetries(c) > 0 && a != b && a.attempt >= 1 && b.attempt >= 1
    requires a in w.writes && b in w.writes && w.writes[a].id == a
    requires TierKey(w.writes[a]) == TierKey(w.writes[b]) && TierKey(w.writes[a]) !in w.store
    ensures b in Land(c, w, a).writes && (forall id | id in Land(c, w, a).writes :: id in w.writes)
    ensures IsOverwritten(Land(c, Land(c, w, a), b).fates, a)
  {
  }

  // Claims ------------------------------------------------------------------------------------------

  predicate HoldsKey(drainers: map<nat, Drainer>, d: nat, key: Key) {
    d in drainers && drainers[d].Claimed? && drainers[d].key == key
  }

  /** The retry that step e claims: the drainer's ZREM finds the key of a payload that is still there. */
  function ClaimOf(w: World, e: Event): Option<Id> {
    if e.Claim? && e.d in w.drainers && w.drainers[e.d].Draining? && w.drainers[e.d].due != []
       && w.drainers[e.d].due[0].score <= w.drainers[e.d].now && w.drainers[e.d].due[0].key in w.index
       && w.drainers[e.d].due[0].key in w.store
    then Some(w.store[w.drainers[e.d].due[0].key].item.id) else None
  }

  function AsSet(id: Option<Id>): set<Id> {
    if id.Some? then {id.value} else {}
  }

  /** A payload whose key is indexed has never been claimed, nor has one that has not landed. */
  ghost predicate Unclaimed(w: World) {
    && (forall k | k in w.index && k in w.store :: w.store[k].item.id !in w.claimed)
    && (forall id | id in w.claimed :: id in w.fates && w.fates[id] != Writing)
  }

  lemma LandUnclaimed(c: Config, w: World, id: Id)
    requires Invariant(c, w) && Unclaimed(w) && id in w.writes
    ensures Unclaimed(Land(c, w, id)) && Land(c, w, id).claimed == w.claimed
  {
    forall other | other in w.claimed ensures other in Land(c, w, id).fates && Land(c, w, id).fates[other] != Writing {
      LandFates(c, w, id, other);
    }
  }

  lemma ClaimUnclaimed(c: Config, w: World, d: nat)
    requires Invariant(c, w) && Unclaimed(w) && Enabled(w, Claim(d))
    ensures Unclaimed(TryClaim(w, d))
    ensures TryClaim(w, d).claimed == w.claimed + AsSet(ClaimOf(w, Claim(d)))
    ensures AsSet(ClaimOf(w, Claim(d))) !! w.claimed
  {
  }

  /** Every other step leaves the claims alone, and only gives up members, payloads and holds. */
  ghost predicate OnlyReleases(w: World, w': World) {
    && w'.claimed == w.claimed && (forall k | k in w'.index :: k in w.index)
    && (forall k | k in w'.store :: k in w.store && w'.store[k] == w.store[k])
    && (forall d, k | HoldsKey(w'.drainers, d, k) :: HoldsKey(w.drainers, d, k))
  }

  lemma ReleaseStep(c: Config, w: World, e: Event)
    requires Invariant(c, w) && Enabled(w, e) && !e.WriteLands? && !e.Claim?
    ensures WellTyped(c, w) && OnlyReleases(w, Next(c, w, e))
  {
    if e.Take? {
      TakeReleases(c, w, e.d, e.throws);
    } else if e.ClaimUnanswered? || e.TakeUnanswered? {
      LostReleases(w, e.d);
    } else if e.BeginDrain? || e.Skip? || e.Stop? {
      IdleReleases(c, w, e);
    }
  }

  lemma IdleReleases(c: Config, w: World, e: Event)
    requires WellTyped(c, w) && Enabled(w, e) && (e.BeginDrain? || e.Skip? || e.Stop?)
    ensures OnlyReleases(w, Next(c, w, e))
  {
  }

  lemma LostReleases(w: World, d: nat)
    requires d in w.drainers
    ensures w.drainers[d].Claimed? ==> OnlyReleases(w, TakeLost(w, d))
    ensures w.drainers[d].Draining? && w.drainers[d].due != [] ==> OnlyReleases(w, ClaimLost(w, d))
  {
  }

  lemma TakeReleases(c: Config, w: World, d: nat, throws: bool)
    requires Invariant(c, w) && Enabled(w, Take(d, throws))
    ensures OnlyReleases(w, TakePayload(c, w, d, throws))
  {
    if w.drainers[d].key in w.store {
      ClaimedIsDue(c, w, d);
    }
  }

  lemma ReleaseUnclaimed(c: Config, w: World, e: Event)
    requires Invariant(c, w) && Unclaimed(w) && Enabled(w, e) && !e.WriteLands? && !e.Claim?
    ensures WellTyped(c, w) && Unclaimed(Next(c, w, e)) && Next(c, w, e).claimed == w.claimed
  {
    ReleaseStep(c, w, e);
    forall id | id in w.claimed ensures id in Next(c, w, e).fates && Next(c, w, e).fates[id] != Writing {
      if e.Take? {
        TakeFates(c, w, e.d, e.throws, id);
      } else if e.TakeUnanswered? {
        LostFates(c, w, e.d, id);
      } else {
        OtherFates(c, w, e, id);
      }
    }
  }

  lemma UnclaimedStep(c: Config, w: World, e: Event)
    requires Invariant(c, w) && Unclaimed(w) && Enabled(w, e)
    ensures WellTyped(c, w) && Unclaimed(Next(c, w, e))
    ensures Next(c, w, e).claimed == w.claimed + AsSet(ClaimOf(w, e))
    ensures AsSet(ClaimOf(w, e)) !! w.claimed
  {
    if e.WriteLands? {
      LandUnclaimed(c, w, e.id);
    } else if e.Claim? {
      ClaimUnclaimed(c, w, e.d);
    } else {
      ReleaseUnclaimed(c, w, e);
    }
  }

  lemma {:induction false} UnclaimedHolds(c: Config, ws: seq<World>, es: seq<Event>, i: nat)
    requires IsRun(c, ws, es) && i <= |es|
    ensures Unclaimed(ws[i])
  {
    if i > 0 {
      UnclaimedHolds(c, ws, es, i - 1);
      InvariantHolds(c, ws, es, i - 1);
      UnclaimedStep(c, ws[i - 1], es[i - 1]);
      assert ws[i] == Next(c, ws[i - 1], es[i - 1]);
    }
  }

  lemma {:induction false} ClaimsAccumulate(c: Config, ws: seq<World>, es: seq<Event>, i: nat, j: nat)
    requires IsRun(c, ws, es) && i < j <= |es|
    ensures AsSet(ClaimOf(ws[i], es[i])) <= ws[j].claimed
    decreases j
  {
    UnclaimedHolds(c, ws, es, j - 1);
    InvariantHolds(c, ws, es, j - 1);
    UnclaimedStep(c, ws[j - 1], es[j - 1]);
    assert ws[j] == Next(c, ws[j - 1], es[j - 1]);
    if i < j - 1 {
      ClaimsAccumulate(c, ws, es, i, j - 1);
    }
  }

  /** A retry is claimed once in its life, by one drainer, whatever the number of drainers. */
  lemma ClaimedOnce(c: Config, ws: seq<World>, es: seq<Event>, i: nat, j: nat, id: Id)
    requires IsRun(c, ws, es) && i < |es| && j < |es|
    requires ClaimOf(ws[i], es[i]) == Some(id) && ClaimOf(ws[j], es[j]) == Some(id)
    ensures i == j
  {
    var lo, hi := if i < j then i else j, if i < j then j else i;
    if lo < hi {
      assert id in AsSet(ClaimOf(ws[lo], es[lo]));
      ClaimsAccumulate(c, ws, es, lo, hi);
      UnclaimedHolds(c, ws, es, hi);
      InvariantHolds(c, ws, es, hi);
      UnclaimedStep(c, ws[hi], es[hi]);
    }
  }

  // Keys in use -------------------------------------------------------------------------------------

  /** A transaction lands on a key that is still in use: stored, indexed, or held by a drainer. */
  ghost predicate Collides(w: World, e: Event) {
    && e.WriteLands? && e.id in w.writes
    && var key := TierKey(w.writes[e.id]);
    key in w.store || key in w.index || exists d :: HoldsKey(w.drainers, d, key)
  }

  ghost predicate IsCleanRun(c: Config, ws: seq<World>, es: seq<Event>) {
    IsRun(c, ws, es) && forall i | 0 <= i < |es| :: !Collides(ws[i], es[i])
  }

  /** Without collisions nothing is ever overwritten. */
  lemma CleanRunOverwritesNothing(c: Config, ws: seq<World>, es: seq<Event>, i: nat, id: Id)
    requires IsCleanRun(c, ws, es) && i <= |es| && id in ws[i].fates
    ensures ws[i].fates[id] != Overwritten
  {
    OverwrittenIff(c, ws, es, i, id);
    forall m | 0 <= m < i ensures !Overwrites(ws[m], es[m], id) {
      assert !Collides(ws[m], es[m]);
    }
  }

  /** The transaction of step e lands on this key while it is in use. */
  ghost predicate CollidesOn(w: World, e: Event, key: Key) {
    Collides(w, e) && TierKey(w.writes[e.id]) == key
  }

  /** The key is held by one drainer at most, and then it is out of the index. */
  ghost predicate OneHolder(drainers: map<nat, Drainer>, index: map<Key, int>, key: Key) {
    && (forall d, d' | HoldsKey(drainers, d, key) && HoldsKey(drainers, d', key) :: d == d')
    && (forall d | HoldsKey(drainers, d, key) :: key !in index)
  }

  lemma ClaimHolders(w: World, d: nat, key: Key)
    requires OneHolder(w.drainers, w.index, key) && Enabled(w, Claim(d))
    ensures OneHolder(TryClaim(w, d).drainers, TryClaim(w, d).index, key)
  {
    var w', claimed := TryClaim(w, d), w.drainers[d].due[0].key;
    forall d' | HoldsKey(w'.drainers, d', key)
      ensures HoldsKey(w.drainers, d', key) || (d' == d && key == claimed && key in w.index)
      ensures key !in w'.index
    {
      if d' != d {
        assert HoldsKey(w.drainers, d', key);
      }
    }
  }

  lemma HolderStep(c: Config, w: World, e: Event, key: Key)
    requires Invariant(c, w) && OneHolder(w.drainers, w.index, key) && Enabled(w, e) && !CollidesOn(w, e, key)
    ensures WellTyped(c, w) && OneHolder(Next(c, w, e).drainers, Next(c, w, e).index, key)
  {
    if e.Claim? {
      ClaimHolders(w, e.d, key);
    } else if e.WriteLands? {
      LandHolders(c, w, e.id, key);
    } else {
      ReleaseStep(c, w, e);
    }
  }

  lemma LandHolders(c: Config, w: World, id: Id, key: Key)
    requires WellTyped(c, w) && id in w.writes && OneHolder(w.drainers, w.index, key)
    requires !CollidesOn(w, WriteLands(id), key)
    ensures OneHolder(Land(c, w, id).drainers, Land(c, w, id).index, key)
  {
    assert Land(c, w, id).drainers == w.drainers;
  }

  lemma {:induction false} HolderHolds(c: Config, ws: seq<World>, es: seq<Event>, i: nat, key: Key)
    requires IsRun(c, ws, es) && i <= |es| && forall m | 0 <= m < i :: !CollidesOn(ws[m], es[m], key)
    ensures OneHolder(ws[i].drainers, ws[i].index, key)
  {
    if i > 0 {
      HolderHolds(c, ws, es, i - 1, key);
      InvariantHolds(c, ws, es, i - 1);
      HolderStep(c, ws[i - 1], es[i - 1], key);
      assert ws[i] == Next(c, ws[i - 1], es[i - 1]);
    }
  }

  /** Drainer d claims, in step i, the retry `id` stored under `key`, and still holds the key in state j. */
  ghost predicate ClaimsAndHolds(ws: seq<World>, es: seq<Event>, i: nat, j: nat, d: nat, key: Key, id: Id)
    requires i < j < |ws| && j <= |es|
  {
    && es[i] == Claim(d) && ClaimOf(ws[i], es[i]) == Some(id) && ws[i].drainers[d].due[0].key == key
    && forall m | i < m <= j :: HoldsKey(ws[m].drainers, d, key)
  }

  lemma HeldOneMore(c: Config, ws: seq<World>, es: seq<Event>, j: nat, d: nat, key: Key)
    requires IsRun(c, ws, es) && j < |es| && forall m | 0 <= m <= j :: !CollidesOn(ws[m], es[m], key)
    requires HoldsKey(ws[j].drainers, d, key) && HoldsKey(ws[j + 1].drainers, d, key)
    requires key in ws[j].store && ws[j].now < key.at + QUEUE_TTL_PADDING_MS
    ensures key in ws[j + 1].store && ws[j + 1].store[key] == ws[j].store[key]
  {
    InvariantHolds(c, ws, es, j);
    HolderHolds(c, ws, es, j, key);
    HeldPayloadStays(c, ws[j], es[j], d, key);
  }

  lemma {:induction false} ClockIsMonotone(ws: seq<World>, i: nat, j: nat)
    requires i <= j < |ws| && forall m | 0 <= m < |ws| - 1 :: ws[m].now <= ws[m + 1].now
    ensures ws[i].now <= ws[j].now
    decreases j
  {
    if i < j {
      ClockIsMonotone(ws, i, j - 1);
      assert ws[j - 1].now <= ws[j - 1 + 1].now;
    }
  }

  lemma {:induction false} PayloadStays(ws: seq<World>, i: nat, j: nat, key: Key)
    requires i <= j < |ws| && key in ws[i].store
    requires forall m | i <= m < j && key in ws[m].store ::
               key in ws[m + 1].store && ws[m + 1].store[key] == ws[m].store[key]
    ensures key in ws[j].store && ws[j].store[key] == ws[i].store[key]
    decreases j
  {
    if i < j {
      PayloadStays(ws, i, j - 1, key);
      assert key in ws[j - 1 + 1].store;
    }
  }

  /** While drainer d holds a key and the padding has not run out, the payload waits for d. */
  lemma HeldPayloadWaits(c: Config, ws: seq<World>, es: seq<Event>, i: nat, j: nat, d: nat, key: Key, id: Id)
    requires IsRun(c, ws, es) && i < j <= |es| && ClaimsAndHolds(ws, es, i, j, d, key, id)
    requires forall m | 0 <= m < j :: !CollidesOn(ws[m], es[m], key)
    requires ws[j].now < key.at + QUEUE_TTL_PADDING_MS
    ensures key in ws[j].store && ws[j].store[key].item.id == id
  {
    ClaimStepKeepsStore(c, ws[i], es[i]);
    assert ws[i + 1].store == ws[i].store;
    forall m | i + 1 <= m < j && key in ws[m].store
      ensures key in ws[m + 1].store && ws[m + 1].store[key] == ws[m].store[key]
    {
      EarlierClock(c, ws, es, m, j);
      HeldOneMore(c, ws, es, m, d, key);
    }
    PayloadStays(ws, i + 1, j, key);
  }

  lemma EarlierClock(c: Config, ws: seq<World>, es: seq<Event>, i: nat, j: nat)
    requires IsRun(c, ws, es) && i <= j <= |es|
    ensures ws[i].now <= ws[j].now
  {
    forall m | 0 <= m < |ws| - 1 ensures ws[m].now <= ws[m + 1].now {
      ClockStep(c, ws[m], es[m]);
    }
    ClockIsMonotone(ws, i, j);
  }

  lemma ClaimStepKeepsStore(c: Config, w: World, e: Event)
    requires WellTyped(c, w) && Enabled(w, e) && e.Claim?
    ensures Next(c, w, e).store == w.store
  {
  }

  lemma ClockStep(c: Config, w: World, e: Event)
    requires WellTyped(c, w) && Enabled(w, e)
    ensures w.now <= Next(c, w, e).now
  {
  }

  lemma HeldPayloadStays(c: Config, w: World, e: Event, d: nat, key: Key)
    requires Invariant(c, w) && OneHolder(w.drainers, w.index, key) && Enabled(w, e) && WellTyped(c, w)
    requires !CollidesOn(w, e, key)
    requires HoldsKey(w.drainers, d, key) && HoldsKey(Next(c, w, e).drainers, d, key)
    requires key in w.store && w.now < key.at + QUEUE_TTL_PADDING_MS
    ensures key in Next(c, w, e).store && Next(c, w, e).store[key] == w.store[key]
  {
    if e.Take? || e.TakeUnanswered? {
      DrainerStore(c, w, e);
      assert e.d != d && (w.drainers[e.d].key == key ==> HoldsKey(w.drainers, e.d, key));
    } else {
      OtherStore(c, w, e);
    }
  }

  lemma TakeStore(c: Config, w: World, d: nat, throws: bool)
    requires Invariant(c, w) && Enabled(w, Take(d, throws))
    ensures TakePayload(c, w, d, throws).store == w.store - {w.drainers[d].key}
    ensures d in TakePayload(c, w, d, throws).drainers ==> !TakePayload(c, w, d, throws).drainers[d].Claimed?
  {
    if w.drainers[d].key in w.store {
      ClaimedIsDue(c, w, d);
    }
  }

  /** However GETDEL goes, only the held key goes. */
  lemma DrainerStore(c: Config, w: World, e: Event)
    requires Invariant(c, w) && Enabled(w, e) && (e.Take? || e.TakeUnanswered?)
    ensures WellTyped(c, w) && Next(c, w, e).store == w.store - {w.drainers[e.d].key}
    ensures e.d in Next(c, w, e).drainers ==> !Next(c, w, e).drainers[e.d].Claimed?
  {
    if e.Take? {
      TakeStore(c, w, e.d, e.throws);
    }
  }

  lemma OtherStore(c: Config, w: World, e: Event)
    requires Invariant(c, w) && Enabled(w, e) && !e.Take? && !e.TakeUnanswered?
    ensures WellTyped(c, w)
    ensures forall k | k in w.store && !(e == PayloadExpires(k)) && !(e.WriteLands? && TierKey(w.writes[e.id]) == k) ::
              k in Next(c, w, e).store && Next(c, w, e).store[k] == w.store[k]
  {
  }

  /** Taking the payload of `id` delivers it and, if a handler throws, schedules its successor. */
  lemma TakeDelivers(c: Config, w: World, d: nat, throws: bool, key: Key, id: Id)
    requires Invariant(c, w) && HoldsKey(w.drainers, d, key) && key in w.store && w.store[key].item.id == id
    ensures var w' := TakePayload(c, w, d, throws);
            && id in w'.fates && w'.fates[id] == Delivered
            && (throws && id.attempt < MaxRetries(c) ==>
                  Following(id) in w'.writes
                  && w'.writes[Following(id)].nextRetryAt == w.now + DelayMs(c, id.attempt + 1))
            && (throws && id.attempt == MaxRetries(c) ==> Following(id) in w'.pushes)
  {
    TakeFates(c, w, d, throws, id);
    ClaimedIsDue(c, w, d);
  }

  /**
    Timely delivery: an item that drainer d claims in step i, and whose payload d then takes in step j
    less than the padding after its due time, is delivered.
  */
  lemma TimelyClaimIsDelivered(
    c: Config, ws: seq<World>, es: seq<Event>, i: nat, j: nat, d: nat, throws: bool, key: Key, id: Id)
    requires IsRun(c, ws, es) && i < j < |es| && ClaimsAndHolds(ws, es, i, j, d, key, id)
    requires forall m | 0 <= m < j :: !CollidesOn(ws[m], es[m], key)
    requires es[j] == Take(d, throws) && ws[j].now < key.at + QUEUE_TTL_PADDING_MS
    ensures id in ws[j + 1].fates && ws[j + 1].fates[id] == Delivered
    ensures throws && id.attempt < MaxRetries(c) ==>
              Following(id) in ws[j + 1].writes
              && ws[j + 1].writes[Following(id)].nextRetryAt == ws[j].now + DelayMs(c, id.attempt + 1)
    ensures throws && id.attempt == MaxRetries(c) ==> Following(id) in ws[j + 1].pushes
  {
    HeldPayloadWaits(c, ws, es, i, j, d, key, id);
    InvariantHolds(c, ws, es, j);
    TakeDelivers(c, ws[j], d, throws, key, id);
    assert ws[j + 1] == Next(c, ws[j], es[j]);
  }
}
