/**
  How often the fetcher of a cold entry runs (src/core/redis/redis.service.ts,
  getOrSetWithStampedeProtection). The comment promises one fetch while the others wait; here is exactly
  when that holds, for callers that run into no error, no expiry and no overrun.
*/
module StampedeFetches {
  import opened Prelude
  import opened StampedeCaches

  /** No command fails or is skipped, the fetcher returns, and the entry is neither expired nor invalidated. */
  predicate Quiet(e: Event) {
    match e
    case Read(_, down) => !down
    case Poll(_, down) => !down
    case Store(_, down) => !down
    case CacheExpires => false
    case Invalidate => false
    case ReadError(_) => false
    case LockError(_) => false
    case PollError(_) => false
    case FetchError(_) => false
    case StoreError(_) => false
    case ReleaseError(_) => false
    case _ => true
  }

  /** Every lock holder fetches, stores and releases within d ms, which is less than the lock's ttl. */
  ghost predicate QuietRun(o: Options, ws: seq<World>, es: seq<Event>, d: int) {
    && IsRun(o, ws, es) && d < o.lockTtlMs && (forall k | 0 <= k <= |es| :: Within(o, ws[k], d))
    && forall k | 0 <= k < |es| :: Quiet(es[k])
  }

  /** The caller runs its fetcher, or has run it. */
  predicate Fetcher(w: World, id: nat) {
    id in w.callers && (w.callers[id].phase.Fetching? || w.callers[id].fetches >= 1)
  }

  ghost predicate TwoFetch(w: World) {
    exists a, b :: a != b && Fetcher(w, a) && Fetcher(w, b)
  }

  ghost predicate Happened(es: seq<Event>, j: nat, e: Event)
    requires j <= |es|
  {
    exists r | 0 <= r < j :: es[r] == e
  }

  // What the phases say of the past ---------------------------------------------------------------------

  lemma RunStep(o: Options, ws: seq<World>, es: seq<Event>, d: int, j: nat)
    requires QuietRun(o, ws, es, d) && j < |es|
    ensures Enabled(o, ws[j], es[j]) && ws[j + 1] == Next(o, ws[j], es[j]) && Quiet(es[j])
    ensures Transparent(o, ws[j]) && HoldersOwnLock(ws[j])
  {
    CacheIsTransparent(o, ws, es, j);
    HolderOwnsLock(o, ws, es, d, j);
  }

  /** The cache is filled by the first store, and stays filled. */
  lemma {:induction false} FilledIffStored(o: Options, ws: seq<World>, es: seq<Event>, d: int, j: nat)
    requires QuietRun(o, ws, es, d) && j <= |es|
    ensures ws[j].cache.Some? <==> exists s | 0 <= s < j :: es[s].Store?
  {
    if j > 0 {
      FilledIffStored(o, ws, es, d, j - 1);
      RunStep(o, ws, es, d, j - 1);
      assert es[j - 1].Store? ==> exists s | 0 <= s < j :: es[s].Store?;
    }
  }

  lemma FilledStays(o: Options, ws: seq<World>, es: seq<Event>, d: int, i: nat, j: nat)
    requires QuietRun(o, ws, es, d) && i <= j <= |es| && ws[i].cache.Some?
    ensures ws[j].cache.Some?
  {
    FilledIffStored(o, ws, es, d, i);
    FilledIffStored(o, ws, es, d, j);
  }

  lemma LockingStep(o: Options, w: World, e: Event, id: nat)
    requires Enabled(o, w, e) && Quiet(e) && id in Next(o, w, e).callers && Next(o, w, e).callers[id].phase.Locking?
    ensures if e == Read(id, false) then w.cache == None else id in w.callers && w.callers[id].phase.Locking?
  {
  }

  /** A caller that goes for the lock has read the cache, and found it cold. */
  lemma {:induction false} LockingHasRead(o: Options, ws: seq<World>, es: seq<Event>, d: int, j: nat, id: nat)
      returns (r: nat)
    requires QuietRun(o, ws, es, d) && j <= |es| && id in ws[j].callers && ws[j].callers[id].phase.Locking?
    ensures r < j && es[r] == Read(id, false) && ws[r].cache == None
  {
    RunStep(o, ws, es, d, j - 1);
    LockingStep(o, ws[j - 1], es[j - 1], id);
    if es[j - 1] == Read(id, false) {
      r := j - 1;
    } else {
      r := LockingHasRead(o, ws, es, d, j - 1, id);
    }
  }

  lemma ReleasingStep(o: Options, w: World, e: Event, id: nat)
    requires Enabled(o, w, e) && Quiet(e) && id in Next(o, w, e).callers && Next(o, w, e).callers[id].phase.Releasing?
    ensures e == Store(id, false) || (id in w.callers && w.callers[id].phase.Releasing?)
  {
  }

  /** A caller about to delete the lock has stored its value. */
  lemma {:induction false} ReleasingHasStored(o: Options, ws: seq<World>, es: seq<Event>, d: int, j: nat, id: nat)
      returns (s: nat)
    requires QuietRun(o, ws, es, d) && j <= |es| && id in ws[j].callers && ws[j].callers[id].phase.Releasing?
    ensures s < j && es[s] == Store(id, false)
  {
    RunStep(o, ws, es, d, j - 1);
    ReleasingStep(o, ws[j - 1], es[j - 1], id);
    if es[j - 1] == Store(id, false) {
      s := j - 1;
    } else {
      s := ReleasingHasStored(o, ws, es, d, j - 1, id);
    }
  }

  lemma FetcherStep(o: Options, w: World, e: Event, id: nat)
    requires Enabled(o, w, e) && Fetcher(w, id)
    ensures Fetcher(Next(o, w, e), id)
  {
  }

  lemma NewFetcher(o: Options, w: World, e: Event, id: nat)
    requires Enabled(o, w, e) && Quiet(e) && Fetcher(Next(o, w, e), id)
    ensures Fetcher(w, id) || (e == TryLock(id) && w.lock.None?) || e == GiveUp(id)
  {
  }

  lemma HolderStep(o: Options, w: World, e: Event, id: nat)
    requires Enabled(o, w, e) && Quiet(e) && Holder(w, id) && e != Release(id)
    ensures Holder(Next(o, w, e), id)
  {
  }

  lemma HolderFetches(o: Options, w: World, id: nat)
    requires Transparent(o, w) && Holder(w, id)
    ensures Fetcher(w, id)
  {
    assert CallerOk(o, w, w.callers[id]);
  }

  lemma LockStep(o: Options, w: World, e: Event)
    requires Enabled(o, w, e) && Quiet(e) && Next(o, w, e).lock.Some?
    ensures !e.Release? && if e.TryLock? && w.lock.None? then Holder(Next(o, w, e), e.id) else w.lock.Some?
  {
  }

  /** The lock is only there while someone holds it. */
  lemma {:induction false} LockHasHolder(o: Options, ws: seq<World>, es: seq<Event>, d: int, j: nat) returns (h: nat)
    requires QuietRun(o, ws, es, d) && j <= |es| && ws[j].lock.Some?
    ensures Holder(ws[j], h) && Fetcher(ws[j], h)
  {
    RunStep(o, ws, es, d, j - 1);
    LockStep(o, ws[j - 1], es[j - 1]);
    if es[j - 1].TryLock? && ws[j - 1].lock.None? {
      h := es[j - 1].id;
    } else {
      h := LockHasHolder(o, ws, es, d, j - 1);
      HolderStep(o, ws[j - 1], es[j - 1], h);
    }
    CacheIsTransparent(o, ws, es, j);
    HolderFetches(o, ws[j], h);
  }

  lemma FetcherOneMore(o: Options, ws: seq<World>, es: seq<Event>, d: int, j: nat, id: nat)
    requires QuietRun(o, ws, es, d) && j < |es| && Fetcher(ws[j], id)
    ensures Fetcher(ws[j + 1], id)
  {
    RunStep(o, ws, es, d, j);
    FetcherStep(o, ws[j], es[j], id);
  }

  lemma {:induction false} FetcherStays(o: Options, ws: seq<World>, es: seq<Event>, d: int, i: nat, j: nat, id: nat)
    requires QuietRun(o, ws, es, d) && i <= j <= |es| && Fetcher(ws[i], id)
    ensures Fetcher(ws[j], id)
    decreases j
  {
    if i < j {
      FetcherStays(o, ws, es, d, i, j - 1, id);
      FetcherOneMore(o, ws, es, d, j - 1, id);
    }
  }

  lemma DoneStep(o: Options, w: World, e: Event, id: nat)
    requires Enabled(o, w, e) && id in w.callers && w.callers[id].phase.Done?
    ensures id in Next(o, w, e).callers && Next(o, w, e).callers[id] == w.callers[id]
  {
  }

  lemma DoneOneMore(o: Options, ws: seq<World>, es: seq<Event>, d: int, j: nat, id: nat)
    requires QuietRun(o, ws, es, d) && j < |es| && id in ws[j].callers && ws[j].callers[id].phase.Done?
    ensures id in ws[j + 1].callers && ws[j + 1].callers[id] == ws[j].callers[id]
  {
    RunStep(o, ws, es, d, j);
    DoneStep(o, ws[j], es[j], id);
  }

  lemma {:induction false} DoneStays(o: Options, ws: seq<World>, es: seq<Event>, d: int, i: nat, j: nat, id: nat)
    requires QuietRun(o, ws, es, d) && i <= j <= |es| && id in ws[i].callers && ws[i].callers[id].phase.Done?
    ensures id in ws[j].callers && ws[j].callers[id] == ws[i].callers[id]
    decreases j
  {
    if i < j {
      DoneStays(o, ws, es, d, i, j - 1, id);
      DoneOneMore(o, ws, es, d, j - 1, id);
    }
  }

  lemma PollingStep(o: Options, w: World, e: Event, id: nat)
    requires Enabled(o, w, e) && id in Next(o, w, e).callers && Next(o, w, e).callers[id].phase.Polling?
    ensures if e == TryLock(id) then w.lock.Some? else id in w.callers && w.callers[id].phase.Polling?
  {
  }

  /** Someone fetches, or has, while a caller waits. */
  lemma {:induction false} PollingHasFetcher(o: Options, ws: seq<World>, es: seq<Event>, d: int, j: nat, id: nat)
      returns (f: nat)
    requires QuietRun(o, ws, es, d) && j <= |es| && id in ws[j].callers && ws[j].callers[id].phase.Polling?
    ensures Fetcher(ws[j], f) && f != id
  {
    RunStep(o, ws, es, d, j - 1);
    PollingStep(o, ws[j - 1], es[j - 1], id);
    if es[j - 1] == TryLock(id) {
      f := LockHasHolder(o, ws, es, d, j - 1);
    } else {
      f := PollingHasFetcher(o, ws, es, d, j - 1, id);
    }
    FetcherStays(o, ws, es, d, j - 1, j, f);
    PollerHasNotFetched(o, ws, es, j, id);
  }

  lemma PollerHasNotFetched(o: Options, ws: seq<World>, es: seq<Event>, j: nat, id: nat)
    requires IsRun(o, ws, es) && j <= |es| && id in ws[j].callers && ws[j].callers[id].phase.Polling?
    ensures !Fetcher(ws[j], id)
  {
    CacheIsTransparent(o, ws, es, j);
    assert CallerOk(o, ws[j], ws[j].callers[id]);
  }

  // The second fetch ----------------------------------------------------------------------------------------

  /** A caller that reads after the first store never fetches. */
  lemma ReadersAfterStoreNeverFetch(o: Options, ws: seq<World>, es: seq<Event>, d: int, s: nat, r: nat, j: nat, id: nat)
    requires QuietRun(o, ws, es, d) && s < r < j <= |es| && es[s].Store? && es[r] == Read(id, false)
    ensures id in ws[j].callers && ws[j].callers[id].phase.Done? && !Fetcher(ws[j], id)
  {
    RunStep(o, ws, es, d, r);
    FilledIffStored(o, ws, es, d, r);
    assert CallerOk(o, ws[r], ws[r].callers[id]);
    DoneStays(o, ws, es, d, r + 1, j, id);
  }

  /** Some lock is tried for after some release. */
  ghost predicate LockAfterRelease(es: seq<Event>, i: nat, k: nat) {
    i < k < |es| && es[i].Release? && es[k].TryLock?
  }

  lemma LockAfterReleaseFetches(o: Options, ws: seq<World>, es: seq<Event>, d: int, i: nat, k: nat)
    requires QuietRun(o, ws, es, d) && LockAfterRelease(es, i, k)
    ensures TwoFetch(ws[|es|])
  {
    var a, id := es[i].id, es[k].id;
    RunStep(o, ws, es, d, i);
    RunStep(o, ws, es, d, k);
    assert CallerOk(o, ws[i], ws[i].callers[a]) && CallerOk(o, ws[k], ws[k].callers[id]);
    FetcherStays(o, ws, es, d, i, k, a);
    DoneStays(o, ws, es, d, i + 1, k, a);
    var b := id;
    if ws[k].lock.Some? {
      b := LockHasHolder(o, ws, es, d, k);
    }
    assert a != b && Fetcher(ws[k + 1], b) by {
      if ws[k].lock.Some? {
        FetcherStays(o, ws, es, d, k, k + 1, b);
      }
    }
    FetcherStays(o, ws, es, d, k, |es|, a);
    FetcherStays(o, ws, es, d, k + 1, |es|, b);
  }

  lemma GiveUpFetches(o: Options, ws: seq<World>, es: seq<Event>, d: int, k: nat)
    requires QuietRun(o, ws, es, d) && k < |es| && es[k].GiveUp?
    ensures TwoFetch(ws[|es|])
  {
    var g := es[k].id;
    RunStep(o, ws, es, d, k);
    var f := PollingHasFetcher(o, ws, es, d, k, g);
    FetcherStays(o, ws, es, d, k, |es|, f);
    assert Fetcher(ws[k + 1], g);
    FetcherStays(o, ws, es, d, k + 1, |es|, g);
  }

  /** While nobody gives up, a fetcher holds the lock until it has released it. */
  lemma {:induction false} FetcherHoldsOrReleased(o: Options, ws: seq<World>, es: seq<Event>, d: int, j: nat, id: nat)
    requires QuietRun(o, ws, es, d) && j <= |es| && Fetcher(ws[j], id)
    requires forall k | 0 <= k < j :: !es[k].GiveUp?
    ensures Holder(ws[j], id) || Happened(es, j, Release(id))
  {
    RunStep(o, ws, es, d, j - 1);
    NewFetcher(o, ws[j - 1], es[j - 1], id);
    if Fetcher(ws[j - 1], id) {
      FetcherHoldsOrReleased(o, ws, es, d, j - 1, id);
      if Happened(es, j - 1, Release(id)) {
        var r :| 0 <= r < j - 1 && es[r] == Release(id);
        assert Happened(es, j, es[r]);
      } else if es[j - 1] == Release(id) {
        assert Happened(es, j, es[j - 1]);
      } else {
        HolderStep(o, ws[j - 1], es[j - 1], id);
      }
    }
  }

  lemma {:induction false} OneFetcher(o: Options, ws: seq<World>, es: seq<Event>, d: int, j: nat)
    requires QuietRun(o, ws, es, d) && j <= |es|
    requires forall k | 0 <= k < j :: !es[k].GiveUp?
    requires forall i, k | 0 <= i < k < j :: !LockAfterRelease(es, i, k)
    ensures !TwoFetch(ws[j])
  {
    if j > 0 {
      OneFetcher(o, ws, es, d, j - 1);
      RunStep(o, ws, es, d, j - 1);
      var w, e := ws[j - 1], es[j - 1];
      if a, b :| a != b && Fetcher(ws[j], a) && Fetcher(ws[j], b) {
        NewFetcherIsAlone(o, ws, es, d, j - 1, a, b);
      }
    }
  }

  /** In step j caller a or b becomes a fetcher: the other is none. */
  lemma NewFetcherIsAlone(o: Options, ws: seq<World>, es: seq<Event>, d: int, j: nat, a: nat, b: nat)
    requires QuietRun(o, ws, es, d) && j < |es| && a != b && !TwoFetch(ws[j])
    requires forall k | 0 <= k <= j :: !es[k].GiveUp?
    requires forall i | 0 <= i < j :: !LockAfterRelease(es, i, j)
    ensures !(Fetcher(ws[j + 1], a) && Fetcher(ws[j + 1], b))
  {
    RunStep(o, ws, es, d, j);
    if Fetcher(ws[j + 1], a) && Fetcher(ws[j + 1], b) {
      NewFetcher(o, ws[j], es[j], a);
      NewFetcher(o, ws[j], es[j], b);
      var x := if Fetcher(ws[j], a) then a else b;
      FetcherHoldsOrReleased(o, ws, es, d, j, x);
      if !Holder(ws[j], x) {
        var r :| 0 <= r < j && es[r] == Release(x);
        assert LockAfterRelease(es, r, j);
      }
    }
  }

  /**
    Caller id read the cold cache in step r, before the store in s, and went for the lock in k, after the
    release in i.
  */
  ghost predicate LateLock(es: seq<Event>, r: nat, s: nat, i: nat, k: nat, id: nat) {
    r < s < i < k < |es| && es[r] == Read(id, false) && es[s].Store? && es[i].Release? && es[k] == TryLock(id)
  }

  lemma LateLockers(o: Options, ws: seq<World>, es: seq<Event>, d: int, i: nat, k: nat) returns (r: nat, s: nat)
    requires QuietRun(o, ws, es, d) && LockAfterRelease(es, i, k)
    ensures LateLock(es, r, s, i, k, es[k].id) && forall m | 0 <= m < r :: !es[m].Store?
  {
    RunStep(o, ws, es, d, i);
    RunStep(o, ws, es, d, k);
    s := ReleasingHasStored(o, ws, es, d, i, es[i].id);
    r := LockingHasRead(o, ws, es, d, k, es[k].id);
    FilledIffStored(o, ws, es, d, r);
    assert s >= r && es[s] != es[r];
  }

  /**
    "Only one caller executes the fetcher" fails exactly if some caller exhausts its polls, or some caller
    whose read came before the store goes for the lock after it has been released.
  */
  lemma SecondFetchIff(o: Options, ws: seq<World>, es: seq<Event>, d: int)
    requires QuietRun(o, ws, es, d)
    ensures TwoFetch(ws[|es|]) <==>
            || (exists k | 0 <= k < |es| :: es[k].GiveUp?)
            || (exists r, s, i, k, id :: LateLock(es, r, s, i, k, id))
  {
    if k :| 0 <= k < |es| && es[k].GiveUp? {
      GiveUpFetches(o, ws, es, d, k);
    } else if i, k :| LockAfterRelease(es, i, k) {
      LockAfterReleaseFetches(o, ws, es, d, i, k);
      var r, s := LateLockers(o, ws, es, d, i, k);
    } else {
      OneFetcher(o, ws, es, d, |es|);
      forall r, s, i, k, id ensures !LateLock(es, r, s, i, k, id) {
        assert !LockAfterRelease(es, i, k);
      }
    }
  }
}
