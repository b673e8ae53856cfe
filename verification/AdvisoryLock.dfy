/**
  Redis advisory locks: a lease on a key, held by a random token (src/core/redis/redis.service.ts),
  and the helper every scheduler takes it through (src/core/redis/scheduler-lock.helper.ts).
*/
module AdvisoryLocks {
  import opened Prelude

  type Token = nat

  datatype Lease = Lease(token: Token, expireAt: int)

  type Leases = map<string, Lease>

  /** SET key token PX ttl NX */
  function AfterAcquire(ls: Leases, key: string, token: Token, now: int, ttlMs: nat): Leases {
    if key in ls then ls else ls[key := Lease(token, now + ttlMs)]
  }

  predicate Holds(ls: Leases, key: string, token: Token) {
    key in ls && ls[key].token == token
  }

  /** The compare-and-delete script. */
  function AfterRelease(ls: Leases, key: string, token: Token): Leases {
    if Holds(ls, key, token) then ls - {key} else ls
  }

  /** The compare-and-PEXPIRE script. */
  function AfterRenew(ls: Leases, key: string, token: Token, now: int, ttlMs: nat): Leases {
    if Holds(ls, key, token) then ls[key := Lease(token, now + ttlMs)] else ls
  }

  /** How a command went: an open circuit skips it; an error may come before or after it took effect. */
  datatype Command = Ran | Skipped | Failed(executed: bool)

  predicate TakesEffect(k: Command) {
    k.Ran? || (k.Failed? && k.executed)
  }

  const REDIS_ERROR := "redis error"

  /** The lock commands as the service issues them; `uuid` is the UUID drawn for the call. */
  class RedisLocks {
    var leases: Leases

    constructor ()
      ensures leases == map[]
    {
      leases := map[];
    }

    method AcquireAdvisoryLock(key: string, ttlMs: nat, now: int, uuid: Token, k: Command)
      returns (token: Result<Option<Token>>)
      modifies this
      ensures leases == if TakesEffect(k) then AfterAcquire(old(leases), key, uuid, now, ttlMs) else old(leases)
      ensures (k == Ran || k == Failed(true)) && key !in old(leases) ==>
                leases == old(leases)[key := Lease(uuid, now + ttlMs)]
      ensures !(k == Ran || k == Failed(true)) || key in old(leases) ==> leases == old(leases)
      ensures token == if k.Failed? then Err(REDIS_ERROR)
                       else if k.Skipped? || key in old(leases) then Ok(None) else Ok(Some(uuid))
    {
      if k.Skipped? { return Ok(None); }
      var free := key !in leases;
      if TakesEffect(k) && free {
        leases := leases[key := Lease(uuid, now + ttlMs)];
      }
      if k.Failed? { return Err(REDIS_ERROR); }
      token := Ok(if free then Some(uuid) else None);
    }

    method ReleaseAdvisoryLock(key: string, token: Token, k: Command) returns (released: Result<bool>)
      modifies this
      ensures leases == if TakesEffect(k) then AfterRelease(old(leases), key, token) else old(leases)
      ensures var mine := key in old(leases) && old(leases)[key].token == token;
              && ((k == Ran || k == Failed(true)) && mine ==>
                    key !in leases && forall other | other != key ::
                      (other in leases <==> other in old(leases))
                      && (other in leases ==> leases[other] == old(leases)[other]))
              && (!(k == Ran || k == Failed(true)) || !mine ==> leases == old(leases))
              && released == if k.Failed? then Err(REDIS_ERROR) else Ok(k.Ran? && mine)
    {
      if k.Skipped? { return Ok(false); }
      var mine := key in leases && leases[key].token == token;
      if TakesEffect(k) && mine {
        leases := leases - {key};
      }
      if k.Failed? { return Err(REDIS_ERROR); }
      released := Ok(mine);
    }

    method RenewAdvisoryLock(key: string, token: Token, ttlMs: nat, now: int, k: Command)
      returns (renewed: Result<bool>)
      modifies this
      ensures leases == if TakesEffect(k) then AfterRenew(old(leases), key, token, now, ttlMs) else old(leases)
      ensures var mine := key in old(leases) && old(leases)[key].token == token;
              && ((k == Ran || k == Failed(true)) && mine ==>
                    leases == old(leases)[key := Lease(token, now + ttlMs)])
              && (!(k == Ran || k == Failed(true)) || !mine ==> leases == old(leases))
              && renewed == if k.Failed? then Err(REDIS_ERROR) else Ok(k.Ran? && mine)
    {
      if k.Skipped? { return Ok(false); }
      var mine := key in leases && leases[key].token == token;
      if TakesEffect(k) && mine {
        leases := leases[key := Lease(token, now + ttlMs)];
      }
      if k.Failed? { return Err(REDIS_ERROR); }
      renewed := Ok(mine);
    }
  }

  datatype SchedulerLock = Acquired(token: Token) | Held | CircuitOpen

  class SchedulerMetrics {
    var skipped: map<string, nat>

    constructor ()
      ensures skipped == map[]
    {
      skipped := map[];
    }

    /** Only a skip caused by an open circuit is counted against the job. */
    method AcquireSchedulerLockOrRecordSkip(
      locks: RedisLocks, circuitOpen: bool, key: string, ttlMs: nat, job: string,
      now: int, uuid: Token, k: Command) returns (r: Result<SchedulerLock>)
      modifies this, locks
      ensures r.Err? <==> k.Failed?
      ensures r.Ok? && r.value.Acquired? <==> k.Ran? && key !in old(locks.leases)
      ensures r.Ok? && r.value.Acquired? ==>
                Holds(locks.leases, key, r.value.token) && locks.leases[key].expireAt == now + ttlMs
      ensures r.Ok? && !r.value.Acquired? ==>
                locks.leases == old(locks.leases) && r.value == (if circuitOpen then CircuitOpen else Held)
      ensures skipped == if r == Ok(CircuitOpen)
                         then old(skipped)[job := (if job in old(skipped) then old(skipped)[job] else 0) + 1]
                         else old(skipped)
    {
      var token := locks.AcquireAdvisoryLock(key, ttlMs, now, uuid, k);
      if token.Err? { return Err(token.error); }
      if token.value != None { return Ok(Acquired(token.value.value)); }
      if circuitOpen {
        skipped := skipped[job := (if job in skipped then skipped[job] else 0) + 1];
      }
      r := Ok(if circuitOpen then CircuitOpen else Held);
    }
  }

  // ---------------------------------------------------------------------------------------------
  // Any number of replicas
  // ---------------------------------------------------------------------------------------------

  /** A critical section in progress: its owner believes in the lease until `deadline`. */
  datatype Section = Section(key: string, deadline: int)

  datatype World = World(now: int, leases: Leases, drawn: set<Token>, sections: map<Token, Section>)

  datatype Event =
    | Tick(ms: nat)
    | Acquire(key: string, token: Token, ttlMs: nat, replyLost: bool)
    | Renew(token: Token, ttlMs: nat)
    | RenewUnanswered(token: Token, ttlMs: nat)
    | Finish(token: Token)
    | Abandon(token: Token)
    | StrayRelease(key: string, token: Token)
    | Expire(key: string)

  /**
    Tokens are random: a draw never repeats, and only an owner's section presents its live token. A
    renewal whose reply is lost must not have shortened the lease, which renewing with the same ttl never does.
  */
  predicate Enabled(w: World, e: Event) {
    match e
    case Tick(_) => true
    case Acquire(_, token, _, _) => token !in w.drawn
    case Renew(token, _) => token in w.sections
    case RenewUnanswered(token, ttlMs) => token in w.sections && w.now + ttlMs >= w.sections[token].deadline
    case Finish(token) => token in w.sections
    case Abandon(token) => token in w.sections
    case StrayRelease(key, token) => !Holds(w.leases, key, token)
    case Expire(key) => key in w.leases && w.now >= w.leases[key].expireAt
  }

  function Next(w: World, e: Event): World
    requires Enabled(w, e)
  {
    match e
    case Tick(ms) => w.(now := w.now + ms)
    case Acquire(key, token, ttlMs, replyLost) =>
      w.(leases := AfterAcquire(w.leases, key, token, w.now, ttlMs),
         drawn := w.drawn + {token},
         sections := if key in w.leases || replyLost then w.sections
                     else w.sections[token := Section(key, w.now + ttlMs)])
    case Renew(token, ttlMs) =>
      var s := w.sections[token];
      w.(leases := AfterRenew(w.leases, s.key, token, w.now, ttlMs),
         sections := if Holds(w.leases, s.key, token)
                     then w.sections[token := Section(s.key, w.now + ttlMs)] else w.sections)
    case Finish(token) =>
      w.(leases := AfterRelease(w.leases, w.sections[token].key, token), sections := w.sections - {token})
    case RenewUnanswered(token, ttlMs) =>
      w.(leases := AfterRenew(w.leases, w.sections[token].key, token, w.now, ttlMs))
    case Abandon(token) => w.(sections := w.sections - {token})
    case StrayRelease(key, token) => w.(leases := AfterRelease(w.leases, key, token))
    case Expire(key) => w.(leases := w.leases - {key})
  }

  ghost predicate IsRun(ws: seq<World>, es: seq<Event>) {
    && |ws| == |es| + 1
    && ws[0].leases == map[] && ws[0].drawn == {} && ws[0].sections == map[]
    && forall i | 0 <= i < |es| :: Enabled(ws[i], es[i]) && ws[i + 1] == Next(ws[i], es[i])
  }

  /** A section still inside its deadline owns the lease of its key, at least up to that deadline. */
  ghost predicate LeaseInvariant(w: World) {
    && (forall k | k in w.leases :: w.leases[k].token in w.drawn)
    && (forall t | t in w.sections :: t in w.drawn)
    && (forall t | t in w.sections && w.now < w.sections[t].deadline :: Owns(w, t))
  }

  predicate Owns(w: World, t: Token)
    requires t in w.sections
  {
    var s := w.sections[t];
    Holds(w.leases, s.key, t) && w.leases[s.key].expireAt >= s.deadline
  }

  lemma LeaseInvariantStep(w: World, e: Event)
    requires LeaseInvariant(w) && Enabled(w, e)
    ensures LeaseInvariant(Next(w, e))
  {
  }

  lemma {:induction false} LeaseInvariantHolds(ws: seq<World>, es: seq<Event>, i: nat)
    requires IsRun(ws, es) && i <= |es|
    ensures LeaseInvariant(ws[i])
  {
    if i > 0 {
      LeaseInvariantHolds(ws, es, i - 1);
      LeaseInvariantStep(ws[i - 1], es[i - 1]);
      assert ws[i] == Next(ws[i - 1], es[i - 1]);
    }
  }

  /**
    Mutual exclusion: two sections of one key are never both inside their deadlines. So sections that
    finish, or renew, before their ttl runs out never overlap, on any number of replicas.
  */
  lemma SectionsNeverOverlap(ws: seq<World>, es: seq<Event>, i: nat, s: Token, t: Token)
    requires IsRun(ws, es) && i <= |es|
    requires s in ws[i].sections && t in ws[i].sections && ws[i].sections[s].key == ws[i].sections[t].key
    requires ws[i].now < ws[i].sections[s].deadline && ws[i].now < ws[i].sections[t].deadline
    ensures s == t
  {
    LeaseInvariantHolds(ws, es, i);
  }

  /**
    A section that overran never harms its successor: whatever it does with its stale token, the
    lease of every section still inside its deadline is kept.
  */
  lemma OverrunKeepsSuccessor(ws: seq<World>, es: seq<Event>, i: nat, stale: Token, t: Token)
    requires IsRun(ws, es) && i < |es| && stale != t
    requires es[i] == Finish(stale) || (es[i].Renew? && es[i].token == stale)
    requires t in ws[i].sections && ws[i].now < ws[i].sections[t].deadline
    ensures t in ws[i + 1].sections && ws[i + 1].sections[t] == ws[i].sections[t]
    ensures Holds(ws[i + 1].leases, ws[i].sections[t].key, t)
    ensures ws[i].sections[stale].key == ws[i].sections[t].key ==> ws[i + 1].leases == ws[i].leases
  {
    LeaseInvariantHolds(ws, es, i);
    assert ws[i + 1] == Next(ws[i], es[i]);
  }

  /**
    Handing over: once the owner of a live section has finished, the very next acquire of the key, by anybody,
    starts a section that lasts its whole ttl and owns the lease; every other key is as it was.
  */
  lemma FinishHandsOver(ws: seq<World>, es: seq<Event>, i: nat, t: Token, next: Token, ttlMs: nat)
    requires IsRun(ws, es) && i + 1 < |es| && es[i] == Finish(t) && ws[i].now < ws[i].sections[t].deadline
    requires es[i + 1] == Acquire(ws[i].sections[t].key, next, ttlMs, false)
    ensures var key, after := ws[i].sections[t].key, ws[i + 2];
            && key !in ws[i + 1].leases && t !in ws[i + 1].sections
            && (forall other | other != key ::
                  (other in ws[i + 1].leases <==> other in ws[i].leases)
                  && (other in ws[i].leases ==> ws[i + 1].leases[other] == ws[i].leases[other]))
            && next in after.sections && after.sections[next] == Section(key, ws[i + 1].now + ttlMs)
            && key in after.leases && after.leases[key] == Lease(next, ws[i + 1].now + ttlMs)
  {
    LeaseInvariantHolds(ws, es, i);
    assert ws[i + 1] == Next(ws[i], es[i]) && ws[i + 2] == Next(ws[i + 1], es[i + 1]);
  }

  /** A renewal by the owner of a live section moves its deadline and its lease to the same new time. */
  lemma RenewExtends(ws: seq<World>, es: seq<Event>, i: nat, t: Token, ttlMs: nat)
    requires IsRun(ws, es) && i < |es| && es[i] == Renew(t, ttlMs) && ws[i].now < ws[i].sections[t].deadline
    ensures var key, after := ws[i].sections[t].key, ws[i + 1];
            && t in after.sections && after.sections[t] == Section(key, ws[i].now + ttlMs)
            && key in after.leases && after.leases[key] == Lease(t, ws[i].now + ttlMs)
  {
    LeaseInvariantHolds(ws, es, i);
    assert ws[i + 1] == Next(ws[i], es[i]);
  }

  /** Without the deadline the claim fails: for every ttl some run has two sections at once. */
  lemma OverrunOverlaps(key: string, ttlMs: nat) returns (ws: seq<World>, es: seq<Event>)
    ensures IsRun(ws, es)
    ensures |ws[|es|].sections| == 2 && forall t | t in ws[|es|].sections :: ws[|es|].sections[t].key == key
  {
    es := [Acquire(key, 0, ttlMs, false), Tick(ttlMs), Expire(key), Acquire(key, 1, ttlMs, false)];
    var w0 := World(0, map[], {}, map[]);
    var w1 := Next(w0, es[0]);
    var w2 := Next(w1, es[1]);
    var w3 := Next(w2, es[2]);
    var w4 := Next(w3, es[3]);
    ws := [w0, w1, w2, w3, w4];
    assert ws[|es|] == w4 && w4.sections.Keys == {0, 1};
  }
}
