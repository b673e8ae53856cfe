/**
  The retry queue as the object that runs it (src/common/events/retry-queue.ts): its handler list, and
  one drain with no other client in between.
*/
module RetryQueueObjects {
  import opened Prelude
  import opened RetryQueues

  /** What calling a handler does. Only a synchronous throw is noticed; a rejected promise is not. */
  datatype HandlerResult = Returns | RejectsLater | Throws

  /** The first handler that throws ends the delivery; `|results|` when none does. */
  function FirstThrow(results: seq<HandlerResult>): (n: nat)
    ensures n <= |results|
    ensures forall i | 0 <= i < n :: results[i] != Throws
    ensures n < |results| ==> results[n] == Throws
  {
    if results == [] || results[0] == Throws then 0 else 1 + FirstThrow(results[1..])
  }

  /** One redelivery: how its handlers behave and what the clock reads if a retry must be scheduled. */
  datatype Attempt = Attempt(results: seq<HandlerResult>, clock: int)

  predicate Fails(a: Attempt) {
    FirstThrow(a.results) < |a.results|
  }

  type Payloads = map<Key, Item>

  /** What the first n members of the batch deliver. */
  function Deliveries(store: Payloads, due: seq<Member>, n: nat): (r: seq<Option<Item>>)
    requires n <= |due|
    ensures |r| == n
  {
    seq(n, i requires 0 <= i < n => if due[i].key in store then Some(store[due[i].key]) else None)
  }

  /** A delivery that threw is rescheduled one attempt later... */
  function Rescheduled(c: Config, d: Option<Item>, a: Attempt): seq<Item> {
    if d.Some? && Fails(a) && d.value.id.attempt < MaxRetries(c)
    then [Item(Following(d.value.id), a.clock + DelayMs(c, d.value.id.attempt + 1))] else []
  }

  /** ...unless it was the last one. */
  function GivenUp(c: Config, d: Option<Item>, a: Attempt): seq<Id> {
    if d.Some? && Fails(a) && d.value.id.attempt >= MaxRetries(c) then [Following(d.value.id)] else []
  }

  function AllRescheduled(c: Config, ds: seq<Option<Item>>, attempts: seq<Attempt>): seq<Item>
    requires |ds| <= |attempts|
  {
    if ds == [] then []
    else AllRescheduled(c, ds[..|ds| - 1], attempts) + Rescheduled(c, ds[|ds| - 1], attempts[|ds| - 1])
  }

  function AllGivenUp(c: Config, ds: seq<Option<Item>>, attempts: seq<Attempt>): seq<Id>
    requires |ds| <= |attempts|
  {
    if ds == [] then []
    else AllGivenUp(c, ds[..|ds| - 1], attempts) + GivenUp(c, ds[|ds| - 1], attempts[|ds| - 1])
  }

  lemma OneMoreDelivery(c: Config, ds: seq<Option<Item>>, attempts: seq<Attempt>, d: Option<Item>)
    requires |ds| < |attempts|
    ensures AllRescheduled(c, ds + [d], attempts) == AllRescheduled(c, ds, attempts) + Rescheduled(c, d, attempts[|ds|])
    ensures AllGivenUp(c, ds + [d], attempts) == AllGivenUp(c, ds, attempts) + GivenUp(c, d, attempts[|ds|])
  {
    assert (ds + [d])[..|ds|] == ds;
  }

  /** The keys of the first n members. */
  function Keys(due: seq<Member>, n: nat): set<Key>
    requires n <= |due|
  {
    set i | 0 <= i < n :: due[i].key
  }

  /** What a drain needs of its batch; every reply to its ZRANGEBYSCORE is such a batch. */
  ghost predicate DistinctDue(index: map<Key, int>, now: int, due: seq<Member>) {
    && (forall i | 0 <= i < |due| :: due[i].key in index && index[due[i].key] == due[i].score <= now)
    && (forall i, j | 0 <= i < j < |due| :: due[i].key != due[j].key)
  }

  lemma DueBatchIsDistinct(index: map<Key, int>, now: int, due: seq<Member>)
    requires IsDueBatch(index, now, due)
    ensures DistinctDue(index, now, due)
  {
  }

  /** Removing one more member's key. */
  lemma OneMoreKey<V>(m: map<Key, V>, due: seq<Member>, i: nat)
    requires i < |due|
    requires forall j, k | 0 <= j < k < |due| :: due[j].key != due[k].key
    ensures (due[i].key in m - Keys(due, i)) == (due[i].key in m)
    ensures (m - Keys(due, i)) - {due[i].key} == m - Keys(due, i + 1)
    ensures due[i].key !in m ==> m - Keys(due, i) == m - Keys(due, i + 1)
  {
    assert Keys(due, i + 1) == Keys(due, i) + {due[i].key};
  }

  /** The queue's state: Redis structures, issued transactions and dead-letter pushes. */
  datatype Queue = Queue(store: Payloads, index: map<Key, int>, writes: seq<Item>, deadLetters: seq<Id>)

  /** The index and the keys repeat what the payloads say. */
  ghost predicate Agreeing(c: Config, q: Queue) {
    && (forall k | k in q.store :: TierKey(q.store[k]) == k && 1 <= k.attempt <= MaxRetries(c))
    && (forall k | k in q.index :: q.index[k] == k.at)
  }

  /** A drain part-way: what each member delivered, and whether it gave up before the end. */
  datatype Drain = Drain(q: Queue, delivered: seq<Option<Item>>, stopped: bool)

  /** One due member: claim it, take its payload, run the handlers. */
  function MemberStep(c: Config, q: Queue, now: int, m: Member, a: Attempt): (r: (Queue, Option<Item>, bool)) {
    if m.score > now || m.key !in q.index then (q, None, false)
    else if m.key !in q.store then (q.(index := q.index - {m.key}), None, false)
    else
      var item := q.store[m.key];
      if item.nextRetryAt > now then
        (q.(store := q.store - {m.key}, index := (q.index - {m.key})[m.key := item.nextRetryAt]), None, true)
      else
        (Queue(q.store - {m.key}, q.index - {m.key},
               q.writes + Rescheduled(c, Some(item), a), q.deadLetters + GivenUp(c, Some(item), a)),
         Some(item), false)
  }

  function DrainSteps(c: Config, q: Queue, now: int, due: seq<Member>, attempts: seq<Attempt>, n: nat): Drain
    requires n <= |due| == |attempts|
  {
    if n == 0 then Drain(q, [], false)
    else
      var d := DrainSteps(c, q, now, due, attempts, n - 1);
      if d.stopped then d
      else
        var (q', delivered, stop) := MemberStep(c, d.q, now, due[n - 1], attempts[n - 1]);
        Drain(q', d.delivered + [delivered], stop)
  }

  lemma {:induction false} StoppedStays(c: Config, q: Queue, now: int, due: seq<Member>, attempts: seq<Attempt>,
                                        i: nat, n: nat)
    requires i <= n <= |due| == |attempts| && DrainSteps(c, q, now, due, attempts, i).stopped
    ensures DrainSteps(c, q, now, due, attempts, n) == DrainSteps(c, q, now, due, attempts, i)
    decreases n
  {
    if i < n {
      StoppedStays(c, q, now, due, attempts, i, n - 1);
    }
  }

  /**
    What one due member comes to: delivered if it is still on the index and its payload is there and due, put
    back if that is not due; a delivery in which a handler throws adds the next attempt, due that attempt's own
    delay after the clock of the throw, or a dead letter if there is no further delay.
  */
  lemma MemberKeepsItsWord(c: Config, q: Queue, now: int, m: Member, a: Attempt)
    ensures var (q', x, stop) := MemberStep(c, q, now, m, a);
            var claimed := m.score <= now && m.key in q.index;
            var found := claimed && m.key in q.store;
            && x == (if found && q.store[m.key].nextRetryAt <= now then Some(q.store[m.key]) else None)
            && (stop <==> found && q.store[m.key].nextRetryAt > now)
            && q'.store == (if found then q.store - {m.key} else q.store)
            && q'.index == (if stop then q.index[m.key := q.store[m.key].nextRetryAt]
                            else if claimed then q.index - {m.key} else q.index)
            && q'.writes == q.writes +
                            (if x.Some? && Throws in a.results && x.value.id.attempt < |c.retryDelaysMs|
                             then [Item(Id(x.value.id.root, x.value.id.attempt + 1),
                                        a.clock + c.retryDelaysMs[x.value.id.attempt])]
                             else [])
            && q'.deadLetters == q.deadLetters +
                                 (if x.Some? && Throws in a.results && x.value.id.attempt >= |c.retryDelaysMs|
                                  then [Id(x.value.id.root, x.value.id.attempt + 1)] else [])
  {
    assert Fails(a) <==> Throws in a.results;
    assert q.writes + [] == q.writes && q.deadLetters + [] == q.deadLetters;
  }

  /** A member that is due is always taken off the queue, and delivered if its payload is there. */
  lemma DueMemberStep(c: Config, q: Queue, now: int, m: Member, a: Attempt)
    requires m.score <= now && m.key in q.index && (m.key in q.store ==> q.store[m.key].nextRetryAt <= now)
    ensures var d := if m.key in q.store then Some(q.store[m.key]) else None;
            MemberStep(c, q, now, m, a) ==
            (Queue(q.store - {m.key}, q.index - {m.key}, q.writes + Rescheduled(c, d, a),
                 q.deadLetters + GivenUp(c, d, a)),
             d, false)
  {
    assert m.key !in q.store ==> q.store - {m.key} == q.store;
    assert q.writes + [] == q.writes && q.deadLetters + [] == q.deadLetters;
  }

  /** What a drain has done after n members, if nothing stopped it. */
  function Drained(c: Config, q: Queue, due: seq<Member>, attempts: seq<Attempt>, n: nat): Drain
    requires n <= |due| == |attempts|
  {
    var ds := Deliveries(q.store, due, n);
    Drain(Queue(q.store - Keys(due, n), q.index - Keys(due, n),
                q.writes + AllRescheduled(c, ds, attempts), q.deadLetters + AllGivenUp(c, ds, attempts)), ds, false)
  }

  lemma DueFacts(c: Config, q: Queue, now: int, due: seq<Member>, n: nat)
    requires Agreeing(c, q) && DistinctDue(q.index, now, due) && n < |due|
    ensures due[n].score <= now && due[n].key in q.index
    ensures due[n].key in q.store ==> q.store[due[n].key].nextRetryAt <= now
  {
  }

  lemma DeliveriesGrow(store: Payloads, due: seq<Member>, n: nat)
    requires n < |due|
    ensures Deliveries(store, due, n + 1) == Deliveries(store, due, n) + [Deliveries(store, due, n + 1)[n]]
  {
  }

  lemma DrainedGrows(c: Config, q: Queue, due: seq<Member>, attempts: seq<Attempt>, n: nat)
    requires n < |due| == |attempts|
    ensures var d, d' := Drained(c, q, due, attempts, n), Drained(c, q, due, attempts, n + 1);
            var x := d'.delivered[n];
            && d'.delivered == d.delivered + [x]
            && d'.q.writes == d.q.writes + Rescheduled(c, x, attempts[n])
            && d'.q.deadLetters == d.q.deadLetters + GivenUp(c, x, attempts[n])
  {
    var d, d' := Drained(c, q, due, attempts, n), Drained(c, q, due, attempts, n + 1);
    DeliveriesGrow(q.store, due, n);
    var x := d'.delivered[n];
    OneMoreDelivery(c, d.delivered, attempts, x);
    Associate(q.writes, AllRescheduled(c, d.delivered, attempts), Rescheduled(c, x, attempts[n]));
    Associate(q.deadLetters, AllGivenUp(c, d.delivered, attempts), GivenUp(c, x, attempts[n]));
  }

  lemma Associate<T>(a: seq<T>, b: seq<T>, c: seq<T>)
    ensures a + (b + c) == (a + b) + c
  {
  }

  lemma DrainedStep(c: Config, q: Queue, now: int, due: seq<Member>, attempts: seq<Attempt>, n: nat)
    requires n < |due| == |attempts|
    requires forall j, k | 0 <= j < k < |due| :: due[j].key != due[k].key
    requires due[n].score <= now && due[n].key in q.index
    requires due[n].key in q.store ==> q.store[due[n].key].nextRetryAt <= now
    ensures var d, d' := Drained(c, q, due, attempts, n), Drained(c, q, due, attempts, n + 1);
            MemberStep(c, d.q, now, due[n], attempts[n]) == (d'.q, d'.delivered[n], false)
  {
    var d := Drained(c, q, due, attempts, n);
    OneMoreKey(q.index, due, n);
    OneMoreKey(q.store, due, n);
    DrainedGrows(c, q, due, attempts, n);
    DueMemberStep(c, d.q, now, due[n], attempts[n]);
  }

  /**
    A drain whose batch came from its own index delivers every due payload, lowest score first, and
    removes exactly the batch from index and store; each delivery that throws is rescheduled or given
    up. The ways out that would leave due items behind are never taken.
  */
  lemma {:induction false} DrainDeliversAll(
    c: Config, q: Queue, now: int, due: seq<Member>, attempts: seq<Attempt>, n: nat)
    requires Agreeing(c, q) && DistinctDue(q.index, now, due) && n <= |due| == |attempts|
    ensures DrainSteps(c, q, now, due, attempts, n) == Drained(c, q, due, attempts, n)
  {
    if n == 0 {
      assert q.store - {} == q.store && q.index - {} == q.index;
    } else {
      DrainDeliversAll(c, q, now, due, attempts, n - 1);
      DueFacts(c, q, now, due, n - 1);
      DrainedStep(c, q, now, due, attempts, n - 1);
      DrainedGrows(c, q, due, attempts, n - 1);
    }
  }

  /** With an agreeing store, a drain delivers the due payloads and leaves an agreeing store. */
  lemma UndisturbedDrain(c: Config, q: Queue, now: int, due: seq<Member>, attempts: seq<Attempt>)
    requires Agreeing(c, q) && IsDueBatch(q.index, now, due) && |due| == |attempts|
    ensures var d := DrainSteps(c, q, now, due, attempts, |due|);
            d.delivered == Deliveries(q.store, due, |due|) && Agreeing(c, d.q)
  {
    DueBatchIsDistinct(q.index, now, due);
    DrainDeliversAll(c, q, now, due, attempts, |due|);
  }

  // What is issued, told by positions --------------------------------------------------------------

  /** A redelivery that threw and has a retry left. */
  predicate Retries(c: Config, d: Option<Item>, a: Attempt) {
    d.Some? && Throws in a.results && d.value.id.attempt < |c.retryDelaysMs|
  }

  /** A redelivery that threw and was the last. */
  predicate Dies(c: Config, d: Option<Item>, a: Attempt) {
    d.Some? && Throws in a.results && d.value.id.attempt >= |c.retryDelaysMs|
  }

  /**
    at[i] entries are issued before position i: one new item for each position that retries, in order,
    with the next attempt and due that attempt's own delay after the clock of the throw.
  */
  ghost predicate IssuesRetries(c: Config, ds: seq<Option<Item>>, attempts: seq<Attempt>, at: seq<nat>,
                                issued: seq<Item>)
    requires |ds| <= |attempts|
  {
    && |at| == |ds| + 1 && at[0] == 0 && |issued| == at[|ds|]
    && forall i | 0 <= i < |ds| ::
         if Retries(c, ds[i], attempts[i]) then
           && at[i] < |issued| && at[i + 1] == at[i] + 1
           && issued[at[i]] == Item(Id(ds[i].value.id.root, ds[i].value.id.attempt + 1),
                                    attempts[i].clock + c.retryDelaysMs[ds[i].value.id.attempt])
         else at[i + 1] == at[i]
  }

  /** The same for the positions that die: one dead letter each. */
  ghost predicate IssuesDeaths(c: Config, ds: seq<Option<Item>>, attempts: seq<Attempt>, at: seq<nat>, issued: seq<Id>)
    requires |ds| <= |attempts|
  {
    && |at| == |ds| + 1 && at[0] == 0 && |issued| == at[|ds|]
    && forall i | 0 <= i < |ds| ::
         if Dies(c, ds[i], attempts[i]) then
           && at[i] < |issued| && at[i + 1] == at[i] + 1
           && issued[at[i]] == Id(ds[i].value.id.root, ds[i].value.id.attempt + 1)
         else at[i + 1] == at[i]
  }

  lemma ThrowsIff(a: Attempt)
    ensures Fails(a) <==> Throws in a.results
  {
  }

  lemma RescheduledIs(c: Config, d: Option<Item>, a: Attempt)
    ensures Rescheduled(c, d, a) ==
            if Retries(c, d, a)
            then [Item(Id(d.value.id.root, d.value.id.attempt + 1), a.clock + c.retryDelaysMs[d.value.id.attempt])]
            else []
    ensures GivenUp(c, d, a) == if Dies(c, d, a) then [Id(d.value.id.root, d.value.id.attempt + 1)] else []
  {
    ThrowsIff(a);
  }

  lemma OneMoreRetry(c: Config, ds: seq<Option<Item>>, attempts: seq<Attempt>, d: Option<Item>, at: seq<nat>,
                     issued: seq<Item>)
    requires |ds| < |attempts| && IssuesRetries(c, ds, attempts, at, issued)
    ensures var n := at[|ds|] + if Retries(c, d, attempts[|ds|]) then 1 else 0;
            IssuesRetries(c, ds + [d], attempts, at + [n], issued + Rescheduled(c, d, attempts[|ds|]))
  {
    RescheduledIs(c, d, attempts[|ds|]);
  }

  lemma OneMoreDeath(c: Config, ds: seq<Option<Item>>, attempts: seq<Attempt>, d: Option<Item>, at: seq<nat>,
                     issued: seq<Id>)
    requires |ds| < |attempts| && IssuesDeaths(c, ds, attempts, at, issued)
    ensures var n := at[|ds|] + if Dies(c, d, attempts[|ds|]) then 1 else 0;
            IssuesDeaths(c, ds + [d], attempts, at + [n], issued + GivenUp(c, d, attempts[|ds|]))
  {
    RescheduledIs(c, d, attempts[|ds|]);
  }

  /** Each delivery that throws has its own retry or dead letter, and nothing else is issued. */
  lemma {:induction false} DeliveriesIssue(c: Config, ds: seq<Option<Item>>, attempts: seq<Attempt>)
      returns (rs: seq<nat>, gs: seq<nat>)
    requires |ds| <= |attempts|
    ensures IssuesRetries(c, ds, attempts, rs, AllRescheduled(c, ds, attempts))
    ensures IssuesDeaths(c, ds, attempts, gs, AllGivenUp(c, ds, attempts))
  {
    if ds == [] {
      rs, gs := [0], [0];
    } else {
      var n := |ds| - 1;
      rs, gs := DeliveriesIssue(c, ds[..n], attempts);
      OneMoreRetry(c, ds[..n], attempts, ds[n], rs, AllRescheduled(c, ds[..n], attempts));
      OneMoreDeath(c, ds[..n], attempts, ds[n], gs, AllGivenUp(c, ds[..n], attempts));
      assert ds[..n] + [ds[n]] == ds;
      rs := rs + [rs[n] + if Retries(c, ds[n], attempts[n]) then 1 else 0];
      gs := gs + [gs[n] + if Dies(c, ds[n], attempts[n]) then 1 else 0];
    }
  }

  /** Whatever the store, a drain issues what its deliveries call for. */
  lemma {:induction false} DrainIssues(c: Config, q: Queue, now: int, due: seq<Member>, attempts: seq<Attempt>, n: nat)
    requires n <= |due| == |attempts|
    ensures var d := DrainSteps(c, q, now, due, attempts, n);
            && |d.delivered| <= n && (!d.stopped ==> |d.delivered| == n)
            && d.q.writes == q.writes + AllRescheduled(c, d.delivered, attempts)
            && d.q.deadLetters == q.deadLetters + AllGivenUp(c, d.delivered, attempts)
  {
    if n == 0 {
      assert q.writes + [] == q.writes && q.deadLetters + [] == q.deadLetters;
    } else {
      DrainIssues(c, q, now, due, attempts, n - 1);
      var d := DrainSteps(c, q, now, due, attempts, n - 1);
      if !d.stopped {
        var (q', x, stop) := MemberStep(c, d.q, now, due[n - 1], attempts[n - 1]);
        OneMoreDelivery(c, d.delivered, attempts, x);
        MemberIssues(c, d.q, now, due[n - 1], attempts[n - 1]);
        Associate(q.writes, AllRescheduled(c, d.delivered, attempts), Rescheduled(c, x, attempts[n - 1]));
        Associate(q.deadLetters, AllGivenUp(c, d.delivered, attempts), GivenUp(c, x, attempts[n - 1]));
      }
    }
  }

  lemma MemberIssues(c: Config, q: Queue, now: int, m: Member, a: Attempt)
    ensures var (q', x, _) := MemberStep(c, q, now, m, a);
            q'.writes == q.writes + Rescheduled(c, x, a) && q'.deadLetters == q.deadLetters + GivenUp(c, x, a)
  {
    assert q.writes + [] == q.writes && q.deadLetters + [] == q.deadLetters;
  }

  // A first delivery -----------------------------------------------------------------------------

  /** scheduleRetry. */
  function Scheduled(c: Config, q: Queue, id: Id, clock: int): Queue
    requires id.attempt >= 1
  {
    if id.attempt > MaxRetries(c) then q.(deadLetters := q.deadLetters + [id])
    else q.(writes := q.writes + [Item(id, clock + DelayMs(c, id.attempt))])
  }

  /** One handler has been called. */
  function Called(c: Config, q: Queue, root: nat, r: HandlerResult, clock: int): (Queue, nat) {
    if r == Throws then (Scheduled(c, q, Id(root, 1), clock), root + 1) else (q, root)
  }

  /** The queue and the next free root once the first n handlers have been called. */
  function Dispatched(c: Config, q: Queue, root: nat, results: seq<HandlerResult>, clocks: seq<int>, n: nat)
      : (Queue, nat)
    requires n <= |results| == |clocks|
  {
    if n == 0 then (q, root)
    else
      var (q', root') := Dispatched(c, q, root, results, clocks, n - 1);
      Called(c, q', root', results[n - 1], clocks[n - 1])
  }

  /** at[i] of the handlers before position i throw. */
  ghost predicate CountsThrows(at: seq<nat>, results: seq<HandlerResult>) {
    && |at| == |results| + 1 && at[0] == 0
    && forall i | 0 <= i < |results| :: at[i + 1] == at[i] + if results[i] == Throws then 1 else 0
  }

  /** One new chain for each handler that throws, in handler order, each with a root of its own. */
  ghost predicate StartsChains(c: Config, root: nat, results: seq<HandlerResult>, clocks: seq<int>, at: seq<nat>,
                               issued: seq<Item>)
    requires CountsThrows(at, results) && |clocks| == |results| && |c.retryDelaysMs| > 0
  {
    && |issued| == at[|results|]
    && forall i | 0 <= i < |results| && results[i] == Throws ::
         at[i] < |issued| && issued[at[i]] == Item(Id(root + at[i], 1), clocks[i] + c.retryDelaysMs[0])
  }

  /** The first step of each chain, given up. */
  ghost predicate StartsDead(root: nat, n: nat, issued: seq<Id>) {
    |issued| == n && forall k | 0 <= k < n :: issued[k] == Id(root + k, 1)
  }

  /** What the first n handlers' throws have added to the queue. */
  ghost predicate DispatchAdds(c: Config, q: Queue, q': Queue, root: nat, results: seq<HandlerResult>, clocks: seq<int>,
                               at: seq<nat>)
    requires |clocks| == |results|
  {
    && CountsThrows(at, results) && q.writes <= q'.writes && q.deadLetters <= q'.deadLetters
    && q'.store == q.store && q'.index == q.index
    && if |c.retryDelaysMs| > 0
       then StartsChains(c, root, results, clocks, at, q'.writes[|q.writes|..]) && q'.deadLetters == q.deadLetters
       else StartsDead(root, at[|results|], q'.deadLetters[|q.deadLetters|..]) && q'.writes == q.writes
  }

  lemma DispatchAddsOne(c: Config, q: Queue, q': Queue, root: nat, results: seq<HandlerResult>, clocks: seq<int>,
                        at: seq<nat>, r: HandlerResult, clock: int)
    requires |clocks| == |results| && DispatchAdds(c, q, q', root, results, clocks, at)
    ensures var n := at[|results|];
            var q'' := if r == Throws then Scheduled(c, q', Id(root + n, 1), clock) else q';
            DispatchAdds(c, q, q'', root, results + [r], clocks + [clock], at + [n + if r == Throws then 1 else 0])
  {
    var n := at[|results|];
    var q'' := if r == Throws then Scheduled(c, q', Id(root + n, 1), clock) else q';
    if r == Throws {
      if |c.retryDelaysMs| > 0 {
        var item := Item(Id(root + n, 1), clock + c.retryDelaysMs[0]);
        assert q''.writes[|q.writes|..] == q'.writes[|q.writes|..] + [item];
      } else {
        assert q''.deadLetters[|q.deadLetters|..] == q'.deadLetters[|q.deadLetters|..] + [Id(root + n, 1)];
      }
    }
  }

  lemma NothingDispatched(c: Config, q: Queue, root: nat)
    ensures DispatchAdds(c, q, q, root, [], [], [0])
  {
    assert q.writes[|q.writes|..] == [] && q.deadLetters[|q.deadLetters|..] == [];
  }

  /** Each handler that throws starts a chain, or is given up if there are no retries; nothing else is added. */
  lemma {:induction false} DispatchIssues(c: Config, q: Queue, root: nat, results: seq<HandlerResult>, clocks: seq<int>,
                                          n: nat) returns (at: seq<nat>)
    requires n <= |results| == |clocks|
    ensures var (q', root') := Dispatched(c, q, root, results, clocks, n);
            DispatchAdds(c, q, q', root, results[..n], clocks[..n], at) && root' == root + at[n]
  {
    if n == 0 {
      at := [0];
      NothingDispatched(c, q, root);
    } else {
      at := DispatchIssues(c, q, root, results, clocks, n - 1);
      var (q', root') := Dispatched(c, q, root, results, clocks, n - 1);
      DispatchAddsOne(c, q, q', root, results[..n - 1], clocks[..n - 1], at, results[n - 1], clocks[n - 1]);
      assert results[..n - 1] + [results[n - 1]] == results[..n] && clocks[..n - 1] + [clocks[n - 1]] == clocks[..n];
      at := at + [at[n - 1] + if results[n - 1] == Throws then 1 else 0];
    }
  }

  /** What a drain has added to the queue: the retries and dead letters of its own deliveries. */
  ghost predicate DrainAdds(c: Config, q: Queue, q': Queue, ds: seq<Option<Item>>, attempts: seq<Attempt>)
    requires |ds| <= |attempts|
  {
    && q.writes <= q'.writes && q.deadLetters <= q'.deadLetters
    && (exists rs :: IssuesRetries(c, ds, attempts, rs, q'.writes[|q.writes|..]))
    && (exists gs :: IssuesDeaths(c, ds, attempts, gs, q'.deadLetters[|q.deadLetters|..]))
  }

  lemma DrainAddsItsOwn(c: Config, q: Queue, now: int, due: seq<Member>, attempts: seq<Attempt>)
    requires |due| == |attempts|
    ensures var d := DrainSteps(c, q, now, due, attempts, |due|);
            |d.delivered| <= |due| && DrainAdds(c, q, d.q, d.delivered, attempts)
  {
    DrainIssues(c, q, now, due, attempts, |due|);
    var d := DrainSteps(c, q, now, due, attempts, |due|);
    var rs, gs := DeliveriesIssue(c, d.delivered, attempts);
    assert d.q.writes[|q.writes|..] == AllRescheduled(c, d.delivered, attempts);
    assert d.q.deadLetters[|q.deadLetters|..] == AllGivenUp(c, d.delivered, attempts);
  }

  ghost predicate LosesBatch<V>(before: map<Key, V>, after: map<Key, V>, due: seq<Member>) {
    && (forall i | 0 <= i < |due| :: due[i].key !in after)
    && (forall k | k in after :: k in before && after[k] == before[k])
    && (forall k | k in before && k !in after :: exists i | 0 <= i < |due| :: due[i].key == k)
  }

  lemma WithoutKeys<V>(before: map<Key, V>, due: seq<Member>)
    ensures LosesBatch(before, before - Keys(due, |due|), due)
  {
    forall i | 0 <= i < |due| ensures due[i].key in Keys(due, |due|) {
    }
  }

  /** The batch is off the queue, and nothing else is. */
  ghost predicate TakesBatch(q: Queue, q': Queue, due: seq<Member>, delivered: seq<Option<Item>>) {
    && |delivered| == |due|
    && (forall i | 0 <= i < |due| ::
          delivered[i] == if due[i].key in q.store then Some(q.store[due[i].key]) else None)
    && LosesBatch(q.store, q'.store, due) && LosesBatch(q.index, q'.index, due)
  }

  lemma TakesItsBatch(c: Config, q: Queue, now: int, due: seq<Member>, attempts: seq<Attempt>)
    requires Agreeing(c, q) && IsDueBatch(q.index, now, due) && |due| == |attempts|
    ensures var d := DrainSteps(c, q, now, due, attempts, |due|);
            TakesBatch(q, d.q, due, d.delivered) && Agreeing(c, d.q)
  {
    DueBatchIsDistinct(q.index, now, due);
    DrainDeliversAll(c, q, now, due, attempts, |due|);
    UndisturbedDrain(c, q, now, due, attempts);
    WithoutKeys(q.store, due);
    WithoutKeys(q.index, due);
  }

  /** A drain whose batch was not full leaves nothing due on the index. */
  lemma NothingDueIsLeft(c: Config, q: Queue, now: int, due: seq<Member>, attempts: seq<Attempt>)
    requires Agreeing(c, q) && IsDueBatch(q.index, now, due) && |due| == |attempts| && |due| < 64
    ensures var q' := DrainSteps(c, q, now, due, attempts, |due|).q;
            forall k | k in q'.index :: now < k.at == q'.index[k]
  {
    TakesItsBatch(c, q, now, due, attempts);
  }

  /**
    What a drain does, whatever the store: one write or dead letter for each delivery in which a handler throws,
    and nothing else. And if the store agrees, each due member is delivered and its key taken off, all other
    keys stay, and the store still agrees.
  */
  lemma DrainKeepsItsWord(c: Config, q: Queue, now: int, due: seq<Member>, attempts: seq<Attempt>)
    requires IsDueBatch(q.index, now, due) && |due| == |attempts|
    ensures var d := DrainSteps(c, q, now, due, attempts, |due|);
            && |d.delivered| <= |due| && DrainAdds(c, q, d.q, d.delivered, attempts)
            && (Agreeing(c, q) ==> TakesBatch(q, d.q, due, d.delivered) && Agreeing(c, d.q))
  {
    DrainAddsItsOwn(c, q, now, due, attempts);
    if Agreeing(c, q) {
      TakesItsBatch(c, q, now, due, attempts);
    }
  }

  class RetryQueue {
    const config: Config
    var handlers: seq<nat>
    var store: Payloads
    var index: map<Key, int>
    var writes: seq<Item>
    var deadLetters: seq<Id>
    var roots: nat

    function View(): Queue
      reads this
    {
      Queue(store, index, writes, deadLetters)
    }

    constructor (config: Config)
      ensures this.config == config && handlers == [] && roots == 0
      ensures View() == Queue(map[], map[], [], []) && Agreeing(config, View())
    {
      this.config := config;
      handlers, store, index, writes, deadLetters, roots := [], map[], map[], [], [], 0;
    }

    method Subscribe(handler: nat)
      modifies this`handlers
      ensures handlers == old(handlers) + [handler]
    {
      handlers := handlers + [handler];
    }

    /** The function `subscribe` returns: removes the first occurrence of the handler, if it is still there. */
    method Unsubscribe(handler: nat)
      modifies this`handlers
      ensures handler !in old(handlers) ==> handlers == old(handlers)
      ensures handler in old(handlers) ==> exists i | 0 <= i < |old(handlers)| ::
                old(handlers)[i] == handler && handler !in old(handlers)[..i]
                && handlers == old(handlers)[..i] + old(handlers)[i + 1..]
    {
      var i := 0;
      while i < |handlers| && handlers[i] != handler
        invariant i <= |handlers| && handler !in handlers[..i]
      {
        i := i + 1;
      }
      if i < |handlers| {
        handlers := handlers[..i] + handlers[i + 1..];
      }
    }

    /** Issues the Redis transaction, or the dead-letter push once the attempts are spent. */
    method ScheduleRetry(id: Id, clock: int)
      requires id.attempt >= 1
      modifies this`writes, this`deadLetters
      ensures id.attempt > MaxRetries(config) ==> writes == old(writes) && deadLetters == old(deadLetters) + [id]
      ensures id.attempt <= MaxRetries(config) ==>
                deadLetters == old(deadLetters)
                && writes == old(writes) + [Item(id, clock + config.retryDelaysMs[id.attempt - 1])]
    {
      if id.attempt > MaxRetries(config) {
        deadLetters := deadLetters + [id];
        return;
      }
      // The source's fallback to the last delay is for attempts past the end, which were just excluded.
      var delayMs := config.retryDelaysMs[id.attempt - 1];
      writes := writes + [Item(id, clock + delayMs)];
    }

    /**
      First delivery: every handler is called, and each one that throws starts its own chain of retries.
      `clocks[i]` is what the clock reads if handler i throws.
    */
    method Dispatch(results: seq<HandlerResult>, clocks: seq<int>)
      requires |results| == |clocks| == |handlers|
      modifies this`writes, this`deadLetters, this`roots
      ensures exists at :: DispatchAdds(config, old(View()), View(), old(roots), results, clocks, at)
                           && roots == old(roots) + at[|results|]
      ensures (View(), roots) == Dispatched(config, old(View()), old(roots), results, clocks, |results|)
    {
      for i := 0 to |handlers|
        invariant (View(), roots) == Dispatched(config, old(View()), old(roots), results, clocks, i)
      {
        if results[i] == Throws {
          ScheduleRetry(Id(roots, 1), clocks[i]);
          roots := roots + 1;
        }
      }
      ghost var at := DispatchIssues(config, old(View()), old(roots), results, clocks, |results|);
      assert results[..|handlers|] == results && clocks[..|handlers|] == clocks;
    }

    /** A redelivery: the handlers run from the first one again, until one throws. */
    method RunHandlers(a: Attempt) returns (threw: bool, ran: nat)
      requires |a.results| == |handlers|
      ensures threw <==> Throws in a.results
      ensures threw <==> Fails(a)
      ensures ran == if threw then FirstThrow(a.results) + 1 else |handlers|
    {
      ran := 0;
      while ran < |handlers|
        invariant ran <= |handlers| && FirstThrow(a.results) >= ran
      {
        ran := ran + 1;
        if a.results[ran - 1] == Throws { return true, ran; }
      }
      threw := false;
    }

    /** See MemberKeepsItsWord. */
    method DrainMember(now: int, m: Member, a: Attempt) returns (delivered: Option<Item>, stop: bool)
      requires |a.results| == |handlers|
      modifies this`store, this`index, this`writes, this`deadLetters
      ensures (View(), delivered, stop) == MemberStep(config, old(View()), now, m, a)
    {
      delivered, stop := None, false;
      if m.score > now { return; }
      if m.key !in index { return; }
      index := index - {m.key};
      if m.key !in store { return; }
      var queued := store[m.key];
      store := store - {m.key};
      if queued.nextRetryAt > now {
        index, stop := index[m.key := queued.nextRetryAt], true;
        return;
      }
      delivered := Some(queued);
      var threw, _ := RunHandlers(a);
      if threw {
        ScheduleRetry(Following(queued.id), a.clock);
      }
      assert old(writes) + [] == old(writes) && old(deadLetters) + [] == old(deadLetters);
    }

    /**
      One drain with no other client in between; `due` is Redis's answer to the range query. What it delivers
      and adds is said by DrainKeepsItsWord.
    */
    method DrainOnce(now: int, due: seq<Member>, attempts: seq<Attempt>) returns (delivered: seq<Option<Item>>)
      requires IsDueBatch(index, now, due) && |attempts| == |due|
      requires forall i | 0 <= i < |due| :: |attempts[i].results| == |handlers|
      modifies this`store, this`index, this`writes, this`deadLetters
      ensures var d := DrainSteps(config, old(View()), now, due, attempts, |due|);
              View() == d.q && delivered == d.delivered
    {
      ghost var q := View();
      delivered := [];
      var i, stop := 0, false;
      while i < |due| && !stop
        invariant i <= |due|
        invariant Drain(View(), delivered, stop) == DrainSteps(config, q, now, due, attempts, i)
      {
        var d;
        d, stop := DrainMember(now, due[i], attempts[i]);
        delivered, i := delivered + [d], i + 1;
      }
      if stop {
        StoppedStays(config, q, now, due, attempts, i, |due|);
      }
    }
  }

  /** Deliveries happen in order of due time. */
  lemma DeliveredInOrder(store: Payloads, index: map<Key, int>, now: int, due: seq<Member>, i: nat, j: nat)
    requires IsDueBatch(index, now, due) && i < j < |due|
    requires forall k | k in store :: TierKey(store[k]) == k
    requires forall k | k in index :: index[k] == k.at
    ensures var ds := Deliveries(store, due, |due|);
            ds[i].Some? && ds[j].Some? ==> ds[i].value.nextRetryAt <= ds[j].value.nextRetryAt <= now
  {
    assert due[i].score <= due[j].score;
  }
}
