/**
  One tick of an outbox processor, run on its own: the chunked task runner, the counters it reports and
  the rows it changes (src/common/outbox/base-outbox-processor.ts, runWithConcurrency and
  runProcessPendingEvents).
*/
module ConcurrentTasks {
  import opened Prelude

  /** Indices of tasks starting and finishing. */
  datatype TaskEvent = Started(i: nat) | Finished(i: nat)

  function InFlight(log: seq<TaskEvent>): set<nat> {
    if log == [] then {}
    else
      var before, e := InFlight(log[..|log| - 1]), log[|log| - 1];
      if e.Started? then before + {e.i} else before - {e.i}
  }

  /** The most tasks that were in flight at any moment. */
  function Peak(log: seq<TaskEvent>): nat {
    if log == [] then 0
    else
      var before, now := Peak(log[..|log| - 1]), |InFlight(log)|;
      if now > before then now else before
  }

  function Starts(log: seq<TaskEvent>): seq<nat> {
    if log == [] then []
    else
      var e := log[|log| - 1];
      Starts(log[..|log| - 1]) + if e.Started? then [e.i] else []
  }

  function Finishes(log: seq<TaskEvent>): seq<nat> {
    if log == [] then []
    else
      var e := log[|log| - 1];
      Finishes(log[..|log| - 1]) + if e.Finished? then [e.i] else []
  }

  ghost predicate Below(s: seq<nat>, n: nat) {
    forall i | 0 <= i < |s| :: s[i] < n
  }

  ghost predicate CountsUpTo(s: seq<nat>, n: nat) {
    |s| == n && forall i | 0 <= i < n :: s[i] == i
  }

  /** Every number below n, once. */
  ghost predicate IsPermutation(s: seq<nat>, n: nat) {
    |s| == n && Distinct(s) && Below(s, n)
  }

  function Interval(lo: nat, hi: nat): (r: set<nat>)
    requires lo <= hi
    ensures |r| == hi - lo
    ensures forall k :: k in r <==> lo <= k < hi
    decreases hi
  {
    if lo == hi then {} else Interval(lo, hi - 1) + {hi - 1}
  }

  /** n different numbers below n are all of them. */
  lemma PermutationIsOnto(s: seq<nat>, n: nat, k: nat)
    requires IsPermutation(s, n) && k < n
    ensures k in s
  {
    DistinctSize(s);
    SubsetSize(Elements(s), Interval(0, n));
    assert k in Elements(s);
  }

  /** The state after the tasks' effects, in the order they finished. */
  function Fold<S, T>(effect: (S, T) -> S, s: S, items: seq<T>, order: seq<nat>): S
    requires Below(order, |items|)
  {
    if order == [] then s
    else effect(Fold(effect, s, items, order[..|order| - 1]), items[order[|order| - 1]])
  }

  lemma FoldStep<S, T>(effect: (S, T) -> S, s: S, items: seq<T>, order: seq<nat>, k: nat)
    requires k < |items| && Below(order, |items|)
    ensures Below(order + [k], |items|)
    ensures Fold(effect, s, items, order + [k]) == effect(Fold(effect, s, items, order), items[k])
  {
    assert (order + [k])[..|order|] == order;
  }

  /** The first n tasks have started in order, those below `lo` and some others have finished, `open` are running. */
  ghost predicate LogOk(log: seq<TaskEvent>, n: nat, open: set<nat>, limit: nat) {
    && InFlight(log) == open && Peak(log) <= limit && CountsUpTo(Starts(log), n)
    && |Finishes(log)| + |open| == n && Distinct(Finishes(log)) && Below(Finishes(log), n)
    && (forall i | 0 <= i < |Finishes(log)| :: Finishes(log)[i] !in open) && forall k | k in open :: k < n
  }

  lemma StartStep(log: seq<TaskEvent>, n: nat, open: set<nat>, limit: nat)
    requires LogOk(log, n, open, limit) && |open| < limit
    ensures LogOk(log + [Started(n)], n + 1, open + {n}, limit)
    ensures Finishes(log + [Started(n)]) == Finishes(log)
  {
    assert (log + [Started(n)])[..|log|] == log;
  }

  lemma FinishStep(log: seq<TaskEvent>, n: nat, open: set<nat>, limit: nat, k: nat)
    requires LogOk(log, n, open, limit) && k in open
    ensures LogOk(log + [Finished(k)], n, open - {k}, limit)
    ensures Finishes(log + [Finished(k)]) == Finishes(log) + [k]
  {
    var log' := log + [Finished(k)];
    assert log'[..|log|] == log;
    assert |open| <= limit by {
      PeakBounds(log);
    }
  }

  lemma PeakBounds(log: seq<TaskEvent>)
    ensures |InFlight(log)| <= Peak(log)
  {
    if log == [] {
    } else {
    }
  }

  /** chunk.map(fn): every task of the chunk starts. */
  method StartAll(log: seq<TaskEvent>, lo: nat, hi: nat, limit: nat) returns (log': seq<TaskEvent>)
    requires LogOk(log, lo, {}, limit) && lo <= hi <= lo + limit
    ensures LogOk(log', hi, Interval(lo, hi), limit) && Finishes(log') == Finishes(log)
  {
    log' := log;
    var k := lo;
    while k < hi
      invariant lo <= k <= hi && LogOk(log', k, Interval(lo, k), limit) && Finishes(log') == Finishes(log)
    {
      StartStep(log', k, Interval(lo, k), limit);
      log', k := log' + [Started(k)], k + 1;
    }
  }

  /** await Promise.all: the tasks of the chunk finish one after another, in whatever order. */
  method FinishAll<S, T>(items: seq<T>, lo: nat, hi: nat, limit: nat, effect: (S, T) -> S,
                         ghost start: S, state: S, log: seq<TaskEvent>)
      returns (state': S, log': seq<TaskEvent>)
    requires lo <= hi <= |items| && LogOk(log, hi, Interval(lo, hi), limit)
    requires state == Fold(effect, start, items, Finishes(log))
    ensures LogOk(log', hi, {}, limit) && state' == Fold(effect, start, items, Finishes(log'))
  {
    state', log' := state, log;
    var left := Interval(lo, hi);
    while left != {}
      invariant LogOk(log', hi, left, limit)
      invariant state' == Fold(effect, start, items, Finishes(log'))
      decreases left
    {
      var k :| k in left;
      FinishStep(log', hi, left, limit, k);
      FoldStep(effect, start, items, Finishes(log'), k);
      log', left, state' := log' + [Finished(k)], left - {k}, effect(state', items[k]);
    }
  }

  /** results[i + j] = chunkResults[j], where Promise.all lists the chunk's results in order. */
  method StoreChunk<T, R>(results: array<R>, items: seq<T>, i: nat, end: nat, fn: T -> R)
    requires i <= end <= |items| == results.Length
    requires forall k | 0 <= k < i :: results[k] == fn(items[k])
    modifies results
    ensures forall k | 0 <= k < end :: results[k] == fn(items[k])
  {
    var j := 0;
    while j < end - i
      invariant 0 <= j <= end - i && forall k | 0 <= k < i + j :: results[k] == fn(items[k])
    {
      results[i + j] := fn(items[i + j]);
      j := j + 1;
    }
  }

  /**
    Chunks of at most `limit` tasks; a chunk starts when the one before it is complete. Each task
    computes fn(item) and has an effect on shared state when it finishes, in any order within its chunk.
    The log is the model's own record of what happened when.
  */
  method RunWithConcurrency<S, T, R(0)>(items: seq<T>, limit: nat, fn: T -> R, effect: (S, T) -> S, state: S)
      returns (results: array<R>, state': S, log: seq<TaskEvent>)
    requires limit > 0 || items == []
    ensures fresh(results) && results.Length == |items|
    ensures forall k | 0 <= k < |items| :: results[k] == fn(items[k])
    ensures CountsUpTo(Starts(log), |items|) && IsPermutation(Finishes(log), |items|)
    ensures InFlight(log) == {} && Peak(log) <= limit
    ensures state' == Fold(effect, state, items, Finishes(log))
  {
    results, state', log := new R[|items|], state, [];
    var i := 0;
    while i < |items|
      invariant 0 <= i && fresh(results)
      invariant forall k | 0 <= k < i && k < |items| :: results[k] == fn(items[k])
      invariant LogOk(log, if i < |items| then i else |items|, {}, limit)
      invariant state' == Fold(effect, state, items, Finishes(log))
      decreases |items| - i
    {
      var end := if i + limit <= |items| then i + limit else |items|;
      log := StartAll(log, i, end, limit);
      state', log := FinishAll(items, i, end, limit, effect, state, state', log);
      StoreChunk(results, items, i, end, fn);
      i := i + limit;
    }
  }
}

module OutboxTicks {
  import opened Prelude
  import opened Outboxes
  import opened ConcurrentTasks

  datatype Counters = Counters(
    scanned: nat, processed: nat, failed: nat, retried: nat, movedToDlq: nat, idempotencyConflicts: nat)

  /** What a task of the tick writes: markProcessed, unless the dispatch failed for real. */
  function MarkUnlessFailed(table: Table, id: EventId, o: DispatchOutcome, now: int): Table {
    if !o.Fails? && id in table then table[id := MarkProcessed(table[id], now)] else table
  }

  /** Where one claimed row ends up. */
  function Settled(c: Config, r: Row, now: int, o: DispatchOutcome): Row {
    if o.Fails? then HandleFailure(c, r, r.attemptCount, Failure(now, o.deterministic, o.error))
    else MarkProcessed(r, now)
  }

  type Outcomes = EventId -> DispatchOutcome

  /** The table with the rows of `done` settled and the others untouched. */
  ghost predicate SettledTable(c: Config, before: Table, after: Table, now: int, outcome: Outcomes,
                               done: set<EventId>) {
    && after.Keys == before.Keys
    && forall id | id in before ::
         after[id] == if id in done then Settled(c, before[id], now, outcome(id)) else before[id]
  }

  /** The rows SELECT ... FOR UPDATE SKIP LOCKED may return: at most batchSize pending ones. */
  ghost predicate IsSelection(c: Config, table: Table, now: int, rows: seq<EventId>) {
    && |rows| <= c.batchSize && Distinct(rows)
    && forall i | 0 <= i < |rows| :: rows[i] in table && Pending(table[rows[i]], now)
  }

  function Ids(rows: seq<EventId>, i: nat): set<EventId>
    requires i <= |rows|
  {
    set id | id in rows[..i]
  }

  lemma IdsStep(rows: seq<EventId>, i: nat)
    requires i < |rows|
    ensures Ids(rows, i + 1) == Ids(rows, i) + {rows[i]}
    ensures Distinct(rows) ==> rows[i] !in Ids(rows, i)
  {
    assert rows[..i + 1] == rows[..i] + [rows[i]];
  }

  // Which claimed rows move where ------------------------------------------------------------------

  function Done(rows: seq<EventId>, outcome: Outcomes): set<EventId> {
    set id | id in rows && !outcome(id).Fails?
  }

  function Conflicts(rows: seq<EventId>, outcome: Outcomes): set<EventId> {
    set id | id in rows && outcome(id).IdempotencyConflict?
  }

  function Dead(c: Config, before: Table, rows: seq<EventId>, outcome: Outcomes): set<EventId> {
    set id | id in rows && id in before && outcome(id).Fails?
             && (outcome(id).deterministic || before[id].attemptCount >= c.maxRetries)
  }

  function Again(c: Config, before: Table, rows: seq<EventId>, outcome: Outcomes): set<EventId> {
    set id | id in rows && outcome(id).Fails? && id !in Dead(c, before, rows, outcome)
  }

  ghost predicate MovedToProcessed(before: Table, after: Table, id: EventId) {
    id in before && id in after && before[id].processedAt == None && after[id].processedAt != None
  }

  ghost predicate MovedToDlq(before: Table, after: Table, id: EventId) {
    id in before && id in after && before[id].failedAt == None && after[id].failedAt != None
  }

  ghost predicate Rescheduled(before: Table, after: Table, id: EventId) {
    id in before && id in after && Unfinished(after[id]) && after[id].attemptCount == before[id].attemptCount + 1
  }

  /** How many of the first i rows are in a set. */
  function Count(rows: seq<EventId>, want: set<EventId>, i: nat): nat
    requires i <= |rows|
  {
    if i == 0 then 0 else Count(rows, want, i - 1) + (if rows[i - 1] in want then 1 else 0)
  }

  function Chosen(rows: seq<EventId>, want: set<EventId>, i: nat): set<EventId>
    requires i <= |rows|
  {
    set id | id in Ids(rows, i) && id in want
  }

  lemma ChosenStep(rows: seq<EventId>, want: set<EventId>, i: nat)
    requires i < |rows| && Distinct(rows)
    ensures rows[i] in want ==>
              Chosen(rows, want, i + 1) == Chosen(rows, want, i) + {rows[i]} && rows[i] !in Chosen(rows, want, i)
    ensures rows[i] !in want ==> Chosen(rows, want, i + 1) == Chosen(rows, want, i)
  {
    IdsStep(rows, i);
  }

  lemma {:induction false} CountIsSize(rows: seq<EventId>, want: set<EventId>, i: nat)
    requires i <= |rows| && Distinct(rows)
    ensures Count(rows, want, i) == |Chosen(rows, want, i)|
  {
    if i == 0 {
      assert Chosen(rows, want, 0) == {};
    } else {
      CountIsSize(rows, want, i - 1);
      ChosenStep(rows, want, i - 1);
    }
  }

  lemma AllCounted(rows: seq<EventId>, want: set<EventId>)
    requires Distinct(rows) && forall id | id in want :: id in rows
    ensures Count(rows, want, |rows|) == |want|
  {
    CountIsSize(rows, want, |rows|);
    assert rows[..|rows|] == rows;
    assert Chosen(rows, want, |rows|) == want;
  }

  function Tallied(c: Config, before: Table, rows: seq<EventId>, outcome: Outcomes, i: nat): Counters
    requires i <= |rows|
  {
    var retried := Count(rows, Again(c, before, rows, outcome), i);
    var dead := Count(rows, Dead(c, before, rows, outcome), i);
    Counters(|rows|, Count(rows, Done(rows, outcome), i), retried + dead, retried, dead,
             Count(rows, Conflicts(rows, outcome), i))
  }

  lemma {:induction false} CountsAddUp(c: Config, before: Table, rows: seq<EventId>, outcome: Outcomes, i: nat)
    requires i <= |rows|
    ensures var n := Tallied(c, before, rows, outcome, i);
            i == n.processed + n.failed && n.idempotencyConflicts <= n.processed
  {
    if i > 0 {
      CountsAddUp(c, before, rows, outcome, i - 1);
      assert rows[i - 1] in rows;
    }
  }

  lemma KindsAreMoves(c: Config, before: Table, after: Table, now: int, rows: seq<EventId>, outcome: Outcomes)
    requires IsSelection(c, before, now, rows)
    requires SettledTable(c, before, after, now, outcome, Ids(rows, |rows|))
    ensures Done(rows, outcome) == set id | id in rows && MovedToProcessed(before, after, id)
    ensures Dead(c, before, rows, outcome) == set id | id in rows && MovedToDlq(before, after, id)
    ensures Again(c, before, rows, outcome) == set id | id in rows && Rescheduled(before, after, id)
  {
    assert rows[..|rows|] == rows;
    forall id | id in rows ensures id in before && after[id] == Settled(c, before[id], now, outcome(id)) {
      assert id in Ids(rows, |rows|);
    }
  }

  /** The counters are the numbers of rows that really moved. */
  lemma TalliedIsExact(c: Config, before: Table, after: Table, now: int, rows: seq<EventId>, outcome: Outcomes)
    requires IsSelection(c, before, now, rows)
    requires SettledTable(c, before, after, now, outcome, Ids(rows, |rows|))
    ensures var n := Tallied(c, before, rows, outcome, |rows|);
            && n.scanned == n.processed + n.failed && n.failed == n.retried + n.movedToDlq
            && n.idempotencyConflicts == |set id | id in rows && outcome(id).IdempotencyConflict?| <= n.processed
            && n.processed == |set id | id in rows && MovedToProcessed(before, after, id)|
            && n.movedToDlq == |set id | id in rows && MovedToDlq(before, after, id)|
            && n.retried == |set id | id in rows && Rescheduled(before, after, id)|
  {
    CountsAddUp(c, before, rows, outcome, |rows|);
    AllCounted(rows, Done(rows, outcome));
    AllCounted(rows, Conflicts(rows, outcome));
    AllCounted(rows, Dead(c, before, rows, outcome));
    AllCounted(rows, Again(c, before, rows, outcome));
    KindsAreMoves(c, before, after, now, rows, outcome);
  }

  /** What a settled table says of the claimed rows, column by column. */
  lemma SettledMeans(c: Config, before: Table, after: Table, now: int, rows: seq<EventId>, outcome: Outcomes)
    requires IsSelection(c, before, now, rows)
    requires SettledTable(c, before, after, now, outcome, Ids(rows, |rows|))
    ensures forall id | id in rows && !outcome(id).Fails? ::
              after[id] == before[id].(processedAt := Some(now), lastAttemptAt := Some(now))
    ensures forall id | id in rows && outcome(id).Fails? :: FailedOnce(c, before[id], after[id], now, outcome(id))
  {
    assert rows[..|rows|] == rows;
    forall id | id in rows ensures id in before && after[id] == Settled(c, before[id], now, outcome(id)) {
      assert id in Ids(rows, |rows|);
    }
  }

  /** The row after one more failure. */
  ghost predicate FailedOnce(c: Config, r: Row, r': Row, now: int, o: DispatchOutcome)
    requires o.Fails?
  {
    && r'.processedAt == None && r'.attemptCount == r.attemptCount + 1
    && r'.lastAttemptAt == Some(now) && r'.lastError == Some(o.error)
    && r'.failedAt == if o.deterministic || r.attemptCount >= c.maxRetries then Some(now) else None
  }

  // The table between the two loops ------------------------------------------------------------------

  function Picked(rows: seq<EventId>, order: seq<nat>): set<EventId>
    requires Below(order, |rows|)
  {
    set i | 0 <= i < |order| :: rows[order[i]]
  }

  /** The tasks' updates commute: they leave the same table in whatever order the tasks finish. */
  lemma {:induction false} FoldMarks(c: Config, before: Table, now: int, rows: seq<EventId>, outcome: Outcomes,
                                     effect: (Table, EventId) -> Table, order: seq<nat>)
    requires Below(order, |rows|)
    requires forall t, id :: effect(t, id) == MarkUnlessFailed(t, id, outcome(id), now)
    ensures SettledTable(c, before, Fold(effect, before, rows, order), now, outcome,
                         Picked(rows, order) * Done(rows, outcome))
  {
    if order != [] {
      var sooner, k := order[..|order| - 1], order[|order| - 1];
      FoldMarks(c, before, now, rows, outcome, effect, sooner);
      assert order == sooner + [k];
      PickedStep(rows, sooner, k);
      assert rows[k] in rows;
    }
  }

  lemma PickedStep(rows: seq<EventId>, order: seq<nat>, k: nat)
    requires Below(order, |rows|) && k < |rows|
    ensures Below(order + [k], |rows|)
    ensures Picked(rows, order + [k]) == Picked(rows, order) + {rows[k]}
  {
    var order' := order + [k];
    forall id | id in Picked(rows, order) ensures id in Picked(rows, order') {
      var i :| 0 <= i < |order| && rows[order[i]] == id;
      assert rows[order'[i]] == id;
    }
    assert rows[order'[|order|]] == rows[k];
  }

  lemma AllPicked(rows: seq<EventId>, outcome: Outcomes, order: seq<nat>)
    requires IsPermutation(order, |rows|)
    ensures Picked(rows, order) * Done(rows, outcome) == Done(rows, outcome)
  {
    forall id | id in Done(rows, outcome) ensures id in Picked(rows, order) {
      var k :| 0 <= k < |rows| && rows[k] == id;
      PermutationIsOnto(order, |rows|, k);
      var i :| 0 <= i < |order| && order[i] == k;
      assert rows[order[i]] == id;
    }
  }

  /** Looking at result i settles row i, if its dispatch failed; the tasks have settled the others. */
  lemma SettleStep(c: Config, before: Table, table: Table, now: int, rows: seq<EventId>, outcome: Outcomes, i: nat)
    requires i < |rows| && IsSelection(c, before, now, rows)
    requires SettledTable(c, before, table, now, outcome, Ids(rows, i) + Done(rows, outcome))
    ensures rows[i] in table
    ensures !outcome(rows[i]).Fails? ==>
              SettledTable(c, before, table, now, outcome, Ids(rows, i + 1) + Done(rows, outcome))
    ensures outcome(rows[i]).Fails? ==>
              && table[rows[i]] == before[rows[i]]
              && SettledTable(c, before, table[rows[i] := Settled(c, before[rows[i]], now, outcome(rows[i]))], now,
                   outcome,
                              Ids(rows, i + 1) + Done(rows, outcome))
  {
    var id := rows[i];
    IdsStep(rows, i);
    var done, done' := Ids(rows, i) + Done(rows, outcome), Ids(rows, i + 1) + Done(rows, outcome);
    assert done' == done + {id};
    if outcome(id).Fails? {
      assert id !in done;
    } else {
      assert id in rows && done' == done;
    }
  }

  /** The counters after one more result. */
  function Counted(c: Config, n: Counters, claimed: Row, o: DispatchOutcome): Counters {
    match o
    case IdempotencyConflict => n.(processed := n.processed + 1, idempotencyConflicts := n.idempotencyConflicts + 1)
    case Succeeds => n.(processed := n.processed + 1)
    case Fails(deterministic, _) =>
      if deterministic || claimed.attemptCount >= c.maxRetries
      then n.(failed := n.failed + 1, movedToDlq := n.movedToDlq + 1)
      else n.(failed := n.failed + 1, retried := n.retried + 1)
  }

  lemma TallyStep(c: Config, before: Table, rows: seq<EventId>, outcome: Outcomes, i: nat)
    requires i < |rows| && rows[i] in before
    ensures Tallied(c, before, rows, outcome, i + 1) ==
            Counted(c, Tallied(c, before, rows, outcome, i), before[rows[i]], outcome(rows[i]))
  {
    assert rows[i] in rows;
  }

  class OutboxProcessor {
    const config: Config
    var table: Table

    constructor (config: Config, table: Table)
      ensures this.config == config && this.table == table
    {
      this.config, this.table := config, table;
    }

    /** Returns whether the row went to the DLQ. */
    method HandleFailureOf(id: EventId, claimedAttempts: nat, failure: Failure) returns (isDlq: bool)
      requires id in table
      modifies this
      ensures table == old(table)[id := HandleFailure(config, old(table)[id], claimedAttempts, failure)]
      ensures old(table)[id].processedAt != None ==> table == old(table)
      ensures old(table)[id].processedAt == None ==>
                var r, r' := old(table)[id], table[id];
                && r'.processedAt == None && r'.attemptCount == claimedAttempts + 1
                && r'.lastAttemptAt == Some(failure.at) && r'.lastError == Some(failure.error)
                && (isDlq ==> r'.failedAt == Some(failure.at) && r'.nextAttemptAt == failure.at)
                && (isDlq && failure.deterministic ==> r'.dlqReason == Some(DeterministicFailure(failure.error)))
                && (isDlq && !failure.deterministic ==> r'.dlqReason == Some(ExhaustedRetries(failure.error)))
                && (!isDlq ==> r'.failedAt == r.failedAt && r'.dlqReason == r.dlqReason)
                && (!isDlq && claimedAttempts == 0 ==>
                      r'.nextAttemptAt == failure.at + 1000 * config.baseDelaySeconds)
      ensures isDlq <==> failure.deterministic || claimedAttempts >= config.maxRetries
    {
      var nextAttemptCount := claimedAttempts + 1;
      isDlq := failure.deterministic || nextAttemptCount > config.maxRetries;
      var row := table[id];
      if row.processedAt == None {
        row := row.(attemptCount := nextAttemptCount, lastAttemptAt := Some(failure.at),
             lastError := Some(failure.error),
                    history := row.history + [failure]);
        if isDlq {
          row := row.(failedAt := Some(failure.at), nextAttemptAt := failure.at,
                      dlqReason := Some(if failure.deterministic then DeterministicFailure(failure.error)
                                        else ExhaustedRetries(failure.error)));
        } else {
          row := row.(nextAttemptAt := failure.at + BackoffMs(config, nextAttemptCount));
        }
      }
      table := table[id := row];
    }

    /** One result: count it, and write the failure if it is one. */
    method RecordResult(claimed: Row, now: int, id: EventId, result: DispatchOutcome, n: Counters)
        returns (n': Counters)
      requires id in table && (result.Fails? ==> table[id] == claimed)
      modifies this
      ensures table == if result.Fails? then old(table)[id := Settled(config, claimed, now, result)] else old(table)
      ensures n' == Counted(config, n, claimed, result)
    {
      n' := n;
      if result.IdempotencyConflict? {
        n' := n'.(processed := n'.processed + 1, idempotencyConflicts := n'.idempotencyConflicts + 1);
      } else if result.Succeeds? {
        n' := n'.(processed := n'.processed + 1);
      } else {
        var isDlq := HandleFailureOf(id, claimed.attemptCount, Failure(now, result.deterministic, result.error));
        n' := n'.(failed := n'.failed + 1);
        if isDlq {
          n' := n'.(movedToDlq := n'.movedToDlq + 1);
        } else {
          n' := n'.(retried := n'.retried + 1);
        }
      }
    }

    /** The loop over the results, after every task has finished. */
    method RecordResults(claims: Table, now: int, rows: seq<EventId>, ghost outcome: Outcomes,
                         results: seq<DispatchOutcome>)
        returns (n: Counters)
      requires IsSelection(config, claims, now, rows)
      requires |results| == |rows| && forall k | 0 <= k < |rows| :: results[k] == outcome(rows[k])
      requires SettledTable(config, claims, table, now, outcome, Ids(rows, 0) + Done(rows, outcome))
      modifies this
      ensures SettledTable(config, claims, table, now, outcome, Ids(rows, |rows|) + Done(rows, outcome))
      ensures n == Tallied(config, claims, rows, outcome, |rows|)
    {
      n := Counters(|rows|, 0, 0, 0, 0, 0);
      var i := 0;
      while i < |rows|
        invariant i <= |rows|
        invariant SettledTable(config, claims, table, now, outcome, Ids(rows, i) + Done(rows, outcome))
        invariant n == Tallied(config, claims, rows, outcome, i)
      {
        SettleStep(config, claims, table, now, rows, outcome, i);
        TallyStep(config, claims, rows, outcome, i);
        n := RecordResult(claims[rows[i]], now, rows[i], results[i], n);
        i := i + 1;
      }
    }

    /**
      A tick by itself: each claimed row is settled by its own outcome, no other row changes, and the
      counters are the numbers of rows that really moved.
    */
    method RunProcessPendingEvents(now: int, rows: seq<EventId>, outcome: Outcomes) returns (n: Counters)
      requires IsSelection(config, table, now, rows)
      modifies this
      ensures SettledTable(config, old(table), table, now, outcome, Ids(rows, |rows|))
      ensures n.scanned == |rows| == n.processed + n.failed && n.failed == n.retried + n.movedToDlq
      ensures n.idempotencyConflicts == |set id | id in rows && outcome(id).IdempotencyConflict?| <= n.processed
      ensures forall id | id in rows && !outcome(id).Fails? ::
                table[id] == old(table)[id].(processedAt := Some(now), lastAttemptAt := Some(now))
      ensures forall id | id in rows && outcome(id).Fails? ::
                FailedOnce(config, old(table)[id], table[id], now, outcome(id))
      ensures n.processed == |set id | id in rows && MovedToProcessed(old(table), table, id)|
      ensures n.movedToDlq == |set id | id in rows && MovedToDlq(old(table), table, id)|
      ensures n.retried == |set id | id in rows && Rescheduled(old(table), table, id)|
    {
      var claims := table;
      var results, log;
      var effect := (t: Table, id) => MarkUnlessFailed(t, id, outcome(id), now);
      results, table, log := RunWithConcurrency(rows, 10, outcome, effect, table);
      FoldMarks(config, claims, now, rows, outcome, effect, Finishes(log));
      AllPicked(rows, outcome, Finishes(log));
      assert Ids(rows, 0) + Done(rows, outcome) == Done(rows, outcome);
      n := RecordResults(claims, now, rows, outcome, results[..]);
      assert Ids(rows, |rows|) + Done(rows, outcome) == Ids(rows, |rows|) by {
        assert rows[..|rows|] == rows;
      }
      TalliedIsExact(config, claims, table, now, rows, outcome);
      SettledMeans(config, claims, table, now, rows, outcome);
    }
  }

  // The statement-level steps, uninterrupted ---------------------------------------------------------

  /** What a tick sees of a row, while it runs alone: the row is as claimed until it is settled. */
  ghost predicate SoloRow(c: Config, r: Row, seen: Row, tick: Tick, now: int, o: DispatchOutcome, id: EventId) {
    && id in tick.claims && tick.claims[id] == r
    && !(id in tick.todo && id in tick.failed) && !(id in tick.todo && id in tick.done)
    && !(id in tick.done && id in tick.failed)
    && (id in tick.failed ==> o.Fails? && tick.failed[id] == Failure(now, o.deterministic, o.error))
    && (id in tick.done ==> !o.Fails?)
    && seen == if id in tick.todo || id in tick.done || id in tick.failed then r else Settled(c, r, now, o)
  }

  /** One row between two statements of a tick running alone. */
  ghost predicate Solo(c: Config, start: Table, w: World, t: nat, now: int, ids: set<EventId>, o: DispatchOutcome,
                       id: EventId) {
    && t in w.ticks && w.ticks[t].now == now && (id in w.table <==> id in start)
    && (id in start && (c.transactional || id !in ids) ==> w.table[id] == start[id])
    && (if id in ids then
          && id in start && (c.transactional ==> id in w.ticks[t].work)
          && SoloRow(c, start[id], if c.transactional then w.ticks[t].work[id] else w.table[id], w.ticks[t], now, o, id)
        else
          && id !in w.ticks[t].work && id !in w.ticks[t].claims
          && id !in w.ticks[t].todo && id !in w.ticks[t].done && id !in w.ticks[t].failed)
  }

  predicate IsWorkOf(e: Event, t: nat, outcome: Outcomes) {
    match e
    case Dispatch(t', id, o) => t' == t && o == outcome(id)
    case Mark(t', _) => t' == t
    case RecordFailure(t', _) => t' == t
    case _ => false
  }

  lemma SoloBegin(c: Config, w: World, t: nat, now: int, ids: set<EventId>, o: DispatchOutcome, id: EventId)
    requires Enabled(c, w, Begin(t, now, ids))
    ensures Solo(c, w.table, BeginTick(c, w, t, now, ids), t, now, ids, o, id)
  {
  }

  lemma SoloDispatch(c: Config, start: Table, w: World, t: nat, now: int, ids: set<EventId>, outcome: Outcomes,
                     done: EventId, id: EventId)
    requires Solo(c, start, w, t, now, ids, outcome(id), id) && done in w.ticks[t].todo
    ensures Solo(c, start, DispatchRow(w, t, done, outcome(done)), t, now, ids, outcome(id), id)
  {
  }

  lemma SoloMark(c: Config, start: Table, w: World, t: nat, now: int, ids: set<EventId>, o: DispatchOutcome,
                 done: EventId, id: EventId)
    requires Solo(c, start, w, t, now, ids, o, id) && done in w.ticks[t].done
    ensures Solo(c, start, MarkRow(c, w, t, done), t, now, ids, o, id)
  {
  }

  lemma SoloRecord(c: Config, start: Table, w: World, t: nat, now: int, ids: set<EventId>, o: DispatchOutcome,
                   done: EventId, id: EventId)
    requires Solo(c, start, w, t, now, ids, o, id) && done in w.ticks[t].failed
    ensures Solo(c, start, RecordRow(c, w, t, done), t, now, ids, o, id)
  {
  }

  lemma {:induction false} SoloHolds(c: Config, ws: seq<World>, es: seq<Event>, i: nat, j: nat, t: nat, now: int,
                                     ids: set<EventId>, outcome: Outcomes, id: EventId)
    requires IsRun(c, ws, es) && i < j <= |es| && es[i] == Begin(t, now, ids)
    requires forall m | i < m < j :: IsWorkOf(es[m], t, outcome)
    ensures Solo(c, ws[i].table, ws[j], t, now, ids, outcome(id), id)
    decreases j
  {
    var before, e := ws[j - 1], es[j - 1];
    assert Enabled(c, before, e) && ws[j] == Next(c, before, e);
    if i + 1 == j {
      SoloBegin(c, before, t, now, ids, outcome(id), id);
    } else {
      SoloHolds(c, ws, es, i, j - 1, t, now, ids, outcome, id);
      assert IsWorkOf(e, t, outcome);
      if e.Dispatch? {
        SoloDispatch(c, ws[i].table, before, t, now, ids, outcome, e.id, id);
      } else if e.Mark? {
        SoloMark(c, ws[i].table, before, t, now, ids, outcome(id), e.id, id);
      } else {
        SoloRecord(c, ws[i].table, before, t, now, ids, outcome(id), e.id, id);
      }
    }
  }

  lemma SoloCommit(c: Config, start: Table, w: World, t: nat, now: int, ids: set<EventId>, o: DispatchOutcome,
                   id: EventId)
    requires Enabled(c, w, Commit(t)) && Solo(c, start, w, t, now, ids, o, id)
    ensures var table := Next(c, w, Commit(t)).table;
            && (id in table <==> id in start)
            && (id in start ==> table[id] == if id in ids then Settled(c, start[id], now, o) else start[id])
  {
  }

  /**
    However its dispatches and writes are ordered, and with or without a transaction, a tick that nobody
    interrupts leaves the table that RunProcessPendingEvents leaves.
  */
  lemma UninterruptedTick(c: Config, ws: seq<World>, es: seq<Event>, i: nat, j: nat, t: nat, now: int,
                          ids: set<EventId>, outcome: Outcomes)
    requires IsRun(c, ws, es) && i < j < |es| && es[i] == Begin(t, now, ids) && es[j] == Commit(t)
    requires forall m | i < m < j :: IsWorkOf(es[m], t, outcome)
    ensures SettledTable(c, ws[i].table, ws[j + 1].table, now, outcome, ids)
  {
    var start, end := ws[i].table, ws[j + 1].table;
    assert Enabled(c, ws[j], es[j]) && ws[j + 1] == Next(c, ws[j], es[j]);
    forall id
      ensures id in end <==> id in start
      ensures id in start ==> end[id] == if id in ids then Settled(c, start[id], now, outcome(id)) else start[id]
    {
      SoloHolds(c, ws, es, i, j, t, now, ids, outcome, id);
      SoloCommit(c, start, ws[j], t, now, ids, outcome(id), id);
    }
  }
}
