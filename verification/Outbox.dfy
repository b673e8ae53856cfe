/**
  The transactional outbox: the row life cycle driven by processor ticks
  (src/common/outbox/base-outbox-processor.ts) and by the operator's recovery commands
  (src/commands/outbox.ts), interleaved statement by statement. `OutboxOperators` says what the commands do.

  `runProcessPendingEvents` takes a database handle. Inside a transaction the row locks of its
  SELECT ... FOR UPDATE SKIP LOCKED last until commit; with a plain handle every statement commits by
  itself and the locks end with the SELECT. Both ways are modelled.
*/
module Outboxes {
  import opened Prelude

  type EventId = nat

  datatype Config = Config(maxRetries: nat, baseDelaySeconds: nat, batchSize: nat, transactional: bool)

  datatype Reason =
    | DeterministicFailure(error: string)
    | ExhaustedRetries(error: string)
    | DiscardedByOperator(text: string)

  /** A failed dispatch, at the tick's nowIso. */
  datatype Failure = Failure(at: int, deterministic: bool, error: string)

  /**
    The columns the life cycle uses, times in milliseconds. `history` is not a column: it lists the
    failures recorded since the row was inserted or last retried by an operator.
  */
  datatype Row = Row(
    processedAt: Option<int>,
    failedAt: Option<int>,
    dlqReason: Option<Reason>,
    attemptCount: nat,
    lastAttemptAt: Option<int>,
    nextAttemptAt: int,
    lastError: Option<string>,
    history: seq<Failure>)

  function NewRow(nextAttemptAt: int): Row {
    Row(None, None, None, 0, None, nextAttemptAt, None, [])
  }

  predicate Unfinished(r: Row) {
    r.processedAt == None && r.failedAt == None
  }

  /** buildPendingWhere; subclasses may narrow it further. */
  predicate Pending(r: Row, now: int) {
    Unfinished(r) && r.nextAttemptAt <= now
  }

  /** buildDlqWhere, and the clause of the bulk commands. */
  predicate InDlq(r: Row) {
    r.processedAt == None && r.failedAt != None && r.dlqReason != None
  }

  function Pow2(n: nat): (p: nat)
    ensures p >= 1
  {
    if n == 0 then 1 else 2 * Pow2(n - 1)
  }

  /** The delay of computeNextAttemptIso in milliseconds. */
  function BackoffMs(c: Config, attemptCount: nat): nat {
    1000 * (c.baseDelaySeconds * Pow2(if attemptCount >= 1 then attemptCount - 1 else 0))
  }

  /** UPDATE ... SET processed_at, last_attempt_at WHERE processed_at IS NULL */
  function MarkProcessed(r: Row, now: int): Row {
    if r.processedAt == None then r.(processedAt := Some(now), lastAttemptAt := Some(now)) else r
  }

  predicate IsDlq(c: Config, claimedAttempts: nat, f: Failure) {
    f.deterministic || claimedAttempts + 1 > c.maxRetries
  }

  /** handleFailure: the new values come from the claimed copy, the guard from the row as it is now. */
  function HandleFailure(c: Config, r: Row, claimedAttempts: nat, f: Failure): Row {
    if r.processedAt != None then r
    else
      var failed := r.(attemptCount := claimedAttempts + 1, lastAttemptAt := Some(f.at), lastError := Some(f.error),
                       history := r.history + [f]);
      if IsDlq(c, claimedAttempts, f) then
        failed.(failedAt := Some(f.at),
                dlqReason := Some(if f.deterministic then DeterministicFailure(f.error) else ExhaustedRetries(f.error)),
                nextAttemptAt := f.at)
      else failed.(nextAttemptAt := f.at + BackoffMs(c, claimedAttempts + 1))
  }

  /** The SET clause of `retry`, single or bulk. */
  function Requeued(r: Row, now: int): Row {
    r.(failedAt := None, dlqReason := None, lastError := None, attemptCount := 0, lastAttemptAt := None,
       nextAttemptAt := now, history := [])
  }

  function Discarded(r: Row, text: string): Row {
    r.(dlqReason := Some(DiscardedByOperator(text)))
  }

  type Table = map<EventId, Row>

  datatype DispatchOutcome = Succeeds | IdempotencyConflict | Fails(deterministic: bool, error: string)

  /**
    A tick between two statements: the claimed copies, the rows not dispatched yet, the rows dispatched
    but not marked processed yet, the failures not written yet and, in a transaction, the uncommitted rows.
  */
  datatype Tick = Tick(
    now: int,
    claims: Table,
    todo: set<EventId>,
    done: map<EventId, DispatchOutcome>,
    failed: map<EventId, Failure>,
    work: Table)

  /** `checked` holds the single-row commands that have read their row but not updated it yet. */
  datatype World = World(table: Table, ticks: map<nat, Tick>, checked: map<nat, EventId>)

  datatype Event =
    | Insert(id: EventId, nextAttemptAt: int)
    | Begin(t: nat, now: int, ids: set<EventId>)
    | Dispatch(t: nat, id: EventId, outcome: DispatchOutcome)
    | Mark(t: nat, id: EventId)
    | MarkFails(t: nat, id: EventId, error: string)
    | RecordFailure(t: nat, id: EventId)
    | Commit(t: nat)
    | Abort(t: nat)
    | RetryAll(now: int)
    | DiscardAll(text: string)
    | Check(op: nat, id: EventId)
    | RetryOne(op: nat, now: int)
    | DiscardOne(op: nat, text: string)

  predicate Locked(c: Config, w: World, id: EventId) {
    c.transactional && exists t :: t in w.ticks && id in w.ticks[t].claims
  }

  /** Every task of the tick has finished. */
  predicate Dispatched(tick: Tick) {
    tick.todo == {} && tick.done == map[]
  }

  /**
    A markProcessed that fails is caught like a failed dispatch, if the dispatch itself had succeeded; in a
    transaction, or after a conflict, it brings down the tick, which is an Abort.
  */
  predicate Enabled(c: Config, w: World, e: Event) {
    match e
    case Insert(id, _) => id !in w.table
    case Begin(t, now, ids) =>
      && t !in w.ticks && |ids| <= c.batchSize
      && forall id | id in ids :: id in w.table && Pending(w.table[id], now) && !Locked(c, w, id)
    case Dispatch(t, id, _) => t in w.ticks && id in w.ticks[t].todo
    case Mark(t, id) => t in w.ticks && id in w.ticks[t].done
    case MarkFails(t, id, _) =>
      !c.transactional && t in w.ticks && id in w.ticks[t].done && w.ticks[t].done[id].Succeeds?
    case RecordFailure(t, id) => t in w.ticks && Dispatched(w.ticks[t]) && id in w.ticks[t].failed
    case Commit(t) => t in w.ticks && Dispatched(w.ticks[t]) && w.ticks[t].failed == map[]
    case Abort(t) => t in w.ticks
    case RetryAll(_) => true
    case DiscardAll(_) => true
    case Check(op, id) => op !in w.checked && id in w.table && w.table[id].processedAt == None
    case RetryOne(op, _) => op in w.checked && !Locked(c, w, w.checked[op])
    case DiscardOne(op, _) => op in w.checked && !Locked(c, w, w.checked[op])
  }

  /** One UPDATE by tick t: on its own uncommitted row in a transaction, else on the table. */
  function Update(c: Config, w: World, t: nat, id: EventId, r: Row, tick: Tick): World {
    if c.transactional then w.(ticks := w.ticks[t := tick.(work := tick.work[id := r])])
    else w.(table := w.table[id := r], ticks := w.ticks[t := tick])
  }

  /** The row as tick t sees it. */
  function Seen(c: Config, w: World, t: nat, id: EventId): Option<Row>
    requires t in w.ticks
  {
    var rows := if c.transactional then w.ticks[t].work else w.table;
    if id in rows then Some(rows[id]) else None
  }

  function BeginTick(c: Config, w: World, t: nat, now: int, ids: set<EventId>): World
    requires ids <= w.table.Keys
  {
    var claims := map id | id in ids :: w.table[id];
    w.(ticks := w.ticks[t := Tick(now, claims, ids, map[], map[], if c.transactional then claims else map[])])
  }

  /** dispatch(row) has settled: unless it failed for real, the row still has to be marked processed. */
  function DispatchRow(w: World, t: nat, id: EventId, outcome: DispatchOutcome): World
    requires t in w.ticks
  {
    var tick := w.ticks[t].(todo := w.ticks[t].todo - {id});
    if outcome.Fails? then
      var failure := Failure(tick.now, outcome.deterministic, outcome.error);
      w.(ticks := w.ticks[t := tick.(failed := tick.failed[id := failure])])
    else w.(ticks := w.ticks[t := tick.(done := tick.done[id := outcome])])
  }

  /** markProcessed. */
  function MarkRow(c: Config, w: World, t: nat, id: EventId): World
    requires t in w.ticks
  {
    var tick := w.ticks[t].(done := w.ticks[t].done - {id});
    var seen := Seen(c, w, t, id);
    if seen.None? then w.(ticks := w.ticks[t := tick])
    else Update(c, w, t, id, MarkProcessed(seen.value, tick.now), tick)
  }

  /** markProcessed fails after a dispatch that succeeded. */
  function MisrecordRow(w: World, t: nat, id: EventId, error: string): World
    requires t in w.ticks
  {
    var tick, failure := w.ticks[t], Failure(w.ticks[t].now, false, error);
    w.(ticks := w.ticks[t := tick.(done := tick.done - {id}, failed := tick.failed[id := failure])])
  }

  function RecordRow(c: Config, w: World, t: nat, id: EventId): World
    requires t in w.ticks && id in w.ticks[t].failed
  {
    var tick := w.ticks[t].(failed := w.ticks[t].failed - {id});
    var seen := Seen(c, w, t, id);
    if seen.None? || id !in tick.claims then w.(ticks := w.ticks[t := tick])
    else Update(c, w, t, id, HandleFailure(c, seen.value, tick.claims[id].attemptCount, w.ticks[t].failed[id]), tick)
  }

  /** UPDATE of every row in the DLQ; no LIMIT applies to it. */
  function RetriedAll(table: Table, now: int): Table {
    map id | id in table :: if InDlq(table[id]) then Requeued(table[id], now) else table[id]
  }

  function DiscardedAll(table: Table, text: string): Table {
    map id | id in table :: if InDlq(table[id]) then Discarded(table[id], text) else table[id]
  }

  function Next(c: Config, w: World, e: Event): World
    requires Enabled(c, w, e)
  {
    match e
    case Insert(id, nextAttemptAt) => w.(table := w.table[id := NewRow(nextAttemptAt)])
    case Begin(t, now, ids) => BeginTick(c, w, t, now, ids)
    case Dispatch(t, id, outcome) => DispatchRow(w, t, id, outcome)
    case Mark(t, id) => MarkRow(c, w, t, id)
    case MarkFails(t, id, error) => MisrecordRow(w, t, id, error)
    case RecordFailure(t, id) => RecordRow(c, w, t, id)
    case Commit(t) => World(if c.transactional then w.table + w.ticks[t].work else w.table, w.ticks - {t}, w.checked)
    case Abort(t) => w.(ticks := w.ticks - {t})
    case RetryAll(now) => w.(table := RetriedAll(w.table, now))
    case DiscardAll(text) => w.(table := DiscardedAll(w.table, text))
    case Check(op, id) => w.(checked := w.checked[op := id])
    case RetryOne(op, now) =>
      var id := w.checked[op];
      World(if id in w.table then w.table[id := Requeued(w.table[id], now)] else w.table, w.ticks, w.checked - {op})
    case DiscardOne(op, text) =>
      var id := w.checked[op];
      World(if id in w.table then w.table[id := Discarded(w.table[id], text)] else w.table, w.ticks, w.checked - {op})
  }

  const EMPTY := World(map[], map[], map[])

  ghost predicate IsRun(c: Config, ws: seq<World>, es: seq<Event>) {
    && |ws| == |es| + 1 && ws[0] == EMPTY
    && forall i | 0 <= i < |es| :: Enabled(c, ws[i], es[i]) && ws[i + 1] == Next(c, ws[i], es[i])
  }

  // ---------------------------------------------------------------------------------------------
  // What every interleaving keeps, with or without transactions
  // ---------------------------------------------------------------------------------------------

  /** A dead-lettered row has a reason, a live row has retries left, and both speak of the last failure. */
  predicate RowOk(c: Config, r: Row) {
    && (r.failedAt != None ==> r.dlqReason != None)
    && (r.failedAt == None ==> r.attemptCount <= c.maxRetries)
    && r.lastError == (if r.history == [] then None else Some(r.history[|r.history| - 1].error))
    && (r.processedAt == None ==>
          r.lastAttemptAt == if r.history == [] then None else Some(r.history[|r.history| - 1].at))
  }

  ghost predicate RowsOk(c: Config, rows: Table) {
    forall id | id in rows :: RowOk(c, rows[id])
  }

  /** Claimed copies are copies of live rows; in a transaction they also bound what is uncommitted. */
  ghost predicate TickOk(c: Config, tick: Tick) {
    && RowsOk(c, tick.work) && RowsOk(c, tick.claims)
    && (forall id | id in tick.claims :: Unfinished(tick.claims[id]))
    && tick.todo <= tick.claims.Keys && tick.done.Keys <= tick.claims.Keys && tick.failed.Keys <= tick.claims.Keys
    && tick.todo !! tick.failed.Keys && tick.todo !! tick.done.Keys && tick.done.Keys !! tick.failed.Keys
    && (forall id | id in tick.done :: !tick.done[id].Fails?)
    && tick.work.Keys == if c.transactional then tick.claims.Keys else {}
  }

  ghost predicate Invariant(c: Config, w: World) {
    RowsOk(c, w.table) && forall t | t in w.ticks :: TickOk(c, w.ticks[t])
  }

  lemma UpdateOk(c: Config, w: World, t: nat, id: EventId, r: Row, tick: Tick)
    requires Invariant(c, w) && t in w.ticks && TickOk(c, tick) && id in tick.claims && RowOk(c, r)
    ensures Invariant(c, Update(c, w, t, id, r, tick))
  {
    var w' := Update(c, w, t, id, r, tick);
    assert TickOk(c, w'.ticks[t]);
  }

  lemma BeginOk(c: Config, w: World, t: nat, now: int, ids: set<EventId>)
    requires Invariant(c, w) && Enabled(c, w, Begin(t, now, ids))
    ensures Invariant(c, BeginTick(c, w, t, now, ids))
  {
    assert TickOk(c, BeginTick(c, w, t, now, ids).ticks[t]);
  }

  lemma DispatchOk(c: Config, w: World, t: nat, id: EventId, outcome: DispatchOutcome)
    requires Invariant(c, w) && Enabled(c, w, Dispatch(t, id, outcome))
    ensures Invariant(c, DispatchRow(w, t, id, outcome))
  {
    assert TickOk(c, w.ticks[t]) && TickOk(c, DispatchRow(w, t, id, outcome).ticks[t]);
  }

  lemma MarkOk(c: Config, w: World, t: nat, id: EventId)
    requires Invariant(c, w) && Enabled(c, w, Mark(t, id))
    ensures Invariant(c, MarkRow(c, w, t, id))
  {
    var tick := w.ticks[t].(done := w.ticks[t].done - {id});
    var seen := Seen(c, w, t, id);
    assert TickOk(c, w.ticks[t]) && TickOk(c, tick);
    if seen.Some? {
      UpdateOk(c, w, t, id, MarkProcessed(seen.value, tick.now), tick);
    }
  }

  lemma MisrecordOk(c: Config, w: World, t: nat, id: EventId, error: string)
    requires Invariant(c, w) && Enabled(c, w, MarkFails(t, id, error))
    ensures Invariant(c, MisrecordRow(w, t, id, error))
  {
    assert TickOk(c, w.ticks[t]) && TickOk(c, MisrecordRow(w, t, id, error).ticks[t]);
  }

  lemma FailedRowOk(c: Config, r: Row, claimedAttempts: nat, f: Failure)
    requires RowOk(c, r)
    ensures RowOk(c, HandleFailure(c, r, claimedAttempts, f))
  {
  }

  lemma RecordOk(c: Config, w: World, t: nat, id: EventId)
    requires Invariant(c, w) && Enabled(c, w, RecordFailure(t, id))
    ensures Invariant(c, RecordRow(c, w, t, id))
  {
    var tick := w.ticks[t].(failed := w.ticks[t].failed - {id});
    var seen := Seen(c, w, t, id);
    assert TickOk(c, w.ticks[t]) && TickOk(c, tick);
    if seen.Some? {
      FailedRowOk(c, seen.value, tick.claims[id].attemptCount, w.ticks[t].failed[id]);
      UpdateOk(c, w, t, id, HandleFailure(c, seen.value, tick.claims[id].attemptCount, w.ticks[t].failed[id]), tick);
    }
  }

  lemma OperatorOk(c: Config, w: World, e: Event)
    requires Invariant(c, w) && Enabled(c, w, e)
    requires !e.Begin? && !e.Dispatch? && !e.Mark? && !e.MarkFails? && !e.RecordFailure?
    ensures Invariant(c, Next(c, w, e))
  {
    if e.Commit? {
      assert TickOk(c, w.ticks[e.t]);
    }
  }

  lemma InvariantStep(c: Config, w: World, e: Event)
    requires Invariant(c, w) && Enabled(c, w, e)
    ensures Invariant(c, Next(c, w, e))
  {
    match e
    case Begin(t, now, ids) => BeginOk(c, w, t, now, ids);
    case Dispatch(t, id, outcome) => DispatchOk(c, w, t, id, outcome);
    case Mark(t, id) => MarkOk(c, w, t, id);
    case MarkFails(t, id, error) => MisrecordOk(c, w, t, id, error);
    case RecordFailure(t, id) => RecordOk(c, w, t, id);
    case _ => OperatorOk(c, w, e);
  }

  lemma {:induction false} InvariantHolds(c: Config, ws: seq<World>, es: seq<Event>, i: nat)
    requires IsRun(c, ws, es) && i <= |es|
    ensures Invariant(c, ws[i])
  {
    if i > 0 {
      InvariantHolds(c, ws, es, i - 1);
      InvariantStep(c, ws[i - 1], es[i - 1]);
      assert ws[i] == Next(c, ws[i - 1], es[i - 1]);
    }
  }

  predicate Owns(ticks: map<nat, Tick>, t: nat, id: EventId) {
    t in ticks && id in ticks[t].claims
  }

  /** A claimed row is this tick's alone: nobody else holds it or changes it. */
  ghost predicate Exclusive(table: Table, ticks: map<nat, Tick>) {
    && (forall t, id | Owns(ticks, t, id) :: id in table && table[id] == ticks[t].claims[id])
    && (forall t, t', id | Owns(ticks, t, id) && Owns(ticks, t', id) :: t == t')
  }

  ghost predicate LocksHold(c: Config, w: World) {
    c.transactional ==> Exclusive(w.table, w.ticks)
  }

  lemma LocksHoldStep(c: Config, w: World, e: Event)
    requires Invariant(c, w) && LocksHold(c, w) && Enabled(c, w, e)
    ensures LocksHold(c, Next(c, w, e))
  {
    if c.transactional {
      match e
      case Begin(t, now, ids) => BeginLocks(c, w, t, now, ids);
      case Dispatch(_, _, _) => WorkLocks(c, w, e);
      case Mark(_, _) => WorkLocks(c, w, e);
      case MarkFails(_, _, _) => WorkLocks(c, w, e);
      case RecordFailure(_, _) => WorkLocks(c, w, e);
      case Commit(t) => CommitLocks(c, w, t);
      case Abort(t) => DropLocks(w.table, w.ticks, t);
      case RetryAll(now) => BulkLocks(c, w, RetriedAll(w.table, now));
      case DiscardAll(text) => BulkLocks(c, w, DiscardedAll(w.table, text));
      case _ => OperatorLocks(c, w, e);
    }
  }

  lemma BeginLocks(c: Config, w: World, t: nat, now: int, ids: set<EventId>)
    requires c.transactional && LocksHold(c, w) && Enabled(c, w, Begin(t, now, ids))
    ensures LocksHold(c, BeginTick(c, w, t, now, ids))
  {
    var ticks := BeginTick(c, w, t, now, ids).ticks;
    forall t', id | Owns(ticks, t', id) ensures if t' == t then id in ids else id !in ids && Owns(w.ticks, t', id) {
      if t' != t {
        assert Locked(c, w, id);
      }
    }
  }

  /** A tick working on its uncommitted rows. */
  lemma TickLocks(c: Config, w: World, t: nat, w': World)
    requires c.transactional && LocksHold(c, w) && t in w.ticks && w'.table == w.table
    requires t in w'.ticks && w'.ticks[t].claims == w.ticks[t].claims && w'.ticks == w.ticks[t := w'.ticks[t]]
    ensures LocksHold(c, w')
  {
    assert forall t', id :: Owns(w'.ticks, t', id) <==> Owns(w.ticks, t', id);
  }

  lemma WorkLocks(c: Config, w: World, e: Event)
    requires c.transactional && LocksHold(c, w) && Enabled(c, w, e)
    requires e.Dispatch? || e.Mark? || e.MarkFails? || e.RecordFailure?
    ensures LocksHold(c, Next(c, w, e))
  {
    TickLocks(c, w, e.t, Next(c, w, e));
  }

  /** The rows a tick commits are nobody else's. */
  lemma CommitLocks(c: Config, w: World, t: nat)
    requires c.transactional && Invariant(c, w) && LocksHold(c, w) && t in w.ticks
    ensures Exclusive(w.table + w.ticks[t].work, w.ticks - {t})
  {
    assert TickOk(c, w.ticks[t]);
    forall t', id | t' != t && Owns(w.ticks, t', id) ensures id !in w.ticks[t].work {
      assert !Owns(w.ticks, t, id);
    }
    DropLocks(w.table + w.ticks[t].work, w.ticks, t);
  }

  lemma DropLocks(table: Table, ticks: map<nat, Tick>, t: nat)
    requires forall t', id | t' != t && Owns(ticks, t', id) :: id in table && table[id] == ticks[t'].claims[id]
    requires forall t', t'', id | Owns(ticks, t', id) && Owns(ticks, t'', id) :: t' == t''
    ensures Exclusive(table, ticks - {t})
  {
    assert forall t', id :: Owns(ticks - {t}, t', id) <==> t' != t && Owns(ticks, t', id);
  }

  /** A bulk command changes dead letters only, and those are not claimed. */
  lemma BulkLocks(c: Config, w: World, table: Table)
    requires c.transactional && Invariant(c, w) && LocksHold(c, w)
    requires table.Keys == w.table.Keys && forall id | id in table && !InDlq(w.table[id]) :: table[id] == w.table[id]
    ensures LocksHold(c, w.(table := table))
  {
    forall t, id | Owns(w.ticks, t, id) ensures id in table && table[id] == w.ticks[t].claims[id] {
      assert TickOk(c, w.ticks[t]);
    }
  }

  lemma OperatorLocks(c: Config, w: World, e: Event)
    requires c.transactional && LocksHold(c, w) && Enabled(c, w, e)
    requires e.Insert? || e.Check? || e.RetryOne? || e.DiscardOne?
    ensures LocksHold(c, Next(c, w, e))
  {
    var w' := Next(c, w, e);
    forall t, id | Owns(w.ticks, t, id) ensures id in w'.table && w'.table[id] == w.table[id] {
      assert Locked(c, w, id);
    }
  }

  lemma {:induction false} LocksHoldAlways(c: Config, ws: seq<World>, es: seq<Event>, i: nat)
    requires IsRun(c, ws, es) && i <= |es|
    ensures LocksHold(c, ws[i])
  {
    if i > 0 {
      LocksHoldAlways(c, ws, es, i - 1);
      InvariantHolds(c, ws, es, i - 1);
      LocksHoldStep(c, ws[i - 1], es[i - 1]);
      assert ws[i] == Next(c, ws[i - 1], es[i - 1]);
    }
  }

  // Processed rows --------------------------------------------------------------------------------

  /** How a step may change a committed row. */
  lemma RowStep(c: Config, w: World, e: Event, id: EventId)
    requires Invariant(c, w) && LocksHold(c, w) && Enabled(c, w, e) && id in w.table
    ensures id in Next(c, w, e).table
    ensures w.table[id].processedAt != None ==> Next(c, w, e).table[id].processedAt == w.table[id].processedAt
    ensures w.table[id].failedAt != None && !IsRetryOf(w, e, id) ==> Next(c, w, e).table[id].failedAt != None
  {
    if e.Commit? {
      if c.transactional {
        CommitRow(c, w, e.t, id);
      }
    } else if e.Dispatch? || e.Mark? || e.MarkFails? || e.RecordFailure? {
      WorkRow(c, w, e, id);
    }
  }

  /** A tick's own statements never touch a row's processedAt once it is written, nor clear failedAt. */
  lemma WorkRow(c: Config, w: World, e: Event, id: EventId)
    requires Enabled(c, w, e) && id in w.table && (e.Dispatch? || e.Mark? || e.MarkFails? || e.RecordFailure?)
    ensures id in Next(c, w, e).table
    ensures w.table[id].processedAt != None ==> Next(c, w, e).table[id].processedAt == w.table[id].processedAt
    ensures w.table[id].failedAt != None ==> Next(c, w, e).table[id].failedAt != None
  {
  }

  /** A commit writes rows that were live until then. */
  lemma CommitRow(c: Config, w: World, t: nat, id: EventId)
    requires c.transactional && Invariant(c, w) && LocksHold(c, w) && Enabled(c, w, Commit(t)) && id in w.table
    ensures id in Next(c, w, Commit(t)).table
    ensures Next(c, w, Commit(t)).table[id] == w.table[id] || Unfinished(w.table[id])
  {
    assert TickOk(c, w.ticks[t]);
    if id in w.ticks[t].work {
      assert Owns(w.ticks, t, id);
    }
  }

  lemma RunStep(c: Config, ws: seq<World>, es: seq<Event>, j: nat, id: EventId)
    requires IsRun(c, ws, es) && j < |es| && id in ws[j].table
    ensures id in ws[j + 1].table
    ensures ws[j].table[id].processedAt != None ==> ws[j + 1].table[id].processedAt == ws[j].table[id].processedAt
    ensures ws[j].table[id].failedAt != None && !IsRetryOf(ws[j], es[j], id) ==> ws[j + 1].table[id].failedAt != None
  {
    InvariantHolds(c, ws, es, j);
    LocksHoldAlways(c, ws, es, j);
    RowStep(c, ws[j], es[j], id);
    assert ws[j + 1] == Next(c, ws[j], es[j]);
  }

  /** An operator's retry of this row, alone or with all others. */
  predicate IsRetryOf(w: World, e: Event, id: EventId) {
    e.RetryAll? || (e.RetryOne? && e.op in w.checked && w.checked[e.op] == id)
  }

  /** `processedAt` is written once and never changed, by ticks or operators, in either mode. */
  lemma {:induction false} ProcessedAtIsWriteOnce(c: Config, ws: seq<World>, es: seq<Event>, i: nat, j: nat,
                                        id: EventId)
    requires IsRun(c, ws, es) && i <= j <= |es| && id in ws[i].table
    ensures id in ws[j].table
    ensures ws[i].table[id].processedAt != None ==> ws[j].table[id].processedAt == ws[i].table[id].processedAt
    decreases j
  {
    if i < j {
      ProcessedAtIsWriteOnce(c, ws, es, i, j - 1, id);
      RunStep(c, ws, es, j - 1, id);
    }
  }

  // When a row was processed

  predicate ProcessedIn(rows: Table, id: EventId, at: int) {
    id in rows && rows[id].processedAt == Some(at)
  }

  predicate UncommittedAt(ticks: map<nat, Tick>, t: nat, id: EventId, at: int) {
    t in ticks && ProcessedIn(ticks[t].work, id, at)
  }

  ghost predicate ProcessedAt(w: World, id: EventId, at: int) {
    ProcessedIn(w.table, id, at) || exists t :: UncommittedAt(w.ticks, t, id, at)
  }

  /** The step is markProcessed of this row by a tick that began at this time. */
  predicate Marks(w: World, e: Event, id: EventId, at: int) {
    e.Mark? && e.id == id && e.t in w.ticks && w.ticks[e.t].now == at
  }

  lemma WorkMarks(c: Config, w: World, e: Event, id: EventId, at: int)
    requires Enabled(c, w, e) && (e.Dispatch? || e.Mark? || e.MarkFails? || e.RecordFailure?)
    ensures var w' := Next(c, w, e);
            && (ProcessedIn(w'.table, id, at) ==> ProcessedIn(w.table, id, at) || Marks(w, e, id, at))
            && forall t :: UncommittedAt(w'.ticks, t, id, at) ==>
                 UncommittedAt(w.ticks, t, id, at) || Marks(w, e, id, at)
  {
  }

  lemma OtherMarks(c: Config, w: World, e: Event, id: EventId, at: int)
    requires Enabled(c, w, e) && !(e.Dispatch? || e.Mark? || e.MarkFails? || e.RecordFailure? || e.Commit?)
    ensures var w' := Next(c, w, e);
            && (ProcessedIn(w'.table, id, at) ==> ProcessedIn(w.table, id, at))
            && forall t :: UncommittedAt(w'.ticks, t, id, at) ==> UncommittedAt(w.ticks, t, id, at)
  {
  }

  lemma MarkedStep(c: Config, w: World, e: Event, id: EventId, at: int)
    requires Enabled(c, w, e) && ProcessedAt(Next(c, w, e), id, at)
    ensures ProcessedAt(w, id, at) || Marks(w, e, id, at)
  {
    if e.Dispatch? || e.Mark? || e.MarkFails? || e.RecordFailure? {
      WorkMarks(c, w, e, id, at);
    } else if e.Commit? {
      assert ProcessedIn(Next(c, w, e).table, id, at) ==>
             ProcessedIn(w.table, id, at) || UncommittedAt(w.ticks, e.t, id, at);
      assert forall t :: UncommittedAt(w.ticks - {e.t}, t, id, at) ==> UncommittedAt(w.ticks, t, id, at);
    } else {
      OtherMarks(c, w, e, id, at);
    }
  }

  lemma {:induction false} EveryMarkIsATicks(c: Config, ws: seq<World>, es: seq<Event>, i: nat, id: EventId, at: int)
    requires IsRun(c, ws, es) && i <= |es| && ProcessedAt(ws[i], id, at)
    ensures exists m :: 0 <= m < i && Marks(ws[m], es[m], id, at)
  {
    if i > 0 {
      MarkedStep(c, ws[i - 1], es[i - 1], id, at);
      if !Marks(ws[i - 1], es[i - 1], id, at) {
        EveryMarkIsATicks(c, ws, es, i - 1, id, at);
      }
    }
  }

  /** A row's processedAt is the time at which a tick began that has marked this very row. */
  lemma ProcessedAtIsTheTicksTime(c: Config, ws: seq<World>, es: seq<Event>, i: nat, id: EventId)
    requires IsRun(c, ws, es) && i <= |es| && id in ws[i].table && ws[i].table[id].processedAt.Some?
    ensures exists m :: 0 <= m < i && Marks(ws[m], es[m], id, ws[i].table[id].processedAt.value)
  {
    EveryMarkIsATicks(c, ws, es, i, id, ws[i].table[id].processedAt.value);
  }

  predicate Claims(e: Event, id: EventId) {
    e.Begin? && id in e.ids
  }

  /** A processed row is never claimed again, whatever operators do to it. */
  lemma ProcessedIsNeverClaimed(c: Config, ws: seq<World>, es: seq<Event>, i: nat, j: nat, id: EventId)
    requires IsRun(c, ws, es) && i <= j < |es| && id in ws[i].table && ws[i].table[id].processedAt != None
    ensures !Claims(es[j], id)
  {
    ProcessedAtIsWriteOnce(c, ws, es, i, j, id);
  }

  /** Dead letters have a reason, and live rows have retries left, in every reachable state. */
  lemma DeadLettersHaveReasons(c: Config, ws: seq<World>, es: seq<Event>, i: nat, id: EventId)
    requires IsRun(c, ws, es) && i <= |es| && id in ws[i].table
    ensures ws[i].table[id].failedAt != None ==> ws[i].table[id].dlqReason != None
    ensures ws[i].table[id].failedAt == None ==> ws[i].table[id].attemptCount <= c.maxRetries
    ensures var r := ws[i].table[id];
            && r.lastError == (if r.history == [] then None else Some(r.history[|r.history| - 1].error))
            && (r.processedAt == None ==>
                  r.lastAttemptAt == if r.history == [] then None else Some(r.history[|r.history| - 1].at))
  {
    InvariantHolds(c, ws, es, i);
    assert RowOk(c, ws[i].table[id]);
  }

  lemma {:induction false} FailedStays(c: Config, ws: seq<World>, es: seq<Event>, i: nat, j: nat, id: EventId)
    requires IsRun(c, ws, es) && i <= j <= |es| && id in ws[i].table && ws[i].table[id].failedAt != None
    requires forall m | i <= m < j :: !IsRetryOf(ws[m], es[m], id)
    ensures id in ws[j].table && ws[j].table[id].failedAt != None
    decreases j
  {
    if i < j {
      FailedStays(c, ws, es, i, j - 1, id);
      RunStep(c, ws, es, j - 1, id);
    }
  }

  /** A dead-lettered row is claimed again only after an operator has retried it. */
  lemma DeadLetterNeedsOperator(c: Config, ws: seq<World>, es: seq<Event>, i: nat, j: nat, id: EventId)
    requires IsRun(c, ws, es) && i <= j < |es| && id in ws[i].table && ws[i].table[id].failedAt != None
    requires Claims(es[j], id)
    ensures exists m | i <= m < j :: IsRetryOf(ws[m], es[m], id)
  {
    if forall m | i <= m < j :: !IsRetryOf(ws[m], es[m], id) {
      FailedStays(c, ws, es, i, j, id);
      assert false;
    }
  }

  // Concurrent ticks ------------------------------------------------------------------------------

  ghost predicate Reachable(c: Config, w: World) {
    exists ws: seq<World>, es: seq<Event> :: RunTo(c, ws, es, w)
  }

  ghost predicate RunTo(c: Config, ws: seq<World>, es: seq<Event>, w: World) {
    IsRun(c, ws, es) && ws[|es|] == w
  }

  ghost predicate ClaimsDisjoint(w: World) {
    forall t, t', id | Owns(w.ticks, t, id) && Owns(w.ticks, t', id) :: t == t'
  }

  /** Concurrent ticks never work on the same row exactly when they run inside transactions. */
  lemma ClaimsDisjointIffTransactional(c: Config)
    requires c.batchSize > 0
    ensures (forall w | Reachable(c, w) :: ClaimsDisjoint(w)) <==> c.transactional
  {
    if c.transactional {
      forall w | Reachable(c, w) ensures ClaimsDisjoint(w) {
        var ws, es :| RunTo(c, ws, es, w);
        LocksHoldAlways(c, ws, es, |es|);
      }
    } else {
      var w := SharedRow(c);
      assert Owns(w.ticks, 0, 0) && Owns(w.ticks, 1, 0);
    }
  }

  lemma Step(c: Config, w: World, e: Event) returns (w': World)
    requires Reachable(c, w) && Enabled(c, w, e)
    ensures w' == Next(c, w, e) && Reachable(c, w')
  {
    w' := Next(c, w, e);
    var ws, es :| RunTo(c, ws, es, w);
    assert RunTo(c, ws + [w'], es + [e], w');
  }

  lemma Start(c: Config)
    ensures Reachable(c, EMPTY)
  {
    assert RunTo(c, [EMPTY], [], EMPTY);
  }

  /** With a plain database handle two ticks claim the same row. */
  lemma SharedRow(c: Config) returns (w: World)
    requires c.batchSize > 0 && !c.transactional
    ensures Reachable(c, w)
    ensures var row := NewRow(0);
            var tick := Tick(0, map[0 := row], {0}, map[], map[], map[]);
            w == World(map[0 := row], map[0 := tick, 1 := tick], map[])
  {
    var row := NewRow(0);
    var tick := Tick(0, map[0 := row], {0}, map[], map[], map[]);
    Start(c);
    w := Step(c, EMPTY, Insert(0, 0));
    assert w == World(map[0 := row], map[], map[]);
    ClaimRowZero(c, w, 0, row);
    w := Step(c, w, Begin(0, 0, {0}));
    assert w == World(map[0 := row], map[0 := tick], map[]);
    ClaimRowZero(c, w, 1, row);
    w := Step(c, w, Begin(1, 0, {0}));
  }

  /** A tick at time 0 that has claimed row 0. */
  function ClaimedTick(c: Config, row: Row): Tick {
    Tick(0, map[0 := row], {0}, map[], map[], if c.transactional then map[0 := row] else map[])
  }

  lemma ClaimRowZero(c: Config, w: World, t: nat, row: Row)
    requires w.table == map[0 := row]
    ensures BeginTick(c, w, t, 0, {0}) ==
            w.(ticks := w.ticks[t := ClaimedTick(c, row)])
  {
    assert BeginTick(c, w, t, 0, {0}).ticks[t].claims == map[0 := row];
  }

  /** And then both dispatch it with success: the side effect happens twice. */
  lemma DoubleDispatch(c: Config) returns (ws: seq<World>, es: seq<Event>)
    requires c.batchSize > 0 && !c.transactional
    ensures IsRun(c, ws, es)
    ensures exists i, j | 0 <= i < j < |es| ::
              es[i] == Dispatch(0, 0, Succeeds) && es[j] == Dispatch(1, 0, Succeeds)
  {
    var w := SharedRow(c);
    var more := [Dispatch(0, 0, Succeeds), Dispatch(1, 0, Succeeds)];
    ws, es :| RunTo(c, ws, es, w);
    var w1 := Next(c, w, more[0]);
    var w2 := Next(c, w1, more[1]);
    var n := |es|;
    ws, es := ws + [w1, w2], es + more;
    assert es[n] == Dispatch(0, 0, Succeeds) && es[n + 1] == Dispatch(1, 0, Succeeds);
  }
}
