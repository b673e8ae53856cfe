/**
  How an outbox row paces its retries
  (src/common/outbox/base-outbox-processor.ts, handleFailure and computeNextAttemptIso).

  A tick computes the new columns of a failed row from the copy it claimed. The results below hold as
  long as that copy is still what the row holds, which transactions guarantee; with a plain database
  handle it takes OneAtATime, which ticks that do not overlap satisfy.
*/
module OutboxBackoff {
  import opened Prelude
  import opened Outboxes

  /** Consecutive failures are at least the scheduled backoff apart, and only the last ends the retries. */
  ghost predicate HistoryPaced(c: Config, h: seq<Failure>) {
    && (forall k | 0 < k < |h| :: h[k].at >= h[k - 1].at + BackoffMs(c, k))
    && (forall k | 0 <= k < |h| - 1 :: !h[k].deterministic)
    && |h| <= c.maxRetries + 1
  }

  /** The dead letter is marked with the time of its last failure, and unless discarded with its kind and error. */
  predicate DiedOf(r: Row, h: seq<Failure>) {
    && h != [] && r.failedAt == Some(h[|h| - 1].at) && r.nextAttemptAt == h[|h| - 1].at
    && (r.dlqReason.Some? && !r.dlqReason.value.DiscardedByOperator? ==>
          r.dlqReason.value == if h[|h| - 1].deterministic then DeterministicFailure(h[|h| - 1].error)
                               else ExhaustedRetries(h[|h| - 1].error))
  }

  /** The row's columns are a summary of the failures since it was inserted or last retried by hand. */
  ghost predicate RowPaced(c: Config, r: Row) {
    && HistoryPaced(c, r.history)
    && r.attemptCount == |r.history|
    && (Unfinished(r) && r.history != [] ==>
          && |r.history| <= c.maxRetries && !r.history[|r.history| - 1].deterministic
          && r.nextAttemptAt == r.history[|r.history| - 1].at + BackoffMs(c, |r.history|))
    && (r.processedAt != None ==> r.failedAt == None && |r.history| <= c.maxRetries)
    && (r.failedAt != None ==> DiedOf(r, r.history))
    && (r.failedAt != None ==>
          r.history != [] && (r.history[|r.history| - 1].deterministic || |r.history| == c.maxRetries + 1))
  }

  /** The tick has claimed the row and has not settled it yet: it has still to dispatch, mark or fail it. */
  predicate InHand(tick: Tick, id: EventId) {
    id in tick.todo || id in tick.done || id in tick.failed
  }

  predicate Busy(ticks: map<nat, Tick>, t: nat, id: EventId) {
    t in ticks && InHand(ticks[t], id)
  }

  ghost predicate OneBusy(ticks: map<nat, Tick>, id: EventId) {
    forall t, t' | Busy(ticks, t, id) && Busy(ticks, t', id) :: t == t'
  }

  /** An operator's retry that really re-queues this row. */
  predicate Resets(w: World, e: Event, id: EventId) {
    && id in w.table
    && ((e.RetryAll? && InDlq(w.table[id])) || (e.RetryOne? && e.op in w.checked && w.checked[e.op] == id))
  }

  ghost predicate Alone(w: World, e: Event, id: EventId) {
    OneBusy(w.ticks, id) && (Resets(w, e, id) ==> forall t :: !Busy(w.ticks, t, id))
  }

  /** No two ticks deal with the row at the same time, and no operator re-queues it while one does. */
  ghost predicate OneAtATime(ws: seq<World>, es: seq<Event>, i: nat, id: EventId)
    requires i <= |es| <= |ws|
  {
    forall m | 0 <= m < i :: Alone(ws[m], es[m], id)
  }

  /** Ticks that never overlap, as behind a scheduler lock, are one at a time if operators wait for them. */
  lemma SerialTicksAreAlone(ws: seq<World>, es: seq<Event>, i: nat, id: EventId)
    requires i <= |es| <= |ws|
    requires forall m, t, t' | 0 <= m < i && t in ws[m].ticks && t' in ws[m].ticks :: t == t'
    requires forall m | 0 <= m < i && Resets(ws[m], es[m], id) :: ws[m].ticks == map[]
    ensures OneAtATime(ws, es, i, id)
  {
    forall m | 0 <= m < i ensures Alone(ws[m], es[m], id) {
    }
  }

  lemma FailurePaced(c: Config, r: Row, f: Failure)
    requires RowPaced(c, r) && Pending(r, f.at)
    ensures RowPaced(c, HandleFailure(c, r, r.attemptCount, f))
  {
    var h, h' := r.history, r.history + [f];
    assert HandleFailure(c, r, r.attemptCount, f).history == h';
    forall k | 0 < k < |h'| ensures h'[k].at >= h'[k - 1].at + BackoffMs(c, k) {
      if k < |h| {
        assert h[k].at >= h[k - 1].at + BackoffMs(c, k);
      }
    }
    assert r.history == [] || |r.history| <= c.maxRetries;
  }

  // A step for another row ----------------------------------------------------------------------------

  /** To the row it makes no difference that the tick has gone on. */
  ghost predicate SameFor(tick: Tick, tick': Tick, id: EventId) {
    && tick'.claims == tick.claims && tick'.now == tick.now
    && (id in tick'.todo <==> id in tick.todo) && (id in tick'.done <==> id in tick.done)
    && (id in tick'.failed <==> id in tick.failed) && (id in tick.failed ==> tick'.failed[id] == tick.failed[id])
    && (id in tick'.work <==> id in tick.work) && (id in tick.work ==> tick'.work[id] == tick.work[id])
  }

  /** Tick t goes on, and neither its state nor the table changes for the row. */
  ghost predicate TickGoesOn(w: World, w': World, t: nat, id: EventId) {
    && t in w.ticks && t in w'.ticks && w'.ticks == w.ticks[t := w'.ticks[t]]
    && (id in w'.table <==> id in w.table) && (id in w.table ==> w'.table[id] == w.table[id])
    && SameFor(w.ticks[t], w'.ticks[t], id)
  }

  lemma DispatchOther(w: World, t: nat, row: EventId, outcome: DispatchOutcome, id: EventId)
    requires t in w.ticks && row != id
    ensures TickGoesOn(w, DispatchRow(w, t, row, outcome), t, id)
  {
  }

  lemma MarkOther(c: Config, w: World, t: nat, row: EventId, id: EventId)
    requires t in w.ticks && row != id
    ensures TickGoesOn(w, MarkRow(c, w, t, row), t, id)
  {
  }

  lemma RecordOther(c: Config, w: World, t: nat, row: EventId, id: EventId)
    requires t in w.ticks && row in w.ticks[t].failed && row != id
    ensures TickGoesOn(w, RecordRow(c, w, t, row), t, id)
  {
  }

  lemma MisrecordOther(w: World, t: nat, row: EventId, error: string, id: EventId)
    requires t in w.ticks && row != id
    ensures TickGoesOn(w, MisrecordRow(w, t, row, error), t, id)
  {
  }

  // Inside transactions -------------------------------------------------------------------------------

  /** What a transactional tick holds of a row; until the row is dealt with it is as it was claimed. */
  ghost predicate TickPaced(c: Config, tick: Tick, id: EventId) {
    && id in tick.claims && id in tick.work && RowPaced(c, tick.work[id]) && Pending(tick.claims[id], tick.now)
    && (InHand(tick, id) ==> tick.work[id] == tick.claims[id])
    && (tick.work[id].processedAt != None ==> |tick.work[id].history| == |tick.claims[id].history|)
    && (id in tick.failed ==> tick.failed[id].at == tick.now)
    && |tick.claims[id].history| <= |tick.work[id].history| <= |tick.claims[id].history| + 1
  }

  ghost predicate PacedInside(c: Config, w: World, id: EventId) {
    && (id in w.table ==> RowPaced(c, w.table[id]))
    && forall t | Owns(w.ticks, t, id) :: TickPaced(c, w.ticks[t], id)
  }

  /** A step that touches one tick and no committed row. */
  lemma TickStepPaced(c: Config, w: World, w': World, t: nat, id: EventId)
    requires PacedInside(c, w, id) && (id in w'.table ==> id in w.table && w'.table[id] == w.table[id])
    requires t in w'.ticks && w'.ticks == w.ticks[t := w'.ticks[t]]
    requires id in w'.ticks[t].claims ==> TickPaced(c, w'.ticks[t], id)
    ensures PacedInside(c, w', id)
  {
    forall t' | Owns(w'.ticks, t', id) ensures TickPaced(c, w'.ticks[t'], id) {
      if t' != t {
        assert Owns(w.ticks, t', id);
      }
    }
  }

  lemma BeginPaced(c: Config, w: World, t: nat, now: int, ids: set<EventId>, id: EventId)
    requires c.transactional && PacedInside(c, w, id) && Enabled(c, w, Begin(t, now, ids))
    ensures PacedInside(c, BeginTick(c, w, t, now, ids), id)
  {
    TickStepPaced(c, w, BeginTick(c, w, t, now, ids), t, id);
  }

  /** Tick t settles another row. */
  lemma OtherRowPaced(c: Config, w: World, w': World, t: nat, id: EventId)
    requires PacedInside(c, w, id) && TickGoesOn(w, w', t, id)
    ensures PacedInside(c, w', id)
  {
    if id in w'.ticks[t].claims {
      assert Owns(w.ticks, t, id);
    }
    TickStepPaced(c, w, w', t, id);
  }

  lemma DispatchPaced(c: Config, w: World, t: nat, row: EventId, outcome: DispatchOutcome, id: EventId)
    requires c.transactional && Invariant(c, w) && PacedInside(c, w, id) && Enabled(c, w, Dispatch(t, row, outcome))
    ensures PacedInside(c, DispatchRow(w, t, row, outcome), id)
  {
    var w' := DispatchRow(w, t, row, outcome);
    if row == id {
      assert TickOk(c, w.ticks[t]) && Owns(w.ticks, t, id);
      TickStepPaced(c, w, w', t, id);
    } else {
      DispatchOther(w, t, row, outcome, id);
      OtherRowPaced(c, w, w', t, id);
    }
  }

  lemma MarkPaced(c: Config, w: World, t: nat, row: EventId, id: EventId)
    requires c.transactional && Invariant(c, w) && PacedInside(c, w, id) && Enabled(c, w, Mark(t, row))
    ensures PacedInside(c, MarkRow(c, w, t, row), id)
  {
    var w' := MarkRow(c, w, t, row);
    if row == id {
      assert TickOk(c, w.ticks[t]) && Owns(w.ticks, t, id);
      TickStepPaced(c, w, w', t, id);
    } else {
      MarkOther(c, w, t, row, id);
      OtherRowPaced(c, w, w', t, id);
    }
  }

  lemma RecordedTickPaced(c: Config, tick: Tick, id: EventId)
    requires TickPaced(c, tick, id) && id in tick.failed && id !in tick.todo && id !in tick.done
    ensures var r := HandleFailure(c, tick.work[id], tick.claims[id].attemptCount, tick.failed[id]);
            TickPaced(c, tick.(failed := tick.failed - {id}, work := tick.work[id := r]), id)
  {
    FailurePaced(c, tick.work[id], tick.failed[id]);
  }

  lemma RecordOwnPaced(c: Config, w: World, t: nat, id: EventId)
    requires c.transactional && Invariant(c, w) && PacedInside(c, w, id) && Enabled(c, w, RecordFailure(t, id))
    ensures PacedInside(c, RecordRow(c, w, t, id), id)
  {
    assert TickOk(c, w.ticks[t]) && Owns(w.ticks, t, id);
    RecordedTickPaced(c, w.ticks[t], id);
    TickStepPaced(c, w, RecordRow(c, w, t, id), t, id);
  }

  lemma RecordPaced(c: Config, w: World, t: nat, row: EventId, id: EventId)
    requires c.transactional && Invariant(c, w) && PacedInside(c, w, id) && Enabled(c, w, RecordFailure(t, row))
    ensures PacedInside(c, RecordRow(c, w, t, row), id)
  {
    if row == id {
      RecordOwnPaced(c, w, t, id);
    } else {
      RecordOther(c, w, t, row, id);
      OtherRowPaced(c, w, RecordRow(c, w, t, row), t, id);
    }
  }

  lemma CommitPaced(c: Config, w: World, t: nat, id: EventId)
    requires c.transactional && Invariant(c, w) && PacedInside(c, w, id) && Enabled(c, w, Commit(t))
    ensures PacedInside(c, Next(c, w, Commit(t)), id)
  {
    assert TickOk(c, w.ticks[t]);
    assert id in w.ticks[t].claims ==> Owns(w.ticks, t, id);
    assert forall t' :: Owns(w.ticks - {t}, t', id) ==> Owns(w.ticks, t', id);
  }

  lemma OperatorPaced(c: Config, w: World, e: Event, id: EventId)
    requires PacedInside(c, w, id) && Enabled(c, w, e)
    requires !e.Begin? && !e.Dispatch? && !e.Mark? && !e.MarkFails? && !e.RecordFailure? && !e.Commit?
    ensures PacedInside(c, Next(c, w, e), id)
  {
    var w' := Next(c, w, e);
    assert forall t' :: Owns(w'.ticks, t', id) ==> Owns(w.ticks, t', id) && w'.ticks[t'] == w.ticks[t'];
  }

  lemma PacedInsideStep(c: Config, w: World, e: Event, id: EventId)
    requires c.transactional && Invariant(c, w) && PacedInside(c, w, id) && Enabled(c, w, e)
    ensures PacedInside(c, Next(c, w, e), id)
  {
    match e
    case Begin(t, now, ids) => BeginPaced(c, w, t, now, ids, id);
    case Dispatch(t, row, outcome) => DispatchPaced(c, w, t, row, outcome, id);
    case Mark(t, row) => MarkPaced(c, w, t, row, id);
    case RecordFailure(t, row) => RecordPaced(c, w, t, row, id);
    case MarkFails(_, _, _) => assert false;
    case Commit(t) => CommitPaced(c, w, t, id);
    case _ => OperatorPaced(c, w, e, id);
  }

  // With a plain handle ---------------------------------------------------------------------------------

  /** The columns handleFailure computes with are still those of the claimed copy. */
  predicate SameProgress(r: Row, claimed: Row) {
    && r.processedAt == claimed.processedAt && r.failedAt == claimed.failedAt
    && r.attemptCount == claimed.attemptCount && r.nextAttemptAt == claimed.nextAttemptAt
    && r.history == claimed.history
  }

  ghost predicate BusyPaced(r: Row, tick: Tick, id: EventId) {
    && id in tick.claims && Pending(tick.claims[id], tick.now) && SameProgress(r, tick.claims[id])
    && (id in tick.failed ==> tick.failed[id].at == tick.now)
  }

  ghost predicate PacedOutside(c: Config, w: World, id: EventId) {
    && (id in w.table ==> RowPaced(c, w.table[id]))
    && forall t | Busy(w.ticks, t, id) :: id in w.table && BusyPaced(w.table[id], w.ticks[t], id)
  }

  lemma BeginOutside(c: Config, w: World, t: nat, now: int, ids: set<EventId>, id: EventId)
    requires PacedOutside(c, w, id) && Enabled(c, w, Begin(t, now, ids))
    ensures PacedOutside(c, BeginTick(c, w, t, now, ids), id)
  {
    var w' := BeginTick(c, w, t, now, ids);
    forall t' | Busy(w'.ticks, t', id) ensures id in w'.table && BusyPaced(w'.table[id], w'.ticks[t'], id) {
      if t' != t {
        assert Busy(w.ticks, t', id);
      }
    }
  }

  /** Tick t has dealt with the row, or is about to, and nobody else is. */
  lemma UpdateOutside(c: Config, w: World, w': World, t: nat, id: EventId)
    requires PacedOutside(c, w, id) && OneBusy(w.ticks, id) && t in w'.ticks && w'.ticks == w.ticks[t := w'.ticks[t]]
    requires Busy(w.ticks, t, id) && id in w'.table && RowPaced(c, w'.table[id])
    requires Busy(w'.ticks, t, id) ==> BusyPaced(w'.table[id], w'.ticks[t], id)
    ensures PacedOutside(c, w', id)
  {
    forall t' | Busy(w'.ticks, t', id) ensures t' == t {
      assert t' != t ==> Busy(w.ticks, t', id);
    }
  }

  /** Tick t deals with another row. */
  lemma OtherRowOutside(c: Config, w: World, w': World, t: nat, id: EventId)
    requires PacedOutside(c, w, id) && TickGoesOn(w, w', t, id)
    ensures PacedOutside(c, w', id)
  {
    forall t' | Busy(w'.ticks, t', id) ensures Busy(w.ticks, t', id) {
    }
  }

  lemma DispatchOutside(c: Config, w: World, t: nat, row: EventId, outcome: DispatchOutcome, id: EventId)
    requires !c.transactional && Invariant(c, w) && PacedOutside(c, w, id) && OneBusy(w.ticks, id)
    requires Enabled(c, w, Dispatch(t, row, outcome))
    ensures PacedOutside(c, DispatchRow(w, t, row, outcome), id)
  {
    var w' := DispatchRow(w, t, row, outcome);
    assert TickOk(c, w.ticks[t]);
    if row == id {
      assert Busy(w.ticks, t, id);
      UpdateOutside(c, w, w', t, id);
    } else {
      DispatchOther(w, t, row, outcome, id);
      OtherRowOutside(c, w, w', t, id);
    }
  }

  lemma MarkOutside(c: Config, w: World, t: nat, row: EventId, id: EventId)
    requires !c.transactional && Invariant(c, w) && PacedOutside(c, w, id) && OneBusy(w.ticks, id)
    requires Enabled(c, w, Mark(t, row))
    ensures PacedOutside(c, MarkRow(c, w, t, row), id)
  {
    var w' := MarkRow(c, w, t, row);
    assert TickOk(c, w.ticks[t]);
    if row == id {
      assert Busy(w.ticks, t, id);
      UpdateOutside(c, w, w', t, id);
    } else {
      MarkOther(c, w, t, row, id);
      OtherRowOutside(c, w, w', t, id);
    }
  }

  lemma MisrecordOutside(c: Config, w: World, t: nat, row: EventId, error: string, id: EventId)
    requires !c.transactional && Invariant(c, w) && PacedOutside(c, w, id) && OneBusy(w.ticks, id)
    requires Enabled(c, w, MarkFails(t, row, error))
    ensures PacedOutside(c, MisrecordRow(w, t, row, error), id)
  {
    var w' := MisrecordRow(w, t, row, error);
    assert TickOk(c, w.ticks[t]);
    if row == id {
      assert Busy(w.ticks, t, id);
      UpdateOutside(c, w, w', t, id);
    } else {
      MisrecordOther(w, t, row, error, id);
      OtherRowOutside(c, w, w', t, id);
    }
  }

  lemma RecordOutside(c: Config, w: World, t: nat, row: EventId, id: EventId)
    requires !c.transactional && Invariant(c, w) && PacedOutside(c, w, id) && OneBusy(w.ticks, id)
    requires Enabled(c, w, RecordFailure(t, row))
    ensures PacedOutside(c, RecordRow(c, w, t, row), id)
  {
    var w' := RecordRow(c, w, t, row);
    assert TickOk(c, w.ticks[t]);
    if row == id {
      assert Busy(w.ticks, t, id);
      FailurePaced(c, w.table[id], w.ticks[t].failed[id]);
      UpdateOutside(c, w, w', t, id);
    } else {
      RecordOther(c, w, t, row, id);
      OtherRowOutside(c, w, w', t, id);
    }
  }

  lemma OperatorOutside(c: Config, w: World, e: Event, id: EventId)
    requires !c.transactional && PacedOutside(c, w, id) && Enabled(c, w, e)
    requires Resets(w, e, id) ==> forall t :: !Busy(w.ticks, t, id)
    requires !e.Begin? && !e.Dispatch? && !e.Mark? && !e.MarkFails? && !e.RecordFailure?
    ensures PacedOutside(c, Next(c, w, e), id)
  {
    var w' := Next(c, w, e);
    forall t | Busy(w'.ticks, t, id) ensures Busy(w.ticks, t, id) && w'.ticks[t] == w.ticks[t] {
    }
  }

  lemma PacedOutsideStep(c: Config, w: World, e: Event, id: EventId)
    requires !c.transactional && Invariant(c, w) && PacedOutside(c, w, id) && Enabled(c, w, e) && Alone(w, e, id)
    ensures PacedOutside(c, Next(c, w, e), id)
  {
    match e
    case Begin(t, now, ids) => BeginOutside(c, w, t, now, ids, id);
    case Dispatch(t, row, outcome) => DispatchOutside(c, w, t, row, outcome, id);
    case Mark(t, row) => MarkOutside(c, w, t, row, id);
    case MarkFails(t, row, error) => MisrecordOutside(c, w, t, row, error, id);
    case RecordFailure(t, row) => RecordOutside(c, w, t, row, id);
    case _ => OperatorOutside(c, w, e, id);
  }

  // Both ------------------------------------------------------------------------------------------------

  ghost predicate Paced(c: Config, w: World, id: EventId) {
    if c.transactional then PacedInside(c, w, id) else PacedOutside(c, w, id)
  }

  lemma {:induction false} PacedHolds(c: Config, ws: seq<World>, es: seq<Event>, i: nat, id: EventId)
    requires IsRun(c, ws, es) && i <= |es| && (c.transactional || OneAtATime(ws, es, i, id))
    ensures Paced(c, ws[i], id)
  {
    if i > 0 {
      PacedHolds(c, ws, es, i - 1, id);
      InvariantHolds(c, ws, es, i - 1);
      if c.transactional {
        PacedInsideStep(c, ws[i - 1], es[i - 1], id);
      } else {
        PacedOutsideStep(c, ws[i - 1], es[i - 1], id);
      }
      assert ws[i] == Next(c, ws[i - 1], es[i - 1]);
    }
  }

  // ---------------------------------------------------------------------------------------------
  // Time
  // ---------------------------------------------------------------------------------------------

  lemma DoubleDelay(b: int, p: int)
    ensures b * (2 * p - 1) == b * (p - 1) + b * p
  {
  }

  /** k failures in a row span at least base * (2^(k-1) - 1) seconds. */
  lemma {:induction false} HistorySpan(c: Config, h: seq<Failure>, k: nat)
    requires HistoryPaced(c, h) && k < |h|
    ensures h[k].at - h[0].at >= 1000 * (c.baseDelaySeconds * (Pow2(k) - 1))
  {
    if k > 0 {
      HistorySpan(c, h, k - 1);
      assert h[k].at >= h[k - 1].at + BackoffMs(c, k);
      DoubleDelay(c.baseDelaySeconds, Pow2(k - 1));
    }
  }

  /** After a failure that is not final: the first delay is the base delay, and each further one is twice as long. */
  lemma DelayDoubles(c: Config, r: Row, n: nat, f: Failure, r': Row, f': Failure)
    requires r.processedAt == r'.processedAt == None && !f.deterministic && !f'.deterministic && n < c.maxRetries
    ensures n == 0 ==> HandleFailure(c, r, n, f).nextAttemptAt == f.at + 1000 * c.baseDelaySeconds
    ensures n + 1 < c.maxRetries ==>
              HandleFailure(c, r', n + 1, f').nextAttemptAt - f'.at ==
              2 * (HandleFailure(c, r, n, f).nextAttemptAt - f.at)
  {
    DoubleDelay(c.baseDelaySeconds, Pow2(n));
  }

  /** How long after its last failure a live row waits. */
  function Wait(r: Row): int
    requires r.history != []
  {
    r.nextAttemptAt - r.history[|r.history| - 1].at
  }

  /** A row that has failed and is still live. */
  ghost predicate WaitsAgain(c: Config, ws: seq<World>, es: seq<Event>, i: nat, id: EventId) {
    && IsRun(c, ws, es) && i <= |es| && (c.transactional || OneAtATime(ws, es, i, id))
    && id in ws[i].table && Unfinished(ws[i].table[id]) && ws[i].table[id].history != []
  }

  /**
    Over all runs: after its first failure a live row waits exactly the base delay, and one that has failed
    once more than another, in the same or any other run, waits exactly twice as long.
  */
  lemma WaitIsExact(c: Config, ws: seq<World>, es: seq<Event>, i: nat, id: EventId, vs: seq<World>, ds: seq<Event>,
                    j: nat, other: EventId)
    requires WaitsAgain(c, ws, es, i, id) && WaitsAgain(c, vs, ds, j, other)
    ensures var r, r' := ws[i].table[id], vs[j].table[other];
            && (|r.history| == 1 ==> Wait(r) == 1000 * c.baseDelaySeconds)
            && (|r'.history| == |r.history| + 1 ==> Wait(r') == 2 * Wait(r))
            && (|r'.history| == |r.history| ==> Wait(r') == Wait(r))
  {
    WaitIsBackoff(c, ws, es, i, id);
    WaitIsBackoff(c, vs, ds, j, other);
    DoubleDelay(c.baseDelaySeconds, Pow2(|ws[i].table[id].history| - 1));
  }

  lemma WaitIsBackoff(c: Config, ws: seq<World>, es: seq<Event>, i: nat, id: EventId)
    requires WaitsAgain(c, ws, es, i, id)
    ensures Wait(ws[i].table[id]) == BackoffMs(c, |ws[i].table[id].history|)
  {
    PacedHolds(c, ws, es, i, id);
  }

  /**
    The backoff bound: consecutive failing ticks of a row are at least base * 2^(k-1) seconds apart, and
    a row that ran out of retries spent at least base * (2^maxRetries - 1) seconds failing.
  */
  lemma BackoffBound(c: Config, ws: seq<World>, es: seq<Event>, i: nat, id: EventId)
    requires IsRun(c, ws, es) && i <= |es| && id in ws[i].table && (c.transactional || OneAtATime(ws, es, i, id))
    ensures var h := ws[i].table[id].history;
            && |h| == ws[i].table[id].attemptCount <= c.maxRetries + 1
            && (forall k | 0 < k < |h| :: h[k].at - h[k - 1].at >= 1000 * (c.baseDelaySeconds * Pow2(k - 1)))
            && (ws[i].table[id].failedAt != None ==> DiedOf(ws[i].table[id], h))
            && (ws[i].table[id].failedAt != None && !h[|h| - 1].deterministic ==>
                  h[|h| - 1].at - h[0].at >= 1000 * (c.baseDelaySeconds * (Pow2(c.maxRetries) - 1)))
  {
    PacedHolds(c, ws, es, i, id);
    PacedRowSpan(c, ws[i].table[id]);
  }

  lemma PacedRowSpan(c: Config, r: Row)
    requires RowPaced(c, r)
    ensures forall k | 0 < k < |r.history| ::
              r.history[k].at - r.history[k - 1].at >= 1000 * (c.baseDelaySeconds * Pow2(k - 1))
    ensures r.failedAt != None ==> r.history != []
    ensures r.failedAt != None && !r.history[|r.history| - 1].deterministic ==>
              r.history[|r.history| - 1].at - r.history[0].at >= 1000 * (c.baseDelaySeconds * (Pow2(c.maxRetries) - 1))
  {
    if r.failedAt != None && !r.history[|r.history| - 1].deterministic {
      HistorySpan(c, r.history, c.maxRetries);
    }
  }
}
