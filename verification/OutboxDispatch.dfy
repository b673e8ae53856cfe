/**
  How often an outbox row is dispatched, and when a dispatch repeats one that had its effect already
  (src/common/outbox/base-outbox-processor.ts, runProcessPendingEvents).

  A dispatch that does not fail is settled once its row is marked processed. Between the two the tick can
  die, in a transaction also later, and then the row is dispatched again.
*/
module OutboxDispatches {
  import opened Prelude
  import opened Outboxes
  import opened OutboxBackoff

  predicate FailsToDispatch(e: Event, id: EventId) {
    e.Dispatch? && e.id == id && e.outcome.Fails?
  }

  /** dispatch(row) returns, or finds that its effect is already there. */
  predicate Delivers(e: Event, id: EventId) {
    e.Dispatch? && e.id == id && !e.outcome.Fails?
  }

  /** A delivery is taken for a failure, because markProcessed failed after it. */
  predicate Misrecords(e: Event, id: EventId) {
    e.MarkFails? && e.id == id
  }

  /** A dying tick forgets a failure of the row: not recorded yet, or the record not committed. */
  predicate Forgets(c: Config, tick: Tick, id: EventId) {
    || id in tick.failed
    || (c.transactional && id in tick.work && id in tick.claims && |tick.work[id].history| > |tick.claims[id].history|)
  }

  /** Failures the row's columns stop speaking of in this step: by a dying tick or by an operator's retry. */
  function WrittenOff(c: Config, w: World, e: Event, id: EventId): nat {
    if e.Abort? then (if e.t in w.ticks && Forgets(c, w.ticks[e.t], id) then 1 else 0)
    else if Resets(w, e, id) then |w.table[id].history|
    else 0
  }

  /** The tick has delivered the row and not committed that it is processed. */
  predicate Uncommitted(c: Config, tick: Tick, id: EventId) {
    id in tick.done || (c.transactional && id in tick.work && tick.work[id].processedAt != None)
  }

  predicate LosesDelivery(c: Config, w: World, e: Event, id: EventId) {
    e.Abort? && e.t in w.ticks && Uncommitted(c, w.ticks[e.t], id)
  }

  function Ones(b: bool): nat {
    if b then 1 else 0
  }

  /** By how much a step changes the failures the row still has, and the deliveries it still has. */
  function FailureChange(c: Config, w: World, e: Event, id: EventId): int {
    Ones(FailsToDispatch(e, id)) + Ones(Misrecords(e, id)) - WrittenOff(c, w, e, id)
  }

  function DeliveryChange(c: Config, w: World, e: Event, id: EventId): int {
    Ones(Delivers(e, id)) - Ones(Misrecords(e, id)) - Ones(LosesDelivery(c, w, e, id))
  }

  /** What has happened to a row in a run so far. */
  datatype Account = Account(failed: nat, delivered: nat, misrecorded: nat, writtenOff: nat, lost: nat) {
    function Dispatches(): nat {
      failed + delivered
    }

    function Charged(c: Config, w: World, e: Event, id: EventId): Account {
      Account(failed + Ones(FailsToDispatch(e, id)), delivered + Ones(Delivers(e, id)),
              misrecorded + Ones(Misrecords(e, id)), writtenOff + WrittenOff(c, w, e, id),
              lost + Ones(LosesDelivery(c, w, e, id)))
    }

    /** Failures that the row still has, and deliveries that it still has. */
    function Failures(): int {
      failed + misrecorded - writtenOff
    }

    function Deliveries(): int {
      delivered - misrecorded - lost
    }
  }

  function AccountOf(c: Config, ws: seq<World>, es: seq<Event>, id: EventId, n: nat): Account
    requires n <= |es| <= |ws|
  {
    if n == 0 then Account(0, 0, 0, 0, 0) else AccountOf(c, ws, es, id, n - 1).Charged(c, ws[n - 1], es[n - 1], id)
  }

  // Inside transactions -------------------------------------------------------------------------------

  /** The row has f failures and d deliveries, recorded or about to be recorded, wherever it is. */
  ghost predicate TallyInside(w: World, id: EventId, f: int, d: int) {
    && (id !in w.table ==> f == d == 0)
    && (forall t | Owns(w.ticks, t, id) :: TickTally(w.ticks[t], id, f, d))
    && (id in w.table && (forall t :: !Owns(w.ticks, t, id)) ==> RowTally(w.table[id], f, d))
  }

  predicate RowTally(r: Row, f: int, d: int) {
    f == |r.history| && d == Ones(r.processedAt != None)
  }

  predicate TickTally(tick: Tick, id: EventId, f: int, d: int) {
    id in tick.work && RowTally(tick.work[id], f - Ones(id in tick.failed), d - Ones(id in tick.done))
  }

  /** A step inside one tick counts for the rows that tick holds. */
  lemma TickStepTally(w: World, w': World, t: nat, id: EventId, f: int, d: int, f': int, d': int)
    requires Exclusive(w.table, w.ticks) && TallyInside(w, id, f, d) && t in w.ticks
    requires (id in w'.table <==> id in w.table) && (id in w.table ==> w'.table[id] == w.table[id])
    requires t in w'.ticks && w'.ticks == w.ticks[t := w'.ticks[t]] && w'.ticks[t].claims == w.ticks[t].claims
    requires if Owns(w.ticks, t, id) then TickTally(w'.ticks[t], id, f', d') else f' == f && d' == d
    ensures TallyInside(w', id, f', d')
  {
    assert forall t' :: Owns(w'.ticks, t', id) <==> Owns(w.ticks, t', id);
  }

  /** Tick t goes on with another row. */
  lemma OtherRowTally(w: World, w': World, t: nat, id: EventId, f: int, d: int)
    requires Exclusive(w.table, w.ticks) && TallyInside(w, id, f, d) && TickGoesOn(w, w', t, id)
    ensures TallyInside(w', id, f, d)
  {
    if Owns(w.ticks, t, id) {
      assert TickTally(w.ticks[t], id, f, d);
    }
    TickStepTally(w, w', t, id, f, d, f, d);
  }

  lemma BeginTally(c: Config, w: World, t: nat, now: int, ids: set<EventId>, id: EventId, f: int, d: int)
    requires c.transactional && Exclusive(w.table, w.ticks) && TallyInside(w, id, f, d)
    requires Enabled(c, w, Begin(t, now, ids))
    ensures TallyInside(BeginTick(c, w, t, now, ids), id, f, d)
  {
    var w' := BeginTick(c, w, t, now, ids);
    forall t' | Owns(w.ticks, t', id) ensures id !in ids && Owns(w'.ticks, t', id) {
      assert Locked(c, w, id) && t' != t;
    }
    if id in ids {
      assert Owns(w'.ticks, t, id);
    }
    forall t' | Owns(w'.ticks, t', id) ensures TickTally(w'.ticks[t'], id, f, d) {
      if t' != t {
        assert Owns(w.ticks, t', id);
      }
    }
  }

  lemma DispatchTally(c: Config, w: World, t: nat, row: EventId, outcome: DispatchOutcome, id: EventId,
                      f: int, d: int, f': int, d': int)
    requires c.transactional && Invariant(c, w) && Exclusive(w.table, w.ticks) && TallyInside(w, id, f, d)
    requires Enabled(c, w, Dispatch(t, row, outcome))
    requires f' == f + Ones(row == id && outcome.Fails?) && d' == d + Ones(row == id && !outcome.Fails?)
    ensures TallyInside(DispatchRow(w, t, row, outcome), id, f', d')
  {
    var w' := DispatchRow(w, t, row, outcome);
    if row == id {
      assert TickOk(c, w.ticks[t]) && Owns(w.ticks, t, row);
      assert TickTally(w.ticks[t], id, f, d);
      TickStepTally(w, w', t, id, f, d, f', d');
    } else {
      DispatchOther(w, t, row, outcome, id);
      OtherRowTally(w, w', t, id, f, d);
    }
  }

  /** Marking or recording moves the row from what is pending to what the row says. */
  lemma MarkTally(c: Config, w: World, t: nat, row: EventId, id: EventId, f: int, d: int)
    requires c.transactional && Invariant(c, w) && Exclusive(w.table, w.ticks) && PacedInside(c, w, id)
    requires TallyInside(w, id, f, d) && Enabled(c, w, Mark(t, row))
    ensures TallyInside(MarkRow(c, w, t, row), id, f, d)
  {
    var w' := MarkRow(c, w, t, row);
    if row == id {
      assert TickOk(c, w.ticks[t]) && Owns(w.ticks, t, row);
      assert TickTally(w.ticks[t], id, f, d) && TickPaced(c, w.ticks[t], id);
      TickStepTally(w, w', t, id, f, d, f, d);
    } else {
      MarkOther(c, w, t, row, id);
      OtherRowTally(w, w', t, id, f, d);
    }
  }

  lemma RecordedTickTally(c: Config, tick: Tick, id: EventId, f: int, d: int)
    requires TickPaced(c, tick, id) && TickTally(tick, id, f, d) && id in tick.failed
    ensures var r := HandleFailure(c, tick.work[id], tick.claims[id].attemptCount, tick.failed[id]);
            TickTally(tick.(failed := tick.failed - {id}, work := tick.work[id := r]), id, f, d)
  {
  }

  lemma RecordedTick(c: Config, w: World, t: nat, id: EventId)
    requires c.transactional && t in w.ticks && id in w.ticks[t].failed
    requires id in w.ticks[t].claims && id in w.ticks[t].work
    ensures var tick := w.ticks[t];
            var r := HandleFailure(c, tick.work[id], tick.claims[id].attemptCount, tick.failed[id]);
            RecordRow(c, w, t, id) ==
            w.(ticks := w.ticks[t := tick.(failed := tick.failed - {id}, work := tick.work[id := r])])
  {
  }

  lemma RecordOwnInside(c: Config, w: World, t: nat, id: EventId, f: int, d: int)
    requires c.transactional && Invariant(c, w) && Exclusive(w.table, w.ticks) && PacedInside(c, w, id)
    requires TallyInside(w, id, f, d) && Enabled(c, w, RecordFailure(t, id))
    ensures TallyInside(RecordRow(c, w, t, id), id, f, d)
  {
    assert TickOk(c, w.ticks[t]) && Owns(w.ticks, t, id);
    RecordedTick(c, w, t, id);
    RecordedTickTally(c, w.ticks[t], id, f, d);
    TickStepTally(w, RecordRow(c, w, t, id), t, id, f, d, f, d);
  }

  lemma RecordTally(c: Config, w: World, t: nat, row: EventId, id: EventId, f: int, d: int)
    requires c.transactional && Invariant(c, w) && Exclusive(w.table, w.ticks) && PacedInside(c, w, id)
    requires TallyInside(w, id, f, d) && Enabled(c, w, RecordFailure(t, row))
    ensures TallyInside(RecordRow(c, w, t, row), id, f, d)
  {
    if row == id {
      RecordOwnInside(c, w, t, id, f, d);
    } else {
      RecordOther(c, w, t, row, id);
      OtherRowTally(w, RecordRow(c, w, t, row), t, id, f, d);
    }
  }

  lemma CommitTally(c: Config, w: World, t: nat, id: EventId, f: int, d: int)
    requires c.transactional && Invariant(c, w) && Exclusive(w.table, w.ticks) && TallyInside(w, id, f, d)
    requires Enabled(c, w, Commit(t))
    ensures TallyInside(Next(c, w, Commit(t)), id, f, d)
  {
    assert TickOk(c, w.ticks[t]);
    if Owns(w.ticks, t, id) {
      CommitOwnTally(w, t, id, f, d);
    } else {
      CommitOtherTally(w, t, id, f, d);
    }
  }

  lemma CommitOwnTally(w: World, t: nat, id: EventId, f: int, d: int)
    requires Exclusive(w.table, w.ticks) && Owns(w.ticks, t, id) && id in w.ticks[t].work
    requires id !in w.ticks[t].failed && id !in w.ticks[t].done && TickTally(w.ticks[t], id, f, d)
    ensures TallyInside(World(w.table + w.ticks[t].work, w.ticks - {t}, w.checked), id, f, d)
  {
    forall t' ensures !Owns(w.ticks - {t}, t', id) {
      assert Owns(w.ticks - {t}, t', id) ==> t' != t && Owns(w.ticks, t', id);
    }
  }

  lemma CommitOtherTally(w: World, t: nat, id: EventId, f: int, d: int)
    requires t in w.ticks && !Owns(w.ticks, t, id) && id !in w.ticks[t].work && TallyInside(w, id, f, d)
    ensures TallyInside(World(w.table + w.ticks[t].work, w.ticks - {t}, w.checked), id, f, d)
  {
    assert forall t' :: Owns(w.ticks - {t}, t', id) <==> Owns(w.ticks, t', id);
  }

  /** What a dying tick leaves is the row it had claimed. */
  lemma DyingTickTally(c: Config, tick: Tick, id: EventId, f: int, d: int)
    requires c.transactional && TickOk(c, tick) && TickPaced(c, tick, id) && TickTally(tick, id, f, d)
    ensures RowTally(tick.claims[id], f - Ones(Forgets(c, tick, id)), d - Ones(Uncommitted(c, tick, id)))
  {
  }

  lemma AbortTally(c: Config, w: World, t: nat, id: EventId, f: int, d: int, f': int, d': int)
    requires c.transactional && Invariant(c, w) && Exclusive(w.table, w.ticks) && PacedInside(c, w, id)
    requires TallyInside(w, id, f, d) && t in w.ticks
    requires f' == f - Ones(Forgets(c, w.ticks[t], id)) && d' == d - Ones(Uncommitted(c, w.ticks[t], id))
    ensures TallyInside(Next(c, w, Abort(t)), id, f', d')
  {
    assert Next(c, w, Abort(t)) == w.(ticks := w.ticks - {t});
    if Owns(w.ticks, t, id) {
      DyingTickTally(c, w.ticks[t], id, f, d);
      DroppedTally(w, t, id, f', d');
    } else {
      NothingToForget(c, w.ticks[t], id);
      UnclaimedTally(w, t, id, f, d);
    }
  }

  lemma NothingToForget(c: Config, tick: Tick, id: EventId)
    requires TickOk(c, tick) && id !in tick.claims
    ensures !Forgets(c, tick, id) && !Uncommitted(c, tick, id)
  {
  }

  lemma UnclaimedTally(w: World, t: nat, id: EventId, f: int, d: int)
    requires TallyInside(w, id, f, d) && !Owns(w.ticks, t, id)
    ensures TallyInside(w.(ticks := w.ticks - {t}), id, f, d)
  {
    assert forall t' :: Owns(w.ticks - {t}, t', id) <==> Owns(w.ticks, t', id);
  }

  lemma DroppedTally(w: World, t: nat, id: EventId, f: int, d: int)
    requires Exclusive(w.table, w.ticks) && Owns(w.ticks, t, id) && RowTally(w.ticks[t].claims[id], f, d)
    ensures TallyInside(w.(ticks := w.ticks - {t}), id, f, d)
  {
    forall t' ensures !Owns(w.ticks - {t}, t', id) {
      assert t' != t && Owns(w.ticks - {t}, t', id) ==> Owns(w.ticks, t', id);
    }
  }

  lemma ResetTally(c: Config, w: World, e: Event, id: EventId, f: int, d: int, f': int, d': int)
    requires c.transactional && Invariant(c, w) && Exclusive(w.table, w.ticks) && TallyInside(w, id, f, d)
    requires Enabled(c, w, e) && Resets(w, e, id)
    requires f' == f - |w.table[id].history| && d' == d
    ensures TallyInside(Next(c, w, e), id, f', d')
  {
    forall t ensures !Owns(w.ticks, t, id) {
      if Owns(w.ticks, t, id) {
        assert TickOk(c, w.ticks[t]);
        assert Unfinished(w.table[id]) && Locked(c, w, id);
      }
    }
  }

  lemma OperatorTally(c: Config, w: World, e: Event, id: EventId, f: int, d: int)
    requires Exclusive(w.table, w.ticks) && TallyInside(w, id, f, d) && Enabled(c, w, e)
    requires e.Insert? || e.RetryAll? || e.DiscardAll? || e.Check? || e.RetryOne? || e.DiscardOne?
    requires !Resets(w, e, id)
    ensures TallyInside(Next(c, w, e), id, f, d)
  {
    var w' := Next(c, w, e);
    assert w'.ticks == w.ticks;
    if id !in w.table {
      assert forall t :: !Owns(w.ticks, t, id);
    }
  }

  lemma WorkTally(c: Config, w: World, e: Event, id: EventId, f: int, d: int, f': int, d': int)
    requires c.transactional && Invariant(c, w) && Exclusive(w.table, w.ticks) && PacedInside(c, w, id)
    requires TallyInside(w, id, f, d) && Enabled(c, w, e)
    requires e.Begin? || e.Dispatch? || e.Mark? || e.RecordFailure? || e.Commit?
    requires f' == f + Ones(FailsToDispatch(e, id)) && d' == d + Ones(Delivers(e, id))
    ensures TallyInside(Next(c, w, e), id, f', d')
  {
    match e
    case Begin(t, now, ids) => BeginTally(c, w, t, now, ids, id, f, d);
    case Dispatch(t, row, outcome) => DispatchTally(c, w, t, row, outcome, id, f, d, f', d');
    case Mark(t, row) => MarkTally(c, w, t, row, id, f, d);
    case RecordFailure(t, row) => RecordTally(c, w, t, row, id, f, d);
    case Commit(t) => CommitTally(c, w, t, id, f, d);
  }

  lemma OutsiderTally(c: Config, w: World, e: Event, id: EventId, f: int, d: int, f': int, d': int)
    requires c.transactional && Invariant(c, w) && Exclusive(w.table, w.ticks) && TallyInside(w, id, f, d)
    requires Enabled(c, w, e)
    requires e.Insert? || e.RetryAll? || e.DiscardAll? || e.Check? || e.RetryOne? || e.DiscardOne?
    requires f' == f - WrittenOff(c, w, e, id) && d' == d
    ensures TallyInside(Next(c, w, e), id, f', d')
  {
    if Resets(w, e, id) {
      ResetTally(c, w, e, id, f, d, f', d');
    } else {
      OperatorTally(c, w, e, id, f, d);
    }
  }

  lemma TallyInsideStep(c: Config, w: World, e: Event, id: EventId, f: int, d: int, f': int, d': int)
    requires c.transactional && Invariant(c, w) && Exclusive(w.table, w.ticks) && PacedInside(c, w, id)
    requires TallyInside(w, id, f, d) && Enabled(c, w, e)
    requires f' == f + FailureChange(c, w, e, id) && d' == d + DeliveryChange(c, w, e, id)
    ensures TallyInside(Next(c, w, e), id, f', d')
  {
    if e.Begin? || e.Dispatch? || e.Mark? || e.RecordFailure? || e.Commit? {
      WorkTally(c, w, e, id, f, d, f', d');
    } else if e.Abort? {
      AbortTally(c, w, e.t, id, f, d, f', d');
    } else {
      OutsiderTally(c, w, e, id, f, d, f', d');
    }
  }

  // With a plain handle ---------------------------------------------------------------------------------

  predicate FailedIn(ticks: map<nat, Tick>, t: nat, id: EventId) {
    t in ticks && id in ticks[t].failed
  }

  predicate DoneIn(ticks: map<nat, Tick>, t: nat, id: EventId) {
    t in ticks && id in ticks[t].done
  }

  /** The row's failures, and the one that a tick is about to record. */
  ghost predicate FailureTally(w: World, id: EventId, f: int) {
    && (id !in w.table ==> f == 0)
    && (forall t | FailedIn(w.ticks, t, id) :: id in w.table && f == |w.table[id].history| + 1)
    && (id in w.table && (forall t :: !FailedIn(w.ticks, t, id)) ==> f == |w.table[id].history|)
  }

  /** The row's delivery, or the one that a tick is about to mark. */
  ghost predicate DeliveryTally(w: World, id: EventId, d: int) {
    && (id !in w.table ==> d == 0)
    && (forall t | DoneIn(w.ticks, t, id) :: id in w.table && d == 1)
    && (id in w.table && (forall t :: !DoneIn(w.ticks, t, id)) ==> d == Ones(w.table[id].processedAt != None))
  }

  ghost predicate TallyOutside(w: World, id: EventId, f: int, d: int) {
    && FailureTally(w, id, f) && DeliveryTally(w, id, d)
    && (d > 0 ==> forall t :: !FailedIn(w.ticks, t, id))
  }

  lemma SameFailures(w: World, w': World, id: EventId, f: int)
    requires FailureTally(w, id, f) && (id in w'.table <==> id in w.table)
    requires id in w.table ==> w'.table[id].history == w.table[id].history
    requires forall t :: FailedIn(w'.ticks, t, id) <==> FailedIn(w.ticks, t, id)
    ensures FailureTally(w', id, f)
  {
  }

  lemma SameDeliveries(w: World, w': World, id: EventId, d: int)
    requires DeliveryTally(w, id, d) && (id in w'.table <==> id in w.table)
    requires id in w.table ==> w'.table[id].processedAt == w.table[id].processedAt
    requires forall t :: DoneIn(w'.ticks, t, id) <==> DoneIn(w.ticks, t, id)
    ensures DeliveryTally(w', id, d)
  {
  }

  /** Tick t has the row in hand, and no other has: what is pending for the row is pending there. */
  ghost predicate OnlyIn(ticks: map<nat, Tick>, t: nat, id: EventId) {
    forall t' | t' != t :: !FailedIn(ticks, t', id) && !DoneIn(ticks, t', id)
  }

  lemma BusyIsOnly(w: World, w': World, t: nat, id: EventId)
    requires OneBusy(w.ticks, id) && Busy(w.ticks, t, id)
    requires forall t' | t' != t && t' in w'.ticks :: t' in w.ticks && w'.ticks[t'] == w.ticks[t']
    ensures OnlyIn(w.ticks, t, id) && OnlyIn(w'.ticks, t, id)
  {
    forall t' | t' != t ensures !FailedIn(w.ticks, t', id) && !DoneIn(w.ticks, t', id)
                                && !FailedIn(w'.ticks, t', id) && !DoneIn(w'.ticks, t', id) {
      assert !Busy(w.ticks, t', id);
    }
  }

  /** The tally when only tick t can have the row pending. */
  lemma OnlyInTally(w: World, t: nat, id: EventId, f: int, d: int)
    requires OnlyIn(w.ticks, t, id) && id in w.table
    ensures FailureTally(w, id, f) <==> f == |w.table[id].history| + Ones(FailedIn(w.ticks, t, id))
    ensures DeliveryTally(w, id, d) <==>
            d == if DoneIn(w.ticks, t, id) then 1 else Ones(w.table[id].processedAt != None)
  {
  }

  /** Tick t goes on with the row it has in hand. */
  lemma OwnRowOutside(c: Config, w: World, w': World, t: nat, id: EventId, f: int, d: int, f': int, d': int)
    requires PacedOutside(c, w, id) && OneBusy(w.ticks, id) && Busy(w.ticks, t, id) && TallyOutside(w, id, f, d)
    requires forall t' | t' != t && t' in w'.ticks :: t' in w.ticks && w'.ticks[t'] == w.ticks[t']
    requires id in w'.table
    requires f' - |w'.table[id].history| - Ones(FailedIn(w'.ticks, t, id)) ==
             f - |w.table[id].history| - Ones(FailedIn(w.ticks, t, id))
    requires d' - Ones(DoneIn(w'.ticks, t, id)) - Ones(w'.table[id].processedAt != None) ==
             d - Ones(DoneIn(w.ticks, t, id))
    requires DoneIn(w'.ticks, t, id) || FailedIn(w'.ticks, t, id) ==> w'.table[id].processedAt == None
    requires !(DoneIn(w'.ticks, t, id) && FailedIn(w'.ticks, t, id))
    ensures TallyOutside(w', id, f', d')
  {
    BusyIsOnly(w, w', t, id);
    OnlyInTally(w, t, id, f, d);
    OnlyInTally(w', t, id, f', d');
  }

  /** Tick t goes on with another row. */
  lemma OtherRowTallies(w: World, w': World, t: nat, id: EventId, f: int, d: int)
    requires TallyOutside(w, id, f, d) && TickGoesOn(w, w', t, id)
    ensures TallyOutside(w', id, f, d)
  {
    SameFailures(w, w', id, f);
    SameDeliveries(w, w', id, d);
  }

  lemma DispatchTallyOutside(c: Config, w: World, t: nat, row: EventId, outcome: DispatchOutcome, id: EventId,
                             f: int, d: int, f': int, d': int)
    requires !c.transactional && Invariant(c, w) && PacedOutside(c, w, id) && OneBusy(w.ticks, id)
    requires TallyOutside(w, id, f, d) && Enabled(c, w, Dispatch(t, row, outcome))
    requires f' == f + Ones(row == id && outcome.Fails?) && d' == d + Ones(row == id && !outcome.Fails?)
    ensures TallyOutside(DispatchRow(w, t, row, outcome), id, f', d')
  {
    var w' := DispatchRow(w, t, row, outcome);
    if row == id {
      assert TickOk(c, w.ticks[t]) && Busy(w.ticks, t, id);
      OwnRowOutside(c, w, w', t, id, f, d, f', d');
    } else {
      DispatchOther(w, t, row, outcome, id);
      OtherRowTallies(w, w', t, id, f, d);
    }
  }

  lemma MarkOwnTally(c: Config, w: World, t: nat, id: EventId, f: int, d: int)
    requires !c.transactional && Invariant(c, w) && PacedOutside(c, w, id) && OneBusy(w.ticks, id)
    requires TallyOutside(w, id, f, d) && Enabled(c, w, Mark(t, id))
    ensures TallyOutside(MarkRow(c, w, t, id), id, f, d)
  {
    assert TickOk(c, w.ticks[t]) && Busy(w.ticks, t, id);
    OwnRowOutside(c, w, MarkRow(c, w, t, id), t, id, f, d, f, d);
  }

  lemma MarkTallyOutside(c: Config, w: World, t: nat, row: EventId, id: EventId, f: int, d: int)
    requires !c.transactional && Invariant(c, w) && PacedOutside(c, w, id) && OneBusy(w.ticks, id)
    requires TallyOutside(w, id, f, d) && Enabled(c, w, Mark(t, row))
    ensures TallyOutside(MarkRow(c, w, t, row), id, f, d)
  {
    if row == id {
      MarkOwnTally(c, w, t, id, f, d);
    } else {
      MarkOther(c, w, t, row, id);
      OtherRowTallies(w, MarkRow(c, w, t, row), t, id, f, d);
    }
  }

  lemma MisrecordTally(c: Config, w: World, t: nat, row: EventId, error: string, id: EventId,
                       f: int, d: int, f': int, d': int)
    requires !c.transactional && Invariant(c, w) && PacedOutside(c, w, id) && OneBusy(w.ticks, id)
    requires TallyOutside(w, id, f, d) && Enabled(c, w, MarkFails(t, row, error))
    requires f' == f + Ones(row == id) && d' == d - Ones(row == id)
    ensures TallyOutside(MisrecordRow(w, t, row, error), id, f', d')
  {
    var w' := MisrecordRow(w, t, row, error);
    if row == id {
      assert TickOk(c, w.ticks[t]) && Busy(w.ticks, t, id);
      OwnRowOutside(c, w, w', t, id, f, d, f', d');
    } else {
      MisrecordOther(w, t, row, error, id);
      OtherRowTallies(w, w', t, id, f, d);
    }
  }

  /** What recording a failure changes with a plain handle. */
  lemma RecordOwnRow(c: Config, w: World, t: nat, id: EventId)
    requires !c.transactional && Invariant(c, w) && PacedOutside(c, w, id) && Enabled(c, w, RecordFailure(t, id))
    ensures var w' := RecordRow(c, w, t, id);
            && id in w.table && w'.table.Keys == w.table.Keys && w'.table[id].processedAt == w.table[id].processedAt
            && |w'.table[id].history| == |w.table[id].history| + 1
            && w'.ticks == w.ticks[t := w.ticks[t].(failed := w.ticks[t].failed - {id})]
  {
    assert TickOk(c, w.ticks[t]) && Busy(w.ticks, t, id);
  }

  lemma RecordOwnTally(c: Config, w: World, t: nat, id: EventId, f: int, d: int)
    requires !c.transactional && Invariant(c, w) && PacedOutside(c, w, id) && OneBusy(w.ticks, id)
    requires TallyOutside(w, id, f, d) && Enabled(c, w, RecordFailure(t, id))
    ensures TallyOutside(RecordRow(c, w, t, id), id, f, d)
  {
    assert Busy(w.ticks, t, id);
    RecordOwnRow(c, w, t, id);
    OwnRowOutside(c, w, RecordRow(c, w, t, id), t, id, f, d, f, d);
  }

  lemma RecordTallyOutside(c: Config, w: World, t: nat, row: EventId, id: EventId, f: int, d: int)
    requires !c.transactional && Invariant(c, w) && PacedOutside(c, w, id) && OneBusy(w.ticks, id)
    requires TallyOutside(w, id, f, d) && Enabled(c, w, RecordFailure(t, row))
    ensures TallyOutside(RecordRow(c, w, t, row), id, f, d)
  {
    if row == id {
      RecordOwnTally(c, w, t, id, f, d);
    } else {
      RecordOther(c, w, t, row, id);
      OtherRowTallies(w, RecordRow(c, w, t, row), t, id, f, d);
    }
  }

  lemma AbortTallyOutside(c: Config, w: World, t: nat, id: EventId, f: int, d: int, f': int, d': int)
    requires !c.transactional && PacedOutside(c, w, id) && OneBusy(w.ticks, id) && TallyOutside(w, id, f, d)
    requires t in w.ticks
    requires f' == f - Ones(id in w.ticks[t].failed) && d' == d - Ones(id in w.ticks[t].done)
    ensures TallyOutside(Next(c, w, Abort(t)), id, f', d')
  {
    var w' := Next(c, w, Abort(t));
    if Busy(w.ticks, t, id) {
      OwnRowOutside(c, w, w', t, id, f, d, f', d');
    } else {
      SameFailures(w, w', id, f);
      SameDeliveries(w, w', id, d);
    }
  }

  lemma ResetTallyOutside(c: Config, w: World, e: Event, id: EventId, f: int, d: int, f': int, d': int)
    requires Alone(w, e, id) && TallyOutside(w, id, f, d) && Enabled(c, w, e) && Resets(w, e, id)
    requires f' == f - |w.table[id].history| && d' == d
    ensures TallyOutside(Next(c, w, e), id, f', d')
  {
    var w' := Next(c, w, e);
    forall t ensures !FailedIn(w.ticks, t, id) && !DoneIn(w.ticks, t, id) {
      assert !Busy(w.ticks, t, id);
    }
    SameDeliveries(w, w', id, d);
  }

  lemma OperatorTallyOutside(c: Config, w: World, e: Event, id: EventId, f: int, d: int)
    requires !c.transactional && TallyOutside(w, id, f, d) && Enabled(c, w, e) && !Resets(w, e, id)
    requires !e.Dispatch? && !e.Mark? && !e.MarkFails? && !e.RecordFailure? && !e.Abort?
    ensures TallyOutside(Next(c, w, e), id, f, d)
  {
    var w' := Next(c, w, e);
    assert forall t :: FailedIn(w'.ticks, t, id) <==> FailedIn(w.ticks, t, id);
    assert forall t :: DoneIn(w'.ticks, t, id) <==> DoneIn(w.ticks, t, id);
  }

  lemma TickOutsideStep(c: Config, w: World, e: Event, id: EventId, f: int, d: int, f': int, d': int)
    requires !c.transactional && Invariant(c, w) && PacedOutside(c, w, id) && OneBusy(w.ticks, id)
    requires TallyOutside(w, id, f, d) && Enabled(c, w, e)
    requires e.Dispatch? || e.Mark? || e.MarkFails? || e.RecordFailure?
    requires f' == f + Ones(FailsToDispatch(e, id)) + Ones(Misrecords(e, id))
    requires d' == d + Ones(Delivers(e, id)) - Ones(Misrecords(e, id))
    ensures TallyOutside(Next(c, w, e), id, f', d')
  {
    match e
    case Dispatch(t, row, outcome) => DispatchTallyOutside(c, w, t, row, outcome, id, f, d, f', d');
    case Mark(t, row) => MarkTallyOutside(c, w, t, row, id, f, d);
    case MarkFails(t, row, error) => MisrecordTally(c, w, t, row, error, id, f, d, f', d');
    case RecordFailure(t, row) => RecordTallyOutside(c, w, t, row, id, f, d);
  }

  lemma TallyOutsideStep(c: Config, w: World, e: Event, id: EventId, f: int, d: int, f': int, d': int)
    requires !c.transactional && Invariant(c, w) && PacedOutside(c, w, id) && Alone(w, e, id)
    requires TallyOutside(w, id, f, d) && Enabled(c, w, e)
    requires f' == f + FailureChange(c, w, e, id) && d' == d + DeliveryChange(c, w, e, id)
    ensures TallyOutside(Next(c, w, e), id, f', d')
  {
    if e.Dispatch? || e.Mark? || e.MarkFails? || e.RecordFailure? {
      TickOutsideStep(c, w, e, id, f, d, f', d');
    } else if e.Abort? {
      AbortTallyOutside(c, w, e.t, id, f, d, f', d');
    } else if Resets(w, e, id) {
      ResetTallyOutside(c, w, e, id, f, d, f', d');
    } else {
      OperatorTallyOutside(c, w, e, id, f, d);
    }
  }

  // Both ------------------------------------------------------------------------------------------------

  ghost predicate Tally(c: Config, w: World, id: EventId, a: Account) {
    if c.transactional then TallyInside(w, id, a.Failures(), a.Deliveries())
    else TallyOutside(w, id, a.Failures(), a.Deliveries())
  }

  lemma TallyStep(c: Config, w: World, e: Event, id: EventId, a: Account)
    requires Invariant(c, w) && LocksHold(c, w) && Paced(c, w, id) && (c.transactional || Alone(w, e, id))
    requires Tally(c, w, id, a) && Enabled(c, w, e)
    ensures Tally(c, Next(c, w, e), id, a.Charged(c, w, e, id))
  {
    var a' := a.Charged(c, w, e, id);
    if c.transactional {
      TallyInsideStep(c, w, e, id, a.Failures(), a.Deliveries(), a'.Failures(), a'.Deliveries());
    } else {
      TallyOutsideStep(c, w, e, id, a.Failures(), a.Deliveries(), a'.Failures(), a'.Deliveries());
    }
  }

  lemma AccountStep(c: Config, ws: seq<World>, es: seq<Event>, i: nat, id: EventId)
    requires IsRun(c, ws, es) && i < |es| && (c.transactional || OneAtATime(ws, es, i + 1, id))
    requires Tally(c, ws[i], id, AccountOf(c, ws, es, id, i))
    ensures Tally(c, ws[i + 1], id, AccountOf(c, ws, es, id, i + 1))
  {
    InvariantHolds(c, ws, es, i);
    LocksHoldAlways(c, ws, es, i);
    PacedHolds(c, ws, es, i, id);
    TallyStep(c, ws[i], es[i], id, AccountOf(c, ws, es, id, i));
    assert ws[i + 1] == Next(c, ws[i], es[i]);
  }

  lemma NoTally(c: Config, w: World, id: EventId, a: Account)
    requires id !in w.table && w.ticks == map[] && a.Failures() == a.Deliveries() == 0
    ensures Tally(c, w, id, a)
  {
  }

  /** Every dispatch is recorded in the row, about to be recorded, written off or lost. */
  lemma {:induction false} EveryDispatchIsAccounted(c: Config, ws: seq<World>, es: seq<Event>, i: nat, id: EventId)
    requires IsRun(c, ws, es) && i <= |es| && (c.transactional || OneAtATime(ws, es, i, id))
    ensures Tally(c, ws[i], id, AccountOf(c, ws, es, id, i))
  {
    if i == 0 {
      NoTally(c, ws[0], id, Account(0, 0, 0, 0, 0));
    } else {
      EveryDispatchIsAccounted(c, ws, es, i - 1, id);
      AccountStep(c, ws, es, i - 1, id);
    }
  }

  // ---------------------------------------------------------------------------------------------
  // What follows for the number of dispatches
  // ---------------------------------------------------------------------------------------------

  /** What a row still has of its dispatches fits the budget, pending ones included. */
  ghost predicate WithinBudget(c: Config, w: World, id: EventId, a: Account) {
    && a.Failures() >= 0 && 0 <= a.Deliveries() <= 1 && a.Failures() + a.Deliveries() <= c.maxRetries + 1
    && (id in w.table && w.table[id].failedAt != None ==>
          a.Failures() == w.table[id].attemptCount && a.Deliveries() == 0)
  }

  lemma BudgetInside(c: Config, w: World, id: EventId, a: Account)
    requires c.transactional && Invariant(c, w) && Exclusive(w.table, w.ticks) && PacedInside(c, w, id)
    requires TallyInside(w, id, a.Failures(), a.Deliveries())
    ensures WithinBudget(c, w, id, a)
  {
    if t :| Owns(w.ticks, t, id) {
      assert TickPaced(c, w.ticks[t], id) && TickTally(w.ticks[t], id, a.Failures(), a.Deliveries());
      assert TickOk(c, w.ticks[t]) && RowPaced(c, w.ticks[t].work[id]);
    }
  }

  lemma BudgetOutside(c: Config, w: World, id: EventId, a: Account)
    requires !c.transactional && PacedOutside(c, w, id) && TallyOutside(w, id, a.Failures(), a.Deliveries())
    ensures WithinBudget(c, w, id, a)
  {
    if t :| FailedIn(w.ticks, t, id) {
      assert Busy(w.ticks, t, id);
    }
    if t :| DoneIn(w.ticks, t, id) {
      assert Busy(w.ticks, t, id);
    }
  }

  /**
    The dispatch budget: all ticks together dispatch a row at most maxRetries + 1 times, and once more for
    each failure that was written off and each delivery that was lost; at most one dispatch delivers, and
    once more for each delivery that was lost or misrecorded. Both are exact for a dead letter.
  */
  lemma DispatchBound(c: Config, ws: seq<World>, es: seq<Event>, i: nat, id: EventId)
    requires IsRun(c, ws, es) && i <= |es| && (c.transactional || OneAtATime(ws, es, i, id))
    ensures var a := AccountOf(c, ws, es, id, i);
            && a.Dispatches() <= c.maxRetries + 1 + a.writtenOff + a.lost
            && a.misrecorded + a.lost <= a.delivered <= a.misrecorded + a.lost + 1
            && (id in ws[i].table && ws[i].table[id].failedAt != None ==>
                  && a.Dispatches() == ws[i].table[id].attemptCount + a.writtenOff + a.lost
                  && a.delivered == a.misrecorded + a.lost)
  {
    EveryDispatchIsAccounted(c, ws, es, i, id);
    PacedHolds(c, ws, es, i, id);
    LocksHoldAlways(c, ws, es, i);
    InvariantHolds(c, ws, es, i);
    TallyIsBounded(c, ws[i], id, AccountOf(c, ws, es, id, i));
  }

  lemma TallyIsBounded(c: Config, w: World, id: EventId, a: Account)
    requires Invariant(c, w) && LocksHold(c, w) && Paced(c, w, id) && Tally(c, w, id, a)
    ensures WithinBudget(c, w, id, a)
  {
    if c.transactional {
      BudgetInside(c, w, id, a);
    } else {
      BudgetOutside(c, w, id, a);
    }
  }

  /** While no tick has the row, its columns account for every dispatch that was not written off or lost. */
  lemma SettledAccount(c: Config, ws: seq<World>, es: seq<Event>, i: nat, id: EventId)
    requires IsRun(c, ws, es) && i <= |es| && (c.transactional || OneAtATime(ws, es, i, id))
    requires id in ws[i].table && forall t :: !Owns(ws[i].ticks, t, id)
    ensures var a, r := AccountOf(c, ws, es, id, i), ws[i].table[id];
            && a.Dispatches() == |r.history| + Ones(r.processedAt != None) + a.writtenOff + a.lost
            && a.delivered == Ones(r.processedAt != None) + a.misrecorded + a.lost
  {
    EveryDispatchIsAccounted(c, ws, es, i, id);
    InvariantHolds(c, ws, es, i);
    Unpending(c, ws[i], id);
  }

  lemma Unpending(c: Config, w: World, id: EventId)
    requires Invariant(c, w) && forall t :: !Owns(w.ticks, t, id)
    ensures forall t :: !FailedIn(w.ticks, t, id) && !DoneIn(w.ticks, t, id)
  {
    forall t ensures !FailedIn(w.ticks, t, id) && !DoneIn(w.ticks, t, id) {
      if t in w.ticks {
        assert TickOk(c, w.ticks[t]) && !Owns(w.ticks, t, id);
      }
    }
  }

  /** When nothing is written off and nothing lost, the budget is maxRetries + 1. */
  lemma BudgetWithoutLosses(c: Config, ws: seq<World>, es: seq<Event>, i: nat, id: EventId)
    requires IsRun(c, ws, es) && i <= |es| && (c.transactional || OneAtATime(ws, es, i, id))
    requires forall m | 0 <= m < i :: WrittenOff(c, ws[m], es[m], id) == 0 && !LosesDelivery(c, ws[m], es[m], id)
    ensures AccountOf(c, ws, es, id, i).Dispatches() <= c.maxRetries + 1
  {
    DispatchBound(c, ws, es, i, id);
    NothingWrittenOff(c, ws, es, id, i);
  }

  lemma {:induction false} NothingWrittenOff(c: Config, ws: seq<World>, es: seq<Event>, id: EventId, i: nat)
    requires i <= |es| <= |ws|
    requires forall m | 0 <= m < i :: WrittenOff(c, ws[m], es[m], id) == 0 && !LosesDelivery(c, ws[m], es[m], id)
    ensures AccountOf(c, ws, es, id, i).writtenOff == AccountOf(c, ws, es, id, i).lost == 0
  {
    if i > 0 {
      NothingWrittenOff(c, ws, es, id, i - 1);
    }
  }

  // ---------------------------------------------------------------------------------------------
  // When a delivery repeats an earlier one
  // ---------------------------------------------------------------------------------------------

  predicate Escapes(c: Config, w: World, e: Event, id: EventId) {
    LosesDelivery(c, w, e, id) || Misrecords(e, id)
  }

  /** A tick has delivered the row and may still commit that it is processed. */
  ghost predicate UncommittedIn(c: Config, ticks: map<nat, Tick>, t: nat, id: EventId) {
    t in ticks && Uncommitted(c, ticks[t], id)
  }

  /** The row is processed, or delivered by some tick that has not committed yet. */
  ghost predicate Delivered(c: Config, w: World, id: EventId) {
    (id in w.table && w.table[id].processedAt != None) || exists t :: UncommittedIn(c, w.ticks, t, id)
  }

  ghost predicate SameTicksBut(w: World, w': World, t: nat) {
    forall t' | t' != t :: (t' in w.ticks <==> t' in w'.ticks) && (t' in w.ticks ==> w.ticks[t'] == w'.ticks[t'])
  }

  ghost predicate DeliveredBy(c: Config, w: World, t: nat, id: EventId) {
    (id in w.table && w.table[id].processedAt != None) || UncommittedIn(c, w.ticks, t, id)
  }

  lemma DeliveredKept(c: Config, w: World, w': World, t: nat, id: EventId)
    requires SameTicksBut(w, w', t) && (DeliveredBy(c, w, t, id) ==> DeliveredBy(c, w', t, id))
    ensures Delivered(c, w, id) ==> Delivered(c, w', id)
  {
    if DeliveredBy(c, w, t, id) {
      assert DeliveredBy(c, w', t, id);
    } else if t' :| UncommittedIn(c, w.ticks, t', id) {
      assert UncommittedIn(c, w'.ticks, t', id);
    }
  }

  /** A step of tick t says whether it delivers; the others are as they were. */
  lemma SameDelivered(c: Config, w: World, w': World, t: nat, id: EventId)
    requires SameTicksBut(w, w', t) && (DeliveredBy(c, w, t, id) <==> DeliveredBy(c, w', t, id))
    ensures Delivered(c, w, id) <==> Delivered(c, w', id)
  {
    DeliveredKept(c, w, w', t, id);
    DeliveredKept(c, w', w, t, id);
  }

  lemma BeginDelivers(c: Config, w: World, t: nat, now: int, ids: set<EventId>, id: EventId)
    requires Enabled(c, w, Begin(t, now, ids))
    ensures Delivered(c, BeginTick(c, w, t, now, ids), id) <==> Delivered(c, w, id)
  {
    SameDelivered(c, w, BeginTick(c, w, t, now, ids), t, id);
  }

  lemma DispatchDelivers(c: Config, w: World, t: nat, row: EventId, outcome: DispatchOutcome, id: EventId)
    requires Enabled(c, w, Dispatch(t, row, outcome))
    ensures Delivered(c, DispatchRow(w, t, row, outcome), id) <==>
            Delivered(c, w, id) || (row == id && !outcome.Fails?)
  {
    var w' := DispatchRow(w, t, row, outcome);
    if row == id && !outcome.Fails? {
      assert UncommittedIn(c, w'.ticks, t, id);
    } else {
      SameDelivered(c, w, w', t, id);
    }
  }

  lemma MarkDelivers(c: Config, w: World, t: nat, row: EventId, id: EventId)
    requires Invariant(c, w) && Enabled(c, w, Mark(t, row)) && (row == id ==> id in w.table)
    ensures Delivered(c, MarkRow(c, w, t, row), id) <==> Delivered(c, w, id)
  {
    if row == id {
      MarkSettles(c, w, t, id);
      SameDelivered(c, w, MarkRow(c, w, t, id), t, id);
    } else {
      MarkDeliversOther(c, w, t, row, id);
    }
  }

  lemma MarkDeliversOther(c: Config, w: World, t: nat, row: EventId, id: EventId)
    requires Enabled(c, w, Mark(t, row)) && row != id
    ensures Delivered(c, MarkRow(c, w, t, row), id) <==> Delivered(c, w, id)
  {
    SameDelivered(c, w, MarkRow(c, w, t, row), t, id);
  }

  lemma MarkSettles(c: Config, w: World, t: nat, id: EventId)
    requires Invariant(c, w) && Enabled(c, w, Mark(t, id)) && id in w.table
    ensures DeliveredBy(c, MarkRow(c, w, t, id), t, id) && DeliveredBy(c, w, t, id)
    ensures SameTicksBut(w, MarkRow(c, w, t, id), t)
  {
    assert TickOk(c, w.ticks[t]);
  }

  lemma MisrecordDelivers(c: Config, w: World, t: nat, row: EventId, error: string, id: EventId)
    requires Enabled(c, w, MarkFails(t, row, error))
    ensures Delivered(c, MisrecordRow(w, t, row, error), id) || row == id <==> Delivered(c, w, id)
  {
    if row == id {
      assert UncommittedIn(c, w.ticks, t, id);
    } else {
      SameDelivered(c, w, MisrecordRow(w, t, row, error), t, id);
    }
  }

  lemma RecordDelivers(c: Config, w: World, t: nat, row: EventId, id: EventId)
    requires Enabled(c, w, RecordFailure(t, row))
    ensures Delivered(c, RecordRow(c, w, t, row), id) <==> Delivered(c, w, id)
  {
    RecordKeepsMarks(c, w, t, row, id);
    SameDelivered(c, w, RecordRow(c, w, t, row), t, id);
  }

  lemma RecordKeepsMarks(c: Config, w: World, t: nat, row: EventId, id: EventId)
    requires Enabled(c, w, RecordFailure(t, row))
    ensures var w' := RecordRow(c, w, t, row);
            && (id in w'.table <==> id in w.table)
            && (id in w.table ==> w'.table[id].processedAt == w.table[id].processedAt)
            && t in w'.ticks && w'.ticks[t].done == w.ticks[t].done && w'.ticks == w.ticks[t := w'.ticks[t]]
            && (id in w'.ticks[t].work <==> id in w.ticks[t].work)
            && (id in w.ticks[t].work ==> w'.ticks[t].work[id].processedAt == w.ticks[t].work[id].processedAt)
  {
  }

  lemma CommitDelivers(c: Config, w: World, t: nat, id: EventId)
    requires Invariant(c, w) && LocksHold(c, w) && Enabled(c, w, Commit(t))
    ensures Delivered(c, Next(c, w, Commit(t)), id) <==> Delivered(c, w, id)
  {
    assert TickOk(c, w.ticks[t]);
    if c.transactional && id in w.ticks[t].work {
      assert Owns(w.ticks, t, id);
    }
    SameDelivered(c, w, Next(c, w, Commit(t)), t, id);
  }

  lemma AbortDelivers(c: Config, w: World, t: nat, id: EventId)
    requires t in w.ticks
    ensures Delivered(c, Next(c, w, Abort(t)), id) || Uncommitted(c, w.ticks[t], id) <==> Delivered(c, w, id)
  {
    if Uncommitted(c, w.ticks[t], id) {
      assert UncommittedIn(c, w.ticks, t, id);
    } else {
      SameDelivered(c, w, Next(c, w, Abort(t)), t, id);
    }
  }

  lemma OperatorDelivers(c: Config, w: World, e: Event, id: EventId)
    requires Enabled(c, w, e)
    requires e.Insert? || e.RetryAll? || e.DiscardAll? || e.Check? || e.RetryOne? || e.DiscardOne?
    ensures Delivered(c, Next(c, w, e), id) <==> Delivered(c, w, id)
  {
    SameDelivered(c, w, Next(c, w, e), 0, id);
  }

  lemma WorkDelivers(c: Config, w: World, e: Event, id: EventId)
    requires Invariant(c, w) && Enabled(c, w, e) && (e.Mark? && e.id == id ==> id in w.table)
    requires e.Dispatch? || e.Mark? || e.MarkFails? || e.RecordFailure?
    ensures Delivered(c, Next(c, w, e), id) || Misrecords(e, id) <==> Delivered(c, w, id) || Delivers(e, id)
  {
    match e
    case Dispatch(t, row, outcome) => DispatchDelivers(c, w, t, row, outcome, id);
    case Mark(t, row) => MarkDelivers(c, w, t, row, id);
    case MarkFails(t, row, error) => MisrecordDelivers(c, w, t, row, error, id);
    case RecordFailure(t, row) => RecordDelivers(c, w, t, row, id);
  }

  lemma DeliveredStep(c: Config, w: World, e: Event, id: EventId)
    requires Invariant(c, w) && LocksHold(c, w) && Enabled(c, w, e) && (e.Mark? && e.id == id ==> id in w.table)
    ensures Delivered(c, Next(c, w, e), id) || Escapes(c, w, e, id) <==> Delivered(c, w, id) || Delivers(e, id)
  {
    if e.Dispatch? || e.Mark? || e.MarkFails? || e.RecordFailure? {
      WorkDelivers(c, w, e, id);
    } else if e.Begin? {
      BeginDelivers(c, w, e.t, e.now, e.ids, id);
    } else if e.Commit? {
      CommitDelivers(c, w, e.t, id);
    } else if e.Abort? {
      AbortDelivers(c, w, e.t, id);
    } else {
      OperatorDelivers(c, w, e, id);
    }
  }

  ghost predicate ClaimsExist(w: World) {
    forall t, id | Owns(w.ticks, t, id) :: id in w.table
  }

  lemma ClaimsExistStep(c: Config, w: World, e: Event)
    requires ClaimsExist(w) && Enabled(c, w, e)
    ensures ClaimsExist(Next(c, w, e))
  {
    var w' := Next(c, w, e);
    forall t, id | Owns(w'.ticks, t, id) ensures id in w'.table {
      assert id !in w.table ==> !Owns(w.ticks, t, id);
    }
  }

  lemma {:induction false} ClaimsExistAlways(c: Config, ws: seq<World>, es: seq<Event>, i: nat)
    requires IsRun(c, ws, es) && i <= |es|
    ensures ClaimsExist(ws[i])
  {
    if i > 0 {
      ClaimsExistAlways(c, ws, es, i - 1);
      ClaimsExistStep(c, ws[i - 1], es[i - 1]);
      assert ws[i] == Next(c, ws[i - 1], es[i - 1]);
    }
  }

  ghost predicate DeliveredBefore(es: seq<Event>, i: nat, id: EventId)
    requires i <= |es|
  {
    exists m :: 0 <= m < i && Delivers(es[m], id)
  }

  ghost predicate EscapedBefore(c: Config, ws: seq<World>, es: seq<Event>, i: nat, id: EventId)
    requires i <= |es| <= |ws|
  {
    exists m :: 0 <= m < i && Escapes(c, ws[m], es[m], id)
  }

  lemma RunDeliveredStep(c: Config, ws: seq<World>, es: seq<Event>, i: nat, id: EventId)
    requires IsRun(c, ws, es) && i < |es|
    ensures Delivered(c, ws[i + 1], id) || Escapes(c, ws[i], es[i], id) <==>
            Delivered(c, ws[i], id) || Delivers(es[i], id)
  {
    InvariantHolds(c, ws, es, i);
    LocksHoldAlways(c, ws, es, i);
    ClaimsExistAlways(c, ws, es, i);
    if es[i].Mark? {
      assert TickOk(c, ws[i].ticks[es[i].t]) && Owns(ws[i].ticks, es[i].t, es[i].id);
    }
    DeliveredStep(c, ws[i], es[i], id);
    assert ws[i + 1] == Next(c, ws[i], es[i]);
  }

  /** A delivery leaves the row processed, is about to, or has escaped: there is nothing else. */
  lemma {:induction false} DeliveriesAreKeptIff(c: Config, ws: seq<World>, es: seq<Event>, i: nat, id: EventId)
    requires IsRun(c, ws, es) && i <= |es|
    ensures DeliveredBefore(es, i, id) <==> EscapedBefore(c, ws, es, i, id) || Delivered(c, ws[i], id)
  {
    if i > 0 {
      DeliveriesAreKeptIff(c, ws, es, i - 1, id);
      RunDeliveredStep(c, ws, es, i - 1, id);
      assert DeliveredBefore(es, i, id) <==> DeliveredBefore(es, i - 1, id) || Delivers(es[i - 1], id);
      assert EscapedBefore(c, ws, es, i, id) <==>
             EscapedBefore(c, ws, es, i - 1, id) || Escapes(c, ws[i - 1], es[i - 1], id);
    }
  }

  /**
    A dispatch repeats an earlier delivery exactly if one has escaped before, lost by a dying tick or taken
    for a failure, or the row is processed or delivered elsewhere at that moment.
  */
  lemma RepeatsIff(c: Config, ws: seq<World>, es: seq<Event>, j: nat, id: EventId)
    requires IsRun(c, ws, es) && j < |es| && es[j].Dispatch? && es[j].id == id
    ensures DeliveredBefore(es, j, id) <==> EscapedBefore(c, ws, es, j, id) || Delivered(c, ws[j], id)
    ensures c.transactional || OneAtATime(ws, es, j + 1, id) ==>
              (DeliveredBefore(es, j, id) <==> EscapedBefore(c, ws, es, j, id))
  {
    DeliveriesAreKeptIff(c, ws, es, j, id);
    if c.transactional || OneAtATime(ws, es, j + 1, id) {
      PacedHolds(c, ws, es, j, id);
      InvariantHolds(c, ws, es, j);
      LocksHoldAlways(c, ws, es, j);
      NotYetDelivered(c, ws[j], es[j].t, id);
    }
  }

  lemma NotYetDelivered(c: Config, w: World, t: nat, id: EventId)
    requires Invariant(c, w) && LocksHold(c, w) && Paced(c, w, id) && (c.transactional || OneBusy(w.ticks, id))
    requires t in w.ticks && id in w.ticks[t].todo
    ensures !Delivered(c, w, id)
  {
    assert TickOk(c, w.ticks[t]) && Owns(w.ticks, t, id) && Busy(w.ticks, t, id);
    forall t' ensures !UncommittedIn(c, w.ticks, t', id) {
      if t' != t && t' in w.ticks {
        assert TickOk(c, w.ticks[t']);
        assert if c.transactional then !Owns(w.ticks, t', id) else !Busy(w.ticks, t', id);
      }
    }
  }

  // ---------------------------------------------------------------------------------------------
  // The bounds are reached, and needed
  // ---------------------------------------------------------------------------------------------

  /** A run that ends in w, with this account of row 0. */
  ghost predicate IsAccount(c: Config, ws: seq<World>, es: seq<Event>, w: World, a: Account, alone: bool) {
    && IsRun(c, ws, es) && ws[|es|] == w && AccountOf(c, ws, es, 0, |es|) == a
    && (alone ==> OneAtATime(ws, es, |es|, 0))
  }

  ghost predicate CanReach(c: Config, w: World, a: Account, alone: bool) {
    exists ws: seq<World>, es: seq<Event> :: IsAccount(c, ws, es, w, a, alone)
  }

  lemma {:induction false} PrefixAccount(c: Config, ws: seq<World>, es: seq<Event>, w: World, e: Event, n: nat)
    requires n <= |es| && |ws| == |es| + 1
    ensures AccountOf(c, ws + [w], es + [e], 0, n) == AccountOf(c, ws, es, 0, n)
  {
    if n > 0 {
      PrefixAccount(c, ws, es, w, e, n - 1);
    }
  }

  lemma StepTo(c: Config, w: World, a: Account, alone: bool, e: Event, a': Account) returns (w': World)
    requires CanReach(c, w, a, alone) && Enabled(c, w, e) && (alone ==> Alone(w, e, 0))
    requires a' == a.Charged(c, w, e, 0)
    ensures w' == Next(c, w, e) && CanReach(c, w', a', alone)
  {
    w' := Next(c, w, e);
    var ws, es :| IsAccount(c, ws, es, w, a, alone);
    var vs, ds := ws + [w'], es + [e];
    PrefixAccount(c, ws, es, w', e, |es|);
    assert vs[|es|] == w && ds[|es|] == e;
    assert IsRun(c, vs, ds);
    if alone {
      forall m | 0 <= m < |ds| ensures Alone(vs[m], ds[m], 0) {
        assert m < |es| ==> Alone(ws[m], es[m], 0);
      }
    }
    assert IsAccount(c, vs, ds, w', a', alone);
  }

  /** Row 0 and nothing else. */
  function Only(r: Row): World {
    World(map[0 := r], map[], map[])
  }

  lemma StartsWithRow(c: Config, alone: bool)
    ensures CanReach(c, Only(NewRow(0)), Account(0, 0, 0, 0, 0), alone)
  {
    var ws, es := [EMPTY, Only(NewRow(0))], [Insert(0, 0)];
    assert AccountOf(c, ws, es, 0, 0) == Account(0, 0, 0, 0, 0);
    assert IsAccount(c, ws, es, Only(NewRow(0)), Account(0, 0, 0, 0, 0), alone);
  }

  /** A tick that has claimed row 0 and dispatched it. */
  function DispatchedTick(c: Config, r: Row, now: int, outcome: DispatchOutcome): Tick {
    Tick(now, map[0 := r], {}, if outcome.Fails? then map[] else map[0 := outcome],
         if outcome.Fails? then map[0 := Failure(now, outcome.deterministic, outcome.error)] else map[],
         if c.transactional then map[0 := r] else map[])
  }

  /** One step of the only tick there is. */
  lemma TickTo(c: Config, w: World, a: Account, e: Event, a': Account) returns (w': World)
    requires CanReach(c, w, a, true) && Enabled(c, w, e) && w.ticks.Keys <= {0} && !e.RetryAll? && !e.RetryOne?
    requires a' == a.Charged(c, w, e, 0)
    ensures w' == Next(c, w, e) && CanReach(c, w', a', true)
  {
    assert OneBusy(w.ticks, 0);
    w' := StepTo(c, w, a, true, e, a');
  }

  function Tried(a: Account, outcome: DispatchOutcome): Account {
    if outcome.Fails? then a.(failed := a.failed + 1) else a.(delivered := a.delivered + 1)
  }

  /** The account after a tick that died with the outcome. */
  function Wasted(a: Account, outcome: DispatchOutcome): Account {
    if outcome.Fails? then Tried(a, outcome).(writtenOff := a.writtenOff + 1)
    else Tried(a, outcome).(lost := a.lost + 1)
  }

  function ClaimedAt(c: Config, r: Row, now: int): World {
    var work := if c.transactional then map[0 := r] else map[];
    Only(r).(ticks := map[0 := Tick(now, map[0 := r], {0}, map[], map[], work)])
  }

  lemma Claim(c: Config, r: Row, now: int, a: Account)
    requires CanReach(c, Only(r), a, true) && Pending(r, now) && c.batchSize > 0
    ensures CanReach(c, ClaimedAt(c, r, now), a, true)
  {
    var w := TickTo(c, Only(r), a, Begin(0, now, {0}), a);
    assert w.ticks[0].claims == map[0 := r];
    assert w == ClaimedAt(c, r, now);
  }

  lemma ClaimAndDispatch(c: Config, r: Row, now: int, outcome: DispatchOutcome, a: Account, a': Account)
      returns (w: World)
    requires CanReach(c, Only(r), a, true) && Pending(r, now) && c.batchSize > 0 && a' == Tried(a, outcome)
    ensures w == Only(r).(ticks := map[0 := DispatchedTick(c, r, now, outcome)])
    ensures CanReach(c, w, a', true)
  {
    Claim(c, r, now, a);
    w := TickTo(c, ClaimedAt(c, r, now), a, Dispatch(0, 0, outcome), a');
    DispatchedWorld(c, r, now, outcome);
  }

  lemma DispatchedWorld(c: Config, r: Row, now: int, outcome: DispatchOutcome)
    ensures DispatchRow(ClaimedAt(c, r, now), 0, 0, outcome) ==
            Only(r).(ticks := map[0 := DispatchedTick(c, r, now, outcome)])
  {
    assert DispatchRow(ClaimedAt(c, r, now), 0, 0, outcome).ticks[0] == DispatchedTick(c, r, now, outcome);
  }

  /** A tick that dies after the dispatch. */
  lemma AbortRound(c: Config, r: Row, now: int, outcome: DispatchOutcome, a: Account, a': Account)
    requires CanReach(c, Only(r), a, true) && Pending(r, now) && c.batchSize > 0 && a' == Wasted(a, outcome)
    ensures CanReach(c, Only(r), a', true)
  {
    var w := ClaimAndDispatch(c, r, now, outcome, a, Tried(a, outcome));
    w := TickTo(c, w, Tried(a, outcome), Abort(0), a');
    assert w == Only(r);
  }

  lemma CommitRound(c: Config, r: Row, now: int, error: string, a: Account, a': Account) returns (r': Row)
    requires CanReach(c, Only(r), a, true) && Pending(r, now) && c.batchSize > 0 && a' == a.(failed := a.failed + 1)
    ensures r' == HandleFailure(c, r, r.attemptCount, Failure(now, false, error))
    ensures CanReach(c, Only(r'), a', true)
  {
    r' := HandleFailure(c, r, r.attemptCount, Failure(now, false, error));
    var w := ClaimAndDispatch(c, r, now, Fails(false, error), a, a');
    RecordAndCommit(c, r, now, error, w, r', a');
  }

  lemma RecordAndCommit(c: Config, r: Row, now: int, error: string, w: World, r': Row, a: Account)
    requires w == Only(r).(ticks := map[0 := DispatchedTick(c, r, now, Fails(false, error))])
    requires r' == HandleFailure(c, r, r.attemptCount, Failure(now, false, error)) && CanReach(c, w, a, true)
    ensures CanReach(c, Only(r'), a, true)
  {
    var w' := TickTo(c, w, a, RecordFailure(0, 0), a);
    RecordedWorld(c, r, now, error, w, r');
    LastCommit(c, w', r', a);
  }

  lemma RecordedWorld(c: Config, r: Row, now: int, error: string, w: World, r': Row)
    requires w == Only(r).(ticks := map[0 := DispatchedTick(c, r, now, Fails(false, error))])
    requires r' == HandleFailure(c, r, r.attemptCount, Failure(now, false, error))
    ensures var w' := RecordRow(c, w, 0, 0);
            && w'.ticks.Keys == {0} && w'.checked == map[] && w'.ticks[0].failed == map[] && Dispatched(w'.ticks[0])
            && if c.transactional then w'.ticks[0].work == map[0 := r'] && w'.table.Keys == {0}
               else w'.table == map[0 := r']
  {
    var w' := RecordRow(c, w, 0, 0);
    assert w'.ticks[0].failed == map[];
    assert c.transactional ==> w'.ticks[0].work == map[0 := r'] && w'.table == map[0 := r];
  }

  lemma LastCommit(c: Config, w: World, r: Row, a: Account)
    requires CanReach(c, w, a, true) && w.ticks.Keys == {0} && w.checked == map[]
    requires Dispatched(w.ticks[0]) && w.ticks[0].failed == map[]
    requires if c.transactional then w.ticks[0].work == map[0 := r] && w.table.Keys == {0} else w.table == map[0 := r]
    ensures CanReach(c, Only(r), a, true)
  {
    var w' := TickTo(c, w, a, Commit(0), a);
    assert w' == Only(r);
  }

  lemma {:induction false} AbortRounds(c: Config, error: string, k: nat, l: nat)
    requires c.batchSize > 0
    ensures CanReach(c, Only(NewRow(0)), Account(k, l, 0, k, l), true)
  {
    if k == l == 0 {
      StartsWithRow(c, true);
    } else if k > 0 {
      AbortRounds(c, error, k - 1, l);
      AbortRound(c, NewRow(0), 0, Fails(false, error), Account(k - 1, l, 0, k - 1, l), Account(k, l, 0, k, l));
    } else {
      AbortRounds(c, error, k, l - 1);
      AbortRound(c, NewRow(0), 0, Succeeds, Account(k, l - 1, 0, k, l - 1), Account(k, l, 0, k, l));
    }
  }

  lemma {:induction false} CommitRounds(c: Config, error: string, k: nat, l: nat, j: nat) returns (r: Row)
    requires c.batchSize > 0 && j <= c.maxRetries + 1
    ensures r.processedAt == None && r.attemptCount == j && (j <= c.maxRetries ==> r.failedAt == None)
    ensures CanReach(c, Only(r), Account(k + j, l, 0, k, l), true)
  {
    if j == 0 {
      AbortRounds(c, error, k, l);
      r := NewRow(0);
    } else {
      var before := CommitRounds(c, error, k, l, j - 1);
      r := CommitRound(c, before, before.nextAttemptAt, error, Account(k + j - 1, l, 0, k, l),
                       Account(k + j, l, 0, k, l));
    }
  }

  /** In either mode the budget is reached, and exceeded by the k failures and l deliveries that dying ticks took. */
  lemma BudgetIsReached(c: Config, error: string, k: nat, l: nat) returns (w: World, a: Account)
    requires c.batchSize > 0
    ensures CanReach(c, w, a, true) && a.writtenOff == k && a.lost == a.delivered == l
    ensures a.Dispatches() == c.maxRetries + 1 + k + l
  {
    var r := CommitRounds(c, error, k, l, c.maxRetries + 1);
    w, a := Only(r), Account(k + c.maxRetries + 1, l, 0, k, l);
  }

  function Overlapping(outcome: DispatchOutcome, n: nat): Account {
    if outcome.Fails? then Account(n, 0, 0, 0, 0) else Account(0, n, 0, 0, 0)
  }

  /**
    Without OneAtATime there is no bound: n overlapping ticks with a plain handle dispatch one row n times,
    whether that fails or delivers.
  */
  lemma {:induction false} OverlapExceedsBudget(c: Config, outcome: DispatchOutcome, n: nat) returns (w: World)
    requires !c.transactional && c.batchSize > 0
    ensures CanReach(c, w, Overlapping(outcome, n), false)
    ensures w.table == map[0 := NewRow(0)] && forall t | t >= n :: t !in w.ticks
  {
    if n == 0 {
      StartsWithRow(c, false);
      w := Only(NewRow(0));
    } else {
      var before := OverlapExceedsBudget(c, outcome, n - 1);
      w := OneMoreTick(c, before, outcome, n - 1);
    }
  }

  lemma LooseTo(c: Config, w: World, a: Account, e: Event, a': Account) returns (w': World)
    requires CanReach(c, w, a, false) && Enabled(c, w, e) && a' == a.Charged(c, w, e, 0)
    ensures w' == Next(c, w, e) && CanReach(c, w', a', false)
  {
    w' := StepTo(c, w, a, false, e, a');
  }

  lemma LooseClaim(c: Config, w: World, a: Account, t: nat) returns (w': World)
    requires !c.transactional && c.batchSize > 0 && CanReach(c, w, a, false)
    requires w.table == map[0 := NewRow(0)] && t !in w.ticks
    ensures CanReach(c, w', a, false)
    ensures w'.table == w.table && w'.ticks.Keys == w.ticks.Keys + {t} && w'.ticks[t].todo == {0}
  {
    w' := LooseTo(c, w, a, Begin(t, 0, {0}), a);
  }

  lemma OneMoreTick(c: Config, w: World, outcome: DispatchOutcome, t: nat) returns (w': World)
    requires !c.transactional && c.batchSize > 0 && CanReach(c, w, Overlapping(outcome, t), false)
    requires w.table == map[0 := NewRow(0)] && t !in w.ticks
    ensures CanReach(c, w', Overlapping(outcome, t + 1), false)
    ensures w'.table == w.table && w'.ticks.Keys == w.ticks.Keys + {t}
  {
    w' := LooseClaim(c, w, Overlapping(outcome, t), t);
    w' := LooseTo(c, w', Overlapping(outcome, t), Dispatch(t, 0, outcome), Overlapping(outcome, t + 1));
  }
}
