/**
  What the operator's recovery commands achieve (src/commands/outbox.ts), over the runs of `Outboxes`.
*/
module OutboxOperators {
  import opened Prelude
  import opened Outboxes

  /** Some later tick could claim the row as it is. */
  ghost predicate CanBeClaimed(r: Row) {
    exists now :: Pending(r, now)
  }

  /** (vs, ds) is a longer run: the same up to and including step j. */
  ghost predicate Continues(ws: seq<World>, es: seq<Event>, j: nat, vs: seq<World>, ds: seq<Event>)
    requires j < |es| < |ws|
  {
    && j < |ds| < |vs|
    && (forall m | 0 <= m <= j :: ds[m] == es[m]) && forall m | 0 <= m <= j + 1 :: vs[m] == ws[m]
  }

  /** In this run the row is claimed after step j only if an operator has retried it in between. */
  ghost predicate ClaimedOnlyAfterRetry(vs: seq<World>, ds: seq<Event>, j: nat, id: EventId)
    requires |ds| < |vs|
  {
    forall k | j < k < |ds| && Claims(ds[k], id) :: exists m | j < m < k :: IsRetryOf(vs[m], ds[m], id)
  }

  ghost predicate Stopped(c: Config, ws: seq<World>, es: seq<Event>, j: nat, id: EventId)
    requires j < |es| < |ws|
  {
    forall vs: seq<World>, ds: seq<Event> | IsRun(c, vs, ds) && Continues(ws, es, j, vs, ds) ::
      ClaimedOnlyAfterRetry(vs, ds, j, id)
  }

  /**
    After `discard` no later tick claims the row in any continuation, short of an operator's retry,
    exactly if it was dead-lettered or processed already: discard writes a reason but no failedAt, so a
    live row stays live and the very next tick can claim it.
  */
  lemma DiscardStopsIff(c: Config, ws: seq<World>, es: seq<Event>, j: nat, id: EventId)
    requires c.batchSize > 0 && IsRun(c, ws, es) && j < |es| && es[j].DiscardOne?
    requires ws[j].checked[es[j].op] == id && id in ws[j].table
    ensures Stopped(c, ws, es, j, id) <==> ws[j].table[id].failedAt != None || ws[j].table[id].processedAt != None
  {
    assert Enabled(c, ws[j], es[j]) && ws[j + 1] == Next(c, ws[j], es[j]);
    if Unfinished(ws[j].table[id]) {
      assert !Locked(c, ws[j + 1], id);
      ClaimedNext(c, ws, es, j, id);
    } else {
      forall vs: seq<World>, ds: seq<Event> | IsRun(c, vs, ds) && Continues(ws, es, j, vs, ds)
        ensures ClaimedOnlyAfterRetry(vs, ds, j, id)
      {
        DeadRowStaysUnclaimed(c, vs, ds, j, id);
      }
    }
  }

  lemma DeadRowStaysUnclaimed(c: Config, ws: seq<World>, es: seq<Event>, j: nat, id: EventId)
    requires IsRun(c, ws, es) && j < |es| && id in ws[j + 1].table && !Unfinished(ws[j + 1].table[id])
    ensures ClaimedOnlyAfterRetry(ws, es, j, id)
  {
    forall k | j < k < |es| && Claims(es[k], id) ensures exists m | j < m < k :: IsRetryOf(ws[m], es[m], id) {
      if ws[j + 1].table[id].processedAt != None {
        ProcessedIsNeverClaimed(c, ws, es, j + 1, k, id);
      } else {
        DeadLetterNeedsOperator(c, ws, es, j + 1, k, id);
      }
    }
  }

  lemma {:induction false} FreshAbove(s: set<nat>) returns (n: nat)
    ensures forall x | x in s :: x < n
    decreases |s|
  {
    if s == {} {
      n := 0;
    } else {
      var x :| x in s;
      var m := FreshAbove(s - {x});
      n := if x < m then m else x + 1;
      assert forall y | y in s :: y == x || y in s - {x};
    }
  }

  /** A live row that is not locked can be claimed in the next step. */
  lemma ClaimedNext(c: Config, ws: seq<World>, es: seq<Event>, j: nat, id: EventId)
    requires c.batchSize > 0 && IsRun(c, ws, es) && j < |es|
    requires id in ws[j + 1].table && Unfinished(ws[j + 1].table[id]) && !Locked(c, ws[j + 1], id)
    ensures !Stopped(c, ws, es, j, id)
  {
    var w := ws[j + 1];
    var t := FreshAbove(w.ticks.Keys);
    var e := Begin(t, w.table[id].nextAttemptAt, {id});
    assert Enabled(c, w, e);
    var vs, ds := ws[..j + 2] + [Next(c, w, e)], es[..j + 1] + [e];
    assert IsRun(c, vs, ds) by {
      forall m | 0 <= m < |ds| ensures Enabled(c, vs[m], ds[m]) && vs[m + 1] == Next(c, vs[m], ds[m]) {
        if m <= j {
          assert ds[m] == es[m] && vs[m] == ws[m] && vs[m + 1] == ws[m + 1];
        }
      }
    }
    assert Continues(ws, es, j, vs, ds);
    assert Stopped(c, ws, es, j, id) ==> ClaimedOnlyAfterRetry(vs, ds, j, id);
    assert Claims(ds[j + 1], id);
  }

  /** A single-row discard can reach a live row, which then carries a reason without being dead. */
  lemma DiscardedButLive(c: Config, text: string) returns (w: World)
    ensures Reachable(c, w) && 0 in w.table
    ensures w.table[0].dlqReason == Some(DiscardedByOperator(text)) && CanBeClaimed(w.table[0])
  {
    Start(c);
    w := Step(c, EMPTY, Insert(0, 0));
    w := Step(c, w, Check(0, 0));
    w := Step(c, w, DiscardOne(0, text));
    assert Pending(w.table[0], 0);
  }

  /** Row `r` of a dead letter, by itself: failed for good and never processed. */
  predicate IsDead(r: Row) {
    r.processedAt == None && r.failedAt != None
  }

  /** A row enters the table live, with no failures, due when the producer says. */
  lemma InsertedIsLive(c: Config, ws: seq<World>, es: seq<Event>, i: nat, id: EventId, at: int)
    requires IsRun(c, ws, es) && i < |es| && es[i] == Insert(id, at)
    ensures id !in ws[i].table && id in ws[i + 1].table
    ensures ws[i + 1].table[id] == Row(None, None, None, 0, None, at, None, [])
  {
    assert Enabled(c, ws[i], es[i]) && ws[i + 1] == Next(c, ws[i], es[i]);
  }

  /** What each command does to a row of a reachable table, column by column. */
  lemma CommandsDo(c: Config, ws: seq<World>, es: seq<Event>, i: nat, id: EventId)
    requires IsRun(c, ws, es) && i < |es| && id in ws[i].table
    ensures var e, r := es[i], ws[i].table[id];
            && id in ws[i + 1].table
            && var r' := ws[i + 1].table[id];
            && (e.RetryAll? ==> r' == if IsDead(r) then Row(None, None, None, 0, None, e.now, None, []) else r)
            && (e.DiscardAll? ==> r' == if IsDead(r) then r.(dlqReason := Some(DiscardedByOperator(e.text))) else r)
            && (e.RetryOne? && ws[i].checked[e.op] == id ==>
                  r' == Row(r.processedAt, None, None, 0, None, e.now, None, []))
            && (e.DiscardOne? && ws[i].checked[e.op] == id ==>
                  r' == r.(dlqReason := Some(DiscardedByOperator(e.text))))
            && ((e.RetryOne? || e.DiscardOne?) && ws[i].checked[e.op] != id ==> r' == r)
  {
    RunStep(c, ws, es, i, id);
    DeadLettersHaveReasons(c, ws, es, i, id);
    assert Enabled(c, ws[i], es[i]) && ws[i + 1] == Next(c, ws[i], es[i]);
  }

  /**
    `retry --all`, even straight after `discard --all`, makes every row that ever failed for good and is
    not processed claimable at once, with a fresh count, however many there are; and it touches no other.
  */
  lemma RetryAllRevivesEverything(c: Config, ws: seq<World>, es: seq<Event>, i: nat, text: string, now: int,
                                  id: EventId)
    requires IsRun(c, ws, es) && i <= |es| && id in ws[i].table
    ensures var row, after := ws[i].table[id], RetriedAll(DiscardedAll(ws[i].table, text), now);
            && id in after
            && (row.failedAt != None && row.processedAt == None ==>
                  Pending(after[id], now) && after[id].attemptCount == 0 && after[id].dlqReason == None)
            && (row.failedAt == None || row.processedAt != None ==> after[id] == row)
  {
    DeadLettersHaveReasons(c, ws, es, i, id);
  }

  /**
    A single-row retry checks first and updates later without a guard, so it can land on a row a tick
    has processed in between: the row keeps processedAt but loses its attempt record.
  */
  lemma RetryCanHitProcessedRow(c: Config, later: int) returns (w: World)
    requires c.batchSize > 0
    ensures Reachable(c, w) && 0 in w.table
    ensures w.table[0] == NewRow(later).(processedAt := Some(0)) && !CanBeClaimed(w.table[0])
  {
    var row := NewRow(0);
    Start(c);
    w := Step(c, EMPTY, Insert(0, 0));
    w := Step(c, w, Check(0, 0));
    assert w == World(map[0 := row], map[], map[0 := 0]);
    ClaimRowZero(c, w, 0, row);
    w := Step(c, w, Begin(0, 0, {0}));
    assert w == World(map[0 := row], map[0 := ClaimedTick(c, row)], map[0 := 0]);
    w := ProcessAndCommit(c, w);
    w := Step(c, w, RetryOne(0, later));
  }

  /** The step that writes processedAt of the row into the table. */
  predicate Processes(c: Config, w: World, e: Event, id: EventId) {
    if c.transactional
    then e.Commit? && e.t in w.ticks && id in w.ticks[e.t].work && w.ticks[e.t].work[id].processedAt != None
    else e.Mark? && e.id == id
  }

  lemma ProcessedStep(c: Config, w: World, e: Event, id: EventId)
    requires Invariant(c, w) && LocksHold(c, w) && Enabled(c, w, e) && id in w.table
    ensures id in Next(c, w, e).table
    ensures Next(c, w, e).table[id].processedAt != None <==> w.table[id].processedAt != None || Processes(c, w, e, id)
  {
    RowStep(c, w, e, id);
    if e.Commit? && c.transactional {
      assert TickOk(c, w.ticks[e.t]);
      assert id in w.ticks[e.t].work ==> Owns(w.ticks, e.t, id);
    } else if e.Dispatch? || e.Mark? || e.MarkFails? || e.RecordFailure? {
      WorkProcesses(c, w, e, id);
    }
  }

  lemma WorkProcesses(c: Config, w: World, e: Event, id: EventId)
    requires Enabled(c, w, e) && id in w.table && (e.Dispatch? || e.Mark? || e.MarkFails? || e.RecordFailure?)
    ensures id in Next(c, w, e).table
    ensures Next(c, w, e).table[id].processedAt != None <==> w.table[id].processedAt != None || Processes(c, w, e, id)
  {
  }

  /** Op's check of the row has not been used up. */
  predicate UsesCheck(e: Event, op: nat) {
    (e.RetryOne? || e.DiscardOne?) && e.op == op
  }

  lemma CheckStep(c: Config, w: World, e: Event, op: nat, id: EventId)
    requires Enabled(c, w, e) && id in w.table
    requires e == Check(op, id) || (op in w.checked && w.checked[op] == id && !UsesCheck(e, op))
    ensures op in Next(c, w, e).checked && Next(c, w, e).checked[op] == id
  {
  }

  lemma ProcessedSince(c: Config, ws: seq<World>, es: seq<Event>, i: nat, j: nat, id: EventId)
    requires i < j < |es| < |ws|
    ensures (exists k | i < k < j + 1 :: Processes(c, ws[k], es[k], id)) <==>
            (exists k | i < k < j :: Processes(c, ws[k], es[k], id)) || Processes(c, ws[j], es[j], id)
  {
  }

  lemma {:induction false} CheckIsKept(c: Config, ws: seq<World>, es: seq<Event>, i: nat, j: nat, op: nat, id: EventId)
    requires IsRun(c, ws, es) && i < j <= |es| && es[i] == Check(op, id)
    requires forall m | i < m < j :: !UsesCheck(es[m], op)
    ensures op in ws[j].checked && ws[j].checked[op] == id && id in ws[j].table
    decreases j
  {
    var w, e := ws[j - 1], es[j - 1];
    assert Enabled(c, w, e) && ws[j] == Next(c, w, e);
    if i < j - 1 {
      CheckIsKept(c, ws, es, i, j - 1, op, id);
      RunStep(c, ws, es, j - 1, id);
    }
    CheckStep(c, w, e, op, id);
  }

  lemma ProcessedRunStep(c: Config, ws: seq<World>, es: seq<Event>, j: nat, id: EventId)
    requires IsRun(c, ws, es) && j < |es| && id in ws[j].table
    ensures id in ws[j + 1].table
    ensures ws[j + 1].table[id].processedAt != None <==>
            ws[j].table[id].processedAt != None || Processes(c, ws[j], es[j], id)
  {
    InvariantHolds(c, ws, es, j);
    LocksHoldAlways(c, ws, es, j);
    ProcessedStep(c, ws[j], es[j], id);
    assert ws[j + 1] == Next(c, ws[j], es[j]);
  }

  lemma {:induction false} SinceCheck(c: Config, ws: seq<World>, es: seq<Event>, i: nat, j: nat, op: nat, id: EventId)
    requires IsRun(c, ws, es) && i < j <= |es| && es[i] == Check(op, id)
    ensures id in ws[j].table
    ensures ws[j].table[id].processedAt != None <==> exists k | i < k < j :: Processes(c, ws[k], es[k], id)
    decreases j
  {
    if i == j - 1 {
      assert Enabled(c, ws[i], es[i]) && ws[j] == Next(c, ws[i], es[i]);
    } else {
      SinceCheck(c, ws, es, i, j - 1, op, id);
      ProcessedRunStep(c, ws, es, j - 1, id);
      ProcessedSince(c, ws, es, i, j - 1, id);
    }
  }

  /**
    The guard of a single-row retry is only as good as its moment: a retry checked in step i and written
    in step j lands on a processed row exactly if a tick wrote processedAt of that row in between.
  */
  lemma RetryLandsOnProcessedIff(c: Config, ws: seq<World>, es: seq<Event>, i: nat, j: nat, op: nat, id: EventId)
    requires IsRun(c, ws, es) && i < j < |es| && es[i] == Check(op, id) && es[j].RetryOne? && es[j].op == op
    requires forall m | i < m < j :: !UsesCheck(es[m], op)
    ensures id in ws[j].table && id in ws[j + 1].table
    ensures ws[j + 1].table[id] == Requeued(ws[j].table[id], es[j].now)
    ensures ws[j].table[id].processedAt != None <==> exists k | i < k < j :: Processes(c, ws[k], es[k], id)
  {
    SinceCheck(c, ws, es, i, j, op, id);
    CheckIsKept(c, ws, es, i, j, op, id);
    assert ws[j + 1] == Next(c, ws[j], es[j]);
  }

  lemma ProcessAndCommit(c: Config, w: World) returns (w': World)
    requires Reachable(c, w)
    requires w == World(map[0 := NewRow(0)], map[0 := ClaimedTick(c, NewRow(0))], map[0 := 0])
    ensures Reachable(c, w') && w'.checked == map[0 := 0] && w'.ticks == map[]
    ensures w'.table == map[0 := MarkProcessed(NewRow(0), 0)]
  {
    w' := Step(c, w, Dispatch(0, 0, Succeeds));
    w' := Step(c, w', Mark(0, 0));
    assert w'.ticks[0].todo == {} && w'.ticks[0].done == map[] && w'.ticks[0].failed == map[];
    w' := Step(c, w', Commit(0));
  }

  // The status filter of `inspect` ------------------------------------------------------------------

  predicate StatusDlq(r: Row) { r.processedAt == None && r.failedAt != None }
  predicate StatusLive(r: Row, now: int) { r.processedAt == None && r.failedAt == None && r.nextAttemptAt <= now }
  predicate StatusPending(r: Row, now: int) { r.processedAt == None && r.failedAt == None && r.nextAttemptAt > now }
  predicate StatusProcessed(r: Row) { r.processedAt != None }

  ghost predicate ExactlyOne(held: seq<bool>) {
    exists k | 0 <= k < |held| :: held[k] && forall m | 0 <= m < |held| && m != k :: !held[m]
  }

  lemma OneStatus(r: Row, now: int)
    requires r.failedAt != None ==> r.dlqReason != None
    ensures ExactlyOne([StatusDlq(r), StatusLive(r, now), StatusPending(r, now), StatusProcessed(r)])
    ensures (StatusDlq(r) <==> InDlq(r)) && (StatusLive(r, now) <==> Pending(r, now))
  {
    var held := [StatusDlq(r), StatusLive(r, now), StatusPending(r, now), StatusProcessed(r)];
    var k := if StatusProcessed(r) then 3 else if StatusDlq(r) then 0 else if StatusLive(r, now) then 1 else 2;
    forall m | 0 <= m < 4 && m != k ensures !held[m] {
    }
    assert held[k];
  }

  /** In a reachable state every row has exactly one status, and `dlq` is what the bulk commands act on. */
  lemma StatusesPartition(c: Config, ws: seq<World>, es: seq<Event>, i: nat, id: EventId, now: int)
    requires IsRun(c, ws, es) && i <= |es| && id in ws[i].table
    ensures var r := ws[i].table[id];
            && ExactlyOne([StatusDlq(r), StatusLive(r, now), StatusPending(r, now), StatusProcessed(r)])
            && (StatusDlq(r) <==> InDlq(r)) && (StatusLive(r, now) <==> Pending(r, now))
  {
    DeadLettersHaveReasons(c, ws, es, i, id);
    OneStatus(ws[i].table[id], now);
  }
}
