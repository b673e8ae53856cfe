/**
  The queue object does what the step system says: its dispatch and its undisturbed drain
  (src/common/events/retry-queue.ts) are runs of `RetryQueues`, so what is proved of every run holds of them.
*/
module RetryQueueRefinements {
  import opened Prelude
  import opened RetryQueues
  import Objects = RetryQueueObjects

  function ById(items: seq<Item>): map<Id, Item> {
    if items == [] then map[] else ById(items[..|items| - 1])[items[|items| - 1].id := items[|items| - 1]]
  }

  /** The object's fields are the state of the Redis structures; nothing it issued is lost or doubled. */
  ghost predicate Refines(q: Objects.Queue, w: World) {
    && q.store == (map k | k in w.store :: w.store[k].item) && q.index == w.index
    && w.writes == ById(q.writes) && |w.writes| == |q.writes|
    && w.pushes == Elements(q.deadLetters) && |w.pushes| == |q.deadLetters|
  }

  /** A drainer at rest with these members still to do. */
  predicate AtRest(w: World, d: nat, now: int, due: seq<Member>) {
    d in w.drainers && w.drainers[d] == Draining(now, due)
  }

  ghost predicate Path(c: Config, ws: seq<World>, es: seq<Event>) {
    && |ws| == |es| + 1
    && forall i | 0 <= i < |es| :: WellTyped(c, ws[i]) && Enabled(ws[i], es[i]) && ws[i + 1] == Next(c, ws[i], es[i])
  }

  lemma Append(c: Config, ws: seq<World>, es: seq<Event>, vs: seq<World>, ds: seq<Event>)
    requires Path(c, ws, es) && Path(c, vs, ds) && ws[|es|] == vs[0]
    ensures Path(c, ws + vs[1..], es + ds) && (ws + vs[1..])[|es| + |ds|] == vs[|ds|]
  {
    var us, bs := ws + vs[1..], es + ds;
    forall i | 0 <= i < |bs|
      ensures WellTyped(c, us[i]) && Enabled(us[i], bs[i]) && us[i + 1] == Next(c, us[i], bs[i])
    {
      if i < |es| {
        assert us[i] == ws[i] && us[i + 1] == ws[i + 1] && bs[i] == es[i];
      } else {
        assert us[i] == vs[i - |es|] && us[i + 1] == vs[i - |es| + 1] && bs[i] == ds[i - |es|];
      }
    }
  }

  lemma {:induction false} PathKeepsInvariant(c: Config, ws: seq<World>, es: seq<Event>, i: nat)
    requires Path(c, ws, es) && Invariant(c, ws[0]) && i <= |es|
    ensures Invariant(c, ws[i])
  {
    if i > 0 {
      PathKeepsInvariant(c, ws, es, i - 1);
      InvariantStep(c, ws[i - 1], es[i - 1]);
    }
  }

  // Scheduling ------------------------------------------------------------------------------------

  lemma ByIdGrows(items: seq<Item>, item: Item)
    ensures ById(items + [item]) == ById(items)[item.id := item]
  {
    assert (items + [item])[..|items|] == items;
  }

  lemma OneMorePush(ids: seq<Id>, id: Id)
    ensures Elements(ids + [id]) == Elements(ids) + {id}
  {
  }

  lemma OneMoreEntry<V>(m: map<Id, V>, id: Id, v: V)
    requires id !in m
    ensures |m[id := v]| == |m| + 1
  {
    assert m[id := v].Keys == m.Keys + {id};
  }

  lemma WriteRefines(q: Objects.Queue, w: World, item: Item, fate: Fate)
    requires Refines(q, w) && item.id !in w.writes
    ensures Refines(q.(writes := q.writes + [item]),
                    w.(writes := w.writes[item.id := item], fates := w.fates[item.id := fate]))
  {
    ByIdGrows(q.writes, item);
    OneMoreEntry(w.writes, item.id, item);
  }

  lemma PushRefines(q: Objects.Queue, w: World, id: Id, fate: Fate)
    requires Refines(q, w) && id !in w.pushes
    ensures Refines(q.(deadLetters := q.deadLetters + [id]),
                    w.(pushes := w.pushes + {id}, fates := w.fates[id := fate]))
  {
    OneMorePush(q.deadLetters, id);
  }

  /** scheduleRetry of an item that is not there yet. */
  lemma ScheduleRefines(c: Config, q: Objects.Queue, w: World, id: Id, clock: int)
    requires Refines(q, w) && id.attempt >= 1 && w.now == clock && id !in w.writes && id !in w.pushes
    ensures Refines(Objects.Scheduled(c, q, id, clock), Schedule(c, w, id))
  {
    if id.attempt > MaxRetries(c) {
      PushRefines(q, w, id, Pushing);
    } else {
      var item := Item(id, clock + DelayMs(c, id.attempt));
      WriteRefines(q, w, item, Writing);
      assert Objects.Scheduled(c, q, id, clock) == q.(writes := q.writes + [item]);
      assert Schedule(c, w, id) == w.(writes := w.writes[id := item], fates := w.fates[id := Writing]);
    }
  }

  // A drain ---------------------------------------------------------------------------------------

  lemma SkippedMember(c: Config, q: Objects.Queue, w: World, d: nat, now: int, due: seq<Member>, a: Objects.Attempt)
    requires Invariant(c, w) && Refines(q, w) && AtRest(w, d, now, due) && due != []
    requires due[0].score > now || due[0].key !in q.index
    ensures var w' := TryClaim(w, d);
            var (q', x, stop) := Objects.MemberStep(c, q, now, due[0], a);
            !stop && x == None && Refines(q', w') && AtRest(w', d, now, due[1..]) && w'.now == w.now
  {
  }

  /** The key is off the index. */
  function Unindexed(q: Objects.Queue, key: Key): Objects.Queue {
    q.(index := q.index - {key})
  }

  lemma ClaimedMember(c: Config, q: Objects.Queue, w: World, d: nat, now: int, due: seq<Member>, clock: int)
    requires Invariant(c, w) && Refines(q, w) && AtRest(w, d, now, due) && due != [] && w.now <= clock
    requires due[0].score <= now && due[0].key in q.index
    ensures var w' := TryClaim(w, d).(now := clock);
            && Refines(Unindexed(q, due[0].key), w')
            && d in w'.drainers && w'.drainers[d] == Claimed(now, due[1..], due[0].key)
            && w'.store == w.store && w'.fates == w.fates && w'.now == clock
  {
  }

  lemma DeliveredFacts(c: Config, w: World, d: nat, throws: bool, key: Key)
    requires Invariant(c, w) && HoldsKey(w.drainers, d, key) && key in w.store
    ensures var item, w' := w.store[key].item, TakePayload(c, w, d, throws);
            && item.nextRetryAt <= w.drainers[d].now && item.id in w'.fates && w'.fates[item.id] == Delivered
            && Following(item.id) !in w.writes && Following(item.id) !in w.pushes
  {
    var item := w.store[key].item;
    ClaimedIsDue(c, w, d);
    TakeFates(c, w, d, throws, item.id);
    StoredFacts(c, w, key);
  }

  lemma TakePayloadIs(c: Config, w: World, d: nat, throws: bool, key: Key)
    requires HoldsKey(w.drainers, d, key) && key in w.store && w.store[key].item.nextRetryAt <= w.drainers[d].now
    ensures var delivered, id := Drop(Resume(w, d), key, Delivered), Following(w.store[key].item.id);
            && TakePayload(c, w, d, throws) == (if throws then Schedule(c, delivered, id) else delivered)
            && AtRest(TakePayload(c, w, d, throws), d, w.drainers[d].now, w.drainers[d].due)
            && TakePayload(c, w, d, throws).now == w.now
  {
  }

  /** Taking a payload that is there, and running its handlers. */
  lemma DeliveredMember(c: Config, q: Objects.Queue, w: World, d: nat, now: int, rest: seq<Member>, key: Key,
                        a: Objects.Attempt)
    requires Invariant(c, w) && Refines(q, w) && w.now == a.clock
    requires d in w.drainers && w.drainers[d] == Claimed(now, rest, key) && key in w.store
    ensures var item := w.store[key].item;
            var dropped := q.(store := q.store - {key});
            var q' := if Objects.Fails(a) then Objects.Scheduled(c, dropped, Following(item.id), a.clock) else dropped;
            var w' := TakePayload(c, w, d, Objects.Fails(a));
            && item.nextRetryAt <= now && Refines(q', w') && AtRest(w', d, now, rest) && w'.now == w.now
            && item.id in w'.fates && w'.fates[item.id] == Delivered
  {
    var item := w.store[key].item;
    DeliveredFacts(c, w, d, Objects.Fails(a), key);
    TakePayloadIs(c, w, d, Objects.Fails(a), key);
    var delivered := Drop(Resume(w, d), key, Delivered);
    DroppedRefines(q, w, Resume(w, d), key, Delivered);
    if Objects.Fails(a) {
      ScheduleRefines(c, q.(store := q.store - {key}), delivered, Following(item.id), a.clock);
    }
  }

  lemma DroppedRefines(q: Objects.Queue, w: World, w': World, key: Key, fate: Fate)
    requires Refines(q, w) && key in w.store
    requires w'.store == w.store && w'.index == w.index && w'.writes == w.writes && w'.pushes == w.pushes
    ensures Refines(q.(store := q.store - {key}), Drop(w', key, fate))
  {
  }

  /** The same in the object's words. */
  lemma MemberStepIs(c: Config, q: Objects.Queue, now: int, m: Member, a: Objects.Attempt)
    requires m.score <= now && m.key in q.index && (m.key in q.store ==> q.store[m.key].nextRetryAt <= now)
    ensures var rest := Unindexed(q, m.key);
            var (q', x, stop) := Objects.MemberStep(c, q, now, m, a);
            && !stop && (m.key !in q.store ==> q' == rest && x == None)
            && (m.key in q.store ==>
                  var dropped := rest.(store := rest.store - {m.key});
                  && x == Some(q.store[m.key])
                  && q' == if Objects.Fails(a)
                           then Objects.Scheduled(c, dropped, Following(q.store[m.key].id), a.clock) else dropped)
  {
    assert q.writes + [] == q.writes && q.deadLetters + [] == q.deadLetters;
  }

  /** Steps of drainer d, and the clock going on. */
  predicate OfDrain(e: Event, d: nat) {
    e.Tick? || ((e.BeginDrain? || e.Claim? || e.Take? || e.Stop?) && e.d == d)
  }

  ghost predicate DrainPath(c: Config, ws: seq<World>, es: seq<Event>, d: nat, w: World, w': World) {
    && Path(c, ws, es) && ws[0] == w && ws[|es|] == w' && forall e <- es :: OfDrain(e, d)
  }

  /** What the step system knows after the object has done one member. */
  ghost predicate MemberDone(c: Config, q': Objects.Queue, x: Option<Item>, w': World, d: nat, now: int,
                             rest: seq<Member>, clock: int) {
    && Refines(q', w') && AtRest(w', d, now, rest) && w'.now <= clock
    && (x.Some? ==> x.value.id in w'.fates && w'.fates[x.value.id] == Delivered)
  }

  lemma TakenMember(c: Config, q: Objects.Queue, w: World, d: nat, now: int, rest: seq<Member>, key: Key,
                    a: Objects.Attempt) returns (w': World)
    requires Invariant(c, w) && Refines(q, w) && w.now == a.clock
    requires d in w.drainers && w.drainers[d] == Claimed(now, rest, key)
    ensures WellTyped(c, w) && Enabled(w, Take(d, Objects.Fails(a))) && w' == Next(c, w, Take(d, Objects.Fails(a)))
    ensures key in q.store ==>
              var dropped := q.(store := q.store - {key});
              var q' := if Objects.Fails(a) then Objects.Scheduled(c, dropped, Following(q.store[key].id), a.clock)
                        else dropped;
              q.store[key].nextRetryAt <= now && MemberDone(c, q', Some(q.store[key]), w', d, now, rest, a.clock)
    ensures key !in q.store ==> MemberDone(c, q, None, w', d, now, rest, a.clock)
  {
    w' := TakePayload(c, w, d, Objects.Fails(a));
    if key in w.store {
      DeliveredMember(c, q, w, d, now, rest, key, a);
    }
  }

  lemma JoinPaths(c: Config, vs: seq<World>, ds: seq<Event>, us: seq<World>, bs: seq<Event>, d: nat, w: World, v: World,
                  u: World)
    requires DrainPath(c, vs, ds, d, w, v) && DrainPath(c, us, bs, d, v, u)
    ensures DrainPath(c, vs + us[1..], ds + bs, d, w, u)
  {
    Append(c, vs, ds, us, bs);
  }

  lemma OneStep(c: Config, w: World, e: Event, d: nat)
    requires WellTyped(c, w) && Enabled(w, e) && OfDrain(e, d)
    ensures DrainPath(c, [w, Next(c, w, e)], [e], d, w, Next(c, w, e))
  {
  }

  lemma TwoSteps(c: Config, w: World, e: Event, v: World, e': Event, w': World, d: nat)
    requires WellTyped(c, w) && Enabled(w, e) && OfDrain(e, d) && v == Next(c, w, e)
    requires WellTyped(c, v) && Enabled(v, e') && OfDrain(e', d) && w' == Next(c, v, e')
    ensures DrainPath(c, [w, v, w'], [e, e'], d, w, w')
  {
  }

  lemma ClaimThenTick(c: Config, w: World, d: nat, clock: int)
    requires Invariant(c, w) && Enabled(w, Claim(d)) && w.now <= clock
    ensures var v := TryClaim(w, d);
            && WellTyped(c, v) && v == Next(c, w, Claim(d)) && v.(now := clock) == Next(c, v, Tick(clock - w.now))
            && Invariant(c, v.(now := clock))
  {
    InvariantStep(c, w, Claim(d));
    LaterOn(c, TryClaim(w, d), clock);
  }

  lemma LaterOn(c: Config, w: World, clock: int)
    requires Invariant(c, w) && w.now <= clock
    ensures WellTyped(c, w) && Invariant(c, w.(now := clock)) && w.(now := clock) == Next(c, w, Tick(clock - w.now))
  {
  }

  /** The drainer claims the member, and the clock goes on to its handlers. */
  lemma ClaimRun(c: Config, q: Objects.Queue, w: World, d: nat, now: int, due: seq<Member>, clock: int)
      returns (vs: seq<World>, ds: seq<Event>, w': World)
    requires Invariant(c, w) && Refines(q, w) && AtRest(w, d, now, due) && due != [] && w.now <= clock
    requires due[0].score <= now && due[0].key in q.index
    ensures DrainPath(c, vs, ds, d, w, w') && Invariant(c, w') && w'.now == clock
    ensures Refines(Unindexed(q, due[0].key), w')
    ensures d in w'.drainers && w'.drainers[d] == Claimed(now, due[1..], due[0].key)
  {
    var v, tick := TryClaim(w, d), Tick(clock - w.now);
    w' := v.(now := clock);
    ClaimedMember(c, q, w, d, now, due, clock);
    ClaimThenTick(c, w, d, clock);
    TwoSteps(c, w, Claim(d), v, tick, w', d);
    vs, ds := [w, v, w'], [Claim(d), tick];
  }

  lemma TakenRun(c: Config, q: Objects.Queue, w: World, d: nat, now: int, due: seq<Member>, a: Objects.Attempt)
      returns (vs: seq<World>, ds: seq<Event>, w': World)
    requires Invariant(c, w) && Refines(q, w) && AtRest(w, d, now, due) && due != [] && w.now <= a.clock
    requires due[0].score <= now && due[0].key in q.index
    ensures DrainPath(c, vs, ds, d, w, w')
    ensures due[0].key in q.store ==> q.store[due[0].key].nextRetryAt <= now
    ensures MemberDone(c, Objects.MemberStep(c, q, now, due[0], a).0, Objects.MemberStep(c, q, now, due[0], a).1,
                       w', d, now, due[1..], a.clock)
  {
    var us, bs, v := ClaimRun(c, q, w, d, now, due, a.clock);
    var take := Take(d, Objects.Fails(a));
    w' := TakenMember(c, Unindexed(q, due[0].key), v, d, now, due[1..], due[0].key, a);
    OneStep(c, v, take, d);
    JoinPaths(c, us, bs, [v, w'], [take], d, w, v, w');
    vs, ds := us + [v, w'][1..], bs + [take];
    MemberStepIs(c, q, now, due[0], a);
  }

  lemma MemberRun(c: Config, q: Objects.Queue, w: World, d: nat, now: int, due: seq<Member>, a: Objects.Attempt)
      returns (vs: seq<World>, ds: seq<Event>, w': World)
    requires Invariant(c, w) && Refines(q, w) && AtRest(w, d, now, due) && due != [] && w.now <= a.clock
    ensures DrainPath(c, vs, ds, d, w, w') && !Objects.MemberStep(c, q, now, due[0], a).2
    ensures MemberDone(c, Objects.MemberStep(c, q, now, due[0], a).0, Objects.MemberStep(c, q, now, due[0], a).1,
                       w', d, now, due[1..], a.clock)
  {
    if due[0].score > now || due[0].key !in q.index {
      SkippedMember(c, q, w, d, now, due, a);
      w' := TryClaim(w, d);
      OneStep(c, w, Claim(d), d);
      vs, ds := [w, w'], [Claim(d)];
    } else {
      vs, ds, w' := TakenRun(c, q, w, d, now, due, a);
      MemberStepIs(c, q, now, due[0], a);
    }
  }

  /** The clock does not run backwards while the drain runs. */
  ghost predicate ClocksRise(start: int, attempts: seq<Objects.Attempt>) {
    && (forall i | 0 <= i < |attempts| :: start <= attempts[i].clock)
    && forall i, j | 0 <= i < j < |attempts| :: attempts[i].clock <= attempts[j].clock
  }

  ghost predicate AllDelivered(xs: seq<Option<Item>>, w: World) {
    forall i | 0 <= i < |xs| && xs[i].Some? :: xs[i].value.id in w.fates && w.fates[xs[i].value.id] == Delivered
  }

  lemma EndsStay(c: Config, ws: seq<World>, es: seq<Event>, id: Id)
    requires Path(c, ws, es) && Invariant(c, ws[0])
    ensures StepsKeepEnd(ws, id)
  {
    forall m | 0 <= m < |ws| - 1 && id in ws[m].fates ensures KeepsEnd(ws[m].fates, ws[m + 1].fates, id) {
      PathKeepsInvariant(c, ws, es, m);
      FinalStep(c, ws[m], es[m], id);
    }
  }

  /** Where the step system is once the object has done n members. */
  ghost predicate MembersDone(c: Config, q: Objects.Queue, w': World, d: nat, now: int, due: seq<Member>,
                              attempts: seq<Objects.Attempt>, n: nat)
    requires n <= |due| == |attempts|
  {
    var r := Objects.DrainSteps(c, q, now, due, attempts, n);
    && !r.stopped && Refines(r.q, w') && AtRest(w', d, now, due[n..]) && AllDelivered(r.delivered, w')
    && forall i | n <= i < |attempts| :: w'.now <= attempts[i].clock
  }

  lemma OneMoreMember(c: Config, q: Objects.Queue, v: World, d: nat, now: int, due: seq<Member>,
                      attempts: seq<Objects.Attempt>, n: nat) returns (us: seq<World>, bs: seq<Event>, u: World)
    requires n < |due| == |attempts| && Invariant(c, v) && MembersDone(c, q, v, d, now, due, attempts, n)
    requires forall i, j | 0 <= i < j < |attempts| :: attempts[i].clock <= attempts[j].clock
    ensures DrainPath(c, us, bs, d, v, u) && MembersDone(c, q, u, d, now, due, attempts, n + 1)
  {
    var r := Objects.DrainSteps(c, q, now, due, attempts, n);
    us, bs, u := MemberRun(c, r.q, v, d, now, due[n..], attempts[n]);
    assert due[n..][1..] == due[n + 1..] && due[n..][0] == due[n];
    DeliveriesStay(c, us, bs, r.delivered);
  }

  lemma DrainPathKeepsInvariant(c: Config, us: seq<World>, bs: seq<Event>, d: nat, w: World, v: World)
    requires DrainPath(c, us, bs, d, w, v) && Invariant(c, w)
    ensures Invariant(c, v)
  {
    PathKeepsInvariant(c, us, bs, |bs|);
  }

  lemma NoMembers(c: Config, q: Objects.Queue, w: World, d: nat, now: int, due: seq<Member>,
                  attempts: seq<Objects.Attempt>)
    requires Refines(q, w) && AtRest(w, d, now, due) && |due| == |attempts| && ClocksRise(w.now, attempts)
    ensures MembersDone(c, q, w, d, now, due, attempts, 0)
  {
    assert due[0..] == due;
  }

  lemma ExtendRun(c: Config, q: Objects.Queue, w: World, us: seq<World>, bs: seq<Event>, v: World, d: nat, now: int,
                  due: seq<Member>, attempts: seq<Objects.Attempt>, n: nat)
      returns (vs: seq<World>, ds: seq<Event>, w': World)
    requires Invariant(c, w) && DrainPath(c, us, bs, d, w, v) && n < |due| == |attempts|
    requires MembersDone(c, q, v, d, now, due, attempts, n)
    requires forall i, j | 0 <= i < j < |attempts| :: attempts[i].clock <= attempts[j].clock
    ensures DrainPath(c, vs, ds, d, w, w') && MembersDone(c, q, w', d, now, due, attempts, n + 1)
  {
    DrainPathKeepsInvariant(c, us, bs, d, w, v);
    vs, ds, w' := OneMoreMember(c, q, v, d, now, due, attempts, n);
    JoinPaths(c, us, bs, vs, ds, d, w, v, w');
    vs, ds := us + vs[1..], bs + ds;
  }

  /** The first n members. */
  lemma {:induction false} MembersRun(c: Config, q: Objects.Queue, w: World, d: nat, now: int, due: seq<Member>,
                                      attempts: seq<Objects.Attempt>, n: nat)
      returns (vs: seq<World>, ds: seq<Event>, w': World)
    requires Invariant(c, w) && Refines(q, w) && AtRest(w, d, now, due)
    requires n <= |due| == |attempts| && ClocksRise(w.now, attempts)
    ensures DrainPath(c, vs, ds, d, w, w') && MembersDone(c, q, w', d, now, due, attempts, n)
  {
    if n == 0 {
      NoMembers(c, q, w, d, now, due, attempts);
      vs, ds, w' := [w], [], w;
    } else {
      vs, ds, w' := MembersRun(c, q, w, d, now, due, attempts, n - 1);
      vs, ds, w' := ExtendRun(c, q, w, vs, ds, w', d, now, due, attempts, n - 1);
    }
  }

  lemma DeliveriesStay(c: Config, ws: seq<World>, es: seq<Event>, xs: seq<Option<Item>>)
    requires Path(c, ws, es) && Invariant(c, ws[0]) && AllDelivered(xs, ws[0])
    ensures AllDelivered(xs, ws[|es|])
  {
    forall i | 0 <= i < |xs| && xs[i].Some?
      ensures xs[i].value.id in ws[|es|].fates && ws[|es|].fates[xs[i].value.id] == Delivered
    {
      EndsStay(c, ws, es, xs[i].value.id);
      EndIsKept(ws, 0, |es|, xs[i].value.id);
    }
  }

  lemma BeginRun(c: Config, q: Objects.Queue, w: World, d: nat, now: int, due: seq<Member>) returns (w': World)
    requires Invariant(c, w) && Refines(q, w) && d !in w.drainers && now <= w.now && IsDueBatch(q.index, now, due)
    ensures DrainPath(c, [w, w'], [BeginDrain(d, now, due)], d, w, w') && Invariant(c, w')
    ensures Refines(q, w') && AtRest(w', d, now, due) && w'.now == w.now
  {
    var begin := BeginDrain(d, now, due);
    w' := Next(c, w, begin);
    InvariantStep(c, w, begin);
    OneStep(c, w, begin, d);
  }

  lemma StopRun(c: Config, q: Objects.Queue, xs: seq<Option<Item>>, w: World, d: nat) returns (w': World)
    requires Invariant(c, w) && Refines(q, w) && AllDelivered(xs, w) && d in w.drainers
    ensures DrainPath(c, [w, w'], [Stop(d)], d, w, w') && Invariant(c, w')
    ensures Refines(q, w') && AllDelivered(xs, w') && d !in w'.drainers
  {
    w' := Next(c, w, Stop(d));
    InvariantStep(c, w, Stop(d));
    OneStep(c, w, Stop(d), d);
  }

  lemma OtherDrainers(c: Config, w: World, e: Event, d: nat)
    requires WellTyped(c, w) && Enabled(w, e) && OfDrain(e, d)
    ensures Next(c, w, e).drainers - {d} == w.drainers - {d}
  {
    if e.Take? {
      OtherDrainersTake(c, w, d, e.throws);
    }
  }

  lemma OtherDrainersTake(c: Config, w: World, d: nat, throws: bool)
    requires d in w.drainers && w.drainers[d].Claimed?
    ensures TakePayload(c, w, d, throws).drainers - {d} == w.drainers - {d}
  {
  }

  /** The steps of one drainer leave the others alone. */
  lemma {:induction false} OthersStay(c: Config, ws: seq<World>, es: seq<Event>, d: nat, i: nat)
    requires Path(c, ws, es) && (forall e <- es :: OfDrain(e, d)) && i <= |es|
    ensures ws[i].drainers - {d} == ws[0].drainers - {d}
  {
    if i > 0 {
      OthersStay(c, ws, es, d, i - 1);
      OtherDrainers(c, ws[i - 1], es[i - 1], d);
    }
  }

  /**
    A drain of the object that nobody disturbs is a run of the step system: the clock goes on, and a drainer
    of its own begins, claims and takes its members and stops. The end of that run is the object's state, and
    what the object has delivered the run has delivered.
  */
  lemma DrainIsARun(c: Config, q: Objects.Queue, w: World, d: nat, now: int, due: seq<Member>,
                    attempts: seq<Objects.Attempt>) returns (vs: seq<World>, ds: seq<Event>, w': World)
    requires Invariant(c, w) && Refines(q, w) && d !in w.drainers && now <= w.now
    requires IsDueBatch(q.index, now, due) && |attempts| == |due| && ClocksRise(w.now, attempts)
    ensures DrainPath(c, vs, ds, d, w, w') && Invariant(c, w') && w'.drainers == w.drainers
    ensures var r := Objects.DrainSteps(c, q, now, due, attempts, |due|);
            !r.stopped && Refines(r.q, w') && AllDelivered(r.delivered, w')
  {
    var w1 := BeginRun(c, q, w, d, now, due);
    var us, bs, w2 := MembersRun(c, q, w1, d, now, due, attempts, |due|);
    DrainPathKeepsInvariant(c, us, bs, d, w1, w2);
    var r := Objects.DrainSteps(c, q, now, due, attempts, |due|);
    w' := StopRun(c, r.q, r.delivered, w2, d);
    vs, ds := ThreeParts(c, w, w1, w2, w', us, bs, d, now, due);
    SameDrainers(c, vs, ds, d, w, w');
  }

  lemma SameDrainers(c: Config, vs: seq<World>, ds: seq<Event>, d: nat, w: World, w': World)
    requires DrainPath(c, vs, ds, d, w, w') && d !in w.drainers && d !in w'.drainers
    ensures w'.drainers == w.drainers
  {
    OthersStay(c, vs, ds, d, |ds|);
    assert w'.drainers == w'.drainers - {d} && w.drainers == w.drainers - {d};
  }

  lemma ThreeParts(c: Config, w: World, w1: World, w2: World, w': World, us: seq<World>, bs: seq<Event>, d: nat,
                   now: int, due: seq<Member>) returns (vs: seq<World>, ds: seq<Event>)
    requires DrainPath(c, [w, w1], [BeginDrain(d, now, due)], d, w, w1) && DrainPath(c, us, bs, d, w1, w2)
    requires DrainPath(c, [w2, w'], [Stop(d)], d, w2, w')
    ensures DrainPath(c, vs, ds, d, w, w')
  {
    JoinPaths(c, [w, w1], [BeginDrain(d, now, due)], us, bs, d, w, w1, w2);
    vs, ds := [w, w1] + us[1..], [BeginDrain(d, now, due)] + bs;
    JoinPaths(c, vs, ds, [w2, w'], [Stop(d)], d, w, w2, w');
    vs, ds := vs + [w2, w'][1..], ds + [Stop(d)];
  }

  // A first delivery -----------------------------------------------------------------------------

  ghost predicate DispatchPath(c: Config, ws: seq<World>, es: seq<Event>, w: World, w': World) {
    && Path(c, ws, es) && ws[0] == w && ws[|es|] == w' && forall e <- es :: e.Tick? || e.HandlerFails?
  }

  ghost predicate FreshRoots(w: World, root: nat) {
    forall id | id in w.fates :: id.root < root
  }

  lemma FailurePath(c: Config, w: World, root: nat, clock: int)
    requires Invariant(c, w) && FreshRoots(w, root) && w.now <= clock
    ensures var v := w.(now := clock);
            var w' := Schedule(c, v, Id(root, 1));
            DispatchPath(c, [w, v, w'], [Tick(clock - w.now), HandlerFails(root)], w, w')
  {
    LaterOn(c, w, clock);
  }

  lemma FailureKeeps(c: Config, w: World, root: nat, clock: int)
    requires Invariant(c, w) && FreshRoots(w, root) && w.now <= clock
    ensures var w' := Schedule(c, w.(now := clock), Id(root, 1));
            Invariant(c, w') && FreshRoots(w', root + 1) && w'.now == clock
  {
    LaterOn(c, w, clock);
    ScheduleStep(c, w.(now := clock), Id(root, 1));
  }

  /** One handler throws. */
  lemma ThrowRun(c: Config, q: Objects.Queue, w: World, root: nat, clock: int) returns (v: World, w': World)
    requires Invariant(c, w) && Refines(q, w) && FreshRoots(w, root) && w.now <= clock
    ensures DispatchPath(c, [w, v, w'], [Tick(clock - w.now), HandlerFails(root)], w, w')
    ensures Refines(Objects.Scheduled(c, q, Id(root, 1), clock), w') && FreshRoots(w', root + 1)
    ensures Invariant(c, w') && w'.now == clock
  {
    v := w.(now := clock);
    w' := Schedule(c, v, Id(root, 1));
    assert Id(root, 1) !in w.writes && Id(root, 1) !in w.pushes;
    assert Refines(q, v);
    ScheduleRefines(c, q, v, Id(root, 1), clock);
    FailurePath(c, w, root, clock);
    FailureKeeps(c, w, root, clock);
  }

  lemma JoinDispatch(c: Config, vs: seq<World>, ds: seq<Event>, us: seq<World>, bs: seq<Event>, w: World, v: World,
                     u: World)
    requires DispatchPath(c, vs, ds, w, v) && DispatchPath(c, us, bs, v, u)
    ensures DispatchPath(c, vs + us[1..], ds + bs, w, u)
  {
    Append(c, vs, ds, us, bs);
  }

  lemma HandlerRun(c: Config, q: Objects.Queue, w: World, root: nat, r: Objects.HandlerResult, clock: int)
      returns (us: seq<World>, bs: seq<Event>, w': World)
    requires Invariant(c, w) && Refines(q, w) && FreshRoots(w, root) && w.now <= clock
    ensures DispatchPath(c, us, bs, w, w') && Invariant(c, w') && w'.now <= clock
    ensures Refines(Objects.Called(c, q, root, r, clock).0, w')
    ensures FreshRoots(w', Objects.Called(c, q, root, r, clock).1)
  {
    if r == Objects.Throws {
      var v;
      v, w' := ThrowRun(c, q, w, root, clock);
      us, bs := [w, v, w'], [Tick(clock - w.now), HandlerFails(root)];
    } else {
      us, bs, w' := [w], [], w;
    }
  }

  /**
    A dispatch of the object is a run of the step system in which the clock goes on and a handler call fails for
    each handler that throws, each with a root of its own.
  */
  lemma {:induction false} DispatchIsARun(c: Config, q: Objects.Queue, w: World, root: nat,
                                          results: seq<Objects.HandlerResult>, clocks: seq<int>, n: nat)
      returns (vs: seq<World>, ds: seq<Event>, w': World)
    requires Invariant(c, w) && Refines(q, w) && FreshRoots(w, root) && n <= |results| == |clocks|
    requires forall i | 0 <= i < |clocks| :: w.now <= clocks[i]
    requires forall i, j | 0 <= i < j < |clocks| :: clocks[i] <= clocks[j]
    ensures DispatchPath(c, vs, ds, w, w') && Invariant(c, w')
    ensures Refines(Objects.Dispatched(c, q, root, results, clocks, n).0, w')
    ensures FreshRoots(w', Objects.Dispatched(c, q, root, results, clocks, n).1)
    ensures w'.now <= if n > 0 then clocks[n - 1] else w.now
  {
    if n == 0 {
      vs, ds, w' := [w], [], w;
    } else {
      var us, bs, u := DispatchIsARun(c, q, w, root, results, clocks, n - 1);
      var (q', root') := Objects.Dispatched(c, q, root, results, clocks, n - 1);
      assert u.now <= clocks[n - 1];
      vs, ds, w' := HandlerRun(c, q', u, root', results[n - 1], clocks[n - 1]);
      JoinDispatch(c, us, bs, vs, ds, w, u, w');
      vs, ds := us + vs[1..], bs + ds;
    }
  }
}
