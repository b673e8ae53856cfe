/**
  The bounded dead-letter list in Redis: the push (src/core/redis/redis.service.ts,
  pipelineDeadLetterPush) and the cron drain (src/common/events/retry-queue-drain.scheduler.ts).

  The push is a pipeline, not a transaction, so the commands of other clients may run between its
  RPUSH and its LTRIM.
*/
module DeadLetterLists {
  import opened Prelude

  const DEAD_LETTER_LIMIT := 1000
  const DRAIN_BATCH := 100

  /** LTRIM key -limit -1 */
  function Trimmed<T>(items: seq<T>, limit: nat): (r: seq<T>)
    ensures |r| <= |items| && r == items[|items| - |r|..]
    ensures |r| == if |items| <= limit then |items| else limit
  {
    if |items| <= limit then items else items[|items| - limit..]
  }

  /** How one LPOP goes: Redis answers, an open circuit answers for it, or it fails, with the pop done or not. */
  datatype Link = Answers | TurnedAway | Breaks(popped: bool, error: string)

  /** One dead-letter key, and the dead_letter_events rows it is drained into. */
  class DeadLetterQueue<T> {
    var items: seq<T>
    var persisted: seq<T>

    constructor ()
      ensures items == [] && persisted == []
    {
      items, persisted := [], [];
    }

    /** The pipeline run without interference. */
    method Push(item: T, maxLength: nat)
      modifies this`items
      ensures items == Trimmed(old(items) + [item], maxLength)
    {
      items := items + [item];
      items := Trimmed(items, maxLength);
    }

    /** lpopJson: a popped element that is not JSON, or is the JSON null, is gone and reads as an empty list. */
    method LPopJson(readable: T -> bool, link: Link) returns (r: Result<Option<T>>)
      modifies this`items
      ensures link.TurnedAway? ==> r == Ok(None) && items == old(items)
      ensures link.Breaks? ==>
                r == Err(link.error) && items == if link.popped && old(items) != [] then old(items)[1..] else old(items)
      ensures link.Answers? ==>
                && items == (if old(items) == [] then [] else old(items)[1..])
                && r == Ok(if old(items) != [] && readable(old(items)[0]) then Some(old(items)[0]) else None)
    {
      if link.TurnedAway? { return Ok(None); }
      if link.Breaks? && !link.popped { return Err(link.error); }
      if items == [] { return if link.Breaks? then Err(link.error) else Ok(None); }
      var raw := items[0];
      items := items[1..];
      if link.Breaks? { return Err(link.error); }
      return Ok(if readable(raw) then Some(raw) else None);
    }

    /**
      One tick for one tier: pops until the batch is full or a pop gives nothing. A row that cannot be
      inserted (`insertFails`) is logged and dropped, but counted as drained. `links` says how Redis takes
      each pop.
    */
    method DrainTier(readable: T -> bool, links: nat -> Link, insertFails: T -> bool) returns (r: Result<nat>)
      modifies this
      ensures var n := Drainable(old(items), readable, links);
              && persisted == old(persisted) + Kept(old(items)[..n], insertFails)
              && (n == DRAIN_BATCH ==> r == Ok(n) && items == old(items)[n..])
              && (n < DRAIN_BATCH && links(n).TurnedAway? ==> r == Ok(n) && items == old(items)[n..])
              && (n < DRAIN_BATCH && links(n).Breaks? ==>
                    r == Err(links(n).error)
                    && items == old(items)[if links(n).popped && n < |old(items)| then n + 1 else n..])
              && (n < DRAIN_BATCH && links(n).Answers? ==>
                    r == Ok(n) && items == old(items)[if n < |old(items)| then n + 1 else n..])
    {
      var drained := 0;
      while drained < DRAIN_BATCH
        invariant drained <= DRAIN_BATCH && drained <= |old(items)|
        invariant forall k | 0 <= k < drained :: Drains(old(items), readable, links, k)
        invariant items == old(items)[drained..]
        invariant persisted == old(persisted) + Kept(old(items)[..drained], insertFails)
      {
        var raw := LPopJson(readable, links(drained));
        if raw.Err? {
          DrainableIs(old(items), readable, links, drained);
          return Err(raw.error);
        }
        if raw.value == None { break; }
        assert Drains(old(items), readable, links, drained);
        assert old(items)[..drained + 1] == old(items)[..drained] + [raw.value.value];
        KeptAppend(old(items)[..drained], raw.value.value, insertFails);
        drained := drained + 1;
        if !insertFails(raw.value.value) { persisted := persisted + [raw.value.value]; }
      }
      DrainableIs(old(items), readable, links, drained);
      return Ok(drained);
    }
  }

  predicate Drains<T>(items: seq<T>, readable: T -> bool, links: nat -> Link, k: nat) {
    k < |items| && links(k).Answers? && readable(items[k])
  }

  /** How many elements one tick drains: those before the first pop that gives none. */
  function Drainable<T>(items: seq<T>, readable: T -> bool, links: nat -> Link): (n: nat)
    ensures n <= |items| && n <= DRAIN_BATCH
    ensures forall k | 0 <= k < n :: Drains(items, readable, links, k)
    ensures n < DRAIN_BATCH ==> !Drains(items, readable, links, n)
  {
    DrainableFrom(items, readable, links, 0)
  }

  function DrainableFrom<T>(items: seq<T>, readable: T -> bool, links: nat -> Link, i: nat): (n: nat)
    requires i <= |items| && i <= DRAIN_BATCH && forall k | 0 <= k < i :: Drains(items, readable, links, k)
    ensures i <= n <= |items| && n <= DRAIN_BATCH
    ensures forall k | 0 <= k < n :: Drains(items, readable, links, k)
    ensures n < DRAIN_BATCH ==> !Drains(items, readable, links, n)
    decreases |items| - i
  {
    if i < DRAIN_BATCH && Drains(items, readable, links, i) then DrainableFrom(items, readable, links, i + 1) else i
  }

  lemma DrainableIs<T>(items: seq<T>, readable: T -> bool, links: nat -> Link, n: nat)
    requires n <= |items| && n <= DRAIN_BATCH && forall k | 0 <= k < n :: Drains(items, readable, links, k)
    requires n < DRAIN_BATCH ==> !Drains(items, readable, links, n)
    ensures Drainable(items, readable, links) == n
  {
  }

  /** With Redis up and every element readable, a tick drains a full batch or empties the list. */
  lemma UndisturbedTier<T>(items: seq<T>, readable: T -> bool, links: nat -> Link)
    requires forall k | 0 <= k < |items| :: Drains(items, readable, links, k)
    ensures Drainable(items, readable, links) == if |items| < DRAIN_BATCH then |items| else DRAIN_BATCH
  {
  }

  /** The rows that can be inserted, in order. */
  function Kept<T>(items: seq<T>, insertFails: T -> bool): seq<T> {
    if items == [] then []
    else (if insertFails(items[0]) then [] else [items[0]]) + Kept(items[1..], insertFails)
  }

  lemma {:induction false} KeptAppend<T>(items: seq<T>, x: T, insertFails: T -> bool)
    ensures Kept(items + [x], insertFails) == Kept(items, insertFails) + (if insertFails(x) then [] else [x])
  {
    if items != [] {
      KeptAppend(items[1..], x, insertFails);
      assert (items + [x])[1..] == items[1..] + [x];
    }
  }

  /** Every item that can be inserted is kept, as often as it comes and in its order; no other is. */
  lemma {:induction false} KeptIs<T>(items: seq<T>, insertFails: T -> bool, inserts: T -> bool) returns (at: seq<nat>)
    requires forall i | 0 <= i < |items| :: inserts(items[i]) <==> !insertFails(items[i])
    ensures Picks(at, items, inserts, Kept(items, insertFails))
  {
    if items == [] {
      at := [0];
    } else {
      var n := |items| - 1;
      at := KeptIs(items[..n], insertFails, inserts);
      KeptAppend(items[..n], items[n], insertFails);
      PicksOneMore(at, items[..n], inserts, Kept(items[..n], insertFails), items[n]);
      assert items == items[..n] + [items[n]];
      at := at + [at[n] + if inserts(items[n]) then 1 else 0];
    }
  }

  // ---------------------------------------------------------------------------------------------
  // Any number of pushers and drainers
  // ---------------------------------------------------------------------------------------------

  /**
    `history` is every envelope ever pushed; `list` is the Redis list; `drained` and `trimmed` are
    what left it, in order of leaving. `open` counts pushes between their RPUSH and their LTRIM.
  */
  datatype World<T> = World(
    history: seq<T>, list: seq<T>, left: seq<Left<T>>, open: nat)

  datatype Left<T> = Left(item: T, fate: Fate)
  datatype Fate = Drained | Unreadable | TrimmedOff | Expired

  datatype Event<T> = RPush(item: T) | LTrim | LPop(readable: bool) | KeyExpires

  predicate Enabled<T>(w: World<T>, e: Event<T>) {
    match e
    case RPush(_) => true
    case LTrim => w.open > 0
    case LPop(_) => w.list != []
    case KeyExpires => true
  }

  function AllLeave<T>(items: seq<T>, fate: Fate): (r: seq<Left<T>>)
    ensures |r| == |items| && forall i | 0 <= i < |r| :: r[i] == Left(items[i], fate)
  {
    seq(|items|, i requires 0 <= i < |items| => Left(items[i], fate))
  }

  function Next<T>(w: World<T>, e: Event<T>): World<T>
    requires Enabled(w, e)
  {
    match e
    case RPush(item) => w.(history := w.history + [item], list := w.list + [item], open := w.open + 1)
    case LTrim =>
      var kept := Trimmed(w.list, DEAD_LETTER_LIMIT);
      w.(list := kept, left := w.left + AllLeave(w.list[..|w.list| - |kept|], TrimmedOff), open := w.open - 1)
    case LPop(readable) =>
      w.(list := w.list[1..], left := w.left + AllLeave(w.list[..1], if readable then Drained else Unreadable))
    case KeyExpires => w.(list := [], left := w.left + AllLeave(w.list, Expired))
  }

  ghost predicate IsRun<T>(ws: seq<World<T>>, es: seq<Event<T>>) {
    && |ws| == |es| + 1 && ws[0] == World([], [], [], 0)
    && forall i | 0 <= i < |es| :: Enabled(ws[i], es[i]) && ws[i + 1] == Next(ws[i], es[i])
  }

  function Count<T>(left: seq<Left<T>>, fate: Fate): nat {
    if left == [] then 0 else Count(left[..|left| - 1], fate) + (if left[|left| - 1].fate == fate then 1 else 0)
  }

  lemma {:induction false} CountAll<T>(left: seq<Left<T>>)
    ensures |left| == Count(left, Drained) + Count(left, Unreadable) + Count(left, TrimmedOff) + Count(left, Expired)
  {
    if left != [] {
      CountAll(left[..|left| - 1]);
    }
  }

  /** The list is the block of the history that has not left, and items left in push order. */
  ghost predicate TailInvariant<T>(w: World<T>) {
    && |w.left| <= |w.history|
    && w.list == w.history[|w.left|..]
    && (forall k | 0 <= k < |w.left| :: w.left[k].item == w.history[k])
    && |w.list| <= DEAD_LETTER_LIMIT + w.open
  }

  lemma TailInvariantStep<T>(w: World<T>, e: Event<T>)
    requires TailInvariant(w) && Enabled(w, e)
    ensures TailInvariant(Next(w, e))
  {
    match e
    case RPush(item) =>
      assert w.history[|w.left|..] + [item] == (w.history + [item])[|w.left|..];
    case LTrim =>
    case LPop(_) =>
    case KeyExpires =>
  }

  /**
    Conservation and order, with pushes and drains of any number of clients interleaved command by
    command: envelopes leave in push order, the list is exactly the block of the push history that
    has not left yet, and it overshoots the limit by at most the pushes whose LTRIM is still to come.
  */
  lemma {:induction false} ListIsTheTailOfHistory<T>(ws: seq<World<T>>, es: seq<Event<T>>, i: nat)
    requires IsRun(ws, es) && i <= |es|
    ensures TailInvariant(ws[i])
  {
    if i > 0 {
      ListIsTheTailOfHistory(ws, es, i - 1);
      TailInvariantStep(ws[i - 1], es[i - 1]);
      assert ws[i] == Next(ws[i - 1], es[i - 1]);
    }
  }

  /** Every pushed envelope is drained, lost as unreadable, trimmed off, expired with the key, or still in the list. */
  lemma EnvelopesAreConserved<T>(ws: seq<World<T>>, es: seq<Event<T>>, i: nat)
    requires IsRun(ws, es) && i <= |es|
    ensures |ws[i].history| ==
            Count(ws[i].left, Drained) + Count(ws[i].left, Unreadable) + Count(ws[i].left, TrimmedOff)
            + Count(ws[i].left, Expired) + |ws[i].list|
  {
    ListIsTheTailOfHistory(ws, es, i);
    CountAll(ws[i].left);
  }

  /** The list after n whole pushes. */
  function Pushed<T>(item: T, n: nat): World<T> {
    World(seq(n, _ => item), seq(n, _ => item), [], 0)
  }

  lemma {:induction false} Pushes<T>(item: T, n: nat) returns (ws: seq<World<T>>, es: seq<Event<T>>)
    requires n <= DEAD_LETTER_LIMIT
    ensures IsRun(ws, es) && ws[|es|] == Pushed(item, n)
  {
    if n == 0 {
      ws, es := [Pushed(item, 0)], [];
    } else {
      ws, es := Pushes(item, n - 1);
      var w := Next(ws[|es|], RPush(item));
      assert w.list == seq(n, _ => item);
      ws, es := ws + [w, Pushed(item, n)], es + [RPush(item), LTrim];
    }
  }

  /** The limit itself is overshot: between the two commands of a push the list can hold one more. */
  lemma LimitIsOvershot<T>(item: T) returns (ws: seq<World<T>>, es: seq<Event<T>>)
    ensures IsRun(ws, es) && |ws[|es|].list| == 1001 && ws[|es|].open == 1
  {
    ws, es := Pushes(item, DEAD_LETTER_LIMIT);
    ws, es := ws + [Next(ws[|es|], RPush(item))], es + [RPush(item)];
  }
}
