/**
  The in-process circuit breaker (src/common/resilience/circuit-breaker.ts) and its Redis wrapper
  (src/core/redis/redis-circuit-breaker.ts).

  The breaker is first given as functions on its three fields, then as the class that updates those
  fields. Calls may overlap: a task that is awaited leaves the breaker free for other calls, so the
  step model below splits `exec` into its admission and its completion.
*/
module CircuitBreakers {
  import opened Prelude

  datatype CircuitState = Closed | Open | HalfOpen

  datatype Config = Config(failureThreshold: int, resetTimeoutMs: int)

  predicate ValidConfig(c: Config) {
    c.failureThreshold > 0 && c.resetTimeoutMs > 0
  }

  /** The three mutable fields of a breaker. */
  datatype Breaker = Breaker(state: CircuitState, consecutiveFailures: nat, openedAt: Option<int>)

  const FRESH := Breaker(Closed, 0, None)

  /** Milliseconds since the breaker opened; zero when the opening time is not recorded. */
  function Elapsed(b: Breaker, now: int): int {
    if b.openedAt.Some? then now - b.openedAt.value else 0
  }

  predicate Admits(c: Config, b: Breaker, now: int) {
    b.state == Open ==> Elapsed(b, now) >= c.resetTimeoutMs
  }

  function Admitted(b: Breaker): Breaker {
    if b.state == Open then b.(state := HalfOpen) else b
  }

  function AfterSuccess(b: Breaker): Breaker {
    Breaker(if b.state == HalfOpen then Closed else b.state, 0, None)
  }

  /** A failure opens the breaker when it was a probe, or when it completes the threshold. */
  predicate FailureOpens(c: Config, b: Breaker) {
    b.state == HalfOpen || b.consecutiveFailures + 1 >= c.failureThreshold
  }

  function AfterFailure(c: Config, b: Breaker, now: int): Breaker {
    if FailureOpens(c, b)
    then Breaker(Open, b.consecutiveFailures + 1, Some(now))
    else b.(consecutiveFailures := b.consecutiveFailures + 1)
  }

  // ---------------------------------------------------------------------------------------------
  // The class
  // ---------------------------------------------------------------------------------------------

  /** What the awaited task does; a thrown error may itself be a nested breaker's open error. */
  datatype Task<+T> = Returns(value: T) | Throws(circuitOpen: bool)

  datatype Outcome<+T> = Value(value: T) | ShortCircuited | TaskError(circuitOpen: bool)

  class CircuitBreaker {
    const config: Config
    var state: CircuitState
    var consecutiveFailures: nat
    var openedAt: Option<int>

    function View(): Breaker
      reads this
    {
      Breaker(state, consecutiveFailures, openedAt)
    }

    constructor (config: Config)
      requires ValidConfig(config)
      ensures this.config == config && View() == FRESH
    {
      this.config := config;
      state, consecutiveFailures, openedAt := Closed, 0, None;
    }

    /** Both options are checked, the threshold first. */
    static method Create(config: Config) returns (r: Result<CircuitBreaker>)
      ensures config.failureThreshold <= 0 ==> r == Err("CircuitBreaker: failureThreshold must be > 0")
      ensures config.failureThreshold > 0 && config.resetTimeoutMs <= 0 ==>
                r == Err("CircuitBreaker: resetTimeoutMs must be > 0")
      ensures ValidConfig(config) ==> r.Ok? && fresh(r.value) && r.value.config == config && r.value.View() == FRESH
    {
      if config.failureThreshold <= 0 {
        return Err("CircuitBreaker: failureThreshold must be > 0");
      }
      if config.resetTimeoutMs <= 0 {
        return Err("CircuitBreaker: resetTimeoutMs must be > 0");
      }
      var b := new CircuitBreaker(config);
      r := Ok(b);
    }

    method Transition(from: CircuitState, to: CircuitState)
      modifies this`state
      ensures state == if from == to then old(state) else to
    {
      if from == to { return; }
      state := to;
    }

    /** The part of `exec` that runs before the task is awaited. */
    method Begin(now: int) returns (admitted: bool)
      modifies this
      ensures admitted == Admits(config, old(View()), now)
      ensures View() == if admitted then Admitted(old(View())) else old(View())
    {
      if state == Open {
        var elapsed := if openedAt != None then now - openedAt.value else 0;
        if elapsed < config.resetTimeoutMs { return false; }
        Transition(Open, HalfOpen);
      }
      admitted := true;
    }

    method OnSuccess()
      modifies this
      ensures View() == AfterSuccess(old(View()))
    {
      if state == HalfOpen { Transition(HalfOpen, Closed); }
      consecutiveFailures := 0;
      openedAt := None;
    }

    method OnFailure(now: int)
      modifies this
      ensures View() == AfterFailure(config, old(View()), now)
    {
      consecutiveFailures := consecutiveFailures + 1;
      if state == HalfOpen {
        openedAt := Some(now);
        Transition(HalfOpen, Open);
        return;
      }
      if consecutiveFailures >= config.failureThreshold {
        openedAt := Some(now);
        Transition(Closed, Open);
      }
    }

    /** A whole call with nothing else in flight: the clock reads `start`, then `finish`. */
    method Exec<T>(task: Task<T>, start: int, finish: int) returns (r: Outcome<T>)
      modifies this
      ensures View() == SerialExec(config, old(View()), SerialCall(start, finish, task.Returns?))
      ensures r == if !Admits(config, old(View()), start) then ShortCircuited
                   else if task.Returns? then Value(task.value) else TaskError(task.circuitOpen)
    {
      var admitted := Begin(start);
      if !admitted { return ShortCircuited; }
      match task
      case Returns(v) =>
        OnSuccess();
        r := Value(v);
      case Throws(o) =>
        OnFailure(finish);
        r := TaskError(o);
    }
  }

  /** The wrapper used by every Redis command: an open circuit yields the command's fallback. */
  class RedisCircuitBreaker {
    const breaker: CircuitBreaker
    var shortCircuitedCount: nat

    constructor (config: Config)
      requires ValidConfig(config)
      ensures fresh(breaker) && breaker.config == config && breaker.View() == FRESH && shortCircuitedCount == 0
    {
      breaker := new CircuitBreaker(config);
      shortCircuitedCount := 0;
    }

    /** Both options are checked here too, the threshold first. */
    static method Create(config: Config) returns (r: Result<RedisCircuitBreaker>)
      ensures config.failureThreshold <= 0 ==> r == Err("RedisCircuitBreaker: failureThreshold must be > 0")
      ensures config.failureThreshold > 0 && config.resetTimeoutMs <= 0 ==>
                r == Err("RedisCircuitBreaker: resetTimeoutMs must be > 0")
      ensures ValidConfig(config) ==>
                r.Ok? && fresh(r.value) && fresh(r.value.breaker) && r.value.breaker.config == config
                && r.value.breaker.View() == FRESH && r.value.shortCircuitedCount == 0
    {
      if config.failureThreshold <= 0 {
        return Err("RedisCircuitBreaker: failureThreshold must be > 0");
      }
      if config.resetTimeoutMs <= 0 {
        return Err("RedisCircuitBreaker: resetTimeoutMs must be > 0");
      }
      var b := new RedisCircuitBreaker(config);
      r := Ok(b);
    }

    method Exec<T>(fallback: T, task: Task<T>, start: int, finish: int) returns (r: Outcome<T>)
      modifies this, breaker
      ensures breaker.View() ==
              SerialExec(breaker.config, old(breaker.View()), SerialCall(start, finish, task.Returns?))
      ensures r == WrapperReply(fallback, task, Admits(breaker.config, old(breaker.View()), start))
      ensures var admitted := Admits(breaker.config, old(breaker.View()), start);
              && (admitted && task.Returns? ==> r == Value(task.value))
              && (admitted && task.Throws? && !task.circuitOpen ==> r == TaskError(false))
              && (!admitted || (task.Throws? && task.circuitOpen) ==>
                    r == Value(fallback) && shortCircuitedCount == old(shortCircuitedCount) + 1)
              && (admitted && (task.Returns? || !task.circuitOpen) ==>
                    shortCircuitedCount == old(shortCircuitedCount))
      ensures shortCircuitedCount == old(shortCircuitedCount) +
                                     (if CountedShort(task, Admits(breaker.config, old(breaker.View()), start))
                                         then 1 else 0)
    {
      r := breaker.Exec(task, start, finish);
      if r.ShortCircuited? || (r.TaskError? && r.circuitOpen) {
        shortCircuitedCount := shortCircuitedCount + 1;
        r := Value(fallback);
      }
    }
  }

  predicate CountedShort<T>(task: Task<T>, admitted: bool) {
    !admitted || (task.Throws? && task.circuitOpen)
  }

  function WrapperReply<T>(fallback: T, task: Task<T>, admitted: bool): Outcome<T> {
    if CountedShort(task, admitted) then Value(fallback)
    else if task.Returns? then Value(task.value) else TaskError(false)
  }

  // ---------------------------------------------------------------------------------------------
  // Serial calls: the fields are a summary of the history of executed tasks
  // ---------------------------------------------------------------------------------------------

  datatype SerialCall = SerialCall(start: int, finish: int, ok: bool)

  function SerialExec(c: Config, b: Breaker, call: SerialCall): Breaker {
    if !Admits(c, b, call.start) then b
    else if call.ok then AfterSuccess(Admitted(b)) else AfterFailure(c, Admitted(b), call.finish)
  }

  function SerialState(c: Config, calls: seq<SerialCall>): Breaker {
    if calls == [] then FRESH
    else SerialExec(c, SerialState(c, calls[..|calls| - 1]), calls[|calls| - 1])
  }

  /** The outcomes of the tasks that were really run, in order. */
  function Executed(c: Config, calls: seq<SerialCall>): seq<bool> {
    if calls == [] then []
    else
      var before := calls[..|calls| - 1];
      var last := calls[|calls| - 1];
      Executed(c, before) + (if Admits(c, SerialState(c, before), last.start) then [last.ok] else [])
  }

  function FailingSuffix(history: seq<bool>): nat {
    if history == [] || history[|history| - 1] then 0
    else 1 + FailingSuffix(history[..|history| - 1])
  }

  /** The fields of a breaker whose last n tasks failed, and none before since the last success. */
  predicate Summarises(c: Config, b: Breaker, n: nat) {
    && b.consecutiveFailures == n
    && b.state == (if n < c.failureThreshold then Closed else Open)
    && (b.state == Open ==> b.openedAt.Some?)
  }

  lemma SummaryStep(c: Config, b: Breaker, n: nat, call: SerialCall)
    requires ValidConfig(c) && Summarises(c, b, n)
    ensures Summarises(c, SerialExec(c, b, call), if !Admits(c, b, call.start) then n else if call.ok then 0 else n + 1)
  {
  }

  lemma ExecutedStep(c: Config, calls: seq<SerialCall>)
    requires calls != []
    ensures var before, last := calls[..|calls| - 1], calls[|calls| - 1];
            FailingSuffix(Executed(c, calls)) ==
            if !Admits(c, SerialState(c, before), last.start) then FailingSuffix(Executed(c, before))
            else if last.ok then 0 else FailingSuffix(Executed(c, before)) + 1
  {
    var before, last := calls[..|calls| - 1], calls[|calls| - 1];
    if Admits(c, SerialState(c, before), last.start) {
      assert Executed(c, calls) == Executed(c, before) + [last.ok];
      assert Executed(c, calls)[..|Executed(c, calls)| - 1] == Executed(c, before);
    } else {
      assert Executed(c, calls) == Executed(c, before);
    }
  }

  lemma FreshIsSummary(c: Config)
    requires ValidConfig(c)
    ensures Summarises(c, SerialState(c, []), FailingSuffix(Executed(c, [])))
  {
  }

  /**
    Between serial calls the counter is the length of the failing suffix of the executed tasks, the
    breaker is closed exactly while that is below the threshold, and it is never half-open.
  */
  lemma {:induction false} SerialRefinesHistory(c: Config, calls: seq<SerialCall>)
    requires ValidConfig(c)
    ensures Summarises(c, SerialState(c, calls), FailingSuffix(Executed(c, calls)))
  {
    if calls == [] {
      FreshIsSummary(c);
    } else {
      var before, last := calls[..|calls| - 1], calls[|calls| - 1];
      SerialRefinesHistory(c, before);
      SummaryStep(c, SerialState(c, before), FailingSuffix(Executed(c, before)), last);
      ExecutedStep(c, calls);
    }
  }

  predicate Outage(calls: seq<SerialCall>) {
    && (forall i | 0 <= i < |calls| :: !calls[i].ok && calls[i].start <= calls[i].finish)
    && (forall i, j | 0 <= i < j < |calls| :: calls[i].finish <= calls[j].start)
  }

  /**
    In an outage that lasts `d` ms after the breaker first opens (on call `opening`), the upstream
    sees at most failureThreshold + floor(d / resetTimeoutMs) tasks.
  */
  lemma OutageBound(c: Config, calls: seq<SerialCall>, opening: nat, d: nat)
    requires ValidConfig(c) && OutageWindow(c, calls, opening, d)
    ensures SerialState(c, calls[..opening]).state == Closed && SerialState(c, calls[..opening + 1]).state == Open
    ensures |Executed(c, calls)| <= c.failureThreshold + d / c.resetTimeoutMs
  {
    OpensOn(c, calls, opening, d);
    ProbesAreSpaced(c, calls, opening, d);
    DivideBound(Probes(c, calls), c.resetTimeoutMs, d);
  }

  lemma OpensOn(c: Config, calls: seq<SerialCall>, opening: nat, d: nat)
    requires ValidConfig(c) && OutageWindow(c, calls, opening, d)
    ensures SerialState(c, calls[..opening]).state == Closed && SerialState(c, calls[..opening + 1]).state == Open
  {
    OutageState(c, calls[..opening]);
    OutageState(c, calls[..opening + 1]);
  }

  lemma DivideBound(q: int, r: int, d: nat)
    requires r > 0 && q * r <= d
    ensures q <= d / r
  {
    var excess := q - d / r;
    assert excess * r <= d % r;
    assert excess >= 1 ==> excess * r >= r;
  }

  lemma {:induction false} AllFail(c: Config, calls: seq<SerialCall>)
    requires Outage(calls)
    ensures FailingSuffix(Executed(c, calls)) == |Executed(c, calls)|
  {
    if calls != [] {
      var before := calls[..|calls| - 1];
      AllFail(c, before);
      if Executed(c, calls) != Executed(c, before) {
        assert Executed(c, calls)[..|Executed(c, calls)| - 1] == Executed(c, before);
      }
    }
  }

  lemma OutageState(c: Config, calls: seq<SerialCall>)
    requires ValidConfig(c) && Outage(calls)
    ensures var b := SerialState(c, calls);
            && b.consecutiveFailures == |Executed(c, calls)|
            && b.state == (if |Executed(c, calls)| < c.failureThreshold then Closed else Open)
            && (b.state == Open ==> b.openedAt.Some?)
  {
    SerialRefinesHistory(c, calls);
    AllFail(c, calls);
  }

  /** One more call of the outage either changes nothing or is the next probe, a cool-down later. */
  lemma OutageStep(c: Config, calls: seq<SerialCall>)
    requires ValidConfig(c) && Outage(calls) && calls != []
    ensures var before, last := calls[..|calls| - 1], calls[|calls| - 1];
            var b, b' := SerialState(c, before), SerialState(c, calls);
            var n, n' := |Executed(c, before)|, |Executed(c, calls)|;
            && (n < c.failureThreshold ==> n' == n + 1 && (b'.state == Open ==> b'.openedAt == Some(last.finish)))
            && (n >= c.failureThreshold ==>
                  || (n' == n && b' == b)
                  || (n' == n + 1 && b'.openedAt == Some(last.finish) && b.openedAt.Some?
                      && last.start >= b.openedAt.value + c.resetTimeoutMs))
  {
    OutageState(c, calls[..|calls| - 1]);
    OutageState(c, calls);
  }

  /** The calls of an outage up to the time limit; the one at `opening` completes the threshold. */
  ghost predicate OutageWindow(c: Config, calls: seq<SerialCall>, opening: nat, d: nat) {
    && Outage(calls) && opening < |calls|
    && |Executed(c, calls[..opening])| < c.failureThreshold
    && |Executed(c, calls[..opening + 1])| == c.failureThreshold
    && forall i | opening <= i < |calls| :: calls[i].start <= calls[opening].finish + d
  }

  lemma ShorterWindow(c: Config, calls: seq<SerialCall>, opening: nat, d: nat)
    requires OutageWindow(c, calls, opening, d) && opening < |calls| - 1
    ensures OutageWindow(c, calls[..|calls| - 1], opening, d)
  {
    var before := calls[..|calls| - 1];
    assert before[..opening] == calls[..opening];
    assert before[..opening + 1] == calls[..opening + 1];
  }

  /** The tasks run after the one that opened the breaker. */
  function Probes(c: Config, calls: seq<SerialCall>): int {
    |Executed(c, calls)| - c.failureThreshold
  }

  lemma OneMoreTimes(n: int, r: int)
    ensures (n + 1) * r == n * r + r
  {
  }

  lemma {:induction false} ProbesAreSpaced(c: Config, calls: seq<SerialCall>, opening: nat, d: nat)
    requires ValidConfig(c) && OutageWindow(c, calls, opening, d)
    ensures var b := SerialState(c, calls);
            && 0 <= Probes(c, calls) && Probes(c, calls) * c.resetTimeoutMs <= d
            && b.openedAt.Some?
            && b.openedAt.value >= calls[opening].finish + Probes(c, calls) * c.resetTimeoutMs
  {
    var before := calls[..|calls| - 1];
    OutageStep(c, calls);
    OutageState(c, calls);
    if opening < |calls| - 1 {
      ShorterWindow(c, calls, opening, d);
      ProbesAreSpaced(c, before, opening, d);
      OneMoreTimes(Probes(c, before), c.resetTimeoutMs);
    } else {
      assert calls[..opening] == before && calls[..opening + 1] == calls;
    }
  }

  // ---------------------------------------------------------------------------------------------
  // Overlapping calls
  // ---------------------------------------------------------------------------------------------

  /** The breaker, the clock, and how many admitted tasks have not finished yet. */
  datatype World = World(b: Breaker, now: int, inFlight: nat)

  datatype Event = Tick(ms: nat) | Call | Succeed | Fail

  predicate Enabled(w: World, e: Event) {
    e.Succeed? || e.Fail? ==> w.inFlight > 0
  }

  function Next(c: Config, w: World, e: Event): World
    requires Enabled(w, e)
  {
    match e
    case Tick(ms) => w.(now := w.now + ms)
    case Call => if Admits(c, w.b, w.now) then w.(b := Admitted(w.b), inFlight := w.inFlight + 1) else w
    case Succeed => w.(b := AfterSuccess(w.b), inFlight := w.inFlight - 1)
    case Fail => w.(b := AfterFailure(c, w.b, w.now), inFlight := w.inFlight - 1)
  }

  /** ws[i] steps to ws[i + 1] by es[i]. */
  ghost predicate IsPath(c: Config, ws: seq<World>, es: seq<Event>) {
    && |ws| == |es| + 1
    && forall i | 0 <= i < |es| :: Enabled(ws[i], es[i]) && ws[i + 1] == Next(c, ws[i], es[i])
  }

  ghost predicate IsRun(c: Config, ws: seq<World>, es: seq<Event>) {
    IsPath(c, ws, es) && ws[0].b == FRESH && ws[0].inFlight == 0
  }

  /** Step i starts a task. */
  predicate Starts(c: Config, ws: seq<World>, es: seq<Event>, i: nat)
    requires i < |es| <= |ws|
  {
    es[i] == Call && Admits(c, ws[i].b, ws[i].now)
  }

  /** Step i opens the breaker (or opens it afresh) and records the time. */
  predicate Opens(c: Config, ws: seq<World>, es: seq<Event>, i: nat)
    requires i < |es| <= |ws|
  {
    es[i] == Fail && FailureOpens(c, ws[i].b)
  }

  /** Step i is the success of a task that was still running when the breaker opened. */
  predicate LateSuccess(ws: seq<World>, es: seq<Event>, i: nat)
    requires i < |es| <= |ws|
  {
    es[i] == Succeed && ws[i].b.state == Open
  }

  predicate Stuck(b: Breaker) {
    b.state == Open && b.openedAt == None
  }

  lemma {:induction false} ClockIsMonotone(c: Config, ws: seq<World>, es: seq<Event>, i: nat, j: nat)
    requires IsPath(c, ws, es) && i <= j <= |es|
    ensures ws[i].now <= ws[j].now
    decreases j
  {
    if i < j {
      ClockIsMonotone(c, ws, es, i, j - 1);
      assert ws[j] == Next(c, ws[j - 1], es[j - 1]);
    }
  }

  /** While the breaker is not open, every opening so far is at least one cool-down old. */
  lemma {:induction false} OpeningsAreOld(c: Config, ws: seq<World>, es: seq<Event>, i: nat, j: nat)
    requires ValidConfig(c) && IsRun(c, ws, es) && i < j <= |es| && Opens(c, ws, es, i)
    ensures ws[j].b.state == Open && ws[j].b.openedAt.Some? ==> ws[i].now <= ws[j].b.openedAt.value
    ensures ws[j].b.state != Open ==> ws[j].now >= ws[i].now + c.resetTimeoutMs
    decreases j
  {
    assert ws[j] == Next(c, ws[j - 1], es[j - 1]);
    if i < j - 1 {
      OpeningsAreOld(c, ws, es, i, j - 1);
      ClockIsMonotone(c, ws, es, i, j - 1);
    }
  }

  /** No task starts within resetTimeoutMs of any earlier opening, however calls overlap. */
  lemma NoStartDuringCoolDown(c: Config, ws: seq<World>, es: seq<Event>, i: nat, j: nat)
    requires ValidConfig(c) && IsRun(c, ws, es) && i < j < |es|
    requires Opens(c, ws, es, i) && Starts(c, ws, es, j)
    ensures ws[j].now >= ws[i].now + c.resetTimeoutMs
  {
    OpeningsAreOld(c, ws, es, i, j);
  }

  ghost predicate LastOpening(c: Config, ws: seq<World>, es: seq<Event>, i: nat, j: nat)
    requires i < j <= |es| <= |ws|
  {
    Opens(c, ws, es, i) && forall k | i < k < j :: !Opens(c, ws, es, k)
  }

  lemma {:induction false} OpenRemembersItsOpening(c: Config, ws: seq<World>, es: seq<Event>, i: nat, j: nat)
    requires ValidConfig(c) && IsRun(c, ws, es) && i < j <= |es| && LastOpening(c, ws, es, i, j)
    ensures ws[j].b.state == Open ==>
              ws[j].b.openedAt == if exists k | i < k < j :: LateSuccess(ws, es, k) then None else Some(ws[i].now)
    ensures ws[j].b.state != Open ==> !exists k | i < k < j :: LateSuccess(ws, es, k)
    decreases j
  {
    assert ws[j] == Next(c, ws[j - 1], es[j - 1]);
    if i < j - 1 {
      OpenRemembersItsOpening(c, ws, es, i, j - 1);
      assert !Opens(c, ws, es, j - 1);
      var late := exists k | i < k < j - 1 :: LateSuccess(ws, es, k);
      if LateSuccess(ws, es, j - 1) {
        assert exists k | i < k < j :: LateSuccess(ws, es, k);
      } else {
        assert late <==> exists k | i < k < j :: LateSuccess(ws, es, k);
      }
    }
  }

  /**
    Exactly when a call made after the breaker opened at step i is turned away: the breaker is still
    open and either the cool-down is not over or some task succeeded late. So without late successes
    the first call after the cool-down always starts a task.
  */
  lemma CallStartsIff(c: Config, ws: seq<World>, es: seq<Event>, i: nat, j: nat)
    requires ValidConfig(c) && IsRun(c, ws, es) && i < j < |es|
    requires LastOpening(c, ws, es, i, j) && es[j] == Call
    ensures Starts(c, ws, es, j) <==>
            || ws[j].b.state != Open
            || (ws[j].now >= ws[i].now + c.resetTimeoutMs && !exists k | i < k < j :: LateSuccess(ws, es, k))
  {
    OpenRemembersItsOpening(c, ws, es, i, j);
  }

  /** A breaker that is open has opened at some step. */
  lemma {:induction false} OpenHasOpened(c: Config, ws: seq<World>, es: seq<Event>, j: nat) returns (i: nat)
    requires ValidConfig(c) && IsRun(c, ws, es) && j <= |es| && ws[j].b.state == Open
    ensures i < j && LastOpening(c, ws, es, i, j)
    decreases j
  {
    assert ws[j] == Next(c, ws[j - 1], es[j - 1]);
    if Opens(c, ws, es, j - 1) {
      i := j - 1;
    } else {
      i := OpenHasOpened(c, ws, es, j - 1);
    }
  }

  /** The open breaker that has lost its opening time is exactly one with a late success since it opened. */
  lemma StuckIffLateSuccess(c: Config, ws: seq<World>, es: seq<Event>, j: nat)
    requires ValidConfig(c) && IsRun(c, ws, es) && j <= |es|
    ensures Stuck(ws[j].b) <==>
            exists k | 0 <= k < j :: LateSuccess(ws, es, k) && forall m | k < m < j :: !Opens(c, ws, es, m)
  {
    if ws[j].b.state == Open {
      var i := OpenHasOpened(c, ws, es, j);
      OpenRemembersItsOpening(c, ws, es, i, j);
      if k :| 0 <= k < j && LateSuccess(ws, es, k) && forall m | k < m < j :: !Opens(c, ws, es, m) {
        assert Opens(c, ws, es, i);
      }
    } else if k :| 0 <= k < j && LateSuccess(ws, es, k) && forall m | k < m < j :: !Opens(c, ws, es, m) {
      var i := OpenHasOpened(c, ws, es, k);
      OpenRemembersItsOpening(c, ws, es, i, j);
    }
  }

  predicate CanFailEnough(c: Config, w: World) {
    w.inFlight > 0 && w.b.consecutiveFailures + w.inFlight >= c.failureThreshold
  }

  /** A stuck breaker turns every call away; only tasks still in flight can change it. */
  lemma {:induction false} StuckStays(c: Config, ws: seq<World>, es: seq<Event>, j: nat)
    requires ValidConfig(c) && IsPath(c, ws, es) && j <= |es|
    requires Stuck(ws[0].b) && !CanFailEnough(c, ws[0])
    ensures Stuck(ws[j].b) && !CanFailEnough(c, ws[j])
    ensures j < |es| ==> !Starts(c, ws, es, j)
    ensures ws[0].inFlight == 0 ==> ws[j].b == ws[0].b && ws[j].inFlight == 0
    decreases j
  {
    if j > 0 {
      StuckStays(c, ws, es, j - 1);
      assert ws[j] == Next(c, ws[j - 1], es[j - 1]);
    }
  }

  ghost predicate StuckForever(c: Config, w: World) {
    forall ws: seq<World>, es: seq<Event> | IsPath(c, ws, es) && ws[0] == w :: Stuck(ws[|es|].b)
  }

  /**
    A stuck breaker is never left through `exec` unless enough of the tasks already in flight can
    still fail to reach the threshold; with nothing in flight it is lost for good.
  */
  lemma StuckForeverIff(c: Config, w: World)
    requires ValidConfig(c) && Stuck(w.b)
    ensures StuckForever(c, w) <==> !CanFailEnough(c, w)
  {
    if CanFailEnough(c, w) {
      var f := w.b.consecutiveFailures;
      var n := if f >= c.failureThreshold then 1 else c.failureThreshold - f;
      var es := seq(n, _ => Fail);
      var ws := seq(n + 1, i requires 0 <= i <= n =>
        World(Breaker(Open, f + i, if i < n then None else Some(w.now)), w.now, w.inFlight - i));
      assert IsPath(c, ws, es);
      assert ws[0] == w && !Stuck(ws[|es|].b);
    } else {
      forall ws: seq<World>, es: seq<Event> | IsPath(c, ws, es) && ws[0] == w ensures Stuck(ws[|es|].b) {
        StuckStays(c, ws, es, |es|);
      }
    }
  }

  /** For every configuration some run ends stuck with nothing in flight. */
  lemma StuckIsReachable(c: Config) returns (ws: seq<World>, es: seq<Event>)
    requires ValidConfig(c)
    ensures IsRun(c, ws, es) && Stuck(ws[|es|].b) && ws[|es|].inFlight == 0
    ensures StuckForever(c, ws[|es|])
  {
    var n := c.failureThreshold;
    es := seq(n + 1, _ => Call) + seq(n, _ => Fail) + [Succeed];
    ws := seq(2 * n + 3, i requires 0 <= i < 2 * n + 3 =>
      if i <= n + 1 then World(FRESH, 0, i)
      else if i <= 2 * n then World(Breaker(Closed, i - n - 1, None), 0, 2 * n + 2 - i)
      else if i == 2 * n + 1 then World(Breaker(Open, n, Some(0)), 0, 1)
      else World(Breaker(Open, 0, None), 0, 0));
    assert IsRun(c, ws, es);
    StuckForeverIff(c, ws[|es|]);
  }

  /**
    Half-open admits every call, not one probe: for every number m of probes some run has all of
    them in flight at once.
  */
  lemma HalfOpenAdmitsAnyNumber(c: Config, m: nat) returns (ws: seq<World>, es: seq<Event>)
    requires ValidConfig(c) && m > 0
    ensures IsRun(c, ws, es) && ws[|es|].b.state == HalfOpen && ws[|es|].inFlight == m
  {
    var n := c.failureThreshold;
    es := seq(n, _ => Call) + seq(n, _ => Fail) + [Tick(c.resetTimeoutMs)] + seq(m, _ => Call);
    ws := seq(2 * n + 2 + m, i requires 0 <= i < 2 * n + 2 + m =>
      if i <= n then World(FRESH, 0, i)
      else if i < 2 * n then World(Breaker(Closed, i - n, None), 0, 2 * n - i)
      else World(Breaker(if i <= 2 * n + 1 then Open else HalfOpen, n, Some(0)),
                 if i == 2 * n then 0 else c.resetTimeoutMs,
                 if i <= 2 * n + 1 then 0 else i - 2 * n - 1));
    assert IsRun(c, ws, es);
  }

  /** The probes of the half-open episode under way in state j; the first of them to finish ends the episode. */
  function ProbesInFlight(ws: seq<World>, es: seq<Event>, j: nat): nat
    requires j <= |es| < |ws|
  {
    if j == 0 || ws[j].b.state != HalfOpen then 0
    else ProbesInFlight(ws, es, j - 1) + if es[j - 1] == Call then 1 else 0
  }

  lemma {:induction false} ProbesAreInFlight(c: Config, ws: seq<World>, es: seq<Event>, j: nat)
    requires IsRun(c, ws, es) && j <= |es|
    ensures ProbesInFlight(ws, es, j) <= ws[j].inFlight
  {
    if j > 0 {
      ProbesAreInFlight(c, ws, es, j - 1);
      assert ws[j] == Next(c, ws[j - 1], es[j - 1]);
    }
  }

  ghost predicate AtMostInFlight(ws: seq<World>, n: nat) {
    forall j | 0 <= j < |ws| :: ws[j].inFlight <= n
  }

  ghost predicate ProbesLimited(c: Config, n: nat, m: nat) {
    forall ws: seq<World>, es: seq<Event>, j: nat | IsRun(c, ws, es) && AtMostInFlight(ws, n) && j <= |es| ::
      ProbesInFlight(ws, es, j) <= m
  }

  /**
    The only limit on probes is the caller's: with at most n calls in flight there are never more than m
    probes at once exactly if n <= m. In particular "one probe" takes callers that make one call at a time.
  */
  lemma ProbeLimitIff(c: Config, n: nat, m: nat)
    requires ValidConfig(c)
    ensures ProbesLimited(c, n, m) <==> n <= m
  {
    if n <= m {
      forall ws: seq<World>, es: seq<Event>, j: nat | IsRun(c, ws, es) && AtMostInFlight(ws, n) && j <= |es|
        ensures ProbesInFlight(ws, es, j) <= m
      {
        ProbesAreInFlight(c, ws, es, j);
      }
    } else {
      var ws, es := ProbeRun(c, n);
      assert ProbesInFlight(ws, es, |es|) > m;
    }
  }

  /** k calls, one at a time, all failing. */
  lemma {:induction false} SerialFailures(c: Config, k: nat) returns (ws: seq<World>, es: seq<Event>)
    requires ValidConfig(c) && k <= c.failureThreshold
    ensures IsRun(c, ws, es) && AtMostInFlight(ws, 1)
    ensures var b := if k < c.failureThreshold then Breaker(Closed, k, None) else Breaker(Open, k, Some(0));
            ws[|es|] == World(b, 0, 0)
  {
    if k == 0 {
      ws, es := [World(FRESH, 0, 0)], [];
    } else {
      var vs, ds := SerialFailures(c, k - 1);
      var w := Next(c, vs[|ds|], Call);
      ws, es := vs + [w, Next(c, w, Fail)], ds + [Call, Fail];
    }
  }

  /** The breaker opens after failing calls made one at a time; after the cool-down n calls are made at once. */
  lemma {:induction false} ProbeRun(c: Config, n: nat) returns (ws: seq<World>, es: seq<Event>)
    requires ValidConfig(c)
    ensures IsRun(c, ws, es) && AtMostInFlight(ws, if n == 0 then 1 else n) && ProbesInFlight(ws, es, |es|) == n
    ensures var state := if n == 0 then Open else HalfOpen;
            ws[|es|] == World(Breaker(state, c.failureThreshold, Some(0)), c.resetTimeoutMs, n)
  {
    if n == 0 {
      var vs, ds := SerialFailures(c, c.failureThreshold);
      ws, es := vs + [Next(c, vs[|ds|], Tick(c.resetTimeoutMs))], ds + [Tick(c.resetTimeoutMs)];
    } else {
      var vs, ds := ProbeRun(c, n - 1);
      ws, es := vs + [Next(c, vs[|ds|], Call)], ds + [Call];
      SamePrefix(vs, ds, ws, es, |ds|);
    }
  }

  lemma {:induction false} SamePrefix(vs: seq<World>, ds: seq<Event>, ws: seq<World>, es: seq<Event>, j: nat)
    requires j <= |ds| < |vs| && j <= |es| < |ws|
    requires (forall m | 0 <= m <= j :: vs[m] == ws[m]) && forall m | 0 <= m < j :: ds[m] == es[m]
    ensures ProbesInFlight(ws, es, j) == ProbesInFlight(vs, ds, j)
  {
    if j > 0 {
      SamePrefix(vs, ds, ws, es, j - 1);
    }
  }

  // ---------------------------------------------------------------------------------------------
  // The wrapper's counter
  // ---------------------------------------------------------------------------------------------

  datatype WrapperCall<T> = WrapperCall(fallback: T, task: Task<T>, start: int, finish: int)

  function AsSerial<T>(calls: seq<WrapperCall<T>>): (r: seq<SerialCall>)
    ensures |r| == |calls|
  {
    seq(|calls|, i requires 0 <= i < |calls| => SerialCall(calls[i].start, calls[i].finish, calls[i].task.Returns?))
  }

  /** How many of the calls the wrapper counts as short-circuited. */
  function ShortCircuits<T>(c: Config, calls: seq<WrapperCall<T>>): nat {
    if calls == [] then 0
    else
      var before, last := calls[..|calls| - 1], calls[|calls| - 1];
      ShortCircuits(c, before) +
      (if CountedShort(last.task, Admits(c, SerialState(c, AsSerial(before)), last.start)) then 1 else 0)
  }

  function Rethrown<T>(c: Config, calls: seq<WrapperCall<T>>): nat {
    if calls == [] then 0
    else
      var before, last := calls[..|calls| - 1], calls[|calls| - 1];
      Rethrown(c, before) +
      (if WrapperReply(last.fallback, last.task, Admits(c, SerialState(c, AsSerial(before)), last.start)).TaskError?
          then 1 else 0)
  }

  function Successes(history: seq<bool>): nat {
    if history == [] then 0
    else Successes(history[..|history| - 1]) + (if history[|history| - 1] then 1 else 0)
  }

  /** Every serial call is a task that succeeded, an error passed on, or one counted short circuit. */
  lemma {:induction false} SerialAccounting<T>(c: Config, calls: seq<WrapperCall<T>>)
    requires ValidConfig(c)
    ensures |calls| == Successes(Executed(c, AsSerial(calls))) + Rethrown(c, calls) + ShortCircuits(c, calls)
  {
    if calls != [] {
      var before := calls[..|calls| - 1];
      SerialAccounting(c, before);
      var s := AsSerial(calls);
      assert s[..|s| - 1] == AsSerial(before);
      var h, h' := Executed(c, AsSerial(before)), Executed(c, s);
      assert h' != h ==> h'[..|h'| - 1] == h;
    }
  }

  /** The wrapper between two steps of overlapping calls. */
  datatype Wrapper = Wrapper(inner: World, shortCircuitedCount: nat)

  /** A step, and for a failing task whether its error is the open error of another breaker. */
  datatype WrapperEvent = WrapperEvent(step: Event, nested: bool)

  function NextWrapper(c: Config, w: Wrapper, e: WrapperEvent): Wrapper
    requires Enabled(w.inner, e.step)
  {
    var turnedAway := e.step == Call && !Admits(c, w.inner.b, w.inner.now);
    Wrapper(Next(c, w.inner, e.step),
            w.shortCircuitedCount + if turnedAway || (e.step == Fail && e.nested) then 1 else 0)
  }

  ghost predicate IsWrapperRun(c: Config, ws: seq<Wrapper>, es: seq<WrapperEvent>) {
    && |ws| == |es| + 1 && ws[0].inner.b == FRESH && ws[0].inner.inFlight == ws[0].shortCircuitedCount == 0
    && forall i | 0 <= i < |es| :: Enabled(ws[i].inner, es[i].step) && ws[i + 1] == NextWrapper(c, ws[i], es[i])
  }

  /** How many of the first n steps are `step`; for a failure, with an error that the caller gets. */
  function Occurrences(es: seq<WrapperEvent>, step: Event, n: nat): nat
    requires n <= |es|
  {
    if n == 0 then 0
    else Occurrences(es, step, n - 1) + if es[n - 1].step == step && !(step == Fail && es[n - 1].nested) then 1 else 0
  }

  /**
    Of the calls made so far, however they overlap, each has succeeded, thrown its task's error, been
    counted as short-circuited, or is in flight.
  */
  lemma {:induction false} WrapperAccounting(c: Config, ws: seq<Wrapper>, es: seq<WrapperEvent>, n: nat)
    requires IsWrapperRun(c, ws, es) && n <= |es|
    ensures Occurrences(es, Call, n) ==
            Occurrences(es, Succeed, n) + Occurrences(es, Fail, n) + ws[n].shortCircuitedCount + ws[n].inner.inFlight
  {
    if n > 0 {
      WrapperAccounting(c, ws, es, n - 1);
      assert ws[n] == NextWrapper(c, ws[n - 1], es[n - 1]);
    }
  }
}
