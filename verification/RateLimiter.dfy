/**
  The in-process fixed-window limiter of the GraphQL endpoint
  (src/core/graphql/graphql-rate-limit.plugin.ts).
*/
module RateLimiters {
  import opened Prelude

  datatype Window = Window(count: nat, resetAt: int)

  datatype Options = Options(limit: int, ttlMs: int)

  type Windows = map<string, Window>

  datatype Request = Request(key: string, timestamp: int)

  predicate StartsWindow(ws: Windows, r: Request) {
    r.key !in ws || ws[r.key].resetAt <= r.timestamp
  }

  /** Whether the operation is let through; otherwise it is answered with status 429. */
  predicate Admitted(o: Options, ws: Windows, r: Request) {
    StartsWindow(ws, r) || ws[r.key].count < o.limit
  }

  function After(o: Options, ws: Windows, r: Request): Windows {
    if StartsWindow(ws, r) then ws[r.key := Window(1, r.timestamp + o.ttlMs)]
    else if ws[r.key].count < o.limit then ws[r.key := Window(ws[r.key].count + 1, ws[r.key].resetAt)]
    else ws
  }

  class RateLimiter {
    const options: Options
    var windows: Windows

    constructor (options: Options)
      ensures this.options == options && windows == map[]
    {
      this.options := options;
      windows := map[];
    }

    method DidResolveOperation(key: string, timestamp: int) returns (admitted: bool)
      modifies this
      ensures admitted == Admitted(options, old(windows), Request(key, timestamp))
      ensures windows == After(options, old(windows), Request(key, timestamp))
    {
      var existing := if key in windows then Some(windows[key]) else None;
      if existing == None || existing.value.resetAt <= timestamp {
        windows := windows[key := Window(1, timestamp + options.ttlMs)];
        return true;
      }
      if existing.value.count >= options.limit {
        return false;
      }
      windows := windows[key := Window(existing.value.count + 1, existing.value.resetAt)];
      admitted := true;
    }
  }

  // ---------------------------------------------------------------------------------------------
  // Traffic histories
  // ---------------------------------------------------------------------------------------------

  function State(o: Options, rs: seq<Request>): Windows {
    if rs == [] then map[] else After(o, State(o, rs[..|rs| - 1]), rs[|rs| - 1])
  }

  /** How many operations of `key` with a timestamp in [lo, hi) were let through. */
  function Count(o: Options, rs: seq<Request>, key: string, lo: int, hi: int): nat {
    if rs == [] then 0
    else
      var before, last := rs[..|rs| - 1], rs[|rs| - 1];
      Count(o, before, key, lo, hi) +
      (if last.key == key && lo <= last.timestamp < hi && Admitted(o, State(o, before), last) then 1 else 0)
  }

  predicate Monotone(rs: seq<Request>) {
    forall i, j | 0 <= i < j < |rs| :: rs[i].timestamp <= rs[j].timestamp
  }

  /** The effective capacity of one window: its first operation is never counted against the limit. */
  function Capacity(o: Options): nat {
    if o.limit < 1 then 1 else o.limit
  }

  /** Nothing has been let through for a key before its first window. */
  lemma {:induction false} CountBeforeFirstWindow(o: Options, rs: seq<Request>, key: string, lo: int, hi: int)
    requires key !in State(o, rs)
    ensures Count(o, rs, key, lo, hi) == 0
  {
    if rs != [] {
      CountBeforeFirstWindow(o, rs[..|rs| - 1], key, lo, hi);
    }
  }

  /** Splitting an interval splits its count. */
  lemma {:induction false} CountSplit(o: Options, rs: seq<Request>, key: string, lo: int, mid: int, hi: int)
    requires lo <= mid <= hi
    ensures Count(o, rs, key, lo, hi) == Count(o, rs, key, lo, mid) + Count(o, rs, key, mid, hi)
  {
    if rs != [] {
      CountSplit(o, rs[..|rs| - 1], key, lo, mid, hi);
    }
  }

  function Start(o: Options, w: Window): int {
    w.resetAt - o.ttlMs
  }

  /**
    The limiter's invariant for one key. The stored count is the number let through since the window
    began, at least one of them in its first millisecond; and less than one window's worth came in
    the ttl before that window, because the previous window's first operation is too old.
  */
  ghost predicate WindowInvariant(o: Options, rs: seq<Request>, key: string) {
    key in State(o, rs) ==>
      var w := State(o, rs)[key];
      && w.count <= Capacity(o)
      && (forall hi | hi >= w.resetAt :: Count(o, rs, key, Start(o, w), hi) == w.count)
      && Count(o, rs, key, Start(o, w), Start(o, w) + 1) >= 1
      && (forall lo | Start(o, w) - o.ttlMs < lo <= Start(o, w) :: Count(o, rs, key, lo, Start(o, w)) < Capacity(o))
  }

  lemma {:induction false} WindowInvariantHolds(o: Options, rs: seq<Request>, key: string)
    requires o.ttlMs > 0 && Monotone(rs)
    ensures WindowInvariant(o, rs, key)
    ensures key in State(o, rs) ==> Start(o, State(o, rs)[key]) <= rs[|rs| - 1].timestamp
  {
    if rs != [] {
      var before, last := rs[..|rs| - 1], rs[|rs| - 1];
      WindowInvariantHolds(o, before, key);
      if last.key == key && StartsWindow(State(o, before), last) {
        NewWindow(o, rs, key);
      } else if key in State(o, rs) {
        var start := Start(o, State(o, before)[key]);
        assert Start(o, State(o, rs)[key]) == start;
        assert Count(o, rs, key, start, start + 1) >= Count(o, before, key, start, start + 1) >= 1;
        forall lo | start - o.ttlMs < lo <= start
          ensures Count(o, rs, key, lo, start) < Capacity(o)
        {
          assert Count(o, before, key, lo, start) < Capacity(o);
        }
      }
    }
  }

  /** What a closed window leaves behind for the one that starts at `start`. */
  lemma ClosedWindow(o: Options, rs: seq<Request>, key: string, start: int, lo: int, hi: int)
    requires o.ttlMs > 0 && WindowInvariant(o, rs, key)
    requires key in State(o, rs) ==> State(o, rs)[key].resetAt <= start
    requires start - o.ttlMs < lo <= start <= hi
    ensures Count(o, rs, key, lo, start) < Capacity(o) && Count(o, rs, key, start, hi) == 0
  {
    if key in State(o, rs) {
      var w := State(o, rs)[key];
      CountSplit(o, rs, key, Start(o, w), start, hi);
      CountSplit(o, rs, key, Start(o, w), Start(o, w) + 1, start);
      CountSplit(o, rs, key, Start(o, w) + 1, lo, start);
    } else {
      CountBeforeFirstWindow(o, rs, key, lo, start);
      CountBeforeFirstWindow(o, rs, key, start, hi);
    }
  }

  lemma NewWindow(o: Options, rs: seq<Request>, key: string)
    requires o.ttlMs > 0 && rs != []
    requires WindowInvariant(o, rs[..|rs| - 1], key)
    requires rs[|rs| - 1].key == key && StartsWindow(State(o, rs[..|rs| - 1]), rs[|rs| - 1])
    ensures WindowInvariant(o, rs, key)
  {
    var before, start := rs[..|rs| - 1], rs[|rs| - 1].timestamp;
    forall lo | start - o.ttlMs < lo <= start
      ensures Count(o, rs, key, lo, start) < Capacity(o)
    {
      ClosedWindow(o, before, key, start, lo, start);
    }
    forall hi | hi > start
      ensures Count(o, rs, key, start, hi) == 1
    {
      ClosedWindow(o, before, key, start, start, hi);
    }
    assert Count(o, rs, key, start, start + 1) == 1;
  }

  /** Over time a key keeps its window or goes on to one that starts after it. */
  lemma {:induction false} WindowsFollow(o: Options, rs: seq<Request>, key: string, k: nat)
    requires o.ttlMs > 0 && k <= |rs| && key in State(o, rs[..k])
    ensures key in State(o, rs)
    ensures var w, w' := State(o, rs[..k])[key], State(o, rs)[key];
            w'.resetAt == w.resetAt || Start(o, w') >= w.resetAt
    decreases |rs|
  {
    if k < |rs| {
      var n := |rs| - 1;
      assert rs[..n][..k] == rs[..k];
      WindowsFollow(o, rs[..n], key, k);
    } else {
      assert rs[..k] == rs;
    }
  }

  /** Every window a key ever had, the k-th request's and all others, lets through at most its capacity. */
  lemma {:induction false} WindowBound(o: Options, rs: seq<Request>, key: string, k: nat)
    requires o.ttlMs > 0 && Monotone(rs) && k <= |rs| && key in State(o, rs[..k])
    ensures var w := State(o, rs[..k])[key];
            Count(o, rs, key, w.resetAt - o.ttlMs, w.resetAt) <= Capacity(o)
    decreases |rs|
  {
    assert rs[..|rs|] == rs;
    WindowsFollow(o, rs, key, k);
    WindowInvariantHolds(o, rs, key);
    var w, w' := State(o, rs[..k])[key], State(o, rs)[key];
    if w'.resetAt == w.resetAt {
      assert Count(o, rs, key, Start(o, w'), w'.resetAt) == w'.count;
    } else {
      var n := |rs| - 1;
      assert rs[..n][..k] == rs[..k];
      WindowBound(o, rs[..n], key, k);
      assert rs[n].timestamp >= w.resetAt;
    }
  }

  /**
    A fixed window lets through almost two windows' worth around its edge and never more: every
    interval of length ttlMs holds at most 2 * max(1, limit) - 1 admitted operations of a key.
  */
  lemma {:induction false} IntervalBound(o: Options, rs: seq<Request>, key: string, lo: int)
    requires o.ttlMs > 0 && Monotone(rs)
    ensures Count(o, rs, key, lo, lo + o.ttlMs) <= 2 * Capacity(o) - 1
  {
    if rs != [] {
      var before, last := rs[..|rs| - 1], rs[|rs| - 1];
      IntervalBound(o, before, key, lo);
      if last.key == key && lo <= last.timestamp < lo + o.ttlMs && Admitted(o, State(o, before), last) {
        WindowInvariantHolds(o, rs, key);
        var w := State(o, rs)[key];
        var end := if w.resetAt >= lo + o.ttlMs then w.resetAt else lo + o.ttlMs;
        assert Count(o, rs, key, Start(o, w), end) == w.count;
        CountSplit(o, rs, key, lo, lo + o.ttlMs, end);
        if lo < Start(o, w) {
          CountSplit(o, rs, key, lo, Start(o, w), end);
        } else {
          CountSplit(o, rs, key, Start(o, w), lo, end);
        }
      }
    }
  }

  function Repeat(r: Request, n: nat): (rs: seq<Request>)
    ensures |rs| == n && forall i | 0 <= i < n :: rs[i] == r
  {
    seq(n, _ => r)
  }

  lemma OneMore(o: Options, rs: seq<Request>, r: Request, lo: int, hi: int)
    ensures State(o, rs + [r]) == After(o, State(o, rs), r)
    ensures Count(o, rs + [r], r.key, lo, hi) ==
            Count(o, rs, r.key, lo, hi) + (if lo <= r.timestamp < hi && Admitted(o, State(o, rs), r) then 1 else 0)
  {
    assert (rs + [r])[..|rs|] == rs;
  }

  lemma {:induction false} Burst(o: Options, rs: seq<Request>, r: Request, n: nat, lo: int, hi: int)
    requires r.key in State(o, rs) && r.timestamp < State(o, rs)[r.key].resetAt
    requires State(o, rs)[r.key].count + n <= o.limit || n == 0
    requires lo <= r.timestamp < hi
    ensures r.key in State(o, rs + Repeat(r, n))
    ensures State(o, rs + Repeat(r, n))[r.key] ==
            Window(State(o, rs)[r.key].count + n, State(o, rs)[r.key].resetAt)
    ensures Count(o, rs + Repeat(r, n), r.key, lo, hi) == Count(o, rs, r.key, lo, hi) + n
  {
    if n == 0 {
      assert rs + Repeat(r, n) == rs;
    } else {
      Burst(o, rs, r, n - 1, lo, hi);
      OneMore(o, rs + Repeat(r, n - 1), r, lo, hi);
      assert rs + Repeat(r, n) == rs + Repeat(r, n - 1) + [r];
    }
  }

  /** One request at 0, and the rest of its window's capacity in the window's last millisecond. */
  lemma FullWindow(o: Options) returns (rs: seq<Request>)
    requires o.ttlMs > 1
    ensures rs == [Request("k", 0)] + Repeat(Request("k", o.ttlMs - 1), Capacity(o) - 1)
    ensures "k" in State(o, rs) && State(o, rs)["k"] == Window(Capacity(o), o.ttlMs)
    ensures Count(o, rs, "k", 1, 1 + o.ttlMs) == Capacity(o) - 1
  {
    var one := [Request("k", 0)];
    assert one[..0] == [] && State(o, one)["k"] == Window(1, o.ttlMs);
    Burst(o, one, Request("k", o.ttlMs - 1), Capacity(o) - 1, 1, 1 + o.ttlMs);
    rs := one + Repeat(Request("k", o.ttlMs - 1), Capacity(o) - 1);
  }

  /** The bound is reached: the tail of one window and the whole of the next fit into one interval. */
  lemma IntervalBoundIsTight(o: Options) returns (rs: seq<Request>, lo: int)
    requires o.ttlMs > 1
    ensures Monotone(rs) && Count(o, rs, "k", lo, lo + o.ttlMs) == 2 * Capacity(o) - 1
  {
    lo := 1;
    var n, hi := Capacity(o) - 1, 1 + o.ttlMs;
    var next := Request("k", o.ttlMs);
    var two := FullWindow(o);
    var three := two + [next];
    assert three[..|three| - 1] == two;
    Burst(o, three, next, n, lo, hi);
    rs := three + Repeat(next, n);
  }

  /** The requests of one key. */
  function Only(rs: seq<Request>, key: string): seq<Request> {
    if rs == [] then []
    else Only(rs[..|rs| - 1], key) + (if rs[|rs| - 1].key == key then [rs[|rs| - 1]] else [])
  }

  /** Other keys' traffic never changes a decision. */
  lemma {:induction false} KeysAreIndependent(o: Options, rs: seq<Request>, r: Request)
    ensures Admitted(o, State(o, rs), r) == Admitted(o, State(o, Only(rs, r.key)), r)
    ensures r.key in State(o, rs) <==> r.key in State(o, Only(rs, r.key))
    ensures r.key in State(o, rs) ==> State(o, rs)[r.key] == State(o, Only(rs, r.key))[r.key]
  {
    if rs != [] {
      var before, last := rs[..|rs| - 1], rs[|rs| - 1];
      KeysAreIndependent(o, before, r);
      if last.key == r.key {
        assert Only(rs, r.key)[..|Only(rs, r.key)| - 1] == Only(before, r.key);
      } else {
        assert Only(rs, r.key) == Only(before, r.key);
      }
    }
  }
}
