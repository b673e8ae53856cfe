/**
  How the Redis service reads the reply of ZRANGEBYSCORE ... WITHSCORES, a flat list of members and
  scores (src/core/redis/redis.service.ts, zrangeByScore).
*/
module RangeReplies {
  import opened Prelude

  datatype Scored = Scored(member: string, score: int)

  /** Number(s) || 0, for integers in decimal. */
  function ToScore(s: string): int {
    if s != "" && s[0] == '-' && AllDigits(s[1..]) then -(Num(s[1..]) as int)
    else if AllDigits(s) then Num(s)
    else 0
  }

  /** The reply Redis sends for a range. */
  function Flat(range: seq<Scored>): seq<string> {
    if range == [] then [] else [range[0].member, Signed(range[0].score)] + Flat(range[1..])
  }

  /** The pairs of a flat list; an odd last entry is dropped. */
  function Paired(raw: seq<string>): seq<Scored> {
    if |raw| < 2 then [] else [Scored(raw[0], ToScore(raw[1]))] + Paired(raw[2..])
  }

  /** A score that is no number counts as 0. */
  lemma NoNumberIsZero(s: string, i: nat)
    requires 0 < i < |s| && !IsDigit(s[i])
    ensures ToScore(s) == 0
  {
    assert s[1..][i - 1] == s[i];
  }

  lemma {:induction false} ScoreRoundTrip(n: int)
    ensures ToScore(Signed(n)) == n
  {
    var s := Signed(n);
    if n < 0 {
      assert s[1..] == Decimal(-n);
      NumOfDecimal(-n);
    } else {
      NumOfDecimal(n);
      assert IsDigit(s[0]);
    }
  }

  /** Reading a complete reply gives the range back, and a cut-off reply loses only the cut member. */
  lemma {:induction false} ReplyRoundTrip(range: seq<Scored>, cut: seq<string>)
    requires |cut| <= 1
    ensures Paired(Flat(range) + cut) == range
  {
    var raw := Flat(range) + cut;
    if range == [] {
      assert raw == cut;
    } else {
      var first := [range[0].member, Signed(range[0].score)];
      ReplyRoundTrip(range[1..], cut);
      ScoreRoundTrip(range[0].score);
      assert raw == first + (Flat(range[1..]) + cut);
      assert raw[2..] == Flat(range[1..]) + cut;
      assert range == [range[0]] + range[1..];
    }
  }

  /** A reply without scores: every member has score 0. */
  function Unscored(raw: seq<string>): (r: seq<Scored>)
    ensures |r| == |raw| && forall i | 0 <= i < |raw| :: r[i] == Scored(raw[i], 0)
  {
    seq(|raw|, i requires 0 <= i < |raw| => Scored(raw[i], 0))
  }

  /**
    The limit is checked before Redis is asked. `reply` is what the circuit breaker hands on: the flat
    list, nothing if the circuit is open, or an error.
  */
  method ZRangeByScore(limit: int, withScores: bool, reply: Result<Option<seq<string>>>)
      returns (r: Result<seq<Scored>>)
    ensures limit <= 0 ==> r == Err("limit must be a positive integer")
    ensures limit > 0 && reply.Err? ==> r == Err(reply.error)
    ensures limit > 0 && reply == Ok(None) ==> r == Ok([])
    ensures limit > 0 && reply.Ok? && reply.value.Some? ==>
              r == Ok(if withScores then Paired(reply.value.value) else Unscored(reply.value.value))
  {
    if limit <= 0 {
      return Err("limit must be a positive integer");
    }
    if reply.Err? {
      return Err(reply.error);
    }
    if reply.value == None {
      return Ok([]);
    }
    var raw := reply.value.value;
    if !withScores {
      return Ok(Unscored(raw));
    }
    var out: seq<Scored> := [];
    var i := 0;
    while i + 1 < |raw|
      invariant i <= |raw| && out + Paired(raw[i..]) == Paired(raw)
    {
      assert raw[i..][2..] == raw[i + 2..];
      var pair := Scored(raw[i], ToScore(raw[i + 1]));
      assert out + ([pair] + Paired(raw[i + 2..])) == (out + [pair]) + Paired(raw[i + 2..]);
      out := out + [pair];
      i := i + 2;
    }
    assert Paired(raw[i..]) == [] && out + [] == out;
    return Ok(out);
  }
}
