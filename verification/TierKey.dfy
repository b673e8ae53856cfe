/**
  The text of a payload key (src/common/events/retry-queue.ts, tierKey), and when it says no less than
  the (attempt, millisecond) pair that `RetryQueues` uses as the key.
*/
module TierKeys {
  import opened Prelude
  import RetryQueues

  function TierKeyText(prefix: string, separator: string, attempt: nat, nextRetryAt: nat): string {
    prefix + ":tier-" + (Decimal(attempt) + (separator + Decimal(nextRetryAt)))
  }

  const DEFAULT_SEPARATOR := "::"

  /** Attempt 2 due at millisecond 17, for one. */
  lemma KeyTextReads(prefix: string)
    ensures TierKeyText(prefix, DEFAULT_SEPARATOR, 2, 17) == prefix + ":tier-2::17"
  {
    assert Digit(2) == '2' && Digit(1) == '1' && Digit(7) == '7';
    assert Decimal(2) == "2" && Decimal(17) == "17";
    assert "2" + ("::" + "17") == "2::17";
    assert ":tier-" + "2::17" == ":tier-2::17";
  }

  /** Different pairs have different key texts. */
  ghost predicate SeparatesKeys(prefix: string, separator: string) {
    forall a: nat, t: nat, a': nat, t': nat ::
      TierKeyText(prefix, separator, a, t) == TierKeyText(prefix, separator, a', t') ==> a == a' && t == t'
  }

  function LeadingDigits(s: string): nat {
    if s != "" && IsDigit(s[0]) then 1 + LeadingDigits(s[1..]) else 0
  }

  lemma {:induction false} LeadingDigitsOfSum(a: string, b: string)
    requires AllDigits(a)
    ensures LeadingDigits(a + b) == |a| + LeadingDigits(b)
  {
    if a == "" {
      assert a + b == b;
    } else {
      LeadingDigitsOfSum(a[1..], b);
      assert (a + b)[1..] == a[1..] + b;
    }
  }

  /** What follows the first non-digit does not count. */
  lemma {:induction false} LeadingDigitsStop(a: string, b: string)
    requires !AllDigits(a)
    ensures LeadingDigits(a + b) == LeadingDigits(a)
  {
    assert (a + b)[0] == a[0];
    if IsDigit(a[0]) {
      assert !AllDigits(a[1..]) by {
        var i :| 0 <= i < |a| && !IsDigit(a[i]);
        assert a[1..][i - 1] == a[i];
      }
      LeadingDigitsStop(a[1..], b);
      assert (a + b)[1..] == a[1..] + b;
    }
  }

  lemma DecimalInjective(m: nat, n: nat)
    requires Decimal(m) == Decimal(n)
    ensures m == n
  {
    NumOfDecimal(m);
    NumOfDecimal(n);
  }

  lemma SamePair(prefix: string, separator: string, a: nat, t: nat, a': nat, t': nat)
    requires !AllDigits(separator)
    requires TierKeyText(prefix, separator, a, t) == TierKeyText(prefix, separator, a', t')
    ensures a == a' && t == t'
  {
    var head := prefix + ":tier-";
    var x, x' := Decimal(a) + (separator + Decimal(t)), Decimal(a') + (separator + Decimal(t'));
    assert x == x' by {
      assert (head + x)[|head|..] == x && (head + x')[|head|..] == x';
    }
    LeadingDigitsOfSum(Decimal(a), separator + Decimal(t));
    LeadingDigitsOfSum(Decimal(a'), separator + Decimal(t'));
    LeadingDigitsStop(separator, Decimal(t));
    LeadingDigitsStop(separator, Decimal(t'));
    var n := |Decimal(a)|;
    assert n == |Decimal(a')|;
    assert x[..n] == Decimal(a) && x'[..n] == Decimal(a');
    assert x[n + |separator|..] == Decimal(t) && x'[n + |separator|..] == Decimal(t');
    DecimalInjective(a, a');
    DecimalInjective(t, t');
  }

  lemma {:induction false} DecimalOfNum(s: string)
    requires AllDigits(s) && s != "" && s[0] != '0'
    ensures Num(s) > 0 && Decimal(Num(s)) == s
  {
    var n := |s| - 1;
    assert s == s[..n] + [s[n]];
    if n > 0 {
      DecimalOfNum(s[..n]);
      assert Num(s) / 10 == Num(s[..n]) && Digit(Num(s) % 10) == s[n];
    } else {
      assert Num(s[..0]) == 0;
      assert Digit(Num(s)) == s[0];
    }
  }

  /** With digits only between them, two numbers can be read in two ways. */
  lemma DigitsDoNotSeparate(prefix: string, separator: string)
    requires AllDigits(separator)
    ensures !SeparatesKeys(prefix, separator)
  {
    var long := "1" + separator + "1";
    DecimalOfNum(long);
    var n := Num(long);
    assert Digit(1) == '1' && Decimal(1) == "1";
    assert "1" + (separator + long) == long + (separator + "1");
    assert TierKeyText(prefix, separator, 1, n) == TierKeyText(prefix, separator, n, 1);
    assert n != 1 by {
      assert |Decimal(n)| >= 2;
    }
  }

  /** The key text identifies the pair exactly if the separator contains something that is not a digit. */
  lemma SeparatesIff(prefix: string, separator: string)
    ensures SeparatesKeys(prefix, separator) <==> !AllDigits(separator)
  {
    if AllDigits(separator) {
      DigitsDoNotSeparate(prefix, separator);
    } else {
      forall a: nat, t: nat, a': nat, t': nat |
          TierKeyText(prefix, separator, a, t) == TierKeyText(prefix, separator, a', t')
        ensures a == a' && t == t'
      {
        SamePair(prefix, separator, a, t, a', t');
      }
    }
  }

  /** So with the default separator two items share a key text exactly if they share attempt and millisecond. */
  lemma KeyTextIsTheKey(prefix: string, x: RetryQueues.Item, y: RetryQueues.Item)
    requires x.nextRetryAt >= 0 && y.nextRetryAt >= 0
    ensures TierKeyText(prefix, DEFAULT_SEPARATOR, x.id.attempt, x.nextRetryAt) ==
            TierKeyText(prefix, DEFAULT_SEPARATOR, y.id.attempt, y.nextRetryAt)
            <==> RetryQueues.TierKey(x) == RetryQueues.TierKey(y)
  {
    assert !IsDigit(DEFAULT_SEPARATOR[0]);
    SeparatesIff(prefix, DEFAULT_SEPARATOR);
  }
}
