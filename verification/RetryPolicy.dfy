/** Backoff delays and what a failed message does next: retryPolicy.ts. */
module RetryPolicy {
  import opened Common
  import opened Text

  const MAX_RETRY_DELAY_MS: nat := 300_000

  datatype Decision =
    | Park(exhausted: bool)
    | Retry(nextRetryCount: nat, delayMs: nat)

  function RetryDelayMs(retryCount: nat, baseDelayMs: nat): nat {
    Min(baseDelayMs * Pow2(retryCount), MAX_RETRY_DELAY_MS)
  }

  function DecideOnFailure(terminal: bool, retryCount: nat, maxRetries: nat, baseDelayMs: nat): Decision {
    if terminal then Park(false)
    else if retryCount >= maxRetries then Park(true)
    else Retry(retryCount + 1, RetryDelayMs(retryCount, baseDelayMs))
  }

  function AllDelays(maxRetries: nat, baseDelayMs: nat): seq<nat> {
    seq(maxRetries, i => if i >= 0 then RetryDelayMs(i, baseDelayMs) else 0)
  }

  /** The values of a JavaScript Set filled from a list: each once, in order of first appearance. */
  function Distinct(xs: seq<nat>): seq<nat> {
    if xs == [] then []
    else
      var front, last := xs[..|xs| - 1], xs[|xs| - 1];
      if last in front then Distinct(front) else Distinct(front) + [last]
  }

  function RetryDelaysMs(maxRetries: nat, baseDelayMs: nat): seq<nat> {
    Distinct(AllDelays(maxRetries, baseDelayMs))
  }

  lemma DistinctKeepsMembers(xs: seq<nat>)
    ensures forall x :: x in Distinct(xs) <==> x in xs
  {
    if xs != [] {
      var front, last := xs[..|xs| - 1], xs[|xs| - 1];
      DistinctKeepsMembers(front);
      assert xs == front + [last];
    }
  }

  lemma Pow2Monotone(i: nat, j: nat)
    requires i <= j
    ensures Pow2(i) <= Pow2(j)
  {
    if i < j {
      Pow2Monotone(i, j - 1);
    }
  }

  lemma DelayMonotone(i: nat, j: nat, baseDelayMs: nat)
    requires i <= j
    ensures RetryDelayMs(i, baseDelayMs) <= RetryDelayMs(j, baseDelayMs)
  {
    Pow2Monotone(i, j);
    assert baseDelayMs * Pow2(i) <= baseDelayMs * Pow2(j);
  }

  lemma DistinctOfAscending(xs: seq<nat>)
    requires forall i, j :: 0 <= i < j < |xs| ==> xs[i] <= xs[j]
    ensures forall i, j :: 0 <= i < j < |Distinct(xs)| ==> Distinct(xs)[i] < Distinct(xs)[j]
  {
    if xs != [] {
      var front := xs[..|xs| - 1];
      DistinctOfAscending(front);
      DistinctKeepsMembers(front);
      forall i | 0 <= i < |Distinct(front)|
        ensures Distinct(front)[i] <= xs[|xs| - 1]
      {
        var x := Distinct(front)[i];
        assert x in front;
      }
      forall i | 0 <= i < |Distinct(front)| && xs[|xs| - 1] !in front
        ensures Distinct(front)[i] < xs[|xs| - 1]
      {
        assert Distinct(front)[i] in front;
      }
    }
  }

  lemma RetryDelaysStrictlyIncrease(maxRetries: nat, baseDelayMs: nat)
    ensures var ds := RetryDelaysMs(maxRetries, baseDelayMs);
            forall i, j :: 0 <= i < j < |ds| ==> ds[i] < ds[j]
  {
    var xs := AllDelays(maxRetries, baseDelayMs);
    forall i, j | 0 <= i < j < |xs|
      ensures xs[i] <= xs[j]
    {
      DelayMonotone(i, j, baseDelayMs);
    }
    DistinctOfAscending(xs);
  }

  /** The delay doubles from the base until the cap, and is the cap from there on. */
  lemma DelayDoubles(retryCount: nat, baseDelayMs: nat)
    ensures RetryDelayMs(0, baseDelayMs) == if baseDelayMs <= 300_000 then baseDelayMs else 300_000
    ensures var d := RetryDelayMs(retryCount, baseDelayMs);
            RetryDelayMs(retryCount + 1, baseDelayMs) == if 2 * d <= 300_000 then 2 * d else 300_000
  {
    assert baseDelayMs * Pow2(retryCount + 1) == 2 * (baseDelayMs * Pow2(retryCount));
    assert baseDelayMs * Pow2(0) == baseDelayMs;
  }

  /** A failure is parked when it is terminal or has no try left, else it waits its delay for one more. */
  lemma DecidesExactly(terminal: bool, retryCount: nat, maxRetries: nat, baseDelayMs: nat)
    ensures var decision := DecideOnFailure(terminal, retryCount, maxRetries, baseDelayMs);
            && (decision.Park? <==> terminal || maxRetries <= retryCount)
            && (decision.Park? ==> (decision.exhausted <==> !terminal))
            && (decision.Retry? ==> decision.nextRetryCount == retryCount + 1 && decision.delayMs == RetryDelayMs(retryCount, baseDelayMs))
  {
  }

  /** A delay the consumer schedules for some failure under these settings. */
  ghost predicate Schedulable(d: nat, maxRetries: nat, baseDelayMs: nat) {
    exists terminal: bool, rc: nat, next: nat ::
      DecideOnFailure(terminal, rc, maxRetries, baseDelayMs) == Retry(next, d)
  }

  lemma RetryDelaysAreTheSchedulableOnes(maxRetries: nat, baseDelayMs: nat, d: nat)
    ensures d in RetryDelaysMs(maxRetries, baseDelayMs) <==> Schedulable(d, maxRetries, baseDelayMs)
  {
    var xs := AllDelays(maxRetries, baseDelayMs);
    DistinctKeepsMembers(xs);
    if d in xs {
      var i :| 0 <= i < |xs| && xs[i] == d;
      assert DecideOnFailure(false, i, maxRetries, baseDelayMs) == Retry(i + 1, d);
    }
    if Schedulable(d, maxRetries, baseDelayMs) {
      var terminal: bool, rc: nat, next: nat :|
        DecideOnFailure(terminal, rc, maxRetries, baseDelayMs) == Retry(next, d);
      assert xs[rc] == d;
    }
  }

  lemma DoublingStep(base: nat, p: nat)
    ensures base * (2 * p - 1) == base * (p - 1) + base * p
  {
  }

  /** The longest a message that keeps failing can wait in all. */
  lemma {:induction false} SummedBackoff(maxRetries: nat, baseDelayMs: nat)
    ensures Sum(AllDelays(maxRetries, baseDelayMs))
         <= Min(maxRetries * MAX_RETRY_DELAY_MS, baseDelayMs * (Pow2(maxRetries) - 1))
  {
    if maxRetries > 0 {
      var n := maxRetries - 1;
      SummedBackoff(n, baseDelayMs);
      SumAppend(AllDelays(n, baseDelayMs), RetryDelayMs(n, baseDelayMs));
      assert AllDelays(maxRetries, baseDelayMs) == AllDelays(n, baseDelayMs) + [RetryDelayMs(n, baseDelayMs)];
      DoublingStep(baseDelayMs, Pow2(n));
    }
  }

  // ---- Reading the retry header: parseInt(String(header ?? "0"), 10).

  function DigitPrefix(s: string): (p: string)
    ensures AllDigits(p, 10)
  {
    if s != "" && IsDigit(s[0], 10) then [s[0]] + DigitPrefix(s[1..]) else ""
  }

  /** parseInt in base ten; None is NaN. */
  function ParseInt(s: string): Option<int> {
    var t := TrimStart(s);
    var negative := t != "" && t[0] == '-';
    var digits := DigitPrefix(if t != "" && t[0] in {'+', '-'} then t[1..] else t);
    if digits == "" then None
    else
      var magnitude: int := ParseNumeral(digits, 10);
      Some(if negative then -magnitude else magnitude)
  }

  /** `header` is the header's text, None when it is absent. */
  function ReadRetryCount(header: Option<string>): nat {
    match ParseInt(if header.Some? then header.value else "0")
    case None => 0
    case Some(n) => if n < 0 then 0 else n
  }

  lemma {:induction false} DigitPrefixOfDigits(s: string)
    requires AllDigits(s, 10)
    ensures DigitPrefix(s) == s
  {
    if s != "" {
      DigitPrefixOfDigits(s[1..]);
      assert s == [s[0]] + s[1..];
    }
  }

  /** The count a republish writes is the count the next delivery reads. */
  lemma ReadBackRetryCount(n: nat)
    ensures ReadRetryCount(Some(Decimal(n))) == n
  {
    var s := Decimal(n);
    assert IsDigit(s[0], 10);
    DigitPrefixOfDigits(s);
    ParseOfNumeral(n, 10);
  }

  lemma {:induction false} DigitPrefixStops(digits: string, rest: string)
    requires AllDigits(digits, 10) && (rest == "" || !IsDigit(rest[0], 10))
    ensures DigitPrefix(digits + rest) == digits
  {
    if digits == "" {
      assert digits + rest == rest;
    } else {
      DigitPrefixStops(digits[1..], rest);
      assert (digits + rest)[1..] == digits[1..] + rest;
    }
  }

  lemma {:induction false} BlanksStripped(blanks: string, rest: string)
    requires (forall i :: 0 <= i < |blanks| ==> White(blanks[i])) && (rest == "" || !White(rest[0]))
    ensures TrimStart(blanks + rest) == rest
  {
    if blanks == "" {
      assert blanks + rest == rest;
    } else {
      BlanksStripped(blanks[1..], rest);
      assert (blanks + rest)[1..] == blanks[1..] + rest;
    }
  }

  /**
   * What a header counts: after blanks, the digits it begins with; a first attempt without a header, without
   * such digits, or behind a minus.
   */
  lemma HeaderCounts(blanks: string, sign: string, digits: string, rest: string)
    requires (forall i :: 0 <= i < |blanks| ==> White(blanks[i])) && sign in {"", "+", "-"}
    requires AllDigits(digits, 10) && (rest == "" || !IsDigit(rest[0], 10))
    requires sign == "" && digits == "" && rest != "" ==> !White(rest[0]) && rest[0] != '+' && rest[0] != '-'
    ensures ReadRetryCount(Some(blanks + (sign + (digits + rest)))) == if sign == "-" || digits == "" then 0 else ParseNumeral(digits, 10)
    ensures ReadRetryCount(None) == 0
  {
    var body := sign + (digits + rest);
    SignOrDigitFirst(sign, digits, rest);
    BlanksStripped(blanks, body);
    DigitPrefixStops(digits, rest);
    assert sign != "" ==> body[1..] == digits + rest;
    assert sign == "" ==> body == digits + rest;
    DigitPrefixStops("0", "");
    assert "0" + "" == "0" && "0"[..0] == "";
    assert TrimStart("0") == "0" && ParseNumeral("0", 10) == 0;
  }

  lemma SignOrDigitFirst(sign: string, digits: string, rest: string)
    requires sign in {"", "+", "-"} && AllDigits(digits, 10)
    requires sign == "" && digits == "" && rest != "" ==> !White(rest[0]) && rest[0] != '+' && rest[0] != '-'
    ensures var body := sign + (digits + rest);
            && (body == "" || !White(body[0]))
            && (sign == "" && body != "" ==> body[0] != '+' && body[0] != '-')
  {
    assert !White('+') && !White('-');
    if sign == "" && digits != "" {
      assert (sign + (digits + rest))[0] == digits[0] && IsDigit(digits[0], 10);
    }
  }
}
