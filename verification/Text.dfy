/** Numerals, and joining and splitting on a separator. */
module Text {
  import opened Common

  // ---- Numerals in a base from 2 to 16, lower case as Number.prototype.toString writes them.

  const DIGITS := "0123456789abcdef"

  function DigitChar(d: nat): char
    requires d < 16
  {
    DIGITS[d]
  }

  predicate IsDigit(c: char, base: nat)
  {
    DigitValue(c) < base
  }

  /** The value of a digit of either case, and 16 for any other character. */
  function DigitValue(c: char): nat {
    if '0' <= c <= '9' then (c - '0') as nat
    else if 'a' <= c <= 'f' then (c - 'a') as nat + 10
    else if 'A' <= c <= 'F' then (c - 'A') as nat + 10
    else 16
  }

  predicate AllDigits(s: string, base: nat) {
    forall i :: 0 <= i < |s| ==> IsDigit(s[i], base)
  }

  lemma DigitRange(c: char, d: nat)
    requires d < 16 && c == DigitChar(d)
    ensures DigitValue(c) == d && c in DIGITS
  {
  }

  lemma QuotientSmaller(n: nat, base: nat)
    requires 2 <= base <= n
    ensures 0 <= n / base < n && 0 <= n % base < base && n == n / base * base + n % base
  {
    assert n == base * (n / base) + n % base;
    var q := n / base;
    assert base * q >= 2 * q;
  }

  function Numeral(n: nat, base: nat): (s: string)
    requires 2 <= base <= 16
    ensures |s| > 0 && AllDigits(s, base)
    ensures forall i :: 0 <= i < |s| ==> s[i] in DIGITS
    decreases n
  {
    if n < base then
      DigitRange(DigitChar(n), n);
      [DigitChar(n)]
    else
      QuotientSmaller(n, base);
      DigitRange(DigitChar(n % base), n % base);
      Numeral(n / base, base) + [DigitChar(n % base)]
  }

  function ParseNumeral(s: string, base: nat): nat
    requires 2 <= base <= 16 && AllDigits(s, base)
  {
    if s == "" then 0
    else ParseNumeral(s[..|s| - 1], base) * base + DigitValue(s[|s| - 1])
  }

  lemma {:induction false} ParseOfNumeral(n: nat, base: nat)
    requires 2 <= base <= 16
    ensures ParseNumeral(Numeral(n, base), base) == n
    decreases n
  {
    var s := Numeral(n, base);
    if n < base {
      DigitRange(DigitChar(n), n);
      assert s[..0] == "";
    } else {
      QuotientSmaller(n, base);
      DigitRange(DigitChar(n % base), n % base);
      ParseOfNumeral(n / base, base);
      assert s[..|s| - 1] == Numeral(n / base, base);
    }
  }

  lemma NumeralInjective(m: nat, n: nat, base: nat)
    requires 2 <= base <= 16
    requires Numeral(m, base) == Numeral(n, base)
    ensures m == n
  {
    ParseOfNumeral(m, base);
    ParseOfNumeral(n, base);
  }

  function Decimal(n: nat): (s: string)
    ensures |s| > 0 && AllDigits(s, 10)
  {
    Numeral(n, 10)
  }

  predicate DecimalDigit(c: char) {
    '0' <= c <= '9'
  }

  predicate AllDecimal(s: string) {
    forall i :: 0 <= i < |s| ==> DecimalDigit(s[i])
  }

  lemma DecimalParses(s: string)
    requires AllDecimal(s)
    ensures AllDigits(s, 10)
  {
  }

  /** A whole number without a leading zero is what its value prints. */
  lemma {:induction false} DecimalOfParse(s: string)
    requires s != "" && s[0] != '0' && AllDecimal(s)
    ensures AllDigits(s, 10) && ParseNumeral(s, 10) > 0
    ensures Decimal(ParseNumeral(s, 10)) == s
  {
    var front, last := s[..|s| - 1], s[|s| - 1];
    assert s == front + [last];
    if front == "" {
      SingleDigit(last);
    } else {
      DecimalOfParse(front);
      ParseOfAppended(front, last);
    }
  }

  lemma SingleDigit(c: char)
    requires DecimalDigit(c) && c != '0'
    ensures AllDigits([c], 10) && ParseNumeral([c], 10) > 0 && Decimal(ParseNumeral([c], 10)) == [c]
  {
    assert [c][..0] == "";
    DigitOfValue(c);
    OneDigit(DigitValue(c));
  }

  lemma ParseOfAppended(front: string, last: char)
    requires AllDecimal(front) && AllDigits(front, 10) && DecimalDigit(last) && ParseNumeral(front, 10) > 0
    requires Decimal(ParseNumeral(front, 10)) == front
    ensures var s := front + [last];
            AllDigits(s, 10) && ParseNumeral(s, 10) > 0 && Decimal(ParseNumeral(s, 10)) == s
  {
    ParseAppended(front, last);
    PrintAppended(front, last, ParseNumeral(front, 10));
  }

  lemma ParseAppended(front: string, last: char)
    requires AllDecimal(front) && DecimalDigit(last)
    ensures AllDigits(front, 10) && AllDigits(front + [last], 10)
    ensures ParseNumeral(front + [last], 10) == ParseNumeral(front, 10) * 10 + DigitValue(last)
  {
    DecimalParses(front);
    DecimalParses(front + [last]);
    assert (front + [last])[..|front|] == front;
  }

  lemma PrintAppended(front: string, last: char, p: nat)
    requires DecimalDigit(last) && p > 0 && Decimal(p) == front
    ensures Decimal(p * 10 + DigitValue(last)) == front + [last]
  {
    DigitOfValue(last);
    AppendDigit(p, DigitValue(last));
  }

  lemma DigitOfValue(c: char)
    requires DecimalDigit(c)
    ensures DigitValue(c) < 10 && DigitChar(DigitValue(c)) == c
    ensures c != '0' ==> DigitValue(c) > 0
  {
  }

  lemma OneDigit(d: nat)
    requires d < 10
    ensures Numeral(d, 10) == [DigitChar(d)]
  {
  }

  lemma AppendDigit(p: nat, d: nat)
    requires p > 0 && d < 10
    ensures Numeral(p * 10 + d, 10) == Numeral(p, 10) + [DigitChar(d)]
  {
    assert (p * 10 + d) / 10 == p && (p * 10 + d) % 10 == d;
  }

  lemma {:induction false} DecimalIsCanonical(n: nat)
    ensures AllDecimal(Decimal(n)) && (n > 0 ==> Decimal(n)[0] != '0')
  {
    if n >= 10 {
      DecimalIsCanonical(n / 10);
    }
  }

  // ---- White space.

  /** What String.prototype.trim strips. */
  predicate White(c: char) {
    var n := c as int;
    9 <= n <= 13 || n == 32 || n == 0xA0 || n == 0x1680 || 0x2000 <= n <= 0x200A
    || n == 0x2028 || n == 0x2029 || n == 0x202F || n == 0x205F || n == 0x3000 || n == 0xFEFF
  }

  function TrimStart(s: string): string {
    if s != "" && White(s[0]) then TrimStart(s[1..]) else s
  }

  function TrimEnd(s: string): string {
    if s != "" && White(s[|s| - 1]) then TrimEnd(s[..|s| - 1]) else s
  }

  function Trim(s: string): string {
    TrimEnd(TrimStart(s))
  }

  // ---- Join and split.

  function IndexOf(s: string, sep: char): (i: nat)
    requires sep in s
    ensures i < |s| && s[i] == sep && sep !in s[..i]
  {
    if s[0] == sep then 0
    else
      var i := 1 + IndexOf(s[1..], sep);
      assert s[..i] == [s[0]] + s[1..][..i - 1];
      i
  }

  function Split(s: string, sep: char): (parts: seq<string>)
    ensures |parts| > 0
    decreases |s|
  {
    if sep !in s then [s]
    else
      var i := IndexOf(s, sep);
      [s[..i]] + Split(s[i + 1..], sep)
  }

  function Join(parts: seq<string>, sep: char): string
    requires |parts| > 0
  {
    if |parts| == 1 then parts[0] else parts[0] + [sep] + Join(parts[1..], sep)
  }

  predicate NoneHolds(parts: seq<string>, sep: char) {
    forall i :: 0 <= i < |parts| ==> sep !in parts[i]
  }

  lemma IndexOfAfter(head: string, sep: char, tail: string)
    requires sep !in head
    ensures IndexOf(head + [sep] + tail, sep) == |head|
  {
    var s := head + [sep] + tail;
    var i := IndexOf(s, sep);
    assert s[|head|] == sep;
    assert forall j :: 0 <= j < |head| ==> s[j] == head[j];
    forall j | 0 <= j < i
      ensures s[j] != sep
    {
      assert s[j] == s[..i][j];
    }
  }

  lemma {:induction false} SplitOfJoin(parts: seq<string>, sep: char)
    requires |parts| > 0 && NoneHolds(parts, sep)
    ensures Split(Join(parts, sep), sep) == parts
  {
    if |parts| > 1 {
      SplitOfJoin(parts[1..], sep);
      SplitAfter(parts[0], sep, Join(parts[1..], sep));
      assert parts == [parts[0]] + parts[1..];
    }
  }

  lemma SplitAfter(head: string, sep: char, tail: string)
    requires sep !in head
    ensures Split(head + [sep] + tail, sep) == [head] + Split(tail, sep)
  {
    var s := head + [sep] + tail;
    IndexOfAfter(head, sep, tail);
    assert s[|head|] == sep;
    assert s[..|head|] == head && s[|head| + 1..] == tail;
  }

  lemma JoinInjective(xs: seq<string>, ys: seq<string>, sep: char)
    requires |xs| > 0 && |ys| > 0 && NoneHolds(xs, sep) && NoneHolds(ys, sep)
    requires Join(xs, sep) == Join(ys, sep)
    ensures xs == ys
  {
    SplitOfJoin(xs, sep);
    SplitOfJoin(ys, sep);
  }

  lemma {:induction false} JoinAppend(xs: seq<string>, ys: seq<string>, sep: char)
    requires xs != [] && ys != []
    ensures Join(xs + ys, sep) == Join(xs, sep) + [sep] + Join(ys, sep)
  {
    if |xs| == 1 {
      assert (xs + ys)[1..] == ys;
    } else {
      JoinAppend(xs[1..], ys, sep);
      assert (xs + ys)[1..] == xs[1..] + ys;
    }
  }

  lemma {:induction false} JoinLacks(parts: seq<string>, sep: char, c: char)
    requires parts != [] && NoneHolds(parts, c) && c != sep
    ensures c !in Join(parts, sep)
  {
    if |parts| > 1 {
      JoinLacks(parts[1..], sep, c);
    }
  }

  lemma JoinPair(x: string, y: string, sep: char)
    ensures Join([x, y], sep) == x + [sep] + y
  {
    assert [x, y][1..] == [y];
  }

  lemma JoinThree(x: string, y: string, z: string, sep: char)
    ensures Join([x, y, z], sep) == x + [sep] + y + [sep] + z
  {
    assert [x, y, z] == [x, y] + [z];
    JoinAppend([x, y], [z], sep);
    JoinPair(x, y, sep);
  }

  lemma {:induction false} SplitConcat(p: string, sep: char, q: string)
    ensures Split(p + [sep] + q, sep) == Split(p, sep) + Split(q, sep)
    decreases |p|
  {
    if sep !in p {
      SplitAfter(p, sep, q);
    } else {
      var i := IndexOf(p, sep);
      var head, tail := p[..i], p[i + 1..];
      SplitConcat(tail, sep, q);
      CutAtSeparator(p, sep, i, q);
      SplitAfter(head, sep, tail + [sep] + q);
      AppendAssociates([head], Split(tail, sep), Split(q, sep));
    }
  }

  lemma AppendAssociates<T>(a: seq<T>, b: seq<T>, c: seq<T>)
    ensures (a + b) + c == a + (b + c)
  {
  }

  lemma CutAtSeparator(p: string, sep: char, i: nat, q: string)
    requires i < |p| && p[i] == sep
    ensures p + [sep] + q == p[..i] + [sep] + (p[i + 1..] + [sep] + q)
  {
  }
}
