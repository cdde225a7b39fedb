/** The address part of a rate-limit key: ipv6Groups and clientIpKey of rate-limiter.ts. */
module IpAddressKeys {
  import opened Common
  import opened Text

  // ---- The text forms of section 2.2 of RFC 4291.

  /** `left` and `right` are the groups as written; `dotted` is a tail in IPv4 form. */
  datatype Form = Form(left: seq<string>, compressed: bool, right: seq<string>, dotted: Option<Octets>)

  datatype Octets = Octets(a: nat, b: nat, c: nat, d: nat)

  predicate OctetsOk(o: Octets) {
    o.a < 256 && o.b < 256 && o.c < 256 && o.d < 256
  }

  /** One to four hex digits of either case. */
  predicate HexText(s: string) {
    1 <= |s| <= 4 && AllDigits(s, 16)
  }

  predicate HexTexts(groups: seq<string>) {
    forall i :: 0 <= i < |groups| ==> HexText(groups[i])
  }

  function Written(f: Form): nat {
    |f.left| + |f.right| + if f.dotted.Some? then 2 else 0
  }

  predicate FormOk(f: Form) {
    && HexTexts(f.left) && HexTexts(f.right)
    && (f.dotted.Some? ==> OctetsOk(f.dotted.value))
    && if f.compressed then Written(f) <= 7 else Written(f) == 8 && f.right == []
  }

  /** Array.prototype.join, which gives "" for no parts. */
  function JoinAll(parts: seq<string>): string {
    if parts == [] then "" else Join(parts, ':')
  }

  function Dotted(o: Octets): string {
    Join([Decimal(o.a), Decimal(o.b), Decimal(o.c), Decimal(o.d)], '.')
  }

  function WithTail(groups: seq<string>, dotted: Option<Octets>): seq<string> {
    if dotted.None? then groups else groups + [Dotted(dotted.value)]
  }

  function Print(f: Form): string {
    if f.compressed then JoinAll(f.left) + "::" + JoinAll(WithTail(f.right, f.dotted))
    else JoinAll(WithTail(f.left, f.dotted))
  }

  function Values(groups: seq<string>): (values: seq<nat>)
    requires HexTexts(groups)
    ensures |values| == |groups|
  {
    seq(|groups|, i requires 0 <= i < |groups| => ParseNumeral(groups[i], 16))
  }

  function TailGroups(dotted: Option<Octets>): seq<nat> {
    if dotted.None? then [] else [dotted.value.a * 256 + dotted.value.b, dotted.value.c * 256 + dotted.value.d]
  }

  function Zeros(n: nat): seq<nat> {
    seq(n, _ => 0)
  }

  /** The eight groups that a form is of. */
  function Address(f: Form): (groups: seq<nat>)
    requires FormOk(f)
    ensures |groups| == 8
  {
    if f.compressed then Values(f.left) + Zeros(8 - Written(f)) + Values(f.right) + TailGroups(f.dotted)
    else Values(f.left) + TailGroups(f.dotted)
  }

  // ---- ipv6Groups

  /** What `.` does not match in a regular expression. */
  predicate LineTerminator(c: char) {
    var n := c as int;
    n == 0x0A || n == 0x0D || n == 0x2028 || n == 0x2029
  }

  predicate OneLine(s: string) {
    forall i :: 0 <= i < |s| ==> !LineTerminator(s[i])
  }

  /** The first `%` with no line terminator after it, and all from there, is the zone. */
  function StripZone(ip: string): string {
    if ip == "" || (ip[0] == '%' && OneLine(ip)) then "" else [ip[0]] + StripZone(ip[1..])
  }

  ghost predicate IsIPv6(s: string) {
    exists f :: FormOk(f) && Print(f) == s
  }

  function LastField(s: string): string {
    var fields := Split(s, ':');
    fields[|fields| - 1]
  }

  predicate OctetText(s: string) {
    1 <= |s| <= 3 && AllDecimal(s)
  }

  /** The four numbers that a field is, if it is such. */
  function OctetsIn(field: string): Option<Octets> {
    var parts := Split(field, '.');
    if |parts| == 4 && OctetText(parts[0]) && OctetText(parts[1]) && OctetText(parts[2]) && OctetText(parts[3]) then
      DecimalParses(parts[0]);
      DecimalParses(parts[1]);
      DecimalParses(parts[2]);
      DecimalParses(parts[3]);
      Some(Octets(ParseNumeral(parts[0], 10), ParseNumeral(parts[1], 10), ParseNumeral(parts[2], 10), ParseNumeral(parts[3], 10)))
    else None
  }

  function DottedTail(bare: string): Option<Octets> {
    OctetsIn(LastField(bare))
  }

  function High(o: Octets): string {
    Numeral(o.a * 256 + o.b, 16)
  }

  function Second(o: Octets): string {
    Numeral(o.c * 256 + o.d, 16)
  }

  function TwoGroups(o: Octets): string {
    High(o) + ":" + Second(o)
  }

  /** A dotted tail is written as two groups. */
  function HexForm(bare: string): string {
    var tail := DottedTail(bare);
    if tail.None? then bare
    else
      LastFieldFits(bare);
      bare[..|bare| - |LastField(bare)|] + TwoGroups(tail.value)
  }

  lemma {:induction false} LastFieldFits(s: string)
    ensures |LastField(s)| <= |s|
    ensures LastField(s) == s[|s| - |LastField(s)|..] && ':' !in LastField(s)
    decreases |s|
  {
    if ':' in s {
      var i := IndexOf(s, ':');
      LastFieldFits(s[i + 1..]);
      assert Split(s, ':') == [s[..i]] + Split(s[i + 1..], ':');
      assert LastField(s) == LastField(s[i + 1..]);
    }
  }

  /** Where `::` first is. */
  function FindDouble(s: string): (i: Option<nat>)
    ensures i.Some? ==> i.value + 2 <= |s| && s[i.value] == ':' && s[i.value + 1] == ':'
  {
    if |s| < 2 then None
    else if s[0] == ':' && s[1] == ':' then Some(0)
    else
      var i := FindDouble(s[1..]);
      if i.None? then None else Some(i.value + 1)
  }

  function Fields(s: string): seq<string> {
    if s == "" then [] else Split(s, ':')
  }

  predicate AllHex(groups: seq<string>) {
    forall i :: 0 <= i < |groups| ==> AllDigits(groups[i], 16)
  }

  function ParseAll(groups: seq<string>): seq<nat>
    requires AllHex(groups)
  {
    seq(|groups|, i requires 0 <= i < |groups| => ParseNumeral(groups[i], 16))
  }

  /** The texts of the eight groups, zeros filled in for `::`. */
  function GroupTexts(hex: string): seq<string> {
    var i := FindDouble(hex);
    if i.None? then Fields(hex)
    else
      var left, right := Fields(hex[..i.value]), Fields(hex[i.value + 2..]);
      left + (if |left| + |right| <= 8 then seq(8 - |left| - |right|, _ => "0") else []) + right
  }

  /** None when the text is not an IPv6 address. */
  ghost function Ipv6Groups(ip: string): Option<seq<nat>> {
    var bare := StripZone(ip);
    if !IsIPv6(bare) then None
    else
      var texts := GroupTexts(HexForm(bare));
      if AllHex(texts) then Some(ParseAll(texts)) else None
  }

  // ---- Every form gives the same groups.

  lemma HexHasNoColon(s: string)
    requires HexText(s)
    ensures ':' !in s && '%' !in s && '.' !in s
  {
    assert forall i :: 0 <= i < |s| ==> IsDigit(s[i], 16);
  }

  lemma HexFields(groups: seq<string>)
    requires HexTexts(groups)
    ensures NoneHolds(groups, ':') && AllHex(groups) && forall i :: 0 <= i < |groups| ==> groups[i] != ""
  {
    forall i | 0 <= i < |groups|
      ensures ':' !in groups[i]
    {
      HexHasNoColon(groups[i]);
    }
  }

  lemma {:induction false} NoDoubleIn(groups: seq<string>)
    requires groups != [] && NoneHolds(groups, ':') && forall i :: 0 <= i < |groups| ==> groups[i] != ""
    ensures FindDouble(Join(groups, ':')).None?
    ensures Join(groups, ':')[0] != ':' && Join(groups, ':') != ""
  {
    var first := groups[0];
    if |groups| == 1 {
      NoColonNoDouble(first);
    } else {
      NoDoubleIn(groups[1..]);
      DoubleAfter(first, Join(groups[1..], ':'));
    }
  }

  lemma {:induction false} NoColonNoDouble(s: string)
    requires ':' !in s
    ensures FindDouble(s).None?
  {
    if |s| >= 2 {
      NoColonNoDouble(s[1..]);
    }
  }

  lemma {:induction false} DoubleAfter(first: string, rest: string)
    requires first != "" && ':' !in first && rest != "" && rest[0] != ':' && FindDouble(rest).None?
    ensures FindDouble(first + [':'] + rest).None?
  {
    var s := first + [':'] + rest;
    if |first| == 1 {
      assert s[1..] == [':'] + rest;
      assert ([':'] + rest)[1..] == rest;
    } else {
      DoubleAfter(first[1..], rest);
      assert s[1..] == first[1..] + [':'] + rest;
    }
  }

  /** The first `::` is the one that compresses. */
  lemma {:induction false} DoubleAt(head: string, rest: string)
    requires FindDouble(head).None? && (head != "" ==> head[|head| - 1] != ':')
    ensures FindDouble(head + "::" + rest) == Some(|head|)
  {
    var s := head + "::" + rest;
    if head != "" {
      assert s[1..] == head[1..] + "::" + rest;
      if |head| > 1 {
        DoubleAt(head[1..], rest);
      } else {
        DoubleAt("", rest);
        assert head[1..] == "";
      }
      assert s[0] == head[0];
      assert |head| > 1 ==> s[1] == head[1];
    }
  }

  lemma FieldsOfJoin(groups: seq<string>)
    requires HexTexts(groups)
    ensures Fields(JoinAll(groups)) == groups && FindDouble(JoinAll(groups)).None?
    ensures JoinAll(groups) != "" ==> JoinAll(groups)[0] != ':' && JoinAll(groups)[|JoinAll(groups)| - 1] != ':'
  {
    HexFields(groups);
    if groups != [] {
      NoDoubleIn(groups);
      SplitOfJoin(groups, ':');
      LastCharOfJoin(groups);
    }
  }

  lemma {:induction false} LastCharOfJoin(groups: seq<string>)
    requires groups != [] && NoneHolds(groups, ':') && forall i :: 0 <= i < |groups| ==> groups[i] != ""
    ensures Join(groups, ':') != "" && Join(groups, ':')[|Join(groups, ':')| - 1] != ':'
  {
    if |groups| > 1 {
      LastCharOfJoin(groups[1..]);
    } else {
      assert groups[0] != "";
    }
  }

  /** Without a dotted tail, the texts of the groups are those written, with "0" for the gap. */
  lemma PlainTexts(left: seq<string>, right: seq<string>)
    requires HexTexts(left) && HexTexts(right) && |left| + |right| <= 8
    ensures GroupTexts(JoinAll(left) + "::" + JoinAll(right)) == left + seq(8 - |left| - |right|, _ => "0") + right
  {
    FieldsOfJoin(left);
    FieldsOfJoin(right);
    var head, rest := JoinAll(left), JoinAll(right);
    DoubleAt(head, rest);
    Around(head, rest);
    TextsAround(head + "::" + rest, |head|, left, right);
  }

  lemma TextsAround(s: string, i: nat, left: seq<string>, right: seq<string>)
    requires FindDouble(s) == Some(i) && Fields(s[..i]) == left && Fields(s[i + 2..]) == right && |left| + |right| <= 8
    ensures GroupTexts(s) == left + seq(8 - |left| - |right|, _ => "0") + right
  {
  }

  lemma Around(head: string, rest: string)
    ensures (head + "::" + rest)[..|head|] == head && (head + "::" + rest)[|head| + 2..] == rest
  {
  }

  lemma {:induction false} HexBound(s: string)
    requires AllDigits(s, 16)
    ensures ParseNumeral(s, 16) < Power(16, |s|)
  {
    if s != "" {
      HexBound(s[..|s| - 1]);
    }
  }

  lemma GroupInRange(s: string)
    requires HexText(s)
    ensures ParseNumeral(s, 16) < 0x10000
  {
    HexBound(s);
    assert Power(16, 1) == 16 && Power(16, 2) == 256 && Power(16, 3) == 4096 && Power(16, 4) == 0x10000;
  }

  // ---- The dotted tail.

  lemma {:induction false} NumeralLength(n: nat, base: nat, k: nat)
    requires 2 <= base <= 16 && k >= 1 && n < Power(base, k)
    ensures |Numeral(n, base)| <= k
    decreases k
  {
    if n >= base {
      assert k > 1 by {
        assert Power(base, 1) == base * Power(base, 0) == base;
      }
      QuotientBound(n, base, Power(base, k - 1));
      NumeralLength(n / base, base, k - 1);
    }
  }

  function Power(base: nat, k: nat): nat {
    if k == 0 then 1 else base * Power(base, k - 1)
  }

  lemma QuotientBound(n: nat, base: nat, p: nat)
    requires base > 0 && n < base * p
    ensures n / base < p
  {
    var q := n / base;
    assert n >= base * q;
    assert q >= p ==> base * q >= base * p;
  }

  lemma OctetPrints(n: nat)
    requires n < 256
    ensures OctetText(Decimal(n)) && '.' !in Decimal(n) && ':' !in Decimal(n) && '%' !in Decimal(n)
    ensures AllDigits(Decimal(n), 10) && ParseNumeral(Decimal(n), 10) == n
  {
    DecimalIsCanonical(n);
    ParseOfNumeral(n, 10);
    assert Power(10, 1) == 10 && Power(10, 2) == 100 && Power(10, 3) == 1000;
    NumeralLength(n, 10, 3);
  }

  lemma HexPrints(n: nat)
    requires n < 0x10000
    ensures HexText(Numeral(n, 16)) && ParseNumeral(Numeral(n, 16), 16) == n
  {
    ParseOfNumeral(n, 16);
    assert Power(16, 1) == 16 && Power(16, 2) == 256 && Power(16, 3) == 4096 && Power(16, 4) == 0x10000;
    NumeralLength(n, 16, 4);
  }

  lemma DottedSplits(o: Octets)
    requires OctetsOk(o)
    ensures Split(Dotted(o), '.') == [Decimal(o.a), Decimal(o.b), Decimal(o.c), Decimal(o.d)]
    ensures ':' !in Dotted(o) && '%' !in Dotted(o)
  {
    OctetPrints(o.a);
    OctetPrints(o.b);
    OctetPrints(o.c);
    OctetPrints(o.d);
    FourSplit(Decimal(o.a), Decimal(o.b), Decimal(o.c), Decimal(o.d));
  }

  predicate Undotted(s: string) {
    '.' !in s && ':' !in s && '%' !in s
  }

  lemma FourSplit(a: string, b: string, c: string, d: string)
    requires Undotted(a) && Undotted(b) && Undotted(c) && Undotted(d)
    ensures Split(Join([a, b, c, d], '.'), '.') == [a, b, c, d]
    ensures ':' !in Join([a, b, c, d], '.') && '%' !in Join([a, b, c, d], '.')
  {
    var parts := [a, b, c, d];
    SplitOfJoin(parts, '.');
    JoinLacks(parts, '.', ':');
    JoinLacks(parts, '.', '%');
  }

  lemma LastFieldAfter(before: string, text: string)
    requires ':' !in text
    ensures LastField(before + [':'] + text) == text && LastField(text) == text
  {
    SplitConcat(before, ':', text);
  }

  /** What stands before the last part of a form. */
  function Lead(groups: seq<string>): string {
    if groups == [] then "" else Join(groups, ':') + ":"
  }

  lemma LeadThen(groups: seq<string>, text: string)
    ensures JoinAll(groups + [text]) == Lead(groups) + text
  {
    if groups != [] {
      JoinAppend(groups, [text], ':');
    }
  }

  lemma LeadThenTwo(groups: seq<string>, o: Octets)
    ensures JoinAll(groups + [High(o), Second(o)]) == Lead(groups) + TwoGroups(o)
  {
    JoinPair(High(o), Second(o), ':');
    if groups != [] {
      JoinAppend(groups, [High(o), Second(o)], ':');
    } else {
      assert groups + [High(o), Second(o)] == [High(o), Second(o)];
    }
  }

  lemma DottedIsOctets(o: Octets)
    requires OctetsOk(o)
    ensures OctetsIn(Dotted(o)) == Some(o)
  {
    DottedSplits(o);
    OctetPrints(o.a);
    OctetPrints(o.b);
    OctetPrints(o.c);
    OctetPrints(o.d);
  }

  predicate EndsField(before: string) {
    before == "" || before[|before| - 1] == ':'
  }

  lemma LastFieldIs(before: string, text: string)
    requires EndsField(before) && ':' !in text
    ensures LastField(before + text) == text
  {
    if before == "" {
      LastFieldAfter("", text);
      assert before + text == text;
    } else {
      var front := before[..|before| - 1];
      assert before == front + [':'];
      LastFieldAfter(front, text);
    }
  }

  lemma HexFormOfDotted(before: string, o: Octets)
    requires OctetsOk(o) && EndsField(before)
    ensures HexForm(before + Dotted(o)) == before + TwoGroups(o)
  {
    DottedSplits(o);
    DottedIsOctets(o);
    LastFieldIs(before, Dotted(o));
    TakeFront(before, Dotted(o));
  }

  lemma TakeFront(before: string, text: string)
    ensures (before + text)[..|before + text| - |text|] == before
  {
  }

  lemma NoDots(before: string, text: string)
    requires ':' !in text && '.' !in text && EndsField(before)
    ensures HexForm(before + text) == before + text
  {
    LastFieldIs(before, text);
  }

  /** The groups with a dotted tail written in hex. */
  function InHex(groups: seq<string>, dotted: Option<Octets>): seq<string> {
    if dotted.None? then groups else groups + [High(dotted.value), Second(dotted.value)]
  }

  lemma HexFormOfTail(before: string, groups: seq<string>, o: Octets)
    requires OctetsOk(o) && EndsField(before)
    ensures HexForm(before + JoinAll(groups + [Dotted(o)])) == before + JoinAll(groups + [High(o), Second(o)])
  {
    LeadThen(groups, Dotted(o));
    LeadThenTwo(groups, o);
    AppendAssociates(before, Lead(groups), Dotted(o));
    AppendAssociates(before, Lead(groups), TwoGroups(o));
    HexFormOfDotted(before + Lead(groups), o);
  }

  lemma HexFormOfPlain(before: string, groups: seq<string>)
    requires HexTexts(groups) && EndsField(before)
    ensures HexForm(before + JoinAll(groups)) == before + JoinAll(groups)
  {
    if groups == [] {
      NoDots(before, "");
    } else {
      var front, last := groups[..|groups| - 1], groups[|groups| - 1];
      assert groups == front + [last];
      LeadThen(front, last);
      HexHasNoColon(last);
      AppendAssociates(before, Lead(front), last);
      NoDots(before + Lead(front), last);
    }
  }

  lemma HexFormOf(before: string, groups: seq<string>, dotted: Option<Octets>)
    requires HexTexts(groups) && (dotted.Some? ==> OctetsOk(dotted.value)) && EndsField(before)
    ensures HexForm(before + JoinAll(WithTail(groups, dotted))) == before + JoinAll(InHex(groups, dotted))
  {
    if dotted.Some? {
      HexFormOfTail(before, groups, dotted.value);
    } else {
      HexFormOfPlain(before, groups);
    }
  }

  lemma InHexTexts(groups: seq<string>, dotted: Option<Octets>)
    requires HexTexts(groups) && (dotted.Some? ==> OctetsOk(dotted.value))
    ensures HexTexts(InHex(groups, dotted)) && |InHex(groups, dotted)| == |groups| + |TailGroups(dotted)|
    ensures Values(InHex(groups, dotted)) == Values(groups) + TailGroups(dotted)
  {
    if dotted.Some? {
      TailTexts(dotted.value);
      ValuesAppend(groups, [High(dotted.value), Second(dotted.value)]);
    }
  }

  lemma PairTexts(x: string, y: string, m: nat, n: nat)
    requires HexText(x) && HexText(y) && ParseNumeral(x, 16) == m && ParseNumeral(y, 16) == n
    ensures HexTexts([x, y]) && Values([x, y]) == [m, n]
  {
  }

  lemma TailTexts(o: Octets)
    requires OctetsOk(o)
    ensures HexTexts([High(o), Second(o)]) && Values([High(o), Second(o)]) == [o.a * 256 + o.b, o.c * 256 + o.d]
  {
    HexPrints(o.a * 256 + o.b);
    HexPrints(o.c * 256 + o.d);
    PairTexts(High(o), Second(o), o.a * 256 + o.b, o.c * 256 + o.d);
  }

  lemma ValuesAppend(xs: seq<string>, ys: seq<string>)
    requires HexTexts(xs) && HexTexts(ys)
    ensures HexTexts(xs + ys) && Values(xs + ys) == Values(xs) + Values(ys)
  {
  }

  lemma ZeroTexts(n: nat)
    ensures HexTexts(seq(n, _ => "0")) && Values(seq(n, _ => "0")) == Zeros(n)
  {
    assert "0"[..0] == "";
    assert ParseNumeral("0", 16) == 0;
  }

  // ---- ipv6Groups of every form.

  /** A zone id, if any, is on the address's line. */
  predicate ZoneText(zone: string) {
    zone == "" || (zone[0] == '%' && forall i :: 0 <= i < |zone| ==> zone[i] !in LINE_ENDS)
  }

  const LINE_ENDS := "\n\r\U{2028}\U{2029}"

  lemma LineEnds(s: string)
    ensures OneLine(s) <==> forall i :: 0 <= i < |s| ==> s[i] !in LINE_ENDS
  {
    forall i | 0 <= i < |s|
      ensures LineTerminator(s[i]) <==> s[i] in LINE_ENDS
    {
      LineEndIs(s[i]);
    }
  }

  lemma LineEndIs(c: char)
    ensures LineTerminator(c) <==> c in LINE_ENDS
  {
    assert c in LINE_ENDS <==> c == '\n' || c == '\r' || c == '\U{2028}' || c == '\U{2029}' by {
      assert LINE_ENDS == ['\n', '\r', '\U{2028}', '\U{2029}'];
    }
  }

  lemma NoPercentIn(groups: seq<string>, dotted: Option<Octets>)
    requires HexTexts(groups) && (dotted.Some? ==> OctetsOk(dotted.value))
    ensures '%' !in JoinAll(WithTail(groups, dotted))
  {
    var parts := WithTail(groups, dotted);
    if dotted.Some? {
      DottedSplits(dotted.value);
    }
    forall i | 0 <= i < |parts|
      ensures '%' !in parts[i]
    {
      if i < |groups| {
        HexHasNoColon(groups[i]);
      }
    }
    if parts != [] {
      JoinLacks(parts, ':', '%');
    }
  }

  lemma ZoneStripped(f: Form, zone: string)
    requires FormOk(f) && ZoneText(zone)
    ensures StripZone(Print(f) + zone) == Print(f)
  {
    NoPercent(f);
    StripAfter(Print(f), zone);
  }

  lemma NoPercent(f: Form)
    requires FormOk(f)
    ensures '%' !in Print(f)
  {
    NoPercentIn(f.left, f.dotted);
    NoPercentIn(f.left, None);
    NoPercentIn(f.right, f.dotted);
  }

  lemma {:induction false} StripAfter(text: string, zone: string)
    requires '%' !in text && ZoneText(zone)
    ensures StripZone(text + zone) == text
  {
    if text == "" {
      assert text + zone == zone;
      LineEnds(zone);
    } else {
      StripAfter(text[1..], zone);
      assert (text + zone)[1..] == text[1..] + zone;
    }
  }

  /** The texts found for a form, and what they are worth. */
  lemma TextsOf(f: Form)
    requires FormOk(f)
    ensures HexTexts(GroupTexts(HexForm(Print(f)))) && Values(GroupTexts(HexForm(Print(f)))) == Address(f)
  {
    if f.compressed {
      CompressedTexts(f);
    } else {
      HexFormOf("", f.left, f.dotted);
      assert "" + Print(f) == Print(f) && "" + JoinAll(InHex(f.left, f.dotted)) == JoinAll(InHex(f.left, f.dotted));
      InHexTexts(f.left, f.dotted);
      FieldsOfJoin(InHex(f.left, f.dotted));
    }
  }

  lemma CompressedGroupTexts(f: Form, right: seq<string>, n: nat)
    requires FormOk(f) && f.compressed && right == InHex(f.right, f.dotted) && n == 8 - Written(f)
    ensures HexTexts(right) && Values(right) == Values(f.right) + TailGroups(f.dotted)
    ensures GroupTexts(HexForm(Print(f))) == f.left + seq(n, _ => "0") + right
  {
    HexFormOf(JoinAll(f.left) + "::", f.right, f.dotted);
    InHexTexts(f.right, f.dotted);
    PlainTexts(f.left, right);
  }

  lemma GapValues(left: seq<string>, n: nat, right: seq<string>)
    requires HexTexts(left) && HexTexts(right)
    ensures HexTexts(left + seq(n, _ => "0") + right)
    ensures Values(left + seq(n, _ => "0") + right) == Values(left) + Zeros(n) + Values(right)
  {
    ZeroTexts(n);
    ValuesAppend(left, seq(n, _ => "0"));
    ValuesAppend(left + seq(n, _ => "0"), right);
  }

  lemma CompressedValues(f: Form, texts: seq<string>, right: seq<string>, n: nat)
    requires FormOk(f) && f.compressed && n == 8 - Written(f) && texts == f.left + seq(n, _ => "0") + right
    requires HexTexts(right) && Values(right) == Values(f.right) + TailGroups(f.dotted)
    ensures HexTexts(texts) && Values(texts) == Address(f)
  {
    GapValues(f.left, n, right);
    AppendAssociates(Values(f.left) + Zeros(n), Values(f.right), TailGroups(f.dotted));
  }

  lemma CompressedTexts(f: Form)
    requires FormOk(f) && f.compressed
    ensures HexTexts(GroupTexts(HexForm(Print(f)))) && Values(GroupTexts(HexForm(Print(f)))) == Address(f)
  {
    var right, n := InHex(f.right, f.dotted), 8 - Written(f);
    CompressedGroupTexts(f, right, n);
    CompressedValues(f, GroupTexts(HexForm(Print(f))), right, n);
  }

  /** Every legal text of an address, compressed anywhere, with a dotted tail or a zone, gives its eight groups. */
  lemma EveryFormGivesTheAddress(f: Form, zone: string)
    requires FormOk(f) && ZoneText(zone)
    ensures Ipv6Groups(Print(f) + zone) == Some(Address(f))
  {
    ZoneStripped(f, zone);
    TextsOf(f);
    assert IsIPv6(Print(f));
    HexFields(GroupTexts(HexForm(Print(f))));
  }

  // ---- What a group is worth.

  /** Letters count alike in either case. */
  function Lower(c: char): char {
    if 'A' <= c <= 'F' then (c - 'A') + 'a' else c
  }

  predicate SameButCase(s: string, t: string) {
    |s| == |t| && forall i :: 0 <= i < |s| ==> Lower(s[i]) == Lower(t[i])
  }

  /** A group is worth n when it is n in hex, with leading zeros and in either case. */
  lemma GroupIs(s: string, zeros: nat, n: nat)
    requires SameButCase(s, seq(zeros, _ => '0') + Numeral(n, 16))
    ensures AllDigits(s, 16) && ParseNumeral(s, 16) == n
  {
    ParseOfNumeral(n, 16);
    LeadingZeros(zeros, Numeral(n, 16));
    EitherCase(s, seq(zeros, _ => '0') + Numeral(n, 16));
  }

  lemma {:induction false} LeadingZeros(zeros: nat, s: string)
    requires AllDigits(s, 16)
    ensures AllDigits(seq(zeros, _ => '0') + s, 16) && ParseNumeral(seq(zeros, _ => '0') + s, 16) == ParseNumeral(s, 16)
    decreases zeros, |s|
  {
    var t := seq(zeros, _ => '0') + s;
    if s != "" {
      LeadingZeros(zeros, s[..|s| - 1]);
      assert t[..|t| - 1] == seq(zeros, _ => '0') + s[..|s| - 1];
    } else if zeros > 0 {
      LeadingZeros(zeros - 1, s);
      assert t[..|t| - 1] == seq(zeros - 1, _ => '0') + s;
    }
  }

  lemma {:induction false} EitherCase(s: string, t: string)
    requires SameButCase(s, t) && AllDigits(t, 16)
    ensures AllDigits(s, 16) && ParseNumeral(s, 16) == ParseNumeral(t, 16)
  {
    assert forall i :: 0 <= i < |s| ==> DigitValue(s[i]) == DigitValue(t[i]);
    if s != "" {
      EitherCase(s[..|s| - 1], t[..|t| - 1]);
    }
  }

  lemma AddressInRange(f: Form)
    requires FormOk(f)
    ensures forall i :: 0 <= i < 8 ==> Address(f)[i] < 0x10000
  {
    ValuesInRange(f.left);
    ValuesInRange(f.right);
  }

  lemma ValuesInRange(groups: seq<string>)
    requires HexTexts(groups)
    ensures forall i :: 0 <= i < |groups| ==> Values(groups)[i] < 0x10000
  {
    forall i | 0 <= i < |groups|
      ensures Values(groups)[i] < 0x10000
    {
      GroupInRange(groups[i]);
    }
  }

  // ---- clientIpKey

  predicate Mapped(groups: seq<nat>)
    requires |groups| == 8
  {
    (forall i :: 0 <= i < 5 ==> groups[i] == 0) && groups[5] == 0xffff
  }

  function MappedOctets(groups: seq<nat>): Octets
    requires |groups| == 8
  {
    Octets(groups[6] / 256, groups[6] % 256, groups[7] / 256, groups[7] % 256)
  }

  /** What a limiter counts by. */
  datatype Network = Host(o: Octets) | Prefix(groups: seq<nat>)

  function HexOf(groups: seq<nat>): seq<string> {
    seq(|groups|, i requires 0 <= i < |groups| => Numeral(groups[i], 16))
  }

  function NetworkKey(n: Network): string {
    match n
    case Host(o) => Dotted(o)
    case Prefix(groups) => JoinAll(HexOf(groups)) + "::/64"
  }

  ghost function ClientIpKey(ip: Option<string>): string {
    if ip.None? || ip.value == "" then "anonymous"
    else
      var groups := Ipv6Groups(ip.value);
      if groups.None? || |groups.value| != 8 then ip.value
      else if Mapped(groups.value) then NetworkKey(Host(MappedOctets(groups.value)))
      else NetworkKey(Prefix(groups.value[..4]))
  }

  datatype Client = V4(o: Octets) | V6(form: Form, zone: string)

  predicate ClientOk(c: Client) {
    match c
    case V4(o) => OctetsOk(o)
    case V6(form, zone) => FormOk(form) && ZoneText(zone)
  }

  function AddressText(c: Client): string {
    match c
    case V4(o) => Dotted(o)
    case V6(form, zone) => Print(form) + zone
  }

  /** An IPv4 address, direct or IPv4-mapped, is itself; another IPv6 address is its /64. */
  function NetworkOf(c: Client): Network
    requires ClientOk(c)
  {
    match c
    case V4(o) => Host(o)
    case V6(form, _) => if Mapped(Address(form)) then Host(MappedOctets(Address(form))) else Prefix(Address(form)[..4])
  }

  lemma JoinHasColon(parts: seq<string>)
    requires |parts| >= 2
    ensures ':' in Join(parts, ':')
  {
    assert (parts[0] + [':'] + Join(parts[1..], ':'))[|parts[0]|] == ':';
  }

  lemma FormHasColon(f: Form)
    requires FormOk(f)
    ensures ':' in Print(f)
  {
    if f.compressed {
      assert Print(f)[|JoinAll(f.left)|] == ':';
    } else {
      JoinHasColon(WithTail(f.left, f.dotted));
    }
  }

  lemma V4IsNotV6(o: Octets)
    requires OctetsOk(o)
    ensures Ipv6Groups(Dotted(o)).None? && Dotted(o) != ""
  {
    DottedSplits(o);
    StripAfter(Dotted(o), "");
    assert Dotted(o) + "" == Dotted(o);
    if IsIPv6(Dotted(o)) {
      var f :| FormOk(f) && Print(f) == Dotted(o);
      FormHasColon(f);
    }
    assert Split("", '.') == [""];
  }

  lemma {:induction false} BrokenZoneStays(text: string, zone: string, i: nat)
    requires '%' !in text && 0 < i < |zone| && zone[0] == '%' && '%' !in zone[1..] && zone[i] in LINE_ENDS
    ensures StripZone(text + zone) == text + zone
  {
    if text == "" {
      assert text + zone == zone;
      LineEnds(zone);
      NothingToStrip(zone[1..]);
    } else {
      BrokenZoneStays(text[1..], zone, i);
      assert (text + zone)[1..] == text[1..] + zone;
    }
  }

  lemma {:induction false} NothingToStrip(s: string)
    requires '%' !in s
    ensures StripZone(s) == s
  {
    if s != "" {
      NothingToStrip(s[1..]);
    }
  }

  /** With a line end after the only `%`, the text is no address, and it is its own key. */
  lemma BrokenZoneIsItsOwnKey(f: Form, zone: string, i: nat)
    requires FormOk(f) && 0 < i < |zone| && zone[0] == '%' && '%' !in zone[1..] && zone[i] in LINE_ENDS
    ensures ClientIpKey(Some(Print(f) + zone)) == Print(f) + zone
  {
    NoPercent(f);
    var text := Print(f) + zone;
    BrokenZoneStays(Print(f), zone, i);
    assert text[|Print(f)|] == '%';
    if IsIPv6(text) {
      var g :| FormOk(g) && Print(g) == text;
      NoPercent(g);
    }
  }

  /** The network's meaning: the low four octets of `::ffff:0:0/96`, and the first four groups of any other address. */
  predicate OfNetwork(c: Client, n: Network)
    requires ClientOk(c)
  {
    match n
    case Host(o) =>
      && OctetsOk(o)
      && (c == V4(o) || (c.V6? && Address(c.form) == [0, 0, 0, 0, 0, 0xffff, o.a * 256 + o.b, o.c * 256 + o.d]))
    case Prefix(groups) => c.V6? && Address(c.form)[..6] != [0, 0, 0, 0, 0, 0xffff] && groups == Address(c.form)[..4]
  }

  lemma TwoOctets(x: nat, y: nat, g: nat)
    requires y < 256
    ensures g == x * 256 + y <==> x == g / 256 && y == g % 256
  {
  }

  lemma FrontIs(groups: seq<nat>)
    requires |groups| == 8
    ensures Mapped(groups) <==> groups[..6] == [0, 0, 0, 0, 0, 0xffff]
    ensures forall g, h :: groups == [0, 0, 0, 0, 0, 0xffff, g, h] <==> Mapped(groups) && groups[6] == g && groups[7] == h
  {
    if groups[..6] == [0, 0, 0, 0, 0, 0xffff] {
      assert forall i :: 0 <= i < 6 ==> groups[i] == groups[..6][i];
    }
  }

  /** Every client is of one network, its own. */
  lemma NetworkIs(c: Client, n: Network)
    requires ClientOk(c)
    ensures OfNetwork(c, n) <==> n == NetworkOf(c)
  {
    if c.V6? {
      var groups := Address(c.form);
      FrontIs(groups);
      AddressInRange(c.form);
      NetworkOfIsOk(c);
      if n.Host? && OctetsOk(n.o) {
        TwoOctets(n.o.a, n.o.b, groups[6]);
        TwoOctets(n.o.c, n.o.d, groups[7]);
      }
    }
  }

  /** A client's key is that of its network, however its address is written. */
  lemma KeyIsOfNetwork(c: Client)
    requires ClientOk(c)
    ensures ClientIpKey(Some(AddressText(c))) == NetworkKey(NetworkOf(c))
  {
    match c
    case V4(o) => V4IsNotV6(o);
    case V6(form, zone) =>
      EveryFormGivesTheAddress(form, zone);
      FormHasColon(form);
  }

  predicate NetworkOk(n: Network) {
    match n
    case Host(o) => OctetsOk(o)
    case Prefix(groups) => |groups| == 4 && forall i :: 0 <= i < 4 ==> groups[i] < 0x10000
  }

  lemma NetworkOfIsOk(c: Client)
    requires ClientOk(c)
    ensures NetworkOk(NetworkOf(c))
  {
    if c.V6? {
      AddressInRange(c.form);
    }
  }

  lemma HostKeys(o: Octets, p: Octets)
    requires OctetsOk(o) && OctetsOk(p) && Dotted(o) == Dotted(p)
    ensures o == p
  {
    DottedIsOctets(o);
    DottedIsOctets(p);
  }

  lemma HexOfTexts(groups: seq<nat>)
    requires forall i :: 0 <= i < |groups| ==> groups[i] < 0x10000
    ensures HexTexts(HexOf(groups)) && Values(HexOf(groups)) == groups
  {
    forall i | 0 <= i < |groups|
      ensures HexText(HexOf(groups)[i]) && ParseNumeral(HexOf(groups)[i], 16) == groups[i]
    {
      HexPrints(groups[i]);
    }
  }

  lemma PrefixKeys(g: seq<nat>, h: seq<nat>)
    requires NetworkOk(Prefix(g)) && NetworkOk(Prefix(h)) && NetworkKey(Prefix(g)) == NetworkKey(Prefix(h))
    ensures g == h
  {
    HexOfTexts(g);
    HexOfTexts(h);
    var x, y := JoinAll(HexOf(g)), JoinAll(HexOf(h));
    assert (x + "::/64")[..|x + "::/64"| - 5] == x;
    assert (y + "::/64")[..|y + "::/64"| - 5] == y;
    FieldsOfJoin(HexOf(g));
    FieldsOfJoin(HexOf(h));
  }

  lemma HostIsNoPrefix(o: Octets, g: seq<nat>)
    requires OctetsOk(o)
    ensures Dotted(o) != NetworkKey(Prefix(g))
  {
    DottedSplits(o);
    assert NetworkKey(Prefix(g))[|JoinAll(HexOf(g))|] == ':';
  }

  /** Two clients share a key exactly when they share an IPv4 address, direct or mapped, or a /64. */
  lemma KeysEqualExactly(c: Client, d: Client)
    requires ClientOk(c) && ClientOk(d)
    ensures ClientIpKey(Some(AddressText(c))) == ClientIpKey(Some(AddressText(d))) <==> NetworkOf(c) == NetworkOf(d)
    ensures NetworkOf(c) == NetworkOf(d) <==> exists n :: OfNetwork(c, n) && OfNetwork(d, n)
  {
    NetworkIs(c, NetworkOf(c));
    forall n
      ensures OfNetwork(c, n) && OfNetwork(d, n) <==> n == NetworkOf(c) && n == NetworkOf(d)
    {
      NetworkIs(c, n);
      NetworkIs(d, n);
    }
    KeyIsOfNetwork(c);
    KeyIsOfNetwork(d);
    NetworkOfIsOk(c);
    NetworkOfIsOk(d);
    if NetworkKey(NetworkOf(c)) == NetworkKey(NetworkOf(d)) {
      match (NetworkOf(c), NetworkOf(d))
      case (Host(o), Host(p)) => HostKeys(o, p);
      case (Prefix(g), Prefix(h)) => PrefixKeys(g, h);
      case (Host(o), Prefix(h)) => HostIsNoPrefix(o, h);
      case (Prefix(g), Host(p)) => HostIsNoPrefix(p, g);
    }
  }
}
