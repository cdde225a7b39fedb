/** Cursor cache keys (keys.ts) and the Redis patterns that name them. */
module CacheKeys {
  import opened Common
  import opened Text
  import opened PercentEncoding

  // ---- Segments.

  /** A segment's value; a number is the text String() gives it, and NaN and the infinities are NotFinite. */
  datatype Value = Missing | Truth(b: bool) | Number(text: string) | NotFinite | Words(s: string)

  predicate NumberText(s: string) {
    s != "" && forall i :: 0 <= i < |s| ==> '0' <= s[i] <= '9' || s[i] in "+-.e"
  }

  predicate ValueOk(v: Value) {
    v.Number? ==> NumberText(v.text)
  }

  function NormalizeSegmentValue(v: Value): string {
    match v
    case Missing => "_"
    case NotFinite => "_"
    case Truth(b) => if b then "1" else "0"
    case Number(text) => text
    case Words(s) => if Trim(s) == "" then "_" else Encode(Trim(s))
  }

  /** A segment never breaks the key apart, and is never empty. */
  lemma NormalizedIsOneField(v: Value)
    requires ValueOk(v)
    ensures var s := NormalizeSegmentValue(v);
            s != "" && ':' !in s && '*' !in s
  {
    if v.Words? {
      EncodedIsSafe(Trim(v.s));
    }
  }

  /** Texts share a segment exactly when they are the same but for blanks around them; `_` is for none. */
  lemma WordsShareExactly(s: string, t: string)
    ensures NormalizeSegmentValue(Words(s)) == NormalizeSegmentValue(Words(t)) <==> Trim(s) == Trim(t)
    ensures NormalizeSegmentValue(Words(s)) == NormalizeSegmentValue(Missing) <==> Trim(s) == ""
  {
    EncodedIsSafe(Trim(s));
    EncodedIsSafe(Trim(t));
    if Trim(s) != "" && Trim(t) != "" && Encode(Trim(s)) == Encode(Trim(t)) {
      EncodeInjective(Trim(s), Trim(t));
    }
    assert '_' in "_";
  }

  lemma PlainIsNotWhite(c: char)
    requires Unreserved(c)
    ensures !White(c)
  {
  }

  /** An id is its own segment, so a pattern may name it. */
  lemma PlainSegment(s: string)
    requires Plain(s)
    ensures NormalizeSegmentValue(Words(s)) == s && ':' !in s && '*' !in s
  {
    PlainIsNotWhite(s[0]);
    PlainIsNotWhite(s[|s| - 1]);
    PlainUnchanged(s);
    EncodedIsSafe(s);
  }

  /** A flag shares its segment with the digit 1 or 0, and with no other text. */
  lemma TruthIsItsDigit(b: bool, s: string)
    ensures NormalizeSegmentValue(Words(s)) == NormalizeSegmentValue(Truth(b)) <==> Trim(s) == if b then "1" else "0"
  {
    var digit := if b then "1" else "0";
    PlainSegment(digit);
    DigitTrim(digit);
    WordsShareExactly(s, digit);
  }

  lemma DigitTrim(digit: string)
    requires |digit| == 1 && !White(digit[0])
    ensures Trim(digit) == digit
  {
  }

  // ---- The key.

  datatype Segment = Segment(name: string, value: Value)

  datatype CursorInput = CursorInput(feature: string, version: Option<string>, userId: Value, organizationId: Value, segments: seq<Segment>)

  function Collapse(s: string): string {
    if s == "" then ""
    else if !White(s[0]) then [s[0]] + Collapse(s[1..])
    else if |s| > 1 && White(s[1]) then Collapse(s[1..])
    else "-" + Collapse(s[1..])
  }

  function Slug(feature: string): string {
    Collapse(Trim(feature))
  }

  function StripV(version: string): string {
    if version != "" && (version[0] == 'v' || version[0] == 'V') then version[1..] else version
  }

  function CursorCacheNamespace(feature: string, version: string): string {
    if version == "" then "cursor:" + Slug(feature) else "cursor:" + Slug(feature) + ":v" + StripV(version)
  }

  function NamespaceFields(feature: string, version: string): seq<string> {
    if version == "" then ["cursor", Slug(feature)] else ["cursor", Slug(feature), "v" + StripV(version)]
  }

  function SegmentFields(segments: seq<Segment>): seq<string> {
    if segments == [] then []
    else
      var last := segments[|segments| - 1];
      SegmentFields(segments[..|segments| - 1]) + [last.name, NormalizeSegmentValue(last.value)]
  }

  function Version(input: CursorInput): string {
    if input.version.None? then "1" else input.version.value
  }

  /** The key's fields, between its colons. */
  function CursorFields(input: CursorInput): seq<string> {
    NamespaceFields(input.feature, Version(input))
    + [NormalizeSegmentValue(input.userId), "org", NormalizeSegmentValue(input.organizationId)]
    + SegmentFields(input.segments)
  }

  function CursorKey(input: CursorInput): string {
    Join(CursorFields(input), ':')
  }

  lemma NamespaceIsItsFields(feature: string, version: string)
    ensures CursorCacheNamespace(feature, version) == Join(NamespaceFields(feature, version), ':')
  {
    JoinPair("cursor", Slug(feature), ':');
    JoinThree("cursor", Slug(feature), "v" + StripV(version), ':');
  }

  lemma KeyStart(parts: seq<string>, fields: seq<string>, namespace: string, user: string, org: string)
    requires fields != [] && namespace == Join(fields, ':')
    requires parts == [namespace, user, "org:" + org]
    ensures Join(parts, ':') == Join(fields + [user, "org", org], ':')
  {
    JoinThree(namespace, user, "org:" + org, ':');
    JoinThree(user, "org", org, ':');
    JoinAppend(fields, [user, "org", org], ':');
  }

  lemma KeyMore(parts: seq<string>, fields: seq<string>, name: string, value: string)
    requires parts != [] && fields != [] && Join(parts, ':') == Join(fields, ':')
    ensures Join(parts + [name + ":" + value], ':') == Join(fields + [name, value], ':')
  {
    JoinAppend(parts, [name + ":" + value], ':');
    JoinAppend(fields, [name, value], ':');
    JoinPair(name, value, ':');
  }

  method BuildCursorCacheKey(input: CursorInput) returns (key: string)
    ensures key == CursorKey(input)
  {
    var safeUser := NormalizeSegmentValue(input.userId);
    var safeOrg := NormalizeSegmentValue(input.organizationId);
    var parts := [CursorCacheNamespace(input.feature, Version(input)), safeUser, "org:" + safeOrg];
    ghost var start := NamespaceFields(input.feature, Version(input)) + [safeUser, "org", safeOrg];
    NamespaceIsItsFields(input.feature, Version(input));
    KeyStart(parts, NamespaceFields(input.feature, Version(input)), parts[0], safeUser, safeOrg);
    var n := 0;
    assert start + [] == start;
    while n < |input.segments|
      invariant 0 <= n <= |input.segments| && parts != []
      invariant Join(parts, ':') == Join(start + SegmentFields(input.segments[..n]), ':')
    {
      var segment := input.segments[n];
      var value := NormalizeSegmentValue(segment.value);
      KeyMore(parts, start + SegmentFields(input.segments[..n]), segment.name, value);
      parts := parts + [segment.name + ":" + value];
      assert input.segments[..n + 1][..n] == input.segments[..n];
      assert start + SegmentFields(input.segments[..n]) + [segment.name, value] == start + SegmentFields(input.segments[..n + 1]);
      n := n + 1;
    }
    assert input.segments[..n] == input.segments;
    key := Join(parts, ':');
  }

  lemma FirstFields(input: CursorInput)
    requires Version(input) != ""
    ensures |CursorFields(input)| == 6 + |SegmentFields(input.segments)|
    ensures CursorFields(input)[..6]
         == ["cursor", Slug(input.feature), "v" + StripV(Version(input)),
             NormalizeSegmentValue(input.userId), "org", NormalizeSegmentValue(input.organizationId)]
  {
  }

  // ---- How the namespace is spelled.

  predicate Blanks(s: string) {
    forall i :: 0 <= i < |s| ==> White(s[i])
  }

  predicate Word(s: string) {
    s != "" && forall i :: 0 <= i < |s| ==> !White(s[i])
  }

  /** The words with a run of blanks between each two. */
  function Spaced(words: seq<string>, runs: seq<string>): string
    requires |words| > 0 && |runs| == |words| - 1
  {
    if |words| == 1 then words[0] else words[0] + (runs[0] + Spaced(words[1..], runs[1..]))
  }

  lemma {:induction false} CollapseWord(word: string, rest: string)
    requires forall i :: 0 <= i < |word| ==> !White(word[i])
    ensures Collapse(word + rest) == word + Collapse(rest)
  {
    if word == "" {
      assert word + rest == rest;
    } else {
      CollapseWord(word[1..], rest);
      assert (word + rest)[1..] == word[1..] + rest;
    }
  }

  lemma {:induction false} CollapseRun(run: string, rest: string)
    requires run != "" && Blanks(run) && rest != "" && !White(rest[0])
    ensures Collapse(run + rest) == "-" + Collapse(rest)
  {
    var s := run + rest;
    if |run| == 1 {
      assert s[1..] == rest;
    } else {
      CollapseRun(run[1..], rest);
      assert s[1..] == run[1..] + rest;
      assert s[1] == run[1];
    }
  }

  lemma {:induction false} CollapseSpaced(words: seq<string>, runs: seq<string>)
    requires |words| > 0 && |runs| == |words| - 1
    requires (forall i :: 0 <= i < |words| ==> Word(words[i])) && forall i :: 0 <= i < |runs| ==> runs[i] != "" && Blanks(runs[i])
    ensures Spaced(words, runs) != "" && !White(Spaced(words, runs)[0])
    ensures !White(Spaced(words, runs)[|Spaced(words, runs)| - 1])
    ensures Collapse(Spaced(words, runs)) == Join(words, '-')
  {
    assert Word(words[0]);
    if |words| == 1 {
      CollapseWord(words[0], "");
      assert words[0] + "" == words[0];
    } else {
      var rest := Spaced(words[1..], runs[1..]);
      CollapseSpaced(words[1..], runs[1..]);
      CollapseWord(words[0], runs[0] + rest);
      CollapseRun(runs[0], rest);
    }
  }

  lemma {:induction false} StartTrimmed(blanks: string, rest: string)
    requires Blanks(blanks) && rest != "" && !White(rest[0])
    ensures TrimStart(blanks + rest) == rest
  {
    if blanks == "" {
      assert blanks + rest == rest;
    } else {
      StartTrimmed(blanks[1..], rest);
      assert (blanks + rest)[1..] == blanks[1..] + rest;
    }
  }

  lemma {:induction false} EndTrimmed(rest: string, blanks: string)
    requires Blanks(blanks) && rest != "" && !White(rest[|rest| - 1])
    ensures TrimEnd(rest + blanks) == rest
  {
    var s := rest + blanks;
    if blanks == "" {
      assert s == rest;
    } else {
      EndTrimmed(rest, blanks[..|blanks| - 1]);
      assert s[..|s| - 1] == rest + blanks[..|blanks| - 1];
    }
  }

  /** A feature's words, whatever blanks are around and between them, are joined by single hyphens. */
  lemma SlugIs(before: string, words: seq<string>, runs: seq<string>, after: string)
    requires |words| > 0 && |runs| == |words| - 1 && Blanks(before) && Blanks(after)
    requires (forall i :: 0 <= i < |words| ==> Word(words[i])) && forall i :: 0 <= i < |runs| ==> runs[i] != "" && Blanks(runs[i])
    ensures Slug(before + (Spaced(words, runs) + after)) == Join(words, '-')
  {
    CollapseSpaced(words, runs);
    StartTrimmed(before, Spaced(words, runs) + after);
    EndTrimmed(Spaced(words, runs), after);
  }

  /** A version counts alike with a v, a V or neither; none is version 1, and only an empty one has no field. */
  lemma VersionField(input: CursorInput, number: string)
    requires number != "" && number[0] != 'v' && number[0] != 'V'
    requires input.version in {Some(number), Some("v" + number), Some("V" + number)} || (input.version.None? && number == "1")
    ensures CursorFields(input)[..3] == ["cursor", Slug(input.feature), "v" + number]
    ensures CursorFields(input.(version := Some("")))[..2] == ["cursor", Slug(input.feature)]
    ensures CursorFields(input) == CursorFields(input)[..3] + CursorFields(input.(version := Some("")))[2..]
  {
    assert ("v" + number)[1..] == number && ("V" + number)[1..] == number;
  }

  predicate Field(s: string) {
    ':' !in s
  }

  /** Features, versions and labels are constants of the program. */
  predicate InputOk(input: CursorInput) {
    && Field(Slug(input.feature)) && Field(Version(input)) && ValueOk(input.userId) && ValueOk(input.organizationId)
    && forall i :: 0 <= i < |input.segments| ==> Field(input.segments[i].name) && ValueOk(input.segments[i].value)
  }

  lemma {:induction false} SegmentsAreFields(segments: seq<Segment>)
    requires forall i :: 0 <= i < |segments| ==> Field(segments[i].name) && ValueOk(segments[i].value)
    ensures NoneHolds(SegmentFields(segments), ':') && |SegmentFields(segments)| == 2 * |segments|
  {
    if segments != [] {
      SegmentsAreFields(segments[..|segments| - 1]);
      NormalizedIsOneField(segments[|segments| - 1].value);
    }
  }

  /** Each segment's label and value are two fields, in its place. */
  lemma {:induction false} SegmentAt(segments: seq<Segment>, i: nat)
    requires i < |segments|
    ensures |SegmentFields(segments)| == 2 * |segments|
    ensures SegmentFields(segments)[2 * i] == segments[i].name
    ensures SegmentFields(segments)[2 * i + 1] == NormalizeSegmentValue(segments[i].value)
  {
    var front := segments[..|segments| - 1];
    FieldCount(front);
    if i < |front| {
      SegmentAt(front, i);
    }
  }

  lemma {:induction false} FieldCount(segments: seq<Segment>)
    ensures |SegmentFields(segments)| == 2 * |segments|
  {
    if segments != [] {
      FieldCount(segments[..|segments| - 1]);
    }
  }

  lemma InputFields(input: CursorInput)
    requires InputOk(input)
    ensures NoneHolds(CursorFields(input), ':')
  {
    SegmentsAreFields(input.segments);
    NormalizedIsOneField(input.userId);
    NormalizedIsOneField(input.organizationId);
  }

  /** Keys are equal exactly when all their fields are. */
  lemma KeysEqualFields(a: CursorInput, b: CursorInput)
    requires InputOk(a) && InputOk(b)
    ensures CursorKey(a) == CursorKey(b) <==> CursorFields(a) == CursorFields(b)
  {
    InputFields(a);
    InputFields(b);
    if CursorKey(a) == CursorKey(b) {
      JoinInjective(CursorFields(a), CursorFields(b), ':');
    }
  }

  predicate SameLabels(a: CursorInput, b: CursorInput) {
    && a.feature == b.feature && a.version == b.version && |a.segments| == |b.segments|
    && forall i :: 0 <= i < |a.segments| ==> a.segments[i].name == b.segments[i].name
  }

  predicate SameValues(a: CursorInput, b: CursorInput)
    requires |a.segments| == |b.segments|
  {
    && NormalizeSegmentValue(a.userId) == NormalizeSegmentValue(b.userId)
    && NormalizeSegmentValue(a.organizationId) == NormalizeSegmentValue(b.organizationId)
    && forall i :: 0 <= i < |a.segments| ==>
         NormalizeSegmentValue(a.segments[i].value) == NormalizeSegmentValue(b.segments[i].value)
  }

  /** Two keys with the same labels are equal exactly when their normalized values are. */
  lemma KeysEqualExactly(a: CursorInput, b: CursorInput)
    requires InputOk(a) && InputOk(b) && SameLabels(a, b)
    ensures CursorKey(a) == CursorKey(b) <==> SameValues(a, b)
  {
    KeysEqualFields(a, b);
    SegmentsAreFields(a.segments);
    SegmentsAreFields(b.segments);
    var n := |NamespaceFields(a.feature, Version(a))|;
    if CursorFields(a) == CursorFields(b) {
      assert CursorFields(a)[n..n + 3] == CursorFields(b)[n..n + 3];
      assert CursorFields(a)[n + 3..] == SegmentFields(a.segments) == SegmentFields(b.segments) == CursorFields(b)[n + 3..];
      assert CursorFields(a)[n] == CursorFields(b)[n] && CursorFields(a)[n + 2] == CursorFields(b)[n + 2];
      forall i | 0 <= i < |a.segments|
        ensures NormalizeSegmentValue(a.segments[i].value) == NormalizeSegmentValue(b.segments[i].value)
      {
        SegmentAt(a.segments, i);
        SegmentAt(b.segments, i);
      }
    } else if SameValues(a, b) {
      SameSegmentFields(a.segments, b.segments);
    }
  }

  lemma {:induction false} SameSegmentFields(xs: seq<Segment>, ys: seq<Segment>)
    requires |xs| == |ys|
    requires forall i :: 0 <= i < |xs| ==>
               xs[i].name == ys[i].name && NormalizeSegmentValue(xs[i].value) == NormalizeSegmentValue(ys[i].value)
    ensures SegmentFields(xs) == SegmentFields(ys)
  {
    if xs != [] {
      SameSegmentFields(xs[..|xs| - 1], ys[..|ys| - 1]);
    }
  }
}
