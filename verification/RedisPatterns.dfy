/** Redis glob patterns made of literal text and `*`, against keys made of fields. */
module RedisPatterns {
  import opened Common
  import opened Text
  import opened PercentEncoding
  import opened CacheKeys

  /** `*` stands for any text, colons included. */
  predicate Matches(pattern: string, s: string)
    decreases |pattern| + |s|
  {
    if pattern == "" then s == ""
    else if pattern[0] == '*' then Matches(pattern[1..], s) || (s != "" && Matches(pattern, s[1..]))
    else s != "" && s[0] == pattern[0] && Matches(pattern[1..], s[1..])
  }

  lemma {:induction false} LiteralThen(a: string, p: string, s: string)
    requires '*' !in a
    ensures Matches(a + p, s) <==> a <= s && Matches(p, s[|a|..])
  {
    if a == "" {
      assert a + p == p;
    } else {
      assert (a + p)[1..] == a[1..] + p && (a + p)[0] == a[0] && '*' !in a[1..];
      if s != "" {
        LiteralThen(a[1..], p, s[1..]);
        PrefixTail(a, s);
      }
    }
  }

  lemma PrefixTail(a: string, s: string)
    requires a != "" && s != ""
    ensures a <= s <==> a[0] == s[0] && a[1..] <= s[1..]
    ensures a <= s ==> s[1..][|a| - 1..] == s[|a|..]
  {
    if a[0] == s[0] && a[1..] <= s[1..] {
      assert a == [a[0]] + a[1..] && s == [s[0]] + s[1..];
    }
    if a <= s {
      assert a[1..] == s[..|a|][1..] == s[1..][..|a| - 1];
    }
  }

  lemma {:induction false} StarSkips(p: string, s: string)
    ensures Matches("*" + p, s) <==> exists k :: 0 <= k <= |s| && Matches(p, s[k..])
    decreases |s|
  {
    var pattern := "*" + p;
    assert pattern[1..] == p && s[0..] == s;
    if s != "" {
      StarSkips(p, s[1..]);
      assert forall k :: 0 <= k < |s| ==> s[1..][k..] == s[k + 1..];
      if k :| 0 <= k <= |s| && Matches(p, s[k..]) {
        assert k > 0 ==> Matches(p, s[1..][k - 1..]);
      }
    }
  }

  lemma {:induction false} StarTakesAll(s: string)
    ensures Matches("*", s)
    decreases |s|
  {
    assert "*"[1..] == "";
    if s != "" {
      StarTakesAll(s[1..]);
    }
  }

  lemma PrefixPattern(a: string, s: string)
    requires '*' !in a
    ensures Matches(a + "*", s) <==> a <= s
  {
    LiteralThen(a, "*", s);
    if a <= s {
      StarTakesAll(s[|a|..]);
    }
  }

  predicate OccursAt(b: string, s: string, k: int) {
    0 <= k <= |s| && b <= s[k..]
  }

  lemma StarThen(b: string, t: string)
    requires '*' !in b
    ensures Matches("*" + (b + "*"), t) <==> exists k :: OccursAt(b, t, k)
  {
    StarSkips(b + "*", t);
    forall k | 0 <= k <= |t|
      ensures Matches(b + "*", t[k..]) <==> OccursAt(b, t, k)
    {
      PrefixPattern(b, t[k..]);
    }
  }

  lemma OccursShifted(b: string, s: string, n: nat)
    requires n <= |s|
    ensures (exists k :: OccursAt(b, s[n..], k)) <==> exists k :: n <= k && OccursAt(b, s, k)
  {
    forall k | 0 <= k <= |s| - n
      ensures s[n..][k..] == s[n + k..]
    {
    }
    if k :| OccursAt(b, s[n..], k) {
      assert OccursAt(b, s, n + k);
    }
    if k :| n <= k && OccursAt(b, s, k) {
      assert OccursAt(b, s[n..], k - n);
    }
  }

  /** `a*b*`: the text `a`, anything, the text `b`, anything. */
  lemma TwoStars(a: string, b: string, s: string)
    requires '*' !in a && '*' !in b
    ensures Matches(a + ("*" + (b + "*")), s) <==> a <= s && exists k :: |a| <= k && OccursAt(b, s, k)
  {
    LiteralThen(a, "*" + (b + "*"), s);
    if a <= s {
      StarThen(b, s[|a|..]);
      OccursShifted(b, s, |a|);
    }
  }

  // ---- Fields.

  lemma JoinedBegins(fields: seq<string>, key: seq<string>, rest: string)
    requires fields != [] && key != [] && NoneHolds(fields, ':') && NoneHolds(key, ':')
    requires Join(key, ':') == Join(fields, ':') + [':'] + rest
    ensures key == fields + Split(rest, ':')
  {
    SplitConcat(Join(fields, ':'), ':', rest);
    SplitOfJoin(fields, ':');
    SplitOfJoin(key, ':');
  }

  /** A key begins with these fields and a colon exactly when its own first fields are these. */
  lemma FieldsBegin(fields: seq<string>, key: seq<string>)
    requires fields != [] && key != [] && NoneHolds(fields, ':') && NoneHolds(key, ':')
    ensures Join(fields, ':') + ":" <= Join(key, ':') <==> |key| > |fields| && key[..|fields|] == fields
  {
    var start, s := Join(fields, ':') + [':'], Join(key, ':');
    if start <= s {
      RestAfter(start, s);
      JoinedBegins(fields, key, s[|start|..]);
    } else if |key| > |fields| && key[..|fields|] == fields {
      JoinedAfter(fields, key);
    }
  }

  lemma RestAfter(start: string, s: string)
    requires start <= s
    ensures s == start + s[|start|..]
  {
  }

  lemma JoinedAfter(fields: seq<string>, key: seq<string>)
    requires fields != [] && |key| > |fields| && key[..|fields|] == fields
    ensures Join(key, ':') == Join(fields, ':') + [':'] + Join(key[|fields|..], ':')
  {
    JoinAppend(fields, key[|fields|..], ':');
    assert key == fields + key[|fields|..];
  }

  /** `<fields>:*` names exactly the longer keys that begin with those fields. */
  lemma FieldPattern(fields: seq<string>, key: seq<string>)
    requires fields != [] && key != [] && NoneHolds(fields, ':') && NoneHolds(key, ':') && NoneHolds(fields, '*')
    ensures Matches(Join(fields, ':') + ":*", Join(key, ':')) <==> |key| > |fields| && key[..|fields|] == fields
  {
    JoinLacks(fields, ':', '*');
    assert Join(fields, ':') + ":*" == Join(fields, ':') + ":" + "*";
    PrefixPattern(Join(fields, ':') + ":", Join(key, ':'));
    FieldsBegin(fields, key);
  }

  // ---- The pattern of a user's cursor keys.

  function CursorPattern(feature: string, user: string, org: string): string {
    CursorCacheNamespace(feature, "*") + ":" + user + ":org:" + org + ":*"
  }

  predicate PatternOk(feature: string, user: string, org: string) {
    && Field(Slug(feature)) && '*' !in Slug(feature) && Plain(user) && Plain(org)
  }

  predicate HoldsAt(key: seq<string>, i: int, user: string, org: string) {
    3 <= i && i + 3 < |key| && key[i] == user && key[i + 1] == "org" && key[i + 2] == org
  }

  predicate NamesFeature(key: seq<string>, feature: string) {
    |key| > 2 && key[0] == "cursor" && key[1] == Slug(feature) && "v" <= key[2]
  }

  function Before(feature: string): string {
    "cursor:" + Slug(feature) + ":v"
  }

  function Owner(user: string, org: string): string {
    ":" + user + ":org:" + org + ":"
  }

  lemma Regroup(x: string, user: string, org: string)
    ensures (x + "*") + ":" + user + ":org:" + org + ":*" == x + ("*" + (Owner(user, org) + "*"))
  {
    assert ":*" == ":" + "*";
  }

  lemma PatternIs(feature: string, user: string, org: string)
    ensures CursorPattern(feature, user, org) == Before(feature) + ("*" + (Owner(user, org) + "*"))
  {
    assert CursorCacheNamespace(feature, "*") == Before(feature) + "*";
    Regroup(Before(feature), user, org);
  }

  lemma NotInAppend(c: char, a: string, b: string)
    requires c !in a && c !in b
    ensures c !in a + b
  {
  }

  lemma NoStars(feature: string, user: string, org: string)
    requires PatternOk(feature, user, org)
    ensures '*' !in Before(feature) && '*' !in Owner(user, org)
  {
    PlainSegment(user);
    PlainSegment(org);
    NotInAppend('*', "cursor:", Slug(feature));
    NotInAppend('*', "cursor:" + Slug(feature), ":v");
    NotInAppend('*', ":", user);
    NotInAppend('*', ":" + user, ":org:");
    NotInAppend('*', ":" + user + ":org:", org);
    NotInAppend('*', ":" + user + ":org:" + org, ":");
  }

  lemma PatternParts(feature: string, user: string, org: string, s: string)
    requires PatternOk(feature, user, org)
    ensures Matches(CursorPattern(feature, user, org), s)
            <==> Before(feature) <= s && exists k :: |Before(feature)| <= k && OccursAt(Owner(user, org), s, k)
  {
    PatternIs(feature, user, org);
    NoStars(feature, user, org);
    TwoStars(Before(feature), Owner(user, org), s);
  }

  lemma HeadOfKey(slug: string, rest: string)
    requires Field(slug)
    ensures ("cursor:" + slug + ":v") + rest == Join(["cursor", slug], ':') + [':'] + ("v" + rest)
    ensures NoneHolds(["cursor", slug], ':')
  {
    JoinPair("cursor", slug, ':');
    assert "cursor:" == "cursor" + [':'] && ":v" == [':'] + "v";
  }

  lemma OwnerOfKey(middle: string, user: string, org: string, rest: string)
    ensures middle + (Owner(user, org) + rest) == middle + [':'] + (Join([user, "org", org], ':') + [':'] + rest)
  {
    JoinThree(user, "org", org, ':');
    assert ":org:" == [':'] + "org" + [':'];
  }

  lemma SplitParts(slug: string, middle: string, user: string, org: string, rest: string)
    requires Field(slug) && Plain(user) && Plain(org)
    ensures Split(("cursor:" + slug + ":v") + (middle + (Owner(user, org) + rest)), ':')
         == ["cursor", slug] + (Split("v" + middle, ':') + ([user, "org", org] + Split(rest, ':')))
  {
    PlainSegment(user);
    PlainSegment(org);
    OwnerOfKey(middle, user, org, rest);
    HeadOfKey(slug, middle + (Owner(user, org) + rest));
    SplitThree(["cursor", slug], middle, [user, "org", org], rest);
  }

  lemma SplitThree(head: seq<string>, middle: string, owner: seq<string>, rest: string)
    requires head != [] && owner != [] && NoneHolds(head, ':') && NoneHolds(owner, ':')
    ensures Split(Join(head, ':') + [':'] + ("v" + (middle + [':'] + (Join(owner, ':') + [':'] + rest))), ':')
         == head + (Split("v" + middle, ':') + (owner + Split(rest, ':')))
  {
    var tail := Join(owner, ':') + [':'] + rest;
    assert "v" + (middle + [':'] + tail) == ("v" + middle) + [':'] + tail;
    SplitConcat(Join(head, ':'), ':', "v" + (middle + [':'] + tail));
    SplitConcat("v" + middle, ':', tail);
    SplitConcat(Join(owner, ':'), ':', rest);
    SplitOfJoin(head, ':');
    SplitOfJoin(owner, ':');
  }

  lemma CutAt(s: string, a: string, b: string, k: nat)
    requires a <= s && |a| <= k && OccursAt(b, s, k)
    ensures s == a + (s[|a|..k] + (b + s[k + |b|..]))
  {
    assert s[k..] == b + s[k..][|b|..];
    assert s == a + s[|a|..];
  }

  /** What is between the stars begins a field, so the user and organization are whole fields. */
  lemma MatchedFields(feature: string, user: string, org: string, key: seq<string>, k: nat)
    requires PatternOk(feature, user, org) && key != [] && NoneHolds(key, ':')
    requires Before(feature) <= Join(key, ':') && |Before(feature)| <= k && OccursAt(Owner(user, org), Join(key, ':'), k)
    ensures NamesFeature(key, feature) && exists i :: HoldsAt(key, i, user, org)
  {
    var s, a, b := Join(key, ':'), Before(feature), Owner(user, org);
    var middle, rest := s[|a|..k], s[k + |b|..];
    CutAt(s, a, b, k);
    SplitParts(Slug(feature), middle, user, org, rest);
    SplitOfJoin(key, ':');
    FieldsPlaced(feature, user, org, key, Split("v" + middle, ':'), Split(rest, ':'));
    FirstFieldBegins("v", middle);
  }

  lemma FieldsPlaced(feature: string, user: string, org: string, key: seq<string>, version: seq<string>, rest: seq<string>)
    requires version != [] && rest != []
    requires key == ["cursor", Slug(feature)] + (version + ([user, "org", org] + rest))
    ensures key[0] == "cursor" && key[1] == Slug(feature) && key[2] == version[0]
    ensures HoldsAt(key, 2 + |version|, user, org)
  {
    var i := 2 + |version|;
    assert key[i] == user && key[i + 1] == "org" && key[i + 2] == org;
  }

  lemma FirstFieldBegins(v: string, rest: string)
    requires |v| == 1 && ':' !in v
    ensures v <= Split(v + rest, ':')[0]
  {
    var s := v + rest;
    if ':' in s {
      var i := IndexOf(s, ':');
      assert i > 0 && s[..i][..1] == v;
    }
  }

  lemma FieldsMatch(feature: string, user: string, org: string, key: seq<string>)
    requires PatternOk(feature, user, org) && NamesFeature(key, feature) && HoldsAt(key, 3, user, org)
    ensures Matches(CursorPattern(feature, user, org), Join(key, ':'))
  {
    var middle, rest := key[2][1..], Join(key[6..], ':');
    assert key == [key[0], key[1]] + ([key[2]] + ([user, "org", org] + key[6..]));
    JoinAppend([key[0], key[1]], [key[2]] + ([user, "org", org] + key[6..]), ':');
    JoinAppend([key[2]], [user, "org", org] + key[6..], ':');
    JoinAppend([user, "org", org], key[6..], ':');
    assert key[2] == "v" + middle;
    var tail := middle + (Owner(user, org) + rest);
    OwnerOfKey(middle, user, org, rest);
    HeadOfKey(Slug(feature), tail);
    assert "v" + tail == key[2] + [':'] + (Join([user, "org", org], ':') + [':'] + rest);
    var s := Before(feature) + tail;
    assert s == Join(key, ':');
    var k := |Before(feature)| + |middle|;
    assert s[k..] == Owner(user, org) + rest;
    assert OccursAt(Owner(user, org), s, k);
    PatternParts(feature, user, org, s);
  }

  /** The labels are none of the ids. */
  predicate IdsAreNoLabels(input: CursorInput, user: string) {
    user != "org" && forall i :: 0 <= i < |input.segments| ==> input.segments[i].name != user && input.segments[i].name != "org"
  }

  /**
   * The pattern of a user's lists names exactly the keys of that feature, user and organization, at
   * any version.
   */
  lemma CursorPatternExactly(feature: string, user: string, org: string, input: CursorInput)
    requires PatternOk(feature, user, org) && InputOk(input) && Version(input) != "" && input.segments != []
    requires IdsAreNoLabels(input, user)
    ensures Matches(CursorPattern(feature, user, org), CursorKey(input))
            <==> Slug(input.feature) == Slug(feature) && NormalizeSegmentValue(input.userId) == user
                 && NormalizeSegmentValue(input.organizationId) == org
  {
    var key := CursorFields(input);
    InputFields(input);
    SegmentsAreFields(input.segments);
    PatternParts(feature, user, org, Join(key, ':'));
    assert key[0] == "cursor" && key[1] == Slug(input.feature) && key[2] == "v" + StripV(Version(input));
    assert key[3] == NormalizeSegmentValue(input.userId) && key[4] == "org" && key[5] == NormalizeSegmentValue(input.organizationId);
    if Matches(CursorPattern(feature, user, org), CursorKey(input)) {
      var k :| |Before(feature)| <= k && OccursAt(Owner(user, org), Join(key, ':'), k);
      MatchedFields(feature, user, org, key, k);
      var i :| HoldsAt(key, i, user, org);
      OnlyTheUser(input, i, user, org);
    } else if Slug(input.feature) == Slug(feature) && key[3] == user && key[5] == org {
      FieldsMatch(feature, user, org, key);
    }
  }

  lemma NoIdAmongLabels(input: CursorInput, user: string)
    requires InputOk(input) && Version(input) != "" && IdsAreNoLabels(input, user)
    ensures var key := CursorFields(input);
            forall j :: 6 <= j < |key| && j % 2 == 0 ==> key[j] != user && key[j] != "org"
  {
    var key := CursorFields(input);
    SegmentsAreFields(input.segments);
    forall j | 6 <= j < |key| && j % 2 == 0
      ensures key[j] != user && key[j] != "org"
    {
      var f := (j - 6) / 2;
      HalfOfEven(j - 6, f);
      LabelAt(input, j, f);
    }
  }

  lemma HalfOfEven(n: int, f: int)
    requires n >= 0 && n % 2 == 0 && f == n / 2
    ensures n == 2 * f
  {
  }

  lemma LabelAt(input: CursorInput, j: int, f: int)
    requires InputOk(input) && Version(input) != "" && j == 6 + 2 * f && 0 <= f < |input.segments|
    ensures j < |CursorFields(input)| && CursorFields(input)[j] == input.segments[f].name
  {
    SegmentAt(input.segments, f);
  }

  lemma OnlyTheUser(input: CursorInput, i: int, user: string, org: string)
    requires InputOk(input) && Version(input) != "" && IdsAreNoLabels(input, user)
    requires HoldsAt(CursorFields(input), i, user, org)
    ensures i == 3
  {
    NoIdAmongLabels(input, user);
  }
}
