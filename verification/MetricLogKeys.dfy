/**
 * The keys that metric-log reads are cached under, and the patterns a log write deletes:
 * cache-keys.ts, cache.constants.ts, MetricLogCacheRedis.ts, MetricCacheRedis.ts,
 * VisualizationCacheRedis.ts and VisualizationInvalidationAdapter.ts.
 */
module MetricLogKeys {
  import opened Common
  import opened Text
  import opened PercentEncoding
  import opened CacheKeys
  import opened RedisPatterns
  import opened MetricLogRequests

  function LowerChar(c: char): char {
    if 'A' <= c <= 'Z' then c - 'A' + 'a' else c
  }

  /** The spelling the database gives back. */
  function Lower(s: string): string {
    seq(|s|, i requires 0 <= i < |s| => LowerChar(s[i]))
  }

  predicate Spelled(s: string) {
    Lower(s) == s
  }

  /** The ids in the path and query are in lower case; a list's filter does not matter. */
  predicate LowerCase(r: Request) {
    match r
    case LogById(id, _) => Spelled(id)
    case Stats(metric, _, _) => metric.Some? ==> Spelled(metric.value)
    case MetricEntry(metricId, _, _) => Spelled(metricId)
    case Visualization(metricId, _) => Spelled(metricId)
    case _ => true
  }

  // ---- Keys.

  /** A list's segments; the filters are the feature's own two. */
  datatype ListValues = ListValues(
    limit: Value, sort: Value, q: Value, filter0: Value, filter1: Value, after: Value, includeTotal: Value)

  predicate ValuesOk(v: ListValues) {
    && ValueOk(v.limit) && ValueOk(v.sort) && ValueOk(v.q) && ValueOk(v.filter0) && ValueOk(v.filter1)
    && ValueOk(v.after) && ValueOk(v.includeTotal)
  }

  function TextValue(o: Option<string>): Value {
    Words(if o.None? then "" else o.value)
  }

  function NumberValue(o: Option<string>): Value {
    if o.None? then Missing else Number(o.value)
  }

  function LogsValues(q: LogsQuery): ListValues {
    ListValues(Number(Decimal(q.limit)), Words(q.sort), TextValue(q.q), TextValue(q.metricId), NumberValue(q.logValue),
               TextValue(q.after), Truth(q.includeTotal))
  }

  function MetricsValues(q: MetricsQuery): ListValues {
    ListValues(Number(Decimal(q.limit)), Words(q.sort), TextValue(q.q), TextValue(q.name), TextValue(q.categoryId),
               TextValue(q.after), Truth(q.includeTotal))
  }

  function ListInput(feature: string, filter0: string, filter1: string, user: string, org: string, v: ListValues): CursorInput {
    CursorInput(feature, Some("4"), Words(user), Words(org), [
      Segment("l", v.limit), Segment("s", v.sort), Segment("q", v.q), Segment(filter0, v.filter0),
      Segment(filter1, v.filter1), Segment("after", v.after), Segment("it", v.includeTotal)])
  }

  function LogsInput(user: string, org: string, q: LogsQuery): CursorInput {
    ListInput("metric-logs", "fm", "fn", user, org, LogsValues(q))
  }

  function MetricsInput(user: string, org: string, q: MetricsQuery): CursorInput {
    ListInput("metrics", "fn", "fc", user, org, MetricsValues(q))
  }

  function StatsName(metric: Option<string>): string {
    if metric.None? then "all" else metric.value
  }

  function KeyFields(user: string, org: string, r: Request): seq<string> {
    match r
    case ListLogs(q) => CursorFields(LogsInput(user, org, q))
    case ListMetrics(q) => CursorFields(MetricsInput(user, org, q))
    case LogById(id, metricId) => ["log", org, user, id, "m", metricId]
    case Stats(metric, from, to) =>
      ["logStats", org, user, "m", StatsName(metric), "s", InstantText(from), "e", InstantText(to)]
    case MetricEntry(metricId, relations, limit) =>
      ["metric", org, user, metricId, "inc", RelationsText(MetricDetailIncludes(relations)), "ll", Decimal(LogsLimit(limit))]
    case Visualization(metricId, c) =>
      ["viz", org, user, metricId, BucketIso(c.bucket), Digest(ChartRaw(user, org, metricId, c))]
    case Dashboard(_, metricIds, c, version) =>
      ["vizdash", org, user, BucketIso(c.bucket), Digest(DashboardRaw(user, org, metricIds, c, VersionText(version)))]
  }

  function Key(user: string, org: string, r: Request): string {
    Join(KeyFields(user, org, r), ':')
  }

  // ---- Patterns.

  datatype Pattern = LogLists | StatsOf(name: string) | LogEntries(id: string) | Charts(metricId: string)
                   | Dashboards | MetricLists | MetricEntries(metricId: string)

  function PatternText(user: string, org: string, p: Pattern): string {
    match p
    case LogLists => CursorPattern("metric-logs", user, org)
    case StatsOf(name) => Join(["logStats", org, user, "m", name], ':') + ":*"
    case LogEntries(id) => Join(["log", org, user, id], ':') + ":*"
    case Charts(metricId) => Join(["viz", org, user, metricId], ':') + ":*"
    case Dashboards => Join(["vizdash", org, user], ':') + ":*"
    case MetricLists => CursorPattern("metrics", user, org)
    case MetricEntries(metricId) => Join(["metric", org, user, metricId], ':') + ":*"
  }

  /** What a write of a metric's log deletes; without a log id, no log's own entries. */
  function Footprint(metricId: string, logId: Option<string>): seq<Pattern> {
    [LogLists, StatsOf(metricId), StatsOf("all")]
    + (if logId.Some? then [LogEntries(logId.value)] else [])
    + [Charts(metricId), Dashboards, MetricLists, MetricEntries(metricId)]
  }

  predicate Deletes(user: string, org: string, patterns: seq<Pattern>, key: string) {
    exists p :: p in patterns && Matches(PatternText(user, org, p), key)
  }

  // ---- One entry per request.

  lemma IdIsPart(s: string)
    requires Id(s)
    ensures ':' !in s && '*' !in s && NormalizeSegmentValue(Words(s)) == s
  {
    PlainSegment(s);
  }

  lemma SlugsAre()
    ensures Slug("metric-logs") == "metric-logs" && Slug("metrics") == "metrics"
  {
    PlainTrim("metric-logs");
    PlainTrim("metrics");
    NoBlanks("metric-logs");
    NoBlanks("metrics");
  }

  lemma PlainTrim(s: string)
    requires Plain(s)
    ensures Trim(s) == s
  {
    PlainIsNotWhite(s[0]);
    PlainIsNotWhite(s[|s| - 1]);
  }

  lemma {:induction false} NoBlanks(s: string)
    requires forall i :: 0 <= i < |s| ==> Unreserved(s[i])
    ensures Collapse(s) == s
  {
    if s != "" {
      PlainIsNotWhite(s[0]);
      NoBlanks(s[1..]);
    }
  }

  lemma LogsValuesOk(q: LogsQuery)
    requires LogsQueryOk(q)
    ensures ValuesOk(LogsValues(q))
  {
    DecimalIsPart(q.limit);
  }

  lemma MetricsValuesOk(q: MetricsQuery)
    requires MetricsQueryOk(q)
    ensures ValuesOk(MetricsValues(q))
  {
    DecimalIsPart(q.limit);
  }

  lemma ListInputOk(feature: string, filter0: string, filter1: string, user: string, org: string, v: ListValues)
    requires ValuesOk(v) && Field(Slug(feature)) && Field(filter0) && Field(filter1)
    ensures InputOk(ListInput(feature, filter0, filter1, user, org, v))
  {
  }

  lemma ListHasFields(feature: string, filter0: string, filter1: string, user: string, org: string, v: ListValues)
    requires ValuesOk(v) && Field(Slug(feature)) && Field(filter0) && Field(filter1)
    ensures var fields := CursorFields(ListInput(feature, filter0, filter1, user, org, v));
            NoneHolds(fields, ':') && fields != []
  {
    ListInputOk(feature, filter0, filter1, user, org, v);
    InputFields(ListInput(feature, filter0, filter1, user, org, v));
    FirstFields(ListInput(feature, filter0, filter1, user, org, v));
  }

  lemma LiteralsAreParts()
    ensures Part("log") && Part("logStats") && Part("metric") && Part("viz") && Part("vizdash")
    ensures Part("m") && Part("all") && Part("s") && Part("e") && Part("inc") && Part("ll")
  {
  }

  predicate Unbroken(fields: seq<string>) {
    NoneHolds(fields, ':') && NoneHolds(fields, '*')
  }

  lemma NonePlus(fields: seq<string>, field: string)
    requires Unbroken(fields) && Part(field)
    ensures Unbroken(fields + [field])
  {
  }

  lemma FiveParts(a: string, b: string, c: string, d: string, e: string)
    requires Part(a) && Part(b) && Part(c) && Part(d) && Part(e)
    ensures Unbroken([a, b, c, d, e])
  {
  }

  lemma SixParts(a: string, b: string, c: string, d: string, e: string, f: string)
    requires Part(a) && Part(b) && Part(c) && Part(d) && Part(e) && Part(f)
    ensures Unbroken([a, b, c, d, e, f])
  {
    FiveParts(a, b, c, d, e);
    NonePlus([a, b, c, d, e], f);
  }

  lemma EightParts(a: string, b: string, c: string, d: string, e: string, f: string, g: string, h: string)
    requires Part(a) && Part(b) && Part(c) && Part(d) && Part(e) && Part(f) && Part(g) && Part(h)
    ensures Unbroken([a, b, c, d, e, f, g, h])
  {
    SixParts(a, b, c, d, e, f);
    NonePlus([a, b, c, d, e, f], g);
    NonePlus([a, b, c, d, e, f, g], h);
  }

  lemma NineParts(a: string, b: string, c: string, d: string, e: string, f: string, g: string, h: string, i: string)
    requires Part(a) && Part(b) && Part(c) && Part(d) && Part(e) && Part(f) && Part(g) && Part(h) && Part(i)
    ensures Unbroken([a, b, c, d, e, f, g, h, i])
  {
    EightParts(a, b, c, d, e, f, g, h);
    NonePlus([a, b, c, d, e, f, g, h], i);
  }

  lemma StatsNameIsPart(metric: Option<string>)
    requires metric.Some? ==> Id(metric.value)
    ensures Part(StatsName(metric))
  {
    if metric.Some? {
      IdIsPart(metric.value);
    }
  }

  lemma BucketIsPart(b: Bucket)
    ensures Part(BucketIso(b))
  {
  }

  lemma StatsFields(user: string, org: string, metric: Option<string>, from: Option<int>, to: Option<int>)
    requires Id(user) && Id(org) && (metric.Some? ==> Id(metric.value))
    ensures NoneHolds(KeyFields(user, org, Stats(metric, from, to)), ':')
  {
    IdIsPart(user);
    IdIsPart(org);
    LiteralsAreParts();
    StatsNameIsPart(metric);
    InstantIsPart(from);
    InstantIsPart(to);
    NineParts("logStats", org, user, "m", StatsName(metric), "s", InstantText(from), "e", InstantText(to));
  }

  lemma EntryFields(user: string, org: string, metricId: string, relations: Option<string>, limit: Option<nat>)
    requires Id(user) && Id(org) && Id(metricId)
    ensures NoneHolds(KeyFields(user, org, MetricEntry(metricId, relations, limit)), ':')
  {
    IdIsPart(user);
    IdIsPart(org);
    IdIsPart(metricId);
    LiteralsAreParts();
    RelationsArePart(MetricDetailIncludes(relations));
    DecimalIsPart(LogsLimit(limit));
    EightParts("metric", org, user, metricId, "inc", RelationsText(MetricDetailIncludes(relations)), "ll", Decimal(LogsLimit(limit)));
  }

  lemma ChartParts(user: string, org: string, metricId: string, bucket: string, digest: string)
    requires Id(user) && Id(org) && Id(metricId) && Part(bucket) && Part(digest)
    ensures Unbroken(["viz", org, user, metricId, bucket, digest]) && Unbroken(["vizdash", org, user, bucket, digest])
  {
    IdIsPart(user);
    IdIsPart(org);
    IdIsPart(metricId);
    LiteralsAreParts();
    SixParts("viz", org, user, metricId, bucket, digest);
    FiveParts("vizdash", org, user, bucket, digest);
  }

  lemma ChartFields(user: string, org: string, metricId: string, c: Chart)
    requires Id(user) && Id(org) && Id(metricId)
    ensures NoneHolds(KeyFields(user, org, Visualization(metricId, c)), ':')
  {
    BucketIsPart(c.bucket);
    DigestIsPart(ChartRaw(user, org, metricId, c));
    ChartParts(user, org, metricId, BucketIso(c.bucket), Digest(ChartRaw(user, org, metricId, c)));
  }

  lemma DashboardFields(user: string, org: string, r: Request)
    requires Id(user) && Id(org) && r.Dashboard?
    ensures NoneHolds(KeyFields(user, org, r), ':')
  {
    BucketIsPart(r.chart.bucket);
    var raw := DashboardRaw(user, org, r.metricIds, r.chart, VersionText(r.version));
    DigestIsPart(raw);
    ChartParts(user, org, user, BucketIso(r.chart.bucket), Digest(raw));
  }

  lemma LabelsAreFields()
    ensures Field(Slug("metric-logs")) && Field(Slug("metrics")) && Field("fm") && Field("fn") && Field("fc")
  {
    SlugsAre();
    FeaturesAreClean();
    LabelsAreShort();
  }

  lemma ListsHaveFields(user: string, org: string, r: Request)
    requires Id(user) && Id(org) && RequestOk(r) && Lists(r)
    ensures NoneHolds(KeyFields(user, org, r), ':') && KeyFields(user, org, r) != []
  {
    LabelsAreFields();
    match r
    case ListLogs(q) =>
      LogsValuesOk(q);
      ListHasFields("metric-logs", "fm", "fn", user, org, LogsValues(q));
    case ListMetrics(q) =>
      MetricsValuesOk(q);
      ListHasFields("metrics", "fn", "fc", user, org, MetricsValues(q));
  }

  lemma LogFields(user: string, org: string, id: string, metricId: string)
    requires Id(user) && Id(org) && Id(id) && Id(metricId)
    ensures NoneHolds(KeyFields(user, org, LogById(id, metricId)), ':')
  {
    IdIsPart(user);
    IdIsPart(org);
    IdIsPart(id);
    IdIsPart(metricId);
    LiteralsAreParts();
    SixParts("log", org, user, id, "m", metricId);
  }

  lemma KeyHasFields(user: string, org: string, r: Request)
    requires Id(user) && Id(org) && RequestOk(r)
    ensures NoneHolds(KeyFields(user, org, r), ':') && KeyFields(user, org, r) != []
  {
    match r
    case LogById(id, metricId) => LogFields(user, org, id, metricId);
    case Stats(metric, from, to) => StatsFields(user, org, metric, from, to);
    case MetricEntry(metricId, relations, limit) => EntryFields(user, org, metricId, relations, limit);
    case Visualization(metricId, c) => ChartFields(user, org, metricId, c);
    case Dashboard(_, _, _, _) => DashboardFields(user, org, r);
    case _ => ListsHaveFields(user, org, r);
  }

  /** What a request is about. */
  datatype Scope = AllLogs | OneLog(id: string) | OneMetric(metricId: string)

  function ScopeOf(r: Request): Scope {
    match r
    case LogById(id, _) => OneLog(Lower(id))
    case Stats(Some(metricId), _, _) => OneMetric(Lower(metricId))
    case MetricEntry(metricId, _, _) => OneMetric(Lower(metricId))
    case Visualization(metricId, _) => OneMetric(Lower(metricId))
    case _ => AllLogs
  }

  lemma ListFields(feature: string, filter0: string, filter1: string, user: string, org: string, v: ListValues)
    requires Id(user) && Id(org)
    ensures var fields := CursorFields(ListInput(feature, filter0, filter1, user, org, v));
            |fields| > 5 && fields[0] == "cursor" && fields[1] == Slug(feature) && fields[3] == user && fields[5] == org
  {
    IdIsPart(user);
    IdIsPart(org);
    var input := ListInput(feature, filter0, filter1, user, org, v);
    FirstFields(input);
    var six := CursorFields(input)[..6];
    assert six[0] == "cursor" && six[1] == Slug(feature) && six[3] == user && six[5] == org;
  }

  function KindOf(r: Request): (string, string) {
    match r
    case ListLogs(_) => ("cursor", "metric-logs")
    case ListMetrics(_) => ("cursor", "metrics")
    case LogById(_, _) => ("log", "")
    case Stats(_, _, _) => ("logStats", "")
    case MetricEntry(_, _, _) => ("metric", "")
    case Visualization(_, _) => ("viz", "")
    case Dashboard(_, _, _, _) => ("vizdash", "")
  }

  predicate Lists(r: Request) {
    r.ListLogs? || r.ListMetrics?
  }

  lemma ListsTell(user: string, org: string, r: Request)
    requires Id(user) && Id(org) && Lists(r)
    ensures var fields := KeyFields(user, org, r);
            |fields| > 5 && fields[0] == "cursor" && fields[1] == KindOf(r).1 && fields[3] == user && fields[5] == org
  {
    SlugsAre();
    match r
    case ListLogs(q) => ListFields("metric-logs", "fm", "fn", user, org, LogsValues(q));
    case ListMetrics(q) => ListFields("metrics", "fn", "fc", user, org, MetricsValues(q));
  }

  lemma StartsWith(fields: seq<string>, kind: string, org: string, user: string, rest: seq<string>)
    requires fields == [kind, org, user] + rest && |rest| >= 2
    ensures |fields| > 4 && fields[0] == kind && fields[1] == org && fields[2] == user
  {
  }

  lemma OthersTell(user: string, org: string, r: Request)
    requires !Lists(r)
    ensures var fields := KeyFields(user, org, r);
            |fields| > 4 && fields[0] == KindOf(r).0 != "cursor" && fields[1] == org && fields[2] == user
  {
    var fields := KeyFields(user, org, r);
    OtherKinds(r);
    match r
    case LogById(id, metricId) => StartsWith(fields, "log", org, user, fields[3..]);
    case Stats(_, _, _) => StartsWith(fields, "logStats", org, user, fields[3..]);
    case MetricEntry(_, _, _) => StartsWith(fields, "metric", org, user, fields[3..]);
    case Visualization(_, _) => StartsWith(fields, "viz", org, user, fields[3..]);
    case Dashboard(_, _, _, _) => StartsWith(fields, "vizdash", org, user, fields[3..]);
    case _ =>
  }

  lemma OtherKinds(r: Request)
    requires !Lists(r)
    ensures KindOf(r).0 != "cursor"
  {
  }

  lemma FieldsTell(user: string, org: string, r: Request)
    requires Id(user) && Id(org) && RequestOk(r)
    ensures var fields := KeyFields(user, org, r);
            && |fields| > 4 && fields[0] == KindOf(r).0
            && (KindOf(r).0 == "cursor" ==> |fields| > 5 && fields[1] == KindOf(r).1 && fields[3] == user && fields[5] == org)
            && (KindOf(r).0 != "cursor" ==> fields[1] == org && fields[2] == user)
  {
    if Lists(r) {
      ListsTell(user, org, r);
    } else {
      OthersTell(user, org, r);
    }
  }

  // ---- Equal keys, equal requests.

  function Seg(v: Value): string {
    NormalizeSegmentValue(v)
  }

  lemma TextsShare(o: Option<string>, p: Option<string>)
    ensures Seg(TextValue(o)) == Seg(TextValue(p)) <==> NormalText(o) == NormalText(p)
  {
    WordsShareExactly(if o.None? then "" else o.value, if p.None? then "" else p.value);
  }

  lemma TrimmedShare(o: Option<string>, p: Option<string>)
    requires (o.Some? ==> Trimmed(o.value)) && (p.Some? ==> Trimmed(p.value))
    ensures Seg(TextValue(o)) == Seg(TextValue(p)) <==> o == p
  {
    TextsShare(o, p);
  }

  lemma IdsShare(o: Option<string>, p: Option<string>)
    requires (o.Some? ==> Id(o.value)) && (p.Some? ==> Id(p.value))
    ensures Seg(TextValue(o)) == Seg(TextValue(p)) <==> o == p
  {
    if o.Some? {
      PlainTrim(o.value);
    }
    if p.Some? {
      PlainTrim(p.value);
    }
    TrimmedShare(o, p);
  }

  lemma NumberIsGiven(text: string)
    requires NumberText(text)
    ensures text != "_"
  {
    assert "_"[0] == '_';
  }

  lemma NumbersShare(o: Option<string>, p: Option<string>)
    requires (o.Some? ==> NumberText(o.value)) && (p.Some? ==> NumberText(p.value))
    ensures Seg(NumberValue(o)) == Seg(NumberValue(p)) <==> o == p
  {
    if o.Some? {
      NumberIsGiven(o.value);
    }
    if p.Some? {
      NumberIsGiven(p.value);
    }
  }

  lemma LimitsShare(m: nat, n: nat)
    ensures Decimal(m) == Decimal(n) <==> m == n
  {
    if Decimal(m) == Decimal(n) {
      NumeralInjective(m, n, 10);
    }
  }

  lemma TruthsShare(b: bool, c: bool)
    ensures Seg(Truth(b)) == Seg(Truth(c)) <==> b == c
  {
    assert "1"[0] != "0"[0];
  }

  predicate SameFirst(v: ListValues, v': ListValues) {
    Seg(v.limit) == Seg(v'.limit) && Seg(v.sort) == Seg(v'.sort) && Seg(v.q) == Seg(v'.q) && Seg(v.filter0) == Seg(v'.filter0)
  }

  predicate SameLast(v: ListValues, v': ListValues) {
    Seg(v.filter1) == Seg(v'.filter1) && Seg(v.after) == Seg(v'.after) && Seg(v.includeTotal) == Seg(v'.includeTotal)
  }

  predicate Holds(a: CursorInput, user: string, org: string, v: ListValues) {
    && a.userId == Words(user) && a.organizationId == Words(org) && |a.segments| == 7
    && a.segments[0].value == v.limit && a.segments[1].value == v.sort && a.segments[2].value == v.q
    && a.segments[3].value == v.filter0 && a.segments[4].value == v.filter1
    && a.segments[5].value == v.after && a.segments[6].value == v.includeTotal
  }

  lemma ListHolds(feature: string, filter0: string, filter1: string, user: string, org: string, v: ListValues)
    ensures Holds(ListInput(feature, filter0, filter1, user, org, v), user, org, v)
  {
  }

  lemma SevenValues(a: CursorInput, b: CursorInput,
                    user: string, org: string, v: ListValues, user': string, org': string, v': ListValues)
    requires Holds(a, user, org, v) && Holds(b, user', org', v') && SameValues(a, b)
    ensures SameFirst(v, v') && SameLast(v, v') && Seg(Words(user)) == Seg(Words(user')) && Seg(Words(org)) == Seg(Words(org'))
  {
  }

  lemma SevenSame(xs: seq<Segment>, ys: seq<Segment>)
    requires |xs| == 7 && |ys| == 7 && Seg(xs[0].value) == Seg(ys[0].value) && Seg(xs[1].value) == Seg(ys[1].value)
    requires Seg(xs[2].value) == Seg(ys[2].value) && Seg(xs[3].value) == Seg(ys[3].value) && Seg(xs[4].value) == Seg(ys[4].value)
    requires Seg(xs[5].value) == Seg(ys[5].value) && Seg(xs[6].value) == Seg(ys[6].value)
    ensures forall i :: 0 <= i < |xs| ==> Seg(xs[i].value) == Seg(ys[i].value)
  {
  }

  lemma SameLists(a: CursorInput, b: CursorInput,
                  user: string, org: string, v: ListValues, user': string, org': string, v': ListValues)
    requires Holds(a, user, org, v) && Holds(b, user', org', v')
    requires SameFirst(v, v') && SameLast(v, v') && Seg(Words(user)) == Seg(Words(user')) && Seg(Words(org)) == Seg(Words(org'))
    ensures SameValues(a, b)
  {
    SevenSame(a.segments, b.segments);
  }

  lemma SevenNames(xs: seq<Segment>, ys: seq<Segment>)
    requires |xs| == 7 && |ys| == 7 && xs[0].name == ys[0].name && xs[1].name == ys[1].name && xs[2].name == ys[2].name
    requires xs[3].name == ys[3].name && xs[4].name == ys[4].name && xs[5].name == ys[5].name && xs[6].name == ys[6].name
    ensures forall i :: 0 <= i < |xs| ==> xs[i].name == ys[i].name
  {
  }

  lemma SameLabelled(feature: string, filter0: string, filter1: string,
                     user: string, org: string, v: ListValues, user': string, org': string, v': ListValues)
    ensures SameLabels(ListInput(feature, filter0, filter1, user, org, v), ListInput(feature, filter0, filter1, user', org', v'))
  {
    var a, b := ListInput(feature, filter0, filter1, user, org, v), ListInput(feature, filter0, filter1, user', org', v');
    SevenNames(a.segments, b.segments);
  }

  lemma HeldShare(a: CursorInput, b: CursorInput,
                  user: string, org: string, v: ListValues, user': string, org': string, v': ListValues)
    requires Holds(a, user, org, v) && Holds(b, user', org', v') && InputOk(a) && InputOk(b) && SameLabels(a, b)
    requires Id(user) && Id(org) && Id(user') && Id(org')
    ensures CursorFields(a) == CursorFields(b) <==> user == user' && org == org' && SameFirst(v, v') && SameLast(v, v')
  {
    InputsShare(a, b);
    TenantsShare(user, user');
    TenantsShare(org, org');
    if SameValues(a, b) {
      SevenValues(a, b, user, org, v, user', org', v');
    } else if user == user' && org == org' && SameFirst(v, v') && SameLast(v, v') {
      SameLists(a, b, user, org, v, user', org', v');
    }
  }

  lemma InputsShare(a: CursorInput, b: CursorInput)
    requires InputOk(a) && InputOk(b) && SameLabels(a, b)
    ensures CursorFields(a) == CursorFields(b) <==> SameValues(a, b)
  {
    KeysEqualFields(a, b);
    KeysEqualExactly(a, b);
  }

  lemma TenantsShare(user: string, user': string)
    requires Id(user) && Id(user')
    ensures Seg(Words(user)) == Seg(Words(user')) <==> user == user'
  {
    IdIsPart(user);
    IdIsPart(user');
  }

  lemma ListsShare(feature: string, filter0: string, filter1: string,
                   user: string, org: string, v: ListValues, user': string, org': string, v': ListValues)
    requires Id(user) && Id(org) && Id(user') && Id(org') && ValuesOk(v) && ValuesOk(v')
    requires Field(Slug(feature)) && Field(filter0) && Field(filter1)
    ensures CursorFields(ListInput(feature, filter0, filter1, user, org, v))
            == CursorFields(ListInput(feature, filter0, filter1, user', org', v'))
            <==> user == user' && org == org' && SameFirst(v, v') && SameLast(v, v')
  {
    ListInputOk(feature, filter0, filter1, user, org, v);
    ListInputOk(feature, filter0, filter1, user', org', v');
    SameLabelled(feature, filter0, filter1, user, org, v, user', org', v');
    ListHolds(feature, filter0, filter1, user, org, v);
    ListHolds(feature, filter0, filter1, user', org', v');
    HeldShare(ListInput(feature, filter0, filter1, user, org, v), ListInput(feature, filter0, filter1, user', org', v'),
              user, org, v, user', org', v');
  }

  lemma LogsShareFirst(q: LogsQuery, q': LogsQuery)
    requires LogsQueryOk(q) && LogsQueryOk(q')
    ensures SameFirst(LogsValues(q), LogsValues(q'))
            <==> q.limit == q'.limit && q.sort == q'.sort && q.q == q'.q && q.metricId == q'.metricId
  {
    LimitsShare(q.limit, q'.limit);
    TrimmedShare(Some(q.sort), Some(q'.sort));
    TrimmedShare(q.q, q'.q);
    IdsShare(q.metricId, q'.metricId);
  }

  lemma LogsShareLast(q: LogsQuery, q': LogsQuery)
    requires LogsQueryOk(q) && LogsQueryOk(q')
    ensures SameLast(LogsValues(q), LogsValues(q'))
            <==> q.logValue == q'.logValue && NormalText(q.after) == NormalText(q'.after) && q.includeTotal == q'.includeTotal
  {
    NumbersShare(q.logValue, q'.logValue);
    TextsShare(q.after, q'.after);
    TruthsShare(q.includeTotal, q'.includeTotal);
  }

  lemma MetricsShareFirst(q: MetricsQuery, q': MetricsQuery)
    requires MetricsQueryOk(q) && MetricsQueryOk(q')
    ensures SameFirst(MetricsValues(q), MetricsValues(q'))
            <==> q.limit == q'.limit && q.sort == q'.sort && q.q == q'.q && q.name == q'.name
  {
    LimitsShare(q.limit, q'.limit);
    TrimmedShare(Some(q.sort), Some(q'.sort));
    TrimmedShare(q.q, q'.q);
    TrimmedShare(q.name, q'.name);
  }

  lemma CategoriesShare(q: MetricsQuery, q': MetricsQuery)
    requires MetricsQueryOk(q) && MetricsQueryOk(q')
    ensures Seg(MetricsValues(q).filter1) == Seg(MetricsValues(q').filter1) <==> q.categoryId == q'.categoryId
  {
    IdsShare(q.categoryId, q'.categoryId);
  }

  lemma CursorsShare(q: MetricsQuery, q': MetricsQuery)
    requires MetricsQueryOk(q) && MetricsQueryOk(q')
    ensures Seg(MetricsValues(q).after) == Seg(MetricsValues(q').after) <==> q.after == q'.after
  {
    TrimmedShare(q.after, q'.after);
  }

  lemma MetricsShareLast(q: MetricsQuery, q': MetricsQuery)
    requires MetricsQueryOk(q) && MetricsQueryOk(q')
    ensures SameLast(MetricsValues(q), MetricsValues(q'))
            <==> q.categoryId == q'.categoryId && q.after == q'.after && q.includeTotal == q'.includeTotal
  {
    CategoriesShare(q, q');
    CursorsShare(q, q');
    TruthsShare(q.includeTotal, q'.includeTotal);
  }

  lemma LogListsShare(user: string, org: string, q: LogsQuery, user': string, org': string, q': LogsQuery)
    requires Id(user) && Id(org) && Id(user') && Id(org') && LogsQueryOk(q) && LogsQueryOk(q')
    ensures CursorFields(LogsInput(user, org, q)) == CursorFields(LogsInput(user', org', q'))
            <==> user == user' && org == org' && ReadsAlike(ListLogs(q), ListLogs(q'))
  {
    NormalTextsAre(q.after, q'.after);
    LabelsAreFields();
    LogsValuesOk(q);
    LogsValuesOk(q');
    LogsShareFirst(q, q');
    LogsShareLast(q, q');
    ListsShare("metric-logs", "fm", "fn", user, org, LogsValues(q), user', org', LogsValues(q'));
  }

  lemma MetricListsShare(user: string, org: string, q: MetricsQuery, user': string, org': string, q': MetricsQuery)
    requires Id(user) && Id(org) && Id(user') && Id(org') && MetricsQueryOk(q) && MetricsQueryOk(q')
    ensures CursorFields(MetricsInput(user, org, q)) == CursorFields(MetricsInput(user', org', q'))
            <==> user == user' && org == org' && q == q'
  {
    LabelsAreFields();
    MetricsValuesOk(q);
    MetricsValuesOk(q');
    MetricsShareFirst(q, q');
    MetricsShareLast(q, q');
    ListsShare("metrics", "fn", "fc", user, org, MetricsValues(q), user', org', MetricsValues(q'));
  }

  lemma StatsShare(user: string, org: string, metric: Option<string>, from: Option<int>, to: Option<int>,
                   user': string, org': string, metric': Option<string>, from': Option<int>, to': Option<int>)
    requires (metric.Some? ==> Id(metric.value)) && (metric'.Some? ==> Id(metric'.value))
    ensures KeyFields(user, org, Stats(metric, from, to)) == KeyFields(user', org', Stats(metric', from', to'))
            <==> user == user' && org == org' && metric == metric' && from == from' && to == to'
  {
    var a, b := KeyFields(user, org, Stats(metric, from, to)), KeyFields(user', org', Stats(metric', from', to'));
    if a == b {
      assert a[1] == b[1] && a[2] == b[2] && a[4] == b[4] && a[6] == b[6] && a[8] == b[8];
      assert |"all"| == 3;
      InstantTells(from, from');
      InstantTells(to, to');
    }
  }

  lemma EntriesShare(user: string, org: string, r: Request, user': string, org': string, r': Request)
    requires r.MetricEntry? && r'.MetricEntry?
    ensures KeyFields(user, org, r) == KeyFields(user', org', r') <==> user == user' && org == org' && ReadsAlike(r, r')
  {
    var a, b := KeyFields(user, org, r), KeyFields(user', org', r');
    LimitsShare(LogsLimit(r.logsLimit), LogsLimit(r'.logsLimit));
    IncludesAreAsked(r.relations);
    IncludesAreAsked(r'.relations);
    if a == b {
      assert a[1] == b[1] && a[2] == b[2] && a[3] == b[3] && a[5] == b[5] && a[7] == b[7];
      RelationsTell(MetricDetailIncludes(r.relations), MetricDetailIncludes(r'.relations));
    }
  }

  lemma ChartsShare(user: string, org: string, metricId: string, c: Chart, user': string, org': string, metricId': string, c': Chart)
    requires Id(user) && Id(org) && Id(metricId) && ChartOk(c) && Id(user') && Id(org') && Id(metricId') && ChartOk(c')
    ensures KeyFields(user, org, Visualization(metricId, c)) == KeyFields(user', org', Visualization(metricId', c'))
            <==> user == user' && org == org' && metricId == metricId' && c == c'
  {
    var a, b := KeyFields(user, org, Visualization(metricId, c)), KeyFields(user', org', Visualization(metricId', c'));
    if a == b {
      assert a[5] == b[5];
      ChartTells(user, org, metricId, c, user', org', metricId', c');
    }
  }

  lemma DashboardsShare(user: string, org: string, r: Request, user': string, org': string, r': Request)
    requires r.Dashboard? && r'.Dashboard? && Id(user) && Id(org) && RequestOk(r) && Id(user') && Id(org') && RequestOk(r')
    ensures KeyFields(user, org, r) == KeyFields(user', org', r') <==> user == user' && org == org' && ReadsAlike(r, r')
  {
    var a, b := KeyFields(user, org, r), KeyFields(user', org', r');
    if a == b {
      assert a[4] == b[4];
      DashboardTells(user, org, r.metricIds, r.chart, VersionText(r.version),
                     user', org', r'.metricIds, r'.chart, VersionText(r'.version));
    }
  }

  lemma LogsByIdShare(user: string, org: string, r: Request, user': string, org': string, r': Request)
    requires r.LogById? && r'.LogById?
    ensures KeyFields(user, org, r) == KeyFields(user', org', r') <==> user == user' && org == org' && r == r'
  {
    var a, b := KeyFields(user, org, r), KeyFields(user', org', r');
    if a == b {
      assert a[1] == b[1] && a[2] == b[2] && a[3] == b[3] && a[5] == b[5];
    }
  }

  lemma OneKindShares(user: string, org: string, r: Request, user': string, org': string, r': Request)
    requires Id(user) && Id(org) && RequestOk(r) && Id(user') && Id(org') && RequestOk(r') && KindOf(r) == KindOf(r')
    ensures KeyFields(user, org, r) == KeyFields(user', org', r') <==> user == user' && org == org' && ReadsAlike(r, r')
  {
    KindsTell(r, r');
    match r
    case ListLogs(q) => LogListsShare(user, org, q, user', org', r'.logs);
    case ListMetrics(q) => MetricListsShare(user, org, q, user', org', r'.metrics);
    case LogById(_, _) => LogsByIdShare(user, org, r, user', org', r');
    case Stats(metric, from, to) => StatsShare(user, org, metric, from, to, user', org', r'.metric, r'.from, r'.to);
    case MetricEntry(_, _, _) => EntriesShare(user, org, r, user', org', r');
    case Visualization(metricId, c) => ChartsShare(user, org, metricId, c, user', org', r'.metricId, r'.chart);
    case Dashboard(_, _, _, _) => DashboardsShare(user, org, r, user', org', r');
  }

  lemma KindsTell(r: Request, r': Request)
    requires KindOf(r) == KindOf(r')
    ensures (r.ListLogs? <==> r'.ListLogs?) && (r.ListMetrics? <==> r'.ListMetrics?) && (r.LogById? <==> r'.LogById?)
    ensures (r.Stats? <==> r'.Stats?) && (r.MetricEntry? <==> r'.MetricEntry?)
    ensures (r.Visualization? <==> r'.Visualization?) && (r.Dashboard? <==> r'.Dashboard?)
  {
  }

  /** The fields of a key tell the tenant and the whole request, as its handler reads it. */
  lemma FieldsShareExactly(user: string, org: string, r: Request, user': string, org': string, r': Request)
    requires Id(user) && Id(org) && RequestOk(r) && Id(user') && Id(org') && RequestOk(r')
    ensures KeyFields(user, org, r) == KeyFields(user', org', r') <==> user == user' && org == org' && ReadsAlike(r, r')
  {
    if KindOf(r) == KindOf(r') {
      OneKindShares(user, org, r, user', org', r');
    } else {
      FieldsTell(user, org, r);
      FieldsTell(user', org', r');
    }
  }

  /** Requests share an entry exactly when they are one tenant's and their handler reads the same of them. */
  lemma KeysShareExactly(user: string, org: string, r: Request, user': string, org': string, r': Request)
    requires Id(user) && Id(org) && RequestOk(r) && Id(user') && Id(org') && RequestOk(r')
    ensures Key(user, org, r) == Key(user', org', r') <==> user == user' && org == org' && ReadsAlike(r, r')
  {
    KeyHasFields(user, org, r);
    KeyHasFields(user', org', r');
    FieldsShareExactly(user, org, r, user', org', r');
    if Key(user, org, r) == Key(user', org', r') {
      JoinInjective(KeyFields(user, org, r), KeyFields(user', org', r'), ':');
    }
  }

  /** The fields give away the tenant, the request, and so what it is about. */
  lemma SameFieldsSameScope(user: string, org: string, r: Request, user': string, org': string, r': Request)
    requires Id(user) && Id(org) && RequestOk(r) && Id(user') && Id(org') && RequestOk(r')
    requires KeyFields(user, org, r) == KeyFields(user', org', r')
    ensures user == user' && org == org' && ReadsAlike(r, r')
    ensures ScopeOf(r) == ScopeOf(r') && (LowerCase(r) <==> LowerCase(r'))
  {
    FieldsShareExactly(user, org, r, user', org', r');
    AlikeScope(r, r');
  }

  lemma AlikeScope(r: Request, r': Request)
    requires ReadsAlike(r, r')
    ensures ScopeOf(r) == ScopeOf(r') && (LowerCase(r) <==> LowerCase(r'))
  {
  }

  // ---- What a write deletes.

  /** The requests whose entries a pattern names, by their ids as spelled. */
  predicate Covers(p: Pattern, r: Request) {
    match p
    case LogLists => r.ListLogs?
    case StatsOf(name) => r.Stats? && name == StatsName(r.metric)
    case LogEntries(id) => r.LogById? && r.id == id
    case Charts(metricId) => r.Visualization? && r.metricId == metricId
    case Dashboards => r.Dashboard?
    case MetricLists => r.ListMetrics?
    case MetricEntries(metricId) => r.MetricEntry? && r.metricId == metricId
  }

  predicate PatternOkay(p: Pattern) {
    match p
    case StatsOf(name) => Part(name)
    case LogEntries(id) => Id(id)
    case Charts(metricId) => Id(metricId)
    case MetricEntries(metricId) => Id(metricId)
    case _ => true
  }

  lemma OtherPattern(user: string, org: string, r: Request, fields: seq<string>)
    requires Id(user) && Id(org) && RequestOk(r) && fields != [] && Unbroken(fields)
    ensures Matches(Join(fields, ':') + ":*", Key(user, org, r))
            <==> |KeyFields(user, org, r)| > |fields| && KeyFields(user, org, r)[..|fields|] == fields
  {
    KeyHasFields(user, org, r);
    FieldPattern(fields, KeyFields(user, org, r));
  }

  lemma FirstFive(key: seq<string>, a: string, b: string, c: string, d: string, e: string)
    requires |key| >= 5
    ensures key[..5] == [a, b, c, d, e] <==> key[0] == a && key[1] == b && key[2] == c && key[3] == d && key[4] == e
  {
    var five := key[..5];
    assert five[0] == key[0] && five[1] == key[1] && five[2] == key[2] && five[3] == key[3] && five[4] == key[4];
  }

  lemma FirstFour(key: seq<string>, a: string, b: string, c: string, d: string)
    requires |key| >= 4
    ensures key[..4] == [a, b, c, d] <==> key[0] == a && key[1] == b && key[2] == c && key[3] == d
  {
    var four := key[..4];
    assert four[0] == key[0] && four[1] == key[1] && four[2] == key[2] && four[3] == key[3];
  }

  lemma FirstThree(key: seq<string>, a: string, b: string, c: string)
    requires |key| >= 3
    ensures key[..3] == [a, b, c] <==> key[0] == a && key[1] == b && key[2] == c
  {
    var three := key[..3];
    assert three[0] == key[0] && three[1] == key[1] && three[2] == key[2];
  }

  lemma FourParts(a: string, b: string, c: string, d: string)
    requires Part(a) && Part(b) && Part(c) && Part(d)
    ensures Unbroken([a, b, c, d]) && Unbroken([a, b, c])
  {
  }

  lemma StatsPattern(user: string, org: string, r: Request, kind: string, m: string, name: string)
    requires Id(user) && Id(org) && RequestOk(r) && Part(name) && Part(kind) && Part(m) && kind == "logStats" && m == "m"
    ensures Matches(Join([kind, org, user, m, name], ':') + ":*", Key(user, org, r))
            <==> r.Stats? && KeyFields(user, org, r)[4] == name
  {
    IdIsPart(user);
    IdIsPart(org);
    FiveParts(kind, org, user, m, name);
    OtherPattern(user, org, r, [kind, org, user, m, name]);
    FieldsTell(user, org, r);
    FirstFive(KeyFields(user, org, r), kind, org, user, m, name);
  }

  lemma OwnedPattern(user: string, org: string, r: Request, kind: string, id: string)
    requires Id(user) && Id(org) && RequestOk(r) && Id(id) && Part(kind) && kind != "cursor"
    ensures Matches(Join([kind, org, user, id], ':') + ":*", Key(user, org, r)) <==> KindOf(r).0 == kind && KeyFields(user, org, r)[3] == id
  {
    IdIsPart(user);
    IdIsPart(org);
    IdIsPart(id);
    FourParts(kind, org, user, id);
    OtherPattern(user, org, r, [kind, org, user, id]);
    FieldsTell(user, org, r);
    FirstFour(KeyFields(user, org, r), kind, org, user, id);
  }

  lemma DashboardPattern(user: string, org: string, r: Request, kind: string)
    requires Id(user) && Id(org) && RequestOk(r) && Part(kind) && kind != "cursor"
    ensures Matches(Join([kind, org, user], ':') + ":*", Key(user, org, r)) <==> KindOf(r).0 == kind
  {
    IdIsPart(user);
    IdIsPart(org);
    FourParts(kind, org, user, user);
    OtherPattern(user, org, r, [kind, org, user]);
    FieldsTell(user, org, r);
    FirstThree(KeyFields(user, org, r), kind, org, user);
  }

  lemma NotALabel(input: CursorInput, user: string)
    requires |user| == 36 && forall i :: 0 <= i < |input.segments| ==> |input.segments[i].name| < 36 && input.segments[i].name != "org"
    ensures IdsAreNoLabels(input, user)
  {
  }

  lemma ListPattern(feature: string, user: string, org: string, input: CursorInput)
    requires Id(user) && Id(org) && Field(Slug(feature)) && '*' !in Slug(feature)
    requires InputOk(input) && Version(input) == "4" && input.segments != []
    requires input.userId == Words(user) && input.organizationId == Words(org)
    requires forall i :: 0 <= i < |input.segments| ==> |input.segments[i].name| < 36 && input.segments[i].name != "org"
    ensures Matches(CursorPattern(feature, user, org), CursorKey(input)) <==> Slug(input.feature) == Slug(feature)
  {
    IdIsPart(user);
    IdIsPart(org);
    NotALabel(input, user);
    CursorPatternExactly(feature, user, org, input);
  }

  predicate Label(name: string) {
    Field(name) && |name| < 36 && name != "org"
  }

  lemma LabelsAreShort()
    ensures Label("l") && Label("s") && Label("q") && Label("fm") && Label("fn") && Label("fc") && Label("after") && Label("it")
  {
  }

  lemma SevenLabels(xs: seq<Segment>)
    requires |xs| == 7 && Label(xs[0].name) && Label(xs[1].name) && Label(xs[2].name) && Label(xs[3].name)
    requires Label(xs[4].name) && Label(xs[5].name) && Label(xs[6].name)
    ensures forall i :: 0 <= i < |xs| ==> |xs[i].name| < 36 && xs[i].name != "org"
  {
  }

  lemma ListOn(feature: string, own: string, filter0: string, filter1: string, user: string, org: string, v: ListValues)
    requires Id(user) && Id(org) && ValuesOk(v) && Field(Slug(feature)) && '*' !in Slug(feature) && Field(Slug(own))
    requires Label(filter0) && Label(filter1)
    ensures Matches(CursorPattern(feature, user, org), CursorKey(ListInput(own, filter0, filter1, user, org, v)))
            <==> Slug(own) == Slug(feature)
  {
    LabelsAreShort();
    ListInputOk(own, filter0, filter1, user, org, v);
    SevenLabels(ListInput(own, filter0, filter1, user, org, v).segments);
    ListPattern(feature, user, org, ListInput(own, filter0, filter1, user, org, v));
  }

  lemma LogListsOn(feature: string, user: string, org: string, q: LogsQuery)
    requires Id(user) && Id(org) && LogsQueryOk(q) && Field(Slug(feature)) && '*' !in Slug(feature) && Field(Slug("metric-logs"))
    ensures Matches(CursorPattern(feature, user, org), CursorKey(LogsInput(user, org, q))) <==> Slug("metric-logs") == Slug(feature)
  {
    LogsValuesOk(q);
    LabelsAreShort();
    ListOn(feature, "metric-logs", "fm", "fn", user, org, LogsValues(q));
  }

  lemma MetricListsOn(feature: string, user: string, org: string, q: MetricsQuery)
    requires Id(user) && Id(org) && MetricsQueryOk(q) && Field(Slug(feature)) && '*' !in Slug(feature) && Field(Slug("metrics"))
    ensures Matches(CursorPattern(feature, user, org), CursorKey(MetricsInput(user, org, q))) <==> Slug("metrics") == Slug(feature)
  {
    MetricsValuesOk(q);
    LabelsAreShort();
    ListOn(feature, "metrics", "fn", "fc", user, org, MetricsValues(q));
  }

  lemma NotACursor(feature: string, user: string, org: string, r: Request)
    requires PatternOk(feature, user, org) && Id(user) && Id(org) && RequestOk(r) && !Lists(r)
    ensures !Matches(CursorPattern(feature, user, org), Key(user, org, r))
  {
    KeyHasFields(user, org, r);
    OthersTell(user, org, r);
    PatternParts(feature, user, org, Key(user, org, r));
    if Matches(CursorPattern(feature, user, org), Key(user, org, r)) {
      var k :| |Before(feature)| <= k && OccursAt(Owner(user, org), Key(user, org, r), k);
      MatchedFields(feature, user, org, KeyFields(user, org, r), k);
    }
  }

  lemma ListPatternOn(feature: string, user: string, org: string, r: Request)
    requires Id(user) && Id(org) && RequestOk(r) && PatternOk(feature, user, org) && Slug(feature) == feature
    requires Slug("metric-logs") == "metric-logs" && Slug("metrics") == "metrics"
    requires Field("metric-logs") && Field("metrics")
    ensures Matches(CursorPattern(feature, user, org), Key(user, org, r)) <==> Lists(r) && KindOf(r).1 == feature
  {
    match r
    case ListLogs(q) => LogListsOn(feature, user, org, q);
    case ListMetrics(q) => MetricListsOn(feature, user, org, q);
    case _ => NotACursor(feature, user, org, r);
  }

  lemma CursorPatternOn(feature: string, user: string, org: string, r: Request)
    requires Id(user) && Id(org) && RequestOk(r) && feature in {"metric-logs", "metrics"}
    ensures Matches(CursorPattern(feature, user, org), Key(user, org, r)) <==> Lists(r) && KindOf(r).1 == feature
  {
    SlugsAre();
    FeatureIsOk(feature, user, org);
    ListPatternOn(feature, user, org, r);
  }

  lemma FeaturesAreClean()
    ensures Field("metric-logs") && Field("metrics") && '*' !in "metric-logs" && '*' !in "metrics"
  {
  }

  lemma FeatureIsOk(feature: string, user: string, org: string)
    requires feature in {"metric-logs", "metrics"} && Slug(feature) == feature && Id(user) && Id(org)
    ensures PatternOk(feature, user, org) && Field("metric-logs") && Field("metrics")
  {
    FeaturesAreClean();
  }

  /** Each pattern names exactly the entries it is for. */
  lemma PatternExactly(user: string, org: string, r: Request, p: Pattern)
    requires Id(user) && Id(org) && RequestOk(r) && PatternOkay(p)
    ensures Matches(PatternText(user, org, p), Key(user, org, r)) <==> Covers(p, r)
  {
    LiteralsAreParts();
    FieldsTell(user, org, r);
    match p
    case LogLists => CursorPatternOn("metric-logs", user, org, r);
    case MetricLists => CursorPatternOn("metrics", user, org, r);
    case StatsOf(name) => StatsPattern(user, org, r, "logStats", "m", name);
    case LogEntries(id) => OwnedPattern(user, org, r, "log", id);
    case Charts(metricId) => OwnedPattern(user, org, r, "viz", metricId);
    case MetricEntries(metricId) => OwnedPattern(user, org, r, "metric", metricId);
    case Dashboards => DashboardPattern(user, org, r, "vizdash");
  }

  /** Whether the footprint of a write, by its ids as spelled, holds the request's entry. */
  predicate InFootprint(r: Request, metricId: string, logId: Option<string>) {
    match r
    case LogById(id, _) => logId == Some(id)
    case Stats(metric, _, _) => metric.None? || metric.value == metricId
    case MetricEntry(m, _, _) => m == metricId
    case Visualization(m, _) => m == metricId
    case _ => true
  }

  /** A write deletes an entry exactly when the write's own spelling of the ids is the entry's. */
  lemma DeletedExactly(user: string, org: string, r: Request, metricId: string, logId: Option<string>)
    requires Id(user) && Id(org) && RequestOk(r) && Id(metricId) && (logId.Some? ==> Id(logId.value))
    ensures Deletes(user, org, Footprint(metricId, logId), Key(user, org, r)) <==> InFootprint(r, metricId, logId)
  {
    var patterns := Footprint(metricId, logId);
    LiteralsAreParts();
    IdIsPart(metricId);
    forall p | p in patterns
      ensures Matches(PatternText(user, org, p), Key(user, org, r)) <==> Covers(p, r)
    {
      PatternExactly(user, org, r, p);
    }
    CoveredExactly(r, metricId, logId);
  }

  lemma CoveredExactly(r: Request, metricId: string, logId: Option<string>)
    requires RequestOk(r) && Id(metricId)
    ensures (exists p :: p in Footprint(metricId, logId) && Covers(p, r)) <==> InFootprint(r, metricId, logId)
  {
    var patterns := Footprint(metricId, logId);
    assert LogLists in patterns && StatsOf(metricId) in patterns && StatsOf("all") in patterns && Charts(metricId) in patterns
           && Dashboards in patterns && MetricLists in patterns && MetricEntries(metricId) in patterns;
    assert logId.Some? ==> LogEntries(logId.value) in patterns;
    if InFootprint(r, metricId, logId) {
      match r
      case ListLogs(_) => assert Covers(LogLists, r);
      case ListMetrics(_) => assert Covers(MetricLists, r);
      case LogById(id, _) => assert Covers(LogEntries(id), r);
      case Stats(metric, _, _) =>
        if metric.None? {
          assert Covers(StatsOf("all"), r);
        } else {
          assert Covers(StatsOf(metricId), r);
        }
      case MetricEntry(_, _, _) => assert Covers(MetricEntries(metricId), r);
      case Visualization(_, _) => assert Covers(Charts(metricId), r);
      case Dashboard(_, _, _, _) => assert Covers(Dashboards, r);
    }
  }

  predicate InScope(scope: Scope, metricId: string, logId: string) {
    match scope
    case AllLogs => true
    case OneLog(id) => id == logId
    case OneMetric(m) => m == metricId
  }

  /** The request spells the id it is about as the write does, the metric's or the log's. */
  predicate SpelledAlike(r: Request, metricId: string, logId: string) {
    match r
    case LogById(id, _) => id == logId
    case Stats(Some(m), _, _) => m == metricId
    case MetricEntry(m, _, _) => m == metricId
    case Visualization(m, _) => m == metricId
    case _ => true
  }

  lemma LowerTwice(s: string)
    ensures Spelled(Lower(s)) && (Spelled(s) <==> Lower(s) == s)
  {
    forall i | 0 <= i < |s|
      ensures LowerChar(LowerChar(s[i])) == LowerChar(s[i])
    {
    }
  }

  /**
   * What a write changes is deleted exactly when request and write spell its id alike, the log's id being
   * the database's: an entry read under another case stays, stale, and so does an entry of the metric after
   * a write that names the metric in another case.
   */
  lemma ChangedEntriesExactly(user: string, org: string, r: Request, metricId: string, logId: string)
    requires Id(user) && Id(org) && RequestOk(r) && Id(metricId) && Id(logId) && Spelled(logId)
    requires InScope(ScopeOf(r), Lower(metricId), logId)
    ensures Deletes(user, org, Footprint(metricId, Some(logId)), Key(user, org, r)) <==> SpelledAlike(r, metricId, logId)
    ensures Spelled(metricId) ==> (SpelledAlike(r, metricId, logId) <==> LowerCase(r))
    ensures LowerCase(r) ==> (SpelledAlike(r, metricId, logId) <==> Spelled(metricId) || !ScopeOf(r).OneMetric?)
  {
    DeletedExactly(user, org, r, metricId, Some(logId));
    LowerTwice(metricId);
  }
}
