/**
 * The requests whose answers are cached, as their schemas leave them, and the texts that stand for
 * their parts in the keys: the schema.zod.ts files, detail-includes.ts and VisualizationCacheRedis.ts.
 */
module MetricLogRequests {
  import opened Common
  import opened Text
  import opened PercentEncoding
  import opened CacheKeys

  /** `GET /metric-logs`; a number is the text String() gives it. */
  datatype LogsQuery = LogsQuery(
    limit: nat, sort: string, q: Option<string>, metricId: Option<string>, logValue: Option<string>,
    after: Option<string>, includeTotal: bool)

  /** `GET /metrics`. */
  datatype MetricsQuery = MetricsQuery(
    limit: nat, sort: string, q: Option<string>, name: Option<string>, categoryId: Option<string>,
    after: Option<string>, includeTotal: bool)

  datatype Fill = FillNone | FillZero | FillNan

  datatype Chart = Chart(bucket: Bucket, start: string, end: string, tz: string, fill: Fill)

  /**
   * The cached reads. A bound of Stats is an instant in epoch milliseconds. A dashboard's metrics, the
   * first of its tenant's within the limit, and the fingerprint of their versions are read from the
   * database with the request.
   */
  datatype Request =
    | ListLogs(logs: LogsQuery)
    | LogById(id: string, metricId: string)
    | Stats(metric: Option<string>, from: Option<int>, to: Option<int>)
    | ListMetrics(metrics: MetricsQuery)
    | MetricEntry(metricId: string, relations: Option<string>, logsLimit: Option<nat>)
    | Visualization(metricId: string, chart: Chart)
    | Dashboard(limit: nat, metricIds: seq<string>, chart: Chart, version: Option<string>)

  // ---- What the schemas let through.

  /** A UUID as text, in either case. */
  predicate Id(s: string) {
    |s| == 36 && Plain(s)
  }

  predicate Trimmed(s: string) {
    s != "" && Trim(s) == s
  }

  predicate LogsQueryOk(q: LogsQuery) {
    && Trimmed(q.sort) && (q.q.Some? ==> Trimmed(q.q.value)) && (q.metricId.Some? ==> Id(q.metricId.value))
    && (q.logValue.Some? ==> NumberText(q.logValue.value)) && (q.after.Some? ==> Trim(q.after.value) != "")
  }

  predicate MetricsQueryOk(q: MetricsQuery) {
    && Trimmed(q.sort) && (q.q.Some? ==> Trimmed(q.q.value)) && (q.name.Some? ==> Trimmed(q.name.value))
    && (q.categoryId.Some? ==> Id(q.categoryId.value)) && (q.after.Some? ==> Trimmed(q.after.value))
  }

  predicate ChartOk(c: Chart) {
    '|' !in c.start && '|' !in c.end && '|' !in c.tz
  }

  predicate RequestOk(r: Request) {
    match r
    case ListLogs(q) => LogsQueryOk(q)
    case ListMetrics(q) => MetricsQueryOk(q)
    case LogById(id, metricId) => Id(id) && Id(metricId)
    case Stats(metric, _, _) => metric.Some? ==> Id(metric.value)
    case MetricEntry(metricId, _, _) => Id(metricId)
    case Visualization(metricId, c) => Id(metricId) && ChartOk(c)
    case Dashboard(limit, metricIds, c, version) =>
      |metricIds| <= limit && (forall i :: 0 <= i < |metricIds| ==> Id(metricIds[i])) && ChartOk(c) && (version.Some? ==> '|' !in version.value)
  }

  // ---- Texts for a request's parts.

  function NormalText(o: Option<string>): Option<string> {
    if o.None? || Trim(o.value) == "" then None else Some(Trim(o.value))
  }

  /** The relations of a metric's entry, in one order. */
  datatype Relations = Relations(category: bool, logs: bool, settings: bool)

  predicate Names(text: string, relation: string) {
    var tokens := Split(text, ',');
    exists i :: 0 <= i < |tokens| && Trim(tokens[i]) == relation
  }

  /** No relations for `flat` or nothing, all for `full`, else those named in the list. */
  function MetricDetailIncludes(text: Option<string>): Relations {
    if text.None? || text.value == "" || text.value == "flat" then Relations(false, false, false)
    else if text.value == "full" then Relations(true, true, true)
    else Relations(Names(text.value, "category"), Names(text.value, "logs"), Names(text.value, "settings"))
  }

  function RelationList(r: Relations): (names: seq<string>)
    ensures names != []
  {
    var names := (if r.category then ["category"] else []) + (if r.logs then ["logs"] else [])
                 + (if r.settings then ["settings"] else []);
    if names == [] then ["flat"] else names
  }

  function RelationsText(r: Relations): string {
    Join(RelationList(r), ',')
  }

  const DEFAULT_LOGS_LIMIT := 20

  function LogsLimit(limit: Option<nat>): nat {
    if limit.None? then DEFAULT_LOGS_LIMIT else limit.value
  }

  function VersionText(version: Option<string>): string {
    if version.None? then "" else version.value
  }

  // ---- What the handlers read of a request.

  /** `full` asks for every relation, a list for those it names, `flat` or nothing for none. */
  predicate Asks(text: Option<string>, relation: string) {
    text.Some? && (text.value == "full" || exists i :: 0 <= i < |Split(text.value, ',')| && Trim(Split(text.value, ',')[i]) == relation)
  }

  predicate SameCursor(a: Option<string>, b: Option<string>) {
    if a.None? || b.None? then a == b else Trim(a.value) == Trim(b.value)
  }

  /**
   * Requests that their handler cannot tell apart: the cursor of a log list is decoded as base64url, which
   * passes over the blanks around it; a metric's entry is loaded with as many logs, 20 if not said, and the
   * relations asked for, however they were listed; a dashboard's limit shows only in which metrics it
   * selects, for their total is counted before it. All else must be the same.
   */
  predicate ReadsAlike(r: Request, r': Request) {
    match (r, r')
    case (ListLogs(q), ListLogs(q')) => q.(after := q'.after) == q' && SameCursor(q.after, q'.after)
    case (MetricEntry(m, asked, n), MetricEntry(m', asked', n')) =>
      && m == m' && (if n.None? then 20 else n.value) == (if n'.None? then 20 else n'.value)
      && (Asks(asked, "category") <==> Asks(asked', "category"))
      && (Asks(asked, "logs") <==> Asks(asked', "logs"))
      && (Asks(asked, "settings") <==> Asks(asked', "settings"))
    case (Dashboard(_, ids, c, v), Dashboard(_, ids', c', v')) =>
      ids == ids' && c == c' && (if v.None? then "" else v.value) == (if v'.None? then "" else v'.value)
    case _ => r == r'
  }

  lemma FlatNamesNone(relation: string)
    requires relation in {"category", "logs", "settings"}
    ensures !Asks(None, relation) && !Asks(Some(""), relation) && !Asks(Some("flat"), relation)
  {
    assert ',' !in "flat" && ',' !in "";
    assert Split("", ',') == [""] && Split("flat", ',') == ["flat"];
    FlatIsTrimmed();
    assert "flat"[0] == 'f' && "category"[0] == 'c' && "logs"[0] == 'l' && "settings"[0] == 's';
  }

  lemma FlatIsTrimmed()
    ensures Trim("flat") == "flat" && Trim("") == ""
  {
    assert !White("flat"[0]) && !White("flat"[3]);
  }

  lemma IncludesAreAsked(text: Option<string>)
    ensures var r := MetricDetailIncludes(text);
            && (r.category <==> Asks(text, "category")) && (r.logs <==> Asks(text, "logs"))
            && (r.settings <==> Asks(text, "settings"))
  {
    FlatNamesNone("category");
    FlatNamesNone("logs");
    FlatNamesNone("settings");
  }

  lemma NormalTextsAre(a: Option<string>, b: Option<string>)
    requires (a.Some? ==> Trim(a.value) != "") && (b.Some? ==> Trim(b.value) != "")
    ensures NormalText(a) == NormalText(b) <==> SameCursor(a, b)
  {
  }

  // ---- Parts of the keys.

  /** A key part: not empty, without a colon or a star. */
  predicate Part(s: string) {
    s != "" && ':' !in s && '*' !in s
  }

  function InstantText(at: Option<int>): string {
    if at.None? then "_" else if at.value < 0 then "-" + Decimal(-at.value) else Decimal(at.value)
  }

  function BucketIso(b: Bucket): string {
    match b
    case Hour => "PT1H"
    case Day => "P1D"
    case Week => "P1W"
    case Month => "P1M"
    case Year => "P1Y"
  }

  function FillText(fill: Fill): string {
    match fill
    case FillNone => "none"
    case FillZero => "zero"
    case FillNan => "nan"
  }

  function IdsText(ids: seq<string>): string {
    if ids == [] then "" else Join(ids, ',')
  }

  function ChartRaw(user: string, org: string, metricId: string, c: Chart): seq<string> {
    [org, user, metricId, BucketIso(c.bucket), c.start, c.end, c.tz, FillText(c.fill)]
  }

  function DashboardRaw(user: string, org: string, metricIds: seq<string>, c: Chart, version: string): seq<string> {
    ["v2", org, user, IdsText(metricIds), BucketIso(c.bucket), c.start, c.end, c.tz, FillText(c.fill), version]
  }

  /** Stands for the hash of a chart's parameters, which is taken to have no collisions. */
  function Digest(raw: seq<string>): string
    requires raw != []
  {
    Encode(Join(raw, '|'))
  }

  // ---- Each part tells what it is of.

  lemma InstantIsPart(at: Option<int>)
    ensures Part(InstantText(at))
  {
    if at.Some? {
      var n: nat := if at.value < 0 then -at.value else at.value;
      DecimalIsPart(n);
    }
  }

  lemma DecimalIsPart(n: nat)
    ensures Part(Decimal(n)) && NumberText(Decimal(n)) && Decimal(n)[0] != '-' && Decimal(n)[0] != '_'
  {
    DecimalIsCanonical(n);
  }

  lemma InstantIsGiven(n: int)
    ensures InstantText(Some(n)) != "_"
  {
    DecimalIsPart(if n < 0 then -n else n);
    assert "_"[0] == '_';
  }

  lemma Signs(a: string, b: string)
    requires b != "" && b[0] != '-'
    ensures "-" + a != b
  {
    assert ("-" + a)[0] == '-';
  }

  lemma SignOff(a: string, b: string)
    requires "-" + a == "-" + b
    ensures a == b
  {
    assert a == ("-" + a)[1..] && b == ("-" + b)[1..];
  }

  lemma SameNegative(m: nat, n: nat)
    requires "-" + Decimal(m) == "-" + Decimal(n)
    ensures m == n
  {
    SignOff(Decimal(m), Decimal(n));
    NumeralInjective(m, n, 10);
  }

  lemma NegativeIsNone(m: nat, n: nat)
    ensures "-" + Decimal(m) != Decimal(n)
  {
    DecimalIsPart(n);
    Signs(Decimal(m), Decimal(n));
  }

  lemma SameInstant(m: int, n: int)
    requires InstantText(Some(m)) == InstantText(Some(n))
    ensures m == n
  {
    if m < 0 && n < 0 {
      SameNegative(-m, -n);
    } else if m < 0 {
      NegativeIsNone(-m, n);
    } else if n < 0 {
      NegativeIsNone(-n, m);
    } else {
      NumeralInjective(m, n, 10);
    }
  }

  lemma InstantTells(at: Option<int>, at': Option<int>)
    requires InstantText(at) == InstantText(at')
    ensures at == at'
  {
    if at.Some? {
      InstantIsGiven(at.value);
    }
    if at'.Some? {
      InstantIsGiven(at'.value);
    }
    if at.Some? && at'.Some? {
      SameInstant(at.value, at'.value);
    }
  }

  lemma BucketTells(b: Bucket, b': Bucket)
    requires BucketIso(b) == BucketIso(b')
    ensures b == b'
  {
    assert BucketIso(b)[2] == BucketIso(b')[2];
  }

  lemma FillTells(f: Fill, f': Fill)
    requires FillText(f) == FillText(f')
    ensures f == f'
  {
    assert FillText(f)[0] == FillText(f')[0];
    assert |FillText(f)| == |FillText(f')|;
  }

  lemma RelationsListed(r: Relations)
    ensures "category" in RelationList(r) <==> r.category
    ensures "logs" in RelationList(r) <==> r.logs
    ensures "settings" in RelationList(r) <==> r.settings
    ensures NoneHolds(RelationList(r), ',') && NoneHolds(RelationList(r), ':') && NoneHolds(RelationList(r), '*')
  {
    assert |"category"| == 8 && |"logs"| == 4 && |"settings"| == 8 && "flat"[0] == 'f' && "logs"[0] == 'l';
    assert "category"[0] == 'c' && "settings"[0] == 's';
  }

  lemma RelationsTell(r: Relations, r': Relations)
    requires RelationsText(r) == RelationsText(r')
    ensures r == r'
  {
    RelationsListed(r);
    RelationsListed(r');
    JoinInjective(RelationList(r), RelationList(r'), ',');
  }

  lemma PlainIsClean(s: string)
    requires Plain(s)
    ensures ',' !in s && '|' !in s
  {
    assert !Unreserved(',') && !Unreserved('|');
  }

  lemma JoinNotEmpty(parts: seq<string>, sep: char)
    requires parts != [] && parts[0] != ""
    ensures Join(parts, sep) != ""
  {
  }

  lemma IdsTell(ids: seq<string>, ids': seq<string>)
    requires forall i :: 0 <= i < |ids| ==> Id(ids[i])
    requires forall i :: 0 <= i < |ids'| ==> Id(ids'[i])
    requires IdsText(ids) == IdsText(ids')
    ensures ids == ids'
  {
    forall i | 0 <= i < |ids| ensures ',' !in ids[i] { PlainIsClean(ids[i]); }
    forall i | 0 <= i < |ids'| ensures ',' !in ids'[i] { PlainIsClean(ids'[i]); }
    if ids != [] && ids' != [] {
      JoinInjective(ids, ids', ',');
    } else if ids != [] {
      JoinNotEmpty(ids, ',');
    } else if ids' != [] {
      JoinNotEmpty(ids', ',');
    }
  }

  lemma RelationsArePart(r: Relations)
    ensures Part(RelationsText(r))
  {
    RelationsListed(r);
    JoinLacks(RelationList(r), ',', ':');
    JoinLacks(RelationList(r), ',', '*');
    JoinNotEmpty(RelationList(r), ',');
  }

  lemma DigestIsPart(raw: seq<string>)
    requires raw != [] && raw[0] != ""
    ensures Part(Digest(raw))
  {
    JoinNotEmpty(raw, '|');
    EncodedIsSafe(Join(raw, '|'));
  }

  lemma DigestTells(raw: seq<string>, raw': seq<string>)
    requires raw != [] && raw' != [] && NoneHolds(raw, '|') && NoneHolds(raw', '|') && Digest(raw) == Digest(raw')
    ensures raw == raw'
  {
    EncodeInjective(Join(raw, '|'), Join(raw', '|'));
    JoinInjective(raw, raw', '|');
  }

  lemma TextsAreClean(c: Chart)
    ensures '|' !in BucketIso(c.bucket) && '|' !in FillText(c.fill)
  {
  }

  lemma IdsAreClean(ids: seq<string>)
    requires forall i :: 0 <= i < |ids| ==> Id(ids[i])
    ensures '|' !in IdsText(ids)
  {
    forall i | 0 <= i < |ids| ensures '|' !in ids[i] { PlainIsClean(ids[i]); }
    if ids != [] {
      JoinLacks(ids, ',', '|');
    }
  }

  lemma ChartRawIsClean(user: string, org: string, metricId: string, c: Chart)
    requires Id(user) && Id(org) && Id(metricId) && ChartOk(c)
    ensures NoneHolds(ChartRaw(user, org, metricId, c), '|')
  {
    PlainIsClean(user);
    PlainIsClean(org);
    PlainIsClean(metricId);
    TextsAreClean(c);
  }

  lemma DashboardRawIsClean(user: string, org: string, metricIds: seq<string>, c: Chart, version: string)
    requires Id(user) && Id(org) && ChartOk(c) && '|' !in version
    requires forall i :: 0 <= i < |metricIds| ==> Id(metricIds[i])
    ensures NoneHolds(DashboardRaw(user, org, metricIds, c, version), '|')
  {
    PlainIsClean(user);
    PlainIsClean(org);
    IdsAreClean(metricIds);
    TextsAreClean(c);
  }

  /** What is hashed for a chart tells every parameter of it. */
  lemma ChartTells(user: string, org: string, metricId: string, c: Chart, user': string, org': string, metricId': string, c': Chart)
    requires Id(user) && Id(org) && Id(metricId) && ChartOk(c) && Id(user') && Id(org') && Id(metricId') && ChartOk(c')
    requires Digest(ChartRaw(user, org, metricId, c)) == Digest(ChartRaw(user', org', metricId', c'))
    ensures user == user' && org == org' && metricId == metricId' && c == c'
  {
    ChartRawIsClean(user, org, metricId, c);
    ChartRawIsClean(user', org', metricId', c');
    var raw, raw' := ChartRaw(user, org, metricId, c), ChartRaw(user', org', metricId', c');
    DigestTells(raw, raw');
    assert raw[0] == raw'[0] && raw[1] == raw'[1] && raw[2] == raw'[2] && raw[3] == raw'[3];
    assert raw[4] == raw'[4] && raw[5] == raw'[5] && raw[6] == raw'[6] && raw[7] == raw'[7];
    BucketTells(c.bucket, c'.bucket);
    FillTells(c.fill, c'.fill);
  }

  lemma DashboardTells(user: string, org: string, ids: seq<string>, c: Chart, version: string,
                       user': string, org': string, ids': seq<string>, c': Chart, version': string)
    requires Id(user) && Id(org) && ChartOk(c) && '|' !in version && Id(user') && Id(org') && ChartOk(c') && '|' !in version'
    requires forall i :: 0 <= i < |ids| ==> Id(ids[i])
    requires forall i :: 0 <= i < |ids'| ==> Id(ids'[i])
    requires Digest(DashboardRaw(user, org, ids, c, version)) == Digest(DashboardRaw(user', org', ids', c', version'))
    ensures user == user' && org == org' && ids == ids' && c == c' && version == version'
  {
    DashboardRawIsClean(user, org, ids, c, version);
    DashboardRawIsClean(user', org', ids', c', version');
    var raw, raw' := DashboardRaw(user, org, ids, c, version), DashboardRaw(user', org', ids', c', version');
    DigestTells(raw, raw');
    assert raw[1] == raw'[1] && raw[2] == raw'[2] && raw[3] == raw'[3] && raw[4] == raw'[4] && raw[5] == raw'[5];
    assert raw[6] == raw'[6] && raw[7] == raw'[7] && raw[8] == raw'[8] && raw[9] == raw'[9];
    BucketTells(c.bucket, c'.bucket);
    FillTells(c.fill, c'.fill);
    IdsTell(ids, ids');
  }
}
