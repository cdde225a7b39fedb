/**
 * Metric-log reads through the cache and the writes that clear it: cache.ts, MetricLogCacheRedis.ts
 * and the use cases that create, update, delete and generate logs. Requests are served one at a
 * time, Redis is open, and a background cache write ends before the next request.
 */
module MetricLogCache {
  import opened Common
  import opened MetricLogRequests
  import opened MetricLogKeys
  import opened RedisPatterns

  datatype Kind = Manual | Automatic

  datatype Log = Log(metricId: string, value: real, kind: Kind, loggedAt: int, updatedAt: int)

  type Logs = map<string, Log>

  type Owners = map<string, (string, string)>

  /** `ok` is status 200. */
  datatype Answer = Answer(ok: bool, body: string)

  /** From the user, the organization and the validated request, and the rows it reads. */
  type Handler = (string, string, Request, Logs) -> Answer

  /** Ids are as the database spells them, and every log is of a metric there is. */
  predicate DatabaseOk(owners: Owners, logs: Logs) {
    && (forall m :: m in owners ==> Id(m) && Spelled(m) && Id(owners[m].0) && Id(owners[m].1))
    && (forall l :: l in logs ==> Id(l) && Spelled(l) && logs[l].metricId in owners)
  }

  /** The rows a request can read: its tenant's, and of those what it is about. */
  function Rows(owners: Owners, logs: Logs, user: string, org: string, scope: Scope): Logs {
    map l | l in logs && logs[l].metricId in owners && owners[logs[l].metricId] == (user, org)
            && InScope(scope, logs[l].metricId, l) :: logs[l]
  }

  /** What the handler answers now. */
  function Recomputed(owners: Owners, logs: Logs, handler: Handler, user: string, org: string, r: Request): Answer {
    handler(user, org, r, Rows(owners, logs, user, org, ScopeOf(r)))
  }

  /** A log that is not there is a 404, and requests that read alike are answered alike. */
  ghost predicate HandlerOk(handler: Handler) {
    && (forall user, org, r: Request :: r.LogById? ==> !handler(user, org, r, map[]).ok)
    && (forall user, org, r, r', rows :: RequestOk(r) && RequestOk(r') && ReadsAlike(r, r') ==>
          handler(user, org, r, rows) == handler(user, org, r', rows))
  }

  ghost predicate EntryAgrees(
    owners: Owners, logs: Logs, handler: Handler, cache: map<string, string>, user: string, org: string, r: Request)
  {
    Key(user, org, r) in cache ==> Recomputed(owners, logs, handler, user, org, r) == Answer(true, cache[Key(user, org, r)])
  }

  /** The owner's reads of one metric, when that is spoilt. */
  predicate Excused(owners: Owners, spoilt: set<string>, user: string, org: string, r: Request) {
    var scope := ScopeOf(r);
    scope.OneMetric? && scope.metricId in spoilt && scope.metricId in owners && owners[scope.metricId] == (user, org)
  }

  /** A metric is spoilt from a write that names it in another case than the database's to the next that does not. */
  function SpoiltBy(spoilt: set<string>, named: string): set<string> {
    if Spelled(named) then spoilt - {named} else spoilt + {Lower(named)}
  }

  /** Every entry a lower-case request would read equals what the handler would answer, but for spoilt metrics' own. */
  ghost predicate Agrees(owners: Owners, logs: Logs, handler: Handler, cache: map<string, string>, spoilt: set<string>) {
    forall user, org, r :: Id(user) && Id(org) && RequestOk(r) && LowerCase(r) && !Excused(owners, spoilt, user, org, r) ==>
      EntryAgrees(owners, logs, handler, cache, user, org, r)
  }

  /** The repository keeps no empty dashboard. */
  predicate Stored(r: Request) {
    r.Dashboard? ==> r.metricIds != []
  }

  /** Requests that share a key are answered alike. */
  lemma SharedKey(owners: Owners, logs: Logs, handler: Handler, user: string, org: string, r: Request,
                  user': string, org': string, r': Request)
    requires HandlerOk(handler) && Id(user) && Id(org) && RequestOk(r) && Id(user') && Id(org') && RequestOk(r')
    requires Key(user, org, r) == Key(user', org', r')
    ensures Recomputed(owners, logs, handler, user, org, r) == Recomputed(owners, logs, handler, user', org', r')
    ensures user == user' && org == org' && ScopeOf(r) == ScopeOf(r') && (LowerCase(r) <==> LowerCase(r'))
  {
    KeysShareExactly(user, org, r, user', org', r');
    AlikeScope(r, r');
  }

  lemma StoringAgrees(owners: Owners, logs: Logs, handler: Handler, cache: map<string, string>, spoilt: set<string>,
                      user: string, org: string, r: Request)
    requires HandlerOk(handler) && Agrees(owners, logs, handler, cache, spoilt) && Id(user) && Id(org) && RequestOk(r)
    requires Recomputed(owners, logs, handler, user, org, r).ok
    ensures Agrees(owners, logs, handler, cache[Key(user, org, r) := Recomputed(owners, logs, handler, user, org, r).body], spoilt)
  {
    var answer := Recomputed(owners, logs, handler, user, org, r);
    var cache' := cache[Key(user, org, r) := answer.body];
    forall user', org', r' | Id(user') && Id(org') && RequestOk(r') && LowerCase(r') && !Excused(owners, spoilt, user', org', r')
      ensures EntryAgrees(owners, logs, handler, cache', user', org', r')
    {
      if Key(user', org', r') == Key(user, org, r) {
        SharedKey(owners, logs, handler, user', org', r', user, org, r);
      } else {
        assert EntryAgrees(owners, logs, handler, cache, user', org', r');
      }
    }
  }

  lemma ReadAgrees(owners: Owners, logs: Logs, handler: Handler, cache: map<string, string>, spoilt: set<string>,
                   user: string, org: string, r: Request, key: string)
    requires HandlerOk(handler) && Agrees(owners, logs, handler, cache, spoilt) && Id(user) && Id(org) && RequestOk(r) && key == Key(user, org, r)
    ensures key in cache && LowerCase(r) && !Excused(owners, spoilt, user, org, r) ==>
              Recomputed(owners, logs, handler, user, org, r) == Answer(true, cache[key])
    ensures var now := Recomputed(owners, logs, handler, user, org, r);
            now.ok ==> Agrees(owners, logs, handler, cache[key := now.body], spoilt)
  {
    assert LowerCase(r) && !Excused(owners, spoilt, user, org, r) ==> EntryAgrees(owners, logs, handler, cache, user, org, r);
    if Recomputed(owners, logs, handler, user, org, r).ok {
      StoringAgrees(owners, logs, handler, cache, spoilt, user, org, r);
    }
  }

  lemma FewerAgrees(owners: Owners, logs: Logs, handler: Handler, cache: map<string, string>, spoilt: set<string>, left: map<string, string>)
    requires Agrees(owners, logs, handler, cache, spoilt)
    requires forall k :: k in left ==> k in cache && left[k] == cache[k]
    ensures Agrees(owners, logs, handler, left, spoilt)
  {
    forall user, org, r | Id(user) && Id(org) && RequestOk(r) && LowerCase(r) && !Excused(owners, spoilt, user, org, r)
      ensures EntryAgrees(owners, logs, handler, left, user, org, r)
    {
      assert EntryAgrees(owners, logs, handler, cache, user, org, r);
    }
  }

  /** The write touched only logs of one metric of one tenant, among these. */
  predicate OnlyThese(logs: Logs, logs': Logs, metricId: string, changed: set<string>) {
    forall l :: l in logs.Keys + logs'.Keys ==>
      || (l in logs && l in logs' && logs[l] == logs'[l])
      || (l in changed && (l in logs ==> logs[l].metricId == metricId) && (l in logs' ==> logs'[l].metricId == metricId))
  }

  /** A read outside what was written sees the same rows. */
  lemma UntouchedRows(owners: Owners, logs: Logs, logs': Logs, metricId: string, changed: set<string>,
                      user: string, org: string, scope: Scope)
    requires metricId in owners && OnlyThese(logs, logs', metricId, changed)
    requires owners[metricId] != (user, org) || forall l :: l in changed ==> !InScope(scope, metricId, l)
    ensures Rows(owners, logs, user, org, scope) == Rows(owners, logs', user, org, scope)
  {
    var rows, rows' := Rows(owners, logs, user, org, scope), Rows(owners, logs', user, org, scope);
    forall l
      ensures l in rows <==> l in rows'
      ensures l in rows ==> rows[l] == rows'[l]
    {
      if l in logs.Keys + logs'.Keys {
        assert (l in logs && l in logs' && logs[l] == logs'[l]) || l in changed;
      }
    }
  }

  /** The entries the write's patterns leave. */
  function Left(cache: map<string, string>, user: string, org: string, patterns: seq<Pattern>): map<string, string> {
    map k | k in cache && !Deletes(user, org, patterns, k) :: cache[k]
  }

  /** Deleting the footprint of a write of one log keeps the agreement, however the write names the metric. */
  lemma WriteAgrees(owners: Owners, logs: Logs, logs': Logs, handler: Handler, cache: map<string, string>, spoilt: set<string>,
                    named: string, logId: string)
    requires DatabaseOk(owners, logs) && Id(named) && Lower(named) in owners && Id(logId)
    requires OnlyThese(logs, logs', Lower(named), {logId})
    requires Agrees(owners, logs, handler, cache, spoilt)
    ensures var (user, org) := owners[Lower(named)];
            Agrees(owners, logs', handler, Left(cache, user, org, Footprint(named, Some(logId))), SpoiltBy(spoilt, named))
  {
    var (user, org) := owners[Lower(named)];
    var left := Left(cache, user, org, Footprint(named, Some(logId)));
    forall user', org', r | Id(user') && Id(org') && RequestOk(r) && LowerCase(r)
                            && !Excused(owners, SpoiltBy(spoilt, named), user', org', r)
      ensures EntryAgrees(owners, logs', handler, left, user', org', r)
    {
      NotExcused(owners, spoilt, named, user', org', r);
      if (user', org') == (user, org) && InScope(ScopeOf(r), Lower(named), logId) {
        DeletedExactly(user, org, r, named, Some(logId));
        ScopeSpelled(r, named);
      } else {
        assert EntryAgrees(owners, logs, handler, cache, user', org', r);
        UntouchedRows(owners, logs, logs', Lower(named), {logId}, user', org', ScopeOf(r));
      }
    }
  }

  /** Not excused after the write: not before it either, unless the write names that very metric as it is spelled. */
  lemma NotExcused(owners: Owners, spoilt: set<string>, named: string, user: string, org: string, r: Request)
    requires Lower(named) in owners && !Excused(owners, SpoiltBy(spoilt, named), user, org, r)
    ensures Excused(owners, spoilt, user, org, r) ==>
              Spelled(named) && ScopeOf(r) == OneMetric(Lower(named)) && owners[Lower(named)] == (user, org)
    ensures ScopeOf(r) == OneMetric(Lower(named)) && owners[Lower(named)] == (user, org) ==> Spelled(named)
  {
  }

  lemma ScopeSpelled(r: Request, named: string)
    requires LowerCase(r)
    ensures ScopeOf(r) == OneMetric(Lower(named)) && Spelled(named) ==> InFootprint(r, named, None)
    ensures ScopeOf(r).AllLogs? ==> InFootprint(r, named, None)
  {
  }

  lemma PutAgrees(owners: Owners, logs: Logs, handler: Handler, cache: map<string, string>, spoilt: set<string>,
                  named: string, id: string, log: Log)
    requires DatabaseOk(owners, logs) && Id(id) && Spelled(id) && Id(named) && Lower(named) == log.metricId && log.metricId in owners
    requires id in logs ==> logs[id].metricId == log.metricId
    ensures DatabaseOk(owners, logs[id := log])
    ensures var (user, org) := owners[log.metricId];
            Agrees(owners, logs, handler, cache, spoilt) ==>
              Agrees(owners, logs[id := log], handler, Left(cache, user, org, Footprint(named, Some(id))), SpoiltBy(spoilt, named))
  {
    if Agrees(owners, logs, handler, cache, spoilt) {
      assert OnlyThese(logs, logs[id := log], log.metricId, {id});
      WriteAgrees(owners, logs, logs[id := log], handler, cache, spoilt, named, id);
    }
  }

  lemma MergeAgrees(owners: Owners, logs: Logs, handler: Handler, cache: map<string, string>, spoilt: set<string>,
                    rows: Logs, named: string)
    requires DatabaseOk(owners, logs) && HandlerOk(handler) && Id(named) && Lower(named) in owners && rows.Keys !! logs.Keys
    requires forall l :: l in rows ==> Id(l) && Spelled(l) && rows[l].metricId == Lower(named)
    ensures DatabaseOk(owners, logs + rows)
    ensures var (user, org) := owners[Lower(named)];
            Agrees(owners, logs, handler, cache, spoilt) ==>
              Agrees(owners, logs + rows, handler, Left(cache, user, org, Footprint(named, None)), SpoiltBy(spoilt, named))
  {
    if Agrees(owners, logs, handler, cache, spoilt) {
      assert OnlyThese(logs, logs + rows, Lower(named), rows.Keys);
      GeneratedAgrees(owners, logs, logs + rows, handler, cache, spoilt, named, rows.Keys);
    }
  }

  lemma GeneratedEntry(owners: Owners, logs: Logs, logs': Logs, handler: Handler, cache: map<string, string>,
                       named: string, made: set<string>, user: string, org: string, r: Request)
    requires DatabaseOk(owners, logs) && Id(named) && Lower(named) in owners && HandlerOk(handler)
    requires OnlyThese(logs, logs', Lower(named), made) && forall l :: l in made ==> l !in logs
    requires Id(user) && Id(org) && RequestOk(r) && EntryAgrees(owners, logs, handler, cache, user, org, r)
    requires owners[Lower(named)] != (user, org) || r.LogById? || (ScopeOf(r).OneMetric? && ScopeOf(r).metricId != Lower(named))
    ensures EntryAgrees(owners, logs', handler, cache, user, org, r)
  {
    if r.LogById? && Lower(r.id) in made {
      assert Rows(owners, logs, user, org, ScopeOf(r)) == map[];
    } else {
      UntouchedRows(owners, logs, logs', Lower(named), made, user, org, ScopeOf(r));
    }
  }

  /** New logs need no log entry deleted: none could have been stored before them. */
  lemma GeneratedAgrees(owners: Owners, logs: Logs, logs': Logs, handler: Handler, cache: map<string, string>, spoilt: set<string>,
                        named: string, made: set<string>)
    requires DatabaseOk(owners, logs) && Id(named) && Lower(named) in owners && HandlerOk(handler)
    requires OnlyThese(logs, logs', Lower(named), made) && forall l :: l in made ==> l !in logs
    requires Agrees(owners, logs, handler, cache, spoilt)
    ensures var (user, org) := owners[Lower(named)];
            Agrees(owners, logs', handler, Left(cache, user, org, Footprint(named, None)), SpoiltBy(spoilt, named))
  {
    var (user, org) := owners[Lower(named)];
    var left := Left(cache, user, org, Footprint(named, None));
    forall user', org', r | Id(user') && Id(org') && RequestOk(r) && LowerCase(r)
                            && !Excused(owners, SpoiltBy(spoilt, named), user', org', r)
      ensures EntryAgrees(owners, logs', handler, left, user', org', r)
    {
      NotExcused(owners, spoilt, named, user', org', r);
      if (user', org') == (user, org) && !r.LogById? && (ScopeOf(r).OneMetric? ==> ScopeOf(r).metricId == Lower(named)) {
        DeletedExactly(user, org, r, named, None);
        ScopeSpelled(r, named);
      } else {
        assert EntryAgrees(owners, logs, handler, cache, user', org', r);
        GeneratedEntry(owners, logs, logs', handler, cache, named, made, user', org', r);
      }
    }
  }

  /** An entry read under another case outlives a write that changes its answer. */
  lemma OtherCaseGoesStale(owners: Owners, logs: Logs, logs': Logs, handler: Handler, cache: map<string, string>,
                           r: Request, metricId: string, logId: string)
    requires DatabaseOk(owners, logs) && metricId in owners && Id(logId) && Spelled(logId)
    requires RequestOk(r) && !LowerCase(r) && InScope(ScopeOf(r), metricId, logId)
    requires var (user, org) := owners[metricId];
             && Key(user, org, r) in cache && EntryAgrees(owners, logs, handler, cache, user, org, r)
             && Recomputed(owners, logs', handler, user, org, r) != Recomputed(owners, logs, handler, user, org, r)
    ensures var (user, org) := owners[metricId];
            !EntryAgrees(owners, logs', handler, Left(cache, user, org, Footprint(metricId, Some(logId))), user, org, r)
  {
    ChangedEntriesExactly(owners[metricId].0, owners[metricId].1, r, metricId, logId);
  }

  /** A write that names its metric in another case leaves every entry of that metric's own reads. */
  lemma OtherCaseWriteGoesStale(owners: Owners, logs: Logs, logs': Logs, handler: Handler, cache: map<string, string>,
                                r: Request, named: string, logId: Option<string>)
    requires DatabaseOk(owners, logs) && Id(named) && !Spelled(named) && Lower(named) in owners && (logId.Some? ==> Id(logId.value))
    requires RequestOk(r) && LowerCase(r) && ScopeOf(r) == OneMetric(Lower(named))
    requires var (user, org) := owners[Lower(named)];
             && Key(user, org, r) in cache && EntryAgrees(owners, logs, handler, cache, user, org, r)
             && Recomputed(owners, logs', handler, user, org, r) != Recomputed(owners, logs, handler, user, org, r)
    ensures var (user, org) := owners[Lower(named)];
            !EntryAgrees(owners, logs', handler, Left(cache, user, org, Footprint(named, logId)), user, org, r)
  {
    var (user, org) := owners[Lower(named)];
    DeletedExactly(user, org, r, named, logId);
  }

  // ---- The server.

  datatype Result = Done | Invalid | Forbidden | NotFound | Conflict | Failed

  const MIN_VALUE := 0.0
  const MAX_VALUE := 1_000_000.0

  /** existsAtTimestamp, leaving out one log. */
  predicate Taken(logs: Logs, metricId: string, at: int, except: Option<string>) {
    exists l :: l in logs && logs[l].metricId == metricId && logs[l].loggedAt == at && except != Some(l)
  }

  // A time that was given but is not a date is Some(None).
  datatype Updates = Updates(value: Option<real>, kind: Option<Kind>, loggedAt: Option<Option<int>>)

  function Updated(log: Log, u: Updates, now: int): Log {
    Log(log.metricId,
        if u.value.Some? then u.value.value else log.value,
        if u.kind.Some? then u.kind.value else log.kind,
        if u.loggedAt.Some? && u.loggedAt.value.Some? then u.loggedAt.value.value else log.loggedAt,
        now)
  }

  class Server {
    const owners: Owners
    const handler: Handler
    var logs: Logs
    var cache: map<string, string>
    ghost var spoilt: set<string>

    /** The cache starts empty. */
    constructor (owners: Owners, logs: Logs, handler: Handler)
      requires DatabaseOk(owners, logs) && HandlerOk(handler)
      ensures Valid() && Fresh() && this.owners == owners && this.logs == logs && this.handler == handler
      ensures cache == map[] && spoilt == {}
    {
      this.owners, this.logs, this.handler, cache, spoilt := owners, logs, handler, map[], {};
    }

    ghost predicate Valid()
      reads this
    {
      DatabaseOk(owners, logs) && HandlerOk(handler)
    }

    ghost predicate Fresh()
      reads this
    {
      Agrees(owners, logs, handler, cache, spoilt)
    }

    function Now(user: string, org: string, r: Request): Answer
      reads this
    {
      Recomputed(owners, logs, handler, user, org, r)
    }

    /** cacheMiddleware: what is stored is answered with status 200, and nothing else is ever stored. */
    method Read(user: string, org: string, r: Request) returns (answer: Answer)
      requires Valid() && Id(user) && Id(org) && RequestOk(r)
      modifies this`cache
      ensures old(Fresh()) ==> Fresh()
      ensures old(Fresh()) && LowerCase(r) && !Excused(owners, spoilt, user, org, r) ==> answer == old(Now(user, org, r))
      ensures answer == if Key(user, org, r) in old(cache) then Answer(true, old(cache)[Key(user, org, r)]) else old(Now(user, org, r))
      ensures cache == if answer.ok && !(r.Dashboard? && |r.metricIds| == 0) then old(cache)[Key(user, org, r) := answer.body] else old(cache)
    {
      var key := Key(user, org, r);
      if Fresh() {
        ReadAgrees(owners, logs, handler, cache, spoilt, user, org, r, key);
      }
      if key in cache {
        answer := Answer(true, cache[key]);
        assert cache[key := cache[key]] == cache;
        return;
      }
      answer := Now(user, org, r);
      if answer.ok && Stored(r) {
        cache := cache[key := answer.body];
      }
    }

    method DeleteByPattern(user: string, org: string, p: Pattern)
      modifies this`cache
      ensures cache == Left(old(cache), user, org, [p])
    {
      cache := map k | k in cache && !Matches(PatternText(user, org, p), k) :: cache[k];
      assert p in [p];
    }

    /** MetricLogCacheRedis.invalidate, and the two it calls; the walks may end in any order. */
    method Invalidate(user: string, org: string, metricId: string, logId: Option<string>)
      modifies this`cache
      ensures cache == Left(old(cache), user, org, Footprint(metricId, logId))
    {
      var patterns := [LogLists, StatsOf(metricId), StatsOf("all")];
      if logId.Some? {
        patterns := patterns + [LogEntries(logId.value)];
      }
      patterns := patterns + [Charts(metricId), Dashboards, MetricLists, MetricEntries(metricId)];
      ghost var was := cache;
      var n := 0;
      while n < |patterns|
        invariant 0 <= n <= |patterns|
        invariant cache == Left(was, user, org, patterns[..n])
      {
        DeleteByPattern(user, org, patterns[n]);
        assert patterns[..n + 1] == patterns[..n] + [patterns[n]];
        n := n + 1;
      }
      assert patterns[..n] == patterns == Footprint(metricId, logId);
    }

    /** The write of one row and the invalidation after it, under the metric's id as the caller has it. */
    method Put(user: string, org: string, named: string, id: string, log: Log)
      requires Valid() && Id(id) && Spelled(id) && Id(named) && Lower(named) == log.metricId
      requires log.metricId in owners && owners[log.metricId] == (user, org)
      requires id in logs ==> logs[id].metricId == log.metricId
      modifies this`logs, this`cache, this`spoilt
      ensures Valid() && (old(Fresh()) ==> Fresh())
      ensures logs == old(logs)[id := log] && spoilt == SpoiltBy(old(spoilt), named)
    {
      PutAgrees(owners, logs, handler, cache, spoilt, named, id, log);
      logs, spoilt := logs[id := log], SpoiltBy(spoilt, named);
      Invalidate(user, org, named, Some(id));
    }

    /** A UUID the table already has makes the insert fail. */
    method Create(user: string, org: string, metricId: string, value: real, kind: Kind,
                  loggedAt: Option<Option<int>>, now: int, newId: string) returns (result: Result)
      requires Valid() && Id(newId) && Spelled(newId) && (metricId != "" ==> Id(metricId))
      modifies this`logs, this`cache, this`spoilt
      ensures Valid()
      ensures old(Fresh()) ==> Fresh()
      ensures spoilt == if result == Done then SpoiltBy(old(spoilt), metricId) else old(spoilt)
      ensures result == NotFound <==> metricId != "" && (Lower(metricId) in owners ==> owners[Lower(metricId)].1 != org)
      ensures result == Forbidden <==>
                metricId != "" && Lower(metricId) in owners && owners[Lower(metricId)].1 == org && owners[Lower(metricId)].0 != user
      ensures var own := metricId != "" && Lower(metricId) in owners && owners[Lower(metricId)] == (user, org);
              var at := if loggedAt.Some? && loggedAt.value.Some? then loggedAt.value.value else now;
              && (result == Invalid <==> metricId == "" || (own && loggedAt == Some(None)))
              && (result == Conflict <==> (
                    && own && loggedAt != Some(None)
                    && exists l :: l in old(logs) && old(logs)[l].metricId == Lower(metricId) && old(logs)[l].loggedAt == at))
              && (result == Failed ==> newId in old(logs))
              && (result == Done <==> own && result !in {Invalid, Conflict} && newId !in old(logs))
      ensures result != Done ==> logs == old(logs) && cache == old(cache)
      ensures result == Done ==>
                logs == old(logs)[newId := Log(Lower(metricId), value, kind, if loggedAt.Some? then loggedAt.value.value else now, now)]
    {
      if metricId == "" {
        return Invalid;
      }
      var m := Lower(metricId);
      if m !in owners || owners[m].1 != org {
        return NotFound;
      }
      if owners[m].0 != user {
        return Forbidden;
      }
      if loggedAt.Some? && loggedAt.value.None? {
        return Invalid;
      }
      var at := if loggedAt.Some? then loggedAt.value.value else now;
      if Taken(logs, m, at, None) {
        return Conflict;
      }
      if newId in logs {
        return Failed;
      }
      Put(user, org, metricId, newId, Log(m, value, kind, at, now));
      result := Done;
    }

    method Update(user: string, org: string, logId: string, u: Updates, now: int) returns (result: Result)
      requires Valid()
      modifies this`logs, this`cache, this`spoilt
      ensures Valid()
      ensures old(Fresh()) ==> Fresh()
      ensures result in {Done, NotFound, Invalid, Conflict}
      ensures result == NotFound <==> Lower(logId) in old(logs) ==> owners[old(logs)[Lower(logId)].metricId] != (user, org)
      ensures var bad := u.loggedAt == Some(None) || (u.value.Some? && !(0.0 <= u.value.value <= 1_000_000.0));
              result == Invalid <==> result != NotFound && bad
      ensures result == Conflict <==> (
                && result != NotFound && result != Invalid && u.loggedAt.Some?
                && exists l :: l in old(logs) && l != Lower(logId)
                     && old(logs)[l].metricId == old(logs)[Lower(logId)].metricId && old(logs)[l].loggedAt == u.loggedAt.value.value)
      ensures result != Done ==> logs == old(logs) && cache == old(cache)
      ensures spoilt == if result == Done then old(spoilt) - {old(logs)[Lower(logId)].metricId} else old(spoilt)
      ensures result == Done ==> logs == old(logs)[Lower(logId) := Updated(old(logs)[Lower(logId)], u, now)]
    {
      var id := Lower(logId);
      if id !in logs || owners[logs[id].metricId] != (user, org) {
        return NotFound;
      }
      var log := logs[id];
      if u.value.Some? {
        if u.value.value < MIN_VALUE || MAX_VALUE < u.value.value {
          return Invalid;
        }
        log := log.(value := u.value.value);
      }
      if u.kind.Some? {
        log := log.(kind := u.kind.value);
      }
      if u.loggedAt.Some? {
        if u.loggedAt.value.None? {
          return Invalid;
        }
        if Taken(logs, log.metricId, u.loggedAt.value.value, Some(id)) {
          return Conflict;
        }
        log := log.(loggedAt := u.loggedAt.value.value);
      }
      Put(user, org, log.metricId, id, log.(updatedAt := now));
      result := Done;
    }

    method Delete(user: string, org: string, logId: string) returns (result: Result)
      requires Valid()
      modifies this`logs, this`cache, this`spoilt
      ensures Valid()
      ensures old(Fresh()) ==> Fresh()
      ensures result == if Lower(logId) in old(logs) && owners[old(logs)[Lower(logId)].metricId] == (user, org) then Done else NotFound
      ensures result != Done ==> logs == old(logs) && cache == old(cache)
      ensures spoilt == if result == Done then old(spoilt) - {old(logs)[Lower(logId)].metricId} else old(spoilt)
      ensures result == Done ==> logs == old(logs) - {Lower(logId)}
    {
      var id := Lower(logId);
      if id !in logs || owners[logs[id].metricId] != (user, org) {
        return NotFound;
      }
      ghost var was, before, had := logs, cache, spoilt;
      var log := logs[id];
      logs, spoilt := logs - {id}, SpoiltBy(spoilt, log.metricId);
      Invalidate(user, org, log.metricId, Some(id));
      result := Done;
      if Agrees(owners, was, handler, before, had) {
        LowerTwice(log.metricId);
        WriteAgrees(owners, was, logs, handler, before, had, log.metricId, id);
      }
    }

    method Add(user: string, org: string, named: string, made: Logs)
      requires Valid() && Id(named) && Lower(named) in owners && owners[Lower(named)] == (user, org)
      requires made.Keys !! logs.Keys && forall l :: l in made ==> Id(l) && Spelled(l) && made[l].metricId == Lower(named)
      modifies this`logs, this`cache, this`spoilt
      ensures Valid() && (old(Fresh()) ==> Fresh())
      ensures logs == old(logs) + made && spoilt == SpoiltBy(old(spoilt), named)
    {
      MergeAgrees(owners, logs, handler, cache, spoilt, made, named);
      logs, spoilt := logs + made, SpoiltBy(spoilt, named);
      Invalidate(user, org, named, None);
    }

    /**
     * The dummy-log job: its rows in one transaction, unless the message was handled before; the caches
     * are cleared either way.
     */
    method Generate(user: string, org: string, metricId: string, rows: map<string, Log>, duplicate: bool) returns (result: Result)
      requires Valid() && Id(metricId)
      requires forall l :: l in rows ==> Id(l) && Spelled(l) && rows[l].metricId == Lower(metricId)
      modifies this`logs, this`cache, this`spoilt
      ensures Valid()
      ensures old(Fresh()) ==> Fresh()
      ensures spoilt == if result == Done then SpoiltBy(old(spoilt), metricId) else old(spoilt)
      ensures result == Done <==>
                && Lower(metricId) in owners && owners[Lower(metricId)] == (user, org)
                && (duplicate || rows.Keys !! old(logs).Keys)
      ensures result in {Done, Forbidden, Failed}
      ensures result == Forbidden <==> (Lower(metricId) in owners ==> owners[Lower(metricId)] != (user, org))
      ensures logs == if result == Done && !duplicate then old(logs) + rows else old(logs)
    {
      var m := Lower(metricId);
      if m !in owners || owners[m] != (user, org) {
        return Forbidden;
      }
      var made: Logs := if duplicate then map[] else rows;
      if !(made.Keys !! logs.Keys) {
        return Failed;
      }
      Add(user, org, metricId, made);
      result := Done;
    }

    /** Redis drops an entry at its time to live. */
    method Expire(key: string)
      modifies this`cache
      ensures old(Fresh()) ==> Fresh()
      ensures cache == old(cache) - {key}
    {
      ghost var before := cache;
      cache := cache - {key};
      if Agrees(owners, logs, handler, before, spoilt) {
        FewerAgrees(owners, logs, handler, before, spoilt, cache);
      }
    }
  }

  // ---- Serial runs.

  datatype Op =
    | OpRead(user: string, org: string, r: Request)
    | OpCreate(user: string, org: string, metricId: string, value: real, kind: Kind, at: Option<Option<int>>, now: int, newId: string)
    | OpUpdate(user: string, org: string, logId: string, updates: Updates, now: int)
    | OpDelete(user: string, org: string, logId: string)
    | OpGenerate(user: string, org: string, metricId: string, rows: Logs, duplicate: bool)
    | OpExpire(key: string)

  predicate OpOk(op: Op) {
    match op
    case OpRead(user, org, r) => Id(user) && Id(org) && RequestOk(r)
    case OpCreate(_, _, metricId, _, _, _, _, newId) => Id(newId) && Spelled(newId) && (metricId != "" ==> Id(metricId))
    case OpGenerate(_, _, metricId, rows, _) =>
      Id(metricId) && forall l :: l in rows ==> Id(l) && Spelled(l) && rows[l].metricId == Lower(metricId)
    case _ => true
  }

  /** A create or a dummy-log job that names metric `m` in another case. */
  predicate Spoils(op: Op, m: string) {
    match op
    case OpCreate(_, _, metricId, _, _, _, _, _) => !Spelled(metricId) && Lower(metricId) == m
    case OpGenerate(_, _, metricId, _, _) => !Spelled(metricId) && Lower(metricId) == m
    case _ => false
  }

  /**
   * In every serial run the cache agrees after each step, but for the own reads of metrics that a write
   * has named in another case; with no such write, for all.
   */
  method Serve(server: Server, ops: seq<Op>) returns (answers: seq<Answer>)
    requires server.Valid() && server.Fresh()
    requires forall i :: 0 <= i < |ops| ==> OpOk(ops[i])
    modifies server
    ensures server.Valid() && server.Fresh()
    ensures forall m :: m in server.spoilt ==> m in old(server.spoilt) || exists i :: 0 <= i < |ops| && Spoils(ops[i], m)
  {
    answers := [];
    var n := 0;
    while n < |ops|
      invariant 0 <= n <= |ops| && server.Valid() && server.Fresh()
      invariant forall m :: m in server.spoilt ==> m in old(server.spoilt) || exists i :: 0 <= i < n && Spoils(ops[i], m)
    {
      match ops[n] {
        case OpRead(user, org, r) =>
          ghost var now := server.Now(user, org, r);
          var answer := server.Read(user, org, r);
          assert LowerCase(r) && !Excused(server.owners, server.spoilt, user, org, r) ==> answer == now;
          answers := answers + [answer];
        case OpCreate(user, org, metricId, value, kind, at, now, newId) =>
          var result := server.Create(user, org, metricId, value, kind, at, now, newId);
        case OpUpdate(user, org, logId, updates, now) =>
          var result := server.Update(user, org, logId, updates, now);
        case OpDelete(user, org, logId) =>
          var result := server.Delete(user, org, logId);
        case OpGenerate(user, org, metricId, rows, duplicate) =>
          var result := server.Generate(user, org, metricId, rows, duplicate);
        case OpExpire(key) =>
          server.Expire(key);
      }
      n := n + 1;
    }
  }
}
