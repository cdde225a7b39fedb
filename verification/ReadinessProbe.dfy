/**
 * The readiness probe as a machine of its events: readiness-probe.ts. The checks run one round at a time,
 * at most one round a window, and no check started while it still hangs.
 */
module ReadinessProbe {
  import opened Common

  /** One status a check, true for "ok"; the whole is ok when all are. */
  type Statuses = seq<bool>

  datatype Entry = Entry(at: int, result: Statuses)

  /** A run's promises: None while pending. `result` is set when all have resolved. */
  datatype Run = Run(id: nat, statuses: seq<Option<bool>>, result: Option<Statuses>)

  datatype Answer = FromEntry(result: Statuses) | FromRun(id: nat)

  /** A check's own promise: the run that started it, and its name. */
  datatype Check = Check(run: nat, name: nat)

  /** When each run started and ended, and what it gave. */
  datatype History = History(clock: int, starts: seq<int>, ends: seq<int>, results: seq<Statuses>, passed: set<Check>)

  /** Starts are at least a window apart. */
  predicate Spaced(starts: seq<int>, window: int) {
    forall i, j :: 0 <= i < j < |starts| ==> starts[i] + window <= starts[j]
  }

  predicate Going(running: Option<Run>) {
    running.Some? && running.value.result.None?
  }

  /** Each run ended before the next began, and began a window after that. */
  predicate OneAtATime(h: History, window: int, running: Option<Run>) {
    && |h.starts| == |h.ends| + (if Going(running) then 1 else 0)
    && (running.Some? ==> running.value.id == |h.starts| - 1)
    && (forall i :: 0 <= i < |h.ends| ==> h.starts[i] <= h.ends[i] <= h.clock)
    && (forall i :: 0 <= i < |h.starts| ==> h.starts[i] <= h.clock)
    && (forall i, j :: 0 <= i < j < |h.starts| ==> h.ends[i] + window <= h.starts[j])
  }

  /** The entry is the last result, stored as its run ended. */
  predicate EntryIsLast(h: History, cached: Option<Entry>, running: Option<Run>) {
    && |h.results| == |h.ends|
    && (cached.Some? <==> h.ends != [])
    && (cached.Some? ==> cached.value == Entry(h.ends[|h.ends| - 1], h.results[|h.results| - 1]))
    && (running.Some? && running.value.result.Some? ==> cached.Some? && running.value.result.value == cached.value.result)
  }

  /** No check has two promises outstanding, and `unsettled` names those that have one. */
  ghost predicate OutstandingOnce(unsettled: set<nat>, outstanding: set<Check>) {
    && (forall c :: c in outstanding ==> c.name in unsettled)
    && (forall name :: name in unsettled ==> exists c :: c in outstanding && c.name == name)
    && (forall c, d :: c in outstanding && d in outstanding && c.name == d.name ==> c == d)
  }

  /** A status is ok only when that run's own check resolved. */
  predicate OkMeansPassed(h: History, count: nat, running: Option<Run>) {
    && (running.Some? ==> |running.value.statuses| == count)
    && (running.Some? ==> forall i :: 0 <= i < count && running.value.statuses[i] == Some(true) ==> Check(running.value.id, i) in h.passed)
    && (forall k :: 0 <= k < |h.results| ==> |h.results[k]| == count)
    && (forall k, i :: 0 <= k < |h.results| && 0 <= i < |h.results[k]| && h.results[k][i] ==> Check(k, i) in h.passed)
  }

  /** A negative age is a clock set back. */
  predicate IsFresh(cached: Option<Entry>, now: int, windowMs: nat) {
    cached.Some? && 0 <= now - cached.value.at < windowMs
  }

  class Probe {
    const count: nat
    const windowMs: nat
    var cached: Option<Entry>
    var running: Option<Run>
    var unsettled: set<nat>
    // Tells the promises of different runs apart.
    var runs: nat

    // The world's: what has happened, and the promises still pending.
    var h: History
    var outstanding: set<Check>

    ghost predicate Valid()
      reads this
    {
      && runs == |h.starts|
      && OneAtATime(h, windowMs, running)
      && EntryIsLast(h, cached, running)
      && OutstandingOnce(unsettled, outstanding)
      && OkMeansPassed(h, count, running)
    }

    constructor (count: nat, windowMs: nat)
      ensures Valid() && h.starts == [] && this.count == count && this.windowMs == windowMs
    {
      this.count, this.windowMs := count, windowMs;
      cached, running, unsettled, runs := None, None, {}, 0;
      h, outstanding := History(0, [], [], [], {}), {};
    }

    /** Starts every check that is not still hanging; one that is fails at once. */
    method StartChecks(id: nat) returns (statuses: seq<Option<bool>>)
      requires OutstandingOnce(unsettled, outstanding)
      modifies this`unsettled, this`outstanding
      ensures OutstandingOnce(unsettled, outstanding)
      ensures |statuses| == count
      ensures forall i :: 0 <= i < count ==> statuses[i] == if i in old(unsettled) then Some(false) else None
      ensures old(outstanding) <= outstanding && old(unsettled) <= unsettled
      ensures forall i :: 0 <= i < count ==> i in unsettled && (i !in old(unsettled) ==> Check(id, i) in outstanding)
      ensures forall i :: i >= count ==> (i in unsettled <==> i in old(unsettled))
    {
      ghost var hanging, were := unsettled, outstanding;
      statuses := [];
      var name := 0;
      while name < count
        invariant 0 <= name <= count && |statuses| == name
        invariant OutstandingOnce(unsettled, outstanding)
        invariant forall i :: 0 <= i < name ==> statuses[i] == if i in hanging then Some(false) else None
        invariant forall i :: i >= name ==> (i in unsettled <==> i in hanging)
        invariant were <= outstanding && hanging <= unsettled
        invariant forall i :: 0 <= i < name ==> i in unsettled && (i !in hanging ==> Check(id, i) in outstanding)
      {
        if name in unsettled {
          statuses := statuses + [Some(false)];
        } else {
          OneMoreOutstanding(unsettled, outstanding, Check(id, name));
          unsettled := unsettled + {name};
          outstanding := outstanding + {Check(id, name)};
          statuses := statuses + [None];
        }
        name := name + 1;
      }
    }

    method RunAll(now: int)
      requires Valid() && running.None? && h.clock <= now
      requires h.ends != [] ==> h.ends[|h.ends| - 1] + windowMs <= now
      modifies this
      ensures Valid() && cached == old(cached)
      ensures h == old(h).(clock := now, starts := old(h).starts + [now])
      ensures running.Some? && running.value.id == |old(h).starts| && running.value.result.None?
      ensures forall i :: 0 <= i < count ==> running.value.statuses[i] == if i in old(unsettled) then Some(false) else None
    {
      var id := runs;
      var statuses := StartChecks(id);
      runs := runs + 1;
      RunBegins(h, windowMs, now, Run(id, statuses, None));
      h := h.(clock := now, starts := h.starts + [now]);
      running := Some(Run(id, statuses, None));
    }

    /** The answer is an entry younger than the window, or the one current run. */
    method Call(now: int) returns (answer: Answer)
      requires Valid() && h.clock <= now
      modifies this
      ensures Valid() && cached == old(cached)
      ensures answer.FromEntry? <==> IsFresh(cached, now, windowMs)
      ensures answer.FromEntry? ==>
                h.ends != [] && cached == Some(Entry(h.ends[|h.ends| - 1], answer.result)) && 0 <= now - h.ends[|h.ends| - 1] < windowMs
      ensures answer.FromRun? ==> running.Some? && running.value.id == answer.id == |h.starts| - 1
      ensures h == old(h).(clock := now, starts :=
                     if answer.FromRun? && old(running).None? then old(h).starts + [now] else old(h).starts)
      ensures old(running).Some? ==> running == old(running)
    {
      h := h.(clock := now);
      if cached.Some? {
        var age := now - cached.value.at;
        if age >= 0 && age < windowMs {
          return FromEntry(cached.value.result);
        }
      }
      if running.None? {
        RunAll(now);
      }
      answer := FromRun(running.value.id);
    }

    /** A check's promise settles, whichever run started it. */
    method Settle(check: Check, ok: bool)
      requires Valid() && check in outstanding
      modifies this`unsettled, this`outstanding, this`h
      ensures Valid() && unsettled == old(unsettled) - {check.name} && outstanding == old(outstanding) - {check}
      ensures h == if ok then old(h).(passed := old(h).passed + {check}) else old(h)
    {
      if ok {
        h := h.(passed := h.passed + {check});
      }
      OneLessOutstanding(unsettled, outstanding, check);
      outstanding := outstanding - {check};
      unsettled := unsettled - {check.name};
    }

    /** A run's promise resolves, once: with what its check settled to, or with the timeout's failure. */
    method Resolve(check: Check, ok: bool)
      requires Valid() && (ok ==> check in h.passed)
      modifies this`running
      ensures Valid()
      ensures running == match old(running)
                         case Some(run) =>
                           if run.id == check.run && check.name < count && run.statuses[check.name].None? then
                             Some(run.(statuses := run.statuses[check.name := Some(ok)]))
                           else Some(run)
                         case None => None
    {
      if running.Some? && running.value.id == check.run && check.name < count && running.value.statuses[check.name].None? {
        running := Some(running.value.(statuses := running.value.statuses[check.name := Some(ok)]));
      }
    }

    /** All of the run's promises have resolved: its result is stored. */
    method Complete(now: int)
      requires Valid() && h.clock <= now
      requires Going(running) && None !in running.value.statuses
      modifies this`cached, this`running, this`h
      ensures Valid() && running.Some? && cached.Some? && cached.value.at == now
      ensures h == old(h).(clock := now, ends := old(h).ends + [now], results := old(h).results + [cached.value.result])
      ensures forall i :: 0 <= i < count ==> Some(cached.value.result[i]) == old(running).value.statuses[i]
    {
      var run := running.value;
      var result := seq(count, i requires 0 <= i < count && run.statuses[i].Some? => run.statuses[i].value);
      RunEnds(h, windowMs, now, running, result);
      h := h.(clock := now, ends := h.ends + [now], results := h.results + [result]);
      cached := Some(Entry(now, result));
      running := Some(run.(result := Some(result)));
    }

    /** The `finally` after the run. */
    method Clear()
      requires Valid() && running.Some? && running.value.result.Some?
      modifies this`running
      ensures Valid() && running.None?
    {
      running := None;
    }
  }

  lemma OneMoreOutstanding(unsettled: set<nat>, outstanding: set<Check>, c: Check)
    requires OutstandingOnce(unsettled, outstanding) && c.name !in unsettled
    ensures OutstandingOnce(unsettled + {c.name}, outstanding + {c})
  {
    forall name | name in unsettled + {c.name}
      ensures exists d :: d in outstanding + {c} && d.name == name
    {
      if name == c.name {
        assert c in outstanding + {c};
      } else {
        var d :| d in outstanding && d.name == name;
        assert d in outstanding + {c};
      }
    }
  }

  lemma OneLessOutstanding(unsettled: set<nat>, outstanding: set<Check>, c: Check)
    requires OutstandingOnce(unsettled, outstanding) && c in outstanding
    ensures OutstandingOnce(unsettled - {c.name}, outstanding - {c})
  {
    forall name | name in unsettled - {c.name}
      ensures exists d :: d in outstanding - {c} && d.name == name
    {
      var d :| d in outstanding && d.name == name;
      assert d in outstanding - {c};
    }
  }

  lemma RunBegins(h: History, window: nat, now: int, run: Run)
    requires OneAtATime(h, window, None) && h.clock <= now && run.id == |h.starts| && run.result.None?
    requires h.ends != [] ==> h.ends[|h.ends| - 1] + window <= now
    ensures OneAtATime(h.(clock := now, starts := h.starts + [now]), window, Some(run))
  {
    var starts := h.starts + [now];
    forall i, j | 0 <= i < j < |starts|
      ensures h.ends[i] + window <= starts[j]
    {
      if j == |h.starts| {
        var last := |h.ends| - 1;
        assert i < last ==> h.ends[i] + window <= h.starts[last] <= h.ends[last];
      }
    }
  }

  lemma RunEnds(h: History, window: nat, now: int, running: Option<Run>, result: Statuses)
    requires OneAtATime(h, window, running) && Going(running) && h.clock <= now
    ensures OneAtATime(h.(clock := now, ends := h.ends + [now], results := h.results + [result]), window,
                       Some(running.value.(result := Some(result))))
  {
    var ends := h.ends + [now];
    assert forall i :: 0 <= i < |h.ends| ==> ends[i] == h.ends[i];
  }

  lemma StartsAreSpaced(h: History, window: nat, running: Option<Run>)
    requires OneAtATime(h, window, running)
    ensures Spaced(h.starts, window)
  {
    forall i, j | 0 <= i < j < |h.starts|
      ensures h.starts[i] + window <= h.starts[j]
    {
      assert h.ends[i] + window <= h.starts[j];
    }
  }

  // ---- The rate.

  /** How many runs start from `from` to `to`. */
  function CountIn(starts: seq<int>, from: int, to: int): nat {
    if starts == [] then 0
    else CountIn(starts[..|starts| - 1], from, to) + if from <= starts[|starts| - 1] <= to then 1 else 0
  }

  lemma {:induction false} CountAtMost(starts: seq<int>, window: nat, from: int, to: int)
    requires Spaced(starts, window) && forall i :: 0 <= i < |starts| ==> starts[i] <= to
    ensures CountIn(starts, from, to) == 0 || from + (CountIn(starts, from, to) - 1) * window <= starts[|starts| - 1]
  {
    if starts != [] {
      var front, last := starts[..|starts| - 1], starts[|starts| - 1];
      CountAtMost(front, window, from, to);
      var n := CountIn(front, from, to);
      if n > 0 {
        assert front[|front| - 1] + window <= last;
        Multiple(n, window);
      }
    }
  }

  lemma Multiple(n: nat, window: nat)
    requires n > 0
    ensures (n - 1) * window + window == n * window
  {
  }

  lemma {:induction false} CountsUpTo(starts: seq<int>, window: nat, from: int, to: int)
    requires Spaced(starts, window)
    ensures exists k :: 0 <= k <= |starts| && CountIn(starts, from, to) == CountIn(starts[..k], from, to)
                        && forall i :: 0 <= i < k ==> starts[i] <= to
  {
    if starts == [] || starts[|starts| - 1] <= to {
      assert starts[..|starts|] == starts;
      assert forall i :: 0 <= i < |starts| - 1 ==> starts[i] + window <= starts[|starts| - 1];
    } else {
      var front := starts[..|starts| - 1];
      CountsUpTo(front, window, from, to);
      var k :| 0 <= k <= |front| && CountIn(front, from, to) == CountIn(front[..k], from, to) && forall i :: 0 <= i < k ==> front[i] <= to;
      assert starts[..k] == front[..k];
    }
  }

  lemma FewUpTo(starts: seq<int>, window: nat, from: int, to: int)
    requires Spaced(starts, window) && window > 0 && from <= to
    requires forall i :: 0 <= i < |starts| ==> starts[i] <= to
    ensures CountIn(starts, from, to) <= (to - from) / window + 1
  {
    var n := CountIn(starts, from, to);
    CountAtMost(starts, window, from, to);
    if n > 0 {
      assert (n - 1) * window <= to - from;
      FitsIn(n - 1, window, to - from);
    } else {
      FitsIn(0, window, to - from);
    }
  }

  /** At most L / window + 1 runs start in any span of L. */
  lemma RateBound(starts: seq<int>, window: nat, from: int, to: int)
    requires Spaced(starts, window) && window > 0 && from <= to
    ensures CountIn(starts, from, to) <= (to - from) / window + 1
  {
    CountsUpTo(starts, window, from, to);
    var k :| 0 <= k <= |starts| && CountIn(starts, from, to) == CountIn(starts[..k], from, to)
             && forall i :: 0 <= i < k ==> starts[i] <= to;
    FewUpTo(starts[..k], window, from, to);
  }

  lemma FitsIn(n: nat, window: nat, span: nat)
    requires window > 0 && n * window <= span
    ensures n <= span / window
  {
    var q := span / window;
    assert span < (q + 1) * window;
    assert n >= q + 1 ==> n * window >= (q + 1) * window;
  }

  // ---- Any order of events.

  /** `later` moves the clock on by that much. */
  datatype Event =
    | OnCall(later: nat)
    | OnSettle(check: Check, ok: bool)
    | OnResolve(check: Check)
    | OnTimeout(check: Check)
    | OnAllResolved(later: nat)
    | OnFinally

  /** Over every run of events: one run at a time, starts a window apart, and the bound on their rate. */
  method AnyOrder(p: Probe, events: seq<Event>)
    requires p.Valid() && p.windowMs > 0
    modifies p
    ensures p.Valid() && Spaced(p.h.starts, p.windowMs)
    ensures forall from, to :: from <= to ==> CountIn(p.h.starts, from, to) <= (to - from) / p.windowMs + 1
    ensures forall c, d :: c in p.outstanding && d in p.outstanding && c.name == d.name ==> c == d
  {
    var n := 0;
    while n < |events|
      invariant p.Valid()
    {
      Step(p, events[n]);
      n := n + 1;
    }
    StartsAreSpaced(p.h, p.windowMs, p.running);
    forall from, to | from <= to
      ensures CountIn(p.h.starts, from, to) <= (to - from) / p.windowMs + 1
    {
      RateBound(p.h.starts, p.windowMs, from, to);
    }
  }

  /** An event that cannot happen now does nothing. */
  method Step(p: Probe, event: Event)
    requires p.Valid()
    modifies p
    ensures p.Valid()
    ensures p.h.starts == if event.OnCall? && old(p.running).None? && !IsFresh(old(p.cached), old(p.h).clock + event.later, p.windowMs)
                          then old(p.h).starts + [old(p.h).clock + event.later] else old(p.h).starts
  {
    match event {
      case OnCall(later) =>
        var answer := p.Call(p.h.clock + later);
      case OnSettle(check, ok) =>
        if check in p.outstanding {
          p.Settle(check, ok);
        }
      case OnResolve(check) =>
        p.Resolve(check, check in p.h.passed);
      case OnTimeout(check) =>
        p.Resolve(check, false);
      case OnAllResolved(later) =>
        if Going(p.running) && None !in p.running.value.statuses {
          p.Complete(p.h.clock + later);
        }
      case OnFinally =>
        if p.running.Some? && p.running.value.result.Some? {
          p.Clear();
        }
    }
  }
}
