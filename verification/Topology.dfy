/** The broker's exchanges and queues, and where a message that leaves a queue goes: topology.ts. */
module Topology {
  import opened Common
  import opened Text

  datatype QueueArgs = QueueArgs(ttlMs: Option<nat>, deadLetterExchange: Option<string>, deadLetterKey: Option<string>)

  datatype Binding = Binding(queue: string, exchange: string, pattern: string)

  datatype Broker = Broker(exchanges: set<string>, queues: map<string, QueueArgs>, bindings: seq<Binding>)

  // ---- Names. `app` prefixes all of them.

  function JobsExchange(app: string): string { app + ".jobs" }

  function ParkingExchange(app: string): string { app + ".jobs.parking" }

  function ParkingQueue(app: string): string { app + ".jobs.parking.queue" }

  const DUMMY_LOGS_KEY := "metric-log.generate-dummy"
  const VERIFICATION_KEY := "auth.send-verification-email"
  const PASSWORD_RESET_KEY := "auth.send-password-reset-email"
  const INVITE_KEY := "auth.send-invite-email"

  /** Each work queue is named after its routing key. */
  function WorkQueue(app: string, key: string): string { app + "." + key }

  function WorkQueues(app: string): set<string> {
    {WorkQueue(app, DUMMY_LOGS_KEY), WorkQueue(app, VERIFICATION_KEY),
     WorkQueue(app, PASSWORD_RESET_KEY), WorkQueue(app, INVITE_KEY)}
  }

  function RetryQueueFor(queue: string, delayMs: nat): string {
    queue + ".retry." + Decimal(delayMs)
  }

  function WorkArgs(app: string): QueueArgs {
    QueueArgs(None, Some(ParkingExchange(app)), None)
  }

  function RetryArgs(queue: string, delayMs: nat): QueueArgs {
    QueueArgs(Some(delayMs), Some(""), Some(queue))
  }

  const PLAIN_ARGS := QueueArgs(None, None, None)

  // ---- The broker's own rules.

  /** Declaring is idempotent; a queue that exists with other arguments refuses it. */
  function AssertQueue(b: Broker, name: string, args: QueueArgs): Option<Broker> {
    if name in b.queues && b.queues[name] != args then None
    else Some(b.(queues := b.queues[name := args]))
  }

  function BindQueue(b: Broker, queue: string, exchange: string, pattern: string): Broker {
    var binding := Binding(queue, exchange, pattern);
    if binding in b.bindings then b else b.(bindings := b.bindings + [binding])
  }

  predicate Matches(binding: Binding, exchange: string, key: string) {
    binding.exchange == exchange && (binding.pattern == "#" || binding.pattern == key)
  }

  /** The queues a message reaches; the default exchange routes by queue name. */
  function Routes(b: Broker, exchange: string, key: string): seq<string> {
    if exchange == "" then (if key in b.queues then [key] else [])
    else RoutesFrom(b.bindings, exchange, key)
  }

  function RoutesFrom(bindings: seq<Binding>, exchange: string, key: string): seq<string> {
    if bindings == [] then []
    else (if Matches(bindings[0], exchange, key) then [bindings[0].queue] else [])
         + RoutesFrom(bindings[1..], exchange, key)
  }

  /** Where a message expired or refused in `queue` goes; `key` is the one it was published under. */
  function DeadLetterRoutes(b: Broker, queue: string, key: string): seq<string>
    requires queue in b.queues
  {
    var args := b.queues[queue];
    if args.deadLetterExchange.None? then []
    else Routes(b, args.deadLetterExchange.value, if args.deadLetterKey.Some? then args.deadLetterKey.value else key)
  }

  // ---- What assertTopology declares.

  function TopologyBindings(app: string): seq<Binding> {
    [Binding(WorkQueue(app, DUMMY_LOGS_KEY), JobsExchange(app), DUMMY_LOGS_KEY),
     Binding(WorkQueue(app, VERIFICATION_KEY), JobsExchange(app), VERIFICATION_KEY),
     Binding(WorkQueue(app, PASSWORD_RESET_KEY), JobsExchange(app), PASSWORD_RESET_KEY),
     Binding(WorkQueue(app, INVITE_KEY), JobsExchange(app), INVITE_KEY),
     Binding(ParkingQueue(app), ParkingExchange(app), "#")]
  }

  predicate HasExchanges(app: string, b: Broker) {
    app + ".jobs" in b.exchanges && app + ".jobs.parking" in b.exchanges
  }

  /** The declarations every channel's setup leaves, with any retry tiers added since. */
  ghost predicate Declared(app: string, b: Broker) {
    && HasExchanges(app, b) && b.bindings == TopologyBindings(app)
    && (forall q :: q in WorkQueues(app) ==> q in b.queues && b.queues[q] == WorkArgs(app))
    && ParkingQueue(app) in b.queues && b.queues[ParkingQueue(app)] == PLAIN_ARGS
    && (forall q, d: nat {:trigger RetryQueueFor(q, d)} ::
          q in WorkQueues(app) && RetryQueueFor(q, d) in b.queues
          ==> b.queues[RetryQueueFor(q, d)] == RetryArgs(q, d))
  }

  /** No queue of ours is declared with other arguments. */
  ghost predicate Compatible(app: string, b: Broker) {
    && (forall q :: q in WorkQueues(app) && q in b.queues ==> b.queues[q] == WorkArgs(app))
    && (ParkingQueue(app) in b.queues ==> b.queues[ParkingQueue(app)] == PLAIN_ARGS)
  }

  /** A new broker, a declared one, or one that interrupted setups left half declared. */
  ghost predicate Partly(app: string, b: Broker) {
    && Compatible(app, b)
    && b.bindings <= TopologyBindings(app)
    && (forall q, d: nat {:trigger RetryQueueFor(q, d)} ::
          q in WorkQueues(app) && RetryQueueFor(q, d) in b.queues
          ==> b.queues[RetryQueueFor(q, d)] == RetryArgs(q, d))
  }

  lemma RetryNameEndsInADigit(q: string, d: nat)
    ensures var n := RetryQueueFor(q, d); n != "" && DigitValue(n[|n| - 1]) < 10
  {
    var digits := Decimal(d);
    assert IsDigit(digits[|digits| - 1], 10);
  }

  /** A retry queue is never a work queue or the parking queue. */
  lemma RetryNamesAreNew(app: string, q: string, d: nat)
    ensures RetryQueueFor(q, d) !in WorkQueues(app) && RetryQueueFor(q, d) != ParkingQueue(app)
  {
    RetryNameEndsInADigit(q, d);
    forall k | k in {DUMMY_LOGS_KEY, VERIFICATION_KEY, PASSWORD_RESET_KEY, INVITE_KEY}
      ensures var n := WorkQueue(app, k); n[|n| - 1] == k[|k| - 1] && DigitValue(n[|n| - 1]) >= 10
    {
    }
    var p := ParkingQueue(app);
    assert p[|p| - 1] == 'e';
  }

  lemma DecimalHasNoDot(d: nat)
    ensures '.' !in Decimal(d)
  {
    var s := Decimal(d);
    assert forall i :: 0 <= i < |s| ==> IsDigit(s[i], 10);
  }

  lemma SplitAtLastDot(h1: string, s1: string, h2: string, s2: string)
    requires '.' !in s1 && '.' !in s2
    requires h1 + ['.'] + s1 == h2 + ['.'] + s2
    ensures h1 == h2 && s1 == s2
  {
    var n := h1 + ['.'] + s1;
    assert forall i :: |h1| < i < |n| ==> n[i] == s1[i - |h1| - 1];
    assert forall i :: |h2| < i < |n| ==> n[i] == s2[i - |h2| - 1];
    assert n[|h1|] == '.' && n[|h2|] == '.';
    assert |h1| == |h2|;
    assert h1 == n[..|h1|] && h2 == n[..|h1|] && s1 == n[|h1| + 1..] && s2 == n[|h1| + 1..];
  }

  /** Two tiers share a queue only if they are the same tier, so no declaration can be refused. */
  lemma RetryNamesInjective(q1: string, d1: nat, q2: string, d2: nat)
    requires RetryQueueFor(q1, d1) == RetryQueueFor(q2, d2)
    ensures q1 == q2 && d1 == d2
  {
    DecimalHasNoDot(d1);
    DecimalHasNoDot(d2);
    assert RetryQueueFor(q1, d1) == (q1 + ".retry") + ['.'] + Decimal(d1);
    assert RetryQueueFor(q2, d2) == (q2 + ".retry") + ['.'] + Decimal(d2);
    SplitAtLastDot(q1 + ".retry", Decimal(d1), q2 + ".retry", Decimal(d2));
    NumeralInjective(d1, d2, 10);
    assert (q1 + ".retry")[..|q1|] == q1 && (q2 + ".retry")[..|q2|] == q2;
  }

  lemma ExchangesDiffer(app: string)
    ensures JobsExchange(app) != ParkingExchange(app) && ParkingExchange(app) != "" && JobsExchange(app) != ""
  {
    assert |JobsExchange(app)| < |ParkingExchange(app)|;
  }

  /** A message published under a work queue's key reaches that queue and no other. */
  lemma PublishedReachesItsQueue(app: string, b: Broker, key: string)
    requires Declared(app, b) && key in {DUMMY_LOGS_KEY, VERIFICATION_KEY, PASSWORD_RESET_KEY, INVITE_KEY}
    ensures Routes(b, JobsExchange(app), key) == [WorkQueue(app, key)]
    ensures WorkQueue(app, key) in WorkQueues(app)
  {
    ExchangesDiffer(app);
    KeysDiffer();
    var bs := TopologyBindings(app);
    var x := JobsExchange(app);
    assert bs[1..][1..][1..][1..] == [bs[4]];
    assert RoutesFrom([bs[4]], x, key) == RoutesFrom([], x, key) == [];
    assert RoutesFrom(bs[1..][1..][1..], x, key) == if key == INVITE_KEY then [WorkQueue(app, key)] else [];
    assert RoutesFrom(bs[1..][1..], x, key)
        == if key in {PASSWORD_RESET_KEY, INVITE_KEY} then [WorkQueue(app, key)] else [];
    assert RoutesFrom(bs[1..], x, key) == if key == DUMMY_LOGS_KEY then [] else [WorkQueue(app, key)];
  }

  /** The four keys differ in length, and none is the pattern for every key. */
  lemma KeysDiffer()
    ensures |DUMMY_LOGS_KEY| == 25 && |VERIFICATION_KEY| == 28 && |PASSWORD_RESET_KEY| == 30 && |INVITE_KEY| == 22
    ensures |"#"| == 1
  {
  }

  /** A refused message reaches parking and only parking, whatever key it was published under. */
  lemma RefusedGoesToParking(app: string, b: Broker, queue: string, key: string)
    requires Declared(app, b) && queue in WorkQueues(app)
    ensures queue in b.queues && DeadLetterRoutes(b, queue, key) == [ParkingQueue(app)]
  {
    ExchangesDiffer(app);
    var bs := TopologyBindings(app);
    var x := ParkingExchange(app);
    assert bs[1..][1..][1..][1..] == [bs[4]];
    assert RoutesFrom([bs[4]], x, key) == [ParkingQueue(app)] + RoutesFrom([], x, key);
    assert RoutesFrom(bs[1..][1..][1..], x, key) == RoutesFrom([bs[4]], x, key);
    assert RoutesFrom(bs[1..][1..], x, key) == RoutesFrom([bs[4]], x, key);
    assert RoutesFrom(bs[1..], x, key) == RoutesFrom([bs[4]], x, key);
  }

  /** A message whose wait is over goes back to its own work queue and no other. */
  lemma ExpiredGoesHome(app: string, b: Broker, queue: string, delayMs: nat, key: string)
    requires Declared(app, b) && queue in WorkQueues(app) && RetryQueueFor(queue, delayMs) in b.queues
    ensures DeadLetterRoutes(b, RetryQueueFor(queue, delayMs), key) == [queue]
    ensures b.queues[RetryQueueFor(queue, delayMs)].ttlMs == Some(delayMs)
  {
  }

  lemma TierKeepsDeclared(app: string, b: Broker, queue: string, delayMs: nat)
    requires Declared(app, b) && queue in WorkQueues(app)
    ensures var b' := AssertQueue(b, RetryQueueFor(queue, delayMs), RetryArgs(queue, delayMs));
            b'.Some? && Declared(app, b'.value) && RetryQueueFor(queue, delayMs) in b'.value.queues
  {
    var name := RetryQueueFor(queue, delayMs);
    RetryNamesAreNew(app, queue, delayMs);
    forall q, d: nat | q in WorkQueues(app) && RetryQueueFor(q, d) == name
      ensures q == queue && d == delayMs
    {
      RetryNamesInjective(q, d, queue, delayMs);
    }
  }

  /** One channel's view of the broker: a refused declaration closes it. */
  class Channel {
    var broker: Broker
    var open: bool

    constructor (b: Broker)
      ensures broker == b && open
    {
      broker := b;
      open := true;
    }

    method DeclareQueue(name: string, args: QueueArgs)
      modifies this
      ensures open == (old(open) && AssertQueue(old(broker), name, args).Some?)
      ensures broker == if open then AssertQueue(old(broker), name, args).value else old(broker)
    {
      match AssertQueue(broker, name, args)
      case None => open := false;
      case Some(b) => if open { broker := b; }
    }

    /** Succeeds on every open channel of a declared broker, and only there. */
    method AssertRetryTier(ghost app: string, queue: string, delayMs: nat)
      requires Declared(app, broker) && queue in WorkQueues(app)
      modifies this
      ensures open == old(open) && Declared(app, broker)
      ensures open ==> broker.queues == old(broker.queues)[RetryQueueFor(queue, delayMs) := RetryArgs(queue, delayMs)]
      ensures !open ==> broker == old(broker)
    {
      TierKeepsDeclared(app, broker, queue, delayMs);
      DeclareQueue(RetryQueueFor(queue, delayMs), RetryArgs(queue, delayMs));
    }

    /** A rejected declaration ends the setup. */
    method AssertWorkQueue(app: string, queue: string, key: string)
      modifies this
      ensures open == (old(open) && Accepts(old(broker), queue, WorkArgs(app)))
      ensures broker == if open then WithWorkQueue(app, old(broker), queue, key) else old(broker)
    {
      DeclareQueue(queue, WorkArgs(app));
      if open {
        broker := BindQueue(broker, queue, JobsExchange(app), key);
      }
    }

    method AssertParking(app: string)
      modifies this
      ensures open == (old(open) && Accepts(old(broker), ParkingQueue(app), PLAIN_ARGS))
      ensures broker == if open then WithParking(app, old(broker)) else old(broker)
    {
      DeclareQueue(ParkingQueue(app), PLAIN_ARGS);
      if open {
        broker := BindQueue(broker, ParkingQueue(app), ParkingExchange(app), "#");
      }
    }

    method AssertWorkQueues(app: string, q1: string, q2: string, q3: string, q4: string,
                            k1: string, k2: string, k3: string, k4: string)
      requires q1 != q2 && q1 != q3 && q1 != q4 && q2 != q3 && q2 != q4 && q3 != q4
      requires open && ParkingQueue(app) !in {q1, q2, q3, q4}
      modifies this
      ensures open <==> forall q :: q in {q1, q2, q3, q4} ==> Accepts(old(broker), q, WorkArgs(app))
      ensures open ==> broker == WithWorkQueues(app, old(broker), q1, q2, q3, q4, k1, k2, k3, k4)
    {
      AcceptedOnTheWay(app, broker, q1, q2, q3, q4, k1, k2, k3, k4);
      AssertWorkQueue(app, q1, k1);
      if open { AssertWorkQueue(app, q2, k2); }
      if open { AssertWorkQueue(app, q3, k3); }
      if open { AssertWorkQueue(app, q4, k4); }
    }

    method AssertQueues(app: string)
      requires open
      modifies this
      ensures open <==> Compatible(app, old(broker))
      ensures open ==> broker == AfterSetup(app, old(broker))
    {
      NamesDiffer(app);
      CompatibleIs(app, broker);
      var q1, q2 := WorkQueue(app, DUMMY_LOGS_KEY), WorkQueue(app, VERIFICATION_KEY);
      var q3, q4 := WorkQueue(app, PASSWORD_RESET_KEY), WorkQueue(app, INVITE_KEY);
      AcceptedOnTheWay(app, broker, q1, q2, q3, q4, DUMMY_LOGS_KEY, VERIFICATION_KEY, PASSWORD_RESET_KEY, INVITE_KEY);
      AssertWorkQueues(app, q1, q2, q3, q4, DUMMY_LOGS_KEY, VERIFICATION_KEY, PASSWORD_RESET_KEY, INVITE_KEY);
      if open {
        AssertParking(app);
      }
    }

    /** Run by every channel's setup, on a broker in whatever state earlier setups left. */
    method AssertTopology(app: string)
      modifies this
      ensures open <==> old(open) && Compatible(app, old(broker))
      ensures open ==> broker == AfterSetup(app, Exchanges(app, old(broker)))
      ensures open ==> broker.exchanges == old(broker.exchanges) + {app + ".jobs", app + ".jobs.parking"}
      ensures open && Partly(app, old(broker)) ==> Declared(app, broker)
      ensures open && Declared(app, old(broker)) ==> broker.queues == old(broker.queues)
      ensures !old(open) ==> broker == old(broker)
    {
      if open {
        broker := Exchanges(app, broker);
        SetupOutcome(app, broker);
        AssertQueues(app);
      }
    }
  }

  function WithWorkQueues(app: string, b: Broker, q1: string, q2: string, q3: string, q4: string,
                          k1: string, k2: string, k3: string, k4: string): Broker {
    var b1 := WithWorkQueue(app, b, q1, k1);
    var b2 := WithWorkQueue(app, b1, q2, k2);
    var b3 := WithWorkQueue(app, b2, q3, k3);
    WithWorkQueue(app, b3, q4, k4)
  }

  lemma CompatibleIs(app: string, b: Broker)
    ensures Compatible(app, b)
            <==> (forall q :: q in WorkQueues(app) ==> Accepts(b, q, WorkArgs(app))) && Accepts(b, ParkingQueue(app), PLAIN_ARGS)
  {
  }

  lemma SetupOutcome(app: string, b: Broker)
    requires HasExchanges(app, b)
    ensures Partly(app, b) ==> Declared(app, AfterSetup(app, b))
    ensures Declared(app, b) ==> AfterSetup(app, b) == b
  {
    if Partly(app, b) {
      SetupResult(app, b);
    }
    if Declared(app, b) {
      SetupAgain(app, b);
    }
  }

  lemma SetupAgain(app: string, b: Broker)
    requires Declared(app, b)
    ensures AfterSetup(app, b) == b
  {
    var bs := b.bindings;
    assert bs[0] in bs && bs[1] in bs && bs[2] in bs && bs[3] in bs && bs[4] in bs;
    assert forall q :: q in WorkQueues(app) ==> b.queues[q := WorkArgs(app)] == b.queues;
  }

  predicate Accepts(b: Broker, name: string, args: QueueArgs) {
    AssertQueue(b, name, args).Some?
  }

  function Exchanges(app: string, b: Broker): Broker {
    b.(exchanges := b.exchanges + {JobsExchange(app), ParkingExchange(app)})
  }

  function WithWorkQueue(app: string, b: Broker, queue: string, key: string): Broker {
    BindQueue(b.(queues := b.queues[queue := WorkArgs(app)]), queue, JobsExchange(app), key)
  }

  function WithParking(app: string, b: Broker): Broker {
    BindQueue(b.(queues := b.queues[ParkingQueue(app) := PLAIN_ARGS]), ParkingQueue(app), ParkingExchange(app), "#")
  }

  function AfterSetup(app: string, b: Broker): Broker {
    WithParking(app, WithWorkQueues(
      app, b, WorkQueue(app, DUMMY_LOGS_KEY), WorkQueue(app, VERIFICATION_KEY),
      WorkQueue(app, PASSWORD_RESET_KEY), WorkQueue(app, INVITE_KEY),
      DUMMY_LOGS_KEY, VERIFICATION_KEY, PASSWORD_RESET_KEY, INVITE_KEY))
  }

  /** One declaration neither helps nor hinders the next: their names differ. */
  lemma AcceptedOnTheWay(app: string, b: Broker, q1: string, q2: string, q3: string, q4: string,
                         k1: string, k2: string, k3: string, k4: string)
    requires q1 != q2 && q1 != q3 && q1 != q4 && q2 != q3 && q2 != q4 && q3 != q4
    requires ParkingQueue(app) !in {q1, q2, q3, q4}
    ensures var b1 := WithWorkQueue(app, b, q1, k1);
            var b2 := WithWorkQueue(app, b1, q2, k2);
            var b3 := WithWorkQueue(app, b2, q3, k3);
            var b4 := WithWorkQueue(app, b3, q4, k4);
            && (Accepts(b1, q2, WorkArgs(app)) <==> Accepts(b, q2, WorkArgs(app)))
            && (Accepts(b2, q3, WorkArgs(app)) <==> Accepts(b, q3, WorkArgs(app)))
            && (Accepts(b3, q4, WorkArgs(app)) <==> Accepts(b, q4, WorkArgs(app)))
            && (Accepts(b4, ParkingQueue(app), PLAIN_ARGS) <==> Accepts(b, ParkingQueue(app), PLAIN_ARGS))
  {
  }

  /** With the first `k` bindings made, binding number `k` completes the first `k + 1`. */
  lemma BindNext(app: string, b: Broker, k: nat)
    requires k < 5 && b.bindings <= TopologyBindings(app) && |b.bindings| >= k
    ensures var t := TopologyBindings(app);
            var bound := BindQueue(b, t[k].queue, t[k].exchange, t[k].pattern);
            bound.bindings <= t && |bound.bindings| >= k + 1 && bound.queues == b.queues
  {
    BindingsDiffer(app);
    var t := TopologyBindings(app);
    if |b.bindings| > k {
      assert b.bindings[k] == t[k];
    } else {
      assert b.bindings == t[..k];
      assert t[k] !in t[..k];
      assert t[..k] + [t[k]] == t[..k + 1];
    }
  }

  lemma BindingsDiffer(app: string)
    ensures var t := TopologyBindings(app);
            forall i, j :: 0 <= i < j < 5 ==> t[i] != t[j]
  {
    NamesDiffer(app);
  }

  /** An interrupted setup leaves the broker half declared. */
  lemma DeclaringKeepsPartly(app: string, b: Broker, queue: string)
    requires Partly(app, b) && queue in WorkQueues(app)
    ensures Partly(app, b.(queues := b.queues[queue := WorkArgs(app)]))
    ensures Partly(app, b.(queues := b.queues[ParkingQueue(app) := PLAIN_ARGS]))
  {
    NamesDiffer(app);
    forall q, d: nat {:trigger RetryQueueFor(q, d)}
      ensures RetryQueueFor(q, d) != queue && RetryQueueFor(q, d) != ParkingQueue(app)
    {
      RetryNamesAreNew(app, q, d);
    }
  }

  ghost predicate KeepsQueues(b: Broker, after: Broker) {
    forall q :: q in b.queues ==> q in after.queues && after.queues[q] == b.queues[q]
  }

  lemma WorkQueueStep(app: string, b: Broker, queue: string, key: string, k: nat)
    requires Partly(app, b) && k < 4 && |b.bindings| >= k && queue in WorkQueues(app)
    requires TopologyBindings(app)[k] == Binding(queue, JobsExchange(app), key)
    ensures var r := WithWorkQueue(app, b, queue, key);
            && Partly(app, r) && |r.bindings| >= k + 1 && r.queues == b.queues[queue := WorkArgs(app)]
            && KeepsQueues(b, r) && r.exchanges == b.exchanges
  {
    DeclaringKeepsPartly(app, b, queue);
    BindNext(app, b.(queues := b.queues[queue := WorkArgs(app)]), k);
  }

  lemma ParkingStep(app: string, b: Broker)
    requires HasExchanges(app, b) && Partly(app, b) && |b.bindings| >= 4
    requires forall q :: q in WorkQueues(app) ==> q in b.queues
    ensures Declared(app, WithParking(app, b)) && KeepsQueues(b, WithParking(app, b))
  {
    NamesDiffer(app);
    DeclaringKeepsPartly(app, b, WorkQueue(app, INVITE_KEY));
    BindNext(app, b.(queues := b.queues[ParkingQueue(app) := PLAIN_ARGS]), 4);
    PartlyWhole(app, WithParking(app, b));
  }

  lemma WorkQueuesStep(app: string, b: Broker, q1: string, q2: string, q3: string, q4: string)
    requires Partly(app, b) && q1 == WorkQueue(app, DUMMY_LOGS_KEY) && q2 == WorkQueue(app, VERIFICATION_KEY)
    requires q3 == WorkQueue(app, PASSWORD_RESET_KEY) && q4 == WorkQueue(app, INVITE_KEY)
    ensures var r := WithWorkQueues(app, b, q1, q2, q3, q4, DUMMY_LOGS_KEY, VERIFICATION_KEY, PASSWORD_RESET_KEY, INVITE_KEY);
            && Partly(app, r) && |r.bindings| >= 4 && KeepsQueues(b, r) && r.exchanges == b.exchanges
            && q1 in r.queues && q2 in r.queues && q3 in r.queues && q4 in r.queues
  {
    WorkQueueStep(app, b, q1, DUMMY_LOGS_KEY, 0);
    var b1 := WithWorkQueue(app, b, q1, DUMMY_LOGS_KEY);
    WorkQueueStep(app, b1, q2, VERIFICATION_KEY, 1);
    var b2 := WithWorkQueue(app, b1, q2, VERIFICATION_KEY);
    WorkQueueStep(app, b2, q3, PASSWORD_RESET_KEY, 2);
    var b3 := WithWorkQueue(app, b2, q3, PASSWORD_RESET_KEY);
    WorkQueueStep(app, b3, q4, INVITE_KEY, 3);
  }

  /** A setup that is not refused completes whatever there was, and changes no queue there was. */
  lemma SetupResult(app: string, b: Broker)
    requires HasExchanges(app, b) && Partly(app, b)
    ensures Declared(app, AfterSetup(app, b)) && KeepsQueues(b, AfterSetup(app, b))
  {
    var q1, q2 := WorkQueue(app, DUMMY_LOGS_KEY), WorkQueue(app, VERIFICATION_KEY);
    var q3, q4 := WorkQueue(app, PASSWORD_RESET_KEY), WorkQueue(app, INVITE_KEY);
    WorkQueuesStep(app, b, q1, q2, q3, q4);
    ParkingStep(app, WithWorkQueues(app, b, q1, q2, q3, q4, DUMMY_LOGS_KEY, VERIFICATION_KEY, PASSWORD_RESET_KEY, INVITE_KEY));
  }

  lemma PartlyWhole(app: string, b: Broker)
    requires HasExchanges(app, b) && Partly(app, b) && |b.bindings| >= 5 && ParkingQueue(app) in b.queues
    requires forall q :: q in WorkQueues(app) ==> q in b.queues
    ensures Declared(app, b)
  {
  }

  /** The five names differ in length. */
  lemma NamesDiffer(app: string)
    ensures var a, b, c, d := WorkQueue(app, DUMMY_LOGS_KEY), WorkQueue(app, VERIFICATION_KEY),
                              WorkQueue(app, PASSWORD_RESET_KEY), WorkQueue(app, INVITE_KEY);
            a != b && a != c && a != d && b != c && b != d && c != d
    ensures ParkingQueue(app) !in WorkQueues(app)
    ensures JobsExchange(app) != ParkingExchange(app)
  {
    ExchangesDiffer(app);
    assert |WorkQueue(app, DUMMY_LOGS_KEY)| == |app| + 26;
    assert |WorkQueue(app, VERIFICATION_KEY)| == |app| + 29;
    assert |WorkQueue(app, PASSWORD_RESET_KEY)| == |app| + 31;
    assert |WorkQueue(app, INVITE_KEY)| == |app| + 23;
    assert |ParkingQueue(app)| == |app| + 19;
  }
}
