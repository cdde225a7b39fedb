/**
 * Registering, cancelling and draining a consumer: the channel `setup`, `cancel`, `handle`'s
 * counting and `drain` of RabbitMQConsumer.ts, over every interleaving of their awaits.
 */
module ConsumerLifecycle {
  import opened Common

  /** Where a run of `setup` is waiting; its consumer's tag is the run's own number. */
  datatype SetupPhase =
    | AwaitTopology
    | AwaitPrefetch
    | AwaitConsume(atBroker: bool)
    | AwaitCancel
    | Ended

  datatype Setup = Setup(channel: nat, phase: SetupPhase)

  datatype Registration = Registration(channel: nat, tag: nat)

  datatype CancelPhase = Cancelling(registration: Registration) | Finished

  datatype Event =
    | ChannelOpens
    | ChannelCloses
    | TopologyAsserted(setup: nat)
    | PrefetchSet(setup: nat)
    | BrokerConsumes(setup: nat)
    | ConsumeReplies(setup: nat)
    | SetupCancelReplies(setup: nat)
    | SetupRejects(setup: nat)
    | CancelCalled
    | CancelSettles(call: nat)
    | HandleStarts
    | HandlerSettles(handler: nat)
    | DrainCalled
    | DrainTimesOut(drain: nat)

  class Consumer {
    // The consumer's own fields. `registered` is consumerChannel and consumerTag, set and cleared together.
    var registered: Option<Registration>
    var stopping: bool
    var inFlight: int
    var drainResolvers: seq<nat>

    // What surrounds it: the live raw channel, the broker's consumers, and the calls in progress.
    var live: Option<nat>
    var channels: nat
    var consumers: set<Registration>
    var setups: seq<Setup>
    var cancels: seq<CancelPhase>
    var unfinished: set<nat>
    var handlers: nat
    var drained: seq<bool>

    /** Something still answers for this consumer: the fields, its setup, or a cancel on its way. */
    ghost predicate Accounted(c: Registration)
      reads this
    {
      || registered == Some(c)
      || (c.tag < |setups| && setups[c.tag].channel == c.channel
          && (setups[c.tag].phase == AwaitConsume(true) || setups[c.tag].phase.AwaitCancel?))
      || Cancelling(c) in cancels
    }

    ghost predicate Valid()
      reads this
    {
      && (stopping ==> registered.None?)
      && (forall c :: c in consumers ==> Accounted(c) && live == Some(c.channel))
      && (live.Some? ==> live.value < channels)
      && (forall i :: 0 <= i < |setups| ==> setups[i].channel < channels)
      && (forall i, j :: 0 <= i < j < |setups| ==> setups[i].channel != setups[j].channel)
      && (registered.Some? ==> registered.value.tag < |setups| && setups[registered.value.tag].channel == registered.value.channel
                               && setups[registered.value.tag].phase.Ended?)
      && inFlight == |unfinished|
      && (forall h :: h in unfinished ==> h < handlers)
      && (forall d :: d in drainResolvers ==> d < |drained|)
      && (forall d :: 0 <= d < |drained| && !drained[d] ==> d in drainResolvers)
      && (drainResolvers != [] ==> inFlight > 0)
    }

    constructor ()
      ensures Valid() && !stopping && registered.None? && inFlight == 0 && consumers == {} && drained == []
      ensures setups == [] && cancels == []
    {
      registered, stopping, inFlight, drainResolvers := None, false, 0, [];
      live, channels, consumers, setups, cancels := None, 0, {}, [], [];
      unfinished, handlers, drained := {}, 0, [];
    }

    // ---- setup

    method OpenChannel()
      requires Valid() && live.None?
      modifies `live, `channels, `setups
      ensures Valid() && live == Some(old(channels)) && setups == old(setups) + [Setup(old(channels), AwaitTopology)]
    {
      live := Some(channels);
      setups := setups + [Setup(channels, AwaitTopology)];
      channels := channels + 1;
    }

    method CloseChannel()
      requires Valid()
      modifies `live, `consumers
      ensures Valid() && live.None? && consumers == {}
    {
      live := None;
      consumers := {};
    }

    predicate Answers(i: nat)
      reads this
    {
      i < |setups| && live == Some(setups[i].channel)
    }

    method AfterTopology(i: nat)
      requires Valid() && Answers(i) && setups[i].phase.AwaitTopology?
      modifies `setups
      ensures Valid() && setups == old(setups)[i := Setup(old(setups)[i].channel, if stopping then Ended else AwaitPrefetch)]
    {
      // A draining worker takes on no new consumer.
      if stopping {
        setups := setups[i := setups[i].(phase := Ended)];
        return;
      }
      setups := setups[i := setups[i].(phase := AwaitPrefetch)];
    }

    method AfterPrefetch(i: nat)
      requires Valid() && Answers(i) && setups[i].phase.AwaitPrefetch?
      modifies `setups
      ensures Valid() && setups == old(setups)[i := Setup(old(setups)[i].channel, AwaitConsume(false))]
    {
      setups := setups[i := setups[i].(phase := AwaitConsume(false))];
    }

    /** The broker registers the consumer before its reply reaches the worker. */
    method RegisterAtBroker(i: nat)
      requires Valid() && Answers(i) && setups[i].phase == AwaitConsume(false)
      modifies `setups, `consumers
      ensures Valid() && consumers == old(consumers) + {Registration(old(setups)[i].channel, i)}
      ensures setups == old(setups)[i := Setup(old(setups)[i].channel, AwaitConsume(true))]
    {
      setups := setups[i := setups[i].(phase := AwaitConsume(true))];
      consumers := consumers + {Registration(setups[i].channel, i)};
    }

    method AfterConsume(i: nat)
      requires Valid() && Answers(i) && setups[i].phase == AwaitConsume(true)
      modifies `setups, `registered
      ensures Valid()
      ensures registered == if stopping then old(registered) else Some(Registration(old(setups)[i].channel, i))
      ensures setups == old(setups)[i := Setup(old(setups)[i].channel, if stopping then AwaitCancel else Ended)]
    {
      // Stopped meanwhile: this tag is still to be cancelled.
      if stopping {
        setups := setups[i := setups[i].(phase := AwaitCancel)];
        return;
      }
      ghost var stale := registered;
      assert stale.Some? ==> stale.value.tag != i;
      registered := Some(Registration(setups[i].channel, i));
      setups := setups[i := setups[i].(phase := Ended)];
    }

    method AfterSetupCancel(i: nat)
      requires Valid() && Answers(i) && setups[i].phase.AwaitCancel?
      modifies `setups, `consumers
      ensures Valid() && consumers == old(consumers) - {Registration(old(setups)[i].channel, i)}
      ensures setups == old(setups)[i := Setup(old(setups)[i].channel, Ended)]
    {
      consumers := consumers - {Registration(setups[i].channel, i)};
      setups := setups[i := setups[i].(phase := Ended)];
    }

    /** Every await on a dead channel rejects. */
    method RejectSetup(i: nat)
      requires Valid() && i < |setups| && live != Some(setups[i].channel)
      modifies `setups
      ensures Valid() && setups == old(setups)[i := Setup(old(setups)[i].channel, Ended)]
    {
      setups := setups[i := setups[i].(phase := Ended)];
    }

    // ---- cancel

    method StartCancel()
      requires Valid()
      modifies `stopping, `registered, `cancels
      ensures Valid() && stopping && registered.None?
      ensures cancels == old(cancels) + [if old(registered).Some? then Cancelling(old(registered).value) else Finished]
    {
      stopping := true;
      var r := registered;
      registered := None;
      if r.None? {
        cancels := cancels + [Finished];
      } else {
        cancels := cancels + [Cancelling(r.value)];
        assert cancels[|cancels| - 1] == Cancelling(r.value);
      }
      assert forall p :: p in old(cancels) ==> p in cancels;
    }

    /** The reply; or, on a dead channel, the rejection cancel() swallows. */
    method SettleCancel(k: nat)
      requires Valid() && k < |cancels| && cancels[k].Cancelling?
      modifies `consumers, `cancels
      ensures Valid() && consumers == old(consumers) - {old(cancels)[k].registration}
      ensures cancels == old(cancels)[k := Finished]
    {
      var r := cancels[k].registration;
      consumers := consumers - {r};
      cancels := cancels[k := Finished];
      forall c | c in consumers
        ensures Accounted(c)
      {
        assert old(Accounted(c));
        if Cancelling(c) in old(cancels) {
          var n :| 0 <= n < |old(cancels)| && old(cancels)[n] == Cancelling(c);
          assert cancels[n] == Cancelling(c);
        }
      }
    }

    // ---- handle and drain

    method StartHandler() returns (h: nat)
      requires Valid()
      modifies `inFlight, `unfinished, `handlers
      ensures Valid() && inFlight == old(inFlight) + 1 && h !in old(unfinished) && unfinished == old(unfinished) + {h}
    {
      inFlight := inFlight + 1;
      h := handlers;
      unfinished := unfinished + {h};
      handlers := handlers + 1;
    }

    /** The finally: the last handler to finish wakes every waiting drain. */
    method FinishHandler(h: nat)
      requires Valid() && h in unfinished
      modifies `inFlight, `unfinished, `drained, `drainResolvers
      ensures Valid() && inFlight == old(inFlight) - 1 && unfinished == old(unfinished) - {h}
      ensures |drained| == |old(drained)|
      ensures inFlight == 0 ==> forall d :: 0 <= d < |drained| ==> drained[d]
      ensures inFlight > 0 ==> drained == old(drained)
      ensures drainResolvers == if inFlight == 0 then [] else old(drainResolvers)
    {
      inFlight := inFlight - 1;
      unfinished := unfinished - {h};
      if inFlight == 0 {
        var n := 0;
        while n < |drainResolvers|
          invariant 0 <= n <= |drainResolvers| && |drained| == |old(drained)|
          invariant drainResolvers == old(drainResolvers) && inFlight == 0 && unfinished == old(unfinished) - {h}
          invariant forall d :: 0 <= d < |drained| ==> drained[d] || d in drainResolvers[n..]
        {
          assert drainResolvers[n] in drainResolvers;
          drained := drained[drainResolvers[n] := true];
          assert drainResolvers[n..] == [drainResolvers[n]] + drainResolvers[n + 1..];
          n := n + 1;
        }
        drainResolvers := [];
      }
    }

    method StartDrain() returns (d: nat)
      requires Valid()
      modifies `drained, `drainResolvers
      ensures Valid() && d == |old(drained)| && drained == old(drained) + [inFlight == 0]
      ensures drainResolvers == if inFlight == 0 then old(drainResolvers) else old(drainResolvers) + [d]
    {
      d := |drained|;
      if inFlight == 0 {
        drained := drained + [true];
        return;
      }
      drained := drained + [false];
      drainResolvers := drainResolvers + [d];
    }

    /** The timer resolves the wait; its resolver stays listed, and resolving twice does nothing. */
    method TimeOutDrain(d: nat)
      requires Valid() && d < |drained|
      modifies `drained
      ensures Valid() && drained == old(drained)[d := true]
    {
      drained := drained[d := true];
    }

    // ---- Any order of events.

    /** Setup `i` awaits on the live channel in this phase. */
    predicate Awaits(i: nat, phase: SetupPhase)
      reads this
    {
      Answers(i) && setups[i].phase == phase
    }

    method DispatchSetup(e: Event)
      requires Valid() && !e.CancelCalled? && !e.CancelSettles? && !HandlerEvent(e)
      modifies `live, `channels, `consumers, `registered, `setups
      ensures Valid()
      ensures consumers == match e
                           case ChannelCloses => {}
                           case BrokerConsumes(i) =>
                             if old(Awaits(i, AwaitConsume(false))) then old(consumers) + {Registration(old(setups)[i].channel, i)}
                             else old(consumers)
                           case SetupCancelReplies(i) =>
                             if old(Awaits(i, AwaitCancel)) then old(consumers) - {Registration(old(setups)[i].channel, i)}
                             else old(consumers)
                           case _ => old(consumers)
      ensures registered == if e.ConsumeReplies? && old(Awaits(e.setup, AwaitConsume(true))) && !stopping
                            then Some(Registration(old(setups)[e.setup].channel, e.setup)) else old(registered)
    {
      match e
      case ChannelOpens => if live.None? { OpenChannel(); }
      case ChannelCloses => CloseChannel();
      case TopologyAsserted(i) => if Awaits(i, AwaitTopology) { AfterTopology(i); }
      case PrefetchSet(i) => if Awaits(i, AwaitPrefetch) { AfterPrefetch(i); }
      case BrokerConsumes(i) => if Awaits(i, AwaitConsume(false)) { RegisterAtBroker(i); }
      case ConsumeReplies(i) => if Awaits(i, AwaitConsume(true)) { AfterConsume(i); }
      case SetupCancelReplies(i) => if Awaits(i, AwaitCancel) { AfterSetupCancel(i); }
      case SetupRejects(i) => if i < |setups| && live != Some(setups[i].channel) { RejectSetup(i); }
    }

    method DispatchHandler(e: Event)
      requires Valid() && HandlerEvent(e)
      modifies `inFlight, `unfinished, `handlers, `drained, `drainResolvers
      ensures Valid()
      ensures inFlight == match e
                          case HandleStarts => old(inFlight) + 1
                          case HandlerSettles(h) => old(inFlight) - if h in old(unfinished) then 1 else 0
                          case _ => old(inFlight)
    {
      match e
      case HandleStarts => var _ := StartHandler();
      case HandlerSettles(h) => if h in unfinished { FinishHandler(h); }
      case DrainCalled => var _ := StartDrain();
      case DrainTimesOut(d) => if d < |drained| { TimeOutDrain(d); }
    }

    /** An event that cannot happen now does nothing. */
    method Dispatch(e: Event)
      requires Valid()
      modifies this
      ensures Valid()
      ensures stopping == (old(stopping) || e.CancelCalled?)
      ensures |cancels| == |old(cancels)| + if e.CancelCalled? then 1 else 0
    {
      if e.CancelCalled? {
        StartCancel();
      } else if e.CancelSettles? {
        if e.call < |cancels| && cancels[e.call].Cancelling? {
          SettleCancel(e.call);
        }
      } else if HandlerEvent(e) {
        DispatchHandler(e);
      } else {
        DispatchSetup(e);
      }
    }
  }

  predicate HandlerEvent(e: Event) {
    e.HandleStarts? || e.HandlerSettles? || e.DrainCalled? || e.DrainTimesOut?
  }

  /** What an observer finds after any order of events. */
  datatype Report = Report(stopping: bool, setups: seq<Setup>, cancels: seq<CancelPhase>, liveConsumers: set<Registration>,
                           inFlight: int, unfinished: set<nat>, drained: seq<bool>)

  /**
   * Over every order of events: once cancel and every setup have finished, no consumer is left on
   * a live channel; inFlight counts the unfinished handlers; and a drain still waits only while
   * some handler is unfinished, so no wake-up is lost.
   */
  method AnyOrder(events: seq<Event>) returns (r: Report)
    ensures r.stopping && (forall i :: 0 <= i < |r.setups| ==> r.setups[i].phase.Ended?)
              && (forall k :: 0 <= k < |r.cancels| ==> r.cancels[k].Finished?)
            ==> r.liveConsumers == {}
    ensures r.inFlight == |r.unfinished|
    ensures r.inFlight == 0 ==> forall d :: 0 <= d < |r.drained| ==> r.drained[d]
    ensures (exists e :: e in events && e.CancelCalled?) ==> r.stopping && r.cancels != []
  {
    var c := new Consumer();
    var n := 0;
    while n < |events|
      invariant 0 <= n <= |events| && fresh(c) && c.Valid()
      invariant (exists k :: 0 <= k < n && events[k].CancelCalled?) ==> c.stopping && c.cancels != []
    {
      c.Dispatch(events[n]);
      n := n + 1;
    }
    r := Report(c.stopping, c.setups, c.cancels, c.consumers, c.inFlight, c.unfinished, c.drained);
    assert forall x :: x in c.consumers ==> c.Accounted(x);
  }
}
