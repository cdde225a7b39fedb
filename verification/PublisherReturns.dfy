/**
 * When a confirmed publish counts as routed: the `returned` set and `available` flag of
 * RabbitMQPublisher.ts, over any order of broker events.
 */
module PublisherReturns {

  /** One publish on its way: the id it carries, and whether the broker has returned it. */
  datatype Sent = Sent(id: string, returned: bool)

  datatype Event =
    | Start(p: nat, id: string)
    | Return(p: nat)          // basic.return, which precedes the confirm
    | Confirm(p: nat)
    | Reject(p: nat)          // a nack, a closed channel, or the publish timeout
    | LateReturn(id: string)  // a return for a publish that has already timed out
    | ChannelFails
    | ChannelConnects

  /** What `publish` tells its caller. */
  datatype Answer = Routed(p: nat) | Unroutable(p: nat) | Failed(p: nat)

  datatype State = State(available: bool, returned: set<string>, waiting: map<nat, Sent>)

  const FRESH := State(true, {}, map[])

  predicate Possible(s: State, e: Event) {
    match e
    case Start(p, _) => p !in s.waiting
    case Return(p) => p in s.waiting
    case Confirm(p) => p in s.waiting
    case Reject(p) => p in s.waiting
    case _ => true
  }

  function Next(s: State, e: Event): State
    requires Possible(s, e)
  {
    match e
    case Start(p, id) => s.(waiting := s.waiting[p := Sent(id, false)])
    case Return(p) =>
      s.(returned := s.returned + {s.waiting[p].id}, waiting := s.waiting[p := s.waiting[p].(returned := true)])
    case Confirm(p) => s.(returned := s.returned - {s.waiting[p].id}, waiting := s.waiting - {p})
    case Reject(p) => s.(returned := s.returned - {s.waiting[p].id}, waiting := s.waiting - {p})
    case LateReturn(id) => s.(returned := s.returned + {id})
    case ChannelFails => s.(available := false)
    case ChannelConnects => s.(available := true)
  }

  /** The event is possible in every state on the way. */
  ghost predicate Happens(s: State, events: seq<Event>, t: State)
    decreases |events|
  {
    if events == [] then s == t
    else Possible(s, events[0]) && Happens(Next(s, events[0]), events[1..], t)
  }

  /** No id is on its way twice at once. */
  ghost predicate IdsApart(s: State, events: seq<Event>)
    decreases |events|
  {
    events == [] ||
    (Possible(s, events[0])
     && (events[0].Start? ==> forall q :: q in s.waiting ==> s.waiting[q].id != events[0].id)
     && IdsApart(Next(s, events[0]), events[1..]))
  }

  ghost predicate NoneLate(events: seq<Event>) {
    forall e :: e in events ==> !e.LateReturn?
  }

  /** Each waiting publish can read its own return, and with `exact`, nobody else's. */
  ghost predicate Attributed(s: State, exact: bool) {
    && (forall p, q :: p in s.waiting && q in s.waiting && p != q ==> s.waiting[p].id != s.waiting[q].id)
    && (forall p :: p in s.waiting && s.waiting[p].returned ==> s.waiting[p].id in s.returned)
    && (exact ==> forall id :: id in s.returned ==> exists p :: p in s.waiting && s.waiting[p] == Sent(id, true))
  }

  lemma {:induction false} AttributedThroughout(s: State, events: seq<Event>, t: State, exact: bool)
    requires Happens(s, events, t) && IdsApart(s, events) && Attributed(s, exact)
    requires exact ==> NoneLate(events)
    ensures Attributed(t, exact)
    decreases |events|
  {
    if events != [] {
      var u := Next(s, events[0]);
      forall id | exact && id in u.returned
        ensures exists p :: p in u.waiting && u.waiting[p] == Sent(id, true)
      {
        assert events[0] in events;
        if id in s.returned {
          var p :| p in s.waiting && s.waiting[p] == Sent(id, true);
          assert u.waiting[p] == Sent(id, true);
        } else {
          assert u.waiting[events[0].p] == Sent(id, true);
        }
      }
      AttributedThroughout(u, events[1..], t, exact);
    }
  }

  /** `publish` resolves only for a publish that was routed; and, with no late return, for every one. */
  lemma ConfirmedMeansRouted(events: seq<Event>, s: State, p: nat)
    requires Happens(FRESH, events, s) && IdsApart(FRESH, events) && p in s.waiting
    ensures s.waiting[p].id !in s.returned ==> !s.waiting[p].returned
    ensures NoneLate(events) ==> (s.waiting[p].id !in s.returned <==> !s.waiting[p].returned)
  {
    AttributedThroughout(FRESH, events, s, false);
    if NoneLate(events) {
      AttributedThroughout(FRESH, events, s, true);
    }
  }

  // ---- Publishes that share an id.

  /** The broker returned this publish, and `publish` would no longer find that. */
  predicate Misled(s: State, p: nat) {
    p in s.waiting && s.waiting[p].returned && s.waiting[p].id !in s.returned
  }

  /** Another publish with this one's id waits too. */
  ghost predicate Shared(s: State, p: nat) {
    p in s.waiting && exists q :: q in s.waiting && q != p && s.waiting[q].id == s.waiting[p].id
  }

  ghost predicate NoneStarts(events: seq<Event>) {
    forall e :: e in events ==> !e.Start?
  }

  lemma {:induction false} NotMisledAlone(s: State, events: seq<Event>, t: State, p: nat)
    requires Happens(s, events, t) && NoneStarts(events) && !Misled(s, p) && !Shared(s, p)
    ensures !Misled(t, p)
    decreases |events|
  {
    if events != [] {
      assert events[0] in events;
      NotMisledAlone(Next(s, events[0]), events[1..], t, p);
    }
  }

  /** A waiting publish can come to be misled exactly while another with its id waits. */
  lemma MisledExactly(s: State, p: nat)
    requires p in s.waiting && !Misled(s, p)
    ensures (exists events, t :: NoneStarts(events) && Happens(s, events, t) && Misled(t, p)) <==> Shared(s, p)
  {
    if Shared(s, p) {
      var q :| q in s.waiting && q != p && s.waiting[q].id == s.waiting[p].id;
      var u := Next(s, Return(p));
      var t := Next(u, Confirm(q));
      var events := [Return(p), Confirm(q)];
      assert events[1..] == [Confirm(q)] && [Confirm(q)][1..] == [];
      assert Happens(t, [], t);
      assert Happens(u, [Confirm(q)], t);
      assert NoneStarts(events) && Happens(s, events, t) && Misled(t, p);
    } else {
      forall events, t | NoneStarts(events) && Happens(s, events, t)
        ensures !Misled(t, p)
      {
        NotMisledAlone(s, events, t, p);
      }
    }
  }

  /** Over any events at all, a misled publish shared its id with a waiting one on the way. */
  lemma {:induction false} MisledWasShared(s: State, events: seq<Event>, t: State, p: nat)
    requires Happens(s, events, t) && !Misled(s, p) && Misled(t, p)
    ensures exists n, u :: 0 <= n <= |events| && Happens(s, events[..n], u) && Shared(u, p)
    decreases |events|
  {
    if Shared(s, p) {
      assert events[..0] == [];
      assert Happens(s, events[..0], s);
    } else {
      var next := Next(s, events[0]);
      MisledWasShared(next, events[1..], t, p);
      var n, u :| 0 <= n <= |events[1..]| && Happens(next, events[1..][..n], u) && Shared(u, p);
      assert events[..n + 1][1..] == events[1..][..n];
      assert Happens(s, events[..n + 1], u);
    }
  }

  /** An instance: of two publishes of one id, the returned one is told "routed". */
  lemma SharedIdCanMislead(p: nat, q: nat, id: string)
    requires p != q
    ensures exists events, t :: Happens(FRESH, events, t) && Misled(t, p)
  {
    var s1 := Next(FRESH, Start(p, id));
    var s2 := Next(s1, Start(q, id));
    assert q in s2.waiting && s2.waiting[q].id == s2.waiting[p].id;
    MisledExactly(s2, p);
    var rest, t :| Happens(s2, rest, t) && Misled(t, p);
    var events := [Start(p, id)] + ([Start(q, id)] + rest);
    assert events[1..] == [Start(q, id)] + rest && ([Start(q, id)] + rest)[1..] == rest;
    assert Happens(s1, [Start(q, id)] + rest, t);
    assert Happens(FRESH, events, t);
  }

  // ---- The flag.

  ghost predicate ConnectsAfter(events: seq<Event>, i: int)
    requires i >= -1
  {
    exists j :: i < j < |events| && events[j].ChannelConnects?
  }

  /** The queue is in use exactly when every failure of the channel was followed by a reconnect. */
  lemma {:induction false} AvailableExactly(s: State, events: seq<Event>, t: State)
    requires Happens(s, events, t)
    ensures t.available
            <==> (s.available || ConnectsAfter(events, -1))
                 && forall i :: 0 <= i < |events| && events[i].ChannelFails? ==> ConnectsAfter(events, i)
    decreases |events|
  {
    if events != [] {
      AvailableExactly(Next(s, events[0]), events[1..], t);
      forall i | -1 <= i < |events| - 1
        ensures ConnectsAfter(events, i + 1) <==> ConnectsAfter(events[1..], i)
      {
        if ConnectsAfter(events, i + 1) {
          var j :| i + 1 < j < |events| && events[j].ChannelConnects?;
          assert events[1..][j - 1].ChannelConnects?;
        }
        if ConnectsAfter(events[1..], i) {
          var j :| i < j < |events| - 1 && events[1..][j].ChannelConnects?;
          assert events[j + 1].ChannelConnects?;
        }
      }
      FirstEvent(s, events);
    }
  }

  lemma FirstEvent(s: State, events: seq<Event>)
    requires events != [] && Possible(s, events[0])
    requires forall i :: -1 <= i < |events| - 1 ==> (ConnectsAfter(events, i + 1) <==> ConnectsAfter(events[1..], i))
    ensures ((Next(s, events[0]).available || ConnectsAfter(events[1..], -1))
             && forall i :: 0 <= i < |events[1..]| && events[1..][i].ChannelFails? ==> ConnectsAfter(events[1..], i))
            <==> ((s.available || ConnectsAfter(events, -1))
                  && forall i :: 0 <= i < |events| && events[i].ChannelFails? ==> ConnectsAfter(events, i))
  {
    assert ConnectsAfter(events, 0) <==> ConnectsAfter(events[1..], -1);
    assert ConnectsAfter(events, -1) <==> events[0].ChannelConnects? || ConnectsAfter(events, 0);
    forall i | 0 <= i < |events| - 1
      ensures events[1..][i] == events[i + 1] && (ConnectsAfter(events, i + 1) <==> ConnectsAfter(events[1..], i))
    {
    }
  }

  // ---- The publisher.

  class Publisher {
    var available: bool
    var returned: set<string>
    var waiting: map<nat, Sent>

    function Abs(): State
      reads this
    {
      State(available, returned, waiting)
    }

    constructor ()
      ensures Abs() == FRESH
    {
      available, returned, waiting := true, {}, map[];
    }

    predicate IsEnabled(configured: bool)
      reads this
    {
      configured && available
    }

    method OnChannelError()
      modifies `available
      ensures Abs() == Next(old(Abs()), ChannelFails)
    {
      available := false;
    }

    method OnConnect()
      modifies `available
      ensures Abs() == Next(old(Abs()), ChannelConnects)
    {
      available := true;
    }

    method OnReturn(id: string)
      modifies `returned
      ensures returned == old(returned) + {id}
    {
      returned := returned + {id};
    }

    method Send(p: nat, id: string)
      requires Possible(Abs(), Start(p, id))
      modifies `waiting
      ensures Abs() == Next(old(Abs()), Start(p, id))
    {
      waiting := waiting[p := Sent(id, false)];
    }

    /** The channel's promise settles: the rest of `publish` runs. A returned publish is told "routed" if misled. */
    method Settle(p: nat, confirmed: bool) returns (answer: Answer)
      requires Possible(Abs(), Confirm(p))
      modifies `returned, `waiting
      ensures Abs() == Next(old(Abs()), if confirmed then Confirm(p) else Reject(p))
      ensures answer == if !confirmed then Failed(p)
                        else if old(waiting)[p].id in old(returned) then Unroutable(p) else Routed(p)
      ensures confirmed ==> (answer.Routed? && old(waiting)[p].returned <==> old(Misled(Abs(), p)))
    {
      var id := waiting[p].id;
      waiting := waiting - {p};
      if !confirmed {
        // Nobody else reads a return of this publish.
        returned := returned - {id};
        return Failed(p);
      }
      var wasReturned := id in returned;
      returned := returned - {id};
      return if wasReturned then Unroutable(p) else Routed(p);
    }

    method Step(e: Event) returns (answers: seq<Answer>)
      requires Possible(Abs(), e)
      modifies this
      ensures Abs() == Next(old(Abs()), e) && answers == Told(old(Abs()), e)
    {
      answers := [];
      match e
      case Start(p, id) => Send(p, id);
      case Return(p) =>
        OnReturn(waiting[p].id);
        waiting := waiting[p := waiting[p].(returned := true)];
      case Confirm(p) =>
        var answer := Settle(p, true);
        answers := [answer];
      case Reject(p) =>
        var answer := Settle(p, false);
        answers := [answer];
      case LateReturn(id) => OnReturn(id);
      case ChannelFails => OnChannelError();
      case ChannelConnects => OnConnect();
    }

    /**
     * Any events one after another: the publisher is in use exactly when it is configured and its
     * channel's last failure was followed by a reconnect, and each publish is told what its state says.
     */
    method Observe(events: seq<Event>) returns (answers: seq<Answer>)
      requires AllPossible(Abs(), events)
      modifies this
      ensures Happens(old(Abs()), events, Abs())
      ensures answers == AllTold(old(Abs()), events)
      ensures old(available) ==>
                (IsEnabled(true) <==> forall i :: 0 <= i < |events| && events[i].ChannelFails? ==> ConnectsAfter(events, i))
      decreases |events|
    {
      answers := [];
      ghost var was := Abs();
      if events != [] {
        var first := Step(events[0]);
        var rest := Observe(events[1..]);
        answers := first + rest;
      }
      AvailableExactly(was, events, Abs());
    }
  }

  predicate AllPossible(s: State, events: seq<Event>)
    decreases |events|
  {
    events == [] || (Possible(s, events[0]) && AllPossible(Next(s, events[0]), events[1..]))
  }

  /** What an event makes `publish` tell its caller. */
  function Told(s: State, e: Event): seq<Answer>
    requires Possible(s, e)
  {
    match e
    case Confirm(p) => [if s.waiting[p].id in s.returned then Unroutable(p) else Routed(p)]
    case Reject(p) => [Failed(p)]
    case _ => []
  }

  function AllTold(s: State, events: seq<Event>): seq<Answer>
    requires AllPossible(s, events)
    decreases |events|
  {
    if events == [] then [] else Told(s, events[0]) + AllTold(Next(s, events[0]), events[1..])
  }
}
