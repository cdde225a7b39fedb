/**
 * The consumer's `handle` and `onFailure`, the idempotency guard's `runOnce` and the publisher's
 * in-process fallback, as they run: each await lets anything else happen, and every stretch of
 * code between two awaits is one step of the job protocol.
 */
module JobWorker {
  import opened Common
  import opened Text
  import opened RetryPolicy
  import opened Topology
  import opened JobProtocol
  import opened JobInvariants

  ghost predicate Reaches(c: Config, s: State, t: State) {
    exists steps :: Follows(c, s, steps, t)
  }

  lemma OneStep(c: Config, origin: State, s: State, t: State, step: Step)
    requires Inv(c, s) && Reaches(c, origin, s) && Enabled(c, s, step)
    requires t == Apply(c, s, step)
    ensures Inv(c, t) && Reaches(c, origin, t)
  {
    var steps :| Follows(c, origin, steps, s);
    assert Follows(c, t, [], t);
    assert Follows(c, s, [step], t);
    FollowsAppend(c, origin, steps, s, [step], t);
    InvStep(c, s, step);
  }

  /** Run `r` is the same run, now in `phase`. */
  ghost predicate Moved(s: State, t: State, r: nat, phase: Phase) {
    && r < |s.runs| && Exists(t, r) && s.jobs <= t.jobs
    && t.runs[r].job == s.runs[r].job && t.runs[r].source == s.runs[r].source && t.runs[r].phase == phase
  }

  function Failed(source: Source, terminal: bool): Phase {
    if source.Delivery? then Rejected(terminal) else Over
  }

  datatype Guarded = Ran(outcome: Outcome) | Threw(terminal: bool)

  /** What the dedup insert met: an id no row can have, a failure or a lock, the row already there, or nothing. */
  datatype Insert = NotTried | Refused | Conflict | Inserted

  /**
   * What the surroundings did to a guarded run: the insert; what the work threw, if it did; what it read of
   * its subject; and whether the commit was seen to succeed, when it came to that.
   */
  datatype Report = Report(insert: Insert, thrown: Option<bool>, effect: Effect, committed: Option<bool>)

  /** What the broker did to a retry: the tier was declared, the copy arrived, and that was confirmed. */
  datatype Attempt = Attempt(tierOk: bool, arrives: bool, confirmed: bool)

  /** Nothing is forgotten: a copy keeps its job, its header and its wait, wherever it goes. */
  predicate Remembers(s: State, t: State) {
    && s.jobs <= t.jobs && s.rows <= t.rows && s.sent <= t.sent && s.commits <= t.commits && |s.copies| <= |t.copies|
    && forall i :: 0 <= i < |s.copies| ==> t.copies[i].(at := s.copies[i].at) == s.copies[i]
  }

  lemma {:induction false} LoseChannelsRemembers(s: State, channel: nat, n: nat)
    ensures Remembers(s, LoseChannels(s, channel, n))
  {
    if n > 0 {
      LoseChannelsRemembers(s, channel, n - 1);
    }
  }

  lemma {:induction false} LoseProcessRemembers(s: State, process: nat, n: nat)
    ensures Remembers(s, LoseProcess(s, process, n))
  {
    if n > 0 {
      LoseProcessRemembers(s, process, n - 1);
    }
  }

  lemma StepRemembers(c: Config, s: State, step: Step)
    requires Enabled(c, s, step)
    ensures Remembers(s, Apply(c, s, step))
  {
    match step
    case CloseChannel(channel) => LoseChannelsRemembers(s, channel, |s.runs|);
    case Crash(process) => LoseProcessRemembers(s, process, |s.runs|);
    case _ =>
  }

  /** So it is over any steps, an await's included. */
  lemma {:induction false} RunsRemember(c: Config, s: State, steps: seq<Step>, t: State)
    requires Follows(c, s, steps, t)
    ensures Remembers(s, t)
    decreases |steps|
  {
    if steps != [] {
      StepRemembers(c, s, steps[0]);
      RunsRemember(c, Apply(c, s, steps[0]), steps[1..], t);
    }
  }

  class Worker {
    const c: Config
    ghost const origin: State
    var s: State

    ghost predicate Valid()
      reads this
    {
      Inv(c, s) && Reaches(c, origin, s)
    }

    constructor (c: Config, s: State)
      requires Inv(c, s)
      ensures Valid() && this.c == c && this.s == s && origin == s
    {
      this.c := c;
      this.s := s;
      origin := s;
      new;
      assert Follows(c, s, [], s);
    }

    /**
     * An await of run `r`. Nothing is done here: the contract leaves the caller any steps of the
     * others, the loss of its channel included, short of this process dying, unless it is `alone`.
     */
    method Await(r: nat, ghost alone: bool := false)
      requires Valid() && r < |s.runs|
      modifies this
      ensures Valid() && Moved(old(s), s, r, old(s).runs[r].phase) && Remembers(old(s), s)
      ensures old(s).broker.queues.Keys <= s.broker.queues.Keys
      ensures s.runs[r].open ==> old(s).runs[r].open
      ensures alone ==> s == old(s)
    {
      assert RunOk(c, s, r);
    }

    // ---- SequelizeMessageIdempotency.runOnce

    /** Something throws before the handler resolves; an open transaction rolls back. */
    method RollBack(r: nat, terminal: bool)
      requires Valid() && Enabled(c, s, Step.Fail(r, terminal))
      modifies this
      ensures Valid() && Moved(old(s), s, r, Failed(old(s).runs[r].source, terminal))
      ensures s.rows == old(s).rows && s.copies == old(s).copies && s.sent == old(s).sent && s.commits == old(s).commits
    {
      ghost var before := s;
      s := To(s, r, Failed(s.runs[r].source, terminal));
      OneStep(c, origin, before, s, Step.Fail(r, terminal));
    }

    method InsertDedupRow(r: nat) returns (duplicate: bool)
      requires Valid() && Enabled(c, s, InsertRow(r))
      modifies this
      ensures Valid() && duplicate == (KeyOf(JobOf(old(s), r)) in old(s).rows)
      ensures Moved(old(s), s, r, if duplicate then Finishing(Duplicate) else InTransaction(Pending))
    {
      ghost var before := s;
      duplicate := KeyOf(JobOf(s, r)) in s.rows;
      s := To(s, r, if duplicate then Finishing(Duplicate) else InTransaction(Pending));
      OneStep(c, origin, before, s, InsertRow(r));
    }

    /**
     * executeInTransaction: it reads the job's subject inside the transaction, and sends exactly when
     * that owes it something.
     */
    method ExecuteInTransaction(r: nat)
      requires Valid() && Enabled(c, s, Work(r))
      modifies this
      ensures Valid()
      ensures var subject := SubjectOf(old(s), old(s).runs[r].job);
              var owed := Owes(c.app, JobOf(old(s), r).queue, subject);
              Moved(old(s), s, r, InTransaction(Read(subject, owed)))
              && s.sent == if owed then old(s).sent + {r} else old(s).sent
    {
      ghost var before := s;
      var subject := SubjectOf(s, s.runs[r].job);
      var owed := SubjectOwes(JobOf(s, r).queue, subject);
      s := To(s, r, InTransaction(Read(subject, owed))).(sent := if owed then s.sent + {r} else s.sent);
      OneStep(c, origin, before, s, Work(r));
    }

    /** The early returns of each job, in its own order. */
    method SubjectOwes(queue: string, subject: Subject) returns (owed: bool)
      ensures owed == Owes(c.app, queue, subject)
    {
      NamesDiffer(c.app);
      if queue == WorkQueue(c.app, INVITE_KEY) {
        if !subject.found || subject.done || subject.expired {
          return false;
        }
        return subject.organizationFound;
      }
      if queue == WorkQueue(c.app, VERIFICATION_KEY) {
        if !subject.found {
          return false;
        }
        return !subject.done;
      }
      return queue != WorkQueue(c.app, PASSWORD_RESET_KEY) || subject.found;
    }

    method CommitTransaction(r: nat, seen: bool)
      requires Valid() && Enabled(c, s, CommitRow(r, seen))
      modifies this
      ensures Valid() && Moved(old(s), s, r, if seen then Finishing(Processed) else Failed(old(s).runs[r].source, false))
      ensures s.rows == old(s).rows + {KeyOf(JobOf(old(s), r))} && s.sent == old(s).sent
      ensures s.commits == old(s).commits
                           + [Commit(KeyOf(JobOf(old(s), r)), old(s).runs[r].job, r, old(s).runs[r].phase.effect)]
    {
      ghost var before := s;
      var key := KeyOf(JobOf(s, r));
      s := s.(rows := s.rows + {key}, commits := s.commits + [Commit(key, s.runs[r].job, r, s.runs[r].phase.effect)]);
      s := To(s, r, if seen then Finishing(Processed) else Failed(s.runs[r].source, false));
      OneStep(c, origin, before, s, CommitRow(r, seen));
    }

    /** What a report says of the state: the work was done as it read, and a commit seen is there, of this run. */
    ghost predicate Attests(r: nat, report: Report)
      reads this
      requires Exists(s, r)
    {
      && (report.insert.Inserted? && report.thrown.None? ==>
            && report.committed.Some? && report.effect.Read?
            && report.effect.owed == Owes(c.app, JobOf(s, r).queue, report.effect.subject)
            && (report.effect.owed ==> r in s.sent))
      && (report.committed == Some(true) ==>
            exists n :: 0 <= n < |s.commits| && s.commits[n].run == r && s.commits[n].effect == report.effect)
    }

    /**
     * The dedup row and the work, in one transaction; `Ran` only with the row committed. The work is tried
     * unless the id, the insert or a duplicate stands in the way, and what it throws, terminal or not, is
     * thrown on.
     */
    method RunOnce(r: nat) returns (result: Guarded, report: Report)
      requires Valid() && Exists(s, r) && s.runs[r].phase.Running?
      modifies this
      ensures Valid() && r < |old(s).runs| && |old(s).jobs| <= |s.jobs|
      ensures match result
              case Ran(outcome) => Moved(old(s), s, r, Finishing(outcome)) && Recorded(s, JobOf(s, r))
              case Threw(terminal) => Moved(old(s), s, r, Failed(old(s).runs[r].source, terminal))
      ensures var id := JobOf(old(s), r).messageId;
              report.insert.NotTried? <==> id.None? || id.value == "" || |id.value| > 36
      ensures report.insert.Conflict? <==> result == Ran(Duplicate)
      ensures !report.insert.Inserted? ==> report.thrown.None? && report.committed.None?
      ensures result.Ran? <==> report.insert.Conflict? || report.committed == Some(true)
      ensures result == Threw(true) <==> report.insert.NotTried? || report.thrown == Some(true)
      ensures report.thrown.Some? ==> result == Threw(report.thrown.value)
      ensures report.committed == Some(true) <==> result == Ran(Processed)
      ensures Attests(r, report)
    {
      if !Usable(JobOf(s, r).messageId) {
        RollBack(r, true);
        return Threw(true), Report(NotTried, None, Pending, None);
      }
      Await(r);
      var insertFails: bool := *;
      if insertFails || Blocked(s, r) {
        RollBack(r, false);
        return Threw(false), Report(Refused, None, Pending, None);
      }
      var duplicate := InsertDedupRow(r);
      if duplicate {
        assert RunOk(c, s, r);
        return Ran(Duplicate), Report(Conflict, None, Pending, None);
      }
      result, report := RunWork(r);
    }

    method RunWork(r: nat) returns (result: Guarded, report: Report)
      requires Valid() && Exists(s, r) && s.runs[r].phase == InTransaction(Pending)
      modifies this
      ensures Valid() && r < |old(s).runs| && report.insert.Inserted?
      ensures match result
              case Ran(outcome) => outcome == Processed && Moved(old(s), s, r, Finishing(outcome)) && Recorded(s, JobOf(s, r))
              case Threw(terminal) => Moved(old(s), s, r, Failed(old(s).runs[r].source, terminal))
      ensures result == Threw(true) <==> report.thrown == Some(true)
      ensures report.thrown.Some? ==> result == Threw(report.thrown.value) && report.committed.None?
      ensures report.committed == Some(true) <==> result == Ran(Processed)
      ensures Attests(r, report)
    {
      Await(r);
      var workFails: bool, terminal: bool := *, *;
      if workFails {
        RollBack(r, terminal);
        return Threw(terminal), Report(Inserted, Some(terminal), Pending, None);
      }
      ExecuteInTransaction(r);
      var effect := s.runs[r].phase.effect;
      result := FinishTransaction(r);
      report := Report(Inserted, None, effect, Some(result.Ran?));
    }

    method FinishTransaction(r: nat) returns (result: Guarded)
      requires Valid() && Exists(s, r) && s.runs[r].phase.InTransaction? && s.runs[r].phase.effect != Pending
      modifies this
      ensures Valid() && r < |old(s).runs|
      ensures match result
              case Ran(outcome) => outcome == Processed && Moved(old(s), s, r, Finishing(outcome)) && Recorded(s, JobOf(s, r))
              case Threw(terminal) => !terminal && Moved(old(s), s, r, Failed(old(s).runs[r].source, false))
      ensures old(s).sent <= s.sent
      ensures result.Ran? ==> exists n :: 0 <= n < |s.commits| && s.commits[n].run == r
                                          && s.commits[n].effect == old(s).runs[r].phase.effect
    {
      Await(r);
      assert RunOk(c, s, r);
      var commits: bool := *;
      if !commits {
        RollBack(r, false);
        return Threw(false);
      }
      var seen: bool := *;
      CommitTransaction(r, seen);
      assert RunOk(c, s, r);
      assert s.commits[|s.commits| - 1].run == r;
      return if seen then Ran(Processed) else Threw(false);
    }

    // ---- The handlers: read the body, then runOnce, then what follows the commit.

    /** A failure is terminal for a refused body, an unusable id, or work that says so. */
    method Handler(r: nat) returns (resolved: bool, bodyRefused: bool, report: Option<Report>)
      requires Valid() && Exists(s, r) && s.runs[r].phase.Running? && s.runs[r].source.Delivery?
      modifies this
      ensures Valid() && r < |old(s).runs|
      ensures r < |s.runs| && Moved(old(s), s, r, s.runs[r].phase)
      ensures if resolved then s.runs[r].phase.Resolved? && Recorded(s, JobOf(s, r)) else s.runs[r].phase.Rejected?
      ensures bodyRefused ==> report.None?
      ensures report.Some? ==> (report.value.insert.NotTried? <==> !Usable(JobOf(old(s), r).messageId))
      ensures !resolved ==> (s.runs[r].phase.terminal <==>
                bodyRefused || (report.Some? && (report.value.insert.NotTried? || report.value.thrown == Some(true))))
    {
      var accessFails: bool;
      bodyRefused, accessFails, report := *, *, None;
      if bodyRefused {
        RollBack(r, true);
        return false, true, None;
      }
      if accessFails {
        RollBack(r, false);
        return false, false, None;
      }
      var result, said := RunOnce(r);
      report := Some(said);
      if result.Threw? {
        return false, false, report;
      }
      resolved := AfterCommit(r);
    }

    method AfterCommit(r: nat) returns (resolved: bool)
      requires Valid() && InPhase(s, r, true) && s.runs[r].phase.Finishing?
      modifies this
      ensures Valid() && r < |s.runs| && Moved(old(s), s, r, s.runs[r].phase)
      ensures if resolved then s.runs[r].phase.Resolved? && Recorded(s, JobOf(s, r)) else s.runs[r].phase == Rejected(false)
    {
      Await(r);
      var afterwardsFails: bool := *;
      if afterwardsFails {
        RollBack(r, false);
        return false;
      }
      Resolve(r);
      return true;
    }

    method Resolve(r: nat)
      requires Valid() && InPhase(s, r, true) && s.runs[r].phase.Finishing?
      modifies this
      ensures Valid() && Moved(old(s), s, r, Resolved(old(s).runs[r].phase.outcome)) && Recorded(s, JobOf(s, r))
    {
      assert RunOk(c, s, r);
      ghost var before := s;
      s := To(s, r, Resolved(s.runs[r].phase.outcome));
      OneStep(c, origin, before, s, Step.Finish(r));
    }

    // ---- RabbitMQConsumer.handle and onFailure

    /** A nack without requeue: it parks the message, or does nothing on a channel that has gone. */
    method NackMessage(r: nat, ghost step: Step)
      requires Valid() && InPhase(s, r, true) && !s.runs[r].phase.Over?
      requires Enabled(c, s, step) && Apply(c, s, step) == Nack(s, r)
      modifies this
      ensures Valid() && Moved(old(s), s, r, Over) && s.jobs == old(s).jobs && s.runs[r].open == old(s).runs[r].open
      ensures s.copies == Placed(old(s), r, InQueue(ParkingQueue(c.app)))
    {
      ghost var before := s;
      RefusedPlace(c, s, r);
      s := Nack(s, r);
      OneStep(c, origin, before, s, step);
    }

    /** What a settled delivery leaves: parked, recorded, or taken over by a later copy. */
    ghost predicate Settled(r: nat)
      reads this
    {
      && Exists(s, r) && s.runs[r].source.Delivery? && s.runs[r].phase.Over?
      && (s.runs[r].open ==>
            var i := s.runs[r].source.copy;
            || s.copies[i].at == InQueue(ParkingQueue(c.app))
            || (s.copies[i].at == Gone && (Recorded(s, JobOf(s, r)) || LaterCopy(s, i))))
    }

    /**
     * A failure is parked at once, with no new copy, exactly when it is terminal, has no try left or no id.
     * Otherwise `attempt` is what the broker did to its retry. Confirmed, the delivery is acknowledged, and
     * `at`, the broker as the publish left it, has one new copy, counted once more, in the queue of its delay.
     */
    method OnFailure(r: nat, ghost alone: bool := false) returns (attempt: Option<Attempt>, ghost at: State)
      requires Valid() && InPhase(s, r, true) && s.runs[r].phase.Rejected?
      modifies this
      ensures Valid() && Settled(r) && s.runs[r].source == old(s).runs[r].source
      ensures var job, count := JobOf(old(s), r), old(s).runs[r].source.retryCount;
              && (attempt.None? <==>
                    old(s).runs[r].phase.terminal || c.maxRetries <= count || job.messageId == None || job.messageId == Some(""))
              && (attempt.None? ==> s.copies == Placed(old(s), r, InQueue(ParkingQueue(c.app))))
              && (attempt.Some? && !(attempt.value.tierOk && attempt.value.confirmed) && s.runs[r].open ==>
                    s.copies[s.runs[r].source.copy].at == InQueue(ParkingQueue(c.app)))
              && (attempt.Some? && attempt.value.tierOk && attempt.value.confirmed ==>
                    && |old(s).copies| < |at.copies| && Remembers(at, s)
                    && at.copies[|at.copies| - 1] == RetryCopy(old(s), r, count)
                    && (s.runs[r].open ==> s.copies[s.runs[r].source.copy].at == Gone))
              && (attempt.Some? && attempt.value.tierOk && attempt.value.confirmed && alone ==>
                    s.copies == Placed(old(s), r, Gone) + [RetryCopy(old(s), r, count)])
    {
      attempt, at := None, s;
      var decision := DecideOnFailure(s.runs[r].phase.terminal, s.runs[r].source.retryCount, c.maxRetries, c.baseDelayMs);
      DecidesExactly(s.runs[r].phase.terminal, s.runs[r].source.retryCount, c.maxRetries, c.baseDelayMs);
      if decision.Park? {
        NackMessage(r, Step.OnFailure(r));
        return;
      }
      var id := JobOf(s, r).messageId;
      if id.None? || id.value == "" {
        NackMessage(r, Step.OnFailure(r));
        return;
      }
      attempt, at := Retry(r, decision.delayMs, decision.nextRetryCount, alone);
    }

    /** The retry of a delivery that has a try left: publish, then ack. */
    method Retry(r: nat, delayMs: nat, next: nat, ghost alone: bool) returns (attempt: Option<Attempt>, ghost at: State)
      requires Valid() && InPhase(s, r, true) && s.runs[r].phase == Rejected(false)
      requires Enabled(c, s, Step.OnFailure(r)) && Apply(c, s, Step.OnFailure(r)) == To(s, r, DeclaringTier(delayMs, next))
      modifies this
      ensures Valid() && Settled(r) && s.runs[r].source == old(s).runs[r].source && attempt.Some?
      ensures if attempt.value.tierOk && attempt.value.confirmed then
                && |old(s).copies| < |at.copies| && Remembers(at, s)
                && at.copies[|at.copies| - 1] == NewCopy(old(s), r, delayMs, next)
                && (s.runs[r].open ==> s.copies[s.runs[r].source.copy].at == Gone)
              else s.runs[r].open ==> s.copies[s.runs[r].source.copy].at == InQueue(ParkingQueue(c.app))
      ensures attempt.value.tierOk && attempt.value.confirmed && alone ==>
                s.copies == Placed(old(s), r, Gone) + [NewCopy(old(s), r, delayMs, next)]
    {
      StartRetry(r, delayMs, next, alone);
      var tried;
      tried, at := Republish(r, alone);
      attempt := Some(tried);
      if tried.tierOk && tried.confirmed {
        AckRetried(r, alone);
      }
    }

    method StartRetry(r: nat, delayMs: nat, next: nat, ghost alone: bool)
      requires Valid() && InPhase(s, r, true) && s.runs[r].phase == Rejected(false)
      requires Enabled(c, s, Step.OnFailure(r)) && Apply(c, s, Step.OnFailure(r)) == To(s, r, DeclaringTier(delayMs, next))
      modifies this
      ensures Valid() && Moved(old(s), s, r, DeclaringTier(delayMs, next)) && Remembers(old(s), s)
      ensures alone ==> s.copies == old(s).copies && s.runs[r].open == old(s).runs[r].open
    {
      ghost var before := s;
      s := To(s, r, DeclaringTier(delayMs, next));
      OneStep(c, origin, before, s, Step.OnFailure(r));
      Await(r, alone);
    }

    /** The ack that follows the confirmed publish of the retry. */
    method AckRetried(r: nat, ghost alone: bool)
      requires Valid() && InPhase(s, r, true) && s.runs[r].phase.Republished?
      modifies this
      ensures Valid() && Settled(r) && s.runs[r].source == old(s).runs[r].source && Remembers(old(s), s)
      ensures s.runs[r].open ==> s.copies[s.runs[r].source.copy].at == Gone
      ensures alone ==> s.copies == Placed(old(s), r, Gone)
    {
      Await(r, alone);
      assert InPhase(s, r, true);
      AckMessage(r, Step.AckRetry(r));
    }

    /** The copies with the delivery of run `r` settled to `place`, if the broker still has its channel. */
    static function Placed(s: State, r: nat, place: Place): seq<Copy>
      requires Exists(s, r) && s.runs[r].source.Delivery?
    {
      var i := s.runs[r].source.copy;
      if s.runs[r].open then s.copies[i := s.copies[i].(at := place)] else s.copies
    }

    /** The copy a retry publishes: counted once more, waiting the delay doubled once a try, up to the cap. */
    function RetryCopy(s: State, r: nat, count: nat): Copy
      requires Exists(s, r)
    {
      var delayMs := Min(c.baseDelayMs * Pow2(count), 300_000);
      Copy(s.runs[r].job, Some(Decimal(count + 1)), delayMs, InQueue(RetryQueueFor(JobOf(s, r).queue, delayMs)))
    }

    /** The try block: the tier first, then the publish. A throw parks the message. */
    method Republish(r: nat, ghost alone: bool := false) returns (tried: Attempt, ghost at: State)
      requires Valid() && InPhase(s, r, true) && s.runs[r].phase.DeclaringTier?
      modifies this
      ensures Valid() && Exists(s, r) && s.runs[r].source.Delivery? && s.runs[r].source == old(s).runs[r].source
      ensures s.runs[r].job == old(s).runs[r].job && old(s).jobs <= s.jobs
      ensures if tried.tierOk && tried.confirmed then
                && s.runs[r].phase.Republished? && s == at && |old(s).copies| < |at.copies|
                && at.copies[|at.copies| - 1] == NewCopy(old(s), r, old(s).runs[r].phase.delayMs, old(s).runs[r].phase.next)
              else Settled(r) && (s.runs[r].open ==> s.copies[s.runs[r].source.copy].at == InQueue(ParkingQueue(c.app)))
      ensures tried.tierOk && tried.confirmed && alone ==>
                && s.runs[r].open == old(s).runs[r].open
                && s.copies == old(s).copies + [NewCopy(old(s), r, old(s).runs[r].phase.delayMs, old(s).runs[r].phase.next)]
    {
      assert RunOk(c, s, r) && JobOk(c, s, s.runs[r].job);
      TierKeepsDeclared(c.app, s.broker, JobOf(s, r).queue, s.runs[r].phase.delayMs);
      var tierOk: bool := *;
      // On a closed channel the declaration rejects, so nothing is republished.
      tierOk := tierOk && s.runs[r].open;
      if !tierOk {
        NackMessage(r, TierReply(r, false));
        return Attempt(false, false, false), s;
      }
      ghost var before := s;
      s := To(s, r, Republishing(s.runs[r].phase.delayMs, s.runs[r].phase.next)).(broker := TierOn(s, r).value);
      OneStep(c, origin, before, s, TierReply(r, true));
      Await(r, alone);
      var arrives, confirmed := PublishRetry(r);
      return Attempt(true, arrives, confirmed), s;
    }

    static function NewCopy(s: State, r: nat, delayMs: nat, next: nat): Copy
      requires Exists(s, r)
    {
      Copy(s.runs[r].job, Some(Decimal(next)), delayMs, InQueue(RetryQueueFor(JobOf(s, r).queue, delayMs)))
    }

    method PublishRetry(r: nat) returns (arrives: bool, confirmed: bool)
      requires Valid() && InPhase(s, r, true) && s.runs[r].phase.Republishing?
      requires RetryQueueFor(JobOf(s, r).queue, s.runs[r].phase.delayMs) in s.broker.queues
      modifies this
      ensures Valid() && Exists(s, r) && s.runs[r].source == old(s).runs[r].source && s.runs[r].open == old(s).runs[r].open
      ensures s.runs[r].job == old(s).runs[r].job && s.jobs == old(s).jobs && (confirmed ==> arrives)
      ensures !confirmed ==> Settled(r) && (s.runs[r].open ==> s.copies[s.runs[r].source.copy].at == InQueue(ParkingQueue(c.app)))
      ensures confirmed ==> s.runs[r].phase.Republished?
      ensures confirmed ==> s.copies == old(s).copies
                                        + [NewCopy(old(s), r, old(s).runs[r].phase.delayMs, old(s).runs[r].phase.next)]
    {
      assert RunOk(c, s, r);
      var copy := Copy(s.runs[r].job, Some(Decimal(s.runs[r].phase.next)), s.runs[r].phase.delayMs,
                       InQueue(RetryQueueFor(JobOf(s, r).queue, s.runs[r].phase.delayMs)));
      arrives, confirmed := *, *;
      confirmed := confirmed && arrives;
      ghost var before := s;
      var sent := if arrives then s.(copies := s.copies + [copy]) else s;
      s := if confirmed then To(sent, r, Republished(|s.copies|)) else Nack(sent, r);
      OneStep(c, origin, before, s, PublishReply(r, arrives, confirmed));
      if !confirmed {
        RefusedPlace(c, before, r);
      }
    }

    /** An ack the broker takes only while it has the channel. */
    method AckMessage(r: nat, ghost step: Step)
      requires Valid() && InPhase(s, r, true) && Enabled(c, s, step) && Apply(c, s, step) == Settle(s, r, Gone)
      requires s.runs[r].phase.Resolved? || s.runs[r].phase.Republished?
      modifies this
      ensures Valid() && Settled(r)
      ensures s.copies == Placed(old(s), r, Gone) && s.runs[r].source == old(s).runs[r].source
      ensures s.runs[r].open == old(s).runs[r].open && Remembers(old(s), s)
      ensures s.runs[r].job == old(s).runs[r].job && s.jobs == old(s).jobs
    {
      ghost var before := s;
      assert RunOk(c, s, r);
      assert CopyOk(c, s, s.runs[r].source.copy);
      s := Settle(s, r, Gone);
      OneStep(c, origin, before, s, step);
      assert CopyOk(c, s, s.runs[r].source.copy);
    }

    /** The delivery of a copy: its retry header is read, and its handler starts. */
    method Receive(i: nat, process: nat, channel: nat) returns (r: nat)
      requires Valid() && CanDeliver(c, s, i)
      modifies this
      ensures Valid() && r == |old(s).runs| && InPhase(s, r, true) && s.runs[r].phase.Running? && s.jobs == old(s).jobs
      ensures s.runs[r].job == old(s).copies[i].job
      ensures s.runs[r].source == Delivery(i, channel, ReadRetryCount(old(s).copies[i].header))
    {
      ghost var before := s;
      r := |s.runs|;
      var retryCount := ReadRetryCount(s.copies[i].header);
      s := s.(runs := s.runs + [Run(s.copies[i].job, process, Delivery(i, channel, retryCount), true, false, Running)],
              copies := s.copies[i := s.copies[i].(at := Unacked(r))]);
      OneStep(c, origin, before, s, Deliver(i, process, channel));
    }

    /** Run `r`'s handler and what follows; `failed` tells a failure, terminal or not. */
    method HandleReceived(r: nat) returns (failed: Option<bool>, attempt: Option<Attempt>)
      requires Valid() && InPhase(s, r, true) && s.runs[r].phase.Running?
      modifies this
      ensures Valid() && Settled(r) && s.runs[r].source == old(s).runs[r].source
      ensures failed.Some? ==>
                var id := JobOf(old(s), r).messageId;
                (attempt.None? <==>
                   failed.value || c.maxRetries <= old(s).runs[r].source.retryCount || id == None || id == Some(""))
      ensures failed.None? ==> attempt.None? && Recorded(s, JobOf(s, r))
      ensures failed.None? && s.runs[r].open ==> s.copies[s.runs[r].source.copy].at == Gone
    {
      failed, attempt := None, None;
      var resolved, bodyRefused, report := Handler(r);
      ghost var at: State;
      if !resolved {
        failed := Some(s.runs[r].phase.terminal);
        attempt, at := OnFailure(r);
        return;
      }
      var ackThrows: bool := *;
      // A throwing ack rejects the chain before the catch, so it ends in onFailure too.
      if ackThrows && !s.runs[r].open {
        ThrowingAck(r);
        failed := Some(false);
        attempt, at := OnFailure(r);
      } else {
        AckMessage(r, AckSuccess(r, false));
      }
    }

    method ThrowingAck(r: nat)
      requires Valid() && Enabled(c, s, AckSuccess(r, true))
      modifies this
      ensures Valid() && Moved(old(s), s, r, Rejected(false))
    {
      ghost var before := s;
      s := To(s, r, Rejected(false));
      OneStep(c, origin, before, s, AckSuccess(r, true));
    }

    /** One delivery, from the consumer's callback to its settlement. */
    method Handle(i: nat, process: nat, channel: nat) returns (r: nat, failed: Option<bool>, attempt: Option<Attempt>)
      requires Valid() && CanDeliver(c, s, i)
      modifies this
      ensures Valid() && Settled(r) && r == |old(s).runs| && s.runs[r].source.copy == i
      ensures failed.Some? ==>
                var id := old(s).jobs[old(s).copies[i].job].messageId;
                (attempt.None? <==>
                   failed.value || c.maxRetries <= ReadRetryCount(old(s).copies[i].header) || id == None || id == Some(""))
      ensures failed.None? ==> attempt.None? && Recorded(s, JobOf(s, r))
      ensures failed.None? && s.runs[r].open ==> s.copies[i].at == Gone
    {
      r := Receive(i, process, channel);
      failed, attempt := HandleReceived(r);
    }

    // ---- A publisher that runs the job itself when its publish rejects, under the same key.

    /** The fallback's run ends where runOnce does. */
    method EndFallback(r: nat)
      requires Valid() && InPhase(s, r, false) && s.runs[r].phase.Finishing?
      modifies this
      ensures Valid() && Moved(old(s), s, r, Over)
      ensures s.rows == old(s).rows && s.sent == old(s).sent && s.commits == old(s).commits && s.jobs == old(s).jobs
    {
      ghost var before := s;
      s := To(s, r, Over);
      OneStep(c, origin, before, s, Step.Finish(r));
    }

    /** Queued, the message is in its queue; otherwise `fallback` is the run that did the job instead, and what it met. */
    method PublishOrRun(queue: string, messageId: string, process: nat)
      returns (queued: bool, ran: bool, fallback: Option<(nat, Report)>)
      requires Valid() && queue in WorkQueues(c.app) && Usable(Some(messageId))
      modifies this
      ensures Valid() && |old(s).jobs| < |s.jobs| && old(s).jobs <= s.jobs
      ensures var job := s.jobs[|old(s).jobs|];
              && job.queue == queue && job.messageId == Some(messageId)
              && (queued <==> job.confirmed)
              && (ran ==> Recorded(s, job))
      ensures queued <==> fallback.None?
      ensures queued ==> !ran && s.copies == old(s).copies + [Copy(|old(s).jobs|, None, 0, InQueue(queue))]
      ensures fallback.Some? ==>
                var (r, report) := fallback.value;
                && |old(s).runs| <= r && Exists(s, r) && s.runs[r].source.Fallback? && s.runs[r].job == |old(s).jobs|
                && s.runs[r].phase.Over? && !report.insert.NotTried? && Attests(r, report)
                && (ran <==> report.insert.Conflict? || report.committed == Some(true))
    {
      ghost var before := s;
      var j := |s.jobs|;
      var arrives: bool, confirmed: bool := *, *;
      queued := confirmed && arrives;
      s := s.(jobs := s.jobs + [Job(queue, Some(messageId), queued)],
              copies := if arrives then s.copies + [Copy(j, None, 0, InQueue(queue))] else s.copies);
      OneStep(c, origin, before, s, Publish(queue, Some(messageId), None, arrives, queued));
      ran, fallback := false, None;
      if queued {
        return;
      }
      before := s;
      var r := |s.runs|;
      s := s.(runs := s.runs + [Run(j, process, Source.Fallback, false, false, Running)]);
      OneStep(c, origin, before, s, StartFallback(j, process));
      var result, report := RunOnce(r);
      ran, fallback := result.Ran?, Some((r, report));
      if ran {
        EndFallback(r);
      }
    }
  }
}
