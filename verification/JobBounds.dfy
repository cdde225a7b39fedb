/**
 * How many handler runs one published message can cause, by an amortized count: every waiting
 * copy and every unfinished run holds the retries its header still allows.
 */
module JobBounds {
  import opened Common
  import opened Text
  import opened RetryPolicy
  import opened Topology
  import opened JobProtocol
  import opened JobInvariants

  // ---- The count.

  /** What is counted: handler runs, or milliseconds of scheduled backoff. */
  datatype Meter = Runs | Backoff

  function Price(m: Meter): nat {
    if m.Runs? then 1 else 0
  }

  /** The most that retries after count `retryCount` can add. */
  function Left(c: Config, m: Meter, retryCount: nat): nat
    decreases c.maxRetries - retryCount
  {
    if retryCount >= c.maxRetries then 0
    else Left(c, m, retryCount + 1) + (if m.Runs? then 1 else RetryDelayMs(retryCount, c.baseDelayMs))
  }

  lemma {:induction false} LeftShrinks(c: Config, m: Meter, retryCount: nat)
    ensures Left(c, m, retryCount) <= Left(c, m, 0)
  {
    if retryCount > 0 {
      LeftShrinks(c, m, retryCount - 1);
    }
  }

  lemma {:induction false} LeftInRuns(c: Config, n: nat)
    requires n <= c.maxRetries
    ensures Left(c, Runs, n) == c.maxRetries - n
    decreases c.maxRetries - n
  {
    if n < c.maxRetries {
      LeftInRuns(c, n + 1);
    }
  }

  lemma {:induction false} LeftInBackoff(c: Config, n: nat)
    requires n <= c.maxRetries
    ensures Left(c, Backoff, 0) == Sum(AllDelays(n, c.baseDelayMs)) + Left(c, Backoff, n)
  {
    if n > 0 {
      LeftInBackoff(c, n - 1);
      SumAppend(AllDelays(n - 1, c.baseDelayMs), RetryDelayMs(n - 1, c.baseDelayMs));
      assert AllDelays(n, c.baseDelayMs) == AllDelays(n - 1, c.baseDelayMs) + [RetryDelayMs(n - 1, c.baseDelayMs)];
    }
  }

  /** The budget one published message starts with. */
  function Whole(c: Config, m: Meter): nat {
    Left(c, m, 0) + Price(m)
  }

  /** A delivered run costs itself and the retries it may still schedule. */
  function RunCost(c: Config, m: Meter, run: Run, j: nat): nat {
    if run.job != j || run.source.Fallback? then 0
    else Price(m) + (if run.phase.Over? || run.phase.Republished? then 0 else Left(c, m, run.source.retryCount))
  }

  /** A copy that will be delivered costs that run and the retries after it. */
  function CopyCost(c: Config, m: Meter, copy: Copy, j: nat): nat {
    if copy.job != j then 0
    else
      (if m.Backoff? then copy.waitMs else 0)
      + (if copy.at.InQueue? && copy.at.name != ParkingQueue(c.app) then Left(c, m, ReadRetryCount(copy.header)) + Price(m) else 0)
  }

  function Loss(run: Run, j: nat): nat {
    if run.job == j && run.lost then 1 else 0
  }

  function RunCosts(c: Config, m: Meter, runs: seq<Run>, j: nat): seq<nat> {
    seq(|runs|, i requires 0 <= i < |runs| => RunCost(c, m, runs[i], j))
  }

  function CopyCosts(c: Config, m: Meter, copies: seq<Copy>, j: nat): seq<nat> {
    seq(|copies|, i requires 0 <= i < |copies| => CopyCost(c, m, copies[i], j))
  }

  function Losses(runs: seq<Run>, j: nat): seq<nat> {
    seq(|runs|, i requires 0 <= i < |runs| => Loss(runs[i], j))
  }

  function Deliveries(runs: seq<Run>, j: nat): seq<nat> {
    seq(|runs|, i requires 0 <= i < |runs| => if runs[i].job == j && runs[i].source.Delivery? then 1 else 0)
  }

  function Cost(c: Config, m: Meter, s: State, j: nat): nat {
    Sum(RunCosts(c, m, s.runs, j)) + Sum(CopyCosts(c, m, s.copies, j))
  }

  /** Deliveries of job `j` that a channel close or a crash left unsettled. */
  function Unsettled(s: State, j: nat): nat {
    Sum(Losses(s.runs, j))
  }

  /** Handler runs that deliveries of job `j` have started. */
  function HandlerRuns(s: State, j: nat): nat {
    Sum(Deliveries(s.runs, j))
  }

  // ---- One update's effect on the sums.

  lemma RunChanged(c: Config, m: Meter, runs: seq<Run>, r: nat, x: Run, j: nat)
    requires r < |runs|
    ensures Sum(RunCosts(c, m, runs[r := x], j)) == Sum(RunCosts(c, m, runs, j)) - RunCost(c, m, runs[r], j) + RunCost(c, m, x, j)
    ensures Sum(Losses(runs[r := x], j)) == Sum(Losses(runs, j)) - Loss(runs[r], j) + Loss(x, j)
  {
    SumUpdate(RunCosts(c, m, runs, j), r, RunCost(c, m, x, j));
    assert RunCosts(c, m, runs[r := x], j) == RunCosts(c, m, runs, j)[r := RunCost(c, m, x, j)];
    SumUpdate(Losses(runs, j), r, Loss(x, j));
    assert Losses(runs[r := x], j) == Losses(runs, j)[r := Loss(x, j)];
  }

  lemma RunAdded(c: Config, m: Meter, runs: seq<Run>, x: Run, j: nat)
    ensures Sum(RunCosts(c, m, runs + [x], j)) == Sum(RunCosts(c, m, runs, j)) + RunCost(c, m, x, j)
    ensures Sum(Losses(runs + [x], j)) == Sum(Losses(runs, j)) + Loss(x, j)
  {
    SumAppend(RunCosts(c, m, runs, j), RunCost(c, m, x, j));
    assert RunCosts(c, m, runs + [x], j) == RunCosts(c, m, runs, j) + [RunCost(c, m, x, j)];
    SumAppend(Losses(runs, j), Loss(x, j));
    assert Losses(runs + [x], j) == Losses(runs, j) + [Loss(x, j)];
  }

  lemma CopyChanged(c: Config, m: Meter, copies: seq<Copy>, i: nat, x: Copy, j: nat)
    requires i < |copies|
    ensures Sum(CopyCosts(c, m, copies[i := x], j)) == Sum(CopyCosts(c, m, copies, j)) - CopyCost(c, m, copies[i], j) + CopyCost(c, m, x, j)
  {
    SumUpdate(CopyCosts(c, m, copies, j), i, CopyCost(c, m, x, j));
    assert CopyCosts(c, m, copies[i := x], j) == CopyCosts(c, m, copies, j)[i := CopyCost(c, m, x, j)];
  }

  lemma CopyAdded(c: Config, m: Meter, copies: seq<Copy>, x: Copy, j: nat)
    ensures Sum(CopyCosts(c, m, copies + [x], j)) == Sum(CopyCosts(c, m, copies, j)) + CopyCost(c, m, x, j)
  {
    SumAppend(CopyCosts(c, m, copies, j), CopyCost(c, m, x, j));
    assert CopyCosts(c, m, copies + [x], j) == CopyCosts(c, m, copies, j) + [CopyCost(c, m, x, j)];
  }

  lemma AllZero(xs: seq<nat>)
    requires forall i :: 0 <= i < |xs| ==> xs[i] == 0
    ensures Sum(xs) == 0
  {
    if xs != [] {
      AllZero(xs[..|xs| - 1]);
    }
  }

  // ---- Steps.

  /** `n` whole budgets. */
  function Budget(c: Config, m: Meter, n: nat): nat {
    if n == 0 then 0 else Budget(c, m, n - 1) + Whole(c, m)
  }

  lemma BudgetAdds(c: Config, m: Meter, k: nat, n: nat)
    ensures Budget(c, m, k + n) == Budget(c, m, k) + Budget(c, m, n)
  {
    if n > 0 {
      BudgetAdds(c, m, k, n - 1);
    }
  }

  lemma BudgetIsProduct(c: Config, m: Meter, n: nat)
    ensures Budget(c, m, n) == Whole(c, m) * n
  {
    if n > 0 {
      BudgetIsProduct(c, m, n - 1);
      assert Whole(c, m) * n == Whole(c, m) * (n - 1) + Whole(c, m);
    }
  }

  /** Only a lost delivery may raise the count, by one whole budget. */
  ghost predicate Paid(c: Config, m: Meter, s: State, t: State, j: nat) {
    && Unsettled(t, j) >= Unsettled(s, j)
    && Cost(c, m, t, j) <= Cost(c, m, s, j) + Budget(c, m, Unsettled(t, j) - Unsettled(s, j))
  }

  lemma NoLossPaid(c: Config, m: Meter, s: State, t: State, j: nat)
    requires Unsettled(t, j) == Unsettled(s, j) && Cost(c, m, t, j) <= Cost(c, m, s, j)
    ensures Paid(c, m, s, t, j)
  {
  }

  lemma OneLossPaid(c: Config, m: Meter, s: State, t: State, j: nat)
    requires Unsettled(t, j) == Unsettled(s, j) + 1 && Cost(c, m, t, j) <= Cost(c, m, s, j) + Whole(c, m)
    ensures Paid(c, m, s, t, j)
  {
  }

  lemma PhasePaid(c: Config, m: Meter, s: State, r: nat, phase: Phase, j: nat)
    requires r < |s.runs|
    requires s.runs[r].phase.Over? || s.runs[r].phase.Republished? ==> phase.Over? || phase.Republished?
    ensures Paid(c, m, s, To(s, r, phase), j) && Unsettled(To(s, r, phase), j) == Unsettled(s, j)
    ensures Cost(c, m, To(s, r, phase), j) == Cost(c, m, s, j) - RunCost(c, m, s.runs[r], j) + RunCost(c, m, s.runs[r].(phase := phase), j)
  {
    RunChanged(c, m, s.runs, r, s.runs[r].(phase := phase), j);
  }

  lemma SettlePaid(c: Config, m: Meter, s: State, r: nat, place: Place, j: nat)
    requires Exists(s, r) && s.runs[r].source.Delivery?
    requires place == Gone || place == InQueue(ParkingQueue(c.app))
    ensures Unsettled(Settle(s, r, place), j) == Unsettled(s, j)
    ensures Cost(c, m, Settle(s, r, place), j)
         <= Cost(c, m, s, j) - RunCost(c, m, s.runs[r], j) + RunCost(c, m, s.runs[r].(phase := Over), j)
  {
    RunChanged(c, m, s.runs, r, s.runs[r].(phase := Over), j);
    var i := s.runs[r].source.copy;
    CopyChanged(c, m, s.copies, i, s.copies[i].(at := place), j);
  }

  lemma LoseChannelPaid(c: Config, m: Meter, s: State, r: nat, j: nat)
    requires Structure(c, s)
    ensures Paid(c, m, s, LoseChannel(s, r), j)
  {
    var t := LoseChannel(s, r);
    if t != s {
      assert RunOk(c, s, r);
      var i := s.runs[r].source.copy;
      var held := s.copies[i].at == Unacked(r);
      var run := s.runs[r].(open := false, lost := held);
      RunChanged(c, m, s.runs, r, run, j);
      assert RunCost(c, m, run, j) == RunCost(c, m, s.runs[r], j);
      assert t.runs == s.runs[r := run];
      if held {
        LostCopyPaid(c, m, s, r, j);
        assert t.copies == s.copies[i := s.copies[i].(at := InQueue(JobOf(s, r).queue))];
        assert Loss(s.runs[r], j) == 0;
        if s.runs[r].job == j {
          OneLossPaid(c, m, s, t, j);
        } else {
          NoLossPaid(c, m, s, t, j);
        }
      } else {
        NoLossPaid(c, m, s, t, j);
      }
    }
  }

  lemma LostCopyPaid(c: Config, m: Meter, s: State, r: nat, j: nat)
    requires Structure(c, s) && Exists(s, r) && s.runs[r].source.Delivery?
    requires s.copies[s.runs[r].source.copy].at == Unacked(r)
    ensures var i := s.runs[r].source.copy;
            var requeued := s.copies[i].(at := InQueue(JobOf(s, r).queue));
            Sum(CopyCosts(c, m, s.copies[i := requeued], j))
            <= Sum(CopyCosts(c, m, s.copies, j)) + (if s.runs[r].job == j then Whole(c, m) else 0)
  {
    assert RunOk(c, s, r);
    var i := s.runs[r].source.copy;
    LeftShrinks(c, m, ReadRetryCount(s.copies[i].header));
    CopyChanged(c, m, s.copies, i, s.copies[i].(at := InQueue(JobOf(s, r).queue)), j);
  }

  lemma PaidTransitive(c: Config, m: Meter, s: State, t: State, u: State, j: nat)
    requires Paid(c, m, s, t, j) && Paid(c, m, t, u, j)
    ensures Paid(c, m, s, u, j)
  {
    BudgetAdds(c, m, Unsettled(t, j) - Unsettled(s, j), Unsettled(u, j) - Unsettled(t, j));
  }

  lemma {:induction false} LoseChannelsPaid(c: Config, m: Meter, s: State, channel: nat, n: nat, j: nat)
    requires Structure(c, s)
    ensures Paid(c, m, s, LoseChannels(s, channel, n), j)
  {
    if n > 0 {
      var t := LoseChannels(s, channel, n - 1);
      LoseChannelsKeeps(c, s, channel, n - 1);
      LoseChannelsPaid(c, m, s, channel, n - 1, j);
      LoseChannelPaid(c, m, t, n - 1, j);
      PaidTransitive(c, m, s, t, LoseChannel(t, n - 1), j);
    }
  }

  lemma KillPaid(c: Config, m: Meter, s: State, r: nat, j: nat)
    requires Structure(c, s) && r < |s.runs|
    ensures Paid(c, m, s, To(LoseChannel(s, r), r, Over), j)
  {
    var u := LoseChannel(s, r);
    LoseChannelKeeps(c, s, r);
    LoseChannelPaid(c, m, s, r, j);
    PhasePaid(c, m, u, r, Over, j);
    PaidTransitive(c, m, s, u, To(u, r, Over), j);
  }

  lemma {:induction false} LoseProcessPaid(c: Config, m: Meter, s: State, process: nat, n: nat, j: nat)
    requires Structure(c, s)
    ensures Paid(c, m, s, LoseProcess(s, process, n), j)
  {
    if n > 0 {
      var t := LoseProcess(s, process, n - 1);
      LoseProcessKeeps(c, s, process, n - 1);
      LoseProcessPaid(c, m, s, process, n - 1, j);
      if n - 1 < |t.runs| && t.runs[n - 1].process == process {
        KillPaid(c, m, t, n - 1, j);
        PaidTransitive(c, m, s, t, LoseProcess(s, process, n), j);
      }
    }
  }

  lemma DeliverPaid(c: Config, m: Meter, s: State, step: Step, j: nat)
    requires Inv(c, s) && step.Deliver? && Enabled(c, s, step)
    ensures Paid(c, m, s, Apply(c, s, step), j)
  {
    var t := Apply(c, s, step);
    var i := step.copy;
    assert JobOk(c, s, s.copies[i].job);
    NamesDiffer(c.app);
    RunAdded(c, m, s.runs, t.runs[|s.runs|], j);
    CopyChanged(c, m, s.copies, i, t.copies[i], j);
  }

  lemma ExpirePaid(c: Config, m: Meter, s: State, step: Step, j: nat)
    requires Inv(c, s) && step.Expire? && Enabled(c, s, step)
    ensures Paid(c, m, s, Apply(c, s, step), j)
  {
    var t := Apply(c, s, step);
    CopyChanged(c, m, s.copies, step.copy, t.copies[step.copy], j);
  }

  lemma PublishReplyPaid(c: Config, m: Meter, s: State, step: Step, j: nat)
    requires Inv(c, s) && step.PublishReply? && Enabled(c, s, step)
    ensures Paid(c, m, s, Apply(c, s, step), j)
  {
    var r := step.run;
    assert RunOk(c, s, r);
    var copy := RetryCopy(s, r);
    RetryCopyCost(c, m, s, r, j);
    var u := if step.arrives then s.(copies := s.copies + [copy]) else s;
    CopyAdded(c, m, s.copies, copy, j);
    assert Cost(c, m, u, j) <= Cost(c, m, s, j) + RunCost(c, m, s.runs[r], j) - RunCost(c, m, s.runs[r].(phase := Over), j);
    if step.confirmed {
      PhasePaid(c, m, u, r, Republished(|s.copies|), j);
      NoLossPaid(c, m, s, To(u, r, Republished(|s.copies|)), j);
    } else {
      RefusedPlace(c, s, r);
      SettlePaid(c, m, u, r, InQueue(ParkingQueue(c.app)), j);
      NoLossPaid(c, m, s, Settle(u, r, InQueue(ParkingQueue(c.app))), j);
    }
    PublishReplySplit(c, s, step);
  }

  lemma PublishReplySplit(c: Config, s: State, step: Step)
    requires step.PublishReply? && Enabled(c, s, step)
    ensures var r := step.run;
            var u := if step.arrives then s.(copies := s.copies + [RetryCopy(s, r)]) else s;
            Apply(c, s, step) == if step.confirmed then To(u, r, Republished(|s.copies|)) else Nack(u, r)
  {
  }

  function RetryCopy(s: State, r: nat): Copy
    requires Exists(s, r) && s.runs[r].phase.Republishing?
  {
    Copy(s.runs[r].job, Some(Decimal(s.runs[r].phase.next)), s.runs[r].phase.delayMs,
         InQueue(RetryQueueFor(JobOf(s, r).queue, s.runs[r].phase.delayMs)))
  }

  /** The retry copy costs what the run it came from still held. */
  lemma RetryCopyCost(c: Config, m: Meter, s: State, r: nat, j: nat)
    requires Structure(c, s) && Exists(s, r) && s.runs[r].phase.Republishing? && s.runs[r].source.Delivery?
    ensures CopyCost(c, m, RetryCopy(s, r), j) <= RunCost(c, m, s.runs[r], j) - RunCost(c, m, s.runs[r].(phase := Over), j)
  {
    RetryPlan(c, s, r);
    RetryCost(c, m, s.runs[r], RetryCopy(s, r), j);
  }

  lemma RetryPlan(c: Config, s: State, r: nat)
    requires Structure(c, s) && Exists(s, r) && s.runs[r].phase.Republishing? && s.runs[r].source.Delivery?
    ensures var run := s.runs[r];
            run.phase.next == run.source.retryCount + 1 <= c.maxRetries
            && run.phase.delayMs == RetryDelayMs(run.source.retryCount, c.baseDelayMs)
  {
    assert RunOk(c, s, r);
  }

  lemma RetryCost(c: Config, m: Meter, run: Run, copy: Copy, j: nat)
    requires run.phase.Republishing? && run.source.Delivery?
    requires run.phase.next == run.source.retryCount + 1 <= c.maxRetries
    requires run.phase.delayMs == RetryDelayMs(run.source.retryCount, c.baseDelayMs)
    requires copy.job == run.job && copy.header == Some(Decimal(run.phase.next)) && copy.waitMs == run.phase.delayMs
    ensures CopyCost(c, m, copy, j) <= RunCost(c, m, run, j) - RunCost(c, m, run.(phase := Over), j)
  {
    CopyOfCount(c, m, copy, run.phase.next, j);
    LeftStep(c, m, run.source.retryCount);
  }

  lemma CopyOfCount(c: Config, m: Meter, copy: Copy, count: nat, j: nat)
    requires copy.header == Some(Decimal(count))
    ensures CopyCost(c, m, copy, j)
         <= if copy.job != j then 0 else (if m.Backoff? then copy.waitMs else 0) + Left(c, m, count) + Price(m)
  {
    ReadBackRetryCount(count);
  }

  lemma LeftStep(c: Config, m: Meter, count: nat)
    requires count < c.maxRetries
    ensures Left(c, m, count) == Left(c, m, count + 1) + if m.Runs? then 1 else RetryDelayMs(count, c.baseDelayMs)
  {
  }

  lemma DeliveryStepPaid(c: Config, m: Meter, s: State, step: Step, j: nat)
    requires Inv(c, s) && Enabled(c, s, step)
    requires step.AckSuccess? || step.OnFailure? || step.TierReply? || step.AckRetry?
    ensures Paid(c, m, s, Apply(c, s, step), j)
  {
    var t := Apply(c, s, step);
    var r := step.run;
    RefusedPlace(c, s, r);
    SettledOrMoved(c, s, step);
    if t.runs[r].phase.Over? {
      SettlePaid(c, m, s, r, if step.AckSuccess? || step.AckRetry? then Gone else InQueue(ParkingQueue(c.app)), j);
      NoLossPaid(c, m, s, t, j);
    } else {
      var moved := To(s, r, t.runs[r].phase);
      PhasePaid(c, m, s, r, t.runs[r].phase, j);
      assert t.runs == moved.runs && t.copies == moved.copies;
    }
  }

  lemma SettledOrMoved(c: Config, s: State, step: Step)
    requires Inv(c, s) && Enabled(c, s, step)
    requires step.AckSuccess? || step.OnFailure? || step.TierReply? || step.AckRetry?
    ensures var t := Apply(c, s, step);
            var r := step.run;
            if t.runs[r].phase.Over? then
              t == Settle(s, r, if step.AckSuccess? || step.AckRetry? then Gone else RefusedTo(s.broker, JobOf(s, r).queue))
            else
              t.(broker := s.broker) == To(s, r, t.runs[r].phase) && !s.runs[r].phase.Republished?
  {
  }

  lemma HandlerStepPaid(c: Config, m: Meter, s: State, step: Step, j: nat)
    requires Inv(c, s) && Enabled(c, s, step)
    requires step.InsertRow? || step.Work? || step.CommitRow? || step.Fail? || step.Finish?
    ensures Paid(c, m, s, Apply(c, s, step), j)
  {
    var t := Apply(c, s, step);
    PhasePaid(c, m, s, step.run, t.runs[step.run].phase, j);
  }

  lemma StepPaid(c: Config, m: Meter, s: State, step: Step, j: nat)
    requires Inv(c, s) && Enabled(c, s, step) && j < |s.jobs|
    ensures Paid(c, m, s, Apply(c, s, step), j)
  {
    match step
    case Publish(_, _, header, _, _) => CopyAdded(c, m, s.copies, Copy(|s.jobs|, header, 0, InQueue(step.queue)), j);
    case StartFallback(k, p) => RunAdded(c, m, s.runs, Run(k, p, Source.Fallback, false, false, Running), j);
    case Deliver(_, _, _) => DeliverPaid(c, m, s, step, j);
    case Expire(_) => ExpirePaid(c, m, s, step, j);
    case PublishReply(_, _, _) => PublishReplyPaid(c, m, s, step, j);
    case CloseChannel(channel) => LoseChannelsPaid(c, m, s, channel, |s.runs|, j);
    case Crash(process) => LoseProcessPaid(c, m, s, process, |s.runs|, j);
    case InsertRow(_) => HandlerStepPaid(c, m, s, step, j);
    case Work(_) => HandlerStepPaid(c, m, s, step, j);
    case SubjectBecomes(_, _) => NoLossPaid(c, m, s, Apply(c, s, step), j);
    case CommitRow(_, _) => HandlerStepPaid(c, m, s, step, j);
    case Fail(_, _) => HandlerStepPaid(c, m, s, step, j);
    case Finish(_) => HandlerStepPaid(c, m, s, step, j);
    case _ => DeliveryStepPaid(c, m, s, step, j);
  }

  // ---- Over whole runs.

  ghost predicate WithinBudget(c: Config, m: Meter, s: State, j: nat) {
    Cost(c, m, s, j) <= Budget(c, m, 1 + Unsettled(s, j))
  }

  lemma UnpublishedIsFree(c: Config, m: Meter, s: State, j: nat)
    requires Structure(c, s) && |s.jobs| <= j
    ensures Cost(c, m, s, j) == 0 && Unsettled(s, j) == 0
  {
    forall r | 0 <= r < |s.runs|
      ensures s.runs[r].job != j
    {
      assert RunOk(c, s, r);
    }
    forall i | 0 <= i < |s.copies|
      ensures s.copies[i].job != j
    {
      assert CopyOk(c, s, i);
    }
    AllZero(RunCosts(c, m, s.runs, j));
    AllZero(CopyCosts(c, m, s.copies, j));
    AllZero(Losses(s.runs, j));
  }

  lemma BudgetStep(c: Config, m: Meter, s: State, step: Step, j: nat)
    requires Inv(c, s) && Enabled(c, s, step) && (j < |s.jobs| ==> WithinBudget(c, m, s, j))
    requires j < |Apply(c, s, step).jobs|
    ensures WithinBudget(c, m, Apply(c, s, step), j)
  {
    var t := Apply(c, s, step);
    if j < |s.jobs| {
      StepPaid(c, m, s, step, j);
      BudgetAdds(c, m, 1 + Unsettled(s, j), Unsettled(t, j) - Unsettled(s, j));
    } else {
      UnpublishedIsFree(c, m, s, j);
      if !step.Publish? {
        JobsUnchanged(c, s, step);
      }
      LeftShrinks(c, m, ReadRetryCount(step.header));
      CopyAdded(c, m, s.copies, Copy(|s.jobs|, step.header, 0, InQueue(step.queue)), j);
    }
  }

  lemma JobsUnchanged(c: Config, s: State, step: Step)
    requires Inv(c, s) && Enabled(c, s, step) && !step.Publish?
    ensures Apply(c, s, step).jobs == s.jobs
  {
    if step.CloseChannel? {
      LoseChannelsJobs(s, step.channel, |s.runs|);
    } else if step.Crash? {
      LoseProcessJobs(s, step.process, |s.runs|);
    }
  }

  lemma {:induction false} LoseChannelsJobs(s: State, channel: nat, n: nat)
    ensures LoseChannels(s, channel, n).jobs == s.jobs
  {
    if n > 0 {
      LoseChannelsJobs(s, channel, n - 1);
    }
  }

  lemma {:induction false} LoseProcessJobs(s: State, process: nat, n: nat)
    ensures LoseProcess(s, process, n).jobs == s.jobs
  {
    if n > 0 {
      LoseProcessJobs(s, process, n - 1);
    }
  }

  lemma {:induction false} BudgetOverRuns(c: Config, m: Meter, s: State, steps: seq<Step>, t: State, j: nat)
    requires Inv(c, s) && Follows(c, s, steps, t) && (j < |s.jobs| ==> WithinBudget(c, m, s, j)) && j < |t.jobs|
    ensures WithinBudget(c, m, t, j)
    decreases |steps|
  {
    if steps != [] {
      var u := Apply(c, s, steps[0]);
      InvStep(c, s, steps[0]);
      if j < |u.jobs| {
        BudgetStep(c, m, s, steps[0], j);
      }
      BudgetOverRuns(c, m, u, steps[1..], t, j);
    }
  }

  /**
   * One published message starts at most (maxRetries + 1) * (1 + u) handler runs, u being its
   * deliveries that a channel close or a crash left unsettled, whatever else happens around it.
   */
  lemma HandlerRunsBounded(c: Config, s: State, steps: seq<Step>, t: State, j: nat)
    requires Init(c, s) && Follows(c, s, steps, t) && j < |t.jobs|
    ensures HandlerRuns(t, j) <= (c.maxRetries + 1) * (1 + Unsettled(t, j))
  {
    BudgetOverRuns(c, Runs, s, steps, t, j);
    BudgetIsProduct(c, Runs, 1 + Unsettled(t, j));
    LeftInRuns(c, 0);
    SumAtMost(Deliveries(t.runs, j), RunCosts(c, Runs, t.runs, j));
  }

  function Waits(copies: seq<Copy>, j: nat): seq<nat> {
    seq(|copies|, i requires 0 <= i < |copies| => if copies[i].job == j then copies[i].waitMs else 0)
  }

  /** The backoff of all its retry copies together, which the same losses multiply. */
  lemma BackoffBounded(c: Config, s: State, steps: seq<Step>, t: State, j: nat)
    requires Init(c, s) && Follows(c, s, steps, t) && j < |t.jobs|
    ensures Sum(Waits(t.copies, j)) <= Sum(AllDelays(c.maxRetries, c.baseDelayMs)) * (1 + Unsettled(t, j))
  {
    BudgetOverRuns(c, Backoff, s, steps, t, j);
    BudgetIsProduct(c, Backoff, 1 + Unsettled(t, j));
    WholeBackoff(c);
    SumAtMost(Waits(t.copies, j), CopyCosts(c, Backoff, t.copies, j));
  }

  /** With nothing lost, the whole wait is bounded by the cap and by the doubling, whichever is less. */
  lemma BackoffWithoutLoss(c: Config, s: State, steps: seq<Step>, t: State, j: nat)
    requires Init(c, s) && Follows(c, s, steps, t) && j < |t.jobs| && Unsettled(t, j) == 0
    ensures Sum(Waits(t.copies, j)) <= Min(c.maxRetries * MAX_RETRY_DELAY_MS, c.baseDelayMs * (Pow2(c.maxRetries) - 1))
  {
    BackoffBounded(c, s, steps, t, j);
    SummedBackoff(c.maxRetries, c.baseDelayMs);
    var all := Sum(AllDelays(c.maxRetries, c.baseDelayMs));
    assert all * (1 + Unsettled(t, j)) == all;
  }

  lemma WholeBackoff(c: Config)
    ensures Whole(c, Backoff) == Sum(AllDelays(c.maxRetries, c.baseDelayMs))
  {
    LeftInBackoff(c, c.maxRetries);
  }
}
