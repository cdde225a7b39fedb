/** What every step of the job protocol keeps, and what that means over whole runs. */
module JobInvariants {
  import opened Common
  import opened Text
  import opened RetryPolicy
  import opened Topology
  import opened JobProtocol

  // ---- The invariant.

  ghost predicate Recorded(s: State, job: Job) {
    job.messageId.Some? && KeyOf(job) in s.rows
  }

  /** An unfinished delivery on an open channel holds its copy, and its phase tells the truth. */
  ghost predicate RunOk(c: Config, s: State, r: nat) {
    && Exists(s, r)
    && var run := s.runs[r];
       var job := s.jobs[run.job];
       && (run.source.Delivery? ==> s.copies[run.source.copy].job == run.job)
       && (run.source.Delivery? && run.open && !run.phase.Over? ==> s.copies[run.source.copy].at == Unacked(r))
       && (run.lost ==> !run.open)
       && (run.source.Fallback? ==> run.phase.Running? || run.phase.InTransaction? || run.phase.Finishing? || run.phase.Over?)
       && match run.phase
          case Finishing(_) => Recorded(s, job)
          case Resolved(_) => Recorded(s, job)
          case InTransaction(effect) =>
            Usable(job.messageId) && KeyOf(job) !in s.rows && (effect.Read? && effect.owed ==> r in s.sent)
          case DeclaringTier(delayMs, next) =>
            next == run.source.retryCount + 1 <= c.maxRetries && delayMs == RetryDelayMs(next - 1, c.baseDelayMs)
          case Republishing(delayMs, next) =>
            next == run.source.retryCount + 1 <= c.maxRetries && delayMs == RetryDelayMs(next - 1, c.baseDelayMs)
          case Republished(n) => run.source.copy < n < |s.copies| && s.copies[n].job == run.job
          case _ => true
  }

  ghost predicate LaterCopy(s: State, i: nat) {
    exists m :: i < m < |s.copies| && s.copies[m].job == s.copies[i].job
  }

  ghost predicate RetryPlace(s: State, queue: string, name: string) {
    exists d: nat :: name == RetryQueueFor(queue, d) && name in s.broker.queues
  }

  /** A copy is settled only when its job is recorded or a later copy stands in for it. */
  ghost predicate CopyOk(c: Config, s: State, i: nat)
    requires i < |s.copies|
  {
    && s.copies[i].job < |s.jobs|
    && var job := s.jobs[s.copies[i].job];
       match s.copies[i].at
       case InQueue(name) => name == job.queue || name == ParkingQueue(c.app) || RetryPlace(s, job.queue, name)
       case Unacked(r) =>
         && r < |s.runs| && s.runs[r].source.Delivery? && s.runs[r].source.copy == i
         && s.runs[r].open && !s.runs[r].phase.Over?
       case Gone => Recorded(s, job) || LaterCopy(s, i)
  }

  ghost predicate JobOk(c: Config, s: State, j: nat)
    requires j < |s.jobs|
  {
    && s.jobs[j].queue in WorkQueues(c.app)
    && (s.jobs[j].confirmed ==> exists i :: 0 <= i < |s.copies| && s.copies[i].job == j)
  }

  ghost predicate Structure(c: Config, s: State) {
    && Declared(c.app, s.broker)
    && (forall j :: 0 <= j < |s.jobs| ==> JobOk(c, s, j))
    && (forall i :: 0 <= i < |s.copies| ==> CopyOk(c, s, i))
    && (forall r :: 0 <= r < |s.runs| ==> RunOk(c, s, r))
  }

  /** The unique key's lock: no two open transactions hold the same key. */
  ghost predicate Locks(s: State) {
    forall q, r :: 0 <= q < |s.runs| && 0 <= r < |s.runs| && Exists(s, q) && Exists(s, r)
      && s.runs[q].phase.InTransaction? && s.runs[r].phase.InTransaction?
      && JobOf(s, q).messageId.Some? && JobOf(s, r).messageId.Some? && KeyOf(JobOf(s, q)) == KeyOf(JobOf(s, r))
      ==> q == r
  }

  ghost predicate CommitOk(s: State, n: nat)
    requires n < |s.commits|
  {
    var commit := s.commits[n];
    && commit.key in s.rows
    && commit.job < |s.jobs| && s.jobs[commit.job].messageId.Some? && KeyOf(s.jobs[commit.job]) == commit.key
    && commit.effect.Read? && (commit.effect.owed ==> commit.run in s.sent)
  }

  ghost predicate Commits(s: State) {
    && (forall n :: 0 <= n < |s.commits| ==> CommitOk(s, n))
    && (forall k :: k in s.rows ==> exists n :: 0 <= n < |s.commits| && s.commits[n].key == k)
    && (forall m, n :: 0 <= m < n < |s.commits| ==> s.commits[m].key != s.commits[n].key)
  }

  ghost predicate Inv(c: Config, s: State) {
    Structure(c, s) && Locks(s) && Commits(s)
  }

  // ---- Frames.

  /** `t` differs from `s` at run `r` (and its copy) only, and forgets nothing. */
  ghost predicate OnlyRun(s: State, t: State, r: nat) {
    && s.jobs == t.jobs && s.rows <= t.rows && s.sent <= t.sent
    && s.broker.queues.Keys <= t.broker.queues.Keys
    && r < |s.runs| == |t.runs|
    && (forall q :: 0 <= q < |s.runs| && q != r ==> t.runs[q] == s.runs[q])
    && |s.copies| <= |t.copies|
    && (forall i :: 0 <= i < |s.copies| ==> t.copies[i].job == s.copies[i].job)
    && (forall i :: 0 <= i < |s.copies| && s.copies[i].at != Unacked(r) ==> t.copies[i] == s.copies[i])
  }

  ghost predicate StillUncommitted(s: State, q: nat, rows: set<Key>)
    requires q < |s.runs|
  {
    s.runs[q].phase.InTransaction? && Exists(s, q) && JobOf(s, q).messageId.Some? ==> KeyOf(JobOf(s, q)) !in rows
  }

  lemma OthersKept(c: Config, s: State, t: State, r: nat)
    requires Structure(c, s) && OnlyRun(s, t, r)
    requires forall q :: 0 <= q < |s.runs| && q != r ==> StillUncommitted(s, q, t.rows)
    ensures forall q :: 0 <= q < |t.runs| && q != r ==> RunOk(c, t, q)
    ensures forall i :: 0 <= i < |s.copies| && s.copies[i].at != Unacked(r) ==> CopyOk(c, t, i)
    ensures forall j :: 0 <= j < |t.jobs| ==> JobOk(c, t, j)
  {
    forall q | 0 <= q < |t.runs| && q != r
      ensures RunOk(c, t, q)
    {
      assert RunOk(c, s, q) && StillUncommitted(s, q, t.rows);
    }
    forall i | 0 <= i < |s.copies| && s.copies[i].at != Unacked(r)
      ensures CopyOk(c, t, i)
    {
      assert CopyOk(c, s, i);
      if s.copies[i].at.Gone? && LaterCopy(s, i) {
        var m :| i < m < |s.copies| && s.copies[m].job == s.copies[i].job;
        assert t.copies[m].job == t.copies[i].job;
      }
    }
    forall j | 0 <= j < |t.jobs|
      ensures JobOk(c, t, j)
    {
      assert JobOk(c, s, j);
      if s.jobs[j].confirmed {
        var i :| 0 <= i < |s.copies| && s.copies[i].job == j;
        assert t.copies[i].job == j;
      }
    }
  }

  lemma RefusedPlace(c: Config, s: State, r: nat)
    requires Structure(c, s) && Exists(s, r)
    ensures RefusedTo(s.broker, JobOf(s, r).queue) == InQueue(ParkingQueue(c.app))
  {
    assert RunOk(c, s, r);
    assert JobOk(c, s, s.runs[r].job);
    RefusedGoesToParking(c.app, s.broker, JobOf(s, r).queue, JobOf(s, r).queue);
  }

  /** Settling is safe into a queue it may wait in, or for good when something else stands for the job. */
  lemma SettleKeeps(c: Config, s: State, r: nat, place: Place)
    requires Structure(c, s) && Exists(s, r) && s.runs[r].source.Delivery?
    requires !s.runs[r].phase.Over?
    requires place == InQueue(ParkingQueue(c.app)) ||
             (place == Gone && (Recorded(s, JobOf(s, r)) || LaterCopy(s, s.runs[r].source.copy)))
    ensures Structure(c, Settle(s, r, place))
  {
    assert RunOk(c, s, r);
    var t := Settle(s, r, place);
    var i := s.runs[r].source.copy;
    assert CopyOk(c, s, i);
    forall q | 0 <= q < |s.runs| && q != r
      ensures StillUncommitted(s, q, t.rows)
    {
      assert RunOk(c, s, q);
    }
    OthersKept(c, s, t, r);
    assert RunOk(c, t, r);
    if s.runs[r].open {
      if place == Gone && LaterCopy(s, i) {
        var m :| i < m < |s.copies| && s.copies[m].job == s.copies[i].job;
        assert t.copies[m].job == t.copies[i].job;
      }
      assert CopyOk(c, t, i);
    }
    forall k | 0 <= k < |t.copies|
      ensures CopyOk(c, t, k)
    {
      assert CopyOk(c, s, k);
    }
  }

  /** A change of one run's phase alone. */
  lemma PhaseKeeps(c: Config, s: State, t: State, r: nat)
    requires Structure(c, s) && OnlyRun(s, t, r) && t.copies == s.copies && Declared(c.app, t.broker)
    requires t.rows == s.rows
    requires RunOk(c, t, r) && (t.runs[r].phase.Over? ==> t.runs[r].source.Fallback?)
    requires t.runs[r].source == s.runs[r].source && t.runs[r].open == s.runs[r].open
    ensures Structure(c, t)
  {
    forall q | 0 <= q < |s.runs| && q != r
      ensures StillUncommitted(s, q, t.rows)
    {
      assert RunOk(c, s, q);
    }
    OthersKept(c, s, t, r);
    forall k | 0 <= k < |t.copies|
      ensures CopyOk(c, t, k)
    {
      assert CopyOk(c, s, k);
    }
  }

  // ---- Each step keeps the structure.

  lemma PublishKeeps(c: Config, s: State, step: Step)
    requires Inv(c, s) && step.Publish? && Enabled(c, s, step)
    ensures Structure(c, Apply(c, s, step))
  {
    var t := Apply(c, s, step);
    forall j | 0 <= j < |t.jobs|
      ensures JobOk(c, t, j)
    {
      if j < |s.jobs| {
        assert JobOk(c, s, j);
        if s.jobs[j].confirmed {
          var i :| 0 <= i < |s.copies| && s.copies[i].job == j;
          assert t.copies[i].job == j;
        }
      } else if step.confirmed {
        assert t.copies[|s.copies|].job == j;
      }
    }
    CopiesOnlyGrew(c, s, t);
    forall r | 0 <= r < |t.runs|
      ensures RunOk(c, t, r)
    {
      assert RunOk(c, s, r);
    }
    if step.arrives {
      assert CopyOk(c, t, |s.copies|);
    }
  }

  /** New jobs, copies and runs leave the old copies as they were. */
  lemma CopiesOnlyGrew(c: Config, s: State, t: State)
    requires Structure(c, s) && s.jobs <= t.jobs && s.runs <= t.runs && s.copies <= t.copies
    requires s.rows <= t.rows && s.broker.queues.Keys <= t.broker.queues.Keys
    ensures forall i :: 0 <= i < |s.copies| ==> CopyOk(c, t, i)
  {
    forall i | 0 <= i < |s.copies|
      ensures CopyOk(c, t, i)
    {
      assert CopyOk(c, s, i);
      if s.copies[i].at.Gone? && LaterCopy(s, i) {
        var m :| i < m < |s.copies| && s.copies[m].job == s.copies[i].job;
        assert t.copies[m].job == t.copies[i].job;
      }
    }
  }

  lemma StartFallbackKeeps(c: Config, s: State, step: Step)
    requires Inv(c, s) && step.StartFallback? && Enabled(c, s, step)
    ensures Structure(c, Apply(c, s, step))
  {
    var t := Apply(c, s, step);
    CopiesOnlyGrew(c, s, t);
    forall j | 0 <= j < |t.jobs|
      ensures JobOk(c, t, j)
    {
      assert JobOk(c, s, j);
    }
    forall r | 0 <= r < |t.runs|
      ensures RunOk(c, t, r)
    {
      if r < |s.runs| {
        assert RunOk(c, s, r);
      }
    }
  }

  lemma DeliverKeeps(c: Config, s: State, step: Step)
    requires Inv(c, s) && step.Deliver? && Enabled(c, s, step)
    ensures Structure(c, Apply(c, s, step))
  {
    var t := Apply(c, s, step);
    var i := step.copy;
    forall j | 0 <= j < |t.jobs|
      ensures JobOk(c, t, j)
    {
      assert JobOk(c, s, j);
      if s.jobs[j].confirmed {
        var k :| 0 <= k < |s.copies| && s.copies[k].job == j;
        assert t.copies[k].job == j;
      }
    }
    forall k | 0 <= k < |t.copies|
      ensures CopyOk(c, t, k)
    {
      assert CopyOk(c, s, k);
      if s.copies[k].at.Gone? && LaterCopy(s, k) {
        var m :| k < m < |s.copies| && s.copies[m].job == s.copies[k].job;
        assert t.copies[m].job == t.copies[k].job;
      }
    }
    forall r | 0 <= r < |t.runs|
      ensures RunOk(c, t, r)
    {
      if r < |s.runs| {
        assert RunOk(c, s, r);
      }
    }
  }

  lemma HandlerStepKeeps(c: Config, s: State, step: Step)
    requires Inv(c, s) && Enabled(c, s, step)
    requires step.InsertRow? || step.Work? || step.Fail? || step.Finish?
    ensures Structure(c, Apply(c, s, step))
  {
    var t := Apply(c, s, step);
    assert RunOk(c, s, step.run);
    assert RunOk(c, t, step.run);
    PhaseKeeps(c, s, t, step.run);
  }

  lemma CommitKeeps(c: Config, s: State, step: Step)
    requires Inv(c, s) && step.CommitRow? && Enabled(c, s, step)
    ensures Structure(c, Apply(c, s, step))
  {
    var t := Apply(c, s, step);
    var r := step.run;
    assert RunOk(c, s, r);
    forall q | 0 <= q < |s.runs| && q != r
      ensures StillUncommitted(s, q, t.rows)
    {
      assert RunOk(c, s, q);
    }
    OthersKept(c, s, t, r);
    assert RunOk(c, t, r);
    forall k | 0 <= k < |t.copies|
      ensures CopyOk(c, t, k)
    {
      assert CopyOk(c, s, k);
    }
  }

  lemma NackKeeps(c: Config, s: State, r: nat)
    requires Structure(c, s) && Exists(s, r) && s.runs[r].source.Delivery? && !s.runs[r].phase.Over?
    ensures Structure(c, Nack(s, r))
  {
    RefusedPlace(c, s, r);
    SettleKeeps(c, s, r, InQueue(ParkingQueue(c.app)));
  }

  lemma AckSuccessKeeps(c: Config, s: State, step: Step)
    requires Inv(c, s) && Enabled(c, s, step) && step.AckSuccess?
    ensures Structure(c, Apply(c, s, step))
  {
    var t := Apply(c, s, step);
    var r := step.run;
    assert RunOk(c, s, r);
    if !step.throws {
      SettleKeeps(c, s, r, Gone);
    } else {
      assert RunOk(c, t, r);
      PhaseKeeps(c, s, t, r);
    }
  }

  lemma AckRetryKeeps(c: Config, s: State, step: Step)
    requires Inv(c, s) && Enabled(c, s, step) && step.AckRetry?
    ensures Structure(c, Apply(c, s, step))
  {
    assert RunOk(c, s, step.run);
    assert LaterCopy(s, s.runs[step.run].source.copy);
    SettleKeeps(c, s, step.run, Gone);
  }

  lemma OnFailureKeeps(c: Config, s: State, step: Step)
    requires Inv(c, s) && Enabled(c, s, step) && step.OnFailure?
    ensures Structure(c, Apply(c, s, step))
  {
    var t := Apply(c, s, step);
    var r := step.run;
    assert RunOk(c, s, r);
    if t.runs[r].phase.Over? {
      NackKeeps(c, s, r);
    } else {
      assert RunOk(c, t, r);
      PhaseKeeps(c, s, t, r);
    }
  }

  lemma TierReplyKeeps(c: Config, s: State, step: Step)
    requires Inv(c, s) && step.TierReply? && Enabled(c, s, step)
    ensures Structure(c, Apply(c, s, step))
  {
    var t := Apply(c, s, step);
    var r := step.run;
    assert RunOk(c, s, r);
    if step.ok {
      assert JobOk(c, s, s.runs[r].job);
      TierKeepsDeclared(c.app, s.broker, JobOf(s, r).queue, s.runs[r].phase.delayMs);
      assert RunOk(c, t, r);
      PhaseKeeps(c, s, t, r);
    } else {
      NackKeeps(c, s, r);
    }
  }

  lemma PublishReplyKeeps(c: Config, s: State, step: Step)
    requires Inv(c, s) && step.PublishReply? && Enabled(c, s, step)
    ensures Structure(c, Apply(c, s, step))
  {
    var r := step.run;
    assert RunOk(c, s, r);
    var copy := Copy(s.runs[r].job, Some(Decimal(s.runs[r].phase.next)), s.runs[r].phase.delayMs,
                     InQueue(RetryQueueFor(JobOf(s, r).queue, s.runs[r].phase.delayMs)));
    var u := if step.arrives then s.(copies := s.copies + [copy]) else s;
    CopiesOnlyGrew(c, s, u);
    if step.arrives {
      assert RetryPlace(u, JobOf(s, r).queue, copy.at.name);
      assert CopyOk(c, u, |s.copies|);
    }
    forall q | 0 <= q < |u.runs|
      ensures RunOk(c, u, q)
    {
      assert RunOk(c, s, q);
    }
    forall j | 0 <= j < |u.jobs|
      ensures JobOk(c, u, j)
    {
      assert JobOk(c, s, j);
      if s.jobs[j].confirmed {
        var i :| 0 <= i < |s.copies| && s.copies[i].job == j;
        assert u.copies[i].job == j;
      }
    }
    assert Structure(c, u);
    if step.confirmed {
      var t := To(u, r, Republished(|s.copies|));
      assert RunOk(c, t, r);
      PhaseKeeps(c, u, t, r);
    } else {
      NackKeeps(c, u, r);
    }
  }

  lemma ExpireKeeps(c: Config, s: State, step: Step)
    requires Inv(c, s) && step.Expire? && Enabled(c, s, step)
    ensures Structure(c, Apply(c, s, step))
  {
    var t := Apply(c, s, step);
    var i := step.copy;
    assert CopyOk(c, s, i);
    var job := s.jobs[s.copies[i].job];
    assert JobOk(c, s, s.copies[i].job);
    var name := s.copies[i].at.name;
    assert RetryPlace(s, job.queue, name);
    var d: nat :| name == RetryQueueFor(job.queue, d) && name in s.broker.queues;
    ExpiredGoesHome(c.app, s.broker, job.queue, d, name);
    forall j | 0 <= j < |t.jobs|
      ensures JobOk(c, t, j)
    {
      assert JobOk(c, s, j);
      if s.jobs[j].confirmed {
        var k :| 0 <= k < |s.copies| && s.copies[k].job == j;
        assert t.copies[k].job == j;
      }
    }
    forall k | 0 <= k < |t.copies|
      ensures CopyOk(c, t, k)
    {
      assert CopyOk(c, s, k);
      if s.copies[k].at.Gone? && LaterCopy(s, k) {
        var m :| k < m < |s.copies| && s.copies[m].job == s.copies[k].job;
        assert t.copies[m].job == t.copies[k].job;
      }
    }
    forall r | 0 <= r < |t.runs|
      ensures RunOk(c, t, r)
    {
      assert RunOk(c, s, r);
    }
  }

  lemma LoseChannelKeeps(c: Config, s: State, r: nat)
    requires Structure(c, s)
    ensures Structure(c, LoseChannel(s, r))
    ensures LoseChannel(s, r).rows == s.rows && |LoseChannel(s, r).runs| == |s.runs|
    ensures r < |s.runs| && s.runs[r].source.Delivery? ==> !LoseChannel(s, r).runs[r].open
  {
    var t := LoseChannel(s, r);
    if r < |s.runs| {
      assert RunOk(c, s, r);
    }
    if t != s {
      var i := s.runs[r].source.copy;
      assert CopyOk(c, s, i);
      forall q | 0 <= q < |s.runs| && q != r
        ensures StillUncommitted(s, q, t.rows)
      {
        assert RunOk(c, s, q);
      }
      OthersKept(c, s, t, r);
      assert RunOk(c, t, r);
      forall k | 0 <= k < |t.copies|
        ensures CopyOk(c, t, k)
      {
        assert CopyOk(c, s, k);
      }
    }
  }

  lemma {:induction false} LoseChannelsKeeps(c: Config, s: State, channel: nat, n: nat)
    requires Structure(c, s)
    ensures Structure(c, LoseChannels(s, channel, n))
  {
    if n > 0 {
      LoseChannelsKeeps(c, s, channel, n - 1);
      LoseChannelKeeps(c, LoseChannels(s, channel, n - 1), n - 1);
    }
  }

  lemma KillKeeps(c: Config, s: State, r: nat)
    requires Structure(c, s) && r < |s.runs| && (s.runs[r].source.Delivery? ==> !s.runs[r].open)
    ensures Structure(c, To(s, r, Over))
  {
    var t := To(s, r, Over);
    assert RunOk(c, s, r);
    forall q | 0 <= q < |s.runs| && q != r
      ensures StillUncommitted(s, q, t.rows)
    {
      assert RunOk(c, s, q);
    }
    OthersKept(c, s, t, r);
    assert RunOk(c, t, r);
    forall k | 0 <= k < |t.copies|
      ensures CopyOk(c, t, k)
    {
      assert CopyOk(c, s, k);
    }
  }

  lemma {:induction false} LoseProcessKeeps(c: Config, s: State, process: nat, n: nat)
    requires Structure(c, s)
    ensures Structure(c, LoseProcess(s, process, n))
  {
    if n > 0 {
      LoseProcessKeeps(c, s, process, n - 1);
      var t := LoseProcess(s, process, n - 1);
      LoseChannelKeeps(c, t, n - 1);
      if n - 1 < |t.runs| {
        KillKeeps(c, LoseChannel(t, n - 1), n - 1);
      }
    }
  }

  lemma LoseChannelTouches(c: Config, s: State, k: nat, r: nat)
    requires Structure(c, s) && r < |s.runs|
    ensures var t := LoseChannel(s, k);
            |t.runs| == |s.runs| && t.runs[r] == s.runs[r].(open := t.runs[r].open, lost := t.runs[r].lost)
            && t.runs[r].open == (s.runs[r].open && !(r == k && s.runs[r].source.Delivery?))
  {
    assert RunOk(c, s, r);
  }

  lemma {:induction false} ChannelsLost(c: Config, s: State, channel: nat, n: nat, r: nat)
    requires Structure(c, s) && r < |s.runs|
    ensures var t := LoseChannels(s, channel, n);
            |t.runs| == |s.runs| && t.runs[r] == s.runs[r].(open := t.runs[r].open, lost := t.runs[r].lost)
            && t.runs[r].open == (s.runs[r].open && !(r < n && s.runs[r].source.Delivery? && s.runs[r].source.channel == channel))
  {
    if n > 0 {
      ChannelsLost(c, s, channel, n - 1, r);
      LoseChannelsKeeps(c, s, channel, n - 1);
      LoseChannelTouches(c, LoseChannels(s, channel, n - 1), n - 1, r);
    }
  }

  lemma {:induction false} ProcessLost(c: Config, s: State, process: nat, n: nat, r: nat)
    requires Structure(c, s) && r < |s.runs|
    ensures var t := LoseProcess(s, process, n);
            |t.runs| == |s.runs| && t.runs[r].process == s.runs[r].process && t.runs[r].source == s.runs[r].source
            && if r < n && s.runs[r].process == process
               then t.runs[r].phase == Over && (s.runs[r].source.Delivery? ==> !t.runs[r].open)
               else t.runs[r] == s.runs[r]
  {
    if n > 0 {
      ProcessLost(c, s, process, n - 1, r);
      LoseProcessKeeps(c, s, process, n - 1);
      LoseChannelTouches(c, LoseProcess(s, process, n - 1), n - 1, r);
    }
  }

  /** A lost channel ends no handler and no other channel; a crash ends its process's handlers, and no others. */
  lemma LossIsLocal(c: Config, s: State, step: Step, r: nat)
    requires Inv(c, s) && r < |s.runs| && (step.CloseChannel? || step.Crash?)
    ensures var t := Apply(c, s, step);
            |t.runs| == |s.runs|
            && match step
               case CloseChannel(channel) =>
                 && t.runs[r].phase == s.runs[r].phase
                 && t.runs[r].open == (s.runs[r].open && !(s.runs[r].source.Delivery? && s.runs[r].source.channel == channel))
               case Crash(process) =>
                 && (s.runs[r].process == process ==> t.runs[r].phase == Over && (s.runs[r].source.Delivery? ==> !t.runs[r].open))
                 && (s.runs[r].process != process ==> t.runs[r] == s.runs[r])
  {
    match step
    case CloseChannel(channel) => ChannelsLost(c, s, channel, |s.runs|, r);
    case Crash(process) => ProcessLost(c, s, process, |s.runs|, r);
  }

  lemma SubjectKeeps(c: Config, s: State, step: Step)
    requires Inv(c, s) && step.SubjectBecomes? && Enabled(c, s, step)
    ensures Structure(c, Apply(c, s, step))
  {
    var t := Apply(c, s, step);
    CopiesOnlyGrew(c, s, t);
    forall j | 0 <= j < |t.jobs|
      ensures JobOk(c, t, j)
    {
      assert JobOk(c, s, j);
    }
    forall r | 0 <= r < |t.runs|
      ensures RunOk(c, t, r)
    {
      assert RunOk(c, s, r);
    }
  }

  lemma StructureStep(c: Config, s: State, step: Step)
    requires Inv(c, s) && Enabled(c, s, step)
    ensures Structure(c, Apply(c, s, step))
  {
    match step
    case Publish(_, _, _, _, _) => PublishKeeps(c, s, step);
    case StartFallback(_, _) => StartFallbackKeeps(c, s, step);
    case Deliver(_, _, _) => DeliverKeeps(c, s, step);
    case InsertRow(_) => HandlerStepKeeps(c, s, step);
    case Work(_) => HandlerStepKeeps(c, s, step);
    case Fail(_, _) => HandlerStepKeeps(c, s, step);
    case Finish(_) => HandlerStepKeeps(c, s, step);
    case CommitRow(_, _) => CommitKeeps(c, s, step);
    case AckSuccess(_, _) => AckSuccessKeeps(c, s, step);
    case OnFailure(_) => OnFailureKeeps(c, s, step);
    case AckRetry(_) => AckRetryKeeps(c, s, step);
    case TierReply(_, _) => TierReplyKeeps(c, s, step);
    case PublishReply(_, _, _) => PublishReplyKeeps(c, s, step);
    case Expire(_) => ExpireKeeps(c, s, step);
    case SubjectBecomes(_, _) => SubjectKeeps(c, s, step);
    case CloseChannel(channel) => LoseChannelsKeeps(c, s, channel, |s.runs|);
    case Crash(process) => LoseProcessKeeps(c, s, process, |s.runs|);
  }

  // ---- Locks and commits.

  /** No transaction starts or commits between `s` and `t`. */
  ghost predicate Quiet(s: State, t: State) {
    && s.rows == t.rows && s.commits == t.commits && s.sent <= t.sent && s.jobs <= t.jobs
    && |s.runs| <= |t.runs|
    && (forall r :: 0 <= r < |t.runs| && t.runs[r].phase.InTransaction? ==>
          r < |s.runs| && s.runs[r].phase.InTransaction? && t.runs[r].job == s.runs[r].job)
  }

  lemma QuietKeeps(c: Config, s: State, t: State)
    requires Inv(c, s) && Quiet(s, t)
    ensures Locks(t) && Commits(t)
  {
    forall r | 0 <= r < |t.runs| && t.runs[r].phase.InTransaction?
      ensures Exists(s, r) && t.jobs[t.runs[r].job] == JobOf(s, r)
    {
      assert RunOk(c, s, r);
    }
    forall n | 0 <= n < |t.commits|
      ensures CommitOk(t, n)
    {
      assert CommitOk(s, n);
    }
  }

  lemma {:induction false} LoseChannelsQuiet(s: State, channel: nat, n: nat)
    ensures Quiet(s, LoseChannels(s, channel, n)) && |LoseChannels(s, channel, n).runs| == |s.runs|
  {
    if n > 0 {
      LoseChannelsQuiet(s, channel, n - 1);
    }
  }

  lemma {:induction false} LoseProcessQuiet(s: State, process: nat, n: nat)
    ensures Quiet(s, LoseProcess(s, process, n)) && |LoseProcess(s, process, n).runs| == |s.runs|
  {
    if n > 0 {
      LoseProcessQuiet(s, process, n - 1);
    }
  }

  lemma InsertLocks(c: Config, s: State, step: Step)
    requires Inv(c, s) && step.InsertRow? && Enabled(c, s, step)
    ensures Locks(Apply(c, s, step)) && Commits(Apply(c, s, step))
  {
    var t := Apply(c, s, step);
    var r := step.run;
    forall q | 0 <= q < |s.runs| && s.runs[q].phase.InTransaction?
      ensures Exists(s, q) && JobOf(s, q).messageId.Some? && KeyOf(JobOf(s, q)) != KeyOf(JobOf(s, r))
    {
      assert RunOk(c, s, q);
      assert !Holds(s, q, KeyOf(JobOf(s, r)));
    }
    forall n | 0 <= n < |t.commits|
      ensures CommitOk(t, n)
    {
      assert CommitOk(s, n);
    }
  }

  lemma CommitLocks(c: Config, s: State, step: Step)
    requires Inv(c, s) && step.CommitRow? && Enabled(c, s, step)
    ensures Locks(Apply(c, s, step))
  {
    assert RunOk(c, s, step.run);
  }

  lemma CommitCommits(c: Config, s: State, step: Step)
    requires Inv(c, s) && step.CommitRow? && Enabled(c, s, step)
    ensures Commits(Apply(c, s, step))
  {
    var t := Apply(c, s, step);
    assert RunOk(c, s, step.run);
    var key := KeyOf(JobOf(s, step.run));
    forall n | 0 <= n < |s.commits|
      ensures CommitOk(t, n) && t.commits[n].key != key
    {
      assert CommitOk(s, n);
    }
    forall k | k in t.rows
      ensures exists n :: 0 <= n < |t.commits| && t.commits[n].key == k
    {
      if k == key {
        assert t.commits[|s.commits|].key == k;
      } else {
        var n :| 0 <= n < |s.commits| && s.commits[n].key == k;
        assert t.commits[n].key == k;
      }
    }
    assert CommitOk(t, |s.commits|);
  }

  lemma ArrivalsQuiet(c: Config, s: State, step: Step)
    requires Inv(c, s) && Enabled(c, s, step)
    requires step.Publish? || step.StartFallback? || step.Deliver? || step.Expire?
    ensures Quiet(s, Apply(c, s, step))
  {
  }

  lemma HandlerQuiet(c: Config, s: State, step: Step)
    requires Inv(c, s) && Enabled(c, s, step)
    requires step.Work? || step.Fail? || step.Finish? || step.AckSuccess? || step.OnFailure? || step.SubjectBecomes?
    ensures Quiet(s, Apply(c, s, step))
  {
  }

  lemma RetryQuiet(c: Config, s: State, step: Step)
    requires Inv(c, s) && Enabled(c, s, step)
    requires step.TierReply? || step.PublishReply? || step.AckRetry?
    ensures Quiet(s, Apply(c, s, step))
  {
  }

  lemma QuietStep(c: Config, s: State, step: Step)
    requires Inv(c, s) && Enabled(c, s, step) && !step.InsertRow? && !step.CommitRow?
    ensures Quiet(s, Apply(c, s, step))
  {
    if step.Publish? || step.StartFallback? || step.Deliver? || step.Expire? {
      ArrivalsQuiet(c, s, step);
    } else if step.TierReply? || step.PublishReply? || step.AckRetry? {
      RetryQuiet(c, s, step);
    } else if step.CloseChannel? {
      LoseChannelsQuiet(s, step.channel, |s.runs|);
    } else if step.Crash? {
      LoseProcessQuiet(s, step.process, |s.runs|);
    } else {
      HandlerQuiet(c, s, step);
    }
  }

  lemma InvStep(c: Config, s: State, step: Step)
    requires Inv(c, s) && Enabled(c, s, step)
    ensures Inv(c, Apply(c, s, step))
  {
    StructureStep(c, s, step);
    if step.InsertRow? {
      InsertLocks(c, s, step);
    } else if step.CommitRow? {
      CommitLocks(c, s, step);
      CommitCommits(c, s, step);
    } else {
      QuietStep(c, s, step);
      QuietKeeps(c, s, Apply(c, s, step));
    }
  }

  lemma {:induction false} InvOverRuns(c: Config, s: State, steps: seq<Step>, t: State)
    requires Inv(c, s) && Follows(c, s, steps, t)
    ensures Inv(c, t)
    decreases |steps|
  {
    if steps != [] {
      InvStep(c, s, steps[0]);
      InvOverRuns(c, Apply(c, s, steps[0]), steps[1..], t);
    }
  }

  lemma InvAlways(c: Config, s: State, steps: seq<Step>, t: State)
    requires Init(c, s) && Follows(c, s, steps, t)
    ensures Inv(c, t)
  {
    InvOverRuns(c, s, steps, t);
  }

  // ---- Main results.

  /** A copy the broker still has: waiting, delivered and unsettled, in a retry tier, or parked. */
  ghost predicate OnBroker(c: Config, s: State, j: nat)
    requires j < |s.jobs|
  {
    exists i :: 0 <= i < |s.copies| && s.copies[i].job == j && AtHome(c, s, i, s.jobs[j].queue)
  }

  ghost predicate AtHome(c: Config, s: State, i: nat, queue: string)
    requires i < |s.copies|
  {
    match s.copies[i].at
    case InQueue(name) => name == queue || name == ParkingQueue(c.app) || RetryPlace(s, queue, name)
    case Unacked(r) => r < |s.runs| && s.runs[r].open && !s.runs[r].phase.Over?
    case Gone => false
  }

  lemma {:induction false} LastCopyStands(c: Config, s: State, i: nat)
    requires Inv(c, s) && i < |s.copies|
    ensures s.copies[i].job < |s.jobs|
    ensures OnBroker(c, s, s.copies[i].job) || Recorded(s, s.jobs[s.copies[i].job])
    decreases |s.copies| - i
  {
    assert CopyOk(c, s, i);
    if s.copies[i].at.Gone? && LaterCopy(s, i) {
      var m :| i < m < |s.copies| && s.copies[m].job == s.copies[i].job;
      LastCopyStands(c, s, m);
    } else if !s.copies[i].at.Gone? {
      assert AtHome(c, s, i, s.jobs[s.copies[i].job].queue);
    }
  }

  /**
   * No job is lost: whatever closes or crashes between any two steps, a job whose publish was
   * confirmed is on the broker, or its dedup row is committed.
   */
  lemma NoJobIsLost(c: Config, s: State, steps: seq<Step>, t: State, j: nat)
    requires Init(c, s) && Follows(c, s, steps, t) && j < |t.jobs| && t.jobs[j].confirmed
    ensures OnBroker(c, t, j) || Recorded(t, t.jobs[j])
  {
    InvAlways(c, s, steps, t);
    assert JobOk(c, t, j);
    var i :| 0 <= i < |t.copies| && t.copies[i].job == j;
    LastCopyStands(c, t, i);
  }

  /** Over every interleaving, one key commits at most once, and its work was done or nothing was owed. */
  lemma CommittedAtMostOnce(c: Config, s: State, steps: seq<Step>, t: State, m: nat, n: nat)
    requires Init(c, s) && Follows(c, s, steps, t) && m < |t.commits| && n < |t.commits|
    ensures t.commits[m].key == t.commits[n].key ==> m == n
    ensures t.commits[n].key in t.rows
    ensures t.commits[n].effect.Read? && (t.commits[n].effect.owed ==> t.commits[n].run in t.sent)
  {
    InvAlways(c, s, steps, t);
    assert CommitOk(t, n);
    if m < n {
      assert t.commits[m].key != t.commits[n].key;
    } else if n < m {
      assert t.commits[n].key != t.commits[m].key;
    }
  }

  /** A handler told "duplicate", or about to be acknowledged, has its row committed. */
  lemma DuplicateMeansCommitted(c: Config, s: State, steps: seq<Step>, t: State, r: nat)
    requires Init(c, s) && Follows(c, s, steps, t) && r < |t.runs|
    requires t.runs[r].phase.Finishing? || t.runs[r].phase.Resolved?
    ensures t.runs[r].job < |t.jobs| && t.jobs[t.runs[r].job].messageId.Some?
    ensures exists n :: 0 <= n < |t.commits| && t.commits[n].key == KeyOf(t.jobs[t.runs[r].job])
  {
    InvAlways(c, s, steps, t);
    assert RunOk(c, t, r);
  }

  /** When no two jobs share an id and queue, a committed row means that very job's work ran. */
  lemma RecordedByItsOwnJob(c: Config, s: State, steps: seq<Step>, t: State, j: nat)
    requires Init(c, s) && Follows(c, s, steps, t) && j < |t.jobs| && Recorded(t, t.jobs[j])
    requires forall k :: 0 <= k < |t.jobs| && k != j ==> t.jobs[k].messageId != t.jobs[j].messageId || t.jobs[k].queue != t.jobs[j].queue
    ensures exists n :: 0 <= n < |t.commits| && t.commits[n].job == j && t.commits[n].key == KeyOf(t.jobs[j])
  {
    InvAlways(c, s, steps, t);
    var n :| 0 <= n < |t.commits| && t.commits[n].key == KeyOf(t.jobs[j]);
    assert CommitOk(t, n);
    var k := t.commits[n].job;
    assert KeyOf(t.jobs[k]) == KeyOf(t.jobs[j]);
    assert k == j;
  }
}
