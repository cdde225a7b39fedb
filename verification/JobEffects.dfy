/** What a committed job did: its email went out exactly when its subject owed one. */
module JobEffects {
  import opened Common
  import opened Topology
  import opened JobProtocol
  import opened JobInvariants

  /** The run has not done its work yet. */
  predicate Unworked(phase: Phase) {
    phase.Running? || phase == InTransaction(Pending)
  }

  /** A run that has not worked has sent nothing; one in its transaction has sent exactly what it found owed. */
  ghost predicate SentOk(c: Config, s: State, r: nat) {
    && r < |s.runs|
    && (Unworked(s.runs[r].phase) ==> r !in s.sent)
    && (s.runs[r].phase.InTransaction? && s.runs[r].phase.effect.Read? ==>
          var effect := s.runs[r].phase.effect;
          && s.runs[r].job < |s.jobs| && (r in s.sent <==> effect.owed)
          && effect.owed == Owes(c.app, s.jobs[s.runs[r].job].queue, effect.subject))
  }

  ghost predicate CommittedOk(c: Config, s: State, n: nat)
    requires n < |s.commits|
  {
    var commit := s.commits[n];
    && commit.run < |s.runs| && !Unworked(s.runs[commit.run].phase) && !s.runs[commit.run].phase.InTransaction?
    && commit.job < |s.jobs| && commit.effect.Read?
    && commit.effect.owed == Owes(c.app, s.jobs[commit.job].queue, commit.effect.subject)
    && (commit.run in s.sent <==> commit.effect.owed)
  }

  ghost predicate Effects(c: Config, s: State) {
    && (forall r :: r in s.sent ==> r < |s.runs|)
    && (forall r :: 0 <= r < |s.runs| ==> SentOk(c, s, r))
    && (forall n :: 0 <= n < |s.commits| ==> CommittedOk(c, s, n))
  }

  predicate Kept(run: Run, after: Run) {
    after.job == run.job && (after.phase == run.phase || (!after.phase.Running? && !after.phase.InTransaction?))
  }

  /** Nothing is sent or committed, and no run goes back to its work. */
  ghost predicate Idle(s: State, t: State) {
    && s.sent == t.sent && s.commits == t.commits && s.jobs <= t.jobs && |s.runs| <= |t.runs|
    && (forall r :: 0 <= r < |s.runs| ==> Kept(s.runs[r], t.runs[r]))
    && (forall r :: |s.runs| <= r < |t.runs| ==> t.runs[r].phase.Running?)
  }

  lemma IdleKeeps(c: Config, s: State, t: State)
    requires Effects(c, s) && Idle(s, t)
    ensures Effects(c, t)
  {
    forall r | 0 <= r < |t.runs|
      ensures SentOk(c, t, r)
    {
      assert r < |s.runs| ==> SentOk(c, s, r);
    }
    forall n | 0 <= n < |t.commits|
      ensures CommittedOk(c, t, n)
    {
      assert CommittedOk(c, s, n);
    }
  }

  lemma {:induction false} LoseChannelsIdle(s: State, channel: nat, n: nat)
    ensures Idle(s, LoseChannels(s, channel, n)) && |LoseChannels(s, channel, n).runs| == |s.runs|
  {
    if n > 0 {
      LoseChannelsIdle(s, channel, n - 1);
    }
  }

  lemma {:induction false} LoseProcessIdle(s: State, process: nat, n: nat)
    ensures Idle(s, LoseProcess(s, process, n)) && |LoseProcess(s, process, n).runs| == |s.runs|
  {
    if n > 0 {
      LoseProcessIdle(s, process, n - 1);
    }
  }

  lemma ArrivalsIdle(c: Config, s: State, step: Step)
    requires Inv(c, s) && Enabled(c, s, step)
    requires step.Publish? || step.StartFallback? || step.Deliver? || step.Expire? || step.SubjectBecomes?
    ensures Idle(s, Apply(c, s, step))
  {
  }

  lemma HandlerIdle(c: Config, s: State, step: Step)
    requires Inv(c, s) && Enabled(c, s, step)
    requires step.Fail? || step.Finish? || step.AckSuccess? || step.OnFailure?
    ensures Idle(s, Apply(c, s, step))
  {
  }

  lemma RetryIdle(c: Config, s: State, step: Step)
    requires Inv(c, s) && Enabled(c, s, step)
    requires step.TierReply? || step.PublishReply? || step.AckRetry?
    ensures Idle(s, Apply(c, s, step))
  {
  }

  lemma IdleStep(c: Config, s: State, step: Step)
    requires Inv(c, s) && Enabled(c, s, step) && !step.InsertRow? && !step.Work? && !step.CommitRow?
    ensures Idle(s, Apply(c, s, step))
  {
    if step.CloseChannel? {
      LoseChannelsIdle(s, step.channel, |s.runs|);
    } else if step.Crash? {
      LoseProcessIdle(s, step.process, |s.runs|);
    } else if step.TierReply? || step.PublishReply? || step.AckRetry? {
      RetryIdle(c, s, step);
    } else if step.Fail? || step.Finish? || step.AckSuccess? || step.OnFailure? {
      HandlerIdle(c, s, step);
    } else {
      ArrivalsIdle(c, s, step);
    }
  }

  lemma TransactionStep(c: Config, s: State, step: Step)
    requires Inv(c, s) && Effects(c, s) && Enabled(c, s, step) && (step.InsertRow? || step.Work?)
    ensures Effects(c, Apply(c, s, step))
  {
    var t := Apply(c, s, step);
    assert SentOk(c, s, step.run);
    forall r | 0 <= r < |t.runs|
      ensures SentOk(c, t, r)
    {
      assert SentOk(c, s, r);
    }
    forall n | 0 <= n < |t.commits|
      ensures CommittedOk(c, t, n)
    {
      assert CommittedOk(c, s, n);
    }
  }

  lemma CommitStep(c: Config, s: State, step: Step)
    requires Inv(c, s) && Effects(c, s) && Enabled(c, s, step) && step.CommitRow?
    ensures Effects(c, Apply(c, s, step))
  {
    var t := Apply(c, s, step);
    assert SentOk(c, s, step.run);
    forall r | 0 <= r < |t.runs|
      ensures SentOk(c, t, r)
    {
      assert SentOk(c, s, r);
    }
    forall n | 0 <= n < |t.commits|
      ensures CommittedOk(c, t, n)
    {
      assert n < |s.commits| ==> CommittedOk(c, s, n);
    }
  }

  lemma EffectsStep(c: Config, s: State, step: Step)
    requires Inv(c, s) && Effects(c, s) && Enabled(c, s, step)
    ensures Effects(c, Apply(c, s, step))
  {
    if step.InsertRow? || step.Work? {
      TransactionStep(c, s, step);
    } else if step.CommitRow? {
      CommitStep(c, s, step);
    } else {
      IdleStep(c, s, step);
      IdleKeeps(c, s, Apply(c, s, step));
    }
  }

  lemma {:induction false} EffectsOverRuns(c: Config, s: State, steps: seq<Step>, t: State)
    requires Inv(c, s) && Effects(c, s) && Follows(c, s, steps, t)
    ensures Effects(c, t)
    decreases |steps|
  {
    if steps != [] {
      InvStep(c, s, steps[0]);
      EffectsStep(c, s, steps[0]);
      EffectsOverRuns(c, Apply(c, s, steps[0]), steps[1..], t);
    }
  }

  /**
   * A committed job sent its email exactly when its subject, as its own transaction read it, owed one:
   * a found and unverified user, a found user, or a found invite neither accepted nor expired whose
   * organization is found.
   */
  lemma SentExactlyWhenOwed(c: Config, s: State, steps: seq<Step>, t: State, n: nat)
    requires Init(c, s) && Follows(c, s, steps, t) && n < |t.commits|
    ensures var commit := t.commits[n];
            commit.job < |t.jobs| && commit.effect.Read?
            && (commit.run in t.sent <==> Owes(c.app, t.jobs[commit.job].queue, commit.effect.subject))
  {
    EffectsOverRuns(c, s, steps, t);
    assert CommittedOk(c, t, n);
  }
}
