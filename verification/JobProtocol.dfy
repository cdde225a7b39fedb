/**
 * The broker, the workers' handler runs, the in-process fallbacks and the dedup table, as one
 * transition system. Each step is the code between two awaits, or something the environment
 * does: a channel closes, a process dies, a wait expires.
 */
module JobProtocol {
  import opened Common
  import opened Text
  import opened RetryPolicy
  import opened Topology

  datatype Config = Config(app: string, maxRetries: nat, baseDelayMs: nat)

  /** The dedup table's primary key. */
  datatype Key = Key(messageId: string, queue: string)

  /** One published message; every retry copy carries its id and returns to its queue. */
  datatype Job = Job(queue: string, messageId: Option<string>, confirmed: bool)

  datatype Place = InQueue(name: string) | Unacked(run: nat) | Gone

  /** A copy of a job's message on the broker: its retry header's text, and the wait it was scheduled with. */
  datatype Copy = Copy(job: nat, header: Option<string>, waitMs: nat, at: Place)

  /**
   * What a job's transaction finds of its subject: the user or invite, whether that is verified or
   * accepted already, or expired, and the invite's organization.
   */
  datatype Subject = Subject(found: bool, done: bool, expired: bool, organizationFound: bool)

  const MISSING := Subject(false, false, false, false)

  /** executeInTransaction of the three email jobs; the rows of a dummy-log job are always owed. */
  predicate Owes(app: string, queue: string, x: Subject) {
    if queue == WorkQueue(app, INVITE_KEY) then x.found && !x.done && !x.expired && x.organizationFound
    else if queue == WorkQueue(app, VERIFICATION_KEY) then x.found && !x.done
    else queue == WorkQueue(app, PASSWORD_RESET_KEY) ==> x.found
  }

  datatype Effect = Pending | Read(subject: Subject, owed: bool)

  datatype Outcome = Processed | Duplicate

  datatype Phase =
    | Running                                       // before the dedup insert
    | InTransaction(effect: Effect)                 // the dedup row is inserted, not committed
    | Finishing(outcome: Outcome)                   // runOnce resolved, the handler has not
    | Resolved(outcome: Outcome)                    // the handler resolved, its message not settled
    | Rejected(terminal: bool)                      // onFailure is next
    | DeclaringTier(delayMs: nat, next: nat)
    | Republishing(delayMs: nat, next: nat)
    | Republished(copy: nat)                        // the retry copy is confirmed, the ack is next
    | Over

  datatype Source =
    | Delivery(copy: nat, channel: nat, retryCount: nat)
    | Fallback

  /** `open`: the broker still has this delivery's channel. `lost`: it closed with the delivery unsettled. */
  datatype Run = Run(job: nat, process: nat, source: Source, open: bool, lost: bool, phase: Phase)

  datatype Commit = Commit(key: Key, job: nat, run: nat, effect: Effect)

  /**
   * `sent`: the runs whose email (or rows) the work has produced, committed or not. `subjects`: what
   * the database holds of each job's subject.
   */
  datatype State = State(broker: Broker, jobs: seq<Job>, copies: seq<Copy>, runs: seq<Run>,
                         rows: set<Key>, commits: seq<Commit>, sent: set<nat>, subjects: map<nat, Subject>)

  function SubjectOf(s: State, j: nat): Subject {
    if j in s.subjects then s.subjects[j] else MISSING
  }

  ghost predicate Init(c: Config, s: State) {
    && Declared(c.app, s.broker)
    && s.jobs == [] && s.copies == [] && s.runs == [] && s.rows == {} && s.commits == [] && s.sent == {}
  }

  const MAX_MESSAGE_ID_LENGTH := 36

  predicate Usable(id: Option<string>) {
    id.Some? && 1 <= |id.value| <= MAX_MESSAGE_ID_LENGTH
  }

  function KeyOf(job: Job): Key
    requires job.messageId.Some?
  {
    Key(job.messageId.value, job.queue)
  }

  // ---- Updates the steps are built from.

  predicate Exists(s: State, r: nat) {
    && r < |s.runs| && s.runs[r].job < |s.jobs|
    && (s.runs[r].source.Delivery? ==> s.runs[r].source.copy < |s.copies|)
  }

  function JobOf(s: State, r: nat): Job
    requires Exists(s, r)
  {
    s.jobs[s.runs[r].job]
  }

  function To(s: State, r: nat, phase: Phase): State
    requires r < |s.runs|
  {
    s.(runs := s.runs[r := s.runs[r].(phase := phase)])
  }

  /** The delivery ends, and its message goes to `place` if the broker still has the channel. */
  function Settle(s: State, r: nat, place: Place): State
    requires Exists(s, r) && s.runs[r].source.Delivery?
  {
    var i := s.runs[r].source.copy;
    var over := To(s, r, Over);
    if s.runs[r].open then over.(copies := s.copies[i := s.copies[i].(at := place)]) else over
  }

  /** Where a nack without requeue puts a message of `queue`. */
  function RefusedTo(b: Broker, queue: string): Place {
    if queue !in b.queues then Gone
    else
      var routes := DeadLetterRoutes(b, queue, queue);
      if routes == [] then Gone else InQueue(routes[0])
  }

  function Nack(s: State, r: nat): State
    requires Exists(s, r) && s.runs[r].source.Delivery?
  {
    Settle(s, r, RefusedTo(s.broker, JobOf(s, r).queue))
  }

  /** The broker requeues what the channel had not settled; the handler runs on, unaware. */
  function LoseChannel(s: State, r: nat): State {
    if !Exists(s, r) || s.runs[r].source.Fallback? || !s.runs[r].open then s
    else
      var i := s.runs[r].source.copy;
      var held := s.copies[i].at == Unacked(r);
      s.(runs := s.runs[r := s.runs[r].(open := false, lost := held)],
         copies := if held then s.copies[i := s.copies[i].(at := InQueue(JobOf(s, r).queue))] else s.copies)
  }

  function LoseChannels(s: State, channel: nat, n: nat): State {
    if n == 0 then s
    else
      var t := LoseChannels(s, channel, n - 1);
      if n - 1 < |t.runs| && t.runs[n - 1].source.Delivery? && t.runs[n - 1].source.channel == channel
      then LoseChannel(t, n - 1) else t
  }

  /** A dead process loses its channels, and the database rolls its open transactions back. */
  function LoseProcess(s: State, process: nat, n: nat): State {
    if n == 0 then s
    else
      var t := LoseProcess(s, process, n - 1);
      if n - 1 < |t.runs| && t.runs[n - 1].process == process
      then
        var u := LoseChannel(t, n - 1);
        if n - 1 < |u.runs| then To(u, n - 1, Over) else u
      else t
  }

  // ---- Steps.

  datatype Step =
    | Publish(queue: string, messageId: Option<string>, header: Option<string>, arrives: bool, confirmed: bool)
    | StartFallback(job: nat, process: nat)
    | Deliver(copy: nat, process: nat, channel: nat)
    | InsertRow(run: nat)
    | Work(run: nat)
    | CommitRow(run: nat, seen: bool)
    | Fail(run: nat, terminal: bool)
    | Finish(run: nat)
    | AckSuccess(run: nat, throws: bool)
    | OnFailure(run: nat)
    | TierReply(run: nat, ok: bool)
    | PublishReply(run: nat, arrives: bool, confirmed: bool)
    | AckRetry(run: nat)
    | Expire(copy: nat)
    | SubjectBecomes(job: nat, subject: Subject)
    | CloseChannel(channel: nat)
    | Crash(process: nat)

  predicate InPhase(s: State, r: nat, delivery: bool) {
    Exists(s, r) && s.runs[r].source.Delivery? == delivery
  }

  /** The blocking insert: it waits while another open transaction holds the same key. */
  predicate Blocked(s: State, r: nat)
    requires Exists(s, r) && Usable(JobOf(s, r).messageId)
  {
    exists q :: 0 <= q < |s.runs| && Holds(s, q, KeyOf(JobOf(s, r)))
  }

  predicate Holds(s: State, q: nat, key: Key)
    requires q < |s.runs|
  {
    && Exists(s, q) && s.runs[q].phase.InTransaction?
    && JobOf(s, q).messageId.Some? && KeyOf(JobOf(s, q)) == key
  }

  predicate CanDeliver(c: Config, s: State, i: nat) {
    && i < |s.copies| && s.copies[i].job < |s.jobs|
    && s.copies[i].at == InQueue(s.jobs[s.copies[i].job].queue)
  }

  predicate Enabled(c: Config, s: State, step: Step) {
    match step
    case Publish(queue, _, _, arrives, confirmed) =>
      queue in WorkQueues(c.app) && (confirmed ==> arrives)
    case StartFallback(j, _) =>
      j < |s.jobs| && !s.jobs[j].confirmed && Usable(s.jobs[j].messageId)
    case Deliver(i, _, _) => CanDeliver(c, s, i)
    case InsertRow(r) =>
      Exists(s, r) && s.runs[r].phase.Running? && Usable(JobOf(s, r).messageId) && !Blocked(s, r)
    case Work(r) => Exists(s, r) && s.runs[r].phase == InTransaction(Pending)
    case CommitRow(r, _) =>
      && Exists(s, r) && s.runs[r].phase.InTransaction? && s.runs[r].phase.effect != Pending
      && JobOf(s, r).messageId.Some?
    case Fail(r, _) =>
      Exists(s, r) && (s.runs[r].phase.Running? || s.runs[r].phase.InTransaction? || s.runs[r].phase.Finishing?)
    case Finish(r) => Exists(s, r) && s.runs[r].phase.Finishing?
    case AckSuccess(r, throws) =>
      InPhase(s, r, true) && s.runs[r].phase.Resolved? && (throws ==> !s.runs[r].open)
    case OnFailure(r) => InPhase(s, r, true) && s.runs[r].phase.Rejected?
    case TierReply(r, ok) =>
      && InPhase(s, r, true) && s.runs[r].phase.DeclaringTier?
      && (ok ==> s.runs[r].open && TierOn(s, r).Some?)
    case PublishReply(r, arrives, confirmed) =>
      && InPhase(s, r, true) && s.runs[r].phase.Republishing?
      && (confirmed ==> arrives)
      && (arrives ==> RetryQueueFor(JobOf(s, r).queue, s.runs[r].phase.delayMs) in s.broker.queues)
    case AckRetry(r) => InPhase(s, r, true) && s.runs[r].phase.Republished?
    case Expire(i) =>
      && i < |s.copies| && s.copies[i].at.InQueue? && s.copies[i].at.name in s.broker.queues
      && s.broker.queues[s.copies[i].at.name].ttlMs.Some?
    case SubjectBecomes(_, _) => true
    case CloseChannel(_) => true
    case Crash(_) => true
  }

  function TierOn(s: State, r: nat): Option<Broker>
    requires Exists(s, r) && s.runs[r].phase.DeclaringTier?
  {
    var q, d := JobOf(s, r).queue, s.runs[r].phase.delayMs;
    AssertQueue(s.broker, RetryQueueFor(q, d), RetryArgs(q, d))
  }

  function Apply(c: Config, s: State, step: Step): State
    requires Enabled(c, s, step)
  {
    match step
    case Publish(queue, id, header, arrives, confirmed) =>
      // A publish that rejects may still have arrived; the publisher then runs the job itself.
      s.(jobs := s.jobs + [Job(queue, id, confirmed)],
         copies := if arrives then s.copies + [Copy(|s.jobs|, header, 0, InQueue(queue))] else s.copies)
    case StartFallback(j, p) =>
      s.(runs := s.runs + [Run(j, p, Source.Fallback, false, false, Running)])
    case Deliver(i, p, ch) =>
      var count := ReadRetryCount(s.copies[i].header);
      s.(runs := s.runs + [Run(s.copies[i].job, p, Delivery(i, ch, count), true, false, Running)],
         copies := s.copies[i := s.copies[i].(at := Unacked(|s.runs|))])
    case InsertRow(r) =>
      To(s, r, if KeyOf(JobOf(s, r)) in s.rows then Finishing(Duplicate) else InTransaction(Pending))
    case Work(r) =>
      var subject := SubjectOf(s, s.runs[r].job);
      var owed := Owes(c.app, JobOf(s, r).queue, subject);
      To(s, r, InTransaction(Read(subject, owed))).(sent := if owed then s.sent + {r} else s.sent)
    case CommitRow(r, seen) =>
      // Unseen: the commit reached the database and its reply did not reach the worker.
      var key := KeyOf(JobOf(s, r));
      var t := s.(rows := s.rows + {key},
                  commits := s.commits + [Commit(key, s.runs[r].job, r, s.runs[r].phase.effect)]);
      To(t, r, if seen then Finishing(Processed) else if s.runs[r].source.Delivery? then Rejected(false) else Over)
    case Fail(r, terminal) =>
      To(s, r, if s.runs[r].source.Delivery? then Rejected(terminal) else Over)
    case Finish(r) =>
      To(s, r, if s.runs[r].source.Delivery? then Resolved(s.runs[r].phase.outcome) else Over)
    case AckSuccess(r, throws) =>
      if throws then To(s, r, Rejected(false)) else Settle(s, r, Gone)
    case OnFailure(r) =>
      (match DecideOnFailure(s.runs[r].phase.terminal, s.runs[r].source.retryCount, c.maxRetries, c.baseDelayMs)
       case Park(_) => Nack(s, r)
       case Retry(next, delayMs) =>
         if JobOf(s, r).messageId.None? || JobOf(s, r).messageId.value == "" then Nack(s, r)
         else To(s, r, DeclaringTier(delayMs, next)))
    case TierReply(r, ok) =>
      if ok then To(s, r, Republishing(s.runs[r].phase.delayMs, s.runs[r].phase.next)).(broker := TierOn(s, r).value)
      else Nack(s, r)
    case PublishReply(r, arrives, confirmed) =>
      var copy := Copy(s.runs[r].job, Some(Decimal(s.runs[r].phase.next)), s.runs[r].phase.delayMs,
                       InQueue(RetryQueueFor(JobOf(s, r).queue, s.runs[r].phase.delayMs)));
      var t := if arrives then s.(copies := s.copies + [copy]) else s;
      if confirmed then To(t, r, Republished(|s.copies|)) else Nack(t, r)
    case AckRetry(r) => Settle(s, r, Gone)
    case Expire(i) =>
      var routes := DeadLetterRoutes(s.broker, s.copies[i].at.name, s.copies[i].at.name);
      s.(copies := s.copies[i := s.copies[i].(at := if routes == [] then Gone else InQueue(routes[0]))])
    case SubjectBecomes(j, subject) => s.(subjects := s.subjects[j := subject])
    case CloseChannel(ch) => LoseChannels(s, ch, |s.runs|)
    case Crash(p) => LoseProcess(s, p, |s.runs|)
  }

  /** `t` is reached from `s` by these steps, in this order. */
  ghost predicate Follows(c: Config, s: State, steps: seq<Step>, t: State)
    decreases |steps|
  {
    if steps == [] then s == t
    else Enabled(c, s, steps[0]) && Follows(c, Apply(c, s, steps[0]), steps[1..], t)
  }

  lemma FollowsAppend(c: Config, s: State, xs: seq<Step>, t: State, ys: seq<Step>, u: State)
    requires Follows(c, s, xs, t) && Follows(c, t, ys, u)
    ensures Follows(c, s, xs + ys, u)
    decreases |xs|
  {
    if xs == [] {
      assert xs + ys == ys;
    } else {
      FollowsAppend(c, Apply(c, s, xs[0]), xs[1..], t, ys, u);
      assert (xs + ys)[1..] == xs[1..] + ys;
    }
  }
}
