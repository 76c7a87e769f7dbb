/** What holds over whole runs of a broadcast, whatever the workers, admins and crashes do. */
module BroadcastTheorems {
  import opened Basics
  import opened MapTotals
  import opened Broadcast
  import opened BroadcastProtocol
  import opened BroadcastOwnership

  // ---------------------------------------------------------------- runs

  lemma {:induction false} RunKeepsSafe(s: State, events: seq<Event>, t: State, rules: Rules)
    requires Safe(s) && Run(s, events, t, rules)
    ensures Safe(t)
    decreases |events|
  {
    if events != [] {
      SafeStep(s, events[0]);
      RunKeepsSafe(Step(s, events[0]), events[1..], t, rules);
    }
  }

  lemma {:induction false} RunKeepsOwned(s: State, events: seq<Event>, t: State, rules: Rules)
    requires Safe(s) && Owned(s) && Run(s, events, t, rules) && rules.timely
    ensures Safe(t) && Owned(t)
    decreases |events|
  {
    if events != [] {
      OwnedStep(s, events[0]);
      RunKeepsOwned(Step(s, events[0]), events[1..], t, rules);
    }
  }

  lemma {:induction false} RunKeepsTotal(s: State, events: seq<Event>, t: State, rules: Rules)
    requires Safe(s) && TotalIsRows(s) && Run(s, events, t, rules) && rules.freshReads
    ensures TotalIsRows(t)
    decreases |events|
  {
    if events != [] {
      SafeStep(s, events[0]);
      TotalIsRowsStep(s, events[0]);
      RunKeepsTotal(Step(s, events[0]), events[1..], t, rules);
    }
  }

  lemma {:induction false} RunKeepsDone(s: State, events: seq<Event>, t: State, rules: Rules)
    requires Safe(s) && Owned(s) && DoneMeansDone(s) && Run(s, events, t, rules) && rules.timely && rules.freshReads
    ensures DoneMeansDone(t)
    decreases |events|
  {
    if events != [] {
      OwnedStep(s, events[0]);
      DoneMeansDoneStep(s, events[0]);
      RunKeepsDone(Step(s, events[0]), events[1..], t, rules);
    }
  }

  lemma InitHolds(actor: int, createdAt: int)
    ensures var s := Init(actor, createdAt); Safe(s) && Owned(s) && TotalIsRows(s) && DoneMeansDone(s)
  {
    var none: Targets := map[];
    TotalConstant(none, IsStatus(Sent), 0);
    TotalConstant(none, IsStatus(Failed), 0);
    TotalConstant(none, IsStatus(Blocked), 0);
    TotalConstant(none, IsContentFailure(), 0);
    TotalConstant(none, Slack(), 0);
  }

  // ---------------------------------------------------------------- counters are row counts

  ghost function WithStatus(targets: Targets, st: TargetStatus): set<UserId> {
    set u | u in targets && targets[u].status == st
  }

  ghost function ContentFailures(targets: Targets): set<UserId> {
    set u | u in targets && targets[u].status == Failed
            && targets[u].errorKind.Some? && AboutContent(targets[u].errorKind.value)
  }

  lemma RowCounts(targets: Targets)
    ensures Total(targets, IsStatus(Sent)) == |WithStatus(targets, Sent)|
    ensures Total(targets, IsStatus(Failed)) == |WithStatus(targets, Failed)|
    ensures Total(targets, IsStatus(Blocked)) == |WithStatus(targets, Blocked)|
    ensures Total(targets, IsContentFailure()) == |ContentFailures(targets)|
  {
    TotalIndicator(targets, IsStatus(Sent), WithStatus(targets, Sent));
    TotalIndicator(targets, IsStatus(Failed), WithStatus(targets, Failed));
    TotalIndicator(targets, IsStatus(Blocked), WithStatus(targets, Blocked));
    TotalIndicator(targets, IsContentFailure(), ContentFailures(targets));
  }

  /** The five statuses partition the rows. */
  lemma StatusesPartition(targets: Targets)
    ensures |WithStatus(targets, Pending)| + |WithStatus(targets, Sending)| + |WithStatus(targets, Sent)|
            + |WithStatus(targets, Failed)| + |WithStatus(targets, Blocked)| == |targets|
  {
    var a := WithStatus(targets, Pending);
    var b := a + WithStatus(targets, Sending);
    var c := b + WithStatus(targets, Sent);
    var d := c + WithStatus(targets, Failed);
    assert a !! WithStatus(targets, Sending);
    assert b !! WithStatus(targets, Sent);
    assert c !! WithStatus(targets, Failed);
    assert d !! WithStatus(targets, Blocked);
    forall u | u in targets
      ensures u in d + WithStatus(targets, Blocked)
    {
      match targets[u].status
      case Pending => assert u in a;
      case Sending => assert u in b;
      case Sent => assert u in c;
      case Failed => assert u in d;
      case Blocked =>
    }
    assert targets.Keys == d + WithStatus(targets, Blocked);
    assert |targets| == |targets.Keys|;
  }

  // ---------------------------------------------------------------- theorems under the timing rule

  lemma NoneOpen(targets: Targets, st: TargetStatus)
    requires Drained(targets) && (st == Pending || st == Sending)
    ensures WithStatus(targets, st) == {}
  {
    if WithStatus(targets, st) != {} {
      var u := Member(WithStatus(targets, st));
      assert false;
    }
  }

  /** Under the timing rule, whatever the panel does: exclusive claims, counters that are row counts, and for each
      recipient as many results as attempts, at most six. */
  lemma TimedRunsAreExact(actor: int, createdAt: int, events: seq<Event>, t: State, rules: Rules)
    requires Run(Init(actor, createdAt), events, t, rules) && rules.timely
    ensures Exclusive(t)
    ensures t.job.sent == |WithStatus(t.job.targets, Sent)|
    ensures t.job.failed == |WithStatus(t.job.targets, Failed)|
    ensures t.job.blocked == |WithStatus(t.job.targets, Blocked)|
    ensures t.job.contentFailed == |ContentFailures(t.job.targets)|
    ensures forall u :: t.RecordedFor(u) <= MAX_ATTEMPTS
    ensures forall u :: u in t.job.targets ==> t.RecordedFor(u) == t.job.targets[u].attempts
    ensures t.recorded <= MAX_ATTEMPTS * |t.job.targets|
  {
    InitHolds(actor, createdAt);
    RunKeepsOwned(Init(actor, createdAt), events, t, rules);
    RowCounts(t.job.targets);
    forall u
      ensures t.RecordedFor(u) <= MAX_ATTEMPTS
      ensures u in t.job.targets ==> t.RecordedFor(u) == t.job.targets[u].attempts
    {
      assert AttemptsAreResults(t, u);
    }
  }

  /** With fresh reads `total` is the number of rows, under any timing. */
  lemma FreshRunsKeepTotal(actor: int, createdAt: int, events: seq<Event>, t: State, rules: Rules)
    requires Run(Init(actor, createdAt), events, t, rules) && rules.freshReads
    ensures t.job.total == |t.job.targets|
  {
    InitHolds(actor, createdAt);
    RunKeepsTotal(Init(actor, createdAt), events, t, rules);
  }

  /** With both: the statuses add up to `total`, and a `done` job has a verdict for everybody. */
  lemma OrderlyRunsAddUp(actor: int, createdAt: int, events: seq<Event>, t: State)
    requires Run(Init(actor, createdAt), events, t, Rules(true, true))
    ensures |WithStatus(t.job.targets, Pending)| + |WithStatus(t.job.targets, Sending)|
            + t.job.sent + t.job.failed + t.job.blocked == t.job.total
    ensures t.job.status == Done ==> Drained(t.job.targets) && t.job.sent + t.job.failed + t.job.blocked == t.job.total
  {
    InitHolds(actor, createdAt);
    TimedRunsAreExact(actor, createdAt, events, t, Rules(true, true));
    FreshRunsKeepTotal(actor, createdAt, events, t, Rules(true, true));
    RunKeepsDone(Init(actor, createdAt), events, t, Rules(true, true));
    StatusesPartition(t.job.targets);
    if t.job.status == Done {
      NoneOpen(t.job.targets, Pending);
      NoneOpen(t.job.targets, Sending);
    }
  }

  /** A row with a verdict keeps it, and no later claim contains it. */
  lemma {:induction false} VerdictsAreFinal(s: State, events: seq<Event>, t: State, u: UserId, rules: Rules)
    requires Safe(s) && Owned(s) && Run(s, events, t, rules) && rules.timely
    requires u in s.job.targets && s.job.targets[u].Terminal()
    ensures u in t.job.targets && t.job.targets[u] == s.job.targets[u]
    ensures forall i :: 0 <= i < |events| && events[i].Claim? ==> u !in events[i].users
    decreases |events|
  {
    if events != [] {
      TerminalRowStays(s, events[0], u);
      OwnedStep(s, events[0]);
      VerdictsAreFinal(Step(s, events[0]), events[1..], t, u, rules);
      forall i | 0 <= i < |events| && events[i].Claim?
        ensures u !in events[i].users
      {
        if i > 0 {
          assert events[1..][i - 1] == events[i];
        }
      }
    }
  }

  /** Each written result strictly decreases the sends left to the rows without a verdict. */
  lemma ResultsUseUpSends(s: State, e: Event)
    requires Safe(s) && Owned(s) && Timed(s, e) && e.Write?
    ensures Total(Step(s, e).job.targets, Slack()) + |s.workers[e.w].batch.results| <= Total(s.job.targets, Slack())
  {
    assert HasLiveBatch(s, e.w);
    WriteUsesSlack(s, e.w);
    assert Step(s, e).job == Written(s, e.w);
  }

  // ---------------------------------------------------------------- theorems without any rule

  lemma QueueingStatus(s: State, e: Event)
    requires Enabled(s, e) && Queues(e) && s.job.status != Draft
    ensures Step(s, e).job.status == s.job.status && Step(s, e).enqueued == s.enqueued
  {
  }

  lemma WrittenStatus(s: State, e: Event)
    requires Enabled(s, e) && e.Write?
    ensures Step(s, e).enqueued == s.enqueued
    ensures Step(s, e).job.status != s.job.status ==>
      (s.job.Active() || s.job.status == Paused) && Step(s, e).job.status == Aborted
  {
  }

  lemma OtherStatus(s: State, e: Event)
    requires Knowledge(s) && Enabled(s, e) && !Queues(e) && !e.Write?
    ensures s.job.Finished() ==> Step(s, e).job.status == s.job.status
    ensures s.job.status != Draft ==> Step(s, e).job.status != Draft
    ensures Step(s, e).enqueued == s.enqueued
  {
    if e.CommitCancelled? {
      assert e.w in s.workers;
    }
  }

  lemma StatusStep(s: State, e: Event)
    requires Knowledge(s) && Enabled(s, e)
    ensures s.job.Finished() ==> Step(s, e).job.status == s.job.status
    ensures s.job.status != Draft ==> Step(s, e).job.status != Draft && Step(s, e).enqueued == s.enqueued
  {
    if e.Write? {
      WrittenStatus(s, e);
    } else if Queues(e) {
      if s.job.status != Draft {
        QueueingStatus(s, e);
      }
    } else {
      OtherStatus(s, e);
    }
  }

  /** `done`, `cancelled` and `failed` are absorbing, and a job enters the queue at most once. */
  lemma {:induction false} FinishedIsAbsorbing(s: State, events: seq<Event>, t: State, rules: Rules)
    requires Safe(s) && Run(s, events, t, rules)
    ensures t.enqueued <= 1
    ensures s.job.Finished() ==> t.job.status == s.job.status
    ensures s.job.status != Draft ==> t.job.status != Draft && t.enqueued == s.enqueued
    decreases |events|
  {
    if events != [] {
      SafeStep(s, events[0]);
      StatusStep(s, events[0]);
      FinishedIsAbsorbing(Step(s, events[0]), events[1..], t, rules);
    }
  }

  /** The early abort fires in no other case than its condition, and no job it should stop goes on. */
  lemma AbortsAreExact(actor: int, createdAt: int, events: seq<Event>, s: State, e: Event, rules: Rules)
    requires Run(Init(actor, createdAt), events, s, rules) && Enabled(s, e)
    ensures s.job.status in {Queued, Running, JobStatus.Paused} ==>
      s.job.contentFailed < 200 || 100 * s.job.contentFailed < 95 * (s.job.sent + s.job.contentFailed)
    ensures Step(s, e).job.status == Aborted && s.job.status != Aborted ==>
      var job := Step(s, e).job;
      e.Write? && job.contentFailed >= 200 && 100 * job.contentFailed >= 95 * (job.sent + job.contentFailed)
  {
    InitHolds(actor, createdAt);
    RunKeepsSafe(Init(actor, createdAt), events, s, rules);
  }

  /** No row is claimed before its next attempt is due, nor before the end of its flood wait. */
  lemma ClaimsHonourWaits(actor: int, createdAt: int, events: seq<Event>, s: State, w: WorkerId, users: seq<UserId>,
      rules: Rules)
    requires Run(Init(actor, createdAt), events, s, rules) && Enabled(s, Claim(w, users))
    ensures forall u :: u in users ==>
      && u in s.job.targets && s.job.targets[u].status == Pending
      && (s.job.targets[u].nextAttemptAt.Some? ==> s.job.targets[u].nextAttemptAt.value <= s.now)
      && (u in s.floodUntil ==> s.floodUntil[u] <= s.now as real)
  {
    InitHolds(actor, createdAt);
    RunKeepsSafe(Init(actor, createdAt), events, s, rules);
  }

  /** A batch splits its claim exactly into the users to record and the users to release, in claim order. */
  lemma BatchesAreAccountedFor(actor: int, createdAt: int, events: seq<Event>, s: State, rules: Rules)
    requires Run(Init(actor, createdAt), events, s, rules)
    ensures forall w :: s.At(w).Mailing? ==>
      var b := s.At(w).batch;
      && |b.results| <= |b.users| <= BATCH_SIZE && Ascending(b.users)
      && b.Recorded() + b.Released() == b.users
  {
    InitHolds(actor, createdAt);
    RunKeepsSafe(Init(actor, createdAt), events, s, rules);
    forall w | s.At(w).Mailing?
      ensures WellFormedBatch(s, s.At(w).batch)
              && s.At(w).batch.Recorded() + s.At(w).batch.Released() == s.At(w).batch.users
    {
      assert WellFormedBatch(s, s.At(w).batch);
      RecordedThenReleased(s, s.At(w).batch);
    }
  }

  // ---------------------------------------------------------------- stopping

  /** What a worker may still send without reading the job's status again. */
  function Budget(k: Worker): int {
    match k
    case SawQueued => BATCH_SIZE
    case ReadyToClaim => BATCH_SIZE
    case Mailing(b) => |b.users| - |b.results| - (if b.inFlight then 1 else 0)
    case _ => 0
  }

  function SendsBy(events: seq<Event>, w: WorkerId): nat {
    if events == [] then 0
    else (if events[0] == SendStart(w) then 1 else 0) + SendsBy(events[1..], w)
  }

  /** The job is not active anywhere along the run. */
  ghost predicate StaysStopped(s: State, events: seq<Event>)
    decreases |events|
  {
    && !s.job.Active()
    && (events != [] && Enabled(s, events[0]) ==> StaysStopped(Step(s, events[0]), events[1..]))
  }

  lemma BudgetStep(s: State, e: Event, w: WorkerId)
    requires Safe(s) && Enabled(s, e) && !s.job.Active()
    ensures 0 <= Budget(s.At(w)) <= BATCH_SIZE
    ensures Budget(Step(s, e).At(w)) + (if e == SendStart(w) then 1 else 0) <= Budget(s.At(w))
  {
    if w in s.workers && s.workers[w].Mailing? {
      assert WellFormedBatch(s, s.workers[w].batch);
    }
  }

  /**
   * From a committed pause, cancel or abort on, each worker sends at most the rest of the one batch
   * it had loaded the job for, until the job is resumed.
   */
  lemma {:induction false} StopLimitsSends(s: State, events: seq<Event>, t: State, w: WorkerId, rules: Rules)
    requires Safe(s) && Run(s, events, t, rules) && StaysStopped(s, events)
    ensures SendsBy(events, w) + Budget(t.At(w)) <= Budget(s.At(w)) <= BATCH_SIZE
    ensures Budget(t.At(w)) >= 0
    decreases |events|
  {
    BudgetStep(s, Tick(0), w);
    if events != [] {
      BudgetStep(s, events[0], w);
      SafeStep(s, events[0]);
      StopLimitsSends(Step(s, events[0]), events[1..], t, w, rules);
    }
  }

  /** After a cancel or an abort (or `done`) the bound holds for ever. */
  lemma {:induction false} FinishedStaysStopped(s: State, events: seq<Event>, t: State, rules: Rules)
    requires Safe(s) && s.job.Finished() && Run(s, events, t, rules)
    ensures StaysStopped(s, events)
    decreases |events|
  {
    if events != [] {
      SafeStep(s, events[0]);
      StatusStep(s, events[0]);
      FinishedStaysStopped(Step(s, events[0]), events[1..], t, rules);
    }
  }

  lemma NoSendsAfterTheLastBatch(s: State, events: seq<Event>, t: State, w: WorkerId, rules: Rules)
    requires Safe(s) && s.job.Finished() && Run(s, events, t, rules)
    ensures SendsBy(events, w) <= Budget(s.At(w)) <= 20
  {
    FinishedStaysStopped(s, events, t, rules);
    StopLimitsSends(s, events, t, w, rules);
  }

  // ---------------------------------------------------------------- pausing

  /** Paused, or finished since. */
  predicate Halted(job: Job) { job.status == JobStatus.Paused || job.Finished() }

  lemma HaltedByWorker(s: State, e: Event)
    requires Knowledge(s) && Enabled(s, e) && ByWorker(e) && !e.Write? && Halted(s.job)
    ensures Halted(Step(s, e).job)
  {
    if e.CommitCancelled? {
      assert e.w in s.workers;
    }
  }

  /** Only a resume takes a job out of the pause again, unless it is finished. */
  lemma HaltedStep(s: State, e: Event)
    requires Knowledge(s) && Enabled(s, e) && Halted(s.job) && e != Admin(Resume)
    ensures Halted(Step(s, e).job)
  {
    if e.Write? {
      WrittenStatus(s, e);
    } else if Queues(e) {
      QueueingStatus(s, e);
    } else if ByWorker(e) {
      HaltedByWorker(s, e);
    } else if e.Admin? {
      ActionTable(s.job, s.now);
    }
  }

  /** A paused job stays stopped for as long as nobody resumes it. */
  lemma {:induction false} PausedStaysStopped(s: State, events: seq<Event>, t: State, rules: Rules)
    requires Safe(s) && Halted(s.job) && Run(s, events, t, rules) && Admin(Resume) !in events
    ensures StaysStopped(s, events) && Halted(t.job)
    decreases |events|
  {
    if events != [] {
      assert events[0] in events;
      SafeStep(s, events[0]);
      HaltedStep(s, events[0]);
      PausedStaysStopped(Step(s, events[0]), events[1..], t, rules);
    }
  }

  /** From a pause of a queued or running job on, until it is resumed: the job is paused or finished, and each worker
      sends at most the rest of the one batch it had loaded the job for. */
  lemma PauseLimitsSends(s: State, events: seq<Event>, t: State, w: WorkerId, rules: Rules)
    requires Safe(s) && s.job.Active() && Run(Step(s, Admin(Pause)), events, t, rules) && Admin(Resume) !in events
    ensures Step(s, Admin(Pause)).job.status == JobStatus.Paused
    ensures t.job.status == JobStatus.Paused || t.job.Finished()
    ensures SendsBy(events, w) <= Budget(s.At(w)) <= 20
  {
    var paused := Step(s, Admin(Pause));
    ActionTable(s.job, s.now);
    SafeStep(s, Admin(Pause));
    PausedStaysStopped(paused, events, t, rules);
    StopLimitsSends(paused, events, t, w, rules);
    assert paused.At(w) == s.At(w);
  }

  /** A resume puts a paused job back in the queue, where a worker that loads it goes on. */
  lemma ResumeLetsWorkersGoOn(s: State, w: WorkerId)
    requires s.job.status == JobStatus.Paused && s.At(w) == LoopTop
    ensures Step(s, Admin(Resume)).job.status == Queued
    ensures Step(Step(s, Admin(Resume)), Load(w)).At(w) == SawQueued
  {
    ActionTable(s.job, s.now);
    assert Step(s, Admin(Resume)).At(w) == LoopTop;
  }
}
