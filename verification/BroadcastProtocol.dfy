/**
 * One broadcast, any number of workers and admins. Every committed statement or transaction is
 * one step; a worker keeps its local variables between its steps, and the steps interleave freely.
 */
module BroadcastProtocol {
  import opened Basics
  import opened Broadcast

  type WorkerId = int

  /** A claimed batch: `results` are the answers so far, for the first `|results|` users. */
  datatype Batch = Batch(
    users: seq<UserId>,
    attempts: map<UserId, nat>,
    claimedAt: int,
    results: seq<SendResult>,
    inFlight: bool)
  {
    /** The users whose result is known, in the order of sending. */
    function Recorded(): seq<UserId> { seq(|results|, i requires 0 <= i < |results| => results[i].user) }

    /** The rows `_persist_batch` hands back, a send cut off by a cancellation included. */
    function Released(): seq<UserId>
      requires |results| <= |users|
    {
      users[|results|..]
    }
  }

  /** Where a worker stands inside `run_broadcast`. */
  datatype Worker =
    | Idle
    | LoopTop
    | SawQueued
    | ReadyToClaim
    | ClaimedNothing
    | SawDrained
    | SawCancelled
    | Mailing(batch: Batch)

  datatype State = State(
    now: int,
    job: Job,
    workers: map<WorkerId, Worker>,
    /** Results written so far, in all and per recipient. */
    recorded: nat,
    recordedFor: map<UserId, nat>,
    /** Times the job entered the queue. */
    enqueued: nat,
    /** Until when Telegram asked not to address a recipient whose last result is a flood. */
    floodUntil: map<UserId, real>)
  {
    function At(w: WorkerId): Worker { if w in workers then workers[w] else Idle }

    function RecordedFor(u: UserId): nat { if u in recordedFor then recordedFor[u] else 0 }

    function Live(b: Batch): bool { now <= b.claimedAt + STALE_CLAIM_SECONDS }
  }

  datatype Event =
    | Tick(seconds: nat)
    | Queue(actor: int, segment: set<UserId>)
    | QueueFromPanel(segment: set<UserId>)
    | Discard
    | Admin(action: Action)
    | ResetClaims
    | Start(w: WorkerId)
    | Load(w: WorkerId)
    | Mark(w: WorkerId)
    | Claim(w: WorkerId, users: seq<UserId>)
    | ReadRemaining(w: WorkerId)
    | CommitDone(w: WorkerId)
    | CommitCancelled(w: WorkerId)
    | SendStart(w: WorkerId)
    | SendDone(w: WorkerId, delivery: Delivery)
    | Write(w: WorkerId, again: bool)
    | Crash(w: WorkerId)

  /** The panel's route read a draft at some earlier time, which every job once was. */
  predicate Enabled(s: State, e: Event) {
    match e
    case Tick(_) => true
    case Queue(_, _) => true
    case QueueFromPanel(_) => true
    case Discard => true
    case Admin(_) => true
    case ResetClaims => true
    case Start(w) => s.At(w) == Idle
    case Load(w) => s.At(w) == LoopTop
    case Mark(w) => s.At(w) == SawQueued
    case Claim(w, users) => s.At(w) == ReadyToClaim && IsClaim(s.job.targets, users, s.now, BATCH_SIZE)
    case ReadRemaining(w) => s.At(w) == ClaimedNothing
    case CommitDone(w) => s.At(w) == SawDrained
    case CommitCancelled(w) => s.At(w) == SawCancelled
    case SendStart(w) =>
      var k := s.At(w);
      k.Mailing? && !k.batch.inFlight && |k.batch.results| < |k.batch.users|
    case SendDone(w, _) =>
      var k := s.At(w);
      k.Mailing? && k.batch.inFlight && |k.batch.results| < |k.batch.users|
    case Write(w, _) =>
      var k := s.At(w);
      k.Mailing? && |k.batch.results| <= |k.batch.users|
    case Crash(w) => true
  }

  /** The timing rule: a batch is written while its claim cannot be taken for stale. */
  predicate Timely(s: State, e: Event) { e.Write? ==> s.At(e.w).Mailing? && s.Live(s.At(e.w).batch) }

  /** The draft the panel's route read is still a draft, or nobody new is addressed. */
  predicate FreshRead(s: State, e: Event) {
    e.QueueFromPanel? ==> s.job.status == Draft || e.segment <= s.job.targets.Keys
  }

  /** Which of the two assumptions a run is under. */
  datatype Rules = Rules(timely: bool, freshReads: bool) {
    predicate Allow(s: State, e: Event) { (timely ==> Timely(s, e)) && (freshReads ==> FreshRead(s, e)) }
  }

  const NoRules := Rules(false, false)

  function FloodMarks(marks: map<UserId, real>, results: seq<SendResult>,
                      attempts: map<UserId, nat>, now: int): map<UserId, real> {
    if results == [] then marks
    else
      var before := FloodMarks(marks, results[..|results| - 1], attempts, now);
      var r := results[|results| - 1];
      if r.delivery.Refused? && r.delivery.kind == Flood && NewRow(r, attempts, now).status == Pending
      then before[r.user := now as real + r.delivery.retryAfter]
      else before - {r.user}
  }

  function Tally(counts: map<UserId, nat>, results: seq<SendResult>): map<UserId, nat> {
    if results == [] then counts
    else
      var before := Tally(counts, results[..|results| - 1]);
      var u := results[|results| - 1].user;
      before[u := 1 + if u in before then before[u] else 0]
  }

  predicate Queues(e: Event) { e.Queue? || e.QueueFromPanel? }

  /** What a committed step does to the job and its rows. */
  function JobAfter(s: State, e: Event): Job
    requires Enabled(s, e)
  {
    match e
    case Queue(actor, segment) => QueueDraft(s.job, actor, segment)
    case QueueFromPanel(segment) => Broadcast.QueueFromPanel(s.job, segment)
    case Discard => DiscardDraft(s.job, s.now)
    case Admin(action) => SetState(s.job, action, s.now)
    case ResetClaims => s.job.(targets := ResetStale(s.job.targets, s.now, STALE_CLAIM_SECONDS))
    case Mark(_) => MarkRunning(s.job)
    case Claim(_, users) => s.job.(targets := Claimed(s.job.targets, users, s.now))
    case CommitDone(_) => FinishDone(s.job, s.now)
    case CommitCancelled(_) => FinishCancelled(s.job, s.now)
    case Write(w, _) =>
      var b := s.At(w).batch;
      WriteResults(s.job, b.results, b.Released(), b.attempts, s.now)
    case _ => s.job
  }

  predicate ByWorker(e: Event) {
    !e.Tick? && !e.Queue? && !e.QueueFromPanel? && !e.Discard? && !e.Admin? && !e.ResetClaims?
  }

  /** Where the worker that takes the step stands after it. */
  function WorkerAfter(s: State, e: Event): Worker
    requires Enabled(s, e) && ByWorker(e)
  {
    match e
    case Start(_) => LoopTop
    case Load(_) =>
      (match s.job.status
       case Cancelled => SawCancelled
       case Queued => SawQueued
       case Running => ReadyToClaim
       case _ => Idle)
    case Mark(_) => ReadyToClaim
    case Claim(_, users) =>
      if users == [] then ClaimedNothing
      else
        var attempts := map u | u in s.job.targets && u in users :: s.job.targets[u].attempts;
        Mailing(Batch(users, attempts, s.now, [], false))
    case ReadRemaining(_) => if Drained(s.job.targets) then SawDrained else Idle
    case SendStart(w) => Mailing(s.At(w).batch.(inFlight := true))
    case SendDone(w, delivery) =>
      var b := s.At(w).batch;
      Mailing(b.(inFlight := false, results := b.results + [SendResult(b.users[|b.results|], delivery)]))
    case Write(_, again) => if again then LoopTop else Idle
    case _ => Idle
  }

  function Step(s: State, e: Event): State
    requires Enabled(s, e)
  {
    var b := if e.Write? then s.At(e.w).batch else Batch([], map[], 0, [], false);
    State(
      if e.Tick? then s.now + e.seconds else s.now,
      JobAfter(s, e),
      if ByWorker(e) then s.workers[e.w := WorkerAfter(s, e)] else s.workers,
      s.recorded + |b.results|,
      if e.Write? then Tally(s.recordedFor, b.results) else s.recordedFor,
      s.enqueued + (if Queues(e) && JobAfter(s, e).status != s.job.status then 1 else 0),
      if e.Write? then FloodMarks(s.floodUntil, b.results, b.attempts, s.now) else s.floodUntil)
  }

  function Init(actor: int, createdAt: int): State {
    State(createdAt, NewJob(actor, createdAt), map[], 0, map[], 0, map[])
  }

  /** `t` is reached from `s` by `events`, each of which the rules allow. */
  ghost predicate Run(s: State, events: seq<Event>, t: State, rules: Rules)
    decreases |events|
  {
    if events == [] then s == t
    else
      && Enabled(s, events[0])
      && rules.Allow(s, events[0])
      && Run(Step(s, events[0]), events[1..], t, rules)
  }

  lemma {:induction false} RunThen(s: State, events: seq<Event>, m: State, e: Event, rules: Rules)
    requires Run(s, events, m, rules) && Enabled(m, e) && rules.Allow(m, e)
    ensures Run(s, events + [e], Step(m, e), rules)
    decreases |events|
  {
    if events == [] {
      assert Run(Step(s, e), [], Step(m, e), rules);
      assert ([] + [e])[1..] == [];
    } else {
      RunThen(Step(s, events[0]), events[1..], m, e, rules);
      assert (events + [e])[1..] == events[1..] + [e];
    }
  }

  /** `Run`, in a form the verifier leaves folded. */
  ghost predicate Reached(s: State, events: seq<Event>, t: State, rules: Rules) {
    forall r :: r == rules ==> Run(s, events, t, r)
  }

  lemma ReachedThen(s: State, events: seq<Event>, m: State, e: Event, rules: Rules)
    requires Reached(s, events, m, rules) && Enabled(m, e) && rules.Allow(m, e)
    ensures Reached(s, events + [e], Step(m, e), rules)
  {
    RunThen(s, events, m, e, rules);
  }

  // ---------------------------------------------------------------- without any rule

  ghost predicate Lifecycle(s: State) {
    var j := s.job;
    && s.enqueued <= 1
    && (j.status == Draft ==> s.enqueued == 0 && j.targets == map[])
    && (s.enqueued == 0 ==> j.sent == j.failed == j.blocked == j.contentFailed == 0)
    && (s.enqueued == 0 ==> j.status == Draft || j.status == Cancelled)
    && (j.finishedAt.Some? <==> j.Finished())
  }

  /** No job that can still send meets the abort condition. */
  ghost predicate NeverOverdue(s: State) {
    s.job.Active() || s.job.status == JobStatus.Paused ==> !AbortCondition(s.job.contentFailed, s.job.sent)
  }

  ghost predicate WellFormedBatch(s: State, b: Batch) {
    && Ascending(b.users)
    && 0 < |b.users| <= BATCH_SIZE
    && |b.results| + (if b.inFlight then 1 else 0) <= |b.users|
    && (forall i :: 0 <= i < |b.results| ==> b.results[i].user == b.users[i])
    && (forall u :: u in b.users ==> u in s.job.targets && u in b.attempts && b.attempts[u] < MAX_ATTEMPTS)
  }

  ghost predicate Batches(s: State) {
    forall w :: w in s.workers && s.workers[w].Mailing? ==> WellFormedBatch(s, s.workers[w].batch)
  }

  /** What a worker knows about the job from its own reads, and what cannot change any more. */
  ghost predicate Knowledge(s: State) {
    forall w :: w in s.workers ==>
      var k := s.workers[w];
      && (k == SawCancelled ==> s.job.status == Cancelled)
      && (k != Idle && k != LoopTop && k != SawCancelled ==> s.enqueued == 1)
  }

  ghost predicate AttemptBounds(s: State) {
    forall u :: u in s.job.targets ==> WithinAttempts(s.job.targets[u])
  }

  ghost predicate FloodWaits(s: State) {
    forall u :: u in s.floodUntil ==>
      && u in s.job.targets
      && s.job.targets[u].nextAttemptAt.Some?
      && s.job.targets[u].nextAttemptAt.value as real >= s.floodUntil[u]
  }

  ghost predicate Safe(s: State) {
    && Lifecycle(s) && NeverOverdue(s) && Batches(s) && Knowledge(s)
    && AttemptBounds(s) && FloodWaits(s)
  }

  lemma WrittenUsersDistinct(s: State, b: Batch)
    requires WellFormedBatch(s, b)
    ensures forall i, j :: 0 <= i < j < |b.results| ==> b.results[i].user != b.results[j].user
    ensures forall i :: 0 <= i < |b.results| ==> b.results[i].user in s.job.targets
    ensures forall i :: 0 <= i < |b.results| ==> b.results[i].user in b.users
    ensures forall u :: u in b.Released() ==>
      u in b.users && forall i :: 0 <= i < |b.results| ==> b.results[i].user != u
  {
    forall i, j | 0 <= i < j < |b.results|
      ensures b.results[i].user != b.results[j].user
    {
      assert b.users[i] < b.users[j];
    }
    forall u | u in b.Released()
      ensures u in b.users && forall i :: 0 <= i < |b.results| ==> b.results[i].user != u
    {
      var j :| 0 <= j < |b.Released()| && b.Released()[j] == u;
      assert b.users[|b.results| + j] == u;
      forall i | 0 <= i < |b.results|
        ensures b.results[i].user != u
      {
        assert b.users[i] < b.users[|b.results| + j];
      }
    }
  }

  /** The rows after a batch is written: results overwrite, releases give back, the rest stays. */
  lemma WrittenRows(s: State, b: Batch, now: int)
    requires WellFormedBatch(s, b)
    ensures var after := WriteResults(s.job, b.results, b.Released(), b.attempts, now).targets;
            && after.Keys == s.job.targets.Keys
            && (forall i :: 0 <= i < |b.results| ==> after[b.users[i]] == NewRow(b.results[i], b.attempts, now))
            && (forall u :: u in after && u !in b.users ==> after[u] == s.job.targets[u])
            && (forall u :: u in b.Released() ==>
                  var t := s.job.targets[u];
                  after[u] == if t.status == Sending then t.(status := Pending, claimedAt := None) else t)
  {
    WrittenUsersDistinct(s, b);
    RecordAllRows(s.job.targets, b.results, b.attempts, now);
    var recorded := RecordAll(s.job.targets, b.results, b.attempts, now);
    var after := Release(recorded, b.Released());
    assert after.Keys == s.job.targets.Keys;
    forall u | u in after && u !in b.users
      ensures after[u] == s.job.targets[u]
    {
      assert recorded[u] == s.job.targets[u];
    }
    forall i | 0 <= i < |b.results|
      ensures after[b.users[i]] == NewRow(b.results[i], b.attempts, now)
    {
      assert b.results[i].user == b.users[i];
      assert b.users[i] !in b.Released();
    }
  }

  lemma RecordedThenReleased(s: State, b: Batch)
    requires WellFormedBatch(s, b)
    ensures b.Recorded() + b.Released() == b.users
  {
    assert b.Recorded() == b.users[..|b.results|];
  }

  /** Every user of a batch is either recorded or released. */
  lemma RecordedOrReleased(b: Batch, u: UserId)
    requires |b.results| <= |b.users| && u in b.users
    ensures (exists i :: 0 <= i < |b.results| && b.users[i] == u) || u in b.Released()
  {
    var j :| 0 <= j < |b.users| && b.users[j] == u;
    if j >= |b.results| {
      assert b.Released()[j - |b.results|] == u;
    }
  }

  lemma SameKeys(s: State, e: Event)
    requires Batches(s) && Enabled(s, e)
    ensures e.Queue? || e.QueueFromPanel? || Step(s, e).job.targets.Keys == s.job.targets.Keys
  {
    if e.Write? {
      assert WellFormedBatch(s, s.At(e.w).batch);
      WrittenRows(s, s.At(e.w).batch, s.now);
    }
  }

  /** Queueing a draft, by whichever way, addresses its segment; on any other job at most the panel adds rows. */
  lemma QueueingShape(s: State, e: Event)
    requires Enabled(s, e) && Queues(e)
    ensures var after, targets := JobAfter(s, e), Materialized(s.job.targets, e.segment);
            || after == s.job
            || after == s.job.(status := Queued, total := after.total, targets := targets)
            || after == s.job.(targets := targets)
    ensures JobAfter(s, e).status != s.job.status ==> s.job.status == Draft && JobAfter(s, e).status == Queued
    ensures s.job.status == Draft ==> JobAfter(s, e) == s.job || JobAfter(s, e).status == Queued
  {
  }

  /** What a step other than a write does to the rows. */
  lemma TargetsAfter(s: State, e: Event)
    requires Enabled(s, e) && !e.Write?
    ensures var t, after := s.job.targets, Step(s, e).job.targets;
            && (Queues(e) ==> after == t || after == Materialized(t, e.segment))
            && (e.Claim? ==> after == t || after == Claimed(t, e.users, s.now))
            && (e.ResetClaims? ==> after == ResetStale(t, s.now, STALE_CLAIM_SECONDS))
            && (!Queues(e) && !e.Claim? && !e.ResetClaims? ==> after == t)
  {
    if Queues(e) {
      QueueingShape(s, e);
    }
  }

  lemma LifecycleAfterWrite(s: State, e: Event)
    requires Lifecycle(s) && Batches(s) && Knowledge(s) && Enabled(s, e) && e.Write?
    ensures Lifecycle(Step(s, e))
  {
    var b := s.At(e.w).batch;
    assert WellFormedBatch(s, b);
    assert s.enqueued == 1;
    SameKeys(s, e);
  }

  lemma LifecycleAfterQueueing(s: State, e: Event)
    requires Lifecycle(s) && Enabled(s, e) && Queues(e)
    ensures Lifecycle(Step(s, e))
  {
    QueueingShape(s, e);
  }

  lemma LifecycleAfterOther(s: State, e: Event)
    requires Lifecycle(s) && Knowledge(s) && Enabled(s, e) && !Queues(e) && !e.Write?
    ensures Lifecycle(Step(s, e))
  {
    TargetsAfter(s, e);
  }

  lemma LifecycleStep(s: State, e: Event)
    requires Lifecycle(s) && Batches(s) && Knowledge(s) && Enabled(s, e)
    ensures Lifecycle(Step(s, e))
  {
    if e.Write? {
      LifecycleAfterWrite(s, e);
    } else if Queues(e) {
      LifecycleAfterQueueing(s, e);
    } else {
      LifecycleAfterOther(s, e);
    }
  }

  lemma NotOverdueAfterWrite(s: State, e: Event)
    requires NeverOverdue(s) && Enabled(s, e) && e.Write?
    ensures NeverOverdue(Step(s, e))
  {
  }

  /** Without a write neither counter of the abort condition moves, and no finished job goes on. */
  lemma NotOverdueOtherwise(s: State, e: Event)
    requires Lifecycle(s) && Knowledge(s) && Enabled(s, e) && !e.Write?
    ensures Step(s, e).job.contentFailed == s.job.contentFailed && Step(s, e).job.sent == s.job.sent
    ensures s.job.Finished() ==> Step(s, e).job.Finished()
    ensures s.job.status == Draft ==> s.job.contentFailed == 0
  {
    if Queues(e) {
      QueueingShape(s, e);
    }
  }

  lemma NeverOverdueStep(s: State, e: Event)
    requires Lifecycle(s) && NeverOverdue(s) && Knowledge(s) && Enabled(s, e)
    ensures NeverOverdue(Step(s, e))
  {
    if e.Write? {
      NotOverdueAfterWrite(s, e);
    } else {
      NotOverdueOtherwise(s, e);
    }
  }

  lemma KeysGrow(s: State, e: Event)
    requires Batches(s) && Enabled(s, e)
    ensures s.job.targets.Keys <= Step(s, e).job.targets.Keys
  {
    SameKeys(s, e);
  }

  /** Only the worker that takes a step moves. */
  lemma OthersStay(s: State, e: Event, v: WorkerId)
    requires Enabled(s, e)
    ensures e.Tick? || e.Queue? || e.QueueFromPanel? || e.Discard? || e.Admin? || e.ResetClaims? || e.w != v ==>
            Step(s, e).At(v) == s.At(v)
  {
  }

  lemma BatchStays(s: State, t: State, b: Batch)
    requires WellFormedBatch(s, b) && s.job.targets.Keys <= t.job.targets.Keys
    ensures WellFormedBatch(t, b)
  {
  }

  /** A batch that a worker has just claimed, or has got one send further with, is well-formed. */
  lemma OwnBatch(s: State, e: Event)
    requires Batches(s) && AttemptBounds(s) && Enabled(s, e) && (e.Claim? || e.SendStart? || e.SendDone?)
    ensures Step(s, e).At(e.w).Mailing? ==> WellFormedBatch(Step(s, e), Step(s, e).At(e.w).batch)
  {
    if !e.Claim? {
      assert WellFormedBatch(s, s.At(e.w).batch);
    }
  }

  lemma BatchesStep(s: State, e: Event)
    requires Lifecycle(s) && Batches(s) && AttemptBounds(s) && Enabled(s, e)
    ensures Batches(Step(s, e))
  {
    var t := Step(s, e);
    KeysGrow(s, e);
    if e.Claim? || e.SendStart? || e.SendDone? {
      OwnBatch(s, e);
    }
    forall v | v in t.workers && t.workers[v].Mailing?
      ensures WellFormedBatch(t, t.workers[v].batch)
    {
      OthersStay(s, e, v);
      assert t.At(v) == t.workers[v];
      if t.At(v) == s.At(v) {
        BatchStays(s, t, s.workers[v].batch);
      }
    }
  }

  /** What a worker may come to know by its own step. */
  lemma OwnKnowledge(s: State, e: Event, w: WorkerId)
    requires Knowledge(s) && Lifecycle(s) && Enabled(s, e) && Step(s, e).At(w) != s.At(w)
    ensures var k := Step(s, e).At(w);
            && (k == SawCancelled ==> s.job.status == Cancelled)
            && (k != Idle && k != LoopTop && k != SawCancelled ==> s.enqueued == 1)
  {
    OthersStay(s, e, w);
    if w in s.workers {
      assert s.At(w) == s.workers[w];
    }
  }

  lemma KnownStays(s: State, e: Event)
    requires Lifecycle(s) && Enabled(s, e)
    ensures s.enqueued == 1 ==> Step(s, e).enqueued == 1
    ensures s.job.status == Cancelled ==> Step(s, e).job.status == Cancelled || e.CommitDone?
  {
    if Queues(e) {
      QueueingShape(s, e);
    }
  }

  lemma CancelledStays(s: State, e: Event)
    requires Enabled(s, e) && e.CommitDone? && s.job.status == Cancelled
    ensures Step(s, e).job.status == Cancelled
  {
  }

  lemma KnowledgeStep(s: State, e: Event)
    requires Knowledge(s) && Lifecycle(s) && Enabled(s, e)
    ensures Knowledge(Step(s, e))
  {
    KnownStays(s, e);
    if e.CommitDone? && s.job.status == Cancelled {
      CancelledStays(s, e);
    }
    forall w | w in Step(s, e).workers
      ensures var k := Step(s, e).workers[w];
              && (k == SawCancelled ==> Step(s, e).job.status == Cancelled)
              && (k != Idle && k != LoopTop && k != SawCancelled ==> Step(s, e).enqueued == 1)
    {
      assert Step(s, e).At(w) == Step(s, e).workers[w];
      if Step(s, e).At(w) != s.At(w) {
        OwnKnowledge(s, e, w);
      } else if w in s.workers {
        assert s.At(w) == s.workers[w];
      }
    }
  }

  predicate WithinAttempts(t: Target) { t.attempts <= MAX_ATTEMPTS && (!t.Terminal() ==> t.attempts < MAX_ATTEMPTS) }

  lemma WrittenRowWithinAttempts(s: State, b: Batch, u: UserId)
    requires WellFormedBatch(s, b) && AttemptBounds(s) && u in s.job.targets
    ensures var after := WriteResults(s.job, b.results, b.Released(), b.attempts, s.now).targets;
            u in after && WithinAttempts(after[u])
  {
    WrittenRows(s, b, s.now);
    assert WithinAttempts(s.job.targets[u]);
    if u in b.users {
      RecordedOrReleased(b, u);
      assert AttemptsBefore(b.attempts, u) < MAX_ATTEMPTS;
    }
  }

  /** Steps other than a write keep every row's attempts and only add fresh rows. */
  lemma UnwrittenRow(s: State, e: Event, u: UserId)
    requires Enabled(s, e) && !e.Write? && u in Step(s, e).job.targets
    ensures u !in s.job.targets ==> Step(s, e).job.targets[u] == FRESH_TARGET
    ensures u in s.job.targets ==>
      && Step(s, e).job.targets[u].attempts == s.job.targets[u].attempts
      && Step(s, e).job.targets[u].Terminal() == s.job.targets[u].Terminal()
  {
    TargetsAfter(s, e);
  }

  lemma AttemptBoundsStep(s: State, e: Event)
    requires Batches(s) && AttemptBounds(s) && Enabled(s, e)
    ensures AttemptBounds(Step(s, e))
  {
    if !e.Write? {
      forall u | u in Step(s, e).job.targets
        ensures WithinAttempts(Step(s, e).job.targets[u])
      {
        UnwrittenRow(s, e, u);
      }
    } else {
      var b := s.At(e.w).batch;
      assert WellFormedBatch(s, b);
      SameKeys(s, e);
      forall u | u in Step(s, e).job.targets
        ensures WithinAttempts(Step(s, e).job.targets[u])
      {
        WrittenRowWithinAttempts(s, b, u);
      }
    }
  }

  lemma {:induction false} FloodMarksHold(targets: Targets, marks: map<UserId, real>, results: seq<SendResult>,
                                          attempts: map<UserId, nat>, now: int)
    requires forall i :: 0 <= i < |results| ==> results[i].user in targets
    requires forall u :: u in marks ==> u in targets && targets[u].nextAttemptAt.Some?
                                        && targets[u].nextAttemptAt.value as real >= marks[u]
    ensures var after := RecordAll(targets, results, attempts, now);
            && after.Keys == targets.Keys
            && forall u :: u in FloodMarks(marks, results, attempts, now) ==>
              && u in after && after[u].nextAttemptAt.Some?
              && after[u].nextAttemptAt.value as real >= FloodMarks(marks, results, attempts, now)[u]
  {
    if results != [] {
      FloodMarksHold(targets, marks, results[..|results| - 1], attempts, now);
      var r := results[|results| - 1];
      if NewRow(r, attempts, now).status == Pending {
        RetryWaitsLongEnough(r.delivery, AttemptsBefore(attempts, r.user), now);
      }
    }
  }

  /** Only a write changes when a row is next due, apart from rows that are new. */
  lemma WaitsStay(s: State, e: Event)
    requires Batches(s) && Enabled(s, e) && !e.Write?
    ensures s.job.targets.Keys <= Step(s, e).job.targets.Keys
    ensures forall u :: u in s.job.targets ==> Step(s, e).job.targets[u].nextAttemptAt == s.job.targets[u].nextAttemptAt
    ensures Step(s, e).floodUntil == s.floodUntil
  {
    SameKeys(s, e);
  }

  lemma FloodWaitsAfterWrite(s: State, e: Event)
    requires Batches(s) && FloodWaits(s) && Enabled(s, e) && e.Write?
    ensures FloodWaits(Step(s, e))
  {
    var b := s.At(e.w).batch;
    assert WellFormedBatch(s, b);
    WrittenUsersDistinct(s, b);
    FloodMarksHold(s.job.targets, s.floodUntil, b.results, b.attempts, s.now);
  }

  lemma FloodWaitsStep(s: State, e: Event)
    requires Batches(s) && FloodWaits(s) && Enabled(s, e)
    ensures FloodWaits(Step(s, e))
  {
    if e.Write? {
      FloodWaitsAfterWrite(s, e);
    } else {
      WaitsStay(s, e);
    }
  }

  lemma SafeStep(s: State, e: Event)
    requires Safe(s) && Enabled(s, e)
    ensures Safe(Step(s, e))
  {
    LifecycleStep(s, e);
    NeverOverdueStep(s, e);
    BatchesStep(s, e);
    KnowledgeStep(s, e);
    AttemptBoundsStep(s, e);
    FloodWaitsStep(s, e);
  }

  // ---------------------------------------------------------------- with fresh reads

  predicate TotalIsRows(s: State) { s.job.total == |s.job.targets| }

  /** With fresh reads `total` is the number of rows, whatever the workers' timing. */
  lemma TotalIsRowsStep(s: State, e: Event)
    requires Batches(s) && TotalIsRows(s) && Enabled(s, e) && FreshRead(s, e)
    ensures TotalIsRows(Step(s, e))
  {
    if e.QueueFromPanel? {
      QueueFromPanelKeepsTotal(s.job, e.segment);
    } else if !e.Queue? {
      SameKeys(s, e);
      assert |Step(s, e).job.targets.Keys| == |Step(s, e).job.targets|;
      assert |s.job.targets.Keys| == |s.job.targets|;
    }
  }
}
