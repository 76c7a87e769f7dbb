/**
 * The broadcast queue: one job row, one target row per recipient, and what each
 * short transaction of the worker and of the admin panels does to them.
 */
module Broadcast {
  import opened Basics
  import opened MapTotals

  type UserId = int

  const MAX_ATTEMPTS := 6
  const BACKOFF_BASE_SECONDS := 10
  const BACKOFF_CAP_SECONDS := 600
  const MAX_RETRY_AFTER_SECONDS := 3600.0
  const EARLY_ABORT_MIN_FAILURES := 200
  const BATCH_SIZE := 20
  const STALE_CLAIM_SECONDS := 600
  const DRAFT_TTL_SECONDS := 1800

  datatype TargetStatus = Pending | Sending | Sent | Failed | Blocked

  datatype ErrorKind =
    | BlockedKind | Deactivated | ChatNotFound | BadRequest
    | Flood | Network | Other | SentUnparsed

  datatype Target = Target(
    status: TargetStatus,
    attempts: nat,
    nextAttemptAt: Option<int>,
    claimedAt: Option<int>,
    errorKind: Option<ErrorKind>,
    sentAt: Option<int>,
    lastAttemptAt: Option<int>)
  {
    predicate Terminal() { status != Pending && status != Sending }
  }

  type Targets = map<UserId, Target>

  datatype JobStatus = Draft | Queued | Running | Paused | Done | Cancelled | Aborted

  datatype Job = Job(
    status: JobStatus,
    actor: int,
    createdAt: int,
    total: nat,
    sent: nat,
    failed: nat,
    blocked: nat,
    contentFailed: nat,
    finishedAt: Option<int>,
    targets: Targets)
  {
    predicate Active() { status == Queued || status == Running }

    predicate Finished() { status == Done || status == Cancelled || status == Aborted }
  }

  /** What one Telegram call came to; `retryAfter` is only read for a flood. */
  datatype Delivery = Accepted(unparsed: bool) | Refused(kind: ErrorKind, retryAfter: real)

  datatype SendResult = SendResult(user: UserId, delivery: Delivery)

  predicate Transient(k: ErrorKind) { k == Flood || k == Network }

  predicate Unreachable(k: ErrorKind) { k == BlockedKind || k == Deactivated }

  predicate AboutContent(k: ErrorKind) { k == BadRequest || k == Other }

  function BackoffSeconds(attemptsMade: int): int {
    Min(BACKOFF_CAP_SECONDS, BACKOFF_BASE_SECONDS * Pow(2, Max(0, attemptsMade)))
  }

  datatype Outcome = Outcome(
    status: TargetStatus,
    errorKind: Option<ErrorKind>,
    attempts: nat,
    nextAttemptAt: Option<int>,
    sentAt: Option<int>)

  function PlanOutcome(d: Delivery, attemptsBefore: nat, now: int): Outcome {
    var attempts := attemptsBefore + 1;
    match d
    case Accepted(unparsed) =>
      Outcome(Sent, if unparsed then Some(SentUnparsed) else None, attempts, None, Some(now))
    case Refused(kind, retryAfter) =>
      if Transient(kind) && attempts < MAX_ATTEMPTS then
        var delay := BackoffSeconds(attemptsBefore);
        var wait := if kind == Flood && retryAfter != 0.0 then Max(delay, Ceil(retryAfter)) else delay;
        Outcome(Pending, Some(kind), attempts, Some(now + wait), None)
      else
        Outcome(if Unreachable(kind) then Blocked else Failed, Some(kind), attempts, None, None)
  }

  lemma {:induction false} BackoffDoublesUpToTheCap(n: nat)
    ensures n <= 5 ==> BackoffSeconds(n) == 10 * Pow(2, n)
    ensures n >= 6 ==> BackoffSeconds(n) == BACKOFF_CAP_SECONDS
    ensures BackoffSeconds(n) <= BackoffSeconds(n + 1)
  {
    assert Pow(2, 6) == 64 && Pow(2, 5) == 32 && Pow(2, 4) == 16 && Pow(2, 3) == 8 by {
      assert Pow(2, 3) == 8;
      assert Pow(2, 5) == 4 * Pow(2, 3);
    }
    if n > 6 {
      BackoffDoublesUpToTheCap(n - 1);
      assert Pow(2, n) == 2 * Pow(2, n - 1);
      assert BackoffSeconds(n - 1) == BACKOFF_CAP_SECONDS;
    }
  }

  /** When a row is tried again: after its backoff of 10, 20, 40, ... seconds, or the first full second at which the
      flood wait Telegram asked for is over, whichever is later. */
  lemma RetryWaitsLongEnough(d: Delivery, attemptsBefore: nat, now: int)
    requires PlanOutcome(d, attemptsBefore, now).status == Pending
    ensures var o := PlanOutcome(d, attemptsBefore, now);
            && o.attempts == attemptsBefore + 1 < 6
            && d.Refused? && d.kind in {Flood, Network}
            && o.nextAttemptAt.Some?
            && var wait, backoff := o.nextAttemptAt.value - now, 10 * Pow(2, attemptsBefore);
            && wait >= backoff
            && (d.kind == Flood ==> wait as real >= d.retryAfter)
            && (wait > backoff ==> d.kind == Flood && (wait - 1) as real < d.retryAfter)
  {
    BackoffDoublesUpToTheCap(attemptsBefore);
    BackoffDoublesUpToTheCap(0);
  }

  /** The status an answer leads to after `attemptsBefore` tries. */
  predicate LeadsTo(d: Delivery, attemptsBefore: nat, status: TargetStatus) {
    match d
    case Accepted(_) => status == Sent
    case Refused(kind, _) =>
      if kind == BlockedKind || kind == Deactivated then status == Blocked
      else if (kind == Flood || kind == Network) && attemptsBefore + 1 < 6 then status == Pending
      else status == Failed
  }

  /** The verdict an answer leads to: retries only while tries are left, `blocked` only for a recipient out of reach. */
  lemma VerdictsFollowAnswers(d: Delivery, attemptsBefore: nat, now: int)
    ensures var o := PlanOutcome(d, attemptsBefore, now);
            && LeadsTo(d, attemptsBefore, o.status) && o.attempts == attemptsBefore + 1
            && (o.nextAttemptAt.Some? <==> o.status == Pending)
            && (o.sentAt == if d.Accepted? then Some(now) else None)
            && (o.errorKind == if d.Refused? then Some(d.kind) else if d.unparsed then Some(SentUnparsed) else None)
  {
  }

  /** The answer at `time` is followed by another try at `next`. */
  predicate TriedAgain(d: Delivery, attemptsBefore: nat, time: int, next: int) {
    var o := PlanOutcome(d, attemptsBefore, time);
    o.status == Pending && o.nextAttemptAt.Some? && o.nextAttemptAt.value <= next
  }

  /** The answers one row gets, each no earlier than the retry the one before it was put off to. */
  predicate Tries(answers: seq<Delivery>, times: seq<int>) {
    && |answers| == |times|
    && forall i :: 0 <= i < |answers| - 1 ==> TriedAgain(answers[i], i, times[i], times[i + 1])
  }

  function Waits(n: nat): nat { if n == 0 then 0 else Waits(n - 1) + BACKOFF_BASE_SECONDS * Pow(2, n - 1) }

  /** A row is tried at most six times, and `n` tries are spread over at least 10 + 20 + 40 + ... seconds. */
  lemma {:induction false} TriesAreSpreadOut(answers: seq<Delivery>, times: seq<int>)
    requires Tries(answers, times) && answers != []
    ensures |answers| <= MAX_ATTEMPTS
    ensures times[|times| - 1] >= times[0] + Waits(|answers| - 1)
    ensures |answers| == MAX_ATTEMPTS ==>
      && times[|times| - 1] >= times[0] + 310
      && PlanOutcome(answers[|answers| - 1], |answers| - 1, times[|times| - 1]).status != Pending
    decreases |answers|
  {
    var n := |answers|;
    if n > 1 {
      assert TriedAgain(answers[n - 2], n - 2, times[n - 2], times[n - 1]);
      RetryWaitsLongEnough(answers[n - 2], n - 2, times[n - 2]);
      TriesAreSpreadOut(answers[..n - 1], times[..n - 1]);
      assert Waits(n - 1) == Waits(n - 2) + BACKOFF_BASE_SECONDS * Pow(2, n - 2);
    }
    assert Waits(2) == 30;
    assert Waits(4) == 150 by {
      assert Pow(2, 2) == 4;
    }
    assert Waits(5) == 310 by {
      assert Pow(2, 2) == 4;
    }
  }

  // ---- claiming ----

  /** A pending row the worker may take now: never tried, or its retry is due. */
  predicate Due(t: Target, now: int) {
    t.status == Pending && (t.nextAttemptAt.None? || t.nextAttemptAt.value <= now)
  }

  predicate Ascending(users: seq<UserId>) {
    forall i, j :: 0 <= i < j < |users| ==> users[i] < users[j]
  }

  /** `users` are the `limit` smallest due user ids (all of them when there are fewer), in order. */
  predicate IsClaim(targets: Targets, users: seq<UserId>, now: int, limit: nat) {
    && Ascending(users)
    && |users| <= limit
    && (forall u :: u in users ==> u in targets && Due(targets[u], now))
    && (forall u :: u in targets && Due(targets[u], now) && u !in users ==>
          |users| == limit && forall v :: v in users ==> v < u)
  }

  function Claimed(targets: Targets, users: seq<UserId>, now: int): Targets {
    map u | u in targets ::
      if u in users then targets[u].(status := Sending, claimedAt := Some(now)) else targets[u]
  }

  /** A claim takes due pending rows, the smallest ids first, as many as fit, and changes nothing else. */
  lemma ClaimTakesTheSmallestDue(targets: Targets, users: seq<UserId>, now: int, limit: nat)
    requires IsClaim(targets, users, now, limit)
    ensures var after := Claimed(targets, users, now);
            && after.Keys == targets.Keys && |users| <= limit
            && (forall i, j :: 0 <= i < j < |users| ==> users[i] < users[j])
            && (forall u :: u in users ==>
                  && u in targets && targets[u].status == Pending
                  && (targets[u].nextAttemptAt == None || targets[u].nextAttemptAt.value <= now)
                  && after[u] == targets[u].(status := Sending, claimedAt := Some(now)))
            && (forall u :: u in targets && u !in users ==> after[u] == targets[u])
            && (forall u :: u in targets && u !in users && targets[u].status == Pending
                            && (targets[u].nextAttemptAt == None || targets[u].nextAttemptAt.value <= now) ==>
                  |users| == limit && forall v :: v in users ==> v < u)
  {
    forall u | u in targets && u !in users && targets[u].status == Pending
               && (targets[u].nextAttemptAt == None || targets[u].nextAttemptAt.value <= now)
      ensures |users| == limit && forall v :: v in users ==> v < u
    {
      assert Due(targets[u], now);
    }
  }

  // ---- recording results ----

  function RecordedRow(o: Outcome, now: int): Target {
    Target(o.status, o.attempts, o.nextAttemptAt, None, o.errorKind, o.sentAt, Some(now))
  }

  function AttemptsBefore(attempts: map<UserId, nat>, u: UserId): nat {
    if u in attempts then attempts[u] else 0
  }

  function NewRow(r: SendResult, attempts: map<UserId, nat>, now: int): Target {
    RecordedRow(PlanOutcome(r.delivery, AttemptsBefore(attempts, r.user), now), now)
  }

  /** One UPDATE per result, in order; a user without a row matches nothing. */
  function RecordAll(targets: Targets, results: seq<SendResult>, attempts: map<UserId, nat>, now: int): Targets {
    if results == [] then targets
    else
      var before := RecordAll(targets, results[..|results| - 1], attempts, now);
      var r := results[|results| - 1];
      if r.user in before then before[r.user := NewRow(r, attempts, now)] else before
  }

  function Release(targets: Targets, released: seq<UserId>): Targets {
    map u | u in targets ::
      if u in released && targets[u].status == Sending
      then targets[u].(status := Pending, claimedAt := None)
      else targets[u]
  }

  function IsStatus(st: TargetStatus): Target -> nat { (t: Target) => if t.status == st then 1 else 0 }

  function IsContentFailure(): Target -> nat {
    (t: Target) => if t.status == Failed && t.errorKind.Some? && AboutContent(t.errorKind.value) then 1 else 0
  }

  /** What the row of a recipient holds after its answer has been written. */
  lemma WrittenRowFollowsTheAnswer(r: SendResult, attempts: map<UserId, nat>, now: int)
    ensures var row := NewRow(r, attempts, now);
            var before := if r.user in attempts then attempts[r.user] else 0;
            var d := r.delivery;
            && LeadsTo(d, before, row.status) && row.attempts == before + 1
            && row.claimedAt == None && row.lastAttemptAt == Some(now)
            && (row.sentAt == if d.Accepted? then Some(now) else None)
            && (row.errorKind == if d.Refused? then Some(d.kind) else if d.unparsed then Some(SentUnparsed) else None)
            && (row.nextAttemptAt.Some? <==> row.status == Pending)
            && (row.status == Pending ==> row.nextAttemptAt.value >= now + 10 * Pow(2, before))
            && (row.status == Pending && d.kind == Flood ==>
                  row.nextAttemptAt.value as real >= now as real + d.retryAfter)
  {
    var before := AttemptsBefore(attempts, r.user);
    VerdictsFollowAnswers(r.delivery, before, now);
    if NewRow(r, attempts, now).status == Pending {
      RetryWaitsLongEnough(r.delivery, before, now);
    }
  }

  /** How much `f` grows over the rows that `results` write. */
  function Count(results: seq<SendResult>, attempts: map<UserId, nat>, now: int, f: Target -> nat): nat {
    if results == [] then 0
    else Count(results[..|results| - 1], attempts, now, f) + f(NewRow(results[|results| - 1], attempts, now))
  }

  predicate AbortCondition(contentFailed: int, sent: int) {
    contentFailed >= EARLY_ABORT_MIN_FAILURES && 20 * contentFailed >= 19 * (sent + contentFailed)
  }

  function TriesBefore(r: SendResult, attempts: map<UserId, nat>): nat {
    if r.user in attempts then attempts[r.user] else 0
  }

  predicate UnreachableAnswer(d: Delivery) { d.Refused? && (d.kind == BlockedKind || d.kind == Deactivated) }

  /** Accepted by Telegram, out of reach, given up, and refused for the content: where in a batch. */
  function SentAt(results: seq<SendResult>): set<nat> {
    set i: nat | i < |results| && results[i].delivery.Accepted?
  }

  function BlockedAt(results: seq<SendResult>): set<nat> {
    set i: nat | i < |results| && UnreachableAnswer(results[i].delivery)
  }

  function FailedAt(results: seq<SendResult>, attempts: map<UserId, nat>): set<nat> {
    set i: nat | i < |results| && LeadsTo(results[i].delivery, TriesBefore(results[i], attempts), Failed)
  }

  function ContentAt(results: seq<SendResult>): set<nat> {
    set i: nat | i < |results| && results[i].delivery.Refused?
                 && (results[i].delivery.kind == BadRequest || results[i].delivery.kind == Other)
  }

  lemma {:induction false} CountIsSize(results: seq<SendResult>, attempts: map<UserId, nat>, now: int, f: Target -> nat,
      at: set<nat>)
    requires forall i :: 0 <= i < |results| ==> f(NewRow(results[i], attempts, now)) == if i in at then 1 else 0
    requires forall i :: i in at ==> i < |results|
    ensures Count(results, attempts, now, f) == |at|
  {
    if results == [] {
      assert at == {};
    } else {
      var n := |results| - 1;
      CountIsSize(results[..n], attempts, now, f, at - {n});
      if n in at {
        assert |at| == |at - {n}| + 1;
      } else {
        assert at - {n} == at;
      }
    }
  }

  /** The four counts of a batch are numbers of answers. */
  lemma CountsFollowTheAnswers(results: seq<SendResult>, attempts: map<UserId, nat>, now: int)
    ensures Count(results, attempts, now, IsStatus(Sent)) == |SentAt(results)|
    ensures Count(results, attempts, now, IsStatus(Failed)) == |FailedAt(results, attempts)|
    ensures Count(results, attempts, now, IsStatus(Blocked)) == |BlockedAt(results)|
    ensures Count(results, attempts, now, IsContentFailure()) == |ContentAt(results)|
  {
    forall i | 0 <= i < |results|
      ensures IsStatus(Sent)(NewRow(results[i], attempts, now)) == if i in SentAt(results) then 1 else 0
      ensures IsStatus(Failed)(NewRow(results[i], attempts, now)) == if i in FailedAt(results, attempts) then 1 else 0
      ensures IsStatus(Blocked)(NewRow(results[i], attempts, now)) == if i in BlockedAt(results) then 1 else 0
      ensures IsContentFailure()(NewRow(results[i], attempts, now)) == if i in ContentAt(results) then 1 else 0
    {
      WrittenRowFollowsTheAnswer(results[i], attempts, now);
    }
    CountIsSize(results, attempts, now, IsStatus(Sent), SentAt(results));
    CountIsSize(results, attempts, now, IsStatus(Failed), FailedAt(results, attempts));
    CountIsSize(results, attempts, now, IsStatus(Blocked), BlockedAt(results));
    CountIsSize(results, attempts, now, IsContentFailure(), ContentAt(results));
  }

  /** A write adds each answer to its counter; it aborts a job that may still send exactly if a recipient refused the
      content and by now 200 have, at least 95 percent of those who judged it. */
  lemma WriteCountsTheAnswers(job: Job, results: seq<SendResult>, released: seq<UserId>, attempts: map<UserId, nat>,
      now: int)
    ensures var after := WriteResults(job, results, released, attempts, now);
            && after.sent == job.sent + |SentAt(results)|
            && after.failed == job.failed + |FailedAt(results, attempts)|
            && after.blocked == job.blocked + |BlockedAt(results)|
            && after.contentFailed == job.contentFailed + |ContentAt(results)|
            && after.total == job.total && after.actor == job.actor && after.createdAt == job.createdAt
            && var aborts := ContentAt(results) != {} && job.status in {Queued, Running, JobStatus.Paused}
                             && after.contentFailed >= 200
                             && 100 * after.contentFailed >= 95 * (after.sent + after.contentFailed);
               after.status == (if aborts then Aborted else job.status)
               && after.finishedAt == if aborts then Some(now) else job.finishedAt
  {
    CountsFollowTheAnswers(results, attempts, now);
  }

  /** The transaction that persists a finished batch. */
  function WriteResults(job: Job, results: seq<SendResult>, released: seq<UserId>,
                        attempts: map<UserId, nat>, now: int): Job {
    var contentFailures := Count(results, attempts, now, IsContentFailure());
    var counted := job.(
      targets := Release(RecordAll(job.targets, results, attempts, now), released),
      sent := job.sent + Count(results, attempts, now, IsStatus(Sent)),
      failed := job.failed + Count(results, attempts, now, IsStatus(Failed)),
      blocked := job.blocked + Count(results, attempts, now, IsStatus(Blocked)),
      contentFailed := job.contentFailed + contentFailures);
    if contentFailures > 0
       && (job.Active() || job.status == Paused)
       && AbortCondition(counted.contentFailed, counted.sent)
    then counted.(status := Aborted, finishedAt := Some(now))
    else counted
  }

  /** The rows after a write: each answered recipient has its new row, each released one that was being sent to is
      pending again with nothing else changed, and every other row stays. */
  lemma WriteStoresTheRows(job: Job, results: seq<SendResult>, released: seq<UserId>, attempts: map<UserId, nat>,
      now: int)
    requires forall i, j :: 0 <= i < j < |results| ==> results[i].user != results[j].user
    requires forall i :: 0 <= i < |results| ==> results[i].user !in released
    ensures var after := WriteResults(job, results, released, attempts, now).targets;
            && after.Keys == job.targets.Keys
            && (forall i :: 0 <= i < |results| && results[i].user in job.targets ==>
                  after[results[i].user] == NewRow(results[i], attempts, now))
            && (forall u :: u in released && u in job.targets ==>
                  after[u] == if job.targets[u].status == Sending
                              then job.targets[u].(status := Pending, claimedAt := None) else job.targets[u])
            && (forall u :: u in job.targets && u !in released
                            && (forall i :: 0 <= i < |results| ==> results[i].user != u) ==>
                  after[u] == job.targets[u])
  {
    RecordAllRows(job.targets, results, attempts, now);
  }

  // ---- the other transactions ----

  function MarkRunning(job: Job): Job {
    if job.status == Queued then job.(status := Running) else job
  }

  function FinishDone(job: Job, now: int): Job {
    if job.Active() then job.(status := Done, finishedAt := Some(now)) else job
  }

  /** The unconditional finishing UPDATE the worker runs after it read `cancelled`. */
  function FinishCancelled(job: Job, now: int): Job {
    job.(status := Cancelled, finishedAt := Some(now))
  }

  predicate IsStale(t: Target, cutoff: int) {
    t.status == Sending && (t.claimedAt.None? || t.claimedAt.value < cutoff)
  }

  function ResetRow(t: Target, cutoff: int): Target {
    if IsStale(t, cutoff) then t.(status := Pending, claimedAt := None) else t
  }

  function ResetStale(targets: Targets, now: int, olderThan: int): Targets {
    map u | u in targets :: ResetRow(targets[u], now - olderThan)
  }

  datatype Action = Pause | Resume | Cancel

  function Allowed(a: Action): set<JobStatus> {
    match a
    case Pause => {Queued, Running}
    case Resume => {JobStatus.Paused}
    case Cancel => {Draft, Queued, Running, JobStatus.Paused}
  }

  function NewStatus(a: Action): JobStatus {
    match a
    case Pause => JobStatus.Paused
    case Resume => Queued
    case Cancel => Cancelled
  }

  /** `broadcast_control.set_broadcast_state`: the conditional UPDATE. */
  function SetState(job: Job, a: Action, now: int): Job {
    if job.status in Allowed(a) then
      job.(status := NewStatus(a), finishedAt := if a == Cancel then Some(now) else job.finishedAt)
    else job
  }

  /** Every action on every status: what it makes of the job. */
  lemma ActionTable(job: Job, now: int)
    ensures job.status in {Queued, Running} ==> SetState(job, Pause, now) == job.(status := JobStatus.Paused)
    ensures job.status !in {Queued, Running} ==> SetState(job, Pause, now) == job
    ensures job.status == JobStatus.Paused ==> SetState(job, Resume, now) == job.(status := Queued)
    ensures job.status != JobStatus.Paused ==> SetState(job, Resume, now) == job
    ensures job.status in {Draft, Queued, Running, JobStatus.Paused} ==>
      SetState(job, Cancel, now) == job.(status := Cancelled, finishedAt := Some(now))
    ensures job.status in {Done, Cancelled, Aborted} ==> SetState(job, Cancel, now) == job
    ensures !SetState(job, Pause, now).Active()
  {
  }

  /** The worker's own status changes, and the discarded draft. */
  lemma StatusTable(job: Job, now: int)
    ensures MarkRunning(job) == if job.status == Queued then job.(status := Running) else job
    ensures FinishDone(job, now)
         == if job.status == Queued || job.status == Running then job.(status := Done, finishedAt := Some(now)) else job
    ensures FinishCancelled(job, now) == job.(status := Cancelled, finishedAt := Some(now))
    ensures DiscardDraft(job, now)
         == if job.status == Draft then job.(status := Cancelled, finishedAt := Some(now)) else job
  {
  }

  /** Queueing a draft gives each recipient one pending row that was never tried. */
  lemma QueueingAddressesTheSegment(job: Job, actor: int, segment: set<UserId>)
    requires job.status == Draft && job.targets == map[]
    ensures var after := QueueDraft(job, actor, segment);
            if job.actor == actor && segment != {} then
              && after.status == Queued && after.total == |segment| && after.targets.Keys == segment
              && (forall u :: u in segment ==>
                    after.targets[u] == Target(Pending, 0, None, None, None, None, None))
              && after == job.(status := Queued, total := after.total, targets := after.targets)
            else after == job
  {
    var targets := Materialized(map[], segment);
    assert targets.Keys == segment && |targets| == |targets.Keys|;
    if segment != {} {
      var u := Member(segment);
      assert u in targets;
    } else {
      assert targets == map[];
    }
  }

  /** Resuming undoes a pause up to the queue; no admin action touches rows or counters, or revives a finished job. */
  lemma AdminActionsAreSafe(job: Job, a: Action, now: int, later: int)
    ensures job.Active() ==> SetState(SetState(job, Pause, now), Resume, later) == job.(status := Queued)
    ensures var after := SetState(job, a, now);
            && after.targets == job.targets && after.total == job.total && after.sent == job.sent
            && after.failed == job.failed && after.blocked == job.blocked && after.contentFailed == job.contentFailed
            && (job.Finished() ==> after == job)
            && (after.Active() ==> job.Active() || job.status == JobStatus.Paused)
            && (a == Cancel ==> after.Finished())
  {
  }

  const FRESH_TARGET := Target(Pending, 0, None, None, None, None, None)

  /** INSERT OR IGNORE of one pending row per recipient. */
  function Materialized(targets: Targets, segment: set<UserId>): Targets {
    (map u | u in segment :: FRESH_TARGET) + targets
  }

  /** `_queue_draft` after its read: conditional UPDATE, materialize, rollback when nobody is addressed. */
  function QueueDraft(job: Job, actor: int, segment: set<UserId>): Job {
    if job.status == Draft && job.actor == actor then
      var targets := Materialized(job.targets, segment);
      if |targets| == 0 then job else job.(status := Queued, total := |targets|, targets := targets)
    else job
  }

  /**
   * The panel's queue route, after a separate read saw `draft`: the rows are inserted first, and the
   * row count of the conditional UPDATE is not looked at.
   */
  function QueueFromPanel(job: Job, segment: set<UserId>): Job {
    var targets := Materialized(job.targets, segment);
    if |targets| == 0 then job
    else if job.status == Draft then job.(status := Queued, total := |targets|, targets := targets)
    else job.(targets := targets)
  }

  /** The panel keeps `total` equal to the rows exactly when its read was fresh or it adds nobody. */
  lemma QueueFromPanelKeepsTotal(job: Job, segment: set<UserId>)
    requires job.total == |job.targets|
    ensures var after := QueueFromPanel(job, segment);
            after.total == |after.targets| <==> job.status == Draft || segment <= job.targets.Keys
  {
    var targets := Materialized(job.targets, segment);
    assert targets.Keys == segment + job.targets.Keys;
    assert |targets| == |targets.Keys| && |job.targets| == |job.targets.Keys|;
    var added := segment - job.targets.Keys;
    assert targets.Keys == job.targets.Keys + added;
    assert |targets.Keys| == |job.targets.Keys| + |added|;
    assert segment <= job.targets.Keys ==> added == {};
    assert added == {} ==> segment <= job.targets.Keys by {
      assert forall u :: u in segment ==> u in job.targets.Keys || u in added;
    }
  }

  function DiscardDraft(job: Job, now: int): Job {
    if job.status == Draft then job.(status := Cancelled, finishedAt := Some(now)) else job
  }

  /** `(pending, sending)` both zero. */
  predicate Drained(targets: Targets) {
    forall u :: u in targets ==> targets[u].Terminal()
  }

  function NewJob(actor: int, createdAt: int): Job {
    Job(Draft, actor, createdAt, 0, 0, 0, 0, 0, None, map[])
  }

  // ---- what the transactions do to the table ----

  lemma {:induction false} RecordAllRows(targets: Targets, results: seq<SendResult>,
                                         attempts: map<UserId, nat>, now: int)
    requires forall i, j :: 0 <= i < j < |results| ==> results[i].user != results[j].user
    ensures var after := RecordAll(targets, results, attempts, now);
            && after.Keys == targets.Keys
            && (forall i :: 0 <= i < |results| && results[i].user in targets ==>
                  after[results[i].user] == NewRow(results[i], attempts, now))
            && (forall u :: u in targets && (forall i :: 0 <= i < |results| ==> results[i].user != u) ==>
                  after[u] == targets[u])
  {
    if results != [] {
      RecordAllRows(targets, results[..|results| - 1], attempts, now);
    }
  }

  /** What the rows of `results` had in a column. */
  function OldSum(targets: Targets, results: seq<SendResult>, f: Target -> nat): nat
    requires forall i :: 0 <= i < |results| ==> results[i].user in targets
  {
    if results == [] then 0
    else OldSum(targets, results[..|results| - 1], f) + f(targets[results[|results| - 1].user])
  }

  /** Writing results adds the new values to a column and takes the old ones away. */
  lemma {:induction false} RecordAllMoves(targets: Targets, results: seq<SendResult>,
                                          attempts: map<UserId, nat>, now: int, f: Target -> nat)
    requires forall i, j :: 0 <= i < j < |results| ==> results[i].user != results[j].user
    requires forall i :: 0 <= i < |results| ==> results[i].user in targets
    ensures Total(RecordAll(targets, results, attempts, now), f) + OldSum(targets, results, f)
         == Total(targets, f) + Count(results, attempts, now, f)
  {
    if results != [] {
      var front := results[..|results| - 1];
      var r := results[|results| - 1];
      RecordAllMoves(targets, front, attempts, now, f);
      var before := RecordAll(targets, front, attempts, now);
      assert r.user in before && before[r.user] == targets[r.user] by {
        RecordAllRows(targets, front, attempts, now);
      }
      TotalUpdate(before, r.user, NewRow(r, attempts, now), f);
    }
  }

  lemma {:induction false} NothingOld(targets: Targets, results: seq<SendResult>, f: Target -> nat)
    requires forall i :: 0 <= i < |results| ==> results[i].user in targets
    ensures OldSum(targets, results, f) == 0 <==> forall i :: 0 <= i < |results| ==> f(targets[results[i].user]) == 0
  {
    if results != [] {
      NothingOld(targets, results[..|results| - 1], f);
    }
  }

  /** Over rows that had nothing in a column, writing results moves its total by what they contribute. */
  lemma RecordAllTotal(targets: Targets, results: seq<SendResult>,
                        attempts: map<UserId, nat>, now: int, f: Target -> nat)
    requires forall i, j :: 0 <= i < j < |results| ==> results[i].user != results[j].user
    requires forall i :: 0 <= i < |results| ==> results[i].user in targets && f(targets[results[i].user]) == 0
    ensures Total(RecordAll(targets, results, attempts, now), f)
         == Total(targets, f) + Count(results, attempts, now, f)
  {
    RecordAllMoves(targets, results, attempts, now, f);
    NothingOld(targets, results, f);
  }
}
