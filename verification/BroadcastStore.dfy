/** The broadcast tables and the statements that change them, as one worker and the admins run them. */
module BroadcastStore {
  import opened Basics
  import opened Broadcast

  type JobId = int

  method Smallest(s: set<int>) returns (m: int)
    requires s != {}
    ensures m in s && forall x :: x in s ==> m <= x
  {
    ghost var some := Member(s);
    m :| m in s;
    var rest := s - {m};
    while rest != {}
      invariant rest <= s && m in s
      invariant forall x :: x in s && x !in rest ==> m <= x
      decreases |rest|
    {
      some := Member(rest);
      var x :| x in rest;
      rest := rest - {x};
      if x < m {
        m := x;
      }
    }
  }

  /** A job the picker may return: a pending row is due, or nothing is left to do. */
  predicate Pickable(job: Job, now: int) {
    && job.Active()
    && ((exists u :: u in job.targets && Due(job.targets[u], now))
        || (forall u :: u in job.targets ==> job.targets[u].Terminal()))
  }

  lemma OneMore(targets: Targets, results: seq<SendResult>, i: nat, attempts: map<UserId, nat>, now: int)
    requires i < |results|
    ensures var before := RecordAll(targets, results[..i], attempts, now);
            RecordAll(targets, results[..i + 1], attempts, now)
            == if results[i].user in before then before[results[i].user := NewRow(results[i], attempts, now)]
                else before
    ensures forall f :: Count(results[..i + 1], attempts, now, f)
                     == Count(results[..i], attempts, now, f) + f(NewRow(results[i], attempts, now))
  {
    assert results[..i + 1][..i] == results[..i];
  }

  /** The UPDATE of every result, in order. */
  method Execute(rows: Targets, results: seq<SendResult>, attempts: map<UserId, nat>, now: int)
      returns (targets: Targets)
    ensures targets == RecordAll(rows, results, attempts, now)
  {
    targets := rows;
    for i := 0 to |results|
      invariant targets == RecordAll(rows, results[..i], attempts, now)
    {
      OneMore(rows, results, i, attempts, now);
      var r := results[i];
      if r.user in targets {
        targets := targets[r.user := RecordedRow(PlanOutcome(r.delivery, AttemptsBefore(attempts, r.user), now), now)];
      }
    }
    assert results[..|results|] == results;
  }

  method CountOutcomes(results: seq<SendResult>, attempts: map<UserId, nat>, now: int)
      returns (sent: nat, failed: nat, blocked: nat, contentFailed: nat)
    ensures sent == Count(results, attempts, now, IsStatus(Sent)) == |SentAt(results)|
    ensures failed == Count(results, attempts, now, IsStatus(Failed)) == |FailedAt(results, attempts)|
    ensures blocked == Count(results, attempts, now, IsStatus(Blocked)) == |BlockedAt(results)|
    ensures contentFailed == Count(results, attempts, now, IsContentFailure()) == |ContentAt(results)|
  {
    CountsFollowTheAnswers(results, attempts, now);
    sent, failed, blocked, contentFailed := 0, 0, 0, 0;
    for i := 0 to |results|
      invariant sent == Count(results[..i], attempts, now, IsStatus(Sent))
      invariant failed == Count(results[..i], attempts, now, IsStatus(Failed))
      invariant blocked == Count(results[..i], attempts, now, IsStatus(Blocked))
      invariant contentFailed == Count(results[..i], attempts, now, IsContentFailure())
    {
      OneMore(map[], results, i, attempts, now);
      var r := results[i];
      var o := PlanOutcome(r.delivery, AttemptsBefore(attempts, r.user), now);
      if o.status == Sent {
        sent := sent + 1;
      } else if o.status == Blocked {
        blocked := blocked + 1;
      } else if o.status == Failed {
        failed := failed + 1;
        if AboutContent(r.delivery.kind) {
          contentFailed := contentFailed + 1;
        }
      }
    }
    assert results[..|results|] == results;
  }

  /** From which status an admin action may start. */
  predicate MayStart(a: Action, status: JobStatus) {
    match a
    case Pause => status == JobStatus.Queued || status == Running
    case Resume => status == JobStatus.Paused
    case Cancel => status == Draft || status == JobStatus.Queued || status == Running || status == JobStatus.Paused
  }

  datatype QueueReply = AlreadyQueued | Expired | EmptySegment | Queued(total: nat)

  /** Recipients for whom the results plan `st`. */
  function PlannedFor(results: seq<SendResult>, attempts: map<UserId, nat>, now: int, st: TargetStatus): set<UserId> {
    set i | 0 <= i < |results| && NewRow(results[i], attempts, now).status == st :: results[i].user
  }

  lemma FlagsFollowTheAnswers(results: seq<SendResult>, attempts: map<UserId, nat>, now: int)
    ensures PlannedFor(results, attempts, now, Blocked) == set i | i in BlockedAt(results) :: results[i].user
    ensures PlannedFor(results, attempts, now, Sent) == set i | i in SentAt(results) :: results[i].user
  {
    forall i | 0 <= i < |results|
      ensures NewRow(results[i], attempts, now).status == Blocked <==> i in BlockedAt(results)
      ensures NewRow(results[i], attempts, now).status == Sent <==> i in SentAt(results)
    {
      WrittenRowFollowsTheAnswer(results[i], attempts, now);
    }
  }

  /** `users.blocked` after a batch: set for whoever blocked the bot, cleared for whoever got the message. */
  function Flagged(flags: map<UserId, bool>, blocked: set<UserId>, sent: set<UserId>): map<UserId, bool> {
    map u | u in flags :: if u in sent then false else if u in blocked then true else flags[u]
  }

  /** Stale claims of all jobs. */
  function StaleClaims(jobs: map<JobId, Job>, cutoff: int): set<(JobId, UserId)> {
    set id, u | id in jobs && u in jobs[id].targets && IsStale(jobs[id].targets[u], cutoff) :: (id, u)
  }

  predicate WasQueued(job: Job) { job.status in {JobStatus.Queued, Running, JobStatus.Paused, Done} }

  /** `_draft_usable` */
  predicate Usable(job: Job, actor: int, now: int) {
    job.status == Draft && job.actor == actor && job.createdAt >= now - DRAFT_TTL_SECONDS
  }

  /** A draft of this admin, at most half an hour old. */
  predicate InTime(job: Job, actor: int, now: int) {
    job.status == Draft && job.actor == actor && now <= job.createdAt + 1_800
  }

  class BroadcastDb {
    var jobs: map<JobId, Job>
    /** `users.blocked` */
    var flags: map<UserId, bool>
    /** `media_file_id` of the jobs that have one. */
    var media: map<JobId, string>

    constructor (flags: map<UserId, bool>)
      ensures jobs == map[] && media == map[] && this.flags == flags
    {
      jobs, media := map[], map[];
      this.flags := flags;
    }

    /**
     * The conditional UPDATE is the claim on the draft: `found` is the job as others leave it between the read and
     * the UPDATE, and a draft that is gone by then is reported as queued.
     */
    method QueueDraft(id: JobId, actor: int, now: int, segment: set<UserId>, found: Option<Job>)
        returns (reply: QueueReply)
      modifies this`jobs
      ensures id !in old(jobs) ==> reply == Expired && jobs == old(jobs)
      ensures id in old(jobs) && !InTime(old(jobs)[id], actor, now) ==>
        && jobs == old(jobs)
        && reply == if old(jobs)[id].status in {Draft, Cancelled, Aborted} then Expired else AlreadyQueued
      ensures id in old(jobs) && InTime(old(jobs)[id], actor, now) ==>
        var job := if found.Some? then found.value else old(jobs)[id];
        var claimed := job.status == Draft && job.actor == actor;
        && jobs == old(jobs)[id := Broadcast.QueueDraft(job, actor, segment)]
        && (reply == AlreadyQueued <==> !claimed)
        && (reply == EmptySegment <==> claimed && Materialized(job.targets, segment) == map[])
        && (reply.Queued? <==> claimed && Materialized(job.targets, segment) != map[])
        && (reply.Queued? ==> jobs[id].status == JobStatus.Queued && reply.total == jobs[id].total > 0)
    {
      if id !in jobs {
        return Expired;
      }
      if WasQueued(jobs[id]) {
        return AlreadyQueued;
      }
      if !Usable(jobs[id], actor, now) {
        return Expired;
      }
      Meanwhile(id, found);
      var job := jobs[id];
      if job.status != Draft || job.actor != actor {
        return AlreadyQueued;
      }
      var targets := Materialized(job.targets, segment);
      if |targets| == 0 {
        return EmptySegment;
      }
      jobs := jobs[id := job.(status := JobStatus.Queued, total := |targets|, targets := targets)];
      return QueueReply.Queued(|targets|);
    }

    /** What others commit to a job between two statements. */
    method Meanwhile(id: JobId, found: Option<Job>)
      requires id in jobs
      modifies this`jobs
      ensures jobs == if found.Some? then old(jobs)[id := found.value] else old(jobs)
    {
      if found.Some? {
        jobs := jobs[id := found.value];
      }
    }

    /**
     * The panel's queue route. `found` is the job as others leave it between the read and the transaction, which
     * does not look at the row count of its UPDATE.
     */
    method QueueFromPanel(id: JobId, segment: set<UserId>, found: Option<Job>) returns (total: Option<nat>)
      requires id in jobs
      modifies this`jobs
      ensures old(jobs)[id].status != Draft ==> total == None && jobs == old(jobs)
      ensures old(jobs)[id].status == Draft ==>
        var job := if found.Some? then found.value else old(jobs)[id];
        && jobs == old(jobs)[id := Broadcast.QueueFromPanel(job, segment)]
        && (total.Some? <==> Materialized(job.targets, segment) != map[])
        && (total.Some? ==> total.value == |jobs[id].targets|)
    {
      if jobs[id].status != Draft {
        return None;
      }
      Meanwhile(id, found);
      var job := jobs[id];
      var targets := Materialized(job.targets, segment);
      if |targets| == 0 {
        return None;
      }
      jobs := jobs[id := job.(targets := targets)];
      if job.status == Draft {
        jobs := jobs[id := jobs[id].(status := JobStatus.Queued, total := |targets|)];
      }
      return Some(|targets|);
    }

    /** The action is applied to the job as it is by then; the reply names the status that was read. */
    method SetBroadcastState(id: JobId, action: Action, now: int, found: Option<Job>)
        returns (change: Option<(JobStatus, JobStatus)>)
      modifies this`jobs
      ensures id !in old(jobs) ==> change == None && jobs == old(jobs)
      ensures id in old(jobs) && !MayStart(action, old(jobs)[id].status) ==> change == None && jobs == old(jobs)
      ensures id in old(jobs) && MayStart(action, old(jobs)[id].status) ==>
        var job := if found.Some? then found.value else old(jobs)[id];
        && jobs == old(jobs)[id := SetState(job, action, now)]
        && (if !MayStart(action, job.status) then change == None && jobs[id] == job
            else
              match action
              case Pause => jobs[id] == job.(status := JobStatus.Paused)
                            && change == Some((old(jobs)[id].status, JobStatus.Paused))
              case Resume => jobs[id] == job.(status := JobStatus.Queued)
                             && change == Some((old(jobs)[id].status, JobStatus.Queued))
              case Cancel => jobs[id] == job.(status := Cancelled, finishedAt := Some(now))
                             && change == Some((old(jobs)[id].status, Cancelled)))
    {
      if id !in jobs || jobs[id].status !in Allowed(action) {
        return None;
      }
      var oldStatus := jobs[id].status;
      Meanwhile(id, found);
      var job := jobs[id];
      if job.status !in Allowed(action) {
        return None;
      }
      var finishedAt := if NewStatus(action) == Cancelled then Some(now) else job.finishedAt;
      jobs := jobs[id := job.(status := NewStatus(action), finishedAt := finishedAt)];
      return Some((oldStatus, NewStatus(action)));
    }

    /** The oldest active job this worker can make progress on. */
    method NextBroadcastId(now: int) returns (next: Option<JobId>)
      ensures next.None? ==> forall id :: id in jobs ==> !Pickable(jobs[id], now)
      ensures next.Some? ==> next.value in jobs && Pickable(jobs[next.value], now)
      ensures next.Some? ==> forall id :: id in jobs && Pickable(jobs[id], now) ==> next.value <= id
      ensures forall id :: id in jobs ==>
        (Pickable(jobs[id], now) <==>
          && (jobs[id].status == JobStatus.Queued || jobs[id].status == Running)
          && ((exists u :: u in jobs[id].targets && jobs[id].targets[u].status == Pending
                           && (|| jobs[id].targets[u].nextAttemptAt == None
                               || jobs[id].targets[u].nextAttemptAt.value <= now))
              || forall u :: u in jobs[id].targets ==> jobs[id].targets[u].status !in {Pending, Sending}))
    {
      var ids := set id | id in jobs && Pickable(jobs[id], now);
      if ids == {} {
        assert forall id :: id in jobs && Pickable(jobs[id], now) ==> id in ids;
        return None;
      }
      var id := Smallest(ids);
      assert forall other :: other in jobs && Pickable(jobs[other], now) ==> other in ids;
      return Some(id);
    }

    method ClaimWithAttempts(id: JobId, limit: nat, now: int) returns (claimed: seq<UserId>, attempts: map<UserId, nat>)
      requires id in jobs
      modifies this`jobs
      ensures IsClaim(old(jobs)[id].targets, claimed, now, limit)
      ensures jobs == old(jobs)[id := old(jobs)[id].(targets := Claimed(old(jobs)[id].targets, claimed, now))]
      ensures attempts == map u | u in old(jobs)[id].targets && u in claimed :: old(jobs)[id].targets[u].attempts
      ensures forall u :: u in claimed ==>
        u in jobs[id].targets && old(jobs)[id].targets[u].status == Pending && jobs[id].targets[u].status == Sending
    {
      var targets := jobs[id].targets;
      var due := set u | u in targets && Due(targets[u], now);
      claimed := [];
      while |claimed| < limit && due != {}
        invariant |claimed| <= limit && Ascending(claimed)
        invariant forall u :: u in claimed ==> u in targets && Due(targets[u], now) && u !in due
        invariant forall u :: u in targets && Due(targets[u], now) ==> u in claimed || u in due
        invariant forall u, i :: u in due && 0 <= i < |claimed| ==> claimed[i] < u
        invariant jobs == old(jobs)
        invariant forall u :: u in due ==> u in targets && Due(targets[u], now)
        decreases limit - |claimed|
      {
        var u := Smallest(due);
        claimed := claimed + [u];
        due := due - {u};
      }
      attempts := map u | u in targets && u in claimed :: targets[u].attempts;
      jobs := jobs[id := jobs[id].(targets := Claimed(targets, claimed, now))];
    }

    /** The rows and counters of a batch, and the early abort. */
    method WriteJob(id: JobId, results: seq<SendResult>, released: seq<UserId>, attempts: map<UserId, nat>, now: int)
        returns (aborted: bool)
      requires id in jobs
      modifies this`jobs
      ensures jobs == old(jobs)[id := Broadcast.WriteResults(old(jobs)[id], results, released, attempts, now)]
      ensures aborted <==> jobs[id].status == Aborted && old(jobs)[id].status != Aborted
    {
      var job := jobs[id];
      var targets := Execute(job.targets, results, attempts, now);
      var sent, failed, blocked, contentFailed := CountOutcomes(results, attempts, now);
      targets := Release(targets, released);
      var counted := job.(targets := targets, sent := job.sent + sent, failed := job.failed + failed,
                          blocked := job.blocked + blocked, contentFailed := job.contentFailed + contentFailed);
      aborted := contentFailed > 0 && counted.status in {JobStatus.Queued, Running, JobStatus.Paused}
                 && AbortCondition(counted.contentFailed, counted.sent);
      jobs := jobs[id := if aborted then counted.(status := Aborted, finishedAt := Some(now)) else counted];
    }

    method WriteResults(id: JobId, results: seq<SendResult>, fileId: Option<string>, released: seq<UserId>,
                        attempts: map<UserId, nat>, now: int) returns (aborted: bool)
      requires id in jobs
      modifies this
      ensures jobs == old(jobs)[id := Broadcast.WriteResults(old(jobs)[id], results, released, attempts, now)]
      ensures aborted <==> jobs[id].status == Aborted && old(jobs)[id].status != Aborted
      ensures jobs[id].sent == old(jobs)[id].sent + |SentAt(results)|
      ensures jobs[id].failed == old(jobs)[id].failed + |FailedAt(results, attempts)|
      ensures jobs[id].blocked == old(jobs)[id].blocked + |BlockedAt(results)|
      ensures jobs[id].contentFailed == old(jobs)[id].contentFailed + |ContentAt(results)|
      ensures flags.Keys == old(flags).Keys
      ensures forall u :: u in flags ==>
        flags[u] == if exists i :: i in SentAt(results) && results[i].user == u then false
                    else if exists i :: i in BlockedAt(results) && results[i].user == u then true
                    else old(flags)[u]
      ensures media == if fileId.Some? && id !in old(media) then old(media)[id := fileId.value] else old(media)
    {
      WriteCountsTheAnswers(jobs[id], results, released, attempts, now);
      FlagsFollowTheAnswers(results, attempts, now);
      aborted := WriteJob(id, results, released, attempts, now);
      flags := Flagged(flags, PlannedFor(results, attempts, now, Blocked), {});
      flags := Flagged(flags, {}, PlannedFor(results, attempts, now, Sent));
      if fileId.Some? && id !in media {
        media := media[id := fileId.value];
      }
    }

    /** Claims older than the limit go back to `pending`, every other row stays; returns how many went back. */
    method ResetStaleClaims(now: int, olderThan: int) returns (restored: nat)
      modifies this`jobs
      ensures restored == |StaleClaims(old(jobs), now - olderThan)| && StaleClaims(jobs, now - olderThan) == {}
      ensures jobs.Keys == old(jobs).Keys
      ensures forall id :: id in jobs ==>
        jobs[id] == old(jobs)[id].(targets := ResetStale(old(jobs)[id].targets, now, olderThan))
      ensures forall id :: id in jobs ==> jobs[id].targets.Keys == old(jobs)[id].targets.Keys
      ensures forall id, u :: id in jobs && u in jobs[id].targets ==>
        var row := old(jobs)[id].targets[u];
        && ((id, u) in StaleClaims(old(jobs), now - olderThan) <==>
              row.status == Sending && (row.claimedAt == None || row.claimedAt.value < now - olderThan))
        && jobs[id].targets[u] == if (id, u) in StaleClaims(old(jobs), now - olderThan)
                                  then row.(status := Pending, claimedAt := None) else row
    {
      restored := |StaleClaims(jobs, now - olderThan)|;
      jobs := map id | id in jobs :: jobs[id].(targets := ResetStale(jobs[id].targets, now, olderThan));
    }
  }
}
