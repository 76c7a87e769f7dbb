/** Runs that break one assumption, and the guarantee that goes with it. */
module BroadcastLimits {
  import opened Basics
  import opened Broadcast
  import opened BroadcastProtocol
  import opened BroadcastOwnership
  import opened BroadcastTheorems

  /** Fresh reads, but a worker may write late. */
  const LATE := Rules(false, true)

  /** Writes in time, but the panel may act on a stale read. */
  const STALE_READ := Rules(true, false)

  const FLOOD := Refused(Flood, 1.0)

  // ---------------------------------------------------------------- a job with one recipient

  lemma Then(first: State, events: seq<Event>, s: State, e: Event, rules: Rules) returns (more: seq<Event>, t: State)
    requires Reached(first, events, s, rules) && Enabled(s, e) && rules.Allow(s, e)
    ensures more == events + [e] && t == Step(s, e) && Reached(first, more, t, rules)
  {
    ReachedThen(first, events, s, e, rules);
    more, t := events + [e], Step(s, e);
  }

  /** A running job with the one recipient 7, and no counter moved yet but `sent`. */
  predicate OneRow(s: State, row: Target) {
    s.job.targets == map[7 := row] && s.job.status == Running && s.job.total == 1
  }

  predicate HoldsClaim(s: State, w: WorkerId, at: int) { s.At(w) == Mailing(Batch([7], map[7 := 0], at, [], false)) }

  predicate HoldsAnswer(s: State, w: WorkerId, at: int, d: Delivery) {
    s.At(w) == Mailing(Batch([7], map[7 := 0], at, [SendResult(7, d)], false))
  }

  lemma QueuedForOne(rules: Rules) returns (events: seq<Event>, t: State)
    ensures Reached(Init(0, 0), events, t, rules)
    ensures t == State(0, Init(0, 0).job.(status := Queued, total := 1, targets := map[7 := FRESH_TARGET]),
                       map[], 0, map[], 1, map[])
  {
    var first := Init(0, 0);
    events, t := Then(first, [], first, Queue(0, {7}), rules);
    assert t.job.targets == map[7 := FRESH_TARGET];
  }

  lemma StartOn(first: State, events: seq<Event>, s: State, w: WorkerId, rules: Rules)
      returns (more: seq<Event>, t: State)
    requires Reached(first, events, s, rules) && s.At(w) == Idle && s.job.Active()
    ensures Reached(first, more, t, rules)
    ensures t == s.(workers := t.workers, job := s.job.(status := Running)) && t.At(w) == ReadyToClaim
    ensures forall v :: v != w ==> t.At(v) == s.At(v)
  {
    more, t := Then(first, events, s, Start(w), rules);
    more, t := Then(first, more, t, Load(w), rules);
    if t.At(w) == SawQueued {
      more, t := Then(first, more, t, Mark(w), rules);
    }
  }

  lemma ClaimSeven(first: State, events: seq<Event>, s: State, w: WorkerId, rules: Rules)
      returns (more: seq<Event>, t: State)
    requires Reached(first, events, s, rules) && s.At(w) == ReadyToClaim
    requires s.job.targets.Keys == {7} && Due(s.job.targets[7], s.now)
    ensures Reached(first, more, t, rules) && |more| > 0 && more[|more| - 1] == Claim(w, [7])
    ensures t.At(w) == Mailing(Batch([7], map[7 := s.job.targets[7].attempts], s.now, [], false))
    ensures t == s.(workers := t.workers, job := s.job.(targets := Claimed(s.job.targets, [7], s.now)))
    ensures forall v :: v != w ==> t.At(v) == s.At(v)
  {
    assert IsClaim(s.job.targets, [7], s.now, BATCH_SIZE);
    more, t := Then(first, events, s, Claim(w, [7]), rules);
    assert t.At(w).batch.attempts == map[7 := s.job.targets[7].attempts];
  }

  lemma GetAnswer(first: State, events: seq<Event>, s: State, w: WorkerId, d: Delivery, rules: Rules)
      returns (more: seq<Event>, t: State)
    requires Reached(first, events, s, rules) && HoldsClaim(s, w, s.now)
    ensures Reached(first, more, t, rules) && HoldsAnswer(t, w, s.now, d) && t == s.(workers := t.workers)
    ensures forall v :: v != w ==> t.At(v) == s.At(v)
  {
    more, t := Then(first, events, s, SendStart(w), rules);
    more, t := Then(first, more, t, SendDone(w, d), rules);
  }

  /** Worker `w` claims recipient 7 and gets `d` for an answer. */
  lemma Answered(first: State, events: seq<Event>, s: State, w: WorkerId, d: Delivery, rules: Rules)
      returns (more: seq<Event>, t: State)
    requires Reached(first, events, s, rules) && s.At(w) == Idle && s.job.Active()
    requires s.job.targets == map[7 := FRESH_TARGET]
    ensures Reached(first, more, t, rules) && HoldsAnswer(t, w, s.now, d)
    ensures t == s.(workers := t.workers, job := t.job)
    ensures t.job == s.job.(status := Running,
                            targets := map[7 := FRESH_TARGET.(status := Sending, claimedAt := Some(s.now))])
    ensures forall v :: v != w ==> t.At(v) == s.At(v)
  {
    more, t := StartOn(first, events, s, w, rules);
    more, t := ClaimSeven(first, more, t, w, rules);
    assert t.job.targets == map[7 := FRESH_TARGET.(status := Sending, claimedAt := Some(s.now))];
    more, t := GetAnswer(first, more, t, w, d, rules);
  }

  /** Writing a single result. */
  lemma RecordSingle(targets: Targets, r: SendResult, attempts: map<UserId, nat>, now: int)
    requires targets.Keys == {r.user}
    ensures Release(RecordAll(targets, [r], attempts, now), []) == map[r.user := NewRow(r, attempts, now)]
  {
    assert [r][..0] == [];
    assert RecordAll(targets, [], attempts, now) == targets;
    assert RecordAll(targets, [r], attempts, now) == targets[r.user := NewRow(r, attempts, now)];
  }

  lemma CountSingle(r: SendResult, attempts: map<UserId, nat>, now: int, f: Target -> nat)
    ensures Count([r], attempts, now, f) == f(NewRow(r, attempts, now))
  {
    assert [r][..0] == [];
  }

  lemma TallySingle(counts: map<UserId, nat>, r: SendResult)
    ensures Tally(counts, [r]) == counts[r.user := 1 + if r.user in counts then counts[r.user] else 0]
  {
    assert [r][..0] == [];
  }

  /** A write of the one answer: row 7 gets its outcome. */
  lemma WriteOne(s: State, w: WorkerId, at: int, d: Delivery)
    requires HoldsAnswer(s, w, at, d) && s.job.targets.Keys == {7} && (d.Accepted? || d == FLOOD)
    ensures var t := Step(s, Write(w, false));
            && t.job == s.job.(targets := map[7 := NewRow(SendResult(7, d), map[7 := 0], s.now)],
                               sent := s.job.sent + if d.Accepted? then 1 else 0)
            && t.now == s.now && t.recorded == s.recorded + 1 && t.RecordedFor(7) == s.RecordedFor(7) + 1
            && t.At(w) == Idle && forall v :: v != w ==> t.At(v) == s.At(v)
  {
    var b := s.At(w).batch;
    var r := SendResult(7, d);
    assert b.Released() == [];
    RecordSingle(s.job.targets, r, b.attempts, s.now);
    CountSingle(r, b.attempts, s.now, IsStatus(Sent));
    CountSingle(r, b.attempts, s.now, IsStatus(Failed));
    CountSingle(r, b.attempts, s.now, IsStatus(Blocked));
    CountSingle(r, b.attempts, s.now, IsContentFailure());
    TallySingle(s.recordedFor, r);
  }

  /** What an answer makes of a row that was never tried. */
  lemma FirstOutcome(now: int)
    ensures NewRow(SendResult(7, Accepted(false)), map[7 := 0], now).status == Sent
    ensures var row := NewRow(SendResult(7, FLOOD), map[7 := 0], now);
            row.status == Pending && row.nextAttemptAt == Some(now + 10)
  {
    BackoffDoublesUpToTheCap(0);
    assert Ceil(1.0) == 1;
  }

  // ---------------------------------------------------------------- many workers with one recipient

  /** The claims follow each other by more than ten minutes. */
  function ClaimTime(k: int): int { 601 * (k - 1) }

  predicate HoldsNth(s: State, answers: seq<Delivery>, k: int)
    requires 1 <= k <= |answers|
  {
    HoldsAnswer(s, k, ClaimTime(k), answers[k - 1])
  }

  /** Workers 1 to `n` each hold an answer for recipient 7; the claims of all but the last are stale. */
  ghost predicate AllAnswered(s: State, answers: seq<Delivery>) {
    && (forall k :: 1 <= k <= |answers| ==> HoldsNth(s, answers, k))
    && (forall k :: k > |answers| ==> s.At(k) == Idle)
    && s.now == ClaimTime(|answers|)
    && OneRow(s, FRESH_TARGET.(status := Sending, claimedAt := Some(s.now)))
    && s.job.sent == 0 && s.recorded == 0 && s.RecordedFor(7) == 0
  }

  /** Ten minutes later the claim is stale, and the row is free again. */
  lemma ClaimGoesStale(first: State, events: seq<Event>, s: State, rules: Rules) returns (more: seq<Event>, t: State)
    requires Reached(first, events, s, rules) && OneRow(s, FRESH_TARGET.(status := Sending, claimedAt := Some(s.now)))
    ensures Reached(first, more, t, rules)
    ensures t == s.(now := s.now + 601, job := s.job.(targets := map[7 := FRESH_TARGET]))
  {
    more, t := Then(first, events, s, Tick(601), rules);
    more, t := Then(first, more, t, ResetClaims, rules);
    assert t.job.targets == map[7 := FRESH_TARGET];
  }

  lemma NextAnswer(first: State, events: seq<Event>, s: State, answers: seq<Delivery>, d: Delivery, rules: Rules)
      returns (more: seq<Event>, t: State)
    requires Reached(first, events, s, rules) && AllAnswered(s, answers)
    ensures Reached(first, more, t, rules) && AllAnswered(t, answers + [d])
  {
    var n := |answers|;
    more, t := ClaimGoesStale(first, events, s, rules);
    assert t.At(n + 1) == s.At(n + 1) && t.job.Active();
    ghost var free := t;
    more, t := Answered(first, more, t, n + 1, d, rules);
    forall k | 1 <= k <= n + 1
      ensures HoldsNth(t, answers + [d], k)
    {
      if k <= n {
        assert HoldsNth(s, answers, k);
        assert t.At(k) == free.At(k) == s.At(k);
      }
    }
    forall k | k > n + 1
      ensures t.At(k) == Idle
    {
      assert t.At(k) == free.At(k) == s.At(k);
    }
  }

  lemma FirstAnswer(d: Delivery, rules: Rules) returns (events: seq<Event>, t: State)
    ensures Reached(Init(0, 0), events, t, rules) && AllAnswered(t, [d])
  {
    events, t := QueuedForOne(rules);
    ghost var queued := t;
    events, t := Answered(Init(0, 0), events, t, 1, d, rules);
    assert forall k :: k > 1 ==> t.At(k) == queued.At(k);
    assert HoldsNth(t, [d], 1);
  }

  lemma {:induction false} Answers(answers: seq<Delivery>, rules: Rules) returns (events: seq<Event>, t: State)
    requires |answers| > 0
    ensures Reached(Init(0, 0), events, t, rules) && AllAnswered(t, answers)
    decreases |answers|
  {
    ghost var front, last := answers[..|answers| - 1], answers[|answers| - 1];
    assert front + [last] == answers;
    if front == [] {
      assert [last] == answers;
      events, t := FirstAnswer(last, rules);
    } else {
      events, t := Answers(front, rules);
      events, t := NextAnswer(Init(0, 0), events, t, front, last, rules);
    }
  }

  /** Worker `w` commits `done` on a job whose one row has a verdict. */
  lemma Finish(first: State, events: seq<Event>, s: State, w: WorkerId, rules: Rules)
      returns (more: seq<Event>, t: State)
    requires Reached(first, events, s, rules) && s.At(w) == Idle && s.job.status == Running
    requires s.job.targets.Keys == {7} && s.job.targets[7].Terminal()
    ensures Reached(first, more, t, rules) && t.now == s.now
    ensures t.job == FinishDone(s.job, s.now) && t.job.status == Done
    ensures forall v :: v != w ==> t.At(v) == s.At(v)
  {
    more, t := StartOn(first, events, s, w, rules);
    more, t := FindDrained(first, more, t, w, rules);
    more, t := Then(first, more, t, CommitDone(w), rules);
  }

  lemma FindDrained(first: State, events: seq<Event>, s: State, w: WorkerId, rules: Rules)
      returns (more: seq<Event>, t: State)
    requires Reached(first, events, s, rules) && s.At(w) == ReadyToClaim
    requires s.job.targets.Keys == {7} && s.job.targets[7].Terminal()
    ensures Reached(first, more, t, rules) && t == s.(workers := t.workers) && t.At(w) == SawDrained
    ensures forall v :: v != w ==> t.At(v) == s.At(v)
  {
    assert IsClaim(s.job.targets, [], s.now, BATCH_SIZE);
    more, t := Then(first, events, s, Claim(w, []), rules);
    more, t := Then(first, more, t, ReadRemaining(w), rules);
  }

  // ---------------------------------------------------------------- without the timing rule

  /** The write of one answer, as the next event of a run. */
  lemma WriteNext(first: State, events: seq<Event>, s: State, w: WorkerId, at: int, d: Delivery)
      returns (more: seq<Event>, t: State)
    requires Reached(first, events, s, LATE) && HoldsAnswer(s, w, at, d)
    requires s.job.targets.Keys == {7} && (d.Accepted? || d == FLOOD)
    ensures Reached(first, more, t, LATE) && t.now == s.now
    ensures t.job == s.job.(targets := map[7 := NewRow(SendResult(7, d), map[7 := 0], s.now)],
                            sent := s.job.sent + if d.Accepted? then 1 else 0)
    ensures t.recorded == s.recorded + 1 && t.RecordedFor(7) == s.RecordedFor(7) + 1
    ensures t.At(w) == Idle && forall v :: v != w ==> t.At(v) == s.At(v)
  {
    WriteOne(s, w, at, d);
    ReachedThen(first, events, s, Write(w, false), LATE);
    more, t := events + [Write(w, false)], Step(s, Write(w, false));
  }

  /** Workers 1 to `m` write their answers, `Accepted` all of them. */
  lemma {:induction false} WriteAll(first: State, events: seq<Event>, s: State, answers: seq<Delivery>, m: nat)
      returns (more: seq<Event>, t: State)
    requires Reached(first, events, s, LATE) && |answers| > 0 && AllAnswered(s, answers) && m <= |answers|
    requires forall d :: d in answers ==> d == Accepted(false)
    ensures Reached(first, more, t, LATE)
    ensures t.job.total == 1 && t.job.targets.Keys == {7} && t.job.sent == t.recorded == t.RecordedFor(7) == m
    ensures forall k :: k > m ==> t.At(k) == s.At(k)
    decreases m
  {
    if m == 0 {
      assert s.job.targets.Keys == {7};
      return events, s;
    }
    more, t := WriteAll(first, events, s, answers, m - 1);
    assert HoldsNth(s, answers, m) && answers[m - 1] in answers;
    more, t := WriteNext(first, more, t, m, ClaimTime(m), Accepted(false));
    assert t.job.targets.Keys == {7};
  }

  /** Late writes count a delivery again: `sent` exceeds `total`, which is 1. */
  lemma LateWriteCountsTwice() returns (events: seq<Event>, t: State)
    ensures Run(Init(0, 0), events, t, LATE) && t.job.total == 1 && t.job.sent == 2
    ensures t.job.sent != |WithStatus(t.job.targets, Sent)|
  {
    events, t := Answers([Accepted(false), Accepted(false)], LATE);
    events, t := WriteAll(Init(0, 0), events, t, [Accepted(false), Accepted(false)], 2);
    OneKey(t.job.targets, Sent);
  }

  lemma OneKey(targets: Targets, st: TargetStatus)
    requires targets.Keys == {7}
    ensures |WithStatus(targets, st)| <= 1
  {
    assert WithStatus(targets, st) == {} || WithStatus(targets, st) == {7};
  }

  /** Late writes record more than six results for a recipient, and for the job. */
  lemma LateWritesExceedTheAttempts() returns (events: seq<Event>, t: State)
    ensures Run(Init(0, 0), events, t, LATE)
    ensures t.RecordedFor(7) > MAX_ATTEMPTS && t.recorded > MAX_ATTEMPTS * t.job.total
  {
    var answers := seq(7, _ => Accepted(false));
    events, t := Answers(answers, LATE);
    events, t := WriteAll(Init(0, 0), events, t, answers, 7);
  }

  /** Worker 1 was told to wait, worker 2 delivers and writes the verdict. */
  lemma VerdictBeforeLateWrite() returns (events: seq<Event>, t: State)
    ensures Reached(Init(0, 0), events, t, LATE)
    ensures t.job.targets.Keys == {7} && t.job.targets[7].status == Sent && t.job.status == Running
    ensures HoldsAnswer(t, 1, 0, FLOOD) && t.At(2) == Idle && t.At(3) == Idle
  {
    var answers := [FLOOD, Accepted(false)];
    events, t := Answers(answers, LATE);
    assert HoldsNth(t, answers, 1) && HoldsNth(t, answers, 2);
    assert t.At(3) == Idle && t.job.targets.Keys == {7};
    FirstOutcome(t.now);
    events, t := WriteNext(Init(0, 0), events, t, 2, 601, Accepted(false));
  }

  /** A late write takes the verdict back, so that a `done` job has a recipient without one. */
  lemma LateWriteReopensADoneJob() returns (events: seq<Event>, t: State)
    ensures Run(Init(0, 0), events, t, LATE) && t.job.status == Done && !Drained(t.job.targets)
  {
    events, t := VerdictBeforeLateWrite();
    events, t := Finish(Init(0, 0), events, t, 2, LATE);
    FirstOutcome(t.now);
    events, t := WriteNext(Init(0, 0), events, t, 1, 0, FLOOD);
    assert !t.job.targets[7].Terminal();
  }

  /** Ten seconds after a late flood write worker 3 claims the row. */
  lemma ClaimAfterLateFlood(first: State, events: seq<Event>, s: State) returns (more: seq<Event>, t: State)
    requires Reached(first, events, s, LATE) && HoldsAnswer(s, 1, 0, FLOOD)
    requires s.job.targets.Keys == {7} && s.job.status == Running && s.At(3) == Idle
    ensures Reached(first, more, t, LATE) && |more| > 0 && more[|more| - 1] == Claim(3, [7])
    ensures t.now == s.now + 10 && t.At(2) == s.At(2)
    ensures HasLiveBatch(t, 3) && t.workers[3].batch.users == [7]
  {
    FirstOutcome(s.now);
    more, t := WriteNext(first, events, s, 1, 0, FLOOD);
    more, t := ClaimLater(first, more, t);
  }

  lemma ClaimLater(first: State, events: seq<Event>, s: State) returns (more: seq<Event>, t: State)
    requires Reached(first, events, s, LATE) && s.job.status == Running && s.At(3) == Idle
    requires s.job.targets.Keys == {7} && s.job.targets[7].status == Pending
    requires s.job.targets[7].nextAttemptAt == Some(s.now + 10)
    ensures Reached(first, more, t, LATE) && |more| > 0 && more[|more| - 1] == Claim(3, [7])
    ensures t.now == s.now + 10 && t.At(2) == s.At(2)
    ensures HasLiveBatch(t, 3) && t.workers[3].batch.users == [7]
  {
    more, t := Then(first, events, s, Tick(10), LATE);
    assert t.At(3) == s.At(3) && t.At(2) == s.At(2);
    more, t := StartOn(first, more, t, 3, LATE);
    more, t := ClaimSeven(first, more, t, 3, LATE);
  }

  /** After a late write a recipient with a verdict is claimed again. */
  lemma LateWriteUndoesAVerdict() returns (before: seq<Event>, s: State, later: seq<Event>, t: State)
    ensures Run(Init(0, 0), before, s, LATE) && 7 in s.job.targets && s.job.targets[7].Terminal()
    ensures Run(s, later, t, LATE) && |later| > 0 && later[|later| - 1] == Claim(3, [7])
  {
    before, s := VerdictBeforeLateWrite();
    assert Reached(s, [], s, LATE);
    later, t := ClaimAfterLateFlood(s, [], s);
  }

  /** After a late write two workers hold the same recipient. */
  lemma LateWriteSharesAClaim() returns (events: seq<Event>, t: State)
    ensures Run(Init(0, 0), events, t, LATE) && !Exclusive(t)
  {
    var answers := [FLOOD, FLOOD];
    events, t := Answers(answers, LATE);
    assert HoldsNth(t, answers, 1) && HoldsNth(t, answers, 2) && t.At(3) == Idle;
    events, t := ClaimAfterLateFlood(Init(0, 0), events, t);
    assert HasLiveBatch(t, 2) && 7 in t.workers[2].batch.users;
    assert HasLiveBatch(t, 3) && 7 in t.workers[3].batch.users;
  }

  // ---------------------------------------------------------------- without fresh reads

  /** A job whose one recipient got the message, and which is `done`. */
  lemma DoneInTime() returns (events: seq<Event>, t: State)
    ensures Reached(Init(0, 0), events, t, STALE_READ)
    ensures t.job.status == Done && t.job.targets.Keys == {7} && t.job.total == 1
  {
    events, t := FirstAnswer(Accepted(false), STALE_READ);
    assert HoldsNth(t, [Accepted(false)], 1);
    WriteOne(t, 1, 0, Accepted(false));
    FirstOutcome(t.now);
    events, t := Then(Init(0, 0), events, t, Write(1, false), STALE_READ);
    events, t := Finish(Init(0, 0), events, t, 1, STALE_READ);
  }

  /** A panel that queues on a stale read leaves a `done` job with a new pending recipient, and `total` behind. */
  lemma StaleReadReopensADoneJob() returns (events: seq<Event>, t: State)
    ensures Run(Init(0, 0), events, t, STALE_READ)
    ensures t.job.status == Done && !Drained(t.job.targets) && t.job.total != |t.job.targets|
  {
    events, t := DoneInTime();
    ghost var done := t;
    events, t := Then(Init(0, 0), events, t, QueueFromPanel({8}), STALE_READ);
    assert t.job.targets == Materialized(done.job.targets, {8});
    assert t.job.targets.Keys == {7, 8} && t.job.targets[8] == FRESH_TARGET;
    assert |t.job.targets| == |t.job.targets.Keys|;
  }
}
