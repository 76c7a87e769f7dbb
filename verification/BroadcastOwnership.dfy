/**
 * What the timing rule buys: exclusive claims, exact counters and attempts; with fresh reads also `done` meaning done.
 */
module BroadcastOwnership {
  import opened Basics
  import opened MapTotals
  import opened Broadcast
  import opened BroadcastProtocol

  ghost predicate HasLiveBatch(s: State, w: WorkerId) {
    w in s.workers && s.workers[w].Mailing? && s.Live(s.workers[w].batch)
  }

  ghost predicate Holds(s: State, b: Batch, u: UserId)
    requires u in b.attempts
  {
    && u in s.job.targets
    && s.job.targets[u].status == Sending
    && s.job.targets[u].claimedAt == Some(b.claimedAt)
    && s.job.targets[u].attempts == b.attempts[u]
  }

  /** Every user of a live batch has a claimed row with the attempts the worker read. */
  ghost predicate Claims(s: State) {
    forall w, u :: HasLiveBatch(s, w) && u in s.workers[w].batch.users ==>
      u in s.workers[w].batch.attempts && Holds(s, s.workers[w].batch, u)
  }

  /** No target is held by two workers. */
  ghost predicate Exclusive(s: State) {
    forall v, w, u ::
      HasLiveBatch(s, v) && HasLiveBatch(s, w) && u in s.workers[v].batch.users && u in s.workers[w].batch.users
      ==> v == w
  }

  ghost predicate Counters(s: State) {
    && s.job.sent == Total(s.job.targets, IsStatus(Sent))
    && s.job.failed == Total(s.job.targets, IsStatus(Failed))
    && s.job.blocked == Total(s.job.targets, IsStatus(Blocked))
    && s.job.contentFailed == Total(s.job.targets, IsContentFailure())
  }

  /** Sends a row may still get recorded. */
  function Slack(): Target -> nat {
    (t: Target) => if t.Terminal() || t.attempts > MAX_ATTEMPTS then 0 else MAX_ATTEMPTS - t.attempts
  }

  ghost predicate Bounded(s: State) {
    s.recorded + Total(s.job.targets, Slack()) <= MAX_ATTEMPTS * |s.job.targets|
  }

  /** The attempts of a row are the results recorded for its recipient. */
  predicate AttemptsAreResults(s: State, u: UserId) {
    s.RecordedFor(u) == if u in s.job.targets then s.job.targets[u].attempts else 0
  }

  ghost predicate ResultsCounted(s: State) { forall u :: AttemptsAreResults(s, u) }

  /** What the timing rule alone keeps. */
  ghost predicate Owned(s: State) { Claims(s) && Exclusive(s) && Counters(s) && Bounded(s) && ResultsCounted(s) }

  ghost predicate DoneMeansDone(s: State) {
    && (s.job.status == Done ==> Drained(s.job.targets))
    && (forall w :: w in s.workers && s.workers[w] == SawDrained ==> Drained(s.job.targets))
  }

  // ---------------------------------------------------------------- one write

  /** The job row after worker `w` persists its batch now. */
  function Written(s: State, w: WorkerId): Job
    requires w in s.workers && s.workers[w].Mailing? && |s.workers[w].batch.results| <= |s.workers[w].batch.users|
  {
    var b := s.workers[w].batch;
    WriteResults(s.job, b.results, b.Released(), b.attempts, s.now)
  }

  /** A live batch is written over rows that are all `sending`. */
  lemma WrittenOverSending(s: State, w: WorkerId)
    requires Safe(s) && Claims(s) && HasLiveBatch(s, w)
    ensures var b := s.workers[w].batch;
            && WellFormedBatch(s, b)
            && forall u :: u in b.users ==> u in s.job.targets && u in b.attempts && Holds(s, b, u)
  {
  }

  lemma {:induction false} ReleaseTotal(targets: Targets, released: seq<UserId>, f: Target -> nat)
    requires forall t: Target :: t.status == Sending ==> f(t) == f(t.(status := Pending, claimedAt := None))
    ensures Total(Release(targets, released), f) == Total(targets, f)
  {
    TotalSame(Release(targets, released), targets, f);
  }

  lemma WriteCountsExactly(s: State, w: WorkerId, f: Target -> nat)
    requires Safe(s) && Claims(s) && HasLiveBatch(s, w)
    requires forall t: Target :: !t.Terminal() ==> f(t) == 0
    ensures WellFormedBatch(s, s.workers[w].batch)
    ensures var b := s.workers[w].batch;
            Total(Written(s, w).targets, f) == Total(s.job.targets, f) + Count(b.results, b.attempts, s.now, f)
  {
    var b := s.workers[w].batch;
    WrittenOverSending(s, w);
    WrittenUsersDistinct(s, b);
    RecordAllTotal(s.job.targets, b.results, b.attempts, s.now, f);
    ReleaseTotal(RecordAll(s.job.targets, b.results, b.attempts, s.now), b.Released(), f);
  }

  /** Nobody whose result is written had a verdict already. */
  predicate NoVerdictYet(targets: Targets, results: seq<SendResult>) {
    forall i :: 0 <= i < |results| && results[i].user in targets ==> !targets[results[i].user].Terminal()
  }

  lemma WriteMoves(s: State, b: Batch, f: Target -> nat)
    requires WellFormedBatch(s, b) && forall t: Target :: !t.Terminal() ==> f(t) == 0
    ensures forall i :: 0 <= i < |b.results| ==> b.results[i].user in s.job.targets
    ensures Total(WriteResults(s.job, b.results, b.Released(), b.attempts, s.now).targets, f)
            + OldSum(s.job.targets, b.results, f)
         == Total(s.job.targets, f) + Count(b.results, b.attempts, s.now, f)
  {
    WrittenUsersDistinct(s, b);
    RecordAllMoves(s.job.targets, b.results, b.attempts, s.now, f);
    ReleaseTotal(RecordAll(s.job.targets, b.results, b.attempts, s.now), b.Released(), f);
  }

  /** For any batch, live or not: a write moves a verdict's column by the counted outcomes exactly if no recipient
      that it records has that verdict already. */
  lemma WriteCountsIff(s: State, b: Batch, st: TargetStatus)
    requires WellFormedBatch(s, b) && st in {Sent, Failed, Blocked}
    ensures Total(WriteResults(s.job, b.results, b.Released(), b.attempts, s.now).targets, IsStatus(st))
            == Total(s.job.targets, IsStatus(st)) + Count(b.results, b.attempts, s.now, IsStatus(st))
       <==> forall i :: 0 <= i < |b.results| && b.results[i].user in s.job.targets ==>
              s.job.targets[b.results[i].user].status != st
  {
    WriteMoves(s, b, IsStatus(st));
    NothingOld(s.job.targets, b.results, IsStatus(st));
  }

  lemma NoVerdictMeansNothingOld(targets: Targets, results: seq<SendResult>)
    requires forall i :: 0 <= i < |results| ==> results[i].user in targets
    ensures NoVerdictYet(targets, results) <==>
      && OldSum(targets, results, IsStatus(Sent)) == 0 && OldSum(targets, results, IsStatus(Failed)) == 0
      && OldSum(targets, results, IsStatus(Blocked)) == 0
    ensures NoVerdictYet(targets, results) ==> OldSum(targets, results, IsContentFailure()) == 0
  {
    NothingOld(targets, results, IsStatus(Sent));
    NothingOld(targets, results, IsStatus(Failed));
    NothingOld(targets, results, IsStatus(Blocked));
    NothingOld(targets, results, IsContentFailure());
  }

  /** What the missing check of `status = 'sending'` costs: exact counters stay exact, whatever the timing, exactly if
      no recipient whose result is written has a verdict already. */
  lemma WriteKeepsCountersIff(s: State, e: Event)
    requires Enabled(s, e) && e.Write? && WellFormedBatch(s, s.At(e.w).batch) && Counters(s)
    ensures Counters(Step(s, e)) <==> NoVerdictYet(s.job.targets, s.At(e.w).batch.results)
  {
    var b := s.At(e.w).batch;
    WriteMoves(s, b, IsStatus(Sent));
    WriteMoves(s, b, IsStatus(Failed));
    WriteMoves(s, b, IsStatus(Blocked));
    WriteMoves(s, b, IsContentFailure());
    NoVerdictMeansNothingOld(s.job.targets, b.results);
  }

  lemma NewRowSlack(t: Target, r: SendResult, attempts: map<UserId, nat>, now: int)
    requires !t.Terminal() && t.attempts == AttemptsBefore(attempts, r.user) < MAX_ATTEMPTS
    ensures Slack()(NewRow(r, attempts, now)) + 1 <= Slack()(t)
  {
  }

  lemma {:induction false} RecordAllSlack(targets: Targets, results: seq<SendResult>,
                                          attempts: map<UserId, nat>, now: int)
    requires forall i, j :: 0 <= i < j < |results| ==> results[i].user != results[j].user
    requires forall i :: 0 <= i < |results| ==>
      var u := results[i].user;
      u in targets && !targets[u].Terminal() && targets[u].attempts == AttemptsBefore(attempts, u) < MAX_ATTEMPTS
    ensures Total(RecordAll(targets, results, attempts, now), Slack()) + |results| <= Total(targets, Slack())
  {
    if results != [] {
      var front := results[..|results| - 1];
      var r := results[|results| - 1];
      RecordAllSlack(targets, front, attempts, now);
      RecordAllRows(targets, front, attempts, now);
      var before := RecordAll(targets, front, attempts, now);
      assert before[r.user] == targets[r.user];
      TotalUpdate(before, r.user, NewRow(r, attempts, now), Slack());
      NewRowSlack(targets[r.user], r, attempts, now);
    }
  }

  /** Every recorded result uses up at least one of the sends its row had left. */
  lemma WriteUsesSlack(s: State, w: WorkerId)
    requires Safe(s) && Claims(s) && HasLiveBatch(s, w)
    ensures WellFormedBatch(s, s.workers[w].batch)
    ensures Total(Written(s, w).targets, Slack()) + |s.workers[w].batch.results| <= Total(s.job.targets, Slack())
  {
    var b := s.workers[w].batch;
    WrittenOverSending(s, w);
    WrittenUsersDistinct(s, b);
    forall i | 0 <= i < |b.results|
      ensures var u := b.results[i].user;
              u in s.job.targets && !s.job.targets[u].Terminal()
              && s.job.targets[u].attempts == AttemptsBefore(b.attempts, u) < MAX_ATTEMPTS
    {
      assert b.results[i].user == b.users[i];
      assert Holds(s, b, b.users[i]);
    }
    RecordAllSlack(s.job.targets, b.results, b.attempts, s.now);
    ReleaseTotal(RecordAll(s.job.targets, b.results, b.attempts, s.now), b.Released(), Slack());
  }

  // ---------------------------------------------------------------- every step

  ghost predicate Timed(s: State, e: Event) { Enabled(s, e) && Timely(s, e) }

  /** A live batch of a worker that does not take the step was live before. */
  lemma LiveBefore(s: State, e: Event, w: WorkerId)
    requires Enabled(s, e) && HasLiveBatch(Step(s, e), w) && !(e.Claim? && e.w == w)
    ensures HasLiveBatch(s, w) && s.workers[w].batch.users == Step(s, e).workers[w].batch.users
    ensures s.workers[w].batch.attempts == Step(s, e).workers[w].batch.attempts
    ensures s.workers[w].batch.claimedAt == Step(s, e).workers[w].batch.claimedAt
    ensures e.Write? ==> e.w != w
  {
  }

  /** A row held by a live batch stays as it is, unless its own worker writes. */
  lemma HeldRowStays(s: State, e: Event, w: WorkerId, u: UserId)
    requires Safe(s) && Claims(s) && Exclusive(s) && Timed(s, e)
    requires HasLiveBatch(s, w) && HasLiveBatch(Step(s, e), w) && u in s.workers[w].batch.users
            && (e.Write? ==> e.w != w)
    ensures u in s.job.targets && u in Step(s, e).job.targets && Step(s, e).job.targets[u] == s.job.targets[u]
  {
    assert Holds(s, s.workers[w].batch, u);
    SameKeys(s, e);
    if e.Write? {
      assert HasLiveBatch(s, e.w);
      WrittenOverSending(s, e.w);
      WrittenRows(s, s.workers[e.w].batch, s.now);
      assert u !in s.workers[e.w].batch.users;
    }
  }

  lemma ClaimsStep(s: State, e: Event)
    requires Safe(s) && Claims(s) && Exclusive(s) && Timed(s, e)
    ensures Claims(Step(s, e))
  {
    var t := Step(s, e);
    forall w, u | HasLiveBatch(t, w) && u in t.workers[w].batch.users
      ensures u in t.workers[w].batch.attempts && Holds(t, t.workers[w].batch, u)
    {
      if !(e.Claim? && e.w == w) {
        LiveBefore(s, e, w);
        assert Holds(s, s.workers[w].batch, u);
        HeldRowStays(s, e, w, u);
      }
    }
  }

  /** A row somebody holds is not claimed again. */
  lemma HeldIsNotClaimed(s: State, e: Event, w: WorkerId, u: UserId)
    requires Claims(s) && Enabled(s, e) && e.Claim? && HasLiveBatch(s, w) && u in s.workers[w].batch.users
    ensures u !in e.users
  {
    assert Holds(s, s.workers[w].batch, u);
  }

  lemma ExclusiveStep(s: State, e: Event)
    requires Safe(s) && Claims(s) && Exclusive(s) && Timed(s, e)
    ensures Exclusive(Step(s, e))
  {
    var t := Step(s, e);
    forall v, w, u | HasLiveBatch(t, v) && HasLiveBatch(t, w) && u in t.workers[v].batch.users
        && u in t.workers[w].batch.users
      ensures v == w
    {
      if e.Claim? && e.w == v {
        if w != v {
          LiveBefore(s, e, w);
          HeldIsNotClaimed(s, e, w, u);
          assert false;
        }
      } else {
        LiveBefore(s, e, v);
        if e.Claim? && e.w == w {
          HeldIsNotClaimed(s, e, v, u);
          assert false;
        } else {
          LiveBefore(s, e, w);
        }
      }
    }
  }

  lemma SameTotals(a: Targets, b: Targets)
    requires a.Keys == b.Keys
    requires forall u :: u in a ==>
      a[u] == b[u] || (!a[u].Terminal() && !b[u].Terminal() && a[u].attempts == b[u].attempts)
    ensures Total(a, IsStatus(Sent)) == Total(b, IsStatus(Sent))
    ensures Total(a, IsStatus(Failed)) == Total(b, IsStatus(Failed))
    ensures Total(a, IsStatus(Blocked)) == Total(b, IsStatus(Blocked))
    ensures Total(a, IsContentFailure()) == Total(b, IsContentFailure())
    ensures Total(a, Slack()) == Total(b, Slack())
  {
    forall u | u in a
      ensures IsStatus(Sent)(a[u]) == IsStatus(Sent)(b[u])
      ensures IsStatus(Failed)(a[u]) == IsStatus(Failed)(b[u])
      ensures IsStatus(Blocked)(a[u]) == IsStatus(Blocked)(b[u])
      ensures IsContentFailure()(a[u]) == IsContentFailure()(b[u])
      ensures Slack()(a[u]) == Slack()(b[u])
    {
    }
    TotalSame(a, b, IsStatus(Sent));
    TotalSame(a, b, IsStatus(Failed));
    TotalSame(a, b, IsStatus(Blocked));
    TotalSame(a, b, IsContentFailure());
    TotalSame(a, b, Slack());
  }

  /** Steps other than queueing and writing leave every terminal row and every attempt count alone. */
  lemma QuietStep(s: State, e: Event)
    requires Safe(s) && Enabled(s, e) && !Queues(e) && !e.Write?
    ensures s.job.targets.Keys == Step(s, e).job.targets.Keys
    ensures forall u :: u in s.job.targets ==>
      var a, b := s.job.targets[u], Step(s, e).job.targets[u];
      a == b || (!a.Terminal() && !b.Terminal() && a.attempts == b.attempts)
  {
    TargetsAfter(s, e);
  }

  lemma MaterializedTotal(targets: Targets, segment: set<UserId>, f: Target -> nat)
    ensures var after := Materialized(targets, segment);
            && |after| >= |targets|
            && Total(after, f) == Total(targets, f) + f(FRESH_TARGET) * (|after| - |targets|)
  {
    var added := map u | u in segment && u !in targets :: FRESH_TARGET;
    assert Materialized(targets, segment) == added + targets;
    SizeJoin(added, targets);
    TotalJoin(added, targets, f);
    TotalConstant(added, f, f(FRESH_TARGET));
  }

  lemma MaterializedZero(targets: Targets, segment: set<UserId>, f: Target -> nat)
    requires f(FRESH_TARGET) == 0
    ensures Total(Materialized(targets, segment), f) == Total(targets, f)
  {
    MaterializedTotal(targets, segment, f);
  }

  /** Rows that are materialized bring six sends each. */
  lemma MaterializedSlack(targets: Targets, segment: set<UserId>)
    ensures var after := Materialized(targets, segment);
            Total(after, Slack()) - MAX_ATTEMPTS * |after| == Total(targets, Slack()) - MAX_ATTEMPTS * |targets|
  {
    MaterializedTotal(targets, segment, Slack());
    assert Slack()(FRESH_TARGET) == MAX_ATTEMPTS;
  }

  lemma QueueCounts(s: State, e: Event)
    requires Safe(s) && Counters(s) && Bounded(s) && Enabled(s, e) && Queues(e)
    ensures Counters(Step(s, e)) && Bounded(Step(s, e))
  {
    TargetsAfter(s, e);
    UnwrittenCounters(s, e);
    MaterializedZero(s.job.targets, e.segment, IsStatus(Sent));
    MaterializedZero(s.job.targets, e.segment, IsStatus(Failed));
    MaterializedZero(s.job.targets, e.segment, IsStatus(Blocked));
    MaterializedZero(s.job.targets, e.segment, IsContentFailure());
    MaterializedSlack(s.job.targets, e.segment);
  }

  lemma WriteJob(s: State, e: Event)
    requires Safe(s) && Claims(s) && Timed(s, e) && e.Write?
    ensures HasLiveBatch(s, e.w) && WellFormedBatch(s, s.workers[e.w].batch)
    ensures Step(s, e).job == Written(s, e.w) && Step(s, e).recorded == s.recorded + |s.workers[e.w].batch.results|
    ensures Step(s, e).recordedFor == Tally(s.recordedFor, s.workers[e.w].batch.results)
    ensures |Step(s, e).job.targets| == |s.job.targets|
  {
    assert HasLiveBatch(s, e.w);
    assert WellFormedBatch(s, s.workers[e.w].batch);
    SameKeys(s, e);
    assert |s.job.targets| == |s.job.targets.Keys| && |Step(s, e).job.targets| == |Step(s, e).job.targets.Keys|;
  }

  lemma WriteKeepsVerdictCounters(s: State, e: Event)
    requires Safe(s) && Claims(s) && Counters(s) && Timed(s, e) && e.Write?
    ensures var job := Step(s, e).job;
            job.sent == Total(job.targets, IsStatus(Sent)) && job.blocked == Total(job.targets, IsStatus(Blocked))
  {
    WriteJob(s, e);
    WriteCountsExactly(s, e.w, IsStatus(Sent));
    WriteCountsExactly(s, e.w, IsStatus(Blocked));
  }

  lemma WriteKeepsFailureCounters(s: State, e: Event)
    requires Safe(s) && Claims(s) && Counters(s) && Timed(s, e) && e.Write?
    ensures var job := Step(s, e).job;
            job.failed == Total(job.targets, IsStatus(Failed))
            && job.contentFailed == Total(job.targets, IsContentFailure())
  {
    WriteJob(s, e);
    WriteCountsExactly(s, e.w, IsStatus(Failed));
    WriteCountsExactly(s, e.w, IsContentFailure());
  }

  lemma WriteCounts(s: State, e: Event)
    requires Safe(s) && Claims(s) && Counters(s) && Bounded(s) && Timed(s, e) && e.Write?
    ensures Counters(Step(s, e)) && Bounded(Step(s, e))
  {
    WriteKeepsVerdictCounters(s, e);
    WriteKeepsFailureCounters(s, e);
    WriteJob(s, e);
    WriteUsesSlack(s, e.w);
  }

  lemma UnwrittenCounters(s: State, e: Event)
    requires Enabled(s, e) && !e.Write?
    ensures var a, b := s.job, Step(s, e).job;
            && a.sent == b.sent && a.failed == b.failed && a.blocked == b.blocked && a.contentFailed == b.contentFailed
    ensures Step(s, e).recorded == s.recorded && Step(s, e).recordedFor == s.recordedFor
  {
  }

  lemma QuietCounts(s: State, e: Event)
    requires Safe(s) && Counters(s) && Bounded(s) && Enabled(s, e) && !Queues(e) && !e.Write?
    ensures Counters(Step(s, e)) && Bounded(Step(s, e))
  {
    QuietStep(s, e);
    UnwrittenCounters(s, e);
    SameTotals(s.job.targets, Step(s, e).job.targets);
    assert |s.job.targets| == |s.job.targets.Keys| && |Step(s, e).job.targets| == |Step(s, e).job.targets.Keys|;
  }

  lemma CountersAndBoundStep(s: State, e: Event)
    requires Safe(s) && Claims(s) && Counters(s) && Bounded(s) && Timed(s, e)
    ensures Counters(Step(s, e)) && Bounded(Step(s, e))
  {
    if Queues(e) {
      QueueCounts(s, e);
    } else if e.Write? {
      WriteCounts(s, e);
    } else {
      QuietCounts(s, e);
    }
  }

  lemma {:induction false} TallyCounts(counts: map<UserId, nat>, results: seq<SendResult>, u: UserId)
    requires forall i, j :: 0 <= i < j < |results| ==> results[i].user != results[j].user
    ensures var before := if u in counts then counts[u] else 0;
            var after := Tally(counts, results);
            (if u in after then after[u] else 0)
            == before + if exists i :: 0 <= i < |results| && results[i].user == u then 1 else 0
  {
    if results != [] {
      var front, last := results[..|results| - 1], results[|results| - 1];
      TallyCounts(counts, front, u);
      if i :| 0 <= i < |front| && front[i].user == u {
        assert results[i].user == u;
      }
      assert last.user == u ==> results[|results| - 1].user == u;
      assert forall i :: 0 <= i < |front| ==> results[i] == front[i];
    }
  }

  /** A recorded user has one more attempt than the batch read. */
  lemma RecordedAttempts(s: State, w: WorkerId, i: nat)
    requires Safe(s) && Claims(s) && HasLiveBatch(s, w) && i < |s.workers[w].batch.results|
    ensures WellFormedBatch(s, s.workers[w].batch)
    ensures var u := s.workers[w].batch.results[i].user;
            && u in s.job.targets && u in Written(s, w).targets
            && Written(s, w).targets[u].attempts == s.job.targets[u].attempts + 1
  {
    var b := s.workers[w].batch;
    WrittenOverSending(s, w);
    WrittenRows(s, b, s.now);
    assert b.users[i] == b.results[i].user && Holds(s, b, b.users[i]);
  }

  /** Any other user keeps its attempts. */
  lemma UnrecordedAttempts(s: State, w: WorkerId, u: UserId)
    requires Safe(s) && Claims(s) && HasLiveBatch(s, w)
    requires forall i :: 0 <= i < |s.workers[w].batch.results| ==> s.workers[w].batch.results[i].user != u
    ensures WellFormedBatch(s, s.workers[w].batch) && Written(s, w).targets.Keys == s.job.targets.Keys
    ensures u in s.job.targets ==> Written(s, w).targets[u].attempts == s.job.targets[u].attempts
  {
    var b := s.workers[w].batch;
    WrittenOverSending(s, w);
    WrittenRows(s, b, s.now);
    if u in b.users {
      RecordedOrReleased(b, u);
    }
  }

  lemma ResultCounted(s: State, e: Event, u: UserId)
    requires Safe(s) && Claims(s) && Timed(s, e) && e.Write? && AttemptsAreResults(s, u)
    ensures AttemptsAreResults(Step(s, e), u)
  {
    WriteJob(s, e);
    var b := s.workers[e.w].batch;
    WrittenUsersDistinct(s, b);
    TallyCounts(s.recordedFor, b.results, u);
    if i :| 0 <= i < |b.results| && b.results[i].user == u {
      RecordedAttempts(s, e.w, i);
    } else {
      UnrecordedAttempts(s, e.w, u);
    }
  }

  lemma ResultsCountedStep(s: State, e: Event)
    requires Safe(s) && Claims(s) && ResultsCounted(s) && Timed(s, e)
    ensures ResultsCounted(Step(s, e))
  {
    if !e.Write? {
      KeysGrow(s, e);
      UnwrittenCounters(s, e);
    }
    forall u
      ensures AttemptsAreResults(Step(s, e), u)
    {
      assert AttemptsAreResults(s, u);
      if e.Write? {
        ResultCounted(s, e, u);
      } else if u in Step(s, e).job.targets {
        UnwrittenRow(s, e, u);
      }
    }
  }

  /** A terminal row is never touched again. */
  lemma TerminalRowStays(s: State, e: Event, u: UserId)
    requires Safe(s) && Claims(s) && Timed(s, e)
    requires u in s.job.targets && s.job.targets[u].Terminal()
    ensures u in Step(s, e).job.targets && Step(s, e).job.targets[u] == s.job.targets[u]
  {
    if e.Write? {
      assert HasLiveBatch(s, e.w);
      WrittenOverSending(s, e.w);
      WrittenRows(s, s.workers[e.w].batch, s.now);
      assert forall v :: v in s.workers[e.w].batch.users ==> s.job.targets[v].status == Sending;
    } else {
      TargetsAfter(s, e);
    }
  }

  // ---------------------------------------------------------------- with fresh reads

  /** On a job that was queued once a fresh read adds nobody. */
  lemma NothingQueuedAgain(s: State, e: Event)
    requires Lifecycle(s) && Enabled(s, e) && Queues(e) && FreshRead(s, e) && s.enqueued == 1
    ensures Step(s, e).job.targets == s.job.targets
  {
  }

  /** A drained job that was queued once stays drained. */
  lemma DrainedStays(s: State, e: Event)
    requires Safe(s) && Claims(s) && Timed(s, e) && FreshRead(s, e) && Drained(s.job.targets) && s.enqueued == 1
    ensures Drained(Step(s, e).job.targets)
  {
    if Queues(e) {
      NothingQueuedAgain(s, e);
    } else {
      SameKeys(s, e);
    }
    forall u | u in Step(s, e).job.targets
      ensures Step(s, e).job.targets[u].Terminal()
    {
      TerminalRowStays(s, e, u);
    }
  }

  /** A job turns `done`, and a worker finds it drained, only on a drained job that was queued. */
  lemma DoneNeedsDrained(s: State, e: Event)
    requires Lifecycle(s) && Knowledge(s) && DoneMeansDone(s) && Enabled(s, e)
    ensures Step(s, e).job.status == Done ==> Drained(s.job.targets) && s.enqueued == 1
  {
    if Step(s, e).job.status == Done {
      TurnsDone(s, e);
    }
    if e.CommitDone? {
      assert e.w in s.workers && s.workers[e.w] == SawDrained;
    }
  }

  lemma TurnsDone(s: State, e: Event)
    requires Enabled(s, e) && JobAfter(s, e).status == Done
    ensures s.job.status == Done || e.CommitDone?
  {
    if Queues(e) {
      QueueingShape(s, e);
    }
  }

  lemma BecomesSawDrained(s: State, e: Event, w: WorkerId)
    requires Enabled(s, e) && Step(s, e).At(w) == SawDrained && s.At(w) != SawDrained
    ensures s.At(w) == ClaimedNothing && Drained(s.job.targets)
  {
    OthersStay(s, e, w);
  }

  lemma SawDrainedNeedsDrained(s: State, e: Event, w: WorkerId)
    requires Lifecycle(s) && Knowledge(s) && DoneMeansDone(s) && Enabled(s, e)
    requires w in Step(s, e).workers && Step(s, e).workers[w] == SawDrained
    ensures Drained(s.job.targets) && s.enqueued == 1
  {
    assert Step(s, e).At(w) == SawDrained;
    if s.At(w) != SawDrained {
      BecomesSawDrained(s, e, w);
    }
    assert w in s.workers && s.workers[w] == s.At(w);
  }

  lemma DoneMeansDoneStep(s: State, e: Event)
    requires Safe(s) && Claims(s) && DoneMeansDone(s) && Timed(s, e) && FreshRead(s, e)
    ensures DoneMeansDone(Step(s, e))
  {
    DoneNeedsDrained(s, e);
    forall w | w in Step(s, e).workers && Step(s, e).workers[w] == SawDrained
      ensures Drained(s.job.targets) && s.enqueued == 1
    {
      SawDrainedNeedsDrained(s, e, w);
    }
    if Drained(s.job.targets) && s.enqueued == 1 {
      DrainedStays(s, e);
    }
  }

  lemma OwnedStep(s: State, e: Event)
    requires Safe(s) && Owned(s) && Timed(s, e)
    ensures Safe(Step(s, e)) && Owned(Step(s, e))
  {
    SafeStep(s, e);
    ClaimsStep(s, e);
    ExclusiveStep(s, e);
    CountersAndBoundStep(s, e);
    ResultsCountedStep(s, e);
  }
}
