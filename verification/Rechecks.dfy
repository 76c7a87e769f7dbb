/** Detail re-checks: back-off of failing rows, the give-up threshold, and rows closed for good. */
module Rechecks {
  import opened Basics
  import opened Vacancies
  import opened Dedup
  import opened VacancyTransactions

  const HOUR := 3_600

  /** `MIN(max, base * (1 << MIN(failures, 10)))` */
  function DetailBackoff(failures: nat): nat {
    Min(DETAIL_BACKOFF_MAX, DETAIL_BACKOFF_BASE * Pow(2, Min(failures, 10)))
  }

  /** One hour, doubled for each earlier failure, at most a day. */
  function NextWait(failures: nat): nat {
    if failures >= 5 then 86_400
    else if failures == 4 then 57_600
    else if failures == 3 then 28_800
    else if failures == 2 then 14_400
    else if failures == 1 then 7_200
    else 3_600
  }

  lemma BackoffIsNextWait(failures: nat)
    ensures DetailBackoff(failures) == NextWait(failures)
  {
    assert Pow(2, 1) == 2 && Pow(2, 2) == 4 && Pow(2, 3) == 8 && Pow(2, 4) == 16;
    assert Pow(2, 5) == 2 * Pow(2, 4);
    if failures >= 5 {
      AtLeast32(Min(failures, 10));
    }
  }

  lemma {:induction false} AtLeast32(n: nat)
    requires n >= 5
    ensures Pow(2, n) >= 32
  {
    if n > 5 {
      AtLeast32(n - 1);
    } else {
      assert Pow(2, 4) == 16;
    }
  }

  /** The least time the first `n` back-offs of a streak take. */
  function Elapsed(n: nat): nat { if n == 0 then 0 else Elapsed(n - 1) + DetailBackoff(n - 1) }

  lemma GiveUpTakes79Hours()
    ensures Elapsed(DETAIL_FAILURE_GIVE_UP - 1) == 79 * HOUR
  {
    assert Pow(2, 2) == 4;
    assert Pow(2, 3) == 8;
    assert Pow(2, 4) == 16;
    assert Pow(2, 5) == 32;
    assert Pow(2, 6) == 64;
    assert Elapsed(2) == 3 * HOUR;
    assert Elapsed(4) == 15 * HOUR;
    assert Elapsed(6) == 55 * HOUR;
  }

  function RecordFailure(t: Table, uid: Uid, now: int): Table {
    if uid !in t then t
    else t[uid := t[uid].(checkedAt := Some(now), detailFailures := t[uid].detailFailures + 1,
                          recheckAfter := Some(now + DetailBackoff(t[uid].detailFailures)))]
  }

  /** When the current streak of failed re-checks of each row began. */
  type Streaks = map<Uid, int>

  function NextStreaks(t: Table, streaks: Streaks, uid: Uid, now: int): Streaks {
    if uid in t && t[uid].detailFailures == 0 then streaks[uid := now] else streaks
  }

  ghost predicate StreakOk(r: Row, began: int, now: int) {
    && r.recheckAfter.Some? && r.recheckAfter.value >= began + Elapsed(r.detailFailures)
    && (r.detailFailures >= DETAIL_FAILURE_GIVE_UP ==> began + 79 * HOUR <= now)
  }

  /** A streak of `n` failures is at least as old as the back-offs between them. */
  ghost predicate StreaksOk(t: Table, streaks: Streaks, now: int) {
    forall u :: u in t && t[u].detailFailures > 0 ==> u in streaks && StreakOk(t[u], streaks[u], now)
  }

  /** A row reaches the give-up threshold no sooner than 79 hours after its streak began. */
  lemma FailureKeepsStreaks(t: Table, streaks: Streaks, uid: Uid, now: int)
    requires StreaksOk(t, streaks, now)
    requires uid in t && (t[uid].recheckAfter.Some? ==> t[uid].recheckAfter.value <= now)
    ensures StreaksOk(RecordFailure(t, uid, now), NextStreaks(t, streaks, uid, now), now)
    ensures t[uid].detailFailures + 1 >= DETAIL_FAILURE_GIVE_UP ==> uid in streaks && streaks[uid] + 79 * HOUR <= now
  {
    var f := t[uid].detailFailures;
    if f > 0 {
      assert StreakOk(t[uid], streaks[uid], now);
    }
    if f + 1 >= DETAIL_FAILURE_GIVE_UP {
      GiveUpTakes79Hours();
      ElapsedGrows(DETAIL_FAILURE_GIVE_UP - 1, f);
    }
  }

  lemma {:induction false} ElapsedGrows(a: nat, b: nat)
    requires a <= b
    ensures Elapsed(a) <= Elapsed(b)
  {
    if a < b {
      ElapsedGrows(a, b - 1);
    }
  }

  /** Every row keeps its failure count and wait, or starts from zero. */
  ghost predicate SameChecks(t: Table, after: Table) {
    forall u :: u in after ==>
      || after[u].detailFailures == 0
      || (u in t && after[u].detailFailures == t[u].detailFailures && after[u].recheckAfter == t[u].recheckAfter)
  }

  /** Gone rows stay closed as gone until they are deleted. */
  ghost predicate GoneStays(t: Table, after: Table) {
    forall u :: u in t && u in after && t[u].status == Closed && IsGone(t[u]) ==>
      after[u].status == Closed && IsGone(after[u])
  }

  /** What every transaction keeps besides the groups. */
  ghost predicate Keeps(t: Table, after: Table) { SameChecks(t, after) && GoneStays(t, after) }

  lemma ChecksKeepStreaks(t: Table, after: Table, streaks: Streaks, was: int, now: int)
    requires StreaksOk(t, streaks, was) && SameChecks(t, after) && was <= now
    ensures StreaksOk(after, streaks, now)
  {
    forall u | u in after && after[u].detailFailures > 0
      ensures u in streaks && StreakOk(after[u], streaks[u], now)
    {
      assert StreakOk(t[u], streaks[u], was);
    }
  }

  /** Only the stale rule closes rows as stale. */
  ghost predicate NoNewStale(t: Table, after: Table) {
    forall u :: u in after && after[u].closeReason == Some(Stale) ==> u in t && t[u].closeReason == Some(Stale)
  }

  /** Listed at or after `since`, and not closed as stale. */
  predicate Fresh(r: Row, since: int) { r.lastSeenAt >= since && r.closeReason != Some(Stale) }

  /** Rows that are not stale stay so, and none is forgotten to have been seen, up to `limit`. */
  ghost predicate FreshStay(t: Table, after: Table, limit: int) {
    forall u :: u in t && t[u].closeReason != Some(Stale) ==> u in after && Fresh(after[u], Min(t[u].lastSeenAt, limit))
  }

  ghost predicate AllFresh(t: Table, items: seq<Vacancy>, since: int) {
    forall i :: 0 <= i < |items| ==> items[i].uid in t && Fresh(t[items[i].uid], since)
  }

  lemma FreshThrough(t: Table, mid: Table, after: Table, limit: int, later: int)
    requires FreshStay(t, mid, limit) && FreshStay(mid, after, later) && limit <= later
    ensures FreshStay(t, after, limit)
  {
  }

  lemma AllFreshStay(t: Table, after: Table, items: seq<Vacancy>, since: int, limit: int)
    requires AllFresh(t, items, since) && FreshStay(t, after, limit) && since <= limit
    ensures AllFresh(after, items, since)
  {
  }

  lemma FactsFresh(t: Table, mid: Table, after: Table, limit: int)
    requires FreshStay(t, mid, limit) && SameFacts(mid, after)
    ensures FreshStay(t, after, limit)
  {
    forall u | u in mid
      ensures after[u].lastSeenAt == mid[u].lastSeenAt && after[u].closeReason == mid[u].closeReason
    {
      assert Facts(after[u]) == Facts(mid[u]);
    }
  }

  lemma {:induction false} SightAllFresh(t: Table, items: seq<Vacancy>, now: int)
    ensures FreshStay(t, SightAll(t, items, now), now) && AllFresh(SightAll(t, items, now), items, now)
  {
    if items != [] {
      var front, v := items[..|items| - 1], items[|items| - 1];
      var before := SightAll(t, front, now);
      SightAllFresh(t, front, now);
      assert SeenRow(before, v, now).lastSeenAt == now && SeenRow(before, v, now).closeReason != Some(Stale);
      forall i | 0 <= i < |items|
        ensures items[i].uid in SightAll(t, items, now) && Fresh(SightAll(t, items, now)[items[i].uid], now)
      {
        if i < |front| {
          assert front[i] == items[i];
        }
      }
    }
  }

  /** What a list sighting is for: every listed row is fresh, and no other row gets stale. */
  lemma UpsertChunkFresh(m: Matching, t: Table, items: seq<Vacancy>, now: int)
    ensures FreshStay(t, UpsertChunk(m, t, items, now), now) && AllFresh(UpsertChunk(m, t, items, now), items, now)
  {
    var seen := SightAll(t, items, now);
    SightAllFresh(t, items, now);
    AssignAllFacts(m, seen, ToGroup(t, items));
    var grouped := AssignAll(m, seen, ToGroup(t, items));
    FactsFresh(t, seen, grouped, now);
    FactsFresh(seen, seen, grouped, now);
    RegroupAllFacts(grouped, GroupsOf(grouped, Moved(t, items)));
    var after := RegroupFor(grouped, Moved(t, items));
    FactsFresh(t, grouped, after, now);
    FactsFresh(grouped, grouped, after, now);
    AllFreshStay(seen, grouped, items, now, now);
    AllFreshStay(grouped, after, items, now, now);
  }

  lemma ApplyDetailFresh(m: Matching, t: Table, v: Vacancy, now: int)
    ensures FreshStay(t, ApplyDetail(m, t, v, now), now)
  {
    ApplyDetailFacts(m, t, v, now);
    FactsFresh(t, Detailed(t, v, now), ApplyDetail(m, t, v, now), now);
  }

  lemma CloseChunkFresh(t: Table, uids: seq<Uid>, reason: CloseReason, now: int)
    requires reason != Stale
    ensures FreshStay(t, CloseChunk(t, uids, reason, now), now)
  {
    var closing := Closing(t, uids, reason, now);
    RegroupAllFacts(closing, GroupsOf(closing, uids));
    FactsFresh(t, closing, CloseChunk(t, uids, reason, now), now);
  }

  lemma FactsKeep(t: Table, mid: Table, after: Table)
    requires Keeps(t, mid) && SameFacts(mid, after)
    ensures Keeps(t, after) && (NoNewStale(t, mid) ==> NoNewStale(t, after))
  {
    forall u | u in after
      ensures after[u].detailFailures == mid[u].detailFailures && after[u].recheckAfter == mid[u].recheckAfter
      ensures after[u].status == mid[u].status && after[u].closeReason == mid[u].closeReason
    {
      assert Facts(after[u]) == Facts(mid[u]);
    }
  }

  lemma {:induction false} SightAllKeeps(t: Table, items: seq<Vacancy>, now: int)
    ensures Keeps(t, SightAll(t, items, now)) && NoNewStale(t, SightAll(t, items, now))
    ensures forall u :: u in t ==> u in SightAll(t, items, now)
  {
    if items != [] {
      SightAllKeeps(t, items[..|items| - 1], now);
    }
  }

  lemma UpsertChunkKeeps(m: Matching, t: Table, items: seq<Vacancy>, now: int)
    ensures Keeps(t, UpsertChunk(m, t, items, now)) && NoNewStale(t, UpsertChunk(m, t, items, now))
    ensures t.Keys <= UpsertChunk(m, t, items, now).Keys
  {
    SightAllKeeps(t, items, now);
    var seen := SightAll(t, items, now);
    AssignAllFacts(m, seen, ToGroup(t, items));
    var grouped := AssignAll(m, seen, ToGroup(t, items));
    FactsKeep(t, seen, grouped);
    RegroupAllFacts(grouped, GroupsOf(grouped, Moved(t, items)));
    FactsKeep(t, grouped, RegroupFor(grouped, Moved(t, items)));
  }

  lemma ApplyDetailFacts(m: Matching, t: Table, v: Vacancy, now: int)
    ensures SameFacts(Detailed(t, v, now), ApplyDetail(m, t, v, now))
    ensures ApplyDetail(m, t, v, now).Keys == t.Keys + {v.uid}
  {
    var detailed := Detailed(t, v, now);
    AssignAllFacts(m, detailed, [v.uid]);
    var grouped := AssignAll(m, detailed, [v.uid]);
    RegroupAllFacts(grouped, GroupsOf(grouped, [v.uid]));
  }

  /** An answer decides its own row and clears its failures; other rows keep their facts. Only an answer for a gone row
      could bring it back. */
  lemma ApplyDetailKeeps(m: Matching, t: Table, v: Vacancy, now: int)
    ensures ApplyDetail(m, t, v, now).Keys == t.Keys + {v.uid}
    ensures forall u :: u in t && u != v.uid ==> Facts(ApplyDetail(m, t, v, now)[u]) == Facts(t[u])
    ensures var r := ApplyDetail(m, t, v, now)[v.uid];
            r.status == (if v.isOpen then Open else Closed) && r.detailFailures == 0
    ensures SameChecks(t, ApplyDetail(m, t, v, now)) && NoNewStale(t, ApplyDetail(m, t, v, now))
    ensures GoneStays(t, ApplyDetail(m, t, v, now))
            <==> !(v.uid in t && t[v.uid].status == Closed && IsGone(t[v.uid]))
  {
    var detailed := Detailed(t, v, now);
    var after := ApplyDetail(m, t, v, now);
    ApplyDetailFacts(m, t, v, now);
    forall u | u in after
      ensures after[u].detailFailures == detailed[u].detailFailures && after[u].recheckAfter == detailed[u].recheckAfter
      ensures after[u].status == detailed[u].status && after[u].closeReason == detailed[u].closeReason
    {
      assert Facts(after[u]) == Facts(detailed[u]);
    }
    assert !IsGone(after[v.uid]);
  }

  lemma ClosingKeeps(t: Table, uids: seq<Uid>, reason: CloseReason, now: int)
    ensures Keeps(t, Closing(t, uids, reason, now))
    ensures reason != Stale ==> NoNewStale(t, Closing(t, uids, reason, now))
    ensures forall u :: u in t ==> ClosedRow(t[u], Closing(t, uids, reason, now)[u], u in uids, reason, now)
  {
  }

  lemma CloseChunkKeeps(t: Table, uids: seq<Uid>, reason: CloseReason, now: int)
    ensures Keeps(t, CloseChunk(t, uids, reason, now)) && CloseChunk(t, uids, reason, now).Keys == t.Keys
    ensures forall u :: u in t ==> ClosedRow(t[u], CloseChunk(t, uids, reason, now)[u], u in uids, reason, now)
    ensures reason != Stale ==> NoNewStale(t, CloseChunk(t, uids, reason, now))
  {
    var closing := Closing(t, uids, reason, now);
    var after := CloseChunk(t, uids, reason, now);
    ClosingKeeps(t, uids, reason, now);
    RegroupAllFacts(closing, GroupsOf(closing, uids));
    FactsKeep(t, closing, after);
    forall u | u in t
      ensures ClosedRow(t[u], after[u], u in uids, reason, now)
    {
      assert Facts(after[u]) == Facts(closing[u]);
      assert ClosedRow(t[u], closing[u], u in uids, reason, now);
    }
  }

  /** What `close` leaves of a row: a named open row is closed, for the reason and at the time given; the group columns
      aside, no other row changes. */
  predicate ClosedRow(r: Row, after: Row, named: bool, reason: CloseReason, now: int) {
    Facts(after)
    == Facts(if named && r.status == Open
             then r.(status := Closed, closeReason := Some(reason), closedAt := Some(now), checkedAt := Some(now))
             else r)
  }

  /** Rows that were open and are closed. */
  function ClosedSince(t: Table, after: Table): set<Uid> {
    set u | u in t && t[u].status == Open && u in after && after[u].status == Closed
  }

  /** What `close_stale` selects: a row in the middle of a failing streak is never in it. */
  predicate StaleCandidate(r: Row, source: string, seenBefore: int) {
    && r.source == source && r.status == Open && r.lastSeenAt < seenBefore
    && (r.detailFailures == 0 || r.detailFailures >= DETAIL_FAILURE_GIVE_UP)
  }

  /** A row with failed re-checks is closed as stale no sooner than 79 hours after the streak began. */
  lemma StaleOnlyAfterGivingUp(t: Table, streaks: Streaks, now: int, uid: Uid, source: string, seenBefore: int)
    requires StreaksOk(t, streaks, now) && uid in t && StaleCandidate(t[uid], source, seenBefore)
    requires t[uid].detailFailures > 0
    ensures uid in streaks && streaks[uid] + 79 * HOUR <= now
  {
    assert StreakOk(t[uid], streaks[uid], now);
  }

  // ---------------------------------------------------------------- the order of re-checks

  predicate Eligible(r: Row, source: string, now: int) {
    r.source == source && r.status == Open && (r.recheckAfter.None? || r.recheckAfter.value <= now)
  }

  /** Never checked first, then the longest unchecked, then the latest published. */
  predicate PickedBefore(a: Row, b: Row) {
    if a.checkedAt.None? != b.checkedAt.None? then a.checkedAt.None?
    else if a.checkedAt != b.checkedAt then a.checkedAt.value < b.checkedAt.value
    else a.publishedAt > b.publishedAt
  }

  /** `a` is checked no later than `b`: never checked before checked, then by the last check, then the newest first. */
  predicate NoLater(a: Row, b: Row) {
    if a.checkedAt == b.checkedAt then a.publishedAt >= b.publishedAt
    else a.checkedAt == None || (b.checkedAt != None && a.checkedAt.value < b.checkedAt.value)
  }

  /** `picked` are the first `limit` rows of the source that are open and due, in re-check order. */
  ghost predicate IsPick(t: Table, source: string, limit: int, now: int, picked: seq<Uid>) {
    && Distinct(picked) && (|picked| <= limit || picked == [])
    && (forall u :: u in picked ==>
          && u in t && t[u].source == source && t[u].status == Open
          && (t[u].recheckAfter == None || t[u].recheckAfter.value <= now))
    && (forall i, j :: 0 <= i < j < |picked| ==> NoLater(t[picked[i]], t[picked[j]]))
    && (forall u :: u in t && t[u].source == source && t[u].status == Open
                    && (t[u].recheckAfter == None || t[u].recheckAfter.value <= now) && u !in picked ==>
          |picked| >= limit && forall p :: p in picked ==> NoLater(t[p], t[u]))
  }

  /** What one answer makes of the row it is for; the time of the check is the row's. */
  predicate Acted(r: Row, after: Row, uid: Uid, a: Answer, since: int, now: int) {
    && after.checkedAt != None && since <= after.checkedAt.value <= now
    && match a
       case SourceDown =>
         Facts(after) == Facts(r.(checkedAt := after.checkedAt, detailFailures := r.detailFailures + 1,
                                  recheckAfter := Some(after.checkedAt.value + NextWait(r.detailFailures))))
       case NoSuchVacancy =>
         Facts(after) == Facts(r.(checkedAt := after.checkedAt, closedAt := after.checkedAt,
                                  status := Closed, closeReason := Some(Gone)))
       case Found(v) =>
         if v.uid != uid then Facts(after) == Facts(r.(checkedAt := after.checkedAt))
         else
           && after.status == (if v.isOpen then Open else Closed)
           && after.closeReason == (if v.isOpen then None else Some(SourceClosed))
           && after.title == v.title && after.employerKey == v.employerKey && after.dedupKey == v.dedupKey
           && after.quality == v.quality && after.publishedAt == v.publishedAt && after.source == r.source
           && after.detailFailures == 0 && after.recheckAfter == None && Some(after.lastSeenAt) == after.checkedAt
       case _ => Facts(after) == Facts(r.(checkedAt := after.checkedAt))
  }

  // ---------------------------------------------------------------- the outage rule

  /** How a re-check request ended. */
  datatype Answer = BudgetExhausted | Unusable | SourceDown | NoSuchVacancy | Found(vacancy: Vacancy)

  const MAX_CONSECUTIVE_DETAIL_ERRORS := 3

  datatype Tally = Tally(attempted: nat, failed: nat, consecutive: nat) {
    function Next(a: Answer): Tally {
      match a
      case BudgetExhausted => this
      case SourceDown => Tally(attempted + 1, failed + 1, consecutive + 1)
      case _ => Tally(attempted + 1, failed, 0)
    }

    predicate Outage() { consecutive >= MAX_CONSECUTIVE_DETAIL_ERRORS }

    /** Stale rows are not closed in a run whose re-checks mostly failed. */
    predicate SkipsStale() { Outage() || (attempted > 0 && 2 * failed >= attempted) }
  }

  function TallyOf(answers: seq<Answer>): Tally {
    if answers == [] then Tally(0, 0, 0) else TallyOf(answers[..|answers| - 1]).Next(answers[|answers| - 1])
  }

  function DownAt(answers: seq<Answer>): set<nat> { set i: nat | i < |answers| && answers[i] == SourceDown }

  /** The tally counts requests and failures. */
  lemma {:induction false} TallyCounts(answers: seq<Answer>)
    requires BudgetExhausted !in answers
    ensures TallyOf(answers).attempted == |answers| && TallyOf(answers).failed == |DownAt(answers)|
  {
    if answers != [] {
      var n := |answers| - 1;
      TallyCounts(answers[..n]);
      assert DownAt(answers) == DownAt(answers[..n]) + if answers[n] == SourceDown then {n} else {};
      assert n !in DownAt(answers[..n]);
    } else {
      assert DownAt(answers) == {};
    }
  }

  /** When a run skips the stale rule: its last three requests failed, or at least half of them did. */
  lemma WhenStaleIsSkipped(answers: seq<Answer>)
    requires BudgetExhausted !in answers
    ensures TallyOf(answers).SkipsStale() <==>
      || (|answers| >= 3 && forall i :: |answers| - 3 <= i < |answers| ==> answers[i] == SourceDown)
      || (answers != [] && 2 * |DownAt(answers)| >= |answers|)
  {
    TallyCounts(answers);
    OutageIsThreeInARow(answers);
  }

  /** The three answers before the n-th all were failures. */
  predicate ThreeDown(answers: seq<Answer>, n: nat) {
    3 <= n <= |answers| && answers[n - 3] == answers[n - 2] == answers[n - 1] == SourceDown
  }

  lemma OutageAfter(answers: seq<Answer>, n: nat)
    requires n <= |answers| && BudgetExhausted !in answers[..n]
    ensures TallyOf(answers[..n]).Outage() <==> ThreeDown(answers, n)
  {
    OutageIsThreeInARow(answers[..n]);
  }

  lemma OneAnswerMore(answers: seq<Answer>, n: nat)
    requires n < |answers|
    ensures TallyOf(answers[..n + 1]) == TallyOf(answers[..n]).Next(answers[n])
  {
    assert answers[..n + 1][..n] == answers[..n];
  }

  /** The re-checks stop for an outage exactly when the last three requests all failed. */
  lemma {:induction false} OutageIsThreeInARow(answers: seq<Answer>)
    requires BudgetExhausted !in answers
    ensures TallyOf(answers).Outage() <==>
      |answers| >= 3 && forall i :: |answers| - 3 <= i < |answers| ==> answers[i] == SourceDown
    ensures TallyOf(answers).attempted == |answers|
    ensures TallyOf(answers).failed <= |answers|
  {
    if answers != [] {
      var one := answers[..|answers| - 1];
      OutageIsThreeInARow(one);
      assert TallyOf(answers) == TallyOf(one).Next(answers[|answers| - 1]);
      if one != [] {
        var two := one[..|one| - 1];
        OutageIsThreeInARow(two);
        assert TallyOf(one) == TallyOf(two).Next(one[|one| - 1]);
        if two != [] {
          var three := two[..|two| - 1];
          assert TallyOf(two) == TallyOf(three).Next(two[|two| - 1]);
          assert answers[|answers| - 3] == two[|two| - 1] && answers[|answers| - 2] == one[|one| - 1];
        }
      }
    }
  }
}
