/** One run of one source: list, re-check, close what went stale. */
module IngestRunner {
  import opened Basics
  import opened Clocks
  import opened Vacancies
  import opened Dedup
  import opened VacancyTransactions
  import opened Rechecks
  import opened VacancyStore

  datatype Adapter = Adapter(name: string, recheckPerRun: int, staleAfterSeconds: int)

  const STALE_LIMIT := 2000

  datatype Stats = Stats(seen: nat, added: nat, tally: Tally, closed: nat, stale: nat, staleSkipped: bool)

  function ItemsIn(pages: seq<seq<Vacancy>>): nat {
    if pages == [] then 0 else ItemsIn(pages[..|pages| - 1]) + |pages[|pages| - 1]|
  }

  class Runner {
    const store: Store
    const clock: Clock
    ghost var streaks: Streaks

    ghost predicate Valid()
      reads this, store, clock
    {
      Consistent(store.rows) && StreaksOk(store.rows, streaks, clock.time)
    }

    constructor (store: Store, clock: Clock)
      requires store.rows == map[]
      ensures Valid() && this.store == store && this.clock == clock
    {
      this.store := store;
      this.clock := clock;
      streaks := map[];
    }

    /** One of the rows that no other row of `uids` is picked before. */
    method First(uids: set<Uid>) returns (f: Uid)
      requires uids <= store.rows.Keys && uids != {}
      ensures f in uids && forall u :: u in uids ==> !PickedBefore(store.rows[u], store.rows[f])
    {
      ghost var some := Member(uids);
      f :| f in uids;
      var rest := uids - {f};
      while rest != {}
        invariant rest <= uids && f in uids
        invariant forall u :: u in uids && u !in rest ==> !PickedBefore(store.rows[u], store.rows[f])
        decreases |rest|
      {
        some := Member(rest);
        var u :| u in rest;
        rest := rest - {u};
        if PickedBefore(store.rows[u], store.rows[f]) {
          f := u;
        }
      }
    }

    /** Open rows of the source whose wait is over, in re-check order. */
    method PickForRecheck(source: string, limit: int, now: int) returns (picked: seq<Uid>)
      ensures IsPick(store.rows, source, limit, now, picked)
    {
      picked := FirstEligible(source, limit, now);
      FirstArePicked(store.rows, source, limit, now, picked);
    }

    method FirstEligible(source: string, limit: int, now: int) returns (picked: seq<Uid>)
      ensures Distinct(picked) && (|picked| <= limit || picked == [])
      ensures forall u :: u in picked ==> u in store.rows && Eligible(store.rows[u], source, now)
      ensures forall i, j :: 0 <= i < j < |picked| ==> !PickedBefore(store.rows[picked[j]], store.rows[picked[i]])
      ensures forall u :: u in store.rows && Eligible(store.rows[u], source, now) && u !in picked ==>
        |picked| >= limit && forall p :: p in picked ==> !PickedBefore(store.rows[u], store.rows[p])
    {
      picked := [];
      if limit <= 0 {
        return;
      }
      var rest := set u | u in store.rows && Eligible(store.rows[u], source, now);
      while |picked| < limit && rest != {}
        invariant Distinct(picked) && |picked| <= limit
        invariant forall u :: u in rest ==> u in store.rows && u !in picked
        invariant forall u :: u in picked ==> u in store.rows && Eligible(store.rows[u], source, now)
        invariant forall u :: u in store.rows && Eligible(store.rows[u], source, now) ==> u in picked || u in rest
        invariant forall i, j :: 0 <= i < j < |picked| ==> !PickedBefore(store.rows[picked[j]], store.rows[picked[i]])
        invariant forall u, i :: u in rest && 0 <= i < |picked| ==> !PickedBefore(store.rows[u], store.rows[picked[i]])
        decreases rest
      {
        var u := First(rest);
        picked := picked + [u];
        rest := rest - {u};
      }
    }

    /** The request failed: the row is backed off. */
    method CountFailure(uid: Uid)
      requires Valid() && Awaiting(store.rows, [uid], clock.time)
      modifies this, store, clock
      ensures Valid() && old(clock.time) <= clock.time && Checked(old(store.rows), store.rows, uid, old(clock.time))
      ensures store.rows == RecordFailure(old(store.rows), uid, clock.time)
      ensures streaks == NextStreaks(old(store.rows), old(streaks), uid, clock.time)
      ensures Acted(old(store.rows)[uid], store.rows[uid], uid, SourceDown, old(clock.time), clock.time)
    {
      ghost var before := store.rows;
      ghost var was := clock.time;
      assert uid in [uid];
      var ts := clock.Now();
      ChecksKeepStreaks(before, before, streaks, was, ts);
      FailureKeepsStreaks(before, streaks, uid, ts);
      store.RecordDetailFailure(uid, ts);
      streaks := NextStreaks(before, streaks, uid, ts);
    }

    /** The source no longer knows the vacancy. */
    method CloseGone(uid: Uid) returns (closed: nat)
      requires Valid() && Awaiting(store.rows, [uid], clock.time)
      modifies store, clock
      ensures Valid() && old(clock.time) <= clock.time && Checked(old(store.rows), store.rows, uid, old(clock.time))
      ensures closed == 1 && store.rows[uid].status == Closed && IsGone(store.rows[uid])
      ensures Acted(old(store.rows)[uid], store.rows[uid], uid, NoSuchVacancy, old(clock.time), clock.time)
    {
      ghost var before := store.rows;
      ghost var was := clock.time;
      assert uid in [uid];
      var ts := clock.Now();
      closed := store.Close([uid], Gone, ts);
      assert OpenAmong(before, [uid]) == {uid};
      ChecksKeepStreaks(before, store.rows, streaks, was, ts);
      GoneIsChecked(before, store.rows, uid, was, ts);
    }

    method StoreAnswer(v: Vacancy) returns (closed: nat)
      requires Valid() && Awaiting(store.rows, [v.uid], clock.time)
      modifies store, clock
      ensures Valid() && old(clock.time) <= clock.time && Checked(old(store.rows), store.rows, v.uid, old(clock.time))
      ensures closed == (if v.isOpen then 0 else 1)
      ensures store.rows[v.uid].status == (if v.isOpen then Open else Closed) && store.rows[v.uid].detailFailures == 0
      ensures Acted(old(store.rows)[v.uid], store.rows[v.uid], v.uid, Found(v), old(clock.time), clock.time)
    {
      ghost var before := store.rows;
      ghost var was := clock.time;
      assert v.uid in [v.uid];
      var ts := clock.Now();
      store.StoreDetail(v, ts);
      closed := if v.isOpen then 0 else 1;
      ChecksKeepStreaks(before, store.rows, streaks, was, ts);
      AnswerIsChecked(before, store.rows, v.uid, was, ts);
      ApplyDetailFacts(store.matching, before, v, ts);
      DetailStores(before, v, ts);
      assert Facts(store.rows[v.uid]) == Facts(Detailed(before, v, ts)[v.uid]);
    }

    /** The answer says nothing about the row: it goes to the back of the queue. */
    method Rotate(uid: Uid)
      requires Valid() && Awaiting(store.rows, [uid], clock.time)
      modifies store, clock
      ensures Valid() && old(clock.time) <= clock.time && Checked(old(store.rows), store.rows, uid, old(clock.time))
      ensures Acted(old(store.rows)[uid], store.rows[uid], uid, Unusable, old(clock.time), clock.time)
    {
      ghost var before := store.rows;
      ghost var was := clock.time;
      assert uid in [uid];
      var ts := clock.Now();
      store.MarkChecked(uid, ts);
      ChecksKeepStreaks(before, store.rows, streaks, was, ts);
    }

    method Recheck(uid: Uid, answer: Answer) returns (closed: nat)
      requires Valid() && Awaiting(store.rows, [uid], clock.time)
      modifies this, store, clock
      ensures Valid() && old(clock.time) <= clock.time && Checked(old(store.rows), store.rows, uid, old(clock.time))
      ensures answer == BudgetExhausted ==> store.rows == old(store.rows)
      ensures answer != BudgetExhausted ==>
        Acted(old(store.rows)[uid], store.rows[uid], uid, answer, old(clock.time), clock.time)
      ensures closed == if store.rows[uid].status == Closed then 1 else 0
    {
      assert uid in [uid];
      closed := 0;
      if answer == BudgetExhausted {
        return;
      }
      if answer == SourceDown {
        CountFailure(uid);
      } else if answer == NoSuchVacancy {
        closed := CloseGone(uid);
      } else if answer.Found? && answer.vacancy.uid == uid {
        closed := StoreAnswer(answer.vacancy);
      } else {
        Rotate(uid);
      }
    }

    /** `close_stale`: closes up to its limit of the candidates. */
    method CloseStale(source: string, seenBefore: int) returns (stale: nat, ghost chosen: set<Uid>)
      requires Valid()
      modifies store, clock
      ensures Valid() && old(clock.time) <= clock.time && store.rows.Keys == old(store.rows).Keys
      ensures GoneStays(old(store.rows), store.rows)
      ensures stale == |chosen| <= STALE_LIMIT
      ensures forall u :: u in chosen ==> u in old(store.rows) && StaleCandidate(old(store.rows)[u], source, seenBefore)
      ensures stale < STALE_LIMIT ==>
        forall u :: u in old(store.rows) && StaleCandidate(old(store.rows)[u], source, seenBefore) ==> u in chosen
      ensures forall u :: u in store.rows ==>
        ClosedRow(old(store.rows)[u], store.rows[u], u in chosen, Stale, clock.time)
      ensures ClosedSince(old(store.rows), store.rows) == chosen
    {
      ghost var before := store.rows;
      ghost var was := clock.time;
      var candidates := set u | u in store.rows && StaleCandidate(store.rows[u], source, seenBefore);
      var uids, victims := AtMost(candidates, STALE_LIMIT);
      chosen := victims;
      var now := clock.Now();
      stale := store.Close(uids, Stale, now);
      StaleAreClosed(before, store.rows, uids, victims, now);
      ChecksKeepStreaks(before, store.rows, streaks, was, now);
    }

    /**
     * `_run_adapter`: `pages` are the list results, `answers[k]` ends the k-th re-check request
     * (when they run out, so does the request budget). `listed` is the store between the two.
     */
    method RunAdapter(adapter: Adapter, pages: seq<seq<Vacancy>>, answers: seq<Answer>)
        returns (stats: Stats, processed: seq<Answer>, ghost listed: Table, ghost checked: Table,
                 ghost picked: seq<Uid>, ghost at: int, ghost began: int)
      requires Valid()
      modifies this, store, clock
      ensures Valid() && old(clock.time) <= clock.time
      ensures old(store.rows).Keys <= store.rows.Keys && GoneStays(old(store.rows), store.rows)
      ensures processed <= answers && BudgetExhausted !in processed && stats.tally == TallyOf(processed)
      ensures stats.staleSkipped <==>
        || (|processed| >= 3 && forall i :: |processed| - 3 <= i < |processed| ==> processed[i] == SourceDown)
        || (processed != [] && 2 * |DownAt(processed)| >= |processed|)
      ensures old(clock.time) <= began <= at <= clock.time
      ensures IsPick(listed, adapter.name, adapter.recheckPerRun, at, picked) && EndsInTime(picked, answers, processed)
      ensures AllActed(listed, checked, picked, processed, at, clock.time)
      ensures stats.staleSkipped ==> store.rows == checked
      ensures OnlyStaleClosed(checked, store.rows, adapter.name, began - adapter.staleAfterSeconds, clock.time)
      ensures !stats.staleSkipped && stats.stale < 2000 ==>
        NoneLeftStale(store.rows, adapter.name, began - adapter.staleAfterSeconds)
      ensures stats.seen == ItemsIn(pages) && stats.added == |store.rows| - |old(store.rows)|
      ensures listed.Keys == checked.Keys == store.rows.Keys
      ensures stats.closed == |ClosedSince(listed, checked)| && stats.stale == |ClosedSince(checked, store.rows)|
      ensures PagesFresh(listed, pages, old(clock.time))
      ensures forall u :: u in store.rows && store.rows[u].closeReason == Some(Stale)
                          && !(u in old(store.rows) && old(store.rows)[u].closeReason == Some(Stale)) ==>
        && !stats.staleSkipped
        && (store.rows[u].detailFailures > 0 ==> u in streaks && streaks[u] + 79 * HOUR <= clock.time)
      ensures adapter.staleAfterSeconds >= 0 ==> NoneStale(store.rows, pages)
    {
      var seen, added, closed, tally, started;
      seen, added, closed, tally, processed, started, listed, picked, at := ListAndRecheck(adapter, pages, answers);
      began := started;
      checked := store.rows;
      ghost var finished := clock.time;
      WhenStaleIsSkipped(processed);
      var stale := 0;
      if tally.SkipsStale() {
        assert ClosedSince(checked, checked) == {};
      } else {
        stale := StaleRule(adapter, started - adapter.staleAfterSeconds);
        SameSize(checked, store.rows);
      }
      StillFresh(checked, store.rows, pages, started, adapter.staleAfterSeconds);
      ActedBy(listed, checked, picked, processed, at, finished, clock.time);
      stats := Stats(seen, added, tally, closed, stale, tally.SkipsStale());
    }

    /** The first two parts of a run. */
    method ListAndRecheck(adapter: Adapter, pages: seq<seq<Vacancy>>, answers: seq<Answer>)
        returns (seen: nat, added: nat, closed: nat, tally: Tally, processed: seq<Answer>, started: int,
                 ghost listed: Table, ghost picked: seq<Uid>, ghost at: int)
      requires Valid()
      modifies this, store, clock
      ensures Valid() && old(clock.time) <= started <= at <= clock.time
      ensures old(store.rows).Keys <= store.rows.Keys && listed.Keys == store.rows.Keys
      ensures GoneStays(old(store.rows), store.rows) && NoNewStale(old(store.rows), store.rows)
      ensures seen == ItemsIn(pages) && added == |store.rows| - |old(store.rows)|
      ensures closed == |ClosedSince(listed, store.rows)|
      ensures processed <= answers && BudgetExhausted !in processed && tally == TallyOf(processed)
      ensures PagesFresh(listed, pages, old(clock.time)) && PagesFresh(store.rows, pages, started)
      ensures IsPick(listed, adapter.name, adapter.recheckPerRun, at, picked) && EndsInTime(picked, answers, processed)
      ensures AllActed(listed, store.rows, picked, processed, at, clock.time)
    {
      started := clock.Now();
      seen, added := Upserts(pages);
      listed := store.rows;
      closed, tally, processed, picked, at := RecheckSome(adapter, answers);
      AllFreshAfter(listed, store.rows, pages, started, started);
      SameSize(listed, store.rows);
    }

    /** The re-check part of a run: which rows are asked for, how far the answers get, and what each does to its row. */
    method RecheckSome(adapter: Adapter, answers: seq<Answer>)
        returns (closed: nat, tally: Tally, processed: seq<Answer>, ghost picked: seq<Uid>, ghost at: int)
      requires Valid()
      modifies this, store, clock
      ensures Valid() && old(clock.time) <= at <= clock.time && Kept(old(store.rows), store.rows, old(clock.time))
      ensures closed == |ClosedSince(old(store.rows), store.rows)|
      ensures processed <= answers && BudgetExhausted !in processed && tally == TallyOf(processed)
      ensures IsPick(old(store.rows), adapter.name, adapter.recheckPerRun, at, picked)
      ensures EndsInTime(picked, answers, processed)
      ensures AllActed(old(store.rows), store.rows, picked, processed, at, clock.time)
    {
      ghost var before, was := store.rows, clock.time;
      var now := clock.Now();
      at := now;
      ChecksKeepStreaks(before, before, streaks, was, now);
      var chosen := PickForRecheck(adapter.name, adapter.recheckPerRun, now);
      picked := chosen;
      closed, processed := RecheckAll(chosen, answers);
      tally := TallyOf(processed);
      WhatWasDone(before, store.rows, picked, answers, processed, was, now, clock.time, closed);
    }

    /** The last part of a run: only stale rows of the source are closed, no failing one within 79 hours. */
    method StaleRule(adapter: Adapter, seenBefore: int) returns (stale: nat)
      requires Valid()
      modifies store, clock
      ensures Valid() && old(clock.time) <= clock.time && store.rows.Keys == old(store.rows).Keys
      ensures GoneStays(old(store.rows), store.rows)
      ensures stale == |ClosedSince(old(store.rows), store.rows)|
      ensures forall u :: u in store.rows && store.rows[u].closeReason != old(store.rows)[u].closeReason ==>
        && old(store.rows)[u].lastSeenAt < seenBefore
        && (store.rows[u].detailFailures > 0 ==> u in streaks && streaks[u] + 79 * HOUR <= clock.time)
      ensures stale < 2000 ==> NoneLeftStale(store.rows, adapter.name, seenBefore)
      ensures OnlyStaleClosed(old(store.rows), store.rows, adapter.name, seenBefore, clock.time)
    {
      ghost var before, at := store.rows, clock.time;
      ghost var chosen;
      stale, chosen := CloseStale(adapter.name, seenBefore);
      forall u | u in store.rows && store.rows[u].closeReason != before[u].closeReason
        ensures before[u].lastSeenAt < seenBefore
        ensures store.rows[u].detailFailures > 0 ==> u in streaks && streaks[u] + 79 * HOUR <= clock.time
      {
        assert ClosedRow(before[u], store.rows[u], u in chosen, Stale, clock.time);
        if store.rows[u].detailFailures > 0 {
          StaleOnlyAfterGivingUp(before, streaks, at, u, adapter.name, seenBefore);
        }
      }
      StaleOnly(before, store.rows, chosen, adapter.name, seenBefore, clock.time);
      if stale < STALE_LIMIT {
        AllStaleAreClosed(before, store.rows, chosen, adapter.name, seenBefore, clock.time);
      }
    }

    /** Stores the pages; what any of them lists is fresh. */
    method Upserts(pages: seq<seq<Vacancy>>) returns (seen: nat, added: nat)
      requires Valid()
      modifies store, clock
      ensures Valid() && old(clock.time) <= clock.time && old(store.rows).Keys <= store.rows.Keys
      ensures GoneStays(old(store.rows), store.rows) && NoNewStale(old(store.rows), store.rows)
      ensures seen == ItemsIn(pages) && added == |store.rows| - |old(store.rows)|
      ensures PagesFresh(store.rows, pages, old(clock.time))
    {
      seen, added := 0, 0;
      for i := 0 to |pages|
        invariant Valid() && old(clock.time) <= clock.time && old(store.rows).Keys <= store.rows.Keys
        invariant GoneStays(old(store.rows), store.rows) && NoNewStale(old(store.rows), store.rows)
        invariant seen == ItemsIn(pages[..i]) && added == |store.rows| - |old(store.rows)|
        invariant PagesFresh(store.rows, pages[..i], old(clock.time))
      {
        ghost var before := store.rows;
        var more := StorePage(pages[i]);
        seen, added := seen + |pages[i]|, added + more;
        OnePageMore(before, store.rows, pages, i, old(clock.time), clock.time);
      }
      assert pages[..|pages|] == pages;
    }

    method StorePage(page: seq<Vacancy>) returns (added: nat)
      requires Valid()
      modifies store, clock
      ensures Valid() && old(clock.time) <= clock.time && old(store.rows).Keys <= store.rows.Keys
      ensures GoneStays(old(store.rows), store.rows) && NoNewStale(old(store.rows), store.rows)
      ensures FreshStay(old(store.rows), store.rows, clock.time) && AllFresh(store.rows, page, clock.time)
      ensures added == |store.rows| - |old(store.rows)|
    {
      ghost var before := store.rows;
      ghost var was := clock.time;
      var now := clock.Now();
      added := store.UpsertBatch(page, now);
      ChecksKeepStreaks(before, store.rows, streaks, was, now);
    }

    method RecheckNth(picked: seq<Uid>, i: nat, answer: Answer, ghost first: Table, ghost since: int)
        returns (closed: nat)
      requires Valid() && i < |picked| && Distinct(picked) && Awaiting(store.rows, picked[i..], clock.time)
      requires Kept(first, store.rows, since) && since <= clock.time && AllOpen(first, picked)
      requires answer != BudgetExhausted
      modifies this, store, clock
      ensures Valid() && old(clock.time) <= clock.time && Awaiting(store.rows, picked[i + 1..], clock.time)
      ensures Kept(first, store.rows, since)
      ensures |ClosedSince(first, store.rows)| == |ClosedSince(first, old(store.rows))| + closed
      ensures Checked(old(store.rows), store.rows, picked[i], old(clock.time))
      ensures OnlyThese(old(store.rows), store.rows, [picked[i]])
      ensures ActedOn(old(store.rows), store.rows, picked[i], answer, old(clock.time), clock.time)
    {
      ghost var before, at := store.rows, clock.time;
      assert picked[i..][0] == picked[i];
      closed := Recheck(picked[i], answer);
      StillAwaiting(before, store.rows, picked, i, at, clock.time);
      KeptThrough(first, before, store.rows, picked[i], since, at);
      OneMoreClosed(first, before, store.rows, picked[i]);
    }

    method RecheckNext(picked: seq<Uid>, answers: seq<Answer>, i: nat, sofar: nat,
        ghost first: Table, ghost since: int) returns (closed: nat)
      requires Valid() && Halfway(first, store.rows, picked, answers, i, since, clock.time, sofar)
      requires i < |picked| && i < |answers| && answers[i] != BudgetExhausted
      modifies this, store, clock
      ensures Valid() && Halfway(first, store.rows, picked, answers, i + 1, since, clock.time, closed)
    {
      ghost var before, at := store.rows, clock.time;
      var more := RecheckNth(picked, i, answers[i], first, since);
      closed := sofar + more;
      OneFurther(first, before, store.rows, picked, answers, i, since, at, clock.time, sofar, more);
    }

    /** Asks for the picked rows in turn, until the budget is gone or an outage shows; returns how many got closed. */
    method RecheckAll(picked: seq<Uid>, answers: seq<Answer>) returns (closed: nat, processed: seq<Answer>)
      requires Valid() && Distinct(picked) && Awaiting(store.rows, picked, clock.time)
      modifies this, store, clock
      ensures Valid() && EndsInTime(picked, answers, processed) && BudgetExhausted !in processed
      ensures Halfway(old(store.rows), store.rows, picked, answers, |processed|, old(clock.time), clock.time, closed)
    {
      closed := 0;
      var i, tally := 0, TallyOf([]);
      ghost var first, since := store.rows, clock.time;
      NothingDone(first, picked, answers, since);
      while i < |picked| && i < |answers| && answers[i] != BudgetExhausted && !tally.Outage()
        invariant 0 <= i <= |picked| && i <= |answers| && BudgetExhausted !in answers[..i]
        invariant Valid() && Halfway(first, store.rows, picked, answers, i, since, clock.time, closed)
        invariant tally == TallyOf(answers[..i]) && forall k :: 0 <= k < i ==> !ThreeDown(answers, k)
      {
        OutageAfter(answers, i);
        OneAnswerMore(answers, i);
        closed := RecheckNext(picked, answers, i, closed, first, since);
        tally := tally.Next(answers[i]);
        i := i + 1;
      }
      OutageAfter(answers, i);
      processed := answers[..i];
    }
  }

  /** Where the re-checks stand after some answers: what was closed, what was done, and that the rest awaits. */
  ghost predicate Halfway(t: Table, after: Table, picked: seq<Uid>, answers: seq<Answer>, n: nat, since: int,
      now: int, closed: nat)
  {
    && since <= now && n <= |picked| && n <= |answers| && Distinct(picked) && AllOpen(t, picked)
    && Awaiting(after, picked[n..], now) && Kept(t, after, since)
    && AllActed(t, after, picked, answers[..n], since, now) && closed == |ClosedSince(t, after)|
  }

  lemma NothingDone(t: Table, picked: seq<Uid>, answers: seq<Answer>, now: int)
    requires Distinct(picked) && Awaiting(t, picked, now)
    ensures Halfway(t, t, picked, answers, 0, now, now, 0)
  {
    assert ClosedSince(t, t) == {};
    assert picked[0..] == picked;
  }

  lemma OneFurther(t: Table, mid: Table, after: Table, picked: seq<Uid>, answers: seq<Answer>, i: nat,
      since: int, at: int, now: int, sofar: nat, more: nat)
    requires Halfway(t, mid, picked, answers, i, since, at, sofar) && i < |picked| && i < |answers| && at <= now
    requires Awaiting(after, picked[i + 1..], now) && Kept(t, after, since)
    requires |ClosedSince(t, after)| == |ClosedSince(t, mid)| + more
    requires OnlyThese(mid, after, [picked[i]]) && ActedOn(mid, after, picked[i], answers[i], at, now)
    ensures Halfway(t, after, picked, answers, i + 1, since, now, sofar + more)
  {
    ActedOnOneMore(t, mid, after, picked, answers[..i], answers[i], since, at, now);
    assert answers[..i] + [answers[i]] == answers[..i + 1];
  }

  /** The requests stop short of the picked rows where the answers end, at the budget, or after three failures in a
      row, and only there; no request follows three failures in a row. */
  ghost predicate EndsInTime(picked: seq<Uid>, answers: seq<Answer>, processed: seq<Answer>) {
    && processed <= answers && |processed| <= |picked|
    && (|processed| < |picked| ==>
          || |processed| == |answers| || answers[|processed|] == BudgetExhausted
          || ThreeDown(answers, |processed|))
    && forall k :: 0 <= k < |processed| ==> !ThreeDown(answers, k)
  }

  /** The k-th answer acted on the k-th picked row, and on no other row. */
  ghost predicate AllActed(t: Table, after: Table, picked: seq<Uid>, processed: seq<Answer>, since: int, now: int) {
    && |processed| <= |picked| && OnlyThese(t, after, picked[..|processed|])
    && forall k {:trigger ActedOn(t, after, picked[k], processed[k], since, now)} ::
         0 <= k < |processed| ==> ActedOn(t, after, picked[k], processed[k], since, now)
  }

  /** No row but these changes, its group columns aside. */
  ghost predicate OnlyThese(t: Table, after: Table, uids: seq<Uid>) {
    after.Keys == t.Keys && forall u :: u in t && u !in uids ==> Facts(after[u]) == Facts(t[u])
  }

  ghost predicate ActedOn(t: Table, after: Table, uid: Uid, a: Answer, since: int, now: int) {
    uid in t && uid in after && Acted(t[uid], after[uid], uid, a, since, now)
  }

  lemma ActedBy(t: Table, after: Table, picked: seq<Uid>, processed: seq<Answer>, since: int, at: int, now: int)
    requires AllActed(t, after, picked, processed, since, at) && at <= now
    ensures AllActed(t, after, picked, processed, since, now)
  {
    forall k | 0 <= k < |processed|
      ensures ActedOn(t, after, picked[k], processed[k], since, now)
    {
      assert ActedOn(t, after, picked[k], processed[k], since, at);
    }
  }

  lemma FactsDecide(r: Row, mid: Row, after: Row, uid: Uid, a: Answer, since: int, at: int, now: int)
    requires Acted(r, mid, uid, a, since, at) && Facts(after) == Facts(mid) && at <= now
    ensures Acted(r, after, uid, a, since, now)
  {
    assert after.checkedAt == mid.checkedAt && after.status == mid.status && after.closeReason == mid.closeReason;
    assert after.title == mid.title && after.employerKey == mid.employerKey && after.dedupKey == mid.dedupKey;
    assert after.quality == mid.quality && after.publishedAt == mid.publishedAt && after.source == mid.source;
    assert after.detailFailures == mid.detailFailures && after.recheckAfter == mid.recheckAfter;
    assert after.lastSeenAt == mid.lastSeenAt;
  }

  lemma FactsStart(r: Row, same: Row, after: Row, uid: Uid, a: Answer, since: int, at: int, now: int)
    requires Acted(same, after, uid, a, at, now) && Facts(same) == Facts(r) && since <= at
    ensures Acted(r, after, uid, a, since, now)
  {
    assert same.detailFailures == r.detailFailures && same.source == r.source;
    assert same == r.(group := same.group, dupOf := same.dupOf);
  }

  lemma ActedLater(t: Table, mid: Table, after: Table, uid: Uid, a: Answer, since: int, at: int, now: int)
    requires ActedOn(t, mid, uid, a, since, at) && uid in after && Facts(after[uid]) == Facts(mid[uid]) && at <= now
    ensures ActedOn(t, after, uid, a, since, now)
  {
    FactsDecide(t[uid], mid[uid], after[uid], uid, a, since, at, now);
  }

  lemma ActedFrom(t: Table, mid: Table, after: Table, uid: Uid, a: Answer, since: int, at: int, now: int)
    requires ActedOn(mid, after, uid, a, at, now) && uid in t && Facts(mid[uid]) == Facts(t[uid]) && since <= at
    ensures ActedOn(t, after, uid, a, since, now)
  {
    FactsStart(t[uid], mid[uid], after[uid], uid, a, since, at, now);
  }

  lemma ActedOnOneMore(t: Table, mid: Table, after: Table, picked: seq<Uid>, processed: seq<Answer>, a: Answer,
      since: int, at: int, now: int)
    requires AllActed(t, mid, picked, processed, since, at) && since <= at <= now
    requires |processed| < |picked| && Distinct(picked) && picked[|processed|] in t
    requires OnlyThese(mid, after, [picked[|processed|]]) && ActedOn(mid, after, picked[|processed|], a, at, now)
    ensures AllActed(t, after, picked, processed + [a], since, now)
  {
    var i := |processed|;
    forall k | 0 <= k <= i
      ensures ActedOn(t, after, picked[k], (processed + [a])[k], since, now)
    {
      NthActed(t, mid, after, picked, processed, a, since, at, now, k);
    }
    assert picked[..i + 1] == picked[..i] + [picked[i]];
    OnlyTheseThrough(t, mid, after, picked[..i], picked[i]);
  }

  lemma OnlyTheseThrough(t: Table, mid: Table, after: Table, uids: seq<Uid>, uid: Uid)
    requires OnlyThese(t, mid, uids) && OnlyThese(mid, after, [uid])
    ensures OnlyThese(t, after, uids + [uid])
  {
    forall u | u in t && u !in uids + [uid]
      ensures Facts(after[u]) == Facts(t[u])
    {
      assert u !in [uid];
    }
  }

  lemma NthActed(t: Table, mid: Table, after: Table, picked: seq<Uid>, processed: seq<Answer>, a: Answer,
      since: int, at: int, now: int, k: nat)
    requires AllActed(t, mid, picked, processed, since, at) && since <= at <= now
    requires k <= |processed| < |picked| && Distinct(picked) && picked[|processed|] in t
    requires OnlyThese(mid, after, [picked[|processed|]]) && ActedOn(mid, after, picked[|processed|], a, at, now)
    ensures ActedOn(t, after, picked[k], (processed + [a])[k], since, now)
  {
    var i := |processed|;
    if k < i {
      assert ActedOn(t, mid, picked[k], processed[k], since, at);
      assert picked[k] in mid && picked[k] !in [picked[i]];
      ActedLater(t, mid, after, picked[k], processed[k], since, at, now);
    } else {
      assert picked[i] !in picked[..i];
      ActedFrom(t, mid, after, picked[i], a, since, at, now);
    }
  }

  lemma FirstArePicked(t: Table, source: string, limit: int, now: int, picked: seq<Uid>)
    requires Distinct(picked) && (|picked| <= limit || picked == [])
    requires forall u :: u in picked ==> u in t && Eligible(t[u], source, now)
    requires forall i, j :: 0 <= i < j < |picked| ==> !PickedBefore(t[picked[j]], t[picked[i]])
    requires forall u :: u in t && Eligible(t[u], source, now) && u !in picked ==>
      |picked| >= limit && forall p :: p in picked ==> !PickedBefore(t[u], t[p])
    ensures IsPick(t, source, limit, now, picked)
  {
    forall i, j | 0 <= i < j < |picked|
      ensures NoLater(t[picked[i]], t[picked[j]])
    {
      assert !PickedBefore(t[picked[j]], t[picked[i]]);
    }
    forall u | u in t && t[u].source == source && t[u].status == Open
               && (t[u].recheckAfter == None || t[u].recheckAfter.value <= now) && u !in picked
      ensures |picked| >= limit && forall p :: p in picked ==> NoLater(t[p], t[u])
    {
      assert Eligible(t[u], source, now);
      forall p | p in picked
        ensures NoLater(t[p], t[u])
      {
        assert !PickedBefore(t[u], t[p]);
      }
    }
  }

  ghost predicate AllOpen(t: Table, uids: seq<Uid>) { forall u :: u in uids ==> u in t && t[u].status == Open }

  /** A re-check adds its own row to the closed ones, or nothing. */
  lemma OneMoreClosed(t: Table, mid: Table, after: Table, uid: Uid)
    requires t.Keys == mid.Keys && OnlyThese(mid, after, [uid]) && uid in t
    requires t[uid].status == Open && mid[uid].status == Open
    ensures |ClosedSince(t, after)| == |ClosedSince(t, mid)| + if after[uid].status == Closed then 1 else 0
  {
    forall u | u in t && u != uid
      ensures after[u].status == mid[u].status
    {
      assert u !in [uid] && Facts(after[u]).status == Facts(mid[u]).status;
    }
    assert ClosedSince(t, after) == ClosedSince(t, mid) + if after[uid].status == Closed then {uid} else {};
    assert uid !in ClosedSince(t, mid);
  }

  lemma StaleAreClosed(t: Table, after: Table, uids: seq<Uid>, chosen: set<Uid>, now: int)
    requires after.Keys == t.Keys && chosen <= t.Keys && forall u :: u in uids <==> u in chosen
    requires forall u :: u in after ==> ClosedRow(t[u], after[u], u in uids, Stale, now)
    requires forall u :: u in chosen ==> t[u].status == Open
    ensures ClosedSince(t, after) == chosen && OpenAmong(t, uids) == chosen
    ensures forall u :: u in after ==> ClosedRow(t[u], after[u], u in chosen, Stale, now)
  {
    forall u | u in after
      ensures ClosedRow(t[u], after[u], u in chosen, Stale, now)
    {
      assert ClosedRow(t[u], after[u], u in uids, Stale, now);
    }
  }

  /** No open row of the source was last seen before `seenBefore`, unless its re-checks are failing and have not been
      given up. */
  ghost predicate NoneLeftStale(t: Table, source: string, seenBefore: int) {
    forall u :: u in t && t[u].source == source && t[u].status == Open && t[u].lastSeenAt < seenBefore ==>
      0 < t[u].detailFailures < 8
  }

  /** A row is as it was, or an open row of the source, last seen before `seenBefore` and not in the middle of a failing
      streak, is closed as stale. */
  ghost predicate OnlyStaleClosed(t: Table, after: Table, source: string, seenBefore: int, now: int) {
    after.Keys == t.Keys &&
    forall u :: u in t ==> Facts(after[u]) == Facts(t[u]) || WentStale(t[u], after[u], source, seenBefore, now)
  }

  predicate WentStale(r: Row, after: Row, source: string, seenBefore: int, now: int) {
    && r.source == source && r.status == Open && r.lastSeenAt < seenBefore && !(0 < r.detailFailures < 8)
    && Facts(after) == Facts(r.(status := Closed, closeReason := Some(Stale), closedAt := Some(now),
                                checkedAt := Some(now)))
  }

  lemma StaleOnly(t: Table, after: Table, chosen: set<Uid>, source: string, seenBefore: int, now: int)
    requires after.Keys == t.Keys && forall u :: u in after ==> ClosedRow(t[u], after[u], u in chosen, Stale, now)
    requires forall u :: u in chosen ==> u in t && StaleCandidate(t[u], source, seenBefore)
    ensures OnlyStaleClosed(t, after, source, seenBefore, now)
  {
    forall u | u in t && Facts(after[u]) != Facts(t[u])
      ensures u in chosen
    {
      assert ClosedRow(t[u], after[u], u in chosen, Stale, now);
    }
    forall u | u in chosen
      ensures u in t && u in after && ClosedRow(t[u], after[u], true, Stale, now)
    {
      assert ClosedRow(t[u], after[u], u in chosen, Stale, now);
    }
  }

  lemma AllStaleAreClosed(t: Table, after: Table, chosen: set<Uid>, source: string, seenBefore: int, now: int)
    requires after.Keys == t.Keys && forall u :: u in after ==> ClosedRow(t[u], after[u], u in chosen, Stale, now)
    requires forall u :: u in t && StaleCandidate(t[u], source, seenBefore) ==> u in chosen
    ensures NoneLeftStale(after, source, seenBefore)
  {
    forall u | u in after && after[u].source == source && after[u].status == Open && after[u].lastSeenAt < seenBefore
      ensures 0 < after[u].detailFailures < 8
    {
      LeftOpen(t[u], after[u], u in chosen, now);
    }
  }

  lemma LeftOpen(r: Row, after: Row, named: bool, now: int)
    requires ClosedRow(r, after, named, Stale, now)
    ensures after.source == r.source && after.lastSeenAt == r.lastSeenAt && after.detailFailures == r.detailFailures
    ensures after.status == Open <==> r.status == Open && !named
  {
  }

  lemma SameSize(t: Table, after: Table)
    requires t.Keys == after.Keys
    ensures |t| == |after|
  {
    assert |t| == |t.Keys| && |after| == |after.Keys|;
  }

  ghost predicate PagesFresh(t: Table, pages: seq<seq<Vacancy>>, since: int) {
    forall i :: 0 <= i < |pages| ==> AllFresh(t, pages[i], since)
  }

  /** No row that the pages list is closed as stale. */
  ghost predicate NoneStale(t: Table, pages: seq<seq<Vacancy>>) {
    forall i, v :: 0 <= i < |pages| && v in pages[i] ==> v.uid in t && t[v.uid].closeReason != Some(Stale)
  }

  lemma OnePageMore(t: Table, after: Table, pages: seq<seq<Vacancy>>, i: nat, since: int, now: int)
    requires i < |pages| && PagesFresh(t, pages[..i], since) && FreshStay(t, after, now) && since <= now
    requires AllFresh(after, pages[i], now)
    ensures PagesFresh(after, pages[..i + 1], since) && pages[..i + 1][..i] == pages[..i]
  {
    AllFreshAfter(t, after, pages[..i], since, now);
    var more := pages[..i + 1];
    forall k | 0 <= k < |more|
      ensures AllFresh(after, more[k], since)
    {
      if k < i {
        assert pages[..i][k] == more[k];
      }
    }
  }

  lemma AllFreshAfter(t: Table, after: Table, pages: seq<seq<Vacancy>>, since: int, limit: int)
    requires FreshStay(t, after, limit) && since <= limit
    requires PagesFresh(t, pages, since)
    ensures PagesFresh(after, pages, since)
  {
    forall i | 0 <= i < |pages|
      ensures AllFresh(after, pages[i], since)
    {
      AllFreshStay(t, after, pages[i], since, limit);
    }
  }

  /** The stale rule closes no row that was seen since the run began. */
  lemma StillFresh(t: Table, after: Table, pages: seq<seq<Vacancy>>, since: int, staleAfter: int)
    requires t.Keys == after.Keys && PagesFresh(t, pages, since)
    requires forall u :: u in after && after[u].closeReason != t[u].closeReason ==> t[u].lastSeenAt < since - staleAfter
    ensures staleAfter >= 0 ==> NoneStale(after, pages)
  {
    forall i, v | 0 <= i < |pages| && v in pages[i] && staleAfter >= 0
      ensures v.uid in after && after[v.uid].closeReason != Some(Stale)
    {
      var k :| 0 <= k < |pages[i]| && pages[i][k] == v;
      assert AllFresh(t, pages[i], since) && Fresh(t[pages[i][k].uid], since);
    }
  }

  /** Open rows whose wait is over. */
  ghost predicate Awaiting(t: Table, uids: seq<Uid>, now: int) {
    forall u :: u in uids ==>
      u in t && t[u].status == Open && (t[u].recheckAfter.Some? ==> t[u].recheckAfter.value <= now)
  }

  /** What one re-check of `uid` leaves alone. */
  ghost predicate Checked(t: Table, after: Table, uid: Uid, since: int) {
    && after.Keys == t.Keys && uid in t && FreshStay(t, after, since)
    && GoneStays(t, after) && NoNewStale(t, after)
    && forall u :: u in t && u != uid ==> Facts(after[u]) == Facts(t[u])
  }

  lemma GoneIsChecked(t: Table, after: Table, uid: Uid, was: int, now: int)
    requires after.Keys == t.Keys && uid in t && t[uid].status == Open && was <= now
    requires forall u :: u in after ==> ClosedRow(t[u], after[u], u in [uid], Gone, now)
    requires GoneStays(t, after) && FreshStay(t, after, now)
    ensures Checked(t, after, uid, was) && Acted(t[uid], after[uid], uid, NoSuchVacancy, now, now)
    ensures after[uid].status == Closed && IsGone(after[uid])
  {
    forall u | u in after
      ensures ClosedRow(t[u], after[u], u == uid, Gone, now)
    {
      assert ClosedRow(t[u], after[u], u in [uid], Gone, now);
    }
  }

  lemma AnswerIsChecked(t: Table, after: Table, uid: Uid, was: int, now: int)
    requires after.Keys == t.Keys + {uid} && uid in t && was <= now
    requires forall u :: u in t && u != uid ==> Facts(after[u]) == Facts(t[u])
    requires GoneStays(t, after) && NoNewStale(t, after) && FreshStay(t, after, now)
    ensures Checked(t, after, uid, was)
  {
  }

  /** What a sequence of re-checks keeps of the rows it started from. */
  ghost predicate Kept(t: Table, after: Table, since: int) {
    GoneStays(t, after) && NoNewStale(t, after) && t.Keys == after.Keys && FreshStay(t, after, since)
  }

  lemma WhatWasDone(t: Table, after: Table, picked: seq<Uid>, answers: seq<Answer>, processed: seq<Answer>,
      sooner: int, since: int, now: int, closed: nat)
    requires processed <= answers && Halfway(t, after, picked, answers, |processed|, since, now, closed)
    requires sooner <= since
    ensures Kept(t, after, sooner) && closed == |ClosedSince(t, after)| && since <= now
    ensures AllActed(t, after, picked, processed, since, now)
  {
    assert answers[..|processed|] == processed;
  }

  lemma KeptThrough(t: Table, mid: Table, after: Table, uid: Uid, since: int, later: int)
    requires Kept(t, mid, since) && Checked(mid, after, uid, later) && since <= later
    ensures Kept(t, after, since)
  {
    FreshThrough(t, mid, after, since, later);
  }

  lemma StillAwaiting(t: Table, after: Table, picked: seq<Uid>, i: nat, was: int, now: int)
    requires i < |picked| && Distinct(picked) && Awaiting(t, picked[i..], was) && was <= now
    requires Checked(t, after, picked[i], was)
    ensures Awaiting(after, picked[i + 1..], now)
  {
    forall u | u in picked[i + 1..]
      ensures u in picked[i..] && u != picked[i]
    {
      var j :| 0 <= j < |picked[i + 1..]| && picked[i + 1..][j] == u;
      assert picked[i..][j + 1] == u && picked[i + 1 + j] == u;
    }
  }
}
