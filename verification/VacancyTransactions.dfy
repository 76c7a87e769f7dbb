/** The write transactions of the vacancy store, as functions from table to table. */
module VacancyTransactions {
  import opened Basics
  import opened Vacancies
  import opened Dedup

  const DETAIL_BACKOFF_BASE := 3_600
  const DETAIL_BACKOFF_MAX := 86_400
  const DETAIL_FAILURE_GIVE_UP := 8

  function Coalesce<T>(a: Option<T>, b: Option<T>): Option<T> { if a.Some? then a else b }

  predicate IsGone(r: Row) { r.closeReason == Some(Gone) }

  // ---------------------------------------------------------------- list results

  function NewRow(v: Vacancy, now: int): Row {
    Row(v.source, v.title, v.employerKey, v.region, v.district, v.publishedAt, v.quality, v.dedupKey,
        if v.isOpen then Open else Closed, if v.isOpen then None else Some(SourceClosed),
        if v.isOpen then None else Some(now), now, None, 0, None, None, None)
  }

  /** ON CONFLICT of a list sighting; a row the detail endpoint called gone keeps its state. */
  function Sighted(r: Row, v: Vacancy, now: int): Row {
    var entry := NewRow(v, now);
    r.(title := v.title, employerKey := v.employerKey,
       region := Coalesce(v.region, r.region), district := Coalesce(v.district, r.district),
       publishedAt := v.publishedAt, dedupKey := v.dedupKey, lastSeenAt := now,
       status := if IsGone(r) then r.status else entry.status,
       closedAt := if IsGone(r) then r.closedAt else entry.closedAt,
       closeReason := if IsGone(r) then r.closeReason else entry.closeReason,
       quality := if r.checkedAt.None? then v.quality else Max(r.quality, v.quality))
  }

  function SeenRow(t: Table, v: Vacancy, now: int): Row {
    if v.uid in t then Sighted(t[v.uid], v, now) else NewRow(v, now)
  }

  function Sight(t: Table, v: Vacancy, now: int): Table { t[v.uid := SeenRow(t, v, now)] }

  function SightAll(t: Table, items: seq<Vacancy>, now: int): Table {
    if items == [] then t else Sight(SightAll(t, items[..|items| - 1], now), items[|items| - 1], now)
  }

  /** What a list sighting stores: everything for a new row; for a known one the listed columns, the district and region
      only if they are given, the better quality once a detail answer has been seen, and no status of a gone row. */
  lemma SightingStores(t: Table, v: Vacancy, now: int)
    ensures var row := SeenRow(t, v, now);
            && row.title == v.title && row.employerKey == v.employerKey && row.dedupKey == v.dedupKey
            && row.publishedAt == v.publishedAt && row.lastSeenAt == now
            && if v.uid !in t then
                 && row.source == v.source && row.region == v.region && row.district == v.district
                 && row.quality == v.quality && row.status == (if v.isOpen then Open else Closed)
                 && row.closeReason == (if v.isOpen then None else Some(SourceClosed))
                 && row.closedAt == (if v.isOpen then None else Some(now))
                 && row.checkedAt == None && row.detailFailures == 0 && row.recheckAfter == None
                 && row.group == None && row.dupOf == None
               else
                 var was := t[v.uid];
                 && row.source == was.source && row.checkedAt == was.checkedAt && row.group == was.group
                 && row.dupOf == was.dupOf && row.detailFailures == was.detailFailures
                 && row.recheckAfter == was.recheckAfter
                 && row.region == (if v.region == None then was.region else v.region)
                 && row.district == (if v.district == None then was.district else v.district)
                 && (was.checkedAt == None ==> row.quality == v.quality)
                 && (was.checkedAt != None ==>
                       && row.quality >= was.quality && row.quality >= v.quality
                       && row.quality in {was.quality, v.quality})
                 && (was.closeReason == Some(Gone) ==>
                       row.status == was.status && row.closedAt == was.closedAt && row.closeReason == Some(Gone))
                 && (was.closeReason != Some(Gone) ==>
                       && row.status == (if v.isOpen then Open else Closed)
                       && row.closeReason == (if v.isOpen then None else Some(SourceClosed))
                       && row.closedAt == (if v.isOpen then None else Some(now)))
  {
  }

  /** New to the store, or changed in a way that may move it to another group. */
  predicate NeedsGroup(t: Table, v: Vacancy) {
    || v.uid !in t
    || t[v.uid].dedupKey != v.dedupKey
    || (v.district.Some? && t[v.uid].district != v.district)
  }

  /** Closed by the source, or seen again after it was closed. */
  predicate StatusMoved(t: Table, v: Vacancy) { !v.isOpen || (v.uid in t && t[v.uid].status == Closed) }

  function Uids(items: seq<Vacancy>, keep: Vacancy -> bool): seq<Uid> {
    if items == [] then []
    else
      var front := Uids(items[..|items| - 1], keep);
      var v := items[|items| - 1];
      if keep(v) then front + [v.uid] else front
  }

  function ToGroup(t: Table, items: seq<Vacancy>): seq<Uid> { Uids(items, (v: Vacancy) => NeedsGroup(t, v)) }

  function Moved(t: Table, items: seq<Vacancy>): seq<Uid> { Uids(items, (v: Vacancy) => StatusMoved(t, v)) }

  ghost function RegroupFor(t: Table, uids: seq<Uid>): Table { RegroupAll(t, GroupsOf(t, uids)) }

  /** One chunk of `upsert_batch`. */
  ghost function UpsertChunk(m: Matching, t: Table, items: seq<Vacancy>, now: int): Table {
    var grouped := AssignAll(m, SightAll(t, items, now), ToGroup(t, items));
    if Moved(t, items) == [] then grouped else RegroupFor(grouped, Moved(t, items))
  }

  predicate DistinctUids(items: seq<Vacancy>) {
    forall i, j :: 0 <= i < j < |items| ==> items[i].uid != items[j].uid
  }

  lemma {:induction false} UidsAreKept(items: seq<Vacancy>, keep: Vacancy -> bool)
    ensures forall u :: u in Uids(items, keep) ==> exists i :: 0 <= i < |items| && items[i].uid == u && keep(items[i])
    ensures forall i :: 0 <= i < |items| && keep(items[i]) ==> items[i].uid in Uids(items, keep)
  {
    if items != [] {
      UidsAreKept(items[..|items| - 1], keep);
    }
  }

  ghost predicate Mentions(items: seq<Vacancy>, u: Uid) { exists i :: 0 <= i < |items| && items[i].uid == u }

  lemma {:induction false} UnseenRows(t: Table, items: seq<Vacancy>, now: int, u: Uid)
    ensures u in t ==> u in SightAll(t, items, now)
    ensures u in SightAll(t, items, now) && !Mentions(items, u) ==> u in t && SightAll(t, items, now)[u] == t[u]
  {
    if items != [] {
      UnseenRows(t, items[..|items| - 1], now, u);
      assert Mentions(items[..|items| - 1], u) ==> Mentions(items, u);
      assert items[|items| - 1].uid == u ==> Mentions(items, u);
    }
  }

  lemma {:induction false} SeenRows(t: Table, items: seq<Vacancy>, now: int, i: nat)
    requires DistinctUids(items) && i < |items|
    ensures items[i].uid in SightAll(t, items, now)
    ensures SightAll(t, items, now)[items[i].uid] == SeenRow(t, items[i], now)
  {
    var front := items[..|items| - 1];
    var v := items[|items| - 1];
    if i < |front| {
      SeenRows(t, front, now, i);
      assert items[i].uid != v.uid;
    } else {
      UnseenRows(t, front, now, v.uid);
      assert !Mentions(front, v.uid);
    }
  }

  /** Which rows of a list result are assigned to a group again: new ones, and those whose key or district changed. */
  lemma WhoIsAssigned(t: Table, items: seq<Vacancy>, u: Uid)
    requires DistinctUids(items)
    ensures u in ToGroup(t, items) <==>
      exists i :: 0 <= i < |items| && items[i].uid == u
                  && (|| u !in t || t[u].dedupKey != items[i].dedupKey
                      || (items[i].district.Some? && t[u].district != items[i].district))
  {
    UidsAreKept(items, (v: Vacancy) => NeedsGroup(t, v));
  }

  /** A re-sighted open row whose key or district changed, and which matches neither a fellow nor anyone else now, ends
      alone and visible, and its former fellows without it. */
  lemma ChangedRowSplitsOut(m: Matching, t: Table, v: Vacancy, now: int)
    requires Consistent(t) && v.uid in t && t[v.uid].status == Open && v.isOpen
    requires t[v.uid].dedupKey != v.dedupKey || (v.district.Some? && t[v.uid].district != v.district)
    requires var seen := Sight(t, v, now);
             && (forall i :: 0 <= i < |m.scanGroup(seen, v.uid)| ==>
                   var c := m.scanGroup(seen, v.uid)[i];
                   !(c in seen && c != v.uid && seen[c].group == seen[v.uid].group && IsMatch(m, seen[v.uid], seen[c])))
             && FindMatch(m, Detach(seen, v.uid), v.uid) == None
    ensures var after := UpsertChunk(m, t, [v], now);
            && after.Keys == t.Keys
            && after[v.uid].group == Some(v.uid) && after[v.uid].dupOf == None && after[v.uid].status == Open
            && forall u :: u in t && u != v.uid ==> after[u].group != Some(v.uid) && after[u].dupOf != Some(v.uid)
  {
    OneSighting(m, t, v, now);
    var seen := Sight(t, v, now);
    SightAllWorks(t, [v], now);
    AssignOneOutcome(m, seen, v.uid, {});
    AssignOneWorks(m, seen, v.uid, {});
    AssignOneFacts(m, seen, v.uid);
    var after := AssignOne(m, seen, v.uid);
    assert Facts(after[v.uid]) == Facts(seen[v.uid]);
    forall u | u in t && u != v.uid
      ensures after[u].dupOf != Some(v.uid)
    {
      assert RowOk(after, {}, u);
    }
  }

  /** A re-sighted open row with the same key and district is not grouped anew. */
  lemma UnchangedRowStays(m: Matching, t: Table, v: Vacancy, now: int)
    requires v.uid in t && t[v.uid].status == Open && v.isOpen
    requires t[v.uid].dedupKey == v.dedupKey && (v.district == None || t[v.uid].district == v.district)
    ensures UpsertChunk(m, t, [v], now) == Sight(t, v, now)
  {
    OneSighting(m, t, v, now);
  }

  lemma OneSighting(m: Matching, t: Table, v: Vacancy, now: int)
    requires v.uid in t && t[v.uid].status == Open && v.isOpen
    ensures SightAll(t, [v], now) == Sight(t, v, now) && Moved(t, [v]) == []
    ensures ToGroup(t, [v]) == if NeedsGroup(t, v) then [v.uid] else []
    ensures UpsertChunk(m, t, [v], now)
         == if NeedsGroup(t, v) then AssignOne(m, Sight(t, v, now), v.uid) else Sight(t, v, now)
  {
    assert [v][..0] == [] && SightAll(t, [], now) == t;
    var needs, moved := (x: Vacancy) => NeedsGroup(t, x), (x: Vacancy) => StatusMoved(t, x);
    assert Uids([], needs) == [] && Uids([], moved) == [];
    assert Uids([v], moved) == [] && Uids([v], needs) == if NeedsGroup(t, v) then [v.uid] else [];
    assert [v.uid][1..] == [];
    var seen := Sight(t, v, now);
    assert AssignAll(m, AssignOne(m, seen, v.uid), [v.uid][1..]) == AssignOne(m, seen, v.uid);
    assert AssignAll(m, seen, [v.uid]) == AssignOne(m, seen, v.uid);
    assert AssignAll(m, seen, []) == seen;
  }

  /** In a chunk of any size each such row is assigned in its turn, on a table that is sound up to moved statuses. */
  lemma ChunkTurn(m: Matching, t: Table, items: seq<Vacancy>, now: int, i: nat)
    requires Consistent(t) && DistinctUids(items) && i < |ToGroup(t, items)|
    ensures var uids := ToGroup(t, items);
            var before := AssignAll(m, SightAll(t, items, now), uids[..i]);
            && Working(before, set u | u in Moved(t, items)) && uids[i] in before
            && AssignAll(m, SightAll(t, items, now), uids)
               == AssignAll(m, AssignOne(m, before, uids[i]), uids[i + 1..])
  {
    var uids := ToGroup(t, items);
    SightAllWorks(t, items, now);
    AssignAllWorks(m, SightAll(t, items, now), uids[..i], set u | u in Moved(t, items));
    AssignAllTurn(m, SightAll(t, items, now), uids, i);
    assert uids[i] in uids;
    WhoIsAssigned(t, items, uids[i]);
    var k :| 0 <= k < |items| && items[k].uid == uids[i];
    SeenRows(t, items, now, k);
  }

  /** After the upsert, only groups with a row whose status moved can be without an open head. */
  lemma SightAllWorks(t: Table, items: seq<Vacancy>, now: int)
    requires Consistent(t) && DistinctUids(items)
    ensures Working(SightAll(t, items, now), set u | u in Moved(t, items))
    ensures forall u :: u in SightAll(t, items, now) && SightAll(t, items, now)[u].group.None? ==>
            u in ToGroup(t, items)
  {
    var after := SightAll(t, items, now);
    var moved := set u | u in Moved(t, items);
    UidsAreKept(items, (v: Vacancy) => StatusMoved(t, v));
    UidsAreKept(items, (v: Vacancy) => NeedsGroup(t, v));
    forall u | u in after
      ensures u in t ==> after[u].group == t[u].group && after[u].dupOf == t[u].dupOf
      ensures u !in t ==> after[u].group == None && after[u].dupOf == None && u in ToGroup(t, items)
      ensures u in t && after[u].status != t[u].status ==> u in moved
    {
      if Mentions(items, u) {
        var i :| 0 <= i < |items| && items[i].uid == u;
        SeenRows(t, items, now, i);
      } else {
        UnseenRows(t, items, now, u);
      }
    }
    forall u | u in t
      ensures u in after
    {
      UnseenRows(t, items, now, u);
    }
    forall u | u in after
      ensures RowOk(after, moved, u)
    {
      if u in t && after[u].status == Open {
        var g := t[u].group.value;
        if u in moved {
          assert Dirty(after, moved, g);
        } else if g in moved {
          assert after[g].group == Some(g);
          assert Dirty(after, moved, g);
        }
      }
    }
  }

  lemma UpsertChunkIsConsistent(m: Matching, t: Table, items: seq<Vacancy>, now: int)
    requires Consistent(t) && DistinctUids(items)
    ensures Consistent(UpsertChunk(m, t, items, now))
  {
    var seen := SightAll(t, items, now);
    var moved := Moved(t, items);
    SightAllWorks(t, items, now);
    AssignAllWorks(m, seen, ToGroup(t, items), set u | u in moved);
    var grouped := AssignAll(m, seen, ToGroup(t, items));
    forall u | u in grouped
      ensures grouped[u].group.Some?
    {
      if seen[u].group.None? {
        var i :| 0 <= i < |ToGroup(t, items)| && ToGroup(t, items)[i] == u;
      }
    }
    if moved == [] {
      assert (set u | u in moved) == {};
      WorkingIsConsistent(grouped);
    } else {
      RegroupForFixes(grouped, moved);
    }
  }

  // ---------------------------------------------------------------- detail answers

  /** `_UPSERT_DETAIL` and the UPDATE that marks the row checked. */
  function Detailed(t: Table, v: Vacancy, now: int): Table {
    var entry := NewRow(v, now);
    var row := if v.uid in t then
        entry.(source := t[v.uid].source, region := Coalesce(v.region, t[v.uid].region),
               district := Coalesce(v.district, t[v.uid].district),
               group := t[v.uid].group, dupOf := t[v.uid].dupOf)
      else entry;
    t[v.uid := row.(checkedAt := Some(now), detailFailures := 0, recheckAfter := None)]
  }

  /** What a detail answer stores: its own columns and status, region and district only if they are given, the source
      and the group as they were, and a fresh check without failures. */
  lemma DetailStores(t: Table, v: Vacancy, now: int)
    ensures var row := Detailed(t, v, now)[v.uid];
            && row.title == v.title && row.employerKey == v.employerKey && row.dedupKey == v.dedupKey
            && row.publishedAt == v.publishedAt && row.lastSeenAt == now && row.quality == v.quality
            && row.status == (if v.isOpen then Open else Closed)
            && row.closeReason == (if v.isOpen then None else Some(SourceClosed))
            && row.closedAt == (if v.isOpen then None else Some(now))
            && row.checkedAt == Some(now) && row.detailFailures == 0 && row.recheckAfter == None
            && (v.uid in t ==>
                  && row.source == t[v.uid].source && row.group == t[v.uid].group && row.dupOf == t[v.uid].dupOf
                  && row.region == (if v.region == None then t[v.uid].region else v.region)
                  && row.district == (if v.district == None then t[v.uid].district else v.district))
            && (v.uid !in t ==>
                  && row.source == v.source && row.region == v.region && row.district == v.district
                  && row.group == None && row.dupOf == None)
    ensures forall u :: u in t && u != v.uid ==> Detailed(t, v, now)[u] == t[u]
  {
  }

  ghost function ApplyDetail(m: Matching, t: Table, v: Vacancy, now: int): Table {
    var grouped := AssignAll(m, Detailed(t, v, now), [v.uid]);
    if v.isOpen then grouped else RegroupFor(grouped, [v.uid])
  }

  /** The answer reopens a row that is closed. */
  predicate Reopens(t: Table, v: Vacancy) { v.uid in t && t[v.uid].status == Closed && v.isOpen }

  /** The group of `uid` has an open head once `uid` itself is open. */
  predicate HeadOpens(t: Table, uid: Uid) {
    uid in t && t[uid].group.Some? && (t[uid].group.value == uid || Sound(t, t[uid].group.value))
  }

  lemma DetailedWorks(t: Table, v: Vacancy, now: int)
    requires Consistent(t)
    ensures Working(Detailed(t, v, now), {v.uid})
    ensures (v.uid !in t || t[v.uid].status == Open) && v.isOpen ==> Working(Detailed(t, v, now), {})
    ensures forall u :: u in t ==> Detailed(t, v, now)[u].group.Some?
  {
    var after := Detailed(t, v, now);
    forall u | u in after
      ensures RowOk(after, {v.uid}, u)
    {
      if u in t && t[u].status == Open && t[u].group == Some(v.uid) && v.uid in t {
        assert Dirty(after, {v.uid}, v.uid);
      }
      if u == v.uid && u in t {
        assert Dirty(after, {v.uid}, t[u].group.value);
      }
    }
  }

  /** Unless it reopens a closed row, a detail answer keeps the groups consistent. */
  lemma ApplyDetailIsConsistent(m: Matching, t: Table, v: Vacancy, now: int)
    requires Consistent(t) && !Reopens(t, v)
    ensures Consistent(ApplyDetail(m, t, v, now))
  {
    var detailed := Detailed(t, v, now);
    DetailedWorks(t, v, now);
    var dirty := if v.isOpen then {} else {v.uid};
    AssignAllWorks(m, detailed, [v.uid], dirty);
    var grouped := AssignAll(m, detailed, [v.uid]);
    assert grouped[[v.uid][0]].group.Some?;
    if v.isOpen {
      WorkingIsConsistent(grouped);
    } else {
      assert (set u | u in [v.uid]) == {v.uid};
      RegroupForFixes(grouped, [v.uid]);
    }
  }

  lemma ReopenedStays(m: Matching, t: Table, v: Vacancy, now: int)
    requires Consistent(t) && Reopens(t, v) && StillGrouped(m, Detailed(t, v, now), v.uid)
    ensures Consistent(ApplyDetail(m, t, v, now)) <==> HeadOpens(t, v.uid)
  {
    var detailed := Detailed(t, v, now);
    var g := t[v.uid].group.value;
    assert AssignAll(m, detailed, [v.uid]) == AssignOne(m, detailed, v.uid) == detailed by {
      assert [v.uid][1..] == [];
    }
    assert g != v.uid ==> (Sound(detailed, g) <==> Sound(t, g));
  }

  lemma ReopenedLeaves(m: Matching, t: Table, v: Vacancy, now: int)
    requires Consistent(t) && Reopens(t, v) && !StillGrouped(m, Detailed(t, v, now), v.uid)
    ensures Consistent(ApplyDetail(m, t, v, now))
  {
    var detailed := Detailed(t, v, now);
    DetailedWorks(t, v, now);
    assert AssignAll(m, detailed, [v.uid]) == AssignOne(m, detailed, v.uid) by {
      assert [v.uid][1..] == [];
    }
    var after := AssignOne(m, detailed, v.uid);
    AssignOneWorks(m, detailed, v.uid, {v.uid});
    forall u | u in after
      ensures after[u].group.Some? && RowOk(after, {}, u)
    {
      assert RowOk(after, {v.uid}, u);
      assert detailed[u].group.Some?;
    }
    WorkingIsConsistent(after);
  }

  /**
   * For every answer: the groups stay consistent exactly when it reopens no closed row, or the row leaves its group,
   * or it is the head of its group or the head is open. Nothing regroups it otherwise.
   */
  lemma ReopeningByDetail(m: Matching, t: Table, v: Vacancy, now: int)
    requires Consistent(t)
    ensures Consistent(ApplyDetail(m, t, v, now))
            <==> !Reopens(t, v) || !StillGrouped(m, Detailed(t, v, now), v.uid) || HeadOpens(t, v.uid)
  {
    if !Reopens(t, v) {
      ApplyDetailIsConsistent(m, t, v, now);
    } else if StillGrouped(m, Detailed(t, v, now), v.uid) {
      ReopenedStays(m, t, v, now);
    } else {
      ReopenedLeaves(m, t, v, now);
    }
  }

  // ---------------------------------------------------------------- closing and purging

  function Closing(t: Table, uids: seq<Uid>, reason: CloseReason, now: int): Table {
    map u | u in t ::
      if u in uids && t[u].status == Open
      then t[u].(status := Closed, closedAt := Some(now), closeReason := Some(reason), checkedAt := Some(now))
      else t[u]
  }

  /** One chunk of `close`. */
  ghost function CloseChunk(t: Table, uids: seq<Uid>, reason: CloseReason, now: int): Table {
    RegroupFor(Closing(t, uids, reason, now), uids)
  }

  lemma CloseChunkIsConsistent(t: Table, uids: seq<Uid>, reason: CloseReason, now: int)
    requires Consistent(t)
    ensures Consistent(CloseChunk(t, uids, reason, now))
  {
    var after := Closing(t, uids, reason, now);
    var dirty := set u | u in uids;
    forall u | u in after
      ensures RowOk(after, dirty, u)
    {
      var g := t[u].group.value;
      if after[u].status == Open && !Sound(after, g) {
        assert g in dirty && after[g].group == Some(g);
      }
    }
    RegroupForFixes(after, uids);
  }

  /** Deletes rows that are closed; the canonical row of an all-closed group may be among them. */
  function Purge(t: Table, victims: set<Uid>): Table { t - victims }

  lemma PurgeIsConsistent(t: Table, victims: set<Uid>)
    requires Consistent(t) && forall u :: u in victims && u in t ==> t[u].status == Closed
    ensures Consistent(Purge(t, victims))
  {
  }

  // ---------------------------------------------------------------- what readers rely on

  ghost function GroupRows(t: Table, g: Uid): set<Uid> { set u | u in t && t[u].group == Some(g) }

  /** Each group with an open row has one row without `dup_of`: the open group id, named by all the others. */
  lemma OneRepresentative(t: Table, g: Uid, u: Uid)
    requires Consistent(t) && u in t && t[u].status == Open && t[u].group == Some(g)
    ensures (set r | r in GroupRows(t, g) && t[r].dupOf == None) == {g}
    ensures g in t && t[g].status == Open
    ensures forall r :: r in GroupRows(t, g) && r != g ==> t[r].dupOf == Some(g)
  {
    var heads := set r | r in GroupRows(t, g) && t[r].dupOf == None;
    assert g in GroupRows(t, g) && g in heads;
    forall r | r in heads
      ensures r == g
    {
      assert t[r].dupOf == if r == g then None else Some(g);
    }
  }
}
