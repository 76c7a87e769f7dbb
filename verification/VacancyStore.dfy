/** The vacancy table as the ingestion process changes it, statement by statement. */
module VacancyStore {
  import opened Basics
  import opened Vacancies
  import opened Dedup
  import opened VacancyTransactions
  import opened Rechecks

  const BATCH_SIZE := 200

  /** All chunks of `upsert_batch`, in order. */
  ghost function UpsertChunks(m: Matching, t: Table, items: seq<Vacancy>, now: int): Table
    decreases |items|
  {
    if items == [] then t
    else
      var n := Min(BATCH_SIZE, |items|);
      UpsertChunks(m, UpsertChunk(m, t, items[..n], now), items[n..], now)
  }

  ghost function CloseChunks(t: Table, uids: seq<Uid>, reason: CloseReason, now: int): Table
    decreases |uids|
  {
    if uids == [] then t
    else
      var n := Min(BATCH_SIZE, |uids|);
      CloseChunks(CloseChunk(t, uids[..n], reason, now), uids[n..], reason, now)
  }

  lemma {:induction false} UpsertChunksHold(m: Matching, t: Table, items: seq<Vacancy>, now: int)
    requires Consistent(t) && DistinctUids(items)
    ensures Consistent(UpsertChunks(m, t, items, now)) && Keeps(t, UpsertChunks(m, t, items, now))
    ensures NoNewStale(t, UpsertChunks(m, t, items, now))
    ensures t.Keys <= UpsertChunks(m, t, items, now).Keys
    decreases |items|
  {
    if items != [] {
      var n := Min(BATCH_SIZE, |items|);
      UpsertChunkIsConsistent(m, t, items[..n], now);
      UpsertChunkKeeps(m, t, items[..n], now);
      UpsertChunksHold(m, UpsertChunk(m, t, items[..n], now), items[n..], now);
    }
  }

  lemma {:induction false} UpsertChunksFresh(m: Matching, t: Table, items: seq<Vacancy>, now: int)
    ensures FreshStay(t, UpsertChunks(m, t, items, now), now) && AllFresh(UpsertChunks(m, t, items, now), items, now)
    decreases |items|
  {
    if items != [] {
      var n := Min(BATCH_SIZE, |items|);
      var mid := UpsertChunk(m, t, items[..n], now);
      var after := UpsertChunks(m, mid, items[n..], now);
      UpsertChunkFresh(m, t, items[..n], now);
      UpsertChunksFresh(m, mid, items[n..], now);
      FreshThrough(t, mid, after, now, now);
      AllFreshStay(mid, after, items[..n], now, now);
      forall i | 0 <= i < |items|
        ensures items[i].uid in after && Fresh(after[items[i].uid], now)
      {
        if i < n {
          assert items[..n][i] == items[i];
        } else {
          assert items[n..][i - n] == items[i];
        }
      }
    }
  }

  lemma {:induction false} CloseChunksFresh(t: Table, uids: seq<Uid>, reason: CloseReason, now: int)
    requires reason != Stale
    ensures FreshStay(t, CloseChunks(t, uids, reason, now), now)
    decreases |uids|
  {
    if uids != [] {
      var n := Min(BATCH_SIZE, |uids|);
      var mid := CloseChunk(t, uids[..n], reason, now);
      CloseChunkFresh(t, uids[..n], reason, now);
      CloseChunksFresh(mid, uids[n..], reason, now);
      FreshThrough(t, mid, CloseChunks(mid, uids[n..], reason, now), now, now);
    }
  }

  lemma {:induction false} CloseChunksHold(t: Table, uids: seq<Uid>, reason: CloseReason, now: int)
    requires Consistent(t)
    ensures Consistent(CloseChunks(t, uids, reason, now)) && Keeps(t, CloseChunks(t, uids, reason, now))
    ensures CloseChunks(t, uids, reason, now).Keys == t.Keys
    decreases |uids|
  {
    if uids != [] {
      var n := Min(BATCH_SIZE, |uids|);
      CloseChunkIsConsistent(t, uids[..n], reason, now);
      CloseChunkKeeps(t, uids[..n], reason, now);
      CloseChunksHold(CloseChunk(t, uids[..n], reason, now), uids[n..], reason, now);
    }
  }

  function OpenAmong(t: Table, uids: seq<Uid>): set<Uid> { set u | u in uids && u in t && t[u].status == Open }

  lemma CloseChunkCounts(t: Table, uids: seq<Uid>, n: nat, reason: CloseReason, now: int)
    requires n <= |uids|
    ensures |OpenAmong(t, uids)|
         == |OpenAmong(t, uids[..n])| + |OpenAmong(CloseChunk(t, uids[..n], reason, now), uids[n..])|
  {
    var after := CloseChunk(t, uids[..n], reason, now);
    CloseChunkKeeps(t, uids[..n], reason, now);
    var first, rest := OpenAmong(t, uids[..n]), OpenAmong(after, uids[n..]);
    assert uids == uids[..n] + uids[n..];
    forall u | u in rest
      ensures u in OpenAmong(t, uids) && u !in first
    {
      assert ClosedRow(t[u], after[u], u in uids[..n], reason, now);
    }
    forall u | u in OpenAmong(t, uids) && u !in first
      ensures u in rest
    {
      assert ClosedRow(t[u], after[u], u in uids[..n], reason, now);
    }
    assert OpenAmong(t, uids) == first + rest;
    assert first !! rest;
  }

  lemma CloseNext(t: Table, uids: seq<Uid>, i: nat, n: nat, reason: CloseReason, now: int)
    requires i < |uids| && n == Min(BATCH_SIZE, |uids| - i)
    ensures CloseChunks(t, uids[i..], reason, now)
         == CloseChunks(CloseChunk(t, uids[i..i + n], reason, now), uids[i + n..], reason, now)
    ensures |OpenAmong(t, uids[i..])|
         == |OpenAmong(t, uids[i..i + n])| + |OpenAmong(CloseChunk(t, uids[i..i + n], reason, now), uids[i + n..])|
  {
    assert uids[i..][..n] == uids[i..i + n] && uids[i..][n..] == uids[i + n..];
    CloseChunkCounts(t, uids[i..], n, reason, now);
  }

  lemma {:induction false} CloseChunksRow(t: Table, uids: seq<Uid>, reason: CloseReason, now: int, u: Uid)
    requires u in t
    ensures u in CloseChunks(t, uids, reason, now)
    ensures ClosedRow(t[u], CloseChunks(t, uids, reason, now)[u], u in uids, reason, now)
    decreases |uids|
  {
    if uids != [] {
      var n := Min(BATCH_SIZE, |uids|);
      CloseChunkKeeps(t, uids[..n], reason, now);
      CloseChunksRow(CloseChunk(t, uids[..n], reason, now), uids[n..], reason, now, u);
      assert uids == uids[..n] + uids[n..];
    }
  }

  lemma CloseChunksRows(t: Table, uids: seq<Uid>, reason: CloseReason, now: int)
    requires CloseChunks(t, uids, reason, now).Keys == t.Keys
    ensures forall u :: u in t ==> ClosedRow(t[u], CloseChunks(t, uids, reason, now)[u], u in uids, reason, now)
    ensures OpenAmong(t, uids) == ClosedSince(t, CloseChunks(t, uids, reason, now))
  {
    var after := CloseChunks(t, uids, reason, now);
    forall u | u in t
      ensures ClosedRow(t[u], after[u], u in uids, reason, now)
      ensures after[u].status == if u in uids && t[u].status == Open then Closed else t[u].status
    {
      CloseChunksRow(t, uids, reason, now, u);
    }
  }

  /** The index of the answer for `u`, or the length. */
  function IndexOf(items: seq<Vacancy>, u: Uid): (i: nat)
    ensures i <= |items|
    ensures i < |items| ==> items[i].uid == u
    ensures i == |items| ==> forall j :: 0 <= j < |items| ==> items[j].uid != u
  {
    if items == [] then 0 else if items[0].uid == u then 0 else 1 + IndexOf(items[1..], u)
  }

  /** Puts an answer into the dict `{v.uid: v}`: in place of the one it replaces, or at the end. */
  function Put(unique: seq<Vacancy>, v: Vacancy): seq<Vacancy> {
    var i := IndexOf(unique, v.uid);
    if i < |unique| then unique[i := v] else unique + [v]
  }

  lemma PutKeepsDistinct(unique: seq<Vacancy>, v: Vacancy)
    requires DistinctUids(unique)
    ensures DistinctUids(Put(unique, v)) && v in Put(unique, v)
    ensures forall w :: w in unique && w.uid != v.uid ==> w in Put(unique, v)
  {
    var after := Put(unique, v);
    var k := IndexOf(unique, v.uid);
    assert after[if k < |unique| then k else |unique|] == v;
    forall w | w in unique && w.uid != v.uid
      ensures w in after
    {
      var j :| 0 <= j < |unique| && unique[j] == w;
      assert after[j] == w;
    }
  }

  /** The answers that `list({v.uid: v}.values())` keeps. */
  function LastPerUid(items: seq<Vacancy>): seq<Vacancy> {
    if items == [] then [] else Put(LastPerUid(items[..|items| - 1]), items[|items| - 1])
  }

  /** Every uid that was answered is kept. */
  lemma {:induction false} EveryUidIsKept(items: seq<Vacancy>, t: Table, since: int)
    requires AllFresh(t, LastPerUid(items), since)
    ensures AllFresh(t, items, since)
  {
    forall i | 0 <= i < |items|
      ensures items[i].uid in t && Fresh(t[items[i].uid], since)
    {
      UidIsKept(items, i);
      var j :| 0 <= j < |LastPerUid(items)| && LastPerUid(items)[j].uid == items[i].uid;
    }
  }

  lemma {:induction false} UidIsKept(items: seq<Vacancy>, i: nat)
    requires i < |items|
    ensures Mentions(LastPerUid(items), items[i].uid)
  {
    var front, v := items[..|items| - 1], items[|items| - 1];
    var unique := LastPerUid(front);
    var at := IndexOf(unique, v.uid);
    if i < |front| {
      UidIsKept(front, i);
      var j :| 0 <= j < |unique| && unique[j].uid == front[i].uid;
      assert Put(unique, v)[j].uid == items[i].uid;
    } else {
      assert Put(unique, v)[at].uid == v.uid;
    }
  }

  /** One answer per uid is kept: the last one. */
  lemma {:induction false} LastAnswerWins(items: seq<Vacancy>)
    ensures DistinctUids(LastPerUid(items))
    ensures forall i :: 0 <= i < |items| && (forall j :: i < j < |items| ==> items[j].uid != items[i].uid) ==>
              items[i] in LastPerUid(items)
  {
    if items != [] {
      var front := items[..|items| - 1];
      var v := items[|items| - 1];
      LastAnswerWins(front);
      PutKeepsDistinct(LastPerUid(front), v);
      forall i | 0 <= i < |items| && forall j :: i < j < |items| ==> items[j].uid != items[i].uid
        ensures items[i] in LastPerUid(items)
      {
        if i < |front| {
          assert front[i] == items[i];
          assert items[|items| - 1].uid != items[i].uid;
          assert forall j :: i < j < |front| ==> front[j].uid != front[i].uid;
        }
      }
    }
  }

  predicate Purgeable(r: Row, closedBefore: int) {
    r.status == Closed && r.closedAt.Some? && r.closedAt.value < closedBefore
  }

  lemma UpsertNext(m: Matching, t: Table, items: seq<Vacancy>, i: nat, n: nat, now: int)
    requires i < |items| && n == Min(BATCH_SIZE, |items| - i)
    ensures UpsertChunks(m, t, items[i..], now)
         == UpsertChunks(m, UpsertChunk(m, t, items[i..i + n], now), items[i + n..], now)
  {
    assert items[i..][..n] == items[i..i + n] && items[i..][n..] == items[i + n..];
  }

  lemma SightNext(t: Table, items: seq<Vacancy>, i: nat, now: int)
    requires DistinctUids(items) && i < |items|
    ensures SightAll(t, items[..i + 1], now) == Sight(SightAll(t, items[..i], now), items[i], now)
    ensures |SightAll(t, items[..i + 1], now)| == |SightAll(t, items[..i], now)| + if items[i].uid in t then 0 else 1
  {
    assert items[..i + 1][..i] == items[..i];
    var seen := SightAll(t, items[..i], now);
    UnseenRows(t, items[..i], now, items[i].uid);
    assert !Mentions(items[..i], items[i].uid);
    assert Sight(seen, items[i], now).Keys == seen.Keys + {items[i].uid};
    assert |seen| == |seen.Keys| && |Sight(seen, items[i], now)| == |Sight(seen, items[i], now).Keys|;
  }

  lemma GroupingKeepsKeys(m: Matching, t: Table, uids: seq<Uid>, moved: seq<Uid>)
    ensures |AssignAll(m, t, uids)| == |t| == |RegroupFor(AssignAll(m, t, uids), moved)|
  {
    AssignAllFacts(m, t, uids);
    var grouped := AssignAll(m, t, uids);
    RegroupAllFacts(grouped, GroupsOf(grouped, moved));
    var after := RegroupFor(grouped, moved);
    assert |t| == |t.Keys| && |grouped| == |grouped.Keys| && |after| == |after.Keys|;
  }

  class Store {
    const matching: Matching
    var rows: Table

    constructor (m: Matching)
      ensures rows == map[] && matching == m
    {
      matching := m;
      rows := map[];
    }

    // -------------------------------------------------------------- groups

    /** `sorted(members, key=canonical_rank)[0]` */
    method Best(members: set<Uid>) returns (c: Uid)
      requires members <= rows.Keys && members != {}
      ensures c == Canonical(rows, members)
    {
      ghost var some := Member(members);
      c :| c in members;
      var rest := members - {c};
      while rest != {}
        invariant rest <= members && c in members
        invariant forall u :: u in members && u !in rest && u != c ==> Before(rows, c, u)
        decreases |rest|
      {
        some := Member(rest);
        var u :| u in rest;
        rest := rest - {u};
        if Before(rows, u, c) {
          forall v | v in members && v !in rest && v != u
            ensures Before(rows, u, v)
          {
            BeforeIsAnOrder(rows, u, c, v);
          }
          c := u;
        } else {
          BeforeIsAnOrder(rows, u, c, u);
        }
      }
      CanonicalIsUnique(rows, members, c);
    }

    method RegroupOne(g: Uid)
      modifies this
      ensures rows == Regroup(old(rows), g)
    {
      var members := MembersOf(rows, g);
      if members != {} {
        var canonical := Best(members);
        rows := map u | u in rows ::
          if u in members
          then rows[u].(group := Some(canonical), dupOf := if u == canonical then None else Some(canonical))
          else rows[u];
      }
    }

    method RegroupEach(groups: seq<Uid>)
      modifies this
      ensures rows == RegroupAll(old(rows), groups)
    {
      var i := 0;
      while i < |groups|
        invariant 0 <= i <= |groups|
        invariant RegroupAll(rows, groups[i..]) == RegroupAll(old(rows), groups)
      {
        assert groups[i..][0] == groups[i] && groups[i..][1..] == groups[i + 1..];
        RegroupOne(groups[i]);
        i := i + 1;
      }
    }

    method RegroupForRows(uids: seq<Uid>)
      modifies this
      ensures rows == RegroupFor(old(rows), uids)
    {
      var groups := GroupsOf(rows, uids);
      RegroupEach(groups);
    }

    method FindDuplicate(uid: Uid) returns (found: Option<Uid>)
      ensures found == FindMatch(matching, rows, uid)
    {
      if uid !in rows || rows[uid].employerKey == "" {
        return None;
      }
      var me := rows[uid];
      var cands := matching.scanKey(rows, uid);
      var i := 0;
      while i < |cands|
        invariant 0 <= i <= |cands|
        invariant FirstByKey(matching, rows, uid, cands[i..]) == FirstByKey(matching, rows, uid, cands)
      {
        var cand := cands[i];
        if KeyCandidate(rows, uid, cand) && rows[cand].GroupOr(cand) != me.GroupOr(uid)
           && IsMatch(matching, me, rows[cand])
        {
          return Some(rows[cand].GroupOr(cand));
        }
        i := i + 1;
      }
      if !Truthy(me.region) {
        return None;
      }
      cands := matching.scanEmployer(rows, uid);
      var best: Option<(real, Uid)> := None;
      i := 0;
      while i < |cands|
        invariant 0 <= i <= |cands|
        invariant BestByTitle(matching, rows, uid, cands[i..], best) == BestByTitle(matching, rows, uid, cands, None)
      {
        var cand := cands[i];
        if EmployerCandidate(rows, uid, cand) && rows[cand].GroupOr(cand) != me.GroupOr(uid)
           && IsMatch(matching, me, rows[cand])
        {
          var ratio := matching.titleRatio(me.title, rows[cand].title);
          if best.None? || ratio > best.value.0 {
            best := Some((ratio, rows[cand].GroupOr(cand)));
          }
        }
        i := i + 1;
      }
      return if best.Some? then Some(best.value.1) else None;
    }

    method DetachRow(uid: Uid)
      requires uid in rows && rows[uid].group.Some?
      modifies this
      ensures rows == Detach(old(rows), uid)
    {
      var g := rows[uid].group.value;
      rows := Alone(rows, uid);
      if g != uid {
        RegroupOne(g);
        return;
      }
      var others := Others(rows, uid);
      if others == {} {
        return;
      }
      var best := Best(others);
      rows := Move(rows, others, best);
      RegroupOne(best);
    }

    method AssignRow(uid: Uid)
      modifies this
      ensures rows == AssignOne(matching, old(rows), uid)
    {
      if uid !in rows {
        return;
      }
      var ungrouped := rows[uid].group.None?;
      if !ungrouped {
        if StillGrouped(matching, rows, uid) {
          return;
        }
        DetachRow(uid);
      }
      var found := FindDuplicate(uid);
      if found.None? {
        if ungrouped {
          rows := Alone(rows, uid);
        }
        return;
      }
      rows := Move(rows, Others(rows, uid) + {uid}, found.value);
      RegroupOne(found.value);
    }

    method AssignEach(uids: seq<Uid>)
      modifies this
      ensures rows == AssignAll(matching, old(rows), uids)
    {
      var i := 0;
      while i < |uids|
        invariant 0 <= i <= |uids|
        invariant AssignAll(matching, rows, uids[i..]) == AssignAll(matching, old(rows), uids)
      {
        assert uids[i..][0] == uids[i] && uids[i..][1..] == uids[i + 1..];
        AssignRow(uids[i]);
        i := i + 1;
      }
    }

    // -------------------------------------------------------------- transactions

    /** Stores one chunk; returns how many of its rows are new. */
    method UpsertOneChunk(items: seq<Vacancy>, now: int) returns (added: nat)
      requires DistinctUids(items)
      modifies this
      ensures rows == UpsertChunk(matching, old(rows), items, now)
      ensures added == |rows| - |old(rows)|
    {
      var toGroup, moved := ToGroup(rows, items), Moved(rows, items);
      var before := rows;
      added := 0;
      var i := 0;
      while i < |items|
        invariant 0 <= i <= |items|
        invariant rows == SightAll(old(rows), items[..i], now)
        invariant added == |rows| - |old(rows)|
      {
        SightNext(before, items, i, now);
        if items[i].uid !in before {
          added := added + 1;
        }
        rows := Sight(rows, items[i], now);
        i := i + 1;
      }
      assert items[..i] == items;
      GroupingKeepsKeys(matching, rows, toGroup, moved);
      AssignEach(toGroup);
      if moved != [] {
        RegroupForRows(moved);
      }
    }

    method UpsertEachChunk(unique: seq<Vacancy>, now: int) returns (added: nat)
      requires DistinctUids(unique)
      modifies this
      ensures rows == UpsertChunks(matching, old(rows), unique, now)
      ensures added == |rows| - |old(rows)|
    {
      added := 0;
      var i := 0;
      while i < |unique|
        invariant 0 <= i <= |unique|
        invariant UpsertChunks(matching, rows, unique[i..], now) == UpsertChunks(matching, old(rows), unique, now)
        invariant added == |rows| - |old(rows)|
      {
        var n := Min(BATCH_SIZE, |unique| - i);
        UpsertNext(matching, rows, unique, i, n, now);
        var more := UpsertOneChunk(unique[i..i + n], now);
        added := added + more;
        i := i + n;
      }
    }

    /** Stores list results and groups duplicates; returns how many rows are new. */
    method UpsertBatch(items: seq<Vacancy>, now: int) returns (added: nat)
      requires Consistent(rows)
      modifies this
      ensures rows == UpsertChunks(matching, old(rows), LastPerUid(items), now)
      ensures Consistent(rows) && Keeps(old(rows), rows) && NoNewStale(old(rows), rows)
      ensures old(rows).Keys <= rows.Keys && added == |rows| - |old(rows)|
      ensures FreshStay(old(rows), rows, now) && AllFresh(rows, items, now)
    {
      LastAnswerWins(items);
      UpsertChunksHold(matching, rows, LastPerUid(items), now);
      UpsertChunksFresh(matching, rows, LastPerUid(items), now);
      EveryUidIsKept(items, UpsertChunks(matching, rows, LastPerUid(items), now), now);
      added := UpsertEachChunk(LastPerUid(items), now);
    }

    /** Stores a detail answer. The runner asks for open rows only, where nothing can go wrong. */
    method StoreDetail(v: Vacancy, now: int)
      requires Consistent(rows)
      modifies this
      ensures rows == ApplyDetail(matching, old(rows), v, now)
      ensures Consistent(rows) <==>
        !Reopens(old(rows), v) || !StillGrouped(matching, Detailed(old(rows), v, now), v.uid)
            || HeadOpens(old(rows), v.uid)
      ensures rows.Keys == old(rows).Keys + {v.uid}
      ensures SameChecks(old(rows), rows) && NoNewStale(old(rows), rows) && FreshStay(old(rows), rows, now)
      ensures GoneStays(old(rows), rows)
              <==> !(v.uid in old(rows) && old(rows)[v.uid].status == Closed && IsGone(old(rows)[v.uid]))
      ensures forall u :: u in old(rows) && u != v.uid ==> Facts(rows[u]) == Facts(old(rows)[u])
      ensures rows[v.uid].status == (if v.isOpen then Open else Closed) && rows[v.uid].detailFailures == 0
    {
      ApplyDetailFresh(matching, rows, v, now);
      ReopeningByDetail(matching, rows, v, now);
      ApplyDetailKeeps(matching, rows, v, now);
      rows := Detailed(rows, v, now);
      AssignEach([v.uid]);
      if !v.isOpen {
        RegroupForRows([v.uid]);
      }
    }

    method CloseOneChunk(chunk: seq<Uid>, reason: CloseReason, now: int) returns (closed: nat)
      modifies this
      ensures rows == CloseChunk(old(rows), chunk, reason, now)
      ensures closed == |OpenAmong(old(rows), chunk)|
    {
      closed := |OpenAmong(rows, chunk)|;
      rows := Closing(rows, chunk, reason, now);
      RegroupForRows(chunk);
    }

    method CloseEachChunk(uids: seq<Uid>, reason: CloseReason, now: int) returns (closed: nat)
      modifies this
      ensures rows == CloseChunks(old(rows), uids, reason, now)
      ensures closed == |OpenAmong(old(rows), uids)|
    {
      closed := 0;
      var i := 0;
      while i < |uids|
        invariant 0 <= i <= |uids|
        invariant CloseChunks(rows, uids[i..], reason, now) == CloseChunks(old(rows), uids, reason, now)
        invariant closed + |OpenAmong(rows, uids[i..])| == |OpenAmong(old(rows), uids)|
      {
        var n := Min(BATCH_SIZE, |uids| - i);
        CloseNext(rows, uids, i, n, reason, now);
        var more := CloseOneChunk(uids[i..i + n], reason, now);
        closed := closed + more;
        i := i + n;
      }
    }

    /** Closes open rows; a duplicate is promoted where needed. Returns how many were open. */
    method Close(uids: seq<Uid>, reason: CloseReason, now: int) returns (closed: nat)
      requires Consistent(rows)
      modifies this
      ensures rows == CloseChunks(old(rows), uids, reason, now)
      ensures Consistent(rows) && Keeps(old(rows), rows) && rows.Keys == old(rows).Keys
      ensures forall u :: u in rows ==> ClosedRow(old(rows)[u], rows[u], u in uids, reason, now)
      ensures closed == |OpenAmong(old(rows), uids)| == |ClosedSince(old(rows), rows)|
      ensures reason != Stale ==> FreshStay(old(rows), rows, now)
    {
      if reason != Stale {
        CloseChunksFresh(rows, uids, reason, now);
      }
      CloseChunksHold(rows, uids, reason, now);
      CloseChunksRows(rows, uids, reason, now);
      closed := CloseEachChunk(uids, reason, now);
    }

    /** Deletes up to `limit` rows that were closed before `closedBefore`; returns how many. */
    method PurgeClosed(closedBefore: int, limit: nat) returns (deleted: nat)
      requires Consistent(rows)
      modifies this
      ensures Consistent(rows) && Keeps(old(rows), rows)
      ensures deleted <= limit && deleted == |old(rows)| - |rows|
      ensures forall u :: u in rows ==> u in old(rows) && rows[u] == old(rows)[u]
      ensures forall u :: u in old(rows) && u !in rows ==>
        old(rows)[u].status == Closed && old(rows)[u].closedAt != None && old(rows)[u].closedAt.value < closedBefore
      ensures deleted < limit ==> forall u :: u in rows && rows[u].status == Closed ==>
        rows[u].closedAt == None || rows[u].closedAt.value >= closedBefore
    {
      var candidates := set u | u in rows && Purgeable(rows[u], closedBefore);
      var _, victims := AtMost(candidates, limit);
      PurgeIsConsistent(rows, victims);
      assert rows.Keys == (rows.Keys - victims) + victims && |rows| == |rows.Keys|;
      rows := Purge(rows, victims);
      assert |rows| == |rows.Keys|;
      deleted := |victims|;
    }

    /** Rotates a row to the back of the re-check queue. */
    method MarkChecked(uid: Uid, now: int)
      requires Consistent(rows)
      modifies this
      ensures rows == if uid in old(rows) then old(rows)[uid := old(rows)[uid].(checkedAt := Some(now))] else old(rows)
      ensures Consistent(rows) && Keeps(old(rows), rows)
    {
      if uid in rows {
        rows := rows[uid := rows[uid].(checkedAt := Some(now))];
      }
    }

    method RecordDetailFailure(uid: Uid, now: int)
      requires Consistent(rows)
      modifies this
      ensures rows == RecordFailure(old(rows), uid, now) && rows.Keys == old(rows).Keys
      ensures forall u :: u in rows && u != uid ==> rows[u] == old(rows)[u]
      ensures uid in rows ==>
        rows[uid] == old(rows)[uid].(checkedAt := Some(now), detailFailures := old(rows)[uid].detailFailures + 1,
                                     recheckAfter := Some(now + NextWait(old(rows)[uid].detailFailures)))
      ensures Consistent(rows) && GoneStays(old(rows), rows)
    {
      if uid in rows {
        BackoffIsNextWait(rows[uid].detailFailures);
      }
      rows := RecordFailure(rows, uid, now);
    }
  }
}
