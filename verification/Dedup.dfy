/** Duplicate groups: how rows are attached to, merged into and split out of groups. */
module Dedup {
  import opened Basics
  import opened Vacancies

  // ---------------------------------------------------------------- finding a duplicate

  predicate KeyCandidate(t: Table, uid: Uid, cand: Uid)
    requires uid in t
  {
    cand in t && cand != uid && t[cand].status == Open && t[cand].dedupKey == t[uid].dedupKey && Within(t[cand], t[uid])
  }

  predicate EmployerCandidate(t: Table, uid: Uid, cand: Uid)
    requires uid in t
  {
    && cand in t && cand != uid && t[cand].status == Open
    && t[cand].employerKey == t[uid].employerKey && t[cand].region == t[uid].region && Within(t[cand], t[uid])
  }

  /** A candidate of another group that matches. */
  predicate Joins(m: Matching, t: Table, uid: Uid, cand: Uid)
    requires uid in t && cand in t
  {
    t[cand].GroupOr(cand) != t[uid].GroupOr(uid) && IsMatch(m, t[uid], t[cand])
  }

  predicate KeyJoin(m: Matching, t: Table, uid: Uid, cand: Uid)
    requires uid in t
  {
    KeyCandidate(t, uid, cand) && Joins(m, t, uid, cand)
  }

  predicate TitleJoin(m: Matching, t: Table, uid: Uid, cand: Uid)
    requires uid in t
  {
    EmployerCandidate(t, uid, cand) && Joins(m, t, uid, cand)
  }

  function Ratio(m: Matching, t: Table, uid: Uid, cand: Uid): real
    requires uid in t && cand in t
  {
    m.titleRatio(t[uid].title, t[cand].title)
  }

  function FirstByKey(m: Matching, t: Table, uid: Uid, cands: seq<Uid>): Option<Uid>
    requires uid in t
  {
    if cands == [] then None
    else if KeyJoin(m, t, uid, cands[0]) then Some(t[cands[0]].GroupOr(cands[0]))
    else FirstByKey(m, t, uid, cands[1..])
  }

  function BestByTitle(m: Matching, t: Table, uid: Uid, cands: seq<Uid>, best: Option<(real, Uid)>): Option<(real, Uid)>
    requires uid in t
    decreases cands
  {
    if cands == [] then best
    else
      var cand := cands[0];
      if TitleJoin(m, t, uid, cand) && (best.None? || Ratio(m, t, uid, cand) > best.value.0)
      then BestByTitle(m, t, uid, cands[1..], Some((Ratio(m, t, uid, cand), t[cand].GroupOr(cand))))
      else BestByTitle(m, t, uid, cands[1..], best)
  }

  function FindMatch(m: Matching, t: Table, uid: Uid): Option<Uid> {
    if uid !in t || t[uid].employerKey == "" then None
    else
      var exact := FirstByKey(m, t, uid, m.scanKey(t, uid));
      if exact.Some? then exact
      else if !Truthy(t[uid].region) then None
      else
        var best := BestByTitle(m, t, uid, m.scanEmployer(t, uid), None);
        if best.Some? then Some(best.value.1) else None
  }

  /** An open row of another group that matches `uid`, and whose group is `g`. */
  ghost predicate JustifiesJoin(m: Matching, t: Table, uid: Uid, g: Uid)
    requires uid in t
  {
    exists cand :: cand in t && cand != uid && t[cand].status == Open && Joins(m, t, uid, cand)
        && t[cand].GroupOr(cand) == g
  }

  lemma {:induction false} FirstByKeyIsJustified(m: Matching, t: Table, uid: Uid, cands: seq<Uid>)
    requires uid in t && FirstByKey(m, t, uid, cands).Some?
    ensures JustifiesJoin(m, t, uid, FirstByKey(m, t, uid, cands).value)
  {
    if !KeyJoin(m, t, uid, cands[0]) {
      FirstByKeyIsJustified(m, t, uid, cands[1..]);
    }
  }

  lemma {:induction false} BestByTitleIsJustified(m: Matching, t: Table, uid: Uid, cands: seq<Uid>,
      best: Option<(real, Uid)>)
    requires uid in t
    requires best.Some? ==> JustifiesJoin(m, t, uid, best.value.1)
    ensures var r := BestByTitle(m, t, uid, cands, best); r.Some? ==> JustifiesJoin(m, t, uid, r.value.1)
    decreases cands
  {
    if cands != [] {
      var cand := cands[0];
      if TitleJoin(m, t, uid, cand) && (best.None? || Ratio(m, t, uid, cand) > best.value.0) {
        BestByTitleIsJustified(m, t, uid, cands[1..], Some((Ratio(m, t, uid, cand), t[cand].GroupOr(cand))));
      } else {
        BestByTitleIsJustified(m, t, uid, cands[1..], best);
      }
    }
  }

  /** Rows are only merged on the word of an open row that matches. */
  lemma FoundMatchIsJustified(m: Matching, t: Table, uid: Uid)
    requires FindMatch(m, t, uid).Some?
    ensures uid in t && JustifiesJoin(m, t, uid, FindMatch(m, t, uid).value)
  {
    var exact := FirstByKey(m, t, uid, m.scanKey(t, uid));
    if exact.Some? {
      FirstByKeyIsJustified(m, t, uid, m.scanKey(t, uid));
    } else {
      BestByTitleIsJustified(m, t, uid, m.scanEmployer(t, uid), None);
    }
  }

  /** None of the first `n` candidates has the same key. */
  predicate NoKeyJoin(m: Matching, t: Table, uid: Uid, cands: seq<Uid>, n: nat)
    requires uid in t && n <= |cands|
  {
    forall i :: 0 <= i < n ==> !KeyJoin(m, t, uid, cands[i])
  }

  predicate NoTitleJoin(m: Matching, t: Table, uid: Uid, cands: seq<Uid>, n: nat)
    requires uid in t && n <= |cands|
  {
    forall i :: 0 <= i < n ==> !TitleJoin(m, t, uid, cands[i])
  }

  /** The i-th candidate is the first with the same key, and its group is `g`. */
  predicate FirstKeyJoin(m: Matching, t: Table, uid: Uid, cands: seq<Uid>, i: int, g: Uid)
    requires uid in t
  {
    && 0 <= i < |cands| && KeyJoin(m, t, uid, cands[i]) && NoKeyJoin(m, t, uid, cands, i)
    && t[cands[i]].GroupOr(cands[i]) == g
  }

  predicate NoBetterTitle(m: Matching, t: Table, uid: Uid, cands: seq<Uid>, i: nat, j: nat)
    requires uid in t && i < |cands| && j < |cands| && cands[i] in t
  {
    TitleJoin(m, t, uid, cands[j]) ==>
      && Ratio(m, t, uid, cands[j]) <= Ratio(m, t, uid, cands[i])
      && (j < i ==> Ratio(m, t, uid, cands[j]) < Ratio(m, t, uid, cands[i]))
  }

  /** Of the first `n` candidates the i-th has the most similar title, and is the first of those; its group is `g`. */
  predicate BestTitleJoin(m: Matching, t: Table, uid: Uid, cands: seq<Uid>, n: nat, i: int, g: Uid)
    requires uid in t && n <= |cands|
  {
    && 0 <= i < n && TitleJoin(m, t, uid, cands[i]) && t[cands[i]].GroupOr(cands[i]) == g
    && forall j :: 0 <= j < n ==> NoBetterTitle(m, t, uid, cands, i, j)
  }

  lemma {:induction false} FirstByKeyIsFirst(m: Matching, t: Table, uid: Uid, cands: seq<Uid>, n: nat)
    requires uid in t && n <= |cands| && NoKeyJoin(m, t, uid, cands, n)
    ensures var r := FirstByKey(m, t, uid, cands[n..]);
            if r.None? then NoKeyJoin(m, t, uid, cands, |cands|)
                else exists i :: FirstKeyJoin(m, t, uid, cands, i, r.value)
    decreases |cands| - n
  {
    if n < |cands| {
      assert cands[n..][0] == cands[n] && cands[n..][1..] == cands[n + 1..];
      if KeyJoin(m, t, uid, cands[n]) {
        assert FirstKeyJoin(m, t, uid, cands, n, t[cands[n]].GroupOr(cands[n]));
      } else {
        FirstByKeyIsFirst(m, t, uid, cands, n + 1);
      }
    }
  }

  /** `best` sums up the first `n` candidates. */
  ghost predicate BestSoFar(m: Matching, t: Table, uid: Uid, cands: seq<Uid>, n: nat, best: Option<(real, Uid)>)
    requires uid in t && n <= |cands|
  {
    if best.None? then NoTitleJoin(m, t, uid, cands, n)
    else
      exists i :: BestTitleJoin(m, t, uid, cands, n, i, best.value.1) && best.value.0 == Ratio(m, t, uid, cands[i])
  }

  lemma BestNext(m: Matching, t: Table, uid: Uid, cands: seq<Uid>, n: nat, best: Option<(real, Uid)>)
    requires uid in t && n < |cands| && BestSoFar(m, t, uid, cands, n, best)
    ensures var cand := cands[n];
            if TitleJoin(m, t, uid, cand) && (best.None? || Ratio(m, t, uid, cand) > best.value.0)
            then BestSoFar(m, t, uid, cands, n + 1, Some((Ratio(m, t, uid, cand), t[cand].GroupOr(cand))))
            else BestSoFar(m, t, uid, cands, n + 1, best)
  {
    var cand := cands[n];
    if best.Some? {
      var i :| BestTitleJoin(m, t, uid, cands, n, i, best.value.1) && best.value.0 == Ratio(m, t, uid, cands[i]);
      if TitleJoin(m, t, uid, cand) && Ratio(m, t, uid, cand) > best.value.0 {
        forall j | 0 <= j < n + 1
          ensures NoBetterTitle(m, t, uid, cands, n, j)
        {
          assert j < n ==> NoBetterTitle(m, t, uid, cands, i, j);
        }
        assert BestTitleJoin(m, t, uid, cands, n + 1, n, t[cand].GroupOr(cand));
      } else {
        assert BestTitleJoin(m, t, uid, cands, n + 1, i, best.value.1);
      }
    } else if TitleJoin(m, t, uid, cand) {
      assert BestTitleJoin(m, t, uid, cands, n + 1, n, t[cand].GroupOr(cand));
    }
  }

  lemma {:induction false} BestByTitleIsBest(m: Matching, t: Table, uid: Uid, cands: seq<Uid>, n: nat,
      best: Option<(real, Uid)>)
    requires uid in t && n <= |cands| && BestSoFar(m, t, uid, cands, n, best)
    ensures BestSoFar(m, t, uid, cands, |cands|, BestByTitle(m, t, uid, cands[n..], best))
    decreases |cands| - n
  {
    if n < |cands| {
      var cand := cands[n];
      assert cands[n..][0] == cand && cands[n..][1..] == cands[n + 1..];
      BestNext(m, t, uid, cands, n, best);
      if TitleJoin(m, t, uid, cand) && (best.None? || Ratio(m, t, uid, cand) > best.value.0) {
        BestByTitleIsBest(m, t, uid, cands, n + 1, Some((Ratio(m, t, uid, cand), t[cand].GroupOr(cand))));
      } else {
        BestByTitleIsBest(m, t, uid, cands, n + 1, best);
      }
    }
  }

  /** Which match is taken: the first row in scan order with the same key; failing that, the row of the same employer
      and region with the most similar title, the first of equals; failing that, none. */
  lemma FoundMatchIsBest(m: Matching, t: Table, uid: Uid)
    requires uid in t && t[uid].employerKey != ""
    ensures var byKey, byTitle := m.scanKey(t, uid), m.scanEmployer(t, uid);
            match FindMatch(m, t, uid)
            case None =>
              && NoKeyJoin(m, t, uid, byKey, |byKey|)
              && (Truthy(t[uid].region) ==> NoTitleJoin(m, t, uid, byTitle, |byTitle|))
            case Some(g) =>
              || (exists i :: FirstKeyJoin(m, t, uid, byKey, i, g))
              || (&& NoKeyJoin(m, t, uid, byKey, |byKey|) && Truthy(t[uid].region)
                  && exists i :: BestTitleJoin(m, t, uid, byTitle, |byTitle|, i, g))
  {
    var byKey, byTitle := m.scanKey(t, uid), m.scanEmployer(t, uid);
    assert byKey[0..] == byKey && byTitle[0..] == byTitle;
    FirstByKeyIsFirst(m, t, uid, byKey, 0);
    BestByTitleIsBest(m, t, uid, byTitle, 0, None);
  }

  /** Nobody is missed: when no match is found, no scanned open row of another group with the same key, or of the same
      employer and region, within fourteen days matches. */
  lemma NobodyIsMissed(m: Matching, t: Table, uid: Uid)
    requires uid in t && t[uid].employerKey != "" && FindMatch(m, t, uid) == None
    ensures forall i :: 0 <= i < |m.scanKey(t, uid)| ==>
      var c := m.scanKey(t, uid)[i];
      !(&& c in t && c != uid && t[c].status == Open && t[c].dedupKey == t[uid].dedupKey
        && -1_209_600 <= t[c].publishedAt - t[uid].publishedAt <= 1_209_600
        && t[c].GroupOr(c) != t[uid].GroupOr(uid) && IsMatch(m, t[uid], t[c]))
    ensures t[uid].region !in {None, Some("")} ==> forall i :: 0 <= i < |m.scanEmployer(t, uid)| ==>
      var c := m.scanEmployer(t, uid)[i];
      !(&& c in t && c != uid && t[c].status == Open
        && t[c].employerKey == t[uid].employerKey && t[c].region == t[uid].region
        && -1_209_600 <= t[c].publishedAt - t[uid].publishedAt <= 1_209_600
        && t[c].GroupOr(c) != t[uid].GroupOr(uid) && IsMatch(m, t[uid], t[c]))
  {
    FoundMatchIsBest(m, t, uid);
    forall i | 0 <= i < |m.scanKey(t, uid)|
      ensures !KeyJoin(m, t, uid, m.scanKey(t, uid)[i])
    {
    }
    if Truthy(t[uid].region) {
      forall i | 0 <= i < |m.scanEmployer(t, uid)|
        ensures !TitleJoin(m, t, uid, m.scanEmployer(t, uid)[i])
      {
      }
    }
  }

  predicate AnyMatch(m: Matching, t: Table, uid: Uid, cands: seq<Uid>)
    requires uid in t
  {
    exists i :: 0 <= i < |cands| && cands[i] in t && cands[i] != uid && t[cands[i]].group == t[uid].group
                && IsMatch(m, t[uid], t[cands[i]])
  }

  predicate StillGrouped(m: Matching, t: Table, uid: Uid)
    requires uid in t
  {
    AnyMatch(m, t, uid, m.scanGroup(t, uid))
  }

  // ---------------------------------------------------------------- changing groups

  /** Makes `members` one group under their best member. */
  ghost function Assemble(t: Table, members: set<Uid>): Table
    requires members <= t.Keys && members != {}
  {
    var c := Canonical(t, members);
    map u | u in t ::
      if u in members then t[u].(group := Some(c), dupOf := if u == c then None else Some(c)) else t[u]
  }

  function MembersOf(t: Table, g: Uid): set<Uid> {
    set u | u in t && (t[u].group == Some(g) || u == g)
  }

  ghost function Regroup(t: Table, g: Uid): Table {
    if MembersOf(t, g) == {} then t else Assemble(t, MembersOf(t, g))
  }

  ghost function RegroupAll(t: Table, groups: seq<Uid>): Table {
    if groups == [] then t else RegroupAll(Regroup(t, groups[0]), groups[1..])
  }

  function Alone(t: Table, uid: Uid): Table
    requires uid in t
  {
    t[uid := t[uid].(group := Some(uid), dupOf := None)]
  }

  function Move(t: Table, who: set<Uid>, g: Uid): Table {
    map u | u in t :: if u in who then t[u].(group := Some(g)) else t[u]
  }

  function Others(t: Table, uid: Uid): set<Uid> {
    set u | u in t && t[u].group == Some(uid) && u != uid
  }

  ghost function Detach(t: Table, uid: Uid): Table
    requires uid in t && t[uid].group.Some?
  {
    var g := t[uid].group.value;
    var alone := Alone(t, uid);
    if g != uid then Regroup(alone, g)
    else
      var others := Others(alone, uid);
      if others == {} then alone
      else
        var best := Canonical(alone, others);
        Regroup(Move(alone, others, best), best)
  }

  ghost function AssignOne(m: Matching, t: Table, uid: Uid): Table {
    if uid !in t || (t[uid].group.Some? && StillGrouped(m, t, uid)) then t
    else
      var ready := if t[uid].group.Some? then Detach(t, uid) else t;
      var found := FindMatch(m, ready, uid);
      if found.None? then
        if t[uid].group.None? && uid in ready then Alone(ready, uid) else ready
      else
        Regroup(Move(ready, Others(ready, uid) + {uid}, found.value), found.value)
  }

  ghost function AssignAll(m: Matching, t: Table, uids: seq<Uid>): Table {
    if uids == [] then t else AssignAll(m, AssignOne(m, t, uids[0]), uids[1..])
  }

  // ---------------------------------------------------------------- what a transaction keeps

  /** The group id is an open row of the table. */
  predicate Sound(t: Table, g: Uid) { g in t && t[g].status == Open }

  /** Some row of `dirty` is in group `g`: the end of the transaction regroups it. */
  ghost predicate Dirty(t: Table, dirty: set<Uid>, g: Uid) {
    exists d :: d in dirty && d in t && t[d].group == Some(g)
  }

  ghost predicate RowOk(t: Table, dirty: set<Uid>, u: Uid)
    requires u in t
  {
    match t[u].group
    case None => t[u].dupOf == None
    case Some(g) =>
      && t[u].dupOf == (if u == g then None else Some(g))
      && (g in t ==> t[g].group == Some(g) || t[g].group == None)
      && (t[u].status == Open ==> Sound(t, g) || Dirty(t, dirty, g))
  }

  /** Holds between the statements of a transaction that has changed the status of the rows in `dirty`. */
  ghost predicate Working(t: Table, dirty: set<Uid>) {
    forall u :: u in t ==> RowOk(t, dirty, u)
  }

  /** Holds between transactions: every row is grouped, and every open group has its open canonical row. */
  ghost predicate Consistent(t: Table) {
    forall u :: u in t ==>
      && t[u].group.Some?
      && var g := t[u].group.value;
        && t[u].dupOf == (if u == g then None else Some(g))
        && (g in t ==> t[g].group == Some(g))
        && (t[u].status == Open ==> Sound(t, g))
  }

  lemma WorkingIsConsistent(t: Table)
    requires Working(t, {}) && forall u :: u in t ==> t[u].group.Some?
    ensures Consistent(t)
  {
  }

  /** Nothing outside `members` refers to, or shares a dirty group with, `members`. */
  ghost predicate Separate(t: Table, members: set<Uid>, dirty: set<Uid>) {
    forall u :: u in t && u !in members ==>
      && RowOk(t, dirty - members, u)
      && (t[u].group.Some? ==> t[u].group.value !in members)
  }

  /** Assembling a separate set of rows restores everything about them. */
  lemma AssembleWorks(t: Table, members: set<Uid>, dirty: set<Uid>)
    requires members <= t.Keys && members != {} && Separate(t, members, dirty)
    ensures var after := Assemble(t, members);
            && after.Keys == t.Keys && Working(after, dirty)
            && (forall u :: u in t && u !in members ==> after[u] == t[u])
            && (forall u :: u in members ==> after[u].group == Some(Canonical(t, members)))
            && (forall u :: u in members && after[u].status == Open ==> Sound(after, Canonical(t, members)))
  {
    var after := Assemble(t, members);
    var c := Canonical(t, members);
    forall u | u in after
      ensures RowOk(after, dirty, u)
    {
      if u in members {
        if t[u].status == Open && u != c {
          assert Before(t, c, u);
        }
      } else {
        assert RowOk(t, dirty - members, u);
        if t[u].group.Some? && t[u].status == Open && !Sound(t, t[u].group.value) {
          var d :| d in dirty - members && d in t && t[d].group == t[u].group;
          assert after[d].group == after[u].group;
        }
      }
    }
    forall u | u in members && after[u].status == Open
      ensures Sound(after, c)
    {
      if u != c {
        assert Before(t, c, u);
      }
    }
  }

  /** The rows that `regroup(g)` collects belong together. */
  ghost predicate OneGroup(t: Table, g: Uid) {
    g in t ==> t[g].group == Some(g) || t[g].group == None
  }

  lemma MembersAreSeparate(t: Table, g: Uid, dirty: set<Uid>)
    requires Working(t, dirty) && OneGroup(t, g)
    ensures Separate(t, MembersOf(t, g), dirty)
  {
    var members := MembersOf(t, g);
    forall u | u in t && u !in members
      ensures RowOk(t, dirty - members, u)
      ensures t[u].group.Some? ==> t[u].group.value !in members
    {
      assert RowOk(t, dirty, u);
      if t[u].group.Some? && t[u].status == Open && !Sound(t, t[u].group.value) {
        var d :| d in dirty && d in t && t[d].group == t[u].group;
        assert d !in members;
      }
    }
  }

  lemma RegroupWorks(t: Table, g: Uid, dirty: set<Uid>)
    requires Working(t, dirty) && OneGroup(t, g)
    ensures var after := Regroup(t, g);
            && after.Keys == t.Keys && Working(after, dirty)
            && (forall u :: u in t && u !in MembersOf(t, g) ==> after[u] == t[u])
            && (forall u :: u in MembersOf(t, g) ==>
                  after[u].group.Some? && (after[u].status == Open ==> Sound(after, after[u].group.value)))
  {
    if MembersOf(t, g) != {} {
      MembersAreSeparate(t, g, dirty);
      AssembleWorks(t, MembersOf(t, g), dirty);
    }
  }

  // ---------------------------------------------------------------- detach and assign

  /** Which rows a grouping step may leave ungrouped: none that was grouped before. */
  ghost predicate Progress(t: Table, after: Table) {
    after.Keys == t.Keys && forall u :: u in t && t[u].group.Some? ==> after[u].group.Some?
  }

  /** The columns that regrouping never touches. */
  function Facts(r: Row): Row { r.(group := None, dupOf := None) }

  ghost predicate SameFacts(t: Table, after: Table) {
    after.Keys == t.Keys && forall u :: u in t ==> Facts(after[u]) == Facts(t[u])
  }

  /** `uid` has left its group: it is alone, the others stay together without it, and no other group changes. */
  ghost predicate Left(t: Table, after: Table, uid: Uid)
    requires uid in t
  {
    && after.Keys == t.Keys && after[uid].group == Some(uid) && after[uid].dupOf == None
    && (forall v :: v in t && v != uid ==> after[v].group != Some(uid))
    && (forall v, w :: v in t && w in t && v != uid && w != uid && t[v].group == t[w].group == t[uid].group ==>
          after[v].group == after[w].group)
    && (forall v :: v in t && t[v].group.Some? && t[v].group != t[uid].group ==> after[v] == t[v])
  }

  lemma DetachFromOther(t: Table, uid: Uid, dirty: set<Uid>)
    requires Working(t, dirty) && uid in t && t[uid].group.Some? && t[uid].group.value != uid
    ensures var after := Detach(t, uid);
            && Working(after, dirty) && Progress(t, after) && after[uid].group == Some(uid)
            && after[uid].status == t[uid].status
  {
    var g := t[uid].group.value;
    var alone := Alone(t, uid);
    var members := MembersOf(alone, g);
    assert RowOk(t, dirty, uid);
    forall u | u in alone && u !in members
      ensures RowOk(alone, dirty - members, u)
      ensures alone[u].group.Some? ==> alone[u].group.value !in members
    {
      assert RowOk(t, dirty, u);
      if u != uid && t[u].group.Some? {
        var x := t[u].group.value;
        assert x != uid && x != g;
        if t[u].status == Open && !Sound(t, x) {
          var d :| d in dirty && d in t && t[d].group == Some(x);
          assert d !in members && alone[d] == t[d];
        }
      }
    }
    if members != {} {
      AssembleWorks(alone, members, dirty);
    } else {
      assert dirty - members == dirty;
    }
  }

  lemma DetachCanonical(t: Table, uid: Uid, dirty: set<Uid>)
    requires Working(t, dirty) && uid in t && t[uid].group == Some(uid)
    ensures var after := Detach(t, uid);
            && Working(after, dirty) && Progress(t, after) && after[uid].group == Some(uid)
            && after[uid].status == t[uid].status
  {
    var alone := Alone(t, uid);
    var others := Others(alone, uid);
    if others == {} {
      forall u | u in alone
        ensures RowOk(alone, dirty, u)
      {
        assert RowOk(t, dirty, u);
        if u != uid {
          assert u !in others;
        }
      }
    } else {
      var best := Canonical(alone, others);
      var moved := Move(alone, others, best);
      forall u | u in moved && u !in others
        ensures RowOk(moved, dirty - others, u)
        ensures moved[u].group.Some? ==> moved[u].group.value !in others
        ensures u !in MembersOf(moved, best)
      {
        assert RowOk(t, dirty, u);
        if u != uid && t[u].group.Some? {
          var x := t[u].group.value;
          assert x != uid && x !in others;
          if t[u].status == Open && !Sound(t, x) {
            var d :| d in dirty && d in t && t[d].group == Some(x);
            assert d !in others && moved[d] == alone[d];
          }
        }
      }
      assert MembersOf(moved, best) == others;
      AssembleWorks(moved, others, dirty);
    }
  }

  lemma OtherIsLeft(t: Table, uid: Uid, dirty: set<Uid>)
    requires Working(t, dirty) && uid in t && t[uid].group.Some? && t[uid].group.value != uid
    ensures Left(t, Detach(t, uid), uid)
  {
    var g := t[uid].group.value;
    var members := MembersOf(Alone(t, uid), g);
    forall v | v in t && v != uid
      ensures t[v].group != Some(uid)
      ensures v in members <==> t[v].group == Some(g) || v == g
      ensures v == g && t[v].group.Some? ==> t[v].group == Some(g)
    {
      assert RowOk(t, dirty, v) && RowOk(t, dirty, uid);
    }
  }

  lemma HeadIsLeft(t: Table, uid: Uid, dirty: set<Uid>)
    requires Working(t, dirty) && uid in t && t[uid].group == Some(uid)
    ensures Left(t, Detach(t, uid), uid)
  {
    var alone := Alone(t, uid);
    var others := Others(alone, uid);
    forall v | v in t
      ensures v in others <==> v != uid && t[v].group == Some(uid)
    {
    }
    if others != {} {
      var best := Canonical(alone, others);
      var moved := Move(alone, others, best);
      forall u | u in moved && u !in others
        ensures u !in MembersOf(moved, best)
      {
        assert RowOk(t, dirty, u);
      }
      assert MembersOf(moved, best) == others;
    }
  }

  /** `uid`, with whoever names it as group, and group `g` are one group; no other row changes. */
  ghost predicate Merged(t: Table, after: Table, uid: Uid, g: Uid)
    requires uid in t
  {
    && after.Keys == t.Keys
    && (forall v :: v in t && (v == g || t[v].group == Some(g) || t[v].group == Some(uid)) ==>
          after[v].group == after[uid].group)
    && (forall v :: v in t && v != uid && v != g && t[v].group != Some(g) && t[v].group != Some(uid) ==>
          after[v] == t[v])
  }

  lemma JoinWorks(t: Table, uid: Uid, g: Uid, dirty: set<Uid>)
    requires Working(t, dirty) && uid in t && (t[uid].group == None || t[uid].group == Some(uid))
    requires g != uid && OneGroup(t, g)
    ensures var after := Regroup(Move(t, Others(t, uid) + {uid}, g), g);
            && Working(after, dirty) && Progress(t, after) && after[uid].group.Some?
            && (t[uid].status == Open ==> Sound(after, after[uid].group.value))
  {
    var joining := Others(t, uid) + {uid};
    var moved := Move(t, joining, g);
    var members := MembersOf(moved, g);
    forall u | u in moved && u !in members
      ensures RowOk(moved, dirty - members, u)
      ensures moved[u].group.Some? ==> moved[u].group.value !in members
    {
      assert RowOk(t, dirty, u);
      if t[u].group.Some? {
        var x := t[u].group.value;
        assert x != uid && x != g;
        assert x !in members;
        if t[u].status == Open && !Sound(t, x) {
          var d :| d in dirty && d in t && t[d].group == Some(x);
          assert d !in members && moved[d] == t[d];
        }
      }
    }
    assert uid in members;
    AssembleWorks(moved, members, dirty);
  }

  lemma JoinMerges(t: Table, uid: Uid, g: Uid)
    requires uid in t && g != uid
    ensures Merged(t, Regroup(Move(t, Others(t, uid) + {uid}, g), g), uid, g)
  {
    var moved := Move(t, Others(t, uid) + {uid}, g);
    assert uid in MembersOf(moved, g);
  }

  lemma AssignOneWorks(m: Matching, t: Table, uid: Uid, dirty: set<Uid>)
    requires Working(t, dirty)
    ensures var after := AssignOne(m, t, uid);
            && Working(after, dirty) && Progress(t, after)
            && (uid in t ==> after[uid].group.Some?)
            && (uid in t && t[uid].status == Open && !(t[uid].group.Some? && StillGrouped(m, t, uid)) ==>
                  Sound(after, after[uid].group.value))
  {
    if uid in t && !(t[uid].group.Some? && StillGrouped(m, t, uid)) {
      var ready := t;
      if t[uid].group.Some? {
        ready := Detach(t, uid);
        if t[uid].group == Some(uid) {
          DetachCanonical(t, uid, dirty);
        } else {
          DetachFromOther(t, uid, dirty);
        }
      }
      var found := FindMatch(m, ready, uid);
      if found.Some? {
        FoundMatchIsJustified(m, ready, uid);
        var cand :| cand in ready && cand != uid && Joins(m, ready, uid, cand)
            && ready[cand].GroupOr(cand) == found.value;
        assert RowOk(ready, dirty, cand);
        JoinWorks(ready, uid, found.value, dirty);
      } else if t[uid].group.None? {
        AloneWorks(ready, uid, dirty);
      }
    }
  }

  /** Whom the grouping step splits out, merges, or leaves alone. A grouped row that matches a scanned row of its group
      stays where it is; any other row ends alone, or in the group of the match found for it once it had left. */
  lemma AssignOneOutcome(m: Matching, t: Table, uid: Uid, dirty: set<Uid>)
    requires Working(t, dirty) && uid in t
    ensures var after := AssignOne(m, t, uid);
            var ready := if t[uid].group.Some? then Detach(t, uid) else t;
            var fellows := m.scanGroup(t, uid);
            if t[uid].group.Some?
               && exists i :: 0 <= i < |fellows| && fellows[i] in t && fellows[i] != uid
                              && t[fellows[i]].group == t[uid].group && IsMatch(m, t[uid], t[fellows[i]])
            then after == t
            else
              && (t[uid].group.Some? ==> Left(t, ready, uid))
              && match FindMatch(m, ready, uid)
                 case None =>
                   && after[uid].group == Some(uid) && after[uid].dupOf == None
                   && (forall v :: v in t && v != uid ==> after[v] == ready[v])
                 case Some(g) => g != uid && Merged(ready, after, uid, g)
  {
    var fellows := m.scanGroup(t, uid);
    if !(t[uid].group.Some? && StillGrouped(m, t, uid)) {
      var ready := t;
      if t[uid].group.Some? {
        ready := Detach(t, uid);
        if t[uid].group == Some(uid) {
          DetachCanonical(t, uid, dirty);
          HeadIsLeft(t, uid, dirty);
        } else {
          DetachFromOther(t, uid, dirty);
          OtherIsLeft(t, uid, dirty);
        }
      }
      if FindMatch(m, ready, uid).Some? {
        FoundMatchIsJustified(m, ready, uid);
        var g := FindMatch(m, ready, uid).value;
        var cand :| cand in ready && cand != uid && Joins(m, ready, uid, cand) && ready[cand].GroupOr(cand) == g;
        JoinMerges(ready, uid, g);
      }
    }
  }

  /** A row without a group gets its own; rows that still named it as their group join it. */
  lemma AloneWorks(t: Table, uid: Uid, dirty: set<Uid>)
    requires Working(t, dirty) && uid in t && t[uid].group == None
    ensures Working(Alone(t, uid), dirty)
  {
    var after := Alone(t, uid);
    forall u | u in after
      ensures RowOk(after, dirty, u)
    {
      assert RowOk(t, dirty, u);
      if u != uid && t[u].group.Some? && t[u].status == Open && !Sound(t, t[u].group.value) {
        var d :| d in dirty && d in t && t[d].group == t[u].group;
        assert after[d].group == t[u].group;
      }
    }
  }

  lemma {:induction false} AssignAllWorks(m: Matching, t: Table, uids: seq<Uid>, dirty: set<Uid>)
    requires Working(t, dirty)
    ensures var after := AssignAll(m, t, uids);
            && Working(after, dirty) && Progress(t, after)
            && (forall i :: 0 <= i < |uids| && uids[i] in t ==> after[uids[i]].group.Some?)
    decreases |uids|
  {
    if uids != [] {
      AssignOneWorks(m, t, uids[0], dirty);
      AssignAllWorks(m, AssignOne(m, t, uids[0]), uids[1..], dirty);
      forall i | 0 <= i < |uids| && uids[i] in t
        ensures AssignAll(m, t, uids)[uids[i]].group.Some?
      {
        if i > 0 {
          assert uids[i] == uids[1..][i - 1];
        }
      }
    }
  }

  /** Each row of a list is assigned in its turn. */
  lemma {:induction false} AssignAllTurn(m: Matching, t: Table, uids: seq<Uid>, i: nat)
    requires i < |uids|
    ensures AssignAll(m, t, uids)
         == AssignAll(m, AssignOne(m, AssignAll(m, t, uids[..i]), uids[i]), uids[i + 1..])
    decreases i
  {
    if i == 0 {
      assert uids[..0] == [];
    } else {
      AssignAllTurn(m, AssignOne(m, t, uids[0]), uids[1..], i - 1);
      assert uids[1..][..i - 1] == uids[..i][1..] && uids[1..][i - 1] == uids[i] && uids[1..][i..] == uids[i + 1..];
    }
  }

  // ---------------------------------------------------------------- the end of a transaction

  /** `SELECT DISTINCT dedup_group ... WHERE uid IN uids` */
  function GroupsOf(t: Table, uids: seq<Uid>): seq<Uid> {
    if uids == [] then []
    else
      var groups := GroupsOf(t, uids[..|uids| - 1]);
      var u := uids[|uids| - 1];
      if u in t && t[u].group.Some? && t[u].group.value !in groups then groups + [t[u].group.value] else groups
  }

  lemma {:induction false} GroupsOfAreTheirs(t: Table, uids: seq<Uid>)
    ensures Distinct(GroupsOf(t, uids))
    ensures forall g :: g in GroupsOf(t, uids) ==> exists u :: u in t && t[u].group == Some(g)
    ensures forall i :: 0 <= i < |uids| && uids[i] in t && t[uids[i]].group.Some? ==>
              t[uids[i]].group.value in GroupsOf(t, uids)
  {
    if uids != [] {
      GroupsOfAreTheirs(t, uids[..|uids| - 1]);
    }
  }

  /** Consistent up to groups that still have to be regrouped. */
  ghost predicate ConsistentUpTo(t: Table, groups: seq<Uid>) {
    && Distinct(groups)
    && (forall g :: g in groups ==> exists u :: u in t && t[u].group == Some(g))
    && forall u :: u in t ==>
      && t[u].group.Some?
      && var g := t[u].group.value;
        && t[u].dupOf == (if u == g then None else Some(g))
        && (g in t ==> t[g].group == Some(g))
        && (t[u].status == Open ==> Sound(t, g) || g in groups)
  }

  lemma RegroupOneMore(t: Table, groups: seq<Uid>)
    requires groups != [] && ConsistentUpTo(t, groups)
    ensures ConsistentUpTo(Regroup(t, groups[0]), groups[1..])
    ensures Regroup(t, groups[0]).Keys == t.Keys
  {
    var g := groups[0];
    var after := Regroup(t, g);
    var w :| w in t && t[w].group == Some(g);
    RegroupWorks(t, g, t.Keys);
    forall u | u in after
      ensures after[u].group.Some?
      ensures RowOk(after, t.Keys, u)
      ensures after[u].status == Open ==>
                Sound(after, after[u].group.value) || after[u].group.value in groups[1..]
    {
      if u !in MembersOf(t, g) && after[u].status == Open && !Sound(t, t[u].group.value) {
        assert t[u].group.value in groups && t[u].group.value != g;
      }
    }
    forall h | h in groups[1..]
      ensures exists u :: u in after && after[u].group == Some(h)
    {
      var i :| 0 <= i < |groups[1..]| && groups[1..][i] == h;
      assert groups[i + 1] == h && h != g;
      var u :| u in t && t[u].group == Some(h);
      assert u !in MembersOf(t, g);
    }
  }

  lemma {:induction false} RegroupAllFixes(t: Table, groups: seq<Uid>)
    requires ConsistentUpTo(t, groups)
    ensures Consistent(RegroupAll(t, groups)) && RegroupAll(t, groups).Keys == t.Keys
    decreases |groups|
  {
    if groups != [] {
      RegroupOneMore(t, groups);
      RegroupAllFixes(Regroup(t, groups[0]), groups[1..]);
    }
  }

  /** Regrouping the groups of every row whose status changed ends the transaction consistently. */
  lemma RegroupForFixes(t: Table, uids: seq<Uid>)
    requires Working(t, set u | u in uids) && forall u :: u in t ==> t[u].group.Some?
    ensures Consistent(RegroupAll(t, GroupsOf(t, uids)))
    ensures RegroupAll(t, GroupsOf(t, uids)).Keys == t.Keys
  {
    var dirty := set u | u in uids;
    GroupsOfAreTheirs(t, uids);
    forall u | u in t && t[u].status == Open && !Sound(t, t[u].group.value)
      ensures t[u].group.value in GroupsOf(t, uids)
    {
      assert RowOk(t, dirty, u);
      var d :| d in dirty && d in t && t[d].group == t[u].group;
    }
    forall u | u in t
      ensures RowOk(t, dirty, u)
    {
    }
    RegroupAllFixes(t, GroupsOf(t, uids));
  }

  // ---------------------------------------------------------------- regrouping changes groups only

  lemma RegroupFacts(t: Table, g: Uid)
    ensures SameFacts(t, Regroup(t, g))
  {
  }

  lemma {:induction false} RegroupAllFacts(t: Table, groups: seq<Uid>)
    ensures SameFacts(t, RegroupAll(t, groups))
    decreases |groups|
  {
    if groups != [] {
      RegroupFacts(t, groups[0]);
      RegroupAllFacts(Regroup(t, groups[0]), groups[1..]);
    }
  }

  lemma AssignOneFacts(m: Matching, t: Table, uid: Uid)
    ensures SameFacts(t, AssignOne(m, t, uid))
  {
    if uid in t && !(t[uid].group.Some? && StillGrouped(m, t, uid)) {
      var ready := if t[uid].group.Some? then Detach(t, uid) else t;
      if t[uid].group.Some? {
        DetachFacts(t, uid);
      }
      var found := FindMatch(m, ready, uid);
      if found.Some? {
        RegroupFacts(Move(ready, Others(ready, uid) + {uid}, found.value), found.value);
      }
    }
  }

  lemma DetachFacts(t: Table, uid: Uid)
    requires uid in t && t[uid].group.Some?
    ensures SameFacts(t, Detach(t, uid))
  {
    var g := t[uid].group.value;
    var alone := Alone(t, uid);
    if g != uid {
      RegroupFacts(alone, g);
    } else if Others(alone, uid) != {} {
      var best := Canonical(alone, Others(alone, uid));
      RegroupFacts(Move(alone, Others(alone, uid), best), best);
    }
  }

  lemma {:induction false} AssignAllFacts(m: Matching, t: Table, uids: seq<Uid>)
    ensures SameFacts(t, AssignAll(m, t, uids))
    decreases |uids|
  {
    if uids != [] {
      AssignOneFacts(m, t, uids[0]);
      AssignAllFacts(m, AssignOne(m, t, uids[0]), uids[1..]);
    }
  }
}
