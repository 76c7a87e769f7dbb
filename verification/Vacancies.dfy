/** Rows of the vacancy store, the order in which duplicates are preferred, and when two rows match. */
module Vacancies {
  import opened Basics

  type Uid = string

  const FUZZY_WINDOW_SECONDS := 14 * 86_400

  datatype Status = Open | Closed

  datatype CloseReason = SourceClosed | Gone | Stale

  /** What a source answered about one vacancy. */
  datatype Vacancy = Vacancy(
    uid: Uid,
    source: string,
    title: string,
    employerKey: string,
    region: Option<string>,
    district: Option<string>,
    publishedAt: int,
    quality: int,
    dedupKey: string,
    isOpen: bool)

  datatype Row = Row(
    source: string,
    title: string,
    employerKey: string,
    region: Option<string>,
    district: Option<string>,
    publishedAt: int,
    quality: int,
    dedupKey: string,
    status: Status,
    closeReason: Option<CloseReason>,
    closedAt: Option<int>,
    lastSeenAt: int,
    checkedAt: Option<int>,
    detailFailures: nat,
    recheckAfter: Option<int>,
    group: Option<Uid>,
    dupOf: Option<Uid>)
  {
    /** `COALESCE(dedup_group, uid)` */
    function GroupOr(uid: Uid): Uid { if group.Some? then group.value else uid }
  }

  type Table = map<Uid, Row>

  // ---------------------------------------------------------------- preference among duplicates

  predicate LexLess(a: string, b: string) {
    b != "" && (a == "" || a[0] < b[0] || (a[0] == b[0] && LexLess(a[1..], b[1..])))
  }

  lemma {:induction false} LexTotal(a: string, b: string)
    ensures LexLess(a, b) || LexLess(b, a) || a == b
    ensures !(LexLess(a, b) && LexLess(b, a))
    ensures a == b ==> !LexLess(a, b)
  {
    if a != "" && b != "" {
      LexTotal(a[1..], b[1..]);
      assert a == [a[0]] + a[1..] && b == [b[0]] + b[1..];
    }
  }

  lemma {:induction false} LexTransitive(a: string, b: string, c: string)
    requires LexLess(a, b) && LexLess(b, c)
    ensures LexLess(a, c)
  {
    if a != "" && a[0] == b[0] == c[0] {
      LexTransitive(a[1..], b[1..], c[1..]);
    }
  }

  function SourcePriority(source: string): int {
    if source == "hh" then 20 else if source == "osonish" then 10 else if source == "vacancy_gov" then 5 else 0
  }

  /** `canonical_rank(a) < canonical_rank(b)` */
  predicate Before(t: Table, a: Uid, b: Uid)
    requires a in t && b in t
  {
    var x, y := t[a], t[b];
    if x.status != y.status then x.status == Open
    else if SourcePriority(x.source) != SourcePriority(y.source)
        then SourcePriority(x.source) > SourcePriority(y.source)
    else if x.quality != y.quality then x.quality > y.quality
    else if x.publishedAt != y.publishedAt then x.publishedAt < y.publishedAt
    else LexLess(a, b)
  }

  lemma BeforeIsAnOrder(t: Table, a: Uid, b: Uid, c: Uid)
    requires a in t && b in t && c in t
    ensures Before(t, a, b) || Before(t, b, a) || a == b
    ensures !(Before(t, a, b) && Before(t, b, a)) && !Before(t, a, a)
    ensures Before(t, a, b) && Before(t, b, c) ==> Before(t, a, c)
  {
    LexTotal(a, b);
    LexTotal(a, a);
    if LexLess(a, b) && LexLess(b, c) {
      LexTransitive(a, b, c);
    }
  }

  ghost predicate IsCanonical(t: Table, members: set<Uid>, c: Uid)
    requires members <= t.Keys
  {
    c in members && forall u :: u in members && u != c ==> Before(t, c, u)
  }

  lemma {:induction false} CanonicalExists(t: Table, members: set<Uid>)
    requires members <= t.Keys && members != {}
    ensures exists c :: IsCanonical(t, members, c)
    decreases |members|
  {
    var u := Member(members);
    var rest := members - {u};
    if rest == {} {
      assert forall v :: v in members ==> v == u || v in rest;
      assert IsCanonical(t, members, u);
    } else {
      CanonicalExists(t, rest);
      var c :| IsCanonical(t, rest, c);
      forall v | v in rest
        ensures Before(t, u, c) ==> Before(t, u, v)
      {
        BeforeIsAnOrder(t, u, c, v);
      }
      BeforeIsAnOrder(t, u, c, c);
      assert IsCanonical(t, members, if Before(t, u, c) then u else c);
    }
  }

  /** The first of `sorted(members, key=canonical_rank)`. */
  ghost function Canonical(t: Table, members: set<Uid>): (c: Uid)
    requires members <= t.Keys && members != {}
    ensures IsCanonical(t, members, c)
  {
    CanonicalExists(t, members);
    var c :| IsCanonical(t, members, c);
    c
  }

  lemma CanonicalIsUnique(t: Table, members: set<Uid>, c: Uid)
    requires members <= t.Keys && IsCanonical(t, members, c)
    ensures c == Canonical(t, members)
  {
    BeforeIsAnOrder(t, c, Canonical(t, members), c);
  }

  function SourceRank(source: string): int {
    if source == "hh" then 1 else if source == "osonish" then 2 else if source == "vacancy_gov" then 3 else 4
  }

  /** The head of a group is open whenever a member is; among equals in that it has the best source (hh, osonish,
      vacancy_gov, any other), then the best quality, then the earliest publication, then the smallest uid. */
  lemma CanonicalPrefers(t: Table, members: set<Uid>, u: Uid)
    requires members <= t.Keys && u in members
    ensures var c := Canonical(t, members);
            && (t[u].status == Open ==> t[c].status == Open)
            && (t[c].status == t[u].status ==>
                  && SourceRank(t[c].source) <= SourceRank(t[u].source)
                  && (SourceRank(t[c].source) == SourceRank(t[u].source) ==>
                        && t[c].quality >= t[u].quality
                        && (t[c].quality == t[u].quality ==>
                              && t[c].publishedAt <= t[u].publishedAt
                              && (t[c].publishedAt == t[u].publishedAt ==> c == u || LexLess(c, u)))))
  {
    assert IsCanonical(t, members, Canonical(t, members));
  }

  // ---------------------------------------------------------------- matching

  /**
   * What the model leaves open: the title comparison, and the rows (in order) an index scan with a
   * LIMIT happens to visit.
   */
  datatype Matching = Matching(
    titlesMatch: (string, string) -> bool,
    titleRatio: (string, string) -> real,
    scanKey: (Table, Uid) -> seq<Uid>,
    scanEmployer: (Table, Uid) -> seq<Uid>,
    scanGroup: (Table, Uid) -> seq<Uid>)

  predicate Truthy(s: Option<string>) { s.Some? && s.value != "" }

  predicate Within(a: Row, b: Row) {
    -FUZZY_WINDOW_SECONDS <= a.publishedAt - b.publishedAt <= FUZZY_WINDOW_SECONDS
  }

  /** What a match takes: the same named employer, at most fourteen days apart, no two different districts, and the
      same key or a similar title in the same region. */
  lemma MatchMeans(m: Matching, a: Row, b: Row)
    ensures IsMatch(m, a, b) <==>
      && a.employerKey != "" && b.employerKey == a.employerKey
      && a.publishedAt - b.publishedAt <= 1_209_600 && b.publishedAt - a.publishedAt <= 1_209_600
      && (a.district == b.district || a.district in {None, Some("")} || b.district in {None, Some("")})
      && (|| (a.dedupKey != "" && b.dedupKey == a.dedupKey)
          || (a.region !in {None, Some("")} && b.region == a.region && m.titlesMatch(a.title, b.title)))
  {
  }

  predicate IsMatch(m: Matching, a: Row, b: Row) {
    && a.employerKey != "" && a.employerKey == b.employerKey
    && Within(a, b)
    && (Truthy(a.district) && Truthy(b.district) ==> a.district == b.district)
    && ((a.dedupKey != "" && a.dedupKey == b.dedupKey)
        || (Truthy(a.region) && a.region == b.region && m.titlesMatch(a.title, b.title)))
  }
}
