/** A store in which a detail answer that reopens a row leaves a group without an open head. */
module VacancyLimits {
  import opened Basics
  import opened Vacancies
  import opened Dedup
  import opened VacancyTransactions

  const MATCHING := Matching(
    (a: string, b: string) => false, (a: string, b: string) => 0.0,
    (t: Table, u: Uid) => ["a"], (t: Table, u: Uid) => [], (t: Table, u: Uid) => ["a"])

  function Posting(uid: Uid): Vacancy { Vacancy(uid, "hh", "Driver", "acme", None, None, 0, 0, "key", true) }

  const LISTED := [Posting("a"), Posting("b")]

  lemma AHeadsBoth(t: Table)
    requires "a" in t && "b" in t && t["a"].status == t["b"].status && t["a"].source == t["b"].source
    requires t["a"].quality == t["b"].quality && t["a"].publishedAt == t["b"].publishedAt
    ensures Canonical(t, {"a", "b"}) == "a"
  {
    assert LexLess("a", "b");
    assert IsCanonical(t, {"a", "b"}, "a");
    CanonicalIsUnique(t, {"a", "b"}, "a");
  }

  /** Both rows closed in the group that "a" heads. */
  predicate BothClosed(t: Table) {
    && t.Keys == {"a", "b"}
    && (forall u :: u in t ==> t[u].group == Some("a") && t[u].status == Closed && t[u].employerKey == "acme"
                               && t[u].dedupKey == "key" && t[u].publishedAt == 0 && t[u].district == None)
  }

  function Row0(uid: Uid): Row { NewRow(Posting(uid), 0) }

  lemma SeenBoth()
    ensures SightAll(map[], LISTED, 0) == map["a" := Row0("a"), "b" := Row0("b")]
    ensures ToGroup(map[], LISTED) == ["a", "b"] && Moved(map[], LISTED) == []
  {
    var one := [Posting("a")];
    assert LISTED[..1] == one && one[..0] == [];
    assert SightAll(map[], [], 0) == map[];
    assert SightAll(map[], one, 0) == map["a" := Row0("a")];
    var needs := (v: Vacancy) => NeedsGroup(map[], v);
    var moved := (v: Vacancy) => StatusMoved(map[], v);
    assert Uids([], needs) == [] && Uids([], moved) == [];
    assert needs(Posting("a")) && needs(Posting("b")) && !moved(Posting("a")) && !moved(Posting("b"));
    assert Uids(one, needs) == ["a"] && Uids(one, moved) == [];
    assert Uids(LISTED, needs) == ["a", "b"] && Uids(LISTED, moved) == [];
  }

  lemma FirstStaysAlone()
    ensures var seen: Table := map["a" := Row0("a"), "b" := Row0("b")];
            AssignOne(MATCHING, seen, "a") == seen["a" := Row0("a").(group := Some("a"))]
  {
    var seen: Table := map["a" := Row0("a"), "b" := Row0("b")];
    assert !KeyCandidate(seen, "a", "a");
    assert ["a"][1..] == [];
    assert FirstByKey(MATCHING, seen, "a", ["a"]) == None;
    assert FindMatch(MATCHING, seen, "a") == None;
  }

  lemma SecondJoins()
    ensures var t: Table := map["a" := Row0("a").(group := Some("a")), "b" := Row0("b")];
            AssignOne(MATCHING, t, "b")
            == map["a" := Row0("a").(group := Some("a")), "b" := Row0("b").(group := Some("a"), dupOf := Some("a"))]
  {
    var t: Table := map["a" := Row0("a").(group := Some("a")), "b" := Row0("b")];
    assert KeyJoin(MATCHING, t, "b", "a");
    assert FindMatch(MATCHING, t, "b") == Some("a");
    assert Others(t, "b") + {"b"} == {"b"};
    var moved := Move(t, {"b"}, "a");
    assert MembersOf(moved, "a") == {"a", "b"};
    AHeadsBoth(moved);
  }

  function Grouped(): Table {
    map["a" := Row0("a").(group := Some("a")), "b" := Row0("b").(group := Some("a"), dupOf := Some("a"))]
  }

  /** The two postings are listed, and grouped. */
  lemma UpsertGroupsBoth()
    ensures UpsertChunk(MATCHING, map[], LISTED, 0) == Grouped()
  {
    SeenBoth();
    AssignGroupsBoth();
  }

  lemma AssignGroupsBoth()
    ensures AssignAll(MATCHING, map["a" := Row0("a"), "b" := Row0("b")], ["a", "b"]) == Grouped()
  {
    FirstStaysAlone();
    SecondJoins();
    var seen: Table := map["a" := Row0("a"), "b" := Row0("b")];
    var first := AssignOne(MATCHING, seen, "a");
    assert first == map["a" := Row0("a").(group := Some("a")), "b" := Row0("b")];
    assert ["a", "b"][1..] == ["b"] && ["b"][1..] == [];
    assert AssignAll(MATCHING, first, ["b"]) == AssignOne(MATCHING, first, "b");
    assert AssignAll(MATCHING, seen, ["a", "b"]) == AssignAll(MATCHING, first, ["b"]);
  }

  /** Both are closed. */
  lemma CloseKeepsTheGroup()
    ensures BothClosed(CloseChunk(Grouped(), ["a", "b"], SourceClosed, 1))
  {
    var closing := Closing(Grouped(), ["a", "b"], SourceClosed, 1);
    assert BothClosed(closing);
    RegroupsBoth(closing);
    assert MembersOf(closing, "a") == {"a", "b"};
    AHeadsBoth(closing);
  }

  lemma RegroupsBoth(t: Table)
    requires BothClosed(t)
    ensures RegroupFor(t, ["a", "b"]) == Regroup(t, "a")
  {
    GroupsOfAreTheirs(t, ["a", "b"]);
    assert ["a", "b"][0] == "a" && t["a"].group.value in GroupsOf(t, ["a", "b"]);
    OneGroupOnly(t, GroupsOf(t, ["a", "b"]));
  }

  lemma OneGroupOnly(t: Table, groups: seq<Uid>)
    requires Distinct(groups) && groups != [] && forall g :: g in groups ==> g == "a"
    ensures RegroupAll(t, groups) == Regroup(t, "a")
  {
    assert groups[0] in groups;
    DistinctSize(groups, {"a"});
    assert groups[1..] == [];
  }

  lemma BMatchesA(t: Table)
    requires BothClosed(t)
    ensures var detailed := Detailed(t, Posting("b"), 2);
            "b" in detailed && StillGrouped(MATCHING, detailed, "b")
  {
    var detailed := Detailed(t, Posting("b"), 2);
    assert IsMatch(MATCHING, detailed["b"], detailed["a"]);
    assert MATCHING.scanGroup(detailed, "b")[0] == "a";
  }

  lemma StoreBeforeReopening()
    ensures var t := CloseChunk(Grouped(), ["a", "b"], SourceClosed, 1);
            Consistent(t) && BothClosed(t) && Reopens(t, Posting("b"))
  {
    CloseKeepsTheGroup();
    CloseChunkIsConsistent(Grouped(), ["a", "b"], SourceClosed, 1);
  }

  lemma NoHeadAfterReopening(t: Table)
    requires Consistent(t) && BothClosed(t) && Reopens(t, Posting("b"))
    ensures !Consistent(ApplyDetail(MATCHING, t, Posting("b"), 2))
  {
    BMatchesA(t);
    ReopeningByDetail(MATCHING, t, Posting("b"), 2);
  }

  /** From an empty store: list two matching postings, close both, and let a detail answer reopen the second. */
  lemma ReopeningLeavesNoHead()
    ensures var t := CloseChunk(UpsertChunk(MATCHING, map[], LISTED, 0), ["a", "b"], SourceClosed, 1);
            && Consistent(t) && Reopens(t, Posting("b"))
            && !Consistent(ApplyDetail(MATCHING, t, Posting("b"), 2))
  {
    UpsertGroupsBoth();
    StoreBeforeReopening();
    NoHeadAfterReopening(CloseChunk(Grouped(), ["a", "b"], SourceClosed, 1));
  }
}
