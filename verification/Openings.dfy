/** The number of openings shown on a search card. */
module Openings {
  import opened Basics
  import opened MapTotals
  import opened Vacancies
  import opened Dedup

  function OpenIn(t: Table, g: Uid): set<Uid> { set u | u in t && t[u].group == Some(g) && t[u].status == Open }

  /** `openings` of a card: open rows of its group, at least 1; 1 without a group. */
  function OpeningsOf(t: Table, r: Row): nat {
    if r.group.Some? && r.group.value != "" then Max(1, |OpenIn(t, r.group.value)|) else 1
  }

  /** The cards a search without filters shows. */
  function Visible(t: Table): Table { map u | u in t && t[u].status == Open && t[u].dupOf == None :: t[u] }

  function OpenRows(t: Table): set<Uid> { set u | u in t && t[u].status == Open }

  function OpeningsIn(t: Table): Row -> nat { (r: Row) => OpeningsOf(t, r) }

  /** Open rows whose group is headed by one of `cards`. */
  ghost function Represented(t: Table, cards: Table): set<Uid> {
    set u | u in t && t[u].status == Open && t[u].group.Some? && t[u].group.value in cards
  }

  lemma {:induction false} CardsCountTheirGroups(t: Table, cards: Table)
    requires Consistent(t) && "" !in t
    requires forall u :: u in cards ==> u in t && cards[u] == t[u] && t[u].status == Open && t[u].group == Some(u)
    ensures Total(cards, OpeningsIn(t)) == |Represented(t, cards)|
    decreases cards
  {
    if cards == map[] {
      assert Represented(t, cards) == {};
    } else {
      var u :| u in cards;
      var rest := cards - {u};
      CardsCountTheirGroups(t, rest);
      TotalRemove(cards, u, OpeningsIn(t));
      assert u in OpenIn(t, u);
      assert Represented(t, cards) == Represented(t, rest) + OpenIn(t, u);
      assert Represented(t, rest) !! OpenIn(t, u);
      assert OpeningsOf(t, t[u]) == |OpenIn(t, u)|;
    }
  }

  /** No vacancy is lost or shown twice: the openings of the visible cards add up to the open rows. */
  lemma OpeningsAddUp(t: Table)
    requires Consistent(t) && "" !in t
    ensures Total(Visible(t), OpeningsIn(t)) == |OpenRows(t)|
  {
    forall u | u in Visible(t)
      ensures t[u].group == Some(u)
    {
      assert t[u].group.Some?;
    }
    CardsCountTheirGroups(t, Visible(t));
    forall u | u in OpenRows(t)
      ensures u in Represented(t, Visible(t))
    {
      var g := t[u].group.value;
      assert Sound(t, g) && t[g].group == Some(g) && t[g].dupOf == None;
    }
    assert Represented(t, Visible(t)) == OpenRows(t);
  }

  /** `_attach_openings` for one page of cards. */
  method AttachOpenings(t: Table, page: seq<Row>) returns (openings: seq<nat>)
    ensures |openings| == |page|
    ensures forall i :: 0 <= i < |page| && (page[i].group == None || page[i].group == Some("")) ==> openings[i] == 1
    ensures forall i :: 0 <= i < |page| && page[i].group != None && page[i].group != Some("") ==>
      openings[i] == var n := |OpenIn(t, page[i].group.value)|; if n > 1 then n else 1
  {
    var counts: map<Uid, nat> := map[];
    for i := 0 to |page|
      invariant forall j :: 0 <= j < i && page[j].group.Some? && page[j].group.value != "" ==>
              page[j].group.value in counts
      invariant forall g :: g in counts ==> counts[g] == |OpenIn(t, g)|
    {
      if page[i].group.Some? && page[i].group.value != "" {
        var g := page[i].group.value;
        counts := counts[g := |OpenIn(t, g)|];
      }
    }
    openings := [];
    for i := 0 to |page|
      invariant |openings| == i
      invariant forall j :: 0 <= j < i ==> openings[j] == OpeningsOf(t, page[j])
    {
      var n: nat := 1;
      if page[i].group.Some? && page[i].group.value != "" {
        n := Max(1, counts[page[i].group.value]);
      }
      openings := openings + [n];
    }
  }
}
