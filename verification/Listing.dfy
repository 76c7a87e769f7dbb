/** Keyset paging of the vacancy search. */
module Listing {
  import opened Basics
  import opened Numerals
  import Base64Url

  const SEARCH_MAX_LIMIT := 50

  datatype Sort = New | Old | Salary

  /** The columns a search reads; `shown` is the outcome of the WHERE clause for this request. */
  datatype Card = Card(
    shown: bool,
    publishedAt: int,
    currency: Option<string>,
    salaryMin: Option<int>,
    salaryMax: Option<int>)

  /** The table at the moment of one request, by row id. */
  type Snapshot = map<int, Card>

  datatype Entry = Entry(key: int, id: int)

  function KeyOf(c: Card, sort: Sort): int {
    match sort
    case Salary =>
      if c.currency.Some? && c.currency.value != "UZS" then 0
      else if c.salaryMax.Some? then c.salaryMax.value
      else if c.salaryMin.Some? then c.salaryMin.value
      else 0
    case _ => c.publishedAt
  }

  predicate Precedes(sort: Sort, a: Entry, b: Entry) {
    if sort == Old then a.key < b.key || (a.key == b.key && a.id < b.id)
    else a.key > b.key || (a.key == b.key && a.id > b.id)
  }

  function Matching(snap: Snapshot, sort: Sort): set<Entry> {
    set id | id in snap && snap[id].shown :: Entry(KeyOf(snap[id], sort), id)
  }

  /** What `ORDER BY` makes of the matching rows behind the cursor. */
  ghost predicate IsListing(sort: Sort, s: set<Entry>, l: seq<Entry>) {
    (forall e :: e in s <==> e in l) && Ordered(sort, l)
  }

  function Behind(sort: Sort, s: set<Entry>, after: Option<Entry>): set<Entry> {
    set e | e in s && (after.None? || Precedes(sort, after.value, e))
  }

  // ---------------------------------------------------------------- the order, on the columns

  /** What a vacancy pays in UZS: the upper end, else the lower end; nothing in a foreign currency. */
  function Pay(c: Card): int {
    if c.currency != None && c.currency != Some("UZS") then 0
    else match (c.salaryMax, c.salaryMin)
      case (Some(most), _) => most
      case (None, Some(least)) => least
      case (None, None) => 0
  }

  /** Row `a` is listed before row `b`: the newest, the oldest or the best paid first, then by id. */
  predicate Earlier(sort: Sort, snap: Snapshot, a: int, b: int)
    requires a in snap && b in snap
  {
    var x, y := snap[a], snap[b];
    match sort
    case New => if x.publishedAt == y.publishedAt then b < a else y.publishedAt < x.publishedAt
    case Old => if x.publishedAt == y.publishedAt then a < b else x.publishedAt < y.publishedAt
    case Salary => if Pay(x) == Pay(y) then b < a else Pay(y) < Pay(x)
  }

  /** Shown rows with their sort keys, in the order asked for. */
  ghost predicate ShowsInOrder(sort: Sort, snap: Snapshot, items: seq<Entry>) {
    && (forall i :: 0 <= i < |items| ==>
          && items[i].id in snap && snap[items[i].id].shown
          && items[i].key == if sort == Salary then Pay(snap[items[i].id]) else snap[items[i].id].publishedAt)
    && forall i, j :: 0 <= i < j < |items| ==> Earlier(sort, snap, items[i].id, items[j].id)
  }

  /** Every shown row is listed, or `items` are `limit` rows that all come before it. */
  ghost predicate NothingSkipped(sort: Sort, snap: Snapshot, limit: nat, items: seq<Entry>)
    requires ShowsInOrder(sort, snap, items)
  {
    forall id :: id in snap && snap[id].shown && (forall i :: 0 <= i < |items| ==> items[i].id != id) ==>
      |items| == limit && forall i :: 0 <= i < |items| ==> Earlier(sort, snap, items[i].id, id)
  }

  function EntryOf(sort: Sort, snap: Snapshot, id: int): Entry
    requires id in snap
  {
    Entry(KeyOf(snap[id], sort), id)
  }

  lemma KeysMean(sort: Sort, snap: Snapshot, a: int, b: int)
    requires a in snap && b in snap
    ensures EntryOf(sort, snap, a).key == if sort == Salary then Pay(snap[a]) else snap[a].publishedAt
    ensures Precedes(sort, EntryOf(sort, snap, a), EntryOf(sort, snap, b)) <==> Earlier(sort, snap, a, b)
  {
  }

  /** Sorted entries of matching rows are shown rows in the order of their columns. */
  lemma SortedByColumns(sort: Sort, snap: Snapshot, items: seq<Entry>)
    requires Ordered(sort, items) && forall e :: e in items ==> e in Matching(snap, sort)
    ensures ShowsInOrder(sort, snap, items)
  {
    forall i | 0 <= i < |items|
      ensures items[i].id in snap && snap[items[i].id].shown && items[i] == EntryOf(sort, snap, items[i].id)
    {
      assert items[i] in items;
    }
    forall i, j | 0 <= i < |items| && 0 <= j < |items|
      ensures Precedes(sort, items[i], items[j]) <==> Earlier(sort, snap, items[i].id, items[j].id)
    {
      KeysMean(sort, snap, items[i].id, items[j].id);
    }
  }

  lemma RestByColumns(sort: Sort, snap: Snapshot, rest: set<Entry>, limit: nat, page: Page)
    requires rest <= Matching(snap, sort) && IsFirstPage(sort, rest, limit, page.items, page.next)
    ensures ShowsInOrder(sort, snap, page.items) && |page.items| <= limit
  {
    SortedByColumns(sort, snap, page.items);
  }

  /** The first page of a search, on the columns of the table. */
  lemma FirstPageByColumns(sort: Sort, snap: Snapshot, limit: nat, page: Page)
    requires IsFirstPage(sort, Matching(snap, sort), limit, page.items, page.next)
    ensures ShowsInOrder(sort, snap, page.items) && NothingSkipped(sort, snap, limit, page.items)
  {
    SortedByColumns(sort, snap, page.items);
    forall id | id in snap && snap[id].shown && forall i :: 0 <= i < |page.items| ==> page.items[i].id != id
      ensures |page.items| == limit
      ensures forall i :: 0 <= i < |page.items| ==> Earlier(sort, snap, page.items[i].id, id)
    {
      var e := EntryOf(sort, snap, id);
      assert e in Matching(snap, sort) && e !in page.items;
      forall i | 0 <= i < |page.items|
        ensures Earlier(sort, snap, page.items[i].id, id)
      {
        KeysMean(sort, snap, page.items[i].id, id);
        assert page.items[i] in page.items && page.items[i] == EntryOf(sort, snap, page.items[i].id);
      }
    }
  }

  // ---------------------------------------------------------------- cursors

  /** UTF-8 of an ASCII string. */
  function ToBytes(s: string): seq<Base64Url.Byte>
    requires forall i :: 0 <= i < |s| ==> s[i] as int < 128
  {
    seq(|s|, i requires 0 <= i < |s| => s[i] as int)
  }

  function ToText(b: seq<Base64Url.Byte>): Option<string> {
    if forall i :: 0 <= i < |b| ==> b[i] < 128 then Some(seq(|b|, i requires 0 <= i < |b| => b[i] as char)) else None
  }

  /** The parts of a string with exactly one colon. */
  function SplitColon(s: string): Option<(string, string)> {
    if s == "" then None
    else if s[0] == ':' then if ':' in s[1..] then None else Some(("", s[1..]))
    else
      var rest := SplitColon(s[1..]);
      if rest.None? then None else Some(([s[0]] + rest.value.0, rest.value.1))
  }

  lemma {:induction false} SplitsAtColon(a: string, b: string)
    requires ':' !in a && ':' !in b
    ensures SplitColon(a + ":" + b) == Some((a, b))
  {
    var s := a + ":" + b;
    if a == "" {
      assert s[1..] == b;
    } else {
      SplitsAtColon(a[1..], b);
      assert s[1..] == a[1..] + ":" + b;
      assert a == [a[0]] + a[1..];
    }
  }

  lemma {:induction false} DigitsAreAscii(n: nat, b: nat)
    requires 2 <= b <= 36
    ensures forall i :: 0 <= i < |ToBase(n, b)| ==> ToBase(n, b)[i] as int < 128
  {
    Divide(n, b);
    if n >= b {
      DigitsAreAscii(n / b, b);
    }
  }

  function CursorText(e: Entry): string { IntToString(e.key) + ":" + IntToString(e.id) }

  lemma CursorTextIsAscii(e: Entry)
    ensures forall i :: 0 <= i < |CursorText(e)| ==> CursorText(e)[i] as int < 128
  {
    DigitsAreAscii(if e.key < 0 then -e.key else e.key, 10);
    DigitsAreAscii(if e.id < 0 then -e.id else e.id, 10);
  }

  function EncodeCursor(e: Entry): string {
    CursorTextIsAscii(e);
    Base64Url.Encode(ToBytes(CursorText(e)))
  }

  function DecodeCursor(cursor: string): Option<Entry> {
    var raw := Base64Url.Decode(cursor);
    if raw.None? then None
    else
      var text := ToText(raw.value);
      if text.None? then None
      else
        var parts := SplitColon(text.value);
        if parts.None? then None
        else
          var a, b := ParseInt(parts.value.0), ParseInt(parts.value.1);
          if a.None? || b.None? then None else Some(Entry(a.value, b.value))
  }

  /** The cursor decodes back to the pair it encodes, and is never empty. */
  lemma CursorRoundTrip(e: Entry)
    ensures DecodeCursor(EncodeCursor(e)) == Some(e)
    ensures EncodeCursor(e) != ""
  {
    CursorTextIsAscii(e);
    var text := CursorText(e);
    var bytes := ToBytes(text);
    Base64Url.DecodeInvertsEncode(bytes);
    Base64Url.EncodedLength(bytes);
    assert ToText(bytes).value == text;
    IntReadsBack(e.key);
    IntReadsBack(e.id);
    SplitsAtColon(IntToString(e.key), IntToString(e.id));
  }

  // ---------------------------------------------------------------- one page

  function PageLimit(limit: int): nat { Max(1, Min(limit, SEARCH_MAX_LIMIT)) }

  /** At least one row a page, at most fifty. */
  function Clamped(limit: int): nat { if limit < 1 then 1 else if limit > 50 then 50 else limit }

  datatype Page = Page(items: seq<Entry>, next: Option<string>, total: Option<nat>)

  /** Where a request starts: nowhere for an undecodable cursor, at the top without one. */
  datatype Start = Nowhere | Top | After(e: Entry)

  function StartOf(cursor: Option<string>): Start {
    if cursor.None? || cursor.value == "" then Top
    else if DecodeCursor(cursor.value).None? then Nowhere
    else After(DecodeCursor(cursor.value).value)
  }

  function Position(s: Start): Option<Entry> { if s.After? then Some(s.e) else None }

  ghost predicate Ordered(sort: Sort, l: seq<Entry>) {
    forall i, j :: 0 <= i < j < |l| ==> Precedes(sort, l[i], l[j])
  }

  ghost predicate AllIn(s: set<Entry>, l: seq<Entry>) { forall e :: e in s ==> e in l }

  /** `items` are the first `limit` of `behind`; the cursor is their last row unless nothing is left. */
  ghost predicate IsFirstPage(sort: Sort, behind: set<Entry>, limit: nat, items: seq<Entry>, next: Option<string>) {
    && Ordered(sort, items) && |items| <= limit
    && (forall e :: e in items ==> e in behind)
    && (forall e :: e in behind && e !in items ==>
          |items| == limit && forall i :: 0 <= i < |items| ==> Precedes(sort, items[i], e))
    && (if AllIn(behind, items) then next == None
        else items != [] && next == Some(EncodeCursor(items[|items| - 1])))
  }

  /** `page` answers a request for at most `limit` rows from `cursor`, of the rows in `all`. */
  ghost predicate IsPage(sort: Sort, all: set<Entry>, limit: nat, cursor: Option<string>, page: Page) {
    if StartOf(cursor) == Nowhere then page.items == [] && page.next == None
    else IsFirstPage(sort, Behind(sort, all, Position(StartOf(cursor))), limit, page.items, page.next)
  }

  /** The first of a set in sort order. */
  method First(sort: Sort, s: set<Entry>) returns (f: Entry)
    requires s != {}
    ensures f in s && forall e :: e in s && e != f ==> Precedes(sort, f, e)
  {
    ghost var some := Member(s);
    f :| f in s;
    var rest := s - {f};
    while rest != {}
      invariant rest <= s && f in s
      invariant forall e :: e in s && e !in rest && e != f ==> Precedes(sort, f, e)
      decreases |rest|
    {
      some := Member(rest);
      var e :| e in rest;
      rest := rest - {e};
      if Precedes(sort, e, f) {
        f := e;
      }
    }
  }

  /** `ORDER BY key, id LIMIT n`: the first rows, and what is left. */
  method Fetch(sort: Sort, s: set<Entry>, n: nat) returns (rows: seq<Entry>, left: set<Entry>)
    ensures |rows| <= n && (|rows| < n ==> left == {})
    ensures forall e :: e in s <==> e in rows || e in left
    ensures forall i, j :: 0 <= i < j < |rows| ==> Precedes(sort, rows[i], rows[j])
    ensures forall i, e :: 0 <= i < |rows| && e in left ==> Precedes(sort, rows[i], e)
  {
    rows, left := [], s;
    while |rows| < n && left != {}
      invariant |rows| <= n
      invariant forall e :: e in s <==> e in rows || e in left
      invariant forall i, j :: 0 <= i < j < |rows| ==> Precedes(sort, rows[i], rows[j])
      invariant forall i, e :: 0 <= i < |rows| && e in left ==> Precedes(sort, rows[i], e)
      decreases left
    {
      var f := First(sort, left);
      rows := rows + [f];
      left := left - {f};
    }
  }

  /** Fetches one row more than asked for, to see whether there is a next page. */
  method FirstPage(sort: Sort, behind: set<Entry>, max: nat) returns (items: seq<Entry>, next: Option<string>)
    requires max >= 1
    ensures IsFirstPage(sort, behind, max, items, next)
  {
    var rows, left := Fetch(sort, behind, max + 1);
    if |rows| <= max {
      return rows, None;
    }
    items := rows[..max];
    next := Some(EncodeCursor(items[max - 1]));
    OneRowMore(sort, behind, max, rows, left);
  }

  /** Of one row more than fits, the first ones are the page, and there is a next page. */
  lemma OneRowMore(sort: Sort, behind: set<Entry>, max: nat, rows: seq<Entry>, left: set<Entry>)
    requires |rows| == max + 1 && Ordered(sort, rows) && forall e :: e in behind <==> e in rows || e in left
    requires forall i, e :: 0 <= i < |rows| && e in left ==> Precedes(sort, rows[i], e)
    ensures Ordered(sort, rows[..max]) && (forall e :: e in rows[..max] ==> e in behind) && !AllIn(behind, rows[..max])
    ensures forall e, i :: e in behind && e !in rows[..max] && 0 <= i < max ==> Precedes(sort, rows[..max][i], e)
  {
    var items, last := rows[..max], rows[max];
    assert rows == items + [last] && last in behind;
    forall i | 0 <= i < max
      ensures items[i] == rows[i] && Precedes(sort, items[i], last)
    {
    }
    assert last !in items;
    forall e, i | e in behind && e !in items && 0 <= i < max
      ensures Precedes(sort, items[i], e)
    {
      assert e == last || e in left;
    }
  }

  /** `head` are the first rows of `s`, `n` of them or all. */
  ghost predicate IsHead(sort: Sort, s: set<Entry>, n: nat, head: seq<Entry>) {
    && Ordered(sort, head) && |head| <= n
    && (forall e :: e in head ==> e in s)
    && (forall e :: e in s && e !in head ==> |head| == n && forall i :: 0 <= i < |head| ==> Precedes(sort, head[i], e))
  }

  /** The rows an offset skips; it counts only without a cursor. */
  function Skip(cursor: Option<string>, offset: int): nat {
    if cursor.None? || cursor.value == "" then Max(0, offset) else 0
  }

  function Without(all: set<Entry>, skipped: seq<Entry>): set<Entry> { set e | e in all && e !in skipped }

  /** `page` answers a request that skips the first `skip` rows. */
  ghost predicate IsPageAfter(sort: Sort, all: set<Entry>, limit: nat, skip: nat, page: Page) {
    exists skipped ::
      IsHead(sort, all, skip, skipped)
      && IsFirstPage(sort, Without(all, skipped), limit, page.items, page.next)
  }

  /** `search` */
  method Search(snap: Snapshot, sort: Sort, limit: int, cursor: Option<string>, offset: int, withTotal: bool)
      returns (page: Page)
    ensures (cursor.Some? && cursor.value != "") || offset <= 0 ==>
      IsPage(sort, Matching(snap, sort), Clamped(limit), cursor, page)
    ensures cursor.None? || cursor.value == "" ==>
      IsPageAfter(sort, Matching(snap, sort), Clamped(limit), if offset > 0 then offset else 0, page)
    ensures page.total == if cursor.None? || withTotal then Some(|Matching(snap, sort)|) else None
    ensures ShowsInOrder(sort, snap, page.items) && |page.items| <= Clamped(limit)
    ensures (cursor.None? || cursor.value == "") && offset <= 0 ==>
      NothingSkipped(sort, snap, Clamped(limit), page.items)
  {
    var all := Matching(snap, sort);
    var total := if cursor.None? || withTotal then Some(|all|) else None;
    var behind := Behind(sort, all, None);
    assert behind == all;
    if cursor.Some? && cursor.value != "" {
      var decoded := DecodeCursor(cursor.value);
      if decoded.None? {
        return Page([], None, total);
      }
      behind := Behind(sort, all, decoded);
    }
    ghost var skipped;
    page, skipped := FetchPage(sort, behind, Skip(cursor, offset), PageLimit(limit), total);
    RestByColumns(sort, snap, Without(behind, skipped), PageLimit(limit), page);
    if (cursor.None? || cursor.value == "") && offset <= 0 {
      assert Without(behind, skipped) == all;
      FirstPageByColumns(sort, snap, PageLimit(limit), page);
    }
  }

  method FetchPage(sort: Sort, behind: set<Entry>, skip: nat, max: nat, total: Option<nat>)
      returns (page: Page, ghost skipped: seq<Entry>)
    requires max >= 1
    ensures IsHead(sort, behind, skip, skipped) && page.total == total
    ensures IsFirstPage(sort, Without(behind, skipped), max, page.items, page.next)
    ensures skip == 0 ==> Without(behind, skipped) == behind
  {
    var head, left := Fetch(sort, behind, skip);
    skipped := head;
    forall e | e in left
      ensures e in behind && e !in skipped
    {
      assert forall i :: 0 <= i < |skipped| ==> Precedes(sort, skipped[i], e);
    }
    assert left == Without(behind, skipped);
    var items, next := FirstPage(sort, left, max);
    page := Page(items, next, total);
  }

  lemma {:induction false} HeadIsPrefix(sort: Sort, s: set<Entry>, n: nat, head: seq<Entry>, l: seq<Entry>)
    requires IsHead(sort, s, n, head) && IsListing(sort, s, l)
    ensures |head| == Min(n, |l|) && head == l[..|head|]
    decreases |head|
  {
    if head == [] {
      if l != [] {
        assert l[0] in s;
      }
    } else {
      assert head[0] in head && head[0] in l;
      assert l[0] in l && l[0] in s;
      FirstIsFirst(sort, s, n, head, l);
      var rest := s - {head[0]};
      TailIsHead(sort, s, n, head);
      TailIsListing(sort, s, l);
      HeadIsPrefix(sort, rest, n - 1, head[1..], l[1..]);
      assert head == [head[0]] + head[1..] && l[..|head|] == [l[0]] + l[1..][..|head| - 1];
    }
  }

  lemma FirstIsFirst(sort: Sort, s: set<Entry>, n: nat, head: seq<Entry>, l: seq<Entry>)
    requires IsHead(sort, s, n, head) && IsListing(sort, s, l) && head != [] && l != []
    ensures head[0] == l[0]
  {
    var a, b := head[0], l[0];
    assert a in head && a in s && b in l && b in s;
    var i :| 0 <= i < |l| && l[i] == a;
    assert i == 0 || Precedes(sort, b, a);
    assert b == a || Precedes(sort, a, b) by {
      if b in head {
        var j :| 0 <= j < |head| && head[j] == b;
        assert j == 0 || Precedes(sort, head[0], head[j]);
      }
    }
  }

  lemma TailIsHead(sort: Sort, s: set<Entry>, n: nat, head: seq<Entry>)
    requires IsHead(sort, s, n, head) && head != []
    ensures n >= 1 && IsHead(sort, s - {head[0]}, n - 1, head[1..])
  {
    var tail := head[1..];
    assert head == [head[0]] + tail;
    forall e | e in tail
      ensures e in s - {head[0]}
    {
      var j :| 0 <= j < |tail| && tail[j] == e;
      assert head[j + 1] == e && Precedes(sort, head[0], head[j + 1]);
    }
    forall e | e in s - {head[0]} && e !in tail
      ensures |tail| == n - 1 && forall i :: 0 <= i < |tail| ==> Precedes(sort, tail[i], e)
    {
      assert e !in head;
      assert forall i :: 0 <= i < |tail| ==> tail[i] == head[i + 1];
    }
  }

  lemma TailIsListing(sort: Sort, s: set<Entry>, l: seq<Entry>)
    requires IsListing(sort, s, l) && l != []
    ensures IsListing(sort, s - {l[0]}, l[1..])
  {
    var tail := l[1..];
    assert l == [l[0]] + tail;
    forall e | e in tail
      ensures e != l[0]
    {
      var j :| 0 <= j < |tail| && tail[j] == e;
      assert Precedes(sort, l[0], l[j + 1]);
    }
  }

  /** Paging by number: the request that skips `skip` rows returns that slice of the sorted rows, and says that there
      is more exactly when the slice does not reach the end. */
  lemma OffsetPageIsASlice(sort: Sort, all: set<Entry>, limit: nat, skip: nat, page: Page, l: seq<Entry>)
    requires IsPageAfter(sort, all, limit, skip, page) && IsListing(sort, all, l)
    ensures var start := Min(skip, |l|);
            && page.items == l[start..start + Min(limit, |l| - start)]
            && (page.next.Some? <==> start + limit < |l|)
  {
    var skipped :| IsHead(sort, all, skip, skipped)
                   && IsFirstPage(sort, Without(all, skipped), limit, page.items, page.next);
    HeadIsPrefix(sort, all, skip, skipped, l);
    var start := |skipped|;
    var rest := Without(all, skipped);
    SuffixIsListing(sort, all, l, start);
    assert IsHead(sort, rest, limit, page.items);
    HeadIsPrefix(sort, rest, limit, page.items, l[start..]);
    assert l[start..][..|page.items|] == l[start..start + |page.items|];
    SuffixIsLeft(rest, l[start..], page.items);
  }

  lemma SuffixIsListing(sort: Sort, all: set<Entry>, l: seq<Entry>, n: nat)
    requires IsListing(sort, all, l) && n <= |l|
    ensures IsListing(sort, Without(all, l[..n]), l[n..])
  {
    assert l == l[..n] + l[n..];
    forall e | e in l[n..]
      ensures e !in l[..n]
    {
      var j :| 0 <= j < |l[n..]| && l[n..][j] == e;
      assert forall i :: 0 <= i < n ==> Precedes(sort, l[i], l[n + j]);
    }
  }

  /** Nothing is left behind a prefix exactly when it is the whole listing. */
  lemma SuffixIsLeft(rest: set<Entry>, l: seq<Entry>, items: seq<Entry>)
    requires (forall e :: e in rest <==> e in l) && items <= l
    requires forall i, j :: 0 <= i < j < |l| ==> l[i] != l[j]
    ensures AllIn(rest, items) <==> |items| == |l|
  {
    if |items| < |l| {
      assert l[|items|] in rest && l[|items|] !in items;
    } else {
      assert items == l;
    }
  }

  // ---------------------------------------------------------------- following the cursor

  /** Consecutive requests, each on the table as it is by then, following `next_cursor`. */
  ghost predicate IsWalk(sort: Sort, limit: nat, snaps: seq<Snapshot>, cursor: Option<string>, pages: seq<Page>)
    decreases |pages|
  {
    && |snaps| == |pages|
    && (pages != [] ==>
      && IsPage(sort, Matching(snaps[0], sort), limit, cursor, pages[0])
      && (|pages| > 1 ==> pages[0].next.Some?)
      && IsWalk(sort, limit, snaps[1..], pages[0].next, pages[1..]))
  }

  function Items(pages: seq<Page>): seq<Entry> {
    if pages == [] then [] else pages[0].items + Items(pages[1..])
  }

  /** A page lies behind its cursor, and its own cursor is its last row. */
  lemma PageLiesBehind(sort: Sort, all: set<Entry>, limit: nat, cursor: Option<string>, page: Page)
    requires IsPage(sort, all, limit, cursor, page) && limit >= 1
    ensures forall i :: 0 <= i < |page.items| ==>
      page.items[i] in all && (StartOf(cursor).After? ==> Precedes(sort, StartOf(cursor).e, page.items[i]))
    ensures Ordered(sort, page.items)
    ensures page.next.Some? ==>
      && page.items != [] && StartOf(page.next) == After(page.items[|page.items| - 1])
    ensures forall e :: e in all && StartOf(cursor) != Nowhere
                        && (StartOf(cursor).After? ==> Precedes(sort, StartOf(cursor).e, e)) ==>
      e in page.items || (page.next.Some? && Precedes(sort, page.items[|page.items| - 1], e))
  {
    forall i | 0 <= i < |page.items|
      ensures page.items[i] in Behind(sort, all, Position(StartOf(cursor)))
    {
      assert page.items[i] in page.items;
    }
    if page.next.Some? {
      CursorRoundTrip(page.items[|page.items| - 1]);
    }
  }

  lemma OrderedTogether(sort: Sort, head: seq<Entry>, tail: seq<Entry>)
    requires Ordered(sort, head) && Ordered(sort, tail)
    requires head != [] && forall j :: 0 <= j < |tail| ==> Precedes(sort, head[|head| - 1], tail[j])
    ensures Ordered(sort, head + tail)
  {
    forall i, j | 0 <= i < |head| && 0 <= j < |tail|
      ensures Precedes(sort, head[i], tail[j])
    {
      assert i == |head| - 1 || Precedes(sort, head[i], head[|head| - 1]);
    }
  }

  ghost predicate LieBehind(sort: Sort, start: Start, l: seq<Entry>) {
    start.After? ==> forall i :: 0 <= i < |l| ==> Precedes(sort, start.e, l[i])
  }

  /**
   * With arbitrary changes between the pages, rows come in strict order: no (key, id) twice, and
   * everything lies behind the first cursor.
   */
  lemma {:induction false} WalksNeverRepeat(sort: Sort, limit: nat, snaps: seq<Snapshot>, cursor: Option<string>,
      pages: seq<Page>)
    requires IsWalk(sort, limit, snaps, cursor, pages) && limit >= 1
    ensures Ordered(sort, Items(pages)) && LieBehind(sort, StartOf(cursor), Items(pages))
    decreases |pages|
  {
    if pages != [] {
      PageLiesBehind(sort, Matching(snaps[0], sort), limit, cursor, pages[0]);
      WalksNeverRepeat(sort, limit, snaps[1..], pages[0].next, pages[1..]);
      var head, tail := pages[0].items, Items(pages[1..]);
      if |pages| > 1 {
        OrderedTogether(sort, head, tail);
      } else {
        assert tail == [];
      }
    }
  }

  /** A row that is there for every request, with the same key, is returned by a walk that ends. */
  lemma {:induction false} WalksMissNothing(sort: Sort, limit: nat, snaps: seq<Snapshot>, cursor: Option<string>,
                                            pages: seq<Page>, e: Entry)
    requires IsWalk(sort, limit, snaps, cursor, pages) && limit >= 1
    requires pages != [] && pages[|pages| - 1].next == None
    requires forall i :: 0 <= i < |snaps| ==> e in Matching(snaps[i], sort)
    requires StartOf(cursor) != Nowhere && (StartOf(cursor).After? ==> Precedes(sort, StartOf(cursor).e, e))
    ensures e in Items(pages)
    decreases |pages|
  {
    assert e in Matching(snaps[0], sort);
    PageLiesBehind(sort, Matching(snaps[0], sort), limit, cursor, pages[0]);
    if e !in pages[0].items {
      assert pages[0].next.Some?;
      assert |pages| > 1;
      assert forall i :: 0 <= i < |snaps[1..]| ==> snaps[1..][i] == snaps[i + 1];
      assert pages[1..][|pages[1..]| - 1] == pages[|pages| - 1];
      WalksMissNothing(sort, limit, snaps[1..], pages[0].next, pages[1..], e);
    }
  }

  /** On an unchanging table a finished walk from the top lists every shown row once, in the order of its columns. */
  lemma StillTableIsListedOnce(sort: Sort, limit: nat, snap: Snapshot, snaps: seq<Snapshot>, pages: seq<Page>)
    requires IsWalk(sort, limit, snaps, None, pages) && limit >= 1
    requires forall i :: 0 <= i < |snaps| ==> snaps[i] == snap
    requires pages != [] && pages[|pages| - 1].next == None
    ensures IsListing(sort, Matching(snap, sort), Items(pages))
    ensures ShowsInOrder(sort, snap, Items(pages)) && ShowsAll(snap, Items(pages))
  {
    StillTableIsListed(sort, limit, snap, snaps, pages);
    ListingByColumns(sort, snap, Items(pages));
  }

  ghost predicate ShowsAll(snap: Snapshot, items: seq<Entry>) {
    forall id :: id in snap && snap[id].shown ==> exists i :: 0 <= i < |items| && items[i].id == id
  }

  lemma StillTableIsListed(sort: Sort, limit: nat, snap: Snapshot, snaps: seq<Snapshot>, pages: seq<Page>)
    requires IsWalk(sort, limit, snaps, None, pages) && limit >= 1
    requires forall i :: 0 <= i < |snaps| ==> snaps[i] == snap
    requires pages != [] && pages[|pages| - 1].next == None
    ensures IsListing(sort, Matching(snap, sort), Items(pages))
  {
    WalksNeverRepeat(sort, limit, snaps, None, pages);
    forall e | e in Matching(snap, sort)
      ensures e in Items(pages)
    {
      WalksMissNothing(sort, limit, snaps, None, pages, e);
    }
    forall e | e in Items(pages)
      ensures e in Matching(snap, sort)
    {
      ItemsComeFromTheTable(sort, limit, snaps, None, pages, e);
    }
  }

  lemma ListingByColumns(sort: Sort, snap: Snapshot, l: seq<Entry>)
    requires IsListing(sort, Matching(snap, sort), l)
    ensures ShowsInOrder(sort, snap, l) && ShowsAll(snap, l)
  {
    SortedByColumns(sort, snap, l);
    forall id | id in snap && snap[id].shown
      ensures exists i :: 0 <= i < |l| && l[i].id == id
    {
      assert EntryOf(sort, snap, id) in Matching(snap, sort);
      var i :| 0 <= i < |l| && l[i] == EntryOf(sort, snap, id);
    }
  }

  lemma {:induction false} ItemsComeFromTheTable(sort: Sort, limit: nat, snaps: seq<Snapshot>, cursor: Option<string>,
                                                 pages: seq<Page>, e: Entry)
    requires IsWalk(sort, limit, snaps, cursor, pages) && limit >= 1 && e in Items(pages)
    ensures exists i :: 0 <= i < |snaps| && e in Matching(snaps[i], sort)
    decreases |pages|
  {
    PageLiesBehind(sort, Matching(snaps[0], sort), limit, cursor, pages[0]);
    if e !in pages[0].items {
      ItemsComeFromTheTable(sort, limit, snaps[1..], pages[0].next, pages[1..], e);
      var i :| 0 <= i < |snaps[1..]| && e in Matching(snaps[1..][i], sort);
      assert snaps[1..][i] == snaps[i + 1];
    }
  }

  /** On an unchanging table the cursor runs out: every page but the last has `limit` rows. */
  lemma {:induction false} StillWalksEnd(sort: Sort, limit: nat, snap: Snapshot, snaps: seq<Snapshot>,
                                         cursor: Option<string>, pages: seq<Page>, left: set<Entry>)
    requires IsWalk(sort, limit, snaps, cursor, pages) && limit >= 1
    requires forall i :: 0 <= i < |snaps| ==> snaps[i] == snap
    requires left == if StartOf(cursor) == Nowhere then {} else Behind(sort, Matching(snap, sort),
            Position(StartOf(cursor)))
    ensures |pages| <= |left| + 1
    decreases |pages|
  {
    if |pages| > 1 {
      PageLiesBehind(sort, Matching(snap, sort), limit, cursor, pages[0]);
      var last := pages[0].items[|pages[0].items| - 1];
      var rest := Behind(sort, Matching(snap, sort), Some(last));
      StillWalksEnd(sort, limit, snap, snaps[1..], pages[0].next, pages[1..], rest);
      Fewer(sort, Matching(snap, sort), Position(StartOf(cursor)), last);
    }
  }

  /** Moving the cursor to a row behind it leaves fewer rows. */
  lemma Fewer(sort: Sort, all: set<Entry>, from: Option<Entry>, last: Entry)
    requires last in Behind(sort, all, from)
    ensures |Behind(sort, all, Some(last))| < |Behind(sort, all, from)|
  {
    var rest := Behind(sort, all, Some(last));
    var left := Behind(sort, all, from);
    assert last !in rest;
    assert rest <= left - {last};
    Smaller(rest, left - {last});
  }
}
