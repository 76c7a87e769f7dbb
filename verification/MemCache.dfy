/** The bounded in-memory cache: least recently used first, entries with an expiry. */
module MemCache {
  import opened Basics

  type Key = string

  datatype Entry<V> = Entry(key: Key, value: V, expiresAt: real)

  /** `entries` is the cache itself; `sets` is what an unbounded map would hold and `uses` who was set or hit, in
      order. */
  datatype State<V> = State(entries: seq<Entry<V>>, sets: map<Key, Entry<V>>, uses: seq<Key>)

  const MIN_ENTRIES := 16

  function Target(bound: nat): nat { bound * 9 / 10 }

  function Find<V>(entries: seq<Entry<V>>, key: Key): (r: Option<nat>)
    ensures r.Some? ==> r.value < |entries| && entries[r.value].key == key
    ensures r.None? ==> forall i :: 0 <= i < |entries| ==> entries[i].key != key
  {
    if entries == [] then None
    else if entries[|entries| - 1].key == key then Some(|entries| - 1)
    else Find(entries[..|entries| - 1], key)
  }

  function Drop<V>(entries: seq<Entry<V>>, i: nat): (r: seq<Entry<V>>)
    requires i < |entries|
  {
    entries[..i] + entries[i + 1..]
  }

  function Without<V>(entries: seq<Entry<V>>, key: Key): seq<Entry<V>> {
    match Find(entries, key)
    case None => entries
    case Some(i) => Drop(entries, i)
  }

  function Live<V>(entries: seq<Entry<V>>, now: real): (r: seq<Entry<V>>)
    ensures |r| <= |entries|
  {
    if entries == [] then []
    else
      var last := entries[|entries| - 1];
      Live(entries[..|entries| - 1], now) + if last.expiresAt <= now then [] else [last]
  }

  function Newest<V>(entries: seq<Entry<V>>, n: nat): seq<Entry<V>> {
    if |entries| <= n then entries else entries[|entries| - n..]
  }

  function Evicted<V>(entries: seq<Entry<V>>, bound: nat, now: real): seq<Entry<V>> {
    Newest(Live(entries, now), Target(bound))
  }

  function Get<V>(s: State<V>, key: Key, now: real): (State<V>, Option<V>) {
    match Find(s.entries, key)
    case None => (s, None)
    case Some(i) =>
      var e := s.entries[i];
      if now > e.expiresAt then (s.(entries := Drop(s.entries, i)), None)
      else (s.(entries := Drop(s.entries, i) + [e], uses := s.uses + [key]), Some(e.value))
  }

  function Set<V>(s: State<V>, bound: nat, key: Key, value: V, ttl: int, now: real): State<V> {
    var e := Entry(key, value, now + ttl as real);
    var entries := Without(s.entries, key) + [e];
    State(if |entries| > bound then Evicted(entries, bound, now) else entries, s.sets[key := e], s.uses + [key])
  }

  // ---------------------------------------------------------------- the invariant

  /** The position of the last use of `key`, or -1. */
  function LastUse(uses: seq<Key>, key: Key): (i: int)
    ensures -1 <= i < |uses|
  {
    if uses == [] then -1 else if uses[|uses| - 1] == key then |uses| - 1 else LastUse(uses[..|uses| - 1], key)
  }

  lemma LastUseAppend(uses: seq<Key>, key: Key, other: Key)
    ensures LastUse(uses + [key], other) == if other == key then |uses| else LastUse(uses, other)
  {
    assert (uses + [key])[..|uses|] == uses;
  }

  /** Every entry is the last one set for its key. */
  predicate Current<V(==)>(s: State<V>) {
    && (forall key :: key in s.sets ==> s.sets[key].key == key)
    && forall i :: 0 <= i < |s.entries| ==> s.entries[i].key in s.sets && s.sets[s.entries[i].key] == s.entries[i]
  }

  /** Entries stand in the order of their last use. */
  predicate ByUse<V>(entries: seq<Entry<V>>, uses: seq<Key>) {
    forall i, j :: 0 <= i < j < |entries| ==> LastUse(uses, entries[i].key) < LastUse(uses, entries[j].key)
  }

  predicate Inv<V(==)>(s: State<V>, bound: nat) {
    Current(s) && ByUse(s.entries, s.uses) && |s.entries| <= bound
  }

  /** `part` picks entries of `whole` in their order. */
  ghost predicate Picks<V>(part: seq<Entry<V>>, whole: seq<Entry<V>>, at: seq<nat>) {
    && |at| == |part|
    && (forall i :: 0 <= i < |part| ==> at[i] < |whole| && part[i] == whole[at[i]])
    && (forall i, j :: 0 <= i < j < |part| ==> at[i] < at[j])
  }

  lemma PicksKeepOrder<V>(part: seq<Entry<V>>, whole: seq<Entry<V>>, at: seq<nat>, uses: seq<Key>)
    requires Picks(part, whole, at) && ByUse(whole, uses)
    ensures ByUse(part, uses)
  {
  }

  lemma DropPicks<V>(entries: seq<Entry<V>>, i: nat) returns (at: seq<nat>)
    requires i < |entries|
    ensures Picks(Drop(entries, i), entries, at)
  {
    at := seq(|entries| - 1, k => if k < i then k else k + 1);
  }

  lemma {:induction false} LivePicks<V>(entries: seq<Entry<V>>, now: real) returns (at: seq<nat>)
    ensures Picks(Live(entries, now), entries, at)
  {
    if entries == [] {
      return [];
    }
    var n := |entries| - 1;
    at := LivePicks(entries[..n], now);
    if entries[n].expiresAt > now {
      at := at + [n];
    }
  }

  lemma EvictedPicks<V>(entries: seq<Entry<V>>, bound: nat, now: real) returns (at: seq<nat>)
    ensures Picks(Evicted(entries, bound, now), entries, at)
  {
    at := LivePicks(entries, now);
    var live := Live(entries, now);
    if |live| > Target(bound) {
      at := at[|live| - Target(bound)..];
    }
  }

  /** Using a key that is not among the entries puts it last. */
  lemma AppendUsed<V>(entries: seq<Entry<V>>, e: Entry<V>, uses: seq<Key>)
    requires ByUse(entries, uses) && forall i :: 0 <= i < |entries| ==> entries[i].key != e.key
    ensures ByUse(entries + [e], uses + [e.key])
  {
    forall i | 0 <= i < |entries|
      ensures LastUse(uses + [e.key], entries[i].key) == LastUse(uses, entries[i].key)
    {
      LastUseAppend(uses, e.key, entries[i].key);
    }
    LastUseAppend(uses, e.key, e.key);
  }

  lemma DistinctKeys<V>(entries: seq<Entry<V>>, uses: seq<Key>, i: nat, j: nat)
    requires ByUse(entries, uses) && i < |entries| && j < |entries|
    ensures entries[i].key == entries[j].key ==> i == j
  {
  }

  lemma WithoutHasNoKey<V>(entries: seq<Entry<V>>, uses: seq<Key>, key: Key)
    requires ByUse(entries, uses)
    ensures ByUse(Without(entries, key), uses)
    ensures forall e :: e in Without(entries, key) ==> e in entries && e.key != key
  {
    var found := Find(entries, key);
    if found.Some? {
      var i := found.value;
      var at := DropPicks(entries, i);
      PicksKeepOrder(Drop(entries, i), entries, at, uses);
      forall e | e in Drop(entries, i)
        ensures e in entries && e.key != key
      {
        var k :| 0 <= k < |Drop(entries, i)| && Drop(entries, i)[k] == e;
        var j := if k < i then k else k + 1;
        assert entries[j] == e;
        DistinctKeys(entries, uses, i, j);
      }
    }
  }

  /** Reading keeps the invariant. A hit is the last value set for the key, not past its expiry. */
  lemma GetIsFresh<V>(s: State<V>, bound: nat, key: Key, now: real)
    requires Inv(s, bound)
    ensures var (after, hit) := Get(s, key, now);
            && Inv(after, bound) && after.sets == s.sets
            && (hit.Some? ==> key in s.sets && hit.value == s.sets[key].value && now <= s.sets[key].expiresAt)
            && (hit.Some? <==> key in s.sets && s.sets[key] in s.entries && now <= s.sets[key].expiresAt)
            && (forall e :: e in s.entries && e.key != key ==> e in after.entries)
            && after.uses == if hit.Some? then s.uses + [key] else s.uses
  {
    var found := Find(s.entries, key);
    if found.Some? {
      var e := s.entries[found.value];
      WithoutHasNoKey(s.entries, s.uses, key);
      AppendUsed(Drop(s.entries, found.value), e, s.uses);
      OthersStay(s.entries, key);
    }
  }

  lemma OthersStay<V>(entries: seq<Entry<V>>, key: Key)
    ensures forall e :: e in entries && e.key != key ==> e in Without(entries, key)
  {
    var found := Find(entries, key);
    if found.Some? {
      var i := found.value;
      forall e | e in entries && e.key != key
        ensures e in Drop(entries, i)
      {
        var j :| 0 <= j < |entries| && entries[j] == e;
        assert Drop(entries, i)[if j < i then j else j - 1] == e;
      }
    }
  }

  /** Writing keeps the invariant and the bound, updates the unbounded map, and keeps what it has just written
      whenever that has time left. */
  lemma SetIsBounded<V>(s: State<V>, bound: nat, key: Key, value: V, ttl: int, now: real)
    requires Inv(s, bound) && bound >= MIN_ENTRIES
    ensures var after := Set(s, bound, key, value, ttl, now);
            var e := Entry(key, value, now + ttl as real);
            && Inv(after, bound) && after.sets == s.sets[key := e]
            && (ttl > 0 ==> after.entries != [] && after.entries[|after.entries| - 1] == e)
            && after.uses == s.uses + [key]
  {
    var e := Entry(key, value, now + ttl as real);
    var rest := Without(s.entries, key);
    WithoutHasNoKey(s.entries, s.uses, key);
    AppendUsed(rest, e, s.uses);
    var entries := rest + [e];
    forall i | 0 <= i < |entries|
      ensures entries[i].key in s.sets[key := e] && s.sets[key := e][entries[i].key] == entries[i]
    {
      assert i < |rest| ==> rest[i] in rest;
    }
    if |entries| > bound {
      var at := EvictedPicks(entries, bound, now);
      PicksKeepOrder(Evicted(entries, bound, now), entries, at, s.uses + [key]);
    }
  }

  lemma {:induction false} LiveMembers<V>(entries: seq<Entry<V>>, now: real, e: Entry<V>)
    ensures e in Live(entries, now) <==> e in entries && e.expiresAt > now
  {
    if entries != [] {
      var n := |entries| - 1;
      LiveMembers(entries[..n], now, e);
      assert entries == entries[..n] + [entries[n]];
    }
  }

  /** What is kept of the live entries are the last ones; what is dropped stands before them. */
  lemma KeptStandLast<V>(live: seq<Entry<V>>, n: nat, dropped: Entry<V>) returns (d: nat)
    requires dropped in live && dropped !in Newest(live, n)
    ensures |Newest(live, n)| == n && n < |live| && d < |live| - n && live[d] == dropped
  {
    var cut := |live| - n;
    d :| 0 <= d < |live| && live[d] == dropped;
    assert n < |live|;
    forall i | cut <= i < |live|
      ensures live[i] in Newest(live, n)
    {
      assert live[cut..][i - cut] == live[i];
    }
  }

  lemma KeptAt<V>(live: seq<Entry<V>>, n: nat, kept: Entry<V>) returns (k: nat)
    requires n < |live| && kept in Newest(live, n)
    ensures |live| - n <= k < |live| && live[k] == kept
  {
    var cut := |live| - n;
    var i :| 0 <= i < |live[cut..]| && live[cut..][i] == kept;
    k := cut + i;
  }

  /** Eviction keeps live entries only; it drops a live one only to get down to the target, and then one used
      longer ago than every entry it keeps. */
  lemma EvictionDropsTheLeastRecent<V>(entries: seq<Entry<V>>, bound: nat, now: real, uses: seq<Key>, dropped: Entry<V>)
    requires ByUse(entries, uses) && dropped in entries && dropped !in Evicted(entries, bound, now)
            && dropped.expiresAt > now
    ensures |Evicted(entries, bound, now)| == Target(bound)
    ensures forall kept :: kept in Evicted(entries, bound, now) ==>
              kept in entries && kept.expiresAt > now && LastUse(uses, dropped.key) < LastUse(uses, kept.key)
  {
    LiveMembers(entries, now, dropped);
    var live := Live(entries, now);
    var at := LivePicks(entries, now);
    PicksKeepOrder(live, entries, at, uses);
    var d := KeptStandLast(live, Target(bound), dropped);
    forall kept | kept in Evicted(entries, bound, now)
      ensures kept in entries && kept.expiresAt > now && LastUse(uses, dropped.key) < LastUse(uses, kept.key)
    {
      var k := KeptAt(live, Target(bound), kept);
      LiveMembers(entries, now, kept);
      assert kept in live;
    }
  }

  lemma TargetIsNineTenths(bound: nat)
    ensures 10 * Target(bound) <= 9 * bound < 10 * (Target(bound) + 1)
  {
  }

  /** A write drops another entry only when the cache was full and had nothing for the key: one past its expiry, or,
      down to nine tenths of the bound, one used longer ago than all it keeps. */
  lemma WriteDropsTheLeastRecent<V>(s: State<V>, bound: nat, key: Key, value: V, ttl: int, now: real, dropped: Entry<V>)
    requires Inv(s, bound) && dropped in s.entries && dropped.key != key
    requires dropped !in Set(s, bound, key, value, ttl, now).entries
    ensures |s.entries| == bound && forall e :: e in s.entries ==> e.key != key
    ensures var after := Set(s, bound, key, value, ttl, now);
            dropped.expiresAt <= now
            || (10 * |after.entries| <= 9 * bound < 10 * (|after.entries| + 1)
                && forall kept :: kept in after.entries ==>
                     LastUse(after.uses, dropped.key) < LastUse(after.uses, kept.key))
  {
    var rest, e := Without(s.entries, key), Entry(key, value, now + ttl as real);
    OthersStay(s.entries, key);
    WithoutHasNoKey(s.entries, s.uses, key);
    AppendUsed(rest, e, s.uses);
    assert dropped in rest + [e];
    assert |rest + [e]| > bound;
    assert Find(s.entries, key) == None;
    if dropped.expiresAt > now {
      EvictionDropsTheLeastRecent(rest + [e], bound, now, s.uses + [key], dropped);
    }
  }

  // ---------------------------------------------------------------- runs

  datatype Call<V> = Read(key: Key, now: real) | Write(key: Key, value: V, ttl: int, now: real)

  function Step<V>(s: State<V>, bound: nat, c: Call<V>): State<V> {
    match c
    case Read(key, now) => Get(s, key, now).0
    case Write(key, value, ttl, now) => Set(s, bound, key, value, ttl, now)
  }

  function Run<V>(s: State<V>, bound: nat, calls: seq<Call<V>>): State<V>
    decreases |calls|
  {
    if calls == [] then s else Run(Step(s, bound, calls[0]), bound, calls[1..])
  }

  /** What the unbounded map holds after `calls`: the last write of each key. */
  function LastWrites<V>(m: map<Key, Entry<V>>, calls: seq<Call<V>>): map<Key, Entry<V>>
    decreases |calls|
  {
    if calls == [] then m
    else
      var c := calls[0];
      LastWrites(if c.Write? then m[c.key := Entry(c.key, c.value, c.now + c.ttl as real)] else m, calls[1..])
  }

  /** The uses that calls make: every key written, and every key whose read was a hit. */
  function UsesOf<V>(s: State<V>, bound: nat, calls: seq<Call<V>>): seq<Key>
    decreases |calls|
  {
    if calls == [] then []
    else
      var c := calls[0];
      var used := c.Write? || Get(s, c.key, c.now).1.Some?;
      (if used then [c.key] else []) + UsesOf(Step(s, bound, c), bound, calls[1..])
  }

  lemma StepUses<V>(s: State<V>, bound: nat, c: Call<V>)
    requires Inv(s, bound) && bound >= MIN_ENTRIES
    ensures Inv(Step(s, bound, c), bound)
    ensures Step(s, bound, c).uses
         == s.uses + if c.Write? || Get(s, c.key, c.now).1.Some? then [c.key] else []
  {
    if c.Read? {
      GetIsFresh(s, bound, c.key, c.now);
    } else {
      SetIsBounded(s, bound, c.key, c.value, c.ttl, c.now);
    }
  }

  lemma {:induction false} RunUses<V>(s: State<V>, bound: nat, calls: seq<Call<V>>)
    requires Inv(s, bound) && bound >= MIN_ENTRIES
    ensures Run(s, bound, calls).uses == s.uses + UsesOf(s, bound, calls)
    decreases |calls|
  {
    if calls != [] {
      var c := calls[0];
      var used := if c.Write? || Get(s, c.key, c.now).1.Some? then [c.key] else [];
      var next := Step(s, bound, c);
      var rest := UsesOf(next, bound, calls[1..]);
      StepUses(s, bound, c);
      RunUses(next, bound, calls[1..]);
      assert UsesOf(s, bound, calls) == used + rest && next.uses == s.uses + used;
      assert (s.uses + used) + rest == s.uses + (used + rest);
    }
  }

  /** After any calls the entries stand in the order of the last write or hit of their keys. */
  lemma EntriesStandByUse<V>(s: State<V>, bound: nat, calls: seq<Call<V>>)
    requires Inv(s, bound) && bound >= MIN_ENTRIES
    ensures ByUse(Run(s, bound, calls).entries, s.uses + UsesOf(s, bound, calls))
  {
    RunsKeepInv(s, bound, calls);
    RunUses(s, bound, calls);
  }

  lemma {:induction false} RunsKeepInv<V>(s: State<V>, bound: nat, calls: seq<Call<V>>)
    requires Inv(s, bound) && bound >= MIN_ENTRIES
    ensures Inv(Run(s, bound, calls), bound) && Run(s, bound, calls).sets == LastWrites(s.sets, calls)
    decreases |calls|
  {
    if calls != [] {
      var c := calls[0];
      if c.Read? {
        GetIsFresh(s, bound, c.key, c.now);
      } else {
        SetIsBounded(s, bound, c.key, c.value, c.ttl, c.now);
      }
      RunsKeepInv(Step(s, bound, c), bound, calls[1..]);
    }
  }

  /** After any calls on an empty cache a hit is what the unbounded map would answer. */
  lemma CacheRefinesUnboundedMap<V>(bound: nat, calls: seq<Call<V>>, key: Key, now: real)
    requires bound >= MIN_ENTRIES
    ensures var s := Run(State([], map[], []), bound, calls);
            var all := LastWrites(map[], calls);
            var hit := Get(s, key, now).1;
            && |s.entries| <= bound && ByUse(s.entries, UsesOf(State([], map[], []), bound, calls))
            && (hit.Some? ==> key in all && hit.value == all[key].value && now <= all[key].expiresAt)
  {
    var empty: State<V> := State([], map[], []);
    RunsKeepInv(empty, bound, calls);
    EntriesStandByUse(empty, bound, calls);
    assert empty.uses + UsesOf(empty, bound, calls) == UsesOf(empty, bound, calls);
    GetIsFresh(Run(empty, bound, calls), bound, key, now);
  }

  /** `e` is among the `n` most recently used entries. */
  ghost predicate Among<V>(entries: seq<Entry<V>>, e: Entry<V>, n: nat) {
    exists i :: 0 <= i < |entries| && |entries| - n <= i && entries[i] == e
  }

  lemma DropAmong<V>(entries: seq<Entry<V>>, e: Entry<V>, n: nat, j: nat)
    requires Among(entries, e, n) && j < |entries| && entries[j].key != e.key
    ensures Among(Drop(entries, j), e, n)
  {
    var i :| 0 <= i < |entries| && |entries| - n <= i && entries[i] == e;
    assert Drop(entries, j)[if i < j then i else i - 1] == e;
  }

  lemma AppendAmong<V>(entries: seq<Entry<V>>, e: Entry<V>, n: nat, last: Entry<V>)
    requires Among(entries, e, n)
    ensures Among(entries + [last], e, n + 1)
  {
    var i :| 0 <= i < |entries| && |entries| - n <= i && entries[i] == e;
    assert (entries + [last])[i] == e;
  }

  lemma {:induction false} LiveAmong<V>(entries: seq<Entry<V>>, e: Entry<V>, n: nat, now: real)
    requires Among(entries, e, n) && e.expiresAt > now
    ensures Among(Live(entries, now), e, n)
  {
    var i :| 0 <= i < |entries| && |entries| - n <= i && entries[i] == e;
    var last := |entries| - 1;
    var front := Live(entries[..last], now);
    if i == last {
      assert Live(entries, now)[|front|] == e;
    } else {
      assert entries[..last][i] == e;
      LiveAmong(entries[..last], e, n - 1, now);
      var k :| 0 <= k < |front| && |front| - (n - 1) <= k && front[k] == e;
      assert Live(entries, now)[k] == e;
    }
  }

  lemma EvictedAmong<V>(entries: seq<Entry<V>>, e: Entry<V>, n: nat, bound: nat, now: real)
    requires Among(entries, e, n) && n <= Target(bound) && e.expiresAt > now
    ensures Among(Evicted(entries, bound, now), e, n)
  {
    LiveAmong(entries, e, n, now);
    var live := Live(entries, now);
    var i :| 0 <= i < |live| && |live| - n <= i && live[i] == e;
    var kept := Evicted(entries, bound, now);
    assert kept[i - (|live| - |kept|)] == e;
  }

  lemma ReadAmong<V>(s: State<V>, key: Key, now: real, e: Entry<V>, n: nat)
    requires Among(s.entries, e, n) && key != e.key
    ensures Among(Get(s, key, now).0.entries, e, n + 1)
  {
    var found := Find(s.entries, key);
    if found.Some? {
      DropAmong(s.entries, e, n, found.value);
      AppendAmong(Drop(s.entries, found.value), e, n, s.entries[found.value]);
    }
  }

  lemma WriteAmong<V>(s: State<V>, bound: nat, key: Key, value: V, ttl: int, now: real, e: Entry<V>, n: nat)
    requires Among(s.entries, e, n) && n + 1 <= Target(bound) && key != e.key && now < e.expiresAt
    ensures Among(Set(s, bound, key, value, ttl, now).entries, e, n + 1)
  {
    var found := Find(s.entries, key);
    if found.Some? {
      DropAmong(s.entries, e, n, found.value);
    }
    var rest := Without(s.entries, key);
    var last := Entry(key, value, now + ttl as real);
    AppendAmong(rest, e, n, last);
    if |rest + [last]| > bound {
      EvictedAmong(rest + [last], e, n + 1, bound, now);
    }
  }

  /** A call on another key moves an entry at most one place back. */
  lemma StepAmong<V>(s: State<V>, bound: nat, c: Call<V>, e: Entry<V>, n: nat)
    requires Among(s.entries, e, n) && n + 1 <= Target(bound) && c.key != e.key && c.now < e.expiresAt
    ensures Among(Step(s, bound, c).entries, e, n + 1)
  {
    if c.Read? {
      ReadAmong(s, c.key, c.now, e, n);
    } else {
      WriteAmong(s, bound, c.key, c.value, c.ttl, c.now, e, n);
    }
  }

  lemma {:induction false} RunAmong<V>(s: State<V>, bound: nat, calls: seq<Call<V>>, e: Entry<V>, n: nat)
    requires Among(s.entries, e, n) && n + |calls| <= Target(bound)
    requires forall c :: c in calls ==> c.key != e.key && c.now < e.expiresAt
    ensures Among(Run(s, bound, calls).entries, e, n + |calls|)
    decreases |calls|
  {
    if calls != [] {
      assert calls[0] in calls;
      StepAmong(s, bound, calls[0], e, n);
      RunAmong(Step(s, bound, calls[0]), bound, calls[1..], e, n + 1);
    }
  }

  /** A value just set with time left is still a hit after fewer than `Target` calls on other keys. */
  lemma RecentEntriesSurvive<V>(s: State<V>, bound: nat, key: Key, value: V, ttl: int, at: real, calls: seq<Call<V>>,
      now: real)
    requires Inv(s, bound) && bound >= MIN_ENTRIES && ttl > 0 && |calls| < Target(bound) && now < at + ttl as real
    requires forall c :: c in calls ==> c.key != key && c.now < at + ttl as real
    ensures Get(Run(Set(s, bound, key, value, ttl, at), bound, calls), key, now).1 == Some(value)
  {
    var e := Entry(key, value, at + ttl as real);
    var first := Set(s, bound, key, value, ttl, at);
    SetIsBounded(s, bound, key, value, ttl, at);
    assert Among(first.entries, e, 1);
    RunAmong(first, bound, calls, e, 1);
    RunsKeepInv(first, bound, calls);
    var last := Run(first, bound, calls);
    var i :| 0 <= i < |last.entries| && last.entries[i] == e;
    var found := Find(last.entries, key);
    DistinctKeys(last.entries, last.uses, found.value, i);
  }

}

/** The cache in place. */
module MemCacheStore {
  import opened Basics
  import opened MemCache

  class Cache<V(==)> {
    const bound: nat
    var entries: seq<Entry<V>>
    ghost var sets: map<Key, Entry<V>>
    ghost var uses: seq<Key>

    ghost function Abs(): State<V>
      reads this
    {
      State(entries, sets, uses)
    }

    ghost predicate Valid()
      reads this
    {
      bound >= MIN_ENTRIES && Inv(Abs(), bound)
    }

    constructor (asked: int)
      ensures Valid() && Abs() == State([], map[], []) && bound == Max(MIN_ENTRIES, asked)
    {
      bound := Max(MIN_ENTRIES, asked);
      entries, sets, uses := [], map[], [];
    }

    /** `_mem_get` */
    method Get(key: Key, now: real) returns (hit: Option<V>)
      requires Valid()
      modifies this
      ensures Valid() && (Abs(), hit) == MemCache.Get(old(Abs()), key, now)
    {
      GetIsFresh(Abs(), bound, key, now);
      var found := Find(entries, key);
      if found.None? {
        return None;
      }
      var e := entries[found.value];
      entries := Drop(entries, found.value);
      if now > e.expiresAt {
        return None;
      }
      entries := entries + [e];
      uses := uses + [key];
      return Some(e.value);
    }

    /** `_mem_set` */
    method Set(key: Key, value: V, ttl: int, now: real)
      requires Valid()
      modifies this
      ensures Valid() && Abs() == MemCache.Set(old(Abs()), bound, key, value, ttl, now)
    {
      SetIsBounded(Abs(), bound, key, value, ttl, now);
      var e := Entry(key, value, now + ttl as real);
      entries := Without(entries, key) + [e];
      sets := sets[key := e];
      uses := uses + [key];
      if |entries| > bound {
        Evict(now);
      }
    }

    /** `_mem_evict` */
    method Evict(now: real)
      modifies this`entries
      ensures entries == Evicted(old(entries), bound, now)
    {
      var live: seq<Entry<V>> := [];
      for i := 0 to |entries|
        invariant live == Live(entries[..i], now)
      {
        assert entries[..i + 1][..i] == entries[..i];
        if entries[i].expiresAt > now {
          live := live + [entries[i]];
        }
      }
      assert entries[..|entries|] == entries;
      entries := live;
      while |entries| > Target(bound)
        invariant |entries| >= Min(|live|, Target(bound)) && entries == live[|live| - |entries|..]
      {
        entries := entries[1..];
      }
    }
  }
}
