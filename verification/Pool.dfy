/** The API's connection pool: every interleaving of requests over the pool's atomic segments. */
module PoolProtocol {
  import opened Basics
  import opened MapTotals

  type Conn = int
  type Request = int

  datatype Phase =
    | Waiting                        // blocked on the semaphore
    | Granted                        // the slot is taken, the coroutine has not resumed yet
    | Opening                        // awaiting `open_connection`
    | Holding(conn: Conn)            // the lease is not finished
    | Returning(conn: Conn)          // the hand-back task is rolling back
    | Closing(conn: Conn)            // the hand-back task awaits the close
    | Gone(hadSlot: bool)

  datatype Pool = Pool(
    size: nat, slots: nat, idle: seq<Conn>, openCount: nat, closed: bool,
    phases: map<Request, Phase>,
    givenBack: seq<Request>,         // who gave a slot back, in order
    strays: nat,                     // connections left open by a cancelled `open_connection`
    next: Conn
  )

  datatype Event =
    | Enter(r: Request)
    | GiveUp(r: Request)             // timeout or cancellation while waiting
    | Grant(r: Request)
    | Cancel(r: Request)             // cancellation after the grant
    | Resume(r: Request)
    | Opened(r: Request)
    | OpenFailed(r: Request, stray: bool)
    | Finish(r: Request)
    | Release(r: Request)
    | Discard(r: Request)
    | Closed(r: Request)
    | ClosePool
    | ClearCount

  function HoldsSlot(p: Phase): nat { if p.Waiting? || p.Gone? then 0 else 1 }

  function Connected(p: Phase): nat { if p.Waiting? || p.Gone? || p.Granted? then 0 else 1 }

  function Counted(p: Phase): nat { if p.Holding? || p.Returning? then 1 else 0 }

  predicate HasConn(p: Phase) { p.Holding? || p.Returning? || p.Closing? }

  ghost function SlotsHeld(s: Pool): nat { Total(s.phases, HoldsSlot) }

  /** Connections that are open or being opened, apart from strays. */
  ghost function Connections(s: Pool): nat { |s.idle| + Total(s.phases, Connected) }

  predicate At(s: Pool, r: Request, p: Phase -> bool) { r in s.phases && p(s.phases[r]) }

  predicate Enabled(s: Pool, e: Event) {
    match e
    case Enter(r) => r !in s.phases
    case GiveUp(r) => At(s, r, (p: Phase) => p.Waiting?)
    case Grant(r) => At(s, r, (p: Phase) => p.Waiting?) && s.slots > 0
    case Cancel(r) => At(s, r, (p: Phase) => p.Granted?)
    case Resume(r) => At(s, r, (p: Phase) => p.Granted?)
    case Opened(r) => At(s, r, (p: Phase) => p.Opening?)
    case OpenFailed(r, _) => At(s, r, (p: Phase) => p.Opening?)
    case Finish(r) => At(s, r, (p: Phase) => HasConn(p) || p.Gone?)
    case Release(r) => At(s, r, (p: Phase) => p.Returning?)
    case Discard(r) => At(s, r, (p: Phase) => p.Returning?)
    case Closed(r) => At(s, r, (p: Phase) => p.Closing?)
    case ClosePool => true
    case ClearCount => s.closed
  }

  function Move(s: Pool, r: Request, p: Phase): Pool { s.(phases := s.phases[r := p]) }

  /** `_slots.release()` as the last thing a request does. */
  function GiveBack(s: Pool, r: Request): Pool {
    Move(s, r, Gone(true)).(slots := s.slots + 1, givenBack := s.givenBack + [r])
  }

  function OneFewer(openCount: nat): nat { if openCount > 0 then openCount - 1 else 0 }

  function Step(s: Pool, e: Event): Pool
    requires Enabled(s, e)
  {
    match e
    case Enter(r) => Move(s, r, if s.closed then Gone(false) else Waiting)
    case GiveUp(r) => Move(s, r, Gone(false))
    case Grant(r) => Move(s, r, Granted).(slots := s.slots - 1)
    case Cancel(r) => GiveBack(s, r)
    case Resume(r) =>
      if s.closed then GiveBack(s, r)
      else if s.idle != [] then Move(s, r, Holding(s.idle[|s.idle| - 1])).(idle := s.idle[..|s.idle| - 1])
      else Move(s, r, Opening)
    case Opened(r) => Move(s, r, Holding(s.next)).(openCount := s.openCount + 1, next := s.next + 1)
    case OpenFailed(r, stray) => GiveBack(s, r).(strays := s.strays + if stray then 1 else 0)
    case Finish(r) => if s.phases[r].Holding? then Move(s, r, Returning(s.phases[r].conn)) else s
    case Release(r) =>
      if s.closed then Move(s, r, Closing(s.phases[r].conn)).(openCount := OneFewer(s.openCount))
      else GiveBack(s, r).(idle := s.idle + [s.phases[r].conn])
    case Discard(r) => Move(s, r, Closing(s.phases[r].conn)).(openCount := OneFewer(s.openCount))
    case Closed(r) => GiveBack(s, r)
    case ClosePool => s.(closed := true, idle := [])
    case ClearCount => s.(openCount := 0)
  }

  function Start(size: nat): Pool { Pool(size, size, [], 0, false, map[], [], 0, 0) }

  predicate Runs(s: Pool, log: seq<Event>)
    decreases |log|
  {
    log == [] || (Enabled(s, log[0]) && Runs(Step(s, log[0]), log[1..]))
  }

  function End(s: Pool, log: seq<Event>): Pool
    requires Runs(s, log)
    decreases |log|
  {
    if log == [] then s else End(Step(s, log[0]), log[1..])
  }

  // ---------------------------------------------------------------- what every step keeps

  /** Free slots and held slots are all the slots. */
  ghost predicate SlotsConserved(s: Pool) { s.slots + SlotsHeld(s) == s.size }

  /** Idle connections hold no slot, yet there is never one connection too many. */
  ghost predicate Bounded(s: Pool) { Connections(s) <= s.size && (s.closed ==> s.idle == []) }

  /** Until the pool is closed the count of open connections is exact. */
  ghost predicate CountIsRight(s: Pool) { !s.closed ==> s.openCount == |s.idle| + Total(s.phases, Counted) }

  /** A connection is idle or with one request, never both. */
  predicate Exclusive(s: Pool) {
    && Distinct(s.idle)
    && (forall c :: c in s.idle ==> c < s.next)
    && (forall r :: r in s.phases && HasConn(s.phases[r]) ==> s.phases[r].conn < s.next && s.phases[r].conn !in s.idle)
    && (forall r, q :: r in s.phases && q in s.phases && r != q && HasConn(s.phases[r]) && HasConn(s.phases[q])
          ==> s.phases[r].conn != s.phases[q].conn)
  }

  /** A request that took a slot gives it back once, and only when it is gone. */
  ghost predicate BackOnce(s: Pool) {
    && Distinct(s.givenBack)
    && (forall r :: r in s.givenBack <==> r in s.phases && s.phases[r] == Gone(true))
  }

  ghost predicate Inv(s: Pool) { SlotsConserved(s) && Bounded(s) && CountIsRight(s) && Exclusive(s) && BackOnce(s) }

  lemma Totals(m: map<Request, Phase>, r: Request, p: Phase)
    ensures Total(m[r := p], HoldsSlot) == Total(m, HoldsSlot) + HoldsSlot(p) - (if r in m then HoldsSlot(m[r]) else 0)
    ensures Total(m[r := p], Connected) == Total(m, Connected) + Connected(p) - (if r in m then Connected(m[r]) else 0)
    ensures Total(m[r := p], Counted) == Total(m, Counted) + Counted(p) - (if r in m then Counted(m[r]) else 0)
  {
    TotalUpdate(m, r, p, HoldsSlot);
    TotalUpdate(m, r, p, Connected);
    TotalUpdate(m, r, p, Counted);
  }

  /** Every connection in use has a slot of its own. */
  lemma {:induction false} ConnectedHaveSlots(m: map<Request, Phase>)
    ensures Total(m, Connected) <= Total(m, HoldsSlot)
    decreases m
  {
    if m != map[] {
      var r := SomeKey(m);
      TotalRemove(m, r, Connected);
      TotalRemove(m, r, HoldsSlot);
      ConnectedHaveSlots(m - {r});
    }
  }

  /** A request still to be connected leaves room for its connection. */
  lemma RoomForOne(m: map<Request, Phase>, r: Request)
    requires r in m && m[r].Granted?
    ensures Total(m, Connected) + 1 <= Total(m, HoldsSlot)
  {
    TotalRemove(m, r, Connected);
    TotalRemove(m, r, HoldsSlot);
    ConnectedHaveSlots(m - {r});
  }

  ghost predicate Sums(s: Pool) { SlotsConserved(s) && Bounded(s) && CountIsRight(s) }

  lemma SumsStep(s: Pool, e: Event)
    requires Sums(s) && Enabled(s, e)
    ensures Sums(Step(s, e))
  {
    if e.ClosePool? || e.ClearCount? {
      return;
    }
    Totals(s.phases, e.r, if e.r in Step(s, e).phases then Step(s, e).phases[e.r] else Waiting);
    if e.Resume? {
      RoomForOne(s.phases, e.r);
    }
    if e.Finish? && !s.phases[e.r].Holding? {
      assert Step(s, e) == s;
    }
  }

  lemma IdleStep(s: Pool, e: Event)
    requires Exclusive(s) && Enabled(s, e)
    ensures Distinct(Step(s, e).idle) && forall c :: c in Step(s, e).idle ==> c < Step(s, e).next
  {
    var t := Step(s, e);
    forall c | c in t.idle
      ensures c < t.next
    {
      assert c in s.idle || (e.Release? && c == s.phases[e.r].conn);
    }
  }

  /** The connection of the request that takes the step. */
  lemma OwnConn(s: Pool, e: Event)
    requires Exclusive(s) && Enabled(s, e) && !e.ClosePool? && !e.ClearCount?
    requires e.r in Step(s, e).phases && HasConn(Step(s, e).phases[e.r])
    ensures var t := Step(s, e);
            var c := t.phases[e.r].conn;
            && c < t.next && c !in t.idle
            && forall q :: q in s.phases && q != e.r && HasConn(s.phases[q]) ==> s.phases[q].conn != c
  {
    var t := Step(s, e);
    if e.Resume? {
      assert s.idle[|s.idle| - 1] in s.idle;
      assert forall i :: 0 <= i < |t.idle| ==> t.idle[i] == s.idle[i] != s.idle[|s.idle| - 1];
    } else if e.Opened? {
      assert t.idle == s.idle;
    } else {
      assert t.phases[e.r].conn == s.phases[e.r].conn && t.idle == s.idle;
    }
  }

  lemma OtherConn(s: Pool, e: Event, q: Request)
    requires Exclusive(s) && Enabled(s, e) && q in s.phases && HasConn(s.phases[q])
    requires e.ClosePool? || e.ClearCount? || e.r != q
    ensures s.phases[q].conn < Step(s, e).next && s.phases[q].conn !in Step(s, e).idle
  {
    if e.Resume? && !s.closed && s.idle != [] {
      assert forall c :: c in Step(s, e).idle ==> c in s.idle;
    }
  }

  lemma ExclusiveStep(s: Pool, e: Event)
    requires Exclusive(s) && Enabled(s, e)
    ensures Exclusive(Step(s, e))
  {
    var t := Step(s, e);
    IdleStep(s, e);
    if !e.ClosePool? && !e.ClearCount? && e.r in t.phases && HasConn(t.phases[e.r]) {
      OwnConn(s, e);
    }
    forall q | q in s.phases && HasConn(s.phases[q]) && (e.ClosePool? || e.ClearCount? || e.r != q)
      ensures s.phases[q].conn < t.next && s.phases[q].conn !in t.idle
    {
      OtherConn(s, e, q);
    }
  }

  lemma BackOnceStep(s: Pool, e: Event)
    requires BackOnce(s) && Enabled(s, e)
    ensures BackOnce(Step(s, e))
  {
  }

  lemma InvStep(s: Pool, e: Event)
    requires Inv(s) && Enabled(s, e)
    ensures Inv(Step(s, e))
  {
    SumsStep(s, e);
    ExclusiveStep(s, e);
    BackOnceStep(s, e);
  }

  /** Slots, the connection bound, exclusivity and the one hand-back hold in every run from any such state. */
  lemma {:induction false} RunsKeepInv(s: Pool, log: seq<Event>)
    requires Inv(s) && Runs(s, log)
    ensures Inv(End(s, log)) && End(s, log).size == s.size
    decreases |log|
  {
    if log != [] {
      InvStep(s, log[0]);
      RunsKeepInv(Step(s, log[0]), log[1..]);
    }
  }

  /** A gone request stays gone, whatever is called again. */
  lemma {:induction false} GoneIsFinal(s: Pool, log: seq<Event>, r: Request)
    requires Runs(s, log) && r in s.phases && s.phases[r].Gone?
    ensures r in End(s, log).phases && End(s, log).phases[r] == s.phases[r]
    decreases |log|
  {
    if log != [] {
      GoneIsFinal(Step(s, log[0]), log[1..], r);
    }
  }

  // ---------------------------------------------------------------- strays

  /** All connections that exist, strays included. */
  ghost function Live(s: Pool): nat { Connections(s) + s.strays }

  /** No `open_connection` is cancelled once its connection is up. */
  predicate Careful(log: seq<Event>) { forall e :: e in log ==> !(e.OpenFailed? && e.stray) }

  ghost predicate CanExceed(s: Pool) { exists log :: Careful(log) && Runs(s, log) && Live(End(s, log)) > s.size }

  lemma Prepend(s: Pool, e: Event)
    requires Enabled(s, e) && CanExceed(Step(s, e)) && Step(s, e).size == s.size && !e.OpenFailed?
    ensures CanExceed(s)
  {
    var log :| Careful(log) && Runs(Step(s, e), log) && Live(End(Step(s, e), log)) > s.size;
    var longer := [e] + log;
    assert longer[1..] == log;
    assert Runs(s, longer) && End(s, longer) == End(Step(s, e), log);
  }

  /** New requests can always bring the pool to full use. */
  lemma {:induction false} FullUse(s: Pool, fresh_id: Request)
    requires Inv(s) && !s.closed && s.strays > 0
    requires forall r :: r in s.phases ==> r < fresh_id
    ensures CanExceed(s)
    decreases s.slots
  {
    if s.slots == 0 {
      ConnectAll(s);
      return;
    }
    var a := Step(s, Enter(fresh_id));
    var b := Step(a, Grant(fresh_id));
    InvStep(s, Enter(fresh_id));
    InvStep(a, Grant(fresh_id));
    FullUse(b, fresh_id + 1);
    Prepend(a, Grant(fresh_id));
    Prepend(s, Enter(fresh_id));
  }

  function ToConnect(p: Phase): nat { if p.Granted? then 1 else 0 }

  lemma {:induction false} SlotsSplit(m: map<Request, Phase>)
    ensures Total(m, HoldsSlot) == Total(m, Connected) + Total(m, ToConnect)
    decreases m
  {
    if m != map[] {
      var r := SomeKey(m);
      TotalRemove(m, r, HoldsSlot);
      TotalRemove(m, r, Connected);
      TotalRemove(m, r, ToConnect);
      SlotsSplit(m - {r});
    }
  }

  /** With every slot taken, letting the granted requests run connects them all. */
  lemma {:induction false} ConnectAll(s: Pool)
    requires Inv(s) && !s.closed && s.strays > 0 && s.slots == 0
    ensures CanExceed(s)
    decreases Total(s.phases, ToConnect)
  {
    SlotsSplit(s.phases);
    var waiting := set r | r in s.phases && s.phases[r].Granted?;
    if waiting != {} {
      var granted := Member(waiting);
      var t := Step(s, Resume(granted));
      InvStep(s, Resume(granted));
      TotalUpdate(s.phases, granted, t.phases[granted], ToConnect);
      ConnectAll(t);
      Prepend(s, Resume(granted));
    } else {
      forall r | r in s.phases
        ensures ToConnect(s.phases[r]) == 0
      {
        assert r !in waiting;
      }
      TotalConstant(s.phases, ToConnect, 0);
      assert Careful([]) && Runs(s, []) && Live(End(s, [])) > s.size;
    }
  }

  lemma {:induction false} StraysGrow(s: Pool, log: seq<Event>)
    requires Runs(s, log)
    ensures End(s, log).strays >= s.strays
    ensures End(s, log).strays == s.strays <==> Careful(log)
    decreases |log|
  {
    if log != [] {
      StraysGrow(Step(s, log[0]), log[1..]);
      assert log == [log[0]] + log[1..];
    }
  }

  lemma {:induction false} Above(m: map<Request, Phase>) returns (bound: Request)
    ensures forall r :: r in m ==> r < bound
    decreases m
  {
    if m == map[] {
      bound := 0;
    } else {
      var r := SomeKey(m);
      var rest := Above(m - {r});
      bound := Max(rest, r + 1);
      forall q | q in m
        ensures q < bound
      {
        assert q == r || q in m - {r};
      }
    }
  }

  /** The pool is safe in every run: slots are conserved, connections bounded, counted and exclusive, and every
      slot is given back once. */
  lemma PoolIsSafe(size: nat, log: seq<Event>)
    requires Runs(Start(size), log)
    ensures var s := End(Start(size), log);
            && s.slots + SlotsHeld(s) == size && Connections(s) <= size
            && (!s.closed ==> s.openCount == |s.idle| + Total(s.phases, Counted))
            && Exclusive(s) && BackOnce(s)
  {
    RunsKeepInv(Start(size), log);
  }

  /** Connections never outnumber the slots by more than the openings cancelled after their connection was up; and
      from an open pool the bound can be broken without another such cancellation exactly if one has happened. */
  lemma BoundNeedsCarefulOpenings(size: nat, log: seq<Event>)
    requires Runs(Start(size), log)
    ensures Live(End(Start(size), log)) <= size + End(Start(size), log).strays
    ensures !End(Start(size), log).closed ==> (CanExceed(End(Start(size), log)) <==> !Careful(log))
  {
    RunsKeepInv(Start(size), log);
    StraysGrow(Start(size), log);
    var s := End(Start(size), log);
    if s.strays > 0 && !s.closed {
      var fresh_id := Above(s.phases);
      FullUse(s, fresh_id);
    }
    if s.strays == 0 && CanExceed(s) {
      var more :| Careful(more) && Runs(s, more) && Live(End(s, more)) > s.size;
      RunsKeepInv(s, more);
      StraysGrow(s, more);
      assert false;
    }
  }

  /** What one request does until it opens a connection of its own. */
  function OpensOne(r: Request): seq<Event> { [Enter(r), Grant(r), Resume(r)] }

  lemma {:induction false} EndAppend(s: Pool, first: seq<Event>, second: seq<Event>)
    requires Runs(s, first) && Runs(End(s, first), second)
    ensures Runs(s, first + second) && End(s, first + second) == End(End(s, first), second)
    decreases |first|
  {
    if first == [] {
      assert first + second == second;
    } else {
      assert (first + second)[1..] == first[1..] + second;
      EndAppend(Step(s, first[0]), first[1..], second);
    }
  }

  lemma OpeningSteps(s: Pool, r: Request)
    requires r !in s.phases && !s.closed && s.idle == [] && s.slots > 0
    ensures Runs(s, OpensOne(r))
    ensures End(s, OpensOne(r)) == Move(s, r, Opening).(slots := s.slots - 1)
  {
    var log := OpensOne(r);
    var a := Step(s, log[0]);
    var b := Step(a, log[1]);
    var c := Step(b, log[2]);
    assert log[1..][0] == log[1] && log[1..][1..][0] == log[2] && log[1..][1..][1..] == [];
    assert Runs(c, []) && Runs(b, log[1..][1..]) && Runs(a, log[1..]);
    assert c.phases == s.phases[r := Opening] && a.phases[r] == Waiting && b.phases[r] == Granted;
    assert End(c, []) == c && End(b, log[1..][1..]) == c && End(a, log[1..]) == c && End(s, log) == c;
  }

  /** A pool of one: request 1 is cancelled while the PRAGMAs run, request 2 opens a second connection. */
  lemma StrayExceedsThePool()
    ensures var log := OpensOne(1) + [OpenFailed(1, true)] + OpensOne(2);
            Runs(Start(1), log) && !End(Start(1), log).closed && Live(End(Start(1), log)) == 2 > End(Start(1), log).size
  {
    var s := Start(1);
    OpeningSteps(s, 1);
    var a := End(s, OpensOne(1));
    var b := Step(a, OpenFailed(1, true));
    assert Runs(b, []) && Runs(a, [OpenFailed(1, true)]) && End(a, [OpenFailed(1, true)]) == b;
    EndAppend(s, OpensOne(1), [OpenFailed(1, true)]);
    OpeningSteps(b, 2);
    EndAppend(s, OpensOne(1) + [OpenFailed(1, true)], OpensOne(2));
    var t := End(b, OpensOne(2));
    assert t.phases == map[1 := Gone(true), 2 := Opening];
    TotalUpdate(map[1 := Gone(true)], 2, Opening, Connected);
    TotalConstant(map[1 := Gone(true)], Connected, 0);
  }
}

/** `ConnectionPool` and `_Lease`: each method is one stretch of code between two awaits. */
module ConnectionPools {
  import opened Basics
  import opened MapTotals
  import opened PoolProtocol

  class ConnectionPool {
    const size: nat
    var slots: nat
    var idle: seq<Conn>
    var openCount: nat
    var closed: bool
    ghost var phases: map<Request, Phase>
    ghost var givenBack: seq<Request>
    ghost var strays: nat
    ghost var next: Conn

    ghost function State(): PoolProtocol.Pool
      reads this
    {
      PoolProtocol.Pool(size, slots, idle, openCount, closed, phases, givenBack, strays, next)
    }

    ghost predicate Is(r: Request, p: Phase)
      reads this
    {
      r in phases && phases[r] == p
    }

    constructor (asked: int)
      ensures size == Max(1, asked) && State() == Start(size) && Inv(State())
    {
      size := Max(1, asked);
      slots := Max(1, asked);
      idle, openCount, closed := [], 0, false;
      phases, givenBack, strays, next := map[], [], 0, 0;
    }

    ghost method Note(r: Request, p: Phase)
      modifies this`phases
      ensures phases == old(phases)[r := p]
    {
      phases := phases[r := p];
    }

    /** `_slots.release()` */
    method ReleaseSlot(ghost r: Request)
      modifies this`slots, this`givenBack, this`phases
      ensures State() == GiveBack(old(State()), r)
    {
      slots := slots + 1;
      phases := phases[r := Gone(true)];
      givenBack := givenBack + [r];
    }

    /** `acquire` up to the wait; false stands for the RuntimeError of a closed pool. */
    method Ask(ghost r: Request) returns (waits: bool)
      requires Inv(State()) && Enabled(State(), Enter(r))
      modifies this
      ensures waits == !old(closed) && Is(r, if waits then Waiting else Gone(false))
      ensures State() == Step(old(State()), Enter(r)) && Inv(State())
    {
      InvStep(State(), Enter(r));
      waits := !closed;
      Note(r, if closed then Gone(false) else Waiting);
    }

    method TakeSlot(ghost r: Request)
      requires Inv(State()) && Enabled(State(), Grant(r))
      modifies this
      ensures slots == old(slots) - 1 && Is(r, Granted)
      ensures State() == Step(old(State()), Grant(r)) && Inv(State())
    {
      InvStep(State(), Grant(r));
      slots := slots - 1;
      Note(r, Granted);
    }

    /** `acquire` after the wait: an idle connection, or the decision to open one. */
    method Proceed(ghost r: Request) returns (refused: bool, conn: Option<Conn>)
      requires Inv(State()) && Enabled(State(), Resume(r))
      modifies this
      ensures refused == old(closed) && (refused ==> slots == old(slots) + 1 && Is(r, Gone(true)))
      ensures conn.Some? <==> !refused && old(idle) != []
      ensures conn.Some? ==> Is(r, Holding(conn.value)) && conn.value == old(idle)[|old(idle)| - 1]
      ensures !refused ==> slots == old(slots) && (conn.None? ==> idle == old(idle) == [] && Is(r, Opening))
      ensures State() == Step(old(State()), Resume(r)) && Inv(State())
    {
      InvStep(State(), Resume(r));
      if closed {
        ReleaseSlot(r);
        return true, None;
      }
      if idle != [] {
        conn := Some(idle[|idle| - 1]);
        idle := idle[..|idle| - 1];
        Note(r, Holding(conn.value));
        return false, conn;
      }
      Note(r, Opening);
      return false, None;
    }

    method FinishOpening(ghost r: Request) returns (ghost conn: Conn)
      requires Inv(State()) && Enabled(State(), Opened(r))
      modifies this
      ensures Is(r, Holding(conn))
      ensures openCount == old(openCount) + 1 && slots == old(slots) && idle == old(idle)
      ensures State() == Step(old(State()), Opened(r)) && Inv(State())
    {
      InvStep(State(), Opened(r));
      openCount := openCount + 1;
      conn := next;
      next := next + 1;
      Note(r, Holding(conn));
    }

    /** The `except BaseException` around `open_connection`. */
    method FailOpening(ghost r: Request, ghost stray: bool)
      requires Inv(State()) && Enabled(State(), OpenFailed(r, stray))
      modifies this
      ensures slots == old(slots) + 1 && openCount == old(openCount) && Is(r, Gone(true))
      ensures State() == Step(old(State()), OpenFailed(r, stray)) && Inv(State())
    {
      InvStep(State(), OpenFailed(r, stray));
      ReleaseSlot(r);
      strays := strays + if stray then 1 else 0;
    }

    /** `release`; `mustClose` when the connection is still to be closed and the slot given back after that. */
    method Release(ghost r: Request, conn: Conn) returns (mustClose: bool)
      requires Inv(State()) && r in phases && phases[r] == Returning(conn)
      modifies this
      ensures mustClose == old(closed)
      ensures !mustClose ==> idle == old(idle) + [conn] && slots == old(slots) + 1 && Is(r, Gone(true))
      ensures mustClose ==> idle == old(idle) && slots == old(slots) && Is(r, Closing(conn))
      ensures State() == Step(old(State()), PoolProtocol.Release(r)) && Inv(State())
    {
      InvStep(State(), PoolProtocol.Release(r));
      mustClose := closed;
      if closed {
        openCount := if openCount > 0 then openCount - 1 else 0;
        Note(r, Closing(conn));
      } else {
        idle := idle + [conn];
        ReleaseSlot(r);
      }
    }

    method Discard(ghost r: Request, conn: Conn)
      requires Inv(State()) && r in phases && phases[r] == Returning(conn)
      modifies this
      ensures idle == old(idle) && slots == old(slots) && Is(r, Closing(conn))
      ensures !closed ==> openCount == old(openCount) - 1
      ensures State() == Step(old(State()), PoolProtocol.Discard(r)) && Inv(State())
    {
      InvStep(State(), PoolProtocol.Discard(r));
      TotalRemove(phases, r, Counted);
      openCount := if openCount > 0 then openCount - 1 else 0;
      Note(r, Closing(conn));
    }

    /** `close`, up to its first await. */
    method Close() returns (toClose: seq<Conn>)
      requires Inv(State())
      modifies this
      ensures toClose == old(idle) && closed && idle == [] && phases == old(phases)
      ensures State() == Step(old(State()), ClosePool) && Inv(State())
    {
      InvStep(State(), ClosePool);
      closed := true;
      toClose, idle := idle, [];
    }
  }

  class Lease {
    const pool: ConnectionPool
    const conn: Conn
    ghost const owner: Request
    var done: bool

    ghost predicate Valid()
      reads this, pool
    {
      && Inv(pool.State())
      && owner in pool.phases && (HasConn(pool.phases[owner]) || pool.phases[owner].Gone?)
      && (HasConn(pool.phases[owner]) ==> pool.phases[owner].conn == conn)
      && (done <==> !pool.phases[owner].Holding?)
    }

    constructor (pool: ConnectionPool, conn: Conn, ghost owner: Request)
      requires Inv(pool.State()) && owner in pool.phases && pool.phases[owner] == Holding(conn)
      ensures Valid() && !done && this.pool == pool && this.conn == conn && this.owner == owner
    {
      this.pool, this.conn, this.owner, done := pool, conn, owner, false;
    }

    /** `finish` up to the hand-back task it starts; a second call starts nothing. */
    method Finish() returns (starts: bool)
      requires Valid()
      modifies this, pool
      ensures Valid() && done && starts == !old(done)
      ensures pool.State() == Step(old(pool.State()), PoolProtocol.Finish(owner))
      ensures !starts ==> pool.State() == old(pool.State())
    {
      InvStep(pool.State(), PoolProtocol.Finish(owner));
      if done {
        return false;
      }
      done := true;
      pool.Note(owner, Returning(conn));
      return true;
    }

    /** `_return_to_pool` once the rollback is over. */
    method ReturnToPool(usable: bool) returns (mustClose: bool)
      requires Valid() && pool.phases[owner].Returning?
      modifies pool
      ensures Valid() && mustClose == (!usable || old(pool.closed))
      ensures pool.State() == Step(old(pool.State()),
                if usable then PoolProtocol.Release(owner) else PoolProtocol.Discard(owner))
    {
      if usable {
        mustClose := pool.Release(owner, conn);
      } else {
        pool.Discard(owner, conn);
        mustClose := true;
      }
    }

    /** The connection is closed: the slot goes back. */
    method AfterClose()
      requires Valid() && pool.phases[owner].Closing?
      modifies pool
      ensures Valid() && pool.phases[owner] == Gone(true)
      ensures pool.State() == Step(old(pool.State()), PoolProtocol.Closed(owner))
    {
      InvStep(pool.State(), PoolProtocol.Closed(owner));
      pool.ReleaseSlot(owner);
    }
  }
}
