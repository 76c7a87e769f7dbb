/** Several processes migrating one database at start-up. */
module Migrations {
  /** A migration's module name, as its place in name order. */
  type Id = int

  type Pid = int

  datatype Phase =
    | Probing
    | Locking          // not recorded when probed; waits for BEGIN IMMEDIATE
    | Failed
    | Finished

  datatype Process = Process(ids: seq<Id>, next: nat, phase: Phase, applied: seq<Id>)

  /** A committed migration and the process that ran it. */
  datatype Commit = Commit(pid: Pid, id: Id)

  /** `recorded` is the table `schema_migrations`, `commits` the effects on the schema, in order. */
  datatype World = World(recorded: set<Id>, commits: seq<Commit>, processes: map<Pid, Process>)

  datatype Event =
    | Start(pid: Pid, ids: seq<Id>)
    | Probe(pid: Pid)
    | Transact(pid: Pid, works: bool)
    | Crash(pid: Pid)

  predicate Sorted(ids: seq<Id>) { forall i, j :: 0 <= i < j < |ids| ==> ids[i] < ids[j] }

  predicate In(w: World, pid: Pid, phase: Phase) { pid in w.processes && w.processes[pid].phase == phase }

  predicate Enabled(w: World, e: Event) {
    match e
    case Start(pid, ids) => pid !in w.processes && Sorted(ids)
    case Probe(pid) => In(w, pid, Probing)
    case Transact(pid, _) => In(w, pid, Locking) && w.processes[pid].next < |w.processes[pid].ids|
    case Crash(pid) => pid in w.processes && !w.processes[pid].phase.Finished?
  }

  function Put(w: World, pid: Pid, p: Process): World { w.(processes := w.processes[pid := p]) }

  function Step(w: World, e: Event): World
    requires Enabled(w, e)
  {
    match e
    case Start(pid, ids) => Put(w, pid, Process(ids, 0, Probing, []))
    case Probe(pid) =>
      var p := w.processes[pid];
      if p.next >= |p.ids| then Put(w, pid, p.(phase := Finished))
      else if p.ids[p.next] in w.recorded then Put(w, pid, p.(next := p.next + 1))
      else Put(w, pid, p.(phase := Locking))
    case Transact(pid, works) =>
      var p := w.processes[pid];
      var id := p.ids[p.next];
      if id in w.recorded then Put(w, pid, p.(next := p.next + 1, phase := Probing))
      else if !works then Put(w, pid, p.(phase := Failed))
      else
        Put(w, pid, p.(next := p.next + 1, phase := Probing, applied := p.applied + [id]))
        .(recorded := w.recorded + {id}, commits := w.commits + [Commit(pid, id)])
    case Crash(pid) => Put(w, pid, w.processes[pid].(phase := Failed))
  }

  const Fresh := World({}, [], map[])

  predicate Runs(w: World, log: seq<Event>)
    decreases |log|
  {
    log == [] || (Enabled(w, log[0]) && Runs(Step(w, log[0]), log[1..]))
  }

  function End(w: World, log: seq<Event>): World
    requires Runs(w, log)
    decreases |log|
  {
    if log == [] then w else End(Step(w, log[0]), log[1..])
  }

  // ---------------------------------------------------------------- what every step keeps

  /** Recorded means committed, and every migration commits once. */
  ghost predicate OnceEach(w: World) {
    && (forall id :: id in w.recorded <==> exists i :: 0 <= i < |w.commits| && w.commits[i].id == id)
    && (forall i, j :: 0 <= i < j < |w.commits| ==> w.commits[i].id != w.commits[j].id)
  }

  predicate Done(w: World, ids: seq<Id>, n: nat) { n <= |ids| && forall i :: 0 <= i < n ==> ids[i] in w.recorded }

  /** A process has passed only recorded migrations. */
  predicate Passed(w: World) {
    forall pid :: pid in w.processes ==>
      && Sorted(w.processes[pid].ids)
      && Done(w, w.processes[pid].ids, w.processes[pid].next)
      && (w.processes[pid].phase.Finished? ==> w.processes[pid].next == |w.processes[pid].ids|)
      && (w.processes[pid].phase.Locking? ==> w.processes[pid].next < |w.processes[pid].ids|)
  }

  predicate Earlier(commits: seq<Commit>, n: nat, id: Id) {
    exists j :: 0 <= j < n && j < |commits| && commits[j].id == id
  }

  /** The i-th commit came after the commits of every smaller id in `ids`. */
  predicate After(commits: seq<Commit>, i: nat, ids: seq<Id>)
    requires i < |commits|
  {
    forall k :: 0 <= k < |ids| && ids[k] < commits[i].id ==> Earlier(commits, i, ids[k])
  }

  /** Each commit came after the commits of every smaller id its process had discovered. */
  predicate InOrder(w: World) {
    forall i :: 0 <= i < |w.commits| ==>
      w.commits[i].pid in w.processes && After(w.commits, i, w.processes[w.commits[i].pid].ids)
  }

  function Own(commits: seq<Commit>, pid: Pid): seq<Id> {
    if commits == [] then []
    else
      var last := commits[|commits| - 1];
      Own(commits[..|commits| - 1], pid) + if last.pid == pid then [last.id] else []
  }

  /** A process returns the ids it committed itself, in order. */
  predicate Reported(w: World) {
    && (forall i :: 0 <= i < |w.commits| ==> w.commits[i].pid in w.processes)
    && (forall pid :: pid in w.processes ==> w.processes[pid].applied == Own(w.commits, pid))
  }

  ghost predicate Inv(w: World) { OnceEach(w) && Passed(w) && InOrder(w) && Reported(w) }

  lemma {:induction false} NoneOwned(commits: seq<Commit>, pid: Pid)
    requires forall i :: 0 <= i < |commits| ==> commits[i].pid != pid
    ensures Own(commits, pid) == []
  {
    if commits != [] {
      NoneOwned(commits[..|commits| - 1], pid);
    }
  }

  lemma OwnAppend(commits: seq<Commit>, c: Commit, pid: Pid)
    ensures Own(commits + [c], pid) == Own(commits, pid) + if c.pid == pid then [c.id] else []
  {
    assert (commits + [c])[..|commits|] == commits;
  }

  predicate Commits(w: World, e: Event) {
    e.Transact? && e.works && Enabled(w, e) && w.processes[e.pid].ids[w.processes[e.pid].next] !in w.recorded
  }

  lemma OnceEachStep(w: World, e: Event)
    requires OnceEach(w) && Enabled(w, e)
    ensures OnceEach(Step(w, e))
  {
    var t := Step(w, e);
    if Commits(w, e) {
      forall id | id in t.recorded
        ensures exists i :: 0 <= i < |t.commits| && t.commits[i].id == id
      {
        if id in w.recorded {
          var i :| 0 <= i < |w.commits| && w.commits[i].id == id;
          assert t.commits[i].id == id;
        } else {
          assert t.commits[|w.commits|].id == id;
        }
      }
    }
  }

  lemma PassedStep(w: World, e: Event)
    requires Passed(w) && Enabled(w, e)
    ensures Passed(Step(w, e)) && w.recorded <= Step(w, e).recorded
  {
  }

  lemma AfterAppend(commits: seq<Commit>, i: nat, ids: seq<Id>, c: Commit)
    requires i < |commits| && After(commits, i, ids)
    ensures After(commits + [c], i, ids)
  {
    forall k | 0 <= k < |ids| && ids[k] < commits[i].id
      ensures Earlier(commits + [c], i, ids[k])
    {
      var j :| 0 <= j < i && commits[j].id == ids[k];
      assert (commits + [c])[j].id == ids[k];
    }
  }

  lemma NewCommitIsAfter(w: World, pid: Pid)
    requires OnceEach(w) && Passed(w) && pid in w.processes && w.processes[pid].next < |w.processes[pid].ids|
    ensures var p := w.processes[pid];
            After(w.commits + [Commit(pid, p.ids[p.next])], |w.commits|, p.ids)
  {
    var p := w.processes[pid];
    var longer := w.commits + [Commit(pid, p.ids[p.next])];
    forall k | 0 <= k < |p.ids| && p.ids[k] < p.ids[p.next]
      ensures Earlier(longer, |w.commits|, p.ids[k])
    {
      SmallerIsRecorded(w, pid, k);
      var j :| 0 <= j < |w.commits| && w.commits[j].id == p.ids[k];
      assert longer[j].id == p.ids[k];
    }
  }

  lemma StepShape(w: World, e: Event)
    requires Enabled(w, e)
    ensures w.processes.Keys <= Step(w, e).processes.Keys
    ensures forall pid :: pid in w.processes ==> Step(w, e).processes[pid].ids == w.processes[pid].ids
    ensures Step(w, e).commits
         == w.commits + if Commits(w, e) then [Commit(e.pid, w.processes[e.pid].ids[w.processes[e.pid].next])] else []
    ensures forall pid :: pid in w.processes ==>
              Step(w, e).processes[pid].applied
              == w.processes[pid].applied + if Commits(w, e) && pid == e.pid
                  then [w.processes[pid].ids[w.processes[pid].next]] else []
    ensures forall pid :: pid in Step(w, e).processes && pid !in w.processes ==> Step(w, e).processes[pid].applied == []
  {
  }

  lemma InOrderStep(w: World, e: Event)
    requires OnceEach(w) && Passed(w) && InOrder(w) && Enabled(w, e)
    ensures InOrder(Step(w, e))
  {
    StepShape(w, e);
    var t := Step(w, e);
    forall i | 0 <= i < |t.commits|
      ensures t.commits[i].pid in t.processes && After(t.commits, i, t.processes[t.commits[i].pid].ids)
    {
      if i == |w.commits| {
        NewCommitIsAfter(w, e.pid);
      } else if Commits(w, e) {
        AfterAppend(w.commits, i, w.processes[w.commits[i].pid].ids, t.commits[|w.commits|]);
      }
    }
  }

  lemma SmallerIsRecorded(w: World, pid: Pid, k: nat)
    requires Passed(w) && pid in w.processes
    requires var p := w.processes[pid]; p.next < |p.ids| && k < |p.ids| && p.ids[k] < p.ids[p.next]
    ensures w.processes[pid].ids[k] in w.recorded
  {
    var p := w.processes[pid];
    assert k < p.next;
  }

  lemma ReportedStep(w: World, e: Event)
    requires Reported(w) && Enabled(w, e)
    ensures Reported(Step(w, e))
  {
    StepShape(w, e);
    var t := Step(w, e);
    forall pid | pid in t.processes
      ensures t.processes[pid].applied == Own(t.commits, pid)
    {
      if pid !in w.processes {
        NoneOwned(w.commits, pid);
      }
      if Commits(w, e) {
        OwnAppend(w.commits, t.commits[|w.commits|], pid);
      }
    }
  }

  /** Every interleaving keeps: one commit per migration, in order, each reported by the process that made it. */
  lemma {:induction false} RunsKeepInv(w: World, log: seq<Event>)
    requires Inv(w) && Runs(w, log)
    ensures Inv(End(w, log)) && w.commits <= End(w, log).commits
    decreases |log|
  {
    if log != [] {
      OnceEachStep(w, log[0]);
      PassedStep(w, log[0]);
      InOrderStep(w, log[0]);
      ReportedStep(w, log[0]);
      RunsKeepInv(Step(w, log[0]), log[1..]);
    }
  }

  /** From a fresh database: every recorded migration committed exactly once, after all smaller discovered ones. */
  lemma MigrationsCommitOnceInOrder(log: seq<Event>, i: nat)
    requires Runs(Fresh, log) && i < |End(Fresh, log).commits|
    ensures var w := End(Fresh, log);
            var c := w.commits[i];
            && c.id in w.recorded && c.pid in w.processes
            && (forall j :: 0 <= j < |w.commits| && w.commits[j].id == c.id ==> j == i)
            && (forall k :: 0 <= k < |w.processes[c.pid].ids| && w.processes[c.pid].ids[k] < c.id ==>
                  Earlier(w.commits, i, w.processes[c.pid].ids[k]))
  {
    RunsKeepInv(Fresh, log);
    var w := End(Fresh, log);
    assert w.commits[i].id in w.recorded;
  }

  /** A process that returns has all its migrations recorded and reports exactly its own commits. */
  lemma FinishedMeansMigrated(log: seq<Event>, pid: Pid)
    requires Runs(Fresh, log) && pid in End(Fresh, log).processes && End(Fresh, log).processes[pid].phase.Finished?
    ensures var w := End(Fresh, log);
            && (forall id :: id in w.processes[pid].ids ==> id in w.recorded)
            && w.processes[pid].applied == Own(w.commits, pid)
  {
    RunsKeepInv(Fresh, log);
  }
}

/** `_run_migrations` as one process sees it, with other processes committing between its statements. */
module MigrationRunner {
  import opened Basics
  import M = Migrations

  class Database {
    var recorded: set<M.Id>
    ghost var effects: seq<M.Commit>

    ghost predicate Valid()
      reads this
    {
      M.OnceEach(M.World(recorded, effects, map[]))
    }

    constructor ()
      ensures Valid() && effects == []
    {
      recorded, effects := {}, [];
    }

    /** The effects of one migration and its row, in one transaction. */
    method Apply(pid: M.Pid, id: M.Id)
      requires Valid() && id !in recorded
      modifies this
      ensures Valid() && effects == old(effects) + [M.Commit(pid, id)] && recorded == old(recorded) + {id}
    {
      RecordsOne(recorded, effects, M.Commit(pid, id));
      recorded := recorded + {id};
      effects := effects + [M.Commit(pid, id)];
    }

    /** What other processes commit meanwhile. */
    method Others(me: M.Pid)
      requires Valid()
      modifies this
      ensures Valid() && old(recorded) <= recorded && old(effects) <= effects
      ensures M.Own(effects, me) == M.Own(old(effects), me)
    {
      var more: int := *;
      for i := 0 to Max(0, more)
        invariant Valid() && old(recorded) <= recorded && old(effects) <= effects
        invariant M.Own(effects, me) == M.Own(old(effects), me)
      {
        var id: M.Id, pid: M.Pid := *, *;
        if id !in recorded && pid != me {
          M.OwnAppend(effects, M.Commit(pid, id), me);
          Apply(pid, id);
        }
      }
    }

    /** One migration: probed, then looked up again under the lock, then run. */
    method Migrate(me: M.Pid, id: M.Id, works: bool) returns (mine: bool, ok: bool)
      requires Valid()
      modifies this
      ensures Valid() && old(recorded) <= recorded && old(effects) <= effects
      ensures M.Own(effects, me) == M.Own(old(effects), me) + if mine then [id] else []
      ensures mine ==> works && id !in old(recorded)
      ensures ok <==> id in recorded
      ensures !ok ==> !works && !mine
    {
      mine := false;
      Others(me);
      if id in recorded {
        return mine, true;
      }
      Others(me);
      if id in recorded || !works {
        return mine, id in recorded;
      }
      M.OwnAppend(effects, M.Commit(me, id), me);
      Apply(me, id);
      return true, true;
    }

    /** Applies the pending ids in order; `works` says which migrations succeed. */
    method RunMigrations(me: M.Pid, ids: seq<M.Id>, works: M.Id -> bool)
        returns (applied: seq<M.Id>, failed: Option<M.Id>)
      requires Valid() && M.Sorted(ids)
      modifies this
      ensures Valid() && old(effects) <= effects && M.Sorted(applied)
      ensures M.Own(effects, me) == M.Own(old(effects), me) + applied
      ensures forall id :: id in applied ==> id in ids && id !in old(recorded) && id in recorded && works(id)
      ensures failed.None? ==> forall id :: id in ids ==> id in recorded
      ensures failed.Some? ==> failed.value in ids && failed.value !in recorded && !works(failed.value)
      ensures failed.Some? ==> forall id :: id in ids && id < failed.value ==> id in recorded
    {
      applied, failed := [], None;
      for i := 0 to |ids|
        invariant Valid() && old(recorded) <= recorded && old(effects) <= effects && M.Sorted(applied)
        invariant M.Own(effects, me) == M.Own(old(effects), me) + applied
        invariant forall k :: 0 <= k < i ==> ids[k] in recorded
        invariant forall id :: id in applied ==>
                    id in ids[..i] && id !in old(recorded) && id in recorded && works(id)
      {
        var mine, ok := Migrate(me, ids[i], works(ids[i]));
        if !ok {
          failed := Some(ids[i]);
          return;
        }
        if mine {
          assert forall id :: id in applied ==> id < ids[i];
          assert forall j :: 0 <= j < |applied| ==> applied[j] in applied;
          applied := applied + [ids[i]];
        }
      }
    }
  }

  lemma RecordsOne(recorded: set<M.Id>, effects: seq<M.Commit>, c: M.Commit)
    requires M.OnceEach(M.World(recorded, effects, map[])) && c.id !in recorded
    ensures M.OnceEach(M.World(recorded + {c.id}, effects + [c], map[]))
  {
    var more := effects + [c];
    forall id | id in recorded + {c.id}
      ensures exists i :: 0 <= i < |more| && more[i].id == id
    {
      if id in recorded {
        var i :| 0 <= i < |effects| && effects[i].id == id;
        assert more[i].id == id;
      } else {
        assert more[|effects|].id == id;
      }
    }
  }
}
