/**
 * The worker's loop over one broadcast, statement by statement, while other workers and admins commit whatever they
 * like between its statements. Whatever it does is a run of the protocol.
 */
module BroadcastWorker {
  import opened Basics
  import opened Broadcast
  import opened BroadcastStore
  import opened Clocks
  import P = BroadcastProtocol

  /** Events that others commit; time passes by the clock only. */
  type Script = seq<P.Event>

  /** What the sending loop meets at a recipient; a cancellation may come before the send or while it is in flight. */
  datatype Encounter = PauseBegan | Interrupted(inFlight: bool) | Answer(delivery: Delivery)

  datatype Turn = Turn(others: Script, encounter: Encounter)

  /** What one round meets: others' commits before each of its statements, the turns of the sending loop, and whether
      its results can be written at all. */
  datatype Round = Round(
    beforeRead: Script, beforeMark: Script, beforeClaim: Script, beforeCheck: Script, beforeFinish: Script,
    turns: seq<Turn>, beforeWrite: Script, fileId: Option<string>, lost: bool
  )

  const QUIET := Round([], [], [], [], [], [], [], None, false)

  /** Nobody else commits before the round has claimed or finished. */
  predicate Undisturbed(r: Round) {
    r.beforeRead == r.beforeMark == r.beforeClaim == r.beforeCheck == r.beforeFinish == []
  }

  predicate UndisturbedStart(rounds: seq<Round>) { rounds == [] || Undisturbed(rounds[0]) }

  predicate Foreign(e: P.Event, w: P.WorkerId) {
    match e
    case Tick(_) => false
    case Queue(_, _) | QueueFromPanel(_) | Discard | Admin(_) | ResetClaims => true
    case Start(v) => v != w
    case Load(v) => v != w
    case Mark(v) => v != w
    case Claim(v, _) => v != w
    case ReadRemaining(v) => v != w
    case CommitDone(v) => v != w
    case CommitCancelled(v) => v != w
    case SendStart(v) => v != w
    case SendDone(v, _) => v != w
    case Write(v, _) => v != w
    case Crash(v) => v != w
  }

  lemma ForeignStep(s: P.State, e: P.Event, w: P.WorkerId)
    requires P.Enabled(s, e) && Foreign(e, w)
    ensures P.Step(s, e).At(w) == s.At(w) && P.Step(s, e).now == s.now
  {
  }

  /** An empty claim leaves nothing that was due at any earlier time. */
  lemma NothingDueYet(targets: Targets, earlier: int, now: int, limit: nat)
    requires limit > 0 && earlier <= now && IsClaim(targets, [], now, limit)
    ensures forall u :: u in targets ==> !Due(targets[u], earlier)
  {
    forall u | u in targets
      ensures !Due(targets[u], earlier)
    {
      assert !Due(targets[u], now);
    }
  }

  class Worker {
    const db: BroadcastDb
    const clock: Clock
    const id: JobId
    const me: P.WorkerId
    /** The job, the clock, and where this worker and all others stand. */
    var world: P.State
    ghost const first: P.State
    ghost var log: seq<P.Event>

    ghost predicate Valid()
      reads this, db, clock
    {
      && id in db.jobs && db.jobs[id] == world.job && world.now == clock.time
      && P.Reached(first, log, world, P.NoRules)
    }

    constructor (db: BroadcastDb, clock: Clock, id: JobId, me: P.WorkerId, world: P.State)
      requires id in db.jobs && db.jobs[id] == world.job && world.now == clock.time && world.At(me) == P.Idle
      ensures Valid() && this.db == db && this.clock == clock && this.id == id && this.me == me
      ensures this.world == world == first && log == []
    {
      this.db, this.clock, this.id, this.me, this.world := db, clock, id, me, world;
      first, log := world, [];
    }

    /** One event of the protocol has happened. */
    method Record(e: P.Event)
      requires P.Reached(first, log, world, P.NoRules) && P.Enabled(world, e)
      modifies this
      ensures P.Reached(first, log, world, P.NoRules)
      ensures world == P.Step(old(world), e) && log == old(log) + [e]
    {
      P.ReachedThen(first, log, world, e, P.NoRules);
      world := P.Step(world, e);
      log := log + [e];
    }

    /** Others commit. */
    method Others(script: Script)
      requires Valid()
      modifies this, db`jobs
      ensures Valid() && world.At(me) == old(world).At(me) && old(log) <= log
      ensures db.jobs == old(db.jobs)[id := world.job]
      ensures script == [] ==> world == old(world)
    {
      for i := 0 to |script|
        invariant Valid() && world.At(me) == old(world).At(me) && old(log) <= log
        invariant db.jobs == old(db.jobs)[id := world.job]
        invariant i == 0 ==> world == old(world)
      {
        if Foreign(script[i], me) && P.Enabled(world, script[i]) {
          ForeignStep(world, script[i], me);
          Record(script[i]);
          db.jobs := db.jobs[id := world.job];
        }
      }
    }

    method Now() returns (now: int)
      requires Valid()
      modifies this, clock
      ensures Valid() && old(clock.time) <= now == clock.time && old(log) <= log
      ensures world == old(world).(now := now)
    {
      var before := world.now;
      now := clock.Now();
      Record(P.Tick(now - before));
    }

    /** `_load_job` */
    method ReadStatus() returns (status: JobStatus)
      requires Valid() && world.At(me) == P.LoopTop
      modifies this
      ensures Valid() && status == db.jobs[id].status && world == P.Step(old(world), P.Load(me)) && old(log) <= log
    {
      status := db.jobs[id].status;
      Record(P.Load(me));
    }

    method MarkAsRunning()
      requires Valid() && world.At(me) == P.SawQueued
      modifies this, db`jobs
      ensures Valid() && world == P.Step(old(world), P.Mark(me)) && old(log) <= log
      ensures db.jobs == old(db.jobs)[id := MarkRunning(old(db.jobs)[id])]
    {
      if db.jobs[id].status == JobStatus.Queued {
        db.jobs := db.jobs[id := db.jobs[id].(status := Running)];
      }
      Record(P.Mark(me));
    }

    method ClaimBatch() returns (claimed: seq<UserId>, attempts: map<UserId, nat>)
      requires Valid() && world.At(me) == P.ReadyToClaim
      modifies this, db`jobs, clock
      ensures Valid() && old(clock.time) <= clock.time && old(log) <= log
      ensures IsClaim(old(db.jobs)[id].targets, claimed, clock.time, BATCH_SIZE)
      ensures var job := old(db.jobs)[id];
              db.jobs == old(db.jobs)[id := job.(targets := Claimed(job.targets, claimed, clock.time))]
      ensures claimed == [] ==> world.At(me) == P.ClaimedNothing && db.jobs == old(db.jobs)
      ensures claimed != [] ==> world.At(me) == P.Mailing(P.Batch(claimed, attempts, clock.time, [], false))
    {
      var now := Now();
      ghost var targets := db.jobs[id].targets;
      claimed, attempts := db.ClaimWithAttempts(id, BATCH_SIZE, now);
      if claimed == [] {
        assert db.jobs[id].targets == targets;
        assert db.jobs == old(db.jobs);
      }
      Record(P.Claim(me, claimed));
    }

    /** `_remaining`; true when nothing is pending or sending. */
    method CheckDrained() returns (drained: bool)
      requires Valid() && world.At(me) == P.ClaimedNothing
      modifies this
      ensures Valid() && drained == Drained(db.jobs[id].targets) && old(log) <= log
      ensures world.At(me) == (if drained then P.SawDrained else P.Idle) && world.job == old(world).job
    {
      drained := forall u :: u in db.jobs[id].targets ==> db.jobs[id].targets[u].Terminal();
      Record(P.ReadRemaining(me));
    }

    method CommitDone()
      requires Valid() && world.At(me) == P.SawDrained
      modifies this, db`jobs, clock
      ensures Valid() && old(clock.time) <= clock.time && old(log) <= log && world.At(me) == P.Idle
      ensures db.jobs == old(db.jobs)[id := FinishDone(old(db.jobs)[id], clock.time)]
    {
      var now := Now();
      if db.jobs[id].Active() {
        db.jobs := db.jobs[id := db.jobs[id].(status := Done, finishedAt := Some(now))];
      }
      Record(P.CommitDone(me));
    }

    method CommitCancelled()
      requires Valid() && world.At(me) == P.SawCancelled
      modifies this, db`jobs, clock
      ensures Valid() && old(clock.time) <= clock.time && old(log) <= log && world.At(me) == P.Idle
      ensures db.jobs == old(db.jobs)[id := FinishCancelled(old(db.jobs)[id], clock.time)]
    {
      var now := Now();
      db.jobs := db.jobs[id := db.jobs[id].(status := Cancelled, finishedAt := Some(now))];
      Record(P.CommitCancelled(me));
    }

    /** One recipient gets the message, or an error. */
    method Send(delivery: Delivery)
      requires Valid() && world.At(me).Mailing?
      requires var b := world.At(me).batch; !b.inFlight && |b.results| < |b.users|
      modifies this, clock
      ensures Valid() && old(clock.time) <= clock.time && old(log) <= log && world.job == old(world).job
      ensures var b := old(world).At(me).batch;
              world.At(me) == P.Mailing(b.(results := b.results + [SendResult(b.users[|b.results|], delivery)]))
    {
      Record(P.SendStart(me));
      var _ := Now();
      Record(P.SendDone(me, delivery));
    }

    /** One pass over a claimed batch; a pause or a cancellation hands the rest back. */
    method SendBatch(users: seq<UserId>, turns: seq<Turn>)
        returns (results: seq<SendResult>, released: seq<UserId>, interrupted: bool)
      requires Valid() && world.At(me).Mailing?
      requires var b := world.At(me).batch; b.users == users && b.results == [] && !b.inFlight
      modifies this, db`jobs, clock
      ensures Valid() && old(clock.time) <= clock.time && old(log) <= log && db.jobs == old(db.jobs)[id := world.job]
      ensures |results| <= |users| && released == users[|results|..] && |results| <= |turns|
      ensures forall i :: 0 <= i < |results| ==>
        results[i].user == users[i] && turns[i].encounter == Answer(results[i].delivery)
      ensures released != [] ==> |results| == |turns| || !turns[|results|].encounter.Answer?
      ensures interrupted <==> released != [] && |results| < |turns| && turns[|results|].encounter.Interrupted?
      ensures var inFlight := interrupted && turns[|results|].encounter.inFlight;
              world.At(me) == P.Mailing(old(world).At(me).batch.(results := results, inFlight := inFlight))
    {
      results, released, interrupted := [], [], false;
      ghost var batch := world.At(me).batch;
      var index := 0;
      while index < |users|
        invariant Valid() && old(clock.time) <= clock.time && old(log) <= log
        invariant db.jobs == old(db.jobs)[id := world.job]
        invariant 0 <= index <= |users| && index == |results| <= |turns| && released == [] && !interrupted
        invariant world.At(me) == P.Mailing(batch.(results := results))
        invariant forall i :: 0 <= i < index ==>
          results[i].user == users[i] && turns[i].encounter == Answer(results[i].delivery)
      {
        if index == |turns| {
          released := users[index..];
          return;
        }
        var result := Attend(users[index], turns[index]);
        if result.None? {
          released := users[index..];
          interrupted := turns[index].encounter.Interrupted?;
          return;
        }
        results := results + [result.value];
        index := index + 1;
      }
    }

    /** One turn of the sending loop; None when it ends there. */
    method Attend(user: UserId, turn: Turn) returns (result: Option<SendResult>)
      requires Valid() && world.At(me).Mailing?
      requires var b := world.At(me).batch;
               !b.inFlight && |b.results| < |b.users| && b.users[|b.results|] == user
      modifies this, db`jobs, clock
      ensures Valid() && old(clock.time) <= clock.time && old(log) <= log
      ensures db.jobs == old(db.jobs)[id := world.job]
      ensures result
           == if turn.encounter.Answer? then Some(SendResult(user, turn.encounter.delivery)) else None
      ensures var b := old(world).At(me).batch;
              world.At(me) == P.Mailing(
                match turn.encounter
                case Answer(delivery) => b.(results := b.results + [SendResult(user, delivery)])
                case Interrupted(inFlight) => b.(inFlight := inFlight)
                case PauseBegan => b)
    {
      Others(turn.others);
      result := None;
      match turn.encounter {
        case PauseBegan =>
        case Interrupted(inFlight) =>
          if inFlight {
            Record(P.SendStart(me));
          }
        case Answer(delivery) =>
          Send(delivery);
          result := Some(SendResult(user, delivery));
      }
    }

    /** `_persist_batch`; an interrupted worker leaves its loop after that. */
    method Persist(results: seq<SendResult>, fileId: Option<string>, released: seq<UserId>, attempts: map<UserId, nat>,
        again: bool)
      requires Valid() && world.At(me).Mailing?
      requires var b := world.At(me).batch;
               b.results == results && b.attempts == attempts && |results| <= |b.users| && released == b.Released()
      modifies this, db, clock
      ensures Valid() && old(clock.time) <= clock.time && old(log) <= log
      ensures db.jobs == old(db.jobs)[id := WriteResults(old(db.jobs)[id], results, released, attempts, clock.time)]
      ensures world.At(me) == if again then P.LoopTop else P.Idle
      ensures |log| > 0 && log[|log| - 1] == P.Write(me, again)
    {
      var now := Now();
      var aborted := db.WriteResults(id, results, fileId, released, attempts, now);
      Record(P.Write(me, again));
    }

    /** The worker gives up: it was killed, its results could not be written, or it has used up its batches. */
    method Leave()
      requires Valid()
      modifies this
      ensures Valid() && old(log) <= log && world.At(me) == P.Idle && world.job == old(world).job
    {
      Record(P.Crash(me));
    }

    /** Marks a job that was read as queued. */
    method MarkIfQueued(r: Round, status: JobStatus)
      requires Valid() && status == db.jobs[id].status && status in {JobStatus.Queued, Running}
      requires world.At(me) == if status == JobStatus.Queued then P.SawQueued else P.ReadyToClaim
      modifies this, db`jobs
      ensures Valid() && old(log) <= log && db.jobs == old(db.jobs)[id := world.job] && world.At(me) == P.ReadyToClaim
      ensures r.beforeMark == [] ==> world.job == MarkRunning(old(db.jobs)[id])
    {
      if status == JobStatus.Queued {
        Others(r.beforeMark);
        MarkAsRunning();
      }
    }

    /** From the status that was read to the claim. */
    method Take(r: Round, status: JobStatus) returns (claimed: seq<UserId>, attempts: map<UserId, nat>)
      requires Valid() && status == db.jobs[id].status && status in {JobStatus.Queued, Running}
      requires world.At(me) == if status == JobStatus.Queued then P.SawQueued else P.ReadyToClaim
      modifies this, db`jobs, clock
      ensures Valid() && old(clock.time) <= clock.time && old(log) <= log && db.jobs == old(db.jobs)[id := world.job]
      ensures claimed == [] ==> world.At(me) == P.ClaimedNothing
      ensures claimed != [] ==> world.At(me) == P.Mailing(P.Batch(claimed, attempts, clock.time, [], false))
      ensures Undisturbed(r) && claimed == [] ==>
        IsClaim(old(db.jobs)[id].targets, [], clock.time, BATCH_SIZE) && world.job == MarkRunning(old(db.jobs)[id])
      ensures Undisturbed(r) && claimed == [] ==> world.job.Active()
    {
      MarkIfQueued(r, status);
      Others(r.beforeClaim);
      claimed, attempts := ClaimBatch();
    }

    /** Nothing was claimed: the job is finished unless rows are claimed by others or wait for a retry. */
    method FinishIfDrained(r: Round)
      requires Valid() && world.At(me) == P.ClaimedNothing
      modifies this, db`jobs, clock
      ensures Valid() && old(clock.time) <= clock.time && old(log) <= log && db.jobs == old(db.jobs)[id := world.job]
      ensures world.At(me) == P.Idle
      ensures Undisturbed(r) ==>
        var job := old(db.jobs)[id];
        world.job == if Drained(job.targets) then FinishDone(job, clock.time) else job
    {
      Others(r.beforeCheck);
      var drained := CheckDrained();
      if drained {
        Others(r.beforeFinish);
        CommitDone();
      }
    }

    /** Sends a claimed batch and persists it. */
    method Deliver(r: Round, claimed: seq<UserId>, attempts: map<UserId, nat>) returns (more: bool)
      requires Valid() && world.At(me) == P.Mailing(P.Batch(claimed, attempts, clock.time, [], false))
      modifies this, db, clock
      ensures Valid() && old(clock.time) <= clock.time && old(log) <= log && db.jobs == old(db.jobs)[id := world.job]
      ensures world.At(me) == if more then P.LoopTop else P.Idle
      ensures !r.lost ==> |log| > 0 && log[|log| - 1] == P.Write(me, more)
    {
      var results, released, interrupted := SendBatch(claimed, r.turns);
      Others(r.beforeWrite);
      more := !interrupted && !r.lost;
      PersistUnlessLost(r, results, released, attempts, more);
    }

    method PersistUnlessLost(r: Round, results: seq<SendResult>, released: seq<UserId>, attempts: map<UserId, nat>,
        more: bool)
      requires Valid() && world.At(me).Mailing? && (r.lost ==> !more)
      requires var b := world.At(me).batch;
               b.results == results && b.attempts == attempts && |results| <= |b.users| && released == b.Released()
      modifies this, db, clock
      ensures Valid() && old(clock.time) <= clock.time && old(log) <= log && db.jobs == old(db.jobs)[id := world.job]
      ensures world.At(me) == if more then P.LoopTop else P.Idle
      ensures !r.lost ==> |log| > 0 && log[|log| - 1] == P.Write(me, more)
    {
      if r.lost {
        Leave();
      } else {
        Persist(results, r.fileId, released, attempts, more);
      }
    }

    /** A round on a job that was read as active. */
    method ActiveRound(r: Round, status: JobStatus) returns (more: bool, claimedAny: bool)
      requires Valid() && status == db.jobs[id].status && status in {JobStatus.Queued, Running}
      requires world.At(me) == if status == JobStatus.Queued then P.SawQueued else P.ReadyToClaim
      modifies this, db, clock
      ensures Valid() && old(clock.time) <= clock.time && old(log) <= log && db.jobs == old(db.jobs)[id := world.job]
      ensures world.At(me) == (if more then P.LoopTop else P.Idle) && (more ==> claimedAny)
      ensures claimedAny && !r.lost ==> |log| > 0 && log[|log| - 1] == P.Write(me, more)
      ensures Undisturbed(r) && Pickable(old(db.jobs)[id], old(clock.time)) ==> claimedAny || db.jobs[id].status == Done
    {
      ghost var found := db.jobs[id];
      var claimed, attempts := Take(r, status);
      claimedAny := claimed != [];
      if claimedAny {
        more := Deliver(r, claimed, attempts);
      } else {
        if Undisturbed(r) {
          NothingDueYet(found.targets, old(clock.time), clock.time, BATCH_SIZE);
        }
        FinishIfDrained(r);
        more := false;
      }
    }

    /** One round of the loop; `more` says whether it goes on. */
    method OneRound(r: Round) returns (more: bool, claimedAny: bool)
      requires Valid() && world.At(me) == P.LoopTop
      modifies this, db, clock
      ensures Valid() && old(clock.time) <= clock.time && old(log) <= log && db.jobs == old(db.jobs)[id := world.job]
      ensures world.At(me) == (if more then P.LoopTop else P.Idle) && (more ==> claimedAny)
      ensures claimedAny && !r.lost ==> |log| > 0 && log[|log| - 1] == P.Write(me, more)
      ensures Undisturbed(r) && Pickable(old(db.jobs)[id], old(clock.time)) ==> claimedAny || db.jobs[id].status == Done
    {
      more, claimedAny := false, false;
      Others(r.beforeRead);
      var status := ReadStatus();
      if status == Cancelled {
        CommitCancelled();
      } else if status in {JobStatus.Queued, Running} {
        more, claimedAny := ActiveRound(r, status);
      }
    }

    /** `run_broadcast`: at most `maxBatches` rounds. */
    method RunBroadcast(maxBatches: nat, rounds: seq<Round>) returns (claimedAny: bool)
      requires Valid() && world.At(me) == P.Idle
      modifies this, db, clock
      ensures Valid() && old(clock.time) <= clock.time && old(log) <= log && db.jobs == old(db.jobs)[id := world.job]
      ensures world.At(me) == P.Idle
      ensures maxBatches > 0 && UndisturbedStart(rounds) && Pickable(old(db.jobs)[id], old(clock.time)) ==>
        claimedAny || db.jobs[id].status == Done
    {
      claimedAny := false;
      Record(P.Start(me));
      var batches := 0;
      var more := true;
      while batches < maxBatches && more
        invariant Valid() && old(clock.time) <= clock.time && old(log) <= log
                && db.jobs == old(db.jobs)[id := world.job]
        invariant world.At(me) == if more then P.LoopTop else P.Idle
        invariant batches == 0 ==> more && world.job == old(world).job && clock.time == old(clock.time)
        invariant batches > 0 && more ==> claimedAny
        invariant batches > 0 && UndisturbedStart(rounds) && Pickable(old(db.jobs)[id], old(clock.time)) ==>
          claimedAny || (db.jobs[id].status == Done && !more)
      {
        var claimed;
        more, claimed := OneRound(if batches < |rounds| then rounds[batches] else QUIET);
        claimedAny := claimedAny || claimed;
        batches := batches + 1;
      }
      Leave();
    }
  }

  /** One tick: no work means that nothing is due; undisturbed work means progress, so the loop never spins. `around`
      says where the other workers stand. */
  method ProcessOnce(db: BroadcastDb, clock: Clock, me: P.WorkerId, around: P.State, maxBatches: nat,
      rounds: seq<Round>)
      returns (worked: bool, claimedAny: bool, picked: Option<JobId>)
    requires maxBatches > 0
    modifies db, clock
    ensures worked <==> picked.Some?
    ensures !worked ==> db.jobs == old(db.jobs) && forall id :: id in db.jobs ==> !Pickable(db.jobs[id], clock.time)
    ensures worked ==>
      && picked.value in old(db.jobs) && picked.value in db.jobs
      && db.jobs == old(db.jobs)[picked.value := db.jobs[picked.value]]
    ensures worked && UndisturbedStart(rounds) ==> claimedAny || db.jobs[picked.value].status == Done
  {
    claimedAny := false;
    var now := clock.Now();
    picked := db.NextBroadcastId(now);
    worked := picked.Some?;
    if worked {
      var world := around.(now := now, job := db.jobs[picked.value], workers := around.workers[me := P.Idle]);
      var worker := new Worker(db, clock, picked.value, me, world);
      claimedAny := worker.RunBroadcast(maxBatches, rounds);
    }
  }
}
