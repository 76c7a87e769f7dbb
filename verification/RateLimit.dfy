/** Pacing of the sends: the token bucket and the process-wide flood pause. */
module RateLimit {
  import Broadcast

  /** A monotonic clock; sleeping lets at least the asked time pass. */
  class MonotonicClock {
    var time: real

    constructor (start: real)
      ensures time == start
    {
      time := start;
    }

    method Now() returns (t: real)
      modifies this
      ensures old(time) <= time == t
    {
      var passed: real := *;
      time := time + if passed < 0.0 then 0.0 else passed;
      t := time;
    }

    method Sleep(seconds: real)
      modifies this
      ensures time >= old(time) && time >= old(time) + seconds
    {
      var passed: real := *;
      var least := if seconds < 0.0 then 0.0 else seconds;
      time := time + if passed < least then least else passed;
    }
  }

  // ---------------------------------------------------------------- the bucket as a value

  datatype Config = Config(rate: real, capacity: real) {
    predicate Valid() { rate > 0.0 && capacity >= 0.0 }
  }

  datatype Level = Level(tokens: real, updated: real)

  /** What happened to the bucket at one reading of the clock. */
  datatype Event =
    | Granted(at: real, amount: real)
    | Denied(at: real, amount: real)
    | Drain(at: real)

  /** What flows into the bucket over `d` seconds. */
  function Inflow(c: Config, d: real): (r: real)
    requires c.Valid()
    ensures d >= 0.0 ==> r >= 0.0
  {
    d * c.rate
  }

  lemma InflowAdds(c: Config, a: real, b: real)
    requires c.Valid()
    ensures Inflow(c, a + b) == Inflow(c, a) + Inflow(c, b)
    ensures a <= b ==> Inflow(c, a) <= Inflow(c, b)
  {
    assert (a + b) * c.rate == a * c.rate + b * c.rate;
    if a <= b {
      assert (b - a) * c.rate >= 0.0;
    }
  }

  function Refill(c: Config, l: Level, now: real): Level
    requires c.Valid()
  {
    var filled := l.tokens + Inflow(c, now - l.updated);
    Level(if c.capacity <= filled then c.capacity else filled, now)
  }

  function After(c: Config, l: Level, e: Event): Level
    requires c.Valid()
  {
    match e
    case Granted(at, amount) => Level(Refill(c, l, at).tokens - amount, at)
    case Denied(at, _) => Refill(c, l, at)
    case Drain(at) => Level(0.0, at)
  }

  predicate Possible(c: Config, l: Level, e: Event)
    requires c.Valid()
  {
    && l.updated <= e.at
    && (e.Granted? ==> 0.0 <= e.amount <= Refill(c, l, e.at).tokens)
    && (e.Denied? ==> Refill(c, l, e.at).tokens < e.amount)
  }

  predicate InRange(c: Config, l: Level) { 0.0 <= l.tokens <= c.capacity }

  predicate Trace(c: Config, l: Level, log: seq<Event>)
    requires c.Valid()
    decreases |log|
  {
    log == [] || (Possible(c, l, log[0]) && Trace(c, After(c, l, log[0]), log[1..]))
  }

  function End(c: Config, l: Level, log: seq<Event>): Level
    requires c.Valid()
    decreases |log|
  {
    if log == [] then l else End(c, After(c, l, log[0]), log[1..])
  }

  /** Tokens granted in the closed interval from `s` to `t`. */
  function GrantedIn(log: seq<Event>, s: real, t: real): real {
    if log == [] then 0.0
    else (if log[0].Granted? && s <= log[0].at <= t then log[0].amount else 0.0) + GrantedIn(log[1..], s, t)
  }

  lemma StaysInRange(c: Config, l: Level, e: Event)
    requires c.Valid() && InRange(c, l) && Possible(c, l, e)
    ensures InRange(c, After(c, l, e)) && After(c, l, e).updated == e.at
    ensures After(c, l, e).tokens + (if e.Granted? then e.amount else 0.0) <= l.tokens + Inflow(c, e.at - l.updated)
    ensures After(c, l, e).tokens + (if e.Granted? then e.amount else 0.0) <= c.capacity
  {
  }

  /** No grant happens before the bucket's own clock reading. */
  lemma {:induction false} NothingEarlier(c: Config, l: Level, log: seq<Event>, s: real, t: real)
    requires c.Valid() && InRange(c, l) && Trace(c, l, log) && t < l.updated
    ensures GrantedIn(log, s, t) == 0.0
    decreases |log|
  {
    if log != [] {
      StaysInRange(c, l, log[0]);
      NothingEarlier(c, After(c, l, log[0]), log[1..], s, t);
    }
  }

  /** From a level on, no more is granted than the level holds plus what flows in. */
  lemma {:induction false} GrantedFromLevel(c: Config, l: Level, log: seq<Event>, s: real, t: real)
    requires c.Valid() && InRange(c, l) && Trace(c, l, log) && l.updated <= t
    ensures GrantedIn(log, s, t) <= l.tokens + Inflow(c, t - l.updated)
    decreases |log|
  {
    if log != [] {
      var e := log[0];
      StaysInRange(c, l, e);
      if e.at > t {
        NothingEarlier(c, After(c, l, e), log[1..], s, t);
      } else {
        GrantedFromLevel(c, After(c, l, e), log[1..], s, t);
        InflowAdds(c, e.at - l.updated, t - e.at);
        assert t - l.updated == (e.at - l.updated) + (t - e.at);
      }
    }
  }

  /** In every interval at most `capacity + rate * length` is granted. */
  lemma IntervalBound(c: Config, l: Level, log: seq<Event>, s: real, t: real)
    requires c.Valid() && InRange(c, l) && Trace(c, l, log) && s <= t
    ensures GrantedIn(log, s, t) <= c.capacity + (t - s) * c.rate
  {
    IntervalInflow(c, l, log, s, t);
  }

  lemma {:induction false} IntervalInflow(c: Config, l: Level, log: seq<Event>, s: real, t: real)
    requires c.Valid() && InRange(c, l) && Trace(c, l, log) && s <= t
    ensures GrantedIn(log, s, t) <= c.capacity + Inflow(c, t - s)
    decreases |log|
  {
    if log != [] {
      var e := log[0];
      StaysInRange(c, l, e);
      if e.at < s {
        IntervalInflow(c, After(c, l, e), log[1..], s, t);
      } else if e.at > t {
        NothingEarlier(c, After(c, l, e), log[1..], s, t);
      } else {
        GrantedFromLevel(c, After(c, l, e), log[1..], s, t);
        InflowAdds(c, t - e.at, t - s);
      }
    }
  }

  /** After a drain at `s` the burst allowance is gone: at most `rate * length` is granted. */
  lemma {:induction false} DrainBound(c: Config, l: Level, before: seq<Event>, s: real, after: seq<Event>, t: real)
    requires c.Valid() && InRange(c, l) && Trace(c, l, before + [Drain(s)] + after) && s <= t
    ensures GrantedIn(after, s, t) <= (t - s) * c.rate
    decreases |before|
  {
    var log := before + [Drain(s)] + after;
    StaysInRange(c, l, log[0]);
    if before == [] {
      assert log[1..] == after;
      GrantedFromLevel(c, Level(0.0, s), after, s, t);
    } else {
      assert log[1..] == before[1..] + [Drain(s)] + after;
      DrainBound(c, After(c, l, log[0]), before[1..], s, after, t);
    }
  }

  /** Acquires of one token each, counted. */
  function CountIn(log: seq<Event>, s: real, t: real): nat {
    if log == [] then 0
    else (if log[0].Granted? && s <= log[0].at <= t then 1 else 0) + CountIn(log[1..], s, t)
  }

  lemma {:induction false} UnitGrants(log: seq<Event>, s: real, t: real)
    requires forall i :: 0 <= i < |log| && log[i].Granted? ==> log[i].amount == 1.0
    ensures GrantedIn(log, s, t) == CountIn(log, s, t) as real
  {
    if log != [] {
      UnitGrants(log[1..], s, t);
    }
  }

  /** The documented rate: completed acquires in an interval, and after a drain. */
  lemma AcquiresAreBounded(c: Config, l: Level, before: seq<Event>, after: seq<Event>, s: real, t: real)
    requires c.Valid() && InRange(c, l) && s <= t && Trace(c, l, before + after)
    requires forall i :: 0 <= i < |before + after| && (before + after)[i].Granted? ==> (before + after)[i].amount == 1.0
    ensures CountIn(before + after, s, t) as real <= c.capacity + (t - s) * c.rate
    ensures before != [] && before[|before| - 1] == Drain(s) ==> CountIn(after, s, t) as real <= (t - s) * c.rate
  {
    IntervalBound(c, l, before + after, s, t);
    UnitGrants(before + after, s, t);
    if before != [] && before[|before| - 1] == Drain(s) {
      var front := before[..|before| - 1];
      assert front + [Drain(s)] + after == before + after;
      DrainBound(c, l, front, s, after, t);
      forall i | 0 <= i < |after| && after[i].Granted?
        ensures after[i].amount == 1.0
      {
        assert (before + after)[|before| + i] == after[i];
      }
      UnitGrants(after, s, t);
    }
  }

  lemma {:induction false} Append(c: Config, l: Level, log: seq<Event>, e: Event)
    requires c.Valid() && Trace(c, l, log) && Possible(c, End(c, l, log), e)
    ensures Trace(c, l, log + [e]) && End(c, l, log + [e]) == After(c, End(c, l, log), e)
    decreases |log|
  {
    if log == [] {
      assert [] + [e] == [e];
    } else {
      Append(c, After(c, l, log[0]), log[1..], e);
      assert (log + [e])[1..] == log[1..] + [e];
    }
  }

  // ---------------------------------------------------------------- the bucket as an object

  class TokenBucket {
    const config: Config
    ghost const start: real
    var tokens: real
    var updated: real
    ghost var log: seq<Event>

    ghost predicate Valid()
      reads this
    {
      && config.Valid()
      && InRange(config, Level(tokens, updated))
      && Trace(config, Level(config.capacity, start), log)
      && End(config, Level(config.capacity, start), log) == Level(tokens, updated)
    }

    constructor (rate: real, capacity: real, clock: MonotonicClock)
      requires rate > 0.0 && capacity >= 0.0
      modifies clock
      ensures config == Config(rate, capacity) && Valid() && log == [] && tokens == capacity
      ensures old(clock.time) <= updated == clock.time
    {
      var now := clock.Now();
      config := Config(rate, capacity);
      start := now;
      tokens := capacity;
      updated := now;
      log := [];
    }

    /** Drops the burst allowance. */
    method DrainBurst(clock: MonotonicClock)
      requires Valid() && updated <= clock.time
      modifies this, clock
      ensures Valid() && old(clock.time) <= updated == clock.time && tokens == 0.0
      ensures log == old(log) + [Drain(updated)]
    {
      var now := clock.Now();
      Append(config, Level(config.capacity, start), log, Drain(now));
      tokens := 0.0;
      updated := now;
      log := log + [Drain(now)];
    }

    /**
     * Waits for `amount` tokens, for at most `patience` sleeps. `drains[k]` says whether another task drains the
     * bucket during the `k`-th sleep; without such interference one sleep is enough, unless more is asked for than the
     * bucket ever holds: that is never granted.
     */
    method Acquire(amount: real, clock: MonotonicClock, drains: seq<bool>, patience: nat)
        returns (granted: bool, sleeps: nat)
      requires Valid() && updated <= clock.time && amount >= 0.0
      modifies this, clock
      ensures Valid() && old(clock.time) <= updated == clock.time
      ensures old(log) < log
      ensures log[|log| - 1] == if granted then Granted(updated, amount) else Denied(updated, amount)
      ensures forall i :: |old(log)| <= i < |log| - 1 ==> !log[i].Granted?
      ensures amount > config.capacity ==> !granted && sleeps == patience
      ensures amount <= config.capacity && patience > |drains| ==> granted && sleeps <= |drains| + 1
    {
      sleeps := 0;
      granted := Try(amount, clock);
      while !granted && sleeps < patience
        invariant Valid() && updated == clock.time && old(clock.time) <= clock.time
        invariant old(log) < log && log[|log| - 1] == if granted then Granted(updated, amount)
                else Denied(updated, amount)
        invariant forall i :: |old(log)| <= i < |log| - 1 ==> !log[i].Granted?
        invariant !granted ==> tokens < amount
        invariant amount > config.capacity ==> !granted
        invariant sleeps <= patience
        invariant amount <= config.capacity && sleeps > |drains| ==> granted && sleeps == |drains| + 1
        decreases patience - sleeps, !granted
      {
        var nap := (amount - tokens) / config.rate;
        clock.Sleep(nap);
        EnoughSleep(config, nap, clock.time - updated, amount - tokens);
        if sleeps < |drains| && drains[sleeps] {
          DrainBurst(clock);
        }
        sleeps := sleeps + 1;
        granted := Try(amount, clock);
      }
    }

    /** One look at the clock: refill, and take `amount` when it is there. */
    method Try(amount: real, clock: MonotonicClock) returns (taken: bool)
      requires Valid() && updated <= clock.time && amount >= 0.0
      modifies this, clock
      ensures Valid() && old(clock.time) <= updated == clock.time
      ensures log == old(log) + [if taken then Granted(updated, amount) else Denied(updated, amount)]
      ensures !taken ==> tokens < amount
      ensures taken ==> amount <= config.capacity
      ensures amount <= config.capacity && old(tokens + Inflow(config, clock.time - updated)) >= amount ==> taken
    {
      ghost var was := Level(tokens, updated);
      var now := clock.Now();
      var level := Refill(config, Level(tokens, updated), now);
      taken := level.tokens >= amount;
      ghost var e := if taken then Granted(now, amount) else Denied(now, amount);
      InflowAdds(config, old(clock.time) - was.updated, now - was.updated);
      StaysInRange(config, was, e);
      Append(config, Level(config.capacity, start), log, e);
      tokens := if taken then level.tokens - amount else level.tokens;
      updated := now;
      log := log + [e];
    }
  }

  lemma EnoughSleep(c: Config, nap: real, slept: real, missing: real)
    requires c.Valid() && nap == missing / c.rate && slept >= nap
    ensures Inflow(c, slept) >= missing
  {
    assert nap * c.rate == missing;
    InflowAdds(c, nap, slept);
  }

  // ---------------------------------------------------------------- the flood pause

  class SendPause {
    var until: real

    constructor ()
      ensures until == 0.0
    {
      until := 0.0;
    }

    /** The pause lasts at least `seconds` from now, an hour at most; one that lasts longer stays as it is. */
    method PauseFor(seconds: real, clock: MonotonicClock)
      modifies this, clock
      ensures old(clock.time) <= clock.time && until >= old(until)
      ensures seconds <= 0.0 ==> until == old(until) && clock.time == old(clock.time)
      ensures 0.0 < seconds <= 3600.0 ==>
        until == if old(until) >= clock.time + seconds then old(until) else clock.time + seconds
      ensures seconds > 3600.0 ==>
        until == if old(until) >= clock.time + 3600.0 then old(until) else clock.time + 3600.0
    {
      var capped := if seconds <= Broadcast.MAX_RETRY_AFTER_SECONDS then seconds else Broadcast.MAX_RETRY_AFTER_SECONDS;
      if capped <= 0.0 {
        return;
      }
      var now := clock.Now();
      until := if until >= now + capped then until else now + capped;
    }

    method Remaining(clock: MonotonicClock) returns (left: real)
      modifies clock
      ensures old(clock.time) <= clock.time
      ensures left == if until > clock.time then until - clock.time else 0.0
    {
      var now := clock.Now();
      left := if until - now > 0.0 then until - now else 0.0;
    }

    /** Sleeps the pause out; `extensions[k]` is what another task adds during the `k`-th sleep. */
    method Wait(clock: MonotonicClock, extensions: seq<real>) returns (waited: bool, ghost asked: real)
      modifies this, clock
      ensures until >= old(until) && old(clock.time) <= asked <= clock.time
      ensures until <= clock.time
      ensures !waited ==> until == old(until) && clock.time == asked
      ensures waited <==> old(until) > asked
    {
      waited := false;
      var naps := 0;
      var left := Remaining(clock);
      asked := clock.time;
      while left > 0.0
        invariant until >= old(until) && clock.time >= asked >= old(clock.time)
        invariant left == if until > clock.time then until - clock.time else 0.0
        invariant !waited ==> naps == 0 && until == old(until) && clock.time == asked
        invariant waited ==> old(until) > asked
        invariant naps <= |extensions| + 1
        invariant naps == |extensions| + 1 ==> left <= 0.0
        decreases |extensions| + 1 - naps
      {
        waited := true;
        clock.Sleep(left);
        if naps < |extensions| {
          PauseFor(extensions[naps], clock);
        }
        naps := naps + 1;
        left := Remaining(clock);
      }
    }
  }
}
