/** The health check and its synthetic clock. Times are nanoseconds of a steady clock; UNIX time is that
    clock plus a fixed offset. Every reading of the clock is its own moment. */
module HealthCheck {
  import opened Wrappers
  import opened Modes

  const SECOND := 1_000_000_000

  datatype Clock = Clock(lastUnix: nat, lastInstant: nat)

  /** The two readings of one tick: when elapsed time is measured, and when the reference restarts. */
  datatype Reading = Reading(measured: nat, restarted: nat)

  function Ticked(c: Clock, r: Reading): Clock
    requires c.lastInstant <= r.measured
  {
    Clock(c.lastUnix + (r.measured - c.lastInstant) / SECOND, r.restarted)
  }

  class MonotonicTimestamp {
    var lastUnix: nat
    var lastInstant: nat

    ghost function View(): Clock
      reads this
    {
      Clock(lastUnix, lastInstant)
    }

    constructor (unixNanos: nat, instant: nat)
      ensures View() == Clock(unixNanos / SECOND, instant)
    {
      lastUnix, lastInstant := unixNanos / SECOND, instant;
    }

    /** Advances by whole elapsed seconds; the fraction is dropped with the old reference. */
    method Tick(r: Reading) returns (t: nat)
      requires lastInstant <= r.measured
      modifies this
      ensures View() == Ticked(old(View()), r) && t == lastUnix
    {
      var elapsed := (r.measured - lastInstant) / SECOND;
      lastUnix := lastUnix + elapsed;
      lastInstant := r.restarted;
      t := lastUnix;
    }
  }

  // ---- Clock drift ----

  /** When the clock's reference was last restarted. */
  function End(start: nat, rs: seq<Reading>): nat {
    if rs == [] then start else rs[|rs| - 1].restarted
  }

  /** Readings never go back, starting from a given moment. */
  ghost predicate Ordered(start: nat, rs: seq<Reading>)
    decreases |rs|
  {
    rs == [] || (var n := |rs| - 1;
                 Ordered(start, rs[..n]) && End(start, rs[..n]) <= rs[n].measured <= rs[n].restarted)
  }

  lemma {:induction false} OrderedPrefix(start: nat, rs: seq<Reading>, n: nat)
    requires Ordered(start, rs) && n <= |rs|
    ensures Ordered(start, rs[..n])
    decreases |rs|
  {
    if n == |rs| {
      assert rs[..n] == rs;
    } else {
      OrderedPrefix(start, rs[..|rs| - 1], n);
      assert rs[..|rs| - 1][..n] == rs[..n];
    }
  }

  /** The clock after a list of ticks. */
  ghost function After(c: Clock, rs: seq<Reading>): (d: Clock)
    requires Ordered(c.lastInstant, rs)
    ensures d.lastInstant == End(c.lastInstant, rs)
    decreases |rs|
  {
    if rs == [] then c else Ticked(After(c, rs[..|rs| - 1]), rs[|rs| - 1])
  }

  /** The whole seconds from the start, or from the restart at each tick, to the measurement of the next. */
  ghost function WholeSeconds(start: nat, rs: seq<Reading>): int {
    if rs == [] then 0
    else
      var n := |rs| - 1;
      WholeSeconds(start, rs[..n]) + (rs[n].measured - if n == 0 then start else rs[n - 1].restarted) / SECOND
  }

  /** The synthetic time is exactly the start plus those; fractions, and what passes between the two readings
      of a tick, are lost. */
  lemma {:induction false} ClockIs(c: Clock, rs: seq<Reading>)
    requires Ordered(c.lastInstant, rs)
    ensures After(c, rs).lastUnix == c.lastUnix + WholeSeconds(c.lastInstant, rs)
    decreases |rs|
  {
    if rs == [] {
    } else {
      ClockIs(c, rs[..|rs| - 1]);
    }
  }

  /** Time that passes between the two readings of a tick, in total. */
  ghost function Slack(rs: seq<Reading>): int {
    if rs == [] then 0 else Slack(rs[..|rs| - 1]) + rs[|rs| - 1].restarted - rs[|rs| - 1].measured
  }

  /** After n ticks the synthetic time is never ahead of UNIX time, and behind it by less than n + 1
      seconds plus the time lost between paired readings (none if readings are instantaneous). The
      first UNIX reading is taken at moment a and the first instant at moment b. */
  lemma {:induction false} Drift(offset: nat, a: nat, b: nat, rs: seq<Reading>)
    requires a <= b && Ordered(b, rs)
    ensures var c := After(Clock((offset + a) / SECOND, b), rs);
            && 0 <= Slack(rs)
            && c.lastUnix * SECOND <= offset + c.lastInstant
            && offset + c.lastInstant - c.lastUnix * SECOND < (|rs| + 1) * SECOND + (b - a) + Slack(rs)
    decreases |rs|
  {
    if rs == [] {
    } else {
      Drift(offset, a, b, rs[..|rs| - 1]);
    }
  }

  /** Ticking never moves the synthetic time back. */
  lemma {:induction false} Monotone(c: Clock, rs: seq<Reading>, n: nat)
    requires Ordered(c.lastInstant, rs) && n <= |rs|
    ensures Ordered(c.lastInstant, rs[..n])
    ensures After(c, rs[..n]).lastUnix <= After(c, rs).lastUnix
    decreases |rs|
  {
    OrderedPrefix(c.lastInstant, rs, n);
    if n == |rs| {
      assert rs[..n] == rs;
    } else {
      Monotone(c, rs[..|rs| - 1], n);
      assert rs[..|rs| - 1][..n] == rs[..n];
    }
  }

  ghost function Unlucky(n: nat): seq<Reading> {
    if n == 0 then [] else Unlucky(n - 1) + [Reading(n * (2 * SECOND - 1), n * (2 * SECOND - 1))]
  }

  /** The drift bound cannot be improved: ticking just short of every other second loses a nanosecond
      less than n + 1 seconds over n ticks and the start, so the drift grows without bound. */
  lemma {:induction false} DriftAttained(n: nat)
    ensures Ordered(0, Unlucky(n)) && End(0, Unlucky(n)) == n * (2 * SECOND - 1)
    ensures var c := After(Clock((SECOND - 1) / SECOND, 0), Unlucky(n));
            (SECOND - 1) + c.lastInstant - c.lastUnix * SECOND == (n + 1) * (SECOND - 1)
  {
    if n == 0 {
    } else {
      DriftAttained(n - 1);
      assert Unlucky(n)[..|Unlucky(n)| - 1] == Unlucky(n - 1);
      assert (2 * SECOND - 1) / SECOND == 1;
    }
  }

  // ---- Verdicts ----

  /** t.saturating_sub(timestamp) > maxUnsafe */
  predicate Stale(t: nat, timestamp: nat, maxUnsafe: nat) {
    (if t < timestamp then 0 else t - timestamp) > maxUnsafe
  }

  /** What one round sees: the latest block timestamps of the L2 node and the builder (an error is None)
      and the execution mode at each of its three reads. */
  datatype Round = Round(reading: Reading, l2: Option<nat>, builder: Option<nat>, m1: Mode, m2: Mode, m3: Mode)

  /** The health a round reports; None leaves it as it was. */
  function Verdict(t: nat, maxUnsafe: nat, r: Round): Option<Health> {
    if r.l2.None? || Stale(t, r.l2.value, maxUnsafe) then Some(ServiceUnavailable)
    else if r.m1 == Disabled || r.m2 == DryRun then Some(Healthy)
    else if r.m3 != Enabled then None
    else if r.builder.None? || Stale(t, r.builder.value, maxUnsafe) then Some(PartialContent)
    else Some(Healthy)
  }

  ghost function Readings(rounds: seq<Round>): seq<Reading> {
    seq(|rounds|, i requires 0 <= i < |rounds| => rounds[i].reading)
  }

  ghost function HealthAfter(c: Clock, maxUnsafe: nat, start: Health, rounds: seq<Round>): Health
    requires Ordered(c.lastInstant, Readings(rounds))
    decreases |rounds|
  {
    if rounds == [] then start
    else
      var n := |rounds| - 1;
      assert Readings(rounds[..n]) == Readings(rounds)[..n];
      var v := Verdict(After(c, Readings(rounds)).lastUnix, maxUnsafe, rounds[n]);
      if v.Some? then v.value else HealthAfter(c, maxUnsafe, start, rounds[..n])
  }

  class HealthHandle {
    var health: Health
    const maxUnsafeInterval: nat

    constructor (health: Health, maxUnsafeInterval: nat)
      ensures this.health == health && this.maxUnsafeInterval == maxUnsafeInterval
    {
      this.health := health;
      this.maxUnsafeInterval := maxUnsafeInterval;
    }

    /** The check loop over any number of rounds. */
    method Spawn(timestamp: MonotonicTimestamp, rounds: seq<Round>)
      requires Ordered(timestamp.lastInstant, Readings(rounds))
      modifies this, timestamp
      ensures timestamp.View() == After(old(timestamp.View()), Readings(rounds))
      ensures health == HealthAfter(old(timestamp.View()), maxUnsafeInterval, old(health), rounds)
    {
      ghost var c := timestamp.View();
      assert Readings(rounds)[..0] == [];
      for i := 0 to |rounds|
        invariant Ordered(c.lastInstant, Readings(rounds[..i]))
        invariant timestamp.View() == After(c, Readings(rounds[..i]))
        invariant health == HealthAfter(c, maxUnsafeInterval, old(health), rounds[..i])
      {
        OrderedPrefix(c.lastInstant, Readings(rounds), i + 1);
        assert Readings(rounds)[..i + 1] == Readings(rounds[..i + 1]);
        assert Readings(rounds[..i + 1])[..i] == Readings(rounds[..i]);
        assert rounds[..i + 1][..i] == rounds[..i];
        var t := timestamp.Tick(rounds[i].reading);
        Check(t, rounds[i]);
      }
      assert rounds[..|rounds|] == rounds;
    }

    /** One round after its tick, in the order of the checks. */
    method Check(t: nat, r: Round)
      modifies this
      ensures health == (match Verdict(t, maxUnsafeInterval, r) case Some(h) => h case None => old(health))
    {
      match r.l2 {
        case Some(timestamp) =>
          if Stale(t, timestamp, maxUnsafeInterval) {
            health := ServiceUnavailable;
            return;
          } else if r.m1 == Disabled || r.m2 == DryRun {
            health := Healthy;
            return;
          }
        case None =>
          health := ServiceUnavailable;
          return;
      }
      if r.m3 == Enabled {
        match r.builder {
          case Some(timestamp) =>
            if Stale(t, timestamp, maxUnsafeInterval) {
              health := PartialContent;
            } else {
              health := Healthy;
            }
          case None => health := PartialContent;
        }
      }
    }
  }

  /** Staleness against real time: after n ticks a block is called stale only once it is more than
      maxUnsafe seconds old, and at the latest when it is maxUnsafe + n + 1 seconds old (plus the time
      lost between paired readings). */
  lemma StaleInRealTime(offset: nat, a: nat, b: nat, rs: seq<Reading>, timestamp: nat, maxUnsafe: nat)
    requires a <= b && Ordered(b, rs)
    ensures var c := After(Clock((offset + a) / SECOND, b), rs);
            var age := offset + c.lastInstant - timestamp * SECOND;
            && (Stale(c.lastUnix, timestamp, maxUnsafe) ==> age >= (maxUnsafe + 1) * SECOND)
            && (age >= (maxUnsafe + |rs| + 1) * SECOND + (b - a) + Slack(rs)
                ==> Stale(c.lastUnix, timestamp, maxUnsafe))
  {
    Drift(offset, a, b, rs);
  }

  /** The reported health against real time, after any number of rounds: the L2 node is reported
      unavailable only if it failed or its block is more than the limit old, surely when its block is
      older than the limit by the drift. While it is fresh, a mode without a builder gives Healthy; an Enabled
      one gives PartialContent for the builder's failure or a builder block older than the limit by the
      drift, and Healthy for a fresh one; and a mode that changed in between leaves the health as it was. */
  lemma VerdictInRealTime(offset: nat, a: nat, b: nat, maxUnsafe: nat, start: Health, rounds: seq<Round>)
    requires a <= b && Ordered(b, Readings(rounds)) && rounds != []
    ensures var c := Clock((offset + a) / SECOND, b);
            var last := rounds[|rounds| - 1];
            var h := HealthAfter(c, maxUnsafe, start, rounds);
            var now := offset + After(c, Readings(rounds)).lastInstant;
            var sure := (maxUnsafe + |rounds| + 1) * SECOND + (b - a) + Slack(Readings(rounds));
            var front := rounds[..|rounds| - 1];
            && Ordered(b, Readings(front))
            && (last.l2.None? ==> h == ServiceUnavailable)
            && (last.l2.Some? && now - last.l2.value * SECOND >= sure ==> h == ServiceUnavailable)
            && (last.l2.Some? && now - last.l2.value * SECOND < (maxUnsafe + 1) * SECOND ==>
                  if last.m1 == Disabled || last.m2 == DryRun then h == Healthy
                  else if last.m3 != Enabled then h == HealthAfter(c, maxUnsafe, start, front)
                  else
                    && (last.builder.None? ==> h == PartialContent)
                    && (last.builder.Some? && now - last.builder.value * SECOND >= sure ==> h == PartialContent)
                    && (last.builder.Some? && now - last.builder.value * SECOND < (maxUnsafe + 1) * SECOND
                        ==> h == Healthy)
                    && h != ServiceUnavailable)
  {
    var last, front := rounds[|rounds| - 1], rounds[..|rounds| - 1];
    OrderedPrefix(b, Readings(rounds), |front|);
    assert Readings(front) == Readings(rounds)[..|front|];
    if last.l2.Some? {
      StaleInRealTime(offset, a, b, Readings(rounds), last.l2.value, maxUnsafe);
    }
    if last.builder.Some? {
      StaleInRealTime(offset, a, b, Readings(rounds), last.builder.value, maxUnsafe);
    }
  }
}
