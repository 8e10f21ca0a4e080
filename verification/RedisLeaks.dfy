/** Counts that the Redis limiter never gives back: where they come from, that counters are exactly holders
    plus leaks, and how they lock an address out until a cleanup deletes them. */
module RedisLeaks {
  import opened Wrappers
  import opened MapSum
  import opened RedisRateLimit
  import RateLimit

  type Limits = RateLimit.Limits
  type Ip = RateLimit.Ip
  type App = RateLimit.App

  /** The step gives up a unit of the address at instance i without a DECR: the reply to an INCR is lost, an
      application refuses or cannot be counted after the address was, or the DECR of a release fails. */
  ghost predicate Leaks(l: Limits, s: Shared, step: Step, addr: Ip, i: Instance) {
    match step
    case CountIp(id, effect) => id in PendingIp(s, addr) && s.attempts[id].inst == i && effect == ReplyLost
    case Proceed(id) =>
      && id in s.attempts && s.attempts[id].phase == IpCounted
      && s.attempts[id].addr == addr && s.attempts[id].inst == i
      && s.attempts[id].app.Some? && Refuses(l, s, s.attempts[id].app.value)
    case CountApp(id, effect) =>
      && id in s.attempts && s.attempts[id].phase == AppChecked
      && s.attempts[id].addr == addr && s.attempts[id].inst == i
      && s.attempts[id].app.Some? && effect != Applied
    case Release(id, ipDone, _) => id in s.live && s.live[id].addr == addr && s.live[id].inst == i && !ipDone
    case _ => false
  }

  /** The application is at its limit. */
  ghost predicate Refuses(l: Limits, s: Shared, app: App) {
    Total(AppRow(s, app)) >= l.AppLimit(app)
  }

  /** What was leaked at instance i since its counter was last deleted. A deletion takes what the holders of
      that moment had counted out of the counter as well. */
  ghost function Leaked(l: Limits, steps: seq<Step>, addr: Ip, i: Instance): int
    decreases |steps|
  {
    if steps == [] then 0
    else
      var front, step := steps[..|steps| - 1], steps[|steps| - 1];
      if step == DeleteIp(addr, i) then -|HoldersAt(Run(l, front), addr, i)|
      else Leaked(l, front, addr, i) + if Leaks(l, Run(l, front), step, addr, i) then 1 else 0
  }

  // ---- Conservation ----

  /** What the counter has beyond its holders. */
  function Surplus(s: Shared, addr: Ip, i: Instance): int {
    Value(IpRow(s, addr), i) - |HoldersAt(s, addr, i)|
  }

  /** The id is a holder of the address at instance i. */
  predicate HoldsAt(s: Shared, addr: Ip, i: Instance, id: nat) {
    Counted(s, id).Some? && Counted(s, id).value.addr == addr && Counted(s, id).value.inst == i
  }

  /** The step adds a holder. */
  predicate Comes(s: Shared, step: Step, addr: Ip, i: Instance) {
    Takes(s, step, addr) && s.attempts[step.id].inst == i
  }

  /** The step removes a holder: a release, or an attempt given up after its address was counted. */
  ghost predicate Goes(l: Limits, s: Shared, step: Step, addr: Ip, i: Instance) {
    || (step.Release? && step.id in s.live && s.live[step.id].addr == addr && s.live[step.id].inst == i)
    || ((step.Proceed? || step.CountApp?) && Leaks(l, s, step, addr, i))
  }

  ghost predicate HoldsChange(l: Limits, s: Shared, step: Step, addr: Ip, i: Instance, id: nat) {
    var t := Apply(l, s, step);
    if Comes(s, step, addr, i) && id == step.id then !HoldsAt(s, addr, i, id) && HoldsAt(t, addr, i, id)
    else if Goes(l, s, step, addr, i) && id == step.id then HoldsAt(s, addr, i, id) && !HoldsAt(t, addr, i, id)
    else HoldsAt(t, addr, i, id) == HoldsAt(s, addr, i, id)
  }

  lemma HoldsBySettling(l: Limits, s: Shared, step: Step, addr: Ip, i: Instance, id: nat)
    requires l.perIp > 0 && FreshIds(s) && step.CountIp?
    ensures HoldsChange(l, s, step, addr, i, id)
  {
  }

  lemma HoldsByProceeding(l: Limits, s: Shared, step: Step, addr: Ip, i: Instance, id: nat)
    requires l.perIp > 0 && FreshIds(s) && step.Proceed?
    ensures HoldsChange(l, s, step, addr, i, id)
  {
  }

  lemma HoldsByCountingApp(l: Limits, s: Shared, step: Step, addr: Ip, i: Instance, id: nat)
    requires l.perIp > 0 && FreshIds(s) && step.CountApp?
    ensures HoldsChange(l, s, step, addr, i, id)
  {
  }

  lemma HoldsByRelease(l: Limits, s: Shared, step: Step, addr: Ip, i: Instance, id: nat)
    requires l.perIp > 0 && FreshIds(s) && step.Release?
    ensures HoldsChange(l, s, step, addr, i, id)
  {
  }

  lemma HoldsStep(l: Limits, s: Shared, step: Step, addr: Ip, i: Instance, id: nat)
    requires l.perIp > 0 && FreshIds(s)
    ensures HoldsChange(l, s, step, addr, i, id)
  {
    match step
    case CountIp(_, _) => HoldsBySettling(l, s, step, addr, i, id);
    case Proceed(_) => HoldsByProceeding(l, s, step, addr, i, id);
    case CountApp(_, _) => HoldsByCountingApp(l, s, step, addr, i, id);
    case Release(_, _, _) => HoldsByRelease(l, s, step, addr, i, id);
    case _ =>
  }

  lemma HoldersAre(s: Shared, addr: Ip, i: Instance)
    ensures forall id :: id in HoldersAt(s, addr, i) <==> HoldsAt(s, addr, i, id)
  {
  }

  /** Sizes of sets that differ by exactly one element coming or going. */
  lemma ExactShift(before: set<nat>, after: set<nat>, id: nat, comes: bool, goes: bool)
    requires !(comes && goes)
    requires forall x | x != id :: x in after <==> x in before
    requires if comes then id !in before && id in after
             else if goes then id in before && id !in after
             else id in after <==> id in before
    ensures |after| == |before| + (if comes then 1 else 0) - if goes then 1 else 0
  {
    if comes {
      assert after == before + {id};
    } else if goes {
      assert after == before - {id};
    } else {
      assert after == before;
    }
  }

  lemma HoldersCount(l: Limits, s: Shared, step: Step, addr: Ip, i: Instance)
    requires l.perIp > 0 && FreshIds(s)
    ensures |HoldersAt(Apply(l, s, step), addr, i)|
         == |HoldersAt(s, addr, i)| + (if Comes(s, step, addr, i) then 1 else 0)
            - if Goes(l, s, step, addr, i) then 1 else 0
  {
    var t := Apply(l, s, step);
    var comes, goes := Comes(s, step, addr, i), Goes(l, s, step, addr, i);
    forall id: nat
      ensures HoldsChange(l, s, step, addr, i, id)
    {
      HoldsStep(l, s, step, addr, i, id);
    }
    HoldersAre(s, addr, i);
    HoldersAre(t, addr, i);
    var id := if comes || goes then step.id else 0;
    assert HoldsChange(l, s, step, addr, i, id);
    forall x: nat | x != id
      ensures x in HoldersAt(t, addr, i) <==> x in HoldersAt(s, addr, i)
    {
      assert HoldsChange(l, s, step, addr, i, x);
    }
    ExactShift(HoldersAt(s, addr, i), HoldersAt(t, addr, i), id, comes, goes);
  }

  lemma ValueStep(l: Limits, s: Shared, step: Step, addr: Ip, i: Instance)
    requires l.perIp > 0 && step != DeleteIp(addr, i)
    ensures var up := SettlesIp(s, step, addr) && step.effect != NotApplied && s.attempts[step.id].inst == i;
            var down := Returns(s, step, addr) && s.live[step.id].inst == i;
            Value(IpRow(Apply(l, s, step), addr), i)
            == Value(IpRow(s, addr), i) + (if up then 1 else 0) - if down then 1 else 0
  {
    RowStep(l, s, step, addr);
  }

  /** A leak, and nothing else but a deletion, changes the surplus. */
  lemma SurplusStep(l: Limits, s: Shared, step: Step, addr: Ip, i: Instance)
    requires l.perIp > 0 && FreshIds(s) && step != DeleteIp(addr, i)
    ensures Surplus(Apply(l, s, step), addr, i) == Surplus(s, addr, i) + if Leaks(l, s, step, addr, i) then 1 else 0
  {
    HoldersCount(l, s, step, addr, i);
    ValueStep(l, s, step, addr, i);
  }

  lemma SurplusDeleted(l: Limits, s: Shared, addr: Ip, i: Instance)
    ensures Surplus(Apply(l, s, DeleteIp(addr, i)), addr, i) == -|HoldersAt(s, addr, i)|
  {
    var t := Apply(l, s, DeleteIp(addr, i));
    assert HoldersAt(t, addr, i) == HoldersAt(s, addr, i);
  }

  lemma {:induction false} AlwaysFresh(l: Limits, steps: seq<Step>)
    ensures FreshIds(Run(l, steps))
    decreases |steps|
  {
    if steps == [] {
    } else {
      AlwaysFresh(l, steps[..|steps| - 1]);
      FreshIdsStep(l, Run(l, steps[..|steps| - 1]), steps[|steps| - 1]);
    }
  }

  /** In every run, whatever fails or is deleted, a counter is exactly the connections and attempts it stands
      for plus what was leaked since its last deletion. */
  lemma {:induction false} Conserved(l: Limits, steps: seq<Step>, addr: Ip, i: Instance)
    requires l.perIp > 0
    ensures Value(IpRow(Run(l, steps), addr), i) == |HoldersAt(Run(l, steps), addr, i)| + Leaked(l, steps, addr, i)
    decreases |steps|
  {
    if steps == [] {
      assert HoldersAt(STARTED, addr, i) == {};
    } else {
      var front, step := steps[..|steps| - 1], steps[|steps| - 1];
      Conserved(l, front, addr, i);
      AlwaysFresh(l, front);
      if step == DeleteIp(addr, i) {
        SurplusDeleted(l, Run(l, front), addr, i);
      } else {
        SurplusStep(l, Run(l, front), step, addr, i);
      }
    }
  }

  // ---- Lock-out ----

  /** What the address's counters would read if every holder were gone. */
  ghost function LeakRow(l: Limits, steps: seq<Step>, addr: Ip): Row {
    map i | i in IpRow(Run(l, steps), addr) :: Leaked(l, steps, addr, i)
  }

  lemma ValueWithout(row: Row, i: Instance, k: Instance)
    ensures Value(row - {i}, k) == if k == i then 0 else Value(row, k)
  {
  }

  lemma {:induction false} TotalMonotone(row: Row, more: Row)
    requires forall i :: Visible(Value(row, i)) <= Visible(Value(more, i))
    ensures Total(row) <= Total(more)
    decreases |row|
  {
    if row == map[] {
      EmptyTotal();
      TotalNonNegative(more);
    } else {
      var i :| i in row;
      SizeRemove(row, i);
      TotalDelete(row, i);
      TotalDelete(more, i);
      forall k
        ensures Visible(Value(row - {i}, k)) <= Visible(Value(more - {i}, k))
      {
        assert Visible(Value(row, k)) <= Visible(Value(more, k));
        ValueWithout(row, i, k);
        ValueWithout(more, i, k);
      }
      TotalMonotone(row - {i}, more - {i});
    }
  }

  /** No counter of the address is deleted from step n on. */
  ghost predicate NotDeletedSince(steps: seq<Step>, n: nat, addr: Ip) {
    forall k | n <= k < |steps| :: !Deletes(steps[k], addr)
  }

  lemma {:induction false} LeakedGrows(l: Limits, steps: seq<Step>, n: nat, addr: Ip, i: Instance)
    requires n <= |steps| && NotDeletedSince(steps, n, addr)
    ensures Leaked(l, steps[..n], addr, i) <= Leaked(l, steps, addr, i)
    decreases |steps|
  {
    if n == |steps| {
      assert steps[..n] == steps;
    } else {
      var front := steps[..|steps| - 1];
      LeakedGrows(l, front, n, addr, i);
      assert front[..n] == steps[..n];
      assert !Deletes(steps[|steps| - 1], addr);
    }
  }

  /** Once the leaks alone reach the limit, the address is refused everywhere for as long as none of its
      counters is deleted, whatever its connections do. */
  lemma LockedOut(l: Limits, steps: seq<Step>, n: nat, addr: Ip, inst: Instance, app: Option<App>)
    requires l.perIp > 0 && n <= |steps| && NotDeletedSince(steps, n, addr)
    requires Total(LeakRow(l, steps[..n], addr)) >= l.perIp
    ensures Apply(l, Run(l, steps), Begin(inst, addr, app)) == Run(l, steps)
  {
    var leaks, row := LeakRow(l, steps[..n], addr), IpRow(Run(l, steps), addr);
    forall i
      ensures Visible(Value(leaks, i)) <= Visible(Value(row, i))
    {
      Conserved(l, steps, addr, i);
      LeakedGrows(l, steps, n, addr, i);
    }
    TotalMonotone(leaks, row);
  }

  lemma RefusedBegun(l: Limits, s: Shared, i: Instance, addr: Ip, app: App)
    requires l.perIp > 0 && s.attempts == map[] && Total(IpRow(s, addr)) < l.perIp
    ensures Apply(l, s, Begin(i, addr, Some(app)))
         == s.(attempts := map[s.nextId := Attempt(i, addr, Some(app), IpChecked)], nextId := s.nextId + 1)
  {
  }

  lemma RefusedCounted(l: Limits, s: Shared, id: nat, i: Instance, addr: Ip, app: App)
    requires s.attempts == map[id := Attempt(i, addr, Some(app), IpChecked)]
    ensures Apply(l, s, CountIp(id, Applied))
         == s.(ips := s.ips[addr := Incr(IpRow(s, addr), i)],
               attempts := map[id := Attempt(i, addr, Some(app), IpCounted)])
  {
  }

  lemma RefusedByApp(l: Limits, s: Shared, id: nat, i: Instance, addr: Ip, app: App)
    requires s.attempts == map[id := Attempt(i, addr, Some(app), IpCounted)] && Refuses(l, s, app)
    ensures Apply(l, s, Proceed(id)) == s.(attempts := map[])
  {
    assert s.attempts - {id} == map[];
  }

  /** One attempt through instance i that the application refuses leaves its count behind. */
  lemma RefusedOnce(l: Limits, steps: seq<Step>, i: Instance, addr: Ip, app: App) returns (more: seq<Step>)
    requires l.perIp > 0 && Run(l, steps).attempts == map[]
    requires Total(IpRow(Run(l, steps), addr)) < l.perIp && Refuses(l, Run(l, steps), app)
    ensures var s := Run(l, steps);
            Run(l, more) == s.(ips := s.ips[addr := Incr(IpRow(s, addr), i)], nextId := s.nextId + 1)
  {
    var s := Run(l, steps);
    var id := s.nextId;
    var begun := steps + [Begin(i, addr, Some(app))];
    var counted := begun + [CountIp(id, Applied)];
    more := counted + [Proceed(id)];
    RunAppend(l, steps, Begin(i, addr, Some(app)), addr);
    RefusedBegun(l, s, i, addr, app);
    RunAppend(l, begun, CountIp(id, Applied), addr);
    RefusedCounted(l, Run(l, begun), id, i, addr, app);
    RunAppend(l, counted, Proceed(id), addr);
    RefusedByApp(l, Run(l, counted), id, i, addr, app);
  }

  /** With an application at its limit and nothing in flight, refused attempts alone fill the address's
      counter, without a connection. */
  lemma {:induction false} FillByRefusals(l: Limits, steps: seq<Step>, i: Instance, addr: Ip, app: App)
    returns (more: seq<Step>)
    requires l.perIp > 0 && Run(l, steps).attempts == map[] && Value(IpRow(Run(l, steps), addr), i) >= 0
    requires Refuses(l, Run(l, steps), app)
    ensures Run(l, more).live == Run(l, steps).live && Run(l, more).attempts == map[]
    ensures Total(IpRow(Run(l, more), addr)) >= l.perIp
    decreases l.perIp - Total(IpRow(Run(l, steps), addr))
  {
    if Total(IpRow(Run(l, steps), addr)) >= l.perIp {
      more := steps;
    } else {
      var once := RefusedOnce(l, steps, i, addr, app);
      IncrTotal(IpRow(Run(l, steps), addr), i);
      more := FillByRefusals(l, once, i, addr, app);
    }
  }

  lemma LeaksAreAll(l: Limits, steps: seq<Step>, addr: Ip)
    requires l.perIp > 0 && Holders(Run(l, steps), addr) == {}
    ensures LeakRow(l, steps, addr) == IpRow(Run(l, steps), addr)
  {
    forall i | i in IpRow(Run(l, steps), addr)
      ensures Leaked(l, steps, addr, i) == IpRow(Run(l, steps), addr)[i]
    {
      Conserved(l, steps, addr, i);
      assert HoldersAt(Run(l, steps), addr, i) <= Holders(Run(l, steps), addr);
    }
  }

  /** The lock-out is reachable under every address limit: through an application without a limit of its own
      an address that never had a connection comes to be refused until one of its counters is deleted. */
  lemma LockOutReachable(l: Limits, i: Instance, addr: Ip, app: App) returns (steps: seq<Step>)
    requires l.perIp > 0 && l.AppLimit(app) == 0
    ensures Run(l, steps).live == map[] && Run(l, steps).attempts == map[]
    ensures forall more, inst, other | NotDeletedSince(steps + more, |steps|, addr) ::
              Apply(l, Run(l, steps + more), Begin(inst, addr, other)) == Run(l, steps + more)
  {
    EmptyTotal();
    steps := FillByRefusals(l, [], i, addr, app);
    assert Holders(Run(l, steps), addr) == {};
    LeaksAreAll(l, steps, addr);
    forall more: seq<Step>, inst: Instance, other: Option<App> | NotDeletedSince(steps + more, |steps|, addr)
      ensures Apply(l, Run(l, steps + more), Begin(inst, addr, other)) == Run(l, steps + more)
    {
      assert (steps + more)[..|steps|] == steps;
      LockedOut(l, steps + more, |steps|, addr, inst, other);
    }
  }

  /** A deletion ends it exactly when the counters it leaves are below the limit. */
  lemma DeletionReadmitsIff(l: Limits, s: Shared, i: Instance, addr: Ip, inst: Instance, app: Option<App>)
    requires l.perIp > 0
    ensures var t := Apply(l, s, DeleteIp(addr, i));
            Apply(l, t, Begin(inst, addr, app)) != t
            <==> Total(IpRow(s, addr)) - Visible(Value(IpRow(s, addr), i)) < l.perIp
  {
    TotalDelete(IpRow(s, addr), i);
  }
}
