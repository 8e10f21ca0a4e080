/** The life of an attempt in the Redis limiter: exactly when it is let on, refused and granted a ticket, and
    runs in which an application's limit is overshot as far as the bound allows. */
module RedisTickets {
  import opened Wrappers
  import opened MapSum
  import opened RedisRateLimit
  import RateLimit

  type Limits = RateLimit.Limits
  type Ip = RateLimit.Ip
  type App = RateLimit.App

  // ---- Step by step ----

  /** The check of the address total lets an attempt on. */
  ghost predicate IpOpen(l: Limits, s: Shared, addr: Ip) {
    l.perIp == 0 || Total(IpRow(s, addr)) < l.perIp
  }

  /** The check of the application total lets an attempt on. */
  ghost predicate AppOpen(l: Limits, s: Shared, app: App) {
    Total(AppRow(s, app)) < if app in l.perApp then l.perApp[app] else 0
  }

  /** An attempt begins exactly when the address has room; without an address limit nothing is counted. */
  lemma BegunIff(l: Limits, s: Shared, inst: Instance, addr: Ip, app: Option<App>)
    ensures var t := Apply(l, s, Begin(inst, addr, app));
            if IpOpen(l, s, addr)
            then
              var a := Attempt(inst, addr, app, if l.perIp == 0 then IpCounted else IpChecked);
              t == s.(attempts := s.attempts[s.nextId := a], nextId := s.nextId + 1)
            else t == s
  {
  }

  /** How an attempt gets on: counting the address, then the check of its application, then counting that;
      each of its steps moves it on or ends it, and no other step touches it. */
  lemma AttemptStep(l: Limits, s: Shared, step: Step, id: nat)
    requires FreshIds(s) && id in s.attempts
    ensures var a, t := s.attempts[id], Apply(l, s, step);
            var moved :=
              match a.phase
              case IpChecked => step == CountIp(id, Applied)
              case IpCounted => step == Proceed(id) && a.app.Some? && AppOpen(l, s, a.app.value)
              case AppChecked => false;
            var ended :=
              match a.phase
              case IpChecked => step.CountIp? && step.id == id && step.effect != Applied
              case IpCounted => step == Proceed(id) && !(a.app.Some? && AppOpen(l, s, a.app.value))
              case AppChecked => step.CountApp? && step.id == id && a.app.Some?;
            && (id in t.attempts <==> !ended)
            && (!ended ==> t.attempts[id] == if moved then a.(phase := Next(a.phase)) else a)
  {
  }

  function Next(phase: Phase): Phase {
    match phase
    case IpChecked => IpCounted
    case IpCounted => AppChecked
    case AppChecked => AppChecked
  }

  /** The step grants the attempt its ticket: its address is counted and it has no application, or its
      application has just been counted. */
  predicate Grants(s: Shared, step: Step, id: nat) {
    id in s.attempts &&
    var a := s.attempts[id];
    || (step == Proceed(id) && a.phase == IpCounted && a.app.None?)
    || (step == CountApp(id, Applied) && a.phase == AppChecked && a.app.Some?)
  }

  /** Exactly which steps grant a ticket and with what contents, and that only its release ends it. */
  lemma TicketIff(l: Limits, s: Shared, step: Step, id: nat)
    requires FreshIds(s)
    ensures var t := Apply(l, s, step);
            && (id in t.live <==> Grants(s, step, id) || (id in s.live && !(step.Release? && step.id == id)))
            && (Grants(s, step, id) ==>
                  && t.live[id] == Held(s.attempts[id].inst, s.attempts[id].addr, s.attempts[id].app)
                  && id !in t.attempts)
            && (id in s.live && id in t.live ==> t.live[id] == s.live[id])
  {
  }

  // ---- Over runs ----

  /** Step b began attempt id with these arguments, past an open check. */
  ghost predicate BeganAt(l: Limits, steps: seq<Step>, b: nat, id: nat, inst: Instance, addr: Ip, app: Option<App>)
    requires b < |steps|
  {
    var s := Run(l, steps[..b]);
    steps[b] == Begin(inst, addr, app) && s.nextId == id && IpOpen(l, s, addr)
  }

  lemma RunStep(l: Limits, steps: seq<Step>, n: nat)
    requires n < |steps|
    ensures Run(l, steps[..n + 1]) == Apply(l, Run(l, steps[..n]), steps[n])
  {
    assert steps[..n + 1][..n] == steps[..n];
  }

  lemma {:induction false} FreshAt(l: Limits, steps: seq<Step>, n: nat)
    requires n <= |steps|
    ensures FreshIds(Run(l, steps[..n]))
    decreases n
  {
    if n == 0 {
      assert steps[..0] == [];
    } else {
      FreshAt(l, steps, n - 1);
      RunStep(l, steps, n - 1);
      FreshIdsStep(l, Run(l, steps[..n - 1]), steps[n - 1]);
    }
  }

  lemma NewAttempt(l: Limits, s: Shared, step: Step, id: nat)
    requires FreshIds(s) && id !in s.attempts && id in Apply(l, s, step).attempts
    ensures step.Begin? && id == s.nextId && IpOpen(l, s, step.addr)
    ensures var a := Apply(l, s, step).attempts[id]; a.inst == step.inst && a.addr == step.addr && a.app == step.app
  {
  }

  lemma {:induction false} WhenBegun(l: Limits, steps: seq<Step>, n: nat, id: nat) returns (b: nat)
    requires n <= |steps| && id in Run(l, steps[..n]).attempts
    ensures b < n
    ensures var a := Run(l, steps[..n]).attempts[id]; BeganAt(l, steps, b, id, a.inst, a.addr, a.app)
    decreases n
  {
    assert steps[..0] == [];
    RunStep(l, steps, n - 1);
    FreshAt(l, steps, n - 1);
    var s := Run(l, steps[..n - 1]);
    if id in s.attempts {
      AttemptStep(l, s, steps[n - 1], id);
      b := WhenBegun(l, steps, n - 1, id);
    } else {
      NewAttempt(l, s, steps[n - 1], id);
      b := n - 1;
    }
  }

  /** In every run a connection goes back to one attempt: it began with the connection's instance, address and
      application past an open check, and the connection was granted later, once. */
  lemma {:induction false} TicketHistory(l: Limits, steps: seq<Step>, n: nat, id: nat) returns (b: nat, g: nat)
    requires n <= |steps| && id in Run(l, steps[..n]).live
    ensures b < g < n && Grants(Run(l, steps[..g]), steps[g], id)
    ensures var h := Run(l, steps[..n]).live[id]; BeganAt(l, steps, b, id, h.inst, h.addr, h.app)
    decreases n
  {
    assert steps[..0] == [];
    RunStep(l, steps, n - 1);
    FreshAt(l, steps, n - 1);
    var s := Run(l, steps[..n - 1]);
    TicketIff(l, s, steps[n - 1], id);
    if Grants(s, steps[n - 1], id) {
      g := n - 1;
      b := WhenBegun(l, steps, n - 1, id);
    } else {
      b, g := TicketHistory(l, steps, n - 1, id);
    }
  }

  /** Nothing of the application is connected or past its check. */
  ghost predicate NoneOf(s: Shared, app: App) {
    && (forall id | id in s.live :: s.live[id].app != Some(app))
    && (forall id | id in s.attempts && s.attempts[id].app == Some(app) :: s.attempts[id].phase != AppChecked)
  }

  lemma NoneOfStep(l: Limits, s: Shared, step: Step, app: App)
    requires app !in l.perApp && NoneOf(s, app)
    ensures NoneOf(Apply(l, s, step), app)
  {
    TotalNonNegative(AppRow(s, app));
    assert !AppOpen(l, s, app);
  }

  /** An application without a limit of its own is never admitted. */
  lemma {:induction false} UnlistedNever(l: Limits, steps: seq<Step>, app: App)
    requires app !in l.perApp
    ensures NoneOf(Run(l, steps), app)
    decreases |steps|
  {
    if steps == [] {
    } else {
      UnlistedNever(l, steps[..|steps| - 1], app);
      NoneOfStep(l, Run(l, steps[..|steps| - 1]), steps[|steps| - 1], app);
    }
  }

  /** Without an address limit no address is ever counted. */
  ghost predicate NothingCounted(s: Shared) {
    && (forall addr | addr in s.ips :: s.ips[addr] == map[])
    && (forall id | id in s.attempts :: s.attempts[id].phase != IpChecked)
  }

  lemma NothingCountedStep(l: Limits, s: Shared, step: Step)
    requires l.perIp == 0 && NothingCounted(s)
    ensures NothingCounted(Apply(l, s, step))
  {
    if step.DeleteIp? {
      assert IpRow(s, step.addr) - {step.inst} == map[];
    }
  }

  lemma {:induction false} NoLimitNoCounters(l: Limits, steps: seq<Step>, addr: Ip)
    requires l.perIp == 0
    ensures IpRow(Run(l, steps), addr) == map[] && NothingCounted(Run(l, steps))
    decreases |steps|
  {
    if steps == [] {
    } else {
      NoLimitNoCounters(l, steps[..|steps| - 1], addr);
      NothingCountedStep(l, Run(l, steps[..|steps| - 1]), steps[|steps| - 1]);
    }
  }

  // ---- The overshoot bound of applications is attained ----

  /** n connections of the application, all counted at instance 0, and nothing in flight but attempts past
      its check. Addresses from nextId on have never been seen. */
  ghost predicate Queue(s: Shared, app: App, n: nat) {
    && FreshIds(s)
    && Total(AppRow(s, app)) == Value(AppRow(s, app), 0) == |AppConnections(s, app)| == n
    && (forall id | id in s.attempts :: Queued(s.attempts[id], app))
    && (forall addr: Ip | addr >= s.nextId :: addr !in s.ips)
  }

  predicate Queued(a: Attempt, app: App) {
    a.inst == 0 && a.app == Some(app) && a.phase == AppChecked
  }

  lemma QueuePending(s: Shared, app: App, n: nat)
    requires Queue(s, app, n)
    ensures PendingApp(s, app) == s.attempts.Keys
  {
  }

  lemma RunMore(l: Limits, steps: seq<Step>, step: Step, app: App)
    ensures Run(l, steps + [step]) == Apply(l, Run(l, steps), step)
    ensures var now := |PendingApp(Run(l, steps + [step]), app)|;
            PeakApp(l, steps + [step], app) == if now < PeakApp(l, steps, app) then PeakApp(l, steps, app) else now
  {
    assert (steps + [step])[..|steps|] == steps;
  }

  /** A state with one more attempt, from an address of its own. */
  function With(s: Shared, app: App, phase: Phase): Shared {
    s.(attempts := s.attempts[s.nextId := Attempt(0, s.nextId, Some(app), phase)], nextId := s.nextId + 1)
  }

  /** The same with the address counted, if addresses are limited. */
  function Counted1(l: Limits, s: Shared): Shared {
    if l.perIp == 0 then s else s.(ips := s.ips[s.nextId := map[0 := 1]])
  }

  lemma Arrives(l: Limits, s: Shared, app: App, n: nat)
    requires Queue(s, app, n)
    ensures var t := Apply(l, s, Begin(0, s.nextId, Some(app)));
            t == With(s, app, if l.perIp == 0 then IpCounted else IpChecked)
  {
    EmptyTotal();
    assert IpRow(s, s.nextId) == map[];
  }

  lemma IsCounted(l: Limits, s: Shared, app: App, n: nat)
    requires Queue(s, app, n) && l.perIp > 0
    ensures Apply(l, With(s, app, IpChecked), CountIp(s.nextId, Applied)) == With(Counted1(l, s), app, IpCounted)
  {
    var t := With(s, app, IpChecked);
    assert IpRow(t, s.nextId) == map[];
    assert Incr(map[], 0) == map[0 := 1];
    assert t.attempts[s.nextId := Attempt(0, s.nextId, Some(app), IpCounted)] == With(s, app, IpCounted).attempts;
  }

  lemma IsLetOn(l: Limits, s: Shared, app: App)
    requires AppOpen(l, s, app)
    ensures Apply(l, With(Counted1(l, s), app, IpCounted), Proceed(s.nextId)) == With(Counted1(l, s), app, AppChecked)
  {
    var t := With(Counted1(l, s), app, IpCounted);
    assert AppRow(t, app) == AppRow(s, app);
    assert t.attempts[s.nextId := Attempt(0, s.nextId, Some(app), AppChecked)]
        == With(Counted1(l, s), app, AppChecked).attempts;
  }

  lemma SameApp(l: Limits, s: Shared, app: App, phase: Phase)
    ensures var t := With(Counted1(l, s), app, phase);
            AppRow(t, app) == AppRow(s, app) && AppConnections(t, app) == AppConnections(s, app)
  {
  }

  lemma StillFresh(l: Limits, s: Shared, app: App, phase: Phase)
    requires FreshIds(s)
    ensures FreshIds(With(Counted1(l, s), app, phase))
    ensures |With(Counted1(l, s), app, phase).attempts| == |s.attempts| + 1
  {
    SizeInsert(s.attempts, s.nextId, Attempt(0, s.nextId, Some(app), phase));
  }

  lemma QueueGrows(l: Limits, s: Shared, app: App, n: nat)
    requires Queue(s, app, n)
    ensures Queue(With(Counted1(l, s), app, AppChecked), app, n)
    ensures |With(Counted1(l, s), app, AppChecked).attempts| == |s.attempts| + 1
  {
    SameApp(l, s, app, AppChecked);
    StillFresh(l, s, app, AppChecked);
  }

  lemma PendingWith(l: Limits, s: Shared, app: App, n: nat, phase: Phase)
    requires Queue(s, app, n) && phase != AppChecked
    ensures PendingApp(With(s, app, phase), app) == PendingApp(Counted1(l, s), app) == PendingApp(s, app)
    ensures PendingApp(With(Counted1(l, s), app, phase), app) == PendingApp(s, app)
  {
  }

  /** Lets one more attempt pass the application's check. */
  lemma Queue1(l: Limits, steps: seq<Step>, app: App, n: nat) returns (more: seq<Step>)
    requires Queue(Run(l, steps), app, n) && n < l.AppLimit(app)
    ensures Queue(Run(l, more), app, n) && |Run(l, more).attempts| == |Run(l, steps).attempts| + 1
    ensures PeakApp(l, more, app)
         <= if PeakApp(l, steps, app) < |Run(l, more).attempts| then |Run(l, more).attempts| else PeakApp(l, steps, app)
  {
    var s := Run(l, steps);
    var id := s.nextId;
    var begin := Begin(0, id, Some(app));
    Arrives(l, s, app, n);
    PeakNow(l, steps, app);
    RunMore(l, steps, begin, app);
    PendingWith(l, s, app, n, if l.perIp == 0 then IpCounted else IpChecked);
    var counted := steps + [begin];
    if l.perIp > 0 {
      IsCounted(l, s, app, n);
      RunMore(l, counted, CountIp(id, Applied), app);
      PendingWith(l, s, app, n, IpCounted);
      counted := counted + [CountIp(id, Applied)];
    }
    assert Run(l, counted) == With(Counted1(l, s), app, IpCounted);
    more := counted + [Proceed(id)];
    IsLetOn(l, s, app);
    RunMore(l, counted, Proceed(id), app);
    QueueGrows(l, s, app, n);
    QueuePending(Run(l, more), app, n);
  }

  lemma PeakNow(l: Limits, steps: seq<Step>, app: App)
    ensures |PendingApp(Run(l, steps), app)| <= PeakApp(l, steps, app)
  {
  }

  /** The state after a queued attempt has gone through. */
  function Through(s: Shared, app: App, id: nat): Shared
    requires id in s.attempts
  {
    s.(apps := s.apps[app := Incr(AppRow(s, app), 0)],
       attempts := s.attempts - {id},
       live := s.live[id := Held(0, s.attempts[id].addr, Some(app))])
  }

  lemma GoesThrough(l: Limits, s: Shared, app: App, n: nat, id: nat)
    requires Queue(s, app, n) && id in s.attempts
    ensures Apply(l, s, CountApp(id, Applied)) == Through(s, app, id)
  {
    assert Queued(s.attempts[id], app);
  }

  lemma ThroughTotal(s: Shared, app: App, n: nat, id: nat)
    requires Queue(s, app, n) && id in s.attempts
    ensures var row := AppRow(Through(s, app, id), app); Total(row) == Value(row, 0) == n + 1
  {
    IncrTotal(AppRow(s, app), 0);
    assert AppRow(Through(s, app, id), app) == Incr(AppRow(s, app), 0);
  }

  lemma MoreAppConnections(s: Shared, u: Shared, id: nat, h: Held, app: App)
    requires id !in s.live && u.live == s.live[id := h] && h.app == Some(app)
    ensures |AppConnections(u, app)| == |AppConnections(s, app)| + 1
  {
    assert AppConnections(u, app) == AppConnections(s, app) + {id};
  }

  lemma ThroughCounts(s: Shared, app: App, n: nat, id: nat)
    requires Queue(s, app, n) && id in s.attempts
    ensures var t := Through(s, app, id);
            Total(AppRow(t, app)) == Value(AppRow(t, app), 0) == |AppConnections(t, app)| == n + 1
  {
    ThroughTotal(s, app, n, id);
    MoreAppConnections(s, Through(s, app, id), id, Held(0, s.attempts[id].addr, Some(app)), app);
  }

  lemma SettleState(l: Limits, s: Shared, app: App, n: nat, id: nat)
    requires Queue(s, app, n) && id in s.attempts
    ensures var t := Apply(l, s, CountApp(id, Applied));
            Queue(t, app, n + 1) && |t.attempts| == |s.attempts| - 1
  {
    GoesThrough(l, s, app, n, id);
    ThroughCounts(s, app, n, id);
    SizeRemove(s.attempts, id);
    FreshIdsStep(l, s, CountApp(id, Applied));
  }

  /** Lets every queued attempt go through. */
  lemma {:induction false} Settle(l: Limits, steps: seq<Step>, app: App, n: nat) returns (more: seq<Step>)
    requires Queue(Run(l, steps), app, n)
    ensures Queue(Run(l, more), app, n + |Run(l, steps).attempts|) && Run(l, more).attempts == map[]
    ensures PeakApp(l, more, app) == PeakApp(l, steps, app)
    decreases |Run(l, steps).attempts|
  {
    var s := Run(l, steps);
    if s.attempts == map[] {
      more := steps;
    } else {
      var id :| id in s.attempts;
      var settled := steps + [CountApp(id, Applied)];
      SettleState(l, s, app, n, id);
      RunMore(l, steps, CountApp(id, Applied), app);
      QueuePending(s, app, n);
      QueuePending(Run(l, settled), app, n + 1);
      PeakNow(l, steps, app);
      more := Settle(l, settled, app, n + 1);
    }
  }

  /** Brings the application to n connections, one attempt after another. */
  lemma {:induction false} FillUp(l: Limits, app: App, n: nat) returns (steps: seq<Step>)
    requires n <= l.AppLimit(app)
    ensures Queue(Run(l, steps), app, n) && Run(l, steps).attempts == map[] && PeakApp(l, steps, app) <= 1
    decreases n
  {
    if n == 0 {
      EmptyTotal();
      steps := [];
      assert AppConnections(STARTED, app) == {} && PendingApp(STARTED, app) == {};
    } else {
      var before := FillUp(l, app, n - 1);
      var queued := Queue1(l, before, app, n - 1);
      steps := Settle(l, queued, app, n - 1);
    }
  }

  lemma {:induction false} Crowd(l: Limits, steps: seq<Step>, app: App, n: nat, k: nat) returns (more: seq<Step>)
    requires Queue(Run(l, steps), app, n) && Run(l, steps).attempts == map[]
    requires n < l.AppLimit(app) && PeakApp(l, steps, app) <= 1
    ensures Queue(Run(l, more), app, n) && |Run(l, more).attempts| == k
    ensures PeakApp(l, more, app) <= if k < 1 then 1 else k
    decreases k
  {
    if k == 0 {
      more := steps;
    } else {
      var before := Crowd(l, steps, app, n, k - 1);
      more := Queue1(l, before, app, n);
    }
  }

  /** For every application with a limit and every number k of overlapping attempts there is a run that ends
      with exactly limit + k - 1 connections of the application, all counted: the bound is attained. */
  lemma AppOvershootAttained(l: Limits, k: nat, app: App) returns (steps: seq<Step>)
    requires l.AppLimit(app) > 0 && k > 0
    ensures Total(AppRow(Run(l, steps), app)) == |AppConnections(Run(l, steps), app)| == l.AppLimit(app) + k - 1
    ensures PeakApp(l, steps, app) == k
  {
    var filled := FillUp(l, app, l.AppLimit(app) - 1);
    var crowded := Crowd(l, filled, app, l.AppLimit(app) - 1, k);
    QueuePending(Run(l, crowded), app, l.AppLimit(app) - 1);
    PeakNow(l, crowded, app);
    steps := Settle(l, crowded, app, l.AppLimit(app) - 1);
  }
}
