/** The in-memory connection limiter: a permit pool, a counter per address and a counter per application. */
module RateLimit {
  import opened Wrappers
  import opened MapSum

  type Ip = nat
  type App = string

  datatype Limits = Limits(instance: nat, perIp: nat, perApp: map<App, nat>) {
    function AppLimit(app: App): nat {
      if app in perApp then perApp[app] else 0
    }
  }

  datatype Ticket = Ticket(addr: Ip, app: Option<App>)

  datatype Refusal = GlobalLimit | IpLimit | AppLimitReached

  datatype Counters = Counters(permits: nat, perIp: map<Ip, nat>, perApp: map<App, nat>)

  function Count<K>(m: map<K, nat>, k: K): nat {
    if k in m then m[k] else 0
  }

  /** One less; an entry that would become (or already is) zero is removed. */
  function Decremented<K>(m: map<K, nat>, k: K): map<K, nat> {
    if Count(m, k) <= 1 then m - {k} else m[k := Count(m, k) - 1]
  }

  /** The counters after an attempt, and its result. A refusal by the application limit comes after the
      address was counted, and the count stays. */
  function Acquire(l: Limits, c: Counters, addr: Ip, app: Option<App>): (Counters, Result<Ticket, Refusal>) {
    if c.permits == 0 then (c, Err(GlobalLimit))
    else if l.perIp > 0 && Count(c.perIp, addr) + 1 > l.perIp then (c, Err(IpLimit))
    else
      var counted := if l.perIp > 0 then c.(perIp := c.perIp[addr := Count(c.perIp, addr) + 1]) else c;
      if app.Some? && Count(c.perApp, app.value) + 1 > l.AppLimit(app.value) then (counted, Err(AppLimitReached))
      else
        var taken := counted.(permits := c.permits - 1);
        (if app.Some? then taken.(perApp := c.perApp[app.value := Count(c.perApp, app.value) + 1]) else taken,
         Ok(Ticket(addr, app)))
  }

  function Release(l: Limits, c: Counters, t: Ticket): Counters {
    var ip := if l.perIp > 0 then Decremented(c.perIp, t.addr) else c.perIp;
    var app := if t.app.Some? then Decremented(c.perApp, t.app.value) else c.perApp;
    c.(perIp := ip, perApp := app)
  }

  class InMemoryRateLimit {
    const limits: Limits
    var activeConnectionsPerIp: map<Ip, nat>
    var activeConnectionsPerApp: map<App, nat>
    var permits: nat

    ghost function View(): Counters
      reads this
    {
      Counters(permits, activeConnectionsPerIp, activeConnectionsPerApp)
    }

    constructor (limits: Limits)
      ensures this.limits == limits && View() == Counters(limits.instance, map[], map[])
    {
      this.limits := limits;
      activeConnectionsPerIp, activeConnectionsPerApp, permits := map[], map[], limits.instance;
    }

    method TryAcquire(addr: Ip, app: Option<App>) returns (r: Result<Ticket, Refusal>)
      modifies this
      ensures (View(), r) == Acquire(limits, old(View()), addr, app)
    {
      if permits == 0 {
        return Err(GlobalLimit);
      }
      permits := permits - 1;
      if limits.perIp > 0 {
        var currentCount := Count(activeConnectionsPerIp, addr);
        if currentCount + 1 > limits.perIp {
          permits := permits + 1;
          return Err(IpLimit);
        }
        activeConnectionsPerIp := activeConnectionsPerIp[addr := currentCount + 1];
      }
      if app.Some? {
        var currentCount := Count(activeConnectionsPerApp, app.value);
        if currentCount + 1 > limits.AppLimit(app.value) {
          permits := permits + 1;
          return Err(AppLimitReached);
        }
        activeConnectionsPerApp := activeConnectionsPerApp[app.value := currentCount + 1];
      }
      return Ok(Ticket(addr, app));
    }

    /** Runs when a ticket is dropped; underflow reports the branches that should never be taken. */
    method ReleaseTicket(t: Ticket) returns (underflow: bool)
      modifies this
      ensures View() == Release(limits, old(View()), t)
      ensures underflow <==> || (limits.perIp > 0 && Count(old(activeConnectionsPerIp), t.addr) == 0)
                             || (t.app.Some? && Count(old(activeConnectionsPerApp), t.app.value) == 0)
    {
      underflow := false;
      if limits.perIp > 0 {
        var currentCount := Count(activeConnectionsPerIp, t.addr);
        if currentCount == 0 {
          underflow := true;
          activeConnectionsPerIp := activeConnectionsPerIp - {t.addr};
        } else if currentCount == 1 {
          activeConnectionsPerIp := activeConnectionsPerIp - {t.addr};
        } else {
          activeConnectionsPerIp := activeConnectionsPerIp[t.addr := currentCount - 1];
        }
      }
      if t.app.Some? {
        var app := t.app.value;
        var currentCount := Count(activeConnectionsPerApp, app);
        if currentCount == 0 {
          underflow := true;
          activeConnectionsPerApp := activeConnectionsPerApp - {app};
        } else if currentCount == 1 {
          activeConnectionsPerApp := activeConnectionsPerApp - {app};
        } else {
          activeConnectionsPerApp := activeConnectionsPerApp[app := currentCount - 1];
        }
      }
    }

    /** The permit goes back to the pool after the ticket's own drop has run. */
    method ReturnPermit()
      modifies this
      ensures View() == old(View()).(permits := old(permits) + 1)
    {
      permits := permits + 1;
    }

    /** A whole drop: the counters go down, then the permit comes back. */
    method DropTicket(t: Ticket) returns (underflow: bool)
      modifies this
      ensures View() == Release(limits, old(View()), t).(permits := old(permits) + 1)
      ensures underflow <==> || (limits.perIp > 0 && Count(old(activeConnectionsPerIp), t.addr) == 0)
                             || (t.app.Some? && Count(old(activeConnectionsPerApp), t.app.value) == 0)
    {
      underflow := ReleaseTicket(t);
      ReturnPermit();
    }
  }

  // ---- Whole runs ----

  /** The limiter with what it is supposed to be counting: the live tickets, the permits of dropped
      tickets on their way back, and how often each address met the application limit. */
  datatype World = World(
    c: Counters,
    live: map<nat, Ticket>,
    nextId: nat,
    returning: nat,
    appRefusals: map<Ip, nat>)

  datatype Step =
    | Connect(addr: Ip, app: Option<App>)
    | Drop(id: nat)
    | PermitReturned

  function Started(l: Limits): World {
    World(Counters(l.instance, map[], map[]), map[], 0, 0, map[])
  }

  function Apply(l: Limits, w: World, step: Step): World {
    match step
    case Connect(addr, app) =>
      var (c, r) := Acquire(l, w.c, addr, app);
      if r.Ok? then w.(c := c, live := w.live[w.nextId := r.value], nextId := w.nextId + 1)
      else if r.error == AppLimitReached
      then w.(c := c, appRefusals := w.appRefusals[addr := Count(w.appRefusals, addr) + 1])
      else w.(c := c)
    case Drop(id) =>
      if id !in w.live then w
      else w.(c := Release(l, w.c, w.live[id]), live := w.live - {id}, returning := w.returning + 1)
    case PermitReturned =>
      if w.returning == 0 then w
      else w.(c := w.c.(permits := w.c.permits + 1), returning := w.returning - 1)
  }

  ghost function Run(l: Limits, steps: seq<Step>): World
    decreases |steps|
  {
    if steps == [] then Started(l) else Apply(l, Run(l, steps[..|steps| - 1]), steps[|steps| - 1])
  }

  function FromIp(live: map<nat, Ticket>, ip: Ip): set<nat> {
    set id | id in live && live[id].addr == ip
  }

  function FromApp(live: map<nat, Ticket>, app: App): set<nat> {
    set id | id in live && live[id].app == Some(app)
  }

  /** An address's counter is its live tickets plus its application refusals, within the limit. */
  ghost predicate IpAccurate(l: Limits, perIp: map<Ip, nat>, live: map<nat, Ticket>, refusals: map<Ip, nat>) {
    && (forall ip :: Count(perIp, ip) == if l.perIp > 0 then |FromIp(live, ip)| + Count(refusals, ip) else 0)
    && (forall ip :: Count(perIp, ip) <= l.perIp)
    && (forall ip | ip in perIp :: perIp[ip] > 0)
  }

  /** An application's counter is its live tickets, within the limit. */
  ghost predicate AppAccurate(l: Limits, perApp: map<App, nat>, live: map<nat, Ticket>) {
    && (forall app :: Count(perApp, app) == |FromApp(live, app)| <= l.AppLimit(app))
    && (forall app | app in perApp :: perApp[app] > 0)
  }

  /** What every step keeps. */
  ghost predicate Accurate(l: Limits, w: World) {
    && (forall id | id in w.live :: id < w.nextId)
    && w.c.permits + |w.live| + w.returning == l.instance
    && IpAccurate(l, w.c.perIp, w.live, w.appRefusals)
    && AppAccurate(l, w.c.perApp, w.live)
  }

  lemma JoinedIp(live: map<nat, Ticket>, id: nat, t: Ticket, ip: Ip)
    requires id !in live
    ensures |FromIp(live[id := t], ip)| == |FromIp(live, ip)| + if t.addr == ip then 1 else 0
  {
    var more := live[id := t];
    if t.addr == ip {
      assert FromIp(more, ip) == FromIp(live, ip) + {id};
    } else {
      assert FromIp(more, ip) == FromIp(live, ip);
    }
  }

  lemma JoinedApp(live: map<nat, Ticket>, id: nat, t: Ticket, app: App)
    requires id !in live
    ensures |FromApp(live[id := t], app)| == |FromApp(live, app)| + if t.app == Some(app) then 1 else 0
  {
    var more := live[id := t];
    if t.app == Some(app) {
      assert FromApp(more, app) == FromApp(live, app) + {id};
    } else {
      assert FromApp(more, app) == FromApp(live, app);
    }
  }

  function IncrementedIf<K>(b: bool, m: map<K, nat>, k: K): map<K, nat> {
    if b then m[k := Count(m, k) + 1] else m
  }

  lemma IpJoins(l: Limits, perIp: map<Ip, nat>, live: map<nat, Ticket>, refusals: map<Ip, nat>, id: nat, t: Ticket)
    requires IpAccurate(l, perIp, live, refusals) && id !in live
    requires l.perIp > 0 ==> Count(perIp, t.addr) < l.perIp
    ensures IpAccurate(l, IncrementedIf(l.perIp > 0, perIp, t.addr), live[id := t], refusals)
  {
    var next := IncrementedIf(l.perIp > 0, perIp, t.addr);
    forall ip
      ensures Count(next, ip) <= l.perIp
      ensures Count(next, ip) == if l.perIp > 0 then |FromIp(live[id := t], ip)| + Count(refusals, ip) else 0
    {
      JoinedIp(live, id, t, ip);
      assert Count(perIp, ip) <= l.perIp;
    }
  }

  lemma IpRefused(l: Limits, perIp: map<Ip, nat>, live: map<nat, Ticket>, refusals: map<Ip, nat>, addr: Ip)
    requires IpAccurate(l, perIp, live, refusals)
    requires l.perIp > 0 ==> Count(perIp, addr) < l.perIp
    ensures IpAccurate(l, IncrementedIf(l.perIp > 0, perIp, addr), live, refusals[addr := Count(refusals, addr) + 1])
  {
    var next := IncrementedIf(l.perIp > 0, perIp, addr);
    forall ip
      ensures Count(next, ip) <= l.perIp
    {
      assert Count(perIp, ip) <= l.perIp;
    }
  }

  lemma AppJoins(l: Limits, perApp: map<App, nat>, live: map<nat, Ticket>, id: nat, t: Ticket)
    requires AppAccurate(l, perApp, live) && id !in live
    requires t.app.Some? ==> Count(perApp, t.app.value) < l.AppLimit(t.app.value)
    ensures AppAccurate(l, if t.app.Some? then perApp[t.app.value := Count(perApp, t.app.value) + 1] else perApp,
                        live[id := t])
  {
    forall app
      ensures |FromApp(live[id := t], app)| == |FromApp(live, app)| + if t.app == Some(app) then 1 else 0
    {
      JoinedApp(live, id, t, app);
    }
  }

  lemma DecrementedCounts<K(!new)>(m: map<K, nat>, k: K)
    requires Count(m, k) > 0 && forall j | j in m :: m[j] > 0
    ensures forall j :: Count(Decremented(m, k), j) == Count(m, j) - if j == k then 1 else 0
    ensures forall j | j in Decremented(m, k) :: Decremented(m, k)[j] > 0
  {
  }

  lemma IpLeaves(l: Limits, perIp: map<Ip, nat>, live: map<nat, Ticket>, refusals: map<Ip, nat>, id: nat, t: Ticket)
    requires IpAccurate(l, perIp, live[id := t], refusals) && id !in live
    ensures IpAccurate(l, if l.perIp > 0 then Decremented(perIp, t.addr) else perIp, live, refusals)
  {
    JoinedIp(live, id, t, t.addr);
    if l.perIp > 0 {
      assert Count(perIp, t.addr) > 0;
      DecrementedCounts(perIp, t.addr);
      forall ip
        ensures |FromIp(live[id := t], ip)| == |FromIp(live, ip)| + if t.addr == ip then 1 else 0
      {
        JoinedIp(live, id, t, ip);
      }
    }
  }

  lemma AppLeaves(l: Limits, perApp: map<App, nat>, live: map<nat, Ticket>, id: nat, t: Ticket)
    requires AppAccurate(l, perApp, live[id := t]) && id !in live
    ensures AppAccurate(l, if t.app.Some? then Decremented(perApp, t.app.value) else perApp, live)
  {
    forall app
      ensures |FromApp(live[id := t], app)| == |FromApp(live, app)| + if t.app == Some(app) then 1 else 0
    {
      JoinedApp(live, id, t, app);
    }
    if t.app.Some? {
      assert Count(perApp, t.app.value) > 0;
      DecrementedCounts(perApp, t.app.value);
    }
  }

  lemma AdmitKeepsAccurate(l: Limits, w: World, addr: Ip, app: Option<App>)
    requires Accurate(l, w) && Acquire(l, w.c, addr, app).1.Ok?
    ensures Accurate(l, Apply(l, w, Connect(addr, app)))
  {
    IpJoins(l, w.c.perIp, w.live, w.appRefusals, w.nextId, Ticket(addr, app));
    AppJoins(l, w.c.perApp, w.live, w.nextId, Ticket(addr, app));
    SizeInsert(w.live, w.nextId, Ticket(addr, app));
  }

  lemma RefuseKeepsAccurate(l: Limits, w: World, addr: Ip, app: Option<App>)
    requires Accurate(l, w) && Acquire(l, w.c, addr, app).1.Err?
    ensures Accurate(l, Apply(l, w, Connect(addr, app)))
  {
    if Acquire(l, w.c, addr, app).1.error == AppLimitReached {
      IpRefused(l, w.c.perIp, w.live, w.appRefusals, addr);
    }
  }

  lemma DropKeepsAccurate(l: Limits, w: World, id: nat)
    requires Accurate(l, w) && id in w.live
    ensures Accurate(l, Apply(l, w, Drop(id)))
  {
    var live, t := w.live - {id}, w.live[id];
    assert live[id := t] == w.live;
    IpLeaves(l, w.c.perIp, live, w.appRefusals, id, t);
    AppLeaves(l, w.c.perApp, live, id, t);
    SizeRemove(w.live, id);
  }

  /** In every run: free permits, live tickets and permits on their way back make up the instance limit;
      an application's counter is its number of live tickets, within its limit; an address's counter is
      its number of live tickets plus the number of times it met the application limit, within the
      limit; no entry is zero. */
  lemma {:induction false} AlwaysAccurate(l: Limits, steps: seq<Step>)
    ensures Accurate(l, Run(l, steps))
    decreases |steps|
  {
    if steps == [] {
    } else {
      var w, step := Run(l, steps[..|steps| - 1]), steps[|steps| - 1];
      AlwaysAccurate(l, steps[..|steps| - 1]);
      match step
      case Connect(addr, app) =>
        if Acquire(l, w.c, addr, app).1.Ok? {
          AdmitKeepsAccurate(l, w, addr, app);
        } else {
          RefuseKeepsAccurate(l, w, addr, app);
        }
      case Drop(id) => if id in w.live { DropKeepsAccurate(l, w, id); }
      case PermitReturned =>
    }
  }

  /** Dropping a live ticket never meets an underflow. */
  lemma NoUnderflow(l: Limits, steps: seq<Step>, id: nat)
    requires id in Run(l, steps).live
    ensures var w := Run(l, steps);
            var t := w.live[id];
            && (l.perIp > 0 ==> Count(w.c.perIp, t.addr) > 0)
            && (t.app.Some? ==> Count(w.c.perApp, t.app.value) > 0)
  {
    AlwaysAccurate(l, steps);
    var w := Run(l, steps);
    var t := w.live[id];
    assert id in FromIp(w.live, t.addr);
    if t.app.Some? {
      assert id in FromApp(w.live, t.app.value);
    }
  }

  /** Exactly who is admitted, in terms of connections rather than counters. */
  lemma AdmittedIff(l: Limits, steps: seq<Step>, addr: Ip, app: Option<App>)
    ensures var w := Run(l, steps);
            Acquire(l, w.c, addr, app).1.Ok? <==>
              && |w.live| + w.returning < l.instance
              && (l.perIp > 0 ==> |FromIp(w.live, addr)| + Count(w.appRefusals, addr) < l.perIp)
              && (app.Some? ==> |FromApp(w.live, app.value)| < l.AppLimit(app.value))
  {
    AlwaysAccurate(l, steps);
  }

  /** What an attempt is told, in terms of connections: the limits count in this order, an application
      without a limit of its own is never admitted, and a ticket is for the address and application that
      asked. */
  lemma AnsweredWith(l: Limits, steps: seq<Step>, addr: Ip, app: Option<App>)
    ensures var w := Run(l, steps);
            var r := Acquire(l, w.c, addr, app).1;
            var full := |w.live| + w.returning >= l.instance;
            var ipFull := l.perIp > 0 && |FromIp(w.live, addr)| + Count(w.appRefusals, addr) >= l.perIp;
            var appLimit := if app.Some? && app.value in l.perApp then l.perApp[app.value] else 0;
            var appFull := app.Some? && |FromApp(w.live, app.value)| >= appLimit;
            r == if full then Err(GlobalLimit)
                 else if ipFull then Err(IpLimit)
                 else if appFull then Err(AppLimitReached)
                 else Ok(Ticket(addr, app))
  {
    AlwaysAccurate(l, steps);
    var w := Run(l, steps);
    assert app.Some? ==> Count(w.c.perApp, app.value) == |FromApp(w.live, app.value)|;
  }

  lemma {:induction false} RefusalsGrow(l: Limits, steps: seq<Step>, n: nat, addr: Ip)
    requires n <= |steps|
    ensures Count(Run(l, steps[..n]).appRefusals, addr) <= Count(Run(l, steps).appRefusals, addr)
    decreases |steps|
  {
    if n == |steps| {
      assert steps[..n] == steps;
    } else {
      RefusalsGrow(l, steps[..|steps| - 1], n, addr);
      assert steps[..|steps| - 1][..n] == steps[..n];
    }
  }

  /** The leaked counts are permanent: an address that has met the application limit as often as the
      address limit allows connections is never admitted again, even with no connection of its own. */
  lemma LockedOutForever(l: Limits, steps: seq<Step>, n: nat, addr: Ip, app: Option<App>)
    requires n <= |steps| && l.perIp > 0
    requires Count(Run(l, steps[..n]).appRefusals, addr) >= l.perIp
    ensures Acquire(l, Run(l, steps).c, addr, app).1.Err?
  {
    RefusalsGrow(l, steps, n, addr);
    AdmittedIff(l, steps, addr, app);
  }

  lemma RunMore(l: Limits, steps: seq<Step>, step: Step)
    ensures Run(l, steps + [step]) == Apply(l, Run(l, steps), step)
  {
    assert (steps + [step])[..|steps|] == steps;
  }

  /** Brings an application to n connections, each from an address of its own other than addr. */
  lemma {:induction false} FillApp(l: Limits, addr: Ip, app: App, n: nat) returns (steps: seq<Step>)
    requires l.perIp > 0 && n <= l.AppLimit(app) < l.instance
    ensures var w := Run(l, steps);
            && |w.live| == |FromApp(w.live, app)| == n && w.returning == 0 && w.appRefusals == map[]
            && forall ip: Ip | ip <= addr || addr + n < ip :: FromIp(w.live, ip) == {}
    decreases n
  {
    if n == 0 {
      steps := [];
      assert Run(l, steps).live == map[];
    } else {
      var before := FillApp(l, addr, app, n - 1);
      var w, ip := Run(l, before), addr + n;
      AlwaysAccurate(l, before);
      assert FromIp(w.live, ip) == {};
      AdmittedIff(l, before, ip, Some(app));
      steps := before + [Connect(ip, Some(app))];
      RunMore(l, before, Connect(ip, Some(app)));
      JoinedApp(w.live, w.nextId, Ticket(ip, Some(app)), app);
      SizeInsert(w.live, w.nextId, Ticket(ip, Some(app)));
      forall other: Ip | other != ip
        ensures FromIp(Run(l, steps).live, other) == FromIp(w.live, other)
      {
      }
    }
  }

  /** With an application at its limit and a permit left, connecting to it again and again raises the
      address's counter to the limit, one refusal at a time, and changes no connection. */
  lemma {:induction false} Refused(l: Limits, steps: seq<Step>, addr: Ip, app: App, n: nat) returns (more: seq<Step>)
    requires l.perIp > 0 && Run(l, steps).appRefusals == map[] && n <= l.perIp
    requires var w := Run(l, steps);
             && |w.live| + w.returning < l.instance && FromIp(w.live, addr) == {}
             && |FromApp(w.live, app)| == l.AppLimit(app)
    ensures var w := Run(l, more);
            && w.live == Run(l, steps).live && w.returning == Run(l, steps).returning
            && Count(w.appRefusals, addr) == n
    decreases n
  {
    if n == 0 {
      more := steps;
    } else {
      var before := Refused(l, steps, addr, app, n - 1);
      more := before + [Connect(addr, Some(app))];
      AlwaysAccurate(l, before);
      RunMore(l, before, Connect(addr, Some(app)));
    }
  }

  /** A lock-out is reachable through every application whose limit is below the instance limit: some run
      leaves the address without a connection, and it is refused ever after. */
  lemma LockOutReachable(l: Limits, addr: Ip, app: App) returns (steps: seq<Step>)
    requires l.perIp > 0 && l.AppLimit(app) < l.instance
    ensures FromIp(Run(l, steps).live, addr) == {} && Count(Run(l, steps).appRefusals, addr) == l.perIp
    ensures forall more, other :: Acquire(l, Run(l, steps + more).c, addr, other).1.Err?
  {
    var filled := FillApp(l, addr, app, l.AppLimit(app));
    steps := Refused(l, filled, addr, app, l.perIp);
    forall more: seq<Step>, other: Option<App>
      ensures Acquire(l, Run(l, steps + more).c, addr, other).1.Err?
    {
      assert (steps + more)[..|steps|] == steps;
      LockedOutForever(l, steps + more, |steps|, addr, other);
    }
  }

  /** And through no other: an application whose limit is not below the instance limit never refuses. */
  lemma RefusalNeedsRoom(l: Limits, steps: seq<Step>, addr: Ip, app: App)
    requires Acquire(l, Run(l, steps).c, addr, Some(app)).1 == Err(AppLimitReached)
    ensures l.AppLimit(app) < l.instance
  {
    AlwaysAccurate(l, steps);
    var live := Run(l, steps).live;
    assert FromApp(live, app) <= live.Keys;
    assert |FromApp(live, app)| <= |live.Keys| by {
      assert live.Keys == FromApp(live, app) + (live.Keys - FromApp(live, app));
    }
  }

  /** Where no application refusal has occurred, address counters are exact and an idle limiter is empty. */
  lemma ExactWithoutRefusals(l: Limits, steps: seq<Step>)
    requires Run(l, steps).appRefusals == map[]
    ensures var w := Run(l, steps);
            && (forall ip :: l.perIp > 0 ==> Count(w.c.perIp, ip) == |FromIp(w.live, ip)|)
            && (w.live == map[] ==> w.c.perIp == map[] && w.c.perApp == map[])
  {
    AlwaysAccurate(l, steps);
    var w := Run(l, steps);
    if w.live == map[] {
      forall ip
        ensures ip !in w.c.perIp
      {
        assert FromIp(w.live, ip) == {};
        assert Count(w.c.perIp, ip) == 0;
      }
      forall app
        ensures app !in w.c.perApp
      {
        assert FromApp(w.live, app) == {};
        assert Count(w.c.perApp, app) == 0;
      }
    }
  }
}
