/** The limiter shared by several instances through Redis. An instance reads the total over all instances'
    counters, and only later increments its own; other instances may act in between. Every Redis command
    is a step here, except that reading a total is one step. */
module RedisRateLimit {
  import opened Wrappers
  import opened MapSum
  import opened RateLimit

  type Instance = nat

  /** The counters of one address or application, by instance. DECR can leave a value below zero. */
  type Row = map<Instance, int>

  /** What a reader sees: a value that is not an unsigned number reads as zero. */
  function Visible(v: int): nat {
    if v < 0 then 0 else v
  }

  function Clipped(row: Row): map<Instance, int> {
    map i | i in row :: Visible(row[i])
  }

  ghost function Total(row: Row): int {
    Sum(Clipped(row))
  }

  function Value(row: Row, i: Instance): int {
    if i in row then row[i] else 0
  }

  function Incr(row: Row, i: Instance): Row {
    row[i := Value(row, i) + 1]
  }

  function Decr(row: Row, i: Instance): Row {
    row[i := Value(row, i) - 1]
  }

  /** The scan of try_acquire: it visits the row's keys in any order and adds up what it reads. */
  method ScanTotal(row: Row) returns (total: nat)
    ensures total == Total(row)
  {
    total := 0;
    var left := row.Keys;
    ghost var seen: set<Instance> := {};
    while left != {}
      invariant left <= row.Keys && seen == row.Keys - left
      invariant total == SumOver(Clipped(row), seen)
      decreases left
    {
      var i :| i in left;
      SumOverRemove(Clipped(row), seen + {i}, i);
      assert seen + {i} - {i} == seen;
      total := total + Visible(row[i]);
      left, seen := left - {i}, seen + {i};
    }
    assert seen == Clipped(row).Keys;
  }

  lemma TotalUpdate(row: Row, i: Instance, v: int)
    ensures Total(row[i := v]) == Total(row) + Visible(v) - Visible(Value(row, i))
  {
    assert Clipped(row[i := v]) == Clipped(row)[i := Visible(v)];
    SumUpdate(Clipped(row), i, Visible(v));
  }

  lemma TotalDelete(row: Row, i: Instance)
    ensures Total(row - {i}) == Total(row) - Visible(Value(row, i))
  {
    if i in row {
      assert (row - {i})[i := row[i]] == row;
      TotalUpdate(row - {i}, i, row[i]);
    } else {
      assert row - {i} == row;
    }
  }

  lemma IncrTotal(row: Row, i: Instance)
    requires Value(row, i) >= 0
    ensures Total(Incr(row, i)) == Total(row) + 1
  {
    TotalUpdate(row, i, Value(row, i) + 1);
  }

  /** How one command can change a row. */
  ghost predicate Changes(row: Row, next: Row, i: Instance, settles: bool) {
    next == row || (settles && next == Incr(row, i)) || next == Decr(row, i) || next == row - {i}
  }

  lemma ChangeTotal(row: Row, next: Row, i: Instance, settles: bool)
    requires Changes(row, next, i, settles)
    ensures Total(next) <= Total(row) + if settles then 1 else 0
  {
    TotalUpdate(row, i, Value(row, i) + 1);
    TotalUpdate(row, i, Value(row, i) - 1);
    TotalDelete(row, i);
  }

  // ---- The shared system ----

  datatype Phase = IpChecked | IpCounted | AppChecked

  datatype Attempt = Attempt(inst: Instance, addr: Ip, app: Option<App>, phase: Phase)

  datatype Held = Held(inst: Instance, addr: Ip, app: Option<App>)

  datatype Shared = Shared(
    ips: map<Ip, Row>,
    apps: map<App, Row>,
    attempts: map<nat, Attempt>,
    live: map<nat, Held>,
    nextId: nat)

  const STARTED := Shared(map[], map[], map[], map[], 0)

  function IpRow(s: Shared, addr: Ip): Row {
    if addr in s.ips then s.ips[addr] else map[]
  }

  function AppRow(s: Shared, app: App): Row {
    if app in s.apps then s.apps[app] else map[]
  }

  /** What becomes of an INCR: it takes effect, takes effect but its reply is an error, or fails. */
  datatype Effect = Applied | ReplyLost | NotApplied

  datatype Step =
    | Begin(inst: Instance, addr: Ip, app: Option<App>)
    | CountIp(id: nat, effect: Effect)
    | Proceed(id: nat)
    | CountApp(id: nat, effect: Effect)
    | Release(id: nat, ipDone: bool, appDone: bool)
    | DeleteIp(addr: Ip, inst: Instance)
    | DeleteApp(deletedApp: App, inst: Instance)

  function Finish(s: Shared, id: nat): Shared
    requires id in s.attempts
  {
    var a := s.attempts[id];
    s.(attempts := s.attempts - {id}, live := s.live[id := Held(a.inst, a.addr, a.app)])
  }

  function GiveUp(s: Shared, id: nat): Shared {
    s.(attempts := s.attempts - {id})
  }

  /** The check of the address total; passing it puts the attempt on its way. */
  ghost function Begun(l: Limits, s: Shared, inst: Instance, addr: Ip, app: Option<App>): Shared {
    if l.perIp > 0 && Total(IpRow(s, addr)) >= l.perIp then s
    else s.(attempts := s.attempts[s.nextId := Attempt(inst, addr, app, if l.perIp > 0 then IpChecked else IpCounted)],
            nextId := s.nextId + 1)
  }

  /** INCR of the address counter of an attempt that passed the check. */
  function IpSettled(s: Shared, id: nat, effect: Effect): Shared {
    if id !in s.attempts || s.attempts[id].phase != IpChecked then s
    else
      var a := s.attempts[id];
      var counted := if effect == NotApplied then s else s.(ips := s.ips[a.addr := Incr(IpRow(s, a.addr), a.inst)]);
      if effect == Applied then counted.(attempts := s.attempts[id := a.(phase := IpCounted)]) else GiveUp(counted, id)
  }

  /** The check of the application total; without an application the ticket is granted. */
  ghost function Proceeded(l: Limits, s: Shared, id: nat): Shared {
    if id !in s.attempts || s.attempts[id].phase != IpCounted then s
    else
      var a := s.attempts[id];
      if a.app.None? then Finish(s, id)
      else if Total(AppRow(s, a.app.value)) >= l.AppLimit(a.app.value) then GiveUp(s, id)
      else s.(attempts := s.attempts[id := a.(phase := AppChecked)])
  }

  /** INCR of the application counter; the ticket is granted if it succeeds. */
  function AppSettled(s: Shared, id: nat, effect: Effect): Shared {
    if id !in s.attempts || s.attempts[id].phase != AppChecked || s.attempts[id].app.None? then s
    else
      var a := s.attempts[id];
      var app := a.app.value;
      var counted := if effect == NotApplied then s else s.(apps := s.apps[app := Incr(AppRow(s, app), a.inst)]);
      if effect == Applied then Finish(counted, id) else GiveUp(counted, id)
  }

  /** DECR of both counters of a dropped ticket, either of which may fail. */
  function Released(l: Limits, s: Shared, id: nat, ipDone: bool, appDone: bool): Shared {
    if id !in s.live then s
    else
      var h := s.live[id];
      var ips := if l.perIp > 0 && ipDone then s.ips[h.addr := Decr(IpRow(s, h.addr), h.inst)] else s.ips;
      var apps :=
        if h.app.Some? && appDone then s.apps[h.app.value := Decr(AppRow(s, h.app.value), h.inst)] else s.apps;
      s.(ips := ips, apps := apps, live := s.live - {id})
  }

  /** One step of the system; a step that does not apply has no effect. */
  ghost function Apply(l: Limits, s: Shared, step: Step): Shared {
    match step
    case Begin(inst, addr, app) => Begun(l, s, inst, addr, app)
    case CountIp(id, effect) => IpSettled(s, id, effect)
    case Proceed(id) => Proceeded(l, s, id)
    case CountApp(id, effect) => AppSettled(s, id, effect)
    case Release(id, ipDone, appDone) => Released(l, s, id, ipDone, appDone)
    case DeleteIp(addr, inst) => s.(ips := s.ips[addr := IpRow(s, addr) - {inst}])
    case DeleteApp(app, inst) => s.(apps := s.apps[app := AppRow(s, app) - {inst}])
  }

  ghost function Run(l: Limits, steps: seq<Step>): Shared
    decreases |steps|
  {
    if steps == [] then STARTED else Apply(l, Run(l, steps[..|steps| - 1]), steps[|steps| - 1])
  }

  /** Attempts of an address that have passed the check and not yet incremented. */
  function PendingIp(s: Shared, addr: Ip): set<nat> {
    set id | id in s.attempts && s.attempts[id].addr == addr && s.attempts[id].phase == IpChecked
  }

  function PendingApp(s: Shared, app: App): set<nat> {
    set id | id in s.attempts && s.attempts[id].app == Some(app) && s.attempts[id].phase == AppChecked
  }

  /** The most attempts of the address that were ever pending at once. */
  ghost function PeakIp(l: Limits, steps: seq<Step>, addr: Ip): nat
    decreases |steps|
  {
    var now := |PendingIp(Run(l, steps), addr)|;
    if steps == [] then now
    else
      var before := PeakIp(l, steps[..|steps| - 1], addr);
      if now < before then before else now
  }

  ghost function PeakApp(l: Limits, steps: seq<Step>, app: App): nat
    decreases |steps|
  {
    var now := |PendingApp(Run(l, steps), app)|;
    if steps == [] then now
    else
      var before := PeakApp(l, steps[..|steps| - 1], app);
      if now < before then before else now
  }

  /** The step increments the counter of a pending attempt of the address (or abandons it). */
  predicate SettlesIp(s: Shared, step: Step, addr: Ip) {
    step.CountIp? && step.id in PendingIp(s, addr)
  }

  /** The step decrements the address's counter for a connection that is dropped. */
  predicate Returns(s: Shared, step: Step, addr: Ip) {
    step.Release? && step.id in s.live && s.live[step.id].addr == addr && step.ipDone
  }

  /** How the address's row changes: INCR by a pending attempt, DECR by a dropped connection, deletion. */
  ghost predicate RowChange(s: Shared, t: Shared, step: Step, addr: Ip) {
    var row, next := IpRow(s, addr), IpRow(t, addr);
    if SettlesIp(s, step, addr) && step.effect != NotApplied then next == Incr(row, s.attempts[step.id].inst)
    else if Returns(s, step, addr) then next == Decr(row, s.live[step.id].inst)
    else if step.DeleteIp? && step.addr == addr then next == row - {step.inst}
    else next == row
  }

  lemma SettleRow(l: Limits, s: Shared, step: Step, addr: Ip)
    requires step.CountIp?
    ensures RowChange(s, Apply(l, s, step), step, addr)
  {
  }

  lemma ReleaseRow(l: Limits, s: Shared, step: Step, addr: Ip)
    requires l.perIp > 0 && step.Release?
    ensures RowChange(s, Apply(l, s, step), step, addr)
  {
  }

  lemma RowStep(l: Limits, s: Shared, step: Step, addr: Ip)
    requires l.perIp > 0
    ensures RowChange(s, Apply(l, s, step), step, addr)
  {
    if step.CountIp? {
      SettleRow(l, s, step, addr);
    } else if step.Release? {
      ReleaseRow(l, s, step, addr);
    } else if !step.DeleteIp? {
      assert Apply(l, s, step).ips == s.ips;
    }
  }

  lemma IpTotalStep(l: Limits, s: Shared, step: Step, addr: Ip)
    requires l.perIp > 0
    ensures Total(IpRow(Apply(l, s, step), addr)) <= Total(IpRow(s, addr)) + if SettlesIp(s, step, addr) then 1 else 0
  {
    var row, next := IpRow(s, addr), IpRow(Apply(l, s, step), addr);
    RowStep(l, s, step, addr);
    var i := if SettlesIp(s, step, addr) then s.attempts[step.id].inst
             else if Returns(s, step, addr) then s.live[step.id].inst
             else if step.DeleteIp? then step.inst else 0;
    ChangeTotal(row, next, i, SettlesIp(s, step, addr));
  }

  lemma IpPendingStep(l: Limits, s: Shared, step: Step, addr: Ip)
    ensures var t := Apply(l, s, step);
            if SettlesIp(s, step, addr) then PendingIp(t, addr) == PendingIp(s, addr) - {step.id}
            else step.Begin? || PendingIp(t, addr) <= PendingIp(s, addr)
  {
  }

  lemma BeginStep(l: Limits, s: Shared, step: Step, addr: Ip)
    requires l.perIp > 0 && step.Begin?
    ensures PendingIp(Apply(l, s, step), addr) <= PendingIp(s, addr) || Total(IpRow(Apply(l, s, step), addr)) < l.perIp
  {
    if step.addr != addr {
      assert PendingIp(Apply(l, s, step), addr) <= PendingIp(s, addr);
    }
  }

  lemma Fewer(a: set<nat>, b: set<nat>)
    requires a <= b
    ensures |a| <= |b|
  {
    assert b == a + (b - a);
  }

  /** Except by a check that saw the limit not yet reached, no step raises total plus pending. */
  lemma IpStep(l: Limits, s: Shared, step: Step, addr: Ip)
    requires l.perIp > 0
    ensures var t := Apply(l, s, step);
            || Total(IpRow(t, addr)) + |PendingIp(t, addr)| <= Total(IpRow(s, addr)) + |PendingIp(s, addr)|
            || Total(IpRow(t, addr)) < l.perIp
  {
    var t := Apply(l, s, step);
    IpTotalStep(l, s, step, addr);
    IpPendingStep(l, s, step, addr);
    if step.Begin? {
      BeginStep(l, s, step, addr);
    }
    if PendingIp(t, addr) <= PendingIp(s, addr) {
      Fewer(PendingIp(t, addr), PendingIp(s, addr));
    }
  }

  /** The overshoot bound: however many instances there are and however their commands, failures,
      releases and deletions of counters interleave, the stored total of an address plus its attempts
      past the check stays below the limit plus the peak number of such attempts. With at most K at
      once it never exceeds limit + K - 1; with one at a time it never exceeds the limit. */
  lemma {:induction false} IpOvershoot(l: Limits, steps: seq<Step>, addr: Ip)
    requires l.perIp > 0
    ensures Total(IpRow(Run(l, steps), addr)) + |PendingIp(Run(l, steps), addr)| < l.perIp + PeakIp(l, steps, addr)
    decreases |steps|
  {
    if steps == [] {
      assert PendingIp(STARTED, addr) == {};
    } else {
      IpOvershoot(l, steps[..|steps| - 1], addr);
      IpStep(l, Run(l, steps[..|steps| - 1]), steps[|steps| - 1], addr);
    }
  }

  /** The step increments the counter of a pending attempt of the application (or abandons it). */
  predicate SettlesApp(s: Shared, step: Step, app: App) {
    step.CountApp? && step.id in PendingApp(s, app)
  }

  /** The step decrements the application's counter for a connection that is dropped. */
  predicate ReturnsApp(s: Shared, step: Step, app: App) {
    step.Release? && step.id in s.live && s.live[step.id].app == Some(app) && step.appDone
  }

  /** How the application's row changes: INCR by a pending attempt, DECR by a dropped connection, deletion. */
  ghost predicate AppRowChange(s: Shared, t: Shared, step: Step, app: App) {
    var row, next := AppRow(s, app), AppRow(t, app);
    if SettlesApp(s, step, app) && step.effect != NotApplied then next == Incr(row, s.attempts[step.id].inst)
    else if ReturnsApp(s, step, app) then next == Decr(row, s.live[step.id].inst)
    else if step.DeleteApp? && step.deletedApp == app then next == row - {step.inst}
    else next == row
  }

  lemma SettleAppRow(l: Limits, s: Shared, step: Step, app: App)
    requires step.CountApp?
    ensures AppRowChange(s, Apply(l, s, step), step, app)
  {
  }

  lemma ReleaseAppRow(l: Limits, s: Shared, step: Step, app: App)
    requires step.Release?
    ensures AppRowChange(s, Apply(l, s, step), step, app)
  {
  }

  lemma AppRowStep(l: Limits, s: Shared, step: Step, app: App)
    ensures AppRowChange(s, Apply(l, s, step), step, app)
  {
    if step.CountApp? {
      SettleAppRow(l, s, step, app);
    } else if step.Release? {
      ReleaseAppRow(l, s, step, app);
    } else if !step.DeleteApp? {
      assert Apply(l, s, step).apps == s.apps;
    }
  }

  lemma AppTotalStep(l: Limits, s: Shared, step: Step, app: App)
    ensures Total(AppRow(Apply(l, s, step), app)) <= Total(AppRow(s, app)) + if SettlesApp(s, step, app) then 1 else 0
  {
    var row, next := AppRow(s, app), AppRow(Apply(l, s, step), app);
    AppRowStep(l, s, step, app);
    var i := if SettlesApp(s, step, app) then s.attempts[step.id].inst
             else if ReturnsApp(s, step, app) then s.live[step.id].inst
             else if step.DeleteApp? then step.inst else 0;
    ChangeTotal(row, next, i, SettlesApp(s, step, app));
  }

  lemma AppPendingStep(l: Limits, s: Shared, step: Step, app: App)
    ensures var t := Apply(l, s, step);
            if SettlesApp(s, step, app) then PendingApp(t, app) == PendingApp(s, app) - {step.id}
            else step.Proceed? || PendingApp(t, app) <= PendingApp(s, app)
  {
  }

  lemma ProceedStep(l: Limits, s: Shared, step: Step, app: App)
    requires step.Proceed?
    ensures || PendingApp(Apply(l, s, step), app) <= PendingApp(s, app)
            || Total(AppRow(Apply(l, s, step), app)) < l.AppLimit(app)
  {
    if !(PendingApp(Apply(l, s, step), app) <= PendingApp(s, app)) {
      assert step.id in s.attempts;
    }
  }

  /** Except by a check that saw the limit not yet reached, no step raises total plus pending. */
  lemma AppStep(l: Limits, s: Shared, step: Step, app: App)
    ensures var t := Apply(l, s, step);
            || Total(AppRow(t, app)) + |PendingApp(t, app)| <= Total(AppRow(s, app)) + |PendingApp(s, app)|
            || Total(AppRow(t, app)) < l.AppLimit(app)
  {
    var t := Apply(l, s, step);
    AppTotalStep(l, s, step, app);
    AppPendingStep(l, s, step, app);
    if step.Proceed? {
      ProceedStep(l, s, step, app);
    }
    if PendingApp(t, app) <= PendingApp(s, app) {
      Fewer(PendingApp(t, app), PendingApp(s, app));
    }
  }

  /** The same bound for application totals; an application without a limit of its own has limit 0 and
      its total stays 0. */
  lemma {:induction false} AppOvershoot(l: Limits, steps: seq<Step>, app: App)
    ensures var total := Total(AppRow(Run(l, steps), app)) + |PendingApp(Run(l, steps), app)|;
            total <= 0 || total < l.AppLimit(app) + PeakApp(l, steps, app)
    decreases |steps|
  {
    if steps == [] {
      assert PendingApp(STARTED, app) == {};
    } else {
      AppOvershoot(l, steps[..|steps| - 1], app);
      AppStep(l, Run(l, steps[..|steps| - 1]), steps[|steps| - 1], app);
    }
  }

  // ---- From stored totals to connections ----

  /** The members of a group that sit at an instance. */
  function AtInstance(held: map<nat, Instance>, i: Instance): set<nat> {
    set id | id in held && held[id] == i
  }

  lemma {:induction false} TotalNonNegative(row: Row)
    ensures Total(row) >= 0
    decreases |row|
  {
    if row == map[] {
      EmptyTotal();
    } else {
      var i :| i in row;
      SizeRemove(row, i);
      TotalNonNegative(row - {i});
      TotalDelete(row, i);
    }
  }

  /** If every instance's counter covers the members that sit there, the total covers the group. */
  lemma {:induction false} HeldWithinTotal(held: map<nat, Instance>, row: Row)
    requires forall i :: |AtInstance(held, i)| <= Visible(Value(row, i))
    ensures |held| <= Total(row)
    decreases |held|
  {
    if held == map[] {
      TotalNonNegative(row);
    } else {
      var id :| id in held;
      var i := held[id];
      var here := AtInstance(held, i);
      var rest := held - here;
      assert id in here;
      assert rest.Keys == held.Keys - here && here <= held.Keys;
      assert |rest| == |rest.Keys| == |held.Keys| - |here|;
      forall k
        ensures |AtInstance(rest, k)| <= Visible(Value(row - {i}, k))
      {
        assert AtInstance(rest, k) == if k == i then {} else AtInstance(held, k);
      }
      HeldWithinTotal(rest, row - {i});
      TotalDelete(row, i);
    }
  }

  /** The connection or attempt that a unit of an address counter stands for. */
  function Counted(s: Shared, id: nat): Option<Held> {
    if id in s.live then Some(s.live[id])
    else if id in s.attempts && s.attempts[id].phase != IpChecked
    then Some(Held(s.attempts[id].inst, s.attempts[id].addr, s.attempts[id].app))
    else None
  }

  function HoldersAt(s: Shared, addr: Ip, i: Instance): set<nat> {
    set id | id in s.live.Keys + s.attempts.Keys && Counted(s, id).Some?
             && Counted(s, id).value.addr == addr && Counted(s, id).value.inst == i
  }

  function Holders(s: Shared, addr: Ip): set<nat> {
    set id | id in s.live.Keys + s.attempts.Keys && Counted(s, id).Some? && Counted(s, id).value.addr == addr
  }

  function Connections(s: Shared, addr: Ip): set<nat> {
    set id | id in s.live && s.live[id].addr == addr
  }

  ghost predicate FreshIds(s: Shared) {
    && (forall id | id in s.live :: id < s.nextId)
    && (forall id | id in s.attempts :: id < s.nextId)
    && s.live.Keys !! s.attempts.Keys
  }

  /** Every counter of the address covers the holders at its instance. */
  ghost predicate Covered(s: Shared, addr: Ip) {
    FreshIds(s) && forall i :: |HoldersAt(s, addr, i)| <= Value(IpRow(s, addr), i)
  }

  /** Which instance each holder of the address sits at. */
  function Placement(s: Shared, addr: Ip): map<nat, Instance> {
    map id | id in Holders(s, addr) :: Counted(s, id).value.inst
  }

  lemma PlacementAt(s: Shared, addr: Ip, i: Instance)
    ensures AtInstance(Placement(s, addr), i) == HoldersAt(s, addr, i)
  {
  }

  lemma HoldersWithinTotal(s: Shared, addr: Ip)
    requires Covered(s, addr)
    ensures |Holders(s, addr)| <= Total(IpRow(s, addr))
  {
    var held, row := Placement(s, addr), IpRow(s, addr);
    forall i
      ensures |AtInstance(held, i)| <= Visible(Value(row, i))
    {
      PlacementAt(s, addr, i);
      assert |HoldersAt(s, addr, i)| <= Value(row, i);
    }
    HeldWithinTotal(held, row);
    assert held.Keys == Holders(s, addr);
  }

  /** The step that adds a holder of the address. */
  predicate Takes(s: Shared, step: Step, addr: Ip) {
    SettlesIp(s, step, addr) && step.effect == Applied
  }

  lemma FreshIdsStep(l: Limits, s: Shared, step: Step)
    requires FreshIds(s)
    ensures FreshIds(Apply(l, s, step))
  {
  }

  /** Only Takes adds a holder, and Returns removes one. */
  ghost predicate CountedChange(s: Shared, t: Shared, step: Step, addr: Ip, id: nat) {
    var before, after := Counted(s, id), Counted(t, id);
    && (after.Some? && after.value.addr == addr && !(Takes(s, step, addr) && id == step.id) ==> after == before)
    && (Takes(s, step, addr) && id == step.id ==> after.Some? && after.value.inst == s.attempts[id].inst)
    && (Returns(s, step, addr) && id == step.id ==> before == Some(s.live[id]) && after.None?)
  }

  lemma CountedBySettling(l: Limits, s: Shared, step: Step, addr: Ip, id: nat)
    requires l.perIp > 0 && FreshIds(s) && step.CountIp?
    ensures CountedChange(s, Apply(l, s, step), step, addr, id)
  {
  }

  lemma CountedByGrant(l: Limits, s: Shared, step: Step, addr: Ip, id: nat)
    requires FreshIds(s) && (step.Proceed? || step.CountApp?)
    ensures CountedChange(s, Apply(l, s, step), step, addr, id)
  {
  }

  lemma CountedByRelease(l: Limits, s: Shared, step: Step, addr: Ip, id: nat)
    requires FreshIds(s) && step.Release?
    ensures CountedChange(s, Apply(l, s, step), step, addr, id)
  {
  }

  lemma CountedStep(l: Limits, s: Shared, step: Step, addr: Ip, id: nat)
    requires l.perIp > 0 && FreshIds(s)
    ensures CountedChange(s, Apply(l, s, step), step, addr, id)
  {
    match step
    case CountIp(_, _) => CountedBySettling(l, s, step, addr, id);
    case Proceed(_) => CountedByGrant(l, s, step, addr, id);
    case CountApp(_, _) => CountedByGrant(l, s, step, addr, id);
    case Release(_, _, _) => CountedByRelease(l, s, step, addr, id);
    case _ =>
  }

  /** Sizes of sets that differ by at most one element coming or going. */
  lemma Shift(before: set<nat>, after: set<nat>, id: nat, comes: bool, goes: bool)
    requires forall x | x in after :: x in before || (comes && x == id)
    requires goes ==> id in before && id !in after
    ensures |after| <= |before| + (if comes then 1 else 0) - if goes then 1 else 0
  {
    if goes {
      Fewer(after, before - {id});
    } else if comes {
      Fewer(after, before + {id});
    } else {
      Fewer(after, before);
    }
  }

  lemma HoldersAtStep(s: Shared, t: Shared, step: Step, addr: Ip, i: Instance)
    requires forall id :: CountedChange(s, t, step, addr, id)
    ensures var comes := Takes(s, step, addr) && s.attempts[step.id].inst == i;
            var goes := Returns(s, step, addr) && s.live[step.id].inst == i;
            |HoldersAt(t, addr, i)| <= |HoldersAt(s, addr, i)| + (if comes then 1 else 0) - if goes then 1 else 0
  {
    var comes := Takes(s, step, addr) && s.attempts[step.id].inst == i;
    var goes := Returns(s, step, addr) && s.live[step.id].inst == i;
    var id := if comes || goes then step.id else 0;
    forall x | x in HoldersAt(t, addr, i)
      ensures x in HoldersAt(s, addr, i) || (comes && x == id)
    {
      assert CountedChange(s, t, step, addr, x);
    }
    if goes {
      assert CountedChange(s, t, step, addr, id);
    }
    Shift(HoldersAt(s, addr, i), HoldersAt(t, addr, i), id, comes, goes);
  }

  /** The step deletes a counter of the address. */
  predicate Deletes(step: Step, addr: Ip) {
    step.DeleteIp? && step.addr == addr
  }

  lemma CoveredAt(s: Shared, t: Shared, step: Step, addr: Ip, i: Instance)
    requires |HoldersAt(s, addr, i)| <= Value(IpRow(s, addr), i) && RowChange(s, t, step, addr)
    requires Deletes(step, addr) ==> HoldersAt(s, addr, step.inst) == {}
    requires forall id :: CountedChange(s, t, step, addr, id)
    ensures |HoldersAt(t, addr, i)| <= Value(IpRow(t, addr), i)
  {
    HoldersAtStep(s, t, step, addr, i);
  }

  lemma CoveredStep(l: Limits, s: Shared, step: Step, addr: Ip)
    requires l.perIp > 0 && Covered(s, addr)
    requires Deletes(step, addr) ==> HoldersAt(s, addr, step.inst) == {}
    ensures Covered(Apply(l, s, step), addr)
  {
    FreshIdsStep(l, s, step);
    RowStep(l, s, step, addr);
    forall id
      ensures CountedChange(s, Apply(l, s, step), step, addr, id)
    {
      CountedStep(l, s, step, addr, id);
    }
    var t := Apply(l, s, step);
    forall i
      ensures |HoldersAt(t, addr, i)| <= Value(IpRow(t, addr), i)
    {
      CoveredAt(s, t, step, addr, i);
    }
  }

  /** Exactly which steps break the cover: a deletion of the counter of an instance that still has a
      connection of the address, or an attempt that has counted it. */
  lemma CoverKeptIff(l: Limits, s: Shared, step: Step, addr: Ip)
    requires l.perIp > 0 && Covered(s, addr)
    ensures Covered(Apply(l, s, step), addr) <==> (Deletes(step, addr) ==> HoldersAt(s, addr, step.inst) == {})
  {
    if Deletes(step, addr) && HoldersAt(s, addr, step.inst) != {} {
      var t := Apply(l, s, step);
      assert HoldersAt(t, addr, step.inst) == HoldersAt(s, addr, step.inst);
      assert Value(IpRow(t, addr), step.inst) == 0;
    } else {
      CoveredStep(l, s, step, addr);
    }
  }

  /** Every deletion of a counter of the address hits an instance that holds nothing of it. */
  ghost predicate DeletesOnlyIdle(l: Limits, steps: seq<Step>, addr: Ip) {
    forall k | 0 <= k < |steps| && Deletes(steps[k], addr) ::
      HoldersAt(Run(l, steps[..k]), addr, steps[k].inst) == {}
  }

  lemma {:induction false} AlwaysCovered(l: Limits, steps: seq<Step>, n: nat, addr: Ip)
    requires l.perIp > 0 && DeletesOnlyIdle(l, steps, addr) && n <= |steps|
    ensures Covered(Run(l, steps[..n]), addr)
    decreases n
  {
    if n == 0 {
      assert forall i :: HoldersAt(STARTED, addr, i) == {};
      assert steps[..0] == [];
    } else {
      AlwaysCovered(l, steps, n - 1, addr);
      assert steps[..n][..n - 1] == steps[..n - 1];
      CoveredStep(l, Run(l, steps[..n - 1]), steps[n - 1], addr);
    }
  }

  /** The cover holds throughout a run exactly when every deletion hits an idle instance. */
  lemma AlwaysCoveredIff(l: Limits, steps: seq<Step>, addr: Ip)
    requires l.perIp > 0
    ensures DeletesOnlyIdle(l, steps, addr) <==> forall n | 0 <= n <= |steps| :: Covered(Run(l, steps[..n]), addr)
  {
    if DeletesOnlyIdle(l, steps, addr) {
      forall n | 0 <= n <= |steps|
        ensures Covered(Run(l, steps[..n]), addr)
      {
        AlwaysCovered(l, steps, n, addr);
      }
    }
    if forall n | 0 <= n <= |steps| :: Covered(Run(l, steps[..n]), addr) {
      forall k | 0 <= k < |steps| && Deletes(steps[k], addr)
        ensures HoldersAt(Run(l, steps[..k]), addr, steps[k].inst) == {}
      {
        assert steps[..k + 1][..k] == steps[..k];
        assert Covered(Run(l, steps[..k + 1]), addr);
        CoverKeptIff(l, Run(l, steps[..k]), steps[k], addr);
      }
    }
  }

  /** The bound on connections: while deletions hit only idle instances, the open connections of an
      address across all instances stay below the limit plus the peak of pending attempts, whatever fails. */
  lemma ConnectionBound(l: Limits, steps: seq<Step>, addr: Ip)
    requires l.perIp > 0 && DeletesOnlyIdle(l, steps, addr)
    ensures |Connections(Run(l, steps), addr)| < l.perIp + PeakIp(l, steps, addr)
  {
    var s := Run(l, steps);
    AlwaysCovered(l, steps, |steps|, addr);
    assert steps[..|steps|] == steps;
    HoldersWithinTotal(s, addr);
    IpOvershoot(l, steps, addr);
    assert forall id | id in Connections(s, addr) :: id in Holders(s, addr);
    Fewer(Connections(s, addr), Holders(s, addr));
  }

  // ---- The same for applications ----

  function AppConnections(s: Shared, app: App): set<nat> {
    set id | id in s.live && s.live[id].app == Some(app)
  }

  function AppHoldersAt(s: Shared, app: App, i: Instance): set<nat> {
    set id | id in s.live && s.live[id].app == Some(app) && s.live[id].inst == i
  }

  ghost predicate AppCovered(s: Shared, app: App) {
    forall i :: |AppHoldersAt(s, app, i)| <= Value(AppRow(s, app), i)
  }

  predicate DeletesApp(step: Step, app: App) {
    step.DeleteApp? && step.deletedApp == app
  }

  /** Only an increment that succeeds adds a connection of the application, and a release removes one. */
  lemma AppHoldersStep(l: Limits, s: Shared, step: Step, app: App, i: Instance)
    ensures var comes := SettlesApp(s, step, app) && step.effect == Applied && s.attempts[step.id].inst == i;
            var goes := ReturnsApp(s, step, app) && s.live[step.id].inst == i;
            |AppHoldersAt(Apply(l, s, step), app, i)|
            <= |AppHoldersAt(s, app, i)| + (if comes then 1 else 0) - if goes then 1 else 0
  {
    var comes := SettlesApp(s, step, app) && step.effect == Applied && s.attempts[step.id].inst == i;
    var goes := ReturnsApp(s, step, app) && s.live[step.id].inst == i;
    Shift(AppHoldersAt(s, app, i), AppHoldersAt(Apply(l, s, step), app, i),
          if comes || goes then step.id else 0, comes, goes);
  }

  lemma AppCoveredStep(l: Limits, s: Shared, step: Step, app: App)
    requires AppCovered(s, app)
    ensures AppCovered(Apply(l, s, step), app) <==> (DeletesApp(step, app) ==> AppHoldersAt(s, app, step.inst) == {})
  {
    var t := Apply(l, s, step);
    AppRowStep(l, s, step, app);
    if DeletesApp(step, app) && AppHoldersAt(s, app, step.inst) != {} {
      assert AppHoldersAt(t, app, step.inst) == AppHoldersAt(s, app, step.inst);
      assert Value(AppRow(t, app), step.inst) == 0;
    } else {
      forall i
        ensures |AppHoldersAt(t, app, i)| <= Value(AppRow(t, app), i)
      {
        assert |AppHoldersAt(s, app, i)| <= Value(AppRow(s, app), i);
        AppHoldersStep(l, s, step, app, i);
      }
    }
  }

  ghost predicate DeletesOnlyIdleApp(l: Limits, steps: seq<Step>, app: App) {
    forall k | 0 <= k < |steps| && DeletesApp(steps[k], app) ::
      AppHoldersAt(Run(l, steps[..k]), app, steps[k].inst) == {}
  }

  lemma {:induction false} AlwaysAppCovered(l: Limits, steps: seq<Step>, app: App)
    requires DeletesOnlyIdleApp(l, steps, app)
    ensures AppCovered(Run(l, steps), app)
    decreases |steps|
  {
    if steps == [] {
      assert forall i :: AppHoldersAt(STARTED, app, i) == {};
    } else {
      var n := |steps| - 1;
      var front := steps[..n];
      assert forall k | 0 <= k < n :: front[..k] == steps[..k];
      AlwaysAppCovered(l, front, app);
      AppCoveredStep(l, Run(l, front), steps[n], app);
    }
  }

  /** The bound on an application's connections, while deletions hit only idle instances; one without a
      limit of its own never has a connection. */
  lemma AppConnectionBound(l: Limits, steps: seq<Step>, app: App)
    requires DeletesOnlyIdleApp(l, steps, app)
    ensures var n := |AppConnections(Run(l, steps), app)|;
            n == 0 || n < l.AppLimit(app) + PeakApp(l, steps, app)
  {
    var s := Run(l, steps);
    AlwaysAppCovered(l, steps, app);
    AppOvershoot(l, steps, app);
    var held := map id | id in AppConnections(s, app) :: s.live[id].inst;
    forall i
      ensures |AtInstance(held, i)| <= Visible(Value(AppRow(s, app), i))
    {
      assert AtInstance(held, i) == AppHoldersAt(s, app, i);
      assert |AppHoldersAt(s, app, i)| <= Value(AppRow(s, app), i);
    }
    HeldWithinTotal(held, AppRow(s, app));
    assert held.Keys == AppConnections(s, app);
  }

  lemma RunAppend(l: Limits, steps: seq<Step>, step: Step, addr: Ip)
    ensures Run(l, steps + [step]) == Apply(l, Run(l, steps), step)
    ensures var now := |PendingIp(Run(l, steps + [step]), addr)|;
            PeakIp(l, steps + [step], addr) == if now < PeakIp(l, steps, addr) then PeakIp(l, steps, addr) else now
  {
    assert (steps + [step])[..|steps|] == steps;
  }

  /** A state after one attempt at the address has gone through instance i. */
  function Admitted(s: Shared, i: Instance, addr: Ip): Shared {
    s.(ips := s.ips[addr := Incr(IpRow(s, addr), i)],
       live := s.live[s.nextId := Held(i, addr, None)],
       nextId := s.nextId + 1)
  }

  lemma AdmitBegun(l: Limits, s: Shared, i: Instance, addr: Ip)
    requires l.perIp > 0 && s.attempts == map[] && Total(IpRow(s, addr)) < l.perIp
    ensures var t := Apply(l, s, Begin(i, addr, None));
            && t == s.(attempts := map[s.nextId := Attempt(i, addr, None, IpChecked)], nextId := s.nextId + 1)
            && |PendingIp(t, addr)| == 1
  {
    assert PendingIp(Apply(l, s, Begin(i, addr, None)), addr) == {s.nextId};
  }

  lemma AdmitCounted(l: Limits, s: Shared, id: nat, i: Instance, addr: Ip)
    requires s.attempts == map[id := Attempt(i, addr, None, IpChecked)]
    ensures var t := Apply(l, s, CountIp(id, Applied));
            && t == s.(ips := s.ips[addr := Incr(IpRow(s, addr), i)],
                       attempts := map[id := Attempt(i, addr, None, IpCounted)])
            && |PendingIp(t, addr)| == 0
  {
    assert PendingIp(Apply(l, s, CountIp(id, Applied)), addr) == {};
  }

  lemma AdmitGranted(l: Limits, s: Shared, id: nat, i: Instance, addr: Ip)
    requires s.attempts == map[id := Attempt(i, addr, None, IpCounted)]
    ensures Apply(l, s, Proceed(id)) == s.(attempts := map[], live := s.live[id := Held(i, addr, None)])
  {
    assert s.attempts - {id} == map[];
  }

  /** Admits one connection of the address through instance i, when its total is below the limit. */
  lemma Admit(l: Limits, steps: seq<Step>, i: Instance, addr: Ip) returns (more: seq<Step>)
    requires l.perIp > 0 && PeakIp(l, steps, addr) <= 1
    requires Run(l, steps).attempts == map[] && Total(IpRow(Run(l, steps), addr)) < l.perIp
    ensures Run(l, more) == Admitted(Run(l, steps), i, addr) && PeakIp(l, more, addr) <= 1
  {
    var id := Run(l, steps).nextId;
    var more1 := steps + [Begin(i, addr, None)];
    var more2 := more1 + [CountIp(id, Applied)];
    more := more2 + [Proceed(id)];
    RunAppend(l, steps, Begin(i, addr, None), addr);
    AdmitBegun(l, Run(l, steps), i, addr);
    RunAppend(l, more1, CountIp(id, Applied), addr);
    AdmitCounted(l, Run(l, more1), id, i, addr);
    RunAppend(l, more2, Proceed(id), addr);
    AdmitGranted(l, Run(l, more2), id, i, addr);
    assert PendingIp(Run(l, more), addr) == {};
  }

  lemma EmptyTotal()
    ensures Total(map[]) == 0
  {
    assert Clipped(map[]) == map[];
  }

  /** Nothing in flight, all counting done at instance 0, and n connections of the address. */
  ghost predicate Holding(s: Shared, n: nat, addr: Ip) {
    && FreshIds(s) && s.attempts == map[]
    && Total(IpRow(s, addr)) == Visible(Value(IpRow(s, addr), 0))
    && |Connections(s, addr)| == n
  }

  lemma Deleted(l: Limits, s: Shared, n: nat, addr: Ip)
    requires Holding(s, n, addr)
    ensures var t := Apply(l, s, DeleteIp(addr, 0));
            Holding(t, n, addr) && Total(IpRow(t, addr)) == Value(IpRow(t, addr), 0) == 0
  {
    TotalDelete(IpRow(s, addr), 0);
    assert Connections(Apply(l, s, DeleteIp(addr, 0)), addr) == Connections(s, addr);
  }

  lemma AdmittedOne(s: Shared, n: nat, addr: Ip)
    requires Holding(s, n, addr) && Value(IpRow(s, addr), 0) == 0
    ensures Holding(Admitted(s, 0, addr), n + 1, addr)
  {
    var t := Admitted(s, 0, addr);
    assert IpRow(t, addr) == Incr(IpRow(s, addr), 0);
    IncrTotal(IpRow(s, addr), 0);
    MoreConnections(s, t, s.nextId, addr);
  }

  /** Deletion of a live instance's counter leaves no bound at all: whatever the limit, and with attempts
      that never overlap, an address can come to any number of connections. */
  lemma {:induction false} DeletionAdmitsAny(l: Limits, n: nat, addr: Ip) returns (steps: seq<Step>)
    requires l.perIp > 0
    ensures Holding(Run(l, steps), n, addr) && PeakIp(l, steps, addr) <= 1
    decreases n
  {
    if n == 0 {
      EmptyTotal();
      assert PendingIp(STARTED, addr) == {} && Connections(STARTED, addr) == {};
      steps := [];
    } else {
      var before := DeletionAdmitsAny(l, n - 1, addr);
      var deleted := before + [DeleteIp(addr, 0)];
      RunAppend(l, before, DeleteIp(addr, 0), addr);
      Deleted(l, Run(l, before), n - 1, addr);
      assert PendingIp(Run(l, deleted), addr) == {};
      steps := Admit(l, deleted, 0, addr);
      AdmittedOne(Run(l, deleted), n - 1, addr);
    }
  }

  // ---- The overshoot bound is attained ----

  /** Nothing in flight, and n connections of the address all counted at instance 0. */
  ghost predicate Settled(s: Shared, n: nat, addr: Ip) {
    && FreshIds(s) && s.attempts == map[]
    && Total(IpRow(s, addr)) == n && Value(IpRow(s, addr), 0) == n
    && |Connections(s, addr)| == n
  }

  lemma SettledStep(s: Shared, n: nat, addr: Ip)
    requires Settled(s, n, addr)
    ensures Settled(Admitted(s, 0, addr), n + 1, addr)
  {
    var t := Admitted(s, 0, addr);
    IncrTotal(IpRow(s, addr), 0);
    assert IpRow(t, addr) == Incr(IpRow(s, addr), 0);
    MoreConnections(s, t, s.nextId, addr);
  }

  /** Fills the address's counter to n by one connection after another. */
  lemma {:induction false} FillUp(l: Limits, n: nat, addr: Ip) returns (steps: seq<Step>)
    requires 0 < l.perIp && n <= l.perIp
    ensures Settled(Run(l, steps), n, addr)
    ensures PeakIp(l, steps, addr) <= 1
    decreases n
  {
    if n == 0 {
      EmptyTotal();
      assert PendingIp(STARTED, addr) == {} && Connections(STARTED, addr) == {};
      steps := [];
    } else {
      var before := FillUp(l, n - 1, addr);
      steps := Admit(l, before, 0, addr);
      SettledStep(Run(l, before), n - 1, addr);
    }
  }

  ghost predicate AllPending(s: Shared, addr: Ip) {
    FreshIds(s) && forall id | id in s.attempts :: s.attempts[id] == Attempt(0, addr, None, IpChecked)
  }

  lemma PendingAll(s: Shared, addr: Ip)
    requires AllPending(s, addr)
    ensures PendingIp(s, addr) == s.attempts.Keys
  {
  }

  lemma CrowdStep(l: Limits, s: Shared, addr: Ip)
    requires l.perIp > 0 && AllPending(s, addr) && Total(IpRow(s, addr)) < l.perIp
    ensures var t := Apply(l, s, Begin(0, addr, None));
            && AllPending(t, addr) && |t.attempts| == |s.attempts| + 1
            && t.ips == s.ips && t.live == s.live
  {
    SizeInsert(s.attempts, s.nextId, Attempt(0, addr, None, IpChecked));
  }

  /** Lets k attempts pass the check before any of them increments. */
  lemma {:induction false} Crowd(l: Limits, steps: seq<Step>, k: nat, addr: Ip) returns (more: seq<Step>)
    requires l.perIp > 0 && PeakIp(l, steps, addr) <= 1
    requires AllPending(Run(l, steps), addr) && Run(l, steps).attempts == map[]
    requires Total(IpRow(Run(l, steps), addr)) < l.perIp
    ensures AllPending(Run(l, more), addr) && |Run(l, more).attempts| == k
    ensures Run(l, more).ips == Run(l, steps).ips && Run(l, more).live == Run(l, steps).live
    ensures PeakIp(l, more, addr) <= if k < 1 then 1 else k
    decreases k
  {
    if k == 0 {
      more := steps;
    } else {
      var before := Crowd(l, steps, k - 1, addr);
      more := before + [Begin(0, addr, None)];
      CrowdStep(l, Run(l, before), addr);
      RunAppend(l, before, Begin(0, addr, None), addr);
      PendingAll(Run(l, more), addr);
    }
  }

  /** A pending attempt increments and is admitted. */
  lemma Settle(l: Limits, s: Shared, id: nat, addr: Ip)
    requires AllPending(s, addr) && id in s.attempts
    ensures var t := Apply(l, s, CountIp(id, Applied));
            var u := Apply(l, t, Proceed(id));
            && PendingIp(t, addr) == PendingIp(s, addr) - {id}
            && u == s.(ips := s.ips[addr := Incr(IpRow(s, addr), 0)],
                       attempts := s.attempts - {id},
                       live := s.live[id := Held(0, addr, None)])
  {
    var t := Apply(l, s, CountIp(id, Applied));
    assert t.attempts == s.attempts[id := Attempt(0, addr, None, IpCounted)];
    assert t.attempts - {id} == s.attempts - {id};
  }

  lemma SettledAttempt(s: Shared, id: nat, addr: Ip)
    requires AllPending(s, addr) && id in s.attempts && Value(IpRow(s, addr), 0) >= 0
    ensures var u := s.(ips := s.ips[addr := Incr(IpRow(s, addr), 0)],
                        attempts := s.attempts - {id},
                        live := s.live[id := Held(0, addr, None)]);
            && AllPending(u, addr) && |u.attempts| == |s.attempts| - 1
            && |Connections(u, addr)| == |Connections(s, addr)| + 1
            && Total(IpRow(u, addr)) == Total(IpRow(s, addr)) + 1 && Value(IpRow(u, addr), 0) >= 0
            && |PendingIp(u, addr)| < |PendingIp(s, addr)|
  {
    var u := s.(ips := s.ips[addr := Incr(IpRow(s, addr), 0)],
                attempts := s.attempts - {id},
                live := s.live[id := Held(0, addr, None)]);
    SizeRemove(s.attempts, id);
    PendingAll(s, addr);
    PendingAll(u, addr);
    MoreConnections(s, u, id, addr);
    IncrTotal(IpRow(s, addr), 0);
  }

  lemma MoreConnections(s: Shared, u: Shared, id: nat, addr: Ip)
    requires id !in s.live && u.live == s.live[id := Held(0, addr, None)]
    ensures |Connections(u, addr)| == |Connections(s, addr)| + 1
  {
    assert Connections(u, addr) == Connections(s, addr) + {id};
  }

  /** Lets every pending attempt go through. */
  lemma {:induction false} Rush(l: Limits, steps: seq<Step>, addr: Ip) returns (more: seq<Step>)
    requires AllPending(Run(l, steps), addr) && Value(IpRow(Run(l, steps), addr), 0) >= 0
    ensures Total(IpRow(Run(l, more), addr)) == Total(IpRow(Run(l, steps), addr)) + |Run(l, steps).attempts|
    ensures |Connections(Run(l, more), addr)| == |Connections(Run(l, steps), addr)| + |Run(l, steps).attempts|
    ensures PeakIp(l, more, addr) == PeakIp(l, steps, addr)
    decreases |Run(l, steps).attempts|
  {
    var s := Run(l, steps);
    if s.attempts == map[] {
      more := steps;
    } else {
      var id :| id in s.attempts;
      Settle(l, s, id, addr);
      var counted := steps + [CountIp(id, Applied)];
      var settled := counted + [Proceed(id)];
      RunAppend(l, steps, CountIp(id, Applied), addr);
      RunAppend(l, counted, Proceed(id), addr);
      SettledAttempt(s, id, addr);
      AtPeak(l, steps, addr);
      Fewer(PendingIp(s, addr) - {id}, PendingIp(s, addr));
      more := Rush(l, settled, addr);
    }
  }

  lemma AtPeak(l: Limits, steps: seq<Step>, addr: Ip)
    ensures |PendingIp(Run(l, steps), addr)| <= PeakIp(l, steps, addr)
  {
  }

  /** For every limit and every number k of overlapping attempts there is a run that ends with
      exactly limit + k - 1 connections, all counted: the overshoot bound cannot be improved. */
  lemma OvershootAttained(l: Limits, k: nat, addr: Ip) returns (steps: seq<Step>)
    requires l.perIp > 0 && k > 0
    ensures Total(IpRow(Run(l, steps), addr)) == |Connections(Run(l, steps), addr)| == l.perIp + k - 1
    ensures PeakIp(l, steps, addr) == k
  {
    var filled := FillUp(l, l.perIp - 1, addr);
    var crowded := Crowd(l, filled, k, addr);
    PendingAll(Run(l, crowded), addr);
    AtPeak(l, crowded, addr);
    steps := Rush(l, crowded, addr);
  }
}
