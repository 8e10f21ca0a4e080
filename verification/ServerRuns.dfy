/** What holds of the engine API server over every run of requests, operator commands, health checks and
    cache evictions, whatever the builder does. */
module ServerRuns {
  import opened Wrappers
  import opened Payload
  import opened Modes
  import opened Engine
  import opened PayloadTrace
  import opened Selection
  import opened Float64
  import opened Server
  import FlashblockBuilder
  import FlashblocksService

  datatype Event =
    | FcuReceived(fcu: FcuRequest)
    | PayloadReceived(block: NewPayloadRequest)
    | PayloadRequested(get: GetRequest)
    | ModeSet(mode: Mode)
    | HealthChecked(verdict: Option<Health>)
    | IdEvicted(id: PayloadId)
    | ParentEvicted(parent: Hash)

  function Step(cfg: Config, s: ServerState, e: Event): ServerState {
    match e
    case FcuReceived(r) => Fcu(cfg, s, r).after
    case PayloadReceived(r) => Imported(cfg, s, r).after
    case PayloadRequested(r) => GetPayload(cfg, s, r).after
    case ModeSet(mode) => s.(mode := mode)
    case HealthChecked(verdict) => if verdict.Some? then s.(health := verdict.value) else s
    case IdEvicted(id) => s.(trace := s.trace.(byId := s.trace.byId - {id}))
    case ParentEvicted(parent) => s.(trace := s.trace.(byParent := s.trace.byParent - {parent}))
  }

  /** The engine API calls an event makes. */
  function Calls(cfg: Config, s: ServerState, e: Event): seq<Call> {
    match e
    case FcuReceived(r) => Fcu(cfg, s, r).calls
    case PayloadReceived(r) => Imported(cfg, s, r).calls
    case PayloadRequested(r) => GetPayload(cfg, s, r).calls
    case _ => []
  }

  ghost function Run(cfg: Config, s: ServerState, events: seq<Event>): ServerState
    decreases |events|
  {
    if events == [] then s else Step(cfg, Run(cfg, s, events[..|events| - 1]), events[|events| - 1])
  }

  // ---- What the builder said ----

  /** The flashblocks service has a block of its own for the id. */
  predicate ServesOwn(service: FlashblocksService.Service, id: PayloadId) {
    service.current == Some(id) && service.assembly.base.Some? && service.assembly.deltas != []
  }

  /** The builder answers getPayload: a flashblocks service with its own block, or the builder's node. */
  predicate BuilderDelivers(r: GetRequest) {
    match r.builder
    case Rpc(raw) => Delivers(raw, r.version)
    case Flashblocks(service, raw) => ServesOwn(service, r.id) || Delivers(raw, r.version)
  }

  function BuilderDelivery(r: GetRequest): Envelope
    requires BuilderDelivers(r)
  {
    if r.builder.Flashblocks? && ServesOwn(r.builder.service, r.id)
    then FlashblockBuilder.BuildEnvelope(r.builder.service.assembly, r.version).value
    else Delivery(r.builder.raw, r.version)
  }

  lemma BuilderAnswers(r: GetRequest)
    ensures r.Builder().Ok? <==> BuilderDelivers(r)
    ensures BuilderDelivers(r) ==> r.Builder().value == BuilderDelivery(r)
  {
  }

  // ---- The history of a payload id ----

  /** The builder's health does not stand in the way. */
  predicate Trusted(cfg: Config, s: ServerState) {
    cfg.ignoreUnhealthyBuilders ==> s.health == Healthy
  }

  /** The update is handled with payload attributes and L2 starts the payload under this id. */
  predicate Records(cfg: Config, s: ServerState, r: FcuRequest, id: PayloadId) {
    && s.mode != Disabled && Trusted(cfg, s)
    && r.attrs.Some?
    && Updates(r.l2) && r.l2.value.payloadId == Some(id)
  }

  /** What an event does to the index of payloads. */
  function OpOf(cfg: Config, s: ServerState, e: Event): Op {
    match e
    case FcuReceived(r) =>
      if Updates(r.l2) && r.l2.value.payloadId.Some?
         && Records(cfg, s, r, r.l2.value.payloadId.value)
      then
        Op.Store(r.l2.value.payloadId.value, r.state.head,
                 Updates(r.builder) && r.attrs.value.noTxPool != Some(true), r.span)
      else Read
    case PayloadReceived(r) => Op.Remove(r.payload.payload.parentHash)
    case IdEvicted(id) => EvictId(id)
    case ParentEvicted(parent) => EvictParent(parent)
    case _ => Read
  }

  /** The run as a log of the index: entry k is what event k did to it. */
  ghost function Log(cfg: Config, mode: Mode, events: seq<Event>): (ops: seq<Op>)
    ensures |ops| == |events|
    decreases |events|
  {
    if events == [] then []
    else
      var front, e := events[..|events| - 1], events[|events| - 1];
      Log(cfg, mode, front) + [OpOf(cfg, Run(cfg, Started(mode), front), e)]
  }

  lemma {:induction false} LogAt(cfg: Config, mode: Mode, events: seq<Event>, k: nat)
    requires k < |events|
    ensures Log(cfg, mode, events)[k] == OpOf(cfg, Run(cfg, Started(mode), events[..k]), events[k])
    decreases |events|
  {
    if k == |events| - 1 {
    } else {
      LogAt(cfg, mode, events[..|events| - 1], k);
      assert events[..|events| - 1][..k] == events[..k];
    }
  }

  lemma StepOnTrace(cfg: Config, s: ServerState, e: Event)
    ensures Step(cfg, s, e).trace == Apply(s.trace, OpOf(cfg, s, e))
  {
  }

  lemma {:induction false} TraceIsLog(cfg: Config, mode: Mode, events: seq<Event>)
    ensures Run(cfg, Started(mode), events).trace == Replay(Log(cfg, mode, events))
    decreases |events|
  {
    if events == [] {
    } else {
      var n := |events| - 1;
      var front := events[..n];
      TraceIsLog(cfg, mode, front);
      StepOnTrace(cfg, Run(cfg, Started(mode), front), events[n]);
      assert Log(cfg, mode, events)[..n] == Log(cfg, mode, front);
    }
  }

  /** The last update that recorded the id found the builder building it, and since then the id was not
      evicted and no block was imported on a parent the id was listed under. */
  ghost predicate BuilderHolds(cfg: Config, mode: Mode, events: seq<Event>, id: PayloadId) {
    var ops := Log(cfg, mode, events);
    exists i: nat :: LastStore(ops, id, i) && ops[i].flag && !ClearedAfter(ops, id, i)
  }

  /** What the index says in any run, in terms of the run's history. */
  lemma RecordedIff(cfg: Config, mode: Mode, events: seq<Event>, id: PayloadId)
    ensures Run(cfg, Started(mode), events).trace.HasBuilderPayload(id) <==> BuilderHolds(cfg, mode, events, id)
  {
    TraceIsLog(cfg, mode, events);
    var ops := Log(cfg, mode, events);
    var x := Replay(ops);
    if id in x.byId {
      IndexIsLog(ops, id, x.byId[id]);
    }
    if BuilderHolds(cfg, mode, events, id) {
      var i: nat :| LastStore(ops, id, i) && ops[i].flag && !ClearedAfter(ops, id, i);
      IndexIsLog(ops, id, Trace(ops[i].flag, ops[i].traceId));
    }
  }

  /** The mode last set, by the operator or while a getPayload request was awaiting the nodes. */
  ghost function ModeAfter(mode: Mode, events: seq<Event>): Mode
    decreases |events|
  {
    if events == [] then mode
    else match events[|events| - 1]
      case ModeSet(m) => m
      case PayloadRequested(r) => r.later
      case _ => ModeAfter(mode, events[..|events| - 1])
  }

  lemma {:induction false} ModeIs(cfg: Config, mode: Mode, events: seq<Event>)
    ensures Run(cfg, Started(mode), events).mode == ModeAfter(mode, events)
    decreases |events|
  {
    if events == [] {
    } else {
      ModeIs(cfg, mode, events[..|events| - 1]);
    }
  }

  /** The update is remembered for rebuilding this payload. */
  predicate Remembers(cfg: Config, s: ServerState, r: FcuRequest, id: PayloadId) {
    && cfg.externalStateRoot
    && s.mode != Disabled && Trusted(cfg, s)
    && !(r.attrs.Some? && r.attrs.value.noTxPool == Some(true))
    && Updates(r.l2) && r.l2.value.payloadId == Some(id)
  }

  /** Whether the id's request is remembered, and what it was. */
  datatype Ledger = Never | Kept(request: Remembered) | Taken

  ghost function LedgerOf(cfg: Config, mode: Mode, events: seq<Event>, id: PayloadId): Ledger
    decreases |events|
  {
    if events == [] then Never
    else
      var front, e := events[..|events| - 1], events[|events| - 1];
      var s := Run(cfg, Started(mode), front);
      if e.FcuReceived? && Remembers(cfg, s, e.fcu, id) then Kept(Remembered(e.fcu.state, e.fcu.attrs))
      else if e.PayloadRequested? && e.get.id == id && LooksUp(cfg, s, e.get) then
        if LedgerOf(cfg, mode, front, id).Never? then Never else Taken
      else LedgerOf(cfg, mode, front, id)
  }

  /** getPayload reaches the lookup of the remembered request: the builder was asked and answered. */
  predicate LooksUp(cfg: Config, s: ServerState, r: GetRequest) {
    cfg.externalStateRoot && s.mode != Disabled && s.trace.HasBuilderPayload(r.id) && BuilderDelivers(r)
  }

  /** The id has been fetched since an update for it was last remembered. */
  ghost predicate FetchedSince(cfg: Config, mode: Mode, events: seq<Event>, id: PayloadId)
    decreases |events|
  {
    events != [] &&
    var front, e := events[..|events| - 1], events[|events| - 1];
    if e.FcuReceived? && Remembers(cfg, Run(cfg, Started(mode), front), e.fcu, id) then false
    else (e.PayloadRequested? && e.get.id == id) || FetchedSince(cfg, mode, front, id)
  }

  // ---- The invariant ----

  ghost predicate Faithful(cfg: Config, mode: Mode, events: seq<Event>, s: ServerState, id: PayloadId) {
    && (match LedgerOf(cfg, mode, events, id)
        case Kept(request) => id in s.requests && s.requests[id] == request
        case _ => id !in s.requests)
    && (cfg.externalStateRoot && s.trace.HasBuilderPayload(id) ==> !LedgerOf(cfg, mode, events, id).Never?)
  }

  /** What a fork-choice update does to one id's entries. */
  lemma FcuOn(cfg: Config, s: ServerState, r: FcuRequest, id: PayloadId)
    ensures var t := Fcu(cfg, s, r).after;
            && (if Records(cfg, s, r, id) then
                  && id in t.trace.byId
                  && t.trace.byId[id].builderHasPayload
                     == (Updates(r.builder) && r.attrs.value.noTxPool != Some(true))
                else
                  && (id in t.trace.byId <==> id in s.trace.byId)
                  && (id in s.trace.byId ==> t.trace.byId[id] == s.trace.byId[id]))
            && (if Remembers(cfg, s, r, id) then id in t.requests && t.requests[id] == Remembered(r.state, r.attrs)
                else
                  && (id in t.requests <==> id in s.requests)
                  && (id in s.requests ==> t.requests[id] == s.requests[id]))
  {
  }

  lemma FcuFaithful(cfg: Config, mode: Mode, events: seq<Event>, r: FcuRequest, id: PayloadId)
    requires Faithful(cfg, mode, events, Run(cfg, Started(mode), events), id)
    ensures Faithful(cfg, mode, events + [FcuReceived(r)], Run(cfg, Started(mode), events + [FcuReceived(r)]), id)
  {
    var longer := events + [FcuReceived(r)];
    assert longer[..|longer| - 1] == events;
    FcuOn(cfg, Run(cfg, Started(mode), events), r, id);
  }

  /** What getPayload does to one id's entries. */
  lemma GetOn(cfg: Config, s: ServerState, r: GetRequest, id: PayloadId)
    ensures var t := GetPayload(cfg, s, r).after;
            && t.trace == s.trace
            && (if id == r.id && LooksUp(cfg, s, r) then id !in t.requests
                else
                  && (id in t.requests <==> id in s.requests)
                  && (id in s.requests ==> t.requests[id] == s.requests[id]))
  {
    assert s.mode != Disabled ==>
        BuilderBranch(cfg, s, r).requests == if LooksUp(cfg, s, r) then s.requests - {r.id} else s.requests;
  }

  lemma GetFaithful(cfg: Config, mode: Mode, events: seq<Event>, r: GetRequest, id: PayloadId)
    requires Faithful(cfg, mode, events, Run(cfg, Started(mode), events), id)
    ensures var longer := events + [PayloadRequested(r)];
            Faithful(cfg, mode, longer, Run(cfg, Started(mode), longer), id)
  {
    var longer := events + [PayloadRequested(r)];
    assert longer[..|longer| - 1] == events;
    GetOn(cfg, Run(cfg, Started(mode), events), r, id);
  }

  lemma RunMore(cfg: Config, mode: Mode, events: seq<Event>, e: Event)
    ensures Run(cfg, Started(mode), events + [e]) == Step(cfg, Run(cfg, Started(mode), events), e)
  {
    assert (events + [e])[..|events|] == events;
  }

  /** What other events do: they forget, at most. */
  lemma OtherOn(cfg: Config, s: ServerState, e: Event, id: PayloadId)
    requires !e.FcuReceived? && !e.PayloadRequested?
    ensures Step(cfg, s, e).requests == s.requests
    ensures Step(cfg, s, e).trace.HasBuilderPayload(id) ==> s.trace.HasBuilderPayload(id)
  {
  }

  lemma LedgerSame(cfg: Config, mode: Mode, events: seq<Event>, e: Event, id: PayloadId)
    requires !e.FcuReceived? && !e.PayloadRequested?
    ensures LedgerOf(cfg, mode, events + [e], id) == LedgerOf(cfg, mode, events, id)
  {
    assert (events + [e])[..|events|] == events;
  }

  lemma OtherFaithful(cfg: Config, mode: Mode, events: seq<Event>, e: Event, id: PayloadId)
    requires Faithful(cfg, mode, events, Run(cfg, Started(mode), events), id)
    requires !e.FcuReceived? && !e.PayloadRequested?
    ensures Faithful(cfg, mode, events + [e], Run(cfg, Started(mode), events + [e]), id)
  {
    RunMore(cfg, mode, events, e);
    OtherOn(cfg, Run(cfg, Started(mode), events), e, id);
    LedgerSame(cfg, mode, events, e, id);
  }

  /** In every run, with arbitrary evictions and mode changes: the remembered requests are exactly those
      remembered and not taken since, and there was one for every id the builder is recorded for. */
  lemma {:induction false} AlwaysFaithful(cfg: Config, mode: Mode, events: seq<Event>, id: PayloadId)
    ensures Faithful(cfg, mode, events, Run(cfg, Started(mode), events), id)
    decreases |events|
  {
    if events == [] {
    } else {
      var front, e := events[..|events| - 1], events[|events| - 1];
      AlwaysFaithful(cfg, mode, front, id);
      assert events == front + [e];
      match e
      case FcuReceived(r) => FcuFaithful(cfg, mode, front, r, id);
      case PayloadRequested(r) => GetFaithful(cfg, mode, front, r, id);
      case _ => OtherFaithful(cfg, mode, front, e, id);
    }
  }

  // ---- Unwrap safety ----

  lemma {:induction false} TakenWasFetched(cfg: Config, mode: Mode, events: seq<Event>, id: PayloadId)
    requires LedgerOf(cfg, mode, events, id).Taken?
    ensures FetchedSince(cfg, mode, events, id)
    decreases |events|
  {
    var front, e := events[..|events| - 1], events[|events| - 1];
    if !(e.PayloadRequested? && e.get.id == id) {
      TakenWasFetched(cfg, mode, front, id);
    }
  }

  /** Exactly when a request panics: the builder is asked and answers, and the remembered request has
      already been taken by an earlier fetch of the same id. */
  lemma PanicsIff(cfg: Config, mode: Mode, events: seq<Event>, r: GetRequest)
    ensures GetPayload(cfg, Run(cfg, Started(mode), events), r).answer.Panicked?
       <==> LooksUp(cfg, Run(cfg, Started(mode), events), r) && LedgerOf(cfg, mode, events, r.id).Taken?
  {
    AlwaysFaithful(cfg, mode, events, r.id);
  }

  /** No payload id is fetched again before another update for it is remembered. */
  ghost predicate FetchedOnce(cfg: Config, mode: Mode, events: seq<Event>) {
    forall k | 0 <= k < |events| && events[k].PayloadRequested? ::
      !FetchedSince(cfg, mode, events[..k], events[k].get.id)
  }

  /** The lookup always finds its entry in runs that fetch each id once per remembered update. */
  lemma UnwrapSafe(cfg: Config, mode: Mode, events: seq<Event>, k: nat)
    requires k < |events| && events[k].PayloadRequested?
    requires !cfg.externalStateRoot || FetchedOnce(cfg, mode, events)
    ensures !GetPayload(cfg, Run(cfg, Started(mode), events[..k]), events[k].get).answer.Panicked?
  {
    PanicsIff(cfg, mode, events[..k], events[k].get);
    if LedgerOf(cfg, mode, events[..k], events[k].get.id).Taken? {
      TakenWasFetched(cfg, mode, events[..k], events[k].get.id);
    }
  }

  /** Fetching an id twice does panic: the trace still says that the builder has the payload, but the
      first fetch took the remembered request. */
  lemma RefetchPanics(cfg: Config, fcu: FcuRequest, get: GetRequest)
    requires cfg.externalStateRoot
    requires fcu.attrs.Some? && fcu.attrs.value.noTxPool != Some(true) && Updates(fcu.builder)
    requires Updates(fcu.l2) && fcu.l2.value.payloadId == Some(get.id)
    requires BuilderDelivers(get) && get.later == Enabled
    ensures var events := [FcuReceived(fcu), PayloadRequested(get)];
            && GetPayload(cfg, Run(cfg, Started(Enabled), events[..1]), get).answer.Answered?
            && GetPayload(cfg, Run(cfg, Started(Enabled), events), get).answer.Panicked?
  {
    var events := [FcuReceived(fcu), PayloadRequested(get)];
    assert events[..1] == [FcuReceived(fcu)];
    assert events[..1][..0] == [];
    var s := Fcu(cfg, Started(Enabled), fcu).after;
    assert Run(cfg, Started(Enabled), events[..1]) == s;
    FcuOn(cfg, Started(Enabled), fcu, get.id);
    GetOn(cfg, s, get, get.id);
    PanicsAt(cfg, s, get);
    PanicsAt(cfg, GetPayload(cfg, s, get).after, get);
  }

  lemma PanicsAt(cfg: Config, s: ServerState, r: GetRequest)
    ensures GetPayload(cfg, s, r).answer.Panicked? <==> LooksUp(cfg, s, r) && r.id !in s.requests
    ensures GetPayload(cfg, s, r).after.mode == r.later
  {
    BuilderAnswers(r);
  }

  // ---- L2 decides ----

  /** The answer to an event is what L2 said: a fork-choice or newPayload answer is L2's, or the error for an
      INVALID one; getPayload succeeds exactly when L2 delivered in the requested version and fails with
      L2's error, an L2-sourced payload is the envelope L2 delivered, any payload has the requested version,
      and health is ServiceUnavailable afterwards exactly when L2 failed. */
  ghost predicate L2Decides(cfg: Config, s: ServerState, e: Event) {
    match e
    case FcuReceived(r) =>
      var f := Fcu(cfg, s, r);
      f.answer == (if r.l2.Ok? && !Updates(r.l2) then Err(InvalidPayload) else r.l2) && f.after.health == s.health
    case PayloadReceived(r) =>
      var i := Imported(cfg, s, r);
      i.answer == (if r.l2.Ok? && !Accepts(r.l2) then Err(InvalidPayload) else r.l2) && i.after.health == s.health
    case PayloadRequested(r) =>
      var g := GetPayload(cfg, s, r);
      && g.answer.Answered?
      && (g.answer.result.Ok? <==> Delivers(r.l2, r.version))
      && (g.answer.result.Err? ==> g.answer.result.error == Failure(r.l2, r.version))
      && (g.answer.result.Ok? && g.answer.result.value.1 == L2 ==> g.answer.result.value.0 == Delivery(r.l2, r.version))
      && (g.answer.result.Ok? ==> g.answer.result.value.0.Version() == r.version)
      && (g.after.health == ServiceUnavailable <==> !Delivers(r.l2, r.version))
    case _ => true
  }

  /** For every run and every builder behaviour, every request is decided by L2; with an external state
      root, in runs that fetch each id once per remembered update. */
  lemma L2AlwaysDecides(cfg: Config, mode: Mode, events: seq<Event>, k: nat)
    requires k < |events|
    requires !cfg.externalStateRoot || FetchedOnce(cfg, mode, events)
    ensures L2Decides(cfg, Run(cfg, Started(mode), events[..k]), events[k])
  {
    if events[k].PayloadRequested? {
      UnwrapSafe(cfg, mode, events, k);
      AnswerVersion(cfg, Run(cfg, Started(mode), events[..k]), events[k].get);
    }
  }

  // ---- Builder-block provenance ----

  /** The newPayload request carries the whole of the envelope. */
  ghost predicate Submits(n: NewPayload, e: Envelope) {
    match e
    case InV3(v3) => n == NewV3(v3.payload, [], v3.parentBeaconBlockRoot)
    case InV4(v4) => n == NewV4(v4.payload, v4.withdrawalsRoot, [], v4.parentBeaconBlockRoot, v4.executionRequests)
  }

  /** The attributes ask for the block of a payload and its parent beacon block root. */
  ghost predicate AsksFor(a: PayloadAttributes, x: ExecutionPayload, parentBeaconBlockRoot: Hash) {
    && a.timestamp == x.timestamp && a.prevRandao == x.prevRandao && a.suggestedFeeRecipient == x.feeRecipient
    && a.withdrawals == Some(x.withdrawals) && a.parentBeaconBlockRoot == Some(parentBeaconBlockRoot)
  }

  /** The attributes for rebuilding the block of an envelope: its transactions, nothing from the pool, and
      the rest as remembered, or as the envelope has it where no attributes were. */
  ghost predicate RebuildsFrom(a: OpAttributes, remembered: Option<OpAttributes>, e: Envelope) {
    var x := if e.InV3? then e.v3.payload else e.v4.payload;
    var root := if e.InV3? then e.v3.parentBeaconBlockRoot else e.v4.parentBeaconBlockRoot;
    && a.transactions == Some(x.transactions) && a.noTxPool == Some(true)
    && (match remembered
        case Some(m) =>
          && a.inner == m.inner && a.gasLimit == m.gasLimit
          && a.eip1559Params == m.eip1559Params && a.minBaseFee == m.minBaseFee
        case None => AsksFor(a.inner, x, root) && a.gasLimit == None && a.eip1559Params == None && a.minBaseFee == None)
  }

  /** L2 accepted this very payload, or rebuilt it from the remembered fork-choice state and attributes
      with the builder's transactions and nothing from the pool. */
  ghost predicate VouchedFor(cfg: Config, ledger: Ledger, r: GetRequest, calls: seq<Call>, p: Envelope) {
    BuilderDelivers(r) &&
    var b := BuilderDelivery(r);
    if !cfg.externalStateRoot then
      && p == b
      && exists n: NewPayload, status :: Submits(n, p) && status != Invalid && L2NewPayload(n, Ok(status)) in calls
    else
      && ledger.Kept?
      && exists a: OpAttributes, u: ForkchoiceUpdated, id ::
           && L2Fcu(ledger.request.state, Some(a), Ok(u)) in calls
           && u.payloadId == Some(id) && L2GetPayload(id, r.version, Ok(p)) in calls
           && RebuildsFrom(a, ledger.request.attrs, b)
  }

  /** In every run a builder-sourced payload is returned only if the builder was really building it, the
      mode allowed it at both reads, and L2 vouched for it. */
  lemma Provenance(cfg: Config, mode: Mode, events: seq<Event>, r: GetRequest)
    requires var a := GetPayload(cfg, Run(cfg, Started(mode), events), r).answer;
             a.Answered? && a.result.Ok? && a.result.value.1 == Builder
    ensures var s := Run(cfg, Started(mode), events);
            var g := GetPayload(cfg, s, r);
            && BuilderHolds(cfg, mode, events, r.id)
            && s.mode != Disabled && r.later != DryRun
            && VouchedFor(cfg, LedgerOf(cfg, mode, events, r.id), r, g.calls, g.answer.result.value.0)
  {
    AlwaysFaithful(cfg, mode, events, r.id);
    RecordedIff(cfg, mode, events, r.id);
    var s := Run(cfg, Started(mode), events);
    BuilderSourced(cfg, s, r);
    if cfg.externalStateRoot {
      VouchedByRebuild(cfg, s, LedgerOf(cfg, mode, events, r.id), r);
    } else {
      VouchedByStatus(cfg, s, LedgerOf(cfg, mode, events, r.id), r);
    }
  }

  lemma VouchedByStatus(cfg: Config, s: ServerState, ledger: Ledger, r: GetRequest)
    requires !cfg.externalStateRoot && IsBuilders(GetPayload(cfg, s, r).answer)
    ensures var g := GetPayload(cfg, s, r); VouchedFor(cfg, ledger, r, g.calls, g.answer.result.value.0)
  {
    BuilderSourced(cfg, s, r);
    BuilderAnswers(r);
    var g := GetPayload(cfg, s, r);
    var p := g.answer.result.value.0;
    var n := NewPayloadFrom(p);
    assert Submits(n, p) && g.calls[2] == L2NewPayload(n, Ok(r.l2New.value));
  }

  lemma VouchedByRebuild(cfg: Config, s: ServerState, ledger: Ledger, r: GetRequest)
    requires cfg.externalStateRoot && IsBuilders(GetPayload(cfg, s, r).answer)
    requires match ledger
             case Kept(request) => r.id in s.requests && s.requests[r.id] == request
             case _ => r.id !in s.requests
    ensures var g := GetPayload(cfg, s, r); VouchedFor(cfg, ledger, r, g.calls, g.answer.result.value.0)
  {
    BuilderSourced(cfg, s, r);
    BuilderAnswers(r);
    var g := GetPayload(cfg, s, r);
    var p, b := g.answer.result.value.0, BuilderDelivery(r);
    var kept, u := s.requests[r.id], r.l2Fcu.value;
    var a := RebuildAttributes(kept.attrs, b);
    assert RebuildsFrom(a, kept.attrs, b);
    assert g.calls[2] == L2Fcu(kept.state, Some(a), Ok(u));
    assert g.calls[3] == L2GetPayload(u.payloadId.value, r.version, Ok(p));
  }

  /** A builder-sourced answer is the builder branch's candidate. */
  lemma BuilderSourced(cfg: Config, s: ServerState, r: GetRequest)
    requires var a := GetPayload(cfg, s, r).answer; a.Answered? && a.result.Ok? && a.result.value.1 == Builder
    ensures var g, b := GetPayload(cfg, s, r), BuilderBranch(cfg, s, r);
            && s.mode != Disabled && r.later != DryRun
            && s.trace.HasBuilderPayload(r.id) && BuilderDelivers(r)
            && b.candidate.Some? && b.candidate.value.payload == Some(g.answer.result.value.0)
            && g.calls == [L2GetPayload(r.id, r.version, r.L2())] + b.calls
  {
  }

  /** What it means that the builder holds a payload: an update that allowed the transaction pool, for which
      L2 started this payload and the builder answered without error, and no later record of the id. */
  lemma RecordedMeans(cfg: Config, mode: Mode, events: seq<Event>, id: PayloadId) returns (k: nat)
    requires BuilderHolds(cfg, mode, events, id)
    ensures k < |events| && events[k].FcuReceived?
    ensures Records(cfg, Run(cfg, Started(mode), events[..k]), events[k].fcu, id)
    ensures events[k].fcu.attrs.value.noTxPool != Some(true) && Updates(events[k].fcu.builder)
    ensures forall j | k < j < |events| && events[j].FcuReceived? ::
              !Records(cfg, Run(cfg, Started(mode), events[..j]), events[j].fcu, id)
  {
    var ops := Log(cfg, mode, events);
    k :| LastStore(ops, id, k) && ops[k].flag && !ClearedAfter(ops, id, k);
    LogAt(cfg, mode, events, k);
    forall j | k < j < |events| && events[j].FcuReceived?
      ensures !Records(cfg, Run(cfg, Started(mode), events[..j]), events[j].fcu, id)
    {
      assert !StoresId(ops[j], id);
      LogAt(cfg, mode, events, j);
    }
  }

  /** L2 accepts the builder's payload, or rebuilds it from a request that is still remembered. */
  predicate L2Approves(cfg: Config, remembered: bool, r: GetRequest) {
    BuilderDelivers(r) &&
    if cfg.externalStateRoot then
      && remembered
      && Updates(r.l2Fcu) && r.l2Fcu.value.payloadId.Some?
      && Delivers(r.l2Rebuilt, r.version)
    else Accepts(r.l2New)
  }

  /** The payload that stands against L2's own. */
  function Offered(cfg: Config, r: GetRequest): Envelope
    requires L2Approves(cfg, true, r)
  {
    if cfg.externalStateRoot then Delivery(r.l2Rebuilt, r.version) else BuilderDelivery(r)
  }

  function GasOf(e: Envelope): nat {
    match e
    case InV3(v3) => v3.payload.gasUsed
    case InV4(v4) => v4.payload.gasUsed
  }

  predicate IsBuilders(answer: Answer<(Envelope, Source)>) {
    answer.Answered? && answer.result.Ok? && answer.result.value.1 == Builder
  }

  lemma ChosenAt(cfg: Config, s: ServerState, r: GetRequest)
    ensures var a := GetPayload(cfg, s, r).answer;
            IsBuilders(a) <==>
              && s.mode != Disabled && r.later != DryRun
              && Delivers(r.l2, r.version) && s.trace.HasBuilderPayload(r.id) && L2Approves(cfg, r.id in s.requests, r)
              && (cfg.policy.Some? ==> !BelowTenth(GasOf(Offered(cfg, r)), GasOf(Delivery(r.l2, r.version))))
    ensures var a := GetPayload(cfg, s, r).answer;
            IsBuilders(a) ==> L2Approves(cfg, true, r) && a.result.value.0 == Offered(cfg, r)
  {
  }

  /** Exactly when the builder's block is returned, in any run: L2 delivered, the builder holds the payload
      by the run's history, L2 approves (from a request remembered and not yet taken, if it must rebuild),
      the mode was never in the way, and the policy does not object. */
  lemma BuilderChosenIff(cfg: Config, mode: Mode, events: seq<Event>, r: GetRequest)
    ensures var a := GetPayload(cfg, Run(cfg, Started(mode), events), r).answer;
            IsBuilders(a) <==>
              && ModeAfter(mode, events) != Disabled && r.later != DryRun && Delivers(r.l2, r.version)
              && BuilderHolds(cfg, mode, events, r.id)
              && L2Approves(cfg, LedgerOf(cfg, mode, events, r.id).Kept?, r)
              && (cfg.policy.Some? ==> !BelowTenth(GasOf(Offered(cfg, r)), GasOf(Delivery(r.l2, r.version))))
    ensures var a := GetPayload(cfg, Run(cfg, Started(mode), events), r).answer;
            IsBuilders(a) ==> L2Approves(cfg, true, r) && a.result.value.0 == Offered(cfg, r)
  {
    ModeIs(cfg, mode, events);
    RecordedIff(cfg, mode, events, r.id);
    AlwaysFaithful(cfg, mode, events, r.id);
    ChosenAt(cfg, Run(cfg, Started(mode), events), r);
  }

  /** The builder's part of getPayload fails: it does not hold the payload or does not deliver it, or L2
      refuses it. */
  predicate BuilderFails(cfg: Config, holds: bool, r: GetRequest) {
    !holds || !BuilderDelivers(r) ||
    if cfg.externalStateRoot then !Updates(r.l2Fcu) else !Accepts(r.l2New)
  }

  lemma HealthAt(cfg: Config, s: ServerState, r: GetRequest)
    requires GetPayload(cfg, s, r).answer.Answered?
    ensures GetPayload(cfg, s, r).after.health
         == if !Delivers(r.l2, r.version) then ServiceUnavailable
            else if s.mode != Disabled && r.later == Enabled && BuilderFails(cfg, s.trace.HasBuilderPayload(r.id), r)
            then PartialContent
            else Healthy
  {
  }

  /** The health getPayload leaves, in any run and whatever it was before: unavailable if L2 failed; partial
      if the builder's part failed while the mode is Enabled; healthy otherwise. A request that panics
      leaves it alone. */
  lemma HealthReported(cfg: Config, mode: Mode, events: seq<Event>, r: GetRequest)
    ensures var s := Run(cfg, Started(mode), events);
            var holds := BuilderHolds(cfg, mode, events, r.id);
            var enabled := ModeAfter(mode, events) != Disabled;
            GetPayload(cfg, s, r).after.health
            == if cfg.externalStateRoot && enabled && holds && BuilderDelivers(r)
                  && LedgerOf(cfg, mode, events, r.id).Taken?
               then s.health
               else if !Delivers(r.l2, r.version) then ServiceUnavailable
               else if enabled && r.later == Enabled && BuilderFails(cfg, holds, r) then PartialContent
               else Healthy
  {
    ModeIs(cfg, mode, events);
    RecordedIff(cfg, mode, events, r.id);
    PanicsIff(cfg, mode, events, r);
    var s := Run(cfg, Started(mode), events);
    if GetPayload(cfg, s, r).answer.Answered? {
      HealthAt(cfg, s, r);
    }
  }

  /** The builder is called if and only if the condition holds, and then only in this one way. */
  ghost predicate CallsOnly(calls: seq<Call>, condition: bool, call: Call) {
    && (condition ==> call.ToBuilder() && call in calls)
    && forall c | c in calls && c.ToBuilder() :: condition && c == call
  }

  lemma BuilderCallsOfFcu(cfg: Config, s: ServerState, r: FcuRequest)
    ensures CallsOnly(Fcu(cfg, s, r).calls,
                      && s.mode != Disabled && Trusted(cfg, s)
                      && (r.attrs.Some? ==> r.attrs.value.noTxPool != Some(true)),
                      BuilderFcu(r.state, r.attrs))
  {
    var calls := Fcu(cfg, s, r).calls;
    assert |calls| == 2 ==> calls[1] == BuilderFcu(r.state, r.attrs);
  }

  lemma BuilderCallsOfImport(cfg: Config, s: ServerState, r: NewPayloadRequest)
    ensures CallsOnly(Imported(cfg, s, r).calls, s.mode != Disabled && Trusted(cfg, s),
                      BuilderNewPayload(r.payload))
  {
    var calls := Imported(cfg, s, r).calls;
    assert |calls| == 2 ==> calls[0] == BuilderNewPayload(r.payload);
  }

  /** The calls of getPayload, in order: L2 is asked for the payload; the builder is, if it holds it; then L2
      is given the builder's whole envelope, or asked to rebuild it from the remembered request and, if it
      starts a payload, for that payload. */
  ghost predicate CallsOfGet(cfg: Config, s: ServerState, r: GetRequest, calls: seq<Call>) {
    var asked := s.mode != Disabled && s.trace.HasBuilderPayload(r.id);
    && |calls| >= 1 && calls[0].L2GetPayload? && calls[0].id == r.id && calls[0].version == r.version
    && (asked <==> |calls| >= 2)
    && (asked ==> calls[1] == BuilderGetPayload(r.id, r.version, r.Builder()))
    && (if !asked || !BuilderDelivers(r) then |calls| <= 2
        else if !cfg.externalStateRoot then
          |calls| == 3 && calls[2].L2NewPayload? && Submits(calls[2].payload, BuilderDelivery(r))
        else if r.id !in s.requests then |calls| == 2
        else Rebuilds(s.requests[r.id], r, calls[2..]))
  }

  ghost predicate Rebuilds(kept: Remembered, r: GetRequest, calls: seq<Call>)
    requires BuilderDelivers(r)
  {
    && |calls| >= 1 && calls[0].L2Fcu? && calls[0].state == kept.state
    && calls[0].attrs.Some? && RebuildsFrom(calls[0].attrs.value, kept.attrs, BuilderDelivery(r))
    && (if Updates(r.l2Fcu) && r.l2Fcu.value.payloadId.Some?
        then
          && |calls| == 2 && calls[1].L2GetPayload?
          && calls[1].id == r.l2Fcu.value.payloadId.value && calls[1].version == r.version
        else |calls| == 1)
  }

  lemma GetCalls(cfg: Config, s: ServerState, r: GetRequest)
    ensures CallsOfGet(cfg, s, r, GetPayload(cfg, s, r).calls)
  {
    var b := BuilderBranch(cfg, s, r);
    assert s.mode != Disabled ==> GetPayload(cfg, s, r).calls[1..] == b.calls;
    if s.mode != Disabled && s.trace.HasBuilderPayload(r.id) && BuilderDelivers(r) {
      BuilderAnswers(r);
      assert GetPayload(cfg, s, r).calls[2..] == b.calls[1..];
    }
  }

  /** What L2 is sent: every fork-choice update and every block as it came, exactly once, whatever the mode
      and the builder's health, and the calls of getPayload. */
  lemma L2CalledWith(cfg: Config, s: ServerState, e: Event)
    ensures match e
            case FcuReceived(r) =>
              && Fcu(cfg, s, r).calls[0] == L2Fcu(r.state, r.attrs, Fcu(cfg, s, r).answer)
              && (forall k | 1 <= k < |Fcu(cfg, s, r).calls| :: Fcu(cfg, s, r).calls[k].ToBuilder())
            case PayloadReceived(r) =>
              var calls := Imported(cfg, s, r).calls;
              && calls != [] && calls[|calls| - 1] == L2NewPayload(r.payload, Imported(cfg, s, r).answer)
              && (forall k | 0 <= k < |calls| - 1 :: calls[k].ToBuilder())
            case PayloadRequested(r) => CallsOfGet(cfg, s, r, GetPayload(cfg, s, r).calls)
            case _ => Calls(cfg, s, e) == []
  {
    if e.PayloadRequested? {
      GetCalls(cfg, s, e.get);
    }
  }

  lemma BuilderCallsOfGet(cfg: Config, s: ServerState, r: GetRequest)
    ensures CallsOnly(GetPayload(cfg, s, r).calls, s.mode != Disabled && s.trace.HasBuilderPayload(r.id),
                      BuilderGetPayload(r.id, r.version, r.Builder()))
  {
    GetCalls(cfg, s, r);
    var calls := GetPayload(cfg, s, r).calls;
    assert |calls| >= 2 ==> calls[1] in calls;
    assert |calls| > 2 ==> calls[2..][0] == calls[2];
    assert |calls| > 3 ==> calls[2..][1] == calls[3];
  }

  /** Exactly which requests reach the builder, and with the arguments of the request itself. */
  lemma BuilderCalledIff(cfg: Config, s: ServerState, e: Event)
    ensures CallsBuilder(cfg, s, e) <==>
              match e
              case FcuReceived(r) =>
                && s.mode != Disabled && Trusted(cfg, s)
                && (r.attrs.Some? ==> r.attrs.value.noTxPool != Some(true))
              case PayloadReceived(r) => s.mode != Disabled && Trusted(cfg, s)
              case PayloadRequested(r) => s.mode != Disabled && s.trace.HasBuilderPayload(r.id)
              case _ => false
    ensures forall c | c in Calls(cfg, s, e) && c.ToBuilder() ::
              match e
              case FcuReceived(r) => c == BuilderFcu(r.state, r.attrs)
              case PayloadReceived(r) => c == BuilderNewPayload(r.payload)
              case PayloadRequested(r) => c == BuilderGetPayload(r.id, r.version, r.Builder())
              case _ => false
  {
    match e
    case FcuReceived(r) => BuilderCallsOfFcu(cfg, s, r);
    case PayloadReceived(r) => BuilderCallsOfImport(cfg, s, r);
    case PayloadRequested(r) => BuilderCallsOfGet(cfg, s, r);
    case _ =>
  }

  /** In any run getPayload asks the builder exactly when the mode allows it and the builder holds the
      payload by the run's history. */
  lemma BuilderAskedIff(cfg: Config, mode: Mode, events: seq<Event>, r: GetRequest)
    ensures CallsBuilder(cfg, Run(cfg, Started(mode), events), PayloadRequested(r))
       <==> ModeAfter(mode, events) != Disabled && BuilderHolds(cfg, mode, events, r.id)
  {
    ModeIs(cfg, mode, events);
    RecordedIff(cfg, mode, events, r.id);
    BuilderCalledIff(cfg, Run(cfg, Started(mode), events), PayloadRequested(r));
  }

  /** The event imports a block on the parent, or evicts the parent's list. */
  predicate EndsList(e: Event, parent: Hash) {
    || (e.PayloadReceived? && e.block.payload.payload.parentHash == parent)
    || e == ParentEvicted(parent)
  }

  /** Event k is an update that records the id. */
  ghost predicate RecordsAt(cfg: Config, mode: Mode, events: seq<Event>, k: nat, id: PayloadId)
    requires k < |events|
  {
    events[k].FcuReceived? && Records(cfg, Run(cfg, Started(mode), events[..k]), events[k].fcu, id)
  }

  /** The log entry of a recording update, and of no other event, stores the id. */
  lemma RecordIsStore(cfg: Config, mode: Mode, events: seq<Event>, k: nat, id: PayloadId)
    requires k < |events|
    ensures var op := Log(cfg, mode, events)[k];
            && (RecordsAt(cfg, mode, events, k, id) <==> StoresId(op, id))
            && (StoresId(op, id) ==> op.parent == events[k].fcu.state.head)
  {
    LogAt(cfg, mode, events, k);
  }

  lemma ListEndsIsUnlists(cfg: Config, mode: Mode, events: seq<Event>, k: nat, parent: Hash)
    requires k < |events|
    ensures EndsList(events[k], parent) <==> Unlists(Log(cfg, mode, events)[k], parent)
    ensures events[k].PayloadReceived? && EndsList(events[k], parent) ==> Log(cfg, mode, events)[k] == Op.Remove(parent)
  {
    LogAt(cfg, mode, events, k);
  }

  lemma ImportClears(cfg: Config, mode: Mode, events: seq<Event>, k: nat, j: nat, id: PayloadId)
    requires k < j < |events| && RecordsAt(cfg, mode, events, k, id)
    requires events[j].PayloadReceived? && EndsList(events[j], events[k].fcu.state.head)
    requires forall i | k < i < j :: !EndsList(events[i], events[k].fcu.state.head)
    ensures Clears(Log(cfg, mode, events), id, j)
  {
    var ops, head := Log(cfg, mode, events), events[k].fcu.state.head;
    RecordIsStore(cfg, mode, events, k, id);
    ListEndsIsUnlists(cfg, mode, events, j, head);
    forall i | k < i < j
      ensures !Unlists(ops[i], head)
    {
      ListEndsIsUnlists(cfg, mode, events, i, head);
    }
    assert ListedBy(ops, head, id, k, j);
  }

  lemma ClearedForGood(cfg: Config, mode: Mode, events: seq<Event>, j: nat, id: PayloadId)
    requires j < |events| && Clears(Log(cfg, mode, events), id, j)
    requires forall i | j <= i < |events| :: !RecordsAt(cfg, mode, events, i, id)
    ensures !BuilderHolds(cfg, mode, events, id)
  {
    var ops := Log(cfg, mode, events);
    forall i | j <= i < |ops|
      ensures !StoresId(ops[i], id)
    {
      RecordIsStore(cfg, mode, events, i, id);
    }
    ClearedUntilStored(ops, id, j);
  }

  /** Importing a block on some parent, at j, ends every payload that was started on that parent, at k: from
      then on, for as long as no update records the id again, the builder does not hold it and is not
      asked for it. */
  lemma ImportEndsPayload(cfg: Config, mode: Mode, events: seq<Event>, k: nat, j: nat, id: PayloadId)
    requires k < j < |events| && RecordsAt(cfg, mode, events, k, id)
    requires events[j].PayloadReceived? && EndsList(events[j], events[k].fcu.state.head)
    requires forall i | k < i < j :: !EndsList(events[i], events[k].fcu.state.head)
    requires forall i | j < i < |events| :: !RecordsAt(cfg, mode, events, i, id)
    ensures !BuilderHolds(cfg, mode, events, id)
    ensures !Run(cfg, Started(mode), events).trace.HasBuilderPayload(id)
  {
    ImportClears(cfg, mode, events, k, j, id);
    ClearedForGood(cfg, mode, events, j, id);
    RecordedIff(cfg, mode, events, id);
  }

  /** With the gas policy, a builder block is returned only if it uses at least a tenth of the gas of L2's
      (for L2 blocks of up to 9007199254741000 gas). */
  lemma GasPolicyRespected(cfg: Config, s: ServerState, r: GetRequest)
    requires cfg.policy == Some(GasUsed)
    requires var a := GetPayload(cfg, s, r).answer; a.Answered? && a.result.Ok? && a.result.value.1 == Builder
    requires Delivers(r.l2, r.version) && GasOf(Delivery(r.l2, r.version)) <= EXACT_LIMIT
    ensures 10 * GasOf(GetPayload(cfg, s, r).answer.result.value.0) >= GasOf(Delivery(r.l2, r.version))
  {
    BuilderSourced(cfg, s, r);
    var p := GetPayload(cfg, s, r).answer.result.value.0;
    SelectionIsExact(GasOf(p), GasOf(Delivery(r.l2, r.version)));
  }

  // ---- Quiet builder ----

  /** The builder is out: unhealthy, and nothing cached claims that it is building. */
  ghost predicate Out(s: ServerState) {
    s.health != Healthy && forall id :: !s.trace.HasBuilderPayload(id)
  }

  /** Events that leave the mode Enabled and do not come from a health check that finds the builder well. */
  predicate KeepsEnabled(e: Event) {
    match e
    case ModeSet(mode) => mode == Enabled
    case PayloadRequested(r) => r.later == Enabled
    case HealthChecked(verdict) => verdict != Some(Healthy)
    case _ => true
  }

  ghost predicate CallsBuilder(cfg: Config, s: ServerState, e: Event) {
    exists c | c in Calls(cfg, s, e) :: c.ToBuilder()
  }

  lemma OutStep(cfg: Config, s: ServerState, e: Event)
    requires cfg.ignoreUnhealthyBuilders && s.mode == Enabled && Out(s) && KeepsEnabled(e)
    ensures var t := Step(cfg, s, e); t.mode == Enabled && Out(t)
    ensures !CallsBuilder(cfg, s, e)
  {
    var t := Step(cfg, s, e);
    forall id
      ensures !t.trace.HasBuilderPayload(id)
    {
      assert !s.trace.HasBuilderPayload(id);
    }
    if e.PayloadRequested? {
      assert !s.trace.HasBuilderPayload(e.get.id);
      assert Calls(cfg, s, e) == [L2GetPayload(e.get.id, e.get.version, e.get.L2())];
    }
  }

  lemma {:induction false} StaysOut(cfg: Config, s: ServerState, events: seq<Event>)
    requires cfg.ignoreUnhealthyBuilders && s.mode == Enabled && Out(s)
    requires forall k | 0 <= k < |events| :: KeepsEnabled(events[k])
    ensures Run(cfg, s, events).mode == Enabled && Out(Run(cfg, s, events))
    decreases |events|
  {
    if events == [] {
    } else {
      StaysOut(cfg, s, events[..|events| - 1]);
      OutStep(cfg, Run(cfg, s, events[..|events| - 1]), events[|events| - 1]);
    }
  }

  /** Quiet builder: with unhealthy builders ignored and the mode Enabled, once the builder is out no
      sequence of requests, evictions and adverse health checks calls its engine API or restores
      Healthy; only a health check that finds it well does. */
  lemma QuietBuilder(cfg: Config, s: ServerState, events: seq<Event>, k: nat)
    requires cfg.ignoreUnhealthyBuilders && s.mode == Enabled && Out(s)
    requires forall j | 0 <= j < |events| :: KeepsEnabled(events[j])
    requires k < |events|
    ensures !CallsBuilder(cfg, Run(cfg, s, events[..k]), events[k])
    ensures Step(cfg, Run(cfg, s, events[..k]), events[k]).health != Healthy
  {
    StaysOut(cfg, s, events[..k]);
    OutStep(cfg, Run(cfg, s, events[..k]), events[k]);
  }

  predicate KeepsDisabled(e: Event) {
    match e
    case ModeSet(mode) => mode == Disabled
    case PayloadRequested(r) => r.later == Disabled
    case _ => true
  }

  lemma DisabledStep(cfg: Config, s: ServerState, e: Event)
    requires s.mode == Disabled && KeepsDisabled(e)
    ensures Step(cfg, s, e).mode == Disabled && !CallsBuilder(cfg, s, e)
  {
  }

  lemma {:induction false} StaysDisabled(cfg: Config, s: ServerState, events: seq<Event>)
    requires s.mode == Disabled && forall k | 0 <= k < |events| :: KeepsDisabled(events[k])
    ensures Run(cfg, s, events).mode == Disabled
    decreases |events|
  {
    if events == [] {
    } else {
      StaysDisabled(cfg, s, events[..|events| - 1]);
      DisabledStep(cfg, Run(cfg, s, events[..|events| - 1]), events[|events| - 1]);
    }
  }

  /** A server that stays Disabled never calls the builder's engine API. */
  lemma DisabledIsQuiet(cfg: Config, s: ServerState, events: seq<Event>, k: nat)
    requires s.mode == Disabled && forall j | 0 <= j < |events| :: KeepsDisabled(events[j])
    requires k < |events|
    ensures !CallsBuilder(cfg, Run(cfg, s, events[..k]), events[k])
  {
    StaysDisabled(cfg, s, events[..k]);
    DisabledStep(cfg, Run(cfg, s, events[..k]), events[k]);
  }
}
