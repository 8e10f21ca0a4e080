/** The engine API server between a consensus client, the local L2 node and an external block builder.
    Each request is one step; what the nodes answer, and the execution mode at its later read, come with
    the request. */
module Server {
  import opened Wrappers
  import opened Payload
  import opened Modes
  import opened Engine
  import opened PayloadTrace
  import opened Selection
  import FlashblocksService

  datatype Config = Config(policy: Option<Policy>, externalStateRoot: bool, ignoreUnhealthyBuilders: bool)

  /** A fork-choice request remembered for rebuilding a payload. */
  datatype Remembered = Remembered(state: ForkchoiceState, attrs: Option<OpAttributes>)

  datatype ServerState = ServerState(
    mode: Mode,
    health: Health,
    trace: Index,
    requests: map<PayloadId, Remembered>)

  /** The calls the server makes, with their arguments and, for the L2 node, the client's result. */
  datatype Call =
    | L2Fcu(state: ForkchoiceState, attrs: Option<OpAttributes>, updated: Result<ForkchoiceUpdated, Error>)
    | L2NewPayload(payload: NewPayload, status: Result<Status, Error>)
    | L2GetPayload(id: PayloadId, version: Version, envelope: Result<Envelope, Error>)
    | BuilderFcu(state: ForkchoiceState, attrs: Option<OpAttributes>)
    | BuilderNewPayload(payload: NewPayload)
    | BuilderGetPayload(id: PayloadId, version: Version, envelope: Result<Envelope, Error>)
  {
    predicate ToBuilder() {
      BuilderFcu? || BuilderNewPayload? || BuilderGetPayload?
    }
  }

  // ---- Requests, with everything the outside contributes ----

  datatype FcuRequest = FcuRequest(
    state: ForkchoiceState,
    attrs: Option<OpAttributes>,
    l2: Result<ForkchoiceUpdated, Error>,
    builder: Result<ForkchoiceUpdated, Error>,
    span: Option<nat>)

  datatype NewPayloadRequest = NewPayloadRequest(payload: NewPayload, l2: Result<Status, Error>)

  /** The builder behind the server: a plain RPC client, or a flashblocks service in some state. */
  datatype BuilderSide =
    | Rpc(raw: RawPayload)
    | Flashblocks(service: FlashblocksService.Service, raw: RawPayload)
  {
    function GetPayload(id: PayloadId, version: Version): (r: Result<Envelope, Error>)
      ensures r.Ok? ==> r.value.Version() == version
    {
      match this
      case Rpc(raw) => ClientGetPayload(raw, version)
      case Flashblocks(service, raw) => service.Served(version, id, raw)
    }
  }

  /** A getPayload request. The mode may change to `later` while the server awaits the nodes; l2New,
      l2Fcu and l2Rebuilt are the L2 node's answers to the calls that check the builder's payload. */
  datatype GetRequest = GetRequest(
    id: PayloadId,
    version: Version,
    later: Mode,
    l2: RawPayload,
    builder: BuilderSide,
    l2New: Result<Status, Error>,
    l2Fcu: Result<ForkchoiceUpdated, Error>,
    l2Rebuilt: RawPayload)
  {
    function L2(): (r: Result<Envelope, Error>)
      ensures r.Ok? ==> r.value.Version() == version
    {
      ClientGetPayload(l2, version)
    }

    function Builder(): (r: Result<Envelope, Error>)
      ensures r.Ok? ==> r.value.Version() == version
    {
      builder.GetPayload(id, version)
    }
  }

  datatype Answer<+T> = Answered(result: Result<T, Error>) | Panicked

  // ---- What each request does ----

  predicate SkipsUnhealthyBuilder(cfg: Config, s: ServerState) {
    cfg.ignoreUnhealthyBuilders && s.health != Healthy
  }

  /** A request's effect on the state, the calls it makes and its answer. */
  datatype Effect<+T> = Effect(after: ServerState, calls: seq<Call>, answer: T)

  function Fcu(cfg: Config, s: ServerState, r: FcuRequest): Effect<Result<ForkchoiceUpdated, Error>> {
    var l2 := ClientFcu(r.l2);
    var toL2 := L2Fcu(r.state, r.attrs, l2);
    if s.mode == Disabled || SkipsUnhealthyBuilder(cfg, s) then Effect(s, [toL2], l2)
    else if r.attrs.Some? && r.attrs.value.noTxPool == Some(true) then
      if l2.Ok? && l2.value.payloadId.Some? then
        Effect(s.(trace := s.trace.Store(l2.value.payloadId.value, r.state.head, false, r.span)), [toL2], l2)
      else Effect(s, [toL2], l2)
    else
      var calls := [toL2, BuilderFcu(r.state, r.attrs)];
      if l2.Ok? && l2.value.payloadId.Some? then
        var id := l2.value.payloadId.value;
        var trace :=
          if r.attrs.Some? then s.trace.Store(id, r.state.head, ClientFcu(r.builder).Ok?, r.span) else s.trace;
        var requests := if cfg.externalStateRoot then s.requests[id := Remembered(r.state, r.attrs)] else s.requests;
        Effect(s.(trace := trace, requests := requests), calls, l2)
      else Effect(s, calls, l2)
  }

  function Imported(cfg: Config, s: ServerState, r: NewPayloadRequest): Effect<Result<Status, Error>> {
    var l2 := ClientNewPayload(r.l2);
    var toL2 := L2NewPayload(r.payload, l2);
    Effect(s.(trace := s.trace.Remove(r.payload.payload.parentHash)),
           if s.mode != Disabled && !SkipsUnhealthyBuilder(cfg, s) then [BuilderNewPayload(r.payload), toL2]
           else [toL2],
           l2)
  }

  /** The attributes for rebuilding the builder's block on the L2 node. */
  function RebuildAttributes(remembered: Option<OpAttributes>, builder: Envelope): OpAttributes {
    match remembered
    case Some(a) => a.(transactions := Some(builder.Transactions()), noTxPool := Some(true))
    case None => OpAttributes(builder.Attributes(), Some(builder.Transactions()), Some(true), None, None, None)
  }

  /** What the builder branch of getPayload comes to. */
  datatype Candidate = Candidate(payload: Option<Envelope>, failed: bool)

  datatype BuilderEffect = BuilderEffect(
    requests: map<PayloadId, Remembered>,
    calls: seq<Call>,
    candidate: Option<Candidate>)

  /** Validates the builder's payload with the L2 node. */
  function Validated(s: ServerState, r: GetRequest, payload: Envelope): BuilderEffect {
    var status := ClientNewPayload(r.l2New);
    BuilderEffect(s.requests,
                  [BuilderGetPayload(r.id, r.version, Ok(payload)), L2NewPayload(NewPayloadFrom(payload), status)],
                  Some(if status.Ok? then Candidate(Some(payload), false) else Candidate(None, true)))
  }

  /** Has the L2 node rebuild the builder's payload from the remembered request; no candidate means that
      the request was not there and the lookup panicked. */
  function Rebuilt(s: ServerState, r: GetRequest, payload: Envelope): BuilderEffect {
    var got := BuilderGetPayload(r.id, r.version, Ok(payload));
    if r.id !in s.requests then BuilderEffect(s.requests, [got], None)
    else
      var kept := s.requests[r.id];
      var updated := ClientFcu(r.l2Fcu);
      var requests := s.requests - {r.id};
      var calls := [got, L2Fcu(kept.state, Some(RebuildAttributes(kept.attrs, payload)), updated)];
      if updated.Err? then BuilderEffect(requests, calls, Some(Candidate(None, true)))
      else if updated.value.payloadId.None? then BuilderEffect(requests, calls, Some(Candidate(None, false)))
      else
        var rebuilt := ClientGetPayload(r.l2Rebuilt, r.version);
        BuilderEffect(requests, calls + [L2GetPayload(updated.value.payloadId.value, r.version, rebuilt)],
                      Some(Candidate(if rebuilt.Ok? then Some(rebuilt.value) else None, false)))
  }

  function BuilderBranch(cfg: Config, s: ServerState, r: GetRequest): BuilderEffect {
    if !s.trace.HasBuilderPayload(r.id) then BuilderEffect(s.requests, [], Some(Candidate(None, true)))
    else match r.Builder()
      case Err(x) =>
        BuilderEffect(s.requests, [BuilderGetPayload(r.id, r.version, Err(x))], Some(Candidate(None, true)))
      case Ok(payload) => if cfg.externalStateRoot then Rebuilt(s, r, payload) else Validated(s, r, payload)
  }

  function Choose(cfg: Config, mode: Mode, builder: Envelope, l2: Envelope): (Envelope, Source) {
    if mode == DryRun then (l2, L2)
    else if cfg.policy.Some? then SelectBlock(cfg.policy.value, builder, l2)
    else (builder, Builder)
  }

  function GetPayload(cfg: Config, s: ServerState, r: GetRequest): Effect<Answer<(Envelope, Source)>> {
    var l2 := r.L2();
    var toL2 := L2GetPayload(r.id, r.version, l2);
    var s' := s.(mode := r.later);
    if s.mode == Disabled then
      match l2
      case Ok(payload) => Effect(s'.(health := Healthy), [toL2], Answered(Ok((payload, L2))))
      case Err(x) => Effect(s'.(health := ServiceUnavailable), [toL2], Answered(Err(x)))
    else
      var b := BuilderBranch(cfg, s, r);
      var t := s'.(requests := b.requests);
      var calls := [toL2] + b.calls;
      if b.candidate.None? then Effect(t, calls, Panicked)
      else match l2
        case Err(x) => Effect(t.(health := ServiceUnavailable), calls, Answered(Err(x)))
        case Ok(payload) =>
          match b.candidate.value.payload
          case Some(builder) =>
            Effect(t.(health := Healthy), calls, Answered(Ok(Choose(cfg, r.later, builder, payload))))
          case None =>
            var health := if r.later == Enabled && b.candidate.value.failed then PartialContent else Healthy;
            Effect(t.(health := health), calls, Answered(Ok((payload, L2))))
  }

  // ---- The server as it updates in place ----

  class RollupBoostServer {
    const cfg: Config
    const payloadTraceContext: PayloadTraceContext
    var executionMode: Mode
    var health: Health
    var payloadToFcuRequest: map<PayloadId, Remembered>

    ghost function View(): ServerState
      reads this, payloadTraceContext
    {
      ServerState(executionMode, health, payloadTraceContext.View(), payloadToFcuRequest)
    }

    constructor (cfg: Config, mode: Mode)
      ensures this.cfg == cfg && View() == Started(mode) && fresh(payloadTraceContext)
      ensures executionMode == mode && health == Healthy && payloadToFcuRequest == map[]
    {
      this.cfg := cfg;
      executionMode, health, payloadToFcuRequest := mode, Healthy, map[];
      payloadTraceContext := new PayloadTraceContext();
    }

    /** Forwards a fork-choice update: L2's answer is the answer; a payload it starts is recorded. */
    method ForkChoiceUpdatedV3(r: FcuRequest) returns (answer: Result<ForkchoiceUpdated, Error>, calls: seq<Call>)
      modifies this, payloadTraceContext
      ensures View() == Fcu(cfg, old(View()), r).after
      ensures calls == Fcu(cfg, old(View()), r).calls
      ensures answer == Fcu(cfg, old(View()), r).answer
    {
      answer := ClientFcu(r.l2);
      calls := [L2Fcu(r.state, r.attrs, answer)];
      if executionMode == Disabled {
        return;
      }
      if cfg.ignoreUnhealthyBuilders && health != Healthy {
        return;
      }
      match r.attrs {
        case Some(attrs) =>
          if attrs.noTxPool == Some(true) {
            if answer.Ok? && answer.value.payloadId.Some? {
              payloadTraceContext.Store(answer.value.payloadId.value, r.state.head, false, r.span);
            }
          } else {
            calls := calls + [BuilderFcu(r.state, r.attrs)];
            var builderResult := ClientFcu(r.builder);
            if answer.Ok? && answer.value.payloadId.Some? {
              var id := answer.value.payloadId.value;
              payloadTraceContext.Store(id, r.state.head, builderResult.Ok?, r.span);
              if cfg.externalStateRoot {
                payloadToFcuRequest := payloadToFcuRequest[id := Remembered(r.state, r.attrs)];
              }
            }
          }
        case None =>
          calls := calls + [BuilderFcu(r.state, r.attrs)];
          if answer.Ok? && answer.value.payloadId.Some? && cfg.externalStateRoot {
            payloadToFcuRequest := payloadToFcuRequest[answer.value.payloadId.value := Remembered(r.state, r.attrs)];
          }
      }
    }

    /** Forwards a new block: L2's answer is the answer; payloads built on its parent are forgotten. */
    method NewPayloadReceived(r: NewPayloadRequest) returns (answer: Result<Status, Error>, calls: seq<Call>)
      modifies this, payloadTraceContext
      ensures View() == Imported(cfg, old(View()), r).after
      ensures calls == Imported(cfg, old(View()), r).calls
      ensures answer == Imported(cfg, old(View()), r).answer
    {
      payloadTraceContext.RemoveByParentHash(r.payload.payload.parentHash);
      calls := [];
      if executionMode != Disabled && !(cfg.ignoreUnhealthyBuilders && health != Healthy) {
        calls := [BuilderNewPayload(r.payload)];
      }
      answer := ClientNewPayload(r.l2);
      calls := calls + [L2NewPayload(r.payload, answer)];
    }

    /** Takes the remembered request out and has L2 rebuild the payload; None when it is not there. */
    method CalculateExternalStateRoot(r: GetRequest, payload: Envelope)
      returns (candidate: Option<Candidate>, calls: seq<Call>)
      modifies this`payloadToFcuRequest
      ensures var e := Rebuilt(old(View()), r, payload);
              && candidate == e.candidate && payloadToFcuRequest == e.requests
              && [BuilderGetPayload(r.id, r.version, Ok(payload))] + calls == e.calls
    {
      if r.id !in payloadToFcuRequest {
        return None, [];
      }
      var kept := payloadToFcuRequest[r.id];
      payloadToFcuRequest := payloadToFcuRequest - {r.id};
      var updated := ClientFcu(r.l2Fcu);
      calls := [L2Fcu(kept.state, Some(RebuildAttributes(kept.attrs, payload)), updated)];
      if updated.Err? {
        return Some(Candidate(None, true)), calls;
      }
      if updated.value.payloadId.Some? {
        var rebuilt := ClientGetPayload(r.l2Rebuilt, r.version);
        calls := calls + [L2GetPayload(updated.value.payloadId.value, r.version, rebuilt)];
        return Some(Candidate(if rebuilt.Ok? then Some(rebuilt.value) else None, false)), calls;
      }
      return Some(Candidate(None, false)), calls;
    }

    method RunBuilderBranch(r: GetRequest) returns (candidate: Option<Candidate>, calls: seq<Call>)
      modifies this`payloadToFcuRequest
      ensures var e := BuilderBranch(cfg, old(View()), r);
              candidate == e.candidate && payloadToFcuRequest == e.requests && calls == e.calls
    {
      var has := payloadTraceContext.HasBuilderPayload(r.id);
      if !has {
        return Some(Candidate(None, true)), [];
      }
      var got := r.Builder();
      calls := [BuilderGetPayload(r.id, r.version, got)];
      if got.Err? {
        return Some(Candidate(None, true)), calls;
      }
      if !cfg.externalStateRoot {
        var status := ClientNewPayload(r.l2New);
        calls := calls + [L2NewPayload(NewPayloadFrom(got.value), status)];
        return Some(if status.Ok? then Candidate(Some(got.value), false) else Candidate(None, true)), calls;
      }
      var more;
      candidate, more := CalculateExternalStateRoot(r, got.value);
      calls := calls + more;
    }

    /** Returns L2's block, or the builder's where L2 vouches for it and the mode and policy allow. */
    method GetPayloadVersioned(r: GetRequest) returns (answer: Answer<(Envelope, Source)>, calls: seq<Call>)
      modifies this
      ensures View() == GetPayload(cfg, old(View()), r).after
      ensures calls == GetPayload(cfg, old(View()), r).calls
      ensures answer == GetPayload(cfg, old(View()), r).answer
    {
      var l2 := r.L2();
      calls := [L2GetPayload(r.id, r.version, l2)];
      if executionMode == Disabled {
        executionMode := r.later;
        match l2 {
          case Ok(payload) =>
            health := Healthy;
            return Answered(Ok((payload, L2))), calls;
          case Err(x) =>
            health := ServiceUnavailable;
            return Answered(Err(x)), calls;
        }
      }
      var candidate, more := RunBuilderBranch(r);
      calls := calls + more;
      executionMode := r.later;
      if candidate.None? {
        return Panicked, calls;
      }
      if l2.Err? {
        health := ServiceUnavailable;
        return Answered(Err(l2.error)), calls;
      }
      health := Healthy;
      match candidate.value.payload {
        case Some(builder) =>
          if executionMode == DryRun {
            answer := Answered(Ok((l2.value, L2)));
          } else if cfg.policy.Some? {
            answer := Answered(Ok(SelectBlock(cfg.policy.value, builder, l2.value)));
          } else {
            answer := Answered(Ok((builder, Builder)));
          }
        case None =>
          if executionMode == Enabled && candidate.value.failed {
            health := PartialContent;
          }
          answer := Answered(Ok((l2.value, L2)));
      }
    }

    /** engine_getPayloadV3: an envelope of another version would be an error; none can occur. */
    method GetPayloadV3(r: GetRequest) returns (answer: Answer<EnvelopeV3>, calls: seq<Call>)
      requires r.version == V3
      modifies this
      ensures View() == GetPayload(cfg, old(View()), r).after
      ensures match GetPayload(cfg, old(View()), r).answer
              case Panicked => answer.Panicked?
              case Answered(Err(x)) => answer == Answered(Err(x))
              case Answered(Ok((e, _))) => e.InV3? && answer == Answered(Ok(e.v3))
    {
      var got;
      got, calls := GetPayloadVersioned(r);
      AnswerVersion(cfg, old(View()), r);
      match got {
        case Panicked => answer := Panicked;
        case Answered(Err(x)) => answer := Answered(Err(x));
        case Answered(Ok((e, _))) =>
          answer := if e.InV3? then Answered(Ok(e.v3)) else Answered(Err(UnsupportedVersion));
      }
    }

    /** engine_getPayloadV4, likewise. */
    method GetPayloadV4(r: GetRequest) returns (answer: Answer<EnvelopeV4>, calls: seq<Call>)
      requires r.version == V4
      modifies this
      ensures View() == GetPayload(cfg, old(View()), r).after
      ensures match GetPayload(cfg, old(View()), r).answer
              case Panicked => answer.Panicked?
              case Answered(Err(x)) => answer == Answered(Err(x))
              case Answered(Ok((e, _))) => e.InV4? && answer == Answered(Ok(e.v4))
    {
      var got;
      got, calls := GetPayloadVersioned(r);
      AnswerVersion(cfg, old(View()), r);
      match got {
        case Panicked => answer := Panicked;
        case Answered(Err(x)) => answer := Answered(Err(x));
        case Answered(Ok((e, _))) =>
          answer := if e.InV4? then Answered(Ok(e.v4)) else Answered(Err(UnsupportedVersion));
      }
    }
  }

  function Started(mode: Mode): ServerState {
    ServerState(mode, Healthy, EMPTY_INDEX, map[])
  }

  /** Version preservation: for every mode, policy, kind of builder and fallback, a payload that is
      returned has the version that was requested. */
  lemma AnswerVersion(cfg: Config, s: ServerState, r: GetRequest)
    ensures var a := GetPayload(cfg, s, r).answer;
            a.Answered? && a.result.Ok? ==> a.result.value.0.Version() == r.version
  {
    BranchVersion(cfg, s, r);
  }

  lemma BranchVersion(cfg: Config, s: ServerState, r: GetRequest)
    ensures var c := BuilderBranch(cfg, s, r).candidate;
            c.Some? && c.value.payload.Some? ==> c.value.payload.value.Version() == r.version
  {
  }
}
