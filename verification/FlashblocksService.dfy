/** The flashblocks service: it accepts the flashblocks of the payload being built, publishes every one
    it accepts, and serves the block assembled from them. Each handler is one step here;
    FlashblocksInterleaving takes every lock acquisition as its own step. */
module FlashblocksService {
  import opened Wrappers
  import opened Payload
  import opened FlashblockBuilder
  import Engine

  /** The state of the service. Everything published since position resetAt of the outbound stream was
      accepted after the last builder reset: it is the current epoch. */
  datatype Service = Service(
    current: Option<PayloadId>,
    assembly: Assembly,
    maxFlashblocks: nat,
    published: seq<Flashblock>,
    resetAt: nat)
  {
    ghost function Epoch(): seq<Flashblock>
      requires resetAt <= |published|
    {
      published[resetAt..]
    }

    function Reset(): Service {
      this.(assembly := EMPTY, resetAt := |published|)
    }

    function SetId(id: PayloadId): Service {
      this.(current := Some(id)).Reset()
    }

    function Accept(p: Flashblock): Service {
      if current != Some(p.payloadId) then this
      else match Extended(assembly, p)
        case Err(_) => this
        case Ok(a) => this.(assembly := a, published := published + [p])
    }

    /** The service after getPayload for an id; only the current id consumes the assembly. */
    function Consumed(id: PayloadId): Service {
      if current != Some(id) then this
      else this.(maxFlashblocks := Max(maxFlashblocks, |assembly.deltas|)).Reset()
    }

    function Best(version: Version, id: PayloadId): Result<Envelope, FlashblocksError> {
      if current != Some(id) then Err(MissingPayload) else BuildEnvelope(assembly, version)
    }

    /** The answer to getPayload: the assembled block, or what the builder's own client returns. */
    function Served(version: Version, id: PayloadId, raw: Engine.RawPayload): (r: Result<Envelope, Engine.Error>)
      ensures r.Ok? ==> r.value.Version() == version
    {
      match Best(version, id)
      case Ok(e) => Ok(e)
      case Err(_) => Engine.ClientGetPayload(raw, version)
    }

    function Replied(id: Option<PayloadId>): Service {
      if id.Some? && current != id then SetId(id.value) else this
    }
  }

  function Max(a: nat, b: nat): nat {
    if a < b then b else a
  }

  const STARTED := Service(None, EMPTY, 0, [], 0)

  /** A getPayload sent to the builder's own client, and whether its answer is used. */
  datatype ClientRequest = ClientRequest(id: PayloadId, version: Version, answered: bool)

  class FlashblocksService {
    var currentPayloadId: Option<PayloadId>
    var bestPayload: FlashblockBuilder
    var maxFlashblocks: nat
    var published: seq<Flashblock>
    ghost var resetAt: nat

    ghost function View(): Service
      reads this, bestPayload
    {
      Service(currentPayloadId, bestPayload.View(), maxFlashblocks, published, resetAt)
    }

    constructor ()
      ensures View() == STARTED && fresh(bestPayload)
    {
      currentPayloadId, maxFlashblocks, published, resetAt := None, 0, [], 0;
      bestPayload := new FlashblockBuilder();
    }

    /** Moves to another payload and drops what was assembled for the previous one. */
    method SetCurrentPayloadId(id: PayloadId)
      modifies this
      ensures View() == old(View()).SetId(id) && fresh(bestPayload)
    {
      currentPayloadId := Some(id);
      bestPayload := new FlashblockBuilder();
      resetAt := |published|;
    }

    /** Accepts and publishes a flashblock of the current payload that continues the sequence. */
    method OnEvent(p: Flashblock)
      modifies this, bestPayload
      ensures View() == old(View()).Accept(p) && bestPayload == old(bestPayload)
    {
      match currentPayloadId {
        case None => return;
        case Some(id) => if id != p.payloadId { return; }
      }
      var extended := bestPayload.Extend(p);
      if extended.Ok? {
        published := published + [p];
      }
    }

    /** Processes an inbound stream in order. */
    method Run(stream: seq<Flashblock>)
      modifies this, bestPayload
      ensures View() == RunSteps(old(View()), Events(stream)) && bestPayload == old(bestPayload)
    {
      for i := 0 to |stream|
        invariant bestPayload == old(bestPayload)
        invariant View() == RunSteps(old(View()), Events(stream[..i]))
      {
        OnEvent(stream[i]);
        assert Events(stream[..i + 1]) == Events(stream[..i]) + [Event(stream[i])];
      }
      assert stream[..|stream|] == stream;
    }

    /** Serves and consumes the assembled block, if it belongs to the requested payload. */
    method GetBestPayload(version: Version, id: PayloadId) returns (r: Result<Envelope, FlashblocksError>)
      modifies this
      ensures View() == old(View()).Consumed(id)
      ensures r == old(View()).Best(version, id)
      ensures bestPayload == old(bestPayload) || fresh(bestPayload)
    {
      if currentPayloadId != Some(id) {
        return Err(MissingPayload);
      }
      maxFlashblocks := Max(maxFlashblocks, |bestPayload.flashblocks|);
      var taken := bestPayload;
      bestPayload := new FlashblockBuilder();
      resetAt := |published|;
      r := BuildEnvelope(Assembly(taken.base, taken.flashblocks), version);
    }

    /** The part of a fork-choice update before the builder is called: adopt the computed payload id. */
    method ForkChoiceSent(computed: Option<PayloadId>)
      modifies this
      ensures View() == (if computed.Some? then old(View()).SetId(computed.value) else old(View()))
      ensures bestPayload == old(bestPayload) || fresh(bestPayload)
    {
      if computed.Some? {
        SetCurrentPayloadId(computed.value);
      }
    }

    /** The part after the builder answered: its payload id wins over the computed one. */
    method ForkChoiceReplied(id: Option<PayloadId>)
      modifies this
      ensures View() == old(View()).Replied(id)
      ensures bestPayload == old(bestPayload) || fresh(bestPayload)
    {
      if id.Some? && currentPayloadId != id {
        SetCurrentPayloadId(id.value);
      }
    }

    /** getPayload on the builder side: the assembled block if there is one, otherwise the block the
        builder's own client returns. Either way that client is sent exactly one getPayload for the id: the
        one that is answered, or one that only tells the builder to finish and whose answer is dropped. */
    method GetPayload(version: Version, id: PayloadId, raw: Engine.RawPayload)
      returns (r: Result<Envelope, Engine.Error>, requests: seq<ClientRequest>)
      modifies this
      ensures View() == old(View()).Consumed(id)
      ensures r == old(View()).Served(version, id, raw)
      ensures requests == [ClientRequest(id, version, old(View()).Best(version, id).Err?)]
      ensures bestPayload == old(bestPayload) || fresh(bestPayload)
    {
      var best := GetBestPayload(version, id);
      match best
      case Ok(e) =>
        requests := [ClientRequest(id, version, false)];
        r := Ok(e);
      case Err(_) =>
        requests := [ClientRequest(id, version, true)];
        r := Engine.ClientGetPayload(raw, version);
    }
  }

  // ---- Whole runs ----

  datatype Step =
    | Event(p: Flashblock)
    | FcuSent(computed: Option<PayloadId>)
    | FcuReplied(reply: Option<PayloadId>)
    | GetPayload(id: PayloadId)

  function Apply(s: Service, step: Step): Service {
    match step
    case Event(p) => s.Accept(p)
    case FcuSent(computed) => if computed.Some? then s.SetId(computed.value) else s
    case FcuReplied(reply) => s.Replied(reply)
    case GetPayload(id) => s.Consumed(id)
  }

  ghost function RunSteps(s: Service, steps: seq<Step>): Service
    decreases |steps|
  {
    if steps == [] then s else Apply(RunSteps(s, steps[..|steps| - 1]), steps[|steps| - 1])
  }

  ghost function Events(stream: seq<Flashblock>): seq<Step> {
    seq(|stream|, i requires 0 <= i < |stream| => Event(stream[i]))
  }

  /** What every step keeps: the assembly is the block of the current epoch, and every flashblock of
      the epoch carries the current payload id. */
  ghost predicate Consistent(s: Service) {
    && s.resetAt <= |s.published|
    && Valid(s.Epoch())
    && s.assembly == Assembled(s.Epoch())
    && forall i | s.resetAt <= i < |s.published| :: s.current == Some(s.published[i].payloadId)
  }

  lemma StepKeepsConsistent(s: Service, step: Step)
    requires Consistent(s)
    ensures Consistent(Apply(s, step))
  {
    var t := Apply(s, step);
    if step.Event? && t != s {
      assert t.Epoch() == s.Epoch() + [step.p];
      ExtendAssembled(s.Epoch(), step.p);
    } else if t != s {
      assert t.Epoch() == [];
    }
  }

  lemma {:induction false} RunKeepsConsistent(s: Service, steps: seq<Step>)
    requires Consistent(s)
    ensures Consistent(RunSteps(s, steps))
    decreases |steps|
  {
    if steps == [] {
    } else {
      RunKeepsConsistent(s, steps[..|steps| - 1]);
      StepKeepsConsistent(RunSteps(s, steps[..|steps| - 1]), steps[|steps| - 1]);
    }
  }

  /** Preconfirmation preservation. After any run, getPayload is served from flashblocks exactly when
      the id is the current one and something was published this epoch; the envelope is then exactly
      the block of everything published this epoch, all of which carries the requested id. The only
      refusal is MissingPayload: MissingDelta cannot occur. */
  lemma PreconfirmationsPreserved(steps: seq<Step>, version: Version, id: PayloadId)
    ensures var s := RunSteps(STARTED, steps);
            var r := s.Best(version, id);
            && Consistent(s)
            && (r.Ok? <==> s.current == Some(id) && s.Epoch() != [])
            && (r.Err? ==> r.error == MissingPayload)
            && (r.Ok? ==> && r.value.Version() == version
                          && Describes(r.value, s.Epoch())
                          && forall p | p in s.Epoch() :: p.payloadId == id)
  {
    RunKeepsConsistent(STARTED, steps);
    var s := RunSteps(STARTED, steps);
    BuildEnvelopeDescribes(s.Epoch(), version);
    forall p | p in s.Epoch() && s.current == Some(id)
      ensures p.payloadId == id
    {
      var i :| 0 <= i < |s.Epoch()| && s.Epoch()[i] == p;
      assert s.published[s.resetAt + i] == p;
    }
  }

  /** What getPayload answers after any run: the block of everything published this epoch, if the id is
      current and there is anything; otherwise exactly what the builder's node said, in the version asked. */
  lemma ServedIs(steps: seq<Step>, version: Version, id: PayloadId, raw: Engine.RawPayload)
    ensures var s := RunSteps(STARTED, steps);
            var r := s.Served(version, id, raw);
            && s.resetAt <= |s.published|
            && if s.current == Some(id) && s.Epoch() != []
               then Valid(s.Epoch()) && r.Ok? && r.value.Version() == version && Describes(r.value, s.Epoch())
               else match version
                 case V3 => (if raw.v3.Ok? then r == Ok(InV3(raw.v3.value)) else r == Err(raw.v3.error))
                 case V4 => (if raw.v4.Ok? then r == Ok(InV4(raw.v4.value)) else r == Err(raw.v4.error))
  {
    PreconfirmationsPreserved(steps, version, id);
  }

  /** An epoch after one more inbound message: the message joins it if it is the next of its payload. */
  ghost function NextEpoch(epoch: seq<Flashblock>, id: PayloadId, p: Flashblock): seq<Flashblock> {
    if p.payloadId == id && p.index == |epoch| && (p.base.Some? <==> p.index == 0) then epoch + [p] else epoch
  }

  /** The flashblocks of a stream that a service starting a fresh epoch for an id accepts. */
  ghost function Accepted(id: PayloadId, stream: seq<Flashblock>): seq<Flashblock>
    decreases |stream|
  {
    if stream == [] then []
    else NextEpoch(Accepted(id, stream[..|stream| - 1]), id, stream[|stream| - 1])
  }

  lemma AcceptExtendsEpoch(s: Service, id: PayloadId, p: Flashblock)
    requires Consistent(s) && s.current == Some(id)
    ensures var t := s.Accept(p);
            && Consistent(t) && t.current == Some(id) && t.resetAt == s.resetAt
            && t.Epoch() == NextEpoch(s.Epoch(), id, p)
            && t.published == s.published[..s.resetAt] + t.Epoch()
  {
    var t := s.Accept(p);
    StepKeepsConsistent(s, Event(p));
    var grown := s.Epoch() + [p];
    assert Valid(grown) <==> p.index == |s.Epoch()| && (p.base.Some? <==> p.index == 0) by {
      assert grown[|s.Epoch()|] == p;
      assert forall i | 0 <= i < |s.Epoch()| :: grown[i] == s.Epoch()[i];
    }
    ExtendAssembled(s.Epoch(), p);
    if t != s {
      assert t.Epoch() == grown;
    }
  }

  /** A fork-choice update that starts a payload opens an epoch: flashblocks that arrive while the
      builder is still answering are accepted by the sequence rules and published. */
  lemma {:induction false} RoundTrip(s: Service, id: PayloadId, stream: seq<Flashblock>)
    requires Consistent(s)
    ensures var t := RunSteps(s.SetId(id), Events(stream));
            && Consistent(t) && t.current == Some(id) && t.resetAt == |s.published|
            && t.Epoch() == Accepted(id, stream)
            && t.published == s.published + Accepted(id, stream)
    decreases |stream|
  {
    if stream == [] {
      assert s.SetId(id).Epoch() == [];
      assert s.published + [] == s.published;
    } else {
      var front := stream[..|stream| - 1];
      RoundTrip(s, id, front);
      assert Events(stream)[..|stream| - 1] == Events(front);
      var before := RunSteps(s.SetId(id), Events(front));
      AcceptExtendsEpoch(before, id, stream[|stream| - 1]);
      assert before.published[..|s.published|] == s.published;
    }
  }

  /** The end of the round trip: if the builder's id agrees with the computed one, the block keeps every
      flashblock accepted meanwhile; if it differs, the block drops them all although they stay published. */
  lemma RoundTripEnds(s: Service, id: PayloadId, stream: seq<Flashblock>, reply: PayloadId)
    requires Consistent(s)
    ensures var t := Apply(RunSteps(s.SetId(id), Events(stream)), FcuReplied(Some(reply)));
            && Consistent(t)
            && t.current == Some(reply)
            && t.Epoch() == (if reply == id then Accepted(id, stream) else [])
            && t.published == s.published + Accepted(id, stream)
  {
    RoundTrip(s, id, stream);
    StepKeepsConsistent(RunSteps(s.SetId(id), Events(stream)), FcuReplied(Some(reply)));
  }

  /** A getPayload step that serves the current payload. */
  ghost predicate Serves(steps: seq<Step>, k: nat)
    requires k < |steps|
  {
    steps[k].GetPayload? && RunSteps(STARTED, steps[..k]).current == Some(steps[k].id)
  }

  ghost function LengthAt(steps: seq<Step>, k: nat): nat
    requires k < |steps|
  {
    |RunSteps(STARTED, steps[..k]).assembly.deltas|
  }

  /** The counter of most flashblocks is the longest block any getPayload has consumed. */
  lemma {:induction false} MaxIsLongestServed(steps: seq<Step>)
    ensures var m := RunSteps(STARTED, steps).maxFlashblocks;
            && (forall k | 0 <= k < |steps| && Serves(steps, k) :: LengthAt(steps, k) <= m)
            && (m == 0 || exists k :: 0 <= k < |steps| && Serves(steps, k) && LengthAt(steps, k) == m)
    decreases |steps|
  {
    if steps == [] {
    } else {
      var n := |steps| - 1;
      var front := steps[..n];
      MaxIsLongestServed(front);
      forall k | 0 <= k < n
        ensures Serves(front, k) == Serves(steps, k) && LengthAt(front, k) == LengthAt(steps, k)
      {
        assert front[..k] == steps[..k];
      }
      var m := RunSteps(STARTED, front).maxFlashblocks;
      if RunSteps(STARTED, steps).maxFlashblocks != m {
        assert Serves(steps, n) && LengthAt(steps, n) == RunSteps(STARTED, steps).maxFlashblocks;
      } else if m != 0 {
        var k :| 0 <= k < n && Serves(front, k) && LengthAt(front, k) == m;
        assert Serves(steps, k) && LengthAt(steps, k) == m;
      }
    }
  }
}
