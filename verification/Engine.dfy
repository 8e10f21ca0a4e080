/** The engine API as its clients see it. */
module Engine {
  import opened Wrappers
  import opened Payload

  datatype Error = RpcError(code: int) | InvalidPayload | UnsupportedVersion

  datatype Status = Valid | Invalid | Syncing | Accepted

  datatype ForkchoiceState = ForkchoiceState(head: Hash, safe: Hash, finalized: Hash)

  datatype ForkchoiceUpdated = ForkchoiceUpdated(status: Status, payloadId: Option<PayloadId>)

  // ---- What a node said ----

  /** The node applied the fork-choice update. */
  predicate Updates(u: Result<ForkchoiceUpdated, Error>) {
    u.Ok? && u.value.status != Invalid
  }

  /** The node did not reject the block. */
  predicate Accepts(x: Result<Status, Error>) {
    x.Ok? && x.value != Invalid
  }

  /** A node's answer to getPayload, whichever version it is asked in. */
  datatype RawPayload = RawPayload(v3: Result<EnvelopeV3, Error>, v4: Result<EnvelopeV4, Error>)

  predicate Delivers(raw: RawPayload, version: Version) {
    if version == V3 then raw.v3.Ok? else raw.v4.Ok?
  }

  function Delivery(raw: RawPayload, version: Version): Envelope
    requires Delivers(raw, version)
  {
    if version == V3 then InV3(raw.v3.value) else InV4(raw.v4.value)
  }

  function Failure(raw: RawPayload, version: Version): Error
    requires !Delivers(raw, version)
  {
    if version == V3 then raw.v3.error else raw.v4.error
  }

  // ---- What its client makes of it ----

  /** A client turns an INVALID answer into an error and passes on everything else. */
  function ClientFcu(raw: Result<ForkchoiceUpdated, Error>): (r: Result<ForkchoiceUpdated, Error>)
    ensures r.Ok? <==> Updates(raw)
    ensures Updates(raw) || raw.Err? ==> r == raw
    ensures raw.Ok? && !Updates(raw) ==> r == Err(InvalidPayload)
  {
    if raw.Ok? && raw.value.status == Invalid then Err(InvalidPayload) else raw
  }

  function ClientNewPayload(raw: Result<Status, Error>): (r: Result<Status, Error>)
    ensures r.Ok? <==> Accepts(raw)
    ensures Accepts(raw) || raw.Err? ==> r == raw
    ensures raw.Ok? && !Accepts(raw) ==> r == Err(InvalidPayload)
  {
    if raw == Ok(Invalid) then Err(InvalidPayload) else raw
  }

  /** The client asks in the requested version and wraps the node's answer as it is. */
  function ClientGetPayload(raw: RawPayload, version: Version): (r: Result<Envelope, Error>)
    ensures r.Ok? <==> Delivers(raw, version)
    ensures r.Ok? ==> r.value == Delivery(raw, version) && r.value.Version() == version
    ensures r.Err? ==> r.error == Failure(raw, version)
  {
    match version
    case V3 => (match raw.v3 case Ok(e) => Ok(InV3(e)) case Err(x) => Err(x))
    case V4 => (match raw.v4 case Ok(e) => Ok(InV4(e)) case Err(x) => Err(x))
  }
}
