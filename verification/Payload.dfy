/** Execution payloads, the envelopes that carry them, and the flashblock messages they are assembled from. */
module Payload {
  import opened Wrappers

  type Hash = nat
  type Address = nat
  type PayloadId = nat
  newtype Byte = b: int | 0 <= b < 256
  type Bytes = seq<Byte>

  datatype Withdrawal = Withdrawal(index: nat, validator: nat, recipient: Address, amount: nat)

  /** The engine API version a payload is requested in. */
  datatype Version = V3 | V4

  datatype ExecutionPayload = ExecutionPayload(
    parentHash: Hash,
    feeRecipient: Address,
    stateRoot: Hash,
    receiptsRoot: Hash,
    logsBloom: Hash,
    prevRandao: Hash,
    blockNumber: nat,
    gasLimit: nat,
    gasUsed: nat,
    timestamp: nat,
    extraData: Bytes,
    baseFeePerGas: nat,
    blockHash: Hash,
    transactions: seq<Bytes>,
    withdrawals: seq<Withdrawal>,
    blobGasUsed: nat,
    excessBlobGas: nat)

  datatype EnvelopeV3 = EnvelopeV3(
    payload: ExecutionPayload,
    parentBeaconBlockRoot: Hash,
    blockValue: nat,
    blobsBundle: seq<Bytes>,
    shouldOverrideBuilder: bool)

  datatype EnvelopeV4 = EnvelopeV4(
    payload: ExecutionPayload,
    withdrawalsRoot: Hash,
    parentBeaconBlockRoot: Hash,
    blockValue: nat,
    blobsBundle: seq<Bytes>,
    shouldOverrideBuilder: bool,
    executionRequests: seq<Bytes>)

  datatype Envelope = InV3(v3: EnvelopeV3) | InV4(v4: EnvelopeV4) {

    function Version(): Version {
      if InV3? then V3 else V4
    }

    function Payload(): (x: ExecutionPayload)
      ensures InV3? ==> x == v3.payload
      ensures InV4? ==> x == v4.payload
    {
      if InV3? then v3.payload else v4.payload
    }

    function ParentBeaconBlockRoot(): Hash {
      if InV3? then v3.parentBeaconBlockRoot else v4.parentBeaconBlockRoot
    }

    function GasUsed(): nat {
      Payload().gasUsed
    }

    function Transactions(): seq<Bytes> {
      Payload().transactions
    }

    /** The attributes a block builder would have been given to build this payload. */
    function Attributes(): PayloadAttributes {
      PayloadAttributes(
        Payload().timestamp,
        Payload().prevRandao,
        Payload().feeRecipient,
        Some(Payload().withdrawals),
        Some(ParentBeaconBlockRoot()))
    }
  }

  datatype NewPayload =
    | NewV3(payload: ExecutionPayload, versionedHashes: seq<Hash>, parentBeaconBlockRoot: Hash)
    | NewV4(payload: ExecutionPayload, withdrawalsRoot: Hash, versionedHashes: seq<Hash>,
            parentBeaconBlockRoot: Hash, executionRequests: seq<Bytes>)

  /** The newPayload request that submits an envelope for validation. */
  function NewPayloadFrom(e: Envelope): (n: NewPayload)
    ensures n.payload == e.Payload()
    ensures n.NewV3? <==> e.Version() == V3
    ensures n.parentBeaconBlockRoot == e.ParentBeaconBlockRoot()
  {
    match e
    case InV3(v3) => NewV3(v3.payload, [], v3.parentBeaconBlockRoot)
    case InV4(v4) => NewV4(v4.payload, v4.withdrawalsRoot, [], v4.parentBeaconBlockRoot, v4.executionRequests)
  }

  datatype PayloadAttributes = PayloadAttributes(
    timestamp: nat,
    prevRandao: Hash,
    suggestedFeeRecipient: Address,
    withdrawals: Option<seq<Withdrawal>>,
    parentBeaconBlockRoot: Option<Hash>)

  datatype OpAttributes = OpAttributes(
    inner: PayloadAttributes,
    transactions: Option<seq<Bytes>>,
    noTxPool: Option<bool>,
    gasLimit: Option<nat>,
    eip1559Params: Option<Bytes>,
    minBaseFee: Option<nat>)

  /** The block fields fixed by the first flashblock. */
  datatype Base = Base(
    parentBeaconBlockRoot: Hash,
    parentHash: Hash,
    feeRecipient: Address,
    prevRandao: Hash,
    blockNumber: nat,
    gasLimit: nat,
    timestamp: nat,
    extraData: Bytes,
    baseFeePerGas: nat)

  /** The block fields every flashblock updates, and the transactions it adds. */
  datatype Delta = Delta(
    stateRoot: Hash,
    receiptsRoot: Hash,
    logsBloom: Hash,
    gasUsed: nat,
    blockHash: Hash,
    transactions: seq<Bytes>,
    withdrawals: seq<Withdrawal>,
    withdrawalsRoot: Hash,
    blobGasUsed: Option<nat>)

  datatype Receipt = Receipt(cumulativeGasUsed: nat, logs: seq<Bytes>)

  /** The JSON metadata of a flashblock, as far as its readers can decode it. A balance entry whose
      address or amount does not parse is None. */
  datatype Metadata =
    | Undecodable
    | Metadata(receipts: map<Hash, Receipt>, newBalances: seq<(Option<Address>, Option<nat>)>)

  datatype Flashblock = Flashblock(
    payloadId: PayloadId,
    index: nat,
    base: Option<Base>,
    diff: Delta,
    metadata: Metadata)
}
