/** Assembling a block from an ordered run of flashblocks. */
module FlashblockBuilder {
  import opened Wrappers
  import opened Payload

  datatype FlashblocksError = MissingBasePayload | UnexpectedBasePayload | MissingDelta | InvalidIndex | MissingPayload

  /** The contents of a builder: the base of the block and the deltas accepted so far. */
  datatype Assembly = Assembly(base: Option<Base>, deltas: seq<Delta>)

  const EMPTY := Assembly(None, [])

  /** What extending an assembly by one flashblock gives. */
  function Extended(a: Assembly, p: Flashblock): Result<Assembly, FlashblocksError> {
    if p.index != |a.deltas| then Err(InvalidIndex)
    else if p.index == 0 then
      if p.base.None? then Err(MissingBasePayload) else Ok(Assembly(p.base, a.deltas + [p.diff]))
    else if p.base.Some? then Err(UnexpectedBasePayload)
    else Ok(a.(deltas := a.deltas + [p.diff]))
  }

  class FlashblockBuilder {
    var base: Option<Base>
    var flashblocks: seq<Delta>

    ghost function View(): Assembly
      reads this
    {
      Assembly(base, flashblocks)
    }

    constructor ()
      ensures View() == EMPTY
    {
      base, flashblocks := None, [];
    }

    constructor Clone(other: FlashblockBuilder)
      ensures View() == other.View()
    {
      base, flashblocks := other.base, other.flashblocks;
    }

    /** Accepts a flashblock that continues the sequence; a refused one changes nothing. */
    method Extend(p: Flashblock) returns (r: Result<(), FlashblocksError>)
      modifies this
      ensures r.Ok? <==> Extended(old(View()), p).Ok?
      ensures r.Ok? ==> View() == Extended(old(View()), p).value
      ensures r.Err? ==> View() == old(View()) && r.error == Extended(old(View()), p).error
    {
      if p.index != |flashblocks| {
        return Err(InvalidIndex);
      }
      if p.index == 0 {
        if p.base.Some? {
          base := p.base;
        } else {
          return Err(MissingBasePayload);
        }
      } else if p.base.Some? {
        return Err(UnexpectedBasePayload);
      }
      flashblocks := flashblocks + [p.diff];
      return Ok(());
    }
  }

  /** The running concatenation of transactions and withdrawals over a list of deltas. */
  function Fold(deltas: seq<Delta>, txs: seq<Bytes>, ws: seq<Withdrawal>): (seq<Bytes>, seq<Withdrawal>)
    decreases |deltas|
  {
    if deltas == [] then (txs, ws)
    else Fold(deltas[1..], txs + deltas[0].transactions, ws + deltas[0].withdrawals)
  }

  /** Packages an assembly as an envelope of the requested version. */
  function BuildEnvelope(a: Assembly, version: Version): (r: Result<Envelope, FlashblocksError>)
    ensures r.Ok? ==> r.value.Version() == version
  {
    if a.base.None? then Err(MissingPayload)
    else if a.deltas == [] then Err(MissingDelta)
    else
      var base := a.base.value;
      var diff := a.deltas[|a.deltas| - 1];
      var (transactions, withdrawals) := Fold(a.deltas, [], []);
      var payload := ExecutionPayload(
                       base.parentHash, base.feeRecipient, diff.stateRoot, diff.receiptsRoot, diff.logsBloom,
                       base.prevRandao, base.blockNumber, base.gasLimit, diff.gasUsed, base.timestamp,
                       base.extraData, base.baseFeePerGas, diff.blockHash, transactions, withdrawals,
                       if diff.blobGasUsed.Some? then diff.blobGasUsed.value else 0, 0);
      match version
      case V3 => Ok(InV3(EnvelopeV3(payload, base.parentBeaconBlockRoot, 0, [], false)))
      case V4 => Ok(InV4(EnvelopeV4(payload, diff.withdrawalsRoot, base.parentBeaconBlockRoot, 0, [], false, [])))
  }

  // ---- Reference: which runs of flashblocks are a block, and what the block is ----

  /** The sequence rules: indices 0, 1, 2, ... and a base exactly at index 0. */
  ghost predicate Valid(ps: seq<Flashblock>) {
    forall i | 0 <= i < |ps| :: ps[i].index == i && (ps[i].base.Some? <==> i == 0)
  }

  ghost function Assembled(ps: seq<Flashblock>): Assembly {
    if ps == [] then EMPTY
    else Assembly(ps[0].base, seq(|ps|, i requires 0 <= i < |ps| => ps[i].diff))
  }

  /** All the transactions of a run of flashblocks, in order. */
  ghost function AllTransactions(ps: seq<Flashblock>): seq<Bytes> {
    if ps == [] then [] else AllTransactions(ps[..|ps| - 1]) + ps[|ps| - 1].diff.transactions
  }

  ghost function AllWithdrawals(ps: seq<Flashblock>): seq<Withdrawal> {
    if ps == [] then [] else AllWithdrawals(ps[..|ps| - 1]) + ps[|ps| - 1].diff.withdrawals
  }

  /** The block that a valid, nonempty run of flashblocks describes: base fields from the first, transactions
      and withdrawals of all in order, everything else from the last. */
  ghost function DescribedPayload(ps: seq<Flashblock>): ExecutionPayload
    requires ps != [] && Valid(ps)
  {
    var b, d := ps[0].base.value, ps[|ps| - 1].diff;
    ExecutionPayload(
      parentHash := b.parentHash, feeRecipient := b.feeRecipient, prevRandao := b.prevRandao,
      blockNumber := b.blockNumber, gasLimit := b.gasLimit, timestamp := b.timestamp,
      extraData := b.extraData, baseFeePerGas := b.baseFeePerGas,
      stateRoot := d.stateRoot, receiptsRoot := d.receiptsRoot, logsBloom := d.logsBloom,
      gasUsed := d.gasUsed, blockHash := d.blockHash,
      transactions := AllTransactions(ps), withdrawals := AllWithdrawals(ps),
      blobGasUsed := if d.blobGasUsed.Some? then d.blobGasUsed.value else 0, excessBlobGas := 0)
  }

  /** The envelope carries that payload and its beacon and withdrawals roots, and is otherwise blank. */
  ghost predicate Describes(e: Envelope, ps: seq<Flashblock>)
    requires ps != [] && Valid(ps)
  {
    var root := ps[0].base.value.parentBeaconBlockRoot;
    match e
    case InV3(v3) => v3 == EnvelopeV3(DescribedPayload(ps), root, 0, [], false)
    case InV4(v4) =>
      v4 == EnvelopeV4(DescribedPayload(ps), ps[|ps| - 1].diff.withdrawalsRoot, root, 0, [], false, [])
  }

  /** Extends an assembly by every flashblock of a run, stopping at the first refusal. */
  ghost function ExtendedBy(a: Assembly, ps: seq<Flashblock>): Result<Assembly, FlashblocksError>
    decreases |ps|
  {
    if ps == [] then Ok(a)
    else
      var before := ExtendedBy(a, ps[..|ps| - 1]);
      if before.Err? then before else Extended(before.value, ps[|ps| - 1])
  }

  /** One more flashblock is accepted exactly when the longer run still obeys the rules. */
  lemma ExtendAssembled(ps: seq<Flashblock>, p: Flashblock)
    requires Valid(ps)
    ensures Extended(Assembled(ps), p).Ok? <==> Valid(ps + [p])
    ensures Valid(ps + [p]) ==> Extended(Assembled(ps), p).value == Assembled(ps + [p])
  {
    var qs := ps + [p];
    assert qs[|ps|] == p && forall i | 0 <= i < |ps| :: qs[i] == ps[i];
    if Valid(qs) {
      assert p.index == |ps|;
      assert Assembled(qs).deltas == Assembled(ps).deltas + [p.diff];
    } else {
      var i :| 0 <= i < |qs| && !(qs[i].index == i && (qs[i].base.Some? <==> i == 0));
      assert i == |ps|;
    }
  }

  /** Why a flashblock is refused: first its place in the sequence counts, then its base. */
  lemma RefusedWith(ps: seq<Flashblock>, p: Flashblock)
    requires Valid(ps)
    ensures var x := Extended(Assembled(ps), p);
            && (p.index != |ps| <==> x == Err(InvalidIndex))
            && (p.index == |ps| == 0 && p.base.None? <==> x == Err(MissingBasePayload))
            && (p.index == |ps| > 0 && p.base.Some? <==> x == Err(UnexpectedBasePayload))
  {
  }

  /** The rules the builder enforces one message at a time are exactly the rules on whole runs. */
  lemma {:induction false} AcceptsExactlyValid(ps: seq<Flashblock>)
    ensures ExtendedBy(EMPTY, ps).Ok? <==> Valid(ps)
    ensures Valid(ps) ==> ExtendedBy(EMPTY, ps).value == Assembled(ps)
    decreases |ps|
  {
    if ps == [] {
    } else {
      var front, p := ps[..|ps| - 1], ps[|ps| - 1];
      assert ps == front + [p];
      AcceptsExactlyValid(front);
      if Valid(front) {
        ExtendAssembled(front, p);
      } else {
        var i :| 0 <= i < |front| && !(front[i].index == i && (front[i].base.Some? <==> i == 0));
        assert ps[i] == front[i];
      }
    }
  }

  lemma {:induction false} FoldSplit(ds: seq<Delta>, d: Delta, txs: seq<Bytes>, ws: seq<Withdrawal>)
    ensures Fold(ds + [d], txs, ws)
         == (Fold(ds, txs, ws).0 + d.transactions, Fold(ds, txs, ws).1 + d.withdrawals)
    decreases |ds|
  {
    if ds == [] {
      assert (ds + [d])[1..] == [];
    } else {
      assert (ds + [d])[1..] == ds[1..] + [d];
      FoldSplit(ds[1..], d, txs + ds[0].transactions, ws + ds[0].withdrawals);
    }
  }

  lemma {:induction false} FoldIsConcatenation(ps: seq<Flashblock>)
    ensures Fold(Assembled(ps).deltas, [], []) == (AllTransactions(ps), AllWithdrawals(ps))
    decreases |ps|
  {
    if ps == [] {
    } else {
      var front, d := ps[..|ps| - 1], ps[|ps| - 1].diff;
      FoldIsConcatenation(front);
      assert Assembled(ps).deltas == Assembled(front).deltas + [d];
      FoldSplit(Assembled(front).deltas, d, [], []);
    }
  }

  /** Assembling a valid run of flashblocks yields exactly the block it describes; an assembly made
      this way never lacks a delta once it has a base. */
  lemma BuildEnvelopeDescribes(ps: seq<Flashblock>, version: Version)
    requires Valid(ps)
    ensures ps == [] ==> BuildEnvelope(Assembled(ps), version) == Err(MissingPayload)
    ensures ps != [] ==> BuildEnvelope(Assembled(ps), version).Ok?
                         && Describes(BuildEnvelope(Assembled(ps), version).value, ps)
  {
    FoldIsConcatenation(ps);
  }
}
