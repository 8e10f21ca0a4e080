/** The pending-block cache of an RPC node: it rebuilds the block from the flashblock stream and keeps
    nonces, receipts and balances derived from it. */
module FlashblocksCache {
  import opened Wrappers
  import opened Payload
  import opened FlashblockBuilder
  import opened Mirror
  import opened MapSum

  /** A decoded transaction; the signer is None when its signature does not recover. */
  datatype Tx = Tx(hash: Hash, signer: Option<Address>)

  /** What the node's libraries say about raw data: how transactions decode, which payloads make a
      block, how blocks hash, whether the L1 fee data of a block can be read, and whether the receipt of
      the i-th transaction can be built from it. */
  datatype Chain = Chain(
    decode: Bytes -> Option<Tx>,
    wellFormed: ExecutionPayload -> bool,
    blockHash: ExecutionPayload -> Hash,
    l1Info: seq<Tx> -> bool,
    receiptBuilds: (Block, seq<Receipt>, nat) -> bool)

  datatype Block = Block(header: ExecutionPayload, hash: Hash, txs: seq<Tx>)

  datatype RpcReceipt = RpcReceipt(
    receipt: Receipt,
    txHash: Hash,
    txIndex: nat,
    blockHash: Hash,
    blockNumber: nat,
    gasUsed: nat,
    firstLogIndex: nat)

  datatype CacheState = CacheState(
    assembly: Assembly,
    block: Option<Block>,
    balances: map<Address, nat>,
    nonces: map<Address, nat>,
    receipts: map<Hash, RpcReceipt>)

  const FRESH := CacheState(EMPTY, None, map[], map[], map[])

  datatype Outcome<+T> = Done(value: T) | Failed | Panicked

  const U64 := 0x1_0000_0000_0000_0000

  // ---- The pieces of processing one message ----

  function Decoded(chain: Chain, raws: seq<Bytes>): (r: Option<seq<Tx>>)
    ensures r.Some? <==> forall i | 0 <= i < |raws| :: chain.decode(raws[i]).Some?
    ensures r.Some? ==> |r.value| == |raws| && forall i | 0 <= i < |raws| :: r.value[i] == chain.decode(raws[i]).value
  {
    if raws == [] then Some([])
    else
      var n := |raws| - 1;
      var front, last := Decoded(chain, raws[..n]), chain.decode(raws[n]);
      if front.Some? && last.Some? then Some(front.value + [last.value]) else None
  }

  function BlockOfPayload(chain: Chain, x: ExecutionPayload): Option<Block> {
    var txs := Decoded(chain, x.transactions);
    if chain.wellFormed(x) && txs.Some? then Some(Block(x, chain.blockHash(x), txs.value)) else None
  }

  function Get<K, V>(m: map<K, V>, k: K, default: V): V {
    if k in m then m[k] else default
  }

  function NonceCounts(txs: seq<Tx>): map<Address, nat> {
    if txs == [] then map[]
    else
      var front, tx := NonceCounts(txs[..|txs| - 1]), txs[|txs| - 1];
      if tx.signer.None? then front else front[tx.signer.value := Get(front, tx.signer.value, 0) + 1]
  }

  predicate HasReceipts(txs: seq<Tx>, receipts: map<Hash, Receipt>) {
    forall i | 0 <= i < |txs| :: txs[i].hash in receipts
  }

  predicate AllSigned(txs: seq<Tx>) {
    forall i | 0 <= i < |txs| :: txs[i].signer.Some?
  }

  /** The receipts of a block's transactions, in order, looked up by transaction hash. */
  function ReceiptsFor(txs: seq<Tx>, receipts: map<Hash, Receipt>): seq<Receipt>
    requires HasReceipts(txs, receipts)
  {
    seq(|txs|, i requires 0 <= i < |txs| => receipts[txs[i].hash])
  }

  function LogsBefore(rs: seq<Receipt>, i: nat): nat
    requires i <= |rs|
  {
    if i == 0 then 0 else LogsBefore(rs, i - 1) + |rs[i - 1].logs|
  }

  function GasBefore(rs: seq<Receipt>, i: nat): nat
    requires i <= |rs|
  {
    if i == 0 then 0 else rs[i - 1].cumulativeGasUsed
  }

  /** Going through the first n transactions in order: one whose signer does not recover fails, one whose
      receipt cannot be built panics. */
  function BuildReceipts(chain: Chain, block: Block, rs: seq<Receipt>, n: nat): (r: Outcome<()>)
    requires n <= |block.txs|
    ensures r.Done? <==> forall i | 0 <= i < n :: block.txs[i].signer.Some? && chain.receiptBuilds(block, rs, i)
  {
    if n == 0 then Done(())
    else
      var before := BuildReceipts(chain, block, rs, n - 1);
      if !before.Done? then before
      else if block.txs[n - 1].signer.None? then Failed
      else if !chain.receiptBuilds(block, rs, n - 1) then Panicked
      else Done(())
  }

  lemma {:induction false} StopsAtFirst(chain: Chain, block: Block, rs: seq<Receipt>, n: nat, m: nat)
    requires n <= m <= |block.txs| && !BuildReceipts(chain, block, rs, n).Done?
    ensures BuildReceipts(chain, block, rs, m) == BuildReceipts(chain, block, rs, n)
    decreases m
  {
    if m == n {
    } else {
      StopsAtFirst(chain, block, rs, n, m - 1);
    }
  }

  /** The receipt served for transaction i; gas is a 64-bit difference of cumulative values. */
  function ReceiptAt(block: Block, rs: seq<Receipt>, i: nat): RpcReceipt
    requires i < |rs| == |block.txs|
  {
    RpcReceipt(rs[i], block.txs[i].hash, i, block.hash, block.header.blockNumber,
               (rs[i].cumulativeGasUsed - GasBefore(rs, i)) % U64, LogsBefore(rs, i))
  }

  function ReceiptMap(block: Block, rs: seq<Receipt>, n: nat): map<Hash, RpcReceipt>
    requires n <= |rs| == |block.txs|
  {
    if n == 0 then map[]
    else ReceiptMap(block, rs, n - 1)[block.txs[n - 1].hash := ReceiptAt(block, rs, n - 1)]
  }

  predicate AllParse(entries: seq<(Option<Address>, Option<nat>)>) {
    forall i | 0 <= i < |entries| :: entries[i].0.Some? && entries[i].1.Some?
  }

  function WithBalances(m: map<Address, nat>, entries: seq<(Option<Address>, Option<nat>)>): map<Address, nat>
    requires AllParse(entries)
  {
    if entries == [] then m
    else
      var e := entries[|entries| - 1];
      WithBalances(m, entries[..|entries| - 1])[e.0.value := e.1.value]
  }

  /** The block of an assembly that has just been extended. */
  function BlockOfAssembly(chain: Chain, a: Assembly): Option<Block> {
    match BuildEnvelope(a, V4)
    case Err(_) => None
    case Ok(e) => BlockOfPayload(chain, e.Payload())
  }

  /** Deriving everything a new block needs: nonces, receipts and balances. */
  function IndexBlock(chain: Chain, s: CacheState, block: Block, receipts: map<Hash, Receipt>,
                      balances: seq<(Option<Address>, Option<nat>)>): Outcome<CacheState>
  {
    if !HasReceipts(block.txs, receipts) then Panicked
    else if block.txs != [] && !chain.l1Info(block.txs) then Panicked
    else
      var rs := ReceiptsFor(block.txs, receipts);
      var built := BuildReceipts(chain, block, rs, |block.txs|);
      if built.Panicked? then Panicked
      else if built.Failed? || !AllParse(balances) then Failed
      else Done(s.(block := Some(block),
              balances := WithBalances(s.balances, balances),
              nonces := s.nonces + NonceCounts(block.txs),
              receipts := s.receipts + ReceiptMap(block, rs, |rs|)))
  }

  /** What processing one message does to the whole cache state. */
  function Process(chain: Chain, s: CacheState, p: Flashblock): Outcome<CacheState> {
    if p.metadata.Undecodable? then Failed
    else
      var start := if p.index == 0 then FRESH else s;
      var next := Extended(start.assembly, p);
      if next.Err? then Failed
      else
        var block := BlockOfAssembly(chain, next.value);
        if block.None? then Failed
        else IndexBlock(chain, start.(assembly := next.value), block.value, p.metadata.receipts, p.metadata.newBalances)
  }

  // ---- The cache as it updates in place ----

  method CountNonces(txs: seq<Tx>) returns (nonceMap: map<Address, nat>)
    ensures nonceMap == NonceCounts(txs)
  {
    nonceMap := map[];
    for i := 0 to |txs|
      invariant nonceMap == NonceCounts(txs[..i])
    {
      assert txs[..i + 1][..i] == txs[..i];
      if txs[i].signer.Some? {
        var nonce := Get(nonceMap, txs[i].signer.value, 0);
        nonceMap := nonceMap[txs[i].signer.value := nonce + 1];
      }
    }
    assert txs[..|txs|] == txs;
  }

  /** Looks up every transaction's receipt; None when one is missing. */
  method CollectReceipts(txs: seq<Tx>, receipts: map<Hash, Receipt>) returns (all: Option<seq<Receipt>>)
    ensures all.Some? <==> HasReceipts(txs, receipts)
    ensures all.Some? ==> all.value == ReceiptsFor(txs, receipts)
  {
    var found := [];
    for i := 0 to |txs|
      invariant HasReceipts(txs[..i], receipts)
      invariant found == ReceiptsFor(txs[..i], receipts)
    {
      if txs[i].hash !in receipts {
        assert !HasReceipts(txs, receipts);
        return None;
      }
      assert txs[..i + 1] == txs[..i] + [txs[i]];
      found := found + [receipts[txs[i].hash]];
    }
    assert txs[..|txs|] == txs;
    return Some(found);
  }

  class CacheInner {
    const chain: Chain
    var builder: FlashblockBuilder
    var block: Option<Block>
    var balanceCache: map<Address, nat>
    var nonceCache: map<Address, nat>
    var receiptsCache: map<Hash, RpcReceipt>

    ghost function View(): CacheState
      reads this, builder
    {
      CacheState(builder.View(), block, balanceCache, nonceCache, receiptsCache)
    }

    constructor (chain: Chain)
      ensures View() == FRESH && this.chain == chain && fresh(builder)
    {
      this.chain := chain;
      block, balanceCache, nonceCache, receiptsCache := None, map[], map[], map[];
      builder := new FlashblockBuilder();
    }

    constructor Clone(other: CacheInner)
      ensures View() == other.View() && chain == other.chain && fresh(builder)
    {
      chain := other.chain;
      block, balanceCache := other.block, other.balanceCache;
      nonceCache, receiptsCache := other.nonceCache, other.receiptsCache;
      builder := new FlashblockBuilder.Clone(other.builder);
    }

    method Reset()
      modifies this
      ensures View() == FRESH && fresh(builder)
    {
      block := None;
      builder := new FlashblockBuilder();
      balanceCache, nonceCache, receiptsCache := map[], map[], map[];
    }

    method StoreNonces(nonceMap: map<Address, nat>)
      modifies this`nonceCache
      ensures nonceCache == old(nonceCache) + nonceMap
    {
      var left := nonceMap.Keys;
      while left != {}
        invariant left <= nonceMap.Keys
        invariant nonceCache == old(nonceCache) + (nonceMap - left)
        decreases left
      {
        var address :| address in left;
        nonceCache := nonceCache[address := nonceMap[address]];
        left := left - {address};
      }
      assert nonceMap - left == nonceMap;
    }

    /** Builds the receipts with running gas and log counters; stops at an unrecoverable signer or a receipt
        that cannot be built. */
    method StoreReceipts(block: Block, rs: seq<Receipt>) returns (r: Outcome<()>)
      requires |rs| == |block.txs|
      modifies this`receiptsCache
      ensures r == BuildReceipts(chain, block, rs, |block.txs|)
      ensures r.Done? ==> receiptsCache == old(receiptsCache) + ReceiptMap(block, rs, |rs|)
    {
      var gasUsed, nextLogIndex := 0, 0;
      for i := 0 to |block.txs|
        invariant gasUsed == GasBefore(rs, i) && nextLogIndex == LogsBefore(rs, i)
        invariant BuildReceipts(chain, block, rs, i).Done?
        invariant receiptsCache == old(receiptsCache) + ReceiptMap(block, rs, i)
      {
        if block.txs[i].signer.None? {
          StopsAtFirst(chain, block, rs, i + 1, |block.txs|);
          return Failed;
        }
        if !chain.receiptBuilds(block, rs, i) {
          StopsAtFirst(chain, block, rs, i + 1, |block.txs|);
          return Panicked;
        }
        var rpcReceipt := RpcReceipt(rs[i], block.txs[i].hash, i, block.hash, block.header.blockNumber,
                                     (rs[i].cumulativeGasUsed - gasUsed) % U64, nextLogIndex);
        gasUsed := rs[i].cumulativeGasUsed;
        nextLogIndex := nextLogIndex + |rs[i].logs|;
        receiptsCache := receiptsCache[block.txs[i].hash := rpcReceipt];
      }
      return Done(());
    }

    method StoreBalances(entries: seq<(Option<Address>, Option<nat>)>) returns (ok: bool)
      modifies this`balanceCache
      ensures ok <==> AllParse(entries)
      ensures ok ==> balanceCache == WithBalances(old(balanceCache), entries)
    {
      for i := 0 to |entries|
        invariant AllParse(entries[..i])
        invariant balanceCache == WithBalances(old(balanceCache), entries[..i])
      {
        if entries[i].0.None? || entries[i].1.None? {
          return false;
        }
        assert entries[..i + 1][..i] == entries[..i];
        balanceCache := balanceCache[entries[i].0.value := entries[i].1.value];
      }
      assert entries[..|entries|] == entries;
      return true;
    }

    /** Derives the indexes of a block in place, in the order of the source. */
    method Index(b: Block, metadata: Metadata) returns (r: Outcome<()>)
      requires metadata.Metadata?
      modifies this
      ensures builder == old(builder)
      ensures var e := IndexBlock(chain, old(View()), b, metadata.receipts, metadata.newBalances);
              && (r.Done? <==> e.Done?) && (r.Panicked? <==> e.Panicked?)
              && (r.Done? ==> View() == e.value)
    {
      var nonceMap := CountNonces(b.txs);
      var receipts := CollectReceipts(b.txs, metadata.receipts);
      if receipts.None? {
        return Panicked;
      }
      StoreNonces(nonceMap);
      if b.txs != [] && !chain.l1Info(b.txs) {
        return Panicked;
      }
      var stored := StoreReceipts(b, receipts.value);
      if !stored.Done? {
        return stored;
      }
      block := Some(b);
      var parsed := StoreBalances(metadata.newBalances);
      if !parsed {
        return Failed;
      }
      return Done(());
    }

    /** Updates everything in place; what is left behind by a message that fails or panics is never
        published. */
    method ProcessPayload(p: Flashblock) returns (r: Outcome<()>)
      modifies this, builder
      ensures r.Done? <==> Process(chain, old(View()), p).Done?
      ensures r.Panicked? <==> Process(chain, old(View()), p).Panicked?
      ensures r.Done? ==> View() == Process(chain, old(View()), p).value
      ensures builder == old(builder) || fresh(builder)
    {
      if p.metadata.Undecodable? {
        return Failed;
      }
      if p.index == 0 {
        Reset();
      }
      var extended := builder.Extend(p);
      if extended.Err? {
        return Failed;
      }
      var envelope := BuildEnvelope(Assembly(builder.base, builder.flashblocks), V4);
      if envelope.Err? {
        return Failed;
      }
      var converted := BlockOfPayload(chain, envelope.value.Payload());
      if converted.None? {
        return Failed;
      }
      r := Index(converted.value, p.metadata);
    }
  }

  class FlashblocksCache {
    var inner: CacheInner

    constructor (chain: Chain)
      ensures inner.View() == FRESH && inner.chain == chain
    {
      inner := new CacheInner(chain);
    }

    /** Copies, updates and swaps: a message takes full effect or none, and whoever still reads the
        previous state sees it unchanged. */
    method ProcessPayload(p: Flashblock) returns (r: Outcome<()>)
      modifies this
      ensures r.Done? <==> Process(inner.chain, old(inner.View()), p).Done?
      ensures inner.View() == Applied(inner.chain, old(inner.View()), p)
      ensures inner.chain == old(inner.chain)
      ensures !r.Done? ==> inner == old(inner)
      ensures old(inner).View() == old(inner.View())
    {
      var newState := new CacheInner.Clone(inner);
      r := newState.ProcessPayload(p);
      if r.Done? {
        inner := newState;
      }
    }
  }

  /** The published state after one message. */
  function Applied(chain: Chain, s: CacheState, p: Flashblock): CacheState {
    var r := Process(chain, s, p);
    if r.Done? then r.value else s
  }

  // ---- Every reachable state is a recomputation from the messages of the pending block ----

  ghost function Run(chain: Chain, ps: seq<Flashblock>): CacheState
    decreases |ps|
  {
    if ps == [] then FRESH else Applied(chain, Run(chain, ps[..|ps| - 1]), ps[|ps| - 1])
  }

  /** The messages that make up the pending block: those that took effect since the last index 0 did. */
  ghost function Live(chain: Chain, ps: seq<Flashblock>): seq<Flashblock>
    decreases |ps|
  {
    if ps == [] then []
    else
      var front, p := ps[..|ps| - 1], ps[|ps| - 1];
      if !Process(chain, Run(chain, front), p).Done? then Live(chain, front)
      else if p.index == 0 then [p]
      else Live(chain, front) + [p]
  }

  ghost function AllBalances(ls: seq<Flashblock>): map<Address, nat>
    requires forall i | 0 <= i < |ls| :: ls[i].metadata.Metadata? && AllParse(ls[i].metadata.newBalances)
  {
    if ls == [] then map[]
    else WithBalances(AllBalances(ls[..|ls| - 1]), ls[|ls| - 1].metadata.newBalances)
  }

  ghost predicate Usable(ls: seq<Flashblock>) {
    && Valid(ls)
    && forall i | 0 <= i < |ls| :: ls[i].metadata.Metadata? && AllParse(ls[i].metadata.newBalances)
  }

  /** The nonces and receipts of s are those of its block, with receipts taken from a message's metadata. */
  ghost predicate Indexed(s: CacheState, receipts: map<Hash, Receipt>) {
    && s.block.Some?
    && var b := s.block.value;
       && AllSigned(b.txs) && HasReceipts(b.txs, receipts)
       && s.nonces == NonceCounts(b.txs)
       && s.receipts == ReceiptMap(b, ReceiptsFor(b.txs, receipts), |b.txs|)
  }

  /** The block of s is the one a payload with these transactions decodes to. */
  ghost predicate HasBlock(chain: Chain, s: CacheState, raws: seq<Bytes>) {
    && s.block.Some?
    && var b := s.block.value;
       && b.header.transactions == raws
       && b.hash == chain.blockHash(b.header)
       && Decoded(chain, raws) == Some(b.txs)
  }

  /** The cache state s is what recomputing everything from the messages ls gives: the block they
      assemble, its nonces, its receipts from the last message's metadata, and all their balances. */
  ghost predicate Recomputed(chain: Chain, s: CacheState, ls: seq<Flashblock>) {
    && Usable(ls)
    && s.assembly == Assembled(ls)
    && s.balances == AllBalances(ls)
    && (ls == [] ==> s == FRESH)
    && (ls != [] ==>
          && HasBlock(chain, s, AllTransactions(ls)) && s.block.value.header == DescribedPayload(ls)
          && Indexed(s, ls[|ls| - 1].metadata.receipts))
  }

  lemma {:induction false} NoncePrefix(txs: seq<Tx>, n: nat)
    requires n <= |txs|
    ensures NonceCounts(txs[..n]).Keys <= NonceCounts(txs).Keys
    decreases |txs|
  {
    if n == |txs| {
      assert txs[..n] == txs;
    } else {
      NoncePrefix(txs[..|txs| - 1], n);
      assert txs[..|txs| - 1][..n] == txs[..n];
    }
  }

  lemma {:induction false} ReceiptMapKeys(block: Block, rs: seq<Receipt>, n: nat)
    requires n <= |rs| == |block.txs|
    ensures forall h :: h in ReceiptMap(block, rs, n) <==> exists i :: 0 <= i < n && block.txs[i].hash == h
    ensures forall h :: h in ReceiptMap(block, rs, n) ==> ReceiptMap(block, rs, n)[h].blockHash == block.hash
  {
    if n == 0 {
    } else {
      ReceiptMapKeys(block, rs, n - 1);
    }
  }

  lemma OverridesNonces(before: seq<Tx>, txs: seq<Tx>)
    requires before <= txs
    ensures NonceCounts(before) + NonceCounts(txs) == NonceCounts(txs)
  {
    assert before == txs[..|before|];
    NoncePrefix(txs, |before|);
  }

  lemma OverridesReceipts(b1: Block, rs1: seq<Receipt>, b2: Block, rs2: seq<Receipt>)
    requires |rs1| == |b1.txs| && |rs2| == |b2.txs| && b1.txs <= b2.txs
    ensures ReceiptMap(b1, rs1, |rs1|) + ReceiptMap(b2, rs2, |rs2|) == ReceiptMap(b2, rs2, |rs2|)
  {
    ReceiptMapKeys(b1, rs1, |rs1|);
    ReceiptMapKeys(b2, rs2, |rs2|);
    forall h | h in ReceiptMap(b1, rs1, |rs1|)
      ensures h in ReceiptMap(b2, rs2, |rs2|)
    {
      var i :| 0 <= i < |rs1| && b1.txs[i].hash == h;
      assert b2.txs[i].hash == h;
    }
  }

  /** Growing the block re-derives every index entry, so nothing stale survives. */
  lemma IndexStep(s: CacheState, earlier: map<Hash, Receipt>, t: CacheState, receipts: map<Hash, Receipt>)
    requires s == FRESH || Indexed(s, earlier)
    requires t.block.Some? && (s.block.Some? ==> s.block.value.txs <= t.block.value.txs)
    requires AllSigned(t.block.value.txs) && HasReceipts(t.block.value.txs, receipts)
    requires t.nonces == s.nonces + NonceCounts(t.block.value.txs)
    requires t.receipts
          == s.receipts + ReceiptMap(t.block.value, ReceiptsFor(t.block.value.txs, receipts), |t.block.value.txs|)
    ensures Indexed(t, receipts)
  {
    if s != FRESH {
      var b, c := s.block.value, t.block.value;
      OverridesNonces(b.txs, c.txs);
      OverridesReceipts(b, ReceiptsFor(b.txs, earlier), c, ReceiptsFor(c.txs, receipts));
    }
  }

  lemma DecodedPrefix(chain: Chain, a: seq<Bytes>, b: seq<Bytes>)
    requires a <= b && Decoded(chain, a).Some? && Decoded(chain, b).Some?
    ensures Decoded(chain, a).value <= Decoded(chain, b).value
  {
  }

  /** The effect of a message on the state it starts from, once every check has passed. */
  ghost predicate Effect(chain: Chain, start: CacheState, p: Flashblock, t: CacheState) {
    && p.metadata.Metadata? && AllParse(p.metadata.newBalances)
    && Extended(start.assembly, p) == Ok(t.assembly)
    && BuildEnvelope(t.assembly, V4).Ok?
    && t.block.Some? && BlockOfPayload(chain, BuildEnvelope(t.assembly, V4).value.Payload()) == t.block
    && t.balances == WithBalances(start.balances, p.metadata.newBalances)
    && var txs := t.block.value.txs;
       && AllSigned(txs) && HasReceipts(txs, p.metadata.receipts)
       && t.nonces == start.nonces + NonceCounts(txs)
       && t.receipts == start.receipts + ReceiptMap(t.block.value, ReceiptsFor(txs, p.metadata.receipts), |txs|)
  }

  lemma ProcessHasEffect(chain: Chain, s: CacheState, p: Flashblock)
    requires Process(chain, s, p).Done?
    ensures Effect(chain, if p.index == 0 then FRESH else s, p, Process(chain, s, p).value)
  {
  }

  lemma EffectOnBlock(chain: Chain, start: CacheState, kept: seq<Flashblock>, p: Flashblock, t: CacheState)
    requires Recomputed(chain, start, kept) && Effect(chain, start, p, t)
    ensures Usable(kept + [p]) && t.assembly == Assembled(kept + [p])
    ensures t.balances == AllBalances(kept + [p])
    ensures AllTransactions(kept) <= AllTransactions(kept + [p])
    ensures HasBlock(chain, t, AllTransactions(kept + [p]))
    ensures t.block.value.header == DescribedPayload(kept + [p])
  {
    var ms := kept + [p];
    ExtendAssembled(kept, p);
    assert ms[..|ms| - 1] == kept && ms[|ms| - 1] == p;
    BuildEnvelopeDescribes(ms, V4);
  }

  lemma EffectRecomputes(chain: Chain, start: CacheState, kept: seq<Flashblock>, p: Flashblock, t: CacheState)
    requires Recomputed(chain, start, kept) && Effect(chain, start, p, t)
    ensures Recomputed(chain, t, kept + [p])
  {
    EffectOnBlock(chain, start, kept, p, t);
    if kept != [] {
      DecodedPrefix(chain, AllTransactions(kept), AllTransactions(kept + [p]));
      IndexStep(start, kept[|kept| - 1].metadata.receipts, t, p.metadata.receipts);
    } else {
      IndexStep(start, map[], t, p.metadata.receipts);
    }
  }

  /** The cache agrees with recomputation in every state it can publish. */
  lemma {:induction false} AlwaysRecomputed(chain: Chain, ps: seq<Flashblock>)
    ensures Recomputed(chain, Run(chain, ps), Live(chain, ps))
    decreases |ps|
  {
    if ps == [] {
    } else {
      var front, p := ps[..|ps| - 1], ps[|ps| - 1];
      AlwaysRecomputed(chain, front);
      if Process(chain, Run(chain, front), p).Done? {
        ProcessHasEffect(chain, Run(chain, front), p);
        if p.index == 0 {
          EffectRecomputes(chain, FRESH, [], p, Run(chain, ps));
          assert [] + [p] == [p];
        } else {
          EffectRecomputes(chain, Run(chain, front), Live(chain, front), p, Run(chain, ps));
        }
      }
    }
  }

  // ---- What that means for readers ----

  ghost function SentBy(txs: seq<Tx>, a: Address): nat {
    if txs == [] then 0
    else SentBy(txs[..|txs| - 1], a) + if txs[|txs| - 1].signer == Some(a) then 1 else 0
  }

  lemma {:induction false} NoncesCount(txs: seq<Tx>, a: Address)
    ensures Get(NonceCounts(txs), a, 0) == SentBy(txs, a)
    ensures a in NonceCounts(txs) <==> SentBy(txs, a) > 0
    decreases |txs|
  {
    if txs == [] {
    } else {
      NoncesCount(txs[..|txs| - 1], a);
    }
  }

  lemma {:induction false} NoncesSum(txs: seq<Tx>)
    requires AllSigned(txs)
    ensures Sum(NonceCounts(txs)) == |txs|
    decreases |txs|
  {
    if txs == [] {
    } else {
      var front := txs[..|txs| - 1];
      NoncesSum(front);
      var a := txs[|txs| - 1].signer.value;
      SumUpdate(NonceCounts(front), a, Get(NonceCounts(front), a, 0) + 1);
    }
  }

  /** What readers of a cache with a pending block can rely on: a nonce is the number of pending
      transactions its account sent, nonces add up to the transaction count, receipts exist for exactly
      the block's transactions and name the current block, and every signer recovers, so listing the
      block in full cannot panic. */
  ghost predicate Agrees(s: CacheState, b: Block) {
    && (forall a :: Get(s.nonces, a, 0) == SentBy(b.txs, a))
    && (forall a :: a in s.nonces <==> SentBy(b.txs, a) > 0)
    && Sum(s.nonces) == |b.txs|
    && (forall h :: h in s.receipts <==> exists i :: 0 <= i < |b.txs| && b.txs[i].hash == h)
    && (forall h | h in s.receipts :: s.receipts[h].blockHash == b.hash)
    && AllSigned(b.txs)
  }

  lemma IndexedAgrees(s: CacheState, receipts: map<Hash, Receipt>)
    requires Indexed(s, receipts)
    ensures Agrees(s, s.block.value)
  {
    var b := s.block.value;
    forall a
      ensures Get(s.nonces, a, 0) == SentBy(b.txs, a) && (a in s.nonces <==> SentBy(b.txs, a) > 0)
    {
      NoncesCount(b.txs, a);
    }
    NoncesSum(b.txs);
    ReceiptMapKeys(b, ReceiptsFor(b.txs, receipts), |b.txs|);
  }

  /** After any run of messages, some of which may fail or panic, the published state agrees with its
      block, or is the empty cache. */
  lemma CacheAgrees(chain: Chain, ps: seq<Flashblock>)
    ensures var s := Run(chain, ps);
            if s.block.Some? then Agrees(s, s.block.value) else s == FRESH
  {
    AlwaysRecomputed(chain, ps);
    var s, ls := Run(chain, ps), Live(chain, ps);
    if ls != [] {
      IndexedAgrees(s, ls[|ls| - 1].metadata.receipts);
    }
  }

  /** All balance entries of a list of messages, in the order they are applied. */
  ghost function Entries(ls: seq<Flashblock>): seq<(Option<Address>, Option<nat>)>
    requires forall i | 0 <= i < |ls| :: ls[i].metadata.Metadata?
  {
    if ls == [] then [] else Entries(ls[..|ls| - 1]) + ls[|ls| - 1].metadata.newBalances
  }

  lemma {:induction false} BalancesOfConcat(m: map<Address, nat>, a: seq<(Option<Address>, Option<nat>)>,
                                            b: seq<(Option<Address>, Option<nat>)>)
    requires AllParse(a) && AllParse(b)
    ensures AllParse(a + b) && WithBalances(m, a + b) == WithBalances(WithBalances(m, a), b)
    decreases |b|
  {
    if b == [] {
      assert a + b == a;
    } else {
      BalancesOfConcat(m, a, b[..|b| - 1]);
      assert (a + b)[..|a + b| - 1] == a + b[..|b| - 1];
    }
  }

  lemma {:induction false} BalancesAreEntries(ls: seq<Flashblock>)
    requires Usable(ls)
    ensures AllParse(Entries(ls)) && AllBalances(ls) == WithBalances(map[], Entries(ls))
    decreases |ls|
  {
    if ls == [] {
    } else {
      var front := ls[..|ls| - 1];
      assert Usable(front);
      BalancesAreEntries(front);
      BalancesOfConcat(map[], Entries(front), ls[|ls| - 1].metadata.newBalances);
    }
  }

  /** Entry i is the last one for the address. */
  ghost predicate LastEntry(entries: seq<(Option<Address>, Option<nat>)>, a: Address, i: nat) {
    i < |entries| && entries[i].0 == Some(a) && forall j | i < j < |entries| :: entries[j].0 != Some(a)
  }

  lemma {:induction false} BalanceIsLastEntry(entries: seq<(Option<Address>, Option<nat>)>, a: Address)
    requires AllParse(entries)
    ensures a in WithBalances(map[], entries) <==> exists i :: LastEntry(entries, a, i)
    ensures forall i: nat | LastEntry(entries, a, i) ::
              a in WithBalances(map[], entries) && Some(WithBalances(map[], entries)[a]) == entries[i].1
    decreases |entries|
  {
    if entries == [] {
    } else {
      var n := |entries| - 1;
      var front := entries[..n];
      BalanceIsLastEntry(front, a);
      if entries[n].0 == Some(a) {
        assert LastEntry(entries, a, n);
      } else {
        forall i: nat | i < n
          ensures LastEntry(front, a, i) == LastEntry(entries, a, i)
        {
          assert forall j | 0 <= j < n :: front[j] == entries[j];
        }
      }
    }
  }

  /** The balances are, for every account, the last one any of the messages reported for it. */
  ghost predicate LatestBalances(balances: map<Address, nat>, ls: seq<Flashblock>)
    requires forall i | 0 <= i < |ls| :: ls[i].metadata.Metadata?
  {
    var entries := Entries(ls);
    && (forall a :: a in balances <==> exists i :: LastEntry(entries, a, i))
    && (forall a, i: nat | LastEntry(entries, a, i) :: a in balances && Some(balances[a]) == entries[i].1)
  }

  lemma UsableAreLatest(ls: seq<Flashblock>)
    requires Usable(ls)
    ensures LatestBalances(AllBalances(ls), ls)
  {
    BalancesAreEntries(ls);
    var entries := Entries(ls);
    forall a: Address
      ensures a in AllBalances(ls) <==> exists i :: LastEntry(entries, a, i)
      ensures forall i: nat | LastEntry(entries, a, i) ::
                a in AllBalances(ls) && Some(AllBalances(ls)[a]) == entries[i].1
    {
      BalanceIsLastEntry(entries, a);
    }
  }

  /** The cached balances are the latest ones the messages of the pending block reported. */
  lemma BalancesAreLatest(chain: Chain, ps: seq<Flashblock>)
    ensures Usable(Live(chain, ps)) && LatestBalances(Run(chain, ps).balances, Live(chain, ps))
  {
    AlwaysRecomputed(chain, ps);
    var s, ls := Run(chain, ps), Live(chain, ps);
    assert Usable(ls) && s.balances == AllBalances(ls);
    UsableAreLatest(ls);
  }

  // ---- Receipt arithmetic ----

  ghost function GasSum(block: Block, rs: seq<Receipt>, n: nat): nat
    requires n <= |rs| == |block.txs|
  {
    if n == 0 then 0 else GasSum(block, rs, n - 1) + ReceiptAt(block, rs, n - 1).gasUsed
  }

  ghost predicate Nondecreasing(rs: seq<Receipt>) {
    && (forall i | 0 <= i < |rs| :: rs[i].cumulativeGasUsed < U64)
    && (forall i | 0 < i < |rs| :: rs[i - 1].cumulativeGasUsed <= rs[i].cumulativeGasUsed)
  }

  /** Per-transaction gas telescopes to the cumulative value at every prefix. */
  lemma {:induction false} GasTelescopes(block: Block, rs: seq<Receipt>, n: nat)
    requires n <= |rs| == |block.txs| && Nondecreasing(rs)
    ensures Telescopes(block, rs, n)
  {
    if n == 0 {
    } else {
      GasTelescopes(block, rs, n - 1);
      assert 0 <= rs[n - 1].cumulativeGasUsed - GasBefore(rs, n - 1) < U64;
    }
  }

  /** A 64-bit difference that adds up to the larger value did not wrap. */
  lemma DidNotWrap(before: nat, after: nat)
    requires before < U64 && after < U64 && before + (after - before) % U64 == after
    ensures before <= after
  {
  }

  /** Where the sum keeps up with the cumulative value across transaction i, the value did not drop. */
  lemma KeepsUp(block: Block, rs: seq<Receipt>, i: nat)
    requires 0 < i < |rs| == |block.txs|
    requires rs[i - 1].cumulativeGasUsed < U64 && rs[i].cumulativeGasUsed < U64
    requires GasSum(block, rs, i) == GasBefore(rs, i) && GasSum(block, rs, i + 1) == GasBefore(rs, i + 1)
    ensures rs[i - 1].cumulativeGasUsed <= rs[i].cumulativeGasUsed
  {
    assert GasSum(block, rs, i + 1) == GasSum(block, rs, i) + ReceiptAt(block, rs, i).gasUsed;
    DidNotWrap(rs[i - 1].cumulativeGasUsed, rs[i].cumulativeGasUsed);
  }

  ghost predicate Telescopes(block: Block, rs: seq<Receipt>, n: nat)
    requires n <= |rs| == |block.txs|
  {
    GasSum(block, rs, n) == GasBefore(rs, n)
  }

  /** It does so only then: a drop in cumulative gas wraps around and breaks the sum from there on. */
  lemma GasTelescopesOnlyIf(block: Block, rs: seq<Receipt>)
    requires |rs| == |block.txs| && forall i | 0 <= i < |rs| :: rs[i].cumulativeGasUsed < U64
    requires forall n | 0 <= n <= |rs| :: Telescopes(block, rs, n)
    ensures Nondecreasing(rs)
  {
    forall i | 0 < i < |rs|
      ensures rs[i - 1].cumulativeGasUsed <= rs[i].cumulativeGasUsed
    {
      assert Telescopes(block, rs, i) && Telescopes(block, rs, i + 1);
      KeepsUp(block, rs, i);
    }
  }

  lemma {:induction false} LogsMonotone(rs: seq<Receipt>, i: nat, j: nat)
    requires i <= j <= |rs|
    ensures LogsBefore(rs, i) <= LogsBefore(rs, j)
    decreases j
  {
    if i == j {
    } else {
      LogsMonotone(rs, i, j - 1);
    }
  }

  ghost predicate InLogRange(rs: seq<Receipt>, i: nat, x: nat)
    requires i < |rs|
  {
    LogsBefore(rs, i) <= x < LogsBefore(rs, i) + |rs[i].logs|
  }

  /** The log-index ranges of the transactions partition [0, total): each index has one owner. */
  lemma {:induction false} LogRangesPartition(rs: seq<Receipt>, x: nat) returns (i: nat)
    requires x < LogsBefore(rs, |rs|)
    ensures i < |rs| && InLogRange(rs, i, x)
    ensures forall j | 0 <= j < |rs| && InLogRange(rs, j, x) :: j == i
    decreases |rs|
  {
    i := 0;
    while !InLogRange(rs, i, x)
      invariant i < |rs| && LogsBefore(rs, i) <= x
      decreases |rs| - i
    {
      i := i + 1;
    }
    forall j | 0 <= j < |rs| && InLogRange(rs, j, x)
      ensures j == i
    {
      if j < i {
        LogsMonotone(rs, j + 1, i);
      } else if i < j {
        LogsMonotone(rs, i + 1, j);
      }
    }
  }

  lemma {:induction false} LogsPrefix(rs: seq<Receipt>, more: seq<Receipt>, i: nat)
    requires rs <= more && i <= |rs|
    ensures LogsBefore(rs, i) == LogsBefore(more, i)
  {
    if i == 0 {
    } else {
      LogsPrefix(rs, more, i - 1);
    }
  }

  /** A later flashblock that repeats the receipts so far changes no earlier transaction's gas, log
      start or index; only the block it names moves on. */
  lemma ReceiptsStable(b1: Block, rs: seq<Receipt>, b2: Block, more: seq<Receipt>, i: nat)
    requires |rs| == |b1.txs| && |more| == |b2.txs| && b1.txs <= b2.txs && rs <= more && i < |rs|
    ensures ReceiptAt(b2, more, i)
         == ReceiptAt(b1, rs, i).(blockHash := b2.hash, blockNumber := b2.header.blockNumber)
  {
    LogsPrefix(rs, more, i);
  }

  /** Transaction i is the last of the first n with this hash. */
  ghost predicate LastWith(txs: seq<Tx>, n: nat, h: Hash, i: nat)
    requires n <= |txs|
  {
    i < n && txs[i].hash == h && forall j | i < j < n :: txs[j].hash != h
  }

  /** The receipt served for a hash is that of the last transaction with it. */
  lemma {:induction false} ServedIsLast(block: Block, rs: seq<Receipt>, n: nat, h: Hash) returns (i: nat)
    requires n <= |rs| == |block.txs| && h in ReceiptMap(block, rs, n)
    ensures LastWith(block.txs, n, h, i) && ReceiptMap(block, rs, n)[h] == ReceiptAt(block, rs, i)
    decreases n
  {
    if block.txs[n - 1].hash == h {
      i := n - 1;
    } else {
      i := ServedIsLast(block, rs, n - 1, h);
    }
  }

  /** A message's metadata repeats the earlier receipts of these transactions. */
  ghost predicate Repeats(txs: seq<Tx>, earlier: map<Hash, Receipt>, receipts: map<Hash, Receipt>) {
    HasReceipts(txs, earlier) && HasReceipts(txs, receipts)
    && forall i | 0 <= i < |txs| :: receipts[txs[i].hash] == earlier[txs[i].hash]
  }

  lemma RepeatedPrefix(txs: seq<Tx>, more: seq<Tx>, earlier: map<Hash, Receipt>, receipts: map<Hash, Receipt>)
    requires txs <= more && Repeats(txs, earlier, receipts) && HasReceipts(more, receipts)
    ensures ReceiptsFor(txs, earlier) <= ReceiptsFor(more, receipts)
  {
    forall k | 0 <= k < |txs|
      ensures ReceiptsFor(txs, earlier)[k] == ReceiptsFor(more, receipts)[k]
    {
      assert more[k] == txs[k];
    }
  }

  /** No transaction from position n on has the hash. */
  ghost predicate NotRepeated(txs: seq<Tx>, n: nat, h: Hash) {
    forall j | n <= j < |txs| :: txs[j].hash != h
  }

  /** The receipt is the same, but for the block it names. */
  ghost predicate SameButBlock(before: RpcReceipt, after: RpcReceipt, b: Block) {
    after == before.(blockHash := b.hash, blockNumber := b.header.blockNumber)
  }

  lemma IndexStable(s: CacheState, earlier: map<Hash, Receipt>, t: CacheState, receipts: map<Hash, Receipt>, h: Hash)
    requires Indexed(s, earlier) && Indexed(t, receipts) && s.block.value.txs <= t.block.value.txs
    requires Repeats(s.block.value.txs, earlier, receipts)
    requires h in s.receipts
    ensures h in t.receipts
    ensures SameButBlock(s.receipts[h], t.receipts[h], t.block.value)
       <==> NotRepeated(t.block.value.txs, |s.block.value.txs|, h)
  {
    var b, c := s.block.value, t.block.value;
    var rs, more := ReceiptsFor(b.txs, earlier), ReceiptsFor(c.txs, receipts);
    var i := ServedIsLast(b, rs, |rs|, h);
    ReceiptMapKeys(c, more, |more|);
    assert c.txs[i].hash == h;
    var j := ServedIsLast(c, more, |more|, h);
    RepeatedPrefix(b.txs, c.txs, earlier, receipts);
    ReceiptsStable(b, rs, c, more, i);
    assert NotRepeated(c.txs, |rs|, h) <==> j == i by {
      assert forall k | 0 <= k < |rs| :: b.txs[k] == c.txs[k];
    }
  }

  /** The transactions of the pending block. */
  ghost function PendingTxs(chain: Chain, ps: seq<Flashblock>): seq<Tx> {
    if Run(chain, ps).block.Some? then Run(chain, ps).block.value.txs else []
  }

  /** The receipts that came with the last message of the pending block. */
  ghost function LastReceipts(chain: Chain, ps: seq<Flashblock>): map<Hash, Receipt> {
    var ls := Live(chain, ps);
    if ls != [] && ls[|ls| - 1].metadata.Metadata? then ls[|ls| - 1].metadata.receipts else map[]
  }

  /** Stability seen by readers: in any run, a flashblock that continues the block and repeats the receipts
      so far leaves a receipt already served as it was, but for the block it names, exactly when it does
      not add another transaction with the same hash. */
  lemma ServedReceiptsStable(chain: Chain, ps: seq<Flashblock>, p: Flashblock, h: Hash)
    requires p.index > 0 && Process(chain, Run(chain, ps), p).Done?
    requires Repeats(PendingTxs(chain, ps), LastReceipts(chain, ps), p.metadata.receipts)
    requires h in Run(chain, ps).receipts
    ensures var s, t := Run(chain, ps), Process(chain, Run(chain, ps), p).value;
            && t.block.Some? && h in t.receipts
            && (SameButBlock(s.receipts[h], t.receipts[h], t.block.value)
                <==> NotRepeated(t.block.value.txs, |PendingTxs(chain, ps)|, h))
  {
    var s, t, ls := Run(chain, ps), Process(chain, Run(chain, ps), p).value, Live(chain, ps);
    AlwaysRecomputed(chain, ps);
    assert Indexed(t, p.metadata.receipts) && s.block.value.txs <= t.block.value.txs by {
      ProcessHasEffect(chain, s, p);
      EffectRecomputes(chain, s, ls, p, t);
      EffectOnBlock(chain, s, ls, p, t);
      DecodedPrefix(chain, AllTransactions(ls), AllTransactions(ls + [p]));
    }
    IndexStable(s, LastReceipts(chain, ps), t, p.metadata.receipts, h);
  }

  // ---- Receipt arithmetic seen by readers ----

  /** The receipt served for transaction i of the block. */
  function Served(s: CacheState, b: Block, i: nat): RpcReceipt
    requires i < |b.txs| && b.txs[i].hash in s.receipts
  {
    s.receipts[b.txs[i].hash]
  }

  ghost predicate AllServed(s: CacheState, b: Block) {
    forall i | 0 <= i < |b.txs| :: b.txs[i].hash in s.receipts
  }

  ghost predicate DistinctHashes(txs: seq<Tx>) {
    forall i, j | 0 <= i < j < |txs| :: txs[i].hash != txs[j].hash
  }

  /** The sum of the gas served for the first n transactions. */
  ghost function ServedGas(s: CacheState, b: Block, n: nat): nat
    requires n <= |b.txs| && AllServed(s, b)
  {
    if n == 0 then 0 else ServedGas(s, b, n - 1) + Served(s, b, n - 1).gasUsed
  }

  /** The cumulative gas served never falls, and fits 64 bits. */
  ghost predicate ServedNondecreasing(s: CacheState, b: Block)
    requires AllServed(s, b)
  {
    && (forall i | 0 <= i < |b.txs| :: Served(s, b, i).receipt.cumulativeGasUsed < U64)
    && (forall i | 0 < i < |b.txs| ::
          Served(s, b, i - 1).receipt.cumulativeGasUsed <= Served(s, b, i).receipt.cumulativeGasUsed)
  }

  /** The log indices served for transaction i. */
  ghost predicate ServedLog(s: CacheState, b: Block, i: nat, x: nat)
    requires i < |b.txs| && AllServed(s, b)
  {
    var r := Served(s, b, i);
    r.firstLogIndex <= x < r.firstLogIndex + |r.receipt.logs|
  }

  /** The log index is served for exactly one transaction. */
  ghost predicate OneOwner(s: CacheState, b: Block, x: nat)
    requires AllServed(s, b)
  {
    && (exists i :: 0 <= i < |b.txs| && ServedLog(s, b, i, x))
    && (forall i, j | 0 <= i < j < |b.txs| :: !(ServedLog(s, b, i, x) && ServedLog(s, b, j, x)))
  }

  /** Where the log indices of the last transaction end. */
  ghost function LogsServed(s: CacheState, b: Block): nat
    requires AllServed(s, b)
  {
    if b.txs == [] then 0
    else Served(s, b, |b.txs| - 1).firstLogIndex + |Served(s, b, |b.txs| - 1).receipt.logs|
  }

  ghost predicate LogsPartitioned(s: CacheState, b: Block)
    requires AllServed(s, b)
  {
    forall x: nat :: x < LogsServed(s, b) ==> OneOwner(s, b, x)
  }

  /** With distinct hashes every transaction is served its own receipt. */
  lemma ServedIsOwn(s: CacheState, receipts: map<Hash, Receipt>, i: nat)
    requires Indexed(s, receipts) && DistinctHashes(s.block.value.txs) && i < |s.block.value.txs|
    ensures var b := s.block.value;
            b.txs[i].hash in s.receipts && Served(s, b, i) == ReceiptAt(b, ReceiptsFor(b.txs, receipts), i)
  {
    var b := s.block.value;
    var rs := ReceiptsFor(b.txs, receipts);
    ReceiptMapKeys(b, rs, |rs|);
    var j := ServedIsLast(b, rs, |rs|, b.txs[i].hash);
    assert j == i;
  }

  lemma {:induction false} ServedGasIs(s: CacheState, receipts: map<Hash, Receipt>, n: nat)
    requires Indexed(s, receipts) && DistinctHashes(s.block.value.txs) && n <= |s.block.value.txs|
    requires AllServed(s, s.block.value)
    ensures var b := s.block.value; ServedGas(s, b, n) == GasSum(b, ReceiptsFor(b.txs, receipts), n)
    decreases n
  {
    if n == 0 {
    } else {
      ServedGasIs(s, receipts, n - 1);
      ServedIsOwn(s, receipts, n - 1);
    }
  }

  lemma AllAreServed(s: CacheState, receipts: map<Hash, Receipt>)
    requires Indexed(s, receipts)
    ensures AllServed(s, s.block.value)
  {
    var b := s.block.value;
    var rs := ReceiptsFor(b.txs, receipts);
    ReceiptMapKeys(b, rs, |rs|);
  }

  lemma ServedLogIs(s: CacheState, receipts: map<Hash, Receipt>, i: nat, x: nat)
    requires Indexed(s, receipts) && DistinctHashes(s.block.value.txs) && i < |s.block.value.txs|
    requires AllServed(s, s.block.value)
    ensures var b := s.block.value; ServedLog(s, b, i, x) == InLogRange(ReceiptsFor(b.txs, receipts), i, x)
  {
    ServedIsOwn(s, receipts, i);
  }

  lemma IndexedLog(s: CacheState, receipts: map<Hash, Receipt>, x: nat)
    requires Indexed(s, receipts) && DistinctHashes(s.block.value.txs) && AllServed(s, s.block.value)
    requires x < LogsServed(s, s.block.value)
    ensures OneOwner(s, s.block.value, x)
  {
    var b := s.block.value;
    var rs := ReceiptsFor(b.txs, receipts);
    ServedIsOwn(s, receipts, |rs| - 1);
    var owner := LogRangesPartition(rs, x);
    forall i | 0 <= i < |rs|
      ensures ServedLog(s, b, i, x) == InLogRange(rs, i, x)
    {
      ServedLogIs(s, receipts, i, x);
    }
    assert ServedLog(s, b, owner, x);
  }

  lemma IndexedLogs(s: CacheState, receipts: map<Hash, Receipt>)
    requires Indexed(s, receipts) && DistinctHashes(s.block.value.txs) && AllServed(s, s.block.value)
    ensures LogsPartitioned(s, s.block.value)
  {
    forall x: nat | x < LogsServed(s, s.block.value)
      ensures OneOwner(s, s.block.value, x)
    {
      IndexedLog(s, receipts, x);
    }
  }

  lemma IndexedGas(s: CacheState, receipts: map<Hash, Receipt>, n: nat)
    requires Indexed(s, receipts) && DistinctHashes(s.block.value.txs) && AllServed(s, s.block.value)
    requires ServedNondecreasing(s, s.block.value) && 0 < n <= |s.block.value.txs|
    ensures var b := s.block.value; ServedGas(s, b, n) == Served(s, b, n - 1).receipt.cumulativeGasUsed
  {
    var b := s.block.value;
    var rs := ReceiptsFor(b.txs, receipts);
    forall i | 0 <= i < |rs|
      ensures Served(s, b, i).receipt == rs[i]
    {
      ServedIsOwn(s, receipts, i);
    }
    forall i | 0 < i < |rs|
      ensures rs[i - 1].cumulativeGasUsed <= rs[i].cumulativeGasUsed
    {
      assert Served(s, b, i - 1).receipt == rs[i - 1] && Served(s, b, i).receipt == rs[i];
    }
    forall i | 0 <= i < |rs|
      ensures rs[i].cumulativeGasUsed < U64
    {
      assert Served(s, b, i).receipt == rs[i];
    }
    ServedGasIs(s, receipts, n);
    GasTelescopes(b, rs, n);
  }

  /** What readers of the pending block can rely on, in every run, if its transaction hashes are distinct: the
      gas served for the first n transactions adds up to the cumulative gas served for the n-th, if
      cumulative gas never falls, and the log indices served partition the block's logs. */
  lemma ServedArithmetic(chain: Chain, ps: seq<Flashblock>, n: nat)
    requires Run(chain, ps).block.Some? && DistinctHashes(Run(chain, ps).block.value.txs)
    ensures var s := Run(chain, ps);
            var b := s.block.value;
            && AllServed(s, b) && LogsPartitioned(s, b)
            && (ServedNondecreasing(s, b) && 0 < n <= |b.txs| ==>
                  ServedGas(s, b, n) == Served(s, b, n - 1).receipt.cumulativeGasUsed)
  {
    AlwaysRecomputed(chain, ps);
    var s, ls := Run(chain, ps), Live(chain, ps);
    var receipts := ls[|ls| - 1].metadata.receipts;
    AllAreServed(s, receipts);
    IndexedLogs(s, receipts);
    if ServedNondecreasing(s, s.block.value) && 0 < n <= |s.block.value.txs| {
      IndexedGas(s, receipts, n);
    }
  }

  // ---- Everything a served receipt says ----

  /** The logs of the first n transactions, by the receipts of their own hashes. */
  ghost function LogCount(txs: seq<Tx>, receipts: map<Hash, Receipt>, n: nat): nat
    requires n <= |txs| && HasReceipts(txs, receipts)
  {
    if n == 0 then 0 else LogCount(txs, receipts, n - 1) + |receipts[txs[n - 1].hash].logs|
  }

  /** The receipt x served for the hash h is that of the last transaction of the block with this hash: it
      carries what the metadata says for h, and its gas and logs start where the transaction before ends. */
  ghost predicate IsReceiptOf(x: RpcReceipt, h: Hash, b: Block, receipts: map<Hash, Receipt>)
    requires HasReceipts(b.txs, receipts)
  {
    && h in receipts && x.receipt == receipts[h] && x.txHash == h
    && LastWith(b.txs, |b.txs|, h, x.txIndex)
    && x.blockHash == b.hash && x.blockNumber == b.header.blockNumber
    && x.firstLogIndex == LogCount(b.txs, receipts, x.txIndex)
    && var before := if x.txIndex == 0 then 0 else receipts[b.txs[x.txIndex - 1].hash].cumulativeGasUsed;
       x.gasUsed == (receipts[h].cumulativeGasUsed - before) % U64
  }

  lemma {:induction false} LogCountIs(txs: seq<Tx>, receipts: map<Hash, Receipt>, n: nat)
    requires n <= |txs| && HasReceipts(txs, receipts)
    ensures LogsBefore(ReceiptsFor(txs, receipts), n) == LogCount(txs, receipts, n)
    decreases n
  {
    if n == 0 {
    } else {
      LogCountIs(txs, receipts, n - 1);
    }
  }

  lemma IndexedReceipt(s: CacheState, receipts: map<Hash, Receipt>, h: Hash)
    requires Indexed(s, receipts) && h in s.receipts
    ensures IsReceiptOf(s.receipts[h], h, s.block.value, receipts)
  {
    var b := s.block.value;
    var rs := ReceiptsFor(b.txs, receipts);
    var i := ServedIsLast(b, rs, |rs|, h);
    LogCountIs(b.txs, receipts, i);
    assert rs[i] == receipts[b.txs[i].hash];
  }

  /** In every run a served receipt is the one the last message of the pending block gave for its hash, at
      the place of the last transaction with that hash. */
  lemma ServedReceiptIs(chain: Chain, ps: seq<Flashblock>, h: Hash)
    requires h in Run(chain, ps).receipts
    ensures Run(chain, ps).block.Some? && HasReceipts(PendingTxs(chain, ps), LastReceipts(chain, ps))
    ensures IsReceiptOf(Run(chain, ps).receipts[h], h, Run(chain, ps).block.value, LastReceipts(chain, ps))
  {
    AlwaysRecomputed(chain, ps);
    IndexedReceipt(Run(chain, ps), LastReceipts(chain, ps), h);
  }

  /** In every run the pending block is exactly the one its messages describe, hashed and decoded. */
  lemma PendingBlockDescribed(chain: Chain, ps: seq<Flashblock>)
    requires Run(chain, ps).block.Some?
    ensures var b, ls := Run(chain, ps).block.value, Live(chain, ps);
            && ls != [] && Valid(ls)
            && b.header == DescribedPayload(ls) && b.hash == chain.blockHash(b.header)
            && |b.txs| == |b.header.transactions|
            && forall i | 0 <= i < |b.txs| :: chain.decode(b.header.transactions[i]) == Some(b.txs[i])
  {
    AlwaysRecomputed(chain, ps);
  }

  // ---- When a message takes effect ----

  /** The messages of the pending block if the message takes effect. */
  ghost function LiveWith(chain: Chain, ps: seq<Flashblock>, p: Flashblock): seq<Flashblock> {
    if p.index == 0 then [p] else Live(chain, ps) + [p]
  }

  /** The messages make a block that the node can decode. */
  ghost predicate Converts(chain: Chain, ls: seq<Flashblock>)
    requires ls != [] && Valid(ls)
  {
    && chain.wellFormed(DescribedPayload(ls))
    && forall i | 0 <= i < |AllTransactions(ls)| :: chain.decode(AllTransactions(ls)[i]).Some?
  }

  ghost function BlockFrom(chain: Chain, ls: seq<Flashblock>): Block
    requires ls != [] && Valid(ls) && Converts(chain, ls)
  {
    var x := DescribedPayload(ls);
    Block(x, chain.blockHash(x),
          seq(|x.transactions|, i requires 0 <= i < |x.transactions| => chain.decode(x.transactions[i]).value))
  }

  /** The message decodes, continues the block or starts one, and the block converts. */
  ghost predicate Fits(chain: Chain, ls: seq<Flashblock>, p: Flashblock)
    requires ls != []
  {
    p.metadata.Metadata? && Valid(ls) && Converts(chain, ls)
  }

  /** Every transaction has a receipt of its own hash, and the L1 fee data of a nonempty block is there. */
  ghost predicate Ready(chain: Chain, b: Block, receipts: map<Hash, Receipt>) {
    HasReceipts(b.txs, receipts) && (b.txs != [] ==> chain.l1Info(b.txs))
  }

  /** The receipts of the block's transactions in order. */
  ghost predicate InOrder(rs: seq<Receipt>, b: Block, receipts: map<Hash, Receipt>) {
    |rs| == |b.txs| && forall i | 0 <= i < |rs| :: b.txs[i].hash in receipts && rs[i] == receipts[b.txs[i].hash]
  }

  ghost predicate Builds(chain: Chain, b: Block, rs: seq<Receipt>, i: nat)
    requires i < |b.txs|
  {
    b.txs[i].signer.Some? && chain.receiptBuilds(b, rs, i)
  }

  /** Transaction i is the first in trouble, and its trouble is that its receipt cannot be built. */
  ghost predicate PanicsAt(chain: Chain, b: Block, rs: seq<Receipt>, i: nat) {
    && i < |b.txs| && b.txs[i].signer.Some? && !chain.receiptBuilds(b, rs, i)
    && forall j | 0 <= j < i :: Builds(chain, b, rs, j)
  }

  /** Transaction i is the first in trouble, and its trouble is its signer. */
  ghost predicate FailsAt(chain: Chain, b: Block, rs: seq<Receipt>, i: nat) {
    i < |b.txs| && b.txs[i].signer.None? && forall j | 0 <= j < i :: Builds(chain, b, rs, j)
  }

  lemma OneTrouble(chain: Chain, b: Block, rs: seq<Receipt>, i: nat, j: nat)
    ensures !(PanicsAt(chain, b, rs, i) && FailsAt(chain, b, rs, j))
  {
    assert i < j < |b.txs| ==> (FailsAt(chain, b, rs, j) ==> Builds(chain, b, rs, i));
    assert j < i < |b.txs| ==> (PanicsAt(chain, b, rs, i) ==> Builds(chain, b, rs, j));
  }

  lemma {:induction false} BuildOutcome(chain: Chain, b: Block, rs: seq<Receipt>, n: nat)
    requires n <= |b.txs|
    ensures BuildReceipts(chain, b, rs, n).Panicked? ==> exists i: nat :: i < n && PanicsAt(chain, b, rs, i)
    ensures BuildReceipts(chain, b, rs, n).Failed? ==> exists i: nat :: i < n && FailsAt(chain, b, rs, i)
    decreases n
  {
    if n == 0 {
    } else {
      BuildOutcome(chain, b, rs, n - 1);
      if BuildReceipts(chain, b, rs, n - 1).Done? {
        assert BuildReceipts(chain, b, rs, n).Panicked? ==> PanicsAt(chain, b, rs, n - 1);
        assert BuildReceipts(chain, b, rs, n).Failed? ==> FailsAt(chain, b, rs, n - 1);
      }
    }
  }

  lemma BuildPanicsIff(chain: Chain, b: Block, rs: seq<Receipt>)
    ensures BuildReceipts(chain, b, rs, |b.txs|).Panicked? <==> exists i: nat :: PanicsAt(chain, b, rs, i)
  {
    BuildOutcome(chain, b, rs, |b.txs|);
    if i: nat :| PanicsAt(chain, b, rs, i) {
      forall j: nat
        ensures !FailsAt(chain, b, rs, j)
      {
        OneTrouble(chain, b, rs, i, j);
      }
      assert !Builds(chain, b, rs, i);
    }
  }

  /** The block of a valid run of messages. */
  lemma BlockOfValid(chain: Chain, ls: seq<Flashblock>)
    requires ls != [] && Valid(ls)
    ensures BlockOfAssembly(chain, Assembled(ls)).Some? <==> Converts(chain, ls)
    ensures Converts(chain, ls) ==> BlockOfAssembly(chain, Assembled(ls)) == Some(BlockFrom(chain, ls))
  {
    BuildEnvelopeDescribes(ls, V4);
    if Converts(chain, ls) {
      assert Decoded(chain, AllTransactions(ls)).value == BlockFrom(chain, ls).txs;
    }
  }

  lemma IndexOutcome(chain: Chain, s: CacheState, b: Block, receipts: map<Hash, Receipt>,
                     balances: seq<(Option<Address>, Option<nat>)>, rs: seq<Receipt>)
    requires Ready(chain, b, receipts) ==> InOrder(rs, b, receipts)
    ensures var r := IndexBlock(chain, s, b, receipts, balances);
            && (r.Panicked? <==> !Ready(chain, b, receipts) || exists i: nat :: PanicsAt(chain, b, rs, i))
            && (r.Done? <==> && Ready(chain, b, receipts) && AllParse(balances)
                             && forall i | 0 <= i < |b.txs| :: Builds(chain, b, rs, i))
  {
    if Ready(chain, b, receipts) {
      assert rs == ReceiptsFor(b.txs, receipts);
      BuildPanicsIff(chain, b, rs);
      forall i | 0 <= i < |b.txs|
        ensures Builds(chain, b, rs, i) <==> b.txs[i].signer.Some? && chain.receiptBuilds(b, rs, i)
      {
      }
      if forall i | 0 <= i < |b.txs| :: Builds(chain, b, rs, i) {
        assert forall i | 0 <= i < |b.txs| :: b.txs[i].signer.Some? && chain.receiptBuilds(b, rs, i);
      }
    }
  }

  /** What processing does to the messages of the pending block. */
  lemma ProcessIs(chain: Chain, s: CacheState, kept: seq<Flashblock>, p: Flashblock)
    requires Valid(kept) && (if p.index == 0 then kept == [] else s.assembly == Assembled(kept))
    ensures var ls, r := kept + [p], Process(chain, s, p);
            if !Fits(chain, ls, p) then r.Failed?
            else exists t: CacheState ::
                   r == IndexBlock(chain, t, BlockFrom(chain, ls), p.metadata.receipts, p.metadata.newBalances)
  {
    var ls := kept + [p];
    ExtendAssembled(kept, p);
    if Valid(ls) {
      BlockOfValid(chain, ls);
      var start := if p.index == 0 then FRESH else s;
      var t := start.(assembly := Assembled(ls));
      if Fits(chain, ls, p) {
        assert Process(chain, s, p)
            == IndexBlock(chain, t, BlockFrom(chain, ls), p.metadata.receipts, p.metadata.newBalances);
      }
    }
  }

  /** Exactly when a message takes effect, and exactly when it panics, in any run: it must fit; then a missing
      receipt, missing L1 fee data, or a receipt that cannot be built before any unrecoverable signer panics;
      otherwise every signer must recover and every balance parse. */
  lemma OutcomeIff(chain: Chain, ps: seq<Flashblock>, p: Flashblock, rs: seq<Receipt>)
    requires var ls := LiveWith(chain, ps, p);
             Fits(chain, ls, p) && Ready(chain, BlockFrom(chain, ls), p.metadata.receipts)
             ==> InOrder(rs, BlockFrom(chain, ls), p.metadata.receipts)
    ensures var ls, r := LiveWith(chain, ps, p), Process(chain, Run(chain, ps), p);
            if !Fits(chain, ls, p) then r.Failed?
            else
              var b, receipts := BlockFrom(chain, ls), p.metadata.receipts;
              && (r.Panicked? <==> !Ready(chain, b, receipts) || exists i: nat :: PanicsAt(chain, b, rs, i))
              && (r.Done? <==> && Ready(chain, b, receipts) && AllParse(p.metadata.newBalances)
                               && forall i | 0 <= i < |b.txs| :: Builds(chain, b, rs, i))
  {
    var ls := LiveWith(chain, ps, p);
    var kept := if p.index == 0 then [] else Live(chain, ps);
    assert ls == kept + [p];
    AlwaysRecomputed(chain, ps);
    ProcessIs(chain, Run(chain, ps), kept, p);
    if Fits(chain, ls, p) {
      var b := BlockFrom(chain, ls);
      var t: CacheState :|
        Process(chain, Run(chain, ps), p) == IndexBlock(chain, t, b, p.metadata.receipts, p.metadata.newBalances);
      IndexOutcome(chain, t, b, p.metadata.receipts, p.metadata.newBalances, rs);
    }
  }

  // ---- The cache at the end of a lossy stream ----

  /** The cache after a stream of which some messages never arrive. */
  ghost function RunLossy(chain: Chain, ps: seq<Flashblock>, lost: seq<bool>): CacheState
    requires |ps| == |lost|
    decreases |ps|
  {
    if ps == [] then FRESH
    else
      var k := |ps| - 1;
      var before := RunLossy(chain, ps[..k], lost[..k]);
      if lost[k] then before else Applied(chain, before, ps[k])
  }

  /** What became of each message: lost on the way, or processed with or without success. */
  ghost function Fates(chain: Chain, ps: seq<Flashblock>, lost: seq<bool>): seq<Fate>
    requires |ps| == |lost|
    ensures |Fates(chain, ps, lost)| == |ps|
    decreases |ps|
  {
    if ps == [] then []
    else
      var k := |ps| - 1;
      var done := Process(chain, RunLossy(chain, ps[..k], lost[..k]), ps[k]).Done?;
      Fates(chain, ps[..k], lost[..k]) + [if lost[k] then Lost else if done then Processed else Fails]
  }

  /** The whole cache, with all its failure modes, mirrors the stream exactly as the bare
      reset-or-extend rule does. */
  lemma {:induction false} CacheMirrors(chain: Chain, ps: seq<Flashblock>, lost: seq<bool>)
    requires |ps| == |lost|
    ensures RunLossy(chain, ps, lost).assembly == Delivered(ps, Fates(chain, ps, lost))
    decreases |ps|
  {
    if ps == [] {
    } else {
      var k := |ps| - 1;
      CacheMirrors(chain, ps[..k], lost[..k]);
      assert Fates(chain, ps, lost)[..k] == Fates(chain, ps[..k], lost[..k]);
    }
  }

  /** With nothing lost or failed, the cache is the plain mirror. */
  lemma CacheMirrorsAll(chain: Chain, ps: seq<Flashblock>, lost: seq<bool>)
    requires |ps| == |lost| && WellSequenced(ps)
    requires forall k | 0 <= k < |ps| :: Fates(chain, ps, lost)[k] == Processed
    ensures Mirrored(ps) == Ok(RunLossy(chain, ps, lost).assembly)
  {
    CacheMirrors(chain, ps, lost);
    LosslessMirror(ps, Fates(chain, ps, lost));
  }
}
