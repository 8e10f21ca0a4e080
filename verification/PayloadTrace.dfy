/** The two-level index of payloads being built: which ids were started on a parent block, and for
    each id whether the builder is building it. Both levels are bounded caches that may evict. */
module PayloadTrace {
  import opened Wrappers
  import opened Payload

  datatype Trace = Trace(builderHasPayload: bool, traceId: Option<nat>)

  datatype Index = Index(byParent: map<Hash, seq<PayloadId>>, byId: map<PayloadId, Trace>) {

    predicate HasBuilderPayload(id: PayloadId) {
      id in byId && byId[id].builderHasPayload
    }

    function Store(id: PayloadId, parent: Hash, flag: bool, traceId: Option<nat>): Index {
      var listed := if parent in byParent then byParent[parent] else [];
      Index(byParent[parent := listed + [id]], byId[id := Trace(flag, traceId)])
    }

    function Remove(parent: Hash): Index {
      if parent !in byParent then this
      else Index(byParent - {parent}, byId - (set id | id in byParent[parent]))
    }
  }

  const EMPTY_INDEX := Index(map[], map[])

  /** The trace ids recorded for a list of payloads, in order. */
  function TraceIds(byId: map<PayloadId, Trace>, ids: seq<PayloadId>): seq<nat> {
    if ids == [] then []
    else
      var id := ids[|ids| - 1];
      TraceIds(byId, ids[..|ids| - 1]) + if id in byId && byId[id].traceId.Some? then [byId[id].traceId.value] else []
  }

  class PayloadTraceContext {
    var blockHashToPayloadIds: map<Hash, seq<PayloadId>>
    var payloadId: map<PayloadId, Trace>

    ghost function View(): Index
      reads this
    {
      Index(blockHashToPayloadIds, payloadId)
    }

    constructor ()
      ensures View() == EMPTY_INDEX
    {
      blockHashToPayloadIds, payloadId := map[], map[];
    }

    method Store(id: PayloadId, parentHash: Hash, builderHasPayload: bool, traceId: Option<nat>)
      modifies this
      ensures View() == old(View()).Store(id, parentHash, builderHasPayload, traceId)
    {
      payloadId := payloadId[id := Trace(builderHasPayload, traceId)];
      if parentHash in blockHashToPayloadIds {
        var payloads := blockHashToPayloadIds[parentHash];
        blockHashToPayloadIds := blockHashToPayloadIds[parentHash := payloads + [id]];
      } else {
        assert [] + [id] == [id];
        blockHashToPayloadIds := blockHashToPayloadIds[parentHash := [id]];
      }
    }

    method TraceIdsFromParentHash(parentHash: Hash) returns (r: Option<seq<nat>>)
      ensures r.Some? <==> parentHash in View().byParent
      ensures r.Some? ==> r.value == TraceIds(View().byId, View().byParent[parentHash])
    {
      if parentHash !in blockHashToPayloadIds {
        return None;
      }
      var ids, found := blockHashToPayloadIds[parentHash], [];
      for i := 0 to |ids|
        invariant found == TraceIds(payloadId, ids[..i])
      {
        assert ids[..i + 1][..i] == ids[..i];
        if ids[i] in payloadId && payloadId[ids[i]].traceId.Some? {
          found := found + [payloadId[ids[i]].traceId.value];
        }
      }
      assert ids[..|ids|] == ids;
      return Some(found);
    }

    method HasBuilderPayload(id: PayloadId) returns (r: bool)
      ensures r == View().HasBuilderPayload(id)
    {
      r := id in payloadId && payloadId[id].builderHasPayload;
    }

    /** Forgets a parent block and every payload listed under it. */
    method RemoveByParentHash(blockHash: Hash)
      modifies this
      ensures View() == old(View()).Remove(blockHash)
    {
      if blockHash in blockHashToPayloadIds {
        var ids := blockHashToPayloadIds[blockHash];
        blockHashToPayloadIds := blockHashToPayloadIds - {blockHash};
        for i := 0 to |ids|
          invariant blockHashToPayloadIds == old(blockHashToPayloadIds) - {blockHash}
          invariant payloadId == old(payloadId) - (set id | id in ids[..i])
        {
          assert ids[..i + 1] == ids[..i] + [ids[i]];
          payloadId := payloadId - {ids[i]};
        }
        assert ids[..|ids|] == ids;
      }
    }
  }

  // ---- The index as a log ----

  datatype Op =
    | Store(id: PayloadId, parent: Hash, flag: bool, traceId: Option<nat>)
    | Remove(parent: Hash)
    | EvictId(evicted: PayloadId)
    | EvictParent(evictedParent: Hash)
    | Read

  function Apply(x: Index, op: Op): Index {
    match op
    case Store(id, parent, flag, traceId) => x.Store(id, parent, flag, traceId)
    case Remove(parent) => x.Remove(parent)
    case EvictId(id) => x.(byId := x.byId - {id})
    case EvictParent(parent) => x.(byParent := x.byParent - {parent})
    case Read => x
  }

  ghost function Replay(ops: seq<Op>): Index
    decreases |ops|
  {
    if ops == [] then EMPTY_INDEX else Apply(Replay(ops[..|ops| - 1]), ops[|ops| - 1])
  }

  predicate StoresId(op: Op, id: PayloadId) {
    op.Store? && op.id == id
  }

  /** Entry i is the id's most recent store. */
  ghost predicate LastStore(ops: seq<Op>, id: PayloadId, i: nat) {
    i < |ops| && StoresId(ops[i], id) && forall j | i < j < |ops| :: !StoresId(ops[j], id)
  }

  /** The entry takes away the list of a parent. */
  predicate Unlists(op: Op, parent: Hash) {
    op == Remove(parent) || op == EvictParent(parent)
  }

  /** Before entry n, the id had been stored under the parent since the parent's list was last taken away. */
  ghost predicate Listed(ops: seq<Op>, parent: Hash, id: PayloadId, n: nat)
    requires n <= |ops|
  {
    exists k :: 0 <= k < n && ListedBy(ops, parent, id, k, n)
  }

  ghost predicate ListedBy(ops: seq<Op>, parent: Hash, id: PayloadId, k: nat, n: nat)
    requires k < n <= |ops|
  {
    StoresId(ops[k], id) && ops[k].parent == parent && forall j | k < j < n :: !Unlists(ops[j], parent)
  }

  /** After entry i the id was evicted, or a parent it was listed under was removed. */
  ghost predicate ClearedAfter(ops: seq<Op>, id: PayloadId, i: nat) {
    exists j :: i < j < |ops| && Clears(ops, id, j)
  }

  ghost predicate Clears(ops: seq<Op>, id: PayloadId, j: nat)
    requires j < |ops|
  {
    ops[j] == EvictId(id) || (ops[j].Remove? && Listed(ops, ops[j].parent, id, j))
  }

  /** The entry the log says the id has: that of its last store, unless it was cleared since. */
  ghost predicate Holds(ops: seq<Op>, id: PayloadId, t: Trace) {
    exists i: nat :: LastStore(ops, id, i) && !ClearedAfter(ops, id, i) && t == Trace(ops[i].flag, ops[i].traceId)
  }

  lemma ListedLocal(ops: seq<Op>, parent: Hash, id: PayloadId, n: nat, m: nat)
    requires n <= m <= |ops|
    ensures Listed(ops[..m], parent, id, n) <==> Listed(ops, parent, id, n)
  {
    forall k | 0 <= k < n
      ensures ListedBy(ops[..m], parent, id, k, n) <==> ListedBy(ops, parent, id, k, n)
    {
    }
  }

  lemma ListedStep(ops: seq<Op>, parent: Hash, id: PayloadId)
    requires ops != []
    ensures var n := |ops| - 1;
            var op := ops[n];
            Listed(ops, parent, id, n + 1)
            <==> (StoresId(op, id) && op.parent == parent) || (!Unlists(op, parent) && Listed(ops[..n], parent, id, n))
  {
    var n := |ops| - 1;
    var op := ops[n];
    if Listed(ops[..n], parent, id, n) && !Unlists(op, parent) {
      var k :| 0 <= k < n && ListedBy(ops[..n], parent, id, k, n);
      assert ListedBy(ops, parent, id, k, n + 1);
    }
    if StoresId(op, id) && op.parent == parent {
      assert ListedBy(ops, parent, id, n, n + 1);
    }
    if Listed(ops, parent, id, n + 1) && !(StoresId(op, id) && op.parent == parent) {
      var k :| 0 <= k < n + 1 && ListedBy(ops, parent, id, k, n + 1);
      assert ListedBy(ops[..n], parent, id, k, n);
    }
  }

  /** The parent level lists exactly what the log says. */
  lemma {:induction false} ParentLevel(ops: seq<Op>, parent: Hash, id: PayloadId)
    ensures var x := Replay(ops);
            (parent in x.byParent && id in x.byParent[parent]) <==> Listed(ops, parent, id, |ops|)
    decreases |ops|
  {
    if ops == [] {
    } else {
      ParentLevel(ops[..|ops| - 1], parent, id);
      ListedStep(ops, parent, id);
    }
  }

  /** The ids stored under a parent since its list was last taken away, in order. */
  ghost function ListedIds(ops: seq<Op>, parent: Hash): seq<PayloadId>
    decreases |ops|
  {
    if ops == [] then []
    else
      var before, op := ListedIds(ops[..|ops| - 1], parent), ops[|ops| - 1];
      if Unlists(op, parent) then []
      else if op.Store? && op.parent == parent then before + [op.id]
      else before
  }

  /** The parent level keeps exactly that list, repetitions included. */
  lemma {:induction false} ParentListIs(ops: seq<Op>, parent: Hash)
    ensures var x := Replay(ops);
            && (parent in x.byParent <==> ListedIds(ops, parent) != [])
            && (parent in x.byParent ==> x.byParent[parent] == ListedIds(ops, parent))
    decreases |ops|
  {
    if ops == [] {
    } else {
      ParentListIs(ops[..|ops| - 1], parent);
    }
  }

  predicate HasTrace(byId: map<PayloadId, Trace>, id: PayloadId) {
    id in byId && byId[id].traceId.Some?
  }

  ghost predicate Increasing(at: seq<nat>) {
    forall k, l | 0 <= k < l < |at| :: at[k] < at[l]
  }

  /** The k-th trace id is that of the id at position at[k]. */
  ghost predicate PicksAt(byId: map<PayloadId, Trace>, ids: seq<PayloadId>, at: seq<nat>, traces: seq<nat>, k: nat)
    requires k < |at| == |traces|
  {
    at[k] < |ids| && HasTrace(byId, ids[at[k]]) && traces[k] == byId[ids[at[k]]].traceId.value
  }

  /** The traces are those of the listed ids that have one, all of them and in the order of the list. */
  ghost predicate Picks(byId: map<PayloadId, Trace>, ids: seq<PayloadId>, at: seq<nat>, traces: seq<nat>) {
    && |at| == |traces| && Increasing(at)
    && (forall k | 0 <= k < |at| :: PicksAt(byId, ids, at, traces, k))
    && (forall i: nat | i < |ids| && HasTrace(byId, ids[i]) :: i in at)
  }

  lemma PickMore(byId: map<PayloadId, Trace>, ids: seq<PayloadId>, at: seq<nat>, traces: seq<nat>)
    requires ids != [] && Picks(byId, ids[..|ids| - 1], at, traces) && HasTrace(byId, ids[|ids| - 1])
    ensures Picks(byId, ids, at + [|ids| - 1], traces + [byId[ids[|ids| - 1]].traceId.value])
  {
    var n := |ids| - 1;
    var more, longer := at + [n], traces + [byId[ids[n]].traceId.value];
    forall k | 0 <= k < |more|
      ensures PicksAt(byId, ids, more, longer, k)
    {
      assert k < |at| ==> PicksAt(byId, ids[..n], at, traces, k);
    }
    assert more[|at|] == n;
    assert forall k | 0 <= k < |at| :: PicksAt(byId, ids[..n], at, traces, k) && more[k] == at[k];
    forall i: nat | i < |ids| && HasTrace(byId, ids[i])
      ensures i in more
    {
      assert i < n ==> ids[..n][i] == ids[i] && i in at;
    }
  }

  lemma PickNone(byId: map<PayloadId, Trace>, ids: seq<PayloadId>, at: seq<nat>, traces: seq<nat>)
    requires ids != [] && Picks(byId, ids[..|ids| - 1], at, traces) && !HasTrace(byId, ids[|ids| - 1])
    ensures Picks(byId, ids, at, traces)
  {
    var n := |ids| - 1;
    forall k | 0 <= k < |at|
      ensures PicksAt(byId, ids, at, traces, k)
    {
      assert PicksAt(byId, ids[..n], at, traces, k);
    }
    forall i: nat | i < |ids| && HasTrace(byId, ids[i])
      ensures i in at
    {
      assert ids[..n][i] == ids[i];
    }
  }

  /** Which trace ids a lookup by parent gives. */
  lemma {:induction false} TraceIdsAre(byId: map<PayloadId, Trace>, ids: seq<PayloadId>) returns (at: seq<nat>)
    ensures Picks(byId, ids, at, TraceIds(byId, ids))
    decreases |ids|
  {
    if ids == [] {
      at := [];
    } else {
      var n := |ids| - 1;
      var before := TraceIdsAre(byId, ids[..n]);
      if HasTrace(byId, ids[n]) {
        PickMore(byId, ids, before, TraceIds(byId, ids[..n]));
        assert TraceIds(byId, ids) == TraceIds(byId, ids[..n]) + [byId[ids[n]].traceId.value];
        at := before + [n];
      } else {
        PickNone(byId, ids, before, TraceIds(byId, ids[..n]));
        assert TraceIds(byId, ids[..n]) + [] == TraceIds(byId, ids[..n]);
        assert TraceIds(byId, ids) == TraceIds(byId, ids[..n]);
        at := before;
      }
    }
  }

  lemma ClearedStep(ops: seq<Op>, id: PayloadId, i: nat)
    requires ops != [] && i < |ops| - 1
    ensures var n := |ops| - 1;
            ClearedAfter(ops, id, i) <==> ClearedAfter(ops[..n], id, i) || Clears(ops, id, n)
  {
    var n := |ops| - 1;
    forall j | 0 <= j < n && ops[j].Remove?
      ensures Clears(ops[..n], id, j) <==> Clears(ops, id, j)
    {
      ListedLocal(ops, ops[j].parent, id, j, n);
    }
    if ClearedAfter(ops, id, i) && !Clears(ops, id, n) {
      var j :| i < j < |ops| && Clears(ops, id, j);
      assert i < j < |ops[..n]| && Clears(ops[..n], id, j);
    }
    if ClearedAfter(ops[..n], id, i) {
      var j :| i < j < |ops[..n]| && Clears(ops[..n], id, j);
      assert i < j < |ops| && Clears(ops, id, j);
    }
  }

  /** How the log's answer for an id changes with one more entry. */
  lemma HoldsStep(ops: seq<Op>, id: PayloadId, t: Trace)
    requires ops != []
    ensures var n := |ops| - 1;
            var op := ops[n];
            Holds(ops, id, t)
            <==> if StoresId(op, id) then t == Trace(op.flag, op.traceId)
                 else Holds(ops[..n], id, t) && !Clears(ops, id, n)
  {
    var n := |ops| - 1;
    var op := ops[n];
    if StoresId(op, id) {
      assert LastStore(ops, id, n) && !ClearedAfter(ops, id, n);
    } else {
      if Holds(ops[..n], id, t) && !Clears(ops, id, n) {
        var i: nat :| LastStore(ops[..n], id, i) && !ClearedAfter(ops[..n], id, i)
                      && t == Trace(ops[..n][i].flag, ops[..n][i].traceId);
        ClearedStep(ops, id, i);
        assert LastStore(ops, id, i);
      }
      if Holds(ops, id, t) {
        var i: nat :| LastStore(ops, id, i) && !ClearedAfter(ops, id, i) && t == Trace(ops[i].flag, ops[i].traceId);
        ClearedStep(ops, id, i);
        assert LastStore(ops[..n], id, i);
        assert !Clears(ops, id, n);
      }
    }
  }

  /** The index is the log, with evictions as entries of it: an id's entry is that of its last store, and it
      is gone exactly when the id was evicted, or a parent it was listed under was removed, since. */
  lemma {:induction false} IndexIsLog(ops: seq<Op>, id: PayloadId, t: Trace)
    ensures var x := Replay(ops);
            (id in x.byId && x.byId[id] == t) <==> Holds(ops, id, t)
    decreases |ops|
  {
    if ops == [] {
    } else {
      var n := |ops| - 1;
      IndexIsLog(ops[..n], id, t);
      HoldsStep(ops, id, t);
      if ops[n].Remove? {
        ListedLocal(ops, ops[n].parent, id, n, n);
        ParentLevel(ops[..n], ops[n].parent, id);
      }
    }
  }

  /** An entry that clears an id is felt until the id is stored again. */
  lemma ClearedUntilStored(ops: seq<Op>, id: PayloadId, j: nat)
    requires j < |ops| && Clears(ops, id, j)
    requires forall i | j <= i < |ops| :: !StoresId(ops[i], id)
    ensures forall i: nat | LastStore(ops, id, i) :: ClearedAfter(ops, id, i)
  {
  }

  /** So an entry is never stale, whatever is evicted: the index claims that the builder has a payload only
      if the id's most recent store said so. */
  lemma NeverStale(ops: seq<Op>, id: PayloadId) returns (i: nat)
    requires id in Replay(ops).byId
    ensures LastStore(ops, id, i)
    ensures Replay(ops).byId[id] == Trace(ops[i].flag, ops[i].traceId)
  {
    var t := Replay(ops).byId[id];
    IndexIsLog(ops, id, t);
    i :| LastStore(ops, id, i) && !ClearedAfter(ops, id, i) && t == Trace(ops[i].flag, ops[i].traceId);
  }
}
