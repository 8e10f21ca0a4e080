/** From the service's locks to an RPC node's pending block. */
module EndToEnd {
  import opened Wrappers
  import opened Payload
  import opened FlashblockBuilder
  import opened Mirror
  import Service = FlashblocksInterleaving
  import Cache = FlashblocksCache
  import Flashblocks = FlashblocksService
  import Engine
  import Modes
  import Selection
  import Server
  import ServerRuns

  /** An assembly is a nonempty prefix of the flashblocks accepted in the epoch whose index 0 was published
      last, cut at the first message lost or failed. */
  ghost predicate IsPrefix(s: Service.Shared, fates: seq<Fate>, assembly: Assembly)
    requires |fates| == |s.published| > 0
  {
    var k := |s.published| - 1;
    && s.published[k].index <= k < |s.accepted|
    && var start := k - s.published[k].index;
       var m := Reached(fates, start, |s.published|);
       start < m && assembly == Assembled(s.published[start..m]) && Service.IsEpoch(s.accepted, start, k)
  }

  /** So is the node's. */
  ghost predicate IsPrefixOfEpoch(s: Service.Shared, chain: Cache.Chain, lost: seq<bool>)
    requires |lost| == |s.published| > 0
  {
    IsPrefix(s, Cache.Fates(chain, s.published, lost), Cache.RunLossy(chain, s.published, lost).assembly)
  }

  lemma HeldPrefix(s: Service.Shared, fates: seq<Fate>)
    requires |fates| == |s.published| > 0 && Service.HoldsLastEpoch(s, fates)
    ensures IsPrefix(s, fates, Delivered(s.published, fates))
  {
  }

  /** For every interleaving of the service's lock steps and every pattern of loss and failure that spares
      index-0 messages, the node's pending block is a prefix of one epoch. */
  lemma PendingBlockIsPrefixOfEpoch(actions: seq<Service.Action>, chain: Cache.Chain, lost: seq<bool>)
    requires |lost| == |Service.Run(Service.STARTED, actions).published| > 0
    requires var ps := Service.Run(Service.STARTED, actions).published;
             forall k | 0 <= k < |ps| && ps[k].index == 0 :: Cache.Fates(chain, ps, lost)[k] == Processed
    ensures IsPrefixOfEpoch(Service.Run(Service.STARTED, actions), chain, lost)
  {
    var s := Service.Run(Service.STARTED, actions);
    var fates := Cache.Fates(chain, s.published, lost);
    Service.LossyEndToEnd(actions, fates);
    HeldPrefix(s, fates);
    Cache.CacheMirrors(chain, s.published, lost);
  }

  lemma WholeMirror(actions: seq<Service.Action>)
    requires |Service.Run(Service.STARTED, actions).published| > 0
    ensures var s := Service.Run(Service.STARTED, actions);
            && |s.published| <= |s.accepted| && WellSequenced(s.published)
            && Mirrored(s.published) == Ok(s.accepted[|s.published| - 1].after)
  {
    Service.RunKeepsSound(actions);
    Service.MirrorAll(Service.Run(Service.STARTED, actions));
  }

  /** With nothing lost or failed, the node's assembly after each message is the service's own just
      after it accepted that message. */
  lemma PendingBlockIsServiceBlock(actions: seq<Service.Action>, chain: Cache.Chain, lost: seq<bool>)
    requires |lost| == |Service.Run(Service.STARTED, actions).published| > 0
    requires var ps := Service.Run(Service.STARTED, actions).published;
             forall k | 0 <= k < |ps| :: Cache.Fates(chain, ps, lost)[k] == Processed
    ensures var s := Service.Run(Service.STARTED, actions);
            && |s.published| <= |s.accepted|
            && Cache.RunLossy(chain, s.published, lost).assembly == s.accepted[|s.published| - 1].after
  {
    WholeMirror(actions);
    Cache.CacheMirrorsAll(chain, Service.Run(Service.STARTED, actions).published, lost);
  }

  /** L2 rebuilt the payload p of a request: it was asked to build exactly these transactions on a
      remembered fork-choice state, without its pool, and p is the payload it returned for that. */
  ghost predicate RebuiltBy(calls: seq<Server.Call>, state: Engine.ForkchoiceState, version: Version,
                            transactions: seq<Bytes>, p: Envelope)
  {
    exists a: OpAttributes, u: Engine.ForkchoiceUpdated, id ::
      && Server.L2Fcu(state, Some(a), Ok(u)) in calls
      && u.payloadId == Some(id) && Server.L2GetPayload(id, version, Ok(p)) in calls
      && a.transactions == Some(transactions) && a.noTxPool == Some(true)
  }

  /** What the consensus client is given when the builder is a flashblocks service: after any run of the
      service and any run of the server, a builder-sourced payload is exactly the block published as
      preconfirmations this epoch, if there is one for the requested id; with an external state root it
      is what L2 returned when asked to rebuild exactly those transactions on the fork-choice state that
      was remembered for the id. */
  lemma PreconfirmationsReachConsensus(steps: seq<Flashblocks.Step>, cfg: Server.Config, mode: Modes.Mode,
                                       events: seq<ServerRuns.Event>, r: Server.GetRequest)
    requires r.builder.Flashblocks? && r.builder.service == Flashblocks.RunSteps(Flashblocks.STARTED, steps)
    requires var a := Server.GetPayload(cfg, ServerRuns.Run(cfg, Server.Started(mode), events), r).answer;
             a.Answered? && a.result.Ok? && a.result.value.1 == Selection.Builder
    requires r.builder.service.current == Some(r.id) && r.builder.service.resetAt < |r.builder.service.published|
    ensures var epoch := r.builder.service.Epoch();
            var g := Server.GetPayload(cfg, ServerRuns.Run(cfg, Server.Started(mode), events), r);
            var p := g.answer.result.value.0;
            && Valid(epoch) && (forall p | p in epoch :: p.payloadId == r.id)
            && (!cfg.externalStateRoot ==> Describes(p, epoch))
            && (cfg.externalStateRoot ==>
                  && ServerRuns.LedgerOf(cfg, mode, events, r.id).Kept?
                  && var kept := ServerRuns.LedgerOf(cfg, mode, events, r.id).request;
                     RebuiltBy(g.calls, kept.state, r.version, AllTransactions(epoch), p))
  {
    Flashblocks.PreconfirmationsPreserved(steps, r.version, r.id);
    ServerRuns.Provenance(cfg, mode, events, r);
    var epoch := r.builder.service.Epoch();
    assert r.Builder() == Ok(r.builder.service.Best(r.version, r.id).value);
    assert r.Builder().value.Transactions() == AllTransactions(epoch);
  }
}
