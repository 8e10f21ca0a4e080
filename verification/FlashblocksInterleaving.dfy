/** The flashblocks service with every lock acquisition as its own step. The inbound task checks the id
    (one lock), extends the builder (another), and publishes after releasing both; a fork-choice update
    writes the id and replaces the builder separately, and so does a reply that was read to differ from
    the current id; getPayload checks the id and takes the block separately. Any number of updates,
    replies and getPayload requests may be under way at once. */
module FlashblocksInterleaving {
  import opened Wrappers
  import opened Payload
  import opened FlashblockBuilder
  import opened Mirror
  import Atomic = FlashblocksService

  /** Where the inbound task is in handling its current message. */
  datatype Task = Idle | Checked(p: Flashblock) | Unpublished(p: Flashblock)

  /** A flashblock the builder accepted, the epoch it was accepted in and the assembly just after. */
  datatype Acceptance = Acceptance(epoch: nat, p: Flashblock, after: Assembly)

  /** A block taken by a getPayload request, the id it was taken for and the epoch it ended. */
  datatype Taking = Taking(id: PayloadId, epoch: nat, block: Assembly)

  /** The service's locks, where its tasks are, and a log of what happened. The replies are those found to
      differ from the current id and not yet written; replacing counts the ids written whose builder
      replacement is still to come; fetches are the getPayload requests past their check. */
  datatype Shared = Shared(
    current: Option<PayloadId>,
    assembly: Assembly,
    epoch: nat,
    task: Task,
    replies: multiset<PayloadId>,
    replacing: nat,
    fetches: map<nat, PayloadId>,
    accepted: seq<Acceptance>,
    published: seq<Flashblock>,
    taken: seq<Taking>)

  const STARTED := Shared(None, EMPTY, 0, Idle, multiset{}, 0, map[], [], [], [])

  datatype Action =
    | Receive(p: Flashblock)
    | Extend
    | Publish
    | WriteId(id: PayloadId)
    | ReadReply(reply: PayloadId)
    | WriteReply(reply: PayloadId)
    | ReplaceBuilder
    | CheckId(fetch: nat, requested: PayloadId)
    | Take(fetch: nat)

  /** One step; a step that is not next for any task has no effect. */
  function Act(s: Shared, a: Action): Shared {
    match a
    case Receive(p) =>
      if s.task.Idle? && s.current == Some(p.payloadId) then s.(task := Checked(p)) else s
    case Extend =>
      if !s.task.Checked? then s
      else (
        match Extended(s.assembly, s.task.p)
        case Err(_) => s.(task := Idle)
        case Ok(next) =>
          s.(assembly := next,
             task := Unpublished(s.task.p),
             accepted := s.accepted + [Acceptance(s.epoch, s.task.p, next)])
      )
    case Publish =>
      if s.task.Unpublished? then s.(task := Idle, published := s.published + [s.task.p]) else s
    case WriteId(id) => s.(current := Some(id), replacing := s.replacing + 1)
    case ReadReply(id) => if s.current != Some(id) then s.(replies := s.replies + multiset{id}) else s
    case WriteReply(id) =>
      if id !in s.replies then s
      else s.(replies := s.replies - multiset{id}, current := Some(id), replacing := s.replacing + 1)
    case ReplaceBuilder =>
      if s.replacing == 0 then s
      else s.(assembly := EMPTY, epoch := s.epoch + 1, replacing := s.replacing - 1)
    case CheckId(fetch, id) =>
      if fetch !in s.fetches && s.current == Some(id) then s.(fetches := s.fetches[fetch := id]) else s
    case Take(fetch) =>
      if fetch !in s.fetches then s
      else s.(assembly := EMPTY,
              epoch := s.epoch + 1,
              fetches := s.fetches - {fetch},
              taken := s.taken + [Taking(s.fetches[fetch], s.epoch, s.assembly)])
  }

  ghost function Run(s: Shared, actions: seq<Action>): Shared
    decreases |actions|
  {
    if actions == [] then s else Act(Run(s, actions[..|actions| - 1]), actions[|actions| - 1])
  }

  ghost function Payloads(accepted: seq<Acceptance>): seq<Flashblock> {
    seq(|accepted|, k requires 0 <= k < |accepted| => accepted[k].p)
  }

  /** What every step of every interleaving keeps. */
  ghost predicate Sound(s: Shared) {
    var ps := Payloads(s.accepted);
    var n := |s.accepted|;
    && Linked(s.accepted)
    && (if n > 0 && s.accepted[n - 1].epoch == s.epoch
        then s.assembly == s.accepted[n - 1].after
        else s.assembly == EMPTY)
    && (n > 0 ==> s.accepted[n - 1].epoch <= s.epoch)
    && (if s.task.Unpublished?
        then n > 0 && s.accepted[n - 1].p == s.task.p && s.published == ps[..n - 1]
        else s.published == ps)
  }

  /** The acceptances form blocks, one per epoch that has any. */
  ghost predicate Linked(accepted: seq<Acceptance>) {
    && WellSequenced(Payloads(accepted))
    && (forall k | 0 <= k < |accepted| :: BlockAt(accepted, k))
    && (forall k | 0 < k < |accepted| :: Follows(accepted[k - 1], accepted[k]))
  }

  /** The assembly recorded at position k is the block that position k belongs to. */
  ghost predicate BlockAt(accepted: seq<Acceptance>, k: nat)
    requires k < |accepted|
  {
    var i := accepted[k].p.index;
    && i <= k
    && Valid(Payloads(accepted)[k - i..k + 1])
    && accepted[k].after == Assembled(Payloads(accepted)[k - i..k + 1])
  }

  /** Index 0 comes exactly at the first acceptance of an epoch. */
  ghost predicate Follows(a: Acceptance, b: Acceptance) {
    && a.epoch <= b.epoch
    && (b.p.index == 0 <==> a.epoch < b.epoch)
  }

  lemma PayloadsAppend(accepted: seq<Acceptance>, x: Acceptance)
    ensures Payloads(accepted + [x]) == Payloads(accepted) + [x.p]
  {
  }

  /** Earlier positions are not affected by another acceptance. */
  lemma EarlierPosition(accepted: seq<Acceptance>, x: Acceptance, k: nat)
    requires k < |accepted| && BlockAt(accepted, k) && Continues(Payloads(accepted), k)
    ensures BlockAt(accepted + [x], k) && Continues(Payloads(accepted + [x]), k)
  {
    var ps, i := Payloads(accepted), accepted[k].p.index;
    PayloadsAppend(accepted, x);
    assert (ps + [x.p])[k - i..k + 1] == ps[k - i..k + 1];
  }

  /** An acceptance in the epoch of the last one continues its block. */
  lemma ContinuesBlock(accepted: seq<Acceptance>, x: Acceptance)
    requires Linked(accepted) && accepted != [] && accepted[|accepted| - 1].epoch == x.epoch
    requires Extended(accepted[|accepted| - 1].after, x.p) == Ok(x.after)
    ensures BlockAt(accepted + [x], |accepted|) && Continues(Payloads(accepted + [x]), |accepted|)
    ensures Follows(accepted[|accepted| - 1], x)
  {
    var n, ps, i := |accepted|, Payloads(accepted), x.p.index;
    PayloadsAppend(accepted, x);
    assert BlockAt(accepted, n - 1);
    assert i == ps[n - 1].index + 1;
    var block := ps[n - i..n];
    assert (ps + [x.p])[n - i..n + 1] == block + [x.p];
    ExtendAssembled(block, x.p);
  }

  /** An acceptance by an empty builder starts a block. */
  lemma StartsBlock(accepted: seq<Acceptance>, x: Acceptance)
    requires Linked(accepted) && (accepted != [] ==> accepted[|accepted| - 1].epoch < x.epoch)
    requires Extended(EMPTY, x.p) == Ok(x.after)
    ensures BlockAt(accepted + [x], |accepted|) && Continues(Payloads(accepted + [x]), |accepted|)
    ensures accepted != [] ==> Follows(accepted[|accepted| - 1], x)
  {
    var n, ps := |accepted|, Payloads(accepted);
    PayloadsAppend(accepted, x);
    assert (ps + [x.p])[n..n + 1] == [] + [x.p];
    ExtendAssembled([], x.p);
  }

  lemma LinkedAppend(accepted: seq<Acceptance>, x: Acceptance)
    requires Linked(accepted)
    requires BlockAt(accepted + [x], |accepted|) && Continues(Payloads(accepted + [x]), |accepted|)
    requires accepted != [] ==> Follows(accepted[|accepted| - 1], x)
    ensures Linked(accepted + [x])
  {
    var n, more := |accepted|, accepted + [x];
    forall k | 0 <= k < n
      ensures Continues(Payloads(more), k) && BlockAt(more, k)
    {
      assert Continues(Payloads(accepted), k);
      EarlierPosition(accepted, x, k);
    }
    forall k | 0 < k < n + 1
      ensures Follows(more[k - 1], more[k])
    {
      assert k < n ==> Follows(accepted[k - 1], accepted[k]);
    }
  }

  lemma ExtendKeepsSound(s: Shared)
    requires Sound(s) && s.task.Checked? && Extended(s.assembly, s.task.p).Ok?
    ensures Sound(Act(s, Extend))
  {
    var n := |s.accepted|;
    var x := Acceptance(s.epoch, s.task.p, Extended(s.assembly, s.task.p).value);
    if n > 0 && s.accepted[n - 1].epoch == s.epoch {
      ContinuesBlock(s.accepted, x);
    } else {
      StartsBlock(s.accepted, x);
    }
    LinkedAppend(s.accepted, x);
    PayloadsAppend(s.accepted, x);
    assert Payloads(s.accepted + [x])[..n] == Payloads(s.accepted);
  }

  lemma ActKeepsSound(s: Shared, a: Action)
    requires Sound(s)
    ensures Sound(Act(s, a))
  {
    if a.Extend? && s.task.Checked? && Extended(s.assembly, s.task.p).Ok? {
      ExtendKeepsSound(s);
    } else if a.Publish? && s.task.Unpublished? {
      var ps, n := Payloads(s.accepted), |s.accepted|;
      assert ps == ps[..n - 1] + [ps[n - 1]];
    }
  }

  lemma {:induction false} RunKeepsSound(actions: seq<Action>)
    ensures Sound(Run(STARTED, actions))
    decreases |actions|
  {
    if actions == [] {
    } else {
      RunKeepsSound(actions[..|actions| - 1]);
      ActKeepsSound(Run(STARTED, actions[..|actions| - 1]), actions[|actions| - 1]);
    }
  }

  /** In a sound state the published stream is the sequence of acceptances, less one that is about to be
      published. */
  lemma PublishedStream(s: Shared)
    requires Sound(s)
    ensures |s.accepted| - 1 <= |s.published| <= |s.accepted|
    ensures s.published == Payloads(s.accepted)[..|s.published|]
    ensures WellSequenced(s.published)
  {
    PrefixWellSequenced(Payloads(s.accepted), |s.published|);
  }

  lemma MirrorAt(s: Shared, k: nat)
    requires Sound(s) && k < |s.accepted|
    ensures Mirrored(Payloads(s.accepted)[..k + 1]) == Ok(s.accepted[k].after)
  {
    var ps := Payloads(s.accepted);
    PrefixWellSequenced(ps, k + 1);
    MirrorTracks(ps[..k + 1]);
    assert BlockAt(s.accepted, k);
    assert ps[..k + 1][k - ps[k].index..] == ps[k - ps[k].index..k + 1];
  }

  lemma MirrorAll(s: Shared)
    requires Sound(s) && s.published != []
    ensures |s.published| <= |s.accepted| && WellSequenced(s.published)
    ensures Mirrored(s.published) == Ok(s.accepted[|s.published| - 1].after)
  {
    PublishedStream(s);
    MirrorAt(s, |s.published| - 1);
  }

  /** End-to-end mirror. Under every interleaving, the published stream is the sequence of acceptances
      (less one that is about to be published), and mirroring any prefix of it succeeds and gives the
      service's own assembly just after it accepted the last message of the prefix. */
  lemma EndToEndMirror(actions: seq<Action>, k: nat)
    ensures var s := Run(STARTED, actions);
            && |s.accepted| - 1 <= |s.published| <= |s.accepted|
            && WellSequenced(s.published)
            && (k < |s.published| ==>
                  && s.published[k] == s.accepted[k].p
                  && Mirrored(s.published[..k + 1]) == Ok(s.accepted[k].after))
  {
    RunKeepsSound(actions);
    var s := Run(STARTED, actions);
    PublishedStream(s);
    if k < |s.published| {
      assert s.published[..k + 1] == Payloads(s.accepted)[..k + 1];
      MirrorAt(s, k);
    }
  }

  /** The reader holds a nonempty prefix of the flashblocks accepted in the epoch whose index 0 was
      published last, up to the first loss. */
  ghost predicate HoldsLastEpoch(s: Shared, fates: seq<Fate>)
    requires |fates| == |s.published| > 0
  {
    var k := |s.published| - 1;
    && s.published[k].index <= k < |s.accepted|
    && HoldsPrefix(s.published, fates, k - s.published[k].index)
    && IsEpoch(s.accepted, k - s.published[k].index, k)
  }

  lemma LossyAt(s: Shared, fates: seq<Fate>)
    requires Sound(s) && |fates| == |s.published| > 0
    requires forall k | 0 <= k < |fates| && s.published[k].index == 0 :: fates[k] == Processed
    ensures HoldsLastEpoch(s, fates)
  {
    PublishedStream(s);
    LossyMirror(s.published, fates);
    BlockIsEpoch(s.accepted, |s.published| - 1);
  }

  /** The lossy mirror for every interleaving, if index-0 messages are neither lost nor fail. */
  lemma LossyEndToEnd(actions: seq<Action>, fates: seq<Fate>)
    requires |fates| == |Run(STARTED, actions).published| > 0
    requires forall k | 0 <= k < |fates| && Run(STARTED, actions).published[k].index == 0 :: fates[k] == Processed
    ensures HoldsLastEpoch(Run(STARTED, actions), fates)
  {
    RunKeepsSound(actions);
    LossyAt(Run(STARTED, actions), fates);
  }

  /** Positions start..k were accepted in one epoch, and start is where that epoch begins. */
  ghost predicate IsEpoch(accepted: seq<Acceptance>, start: nat, k: nat)
    requires start <= k < |accepted|
  {
    && (forall j | start <= j <= k :: accepted[j].epoch == accepted[start].epoch)
    && (forall j | 0 <= j < start :: accepted[j].epoch < accepted[start].epoch)
  }

  lemma BlockIsEpoch(accepted: seq<Acceptance>, k: nat)
    requires k < |accepted| && WellSequenced(Payloads(accepted))
    requires forall k | 0 < k < |accepted| :: Follows(accepted[k - 1], accepted[k])
    ensures accepted[k].p.index <= k
    ensures IsEpoch(accepted, k - accepted[k].p.index, k)
  {
    var ps := Payloads(accepted);
    BlockOf(ps, k);
    var start := k - ps[k].index;
    assert forall j | start < j <= k :: accepted[j].p.index == ps[j].index;
    SameEpoch(accepted, start, k);
    if start > 0 {
      assert ps[start..k + 1][0] == ps[start];
      assert Follows(accepted[start - 1], accepted[start]);
      forall j | 0 <= j < start
        ensures accepted[j].epoch < accepted[start].epoch
      {
        EpochsOrdered(accepted, j, start - 1);
      }
    }
  }

  lemma {:induction false} SameEpoch(accepted: seq<Acceptance>, a: nat, b: nat)
    requires a <= b < |accepted|
    requires forall k | 0 < k < |accepted| :: Follows(accepted[k - 1], accepted[k])
    requires forall k | a < k <= b :: accepted[k].p.index != 0
    ensures forall j | a <= j <= b :: accepted[j].epoch == accepted[a].epoch
    decreases b
  {
    if a == b {
    } else {
      SameEpoch(accepted, a, b - 1);
      assert Follows(accepted[b - 1], accepted[b]);
    }
  }

  /** No equivocation within an epoch, under every interleaving: an epoch accepts each index once. */
  lemma OnePerIndex(actions: seq<Action>, i: nat, j: nat)
    requires i < j < |Run(STARTED, actions).accepted|
    requires Run(STARTED, actions).accepted[i].epoch == Run(STARTED, actions).accepted[j].epoch
    ensures Run(STARTED, actions).accepted[i].p.index + (j - i) == Run(STARTED, actions).accepted[j].p.index
  {
    RunKeepsSound(actions);
    ConsecutiveInEpoch(Run(STARTED, actions).accepted, i, j);
  }

  lemma {:induction false} ConsecutiveInEpoch(accepted: seq<Acceptance>, i: nat, j: nat)
    requires i < j < |accepted| && accepted[i].epoch == accepted[j].epoch
    requires forall k | 0 < k < |accepted| :: Follows(accepted[k - 1], accepted[k])
    requires WellSequenced(Payloads(accepted))
    ensures accepted[j].p.index == accepted[i].p.index + (j - i)
    decreases j
  {
    EpochsOrdered(accepted, i, j - 1);
    assert Follows(accepted[j - 1], accepted[j]);
    assert Continues(Payloads(accepted), j);
    if i == j - 1 {
    } else {
      ConsecutiveInEpoch(accepted, i, j - 1);
    }
  }

  lemma {:induction false} EpochsOrdered(accepted: seq<Acceptance>, i: nat, j: nat)
    requires i <= j < |accepted|
    requires forall k | 0 < k < |accepted| :: Follows(accepted[k - 1], accepted[k])
    ensures accepted[i].epoch <= accepted[j].epoch
    decreases j
  {
    if i == j {
    } else {
      EpochsOrdered(accepted, i, j - 1);
      assert Follows(accepted[j - 1], accepted[j]);
    }
  }

  // ---- Atomic handlers are a special case ----

  /** The locks a handler takes, in order, when nothing interleaves with it. */
  function Actions(step: Atomic.Step): seq<Action> {
    match step
    case Event(p) => [Receive(p), Extend, Publish]
    case FcuSent(computed) => if computed.Some? then [WriteId(computed.value), ReplaceBuilder] else []
    case FcuReplied(reply) =>
      if reply.Some? then [ReadReply(reply.value), WriteReply(reply.value), ReplaceBuilder] else []
    case GetPayload(id) => [CheckId(0, id), Take(0)]
  }

  /** The same state, with no task under way. */
  ghost predicate Same(a: Atomic.Service, s: Shared) {
    && a.current == s.current && a.assembly == s.assembly && a.published == s.published
    && s.task.Idle? && s.replies == multiset{} && s.replacing == 0 && s.fetches == map[]
  }

  lemma RunShort(s: Shared, actions: seq<Action>)
    ensures |actions| == 2 ==> Run(s, actions) == Act(Act(s, actions[0]), actions[1])
    ensures |actions| == 3 ==> Run(s, actions) == Act(Act(Act(s, actions[0]), actions[1]), actions[2])
  {
    if |actions| == 2 {
      assert Run(s, actions[..1]) == Act(s, actions[0]);
    } else if |actions| == 3 {
      assert actions[..2][..1] == [actions[0]];
      assert Run(s, actions[..2][..1]) == Act(s, actions[0]);
    }
  }

  lemma EventUninterrupted(a: Atomic.Service, s: Shared, p: Flashblock)
    requires Same(a, s)
    ensures Same(a.Accept(p), Act(Act(Act(s, Receive(p)), Extend), Publish))
  {
  }

  lemma UpdateUninterrupted(a: Atomic.Service, s: Shared, id: PayloadId)
    requires Same(a, s)
    ensures Same(a.SetId(id), Act(Act(s, WriteId(id)), ReplaceBuilder))
  {
  }

  lemma ReplyUninterrupted(a: Atomic.Service, s: Shared, id: PayloadId)
    requires Same(a, s)
    ensures Same(a.Replied(Some(id)), Act(Act(Act(s, ReadReply(id)), WriteReply(id)), ReplaceBuilder))
  {
  }

  lemma FetchUninterrupted(a: Atomic.Service, s: Shared, id: PayloadId)
    requires Same(a, s)
    ensures Same(a.Consumed(id), Act(Act(s, CheckId(0, id)), Take(0)))
  {
    assert s.current == Some(id) ==> s.fetches[0 := id] - {0} == map[];
  }

  /** Running a handler's lock steps back to back is the handler's atomic step. */
  lemma AtomicIsUninterrupted(a: Atomic.Service, s: Shared, step: Atomic.Step)
    requires Same(a, s)
    ensures Same(Atomic.Apply(a, step), Run(s, Actions(step)))
  {
    RunShort(s, Actions(step));
    match step
    case Event(p) => EventUninterrupted(a, s, p);
    case FcuSent(computed) => if computed.Some? { UpdateUninterrupted(a, s, computed.value); }
    case FcuReplied(reply) => if reply.Some? { ReplyUninterrupted(a, s, reply.value); }
    case GetPayload(id) => FetchUninterrupted(a, s, id);
  }

  lemma {:induction false} RunAppend(s: Shared, a: seq<Action>, b: seq<Action>)
    ensures Run(s, a + b) == Run(Run(s, a), b)
    decreases |b|
  {
    if b == [] {
      assert a + b == a;
    } else {
      assert (a + b)[..|a + b| - 1] == a + b[..|b| - 1];
      RunAppend(s, a, b[..|b| - 1]);
    }
  }

  /** Every run of atomic handlers is one of the interleavings. */
  lemma {:induction false} AtomicRunsIncluded(steps: seq<Atomic.Step>) returns (actions: seq<Action>)
    ensures Same(Atomic.RunSteps(Atomic.STARTED, steps), Run(STARTED, actions))
    decreases |steps|
  {
    if steps == [] {
      actions := [];
    } else {
      var before := AtomicRunsIncluded(steps[..|steps| - 1]);
      var a, step := Atomic.RunSteps(Atomic.STARTED, steps[..|steps| - 1]), steps[|steps| - 1];
      AtomicIsUninterrupted(a, Run(STARTED, before), step);
      RunAppend(STARTED, before, Actions(step));
      actions := before + Actions(step);
    }
  }
}
