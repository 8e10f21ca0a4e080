/** What a getPayload request takes when the service's lock steps interleave freely: always the whole of
    one epoch, and the block of the requested payload except in three races, all of which are named. */
module FlashblocksRaces {
  import opened Wrappers
  import opened Payload
  import opened FlashblockBuilder
  import opened FlashblocksInterleaving

  // ---- A taken block is one epoch ----

  /** The flashblocks accepted in an epoch, in order. */
  ghost function InEpoch(accepted: seq<Acceptance>, epoch: nat): seq<Flashblock>
    decreases |accepted|
  {
    if accepted == [] then []
    else
      var n := |accepted| - 1;
      InEpoch(accepted[..n], epoch) + if accepted[n].epoch == epoch then [accepted[n].p] else []
  }

  /** The flashblocks of the block under construction. */
  ghost function Block(s: Shared): seq<Flashblock> {
    InEpoch(s.accepted, s.epoch)
  }

  ghost predicate NoneSince(accepted: seq<Acceptance>, epoch: nat) {
    forall k | 0 <= k < |accepted| :: accepted[k].epoch < epoch
  }

  /** Every epoch is a valid run of flashblocks, and none comes after the given one. */
  ghost predicate EpochsValid(accepted: seq<Acceptance>, epoch: nat) {
    NoneSince(accepted, epoch + 1) && forall e :: Valid(InEpoch(accepted, e))
  }

  /** Every taken block is the whole of an epoch that is over, and no epoch was taken twice. */
  ghost predicate TakenWhole(accepted: seq<Acceptance>, taken: seq<Taking>, epoch: nat) {
    && (forall k | 0 <= k < |taken| ::
          taken[k].epoch < epoch && taken[k].block == Assembled(InEpoch(accepted, taken[k].epoch)))
    && (forall i, j | 0 <= i < j < |taken| :: taken[i].epoch < taken[j].epoch)
  }

  /** What every step keeps; the builder holds the current epoch. */
  ghost predicate ByEpoch(s: Shared) {
    && EpochsValid(s.accepted, s.epoch)
    && s.assembly == Assembled(Block(s))
    && TakenWhole(s.accepted, s.taken, s.epoch)
  }

  lemma {:induction false} NothingYet(accepted: seq<Acceptance>, epoch: nat)
    requires NoneSince(accepted, epoch)
    ensures InEpoch(accepted, epoch) == []
    decreases |accepted|
  {
    if accepted == [] {
    } else {
      NothingYet(accepted[..|accepted| - 1], epoch);
    }
  }

  lemma InEpochAppend(accepted: seq<Acceptance>, x: Acceptance, epoch: nat)
    ensures InEpoch(accepted + [x], epoch) == InEpoch(accepted, epoch) + if x.epoch == epoch then [x.p] else []
  {
    assert (accepted + [x])[..|accepted|] == accepted;
  }

  lemma ExtendValid(accepted: seq<Acceptance>, x: Acceptance)
    requires EpochsValid(accepted, x.epoch) && Valid(InEpoch(accepted, x.epoch) + [x.p])
    ensures EpochsValid(accepted + [x], x.epoch)
  {
    forall e: nat
      ensures Valid(InEpoch(accepted + [x], e))
    {
      InEpochAppend(accepted, x, e);
      assert Valid(InEpoch(accepted, e));
    }
  }

  lemma ExtendTaken(accepted: seq<Acceptance>, taken: seq<Taking>, x: Acceptance)
    requires TakenWhole(accepted, taken, x.epoch)
    ensures TakenWhole(accepted + [x], taken, x.epoch)
  {
    forall k | 0 <= k < |taken|
      ensures taken[k].block == Assembled(InEpoch(accepted + [x], taken[k].epoch))
    {
      InEpochAppend(accepted, x, taken[k].epoch);
    }
  }

  lemma ExtendByEpoch(s: Shared)
    requires ByEpoch(s) && s.task.Checked? && Extended(s.assembly, s.task.p).Ok?
    ensures ByEpoch(Act(s, Extend)) && Block(Act(s, Extend)) == Block(s) + [s.task.p]
  {
    var x := Acceptance(s.epoch, s.task.p, Act(s, Extend).assembly);
    assert Valid(Block(s));
    ExtendAssembled(Block(s), s.task.p);
    InEpochAppend(s.accepted, x, s.epoch);
    ExtendValid(s.accepted, x);
    ExtendTaken(s.accepted, s.taken, x);
  }

  /** The step empties the builder. */
  predicate Resets(s: Shared, a: Action) {
    (a.ReplaceBuilder? && s.replacing > 0) || (a.Take? && a.fetch in s.fetches)
  }

  /** The step accepts the checked message. */
  predicate Joins(s: Shared, a: Action) {
    a.Extend? && s.task.Checked? && Extended(s.assembly, s.task.p).Ok?
  }

  lemma ResetByEpoch(s: Shared, t: Shared)
    requires ByEpoch(s) && t.accepted == s.accepted && t.epoch == s.epoch + 1 && t.assembly == EMPTY
    requires TakenWhole(t.accepted, t.taken, t.epoch)
    ensures ByEpoch(t) && Block(t) == []
  {
    NothingYet(s.accepted, s.epoch + 1);
  }

  lemma ResetTaken(accepted: seq<Acceptance>, taken: seq<Taking>, epoch: nat, id: PayloadId)
    requires TakenWhole(accepted, taken, epoch)
    ensures TakenWhole(accepted, taken, epoch + 1)
    ensures TakenWhole(accepted, taken + [Taking(id, epoch, Assembled(InEpoch(accepted, epoch)))], epoch + 1)
  {
  }

  lemma OtherKeeps(s: Shared, a: Action)
    requires !Joins(s, a) && !Resets(s, a)
    ensures var t := Act(s, a);
            t.accepted == s.accepted && t.epoch == s.epoch && t.assembly == s.assembly && t.taken == s.taken
  {
  }

  lemma ActByEpoch(s: Shared, a: Action)
    requires ByEpoch(s)
    ensures ByEpoch(Act(s, a))
    ensures Block(Act(s, a)) == if Resets(s, a) then [] else if Joins(s, a) then Block(s) + [s.task.p] else Block(s)
  {
    if Joins(s, a) {
      ExtendByEpoch(s);
    } else if Resets(s, a) {
      ResetTaken(s.accepted, s.taken, s.epoch, if a.Take? then s.fetches[a.fetch] else 0);
      ResetByEpoch(s, Act(s, a));
    } else {
      OtherKeeps(s, a);
    }
  }

  lemma {:induction false} RunByEpoch(actions: seq<Action>)
    ensures ByEpoch(Run(STARTED, actions))
    decreases |actions|
  {
    if actions == [] {
    } else {
      RunByEpoch(actions[..|actions| - 1]);
      ActByEpoch(Run(STARTED, actions[..|actions| - 1]), actions[|actions| - 1]);
    }
  }

  /** Under every interleaving the k-th block taken is exactly everything accepted in one epoch, and no
      other request took from that epoch. Its envelope is the block those flashblocks describe; the only
      error is MissingPayload, for an epoch that accepted nothing: MissingDelta cannot occur. */
  lemma TakenBlockIsEpoch(actions: seq<Action>, k: nat, version: Version)
    requires k < |Run(STARTED, actions).taken|
    ensures var s := Run(STARTED, actions);
            var t := s.taken[k];
            var ps, r := InEpoch(s.accepted, t.epoch), BuildEnvelope(t.block, version);
            && Valid(ps) && t.block == Assembled(ps)
            && (if ps == [] then r == Err(MissingPayload) else r.Ok? && Describes(r.value, ps))
            && forall i | 0 <= i < |s.taken| && i != k :: s.taken[i].epoch != t.epoch
  {
    RunByEpoch(actions);
    var s := Run(STARTED, actions);
    BuildEnvelopeDescribes(InEpoch(s.accepted, s.taken[k].epoch), version);
  }

  // ---- The history of a block ----

  /** The states of a run, one more than there are actions. */
  ghost predicate IsRun(st: seq<Shared>, actions: seq<Action>) {
    |st| == |actions| + 1 && st[0] == STARTED && forall k | 0 <= k < |actions| :: Stepped(st, actions, k)
  }

  ghost predicate Stepped(st: seq<Shared>, actions: seq<Action>, k: nat)
    requires k < |actions| == |st| - 1
  {
    st[k + 1] == Act(st[k], actions[k])
  }

  /** The run that a sequence of actions makes. */
  ghost function States(actions: seq<Action>): seq<Shared> {
    seq(|actions| + 1, k requires 0 <= k <= |actions| => Run(STARTED, actions[..k]))
  }

  lemma OneMore(actions: seq<Action>, k: nat)
    requires k < |actions|
    ensures Run(STARTED, actions[..k + 1]) == Act(Run(STARTED, actions[..k]), actions[k])
  {
    assert actions[..k + 1][..k] == actions[..k];
  }

  lemma StatesAreRun(actions: seq<Action>)
    ensures IsRun(States(actions), actions) && States(actions)[|actions|] == Run(STARTED, actions)
  {
    var st := States(actions);
    forall k | 0 <= k < |actions|
      ensures Stepped(st, actions, k)
    {
      OneMore(actions, k);
    }
    assert actions[..0] == [] && actions[..|actions|] == actions;
  }

  lemma {:induction false} AlwaysByEpoch(st: seq<Shared>, actions: seq<Action>, n: nat)
    requires IsRun(st, actions) && n <= |actions|
    ensures ByEpoch(st[n])
    decreases n
  {
    if n == 0 {
    } else {
      AlwaysByEpoch(st, actions, n - 1);
      assert Stepped(st, actions, n - 1);
      ActByEpoch(st[n - 1], actions[n - 1]);
    }
  }

  /** A message is let in by the id check. */
  predicate LetsIn(s: Shared, a: Action) {
    a.Receive? && s.task.Idle? && s.current == Some(a.p.payloadId)
  }

  /** A getPayload request is let in by the id check. */
  predicate Passes(s: Shared, a: Action, fetch: nat) {
    a.CheckId? && a.fetch == fetch && fetch !in s.fetches && s.current == Some(a.requested)
  }

  /** An update or a reply writes its id. */
  predicate WritesId(s: Shared, a: Action) {
    a.WriteId? || (a.WriteReply? && a.reply in s.replies)
  }

  function Written(a: Action): PayloadId
    requires a.WriteId? || a.WriteReply?
  {
    if a.WriteId? then a.id else a.reply
  }

  // What one step does to each part of the state.

  lemma BlockStep(st: seq<Shared>, actions: seq<Action>, k: nat)
    requires IsRun(st, actions) && k < |actions|
    ensures Block(st[k + 1]) == if Resets(st[k], actions[k]) then []
                                else if Joins(st[k], actions[k]) then Block(st[k]) + [st[k].task.p]
                                else Block(st[k])
  {
    AlwaysByEpoch(st, actions, k);
    assert Stepped(st, actions, k);
    ActByEpoch(st[k], actions[k]);
  }

  lemma TaskStep(st: seq<Shared>, actions: seq<Action>, k: nat)
    requires IsRun(st, actions) && k < |actions| && st[k + 1].task.Checked?
    ensures st[k + 1].task == st[k].task || (LetsIn(st[k], actions[k]) && st[k + 1].task == Checked(actions[k].p))
  {
    assert Stepped(st, actions, k);
  }

  lemma CurrentStep(st: seq<Shared>, actions: seq<Action>, k: nat)
    requires IsRun(st, actions) && k < |actions|
    ensures st[k + 1].current == if WritesId(st[k], actions[k]) then Some(Written(actions[k])) else st[k].current
  {
    assert Stepped(st, actions, k);
  }

  lemma ReplacingStep(st: seq<Shared>, actions: seq<Action>, k: nat)
    requires IsRun(st, actions) && k < |actions|
    ensures WritesId(st[k], actions[k]) ==> st[k + 1].replacing > 0
    ensures !Resets(st[k], actions[k]) ==> st[k + 1].replacing >= st[k].replacing
  {
    assert Stepped(st, actions, k);
  }

  lemma FetchesStep(st: seq<Shared>, actions: seq<Action>, k: nat, fetch: nat)
    requires IsRun(st, actions) && k < |actions|
    ensures var s, a, t := st[k], actions[k], st[k + 1];
            if Passes(s, a, fetch) then fetch in t.fetches && t.fetches[fetch] == a.requested
            else if a == Take(fetch) then fetch !in t.fetches
            else (fetch in t.fetches <==> fetch in s.fetches)
                 && (fetch in s.fetches ==> t.fetches[fetch] == s.fetches[fetch])
  {
    assert Stepped(st, actions, k);
  }

  lemma LogStep(st: seq<Shared>, actions: seq<Action>, k: nat)
    requires IsRun(st, actions) && k < |actions|
    ensures var s, a, t := st[k], actions[k], st[k + 1];
            && t.epoch == (if Resets(s, a) then s.epoch + 1 else s.epoch)
            && t.taken == (if a.Take? && a.fetch in s.fetches
                           then s.taken + [Taking(s.fetches[a.fetch], s.epoch, s.assembly)] else s.taken)
            && t.accepted == (if Joins(s, a) then s.accepted + [Acceptance(s.epoch, s.task.p, t.assembly)]
                              else s.accepted)
  {
    assert Stepped(st, actions, k);
  }

  // When things happened.

  /** Step i let the message in, it waited with the inbound task, and step j is the write to the builder
      that accepts it. */
  ghost predicate JoinsAt(st: seq<Shared>, actions: seq<Action>, i: nat, j: nat)
    requires i < j < |actions| == |st| - 1
  {
    && LetsIn(st[i], actions[i]) && Joins(st[j], actions[j])
    && forall k | i < k <= j :: st[k].task == Checked(actions[i].p)
  }

  /** The builder is not emptied in steps j..n. */
  ghost predicate StillBuilding(st: seq<Shared>, actions: seq<Action>, j: nat, n: nat)
    requires j <= n <= |actions| == |st| - 1
  {
    forall k | j <= k < n :: !Resets(st[k], actions[k])
  }

  /** Step c let the getPayload request pass, and it does not take its block before step n. */
  ghost predicate PassesAt(st: seq<Shared>, actions: seq<Action>, fetch: nat, c: nat, n: nat)
    requires c < n <= |actions| == |st| - 1
  {
    Passes(st[c], actions[c], fetch) && forall k | c < k < n :: actions[k] != Take(fetch)
  }

  /** No id is written in steps a..b. */
  ghost predicate NoWrite(st: seq<Shared>, actions: seq<Action>, a: nat, b: nat)
    requires a <= b <= |actions| == |st| - 1
  {
    forall k | a <= k < b :: !WritesId(st[k], actions[k])
  }

  /** Step t takes the block that becomes number k of the log. */
  ghost predicate TakesAt(st: seq<Shared>, actions: seq<Action>, k: nat, t: nat)
    requires t < |actions| == |st| - 1
  {
    actions[t].Take? && actions[t].fetch in st[t].fetches && |st[t].taken| == k
  }

  lemma {:induction false} WhenChecked(st: seq<Shared>, actions: seq<Action>, n: nat) returns (i: nat)
    requires IsRun(st, actions) && n <= |actions| && st[n].task.Checked?
    ensures i < n && LetsIn(st[i], actions[i])
    ensures forall k | i < k <= n :: st[k].task == Checked(actions[i].p)
    decreases n
  {
    TaskStep(st, actions, n - 1);
    if st[n].task == st[n - 1].task {
      i := WhenChecked(st, actions, n - 1);
    } else {
      i := n - 1;
    }
  }

  /** The blocks under construction along a run. */
  ghost function Blocks(st: seq<Shared>): seq<seq<Flashblock>> {
    seq(|st|, k requires 0 <= k < |st| => Block(st[k]))
  }

  /** How they grow: emptied by a reset, longer by an accepted message. */
  ghost predicate Grow(blocks: seq<seq<Flashblock>>, st: seq<Shared>, actions: seq<Action>) {
    && |blocks| == |st| == |actions| + 1 && blocks[0] == []
    && forall k | 0 <= k < |actions| :: GrowsAt(blocks, st, actions, k)
  }

  ghost predicate GrowsAt(blocks: seq<seq<Flashblock>>, st: seq<Shared>, actions: seq<Action>, k: nat)
    requires k < |actions| && |blocks| == |st| == |actions| + 1
  {
    blocks[k + 1] == if Resets(st[k], actions[k]) then []
                     else if Joins(st[k], actions[k]) then blocks[k] + [st[k].task.p]
                     else blocks[k]
  }

  lemma BlocksGrow(st: seq<Shared>, actions: seq<Action>)
    requires IsRun(st, actions)
    ensures Grow(Blocks(st), st, actions)
  {
    forall k | 0 <= k < |actions|
      ensures GrowsAt(Blocks(st), st, actions, k)
    {
      BlockStep(st, actions, k);
    }
  }

  lemma {:induction false} WhenJoined(blocks: seq<seq<Flashblock>>, st: seq<Shared>, actions: seq<Action>, n: nat,
                                      p: Flashblock) returns (i: nat, j: nat)
    requires IsRun(st, actions) && Grow(blocks, st, actions) && n <= |actions| && p in blocks[n]
    ensures i < j < n && JoinsAt(st, actions, i, j) && actions[i].p == p && StillBuilding(st, actions, j, n)
    decreases n
  {
    assert GrowsAt(blocks, st, actions, n - 1);
    if p in blocks[n - 1] {
      i, j := WhenJoined(blocks, st, actions, n - 1, p);
    } else {
      i := WhenChecked(st, actions, n - 1);
      j := n - 1;
    }
  }

  lemma {:induction false} StaysJoined(blocks: seq<seq<Flashblock>>, st: seq<Shared>, actions: seq<Action>, j: nat,
                                       n: nat)
    requires Grow(blocks, st, actions) && j < n <= |actions|
    requires Joins(st[j], actions[j]) && StillBuilding(st, actions, j, n)
    ensures st[j].task.p in blocks[n]
    decreases n
  {
    assert GrowsAt(blocks, st, actions, n - 1);
    if j == n - 1 {
      assert blocks[n][|blocks[j]|] == st[j].task.p;
    } else {
      StaysJoined(blocks, st, actions, j, n - 1);
    }
  }

  lemma {:induction false} WhenPassed(st: seq<Shared>, actions: seq<Action>, fetch: nat, n: nat) returns (c: nat)
    requires IsRun(st, actions) && n <= |actions| && fetch in st[n].fetches
    ensures c < n && PassesAt(st, actions, fetch, c, n) && actions[c].requested == st[n].fetches[fetch]
    decreases n
  {
    FetchesStep(st, actions, n - 1, fetch);
    if Passes(st[n - 1], actions[n - 1], fetch) {
      c := n - 1;
    } else {
      c := WhenPassed(st, actions, fetch, n - 1);
    }
  }

  lemma {:induction false} PassedFor(st: seq<Shared>, actions: seq<Action>, fetch: nat, c: nat, n: nat)
    requires IsRun(st, actions) && c < n <= |actions| && PassesAt(st, actions, fetch, c, n)
    ensures fetch in st[n].fetches && st[n].fetches[fetch] == actions[c].requested
    decreases n
  {
    FetchesStep(st, actions, n - 1, fetch);
    if c == n - 1 {
    } else {
      PassedFor(st, actions, fetch, c, n - 1);
    }
  }

  lemma {:induction false} KeepsId(st: seq<Shared>, actions: seq<Action>, a: nat, b: nat)
    requires IsRun(st, actions) && a <= b <= |actions| && NoWrite(st, actions, a, b)
    ensures st[b].current == st[a].current
    decreases b
  {
    if a == b {
    } else {
      KeepsId(st, actions, a, b - 1);
      CurrentStep(st, actions, b - 1);
    }
  }

  /** Where the current id differs, the last id write in between made it so. */
  lemma {:induction false} LastWrite(st: seq<Shared>, actions: seq<Action>, a: nat, b: nat) returns (w: nat)
    requires IsRun(st, actions) && a <= b <= |actions| && st[a].current != st[b].current
    ensures a <= w < b && WritesId(st[w], actions[w]) && NoWrite(st, actions, w + 1, b)
    ensures st[b].current == Some(Written(actions[w]))
    decreases b
  {
    CurrentStep(st, actions, b - 1);
    if WritesId(st[b - 1], actions[b - 1]) {
      w := b - 1;
    } else {
      w := LastWrite(st, actions, a, b - 1);
    }
  }

  lemma {:induction false} StaysPending(st: seq<Shared>, actions: seq<Action>, a: nat, b: nat)
    requires IsRun(st, actions) && a <= b <= |actions| && st[a].replacing > 0 && StillBuilding(st, actions, a, b)
    ensures st[b].replacing > 0
    decreases b
  {
    if a == b {
    } else {
      StaysPending(st, actions, a, b - 1);
      ReplacingStep(st, actions, b - 1);
    }
  }

  /** The step that took block k, and that it took the whole epoch. */
  lemma {:induction false} WhenTaken(st: seq<Shared>, actions: seq<Action>, k: nat, n: nat) returns (t: nat)
    requires IsRun(st, actions) && n <= |actions| && k < |st[n].taken|
    ensures t < n && TakesAt(st, actions, k, t)
    ensures st[n].taken[k].id == st[t].fetches[actions[t].fetch] && st[n].taken[k].epoch == st[t].epoch < st[n].epoch
    ensures InEpoch(st[n].accepted, st[t].epoch) == Block(st[t])
    decreases n
  {
    LogStep(st, actions, n - 1);
    if k < |st[n - 1].taken| {
      t := WhenTaken(st, actions, k, n - 1);
      if Joins(st[n - 1], actions[n - 1]) {
        InEpochAppend(st[n - 1].accepted, st[n].accepted[|st[n].accepted| - 1], st[t].epoch);
      }
    } else {
      t := n - 1;
    }
  }

  // ---- The three races ----

  /** An id is written while the request is past its check, and the message is let in under it. */
  ghost predicate RequestOvertaken(st: seq<Shared>, actions: seq<Action>, c: nat, i: nat, w: nat)
    requires c < |actions| && i < |actions| == |st| - 1 && actions[c].CheckId?
  {
    && c < w < i && WritesId(st[w], actions[w]) && actions[c].fetch in st[w].fetches
    && NoWrite(st, actions, w + 1, i) && Written(actions[w]) != actions[c].requested
  }

  /** An id is written while the message is past its check and not yet in the builder, and the request
      passes under it. */
  ghost predicate MessageOvertaken(st: seq<Shared>, actions: seq<Action>, c: nat, i: nat, j: nat, w: nat)
    requires c < |actions| && i < j < |actions| == |st| - 1 && actions[i].Receive?
  {
    && i < w < j && w < c && WritesId(st[w], actions[w]) && st[w].task.Checked?
    && NoWrite(st, actions, w + 1, c) && Written(actions[w]) != actions[i].p.payloadId
  }

  /** An id is written after the message joined, and the request passes under it while the builder is still
      to be replaced. */
  ghost predicate ReplacementPending(st: seq<Shared>, actions: seq<Action>, c: nat, i: nat, j: nat, w: nat)
    requires c < |actions| && i < j < |actions| == |st| - 1 && actions[i].Receive?
  {
    && j < w < c && WritesId(st[w], actions[w]) && st[c].replacing > 0
    && NoWrite(st, actions, w + 1, c) && Written(actions[w]) != actions[i].p.payloadId
  }

  /** The request that takes its block at step t passed its check at c, a message of that block was let in
      at i and written at j, and the id write at w raced with them. */
  ghost predicate RaceAt(st: seq<Shared>, actions: seq<Action>, t: nat, c: nat, i: nat, j: nat, w: nat)
    requires t < |actions| == |st| - 1 && actions[t].Take?
  {
    && c < t && PassesAt(st, actions, actions[t].fetch, c, t)
    && i < j < t && JoinsAt(st, actions, i, j) && StillBuilding(st, actions, j, t)
    && (|| RequestOvertaken(st, actions, c, i, w)
        || MessageOvertaken(st, actions, c, i, j, w)
        || ReplacementPending(st, actions, c, i, j, w))
  }

  /** The block has a flashblock of another payload. */
  ghost predicate HasForeign(block: seq<Flashblock>, id: PayloadId) {
    exists p :: p in block && p.payloadId != id
  }

  /** A request and a message let in under different ids met in one of the races. */
  lemma DifferentIdsRace(st: seq<Shared>, actions: seq<Action>, t: nat, c: nat, i: nat, j: nat) returns (w: nat)
    requires IsRun(st, actions) && t < |actions| && actions[t].Take?
    requires c < t && PassesAt(st, actions, actions[t].fetch, c, t)
    requires i < j < t && JoinsAt(st, actions, i, j) && StillBuilding(st, actions, j, t)
    requires actions[i].p.payloadId != actions[c].requested
    ensures RaceAt(st, actions, t, c, i, j, w)
  {
    if c < i {
      w := LastWrite(st, actions, c, i);
      PassedFor(st, actions, actions[t].fetch, c, w);
    } else {
      w := LastWrite(st, actions, i, c);
      if j < w {
        ReplacingStep(st, actions, w);
        StaysPending(st, actions, w + 1, c);
      }
    }
  }

  lemma RacedIdsDiffer(st: seq<Shared>, actions: seq<Action>, t: nat, c: nat, i: nat, j: nat, w: nat)
    requires IsRun(st, actions) && t < |actions| && actions[t].Take? && RaceAt(st, actions, t, c, i, j, w)
    ensures actions[i].p.payloadId != actions[c].requested
  {
    CurrentStep(st, actions, w);
    KeepsId(st, actions, w + 1, if c < w then i else c);
  }

  lemma WrongTakeIff(st: seq<Shared>, actions: seq<Action>, t: nat)
    requires IsRun(st, actions) && t < |actions| && actions[t].Take? && actions[t].fetch in st[t].fetches
    ensures HasForeign(Block(st[t]), st[t].fetches[actions[t].fetch])
       <==> exists c: nat, i: nat, j: nat, w: nat :: RaceAt(st, actions, t, c, i, j, w)
  {
    var fetch := actions[t].fetch;
    var blocks, block, id := Blocks(st), Block(st[t]), st[t].fetches[fetch];
    BlocksGrow(st, actions);
    if HasForeign(block, id) {
      var p :| p in block && p.payloadId != id;
      var c := WhenPassed(st, actions, fetch, t);
      var i, j := WhenJoined(blocks, st, actions, t, p);
      var w := DifferentIdsRace(st, actions, t, c, i, j);
    }
    if c: nat, i: nat, j: nat, w: nat :| RaceAt(st, actions, t, c, i, j, w) {
      RacedIdsDiffer(st, actions, t, c, i, j, w);
      PassedFor(st, actions, fetch, c, t);
      StaysJoined(blocks, st, actions, j, t);
    }
  }

  /** Exactly when, under any interleaving, block k was taken for one payload with a flashblock of another:
      an id write at some step w raced with the request and with a message of the block. It landed while
      the request was past its check, or while the message was past its check and not yet in the builder,
      or the request passed under it with the builder still to be replaced; and it was the last id write
      before the later of the two checks and wrote another id than the earlier one had seen. */
  lemma WrongBlockIff(actions: seq<Action>, k: nat) returns (t: nat)
    requires k < |Run(STARTED, actions).taken|
    ensures t < |actions| && TakesAt(States(actions), actions, k, t)
    ensures var s := Run(STARTED, actions);
            HasForeign(InEpoch(s.accepted, s.taken[k].epoch), s.taken[k].id)
            <==> exists c: nat, i: nat, j: nat, w: nat :: RaceAt(States(actions), actions, t, c, i, j, w)
  {
    var st := States(actions);
    StatesAreRun(actions);
    t := WhenTaken(st, actions, k, |actions|);
    WrongTakeIff(st, actions, t);
  }

  /** The guards alone: an id write while a message or the request is past its check, or the request's check
      passing while a replacement is to come. */
  predicate Exposes(s: Shared, a: Action, fetch: nat) {
    || (WritesId(s, a) && (s.task.Checked? || fetch in s.fetches))
    || (Passes(s, a, fetch) && s.replacing > 0)
  }

  /** So a run in which no step exposes the request takes the right block. */
  lemma WrongBlockNeedsRace(actions: seq<Action>, k: nat) returns (t: nat, g: nat)
    requires k < |Run(STARTED, actions).taken|
    requires var s := Run(STARTED, actions); HasForeign(InEpoch(s.accepted, s.taken[k].epoch), s.taken[k].id)
    ensures g < t < |actions| && TakesAt(States(actions), actions, k, t)
    ensures Exposes(States(actions)[g], actions[g], actions[t].fetch)
  {
    t := WrongBlockIff(actions, k);
    var c: nat, i: nat, j: nat, w: nat :| RaceAt(States(actions), actions, t, c, i, j, w);
    g := if ReplacementPending(States(actions), actions, c, i, j, w) then c else w;
  }

  // ---- Agreement of the current id with the block ----

  /** Unless an update is about to replace the builder, the block is of the current payload. */
  ghost predicate IdsAgree(s: Shared) {
    s.replacing == 0 ==> forall p | p in Block(s) :: s.current == Some(p.payloadId)
  }

  /** The checked message is accepted although the id has moved on and the builder is already replaced. */
  predicate Breaks(s: Shared, a: Action) {
    Joins(s, a) && s.replacing == 0 && s.current != Some(s.task.p.payloadId)
  }

  /** The only kind of step that breaks the agreement is the builder write of a message whose id check
      has been overtaken by a whole update. */
  lemma ExactlyTheseBreak(actions: seq<Action>, a: Action)
    requires IdsAgree(Run(STARTED, actions))
    ensures IdsAgree(Act(Run(STARTED, actions), a)) <==> !Breaks(Run(STARTED, actions), a)
  {
    var s := Run(STARTED, actions);
    var t := Act(s, a);
    RunByEpoch(actions);
    ActByEpoch(s, a);
    if Joins(s, a) {
      assert Block(t)[|Block(s)|] == s.task.p;
    }
  }

  // ---- A run for each race ----

  lemma FirstBlock(p: Flashblock)
    requires p.index == 0 && p.base.Some?
    ensures Extended(EMPTY, p) == Ok(Assembled([p]))
  {
    ExtendAssembled([], p);
    assert [] + [p] == [p];
  }

  /** The service has just moved to the payload. */
  ghost function Fresh(id: PayloadId, epoch: nat): Shared {
    STARTED.(current := Some(id), epoch := epoch)
  }

  /** A whole update. */
  function Update(id: PayloadId): seq<Action> {
    [WriteId(id), ReplaceBuilder]
  }

  lemma UpdateRuns(s: Shared, id: PayloadId)
    requires s.replacing == 0
    ensures Run(s, Update(id)) == s.(current := Some(id), assembly := EMPTY, epoch := s.epoch + 1)
  {
    RunShort(s, Update(id));
  }

  lemma TwoMore(s: Shared, a: Action, b: Action)
    ensures Run(s, [a, b]) == Act(Act(s, a), b)
  {
    RunShort(s, [a, b]);
  }

  /** Between a message's id check and its builder write a whole update runs: the new payload's request is
      given the old payload's flashblock. */
  lemma StaleFlashblockTaken(p: Flashblock, id: PayloadId)
    requires p.index == 0 && p.base.Some? && p.payloadId != id
    ensures var checked := Act(Run(STARTED, Update(p.payloadId)), Receive(p));
            var accepted := Act(Run(checked, Update(id)), Extend);
            Run(accepted, [CheckId(0, id), Take(0)]).taken == [Taking(id, 2, Assembled([p]))]
  {
    FirstBlock(p);
    UpdateRuns(STARTED, p.payloadId);
    var checked := Act(Run(STARTED, Update(p.payloadId)), Receive(p));
    assert checked == Fresh(p.payloadId, 1).(task := Checked(p));
    UpdateRuns(checked, id);
    var accepted := Act(Run(checked, Update(id)), Extend);
    assert accepted.current == Some(id) && accepted.assembly == Assembled([p]) && accepted.epoch == 2;
    TwoMore(accepted, CheckId(0, id), Take(0));
  }

  /** Between a request's id check and its take a whole update runs and the new payload gets a flashblock:
      the old payload's request is given the new payload's block. */
  lemma NewBlockTakenForOld(requested: PayloadId, p: Flashblock)
    requires p.index == 0 && p.base.Some? && p.payloadId != requested
    ensures var passed := Act(Run(STARTED, Update(requested)), CheckId(0, requested));
            var accepted := Run(Run(passed, Update(p.payloadId)), [Receive(p), Extend]);
            Act(accepted, Take(0)).taken == [Taking(requested, 2, Assembled([p]))]
  {
    FirstBlock(p);
    UpdateRuns(STARTED, requested);
    var passed := Act(Run(STARTED, Update(requested)), CheckId(0, requested));
    assert passed == Fresh(requested, 1).(fetches := map[0 := requested]);
    UpdateRuns(passed, p.payloadId);
    TwoMore(Run(passed, Update(p.payloadId)), Receive(p), Extend);
    var accepted := Run(Run(passed, Update(p.payloadId)), [Receive(p), Extend]);
    assert accepted.assembly == Assembled([p]) && accepted.fetches == map[0 := requested] && accepted.epoch == 2;
  }

  /** Between an update's id write and its builder replacement a request for the new payload runs: it is
      given the old payload's block. */
  lemma OldBlockTakenForNew(p: Flashblock, id: PayloadId)
    requires p.index == 0 && p.base.Some? && p.payloadId != id
    ensures var accepted := Run(Run(STARTED, Update(p.payloadId)), [Receive(p), Extend]);
            var written := Act(accepted, WriteId(id));
            Run(written, [CheckId(0, id), Take(0)]).taken == [Taking(id, 1, Assembled([p]))]
  {
    FirstBlock(p);
    UpdateRuns(STARTED, p.payloadId);
    TwoMore(Run(STARTED, Update(p.payloadId)), Receive(p), Extend);
    var accepted := Run(Run(STARTED, Update(p.payloadId)), [Receive(p), Extend]);
    assert accepted.assembly == Assembled([p]) && accepted.epoch == 1 && accepted.fetches == map[];
    TwoMore(Act(accepted, WriteId(id)), CheckId(0, id), Take(0));
  }
}
