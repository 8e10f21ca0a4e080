/** Publishing an index of a payload twice, when the service's lock steps interleave freely: an epoch may
    then mix payloads, and a flashblock may be published after its id check has been overtaken. */
module InterleavedEquivocation {
  import opened Wrappers
  import opened Payload
  import opened FlashblockBuilder
  import opened FlashblocksInterleaving
  import opened FlashblocksRaces
  import Equivocation

  /** Two messages, checked at i1 and i2 and written to the builder at j1 and later j2, met the same guards:
      the same id was current at their checks, and the builder held equally many flashblocks at their
      writes. Both have been published. */
  ghost predicate SameGuards(st: seq<Shared>, actions: seq<Action>, i1: nat, j1: nat, i2: nat, j2: nat)
    requires |actions| == |st| - 1
  {
    && i1 < j1 < j2 && i2 < j2 < |actions| && JoinsAt(st, actions, i1, j1) && JoinsAt(st, actions, i2, j2)
    && st[i1].current == st[i2].current
    && |st[j1].assembly.deltas| == |st[j2].assembly.deltas|
    && |st[j2].accepted| < |st[|actions|].published|
  }

  /** The steps that checked and accepted position k. */
  lemma {:induction false} WhenAccepted(st: seq<Shared>, actions: seq<Action>, n: nat, k: nat) returns (i: nat, j: nat)
    requires IsRun(st, actions) && n <= |actions| && k < |st[n].accepted|
    ensures i < j < n && JoinsAt(st, actions, i, j) && |st[j].accepted| == k && st[n].accepted[k].p == actions[i].p
    decreases n
  {
    LogStep(st, actions, n - 1);
    if k < |st[n - 1].accepted| {
      i, j := WhenAccepted(st, actions, n - 1, k);
    } else {
      j := n - 1;
      i := WhenChecked(st, actions, j);
    }
  }

  lemma {:induction false} StaysAccepted(st: seq<Shared>, actions: seq<Action>, j: nat, n: nat)
    requires IsRun(st, actions) && j < n <= |actions| && Joins(st[j], actions[j])
    ensures |st[j].accepted| < |st[n].accepted| && st[n].accepted[|st[j].accepted|].p == st[j].task.p
    decreases n
  {
    LogStep(st, actions, n - 1);
    if j == n - 1 {
    } else {
      StaysAccepted(st, actions, j, n - 1);
    }
  }

  lemma {:induction false} AcceptedGrows(st: seq<Shared>, actions: seq<Action>, a: nat, b: nat)
    requires IsRun(st, actions) && a <= b <= |actions|
    ensures |st[a].accepted| <= |st[b].accepted|
    decreases b
  {
    if a == b {
    } else {
      AcceptedGrows(st, actions, a, b - 1);
      LogStep(st, actions, b - 1);
    }
  }

  lemma PublishedAt(st: seq<Shared>, actions: seq<Action>, k: nat)
    requires |st| == |actions| + 1 && Sound(st[|actions|]) && k < |st[|actions|].published|
    ensures k < |st[|actions|].accepted| && st[|actions|].published[k] == st[|actions|].accepted[k].p
  {
    PublishedStream(st[|actions|]);
  }

  /** The slot of a message is decided by its guards. */
  lemma SlotIsGuards(st: seq<Shared>, actions: seq<Action>, i: nat, j: nat)
    requires |actions| == |st| - 1 && i < j < |actions| && JoinsAt(st, actions, i, j)
    ensures st[i].current == Some(actions[i].p.payloadId) && actions[i].p.index == |st[j].assembly.deltas|
    ensures st[j].task.p == actions[i].p
  {
    assert st[j].task == Checked(actions[i].p);
  }

  lemma RepeatHasSameGuards(st: seq<Shared>, actions: seq<Action>, a: nat, b: nat)
    returns (i1: nat, j1: nat, i2: nat, j2: nat)
    requires IsRun(st, actions) && Sound(st[|actions|]) && a < b < |st[|actions|].published|
    requires var ps := st[|actions|].published; Equivocation.SameSlot(ps[a], ps[b])
    ensures SameGuards(st, actions, i1, j1, i2, j2)
    ensures actions[i1].p == st[|actions|].published[a] && actions[i2].p == st[|actions|].published[b]
  {
    var n := |actions|;
    PublishedAt(st, actions, a);
    PublishedAt(st, actions, b);
    i1, j1 := WhenAccepted(st, actions, n, a);
    i2, j2 := WhenAccepted(st, actions, n, b);
    SlotIsGuards(st, actions, i1, j1);
    SlotIsGuards(st, actions, i2, j2);
    if j2 <= j1 {
      AcceptedGrows(st, actions, j2, j1);
    }
  }

  lemma SameGuardsRepeat(st: seq<Shared>, actions: seq<Action>, i1: nat, j1: nat, i2: nat, j2: nat)
    requires IsRun(st, actions) && Sound(st[|actions|]) && SameGuards(st, actions, i1, j1, i2, j2)
    ensures var ps, a, b := st[|actions|].published, |st[j1].accepted|, |st[j2].accepted|;
            a < b < |ps| && Equivocation.SameSlot(ps[a], ps[b]) && ps[a] == actions[i1].p && ps[b] == actions[i2].p
  {
    var n := |actions|;
    StaysAccepted(st, actions, j1, j2);
    StaysAccepted(st, actions, j1, n);
    StaysAccepted(st, actions, j2, n);
    SlotIsGuards(st, actions, i1, j1);
    SlotIsGuards(st, actions, i2, j2);
    PublishedAt(st, actions, |st[j1].accepted|);
    PublishedAt(st, actions, |st[j2].accepted|);
  }

  /** Under every interleaving an index of a payload is published twice exactly when two published messages
      met the same guards: the same current id at their checks, blocks of the same length at their writes. */
  lemma RepublishesIff(actions: seq<Action>)
    ensures Equivocation.Republishes(Run(STARTED, actions).published)
       <==> exists i1: nat, j1: nat, i2: nat, j2: nat :: SameGuards(States(actions), actions, i1, j1, i2, j2)
  {
    var st, ps := States(actions), Run(STARTED, actions).published;
    StatesAreRun(actions);
    RunKeepsSound(actions);
    if Equivocation.Republishes(ps) {
      var a, b :| 0 <= a < b < |ps| && Equivocation.SameSlot(ps[a], ps[b]);
      var i1, j1, i2, j2 := RepeatHasSameGuards(st, actions, a, b);
    }
    if i1: nat, j1: nat, i2: nat, j2: nat :| SameGuards(st, actions, i1, j1, i2, j2) {
      SameGuardsRepeat(st, actions, i1, j1, i2, j2);
    }
  }

  /** And the service equivocates exactly when such messages differ. */
  lemma EquivocatesIff(actions: seq<Action>)
    ensures Equivocation.Equivocates(Run(STARTED, actions).published)
       <==> exists i1: nat, j1: nat, i2: nat, j2: nat ::
              SameGuards(States(actions), actions, i1, j1, i2, j2) && actions[i1].p != actions[i2].p
  {
    var st, ps := States(actions), Run(STARTED, actions).published;
    StatesAreRun(actions);
    RunKeepsSound(actions);
    if Equivocation.Equivocates(ps) {
      var a, b :| 0 <= a < b < |ps| && Equivocation.SameSlot(ps[a], ps[b]) && ps[a] != ps[b];
      var i1, j1, i2, j2 := RepeatHasSameGuards(st, actions, a, b);
    }
    if i1: nat, j1: nat, i2: nat, j2: nat :|
      SameGuards(st, actions, i1, j1, i2, j2) && actions[i1].p != actions[i2].p
    {
      SameGuardsRepeat(st, actions, i1, j1, i2, j2);
    }
  }

  // ---- Only across resets ----

  lemma LengthStep(st: seq<Shared>, actions: seq<Action>, k: nat)
    requires IsRun(st, actions) && k < |actions| && !Resets(st[k], actions[k])
    ensures |st[k + 1].assembly.deltas| == |st[k].assembly.deltas| + if Joins(st[k], actions[k]) then 1 else 0
  {
    assert Stepped(st, actions, k);
  }

  lemma {:induction false} Lengthens(st: seq<Shared>, actions: seq<Action>, a: nat, b: nat)
    requires IsRun(st, actions) && a <= b <= |actions| && StillBuilding(st, actions, a, b)
    ensures |st[a].assembly.deltas| <= |st[b].assembly.deltas|
    decreases b
  {
    if a == b {
    } else {
      Lengthens(st, actions, a, b - 1);
      LengthStep(st, actions, b - 1);
    }
  }

  /** The builder was emptied between the two writes: within an epoch no index comes twice. */
  lemma RepeatNeedsReset(st: seq<Shared>, actions: seq<Action>, i1: nat, j1: nat, i2: nat, j2: nat) returns (k: nat)
    requires IsRun(st, actions) && SameGuards(st, actions, i1, j1, i2, j2)
    ensures j1 < k < j2 && Resets(st[k], actions[k])
  {
    if StillBuilding(st, actions, j1 + 1, j2) {
      LengthStep(st, actions, j1);
      Lengthens(st, actions, j1 + 1, j2);
    }
    k :| j1 + 1 <= k < j2 && Resets(st[k], actions[k]);
  }
}
