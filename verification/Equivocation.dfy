/** When the service publishes two flashblocks for the same index of one payload. specs/flashblocks.md rules
    out two distinct ones ("no equivocation"); this module says exactly which runs break that rule. */
module Equivocation {
  import opened Wrappers
  import opened Payload
  import opened FlashblockBuilder
  import opened FlashblocksService

  ghost predicate SameSlot(p: Flashblock, q: Flashblock) {
    p.payloadId == q.payloadId && p.index == q.index
  }

  /** Some index of some payload was published twice. */
  ghost predicate Republishes(published: seq<Flashblock>) {
    exists i, j :: 0 <= i < j < |published| && SameSlot(published[i], published[j])
  }

  /** Some index of some payload was published with two different contents. */
  ghost predicate Equivocates(published: seq<Flashblock>) {
    exists i, j :: 0 <= i < j < |published| && SameSlot(published[i], published[j]) && published[i] != published[j]
  }

  // ---- The guards, step by step ----

  ghost function Before(steps: seq<Step>, k: nat): Service
    requires k <= |steps|
  {
    RunSteps(STARTED, steps[..k])
  }

  /** The id that the step opens a new epoch for, if it opens one: getPayload of the current payload, an
      update that starts a payload, or a reply that names another payload than the current one. */
  function OpensFor(s: Service, step: Step): Option<PayloadId> {
    match step
    case Event(_) => None
    case FcuSent(computed) => computed
    case FcuReplied(reply) => if reply != s.current then reply else None
    case GetPayload(id) => if s.current == Some(id) then Some(id) else None
  }

  ghost predicate Opens(steps: seq<Step>, o: nat)
    requires o < |steps|
  {
    OpensFor(Before(steps, o), steps[o]).Some?
  }

  ghost predicate HasPublished(s: Service, id: PayloadId) {
    exists i :: 0 <= i < |s.published| && s.published[i].payloadId == id
  }

  /** Step o opens an epoch for a payload that already has published flashblocks. */
  ghost predicate Reopens(steps: seq<Step>, o: nat)
    requires o < |steps|
  {
    Opens(steps, o) && HasPublished(Before(steps, o), OpensFor(Before(steps, o), steps[o]).value)
  }

  /** Step k is a flashblock of the current payload that comes next in the sequence. */
  ghost predicate Accepts(steps: seq<Step>, k: nat)
    requires k < |steps|
  {
    steps[k].Event? &&
    var s, p := Before(steps, k), steps[k].p;
    && s.current == Some(p.payloadId)
    && p.index == |s.assembly.deltas| && (p.base.Some? <==> p.index == 0)
  }

  /** Step k is a flashblock accepted in the epoch that step o reopened. */
  ghost predicate AcceptsReopened(steps: seq<Step>, o: nat, k: nat)
    requires o < k < |steps|
  {
    && Reopens(steps, o)
    && (forall j | o < j < k :: !Opens(steps, j))
    && Accepts(steps, k)
  }

  /** What was published before step o has the slot of p with other contents. */
  ghost predicate Contradicts(steps: seq<Step>, o: nat, p: Flashblock)
    requires o <= |steps|
  {
    var s := Before(steps, o);
    exists i :: 0 <= i < |s.published| && SameSlot(s.published[i], p) && s.published[i] != p
  }

  // ---- From positions in the stream to steps of the run ----

  lemma AcceptsIff(steps: seq<Step>, k: nat)
    requires k < |steps|
    ensures var s, t := Before(steps, k), Before(steps, k + 1);
            if Accepts(steps, k) then t.published == s.published + [steps[k].p] && t.resetAt == s.resetAt
            else t.published == s.published
    ensures !Opens(steps, k) ==> var s, t := Before(steps, k), Before(steps, k + 1);
              t.current == s.current && t.resetAt == s.resetAt
  {
    RunKeepsConsistent(STARTED, steps[..k]);
    assert steps[..k + 1][..k] == steps[..k];
    if steps[k].Event? && Before(steps, k).current == Some(steps[k].p.payloadId) {
      AcceptExtendsEpoch(Before(steps, k), steps[k].p.payloadId, steps[k].p);
    }
  }

  /** The step that published position j of the stream. */
  lemma {:induction false} WhenPublished(steps: seq<Step>, n: nat, j: nat) returns (k: nat)
    requires n <= |steps| && j < |Before(steps, n).published|
    ensures k < n && Accepts(steps, k)
    ensures Before(steps, k).published == Before(steps, n).published[..j]
    ensures steps[k].p == Before(steps, n).published[j]
    decreases n
  {
    assert steps[..0] == [];
    AcceptsIff(steps, n - 1);
    if j < |Before(steps, n - 1).published| {
      k := WhenPublished(steps, n - 1, j);
    } else {
      k := n - 1;
    }
  }

  /** The step that opened the current epoch: everything before the epoch was published before it. */
  lemma {:induction false} WhenOpened(steps: seq<Step>, n: nat) returns (o: nat)
    requires n <= |steps| && Before(steps, n).current.Some?
    ensures o < n && OpensFor(Before(steps, o), steps[o]) == Before(steps, n).current
    ensures forall j | o < j < n :: !Opens(steps, j)
    ensures var s := Before(steps, n);
            s.resetAt <= |s.published| && Before(steps, o).published == s.published[..s.resetAt]
    decreases n
  {
    assert steps[..0] == [];
    RunKeepsConsistent(STARTED, steps[..n - 1]);
    assert steps[..n][..n - 1] == steps[..n - 1];
    if Opens(steps, n - 1) {
      o := n - 1;
    } else {
      o := WhenOpened(steps, n - 1);
      AcceptsIff(steps, n - 1);
    }
  }

  /** Every published flashblock comes after, or is, an index 0 of its payload. */
  lemma {:induction false} Anchor(steps: seq<Step>, n: nat, j: nat) returns (a: nat)
    requires n <= |steps| && j < |Before(steps, n).published|
    ensures a <= j
    ensures var ps := Before(steps, n).published; ps[a].index == 0 && ps[a].payloadId == ps[j].payloadId
  {
    var k := WhenPublished(steps, n, j);
    var s := Before(steps, k);
    RunKeepsConsistent(STARTED, steps[..k]);
    if s.Epoch() == [] {
      a := j;
    } else {
      a := s.resetAt;
      assert s.Epoch()[0] == s.published[a];
    }
  }

  lemma {:induction false} StreamGrows(steps: seq<Step>, k: nat, n: nat)
    requires k <= n <= |steps|
    ensures Before(steps, k).published <= Before(steps, n).published
    decreases n
  {
    if k == n {
    } else {
      StreamGrows(steps, k, n - 1);
      AcceptsIff(steps, n - 1);
    }
  }

  /** The indices of the current epoch are those the assembly already has. */
  lemma EpochIndices(s: Service)
    requires Consistent(s)
    ensures forall i | s.resetAt <= i < |s.published| :: s.published[i].index < |s.assembly.deltas|
  {
    forall i | s.resetAt <= i < |s.published|
      ensures s.published[i].index < |s.assembly.deltas|
    {
      assert s.Epoch()[i - s.resetAt] == s.published[i];
    }
  }

  /** The two positions of a slot published twice: the later one was accepted in a reopened epoch, and the
      earlier one had been published before that epoch was opened. */
  lemma RepeatIsReopened(steps: seq<Step>, i: nat, j: nat) returns (o: nat, k: nat)
    requires i < j < |Before(steps, |steps|).published|
    requires SameSlot(Before(steps, |steps|).published[i], Before(steps, |steps|).published[j])
    ensures o < k < |steps| && AcceptsReopened(steps, o, k)
    ensures var ps := Before(steps, |steps|).published;
            i < |Before(steps, o).published| && Before(steps, o).published[i] == ps[i] && steps[k].p == ps[j]
  {
    var ps := Before(steps, |steps|).published;
    k := WhenPublished(steps, |steps|, j);
    o := WhenOpened(steps, k);
    var s := Before(steps, k);
    RunKeepsConsistent(STARTED, steps[..k]);
    EpochIndices(s);
    assert i < s.resetAt;
    assert Before(steps, o).published[i] == ps[i];
  }

  /** Exactly when an index of a payload is published twice: an epoch is opened for a payload that already
      has published flashblocks, and a flashblock is accepted in it. */
  lemma RepublishesIff(steps: seq<Step>)
    ensures Republishes(RunSteps(STARTED, steps).published)
       <==> exists o, k :: 0 <= o < k < |steps| && AcceptsReopened(steps, o, k)
  {
    var n := |steps|;
    assert steps[..n] == steps;
    var ps := Before(steps, n).published;
    if Republishes(ps) {
      var i, j :| 0 <= i < j < |ps| && SameSlot(ps[i], ps[j]);
      var o, k := RepeatIsReopened(steps, i, j);
    }
    if o, k :| 0 <= o < k < n && AcceptsReopened(steps, o, k) {
      ReopenedRepeats(steps, o, k);
    }
  }

  /** In a run with no other opening between o and k, the epoch at k is the one o opened. */
  lemma {:induction false} StillOpen(steps: seq<Step>, o: nat, k: nat)
    requires o < k <= |steps| && Opens(steps, o) && forall j | o < j < k :: !Opens(steps, j)
    ensures Before(steps, k).current == OpensFor(Before(steps, o), steps[o])
    ensures Before(steps, k).resetAt == |Before(steps, o).published|
    decreases k
  {
    assert steps[..k][..k - 1] == steps[..k - 1];
    if o == k - 1 {
    } else {
      StillOpen(steps, o, k - 1);
      AcceptsIff(steps, k - 1);
    }
  }

  lemma ReopenedRepeats(steps: seq<Step>, o: nat, k: nat)
    requires o < k < |steps| && AcceptsReopened(steps, o, k)
    ensures Republishes(Before(steps, |steps|).published)
  {
    var id := steps[k].p.payloadId;
    StillOpen(steps, o, k);
    StreamGrows(steps, o, k + 1);
    StreamGrows(steps, k + 1, |steps|);
    AcceptsIff(steps, k);
    RunKeepsConsistent(STARTED, steps[..k]);
    var earlier :| 0 <= earlier < |Before(steps, o).published| && Before(steps, o).published[earlier].payloadId == id;
    var a := Anchor(steps, o, earlier);
    var ps, b := Before(steps, |steps|).published, Before(steps, k).resetAt;
    assert ps[a] == Before(steps, o).published[a];
    assert ps[b].index == 0 && ps[b].payloadId == id by {
      assert ps[b] == Before(steps, k + 1).published[b];
      if Before(steps, k).Epoch() != [] {
        assert Before(steps, k).Epoch()[0] == ps[b];
      }
    }
    assert SameSlot(ps[a], ps[b]);
  }

  lemma ContradictionEquivocates(steps: seq<Step>, o: nat, k: nat)
    requires o < k < |steps| && Accepts(steps, k) && Contradicts(steps, o, steps[k].p)
    ensures Equivocates(Before(steps, |steps|).published)
  {
    var s, p, ps := Before(steps, o), steps[k].p, Before(steps, |steps|).published;
    var i :| 0 <= i < |s.published| && SameSlot(s.published[i], p) && s.published[i] != p;
    StreamGrows(steps, o, k);
    StreamGrows(steps, k + 1, |steps|);
    AcceptsIff(steps, k);
    assert ps[i] == s.published[i] && ps[|Before(steps, k).published|] == p;
  }

  /** Exactly when the service equivocates: a flashblock accepted in a reopened epoch contradicts one that
      was published for its index before the epoch was opened. In particular a run that never reopens a
      payload does not equivocate. */
  lemma EquivocatesIff(steps: seq<Step>)
    ensures Equivocates(RunSteps(STARTED, steps).published)
       <==> exists o, k :: 0 <= o < k < |steps| && AcceptsReopened(steps, o, k) && Contradicts(steps, o, steps[k].p)
  {
    var n := |steps|;
    assert steps[..n] == steps;
    var ps := Before(steps, n).published;
    if Equivocates(ps) {
      var i, j :| 0 <= i < j < |ps| && SameSlot(ps[i], ps[j]) && ps[i] != ps[j];
      var o, k := RepeatIsReopened(steps, i, j);
      assert Contradicts(steps, o, steps[k].p);
    }
    if o, k :| 0 <= o < k < n && AcceptsReopened(steps, o, k) && Contradicts(steps, o, steps[k].p) {
      ContradictionEquivocates(steps, o, k);
    }
  }

  // ---- The ways to reopen a payload ----

  /** Serving a payload resets the builder but keeps the id. */
  lemma EquivocationAfterGetPayload(first: Flashblock, second: Flashblock)
    requires first.index == 0 && first.base.Some?
    requires second.index == 0 && second.base.Some?
    requires first.payloadId == second.payloadId && first != second
    ensures var id := first.payloadId;
            var steps := [FcuSent(Some(id)), Event(first), GetPayload(id), Event(second)];
            RunSteps(STARTED, steps).published == [first, second] && Equivocates([first, second])
  {
    var id := first.payloadId;
    var steps := [FcuSent(Some(id)), Event(first), GetPayload(id), Event(second)];
    ThreeStepsIn(steps);
    assert SameSlot([first, second][0], [first, second][1]);
  }

  /** So does the same fork-choice update sent again. */
  lemma EquivocationAfterSameUpdate(first: Flashblock, second: Flashblock)
    requires first.index == 0 && first.base.Some?
    requires second.index == 0 && second.base.Some?
    requires first.payloadId == second.payloadId && first != second
    ensures var id := first.payloadId;
            var steps := [FcuSent(Some(id)), Event(first), FcuSent(Some(id)), Event(second)];
            RunSteps(STARTED, steps).published == [first, second] && Equivocates([first, second])
  {
    var id := first.payloadId;
    var steps := [FcuSent(Some(id)), Event(first), FcuSent(Some(id)), Event(second)];
    ThreeStepsIn(steps);
    assert SameSlot([first, second][0], [first, second][1]);
  }

  lemma ThreeStepsIn(steps: seq<Step>)
    requires |steps| == 4
    ensures RunSteps(STARTED, steps[..3]) == Apply(Apply(Apply(STARTED, steps[0]), steps[1]), steps[2])
  {
    assert steps[..3][..2] == steps[..2] && steps[..2][..1] == steps[..1] && steps[..1][..0] == [];
    assert RunSteps(STARTED, steps[..1]) == Apply(STARTED, steps[0]);
    assert RunSteps(STARTED, steps[..2]) == Apply(Apply(STARTED, steps[0]), steps[1]);
  }
}
