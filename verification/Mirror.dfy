/** Rebuilding the block on the reader's side of the flashblock stream: start afresh at index 0,
    otherwise extend. */
module Mirror {
  import opened Wrappers
  import opened Payload
  import opened FlashblockBuilder

  function MirrorStep(a: Assembly, p: Flashblock): Result<Assembly, FlashblocksError> {
    Extended(if p.index == 0 then EMPTY else a, p)
  }

  /** Mirrors a whole stream; an error at any message is an error of the stream. */
  ghost function Mirrored(ps: seq<Flashblock>): Result<Assembly, FlashblocksError>
    decreases |ps|
  {
    if ps == [] then Ok(EMPTY)
    else
      var before := Mirrored(ps[..|ps| - 1]);
      if before.Err? then before else MirrorStep(before.value, ps[|ps| - 1])
  }

  /** Each message starts a block with a base, or continues the block of the message before it. */
  ghost predicate WellSequenced(ps: seq<Flashblock>) {
    forall k | 0 <= k < |ps| :: Continues(ps, k)
  }

  ghost predicate Continues(ps: seq<Flashblock>, k: nat)
    requires k < |ps|
  {
    if ps[k].index == 0 then ps[k].base.Some?
    else k > 0 && ps[k].index == ps[k - 1].index + 1 && ps[k].base.None?
  }

  /** Position k belongs to a block that started exactly index-many messages earlier. */
  lemma {:induction false} BlockOf(ps: seq<Flashblock>, k: nat)
    requires WellSequenced(ps) && k < |ps|
    ensures ps[k].index <= k
    ensures Valid(ps[k - ps[k].index..k + 1])
    ensures forall j | k - ps[k].index < j <= k :: ps[j].index != 0
    decreases k
  {
    assert Continues(ps, k);
    var n := ps[k].index;
    if n == 0 {
    } else {
      BlockOf(ps, k - 1);
      assert ps[k - n..k + 1] == ps[k - 1 - (n - 1)..k] + [ps[k]];
      assert ps[k - n].index == 0 by { assert ps[k - n..k][0] == ps[k - n]; }
    }
  }

  /** Mirroring a well-sequenced stream never fails, and yields the block of the last message. */
  lemma {:induction false} MirrorTracks(ps: seq<Flashblock>)
    requires WellSequenced(ps) && ps != []
    ensures var k := |ps| - 1;
            && ps[k].index <= k
            && Mirrored(ps) == Ok(Assembled(ps[k - ps[k].index..]))
    decreases |ps|
  {
    var k := |ps| - 1;
    var front, p := ps[..k], ps[k];
    BlockOf(ps, k);
    PrefixWellSequenced(ps, k);
    if front == [] {
    } else {
      MirrorTracks(front);
    }
    var block := ps[k - p.index..];
    assert block == ps[k - p.index..k + 1];
    if p.index == 0 {
      assert block == [] + [p];
      ExtendAssembled([], p);
    } else {
      assert Continues(ps, k);
      assert front[k - 1 - front[k - 1].index..] == ps[k - p.index..k];
      assert block == ps[k - p.index..k] + [p];
      assert Valid(ps[k - p.index..k]) by { BlockOf(ps, k - 1); }
      ExtendAssembled(ps[k - p.index..k], p);
    }
  }

  lemma PrefixWellSequenced(ps: seq<Flashblock>, n: nat)
    requires WellSequenced(ps) && n <= |ps|
    ensures WellSequenced(ps[..n])
  {
    forall k | 0 <= k < n
      ensures Continues(ps[..n], k)
    {
      assert Continues(ps, k);
    }
  }

  // ---- Lossy delivery ----

  /** What becomes of a published message on its way into the cache. */
  datatype Fate = Lost | Fails | Processed

  /** The cache's assembly after the stream's messages met their fates; a message that does not reach
      the cache, or fails in it, changes nothing. */
  ghost function Delivered(ps: seq<Flashblock>, fates: seq<Fate>): Assembly
    requires |ps| == |fates|
    decreases |ps|
  {
    if ps == [] then EMPTY
    else
      var k := |ps| - 1;
      var before := Delivered(ps[..k], fates[..k]);
      var next := MirrorStep(before, ps[k]);
      if fates[k] == Processed && next.Ok? then next.value else before
  }

  /** How far the block that starts at s was delivered without a gap, within the first n messages. */
  ghost function Reached(fates: seq<Fate>, s: nat, n: nat): (m: nat)
    requires s <= n <= |fates|
    ensures s <= m <= n
    ensures forall j | s <= j < m :: fates[j] == Processed
    ensures m < n ==> fates[m] != Processed
    decreases n
  {
    if s == n then s
    else
      var m := Reached(fates, s, n - 1);
      if m == n - 1 && fates[n - 1] == Processed then n else m
  }

  /** The cache holds exactly the part, up to the first loss, of the block whose index 0 came last. */
  ghost predicate HoldsPrefix(ps: seq<Flashblock>, fates: seq<Fate>, start: nat)
    requires start < |ps| == |fates|
  {
    var m := Reached(fates, start, |ps|);
    && start < m
    && Valid(ps[start..m])
    && Delivered(ps, fates) == Assembled(ps[start..m])
  }

  /** A later message of the same block extends the prefix, or is refused because of an earlier loss. */
  lemma PrefixStep(ps: seq<Flashblock>, fates: seq<Fate>, start: nat)
    requires |ps| == |fates| && start < |ps| - 1
    requires ps[|ps| - 1].index == |ps| - 1 - start && ps[|ps| - 1].base.None?
    requires HoldsPrefix(ps[..|ps| - 1], fates[..|ps| - 1], start)
    ensures HoldsPrefix(ps, fates, start)
  {
    var k := |ps| - 1;
    var p := ps[k];
    var m := Reached(fates[..k], start, k);
    ReachedLocal(fates, start, k);
    var held := ps[start..m];
    assert ps[..k][start..m] == held;
    if m == k && fates[k] == Processed {
      assert ps[start..k + 1] == held + [p];
      assert (held + [p])[|held|] == p && forall i | 0 <= i < |held| :: (held + [p])[i] == held[i];
      assert Valid(held + [p]);
      ExtendAssembled(held, p);
    } else if m < k {
      assert |Assembled(held).deltas| == m - start;
    }
  }

  lemma ReachedLocal(fates: seq<Fate>, s: nat, n: nat)
    requires s <= n <= |fates|
    ensures Reached(fates[..n], s, n) == Reached(fates, s, n)
  {
  }

  /** The lossy mirror: if every index-0 message is processed, then whatever happens to the others the
      cache holds exactly the part, up to the first loss, of the block whose index 0 came last; later
      messages of that block are refused until the next index 0. */
  lemma {:induction false} LossyMirror(ps: seq<Flashblock>, fates: seq<Fate>)
    requires WellSequenced(ps) && ps != [] && |ps| == |fates|
    requires forall k | 0 <= k < |ps| && ps[k].index == 0 :: fates[k] == Processed
    ensures ps[|ps| - 1].index <= |ps| - 1
    ensures HoldsPrefix(ps, fates, |ps| - 1 - ps[|ps| - 1].index)
    decreases |ps|
  {
    var k := |ps| - 1;
    var p := ps[k];
    BlockOf(ps, k);
    if p.index == 0 {
      assert ps[k..k + 1] == [] + [p];
      ExtendAssembled([], p);
    } else {
      assert Continues(ps, k);
      PrefixWellSequenced(ps, k);
      LossyMirror(ps[..k], fates[..k]);
      PrefixStep(ps, fates, k - p.index);
    }
  }

  /** Without loss, lossy delivery is plain mirroring. */
  lemma {:induction false} LosslessMirror(ps: seq<Flashblock>, fates: seq<Fate>)
    requires WellSequenced(ps) && |ps| == |fates|
    requires forall k | 0 <= k < |ps| :: fates[k] == Processed
    ensures Mirrored(ps) == Ok(Delivered(ps, fates))
    decreases |ps|
  {
    if ps == [] {
    } else {
      PrefixWellSequenced(ps, |ps| - 1);
      LosslessMirror(ps[..|ps| - 1], fates[..|ps| - 1]);
      MirrorTracks(ps);
    }
  }
}
