/** Moving to the best chain block by block: ActivateBestChain. */
module MostWorkActivation {
  import opened Chain
  import opened MostWorkOrder
  import opened MostWork
  import opened MostWorkLinks
  import opened MostWorkState
  import opened MostWorkArrival
  import opened MostWorkMoves
  import opened MostWorkBack

  // ---- What an activation leaves alone ----

  ghost predicate BuiltOn(d: BlockIndex, invalid: set<BlockIndex>)
    requires Linked(d)
  {
    exists a | a in invalid :: Descends(d, a)
  }

  /** The chain could come back to this block: what is no longer on the chain has data. */
  ghost predicate Held(v: seq<BlockIndex?>, noData: set<BlockIndex>, s: BlockIndex)
    requires Linked(s)
  {
    forall h: nat | h <= s.nHeight :: On(v, Ancestor(s, h)) || Ancestor(s, h) !in noData
  }

  /**
    Since blocks `failed0` were failed, only blocks built on invalid ones have been failed, none of these is on the
    chain, and the chain could come back to each of the tips it had. A block of the chain without data was there all
    the time.
   */
  ghost predicate Along(v: seq<BlockIndex?>, blocks: set<BlockIndex>, noData: set<BlockIndex>,
                        failures: set<BlockIndex>, tips: set<BlockIndex>, failed0: set<BlockIndex>,
                        invalid: set<BlockIndex>)
    requires Closed(blocks)
  {
    && tips <= blocks && (forall t | t in tips :: Held(v, noData, t) && t !in failures && !BuiltOn(t, invalid))
    && failed0 <= failures <= blocks && (forall d | d in failures && d !in failed0 :: BuiltOn(d, invalid))
    && (forall x | x in v :: x !in invalid)
    && forall x, t | x in noData && x in v && t in tips :: Descends(t, x)
  }

  lemma AlongBack(v: seq<BlockIndex?>, v0: seq<BlockIndex?>, blocks: set<BlockIndex>, noData: set<BlockIndex>,
                  failures: set<BlockIndex>, tips: set<BlockIndex>, failed0: set<BlockIndex>, invalid: set<BlockIndex>)
    requires Closed(blocks) && Along(v0, blocks, noData, failures, tips, failed0, invalid) && LowerPart(v, v0)
    requires forall h | |v| <= h < |v0| :: v0[h] !in noData
    ensures Along(v, blocks, noData, failures, tips, failed0, invalid)
  {
    hide BuiltOn;
    forall t | t in tips
      ensures Held(v, noData, t)
    {
      forall h: nat | h <= t.nHeight
        ensures On(v, Ancestor(t, h)) || Ancestor(t, h) !in noData
      {
        assert On(v0, Ancestor(t, h)) || Ancestor(t, h) !in noData;
      }
    }
  }

  lemma AlongNext(v: seq<BlockIndex?>, b: BlockIndex, blocks: set<BlockIndex>, noData: set<BlockIndex>,
                  failures: set<BlockIndex>, tips: set<BlockIndex>, failed0: set<BlockIndex>, invalid: set<BlockIndex>)
    requires Closed(blocks) && Along(v, blocks, noData, failures, tips, failed0, invalid) && b !in invalid + noData
    ensures Along(v + [b], blocks, noData, failures, tips, failed0, invalid)
  {
    hide BuiltOn;
    forall t | t in tips
      ensures Held(v + [b], noData, t)
    {
      forall h: nat | h <= t.nHeight
        ensures On(v + [b], Ancestor(t, h)) || Ancestor(t, h) !in noData
      {
        assert On(v, Ancestor(t, h)) || Ancestor(t, h) !in noData;
      }
    }
  }

  lemma AlongFailed(v: seq<BlockIndex?>, b: BlockIndex, blocks: set<BlockIndex>, noData: set<BlockIndex>,
                    failures: set<BlockIndex>, failures': set<BlockIndex>, tips: set<BlockIndex>,
                    failed0: set<BlockIndex>, invalid: set<BlockIndex>)
    requires Closed(blocks) && Along(v, blocks, noData, failures, tips, failed0, invalid) && b in invalid
    requires failures <= failures' <= blocks && forall d | d in failures' && d !in failures :: Descends(d, b)
    ensures Along(v, blocks, noData, failures', tips, failed0, invalid)
  {
    hide Held;
    forall d | d in failures' && d !in failures
      ensures BuiltOn(d, invalid)
    {
    }
  }

  /** What holds during an activation. */
  ghost predicate Upright(cs: Chainstate)
    reads cs, cs.chain`vChain, cs.blocks, cs.candidates
  {
    cs.Valid() && Standing(cs) && NoneWorse(cs) && Rooted(cs.blocks)
  }

  ghost predicate AlongNow(cs: Chainstate, tips: set<BlockIndex>, failed0: set<BlockIndex>, invalid: set<BlockIndex>)
    reads cs`blocks, cs.chain`vChain, cs.blocks`failed, cs.blocks`haveData
  {
    && Closed(cs.blocks)
    && Along(cs.chain.vChain, cs.blocks, NoData(cs.blocks), Failures(cs.blocks), tips, failed0, invalid)
  }

  // ---- One more block ----

  /** The next block on the way to the goal is a usable candidate. */
  lemma NextFits(cs: Chainstate, b: BlockIndex, m: BlockIndex)
    requires cs.Valid() && Standing(cs) && Goal(cs, m) && b in cs.blocks && b.pprev != null && b.pprev == cs.chain.Tip()
    requires Linked(m) && Descends(m, b)
    ensures b in cs.candidates && Linked(b) && Usable(cs.chain.vChain, Broken(cs.blocks), b) && !cs.Worse(b)
    ensures !On(cs.chain.vChain, b) && !b.failed && b.haveData
  {
    hide SkipsOk, Apart, Chainstate.InOrder, Holds, NoneLost, Waits, LinksSound, LinksComplete, Usable;
    UsableBelow(cs.chain.vChain, Broken(cs.blocks), m, b);
    SoundBelow(cs.blocks, m, b.nHeight);
    PathCounted(cs.blocks, NoData(cs.blocks), Counted(cs.blocks), m, b.nHeight);
    AncestorSelf(cs.chain.Tip());
    assert b in cs.Eligible();
    NoneMissed(cs, b);
    OffIsClear(cs.chain.vChain, Broken(cs.blocks), b);
  }

  /** The goal can still be reached from the block above the old tip. */
  lemma {:induction false} UsableOnward(v: seq<BlockIndex?>, v': seq<BlockIndex?>, broken: set<BlockIndex>,
                                        m: BlockIndex, b: BlockIndex)
    requires IsChain(v) && Linked(m) && Usable(v, broken, m) && Descends(m, b) && !On(v, b) && On(v', b)
    ensures Usable(v', broken, m)
    decreases m.nHeight
  {
    AncestorSelf(m);
    if m != b {
      OffAbove(v, m, b);
      UsableOnward(v, v', broken, m.pprev, b);
    }
  }

  lemma {:induction false} OffAbove(v: seq<BlockIndex?>, m: BlockIndex, b: BlockIndex)
    requires IsChain(v) && Linked(m) && Descends(m, b) && !On(v, b)
    ensures !On(v, m)
    decreases m.nHeight
  {
    AncestorSelf(m);
    if m != b {
      OffAbove(v, m.pprev, b);
      ParentOn(v, m);
    }
  }

  lemma GoalNext(cs: Chainstate, v0: seq<BlockIndex?>, b: BlockIndex, m: BlockIndex)
    requires cs.Valid() && cs.chain.Tip() == b && b in cs.blocks && m in cs.blocks && CanBeCandidate(m)
    requires WorkGrows(cs.blocks) && IsChain(v0) && Linked(m) && Descends(m, b) && !On(v0, b)
    requires Usable(v0, Broken(cs.blocks), m)
    requires forall x | x in cs.Eligible() && Usable(cs.chain.vChain, Broken(cs.blocks), x) :: x == m || Less(x, m)
    ensures Goal(cs, m)
  {
    hide SkipsOk, Chainstate.InOrder, Holds, Usable, IsPath, Chainstate.Eligible;
    OnTip(cs);
    UsableOnward(v0, cs.chain.vChain, Broken(cs.blocks), m, b);
    AncestorSelf(m);
    if m != b {
      LessWorkBelow(cs.blocks, m, b.nHeight);
    } else {
      LessIsTotal(cs.blocks, b, b, b);
    }
  }

  lemma OneOn(v: seq<BlockIndex?>, v': seq<BlockIndex?>, b: BlockIndex)
    requires IsChain(v) && IsChain(v') && v != [] && v' != [] && v'[|v'| - 1] == b && b.pprev == v[|v| - 1]
    ensures v' == v + [b]
  {
    ParentIs(b);
    AncestorSelf(b);
    forall i | 0 <= i < |v|
      ensures v'[i] == v[i]
    {
      AncestorTrans(b, b.nHeight - 1, i);
    }
  }

  /** Connect one block, or find it invalid: then it is failed with everything built on it. */
  method ConnectTip(cs: Chainstate, b: BlockIndex, invalid: set<BlockIndex>, ghost m: BlockIndex) returns (good: bool)
    requires Upright(cs) && Goal(cs, m) && b in cs.blocks && b.pprev != null && b.pprev == cs.chain.Tip()
    requires Linked(m) && Descends(m, b)
    modifies cs`order, cs`candidates, cs`bestInvalid, cs.chain, cs.blocks`failed
    ensures Upright(cs) && (good <==> b !in invalid) && Linked(b)
    ensures good ==> Goal(cs, m) && cs.chain.vChain == old(cs.chain.vChain) + [b] && b.haveData
    ensures good ==> forall d | d in cs.blocks :: d.failed == old(d.failed)
    ensures !good ==> cs.chain.vChain == old(cs.chain.vChain) && !old(b.failed) && !On(cs.chain.vChain, b)
    ensures !good ==> forall d | d in cs.blocks :: d.failed <==> old(d.failed) || Descends(d, b)
    ensures !good ==> cs.candidates == cs.Eligible()
  {
    hide Standing, NoneWorse, Chainstate.InOrder, Holds, Usable, SkipsOk, Apart, IsPath, Ancestor, Less, Rooted;
    NextFits(cs, b, m);
    if b in invalid {
      Invalidate(cs, b, false);
      good := false;
    } else {
      ghost var v0 := cs.chain.vChain;
      Advance(cs, b);
      WorkStillGrows(cs);
      forall x | x in cs.Eligible() && Usable(cs.chain.vChain, Broken(cs.blocks), x)
        ensures x == m || Less(x, m)
      {
        assert x in old(cs.Eligible());
      }
      GoalNext(cs, v0, b, m);
      OneOn(v0, cs.chain.vChain, b);
      good := true;
    }
  }

  lemma WorkStillGrows(cs: Chainstate)
    requires cs.Valid() && Standing(cs)
    ensures WorkGrows(cs.blocks)
  {
  }

  /** The blocks up to 32 above a height on the way to the goal, the highest first. */
  method NextBatch(m: BlockIndex, height: nat, ghost tree: set<BlockIndex>)
    returns (batch: seq<BlockIndex>, target: nat)
    requires m in tree && Closed(tree) && SkipsOk(tree) && height < m.nHeight
    ensures Linked(m) && height < target <= m.nHeight
    ensures target == (if height + 32 < m.nHeight then height + 32 else m.nHeight)
    ensures |batch| == target - height && forall i | 0 <= i < |batch| :: batch[i] == Ancestor(m, target - i)
  {
    hide SkipsOk, Ancestor, Closed;
    target := if height + 32 < m.nHeight then height + 32 else m.nHeight;
    InTree(tree, m);
    batch := [];
    var block := m.GetAncestor(target, tree);
    while block != null && block.nHeight != height
      invariant block != null && height <= block.nHeight <= target && block == Ancestor(m, block.nHeight)
      invariant Linked(block) && |batch| == target - block.nHeight
      invariant forall i | 0 <= i < |batch| :: batch[i] == Ancestor(m, target - i)
      decreases if block == null then 0 else block.nHeight
    {
      batch := batch + [block];
      AncestorTrans(m, block.nHeight, block.nHeight - 1);
      HasParent(block);
      block := block.pprev;
    }
  }

  lemma HasParent(b: BlockIndex)
    requires Linked(b) && b.nHeight > 0
    ensures b.pprev != null && Linked(b.pprev) && b.pprev.nHeight == b.nHeight - 1
    ensures b.pprev == Ancestor(b, b.nHeight - 1)
  {
  }

  // ---- A batch of blocks ----

  /** After a failure the highest block of the batch, which is failed by then, is reported as an invalid chain. */
  method ReportInvalidChain(cs: Chainstate, front: BlockIndex)
    requires Upright(cs) && front in cs.blocks && front.failed && !On(cs.chain.vChain, front)
    requires forall d | d in cs.blocks && Descends(d, front) :: d.failed
    modifies cs`order, cs`candidates, cs`bestInvalid, cs.blocks`failed
    ensures Upright(cs) && cs.candidates == cs.Eligible() && forall d | d in cs.blocks :: d.failed == old(d.failed)
  {
    hide SkipsOk, Apart, IsPath, Ancestor, Less, GraphOk, Usable, Holds, Chainstate.InOrder, Descends;
    cs.InvalidChainFound(front);
  }

  /** What is built on the front of a batch is built on each of its blocks. */
  lemma {:induction false} DescendsOn(d: BlockIndex, front: BlockIndex, b: BlockIndex)
    requires Linked(d) && Linked(front) && Descends(front, b)
    ensures Descends(d, front) ==> Descends(d, b)
  {
    if Descends(d, front) {
      AncestorTrans(d, front.nHeight, b.nHeight);
    }
  }

  lemma OffOn(v: seq<BlockIndex?>, front: BlockIndex, b: BlockIndex)
    requires IsChain(v) && Linked(front) && Descends(front, b) && !On(v, b)
    ensures !On(v, front)
  {
    OffAbove(v, front, b);
  }

  /** Connect one block of a batch; on failure report the front of the batch, too. */
  method ConnectNext(cs: Chainstate, b: BlockIndex, front: BlockIndex, invalid: set<BlockIndex>, ghost m: BlockIndex,
                     ghost tips: set<BlockIndex>, ghost failed0: set<BlockIndex>)
    returns (good: bool)
    requires Upright(cs) && Goal(cs, m) && b in cs.blocks && b.pprev != null && b.pprev == cs.chain.Tip()
    requires Linked(m) && Descends(m, b) && front in cs.blocks && Linked(front) && Descends(front, b)
    requires AlongNow(cs, tips, failed0, invalid)
    modifies cs`order, cs`candidates, cs`bestInvalid, cs.chain, cs.blocks`failed
    ensures Upright(cs) && AlongNow(cs, tips, failed0, invalid)
    ensures good ==> Goal(cs, m) && cs.chain.Tip() == b && Failures(cs.blocks) == old(Failures(cs.blocks))
    ensures !good ==> old(Failures(cs.blocks)) < Failures(cs.blocks)
  {
    hide Upright, Goal, Along, SkipsOk, Apart, Ancestor, Less, IsPath, Descends, Held;
    ghost var v0, failures, noData := cs.chain.vChain, Failures(cs.blocks), NoData(cs.blocks);
    good := ConnectTip(cs, b, invalid, m);
    if good {
      AlongNext(v0, b, cs.blocks, noData, failures, tips, failed0, invalid);
      assert Failures(cs.blocks) == failures;
    } else {
      UprightTree(cs);
      forall d | d in cs.blocks
        ensures Descends(d, front) ==> Descends(d, b)
      {
        InTree(cs.blocks, d);
        DescendsOn(d, front, b);
      }
      OffOn(cs.chain.vChain, front, b);
      ReportInvalidChain(cs, front);
      AlongFailed(v0, b, cs.blocks, noData, failures, Failures(cs.blocks), tips, failed0, invalid);
      DescendsItself(b);
      assert b in Failures(cs.blocks) && b !in failures;
    }
  }

  lemma DescendsItself(b: BlockIndex)
    requires Linked(b)
    ensures Descends(b, b)
  {
  }

  lemma UprightTree(cs: Chainstate)
    requires Upright(cs)
    ensures Closed(cs.blocks) && IsChain(cs.chain.vChain) && cs.chain.Tip() in cs.blocks && SkipsOk(cs.blocks)
    ensures forall x | x in cs.chain.vChain :: x in cs.blocks
  {
  }

  lemma OnTheWay(blocks: set<BlockIndex>, m: BlockIndex, h: nat, g: nat)
    requires Closed(blocks) && m in blocks && 0 < h <= g <= m.nHeight
    ensures Linked(m)
    ensures
      var b, front := Ancestor(m, h), Ancestor(m, g);
      && b in blocks && front in blocks && Linked(front) && Descends(m, b) && Descends(front, b)
      && b.pprev != null && b.pprev == Ancestor(m, h - 1)
  {
    InTree(blocks, m);
    AncestorInTree(blocks, m, h);
    AncestorInTree(blocks, m, g);
    AncestorTrans(m, g, h);
    AncestorTrans(m, h, h - 1);
    HasParent(Ancestor(m, h));
  }

  /** Connect the blocks of a batch from the lowest up, until one is invalid or the work exceeds the old tip's. */
  method ConnectBatch(cs: Chainstate, m: BlockIndex, batch: seq<BlockIndex>, work: nat, invalid: set<BlockIndex>,
                      ghost height: nat, ghost tips: set<BlockIndex>, ghost failed0: set<BlockIndex>)
    returns (found: bool, stop: bool)
    requires Upright(cs) && Goal(cs, m) && AlongNow(cs, tips, failed0, invalid) && Linked(m) && batch != []
    requires height + |batch| <= m.nHeight && cs.chain.Tip() == Ancestor(m, height)
    requires forall i | 0 <= i < |batch| :: batch[i] == Ancestor(m, height + |batch| - i)
    modifies cs`order, cs`candidates, cs`bestInvalid, cs.chain, cs.blocks`failed
    ensures Upright(cs) && AlongNow(cs, tips, failed0, invalid)
    ensures found ==> stop && old(Failures(cs.blocks)) < Failures(cs.blocks)
    ensures !found ==> Goal(cs, m) && Failures(cs.blocks) == old(Failures(cs.blocks))
    ensures !found && stop ==> cs.chain.Tip() != null && cs.chain.Tip().chainWork > work
    ensures !stop ==> cs.chain.Tip() == Ancestor(m, height + |batch|)
  {
    hide Standing, NoneWorse, Rooted, Chainstate.Valid, Goal, AlongNow, Ancestor, Descends, Failures, Linked, Closed;
    hide SkipsOk, IsChain;
    found, stop := false, false;
    var k := |batch|;
    while k > 0 && !stop
      invariant 0 <= k <= |batch| && Upright(cs) && AlongNow(cs, tips, failed0, invalid)
      invariant found ==> stop && old(Failures(cs.blocks)) < Failures(cs.blocks)
      invariant !found ==> Goal(cs, m) && Failures(cs.blocks) == old(Failures(cs.blocks))
      invariant !found && stop ==> cs.chain.Tip() != null && cs.chain.Tip().chainWork > work
      invariant !stop ==> cs.chain.Tip() == Ancestor(m, height + |batch| - k)
      decreases k, !stop
    {
      k := k - 1;
      UprightTree(cs);
      GoalInIndex(cs, m);
      OnTheWay(cs.blocks, m, height + |batch| - k, height + |batch|);
      var good := ConnectNext(cs, batch[k], batch[0], invalid, m, tips, failed0);
      if !good {
        found, stop := true, true;
      } else if cs.chain.Tip().chainWork > work {
        stop := true;
      }
    }
  }

  lemma GoalInIndex(cs: Chainstate, m: BlockIndex)
    requires cs.Valid() && Goal(cs, m)
    ensures m in cs.blocks
  {
  }

  // ---- One step ----

  lemma AlongDown(cs: Chainstate, v0: seq<BlockIndex?>, tips: set<BlockIndex>, failed0: set<BlockIndex>,
                  invalid: set<BlockIndex>)
    requires Closed(cs.blocks) && LowerPart(cs.chain.vChain, v0)
    requires Along(v0, cs.blocks, NoData(cs.blocks), Failures(cs.blocks), tips, failed0, invalid)
    requires forall h | |cs.chain.vChain| <= h < |v0| :: v0[h] != null && v0[h].haveData
    ensures AlongNow(cs, tips, failed0, invalid)
  {
    hide Along;
    AlongBack(cs.chain.vChain, v0, cs.blocks, NoData(cs.blocks), Failures(cs.blocks), tips, failed0, invalid);
  }

  /**
    One step towards the goal: back to the fork, then up in batches of 32 blocks. It ends at the goal, or as soon as
    the work exceeds the old tip's, or with an invalid block found. It cannot be done if a block to be taken off has
    no data.
   */
  method ActivateStep(cs: Chainstate, m: BlockIndex, invalid: set<BlockIndex>, ghost tips: set<BlockIndex>,
                      ghost failed0: set<BlockIndex>)
    returns (found: bool, ok: bool)
    requires Upright(cs) && Goal(cs, m) && m != cs.chain.Tip() && AlongNow(cs, tips, failed0, invalid)
    modifies cs`order, cs`candidates, cs`bestInvalid, cs.chain, cs.blocks`failed
    ensures ok ==> Upright(cs) && AlongNow(cs, tips, failed0, invalid)
    ensures ok && found ==> old(Failures(cs.blocks)) < Failures(cs.blocks)
    ensures ok && !found ==> Goal(cs, m) && Failures(cs.blocks) == old(Failures(cs.blocks))
    ensures ok && !found ==> cs.chain.Tip() == m || cs.chain.Tip().chainWork > old(cs.chain.Tip().chainWork)
    ensures !ok ==> exists b | b in cs.blocks :: b in NoData(cs.blocks) && forall t | t in tips :: Descends(t, b)
  {
    hide Standing, NoneWorse, Rooted, Chainstate.Valid, Goal, Along, Ancestor, Descends, Failures, NoData, Linked;
    hide Closed;
    hide SkipsOk, IsChain;
    UprightTree(cs);
    var work := cs.chain.Tip().chainWork;
    ghost var v0 := cs.chain.vChain;
    found := false;
    var fork;
    fork, ok := GoBack(cs, m);
    if !ok {
      Missing(cs, cs.chain.Tip(), v0, tips, failed0, invalid);
      return;
    }
    AlongDown(cs, v0, tips, failed0, invalid);
    GoalInIndex(cs, m);
    AtFork(m, fork);
    found := GoUp(cs, m, fork.nHeight, work, invalid, tips, failed0);
  }

  lemma Missing(cs: Chainstate, b: BlockIndex, v0: seq<BlockIndex?>, tips: set<BlockIndex>, failed0: set<BlockIndex>,
                invalid: set<BlockIndex>)
    requires Closed(cs.blocks) && LowerPart(cs.chain.vChain, v0) && cs.chain.Tip() == b && !b.haveData
    requires forall x | x in v0 :: x in cs.blocks
    requires Along(v0, cs.blocks, NoData(cs.blocks), Failures(cs.blocks), tips, failed0, invalid)
    ensures b in cs.blocks && b in NoData(cs.blocks) && forall t | t in tips :: Descends(t, b)
  {
    hide BuiltOn, Held;
    assert v0[|cs.chain.vChain| - 1] == b && b in v0;
  }

  /** Up from the fork in batches. */
  method GoUp(cs: Chainstate, m: BlockIndex, from: nat, work: nat, invalid: set<BlockIndex>,
              ghost tips: set<BlockIndex>, ghost failed0: set<BlockIndex>)
    returns (found: bool)
    requires Upright(cs) && Goal(cs, m) && AlongNow(cs, tips, failed0, invalid) && m in cs.blocks && Linked(m)
    requires from <= m.nHeight && cs.chain.Tip() == Ancestor(m, from)
    modifies cs`order, cs`candidates, cs`bestInvalid, cs.chain, cs.blocks`failed
    ensures Upright(cs) && AlongNow(cs, tips, failed0, invalid)
    ensures found ==> old(Failures(cs.blocks)) < Failures(cs.blocks)
    ensures !found ==> Goal(cs, m) && Failures(cs.blocks) == old(Failures(cs.blocks)) && cs.chain.Tip() != null
    ensures !found ==> cs.chain.Tip() == m || cs.chain.Tip().chainWork > work
  {
    hide Standing, NoneWorse, Rooted, Chainstate.Valid, Goal, AlongNow, Ancestor, Failures, Linked, Closed;
    hide SkipsOk, IsChain;
    var height, stop := from, false;
    found := false;
    while height != m.nHeight && !stop
      invariant Upright(cs) && AlongNow(cs, tips, failed0, invalid) && height <= m.nHeight
      invariant found ==> stop && old(Failures(cs.blocks)) < Failures(cs.blocks)
      invariant !found ==> Goal(cs, m) && Failures(cs.blocks) == old(Failures(cs.blocks))
      invariant !found && stop ==> cs.chain.Tip() != null && cs.chain.Tip().chainWork > work
      invariant !stop ==> cs.chain.Tip() == Ancestor(m, height)
      decreases m.nHeight - height, !stop
    {
      UprightTree(cs);
      var batch, target := NextBatch(m, height, cs.blocks);
      found, stop := ConnectBatch(cs, m, batch, work, invalid, height, tips, failed0);
      height := target;
    }
    AncestorSelf(m);
  }

  lemma AtFork(m: BlockIndex, fork: BlockIndex)
    requires Linked(m) && Descends(m, fork)
    ensures fork.nHeight <= m.nHeight && fork == Ancestor(m, fork.nHeight)
  {
  }
}
