/** The first half of a reorganization: back to the fork, block by block. */
module MostWorkBack {
  import opened Chain
  import opened MostWorkOrder
  import opened MostWork
  import opened MostWorkLinks
  import opened MostWorkState
  import opened MostWorkArrival
  import opened MostWorkMoves

  /** One chain is the lower part of another. */
  ghost predicate LowerPart(v: seq<BlockIndex?>, v0: seq<BlockIndex?>) {
    0 < |v| <= |v0| && v == v0[..|v|]
  }

  /** Take blocks off the chain down to the fork; a block without data cannot be taken off. */
  method DisconnectTo(chain: CChain, fork: BlockIndex) returns (ok: bool)
    requires chain.Valid() && Linked(fork) && On(chain.vChain, fork)
    modifies chain
    ensures chain.Valid() && LowerPart(chain.vChain, old(chain.vChain)) && (ok ==> chain.Tip() == fork)
    ensures forall h | |chain.vChain| <= h < |old(chain.vChain)| ::
      old(chain.vChain)[h] != null && old(chain.vChain)[h].haveData
    ensures !ok ==> chain.Tip() != null && !chain.Tip().haveData && chain.Tip().nHeight > fork.nHeight
  {
    ghost var v0 := chain.vChain;
    while chain.Tip() != fork
      invariant chain.Valid() && LowerPart(chain.vChain, v0) && On(chain.vChain, fork)
      invariant forall h | |chain.vChain| <= h < |v0| :: v0[h] != null && v0[h].haveData
      decreases |chain.vChain|
    {
      var tip := chain.Tip();
      TopOf(chain.vChain, fork);
      if !tip.haveData {
        return false;
      }
      ghost var v := chain.vChain;
      chain.SetTip(tip.pprev);
      OneOff(v, chain.vChain);
    }
    ok := true;
  }

  lemma TopOf(v: seq<BlockIndex?>, fork: BlockIndex)
    requires IsChain(v) && Linked(fork) && On(v, fork) && v[|v| - 1] != fork
    ensures v[|v| - 1] != null && v[|v| - 1].pprev != null && Linked(v[|v| - 1].pprev)
    ensures v[|v| - 1].nHeight == |v| - 1 > fork.nHeight
  {
    AncestorSelf(v[|v| - 1]);
  }

  lemma OneOff(v: seq<BlockIndex?>, v': seq<BlockIndex?>)
    requires IsChain(v) && v != [] && v[|v| - 1].pprev != null && IsPath(v', v[|v| - 1].pprev)
    ensures v' == v[..|v| - 1]
  {
    var tip := v[|v| - 1];
    ParentIs(tip);
    forall i | 0 <= i < |v'|
      ensures v'[i] == v[i]
    {
      AncestorTrans(tip, tip.nHeight - 1, i);
    }
  }

  // ---- What a shorter chain means ----

  lemma OnLower(v: seq<BlockIndex?>, v0: seq<BlockIndex?>, b: BlockIndex)
    requires LowerPart(v, v0)
    ensures On(v, b) ==> On(v0, b)
  {
  }

  lemma WaitsBack(v: seq<BlockIndex?>, v0: seq<BlockIndex?>, noData: set<BlockIndex>, links: Links, b: BlockIndex)
    requires LowerPart(v, v0) && Linked(b) && Waits(v0, noData, links, b)
    ensures Waits(v, noData, links, b)
  {
    var bad :| bad in noData && !On(v0, bad) && Chained(links, b, bad);
    OnLower(v, v0, bad);
    WaitsAt(v, noData, links, b, bad);
  }

  lemma BackGraph(v: seq<BlockIndex?>, v0: seq<BlockIndex?>, blocks: set<BlockIndex>, noData: set<BlockIndex>,
                  counted: set<BlockIndex>, links: Links)
    requires LowerPart(v, v0) && IsChain(v) && GraphOk(v0, blocks, noData, counted, links)
    ensures GraphOk(v, blocks, noData, counted, links)
  {
    hide Waits, IsChain;
    forall x | x in links
      ensures LinkOk(v, blocks, noData, links, x)
    {
      assert LinkOk(v0, blocks, noData, links, x);
      InTree(blocks, x.1);
      WaitsBack(v, v0, noData, links, x.0);
    }
  }

  lemma {:induction false} UsableShorter(v: seq<BlockIndex?>, v0: seq<BlockIndex?>, broken: set<BlockIndex>,
                                         b: BlockIndex)
    requires LowerPart(v, v0) && Linked(b) && Usable(v, broken, b)
    ensures Usable(v0, broken, b)
    decreases b.nHeight
  {
    OnLower(v, v0, b);
    if !On(v, b) && b.pprev != null {
      UsableShorter(v, v0, broken, b.pprev);
    }
  }

  /** What leaves the chain above the fork is not needed to reach a block on the other side. */
  lemma {:induction false} UsableFromFork(v: seq<BlockIndex?>, v0: seq<BlockIndex?>, broken: set<BlockIndex>,
                                          m: BlockIndex, fork: BlockIndex)
    requires Linked(m) && Usable(v0, broken, m) && Descends(m, fork) && On(v, fork)
    requires forall h: nat | fork.nHeight < h <= m.nHeight :: !On(v0, Ancestor(m, h))
    ensures Usable(v, broken, m)
    decreases m.nHeight
  {
    AncestorSelf(m);
    if m != fork {
      forall h: nat | fork.nHeight < h <= m.pprev.nHeight
        ensures !On(v0, Ancestor(m.pprev, h))
      {
        assert Ancestor(m.pprev, h) == Ancestor(m, h);
      }
      UsableFromFork(v, v0, broken, m.pprev, fork);
    }
  }

  /** Down at the fork, with the candidates refreshed, the book is in order. */
  lemma BackStanding(cs: Chainstate, v0: seq<BlockIndex?>, t0: BlockIndex)
    requires cs.Valid() && cs.chain.Tip() in cs.blocks && cs.candidates == cs.Eligible()
    requires LowerPart(cs.chain.vChain, v0) && t0 in cs.blocks && Linked(t0) && IsPath(v0, t0) && !t0.failed
    requires GraphOk(v0, cs.blocks, NoData(cs.blocks), Counted(cs.blocks), cs.unlinked)
    requires FlagsOk(cs.blocks) && WorkGrows(cs.blocks) && Numbered(cs) && FailurePassesOn(cs.blocks)
    ensures Standing(cs) && NoneWorse(cs)
  {
    hide SkipsOk, Apart, Waits, Ancestor, Less, WorkGrows, LinksSound, LinksComplete, CountsOk;
    var v, tip := cs.chain.vChain, cs.chain.Tip();
    BackGraph(v, v0, cs.blocks, NoData(cs.blocks), Counted(cs.blocks), cs.unlinked);
    assert tip == v0[|v| - 1] && v0[|v| - 1] in v0;
    SoundBelow(cs.blocks, t0, |v| - 1);
    assert tip in Counted(cs.blocks);
  }

  /** The goal stays the goal: what was worse than the old tip is worse than the goal. */
  lemma BackGoal(cs: Chainstate, v0: seq<BlockIndex?>, t0: BlockIndex, m: BlockIndex, fork: BlockIndex)
    requires cs.Valid() && cs.chain.Tip() == fork && fork in cs.blocks && t0 in cs.blocks && m in cs.blocks
    requires LowerPart(cs.chain.vChain, v0) && WorkGrows(cs.blocks) && CanBeCandidate(m) && Less(t0, m)
    requires Linked(m) && Descends(m, fork) && m != fork && Usable(v0, Broken(cs.blocks), m)
    requires forall h: nat | fork.nHeight < h <= m.nHeight :: !On(v0, Ancestor(m, h))
    requires forall b | b in cs.blocks && CanBeCandidate(b) && !Less(b, t0) && Usable(v0, Broken(cs.blocks), b) ::
      b == m || Less(b, m)
    ensures Goal(cs, m)
  {
    hide SkipsOk, Usable, IsPath, Chainstate.InOrder, Holds;
    var v, broken := cs.chain.vChain, Broken(cs.blocks);
    AncestorSelf(m);
    OnTip(cs);
    UsableFromFork(v, v0, broken, m, fork);
    LessWorkBelow(cs.blocks, m, fork.nHeight);
    forall b | b in cs.Eligible() && Usable(v, broken, b)
      ensures b == m || Less(b, m)
    {
      UsableShorter(v, v0, broken, b);
      LessIsTotal(cs.blocks, b, t0, m);
    }
  }

  // ---- Back to the fork ----

  /** Two blocks of the index share the one root. */
  lemma RootShared(blocks: set<BlockIndex>, a: BlockIndex, b: BlockIndex)
    requires Closed(blocks) && Rooted(blocks) && a in blocks && b in blocks
    ensures Linked(a) && Linked(b) && Ancestor(a, 0) == Ancestor(b, 0)
  {
    AncestorInTree(blocks, a, 0);
    AncestorInTree(blocks, b, 0);
  }

  /** A usable block that is better than the tip is not on the chain. */
  lemma GoalOffChain(cs: Chainstate, m: BlockIndex)
    requires cs.Valid() && Standing(cs) && Goal(cs, m) && m != cs.chain.Tip()
    ensures !On(cs.chain.vChain, m) && Linked(m) && Less(cs.chain.Tip(), m) && m.haveData
  {
    hide SkipsOk, Usable, Chainstate.InOrder, Holds, GraphOk, NoneLost;
    var tip := cs.chain.Tip();
    TipIsCandidate(cs);
    LessIsTotal(cs.blocks, tip, m, m);
    if On(cs.chain.vChain, m) {
      AncestorSelf(tip);
      LessWorkBelow(cs.blocks, tip, m.nHeight);
    }
    OffIsClear(cs.chain.vChain, Broken(cs.blocks), m);
  }

  lemma OffIsClear(v: seq<BlockIndex?>, broken: set<BlockIndex>, b: BlockIndex)
    requires Linked(b) && Usable(v, broken, b) && !On(v, b)
    ensures b !in broken
  {
  }

  /** The fork of the chain and the goal. */
  method FindGoalFork(cs: Chainstate, m: BlockIndex) returns (fork: BlockIndex)
    requires cs.Valid() && Standing(cs) && Rooted(cs.blocks) && Goal(cs, m) && m != cs.chain.Tip()
    ensures fork in cs.blocks && Linked(fork) && On(cs.chain.vChain, fork) && Linked(m) && Descends(m, fork)
    ensures fork != m
    ensures forall h: nat | fork.nHeight < h <= m.nHeight :: !On(cs.chain.vChain, Ancestor(m, h))
  {
    hide Standing, Goal, Usable, SkipsOk, Apart, IsPath, Chainstate.InOrder, Holds;
    GoalOffChain(cs, m);
    TipAndGoal(cs, m);
    RootOnChain(cs, m);
    var f := cs.chain.FindFork(m, cs.blocks);
    assert cs.chain.Contains(Ancestor(m, 0));
    fork := f;
  }

  lemma TipAndGoal(cs: Chainstate, m: BlockIndex)
    requires cs.Valid() && Standing(cs) && Goal(cs, m)
    ensures cs.chain.Tip() in cs.blocks && m in cs.blocks
  {
  }

  lemma RootOnChain(cs: Chainstate, m: BlockIndex)
    requires cs.Valid() && Rooted(cs.blocks) && cs.chain.Tip() in cs.blocks && m in cs.blocks
    ensures Linked(m) && On(cs.chain.vChain, Ancestor(m, 0))
    ensures forall b | On(cs.chain.vChain, b) :: b in cs.blocks
  {
    RootShared(cs.blocks, cs.chain.Tip(), m);
  }

  /** What the old chain was, and that no block better than its tip was usable but the goal and worse ones. */
  ghost predicate Left(cs: Chainstate, v0: seq<BlockIndex?>, t0: BlockIndex, m: BlockIndex)
    requires Closed(cs.blocks)
    reads cs`blocks, cs`unlinked, cs`nextSequence, cs.blocks
  {
    && t0 in cs.blocks && m in cs.blocks && IsPath(v0, t0) && !t0.failed
    && GraphOk(v0, cs.blocks, NoData(cs.blocks), Counted(cs.blocks), cs.unlinked)
    && FlagsOk(cs.blocks) && WorkGrows(cs.blocks) && Numbered(cs) && FailurePassesOn(cs.blocks)
    && CanBeCandidate(m) && Less(t0, m) && Usable(v0, Broken(cs.blocks), m)
    && forall b | b in cs.blocks && CanBeCandidate(b) && !Less(b, t0) && Usable(v0, Broken(cs.blocks), b) ::
      b == m || Less(b, m)
  }

  lemma LeavesSo(cs: Chainstate, m: BlockIndex)
    requires cs.Valid() && Standing(cs) && Goal(cs, m) && m != cs.chain.Tip()
    ensures Closed(cs.blocks) && cs.chain.Tip() in cs.blocks && Left(cs, cs.chain.vChain, cs.chain.Tip(), m)
  {
    hide SkipsOk, Apart, Usable, GraphOk, NoneLost, Ancestor, Holds, Chainstate.InOrder;
    GoalOffChain(cs, m);
  }

  lemma ArrivesSo(cs: Chainstate, v0: seq<BlockIndex?>, t0: BlockIndex, m: BlockIndex, fork: BlockIndex)
    requires cs.Valid() && cs.chain.Tip() == fork && fork in cs.blocks && cs.candidates == cs.Eligible()
    requires LowerPart(cs.chain.vChain, v0) && Left(cs, v0, t0, m) && Linked(m) && Descends(m, fork) && m != fork
    requires forall h: nat | fork.nHeight < h <= m.nHeight :: !On(v0, Ancestor(m, h))
    ensures Standing(cs) && NoneWorse(cs) && Goal(cs, m)
  {
    hide Standing, Goal, NoneWorse, SkipsOk, Apart, Usable, GraphOk, Holds, Chainstate.InOrder, WorkGrows, FlagsOk;
    BackStanding(cs, v0, t0);
    BackGoal(cs, v0, t0, m, fork);
  }

  lemma StillSound(cs: Chainstate, blocks: set<BlockIndex>, v0: seq<BlockIndex?>)
    requires LowerPart(cs.chain.vChain, v0) && forall b | b in v0 :: b in blocks
    ensures forall b | b in cs.chain.vChain :: b in blocks
  {
  }

  /** Take blocks off down to the fork, and bring the candidates in line with the lower tip. */
  method LeaveTip(cs: Chainstate, m: BlockIndex, fork: BlockIndex) returns (ok: bool)
    requires cs.Valid() && Standing(cs) && NoneWorse(cs) && Goal(cs, m) && m != cs.chain.Tip()
    requires fork in cs.blocks && Linked(fork) && On(cs.chain.vChain, fork) && Linked(m) && Descends(m, fork)
    requires fork != m
    requires forall h: nat | fork.nHeight < h <= m.nHeight :: !On(cs.chain.vChain, Ancestor(m, h))
    modifies cs`order, cs`candidates, cs.chain
    ensures LowerPart(cs.chain.vChain, old(cs.chain.vChain))
    ensures forall h | |cs.chain.vChain| <= h < |old(cs.chain.vChain)| ::
      old(cs.chain.vChain)[h] != null && old(cs.chain.vChain)[h].haveData
    ensures !ok ==> cs.chain.Tip() != null && !cs.chain.Tip().haveData
    ensures ok ==> cs.Valid() && Standing(cs) && NoneWorse(cs) && Goal(cs, m) && cs.chain.Tip() == fork
  {
    hide SkipsOk, Apart, IsPath, Standing, Goal, NoneWorse, Ancestor, Holds, Less, Left, Closed, Chainstate.Eligible;
    hide Chainstate.EligibleInOrder, LowerPart;
    LeavesSo(cs, m);
    ghost var v0, t0 := cs.chain.vChain, cs.chain.Tip();
    ok := DisconnectTo(cs.chain, fork);
    if ok {
      StillSound(cs, cs.blocks, v0);
      InOrderIsEnough(cs);
      cs.RefreshBlockIndexCandidates();
      ArrivesSo(cs, v0, t0, m, fork);
    }
  }

  /** Go back to where the way to the goal leaves the chain. */
  method GoBack(cs: Chainstate, m: BlockIndex) returns (fork: BlockIndex, ok: bool)
    requires cs.Valid() && Standing(cs) && NoneWorse(cs) && Rooted(cs.blocks) && Goal(cs, m) && m != cs.chain.Tip()
    modifies cs`order, cs`candidates, cs.chain
    ensures LowerPart(cs.chain.vChain, old(cs.chain.vChain))
    ensures forall h | |cs.chain.vChain| <= h < |old(cs.chain.vChain)| ::
      old(cs.chain.vChain)[h] != null && old(cs.chain.vChain)[h].haveData
    ensures !ok ==> cs.chain.Tip() != null && !cs.chain.Tip().haveData
    ensures ok ==> cs.Valid() && Standing(cs) && NoneWorse(cs) && Goal(cs, m) && cs.chain.Tip() == fork
    ensures ok ==> fork in cs.blocks && Linked(m) && Descends(m, fork) && fork != m
  {
    hide SkipsOk, Apart, IsPath, Standing, Goal, NoneWorse, Ancestor, Holds, Chainstate.InOrder;
    fork := FindGoalFork(cs, m);
    ok := true;
    if cs.chain.Tip() != fork {
      ok := LeaveTip(cs, m, fork);
    }
  }

  lemma InOrderIsEnough(cs: Chainstate)
    requires cs.InOrder()
    ensures cs.EligibleInOrder()
  {
    hide Less;
  }
}
