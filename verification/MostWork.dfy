/** Which chain to follow: the set of candidate tips and the choice of the best one. */
module MostWork {
  import opened Chain
  import opened MostWorkOrder

  const VALID_TRANSACTIONS: nat := 3

  /** Pairs of a parent and a child that waits for data below it. */
  type Links = multiset<(BlockIndex, BlockIndex)>

  // ---- Blocks ----

  /** Not failed, with its transactions checked, and with all transactions before it known. */
  predicate CanBeCandidate(b: BlockIndex)
    reads b`failed, b`validity, b`chainTx
  {
    !b.failed && b.validity >= VALID_TRANSACTIONS && b.chainTx != 0
  }

  predicate Bad(b: BlockIndex)
    reads b`failed, b`haveData
  {
    b.failed || !b.haveData
  }

  /** The block is in the chain with vector v. */
  ghost predicate On(v: seq<BlockIndex?>, b: BlockIndex) {
    b.nHeight < |v| && v[b.nHeight] == b
  }

  /** Blocks that are failed or have no data. */
  ghost function Broken(blocks: set<BlockIndex>): set<BlockIndex>
    reads blocks`failed, blocks`haveData
  {
    set b | b in blocks && Bad(b)
  }

  /** No block from here down to the chain v is broken. */
  ghost predicate Usable(v: seq<BlockIndex?>, broken: set<BlockIndex>, b: BlockIndex)
    requires Linked(b)
    decreases b.nHeight
  {
    On(v, b) || (b !in broken && (b.pprev == null || Usable(v, broken, b.pprev)))
  }

  /** One of the two is an ancestor of the other, or they are the same. */
  ghost predicate Related(b: BlockIndex, p: BlockIndex)
    requires Linked(b) && Linked(p)
  {
    Descends(b, p) || Descends(p, b)
  }

  ghost predicate Descends(b: BlockIndex, from: BlockIndex)
    requires Linked(b)
  {
    from.nHeight <= b.nHeight && Ancestor(b, from.nHeight) == from
  }

  /** No block above a broken one that is off the chain can be used. */
  lemma {:induction false} BadBelow(v: seq<BlockIndex?>, broken: set<BlockIndex>, b: BlockIndex, bad: BlockIndex)
    requires Linked(b) && IsChain(v) && Descends(b, bad) && bad in broken && !On(v, bad)
    ensures !Usable(v, broken, b) && !On(v, b)
    decreases b.nHeight
  {
    if b != bad {
      BadBelow(v, broken, b.pprev, bad);
      ParentOn(v, b);
    }
  }

  lemma ParentOn(v: seq<BlockIndex?>, b: BlockIndex)
    requires IsChain(v) && Linked(b) && b.pprev != null
    ensures On(v, b) ==> On(v, b.pprev)
  {
    if On(v, b) {
      AncestorTrans(v[|v| - 1], b.nHeight, b.nHeight - 1);
    }
  }

  /** Going down from a usable block one meets usable blocks only. */
  lemma {:induction false} UsableBelow(v: seq<BlockIndex?>, broken: set<BlockIndex>, b: BlockIndex, a: BlockIndex)
    requires Linked(b) && IsChain(v) && Descends(b, a) && Usable(v, broken, b)
    ensures Usable(v, broken, a)
    decreases b.nHeight
  {
    if b != a {
      ParentOn(v, b);
      UsableBelow(v, broken, b.pprev, a);
    }
  }

  /** When the chain moves to a block that was usable, no block becomes usable by that. */
  lemma {:induction false} UsableBefore(v: seq<BlockIndex?>, v': seq<BlockIndex?>, broken: set<BlockIndex>,
                                        tip: BlockIndex, b: BlockIndex)
    requires Linked(b) && Linked(tip) && IsChain(v) && IsPath(v', tip)
    requires Usable(v, broken, tip) && Usable(v', broken, b)
    ensures Usable(v, broken, b)
    decreases b.nHeight
  {
    if On(v', b) {
      UsableBelow(v, broken, tip, b);
    } else if b.pprev != null {
      UsableBefore(v, v', broken, tip, b.pprev);
    }
  }

  ghost predicate IsChain(v: seq<BlockIndex?>) {
    v == [] || (v[|v| - 1] != null && Linked(v[|v| - 1]) && IsPath(v, v[|v| - 1]))
  }

  lemma NothingAbove(broken: set<BlockIndex>, top: BlockIndex)
    requires Linked(top)
    ensures Descends(top, top) && ClearAbove(broken, top, top)
  {
  }

  lemma OnIsUsable(v: seq<BlockIndex?>, broken: set<BlockIndex>, b: BlockIndex)
    requires Linked(b) && On(v, b)
    ensures Usable(v, broken, b)
  {
  }

  /** One step of the walk down from `top`. */
  lemma OneDown(v: seq<BlockIndex?>, broken: set<BlockIndex>, top: BlockIndex, test: BlockIndex)
    requires Linked(top) && Linked(test) && Descends(top, test) && ClearAbove(broken, top, test) && !On(v, test)
    ensures test in broken ==> !Usable(v, broken, test)
    ensures test !in broken && test.pprev == null ==> Usable(v, broken, test)
    ensures test !in broken && test.pprev != null ==>
      && Linked(test.pprev) && Descends(top, test.pprev) && ClearAbove(broken, top, test.pprev)
      && (Usable(v, broken, test) <==> Usable(v, broken, test.pprev))
  {
    if test.pprev != null {
      AncestorTrans(top, test.nHeight, test.nHeight - 1);
      ParentIs(test);
    }
  }

  /** The blocks from `top` down to `bottom`, both included. */
  ghost function Segment(top: BlockIndex, bottom: BlockIndex): set<BlockIndex>
    requires Linked(top) && Descends(top, bottom)
    decreases top.nHeight
  {
    if top == bottom then {top} else {top} + Segment(top.pprev, bottom)
  }

  lemma {:induction false} SegmentIs(top: BlockIndex, bottom: BlockIndex, b: BlockIndex)
    requires Linked(top) && Descends(top, bottom)
    ensures b in Segment(top, bottom) <==> Linked(b) && Descends(top, b) && Descends(b, bottom)
    decreases top.nHeight
  {
    if top == bottom {
      if Linked(b) && Descends(top, b) && Descends(b, bottom) {
        assert b.nHeight == top.nHeight;
      }
    } else {
      SegmentIs(top.pprev, bottom, b);
      if b == top {
        assert Descends(b, bottom);
      } else if Linked(b) && Descends(top, b) && Descends(b, bottom) {
        assert b.nHeight < top.nHeight;
      }
    }
  }

  // ---- Waiting for data ----

  ghost function NoData(blocks: set<BlockIndex>): set<BlockIndex>
    reads blocks`haveData
  {
    set b | b in blocks && !b.haveData
  }

  ghost function Failures(blocks: set<BlockIndex>): set<BlockIndex>
    reads blocks`failed
  {
    set b | b in blocks && b.failed
  }

  /** Every pair from `top` down to `bottom` is recorded. */
  ghost predicate Chained(links: Links, top: BlockIndex, bottom: BlockIndex)
    requires Linked(top)
    decreases top.nHeight
  {
    top == bottom || (top.pprev != null && (top.pprev, top) in links && Chained(links, top.pprev, bottom))
  }

  /** The recorded pairs lead from the block down to one off the chain that lacks data. */
  ghost predicate Waits(v: seq<BlockIndex?>, noData: set<BlockIndex>, links: Links, b: BlockIndex)
    requires Linked(b)
  {
    exists bad | bad in noData :: !On(v, bad) && Chained(links, b, bad)
  }

  /** A recorded child has data, and its parent waits for data. */
  ghost predicate LinkOk(v: seq<BlockIndex?>, blocks: set<BlockIndex>, noData: set<BlockIndex>, links: Links,
                         x: (BlockIndex, BlockIndex))
    requires Closed(blocks)
  {
    x.1 in blocks && x.1.pprev == x.0 && x.1 !in noData && Waits(v, noData, links, x.0)
  }

  /** The block is built on a failed one off the chain. */
  ghost predicate FailedBelow(v: seq<BlockIndex?>, failures: set<BlockIndex>, b: BlockIndex)
    requires Linked(b)
  {
    exists bad | bad in failures :: !On(v, bad) && Descends(b, bad)
  }

  /** No block from `top` down to just above `bottom` is broken. */
  ghost predicate ClearAbove(broken: set<BlockIndex>, top: BlockIndex, bottom: BlockIndex)
    requires Linked(top)
  {
    forall h: nat | bottom.nHeight < h <= top.nHeight :: Ancestor(top, h) !in broken
  }

  lemma {:induction false} ChainedMore(links: Links, links': Links, top: BlockIndex, bottom: BlockIndex)
    requires Linked(top) && Chained(links, top, bottom) && links <= links'
    ensures Chained(links', top, bottom)
    decreases top.nHeight
  {
    if top != bottom {
      ChainedMore(links, links', top.pprev, bottom);
      assert links[(top.pprev, top)] <= links'[(top.pprev, top)];
    }
  }

  lemma {:induction false} ChainedTrans(links: Links, top: BlockIndex, mid: BlockIndex, bottom: BlockIndex)
    requires Linked(top) && Linked(mid) && Chained(links, top, mid) && Chained(links, mid, bottom)
    ensures Chained(links, top, bottom)
    decreases top.nHeight
  {
    if top != mid {
      ChainedTrans(links, top.pprev, mid, bottom);
    }
  }

  lemma {:induction false} ChainedDescends(links: Links, top: BlockIndex, bottom: BlockIndex)
    requires Linked(top) && Chained(links, top, bottom)
    ensures Linked(bottom) && Descends(top, bottom)
    decreases top.nHeight
  {
    if top != bottom {
      ChainedDescends(links, top.pprev, bottom);
    }
  }

  lemma WaitsMore(v: seq<BlockIndex?>, noData: set<BlockIndex>, noData': set<BlockIndex>, links: Links, links': Links,
                  b: BlockIndex)
    requires Linked(b) && Waits(v, noData, links, b) && noData <= noData' && links <= links'
    ensures Waits(v, noData', links', b)
  {
    var bad :| bad in noData && !On(v, bad) && Chained(links, b, bad);
    ChainedMore(links, links', b, bad);
    assert bad in noData';
  }

  /** A block that waits is neither on the chain nor usable. */
  lemma WaitingUnusable(v: seq<BlockIndex?>, broken: set<BlockIndex>, noData: set<BlockIndex>, links: Links,
                        b: BlockIndex)
    requires Linked(b) && IsChain(v) && Waits(v, noData, links, b) && noData <= broken
    ensures !On(v, b) && !Usable(v, broken, b)
  {
    var bad :| bad in noData && !On(v, bad) && Chained(links, b, bad);
    ChainedDescends(links, b, bad);
    BadBelow(v, broken, b, bad);
  }

  /** The pairs recorded when a stretch is dropped lead down to its bad block. */
  lemma {:induction false} RelinkChained(links: Links, top: BlockIndex, bad: BlockIndex)
    requires Linked(top) && Descends(top, bad) && Relink(top, bad) <= links
    ensures forall c | c in Segment(top, bad) :: Linked(c) && Chained(links, c, bad)
    ensures forall x | x in Relink(top, bad) ::
      && Linked(x.1) && x.1.pprev == x.0 && Descends(top, x.1) && x.1.nHeight > bad.nHeight
      && Chained(links, x.0, bad)
    decreases top.nHeight
  {
    AncestorSelf(top);
    if top != bad {
      assert links[(top.pprev, top)] >= Relink(top, bad)[(top.pprev, top)] > 0;
      RelinkChained(links, top.pprev, bad);
      SegmentIs(top.pprev, bad, top.pprev);
      AncestorSelf(top.pprev);
      forall x | x in Relink(top, bad)
        ensures Linked(x.1) && x.1.pprev == x.0 && Descends(top, x.1) && x.1.nHeight > bad.nHeight
        ensures Chained(links, x.0, bad)
      {
        if x != (top.pprev, top) {
          assert x in Relink(top.pprev, bad);
        }
      }
    }
  }

  class Chainstate {
    const chain: CChain
    var blocks: set<BlockIndex>
    /** The ordered set of candidates, from its first element to its last, and what is in it. */
    var order: seq<BlockIndex>
    ghost var candidates: set<BlockIndex>
    var bestInvalid: BlockIndex?
    /** The recorded pairs, oldest first, and how often each is recorded. */
    var waiting: seq<(BlockIndex, BlockIndex)>
    ghost var unlinked: Links
    var nextSequence: int

    constructor (chain: CChain, blocks: set<BlockIndex>)
      ensures this.chain == chain && this.blocks == blocks && order == [] && candidates == {} && bestInvalid == null
      ensures waiting == [] && unlinked == multiset{} && nextSequence == SEQ_ID_INIT + 1
    {
      this.chain, this.blocks := chain, blocks;
      order, candidates, bestInvalid, waiting, unlinked := [], {}, null, [], multiset{};
      nextSequence := SEQ_ID_INIT + 1;
    }

    /** The block index is a closed tree; the chain lies in it; candidates have all their predecessors' transactions. */
    ghost predicate Sound()
      reads this`order, this`candidates, this`waiting, this`unlinked, this`blocks, chain`vChain
      reads blocks`pskip, blocks`chainTx
    {
      && Closed(blocks) && SkipsOk(blocks) && Apart(blocks)
      && chain.Valid() && (forall b | b in chain.vChain :: b in blocks)
      && Holds(order, candidates) && multiset(waiting) == unlinked
      && candidates <= blocks
      && (forall b | b in candidates :: b.chainTx != 0 || b.pprev == null)
      && (forall b | b in blocks && b.chainTx != 0 && b.pprev != null :: b.pprev.chainTx != 0)
    }

    /** The candidates are stored in the order of the keys they have now. */
    ghost predicate InOrder()
      reads this`order, this`blocks, blocks`sequenceId
    {
      forall i, j | 0 <= i < j < |order| :: order[i] in blocks && order[j] in blocks && Less(order[i], order[j])
    }

    ghost predicate Valid()
      reads this`order, this`candidates, this`waiting, this`unlinked, this`blocks, chain`vChain
      reads blocks`pskip, blocks`chainTx, blocks`sequenceId
    {
      Sound() && InOrder()
    }

    // ---- The ordered set ----

    /** Take a block out. In order, exactly that block goes; otherwise whatever the search comes to. */
    method Erase(b: BlockIndex)
      requires Sound() && b in blocks
      modifies this`order, this`candidates
      ensures Sound() && candidates <= old(candidates) && Erased(old(order), b, order)
      ensures old(InOrder()) ==> InOrder() && candidates == old(candidates) - {b}
    {
      hide SkipsOk, Closed, IsPath, Erased, Apart, InOrder, Ordered;
      OrderedNow();
      order := Erasure(order, b);
      candidates := set c | c in order;
      if old(InOrder()) {
        ErasedInOrder(blocks, old(order), b, order);
      }
      OrderedNow();
    }

    lemma OrderedNow()
      requires candidates <= blocks && Holds(order, candidates)
      ensures InOrder() <==> Ordered(order)
    {
      hide Less;
    }

    /** Put a block in. In order, it is in the set then; otherwise nothing is lost, and nothing else comes in. */
    method Insert(b: BlockIndex)
      requires Sound() && b in blocks && (b.chainTx != 0 || b.pprev == null)
      modifies this`order, this`candidates
      ensures Sound() && old(candidates) <= candidates <= old(candidates) + {b} && Inserted(old(order), b, order)
      ensures old(InOrder()) ==> InOrder() && candidates == old(candidates) + {b}
    {
      hide SkipsOk, Closed, IsPath, Inserted, Apart, InOrder, Ordered;
      OrderedNow();
      order := Insertion(order, b);
      candidates := set c | c in order;
      InsertedKeeps(old(order), b, order);
      if old(InOrder()) {
        InsertedInOrder(blocks, old(order), b, order);
      }
      OrderedNow();
    }

    /** The last element, or null; in order, the greatest. */
    method Greatest() returns (r: BlockIndex?)
      requires Sound()
      ensures (r == null <==> candidates == {}) && (r != null ==> r in candidates && r == order[|order| - 1])
      ensures InOrder() && r != null ==> forall c | c in candidates :: c == r || Less(c, r)
    {
      hide SkipsOk, Closed, IsPath, Apart, Less;
      r := if order == [] then null else order[|order| - 1];
      assert order != [] ==> order[|order| - 1] in candidates;
    }

    /** The first block on the way down to the chain that is failed or has no data. */
    method FirstBad(top: BlockIndex) returns (bad: BlockIndex?)
      requires Valid() && top in blocks && (top.chainTx != 0 || top.pprev == null)
      ensures bad == null <==> Usable(chain.vChain, Broken(blocks), top)
      ensures bad != null ==> bad in blocks && Descends(top, bad) && Bad(bad) && !On(chain.vChain, bad)
      ensures bad != null ==> ClearAbove(Broken(blocks), top, bad)
    {
      hide Ancestor, SkipsOk, Apart, Usable, ClearAbove, IsPath;
      var test: BlockIndex? := top;
      NothingAbove(Broken(blocks), top);
      while test != null && !chain.Contains(test)
        invariant test == null ==> Usable(chain.vChain, Broken(blocks), top)
        invariant test != null ==> test in blocks && Descends(top, test) && (test.chainTx != 0 || test.pprev == null)
        invariant test != null ==>
          (Usable(chain.vChain, Broken(blocks), top) <==> Usable(chain.vChain, Broken(blocks), test))
        invariant test != null ==> ClearAbove(Broken(blocks), top, test)
        decreases Above(test)
      {
        assert test.chainTx != 0 || test.nHeight == 0;
        OneDown(chain.vChain, Broken(blocks), top, test);
        if Bad(test) {
          return test;
        }
        test := test.pprev;
      }
      if test != null {
        OnIsUsable(chain.vChain, Broken(blocks), test);
      }
      bad := null;
    }

    method Record(parent: BlockIndex, child: BlockIndex)
      requires Sound()
      modifies this`waiting, this`unlinked
      ensures Sound() && waiting == old(waiting) + [(parent, child)]
      ensures unlinked == old(unlinked) + multiset{(parent, child)}
    {
      hide SkipsOk, Closed, IsPath, Apart;
      waiting, unlinked := waiting + [(parent, child)], unlinked + multiset{(parent, child)};
    }

    /** Take everything from `top` down to the bad block out of the candidates. */
    method RemoveChain(top: BlockIndex, bad: BlockIndex)
      requires Valid() && top in blocks && bad in blocks && Descends(top, bad) && Bad(bad)
      modifies this`order, this`candidates, this`waiting, this`unlinked
      ensures Valid() && candidates == old(candidates) - Segment(top, bad)
      ensures unlinked == if !bad.failed then old(unlinked) + Relink(top, bad) else old(unlinked)
    {
      hide Sound, InOrder, Ancestor, Segment, Relink;
      var failed := top;
      InIndex(top);
      while failed != bad
        invariant Valid() && failed in blocks && Linked(failed) && Descends(failed, bad)
        invariant candidates - Segment(failed, bad) == old(candidates) - Segment(top, bad)
        invariant !bad.failed ==> unlinked + Relink(failed, bad) == old(unlinked) + Relink(top, bad)
        invariant bad.failed ==> unlinked == old(unlinked)
        decreases failed.nHeight
      {
        RemoveOne(candidates, failed, bad, unlinked);
        InIndex(failed);
        if !bad.haveData && !bad.failed {
          Record(failed.pprev, failed);
        }
        Erase(failed);
        failed := failed.pprev;
      }
      Erase(bad);
      LastOne(bad);
    }

    lemma InIndex(top: BlockIndex)
      requires Sound() && top in blocks
      ensures Linked(top) && (top.pprev != null ==> top.pprev in blocks)
    {
    }

    /** Of the candidates there were, only unusable ones are gone. */
    ghost predicate OnlyUnusableGone(before: set<BlockIndex>)
      requires Closed(blocks) && before <= blocks
      reads this`candidates, this`blocks, chain`vChain, blocks`failed, blocks`haveData
    {
      candidates <= before && forall c | c in before && c !in candidates :: !Usable(chain.vChain, Broken(blocks), c)
    }

    /** Of the pairs recorded, only pairs of a child with data and a waiting parent are new. */
    ghost predicate OnlyWaitingLinked(before: Links)
      requires Closed(blocks)
      reads this`unlinked, this`blocks, chain`vChain, blocks`haveData
    {
      before <= unlinked && forall x | x in unlinked && x !in before ::
        LinkOk(chain.vChain, blocks, NoData(blocks), unlinked, x)
    }

    /** Of the candidates there were, one that is gone is built on a failed block or waits for data. */
    ghost predicate AllExcused(before: set<BlockIndex>)
      requires Closed(blocks) && before <= blocks
      reads this`candidates, this`unlinked, this`blocks, chain`vChain, blocks`failed, blocks`haveData
    {
      forall c | c in before && c !in candidates ::
        FailedBelow(chain.vChain, Failures(blocks), c) || Waits(chain.vChain, NoData(blocks), unlinked, c)
    }

    lemma NothingChanged()
      requires Closed(blocks) && candidates <= blocks
      ensures OnlyWaitingLinked(unlinked) && AllExcused(candidates)
    {
    }

    /** One round of the search: note the invalid candidate, and drop it with everything down to the bad block. */
    method DropBad(top: BlockIndex, bad: BlockIndex, ghost before: set<BlockIndex>, ghost links: Links)
      requires Valid() && before <= blocks && OnlyUnusableGone(before)
      requires top in candidates && bad in blocks && Descends(top, bad) && Bad(bad) && !On(chain.vChain, bad)
      requires ClearAbove(Broken(blocks), top, bad)
      requires OnlyWaitingLinked(links) && AllExcused(before)
      modifies this`order, this`candidates, this`waiting, this`unlinked, this`bestInvalid
      ensures Valid() && OnlyUnusableGone(before) && candidates < old(candidates) && top !in candidates
      ensures bestInvalid == if bad.failed && top.chainWork > WorkOf(old(bestInvalid)) then top else old(bestInvalid)
      ensures unlinked == if bad.failed then old(unlinked) else old(unlinked) + Relink(top, bad)
      ensures OnlyWaitingLinked(links) && AllExcused(before)
    {
      hide Usable, SkipsOk, IsPath, Ancestor, Relink, Segment, Apart, LinkOk, Waits, FailedBelow, ClearAbove;
      hide InOrder, Holds;
      ghost var links0 := unlinked;
      if bad.failed && (bestInvalid == null || top.chainWork > bestInvalid.chainWork) {
        bestInvalid := top;
      }
      SegmentUnusable(top, bad);
      RemoveChain(top, bad);
      DroppedLinks(links0, top, bad);
      DroppedExcused(links0, top, bad);
    }

    /** What was recorded before a stretch is dropped still holds, and so does what is recorded then. */
    lemma DroppedLinks(links0: Links, top: BlockIndex, bad: BlockIndex)
      requires Valid() && top in blocks && bad in blocks && Descends(top, bad) && Bad(bad) && !On(chain.vChain, bad)
      requires ClearAbove(Broken(blocks), top, bad)
      requires unlinked == if bad.failed then links0 else links0 + Relink(top, bad)
      ensures forall x | x in unlinked && x !in links0 :: LinkOk(chain.vChain, blocks, NoData(blocks), unlinked, x)
      ensures forall x | LinkOk(chain.vChain, blocks, NoData(blocks), links0, x) ::
        LinkOk(chain.vChain, blocks, NoData(blocks), unlinked, x)
    {
      hide Usable, SkipsOk, IsPath, Ancestor, Relink, Segment, Apart, Waits;
      var v, noData := chain.vChain, NoData(blocks);
      forall x | LinkOk(v, blocks, noData, links0, x)
        ensures LinkOk(v, blocks, noData, unlinked, x)
      {
        WaitsMore(v, noData, noData, links0, unlinked, x.0);
      }
      if !bad.failed {
        RelinkChained(unlinked, top, bad);
        forall x | x in unlinked && x !in links0
          ensures LinkOk(v, blocks, noData, unlinked, x)
        {
          assert x in Relink(top, bad);
          AncestorInTree(blocks, top, x.1.nHeight);
          assert Ancestor(top, x.1.nHeight) !in Broken(blocks);
          WaitsAt(v, noData, unlinked, x.0, bad);
        }
      }
    }

    /** A block of the dropped stretch is built on a failed block or waits for data. */
    lemma DroppedExcused(links0: Links, top: BlockIndex, bad: BlockIndex)
      requires Valid() && top in blocks && bad in blocks && Descends(top, bad) && Bad(bad) && !On(chain.vChain, bad)
      requires unlinked == if bad.failed then links0 else links0 + Relink(top, bad)
      ensures forall c | c in blocks && c in Segment(top, bad) ::
        FailedBelow(chain.vChain, Failures(blocks), c) || Waits(chain.vChain, NoData(blocks), unlinked, c)
      ensures forall c | c in blocks && Waits(chain.vChain, NoData(blocks), links0, c) ::
        Waits(chain.vChain, NoData(blocks), unlinked, c)
    {
      hide Usable, SkipsOk, IsPath, Ancestor, Relink, Segment, Apart, Waits;
      var v, noData := chain.vChain, NoData(blocks);
      if !bad.failed {
        RelinkChained(unlinked, top, bad);
      }
      forall c | c in blocks && c in Segment(top, bad)
        ensures FailedBelow(v, Failures(blocks), c) || Waits(v, noData, unlinked, c)
      {
        SegmentIs(top, bad, c);
        if bad.failed {
          assert bad in Failures(blocks);
        } else {
          WaitsAt(v, noData, unlinked, c, bad);
        }
      }
      forall c | c in blocks && Waits(v, noData, links0, c)
        ensures Waits(v, noData, unlinked, c)
      {
        WaitsMore(v, noData, noData, links0, unlinked, c);
      }
    }

    /** The best candidate whose way to the active chain is clear; candidates found unusable are dropped. */
    method FindMostWorkChain() returns (r: BlockIndex?)
      requires Valid()
      modifies this`order, this`candidates, this`waiting, this`unlinked, this`bestInvalid
      ensures Valid() && OnlyUnusableGone(old(candidates))
      ensures r == null <==> candidates == {}
      ensures r == null <==> forall c | c in old(candidates) :: !Usable(chain.vChain, Broken(blocks), c)
      ensures r != null ==> r in candidates && Usable(chain.vChain, Broken(blocks), r)
      ensures r != null ==>
        forall c | c in old(candidates) && Usable(chain.vChain, Broken(blocks), c) :: c == r || Less(c, r)
      ensures WorkOf(old(bestInvalid)) <= WorkOf(bestInvalid)
      ensures bestInvalid == old(bestInvalid) || bestInvalid in old(candidates) - candidates
      ensures OnlyWaitingLinked(old(unlinked)) && AllExcused(old(candidates))
      ensures NeverPruned() ==> unlinked == old(unlinked)
    {
      hide OnlyWaitingLinked, AllExcused, Usable, Less, Ancestor, NeverPruned, InOrder, Holds, SkipsOk, Apart, IsPath;
      ghost var before := candidates;
      NothingChanged();
      while true
        invariant Valid() && OnlyUnusableGone(before)
        invariant WorkOf(old(bestInvalid)) <= WorkOf(bestInvalid)
        invariant bestInvalid == old(bestInvalid) || bestInvalid in before - candidates
        invariant OnlyWaitingLinked(old(unlinked)) && AllExcused(before)
        invariant NeverPruned() ==> unlinked == old(unlinked)
        decreases |candidates|
      {
        r := Greatest();
        if r == null {
          return;
        }
        var bad := FirstBad(r);
        if bad == null {
          return;
        }
        ghost var was := candidates;
        if NeverPruned() {
          FailedThen(r, bad);
        }
        DropBad(r, bad, before, old(unlinked));
        Smaller(candidates, was);
      }
    }

    /** Every block that is counted, or is a root, still has its data. */
    ghost predicate NeverPruned()
      reads this`blocks, blocks`chainTx, blocks`haveData
    {
      forall b | b in blocks && (b.chainTx != 0 || b.pprev == null) :: b.haveData
    }

    lemma {:induction false} FailedThen(top: BlockIndex, bad: BlockIndex)
      requires Sound() && NeverPruned() && top in blocks && (top.chainTx != 0 || top.pprev == null)
      requires Descends(top, bad) && Bad(bad)
      ensures bad.failed
      decreases top.nHeight
    {
      if top != bad {
        FailedThen(top.pprev, bad);
      }
    }

    lemma SegmentUnusable(top: BlockIndex, bad: BlockIndex)
      requires Valid() && top in blocks && bad in blocks && Descends(top, bad) && Bad(bad) && !On(chain.vChain, bad)
      ensures top in Segment(top, bad)
      ensures forall c | c in blocks && c in Segment(top, bad) :: !Usable(chain.vChain, Broken(blocks), c)
    {
      AncestorSelf(top);
      SegmentIs(top, bad, top);
      forall c | c in blocks && c in Segment(top, bad)
        ensures !Usable(chain.vChain, Broken(blocks), c)
      {
        SegmentIs(top, bad, c);
        BadBelow(chain.vChain, Broken(blocks), c, bad);
      }
    }

    // ---- Keeping the candidates up to date ----

    ghost predicate Worse(b: BlockIndex)
      reads this`blocks, chain`vChain, blocks`sequenceId, b`sequenceId
    {
      chain.Tip() in blocks && Less(b, chain.Tip())
    }

    /** Blocks fit to be candidates and not worse than the tip. */
    ghost function Eligible(): set<BlockIndex>
      reads chain`vChain, this`blocks, blocks`failed, blocks`validity, blocks`chainTx, blocks`sequenceId
    {
      set b | b in blocks && CanBeCandidate(b) && !Worse(b)
    }

    lemma TipInBlocks()
      requires Sound() && chain.Tip() != null
      ensures chain.Tip() in blocks
    {
    }

    method Clear()
      requires Sound()
      modifies this`order, this`candidates
      ensures Valid() && candidates == {}
    {
      order, candidates := [], {};
    }

    /** Those of the stored blocks that stay in a refresh are in order among themselves. */
    ghost predicate EligibleInOrder()
      reads this`order, this`blocks, chain`vChain
      reads blocks`failed, blocks`validity, blocks`chainTx, blocks`sequenceId
    {
      forall i, j | 0 <= i < j < |order| && order[i] in Eligible() && order[j] in Eligible() :: Less(order[i], order[j])
    }

    /** Take out, place by place, the candidates that may not be or are worse than the tip. */
    method DropIneligible()
      requires Sound() && EligibleInOrder() && chain.Tip() != null
      modifies this`order, this`candidates
      ensures Valid() && candidates == old(candidates) * Eligible()
    {
      hide Less, SkipsOk, Apart, IsPath, Ancestor, Closed;
      var i := 0;
      while i < |order|
        invariant i <= |order| && Sound() && EligibleInOrder()
        invariant forall k | 0 <= k < i :: order[k] in Eligible()
        invariant candidates <= old(candidates) && forall c | c in old(candidates) && c in Eligible() :: c in candidates
        decreases |order| - i
      {
        if !CanBeCandidate(order[i]) || Less(order[i], chain.Tip()) {
          DropAt(i);
        } else {
          i := i + 1;
        }
      }
    }

    method DropAt(i: nat)
      requires Sound() && EligibleInOrder() && i < |order| && order[i] !in Eligible()
      modifies this`order, this`candidates
      ensures Sound() && EligibleInOrder() && order == old(order)[..i] + old(order)[i + 1..]
      ensures candidates <= old(candidates) && forall c | c in old(candidates) && c in Eligible() :: c in candidates
    {
      hide Less, SkipsOk, Apart, IsPath, Ancestor, Closed, Eligible, Worse;
      ghost var was := order;
      WithoutPlace(order, i);
      order := order[..i] + order[i + 1..];
      candidates := set c | c in order;
    }

    /**
      Bring the candidates in line with the block index; without a tip there are none. The set need not be in order
      before, as long as the blocks that stay are.
     */
    method RefreshBlockIndexCandidates()
      requires Sound() && (chain.Tip() != null ==> EligibleInOrder())
      modifies this`order, this`candidates
      ensures Valid() && candidates == if chain.Tip() == null then {} else Eligible()
    {
      hide Less, Sound, InOrder, EligibleInOrder, CanBeCandidate;
      var tip := chain.Tip();
      if tip == null {
        Clear();
        return;
      }
      DropIneligible();
      TipInBlocks();
      var todo := blocks;
      while todo != {}
        invariant todo <= blocks && candidates <= Eligible() && Valid() && tip in blocks
        invariant forall b | b in Eligible() && b !in todo :: b in candidates
      {
        var b :| b in todo;
        AddMissing(b);
        todo := todo - {b};
      }
    }

    method AddMissing(b: BlockIndex)
      requires Valid() && b in blocks && chain.Tip() in blocks
      modifies this`order, this`candidates
      ensures Valid() && candidates == if b in Eligible() then old(candidates) + {b} else old(candidates)
    {
      hide Sound, InOrder, Less;
      if CanBeCandidate(b) && !Less(b, chain.Tip()) {
        Insert(b);
      }
    }

    /** One block of the scan below. */
    method FlagOne(b: BlockIndex, invalid: BlockIndex)
      requires Valid() && b in blocks && invalid in blocks
      modifies b`failed
      ensures Linked(b) && (b.failed <==> old(b.failed) || (b != invalid && Descends(b, invalid)))
    {
      var a := b.GetAncestor(invalid.nHeight, blocks);
      if invalid != b && a == invalid {
        b.failed := true;
      }
    }

    /** Flag every proper descendant of a failed block. */
    method SetBlockFailureFlags(invalid: BlockIndex)
      requires Valid() && invalid in blocks
      modifies blocks`failed
      ensures Valid()
      ensures forall b | b in blocks :: b.failed <==> old(b.failed) || (b != invalid && Descends(b, invalid))
    {
      hide Descends, SkipsOk, Apart, IsPath;
      var todo := blocks;
      while todo != {}
        invariant todo <= blocks && Valid()
        invariant forall b | b in blocks && b in todo :: b.failed == old(b.failed)
        invariant forall b | b in blocks && b !in todo ::
          b.failed <==> old(b.failed) || (b != invalid && Descends(b, invalid))
      {
        var b :| b in todo;
        FlagOne(b, invalid);
        todo := todo - {b};
      }
    }

    /** A failed block off the chain was found: flag what is built on it and refresh the candidates. */
    method InvalidChainFound(b: BlockIndex)
      requires Valid() && b in blocks && b.failed && !On(chain.vChain, b) && chain.Tip() != null
      modifies this`order, this`candidates, this`bestInvalid, blocks`failed
      ensures Valid() && candidates == Eligible()
      ensures forall d | d in blocks :: d.failed <==> old(d.failed) || Descends(d, b)
      ensures forall d | d in blocks && Descends(d, b) :: d !in candidates && !Usable(chain.vChain, Broken(blocks), d)
      ensures bestInvalid == if b.chainWork > WorkOf(old(bestInvalid)) then b else old(bestInvalid)
    {
      hide Holds, SkipsOk, Apart, IsPath, Less;
      if bestInvalid == null || b.chainWork > bestInvalid.chainWork {
        bestInvalid := b;
      }
      SetBlockFailureFlags(b);
      RefreshBlockIndexCandidates();
      AncestorSelf(b);
      forall d | d in blocks && Descends(d, b)
        ensures d !in candidates && !Usable(chain.vChain, Broken(blocks), d)
      {
        BadBelow(chain.vChain, Broken(blocks), d, b);
      }
    }

    /** A block failed validation, unless its data was merely tampered with in transit. */
    method InvalidBlockFound(b: BlockIndex, mutated: bool)
      requires Valid() && b in blocks && !On(chain.vChain, b) && chain.Tip() != null
      modifies this`order, this`candidates, this`bestInvalid, blocks`failed
      ensures Valid()
      ensures mutated ==>
        candidates == old(candidates) && bestInvalid == old(bestInvalid) && forall d | d in blocks ::
          d.failed == old(d.failed)
      ensures !mutated ==> candidates == Eligible()
      ensures !mutated ==> bestInvalid == if b.chainWork > WorkOf(old(bestInvalid)) then b else old(bestInvalid)
      ensures !mutated ==> forall d | d in blocks :: d.failed <==> old(d.failed) || Descends(d, b)
      ensures !mutated ==>
        forall d | d in blocks && Descends(d, b) :: d !in candidates && !Usable(chain.vChain, Broken(blocks), d)
    {
      hide Holds, InOrder, SkipsOk, Apart, IsPath, Less;
      if !mutated {
        AncestorSelf(b);
        b.failed := true;
        Erase(b);
        InvalidChainFound(b);
      }
    }

    method IsRelated(b: BlockIndex, p: BlockIndex) returns (r: bool)
      requires Valid() && b in blocks && p in blocks
      ensures Linked(b) && Linked(p) && (r <==> Related(b, p))
    {
      var up := b.GetAncestor(p.nHeight, blocks);
      var down := p.GetAncestor(b.nHeight, blocks);
      r := up == p || down == b;
    }

    /** One block of the scan below. */
    method ResetOne(b: BlockIndex, p: BlockIndex)
      requires Valid() && b in blocks && p in blocks && chain.Tip() != null
      modifies this`order, this`candidates, this`bestInvalid, b`failed
      ensures Valid() && Linked(b) && Linked(p) && (b.failed <==> old(b.failed) && !Related(b, p))
      ensures candidates == if old(b.failed) && Related(b, p) && CanBeCandidate(b) && Less(chain.Tip(), b)
                            then old(candidates) + {b} else old(candidates)
      ensures bestInvalid == if old(b.failed) && Related(b, p) && b == old(bestInvalid) then null else old(bestInvalid)
    {
      hide Related, Sound, InOrder, Ancestor, Less;
      var related := IsRelated(b, p);
      if b.failed && related {
        b.failed := false;
        if CanBeCandidate(b) && Less(chain.Tip(), b) {
          Insert(b);
        }
        if b == bestInvalid {
          bestInvalid := null;
        }
      }
    }

    /** The candidates a reset adds: blocks freed of the flag that may be candidates and beat the tip. */
    ghost predicate Readmitted(b: BlockIndex, was: bool, p: BlockIndex)
      requires Linked(b) && Linked(p)
      reads this`blocks, chain`vChain, blocks`sequenceId, b`failed, b`validity, b`chainTx, b`sequenceId
    {
      was && Related(b, p) && CanBeCandidate(b) && chain.Tip() in blocks && Less(chain.Tip(), b)
    }

    /** Clear the flag on a block, its descendants and its ancestors; better ones become candidates again. */
    method ResetBlockFailureFlags(p: BlockIndex)
      requires Valid() && p in blocks && chain.Tip() != null
      modifies this`order, this`candidates, this`bestInvalid, blocks`failed
      ensures Valid()
      ensures forall b | b in blocks :: b.failed <==> old(b.failed) && !Related(b, p)
      ensures forall b | b in blocks :: b in candidates <==> b in old(candidates) || Readmitted(b, old(b.failed), p)
      ensures bestInvalid ==
        if old(bestInvalid) in blocks && old(bestInvalid.failed) && Related(old(bestInvalid), p) then null
        else old(bestInvalid)
    {
      hide Related, SkipsOk, Apart, IsPath, CanBeCandidate, Less, InOrder, Holds;
      var todo := blocks;
      while todo != {}
        invariant todo <= blocks && Valid()
        invariant forall b | b in blocks && b in todo ::
          b.failed == old(b.failed) && (b in candidates <==> b in old(candidates))
        invariant bestInvalid ==
          if old(bestInvalid) in blocks - todo && old(bestInvalid.failed) && Related(old(bestInvalid), p) then null
          else old(bestInvalid)
        invariant forall b | b in blocks && b !in todo :: b.failed <==> old(b.failed) && !Related(b, p)
        invariant forall b | b in blocks && b !in todo ::
          b in candidates <==> b in old(candidates) || Readmitted(b, old(b.failed), p)
      {
        var b :| b in todo;
        ResetOne(b, p);
        todo := todo - {b};
      }
    }

    method TryAddBlockIndexCandidate(b: BlockIndex)
      requires Sound() && b in blocks && (b.chainTx != 0 || b.pprev == null)
      modifies this`order, this`candidates
      ensures Sound() && old(candidates) <= candidates <= old(candidates) + {b}
      ensures Worse(b) ==> order == old(order) && candidates == old(candidates)
      ensures old(InOrder()) ==> InOrder() && (!Worse(b) ==> candidates == old(candidates) + {b})
    {
      if chain.Tip() != null && Less(b, chain.Tip()) {
        return;
      }
      Insert(b);
    }

    /** Drop the candidates worse than the tip, from the low end of the set. */
    method PruneBlockIndexCandidates()
      requires Valid() && chain.Tip() != null
      requires exists c :: c in candidates && !Worse(c)
      modifies this`order, this`candidates
      ensures Valid() && candidates == (set c | c in old(candidates) && !Worse(c)) && candidates != {}
    {
      hide Less, SkipsOk, Apart, IsPath, Ancestor, Closed;
      ghost var keep :| keep in candidates && !Worse(keep);
      while order != [] && Less(order[0], chain.Tip())
        invariant Valid() && keep in candidates && candidates <= old(candidates)
        invariant forall c | c in old(candidates) && c !in candidates :: Worse(c)
        decreases |order|
      {
        DropFirst();
      }
      NoneWorseLeft();
    }

    method DropFirst()
      requires Valid() && order != []
      modifies this`order, this`candidates
      ensures Valid() && order == old(order)[1..] && candidates == old(candidates) - {old(order)[0]}
    {
      hide SkipsOk, IsPath, Ancestor, Closed;
      ghost var first, rest := order[0], order[1..];
      assert order == [first] + rest;
      order, candidates := order[1..], candidates - {first};
      forall k | 0 <= k < |rest|
        ensures rest[k] != first
      {
        assert rest[k] == old(order)[k + 1];
      }
    }

    /** If the first candidate is not worse than the tip, none is. */
    lemma NoneWorseLeft()
      requires Valid() && chain.Tip() != null && (order == [] || !Less(order[0], chain.Tip()))
      ensures forall c | c in candidates :: !Worse(c)
    {
      hide SkipsOk, IsPath, Ancestor, Closed;
    }
  }

  lemma LastOne(b: BlockIndex)
    requires Linked(b)
    ensures Descends(b, b) && Segment(b, b) == {b} && Relink(b, b) == multiset{}
  {
  }

  lemma WithoutPlace(s: seq<BlockIndex>, i: nat)
    requires i < |s|
    ensures
      var s' := s[..i] + s[i + 1..];
      && (forall k | 0 <= k < |s'| :: s'[k] == s[if k < i then k else k + 1])
      && (forall c | c in s && c != s[i] :: c in s') && (forall c | c in s' :: c in s)
  {
    var s' := s[..i] + s[i + 1..];
    forall c | c in s && c != s[i]
      ensures c in s'
    {
      var k :| 0 <= k < |s| && s[k] == c;
      assert s'[if k < i then k else k - 1] == c;
    }
  }

  lemma Smaller(a: set<BlockIndex>, b: set<BlockIndex>)
    requires a < b
    ensures |a| < |b|
  {
    assert b == a + (b - a);
  }

  ghost function WorkOf(b: BlockIndex?): int {
    if b == null then -1 else b.chainWork
  }

  lemma WaitsAt(v: seq<BlockIndex?>, noData: set<BlockIndex>, links: Links, b: BlockIndex, bad: BlockIndex)
    requires Linked(b) && bad in noData && !On(v, bad) && Chained(links, b, bad)
    ensures Waits(v, noData, links, b)
  {
  }

  lemma RemoveOne(candidates: set<BlockIndex>, top: BlockIndex, bottom: BlockIndex, unlinked: Links)
    requires Linked(top) && Descends(top, bottom) && top != bottom
    ensures top.pprev != null && top.pprev.nHeight < top.nHeight && Descends(top.pprev, bottom)
    ensures candidates - Segment(top, bottom) == candidates - {top} - Segment(top.pprev, bottom)
    ensures unlinked + Relink(top, bottom) == unlinked + multiset{(top.pprev, top)} + Relink(top.pprev, bottom)
  {
  }

  /** Parent and child pairs of the blocks from `top` down to, but without, `bottom`. */
  ghost function Relink(top: BlockIndex, bottom: BlockIndex): Links
    requires Linked(top) && Descends(top, bottom)
    decreases top.nHeight
  {
    if top == bottom then multiset{} else multiset{(top.pprev, top)} + Relink(top.pprev, bottom)
  }
}
