/**
  What the recorded pairs are for: they lead every block that was passed over down to the data it waits for.
  Here the state is values only: the chain, the blocks, those without data, those whose transactions are
  counted from the root on, and the pairs.
 */
module MostWorkLinks {
  import opened Chain
  import opened MostWorkOrder
  import opened MostWork

  /** Transactions are counted from the root on, as far as there is data. */
  ghost predicate CountsOk(blocks: set<BlockIndex>, noData: set<BlockIndex>, counted: set<BlockIndex>) {
    forall b | b in blocks ::
      && (b in counted && b.pprev != null ==> b.pprev in counted)
      && (b !in noData && (b.pprev == null || b.pprev in counted) ==> b in counted)
  }

  /** A block with data whose parent is not counted is recorded. */
  ghost predicate LinksComplete(blocks: set<BlockIndex>, noData: set<BlockIndex>, counted: set<BlockIndex>,
                                links: Links) {
    forall b | b in blocks && b !in noData && b.pprev != null && b.pprev !in counted :: (b.pprev, b) in links
  }

  ghost predicate LinksSound(v: seq<BlockIndex?>, blocks: set<BlockIndex>, noData: set<BlockIndex>, links: Links)
    requires Closed(blocks)
  {
    forall x | x in links :: LinkOk(v, blocks, noData, links, x)
  }

  ghost predicate ChainCounted(v: seq<BlockIndex?>, counted: set<BlockIndex>) {
    forall b | b in v :: b in counted
  }

  ghost predicate GraphOk(v: seq<BlockIndex?>, blocks: set<BlockIndex>, noData: set<BlockIndex>,
                          counted: set<BlockIndex>,
                          links: Links)
  {
    && Closed(blocks) && IsChain(v) && noData <= blocks && ChainCounted(v, counted)
    && CountsOk(blocks, noData, counted) && LinksComplete(blocks, noData, counted, links)
    && LinksSound(v, blocks, noData, links)
  }

  // ---- Blocks reached from one that arrives ----

  /** The blocks that the recorded pairs lead up to from `p`. */
  ghost function Reached(blocks: set<BlockIndex>, links: Links, p: BlockIndex): set<BlockIndex>
    requires Closed(blocks)
  {
    set c | c in blocks && Chained(links, c, p)
  }

  /** The pairs left when those above the blocks of a set are taken out. */
  ghost predicate Drained(links: Links, links': Links, done: set<BlockIndex>) {
    links' <= links && forall x | x in links :: links'[x] == if x.0 in done then 0 else links[x]
  }

  /** A way down that does not pass through a reached block is still recorded. */
  lemma {:induction false} ChainedStays(blocks: set<BlockIndex>, links: Links, links': Links, p: BlockIndex,
                                        top: BlockIndex, bottom: BlockIndex)
    requires Closed(blocks) && Drained(links, links', Reached(blocks, links, p))
    requires top in blocks && Chained(links, top, bottom)
    ensures top in Reached(blocks, links, p) || Chained(links', top, bottom)
    decreases top.nHeight
  {
    if top != bottom {
      InTree(blocks, top);
      ChainedStays(blocks, links, links', p, top.pprev, bottom);
      assert links'[(top.pprev, top)] == if top.pprev in Reached(blocks, links, p) then 0 else links[(top.pprev, top)];
    }
  }

  /** When `p` arrives, a block not reached from it waits for the same data as before. */
  lemma WaitsOn(v: seq<BlockIndex?>, blocks: set<BlockIndex>, noData: set<BlockIndex>, links: Links, links': Links,
                p: BlockIndex, b: BlockIndex)
    requires Closed(blocks) && Drained(links, links', Reached(blocks, links, p))
    requires b in blocks && b !in Reached(blocks, links, p) && Waits(v, noData, links, b)
    ensures Waits(v, noData - {p}, links', b)
  {
    var bad :| bad in noData && !On(v, bad) && Chained(links, b, bad);
    ChainedStays(blocks, links, links', p, b, bad);
    assert bad != p;
    WaitsAt(v, noData - {p}, links', b, bad);
  }

  lemma ArrivalLinks(v: seq<BlockIndex?>, blocks: set<BlockIndex>, noData: set<BlockIndex>, links: Links, links': Links,
                     p: BlockIndex)
    requires Closed(blocks) && LinksSound(v, blocks, noData, links) && Drained(links, links', Reached(blocks, links, p))
    ensures LinksSound(v, blocks, noData - {p}, links')
  {
    hide Waits, Chained, Reached;
    forall x | x in links'
      ensures LinkOk(v, blocks, noData - {p}, links', x)
    {
      assert links'[x] <= links[x];
      assert x in links && LinkOk(v, blocks, noData, links, x);
      InTree(blocks, x.1);
      WaitsOn(v, blocks, noData, links, links', p, x.0);
    }
  }

  lemma ReachedUp(blocks: set<BlockIndex>, links: Links, p: BlockIndex, c: BlockIndex)
    requires Closed(blocks) && c in blocks && c.pprev != null
    ensures (c.pprev, c) in links && c.pprev in Reached(blocks, links, p) ==> c in Reached(blocks, links, p)
    ensures c in Reached(blocks, links, p) && c != p ==> (c.pprev, c) in links && c.pprev in Reached(blocks, links, p)
  {
    InTree(blocks, c);
  }

  /** Counting the reached blocks restores the bookkeeping. */
  lemma ArrivalGraph(v: seq<BlockIndex?>, blocks: set<BlockIndex>, noData: set<BlockIndex>, counted: set<BlockIndex>,
                     links: Links, links': Links, p: BlockIndex)
    requires GraphOk(v, blocks, noData, counted, links) && p in blocks && (p.pprev == null || p.pprev in counted)
    requires Drained(links, links', Reached(blocks, links, p))
    ensures GraphOk(v, blocks, noData - {p}, counted + Reached(blocks, links, p), links')
  {
    hide Reached, LinkOk, IsChain;
    var reached := Reached(blocks, links, p);
    ArrivalLinks(v, blocks, noData, links, links', p);
    SelfReached(blocks, links, p);
    forall b | b in blocks
      ensures b in counted + reached && b.pprev != null ==> b.pprev in counted + reached
      ensures b !in noData - {p} && (b.pprev == null || b.pprev in counted + reached) ==> b in counted + reached
      ensures b !in noData - {p} && b.pprev != null && b.pprev !in counted + reached ==> (b.pprev, b) in links'
    {
      if b.pprev != null {
        ReachedUp(blocks, links, p, b);
        if (b.pprev, b) in links {
          assert links'[(b.pprev, b)] == if b.pprev in reached then 0 else links[(b.pprev, b)];
        }
      }
    }
  }

  lemma SelfReached(blocks: set<BlockIndex>, links: Links, p: BlockIndex)
    requires Closed(blocks) && p in blocks
    ensures p in Reached(blocks, links, p) && Reached(blocks, links, p) <= blocks
  {
  }

  /** Only the block itself can be reached without waiting, so the chain is not touched. */
  lemma ReachedWaits(v: seq<BlockIndex?>, blocks: set<BlockIndex>, noData: set<BlockIndex>, counted: set<BlockIndex>,
                     links: Links,
                     p: BlockIndex, c: BlockIndex)
    requires GraphOk(v, blocks, noData, counted, links) && c in Reached(blocks, links, p) && c != p
    ensures !On(v, c) && c !in noData
  {
    InTree(blocks, c);
    var x := (c.pprev, c);
    assert x in links && LinkOk(v, blocks, noData, links, x);
    WaitingUnusable(v, noData, noData, links, c.pprev);
    ParentOn(v, c);
  }

  // ---- A block that arrives before its ancestors ----

  /** A block that is not counted waits for data. */
  lemma {:induction false} UncountedWaits(v: seq<BlockIndex?>, blocks: set<BlockIndex>, noData: set<BlockIndex>,
                                          counted: set<BlockIndex>,
                                          links: Links, b: BlockIndex)
    requires GraphOk(v, blocks, noData, counted, links) && b in blocks && b !in counted
    ensures exists bad | bad in noData :: !On(v, bad) && Chained(links, b, bad) && bad.nHeight <= b.nHeight
    decreases b.nHeight
  {
    InTree(blocks, b);
    if b in noData {
      assert !On(v, b);
      assert Chained(links, b, b);
    } else {
      UncountedWaits(v, blocks, noData, counted, links, b.pprev);
      var bad :| bad in noData && !On(v, bad) && Chained(links, b.pprev, bad) && bad.nHeight <= b.pprev.nHeight;
      assert Chained(links, b, bad);
    }
  }

  /** With its pair recorded, the block that has arrived waits for the data below. */
  lemma NewLinkWaits(v: seq<BlockIndex?>, blocks: set<BlockIndex>, noData: set<BlockIndex>, counted: set<BlockIndex>,
                     links: Links, p: BlockIndex)
    requires GraphOk(v, blocks, noData, counted, links) && p in blocks && p.pprev != null && p.pprev !in counted
    ensures
      var links' := links + multiset{(p.pprev, p)};
      Linked(p) && Linked(p.pprev) && Waits(v, noData - {p}, links', p.pprev) && Waits(v, noData - {p}, links', p)
  {
    InTree(blocks, p);
    UncountedWaits(v, blocks, noData, counted, links, p.pprev);
    var bad :| bad in noData && !On(v, bad) && Chained(links, p.pprev, bad) && bad.nHeight <= p.pprev.nHeight;
    var links' := links + multiset{(p.pprev, p)};
    ChainedMore(links, links', p.pprev, bad);
    assert bad in noData - {p};
    assert Chained(links', p, bad);
  }

  /** Whatever waited for the block that has arrived now waits for what that one waits for. */
  lemma WaitsFurther(v: seq<BlockIndex?>, noData: set<BlockIndex>, links: Links, links': Links, p: BlockIndex,
                     b: BlockIndex)
    requires Linked(b) && Linked(p) && links <= links' && Waits(v, noData, links, b)
    requires Waits(v, noData - {p}, links', p)
    ensures Waits(v, noData - {p}, links', b)
  {
    var bad :| bad in noData && !On(v, bad) && Chained(links, b, bad);
    ChainedMore(links, links', b, bad);
    if bad == p {
      var below :| below in noData - {p} && !On(v, below) && Chained(links', p, below);
      ChainedTrans(links', b, p, below);
      WaitsAt(v, noData - {p}, links', b, below);
    } else {
      WaitsAt(v, noData - {p}, links', b, bad);
    }
  }

  lemma EarlyGraph(v: seq<BlockIndex?>, blocks: set<BlockIndex>, noData: set<BlockIndex>, counted: set<BlockIndex>,
                   links: Links, p: BlockIndex)
    requires GraphOk(v, blocks, noData, counted, links) && p in blocks && p.pprev != null && p.pprev !in counted
    ensures GraphOk(v, blocks, noData - {p}, counted, links + multiset{(p.pprev, p)})
  {
    hide Waits, IsChain;
    var links' := links + multiset{(p.pprev, p)};
    NewLinkWaits(v, blocks, noData, counted, links, p);
    forall x | x in links'
      ensures LinkOk(v, blocks, noData - {p}, links', x)
    {
      if x in links {
        assert LinkOk(v, blocks, noData, links, x);
        InTree(blocks, x.1);
        WaitsFurther(v, noData, links, links', p, x.0);
      } else {
        assert x == (p.pprev, p);
      }
    }
  }

  // ---- Data that goes ----

  /** The pairs left when those of one child are taken out. */
  ghost predicate Dropped(links: Links, links': Links, p: BlockIndex) {
    links' <= links && forall x | x in links :: links'[x] == if x.1 == p then 0 else links[x]
  }

  lemma {:induction false} ChainedToPruned(links: Links, links': Links, p: BlockIndex, top: BlockIndex,
                                           bottom: BlockIndex)
    requires Linked(top) && Linked(p) && Dropped(links, links', p) && Chained(links, top, bottom)
    ensures Chained(links', top, bottom) || (Chained(links', top, p) && Chained(links, p, bottom))
    decreases top.nHeight
  {
    if top != bottom && top != p {
      ChainedToPruned(links, links', p, top.pprev, bottom);
      assert links'[(top.pprev, top)] == links[(top.pprev, top)];
    }
  }

  /** A block that waited through `p` now waits for the data of `p` itself. */
  lemma WaitsForPruned(v: seq<BlockIndex?>, noData: set<BlockIndex>, links: Links, links': Links, p: BlockIndex,
                       b: BlockIndex)
    requires Linked(b) && Linked(p) && IsChain(v) && Dropped(links, links', p) && Waits(v, noData, links, b)
    ensures Waits(v, noData + {p}, links', b)
  {
    var bad :| bad in noData && !On(v, bad) && Chained(links, b, bad);
    ChainedToPruned(links, links', p, b, bad);
    if Chained(links', b, bad) {
      WaitsAt(v, noData + {p}, links', b, bad);
    } else {
      ChainedDescends(links, p, bad);
      BadBelow(v, {bad}, p, bad);
      WaitsAt(v, noData + {p}, links', b, p);
    }
  }

  lemma PruneGraph(v: seq<BlockIndex?>, blocks: set<BlockIndex>, noData: set<BlockIndex>, counted: set<BlockIndex>,
                   links: Links, links': Links, p: BlockIndex)
    requires GraphOk(v, blocks, noData, counted, links) && p in blocks && Dropped(links, links', p)
    ensures GraphOk(v, blocks, noData + {p}, counted, links')
  {
    hide Waits, IsChain;
    InTree(blocks, p);
    forall x | x in links'
      ensures LinkOk(v, blocks, noData + {p}, links', x)
    {
      assert links'[x] <= links[x];
      assert x in links && LinkOk(v, blocks, noData, links, x);
      InTree(blocks, x.1);
      WaitsForPruned(v, noData, links, links', p, x.0);
    }
    forall b | b in blocks && b !in noData + {p} && b.pprev != null && b.pprev !in counted
      ensures (b.pprev, b) in links'
    {
      assert links'[(b.pprev, b)] == links[(b.pprev, b)];
    }
  }

  // ---- The chain moves, the tree grows, more pairs are recorded ----

  /** Moving the chain to a block that can be used takes away nothing that is waited for. */
  lemma WaitsAfterMove(v: seq<BlockIndex?>, v': seq<BlockIndex?>, broken: set<BlockIndex>, noData: set<BlockIndex>,
                       links: Links,
                       tip: BlockIndex, b: BlockIndex)
    requires Linked(b) && Linked(tip) && IsChain(v) && IsPath(v', tip) && Usable(v, broken, tip) && noData <= broken
    requires Waits(v, noData, links, b)
    ensures Waits(v', noData, links, b)
  {
    var bad :| bad in noData && !On(v, bad) && Chained(links, b, bad);
    ChainedDescends(links, b, bad);
    if On(v', bad) {
      UsableBelow(v, broken, tip, bad);
    }
    WaitsAt(v', noData, links, b, bad);
  }

  lemma {:induction false} PathCounted(blocks: set<BlockIndex>, noData: set<BlockIndex>, counted: set<BlockIndex>,
                                       b: BlockIndex, h: nat)
    requires Closed(blocks) && CountsOk(blocks, noData, counted) && b in blocks && b in counted && h <= b.nHeight
    ensures Ancestor(b, h) in counted
    decreases b.nHeight
  {
    InTree(blocks, b);
    if h < b.nHeight {
      PathCounted(blocks, noData, counted, b.pprev, h);
    }
  }

  lemma MoveGraph(v: seq<BlockIndex?>, v': seq<BlockIndex?>, broken: set<BlockIndex>, blocks: set<BlockIndex>,
                  noData: set<BlockIndex>,
                  counted: set<BlockIndex>, links: Links, tip: BlockIndex)
    requires GraphOk(v, blocks, noData, counted, links) && noData <= broken
    requires tip in blocks && tip in counted && IsPath(v', tip) && Usable(v, broken, tip)
    ensures GraphOk(v', blocks, noData, counted, links)
  {
    hide Waits, Usable, Ancestor;
    InTree(blocks, tip);
    LastOfPath(v', tip);
    forall i | 0 <= i < |v'|
      ensures v'[i] in counted
    {
      PathCounted(blocks, noData, counted, tip, i);
    }
    forall x | x in links
      ensures LinkOk(v', blocks, noData, links, x)
    {
      assert LinkOk(v, blocks, noData, links, x);
      InTree(blocks, x.1);
      WaitsAfterMove(v, v', broken, noData, links, tip, x.0);
    }
  }

  lemma LastOfPath(v: seq<BlockIndex?>, tip: BlockIndex)
    requires Linked(tip) && IsPath(v, tip)
    ensures IsChain(v) && v != [] && v[|v| - 1] == tip
  {
    AncestorSelf(tip);
  }

  lemma HeaderGraph(v: seq<BlockIndex?>, blocks: set<BlockIndex>, noData: set<BlockIndex>, counted: set<BlockIndex>,
                    links: Links,
                    b: BlockIndex)
    requires GraphOk(v, blocks, noData, counted, links) && Closed(blocks + {b}) && b !in blocks && b !in counted
    ensures GraphOk(v, blocks + {b}, noData + {b}, counted, links)
  {
    hide Waits, IsChain;
    forall x | x in links
      ensures LinkOk(v, blocks + {b}, noData + {b}, links, x)
    {
      assert LinkOk(v, blocks, noData, links, x);
      InTree(blocks, x.1);
      WaitsMore(v, noData, noData + {b}, links, links, x.0);
    }
  }

  lemma MoreLinksGraph(v: seq<BlockIndex?>, blocks: set<BlockIndex>, noData: set<BlockIndex>, counted: set<BlockIndex>,
                       links: Links, links': Links)
    requires GraphOk(v, blocks, noData, counted, links) && links <= links'
    requires forall x | x in links' && x !in links :: LinkOk(v, blocks, noData, links', x)
    ensures GraphOk(v, blocks, noData, counted, links')
  {
    hide Waits, IsChain;
    forall x | x in links'
      ensures LinkOk(v, blocks, noData, links', x)
    {
      if x in links {
        assert LinkOk(v, blocks, noData, links, x);
        InTree(blocks, x.1);
        WaitsMore(v, noData, noData, links, links', x.0);
      }
    }
    forall b | b in blocks && b !in noData && b.pprev != null && b.pprev !in counted
      ensures (b.pprev, b) in links'
    {
      assert links[(b.pprev, b)] <= links'[(b.pprev, b)];
    }
  }
}
