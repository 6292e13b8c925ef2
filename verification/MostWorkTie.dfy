/**
  An arrival that is not calm: a history that pruning allows, after which the last candidate in the set is worse than
  the tip.
 */
module MostWorkTie {
  import opened Chain
  import opened MostWorkOrder
  import opened MostWork
  import opened MostWorkLinks
  import opened MostWorkQueue
  import opened MostWorkState
  import opened MostWorkTurns
  import opened MostWorkArrival
  import opened MostWorkCalm
  import opened MostWorkMoves
  import opened MostWorkActivation
  import opened MostWorkBest
  import opened MostWorkRuns

  const LEVELS: nat := MIN_BLOCKS_TO_KEEP + 1

  /** A heavy block and a chain of light ones on the genesis block; `top` is the last of the light ones, at height n. */
  ghost predicate Tower(cs: Chainstate, g: BlockIndex, heavy: BlockIndex, top: BlockIndex, n: nat)
    reads cs`blocks, cs.blocks
  {
    && {g, heavy, top} <= cs.blocks && heavy != g && heavy != top && g.pprev == null && heavy.pprev == g
    && heavy.chainWork == LEVELS + 1 && heavy.chainTx != 0 && heavy.validity >= VALID_TRANSACTIONS && g.chainTx != 0
    && top.nHeight == n && top.chainWork == n + 1 && !top.failed
    && (forall x | x in cs.blocks :: x.pprev != heavy && x.address < n + 2)
    && (forall x | x in cs.blocks && x != heavy && x != top :: x.haveData && !x.failed && x.chainWork <= n)
  }

  /** Nothing is built on the block, so nothing else is reached from it. */
  lemma {:induction false} Lonely(blocks: set<BlockIndex>, links: Links, p: BlockIndex, c: BlockIndex)
    requires Closed(blocks) && c in blocks && Chained(links, c, p) && forall x | x in blocks :: x.pprev != p
    ensures c == p
    decreases c.nHeight
  {
    if c != p {
      InTree(blocks, c);
      Lonely(blocks, links, p, c.pprev);
    }
  }

  lemma OnlyItself(blocks: set<BlockIndex>, links: Links, p: BlockIndex)
    requires Closed(blocks) && p in blocks && forall x | x in blocks :: x.pprev != p
    ensures Reached(blocks, links, p) == {p}
  {
    hide Chained;
    SelfReached(blocks, links, p);
    forall c | c in Reached(blocks, links, p)
      ensures c == p
    {
      Lonely(blocks, links, p, c);
    }
  }

  /** Blocks with data that have not failed, down to the genesis block, can be used. */
  lemma {:induction false} AllUsable(v: seq<BlockIndex?>, broken: set<BlockIndex>, blocks: set<BlockIndex>,
                                     heavy: BlockIndex, b: BlockIndex)
    requires Closed(blocks) && b in blocks && b != heavy && forall x | x in blocks :: x.pprev != heavy
    requires forall x | x in blocks && x != heavy :: x !in broken
    ensures Linked(b) && Usable(v, broken, b)
    decreases b.nHeight
  {
    InTree(blocks, b);
    if b.pprev != null {
      AllUsable(v, broken, blocks, heavy, b.pprev);
    }
  }

  lemma IndexTree(cs: Chainstate)
    requires cs.Valid()
    ensures Closed(cs.blocks)
  {
  }

  lemma SettledFacts(cs: Chainstate)
    requires cs.Valid() && Settled(cs)
    ensures Closed(cs.blocks) && cs.chain.Tip() in cs.blocks && CanBeCandidate(cs.chain.Tip())
    ensures cs.chain.Tip().haveData && (forall b | b in cs.blocks :: b.sequenceId < cs.nextSequence)
    ensures cs.chain.Tip() in cs.candidates && cs.candidates <= cs.blocks
  {
    TipIsCandidate(cs);
  }

  // ---- Steps ----

  /** The data of a block arrives on which nothing is built. */
  method ReceiveLone(cs: Chainstate, p: BlockIndex) returns (ghost intact: bool)
    requires Good(cs) && p in cs.blocks && !p.haveData && !p.failed && Open(p)
    requires forall x | x in cs.blocks :: x.pprev != p
    modifies cs`order, cs`candidates, cs`waiting, cs`unlinked, cs`nextSequence
    modifies cs.blocks`chainTx, cs.blocks`sequenceId, cs.blocks`nTx, cs.blocks`haveData, cs.blocks`validity
    ensures (intact <==> old(Calm(cs, p))) && (intact ==> Good(cs)) && (old(Unpruned(cs)) ==> intact && Unpruned(cs))
    ensures cs.Sound() && p.haveData && p.validity >= VALID_TRANSACTIONS && p.chainTx != 0
    ensures old(cs.nextSequence) <= p.sequenceId
    ensures forall b | b in cs.blocks && b != p ::
      && b.haveData == old(b.haveData) && b.validity == old(b.validity)
      && b.chainTx == old(b.chainTx) && b.sequenceId == old(b.sequenceId)
    ensures cs.Worse(p) ==> cs.order == old(cs.order)
  {
    hide Settled, Chainstate.Sound, Chainstate.InOrder, NoneWorse, Unpruned, Reached, Chainstate.Worse, Calm, Open;
    IndexTree(cs);
    OnlyItself(cs.blocks, cs.unlinked, p);
    intact := Receive(cs, p, 1);
  }

  method Plant() returns (cs: Chainstate, g: BlockIndex, heavy: BlockIndex)
    ensures fresh(cs) && fresh(cs.chain) && fresh(cs.blocks) && Good(cs) && Unpruned(cs) && cs.chain.Tip() == g
    ensures cs.blocks == {g, heavy} && g != heavy && g.pprev == null && heavy.pprev == g
    ensures g.address == 0 && heavy.address == 1 && g.chainWork == 1 && heavy.chainWork == LEVELS + 1
    ensures g.chainTx != 0 && !g.failed && !heavy.failed && !heavy.haveData
  {
    hide Settled, Chainstate.Valid, NoneWorse, Unpruned;
    cs, g := Begin(0, 0, 1, 0, 1);
    heavy := AcceptHeader(cs, g, 0, 1, LEVELS, 1);
  }

  /** The genesis block, and a heavy block on it that was received and failed. */
  method Foundation() returns (cs: Chainstate, g: BlockIndex, heavy: BlockIndex)
    ensures fresh(cs) && fresh(cs.chain) && fresh(cs.blocks) && Good(cs) && Unpruned(cs)
    ensures Tower(cs, g, heavy, g, 0) && cs.chain.Tip() == g && heavy.failed
  {
    hide Settled, Chainstate.Valid, NoneWorse, Unpruned, Calm, Chainstate.Worse;
    cs, g, heavy := Plant();
    ghost var intact := ReceiveLone(cs, heavy);
    OffGenesis(cs, g, heavy);
    FailBlock(cs, heavy, false);
    SettledFacts(cs);
    DescendsItself(heavy);
  }

  lemma OffGenesis(cs: Chainstate, g: BlockIndex, b: BlockIndex)
    requires cs.Valid() && cs.chain.Tip() == g && g in cs.blocks && g.pprev == null && b in cs.blocks && b.pprev == g
    ensures !On(cs.chain.vChain, b) && Linked(b) && Linked(g) && !Descends(g, b) && g.nHeight == 0
  {
  }

  /** A header on top. */
  method Raise(cs: Chainstate, g: BlockIndex, heavy: BlockIndex, n: nat) returns (top: BlockIndex)
    requires Good(cs) && Unpruned(cs) && cs.chain.Tip() != null && Tower(cs, g, heavy, cs.chain.Tip(), n)
    modifies cs`blocks
    ensures Good(cs) && Unpruned(cs) && Tower(cs, g, heavy, top, n + 1) && fresh(top)
    ensures cs.blocks == old(cs.blocks) + {top} && top.pprev == cs.chain.Tip() && !top.haveData
    ensures forall x | x in cs.blocks :: x.pprev != top
  {
    hide Settled, Chainstate.Valid, NoneWorse, Unpruned;
    SettledFacts(cs);
    top := AcceptHeader(cs, cs.chain.Tip(), 0, n, 1, n + 2);
    Fits(cs, top);
  }

  lemma Fits(cs: Chainstate, top: BlockIndex)
    requires cs.Valid() && top in cs.blocks && top.pprev != null
    ensures top.nHeight == top.pprev.nHeight + 1
  {
  }

  /** With its data the top becomes the tip. */
  method Activate(cs: Chainstate, g: BlockIndex, heavy: BlockIndex, top: BlockIndex, n: nat)
    requires Good(cs) && Unpruned(cs) && Tower(cs, g, heavy, top, n) && heavy.failed && top.haveData
    requires top.chainTx != 0 && top.validity >= VALID_TRANSACTIONS
    modifies cs`order, cs`candidates, cs`waiting, cs`unlinked, cs`bestInvalid, cs.chain, cs.blocks`failed
    ensures Good(cs) && Unpruned(cs) && cs.chain.Tip() == top && Tower(cs, g, heavy, top, n) && heavy.failed
  {
    hide Settled, Chainstate.Valid, NoneWorse, Unpruned, TipIsBest, Less;
    AllHaveData(cs);
    var ok := ActivateBestChain(cs, {});
    NoneBuiltOnNone(cs);
    TopIsTip(cs, g, heavy, top, n);
  }

  lemma NoneBuiltOnNone(cs: Chainstate)
    requires Closed(cs.blocks)
    ensures forall d | d in cs.blocks :: !BuiltOn(d, {})
  {
  }

  lemma TopIsTip(cs: Chainstate, g: BlockIndex, heavy: BlockIndex, top: BlockIndex, n: nat)
    requires Good(cs) && TipIsBest(cs) && Tower(cs, g, heavy, top, n) && heavy.failed && top.haveData
    requires top.chainTx != 0 && top.validity >= VALID_TRANSACTIONS
    ensures cs.chain.Tip() == top
  {
    hide Settled, Chainstate.InOrder, NoneWorse, Usable;
    SettledFacts(cs);
    var tip := cs.chain.Tip();
    AllUsable(cs.chain.vChain, Broken(cs.blocks), cs.blocks, heavy, top);
    assert top in cs.Eligible() || cs.Worse(top);
  }

  method ReceiveTop(cs: Chainstate, g: BlockIndex, heavy: BlockIndex, top: BlockIndex, n: nat)
    requires Good(cs) && Unpruned(cs) && Tower(cs, g, heavy, top, n) && !top.haveData && Open(top)
    requires forall x | x in cs.blocks :: x.pprev != top
    modifies cs`order, cs`candidates, cs`waiting, cs`unlinked, cs`nextSequence
    modifies cs.blocks`chainTx, cs.blocks`sequenceId, cs.blocks`nTx, cs.blocks`haveData, cs.blocks`validity
    ensures Good(cs) && Unpruned(cs) && Tower(cs, g, heavy, top, n) && top.haveData
    ensures top.chainTx != 0 && top.validity >= VALID_TRANSACTIONS && heavy.sequenceId < top.sequenceId
  {
    hide Settled, Chainstate.Valid, NoneWorse, Unpruned, Calm, Chainstate.Worse, Open;
    SettledFacts(cs);
    ghost var intact := ReceiveLone(cs, top);
  }

  lemma InTower(cs: Chainstate, g: BlockIndex, heavy: BlockIndex, top: BlockIndex, n: nat)
    requires Tower(cs, g, heavy, top, n)
    ensures heavy in cs.blocks && top in cs.blocks && g in cs.blocks && heavy != top
  {
  }

  lemma OpenTop(cs: Chainstate, top: BlockIndex)
    requires Good(cs) && top.pprev != null && top.pprev == cs.chain.Tip()
    ensures Open(top)
  {
    hide Chainstate.Valid, NoneWorse;
    SettledFacts(cs);
  }

  /** One more light block: header, data, activation. */
  method Climb(cs: Chainstate, g: BlockIndex, heavy: BlockIndex, n: nat)
    requires Good(cs) && Unpruned(cs) && cs.chain.Tip() != null && Tower(cs, g, heavy, cs.chain.Tip(), n)
    requires heavy.failed
    modifies cs, cs.chain, cs.blocks
    ensures Good(cs) && Unpruned(cs) && cs.chain.Tip() != null && Tower(cs, g, heavy, cs.chain.Tip(), n + 1)
    ensures heavy.failed && heavy.sequenceId < cs.chain.Tip().sequenceId
    ensures fresh(cs.blocks - old(cs.blocks)) && old(cs.blocks) <= cs.blocks
  {
    hide Good, Unpruned, Tower, Open;
    var top := Raise(cs, g, heavy, n);
    InTower(cs, g, heavy, top, n + 1);
    OpenTop(cs, top);
    ReceiveTop(cs, g, heavy, top, n + 1);
    Activate(cs, g, heavy, top, n + 1);
  }

  /** The light chain is as heavy as the heavy block, and long enough for that one to be pruned. */
  method Build() returns (cs: Chainstate, g: BlockIndex, heavy: BlockIndex)
    ensures fresh(cs) && fresh(cs.chain) && fresh(cs.blocks) && Good(cs) && cs.chain.Tip() != null
    ensures Tower(cs, g, heavy, cs.chain.Tip(), LEVELS) && heavy.failed
    ensures heavy.sequenceId < cs.chain.Tip().sequenceId
  {
    hide Good, Unpruned, Tower;
    cs, g, heavy := Foundation();
    for n := 0 to LEVELS
      invariant Good(cs) && Unpruned(cs) && cs.chain.Tip() != null && Tower(cs, g, heavy, cs.chain.Tip(), n)
      invariant heavy.failed && (n > 0 ==> heavy.sequenceId < cs.chain.Tip().sequenceId)
      invariant fresh(cs) && fresh(cs.chain) && fresh(cs.blocks)
    {
      Climb(cs, g, heavy, n);
    }
  }

  // ---- The tie ----

  lemma RootFits(cs: Chainstate, g: BlockIndex)
    requires cs.Valid() && g in cs.blocks && g.pprev == null
    ensures Linked(g) && g.nHeight == 0
  {
  }

  /** Once it counts as valid again, the heavy block is better than the tip, as it was received first. */
  lemma Readmission(cs: Chainstate, heavy: BlockIndex)
    requires cs.Valid() && heavy in cs.blocks && !heavy.failed && heavy.chainTx != 0
    requires heavy.validity >= VALID_TRANSACTIONS && cs.chain.Tip() in cs.blocks
    requires heavy.chainWork == cs.chain.Tip().chainWork && heavy.sequenceId < cs.chain.Tip().sequenceId
    ensures Linked(heavy) && Related(heavy, heavy) && cs.Readmitted(heavy, true, heavy)
    ensures Less(cs.chain.Tip(), heavy)
  {
    hide SkipsOk, Apart, IsPath;
  }

  lemma SelfRelated(b: BlockIndex)
    requires Linked(b)
    ensures Related(b, b)
  {
  }

  /** No other block has as much work. */
  lemma TwoStored(cs: Chainstate, g: BlockIndex, heavy: BlockIndex)
    requires Good(cs) && cs.chain.Tip() != null && Tower(cs, g, heavy, cs.chain.Tip(), LEVELS)
    requires heavy in cs.candidates
    ensures cs.order == [cs.chain.Tip(), heavy]
  {
    hide Settled, SkipsOk, Apart, IsPath, Chainstate.InOrder, Ordered;
    SettledFacts(cs);
    cs.OrderedNow();
    forall c | c in cs.order
      ensures c == cs.chain.Tip() || c == heavy
    {
      assert c in cs.candidates && !cs.Worse(c);
    }
    LessIsTotal(cs.blocks, cs.chain.Tip(), heavy, heavy);
    assert !cs.Worse(heavy);
    SortedPair(cs.order, cs.chain.Tip(), heavy);
  }

  lemma ThreeOfTwo(s: seq<BlockIndex>, a: BlockIndex, b: BlockIndex)
    requires |s| > 2 && forall x | x in s :: x == a || x == b
    ensures !Ordered(s)
  {
    assert s[0] in s && s[1] in s && s[2] in s;
    assert !Less(s[0], s[1]) || !Less(s[1], s[2]) || !Less(s[0], s[2]);
  }

  lemma SortedPair(s: seq<BlockIndex>, a: BlockIndex, b: BlockIndex)
    requires Ordered(s) && a in s && b in s && a != b && Less(a, b) && forall x | x in s :: x == a || x == b
    ensures s == [a, b]
  {
    if |s| > 2 {
      ThreeOfTwo(s, a, b);
    }
  }

  method PruneHeavy(cs: Chainstate, g: BlockIndex, heavy: BlockIndex)
    requires Good(cs) && cs.chain.Tip() != null && Tower(cs, g, heavy, cs.chain.Tip(), LEVELS)
    modifies cs`waiting, cs`unlinked, heavy`haveData
    ensures Good(cs) && Tower(cs, g, heavy, cs.chain.Tip(), LEVELS) && !heavy.haveData
  {
    hide Settled, Chainstate.Valid, NoneWorse;
    RootFits(cs, g);
    Fits(cs, heavy);
    PruneBlock(cs, heavy);
  }

  method ResetHeavy(cs: Chainstate, g: BlockIndex, heavy: BlockIndex)
    requires Good(cs) && cs.chain.Tip() != null && Tower(cs, g, heavy, cs.chain.Tip(), LEVELS) && heavy.failed
    requires heavy.sequenceId < cs.chain.Tip().sequenceId
    modifies cs`order, cs`candidates, cs`bestInvalid, cs.blocks`failed
    ensures Good(cs) && Tower(cs, g, heavy, cs.chain.Tip(), LEVELS) && !heavy.failed && heavy in cs.candidates
  {
    hide Settled, Chainstate.Valid, NoneWorse, Chainstate.Readmitted, Related, Less;
    IndexTree(cs);
    SelfRelated(heavy);
    Reconsider(cs, heavy);
    Readmission(cs, heavy);
  }

  /** The heavy block, pruned and then taken for valid again, comes after the tip in the set. */
  method Tied() returns (cs: Chainstate, g: BlockIndex, heavy: BlockIndex)
    ensures fresh(cs) && fresh(cs.chain) && fresh(cs.blocks) && Good(cs) && cs.chain.Tip() != null
    ensures Tower(cs, g, heavy, cs.chain.Tip(), LEVELS) && !heavy.failed && !heavy.haveData
    ensures cs.order == [cs.chain.Tip(), heavy]
  {
    hide Good, Tower, Less;
    cs, g, heavy := Build();
    InTower(cs, g, heavy, cs.chain.Tip(), LEVELS);
    PruneHeavy(cs, g, heavy);
    ResetHeavy(cs, g, heavy);
    TwoStored(cs, g, heavy);
  }

  lemma FirstTurn(w: Pairs, p: BlockIndex)
    ensures p in Schedule(w, [p])
  {
  }

  /**
    The heavy block arrives again and gets a new number. The stored order is as before, so the last candidate is a
    block that is worse than the tip, and it can be used: the next activation leaves the tip for it.
   */
  method TieBroken() returns (cs: Chainstate, heavy: BlockIndex, last: BlockIndex?, ghost good: bool)
    ensures good && cs.Sound() && cs.chain.Tip() in cs.blocks && heavy in cs.blocks
    ensures cs.order == [cs.chain.Tip(), heavy] && Less(heavy, cs.chain.Tip()) && !cs.InOrder() && !NoneWorse(cs)
    ensures last == heavy && Linked(heavy) && Usable(cs.chain.vChain, Broken(cs.blocks), heavy)
  {
    hide Good, NoneWorse, Chainstate.Sound, Chainstate.InOrder, Usable, Less, Tower;
    var g;
    cs, g, heavy := Tied();
    good := Good(cs);
    ReceiveHeavy(cs, g, heavy);
    last := cs.Greatest();
  }

  method ReceiveHeavy(cs: Chainstate, g: BlockIndex, heavy: BlockIndex)
    requires Good(cs) && cs.chain.Tip() != null && Tower(cs, g, heavy, cs.chain.Tip(), LEVELS) && !heavy.haveData
    requires !heavy.failed && cs.order == [cs.chain.Tip(), heavy]
    modifies cs`order, cs`candidates, cs`waiting, cs`unlinked, cs`nextSequence
    modifies cs.blocks`chainTx, cs.blocks`sequenceId, cs.blocks`nTx, cs.blocks`haveData, cs.blocks`validity
    ensures cs.Sound() && cs.chain.Tip() in cs.blocks && heavy in cs.blocks && heavy in cs.candidates
    ensures cs.order == [cs.chain.Tip(), heavy] && Less(heavy, cs.chain.Tip()) && !cs.InOrder() && !NoneWorse(cs)
    ensures Linked(heavy) && Usable(cs.chain.vChain, Broken(cs.blocks), heavy)
  {
    hide Settled, NoneWorse, Chainstate.Sound, Chainstate.InOrder, Usable, Less, Chainstate.Worse, Calm;
    SettledFacts(cs);
    ghost var intact := ReceiveLone(cs, heavy);
    NowWorse(cs, g, heavy);
  }

  /** The exact condition tells it beforehand. */
  lemma TieNotCalm(cs: Chainstate, g: BlockIndex, heavy: BlockIndex)
    requires Good(cs) && cs.chain.Tip() != null && Tower(cs, g, heavy, cs.chain.Tip(), LEVELS)
    requires cs.order == [cs.chain.Tip(), heavy]
    ensures !Calm(cs, heavy)
  {
    hide Settled, NoneWorse, Calm, Schedule, IsPath, SkipsOk, Apart;
    assert heavy in cs.order;
    FirstTurn(cs.waiting, heavy);
    TiedFallsBehind(cs, heavy, heavy);
  }

  lemma NowWorse(cs: Chainstate, g: BlockIndex, heavy: BlockIndex)
    requires cs.Sound() && cs.chain.Tip() in cs.blocks && Tower(cs, g, heavy, cs.chain.Tip(), LEVELS)
    requires heavy.sequenceId > cs.chain.Tip().sequenceId
    requires cs.Worse(heavy) ==> cs.order == [cs.chain.Tip(), heavy]
    requires cs.chain.Tip().haveData && heavy.haveData && !heavy.failed
    ensures cs.order == [cs.chain.Tip(), heavy] && Less(heavy, cs.chain.Tip()) && !cs.InOrder() && !NoneWorse(cs)
    ensures Linked(heavy) && Usable(cs.chain.vChain, Broken(cs.blocks), heavy) && heavy in cs.candidates
  {
    hide SkipsOk, Apart, IsPath;
    AllUsable(cs.chain.vChain, Broken(cs.blocks), cs.blocks, heavy, g);
    assert cs.order == [cs.chain.Tip(), heavy] && heavy in cs.order;
    assert !Less(cs.order[0], cs.order[1]);
  }

  /** There a search for the block to erase it finds nothing, or the whole set: it depends on the shape of the tree. */
  method EraseFails(cs: Chainstate, heavy: BlockIndex)
    requires cs.Sound() && cs.chain.Tip() in cs.blocks && heavy in cs.blocks
    requires cs.order == [cs.chain.Tip(), heavy] && Less(heavy, cs.chain.Tip())
    modifies cs`order, cs`candidates
    ensures cs.Sound() && (cs.order == old(cs.order) || cs.order == [])
  {
    hide SkipsOk, Apart, IsPath;
    cs.Erase(heavy);
  }

  /** A refresh, which every failed block brings about, takes the worse block out and so restores the order. */
  method RefreshRestores(cs: Chainstate, heavy: BlockIndex)
    requires cs.Sound() && cs.chain.Tip() in cs.blocks && heavy in cs.blocks
    requires cs.order == [cs.chain.Tip(), heavy] && Less(heavy, cs.chain.Tip())
    modifies cs`order, cs`candidates
    ensures cs.Valid() && cs.candidates == cs.Eligible() && heavy !in cs.candidates
  {
    hide SkipsOk, Apart, IsPath, Chainstate.Sound;
    cs.RefreshBlockIndexCandidates();
  }
}
