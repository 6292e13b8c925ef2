/** The candidate set over whole runs: it never loses a block that could be the best one. */
module MostWorkRuns {
  import opened Chain
  import opened MostWorkOrder
  import opened MostWork
  import opened MostWorkLinks
  import opened MostWorkQueue
  import opened MostWorkState
  import opened MostWorkTurns
  import opened MostWorkArrival
  import opened MostWorkCalm
  import opened MostWorkMoves
  import opened MostWorkBack
  import opened MostWorkActivation
  import opened MostWorkBest
  import opened MostWorkInvalidate

  // ---- Flags that are cleared ----

  method Reconsider(cs: Chainstate, p: BlockIndex)
    requires cs.Valid() && Settled(cs) && p in cs.blocks
    modifies cs`order, cs`candidates, cs`bestInvalid, cs.blocks`failed
    ensures cs.Valid() && Settled(cs)
    ensures forall b | b in cs.blocks :: b.failed <==> old(b.failed) && !Related(b, p)
    ensures forall b | b in cs.blocks ::
      b in cs.candidates <==> b in old(cs.candidates) || cs.Readmitted(b, old(b.failed), p)
    ensures old(NoneWorse(cs)) ==> NoneWorse(cs)
    ensures old(Unpruned(cs)) ==> Unpruned(cs)
  {
    hide Unpruned, Chainstate.InOrder, Holds, Less, Ancestor, Related, GraphOk, Waits, SkipsOk, Apart, IsPath;
    ghost var failed := set b | b in cs.blocks && b.failed;
    ghost var eligible, candidates := cs.Eligible(), cs.candidates;
    cs.ResetBlockFailureFlags(p);
    ghost var tip := cs.chain.Tip();
    forall b | b in cs.Eligible()
      ensures b in cs.candidates || Waits(cs.chain.vChain, NoData(cs.blocks), cs.unlinked, b)
    {
      LessIsTotal(cs.blocks, b, tip, tip);
      if b !in failed {
        assert b in eligible;
      }
    }
    forall b | b in cs.blocks && b.pprev in cs.blocks && b.pprev.failed
      ensures b.failed
    {
      ParentRelated(b, p);
    }
    forall c | c in cs.candidates && c !in candidates
      ensures !cs.Worse(c)
    {
      LessIsTotal(cs.blocks, c, tip, tip);
    }
  }

  lemma ParentRelated(b: BlockIndex, p: BlockIndex)
    requires Linked(b) && Linked(p) && b.pprev != null
    ensures Related(b, p) ==> Related(b.pprev, p)
  {
    if Descends(p, b) {
      AncestorTrans(p, b.nHeight, b.nHeight - 1);
    }
  }

  // ---- Data that goes, headers that come ----

  /** The pairs without those of one child. */
  function WithoutChild(w: Pairs, b: BlockIndex): Pairs {
    if w == [] then []
    else
      var n := |w| - 1;
      WithoutChild(w[..n], b) + (if w[n].0 == b.pprev && w[n].1 == b then [] else [w[n]])
  }

  lemma {:induction false} WithoutWithin(w: Pairs, b: BlockIndex)
    ensures multiset(WithoutChild(w, b)) <= multiset(w)
  {
    if w != [] {
      var n := |w| - 1;
      WithoutWithin(w[..n], b);
      assert w == w[..n] + [w[n]];
    }
  }

  lemma {:induction false} WithoutLeft(w: Pairs, b: BlockIndex, x: (BlockIndex, BlockIndex))
    ensures multiset(WithoutChild(w, b))[x] == if x.0 == b.pprev && x.1 == b then 0 else multiset(w)[x]
  {
    if w != [] {
      var n := |w| - 1;
      WithoutLeft(w[..n], b, x);
      assert w == w[..n] + [w[n]];
    }
  }

  lemma ChildDropped(w: Pairs, b: BlockIndex, blocks: set<BlockIndex>)
    requires LinksOwn(blocks, multiset(w))
    ensures Dropped(multiset(w), multiset(WithoutChild(w, b)), b)
  {
    hide WithoutChild;
    WithoutWithin(w, b);
    forall x | x in multiset(w)
      ensures multiset(WithoutChild(w, b))[x] == if x.1 == b then 0 else multiset(w)[x]
    {
      WithoutLeft(w, b, x);
    }
  }

  lemma OwnLinks(cs: Chainstate)
    requires cs.Valid() && Settled(cs)
    ensures LinksOwn(cs.blocks, cs.unlinked)
  {
    forall x | x in cs.unlinked
      ensures x.1 in cs.blocks && x.1.pprev == x.0
    {
      assert LinkOk(cs.chain.vChain, cs.blocks, NoData(cs.blocks), cs.unlinked, x);
    }
  }

  /** What waited through a pruned block waits for that block. */
  lemma PruneKeeps(cs: Chainstate, b: BlockIndex, b4: Before)
    requires cs.Valid() && b in cs.blocks && WasSettled(cs, b4) && b4.candidates == cs.candidates
    requires cs.Eligible() <= b4.eligible
    requires NoData(cs.blocks) == b4.noData + {b} && Counted(cs.blocks) == b4.counted
    requires Dropped(b4.links, cs.unlinked, b)
    ensures GraphOk(cs.chain.vChain, cs.blocks, NoData(cs.blocks), Counted(cs.blocks), cs.unlinked) && NoneLost(cs)
  {
    hide Waits, Chainstate.Eligible, GraphOk, Dropped;
    PruneGraph(cs.chain.vChain, cs.blocks, b4.noData, b4.counted, b4.links, cs.unlinked, b);
    forall x | x in cs.Eligible()
      ensures x in cs.candidates || Waits(cs.chain.vChain, NoData(cs.blocks), cs.unlinked, x)
    {
      if x !in cs.candidates {
        WaitsForPruned(cs.chain.vChain, b4.noData, b4.links, cs.unlinked, b, x);
      }
    }
  }

  /** What does not depend on data. */
  ghost predicate Steady(cs: Chainstate)
    reads cs`order, cs`candidates, cs`waiting, cs`unlinked, cs`blocks, cs`nextSequence, cs.chain`vChain
    reads cs.candidates`chainTx, cs.blocks`pskip, cs.blocks`chainTx, cs.blocks`sequenceId, cs.blocks`failed
  {
    cs.Valid() && WorkGrows(cs.blocks) && Numbered(cs) && AllCounted(cs) && FailurePassesOn(cs.blocks)
  }

  /** All that must hold but for the recorded pairs and those that wait. */
  ghost predicate Framed(cs: Chainstate)
    reads cs`order, cs`candidates, cs`waiting, cs`unlinked, cs`blocks, cs`nextSequence, cs.chain`vChain
    reads cs.blocks, cs.candidates
  {
    Steady(cs) && FlagsOk(cs.blocks) && TipOk(cs)
  }

  method DropChild(cs: Chainstate, b: BlockIndex)
    requires cs.Valid() && LinksOwn(cs.blocks, cs.unlinked)
    modifies cs`waiting, cs`unlinked
    ensures cs.Valid() && cs.waiting == WithoutChild(old(cs.waiting), b) && Dropped(old(cs.unlinked), cs.unlinked, b)
  {
    hide Dropped, SkipsOk, Apart, IsPath, Closed, Holds, Chainstate.InOrder, LinksOwn, WithoutChild;
    ChildDropped(cs.waiting, b, cs.blocks);
    cs.waiting := WithoutChild(cs.waiting, b);
    cs.unlinked := multiset(cs.waiting);
  }

  method GiveUpData(cs: Chainstate, b: BlockIndex)
    requires Framed(cs) && b in cs.blocks && b != cs.chain.Tip() && LinksOwn(cs.blocks, cs.unlinked)
    modifies cs`waiting, cs`unlinked, b`haveData
    ensures Dropped(old(cs.unlinked), cs.unlinked, b) && cs.waiting == WithoutChild(old(cs.waiting), b)
    ensures Framed(cs) && !b.haveData && NoData(cs.blocks) == old(NoData(cs.blocks)) + {b}
    ensures Counted(cs.blocks) == old(Counted(cs.blocks)) && cs.Eligible() == old(cs.Eligible())
    ensures NoneWorse(cs) <==> old(NoneWorse(cs))
  {
    hide Less, Dropped, Chainstate.Sound, Chainstate.InOrder, Counted, LinksOwn, NoneWorse, Chainstate.Eligible;
    hide WithoutChild;
    b.haveData := false;
    DropChild(cs, b);
    assert NoData(cs.blocks) == old(NoData(cs.blocks)) + {b};
  }

  const MIN_BLOCKS_TO_KEEP: nat := 288

  /** The height up to which data may be given up, with the tip at a height. */
  function PruneEnd(height: nat): nat {
    if height <= MIN_BLOCKS_TO_KEEP then 0 else height - MIN_BLOCKS_TO_KEEP
  }

  /** Give up the data of a block far enough below the tip, and its recorded pairs. */
  method PruneBlock(cs: Chainstate, b: BlockIndex)
    requires cs.Valid() && Settled(cs) && b in cs.blocks && b != cs.chain.Tip()
    requires b.nHeight <= PruneEnd(cs.chain.Tip().nHeight)
    modifies cs`waiting, cs`unlinked, b`haveData
    ensures cs.Valid() && Settled(cs) && !b.haveData && Dropped(old(cs.unlinked), cs.unlinked, b)
    ensures old(NoneWorse(cs)) ==> NoneWorse(cs)
  {
    hide GraphOk, Chainstate.Eligible, Dropped, Linked, WasSettled, Chainstate.Valid, NoneWorse, FlagsOk, WorkGrows;
    hide Numbered, LinksOwn;
    hide TipOk, AllCounted, FailurePassesOn, NoneLost, Counted, NoData;
    ghost var b4 := Now(cs);
    NowStanding(cs);
    OwnLinks(cs);
    GiveUpData(cs, b);
    PruneKeeps(cs, b, b4);
  }

  /** A new block without data changes nothing for the others. */
  lemma HeaderKeeps(cs: Chainstate, b: BlockIndex, blocks: set<BlockIndex>, b4: Before)
    requires cs.Valid() && b !in blocks && cs.blocks == blocks + {b} && b !in b4.counted && Closed(blocks)
    requires GraphOk(cs.chain.vChain, blocks, b4.noData, b4.counted, b4.links) && b4.links == cs.unlinked
    requires b4.eligible <= blocks && b4.candidates == cs.candidates && cs.Eligible() <= b4.eligible
    requires forall x | x in b4.eligible :: x in b4.candidates || Waits(cs.chain.vChain, b4.noData, b4.links, x)
    requires NoData(cs.blocks) == b4.noData + {b} && Counted(cs.blocks) == b4.counted
    ensures GraphOk(cs.chain.vChain, cs.blocks, NoData(cs.blocks), Counted(cs.blocks), cs.unlinked) && NoneLost(cs)
  {
    hide Waits, Chainstate.Eligible, GraphOk;
    HeaderGraph(cs.chain.vChain, blocks, b4.noData, b4.counted, b4.links, b);
    forall x | x in cs.Eligible()
      ensures x in cs.candidates || Waits(cs.chain.vChain, NoData(cs.blocks), cs.unlinked, x)
    {
      if x !in cs.candidates {
        WaitsMore(cs.chain.vChain, b4.noData, NoData(cs.blocks), cs.unlinked, cs.unlinked, x);
      }
    }
  }

  /** A new block without data or transactions fits in. */
  lemma Grown(blocks: set<BlockIndex>, b: BlockIndex)
    requires Closed(blocks) && Apart(blocks) && FlagsOk(blocks) && WorkGrows(blocks) && FailurePassesOn(blocks)
    requires forall x | x in blocks && x.chainTx != 0 && x.pprev != null :: x.pprev.chainTx != 0
    requires b !in blocks && b.pprev in blocks && !b.pprev.failed && b.chainWork > b.pprev.chainWork && !b.failed
    requires b.validity == VALID_TREE && !b.haveData && b.nTx == 0 && b.chainTx == 0
    requires forall x | x in blocks :: x.address != b.address
    ensures Apart(blocks + {b}) && FlagsOk(blocks + {b}) && WorkGrows(blocks + {b}) && FailurePassesOn(blocks + {b})
    ensures forall x | x in blocks + {b} && x.chainTx != 0 && x.pprev != null :: x.pprev.chainTx != 0
  {
    forall x | x in blocks && x.pprev != null
      ensures x.pprev in blocks
    {
      InTree(blocks, x);
    }
  }

  lemma GrownNumbers(cs: Chainstate, b: BlockIndex)
    requires Numbered(cs) && b.sequenceId == SEQ_ID_INIT
    ensures cs.nextSequence > SEQ_ID_INIT && forall x | x in cs.blocks + {b} :: x.sequenceId < cs.nextSequence
  {
  }

  method GrowTree(cs: Chainstate, pprev: BlockIndex, time: int, hash: nat, proof: nat, address: nat)
    returns (b: BlockIndex)
    requires Framed(cs) && pprev in cs.blocks && !pprev.failed && proof > 0
    requires forall x | x in cs.blocks :: x.address != address
    modifies cs`blocks
    ensures Framed(cs) && fresh(b) && b.pprev == pprev && !b.haveData && cs.blocks == old(cs.blocks) + {b}
    ensures !b.failed && b.address == address && b.chainWork == pprev.chainWork + proof
    ensures NoData(cs.blocks) == old(NoData(cs.blocks)) + {b} && Counted(cs.blocks) == old(Counted(cs.blocks))
    ensures cs.Eligible() <= old(cs.Eligible()) && (NoneWorse(cs) <==> old(NoneWorse(cs)))
  {
    hide Framed, NoData, Counted, Chainstate.Eligible, NoneWorse, Linked, SkipsBuilt;
    FramedTree(cs);
    b := AddBlock(cs.blocks, pprev, time, hash, proof, address);
    AddToIndex(cs, b);
  }

  lemma FramedTree(cs: Chainstate)
    requires Framed(cs)
    ensures Closed(cs.blocks) && SkipsOk(cs.blocks)
  {
  }

  method AddToIndex(cs: Chainstate, b: BlockIndex)
    requires Framed(cs) && b !in cs.blocks && Closed(cs.blocks + {b}) && SkipsOk(cs.blocks + {b})
    requires b.pprev in cs.blocks && !b.pprev.failed && b.chainWork > b.pprev.chainWork && !b.failed
    requires b.validity == VALID_TREE && !b.haveData && b.nTx == 0 && b.chainTx == 0 && b.sequenceId == SEQ_ID_INIT
    requires forall x | x in cs.blocks :: x.address != b.address
    modifies cs`blocks
    ensures Framed(cs) && cs.blocks == old(cs.blocks) + {b}
    ensures NoData(cs.blocks) == old(NoData(cs.blocks)) + {b} && Counted(cs.blocks) == old(Counted(cs.blocks))
    ensures cs.Eligible() <= old(cs.Eligible()) && (NoneWorse(cs) <==> old(NoneWorse(cs)))
  {
    hide Less, SkipsOk, IsPath, Linked, Ancestor, Apart, FlagsOk, WorkGrows, FailurePassesOn, Closed, AllCounted;
    Grown(cs.blocks, b);
    GrownNumbers(cs, b);
    cs.blocks := cs.blocks + {b};
    assert NoData(cs.blocks) == old(NoData(cs.blocks)) + {b};
    assert Counted(cs.blocks) == old(Counted(cs.blocks));
  }

  /** A header on top of a block that has not failed: the tree grows by a block without data. */
  method AcceptHeader(cs: Chainstate, pprev: BlockIndex, time: int, hash: nat, proof: nat, address: nat)
    returns (b: BlockIndex)
    requires cs.Valid() && Settled(cs) && pprev in cs.blocks && !pprev.failed && proof > 0
    requires forall x | x in cs.blocks :: x.address != address
    modifies cs`blocks
    ensures cs.Valid() && Settled(cs) && fresh(b) && b.pprev == pprev && !b.haveData
    ensures cs.blocks == old(cs.blocks) + {b}
    ensures !b.failed && b.address == address && b.chainWork == pprev.chainWork + proof
    ensures old(NoneWorse(cs)) ==> NoneWorse(cs)
    ensures old(Unpruned(cs)) ==> Unpruned(cs)
  {
    hide GraphOk, Chainstate.Eligible, Linked, Chainstate.Valid, NoneWorse, FlagsOk, WorkGrows, Numbered;
    hide TipOk, AllCounted, FailurePassesOn, NoneLost, NoData, Waits;
    ghost var blocks, b4 := cs.blocks, Now(cs);
    NowStanding(cs);
    b := GrowTree(cs, pprev, time, hash, proof, address);
    HeaderKeeps(cs, b, blocks, b4);
  }

  // ---- Runs ----

  /** A new index: the genesis block, received and active. */
  method Begin(time: int, hash: nat, proof: nat, address: nat, count: nat) returns (cs: Chainstate, g: BlockIndex)
    requires count > 0
    ensures fresh(cs) && fresh(cs.chain) && fresh(g) && cs.blocks == {g} && g.pprev == null
    ensures g.address == address && g.chainWork == proof && g.chainTx == count && !g.failed
    ensures cs.Valid() && Settled(cs) && NoneWorse(cs) && Unpruned(cs) && cs.chain.Tip() == g
  {
    hide SkipsOk, IsPath, Settled, Chainstate.Valid, NoneWorse;
    g := AddBlock({}, null, time, hash, proof, address);
    assert {} + {g} == {g};
    g.nTx, g.chainTx, g.haveData, g.validity := count, count, true, VALID_TRANSACTIONS;
    var chain := new CChain();
    chain.SetTip(g);
    cs := new Chainstate(chain, {g});
    g.sequenceId := cs.nextSequence;
    cs.nextSequence := cs.nextSequence + 1;
    cs.order, cs.candidates := [g], {g};
    GenesisSettled(cs, g);
  }

  /** Nothing waits where there is one block, and that has data. */
  lemma GenesisGraph(v: seq<BlockIndex?>, g: BlockIndex)
    requires Linked(g) && g.pprev == null && IsPath(v, g)
    ensures v == [g] && GraphOk(v, {g}, {}, {g}, multiset{})
  {
    LastOfPath(v, g);
    assert v == [g];
    assert Closed({g});
  }

  lemma GenesisSettled(cs: Chainstate, g: BlockIndex)
    requires cs.blocks == {g} == cs.candidates && cs.order == [g] && cs.waiting == [] && Linked(g) && g.pprev == null
    requires SkipsOk({g})
    requires IsPath(cs.chain.vChain, g)
    requires cs.unlinked == multiset{} && cs.nextSequence > SEQ_ID_INIT && g.sequenceId < cs.nextSequence
    requires g.nTx > 0 && g.chainTx != 0 && g.haveData && g.validity == VALID_TRANSACTIONS && !g.failed
    ensures cs.Valid() && Settled(cs) && NoneWorse(cs) && Unpruned(cs) && cs.chain.Tip() == g
  {
    hide GraphOk, SkipsOk, Waits;
    GenesisGraph(cs.chain.vChain, g);
    LastOfPath(cs.chain.vChain, g);
    assert Closed({g});
    assert NoData({g}) == {} && Counted({g}) == {g};
    LessIsTotal({g}, g, g, g);
  }

  /** Blocks are named by their place in the order in which their headers came. */
  datatype Op =
    | Activate(invalid: set<nat>)
    | Header(parent: nat, time: int, hash: nat, proof: nat, address: nat)
    | Arrive(k: nat, count: nat)
    | Prune(k: nat)
    | Fail(k: nat, mutated: bool)
    | InvalidateByHand(k: nat)
    | Reset(k: nat)

  /** The list holds the blocks of the index. */
  ghost predicate Lists(cs: Chainstate, index: seq<BlockIndex>)
    reads cs`blocks
  {
    (forall b | b in cs.blocks :: b in index) && (forall b | b in index :: b in cs.blocks)
  }

  /**
    When the node does this: headers are on blocks that have not failed, data comes for such blocks while they have
    none, data is given up far enough below the tip, blocks off the chain are found to have failed, and a block is
    invalidated by hand if it leaves a tip with data.
   */
  predicate Legal(cs: Chainstate, index: seq<BlockIndex>, op: Op)
    reads cs, cs.chain, index, set b | b in index && b.pprev != null :: b.pprev
  {
    match op
    case Activate(_) => true
    case Header(k, _, _, proof, address) =>
      k < |index| && !index[k].failed && proof > 0 && forall x | x in index :: x.address != address
    case Arrive(k, count) => k < |index| && !index[k].haveData && !index[k].failed && count > 0
    case Prune(k) =>
      && k < |index| && index[k] != cs.chain.Tip() && cs.chain.Tip() != null
      && index[k].nHeight <= PruneEnd(cs.chain.Tip().nHeight)
    case Fail(k, _) => k < |index| && !cs.chain.Contains(index[k])
    case InvalidateByHand(k) =>
      k < |index| && (!cs.chain.Contains(index[k]) || index[k].pprev == null || index[k].pprev.haveData)
    case Reset(k) => k < |index|
  }

  /** The step leaves the candidates in order throughout. */
  predicate Orderly(cs: Chainstate, index: seq<BlockIndex>, op: Op)
    requires Legal(cs, index, op)
    reads cs, cs.chain, index, set b | b in index && b.pprev != null :: b.pprev
  {
    op.Arrive? && Open(index[op.k]) ==> Calm(cs, index[op.k])
  }


  /** The blocks named that are not active. */
  function NamedOff(cs: Chainstate, index: seq<BlockIndex>, ks: set<nat>): set<BlockIndex>
    reads cs.chain`vChain
  {
    set k | k in ks && k < |index| && !cs.chain.Contains(index[k]) :: index[k]
  }

  /** Where no data was given up, no block of the chain lacks it. */
  lemma AllHaveData(cs: Chainstate)
    requires Good(cs) && Unpruned(cs)
    ensures forall b | b in cs.blocks && On(cs.chain.vChain, b) :: b.haveData
  {
    hide SkipsOk, Apart, IsPath, NoneLost, LinksSound, LinksComplete, CountsOk, Chainstate.InOrder;
    forall b | b in cs.blocks && On(cs.chain.vChain, b)
      ensures b.haveData
    {
      assert b in cs.chain.vChain && b in Counted(cs.blocks);
    }
  }

  method FailBlock(cs: Chainstate, b: BlockIndex, mutated: bool)
    requires Good(cs) && b in cs.blocks && !On(cs.chain.vChain, b)
    modifies cs`order, cs`candidates, cs`bestInvalid, cs.blocks`failed
    ensures Good(cs) && (old(Unpruned(cs)) ==> Unpruned(cs))
    ensures forall d | d in cs.blocks :: d.failed <==> old(d.failed) || (!mutated && Descends(d, b))
  {
    hide Standing, NoneWorse, Chainstate.InOrder, Unpruned, Descends, On;
    Invalidate(cs, b, mutated);
    StandingTip(cs);
  }

  /** Invalidating a block by hand; it fails only if a block of the chain has no data. */
  method InvalidateHand(cs: Chainstate, p: BlockIndex) returns (alive: bool)
    requires Good(cs) && p in cs.blocks
    requires cs.chain.Contains(p) && p.pprev != null ==> p.pprev.haveData
    modifies cs`order, cs`candidates, cs`bestInvalid, cs.chain, cs.blocks`failed
    ensures alive ==> Good(cs)
    ensures !alive ==> exists b | b in cs.blocks :: !b.haveData && On(old(cs.chain.vChain), b)
    ensures old(Unpruned(cs)) ==> alive && Unpruned(cs)
  {
    hide Standing, NoneWorse, Chainstate.Valid, Rooted, Unpruned, Descends, Chainstate.Eligible;
    ghost var v0 := cs.chain.vChain;
    if Unpruned(cs) {
      AllHaveData(cs);
    }
    GoodTip(cs);
    var ok := InvalidateBlock(cs, p);
    ParentIsTip(cs, v0, p);
    StandingTip(cs);
    alive := ok || p.pprev == null;
  }

  lemma GoodTip(cs: Chainstate)
    requires Good(cs)
    ensures cs.chain.Tip() in cs.blocks && cs.chain.Tip().haveData && Upright(cs) && IsChain(cs.chain.vChain)
  {
  }

  /** The tip is as it was, or the parent of the block that went; in any case it was on the chain. */
  lemma ParentIsTip(cs: Chainstate, v0: seq<BlockIndex?>, p: BlockIndex)
    requires Upright(cs) && cs.chain.Tip() in cs.blocks && p in cs.blocks && LowerPart(cs.chain.vChain, v0)
    requires IsChain(v0)
    ensures On(v0, cs.chain.Tip())
    ensures On(v0, p) && p.pprev != null && cs.chain.vChain == v0[..p.nHeight] ==> cs.chain.Tip() == p.pprev
  {
    hide Standing, NoneWorse, Chainstate.InOrder, SkipsOk, Apart;
    UprightTree(cs);
    OnTip(cs);
    OnLower(cs.chain.vChain, v0, cs.chain.Tip());
    InTree(cs.blocks, p);
    if On(v0, p) && p.pprev != null {
      ParentOn(v0, p);
    }
  }

  lemma StandingTip(cs: Chainstate)
    requires cs.Valid() && Standing(cs)
    ensures TipFit(cs)
  {
  }

  /**
    An orderly step keeps the books, and all steps are orderly as long as no data was given up. After an activation
    the tip is the best block. Only an activation or an invalidation can end the node: when it would have to take off a
    block whose data was given up.
   */
  method Execute(cs: Chainstate, index: seq<BlockIndex>, op: Op)
    returns (index': seq<BlockIndex>, alive: bool, ghost intact: bool)
    requires Good(cs) && Lists(cs, index) && Legal(cs, index, op)
    modifies cs, cs.chain, cs.blocks
    ensures intact <==> old(Orderly(cs, index, op))
    ensures alive && intact ==> Good(cs) && (op.Activate? ==> TipIsBest(cs))
    ensures !alive ==> (op.Activate? || op.InvalidateByHand?) && exists b | b in cs.blocks ::
      !b.haveData && On(old(cs.chain.vChain), b)
    ensures Lists(cs, index') && index <= index' && fresh(cs.blocks - old(cs.blocks))
    ensures old(Unpruned(cs)) && !op.Prune? ==> intact && alive && Unpruned(cs)
  {
    hide Settled, TipIsBest, NoneWorse, Chainstate.Valid, Unpruned, Calm, Less;
    index', alive, intact := index, true, true;
    match op
    case Activate(invalid) =>
      if Unpruned(cs) {
        AllHaveData(cs);
      }
      alive := ActivateBestChain(cs, NamedOff(cs, index, invalid));
    case Header(k, time, hash, proof, address) =>
      var b := AcceptHeader(cs, index[k], time, hash, proof, address);
      index' := index + [b];
    case Arrive(k, count) =>
      intact := Receive(cs, index[k], count);
    case Prune(k) =>
      PruneBlock(cs, index[k]);
    case Fail(k, mutated) =>
      FailBlock(cs, index[k], mutated);
    case InvalidateByHand(k) =>
      alive := InvalidateHand(cs, index[k]);
    case Reset(k) =>
      Reconsider(cs, index[k]);
  }

  lemma UnprunedOrderly(cs: Chainstate, index: seq<BlockIndex>, op: Op)
    requires Good(cs) && Unpruned(cs) && Lists(cs, index) && Legal(cs, index, op)
    ensures Orderly(cs, index, op)
  {
    hide Settled, NoneWorse, Chainstate.Valid, Unpruned, Calm;
    if op.Arrive? {
      UnprunedCalm(cs, index[op.k]);
    }
  }

  /**
    A run goes on until a step is not orderly, which can only be an arrival after data was given up, or until the node
    ends for want of such data. Up to there the candidates are in order, none is worse than the tip, and after an
    activation the tip is the best usable block of the whole index.
   */
  method Run(cs: Chainstate, index: seq<BlockIndex>, ops: seq<Op>)
    returns (index': seq<BlockIndex>, done: nat, alive: bool)
    requires Good(cs) && Lists(cs, index)
    modifies cs, cs.chain, cs.blocks
    ensures done <= |ops| && Lists(cs, index') && index <= index' && (alive ==> Good(cs))
    ensures alive && done < |ops| ==> Legal(cs, index', ops[done]) && !Orderly(cs, index', ops[done])
    ensures !alive ==> done < |ops| && (ops[done].Activate? || ops[done].InvalidateByHand?)
    ensures old(Unpruned(cs)) && (forall op | op in ops :: !op.Prune?) ==> alive && done == |ops|
    ensures alive && done > 0 && ops[done - 1].Activate? ==> TipIsBest(cs)
  {
    hide Settled, NoneWorse, Chainstate.Valid, TipIsBest, Unpruned, Calm, On;
    index', done, alive := index, 0, true;
    while done < |ops|
      invariant done <= |ops| && Good(cs) && Lists(cs, index') && index <= index' && fresh(cs.blocks - old(cs.blocks))
      invariant alive && (old(Unpruned(cs)) && (forall op | op in ops :: !op.Prune?) ==> Unpruned(cs))
      invariant done > 0 && ops[done - 1].Activate? ==> TipIsBest(cs)
    {
      if Legal(cs, index', ops[done]) {
        if !Orderly(cs, index', ops[done]) {
          if Unpruned(cs) {
            UnprunedOrderly(cs, index', ops[done]);
          }
          return;
        }
        ghost var intact;
        index', alive, intact := Execute(cs, index', ops[done]);
        if !alive {
          return;
        }
      }
      done := done + 1;
    }
  }

  /**
    From the genesis block on: every history of headers, data, pruning, failures and activations, whatever blocks are
    found invalid in these, up to an arrival that upsets the candidates or a reorganization for which data is missing.
    A history without pruning has neither.
   */
  method History(time: int, hash: nat, proof: nat, address: nat, count: nat, ops: seq<Op>)
    returns (cs: Chainstate, index: seq<BlockIndex>, done: nat, alive: bool)
    requires count > 0
    ensures done <= |ops| && Lists(cs, index) && (alive ==> Good(cs))
    ensures alive && done < |ops| ==> Legal(cs, index, ops[done]) && !Orderly(cs, index, ops[done])
    ensures !alive ==> done < |ops| && (ops[done].Activate? || ops[done].InvalidateByHand?)
    ensures (forall op | op in ops :: !op.Prune?) ==> alive && done == |ops|
    ensures alive && done > 0 && ops[done - 1].Activate? ==> TipIsBest(cs)
  {
    hide TipIsBest, Unpruned, Calm, Settled, NoneWorse, Chainstate.Valid;
    var g;
    cs, g := Begin(time, hash, proof, address, count);
    index, done, alive := Run(cs, [g], ops);
  }
}
