/** Single moves: choosing the best block, taking one more block into the chain, failing a block. */
module MostWorkMoves {
  import opened Chain
  import opened MostWorkOrder
  import opened MostWork
  import opened MostWorkLinks
  import opened MostWorkQueue
  import opened MostWorkState
  import opened MostWorkTurns
  import opened MostWorkArrival

  ghost function Now(cs: Chainstate): Before
    reads cs`order, cs`candidates, cs`unlinked, cs`blocks, cs.chain`vChain, cs.blocks
  {
    Before(NoData(cs.blocks), Counted(cs.blocks), cs.Eligible(), cs.unlinked, cs.order, cs.candidates)
  }

  lemma NowStanding(cs: Chainstate)
    requires cs.Valid() && Standing(cs)
    ensures Closed(cs.blocks) && WasSettled(cs, Now(cs)) && Now(cs).eligible <= cs.blocks
    ensures Now(cs).counted <= cs.blocks
  {
    hide GraphOk, Waits, Less;
  }

  // ---- Goals ----

  /** No usable block of the whole index beats the tip. */
  ghost predicate TipIsBest(cs: Chainstate)
    requires cs.Valid()
    reads cs, cs.chain`vChain, cs.blocks
  {
    && cs.chain.Tip() != null
    && forall b | b in cs.Eligible() && Usable(cs.chain.vChain, Broken(cs.blocks), b) ::
      b == cs.chain.Tip() || Less(b, cs.chain.Tip())
  }

  /** A block the chain may move to, such that no other usable block of the whole index is better. */
  ghost predicate Goal(cs: Chainstate, m: BlockIndex)
    requires cs.Valid()
    reads cs, cs.chain`vChain, cs.blocks
  {
    && m in cs.blocks && CanBeCandidate(m) && !cs.Worse(m) && Usable(cs.chain.vChain, Broken(cs.blocks), m)
    && forall b | b in cs.Eligible() && Usable(cs.chain.vChain, Broken(cs.blocks), b) :: b == m || Less(b, m)
  }

  // ---- Choosing ----

  lemma {:induction false} FailureUp(blocks: set<BlockIndex>, b: BlockIndex, bad: BlockIndex)
    requires Closed(blocks) && FailurePassesOn(blocks) && b in blocks && bad.failed && Descends(b, bad)
    ensures b.failed
    decreases b.nHeight
  {
    InTree(blocks, b);
    if b != bad {
      FailureUp(blocks, b.pprev, bad);
    }
  }

  /** Dropping candidates that are built on failed blocks or wait for data loses none. */
  lemma NoneLostByDropping(cs: Chainstate, candidates: set<BlockIndex>, links: Links)
    requires cs.Valid() && FailurePassesOn(cs.blocks) && candidates <= cs.blocks && links <= cs.unlinked
    requires cs.AllExcused(candidates)
    requires forall b | b in cs.Eligible() :: b in candidates || Waits(cs.chain.vChain, NoData(cs.blocks), links, b)
    ensures NoneLost(cs)
  {
    hide Waits, Less, SkipsOk, Apart, IsPath, Ancestor;
    var v, noData := cs.chain.vChain, NoData(cs.blocks);
    forall b | b in cs.Eligible()
      ensures b in cs.candidates || Waits(v, noData, cs.unlinked, b)
    {
      if b !in candidates {
        WaitsMore(v, noData, noData, links, cs.unlinked, b);
      } else if b !in cs.candidates && FailedBelow(v, Failures(cs.blocks), b) {
        var bad :| bad in Failures(cs.blocks) && !On(v, bad) && Descends(b, bad);
        FailureUp(cs.blocks, b, bad);
      }
    }
  }

  /** The choice is the best of all blocks of the index that could be a tip, not only of the candidates. */
  method Choose(cs: Chainstate) returns (r: BlockIndex)
    requires cs.Valid() && Standing(cs)
    modifies cs`order, cs`candidates, cs`waiting, cs`unlinked, cs`bestInvalid
    ensures cs.Valid() && Standing(cs) && r in cs.candidates && Goal(cs, r)
    ensures NoneWorse(cs) <== old(NoneWorse(cs))
    ensures old(Unpruned(cs)) ==> Unpruned(cs)
  {
    hide Usable, Less, Ancestor, GraphOk, Waits, SkipsOk, Apart, IsPath, LinkOk, Chainstate.InOrder, Holds;
    hide FlagsOk, WorkGrows, Numbered, CanBeCandidate, FailurePassesOn, Chainstate.AllExcused;
    TipIsCandidate(cs);
    LessIsTotal(cs.blocks, cs.chain.Tip(), cs.chain.Tip(), cs.chain.Tip());
    ghost var candidates, links := cs.candidates, cs.unlinked;
    forall b | b in cs.Eligible() && Usable(cs.chain.vChain, Broken(cs.blocks), b)
      ensures b in candidates
    {
      NoneMissed(cs, b);
    }
    var best := cs.FindMostWorkChain();
    MoreLinksGraph(cs.chain.vChain, cs.blocks, NoData(cs.blocks), Counted(cs.blocks), links, cs.unlinked);
    NoneLostByDropping(cs, candidates, links);
    r := best;
    LessIsTotal(cs.blocks, r, cs.chain.Tip(), r);
    UsableIsSound(cs, r);
  }

  // ---- Moving the tip ----

  lemma {:induction false} SoundBelow(blocks: set<BlockIndex>, b: BlockIndex, h: nat)
    requires Closed(blocks) && b in blocks && FailurePassesOn(blocks) && !b.failed && h <= b.nHeight
    ensures !Ancestor(b, h).failed
    decreases b.nHeight
  {
    InTree(blocks, b);
    if h < b.nHeight {
      SoundBelow(blocks, b.pprev, h);
    }
  }

  lemma {:induction false} LessWorkBelow(blocks: set<BlockIndex>, b: BlockIndex, h: nat)
    requires Closed(blocks) && b in blocks && WorkGrows(blocks) && h < b.nHeight
    ensures Ancestor(b, h).chainWork < b.chainWork
    decreases b.nHeight
  {
    InTree(blocks, b);
    if h < b.nHeight - 1 {
      LessWorkBelow(blocks, b.pprev, h);
    }
  }

  /** A usable candidate not worse than the tip can be the tip. */
  lemma UsableIsSound(cs: Chainstate, b: BlockIndex)
    requires cs.Valid() && Standing(cs) && b in cs.candidates && Usable(cs.chain.vChain, Broken(cs.blocks), b)
    requires !cs.Worse(b)
    ensures CanBeCandidate(b) && b in Counted(cs.blocks) && (b == cs.chain.Tip() || b.haveData)
  {
    hide GraphOk, NoneLost;
    if On(cs.chain.vChain, b) {
      var tip := cs.chain.Tip();
      SoundBelow(cs.blocks, tip, b.nHeight);
      if b != tip {
        AncestorSelf(tip);
        LessWorkBelow(cs.blocks, tip, b.nHeight);
      }
    }
  }

  lemma PathInBlocks(blocks: set<BlockIndex>, v: seq<BlockIndex?>, tip: BlockIndex)
    requires Closed(blocks) && tip in blocks && IsPath(v, tip)
    ensures forall b | b in v :: b in blocks
  {
    forall i | 0 <= i < |v|
      ensures v[i] in blocks
    {
      AncestorInTree(blocks, tip, i);
    }
  }

  /** Make a usable candidate the tip and drop what is now worse. */
  method Advance(cs: Chainstate, b: BlockIndex)
    requires cs.Valid() && Standing(cs) && b in cs.candidates && Usable(cs.chain.vChain, Broken(cs.blocks), b)
    requires !cs.Worse(b)
    modifies cs`order, cs`candidates, cs.chain
    ensures cs.Valid() && Standing(cs) && NoneWorse(cs) && cs.chain.Tip() == b && (old(Unpruned(cs)) ==> Unpruned(cs))
    ensures forall x | x in cs.Eligible() && Usable(cs.chain.vChain, Broken(cs.blocks), x) ::
      x in old(cs.Eligible()) && old(Usable(cs.chain.vChain, Broken(cs.blocks), x))
  {
    hide Less, Usable, Ancestor, GraphOk, Waits, SkipsOk, Apart, FlagsOk, WorkGrows, Linked, FailurePassesOn;
    hide Unpruned, Chainstate.InOrder, Holds;
    ghost var v, tip, b4 := cs.chain.vChain, cs.chain.Tip(), Now(cs);
    NowStanding(cs);
    UsableIsSound(cs, b);
    cs.chain.SetTip(b);
    PathInBlocks(cs.blocks, cs.chain.vChain, b);
    LessIsTotal(cs.blocks, b, b, b);
    cs.PruneBlockIndexCandidates();
    forall x | x in cs.Eligible()
      ensures x in b4.eligible && (x in b4.candidates ==> x in cs.candidates)
    {
      LessIsTotal(cs.blocks, x, tip, b);
      LessIsTotal(cs.blocks, tip, b, b);
    }
    MoveKeeps(cs, v, b, b4);
  }

  /** Moving to a usable block loses none, and makes none usable. */
  lemma MoveKeeps(cs: Chainstate, v: seq<BlockIndex?>, b: BlockIndex, b4: Before)
    requires cs.Valid() && b in cs.blocks && b in b4.counted && IsPath(cs.chain.vChain, b) && b4.eligible <= cs.blocks
    requires GraphOk(v, cs.blocks, b4.noData, b4.counted, b4.links) && Usable(v, Broken(cs.blocks), b)
    requires b4.noData == NoData(cs.blocks) && b4.counted == Counted(cs.blocks) && b4.links == cs.unlinked
    requires forall x | x in b4.eligible :: x in b4.candidates || Waits(v, b4.noData, b4.links, x)
    requires forall x | x in cs.Eligible() :: x in b4.eligible && (x in b4.candidates ==> x in cs.candidates)
    ensures GraphOk(cs.chain.vChain, cs.blocks, NoData(cs.blocks), Counted(cs.blocks), cs.unlinked) && NoneLost(cs)
    ensures forall x | x in cs.Eligible() && Usable(cs.chain.vChain, Broken(cs.blocks), x) ::
      Usable(v, Broken(cs.blocks), x)
  {
    hide Usable, Waits, Chainstate.Eligible, Ancestor, LinksSound, LinksComplete, CountsOk;
    MoveGraph(v, cs.chain.vChain, Broken(cs.blocks), cs.blocks, b4.noData, b4.counted, b4.links, b);
    forall x | x in cs.Eligible()
      ensures x in cs.candidates || Waits(cs.chain.vChain, NoData(cs.blocks), cs.unlinked, x)
      ensures Usable(cs.chain.vChain, Broken(cs.blocks), x) ==> Usable(v, Broken(cs.blocks), x)
    {
      if x !in b4.candidates {
        WaitsAfterMove(v, cs.chain.vChain, Broken(cs.blocks), b4.noData, b4.links, b, x);
      }
      if Usable(cs.chain.vChain, Broken(cs.blocks), x) {
        UsableBefore(v, cs.chain.vChain, Broken(cs.blocks), b, x);
      }
    }
  }

  // ---- Failures ----

  method Invalidate(cs: Chainstate, b: BlockIndex, mutated: bool)
    requires cs.Valid() && Standing(cs) && b in cs.blocks && !On(cs.chain.vChain, b)
    modifies cs`order, cs`candidates, cs`bestInvalid, cs.blocks`failed
    ensures cs.Valid() && Standing(cs)
    ensures !mutated ==> NoneWorse(cs) && forall d | d in cs.blocks && Descends(d, b) :: d.failed && d !in cs.candidates
    ensures mutated && old(NoneWorse(cs)) ==> NoneWorse(cs)
    ensures !mutated ==> cs.candidates == cs.Eligible()
    ensures forall d | d in cs.blocks :: d.failed <==> old(d.failed) || (!mutated && Descends(d, b))
    ensures old(Unpruned(cs)) ==> Unpruned(cs)
  {
    hide Unpruned, Chainstate.InOrder, Holds, Less, Ancestor, GraphOk, Waits, SkipsOk, Apart, Usable, Booked, Numbered;
    TipStands(cs, b);
    cs.InvalidBlockFound(b, mutated);
    if !mutated {
      forall d | d in cs.blocks && d.pprev in cs.blocks && d.pprev.failed
        ensures d.failed
      {
        DescendsNext(d, b);
      }
    } else {
      assert cs.Eligible() == old(cs.Eligible());
    }
  }

  /** The tip is not built on a block off the chain. */
  lemma TipStands(cs: Chainstate, b: BlockIndex)
    requires cs.Valid() && cs.chain.Tip() != null && b in cs.blocks && !On(cs.chain.vChain, b)
    ensures Linked(cs.chain.Tip()) && !Descends(cs.chain.Tip(), b)
  {
  }

  lemma DescendsNext(d: BlockIndex, b: BlockIndex)
    requires Linked(d) && d.pprev != null
    ensures Descends(d.pprev, b) ==> Descends(d, b)
  {
  }
}
