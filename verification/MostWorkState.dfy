/** What the block index and the candidate set must satisfy between operations. */
module MostWorkState {
  import opened Chain
  import opened MostWorkOrder
  import opened MostWork
  import opened MostWorkLinks

  /** A block built on a failed one is failed. */
  ghost predicate FailurePassesOn(blocks: set<BlockIndex>)
    reads blocks`failed
  {
    forall b | b in blocks && b.pprev in blocks && b.pprev.failed :: b.failed
  }

  /** Transactions are known exactly from that level of validity on, with data and when counted they are known. */
  ghost predicate FlagsOk(blocks: set<BlockIndex>)
    reads blocks`validity, blocks`haveData, blocks`nTx, blocks`chainTx
  {
    forall b | b in blocks ::
      && b.validity >= VALID_TREE && (b.nTx > 0 <==> b.validity >= VALID_TRANSACTIONS)
      && (b.haveData || b.chainTx != 0 ==> b.nTx > 0)
  }

  ghost predicate WorkGrows(blocks: set<BlockIndex>) {
    forall b | b in blocks && b.pprev != null :: b.pprev.chainWork < b.chainWork
  }

  ghost function Counted(blocks: set<BlockIndex>): set<BlockIndex>
    reads blocks`chainTx
  {
    set b | b in blocks && b.chainTx != 0
  }

  /** Sequence numbers handed out are below the next one. */
  ghost predicate Numbered(cs: Chainstate)
    reads cs`nextSequence, cs`blocks, cs.blocks`sequenceId
  {
    cs.nextSequence > SEQ_ID_INIT && forall b | b in cs.blocks :: b.sequenceId < cs.nextSequence
  }

  /** There is a tip, and it may be a candidate. */
  ghost predicate TipFit(cs: Chainstate)
    reads cs`blocks, cs.chain`vChain, cs.blocks`failed, cs.blocks`validity, cs.blocks`chainTx
  {
    cs.chain.Tip() in cs.blocks && CanBeCandidate(cs.chain.Tip())
  }

  /** It has data, too. */
  ghost predicate TipOk(cs: Chainstate)
    reads cs`blocks, cs.chain`vChain, cs.blocks`failed, cs.blocks`validity, cs.blocks`chainTx, cs.blocks`haveData
  {
    TipFit(cs) && cs.chain.Tip().haveData
  }

  ghost predicate AllCounted(cs: Chainstate)
    reads cs`candidates, cs.candidates`chainTx
  {
    forall c | c in cs.candidates :: c.chainTx != 0
  }

  /**
    A block fit to be a candidate and not worse than the tip is one, or the recorded pairs lead to the data it waits
    for.
   */
  ghost predicate NoneLost(cs: Chainstate)
    requires Closed(cs.blocks)
    reads cs`candidates, cs`unlinked, cs`blocks, cs.chain`vChain
    reads cs.blocks`failed, cs.blocks`haveData, cs.blocks`validity, cs.blocks`chainTx, cs.blocks`sequenceId
  {
    forall b | b in cs.Eligible() :: b in cs.candidates || Waits(cs.chain.vChain, NoData(cs.blocks), cs.unlinked, b)
  }

  /** No candidate is worse than the tip. */
  ghost predicate NoneWorse(cs: Chainstate)
    reads cs`candidates, cs`blocks, cs.chain`vChain, cs.blocks`sequenceId, cs.candidates`sequenceId
  {
    forall c | c in cs.candidates :: !cs.Worse(c)
  }

  /** Flags, counts and recorded pairs agree. */
  ghost predicate Booked(cs: Chainstate)
    reads cs`blocks, cs`unlinked, cs.chain`vChain, cs.blocks`validity, cs.blocks`haveData, cs.blocks`nTx
    reads cs.blocks`chainTx
  {
    && FlagsOk(cs.blocks) && WorkGrows(cs.blocks)
    && GraphOk(cs.chain.vChain, cs.blocks, NoData(cs.blocks), Counted(cs.blocks), cs.unlinked)
  }

  /** What holds whenever there is an active tip, even in the middle of a reorganization. */
  ghost predicate Standing(cs: Chainstate)
    requires cs.Valid()
    reads cs`order, cs`candidates, cs`waiting, cs`unlinked, cs`blocks, cs`nextSequence, cs.chain`vChain, cs.blocks
    reads cs.candidates
  {
    Booked(cs) && Numbered(cs) && TipFit(cs) && AllCounted(cs) && FailurePassesOn(cs.blocks) && NoneLost(cs)
  }

  /** What holds between operations. */
  ghost predicate Settled(cs: Chainstate)
    requires cs.Valid()
    reads cs`order, cs`candidates, cs`waiting, cs`unlinked, cs`blocks, cs`nextSequence, cs.chain`vChain, cs.blocks
    reads cs.candidates
  {
    Standing(cs) && TipOk(cs)
  }

  /** There is but one block without a parent. */
  ghost predicate Rooted(blocks: set<BlockIndex>) {
    forall a, b | a in blocks && b in blocks && a.pprev == null && b.pprev == null :: a == b
  }

  /** No data was given up so far: pairs are recorded once, for blocks that are not counted yet. */
  ghost predicate Unpruned(cs: Chainstate)
    reads cs`unlinked, cs`blocks, cs.blocks`chainTx, cs.blocks`haveData
  {
    && cs.NeverPruned()
    && forall x | x in cs.unlinked :: cs.unlinked[x] == 1 && x.1 in cs.blocks && x.1.chainTx == 0
  }

  /** A usable block that could be a tip is not missing from the candidates. */
  lemma NoneMissed(cs: Chainstate, b: BlockIndex)
    requires cs.Valid() && Standing(cs) && b in cs.Eligible() && Usable(cs.chain.vChain, Broken(cs.blocks), b)
    ensures b in cs.candidates
  {
    if b !in cs.candidates {
      WaitingUnusable(cs.chain.vChain, Broken(cs.blocks), NoData(cs.blocks), cs.unlinked, b);
    }
  }

  lemma TipIsCandidate(cs: Chainstate)
    requires cs.Valid() && Standing(cs)
    ensures cs.chain.Tip() in cs.candidates && Usable(cs.chain.vChain, Broken(cs.blocks), cs.chain.Tip())
    ensures !cs.Worse(cs.chain.Tip())
  {
    hide GraphOk, Ancestor;
    var tip := cs.chain.Tip();
    AncestorSelf(tip);
    assert On(cs.chain.vChain, tip);
    LessIsTotal(cs.blocks, tip, tip, tip);
    assert tip in cs.Eligible();
    NoneMissed(cs, tip);
  }

  /** What holds between operations, as long as the candidates are stored in order. */
  ghost predicate Good(cs: Chainstate)
    reads cs, cs.chain`vChain, cs.blocks, cs.candidates
  {
    cs.Valid() && Settled(cs) && NoneWorse(cs) && Rooted(cs.blocks)
  }
}
