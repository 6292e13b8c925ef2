/** Declaring a block invalid by hand: InvalidateBlock, which first takes it off the chain. */
module MostWorkInvalidate {
  import opened Chain
  import opened MostWorkOrder
  import opened MostWork
  import opened MostWorkLinks
  import opened MostWorkState
  import opened MostWorkArrival
  import opened MostWorkMoves
  import opened MostWorkBack
  import opened MostWorkActivation

  /** The blocks off the chain that have not failed and are not worse than the given one. */
  function HighWork(cs: Chainstate, least: BlockIndex): set<BlockIndex>
    reads cs`blocks, cs.chain`vChain, cs.blocks`failed, cs.blocks`sequenceId, least`sequenceId
  {
    set b | b in cs.blocks && !cs.chain.Contains(b) && !Less(b, least) && !b.failed
  }

  // ---- The scan of the high-work blocks ----

  /** One block of the scan: failed with the block taken off, or else a candidate if it is fit. */
  method ScanOne(cs: Chainstate, c: BlockIndex, off: BlockIndex, tip: BlockIndex) returns (up: bool)
    requires cs.Valid() && c in cs.blocks && off in cs.blocks && cs.chain.Tip() == tip && tip in cs.blocks
    modifies cs`order, cs`candidates, c`failed
    ensures cs.Valid() && Linked(c) && (c.failed <==> old(c.failed) || Descends(c, off)) && (up <==> Descends(c, off))
    ensures cs.candidates == if !Descends(c, off) && !Less(c, tip) && CanBeCandidate(c) then old(cs.candidates) + {c}
                             else old(cs.candidates)
    ensures CanBeCandidate(c) ==> c.chainTx != 0
  {
    hide Chainstate.Sound, Chainstate.InOrder, Less, Ancestor;
    up := GetUp(cs, c, off);
    if up {
      c.failed := true;
    } else if !Less(c, tip) && CanBeCandidate(c) {
      cs.Insert(c);
    }
  }

  method GetUp(cs: Chainstate, c: BlockIndex, off: BlockIndex) returns (r: bool)
    requires cs.Valid() && c in cs.blocks && off in cs.blocks
    ensures Linked(c) && (r <==> Descends(c, off))
  {
    var a := c.GetAncestor(off.nHeight, cs.blocks);
    r := a == off;
  }

  /** Scan the blocks of at least the tip's work; those failed leave the list. */
  method Scan(cs: Chainstate, list: set<BlockIndex>, off: BlockIndex, tip: BlockIndex) returns (list': set<BlockIndex>)
    requires cs.Valid() && list <= cs.blocks && off in cs.blocks && cs.chain.Tip() == tip && tip in cs.blocks
    modifies cs`order, cs`candidates, cs.blocks`failed
    ensures cs.Valid() && list' <= list
    ensures forall c | c in cs.blocks ::
      c.failed <==> old(c.failed) || (c in list && c.chainWork >= tip.chainWork && Descends(c, off))
    ensures forall c | c in list :: c in list' || (c.chainWork >= tip.chainWork && Descends(c, off))
    ensures old(cs.candidates) <= cs.candidates <= old(cs.candidates) + (set c | c in list && !Less(c, tip))
    ensures forall c | c in list && c.chainWork >= tip.chainWork && !Less(c, tip) && CanBeCandidate(c) ::
      Descends(c, off) || c in cs.candidates
    ensures forall c | c in cs.candidates && c !in old(cs.candidates) :: c.chainTx != 0
  {
    hide Chainstate.Valid, Less, Linked, Descends, CanBeCandidate, Closed;
    SoundTree(cs);
    list' := list;
    var todo := list;
    while todo != {}
      invariant cs.Valid() && Closed(cs.blocks) && todo <= list && list' <= list && todo <= list'
      invariant forall c | c in cs.blocks ::
        c.failed <==> old(c.failed) || (c in list - todo && c.chainWork >= tip.chainWork && Descends(c, off))
      invariant forall c | c in list :: c in list' || (c.chainWork >= tip.chainWork && Descends(c, off))
      invariant old(cs.candidates) <= cs.candidates <= old(cs.candidates) + (set c | c in list && !Less(c, tip))
      invariant forall c | c in list - todo && c.chainWork >= tip.chainWork && !Less(c, tip) && CanBeCandidate(c) ::
        Descends(c, off) || c in cs.candidates
      invariant forall c | c in cs.candidates && c !in old(cs.candidates) :: c.chainTx != 0
    {
      var c :| c in todo;
      todo := todo - {c};
      if c.chainWork >= tip.chainWork {
        var up := ScanOne(cs, c, off, tip);
        if up {
          list' := list' - {c};
        }
      }
    }
  }

  lemma SoundTree(cs: Chainstate)
    requires cs.Valid()
    ensures Closed(cs.blocks)
  {
  }

  // ---- One block off the chain ----

  /** The list holds all blocks that were off the chain, have not failed and are not worse than the least. */
  ghost predicate ListOk(cs: Chainstate, v0: seq<BlockIndex?>, least: BlockIndex, list: set<BlockIndex>)
    reads cs`blocks, cs.blocks`failed, cs.blocks`sequenceId, least`sequenceId
  {
    && list <= cs.blocks
    && forall b | b in cs.blocks && !On(v0, b) && !b.failed && !Less(b, least) :: b in list
  }

  /** What is no longer on the chain has failed. */
  ghost predicate OffFailed(cs: Chainstate, v0: seq<BlockIndex?>)
    reads cs`blocks, cs.chain`vChain, cs.blocks`failed
  {
    LowerPart(cs.chain.vChain, v0) && forall b | b in cs.blocks && On(v0, b) && !On(cs.chain.vChain, b) :: b.failed
  }

  lemma HighOnList(cs: Chainstate, v0: seq<BlockIndex?>, v: seq<BlockIndex?>, off: BlockIndex, least: BlockIndex,
                   list: set<BlockIndex>, failed: set<BlockIndex>, d: BlockIndex)
    requires Closed(cs.blocks) && WorkGrows(cs.blocks) && IsChain(v) && LowerPart(v, v0) && v[|v| - 1] == off
    requires off in cs.blocks && d in cs.blocks && Descends(d, off) && d != off && least.chainWork < off.chainWork
    requires forall b | b in cs.blocks && On(v0, b) && !On(v, b) :: b in failed
    requires forall b | b in cs.blocks && !On(v0, b) && b !in failed && !Less(b, least) :: b in list
    ensures d in failed || d in list
    ensures d.chainWork > off.chainWork
  {
    AncestorSelf(d);
    AncestorSelf(off);
    LessWorkBelow(cs.blocks, d, off.nHeight);
    assert !On(v, d);
  }

  /** The flags after a block was taken off: it has failed with everything built on it. */
  lemma FlagsOff(cs: Chainstate, v0: seq<BlockIndex?>, v: seq<BlockIndex?>, off: BlockIndex, tip: BlockIndex,
                 least: BlockIndex, list: set<BlockIndex>, failed: set<BlockIndex>)
    requires Closed(cs.blocks) && WorkGrows(cs.blocks) && IsChain(v) && LowerPart(v, v0) && v[|v| - 1] == off
    requires off in cs.blocks && off.pprev == tip && least.chainWork < off.chainWork && tip.chainWork <= off.chainWork
    requires forall b | b in cs.blocks && On(v0, b) && !On(v, b) :: b in failed
    requires forall b | b in cs.blocks && !On(v0, b) && b !in failed && !Less(b, least) :: b in list
    requires forall c | c in cs.blocks ::
      c.failed <==> c in failed || c == off || (c in list && c.chainWork >= tip.chainWork && Descends(c, off))
    ensures forall c | c in cs.blocks :: c.failed <==> c in failed || Descends(c, off)
  {
    hide Less, IsPath, IsChain, On;
    forall c | c in cs.blocks
      ensures c.failed <==> c in failed || Descends(c, off)
    {
      InTree(cs.blocks, c);
      if c == off {
        DescendsItself(c);
      } else if Descends(c, off) {
        HighOnList(cs, v0, v, off, least, list, failed, c);
      }
    }
  }

  /** What held before a block was taken off the chain. */
  ghost predicate WasUpright(cs: Chainstate, v: seq<BlockIndex?>, off: BlockIndex, failed: set<BlockIndex>)
    requires Closed(cs.blocks)
    reads cs`unlinked, cs`blocks, cs`nextSequence, cs.blocks`validity, cs.blocks`haveData, cs.blocks`nTx
    reads cs.blocks`chainTx, cs.blocks`sequenceId
  {
    && off in cs.blocks && IsPath(v, off) && off !in failed && FlagsOk(cs.blocks) && WorkGrows(cs.blocks) &&
      Numbered(cs)
    && GraphOk(v, cs.blocks, NoData(cs.blocks), Counted(cs.blocks), cs.unlinked)
    && forall b | b in cs.blocks && b.pprev in cs.blocks && b.pprev in failed :: b in failed
  }

  lemma PassesOn(cs: Chainstate, off: BlockIndex, failed: set<BlockIndex>)
    requires Closed(cs.blocks) && off in cs.blocks
    requires forall b | b in cs.blocks && b.pprev in cs.blocks && b.pprev in failed :: b in failed
    requires forall c | c in cs.blocks :: c.failed <==> c in failed || Descends(c, off)
    ensures FailurePassesOn(cs.blocks)
  {
    hide Descends;
    forall b | b in cs.blocks && b.pprev in cs.blocks && b.pprev.failed
      ensures b.failed
    {
      InTree(cs.blocks, b);
      DescendsNext(b, off);
    }
  }

  /** The parent of the block taken off can be the tip. */
  lemma ParentFit(cs: Chainstate, v: seq<BlockIndex?>, off: BlockIndex, failed: set<BlockIndex>)
    requires cs.Valid() && WasUpright(cs, v, off, failed) && off.pprev != null && cs.chain.Tip() == off.pprev
    requires LowerPart(cs.chain.vChain, v) && forall c | c in cs.blocks :: c.failed <==> c in failed || Descends(c, off)
    ensures TipFit(cs) && off.pprev.chainWork < off.chainWork
  {
    hide SkipsOk, Apart, Chainstate.InOrder, Holds, LinksSound, LinksComplete, CountsOk;
    var tip := off.pprev;
    InTree(cs.blocks, off);
    assert tip == v[|cs.chain.vChain| - 1] && tip in v;
    assert tip in Counted(cs.blocks);
    assert tip !in failed;
  }

  /** On a chain only the tip itself is not worse than the tip. */
  lemma OnlyTipOn(cs: Chainstate, b: BlockIndex)
    requires cs.Valid() && cs.chain.Tip() in cs.blocks && WorkGrows(cs.blocks) && On(cs.chain.vChain, b)
    requires b != cs.chain.Tip()
    ensures Less(b, cs.chain.Tip())
  {
    AncestorSelf(cs.chain.Tip());
    LessWorkBelow(cs.blocks, cs.chain.Tip(), b.nHeight);
  }

  /** Every block fit for the lower tip is a candidate. */
  lemma NoneLostOff(cs: Chainstate, v0: seq<BlockIndex?>, v: seq<BlockIndex?>, off: BlockIndex, least: BlockIndex,
                    list: set<BlockIndex>, failed: set<BlockIndex>)
    requires cs.Valid() && cs.chain.Tip() in cs.blocks && cs.chain.Tip() in cs.candidates && WorkGrows(cs.blocks)
    requires v == cs.chain.vChain + [off] && off in cs.blocks && least in cs.blocks && !Less(cs.chain.Tip(), least)
    requires forall b | b in cs.blocks && On(v0, b) && !On(v, b) :: b in failed
    requires forall b | b in cs.blocks && !On(v0, b) && b !in failed && !Less(b, least) :: b in list
    requires forall c | c in cs.blocks :: c.failed <==> c in failed || Descends(c, off)
    requires forall c | c in list && c.chainWork >= cs.chain.Tip().chainWork && !Less(c, cs.chain.Tip()) &&
                        CanBeCandidate(c) :: c in cs.blocks && (Descends(c, off) || c in cs.candidates)
    ensures NoneLost(cs)
  {
    hide SkipsOk, IsPath, Chainstate.InOrder, Holds, Waits, Descends;
    var tip := cs.chain.Tip();
    forall b | b in cs.Eligible()
      ensures b in cs.candidates
    {
      InTree(cs.blocks, b);
      if b == off {
        DescendsItself(b);
      } else if On(cs.chain.vChain, b) {
        if b != tip {
          OnlyTipOn(cs, b);
        }
      } else {
        assert !On(v, b);
        LessIsTotal(cs.blocks, b, least, tip);
        LessIsTotal(cs.blocks, least, tip, b);
      }
    }
  }

  /** With the parent as the tip the book is in order. */
  lemma OffStanding(cs: Chainstate, v: seq<BlockIndex?>, off: BlockIndex, failed: set<BlockIndex>,
                    candidates: set<BlockIndex>, list: set<BlockIndex>)
    requires cs.Valid() && WasUpright(cs, v, off, failed) && off.pprev != null && cs.chain.Tip() == off.pprev
    requires LowerPart(cs.chain.vChain, v)
    requires forall c | c in cs.blocks :: c.failed <==> c in failed || Descends(c, off)
    requires cs.candidates <= candidates + {off.pprev} + (set c | c in list && !Less(c, off.pprev))
    requires forall c | c in candidates :: c in cs.blocks && c.chainTx != 0 && !Less(c, off)
    requires forall c | c in cs.candidates && c !in candidates && c != off.pprev :: c.chainTx != 0
    requires NoneLost(cs)
    ensures Standing(cs) && NoneWorse(cs)
  {
    hide SkipsOk, Chainstate.InOrder, Holds, NoneLost, GraphOk, FlagsOk, Descends;
    ParentFit(cs, v, off, failed);
    PassesOn(cs, off, failed);
    BackGraph(cs.chain.vChain, v, cs.blocks, NoData(cs.blocks), Counted(cs.blocks), cs.unlinked);
    InTree(cs.blocks, off);
    forall c | c in cs.candidates
      ensures !cs.Worse(c)
    {
      LessIsTotal(cs.blocks, c, off.pprev, off);
    }
  }

  /** What is known before a block is taken off. */
  lemma BeforeOff(cs: Chainstate, least: BlockIndex)
    requires Upright(cs) && least in cs.blocks && On(cs.chain.vChain, least) && cs.chain.Tip() != least
    ensures Closed(cs.blocks) && cs.chain.Tip() in cs.blocks && cs.chain.Tip().pprev != null
    ensures Linked(cs.chain.Tip().pprev) && cs.chain.Tip().pprev in cs.blocks && cs.chain.Tip().pprev.chainTx != 0
    ensures WasUpright(cs, cs.chain.vChain, cs.chain.Tip(), Failures(cs.blocks)) && WorkGrows(cs.blocks)
    ensures IsChain(cs.chain.vChain) && cs.chain.Tip().pprev.chainWork <= cs.chain.Tip().chainWork
    ensures least.chainWork < cs.chain.Tip().chainWork && !Less(cs.chain.Tip().pprev, least)
    ensures forall c | c in cs.candidates :: c in cs.blocks && c.chainTx != 0 && !Less(c, cs.chain.Tip())
  {
    hide SkipsOk, Chainstate.InOrder, Holds, NoneLost, LinksSound, LinksComplete, CountsOk;
    var tip := cs.chain.Tip();
    AncestorSelf(tip);
    LessWorkBelow(cs.blocks, tip, least.nHeight);
    HasParent(tip);
    LessIsTotal(cs.blocks, least, least, least);
    if least.nHeight < tip.pprev.nHeight {
      LessWorkBelow(cs.blocks, tip.pprev, least.nHeight);
    }
  }

  lemma OneLower(v: seq<BlockIndex?>, v': seq<BlockIndex?>, off: BlockIndex, least: BlockIndex)
    requires IsChain(v) && v != [] && v[|v| - 1] == off && off.pprev != null && IsPath(v', off.pprev)
    requires On(v, least) && least != off
    ensures v == v' + [off] && LowerPart(v', v) && On(v', least)
  {
    OneOff(v, v');
  }

  /** Take the tip off the set and the chain, and put its parent in. */
  method SwapTip(cs: Chainstate, off: BlockIndex, ghost least: BlockIndex)
    requires Upright(cs) && cs.chain.Tip() == off && off.pprev != null && off.pprev in cs.blocks && Linked(off.pprev)
    requires off.pprev.chainTx != 0 && On(cs.chain.vChain, least) && least != off && off in cs.blocks
    modifies cs`order, cs`candidates, cs.chain, off`failed
    ensures cs.Valid() && cs.chain.Tip() == off.pprev && old(cs.chain.vChain) == cs.chain.vChain + [off]
    ensures LowerPart(cs.chain.vChain, old(cs.chain.vChain)) && On(cs.chain.vChain, least)
    ensures off.failed && cs.candidates == old(cs.candidates) - {off} + {off.pprev}
  {
    hide SkipsOk, Apart, IsPath, Chainstate.InOrder, Holds, Standing, NoneWorse, Rooted;
    ghost var v := cs.chain.vChain;
    cs.chain.SetTip(off.pprev);
    OneLower(v, cs.chain.vChain, off, least);
    StillSound(cs, cs.blocks, v);
    off.failed := true;
    cs.Erase(off);
    cs.Insert(off.pprev);
  }

  lemma ListIs(cs: Chainstate, v0: seq<BlockIndex?>, least: BlockIndex, list: set<BlockIndex>)
    requires ListOk(cs, v0, least, list) && OffFailed(cs, v0)
    ensures list <= cs.blocks && LowerPart(cs.chain.vChain, v0)
    ensures forall b | b in cs.blocks && On(v0, b) && !On(cs.chain.vChain, b) :: b in Failures(cs.blocks)
    ensures forall b | b in cs.blocks && !On(v0, b) && b !in Failures(cs.blocks) && !Less(b, least) :: b in list
  {
  }

  /** List and flags after a block was taken off. */
  lemma ListNext(cs: Chainstate, v0: seq<BlockIndex?>, v: seq<BlockIndex?>, off: BlockIndex, least: BlockIndex,
                 list: set<BlockIndex>, list': set<BlockIndex>, failed: set<BlockIndex>)
    requires Closed(cs.blocks) && v == cs.chain.vChain + [off] && LowerPart(v, v0) && cs.chain.vChain != []
    requires list' <= list <= cs.blocks && off in cs.blocks
    requires forall b | b in cs.blocks && On(v0, b) && !On(v, b) :: b in failed
    requires forall b | b in cs.blocks && !On(v0, b) && b !in failed && !Less(b, least) :: b in list
    requires forall c | c in cs.blocks :: c.failed <==> c in failed || Descends(c, off)
    requires forall c | c in list :: c in list' || Descends(c, off)
    ensures ListOk(cs, v0, least, list') && OffFailed(cs, v0)
  {
    hide Less, Descends;
    InTree(cs.blocks, off);
    DescendsItself(off);
    assert cs.chain.vChain == v[..|cs.chain.vChain|];
    assert v == v0[..|v|] && v0[..|v|][..|cs.chain.vChain|] == v0[..|cs.chain.vChain|];
  }

  /** One more block off the chain, failed with everything built on it; the book stays in order. */
  method TakeOff(cs: Chainstate, list: set<BlockIndex>, ghost v0: seq<BlockIndex?>, ghost least: BlockIndex)
    returns (ok: bool, list': set<BlockIndex>)
    requires Upright(cs) && ListOk(cs, v0, least, list) && OffFailed(cs, v0)
    requires least in cs.blocks && On(cs.chain.vChain, least) && cs.chain.Tip() != least
    modifies cs`order, cs`candidates, cs.chain, cs.blocks`failed
    ensures Upright(cs) && ListOk(cs, v0, least, list') && OffFailed(cs, v0) && On(cs.chain.vChain, least)
    ensures Closed(cs.blocks) && old(cs.chain.Tip()) in cs.blocks
    ensures !ok ==> cs.chain.vChain == old(cs.chain.vChain) && !cs.chain.Tip().haveData
    ensures !ok ==> forall d | d in cs.blocks :: d.failed == old(d.failed)
    ensures ok ==> old(cs.chain.vChain) == cs.chain.vChain + [old(cs.chain.Tip())]
    ensures ok ==> forall d | d in cs.blocks :: d.failed <==> old(d.failed) || Descends(d, old(cs.chain.Tip()))
  {
    hide SkipsOk, Apart, IsPath, Chainstate.InOrder, Holds, Standing, NoneWorse, Rooted, Less, GraphOk, Descends;
    hide Ancestor;
    hide FlagsOk, CanBeCandidate, Linked, ListOk, OffFailed, On, WasUpright, LowerPart;
    BeforeOff(cs, least);
    ListIs(cs, v0, least, list);
    var off := cs.chain.Tip();
    if !off.haveData {
      return false, list;
    }
    ghost var v, failed, candidates := cs.chain.vChain, Failures(cs.blocks), cs.candidates;
    SwapTip(cs, off, least);
    list' := Scan(cs, list, off, off.pprev);
    FlagsOff(cs, v0, v, off, off.pprev, least, list, failed);
    NoneLostOff(cs, v0, v, off, least, list, failed);
    OffStanding(cs, v, off, failed, candidates, list);
    ListNext(cs, v0, v, off, least, list, list', failed);
    ok := true;
  }

  // ---- The whole operation ----

  /** Fail a block off the chain with everything built on it, and bring the candidates in line. */
  method MarkInvalid(cs: Chainstate, p: BlockIndex)
    requires Upright(cs) && p in cs.blocks && !On(cs.chain.vChain, p)
    modifies cs`order, cs`candidates, cs`bestInvalid, cs.blocks`failed
    ensures Upright(cs) && cs.candidates == cs.Eligible() && Closed(cs.blocks)
    ensures forall d | d in cs.blocks :: d.failed <==> old(d.failed) || Descends(d, p)
  {
    hide Standing, NoneWorse, Rooted, Chainstate.Valid, Descends, On, Chainstate.Eligible;
    UprightTree(cs);
    if p.failed {
      BuiltOnFailed(cs, p);
      ReportInvalidChain(cs, p);
    } else {
      Invalidate(cs, p, false);
    }
  }

  lemma BuiltOnFailed(cs: Chainstate, p: BlockIndex)
    requires Upright(cs) && p in cs.blocks && p.failed
    ensures Closed(cs.blocks) && forall d | d in cs.blocks && Descends(d, p) :: d.failed
  {
    hide SkipsOk, Apart, IsPath, NoneLost, GraphOk, Descends;
    forall d | d in cs.blocks && Descends(d, p)
      ensures d.failed
    {
      FailureUp(cs.blocks, d, p);
    }
  }

  /** The blocks taken off so far have failed with everything built on the last of them, and nothing else has. */
  ghost predicate FailedFrom(cs: Chainstate, v0: seq<BlockIndex?>, failed0: set<BlockIndex>)
    requires Closed(cs.blocks)
    reads cs`blocks, cs.chain`vChain, cs.blocks`failed
  {
    LowerPart(cs.chain.vChain, v0) &&
      forall d | d in cs.blocks ::
        d.failed <==> d in failed0 || (|cs.chain.vChain| < |v0| && v0[|cs.chain.vChain|] != null &&
                                       Descends(d, v0[|cs.chain.vChain|]))
  }

  lemma FailedBegins(cs: Chainstate)
    requires Closed(cs.blocks) && cs.chain.vChain != []
    ensures FailedFrom(cs, cs.chain.vChain, Failures(cs.blocks))
  {
    assert cs.chain.vChain == cs.chain.vChain[..|cs.chain.vChain|];
  }

  lemma FailedNext(cs: Chainstate, v0: seq<BlockIndex?>, v: seq<BlockIndex?>, off: BlockIndex, failed0: set<BlockIndex>,
                   failed: set<BlockIndex>)
    requires Closed(cs.blocks) && cs.chain.vChain != [] && v == cs.chain.vChain + [off] && LowerPart(v, v0)
    requires IsChain(v0) && off in cs.blocks && forall x | x in v0 :: x in cs.blocks
    requires forall d | d in cs.blocks :: d in failed <==> d in failed0 || (|v| < |v0| && v0[|v|] != null &&
                                                                            Descends(d, v0[|v|]))
    requires forall d | d in cs.blocks :: d.failed <==> d in failed || Descends(d, off)
    ensures FailedFrom(cs, v0, failed0)
  {
    hide Ancestor;
    var n := |cs.chain.vChain|;
    assert v0[..|v|][..n] == v0[..n] && v0[n] == v[n] == off;
    if |v| < |v0| {
      var above := v0[|v|];
      assert above in v0;
      ChainDescends(v0, |v|, n);
      forall d | d in cs.blocks
        ensures Descends(d, above) ==> Descends(d, off)
      {
        InTree(cs.blocks, d);
        InTree(cs.blocks, above);
        DescendsOn(d, above, off);
      }
    }
  }

  lemma ChainDescends(v: seq<BlockIndex?>, i: nat, j: nat)
    requires IsChain(v) && j <= i < |v|
    ensures v[i] != null && v[j] != null && Linked(v[i]) && Descends(v[i], v[j])
  {
    AncestorTrans(v[|v| - 1], i, j);
  }

  lemma StartList(cs: Chainstate, p: BlockIndex, list: set<BlockIndex>)
    requires Upright(cs) && p in cs.blocks && p.pprev != null && list == HighWork(cs, p.pprev)
    ensures p.pprev in cs.blocks && Closed(cs.blocks) && ListOk(cs, cs.chain.vChain, p.pprev, list)
    ensures OffFailed(cs, cs.chain.vChain) && FailedFrom(cs, cs.chain.vChain, Failures(cs.blocks))
    ensures IsChain(cs.chain.vChain) && forall x | x in cs.chain.vChain :: x in cs.blocks
  {
    hide SkipsOk, Apart, IsPath, Standing, NoneWorse, Less, Chainstate.InOrder;
    UprightTree(cs);
    InTree(cs.blocks, p);
    FailedBegins(cs);
    forall b | b in cs.blocks
      ensures cs.chain.Contains(b) <==> On(cs.chain.vChain, b)
    {
    }
  }

  lemma ParentOnToo(cs: Chainstate, p: BlockIndex)
    requires Upright(cs) && p in cs.blocks && p.pprev != null && On(cs.chain.vChain, p)
    ensures On(cs.chain.vChain, p.pprev) && cs.chain.Tip() != p.pprev && cs.chain.Tip() in cs.blocks
  {
    UprightTree(cs);
    InTree(cs.blocks, p);
    ParentOn(cs.chain.vChain, p);
  }

  /** With `p` just off the chain, it is the last block taken off. */
  lemma LastOff(cs: Chainstate, v0: seq<BlockIndex?>, p: BlockIndex, failed0: set<BlockIndex>)
    requires Closed(cs.blocks) && p in cs.blocks && LowerPart(cs.chain.vChain, v0) && On(v0, p)
    requires !On(cs.chain.vChain, p) && p.pprev != null && On(cs.chain.vChain, p.pprev)
    requires FailedFrom(cs, v0, failed0)
    ensures cs.chain.vChain == v0[..p.nHeight]
    ensures forall d | d in cs.blocks :: d.failed <==> d in failed0 || Descends(d, p)
  {
    InTree(cs.blocks, p);
  }

  /** Take blocks off the chain until `p` is off. */
  method Unwind(cs: Chainstate, p: BlockIndex) returns (ok: bool)
    requires Upright(cs) && p in cs.blocks && p.pprev != null
    modifies cs`order, cs`candidates, cs.chain, cs.blocks`failed
    ensures Upright(cs) && Closed(cs.blocks) && cs.chain.Tip() in cs.blocks
    ensures LowerPart(cs.chain.vChain, old(cs.chain.vChain))
    ensures !ok ==> !cs.chain.Tip().haveData
    ensures ok ==> !On(cs.chain.vChain, p) && if old(On(cs.chain.vChain, p)) then
        cs.chain.vChain == old(cs.chain.vChain)[..p.nHeight] &&
        forall d | d in cs.blocks :: d.failed <==> old(d.failed) || Descends(d, p)
      else cs.chain.vChain == old(cs.chain.vChain) && forall d | d in cs.blocks :: d.failed == old(d.failed)
  {
    hide Standing, NoneWorse, Rooted, Chainstate.Valid, Descends, ListOk, OffFailed, FailedFrom, Less, IsChain, Linked;
    UprightTree(cs);
    var list := HighWork(cs, p.pprev);
    StartList(cs, p, list);
    WholeChain(cs.chain.vChain);
    ghost var v0, failed0 := cs.chain.vChain, Failures(cs.blocks);
    while cs.chain.Contains(p)
      invariant Upright(cs) && ListOk(cs, v0, p.pprev, list) && OffFailed(cs, v0) && FailedFrom(cs, v0, failed0)
      invariant LowerPart(cs.chain.vChain, v0) && cs.chain.Tip() in cs.blocks
      invariant if |cs.chain.vChain| < |v0| then On(v0, p) && On(cs.chain.vChain, p.pprev)
        else cs.chain.vChain == v0 && Failures(cs.blocks) == failed0
      decreases |cs.chain.vChain|
    {
      ParentOnToo(cs, p);
      ghost var v, off, failed := cs.chain.vChain, cs.chain.Tip(), Failures(cs.blocks);
      FailedIs(cs, v0, failed0);
      ok, list := TakeOff(cs, list, v0, p.pprev);
      if !ok {
        return;
      }
      FailedNext(cs, v0, v, off, failed0, failed);
      UprightTree(cs);
    }
    if On(v0, p) {
      LastOff(cs, v0, p, failed0);
    }
    SameFlags(cs, failed0);
    ok := true;
  }

  lemma FailedIs(cs: Chainstate, v0: seq<BlockIndex?>, failed0: set<BlockIndex>)
    requires Closed(cs.blocks) && FailedFrom(cs, v0, failed0)
    ensures
      var n := |cs.chain.vChain|;
      forall d | d in cs.blocks ::
        d in Failures(cs.blocks) <==> d in failed0 || (n < |v0| && v0[n] != null && Descends(d, v0[n]))
  {
  }

  lemma SameFlags(cs: Chainstate, failed0: set<BlockIndex>)
    ensures Failures(cs.blocks) == failed0 ==> forall d | d in cs.blocks :: d.failed <==> d in failed0
  {
    if Failures(cs.blocks) == failed0 {
      forall d | d in cs.blocks
        ensures d.failed <==> d in failed0
      {
        assert d.failed <==> d in Failures(cs.blocks);
      }
    }
  }

  /**
    Declare a block invalid: take it and what is above it off the chain, then fail it with everything built on it. The
    book is in order after every block taken off. The genesis block cannot be invalidated, and it ends early where
    data to take a block off is gone.
   */
  method InvalidateBlock(cs: Chainstate, p: BlockIndex) returns (ok: bool)
    requires Upright(cs) && p in cs.blocks
    modifies cs`order, cs`candidates, cs`bestInvalid, cs.chain, cs.blocks`failed
    ensures Upright(cs) && Closed(cs.blocks) && cs.chain.Tip() in cs.blocks
    ensures LowerPart(cs.chain.vChain, old(cs.chain.vChain))
    ensures ok ==> p.pprev != null && forall d | d in cs.blocks :: d.failed <==> old(d.failed) || Descends(d, p)
    ensures ok ==> cs.candidates == cs.Eligible()
    ensures ok ==>
      cs.chain.vChain == if old(On(cs.chain.vChain, p)) then old(cs.chain.vChain)[..p.nHeight] else old(cs.chain.vChain)
    ensures !ok && p.pprev != null ==> !cs.chain.Tip().haveData
    ensures p.pprev == null ==> cs.chain.vChain == old(cs.chain.vChain) && forall d | d in cs.blocks ::
      d.failed == old(d.failed)
  {
    hide Standing, NoneWorse, Rooted, Chainstate.Valid, Descends, Less, IsChain, Linked, Chainstate.Eligible;
    UprightTree(cs);
    if p.pprev == null {
      WholeChain(cs.chain.vChain);
      return false;
    }
    ok := Unwind(cs, p);
    if ok {
      MarkInvalid(cs, p);
    }
  }

  lemma WholeChain(v: seq<BlockIndex?>)
    requires v != []
    ensures LowerPart(v, v)
  {
  }
}
