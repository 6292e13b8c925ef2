/** The loops of ActivateBestChain: steps until the best chain is active, whatever blocks turn out to be invalid. */
module MostWorkBest {
  import opened Chain
  import opened MostWorkOrder
  import opened MostWork
  import opened MostWorkLinks
  import opened MostWorkState
  import opened MostWorkArrival
  import opened MostWorkMoves
  import opened MostWorkBack
  import opened MostWorkActivation

  // ---- Progress ----

  /** The blocks better than this one. */
  ghost function Better(blocks: set<BlockIndex>, tip: BlockIndex): set<BlockIndex>
    reads blocks`sequenceId, tip`sequenceId
  {
    set b | b in blocks && Less(tip, b)
  }

  lemma FewerBetter(blocks: set<BlockIndex>, a: BlockIndex, b: BlockIndex)
    requires Apart(blocks) && a in blocks && b in blocks && Less(a, b)
    ensures |Better(blocks, b)| < |Better(blocks, a)|
  {
    forall x | x in Better(blocks, b)
      ensures x in Better(blocks, a)
    {
      LessIsTotal(blocks, a, b, x);
    }
    LessIsTotal(blocks, b, b, b);
    assert b in Better(blocks, a) && b !in Better(blocks, b);
    Smaller(Better(blocks, b), Better(blocks, a));
  }

  lemma FewerUnfailed(blocks: set<BlockIndex>, failures: set<BlockIndex>, failures': set<BlockIndex>)
    requires failures < failures' <= blocks
    ensures |blocks - failures'| < |blocks - failures|
  {
    var b :| b in failures' && b !in failures;
    assert b in blocks - failures && b !in blocks - failures';
    Smaller(blocks - failures', blocks - failures);
  }

  // ---- Coming back ----

  /** A block the chain could come back to is usable, unless it failed. */
  lemma {:induction false} HeldUsable(cs: Chainstate, s: BlockIndex)
    requires Closed(cs.blocks) && s in cs.blocks && FailurePassesOn(cs.blocks) && !s.failed
    requires Held(cs.chain.vChain, NoData(cs.blocks), s)
    ensures Usable(cs.chain.vChain, Broken(cs.blocks), s)
    decreases s.nHeight
  {
    InTree(cs.blocks, s);
    AncestorSelf(s);
    if !On(cs.chain.vChain, s) && s.pprev != null {
      forall h: nat | h <= s.pprev.nHeight
        ensures On(cs.chain.vChain, Ancestor(s.pprev, h)) || Ancestor(s.pprev, h) !in NoData(cs.blocks)
      {
        assert Ancestor(s, h) == Ancestor(s.pprev, h);
      }
      HeldUsable(cs, s.pprev);
    }
  }

  /** With the goal reached, the tip is not worse than a tip the chain had. */
  lemma NotWorseThan(cs: Chainstate, s: BlockIndex)
    requires Upright(cs) && cs.chain.Tip() != null && Goal(cs, cs.chain.Tip()) && s in cs.blocks
    requires CanBeCandidate(s) && Linked(s) && Held(cs.chain.vChain, NoData(cs.blocks), s)
    ensures !Less(cs.chain.Tip(), s)
  {
    hide SkipsOk, Usable, Chainstate.InOrder, Holds, GraphOk, NoneLost, Held;
    HeldUsable(cs, s);
    LessIsTotal(cs.blocks, cs.chain.Tip(), s, s);
  }

  /** A tip without data lies below every tip the chain had. */
  lemma TipHasData(cs: Chainstate, s: BlockIndex, tips: set<BlockIndex>, failed0: set<BlockIndex>,
                   invalid: set<BlockIndex>)
    requires Upright(cs) && AlongNow(cs, tips, failed0, invalid) && s in tips && s.haveData
    requires cs.chain.Tip() != null && !Less(cs.chain.Tip(), s)
    ensures cs.chain.Tip().haveData
  {
    hide SkipsOk, Usable, Chainstate.InOrder, Holds, GraphOk, NoneLost, Held, BuiltOn;
    var tip := cs.chain.Tip();
    if !tip.haveData {
      assert tip in cs.chain.vChain && tip in NoData(cs.blocks);
      assert Descends(s, tip);
      LessWorkBelow(cs.blocks, s, tip.nHeight);
    }
  }

  // ---- The inner loop ----

  /** More blocks are failed, or as many and the tip is better. */
  ghost predicate Progress(failures: set<BlockIndex>, tip: BlockIndex, failures': set<BlockIndex>, tip': BlockIndex)
    reads tip`sequenceId, tip'`sequenceId
  {
    failures < failures' || (failures == failures' && Less(tip, tip'))
  }

  /** One step is progress. */
  method Move(cs: Chainstate, m: BlockIndex, invalid: set<BlockIndex>, ghost tips: set<BlockIndex>,
              ghost failed0: set<BlockIndex>)
    returns (found: bool, ok: bool)
    requires Upright(cs) && Goal(cs, m) && m != cs.chain.Tip() && AlongNow(cs, tips, failed0, invalid)
    modifies cs`order, cs`candidates, cs`bestInvalid, cs.chain, cs.blocks`failed
    ensures ok ==> Upright(cs) && AlongNow(cs, tips, failed0, invalid) && (!found ==> Goal(cs, m))
    ensures ok ==> cs.chain.Tip() in cs.blocks && old(cs.chain.Tip()) in cs.blocks
    ensures ok ==> Progress(old(Failures(cs.blocks)), old(cs.chain.Tip()), Failures(cs.blocks), cs.chain.Tip())
    ensures !ok ==> exists b | b in cs.blocks :: b in NoData(cs.blocks) && forall t | t in tips :: Descends(t, b)
  {
    hide Standing, NoneWorse, Rooted, Chainstate.Valid, Goal, AlongNow, Failures, NoData, Descends, Linked, Closed;
    hide SkipsOk, IsChain;
    UprightTree(cs);
    GoalOffChain(cs, m);
    found, ok := ActivateStep(cs, m, invalid, tips, failed0);
    if ok {
      UprightTree(cs);
    }
  }

  lemma OnIsBelow(v: seq<BlockIndex?>, tip: BlockIndex, b: BlockIndex)
    requires Linked(tip) && IsPath(v, tip)
    ensures Descends(tip, b) <==> b in v
  {
    if b in v {
      var h :| 0 <= h < |v| && v[h] == b;
    }
  }

  /** The present tip can be added to the tips the chain had. */
  lemma AlongStart(cs: Chainstate, tips: set<BlockIndex>, failed0: set<BlockIndex>, invalid: set<BlockIndex>)
    requires Upright(cs) && AlongNow(cs, tips, failed0, invalid) && cs.chain.Tip() != null
    ensures AlongNow(cs, tips + {cs.chain.Tip()}, failed0, invalid)
  {
    hide SkipsOk, Usable, Chainstate.InOrder, Holds, GraphOk, NoneLost, Apart;
    var tip, v := cs.chain.Tip(), cs.chain.vChain;
    forall x: BlockIndex | x in v || x in invalid
      ensures Descends(tip, x) <==> x in v
    {
      OnIsBelow(v, tip, x);
    }
    assert !BuiltOn(tip, invalid);
    forall h: nat | h <= tip.nHeight
      ensures On(v, Ancestor(tip, h))
    {
    }
  }

  lemma AlongFewer(cs: Chainstate, tips: set<BlockIndex>, tips': set<BlockIndex>, failed0: set<BlockIndex>,
                   invalid: set<BlockIndex>)
    requires AlongNow(cs, tips', failed0, invalid) && tips <= tips'
    ensures AlongNow(cs, tips, failed0, invalid)
  {
    hide Held, BuiltOn;
  }

  lemma ProgressOn(blocks: set<BlockIndex>, failures: set<BlockIndex>, a: BlockIndex, failures': set<BlockIndex>,
                   b: BlockIndex, failures'': set<BlockIndex>, c: BlockIndex)
    requires Apart(blocks) && a in blocks && b in blocks && c in blocks
    requires (failures == failures' && a == b) || Progress(failures, a, failures', b)
    requires Progress(failures', b, failures'', c)
    ensures Progress(failures, a, failures'', c)
  {
    LessIsTotal(blocks, a, b, c);
  }

  /** Steps until the tip is at least as good as at the start. */
  method ActivateLocked(cs: Chainstate, goal: BlockIndex?, invalid: set<BlockIndex>, ghost tips: set<BlockIndex>,
                        ghost failed0: set<BlockIndex>)
    returns (most: BlockIndex?, connected: bool, ok: bool)
    requires Upright(cs) && AlongNow(cs, tips, failed0, invalid) && cs.chain.Tip() != null && cs.chain.Tip().haveData
    requires goal != null ==> Goal(cs, goal)
    modifies cs`order, cs`candidates, cs`waiting, cs`unlinked, cs`bestInvalid, cs.chain, cs.blocks`failed
    ensures ok ==> Upright(cs) && AlongNow(cs, tips, failed0, invalid) && (most != null ==> Goal(cs, most))
    ensures ok ==> cs.chain.Tip() in cs.blocks && cs.chain.Tip().haveData && old(cs.chain.Tip()) in cs.blocks
    ensures ok ==> !Less(cs.chain.Tip(), old(cs.chain.Tip()))
    ensures ok && !connected ==> most == cs.chain.Tip()
    ensures ok && connected ==>
      Progress(old(Failures(cs.blocks)), old(cs.chain.Tip()), Failures(cs.blocks), cs.chain.Tip())
    ensures !ok ==> exists b | b in cs.blocks :: b in NoData(cs.blocks) && forall t | t in tips :: Descends(t, b)
    ensures old(Unpruned(cs)) ==> Unpruned(cs)
  {
    hide Standing, NoneWorse, Rooted, Chainstate.Valid, Goal, AlongNow, Failures, NoData, Descends, Less, Better;
    hide Unpruned;
    hide Progress, Closed, IsChain, SkipsOk;
    UprightTree(cs);
    most, connected, ok := goal, false, true;
    var starting, stop := cs.chain.Tip(), false;
    ghost var failures, all := Failures(cs.blocks), tips + {starting};
    AlongStart(cs, tips, failed0, invalid);
    TipCounts(cs);
    ghost var left, better := Left(cs), |Better(cs.blocks, starting)|;
    while !stop
      invariant Upright(cs) && cs.Valid() && AlongNow(cs, all, failed0, invalid) && (most != null ==> Goal(cs, most))
      invariant cs.chain.Tip() in cs.blocks && starting in cs.blocks && (old(Unpruned(cs)) ==> Unpruned(cs))
      invariant !connected ==> failures == Failures(cs.blocks) && cs.chain.Tip() == starting
      invariant connected ==> Progress(failures, starting, Failures(cs.blocks), cs.chain.Tip())
      invariant left == Left(cs) && better == |Better(cs.blocks, cs.chain.Tip())|
      invariant stop ==> !Less(cs.chain.Tip(), starting) && (!connected ==> most == cs.chain.Tip())
      decreases !stop, left, better
    {
      ghost var f1, t1 := Failures(cs.blocks), cs.chain.Tip();
      var moved;
      most, stop, moved, ok := Round(cs, most, starting, invalid, all, failed0);
      if !ok {
        MissingFewer(cs, tips, all);
        return;
      }
      if moved {
        Counts(cs, f1, t1, failures, starting);
        left, better := Left(cs), |Better(cs.blocks, cs.chain.Tip())|;
        connected := true;
      }
    }
    StartIsTip(cs, starting, all, failed0, invalid);
    AlongFewer(cs, tips, all, failed0, invalid);
  }

  ghost function Left(cs: Chainstate): nat
    reads cs`blocks, cs.blocks`failed
  {
    |cs.blocks - Failures(cs.blocks)|
  }

  /** One round of the loop: choose a goal if there is none, and make a step towards it unless it is the tip. */
  method Round(cs: Chainstate, goal: BlockIndex?, starting: BlockIndex, invalid: set<BlockIndex>,
               ghost all: set<BlockIndex>, ghost failed0: set<BlockIndex>)
    returns (most: BlockIndex?, stop: bool, moved: bool, ok: bool)
    requires Upright(cs) && AlongNow(cs, all, failed0, invalid) && (goal != null ==> Goal(cs, goal))
    requires cs.chain.Tip() in cs.blocks && starting in all
    requires starting.validity >= VALID_TRANSACTIONS && starting.chainTx != 0
    modifies cs`order, cs`candidates, cs`waiting, cs`unlinked, cs`bestInvalid, cs.chain, cs.blocks`failed
    ensures all <= cs.blocks && Closed(cs.blocks) && (old(Unpruned(cs)) ==> Unpruned(cs))
    ensures ok ==> Upright(cs) && cs.Valid() && AlongNow(cs, all, failed0, invalid) && (most != null ==> Goal(cs, most))
    ensures ok ==> cs.chain.Tip() in cs.blocks && (stop ==> !Less(cs.chain.Tip(), starting))
    ensures ok && !moved ==> stop && most == cs.chain.Tip() == old(cs.chain.Tip())
    ensures ok && !moved ==> Failures(cs.blocks) == old(Failures(cs.blocks))
    ensures ok && moved ==> Progress(old(Failures(cs.blocks)), old(cs.chain.Tip()), Failures(cs.blocks), cs.chain.Tip())
    ensures !ok ==> exists b | b in cs.blocks :: b in NoData(cs.blocks) && forall t | t in all :: Descends(t, b)
  {
    hide Standing, NoneWorse, Rooted, Chainstate.Valid, Goal, Along, Failures, NoData, Descends, Less, Unpruned;
    hide Progress;
    AllInside(cs, all, failed0, invalid);
    most, moved, ok := goal, false, true;
    if most == null {
      most := Select(cs);
    }
    if most == cs.chain.Tip() {
      StartingBehind(cs, starting, all, failed0, invalid);
      stop := true;
    } else {
      var found;
      found, ok := Move(cs, most, invalid, all, failed0);
      moved, stop := true, true;
      if ok {
        if found {
          most := null;
        }
        stop := !Less(cs.chain.Tip(), starting);
      }
    }
  }

  lemma AllInside(cs: Chainstate, tips: set<BlockIndex>, failed0: set<BlockIndex>, invalid: set<BlockIndex>)
    requires AlongNow(cs, tips, failed0, invalid)
    ensures Closed(cs.blocks) && tips <= cs.blocks
  {
  }

  lemma TipCounts(cs: Chainstate)
    requires Upright(cs) && cs.chain.Tip() != null
    ensures cs.chain.Tip().validity >= VALID_TRANSACTIONS && cs.chain.Tip().chainTx != 0
  {
  }

  method Select(cs: Chainstate) returns (m: BlockIndex)
    requires Upright(cs)
    modifies cs`order, cs`candidates, cs`waiting, cs`unlinked, cs`bestInvalid
    ensures Upright(cs) && Goal(cs, m) && (old(Unpruned(cs)) ==> Unpruned(cs))
  {
    hide Standing, NoneWorse, Rooted, Chainstate.Valid, Goal, Unpruned;
    m := Choose(cs);
  }

  /** If the goal is the tip, the tip is not worse than the one at the start. */
  lemma StartingBehind(cs: Chainstate, s: BlockIndex, tips: set<BlockIndex>, failed0: set<BlockIndex>,
                       invalid: set<BlockIndex>)
    requires Upright(cs) && AlongNow(cs, tips, failed0, invalid) && s in tips && cs.chain.Tip() != null
    requires Goal(cs, cs.chain.Tip()) && s.validity >= VALID_TRANSACTIONS && s.chainTx != 0
    ensures !Less(cs.chain.Tip(), s)
  {
    hide Standing, NoneWorse, Chainstate.Valid, Goal, BuiltOn, Held;
    assert s !in Failures(cs.blocks);
    NotWorseThan(cs, s);
  }

  lemma StartIsTip(cs: Chainstate, s: BlockIndex, tips: set<BlockIndex>, failed0: set<BlockIndex>,
                   invalid: set<BlockIndex>)
    requires Upright(cs) && AlongNow(cs, tips, failed0, invalid) && s in tips && s.haveData
    requires cs.chain.Tip() != null && !Less(cs.chain.Tip(), s)
    ensures cs.chain.Tip().haveData
  {
    TipHasData(cs, s, tips, failed0, invalid);
  }

  lemma MissingFewer(cs: Chainstate, tips: set<BlockIndex>, tips': set<BlockIndex>)
    requires Closed(cs.blocks) && tips <= tips' <= cs.blocks
    requires exists b | b in cs.blocks :: b in NoData(cs.blocks) && forall t | t in tips' :: Descends(t, b)
    ensures exists b | b in cs.blocks :: b in NoData(cs.blocks) && forall t | t in tips :: Descends(t, b)
  {
    var b :| b in cs.blocks && b in NoData(cs.blocks) && forall t | t in tips' :: Descends(t, b);
    assert b in NoData(cs.blocks) && forall t | t in tips :: Descends(t, b);
  }

  /** The measure that every step brings down. */
  lemma Counts(cs: Chainstate, f1: set<BlockIndex>, t1: BlockIndex, failures: set<BlockIndex>, starting: BlockIndex)
    requires Upright(cs) && cs.chain.Tip() in cs.blocks && t1 in cs.blocks && starting in cs.blocks
    requires Progress(f1, t1, Failures(cs.blocks), cs.chain.Tip())
    requires (failures == f1 && starting == t1) || Progress(failures, starting, f1, t1)
    ensures Progress(failures, starting, Failures(cs.blocks), cs.chain.Tip())
    ensures
      var left1 := |cs.blocks - f1|;
      Left(cs) < left1 || (Left(cs) == left1 && |Better(cs.blocks, cs.chain.Tip())| < |Better(cs.blocks, t1)|)
  {
    hide Standing, NoneWorse, Better, Less;
    ProgressOn(cs.blocks, failures, starting, f1, t1, Failures(cs.blocks), cs.chain.Tip());
    if f1 < Failures(cs.blocks) {
      FewerUnfailed(cs.blocks, f1, Failures(cs.blocks));
    } else {
      FewerBetter(cs.blocks, t1, cs.chain.Tip());
    }
  }

  // ---- The outer loop ----

  lemma BuiltOnParent(b: BlockIndex, invalid: set<BlockIndex>)
    requires Linked(b) && b.pprev != null && BuiltOn(b.pprev, invalid)
    ensures BuiltOn(b, invalid)
  {
    var a :| a in invalid && Descends(b.pprev, a);
    assert Descends(b, a);
  }

  lemma HeldBelow(v: seq<BlockIndex?>, noData: set<BlockIndex>, t: BlockIndex, h: nat)
    requires Linked(t) && Held(v, noData, t) && h <= t.nHeight
    ensures Held(v, noData, Ancestor(t, h))
  {
    forall g: nat | g <= h
      ensures On(v, Ancestor(Ancestor(t, h), g)) || Ancestor(Ancestor(t, h), g) !in noData
    {
      AncestorTrans(t, h, g);
    }
  }

  /** What was usable, and is not built on an invalid block, can still be used. */
  lemma {:induction false} UsableStill(cs: Chainstate, v0: seq<BlockIndex?>, broken0: set<BlockIndex>,
                                       failed0: set<BlockIndex>, t0: BlockIndex, invalid: set<BlockIndex>,
                                         x: BlockIndex)
    requires AlongNow(cs, {t0}, failed0, invalid) && FailurePassesOn(cs.blocks)
    requires NoData(cs.blocks) + failed0 <= broken0
    requires Linked(t0) && IsPath(v0, t0) && x in cs.blocks && Usable(v0, broken0, x) && !BuiltOn(x, invalid)
    ensures Usable(cs.chain.vChain, Broken(cs.blocks), x)
    decreases x.nHeight
  {
    hide BuiltOn;
    InTree(cs.blocks, x);
    if On(v0, x) {
      assert t0 in {t0} && x == Ancestor(t0, x.nHeight);
      HeldBelow(cs.chain.vChain, NoData(cs.blocks), t0, x.nHeight);
      assert t0 !in Failures(cs.blocks);
      SoundBelow(cs.blocks, t0, x.nHeight);
      HeldUsable(cs, x);
    } else {
      assert x !in Failures(cs.blocks) && x !in NoData(cs.blocks);
      if x.pprev != null {
        if BuiltOn(x.pprev, invalid) {
          BuiltOnParent(x, invalid);
        }
        UsableStill(cs, v0, broken0, failed0, t0, invalid, x.pprev);
      }
    }
  }

  /** No valid block that was usable is better than the tip. */
  lemma NoValidBetter(cs: Chainstate, v0: seq<BlockIndex?>, broken0: set<BlockIndex>, failed0: set<BlockIndex>,
                      t0: BlockIndex, invalid: set<BlockIndex>, x: BlockIndex)
    requires Good(cs) && TipIsBest(cs) && AlongNow(cs, {t0}, failed0, invalid) && NoData(cs.blocks) + failed0 <= broken0
    requires Linked(t0) && IsPath(v0, t0) && x in cs.blocks && Usable(v0, broken0, x) && !BuiltOn(x, invalid)
    requires x !in failed0 && x.validity >= VALID_TRANSACTIONS && x.chainTx != 0
    ensures x == cs.chain.Tip() || Less(x, cs.chain.Tip())
  {
    hide SkipsOk, Usable, Chainstate.InOrder, Holds, GraphOk, NoneLost, BuiltOn, Held;
    UsableStill(cs, v0, broken0, failed0, t0, invalid, x);
    assert x !in Failures(cs.blocks);
    LessIsTotal(cs.blocks, x, cs.chain.Tip(), x);
    assert x in cs.Eligible() || cs.Worse(x);
  }

  lemma GoodStart(cs: Chainstate, invalid: set<BlockIndex>)
    requires Good(cs) && forall x | x in invalid :: !On(cs.chain.vChain, x)
    ensures Upright(cs) && cs.chain.Tip() in cs.blocks && cs.chain.Tip().haveData
    ensures AlongNow(cs, {cs.chain.Tip()}, Failures(cs.blocks), invalid) && Linked(cs.chain.Tip())
    ensures IsPath(cs.chain.vChain, cs.chain.Tip()) && NoData(cs.blocks) + Failures(cs.blocks) <= Broken(cs.blocks)
  {
    hide SkipsOk, Usable, Chainstate.InOrder, Holds, GraphOk, NoneLost, Apart;
    forall x | x in cs.chain.vChain
      ensures x !in invalid
    {
    }
    assert AlongNow(cs, {}, Failures(cs.blocks), invalid);
    AlongStart(cs, {}, Failures(cs.blocks), invalid);
    assert {} + {cs.chain.Tip()} == {cs.chain.Tip()};
  }

  lemma GoodEnd(cs: Chainstate)
    requires Upright(cs) && cs.chain.Tip() != null && cs.chain.Tip().haveData && Goal(cs, cs.chain.Tip())
    ensures Good(cs) && TipIsBest(cs)
  {
    hide SkipsOk, Usable, Chainstate.InOrder, Holds, GraphOk, NoneLost, Apart, Less;
  }

  lemma NotWorseTrans(blocks: set<BlockIndex>, a: BlockIndex, b: BlockIndex, c: BlockIndex)
    requires Apart(blocks) && a in blocks && b in blocks && c in blocks && !Less(b, a) && !Less(c, b)
    ensures !Less(c, a)
  {
  }

  lemma UprightApart(cs: Chainstate)
    requires Upright(cs)
    ensures Apart(cs.blocks)
  {
  }

  /** Locked rounds until the goal is reached. */
  method ActivateRounds(cs: Chainstate, invalid: set<BlockIndex>, ghost failed0: set<BlockIndex>) returns (ok: bool)
    requires Upright(cs) && cs.chain.Tip() in cs.blocks && cs.chain.Tip().haveData
    requires AlongNow(cs, {cs.chain.Tip()}, failed0, invalid)
    modifies cs`order, cs`candidates, cs`waiting, cs`unlinked, cs`bestInvalid, cs.chain, cs.blocks`failed
    ensures Closed(cs.blocks) && (old(Unpruned(cs)) ==> Unpruned(cs)) && old(cs.chain.Tip()) in cs.blocks
    ensures ok ==> Upright(cs) && AlongNow(cs, {old(cs.chain.Tip())}, failed0, invalid)
    ensures ok ==> cs.chain.Tip() in cs.blocks && cs.chain.Tip().haveData && Goal(cs, cs.chain.Tip())
    ensures ok ==> !Less(cs.chain.Tip(), old(cs.chain.Tip()))
    ensures !ok ==> exists b | b in cs.blocks :: b in NoData(cs.blocks) && Descends(old(cs.chain.Tip()), b)
  {
    hide Standing, NoneWorse, Rooted, Chainstate.Valid, Goal, AlongNow, Failures, NoData, Descends, Less, Better;
    hide Unpruned;
    hide Progress, IsChain, SkipsOk, Apart;
    UprightTree(cs);
    UprightApart(cs);
    ghost var t0 := cs.chain.Tip();
    LessIsTotal(cs.blocks, t0, t0, t0);
    var most: BlockIndex?, stop := null, false;
    ok := true;
    ghost var left, better := Left(cs), |Better(cs.blocks, t0)|;
    while !stop
      invariant Upright(cs) && cs.Valid() && AlongNow(cs, {t0}, failed0, invalid) && (most != null ==> Goal(cs, most))
      invariant cs.chain.Tip() in cs.blocks && cs.chain.Tip().haveData && !Less(cs.chain.Tip(), t0)
      invariant (old(Unpruned(cs)) ==> Unpruned(cs)) && (stop ==> most == cs.chain.Tip())
      invariant left == Left(cs) && better == |Better(cs.blocks, cs.chain.Tip())|
      decreases !stop, left, better
    {
      ghost var f1, t1 := Failures(cs.blocks), cs.chain.Tip();
      var connected;
      most, connected, ok := ActivateLocked(cs, most, invalid, {t0}, failed0);
      if !ok {
        OneMissing(cs, t0);
        return;
      }
      NotWorseTrans(cs.blocks, t0, t1, cs.chain.Tip());
      if connected {
        Counts(cs, f1, t1, f1, t1);
      }
      left, better := Left(cs), |Better(cs.blocks, cs.chain.Tip())|;
      stop := !connected || most == cs.chain.Tip();
    }
  }

  lemma OneMissing(cs: Chainstate, t0: BlockIndex)
    requires Linked(t0)
    requires exists b | b in cs.blocks :: b in NoData(cs.blocks) && forall t | t in {t0} :: Descends(t, b)
    ensures exists b | b in cs.blocks :: b in NoData(cs.blocks) && Descends(t0, b)
  {
    var b :| b in cs.blocks && b in NoData(cs.blocks) && forall t | t in {t0} :: Descends(t, b);
    assert t0 in {t0};
  }

  lemma MissingOn(cs: Chainstate, v0: seq<BlockIndex?>, t0: BlockIndex)
    requires Linked(t0) && IsPath(v0, t0) && exists b | b in cs.blocks :: b in NoData(cs.blocks) && Descends(t0, b)
    ensures exists b | b in cs.blocks :: !b.haveData && On(v0, b)
  {
    var b :| b in cs.blocks && b in NoData(cs.blocks) && Descends(t0, b);
    assert !b.haveData && On(v0, b);
  }

  /** What was failed in an activation. */
  lemma FailedSince(cs: Chainstate, tips: set<BlockIndex>, failed0: set<BlockIndex>, invalid: set<BlockIndex>)
    requires AlongNow(cs, tips, failed0, invalid)
    ensures Closed(cs.blocks) && forall x | x in cs.chain.vChain :: x !in invalid
    ensures forall d | d in cs.blocks ::
      (d in failed0 ==> d.failed) && (d.failed ==> d in failed0 || BuiltOn(d, invalid))
  {
    hide Held, BuiltOn;
    forall d | d in cs.blocks
      ensures (d in failed0 ==> d.failed) && (d.failed ==> d in failed0 || BuiltOn(d, invalid))
    {
      assert d.failed <==> d in Failures(cs.blocks);
    }
  }

  /**
    Activation, where `invalid` are the blocks that do not pass validation. It ends with a tip that is best of all
    usable blocks of the index, and at least as good as the old tip. Only blocks built on invalid ones are failed, and
    no invalid one is on the chain, so no valid block that could be used is better. It is given up only where a block
    of the old chain would have to be taken off and its data is gone.
   */
  method ActivateBestChain(cs: Chainstate, invalid: set<BlockIndex>) returns (ok: bool)
    requires Good(cs) && forall x | x in invalid :: !On(cs.chain.vChain, x)
    modifies cs`order, cs`candidates, cs`waiting, cs`unlinked, cs`bestInvalid, cs.chain, cs.blocks`failed
    ensures Closed(cs.blocks) && (old(Unpruned(cs)) ==> Unpruned(cs)) && old(cs.chain.Tip()) in cs.blocks
    ensures ok ==> Good(cs) && TipIsBest(cs) && !Less(cs.chain.Tip(), old(cs.chain.Tip()))
    ensures ok ==> forall x | x in cs.chain.vChain :: x !in invalid
    ensures ok ==> forall d | d in cs.blocks ::
      (old(d.failed) ==> d.failed) && (d.failed ==> old(d.failed) || BuiltOn(d, invalid))
    ensures ok ==> forall x | x in old(cs.Eligible()) && old(Usable(cs.chain.vChain, Broken(cs.blocks), x)) ::
      x == cs.chain.Tip() || Less(x, cs.chain.Tip()) || BuiltOn(x, invalid)
    ensures !ok ==> exists b | b in cs.blocks :: !b.haveData && On(old(cs.chain.vChain), b)
  {
    hide Standing, NoneWorse, Rooted, Chainstate.Valid, Goal, AlongNow, Descends, Less, Unpruned;
    hide IsPath, TipIsBest, Usable, BuiltOn, Settled, NoData, On;
    GoodStart(cs, invalid);
    ghost var v0, t0, failed0, broken0 := cs.chain.vChain, cs.chain.Tip(), Failures(cs.blocks), Broken(cs.blocks);
    ok := ActivateRounds(cs, invalid, failed0);
    if !ok {
      MissingOn(cs, v0, t0);
      return;
    }
    GoodEnd(cs);
    FailedSince(cs, {t0}, failed0, invalid);
    forall x | x in old(cs.Eligible()) && old(Usable(cs.chain.vChain, Broken(cs.blocks), x))
      ensures x == cs.chain.Tip() || Less(x, cs.chain.Tip()) || BuiltOn(x, invalid)
    {
      if !BuiltOn(x, invalid) {
        NoValidBetter(cs, v0, broken0, failed0, t0, invalid, x);
      }
    }
  }
}
