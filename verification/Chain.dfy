/** The tree of block index entries, its skip pointers, and the active chain. */
module Chain {
  import opened IntMath

  /** The least k with n <= 2^k. */
  function CeilLog2(n: nat): (k: nat)
    requires n > 0
    ensures n <= Pow2(k) && (k > 0 ==> Pow2(k - 1) < n)
  {
    if n == 1 then 0 else 1 + CeilLog2((n + 1) / 2)
  }

  // ---- Skip heights ----

  /** n with its lowest one bit cleared. */
  function InvertLowestOne(n: nat): (r: nat)
    ensures n > 0 ==> r < n
    ensures n == 0 ==> r == 0
  {
    if n == 0 then 0 else if n % 2 == 1 then n - 1 else 2 * InvertLowestOne(n / 2)
  }

  /** What the function does to the binary digits: 2^k is the highest power of two that divides n. */
  lemma {:induction false} LowestOne(n: nat) returns (k: nat)
    requires n > 0
    ensures n % Pow2(k + 1) == Pow2(k) && InvertLowestOne(n) == n - Pow2(k)
  {
    if n % 2 == 1 {
      k := 0;
      assert Pow2(1) == 2;
    } else {
      var j := LowestOne(n / 2);
      k := j + 1;
      var p := Pow2(j + 1);
      DivMod(n / 2, p);
      Doubled(n, n / 2 / p, p, Pow2(j));
    }
  }

  lemma Doubled(n: nat, q: nat, p: nat, r: nat)
    requires p > 0 && r < p && n % 2 == 0 && n / 2 == q * p + r
    ensures n % (2 * p) == 2 * r
  {
    assert n == q * (2 * p) + 2 * r;
    DivModUnique(n, 2 * p, q, 2 * r);
  }

  function GetSkipHeight(height: nat): (r: nat)
    ensures height > 0 ==> r < height
    ensures height == 0 ==> r == 0
  {
    if height < 2 then 0
    else if height % 2 == 1 then InvertLowestOne(InvertLowestOne(height - 1)) + 1
    else InvertLowestOne(height)
  }

  // ---- Block index entries ----

  const SEQ_ID_INIT: int := 1
  const VALID_TREE: nat := 2

  class BlockIndex {
    const pprev: BlockIndex?
    const nHeight: nat
    const timeMax: int
    const hash: nat
    /** Total work up to here, order of arrival, and the object's place in memory. */
    const chainWork: nat
    var sequenceId: int
    const address: nat
    var pskip: BlockIndex?
    /** The status bits this model needs, and the numbers of transactions in this block and up to here. */
    var validity: nat
    var haveData: bool
    var failed: bool
    var nTx: nat
    var chainTx: nat

    constructor (pprev: BlockIndex?, time: int, hash: nat, proof: nat, address: nat)
      requires pprev != null ==> Linked(pprev)
      ensures this.pprev == pprev && this.hash == hash && this.address == address && pskip == null
      ensures chainWork == (if pprev == null then 0 else pprev.chainWork) + proof
      ensures validity == VALID_TREE && !haveData && !failed && nTx == 0 && chainTx == 0 && sequenceId == SEQ_ID_INIT
      ensures Linked(this)
    {
      this.pprev, this.hash, this.pskip := pprev, hash, null;
      this.sequenceId, this.address := SEQ_ID_INIT, address;
      chainWork := (if pprev == null then 0 else pprev.chainWork) + proof;
      validity, haveData, failed, nTx, chainTx := VALID_TREE, false, false, 0, 0;
      nHeight := if pprev == null then 0 else pprev.nHeight + 1;
      timeMax := if pprev == null then time else if pprev.timeMax < time then time else pprev.timeMax;
    }

    /** The ancestor at a height: the same block a walk along pprev finds, or null outside the heights. */
    method GetAncestor(height: int, ghost tree: set<BlockIndex>) returns (r: BlockIndex?)
      requires this in tree && Closed(tree) && SkipsOk(tree)
      ensures r == if 0 <= height <= nHeight then Ancestor(this, height) else null
    {
      if height > nHeight || height < 0 {
        return null;
      }
      var walk := this;
      var heightWalk := nHeight;
      AncestorSelf(this);
      while heightWalk > height
        invariant walk in tree && heightWalk == walk.nHeight && height <= heightWalk <= nHeight
        invariant walk == Ancestor(this, heightWalk)
      {
        var heightSkip := GetSkipHeight(heightWalk);
        var heightSkipPrev := GetSkipHeight(heightWalk - 1);
        InTree(tree, walk);
        if walk.pskip != null &&
           (heightSkip == height ||
            (heightSkip > height && !(heightSkipPrev < heightSkip - 2 && heightSkipPrev >= height))) {
          AncestorTrans(this, heightWalk, heightSkip);
          AncestorInTree(tree, walk, heightSkip);
          walk := walk.pskip;
          heightWalk := heightSkip;
        } else {
          assert walk.pprev != null;
          AncestorTrans(this, heightWalk, heightWalk - 1);
          ParentIs(walk);
          walk := walk.pprev;
          heightWalk := heightWalk - 1;
        }
      }
      r := walk;
    }

    /** Point to the ancestor at the skip height. */
    method BuildSkip(ghost tree: set<BlockIndex>)
      requires this in tree && Closed(tree) && SkipsOk(tree)
      modifies this`pskip
      ensures SkipsOk(tree)
      ensures pskip == if pprev == null then old(pskip) else Ancestor(this, GetSkipHeight(nHeight))
    {
      InTree(tree, this);
      if pprev != null {
        ParentIs(this);
        AncestorTrans(this, nHeight - 1, GetSkipHeight(nHeight));
        var a := pprev.GetAncestor(GetSkipHeight(nHeight), tree);
        pskip := a;
      }
    }
  }

  /** Heights count up from a root, and so do the times. */
  ghost predicate Linked(b: BlockIndex)
    decreases b.nHeight
  {
    if b.pprev == null then b.nHeight == 0
    else b.nHeight == b.pprev.nHeight + 1 && b.pprev.timeMax <= b.timeMax && Linked(b.pprev)
  }

  /** The plain walk: follow pprev down to height h. */
  ghost function Ancestor(b: BlockIndex, h: nat): (a: BlockIndex)
    requires Linked(b) && h <= b.nHeight
    ensures a.nHeight == h && Linked(a) && a.timeMax <= b.timeMax
    decreases b.nHeight
  {
    if h == b.nHeight then b else Ancestor(b.pprev, h)
  }

  lemma AncestorSelf(b: BlockIndex)
    requires Linked(b)
    ensures Ancestor(b, b.nHeight) == b
  {
  }

  lemma ParentIs(b: BlockIndex)
    requires Linked(b) && b.pprev != null
    ensures b.nHeight > 0 && b.pprev == Ancestor(b, b.nHeight - 1)
  {
  }

  lemma {:induction false} AncestorTrans(b: BlockIndex, h: nat, g: nat)
    requires Linked(b) && g <= h <= b.nHeight
    ensures Ancestor(Ancestor(b, h), g) == Ancestor(b, g)
    decreases b.nHeight
  {
    if h < b.nHeight {
      AncestorTrans(b.pprev, h, g);
    }
  }

  /** A set of entries that holds every entry's parent. */
  ghost predicate Closed(tree: set<BlockIndex>) {
    forall b | b in tree :: Linked(b) && (b.pprev != null ==> b.pprev in tree)
  }

  lemma InTree(tree: set<BlockIndex>, b: BlockIndex)
    requires Closed(tree) && b in tree
    ensures Linked(b) && (b.pprev != null ==> b.pprev in tree)
  {
  }

  lemma {:induction false} AncestorInTree(tree: set<BlockIndex>, b: BlockIndex, h: nat)
    requires Closed(tree) && b in tree && h <= b.nHeight
    ensures Ancestor(b, h) in tree
    decreases b.nHeight
  {
    if h < b.nHeight {
      AncestorInTree(tree, b.pprev, h);
    }
  }

  /** Every skip pointer that is set leads to the ancestor at the skip height. */
  ghost predicate SkipsOk(tree: set<BlockIndex>)
    requires Closed(tree)
    reads tree`pskip
  {
    forall b | b in tree && b.pskip != null :: b.pskip == Ancestor(b, GetSkipHeight(b.nHeight))
  }

  /** Every entry but a root has its skip pointer; a root has none. */
  ghost predicate SkipsBuilt(tree: set<BlockIndex>)
    requires Closed(tree)
    reads tree`pskip
  {
    SkipsOk(tree) && forall b | b in tree :: b.pprev != null <==> b.pskip != null
  }

  /** A new entry on top of a tree, with its skip pointer: how the tree grows. */
  method AddBlock(ghost tree: set<BlockIndex>, pprev: BlockIndex?, time: int, hash: nat, proof: nat, address: nat)
    returns (b: BlockIndex)
    requires Closed(tree) && SkipsOk(tree) && (pprev != null ==> pprev in tree)
    ensures fresh(b) && b.pprev == pprev && b.address == address && Closed(tree + {b}) && SkipsOk(tree + {b})
    ensures old(SkipsBuilt(tree)) ==> SkipsBuilt(tree + {b})
    ensures b.chainWork == (if pprev == null then 0 else pprev.chainWork) + proof
    ensures b.validity == VALID_TREE && !b.haveData && !b.failed && b.nTx == 0 && b.chainTx == 0
    ensures b.sequenceId == SEQ_ID_INIT
  {
    b := new BlockIndex(pprev, time, hash, proof, address);
    b.BuildSkip(tree + {b});
  }

  // ---- Last common ancestor ----

  ghost function Root(b: BlockIndex): BlockIndex
    requires Linked(b)
  {
    Ancestor(b, 0)
  }

  /** The two blocks have the same ancestor at height h. */
  ghost predicate Meet(a: BlockIndex, b: BlockIndex, h: nat)
    requires Linked(a) && Linked(b)
  {
    h <= a.nHeight && h <= b.nHeight && Ancestor(a, h) == Ancestor(b, h)
  }

  /** r is the highest block that is an ancestor of both. */
  ghost predicate IsFork(a: BlockIndex, b: BlockIndex, r: BlockIndex)
    requires Linked(a) && Linked(b)
  {
    && Meet(a, b, r.nHeight) && Ancestor(a, r.nHeight) == r
    && forall h: nat :: Meet(a, b, h) ==> h <= r.nHeight
  }

  /** Going down on both sides to a height where they still differ, or just below one, keeps the fork. */
  lemma ForkBelow(a: BlockIndex, b: BlockIndex, h: nat, r: BlockIndex)
    requires Linked(a) && Linked(b) && h <= a.nHeight && h <= b.nHeight
    requires forall k: nat :: Meet(a, b, k) ==> k <= h
    requires IsFork(Ancestor(a, h), Ancestor(b, h), r)
    ensures IsFork(a, b, r)
  {
    AncestorTrans(a, h, r.nHeight);
    AncestorTrans(b, h, r.nHeight);
    forall k: nat | Meet(a, b, k)
      ensures k <= r.nHeight
    {
      AncestorTrans(a, h, k);
      AncestorTrans(b, h, k);
      assert Meet(Ancestor(a, h), Ancestor(b, h), k);
    }
  }

  lemma DifferAbove(a: BlockIndex, b: BlockIndex, h: nat, k: nat)
    requires Linked(a) && Linked(b) && h <= k <= a.nHeight && k <= b.nHeight && Ancestor(a, h) != Ancestor(b, h)
    ensures !Meet(a, b, k)
  {
    AncestorTrans(a, k, h);
    AncestorTrans(b, k, h);
  }

  /** One side has the other's height at most: cutting the longer one down keeps the fork. */
  lemma ForkLevel(a: BlockIndex, b: BlockIndex, h: nat, r: BlockIndex)
    requires Linked(a) && Linked(b) && h == (if a.nHeight < b.nHeight then a.nHeight else b.nHeight)
    requires IsFork(Ancestor(a, h), Ancestor(b, h), r)
    ensures IsFork(a, b, r)
  {
    ForkBelow(a, b, h, r);
  }

  /** Jump both sides down until their skip pointers agree; they stay apart at one height. */
  method JumpBack(a: BlockIndex, b: BlockIndex, ghost tree: set<BlockIndex>) returns (a': BlockIndex, b': BlockIndex)
    requires a in tree && b in tree && Closed(tree) && SkipsBuilt(tree) && a.nHeight == b.nHeight && a != b
    ensures a' in tree && b' in tree && a' != b' && a'.nHeight == b'.nHeight <= a.nHeight && a'.pskip == b'.pskip
    ensures a' == Ancestor(a, a'.nHeight) && b' == Ancestor(b, a'.nHeight)
  {
    a', b' := a, b;
    while a'.pskip != b'.pskip
      invariant a' in tree && b' in tree && a' != b' && a'.nHeight == b'.nHeight <= a.nHeight
      invariant a' == Ancestor(a, a'.nHeight) && b' == Ancestor(b, a'.nHeight)
      decreases a'.nHeight
    {
      InTree(tree, a');
      InTree(tree, b');
      AncestorTrans(a, a'.nHeight, 0);
      AncestorTrans(b, a'.nHeight, 0);
      var h := GetSkipHeight(a'.nHeight);
      assert a'.nHeight > 0;
      AncestorTrans(a, a'.nHeight, h);
      AncestorTrans(b, a'.nHeight, h);
      AncestorInTree(tree, a', h);
      AncestorInTree(tree, b', h);
      assert a'.pskip.nHeight == b'.pskip.nHeight;
      a', b' := a'.pskip, b'.pskip;
    }
  }

  /** Where two lines differ their parents come next, and they can meet only from there down. */
  lemma ParentsBelow(a: BlockIndex, b: BlockIndex, x: BlockIndex, y: BlockIndex)
    requires Linked(a) && Linked(b) && x.nHeight == y.nHeight <= a.nHeight && y.nHeight <= b.nHeight && x != y
    requires x == Ancestor(a, x.nHeight) && y == Ancestor(b, x.nHeight)
    ensures x.pprev == null <==> y.pprev == null
    ensures x.pprev == null <==> x.nHeight == 0
    ensures x.pprev != null ==> x.pprev.nHeight == y.pprev.nHeight == x.nHeight - 1
    ensures x.pprev != null ==> x.pprev == Ancestor(a, x.nHeight - 1) && y.pprev == Ancestor(b, x.nHeight - 1)
    ensures x.pprev != null ==> forall k: nat :: Meet(a, b, k) ==> k <= x.nHeight - 1
  {
    if x.nHeight > 0 {
      AncestorTrans(a, x.nHeight, x.nHeight - 1);
      AncestorTrans(b, x.nHeight, x.nHeight - 1);
    }
    forall k: nat | Meet(a, b, k) && k >= x.nHeight
      ensures false
    {
      DifferAbove(a, b, x.nHeight, k);
    }
  }

  /** From two blocks at one height, down to the highest block both descend from. */
  method LevelAncestor(pa: BlockIndex, pb: BlockIndex, ghost tree: set<BlockIndex>) returns (r: BlockIndex?)
    requires pa in tree && pb in tree && Closed(tree) && SkipsBuilt(tree) && pa.nHeight == pb.nHeight
    ensures r != null <==> Root(pa) == Root(pb)
    ensures r != null ==> IsFork(pa, pb, r)
  {
    hide SkipsBuilt, SkipsOk, Ancestor, Closed;
    var a: BlockIndex?, b: BlockIndex? := pa, pb;
    InTree(tree, pa);
    InTree(tree, pb);
    AncestorSelf(pa);
    AncestorSelf(pb);
    while a != b
      invariant a == null <==> b == null
      invariant a == null ==> Ancestor(pa, 0) != Ancestor(pb, 0)
      invariant a != null ==> a in tree && b in tree && a.nHeight == b.nHeight <= pa.nHeight
      invariant a != null ==> a == Ancestor(pa, a.nHeight) && b == Ancestor(pb, a.nHeight)
      invariant a != null ==> forall k: nat :: Meet(pa, pb, k) ==> k <= a.nHeight
      decreases if a == null then 0 else a.nHeight + 1
    {
      ghost var was := a.nHeight;
      var x, y := JumpBack(a, b, tree);
      AncestorTrans(pa, was, x.nHeight);
      AncestorTrans(pb, was, x.nHeight);
      InTree(tree, x);
      InTree(tree, y);
      ParentsBelow(pa, pb, x, y);
      a, b := x.pprev, y.pprev;
    }
    r := a;
    if r != null {
      AncestorTrans(pa, r.nHeight, 0);
      AncestorTrans(pb, r.nHeight, 0);
    }
  }

  method LastCommonAncestor(pa: BlockIndex, pb: BlockIndex, ghost tree: set<BlockIndex>) returns (r: BlockIndex?)
    requires pa in tree && pb in tree && Closed(tree) && SkipsBuilt(tree)
    ensures r != null <==> Root(pa) == Root(pb)
    ensures r != null ==> IsFork(pa, pb, r)
  {
    hide SkipsBuilt, SkipsOk, Ancestor, IsFork;
    assert SkipsOk(tree) by {
      Built(tree);
    }
    var a, b := pa, pb;
    ghost var top := if pa.nHeight < pb.nHeight then pa.nHeight else pb.nHeight;
    AncestorInTree(tree, pa, top);
    AncestorInTree(tree, pb, top);
    AncestorSelf(pa);
    AncestorSelf(pb);
    if pa.nHeight > pb.nHeight {
      a := pa.GetAncestor(pb.nHeight, tree);
    } else if pb.nHeight > pa.nHeight {
      b := pb.GetAncestor(pa.nHeight, tree);
    }
    AncestorTrans(pa, top, 0);
    AncestorTrans(pb, top, 0);
    r := LevelAncestor(a, b, tree);
    if r != null {
      ForkLevel(pa, pb, top, r);
    }
  }

  lemma Built(tree: set<BlockIndex>)
    requires Closed(tree) && SkipsBuilt(tree)
    ensures SkipsOk(tree)
  {
  }

  // ---- The active chain ----

  /** The ancestors of a block, lowest first. */
  ghost predicate IsPath(v: seq<BlockIndex?>, tip: BlockIndex)
    requires Linked(tip)
  {
    |v| == tip.nHeight + 1 && forall i | 0 <= i < |v| :: v[i] == Ancestor(tip, i)
  }

  class CChain {
    var vChain: seq<BlockIndex?>

    constructor ()
      ensures Valid() && vChain == []
    {
      vChain := [];
    }

    /** Between calls the vector is the ancestor path of its last element. */
    ghost predicate Valid()
      reads this`vChain
    {
      vChain == [] ||
        (vChain[|vChain| - 1] != null && Linked(vChain[|vChain| - 1]) && IsPath(vChain, vChain[|vChain| - 1]))
    }

    function Height(): int
      reads this`vChain
    {
      |vChain| - 1
    }

    function Tip(): BlockIndex?
      reads this`vChain
    {
      if |vChain| > 0 then vChain[|vChain| - 1] else null
    }

    function At(height: int): BlockIndex?
      reads this`vChain
    {
      if height < 0 || height >= |vChain| then null else vChain[height]
    }

    predicate Contains(index: BlockIndex)
      reads this`vChain
    {
      At(index.nHeight) == index
    }

    function Next(index: BlockIndex): BlockIndex?
      reads this`vChain
    {
      if Contains(index) then At(index.nHeight + 1) else null
    }

    /** Contained blocks are exactly the tip and its ancestors. */
    lemma ContainsAncestors(index: BlockIndex)
      requires Valid() && Linked(index)
      ensures Contains(index) <==>
        vChain != [] && Linked(Tip()) && index.nHeight <= Tip().nHeight && Ancestor(Tip(), index.nHeight) == index
    {
    }

    /** The successor is the one contained block whose parent is the given one. */
    lemma NextIsChild(index: BlockIndex, next: BlockIndex)
      requires Valid() && Linked(index) && Linked(next)
      ensures Next(index) == next <==> Contains(next) && next.pprev == index
    {
      if Contains(next) && next.pprev == index {
        AncestorTrans(Tip(), next.nHeight, index.nHeight);
        ParentIs(next);
      }
      if Next(index) == next {
        AncestorTrans(Tip(), next.nHeight, index.nHeight);
        if next.pprev != null {
          ParentIs(next);
        }
      }
    }

    /** Point the chain at a new tip, rewriting from the top only what differs. */
    method SetTip(block: BlockIndex)
      requires Valid() && Linked(block)
      modifies this
      ensures Valid() && Tip() == block && IsPath(vChain, block)
    {
      ghost var old_ := vChain;
      var size := block.nHeight + 1;
      vChain := Resized(vChain, size);
      var pindex: BlockIndex? := block;
      AncestorSelf(block);
      while pindex != null && vChain[pindex.nHeight] != pindex
        invariant pindex != null ==>
          Linked(pindex) && pindex.nHeight < size && pindex == Ancestor(block, pindex.nHeight)
        invariant |vChain| == size && PathFrom(vChain, block, Above(pindex))
        invariant forall i | 0 <= i < Above(pindex) :: vChain[i] == Resized(old_, size)[i]
        decreases Above(pindex)
      {
        vChain := vChain[pindex.nHeight := pindex];
        if pindex.pprev != null {
          AncestorTrans(block, pindex.nHeight, pindex.nHeight - 1);
          ParentIs(pindex);
        }
        pindex := pindex.pprev;
      }
      if pindex != null {
        StopEarly(old_, vChain, block, pindex);
      }
      PathWhole(vChain, block);
    }

    /** The highest block of the chain that is an ancestor of the argument, or null if there is none. */
    method FindFork(index: BlockIndex, ghost tree: set<BlockIndex>) returns (r: BlockIndex?)
      requires Valid() && index in tree && Closed(tree) && SkipsOk(tree)
      ensures r != null ==> Contains(r) && r.nHeight <= index.nHeight && r == Ancestor(index, r.nHeight)
      ensures forall h: nat | h <= index.nHeight && Contains(Ancestor(index, h)) :: r != null && h <= r.nHeight
    {
      hide Ancestor, Closed, SkipsOk, IsPath;
      InTree(tree, index);
      AncestorSelf(index);
      r := index;
      if index.nHeight > Height() {
        r := index.GetAncestor(Height(), tree);
      }
      while r != null && !Contains(r)
        invariant r != null ==> Linked(r) && r.nHeight <= index.nHeight && r == Ancestor(index, r.nHeight)
        invariant forall h: nat | h <= index.nHeight && Contains(Ancestor(index, h)) :: r != null && h <= r.nHeight
        decreases Above(r)
      {
        if r.pprev != null {
          AncestorTrans(index, r.nHeight, r.nHeight - 1);
          ParentIs(r);
        }
        r := r.pprev;
      }
    }

    /** The lowest block at or above the height whose maximal time has reached the given time, by bisection. */
    method FindEarliestAtLeast(time: int, height: int) returns (r: BlockIndex?)
      requires Valid()
      ensures r != null ==> Contains(r) && !Early(r, time, height)
      ensures forall b | Contains(b) && !Early(b, time, height) :: r != null && r.nHeight <= b.nHeight
    {
      var first, count := 0, |vChain|;
      while count > 0
        invariant 0 <= first && 0 <= count && first + count <= |vChain|
        invariant forall i | 0 <= i < first :: vChain[i] != null && Early(vChain[i], time, height)
        invariant forall i | first + count <= i < |vChain| :: vChain[i] != null && !Early(vChain[i], time, height)
      {
        var step := count / 2;
        var mid := first + step;
        assert vChain[mid] == Ancestor(Tip(), mid);
        if Early(vChain[mid], time, height) {
          forall i | 0 <= i <= mid
            ensures vChain[i] != null && Early(vChain[i], time, height)
          {
            AncestorTrans(Tip(), mid, i);
          }
          first, count := mid + 1, count - step - 1;
        } else {
          forall i | mid <= i < |vChain|
            ensures vChain[i] != null && !Early(vChain[i], time, height)
          {
            AncestorTrans(Tip(), i, mid);
          }
          count := step;
        }
      }
      r := if first == |vChain| then null else vChain[first];
    }
  }

  predicate Early(b: BlockIndex, time: int, height: int) {
    b.timeMax < time || b.nHeight < height
  }

  /** The first `size` elements, padded with null. */
  function Resized(v: seq<BlockIndex?>, size: nat): (r: seq<BlockIndex?>)
    ensures |r| == size && forall i | 0 <= i < size && i < |v| :: r[i] == v[i]
    ensures forall i | |v| <= i < size :: r[i] == null
  {
    if size <= |v| then v[..size] else v + seq(size - |v|, _ => null)
  }

  /** One more than a block's height; zero below the root. */
  ghost function Above(b: BlockIndex?): nat {
    if b == null then 0 else b.nHeight + 1
  }

  /** From height `from` up the vector holds the path. */
  ghost predicate PathFrom(v: seq<BlockIndex?>, block: BlockIndex, from: nat)
    requires Linked(block)
  {
    |v| == block.nHeight + 1 && forall i | from <= i < |v| :: v[i] == Ancestor(block, i)
  }

  lemma PathWhole(v: seq<BlockIndex?>, block: BlockIndex)
    requires Linked(block) && PathFrom(v, block, 0)
    ensures IsPath(v, block)
  {
  }

  /** Once the old vector agrees with the new path at one height it agrees with it below. */
  lemma StopEarly(before: seq<BlockIndex?>, now: seq<BlockIndex?>, block: BlockIndex, p: BlockIndex)
    requires Linked(block) && p.nHeight <= block.nHeight && p == Ancestor(block, p.nHeight)
    requires before == [] ||
      (before[|before| - 1] != null && Linked(before[|before| - 1]) && IsPath(before, before[|before| - 1]))
    requires |now| == block.nHeight + 1 && now[p.nHeight] == p && PathFrom(now, block, p.nHeight + 1)
    requires forall i | 0 <= i <= p.nHeight :: now[i] == Resized(before, |now|)[i]
    ensures PathFrom(now, block, 0)
  {
    assert p.nHeight < |before|;
    var tip := before[|before| - 1];
    forall i: nat | i <= p.nHeight
      ensures now[i] == Ancestor(block, i)
    {
      AncestorTrans(tip, p.nHeight, i);
      AncestorTrans(block, p.nHeight, i);
    }
  }

  // ---- Locators ----

  /** Heights of the locator's entries for a tip at `height`: ten steps of one, then doubling. */
  function LocatorHeight(height: nat, i: nat): int {
    if i <= 10 then height - i else height - 9 - Pow2(i - 10)
  }

  function LocatorSize(height: nat): nat {
    if height < 11 then height + 1 else 11 + CeilLog2(height - 9)
  }

  /** Which entries of a locator are above genesis. */
  lemma LocatorStops(height: nat, i: nat)
    ensures LocatorHeight(height, i) <= 0 <==> i + 1 >= LocatorSize(height)
    ensures LocatorHeight(height, i + 1) < LocatorHeight(height, i)
  {
    if height >= 11 {
      var k := CeilLog2(height - 9);
      if i > 10 {
        if i - 10 >= k {
          Pow2Mono(k, i - 10);
        } else {
          Pow2Mono(i - 10, k - 1);
        }
      }
      assert k >= 1;
    } else if i > 10 {
      assert Pow2(i - 10) >= 2;
    }
  }

  /** The step back that follows entry i. */
  function StepAt(i: nat): nat {
    if i <= 10 then 1 else Pow2(i - 10)
  }

  lemma LocatorNext(height: nat, i: nat)
    ensures LocatorHeight(height, i) - StepAt(i) == LocatorHeight(height, i + 1)
    ensures StepAt(i + 1) == if i + 1 > 10 then StepAt(i) * 2 else StepAt(i)
  {
    if i == 10 {
      assert Pow2(1) == 2;
    }
  }

  /** The last step fits a signed 32-bit number exactly up to this height. */
  lemma StepBound(height: nat)
    ensures StepAt(LocatorSize(height) - 1) < 0x8000_0000 <==> height <= 0x4000_0000 + 9
  {
    if height >= 11 {
      var k := CeilLog2(height - 9);
      PowerOf31();
      if k <= 30 {
        Pow2Mono(k, 30);
      } else {
        Pow2Mono(31, k);
        Pow2Mono(30, k - 1);
      }
    }
  }

  lemma PowerOf31()
    ensures Pow2(30) == 0x4000_0000 && Pow2(31) == 0x8000_0000
  {
    assert Pow2(10) == 1024;
    Pow2Add(10, 10);
    Pow2Add(20, 10);
  }

  /** One block higher the doubling reaches 2^31. */
  lemma StepOverflows(height: nat)
    requires height == 0x4000_0000 + 10
    ensures StepAt(LocatorSize(height) - 1) == 0x8000_0000
  {
    hide CeilLog2, Pow2;
    PowerOf31();
    LogIs(height - 9, 31);
  }

  lemma LogIs(n: nat, k: nat)
    requires k > 0 && Pow2(k - 1) < n <= Pow2(k)
    ensures CeilLog2(n) == k
  {
    var j := CeilLog2(n);
    if j < k {
      Pow2Mono(j, k - 1);
    } else if j > k {
      Pow2Mono(k, j - 1);
    }
  }

  /** The hash of the i-th entry's block. */
  ghost function LocatorHash(index: BlockIndex, i: nat): nat
    requires Linked(index)
  {
    var h := Max0(LocatorHeight(index.nHeight, i));
    if h <= index.nHeight then Ancestor(index, h).hash else index.hash
  }

  /**
    Hashes for a locator: the block's own, then of ever older ancestors down to genesis. There are
    11 + ceil(log2(height - 9)) of them, and the step fits 32 bits exactly while heights stay within 2^30 + 9.
   */
  method LocatorEntries(index0: BlockIndex?, ghost tree: set<BlockIndex>) returns (have: seq<nat>, ghost lastStep: nat)
    requires Closed(tree) && SkipsOk(tree) && (index0 != null ==> index0 in tree)
    ensures index0 == null ==> have == []
    ensures index0 != null ==> |have| == LocatorSize(index0.nHeight)
    ensures index0 != null ==> forall i | 0 <= i < |have| :: have[i] == LocatorHash(index0, i)
    ensures index0 != null ==> (lastStep < 0x8000_0000 <==> index0.nHeight <= 0x4000_0000 + 9)
  {
    hide LocatorHeight, LocatorSize, StepAt, LocatorHash, Linked, Closed, SkipsOk, Ancestor;
    have, lastStep := [], 1;
    if index0 == null {
      return;
    }
    var index: BlockIndex? := index0;
    var step := 1;
    ghost var top := index0.nHeight;
    InTree(tree, index0);
    AncestorSelf(index0);
    LocatorBegins(index0);
    while index != null
      invariant index != null && index in tree && IsEntry(index0, index, |have|)
      invariant |have| < LocatorSize(top) && step == StepAt(|have|)
      invariant forall i | 0 <= i < |have| :: have[i] == LocatorHash(index0, i)
      decreases LocatorSize(top) - |have|
    {
      LocatorStops(top, |have|);
      LocatorNext(top, |have|);
      EntryFacts(index0, index, |have|);
      StepBound(top);
      lastStep := step;
      have := have + [index.hash];
      if index.nHeight == 0 {
        break;
      }
      index := StepBack(index0, index, |have| - 1, step, tree);
      if |have| > 10 {
        step := step * 2;
      }
    }
  }

  /** The block that a locator's i-th entry stands for. */
  ghost predicate IsEntry(top: BlockIndex, index: BlockIndex, i: nat)
    requires Linked(top)
  {
    && index.nHeight == Max0(LocatorHeight(top.nHeight, i)) <= top.nHeight
    && index == Ancestor(top, index.nHeight)
  }

  lemma EntryFacts(top: BlockIndex, index: BlockIndex, i: nat)
    requires Linked(top) && IsEntry(top, index, i)
    ensures index.hash == LocatorHash(top, i)
  {
  }

  method StepBack(ghost top: BlockIndex, index: BlockIndex, ghost i: nat, step: nat, ghost tree: set<BlockIndex>)
    returns (r: BlockIndex)
    requires Closed(tree) && SkipsOk(tree) && index in tree && Linked(top) && IsEntry(top, index, i)
    requires index.nHeight > 0 && step == StepAt(i)
    ensures r in tree && IsEntry(top, r, i + 1)
  {
    hide LocatorHeight;
    LocatorNext(top.nHeight, i);
    var height := Max0(index.nHeight - step);
    AncestorTrans(top, index.nHeight, height);
    AncestorInTree(tree, index, height);
    r := index.GetAncestor(height, tree);
  }

  lemma LocatorBegins(top: BlockIndex)
    requires Linked(top)
    ensures IsEntry(top, top, 0) && StepAt(0) == 1 && LocatorSize(top.nHeight) > 0
  {
  }

  /** The entries go strictly down, from the block itself to genesis. */
  lemma LocatorDescends(index: BlockIndex, i: nat, j: nat)
    requires Linked(index) && i < j < LocatorSize(index.nHeight)
    ensures 0 <= Max0(LocatorHeight(index.nHeight, j)) < LocatorHeight(index.nHeight, i) <= index.nHeight
    ensures LocatorHeight(index.nHeight, 0) == index.nHeight
    ensures Max0(LocatorHeight(index.nHeight, LocatorSize(index.nHeight) - 1)) == 0
    decreases j
  {
    hide LocatorSize;
    LocatorStops(index.nHeight, j - 1);
    LocatorStops(index.nHeight, LocatorSize(index.nHeight) - 1);
    if i < j - 1 {
      LocatorDescends(index, i, j - 1);
    }
  }

  function Max0(n: int): nat {
    if n < 0 then 0 else n
  }
}
