/** The queue of ReceivedBlockTransactions: which blocks the recorded pairs lead to, and in which order. */
module MostWorkQueue {
  import opened Chain
  import opened MostWork
  import opened MostWorkLinks

  type Pairs = seq<(BlockIndex, BlockIndex)>

  // ---- The pairs of one parent ----

  /** The pairs of other parents. */
  function Others(w: Pairs, a: BlockIndex): (r: Pairs)
    ensures |r| <= |w|
  {
    if w == [] then []
    else
      var n := |w| - 1;
      Others(w[..n], a) + (if w[n].0 == a then [] else [w[n]])
  }

  /** The children in the pairs of one parent, oldest pair first. */
  function Children(w: Pairs, a: BlockIndex): (r: seq<BlockIndex>)
    ensures |r| + |Others(w, a)| == |w|
  {
    if w == [] then []
    else
      var n := |w| - 1;
      Children(w[..n], a) + (if w[n].0 == a then [w[n].1] else [])
  }

  /** Take out the pairs of one parent. */
  method TakeLinks(w: Pairs, a: BlockIndex) returns (children: seq<BlockIndex>, rest: Pairs)
    ensures children == Children(w, a) && rest == Others(w, a)
  {
    children, rest := [], [];
    for i := 0 to |w|
      invariant children == Children(w[..i], a) && rest == Others(w[..i], a)
    {
      assert w[..i + 1][..i] == w[..i];
      if w[i].0 == a {
        children := children + [w[i].1];
      } else {
        rest := rest + [w[i]];
      }
    }
    assert w[..|w|] == w;
  }

  lemma {:induction false} ChildrenAre(w: Pairs, a: BlockIndex, c: BlockIndex)
    ensures c in Children(w, a) <==> (a, c) in w
  {
    if w != [] {
      var n := |w| - 1;
      ChildrenAre(w[..n], a, c);
      assert w == w[..n] + [w[n]];
    }
  }

  lemma {:induction false} OthersLeft(w: Pairs, a: BlockIndex, x: (BlockIndex, BlockIndex))
    ensures multiset(Others(w, a))[x] == if x.0 == a then 0 else multiset(w)[x]
  {
    if w != [] {
      var n := |w| - 1;
      OthersLeft(w[..n], a, x);
      assert w == w[..n] + [w[n]];
    }
  }

  lemma {:induction false} OthersWithin(w: Pairs, a: BlockIndex)
    ensures multiset(Others(w, a)) <= multiset(w)
  {
    if w != [] {
      var n := |w| - 1;
      OthersWithin(w[..n], a);
      assert w == w[..n] + [w[n]];
    }
  }

  /** What is taken and what is left. */
  lemma Taken(w: Pairs, a: BlockIndex)
    ensures Drained(multiset(w), multiset(Others(w, a)), {a})
    ensures forall c | c in Children(w, a) :: (a, c) in multiset(w)
    ensures forall x | x in multiset(w) && x.0 == a :: x.1 in Children(w, a)
  {
    hide Others, Children;
    OthersWithin(w, a);
    forall x | x in multiset(w)
      ensures multiset(Others(w, a))[x] == if x.0 == a then 0 else multiset(w)[x]
    {
      OthersLeft(w, a, x);
    }
    forall c | c in Children(w, a)
      ensures (a, c) in multiset(w)
    {
      ChildrenAre(w, a, c);
    }
    forall x | x in multiset(w) && x.0 == a
      ensures x.1 in Children(w, a)
    {
      ChildrenAre(w, a, x.1);
    }
  }

  // ---- The order of the blocks ----

  /** The blocks that come off the queue, in that order; a block whose pair is recorded twice comes twice. */
  function Schedule(w: Pairs, queue: seq<BlockIndex>): seq<BlockIndex>
    decreases |w| + |queue|
  {
    if queue == [] then []
    else [queue[0]] + Schedule(Others(w, queue[0]), queue[1..] + Children(w, queue[0]))
  }

  /** How many pairs have this child. */
  ghost function Times(w: Pairs, c: BlockIndex): nat {
    if w == [] then 0
    else
      var n := |w| - 1;
      Times(w[..n], c) + (if w[n].1 == c then 1 else 0)
  }

  lemma NoTimes(c: BlockIndex)
    ensures Times([], c) == 0
  {
  }

  lemma TimesMore(w: Pairs, x: (BlockIndex, BlockIndex), c: BlockIndex)
    ensures Times(w + [x], c) == Times(w, c) + if x.1 == c then 1 else 0
  {
    assert (w + [x])[..|w|] == w;
  }

  lemma {:induction false} TimesSplit(w: Pairs, a: BlockIndex, c: BlockIndex)
    ensures multiset(Children(w, a))[c] + Times(Others(w, a), c) == Times(w, c)
  {
    hide Times;
    if w == [] {
      NoTimes(c);
      assert Others(w, a) == [] && Children(w, a) == [];
    } else {
      var n := |w| - 1;
      TimesSplit(w[..n], a, c);
      assert w == w[..n] + [w[n]];
      TimesMore(w[..n], w[n], c);
      TimesMore(Others(w[..n], a), w[n], c);
      if w[n].0 == a {
        assert Others(w, a) == Others(w[..n], a) && Children(w, a) == Children(w[..n], a) + [w[n].1];
      } else {
        assert Others(w, a) == Others(w[..n], a) + [w[n]] && Children(w, a) == Children(w[..n], a);
      }
    }
  }

  lemma {:induction false} TimesIs(w: Pairs, c: BlockIndex)
    requires forall x | x in w :: x.1.pprev == x.0
    ensures Times(w, c) == if c.pprev == null then 0 else multiset(w)[(c.pprev, c)]
  {
    if w != [] {
      var n := |w| - 1;
      assert w == w[..n] + [w[n]] && w[n] in w;
      TimesIs(w[..n], c);
    }
  }

  /** A block comes off the queue at most as often as it is in it and in the pairs. */
  lemma {:induction false} ComesAtMost(w: Pairs, queue: seq<BlockIndex>, c: BlockIndex)
    ensures multiset(Schedule(w, queue))[c] <= multiset(queue)[c] + Times(w, c)
    decreases |w| + |queue|
  {
    if queue != [] {
      var b, rest := queue[0], queue[1..];
      TimesSplit(w, b, c);
      ComesAtMost(Others(w, b), rest + Children(w, b), c);
      assert queue == [b] + rest;
    }
  }

  // ---- The blocks reached ----

  /** Every reached block is done, queued, or above one that is not done. */
  ghost predicate QueueOk(blocks: set<BlockIndex>, links0: Links, links: Links, p: BlockIndex, done: set<BlockIndex>,
                          queue: seq<BlockIndex>)
    requires Closed(blocks)
  {
    var reached := Reached(blocks, links0, p);
    && done <= reached && (p in done || p in queue) && Drained(links0, links, done)
    && (forall q | q in queue :: q in reached && (q == p || q.pprev in done))
    && (forall c | c in done && c != p :: c.pprev in done)
    && (forall c | c in reached && c != p && c.pprev in done :: c in done || c in queue)
  }

  lemma DrainedMore(links0: Links, links: Links, links': Links, done: set<BlockIndex>, b: BlockIndex)
    requires Drained(links0, links, done) && Drained(links, links', {b})
    ensures Drained(links0, links', done + {b})
  {
    forall x | x in links0
      ensures links'[x] == if x.0 in done + {b} then 0 else links0[x]
    {
      assert links'[x] <= links[x];
      if x in links {
        assert links'[x] == if x.0 == b then 0 else links[x];
      }
    }
  }

  lemma QueueNext(blocks: set<BlockIndex>, links0: Links, links: Links, links': Links, p: BlockIndex,
                  done: set<BlockIndex>,
                  queue: seq<BlockIndex>, children: seq<BlockIndex>)
    requires Closed(blocks) && p in blocks && queue != [] && QueueOk(blocks, links0, links, p, done, queue)
    requires LinksOwn(blocks, links0)
    requires Drained(links, links', {queue[0]}) && forall c | c in children :: (queue[0], c) in links
    requires forall x | x in links && x.0 == queue[0] :: x.1 in children
    ensures QueueOk(blocks, links0, links', p, done + {queue[0]}, queue[1..] + children)
  {
    hide Chained, Reached;
    var b, rest := queue[0], queue[1..] + children;
    var reached := Reached(blocks, links0, p);
    DrainedMore(links0, links, links', done, b);
    assert queue == [b] + queue[1..];
    forall c | c in children
      ensures c in reached && c.pprev == b
    {
      assert links[(b, c)] <= links0[(b, c)];
      assert (b, c) in links0;
      ReachedUp(blocks, links0, p, c);
    }
    forall c | c in reached && c != p && c.pprev in done + {b}
      ensures c in done + {b} || c in rest
    {
      SelfReached(blocks, links0, p);
      ReachedUp(blocks, links0, p, c);
      if c.pprev !in done {
        assert links[(c.pprev, c)] == links0[(c.pprev, c)];
      }
    }
    forall q | q in rest
      ensures q in reached && (q == p || q.pprev in done + {b})
    {
    }
  }

  /** The pairs are of blocks of the index and their parents. */
  ghost predicate LinksOwn(blocks: set<BlockIndex>, links: Links) {
    forall x | x in links :: x.1 in blocks && x.1.pprev == x.0
  }

  lemma {:induction false} AllDone(blocks: set<BlockIndex>, links0: Links, links: Links, p: BlockIndex,
                                   done: set<BlockIndex>, c: BlockIndex)
    requires Closed(blocks) && QueueOk(blocks, links0, links, p, done, []) && c in Reached(blocks, links0, p)
    ensures c in done
    decreases c.nHeight
  {
    if c != p {
      InTree(blocks, c);
      ReachedUp(blocks, links0, p, c);
      AllDone(blocks, links0, links, p, done, c.pprev);
    }
  }

  lemma QueueEnds(blocks: set<BlockIndex>, links0: Links, links: Links, p: BlockIndex, done: set<BlockIndex>)
    requires Closed(blocks) && QueueOk(blocks, links0, links, p, done, [])
    ensures done == Reached(blocks, links0, p) && Drained(links0, links, done)
  {
    forall c | c in Reached(blocks, links0, p)
      ensures c in done
    {
      AllDone(blocks, links0, links, p, done, c);
    }
  }

  lemma QueueBegins(blocks: set<BlockIndex>, links: Links, p: BlockIndex)
    requires Closed(blocks) && p in blocks
    ensures QueueOk(blocks, links, links, p, {}, [p])
  {
    SelfReached(blocks, links, p);
  }

  // ---- Every block reached comes off the queue ----

  lemma {:induction false} StaysOrPasses(links: Links, links': Links, b: BlockIndex, c: BlockIndex, q: BlockIndex)
    requires Linked(c) && Drained(links, links', {b}) && Chained(links, c, q)
    ensures Chained(links', c, q) || Chained(links, c, b)
    decreases c.nHeight
  {
    if c != q {
      StaysOrPasses(links, links', b, c.pprev, q);
      assert links'[(c.pprev, c)] == if c.pprev == b then 0 else links[(c.pprev, c)];
    }
  }

  lemma {:induction false} FirstChild(links: Links, links': Links, b: BlockIndex, c: BlockIndex)
    returns (x: BlockIndex)
    requires Linked(c) && Drained(links, links', {b}) && Chained(links, c, b) && c != b
    ensures (b, x) in links && Chained(links', c, x)
    decreases c.nHeight
  {
    if c.pprev == b {
      x := c;
    } else {
      x := FirstChild(links, links', b, c.pprev);
      assert links'[(c.pprev, c)] == links[(c.pprev, c)];
    }
  }

  lemma {:induction false} ReachedComes(w: Pairs, queue: seq<BlockIndex>, q: BlockIndex, c: BlockIndex)
    requires Linked(c) && q in queue && Chained(multiset(w), c, q)
    ensures c in Schedule(w, queue)
    decreases |w| + |queue|
  {
    hide Chained, Others, Children, Drained;
    var b, rest := queue[0], queue[1..];
    var queue' := rest + Children(w, b);
    var links, links' := multiset(w), multiset(Others(w, b));
    Taken(w, b);
    StaysOrPasses(links, links', b, c, q);
    if Chained(links, c, b) {
      if c != b {
        var x := FirstChild(links, links', b, c);
        ChildrenAre(w, b, x);
        ReachedComes(Others(w, b), queue', x, c);
      }
    } else {
      assert q in rest;
      ReachedComes(Others(w, b), queue', q, c);
    }
  }
}
