/**
  The loop of ReceivedBlockTransactions: blocks take turns in being counted, numbered and offered as candidates. The
  number is a key of the ordered set, so a block that is in the set may lose its place in it.
 */
module MostWorkTurns {
  import opened Chain
  import opened MostWorkOrder
  import opened MostWork
  import opened MostWorkLinks
  import opened MostWorkQueue
  import opened MostWorkState

  ghost function Parent(b: BlockIndex): set<BlockIndex> {
    if b.pprev == null then {} else {b.pprev}
  }

  /** The transactions before this block, as far as they are counted. */
  function TxBefore(b: BlockIndex): nat
    reads Parent(b)`chainTx
  {
    if b.pprev == null then 0 else b.pprev.chainTx
  }

  /** Where transactions are counted the count is the sum. */
  ghost predicate SumsOk(blocks: set<BlockIndex>)
    requires Closed(blocks)
    reads blocks`nTx, blocks`chainTx
  {
    forall b | b in blocks && b.chainTx != 0 ::
      (b.pprev != null ==> b.pprev.chainTx != 0) && b.chainTx == b.nTx + TxBefore(b)
  }

  /** The chainstate is valid but for the count of `p`. */
  ghost predicate ValidBut(cs: Chainstate, p: BlockIndex)
    reads cs`order, cs`candidates, cs`waiting, cs`unlinked, cs`blocks, cs.chain`vChain
    reads cs.blocks`pskip, cs.blocks`chainTx
  {
    && Closed(cs.blocks) && SkipsOk(cs.blocks) && Apart(cs.blocks)
    && cs.chain.Valid() && (forall b | b in cs.chain.vChain :: b in cs.blocks)
    && Holds(cs.order, cs.candidates) && multiset(cs.waiting) == cs.unlinked
    && cs.candidates <= cs.blocks
    && (forall b | b in cs.candidates && b != p :: b.chainTx != 0 || b.pprev == null)
    && (forall b | b in cs.blocks && b.chainTx != 0 && b.pprev != null && b.pprev != p :: b.pprev.chainTx != 0)
  }

  ghost function NumbersOf(blocks: set<BlockIndex>): Numbers
    reads blocks`sequenceId
  {
    map b | b in blocks :: b.sequenceId
  }

  lemma OrderedByNumbers(cs: Chainstate)
    requires Holds(cs.order, cs.candidates) && cs.candidates <= cs.blocks
    ensures cs.InOrder() <==> OrderedBy(NumbersOf(cs.blocks), cs.order)
  {
  }

  /** Count a block and give it its number. */
  method CountOne(cs: Chainstate, b: BlockIndex, ghost p: BlockIndex)
    requires ValidBut(cs, p) && b in cs.blocks && b.nTx > 0 && (b.pprev == null || b.pprev.chainTx != 0)
    requires p in cs.blocks && (b == p || p.chainTx != 0)
    modifies cs`nextSequence, b`chainTx, b`sequenceId
    ensures cs.Sound() && b.chainTx == b.nTx + TxBefore(b) && b.sequenceId == old(cs.nextSequence)
    ensures cs.nextSequence == old(cs.nextSequence) + 1
    ensures NumbersOf(cs.blocks) == old(NumbersOf(cs.blocks)[b := cs.nextSequence])
    ensures cs.InOrder() <==> old(OrderedBy(NumbersOf(cs.blocks)[b := cs.nextSequence], cs.order))
  {
    hide SkipsOk, Apart, IsPath, Less, Ancestor, OrderedBy, Chainstate.InOrder;
    InTree(cs.blocks, b);
    b.chainTx := b.nTx + TxBefore(b);
    b.sequenceId := cs.nextSequence;
    cs.nextSequence := cs.nextSequence + 1;
    assert NumbersOf(cs.blocks) == old(NumbersOf(cs.blocks)[b := cs.nextSequence]);
    OrderedByNumbers(cs);
  }

  method TakeChildren(cs: Chainstate, b: BlockIndex) returns (children: seq<BlockIndex>)
    requires cs.Sound()
    modifies cs`waiting, cs`unlinked
    ensures cs.Sound() && children == Children(old(cs.waiting), b) && cs.waiting == Others(old(cs.waiting), b)
    ensures Drained(old(cs.unlinked), cs.unlinked, {b}) && |children| + |cs.waiting| == |old(cs.waiting)|
    ensures forall c | c in children :: (b, c) in old(cs.unlinked)
    ensures forall x | x in old(cs.unlinked) && x.0 == b :: x.1 in children
  {
    hide SkipsOk, Apart, IsPath, Less, Drained, Ancestor, Closed, Holds, Children, Others;
    Taken(cs.waiting, b);
    children, cs.waiting := TakeLinks(cs.waiting, b);
    cs.unlinked := multiset(cs.waiting);
  }

  /**
    One block off the queue: count it, number it, make it a candidate, and queue what waits for it. If the new number
    leaves the set in order, the set comes to hold the block unless that is worse than the tip.
   */
  method ProcessOne(cs: Chainstate, b: BlockIndex, ghost p: BlockIndex) returns (children: seq<BlockIndex>)
    requires ValidBut(cs, p) && b in cs.blocks && b.nTx > 0 && (b.pprev == null || b.pprev.chainTx != 0)
    requires p in cs.blocks && (b == p || p.chainTx != 0)
    modifies cs`order, cs`candidates, cs`waiting, cs`unlinked, cs`nextSequence, b`chainTx, b`sequenceId
    ensures cs.Sound() && b.chainTx == b.nTx + TxBefore(b) && b.sequenceId == old(cs.nextSequence)
    ensures cs.nextSequence == old(cs.nextSequence) + 1
    ensures NumbersOf(cs.blocks) == old(NumbersOf(cs.blocks)[b := cs.nextSequence])
    ensures old(cs.candidates) <= cs.candidates <= old(cs.candidates) + {b}
    ensures cs.Worse(b) ==> cs.order == old(cs.order) && cs.candidates == old(cs.candidates)
    ensures old(OrderedBy(NumbersOf(cs.blocks)[b := cs.nextSequence], cs.order)) ==>
      cs.InOrder() && (!cs.Worse(b) ==> cs.candidates == old(cs.candidates) + {b})
    ensures children == Children(old(cs.waiting), b) && cs.waiting == Others(old(cs.waiting), b)
    ensures Drained(old(cs.unlinked), cs.unlinked, {b}) && |children| + |cs.waiting| == |old(cs.waiting)|
    ensures forall c | c in children :: (b, c) in old(cs.unlinked)
    ensures forall x | x in old(cs.unlinked) && x.0 == b :: x.1 in children
  {
    hide Less, Drained, ValidBut, Chainstate.Sound, Chainstate.InOrder, OrderedBy, Children, Others;
    CountOne(cs, b, p);
    cs.TryAddBlockIndexCandidate(b);
    children := TakeChildren(cs, b);
  }

  // ---- The stored order ----

  function Reversed(s: seq<BlockIndex>): (r: seq<BlockIndex>)
    ensures |r| == |s| && forall i | 0 <= i < |s| :: r[i] == s[|s| - 1 - i]
  {
    seq(|s|, i requires 0 <= i < |s| => s[|s| - 1 - i])
  }

  /** The blocks that are in the set, or will be once they come off the queue. */
  function Stored(blocks: set<BlockIndex>, order: seq<BlockIndex>, tip: BlockIndex): set<BlockIndex> {
    set x | x in blocks && (x in order || x.chainWork > tip.chainWork)
  }

  /**
    The arrival of `p` leaves the set in order throughout. The candidates had their turns from best to worst, and now
    blocks come off the queue: in all this no stored block has a turn again after another of its work.
   */
  predicate Calm(cs: Chainstate, p: BlockIndex)
    reads cs`order, cs`waiting, cs`blocks, cs.chain`vChain
  {
    var tip := cs.chain.Tip();
    tip != null ==> NoneFallsBehind(Reversed(cs.order) + Schedule(cs.waiting, [p]), Stored(cs.blocks, cs.order, tip))
  }

  /** What the loop over the queue started from: the pairs, candidates and next number, and all counts and numbers. */
  datatype Start = Start(links: Links, waiting: Pairs, order: seq<BlockIndex>, candidates: set<BlockIndex>,
                         first: int, tip: BlockIndex, counts: map<BlockIndex, nat>, numbers: Numbers)

  ghost function Seen(turns: seq<BlockIndex>): set<BlockIndex> {
    set c | c in turns
  }

  ghost function Heavier(some: set<BlockIndex>, tip: BlockIndex): set<BlockIndex> {
    set c | c in some && c.chainWork > tip.chainWork
  }

  /** The set after some turns: always bounded, and in order and exact as long as no block fell behind. */
  ghost predicate SetOk(blocks: set<BlockIndex>, num: Numbers, order: seq<BlockIndex>, candidates: set<BlockIndex>,
                        start: Start, turns: seq<BlockIndex>, intact: bool)
  {
    var stored, all := Stored(blocks, start.order, start.tip), Reversed(start.order) + turns;
    && start.candidates <= candidates <= start.candidates + Heavier(Seen(turns), start.tip)
    && (Heavier(Seen(turns), start.tip) == {} ==> order == start.order)
    && (intact <==> NoneFallsBehind(all, stored))
    && (intact ==> OrderedBy(num, order) && Agree(num, all, stored))
    && (intact ==> candidates == start.candidates + Heavier(Seen(turns), start.tip))
  }

  lemma SetBegins(blocks: set<BlockIndex>, num: Numbers, start: Start)
    requires OrderedBy(num, start.order)
    ensures SetOk(blocks, num, start.order, start.candidates, start, [], true)
  {
    var stored, all := Stored(blocks, start.order, start.tip), Reversed(start.order);
    assert all + [] == all;
    assert Agree(num, all, stored) by {
      forall x | x in all
        ensures x in num
      {
        var i :| 0 <= i < |all| && all[i] == x;
        assert start.order[|all| - 1 - i] in start.order;
      }
    }
    AgreeMeansNone(num, all, stored);
  }

  /** One more block is numbered and offered. */
  lemma SetNext(blocks: set<BlockIndex>, num: Numbers, order: seq<BlockIndex>, candidates: set<BlockIndex>,
                order': seq<BlockIndex>, candidates': set<BlockIndex>, start: Start, turns: seq<BlockIndex>,
                intact: bool, b: BlockIndex, n: int)
    requires SetOk(blocks, num, order, candidates, start, turns, intact) && Holds(order, candidates)
    requires Holds(start.order, start.candidates) && start.candidates <= blocks == num.Keys && b in blocks
    requires (forall x | x in turns :: x in blocks) && forall x | x in num :: num[x] < n
    requires candidates <= candidates' <= candidates + {b}
    requires b.chainWork <= start.tip.chainWork ==> candidates' == candidates && order' == order
    requires OrderedBy(num[b := n], order) ==>
      OrderedBy(num[b := n], order') && (b.chainWork > start.tip.chainWork ==> candidates' == candidates + {b})
    ensures SetOk(blocks, num[b := n], order', candidates', start, turns + [b],
                  intact && OrderedBy(num[b := n], order))
  {
    hide NoneFallsBehind, Agree, OrderedBy;
    var stored, all := Stored(blocks, start.order, start.tip), Reversed(start.order) + turns;
    assert all + [b] == Reversed(start.order) + (turns + [b]);
    OneMoreTurn(all, stored, b);
    assert Heavier(Seen(turns + [b]), start.tip) ==
      Heavier(Seen(turns), start.tip) + Heavier({b}, start.tip);
    assert b.chainWork > start.tip.chainWork ==> b in Heavier({b}, start.tip);
    if intact {
      StoredSoFar(blocks, order, candidates, start, turns);
      Renumbered(num, order, all, stored, b, n);
    }
  }

  /** In the set are the stored blocks that had a turn. */
  lemma StoredSoFar(blocks: set<BlockIndex>, order: seq<BlockIndex>, candidates: set<BlockIndex>, start: Start,
                    turns: seq<BlockIndex>)
    requires Holds(order, candidates) && Holds(start.order, start.candidates) && start.candidates <= blocks
    requires candidates == start.candidates + Heavier(Seen(turns), start.tip)
    requires forall x | x in turns :: x in blocks
    ensures
      var stored, all := Stored(blocks, start.order, start.tip), Reversed(start.order) + turns;
      (forall x | x in order :: x in all && x in stored) && (forall x | x in all && x in stored :: x in order)
  {
    var back := Reversed(start.order);
    forall x | x in start.order
      ensures x in back
    {
      var i :| 0 <= i < |start.order| && start.order[i] == x;
      assert back[|back| - 1 - i] == x;
    }
    forall x | x in back
      ensures x in start.order
    {
    }
  }

  // ---- The loop ----

  /** What the queue has done so far: counts and numbers. */
  ghost predicate DoneOk(cs: Chainstate, done: set<BlockIndex>, first: int)
    reads cs`nextSequence, done`chainTx, done`nTx, done`sequenceId,
      (set b | b in done && b.pprev != null :: b.pprev)`chainTx
  {
    && first <= cs.nextSequence
    && forall c | c in done ::
      c.chainTx == c.nTx + TxBefore(c) && c.chainTx != 0 && first <= c.sequenceId < cs.nextSequence
  }

  /** The set, as far as the queue is done. */
  ghost predicate SetNow(cs: Chainstate, start: Start, turns: seq<BlockIndex>, intact: bool)
    reads cs`order, cs`candidates, cs`blocks, cs.blocks`sequenceId
  {
    && SetOk(cs.blocks, NumbersOf(cs.blocks), cs.order, cs.candidates, start, turns, intact)
    && Holds(start.order, start.candidates) && start.candidates <= cs.blocks && forall x | x in turns :: x in cs.blocks
  }

  method PropagateStep(cs: Chainstate, b: BlockIndex, ghost p: BlockIndex, ghost done: set<BlockIndex>,
                       ghost start: Start, ghost turns: seq<BlockIndex>, ghost intact: bool)
    returns (children: seq<BlockIndex>, ghost intact': bool)
    requires ValidBut(cs, p) && b in cs.blocks && b.nTx > 0 && (b.pprev == null || b.pprev.chainTx != 0)
    requires p in cs.blocks && (b == p || p.chainTx != 0)
    requires done <= cs.blocks && DoneOk(cs, done, start.first)
    requires SetNow(cs, start, turns, intact) && Numbered(cs)
    requires forall c | c in done && c.pprev == b :: b in done
    requires cs.chain.Tip() == start.tip && start.tip.sequenceId < start.first && start.tip != b && start.tip !in done
    requires start.tip in cs.blocks
    modifies cs`order, cs`candidates, cs`waiting, cs`unlinked, cs`nextSequence, b`chainTx, b`sequenceId
    ensures cs.Sound() && b.chainTx != 0 && DoneOk(cs, done + {b}, start.first)
    ensures SetNow(cs, start, turns + [b], intact') && Numbered(cs)
    ensures intact' <==> intact && old(OrderedBy(NumbersOf(cs.blocks)[b := cs.nextSequence], cs.order))
    ensures b in done ==> b.chainTx == old(b.chainTx)
    ensures b.chainTx == b.nTx + TxBefore(b) && cs.nextSequence == old(cs.nextSequence) + 1
    ensures children == Children(old(cs.waiting), b) && cs.waiting == Others(old(cs.waiting), b)
    ensures Drained(old(cs.unlinked), cs.unlinked, {b}) && |children| + |cs.waiting| == |old(cs.waiting)|
    ensures forall c | c in children :: (b, c) in old(cs.unlinked)
    ensures forall x | x in old(cs.unlinked) && x.0 == b :: x.1 in children
  {
    hide SkipsOk, Apart, IsPath, Drained, Ancestor, Linked, Chainstate.InOrder, Children, Others, SetOk, OrderedBy;
    assert b.pprev != b by {
      InTree(cs.blocks, b);
      Lower(b);
    }
    ghost var num, order, candidates, n := NumbersOf(cs.blocks), cs.order, cs.candidates, cs.nextSequence;
    children := ProcessOne(cs, b, p);
    assert cs.Worse(b) <==> b.chainWork <= start.tip.chainWork;
    OrderedByNumbers(cs);
    SetNext(cs.blocks, num, order, candidates, cs.order, cs.candidates, start, turns, intact, b, n);
    intact' := intact && OrderedBy(num[b := n], order);
  }

  lemma Lower(b: BlockIndex)
    requires Linked(b)
    ensures b.pprev != b
  {
  }

  lemma ParentNotReached(blocks: set<BlockIndex>, links: Links, p: BlockIndex)
    requires Closed(blocks) && p in blocks && p.pprev != null
    ensures p.pprev !in Reached(blocks, links, p)
  {
    InTree(blocks, p);
    if p.pprev in Reached(blocks, links, p) {
      ChainedDescends(links, p.pprev, p);
    }
  }

  /** Counts that were right stay as they are. */
  ghost predicate Kept(blocks: set<BlockIndex>, done: set<BlockIndex>, was: map<BlockIndex, nat>)
    requires Closed(blocks) && done <= blocks == was.Keys
    reads done`chainTx, blocks`nTx
  {
    SumsWere(blocks, was) ==> forall c | c in done && was[c] != 0 :: c.chainTx == was[c]
  }

  ghost predicate SumsWere(blocks: set<BlockIndex>, was: map<BlockIndex, nat>)
    requires Closed(blocks) && blocks == was.Keys
    reads blocks`nTx
  {
    forall b | b in blocks && was[b] != 0 ::
      if b.pprev == null then was[b] == b.nTx else was[b.pprev] != 0 && was[b] == b.nTx + was[b.pprev]
  }

  /** Blocks not done are as at the start. */
  ghost predicate Untouched(blocks: set<BlockIndex>, done: set<BlockIndex>, start: Start)
    reads blocks`chainTx, blocks`sequenceId
  {
    && start.counts.Keys == start.numbers.Keys == blocks
    && forall c | c in blocks && c !in done :: c.chainTx == start.counts[c] && c.sequenceId == start.numbers[c]
  }

  ghost predicate LoopOk(cs: Chainstate, p: BlockIndex, start: Start, done: set<BlockIndex>, turns: seq<BlockIndex>,
                         intact: bool, queue: seq<BlockIndex>)
    reads cs`order, cs`candidates, cs`waiting, cs`blocks, cs`unlinked, cs`nextSequence, cs.chain`vChain, cs.blocks
  {
    && Closed(cs.blocks) && ValidBut(cs, p) && p in cs.blocks && cs.chain.Tip() == start.tip
    && QueueOk(cs.blocks, start.links, cs.unlinked, p, done, queue) && done <= cs.blocks
    && (done != {} ==> p in done && p.chainTx != 0 && cs.Sound())
    && DoneOk(cs, done, start.first) && Holds(turns, done) && SetNow(cs, start, turns, intact) && Numbered(cs)
    && Untouched(cs.blocks, done, start) && Kept(cs.blocks, done, start.counts)
    && turns + Schedule(cs.waiting, queue) == Schedule(start.waiting, [p])
  }

  /** What does not change during the loop. */
  ghost predicate StartOk(cs: Chainstate, p: BlockIndex, start: Start)
    requires Closed(cs.blocks)
    reads cs`blocks, cs.blocks`nTx, start.tip`sequenceId
  {
    && p in cs.blocks && LinksOwn(cs.blocks, start.links) && start.tip !in Reached(cs.blocks, start.links, p)
    && (forall c | c in Reached(cs.blocks, start.links, p) :: c.nTx > 0)
    && start.counts.Keys == cs.blocks && (p.pprev != null ==> start.counts[p.pprev] != 0)
    && start.tip.sequenceId < start.first && start.tip in cs.blocks
  }

  lemma ScheduleNext(w: Pairs, turns: seq<BlockIndex>, queue: seq<BlockIndex>)
    requires queue != []
    ensures turns + [queue[0]] + Schedule(Others(w, queue[0]), queue[1..] + Children(w, queue[0])) ==
            turns + Schedule(w, queue)
  {
  }

  lemma OneMoreDone(turns: seq<BlockIndex>, done: set<BlockIndex>, b: BlockIndex)
    requires Holds(turns, done)
    ensures Holds(turns + [b], done + {b})
  {
  }

  method PopOne(cs: Chainstate, p: BlockIndex, b: BlockIndex, queue: seq<BlockIndex>, ghost start: Start,
                ghost done: set<BlockIndex>, ghost turns: seq<BlockIndex>, ghost intact: bool)
    returns (queue': seq<BlockIndex>, ghost intact': bool)
    requires queue != [] && b == queue[0] && LoopOk(cs, p, start, done, turns, intact, queue) && StartOk(cs, p, start)
    modifies cs`order, cs`candidates, cs`waiting, cs`unlinked, cs`nextSequence, b`chainTx, b`sequenceId
    ensures LoopOk(cs, p, start, done + {b}, turns + [b], intact', queue') && StartOk(cs, p, start)
    ensures |cs.waiting| + |queue'| < |old(cs.waiting)| + |queue|
    ensures intact' <==> intact && old(OrderedBy(NumbersOf(cs.blocks)[b := cs.nextSequence], cs.order))
  {
    hide SkipsOk, Apart, IsPath, Drained, Ancestor, Linked, Chainstate.Sound, QueueOk, DoneOk, Reached, ValidBut, Kept;
    hide Closed, SetNow, Numbered, Schedule, Children, Others, OrderedBy, NumbersOf, Holds, LinksOwn;
    InQueue(cs, p, start, done, turns, intact, queue);
    ParentCounted(cs, p, start, done, turns, intact, queue);
    QueueHead(cs, start.links, p, done, queue, start.first);
    ghost var links := cs.unlinked;
    ScheduleNext(cs.waiting, turns, queue);
    OneMoreDone(turns, done, b);
    var children;
    children, intact' := PropagateStep(cs, b, p, done, start, turns, intact);
    ValidIsValidBut(cs, p);
    QueueNext(cs.blocks, start.links, links, cs.unlinked, p, done, queue, children);
    KeptNext(cs.blocks, done, start.counts, b);
    queue' := queue[1..] + children;
  }

  /** Count, number and offer as candidates all blocks reached from `p`, in the order of a queue. */
  method Propagate(cs: Chainstate, p: BlockIndex, ghost start: Start) returns (ghost intact: bool)
    requires LoopOk(cs, p, start, {}, [], true, [p]) && StartOk(cs, p, start)
    modifies cs`order, cs`candidates, cs`waiting, cs`unlinked, cs`nextSequence
    modifies cs.blocks`chainTx, cs.blocks`sequenceId
    ensures Closed(cs.blocks)
    ensures
      var reached := Reached(cs.blocks, start.links, p);
      && cs.Sound() && Drained(start.links, cs.unlinked, reached) && DoneOk(cs, reached, start.first) && Numbered(cs)
      && Holds(Schedule(start.waiting, [p]), reached) && SetNow(cs, start, Schedule(start.waiting, [p]), intact)
      && Untouched(cs.blocks, reached, start)
      && (SumsWere(cs.blocks, start.counts) ==>
        forall c | c in reached && start.counts[c] != 0 :: c.chainTx == start.counts[c])
  {
    hide SkipsOk, Apart, IsPath, Drained, Chainstate.Sound, QueueOk, DoneOk, ValidBut, Kept, Closed, SumsWere;
    hide Untouched, SetNow, Numbered, Schedule, OrderedBy, Holds, LinksOwn;
    ghost var done, turns := {}, [];
    var queue := [p];
    intact := true;
    while queue != []
      invariant LoopOk(cs, p, start, done, turns, intact, queue) && StartOk(cs, p, start)
      invariant done == {} ==> queue == [p]
      decreases |cs.waiting| + |queue|
    {
      InQueue(cs, p, start, done, turns, intact, queue);
      var b := queue[0];
      queue, intact := PopOne(cs, p, b, queue, start, done, turns, intact);
      done, turns := done + {b}, turns + [b];
    }
    NothingLeft(cs.waiting, turns);
    QueueEnds(cs.blocks, start.links, cs.unlinked, p, done);
    KeptEnds(cs.blocks, done, start.counts);
  }

  lemma NothingLeft(w: Pairs, turns: seq<BlockIndex>)
    ensures turns + Schedule(w, []) == turns
  {
  }

  lemma InQueue(cs: Chainstate, p: BlockIndex, start: Start, done: set<BlockIndex>, turns: seq<BlockIndex>,
                intact: bool, queue: seq<BlockIndex>)
    requires queue != [] && LoopOk(cs, p, start, done, turns, intact, queue)
    ensures queue[0] in cs.blocks
  {
    assert queue[0] in queue;
  }

  lemma ParentCounted(cs: Chainstate, p: BlockIndex, start: Start, done: set<BlockIndex>, turns: seq<BlockIndex>,
                      intact: bool, queue: seq<BlockIndex>)
    requires LoopOk(cs, p, start, done, turns, intact, queue) && StartOk(cs, p, start)
    ensures p.pprev == null || p.pprev.chainTx != 0
  {
    if p.pprev != null {
      ParentNotReached(cs.blocks, start.links, p);
    }
  }

  /** The sums were right, and where they were counts are the same. */
  lemma KeptEnds(blocks: set<BlockIndex>, done: set<BlockIndex>, was: map<BlockIndex, nat>)
    requires Closed(blocks) && done <= blocks == was.Keys && Kept(blocks, done, was)
    ensures SumsWere(blocks, was) ==> forall c | c in done && was[c] != 0 :: c.chainTx == was[c]
  {
  }

  lemma KeptBegins(blocks: set<BlockIndex>, was: map<BlockIndex, nat>)
    requires Closed(blocks) && blocks == was.Keys && forall b | b in blocks :: was[b] == b.chainTx
    ensures Kept(blocks, {}, was) && (SumsOk(blocks) ==> SumsWere(blocks, was))
  {
  }

  lemma KeptNext(blocks: set<BlockIndex>, done: set<BlockIndex>, was: map<BlockIndex, nat>, b: BlockIndex)
    requires Closed(blocks) && done <= blocks == was.Keys && Kept(blocks, done, was) && b in blocks
    requires b.chainTx == b.nTx + TxBefore(b) && forall c | c in blocks && c !in done && c != b :: c.chainTx == was[c]
    ensures Kept(blocks, done + {b}, was)
  {
    InTree(blocks, b);
    Lower(b);
  }

  /** The loop starts with nothing done. */
  lemma LoopBegins(cs: Chainstate, p: BlockIndex, start: Start)
    requires Closed(cs.blocks) && ValidBut(cs, p) && p in cs.blocks && start.links == cs.unlinked
    requires start.candidates == cs.candidates && start.order == cs.order && start.waiting == cs.waiting
    requires cs.InOrder() && Numbered(cs)
    requires start.first == cs.nextSequence && cs.chain.Tip() == start.tip && Untouched(cs.blocks, {}, start)
    ensures LoopOk(cs, p, start, {}, [], true, [p]) && (SumsOk(cs.blocks) ==> SumsWere(cs.blocks, start.counts))
  {
    hide SkipsOk, Apart, IsPath, Ancestor, QueueOk, SetOk, OrderedBy, Less, Chainstate.InOrder;
    QueueBegins(cs.blocks, cs.unlinked, p);
    KeptBegins(cs.blocks, start.counts);
    OrderedByNumbers(cs);
    SetBegins(cs.blocks, NumbersOf(cs.blocks), start);
  }

  lemma ValidIsValidBut(cs: Chainstate, p: BlockIndex)
    requires cs.Sound()
    ensures ValidBut(cs, p)
  {
  }

  /** What is known of the block at the head of the queue. */
  lemma QueueHead(cs: Chainstate, links0: Links, p: BlockIndex, done: set<BlockIndex>, queue: seq<BlockIndex>,
                  first: int)
    requires Closed(cs.blocks) && p in cs.blocks && queue != []
    requires QueueOk(cs.blocks, links0, cs.unlinked, p, done, queue)
    requires DoneOk(cs, done, first) && (p.pprev == null || p.pprev.chainTx != 0)
    ensures queue[0] in Reached(cs.blocks, links0, p) && done <= Reached(cs.blocks, links0, p)
    ensures queue[0].pprev == null || queue[0].pprev.chainTx != 0
    ensures forall c | c in done && c.pprev == queue[0] :: queue[0] in done
    ensures queue[0] == p || done != {}
  {
    hide Chained, Drained;
    if p.pprev != null {
      ParentNotReached(cs.blocks, links0, p);
    }
  }
}
