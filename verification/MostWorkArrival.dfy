/** The data of a block arrives: ReceivedBlockTransactions. */
module MostWorkArrival {
  import opened Chain
  import opened MostWorkOrder
  import opened MostWork
  import opened MostWorkLinks
  import opened MostWorkQueue
  import opened MostWorkState
  import opened MostWorkTurns

  /** All blocks before this one are counted. */
  predicate Open(p: BlockIndex)
    reads Parent(p)`chainTx
  {
    p.pprev == null || p.pprev.chainTx != 0
  }

  /** Note the data, the transactions and the level of validity of a block; a count that does not fit is dropped. */
  method MarkReceived(cs: Chainstate, p: BlockIndex, count: nat)
    requires cs.Valid() && p in cs.blocks && !p.failed && count > 0
    modifies p`nTx, p`chainTx, p`haveData, p`validity
    ensures ValidBut(cs, p) && cs.InOrder() && p.nTx == count && p.haveData
    ensures p.validity == if old(p.validity) < VALID_TRANSACTIONS then VALID_TRANSACTIONS else old(p.validity)
    ensures p.chainTx == if old(p.chainTx) == count + TxBefore(p) then old(p.chainTx) else 0
  {
    hide SkipsOk, Apart, IsPath, Ancestor, Chainstate.InOrder;
    InTree(cs.blocks, p);
    Lower(p);
    p.nTx := count;
    if !(p.chainTx == 0 || p.chainTx == p.nTx + TxBefore(p)) {
      p.chainTx := 0;
    }
    p.haveData := true;
    if !p.failed && p.validity < VALID_TRANSACTIONS {
      p.validity := VALID_TRANSACTIONS;
    }
  }

  /** What was before: the blocks without data and those counted, those eligible, the pairs and the candidates. */
  datatype Before = Before(noData: set<BlockIndex>, counted: set<BlockIndex>, eligible: set<BlockIndex>,
                           links: Links, order: seq<BlockIndex>, candidates: set<BlockIndex>)

  /** The book before an arrival. */
  ghost predicate WasSettled(cs: Chainstate, b4: Before)
    requires Closed(cs.blocks)
    reads cs`blocks, cs.chain`vChain
  {
    && GraphOk(cs.chain.vChain, cs.blocks, b4.noData, b4.counted, b4.links)
    && b4.eligible <= cs.blocks && b4.counted <= cs.blocks
    && forall b | b in b4.eligible :: b in b4.candidates || Waits(cs.chain.vChain, b4.noData, b4.links, b)
  }

  /** A block that arrives after its ancestors loses no candidate. */
  lemma OpenKeeps(cs: Chainstate, p: BlockIndex, b4: Before)
    requires cs.Sound() && p in cs.blocks && WasSettled(cs, b4) && (p.pprev == null || p.pprev in b4.counted)
    requires NoData(cs.blocks) == b4.noData - {p} && Drained(b4.links, cs.unlinked, Reached(cs.blocks, b4.links, p))
    requires Counted(cs.blocks) == b4.counted + Reached(cs.blocks, b4.links, p)
    requires b4.candidates <= cs.candidates
    requires forall b | b in cs.Eligible() ::
      if b in Reached(cs.blocks, b4.links, p) then b in cs.candidates else b in b4.eligible
    ensures GraphOk(cs.chain.vChain, cs.blocks, NoData(cs.blocks), Counted(cs.blocks), cs.unlinked) && NoneLost(cs)
  {
    hide GraphOk, Waits, Reached, Drained, Chainstate.Eligible;
    ArrivalGraph(cs.chain.vChain, cs.blocks, b4.noData, b4.counted, b4.links, cs.unlinked, p);
    forall b | b in cs.Eligible()
      ensures b in cs.candidates || Waits(cs.chain.vChain, NoData(cs.blocks), cs.unlinked, b)
    {
      if b !in cs.candidates {
        WaitsOn(cs.chain.vChain, cs.blocks, b4.noData, b4.links, cs.unlinked, p, b);
      }
    }
  }

  /** Nor does one that arrives before its ancestors. */
  lemma EarlyKeeps(cs: Chainstate, p: BlockIndex, b4: Before)
    requires cs.Sound() && p in cs.blocks && WasSettled(cs, b4) && p.pprev != null && p.pprev !in b4.counted
    requires NoData(cs.blocks) == b4.noData - {p} && Counted(cs.blocks) == b4.counted
    requires cs.unlinked == b4.links + multiset{(p.pprev, p)} && cs.candidates == b4.candidates
    requires cs.Eligible() <= b4.eligible
    ensures GraphOk(cs.chain.vChain, cs.blocks, NoData(cs.blocks), Counted(cs.blocks), cs.unlinked) && NoneLost(cs)
  {
    hide Waits, Chainstate.Eligible;
    var v := cs.chain.vChain;
    EarlyGraph(v, cs.blocks, b4.noData, b4.counted, b4.links, p);
    NewLinkWaits(v, cs.blocks, b4.noData, b4.counted, b4.links, p);
    forall b | b in cs.Eligible()
      ensures b in cs.candidates || Waits(v, NoData(cs.blocks), cs.unlinked, b)
    {
      if b !in cs.candidates {
        WaitsFurther(v, b4.noData, b4.links, cs.unlinked, p, b);
      }
    }
  }

  /** The state once the data of `p` is noted; only its count may be off. */
  ghost predicate Marked(cs: Chainstate, p: BlockIndex, b4: Before)
    reads cs`order, cs`candidates, cs`waiting, cs`unlinked, cs`blocks, cs`nextSequence, cs.chain`vChain, cs.blocks
  {
    && Closed(cs.blocks) && ValidBut(cs, p) && cs.InOrder() && p in cs.blocks && p != cs.chain.Tip() &&
      p in b4.noData &&
      WasSettled(cs, b4)
    && FlagsOk(cs.blocks) && WorkGrows(cs.blocks) && Numbered(cs) && TipOk(cs) && FailurePassesOn(cs.blocks)
    && NoData(cs.blocks) == b4.noData - {p} && b4.links == cs.unlinked && b4.candidates == cs.candidates
    && b4.order == cs.order
    && (forall b | b in cs.blocks && b != p :: b in b4.counted <==> b.chainTx != 0)
    && (forall b | b in b4.candidates :: b in b4.counted)
    && (forall b | b in cs.Eligible() && b != p :: b in b4.eligible)
  }

  /** The tip is not among the blocks reached, and those have transactions. */
  lemma ReachedFacts(cs: Chainstate, p: BlockIndex, b4: Before)
    requires Marked(cs, p, b4) && Open(p)
    ensures cs.chain.Tip() in cs.blocks && cs.chain.Tip() !in Reached(cs.blocks, cs.unlinked, p)
    ensures forall c | c in Reached(cs.blocks, cs.unlinked, p) :: c.nTx > 0
    ensures LinksOwn(cs.blocks, cs.unlinked) && (p.pprev == null || p.pprev in b4.counted)
  {
    hide Reached, Waits, LinksComplete, CountsOk, Apart, SkipsOk, Chainstate.Eligible;
    var tip, v := cs.chain.Tip(), cs.chain.vChain;
    InTree(cs.blocks, p);
    Lower(p);
    forall c | c in Reached(cs.blocks, cs.unlinked, p)
      ensures c.nTx > 0 && c != tip
    {
      SelfReached(cs.blocks, cs.unlinked, p);
      if c != p {
        ReachedWaits(v, cs.blocks, b4.noData, b4.counted, cs.unlinked, p, c);
        OnTip(cs);
        assert c !in NoData(cs.blocks);
      } else {
        assert p !in NoData(cs.blocks);
      }
    }
    forall x | x in cs.unlinked
      ensures x.1 in cs.blocks && x.1.pprev == x.0
    {
      assert LinkOk(v, cs.blocks, b4.noData, cs.unlinked, x);
    }
  }

  lemma OnTip(cs: Chainstate)
    requires cs.chain.Valid() && cs.chain.Tip() != null
    ensures On(cs.chain.vChain, cs.chain.Tip())
  {
    AncestorSelf(cs.chain.Tip());
  }

  /** The counted blocks are those counted before and those reached. */
  lemma CountsAfter(cs: Chainstate, p: BlockIndex, b4: Before, start: Start)
    requires Closed(cs.blocks) && p in cs.blocks && b4.counted <= cs.blocks && start.counts.Keys == cs.blocks
    requires DoneOk(cs, Reached(cs.blocks, b4.links, p), start.first)
    requires Untouched(cs.blocks, Reached(cs.blocks, b4.links, p), start)
    requires forall b | b in cs.blocks && b != p :: b in b4.counted <==> start.counts[b] != 0
    ensures Counted(cs.blocks) == b4.counted + Reached(cs.blocks, b4.links, p)
  {
    hide Chained;
    SelfReached(cs.blocks, b4.links, p);
  }

  /** The sums are right where they were and where blocks were reached. */
  lemma SumsAfter(cs: Chainstate, p: BlockIndex, b4: Before, start: Start)
    requires cs.Sound() && p in cs.blocks
    requires DoneOk(cs, Reached(cs.blocks, b4.links, p), start.first)
    requires Untouched(cs.blocks, Reached(cs.blocks, b4.links, p), start)
    requires SumsWere(cs.blocks, start.counts) ==>
      forall c | c in Reached(cs.blocks, b4.links, p) && start.counts[c] != 0 :: c.chainTx == start.counts[c]
    ensures SumsWere(cs.blocks, start.counts) ==> SumsOk(cs.blocks)
  {
    hide Reached, SkipsOk, Apart, IsPath, Linked, Ancestor;
    SelfReached(cs.blocks, b4.links, p);
  }

  /** The effect of the queue: on pairs, candidates, counts and numbers; exact for the candidates if `intact`. */
  ghost predicate Effect(cs: Chainstate, p: BlockIndex, b4: Before, first: int, intact: bool)
    requires Closed(cs.blocks) && cs.chain.Tip() != null
    reads cs`order, cs`candidates, cs`unlinked, cs`blocks, cs`nextSequence, cs.chain`vChain
    reads cs.blocks`chainTx, cs.blocks`nTx, cs.blocks`sequenceId
  {
    var reached := Reached(cs.blocks, b4.links, p);
    && Drained(b4.links, cs.unlinked, reached) && first <= cs.nextSequence
    && b4.candidates <= cs.candidates <= b4.candidates + Heavier(reached, cs.chain.Tip())
    && (Heavier(reached, cs.chain.Tip()) == {} ==> cs.order == b4.order)
    && (intact ==> cs.InOrder() && cs.candidates == b4.candidates + Heavier(reached, cs.chain.Tip()))
    && (forall c | c in reached :: c.chainTx == c.nTx + TxBefore(c) != 0 && first <= c.sequenceId < cs.nextSequence)
  }

  /** With `p` marked, and its ancestors counted, count all that it was missing for. */
  method CountReached(cs: Chainstate, p: BlockIndex, ghost b4: Before) returns (ghost intact: bool)
    requires Marked(cs, p, b4) && Open(p)
    modifies cs`order, cs`candidates, cs`waiting, cs`unlinked, cs`nextSequence
    modifies cs.blocks`chainTx, cs.blocks`sequenceId
    ensures Closed(cs.blocks) && cs.Sound() && p in cs.blocks && cs.chain.Tip() in cs.blocks
    ensures cs.chain.Tip() !in Reached(cs.blocks, b4.links, p)
    ensures (intact <==> old(Calm(cs, p))) && Effect(cs, p, b4, old(cs.nextSequence), intact)
    ensures Counted(cs.blocks) == b4.counted + Reached(cs.blocks, b4.links, p)
    ensures forall c | c in cs.blocks && c !in Reached(cs.blocks, b4.links, p) ::
      c.chainTx == old(c.chainTx) && c.sequenceId == old(c.sequenceId)
    ensures old(SumsOk(cs.blocks)) ==> SumsOk(cs.blocks)
  {
    hide SkipsOk, Apart, IsPath, Drained, Chainstate.Sound, QueueOk, ValidBut, SumsWere, SumsOk, Reached, GraphOk;
    hide Waits, Ancestor, Linked, SetNow, Schedule, Calm, LoopOk;
    hide Chainstate.Eligible, FlagsOk, WorkGrows, FailurePassesOn, NoData, Numbered, Chainstate.InOrder;
    ghost var start := Start(cs.unlinked, cs.waiting, cs.order, cs.candidates, cs.nextSequence, cs.chain.Tip(),
                             map b | b in cs.blocks :: b.chainTx, map b | b in cs.blocks :: b.sequenceId);
    ReachedFacts(cs, p, b4);
    TipNumber(cs, p, b4);
    InTree(cs.blocks, p);
    LoopBegins(cs, p, start);
    SelfReached(cs.blocks, cs.unlinked, p);
    CalmIs(cs, p, start);
    intact := Propagate(cs, p, start);
    SetAfter(cs, p, start, intact);
    CountsAfter(cs, p, b4, start);
    SumsAfter(cs, p, b4, start);
  }

  lemma CalmIs(cs: Chainstate, p: BlockIndex, start: Start)
    requires cs.chain.Tip() == start.tip && start.order == cs.order && start.waiting == cs.waiting
    ensures Calm(cs, p) <==> NoneFallsBehind(Reversed(start.order) + Schedule(start.waiting, [p]),
                                             Stored(cs.blocks, start.order, start.tip))
  {
  }

  /** What the turns have made of the set. */
  lemma SetAfter(cs: Chainstate, p: BlockIndex, start: Start, intact: bool)
    requires Closed(cs.blocks) && cs.Sound() && SetNow(cs, start, Schedule(start.waiting, [p]), intact)
    requires Holds(Schedule(start.waiting, [p]), Reached(cs.blocks, start.links, p))
    ensures
      var reached := Reached(cs.blocks, start.links, p);
      && start.candidates <= cs.candidates <= start.candidates + Heavier(reached, start.tip)
      && (Heavier(reached, start.tip) == {} ==> cs.order == start.order)
      && (intact ==> cs.InOrder() && cs.candidates == start.candidates + Heavier(reached, start.tip))
      && (intact <==> NoneFallsBehind(Reversed(start.order) + Schedule(start.waiting, [p]),
                                      Stored(cs.blocks, start.order, start.tip)))
  {
    hide SkipsOk, Apart, IsPath, Reached, Schedule, NoneFallsBehind, Agree, OrderedBy, Chainstate.InOrder, Stored;
    OrderedByNumbers(cs);
    var reached, turns := Reached(cs.blocks, start.links, p), Schedule(start.waiting, [p]);
    assert Seen(turns) == reached;
  }

  lemma TipNumber(cs: Chainstate, p: BlockIndex, b4: Before)
    requires Marked(cs, p, b4)
    ensures cs.chain.Tip() in cs.blocks && cs.chain.Tip().sequenceId < cs.nextSequence
    ensures cs.nextSequence > SEQ_ID_INIT && forall b | b in cs.blocks :: b.sequenceId < cs.nextSequence
  {
  }

  /** Flags without counts, and the blocks whose transactions are known. */
  ghost predicate FlagsBut(blocks: set<BlockIndex>, known: set<BlockIndex>)
    reads blocks`validity, blocks`haveData
  {
    forall b | b in blocks ::
      b.validity >= VALID_TREE && (b in known <==> b.validity >= VALID_TRANSACTIONS) && (b.haveData ==> b in known)
  }

  lemma FlagsKnown(blocks: set<BlockIndex>, known: set<BlockIndex>)
    requires FlagsOk(blocks) && known == set b | b in blocks && b.nTx > 0
    ensures FlagsBut(blocks, known) && forall b | b in blocks && b.chainTx != 0 :: b in known
  {
  }

  lemma FlagsAgain(blocks: set<BlockIndex>, known: set<BlockIndex>)
    requires FlagsBut(blocks, known) && (forall b | b in blocks :: b in known <==> b.nTx > 0)
    requires forall b | b in blocks && b.chainTx != 0 :: b in known
    ensures FlagsOk(blocks)
  {
  }

  lemma NumbersAgain(cs: Chainstate, p: BlockIndex, b4: Before, first: int, intact: bool)
    requires Closed(cs.blocks) && cs.chain.Tip() != null && Effect(cs, p, b4, first, intact) && first > SEQ_ID_INIT
    requires forall c | c in cs.blocks && c !in Reached(cs.blocks, b4.links, p) :: c.sequenceId < first
    ensures Numbered(cs)
  {
  }

  /** Of the blocks reached, those not worse than the tip are candidates. */
  lemma OfferedAreCandidates(cs: Chainstate, p: BlockIndex, b4: Before, first: int, intact: bool)
    requires Closed(cs.blocks) && cs.chain.Tip() in cs.blocks && Effect(cs, p, b4, first, intact)
    requires cs.chain.Tip().sequenceId < first
    ensures forall c | c in Reached(cs.blocks, b4.links, p) :: cs.Worse(c) <==> c.chainWork <= cs.chain.Tip().chainWork
    ensures
      var offered := set c | c in Reached(cs.blocks, b4.links, p) && !cs.Worse(c);
      && b4.candidates <= cs.candidates <= b4.candidates + offered
      && (offered == {} ==> cs.order == b4.order)
      && (intact ==> cs.InOrder() && cs.candidates == b4.candidates + offered)
    ensures Drained(b4.links, cs.unlinked, Reached(cs.blocks, b4.links, p))
    ensures forall c | c in Reached(cs.blocks, b4.links, p) ::
      c.chainTx == c.nTx + TxBefore(c) && first <= c.sequenceId < cs.nextSequence
  {
    hide Reached, Drained;
  }

  /** The candidates worse than the tip. */
  ghost function WorseOnes(cs: Chainstate): set<BlockIndex>
    reads cs`candidates, cs`blocks, cs.chain`vChain, cs.blocks`sequenceId, cs.candidates`sequenceId
  {
    set c | c in cs.candidates && cs.Worse(c)
  }

  lemma NoWorseOnes(cs: Chainstate)
    ensures NoneWorse(cs) <==> WorseOnes(cs) == {}
  {
    if WorseOnes(cs) == {} {
      forall c | c in cs.candidates
        ensures !cs.Worse(c)
      {
        assert c !in WorseOnes(cs);
      }
    }
  }

  /** None of the blocks has the work of the tip. */
  ghost predicate NoTie(tip: BlockIndex, some: set<BlockIndex>) {
    forall c | c in some :: c.chainWork != tip.chainWork
  }

  /** When a candidate comes to be worse than the tip: it was, or it is numbered anew with the tip's work. */
  lemma NoneWorseIff(cs: Chainstate, p: BlockIndex, b4: Before, first: int, intact: bool, worse: set<BlockIndex>)
    requires Closed(cs.blocks) && cs.chain.Tip() in cs.blocks && Effect(cs, p, b4, first, intact)
    requires cs.chain.Tip().sequenceId < first
    requires worse <= b4.candidates
    requires forall c | c in b4.candidates && c !in Reached(cs.blocks, b4.links, p) :: c in worse <==> cs.Worse(c)
    requires forall c | c in b4.candidates && c !in worse :: c.chainWork >= cs.chain.Tip().chainWork
    requires forall c | c in b4.candidates && c.chainWork > cs.chain.Tip().chainWork :: c !in worse
    ensures NoneWorse(cs) <==>
      worse == {} && NoTie(cs.chain.Tip(), b4.candidates * Reached(cs.blocks, b4.links, p))
  {
    hide Reached, Drained, Effect, Less;
    OfferedAreCandidates(cs, p, b4, first, intact);
  }

  /** The same, said by what is worse than the tip. */
  method CountOffered(cs: Chainstate, p: BlockIndex, ghost b4: Before) returns (ghost intact: bool)
    requires Marked(cs, p, b4) && Open(p)
    modifies cs`order, cs`candidates, cs`waiting, cs`unlinked, cs`nextSequence
    modifies cs.blocks`chainTx, cs.blocks`sequenceId
    ensures Closed(cs.blocks) && cs.Sound() && p in cs.blocks && cs.chain.Tip() in cs.blocks
    ensures cs.chain.Tip() !in Reached(cs.blocks, b4.links, p) && cs.chain.Tip().sequenceId < old(cs.nextSequence)
    ensures (intact <==> old(Calm(cs, p))) && Effect(cs, p, b4, old(cs.nextSequence), intact)
    ensures Counted(cs.blocks) == b4.counted + Reached(cs.blocks, b4.links, p)
    ensures intact ==> forall b | b in cs.Eligible() ::
      if b in Reached(cs.blocks, b4.links, p) then b in cs.candidates else b in b4.eligible
    ensures forall c | c in cs.blocks && c !in Reached(cs.blocks, b4.links, p) ::
      c.chainTx == old(c.chainTx) && c.sequenceId == old(c.sequenceId)
    ensures old(SumsOk(cs.blocks)) ==> SumsOk(cs.blocks)
  {
    hide SkipsOk, Apart, IsPath, Drained, Chainstate.Sound, ValidBut, SumsOk, Reached, GraphOk, Waits, Ancestor, Linked;
    hide Closed;
    hide Less, WorkGrows, FailurePassesOn, Effect, FlagsOk, Numbered, WasSettled;
    TipNumber(cs, p, b4);
    SelfReached(cs.blocks, b4.links, p);
    ghost var first := cs.nextSequence;
    intact := CountReached(cs, p, b4);
    ghost var reached := Reached(cs.blocks, b4.links, p);
    OfferedAreCandidates(cs, p, b4, first, intact);
    forall b | intact && b in cs.Eligible()
      ensures if b in reached then b in cs.candidates else b in b4.eligible
    {
      if b !in reached {
        assert b in old(cs.Eligible());
      }
    }
  }

  method CountArrival(cs: Chainstate, p: BlockIndex, ghost b4: Before) returns (ghost intact: bool)
    requires Marked(cs, p, b4) && Open(p)
    modifies cs`order, cs`candidates, cs`waiting, cs`unlinked, cs`nextSequence
    modifies cs.blocks`chainTx, cs.blocks`sequenceId
    ensures Closed(cs.blocks) && cs.Sound() && (intact ==> cs.Valid() && Settled(cs)) && cs.chain.Tip() in cs.blocks
    ensures (intact <==> old(Calm(cs, p))) && Effect(cs, p, b4, old(cs.nextSequence), intact)
    ensures cs.chain.Tip() !in Reached(cs.blocks, b4.links, p) && cs.chain.Tip().sequenceId < old(cs.nextSequence)
    ensures forall c | c in cs.blocks && c !in Reached(cs.blocks, b4.links, p) ::
      c.chainTx == old(c.chainTx) && c.sequenceId == old(c.sequenceId)
    ensures old(SumsOk(cs.blocks)) ==> SumsOk(cs.blocks)
  {
    hide SkipsOk, Apart, IsPath, Drained, Chainstate.Sound, ValidBut, SumsOk, Reached, GraphOk, Waits, Ancestor, Linked;
    hide Closed;
    hide Less, WorkGrows, FailurePassesOn, Effect, FlagsOk, Numbered, Chainstate.Eligible, WasSettled, NoneLost;
    hide FlagsBut, Open, AllCounted, Counted, NoData, Chainstate.InOrder, Chainstate.Worse, Calm;
    ReachedFacts(cs, p, b4);
    TipNumber(cs, p, b4);
    InTree(cs.blocks, p);
    ghost var known, first := (set b | b in cs.blocks && b.nTx > 0), cs.nextSequence;
    FlagsKnown(cs.blocks, known);
    intact := CountOffered(cs, p, b4);
    if intact {
      SettledAfter(cs, p, b4, first, known);
    }
  }

  /** The book after an arrival that left the candidates in order. */
  lemma SettledAfter(cs: Chainstate, p: BlockIndex, b4: Before, first: int, known: set<BlockIndex>)
    requires cs.Sound() && p in cs.blocks && Closed(cs.blocks) && WasSettled(cs, b4) && cs.chain.Tip() in cs.blocks
    requires TipOk(cs) && cs.chain.Tip().sequenceId < first && first > SEQ_ID_INIT && Effect(cs, p, b4, first, true)
    requires FlagsBut(cs.blocks, known) && (forall b | b in cs.blocks :: b in known <==> b.nTx > 0)
    requires (forall b | b in cs.blocks && b.chainTx != 0 :: b in known) && WorkGrows(cs.blocks)
    requires FailurePassesOn(cs.blocks) && (p.pprev == null || p.pprev in b4.counted)
    requires forall c | c in cs.blocks && c !in Reached(cs.blocks, b4.links, p) :: c.sequenceId < first
    requires NoData(cs.blocks) == b4.noData - {p} && (forall b | b in b4.candidates :: b in b4.counted)
    requires Counted(cs.blocks) == b4.counted + Reached(cs.blocks, b4.links, p)
    requires forall b | b in cs.Eligible() ::
      if b in Reached(cs.blocks, b4.links, p) then b in cs.candidates else b in b4.eligible
    ensures cs.Valid() && Settled(cs)
  {
    hide SkipsOk, Apart, IsPath, Drained, Chainstate.Sound, ValidBut, Reached, GraphOk, Waits, Ancestor, Linked;
    hide Closed, Less, WorkGrows, FailurePassesOn, Effect, FlagsOk, Numbered, Chainstate.Eligible, WasSettled, NoneLost;
    hide FlagsBut, AllCounted, Counted, NoData, Chainstate.InOrder, Chainstate.Worse;
    FlagsAgain(cs.blocks, known);
    NumbersAgain(cs, p, b4, first, true);
    OfferedAreCandidates(cs, p, b4, first, true);
    OpenKeeps(cs, p, b4);
    OfferedAreCounted(cs, p, b4);
  }

  lemma OfferedAreCounted(cs: Chainstate, p: BlockIndex, b4: Before)
    requires Closed(cs.blocks) && Counted(cs.blocks) == b4.counted + Reached(cs.blocks, b4.links, p)
    requires cs.candidates == b4.candidates + (set c | c in Reached(cs.blocks, b4.links, p) && !cs.Worse(c))
    requires forall b | b in b4.candidates :: b in b4.counted
    ensures AllCounted(cs)
  {
    forall c | c in cs.candidates
      ensures c in Counted(cs.blocks)
    {
    }
  }

  /** An arrival in the open, and when it leaves no candidate worse than the tip. */
  method ArriveOpen(cs: Chainstate, p: BlockIndex, ghost b4: Before, ghost worse: set<BlockIndex>)
    returns (ghost intact: bool)
    requires Marked(cs, p, b4) && Open(p) && worse == WorseOnes(cs)
    modifies cs`order, cs`candidates, cs`waiting, cs`unlinked, cs`nextSequence
    modifies cs.blocks`chainTx, cs.blocks`sequenceId
    ensures Closed(cs.blocks) && cs.Sound() && (intact ==> cs.Valid() && Settled(cs)) && cs.chain.Tip() in cs.blocks
    ensures intact <==> old(Calm(cs, p))
    ensures
      var reached := Reached(cs.blocks, b4.links, p);
      var offered := set c | c in reached && !cs.Worse(c);
      && Drained(b4.links, cs.unlinked, reached)
      && b4.candidates <= cs.candidates <= b4.candidates + offered
      && (offered == {} ==> cs.order == b4.order)
      && (intact ==> cs.candidates == b4.candidates + offered)
      && (forall c | c in reached ::
        c.chainTx == c.nTx + TxBefore(c) && old(cs.nextSequence) <= c.sequenceId < cs.nextSequence)
      && (forall c | c in cs.blocks && c !in reached ::
        c.chainTx == old(c.chainTx) && c.sequenceId == old(c.sequenceId))
      && (NoneWorse(cs) <==> worse == {} && NoTie(cs.chain.Tip(), b4.candidates * reached))
    ensures old(SumsOk(cs.blocks)) ==> SumsOk(cs.blocks)
  {
    hide SkipsOk, Apart, IsPath, Drained, Chainstate.Sound, ValidBut, SumsOk, Reached, GraphOk, Waits, Ancestor, Linked;
    hide Closed;
    hide WorkGrows, FailurePassesOn, Effect, FlagsOk, Numbered, Chainstate.Eligible, WasSettled, NoneLost, NoTie;
    hide Booked, Calm, Chainstate.Sound, Chainstate.InOrder;
    ghost var first := cs.nextSequence;
    intact := CountArrival(cs, p, b4);
    OfferedAreCandidates(cs, p, b4, first, intact);
    NoneWorseIff(cs, p, b4, first, intact, worse);
  }

  /** With `p` marked before its ancestors are counted, record that it waits. */
  method LinkEarly(cs: Chainstate, p: BlockIndex, ghost b4: Before)
    requires Marked(cs, p, b4) && !Open(p) && p.chainTx == 0 && !p.failed
    modifies cs`waiting, cs`unlinked
    ensures cs.Valid() && Settled(cs) && cs.unlinked == b4.links + multiset{(p.pprev, p)}
    ensures WorseOnes(cs) == old(WorseOnes(cs))
  {
    hide SkipsOk, Apart, IsPath, GraphOk, Waits, Ancestor, Linked, Less, Chainstate.Eligible;
    hide ValidBut, Chainstate.Sound, Chainstate.InOrder, Counted, NoData, NoneLost, WasSettled, WorkGrows, AllCounted;
    InTree(cs.blocks, p);
    Lower(p);
    EarlyCounts(cs, p, b4);
    if !p.pprev.failed && p.pprev.validity >= VALID_TREE {
      cs.Record(p.pprev, p);
    }
    EarlyKeeps(cs, p, b4);
  }

  lemma EarlyCounts(cs: Chainstate, p: BlockIndex, b4: Before)
    requires Marked(cs, p, b4) && !Open(p) && p.chainTx == 0
    ensures p.pprev !in b4.counted && Counted(cs.blocks) == b4.counted && cs.Eligible() <= b4.eligible
    ensures cs.Valid() && AllCounted(cs)
  {
    hide SkipsOk, Apart, IsPath, Waits, Ancestor, LinksSound, LinksComplete, Less;
    InTree(cs.blocks, p);
    Lower(p);
    assert p.pprev !in b4.counted;
    assert p !in b4.counted;
  }

  method MarkSettled(cs: Chainstate, p: BlockIndex, count: nat) returns (ghost b4: Before)
    requires cs.Valid() && Settled(cs) && p in cs.blocks && !p.haveData && !p.failed && count > 0
    modifies p`nTx, p`chainTx, p`haveData, p`validity
    ensures b4 == old(Before(NoData(cs.blocks), Counted(cs.blocks), cs.Eligible(), cs.unlinked, cs.order,
                              cs.candidates))
    ensures Marked(cs, p, b4) && p.nTx == count && p.haveData && WorseOnes(cs) == old(WorseOnes(cs))
    ensures p.validity == if old(p.validity) < VALID_TRANSACTIONS then VALID_TRANSACTIONS else old(p.validity)
    ensures p.chainTx == if old(p.chainTx) == count + TxBefore(p) then old(p.chainTx) else 0
    ensures Closed(cs.blocks)
    ensures old(SumsOk(cs.blocks)) && (old(p.nTx) == 0 || old(p.nTx) == count) ==> SumsOk(cs.blocks)
  {
    hide SkipsOk, Apart, IsPath, GraphOk, Waits, Ancestor, Linked, Less, ValidBut, Chainstate.InOrder, Holds;
    b4 := Before(NoData(cs.blocks), Counted(cs.blocks), cs.Eligible(), cs.unlinked, cs.order, cs.candidates);
    MarkReceived(cs, p, count);
    assert NoData(cs.blocks) == b4.noData - {p};
    forall b | b in cs.Eligible() && b != p
      ensures b in b4.eligible
    {
    }
  }

  /**
    The data of a block has arrived. If its ancestors are counted, it is counted with all blocks that the
    recorded pairs lead up to, and these become candidates unless worse than the tip. Otherwise it is recorded.
    `intact`: the set of candidates was in order each time a number was given out. This is so exactly if the arrival
    is calm; if not, later searches of the set may go wrong. A candidate comes to be worse than the tip exactly if it
    is numbered anew and has the tip's work.
   */
  method ReceivedBlockTransactions(cs: Chainstate, p: BlockIndex, count: nat) returns (ghost intact: bool)
    requires cs.Valid() && Settled(cs) && p in cs.blocks && !p.haveData && !p.failed && count > 0
    modifies cs`order, cs`candidates, cs`waiting, cs`unlinked, cs`nextSequence
    modifies cs.blocks`chainTx, cs.blocks`sequenceId, cs.blocks`nTx, cs.blocks`haveData, cs.blocks`validity
    ensures cs.Sound() && (intact ==> cs.Valid() && Settled(cs)) && cs.chain.Tip() in cs.blocks
    ensures intact <==> old(Open(p) ==> Calm(cs, p))
    ensures p.haveData && p.nTx == count
    ensures p.validity == if old(p.validity) < VALID_TRANSACTIONS then VALID_TRANSACTIONS else old(p.validity)
    ensures forall b | b in cs.blocks && b != p ::
      b.nTx == old(b.nTx) && b.haveData == old(b.haveData) && b.validity == old(b.validity)
    ensures old(Open(p)) ==>
      var reached := Reached(cs.blocks, old(cs.unlinked), p);
      var offered := set c | c in reached && !cs.Worse(c);
      && Drained(old(cs.unlinked), cs.unlinked, reached)
      && old(cs.candidates) <= cs.candidates <= old(cs.candidates) + offered
      && (offered == {} ==> cs.order == old(cs.order))
      && (intact ==> cs.candidates == old(cs.candidates) + offered)
      && (forall c | c in reached ::
        c.chainTx == c.nTx + TxBefore(c) && old(cs.nextSequence) <= c.sequenceId < cs.nextSequence)
      && (forall c | c in cs.blocks && c !in reached ::
        c.chainTx == old(c.chainTx) && c.sequenceId == old(c.sequenceId))
      && (NoneWorse(cs) <==> old(NoneWorse(cs)) && NoTie(cs.chain.Tip(), old(cs.candidates) * reached))
    ensures !old(Open(p)) ==>
      && cs.unlinked == old(cs.unlinked) + multiset{(p.pprev, p)} && cs.candidates == old(cs.candidates)
      && (forall c | c in cs.blocks :: c.chainTx == old(c.chainTx) && c.sequenceId == old(c.sequenceId))
      && (NoneWorse(cs) <==> old(NoneWorse(cs)))
    ensures old(SumsOk(cs.blocks)) && (old(p.nTx) == 0 || old(p.nTx) == count) ==> SumsOk(cs.blocks)
  {
    hide SkipsOk, Apart, IsPath, GraphOk, Waits, Ancestor, Linked, Less, Chainstate.Eligible, Reached;
    hide Drained, SumsOk, Chainstate.Sound, Chainstate.InOrder, Calm;
    hide Closed, Booked, FailurePassesOn, Numbered, FlagsOk, NoneLost, ValidBut, Marked, NoTie, NoData, Counted;
    hide NoneWorse, WorseOnes, TipOk, AllCounted;
    NoWorseOnes(cs);
    BeforeArrival(cs, p);
    ghost var worse := WorseOnes(cs);
    ghost var b4 := MarkSettled(cs, p, count);
    intact := true;
    if Open(p) {
      intact := ArriveOpen(cs, p, b4, worse);
    } else {
      LinkEarly(cs, p, b4);
      NoWorseOnes(cs);
    }
  }

  lemma BeforeArrival(cs: Chainstate, p: BlockIndex)
    requires cs.Valid() && Settled(cs) && p in cs.blocks && !p.haveData
    ensures Closed(cs.blocks) && p != cs.chain.Tip() && cs.chain.Tip() in cs.blocks
    ensures cs.chain.Tip().sequenceId < cs.nextSequence
    ensures p.pprev != p && p in Reached(cs.blocks, cs.unlinked, p)
    ensures p.nTx == 0 ==> p.chainTx == 0
    ensures !Open(p) ==> p.chainTx == 0
    ensures forall c | c in cs.candidates :: cs.Worse(c) || c.chainWork >= cs.chain.Tip().chainWork
    ensures forall c | c in cs.candidates :: c.chainWork > cs.chain.Tip().chainWork ==> !cs.Worse(c)
  {
    Lower(p);
    SelfReached(cs.blocks, cs.unlinked, p);
  }
}
