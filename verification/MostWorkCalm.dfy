/** Which arrivals leave the candidates in order: all of them, as long as no data was given up. */
module MostWorkCalm {
  import opened Chain
  import opened MostWorkOrder
  import opened MostWork
  import opened MostWorkLinks
  import opened MostWorkQueue
  import opened MostWorkState
  import opened MostWorkTurns
  import opened MostWorkArrival

  ghost predicate Distinct(s: seq<BlockIndex>) {
    forall i, j | 0 <= i < j < |s| :: s[i] != s[j]
  }

  lemma DistinctTurns(turns: seq<BlockIndex>, stored: set<BlockIndex>)
    requires Distinct(turns)
    ensures NoneFallsBehind(turns, stored)
  {
  }

  lemma OnceIsDistinct(s: seq<BlockIndex>)
    requires forall c | c in s :: multiset(s)[c] <= 1
    ensures Distinct(s)
  {
    forall i, j | 0 <= i < j < |s|
      ensures s[i] != s[j]
    {
      assert s == s[..j] + [s[j]] + s[j + 1..];
      assert s[i] in s[..j] && s[j] in s;
    }
  }

  lemma DistinctParts(a: seq<BlockIndex>, b: seq<BlockIndex>)
    requires Distinct(a) && Distinct(b) && forall x | x in a :: x !in b
    ensures Distinct(a + b)
  {
    forall i, j | 0 <= i < j < |a + b|
      ensures (a + b)[i] != (a + b)[j]
    {
      if i < |a| && j >= |a| {
        assert a[i] in a;
      }
    }
  }

  /** What comes off the queue comes once, and is not counted yet. */
  lemma ComesOnce(cs: Chainstate, p: BlockIndex, c: BlockIndex)
    requires cs.Valid() && Settled(cs) && Unpruned(cs) && p in cs.blocks && !p.haveData
    requires c in Schedule(cs.waiting, [p])
    ensures multiset(Schedule(cs.waiting, [p]))[c] <= 1 && c.chainTx == 0
  {
    hide SkipsOk, Apart, IsPath, Ancestor, Schedule, Waits, LinksComplete, CountsOk, NoneLost, Chainstate.InOrder;
    var v, noData := cs.chain.vChain, NoData(cs.blocks);
    forall x | x in cs.unlinked
      ensures x.1.pprev == x.0 && x.1 != p && x.1.chainTx == 0 && cs.unlinked[x] == 1
    {
      assert LinkOk(v, cs.blocks, noData, cs.unlinked, x);
    }
    ComesAtMost(cs.waiting, [p], c);
    TimesIs(cs.waiting, c);
    if c.pprev != null && (c.pprev, c) in cs.unlinked {
      assert c != p;
    }
  }

  lemma {:induction false} OrderDistinct(cs: Chainstate)
    requires cs.Valid()
    ensures Distinct(Reversed(cs.order))
  {
    hide SkipsOk, Apart, IsPath, Ancestor;
    var back := Reversed(cs.order);
    forall i, j | 0 <= i < j < |back|
      ensures back[i] != back[j]
    {
      assert Less(cs.order[|back| - 1 - j], cs.order[|back| - 1 - i]);
    }
  }

  lemma UnprunedCalm(cs: Chainstate, p: BlockIndex)
    requires cs.Valid() && Settled(cs) && Unpruned(cs) && p in cs.blocks && !p.haveData
    ensures Calm(cs, p)
  {
    hide SkipsOk, Apart, IsPath, Ancestor, Schedule, GraphOk, NoneLost, Unpruned, Distinct, Chainstate.InOrder;
    var turns, back := Schedule(cs.waiting, [p]), Reversed(cs.order);
    forall c | c in turns
      ensures multiset(turns)[c] <= 1 && c.chainTx == 0
    {
      ComesOnce(cs, p, c);
    }
    OnceIsDistinct(turns);
    OrderDistinct(cs);
    forall x | x in back
      ensures x !in turns
    {
      var i :| 0 <= i < |back| && back[i] == x;
      assert x in cs.order && x in cs.candidates;
    }
    DistinctParts(back, turns);
    DistinctTurns(back + turns, Stored(cs.blocks, cs.order, cs.chain.Tip()));
  }

  // ---- An arrival gives up no data ----

  lemma OpenUnpruned(cs: Chainstate, p: BlockIndex, noData: set<BlockIndex>, counted: set<BlockIndex>, links: Links)
    requires Closed(cs.blocks) && GraphOk(cs.chain.vChain, cs.blocks, noData, counted, links) && p in noData
    requires (forall b | b in cs.blocks && (b in counted || b.pprev == null) :: b !in noData)
    requires forall x | x in links :: links[x] == 1 && x.1 in cs.blocks && x.1 !in counted
    requires Drained(links, cs.unlinked, Reached(cs.blocks, links, p))
    requires forall b | b in cs.blocks && b !in Reached(cs.blocks, links, p) :: b.chainTx != 0 <==> b in counted
    requires forall b | b in cs.blocks :: b.haveData <==> b !in noData || b == p
    ensures Unpruned(cs)
  {
    hide Reached, Waits, Chained;
    var reached := Reached(cs.blocks, links, p);
    forall b | b in cs.blocks && (b.chainTx != 0 || b.pprev == null)
      ensures b.haveData
    {
      if b in reached && b != p {
        ReachedWaits(cs.chain.vChain, cs.blocks, noData, counted, links, p, b);
      }
    }
    forall x | x in cs.unlinked
      ensures cs.unlinked[x] == 1 && x.1 in cs.blocks && x.1.chainTx == 0
    {
      assert cs.unlinked[x] <= links[x];
      assert x in links && LinkOk(cs.chain.vChain, cs.blocks, noData, links, x);
      ReachedUp(cs.blocks, links, p, x.1);
    }
  }

  /** A block without data is not a recorded child. */
  lemma NotRecorded(v: seq<BlockIndex?>, blocks: set<BlockIndex>, noData: set<BlockIndex>, links: Links, p: BlockIndex)
    requires Closed(blocks) && LinksSound(v, blocks, noData, links) && p in noData
    ensures forall x | x in links :: x.1 != p
  {
    hide Waits;
    forall x | x in links
      ensures x.1 != p
    {
      assert LinkOk(v, blocks, noData, links, x);
    }
  }

  lemma EarlyUnpruned(cs: Chainstate, p: BlockIndex, noData: set<BlockIndex>, counted: set<BlockIndex>, links: Links)
    requires Closed(cs.blocks) && GraphOk(cs.chain.vChain, cs.blocks, noData, counted, links) && p in noData
    requires p.pprev != null && cs.unlinked == links + multiset{(p.pprev, p)}
    requires (forall b | b in cs.blocks && (b in counted || b.pprev == null) :: b !in noData)
    requires forall x | x in links :: links[x] == 1 && x.1 in cs.blocks && x.1 !in counted
    requires forall b | b in cs.blocks :: b.chainTx != 0 <==> b in counted
    requires forall b | b in cs.blocks :: b.haveData <==> b !in noData || b == p
    ensures Unpruned(cs)
  {
    hide Waits, Chained;
    NotRecorded(cs.chain.vChain, cs.blocks, noData, links, p);
    forall x | x in cs.unlinked
      ensures cs.unlinked[x] == 1 && x.1 in cs.blocks && x.1.chainTx == 0
    {
      if x in links {
        assert LinkOk(cs.chain.vChain, cs.blocks, noData, links, x);
      }
    }
  }

  lemma UnprunedBook(cs: Chainstate)
    requires cs.Valid() && Settled(cs) && Unpruned(cs)
    ensures
      var noData, counted := NoData(cs.blocks), Counted(cs.blocks);
      && Closed(cs.blocks) && GraphOk(cs.chain.vChain, cs.blocks, noData, counted, cs.unlinked)
      && (forall b | b in cs.blocks && (b in counted || b.pprev == null) :: b !in noData)
      && forall x | x in cs.unlinked :: cs.unlinked[x] == 1 && x.1 in cs.blocks && x.1 !in counted
  {
    hide GraphOk;
  }

  /** The data of a block arrives; where none was given up before, the set stays in order. */
  method Receive(cs: Chainstate, p: BlockIndex, count: nat) returns (ghost intact: bool)
    requires cs.Valid() && Settled(cs) && NoneWorse(cs) && p in cs.blocks && !p.haveData && !p.failed && count > 0
    modifies cs`order, cs`candidates, cs`waiting, cs`unlinked, cs`nextSequence
    modifies cs.blocks`chainTx, cs.blocks`sequenceId, cs.blocks`nTx, cs.blocks`haveData, cs.blocks`validity
    ensures intact <==> old(Open(p) ==> Calm(cs, p))
    ensures intact ==> cs.Valid() && Settled(cs) && NoneWorse(cs)
    ensures old(Unpruned(cs)) ==> intact && Unpruned(cs)
    ensures cs.Sound() && p.haveData && p.nTx == count && p.validity >= VALID_TRANSACTIONS
    ensures forall b | b in cs.blocks && b != p ::
      b.nTx == old(b.nTx) && b.haveData == old(b.haveData) && b.validity == old(b.validity)
    ensures old(Open(p)) ==>
      var reached := Reached(cs.blocks, old(cs.unlinked), p);
      var offered := set c | c in reached && !cs.Worse(c);
      && old(cs.candidates) <= cs.candidates <= old(cs.candidates) + offered
      && (offered == {} ==> cs.order == old(cs.order))
      && (forall c | c in reached ::
        c.chainTx == c.nTx + TxBefore(c) && old(cs.nextSequence) <= c.sequenceId < cs.nextSequence)
      && (forall c | c in cs.blocks && c !in reached ::
        c.chainTx == old(c.chainTx) && c.sequenceId == old(c.sequenceId))
  {
    hide Settled, Chainstate.Valid, NoneWorse, Unpruned, Calm, Reached, Drained, SumsOk, NoTie, GraphOk;
    ghost var noData, counted, links := NoData(cs.blocks), Counted(cs.blocks), cs.unlinked;
    if Unpruned(cs) {
      UnprunedCalm(cs, p);
      UnprunedBook(cs);
    }
    CalmMeansNoTie(cs, p);
    intact := ReceivedBlockTransactions(cs, p, count);
    if old(Unpruned(cs)) {
      if old(Open(p)) {
        OpenUnpruned(cs, p, noData, counted, links);
      } else {
        EarlyUnpruned(cs, p, noData, counted, links);
      }
    }
  }

  /** In a calm arrival no candidate with the tip's work is numbered anew. */
  lemma CalmMeansNoTie(cs: Chainstate, p: BlockIndex)
    requires cs.Valid() && Settled(cs) && NoneWorse(cs) && p in cs.blocks && !p.haveData
    ensures Closed(cs.blocks) && cs.chain.Tip() in cs.blocks
    ensures Calm(cs, p) ==> NoTie(cs.chain.Tip(), cs.candidates * Reached(cs.blocks, cs.unlinked, p))
  {
    hide SkipsOk, Apart, IsPath, Ancestor, Schedule, GraphOk, NoneLost, Calm, Less, NoneWorse;
    var tip := cs.chain.Tip();
    forall c | Calm(cs, p) && c in cs.candidates && c in Reached(cs.blocks, cs.unlinked, p)
      ensures c.chainWork != tip.chainWork
    {
      if c.chainWork == tip.chainWork {
        TipNotReached(cs, p, c);
        TiedFallsBehind(cs, p, c);
      }
    }
  }

  lemma TipNotReached(cs: Chainstate, p: BlockIndex, c: BlockIndex)
    requires cs.Valid() && Settled(cs) && p in cs.blocks && !p.haveData && c in Reached(cs.blocks, cs.unlinked, p)
    ensures c != cs.chain.Tip() && Linked(c) && c in Schedule(cs.waiting, [p])
  {
    hide SkipsOk, Apart, IsPath, Ancestor, Schedule, GraphOk, NoneLost, Less, NoneWorse;
    ReachedComes(cs.waiting, [p], p, c);
    if c != p {
      ReachedWaits(cs.chain.vChain, cs.blocks, NoData(cs.blocks), Counted(cs.blocks), cs.unlinked, p, c);
      OnTip(cs);
    }
  }

  /** A candidate with the tip's work had its turn before the tip, and has another one now. */
  lemma TiedFallsBehind(cs: Chainstate, p: BlockIndex, c: BlockIndex)
    requires cs.Valid() && Settled(cs) && NoneWorse(cs) && c in cs.candidates && c != cs.chain.Tip()
    requires c.chainWork == cs.chain.Tip().chainWork && c in Schedule(cs.waiting, [p])
    ensures !Calm(cs, p)
  {
    hide SkipsOk, Apart, IsPath, Ancestor, Schedule, GraphOk, NoneLost, Less;
    var tip, back, turns := cs.chain.Tip(), Reversed(cs.order), Schedule(cs.waiting, [p]);
    TipIsCandidate(cs);
    var i, j :| 0 <= i < |cs.order| && cs.order[i] == tip && 0 <= j < |cs.order| && cs.order[j] == c;
    var k :| 0 <= k < |turns| && turns[k] == c;
    assert !Less(c, tip);
    assert i < j;
    var all := back + turns;
    var n := |back|;
    assert all[n - 1 - j] == c && all[n - 1 - i] == tip && all[n + k] == c;
  }
}
