/** The address manager's operations on pending collisions, and the random sample of addresses. */
module AddrManOps {
  import opened Wrappers
  import opened AddrManModel
  import opened AddrManCore

  /** Drop a pending collision. */
  lemma CollisionsErase(env: Env, key: nat, infos: Infos, tried: Table, collisions: set<Id>, idCount: nat, id: Id)
    requires CollisionsOk(env, key, infos, tried, collisions, idCount) && id in collisions
    ensures CollisionsOk(env, key, infos, tried, collisions - {id}, idCount)
  {
    assert |collisions - {id}| == |collisions| - 1;
  }

  datatype Verdict = Keep | Forget | Replace

  /**
    What is to be done about a pending collision: forget it if the entry is gone or the occupant of its tried slot
    connected lately; replace an occupant that failed lately, or that could not be tested for too long; else wait.
   */
  ghost function VerdictOn(st: State, id: Id, now: Seconds): Verdict {
    if id !in st.infos || !st.env.valid(st.infos[id].addr) then Forget
    else
      var t := st.env.TriedSlot(st.key, st.infos[id].addr);
      if t !in st.tried || st.tried[t] !in st.infos then Replace
      else
        var incumbent := st.infos[st.tried[t]];
        if now - incumbent.lastSuccess < REPLACEMENT then Forget
        else if now - incumbent.lastTry < REPLACEMENT then (if now - incumbent.lastTry > 60 then Replace else Keep)
        else if now - st.infos[id].lastSuccess > TEST_WINDOW then Replace
        else Keep
  }

  /** The effect of a verdict; an entry that is in the tried table by now is left there. */
  ghost predicate Resolved(st: State, st': State, id: Id, now: Seconds) {
    if VerdictOn(st, id, now) == Replace then
      && id in st.infos
      && if st.infos[id].inTried then st'.NewView() == st.NewView() && st'.TriedView() == st.TriedView()
         else MadeTried(st, st', id)
    else st' == st
  }

  /** Decide one pending collision; true when it is settled. */
  method ResolveOne(am: AddrMan, id: Id, now: Seconds) returns (settled: bool)
    requires am.Valid() && now > 0 && id in am.triedCollisions
    modifies am
    ensures am.Valid() && am.triedCollisions == old(am.triedCollisions) && Later(old(am.Snap()), am.Snap())
    ensures settled <==> VerdictOn(old(am.Snap()), id, now) != Keep
    ensures Resolved(old(am.Snap()), am.Snap(), id, now)
  {
    hide Ok, Services, Kept, Named, MadeTried, CollisionsOk, Later;
    LaterSelf(am.Snap());
    if id !in am.mapInfo {
      return true;
    }
    EntryFacts(am.Snap(), {}, {}, id);
    var info := am.mapInfo[id];
    var t := am.env.TriedSlot(am.key, info.addr);
    if !am.env.valid(info.addr) {
      settled := true;
    } else if t in am.vvTried {
      TriedEntry(am.Snap(), {}, {}, t);
      var incumbent := am.mapInfo[am.vvTried[t]];
      settled := false;
      if now - incumbent.lastSuccess < REPLACEMENT {
        settled := true;
      } else if now - incumbent.lastTry < REPLACEMENT {
        if now - incumbent.lastTry > 60 {
          var _ := am.Good(info.addr, false, now);
          settled := true;
        }
      } else if now - info.lastSuccess > TEST_WINDOW {
        var _ := am.Good(info.addr, false, now);
        settled := true;
      }
    } else {
      var _ := am.Good(info.addr, false, now);
      settled := true;
    }
  }

  /** A listing of the ids of a set, each once. */
  ghost predicate Lists(order: seq<Id>, ids: set<Id>) {
    && (forall i | 0 <= i < |order| :: order[i] in ids)
    && (forall i, j | 0 <= i < j < |order| :: order[i] != order[j])
    && (forall id | id in ids :: id in order)
  }

  /** Go through the pending collisions, each once, and keep just those that are to wait. */
  method ResolveCollisions(am: AddrMan, now: Seconds) returns (ghost order: seq<Id>, ghost trace: seq<State>)
    requires am.Valid() && now > 0
    modifies am
    ensures am.Valid() && Later(old(am.Snap()), am.Snap()) && Lists(order, old(am.triedCollisions))
    ensures |trace| == |order| + 1 && trace[0] == old(am.Snap()) && trace[|order|] == am.Snap()
    ensures forall i | 0 <= i < |order| :: Resolved(trace[i], trace[i + 1], order[i], now)
    ensures am.triedCollisions <= old(am.triedCollisions)
    ensures forall i | 0 <= i < |order| ::
      order[i] in am.triedCollisions <==> VerdictOn(trace[i], order[i], now) == Keep
  {
    hide Ok, Services, CollisionsOk, Later, Resolved, VerdictOn;
    LaterSelf(am.Snap());
    var todo := am.triedCollisions;
    order, trace := [], [am.Snap()];
    while todo != {}
      invariant am.Valid() && todo <= am.triedCollisions <= old(am.triedCollisions)
      invariant Later(old(am.Snap()), am.Snap()) && Lists(order, old(am.triedCollisions) - todo)
      invariant |trace| == |order| + 1 && trace[0] == old(am.Snap()) && trace[|order|] == am.Snap()
      invariant forall i | 0 <= i < |order| :: Resolved(trace[i], trace[i + 1], order[i], now)
      invariant forall i | 0 <= i < |order| ::
        order[i] in am.triedCollisions <==> VerdictOn(trace[i], order[i], now) == Keep
      decreases todo
    {
      var id :| id in todo;
      ghost var before := am.Snap();
      var settled := ResolveOne(am, id, now);
      LaterTrans(old(am.Snap()), before, am.Snap());
      if settled {
        CollisionsErase(am.env, am.key, am.mapInfo, am.vvTried, am.triedCollisions, am.nIdCount, id);
        am.triedCollisions := am.triedCollisions - {id};
      }
      ListNext(order, old(am.triedCollisions), todo, id);
      ghost var longer := trace + [am.Snap()];
      assert forall k | 0 <= k <= |order| :: longer[k] == trace[k];
      order, trace := order + [id], longer;
      todo := todo - {id};
    }
    assert old(am.triedCollisions) - todo == old(am.triedCollisions);
  }

  lemma ListNext(order: seq<Id>, ids: set<Id>, todo: set<Id>, id: Id)
    requires Lists(order, ids - todo) && id in todo && todo <= ids
    ensures Lists(order + [id], ids - (todo - {id}))
  {
    assert (order + [id])[|order|] == id;
  }

  /**
    The occupant of the tried slot that some pending address wants. The slot is never empty, so the
    lookup always finds an entry. A pending id whose entry is gone is dropped instead.
   */
  method SelectTriedCollision(am: AddrMan) returns (r: Option<(Service, Seconds)>)
    requires am.Valid()
    modifies am`triedCollisions
    ensures am.Valid()
    ensures r.Some? ==>
      am.triedCollisions == old(am.triedCollisions) && exists id | id in am.triedCollisions && id in am.mapInfo ::
      Incumbent(am.Snap(), id) == r
    ensures r.None? ==>
      old(am.triedCollisions) == {} || exists id | id in old(am.triedCollisions) && id !in am.mapInfo ::
      am.triedCollisions == old(am.triedCollisions) - {id}
  {
    hide Ok, Services;
    if am.triedCollisions == {} {
      return None;
    }
    var id :| id in am.triedCollisions;
    if id !in am.mapInfo {
      CollisionsErase(am.env, am.key, am.mapInfo, am.vvTried, am.triedCollisions, am.nIdCount, id);
      am.triedCollisions := am.triedCollisions - {id};
      return None;
    }
    var t := am.env.TriedSlot(am.key, am.mapInfo[id].addr);
    assert t in am.vvTried;
    TriedEntry(am.Snap(), {}, {}, t);
    var incumbent := am.mapInfo[am.vvTried[t]];
    r := Some((incumbent.addr, incumbent.lastTry));
    assert Incumbent(am.Snap(), id) == r;
  }

  /** Address and last attempt of the entry in the tried slot that `id` belongs to. */
  ghost function Incumbent(st: State, id: Id): Option<(Service, Seconds)>
    requires id in st.infos
  {
    var t := st.env.TriedSlot(st.key, st.infos[id].addr);
    if t in st.tried && st.tried[t] in st.infos then Some((st.infos[st.tried[t]].addr, st.infos[st.tried[t]].lastTry))
    else None
  }

  // ---- A random sample ----

  ghost predicate Wanted(netClass: Service -> Network, info: AddrInfo, network: Option<Network>, filtered: bool,
                         now: Seconds) {
    (network.None? || netClass(info.addr) == network.value) && !(filtered && info.IsTerrible(now))
  }

  /** Same entries up to their place in vRandom. */
  ghost predicate Reordered(infos: Infos, infos': Infos) {
    && (forall id :: id in infos <==> id in infos')
    && (forall id | id in infos :: infos'[id].(randomPos := 0) == infos[id].(randomPos := 0))
  }

  ghost predicate Distinct<T>(s: seq<T>) {
    forall i, j | 0 <= i < j < |s| :: s[i] != s[j]
  }

  /** The ids picked are among the first `n`, distinct, wanted, and none of those wanted is missing. */
  ghost predicate Sampled(netClass: Service -> Network, infos: Infos, random: seq<Id>, n: nat, ids: seq<Id>,
                          network: Option<Network>, filtered: bool, now: Seconds)
  {
    && n <= |random| && Distinct(ids)
    && (forall k | 0 <= k < |ids| ::
      ids[k] in random[..n] && ids[k] in infos && Wanted(netClass, infos[ids[k]], network, filtered, now))
    && (forall i | 0 <= i < n ::
      random[i] in infos && (Wanted(netClass, infos[random[i]], network, filtered, now) ==> random[i] in ids))
  }

  lemma RandomDistinct(st: State, limbo: set<Id>, zero: set<Id>, i: nat, j: nat)
    requires Ok(st, limbo, zero) && i <= j < |st.random|
    ensures st.random[i] in st.infos && st.random[j] in st.infos && st.random[j] !in st.random[..i]
  {
    hide TriedOk, NewOk, CountsOk, EntriesOk;
    assert st.infos[st.random[i]].randomPos == i && st.infos[st.random[j]].randomPos == j;
  }

  lemma MoveReorders(infos0: Infos, infos: Infos, id: Id, pos: int)
    requires Reordered(infos0, infos) && id in infos
    ensures Reordered(infos0, infos[id := infos[id].(randomPos := pos)])
  {
  }

  lemma SwapReorders(st: State, infos0: Infos, i: nat, j: nat)
    requires i <= j < |st.random| && st.random[i] in st.infos && st.random[j] in st.infos
    requires Reordered(infos0, st.infos)
    ensures Reordered(infos0, SwappedAt(st, i, j).infos)
    ensures SwappedAt(st, i, j).random[..i] == st.random[..i] && SwappedAt(st, i, j).random[i] == st.random[j]
  {
    hide Reordered;
    if i != j {
      var moved := st.infos[st.random[i] := st.infos[st.random[i]].(randomPos := j)];
      MoveReorders(infos0, st.infos, st.random[i], j);
      MoveReorders(infos0, moved, st.random[j], i);
      assert st.random[i] != st.random[j] ==> moved[st.random[j]] == st.infos[st.random[j]];
    }
  }

  lemma SampleNext(netClass: Service -> Network, infos: Infos, random: seq<Id>, n: nat, ids: seq<Id>, ids': seq<Id>,
                   network: Option<Network>, filtered: bool, now: Seconds)
    requires Sampled(netClass, infos, random, n, ids, network, filtered, now)
    requires n < |random| && random[n] in infos && random[n] !in random[..n]
    requires ids' == if Wanted(netClass, infos[random[n]], network, filtered, now) then ids + [random[n]] else ids
    ensures Sampled(netClass, infos, random, n + 1, ids', network, filtered, now)
  {
    assert random[..n + 1] == random[..n] + [random[n]];
  }

  lemma SampleReordered(netClass: Service -> Network, infos: Infos, random: seq<Id>, random': seq<Id>, n: nat,
                        ids: seq<Id>,
                        network: Option<Network>, filtered: bool, now: Seconds)
    requires Sampled(netClass, infos, random, n, ids, network, filtered, now)
    requires n <= |random'| && random'[..n] == random[..n]
    ensures Sampled(netClass, infos, random', n, ids, network, filtered, now)
  {
    forall i | 0 <= i < n
      ensures random'[i] == random[i]
    {
      assert random'[..n][i] == random[..n][i];
    }
  }

  lemma WantedReordered(netClass: Service -> Network, info: AddrInfo, info': AddrInfo, network: Option<Network>,
                        filtered: bool, now: Seconds)
    requires info'.(randomPos := 0) == info.(randomPos := 0)
    ensures Wanted(netClass, info', network, filtered, now) == Wanted(netClass, info, network, filtered, now)
  {
    assert info'.time == info.(randomPos := 0).time && info'.addr == info.(randomPos := 0).addr
      && info'.lastTry == info.(randomPos := 0).lastTry && info'.lastSuccess == info.(randomPos := 0).lastSuccess
      && info'.attempts == info.(randomPos := 0).attempts;
  }

  /** How many addresses to return at most. */
  function SampleLimit(size: nat, maxAddresses: nat, maxPct: nat): nat {
    var n := if maxPct != 0 then (if maxPct < 100 then maxPct else 100) * size / 100 else size;
    if maxAddresses != 0 && maxAddresses < n then maxAddresses else n
  }

  /** One draw: bring a random remaining id to place `n`. */
  method Draw(am: AddrMan, n: nat, draw: nat, ghost infos0: Infos) returns (info: AddrInfo)
    requires am.Valid() && n < |am.vRandom| && Reordered(infos0, am.mapInfo)
    modifies am`mapInfo, am`vRandom
    ensures am.Valid() && |am.vRandom| == old(|am.vRandom|) && Reordered(infos0, am.mapInfo)
    ensures am.vRandom[..n] == old(am.vRandom)[..n] && am.vRandom[n] in infos0 && am.vRandom[n] !in am.vRandom[..n]
    ensures info.(randomPos := 0) == infos0[am.vRandom[n]].(randomPos := 0)
    ensures am.Snap().NewView() == old(am.Snap().NewView()) && am.Snap().TriedView() == old(am.Snap().TriedView())
  {
    hide Ok, Services, CollisionsOk, Named;
    var pos := draw % (|am.vRandom| - n) + n;
    RandomDistinct(am.Snap(), {}, {}, n, pos);
    SwapReorders(am.Snap(), infos0, n, pos);
    InReordered(infos0, am.mapInfo, am.vRandom[pos]);
    ghost var before := am.mapInfo;
    am.SwapRandom(n, pos, {}, {});
    SwapNamed(before, am.mapInfo, infos0);
    CollisionsNamed(am.env, am.key, before, am.mapInfo, am.vvTried, am.vvTried, am.triedCollisions, am.nIdCount);
    InReordered(infos0, am.mapInfo, am.vRandom[n]);
    info := am.mapInfo[am.vRandom[n]];
  }

  lemma InReordered(infos0: Infos, infos: Infos, id: Id)
    requires Reordered(infos0, infos)
    ensures id in infos0 <==> id in infos
  {
  }

  lemma SwapNamed(infos: Infos, infos': Infos, infos0: Infos)
    requires Reordered(infos0, infos) && Reordered(infos0, infos')
    ensures Named(infos, infos')
  {
    forall j | j in infos'
      ensures infos'[j].addr == infos[j].addr
    {
      assert infos'[j].(randomPos := 0).addr == infos[j].(randomPos := 0).addr;
    }
  }

  /**
    A random sample without repetition: at most the limit, only wanted entries, and, when fewer than
    the limit come back, every wanted entry there is.
   */
  method GetAddr(am: AddrMan, netClass: Service -> Network, maxAddresses: nat, maxPct: nat, network: Option<Network>,
                 filtered: bool,
                 now: Seconds, draws: nat -> nat)
    returns (addresses: seq<Service>, ghost ids: seq<Id>)
    requires am.Valid()
    modifies am`mapInfo, am`vRandom
    ensures am.Valid() && Later(old(am.Snap()), am.Snap())
    ensures am.Snap().NewView() == old(am.Snap().NewView()) && am.Snap().TriedView() == old(am.Snap().TriedView())
    ensures |addresses| == |ids| <= SampleLimit(|old(am.vRandom)|, maxAddresses, maxPct) && Distinct(ids)
    ensures forall k | 0 <= k < |ids| ::
      && ids[k] in old(am.mapInfo) && addresses[k] == old(am.mapInfo)[ids[k]].addr
      && Wanted(netClass, old(am.mapInfo)[ids[k]], network, filtered, now)
    ensures |addresses| < SampleLimit(|old(am.vRandom)|, maxAddresses, maxPct) ==>
      forall id | id in old(am.mapInfo) && Wanted(netClass, old(am.mapInfo)[id], network, filtered, now) :: id in ids
  {
    hide Ok, Services, Reordered, Sampled, Wanted, CollisionsOk;
    ghost var infos0, size := am.mapInfo, |am.vRandom|;
    var limit := SampleLimit(|am.vRandom|, maxAddresses, maxPct);
    addresses, ids := [], [];
    SampleBegins(netClass, infos0, am.vRandom, network, filtered, now);
    var n := 0;
    while n < |am.vRandom| && |addresses| < limit
      invariant am.Valid() && |am.vRandom| == size && n <= size && Reordered(infos0, am.mapInfo)
      invariant am.Snap().NewView() == old(am.Snap().NewView()) && am.Snap().TriedView() == old(am.Snap().TriedView())
      invariant Sampled(netClass, infos0, am.vRandom, n, ids, network, filtered, now)
      invariant |addresses| == |ids| <= limit
      invariant forall k | 0 <= k < |ids| :: ids[k] in infos0 && addresses[k] == infos0[ids[k]].addr
      decreases size - n
    {
      ghost var random := am.vRandom;
      var info := Draw(am, n, draws(n), infos0);
      SampleReordered(netClass, infos0, random, am.vRandom, n, ids, network, filtered, now);
      WantedReordered(netClass, infos0[am.vRandom[n]], info, network, filtered, now);
      var wanted := (network.None? || netClass(info.addr) == network.value) && !(info.IsTerrible(now) && filtered);
      WantedIs(netClass, info, network, filtered, now, wanted);
      assert info.addr == info.(randomPos := 0).addr;
      ghost var ids0 := ids;
      if wanted {
        addresses := addresses + [info.addr];
        ids := ids + [am.vRandom[n]];
      }
      SampleNext(netClass, infos0, am.vRandom, n, ids0, ids, network, filtered, now);
      n := n + 1;
    }
    SampleEnds(am.Snap(), netClass, infos0, n, ids, network, filtered, now);
    LaterReordered(old(am.Snap()), am.Snap());
  }

  lemma LaterReordered(st: State, st': State)
    requires st'.env == st.env && st'.key == st.key && st'.idCount == st.idCount && st'.tried == st.tried
    requires Reordered(st.infos, st'.infos)
    ensures Later(st, st')
  {
    forall id | id in st'.infos
      ensures id in st.infos && st'.infos[id].addr == st.infos[id].addr
    {
      assert st'.infos[id].(randomPos := 0).addr == st.infos[id].(randomPos := 0).addr;
    }
  }

  lemma WantedIs(netClass: Service -> Network, info: AddrInfo, network: Option<Network>, filtered: bool, now: Seconds,
                 wanted: bool)
    requires wanted == ((network.None? || netClass(info.addr) == network.value) && !(info.IsTerrible(now) && filtered))
    ensures wanted == Wanted(netClass, info, network, filtered, now)
  {
  }

  lemma SampleBegins(netClass: Service -> Network, infos: Infos, random: seq<Id>, network: Option<Network>,
                     filtered: bool, now: Seconds)
    ensures Sampled(netClass, infos, random, 0, [], network, filtered, now) && Reordered(infos, infos)
  {
  }

  lemma SampleEnds(st: State, netClass: Service -> Network, infos: Infos, n: nat, ids: seq<Id>,
                   network: Option<Network>, filtered: bool, now: Seconds)
    requires Ok(st, {}, {}) && Reordered(infos, st.infos)
    requires Sampled(netClass, infos, st.random, n, ids, network, filtered, now)
    ensures Distinct(ids)
    ensures forall k | 0 <= k < |ids| :: ids[k] in infos && Wanted(netClass, infos[ids[k]], network, filtered, now)
    ensures n == |st.random| ==>
      forall id | id in infos && Wanted(netClass, infos[id], network, filtered, now) :: id in ids
  {
    hide TriedOk, NewOk, CountsOk, EntriesOk, Wanted;
    if n == |st.random| {
      forall id | id in infos && Wanted(netClass, infos[id], network, filtered, now)
        ensures id in ids
      {
        assert id in st.infos && st.random[st.infos[id].randomPos] == id;
      }
    }
  }
}
