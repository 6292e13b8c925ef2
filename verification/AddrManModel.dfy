/**
  The address manager's data: entries, the two bucketed tables, and the predicates that
  make up its consistency. A slot holding -1 in the source is a slot absent from the map.
 */
module AddrManModel {
  import opened Wrappers

  /** An address with its port, as GetKey identifies it. */
  type Service = nat
  type NetAddr = nat
  type Network = nat
  type Id = nat
  type Seconds = int

  const TRIED_BUCKET_COUNT: nat := 256
  const NEW_BUCKET_COUNT: nat := 1024
  const BUCKET_SIZE: nat := 64
  const NEW_BUCKETS_PER_ADDRESS := 8
  const HORIZON: Seconds := 30 * 24 * 3600
  const RETRIES := 3
  const MAX_FAILURES := 10
  const MIN_FAIL: Seconds := 7 * 24 * 3600
  const REPLACEMENT: Seconds := 4 * 3600
  const TRIED_COLLISION_SIZE := 10
  const TEST_WINDOW: Seconds := 40 * 60

  datatype Slot = Slot(bucket: nat, pos: nat)

  /** Hashes, network groups and address classes: the parts of the source that are opaque here. */
  datatype Env = Env(
    triedHash: (nat, Service) -> nat,
    newHash: (nat, Service, NetAddr) -> nat,
    positionHash: (nat, bool, nat, Service) -> nat,
    host: Service -> NetAddr,
    network: Service -> Network,
    valid: Service -> bool,
    publicRange: Service -> bool)
  {
    predicate Routable(a: Service) {
      valid(a) && publicRange(a)
    }

    function TriedBucket(key: nat, a: Service): nat {
      triedHash(key, a) % TRIED_BUCKET_COUNT
    }

    function NewBucket(key: nat, a: Service, source: NetAddr): nat {
      newHash(key, a, source) % NEW_BUCKET_COUNT
    }

    function BucketPosition(key: nat, isNew: bool, bucket: nat, a: Service): nat {
      positionHash(key, isNew, bucket, a) % BUCKET_SIZE
    }

    /** The only tried slot an address may occupy. */
    function TriedSlot(key: nat, a: Service): Slot {
      Slot(TriedBucket(key, a), BucketPosition(key, false, TriedBucket(key, a), a))
    }

    /** The only slot of a new bucket an address may occupy. */
    function NewSlot(key: nat, a: Service, bucket: nat): Slot {
      Slot(bucket, BucketPosition(key, true, bucket, a))
    }
  }

  datatype Address = Address(service: Service, services: set<nat>, time: Seconds)

  datatype AddrInfo = AddrInfo(
    addr: Service, services: set<nat>, time: Seconds, source: NetAddr,
    lastTry: Seconds, lastCountAttempt: Seconds, lastSuccess: Seconds,
    attempts: int, refCount: int, inTried: bool, randomPos: int)
  {
    predicate IsTerrible(now: Seconds) {
      if now - lastTry <= 60 then false
      else if time > now + 600 then true
      else if now - time > HORIZON then true
      else if lastSuccess == 0 && attempts >= RETRIES then true
      else now - lastSuccess > MIN_FAIL && attempts >= MAX_FAILURES
    }
  }

  datatype Counts = Counts(newCount: int, triedCount: int)

  type Infos = map<Id, AddrInfo>
  type Table = map<Slot, Id>

  // ---- Consistency ----

  /** Ids, addresses and random positions are inverse to each other. */
  ghost predicate Indexed(infos: Infos, addrs: map<Service, Id>, random: seq<Id>, idCount: nat) {
    && (forall id | id in infos ::
          && id < idCount
          && infos[id].addr in addrs && addrs[infos[id].addr] == id
          && 0 <= infos[id].randomPos < |random| && random[infos[id].randomPos] == id)
    && (forall a | a in addrs :: addrs[a] in infos && infos[addrs[a]].addr == a)
    && (forall i | 0 <= i < |random| :: random[i] in infos && infos[random[i]].randomPos == i)
    && |random| == |infos|
  }

  /** The new-table slots that hold an id. */
  ghost function SlotsOf(table: Table, id: Id): set<Slot> {
    set s | s in table && table[s] == id
  }

  /** Tried entries and tried slots match one to one, each at the entry's own slot. */
  ghost predicate TriedOk(env: Env, key: nat, infos: Infos, tried: Table) {
    && (forall s | s in tried ::
          tried[s] in infos && infos[tried[s]].inTried && s == env.TriedSlot(key, infos[tried[s]].addr))
    && (forall id | id in infos && infos[id].inTried ::
          && env.TriedSlot(key, infos[id].addr) in tried && tried[env.TriedSlot(key, infos[id].addr)] == id
          && infos[id].refCount == 0)
  }

  /** Reference counts are the number of new slots held; only ids in `zero` may hold none. */
  ghost predicate NewOk(env: Env, key: nat, infos: Infos, new_: Table, zero: set<Id>) {
    && (forall s | s in new_ ::
          && new_[s] in infos && !infos[new_[s]].inTried
          && s.bucket < NEW_BUCKET_COUNT && s == env.NewSlot(key, infos[new_[s]].addr, s.bucket))
    && (forall id | id in infos && !infos[id].inTried ::
          && infos[id].refCount == |SlotsOf(new_, id)| && infos[id].refCount <= NEW_BUCKETS_PER_ADDRESS
          && (infos[id].refCount == 0 <==> id in zero))
    && (forall id | id in zero :: id in infos && !infos[id].inTried)
  }

  /** The entry `id` is counted as new (or as tried), on the given network if one is given. */
  ghost predicate Counts1(env: Env, infos: Infos, limbo: set<Id>, id: Id, inTried: bool, net: Option<Network>) {
    && id in infos && id !in limbo && infos[id].inTried == inTried
    && (net.None? || env.network(infos[id].addr) == net.value)
  }

  ghost function Tally(env: Env, infos: Infos, limbo: set<Id>, inTried: bool, net: Option<Network>): nat {
    |set id | id in infos && Counts1(env, infos, limbo, id, inTried, net)|
  }

  function CountOf(counts: map<Network, Counts>, net: Network): Counts {
    if net in counts then counts[net] else Counts(0, 0)
  }

  /** The counters are exact, leaving out the ids in `limbo`. */
  ghost predicate CountsOk(env: Env, infos: Infos, limbo: set<Id>, nNew: int, nTried: int,
                           counts: map<Network, Counts>) {
    && nNew == Tally(env, infos, limbo, false, None)
    && nTried == Tally(env, infos, limbo, true, None)
    && forall net :: CountOf(counts, net) ==
         Counts(Tally(env, infos, limbo, false, Some(net)), Tally(env, infos, limbo, true, Some(net)))
  }

  /** What every entry keeps besides its place in the structures. */
  ghost predicate EntriesOk(env: Env, infos: Infos) {
    forall id | id in infos ::
      && env.valid(infos[id].addr)
      && infos[id].lastTry >= 0 && infos[id].lastSuccess >= 0
      && (infos[id].inTried ==> infos[id].lastSuccess > 0)
  }

  /** Pending collisions are few, refer to ids handed out, and each still meets an occupied tried slot. */
  ghost predicate CollisionsOk(env: Env, key: nat, infos: Infos, tried: Table, collisions: set<Id>, idCount: nat) {
    && |collisions| <= TRIED_COLLISION_SIZE
    && (forall id | id in collisions :: id < idCount)
    && (forall id | id in collisions && id in infos :: env.TriedSlot(key, infos[id].addr) in tried)
  }

  /** Which address sits in which slot. */
  ghost function Services(table: Table, infos: Infos): map<Slot, Service> {
    map s | s in table && table[s] in infos :: infos[table[s]].addr
  }

  // ---- How the predicates survive elementary changes ----

  /** Same ids, and for each the same address, table membership and reference count. */
  ghost predicate Alike(infos: Infos, infos': Infos) {
    && (forall id :: id in infos <==> id in infos')
    && forall id | id in infos ::
         && infos[id].addr == infos'[id].addr
         && infos[id].refCount == infos'[id].refCount
         && infos[id].inTried == infos'[id].inTried
  }

  lemma TallyAlike(env: Env, infos: Infos, infos': Infos, limbo: set<Id>, inTried: bool, net: Option<Network>)
    requires Alike(infos, infos')
    ensures Tally(env, infos, limbo, inTried, net) == Tally(env, infos', limbo, inTried, net)
  {
    assert (set id | id in infos && Counts1(env, infos, limbo, id, inTried, net)) ==
           (set id | id in infos' && Counts1(env, infos', limbo, id, inTried, net));
  }

  lemma AlikeKeeps(env: Env, key: nat, infos: Infos, infos': Infos, new_: Table, tried: Table,
                   limbo: set<Id>, zero: set<Id>, nNew: int, nTried: int, counts: map<Network, Counts>)
    requires Alike(infos, infos')
    ensures TriedOk(env, key, infos, tried) ==> TriedOk(env, key, infos', tried)
    ensures NewOk(env, key, infos, new_, zero) ==> NewOk(env, key, infos', new_, zero)
    ensures CountsOk(env, infos, limbo, nNew, nTried, counts) ==> CountsOk(env, infos', limbo, nNew, nTried, counts)
  {
    forall s | TriedOk(env, key, infos, tried) && s in tried
      ensures tried[s] in infos' && infos'[tried[s]].inTried && s == env.TriedSlot(key, infos'[tried[s]].addr)
    {
      assert tried[s] in infos;
    }
    forall s | NewOk(env, key, infos, new_, zero) && s in new_
      ensures
        && new_[s] in infos' && !infos'[new_[s]].inTried
        && s.bucket < NEW_BUCKET_COUNT && s == env.NewSlot(key, infos'[new_[s]].addr, s.bucket)
    {
      assert new_[s] in infos;
    }
    TallyAlike(env, infos, infos', limbo, false, None);
    TallyAlike(env, infos, infos', limbo, true, None);
    forall net
      ensures Tally(env, infos, limbo, false, Some(net)) == Tally(env, infos', limbo, false, Some(net))
      ensures Tally(env, infos, limbo, true, Some(net)) == Tally(env, infos', limbo, true, Some(net))
    {
      TallyAlike(env, infos, infos', limbo, false, Some(net));
      TallyAlike(env, infos, infos', limbo, true, Some(net));
    }
  }

  /** Everything but entry `id` is counted as before. */
  ghost predicate OthersSame(infos: Infos, limbo: set<Id>, infos': Infos, limbo': set<Id>, id: Id) {
    forall j | j != id ::
      && (j in infos <==> j in infos') && (j in limbo <==> j in limbo')
      && (j in infos ==> infos[j].inTried == infos'[j].inTried && infos[j].addr == infos'[j].addr)
  }

  ghost function One(b: bool): int {
    if b then 1 else 0
  }

  lemma OneApart(a: set<Id>, b: set<Id>, id: Id)
    requires forall j | j != id :: j in a <==> j in b
    ensures |a| - One(id in a) == |b| - One(id in b)
  {
    assert a - {id} == b - {id};
    assert |a - {id}| == |a| - One(id in a);
    assert |b - {id}| == |b| - One(id in b);
  }

  lemma TallyChange(env: Env, infos: Infos, limbo: set<Id>, infos': Infos, limbo': set<Id>, id: Id,
                    inTried: bool, net: Option<Network>)
    requires OthersSame(infos, limbo, infos', limbo', id)
    ensures Tally(env, infos', limbo', inTried, net) - One(Counts1(env, infos', limbo', id, inTried, net)) ==
            Tally(env, infos, limbo, inTried, net) - One(Counts1(env, infos, limbo, id, inTried, net))
  {
    var a := set j | j in infos && Counts1(env, infos, limbo, j, inTried, net);
    var b := set j | j in infos' && Counts1(env, infos', limbo', j, inTried, net);
    OneApart(a, b, id);
  }

  ghost predicate IsNew(infos: Infos, limbo: set<Id>, id: Id) {
    id in infos && id !in limbo && !infos[id].inTried
  }

  ghost predicate IsTried(infos: Infos, limbo: set<Id>, id: Id) {
    id in infos && id !in limbo && infos[id].inTried
  }

  /** Add to the counters of one network. */
  function Bump(counts: map<Network, Counts>, net: Network, dNew: int, dTried: int): map<Network, Counts> {
    counts[net := Counts(CountOf(counts, net).newCount + dNew, CountOf(counts, net).triedCount + dTried)]
  }

  /** When one entry changes status, moving the counters by what changed keeps them exact. */
  lemma Recount(env: Env, infos: Infos, limbo: set<Id>, infos': Infos, limbo': set<Id>, id: Id,
                nNew: int, nTried: int, counts: map<Network, Counts>, net: Network, dNew: int, dTried: int)
    requires CountsOk(env, infos, limbo, nNew, nTried, counts)
    requires OthersSame(infos, limbo, infos', limbo', id)
    requires id in infos ==> env.network(infos[id].addr) == net
    requires id in infos' ==> env.network(infos'[id].addr) == net
    requires dNew == One(IsNew(infos', limbo', id)) - One(IsNew(infos, limbo, id))
    requires dTried == One(IsTried(infos', limbo', id)) - One(IsTried(infos, limbo, id))
    ensures CountsOk(env, infos', limbo', nNew + dNew, nTried + dTried, Bump(counts, net, dNew, dTried))
  {
    TallyChange(env, infos, limbo, infos', limbo', id, false, None);
    TallyChange(env, infos, limbo, infos', limbo', id, true, None);
    forall n
      ensures CountOf(Bump(counts, net, dNew, dTried), n) ==
        Counts(Tally(env, infos', limbo', false, Some(n)), Tally(env, infos', limbo', true, Some(n)))
    {
      TallyChange(env, infos, limbo, infos', limbo', id, false, Some(n));
      TallyChange(env, infos, limbo, infos', limbo', id, true, Some(n));
      assert CountOf(counts, n) ==
        Counts(Tally(env, infos, limbo, false, Some(n)), Tally(env, infos, limbo, true, Some(n)));
    }
  }

  // Entries coming, going and moving.

  lemma IndexedInsert(infos: Infos, addrs: map<Service, Id>, random: seq<Id>, idCount: nat, info: AddrInfo)
    requires Indexed(infos, addrs, random, idCount)
    requires info.addr !in addrs && info.randomPos == |random|
    ensures Indexed(infos[idCount := info], addrs[info.addr := idCount], random + [idCount], idCount + 1)
  {
    assert idCount !in infos;
    assert infos[idCount := info].Keys == infos.Keys + {idCount};
  }

  /** Changing an entry without moving or renaming it. */
  lemma IndexedUpdate(infos: Infos, addrs: map<Service, Id>, random: seq<Id>, idCount: nat, id: Id, info: AddrInfo)
    requires Indexed(infos, addrs, random, idCount) && id in infos
    requires info.addr == infos[id].addr && info.randomPos == infos[id].randomPos
    ensures Indexed(infos[id := info], addrs, random, idCount)
  {
    assert infos[id := info].Keys == infos.Keys;
  }

  function Swapped(infos: Infos, random: seq<Id>, i: nat, j: nat): Infos
    requires i < |random| && j < |random| && random[i] in infos && random[j] in infos
  {
    infos[random[i] := infos[random[i]].(randomPos := j)][random[j] := infos[random[j]].(randomPos := i)]
  }

  lemma IndexedSwap(infos: Infos, addrs: map<Service, Id>, random: seq<Id>, idCount: nat, i: nat, j: nat)
    requires Indexed(infos, addrs, random, idCount) && i < |random| && j < |random| && i != j
    ensures Indexed(Swapped(infos, random, i, j), addrs, random[i := random[j]][j := random[i]], idCount)
    ensures Alike(infos, Swapped(infos, random, i, j))
  {
    var infos', random' := Swapped(infos, random, i, j), random[i := random[j]][j := random[i]];
    assert infos'.Keys == infos.Keys;
    assert random[i] != random[j];
    forall id | id in infos'
      ensures 0 <= infos'[id].randomPos < |random'| && random'[infos'[id].randomPos] == id
    {
      assert random[infos[id].randomPos] == id;
    }
    forall k | 0 <= k < |random'|
      ensures random'[k] in infos' && infos'[random'[k]].randomPos == k
    {
      assert infos[random[k]].randomPos == k;
    }
  }

  lemma IndexedRemoveLast(infos: Infos, addrs: map<Service, Id>, random: seq<Id>, idCount: nat, id: Id)
    requires Indexed(infos, addrs, random, idCount) && id in infos && infos[id].randomPos == |random| - 1
    ensures Indexed(infos - {id}, addrs - {infos[id].addr}, random[..|random| - 1], idCount)
  {
    var infos', addrs', random' := infos - {id}, addrs - {infos[id].addr}, random[..|random| - 1];
    assert infos'.Keys == infos.Keys - {id};
    forall j | j in infos'
      ensures infos'[j].addr in addrs' && infos'[j].randomPos < |random'|
    {
      assert addrs[infos[j].addr] == j && random[infos[j].randomPos] == j;
    }
    forall a | a in addrs'
      ensures addrs'[a] in infos'
    {
      assert infos[addrs[a]].addr == a;
    }
    forall i | 0 <= i < |random'|
      ensures random'[i] in infos'
    {
      assert infos[random[i]].randomPos == i;
    }
  }

  // Slots taken and given up.

  lemma SlotsAfterTake(table: Table, s: Slot, id: Id, j: Id)
    requires s !in table
    ensures |SlotsOf(table[s := id], j)| == |SlotsOf(table, j)| + One(j == id)
  {
    assert SlotsOf(table[s := id], j) == if j == id then SlotsOf(table, j) + {s} else SlotsOf(table, j);
  }

  lemma SlotsAfterDrop(table: Table, s: Slot, j: Id)
    requires s in table
    ensures |SlotsOf(table - {s}, j)| == |SlotsOf(table, j)| - One(j == table[s])
  {
    assert SlotsOf(table - {s}, j) == SlotsOf(table, j) - {s};
    assert table[s] == j ==> s in SlotsOf(table, j);
  }

  lemma SlotHeld(table: Table, s: Slot)
    requires s in table
    ensures |SlotsOf(table, table[s])| > 0
  {
    assert s in SlotsOf(table, table[s]);
  }

  /** A new entry, not yet in any table. */
  lemma EntryAdded(env: Env, key: nat, infos: Infos, new_: Table, tried: Table, zero: set<Id>, id: Id, info: AddrInfo)
    requires TriedOk(env, key, infos, tried) && NewOk(env, key, infos, new_, zero)
    requires id !in infos && !info.inTried && info.refCount == 0
    ensures TriedOk(env, key, infos[id := info], tried)
    ensures NewOk(env, key, infos[id := info], new_, zero + {id})
  {
    assert SlotsOf(new_, id) == {};
  }

  /** An entry in no table can go. */
  lemma EntryRemoved(env: Env, key: nat, infos: Infos, new_: Table, tried: Table, zero: set<Id>, id: Id)
    requires TriedOk(env, key, infos, tried) && NewOk(env, key, infos, new_, zero) && id in zero
    ensures TriedOk(env, key, infos - {id}, tried)
    ensures NewOk(env, key, infos - {id}, new_, zero - {id})
  {
    assert SlotsOf(new_, id) == {};
    forall s | s in new_
      ensures new_[s] != id
    {
      assert new_[s] == id ==> s in SlotsOf(new_, id);
    }
  }

  /** Changing an entry that is not in the tried table. */
  lemma TriedUpdate(env: Env, key: nat, infos: Infos, tried: Table, id: Id, info: AddrInfo)
    requires TriedOk(env, key, infos, tried) && id in infos && !infos[id].inTried
    requires !info.inTried && info.addr == infos[id].addr
    ensures TriedOk(env, key, infos[id := info], tried)
  {
  }

  lemma SlotDropped(env: Env, key: nat, infos: Infos, new_: Table, zero: set<Id>, s: Slot)
    requires NewOk(env, key, infos, new_, zero) && s in new_
    ensures new_[s] in infos && !infos[new_[s]].inTried && infos[new_[s]].refCount > 0 && new_[s] !in zero
    ensures
      var id := new_[s];
      var infos' := infos[id := infos[id].(refCount := infos[id].refCount - 1)];
      NewOk(env, key, infos', new_ - {s}, if infos'[id].refCount == 0 then zero + {id} else zero)
  {
    hide SlotsOf;
    var id := new_[s];
    SlotHeld(new_, s);
    var infos' := infos[id := infos[id].(refCount := infos[id].refCount - 1)];
    var new', zero' := new_ - {s}, if infos'[id].refCount == 0 then zero + {id} else zero;
    forall j | j in infos' && !infos'[j].inTried
      ensures infos'[j].refCount == |SlotsOf(new', j)| && infos'[j].refCount <= NEW_BUCKETS_PER_ADDRESS
      ensures infos'[j].refCount == 0 <==> j in zero'
    {
      SlotsAfterDrop(new_, s, j);
    }
  }

  lemma SlotTaken(env: Env, key: nat, infos: Infos, new_: Table, zero: set<Id>, s: Slot, id: Id)
    requires NewOk(env, key, infos, new_, zero) && s !in new_
    requires id in infos && !infos[id].inTried && infos[id].refCount < NEW_BUCKETS_PER_ADDRESS
    requires s.bucket < NEW_BUCKET_COUNT && s == env.NewSlot(key, infos[id].addr, s.bucket)
    ensures
      var infos' := infos[id := infos[id].(refCount := infos[id].refCount + 1)];
      NewOk(env, key, infos', new_[s := id], zero - {id})
  {
    hide SlotsOf;
    var infos' := infos[id := infos[id].(refCount := infos[id].refCount + 1)];
    forall j | j in infos' && !infos'[j].inTried
      ensures infos'[j].refCount == |SlotsOf(new_[s := id], j)|
    {
      SlotsAfterTake(new_, s, id, j);
    }
  }

  lemma LeftTried(env: Env, key: nat, infos: Infos, new_: Table, tried: Table, zero: set<Id>, s: Slot)
    requires TriedOk(env, key, infos, tried) && NewOk(env, key, infos, new_, zero) && s in tried
    ensures
      var id := tried[s];
      var infos' := infos[id := infos[id].(inTried := false)];
      TriedOk(env, key, infos', tried - {s}) && NewOk(env, key, infos', new_, zero + {id})
  {
    var id := tried[s];
    assert SlotsOf(new_, id) == {};
  }

  lemma EnteredTried(env: Env, key: nat, infos: Infos, new_: Table, tried: Table, zero: set<Id>, id: Id)
    requires TriedOk(env, key, infos, tried) && NewOk(env, key, infos, new_, zero) && id in zero
    requires env.TriedSlot(key, infos[id].addr) !in tried
    ensures
      var s := env.TriedSlot(key, infos[id].addr);
      var infos' := infos[id := infos[id].(inTried := true)];
      TriedOk(env, key, infos', tried[s := id]) && NewOk(env, key, infos', new_, zero - {id})
  {
    assert SlotsOf(new_, id) == {};
    forall s | s in new_
      ensures new_[s] != id
    {
      assert new_[s] == id ==> s in SlotsOf(new_, id);
    }
  }

  // ---- Whole states ----

  /** The contents of every structure at one moment. */
  datatype State = State(
    env: Env, key: nat, idCount: nat, infos: Infos, addrs: map<Service, Id>, random: seq<Id>,
    new_: Table, tried: Table, nNew: int, nTried: int, counts: map<Network, Counts>)
  {
    ghost function NewView(): map<Slot, Service> {
      Services(new_, infos)
    }

    ghost function TriedView(): map<Slot, Service> {
      Services(tried, infos)
    }
  }

  /**
    Consistency, with two kinds of entries in transit: those in `zero` hold no new slot yet
    (or any more), and those in `limbo` are moreover left out of the counters.
   */
  ghost predicate Ok(st: State, limbo: set<Id>, zero: set<Id>) {
    && st.key != 0
    && limbo <= st.infos.Keys
    && Indexed(st.infos, st.addrs, st.random, st.idCount)
    && TriedOk(st.env, st.key, st.infos, st.tried)
    && NewOk(st.env, st.key, st.infos, st.new_, zero)
    && CountsOk(st.env, st.infos, limbo, st.nNew, st.nTried, st.counts)
    && EntriesOk(st.env, st.infos)
  }

  function Inserted(st: State, addr: Address, source: NetAddr): State {
    var info := AddrInfo(addr.service, addr.services, addr.time, source, 0, 0, 0, 0, 0, false, |st.random|);
    st.(idCount := st.idCount + 1,
        infos := st.infos[st.idCount := info],
        addrs := st.addrs[addr.service := st.idCount],
        random := st.random + [st.idCount],
        nNew := st.nNew + 1,
        counts := Bump(st.counts, st.env.network(addr.service), 1, 0))
  }

  lemma IdIsFresh(st: State, limbo: set<Id>, zero: set<Id>)
    requires Ok(st, limbo, zero)
    ensures st.idCount !in st.infos && st.idCount !in zero && st.idCount !in limbo
  {
    hide TriedOk, CountsOk, EntriesOk, SlotsOf;
  }

  /** Adding or removing an entry that no table mentions leaves the views alone. */
  lemma ViewsIgnore(table: Table, infos: Infos, infos': Infos)
    requires forall s | s in table :: table[s] in infos
    requires forall s | s in table :: table[s] in infos' && infos'[table[s]].addr == infos[table[s]].addr
    ensures Services(table, infos') == Services(table, infos)
  {
  }

  lemma InsertKeeps(st: State, limbo: set<Id>, zero: set<Id>, addr: Address, source: NetAddr)
    requires Ok(st, limbo, zero) && st.env.valid(addr.service) && addr.service !in st.addrs
    ensures st.idCount !in st.infos && st.idCount !in zero
    ensures Ok(Inserted(st, addr, source), limbo, zero + {st.idCount})
    ensures Inserted(st, addr, source).NewView() == st.NewView()
    ensures Inserted(st, addr, source).TriedView() == st.TriedView()
  {
    hide Indexed, TriedOk, NewOk, CountsOk, EntriesOk, Services;
    var st' := Inserted(st, addr, source);
    var id := st.idCount;
    var info := st'.infos[id];
    IdIsFresh(st, limbo, zero);
    EntriesInsert(st.env, st.infos, id, info);
    SameViews(st, st', zero);
    IndexedInsert(st.infos, st.addrs, st.random, id, info);
    EntryAdded(st.env, st.key, st.infos, st.new_, st.tried, zero, id, info);
    Recount(st.env, st.infos, limbo, st'.infos, limbo, id, st.nNew, st.nTried, st.counts,
            st.env.network(addr.service), 1, 0);
  }

  lemma EntriesInsert(env: Env, infos: Infos, id: Id, info: AddrInfo)
    requires EntriesOk(env, infos) && env.valid(info.addr) && info.lastTry >= 0 && info.lastSuccess >= 0
    requires info.inTried ==> info.lastSuccess > 0
    ensures EntriesOk(env, infos[id := info])
  {
  }

  /** The tables unchanged and their entries' addresses unchanged: the same addresses in the same slots. */
  lemma SameViews(st: State, st': State, zero: set<Id>)
    requires st'.new_ == st.new_ && st'.tried == st.tried
    requires TriedOk(st.env, st.key, st.infos, st.tried) && NewOk(st.env, st.key, st.infos, st.new_, zero)
    requires forall id | id in st.infos && id !in zero :: id in st'.infos && st'.infos[id].addr == st.infos[id].addr
    ensures st'.NewView() == st.NewView() && st'.TriedView() == st.TriedView()
  {
    forall s | s in st.new_
      ensures st.new_[s] in st.infos && st.new_[s] !in zero
    {
      assert s in SlotsOf(st.new_, st.new_[s]);
    }
    ViewsIgnore(st.new_, st.infos, st'.infos);
    ViewsIgnore(st.tried, st.infos, st'.infos);
  }

  function SwappedAt(st: State, i: nat, j: nat): State
    requires i < |st.random| && j < |st.random| && st.random[i] in st.infos && st.random[j] in st.infos
  {
    if i == j then st
    else st.(infos := Swapped(st.infos, st.random, i, j),
             random := st.random[i := st.random[j]][j := st.random[i]])
  }

  lemma SwapKeeps(st: State, limbo: set<Id>, zero: set<Id>, i: nat, j: nat)
    requires Ok(st, limbo, zero) && i < |st.random| && j < |st.random|
    ensures st.random[i] in st.infos && st.random[j] in st.infos
    ensures Ok(SwappedAt(st, i, j), limbo, zero) && Alike(st.infos, SwappedAt(st, i, j).infos)
    ensures SwappedAt(st, i, j).NewView() == st.NewView()
    ensures SwappedAt(st, i, j).TriedView() == st.TriedView()
  {
    hide Indexed, TriedOk, NewOk, CountsOk, EntriesOk, Services;
    RandomIds(st, i);
    RandomIds(st, j);
    if i != j {
      var st' := SwappedAt(st, i, j);
      IndexedSwap(st.infos, st.addrs, st.random, st.idCount, i, j);
      AlikeKeeps(st.env, st.key, st.infos, st'.infos, st.new_, st.tried, limbo, zero, st.nNew, st.nTried, st.counts);
      SameViews(st, st', zero);
      EntriesSwap(st.env, st.infos, st.random, i, j);
    }
  }

  lemma RandomIds(st: State, i: nat)
    requires Indexed(st.infos, st.addrs, st.random, st.idCount) && i < |st.random|
    ensures st.random[i] in st.infos && st.infos[st.random[i]].randomPos == i
  {
  }

  lemma EntriesSwap(env: Env, infos: Infos, random: seq<Id>, i: nat, j: nat)
    requires EntriesOk(env, infos)
    requires i < |random| && j < |random| && random[i] in infos && random[j] in infos
    ensures EntriesOk(env, Swapped(infos, random, i, j))
  {
  }

  function Removed(st: State, id: Id): State
    requires id in st.infos && st.random != []
  {
    st.(infos := st.infos - {id},
        addrs := st.addrs - {st.infos[id].addr},
        random := st.random[..|st.random| - 1],
        nNew := st.nNew - 1,
        counts := Bump(st.counts, st.env.network(st.infos[id].addr), -1, 0))
  }

  lemma ZeroEntry(st: State, limbo: set<Id>, zero: set<Id>, id: Id)
    requires Ok(st, limbo, zero) && id in zero
    ensures id in st.infos && !st.infos[id].inTried && st.infos[id].refCount == 0
    ensures 0 <= st.infos[id].randomPos < |st.random|
  {
    hide TriedOk, CountsOk, EntriesOk, SlotsOf;
  }

  lemma RemoveKeeps(st: State, limbo: set<Id>, zero: set<Id>, id: Id)
    requires Ok(st, limbo, zero) && id in zero && id !in limbo
    requires id in st.infos && st.infos[id].randomPos == |st.random| - 1
    ensures st.random != []
    ensures Ok(Removed(st, id), limbo, zero - {id})
    ensures Removed(st, id).NewView() == st.NewView()
    ensures Removed(st, id).TriedView() == st.TriedView()
  {
    hide Indexed, TriedOk, NewOk, CountsOk, EntriesOk, Services;
    ZeroEntry(st, limbo, zero, id);
    var st' := Removed(st, id);
    IndexedRemoveLast(st.infos, st.addrs, st.random, st.idCount, id);
    EntryRemoved(st.env, st.key, st.infos, st.new_, st.tried, zero, id);
    Recount(st.env, st.infos, limbo, st'.infos, limbo, id, st.nNew, st.nTried, st.counts,
            st.env.network(st.infos[id].addr), -1, 0);
    SameViews(st, st', zero);
    EntriesFewer(st.env, st.infos, st'.infos);
  }

  lemma EntriesFewer(env: Env, infos: Infos, infos': Infos)
    requires EntriesOk(env, infos) && forall id | id in infos' :: id in infos && infos'[id] == infos[id]
    ensures EntriesOk(env, infos')
  {
  }

  /** Give up a new slot. */
  function Dropped(st: State, s: Slot): State
    requires s in st.new_ && st.new_[s] in st.infos
  {
    var id := st.new_[s];
    st.(new_ := st.new_ - {s}, infos := st.infos[id := st.infos[id].(refCount := st.infos[id].refCount - 1)])
  }

  lemma DropKeeps(st: State, limbo: set<Id>, zero: set<Id>, s: Slot)
    requires Ok(st, limbo, zero) && s in st.new_
    ensures st.new_[s] in st.infos && st.infos[st.new_[s]].refCount > 0 && st.new_[s] !in zero
    ensures !st.infos[st.new_[s]].inTried
    ensures
      var id, st' := st.new_[s], Dropped(st, s);
      && Ok(st', limbo, if st'.infos[id].refCount == 0 then zero + {id} else zero)
      && st'.NewView() == st.NewView() - {s} && st'.TriedView() == st.TriedView()
  {
    hide Indexed, TriedOk, NewOk, CountsOk, EntriesOk, Services;
    SlotDropped(st.env, st.key, st.infos, st.new_, zero, s);
    var id, st' := st.new_[s], Dropped(st, s);
    UpdateKeeps(st, limbo, zero, id, st'.infos[id]);
    ViewsAfterDrop(st.new_, st.infos, st'.infos, s);
  }

  lemma ViewsAfterDrop(table: Table, infos: Infos, infos': Infos, s: Slot)
    requires forall id :: id in infos <==> id in infos'
    requires forall id | id in infos :: infos'[id].addr == infos[id].addr
    ensures Services(table - {s}, infos') == Services(table, infos) - {s}
  {
  }

  lemma ViewsAfterTake(table: Table, infos: Infos, infos': Infos, s: Slot, id: Id)
    requires id in infos
    requires forall j :: j in infos <==> j in infos'
    requires forall j | j in infos :: infos'[j].addr == infos[j].addr
    ensures Services(table[s := id], infos') == Services(table, infos)[s := infos[id].addr]
  {
  }

  /** Changing the bookkeeping of an entry that is not tried affects neither index, tried table nor counters. */
  lemma UpdateKeeps(st: State, limbo: set<Id>, zero: set<Id>, id: Id, info: AddrInfo)
    requires Ok(st, limbo, zero) && id in st.infos && !st.infos[id].inTried
    requires info == st.infos[id].(refCount := info.refCount)
    ensures
      var infos' := st.infos[id := info];
      && Indexed(infos', st.addrs, st.random, st.idCount)
      && TriedOk(st.env, st.key, infos', st.tried)
      && CountsOk(st.env, infos', limbo, st.nNew, st.nTried, st.counts)
      && EntriesOk(st.env, infos')
      && Services(st.tried, infos') == Services(st.tried, st.infos)
  {
    hide Indexed, TriedOk, NewOk, CountsOk, EntriesOk, Services;
    IndexedUpdate(st.infos, st.addrs, st.random, st.idCount, id, info);
    TriedUpdate(st.env, st.key, st.infos, st.tried, id, info);
    EntriesUpdate(st.env, st.infos, id, info);
    TallyUpdate(st.env, st.infos, limbo, id, info, st.nNew, st.nTried, st.counts);
    TriedViewUpdate(st, id, info);
  }

  lemma EntriesUpdate(env: Env, infos: Infos, id: Id, info: AddrInfo)
    requires EntriesOk(env, infos) && id in infos && info.addr == infos[id].addr
    requires
      || (info.lastTry >= 0 && info.lastSuccess >= 0 && (info.inTried ==> info.lastSuccess > 0))
      || info == infos[id].(refCount := info.refCount)
    ensures EntriesOk(env, infos[id := info])
  {
  }

  lemma TriedViewUpdate(st: State, id: Id, info: AddrInfo)
    requires id in st.infos && info.addr == st.infos[id].addr
    ensures Services(st.tried, st.infos[id := info]) == Services(st.tried, st.infos)
  {
  }

  lemma TallyUpdate(env: Env, infos: Infos, limbo: set<Id>, id: Id, info: AddrInfo,
                    nNew: int, nTried: int, counts: map<Network, Counts>)
    requires CountsOk(env, infos, limbo, nNew, nTried, counts) && id in infos
    requires info.addr == infos[id].addr && info.inTried == infos[id].inTried
    ensures CountsOk(env, infos[id := info], limbo, nNew, nTried, counts)
  {
    hide CountsOk;
    var infos' := infos[id := info];
    Recount(env, infos, limbo, infos', limbo, id, nNew, nTried, counts, env.network(info.addr), 0, 0);
    BumpZero(env, infos', limbo, nNew, nTried, counts, env.network(info.addr));
  }

  lemma BumpZero(env: Env, infos: Infos, limbo: set<Id>, nNew: int, nTried: int, counts: map<Network, Counts>,
                 net: Network)
    requires CountsOk(env, infos, limbo, nNew, nTried, Bump(counts, net, 0, 0))
    ensures CountsOk(env, infos, limbo, nNew, nTried, counts)
  {
    forall n
      ensures CountOf(Bump(counts, net, 0, 0), n) == CountOf(counts, n)
    {
    }
  }

  /** Take a free new slot. */
  function Taken(st: State, s: Slot, id: Id): State
    requires id in st.infos
  {
    st.(new_ := st.new_[s := id], infos := st.infos[id := st.infos[id].(refCount := st.infos[id].refCount + 1)])
  }

  lemma TakeKeeps(st: State, limbo: set<Id>, zero: set<Id>, s: Slot, id: Id)
    requires Ok(st, limbo, zero) && s !in st.new_
    requires id in st.infos && !st.infos[id].inTried && st.infos[id].refCount < NEW_BUCKETS_PER_ADDRESS
    requires s.bucket < NEW_BUCKET_COUNT && s == st.env.NewSlot(st.key, st.infos[id].addr, s.bucket)
    ensures Ok(Taken(st, s, id), limbo, zero - {id})
    ensures Taken(st, s, id).NewView() == st.NewView()[s := st.infos[id].addr]
    ensures Taken(st, s, id).TriedView() == st.TriedView()
  {
    hide Indexed, TriedOk, NewOk, CountsOk, EntriesOk, Services;
    var st' := Taken(st, s, id);
    SlotTaken(st.env, st.key, st.infos, st.new_, zero, s, id);
    UpdateKeeps(st, limbo, zero, id, st'.infos[id]);
    ViewsAfterTake(st.new_, st.infos, st'.infos, s, id);
  }

  /** Leave an entry out of the counters, or count it again. */
  function Uncounted(st: State, id: Id): State
    requires id in st.infos
  {
    st.(nNew := st.nNew - 1, counts := Bump(st.counts, st.env.network(st.infos[id].addr), -1, 0))
  }

  function Recounted(st: State, id: Id): State
    requires id in st.infos
  {
    st.(nNew := st.nNew + 1, counts := Bump(st.counts, st.env.network(st.infos[id].addr), 1, 0))
  }

  lemma UncountKeeps(st: State, limbo: set<Id>, zero: set<Id>, id: Id)
    requires Ok(st, limbo, zero) && id in st.infos && !st.infos[id].inTried && id !in limbo
    ensures Ok(Uncounted(st, id), limbo + {id}, zero)
  {
    hide Indexed, TriedOk, NewOk, CountsOk, EntriesOk;
    Recount(st.env, st.infos, limbo, st.infos, limbo + {id}, id, st.nNew, st.nTried, st.counts,
            st.env.network(st.infos[id].addr), -1, 0);
  }

  lemma RecountKeeps(st: State, limbo: set<Id>, zero: set<Id>, id: Id)
    requires Ok(st, limbo, zero) && id in st.infos && !st.infos[id].inTried && id in limbo
    ensures Ok(Recounted(st, id), limbo - {id}, zero)
  {
    hide Indexed, TriedOk, NewOk, CountsOk, EntriesOk;
    Recount(st.env, st.infos, limbo, st.infos, limbo - {id}, id, st.nNew, st.nTried, st.counts,
            st.env.network(st.infos[id].addr), 1, 0);
  }

  /** Take an entry out of the tried table. */
  function LeaveTried(st: State, s: Slot): State
    requires s in st.tried && st.tried[s] in st.infos
  {
    var id := st.tried[s];
    st.(infos := st.infos[id := st.infos[id].(inTried := false)], tried := st.tried - {s},
        nTried := st.nTried - 1, counts := Bump(st.counts, st.env.network(st.infos[id].addr), 0, -1))
  }

  lemma TriedEntry(st: State, limbo: set<Id>, zero: set<Id>, s: Slot)
    requires Ok(st, limbo, zero) && s in st.tried
    ensures st.tried[s] in st.infos && st.infos[st.tried[s]].inTried && st.infos[st.tried[s]].refCount == 0
    ensures st.tried[s] !in zero && s == st.env.TriedSlot(st.key, st.infos[st.tried[s]].addr)
  {
    hide CountsOk, EntriesOk, Indexed, SlotsOf;
  }

  lemma LeaveTriedKeeps(st: State, limbo: set<Id>, zero: set<Id>, s: Slot)
    requires Ok(st, limbo, zero) && s in st.tried && st.tried[s] !in limbo
    ensures st.tried[s] in st.infos && st.infos[st.tried[s]].inTried && st.infos[st.tried[s]].refCount == 0
    ensures st.tried[s] !in zero
    ensures
      var id, st' := st.tried[s], LeaveTried(st, s);
      && Ok(st', limbo + {id}, zero + {id})
      && st'.NewView() == st.NewView() && st'.TriedView() == st.TriedView() - {s}
  {
    hide Indexed, TriedOk, NewOk, CountsOk, EntriesOk, Services;
    TriedEntry(st, limbo, zero, s);
    var id, st' := st.tried[s], LeaveTried(st, s);
    IndexedUpdate(st.infos, st.addrs, st.random, st.idCount, id, st'.infos[id]);
    LeftTried(st.env, st.key, st.infos, st.new_, st.tried, zero, s);
    Recount(st.env, st.infos, limbo, st'.infos, limbo + {id}, id, st.nNew, st.nTried, st.counts,
            st.env.network(st.infos[id].addr), 0, -1);
    EntriesLeave(st.env, st.infos, id);
    ViewsAfterDrop(st.tried, st.infos, st'.infos, s);
    NewViewUpdate(st, id, st'.infos[id]);
  }

  lemma EntriesLeave(env: Env, infos: Infos, id: Id)
    requires EntriesOk(env, infos) && id in infos
    ensures EntriesOk(env, infos[id := infos[id].(inTried := false)])
  {
  }

  lemma NewViewUpdate(st: State, id: Id, info: AddrInfo)
    requires id in st.infos && info.addr == st.infos[id].addr
    ensures Services(st.new_, st.infos[id := info]) == Services(st.new_, st.infos)
  {
  }

  /** Put an entry without new slots into its tried slot. */
  function EnterTried(st: State, id: Id): State
    requires id in st.infos
  {
    var s := st.env.TriedSlot(st.key, st.infos[id].addr);
    st.(infos := st.infos[id := st.infos[id].(inTried := true)], tried := st.tried[s := id],
        nTried := st.nTried + 1, counts := Bump(st.counts, st.env.network(st.infos[id].addr), 0, 1))
  }

  lemma EnterTriedKeeps(st: State, limbo: set<Id>, zero: set<Id>, id: Id)
    requires Ok(st, limbo, zero) && id in limbo && id in zero && id in st.infos
    requires st.env.TriedSlot(st.key, st.infos[id].addr) !in st.tried && st.infos[id].lastSuccess > 0
    ensures Ok(EnterTried(st, id), limbo - {id}, zero - {id})
    ensures EnterTried(st, id).NewView() == st.NewView()
    ensures EnterTried(st, id).TriedView() ==
            st.TriedView()[st.env.TriedSlot(st.key, st.infos[id].addr) := st.infos[id].addr]
  {
    hide Indexed, TriedOk, NewOk, CountsOk, EntriesOk, Services;
    ZeroEntry(st, limbo, zero, id);
    var st' := EnterTried(st, id);
    IndexedUpdate(st.infos, st.addrs, st.random, st.idCount, id, st'.infos[id]);
    EnteredTried(st.env, st.key, st.infos, st.new_, st.tried, zero, id);
    Recount(st.env, st.infos, limbo, st'.infos, limbo - {id}, id, st.nNew, st.nTried, st.counts,
            st.env.network(st.infos[id].addr), 0, 1);
    EntriesEnter(st.env, st.infos, id);
    ViewsAfterTake(st.tried, st.infos, st'.infos, st.env.TriedSlot(st.key, st.infos[id].addr), id);
    NewViewUpdate(st, id, st'.infos[id]);
  }

  lemma EntriesEnter(env: Env, infos: Infos, id: Id)
    requires EntriesOk(env, infos) && id in infos && infos[id].lastSuccess > 0
    ensures EntriesOk(env, infos[id := infos[id].(inTried := true)])
  {
  }

  /** Update an entry's times, services and attempt counters. */
  function Touched(st: State, id: Id, info: AddrInfo): State {
    st.(infos := st.infos[id := info])
  }

  ghost predicate SameBookkeeping(a: AddrInfo, b: AddrInfo) {
    a.addr == b.addr && a.refCount == b.refCount && a.inTried == b.inTried && a.randomPos == b.randomPos
  }

  lemma TouchKeeps(st: State, limbo: set<Id>, zero: set<Id>, id: Id, info: AddrInfo)
    requires Ok(st, limbo, zero) && id in st.infos && SameBookkeeping(info, st.infos[id])
    requires info.lastTry >= 0 && info.lastSuccess >= 0 && (info.inTried ==> info.lastSuccess > 0)
    ensures Ok(Touched(st, id, info), limbo, zero)
    ensures Touched(st, id, info).NewView() == st.NewView()
    ensures Touched(st, id, info).TriedView() == st.TriedView()
  {
    hide Indexed, TriedOk, NewOk, CountsOk, EntriesOk, Services;
    var st' := Touched(st, id, info);
    IndexedUpdate(st.infos, st.addrs, st.random, st.idCount, id, info);
    AlikeKeeps(st.env, st.key, st.infos, st'.infos, st.new_, st.tried, limbo, zero, st.nNew, st.nTried, st.counts);
    EntriesUpdate(st.env, st.infos, id, info);
    NewViewUpdate(st, id, info);
    TriedViewUpdate(st, id, info);
  }
}
