/**
  The saved form of the address manager and what loading it computes. The file is the list of
  values the source writes; how each value is laid out in bytes is not modelled.
 */
module AddrManFile {
  import opened Wrappers
  import opened AddrManModel
  import opened AddrManCore
  import opened AddrManCheck

  const FILE_FORMAT := 4
  const INCOMPATIBILITY_BASE := 32
  const BIT30 := 0x4000_0000

  /** What is written of an entry; the other fields live in memory only. */
  datatype DiskInfo = DiskInfo(
    addr: Service, services: set<nat>, time: Seconds, source: NetAddr, lastSuccess: Seconds, attempts: int)

  datatype File = File(
    format: nat, compat: nat, key: nat, nNew: int, nTried: int, nUBuckets: int,
    newInfos: seq<DiskInfo>, triedInfos: seq<DiskInfo>, buckets: seq<seq<int>>, asmap: nat)

  function Disk(info: AddrInfo): DiskInfo {
    DiskInfo(info.addr, info.services, info.time, info.source, info.lastSuccess, info.attempts)
  }

  function Reloaded(d: DiskInfo, inTried: bool, pos: nat): AddrInfo {
    AddrInfo(d.addr, d.services, d.time, d.source, 0, 0, d.lastSuccess, d.attempts, 0, inTried, pos)
  }

  /** Exclusive or with 2^30, on two's complement integers. */
  function ToggleBit30(n: int): int {
    if (n / BIT30) % 2 == 0 then n + BIT30 else n - BIT30
  }

  lemma ToggleTwice(n: int)
    ensures ToggleBit30(ToggleBit30(n)) == n
  {
    if (n / BIT30) % 2 == 0 {
      assert (n + BIT30) / BIT30 == n / BIT30 + 1;
    } else {
      assert (n - BIT30) / BIT30 == n / BIT30 - 1;
    }
  }

  // ---- Loading, one value at a time ----

  function Empty(env: Env, key: nat): State {
    State(env, key, 0, map[], map[], [], map[], map[], 0, 0, map[])
  }

  function LoadedNew(st: State, d: DiskInfo): State {
    st.(idCount := st.idCount + 1,
        infos := st.infos[st.idCount := Reloaded(d, false, |st.random|)],
        addrs := st.addrs[d.addr := st.idCount],
        random := st.random + [st.idCount],
        nNew := st.nNew + 1,
        counts := Bump(st.counts, st.env.network(d.addr), 1, 0))
  }

  predicate CanSeat(st: State, d: DiskInfo) {
    st.env.valid(d.addr) && st.env.TriedSlot(st.key, d.addr) !in st.tried
  }

  /** A tried entry is lost when its address is invalid or its slot is taken. */
  function LoadedTried(st: State, d: DiskInfo): State {
    if !CanSeat(st, d) then st
    else
      st.(idCount := st.idCount + 1,
          infos := st.infos[st.idCount := Reloaded(d, true, |st.random|)],
          addrs := st.addrs[d.addr := st.idCount],
          random := st.random + [st.idCount],
          tried := st.tried[st.env.TriedSlot(st.key, d.addr) := st.idCount],
          nTried := st.nTried + 1,
          counts := Bump(st.counts, st.env.network(d.addr), 0, 1))
  }

  function LoadNew(st: State, ds: seq<DiskInfo>): State {
    if ds == [] then st else LoadedNew(LoadNew(st, ds[..|ds| - 1]), ds[|ds| - 1])
  }

  function LoadTried(st: State, ds: seq<DiskInfo>): State {
    if ds == [] then st else LoadedTried(LoadTried(st, ds[..|ds| - 1]), ds[|ds| - 1])
  }

  /** A new bucket and the number of an entry it holds. */
  datatype Ref = Ref(bucket: nat, index: nat)

  /** References of one bucket; numbers out of range are dropped. */
  function RowRefs(b: nat, row: seq<int>, nNew: int): seq<Ref> {
    if row == [] then []
    else
      var last := row[|row| - 1];
      RowRefs(b, row[..|row| - 1], nNew) + if 0 <= last < nNew then [Ref(b, last)] else []
  }

  function Refs(buckets: seq<seq<int>>, nNew: int): seq<Ref> {
    if buckets == [] then []
    else Refs(buckets[..|buckets| - 1], nNew) + RowRefs(|buckets| - 1, buckets[|buckets| - 1], nNew)
  }

  /**
    Give an entry the slot of its old bucket when that may be kept and is free, else the slot of its source if free.
   */
  function Seat(st: State, restore: bool, ref: Ref): State {
    if ref.index !in st.infos then st
    else
      var info := st.infos[ref.index];
      var s := st.env.NewSlot(st.key, info.addr, ref.bucket);
      var home := Home(st, ref.index);
      if !st.env.valid(info.addr) || info.refCount >= NEW_BUCKETS_PER_ADDRESS then st
      else if restore && s !in st.new_ then Taken(st, s, ref.index)
      else if home !in st.new_ then Taken(st, home, ref.index)
      else st
  }

  function SeatAll(st: State, restore: bool, refs: seq<Ref>): State {
    if refs == [] then st else Seat(SeatAll(st, restore, refs[..|refs| - 1]), restore, refs[|refs| - 1])
  }

  predicate Restores(file: File, asmap: nat) {
    && (if file.format >= 1 then ToggleBit30(file.nUBuckets) else file.nUBuckets) == NEW_BUCKET_COUNT
    && (if file.format >= 2 then file.asmap else 0) == asmap
  }

  function Entries(env: Env, file: File): State {
    LoadTried(LoadNew(Empty(env, file.key), file.newInfos), file.triedInfos)
  }

  /** The state before entries without a slot are pruned. */
  function Rebuilt(env: Env, asmap: nat, file: File): State {
    SeatAll(Entries(env, file), Restores(file, asmap), Refs(file.buckets, file.nNew))
  }

  // ---- What a saved state looks like ----

  /** A list of a set's elements, each once. */
  ghost predicate Enumerates(s: seq<Id>, ids: set<Id>) {
    && (forall i | 0 <= i < |s| :: s[i] in ids)
    && (forall i, j | 0 <= i < j < |s| :: s[i] != s[j])
    && (forall id | id in ids :: id in s)
  }

  lemma EnumerateNext(s: seq<Id>, ids: set<Id>, id: Id)
    requires Enumerates(s, ids) && id !in ids
    ensures Enumerates(s + [id], ids + {id})
  {
    forall x | x in ids + {id}
      ensures x in s + [id]
    {
      if x == id {
        assert (s + [id])[|s|] == id;
      }
    }
  }

  lemma {:induction false} EnumerateSize(s: seq<Id>, ids: set<Id>)
    requires Enumerates(s, ids)
    ensures |s| == |ids|
  {
    if s == [] {
      assert ids == {};
    } else {
      var last := s[|s| - 1];
      var rest := ids - {last};
      forall id | id in rest
        ensures id in s[..|s| - 1]
      {
        assert id in s;
      }
      EnumerateSize(s[..|s| - 1], rest);
    }
  }

  ghost function Ids(st: State, inTried: bool): set<Id> {
    set id | id in st.infos && st.infos[id].inTried == inTried
  }

  /** The entry numbers of a bucket's first `i` slots. */
  function Row(new_: Table, index: map<Id, nat>, b: nat, i: nat): seq<int>
    requires forall s | s in new_ :: new_[s] in index
  {
    if i == 0 then []
    else Row(new_, index, b, i - 1) + if Slot(b, i - 1) in new_ then [index[new_[Slot(b, i - 1)]]] else []
  }

  /** The file holds the state, with its entries in the order of `newIds` and `triedIds`. */
  ghost predicate Layout(st: State, asmap: nat, file: File, newIds: seq<Id>, triedIds: seq<Id>, index: map<Id, nat>) {
    && file.format == FILE_FORMAT && file.compat == INCOMPATIBILITY_BASE + FILE_FORMAT
    && file.key == st.key && file.nNew == st.nNew && file.nTried == st.nTried
    && file.nUBuckets == ToggleBit30(NEW_BUCKET_COUNT) && file.asmap == asmap
    && Enumerates(newIds, Ids(st, false)) && Enumerates(triedIds, Ids(st, true))
    && |file.newInfos| == |newIds| &&
      (forall k | 0 <= k < |newIds| :: newIds[k] in st.infos && file.newInfos[k] == Disk(st.infos[newIds[k]]))
    && |file.triedInfos| == |triedIds| &&
      (forall k | 0 <= k < |triedIds| :: triedIds[k] in st.infos && file.triedInfos[k] == Disk(st.infos[triedIds[k]]))
    && (forall k | 0 <= k < |newIds| :: newIds[k] in index && index[newIds[k]] == k)
    && (forall s | s in st.new_ :: st.new_[s] in index)
    && |file.buckets| == NEW_BUCKET_COUNT
    && (forall b | 0 <= b < NEW_BUCKET_COUNT :: file.buckets[b] == Row(st.new_, index, b, BUCKET_SIZE))
  }

  ghost predicate IsFileOf(st: State, asmap: nat, file: File) {
    exists newIds, triedIds, index :: Layout(st, asmap, file, newIds, triedIds, index)
  }

  // ---- The copy, part by part ----

  /** The first `n` of `ids` are loaded, each under its number, with the references of the slots before (b, i). */
  ghost predicate CopyInfos(st: State, st': State, ids: seq<Id>, n: nat, b: nat, i: nat) {
    && n <= |ids| && (forall k | 0 <= k < |ids| :: ids[k] in st.infos)
    && st'.env == st.env && st'.key == st.key && st'.idCount == n && |st'.random| == n
    && (forall k: nat :: k in st'.infos <==> k < n)
    && (forall k: nat | k < n :: st'.infos[k] == CopyOf(st.infos[ids[k]], k).(refCount := Visits(st, ids[k], b, i)))
  }

  function CopyOf(info: AddrInfo, k: nat): AddrInfo {
    Reloaded(Disk(info), info.inTried, k)
  }

  /** The new slots before (b, i) hold their entries' numbers. */
  ghost predicate CopyNew(new_: Table, new': Table, ids: seq<Id>, n: nat, b: nat, i: nat) {
    && (forall s :: s in new' <==> s in new_ && Before(s, b, i))
    && (forall s | s in new' :: new'[s] < n <= |ids| && ids[new'[s]] == new_[s])
  }

  /** The tried slots of the entries loaded hold their numbers. */
  ghost predicate CopyTried(st: State, tried': Table, ids: seq<Id>, n: nat) {
    && n <= |ids|
    && (forall s | s in tried' :: s in st.tried && tried'[s] < n && ids[tried'[s]] == st.tried[s])
    && (forall k: nat | k < n && ids[k] in st.infos && st.infos[ids[k]].inTried ::
          var t := st.env.TriedSlot(st.key, st.infos[ids[k]].addr); t in tried' && tried'[t] == k)
  }

  ghost predicate Copy(st: State, st': State, ids: seq<Id>, n: nat, b: nat, i: nat) {
    && CopyInfos(st, st', ids, n, b, i)
    && CopyNew(st.new_, st'.new_, ids, n, b, i)
    && CopyTried(st, st'.tried, ids, n)
  }

  /** New entries that hold no slot. */
  ghost function Zeros(st: State): set<Id> {
    set id | id in st.infos && !st.infos[id].inTried && st.infos[id].refCount == 0
  }

  lemma ZeroIsZeros(st: State, zero: set<Id>)
    requires Ok(st, {}, zero)
    ensures zero == Zeros(st)
  {
    hide Indexed, TriedOk, CountsOk, EntriesOk, SlotsOf;
  }

  lemma CopyBegins(st: State, ids: seq<Id>)
    requires Ok(st, {}, {}) && forall k | 0 <= k < |ids| :: ids[k] in st.infos
    ensures Copy(st, Empty(st.env, st.key), ids, 0, 0, 0)
    ensures Ok(Empty(st.env, st.key), {}, Zeros(Empty(st.env, st.key)))
  {
    hide Indexed, TriedOk, NewOk, CountsOk, EntriesOk, Visits;
    EmptyIsOk(st.env, st.key);
    ZeroIsZeros(Empty(st.env, st.key), {});
  }

  lemma EmptyIsOk(env: Env, key: nat)
    requires key != 0
    ensures Ok(Empty(env, key), {}, {})
  {
    var st := Empty(env, key);
    assert Indexed(st.infos, st.addrs, st.random, st.idCount);
    forall inTried, net
      ensures Tally(env, st.infos, {}, inTried, net) == 0
    {
      assert (set id | id in st.infos && Counts1(env, st.infos, {}, id, inTried, net)) == {};
    }
  }

  /** An entry not yet loaded has an address not yet in the index. */
  lemma AddressIsFree(st: State, st': State, ids: seq<Id>, n: nat)
    requires Ok(st, {}, {}) && Copy(st, st', ids, n, 0, 0) && Ok(st', {}, Zeros(st')) && n < |ids|
    requires forall j, k | 0 <= j < k < |ids| :: ids[j] != ids[k]
    ensures ids[n] in st.infos && st.infos[ids[n]].addr !in st'.addrs
    ensures st.env.valid(st.infos[ids[n]].addr) && st.infos[ids[n]].lastSuccess >= 0
    ensures Visits(st, ids[n], 0, 0) == 0
  {
    hide TriedOk, NewOk, CountsOk, SlotsOf, Zeros, Visits, CopyNew, CopyTried;
    var a := st.infos[ids[n]].addr;
    forall k: nat | k < n
      ensures k in st'.infos && st'.infos[k].addr != a
    {
      assert st.addrs[st.infos[ids[k]].addr] == ids[k] && ids[k] != ids[n];
    }
    NoVisits(st, ids[n]);
  }

  lemma NoVisits(st: State, id: Id)
    ensures Visits(st, id, 0, 0) == 0
  {
    assert (set r | r in st.new_ && st.new_[r] == id && Before(r, 0, 0)) == {};
  }

  lemma LoadedNewIs(st: State, d: DiskInfo)
    ensures LoadedNew(st, d) ==
      Touched(Inserted(st, Address(d.addr, d.services, d.time), d.source), st.idCount, Reloaded(d, false, |st.random|))
  {
  }

  lemma LoadNewStep(st: State, st': State, ids: seq<Id>, n: nat)
    requires Ok(st, {}, {}) && Copy(st, st', ids, n, 0, 0) && Ok(st', {}, Zeros(st')) && n < |ids|
    requires forall j, k | 0 <= j < k < |ids| :: ids[j] != ids[k]
    requires !st.infos[ids[n]].inTried
    ensures
      var st'' := LoadedNew(st', Disk(st.infos[ids[n]]));
      Copy(st, st'', ids, n + 1, 0, 0) && Ok(st'', {}, Zeros(st'')) && st''.nTried == st'.nTried
  {
    hide Ok, Zeros, Copy;
    AddressIsFree(st, st', ids, n);
    var d := Disk(st.infos[ids[n]]);
    var addr := Address(d.addr, d.services, d.time);
    SameEnv(st, st', ids, n);
    InsertKeeps(st', {}, Zeros(st'), addr, d.source);
    LoadedNewIs(st', d);
    TouchKeeps(Inserted(st', addr, d.source), {}, Zeros(st') + {st'.idCount}, st'.idCount,
      Reloaded(d, false, |st'.random|));
    ZeroIsZeros(LoadedNew(st', d), Zeros(st') + {st'.idCount});
    CopyNewNext(st, st', ids, n);
  }

  lemma SameEnv(st: State, st': State, ids: seq<Id>, n: nat)
    requires Copy(st, st', ids, n, 0, 0)
    ensures st'.env == st.env && st'.key == st.key && st'.idCount == n
  {
  }

  lemma CopyNewNext(st: State, st': State, ids: seq<Id>, n: nat)
    requires Copy(st, st', ids, n, 0, 0) && n < |ids| && !st.infos[ids[n]].inTried && Visits(st, ids[n], 0, 0) == 0
    ensures Copy(st, LoadedNew(st', Disk(st.infos[ids[n]])), ids, n + 1, 0, 0)
  {
    hide Visits, CopyNew, CopyTried;
    CopyOthers(st, st', ids, n);
  }

  lemma CopyOthers(st: State, st': State, ids: seq<Id>, n: nat)
    requires CopyNew(st.new_, st'.new_, ids, n, 0, 0) && CopyTried(st, st'.tried, ids, n) && n < |ids|
    ensures CopyNew(st.new_, st'.new_, ids, n + 1, 0, 0)
    ensures ids[n] in st.infos && !st.infos[ids[n]].inTried ==> CopyTried(st, st'.tried, ids, n + 1)
  {
  }

  lemma BumpThrice(counts: map<Network, Counts>, net: Network)
    ensures Bump(Bump(Bump(counts, net, 1, 0), net, -1, 0), net, 0, 1) == Bump(counts, net, 0, 1)
  {
  }

  lemma LoadedTriedIs(st: State, d: DiskInfo)
    requires CanSeat(st, d)
    ensures
      var st1 := Inserted(st, Address(d.addr, d.services, d.time), d.source);
      LoadedTried(st, d) ==
        EnterTried(Touched(Uncounted(st1, st.idCount), st.idCount, Reloaded(d, false, |st.random|)), st.idCount)
  {
    hide CountOf;
    var info := Reloaded(d, false, |st.random|);
    var st2 := Touched(Uncounted(Inserted(st, Address(d.addr, d.services, d.time), d.source), st.idCount),
      st.idCount, info);
    assert st2.infos == st.infos[st.idCount := info];
    assert EnterTried(st2, st.idCount).infos == LoadedTried(st, d).infos;
    BumpThrice(st.counts, st.env.network(d.addr));
  }

  lemma LoadTriedStep(st: State, st': State, ids: seq<Id>, n: nat)
    requires Ok(st, {}, {}) && Copy(st, st', ids, n, 0, 0) && Ok(st', {}, Zeros(st')) && n < |ids|
    requires forall j, k | 0 <= j < k < |ids| :: ids[j] != ids[k]
    requires st.infos[ids[n]].inTried
    ensures
      var st'' := LoadedTried(st', Disk(st.infos[ids[n]]));
      Copy(st, st'', ids, n + 1, 0, 0) && Ok(st'', {}, Zeros(st'')) && st''.nTried == st'.nTried + 1
  {
    hide Ok, Zeros, Copy;
    AddressIsFree(st, st', ids, n);
    var d := Disk(st.infos[ids[n]]);
    SeatIsFree(st, st', ids, n);
    SameEnv(st, st', ids, n);
    TriedLoadKeeps(st', d);
    CopyTriedNext(st, st', ids, n);
  }

  lemma TriedLoadKeeps(st: State, d: DiskInfo)
    requires Ok(st, {}, Zeros(st)) && CanSeat(st, d) && d.addr !in st.addrs && d.lastSuccess > 0
    ensures Ok(LoadedTried(st, d), {}, Zeros(LoadedTried(st, d)))
  {
    hide Ok, Zeros, Services;
    var addr, id := Address(d.addr, d.services, d.time), st.idCount;
    InsertKeeps(st, {}, Zeros(st), addr, d.source);
    var st1 := Inserted(st, addr, d.source);
    var zero := Zeros(st) + {id};
    UncountKeeps(st1, {}, zero, id);
    assert {} + {id} == {id};
    var st2 := Uncounted(st1, id);
    TouchKeeps(st2, {id}, zero, id, Reloaded(d, false, |st.random|));
    var st3 := Touched(st2, id, Reloaded(d, false, |st.random|));
    EnterTriedKeeps(st3, {id}, zero, id);
    assert {id} - {id} == {};
    LoadedTriedIs(st, d);
    ZeroIsZeros(LoadedTried(st, d), zero - {id});
  }

  lemma SeatIsFree(st: State, st': State, ids: seq<Id>, n: nat)
    requires Ok(st, {}, {}) && Copy(st, st', ids, n, 0, 0) && n < |ids| && st.infos[ids[n]].inTried
    requires forall j, k | 0 <= j < k < |ids| :: ids[j] != ids[k]
    ensures CanSeat(st', Disk(st.infos[ids[n]])) && st.infos[ids[n]].lastSuccess > 0
  {
    hide Indexed, NewOk, CountsOk, Visits;
    var t := st.env.TriedSlot(st.key, st.infos[ids[n]].addr);
    assert st.tried[t] == ids[n];
    assert forall k: nat | k < n :: ids[k] != ids[n];
  }

  lemma CopyTriedNext(st: State, st': State, ids: seq<Id>, n: nat)
    requires Ok(st, {}, {}) && Copy(st, st', ids, n, 0, 0) && n < |ids| && st.infos[ids[n]].inTried
    requires CanSeat(st', Disk(st.infos[ids[n]])) && Visits(st, ids[n], 0, 0) == 0
    ensures Copy(st, LoadedTried(st', Disk(st.infos[ids[n]])), ids, n + 1, 0, 0)
  {
    hide Ok, Visits, CopyNew, CopyTried;
    CopyOthers(st, st', ids, n);
    CopySeated(st, st'.tried, ids, n);
  }

  lemma CopySeated(st: State, tried': Table, ids: seq<Id>, n: nat)
    requires Ok(st, {}, {}) && CopyTried(st, tried', ids, n) && n < |ids| && ids[n] in st.infos
    requires st.infos[ids[n]].inTried
    requires st.env.TriedSlot(st.key, st.infos[ids[n]].addr) !in tried'
    ensures CopyTried(st, tried'[st.env.TriedSlot(st.key, st.infos[ids[n]].addr) := n], ids, n + 1)
  {
    hide Indexed, NewOk, CountsOk, EntriesOk;
  }

  // ---- Slots ----

  lemma SeatStep(st: State, st': State, ids: seq<Id>, s: Slot, k: nat)
    requires Ok(st, {}, {}) && Copy(st, st', ids, |ids|, s.bucket, s.pos) && Ok(st', {}, Zeros(st'))
    requires s in st.new_ && k < |ids| && ids[k] == st.new_[s]
    requires forall i, j | 0 <= i < j < |ids| :: ids[i] != ids[j]
    ensures Copy(st, Seat(st', true, Ref(s.bucket, k)), ids, |ids|, s.bucket, s.pos + 1)
    ensures var st'' := Seat(st', true, Ref(s.bucket, k)); Ok(st'', {}, Zeros(st''))
  {
    hide Ok, Zeros, Services, Visits;
    SlotFacts(st, s);
    TakeKeeps(st', {}, Zeros(st'), s, k);
    ZeroIsZeros(Taken(st', s, k), Zeros(st') - {k});
    CopySeatNext(st, st', ids, s, k);
  }

  /** The slot is the entry's own in its bucket, and a visit before it leaves room for one more reference. */
  lemma SlotFacts(st: State, s: Slot)
    requires Ok(st, {}, {}) && s in st.new_
    ensures st.new_[s] in st.infos && !st.infos[st.new_[s]].inTried && st.env.valid(st.infos[st.new_[s]].addr)
    ensures s.bucket < NEW_BUCKET_COUNT && s == st.env.NewSlot(st.key, st.infos[st.new_[s]].addr, s.bucket)
    ensures Visits(st, st.new_[s], s.bucket, s.pos) < NEW_BUCKETS_PER_ADDRESS
  {
    hide Indexed, TriedOk, CountsOk, Visits, SlotsOf;
    var id := st.new_[s];
    VisitsNext(st, id, s);
    VisitsMonotone(st, id, s.bucket, s.pos + 1, NEW_BUCKET_COUNT, 0);
    RangesHold(st);
    VisitsEnds(st, id);
  }

  lemma CopySeatNext(st: State, st': State, ids: seq<Id>, s: Slot, k: nat)
    requires Copy(st, st', ids, |ids|, s.bucket, s.pos) && s in st.new_ && k < |ids| && ids[k] == st.new_[s]
    requires forall i, j | 0 <= i < j < |ids| :: ids[i] != ids[j]
    ensures Copy(st, Taken(st', s, k), ids, |ids|, s.bucket, s.pos + 1)
  {
    hide CopyInfos, CopyNew, CopyTried;
    SeatInfos(st, st', ids, s, k);
    SeatNew(st.new_, st'.new_, ids, s, k);
  }

  lemma SeatInfos(st: State, st': State, ids: seq<Id>, s: Slot, k: nat)
    requires CopyInfos(st, st', ids, |ids|, s.bucket, s.pos) && s in st.new_ && k < |ids| && ids[k] == st.new_[s]
    requires forall i, j | 0 <= i < j < |ids| :: ids[i] != ids[j]
    ensures k in st'.infos && CopyInfos(st, Taken(st', s, k), ids, |ids|, s.bucket, s.pos + 1)
  {
    hide Visits;
    forall j: nat | j < |ids|
      ensures Visits(st, ids[j], s.bucket, s.pos + 1) == Visits(st, ids[j], s.bucket, s.pos) + One(j == k)
    {
      VisitsNext(st, ids[j], s);
    }
  }

  lemma SeatNew(new_: Table, new': Table, ids: seq<Id>, s: Slot, k: nat)
    requires CopyNew(new_, new', ids, |ids|, s.bucket, s.pos) && s in new_ && k < |ids| && ids[k] == new_[s]
    ensures CopyNew(new_, new'[s := k], ids, |ids|, s.bucket, s.pos + 1)
  {
  }

  lemma CopySkip(st: State, st': State, ids: seq<Id>, s: Slot)
    requires Copy(st, st', ids, |ids|, s.bucket, s.pos) && s !in st.new_
    ensures Copy(st, st', ids, |ids|, s.bucket, s.pos + 1)
  {
    hide Visits;
    forall j: nat | j < |ids|
      ensures Visits(st, ids[j], s.bucket, s.pos + 1) == Visits(st, ids[j], s.bucket, s.pos)
    {
      VisitsNext(st, ids[j], s);
    }
  }

  lemma CopyRow(st: State, st': State, ids: seq<Id>, b: nat)
    requires Copy(st, st', ids, |ids|, b, BUCKET_SIZE) && InRange(st)
    ensures Copy(st, st', ids, |ids|, b + 1, 0)
  {
    hide Visits;
    forall j: nat | j < |ids|
      ensures Visits(st, ids[j], b + 1, 0) == Visits(st, ids[j], b, BUCKET_SIZE)
    {
      VisitsRow(st, ids[j], b);
    }
  }

  // ---- Loading a saved state ----

  lemma {:induction false} NewLoads(st: State, asmap: nat, file: File, newIds: seq<Id>, triedIds: seq<Id>,
                                    index: map<Id, nat>, n: nat)
    requires Ok(st, {}, {}) && Layout(st, asmap, file, newIds, triedIds, index) && n <= |newIds|
    ensures
      var st' := LoadNew(Empty(st.env, st.key), file.newInfos[..n]);
      Copy(st, st', newIds + triedIds, n, 0, 0) && Ok(st', {}, Zeros(st')) && st'.nTried == 0
  {
    hide Ok, Copy, Zeros, Enumerates, Row, LoadedNew;
    IdsDistinct(st, asmap, file, newIds, triedIds, index);
    if n == 0 {
      CopyBegins(st, newIds + triedIds);
    } else {
      NewLoads(st, asmap, file, newIds, triedIds, index, n - 1);
      assert file.newInfos[..n][..n - 1] == file.newInfos[..n - 1];
      LoadNewStep(st, LoadNew(Empty(st.env, st.key), file.newInfos[..n - 1]), newIds + triedIds, n - 1);
    }
  }

  lemma IdsDistinct(st: State, asmap: nat, file: File, newIds: seq<Id>, triedIds: seq<Id>, index: map<Id, nat>)
    requires Layout(st, asmap, file, newIds, triedIds, index)
    ensures forall j, k | 0 <= j < k < |newIds + triedIds| :: (newIds + triedIds)[j] != (newIds + triedIds)[k]
    ensures forall k | 0 <= k < |newIds + triedIds| :: (newIds + triedIds)[k] in st.infos
    ensures forall k | 0 <= k < |newIds| :: !st.infos[newIds[k]].inTried
    ensures forall k | 0 <= k < |triedIds| :: st.infos[triedIds[k]].inTried
    ensures forall id | id in st.infos :: id in newIds + triedIds
  {
    hide Row;
    forall k | 0 <= k < |newIds|
      ensures !st.infos[newIds[k]].inTried
    {
      assert newIds[k] in Ids(st, false);
    }
    forall k | 0 <= k < |triedIds|
      ensures st.infos[triedIds[k]].inTried
    {
      assert triedIds[k] in Ids(st, true);
    }
    forall id | id in st.infos
      ensures id in newIds + triedIds
    {
      assert id in Ids(st, st.infos[id].inTried);
    }
  }

  lemma {:induction false} TriedLoads(st: State, asmap: nat, file: File, newIds: seq<Id>, triedIds: seq<Id>,
                                      index: map<Id, nat>, n: nat)
    requires Ok(st, {}, {}) && Layout(st, asmap, file, newIds, triedIds, index) && n <= |triedIds|
    ensures
      var st' := LoadTried(LoadNew(Empty(st.env, st.key), file.newInfos), file.triedInfos[..n]);
      Copy(st, st', newIds + triedIds, |newIds| + n, 0, 0) && Ok(st', {}, Zeros(st')) && st'.nTried == n
  {
    hide Ok, Copy, Zeros, Enumerates, Row, LoadNew, LoadedTried;
    IdsDistinct(st, asmap, file, newIds, triedIds, index);
    var st1 := LoadNew(Empty(st.env, st.key), file.newInfos);
    if n == 0 {
      assert file.newInfos[..|newIds|] == file.newInfos;
      NewLoads(st, asmap, file, newIds, triedIds, index, |newIds|);
    } else {
      TriedLoads(st, asmap, file, newIds, triedIds, index, n - 1);
      assert file.triedInfos[..n][..n - 1] == file.triedInfos[..n - 1];
      LoadTriedStep(st, LoadTried(st1, file.triedInfos[..n - 1]), newIds + triedIds, |newIds| + n - 1);
    }
  }

  /** Everything seated up to slot (b, i). */
  lemma {:induction false} SlotsLoad(st: State, asmap: nat, file: File, newIds: seq<Id>, triedIds: seq<Id>,
                                     index: map<Id, nat>, b: nat, i: nat)
    requires Ok(st, {}, {}) && Layout(st, asmap, file, newIds, triedIds, index)
    requires b <= NEW_BUCKET_COUNT && i <= BUCKET_SIZE
    ensures
      var refs := Refs(file.buckets[..b], file.nNew) + RowRefs(b, Row(st.new_, index, b, i), file.nNew);
      var st' := SeatAll(Entries(st.env, file), true, refs);
      Copy(st, st', newIds + triedIds, |newIds + triedIds|, b, i) && Ok(st', {}, Zeros(st'))
    decreases b, i
  {
    hide Ok, Copy, Zeros, Enumerates, Visits, SeatAll, Refs, RowRefs, Row, Entries;
    if i > 0 {
      SlotsLoad(st, asmap, file, newIds, triedIds, index, b, i - 1);
      SlotLoads(st, asmap, file, newIds, triedIds, index, Slot(b, i - 1));
    } else if b > 0 {
      SlotsLoad(st, asmap, file, newIds, triedIds, index, b - 1, BUCKET_SIZE);
      RowDone(st, asmap, file, newIds, triedIds, index, b - 1);
    } else {
      SlotsBegin(st, asmap, file, newIds, triedIds, index);
    }
  }

  lemma SlotsBegin(st: State, asmap: nat, file: File, newIds: seq<Id>, triedIds: seq<Id>, index: map<Id, nat>)
    requires Ok(st, {}, {}) && Layout(st, asmap, file, newIds, triedIds, index)
    ensures
      var refs := Refs(file.buckets[..0], file.nNew) + RowRefs(0, Row(st.new_, index, 0, 0), file.nNew);
      var st' := SeatAll(Entries(st.env, file), true, refs);
      Copy(st, st', newIds + triedIds, |newIds + triedIds|, 0, 0) && Ok(st', {}, Zeros(st'))
  {
    hide Ok, Copy, Zeros, Enumerates, Visits, Seat, LoadNew, LoadTried;
    assert file.triedInfos[..|triedIds|] == file.triedInfos;
    TriedLoads(st, asmap, file, newIds, triedIds, index, |triedIds|);
  }

  lemma RowDone(st: State, asmap: nat, file: File, newIds: seq<Id>, triedIds: seq<Id>, index: map<Id, nat>, b: nat)
    requires Ok(st, {}, {}) && Layout(st, asmap, file, newIds, triedIds, index) && b < NEW_BUCKET_COUNT
    requires
      var refs := Refs(file.buckets[..b], file.nNew) + RowRefs(b, Row(st.new_, index, b, BUCKET_SIZE), file.nNew);
      Copy(st, SeatAll(Entries(st.env, file), true, refs), newIds + triedIds, |newIds + triedIds|, b, BUCKET_SIZE)
    ensures
      var refs := Refs(file.buckets[..b], file.nNew) + RowRefs(b, Row(st.new_, index, b, BUCKET_SIZE), file.nNew);
      var refs' := Refs(file.buckets[..b + 1], file.nNew) + RowRefs(b + 1, Row(st.new_, index, b + 1, 0), file.nNew);
      && refs' == refs
      && Copy(st, SeatAll(Entries(st.env, file), true, refs'), newIds + triedIds, |newIds + triedIds|, b + 1, 0)
  {
    hide Indexed, TriedOk, NewOk, CountsOk, EntriesOk, Copy, Enumerates, Visits, Seat;
    var refs := Refs(file.buckets[..b], file.nNew) + RowRefs(b, Row(st.new_, index, b, BUCKET_SIZE), file.nNew);
    assert file.buckets[..b + 1][..b] == file.buckets[..b];
    RangesHold(st);
    CopyRow(st, SeatAll(Entries(st.env, file), true, refs), newIds + triedIds, b);
  }

  lemma SeatOneMore(st: State, before: seq<Ref>, b: nat, row: seq<int>, k: nat, nNew: int)
    requires k < nNew
    ensures SeatAll(st, true, before + RowRefs(b, row + [k], nNew)) ==
            Seat(SeatAll(st, true, before + RowRefs(b, row, nNew)), true, Ref(b, k))
  {
    hide Seat;
    var refs, refs' := before + RowRefs(b, row, nNew), before + RowRefs(b, row + [k], nNew);
    assert (row + [k])[..|row|] == row;
    assert refs' == refs + [Ref(b, k)];
    assert refs'[..|refs|] == refs;
  }

  lemma SlotLoads(st: State, asmap: nat, file: File, newIds: seq<Id>, triedIds: seq<Id>, index: map<Id, nat>, s: Slot)
    requires Ok(st, {}, {}) && Layout(st, asmap, file, newIds, triedIds, index) && s.bucket <= NEW_BUCKET_COUNT
    requires
      var refs := Refs(file.buckets[..s.bucket], file.nNew) +
        RowRefs(s.bucket, Row(st.new_, index, s.bucket, s.pos), file.nNew);
      var st' := SeatAll(Entries(st.env, file), true, refs);
      Copy(st, st', newIds + triedIds, |newIds + triedIds|, s.bucket, s.pos) && Ok(st', {}, Zeros(st'))
    ensures
      var refs := Refs(file.buckets[..s.bucket], file.nNew) +
        RowRefs(s.bucket, Row(st.new_, index, s.bucket, s.pos + 1), file.nNew);
      var st' := SeatAll(Entries(st.env, file), true, refs);
      Copy(st, st', newIds + triedIds, |newIds + triedIds|, s.bucket, s.pos + 1) && Ok(st', {}, Zeros(st'))
  {
    hide Ok, Copy, Zeros, Enumerates, Visits, SeatAll, Seat, Entries, Refs, RowRefs;
    var b, ids := s.bucket, newIds + triedIds;
    var before := Refs(file.buckets[..b], file.nNew);
    var row, row' := Row(st.new_, index, b, s.pos), Row(st.new_, index, b, s.pos + 1);
    var refs := before + RowRefs(b, row, file.nNew);
    var st' := SeatAll(Entries(st.env, file), true, refs);
    if s in st.new_ {
      IndexFacts(st, asmap, file, newIds, triedIds, index, s);
      IdsDistinct(st, asmap, file, newIds, triedIds, index);
      var k := index[st.new_[s]];
      SeatStep(st, st', ids, s, k);
      assert row' == row + [k];
      SeatOneMore(Entries(st.env, file), before, b, row, k, file.nNew);
    } else {
      assert row' == row;
      CopySkip(st, st', ids, s);
    }
  }

  lemma IndexFacts(st: State, asmap: nat, file: File, newIds: seq<Id>, triedIds: seq<Id>, index: map<Id, nat>, s: Slot)
    requires Ok(st, {}, {}) && Layout(st, asmap, file, newIds, triedIds, index) && s in st.new_
    ensures 0 <= index[st.new_[s]] < |newIds| == file.nNew && newIds[index[st.new_[s]]] == st.new_[s]
  {
    hide Row, Visits;
    SlotFacts(st, s);
    NewCount(st, newIds);
    assert st.new_[s] in Ids(st, false);
    var k :| 0 <= k < |newIds| && newIds[k] == st.new_[s];
  }

  lemma NewCount(st: State, newIds: seq<Id>)
    requires Ok(st, {}, {}) && Enumerates(newIds, Ids(st, false))
    ensures |newIds| == st.nNew
  {
    hide Indexed, TriedOk, NewOk, EntriesOk, Enumerates;
    EnumerateSize(newIds, Ids(st, false));
    assert Ids(st, false) == set id | id in st.infos && Counts1(st.env, st.infos, {}, id, false, None);
  }

  lemma TriedCount(st: State, triedIds: seq<Id>)
    requires Ok(st, {}, {}) && Enumerates(triedIds, Ids(st, true))
    ensures |triedIds| == st.nTried
  {
    hide Indexed, TriedOk, NewOk, EntriesOk, Enumerates;
    EnumerateSize(triedIds, Ids(st, true));
    assert Ids(st, true) == set id | id in st.infos && Counts1(st.env, st.infos, {}, id, true, None);
  }

  /**
    The loaded state is the saved one with its ids renumbered: the same entries with the same
    reference counts, in the same slots of both tables.
   */
  ghost predicate Renumbered(st: State, st': State, ids: seq<Id>) {
    && st'.env == st.env && st'.key == st.key && st'.idCount == |ids|
    && Enumerates(ids, st.infos.Keys)
    && (forall k: nat :: k in st'.infos <==> k < |ids|)
    && (forall k: nat | k < |ids| ::
          var info := st.infos[ids[k]];
          st'.infos[k] == info.(lastTry := 0, lastCountAttempt := 0, randomPos := k))
    && st'.new_.Keys == st.new_.Keys &&
      (forall s | s in st.new_ :: st'.new_[s] < |ids| && ids[st'.new_[s]] == st.new_[s])
    && st'.tried.Keys == st.tried.Keys &&
      (forall s | s in st.tried :: st'.tried[s] < |ids| && ids[st'.tried[s]] == st.tried[s])
  }

  lemma CopyEnds(st: State, st': State, ids: seq<Id>)
    requires Ok(st, {}, {}) && Copy(st, st', ids, |ids|, NEW_BUCKET_COUNT, 0) && Enumerates(ids, st.infos.Keys)
    ensures Renumbered(st, st', ids)
  {
    hide Indexed, TriedOk, NewOk, CountsOk, EntriesOk, CopyInfos, CopyNew, CopyTried, Enumerates;
    RangesHold(st);
    InfosEnd(st, st', ids);
    NewEnd(st, st'.new_, ids);
    TriedEnd(st, st'.tried, ids);
  }

  lemma NewEnd(st: State, new': Table, ids: seq<Id>)
    requires InRange(st) && CopyNew(st.new_, new', ids, |ids|, NEW_BUCKET_COUNT, 0)
    ensures new'.Keys == st.new_.Keys && forall s | s in st.new_ :: new'[s] < |ids| && ids[new'[s]] == st.new_[s]
  {
  }

  lemma TriedEnd(st: State, tried': Table, ids: seq<Id>)
    requires TriedOk(st.env, st.key, st.infos, st.tried) && CopyTried(st, tried', ids, |ids|)
    requires Enumerates(ids, st.infos.Keys)
    ensures tried'.Keys == st.tried.Keys
    ensures forall s | s in st.tried :: tried'[s] < |ids| && ids[tried'[s]] == st.tried[s]
  {
    forall s | s in st.tried
      ensures s in tried'
    {
      assert st.tried[s] in ids;
      var k: nat :| k < |ids| && ids[k] == st.tried[s];
    }
  }

  lemma InfosEnd(st: State, st': State, ids: seq<Id>)
    requires Ok(st, {}, {}) && InRange(st) && CopyInfos(st, st', ids, |ids|, NEW_BUCKET_COUNT, 0)
    ensures st'.env == st.env && st'.key == st.key && st'.idCount == |ids|
    ensures forall k: nat :: k in st'.infos <==> k < |ids|
    ensures forall k: nat | k < |ids| ::
      (ids[k] in st.infos && st'.infos[k] == st.infos[ids[k]].(lastTry := 0, lastCountAttempt := 0, randomPos := k))
  {
    hide Ok, Visits, SlotsOf, InRange;
    forall k: nat | k < |ids|
      ensures Visits(st, ids[k], NEW_BUCKET_COUNT, 0) == st.infos[ids[k]].refCount
    {
      VisitsEnds(st, ids[k]);
      HoldsReferences(st, ids[k]);
    }
  }

  lemma HoldsReferences(st: State, id: Id)
    requires Ok(st, {}, {}) && id in st.infos
    ensures |SlotsOf(st.new_, id)| == st.infos[id].refCount
  {
    hide Indexed, CountsOk, EntriesOk;
    if st.infos[id].inTried {
      assert SlotsOf(st.new_, id) == {};
    }
  }

  lemma RenumberedViews(st: State, st': State, ids: seq<Id>)
    requires Ok(st, {}, {}) && Renumbered(st, st', ids)
    ensures st'.NewView() == st.NewView() && st'.TriedView() == st.TriedView()
    ensures Zeros(st') == {}
  {
    hide Ok;
    RenumberedTable(st.new_, st'.new_, st.infos, st'.infos, ids);
    RenumberedTable(st.tried, st'.tried, st.infos, st'.infos, ids);
    forall k: nat | k < |ids|
      ensures st'.infos[k].inTried || st'.infos[k].refCount != 0
    {
      EntryFacts(st, {}, {}, ids[k]);
    }
  }

  lemma RenumberedTable(table: Table, table': Table, infos: Infos, infos': Infos, ids: seq<Id>)
    requires forall k: nat | k < |ids| :: ids[k] in infos && k in infos' && infos'[k].addr == infos[ids[k]].addr
    requires table'.Keys == table.Keys && forall s | s in table :: table'[s] < |ids| && ids[table'[s]] == table[s]
    ensures Services(table', infos') == Services(table, infos)
  {
  }

  /** Loading a saved state, with the same bucketing, rebuilds it exactly and loses nothing. */
  lemma RoundTrip(st: State, asmap: nat, file: File, newIds: seq<Id>, triedIds: seq<Id>, index: map<Id, nat>)
    requires Ok(st, {}, {}) && Layout(st, asmap, file, newIds, triedIds, index)
    ensures
      var st' := Rebuilt(st.env, asmap, file);
      && Restores(file, asmap) && Renumbered(st, st', newIds + triedIds) && Ok(st', {}, {})
      && st'.NewView() == st.NewView() && st'.TriedView() == st.TriedView() && Zeros(st') == {}
    ensures file.nNew == |newIds| && file.nTried == |triedIds|
  {
    hide Ok, Copy, Zeros, Visits, Seat, Services, Renumbered;
    ToggleTwice(NEW_BUCKET_COUNT);
    SlotsLoad(st, asmap, file, newIds, triedIds, index, NEW_BUCKET_COUNT, 0);
    assert file.buckets[..NEW_BUCKET_COUNT] == file.buckets;
    var refs := Refs(file.buckets, file.nNew);
    assert refs + [] == refs;
    IdsDistinct(st, asmap, file, newIds, triedIds, index);
    CopyEnds(st, Rebuilt(st.env, asmap, file), newIds + triedIds);
    RenumberedViews(st, Rebuilt(st.env, asmap, file), newIds + triedIds);
    NewCount(st, newIds);
    TriedCount(st, triedIds);
  }

  // ---- The counts fit the tables ----

  lemma {:induction false} RowBound(slots: set<Slot>, b: nat, n: nat)
    requires forall s | s in slots :: s.bucket == b && s.pos < n
    ensures |slots| <= n
  {
    if n == 0 {
      assert slots == {};
    } else {
      var rest := slots - {Slot(b, n - 1)};
      RowBound(rest, b, n - 1);
    }
  }

  lemma {:induction false} TableBound(slots: set<Slot>, n: nat)
    requires forall s | s in slots :: s.bucket < n && s.pos < BUCKET_SIZE
    ensures |slots| <= n * BUCKET_SIZE
  {
    if n == 0 {
      assert slots == {};
    } else {
      var last := set s | s in slots && s.bucket == n - 1;
      RowBound(last, n - 1, BUCKET_SIZE);
      TableBound(slots - last, n - 1);
      assert slots == (slots - last) + last;
    }
  }

  /** Each id holds a slot of its own, so there are no more ids than slots. */
  lemma {:induction false} HolderBound(table: Table, ids: set<Id>)
    requires forall id | id in ids :: SlotsOf(table, id) != {}
    ensures |ids| <= |table.Keys|
  {
    if ids != {} {
      var id :| id in ids;
      var held := SlotsOf(table, id);
      var rest := table - held;
      forall j | j in ids - {id}
        ensures SlotsOf(rest, j) != {}
      {
        var s :| s in SlotsOf(table, j);
        assert s in SlotsOf(rest, j);
      }
      HolderBound(rest, ids - {id});
      assert rest.Keys == table.Keys - held && held <= table.Keys;
      assert |held| > 0;
      assert table.Keys == rest.Keys + held;
    }
  }

  lemma CountsFit(st: State)
    requires Ok(st, {}, {})
    ensures 0 <= st.nNew <= NEW_BUCKET_COUNT * BUCKET_SIZE && 0 <= st.nTried <= TRIED_BUCKET_COUNT * BUCKET_SIZE
  {
    hide Indexed, TriedOk, NewOk, EntriesOk, SlotsOf, InRange;
    RangesHold(st);
    TablesFit(st);
    assert Ids(st, false) == set id | id in st.infos && Counts1(st.env, st.infos, {}, id, false, None);
    assert Ids(st, true) == set id | id in st.infos && Counts1(st.env, st.infos, {}, id, true, None);
    Holders(st);
    HolderBound(st.new_, Ids(st, false));
    HolderBound(st.tried, Ids(st, true));
  }

  lemma TablesFit(st: State)
    requires InRange(st)
    ensures |st.new_.Keys| <= NEW_BUCKET_COUNT * BUCKET_SIZE && |st.tried.Keys| <= TRIED_BUCKET_COUNT * BUCKET_SIZE
  {
    TableBound(st.new_.Keys, NEW_BUCKET_COUNT);
    TableBound(st.tried.Keys, TRIED_BUCKET_COUNT);
  }

  lemma Holders(st: State)
    requires TriedOk(st.env, st.key, st.infos, st.tried) && NewOk(st.env, st.key, st.infos, st.new_, {})
    ensures forall id | id in Ids(st, false) :: SlotsOf(st.new_, id) != {}
    ensures forall id | id in Ids(st, true) :: SlotsOf(st.tried, id) != {}
  {
    forall id | id in Ids(st, true)
      ensures SlotsOf(st.tried, id) != {}
    {
      assert st.env.TriedSlot(st.key, st.infos[id].addr) in SlotsOf(st.tried, id);
    }
  }
}
