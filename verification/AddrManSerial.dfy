/** Saving the address manager and loading it again. */
module AddrManSerial {
  import opened Wrappers
  import opened AddrManModel
  import opened AddrManCore
  import opened AddrManCheck
  import opened AddrManFile

  // ---- Saving ----

  ghost function Seen(st: State, todo: set<Id>, inTried: bool): set<Id> {
    set id | id in st.infos && id !in todo && st.infos[id].inTried == inTried
  }

  lemma SeenNext(st: State, todo: set<Id>, id: Id, inTried: bool)
    requires id in todo && id in st.infos
    ensures Seen(st, todo - {id}, inTried) ==
      if st.infos[id].inTried == inTried then Seen(st, todo, inTried) + {id} else Seen(st, todo, inTried)
    ensures id !in Seen(st, todo, inTried)
  {
  }

  /** Entries still to come are not yet counted, so the count of those written stays below the total. */
  lemma RoomLeft(st: State, todo: set<Id>, id: Id, inTried: bool, written: seq<Id>)
    requires Ok(st, {}, {}) && id in todo && id in st.infos && st.infos[id].inTried == inTried
    requires Enumerates(written, Seen(st, todo, inTried))
    ensures |written| < if inTried then st.nTried else st.nNew
  {
    hide Indexed, TriedOk, NewOk, EntriesOk, Enumerates;
    var seen := Seen(st, todo, inTried);
    EnumerateSize(written, seen);
    var whole := set j | j in st.infos && Counts1(st.env, st.infos, {}, j, inTried, None);
    assert seen + {id} <= whole;
    var rest := whole - (seen + {id});
    assert whole == seen + {id} + rest;
    assert id !in seen;
  }

  /** All entries of a kind, listed, are as many as the counter says. */
  lemma AllWritten(st: State, inTried: bool, written: seq<Id>)
    requires Ok(st, {}, {}) && Enumerates(written, Ids(st, inTried))
    ensures |written| == if inTried then st.nTried else st.nNew
  {
    hide Indexed, TriedOk, NewOk, EntriesOk, Enumerates;
    EnumerateSize(written, Ids(st, inTried));
    assert Ids(st, inTried) == set j | j in st.infos && Counts1(st.env, st.infos, {}, j, inTried, None);
  }

  method WriteNew(st: State) returns (infos: seq<DiskInfo>, index: map<Id, nat>, ghost ids: seq<Id>)
    requires Ok(st, {}, {})
    ensures Enumerates(ids, Ids(st, false)) && index.Keys == st.infos.Keys && |infos| == st.nNew
    ensures |infos| == |ids| && forall k | 0 <= k < |ids| :: ids[k] in st.infos && infos[k] == Disk(st.infos[ids[k]])
    ensures forall k | 0 <= k < |ids| :: ids[k] in index && index[ids[k]] == k
  {
    hide Ok, Enumerates;
    infos, index, ids := [], map[], [];
    var todo := st.infos.Keys;
    assert Seen(st, todo, false) == {};
    EnumerateNone();
    while todo != {}
      invariant todo <= st.infos.Keys && index.Keys == st.infos.Keys - todo
      invariant Enumerates(ids, Seen(st, todo, false)) && forall k | 0 <= k < |ids| :: ids[k] !in todo
      invariant |infos| == |ids|
      invariant forall k | 0 <= k < |ids| :: ids[k] in st.infos && infos[k] == Disk(st.infos[ids[k]])
      invariant forall k | 0 <= k < |ids| :: ids[k] in index && index[ids[k]] == k
    {
      var id :| id in todo;
      EntryFacts(st, {}, {}, id);
      SeenNext(st, todo, id, false);
      index := index[id := |infos|];
      if st.infos[id].refCount != 0 {
        RoomLeft(st, todo, id, false, ids);
        assert |infos| != st.nNew;
        EnumerateNext(ids, Seen(st, todo, false), id);
        infos := infos + [Disk(st.infos[id])];
        ids := ids + [id];
      }
      todo := todo - {id};
    }
    assert Seen(st, todo, false) == Ids(st, false);
    AllWritten(st, false, ids);
  }

  lemma EnumerateNone()
    ensures Enumerates([], {})
  {
  }

  method WriteTried(st: State) returns (infos: seq<DiskInfo>, ghost ids: seq<Id>)
    requires Ok(st, {}, {})
    ensures Enumerates(ids, Ids(st, true)) && |infos| == st.nTried
    ensures |infos| == |ids| && forall k | 0 <= k < |ids| :: ids[k] in st.infos && infos[k] == Disk(st.infos[ids[k]])
  {
    hide Ok, Enumerates;
    infos, ids := [], [];
    var todo := st.infos.Keys;
    assert Seen(st, todo, true) == {};
    EnumerateNone();
    while todo != {}
      invariant todo <= st.infos.Keys && Enumerates(ids, Seen(st, todo, true))
      invariant |infos| == |ids|
      invariant forall k | 0 <= k < |ids| :: ids[k] in st.infos && infos[k] == Disk(st.infos[ids[k]])
    {
      var id :| id in todo;
      SeenNext(st, todo, id, true);
      if st.infos[id].inTried {
        RoomLeft(st, todo, id, true, ids);
        assert |infos| != st.nTried;
        EnumerateNext(ids, Seen(st, todo, true), id);
        infos := infos + [Disk(st.infos[id])];
        ids := ids + [id];
      }
      todo := todo - {id};
    }
    assert Seen(st, todo, true) == Ids(st, true);
    AllWritten(st, true, ids);
  }

  method WriteBucket(new_: Table, index: map<Id, nat>, b: nat) returns (row: seq<int>)
    requires forall s | s in new_ :: new_[s] in index
    ensures row == Row(new_, index, b, BUCKET_SIZE)
  {
    row := [];
    for i := 0 to BUCKET_SIZE
      invariant row == Row(new_, index, b, i)
    {
      if Slot(b, i) in new_ {
        row := row + [index[new_[Slot(b, i)]]];
      }
    }
  }

  method WriteBuckets(new_: Table, index: map<Id, nat>) returns (rows: seq<seq<int>>)
    requires forall s | s in new_ :: new_[s] in index
    ensures |rows| == NEW_BUCKET_COUNT
    ensures forall b | 0 <= b < NEW_BUCKET_COUNT :: rows[b] == Row(new_, index, b, BUCKET_SIZE)
  {
    rows := [];
    for b := 0 to NEW_BUCKET_COUNT
      invariant |rows| == b && forall c | 0 <= c < b :: rows[c] == Row(new_, index, c, BUCKET_SIZE)
    {
      var row := WriteBucket(new_, index, b);
      rows := rows + [row];
    }
  }

  lemma NewIdsKnown(st: State)
    requires Ok(st, {}, {})
    ensures forall s | s in st.new_ :: st.new_[s] in st.infos
  {
    hide Indexed, TriedOk, CountsOk, EntriesOk, SlotsOf;
  }

  method Serialize(am: AddrMan, asmap: nat) returns (file: File)
    requires am.Valid()
    ensures IsFileOf(am.Snap(), asmap, file)
  {
    hide Ok, Enumerates, Row, ToggleBit30;
    var st := am.Snap();
    var newInfos, index, newIds := WriteNew(st);
    var triedInfos, triedIds := WriteTried(st);
    NewIdsKnown(st);
    var rows := WriteBuckets(st.new_, index);
    file := File(FILE_FORMAT, INCOMPATIBILITY_BASE + FILE_FORMAT, st.key, st.nNew, st.nTried,
      ToggleBit30(NEW_BUCKET_COUNT),
                 newInfos, triedInfos, rows, asmap);
    assert Layout(st, asmap, file, newIds, triedIds, index);
  }

  // ---- Loading any file ----

  /** Positions in the random order match, ids were handed out, and slots are within the tables. */
  ghost predicate Placed(env: Env, st: State) {
    && st.env == env
    && (forall id | id in st.infos ::
      id < st.idCount && 0 <= st.infos[id].randomPos < |st.random| && st.random[st.infos[id].randomPos] == id)
    && (forall i | 0 <= i < |st.random| :: st.random[i] in st.infos && st.infos[st.random[i]].randomPos == i)
    && InRange(st)
  }

  lemma LoadedNewPlaced(env: Env, st: State, d: DiskInfo)
    requires Placed(env, st)
    ensures Placed(env, LoadedNew(st, d))
  {
  }

  lemma LoadedTriedPlaced(env: Env, st: State, d: DiskInfo)
    requires Placed(env, st)
    ensures Placed(env, LoadedTried(st, d))
  {
  }

  lemma SeatPlaced(env: Env, st: State, restore: bool, ref: Ref)
    requires Placed(env, st) && (restore ==> ref.bucket < NEW_BUCKET_COUNT)
    ensures Placed(env, Seat(st, restore, ref))
  {
  }

  method ReadNew(env: Env, key: nat, ds: seq<DiskInfo>) returns (st: State)
    ensures st == LoadNew(Empty(env, key), ds) && Placed(env, st) && st.nNew == |ds| && st.nTried == 0
  {
    hide Placed, LoadedNew;
    st := Empty(env, key);
    EmptyPlaced(env, key);
    for n := 0 to |ds|
      invariant st == LoadNew(Empty(env, key), ds[..n]) && Placed(env, st) && st.nNew == n && st.nTried == 0
    {
      assert ds[..n + 1][..n] == ds[..n];
      LoadedNewPlaced(env, st, ds[n]);
      LoadedNewCount(st, ds[n]);
      st := LoadedNew(st, ds[n]);
    }
    assert ds[..|ds|] == ds;
  }

  lemma EmptyPlaced(env: Env, key: nat)
    ensures Placed(env, Empty(env, key))
  {
  }

  lemma LoadedNewCount(st: State, d: DiskInfo)
    ensures LoadedNew(st, d).nNew == st.nNew + 1 && LoadedNew(st, d).nTried == st.nTried
  {
  }

  /** Tried entries that do not fit are counted as lost. */
  method ReadTried(ghost env: Env, st0: State, ds: seq<DiskInfo>) returns (st: State, lost: nat)
    requires Placed(env, st0)
    ensures st == LoadTried(st0, ds) && Placed(env, st) && st.nNew == st0.nNew && st.nTried == st0.nTried + |ds| - lost
  {
    hide Placed;
    st, lost := st0, 0;
    for n := 0 to |ds|
      invariant st == LoadTried(st0, ds[..n]) && Placed(env, st) && st.nNew == st0.nNew
      invariant st.nTried == st0.nTried + n - lost
    {
      assert ds[..n + 1][..n] == ds[..n];
      LoadedTriedPlaced(env, st, ds[n]);
      if CanSeat(st, ds[n]) {
        st := LoadedTried(st, ds[n]);
      } else {
        lost := lost + 1;
      }
    }
    assert ds[..|ds|] == ds;
  }

  method ReadBucket(b: nat, row: seq<int>, nNew: int) returns (refs: seq<Ref>)
    ensures refs == RowRefs(b, row, nNew) && forall r | r in refs :: r.bucket == b
  {
    refs := [];
    for n := 0 to |row|
      invariant refs == RowRefs(b, row[..n], nNew) && forall r | r in refs :: r.bucket == b
    {
      assert row[..n + 1][..n] == row[..n];
      if 0 <= row[n] < nNew {
        refs := refs + [Ref(b, row[n])];
      }
    }
    assert row[..|row|] == row;
  }

  method ReadBuckets(buckets: seq<seq<int>>, nNew: int) returns (refs: seq<Ref>)
    ensures refs == Refs(buckets, nNew) && forall r | r in refs :: r.bucket < |buckets|
  {
    refs := [];
    for b := 0 to |buckets|
      invariant refs == Refs(buckets[..b], nNew) && forall r | r in refs :: r.bucket < b
    {
      assert buckets[..b + 1][..b] == buckets[..b];
      var row := ReadBucket(b, buckets[b], nNew);
      refs := refs + row;
    }
    assert buckets[..|buckets|] == buckets;
  }

  method SeatRefs(ghost env: Env, st0: State, restore: bool, refs: seq<Ref>) returns (st: State)
    requires Placed(env, st0) && (restore ==> forall r | r in refs :: r.bucket < NEW_BUCKET_COUNT)
    ensures st == SeatAll(st0, restore, refs) && Placed(env, st)
  {
    hide Placed, Seat;
    st := st0;
    for n := 0 to |refs|
      invariant st == SeatAll(st0, restore, refs[..n]) && Placed(env, st)
    {
      assert refs[..n + 1][..n] == refs[..n];
      SeatPlaced(env, st, restore, refs[n]);
      st := Seat(st, restore, refs[n]);
    }
    assert refs[..|refs|] == refs;
  }

  // ---- Pruning ----

  /** Remove an entry from the index: it is swapped to the end of the random order and dropped. */
  function Deleted(st: State, id: Id): State
    requires id in st.infos && 0 <= st.infos[id].randomPos < |st.random| && st.random[st.infos[id].randomPos] == id
    requires st.random[|st.random| - 1] in st.infos
  {
    Removed(SwappedAt(st, st.infos[id].randomPos, |st.random| - 1), id)
  }

  lemma DeletedPlaced(env: Env, st: State, id: Id)
    requires Placed(env, st) && id in st.infos
    ensures 0 <= st.infos[id].randomPos < |st.random| && st.random[st.infos[id].randomPos] == id
    ensures st.random[|st.random| - 1] in st.infos && Placed(env, Deleted(st, id))
    ensures Deleted(st, id).infos.Keys == st.infos.Keys - {id}
    ensures SameEntries(st.infos, Deleted(st, id).infos, id)
  {
    hide Placed, SameEntries;
    PlacedAt(env, st, id);
    SwapThenRemove(st, st.infos[id].randomPos, id);
    SwapPlaced(env, st, st.infos[id].randomPos, |st.random| - 1);
    RemovePlaced(env, SwappedAt(st, st.infos[id].randomPos, |st.random| - 1), id);
  }

  lemma PlacedAt(env: Env, st: State, id: Id)
    requires Placed(env, st) && id in st.infos
    ensures 0 <= st.infos[id].randomPos < |st.random| && st.random[st.infos[id].randomPos] == id
    ensures st.random[|st.random| - 1] in st.infos && st.infos[st.random[|st.random| - 1]].randomPos == |st.random| - 1
  {
    hide InRange;
  }

  lemma SwapPlaced(env: Env, st: State, i: nat, j: nat)
    requires Placed(env, st) && i < |st.random| && j < |st.random|
    ensures st.random[i] in st.infos && st.random[j] in st.infos && Placed(env, SwappedAt(st, i, j))
    ensures SwappedAt(st, i, j).infos.Keys == st.infos.Keys && SwappedAt(st, i, j).infos[st.random[i]].randomPos == j
  {
    hide InRange;
    var st' := SwappedAt(st, i, j);
    assert InRange(st) ==> InRange(st') by {
      SameTablesInRange(st, st');
    }
    if i != j {
      assert st.random[i] != st.random[j];
      forall id | id in st'.infos
        ensures 0 <= st'.infos[id].randomPos < |st'.random| && st'.random[st'.infos[id].randomPos] == id
      {
        assert st.random[st.infos[id].randomPos] == id;
      }
      forall k | 0 <= k < |st'.random|
        ensures st'.random[k] in st'.infos && st'.infos[st'.random[k]].randomPos == k
      {
        assert st.infos[st.random[k]].randomPos == k;
      }
    }
  }

  lemma SameTablesInRange(st: State, st': State)
    requires st'.new_ == st.new_ && st'.tried == st.tried
    ensures InRange(st) ==> InRange(st')
  {
  }

  lemma RemovePlaced(env: Env, st: State, id: Id)
    requires Placed(env, st) && id in st.infos && st.infos[id].randomPos == |st.random| - 1
    ensures Placed(env, Removed(st, id))
  {
    hide InRange;
    var st' := Removed(st, id);
    assert InRange(st) ==> InRange(st') by {
      SameTablesInRange(st, st');
    }
    forall j | j in st'.infos
      ensures st'.infos[j].randomPos < |st'.random|
    {
      assert st.random[st.infos[j].randomPos] == j;
    }
    forall i | 0 <= i < |st'.random|
      ensures st'.random[i] in st'.infos
    {
      assert st.infos[st.random[i]].randomPos == i;
    }
  }

  lemma ZerosNext(st: State, st': State, id: Id)
    requires SameEntries(st.infos, st'.infos, id) && id in Zeros(st) && id !in st'.infos
    ensures Zeros(st') == Zeros(st) - {id}
  {
  }

  method PruneOne(ghost env: Env, st: State, id: Id, ghost st0: State) returns (st': State, dropped: bool)
    requires Placed(env, st) && id in st.infos && SameButOrder(st0, st)
    ensures Placed(env, st') && Zeros(st') == Zeros(st) - {id} && (dropped <==> id in Zeros(st))
    ensures st'.infos.Keys == if dropped then st.infos.Keys - {id} else st.infos.Keys
    ensures !dropped ==> st' == st
    ensures SameButOrder(st0, st')
  {
    hide Placed, Zeros, Deleted, SameEntries, SameButOrder;
    IsZero(st, id);
    dropped := !st.infos[id].inTried && st.infos[id].refCount == 0;
    st' := st;
    if dropped {
      DeletedPlaced(env, st, id);
      ZerosNext(st, Deleted(st, id), id);
      DeletedSame(st, id);
      SameTrans(st0, st, Deleted(st, id));
      st' := Deleted(st, id);
    }
  }

  /** Entries that stay keep all but their place in the random order; the tables are the same. */
  ghost predicate SameButOrder(st: State, st': State) {
    && st'.new_ == st.new_ && st'.tried == st.tried && st'.env == st.env && st'.key == st.key && st'.nTried == st.nTried
    && forall id | id in st'.infos :: id in st.infos && st'.infos[id].(randomPos := 0) == st.infos[id].(randomPos := 0)
  }

  lemma SameSelf(st: State)
    ensures SameButOrder(st, st)
  {
  }

  lemma SameTrans(st: State, st': State, st'': State)
    requires SameButOrder(st, st') && SameButOrder(st', st'')
    ensures SameButOrder(st, st'')
  {
  }

  lemma DeletedSame(st: State, id: Id)
    requires id in st.infos && 0 <= st.infos[id].randomPos < |st.random| && st.random[st.infos[id].randomPos] == id
    requires st.random[|st.random| - 1] in st.infos && SameEntries(st.infos, Deleted(st, id).infos, id)
    requires Deleted(st, id).infos.Keys == st.infos.Keys - {id}
    ensures SameButOrder(st, Deleted(st, id))
  {
  }

  /** New entries that got no slot are deleted; nothing else changes but the random order. */
  method Prune(ghost env: Env, st0: State) returns (st: State, lost: nat)
    requires Placed(env, st0)
    ensures Placed(env, st) && Zeros(st) == {} && st.infos.Keys == st0.infos.Keys - Zeros(st0)
    ensures lost == |Zeros(st0)| && (lost == 0 ==> st == st0) && SameButOrder(st0, st)
  {
    hide Placed, Zeros, SameButOrder;
    st, lost := st0, 0;
    SameSelf(st0);
    var todo := st0.infos.Keys;
    ghost var gone: set<Id> := {};
    ZerosKnown(st0);
    while todo != {}
      invariant todo <= st.infos.Keys == st0.infos.Keys - gone && gone !! todo
      invariant Placed(env, st) && Zeros(st) == Zeros(st0) - gone <= todo && gone <= Zeros(st0)
      invariant lost == |gone| && (lost == 0 ==> st == st0) && SameButOrder(st0, st)
    {
      var id :| id in todo;
      var dropped;
      st, dropped := PruneOne(env, st, id, st0);
      if dropped {
        gone, lost := gone + {id}, lost + 1;
      }
      todo := todo - {id};
    }
    assert gone == Zeros(st0);
  }

  lemma ZerosKnown(st: State)
    ensures Zeros(st) <= st.infos.Keys
  {
  }

  lemma IsZero(st: State, id: Id)
    requires id in st.infos
    ensures id in Zeros(st) <==> !st.infos[id].inTried && st.infos[id].refCount == 0
  {
  }

  // ---- The whole ----

  datatype Outcome = Loaded | Corrupted | Unsupported | BadNew | BadTried | EndOfData | Inconsistent(code: int)

  function BucketCount(file: File): int {
    if file.format >= 1 then ToggleBit30(file.nUBuckets) else file.nUBuckets
  }

  /** The header passes every test made before the entries are read. */
  predicate CompatOk(file: File) {
    INCOMPATIBILITY_BASE <= file.compat <= INCOMPATIBILITY_BASE + FILE_FORMAT
  }

  predicate HeaderOk(file: File) {
    && CompatOk(file)
    && 0 <= file.nNew <= NEW_BUCKET_COUNT * BUCKET_SIZE
    && 0 <= file.nTried <= TRIED_BUCKET_COUNT * BUCKET_SIZE
  }

  /** There are as many values as the counts announce. */
  predicate Complete(file: File) {
    && |file.newInfos| == file.nNew && |file.triedInfos| == file.nTried
    && |file.buckets| == Max(0, BucketCount(file))
  }

  /** A state loaded from a file: all entries read, the unseated ones pruned. */
  method Load(env: Env, asmap: nat, file: File) returns (st: State, lost: nat, lostNew: nat)
    requires HeaderOk(file) && Complete(file)
    ensures Placed(env, st) && Zeros(st) == {}
    ensures st.infos.Keys == Rebuilt(env, asmap, file).infos.Keys - Zeros(Rebuilt(env, asmap, file))
    ensures lostNew == |Zeros(Rebuilt(env, asmap, file))| && (lostNew == 0 ==> st == Rebuilt(env, asmap, file))
    ensures Rebuilt(env, asmap, file).nTried == file.nTried - lost && SameButOrder(Rebuilt(env, asmap, file), st)
  {
    hide Placed, Zeros, LoadNew, LoadTried, SeatAll, Refs, ToggleBit30, SameButOrder;
    st := ReadNew(env, file.key, file.newInfos);
    st, lost := ReadTried(env, st, file.triedInfos);
    ghost var nTried := st.nTried;
    var refs := ReadBuckets(file.buckets, file.nNew);
    SeatAllCounts(st, Restores(file, asmap), refs);
    st := SeatRefs(env, st, Restores(file, asmap), refs);
    st, lostNew := Prune(env, st);
  }

  lemma {:induction false} SeatAllCounts(st: State, restore: bool, refs: seq<Ref>)
    ensures SeatAll(st, restore, refs).nTried == st.nTried
  {
    if refs != [] {
      SeatAllCounts(st, restore, refs[..|refs| - 1]);
    }
  }

  /** The same entries in the same slots of both tables, under other ids. */
  ghost predicate Restored(st: State, st': State) {
    && (exists ids :: Renumbered(st, st', ids))
    && st'.NewView() == st.NewView() && st'.TriedView() == st.TriedView()
  }

  ghost predicate SavedLoads(st: State, asmap: nat, file: File) {
    var st' := Rebuilt(st.env, asmap, file);
    Ok(st', {}, {}) && Accepts(st') && Zeros(st') == {} && Restored(st, st')
  }

  lemma SavedIsLoadable(st: State, asmap: nat, file: File)
    requires Ok(st, {}, {}) && IsFileOf(st, asmap, file)
    ensures HeaderOk(file) && Complete(file) && SavedLoads(st, asmap, file)
  {
    hide Ok, Accepts, InRange, Zeros, Rebuilt, ToggleBit30, Enumerates, Row, Renumbered, Services;
    var newIds, triedIds, index :| Layout(st, asmap, file, newIds, triedIds, index);
    RoundTrip(st, asmap, file, newIds, triedIds, index);
    CountsFit(st);
    ToggleTwice(NEW_BUCKET_COUNT);
    ConsistentIsAccepted(Rebuilt(st.env, asmap, file));
  }

  lemma PlacedInRange(env: Env, st: State)
    requires Placed(env, st)
    ensures st.env == env && InRange(st)
  {
  }

  /** What loading does to a file that holds a consistent state. */
  ghost predicate Faithful(env: Env, asmap: nat, file: File, st': State) {
    forall st | Ok(st, {}, {}) && st.env == env && IsFileOf(st, asmap, file) :: Ok(st', {}, {}) && Restored(st, st')
  }

  ghost predicate HoldsState(env: Env, asmap: nat, file: File) {
    exists st :: Ok(st, {}, {}) && st.env == env && IsFileOf(st, asmap, file)
  }

  lemma LoadIsFaithful(env: Env, asmap: nat, file: File, st': State)
    requires Zeros(Rebuilt(env, asmap, file)) == {} ==> st' == Rebuilt(env, asmap, file)
    ensures Faithful(env, asmap, file, st')
    ensures HoldsState(env, asmap, file) ==> HeaderOk(file) && Complete(file) && Accepts(st')
  {
    hide Ok, Accepts, Rebuilt, IsFileOf, Restored, Zeros, HeaderOk, Complete;
    forall st | Ok(st, {}, {}) && st.env == env && IsFileOf(st, asmap, file)
      ensures HeaderOk(file) && Complete(file) && Ok(st', {}, {}) && Restored(st, st') && Accepts(st')
    {
      SavedIsLoadable(st, asmap, file);
    }
  }

  /**
    Read a file. Whatever it holds, a load that succeeds gives a state that passes the consistency
    check; reading a saved state succeeds and loses nothing.
   */
  method Read(env: Env, asmap: nat, file: File) returns (r: Outcome, st: State)
    ensures r == Corrupted <==> file.compat < INCOMPATIBILITY_BASE
    ensures r == Unsupported <==> file.compat > INCOMPATIBILITY_BASE + FILE_FORMAT
    ensures r == BadNew <==> CompatOk(file) && !(0 <= file.nNew <= NEW_BUCKET_COUNT * BUCKET_SIZE)
    ensures r == BadTried <==>
      && CompatOk(file) && 0 <= file.nNew <= NEW_BUCKET_COUNT * BUCKET_SIZE
      && !(0 <= file.nTried <= TRIED_BUCKET_COUNT * BUCKET_SIZE)
    ensures r == EndOfData <==> HeaderOk(file) && !Complete(file)
    ensures r.Loaded? || r.Inconsistent? <==> HeaderOk(file) && Complete(file)
    ensures r.Loaded? ==> st.env == env && InRange(st) && Accepts(st) && Faithful(env, asmap, file, st)
    ensures HoldsState(env, asmap, file) ==> r.Loaded?
  {
    hide Accepts, InRange, Placed, Zeros, Rebuilt, Faithful, HoldsState, Complete;
    st := Empty(env, file.key);
    LoadIsFaithful(env, asmap, file, Rebuilt(env, asmap, file));
    if file.compat < INCOMPATIBILITY_BASE {
      return Corrupted, st;
    }
    if file.compat - INCOMPATIBILITY_BASE > FILE_FORMAT {
      return Unsupported, st;
    }
    if file.nNew > NEW_BUCKET_COUNT * BUCKET_SIZE || file.nNew < 0 {
      return BadNew, st;
    }
    if file.nTried > TRIED_BUCKET_COUNT * BUCKET_SIZE || file.nTried < 0 {
      return BadTried, st;
    }
    if !Complete(file) {
      return EndOfData, st;
    }
    var lost, lostNew;
    st, lost, lostNew := Load(env, asmap, file);
    LoadIsFaithful(env, asmap, file, st);
    PlacedInRange(env, st);
    var code := Check(st);
    r := if code == 0 then Loaded else Inconsistent(code);
  }

  /** Load a file into a newly made address manager. */
  method Unserialize(am: AddrMan, asmap: nat, file: File) returns (r: Outcome)
    requires am.Snap() == Empty(am.env, am.key) && am.triedCollisions == {}
    modifies am
    ensures r.Loaded? ==> InRange(am.Snap()) && Accepts(am.Snap()) && am.triedCollisions == {}
    ensures r.Loaded? ==> Faithful(am.env, asmap, file, am.Snap())
    ensures HoldsState(am.env, asmap, file) ==> r.Loaded?
    ensures !HeaderOk(file) || !Complete(file) ==> !r.Loaded?
  {
    hide Accepts, InRange, Faithful, HoldsState, HeaderOk, Complete;
    var st;
    r, st := Read(am.env, asmap, file);
    if r.Loaded? {
      am.key, am.nIdCount, am.mapInfo, am.mapAddr, am.vRandom := st.key, st.idCount, st.infos, st.addrs, st.random;
      am.vvNew, am.vvTried, am.nNew, am.nTried, am.networkCounts := st.new_, st.tried, st.nNew, st.nTried, st.counts;
    }
  }

  /** Saving and loading again gives back the same address manager, its ids renumbered. */
  method Reopen(am: AddrMan, asmap: nat) returns (am': AddrMan)
    requires am.Valid()
    ensures fresh(am') && am'.Valid() && Restored(am.Snap(), am'.Snap())
  {
    hide Ok, Accepts, InRange, IsFileOf, Restored, Complete;
    var file := Serialize(am, asmap);
    am' := new AddrMan(am.env, 1);
    var r := Unserialize(am', asmap, file);
    assert HoldsState(am.env, asmap, file);
  }
}
