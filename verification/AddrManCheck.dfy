/** CheckAddrman: the read-only consistency check, and exactly which states it accepts. */
module AddrManCheck {
  import opened Wrappers
  import opened AddrManModel
  import opened AddrManCore

  /** The tables have no slot outside their fixed dimensions. */
  ghost predicate InRange(st: State) {
    && (forall s | s in st.tried :: s.bucket < TRIED_BUCKET_COUNT && s.pos < BUCKET_SIZE)
    && (forall s | s in st.new_ :: s.bucket < NEW_BUCKET_COUNT && s.pos < BUCKET_SIZE)
  }

  // ---- What the check accepts ----

  ghost predicate EntryAccepted(st: State, id: Id)
    requires id in st.infos
  {
    var info := st.infos[id];
    && (if info.inTried then info.lastSuccess != 0 && info.refCount == 0
        else 0 < info.refCount <= NEW_BUCKETS_PER_ADDRESS)
    && info.addr in st.addrs && st.addrs[info.addr] == id
    && 0 <= info.randomPos < |st.random| && st.random[info.randomPos] == id
    && info.lastTry >= 0 && info.lastSuccess >= 0
  }

  ghost predicate TriedSlotAccepted(st: State, s: Slot)
    requires s in st.tried
  {
    st.tried[s] in st.infos && st.infos[st.tried[s]].inTried &&
      s == st.env.TriedSlot(st.key, st.infos[st.tried[s]].addr)
  }

  ghost predicate NewSlotAccepted(st: State, s: Slot)
    requires s in st.new_
  {
    st.new_[s] in st.infos && !st.infos[st.new_[s]].inTried &&
      s == st.env.NewSlot(st.key, st.infos[st.new_[s]].addr, s.bucket)
  }

  /** The tried entry sits in its slot. */
  ghost predicate Seated(st: State, id: Id)
    requires id in st.infos
  {
    var t := st.env.TriedSlot(st.key, st.infos[id].addr);
    t in st.tried && st.tried[t] == id
  }

  ghost function Networks(st: State, todo: set<Id>): set<Network> {
    set id | id in st.infos && id !in todo :: st.env.network(st.infos[id].addr)
  }

  ghost function LocalCounts(st: State, todo: set<Id>, net: Network): Counts {
    Counts(Tally(st.env, st.infos, todo, false, Some(net)), Tally(st.env, st.infos, todo, true, Some(net)))
  }

  ghost predicate Accepts(st: State) {
    && |st.random| == st.nTried + st.nNew
    && (forall id | id in st.infos :: EntryAccepted(st, id))
    && st.nTried == Tally(st.env, st.infos, {}, true, None)
    && st.nNew == Tally(st.env, st.infos, {}, false, None)
    && (forall s | s in st.tried :: TriedSlotAccepted(st, s))
    && (forall s | s in st.new_ :: NewSlotAccepted(st, s))
    && (forall id | id in st.infos && st.infos[id].inTried :: Seated(st, id))
    && (forall id | id in st.infos && !st.infos[id].inTried :: |SlotsOf(st.new_, id)| == st.infos[id].refCount)
    && st.key != 0
    && |st.counts| >= |Networks(st, {})|
    && (forall net | net in st.counts :: st.counts[net] == LocalCounts(st, {}, net))
  }

  // ---- Order of visiting the slots ----

  ghost predicate Before(s: Slot, b: nat, i: nat) {
    s.bucket < b || (s.bucket == b && s.pos < i)
  }

  /** Tried ids whose slot is still to be visited, or does not hold them. */
  ghost function Unseen(st: State, b: nat, i: nat): set<Id> {
    set id | id in st.infos && st.infos[id].inTried
      && !(Seated(st, id) && Before(st.env.TriedSlot(st.key, st.infos[id].addr), b, i))
  }

  ghost function Visits(st: State, id: Id, b: nat, i: nat): nat {
    |set s | s in st.new_ && st.new_[s] == id && Before(s, b, i)|
  }

  /** References of new entries still to be found. */
  ghost function Remaining(st: State, b: nat, i: nat): map<Id, int> {
    map id | id in st.infos && !st.infos[id].inTried && Visits(st, id, b, i) < st.infos[id].refCount
      :: st.infos[id].refCount - Visits(st, id, b, i)
  }

  // ---- The scan of the entries ----

  datatype Scan = Scan(setTried: set<Id>, mapNew: map<Id, int>, local: map<Network, Counts>)

  ghost predicate Scanned(st: State, todo: set<Id>, scan: Scan) {
    && (forall id | id in st.infos && id !in todo :: EntryAccepted(st, id))
    && scan.setTried == (set id | id in st.infos && id !in todo && st.infos[id].inTried)
    && scan.mapNew == (map id | id in st.infos && id !in todo && !st.infos[id].inTried :: st.infos[id].refCount)
    && scan.local.Keys == Networks(st, todo)
    && (forall net | net in scan.local :: scan.local[net] == LocalCounts(st, todo, net))
  }

  method CheckEntry(st: State, id: Id, scan: Scan, ghost todo: set<Id>) returns (code: int, scan': Scan)
    requires id in st.infos && id in todo && Scanned(st, todo, scan)
    ensures code == 0 <==> EntryAccepted(st, id)
    ensures code == 0 ==> Scanned(st, todo - {id}, scan')
  {
    hide Scanned;
    var info := st.infos[id];
    scan' := scan;
    if info.inTried {
      if info.lastSuccess == 0 {
        return -1, scan;
      }
      if info.refCount != 0 {
        return -2, scan;
      }
      scan' := Scan(scan.setTried + {id}, scan.mapNew, Bump(scan.local, st.env.network(info.addr), 0, 1));
    } else {
      if info.refCount < 0 || info.refCount > NEW_BUCKETS_PER_ADDRESS {
        return -3, scan;
      }
      if info.refCount == 0 {
        return -4, scan;
      }
      scan' := Scan(scan.setTried, scan.mapNew[id := info.refCount], Bump(scan.local, st.env.network(info.addr), 1, 0));
    }
    if !(info.addr in st.addrs && st.addrs[info.addr] == id) {
      return -5, scan;
    }
    if info.randomPos < 0 || info.randomPos >= |st.random| || st.random[info.randomPos] != id {
      return -14, scan;
    }
    if info.lastTry < 0 {
      return -6, scan;
    }
    if info.lastSuccess < 0 {
      return -8, scan;
    }
    ScanNext(st, todo, scan, scan', id);
    code := 0;
  }

  lemma ScanNext(st: State, todo: set<Id>, scan: Scan, scan': Scan, id: Id)
    requires id in st.infos && id in todo && Scanned(st, todo, scan) && EntryAccepted(st, id)
    requires
      var info := st.infos[id];
      scan' == if info.inTried
        then Scan(scan.setTried + {id}, scan.mapNew, Bump(scan.local, st.env.network(info.addr), 0, 1))
        else Scan(scan.setTried, scan.mapNew[id := info.refCount], Bump(scan.local, st.env.network(info.addr), 1, 0))
    ensures Scanned(st, todo - {id}, scan')
  {
    hide EntryAccepted, Networks, LocalCounts;
    var net := st.env.network(st.infos[id].addr);
    NetworksNext(st, todo, id);
    forall n | n in scan'.local
      ensures scan'.local[n] == LocalCounts(st, todo - {id}, n)
    {
      LocalCountsNext(st, todo, id, n);
      if n == net && n !in scan.local {
        NoSuchNetwork(st, todo, n);
      }
    }
    ScanSets(st, todo, scan, scan', id);
  }

  lemma ScanSets(st: State, todo: set<Id>, scan: Scan, scan': Scan, id: Id)
    requires id in st.infos && id in todo
    requires scan.setTried == (set j | j in st.infos && j !in todo && st.infos[j].inTried)
    requires scan.mapNew == (map j | j in st.infos && j !in todo && !st.infos[j].inTried :: st.infos[j].refCount)
    requires scan'.setTried == if st.infos[id].inTried then scan.setTried + {id} else scan.setTried
    requires scan'.mapNew == if st.infos[id].inTried then scan.mapNew else scan.mapNew[id := st.infos[id].refCount]
    ensures scan'.setTried == (set j | j in st.infos && j !in todo - {id} && st.infos[j].inTried)
    ensures scan'.mapNew == (map j | j in st.infos && j !in todo - {id} && !st.infos[j].inTried :: st.infos[j].refCount)
  {
  }

  lemma NetworksNext(st: State, todo: set<Id>, id: Id)
    requires id in st.infos && id in todo
    ensures Networks(st, todo - {id}) == Networks(st, todo) + {st.env.network(st.infos[id].addr)}
  {
  }

  lemma LocalCountsNext(st: State, todo: set<Id>, id: Id, net: Network)
    requires id in st.infos && id in todo
    ensures
      var here := st.env.network(st.infos[id].addr) == net;
      LocalCounts(st, todo - {id}, net) ==
      Counts(LocalCounts(st, todo, net).newCount + One(here && !st.infos[id].inTried),
             LocalCounts(st, todo, net).triedCount + One(here && st.infos[id].inTried))
  {
    TallyChange(st.env, st.infos, todo, st.infos, todo - {id}, id, false, Some(net));
    TallyChange(st.env, st.infos, todo, st.infos, todo - {id}, id, true, Some(net));
  }

  lemma NoSuchNetwork(st: State, todo: set<Id>, net: Network)
    requires net !in Networks(st, todo)
    ensures LocalCounts(st, todo, net) == Counts(0, 0)
  {
    TallyEmpty(st, todo, net, false);
    TallyEmpty(st, todo, net, true);
  }

  lemma TallyEmpty(st: State, todo: set<Id>, net: Network, inTried: bool)
    requires net !in Networks(st, todo)
    ensures Tally(st.env, st.infos, todo, inTried, Some(net)) == 0
  {
    var members := set id | id in st.infos && Counts1(st.env, st.infos, todo, id, inTried, Some(net));
    forall id | id in st.infos && id !in todo
      ensures st.env.network(st.infos[id].addr) in Networks(st, todo)
    {
    }
    assert members == {};
  }

  method CheckEntries(st: State) returns (code: int, scan: Scan)
    ensures code == 0 <==> forall id | id in st.infos :: EntryAccepted(st, id)
    ensures code == 0 ==> Scanned(st, {}, scan)
  {
    hide EntryAccepted, Networks, LocalCounts;
    var todo := st.infos.Keys;
    scan := Scan({}, map[], map[]);
    ScanBegins(st, todo, scan);
    while todo != {}
      invariant todo <= st.infos.Keys && Scanned(st, todo, scan)
      decreases todo
    {
      var id :| id in todo;
      code, scan := CheckEntry(st, id, scan, todo);
      if code != 0 {
        return;
      }
      todo := todo - {id};
    }
    code := 0;
  }

  lemma ScanBegins(st: State, todo: set<Id>, scan: Scan)
    requires todo == st.infos.Keys && scan == Scan({}, map[], map[])
    ensures Scanned(st, todo, scan)
  {
  }

  // ---- The scan of the tried table ----

  method CheckTriedSlot(st: State, s: Slot, setTried: set<Id>) returns (code: int, setTried': set<Id>)
    requires setTried == Unseen(st, s.bucket, s.pos)
    requires forall r | r in st.tried && Before(r, s.bucket, s.pos) :: TriedSlotAccepted(st, r)
    ensures code == 0 <==> (s in st.tried ==> TriedSlotAccepted(st, s))
    ensures code == 0 ==> setTried' == Unseen(st, s.bucket, s.pos + 1)
  {
    setTried' := setTried;
    code := 0;
    if s in st.tried {
      var id := st.tried[s];
      if id !in setTried {
        return -11, setTried;
      }
      if id !in st.infos || st.env.TriedBucket(st.key, st.infos[id].addr) != s.bucket {
        return -17, setTried;
      }
      if st.env.BucketPosition(st.key, false, s.bucket, st.infos[id].addr) != s.pos {
        return -18, setTried;
      }
      setTried' := setTried - {id};
    }
    UnseenNext(st, s);
  }

  lemma UnseenNext(st: State, s: Slot)
    requires s in st.tried ==> TriedSlotAccepted(st, s)
    ensures Unseen(st, s.bucket, s.pos + 1) ==
      if s in st.tried then Unseen(st, s.bucket, s.pos) - {st.tried[s]} else Unseen(st, s.bucket, s.pos)
  {
  }

  lemma UnseenRow(st: State, b: nat)
    requires InRange(st)
    ensures Unseen(st, b, BUCKET_SIZE) == Unseen(st, b + 1, 0)
  {
  }

  ghost predicate TriedBefore(st: State, b: nat, i: nat) {
    forall s | s in st.tried && Before(s, b, i) :: TriedSlotAccepted(st, s)
  }

  method CheckTriedBucket(st: State, b: nat, setTried: set<Id>) returns (code: int, setTried': set<Id>)
    requires InRange(st) && setTried == Unseen(st, b, 0) && TriedBefore(st, b, 0)
    ensures code == 0 <==> TriedBefore(st, b + 1, 0)
    ensures code == 0 ==> setTried' == Unseen(st, b + 1, 0)
  {
    hide TriedSlotAccepted, Unseen;
    setTried' := setTried;
    for i := 0 to BUCKET_SIZE
      invariant setTried' == Unseen(st, b, i) && TriedBefore(st, b, i)
    {
      code, setTried' := CheckTriedSlot(st, Slot(b, i), setTried');
      TriedBeforeNext(st, b, i);
      if code != 0 {
        return;
      }
    }
    UnseenRow(st, b);
    TriedBeforeRow(st, b);
    code := 0;
  }

  lemma TriedBeforeNext(st: State, b: nat, i: nat)
    requires TriedBefore(st, b, i) && i < BUCKET_SIZE
    ensures TriedBefore(st, b, i + 1) <==> (Slot(b, i) in st.tried ==> TriedSlotAccepted(st, Slot(b, i)))
    ensures TriedBefore(st, b + 1, 0) ==> TriedBefore(st, b, i + 1)
  {
    hide TriedSlotAccepted;
  }

  lemma TriedBeforeRow(st: State, b: nat)
    requires InRange(st)
    ensures TriedBefore(st, b, BUCKET_SIZE) <==> TriedBefore(st, b + 1, 0)
  {
    hide TriedSlotAccepted;
  }

  method CheckTriedTable(st: State, setTried: set<Id>) returns (code: int, setTried': set<Id>)
    requires InRange(st) && setTried == (set id | id in st.infos && st.infos[id].inTried)
    ensures code == 0 <==> forall s | s in st.tried :: TriedSlotAccepted(st, s)
    ensures code == 0 ==> setTried' == set id | id in st.infos && st.infos[id].inTried && !Seated(st, id)
  {
    hide TriedSlotAccepted, Unseen;
    UnseenEnds(st);
    setTried' := setTried;
    for b := 0 to TRIED_BUCKET_COUNT
      invariant setTried' == Unseen(st, b, 0) && TriedBefore(st, b, 0)
    {
      code, setTried' := CheckTriedBucket(st, b, setTried');
      if code != 0 {
        assert forall s | s in st.tried && Before(s, b + 1, 0) :: s in st.tried;
        return;
      }
    }
    code := 0;
    assert forall s | s in st.tried :: Before(s, TRIED_BUCKET_COUNT, 0);
  }

  lemma UnseenEnds(st: State)
    requires InRange(st)
    ensures Unseen(st, 0, 0) == set id | id in st.infos && st.infos[id].inTried
    ensures Unseen(st, TRIED_BUCKET_COUNT, 0) == set id | id in st.infos && st.infos[id].inTried && !Seated(st, id)
  {
  }

  // ---- The scan of the new table ----

  /** Slots visited so far hold new entries at their own position, none more often than it is referenced. */
  ghost predicate NewBefore(st: State, b: nat, i: nat) {
    && (forall s | s in st.new_ && Before(s, b, i) :: NewSlotAccepted(st, s))
    && (forall id | id in st.infos && !st.infos[id].inTried :: Visits(st, id, b, i) <= st.infos[id].refCount)
  }

  lemma VisitsNext(st: State, id: Id, s: Slot)
    ensures Visits(st, id, s.bucket, s.pos + 1) ==
      Visits(st, id, s.bucket, s.pos) + One(s in st.new_ && st.new_[s] == id)
  {
    var a := set r | r in st.new_ && st.new_[r] == id && Before(r, s.bucket, s.pos);
    var b := set r | r in st.new_ && st.new_[r] == id && Before(r, s.bucket, s.pos + 1);
    assert b == if s in st.new_ && st.new_[s] == id then a + {s} else a;
  }

  lemma VisitsMonotone(st: State, id: Id, b: nat, i: nat, b': nat, i': nat)
    requires b < b' || (b == b' && i <= i')
    ensures Visits(st, id, b, i) <= Visits(st, id, b', i')
  {
    var early := set r | r in st.new_ && st.new_[r] == id && Before(r, b, i);
    var late := set r | r in st.new_ && st.new_[r] == id && Before(r, b', i');
    assert early <= late;
    SubsetSize(early, late);
  }

  lemma SubsetSize<T>(a: set<T>, b: set<T>)
    requires a <= b
    ensures |a| <= |b|
  {
    assert b == a + (b - a);
  }

  lemma VisitsRow(st: State, id: Id, b: nat)
    requires InRange(st)
    ensures Visits(st, id, b, BUCKET_SIZE) == Visits(st, id, b + 1, 0)
  {
    assert (set r | r in st.new_ && st.new_[r] == id && Before(r, b, BUCKET_SIZE)) ==
           (set r | r in st.new_ && st.new_[r] == id && Before(r, b + 1, 0));
  }

  lemma VisitsEnds(st: State, id: Id)
    requires InRange(st)
    ensures Visits(st, id, 0, 0) == 0 && Visits(st, id, NEW_BUCKET_COUNT, 0) == |SlotsOf(st.new_, id)|
  {
    assert (set r | r in st.new_ && st.new_[r] == id && Before(r, 0, 0)) == {};
    assert (set r | r in st.new_ && st.new_[r] == id && Before(r, NEW_BUCKET_COUNT, 0)) == SlotsOf(st.new_, id);
  }

  lemma NewBeforeNext(st: State, s: Slot)
    requires NewBefore(st, s.bucket, s.pos)
    ensures NewBefore(st, s.bucket, s.pos + 1) <==>
      (s in st.new_ ==>
        NewSlotAccepted(st, s) && Visits(st, st.new_[s], s.bucket, s.pos) < st.infos[st.new_[s]].refCount)
  {
    hide NewSlotAccepted, Visits;
    forall id
      ensures Visits(st, id, s.bucket, s.pos + 1) ==
        Visits(st, id, s.bucket, s.pos) + One(s in st.new_ && st.new_[s] == id)
    {
      VisitsNext(st, id, s);
    }
    if s in st.new_ {
      NewSlotNames(st, s);
    }
  }

  lemma NewSlotNames(st: State, s: Slot)
    requires s in st.new_
    ensures NewSlotAccepted(st, s) ==> st.new_[s] in st.infos && !st.infos[st.new_[s]].inTried
  {
  }

  lemma NewBeforeEarlier(st: State, b: nat, i: nat, b': nat, i': nat)
    requires NewBefore(st, b', i') && (b < b' || (b == b' && i <= i'))
    ensures NewBefore(st, b, i)
  {
    hide NewSlotAccepted, Visits;
    forall id | id in st.infos && !st.infos[id].inTried
      ensures Visits(st, id, b, i) <= st.infos[id].refCount
    {
      VisitsMonotone(st, id, b, i, b', i');
    }
  }

  lemma NewBeforeRow(st: State, b: nat)
    requires InRange(st)
    ensures NewBefore(st, b, BUCKET_SIZE) <==> NewBefore(st, b + 1, 0)
    ensures Remaining(st, b, BUCKET_SIZE) == Remaining(st, b + 1, 0)
  {
    hide NewSlotAccepted, Visits;
    forall id
      ensures Visits(st, id, b, BUCKET_SIZE) == Visits(st, id, b + 1, 0)
    {
      VisitsRow(st, id, b);
    }
  }

  lemma RemainingNext(st: State, s: Slot)
    requires NewBefore(st, s.bucket, s.pos)
    requires s in st.new_ ==> NewSlotAccepted(st, s) && st.new_[s] in Remaining(st, s.bucket, s.pos)
    ensures
      var before := Remaining(st, s.bucket, s.pos);
      Remaining(st, s.bucket, s.pos + 1) ==
        if s !in st.new_ then before
        else if before[st.new_[s]] == 1 then before - {st.new_[s]}
        else before[st.new_[s] := before[st.new_[s]] - 1]
  {
    hide NewSlotAccepted, Visits;
    forall id
      ensures Visits(st, id, s.bucket, s.pos + 1) ==
        Visits(st, id, s.bucket, s.pos) + One(s in st.new_ && st.new_[s] == id)
    {
      VisitsNext(st, id, s);
    }
  }

  method CheckNewSlot(st: State, s: Slot, mapNew: map<Id, int>) returns (code: int, mapNew': map<Id, int>)
    requires mapNew == Remaining(st, s.bucket, s.pos) && NewBefore(st, s.bucket, s.pos)
    ensures code == 0 <==> NewBefore(st, s.bucket, s.pos + 1)
    ensures code == 0 ==> mapNew' == Remaining(st, s.bucket, s.pos + 1)
  {
    hide NewBefore, Visits;
    NewBeforeNext(st, s);
    mapNew' := mapNew;
    code := 0;
    if s in st.new_ {
      var id := st.new_[s];
      if id !in mapNew {
        return -12, mapNew;
      }
      if id !in st.infos || st.env.BucketPosition(st.key, true, s.bucket, st.infos[id].addr) != s.pos {
        return -19, mapNew;
      }
      mapNew' := mapNew[id := mapNew[id] - 1];
      if mapNew'[id] == 0 {
        mapNew' := mapNew' - {id};
        assert mapNew' == mapNew - {id};
      }
    }
    RemainingNext(st, s);
  }

  method CheckNewBucket(st: State, b: nat, mapNew: map<Id, int>) returns (code: int, mapNew': map<Id, int>)
    requires InRange(st) && mapNew == Remaining(st, b, 0) && NewBefore(st, b, 0)
    ensures code == 0 <==> NewBefore(st, b + 1, 0)
    ensures code == 0 ==> mapNew' == Remaining(st, b + 1, 0)
  {
    hide NewBefore, Remaining;
    mapNew' := mapNew;
    for i := 0 to BUCKET_SIZE
      invariant mapNew' == Remaining(st, b, i) && NewBefore(st, b, i)
    {
      code, mapNew' := CheckNewSlot(st, Slot(b, i), mapNew');
      if code != 0 {
        if NewBefore(st, b + 1, 0) {
          NewBeforeEarlier(st, b, i + 1, b + 1, 0);
        }
        return;
      }
    }
    NewBeforeRow(st, b);
    code := 0;
  }

  method CheckNewTable(st: State, mapNew: map<Id, int>) returns (code: int, mapNew': map<Id, int>)
    requires InRange(st) && (forall id | id in st.infos && !st.infos[id].inTried :: st.infos[id].refCount > 0)
    requires mapNew == map id | id in st.infos && !st.infos[id].inTried :: st.infos[id].refCount
    ensures code == 0 && mapNew' == map[] <==>
      && (forall s | s in st.new_ :: NewSlotAccepted(st, s))
      && (forall id | id in st.infos && !st.infos[id].inTried :: |SlotsOf(st.new_, id)| == st.infos[id].refCount)
  {
    hide NewBefore, Remaining;
    NewEnds(st);
    mapNew' := mapNew;
    for b := 0 to NEW_BUCKET_COUNT
      invariant mapNew' == Remaining(st, b, 0) && NewBefore(st, b, 0)
    {
      code, mapNew' := CheckNewBucket(st, b, mapNew');
      if code != 0 {
        if NewBefore(st, NEW_BUCKET_COUNT, 0) {
          NewBeforeEarlier(st, b + 1, 0, NEW_BUCKET_COUNT, 0);
        }
        return;
      }
    }
    code := 0;
  }

  lemma NewEnds(st: State)
    requires InRange(st) && (forall id | id in st.infos && !st.infos[id].inTried :: st.infos[id].refCount > 0)
    ensures NewBefore(st, 0, 0)
    ensures Remaining(st, 0, 0) == map id | id in st.infos && !st.infos[id].inTried :: st.infos[id].refCount
    ensures NewBefore(st, NEW_BUCKET_COUNT, 0) && Remaining(st, NEW_BUCKET_COUNT, 0) == map[] <==>
      && (forall s | s in st.new_ :: NewSlotAccepted(st, s))
      && (forall id | id in st.infos && !st.infos[id].inTried :: |SlotsOf(st.new_, id)| == st.infos[id].refCount)
  {
    hide NewSlotAccepted, Visits, SlotsOf;
    forall id
      ensures Visits(st, id, 0, 0) == 0 && Visits(st, id, NEW_BUCKET_COUNT, 0) == |SlotsOf(st.new_, id)|
    {
      VisitsEnds(st, id);
    }
    var left := Remaining(st, NEW_BUCKET_COUNT, 0);
    if left == map[] {
      forall id | id in st.infos && !st.infos[id].inTried
        ensures Visits(st, id, NEW_BUCKET_COUNT, 0) >= st.infos[id].refCount
      {
        assert id !in left;
      }
    }
  }

  // ---- The whole check ----

  lemma ScanSizes(st: State, scan: Scan)
    requires Scanned(st, {}, scan)
    ensures |scan.setTried| == Tally(st.env, st.infos, {}, true, None)
    ensures |scan.mapNew| == Tally(st.env, st.infos, {}, false, None)
    ensures |scan.local| == |Networks(st, {})|
    ensures forall net :: CountOf(scan.local, net) == LocalCounts(st, {}, net)
    ensures scan.setTried == (set id | id in st.infos && st.infos[id].inTried)
    ensures scan.mapNew == (map id | id in st.infos && !st.infos[id].inTried :: st.infos[id].refCount)
  {
    hide EntryAccepted, Networks, LocalCounts;
    assert scan.setTried == set id | id in st.infos && Counts1(st.env, st.infos, {}, id, true, None);
    assert scan.mapNew.Keys == set id | id in st.infos && Counts1(st.env, st.infos, {}, id, false, None);
    forall net
      ensures CountOf(scan.local, net) == LocalCounts(st, {}, net)
    {
      if net !in scan.local {
        NoSuchNetwork(st, {}, net);
      }
    }
  }

  method CheckCounts(st: State, local: map<Network, Counts>) returns (code: int)
    ensures code == 0 <==> forall net | net in st.counts :: st.counts[net] == CountOf(local, net)
  {
    var todo := st.counts.Keys;
    while todo != {}
      invariant todo <= st.counts.Keys
      invariant forall net | net in st.counts && net !in todo :: st.counts[net] == CountOf(local, net)
      decreases todo
    {
      var net :| net in todo;
      if CountOf(local, net) != st.counts[net] {
        return -21;
      }
      todo := todo - {net};
    }
    code := 0;
  }

  /** CheckAddrman returns 0 on exactly the states described by Accepts. */
  method Check(st: State) returns (code: int)
    requires InRange(st)
    ensures code == 0 <==> Accepts(st)
  {
    hide EntryAccepted, TriedSlotAccepted, NewSlotAccepted, Seated, Networks, LocalCounts, Tally, SlotsOf, Scanned;
    hide InRange;
    if |st.random| != st.nTried + st.nNew {
      return -7;
    }
    var scan: Scan;
    code, scan := CheckEntries(st);
    if code != 0 {
      return;
    }
    ScanSizes(st, scan);
    if |scan.setTried| != st.nTried {
      return -9;
    }
    if |scan.mapNew| != st.nNew {
      return -10;
    }
    RefCountsPositive(st);
    var setTried, mapNew;
    code, setTried := CheckTriedTable(st, scan.setTried);
    if code != 0 {
      return;
    }
    code, mapNew := CheckNewTable(st, scan.mapNew);
    if code != 0 {
      return;
    }
    SeatedIff(st, setTried);
    if |setTried| != 0 {
      return -13;
    }
    if |mapNew| != 0 {
      return -15;
    }
    if st.key == 0 {
      return -16;
    }
    if |st.counts| < |scan.local| {
      return -20;
    }
    code := CheckCounts(st, scan.local);
  }

  lemma RefCountsPositive(st: State)
    requires forall id | id in st.infos :: EntryAccepted(st, id)
    ensures forall id | id in st.infos && !st.infos[id].inTried :: st.infos[id].refCount > 0
  {
    forall id | id in st.infos && !st.infos[id].inTried
      ensures st.infos[id].refCount > 0
    {
      assert EntryAccepted(st, id);
    }
  }

  lemma SeatedIff(st: State, unseated: set<Id>)
    requires unseated == set id | id in st.infos && st.infos[id].inTried && !Seated(st, id)
    ensures |unseated| == 0 <==> forall id | id in st.infos && st.infos[id].inTried :: Seated(st, id)
  {
    hide Seated;
    if |unseated| == 0 {
      forall id | id in st.infos && st.infos[id].inTried
        ensures Seated(st, id)
      {
        assert id !in unseated;
      }
    }
  }

  method CheckAddrman(am: AddrMan) returns (code: int)
    requires InRange(am.Snap())
    ensures code == 0 <==> Accepts(am.Snap())
  {
    code := Check(am.Snap());
  }

  // ---- Accepted and consistent ----

  /** Every state kept by the operations passes the check. */
  lemma ConsistentIsAccepted(st: State)
    requires Ok(st, {}, {})
    ensures InRange(st) && Accepts(st)
  {
    hide Indexed, TriedOk, NewOk, EntriesOk, EntryAccepted, TriedSlotAccepted, NewSlotAccepted, Seated, Networks;
    hide LocalCounts, Tally, SlotsOf, InRange;
    TalliesAddUp(st);
    forall id | id in st.infos
      ensures EntryAccepted(st, id)
    {
      ConsistentEntry(st, id);
    }
    TriedAccepted(st);
    NewAccepted(st);
    RangesHold(st);
    IndexSize(st);
    NetworksCounted(st);
  }

  lemma IndexSize(st: State)
    requires Indexed(st.infos, st.addrs, st.random, st.idCount)
    ensures |st.random| == |st.infos|
  {
  }

  lemma ConsistentEntry(st: State, id: Id)
    requires Ok(st, {}, {}) && id in st.infos
    ensures EntryAccepted(st, id)
  {
    hide TriedOk, NewOk, CountsOk, EntriesOk;
    EntryFacts(st, {}, {}, id);
  }

  lemma TriedAccepted(st: State)
    requires TriedOk(st.env, st.key, st.infos, st.tried)
    ensures forall s | s in st.tried :: TriedSlotAccepted(st, s)
    ensures forall id | id in st.infos && st.infos[id].inTried :: Seated(st, id)
  {
  }

  lemma NewAccepted(st: State)
    requires NewOk(st.env, st.key, st.infos, st.new_, {})
    ensures forall s | s in st.new_ :: NewSlotAccepted(st, s)
    ensures forall id | id in st.infos && !st.infos[id].inTried :: |SlotsOf(st.new_, id)| == st.infos[id].refCount
  {
    hide SlotsOf;
  }

  lemma RangesHold(st: State)
    requires TriedOk(st.env, st.key, st.infos, st.tried) && NewOk(st.env, st.key, st.infos, st.new_, {})
    ensures InRange(st)
  {
    hide SlotsOf;
  }

  lemma TalliesAddUp(st: State)
    ensures Tally(st.env, st.infos, {}, true, None) + Tally(st.env, st.infos, {}, false, None) == |st.infos|
  {
    var a := set id | id in st.infos && Counts1(st.env, st.infos, {}, id, true, None);
    var b := set id | id in st.infos && Counts1(st.env, st.infos, {}, id, false, None);
    forall id
      ensures id in a + b <==> id in st.infos.Keys
      ensures !(id in a && id in b)
    {
    }
    Partition(a, b, st.infos.Keys);
  }

  lemma Partition(a: set<Id>, b: set<Id>, whole: set<Id>)
    requires forall id :: id in a + b <==> id in whole
    requires forall id :: !(id in a && id in b)
    ensures |a| + |b| == |whole|
  {
    assert a + b == whole && a !! b;
  }

  lemma NetworkTallied(st: State, id: Id)
    requires id in st.infos
    ensures LocalCounts(st, {}, st.env.network(st.infos[id].addr)) != Counts(0, 0)
  {
    var net := st.env.network(st.infos[id].addr);
    var members := set j | j in st.infos && Counts1(st.env, st.infos, {}, j, st.infos[id].inTried, Some(net));
    assert id in members;
  }

  lemma NetworksCounted(st: State)
    requires CountsOk(st.env, st.infos, {}, st.nNew, st.nTried, st.counts)
    ensures Networks(st, {}) <= st.counts.Keys && |Networks(st, {})| <= |st.counts|
    ensures forall net | net in st.counts :: st.counts[net] == LocalCounts(st, {}, net)
  {
    hide Tally;
    forall id | id in st.infos
      ensures st.env.network(st.infos[id].addr) in st.counts
    {
      var net := st.env.network(st.infos[id].addr);
      NetworkTallied(st, id);
      assert CountOf(st.counts, net) == LocalCounts(st, {}, net);
    }
    SubsetSize(Networks(st, {}), st.counts.Keys);
    forall net | net in st.counts
      ensures st.counts[net] == LocalCounts(st, {}, net)
    {
      assert CountOf(st.counts, net) == LocalCounts(st, {}, net);
    }
  }

  /** In an accepted state the per-network counters are exact if and only if every network in use has one. */
  lemma AcceptedCountsExact(st: State)
    requires Accepts(st)
    ensures (forall net :: CountOf(st.counts, net) == LocalCounts(st, {}, net)) <==> Networks(st, {}) <= st.counts.Keys
  {
    hide EntryAccepted, TriedSlotAccepted, NewSlotAccepted, Seated, LocalCounts, SlotsOf, Tally;
    if Networks(st, {}) <= st.counts.Keys {
      forall net
        ensures CountOf(st.counts, net) == LocalCounts(st, {}, net)
      {
        if net !in st.counts {
          NoSuchNetwork(st, {}, net);
        }
      }
    }
    if forall net :: CountOf(st.counts, net) == LocalCounts(st, {}, net) {
      forall id | id in st.infos
        ensures st.env.network(st.infos[id].addr) in st.counts
      {
        NetworkTallied(st, id);
      }
    }
  }

  /**
    The check does not see a network without a counter: one new entry on network `n`, while the only
    counter kept is a zero for another network, is accepted.
   */
  lemma CheckMissesNetwork(env: Env, key: nat, a: Service, other: Network)
    requires key != 0 && other != env.network(a)
    ensures
      var info := AddrInfo(a, {}, 0, 0, 0, 0, 0, 0, 1, false, 0);
      var st := State(env, key, 1, map[0 := info], map[a := 0], [0], map[env.NewSlot(key, a, 0) := 0], map[], 1, 0,
                      map[other := Counts(0, 0)]);
      && Accepts(st) && CountOf(st.counts, env.network(a)) != LocalCounts(st, {}, env.network(a))
  {
    var info := AddrInfo(a, {}, 0, 0, 0, 0, 0, 0, 1, false, 0);
    var s := env.NewSlot(key, a, 0);
    var st := State(env, key, 1, map[0 := info], map[a := 0], [0], map[s := 0], map[], 1, 0,
      map[other := Counts(0, 0)]);
    assert st.infos.Keys == {0};
    assert SlotsOf(st.new_, 0) == {s};
    assert (set id | id in st.infos && Counts1(env, st.infos, {}, id, false, None)) == {0};
    assert (set id | id in st.infos && Counts1(env, st.infos, {}, id, true, None)) == {};
    assert Networks(st, {}) == {env.network(a)};
    NoSuchNetwork(st, {}, other);
    NetworkTallied(st, 0);
  }

  // ---- From accepted back to consistent ----

  ghost function Positions(st: State, ids: set<Id>): set<nat>
    requires forall id | id in ids :: id in st.infos && 0 <= st.infos[id].randomPos
  {
    set id | id in ids :: st.infos[id].randomPos
  }

  ghost function UpTo(n: nat): set<nat> {
    if n == 0 then {} else UpTo(n - 1) + {n - 1}
  }

  lemma {:induction false} UpToSize(n: nat)
    ensures |UpTo(n)| == n && forall i: nat :: i in UpTo(n) <==> i < n
  {
    if n > 0 {
      UpToSize(n - 1);
    }
  }

  /** Entries point to distinct places, so there are as many places as entries. */
  lemma {:induction false} PositionsSize(st: State, ids: set<Id>)
    requires forall id | id in ids ::
      id in st.infos && 0 <= st.infos[id].randomPos < |st.random| && st.random[st.infos[id].randomPos] == id
    ensures |Positions(st, ids)| == |ids|
  {
    if ids == {} {
      assert Positions(st, ids) == {};
    } else {
      var id :| id in ids;
      PositionsSize(st, ids - {id});
      assert Positions(st, ids) == Positions(st, ids - {id}) + {st.infos[id].randomPos};
      assert st.infos[id].randomPos !in Positions(st, ids - {id});
    }
  }

  lemma EqualSizes(a: set<nat>, b: set<nat>)
    requires a <= b && |a| == |b|
    ensures a == b
  {
    assert |b - a| == |b| - |a|;
    assert b - a == {};
  }

  /** As many entries as places, each entry pointing to its place: the two are inverse. */
  lemma PlacesFilled(st: State)
    requires Accepts(st)
    ensures |st.random| == |st.infos|
    ensures forall i | 0 <= i < |st.random| :: st.random[i] in st.infos && st.infos[st.random[i]].randomPos == i
  {
    hide Tally, SlotsOf, LocalCounts, Networks, Seated, TriedSlotAccepted, NewSlotAccepted;
    TalliesAddUp(st);
    forall id | id in st.infos
      ensures 0 <= st.infos[id].randomPos < |st.random| && st.random[st.infos[id].randomPos] == id
    {
      assert EntryAccepted(st, id);
    }
    PlacesCovered(st);
  }

  lemma PlacesCovered(st: State)
    requires |st.random| == |st.infos|
    requires forall id | id in st.infos ::
      0 <= st.infos[id].randomPos < |st.random| && st.random[st.infos[id].randomPos] == id
    ensures forall i | 0 <= i < |st.random| :: st.random[i] in st.infos && st.infos[st.random[i]].randomPos == i
  {
    var ids := st.infos.Keys;
    PositionsSize(st, ids);
    UpToSize(|st.random|);
    assert Positions(st, ids) <= UpTo(|st.random|);
    EqualSizes(Positions(st, ids), UpTo(|st.random|));
    forall i | 0 <= i < |st.random|
      ensures st.random[i] in st.infos && st.infos[st.random[i]].randomPos == i
    {
      assert i in UpTo(|st.random|);
      assert i in Positions(st, ids);
      var id :| id in ids && st.infos[id].randomPos == i;
    }
  }

  /**
    An accepted state is fully consistent as soon as what the check does not look at holds: ids were
    handed out, the address index has no stale key, addresses are valid, and networks in use have counters.
   */
  lemma AcceptedIsConsistent(st: State)
    requires InRange(st) && Accepts(st)
    requires forall id | id in st.infos :: id < st.idCount && st.env.valid(st.infos[id].addr)
    requires forall a | a in st.addrs :: st.addrs[a] in st.infos && st.infos[st.addrs[a]].addr == a
    requires Networks(st, {}) <= st.counts.Keys
    ensures Ok(st, {}, {})
  {
    hide Tally, SlotsOf, LocalCounts, Networks, TriedSlotAccepted, NewSlotAccepted, Seated, EntryAccepted, Indexed;
    hide TriedOk, NewOk, CountsOk, EntriesOk;
    PlacesFilled(st);
    AcceptedCountsExact(st);
    CountsFrom(st);
    TablesFrom(st);
    IndexFrom(st);
  }

  lemma IndexFrom(st: State)
    requires |st.random| == |st.infos| && forall id | id in st.infos :: EntryAccepted(st, id)
    requires forall i | 0 <= i < |st.random| :: st.random[i] in st.infos && st.infos[st.random[i]].randomPos == i
    requires forall id | id in st.infos :: id < st.idCount && st.env.valid(st.infos[id].addr)
    requires forall a | a in st.addrs :: st.addrs[a] in st.infos && st.infos[st.addrs[a]].addr == a
    ensures Indexed(st.infos, st.addrs, st.random, st.idCount) && EntriesOk(st.env, st.infos)
  {
    forall id | id in st.infos
      ensures EntryAccepted(st, id)
    {
    }
  }

  lemma CountsFrom(st: State)
    requires st.nTried == Tally(st.env, st.infos, {}, true, None) && st.nNew == Tally(st.env, st.infos, {}, false, None)
    requires forall net :: CountOf(st.counts, net) == LocalCounts(st, {}, net)
    ensures CountsOk(st.env, st.infos, {}, st.nNew, st.nTried, st.counts)
  {
    hide Tally;
    forall net
      ensures CountOf(st.counts, net) ==
        Counts(Tally(st.env, st.infos, {}, false, Some(net)), Tally(st.env, st.infos, {}, true, Some(net)))
    {
      assert CountOf(st.counts, net) == LocalCounts(st, {}, net);
    }
  }

  lemma TablesFrom(st: State)
    requires InRange(st) && Accepts(st)
    ensures TriedOk(st.env, st.key, st.infos, st.tried) && NewOk(st.env, st.key, st.infos, st.new_, {})
  {
    hide Tally, SlotsOf, LocalCounts, Networks;
    forall id | id in st.infos
      ensures EntryAccepted(st, id)
    {
    }
    forall s | s in st.tried
      ensures TriedSlotAccepted(st, s)
    {
    }
    forall s | s in st.new_
      ensures NewSlotAccepted(st, s)
    {
    }
  }
}
