/** AddrManImpl: the mutable structures and the operations that move entries between them. */
module AddrManCore {
  import opened Wrappers
  import opened IntMath
  import opened AddrManModel

  class AddrMan {
    const env: Env
    var key: nat
    var nIdCount: nat
    var mapInfo: Infos
    var mapAddr: map<Service, Id>
    var vRandom: seq<Id>
    var nTried: int
    var vvTried: Table
    var nNew: int
    var vvNew: Table
    var lastGood: Seconds
    var triedCollisions: set<Id>
    var networkCounts: map<Network, Counts>

    constructor (env: Env, key: nat)
      requires key != 0
      ensures Valid() && this.env == env && this.key == key
      ensures Snap() == State(env, key, 0, map[], map[], [], map[], map[], 0, 0, map[]) && triedCollisions == {}
    {
      this.env, this.key := env, key;
      nIdCount, mapInfo, mapAddr, vRandom := 0, map[], map[], [];
      nTried, vvTried, nNew, vvNew := 0, map[], 0, map[];
      lastGood, triedCollisions, networkCounts := 1, {}, map[];
    }

    function Snap(): State
      reads this
    {
      State(env, key, nIdCount, mapInfo, mapAddr, vRandom, vvNew, vvTried, nNew, nTried, networkCounts)
    }

    /** What holds between any two operations. */
    ghost predicate Valid()
      reads this
    {
      Ok(Snap(), {}, {}) && CollisionsOk(env, key, mapInfo, vvTried, triedCollisions, nIdCount)
    }

    function Find(a: Service): (r: Option<Id>)
      reads this
      ensures Indexed(mapInfo, mapAddr, vRandom, nIdCount) ==> (r.Some? <==> a in mapAddr)
      ensures r.Some? ==> a in mapAddr && mapAddr[a] == r.value && r.value in mapInfo
    {
      if a in mapAddr && mapAddr[a] in mapInfo then Some(mapAddr[a]) else None
    }

    // ---- Elementary operations ----

    method Create(addr: Address, source: NetAddr, ghost limbo: set<Id>, ghost zero: set<Id>) returns (id: Id)
      requires Ok(Snap(), limbo, zero) && env.valid(addr.service) && addr.service !in mapAddr
      modifies this`nIdCount, this`mapInfo, this`mapAddr, this`vRandom, this`nNew, this`networkCounts
      ensures Ok(Snap(), limbo, zero + {id}) && id == old(nIdCount) && id !in zero && id !in old(mapInfo)
      ensures Snap() == Inserted(old(Snap()), addr, source)
      ensures Snap().NewView() == old(Snap().NewView()) && Snap().TriedView() == old(Snap().TriedView())
    {
      hide Indexed, TriedOk, NewOk, CountsOk, EntriesOk, Services;
      InsertKeeps(Snap(), limbo, zero, addr, source);
      id := nIdCount;
      nIdCount := nIdCount + 1;
      mapInfo := mapInfo[id := AddrInfo(addr.service, addr.services, addr.time, source, 0, 0, 0, 0, 0, false,
        |vRandom|)];
      mapAddr := mapAddr[addr.service := id];
      vRandom := vRandom + [id];
      nNew := nNew + 1;
      networkCounts := Bump(networkCounts, env.network(addr.service), 1, 0);
    }

    method SwapRandom(i: nat, j: nat, ghost limbo: set<Id>, ghost zero: set<Id>)
      requires Ok(Snap(), limbo, zero) && i < |vRandom| && j < |vRandom|
      modifies this`mapInfo, this`vRandom
      ensures Ok(Snap(), limbo, zero)
      ensures old(vRandom[i] in mapInfo && vRandom[j] in mapInfo) && Snap() == SwappedAt(old(Snap()), i, j)
      ensures Snap().NewView() == old(Snap().NewView()) && Snap().TriedView() == old(Snap().TriedView())
    {
      hide Indexed, TriedOk, NewOk, CountsOk, EntriesOk, Services;
      SwapKeeps(Snap(), limbo, zero, i, j);
      if i == j {
        return;
      }
      var id1, id2 := vRandom[i], vRandom[j];
      mapInfo := mapInfo[id1 := mapInfo[id1].(randomPos := j)];
      mapInfo := mapInfo[id2 := mapInfo[id2].(randomPos := i)];
      vRandom := vRandom[i := id2][j := id1];
    }

    /** Remove the entry at the end of vRandom. */
    method RemoveLast(id: Id, ghost limbo: set<Id>, ghost zero: set<Id>)
      requires Ok(Snap(), limbo, zero) && id in zero && id !in limbo
      requires id in mapInfo && mapInfo[id].randomPos == |vRandom| - 1
      modifies this`mapInfo, this`mapAddr, this`vRandom, this`nNew, this`networkCounts
      ensures Ok(Snap(), limbo, zero - {id}) && mapInfo == old(mapInfo) - {id}
      ensures Snap().NewView() == old(Snap().NewView()) && Snap().TriedView() == old(Snap().TriedView())
    {
      hide Ok, Services;
      RemoveKeeps(Snap(), limbo, zero, id);
      var info := mapInfo[id];
      networkCounts := Bump(networkCounts, env.network(info.addr), -1, 0);
      vRandom := vRandom[..|vRandom| - 1];
      mapAddr := mapAddr - {info.addr};
      mapInfo := mapInfo - {id};
      nNew := nNew - 1;
    }

    /** Remove an entry that is in neither table. */
    method Delete(id: Id, ghost limbo: set<Id>, ghost zero: set<Id>)
      requires Ok(Snap(), limbo, zero) && id in zero && id !in limbo
      modifies this`mapInfo, this`mapAddr, this`vRandom, this`nNew, this`networkCounts
      ensures Ok(Snap(), limbo, zero - {id})
      ensures SameEntries(old(mapInfo), mapInfo, id) && id !in mapInfo
      ensures Snap().NewView() == old(Snap().NewView()) && Snap().TriedView() == old(Snap().TriedView())
    {
      hide Ok, Services, SameEntries, Alike;
      ZeroEntry(Snap(), limbo, zero, id);
      LastPosition(Snap(), limbo, zero, id);
      assert !mapInfo[id].inTried && mapInfo[id].refCount == 0;
      SwapRandom(mapInfo[id].randomPos, |vRandom| - 1, limbo, zero);
      RemoveLast(id, limbo, zero);
    }

    /** Empty a new slot; an entry that loses its last slot is deleted. */
    method ClearNew(s: Slot, ghost limbo: set<Id>, ghost zero: set<Id>)
      requires Ok(Snap(), limbo, zero) && limbo <= zero
      modifies this`vvNew, this`mapInfo, this`mapAddr, this`vRandom, this`nNew, this`networkCounts
      ensures Ok(Snap(), limbo, zero) && vvNew == old(vvNew) - {s}
      ensures s !in old(vvNew) ==> mapInfo == old(mapInfo)
      ensures s in old(vvNew) ==> SameEntries(old(mapInfo), mapInfo, old(vvNew)[s]) && old(vvNew)[s] !in zero
      ensures Snap().NewView() == old(Snap().NewView()) - {s} && Snap().TriedView() == old(Snap().TriedView())
    {
      hide Indexed, TriedOk, NewOk, CountsOk, EntriesOk;
      if s in vvNew {
        DropKeeps(Snap(), limbo, zero, s);
        var id := vvNew[s];
        mapInfo := mapInfo[id := mapInfo[id].(refCount := mapInfo[id].refCount - 1)];
        vvNew := vvNew - {s};
        if mapInfo[id].refCount == 0 {
          Delete(id, limbo, zero + {id});
          assert zero + {id} - {id} == zero;
        }
      }
    }

    /** One bucket of the scan: give up the slot there if the entry holds it. */
    method LeaveBucket(id: Id, bucket: nat, ghost zero: set<Id>) returns (left: bool)
      requires Ok(Snap(), {}, zero) && zero <= {id} && id in mapInfo
      modifies this`vvNew, this`mapInfo
      ensures id in mapInfo && mapInfo == old(mapInfo)[id := old(mapInfo)[id].(refCount := mapInfo[id].refCount)]
      ensures
        var s := env.NewSlot(key, mapInfo[id].addr, bucket);
        && left == (s in old(vvNew) && old(vvNew)[s] == id)
        && vvNew == if left then old(vvNew) - {s} else old(vvNew)
      ensures Ok(Snap(), {}, if left && mapInfo[id].refCount == 0 then {id} else zero)
      ensures if left then zero == {} else mapInfo == old(mapInfo)
    {
      hide Ok, Services;
      var s := env.NewSlot(key, mapInfo[id].addr, bucket);
      left := s in vvNew && vvNew[s] == id;
      if left {
        DropKeeps(Snap(), {}, zero, s);
        assert zero + {id} == {id};
        vvNew := vvNew - {s};
        mapInfo := mapInfo[id := mapInfo[id].(refCount := mapInfo[id].refCount - 1)];
      }
    }

    /** First part of MakeTried: scan the new buckets, from the entry's own, and give up each slot it holds. */
    method RemoveFromNew(id: Id)
      requires Ok(Snap(), {}, {}) && id in mapInfo && !mapInfo[id].inTried
      modifies this`vvNew, this`mapInfo
      ensures Ok(Snap(), {}, {id})
      ensures id in mapInfo && mapInfo == old(mapInfo)[id := old(mapInfo)[id].(refCount := 0)]
      ensures vvNew == map s | s in old(vvNew) && old(vvNew)[s] != id :: old(vvNew)[s]
    {
      hide Ok, Services, Scrubbed;
      var start := env.NewBucket(key, mapInfo[id].addr, mapInfo[id].source);
      ghost var st0 := Snap();
      ScrubBegin(st0, id, start);
      var n := 0;
      while n < NEW_BUCKET_COUNT
        invariant n <= NEW_BUCKET_COUNT
        invariant id in mapInfo && mapInfo == st0.infos[id := st0.infos[id].(refCount := mapInfo[id].refCount)]
        invariant vvNew == Scrubbed(st0.new_, id, start, n)
        invariant Ok(Snap(), {}, if mapInfo[id].refCount == 0 then {id} else {})
      {
        ScrubStep(st0, id, start, n);
        ghost var zero := if mapInfo[id].refCount == 0 then {id} else {};
        EntryFacts(Snap(), {}, zero, id);
        var left := LeaveBucket(id, (start + n) % NEW_BUCKET_COUNT, zero);
        n := n + 1;
        if left && mapInfo[id].refCount == 0 {
          break;
        }
      }
      ScrubEnd(st0, Snap(), if mapInfo[id].refCount == 0 then {id} else {}, id, start, n);
    }

    /** Take the occupant of tried slot `t` out of the tried table. */
    method Unseat(t: Slot, ghost limbo: set<Id>, ghost zero: set<Id>) returns (e: Id)
      requires Ok(Snap(), limbo, zero) && limbo <= zero && t in vvTried
      modifies this`vvTried, this`mapInfo, this`nTried, this`networkCounts
      ensures Ok(Snap(), limbo + {e}, zero + {e}) && e !in zero
      ensures e == old(vvTried)[t] && e in old(mapInfo) && Snap() == LeaveTried(old(Snap()), t)
      ensures Snap().NewView() == old(Snap().NewView()) && Snap().TriedView() == old(Snap().TriedView()) - {t}
    {
      hide Ok, Services;
      TriedEntry(Snap(), limbo, zero, t);
      LeaveTriedKeeps(Snap(), limbo, zero, t);
      e := vvTried[t];
      mapInfo := mapInfo[e := mapInfo[e].(inTried := false)];
      vvTried := vvTried - {t};
      nTried := nTried - 1;
      networkCounts := Bump(networkCounts, env.network(mapInfo[e].addr), 0, -1);
    }

    /** Enter an uncounted entry into a free new slot and count it again. */
    method Reseat(e: Id, home: Slot, ghost limbo: set<Id>, ghost zero: set<Id>)
      requires Ok(Snap(), limbo, zero) && e in limbo && e in zero && home !in vvNew
      requires e in mapInfo && home.bucket < NEW_BUCKET_COUNT && home == env.NewSlot(key, mapInfo[e].addr, home.bucket)
      modifies this`vvNew, this`mapInfo, this`nNew, this`networkCounts
      ensures Ok(Snap(), limbo - {e}, zero - {e})
      ensures mapInfo == old(mapInfo)[e := old(mapInfo)[e].(refCount := 1)]
      ensures Snap().NewView() == old(Snap().NewView())[home := old(mapInfo)[e].addr]
      ensures Snap().TriedView() == old(Snap().TriedView())
    {
      hide Ok, Services;
      ZeroEntry(Snap(), limbo, zero, e);
      TakeKeeps(Snap(), limbo, zero, home, e);
      RecountKeeps(Taken(Snap(), home, e), limbo, zero - {e}, e);
      mapInfo := mapInfo[e := mapInfo[e].(refCount := 1)];
      vvNew := vvNew[home := e];
      nNew := nNew + 1;
      networkCounts := Bump(networkCounts, env.network(mapInfo[e].addr), 1, 0);
    }

    /**
      Make room in the tried slot `t` for the entry `id`: its occupant moves back to the new slot
      of its own source, displacing whatever is there.
     */
    method Evict(t: Slot, id: Id)
      requires Ok(Snap(), {id}, {id}) && t in vvTried
      modifies this`vvNew, this`vvTried, this`mapInfo, this`mapAddr, this`vRandom, this`nNew, this`nTried
      modifies this`networkCounts
      ensures Ok(Snap(), {id}, {id}) && vvTried == old(vvTried) - {t}
      ensures old(vvTried[t] in mapInfo)
      ensures Snap().TriedView() == old(Snap().TriedView()) - {t}
      ensures Snap().NewView() == old(Snap().NewView())[old(Home(Snap(), vvTried[t])) := old(mapInfo[vvTried[t]].addr)]
      ensures id in mapInfo && Kept(old(mapInfo), mapInfo)
    {
      hide Ok, Services, SameEntries, Kept;
      ghost var infos0 := mapInfo;
      var e := Unseat(t, {id}, {id});
      var home := env.NewSlot(key, mapInfo[e].addr, env.NewBucket(key, mapInfo[e].addr, mapInfo[e].source));
      ghost var both := {id} + {e};
      ghost var infos1, new1 := mapInfo, vvNew;
      ClearNew(home, both, both);
      ClearedKept(infos0, infos1, mapInfo, e, if home in new1 then Some(new1[home]) else None);
      KeptRef(infos0, mapInfo, e, 1);
      ZeroEntry(Snap(), both, both, id);
      Reseat(e, home, both, both);
      assert both - {e} == {id};
    }

    /** Count the entry out of the new table and enter it, through a free tried slot, into the tried one. */
    method Promote(id: Id, t: Slot)
      requires Ok(Snap(), {id}, {id}) && t !in vvTried
      requires id in mapInfo && t == env.TriedSlot(key, mapInfo[id].addr) && mapInfo[id].lastSuccess > 0
      modifies this`vvTried, this`mapInfo, this`nTried, this`networkCounts
      ensures Ok(Snap(), {}, {}) && vvTried == old(vvTried)[t := id]
      ensures mapInfo == old(mapInfo)[id := old(mapInfo)[id].(inTried := true)]
      ensures Snap().NewView() == old(Snap().NewView())
      ensures Snap().TriedView() == old(Snap().TriedView())[t := old(mapInfo)[id].addr]
    {
      hide Ok, Services, Bump;
      EnterTriedKeeps(Snap(), {id}, {id}, id);
      assert {id} - {id} == {};
      vvTried := vvTried[t := id];
      nTried := nTried + 1;
      mapInfo := mapInfo[id := mapInfo[id].(inTried := true)];
      networkCounts := Bump(networkCounts, env.network(mapInfo[id].addr), 0, 1);
    }

    /** Give up all new slots of an entry and count it out of the new table. */
    method LeaveNew(id: Id)
      requires Ok(Snap(), {}, {}) && id in mapInfo && !mapInfo[id].inTried
      modifies this`vvNew, this`mapInfo, this`nNew, this`networkCounts
      ensures Ok(Snap(), {id}, {id}) && id in mapInfo && mapInfo == old(mapInfo)[id := old(mapInfo)[id].(refCount := 0)]
      ensures Snap().NewView() == WithoutService(old(Snap().NewView()), old(mapInfo[id].addr))
      ensures Snap().TriedView() == old(Snap().TriedView())
    {
      hide Ok, Services, WithoutService;
      ghost var st0 := Snap();
      RemoveFromNew(id);
      ScrubbedView(st0, Snap(), id);
      UncountKeeps(Snap(), {}, {id}, id);
      assert {} + {id} == {id};
      nNew := nNew - 1;
      networkCounts := Bump(networkCounts, env.network(mapInfo[id].addr), -1, 0);
    }

    /**
      Move an entry from the new table to its tried slot. All its new slots are given up; an
      entry already sitting in that tried slot goes back to the new table.
     */
    method MakeTried(id: Id)
      requires Ok(Snap(), {}, {}) && id in mapInfo && !mapInfo[id].inTried && mapInfo[id].lastSuccess > 0
      modifies this`vvNew, this`vvTried, this`mapInfo, this`mapAddr, this`vRandom, this`nNew, this`nTried
      modifies this`networkCounts
      ensures Ok(Snap(), {}, {}) && id in mapInfo && mapInfo[id].inTried
      ensures Kept(old(mapInfo), mapInfo)
      ensures vvTried.Keys == old(vvTried.Keys) + {old(env.TriedSlot(key, mapInfo[id].addr))}
      ensures MadeTried(old(Snap()), Snap(), id)
    {
      hide Ok, Services, Kept, WithoutService;
      ghost var st0 := Snap();
      LeaveNew(id);
      ghost var st1 := Snap();
      assert mapInfo[id].refCount == 0;
      var bucket := env.TriedBucket(key, mapInfo[id].addr);
      var t := Slot(bucket, env.BucketPosition(key, false, bucket, mapInfo[id].addr));
      if t in vvTried {
        TriedEntry(Snap(), {id}, {id}, t);
        Evict(t, id);
        assert (st0.TriedView() - {t})[t := st0.infos[id].addr] == st0.TriedView()[t := st0.infos[id].addr];
      }
      assert t !in vvTried;
      KeptPromote(st0.infos, st1.infos, mapInfo, id);
      Promote(id, t);
    }

    // ---- Adding an address ----

    /** Give the slot `s` to an entry, dropping the occupant's claim to it. */
    method TakeOver(id: Id, s: Slot, ghost zero: set<Id>)
      requires Ok(Snap(), {}, zero) && zero <= {id} && (s in vvNew ==> vvNew[s] != id)
      requires id in mapInfo && !mapInfo[id].inTried && mapInfo[id].refCount < NEW_BUCKETS_PER_ADDRESS
      requires s.bucket < NEW_BUCKET_COUNT && s == env.NewSlot(key, mapInfo[id].addr, s.bucket)
      modifies this`vvNew, this`mapInfo, this`mapAddr, this`vRandom, this`nNew, this`networkCounts
      ensures Ok(Snap(), {}, {}) && Kept(old(mapInfo), mapInfo) && id in mapInfo
      ensures Snap().NewView() == old(Snap().NewView())[s := old(mapInfo)[id].addr]
      ensures Snap().TriedView() == old(Snap().TriedView())
    {
      hide Ok, Services, SameEntries, Kept;
      ghost var infos0, new0, view0 := mapInfo, vvNew, Snap().NewView();
      ClearNew(s, {}, zero);
      ClearedKeeps(infos0, mapInfo, id, if s in new0 then Some(new0[s]) else None);
      TakeKeeps(Snap(), {}, zero, s, id);
      KeptRef(infos0, mapInfo, id, mapInfo[id].refCount + 1);
      assert zero - {id} == {};
      assert (view0 - {s})[s := infos0[id].addr] == view0[s := infos0[id].addr];
      mapInfo := mapInfo[id := mapInfo[id].(refCount := mapInfo[id].refCount + 1)];
      vvNew := vvNew[s := id];
    }

    /** Put an entry into its slot `s` if it may; an entry left without any slot is dropped. */
    method Place(id: Id, s: Slot, now: Seconds, ghost zero: set<Id>) returns (inserted: bool)
      requires Ok(Snap(), {}, zero) && zero <= {id}
      requires id in mapInfo && !mapInfo[id].inTried && mapInfo[id].refCount < NEW_BUCKETS_PER_ADDRESS
      requires s.bucket < NEW_BUCKET_COUNT && s == env.NewSlot(key, mapInfo[id].addr, s.bucket)
      modifies this`vvNew, this`mapInfo, this`mapAddr, this`vRandom, this`nNew, this`networkCounts
      ensures Ok(Snap(), {}, {}) && Kept(old(mapInfo), mapInfo)
      ensures inserted <==> old(Occupiable(vvNew, mapInfo, s, id, mapInfo[id].refCount, now))
      ensures inserted ==> id in mapInfo
      ensures inserted ==> Snap().NewView() == old(Snap().NewView())[s := old(mapInfo)[id].addr]
      ensures !inserted ==> Snap().NewView() == old(Snap().NewView()) && (id in mapInfo <==> id !in zero)
      ensures Snap().TriedView() == old(Snap().TriedView())
    {
      hide Ok, Services, SameEntries, Kept;
      ghost var infos0 := mapInfo;
      KeptSelf(infos0);
      EntryFacts(Snap(), {}, zero, id);
      if s in vvNew {
        DropKeeps(Snap(), {}, zero, s);
      }
      inserted := Occupiable(vvNew, mapInfo, s, id, mapInfo[id].refCount, now);
      if inserted {
        TakeOver(id, s, zero);
      } else if (s in vvNew ==> vvNew[s] != id) && mapInfo[id].refCount == 0 {
        Delete(id, {}, zero);
        SameIsKept(infos0, mapInfo, id);
        assert zero - {id} == {};
      } else {
        assert zero == {};
      }
    }

    /** Refresh the time and services of a known entry; false when the announcement brings nothing further. */
    method Refresh(id: Id, addr: Address, penalty: Seconds, now: Seconds, draw: nat) returns (proceed: bool)
      requires Ok(Snap(), {}, {}) && id in mapInfo && mapInfo[id].addr == addr.service
      modifies this`mapInfo
      ensures Ok(Snap(), {}, {}) && id in mapInfo
      ensures mapInfo == old(mapInfo)[id := Refreshed(old(mapInfo)[id], addr, penalty, now)]
      ensures Snap().NewView() == old(Snap().NewView()) && Snap().TriedView() == old(Snap().TriedView())
      ensures proceed <==> Proceeds(old(mapInfo)[id], addr, penalty, now, draw)
      ensures proceed ==> !mapInfo[id].inTried && 0 < mapInfo[id].refCount < NEW_BUCKETS_PER_ADDRESS
    {
      hide Ok, Services;
      EntryFacts(Snap(), {}, {}, id);
      var info := mapInfo[id];
      var interval := if now - addr.time < 24 * 3600 then 3600 else 24 * 3600;
      if info.time < addr.time - interval - penalty {
        info := info.(time := Max(0, addr.time - penalty));
      }
      info := info.(services := info.services + addr.services);
      TouchKeeps(Snap(), {}, {}, id, info);
      mapInfo := mapInfo[id := info];
      proceed := addr.time > info.time && !info.inTried && info.refCount != NEW_BUCKETS_PER_ADDRESS
        && (info.refCount > 0 ==> draw % Pow2(info.refCount) == 0);
    }

    /** Make an entry for an unknown address, its time set back by the penalty. */
    method NewEntry(addr: Address, source: NetAddr, penalty: Seconds) returns (id: Id)
      requires Ok(Snap(), {}, {}) && env.valid(addr.service) && addr.service !in mapAddr
      modifies this`nIdCount, this`mapInfo, this`mapAddr, this`vRandom, this`nNew, this`networkCounts
      ensures Ok(Snap(), {}, {id}) && id == old(nIdCount) < nIdCount && id !in old(mapInfo)
      ensures id in mapInfo && mapInfo == old(mapInfo)[id := mapInfo[id]]
      ensures mapInfo[id].addr == addr.service && !mapInfo[id].inTried && mapInfo[id].refCount == 0
      ensures SameStatistics(mapInfo[id],
        AddrInfo(addr.service, addr.services, Max(0, addr.time - penalty), source, 0, 0, 0, 0, 0, false, 0))
      ensures Snap().NewView() == old(Snap().NewView()) && Snap().TriedView() == old(Snap().TriedView())
    {
      hide Ok, Services;
      id := Create(addr, source, {}, {});
      assert {} + {id} == {id};
      var info := mapInfo[id].(time := Max(0, mapInfo[id].time - penalty));
      TouchKeeps(Snap(), {}, {id}, id, info);
      mapInfo := mapInfo[id := info];
    }

    /** Announce one address: what becomes of it is decided by the state alone. */
    method AddSingle(addr: Address, source: NetAddr, timePenalty: Seconds, now: Seconds, draw: nat) returns (r: bool)
      requires Valid()
      modifies this`nIdCount, this`vvNew, this`mapInfo, this`mapAddr, this`vRandom, this`nNew, this`networkCounts
      ensures Valid() && Later(old(Snap()), Snap())
      ensures Announced(old(Snap()), Snap(), addr, source, timePenalty, now, draw)
      ensures r <==> Takes(old(Snap()), addr, source, timePenalty, now, draw)
    {
      hide Ok, Services, Kept, CollisionsOk, Later, Occupiable, Refreshed, Proceeds;
      ghost var st0 := Snap();
      LaterSelf(st0);
      if !env.Routable(addr.service) {
        return false;
      }
      if addr.service in mapAddr {
        FindIs(Snap(), {}, {}, addr.service);
      }
      var penalty := Penalty(env, addr, source, timePenalty);
      var found := Find(addr.service);
      var id: Id;
      var proceed := true;
      ghost var zero: set<Id> := {};
      if found.Some? {
        id := found.value;
        RefreshedSame(mapInfo[id], addr, penalty, now);
        proceed := Refresh(id, addr, penalty, now, draw);
      } else {
        id := NewEntry(addr, source, penalty);
        zero := {id};
      }
      ghost var infos1 := mapInfo;
      SameOccupant(st0, infos1, SlotFor(addr.service, source), id, now);
      if proceed {
        r := Place(id, SlotFor(mapInfo[id].addr, source), now, zero);
      } else {
        KeptSelf(mapInfo);
        r := false;
      }
      LaterAdd(st0, infos1, Snap(), triedCollisions, id);
      KeptEntry(infos1, mapInfo, id);
    }

    function SlotFor(a: Service, source: NetAddr): Slot
      reads this`key
    {
      SlotOf(env, key, a, source)
    }

    /** Add a list of announced addresses, one after the other; true if any of them got a slot. */
    method Add(addrs: seq<Address>, source: NetAddr, timePenalty: Seconds, now: Seconds, draws: nat -> nat)
      returns (r: bool, ghost trace: seq<State>)
      requires Valid()
      modifies this`nIdCount, this`vvNew, this`mapInfo, this`mapAddr, this`vRandom, this`nNew, this`networkCounts
      ensures Valid() && Later(old(Snap()), Snap())
      ensures |trace| == |addrs| + 1 && trace[0] == old(Snap()) && trace[|addrs|] == Snap()
      ensures forall i | 0 <= i < |addrs| ::
        Announced(trace[i], trace[i + 1], addrs[i], source, timePenalty, now, draws(i))
      ensures r <==> exists i :: 0 <= i < |addrs| && Takes(trace[i], addrs[i], source, timePenalty, now, draws(i))
    {
      hide Ok, Services, CollisionsOk, Later, Takes, Announced;
      var added := 0;
      LaterSelf(Snap());
      trace := [Snap()];
      for i := 0 to |addrs|
        invariant Valid() && Later(old(Snap()), Snap()) && added >= 0
        invariant |trace| == i + 1 && trace[0] == old(Snap()) && trace[i] == Snap()
        invariant forall k | 0 <= k < i ::
          Announced(trace[k], trace[k + 1], addrs[k], source, timePenalty, now, draws(k))
        invariant added > 0 <==> exists k :: 0 <= k < i && Takes(trace[k], addrs[k], source, timePenalty, now, draws(k))
      {
        ghost var before := Snap();
        var one := AddSingle(addrs[i], source, timePenalty, now, draws(i));
        LaterTrans(old(Snap()), before, Snap());
        ghost var longer := trace + [Snap()];
        assert forall k | 0 <= k <= i :: longer[k] == trace[k];
        trace := longer;
        added := added + if one then 1 else 0;
      }
      r := added > 0;
    }

    // ---- Successful connections ----

    /** The address is known, still new, and nothing stands in its way to the tried table. */
    ghost predicate Promotes(a: Service, testBeforeEvict: bool)
      reads this
    {
      a in mapAddr && mapAddr[a] in mapInfo && !mapInfo[mapAddr[a]].inTried
      && !(testBeforeEvict && env.TriedSlot(key, a) in vvTried)
    }

    /** The address is known, still new, and its tried slot is taken while that is to be tested first. */
    ghost predicate Collides(a: Service, testBeforeEvict: bool)
      reads this
    {
      a in mapAddr && mapAddr[a] in mapInfo && !mapInfo[mapAddr[a]].inTried
      && testBeforeEvict && env.TriedSlot(key, a) in vvTried
    }

    method Good(a: Service, testBeforeEvict: bool, time: Seconds) returns (r: bool)
      requires Valid() && time > 0
      modifies this
      ensures Valid() && key == old(key) && nIdCount == old(nIdCount)
      ensures lastGood == time
      ensures Later(old(Snap()), Snap())
      ensures r <==> old(Promotes(a, testBeforeEvict))
      ensures r ==> MadeTried(old(Snap()), Snap(), old(mapAddr[a]))
      ensures !r ==> Snap().NewView() == old(Snap().NewView()) && Snap().TriedView() == old(Snap().TriedView())
      ensures old(a in mapAddr) ==> old(mapAddr[a] in mapInfo)
      ensures old(a !in mapAddr) ==> mapInfo == old(mapInfo)
      ensures !r && old(a in mapAddr) ==>
        mapInfo ==
          old(mapInfo)[old(mapAddr[a]) := old(mapInfo[mapAddr[a]]).(lastSuccess := time, lastTry := time,
            attempts := 0)]
      ensures triedCollisions ==
        if old(Collides(a, testBeforeEvict) && |triedCollisions| < TRIED_COLLISION_SIZE)
        then old(triedCollisions) + {old(mapAddr[a])} else old(triedCollisions)
      ensures old(a in mapAddr) ==> old(mapAddr[a]) in mapInfo && mapInfo[old(mapAddr[a])].lastSuccess == time
      ensures old(a in mapAddr) ==> mapInfo[old(mapAddr[a])].lastTry == time && mapInfo[old(mapAddr[a])].attempts == 0
    {
      hide Ok, Services, Kept, CollisionsOk, MadeTried, Later, SameBookkeeping;
      lastGood := time;
      ghost var st0 := Snap();
      LaterSelf(st0);
      if a in mapAddr {
        FindIs(Snap(), {}, {}, a);
      }
      var found := Find(a);
      if found.None? {
        return false;
      }
      var id := found.value;
      EntryFacts(Snap(), {}, {}, id);
      var info := mapInfo[id].(lastSuccess := time, lastTry := time, attempts := 0);
      Succeeded(mapInfo[id], time);
      Touch(id, info);
      if info.inTried {
        return false;
      }
      assert info.refCount > 0;
      var t := env.TriedSlot(key, info.addr);
      if testBeforeEvict && t in vvTried {
        if |triedCollisions| < TRIED_COLLISION_SIZE {
          CollisionsInsert(env, key, mapInfo, vvTried, triedCollisions, nIdCount, id);
          triedCollisions := triedCollisions + {id};
        }
        return false;
      }
      ghost var st1 := Snap();
      MakeTried(id);
      LaterKept(st1, Snap(), triedCollisions);
      LaterTrans(st0, st1, Snap());
      MadeTriedTouch(st0, st1, Snap(), id, info);
      KeptEntry(st1.infos, mapInfo, id);
      return true;
    }

    // ---- Statistics ----

    method Attempt(a: Service, countFailure: bool, time: Seconds)
      requires Valid() && time >= 0
      modifies this`mapInfo
      ensures Valid() && Later(old(Snap()), Snap())
      ensures Snap().NewView() == old(Snap().NewView()) && Snap().TriedView() == old(Snap().TriedView())
      ensures a !in mapAddr ==> mapInfo == old(mapInfo)
      ensures a in mapAddr ==> mapAddr[a] in old(mapInfo)
      ensures a in mapAddr ==>
        mapInfo == old(mapInfo)[mapAddr[a] := Attempted(old(mapInfo)[mapAddr[a]], countFailure, lastGood, time)]
    {
      hide Ok, Services, CollisionsOk, Later;
      LaterSelf(Snap());
      if a in mapAddr {
        FindIs(Snap(), {}, {}, a);
      }
      var found := Find(a);
      if found.None? {
        return;
      }
      var info := mapInfo[found.value].(lastTry := time);
      if countFailure && info.lastCountAttempt < lastGood {
        info := info.(lastCountAttempt := time, attempts := info.attempts + 1);
      }
      Touch(found.value, info);
    }

    method Connected(a: Service, time: Seconds)
      requires Valid()
      modifies this`mapInfo
      ensures Valid() && Later(old(Snap()), Snap())
      ensures a !in mapAddr ==> mapInfo == old(mapInfo)
      ensures a in mapAddr ==> mapAddr[a] in old(mapInfo)
      ensures a in mapAddr ==>
        var info := old(mapInfo)[mapAddr[a]];
        mapInfo == old(mapInfo)[mapAddr[a] := if time - info.time > 20 * 60 then info.(time := time) else info]
      ensures Snap().NewView() == old(Snap().NewView()) && Snap().TriedView() == old(Snap().TriedView())
    {
      hide Ok, Services, CollisionsOk, Later;
      LaterSelf(Snap());
      if a in mapAddr {
        FindIs(Snap(), {}, {}, a);
      }
      var found := Find(a);
      if found.None? {
        return;
      }
      EntryFacts(Snap(), {}, {}, found.value);
      var info := mapInfo[found.value];
      if time - info.time > 20 * 60 {
        Touch(found.value, info.(time := time));
      }
    }

    method SetServices(a: Service, services: set<nat>)
      requires Valid()
      modifies this`mapInfo
      ensures Valid() && Later(old(Snap()), Snap())
      ensures a !in mapAddr ==> mapInfo == old(mapInfo)
      ensures a in mapAddr ==>
        mapAddr[a] in old(mapInfo) &&
          mapInfo == old(mapInfo)[mapAddr[a] := old(mapInfo)[mapAddr[a]].(services := services)]
      ensures Snap().NewView() == old(Snap().NewView()) && Snap().TriedView() == old(Snap().TriedView())
    {
      hide Ok, Services, CollisionsOk, Later;
      LaterSelf(Snap());
      if a in mapAddr {
        FindIs(Snap(), {}, {}, a);
      }
      var found := Find(a);
      if found.None? {
        return;
      }
      EntryFacts(Snap(), {}, {}, found.value);
      Touch(found.value, mapInfo[found.value].(services := services));
    }

    /** Store changed statistics of an entry. */
    method Touch(id: Id, info: AddrInfo)
      requires Valid() && id in mapInfo && SameBookkeeping(info, mapInfo[id])
      requires info.lastTry >= 0 && (info.lastSuccess == mapInfo[id].lastSuccess || info.lastSuccess > 0)
      modifies this`mapInfo
      ensures Valid() && mapInfo == old(mapInfo)[id := info] && Later(old(Snap()), Snap())
      ensures Snap().NewView() == old(Snap().NewView()) && Snap().TriedView() == old(Snap().TriedView())
    {
      hide Ok, Services, CollisionsOk, Named, Later;
      EntryFacts(Snap(), {}, {}, id);
      TouchKeeps(Snap(), {}, {}, id, info);
      NamedTouch(mapInfo, id, info);
      LaterNamed(Snap(), Touched(Snap(), id, info));
      CollisionsNamed(env, key, mapInfo, mapInfo[id := info], vvTried, vvTried, triedCollisions, nIdCount);
      mapInfo := mapInfo[id := info];
    }
  }

  // ---- What an announcement does ----

  function SlotOf(env: Env, key: nat, a: Service, source: NetAddr): Slot {
    env.NewSlot(key, a, env.NewBucket(key, a, source))
  }

  /** A peer announcing itself is not penalized. */
  function Penalty(env: Env, addr: Address, source: NetAddr, timePenalty: Seconds): Seconds {
    if env.host(addr.service) == source then 0 else timePenalty
  }

  /** A known entry after an announcement: a later time is taken over, at intervals, and services are added. */
  function Refreshed(info: AddrInfo, addr: Address, penalty: Seconds, now: Seconds): AddrInfo {
    var interval := if now - addr.time < 24 * 3600 then 3600 else 24 * 3600;
    var time := if info.time < addr.time - interval - penalty then Max(0, addr.time - penalty) else info.time;
    info.(time := time, services := info.services + addr.services)
  }

  /** The announcement brings news of an entry that may get one more slot; each further slot is half as likely. */
  predicate Proceeds(info: AddrInfo, addr: Address, penalty: Seconds, now: Seconds, draw: nat)
    requires info.refCount >= 0
  {
    && addr.time > Refreshed(info, addr, penalty, now).time && !info.inTried && info.refCount != NEW_BUCKETS_PER_ADDRESS
    && (info.refCount > 0 ==> draw % Pow2(info.refCount) == 0)
  }

  /** The slot is free, or its occupant is terrible, or it has other slots while `id` has none. */
  predicate Occupiable(new_: Table, infos: Infos, s: Slot, id: Id, refCount: int, now: Seconds) {
    s !in new_ ||
    (new_[s] != id && new_[s] in infos &&
     (infos[new_[s]].IsTerrible(now) || (infos[new_[s]].refCount > 1 && refCount == 0)))
  }

  /** When an announced address gets a slot of the new table. */
  ghost predicate Takes(st: State, addr: Address, source: NetAddr, timePenalty: Seconds, now: Seconds, draw: nat) {
    var s := SlotOf(st.env, st.key, addr.service, source);
    var penalty := Penalty(st.env, addr, source, timePenalty);
    && st.env.Routable(addr.service)
    && if addr.service in st.addrs && st.addrs[addr.service] in st.infos then
         var id := st.addrs[addr.service];
         var info := st.infos[id];
         info.refCount >= 0 && Proceeds(info, addr, penalty, now, draw) &&
           Occupiable(st.new_, st.infos, s, id, info.refCount, now)
       else Occupiable(st.new_, st.infos, s, st.idCount, 0, now)
  }

  /** What an announcement changes: one slot of the new table if it takes it, and the entry's time and services. */
  ghost predicate Announced(st: State, st': State, addr: Address, source: NetAddr, timePenalty: Seconds, now: Seconds,
                            draw: nat) {
    var a, penalty := addr.service, Penalty(st.env, addr, source, timePenalty);
    && st'.TriedView() == st.TriedView()
    && st'.NewView() == (if Takes(st, addr, source, timePenalty, now, draw)
                         then st.NewView()[SlotOf(st.env, st.key, a, source) := a] else st.NewView())
    && (st.env.Routable(a) && a in st.addrs && st.addrs[a] in st.infos ==>
          && st.addrs[a] in st'.infos
          && SameStatistics(st'.infos[st.addrs[a]], Refreshed(st.infos[st.addrs[a]], addr, penalty, now)))
    && (Takes(st, addr, source, timePenalty, now, draw) && a !in st.addrs ==>
          && st.idCount in st'.infos
          && SameStatistics(st'.infos[st.idCount],
               AddrInfo(a, addr.services, Max(0, addr.time - penalty), source, 0, 0, 0, 0, 0, false, 0)))
  }

  /** Equal but for where they are kept. */
  ghost predicate SameStatistics(x: AddrInfo, y: AddrInfo) {
    x.(randomPos := 0, refCount := 0, inTried := false) == y.(randomPos := 0, refCount := 0, inTried := false)
  }

  lemma RefreshedSame(info: AddrInfo, addr: Address, penalty: Seconds, now: Seconds)
    ensures SameBookkeeping(Refreshed(info, addr, penalty, now), info)
  {
  }

  /**
    The announced entry itself does not count among the occupants, so refreshing or making it changes nothing there.
   */
  lemma SameOccupant(st: State, infos1: Infos, s: Slot, id: Id, now: Seconds)
    requires Ok(st, {}, {}) && id in infos1 && infos1 == st.infos[id := infos1[id]]
    requires if id in st.infos then infos1[id].refCount == st.infos[id].refCount else infos1[id].refCount == 0
    ensures Occupiable(st.new_, infos1, s, id, infos1[id].refCount, now) <==>
            Occupiable(st.new_, st.infos, s, id, if id in st.infos then st.infos[id].refCount else 0, now)
  {
    hide Indexed, TriedOk, CountsOk, EntriesOk, SlotsOf;
  }

  lemma KeptEntry(infos1: Infos, infos2: Infos, id: Id)
    requires Kept(infos1, infos2)
    ensures id in infos2 ==> id in infos1 && SameStatistics(infos2[id], infos1[id])
  {
  }

  /** Statistics after an attempt to connect; a failure counts once until the next success of any peer. */
  function Attempted(info: AddrInfo, countFailure: bool, lastGood: Seconds, time: Seconds): AddrInfo {
    if countFailure && info.lastCountAttempt < lastGood
    then info.(lastTry := time, lastCountAttempt := time, attempts := info.attempts + 1)
    else info.(lastTry := time)
  }

  /** Ids only disappear, and keep their address. */
  ghost predicate Named(infos: Infos, infos': Infos) {
    forall j | j in infos' :: j in infos && infos'[j].addr == infos[j].addr
  }

  /**
    What never goes back: occupied tried slots stay occupied, and an id once gone, or not yet handed
    out, never stands for an older entry again.
   */
  ghost predicate Later(st: State, st': State) {
    && st'.env == st.env && st'.key == st.key && st.idCount <= st'.idCount
    && st.tried.Keys <= st'.tried.Keys
    && forall id | id in st'.infos && id < st.idCount :: id in st.infos && st'.infos[id].addr == st.infos[id].addr
  }

  lemma LaterSelf(st: State)
    ensures Later(st, st)
  {
  }

  lemma LaterTrans(a: State, b: State, c: State)
    requires Later(a, b) && Later(b, c)
    ensures Later(a, c)
  {
  }

  lemma LaterNamed(st: State, st': State)
    requires st'.env == st.env && st'.key == st.key && st.idCount == st'.idCount
    requires st.tried.Keys <= st'.tried.Keys && Named(st.infos, st'.infos)
    ensures Later(st, st')
  {
  }

  lemma LaterAdd(st: State, infos1: Infos, st': State, collisions: set<Id>, id: Id)
    requires st'.env == st.env && st'.key == st.key && st.idCount <= st'.idCount && st.tried == st'.tried
    requires id in infos1 && infos1 == st.infos[id := infos1[id]]
    requires if id in st.infos then infos1[id].addr == st.infos[id].addr else id >= st.idCount
    requires Kept(infos1, st'.infos)
    requires CollisionsOk(st.env, st.key, st.infos, st.tried, collisions, st.idCount)
    ensures Later(st, st') && CollisionsOk(st.env, st.key, st'.infos, st'.tried, collisions, st'.idCount)
  {
    CollisionsKept(st.env, st.key, st.infos, st'.infos, st.tried, st'.tried, collisions, st.idCount, st'.idCount);
  }

  lemma LaterKept(st: State, st': State, collisions: set<Id>)
    requires st'.env == st.env && st'.key == st.key && st.idCount == st'.idCount
    requires st.tried.Keys <= st'.tried.Keys && Kept(st.infos, st'.infos)
    requires CollisionsOk(st.env, st.key, st.infos, st.tried, collisions, st.idCount)
    ensures Later(st, st') && CollisionsOk(st.env, st.key, st'.infos, st'.tried, collisions, st'.idCount)
  {
    CollisionsKept(st.env, st.key, st.infos, st'.infos, st.tried, st'.tried, collisions, st.idCount, st'.idCount);
  }

  lemma NamedTouch(infos: Infos, id: Id, info: AddrInfo)
    requires id in infos && info.addr == infos[id].addr
    ensures Named(infos, infos[id := info])
  {
  }

  lemma CollisionsNamed(env: Env, key: nat, infos: Infos, infos': Infos, tried: Table, tried': Table,
                        collisions: set<Id>, idCount: nat)
    requires CollisionsOk(env, key, infos, tried, collisions, idCount) && Named(infos, infos')
    requires tried.Keys <= tried'.Keys
    ensures CollisionsOk(env, key, infos', tried', collisions, idCount)
  {
    CollisionsKept(env, key, infos, infos', tried, tried', collisions, idCount, idCount);
  }

  lemma CollisionsInsert(env: Env, key: nat, infos: Infos, tried: Table, collisions: set<Id>, idCount: nat, id: Id)
    requires CollisionsOk(env, key, infos, tried, collisions, idCount) && |collisions| < TRIED_COLLISION_SIZE
    requires id in infos && id < idCount && env.TriedSlot(key, infos[id].addr) in tried
    ensures CollisionsOk(env, key, infos, tried, collisions + {id}, idCount)
  {
    assert |collisions + {id}| <= |collisions| + 1;
  }

  lemma Succeeded(info: AddrInfo, time: Seconds)
    ensures SameBookkeeping(info.(lastSuccess := time, lastTry := time, attempts := 0), info)
  {
  }

  /** Changing an entry's statistics before promoting it makes no difference to the tables. */
  lemma MadeTriedTouch(st0: State, st1: State, st2: State, id: Id, info: AddrInfo)
    requires Ok(st0, {}, {}) && id in st0.infos && SameBookkeeping(info, st0.infos[id])
    requires info.source == st0.infos[id].source
    requires st1 == Touched(st0, id, info) && MadeTried(st1, st2, id)
    requires st1.NewView() == st0.NewView() && st1.TriedView() == st0.TriedView()
    ensures MadeTried(st0, st2, id)
  {
    hide Ok, Services, WithoutService;
    var t := st0.env.TriedSlot(st0.key, info.addr);
    if t in st0.tried {
      TriedEntry(st0, {}, {}, t);
    }
  }

  function Max(a: int, b: int): int {
    if a < b then b else a
  }

  lemma KeptSelf(infos: Infos)
    ensures Kept(infos, infos)
  {
  }

  lemma SameIsKept(infos: Infos, infos': Infos, id: Id)
    requires SameEntries(infos, infos', id)
    ensures Kept(infos, infos')
  {
  }

  lemma ClearedKeeps(infos0: Infos, infos1: Infos, id: Id, displaced: Option<Id>)
    requires id in infos0
    requires displaced.Some? ==> SameEntries(infos0, infos1, displaced.value) && displaced.value != id
    requires displaced.None? ==> infos1 == infos0
    ensures Kept(infos0, infos1)
    ensures id in infos1 && infos1[id].(randomPos := 0) == infos0[id].(randomPos := 0)
  {
  }

  lemma EntryFacts(st: State, limbo: set<Id>, zero: set<Id>, id: Id)
    requires Ok(st, limbo, zero) && id in st.infos
    ensures st.infos[id].lastTry >= 0 && st.infos[id].lastSuccess >= 0
    ensures st.infos[id].inTried ==> st.infos[id].lastSuccess > 0 && st.infos[id].refCount == 0
    ensures !st.infos[id].inTried ==>
      0 <= st.infos[id].refCount <= NEW_BUCKETS_PER_ADDRESS && (st.infos[id].refCount == 0 <==> id in zero)
    ensures st.env.valid(st.infos[id].addr)
    ensures st.infos[id].addr in st.addrs && st.addrs[st.infos[id].addr] == id && id < st.idCount
  {
    hide CountsOk, SlotsOf;
  }

  lemma FindIs(st: State, limbo: set<Id>, zero: set<Id>, a: Service)
    requires Ok(st, limbo, zero) && a in st.addrs
    ensures st.addrs[a] in st.infos && st.infos[st.addrs[a]].addr == a
  {
    hide TriedOk, NewOk, CountsOk, EntriesOk;
  }

  /** Pending collisions survive entries being changed, added or dropped, and tried slots being filled. */
  lemma CollisionsKept(env: Env, key: nat, infos: Infos, infos': Infos, tried: Table, tried': Table,
                       collisions: set<Id>, idCount: nat, idCount': nat)
    requires CollisionsOk(env, key, infos, tried, collisions, idCount)
    requires forall j | j in infos' && j < idCount :: j in infos && infos'[j].addr == infos[j].addr
    requires tried.Keys <= tried'.Keys && idCount <= idCount'
    ensures CollisionsOk(env, key, infos', tried', collisions, idCount')
  {
  }

  ghost function WithoutService(v: map<Slot, Service>, a: Service): map<Slot, Service> {
    map s | s in v && v[s] != a :: v[s]
  }

  /** What promoting an entry does to the two tables, by address. */
  ghost predicate MadeTried(st: State, st': State, id: Id)
    requires id in st.infos
  {
    var a := st.infos[id].addr;
    var t := st.env.TriedSlot(st.key, a);
    && st'.TriedView() == st.TriedView()[t := a]
    && (t !in st.tried ==> st'.NewView() == WithoutService(st.NewView(), a))
    && (t in st.tried ==>
          && st.tried[t] in st.infos
          && st'.NewView() == WithoutService(st.NewView(), a)[Home(st, st.tried[t]) := st.infos[st.tried[t]].addr])
  }

  /** The new slot to which an entry belongs by its own source. */
  function Home(st: State, id: Id): Slot
    requires id in st.infos
  {
    var info := st.infos[id];
    st.env.NewSlot(st.key, info.addr, st.env.NewBucket(st.key, info.addr, info.source))
  }

  /** No entry is new, and those left differ at most in where they are kept. */
  ghost predicate Kept(infos: Infos, infos': Infos) {
    forall j | j in infos' ::
      && j in infos
      && infos'[j].(randomPos := 0, refCount := 0, inTried := false) ==
        infos[j].(randomPos := 0, refCount := 0, inTried := false)
  }

  lemma ClearedKept(infos0: Infos, infos1: Infos, infos2: Infos, e: Id, displaced: Option<Id>)
    requires e in infos0 && infos1 == infos0[e := infos0[e].(inTried := false)]
    requires displaced.Some? ==> SameEntries(infos1, infos2, displaced.value) && displaced.value != e
    requires displaced.None? ==> infos2 == infos1
    ensures Kept(infos0, infos2)
    ensures e in infos2 && infos2[e].addr == infos0[e].addr && infos2[e].source == infos0[e].source
  {
  }

  lemma KeptPromote(infos0: Infos, infos1: Infos, infos2: Infos, id: Id)
    requires id in infos0 && infos1 == infos0[id := infos0[id].(refCount := 0)]
    requires infos2 == infos1 || Kept(infos1, infos2)
    requires id in infos2
    ensures Kept(infos0, infos2[id := infos2[id].(inTried := true)])
    ensures infos2[id].addr == infos0[id].addr && infos2[id].lastSuccess == infos0[id].lastSuccess
  {
  }

  /** Without the slots of one id, the new table shows the same addresses less that id's address. */
  lemma ScrubbedView(st0: State, st1: State, id: Id)
    requires Ok(st0, {}, {}) && id in st0.infos
    requires st1.infos == st0.infos[id := st0.infos[id].(refCount := 0)] && st1.tried == st0.tried
    requires st1.new_ == map s | s in st0.new_ && st0.new_[s] != id :: st0.new_[s]
    ensures st1.NewView() == WithoutService(st0.NewView(), st0.infos[id].addr)
    ensures st1.TriedView() == st0.TriedView()
  {
    hide Ok, Services, WithoutService;
    forall s | s in st0.new_
      ensures st0.new_[s] in st0.infos
      ensures st0.new_[s] == id <==> st0.infos[st0.new_[s]].addr == st0.infos[id].addr
    {
      SlotIdentity(st0, {}, {}, s, id);
    }
    FilteredView(st0.new_, st0.infos, st1.new_, st1.infos, id);
    TriedViewUpdate(st0, id, st1.infos[id]);
  }

  lemma SlotIdentity(st: State, limbo: set<Id>, zero: set<Id>, s: Slot, id: Id)
    requires Ok(st, limbo, zero) && s in st.new_ && id in st.infos
    ensures st.new_[s] in st.infos && (st.new_[s] == id <==> st.infos[st.new_[s]].addr == st.infos[id].addr)
  {
    hide TriedOk, CountsOk, EntriesOk, SlotsOf;
  }

  lemma FilteredView(new0: Table, infos0: Infos, new1: Table, infos1: Infos, id: Id)
    requires id in infos0 && infos1 == infos0[id := infos0[id].(refCount := 0)]
    requires new1 == map s | s in new0 && new0[s] != id :: new0[s]
    requires forall s | s in new0 :: new0[s] in infos0 && (new0[s] == id <==> infos0[new0[s]].addr == infos0[id].addr)
    ensures Services(new1, infos1) == WithoutService(Services(new0, infos0), infos0[id].addr)
  {
  }

  lemma KeptRef(infos0: Infos, infos: Infos, e: Id, refCount: int)
    requires Kept(infos0, infos) && e in infos
    ensures Kept(infos0, infos[e := infos[e].(refCount := refCount)])
  {
  }

  /** Entries other than `id` survive with everything but their random position; `id` may lose references or go. */
  ghost predicate SameEntries(infos: Infos, infos': Infos, id: Id) {
    && (forall j | j in infos && j != id :: j in infos' && infos'[j].(randomPos := 0) == infos[j].(randomPos := 0))
    && (forall j | j in infos' :: j in infos)
    && (id in infos' ==> infos'[id].(randomPos := 0, refCount := 0) == infos[id].(randomPos := 0, refCount := 0))
  }

  lemma LastPosition(st: State, limbo: set<Id>, zero: set<Id>, id: Id)
    requires Ok(st, limbo, zero) && id in st.infos
    ensures 0 <= st.infos[id].randomPos < |st.random| && st.random[st.infos[id].randomPos] == id
    ensures st.random[|st.random| - 1] in st.infos
    ensures
      var infos' := SwappedAt(st, st.infos[id].randomPos, |st.random| - 1).infos;
      && id in infos' && infos'[id].randomPos == |st.random| - 1 && infos'[id].addr == st.infos[id].addr
      && SameEntries(st.infos, infos' - {id}, id)
  {
    hide TriedOk, NewOk, CountsOk, EntriesOk, SameEntries;
    SwapThenRemove(st, st.infos[id].randomPos, id);
  }

  lemma SwapThenRemove(st: State, i: nat, id: Id)
    requires i < |st.random| && st.random[i] == id && id in st.infos && st.random[|st.random| - 1] in st.infos
    ensures SameEntries(st.infos, SwappedAt(st, i, |st.random| - 1).infos - {id}, id)
  {
  }

  // ---- Taking an entry out of every new bucket ----

  /** How many steps a cyclic scan from `start` takes to reach bucket `b`. */
  function Offset(start: nat, b: nat): nat
    requires start < NEW_BUCKET_COUNT
  {
    (b + NEW_BUCKET_COUNT - start) % NEW_BUCKET_COUNT
  }

  /** The new table once `id` was removed from the first `n` buckets of the scan. */
  ghost function Scrubbed(new_: Table, id: Id, start: nat, n: nat): Table
    requires start < NEW_BUCKET_COUNT
  {
    map s | s in new_ && !(new_[s] == id && Offset(start, s.bucket) < n) :: new_[s]
  }

  lemma ScrubBegin(st: State, id: Id, start: nat)
    requires Ok(st, {}, {}) && id in st.infos && !st.infos[id].inTried && start < NEW_BUCKET_COUNT
    ensures Scrubbed(st.new_, id, start, 0) == st.new_ && st.infos[id].refCount != 0
  {
    hide Indexed, TriedOk, CountsOk, EntriesOk, SlotsOf;
  }

  lemma ScrubStep(st: State, id: Id, start: nat, n: nat)
    requires Ok(st, {}, {}) && id in st.infos && start < NEW_BUCKET_COUNT && n < NEW_BUCKET_COUNT
    ensures
      var before := Scrubbed(st.new_, id, start, n);
      var s := st.env.NewSlot(st.key, st.infos[id].addr, (start + n) % NEW_BUCKET_COUNT);
      Scrubbed(st.new_, id, start, n + 1) == if s in before && before[s] == id then before - {s} else before
  {
    hide Indexed, TriedOk, CountsOk, EntriesOk, SlotsOf, Offset;
    forall s | s in st.new_ && st.new_[s] == id && Offset(start, s.bucket) == n
      ensures s == st.env.NewSlot(st.key, st.infos[id].addr, (start + n) % NEW_BUCKET_COUNT)
    {
      OffsetInverse(start, n, s.bucket);
    }
    OffsetInverse(start, n, (start + n) % NEW_BUCKET_COUNT);
  }

  lemma OffsetInverse(start: nat, n: nat, b: nat)
    requires start < NEW_BUCKET_COUNT && n < NEW_BUCKET_COUNT && b < NEW_BUCKET_COUNT
    ensures Offset(start, b) == n <==> b == (start + n) % NEW_BUCKET_COUNT
  {
  }

  /** After a full turn, or once the reference count has reached zero, no slot holds the id. */
  lemma ScrubEnd(st: State, st': State, zero: set<Id>, id: Id, start: nat, n: nat)
    requires Ok(st, {}, {}) && id in st.infos && start < NEW_BUCKET_COUNT
    requires Ok(st', {}, zero) && st'.new_ == Scrubbed(st.new_, id, start, n)
    requires id in st'.infos && !st'.infos[id].inTried
    requires n == NEW_BUCKET_COUNT || st'.infos[id].refCount == 0
    ensures st'.infos[id].refCount == 0
    ensures st'.new_ == map s | s in st.new_ && st.new_[s] != id :: st.new_[s]
  {
    hide Indexed, TriedOk, CountsOk, EntriesOk;
    if n == NEW_BUCKET_COUNT {
      assert SlotsOf(st'.new_, id) == {};
    } else {
      forall s | s in st'.new_
        ensures st'.new_[s] != id
      {
        assert st'.new_[s] == id ==> s in SlotsOf(st'.new_, id);
      }
    }
  }
}
