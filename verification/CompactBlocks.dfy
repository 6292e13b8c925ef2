/** Compact blocks: a block sent as short transaction ids, and its reconstruction from what the receiver has. */
module CompactBlocks {
  import opened Wrappers

  /** A transaction, identified by its witness hash. */
  datatype Tx = Tx(wtxid: nat, isNull: bool)

  /** A header of zero is the null header. */
  datatype Block = Block(header: nat, vtx: seq<Tx>)

  datatype Prefilled = Prefilled(index: nat, tx: Tx)

  datatype CompactBlock = CompactBlock(header: nat, nonce: nat, shortIds: seq<nat>, prefilled: seq<Prefilled>)

  datatype ReadStatus = StatusOk | StatusInvalid | StatusFailed

  const UINT16_MAX: nat := 0xffff
  const MAX_TRANSACTIONS: nat := 100_000

  /** The keyed hash that makes short ids: header, nonce and witness hash to 48 bits. */
  type ShortHash = (nat, nat, nat) -> nat

  function ShortId(hash: ShortHash, c: CompactBlock, tx: Tx): nat {
    hash(c.header, c.nonce, tx.wtxid) % 0x1_0000_0000_0000
  }

  // ---- Sending ----

  /** The coinbase is sent whole, the rest as short ids. */
  ghost predicate Sends(hash: ShortHash, block: Block, c: CompactBlock) {
    && c.header == block.header && |block.vtx| > 0
    && c.prefilled == [Prefilled(0, block.vtx[0])] && |c.shortIds| == |block.vtx| - 1
    && forall i | 0 <= i < |c.shortIds| :: c.shortIds[i] == ShortId(hash, c, block.vtx[i + 1])
  }

  method MakeCompact(hash: ShortHash, block: Block, nonce: nat) returns (c: CompactBlock)
    requires |block.vtx| > 0
    ensures Sends(hash, block, c) && c.nonce == nonce
  {
    var ids := [];
    for i := 1 to |block.vtx|
      invariant |ids| == i - 1
      invariant forall k | 0 <= k < |ids| ::
        ids[k] == hash(block.header, nonce, block.vtx[k + 1].wtxid) % 0x1_0000_0000_0000
    {
      ids := ids + [hash(block.header, nonce, block.vtx[i].wtxid) % 0x1_0000_0000_0000];
    }
    c := CompactBlock(block.header, nonce, ids, [Prefilled(0, block.vtx[0])]);
  }

  // ---- Counting what is missing ----

  type Slots = seq<Option<Tx>>

  function Missing(a: Slots): nat {
    if a == [] then 0 else Missing(a[..|a| - 1]) + if a[|a| - 1].None? then 1 else 0
  }

  lemma MissingNext(a: Slots, i: nat)
    requires i < |a|
    ensures Missing(a[..i + 1]) == Missing(a[..i]) + if a[i].None? then 1 else 0
  {
    assert a[..i + 1][..i] == a[..i];
  }

  lemma {:induction false} MissingPrefix(a: Slots, i: nat)
    requires i <= |a|
    ensures Missing(a[..i]) <= Missing(a)
    decreases |a| - i
  {
    if i == |a| {
      assert a[..i] == a;
    } else {
      MissingNext(a, i);
      MissingPrefix(a, i + 1);
    }
  }

  /** Filling or emptying one slot changes the count by one. */
  lemma {:induction false} MissingUpdate(a: Slots, i: nat, x: Option<Tx>)
    requires i < |a|
    ensures Missing(a[i := x]) == Missing(a) - (if a[i].None? then 1 else 0) + (if x.None? then 1 else 0)
  {
    var n := |a| - 1;
    if i == n {
      assert a[i := x][..n] == a[..n];
    } else {
      MissingUpdate(a[..n], i, x);
      assert a[i := x][..n] == a[..n][i := x];
    }
  }

  lemma {:induction false} MissingAll(a: Slots)
    requires forall i | 0 <= i < |a| :: a[i].None?
    ensures Missing(a) == |a|
  {
    if a != [] {
      MissingAll(a[..|a| - 1]);
    }
  }

  // ---- Prefilled transactions ----

  /** Where the i-th prefilled transaction goes: indexes are sent as distances from the one before. */
  function Position(p: seq<Prefilled>, i: nat): nat
    requires i < |p|
  {
    if i == 0 then p[0].index else Position(p, i - 1) + p[i].index + 1
  }

  lemma {:induction false} PositionsGrow(p: seq<Prefilled>, i: nat, j: nat)
    requires i < j < |p|
    ensures Position(p, i) < Position(p, j)
  {
    if i + 1 < j {
      PositionsGrow(p, i, j - 1);
    }
  }

  predicate PrefilledOk(c: CompactBlock, i: nat)
    requires i < |c.prefilled|
  {
    !c.prefilled[i].tx.isNull && Position(c.prefilled, i) <= UINT16_MAX && Position(c.prefilled, i) <= |c.shortIds| + i
  }

  /** Just the first n prefilled transactions are in their slots. */
  ghost predicate Placed(c: CompactBlock, a: Slots, n: nat) {
    && n <= |c.prefilled| && |a| == |c.shortIds| + |c.prefilled|
    && (forall i | 0 <= i < n ::
      Position(c.prefilled, i) < |a| && a[Position(c.prefilled, i)] == Some(c.prefilled[i].tx))
    && (forall j | 0 <= j < |a| && a[j].Some? :: exists i :: 0 <= i < n && j == Position(c.prefilled, i))
    && Missing(a) == |a| - n
  }

  method PlacePrefilled(c: CompactBlock) returns (ok: bool, a: Slots)
    ensures ok <==> forall i | 0 <= i < |c.prefilled| :: PrefilledOk(c, i)
    ensures ok ==> Placed(c, a, |c.prefilled|)
  {
    hide Missing, Placed;
    a := seq(|c.shortIds| + |c.prefilled|, _ => None);
    PlaceBegins(c, a);
    var last := -1;
    for i := 0 to |c.prefilled|
      invariant last == if i == 0 then -1 else Position(c.prefilled, i - 1)
      invariant forall k | 0 <= k < i :: PrefilledOk(c, k)
      invariant Placed(c, a, i)
    {
      if c.prefilled[i].tx.isNull {
        assert !PrefilledOk(c, i);
        return false, a;
      }
      last := last + c.prefilled[i].index + 1;
      if last > UINT16_MAX {
        assert !PrefilledOk(c, i);
        return false, a;
      }
      if last > |c.shortIds| + i {
        assert !PrefilledOk(c, i);
        return false, a;
      }
      assert last == Position(c.prefilled, i);
      PlaceNext(c, a, i);
      a := a[last := Some(c.prefilled[i].tx)];
    }
    ok := true;
  }

  lemma PlaceBegins(c: CompactBlock, a: Slots)
    requires |a| == |c.shortIds| + |c.prefilled| && forall i | 0 <= i < |a| :: a[i].None?
    ensures Placed(c, a, 0)
  {
    MissingAll(a);
  }

  lemma PlaceNext(c: CompactBlock, a: Slots, i: nat)
    requires Placed(c, a, i) && i < |c.prefilled| && PrefilledOk(c, i)
    ensures Position(c.prefilled, i) < |a| && Placed(c, a[Position(c.prefilled, i) := Some(c.prefilled[i].tx)], i + 1)
  {
    hide Missing, Position;
    var p := Position(c.prefilled, i);
    forall k | 0 <= k < i
      ensures Position(c.prefilled, k) < p
    {
      PositionsGrow(c.prefilled, k, i);
    }
    MissingUpdate(a, p, Some(c.prefilled[i].tx));
    var b := a[p := Some(c.prefilled[i].tx)];
    forall j | 0 <= j < |b| && b[j].Some?
      ensures exists k :: 0 <= k < i + 1 && j == Position(c.prefilled, k)
    {
      if j == p {
        assert 0 <= i < i + 1 && j == Position(c.prefilled, i);
      } else {
        var k :| 0 <= k < i && j == Position(c.prefilled, k);
      }
    }
  }

  // ---- Short ids and the slots they name ----

  /** The empty slots in order. */
  ghost predicate AreHoles(a: Slots, slots: seq<nat>, n: nat) {
    && n <= |a| && |slots| == Missing(a[..n])
    && (forall i | 0 <= i < |slots| :: slots[i] < n && a[slots[i]].None? && Missing(a[..slots[i]]) == i)
    && (forall j | 0 <= j < n && a[j].None? :: j in slots)
  }

  lemma HolesBegin(a: Slots)
    ensures AreHoles(a, [], 0)
  {
    assert a[..0] == [];
  }

  lemma HolesSkip(a: Slots, slots: seq<nat>, n: nat)
    requires AreHoles(a, slots, n) && n < |a| && a[n].Some?
    ensures AreHoles(a, slots, n + 1)
  {
    hide Missing;
    MissingNext(a, n);
  }

  lemma HolesAdd(a: Slots, slots: seq<nat>, n: nat)
    requires AreHoles(a, slots, n) && n < |a| && a[n].None?
    ensures AreHoles(a, slots + [n], n + 1)
  {
    hide Missing;
    MissingNext(a, n);
    assert (slots + [n])[|slots|] == n;
  }

  /** As long as a hole is to come, the end is not reached. */
  lemma HoleAhead(a: Slots, slots: seq<nat>, n: nat)
    requires AreHoles(a, slots, n) && |slots| < Missing(a)
    ensures n < |a|
  {
    hide Missing;
    assert a[..|a|] == a;
  }

  lemma HolesEnd(a: Slots, slots: seq<nat>, n: nat)
    requires AreHoles(a, slots, n) && |slots| == Missing(a)
    ensures AreHoles(a, slots, |a|)
    decreases |a| - n
  {
    hide Missing;
    if n < |a| {
      MissingNext(a, n);
      MissingPrefix(a, n + 1);
      if a[n].Some? {
        HolesSkip(a, slots, n);
        HolesEnd(a, slots, n + 1);
      }
    }
  }

  /** If no id was met twice so far, every id leads to the hole of its number. */
  ghost predicate IndexOk(ids: seq<nat>, slots: seq<nat>, index: map<nat, nat>, n: nat) {
    && n <= |ids| && n <= |slots| && |index| <= n
    && (forall id :: id in index <==> id in ids[..n])
    && (|index| == n ==> forall i | 0 <= i < n :: ids[i] in index && index[ids[i]] == slots[i] && ids[i] !in ids[..i])
  }

  lemma IndexNext(ids: seq<nat>, slots: seq<nat>, index: map<nat, nat>, n: nat)
    requires IndexOk(ids, slots, index, n) && n < |ids| && n < |slots|
    ensures IndexOk(ids, slots, index[ids[n] := slots[n]], n + 1)
  {
    var id := ids[n];
    var index' := index[id := slots[n]];
    MapGrows(index, id, slots[n]);
    assert ids[..n + 1] == ids[..n] + [id];
    if |index'| == n + 1 {
      forall i | 0 <= i < n
        ensures ids[i] != id
      {
        assert ids[i] in index;
      }
      forall i | 0 <= i < n + 1
        ensures ids[i] in index' && index'[ids[i]] == slots[i] && ids[i] !in ids[..i]
      {
      }
    }
  }

  lemma MapGrows(m: map<nat, nat>, k: nat, v: nat)
    ensures |m[k := v]| == if k in m then |m| else |m| + 1
  {
    assert m[k := v].Keys == m.Keys + {k};
    assert |m.Keys| == |m| && |m[k := v].Keys| == |m[k := v]|;
  }

  lemma IndexLonger(ids: seq<nat>, slots: seq<nat>, slots': seq<nat>, index: map<nat, nat>, n: nat)
    requires IndexOk(ids, slots, index, n) && |slots| == n && |slots'| == n + 1 && slots'[..n] == slots
    ensures IndexOk(ids, slots', index, n)
  {
    forall i | 0 <= i < n
      ensures slots'[i] == slots[i]
    {
      assert slots'[i] == slots'[..n][i];
    }
  }

  /** Pair the short ids, in order, with the slots not yet filled. `uneven` says when the hash table gets lopsided. */
  method IndexIds(ids: seq<nat>, a: Slots, uneven: nat -> bool)
    returns (status: ReadStatus, index: map<nat, nat>, ghost slots: seq<nat>)
    requires Missing(a) == |ids| && |a| <= UINT16_MAX
    ensures status != StatusInvalid
    ensures status == StatusFailed <==> Repeats(ids) || exists i :: 0 <= i < |ids| && uneven(i)
    ensures status == StatusOk ==> AreHoles(a, slots, |a|) && |index| == |ids| && IndexOk(ids, slots, index, |ids|)
  {
    hide Missing, AreHoles, IndexOk;
    index, slots := map[], [];
    var offset := 0;
    HolesBegin(a);
    IndexBegins(ids);
    for i := 0 to |ids|
      invariant 0 <= offset && |slots| == i && AreHoles(a, slots, i + offset) && IndexOk(ids, slots, index, i)
      invariant forall k | 0 <= k < i :: !uneven(k)
    {
      HoleAhead(a, slots, i + offset);
      while a[i + offset].Some?
        invariant 0 <= offset && i + offset < |a| && AreHoles(a, slots, i + offset)
        decreases |a| - offset
      {
        HolesSkip(a, slots, i + offset);
        HoleAhead(a, slots, i + offset + 1);
        offset := offset + 1;
      }
      assert i + offset <= UINT16_MAX;
      HolesAdd(a, slots, i + offset);
      IndexLonger(ids, slots, slots + [i + offset], index, i);
      slots := slots + [i + offset];
      IndexNext(ids, slots, index, i);
      index := index[ids[i] := i + offset];
      if uneven(i) {
        return StatusFailed, index, slots;
      }
    }
    HolesEnd(a, slots, |ids| + offset);
    if |index| != |ids| {
      FewerIds(ids, slots, index);
      return StatusFailed, index, slots;
    }
    AllIds(ids, slots, index);
    status := StatusOk;
  }

  ghost predicate Repeats(ids: seq<nat>) {
    exists i, j :: 0 <= i < j < |ids| && ids[i] == ids[j]
  }

  lemma FewerIds(ids: seq<nat>, slots: seq<nat>, index: map<nat, nat>)
    requires IndexOk(ids, slots, index, |ids|) && |index| != |ids|
    ensures Repeats(ids)
  {
    if !Repeats(ids) {
      assert ids[..|ids|] == ids;
      DistinctSize(ids, index.Keys);
    }
  }

  lemma AllIds(ids: seq<nat>, slots: seq<nat>, index: map<nat, nat>)
    requires IndexOk(ids, slots, index, |ids|) && |index| == |ids|
    ensures !Repeats(ids)
  {
    forall i, j | 0 <= i < j < |ids|
      ensures ids[i] != ids[j]
    {
      assert ids[j] !in ids[..j] && ids[..j][i] == ids[i];
    }
  }

  lemma {:induction false} DistinctSize(ids: seq<nat>, keys: set<nat>)
    requires !Repeats(ids) && forall id :: id in ids <==> id in keys
    ensures |keys| == |ids|
  {
    if ids == [] {
      assert keys == {};
    } else {
      var n := |ids| - 1;
      var rest := ids[..n];
      assert forall i | 0 <= i < n :: rest[i] == ids[i];
      forall id
        ensures id in rest <==> id in keys - {ids[n]}
      {
        if id in rest {
          var i :| 0 <= i < n && rest[i] == id;
          assert ids[i] == id;
        }
        if id in keys && id != ids[n] {
          var i :| 0 <= i < |ids| && ids[i] == id;
          assert rest[i] == id;
        }
      }
      DistinctSize(rest, keys - {ids[n]});
    }
  }

  lemma IndexBegins(ids: seq<nat>)
    ensures IndexOk(ids, [], map[], 0)
  {
  }

  // ---- Matching transactions the receiver has ----

  datatype Match = Match(a: Slots, have: seq<bool>, count: int)

  /**
    Slots filled at the start are kept. The other filled ones hold a transaction from `seen` whose short id is
    that slot's, and are marked; `count` is their number.
   */
  ghost predicate Matched(hash: ShortHash, c: CompactBlock, slots: seq<nat>, a0: Slots, seen: set<Tx>, m: Match) {
    && |slots| == |c.shortIds| && |m.a| == |a0| == |m.have|
    && (forall j | 0 <= j < |a0| && a0[j].Some? :: m.a[j] == a0[j])
    && (forall i | 0 <= i < |slots| :: Good(hash, c, slots, seen, m, i))
    && m.count == |c.shortIds| - Missing(m.a) && m.count >= 0
  }

  ghost predicate Good(hash: ShortHash, c: CompactBlock, slots: seq<nat>, seen: set<Tx>, m: Match, i: nat)
    requires i < |slots| == |c.shortIds|
  {
    slots[i] < |m.a| == |m.have| &&
    (m.a[slots[i]].Some? ==>
      && m.have[slots[i]] && m.a[slots[i]].value in seen
      && ShortId(hash, c, m.a[slots[i]].value) == c.shortIds[i])
  }

  /** One transaction of the pool: the first to match fills its slot, a second one empties it again. */
  function ConsiderPool(m: Match, slot: nat, tx: Tx): Match
    requires slot < |m.a| == |m.have|
  {
    if !m.have[slot] then Match(m.a[slot := Some(tx)], m.have[slot := true], m.count + 1)
    else if m.a[slot].Some? then Match(m.a[slot := None], m.have, m.count - 1)
    else m
  }

  /** One extra transaction: the same, except that a second copy of what is there does no harm. */
  function ConsiderExtra(m: Match, slot: nat, tx: Tx): Match
    requires slot < |m.a| == |m.have|
  {
    if !m.have[slot] then Match(m.a[slot := Some(tx)], m.have[slot := true], m.count + 1)
    else if m.a[slot].Some? && m.a[slot].value.wtxid != tx.wtxid then Match(m.a[slot := None], m.have, m.count - 1)
    else m
  }

  /** How often an id occurs among the short ids of a list. */
  function Matches(hash: ShortHash, c: CompactBlock, txs: seq<Tx>, id: nat): nat {
    if txs == [] then 0
    else Matches(hash, c, txs[..|txs| - 1], id) + if ShortId(hash, c, txs[|txs| - 1]) == id then 1 else 0
  }

  /** A slot without a transaction had no match in the list, or more than one. */
  ghost predicate Explained(hash: ShortHash, c: CompactBlock, slots: seq<nat>, txs: seq<Tx>, m: Match, i: nat)
    requires i < |slots| == |c.shortIds|
  {
    var n := Matches(hash, c, txs, c.shortIds[i]);
    slots[i] < |m.a| == |m.have| && if m.have[slots[i]] then n >= 1 && (m.a[slots[i]].None? ==> n >= 2) else n == 0
  }

  ghost predicate AllExplained(hash: ShortHash, c: CompactBlock, slots: seq<nat>, txs: seq<Tx>, m: Match) {
    |slots| == |c.shortIds| && forall i | 0 <= i < |slots| :: Explained(hash, c, slots, txs, m, i)
  }

  lemma MatchesNext(hash: ShortHash, c: CompactBlock, txs: seq<Tx>, tx: Tx, id: nat)
    ensures Matches(hash, c, txs + [tx], id) == Matches(hash, c, txs, id) + if ShortId(hash, c, tx) == id then 1 else 0
  {
    assert (txs + [tx])[..|txs|] == txs;
  }

  lemma {:induction false} MatchesMore(hash: ShortHash, c: CompactBlock, txs: seq<Tx>, more: seq<Tx>, id: nat)
    ensures Matches(hash, c, txs, id) <= Matches(hash, c, txs + more, id)
  {
    if more == [] {
      assert txs + more == txs;
    } else {
      var n := |more| - 1;
      MatchesMore(hash, c, txs, more[..n], id);
      MatchesNext(hash, c, txs + more[..n], more[n], id);
      assert txs + more == txs + more[..n] + [more[n]];
    }
  }

  /** A transaction of the slot's id is explained by one more match. */
  lemma ConsiderExplained(hash: ShortHash, c: CompactBlock, slots: seq<nat>, index: map<nat, nat>, a0: Slots,
                          txs: seq<Tx>, m: Match, i: nat, tx: Tx, m': Match)
    requires AreHoles(a0, slots, |a0|) && |index| == |c.shortIds| && IndexOk(c.shortIds, slots, index, |c.shortIds|)
    requires AllExplained(hash, c, slots, txs, m) && i < |slots| && ShortId(hash, c, tx) == c.shortIds[i]
    requires slots[i] < |m.a| == |m.have|
    requires m' == ConsiderPool(m, slots[i], tx) || m' == ConsiderExtra(m, slots[i], tx)
    ensures AllExplained(hash, c, slots, txs + [tx], m')
  {
    hide Missing, ShortId, Matches, AreHoles;
    forall k | 0 <= k < |slots|
      ensures Explained(hash, c, slots, txs + [tx], m', k)
    {
      assert Explained(hash, c, slots, txs, m, k) && Explained(hash, c, slots, txs, m, i);
      MatchesNext(hash, c, txs, tx, c.shortIds[k]);
      if k != i {
        SlotsApart(a0, slots, i, k);
        IdsApart(c.shortIds, slots, index, i, k);
      }
    }
  }

  lemma IdsApart(ids: seq<nat>, slots: seq<nat>, index: map<nat, nat>, i: nat, k: nat)
    requires |index| == |ids| && IndexOk(ids, slots, index, |ids|) && i < |ids| && k < |ids| && i != k
    ensures ids[i] != ids[k]
  {
    assert ids[i] !in ids[..i] && ids[k] !in ids[..k];
    if i < k {
      assert ids[..k][i] == ids[i];
    } else {
      assert ids[..i][k] == ids[k];
    }
  }

  /** A transaction of no slot's id explains nothing. */
  lemma UnknownExplained(hash: ShortHash, c: CompactBlock, slots: seq<nat>, index: map<nat, nat>, txs: seq<Tx>,
                         m: Match, tx: Tx)
    requires IndexOk(c.shortIds, slots, index, |c.shortIds|) && AllExplained(hash, c, slots, txs, m)
    requires ShortId(hash, c, tx) !in index
    ensures AllExplained(hash, c, slots, txs + [tx], m)
  {
    hide ShortId, Matches;
    assert c.shortIds[..|c.shortIds|] == c.shortIds;
    forall k | 0 <= k < |slots|
      ensures Explained(hash, c, slots, txs + [tx], m, k)
    {
      assert Explained(hash, c, slots, txs, m, k);
      MatchesNext(hash, c, txs, tx, c.shortIds[k]);
      assert c.shortIds[k] in index;
    }
  }

  /** Once nothing is missing, further transactions need not be looked at. */
  lemma FullExplained(hash: ShortHash, c: CompactBlock, slots: seq<nat>, a0: Slots, seen: set<Tx>, txs: seq<Tx>,
                      more: seq<Tx>, m: Match)
    requires Matched(hash, c, slots, a0, seen, m) && AllExplained(hash, c, slots, txs, m) && m.count == |c.shortIds|
    ensures AllExplained(hash, c, slots, txs + more, m)
  {
    hide ShortId, Matches, Missing;
    forall k | 0 <= k < |slots|
      ensures Explained(hash, c, slots, txs + more, m, k)
    {
      assert Explained(hash, c, slots, txs, m, k) && Good(hash, c, slots, seen, m, k);
      NoneMissing(m.a, slots[k]);
      MatchesMore(hash, c, txs, more, c.shortIds[k]);
    }
  }

  lemma {:induction false} NoneMissing(a: Slots, j: nat)
    requires Missing(a) == 0 && j < |a|
    ensures a[j].Some?
  {
    var n := |a| - 1;
    if j < n {
      NoneMissing(a[..n], j);
    }
  }

  lemma SlotsApart(a: Slots, slots: seq<nat>, i: nat, k: nat)
    requires AreHoles(a, slots, |a|) && i < |slots| && k < |slots| && i != k
    ensures slots[i] != slots[k]
  {
    hide Missing;
  }

  /** Filling slot i with a transaction of its id, when it is not marked, or emptying it, keeps the matching. */
  lemma ConsiderKeeps(hash: ShortHash, c: CompactBlock, slots: seq<nat>, a0: Slots, seen: set<Tx>, m: Match, i: nat,
                      tx: Tx, m': Match)
    requires AreHoles(a0, slots, |a0|) && Matched(hash, c, slots, a0, seen, m) && i < |slots|
    requires ShortId(hash, c, tx) == c.shortIds[i] && tx in seen
    requires slots[i] < |m.a| && (m' == ConsiderPool(m, slots[i], tx) || m' == ConsiderExtra(m, slots[i], tx))
    ensures Matched(hash, c, slots, a0, seen, m')
  {
    hide Missing, ShortId;
    var s := slots[i];
    assert Good(hash, c, slots, seen, m, i);
    MissingUpdate(m.a, s, Some(tx));
    MissingUpdate(m.a, s, None);
    MissingBound(m'.a);
    forall k | 0 <= k < |slots|
      ensures Good(hash, c, slots, seen, m', k)
    {
      assert Good(hash, c, slots, seen, m, k);
      if k != i {
        SlotsApart(a0, slots, i, k);
      }
    }
    StillMissing(m'.a, a0, slots);
  }

  lemma {:induction false} MissingBound(a: Slots)
    ensures 0 <= Missing(a) <= |a|
  {
    if a != [] {
      MissingBound(a[..|a| - 1]);
    }
  }

  /** No more slots are missing than there were at the start. */
  lemma StillMissing(a: Slots, a0: Slots, slots: seq<nat>)
    requires |a| == |a0| && AreHoles(a0, slots, |a0|) && forall j | 0 <= j < |a0| && a0[j].Some? :: a[j].Some?
    ensures Missing(a) <= |slots|
  {
    assert a0[..|a0|] == a0;
    FewerMissing(a, a0);
  }

  lemma {:induction false} FewerMissing(a: Slots, b: Slots)
    requires |a| == |b| && forall j | 0 <= j < |b| && b[j].Some? :: a[j].Some?
    ensures Missing(a) <= Missing(b)
  {
    if a != [] {
      FewerMissing(a[..|a| - 1], b[..|b| - 1]);
    }
  }

  ghost function TxSet(txs: seq<Tx>): set<Tx> {
    set tx | tx in txs
  }

  /** Look through a list of transactions, stopping early once every slot is filled. */
  method Scan(hash: ShortHash, c: CompactBlock, index: map<nat, nat>, txs: seq<Tx>, extra: bool, m0: Match,
              ghost a0: Slots, ghost slots: seq<nat>, ghost seen: set<Tx>, ghost before: seq<Tx>) returns (m: Match)
    requires AreHoles(a0, slots, |a0|) && |index| == |c.shortIds| && IndexOk(c.shortIds, slots, index, |c.shortIds|)
    requires Matched(hash, c, slots, a0, seen, m0) && TxSet(txs) <= seen && AllExplained(hash, c, slots, before, m0)
    ensures Matched(hash, c, slots, a0, seen, m) && AllExplained(hash, c, slots, before + txs, m)
  {
    hide AreHoles, Matched, Missing, ShortId, IndexOk, TxSet, AllExplained, ConsiderPool, ConsiderExtra;
    m := m0;
    assert before + txs[..0] == before;
    for n := 0 to |txs|
      invariant Matched(hash, c, slots, a0, seen, m) && AllExplained(hash, c, slots, before + txs[..n], m)
    {
      var id := ShortId(hash, c, txs[n]);
      assert before + txs[..n + 1] == before + txs[..n] + [txs[n]];
      if id in index {
        ghost var i := Lookup(c.shortIds, slots, index, id);
        InSet(txs, n);
        SlotInRange(hash, c, slots, a0, seen, m, i);
        var m' := if extra then ConsiderExtra(m, index[id], txs[n]) else ConsiderPool(m, index[id], txs[n]);
        ConsiderKeeps(hash, c, slots, a0, seen, m, i, txs[n], m');
        ConsiderExplained(hash, c, slots, index, a0, before + txs[..n], m, i, txs[n], m');
        m := m';
      } else {
        UnknownExplained(hash, c, slots, index, before + txs[..n], m, txs[n]);
      }
      if m.count == |index| {
        FullExplained(hash, c, slots, a0, seen, before + txs[..n + 1], txs[n + 1..], m);
        assert before + txs == before + txs[..n + 1] + txs[n + 1..];
        return;
      }
    }
    assert txs[..|txs|] == txs;
  }

  lemma Lookup(ids: seq<nat>, slots: seq<nat>, index: map<nat, nat>, id: nat) returns (i: nat)
    requires IndexOk(ids, slots, index, |ids|) && |index| == |ids| && id in index
    ensures i < |ids| && i < |slots| && ids[i] == id && index[id] == slots[i]
  {
    assert ids[..|ids|] == ids;
    i :| i < |ids| && ids[i] == id;
  }

  lemma InSet(txs: seq<Tx>, n: nat)
    requires n < |txs|
    ensures txs[n] in TxSet(txs)
  {
  }

  lemma SlotInRange(hash: ShortHash, c: CompactBlock, slots: seq<nat>, a0: Slots, seen: set<Tx>, m: Match, i: nat)
    requires Matched(hash, c, slots, a0, seen, m) && i < |slots|
    ensures slots[i] < |m.a| == |m.have| && |slots| == |c.shortIds|
  {
    assert Good(hash, c, slots, seen, m, i);
  }

  // ---- The receiver ----

  class PartiallyDownloadedBlock {
    var header: nat
    var txnAvailable: Slots
    var prefilledCount: nat
    var mempoolCount: int

    constructor ()
      ensures header == 0 && txnAvailable == []
    {
      header, txnAvailable, prefilledCount, mempoolCount := 0, [], 0, 0;
    }

    /** What a successful start leaves: prefilled slots filled, the others empty or holding a match. */
    ghost predicate Initialized(hash: ShortHash, c: CompactBlock, txs: seq<Tx>)
      reads this
    {
      exists a0: Slots, slots: seq<nat>, have: seq<bool> ::
        && Placed(c, a0, |c.prefilled|) && AreHoles(a0, slots, |a0|)
        && Matched(hash, c, slots, a0, TxSet(txs), Match(txnAvailable, have, mempoolCount))
        && AllExplained(hash, c, slots, txs, Match(txnAvailable, have, mempoolCount))
    }

    /** The message is refused before anything is looked up. */
    predicate Refused(c: CompactBlock)
      reads this
    {
      || c.header == 0 || (c.shortIds == [] && c.prefilled == [])
      || |c.shortIds| + |c.prefilled| > MAX_TRANSACTIONS
      || header != 0 || txnAvailable != []
    }

    lemma NullRefused(c: CompactBlock)
      ensures c.header == 0 ==> Refused(c)
    {
    }

    method InitData(hash: ShortHash, c: CompactBlock, pool: seq<Tx>, extra: seq<Tx>, uneven: nat -> bool)
      returns (status: ReadStatus)
      requires |c.shortIds| + |c.prefilled| <= UINT16_MAX
      modifies this
      ensures status == StatusInvalid <==> old(Refused(c)) || !forall i | 0 <= i < |c.prefilled| :: PrefilledOk(c, i)
      ensures status != StatusInvalid ==>
        (status == StatusFailed <==> Repeats(c.shortIds) || exists i :: 0 <= i < |c.shortIds| && uneven(i))
      ensures status == StatusOk ==> header == c.header != 0 && Initialized(hash, c, pool + extra)
    {
      hide Refused, Placed, AreHoles, Matched, Missing, IndexOk, PrefilledOk, TxSet, AllExplained, Repeats;
      NullRefused(c);
      if Refused(c) {
        return StatusInvalid;
      }
      header := c.header;
      var ok, a := PlacePrefilled(c);
      txnAvailable := a;
      if !ok {
        return StatusInvalid;
      }
      prefilledCount := |c.prefilled|;
      PlacedCount(c, a);
      var index;
      ghost var slots;
      status, index, slots := IndexIds(c.shortIds, a, uneven);
      if status != StatusOk {
        return;
      }
      ghost var seen := TxSet(pool + extra);
      BothSeen(pool, extra);
      var m := Match(a, seq(|a|, _ => false), 0);
      MatchBegins(hash, c, slots, a, seen, m);
      m := Scan(hash, c, index, pool, false, m, a, slots, seen, []);
      assert [] + pool == pool;
      m := Scan(hash, c, index, extra, true, m, a, slots, seen, pool);
      txnAvailable, mempoolCount := m.a, m.count;
      assert m == Match(txnAvailable, m.have, mempoolCount);
    }

    /** Put the block together; it can be done once only. */
    method FillBlock(missing: seq<Tx>, mutated: Block -> bool) returns (status: ReadStatus, block: Block)
      modifies this
      ensures status == StatusOk <==>
        old(header) != 0 && |missing| == old(Missing(txnAvailable)) &&
          !mutated(Block(old(header), Merge(old(txnAvailable), missing)))
      ensures status == StatusOk ==> block == Block(old(header), Merge(old(txnAvailable), missing))
      ensures status == StatusFailed <==>
        old(header) != 0 && |missing| == old(Missing(txnAvailable)) &&
          mutated(Block(old(header), Merge(old(txnAvailable), missing)))
      ensures old(header) != 0 && |missing| >= old(Missing(txnAvailable)) ==> header == 0 && txnAvailable == []
      ensures old(header) == 0 ==> header == 0 && txnAvailable == old(txnAvailable)
      ensures old(header) != 0 && |missing| < old(Missing(txnAvailable)) ==> header == old(header) && exists k: nat ::
        && StopsAt(old(txnAvailable), missing, k) && txnAvailable == Emptied(old(txnAvailable), k)
        && Missing(txnAvailable) == old(Missing(txnAvailable)) + k - |missing|
    {
      hide Missing, Merge, StopsAt;
      block := Block(header, []);
      if header == 0 {
        return StatusInvalid, block;
      }
      ghost var a := txnAvailable;
      var vtx, used, short := Collect(txnAvailable, missing);
      if short {
        EmptiedMissing(a, missing, |vtx|);
        txnAvailable := Emptied(txnAvailable, |vtx|);
        return StatusInvalid, block;
      }
      block := Block(header, vtx);
      header, txnAvailable := 0, [];
      if |missing| != used {
        return StatusInvalid, block;
      }
      status := if mutated(block) then StatusFailed else StatusOk;
    }
  }

  lemma PlacedCount(c: CompactBlock, a: Slots)
    requires Placed(c, a, |c.prefilled|)
    ensures Missing(a) == |c.shortIds| && |a| == |c.shortIds| + |c.prefilled|
  {
  }

  lemma MatchBegins(hash: ShortHash, c: CompactBlock, slots: seq<nat>, a: Slots, seen: set<Tx>, m: Match)
    requires AreHoles(a, slots, |a|) && Missing(a) == |c.shortIds| && m == Match(a, m.have, 0) && |m.have| == |a|
    requires forall j | 0 <= j < |a| :: !m.have[j]
    ensures Matched(hash, c, slots, a, seen, m) && AllExplained(hash, c, slots, [], m)
  {
    assert a[..|a|] == a;
  }

  lemma BothSeen(pool: seq<Tx>, extra: seq<Tx>)
    ensures TxSet(pool) <= TxSet(pool + extra) && TxSet(extra) <= TxSet(pool + extra)
  {
  }

  // ---- Putting the block together ----

  /** Available transactions, and the missing ones in order in the places left. */
  function Merge(a: Slots, missing: seq<Tx>): seq<Tx> {
    if a == [] then []
    else
      var n := |a| - 1;
      var k := Missing(a[..n]);
      Merge(a[..n], missing) + if a[n].Some? then [a[n].value] else if k < |missing| then [missing[k]] else []
  }

  /** Those of `vtx` at empty slots. */
  ghost function Absent(a: Slots, vtx: seq<Tx>): seq<Tx>
    requires |vtx| == |a|
  {
    if a == [] then []
    else
      var n := |a| - 1;
      Absent(a[..n], vtx[..n]) + if a[n].None? then [vtx[n]] else []
  }

  /** The transactions given run out at slot `k`. */
  ghost predicate StopsAt(a: Slots, missing: seq<Tx>, k: nat) {
    k < |a| && a[k].None? && Missing(a[..k]) == |missing|
  }

  /** The slots when what was available below `k` has been taken out. */
  function Emptied(a: Slots, k: nat): Slots
    requires k <= |a|
  {
    seq(k, _ => None) + a[k..]
  }

  lemma {:induction false} MissingSplit(a: Slots, b: Slots)
    ensures Missing(a + b) == Missing(a) + Missing(b)
  {
    if b == [] {
      assert a + b == a;
    } else {
      var n := |b| - 1;
      assert (a + b)[..|a + b| - 1] == a + b[..n];
      MissingSplit(a, b[..n]);
    }
  }

  /** What was taken out is missing too when the rest is asked for again. */
  lemma EmptiedMissing(a: Slots, missing: seq<Tx>, k: nat)
    requires StopsAt(a, missing, k)
    ensures k <= |a| && Missing(Emptied(a, k)) == Missing(a) + k - |missing|
  {
    hide Missing;
    var none: Slots := seq(k, _ => None);
    MissingAll(none);
    MissingSplit(none, a[k..]);
    MissingSplit(a[..k], a[k..]);
    assert a[..k] + a[k..] == a;
  }

  method Collect(a: Slots, missing: seq<Tx>) returns (vtx: seq<Tx>, used: nat, short: bool)
    ensures short <==> |missing| < Missing(a)
    ensures |vtx| <= |a|
    ensures short ==> StopsAt(a, missing, |vtx|)
    ensures !short ==> vtx == Merge(a, missing) && used == Missing(a)
  {
    hide Missing;
    vtx, used := [], 0;
    CollectBegins(a, missing);
    for i := 0 to |a|
      invariant vtx == Merge(a[..i], missing) && |vtx| == i && used == Missing(a[..i]) <= |missing|
    {
      MissingNext(a, i);
      MissingPrefix(a, i + 1);
      assert a[..i + 1][..i] == a[..i];
      if a[i].None? {
        if used >= |missing| {
          return vtx, used, true;
        }
        vtx := vtx + [missing[used]];
        used := used + 1;
      } else {
        vtx := vtx + [a[i].value];
      }
    }
    assert a[..|a|] == a;
    short := false;
  }

  lemma CollectBegins(a: Slots, missing: seq<Tx>)
    ensures Merge(a[..0], missing) == [] && Missing(a[..0]) == 0
  {
  }

  /** If what is available is right, what is absent completes it. */
  lemma {:induction false} MergeAbsent(a: Slots, vtx: seq<Tx>, rest: seq<Tx>)
    requires |vtx| == |a| && forall j | 0 <= j < |a| && a[j].Some? :: a[j].value == vtx[j]
    ensures Merge(a, Absent(a, vtx) + rest) == vtx && |Absent(a, vtx)| == Missing(a)
  {
    if a != [] {
      var n := |a| - 1;
      var last := if a[n].None? then [vtx[n]] else [];
      var before := Absent(a[..n], vtx[..n]);
      MergeAbsent(a[..n], vtx[..n], last + rest);
      assert Absent(a, vtx) + rest == before + (last + rest);
      assert a[n].None? ==> (before + (last + rest))[|before|] == vtx[n];
      assert vtx == vtx[..n] + [vtx[n]];
    }
  }

  // ---- The whole relay ----

  /** Short ids of the pool and the extra transactions do not collide with those of other transactions of the block. */
  ghost predicate NoFalseMatch(hash: ShortHash, block: Block, c: CompactBlock, txs: set<Tx>) {
    forall tx, i | tx in txs && 0 <= i < |c.shortIds| && i + 1 < |block.vtx| && ShortId(hash, c, tx) == c.shortIds[i] ::
      tx == block.vtx[i + 1]
  }

  /** For a block as sent, the holes are all slots but the first, in order. */
  lemma SentHoles(hash: ShortHash, block: Block, c: CompactBlock, a: Slots, slots: seq<nat>)
    requires Sends(hash, block, c) && Placed(c, a, |c.prefilled|) && AreHoles(a, slots, |a|)
    ensures |a| == |block.vtx| && a[0] == Some(block.vtx[0]) && |slots| == |c.shortIds|
    ensures forall i | 0 <= i < |slots| :: slots[i] == i + 1
    ensures forall j | 0 < j < |a| :: a[j].None?
  {
    hide Missing;
    assert Position(c.prefilled, 0) == 0;
    assert a[..|a|] == a;
    forall j | 0 < j < |a|
      ensures a[j].None?
    {
    }
    forall i | 0 <= i < |slots|
      ensures slots[i] == i + 1
    {
      OneFilled(a, slots[i]);
    }
  }

  lemma {:induction false} OneFilled(a: Slots, n: nat)
    requires n <= |a| && |a| > 0 && a[0].Some? && forall j | 0 < j < |a| :: a[j].None?
    ensures Missing(a[..n]) == if n == 0 then 0 else n - 1
  {
    hide Missing;
    if n == 0 {
      assert a[..0] == [];
      CollectBegins(a, []);
    } else {
      OneFilled(a, n - 1);
      MissingNext(a, n - 1);
    }
  }

  /** Everything available is the block's own. */
  lemma AvailableIsRight(hash: ShortHash, block: Block, c: CompactBlock, txs: set<Tx>, a0: Slots, slots: seq<nat>,
                         m: Match)
    requires Sends(hash, block, c) && NoFalseMatch(hash, block, c, txs)
    requires Placed(c, a0, |c.prefilled|) && AreHoles(a0, slots, |a0|) && Matched(hash, c, slots, a0, txs, m)
    ensures |m.a| == |block.vtx| && forall j | 0 <= j < |m.a| && m.a[j].Some? :: m.a[j].value == block.vtx[j]
  {
    hide Missing, ShortId;
    SentHoles(hash, block, c, a0, slots);
    forall j | 0 <= j < |m.a| && m.a[j].Some?
      ensures m.a[j].value == block.vtx[j]
    {
      if j > 0 {
        assert slots[j - 1] == j;
        assert Good(hash, c, slots, txs, m, j - 1);
      }
    }
  }

  /**
    A block sent compactly is rebuilt exactly: once the start succeeds and no foreign transaction matches a short id,
    filling in the missing transactions gives back the original list.
   */
  method Relay(hash: ShortHash, block: Block, nonce: nat, pool: seq<Tx>, extra: seq<Tx>, uneven: nat -> bool,
               mutated: Block -> bool)
    returns (started: ReadStatus, done: ReadStatus, rebuilt: Block, ghost c: CompactBlock)
    requires 0 < |block.vtx| <= UINT16_MAX && block.header != 0 && !block.vtx[0].isNull && !mutated(block)
    ensures started != StatusInvalid && Sends(hash, block, c)
    ensures started == StatusFailed <==> Repeats(c.shortIds) || exists i :: 0 <= i < |c.shortIds| && uneven(i)
    ensures started == StatusOk && NoFalseMatch(hash, block, c, TxSet(pool + extra)) ==>
      done == StatusOk && rebuilt == block
  {
    hide Missing, Merge, Placed, AreHoles, Matched, ShortId, Absent, TxSet, NoFalseMatch, AllExplained, Repeats;
    var compact := MakeCompact(hash, block, nonce);
    c := compact;
    var pdb := new PartiallyDownloadedBlock();
    NothingRefused(hash, block, c);
    started := pdb.InitData(hash, compact, pool, extra, uneven);
    done, rebuilt := StatusFailed, block;
    if started != StatusOk {
      return;
    }
    var missing := Requested(pdb.txnAvailable, block.vtx);
    ghost var txs := TxSet(pool + extra);
    if NoFalseMatch(hash, block, c, txs) {
      var a0, slots, have :|
        && Placed(c, a0, |c.prefilled|) && AreHoles(a0, slots, |a0|)
        && Matched(hash, c, slots, a0, txs, Match(pdb.txnAvailable, have, pdb.mempoolCount))
        && AllExplained(hash, c, slots, pool + extra, Match(pdb.txnAvailable, have, pdb.mempoolCount));
      AvailableIsRight(hash, block, c, txs, a0, slots, Match(pdb.txnAvailable, have, pdb.mempoolCount));
      MergeAbsent(pdb.txnAvailable, block.vtx, []);
      assert Absent(pdb.txnAvailable, block.vtx) + [] == missing;
    }
    done, rebuilt := pdb.FillBlock(missing, mutated);
  }

  lemma NothingRefused(hash: ShortHash, block: Block, c: CompactBlock)
    requires Sends(hash, block, c) && 0 < |block.vtx| <= UINT16_MAX && !block.vtx[0].isNull
    ensures |c.shortIds| + |c.prefilled| <= UINT16_MAX && forall i | 0 <= i < |c.prefilled| :: PrefilledOk(c, i)
  {
  }

  /** The sender's answer to a request for the empty slots. */
  method Requested(a: Slots, vtx: seq<Tx>) returns (missing: seq<Tx>)
    ensures |a| == |vtx| ==> missing == Absent(a, vtx)
  {
    missing := [];
    if |a| == |vtx| {
      for i := 0 to |a|
        invariant missing == Absent(a[..i], vtx[..i])
      {
        assert a[..i + 1][..i] == a[..i] && vtx[..i + 1][..i] == vtx[..i];
        if a[i].None? {
          missing := missing + [vtx[i]];
        }
      }
      assert a[..|a|] == a && vtx[..|vtx|] == vtx;
    }
  }

  // ---- Indexes sent as differences ----

  const UINT64_MAX: nat := 0xffff_ffff_ffff_ffff

  /** Each value is sent as its distance from one past the value before; a value out of order is refused. */
  class DifferenceFormatter {
    var shift: nat

    constructor ()
      ensures shift == 0
    {
      shift := 0;
    }

    method Ser(v: nat) returns (d: Option<nat>)
      modifies this
      ensures d.Some? <==> old(shift) <= v < UINT64_MAX
      ensures d.Some? ==> d.value == v - old(shift) && shift == v + 1
      ensures d.None? ==> shift == old(shift)
    {
      if v < shift || v >= UINT64_MAX {
        return None;
      }
      d := Some(v - shift);
      shift := v + 1;
    }

    /** The sum is taken modulo 2^64; a sum that wrapped, or is too large for the type read, is refused. */
    method Unser(n: nat, max: nat) returns (v: Option<nat>)
      requires shift <= UINT64_MAX && n <= UINT64_MAX && max < UINT64_MAX
      modifies this
      ensures v.Some? <==> old(shift) + n <= max
      ensures v.Some? ==> v.value == old(shift) + n && shift == v.value + 1
    {
      shift := (shift + n) % (UINT64_MAX + 1);
      if shift < n || shift >= UINT64_MAX || shift > max {
        return None;
      }
      v := Some(shift);
      shift := shift + 1;
    }
  }

  predicate Increasing(xs: seq<nat>, from: nat) {
    xs == [] || (from <= xs[0] && Increasing(xs[1..], xs[0] + 1))
  }

  /** The differences of an increasing list. */
  function Differences(xs: seq<nat>, from: nat): seq<nat>
    requires Increasing(xs, from)
  {
    if xs == [] then [] else [xs[0] - from] + Differences(xs[1..], xs[0] + 1)
  }

  /** What the differences stand for. */
  function Sums(ds: seq<nat>, from: nat): seq<nat> {
    if ds == [] then [] else [from + ds[0]] + Sums(ds[1..], from + ds[0] + 1)
  }

  /** Reading undoes writing, for every increasing list. */
  lemma {:induction false} SumsOfDifferences(xs: seq<nat>, from: nat)
    requires Increasing(xs, from)
    ensures Sums(Differences(xs, from), from) == xs
  {
    if xs != [] {
      SumsOfDifferences(xs[1..], xs[0] + 1);
      assert Differences(xs, from)[1..] == Differences(xs[1..], xs[0] + 1);
    }
  }

  /** Writing undoes reading, and everything read is increasing. */
  lemma {:induction false} DifferencesOfSums(ds: seq<nat>, from: nat)
    ensures Increasing(Sums(ds, from), from) && Differences(Sums(ds, from), from) == ds
  {
    if ds != [] {
      DifferencesOfSums(ds[1..], from + ds[0] + 1);
      assert Sums(ds, from)[1..] == Sums(ds[1..], from + ds[0] + 1);
    }
  }

  /** A request's indexes written out. */
  method WriteIndexes(xs: seq<nat>) returns (ok: bool, ds: seq<nat>)
    requires forall i | 0 <= i < |xs| :: xs[i] <= UINT16_MAX
    ensures ok <==> Increasing(xs, 0)
    ensures ok ==> ds == Differences(xs, 0)
  {
    var f := new DifferenceFormatter();
    ds := [];
    assert xs[0..] == xs;
    for i := 0 to |xs|
      invariant Increasing(xs, 0) <==> Increasing(xs[i..], f.shift)
      invariant Increasing(xs, 0) ==> ds + Differences(xs[i..], f.shift) == Differences(xs, 0)
    {
      assert xs[i..][1..] == xs[i + 1..];
      var d := f.Ser(xs[i]);
      if d.None? {
        return false, [];
      }
      ds := ds + [d.value];
    }
    ok := true;
  }

  lemma SumsNext(ds: seq<nat>, i: nat, from: nat)
    requires i < |ds|
    ensures Sums(ds[i..], from) == [from + ds[i]] + Sums(ds[i + 1..], from + ds[i] + 1)
  {
    assert ds[i..][1..] == ds[i + 1..];
  }

  lemma NoSums(from: nat)
    ensures Sums([], from) == []
  {
  }

  /** Reading stops at the first value beyond 16 bits. */
  method ReadIndexes(ds: seq<nat>) returns (ok: bool, xs: seq<nat>)
    requires forall i | 0 <= i < |ds| :: ds[i] <= UINT64_MAX
    ensures ok <==> forall i | 0 <= i < |Sums(ds, 0)| :: Sums(ds, 0)[i] <= UINT16_MAX
    ensures ok ==> xs == Sums(ds, 0)
  {
    hide Sums;
    var f := new DifferenceFormatter();
    xs := [];
    assert ds[0..] == ds;
    for i := 0 to |ds|
      invariant f.shift <= UINT16_MAX + 1
      invariant Sums(ds, 0) == xs + Sums(ds[i..], f.shift) && forall k | 0 <= k < |xs| :: xs[k] <= UINT16_MAX
    {
      ghost var shift := f.shift;
      SumsNext(ds, i, shift);
      var v := f.Unser(ds[i], UINT16_MAX);
      if v.None? {
        assert Sums(ds, 0)[|xs|] == shift + ds[i];
        return false, [];
      }
      xs := xs + [v.value];
    }
    assert ds[|ds|..] == [];
    NoSums(f.shift);
    ok := true;
  }
}
