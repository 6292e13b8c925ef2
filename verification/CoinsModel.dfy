/**
  The values behind the UTXO cache: coins, cache entries with their DIRTY and
  FRESH flags, and the plain map ("view") that a cache on top of a base stands for.
 */
module CoinsModel {
  import opened Wrappers

  newtype Byte = x: int | 0 <= x < 256

  type Script = seq<Byte>
  type Txid = nat

  const OP_RETURN: Byte := 0x6a
  const MAX_SCRIPT_SIZE := 10000
  /** Scripts up to this size live inside the coin and use no heap memory. */
  const DIRECT_SCRIPT_SIZE := 36

  datatype OutPoint = OutPoint(hash: Txid, n: nat)

  datatype TxOut = TxOut(value: int, script: Script)

  datatype Coin = Coin(out: TxOut, height: nat, coinbase: bool) {
    predicate IsSpent() {
      out.value == -1
    }

    /** Heap bytes of the script, taking the allocated capacity to be the script size. */
    function DynamicMemoryUsage(): nat {
      if |out.script| <= DIRECT_SCRIPT_SIZE then 0 else (|out.script| + 31) / 16 * 16
    }
  }

  /** What Coin::Clear leaves behind. */
  const NULL_COIN := Coin(TxOut(-1, []), 0, false)

  predicate IsUnspendable(script: Script) {
    (|script| > 0 && script[0] == OP_RETURN) || |script| > MAX_SCRIPT_SIZE
  }

  datatype Entry = Entry(coin: Coin, isDirty: bool, isFresh: bool)

  type Entries = map<OutPoint, Entry>

  /** The unspent coins visible through a view. */
  type View = map<OutPoint, Coin>

  ghost predicate Unspent(v: View) {
    forall o | o in v :: !v[o].IsSpent()
  }

  function Lookup(v: View, o: OutPoint): Option<Coin> {
    if o in v then Some(v[o]) else None
  }

  /** What a cache entry promises about the view below it. */
  ghost predicate EntryOk(o: OutPoint, e: Entry, base: View) {
    && (e.isFresh ==> o !in base)
    && (!e.isDirty ==> !e.coin.IsSpent() && o in base && base[o] == e.coin)
    && (e.coin.IsSpent() ==> e.isDirty && !e.isFresh && e.coin == NULL_COIN)
  }

  ghost predicate Coherent(cache: Entries, base: View) {
    forall o | o in cache :: EntryOk(o, cache[o], base)
  }

  /** The view obtained by putting a cache on top of a base view. */
  ghost function Overlay(cache: Entries, base: View): View {
    map o | o in cache.Keys + base.Keys && !(o in cache && cache[o].coin.IsSpent())
      :: if o in cache then cache[o].coin else base[o]
  }

  ghost function SetCoin(v: View, o: OutPoint, c: Coin): View {
    if c.IsSpent() then v - {o} else v[o := c]
  }

  /** Replacing an entry. */
  lemma OverlaySet(cache: Entries, base: View, o: OutPoint, e: Entry)
    ensures Overlay(cache[o := e], base) == SetCoin(Overlay(cache, base), o, e.coin)
    ensures Coherent(cache, base) && EntryOk(o, e, base) ==> Coherent(cache[o := e], base)
  {
  }

  /** Dropping an entry. */
  lemma OverlayErase(cache: Entries, base: View, o: OutPoint)
    requires Coherent(cache, base) && Unspent(base)
    ensures Coherent(cache - {o}, base)
    ensures o in cache && o !in base ==> Overlay(cache - {o}, base) == Overlay(cache, base) - {o}
    ensures o in cache && !cache[o].isDirty ==> Overlay(cache - {o}, base) == Overlay(cache, base)
  {
    if o in cache {
      assert EntryOk(o, cache[o], base);
    }
  }

  // ---- The list of flagged entries (m_sentinel's circular list, as a sequence) ----

  ghost predicate NoDup<T>(s: seq<T>) {
    forall i, j | 0 <= i < j < |s| :: s[i] != s[j]
  }

  /** The list holds exactly the dirty entries, each once. */
  ghost predicate Linked(flagged: seq<OutPoint>, cache: Entries) {
    && NoDup(flagged)
    && forall o :: o in flagged <==> o in cache && cache[o].isDirty
  }

  /** Unlinking a node from the list. */
  function Without(s: seq<OutPoint>, o: OutPoint): (r: seq<OutPoint>)
    ensures forall x :: x in r <==> x in s && x != o
    ensures NoDup(s) ==> NoDup(r) && |r| == |s| - (if o in s then 1 else 0)
    ensures o !in s ==> r == s
  {
    if s == [] then []
    else if s[0] == o then
      assert s == [s[0]] + s[1..];
      assert NoDup(s) ==> o !in s[1..];
      Without(s[1..], o)
    else
      assert s == [s[0]] + s[1..];
      var rest := Without(s[1..], o);
      assert NoDup(s) ==> s[0] !in rest;
      [s[0]] + rest
  }

  // ---- Memory accounting ----

  ghost function UsageSum(cache: Entries): nat {
    if cache == map[] then 0
    else
      var o :| o in cache;
      cache[o].coin.DynamicMemoryUsage() + UsageSum(cache - {o})
  }

  lemma {:induction false} UsageErase(cache: Entries, o: OutPoint)
    requires o in cache
    ensures UsageSum(cache) == cache[o].coin.DynamicMemoryUsage() + UsageSum(cache - {o})
    decreases |cache|
  {
    var p :| p in cache && UsageSum(cache) == cache[p].coin.DynamicMemoryUsage() + UsageSum(cache - {p});
    if p != o {
      UsageErase(cache - {p}, o);
      UsageErase(cache - {o}, p);
      assert cache - {p} - {o} == cache - {o} - {p};
    }
  }

  /** The running counters and the flagged list agree with the entries. */
  ghost predicate Exact(cache: Entries, flagged: seq<OutPoint>, dirtyCount: nat, usage: nat) {
    && Linked(flagged, cache)
    && dirtyCount == |flagged|
    && usage == UsageSum(cache)
  }

  lemma ExactErase(cache: Entries, flagged: seq<OutPoint>, dirtyCount: nat, usage: nat, o: OutPoint)
    requires Exact(cache, flagged, dirtyCount, usage) && o in cache
    ensures cache[o].isDirty ==> dirtyCount > 0
    ensures usage >= cache[o].coin.DynamicMemoryUsage()
    ensures Exact(cache - {o}, Without(flagged, o), dirtyCount - (if cache[o].isDirty then 1 else 0),
                  usage - cache[o].coin.DynamicMemoryUsage())
    ensures !cache[o].isDirty ==> Without(flagged, o) == flagged
  {
    UsageErase(cache, o);
    assert o in flagged <==> cache[o].isDirty;
  }

  /** Storing an entry: it joins the end of the list when it becomes flagged. */
  lemma ExactSet(cache: Entries, flagged: seq<OutPoint>, dirtyCount: nat, usage: nat, o: OutPoint, e: Entry)
    requires Exact(cache, flagged, dirtyCount, usage)
    requires o in cache && cache[o].isDirty ==> e.isDirty
    ensures o in cache && cache[o].isDirty ==> dirtyCount > 0
    ensures o in cache ==> usage >= cache[o].coin.DynamicMemoryUsage()
    ensures
      var was := if o in cache then cache[o] else Entry(NULL_COIN, false, false);
      Exact(cache[o := e],
            if e.isDirty && !was.isDirty then flagged + [o] else flagged,
            dirtyCount - (if was.isDirty then 1 else 0) + (if e.isDirty then 1 else 0),
            usage - was.coin.DynamicMemoryUsage() + e.coin.DynamicMemoryUsage())
  {
    if o in cache {
      UsageErase(cache, o);
    } else {
      assert cache - {o} == cache;
    }
    assert o in flagged <==> o in cache && cache[o].isDirty;
    UsageErase(cache[o := e], o);
    assert cache[o := e] - {o} == cache - {o};
  }
}
