/**
  CCoinsViewCache: a write-back cache over another view. Caches stack to any depth
  over a database. Each method states its effect on the plain map the cache stands for.
 */
module CoinsCache {
  import opened Wrappers
  import opened CoinsModel

  // ---- What writing a cache into its base does to the two maps ----

  /** The base view once the first `k` entries of the list have been written to it. */
  ghost function Progress(cache: Entries, list: seq<OutPoint>, k: nat, base: View): View
    requires k <= |list| && forall o | o in list :: o in cache
  {
    if k == 0 then base
    else SetCoin(Progress(cache, list, k - 1, base), list[k - 1], cache[list[k - 1]].coin)
  }

  /** The cache once the entries under `keys` were visited by a non-erasing cursor. */
  ghost function Cleaned(cache: Entries, keys: seq<OutPoint>): Entries {
    map o | o in cache && !(o in keys && cache[o].coin.IsSpent())
      :: if o in keys then Entry(cache[o].coin, false, false) else cache[o]
  }

  /** What Sync leaves in a cache: the unspent coins, unflagged. */
  ghost function Synced(cache: Entries): Entries {
    map o | o in cache && !cache[o].coin.IsSpent() :: Entry(cache[o].coin, false, false)
  }

  lemma {:induction false} ProgressAt(cache: Entries, list: seq<OutPoint>, k: nat, base: View, o: OutPoint)
    requires k <= |list| && (forall p | p in list :: p in cache) && Unspent(base)
    ensures Lookup(Progress(cache, list, k, base), o) ==
      if o !in list[..k] then Lookup(base, o)
      else if cache[o].coin.IsSpent() then None
      else Some(cache[o].coin)
  {
    if k > 0 {
      ProgressAt(cache, list, k - 1, base, o);
      assert list[..k] == list[..k - 1] + [list[k - 1]];
    }
  }

  /** An entry's promise about the base still holds when the entries before it have been written. */
  lemma ProgressKeepsEntry(cache: Entries, list: seq<OutPoint>, k: nat, base: View)
    requires Linked(list, cache) && Coherent(cache, base) && Unspent(base) && k < |list|
    ensures EntryOk(list[k], cache[list[k]], Progress(cache, list, k, base))
  {
    ProgressAt(cache, list, k, base, list[k]);
    assert list[k] !in list[..k];
    assert list[k] in cache && EntryOk(list[k], cache[list[k]], base);
  }

  lemma CleanedNone(cache: Entries)
    ensures Cleaned(cache, []) == cache
  {
  }

  lemma CleanedNext(cache: Entries, list: seq<OutPoint>, k: nat)
    requires k < |list| && list[k] in cache && NoDup(list)
    ensures Cleaned(cache, list[..k + 1]) == Cleaned(Cleaned(cache, list[..k]), [list[k]])
    ensures list[k] in Cleaned(cache, list[..k]) && Cleaned(cache, list[..k])[list[k]] == cache[list[k]]
  {
    assert list[..k + 1] == list[..k] + [list[k]];
  }

  /** Writing only the flagged entries is enough: the clean ones agree with the base. */
  lemma DirtySuffices(cache: Entries, list: seq<OutPoint>, base: View)
    requires Coherent(cache, base) && Linked(list, cache) && Unspent(base)
    ensures Progress(cache, list, |list|, base) == Overlay(cache, base)
    ensures Cleaned(cache, list) == Synced(cache)
  {
    var after := Progress(cache, list, |list|, base);
    assert list[..|list|] == list;
    forall o
      ensures Lookup(after, o) == Lookup(Overlay(cache, base), o)
    {
      ProgressAt(cache, list, |list|, base, o);
      if o in cache {
        assert EntryOk(o, cache[o], base);
      }
    }
    forall o
      ensures o in after <==> o in Overlay(cache, base)
      ensures o in after ==> after[o] == Overlay(cache, base)[o]
    {
      assert Lookup(after, o) == Lookup(Overlay(cache, base), o);
    }
    forall o | o in cache
      ensures EntryOk(o, cache[o], base)
    {
    }
  }

  lemma SyncedCoherent(cache: Entries, base: View)
    requires Unspent(base) && Coherent(cache, base)
    ensures Coherent(Synced(cache), Overlay(cache, base))
    ensures Overlay(Synced(cache), Overlay(cache, base)) == Overlay(cache, base)
    ensures Linked([], Synced(cache))
  {
  }

  /** The bottom of every stack: a store of unspent coins. */
  class CoinsDB {
    var coins: View

    constructor (initial: View)
      ensures coins == initial
    {
      coins := initial;
    }

    /** One record of a batch: erase a spent coin, write an unspent one. */
    method WriteEntry(o: OutPoint, coin: Coin)
      modifies this
      ensures coins == SetCoin(old(coins), o, coin)
    {
      if coin.IsSpent() {
        coins := coins - {o};
      } else {
        coins := coins[o := coin];
      }
    }

    /** One iteration of BatchWrite, on the entry at list position `i`. */
    method BatchStep(child: CoinsViewCache, i: nat, willErase: bool,
                     ghost c0: Entries, ghost list: seq<OutPoint>, ghost done: nat, ghost v0: View)
      returns (next: nat)
      requires Linked(list, c0) && Coherent(c0, v0) && Unspent(v0)
      requires child.Partway(c0, list, done, willErase) && done < |list|
      requires i == (if willErase then done else 0)
      requires coins == Progress(c0, list, done, v0)
      modifies this, child
      ensures next == (if willErase then done + 1 else 0)
      ensures child.Partway(c0, list, done + 1, willErase)
      ensures coins == Progress(c0, list, done + 1, v0)
    {
      child.PartwayNext(c0, list, done, willErase);
      var o := child.flagged[i];
      var e := child.cacheCoins[o];
      assert EntryOk(o, e, v0);
      if e.isDirty {
        WriteEntry(o, e.coin);
      }
      next := child.NextAndMaybeErase(i, willErase, c0, list, done);
    }

    /** Apply every flagged entry of `child`, walking its list as the cursor does. */
    method BatchWrite(child: CoinsViewCache, willErase: bool)
      requires Unspent(coins)
      requires Coherent(child.cacheCoins, coins) && child.Counted()
      modifies this, child
      ensures Unspent(coins)
      ensures coins == Overlay(old(child.cacheCoins), old(coins))
      ensures child.Written(old(child.cacheCoins), willErase)
    {
      ghost var c0, v0, list := child.cacheCoins, coins, child.flagged;
      ghost var done := 0;
      var i := 0;
      assert child.Partway(c0, list, done, willErase) by { CleanedNone(c0); }
      while i < |child.flagged|
        invariant done <= |list| && i == (if willErase then done else 0)
        invariant child.Partway(c0, list, done, willErase)
        invariant coins == Progress(c0, list, done, v0)
        decreases |list| - done
      {
        i := BatchStep(child, i, willErase, c0, list, done, v0);
        done := done + 1;
      }
      child.PartwayDone(c0, list, done, willErase, v0);
    }
  }

  datatype Base = Database(db: CoinsDB) | Cache(cache: CoinsViewCache)

  datatype AddResult = Added | Skipped | Thrown

  class CoinsViewCache {
    const base: Base
    /** True for CoinsViewOverlay, which reads its base without filling the caches below. */
    const peeks: bool
    ghost const depth: nat
    /** Every object of the stack below this cache. */
    ghost const below: set<object>

    var cacheCoins: Entries
    var flagged: seq<OutPoint>
    var cachedCoinsUsage: nat
    var dirtyCount: nat

    constructor OverDatabase(db: CoinsDB, peeks: bool)
      requires Unspent(db.coins)
      ensures Valid() && fresh(this) && base == Database(db)
      ensures View() == db.coins
    {
      base := Database(db);
      this.peeks := peeks;
      depth := 0;
      below := {db};
      cacheCoins, flagged, cachedCoinsUsage, dirtyCount := map[], [], 0, 0;
    }

    constructor OverCache(parent: CoinsViewCache, peeks: bool)
      requires parent.Valid()
      ensures Valid() && fresh(this) && base == Cache(parent)
      ensures View() == parent.View()
    {
      base := Cache(parent);
      this.peeks := peeks;
      depth := parent.depth + 1;
      below := {parent} + parent.below;
      cacheCoins, flagged, cachedCoinsUsage, dirtyCount := map[], [], 0, 0;
    }

    // ---- The map the cache stands for, and the invariant ----

    ghost predicate Stacked() {
      && this !in below
      && match base
         case Database(db) => below == {db}
         case Cache(c) => below == {c} + c.below && c.depth < depth
    }

    ghost predicate BaseValid()
      reads below
      decreases depth, 0
    {
      Stacked() &&
      match base
      case Database(db) => Unspent(db.coins)
      case Cache(c) => c.Valid()
    }

    ghost function BaseView(): View
      requires BaseValid()
      reads below
      decreases depth, 1
    {
      match base
      case Database(db) => db.coins
      case Cache(c) => assert c.Valid(); c.View()
    }

    ghost function View(): View
      requires BaseValid()
      reads this, below
      decreases depth, 2
    {
      Overlay(cacheCoins, BaseView())
    }

    /** The counters and the list of flagged entries are exact. */
    ghost predicate Counted()
      reads this
    {
      Exact(cacheCoins, flagged, dirtyCount, cachedCoinsUsage)
    }

    ghost predicate Valid()
      reads this, below
      decreases depth, 2
    {
      BaseValid() && Counted() && Coherent(cacheCoins, BaseView())
    }

    lemma ViewUnspent()
      requires BaseValid()
      ensures Unspent(BaseView()) && Unspent(View())
      decreases depth
    {
      match base
      case Database(db) =>
      case Cache(c) => c.ViewUnspent();
    }

    // ---- Bookkeeping shared by every writer ----

    /**
      Replace the entry under `o`: take the old entry out of the two counters, link the new
      one if it becomes flagged, and count it. Neither subtraction can underflow.
     */
    method Store(o: OutPoint, e: Entry)
      requires Valid() && (o in cacheCoins && cacheCoins[o].isDirty ==> e.isDirty)
      modifies this
      ensures BaseValid() && BaseView() == old(BaseView()) && Counted()
      ensures cacheCoins == old(cacheCoins)[o := e]
      ensures View() == SetCoin(old(View()), o, e.coin)
      ensures EntryOk(o, e, BaseView()) ==> Valid()
    {
      hide Exact, Coherent, Overlay, EntryOk, BaseView;
      ExactSet(cacheCoins, flagged, dirtyCount, cachedCoinsUsage, o, e);
      OverlaySet(cacheCoins, BaseView(), o, e);
      var was := if o in cacheCoins then cacheCoins[o] else Entry(NULL_COIN, false, false);
      dirtyCount := dirtyCount - if was.isDirty then 1 else 0;
      cachedCoinsUsage := cachedCoinsUsage - was.coin.DynamicMemoryUsage();
      cacheCoins := cacheCoins[o := e];
      if e.isDirty {
        flagged := if was.isDirty then flagged else flagged + [o];
        dirtyCount := dirtyCount + 1;
      }
      cachedCoinsUsage := cachedCoinsUsage + e.coin.DynamicMemoryUsage();
    }

    /** Remove the entry under `o`, unlinking and uncounting it. */
    method Erase(o: OutPoint)
      requires Valid() && o in cacheCoins
      modifies this
      ensures Valid() && BaseView() == old(BaseView())
      ensures cacheCoins == old(cacheCoins) - {o}
      ensures o !in BaseView() ==> View() == old(View()) - {o}
      ensures !old(cacheCoins)[o].isDirty ==> View() == old(View())
    {
      hide Exact, Coherent, Overlay, EntryOk, BaseView;
      ViewUnspent();
      OverlayErase(cacheCoins, BaseView(), o);
      ExactErase(cacheCoins, flagged, dirtyCount, cachedCoinsUsage, o);
      var was := cacheCoins[o];
      dirtyCount := dirtyCount - if was.isDirty then 1 else 0;
      cachedCoinsUsage := cachedCoinsUsage - was.coin.DynamicMemoryUsage();
      flagged := Without(flagged, o);
      cacheCoins := cacheCoins - {o};
    }

    // ---- Reading ----

    function PeekCoin(o: OutPoint): (r: Option<Coin>)
      requires Valid()
      reads this, below
      ensures r == Lookup(View(), o)
      decreases depth
    {
      ViewUnspent();
      if o in cacheCoins then
        if cacheCoins[o].coin.IsSpent() then None else Some(cacheCoins[o].coin)
      else
        match base
        case Database(db) => Lookup(db.coins, o)
        case Cache(c) => c.PeekCoin(o)
    }

    method FetchCoinFromBase(o: OutPoint) returns (r: Option<Coin>)
      requires Valid()
      modifies below
      ensures Valid() && View() == old(View()) && BaseView() == old(BaseView())
      ensures r == Lookup(BaseView(), o)
      decreases depth, 0
    {
      match base
      case Database(db) => r := if o in db.coins then Some(db.coins[o]) else None;
      case Cache(c) =>
        if peeks {
          r := c.PeekCoin(o);
        } else {
          r := c.GetCoin(o);
        }
    }

    /** Bring an entry for `o` into the cache, if the cache or its base has one. */
    method FetchCoin(o: OutPoint) returns (found: bool)
      requires Valid()
      modifies this, below
      ensures Valid() && View() == old(View()) && BaseView() == old(BaseView())
      ensures found <==> o in cacheCoins
      ensures !found ==> o !in View()
      ensures o in old(cacheCoins) || !found ==> cacheCoins == old(cacheCoins)
      ensures o !in old(cacheCoins) && found ==>
        o in View() && cacheCoins == old(cacheCoins)[o := Entry(View()[o], false, false)]
      decreases depth, 1
    {
      if o !in cacheCoins {
        ViewUnspent();
        var c := FetchCoinFromBase(o);
        if c == None {
          return false;
        }
        Store(o, Entry(c.value, false, false));
      }
      return true;
    }

    method GetCoin(o: OutPoint) returns (r: Option<Coin>)
      requires Valid()
      modifies this, below
      ensures Valid() && View() == old(View()) && BaseView() == old(BaseView())
      ensures r == Lookup(View(), o)
      decreases depth, 2
    {
      var found := FetchCoin(o);
      if found && !cacheCoins[o].coin.IsSpent() {
        return Some(cacheCoins[o].coin);
      }
      return None;
    }

    method HaveCoin(o: OutPoint) returns (r: bool)
      requires Valid()
      modifies this, below
      ensures Valid() && View() == old(View()) && BaseView() == old(BaseView())
      ensures r <==> o in View()
    {
      var found := FetchCoin(o);
      r := found && !cacheCoins[o].coin.IsSpent();
    }

    method AccessCoin(o: OutPoint) returns (r: Coin)
      requires Valid()
      modifies this, below
      ensures Valid() && View() == old(View()) && BaseView() == old(BaseView())
      ensures r == if o in View() then View()[o] else NULL_COIN
    {
      var found := FetchCoin(o);
      r := if found then cacheCoins[o].coin else NULL_COIN;
    }

    // ---- Writing ----

    /**
      Add a coin. With `possibleOverwrite` false the caller vouches that no unspent coin
      is visible under `o`; a false promise is caught only when the coin is in this very
      cache, and otherwise leaves a FRESH flag over a coin that the base still has.
     */
    method AddCoin(o: OutPoint, coin: Coin, possibleOverwrite: bool) returns (r: AddResult)
      requires Valid() && !coin.IsSpent()
      modifies this
      ensures BaseValid() && BaseView() == old(BaseView()) && Counted()
      ensures r == Skipped <==> IsUnspendable(coin.out.script)
      ensures r == Thrown <==>
        !IsUnspendable(coin.out.script) && !possibleOverwrite && old(o in cacheCoins && !cacheCoins[o].coin.IsSpent())
      ensures r == Added ==> View() == old(View())[o := coin]
      ensures r != Added ==> View() == old(View()) && cacheCoins == old(cacheCoins)
      ensures Valid() <==>
        r != Added || possibleOverwrite || o in old(cacheCoins) || o !in BaseView()
      ensures possibleOverwrite || o !in old(View()) ==> Valid() && r != Thrown
    {
      if IsUnspendable(coin.out.script) {
        return Skipped;
      }
      var was := if o in cacheCoins then cacheCoins[o] else Entry(NULL_COIN, false, false);
      var isFresh := false;
      if !possibleOverwrite {
        if !was.coin.IsSpent() {
          return Thrown;
        }
        isFresh := !was.isDirty;
      }
      Store(o, Entry(coin, true, was.isFresh || isFresh));
      return Added;
    }

    /** Spend a coin, handing out what the entry held. True whenever an entry was found, spent or not. */
    method SpendCoin(o: OutPoint) returns (r: bool, moved: Coin)
      requires Valid()
      modifies this, below
      ensures Valid() && BaseView() == old(BaseView())
      ensures View() == old(View()) - {o}
      ensures o in old(View()) ==> r && moved == old(View())[o]
      ensures o !in old(View()) ==> moved == NULL_COIN && (r <==> o in old(cacheCoins))
    {
      ViewUnspent();
      var found := FetchCoin(o);
      if !found {
        return false, NULL_COIN;
      }
      moved := cacheCoins[o].coin;
      r := true;
      if cacheCoins[o].isFresh {
        Erase(o);
      } else {
        Store(o, Entry(NULL_COIN, true, false));
      }
    }

    /** Drop an unmodified entry. */
    method Uncache(o: OutPoint)
      requires Valid()
      modifies this
      ensures Valid() && View() == old(View()) && BaseView() == old(BaseView())
      ensures cacheCoins ==
        if o in old(cacheCoins) && !old(cacheCoins)[o].isDirty then old(cacheCoins) - {o} else old(cacheCoins)
    {
      if o in cacheCoins && !cacheCoins[o].isDirty {
        Erase(o);
      }
    }

    /** Discard everything not yet written to the base. */
    method Reset()
      requires Valid()
      modifies this
      ensures Valid() && View() == BaseView() == old(BaseView()) && cacheCoins == map[]
    {
      cacheCoins, flagged, cachedCoinsUsage, dirtyCount := map[], [], 0, 0;
    }

    // ---- Writing a child cache into this one ----

    /**
      One iteration of BatchWrite: merge the child's dirty entry `e` for `o`. The throw is
      reached exactly when the child claims FRESH over an unspent entry held here.
     */
    method MergeEntry(o: OutPoint, e: Entry) returns (thrown: bool)
      requires Valid() && e.isDirty
      modifies this
      ensures BaseValid() && BaseView() == old(BaseView())
      ensures thrown <==> e.isFresh && o in old(cacheCoins) && !old(cacheCoins)[o].coin.IsSpent()
      ensures old(EntryOk(o, e, View())) ==>
        !thrown && Valid() && View() == SetCoin(old(View()), o, e.coin)
    {
      if o !in cacheCoins {
        if !(e.isFresh && e.coin.IsSpent()) {
          Store(o, Entry(e.coin, true, e.isFresh));
        }
      } else {
        var was := cacheCoins[o];
        if e.isFresh && !was.coin.IsSpent() {
          return true;
        }
        if was.isFresh && e.coin.IsSpent() {
          Erase(o);
        } else {
          Store(o, Entry(e.coin, true, was.isFresh));
        }
      }
      return false;
    }

    /** One iteration of BatchWrite, on the child's entry at list position `i`. */
    method BatchStep(child: CoinsViewCache, i: nat, willErase: bool,
                     ghost c0: Entries, ghost list: seq<OutPoint>, ghost done: nat, ghost v0: View)
      returns (next: nat)
      requires Valid() && child != this && child !in below
      requires Linked(list, c0) && Coherent(c0, v0) && Unspent(v0)
      requires child.Partway(c0, list, done, willErase) && done < |list|
      requires i == (if willErase then done else 0)
      requires View() == Progress(c0, list, done, v0)
      modifies this, child
      ensures Valid() && BaseView() == old(BaseView())
      ensures next == (if willErase then done + 1 else 0)
      ensures child.Partway(c0, list, done + 1, willErase)
      ensures View() == Progress(c0, list, done + 1, v0)
    {
      hide Exact, Overlay, BaseValid, BaseView, View, Counted;
      child.PartwayNext(c0, list, done, willErase);
      ProgressKeepsEntry(c0, list, done, v0);
      var o := child.flagged[i];
      var e := child.cacheCoins[o];
      assert EntryOk(o, e, v0);
      var thrown := MergeEntry(o, e);
      assert !thrown;
      next := child.NextAndMaybeErase(i, willErase, c0, list, done);
    }

    /** Merge every flagged entry of a child cache into this one. */
    method BatchWrite(child: CoinsViewCache, willErase: bool)
      requires Valid() && child != this && child !in below
      requires Coherent(child.cacheCoins, View()) && child.Counted()
      modifies this, child
      ensures Valid() && BaseView() == old(BaseView())
      ensures View() == Overlay(old(child.cacheCoins), old(View()))
      ensures child.Written(old(child.cacheCoins), willErase)
    {
      ghost var c0, v0, list := child.cacheCoins, View(), child.flagged;
      ghost var done := 0;
      var i := 0;
      ViewUnspent();
      assert child.Partway(c0, list, done, willErase) by { CleanedNone(c0); }
      while i < |child.flagged|
        invariant done <= |list| && i == (if willErase then done else 0)
        invariant child.Partway(c0, list, done, willErase)
        invariant Valid() && BaseView() == old(BaseView())
        invariant View() == Progress(c0, list, done, v0)
        decreases |list| - done
      {
        i := BatchStep(child, i, willErase, c0, list, done, v0);
        done := done + 1;
      }
      child.PartwayDone(c0, list, done, willErase, v0);
    }

    method WriteToBase(willErase: bool)
      requires Valid()
      modifies this, below
      ensures BaseValid() && BaseView() == old(View())
      ensures Written(old(cacheCoins), willErase)
    {
      match base
      case Database(db) => db.BatchWrite(this, willErase);
      case Cache(c) => c.BatchWrite(this, willErase);
    }

    /** Write everything down and empty the cache. */
    method Flush()
      requires Valid()
      modifies this, below
      ensures Valid() && View() == BaseView() == old(View())
      ensures cacheCoins == map[]
    {
      WriteToBase(true);
      assert dirtyCount == 0;
      cacheCoins, flagged, cachedCoinsUsage := map[], [], 0;
    }

    /** Write everything down and keep the unspent coins cached. */
    method Sync()
      requires Valid()
      modifies this, below
      ensures Valid() && View() == BaseView() == old(View())
      ensures cacheCoins == Synced(old(cacheCoins)) && flagged == []
    {
      ghost var c0, v0 := cacheCoins, BaseView();
      ViewUnspent();
      WriteToBase(false);
      SyncedCoherent(c0, v0);
    }

    // ---- The flagged list while the base walks it ----

    ghost predicate Partway(c0: Entries, list: seq<OutPoint>, done: nat, willErase: bool)
      reads this
    {
      && done <= |list|
      && dirtyCount == |list| - done
      && cachedCoinsUsage == UsageSum(cacheCoins)
      && flagged == (if willErase then list else list[done..])
      && cacheCoins == (if willErase then c0 else Cleaned(c0, list[..done]))
    }

    lemma PartwayNext(c0: Entries, list: seq<OutPoint>, done: nat, willErase: bool)
      requires Partway(c0, list, done, willErase) && done < |list| && Linked(list, c0)
      ensures var i := if willErase then done else 0;
        i < |flagged| && flagged[i] == list[done] && flagged[i] in c0
        && flagged[i] in cacheCoins && cacheCoins[flagged[i]] == c0[list[done]] && c0[list[done]].isDirty
      ensures Cleaned(c0, list[..done + 1]) == Cleaned(Cleaned(c0, list[..done]), [list[done]])
    {
      assert list[done] in list;
      CleanedNext(c0, list, done);
    }

    lemma PartwayDone(c0: Entries, list: seq<OutPoint>, done: nat, willErase: bool, v0: View)
      requires Partway(c0, list, done, willErase)
      requires |flagged| <= if willErase then done else 0
      requires Linked(list, c0) && Coherent(c0, v0) && Unspent(v0)
      ensures Written(c0, willErase)
      ensures Progress(c0, list, done, v0) == Overlay(c0, v0) && Unspent(Overlay(c0, v0))
    {
      assert done == |list| && list[..done] == list;
      DirtySuffices(c0, list, v0);
    }

    ghost predicate Written(c0: Entries, willErase: bool)
      reads this
    {
      && dirtyCount == 0
      && (!willErase ==>
            flagged == [] && cacheCoins == Synced(c0) && cachedCoinsUsage == UsageSum(cacheCoins))
    }

    /** Step past the entry at list position `i`; a non-erasing cursor also cleans or drops it. */
    method NextAndMaybeErase(i: nat, willErase: bool, ghost c0: Entries, ghost list: seq<OutPoint>, ghost done: nat)
      returns (next: nat)
      requires Partway(c0, list, done, willErase) && done < |list| && Linked(list, c0)
      requires i == if willErase then done else 0
      requires c0[list[done]].coin.IsSpent() ==> c0[list[done]].coin == NULL_COIN
      modifies this
      ensures Partway(c0, list, done + 1, willErase)
      ensures next == if willErase then done + 1 else 0
    {
      hide Linked, UsageSum, EntryOk, Coherent;
      PartwayNext(c0, list, done, willErase);
      var o := flagged[i];
      dirtyCount := dirtyCount - if cacheCoins[o].isDirty then 1 else 0;
      next := i + 1;
      if !willErase {
        var e := Entry(cacheCoins[o].coin, false, false);
        UsageErase(cacheCoins, o);
        UsageErase(cacheCoins[o := e], o);
        assert cacheCoins[o := e] - {o} == cacheCoins - {o};
        cacheCoins := if e.coin.IsSpent() then cacheCoins - {o} else cacheCoins[o := e];
        flagged := flagged[..i] + flagged[i + 1..];
        next := i;
      }
    }
  }
}
