/** SanityCheck of a coins cache: what it accepts, and that it accepts every valid cache. */
module CoinsSanity {
  import opened CoinsModel
  import opened CoinsCache

  predicate FlagsOk(e: Entry) {
    if e.coin.IsSpent() then e.isDirty && !e.isFresh else e.isDirty || !e.isFresh
  }

  ghost function Dirty(entries: Entries, todo: set<OutPoint>): set<OutPoint> {
    set o | o in entries && o !in todo && entries[o].isDirty
  }

  /** Flags make sense, the list holds as many entries as are dirty and only dirty ones, and the counters agree. */
  ghost predicate Sane(entries: Entries, flagged: seq<OutPoint>, dirtyCount: nat, usage: nat) {
    && (forall o | o in entries :: FlagsOk(entries[o]))
    && (forall o | o in flagged :: o in entries && entries[o].isDirty)
    && |Dirty(entries, {})| == |flagged| == dirtyCount
    && UsageSum(entries) == usage
  }

  /** The first loop, over the entries. */
  method CheckEntries(entries: Entries) returns (ok: bool, usage: nat, dirty: nat)
    ensures ok <==> forall o | o in entries :: FlagsOk(entries[o])
    ensures ok ==> usage == UsageSum(entries) && dirty == |Dirty(entries, {})|
  {
    hide UsageSum;
    usage, dirty := 0, 0;
    var rest := entries;
    assert Dirty(entries, entries.Keys) == {};
    while rest != map[]
      invariant rest.Keys <= entries.Keys && forall o | o in rest :: rest[o] == entries[o]
      invariant forall o | o in entries && o !in rest :: FlagsOk(entries[o])
      invariant usage + UsageSum(rest) == UsageSum(entries) && dirty == |Dirty(entries, rest.Keys)|
      decreases |rest|
    {
      var o :| o in rest;
      var e := rest[o];
      if !FlagsOk(e) {
        return false, usage, dirty;
      }
      UsageErase(rest, o);
      assert (rest - {o}).Keys == rest.Keys - {o};
      assert Dirty(entries, rest.Keys - {o}) ==
        if e.isDirty then Dirty(entries, rest.Keys) + {o} else Dirty(entries, rest.Keys);
      usage := usage + e.coin.DynamicMemoryUsage();
      if e.isDirty {
        dirty := dirty + 1;
      }
      rest := rest - {o};
    }
    NoUsage();
    assert rest.Keys == {};
    ok := true;
  }

  lemma NoUsage()
    ensures UsageSum(map[]) == 0
  {
  }

  method SanityCheck(entries: Entries, flagged: seq<OutPoint>, dirtyCount: nat, cachedUsage: nat) returns (ok: bool)
    ensures ok <==> Sane(entries, flagged, dirtyCount, cachedUsage)
  {
    hide UsageSum;
    var usage, dirty;
    ok, usage, dirty := CheckEntries(entries);
    if !ok {
      return;
    }
    for i := 0 to |flagged|
      invariant forall o | o in flagged[..i] :: o in entries && entries[o].isDirty
    {
      if flagged[i] !in entries || !entries[flagged[i]].isDirty {
        return false;
      }
      assert flagged[..i + 1] == flagged[..i] + [flagged[i]];
    }
    assert flagged[..|flagged|] == flagged;
    ok := dirty == |flagged| && dirty == dirtyCount && usage == cachedUsage;
  }

  /** No assertion of the check can fail on a cache kept by the operations. */
  lemma ValidIsSane(cache: CoinsViewCache)
    requires cache.Valid()
    ensures Sane(cache.cacheCoins, cache.flagged, cache.dirtyCount, cache.cachedCoinsUsage)
  {
    hide UsageSum;
    var entries, flagged := cache.cacheCoins, cache.flagged;
    forall o | o in entries
      ensures FlagsOk(entries[o])
    {
      assert EntryOk(o, entries[o], cache.BaseView());
    }
    var dirty := Dirty(entries, {});
    assert forall o :: o in dirty <==> o in flagged;
    DistinctSize(flagged, dirty);
  }

  lemma {:induction false} DistinctSize(s: seq<OutPoint>, elements: set<OutPoint>)
    requires NoDup(s) && forall o :: o in elements <==> o in s
    ensures |elements| == |s|
  {
    if s == [] {
      assert elements == {};
    } else {
      var last, rest := s[|s| - 1], s[..|s| - 1];
      assert s == rest + [last];
      forall o
        ensures o in elements - {last} <==> o in rest
      {
        if o in rest {
          var i :| 0 <= i < |rest| && rest[i] == o;
          assert s[i] == o;
        }
      }
      DistinctSize(rest, elements - {last});
    }
  }
}
