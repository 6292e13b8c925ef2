/** Whole runs over a stack of caches: every run agrees with one plain map. */
module CoinsRuns {
  import opened Wrappers
  import opened CoinsModel
  import opened CoinsCache

  // ---- Runs of operations against a plain map ----

  datatype Upkeep = FlushLayer | SyncLayer | UncacheCoin(o: OutPoint) | ReadCoin(o: OutPoint)

  datatype Op =
    | Add(o: OutPoint, coin: Coin, overwrite: bool)
    | Spend(o: OutPoint)
    | Read(o: OutPoint)
    | ResetTop
    | At(layer: nat, upkeep: Upkeep)

  /** The reference: the map seen at the top, and the map one layer down. */
  datatype Plain = Plain(top: View, below: View)

  ghost predicate Legal(m: Plain, op: Op) {
    op.Add? ==> !op.coin.IsSpent() && (op.overwrite || op.o !in m.top)
  }

  ghost function Step(m: Plain, op: Op): Plain {
    match op
    case Add(o, coin, _) => if IsUnspendable(coin.out.script) then m else m.(top := m.top[o := coin])
    case Spend(o) => m.(top := m.top - {o})
    case Read(_) => m
    case ResetTop => m.(top := m.below)
    case At(layer, upkeep) =>
      if layer == 0 && (upkeep.FlushLayer? || upkeep.SyncLayer?) then m.(below := m.top) else m
  }

  /** What the caller is told: the coin read or spent. */
  ghost function Answer(m: Plain, op: Op): Option<Coin> {
    if op.Spend? || op.Read? then Lookup(m.top, op.o) else None
  }

  ghost function After(m: Plain, ops: seq<Op>): Plain {
    if ops == [] then m else Step(After(m, ops[..|ops| - 1]), ops[|ops| - 1])
  }

  ghost predicate LegalRun(m: Plain, ops: seq<Op>) {
    forall i | 0 <= i < |ops| :: Legal(After(m, ops[..i]), ops[i])
  }

  /** Upkeep of the cache `layer` steps below the top leaves the view alone. */
  method Maintain(cache: CoinsViewCache, layer: nat, upkeep: Upkeep)
    requires cache.Valid()
    modifies cache, cache.below
    ensures cache.Valid() && cache.View() == old(cache.View())
    ensures cache.BaseView() ==
      if layer == 0 && (upkeep.FlushLayer? || upkeep.SyncLayer?) then cache.View() else old(cache.BaseView())
    decreases layer
  {
    if layer == 0 {
      match upkeep {
        case FlushLayer => cache.Flush();
        case SyncLayer => cache.Sync();
        case UncacheCoin(o) => cache.Uncache(o);
        case ReadCoin(o) => var _ := cache.GetCoin(o);
      }
    } else if cache.base.Cache? {
      Maintain(cache.base.cache, layer - 1, upkeep);
    }
  }

  method Execute(cache: CoinsViewCache, op: Op) returns (answer: Option<Coin>)
    requires cache.Valid() && Legal(Plain(cache.View(), cache.BaseView()), op)
    modifies cache, cache.below
    ensures cache.Valid()
    ensures Plain(cache.View(), cache.BaseView()) == Step(old(Plain(cache.View(), cache.BaseView())), op)
    ensures answer == Answer(old(Plain(cache.View(), cache.BaseView())), op)
  {
    answer := None;
    match op {
      case Add(o, coin, overwrite) =>
        var r := cache.AddCoin(o, coin, overwrite);
        assert r != Thrown;
      case Spend(o) =>
        cache.ViewUnspent();
        var r, moved := cache.SpendCoin(o);
        answer := if moved.IsSpent() then None else Some(moved);
      case Read(o) =>
        answer := cache.GetCoin(o);
      case ResetTop =>
        cache.Reset();
      case At(layer, upkeep) =>
        Maintain(cache, layer, upkeep);
    }
  }

  /** Any run at the top of any stack behaves, and answers, like the plain map. */
  method Run(cache: CoinsViewCache, ops: seq<Op>) returns (answers: seq<Option<Coin>>)
    requires cache.Valid() && LegalRun(Plain(cache.View(), cache.BaseView()), ops)
    modifies cache, cache.below
    ensures cache.Valid()
    ensures Plain(cache.View(), cache.BaseView()) == After(old(Plain(cache.View(), cache.BaseView())), ops)
    ensures |answers| == |ops|
    ensures forall i | 0 <= i < |ops| ::
      answers[i] == Answer(After(old(Plain(cache.View(), cache.BaseView())), ops[..i]), ops[i])
  {
    hide Step, Answer, Legal, Coherent, CoinsViewCache.View, CoinsViewCache.BaseView, CoinsViewCache.BaseValid;
    hide CoinsViewCache.Counted;
    ghost var m := Plain(cache.View(), cache.BaseView());
    answers := [];
    for n := 0 to |ops|
      invariant cache.Valid() && Plain(cache.View(), cache.BaseView()) == After(m, ops[..n])
      invariant |answers| == n
      invariant forall i | 0 <= i < n :: answers[i] == Answer(After(m, ops[..i]), ops[i])
    {
      var answer := Execute(cache, ops[n]);
      assert ops[..n + 1][..n] == ops[..n];
      answers := answers + [answer];
    }
    assert ops[..|ops|] == ops;
  }
}
