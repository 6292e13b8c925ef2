/**
  Applying transactions and blocks to a cache and undoing them: AddCoins, UpdateCoins,
  ApplyTxInUndo and DisconnectBlock.
 */
module CoinsBlocks {
  import opened Wrappers
  import opened CoinsModel
  import opened CoinsCache

  const NULL_INDEX: nat := 0xffffffff
  /** MAX_BLOCK_WEIGHT / MIN_TRANSACTION_OUTPUT_WEIGHT. */
  const MAX_OUTPUTS_PER_BLOCK: nat := 4000000 / (4 * 9)

  datatype Tx = Tx(id: Txid, vin: seq<OutPoint>, vout: seq<TxOut>) {
    predicate IsCoinBase() {
      |vin| == 1 && vin[0] == OutPoint(0, NULL_INDEX)
    }

    function Out(i: nat): OutPoint {
      OutPoint(id, i)
    }
  }

  datatype DisconnectResult = Ok | Unclean | Failed

  // ---- The plain-map meaning of a transaction ----

  ghost function CoinOf(tx: Tx, height: nat, i: nat): Coin
    requires i < |tx.vout|
  {
    Coin(tx.vout[i], height, tx.IsCoinBase())
  }

  /** The view after adding the first `k` outputs; unspendable outputs add nothing. */
  ghost function WithOutputs(v: View, tx: Tx, height: nat, k: nat): View
    requires k <= |tx.vout|
  {
    if k == 0 then v
    else if IsUnspendable(tx.vout[k - 1].script) then WithOutputs(v, tx, height, k - 1)
    else WithOutputs(v, tx, height, k - 1)[tx.Out(k - 1) := CoinOf(tx, height, k - 1)]
  }

  /** The view after spending the outpoints of a list. */
  ghost function Spending(v: View, outs: seq<OutPoint>): View {
    if outs == [] then v else Spending(v, outs[..|outs| - 1]) - {outs[|outs| - 1]}
  }

  ghost function Applied(v: View, tx: Tx, height: nat): View {
    WithOutputs(if tx.IsCoinBase() then v else Spending(v, tx.vin), tx, height, |tx.vout|)
  }

  lemma {:induction false} WithOutputsAt(v: View, tx: Tx, height: nat, k: nat, o: OutPoint)
    requires k <= |tx.vout|
    ensures Lookup(WithOutputs(v, tx, height, k), o) ==
      if o.hash == tx.id && o.n < k && !IsUnspendable(tx.vout[o.n].script)
      then Some(CoinOf(tx, height, o.n)) else Lookup(v, o)
  {
    if k > 0 {
      WithOutputsAt(v, tx, height, k - 1, o);
    }
  }

  lemma {:induction false} SpendingAt(v: View, outs: seq<OutPoint>, o: OutPoint)
    ensures Lookup(Spending(v, outs), o) == if o in outs then None else Lookup(v, o)
  {
    if outs != [] {
      SpendingAt(v, outs[..|outs| - 1], o);
      assert outs == outs[..|outs| - 1] + [outs[|outs| - 1]];
    }
  }

  /** Inputs are distinct visible coins, outputs are real, and only a coinbase overwrites. */
  ghost predicate Connects(v: View, tx: Tx) {
    && (forall i | 0 <= i < |tx.vout| :: tx.vout[i].value != -1)
    && (!tx.IsCoinBase() ==> forall i: nat | i < |tx.vout| :: tx.Out(i) !in v)
    && (!tx.IsCoinBase() ==> NoDup(tx.vin) && forall i | 0 <= i < |tx.vin| :: tx.vin[i] in v)
  }

  /** The view can come back: nothing is overwritten, and the coins spent are spendable and carry a height. */
  ghost predicate Restorable(v: View, tx: Tx) {
    && (forall i: nat | i < |tx.vout| :: tx.Out(i) !in v)
    && (!tx.IsCoinBase() ==> forall i | 0 <= i < |tx.vin| ::
          tx.vin[i] in v && v[tx.vin[i]].height != 0 && !IsUnspendable(v[tx.vin[i]].out.script))
  }

  /** The undo record holds the coins that the inputs had in `v`. */
  ghost predicate RecordedUndo(v: View, tx: Tx, undo: seq<Coin>) {
    && |undo| == (if tx.IsCoinBase() then 0 else |tx.vin|)
    && forall i | 0 <= i < |undo| :: Lookup(v, tx.vin[i]) == Some(undo[i]) && !undo[i].IsSpent()
  }

  method AddOutput(cache: CoinsViewCache, tx: Tx, height: nat, i: nat, checkForOverwrite: bool)
    requires cache.Valid() && i < |tx.vout| && tx.vout[i].value != -1
    requires !checkForOverwrite && !tx.IsCoinBase() ==> tx.Out(i) !in cache.View()
    modifies cache, cache.below
    ensures cache.Valid() && cache.BaseView() == old(cache.BaseView())
    ensures cache.View() ==
      if IsUnspendable(tx.vout[i].script) then old(cache.View())
      else old(cache.View())[tx.Out(i) := CoinOf(tx, height, i)]
  {
    var isCoinbase := tx.IsCoinBase();
    var overwrite := isCoinbase;
    if checkForOverwrite {
      overwrite := cache.HaveCoin(tx.Out(i));
    }
    var r := cache.AddCoin(tx.Out(i), Coin(tx.vout[i], height, isCoinbase), overwrite);
  }

  method AddCoins(cache: CoinsViewCache, tx: Tx, height: nat, checkForOverwrite: bool)
    requires cache.Valid()
    requires forall i | 0 <= i < |tx.vout| :: tx.vout[i].value != -1
    requires !checkForOverwrite && !tx.IsCoinBase() ==> forall i: nat | i < |tx.vout| :: tx.Out(i) !in cache.View()
    modifies cache, cache.below
    ensures cache.Valid() && cache.BaseView() == old(cache.BaseView())
    ensures cache.View() == WithOutputs(old(cache.View()), tx, height, |tx.vout|)
  {
    hide CoinsViewCache.BaseValid, CoinsViewCache.BaseView, CoinsViewCache.View, CoinsViewCache.Counted, Coherent;
    hide Overlay;
    ghost var v := cache.View();
    for i := 0 to |tx.vout|
      invariant cache.Valid() && cache.BaseView() == old(cache.BaseView())
      invariant cache.View() == WithOutputs(v, tx, height, i)
    {
      WithOutputsAt(v, tx, height, i, tx.Out(i));
      AddOutput(cache, tx, height, i, checkForOverwrite);
    }
  }

  /** Mark the inputs spent, keeping their coins. */
  method SpendInputs(vin: seq<OutPoint>, cache: CoinsViewCache) returns (undo: seq<Coin>)
    requires cache.Valid() && NoDup(vin) && forall i | 0 <= i < |vin| :: vin[i] in cache.View()
    modifies cache, cache.below
    ensures cache.Valid() && cache.BaseView() == old(cache.BaseView())
    ensures cache.View() == Spending(old(cache.View()), vin)
    ensures |undo| == |vin| && forall i | 0 <= i < |undo| :: undo[i] == old(cache.View())[vin[i]]
  {
    hide CoinsViewCache.BaseValid, CoinsViewCache.BaseView, CoinsViewCache.View, CoinsViewCache.Counted, Coherent;
    hide Overlay;
    undo := [];
    ghost var v := cache.View();
    for i := 0 to |vin|
      invariant cache.Valid() && cache.BaseView() == old(cache.BaseView())
      invariant cache.View() == Spending(v, vin[..i])
      invariant |undo| == i && forall j | 0 <= j < i :: undo[j] == v[vin[j]]
    {
      SpendingAt(v, vin[..i], vin[i]);
      var isSpent, coin := cache.SpendCoin(vin[i]);
      assert isSpent;
      undo := undo + [coin];
      assert vin[..i + 1][..i] == vin[..i];
    }
    assert vin[..|vin|] == vin;
  }

  /** Spend the inputs of a transaction, keeping their coins for the undo record, then add its outputs. */
  method UpdateCoins(tx: Tx, cache: CoinsViewCache, height: nat) returns (undo: seq<Coin>)
    requires cache.Valid() && Connects(cache.View(), tx)
    modifies cache, cache.below
    ensures cache.Valid() && cache.BaseView() == old(cache.BaseView())
    ensures cache.View() == Applied(old(cache.View()), tx, height)
    ensures RecordedUndo(old(cache.View()), tx, undo)
  {
    hide CoinsViewCache.BaseValid, CoinsViewCache.BaseView, CoinsViewCache.View, CoinsViewCache.Counted, Coherent;
    hide Overlay;
    undo := [];
    ghost var v := cache.View();
    cache.ViewUnspent();
    if !tx.IsCoinBase() {
      undo := SpendInputs(tx.vin, cache);
      forall i: nat | i < |tx.vout|
        ensures tx.Out(i) !in cache.View()
      {
        SpendingAt(v, tx.vin, tx.Out(i));
      }
    }
    AddCoins(cache, tx, height, false);
  }

  /** The first visible output of a transaction from index `n` on. */
  ghost function FirstOutput(v: View, id: Txid, n: nat): Option<Coin>
    decreases MAX_OUTPUTS_PER_BLOCK - n
  {
    if n >= MAX_OUTPUTS_PER_BLOCK then None
    else if OutPoint(id, n) in v then Some(v[OutPoint(id, n)])
    else FirstOutput(v, id, n + 1)
  }

  /** There is one exactly if some output within the limit is visible, and it is the lowest such. */
  lemma {:induction false} FirstOutputIs(v: View, id: Txid, n: nat)
    ensures FirstOutput(v, id, n).None? <==> forall m: nat | n <= m < MAX_OUTPUTS_PER_BLOCK :: OutPoint(id, m) !in v
    ensures FirstOutput(v, id, n).Some? ==> exists m: nat | n <= m < MAX_OUTPUTS_PER_BLOCK ::
      Lookup(v, OutPoint(id, m)) == FirstOutput(v, id, n) && forall k: nat | n <= k < m :: OutPoint(id, k) !in v
    decreases MAX_OUTPUTS_PER_BLOCK - n
  {
    if n < MAX_OUTPUTS_PER_BLOCK {
      if OutPoint(id, n) in v {
        assert Lookup(v, OutPoint(id, n)) == FirstOutput(v, id, n);
      } else {
        FirstOutputIs(v, id, n + 1);
      }
    }
  }

  method AccessByTxid(cache: CoinsViewCache, id: Txid) returns (coin: Coin)
    requires cache.Valid()
    modifies cache, cache.below
    ensures cache.Valid() && cache.View() == old(cache.View()) && cache.BaseView() == old(cache.BaseView())
    ensures coin.IsSpent() <==> FirstOutput(cache.View(), id, 0).None?
    ensures !coin.IsSpent() ==> FirstOutput(cache.View(), id, 0) == Some(coin)
  {
    hide CoinsViewCache.BaseValid, CoinsViewCache.BaseView, CoinsViewCache.View, CoinsViewCache.Counted, Coherent;
    hide Overlay;
    var n := 0;
    cache.ViewUnspent();
    while n < MAX_OUTPUTS_PER_BLOCK
      invariant n <= MAX_OUTPUTS_PER_BLOCK
      invariant cache.Valid() && cache.View() == old(cache.View()) && cache.BaseView() == old(cache.BaseView())
      invariant FirstOutput(cache.View(), id, 0) == FirstOutput(cache.View(), id, n)
    {
      coin := cache.AccessCoin(OutPoint(id, n));
      if !coin.IsSpent() {
        return;
      }
      n := n + 1;
    }
    coin := NULL_COIN;
  }

  /** What undoing came to, and the view it left. */
  datatype Undoing = Undoing(result: DisconnectResult, view: View)

  /** A failure ends the undoing; otherwise it is as clean as its parts. */
  ghost function Joined(first: DisconnectResult, second: DisconnectResult): DisconnectResult {
    if second == Ok then first else second
  }

  /** Putting one coin back; a record without height takes height and kind from a sibling output. */
  ghost function UndoneInput(v: View, out: OutPoint, undo: Coin): Undoing {
    var sibling := FirstOutput(v, out.hash, 0);
    if undo.height == 0 && sibling.None? then Undoing(Failed, v)
    else
      var coin := if undo.height == 0 then Coin(undo.out, sibling.value.height, sibling.value.coinbase) else undo;
      Undoing(if out in v then Unclean else Ok, if IsUnspendable(undo.out.script) then v else v[out := coin])
  }

  method ApplyTxInUndo(undo: Coin, cache: CoinsViewCache, out: OutPoint) returns (r: DisconnectResult)
    requires cache.Valid() && !undo.IsSpent()
    modifies cache, cache.below
    ensures cache.Valid() && cache.BaseView() == old(cache.BaseView())
    ensures Undoing(r, cache.View()) == UndoneInput(old(cache.View()), out, undo)
  {
    hide CoinsViewCache.BaseValid, CoinsViewCache.BaseView, CoinsViewCache.View, CoinsViewCache.Counted, Coherent;
    hide Overlay;
    hide FirstOutput;
    var clean := true;
    var have := cache.HaveCoin(out);
    if have {
      clean := false;
    }
    var coin := undo;
    if undo.height == 0 {
      var alternate := AccessByTxid(cache, out.hash);
      if alternate.IsSpent() {
        return Failed;
      }
      coin := Coin(undo.out, alternate.height, alternate.coinbase);
    }
    var added := cache.AddCoin(out, coin, !clean);
    r := if clean then Ok else Unclean;
  }

  // ---- Disconnecting ----

  /** The first `k` spendable outputs are visible exactly as the transaction created them. */
  ghost predicate Matches(v: View, tx: Tx, height: nat, k: nat)
    requires k <= |tx.vout|
  {
    forall i: nat | i < k && !IsUnspendable(tx.vout[i].script) :: Lookup(v, tx.Out(i)) == Some(CoinOf(tx, height, i))
  }

  /** The view after spending the first `k` spendable outputs. */
  ghost function WithoutOutputs(v: View, tx: Tx, k: nat): View
    requires k <= |tx.vout|
  {
    if k == 0 then v
    else if IsUnspendable(tx.vout[k - 1].script) then WithoutOutputs(v, tx, k - 1)
    else WithoutOutputs(v, tx, k - 1) - {tx.Out(k - 1)}
  }

  lemma {:induction false} WithoutOutputsAt(v: View, tx: Tx, k: nat, o: OutPoint)
    requires k <= |tx.vout|
    ensures Lookup(WithoutOutputs(v, tx, k), o) ==
      if o.hash == tx.id && o.n < k && !IsUnspendable(tx.vout[o.n].script) then None else Lookup(v, o)
  {
    if k > 0 {
      WithoutOutputsAt(v, tx, k - 1, o);
    }
  }

  /** Spend the outputs a transaction had added, noting whether each was found as expected. */
  method SpendOutputs(tx: Tx, cache: CoinsViewCache, height: nat, exception: bool) returns (clean: bool)
    requires cache.Valid() && forall i | 0 <= i < |tx.vout| :: tx.vout[i].value != -1
    modifies cache, cache.below
    ensures cache.Valid() && cache.BaseView() == old(cache.BaseView())
    ensures cache.View() == WithoutOutputs(old(cache.View()), tx, |tx.vout|)
    ensures clean <==> exception || Matches(old(cache.View()), tx, height, |tx.vout|)
  {
    hide CoinsViewCache.BaseValid, CoinsViewCache.BaseView, CoinsViewCache.View, CoinsViewCache.Counted, Coherent;
    hide Overlay;
    clean := true;
    ghost var v := cache.View();
    for i := 0 to |tx.vout|
      invariant cache.Valid() && cache.BaseView() == old(cache.BaseView())
      invariant cache.View() == WithoutOutputs(v, tx, i)
      invariant clean <==> exception || Matches(v, tx, height, i)
    {
      if !IsUnspendable(tx.vout[i].script) {
        WithoutOutputsAt(v, tx, i, tx.Out(i));
        var isSpent, coin := cache.SpendCoin(tx.Out(i));
        if !isSpent || tx.vout[i] != coin.out || height != coin.height || tx.IsCoinBase() != coin.coinbase {
          if !exception {
            clean := false;
          }
        }
        assert Lookup(v, tx.Out(i)) == Some(CoinOf(tx, height, i)) <==>
               isSpent && coin == CoinOf(tx, height, i);
      }
    }
  }

  /** The view after putting back the inputs from index `j` on. */
  ghost function PutBack(v: View, vin: seq<OutPoint>, undo: seq<Coin>, j: nat): View
    requires j <= |vin| == |undo|
    decreases |vin| - j
  {
    if j == |vin| then v else PutBack(v, vin, undo, j + 1)[vin[j] := undo[j]]
  }

  lemma {:induction false} PutBackAt(v: View, vin: seq<OutPoint>, undo: seq<Coin>, j: nat, o: OutPoint)
    requires j <= |vin| == |undo| && NoDup(vin)
    ensures o !in vin[j..] ==> Lookup(PutBack(v, vin, undo, j), o) == Lookup(v, o)
    ensures forall i | j <= i < |vin| && vin[i] == o :: Lookup(PutBack(v, vin, undo, j), o) == Some(undo[i])
    decreases |vin| - j
  {
    if j < |vin| {
      PutBackAt(v, vin, undo, j + 1, o);
      assert vin[j..] == [vin[j]] + vin[j + 1..];
    }
  }

  ghost predicate GoodUndo(v: View, vin: seq<OutPoint>, undo: seq<Coin>) {
    && |vin| == |undo| && NoDup(vin)
    && forall i | 0 <= i < |vin| :: vin[i] !in v && undo[i].height != 0 && !IsUnspendable(undo[i].out.script)
  }

  /** Putting back the inputs from index `j` on, last one first. */
  ghost function UndoneInputs(v: View, vin: seq<OutPoint>, undo: seq<Coin>, j: nat): Undoing
    requires j <= |vin| == |undo|
    decreases |vin| - j
  {
    if j == |vin| then Undoing(Ok, v)
    else
      var above := UndoneInputs(v, vin, undo, j + 1);
      if above.result == Failed then above
      else
        var one := UndoneInput(above.view, vin[j], undo[j]);
        Undoing(Joined(above.result, one.result), one.view)
  }

  lemma {:induction false} FailureStays(v: View, vin: seq<OutPoint>, undo: seq<Coin>, i: nat, j: nat)
    requires i <= j <= |vin| == |undo| && UndoneInputs(v, vin, undo, j).result == Failed
    ensures UndoneInputs(v, vin, undo, i) == UndoneInputs(v, vin, undo, j)
    decreases j - i
  {
    if i < j {
      FailureStays(v, vin, undo, i + 1, j);
    }
  }

  method RestoreInputs(vin: seq<OutPoint>, undo: seq<Coin>, cache: CoinsViewCache) returns (r: DisconnectResult)
    requires cache.Valid() && |undo| == |vin| && forall i | 0 <= i < |undo| :: !undo[i].IsSpent()
    modifies cache, cache.below
    ensures cache.Valid() && cache.BaseView() == old(cache.BaseView())
    ensures Undoing(r, cache.View()) == UndoneInputs(old(cache.View()), vin, undo, 0)
  {
    hide CoinsViewCache.BaseValid, CoinsViewCache.BaseView, CoinsViewCache.View, CoinsViewCache.Counted, Coherent;
    hide Overlay;
    hide UndoneInput;
    ghost var v := cache.View();
    var clean := true;
    var j := |vin|;
    while j > 0
      invariant 0 <= j <= |vin|
      invariant cache.Valid() && cache.BaseView() == old(cache.BaseView())
      invariant UndoneInputs(v, vin, undo, j) == Undoing(if clean then Ok else Unclean, cache.View())
    {
      j := j - 1;
      var res := ApplyTxInUndo(undo[j], cache, vin[j]);
      if res == Failed {
        FailureStays(v, vin, undo, 0, j);
        return Failed;
      }
      clean := clean && res != Unclean;
    }
    r := if clean then Ok else Unclean;
  }

  /** With coins that fit, everything is put back cleanly. */
  lemma {:induction false} GoodInputs(v: View, vin: seq<OutPoint>, undo: seq<Coin>, j: nat)
    requires GoodUndo(v, vin, undo) && j <= |vin|
    ensures UndoneInputs(v, vin, undo, j) == Undoing(Ok, PutBack(v, vin, undo, j))
    decreases |vin| - j
  {
    if j < |vin| {
      GoodInputs(v, vin, undo, j + 1);
      PutBackAt(v, vin, undo, j + 1, vin[j]);
    }
  }

  lemma ViewsEqual(v: View, w: View)
    requires forall o :: Lookup(v, o) == Lookup(w, o)
    ensures v == w
  {
    forall o
      ensures o in v <==> o in w
      ensures o in v ==> v[o] == w[o]
    {
      assert Lookup(v, o) == Lookup(w, o);
    }
  }

  /** Spending what a transaction created brings back the view it left after its inputs. */
  lemma OutputsUndone(v: View, tx: Tx, height: nat)
    requires Connects(v, tx) && Restorable(v, tx)
    ensures Matches(Applied(v, tx, height), tx, height, |tx.vout|)
    ensures WithoutOutputs(Applied(v, tx, height), tx, |tx.vout|) == if tx.IsCoinBase() then v else Spending(v, tx.vin)
  {
    var mid := if tx.IsCoinBase() then v else Spending(v, tx.vin);
    var k := |tx.vout|;
    forall i: nat | i < k && !IsUnspendable(tx.vout[i].script)
      ensures Lookup(Applied(v, tx, height), tx.Out(i)) == Some(CoinOf(tx, height, i))
    {
      WithOutputsAt(mid, tx, height, k, tx.Out(i));
    }
    forall o
      ensures Lookup(WithoutOutputs(Applied(v, tx, height), tx, k), o) == Lookup(mid, o)
    {
      WithOutputsAt(mid, tx, height, k, o);
      WithoutOutputsAt(Applied(v, tx, height), tx, k, o);
      SpendingAt(v, tx.vin, o);
      if o.hash == tx.id && o.n < k {
        assert o == tx.Out(o.n) && o !in v;
      }
    }
    ViewsEqual(WithoutOutputs(Applied(v, tx, height), tx, k), mid);
  }

  /** Putting the recorded coins back undoes the spending of the inputs. */
  lemma InputsUndone(v: View, tx: Tx, undo: seq<Coin>)
    requires Connects(v, tx) && Restorable(v, tx) && RecordedUndo(v, tx, undo) && !tx.IsCoinBase()
    ensures GoodUndo(Spending(v, tx.vin), tx.vin, undo)
    ensures PutBack(Spending(v, tx.vin), tx.vin, undo, 0) == v
  {
    forall i | 0 <= i < |tx.vin|
      ensures tx.vin[i] !in Spending(v, tx.vin) && undo[i] == v[tx.vin[i]]
    {
      SpendingAt(v, tx.vin, tx.vin[i]);
      assert Lookup(v, tx.vin[i]) == Some(undo[i]);
    }
    forall o
      ensures Lookup(PutBack(Spending(v, tx.vin), tx.vin, undo, 0), o) == Lookup(v, o)
    {
      PutBackAt(Spending(v, tx.vin), tx.vin, undo, 0, o);
      SpendingAt(v, tx.vin, o);
      assert tx.vin[0..] == tx.vin;
    }
    ViewsEqual(PutBack(Spending(v, tx.vin), tx.vin, undo, 0), v);
  }

  /** Undoing one transaction: its outputs go, then its inputs come back if it has undo data. */
  ghost function UndoneTx(v: View, tx: Tx, undo: Option<seq<Coin>>, height: nat, exception: bool): Undoing {
    var mid := WithoutOutputs(v, tx, |tx.vout|);
    var clean := if exception || Matches(v, tx, height, |tx.vout|) then Ok else Unclean;
    if undo.None? then Undoing(clean, mid)
    else if |undo.value| != |tx.vin| then Undoing(Failed, mid)
    else
      var inputs := UndoneInputs(mid, tx.vin, undo.value, 0);
      Undoing(Joined(clean, inputs.result), inputs.view)
  }

  method DisconnectTx(tx: Tx, undo: Option<seq<Coin>>, cache: CoinsViewCache, height: nat, exception: bool)
    returns (r: DisconnectResult)
    requires cache.Valid()
    requires forall i | 0 <= i < |tx.vout| :: tx.vout[i].value != -1
    requires undo.Some? ==> forall i | 0 <= i < |undo.value| :: !undo.value[i].IsSpent()
    modifies cache, cache.below
    ensures cache.Valid() && cache.BaseView() == old(cache.BaseView())
    ensures Undoing(r, cache.View()) == UndoneTx(old(cache.View()), tx, undo, height, exception)
  {
    hide CoinsViewCache.BaseValid, CoinsViewCache.BaseView, CoinsViewCache.View, CoinsViewCache.Counted, Coherent;
    hide Overlay;
    hide WithoutOutputs, Matches, UndoneInputs;
    var clean := SpendOutputs(tx, cache, height, exception);
    if undo.Some? {
      if |undo.value| != |tx.vin| {
        return Failed;
      }
      var res := RestoreInputs(tx.vin, undo.value, cache);
      if res == Failed {
        return Failed;
      }
      clean := clean && res != Unclean;
    }
    r := if clean then Ok else Unclean;
  }

  /** Undoing a transaction just applied, from the record made then, is clean and gives the view before. */
  lemma TxUndone(v: View, tx: Tx, undo: Option<seq<Coin>>, height: nat, exception: bool)
    requires Connects(v, tx) && Restorable(v, tx)
    requires undo.None? == tx.IsCoinBase() && (undo.Some? ==> RecordedUndo(v, tx, undo.value))
    ensures UndoneTx(Applied(v, tx, height), tx, undo, height, exception) == Undoing(Ok, v)
  {
    hide WithoutOutputs, Matches, UndoneInputs, PutBack, GoodUndo, Connects, Restorable, Applied;
    OutputsUndone(v, tx, height);
    if undo.Some? {
      InputsUndone(v, tx, undo.value);
      GoodInputs(Spending(v, tx.vin), tx.vin, undo.value, 0);
    }
  }

  // ---- Whole blocks ----

  /** The view after the first `k` transactions of a block. */
  ghost function AfterTxs(v: View, txs: seq<Tx>, height: nat, k: nat): View
    requires k <= |txs|
  {
    if k == 0 then v else Applied(AfterTxs(v, txs, height, k - 1), txs[k - 1], height)
  }

  /** A block of one coinbase followed by ordinary transactions, each fitting the view it meets. */
  ghost predicate BlockConnects(v: View, txs: seq<Tx>, height: nat) {
    && txs != []
    && (forall k | 0 <= k < |txs| :: txs[k].IsCoinBase() == (k == 0))
    && (forall k | 0 <= k < |txs| :: Connects(AfterTxs(v, txs, height, k), txs[k]))
  }

  ghost predicate BlockRestorable(v: View, txs: seq<Tx>, height: nat) {
    forall k | 0 <= k < |txs| :: Restorable(AfterTxs(v, txs, height, k), txs[k])
  }

  method ConnectBlock(txs: seq<Tx>, cache: CoinsViewCache, height: nat) returns (undos: seq<seq<Coin>>)
    requires cache.Valid() && BlockConnects(cache.View(), txs, height)
    modifies cache, cache.below
    ensures cache.Valid() && cache.BaseView() == old(cache.BaseView())
    ensures cache.View() == AfterTxs(old(cache.View()), txs, height, |txs|)
    ensures |undos| + 1 == |txs|
    ensures forall k | 0 < k < |txs| :: RecordedUndo(AfterTxs(old(cache.View()), txs, height, k), txs[k], undos[k - 1])
  {
    hide CoinsViewCache.BaseValid, CoinsViewCache.BaseView, CoinsViewCache.View, CoinsViewCache.Counted, Coherent;
    hide Overlay;
    hide RecordedUndo, Connects, Applied;
    ghost var v := cache.View();
    undos := [];
    for k := 0 to |txs|
      invariant cache.Valid() && cache.BaseView() == old(cache.BaseView())
      invariant cache.View() == AfterTxs(v, txs, height, k)
      invariant |undos| == if k == 0 then 0 else k - 1
      invariant forall j | 0 < j < k :: RecordedUndo(AfterTxs(v, txs, height, j), txs[j], undos[j - 1])
    {
      assert Connects(AfterTxs(v, txs, height, k), txs[k]);
      var undo := UpdateCoins(txs[k], cache, height);
      if k > 0 {
        undos := undos + [undo];
      }
    }
  }

  /** The undo data of a transaction; the coinbase has none. */
  function UndoOf(undos: seq<seq<Coin>>, k: nat): Option<seq<Coin>>
    requires k <= |undos|
  {
    if k == 0 then None else Some(undos[k - 1])
  }

  /** Undoing the transactions from index `k` on, last one first. */
  ghost function UndoneTxs(v: View, txs: seq<Tx>, undos: seq<seq<Coin>>, height: nat, enforceBip30: bool,
                           k: nat): Undoing
    requires k <= |txs| == |undos| + 1
    decreases |txs| - k
  {
    if k == |txs| then Undoing(Ok, v)
    else
      var above := UndoneTxs(v, txs, undos, height, enforceBip30, k + 1);
      if above.result == Failed then above
      else
        var one := UndoneTx(above.view, txs[k], UndoOf(undos, k), height, txs[k].IsCoinBase() && !enforceBip30);
        Undoing(Joined(above.result, one.result), one.view)
  }

  lemma {:induction false} FailedTxs(v: View, txs: seq<Tx>, undos: seq<seq<Coin>>, height: nat, enforceBip30: bool,
                                     i: nat, k: nat)
    requires i <= k <= |txs| == |undos| + 1 && UndoneTxs(v, txs, undos, height, enforceBip30, k).result == Failed
    ensures UndoneTxs(v, txs, undos, height, enforceBip30, i) == UndoneTxs(v, txs, undos, height, enforceBip30, k)
    decreases k - i
  {
    if i < k {
      FailedTxs(v, txs, undos, height, enforceBip30, i + 1, k);
    }
  }

  /** Undo the transactions of a block in reverse, from its undo data, whatever that holds. */
  method DisconnectBlock(txs: seq<Tx>, undos: seq<seq<Coin>>, cache: CoinsViewCache, height: nat, enforceBip30: bool)
    returns (r: DisconnectResult)
    requires cache.Valid()
    requires forall k, i | 0 <= k < |txs| && 0 <= i < |txs[k].vout| :: txs[k].vout[i].value != -1
    requires forall k, i | 0 <= k < |undos| && 0 <= i < |undos[k]| :: !undos[k][i].IsSpent()
    modifies cache, cache.below
    ensures cache.Valid() && cache.BaseView() == old(cache.BaseView())
    ensures |undos| + 1 != |txs| ==> r == Failed && cache.View() == old(cache.View())
    ensures |undos| + 1 == |txs| ==>
      Undoing(r, cache.View()) == UndoneTxs(old(cache.View()), txs, undos, height, enforceBip30, 0)
  {
    hide CoinsViewCache.BaseValid, CoinsViewCache.BaseView, CoinsViewCache.View, CoinsViewCache.Counted, Coherent;
    hide Overlay;
    hide UndoneTx;
    if |undos| + 1 != |txs| {
      return Failed;
    }
    ghost var v := cache.View();
    var clean := true;
    var k := |txs|;
    while k > 0
      invariant 0 <= k <= |txs|
      invariant cache.Valid() && cache.BaseView() == old(cache.BaseView())
      invariant UndoneTxs(v, txs, undos, height, enforceBip30, k) ==
        Undoing(if clean then Ok else Unclean, cache.View())
    {
      k := k - 1;
      var res := DisconnectTx(txs[k], UndoOf(undos, k), cache, height, txs[k].IsCoinBase() && !enforceBip30);
      if res == Failed {
        FailedTxs(v, txs, undos, height, enforceBip30, 0, k);
        return Failed;
      }
      clean := clean && res != Unclean;
    }
    r := if clean then Ok else Unclean;
  }

  /** Undoing a block just connected, from the records made then, is clean and leads back through every view. */
  lemma {:induction false} BlockUndone(v: View, txs: seq<Tx>, undos: seq<seq<Coin>>, height: nat, enforceBip30: bool,
                                       k: nat)
    requires BlockConnects(v, txs, height) && BlockRestorable(v, txs, height) && k <= |txs| == |undos| + 1
    requires forall j | 0 < j < |txs| :: RecordedUndo(AfterTxs(v, txs, height, j), txs[j], undos[j - 1])
    ensures UndoneTxs(AfterTxs(v, txs, height, |txs|), txs, undos, height, enforceBip30, k) ==
      Undoing(Ok, AfterTxs(v, txs, height, k))
    decreases |txs| - k
  {
    hide UndoneTx, RecordedUndo, Restorable, Connects, Applied;
    if k < |txs| {
      BlockUndone(v, txs, undos, height, enforceBip30, k + 1);
      TxUndone(AfterTxs(v, txs, height, k), txs[k], UndoOf(undos, k), height, txs[k].IsCoinBase() && !enforceBip30);
    }
  }

  /** Connecting a block and disconnecting it again restores the view and reports a clean result. */
  method ConnectThenDisconnect(txs: seq<Tx>, cache: CoinsViewCache, height: nat, enforceBip30: bool)
    returns (r: DisconnectResult)
    requires cache.Valid() && BlockConnects(cache.View(), txs, height) && BlockRestorable(cache.View(), txs, height)
    modifies cache, cache.below
    ensures cache.Valid() && cache.View() == old(cache.View()) && cache.BaseView() == old(cache.BaseView())
    ensures r == Ok
  {
    hide CoinsViewCache.BaseValid, CoinsViewCache.BaseView, CoinsViewCache.View, CoinsViewCache.Counted, Coherent;
    hide Overlay;
    ghost var v := cache.View();
    var undos: seq<seq<Coin>> := ConnectBlock(txs, cache, height);
    forall k, i | 0 <= k < |txs| && 0 <= i < |txs[k].vout|
      ensures txs[k].vout[i].value != -1
    {
      assert Connects(AfterTxs(v, txs, height, k), txs[k]);
    }
    forall k: nat, i: nat | k < |undos| && i < |undos[k]|
      ensures !undos[k][i].IsSpent()
    {
      assert RecordedUndo(AfterTxs(v, txs, height, k + 1), txs[k + 1], undos[k + 1 - 1]);
    }
    BlockUndone(v, txs, undos, height, enforceBip30, 0);
    r := DisconnectBlock(txs, undos, cache, height, enforceBip30);
  }
}
