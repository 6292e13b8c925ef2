/**
  base_uint: fixed-width unsigned integers as arrays of 32-bit limbs. Every operation is proved to compute
  on the value modulo 2^(32 * width), for any width, also when its operands are the same object.
 */
module ArithUint256 {
  import opened IntMath
  import opened Limbs

  type Limbs32 = array<nat>

  ghost predicate Ok(a: Limbs32)
    reads a
  {
    a.Length > 0 && AllLimbs(a[..])
  }

  ghost function Value(a: Limbs32): nat
    reads a
  {
    Val(a[..])
  }

  /** One more than the largest value. */
  ghost function Modulus(a: Limbs32): nat {
    Weight(a.Length)
  }

  // ---- Sums ----

  /** The limbs below i are done: with the carry they hold the sum of the operands' limbs below i. */
  ghost predicate Added(r: seq<nat>, s: seq<nat>, t: seq<nat>, i: nat, carry: nat) {
    && |r| == |s| == |t| && i <= |r| && AllLimbs(r) && AllLimbs(s) && AllLimbs(t) && r[i..] == s[i..] && carry <= 1
    && Val(r[..i]) + carry * Weight(i) == Val(s[..i]) + Val(t[..i])
  }

  lemma AddedNext(r: seq<nat>, s: seq<nat>, t: seq<nat>, i: nat, carry: nat)
    requires Added(r, s, t, i, carry) && i < |r|
    ensures
      var n := carry + s[i] + t[i];
      r[i] == s[i] && Added(r[i := Lo(n)], s, t, i + 1, Hi(n))
  {
    hide Val, Weight;
    var n := carry + s[i] + t[i];
    assert r[i] == r[i..][0] == s[i..][0];
    AddStep(Val(s[..i]), Val(t[..i]), s[i], t[i], Val(r[..i]), carry, Weight(i));
    Store(r, i, Lo(n));
    StoreLimb(r, i, Lo(n));
    ValNext(s, i);
    ValNext(t, i);
    WeightNext(i);
    assert s[i + 1..] == s[i..][1..] && r[i + 1..] == r[i..][1..];
  }

  method Add(a: Limbs32, b: Limbs32)
    requires Ok(a) && Ok(b) && a.Length == b.Length
    modifies a
    ensures Ok(a) && Value(a) == (old(Value(a)) + old(Value(b))) % Modulus(a)
  {
    hide Added, Val, AllLimbs;
    ghost var s, t := a[..], b[..];
    var carry: nat := 0;
    AddBegins(s, t);
    for i := 0 to a.Length
      invariant Added(a[..], s, t, i, carry) && b[i..] == t[i..]
    {
      AddedNext(a[..], s, t, i, carry);
      assert b[i] == b[i..][0] == t[i..][0];
      var n := carry + a[i] + b[i];
      assert n < LIMB * LIMB by {
        AddFits(a[..], s, t, i, carry);
      }
      ghost var before := a[..];
      a[i] := Lo(n);
      carry := Hi(n);
      assert a[..] == before[i := Lo(n)];
      assert b[i + 1..] == t[i + 1..] by {
        assert t[i + 1..] == t[i..][1..];
      }
    }
    AddEnds(a[..], s, t, carry);
  }

  lemma AddBegins(s: seq<nat>, t: seq<nat>)
    requires |s| == |t| && AllLimbs(s) && AllLimbs(t)
    ensures Added(s, s, t, 0, 0)
  {
  }

  lemma AddFits(r: seq<nat>, s: seq<nat>, t: seq<nat>, i: nat, carry: nat)
    requires Added(r, s, t, i, carry) && i < |r|
    ensures carry + s[i] + t[i] < LIMB * LIMB
  {
    hide Val, Weight;
  }

  lemma AddEnds(r: seq<nat>, s: seq<nat>, t: seq<nat>, carry: nat)
    requires Added(r, s, t, |r|, carry)
    ensures AllLimbs(r) && Val(r) == (Val(s) + Val(t)) % Weight(|r|)
  {
    hide Val, Weight, Added;
    AddTotal(r, s, t, carry);
    ValBound(r);
    ModIs(Val(r), carry, Weight(|r|), Val(s) + Val(t));
  }

  lemma AddTotal(r: seq<nat>, s: seq<nat>, t: seq<nat>, carry: nat)
    requires Added(r, s, t, |r|, carry)
    ensures AllLimbs(r) && Val(r) + carry * Weight(|r|) == Val(s) + Val(t)
  {
    hide Val, Weight;
    ValAll(r);
    ValAll(s);
    ValAll(t);
  }

  // ---- Complement, increment, decrement ----

  method Not(a: Limbs32) returns (r: Limbs32)
    requires Ok(a)
    ensures fresh(r) && r.Length == a.Length && Ok(r) && Value(r) == Modulus(a) - 1 - Value(a)
  {
    hide Val, AllLimbs;
    r := new nat[a.Length](_ => 0);
    ZeroLimbs(r[..]);
    NotBegins(a[..], r[..]);
    for i := 0 to a.Length
      invariant AllLimbs(r[..]) && Val(r[..i]) + Val(a[..i]) == Weight(i) - 1
    {
      LimbAt(a[..], i);
      NotNext(a[..], r[..], i);
      ghost var before := r[..];
      r[i] := LIMB - 1 - a[i];
      assert r[..] == before[i := r[i]];
      StoreLimb(before, i, r[i]);
    }
    ValAll(a[..]);
    ValAll(r[..]);
  }

  lemma ZeroLimbs(s: seq<nat>)
    requires forall i | 0 <= i < |s| :: s[i] == 0
    ensures AllLimbs(s)
  {
  }

  lemma NotBegins(s: seq<nat>, r: seq<nat>)
    ensures Val(r[..0]) + Val(s[..0]) == Weight(0) - 1
  {
  }

  lemma LimbAt(s: seq<nat>, i: nat)
    requires AllLimbs(s) && i < |s|
    ensures s[i] < LIMB
  {
  }

  lemma NotNext(s: seq<nat>, r: seq<nat>, i: nat)
    requires i < |s| == |r| && s[i] < LIMB && Val(r[..i]) + Val(s[..i]) == Weight(i) - 1
    ensures Val(r[i := LIMB - 1 - s[i]][..i + 1]) + Val(s[..i + 1]) == Weight(i + 1) - 1
  {
    hide Val, Weight;
    Store(r, i, LIMB - 1 - s[i]);
    ValNext(s, i);
    WeightNext(i);
    SumTimes(LIMB - 1 - s[i], s[i], Weight(i));
    SumTimes(LIMB - 1, 1, Weight(i));
  }

  /** Limbs below i wrapped from their largest value to zero. */
  method Increment(a: Limbs32)
    requires Ok(a)
    modifies a
    ensures Ok(a) && Value(a) == (old(Value(a)) + 1) % Modulus(a)
  {
    hide Val, AllLimbs, Incremented;
    ghost var s := a[..];
    var i := 0;
    IncrementBegins(s);
    while i < a.Length
      invariant 0 <= i <= a.Length && Incremented(a[..], s, i)
    {
      IncrementNext(a[..], s, i);
      ghost var before := a[..];
      a[i] := Lo(a[i] + 1);
      assert a[..] == before[i := Lo(before[i] + 1)];
      if a[i] != 0 {
        return;
      }
      i := i + 1;
    }
    IncrementWraps(a[..], s);
  }

  /** One is still to be added at limb i. */
  ghost predicate Incremented(r: seq<nat>, s: seq<nat>, i: nat) {
    |r| == |s| && i <= |s| && AllLimbs(r) && Val(r) + Weight(i) == Val(s) + 1
  }

  lemma IncrementBegins(s: seq<nat>)
    requires AllLimbs(s)
    ensures Incremented(s, s, 0)
  {
    WeightNext(0);
  }

  /** Replacing one limb changes the value by the difference times the limb's weight. */
  lemma Replace(s: seq<nat>, i: nat, x: nat)
    requires i < |s|
    ensures Val(s[i := x]) == Val(s) + (x - s[i]) * Weight(i)
  {
    hide Val, Weight;
    SameAbove(s, s[i := x], i + 1);
    Store(s, i, x);
    ValNext(s, i);
    SumTimes(x - s[i], s[i], Weight(i));
  }

  lemma IncrementNext(r: seq<nat>, s: seq<nat>, i: nat)
    requires Incremented(r, s, i) && i < |r|
    ensures
      var r' := r[i := Lo(r[i] + 1)];
      if r'[i] == 0 then Incremented(r', s, i + 1) else AllLimbs(r') && Val(r') == (Val(s) + 1) % Weight(|s|)
  {
    hide Val, Weight;
    var x := Lo(r[i] + 1);
    Replace(r, i, x);
    WeightNext(i);
    StoreLimb(r, i, x);
    if x == 0 {
      SumTimes(-(LIMB - 1), LIMB - 1, Weight(i));
      SumTimes(LIMB - 1, 1, Weight(i));
    } else {
      ValBound(r[i := x]);
      SmallMod(Val(r[i := x]), Weight(|s|));
    }
  }

  lemma SmallMod(v: nat, m: nat)
    requires v < m
    ensures v % m == v
  {
    ModIs(v, 0, m, v);
  }

  lemma IncrementWraps(r: seq<nat>, s: seq<nat>)
    requires Incremented(r, s, |r|)
    ensures AllLimbs(r) && Val(r) == (Val(s) + 1) % Weight(|s|)
  {
    hide Val, Weight;
    ValBound(r);
    ModIs(Val(r), 1, Weight(|s|), Val(s) + 1);
  }

  method Decrement(a: Limbs32)
    requires Ok(a)
    modifies a
    ensures Ok(a) && Value(a) == (old(Value(a)) - 1) % Modulus(a)
  {
    hide Val, AllLimbs, Decremented;
    ghost var s := a[..];
    var i := 0;
    DecrementBegins(s);
    while i < a.Length
      invariant 0 <= i <= a.Length && Decremented(a[..], s, i)
    {
      DecrementNext(a[..], s, i);
      ghost var before := a[..];
      a[i] := Pred(a[i]);
      assert a[..] == before[i := Pred(before[i])];
      if a[i] != LIMB - 1 {
        return;
      }
      i := i + 1;
    }
    DecrementWraps(a[..], s);
  }

  /** One less, wrapping below zero. */
  function Pred(x: nat): nat {
    if x == 0 then LIMB - 1 else x - 1
  }

  /** One is still to be taken away at limb i. */
  ghost predicate Decremented(r: seq<nat>, s: seq<nat>, i: nat) {
    |r| == |s| && i <= |s| && AllLimbs(r) && Val(r) - Weight(i) == Val(s) - 1
  }

  lemma DecrementBegins(s: seq<nat>)
    requires AllLimbs(s)
    ensures Decremented(s, s, 0)
  {
    WeightNext(0);
  }

  lemma DecrementNext(r: seq<nat>, s: seq<nat>, i: nat)
    requires Decremented(r, s, i) && i < |r|
    ensures
      var r' := r[i := Pred(r[i])];
      if r'[i] == LIMB - 1 then Decremented(r', s, i + 1) else AllLimbs(r') && Val(r') == (Val(s) - 1) % Weight(|s|)
  {
    hide Val, Weight;
    var x := Pred(r[i]);
    Replace(r, i, x);
    WeightNext(i);
    LimbAt(r, i);
    StoreLimb(r, i, x);
    if x == LIMB - 1 {
      SumTimes(LIMB - 1, 1, Weight(i));
    } else {
      ValBound(r[i := x]);
      SmallMod(Val(r[i := x]), Weight(|s|));
    }
  }

  lemma DecrementWraps(r: seq<nat>, s: seq<nat>)
    requires Decremented(r, s, |r|)
    ensures AllLimbs(r) && Val(r) == (Val(s) - 1) % Weight(|s|)
  {
    hide Val, Weight;
    ValBound(r);
    ModIs(Val(r), -1, Weight(|s|), Val(s) - 1);
  }

  /** Two's complement. */
  method Negate(a: Limbs32) returns (r: Limbs32)
    requires Ok(a)
    ensures fresh(r) && r.Length == a.Length && Ok(r) && Value(r) == (Modulus(a) - Value(a)) % Modulus(a)
  {
    hide Val, AllLimbs, Weight;
    r := Not(a);
    Increment(r);
  }

  method Subtract(a: Limbs32, b: Limbs32)
    requires Ok(a) && Ok(b) && a.Length == b.Length
    modifies a
    ensures Ok(a) && Value(a) == (old(Value(a)) - old(Value(b))) % Modulus(a)
  {
    hide Val, AllLimbs, Weight;
    ghost var v, w := Value(a), Value(b);
    var neg := Negate(b);
    Add(a, neg);
    NegatedSum(v, w, Modulus(a));
  }

  lemma NegatedSum(v: nat, w: nat, m: nat)
    requires m > 0
    ensures (v + (m - w) % m) % m == (v - w) % m
  {
    DivMod(m - w, m);
    DivMod(v - w, m);
    var q, r := (m - w) / m, (m - w) % m;
    var k := (v - w) / m;
    assert v + r == (v - w) % m + (k + 1 - q) * m by {
      SumTimes(k + 1, -q, m);
      SumTimes(k, 1, m);
    }
    DivModUnique(v + r, m, k + 1 - q, (v - w) % m);
  }

  // ---- Products ----

  method MulSmall(a: Limbs32, b32: nat)
    requires Ok(a) && b32 < LIMB
    modifies a
    ensures Ok(a) && Value(a) == (old(Value(a)) * b32) % Modulus(a)
  {
    hide Val, AllLimbs, Scaled, MulAdd;
    ghost var s := a[..];
    var carry: nat := 0;
    ScaleBegins(s, b32);
    for i := 0 to a.Length
      invariant Scaled(a[..], s, b32, i, carry)
    {
      ScaleNext(a[..], s, b32, i, carry);
      var n := MulAdd(carry, 0, b32, a[i]);
      assert n < LIMB * LIMB;
      ghost var before := a[..];
      a[i] := Lo(n);
      carry := Hi(n);
      assert a[..] == before[i := Lo(n)];
    }
    ScaleEnds(a[..], s, b32, carry);
  }

  ghost predicate Scaled(r: seq<nat>, s: seq<nat>, b: nat, i: nat, carry: nat) {
    && |r| == |s| && i <= |r| && AllLimbs(r) && AllLimbs(s) && r[i..] == s[i..] && carry < LIMB && b < LIMB
    && Val(r[..i]) + carry * Weight(i) == b * Val(s[..i])
  }

  lemma ScaleBegins(s: seq<nat>, b: nat)
    requires AllLimbs(s) && b < LIMB
    ensures Scaled(s, s, b, 0, 0)
  {
  }

  lemma ScaleNext(r: seq<nat>, s: seq<nat>, b: nat, i: nat, carry: nat)
    requires Scaled(r, s, b, i, carry) && i < |r|
    ensures r[i] == s[i]
    ensures
      var n := MulAdd(carry, 0, b, r[i]);
      n < LIMB * LIMB && Scaled(r[i := Lo(n)], s, b, i + 1, Hi(n))
  {
    hide Val, Weight;
    assert r[i] == r[i..][0] == s[i..][0];
    var n := MulAdd(carry, 0, b, r[i]);
    ProductFits(b, r[i], 0, carry);
    MulStep(Val(s[..i]), b, s[i], Val(r[..i]), carry, Weight(i));
    Store(r, i, Lo(n));
    StoreLimb(r, i, Lo(n));
    ValNext(s, i);
    WeightNext(i);
    assert s[i + 1..] == s[i..][1..] && r[i + 1..] == r[i..][1..];
  }

  lemma ScaleEnds(r: seq<nat>, s: seq<nat>, b: nat, carry: nat)
    requires Scaled(r, s, b, |r|, carry)
    ensures AllLimbs(r) && Val(r) == (Val(s) * b) % Weight(|r|)
  {
    hide Val, Weight;
    ValAll(r);
    ValAll(s);
    ValBound(r);
    ModIs(Val(r), carry, Weight(|r|), Val(s) * b);
  }

  /** The row for limb x of the left factor, at position j, done up to limb i of the right factor. */
  ghost predicate Row(r: seq<nat>, s: seq<nat>, b: seq<nat>, x: nat, j: nat, i: nat, carry: nat) {
    && |r| == |s| == |b| && i + j <= |r| && AllLimbs(r) && AllLimbs(s) && AllLimbs(b) && x < LIMB && carry < LIMB
    && r[i + j..] == s[i + j..]
    && Val(r[..i + j]) + carry * Weight(i + j) == Val(s[..i + j]) + x * Val(b[..i]) * Weight(j)
  }

  lemma RowBegins(s: seq<nat>, b: seq<nat>, x: nat, j: nat)
    requires |s| == |b| && j <= |s| && AllLimbs(s) && AllLimbs(b) && x < LIMB
    ensures Row(s, s, b, x, j, 0, 0)
  {
    assert Val(b[..0]) == 0;
  }

  lemma RowNext(r: seq<nat>, s: seq<nat>, b: seq<nat>, x: nat, j: nat, i: nat, carry: nat)
    requires Row(r, s, b, x, j, i, carry) && i + j < |r|
    ensures
      var n := MulAdd(carry, r[i + j], x, b[i]);
      n < LIMB * LIMB && Row(r[i + j := Lo(n)], s, b, x, j, i + 1, Hi(n))
  {
    hide Val, Weight;
    var k := i + j;
    assert r[k] == r[k..][0] == s[k..][0];
    var n := MulAdd(carry, r[k], x, b[i]);
    ProductFits(x, b[i], r[k], carry);
    WeightAdd(i, j);
    RowStep(Val(r[..k]), Val(s[..k]), x, Val(b[..i]), Weight(j), Weight(i), Weight(k), s[k], b[i], carry);
    Store(r, k, Lo(n));
    StoreLimb(r, k, Lo(n));
    ValNext(s, k);
    ValNext(b, i);
    WeightNext(k);
    assert s[k + 1..] == s[k..][1..] && r[k + 1..] == r[k..][1..];
  }

  /** A finished row adds x times the right factor at position j, up to multiples of the modulus. */
  lemma RowEnds(r: seq<nat>, s: seq<nat>, b: seq<nat>, x: nat, j: nat, carry: nat) returns (k: int)
    requires j <= |r| && Row(r, s, b, x, j, |r| - j, carry)
    ensures AllLimbs(r) && Val(r) + k * Weight(|r|) == Val(s) + x * Val(b) * Weight(j)
  {
    hide Val, Weight;
    var n := |r|;
    ValAll(r);
    ValAll(s);
    ValSplit(b, n - j);
    WeightAdd(n - j, j);
    k := carry + x * Val(b[n - j..]);
    RowRest(x, Val(b[..n - j]), Val(b[n - j..]), Weight(n - j), Weight(j), Weight(n));
    SumTimes(carry, x * Val(b[n - j..]), Weight(n));
  }

  lemma RowRest(x: nat, low: nat, high: nat, u: nat, w: nat, m: nat)
    requires m == u * w
    ensures x * (low + high * u) * w == x * low * w + (x * high) * m
  {
    SumTimes(low, high * u, x);
    SumTimes(x * low, x * (high * u), w);
    RowProduct(x, high, u, w);
  }

  method MulRow(acc: Limbs32, b: Limbs32, x: nat, j: nat) returns (ghost k: int)
    requires Ok(acc) && Ok(b) && acc.Length == b.Length && acc != b && x < LIMB && j < acc.Length
    modifies acc
    ensures Ok(acc) && Value(acc) + k * Modulus(acc) == old(Value(acc)) + x * Value(b) * Weight(j)
  {
    hide Val, AllLimbs, Row, MulAdd;
    ghost var s := acc[..];
    var carry: nat := 0;
    RowBegins(s, b[..], x, j);
    var i := 0;
    while i + j < acc.Length
      invariant 0 <= i && i + j <= acc.Length && Row(acc[..], s, b[..], x, j, i, carry)
    {
      RowNext(acc[..], s, b[..], x, j, i, carry);
      var n := MulAdd(carry, acc[i + j], x, b[i]);
      assert n < LIMB * LIMB;
      ghost var before := acc[..];
      acc[i + j] := Lo(n);
      carry := Hi(n);
      assert acc[..] == before[i + j := Lo(n)];
      i := i + 1;
    }
    k := RowEnds(acc[..], s, b[..], x, j, carry);
  }

  /** Schoolbook product. */
  method Multiply(a: Limbs32, b: Limbs32)
    requires Ok(a) && Ok(b) && a.Length == b.Length
    modifies a
    ensures Ok(a) && Value(a) == (old(Value(a)) * old(Value(b))) % Modulus(a)
  {
    hide Val, AllLimbs, Weight;
    ghost var s, t := a[..], b[..];
    var acc := new nat[a.Length](_ => 0);
    ZeroLimbs(acc[..]);
    ZeroVal(acc[..]);
    ghost var total: int := 0;
    ProductBegins(s);
    for j := 0 to a.Length
      invariant Ok(acc) && a[..] == s && b[..] == t && Ok(b)
      invariant Value(acc) + total * Modulus(a) == Val(s[..j]) * Val(t)
    {
      LimbAt(a[..], j);
      ghost var v := Value(acc);
      ghost var k := MulRow(acc, b, a[j], j);
      ProductNext(s, t, j, v, Value(acc), total, k, Modulus(a));
      total := total + k;
    }
    ValAll(s);
    ValBound(acc[..]);
    ModIs(Value(acc), total, Modulus(a), Val(s) * Val(t));
    CopyFrom(a, acc);
  }

  lemma ProductBegins(s: seq<nat>)
    ensures Val(s[..0]) == 0
  {
  }

  lemma ProductNext(s: seq<nat>, t: seq<nat>, j: nat, v: nat, v': nat, total: int, k: int, m: nat)
    requires j < |s| && v + total * m == Val(s[..j]) * Val(t) && v' + k * m == v + s[j] * Val(t) * Weight(j)
    ensures v' + (total + k) * m == Val(s[..j + 1]) * Val(t)
  {
    hide Val, Weight;
    ValNext(s, j);
    SumTimes(total, k, m);
    SumTimes(Val(s[..j]), s[j] * Weight(j), Val(t));
    Swap(s[j], Val(t), Weight(j));
  }

  lemma Swap(x: nat, y: nat, z: nat)
    ensures x * y * z == (x * z) * y
  {
    MulAssoc(x, y, z);
    MulAssoc(x, z, y);
  }

  method CopyFrom(a: Limbs32, b: Limbs32)
    requires a.Length == b.Length && a != b
    modifies a
    ensures a[..] == b[..]
  {
    for i := 0 to a.Length
      invariant a[..i] == b[..i]
    {
      a[i] := b[i];
    }
  }

  // ---- Comparison and size ----

  method Compare(a: Limbs32, b: Limbs32) returns (r: int)
    requires Ok(a) && Ok(b) && a.Length == b.Length
    ensures r == if Value(a) < Value(b) then -1 else if Value(a) > Value(b) then 1 else 0
  {
    hide Val;
    var i := a.Length - 1;
    while i >= 0
      invariant -1 <= i < a.Length && forall k | i < k < a.Length :: a[k] == b[k]
    {
      if a[i] < b[i] {
        CompareAt(a[..], b[..], i);
        return -1;
      }
      if a[i] > b[i] {
        CompareAt(b[..], a[..], i);
        return 1;
      }
      i := i - 1;
    }
    assert a[..] == b[..];
    r := 0;
  }

  /** Is bit n of the number set? */
  predicate Bit(x: nat, n: nat) {
    x / Pow2(n) % 2 == 1
  }

  lemma BitTop(x: nat, n: nat)
    requires x < Pow2(n + 1)
    ensures Bit(x, n) <==> x >= Pow2(n)
  {
    DivMod(x, Pow2(n));
    if x >= Pow2(n) {
      DivModUnique(x, Pow2(n), 1, x - Pow2(n));
    } else {
      DivModUnique(x, Pow2(n), 0, x);
    }
  }

  lemma PrefixLimbs(s: seq<nat>, n: nat)
    requires AllLimbs(s) && n <= |s|
    ensures AllLimbs(s[..n])
  {
  }

  /** The highest limb that is not zero settles the number of bits. */
  lemma BitsAt(s: seq<nat>, pos: nat, n: nat)
    requires AllLimbs(s) && pos < |s| && Pow2(n) <= s[pos] < Pow2(n + 1) && n < 32
    requires forall k | pos < k < |s| :: s[k] == 0
    ensures Pow2(32 * pos + n) <= Val(s) < Pow2(32 * pos + n + 1)
  {
    hide Val, Pow2, AllLimbs;
    ValSplit(s, pos + 1);
    ZeroVal(s[pos + 1..]);
    ValNext(s, pos);
    PrefixLimbs(s, pos);
    ValBound(s[..pos]);
    Pow2Add(n, 32 * pos);
    Pow2Add(n + 1, 32 * pos);
    assert n + 32 * pos == 32 * pos + n && n + 1 + 32 * pos == 32 * pos + n + 1;
    Between(Val(s[..pos]), s[pos], Pow2(n), Pow2(n + 1), Weight(pos));
  }

  lemma Between(low: nat, x: nat, a: nat, b: nat, w: nat)
    requires low < w && a <= x < b
    ensures a * w <= low + x * w < b * w
  {
    MulMono(a, x, w);
    MulMono(x + 1, b, w);
    SumTimes(x, 1, w);
  }

  method Bits(a: Limbs32) returns (n: nat)
    requires Ok(a)
    ensures n == 0 <==> Value(a) == 0
    ensures n > 0 ==> Pow2(n - 1) <= Value(a) < Pow2(n)
    ensures n <= 32 * a.Length
  {
    hide Val, Pow2;
    var pos := a.Length - 1;
    while pos >= 0
      invariant -1 <= pos < a.Length && forall k | pos < k < a.Length :: a[k] == 0
    {
      if a[pos] != 0 {
        var nbits := LimbBits(a[pos]);
        BitsAt(a[..], pos, nbits - 1);
        n := 32 * pos + nbits;
        return;
      }
      pos := pos - 1;
    }
    ZeroVal(a[..]);
    n := 0;
  }

  method LimbBits(x: nat) returns (n: nat)
    requires 0 < x < LIMB
    ensures 1 <= n <= 32 && Pow2(n - 1) <= x < Pow2(n)
  {
    hide Pow2;
    Pow2Limb();
    var nbits := 31;
    while nbits > 0
      invariant 0 <= nbits <= 31 && x < Pow2(nbits + 1)
    {
      BitTop(x, nbits);
      if Bit(x, nbits) {
        return nbits + 1;
      }
      nbits := nbits - 1;
    }
    PowersSmall();
    n := 1;
  }

  lemma PowersSmall()
    ensures Pow2(0) == 1 && Pow2(1) == 2
  {
  }

  // ---- Shifts ----

  /** Limb j after i rounds of the loop: complete below, the part carried up at i + k, still zero above. */
  ghost function ShlPartial(s: seq<nat>, k: nat, p: nat, i: nat, j: nat): nat
    requires j < |s|
  {
    if j < k + i then ShlLimb(s, k, p, j)
    else if j == k + i && 0 < i <= |s| then Hi(s[i - 1] * p)
    else 0
  }

  ghost predicate ShlAfter(r: seq<nat>, s: seq<nat>, k: nat, p: nat, i: nat) {
    |r| == |s| && forall j | 0 <= j < |r| :: r[j] == ShlPartial(s, k, p, i, j)
  }

  lemma ShlNext(r: seq<nat>, s: seq<nat>, k: nat, sh: nat, i: nat)
    requires ShlAfter(r, s, k, Pow2(sh), i) && i < |s| && AllLimbs(s) && sh < 32
    ensures
      var r1 := if i + k + 1 < |s| && sh != 0 then r[i + k + 1 := Or(r[i + k + 1], Shr(s[i], 32 - sh))] else r;
      var r2 := if i + k < |s| then r1[i + k := Or(r1[i + k], Shl(s[i], sh))] else r1;
      ShlAfter(r2, s, k, Pow2(sh), i + 1)
  {
    hide Pow2, Or, Lo, Hi;
    var p, q := Pow2(sh), Pow2(32 - sh);
    Halves(sh);
    ShiftUp(s[i], p, q);
    OrZero(s[i] / q);
    if sh == 0 {
      NoShift(s[i]);
    }
    if i > 0 {
      ShiftUp(s[i - 1], p, q);
      OrIsSum(s[i - 1] / q, s[i] % q, sh);
    } else {
      OrIsSum(0, s[i] % q, sh);
    }
  }

  lemma NoShift(x: nat)
    requires x < LIMB
    ensures Hi(x * Pow2(0)) == 0 && Lo(x * Pow2(0)) == x
  {
  }

  method ShiftLeft(a: Limbs32, shift: nat)
    requires Ok(a)
    modifies a
    ensures Ok(a) && Value(a) == (old(Value(a)) * Pow2(shift)) % Modulus(a)
  {
    hide Val, Pow2, ShlAfter, Or, Shl, Shr, AllLimbs;
    var s := a[..];
    Clear(a);
    var k, sh := shift / 32, shift % 32;
    ShlBegins(a[..], s, k, Pow2(sh));
    for i := 0 to a.Length
      invariant ShlAfter(a[..], s, k, Pow2(sh), i)
    {
      ShlNext(a[..], s, k, sh, i);
      ghost var r := a[..];
      if i + k + 1 < a.Length && sh != 0 {
        a[i + k + 1] := Or(a[i + k + 1], Shr(s[i], 32 - sh));
        assert a[..] == r[i + k + 1 := Or(r[i + k + 1], Shr(s[i], 32 - sh))];
      }
      ghost var r1 := a[..];
      if i + k < a.Length {
        a[i + k] := Or(a[i + k], Shl(s[i], sh));
        assert a[..] == r1[i + k := Or(r1[i + k], Shl(s[i], sh))];
      }
    }
    ShlEnds(a[..], s, k, sh, shift);
  }

  method Clear(a: Limbs32)
    modifies a
    ensures forall i | 0 <= i < a.Length :: a[i] == 0
  {
    for i := 0 to a.Length
      invariant forall k | 0 <= k < i :: a[k] == 0
    {
      a[i] := 0;
    }
  }

  lemma ShlBegins(r: seq<nat>, s: seq<nat>, k: nat, p: nat)
    requires |r| == |s| && forall i | 0 <= i < |r| :: r[i] == 0
    ensures ShlAfter(r, s, k, p, 0)
  {
  }

  lemma ShlEnds(r: seq<nat>, s: seq<nat>, k: nat, sh: nat, shift: nat)
    requires ShlAfter(r, s, k, Pow2(sh), |s|) && AllLimbs(s) && sh < 32 && shift == 32 * k + sh
    ensures AllLimbs(r) && Val(r) == (Val(s) * Pow2(shift)) % Weight(|s|)
  {
    hide Val, Pow2, Lo, Hi;
    var p, q := Pow2(sh), Pow2(32 - sh);
    Halves(sh);
    forall j | 0 <= j < |r|
      ensures r[j] == ShlLimb(s, k, p, j) && r[j] < LIMB
    {
      if j >= k {
        ShiftUp(s[j - k], p, q);
        if j > k {
          ShiftUp(s[j - k - 1], p, q);
        }
        LowAndHigh(s[j - k] % q, p, q, if j > k then s[j - k - 1] / q else 0);
      }
    }
    ShlValue(s, r, k, p);
    Pow2Add(sh, 32 * k);
    assert sh + 32 * k == shift;
    MulAssoc(Val(s), p, Weight(k));
  }

  lemma LowAndHigh(x: nat, p: nat, q: nat, y: nat)
    requires p * q == LIMB && x < q && y < p
    ensures x * p + y < LIMB
  {
    MulMono(x + 1, q, p);
    SumTimes(x, 1, p);
  }

  /** Limb j after i rounds: complete below i - k - 1, its own part at i - k - 1, still zero above. */
  ghost function ShrPartial(s: seq<nat>, k: nat, p: nat, q: nat, i: nat, j: nat): nat
    requires p > 0 && j < |s|
  {
    if j + k + 1 < i then ShrLimb(s, k, p, q, j)
    else if j + k + 1 == i <= |s| then s[j + k] / p
    else 0
  }

  ghost predicate ShrAfter(r: seq<nat>, s: seq<nat>, k: nat, p: nat, q: nat, i: nat)
    requires p > 0
  {
    |r| == |s| && forall j | 0 <= j < |r| :: r[j] == ShrPartial(s, k, p, q, i, j)
  }

  lemma ShrNext(r: seq<nat>, s: seq<nat>, k: nat, sh: nat, i: nat)
    requires sh < 32 && ShrAfter(r, s, k, Pow2(sh), Pow2(32 - sh), i) && i < |s| && AllLimbs(s)
    ensures
      var r1 := if i >= k + 1 && sh != 0 then r[i - k - 1 := Or(r[i - k - 1], Shl(s[i], 32 - sh))] else r;
      var r2 := if i >= k then r1[i - k := Or(r1[i - k], Shr(s[i], sh))] else r1;
      ShrAfter(r2, s, k, Pow2(sh), Pow2(32 - sh), i + 1)
  {
    hide Pow2, Or, Lo;
    var p, q := Pow2(sh), Pow2(32 - sh);
    Halves(sh);
    ShiftUp(s[i], q, p);
    OrZero(s[i] / p);
    if sh == 0 {
      PowersSmall();
    }
    if i > 0 {
      ShiftUp(s[i - 1], q, p);
      OrIsSum(s[i - 1] / p, s[i] % p, 32 - sh);
    }
  }

  method ShiftRight(a: Limbs32, shift: nat)
    requires Ok(a)
    modifies a
    ensures Ok(a) && Value(a) == old(Value(a)) / Pow2(shift)
  {
    hide Val, Pow2, ShrAfter, Or, Shl, Shr, AllLimbs;
    var s := a[..];
    Clear(a);
    var k, sh := shift / 32, shift % 32;
    ShrBegins(a[..], s, k, sh);
    for i := 0 to a.Length
      invariant ShrAfter(a[..], s, k, Pow2(sh), Pow2(32 - sh), i)
    {
      ShrNext(a[..], s, k, sh, i);
      ghost var r := a[..];
      if i - k - 1 >= 0 && sh != 0 {
        a[i - k - 1] := Or(a[i - k - 1], Shl(s[i], 32 - sh));
        assert a[..] == r[i - k - 1 := Or(r[i - k - 1], Shl(s[i], 32 - sh))];
      }
      ghost var r1 := a[..];
      if i - k >= 0 {
        a[i - k] := Or(a[i - k], Shr(s[i], sh));
        assert a[..] == r1[i - k := Or(r1[i - k], Shr(s[i], sh))];
      }
    }
    ShrEnds(a[..], s, k, sh, shift);
  }

  lemma ShrBegins(r: seq<nat>, s: seq<nat>, k: nat, sh: nat)
    requires |r| == |s| && sh < 32 && forall i | 0 <= i < |r| :: r[i] == 0
    ensures ShrAfter(r, s, k, Pow2(sh), Pow2(32 - sh), 0)
  {
  }

  lemma ShrEnds(r: seq<nat>, s: seq<nat>, k: nat, sh: nat, shift: nat)
    requires sh < 32 && ShrAfter(r, s, k, Pow2(sh), Pow2(32 - sh), |s|) && AllLimbs(s) && shift == 32 * k + sh
    ensures AllLimbs(r) && Val(r) == Val(s) / Pow2(shift)
  {
    hide Val, Pow2;
    var p, q := Pow2(sh), Pow2(32 - sh);
    Halves(sh);
    forall j | 0 <= j < |r|
      ensures r[j] == ShrLimb(s, k, p, q, j) && r[j] < LIMB
    {
      if j + k < |s| {
        ShiftUp(s[j + k], q, p);
        if j + k + 1 < |s| {
          ShiftUp(s[j + k + 1], q, p);
        }
        LowAndHigh(if j + k + 1 < |s| then s[j + k + 1] % p else 0, q, p, s[j + k] / p);
      }
    }
    ShrValue(s, r, k, p, q);
    Pow2Add(sh, 32 * k);
    assert sh + 32 * k == shift;
  }

  // ---- Quotients ----

  method Clone(a: Limbs32) returns (r: Limbs32)
    ensures fresh(r) && r.Length == a.Length && r[..] == a[..]
  {
    r := new nat[a.Length](_ => 0);
    CopyFrom(r, a);
  }

  /** Setting a bit that is clear, in a number divisible by the next power, adds it. */
  method SetBit(a: Limbs32, n: nat)
    requires Ok(a) && n < 32 * a.Length && Value(a) % Pow2(n + 1) == 0
    modifies a
    ensures Ok(a) && Value(a) == old(Value(a)) + Pow2(n)
  {
    hide Val, Pow2, Or, AllLimbs;
    BitClear(a[..], n);
    ghost var s := a[..];
    a[n / 32] := Or(a[n / 32], Pow2(n % 32));
    assert a[..] == s[n / 32 := Or(s[n / 32], Pow2(n % 32))];
  }

  lemma BitClear(s: seq<nat>, n: nat)
    requires AllLimbs(s) && n < 32 * |s| && Val(s) % Pow2(n + 1) == 0
    ensures var s' := s[n / 32 := Or(s[n / 32], Pow2(n % 32))]; AllLimbs(s') && Val(s') == Val(s) + Pow2(n)
  {
    hide Val, Pow2, Or;
    var i, b := n / 32, n % 32;
    LimbDivisible(s, i, b);
    var m := s[i] / Pow2(b + 1);
    DivMod(s[i], Pow2(b + 1));
    OrBit(m, b);
    RoomForBit(s[i], m, b);
    Replace(s, i, Or(s[i], Pow2(b)));
    Pow2Add(b, 32 * i);
    assert b + 32 * i == n;
  }

  /** A limb below 2^32 that is a multiple of 2^(b+1) has room for bit b. */
  lemma RoomForBit(x: nat, m: nat, b: nat)
    requires b < 32 && x == m * Pow2(b + 1) && x < LIMB
    ensures x + Pow2(b) < LIMB
  {
    hide Pow2;
    Halves(b + 1);
    var q := Pow2(32 - (b + 1));
    MulLess(m, q, Pow2(b + 1));
    MulMono(m + 1, q, Pow2(b + 1));
    SumTimes(m, 1, Pow2(b + 1));
    PowStep(b);
  }

  lemma PowStep(b: nat)
    ensures Pow2(b + 1) == 2 * Pow2(b)
  {
  }

  lemma OrBit(m: nat, b: nat)
    ensures Or(m * Pow2(b + 1), Pow2(b)) == m * Pow2(b + 1) + Pow2(b)
  {
    hide Pow2, Or;
    OrComm(m * Pow2(b + 1), Pow2(b));
    PowLess(b);
    OrIsSum(Pow2(b), m, b + 1);
  }

  lemma PowLess(b: nat)
    ensures Pow2(b) < Pow2(b + 1)
  {
  }

  lemma {:induction false} OrComm(x: nat, y: nat)
    ensures Or(x, y) == Or(y, x)
    decreases x + y
  {
    if x > 0 || y > 0 {
      OrComm(x / 2, y / 2);
    }
  }

  /** If a number is divisible by 2^(32 i + b + 1), its limb i is divisible by 2^(b + 1). */
  lemma LimbDivisible(s: seq<nat>, i: nat, b: nat)
    requires AllLimbs(s) && i < |s| && b < 32 && Val(s) % Pow2(32 * i + b + 1) == 0
    ensures s[i] % Pow2(b + 1) == 0
  {
    hide Val, Pow2;
    var w := Weight(i);
    ValSplit(s, i);
    ValSplit(s[i..], 1);
    ValNext(s[i..], 0);
    ValAll(s[i..]);
    ValBound(s[..i]);
    WeightNext(0);
    var low, x, high := Val(s[..i]), s[i], Val(s[i..][1..]);
    Pow2Add(b + 1, 32 * i);
    assert Weight(0 + 1) == Weight(1) == LIMB;
    DivisibleParts(low, x + high * LIMB, w, Pow2(b + 1));
    Halves(b + 1);
    var q := Pow2(32 - (b + 1));
    MulAssoc(high * q, 1, Pow2(b + 1));
    LowDivisible(x, high, q, Pow2(b + 1));
  }

  lemma DivisibleParts(low: nat, rest: nat, w: nat, p: nat)
    requires w > 0 && p > 0 && low < w && (low + rest * w) % (p * w) == 0
    ensures rest % p == 0
  {
    var v := low + rest * w;
    DivMod(v, p * w);
    var k := v / (p * w);
    MulAssoc(k, p, w);
    assert low == (k * p - rest) * w by {
      SumTimes(k * p - rest, rest, w);
    }
    BelowOne(w, k * p - rest);
    DivModUnique(rest, p, k, 0);
  }

  lemma LowDivisible(x: nat, high: nat, q: nat, p: nat)
    requires p > 0 && p * q == LIMB && (x + high * LIMB) % p == 0
    ensures x % p == 0
  {
    DivMod(x + high * LIMB, p);
    var k := (x + high * LIMB) / p;
    MulAssoc(high, q, p);
    SumTimes(k, -(high * q), p);
    DivModUnique(x, p, k - high * q, 0);
  }

  /** One step of long division, at bit `shift`. */
  ghost predicate Dividing(n: nat, d: nat, quotient: nat, rest: nat, shift: int) {
    && shift >= -1 && d > 0 && n == quotient * d + rest && rest < d * Pow2(shift + 1) && quotient % Pow2(shift + 1) == 0
  }

  lemma DivideStep(n: nat, d: nat, quotient: nat, rest: nat, shift: nat)
    requires Dividing(n, d, quotient, rest, shift)
    ensures rest >= d * Pow2(shift) ==> Dividing(n, d, quotient + Pow2(shift), rest - d * Pow2(shift), shift - 1)
    ensures rest < d * Pow2(shift) ==> Dividing(n, d, quotient, rest, shift - 1)
  {
    hide Pow2;
    var p := Pow2(shift);
    PowStep(shift);
    DivMod(quotient, Pow2(shift + 1));
    var m := quotient / Pow2(shift + 1);
    MulAssoc(m, 2, p);
    MulAssoc(2, d, p);
    MulAssoc(d, 2, p);
    SumTimes(quotient, p, d);
    SumTimes(m * 2, 1, p);
    DivModUnique(quotient, p, m * 2, 0);
    DivModUnique(quotient + p, p, m * 2 + 1, 0);
  }

  datatype Quotient = DivisionByZero | Divided

  /** Shift and subtract. The quotient replaces the dividend; the remainder is what is left of the copy. */
  method Divide(a: Limbs32, b: Limbs32) returns (r: Quotient, num: Limbs32)
    requires Ok(a) && Ok(b) && a.Length == b.Length
    modifies a
    ensures r.DivisionByZero? <==> old(Value(b)) == 0
    ensures r.Divided? ==>
      fresh(num) && Ok(a) && Value(a) == old(Value(a)) / old(Value(b)) && Value(num) == old(Value(a)) % old(Value(b))
  {
    hide Val, Pow2, AllLimbs, Weight, Dividing;
    ghost var n, d := Value(a), Value(b);
    var div := Clone(b);
    num := Clone(a);
    Clear(a);
    ZeroLimbs(a[..]);
    ZeroVal(a[..]);
    var numBits := Bits(num);
    var divBits := Bits(div);
    if divBits == 0 {
      return DivisionByZero, num;
    }
    if divBits > numBits {
      SmallDividend(n, d, numBits, divBits);
      return Divided, num;
    }
    var shift: int := numBits - divBits;
    AlignFits(n, d, numBits, divBits, a.Length);
    ShiftLeft(div, shift);
    DivideBegins(n, d, numBits, divBits);
    while shift >= 0
      invariant -1 <= shift < 32 * a.Length && Ok(a) && Ok(num) && Ok(div)
      invariant shift >= 0 ==> Value(div) == d * Pow2(shift)
      invariant Dividing(n, d, Value(a), Value(num), shift)
    {
      DivideStep(n, d, Value(a), Value(num), shift);
      var c := Compare(num, div);
      if c >= 0 {
        DividingBit(n, d, Value(a), Value(num), shift);
        SubtractSmall(num, div);
        SetBit(a, shift);
      }
      ghost var was := Value(div);
      ShiftRight(div, 1);
      if shift > 0 {
        HalfPower(d, shift);
      }
      shift := shift - 1;
    }
    DivideEnds(n, d, Value(a), Value(num));
    r := Divided;
  }

  /** Without a borrow, subtraction is exact. */
  method SubtractSmall(a: Limbs32, b: Limbs32)
    requires Ok(a) && Ok(b) && a.Length == b.Length && a != b && Value(b) <= Value(a)
    modifies a
    ensures Ok(a) && Value(a) == old(Value(a)) - Value(b)
  {
    hide Val, AllLimbs, Weight;
    ValBound(a[..]);
    ghost var v, w := Value(a), Value(b);
    Subtract(a, b);
    SmallMod(v - w, Modulus(a));
  }

  lemma DividingBit(n: nat, d: nat, quotient: nat, rest: nat, shift: nat)
    requires Dividing(n, d, quotient, rest, shift)
    ensures quotient % Pow2(shift + 1) == 0
  {
  }

  lemma SmallDividend(n: nat, d: nat, numBits: nat, divBits: nat)
    requires n < Pow2(numBits) || n == 0
    requires divBits > 0 && divBits > numBits && Pow2(divBits - 1) <= d
    ensures n / d == 0 && n % d == n
  {
    hide Pow2;
    Pow2Mono(numBits, divBits - 1);
    DivModUnique(n, d, 0, n);
  }

  lemma AlignFits(n: nat, d: nat, numBits: nat, divBits: nat, width: nat)
    requires divBits <= numBits <= 32 * width && d < Pow2(divBits)
    ensures (d * Pow2(numBits - divBits)) % Weight(width) == d * Pow2(numBits - divBits)
  {
    hide Pow2;
    var shift := numBits - divBits;
    Pow2Add(divBits, shift);
    assert divBits + shift == numBits;
    MulLimit(d, Pow2(divBits), Pow2(shift));
    Pow2Mono(numBits, 32 * width);
    SmallMod(d * Pow2(shift), Weight(width));
  }

  lemma DivideBegins(n: nat, d: nat, numBits: nat, divBits: nat)
    requires 0 < divBits <= numBits && n < Pow2(numBits) && Pow2(divBits - 1) <= d
    ensures Dividing(n, d, 0, n, numBits - divBits)
  {
    hide Pow2;
    var shift := numBits - divBits;
    Pow2Add(divBits - 1, shift + 1);
    assert divBits - 1 + (shift + 1) == numBits;
    MulMono(Pow2(divBits - 1), d, Pow2(shift + 1));
    DivModUnique(0, Pow2(shift + 1), 0, 0);
  }

  lemma HalfPower(d: nat, shift: nat)
    requires shift > 0
    ensures d * Pow2(shift) / Pow2(1) == d * Pow2(shift - 1)
  {
    hide Pow2;
    PowersSmall();
    PowStep(shift - 1);
    MulAssoc(d, 2, Pow2(shift - 1));
    MulAssoc(2, d, Pow2(shift - 1));
    DivModUnique(d * Pow2(shift), 2, d * Pow2(shift - 1), 0);
  }

  lemma DivideEnds(n: nat, d: nat, quotient: nat, rest: nat)
    requires Dividing(n, d, quotient, rest, -1)
    ensures n / d == quotient && n % d == rest
  {
    PowersSmall();
    DivModUnique(n, d, quotient, rest);
  }
}
