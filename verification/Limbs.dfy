/** Numbers as 32-bit limbs, least significant first, and the facts the limb loops need. */
module Limbs {
  import opened IntMath

  const LIMB: nat := 0x1_0000_0000

  lemma Pow2Limb()
    ensures Pow2(32) == LIMB && Pow2(8) == 256 && Pow2(16) == 65536 && Pow2(24) == 16777216
  {
    assert Pow2(8) == 256;
    Pow2Add(8, 8);
    Pow2Add(16, 8);
    Pow2Add(16, 16);
  }

  /** The weight of limb i. */
  function Weight(i: nat): (w: nat)
    ensures w > 0
  {
    Pow2(32 * i)
  }

  lemma WeightAdd(i: nat, j: nat)
    ensures Weight(i + j) == Weight(i) * Weight(j)
  {
    Pow2Add(32 * i, 32 * j);
    assert 32 * (i + j) == 32 * i + 32 * j;
  }

  lemma WeightNext(i: nat)
    ensures Weight(i + 1) == LIMB * Weight(i) && Weight(0) == 1
  {
    Pow2Limb();
    Pow2Add(32, 32 * i);
    assert 32 * (i + 1) == 32 + 32 * i;
  }

  predicate AllLimbs(s: seq<nat>) {
    forall i | 0 <= i < |s| :: s[i] < LIMB
  }

  function Val(s: seq<nat>): nat {
    if s == [] then 0 else Val(s[..|s| - 1]) + s[|s| - 1] * Weight(|s| - 1)
  }

  /** The value of the first i + 1 limbs. */
  lemma ValNext(s: seq<nat>, i: nat)
    requires i < |s|
    ensures Val(s[..i + 1]) == Val(s[..i]) + s[i] * Weight(i)
  {
    assert s[..i + 1][..i] == s[..i];
  }

  lemma ValAll(s: seq<nat>)
    ensures Val(s[..|s|]) == Val(s) && Val(s[..0]) == 0
  {
    assert s[..|s|] == s;
  }

  lemma {:induction false} ValBound(s: seq<nat>)
    requires AllLimbs(s)
    ensures Val(s) < Weight(|s|)
  {
    if s == [] {
      WeightNext(0);
    } else {
      var n := |s| - 1;
      ValBound(s[..n]);
      WeightNext(n);
      NextBelow(Val(s[..n]), s[n], Weight(n));
    }
  }

  /** The limbs from n on count Weight(n) times. */
  lemma {:induction false} ValSplit(s: seq<nat>, n: nat)
    requires n <= |s|
    ensures Val(s) == Val(s[..n]) + Val(s[n..]) * Weight(n)
  {
    hide Val, Weight;
    if n == |s| {
      assert s[n..] == [];
      ValAll(s);
      ValEmpty();
    } else {
      var m := |s| - 1;
      var high := s[n..];
      ValSplit(s[..m], n);
      assert s[..m][..n] == s[..n] && s[..m][n..] == high[..m - n];
      WeightAdd(m - n, n);
      ValNext(s, m);
      ValNext(high, m - n);
      ValAll(s);
      ValAll(high);
      SplitSum(Val(s[..m]), Val(s[..n]), Val(high[..m - n]), Weight(n), s[m], Weight(m - n), Weight(m));
    }
  }

  lemma ValEmpty()
    ensures Val([]) == 0
  {
  }

  lemma SplitSum(v: nat, low: nat, high: nat, w: nat, x: nat, u: nat, wu: nat)
    requires v == low + high * w && wu == u * w
    ensures v + x * wu == low + (high + x * u) * w
  {
    SumTimes(high, x * u, w);
    MulAssoc(x, u, w);
  }

  lemma NextBelow(v: nat, d: nat, w: nat)
    requires v < w && d < LIMB
    ensures v + d * w < LIMB * w
  {
    MulMono(d + 1, LIMB, w);
    SumTimes(d, 1, w);
  }

  /** A value below the modulus is determined by what it is congruent to. */
  lemma ModIs(v: nat, carry: int, m: nat, total: int)
    requires m > 0 && v < m && v + carry * m == total
    ensures total % m == v
  {
    DivModUnique(total, m, carry, v);
  }

  /** Splitting a sum into a limb and a carry. */
  lemma LimbSplit(n: nat, w: nat)
    ensures (n % LIMB) * w + (n / LIMB) * (LIMB * w) == n * w
    ensures n % LIMB < LIMB && n / LIMB >= 0
  {
    DivMod(n, LIMB);
    MulAssoc(n / LIMB, LIMB, w);
    SumTimes((n / LIMB) * LIMB, n % LIMB, w);
  }

  /** The lower 32 bits, and what is above them. */
  function Lo(n: nat): nat {
    n % LIMB
  }

  function Hi(n: nat): nat {
    n / LIMB
  }

  /** Shifts of a single limb. */
  function Shl(x: nat, n: nat): nat {
    Lo(x * Pow2(n))
  }

  function Shr(x: nat, n: nat): nat {
    QuotientBound(x, Pow2(n));
    x / Pow2(n)
  }

  /** A product of two limbs and what is added to it. */
  function MulAdd(carry: nat, y: nat, x: nat, z: nat): nat {
    carry + y + x * z
  }

  // ---- Storing a limb ----

  /** Writing limb i leaves the lower ones, and gives the prefix its new value. */
  lemma Store(s: seq<nat>, i: nat, x: nat)
    requires i < |s|
    ensures Val(s[i := x][..i]) == Val(s[..i]) && Val(s[i := x][..i + 1]) == Val(s[..i]) + x * Weight(i)
    ensures s[i := x][i + 1..] == s[i + 1..]
  {
    assert s[i := x][..i] == s[..i];
    ValNext(s[i := x], i);
  }

  lemma StoreLimb(s: seq<nat>, i: nat, x: nat)
    requires i < |s| && AllLimbs(s) && x < LIMB
    ensures AllLimbs(s[i := x])
  {
  }

  // ---- Addition ----

  lemma AddStep(u: nat, v: nat, x: nat, y: nat, r: nat, carry: nat, w: nat)
    requires r + carry * w == u + v
    ensures
      var n := carry + x + y;
      r + (n % LIMB) * w + (n / LIMB) * (LIMB * w) == (u + x * w) + (v + y * w)
  {
    LimbSplit(carry + x + y, w);
    SumTimes(carry, x + y, w);
    SumTimes(x, y, w);
  }

  // ---- Multiplication ----

  lemma MulStep(u: nat, b: nat, x: nat, r: nat, carry: nat, w: nat)
    requires r + carry * w == b * u
    ensures
      var n := carry + b * x;
      r + (n % LIMB) * w + (n / LIMB) * (LIMB * w) == b * (u + x * w)
  {
    LimbSplit(carry + b * x, w);
    SumTimes(carry, b * x, w);
    MulAssoc(b, x, w);
    SumTimes(u, x * w, b);
  }

  /** One limb of a row of the schoolbook product. */
  lemma RowStep(r: nat, s: nat, x: nat, v: nat, wj: nat, wi: nat, w: nat, y: nat, z: nat, carry: nat)
    requires w == wi * wj && r + carry * w == s + x * v * wj
    ensures
      var n := carry + y + x * z;
      r + (n % LIMB) * w + (n / LIMB) * (LIMB * w) == (s + y * w) + x * (v + z * wi) * wj
  {
    var n := carry + y + x * z;
    LimbSplit(n, w);
    SumTimes(carry + y, x * z, w);
    SumTimes(carry, y, w);
    SumTimes(v, z * wi, x);
    SumTimes(x * v, x * (z * wi), wj);
    RowProduct(x, z, wi, wj);
  }

  lemma RowProduct(x: nat, z: nat, wi: nat, wj: nat)
    ensures x * (z * wi) * wj == (x * z) * (wi * wj)
  {
    MulAssoc(x, z, wi);
    MulAssoc(x * z, wi, wj);
  }

  /** A product of two limbs, a limb and a carry fit 64 bits, and the carry stays a limb. */
  lemma ProductFits(x: nat, y: nat, a: nat, carry: nat)
    requires x < LIMB && y < LIMB && a < LIMB && carry < LIMB
    ensures carry + a + x * y < LIMB * LIMB && (carry + a + x * y) / LIMB < LIMB
  {
    ProductBound(x, y);
    QuotientLess(carry + a + x * y, LIMB, LIMB);
  }

  lemma ProductBound(x: nat, y: nat)
    requires x < LIMB && y < LIMB
    ensures x * y <= 0xffff_fffe_0000_0001
  {
    MulMono(x, 0xffff_ffff, y);
  }

  lemma QuotientLess(n: nat, d: nat, q: nat)
    requires d > 0 && n < d * q
    ensures n / d < q
  {
    DivMod(n, d);
    if n / d >= q {
      MulMono(q, n / d, d);
    }
  }

  // ---- Comparison ----

  /** The highest differing limb decides. */
  lemma {:induction false} CompareAt(s: seq<nat>, t: seq<nat>, i: nat)
    requires |s| == |t| && AllLimbs(s) && AllLimbs(t) && i < |s| && s[i] < t[i]
    requires forall k | i < k < |s| :: s[k] == t[k]
    ensures Val(s) < Val(t)
  {
    ValNext(s, i);
    ValNext(t, i);
    ValBound(s[..i]);
    MulMono(s[i] + 1, t[i], Weight(i));
    SumTimes(s[i], 1, Weight(i));
    SameAbove(s, t, i + 1);
  }

  /** Equal limbs above keep the difference of the prefixes. */
  lemma {:induction false} SameAbove(s: seq<nat>, t: seq<nat>, i: nat)
    requires |s| == |t| && i <= |s| && forall k | i <= k < |s| :: s[k] == t[k]
    ensures Val(t) - Val(s) == Val(t[..i]) - Val(s[..i])
    decreases |s| - i
  {
    if i == |s| {
      ValAll(s);
      ValAll(t);
    } else {
      SameAbove(s, t, i + 1);
      ValNext(s, i);
      ValNext(t, i);
    }
  }

  // ---- Or ----

  /** Bitwise or. */
  function Or(x: nat, y: nat): nat
    decreases x + y
  {
    if x == 0 && y == 0 then 0
    else (if x % 2 == 1 || y % 2 == 1 then 1 else 0) + 2 * Or(x / 2, y / 2)
  }

  /** Below bit s there is only x, from it only y: then or is a sum. */
  lemma {:induction false} OrIsSum(x: nat, y: nat, s: nat)
    requires x < Pow2(s)
    ensures Or(x, y * Pow2(s)) == x + y * Pow2(s)
    decreases s, y
  {
    if s == 0 {
      OrZero(y);
      assert y * Pow2(0) == y;
    } else {
      OrIsSum(x / 2, y, s - 1);
      var z := y * Pow2(s - 1);
      assert y * Pow2(s) == 2 * z by {
        MulAssoc(2, y, Pow2(s - 1));
        MulAssoc(y, 2, Pow2(s - 1));
      }
      OrDouble(x, z);
    }
  }

  lemma {:induction false} OrZero(y: nat)
    ensures Or(0, y) == y
  {
    if y > 0 {
      OrZero(y / 2);
    }
  }

  lemma OrDouble(x: nat, z: nat)
    ensures Or(x, 2 * z) == x % 2 + 2 * Or(x / 2, z)
  {
    assert (2 * z) / 2 == z && (2 * z) % 2 == 0;
  }

  // ---- Shifts ----

  /** For two powers that make up a limb, shifting up and cutting off is taking a remainder first. */
  lemma ShiftUp(x: nat, p: nat, q: nat)
    requires p > 0 && q > 0 && p * q == LIMB && x < LIMB
    ensures Lo(x * p) == (x % q) * p && Hi(x * p) == x / q && 0 <= x / q < p && x % q < q
  {
    DivMod(x, q);
    var h, l := x / q, x % q;
    assert x * p == h * LIMB + l * p by {
      SumTimes(h * q, l, p);
      MulAssoc(h, q, p);
    }
    MulLimit(l, q, p);
    QuotientBound(x, q);
    QuotientLess(x, q, p);
    DivModUnique(x * p, LIMB, h, l * p);
  }

  lemma MulLimit(l: nat, q: nat, p: nat)
    requires l < q && p > 0
    ensures l * p < q * p
  {
    MulMono(l + 1, q, p);
    SumTimes(l, 1, p);
  }

  lemma Halves(sh: nat)
    requires sh <= 32
    ensures Pow2(sh) * Pow2(32 - sh) == LIMB
  {
    Pow2Add(sh, 32 - sh);
    Pow2Limb();
  }

  /** Limb j of s shifted up by k limbs and the factor p. */
  function ShlLimb(s: seq<nat>, k: nat, p: nat, j: nat): nat
    requires j < |s|
  {
    (if j >= k then Lo(s[j - k] * p) else 0) + (if j >= k + 1 then Hi(s[j - k - 1] * p) else 0)
  }

  /** What the limbs below j of a shift up are worth: nothing below k, and a carry into limb j. */
  lemma {:induction false} ShlPrefix(s: seq<nat>, r: seq<nat>, k: nat, p: nat, j: nat)
    requires |r| == |s| && j <= |r| && forall i | 0 <= i < |r| :: r[i] == ShlLimb(s, k, p, i)
    ensures j <= k ==> Val(r[..j]) == 0
    ensures j >= k ==>
      Val(r[..j]) + (if j > k then Hi(s[j - k - 1] * p) else 0) * Weight(j) == Val(s[..j - k]) * p * Weight(k)
  {
    hide Val, Weight, Lo, Hi;
    if j == 0 {
      ValAll(r);
      ValAll(s);
    } else {
      ShlPrefix(s, r, k, p, j - 1);
      ValNext(r, j - 1);
      if j == k {
        ValAll(s);
      } else if j > k {
        var x := s[j - 1 - k];
        ValNext(s, j - 1 - k);
        WeightNext(j - 1);
        WeightAdd(j - 1 - k, k);
        LimbParts(x * p, Weight(j - 1));
        var c := if j - 1 > k then Hi(s[j - k - 2] * p) else 0;
        SumTimes(Lo(x * p), c, Weight(j - 1));
        ShlSum(Val(s[..j - 1 - k]), x, Weight(j - 1 - k), p, Weight(k), Weight(j - 1));
      }
    }
  }

  lemma LimbParts(n: nat, w: nat)
    ensures Lo(n) * w + Hi(n) * (LIMB * w) == n * w && Lo(n) < LIMB
  {
    LimbSplit(n, w);
  }

  lemma ShlSum(v: nat, x: nat, u: nat, p: nat, w: nat, uw: nat)
    requires uw == u * w
    ensures (v + x * u) * p * w == v * p * w + x * p * uw
  {
    SumTimes(v, x * u, p);
    SumTimes(v * p, x * u * p, w);
    MulAssoc(x * p, u, w);
    Swap3(x, u, p);
  }

  lemma Swap3(x: nat, y: nat, z: nat)
    ensures x * y * z == x * z * y
  {
    MulAssoc(x, y, z);
    MulAssoc(x, z, y);
  }

  lemma {:induction false} ShlValue(s: seq<nat>, r: seq<nat>, k: nat, p: nat)
    requires |r| == |s| && AllLimbs(r) && forall i | 0 <= i < |r| :: r[i] == ShlLimb(s, k, p, i)
    ensures Val(r) == (Val(s) * p * Weight(k)) % Weight(|r|)
  {
    hide Val, Weight, Lo, Hi, ShlLimb;
    var n := |r|;
    ValAll(r);
    ValBound(r);
    ShlPrefix(s, r, k, p, n);
    if k > n {
      WeightAdd(k - n, n);
      MulAssoc(Val(s) * p, Weight(k - n), Weight(n));
      ModIs(0, Val(s) * p * Weight(k - n), Weight(n), Val(s) * p * Weight(k));
    } else {
      ValSplit(s, n - k);
      WeightAdd(n - k, k);
      var c := if n > k then Hi(s[n - k - 1] * p) else 0;
      var high := Val(s[n - k..]);
      ShlSum(Val(s[..n - k]), high, Weight(n - k), p, Weight(k), Weight(n));
      SumTimes(c, high * p, Weight(n));
      ModIs(Val(r), c + high * p, Weight(n), Val(s) * p * Weight(k));
    }
  }

  /** Limb j of s shifted down by k limbs and the factor p, where p * q is a limb. */
  function ShrLimb(s: seq<nat>, k: nat, p: nat, q: nat, j: nat): nat
    requires p > 0 && j < |s|
  {
    (if j + k < |s| then s[j + k] / p else 0) + (if j + k + 1 < |s| then (s[j + k + 1] % p) * q else 0)
  }

  /** Multiplied back, the limbs below j miss only what fell off the low end and add what limb j + k lends. */
  lemma {:induction false} ShrPrefix(s: seq<nat>, r: seq<nat>, k: nat, p: nat, q: nat, j: nat)
    requires p > 0 && p * q == LIMB && |r| == |s| && k < |s| && k + j <= |s|
    requires forall i | 0 <= i < |r| :: r[i] == ShrLimb(s, k, p, q, i)
    ensures Val(r[..j]) * p + s[k] % p ==
      Val(s[k..][..j]) + (if k + j < |s| then (s[k + j] % p) * Weight(j) else 0)
  {
    hide Val, Weight;
    if j == 0 {
      ValAll(r);
      ValAll(s[k..]);
      WeightNext(0);
    } else {
      var i := j - 1;
      ShrPrefix(s, r, k, p, q, i);
      ValNext(r, i);
      ValNext(s[k..], i);
      WeightNext(i);
      var next := if k + j < |s| then s[k + j] % p else 0;
      ShrSum(s[k + i], p, q, next, Weight(i), Val(r[..i]));
    }
  }

  lemma ShrSum(x: nat, p: nat, q: nat, next: nat, w: nat, v: nat)
    requires p > 0 && p * q == LIMB
    ensures (v + (x / p + next * q) * w) * p == v * p + (x - x % p) * w + next * (LIMB * w)
  {
    DivMod(x, p);
    SumTimes(v, (x / p + next * q) * w, p);
    SumTimes(x / p, next * q, w);
    SumTimes((x / p) * w, next * q * w, p);
    Swap3(x / p, w, p);
    Swap3(next * q, w, p);
    MulAssoc(next, q, p);
    MulAssoc(next, LIMB, w);
  }

  lemma {:induction false} ShrValue(s: seq<nat>, r: seq<nat>, k: nat, p: nat, q: nat)
    requires p > 0 && p * q == LIMB && |r| == |s| && AllLimbs(s)
    requires forall i | 0 <= i < |r| :: r[i] == ShrLimb(s, k, p, q, i)
    ensures Val(r) == Val(s) / (p * Weight(k))
  {
    hide Val, Weight;
    var n := |s|;
    ValBound(s);
    if k >= n {
      ZeroVal(r);
      WeightAdd(k - n, n);
      Vanishes(Val(s), p, Weight(k - n), Weight(n), Weight(k));
    } else {
      ShrPrefix(s, r, k, p, q, n - k);
      ValSplit(r, n - k);
      ZeroVal(r[n - k..]);
      ValAll(s[k..]);
      ValSplit(s, k);
      ValBound(s[..k]);
      DivMod(s[k], p);
      ShrQuotient(Val(s), Val(s[..k]), Val(s[k..]), Val(r), s[k] % p, p, Weight(k));
    }
  }

  lemma {:induction false} ZeroVal(s: seq<nat>)
    requires forall i | 0 <= i < |s| :: s[i] == 0
    ensures Val(s) == 0
  {
    if s != [] {
      ZeroVal(s[..|s| - 1]);
    }
  }

  lemma Vanishes(v: nat, p: nat, u: nat, w: nat, wu: nat)
    requires v < w && p > 0 && u > 0 && wu == u * w
    ensures v / (p * wu) == 0
  {
    MulAtLeast(w, u);
    MulAtLeast(wu, p);
    DivModUnique(v, p * wu, 0, v);
  }

  lemma ShrQuotient(v: nat, low: nat, high: nat, r: nat, rest: nat, p: nat, w: nat)
    requires v == low + high * w && low < w && high == r * p + rest && rest < p && w > 0
    ensures v / (p * w) == r
  {
    SumTimes(r * p, rest, w);
    MulAssoc(r, p, w);
    MulLimit(rest, p, w);
    MulMono(rest + 1, p, w);
    SumTimes(rest, 1, w);
    DivModUnique(v, p * w, r, rest * w + low);
  }
}
