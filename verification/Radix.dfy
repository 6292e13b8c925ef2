/** Numbers as digit sequences, most significant digit first. */
module Radix {
  import opened IntMath

  function Pow(base: nat, n: nat): nat {
    if n == 0 then 1 else base * Pow(base, n - 1)
  }

  lemma {:induction false} PowPositive(base: nat, n: nat)
    requires base > 0
    ensures Pow(base, n) > 0
  {
    if n > 0 {
      PowPositive(base, n - 1);
      MulPositive(base, Pow(base, n - 1));
    }
  }

  lemma MulPositive(a: nat, b: nat)
    requires a > 0 && b > 0
    ensures a * b > 0
  {
  }

  lemma {:induction false} PowAdd(base: nat, m: nat, n: nat)
    ensures Pow(base, m + n) == Pow(base, m) * Pow(base, n)
  {
    if m > 0 {
      PowAdd(base, m - 1, n);
      assert m + n - 1 == m - 1 + n;
      MulAssoc(base, Pow(base, m - 1), Pow(base, n));
    }
  }

  lemma MulBoth(a: nat, b: nat, c: nat, d: nat)
    requires a <= b && c <= d
    ensures a * c <= b * d
  {
    assert a * c <= b * c;
    assert b * c <= b * d;
  }

  lemma {:induction false} PowMono(base: nat, m: nat, n: nat)
    requires base > 0 && m <= n
    ensures Pow(base, m) <= Pow(base, n)
  {
    if m < n {
      PowMono(base, m, n - 1);
      MulAtLeast(Pow(base, n - 1), base);
    }
  }

  /** From one comparison of powers, all multiples of it. */
  lemma {:induction false} PowScale(a: nat, m: nat, b: nat, n: nat, q: nat)
    requires Pow(a, m) <= Pow(b, n)
    ensures Pow(a, m * q) <= Pow(b, n * q)
  {
    if q > 0 {
      PowScale(a, m, b, n, q - 1);
      PowAdd(a, m, m * (q - 1));
      PowAdd(b, n, n * (q - 1));
      assert m + m * (q - 1) == m * q && n + n * (q - 1) == n * q;
      MulBoth(Pow(a, m), Pow(b, n), Pow(a, m * (q - 1)), Pow(b, n * (q - 1)));
    }
  }

  predicate AllBelow(base: nat, s: seq<nat>) {
    forall i | 0 <= i < |s| :: s[i] < base
  }

  function FromDigits(base: nat, s: seq<nat>): nat {
    if s == [] then 0 else FromDigits(base, s[..|s| - 1]) * base + s[|s| - 1]
  }

  /** No leading zero. */
  predicate Significant(s: seq<nat>) {
    s == [] || s[0] != 0
  }

  function ToDigits(base: nat, n: nat): (s: seq<nat>)
    requires base > 1
    decreases n
  {
    if n == 0 then [] else QuotientSmaller(n, base); ToDigits(base, n / base) + [n % base]
  }

  lemma QuotientSmaller(n: nat, d: nat)
    requires n > 0 && d > 1
    ensures 0 <= n / d < n
  {
    DivMod(n, d);
    QuotientBound(n, d);
    MulBoth(n / d, n / d, 2, d);
  }

  lemma {:induction false} ToDigitsOk(base: nat, n: nat)
    requires base > 1
    ensures AllBelow(base, ToDigits(base, n)) && Significant(ToDigits(base, n))
    ensures FromDigits(base, ToDigits(base, n)) == n
    ensures ToDigits(base, n) == [] <==> n == 0
    decreases n
  {
    if n > 0 {
      QuotientSmaller(n, base);
      ToDigitsOk(base, n / base);
      DivMod(n, base);
      var s := ToDigits(base, n);
      assert s[..|s| - 1] == ToDigits(base, n / base);
      if n / base == 0 {
        assert s == [n % base];
      }
    }
  }

  /** Digits without a leading zero are the digits of their value. */
  lemma {:induction false} DigitsUnique(base: nat, s: seq<nat>)
    requires base > 1 && AllBelow(base, s) && Significant(s)
    ensures ToDigits(base, FromDigits(base, s)) == s
    ensures s != [] ==> FromDigits(base, s) > 0
  {
    if s != [] {
      var rest, d := s[..|s| - 1], s[|s| - 1];
      DigitsUnique(base, rest);
      var v := FromDigits(base, rest);
      DivModUnique(v * base + d, base, v, d);
      if rest != [] {
        MulPositive(v, base);
      }
      assert s == rest + [d];
    }
  }

  lemma {:induction false} DigitsBound(base: nat, s: seq<nat>)
    requires base > 0 && AllBelow(base, s)
    ensures FromDigits(base, s) < Pow(base, |s|)
  {
    if s != [] {
      var rest := s[..|s| - 1];
      DigitsBound(base, rest);
      BelowNext(FromDigits(base, rest), Pow(base, |rest|), base, s[|s| - 1]);
    }
  }

  lemma BelowNext(v: nat, p: nat, base: nat, d: nat)
    requires v < p && d < base
    ensures v * base + d < base * p
  {
    MulBoth(v + 1, p, base, base);
    assert (v + 1) * base == v * base + base;
  }

  /** A digit put in front counts base^length times. */
  lemma {:induction false} DigitInFront(base: nat, d: nat, s: seq<nat>)
    ensures FromDigits(base, [d] + s) == d * Pow(base, |s|) + FromDigits(base, s)
  {
    if s == [] {
      assert [d] + s == [d] && [d][..0] == [];
      assert FromDigits(base, [d]) == FromDigits(base, []) * base + d;
    } else {
      var rest, x := s[..|s| - 1], s[|s| - 1];
      DigitInFront(base, d, rest);
      assert ([d] + s)[..|s|] == [d] + rest;
      Distribute(d, Pow(base, |rest|), FromDigits(base, rest), base);
    }
  }

  lemma Distribute(d: nat, p: nat, v: nat, base: nat)
    ensures (d * p + v) * base == d * (base * p) + v * base
  {
    assert (d * p) * base == d * (base * p) by {
      MulAssoc(d, p, base);
      assert p * base == base * p;
    }
  }

  lemma {:induction false} LeadingZeros(base: nat, z: nat, s: seq<nat>)
    ensures FromDigits(base, Zeros(z) + s) == FromDigits(base, s)
  {
    if z == 0 {
      assert Zeros(0) + s == s;
    } else {
      LeadingZeros(base, z - 1, s);
      DigitInFront(base, 0, Zeros(z - 1) + s);
      assert Zeros(z) + s == [0] + (Zeros(z - 1) + s);
    }
  }

  function Zeros(n: nat): (s: seq<nat>)
    ensures |s| == n && forall i | 0 <= i < n :: s[i] == 0
  {
    seq(n, _ => 0)
  }

  /** How many zeros a sequence starts with. */
  function LeadingCount(s: seq<nat>): (z: nat)
    ensures z <= |s| && s[..z] == Zeros(z) && Significant(s[z..])
  {
    if s == [] || s[0] != 0 then 0
    else
      var z := LeadingCount(s[1..]);
      assert s[..z + 1] == [s[0]] + s[1..][..z];
      assert s[z + 1..] == s[1..][z..];
      z + 1
  }

  lemma {:induction false} LeadingIs(s: seq<nat>, z: nat)
    requires z <= |s| && s[..z] == Zeros(z) && Significant(s[z..])
    ensures LeadingCount(s) == z
  {
    if z == 0 {
      assert s[0..] == s;
    } else {
      assert s[0] == s[..z][0];
      assert s[1..][..z - 1] == s[..z][1..] && s[1..][z - 1..] == s[z..];
      LeadingIs(s[1..], z - 1);
    }
  }

  /** A larger number has no fewer digits. */
  lemma {:induction false} DigitsMono(base: nat, m: nat, n: nat)
    requires base > 1 && m <= n
    ensures |ToDigits(base, m)| <= |ToDigits(base, n)|
    decreases n
  {
    if m > 0 {
      QuotientSmaller(n, base);
      QuotientSmaller(m, base);
      DivMono(m, n, base);
      DigitsMono(base, m / base, n / base);
    }
  }

  lemma DivMono(m: nat, n: nat, d: nat)
    requires d > 0 && m <= n
    ensures m / d <= n / d
  {
    DivMod(m, d);
    DivMod(n, d);
    assert (n / d + 1) * d == (n / d) * d + d;
    MulLess(m / d, n / d + 1, d);
  }

  // ---- Multiplying a digit buffer in place ----

  /** The buffer's lowest `length` digits are in use and the highest of them is not zero. */
  ghost predicate Buffer(base: nat, s: seq<nat>, length: nat) {
    && AllBelow(base, s) && length <= |s|
    && (forall k | 0 <= k < |s| - length :: s[k] == 0)
    && (length > 0 ==> s[|s| - length] != 0)
  }

  /** The digits in use are those of the buffer's value. */
  lemma BufferDigits(base: nat, s: seq<nat>, length: nat)
    requires base > 1 && Buffer(base, s, length)
    ensures s[|s| - length..] == ToDigits(base, FromDigits(base, s))
  {
    var used := s[|s| - length..];
    assert s == Zeros(|s| - length) + used;
    LeadingZeros(base, |s| - length, used);
    DigitsUnique(base, used);
  }

  /** One digit of the loop below. */
  lemma CarryStep(base: nat, factor: nat, c: nat, old_: seq<nat>, new_: seq<nat>, d: nat, carry: nat)
    requires base > 0 && |old_| == |new_|
    requires FromDigits(base, new_) + carry * Pow(base, |new_|) == factor * FromDigits(base, old_) + c
    ensures
      var total := carry + factor * d;
      FromDigits(base, [total % base] + new_) + (total / base) * Pow(base, |new_| + 1) ==
        factor * FromDigits(base, [d] + old_) + c
  {
    hide FromDigits;
    var total := carry + factor * d;
    DigitInFront(base, total % base, new_);
    DigitInFront(base, d, old_);
    CarrySums(base, factor, c, FromDigits(base, old_), FromDigits(base, new_), Pow(base, |new_|), d, carry);
  }

  lemma CarrySums(base: nat, factor: nat, c: nat, u: nat, v: nat, p: nat, d: nat, carry: nat)
    requires base > 0 && v + carry * p == factor * u + c
    ensures
      var total := carry + factor * d;
      (total % base) * p + v + (total / base) * (base * p) == factor * (d * p + u) + c
  {
    var total := carry + factor * d;
    SplitTotal(total, base, p);
    SumTimes(carry, factor * d, p);
    MulAssoc(factor, d, p);
    SumTimes(d * p, u, factor);
  }

  lemma SplitTotal(total: nat, base: nat, p: nat)
    requires base > 0
    ensures (total % base) * p + (total / base) * (base * p) == total * p
  {
    DivMod(total, base);
    MulAssoc(total / base, base, p);
    SumTimes((total / base) * base, total % base, p);
  }

  /** The digit at a step that ends the carry, at or above the old length, is not zero. */
  lemma TopDigit(base: nat, factor: nat, d: nat, carry: nat)
    requires base > 0 && factor > 0 && (carry > 0 || d > 0) && (carry + factor * d) / base == 0
    ensures (carry + factor * d) % base > 0
  {
    DivMod(carry + factor * d, base);
    if d > 0 {
      MulAtLeast(factor, d);
    }
  }

  /** Writing one digit below the unchanged part. */
  lemma WriteDigit(s: seq<nat>, old_: seq<nat>, k: nat, x: nat)
    requires |s| == |old_| && k < |s| && s[..k + 1] == old_[..k + 1]
    ensures s[k] == old_[k]
    ensures s[k := x][k..] == [x] + s[k + 1..] && old_[k..] == [old_[k]] + old_[k + 1..] && s[k := x][..k] == old_[..k]
  {
    assert s[k] == s[..k + 1][k] == old_[k];
    forall j | 0 <= j < k
      ensures s[j] == old_[j]
    {
      assert s[j] == s[..k + 1][j] == old_[..k + 1][j];
    }
  }

  function Low(n: nat, base: nat): nat
    requires base > 0
  {
    n % base
  }

  lemma WriteBelow(base: nat, s: seq<nat>, k: nat, total: nat)
    requires base > 0 && AllBelow(base, s) && k < |s|
    ensures AllBelow(base, s[k := Low(total, base)])
  {
    DivMod(total, base);
  }

  /** What the loop keeps: the lowest i digits and the carry hold factor times the old ones plus c. */
  ghost predicate Carried(base: nat, factor: nat, c: nat, old_: seq<nat>, s: seq<nat>, i: nat, carry: nat) {
    && |s| == |old_| && i <= |s| && s[..|s| - i] == old_[..|s| - i] && AllBelow(base, s)
    && FromDigits(base, s[|s| - i..]) + carry * Pow(base, i) == factor * FromDigits(base, old_[|s| - i..]) + c
  }

  lemma CarriedNext(base: nat, factor: nat, c: nat, old_: seq<nat>, s: seq<nat>, i: nat, carry: nat)
    requires base > 0 && Carried(base, factor, c, old_, s, i, carry) && i < |s|
    ensures
      var k := |s| - 1 - i;
      var total := carry + factor * s[k];
      s[k] == old_[k] && Carried(base, factor, c, old_, s[k := Low(total, base)], i + 1, total / base)
  {
    hide FromDigits, Pow;
    var k := |s| - 1 - i;
    var total := carry + factor * s[k];
    WriteDigit(s, old_, k, Low(total, base));
    WriteBelow(base, s, k, total);
    CarryStep(base, factor, c, old_[k + 1..], s[k + 1..], s[k], carry);
  }

  /** Replace the buffer's value v by factor * v + c, from the lowest digit up; the result fits, so no carry is left. */
  method MulAdd(a: array<nat>, base: nat, factor: nat, c: nat, length: nat) returns (i: nat)
    requires base > 1 && factor > 0 && Buffer(base, a[..], length)
    requires factor * FromDigits(base, a[..]) + c < Pow(base, a.Length)
    modifies a
    ensures Buffer(base, a[..], i) && length <= i
    ensures FromDigits(base, a[..]) == factor * FromDigits(base, old(a[..])) + c
  {
    hide FromDigits, Pow, Carried;
    var carry: nat := c;
    i := 0;
    ghost var old_ := a[..];
    CarryBegins(base, factor, c, old_);
    while (carry != 0 || i < length) && i < a.Length
      invariant 0 <= i <= a.Length && Carried(base, factor, c, old_, a[..], i, carry)
      invariant i >= length && i > 0 && carry == 0 ==> a[a.Length - i] != 0
    {
      CarriedNext(base, factor, c, old_, a[..], i, carry);
      var k := a.Length - 1 - i;
      if (carry + factor * a[k]) / base == 0 && (carry > 0 || a[k] > 0) {
        TopDigit(base, factor, a[k], carry);
      }
      ghost var s := a[..];
      carry := carry + factor * a[k];
      QuotientBound(carry, base);
      a[k] := carry % base;
      assert a[..] == s[k := a[k]];
      carry := carry / base;
      i := i + 1;
    }
    MulAddEnds(base, factor, c, old_, a[..], i, carry, length);
    assert carry == 0;
  }

  lemma CarryBegins(base: nat, factor: nat, c: nat, s: seq<nat>)
    requires AllBelow(base, s)
    ensures Carried(base, factor, c, s, s, 0, c)
  {
    assert s[|s|..] == [];
  }

  lemma MulAddEnds(base: nat, factor: nat, c: nat, old_: seq<nat>, s: seq<nat>, i: nat, carry: nat, length: nat)
    requires base > 1 && Buffer(base, old_, length) && Carried(base, factor, c, old_, s, i, carry)
    requires factor * FromDigits(base, old_) + c < Pow(base, |s|)
    requires (carry == 0 && i >= length) || i == |s|
    ensures carry == 0 && FromDigits(base, s) == factor * FromDigits(base, old_) + c
    ensures AllBelow(base, s) && forall k | 0 <= k < |s| - i :: s[k] == 0
  {
    hide FromDigits, Pow;
    if i == |s| {
      assert s[0..] == s && old_[0..] == old_;
      NoCarry(FromDigits(base, s), carry, Pow(base, |s|), factor * FromDigits(base, old_) + c);
    } else {
      HighZeros(base, old_, s, i, length);
    }
  }

  lemma NoCarry(v: nat, carry: nat, p: nat, total: int)
    requires v + carry * p == total < p
    ensures carry == 0 && v == total
  {
    BelowOne(p, carry);
  }

  lemma HighZeros(base: nat, old_: seq<nat>, s: seq<nat>, i: nat, length: nat)
    requires Buffer(base, old_, length) && length <= i <= |s| == |old_| && s[..|s| - i] == old_[..|s| - i]
    ensures FromDigits(base, s) == FromDigits(base, s[|s| - i..])
    ensures FromDigits(base, old_) == FromDigits(base, old_[|s| - i..])
    ensures forall k | 0 <= k < |s| - i :: s[k] == 0
  {
    hide FromDigits;
    var n := |s| - i;
    forall k | 0 <= k < n
      ensures s[k] == 0 && old_[k] == 0
    {
      assert s[k] == s[..n][k] == old_[..n][k];
    }
    assert s == Zeros(n) + s[n..] && old_ == Zeros(n) + old_[n..];
    LeadingZeros(base, n, s[n..]);
    LeadingZeros(base, n, old_[n..]);
  }
}
