/** The element e of GF(1024) has period 1023. */
module Bech32Period {
  import opened Bech32Field
  import opened Bech32Powers

  // ---- The field ----

  /** Multiplication by the generator of GF(32): shift, and reduce by a^5 + a^3 + 1. */
  function Double(x: bv5): bv5 {
    (x << 1) ^ (if x & 16 != 0 then 9 else 0)
  }

  /** Multiplication by e: the low half becomes 23 times the high one, the high half 9 times itself plus the low one. */
  function TimesE(v: bv10): bv10 {
    var v0, v1 := (v & 31) as bv5, (v >> 5) as bv5;
    var v2, v4, v8 := Double(v1), Double(Double(v1)), Double(Double(Double(v1)));
    var low, high := Double(v8) ^ v4 ^ v2 ^ v1, v8 ^ v1 ^ v0;
    ((high as bv10) << 5) | (low as bv10)
  }

  lemma EIsTimesE(v: bv10)
    ensures Apply(E1, v) == TimesE(v)
  {
  }

  // ---- The period of e ----

  ghost predicate Fixed(n: nat, v: bv10) {
    Iter(E1, n, v) == v
  }

  lemma IterProduct(i: nat, j: nat, a: Linear, b: Linear, c: Linear, v: bv10)
    requires Iter(E1, j, v) == Apply(b, v) && Iter(E1, i, Apply(b, v)) == Apply(a, Apply(b, v)) && Compose(a, b) == c
    ensures Iter(E1, i + j, v) == Apply(c, v)
  {
    hide Apply, Compose;
    IterSum(E1, i, j, v);
    Composed(a, b, v);
  }

  /** A map does what so many steps of e do. */
  ghost predicate IsPower(n: nat, m: Linear) {
    forall v: bv10 :: Iter(E1, n, v) == Apply(m, v)
  }

  lemma PowerProduct(i: nat, j: nat, a: Linear, b: Linear, c: Linear)
    requires IsPower(i, a) && IsPower(j, b) && Compose(a, b) == c
    ensures IsPower(i + j, c)
  {
    hide Apply, Compose, Iter;
    forall v: bv10
      ensures Iter(E1, i + j, v) == Apply(c, v)
    {
      IterProduct(i, j, a, b, c, v);
    }
  }

  lemma FirstPower()
    ensures IsPower(1, E1)
  {
    hide Apply;
    forall v: bv10
      ensures Iter(E1, 1, v) == Apply(E1, v)
    {
      assert Iter(E1, 0, v) == v;
    }
  }

  lemma Powers()
    ensures IsPower(33, E33) && IsPower(93, E93) && IsPower(341, E341) && IsPower(1023, ONE) && IsPower(26, E26)
  {
    hide Compose, IsPower;
    Products();
    FirstPower();
    PowerProduct(1, 1, E1, E1, E2);
    PowerProduct(2, 2, E2, E2, E4);
    PowerProduct(4, 4, E4, E4, E8);
    PowerProduct(8, 8, E8, E8, E16);
    PowerProduct(8, 16, E8, E16, E24);
    PowerProduct(2, 24, E2, E24, E26);
    PowerProduct(16, 16, E16, E16, E32);
    PowerProduct(1, 32, E1, E32, E33);
    PowerProduct(32, 33, E32, E33, E65);
    PowerProduct(16, 65, E16, E65, E81);
    PowerProduct(8, 81, E8, E81, E89);
    PowerProduct(4, 89, E4, E89, E93);
    PowerProduct(81, 89, E81, E89, E170);
    PowerProduct(170, 170, E170, E170, E340);
    PowerProduct(1, 340, E1, E340, E341);
    PowerProduct(341, 341, E341, E341, E682);
    PowerProduct(341, 682, E341, E682, ONE);
  }

  lemma {:induction false} FixedMultiple(n: nat, s: nat, v: bv10)
    requires Fixed(n, v)
    ensures Fixed(s * n, v)
  {
    hide Apply, Iter;
    if s == 0 {
      NoSteps(v);
    } else {
      FixedMultiple(n, s - 1, v);
      assert (s - 1) * n >= 0 && s * n == n + (s - 1) * n;
      IterSum(E1, n, (s - 1) * n, v);
    }
  }

  lemma NoSteps(v: bv10)
    ensures Iter(E1, 0, v) == v
  {
  }

  lemma Fixed1023(v: bv10)
    ensures Fixed(1023, v)
  {
    hide Apply, Iter;
    Powers();
    EKeepsNonzero(v);
  }

  /** Whole periods may be left out. */
  lemma FixedRest(w: nat, r: nat, v: bv10)
    requires Fixed(1023 * w + r, v)
    ensures Fixed(r, v)
  {
    hide Apply, Iter;
    Fixed1023(v);
    FixedMultiple(1023, w, v);
    assert w * 1023 == 1023 * w;
    IterSum(E1, r, 1023 * w, v);
    assert r + 1023 * w == 1023 * w + r;
  }

  /** For a prime p that does not divide n, e^n in place means e^(1023 / p) in place. */
  lemma FixedPart(n: nat, u: nat, w: nat, p: nat, q: nat, v: bv10)
    requires Fixed(n, v) && p * q == 1023 && u * n == p * w + 1
    ensures Fixed(q, v)
  {
    hide Fixed;
    FixedMultiple(n, u * q, v);
    assert (u * q) * n == 1023 * w + q by {
      assert (u * q) * n == q * (u * n);
      assert q * (p * w + 1) == (p * q) * w + q;
    }
    FixedRest(w, q, v);
  }

  lemma Inverse11(r: nat) returns (u: nat)
    requires 0 < r < 11
    ensures (r * u) % 11 == 1
  {
    u := [0, 1, 6, 4, 3, 9, 2, 8, 7, 5, 10][r];
  }

  lemma Inverse31(r: nat) returns (u: nat)
    requires 0 < r < 31
    ensures (r * u) % 31 == 1
  {
    u := [0, 1, 16, 21, 8, 25, 26, 9, 4, 7, 28, 17, 13, 12, 20, 29, 2, 11, 19, 18, 14, 3, 24, 27, 22, 5, 6, 23, 10, 15,
          30][r];
  }

  lemma InverseOf(n: nat, r: nat, u: nat, p: nat) returns (w: nat)
    requires p > 0 && n % p == r && (r * u) % p == 1
    ensures u * n == p * w + 1
  {
    var a, b := n / p, (r * u) / p;
    w := a * u + b;
    assert n == p * a + r && r * u == p * b + 1;
    assert u * n == p * (a * u) + r * u;
  }

  /** Below 1023 = 3 * 11 * 31, one of the three does not divide. */
  lemma SomeDoesNot(n: nat)
    requires 0 < n < 1023
    ensures n % 3 != 0 || n % 11 != 0 || n % 31 != 0
  {
    if n % 3 == 0 && n % 11 == 0 {
      var a := n / 3;
      assert a % 11 == 0;
      var b := a / 11;
      assert n == 33 * b && 0 < b < 31;
      assert n == 31 * b + 2 * b;
    }
  }

  lemma NotByThree(n: nat, v: bv10)
    requires n % 3 != 0 && Fixed(n, v)
    ensures v == 0
  {
    hide Apply, Iter;
    Powers();
    var w := InverseOf(n, n % 3, n % 3, 3);
    FixedPart(n, n % 3, w, 3, 341, v);
    Moves341(v);
  }

  lemma NotByEleven(n: nat, v: bv10)
    requires n % 11 != 0 && Fixed(n, v)
    ensures v == 0
  {
    hide Apply, Iter;
    Powers();
    var u := Inverse11(n % 11);
    var w := InverseOf(n, n % 11, u, 11);
    FixedPart(n, u, w, 11, 93, v);
    Moves93(v);
  }

  lemma NotByThirtyOne(n: nat, v: bv10)
    requires n % 31 != 0 && Fixed(n, v)
    ensures v == 0
  {
    hide Apply, Iter;
    Powers();
    var u := Inverse31(n % 31);
    var w := InverseOf(n, n % 31, u, 31);
    FixedPart(n, u, w, 31, 33, v);
    Moves33(v);
  }

  /** Fewer than 1023 steps leave only zero in place. */
  lemma PeriodIs1023(n: nat, v: bv10)
    requires 0 < n < 1023 && Fixed(n, v)
    ensures v == 0
  {
    hide Fixed;
    SomeDoesNot(n);
    if n % 3 != 0 {
      NotByThree(n, v);
    } else if n % 11 != 0 {
      NotByEleven(n, v);
    } else {
      NotByThirtyOne(n, v);
    }
  }

  /** The three roots of the generator are e^997, e^998 and e^999. */
  lemma RootsArePowers()
    ensures IsPower(997, P997) && IsPower(998, P998) && IsPower(999, P999)
  {
    hide Apply, Iter, Compose;
    Powers();
    Products();
    forall v: bv10
      ensures Iter(E1, 997, v) == Apply(P997, v)
    {
      IterSum(E1, 26, 997, v);
      EKeepsNonzero(v);
      EKeepsNonzero(Iter(E1, 997, v));
      Composed(P997, E26, Iter(E1, 997, v));
    }
    FirstPower();
    PowerProduct(1, 997, E1, P997, P998);
    PowerProduct(1, 998, E1, P998, P999);
  }
}
