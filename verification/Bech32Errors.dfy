/**
  Any three errors within 1023 places change the checksum: the generator has three consecutive powers of e as roots.
 */
module Bech32Errors {
  import opened Bech32Code
  import opened Bech32Field
  import opened Bech32Powers
  import opened Bech32Period

  // ---- Values of polynomials ----

  function Embed(x: bv5): bv10 {
    x as bv10
  }

  /** Multiply by the element where the polynomial is evaluated, and add the next coefficient. */
  function Next(m: Linear, s: bv10, x: bv5): bv10 {
    Add(Apply(m, s), Embed(x))
  }

  function Eval(m: Linear, s: bv10, xs: seq<bv5>): bv10 {
    if xs == [] then s else Next(m, Eval(m, s, xs[..|xs| - 1]), xs[|xs| - 1])
  }

  lemma EmbedXor(x: bv5, y: bv5)
    ensures Embed(Xor5(x, y)) == Add(Embed(x), Embed(y)) && Embed(0) == 0 && (Embed(x) == 0 ==> x == 0)
  {
  }

  lemma {:induction false} EvalLinear(m: Linear, s: bv10, xs: seq<bv5>, t: bv10, ys: seq<bv5>)
    requires |xs| == |ys|
    ensures Eval(m, Add(s, t), XorAll(xs, ys)) == Add(Eval(m, s, xs), Eval(m, t, ys))
  {
    hide Apply, Add, Xor5, Embed;
    if xs != [] {
      var n := |xs| - 1;
      EvalLinear(m, s, xs[..n], t, ys[..n]);
      assert XorAll(xs, ys)[..n] == XorAll(xs[..n], ys[..n]);
      var a, b := Eval(m, s, xs[..n]), Eval(m, t, ys[..n]);
      ApplyLinear(m, a, b);
      EmbedXor(xs[n], ys[n]);
      AddRegroup(Apply(m, a), Apply(m, b), Embed(xs[n]), Embed(ys[n]));
    }
  }

  lemma {:induction false} EvalAppend(m: Linear, s: bv10, xs: seq<bv5>, ys: seq<bv5>)
    ensures Eval(m, s, xs + ys) == Eval(m, Eval(m, s, xs), ys)
  {
    hide Next;
    if ys == [] {
      assert xs + ys == xs;
    } else {
      var n := |ys| - 1;
      EvalAppend(m, s, xs, ys[..n]);
      assert (xs + ys)[..|xs| + n] == xs + ys[..n];
    }
  }

  lemma {:induction false} EvalZeros(m: Linear, s: bv10, n: nat)
    ensures Eval(m, s, Zeros(n)) == Iter(m, n, s)
  {
    hide Apply, Add, Embed;
    if n > 0 {
      EvalZeros(m, s, n - 1);
      assert Zeros(n)[..n - 1] == Zeros(n - 1);
      EmbedXor(0, 0);
      AddZero(Apply(m, Iter(m, n - 1, s)));
    }
  }

  // ---- Values of remainders ----

  /** The value of a remainder. */
  function Value(m: Linear, c: bv32): bv10 {
    Eval(m, 0, Groups(c))
  }

  function G0(c: bv32): bv5 {
    ((c >> 25) & 31) as bv5
  }

  function G1(c: bv32): bv5 {
    ((c >> 20) & 31) as bv5
  }

  function G2(c: bv32): bv5 {
    ((c >> 15) & 31) as bv5
  }

  function G3(c: bv32): bv5 {
    ((c >> 10) & 31) as bv5
  }

  function G4(c: bv32): bv5 {
    ((c >> 5) & 31) as bv5
  }

  function G5(c: bv32): bv5 {
    (c & 31) as bv5
  }

  lemma GroupsAre(c: bv32)
    ensures Groups(c) == [G0(c), G1(c), G2(c), G3(c), G4(c), G5(c)]
  {
  }

  lemma G0Xor(a: bv32, b: bv32)
    ensures G0(Xor(a, b)) == Xor5(G0(a), G0(b))
  {
  }

  lemma G1Xor(a: bv32, b: bv32)
    ensures G1(Xor(a, b)) == Xor5(G1(a), G1(b))
  {
  }

  lemma G2Xor(a: bv32, b: bv32)
    ensures G2(Xor(a, b)) == Xor5(G2(a), G2(b))
  {
  }

  lemma G3Xor(a: bv32, b: bv32)
    ensures G3(Xor(a, b)) == Xor5(G3(a), G3(b))
  {
  }

  lemma G4Xor(a: bv32, b: bv32)
    ensures G4(Xor(a, b)) == Xor5(G4(a), G4(b))
  {
  }

  lemma G5Xor(a: bv32, b: bv32)
    ensures G5(Xor(a, b)) == Xor5(G5(a), G5(b))
  {
  }

  lemma GroupXor(a: bv32, b: bv32, k: nat)
    requires k < 6
    ensures Groups(Xor(a, b))[k] == Xor5(Groups(a)[k], Groups(b)[k])
  {
    hide Groups, Xor, Xor5, G0, G1, G2, G3, G4, G5;
    GroupsAre(a);
    GroupsAre(b);
    GroupsAre(Xor(a, b));
    G0Xor(a, b);
    G1Xor(a, b);
    G2Xor(a, b);
    G3Xor(a, b);
    G4Xor(a, b);
    G5Xor(a, b);
  }

  lemma GroupsXor(a: bv32, b: bv32)
    ensures Groups(Xor(a, b)) == XorAll(Groups(a), Groups(b))
  {
    hide Groups, Xor, Xor5;
    forall k | 0 <= k < 6
      ensures Groups(Xor(a, b))[k] == XorAll(Groups(a), Groups(b))[k]
    {
      GroupXor(a, b, k);
    }
  }

  lemma GroupsShifted(c: bv32, v: bv5)
    requires Packed(c)
    ensures
      var g := Groups(c);
      Groups(Shifted(c, v)) == [g[1], g[2], g[3], g[4], g[5], v] && Lead(c) == g[0]
  {
  }

  lemma ValueXor(m: Linear, a: bv32, b: bv32)
    ensures Value(m, Xor(a, b)) == Add(Value(m, a), Value(m, b))
  {
    hide Groups, Eval, Xor, Add;
    GroupsXor(a, b);
    EvalLinear(m, 0, Groups(a), 0, Groups(b));
    AddZero(0);
  }

  /** Evaluated at this place, reducing a coefficient changes nothing. */
  ghost predicate Agrees(m: Linear, x: bv5) {
    Value(m, Reduce(x)) == Iter(m, 6, Embed(x))
  }

  /** The place is a root of the generator. */
  ghost predicate IsRoot(m: Linear) {
    forall x: bv5 :: Agrees(m, x)
  }

  lemma AgreesXor(m: Linear, x: bv5, y: bv5)
    requires Agrees(m, x) && Agrees(m, y)
    ensures Agrees(m, Xor5(x, y))
  {
    hide Value, Reduce, Iter, Embed, Xor5, Xor, Add;
    ReduceLinear(x, y);
    ValueXor(m, Reduce(x), Reduce(y));
    EmbedXor(x, y);
    IterLinear(m, 6, Embed(x), Embed(y));
  }

  lemma AgreesZero(m: Linear)
    ensures Agrees(m, 0)
  {
    hide Iter, Eval;
    assert Reduce(0) == 0;
    assert Groups(0) == Zeros(6);
    EvalZeros(m, 0, 6);
  }

  function BitOf(x: bv5, bit: bv5): bv5 {
    x & bit
  }

  lemma BitsOf(x: bv5)
    ensures x == Xor5(Xor5(Xor5(Xor5(BitOf(x, 1), BitOf(x, 2)), BitOf(x, 4)), BitOf(x, 8)), BitOf(x, 16))
    ensures (BitOf(x, 1) == 0 || BitOf(x, 1) == 1) && (BitOf(x, 2) == 0 || BitOf(x, 2) == 2)
    ensures (BitOf(x, 4) == 0 || BitOf(x, 4) == 4) && (BitOf(x, 8) == 0 || BitOf(x, 8) == 8)
    ensures BitOf(x, 16) == 0 || BitOf(x, 16) == 16
  {
  }

  /** It is enough to look at the five bits. */
  lemma RootByBits(m: Linear)
    requires Agrees(m, 1) && Agrees(m, 2) && Agrees(m, 4) && Agrees(m, 8) && Agrees(m, 16)
    ensures IsRoot(m)
  {
    hide Agrees, Xor5, BitOf;
    forall x: bv5
      ensures Agrees(m, x)
    {
      AgreesZero(m);
      BitsOf(x);
      var a, b, c := BitOf(x, 1), BitOf(x, 2), BitOf(x, 4);
      AgreesXor(m, a, b);
      AgreesXor(m, Xor5(a, b), c);
      AgreesXor(m, Xor5(Xor5(a, b), c), BitOf(x, 8));
      AgreesXor(m, Xor5(Xor5(Xor5(a, b), c), BitOf(x, 8)), BitOf(x, 16));
    }
  }

  lemma Horner(m: Linear, a: bv5, b: bv5, c: bv5, d: bv5, e: bv5, f: bv5)
    ensures Eval(m, 0, [a, b, c, d, e, f]) == Next(m, Next(m, Next(m, Next(m, Next(m, Embed(a), b), c), d), e), f)
  {
    hide Next, Embed, Eval;
    assert [a, b, c, d, e, f] == [a] + [b] + [c] + [d] + [e] + [f];
    EvalFirst(m, a);
    EvalAppend(m, 0, [a], [b]);
    EvalAppend(m, 0, [a] + [b], [c]);
    EvalAppend(m, 0, [a] + [b] + [c], [d]);
    EvalAppend(m, 0, [a] + [b] + [c] + [d], [e]);
    EvalAppend(m, 0, [a] + [b] + [c] + [d] + [e], [f]);
    EvalOne(m, Embed(a), b);
    EvalOne(m, Next(m, Embed(a), b), c);
    EvalOne(m, Next(m, Next(m, Embed(a), b), c), d);
    EvalOne(m, Next(m, Next(m, Next(m, Embed(a), b), c), d), e);
    EvalOne(m, Next(m, Next(m, Next(m, Next(m, Embed(a), b), c), d), e), f);
  }

  lemma SixTimes(m: Linear, v: bv10)
    ensures Iter(m, 6, v) == Apply(m, Apply(m, Apply(m, Apply(m, Apply(m, Apply(m, v))))))
  {
    hide Apply;
    assert Iter(m, 1, v) == Apply(m, v);
    assert Iter(m, 2, v) == Apply(m, Apply(m, v));
    assert Iter(m, 3, v) == Apply(m, Apply(m, Apply(m, v)));
    assert Iter(m, 4, v) == Apply(m, Apply(m, Apply(m, Apply(m, v))));
    assert Iter(m, 5, v) == Apply(m, Apply(m, Apply(m, Apply(m, Apply(m, v)))));
  }

  lemma Generators()
    ensures Groups(Reduce(1)) == [29, 22, 20, 21, 29, 18] && Groups(Reduce(2)) == [19, 5, 1, 3, 19, 13]
    ensures Groups(Reduce(4)) == [15, 10, 2, 6, 15, 26] && Groups(Reduce(8)) == [30, 20, 4, 12, 30, 29]
    ensures Groups(Reduce(16)) == [21, 1, 8, 24, 21, 19]
  {
  }

  lemma Root997()
    ensures IsRoot(P997)
  {
    hide Apply, Groups, Reduce, Eval, IsRoot, Iter;
    Generators();
    assert Agrees(P997, 1) by {
      Root997Bit0();
      Horner(P997, 29, 22, 20, 21, 29, 18);
      SixTimes(P997, 1);
    }
    assert Agrees(P997, 2) by {
      Root997Bit1();
      Horner(P997, 19, 5, 1, 3, 19, 13);
      SixTimes(P997, 2);
    }
    assert Agrees(P997, 4) by {
      Root997Bit2();
      Horner(P997, 15, 10, 2, 6, 15, 26);
      SixTimes(P997, 4);
    }
    assert Agrees(P997, 8) by {
      Root997Bit3();
      Horner(P997, 30, 20, 4, 12, 30, 29);
      SixTimes(P997, 8);
    }
    assert Agrees(P997, 16) by {
      Root997Bit4();
      Horner(P997, 21, 1, 8, 24, 21, 19);
      SixTimes(P997, 16);
    }
    RootByBits(P997);
  }

  lemma Root998()
    ensures IsRoot(P998)
  {
    hide Apply, Groups, Reduce, Eval, IsRoot, Iter;
    Generators();
    assert Agrees(P998, 1) by {
      Root998Bit0();
      Horner(P998, 29, 22, 20, 21, 29, 18);
      SixTimes(P998, 1);
    }
    assert Agrees(P998, 2) by {
      Root998Bit1();
      Horner(P998, 19, 5, 1, 3, 19, 13);
      SixTimes(P998, 2);
    }
    assert Agrees(P998, 4) by {
      Root998Bit2();
      Horner(P998, 15, 10, 2, 6, 15, 26);
      SixTimes(P998, 4);
    }
    assert Agrees(P998, 8) by {
      Root998Bit3();
      Horner(P998, 30, 20, 4, 12, 30, 29);
      SixTimes(P998, 8);
    }
    assert Agrees(P998, 16) by {
      Root998Bit4();
      Horner(P998, 21, 1, 8, 24, 21, 19);
      SixTimes(P998, 16);
    }
    RootByBits(P998);
  }

  lemma Root999()
    ensures IsRoot(P999)
  {
    hide Apply, Groups, Reduce, Eval, IsRoot, Iter;
    Generators();
    assert Agrees(P999, 1) by {
      Root999Bit0();
      Horner(P999, 29, 22, 20, 21, 29, 18);
      SixTimes(P999, 1);
    }
    assert Agrees(P999, 2) by {
      Root999Bit1();
      Horner(P999, 19, 5, 1, 3, 19, 13);
      SixTimes(P999, 2);
    }
    assert Agrees(P999, 4) by {
      Root999Bit2();
      Horner(P999, 15, 10, 2, 6, 15, 26);
      SixTimes(P999, 4);
    }
    assert Agrees(P999, 8) by {
      Root999Bit3();
      Horner(P999, 30, 20, 4, 12, 30, 29);
      SixTimes(P999, 8);
    }
    assert Agrees(P999, 16) by {
      Root999Bit4();
      Horner(P999, 21, 1, 8, 24, 21, 19);
      SixTimes(P999, 16);
    }
    RootByBits(P999);
  }

  /** One step of the loop, seen at a root. */
  lemma ValueStep(m: Linear, c: bv32, v: bv5)
    requires Packed(c) && IsRoot(m)
    ensures Value(m, Step(c, v)) == Next(m, Value(m, c), v)
  {
    hide Groups, Next, Add, Xor, Xor5, Packed, Reduce, Lead, Shifted, Iter, Embed, Eval;
    var g := Groups(c);
    var rest := [g[1], g[2], g[3], g[4], g[5], v];
    GroupsShifted(c, v);
    ValueXor(m, Shifted(c, v), Reduce(g[0]));
    assert g + [v] == [g[0]] + rest;
    EvalOne(m, Value(m, c), v);
    EvalAppend(m, 0, g, [v]);
    EvalAppend(m, 0, [g[0]], rest);
    EvalFirst(m, g[0]);
    EvalSplit(m, Embed(g[0]), rest);
    assert Agrees(m, g[0]);
  }

  lemma EvalOne(m: Linear, s: bv10, v: bv5)
    ensures Eval(m, s, [v]) == Next(m, s, v)
  {
    hide Next;
    assert [v][..0] == [];
  }

  lemma EvalFirst(m: Linear, v: bv5)
    ensures Eval(m, 0, [v]) == Embed(v)
  {
    hide Apply, Add, Embed;
    EvalOne(m, 0, v);
    ApplyZero(m);
    AddZero(Embed(v));
  }

  /** What was there before and what is added can be evaluated apart. */
  lemma EvalSplit(m: Linear, s: bv10, xs: seq<bv5>)
    ensures Eval(m, s, xs) == Add(Eval(m, 0, xs), Iter(m, |xs|, s))
  {
    hide Eval, Add, Iter, Xor5;
    EvalLinear(m, s, Zeros(|xs|), 0, xs);
    XorZeros(xs);
    AddZero(s);
    EvalZeros(m, s, |xs|);
    AddAssoc(Eval(m, 0, xs), Iter(m, |xs|, s), 0);
  }

  lemma {:induction false} ValuePolyMod(m: Linear, c: bv32, xs: seq<bv5>)
    requires Packed(c) && IsRoot(m)
    ensures Value(m, PolyModFrom(c, xs)) == Eval(m, Value(m, c), xs)
  {
    hide Step, Packed, Next, Value, IsRoot;
    if xs != [] {
      ValuePolyMod(m, c, xs[..|xs| - 1]);
      ValueStep(m, PolyModFrom(c, xs[..|xs| - 1]), xs[|xs| - 1]);
    }
  }

  // ---- Errors ----

  /** A remainder that is zero is zero at every place. */
  lemma ValueZero(m: Linear)
    ensures Value(m, 0) == 0
  {
    hide Iter, Eval;
    assert Groups(0) == Zeros(6);
    EvalZeros(m, 0, 6);
    IterZero(m, 6);
  }

  lemma {:induction false} IterZero(m: Linear, n: nat)
    ensures Iter(m, n, 0) == 0
  {
    hide Apply;
    if n > 0 {
      IterZero(m, n - 1);
      ApplyZero(m);
    }
  }

  lemma RootsLinked(v: bv10)
    ensures Apply(P998, v) == Apply(E1, Apply(P997, v)) == Apply(P997, Apply(E1, v))
    ensures Apply(P999, v) == Apply(E1, Apply(E1, Apply(P997, v)))
  {
    hide Apply, Compose;
    Products();
    Composed(E1, P997, v);
    Composed(P997, E1, v);
    Composed(E1, P998, v);
  }

  /** Steps of e and of e^997 may change places. */
  lemma {:induction false} Commute(n: nat, v: bv10)
    ensures Apply(P997, Iter(E1, n, v)) == Iter(E1, n, Apply(P997, v))
  {
    hide Apply;
    if n > 0 {
      Commute(n - 1, v);
      RootsLinked(Iter(E1, n - 1, v));
    }
  }

  /** Steps of e^998 and e^999 are steps of e after steps of e^997. */
  lemma {:induction false} RootSteps(n: nat, v: bv10)
    ensures Iter(P998, n, v) == Iter(E1, n, Iter(P997, n, v))
    ensures Iter(P999, n, v) == Iter(E1, n, Iter(E1, n, Iter(P997, n, v)))
  {
    hide Apply;
    if n > 0 {
      RootSteps(n - 1, v);
      var a := Iter(P997, n - 1, v);
      RootsLinked(Iter(E1, n - 1, a));
      RootsLinked(Iter(E1, n - 1, Iter(E1, n - 1, a)));
      Commute(n - 1, a);
      Commute(n - 1, Iter(E1, n - 1, a));
      var y := Apply(P997, a);
      assert y == Iter(P997, n, v);
      Swap(n - 1, y);
      Swap(n - 1, Iter(E1, n - 1, y));
      Swap(n - 1, Apply(E1, Iter(E1, n - 1, y)));
    }
  }

  lemma Swap(n: nat, v: bv10)
    ensures Iter(E1, n, Apply(E1, v)) == Apply(E1, Iter(E1, n, v)) == Iter(E1, n + 1, v)
  {
    hide Apply;
    IterSum(E1, n, 1, v);
    assert Iter(E1, 1, v) == Apply(E1, Iter(E1, 0, v));
  }

  lemma StepsInjective()
    ensures Injective(E1) && Injective(P997)
  {
    hide Apply;
    forall v: bv10
      ensures (Apply(E1, v) == 0 ==> v == 0) && (Apply(P997, v) == 0 ==> v == 0)
    {
      EKeepsNonzero(v);
      RootKeepsNonzero(v);
    }
  }

  lemma SameSum(a: bv10, b: bv10, c: bv10, d: bv10, z: bv10)
    requires Add(Add(a, b), z) == 0 && Add(Add(c, d), z) == 0
    ensures Add(c, a) == Add(d, b)
  {
  }

  /** A difference of two powers of e is not zero. */
  lemma TwoPowers(i: nat, n: nat, v: bv10)
    requires 0 < n < 1023 && Iter(E1, i + n, v) == Iter(E1, i, v)
    ensures v == 0
  {
    hide Apply, Iter, Add, Injective;
    var w := Iter(E1, n, v);
    IterSum(E1, i, n, v);
    IterLinear(E1, i, w, v);
    AddCancel(Iter(E1, i, w), Iter(E1, i, v));
    StepsInjective();
    IterInjective(E1, i, Add(w, v));
    AddCancel(w, v);
    PeriodIs1023(n, v);
  }

  /** Three values at distinct powers of e cannot cancel at three consecutive roots. */
  lemma ThreePowers(p: bv10, q: bv10, z: bv10, b: nat, c: nat)
    requires 0 < b && 0 < c && b + c < 1023
    requires Add(Add(p, q), z) == 0
    requires Add(Add(Iter(E1, b + c, p), Iter(E1, c, q)), z) == 0
    requires Add(Add(Iter(E1, b + c, Iter(E1, b + c, p)), Iter(E1, c, Iter(E1, c, q))), z) == 0
    ensures p == 0
  {
    hide Apply, Iter, Add;
    var p1, q1 := Iter(E1, b + c, p), Iter(E1, c, q);
    var u := Add(p1, p);
    SameSum(p, q, p1, q1, z);
    SameSum(p1, q1, Iter(E1, b + c, p1), Iter(E1, c, q1), z);
    IterLinear(E1, b + c, p1, p);
    IterLinear(E1, c, q1, q);
    assert Iter(E1, c + b, u) == Iter(E1, c, u);
    TwoPowers(c, b, u);
    AddCancel(p1, p);
    NoSteps(p);
    TwoPowers(0, b + c, p);
  }

  /** The value of three coefficients with zeros between them. */
  lemma EvalThree(m: Linear, x: bv5, b: nat, y: bv5, c: nat, z: bv5)
    ensures Eval(m, 0, [x] + Zeros(b) + [y] + Zeros(c) + [z]) ==
            Add(Add(Iter(m, (b + 1) + (c + 1), Embed(x)), Iter(m, c + 1, Embed(y))), Embed(z))
  {
    hide Apply, Eval, Add, Embed;
    EvalFirst(m, x);
    EvalAppend(m, 0, [x], Zeros(b));
    EvalZeros(m, Embed(x), b);
    EvalAppend(m, 0, [x] + Zeros(b), [y]);
    var s := Iter(m, b, Embed(x));
    EvalOne(m, s, y);
    var t := Add(Iter(m, b + 1, Embed(x)), Embed(y));
    EvalAppend(m, 0, [x] + Zeros(b) + [y], Zeros(c));
    EvalZeros(m, t, c);
    EvalAppend(m, 0, [x] + Zeros(b) + [y] + Zeros(c), [z]);
    EvalOne(m, Iter(m, c, t), z);
    IterLinear(m, c + 1, Iter(m, b + 1, Embed(x)), Embed(y));
    IterSum(m, c + 1, b + 1, Embed(x));
    assert (c + 1) + (b + 1) == (b + 1) + (c + 1);
  }

  lemma ThreeErrors(x: bv5, b: nat, y: bv5, c: nat, z: bv5)
    requires x != 0 && b + c + 2 < 1023
    ensures Packed(0) && PolyModFrom(0, [x] + Zeros(b) + [y] + Zeros(c) + [z]) != 0
  {
    hide Apply, Eval, Add, Embed, Packed, Step, Iter, IsRoot, Value, Injective;
    OneIsPacked();
    var d := [x] + Zeros(b) + [y] + Zeros(c) + [z];
    if PolyModFrom(0, d) == 0 {
      RootVanishes(P997, x, b, y, c, z);
      RootVanishes(P998, x, b, y, c, z);
      RootVanishes(P999, x, b, y, c, z);
      RootSteps((b + 1) + (c + 1), Embed(x));
      RootSteps(c + 1, Embed(y));
      ThreePowers(Iter(P997, (b + 1) + (c + 1), Embed(x)), Iter(P997, c + 1, Embed(y)), Embed(z), b + 1, c + 1);
      StepsInjective();
      IterInjective(P997, (b + 1) + (c + 1), Embed(x));
      EmbedXor(x, x);
      assert false;
    }
  }

  lemma RootVanishes(m: Linear, x: bv5, b: nat, y: bv5, c: nat, z: bv5)
    requires Packed(0) && PolyModFrom(0, [x] + Zeros(b) + [y] + Zeros(c) + [z]) == 0
    requires m == P997 || m == P998 || m == P999
    ensures Add(Add(Iter(m, (b + 1) + (c + 1), Embed(x)), Iter(m, c + 1, Embed(y))), Embed(z)) == 0
  {
    hide Apply, Eval, Add, Embed, Packed, Step, Iter, IsRoot, Value;
    Root997();
    Root998();
    Root999();
    ValueZero(m);
    ValuePolyMod(m, 0, [x] + Zeros(b) + [y] + Zeros(c) + [z]);
    EvalThree(m, x, b, y, c, z);
  }

  // ---- Wherever they are ----

  /** Zero everywhere but in three places. */
  ghost predicate OnlyAt(d: seq<bv5>, i: nat, j: nat, k: nat) {
    forall l | 0 <= l < |d| && d[l] != 0 :: l == i || l == j || l == k
  }

  lemma Located(d: seq<bv5>, i: nat, j: nat, k: nat)
    requires i < j < k < |d| && k < i + 1023 && OnlyAt(d, i, j, k) && d[i] != 0
    ensures Packed(0) && PolyModFrom(0, d) != 0
  {
    hide Packed, Step;
    OneIsPacked();
    var core := [d[i]] + Zeros(j - i - 1) + [d[j]] + Zeros(k - j - 1) + [d[k]];
    assert d == Zeros(i) + core + Zeros(|d| - k - 1);
    ThreeErrors(d[i], j - i - 1, d[j], k - j - 1, d[k]);
    PolyModAppend(0, Zeros(i) + core, Zeros(|d| - k - 1));
    PolyModAppend(0, Zeros(i), core);
    PolyModZeros(0, i);
    PolyModZeros(PolyModFrom(0, core), |d| - k - 1);
  }

  /** With the errors close together, look at the input with two zeros behind it. */
  lemma LocatedClose(d: seq<bv5>, i: nat)
    requires i < |d| && d[i] != 0 && OnlyAt(d, i, i + 1, i + 1)
    ensures Packed(0) && PolyModFrom(0, d) != 0
  {
    hide Packed, Step;
    OneIsPacked();
    var more := d + Zeros(2);
    assert OnlyAt(more, i, i + 1, i + 2);
    Located(more, i, i + 1, i + 2);
    PolyModAppend(0, d, Zeros(2));
    PolyModZeros(PolyModFrom(0, d), 2);
  }

  lemma TwoOrOne(d: seq<bv5>, i: nat, k: nat)
    requires i <= k < i + 1023 && i < |d| && d[i] != 0 && OnlyAt(d, i, k, k)
    ensures Packed(0) && PolyModFrom(0, d) != 0
  {
    hide Packed, Step, PolyModFrom;
    if k <= i + 1 || k >= |d| {
      LocatedClose(d, i);
    } else {
      Located(d, i, i + 1, k);
    }
  }

  /** A difference in at least one and at most three places, not too far apart, has a remainder other than zero. */
  lemma SomeRemainder(d: seq<bv5>, i: nat, j: nat, k: nat)
    requires i <= j <= k < i + 1023 && OnlyAt(d, i, j, k) && d != Zeros(|d|)
    ensures Packed(0) && PolyModFrom(0, d) != 0
  {
    hide Packed, Step, PolyModFrom;
    if i < |d| && d[i] != 0 {
      if i < j < k < |d| {
        Located(d, i, j, k);
      } else if j == i || j >= |d| {
        TwoOrOne(d, i, k);
      } else {
        TwoOrOne(d, i, j);
      }
    } else if j < |d| && d[j] != 0 {
      TwoOrOne(d, j, k);
    } else {
      assert k < |d| && d[k] != 0;
      TwoOrOne(d, k, k);
    }
  }

  /** Two inputs of one length that differ, but in no more than three places, and these within 1023. */
  ghost predicate DifferAtMostThree(xs: seq<bv5>, ys: seq<bv5>, i: nat, j: nat, k: nat) {
    && |xs| == |ys| && xs != ys && i <= j <= k < i + 1023
    && forall l | 0 <= l < |xs| && xs[l] != ys[l] :: l == i || l == j || l == k
  }

  lemma ThreeDetected(c: bv32, xs: seq<bv5>, ys: seq<bv5>, i: nat, j: nat, k: nat)
    requires Packed(c) && DifferAtMostThree(xs, ys, i, j, k)
    ensures PolyModFrom(c, xs) != PolyModFrom(c, ys)
  {
    hide Step, Xor, Xor5, Packed, PolyModFrom;
    var d := XorAll(xs, ys);
    PolyModLinear(c, xs, c, ys);
    XorZero(c);
    XorCancel(PolyModFrom(c, xs), PolyModFrom(c, ys));
    forall l | 0 <= l < |xs|
      ensures d[l] == 0 <==> xs[l] == ys[l]
    {
      Xor5Zero(xs[l], ys[l]);
    }
    SomeRemainder(d, i, j, k);
  }
}
