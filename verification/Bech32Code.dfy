/**
  The checksum code of Bech32 and Bech32m: remainders of polynomials over GF(32), packed into 30 bits.
  The operations on machine words are named, so that what is proved of them can be used without their bits.
 */
module Bech32Code {
  const GEN0: bv32 := 0x3b6a57b2
  const GEN1: bv32 := 0x26508e6d
  const GEN2: bv32 := 0x1ea119fa
  const GEN3: bv32 := 0x3d4233dd
  const GEN4: bv32 := 0x2a1462b3

  // ---- Words ----

  function Xor(a: bv32, b: bv32): bv32 {
    a ^ b
  }

  function Xor5(x: bv5, y: bv5): bv5 {
    x ^ y
  }

  /** Six groups of five bits. */
  predicate Packed(c: bv32) {
    c < 0x4000_0000
  }

  /** The leading coefficient. */
  function Lead(c: bv32): bv5
    requires Packed(c)
  {
    (c >> 25) as bv5
  }

  /** Multiply by x without the leading coefficient, and add v. */
  function Shifted(c: bv32, v: bv5): bv32 {
    ((c & 0x1ff_ffff) << 5) ^ (v as bv32)
  }

  predicate HasBit(c0: bv5, bit: bv5) {
    c0 & bit != 0
  }

  /** A multiple of the generator, added when the bit is set. */
  function Part(c0: bv5, bit: bv5, gen: bv32): bv32 {
    if HasBit(c0, bit) then gen else 0
  }

  /** The multiple of the generator that cancels the leading coefficient. */
  function Reduce(c0: bv5): bv32 {
    Xor(Xor(Xor(Xor(Part(c0, 1, GEN0), Part(c0, 2, GEN1)), Part(c0, 4, GEN2)), Part(c0, 8, GEN3)), Part(c0, 16, GEN4))
  }

  /** Multiply by x, add v, and reduce. */
  function Step(c: bv32, v: bv5): bv32
    requires Packed(c)
  {
    Xor(Shifted(c, v), Reduce(Lead(c)))
  }

  function PolyModFrom(c: bv32, vs: seq<bv5>): (r: bv32)
    requires Packed(c)
    ensures Packed(r)
  {
    if vs == [] then c
    else
      var before := PolyModFrom(c, vs[..|vs| - 1]);
      StepPacked(before, vs[|vs| - 1]);
      Step(before, vs[|vs| - 1])
  }

  // ---- The loop ----

  method AddPart(c: bv32, c0: bv5, bit: bv5, gen: bv32) returns (r: bv32)
    ensures r == Xor(c, Part(c0, bit, gen))
  {
    hide HasBit;
    if HasBit(c0, bit) {
      r := Xor(c, gen);
    } else {
      XorZero(c);
      r := c;
    }
  }

  /** One round of the loop: shift in the value, then add a multiple of the generator for each bit of c0. */
  method Absorb(c: bv32, v: bv5) returns (r: bv32)
    requires Packed(c)
    ensures r == Step(c, v) && Packed(r)
  {
    hide Part, Shifted, Packed, Xor, Lead;
    var c0 := Lead(c);
    var s := Shifted(c, v);
    r := AddPart(s, c0, 1, GEN0);
    r := AddPart(r, c0, 2, GEN1);
    r := AddPart(r, c0, 4, GEN2);
    r := AddPart(r, c0, 8, GEN3);
    r := AddPart(r, c0, 16, GEN4);
    Flatten(s, Part(c0, 1, GEN0), Part(c0, 2, GEN1), Part(c0, 4, GEN2), Part(c0, 8, GEN3), Part(c0, 16, GEN4));
    StepPacked(c, v);
  }

  lemma Flatten(s: bv32, p: bv32, q: bv32, r: bv32, t: bv32, u: bv32)
    ensures Xor(Xor(Xor(Xor(Xor(s, p), q), r), t), u) == Xor(s, Xor(Xor(Xor(Xor(p, q), r), t), u))
  {
    hide Xor;
    XorAssoc(s, p, q);
    XorAssoc(s, Xor(p, q), r);
    XorAssoc(s, Xor(Xor(p, q), r), t);
    XorAssoc(s, Xor(Xor(Xor(p, q), r), t), u);
  }

  method PolyMod(vs: seq<bv5>) returns (c: bv32)
    ensures Packed(1) && c == PolyModFrom(1, vs) && Packed(c)
  {
    hide Packed, Step;
    c := 1;
    OneIsPacked();
    for i := 0 to |vs|
      invariant Packed(c) && c == PolyModFrom(1, vs[..i])
    {
      assert vs[..i + 1][..i] == vs[..i];
      c := Absorb(c, vs[i]);
    }
    assert vs[..|vs|] == vs;
  }

  lemma OneIsPacked()
    ensures Packed(1) && Packed(0)
  {
  }

  // ---- Facts about words ----

  lemma XorZero(a: bv32)
    ensures Xor(a, 0) == a && Xor(0, a) == a && Xor(a, a) == 0
  {
  }

  lemma XorPacked(a: bv32, b: bv32)
    requires Packed(a) && Packed(b)
    ensures Packed(Xor(a, b))
  {
  }

  lemma XorCancel(a: bv32, b: bv32)
    ensures Xor(a, b) == 0 <==> a == b
    ensures Xor(a, Xor(a, b)) == b
  {
  }

  lemma Xor5Zero(x: bv5, y: bv5)
    ensures Xor5(x, 0) == x && Xor5(0, x) == x && (Xor5(x, y) == 0 <==> x == y)
  {
  }

  lemma StepPacked(c: bv32, v: bv5)
    requires Packed(c)
    ensures Packed(Step(c, v))
  {
  }

  lemma BitXor(a: bv5, b: bv5)
    ensures HasBit(Xor5(a, b), 1) <==> HasBit(a, 1) != HasBit(b, 1)
    ensures HasBit(Xor5(a, b), 2) <==> HasBit(a, 2) != HasBit(b, 2)
    ensures HasBit(Xor5(a, b), 4) <==> HasBit(a, 4) != HasBit(b, 4)
    ensures HasBit(Xor5(a, b), 8) <==> HasBit(a, 8) != HasBit(b, 8)
    ensures HasBit(Xor5(a, b), 16) <==> HasBit(a, 16) != HasBit(b, 16)
  {
  }

  lemma PartLinear(a: bv5, b: bv5, bit: bv5, gen: bv32)
    requires HasBit(Xor5(a, b), bit) <==> HasBit(a, bit) != HasBit(b, bit)
    ensures Part(Xor5(a, b), bit, gen) == Xor(Part(a, bit, gen), Part(b, bit, gen))
  {
    hide HasBit, Xor, Xor5;
    XorZero(gen);
    XorZero(0);
  }

  lemma ShiftedLinear(a: bv32, x: bv5, b: bv32, y: bv5)
    requires Packed(a) && Packed(b)
    ensures Packed(Xor(a, b)) && Shifted(Xor(a, b), Xor5(x, y)) == Xor(Shifted(a, x), Shifted(b, y))
    ensures Lead(Xor(a, b)) == Xor5(Lead(a), Lead(b))
  {
  }

  lemma Regroup(a: bv32, b: bv32, c: bv32, d: bv32)
    ensures Xor(Xor(a, b), Xor(c, d)) == Xor(Xor(a, c), Xor(b, d))
  {
    hide Xor;
    XorAssoc(a, b, Xor(c, d));
    XorAssoc(b, c, d);
    XorComm(b, c);
    XorAssoc(c, b, d);
    XorAssoc(a, c, Xor(b, d));
  }

  lemma XorComm(a: bv32, b: bv32)
    ensures Xor(a, b) == Xor(b, a)
  {
  }

  lemma XorAssoc(a: bv32, b: bv32, c: bv32)
    ensures Xor(Xor(a, b), c) == Xor(a, Xor(b, c))
  {
  }

  lemma ReduceLinear(a: bv5, b: bv5)
    ensures Reduce(Xor5(a, b)) == Xor(Reduce(a), Reduce(b))
  {
    hide Part, Xor, Xor5, HasBit;
    BitXor(a, b);
    PartLinear(a, b, 1, GEN0);
    PartLinear(a, b, 2, GEN1);
    PartLinear(a, b, 4, GEN2);
    PartLinear(a, b, 8, GEN3);
    PartLinear(a, b, 16, GEN4);
    var p, q := Part(a, 1, GEN0), Part(b, 1, GEN0);
    Regroup(p, q, Part(a, 2, GEN1), Part(b, 2, GEN1));
    p, q := Xor(p, Part(a, 2, GEN1)), Xor(q, Part(b, 2, GEN1));
    Regroup(p, q, Part(a, 4, GEN2), Part(b, 4, GEN2));
    p, q := Xor(p, Part(a, 4, GEN2)), Xor(q, Part(b, 4, GEN2));
    Regroup(p, q, Part(a, 8, GEN3), Part(b, 8, GEN3));
    p, q := Xor(p, Part(a, 8, GEN3)), Xor(q, Part(b, 8, GEN3));
    Regroup(p, q, Part(a, 16, GEN4), Part(b, 16, GEN4));
  }

  /** A step is linear: differences pass through it on their own. */
  lemma StepLinear(a: bv32, x: bv5, b: bv32, y: bv5)
    requires Packed(a) && Packed(b)
    ensures Packed(Xor(a, b)) && Step(Xor(a, b), Xor5(x, y)) == Xor(Step(a, x), Step(b, y))
  {
    hide Shifted, Xor, Xor5, Lead, Reduce, Packed;
    ShiftedLinear(a, x, b, y);
    ReduceLinear(Lead(a), Lead(b));
    Regroup(Shifted(a, x), Shifted(b, y), Reduce(Lead(a)), Reduce(Lead(b)));
  }

  /** Without new input, only zero leads to zero. */
  lemma StepInjective(c: bv32)
    requires Packed(c)
    ensures Step(c, 0) == 0 <==> c == 0
  {
  }

  // ---- Whole inputs ----

  function XorAll(xs: seq<bv5>, ys: seq<bv5>): (zs: seq<bv5>)
    requires |xs| == |ys|
    ensures |zs| == |xs|
  {
    seq(|xs|, i requires 0 <= i < |xs| => Xor5(xs[i], ys[i]))
  }

  function Zeros(n: nat): seq<bv5> {
    seq(n, _ => 0)
  }

  lemma {:induction false} PolyModLinear(a: bv32, xs: seq<bv5>, b: bv32, ys: seq<bv5>)
    requires |xs| == |ys| && Packed(a) && Packed(b)
    ensures Packed(Xor(a, b)) && PolyModFrom(Xor(a, b), XorAll(xs, ys)) == Xor(PolyModFrom(a, xs), PolyModFrom(b, ys))
  {
    hide Step, Xor, Xor5, Packed;
    XorPacked(a, b);
    if xs != [] {
      var n := |xs| - 1;
      PolyModLinear(a, xs[..n], b, ys[..n]);
      assert XorAll(xs, ys)[..n] == XorAll(xs[..n], ys[..n]);
      StepLinear(PolyModFrom(a, xs[..n]), xs[n], PolyModFrom(b, ys[..n]), ys[n]);
    }
  }

  lemma {:induction false} PolyModAppend(c: bv32, xs: seq<bv5>, ys: seq<bv5>)
    requires Packed(c)
    ensures PolyModFrom(c, xs + ys) == PolyModFrom(PolyModFrom(c, xs), ys)
  {
    hide Step, Packed;
    if ys == [] {
      assert xs + ys == xs;
    } else {
      var n := |ys| - 1;
      PolyModAppend(c, xs, ys[..n]);
      assert (xs + ys)[..|xs| + n] == xs + ys[..n];
    }
  }

  /** Zeros keep zero, and keep everything else from becoming zero. */
  lemma {:induction false} PolyModZeros(c: bv32, n: nat)
    requires Packed(c)
    ensures PolyModFrom(c, Zeros(n)) == 0 <==> c == 0
  {
    hide Step, Packed;
    if n > 0 {
      PolyModZeros(c, n - 1);
      assert Zeros(n)[..n - 1] == Zeros(n - 1);
      StepInjective(PolyModFrom(c, Zeros(n - 1)));
    }
  }

  // ---- Six values fill the word ----

  /** The six groups of a word, first to last. */
  function Groups(c: bv32): (gs: seq<bv5>)
    ensures |gs| == 6
  {
    [((c >> 25) & 31) as bv5, ((c >> 20) & 31) as bv5, ((c >> 15) & 31) as bv5,
     ((c >> 10) & 31) as bv5, ((c >> 5) & 31) as bv5, (c & 31) as bv5]
  }

  /** Pushing a value into a word that still has room. */
  function Push(c: bv32, v: bv5): bv32 {
    (c << 5) | (v as bv32)
  }

  lemma StepNoReduce(c: bv32, v: bv5)
    requires c < 0x200_0000
    ensures Packed(c) && Step(c, v) == Push(c, v)
  {
  }

  lemma PushBound(c: bv32, v: bv5)
    ensures c < 0x10_0000 ==> Push(c, v) < 0x200_0000
    ensures c < 0x8000 ==> Push(c, v) < 0x10_0000
    ensures c < 0x400 ==> Push(c, v) < 0x8000
    ensures c < 0x20 ==> Push(c, v) < 0x400
    ensures c == 0 ==> Push(c, v) < 0x20
  {
  }

  function Pack(x0: bv5, x1: bv5, x2: bv5, x3: bv5, x4: bv5, x5: bv5): bv32 {
    Push(Push(Push(Push(Push(Push(0, x0), x1), x2), x3), x4), x5)
  }

  lemma PackGroups(x0: bv5, x1: bv5, x2: bv5, x3: bv5, x4: bv5, x5: bv5)
    ensures Groups(Pack(x0, x1, x2, x3, x4, x5)) == [x0, x1, x2, x3, x4, x5]
  {
  }

  lemma GroupsPack(c: bv32)
    requires Packed(c)
    ensures var g := Groups(c); Pack(g[0], g[1], g[2], g[3], g[4], g[5]) == c
  {
  }

  /** The remainder of six values on their own is the values packed together. */
  lemma SixSteps(xs: seq<bv5>)
    requires |xs| == 6
    ensures Packed(0) && PolyModFrom(0, xs) == Pack(xs[0], xs[1], xs[2], xs[3], xs[4], xs[5])
  {
    hide Step, Push;
    assert xs[..6] == xs && xs[..0] == [];
    var c1, c2, c3 := Push(0, xs[0]), Push(Push(0, xs[0]), xs[1]), Push(Push(Push(0, xs[0]), xs[1]), xs[2]);
    var c4, c5 := Push(c3, xs[3]), Push(Push(c3, xs[3]), xs[4]);
    PushBound(0, xs[0]);
    PushBound(c1, xs[1]);
    PushBound(c2, xs[2]);
    PushBound(c3, xs[3]);
    PushBound(c4, xs[4]);
    StepNoReduce(0, xs[0]);
    StepNoReduce(c1, xs[1]);
    StepNoReduce(c2, xs[2]);
    StepNoReduce(c3, xs[3]);
    StepNoReduce(c4, xs[4]);
    StepNoReduce(c5, xs[5]);
    Prefixes(xs);
    assert PolyModFrom(0, xs[..1]) == c1;
    assert PolyModFrom(0, xs[..2]) == c2;
    assert PolyModFrom(0, xs[..3]) == c3;
    assert PolyModFrom(0, xs[..4]) == c4;
    assert PolyModFrom(0, xs[..5]) == c5;
  }

  lemma Prefixes(xs: seq<bv5>)
    requires |xs| == 6
    ensures xs[..1][..0] == [] && xs[..2][..1] == xs[..1] && xs[..3][..2] == xs[..2] && xs[..4][..3] == xs[..3]
    ensures xs[..5][..4] == xs[..4]
  {
  }

  // ---- Checksums ----

  /** Six values that bring the remainder of vs, extended by them, to `target`. */
  function Checksum(vs: seq<bv5>, target: bv32): (x: seq<bv5>)
    requires Packed(1)
    ensures |x| == 6
  {
    Groups(Xor(PolyModFrom(1, vs + Zeros(6)), target))
  }

  /** Appending six values to vs changes the remainder of vs with six zeros by those values. */
  lemma AppendSix(vs: seq<bv5>, x: seq<bv5>)
    requires |x| == 6
    ensures Packed(1)
    ensures PolyModFrom(1, vs + x) == Xor(PolyModFrom(1, vs + Zeros(6)), Pack(x[0], x[1], x[2], x[3], x[4], x[5]))
  {
    hide Step, Xor, Xor5, Packed, Pack;
    OneIsPacked();
    var c := PolyModFrom(1, vs);
    PolyModAppend(1, vs, x);
    PolyModAppend(1, vs, Zeros(6));
    PolyModLinear(c, Zeros(6), 0, x);
    XorZero(c);
    assert XorAll(Zeros(6), x) == x by {
      XorZeros(x);
    }
    SixSteps(x);
  }

  lemma XorZeros(x: seq<bv5>)
    ensures XorAll(Zeros(|x|), x) == x
  {
    hide Xor5;
    forall i | 0 <= i < |x|
      ensures XorAll(Zeros(|x|), x)[i] == x[i]
    {
      Xor5Zero(x[i], 0);
    }
  }

  /** The checksum is right, and nothing else is. */
  lemma ChecksumIff(vs: seq<bv5>, x: seq<bv5>, target: bv32)
    requires |x| == 6 && Packed(target)
    ensures Packed(1) && (PolyModFrom(1, vs + x) == target <==> x == Checksum(vs, target))
  {
    hide Step, Xor, Packed, Pack, Groups;
    OneIsPacked();
    AppendSix(vs, x);
    var m := PolyModFrom(1, vs + Zeros(6));
    var packed := Pack(x[0], x[1], x[2], x[3], x[4], x[5]);
    XorPacked(m, target);
    XorCancel(m, packed);
    XorCancel(m, target);
    PackGroups(x[0], x[1], x[2], x[3], x[4], x[5]);
    GroupsPack(Xor(m, target));
    assert x == [x[0], x[1], x[2], x[3], x[4], x[5]];
  }

  // ---- Detection of errors ----

  /** Two inputs of one length that differ, but only within six consecutive places from `at`. */
  ghost predicate DifferInWindow(xs: seq<bv5>, ys: seq<bv5>, at: nat) {
    && |xs| == |ys| && xs != ys && at <= |xs|
    && forall i | 0 <= i < |xs| && (i < at || i >= at + 6) :: xs[i] == ys[i]
  }

  lemma {:induction false} PackNotZero(x: seq<bv5>)
    requires |x| == 6 && x != Zeros(6)
    ensures Pack(x[0], x[1], x[2], x[3], x[4], x[5]) != 0
  {
    hide Pack;
    PackGroups(x[0], x[1], x[2], x[3], x[4], x[5]);
    assert x == [x[0], x[1], x[2], x[3], x[4], x[5]];
    assert Groups(0) == Zeros(6);
  }

  /** Errors within any six consecutive places are detected. */
  lemma WindowDetected(c: bv32, xs: seq<bv5>, ys: seq<bv5>, at: nat)
    requires Packed(c) && DifferInWindow(xs, ys, at) && at + 6 <= |xs|
    ensures PolyModFrom(c, xs) != PolyModFrom(c, ys)
  {
    hide Step, Xor, Xor5, Packed, Pack;
    OneIsPacked();
    var e := XorAll(xs, ys);
    PolyModLinear(c, xs, c, ys);
    XorZero(c);
    XorCancel(PolyModFrom(c, xs), PolyModFrom(c, ys));
    WindowParts(xs, ys, at);
    var x := e[at..at + 6];
    PolyModAppend(0, Zeros(at) + x, Zeros(|xs| - at - 6));
    PolyModAppend(0, Zeros(at), x);
    PolyModZeros(0, at);
    SixSteps(x);
    PackNotZero(x);
    PolyModZeros(PolyModFrom(0, Zeros(at) + x), |xs| - at - 6);
  }

  lemma WindowParts(xs: seq<bv5>, ys: seq<bv5>, at: nat)
    requires DifferInWindow(xs, ys, at) && at + 6 <= |xs|
    ensures XorAll(xs, ys) == Zeros(at) + XorAll(xs, ys)[at..at + 6] + Zeros(|xs| - at - 6)
    ensures XorAll(xs, ys)[at..at + 6] != Zeros(6)
  {
    hide Xor5;
    var e := XorAll(xs, ys);
    forall i | 0 <= i < |xs|
      ensures e[i] == 0 <==> xs[i] == ys[i]
    {
      Xor5Zero(xs[i], ys[i]);
    }
    var i :| 0 <= i < |xs| && xs[i] != ys[i];
    assert e[at..at + 6][i - at] != Zeros(6)[i - at];
  }
}
