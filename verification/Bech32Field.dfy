/**
  The field GF(1024) in which the Bech32 generator has its roots. An element is ten bits, two elements of GF(32).
  Multiplication by a fixed element is a linear map, given by what it does to the ten bits; all that is used of the
  field is multiplication by powers of its generator e.
 */
module Bech32Field {
  /** A linear map on ten bits: the images of the bits, lowest first. */
  datatype Linear = Linear(c0: bv10, c1: bv10, c2: bv10, c3: bv10, c4: bv10,
                           c5: bv10, c6: bv10, c7: bv10, c8: bv10, c9: bv10)

  function Add(a: bv10, b: bv10): bv10 {
    a ^ b
  }

  predicate Bit(v: bv10, bit: bv10) {
    v & bit != 0
  }

  function Term(v: bv10, bit: bv10, c: bv10): bv10 {
    if Bit(v, bit) then c else 0
  }

  function Low(m: Linear, v: bv10): bv10 {
    Add(Add(Add(Add(Term(v, 1, m.c0), Term(v, 2, m.c1)), Term(v, 4, m.c2)), Term(v, 8, m.c3)), Term(v, 16, m.c4))
  }

  function High(m: Linear, v: bv10): bv10 {
    Add(Add(Add(Add(Term(v, 32, m.c5), Term(v, 64, m.c6)), Term(v, 128, m.c7)), Term(v, 256, m.c8)),
        Term(v, 512, m.c9))
  }

  function Apply(m: Linear, v: bv10): bv10 {
    Add(Low(m, v), High(m, v))
  }

  // ---- Sums ----

  lemma AddZero(a: bv10)
    ensures Add(a, 0) == a && Add(0, a) == a && Add(a, a) == 0
  {
  }

  lemma AddCancel(a: bv10, b: bv10)
    ensures Add(a, b) == 0 <==> a == b
  {
  }

  lemma AddAssoc(a: bv10, b: bv10, c: bv10)
    ensures Add(Add(a, b), c) == Add(a, Add(b, c)) && Add(a, b) == Add(b, a)
  {
  }

  lemma AddRegroup(a: bv10, b: bv10, c: bv10, d: bv10)
    ensures Add(Add(a, b), Add(c, d)) == Add(Add(a, c), Add(b, d))
  {
    hide Add;
    AddAssoc(a, b, Add(c, d));
    AddAssoc(b, c, d);
    AddAssoc(c, b, d);
    AddAssoc(a, c, Add(b, d));
  }

  lemma LowBitAdd(a: bv10, b: bv10)
    ensures Bit(Add(a, b), 1) <==> Bit(a, 1) != Bit(b, 1)
    ensures Bit(Add(a, b), 2) <==> Bit(a, 2) != Bit(b, 2)
    ensures Bit(Add(a, b), 4) <==> Bit(a, 4) != Bit(b, 4)
    ensures Bit(Add(a, b), 8) <==> Bit(a, 8) != Bit(b, 8)
    ensures Bit(Add(a, b), 16) <==> Bit(a, 16) != Bit(b, 16)
  {
  }

  lemma HighBitAdd(a: bv10, b: bv10)
    ensures Bit(Add(a, b), 32) <==> Bit(a, 32) != Bit(b, 32)
    ensures Bit(Add(a, b), 64) <==> Bit(a, 64) != Bit(b, 64)
    ensures Bit(Add(a, b), 128) <==> Bit(a, 128) != Bit(b, 128)
    ensures Bit(Add(a, b), 256) <==> Bit(a, 256) != Bit(b, 256)
    ensures Bit(Add(a, b), 512) <==> Bit(a, 512) != Bit(b, 512)
  {
  }

  lemma TermLinear(a: bv10, b: bv10, bit: bv10, c: bv10)
    requires Bit(Add(a, b), bit) <==> Bit(a, bit) != Bit(b, bit)
    ensures Term(Add(a, b), bit, c) == Add(Term(a, bit, c), Term(b, bit, c))
  {
    hide Bit, Add;
    AddZero(c);
    AddZero(0);
  }

  lemma FiveLinear(p0: bv10, q0: bv10, p1: bv10, q1: bv10, p2: bv10, q2: bv10, p3: bv10, q3: bv10, p4: bv10, q4: bv10)
    ensures Add(Add(Add(Add(Add(p0, q0), Add(p1, q1)), Add(p2, q2)), Add(p3, q3)), Add(p4, q4)) ==
            Add(Add(Add(Add(Add(p0, p1), p2), p3), p4), Add(Add(Add(Add(q0, q1), q2), q3), q4))
  {
    hide Add;
    AddRegroup(p0, q0, p1, q1);
    AddRegroup(Add(p0, p1), Add(q0, q1), p2, q2);
    AddRegroup(Add(Add(p0, p1), p2), Add(Add(q0, q1), q2), p3, q3);
    AddRegroup(Add(Add(Add(p0, p1), p2), p3), Add(Add(Add(q0, q1), q2), q3), p4, q4);
  }

  lemma LowLinear(m: Linear, a: bv10, b: bv10)
    ensures Low(m, Add(a, b)) == Add(Low(m, a), Low(m, b))
  {
    hide Bit, Term, Add;
    LowBitAdd(a, b);
    TermLinear(a, b, 1, m.c0);
    TermLinear(a, b, 2, m.c1);
    TermLinear(a, b, 4, m.c2);
    TermLinear(a, b, 8, m.c3);
    TermLinear(a, b, 16, m.c4);
    FiveLinear(Term(a, 1, m.c0), Term(b, 1, m.c0), Term(a, 2, m.c1), Term(b, 2, m.c1), Term(a, 4, m.c2),
               Term(b, 4, m.c2), Term(a, 8, m.c3), Term(b, 8, m.c3), Term(a, 16, m.c4), Term(b, 16, m.c4));
  }

  lemma HighLinear(m: Linear, a: bv10, b: bv10)
    ensures High(m, Add(a, b)) == Add(High(m, a), High(m, b))
  {
    hide Bit, Term, Add;
    HighBitAdd(a, b);
    TermLinear(a, b, 32, m.c5);
    TermLinear(a, b, 64, m.c6);
    TermLinear(a, b, 128, m.c7);
    TermLinear(a, b, 256, m.c8);
    TermLinear(a, b, 512, m.c9);
    FiveLinear(Term(a, 32, m.c5), Term(b, 32, m.c5), Term(a, 64, m.c6), Term(b, 64, m.c6), Term(a, 128, m.c7),
               Term(b, 128, m.c7), Term(a, 256, m.c8), Term(b, 256, m.c8), Term(a, 512, m.c9), Term(b, 512, m.c9));
  }

  lemma ApplyLinear(m: Linear, a: bv10, b: bv10)
    ensures Apply(m, Add(a, b)) == Add(Apply(m, a), Apply(m, b))
  {
    hide Low, High, Add;
    LowLinear(m, a, b);
    HighLinear(m, a, b);
    AddRegroup(Low(m, a), Low(m, b), High(m, a), High(m, b));
  }

  lemma ApplyZero(m: Linear)
    ensures Apply(m, 0) == 0
  {
  }

  // ---- Iterates ----

  /** The map applied n times. */
  function Iter(m: Linear, n: nat, v: bv10): bv10 {
    if n == 0 then v else Apply(m, Iter(m, n - 1, v))
  }

  lemma {:induction false} IterLinear(m: Linear, n: nat, a: bv10, b: bv10)
    ensures Iter(m, n, Add(a, b)) == Add(Iter(m, n, a), Iter(m, n, b))
  {
    hide Apply, Add;
    if n > 0 {
      IterLinear(m, n - 1, a, b);
      ApplyLinear(m, Iter(m, n - 1, a), Iter(m, n - 1, b));
    }
  }

  lemma {:induction false} IterSum(m: Linear, i: nat, j: nat, v: bv10)
    ensures Iter(m, i + j, v) == Iter(m, i, Iter(m, j, v))
  {
    hide Apply;
    if i > 0 {
      IterSum(m, i - 1, j, v);
    }
  }

  /** Only zero goes to zero. */
  ghost predicate Injective(m: Linear) {
    forall v: bv10 :: Apply(m, v) == 0 ==> v == 0
  }

  lemma {:induction false} IterInjective(m: Linear, n: nat, v: bv10)
    requires Injective(m)
    ensures Iter(m, n, v) == 0 <==> v == 0
  {
    hide Apply;
    if n > 0 {
      IterInjective(m, n - 1, v);
      ApplyZero(m);
    }
  }

  // ---- One map after another ----

  function Compose(a: Linear, b: Linear): Linear {
    Linear(Apply(a, b.c0), Apply(a, b.c1), Apply(a, b.c2), Apply(a, b.c3), Apply(a, b.c4),
           Apply(a, b.c5), Apply(a, b.c6), Apply(a, b.c7), Apply(a, b.c8), Apply(a, b.c9))
  }

  lemma ApplyTerm(m: Linear, v: bv10, bit: bv10, c: bv10)
    ensures Apply(m, Term(v, bit, c)) == Term(v, bit, Apply(m, c))
  {
    hide Apply, Bit;
    ApplyZero(m);
  }

  lemma ApplyFive(m: Linear, p: bv10, q: bv10, r: bv10, s: bv10, t: bv10)
    ensures Apply(m, Add(Add(Add(Add(p, q), r), s), t)) ==
            Add(Add(Add(Add(Apply(m, p), Apply(m, q)), Apply(m, r)), Apply(m, s)), Apply(m, t))
  {
    hide Apply, Add;
    ApplyLinear(m, p, q);
    ApplyLinear(m, Add(p, q), r);
    ApplyLinear(m, Add(Add(p, q), r), s);
    ApplyLinear(m, Add(Add(Add(p, q), r), s), t);
  }

  lemma Composed(a: Linear, b: Linear, v: bv10)
    ensures Apply(a, Apply(b, v)) == Apply(Compose(a, b), v)
  {
    hide Term, Add, Bit;
    ComposedLow(a, b, v);
    ComposedHigh(a, b, v);
    ApplyLinear(a, Low(b, v), High(b, v));
  }

  lemma ComposedLow(a: Linear, b: Linear, v: bv10)
    ensures Apply(a, Low(b, v)) == Low(Compose(a, b), v)
  {
    hide Apply, Term, Add, Bit;
    ApplyTerm(a, v, 1, b.c0);
    ApplyTerm(a, v, 2, b.c1);
    ApplyTerm(a, v, 4, b.c2);
    ApplyTerm(a, v, 8, b.c3);
    ApplyTerm(a, v, 16, b.c4);
    ApplyFive(a, Term(v, 1, b.c0), Term(v, 2, b.c1), Term(v, 4, b.c2), Term(v, 8, b.c3), Term(v, 16, b.c4));
  }

  lemma ComposedHigh(a: Linear, b: Linear, v: bv10)
    ensures Apply(a, High(b, v)) == High(Compose(a, b), v)
  {
    hide Apply, Term, Add, Bit;
    ApplyTerm(a, v, 32, b.c5);
    ApplyTerm(a, v, 64, b.c6);
    ApplyTerm(a, v, 128, b.c7);
    ApplyTerm(a, v, 256, b.c8);
    ApplyTerm(a, v, 512, b.c9);
    ApplyFive(a, Term(v, 32, b.c5), Term(v, 64, b.c6), Term(v, 128, b.c7), Term(v, 256, b.c8), Term(v, 512, b.c9));
  }
}
