/** The compact encoding of 256-bit targets, and the work a target stands for. */
module ArithCompact {
  import opened IntMath
  import opened Limbs
  import opened ArithUint256

  const WIDTH: nat := 8
  const MANTISSA: nat := 0x80_0000
  const EXPONENT: nat := 0x100_0000

  // ---- What the format means ----

  function SizeOf(compact: nat): nat {
    compact / EXPONENT
  }

  function WordOf(compact: nat): nat {
    compact % MANTISSA
  }

  predicate SignOf(compact: nat) {
    compact / MANTISSA % 2 == 1
  }

  /** 256^n. */
  function Bytes(n: nat): (p: nat)
    ensures p > 0
  {
    Pow2(8 * n)
  }

  lemma BytesAdd(m: nat, n: nat)
    ensures Bytes(m + n) == Bytes(m) * Bytes(n)
  {
    Pow2Add(8 * m, 8 * n);
    assert 8 * (m + n) == 8 * m + 8 * n;
  }

  lemma BytesSmall()
    ensures Bytes(0) == 1 && Bytes(1) == 256 && Bytes(2) == 65536 && Bytes(3) == EXPONENT && Bytes(32) == Weight(WIDTH)
  {
    Pow2Limb();
  }

  /** mantissa * 256^(exponent - 3), before any limit on its size. */
  function Expanded(compact: nat): nat {
    var size, word := SizeOf(compact), WordOf(compact);
    if size <= 3 then QuotientBound(word, Bytes(3 - size)); word / Bytes(3 - size)
    else TimesNat(word, Bytes(size - 3)); word * Bytes(size - 3)
  }

  /** The number of bytes of a value. */
  function ByteSize(v: nat): nat {
    if v == 0 then 0 else 1 + ByteSize(v / 256)
  }

  lemma {:induction false} ByteSizeIs(v: nat)
    ensures v < Bytes(ByteSize(v)) && (v > 0 ==> ByteSize(v) > 0 && Bytes(ByteSize(v) - 1) <= v)
  {
    BytesSmall();
    if v > 0 {
      ByteSizeIs(v / 256);
      var n := ByteSize(v / 256);
      BytesAdd(1, n);
      DivMod(v, 256);
      if v / 256 > 0 {
        BytesAdd(1, n - 1);
      }
    }
  }

  /** Between two powers of 256 there is only one size. */
  lemma ByteSizeUnique(v: nat, n: nat)
    requires v < Bytes(n) && (n > 0 ==> Bytes(n - 1) <= v)
    ensures ByteSize(v) == n
  {
    hide Bytes;
    ByteSizeIs(v);
    BytesSmall();
    if ByteSize(v) < n {
      BytesMono(ByteSize(v), n - 1);
    } else if n < ByteSize(v) {
      BytesMono(n, ByteSize(v) - 1);
    }
  }

  lemma BytesMono(m: nat, n: nat)
    requires m <= n
    ensures Bytes(m) <= Bytes(n)
  {
    Pow2Mono(8 * m, 8 * n);
  }

  /** The leading three bytes of a value. */
  function Leading(v: nat): nat {
    var n := ByteSize(v);
    if n <= 3 then TimesNat(v, Bytes(3 - n)); v * Bytes(3 - n)
    else QuotientBound(v, Bytes(n - 3)); v / Bytes(n - 3)
  }

  lemma LeadingBound(v: nat)
    ensures 0 <= Leading(v) < EXPONENT
  {
    hide Bytes;
    ByteSizeIs(v);
    var n := ByteSize(v);
    BytesSmall();
    if n <= 3 {
      BytesAdd(n, 3 - n);
      MulLimit(v, Bytes(n), Bytes(3 - n));
    } else {
      BytesAdd(3, n - 3);
      assert 3 + (n - 3) == n;
      QuotientBound(v, Bytes(n - 3));
      QuotientLess(v, Bytes(n - 3), EXPONENT);
    }
  }

  /** Mantissa and exponent: when the sign bit would be hit, one byte less and one exponent more. */
  function Mantissa(v: nat): (m: nat)
    ensures m < MANTISSA
  {
    LeadingBound(v);
    if Leading(v) >= MANTISSA then Leading(v) / 256 else Leading(v)
  }

  function Exponent(v: nat): nat {
    if Leading(v) >= MANTISSA then ByteSize(v) + 1 else ByteSize(v)
  }

  function Compact(v: nat): nat {
    Mantissa(v) + Exponent(v) * EXPONENT
  }

  lemma CompactParts(v: nat)
    ensures SizeOf(Compact(v)) == Exponent(v) && WordOf(Compact(v)) == Mantissa(v) && !SignOf(Compact(v))
  {
    hide Mantissa, Exponent;
    var m, e := Mantissa(v), Exponent(v);
    DivModUnique(Compact(v), EXPONENT, e, m);
    DivModUnique(Compact(v), MANTISSA, 2 * e, m);
  }

  // ---- Round trip ----

  /** How many low bytes the encoding drops. */
  function DroppedBytes(v: nat): nat {
    if Exponent(v) <= 3 then 0 else Exponent(v) - 3
  }

  /** The value without its n lowest bytes. */
  function Cleared(v: nat, n: nat): nat {
    QuotientBound(v, Bytes(n));
    TimesNat(v / Bytes(n), Bytes(n));
    (v / Bytes(n)) * Bytes(n)
  }

  lemma DivTwice(v: nat, a: nat, b: nat)
    requires a > 0 && b > 0
    ensures a * b > 0 && v / a / b == v / (a * b)
  {
    DivMod(v, a);
    DivMod(v / a, b);
    var q, r1, r2 := v / a / b, v % a, v / a % b;
    MulMono(r2 + 1, b, a);
    SumTimes(r2, 1, a);
    SumTimes(q * b, r2, a);
    MulAssoc(q, b, a);
    MulAtLeast(a, b);
    DivModUnique(v, a * b, q, r2 * a + r1);
  }

  lemma DivExact(v: nat, a: nat)
    requires a > 0
    ensures v * a / a == v
  {
    DivModUnique(v * a, a, v, 0);
  }

  /** The mantissa is the value without the dropped bytes, or the whole value moved up to three bytes. */
  lemma MantissaIs(v: nat)
    ensures Exponent(v) <= 3 ==> Mantissa(v) == v * Bytes(3 - Exponent(v))
    ensures Exponent(v) > 3 ==> Mantissa(v) == v / Bytes(Exponent(v) - 3)
  {
    hide Bytes, ByteSize;
    var n := ByteSize(v);
    BytesSmall();
    LeadingBound(v);
    if Leading(v) >= MANTISSA {
      if n < 3 {
        BytesAdd(2 - n, 1);
        assert 2 - n + 1 == 3 - n;
        MulAssoc(v, Bytes(2 - n), 256);
        DivExact(v * Bytes(2 - n), 256);
      } else if n == 3 {
        assert v * Bytes(0) == v;
      } else {
        BytesAdd(n - 3, 1);
        assert n - 3 + 1 == n - 2;
        DivTwice(v, Bytes(n - 3), 256);
      }
    } else if n == 3 {
      assert v * Bytes(0) == v;
    }
  }

  /** Decoding an encoded value gives it back with only low-order bytes cleared. */
  lemma Decompacted(v: nat)
    ensures Expanded(Compact(v)) == Cleared(v, DroppedBytes(v)) <= v
  {
    hide Bytes, Mantissa, Exponent;
    CompactParts(v);
    MantissaIs(v);
    BytesSmall();
    var e := Exponent(v);
    if e <= 3 {
      DivExact(v, Bytes(3 - e));
      DivExact(v, 1);
    }
    DivMod(v, Bytes(DroppedBytes(v)));
  }

  /** The encoding keeps at least the leading byte: what it drops is less than the value's size less one. */
  lemma DroppedFew(v: nat)
    ensures v > 0 ==> DroppedBytes(v) < ByteSize(v)
    ensures v == 0 ==> DroppedBytes(v) == 0
  {
    hide Bytes, Leading;
    ByteSizeIs(v);
    if v == 0 {
      LeadingZero();
    }
  }

  lemma LeadingZero()
    ensures Leading(0) == 0 && ByteSize(0) == 0
  {
  }

  /** Clearing fewer bytes than there are keeps the size. */
  lemma ClearedSize(v: nat, n: nat)
    requires v > 0 ==> n < ByteSize(v)
    ensures ByteSize(Cleared(v, n)) == ByteSize(v)
  {
    hide Bytes;
    ByteSizeIs(v);
    DivMod(v, Bytes(n));
    if v > 0 {
      var s := ByteSize(v);
      BytesAdd(n, s - 1 - n);
      assert n + (s - 1 - n) == s - 1;
      var k := Bytes(s - 1 - n);
      MultipleBelow(v, Bytes(n), k);
      ByteSizeUnique(Cleared(v, n), s);
    } else {
      DivModUnique(0, Bytes(n), 0, 0);
    }
  }

  /** The largest multiple of a not above v is at least any multiple not above v. */
  lemma MultipleBelow(v: nat, a: nat, k: nat)
    requires a > 0 && a * k <= v
    ensures a * k <= (v / a) * a
  {
    DivMod(v, a);
    SumTimes(v / a, 1, a);
    MulLess(k, v / a + 1, a);
    MulMono(k, v / a, a);
  }

  /** The leading bytes of the cleared value: the same, but for the last one if that was dropped too. */
  lemma ClearedLeading(v: nat)
    ensures
      var c := Cleared(v, DroppedBytes(v));
      if Leading(v) >= MANTISSA && ByteSize(v) >= 3 then Leading(c) == Leading(v) / 256 * 256
      else Leading(c) == Leading(v)
  {
    hide Bytes, ByteSize;
    var n, t := ByteSize(v), DroppedBytes(v);
    var c := Cleared(v, t);
    DroppedFew(v);
    ClearedSize(v, t);
    BytesSmall();
    DivExact(v, 1);
    if t > 0 {
      if Leading(v) >= MANTISSA {
        BytesAdd(n - 3, 1);
        assert n - 3 + 1 == t;
        DivTwice(v, Bytes(n - 3), 256);
        Swap3(v / Bytes(t), Bytes(n - 3), 256);
        MulAssoc(v / Bytes(t), Bytes(n - 3), 256);
        DivExact(v / Bytes(t) * 256, Bytes(n - 3));
        if n == 3 {
          DivExact(v, 1);
        }
      } else {
        DivExact(v / Bytes(t), Bytes(t));
      }
    }
  }

  /** Encoding again gives the same. */
  lemma CompactAgain(v: nat)
    ensures Compact(Expanded(Compact(v))) == Compact(v)
  {
    hide Bytes, ByteSize, Leading, Expanded;
    Decompacted(v);
    var c := Cleared(v, DroppedBytes(v));
    DroppedFew(v);
    ClearedSize(v, DroppedBytes(v));
    ClearedLeading(v);
    LeadingBound(v);
    DivMod(Leading(v), 256);
    TopBitKept(Leading(v));
  }

  lemma TopBitKept(m: nat)
    ensures m >= MANTISSA ==> m / 256 * 256 >= MANTISSA && m / 256 * 256 / 256 == m / 256
  {
  }

  /**
    A 256-bit value encodes to 32 bits without sign; decoding that is never negative or too large,
    gives the value with only low-order bytes cleared, and encodes to the same again.
   */
  lemma CompactRoundTrip(v: nat)
    requires v < Bytes(32)
    ensures Compact(v) < LIMB && !SignOf(Compact(v))
    ensures Expanded(Compact(v)) == Cleared(v, DroppedBytes(v)) < Bytes(32)
    ensures Compact(Expanded(Compact(v))) == Compact(v)
  {
    hide Bytes, ByteSize, Leading, Expanded;
    Decompacted(v);
    CompactAgain(v);
    CompactParts(v);
    ByteSizeIs(v);
    LeadingZero();
    if ByteSize(v) > 32 {
      BytesMono(32, ByteSize(v) - 1);
    }
  }

  // ---- Overflow ----

  predicate Overflows(size: nat, word: nat) {
    word != 0 && (size > 34 || (word > 0xff && size > 33) || (word > 0xffff && size > 32))
  }

  /** The flag is set exactly when the number does not fit 256 bits. */
  lemma OverflowIff(size: nat, word: nat)
    requires size > 3 && word < MANTISSA
    ensures Overflows(size, word) <==> word * Bytes(size - 3) >= Bytes(32)
  {
    hide Bytes;
    BytesSmall();
    var p := Bytes(size - 3);
    if size <= 32 {
      BytesAdd(3, size - 3);
      BytesMono(size, 32);
      MulLimit(word, EXPONENT, p);
    } else if size == 33 {
      BytesAdd(2, 30);
      Threshold(word, 65536, p);
    } else if size == 34 {
      BytesAdd(1, 31);
      Threshold(word, 256, p);
    } else {
      BytesMono(32, size - 3);
      if word > 0 {
        MulAtLeast(p, word);
      }
    }
  }

  lemma Threshold(word: nat, limit: nat, p: nat)
    requires p > 0
    ensures word * p >= limit * p <==> word >= limit
  {
    if word >= limit {
      MulMono(limit, word, p);
    } else {
      MulLimit(word, limit, p);
    }
  }

  // ---- The code ----

  /** Assign a number that fits one limb. */
  method Assign(a: Limbs32, n: nat)
    requires a.Length == WIDTH && n < LIMB
    modifies a
    ensures Ok(a) && Value(a) == n
  {
    hide Val;
    Clear(a);
    a[0] := n;
    SingleLimb(a[..], n);
  }

  lemma SingleLimb(s: seq<nat>, n: nat)
    requires |s| > 0 && s[0] == n && forall i | 0 < i < |s| :: s[i] == 0
    ensures Val(s) == n
  {
    hide Val, Weight;
    ValSplit(s, 1);
    ZeroVal(s[1..]);
    ValNext(s, 0);
    ValAll(s);
    WeightNext(0);
  }

  method SetCompact(a: Limbs32, compact: nat) returns (negative: bool, overflow: bool)
    requires a.Length == WIDTH && compact < LIMB
    modifies a
    ensures Ok(a) && Value(a) == Expanded(compact) % Bytes(32)
    ensures overflow <==> Expanded(compact) >= Bytes(32)
    ensures negative <==> SignOf(compact) && SmallWord(compact) != 0
  {
    hide Val, Bytes, Weight;
    BytesSmall();
    var size := compact / EXPONENT;
    var word: nat := compact % MANTISSA;
    if size <= 3 {
      QuotientBound(word, Bytes(3 - size));
      BytesMono(3, 32);
      word := word / Bytes(3 - size);
      Assign(a, word);
      SmallMod(word, Bytes(32));
    } else {
      Assign(a, word);
      ShiftLeft(a, 8 * (size - 3));
      BytesIs(size - 3);
      OverflowIff(size, word);
    }
    negative := word != 0 && SignOf(compact);
    overflow := Overflows(size, word);
  }

  lemma BytesIs(n: nat)
    ensures Bytes(n) == Pow2(8 * n)
  {
  }

  /** The mantissa that counts for the sign: what is left of it after the shift down. */
  function SmallWord(compact: nat): int {
    if SizeOf(compact) <= 3 then WordOf(compact) / Bytes(3 - SizeOf(compact)) else WordOf(compact)
  }

  method GetCompact(a: Limbs32, negative: bool) returns (compact: nat)
    requires Ok(a) && a.Length == WIDTH
    ensures compact == Compact(Value(a)) + if negative && Mantissa(Value(a)) != 0 then MANTISSA else 0
  {
    hide Val, Bytes, Weight, ByteSize, Expanded, AllLimbs;
    ghost var v := Value(a);
    var bits := Bits(a);
    var size := (bits + 7) / 8;
    SizeFromBits(v, bits);
    LeadingBound(v);
    BytesSmall();
    if size <= 3 {
      LowLimb(a[..], size);
      compact := a[0] * Bytes(3 - size);
    } else {
      var bn := Clone(a);
      ShiftRight(bn, 8 * (size - 3));
      BytesIs(size - 3);
      LowLimb(bn[..], 3);
      compact := bn[0];
    }
    assert compact == Leading(v);
    if compact >= MANTISSA {
      compact := compact / 256;
      size := size + 1;
    }
    assert compact < MANTISSA;
    var word := compact;
    compact := compact + size * EXPONENT;
    if negative && word != 0 {
      compact := compact + MANTISSA;
    }
  }

  lemma SizeFromBits(v: nat, bits: nat)
    requires bits == 0 <==> v == 0
    requires bits > 0 ==> Pow2(bits - 1) <= v < Pow2(bits)
    ensures ByteSize(v) == (bits + 7) / 8
  {
    hide ByteSize, Pow2;
    var n := (bits + 7) / 8;
    if bits > 0 {
      Pow2Mono(bits, 8 * n);
      Pow2Mono(8 * (n - 1), bits - 1);
    } else {
      BytesSmall();
    }
    ByteSizeUnique(v, n);
  }

  /** A value below 256^3 is in the lowest limb. */
  lemma LowLimb(s: seq<nat>, n: nat)
    requires |s| > 0 && AllLimbs(s) && n <= 3 && Val(s) < Bytes(n)
    ensures s[0] == Val(s)
  {
    hide Val, Bytes, Weight;
    BytesSmall();
    BytesMono(n, 3);
    ValSplit(s, 1);
    ValNext(s, 0);
    ValAll(s);
    WeightNext(0);
    BelowOne(LIMB, Val(s[1..]));
  }

  // ---- Work ----

  /** The expected number of hashes for a target: 2^256 / (target + 1), or zero for a target that is refused. */
  function Proof(compact: nat): int {
    var target := Expanded(compact);
    if (SignOf(compact) && SmallWord(compact) != 0) || target >= Bytes(32) || target == 0 then 0
    else Bytes(32) / (target + 1)
  }

  /** A decoded target is never the largest number, so adding one to it does not wrap. */
  lemma TargetBelowTop(compact: nat)
    requires Expanded(compact) < Bytes(32)
    ensures Expanded(compact) + 1 < Bytes(32)
  {
    hide Bytes;
    BytesSmall();
    BytesAdd(1, 31);
    var size, word := SizeOf(compact), WordOf(compact);
    if size <= 3 {
      QuotientBound(word, Bytes(3 - size));
      BytesMono(4, 32);
      BytesAdd(1, 3);
    } else {
      BytesAdd(1, size - 4);
      assert 1 + (size - 4) == size - 3;
      MulAssoc(word, 256, Bytes(size - 4));
      Swap3(word, 256, Bytes(size - 4));
      EvenApart(word * Bytes(size - 4), Bytes(31));
    }
  }

  lemma EvenApart(x: nat, y: nat)
    requires x * 256 < y * 256
    ensures x * 256 + 1 < y * 256
  {
  }

  lemma Complement(m: nat, t: nat)
    requires 0 < t && t + 1 < m
    ensures (m - 1 - t) / (t + 1) + 1 == m / (t + 1) && 0 <= m / (t + 1) < m
  {
    var d := t + 1;
    DivMod(m, d);
    SumTimes(m / d, -1, d);
    QuotientBound(m, d);
    DivModUnique(m - d, d, m / d - 1, m % d);
    QuotientHalf(m, d);
  }

  lemma QuotientHalf(m: nat, d: nat)
    requires m > 0 && d >= 2
    ensures m / d < m
  {
    DivMod(m, d);
    QuotientBound(m, d);
    MulMono(2, d, m / d);
  }

  method GetBitsProof(compact: nat) returns (r: Limbs32)
    requires compact < LIMB
    ensures r.Length == WIDTH && Ok(r) && Value(r) == Proof(compact)
  {
    hide Val, Bytes, Weight, AllLimbs, Expanded, SignOf, SmallWord;
    BytesSmall();
    var target := new nat[WIDTH](_ => 0);
    var negative, overflow := SetCompact(target, compact);
    ghost var t := Value(target);
    r := new nat[WIDTH](_ => 0);
    Assign(r, 0);
    var c := Compare(target, r);
    if negative || overflow || c == 0 {
      if !overflow {
        SmallMod(Expanded(compact), Bytes(32));
      }
      return;
    }
    SmallMod(Expanded(compact), Bytes(32));
    TargetBelowTop(compact);
    Complement(Bytes(32), t);
    r := Not(target);
    Increment(target);
    SmallMod(t + 1, Bytes(32));
    var q, rest := Divide(r, target);
    Increment(r);
    SmallMod(Bytes(32) / (t + 1), Bytes(32));
  }
}
