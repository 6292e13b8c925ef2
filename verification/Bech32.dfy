/** Bech32 and Bech32m strings: a human-readable part, a separator, and 5-bit values with a checksum. */
module Bech32 {
  import opened Wrappers
  import opened Bech32Code

  datatype Encoding = BECH32 | BECH32M

  datatype DecodeResult = Invalid | Valid(encoding: Encoding, hrp: string, data: seq<bv5>)

  const SEPARATOR := '1'
  const CHECKSUM_SIZE := 6

  function EncodingConstant(e: Encoding): bv32 {
    if e == BECH32 then 1 else 0x2bc8_30a3
  }

  lemma ConstantsApart()
    ensures EncodingConstant(BECH32) != EncodingConstant(BECH32M)
    ensures Packed(EncodingConstant(BECH32)) && Packed(EncodingConstant(BECH32M)) && Packed(1)
  {
  }

  // ---- Characters ----

  function Letter(v: bv5): char {
    if v < 8 then Letter0(v) else if v < 16 then Letter8(v) else if v < 24 then Letter16(v) else Letter24(v)
  }

  function Letter0(v: bv5): char {
    if v == 0 then 'q' else if v == 1 then 'p' else if v == 2 then 'z' else if v == 3 then 'r' else
    if v == 4 then 'y' else if v == 5 then '9' else if v == 6 then 'x' else '8'
  }

  function Letter8(v: bv5): char {
    if v == 8 then 'g' else if v == 9 then 'f' else if v == 10 then '2' else if v == 11 then 't' else
    if v == 12 then 'v' else if v == 13 then 'd' else if v == 14 then 'w' else '0'
  }

  function Letter16(v: bv5): char {
    if v == 16 then 's' else if v == 17 then '3' else if v == 18 then 'j' else if v == 19 then 'n' else
    if v == 20 then '5' else if v == 21 then '4' else if v == 22 then 'k' else 'h'
  }

  function Letter24(v: bv5): char {
    if v == 24 then 'c' else if v == 25 then 'e' else if v == 26 then '6' else if v == 27 then 'm' else
    if v == 28 then 'u' else if v == 29 then 'a' else if v == 30 then '7' else 'l'
  }

  /** The characters that stand for values, in either case. */
  predicate HasValue(c: char) {
    var l := LowerCase(c);
    Among0(l) || Among8(l) || Among16(l) || Among24(l)
  }

  function ValueOf(c: char): bv5 {
    var l := LowerCase(c);
    if Among0(l) then Value0(l) else if Among8(l) then Value8(l) else if Among16(l) then Value16(l) else Value24(l)
  }

  predicate Among0(l: char) {
    l == 'q' || l == 'p' || l == 'z' || l == 'r' || l == 'y' || l == '9' || l == 'x' || l == '8'
  }

  function Value0(l: char): bv5 {
    if l == 'q' then 0 else if l == 'p' then 1 else if l == 'z' then 2 else if l == 'r' then 3
    else if l == 'y' then 4 else if l == '9' then 5 else if l == 'x' then 6 else 7
  }

  predicate Among8(l: char) {
    l == 'g' || l == 'f' || l == '2' || l == 't' || l == 'v' || l == 'd' || l == 'w' || l == '0'
  }

  function Value8(l: char): bv5 {
    if l == 'g' then 8 else if l == 'f' then 9 else if l == '2' then 10 else if l == 't' then 11
    else if l == 'v' then 12 else if l == 'd' then 13 else if l == 'w' then 14 else 15
  }

  predicate Among16(l: char) {
    l == 's' || l == '3' || l == 'j' || l == 'n' || l == '5' || l == '4' || l == 'k' || l == 'h'
  }

  function Value16(l: char): bv5 {
    if l == 's' then 16 else if l == '3' then 17 else if l == 'j' then 18 else if l == 'n' then 19
    else if l == '5' then 20 else if l == '4' then 21 else if l == 'k' then 22 else 23
  }

  predicate Among24(l: char) {
    l == 'c' || l == 'e' || l == '6' || l == 'm' || l == 'u' || l == 'a' || l == '7' || l == 'l'
  }

  function Value24(l: char): bv5 {
    if l == 'c' then 24 else if l == 'e' then 25 else if l == '6' then 26 else if l == 'm' then 27
    else if l == 'u' then 28 else if l == 'a' then 29 else if l == '7' then 30 else 31
  }

  predicate IsLower(c: char) {
    'a' <= c <= 'z'
  }

  predicate IsUpper(c: char) {
    'A' <= c <= 'Z'
  }

  function LowerCase(c: char): char {
    if IsUpper(c) then (c as int - 'A' as int + 'a' as int) as char else c
  }

  /** The printable range. */
  predicate Printable(c: char) {
    33 <= c as int <= 126
  }

  lemma LetterPlain(v: bv5)
    ensures Printable(Letter(v)) && !IsUpper(Letter(v)) && Letter(v) != SEPARATOR
  {
  }

  lemma LetterHasValue(v: bv5)
    ensures HasValue(Letter(v))
  {
    hide LowerCase;
    LetterPlain(v);
    LowerOfLower(Letter(v));
  }

  lemma LowerOfLower(c: char)
    requires !IsUpper(c)
    ensures LowerCase(c) == c
  {
  }

  lemma LetterValue(v: bv5)
    ensures ValueOf(Letter(v)) == v
  {
    hide Letter, LowerCase, Value0, Value8, Value16, Value24;
    LetterPlain(v);
    LowerOfLower(Letter(v));
    if v < 8 {
      LetterValue0(v);
    } else if v < 16 {
      LetterValue8(v);
    } else if v < 24 {
      LetterValue16(v);
    } else {
      LetterValue24(v);
    }
  }

  lemma LetterValue0(v: bv5)
    requires v < 8
    ensures Among0(Letter(v)) && Value0(Letter(v)) == v
  {
  }

  lemma LetterValue8(v: bv5)
    requires 8 <= v < 16
    ensures Among8(Letter(v)) && Value8(Letter(v)) == v
  {
  }

  lemma LetterValue16(v: bv5)
    requires 16 <= v < 24
    ensures Among16(Letter(v)) && Value16(Letter(v)) == v
  {
  }

  lemma LetterValue24(v: bv5)
    requires 24 <= v
    ensures Among24(Letter(v)) && Value24(Letter(v)) == v
  {
  }

  lemma ValueLetter(c: char)
    requires HasValue(c)
    ensures Letter(ValueOf(c)) == LowerCase(c) && c != SEPARATOR
  {
  }

  // ---- What the code computes ----

  ghost predicate SomeLower(s: string) {
    exists i :: 0 <= i < |s| && IsLower(s[i])
  }

  ghost predicate SomeUpper(s: string) {
    exists i :: 0 <= i < |s| && IsUpper(s[i])
  }

  predicate AllPrintable(s: string) {
    forall i | 0 <= i < |s| :: Printable(s[i])
  }

  /** Printable characters, not of both cases. */
  ghost predicate CharsOk(s: string) {
    AllPrintable(s) && !(SomeLower(s) && SomeUpper(s))
  }

  function Lower(s: string): (r: string)
    ensures |r| == |s|
  {
    seq(|s|, i requires 0 <= i < |s| => LowerCase(s[i]))
  }

  function Letters(vs: seq<bv5>): (s: string)
    ensures |s| == |vs|
  {
    seq(|vs|, i requires 0 <= i < |vs| => Letter(vs[i]))
  }

  predicate AllValues(s: string) {
    forall i | 0 <= i < |s| :: HasValue(s[i])
  }

  function Values(s: string): (vs: seq<bv5>)
    ensures |vs| == |s|
  {
    seq(|s|, i requires 0 <= i < |s| => ValueOf(s[i]))
  }

  function High(c: char): bv5 {
    (c as int / 32 % 32) as bv5
  }

  function Low(c: char): bv5 {
    (c as int % 32) as bv5
  }

  /** The human-readable part as it enters the checksum: high bits, a zero, low bits. */
  function Expand(hrp: string): seq<bv5> {
    seq(|hrp|, i requires 0 <= i < |hrp| => High(hrp[i])) + [0] + seq(|hrp|, i requires 0 <= i < |hrp| => Low(hrp[i]))
  }

  function Check(hrp: string, values: seq<bv5>): bv32 {
    ConstantsApart();
    PolyModFrom(1, Expand(hrp) + values)
  }

  function Encoded(e: Encoding, hrp: string, values: seq<bv5>): string {
    ConstantsApart();
    hrp + [SEPARATOR] + Letters(values + Checksum(Expand(hrp) + values, EncodingConstant(e)))
  }

  /** The position of the last separator, or -1. */
  function LastSeparator(s: string): (r: int)
    ensures -1 <= r < |s| && (r >= 0 ==> s[r] == SEPARATOR) && forall i | r < i < |s| :: s[i] != SEPARATOR
  {
    if s == [] then -1 else if s[|s| - 1] == SEPARATOR then |s| - 1 else LastSeparator(s[..|s| - 1])
  }

  ghost function Decoded(s: string, limit: nat): DecodeResult {
    var pos := LastSeparator(s);
    if !CharsOk(s) || |s| > limit || pos <= 0 || pos + CHECKSUM_SIZE >= |s| || !AllValues(s[pos + 1..]) then Invalid
    else
      var values, hrp := Values(s[pos + 1..]), Lower(s[..pos]);
      var data := values[..|values| - CHECKSUM_SIZE];
      if Check(hrp, values) == EncodingConstant(BECH32) then Valid(BECH32, hrp, data)
      else if Check(hrp, values) == EncodingConstant(BECH32M) then Valid(BECH32M, hrp, data)
      else Invalid
  }

  // ---- Round trips ----

  predicate NoUpper(s: string) {
    forall i | 0 <= i < |s| :: !IsUpper(s[i])
  }

  lemma LettersPlain(vs: seq<bv5>)
    ensures AllPrintable(Letters(vs)) && NoUpper(Letters(vs)) && SEPARATOR !in Letters(vs)
    ensures AllValues(Letters(vs)) && Values(Letters(vs)) == vs
  {
    hide Letter, HasValue, ValueOf, Printable, IsUpper;
    forall i | 0 <= i < |vs|
      ensures Printable(Letters(vs)[i]) && !IsUpper(Letters(vs)[i]) && Letters(vs)[i] != SEPARATOR
      ensures HasValue(Letters(vs)[i]) && ValueOf(Letters(vs)[i]) == vs[i]
    {
      LetterPlain(vs[i]);
      LetterHasValue(vs[i]);
      LetterValue(vs[i]);
    }
  }

  lemma ValuesLetters(s: string)
    requires AllValues(s)
    ensures Letters(Values(s)) == Lower(s)
  {
    hide Letter, HasValue, ValueOf, LowerCase;
    forall i | 0 <= i < |s|
      ensures Letters(Values(s))[i] == LowerCase(s[i])
    {
      ValueLetter(s[i]);
    }
  }

  lemma LowerIsSame(s: string)
    requires NoUpper(s)
    ensures Lower(s) == s
  {
  }

  lemma NoUpperOk(s: string)
    requires NoUpper(s)
    ensures CharsOk(s) <==> AllPrintable(s)
  {
  }

  lemma SeparatorAt(hrp: string, rest: string)
    requires SEPARATOR !in rest
    ensures LastSeparator(hrp + [SEPARATOR] + rest) == |hrp|
  {
    hide LastSeparator;
    var s := hrp + [SEPARATOR] + rest;
    forall i | |hrp| < i < |s|
      ensures s[i] != SEPARATOR
    {
      assert s[i] == rest[i - |hrp| - 1];
    }
    LastIs(s, |hrp|);
  }

  lemma LastIs(s: string, k: nat)
    requires k < |s| && s[k] == SEPARATOR && forall i | k < i < |s| :: s[i] != SEPARATOR
    ensures LastSeparator(s) == k
  {
    hide LastSeparator;
    assert LastSeparator(s) >= k;
  }

  /** Splitting a well-formed string gives back its parts. */
  lemma Split(hrp: string, vs: seq<bv5>)
    requires NoUpper(hrp)
    ensures
      var s := hrp + [SEPARATOR] + Letters(vs);
      && LastSeparator(s) == |hrp| && s[..|hrp|] == hrp && s[|hrp| + 1..] == Letters(vs)
      && NoUpper(s) && (AllPrintable(s) <==> AllPrintable(hrp))
  {
    hide Letters, LastSeparator;
    var rest := Letters(vs);
    var s := hrp + [SEPARATOR] + rest;
    LettersPlain(vs);
    SeparatorAt(hrp, rest);
    forall i | 0 <= i < |s|
      ensures !IsUpper(s[i]) && (i >= |hrp| ==> Printable(s[i]))
    {
      if i > |hrp| {
        assert s[i] == rest[i - |hrp| - 1];
      } else if i < |hrp| {
        assert s[i] == hrp[i];
      }
    }
    forall i | 0 <= i < |hrp|
      ensures s[i] == hrp[i]
    {
    }
  }

  /** Decoding undoes encoding exactly when the human-readable part is printable, not empty, and the limit is kept. */
  lemma DecodeEncode(e: Encoding, hrp: string, values: seq<bv5>, limit: nat)
    requires NoUpper(hrp)
    ensures Decoded(Encoded(e, hrp, values), limit) ==
      if hrp != [] && AllPrintable(hrp) && |hrp| + 1 + |values| + CHECKSUM_SIZE <= limit then Valid(e, hrp, values)
      else Invalid
  {
    hide PolyModFrom, Letters, Values, LastSeparator, Expand, Checksum, CharsOk, Lower, AllPrintable, NoUpper;
    hide AllValues, Packed;
    ConstantsApart();
    var chk := Checksum(Expand(hrp) + values, EncodingConstant(e));
    var all := values + chk;
    var s := Encoded(e, hrp, values);
    Split(hrp, all);
    NoUpperOk(s);
    LettersPlain(all);
    LowerIsSame(hrp);
    ChecksumIff(Expand(hrp) + values, chk, EncodingConstant(e));
    assert Expand(hrp) + all == Expand(hrp) + values + chk;
    assert all[..|all| - CHECKSUM_SIZE] == values;
  }

  /** Encoding undoes decoding: an accepted string is, in lower case, the encoding of what it decodes to. */
  lemma EncodeDecode(s: string, limit: nat)
    ensures
      var r := Decoded(s, limit);
      r.Valid? ==> NoUpper(r.hrp) && Encoded(r.encoding, r.hrp, r.data) == Lower(s)
  {
    hide PolyModFrom, Letters, Values, LastSeparator, Expand, Checksum, CharsOk, Lower, AllPrintable, NoUpper;
    hide AllValues, Packed;
    var r := Decoded(s, limit);
    if r.Valid? {
      ConstantsApart();
      var pos := LastSeparator(s);
      var values := Values(s[pos + 1..]);
      var chk := values[|values| - CHECKSUM_SIZE..];
      assert values == r.data + chk;
      assert Expand(r.hrp) + values == Expand(r.hrp) + r.data + chk;
      ChecksumIff(Expand(r.hrp) + r.data, chk, EncodingConstant(r.encoding));
      ValuesLetters(s[pos + 1..]);
      LowerSplit(s, pos);
    }
  }

  lemma LowerSplit(s: string, pos: nat)
    requires pos < |s| && s[pos] == SEPARATOR
    ensures Lower(s) == Lower(s[..pos]) + [SEPARATOR] + Lower(s[pos + 1..]) && NoUpper(Lower(s[..pos]))
  {
    assert s == s[..pos] + [SEPARATOR] + s[pos + 1..];
  }

  // ---- Detection of errors ----

  /** With the same human-readable part, errors within six consecutive values are detected. */
  lemma ErrorsDetected(hrp: string, xs: seq<bv5>, ys: seq<bv5>, at: nat)
    requires DifferInWindow(xs, ys, at) && |xs| >= CHECKSUM_SIZE
    ensures Check(hrp, xs) != Check(hrp, ys)
  {
    hide PolyModFrom, Expand, Packed;
    ConstantsApart();
    var p := Expand(hrp);
    var start := if at + 6 <= |xs| then at else |xs| - 6;
    assert (p + xs)[|p|..] == xs && (p + ys)[|p|..] == ys;
    WindowDetected(1, p + xs, p + ys, |p| + start);
  }

  // ---- The code ----

  method CheckCharacters(s: string) returns (errors: seq<nat>)
    ensures errors == [] <==> CharsOk(s)
    ensures forall i: nat :: i in errors <==> i < |s| && Offends(s, i)
    ensures forall j, k | 0 <= j < k < |errors| :: errors[j] < errors[k]
  {
    errors := [];
    var lower, upper := false, false;
    for i := 0 to |s|
      invariant errors == [] ==> (lower <==> SomeLower(s[..i])) && (upper <==> SomeUpper(s[..i]))
      invariant errors == [] <==> CharsOk(s[..i])
      invariant FirstCase(s, i) == if lower then Some(false) else if upper then Some(true) else None
      invariant !(lower && upper)
      invariant forall k: nat :: k in errors <==> k < i && Offends(s, k)
      invariant forall j | 0 <= j < |errors| :: errors[j] < i
      invariant forall j, k | 0 <= j < k < |errors| :: errors[j] < errors[k]
    {
      CharsNext(s, i);
      var c := s[i];
      if IsLower(c) {
        if upper {
          errors := errors + [i];
        } else {
          lower := true;
        }
      } else if IsUpper(c) {
        if lower {
          errors := errors + [i];
        } else {
          upper := true;
        }
      } else if !Printable(c) {
        errors := errors + [i];
      }
    }
    assert s[..|s|] == s;
  }

  /** The case of the first letter among the first `i` characters: upper or not. */
  function FirstCase(s: string, i: nat): Option<bool>
    requires i <= |s|
  {
    if i == 0 then None
    else if FirstCase(s, i - 1).Some? then FirstCase(s, i - 1)
    else if IsLower(s[i - 1]) then Some(false)
    else if IsUpper(s[i - 1]) then Some(true)
    else None
  }

  /** An unprintable character, or a letter of another case than the first one. */
  predicate Offends(s: string, i: nat)
    requires i < |s|
  {
    || (IsLower(s[i]) && FirstCase(s, i) == Some(true))
    || (IsUpper(s[i]) && FirstCase(s, i) == Some(false))
    || !Printable(s[i])
  }

  lemma CharsNext(s: string, i: nat)
    requires i < |s|
    ensures SomeLower(s[..i + 1]) <==> SomeLower(s[..i]) || IsLower(s[i])
    ensures SomeUpper(s[..i + 1]) <==> SomeUpper(s[..i]) || IsUpper(s[i])
    ensures AllPrintable(s[..i + 1]) <==> AllPrintable(s[..i]) && Printable(s[i])
  {
    hide IsLower, IsUpper, Printable;
    var t := s[..i + 1];
    assert t == s[..i] + [s[i]];
    assert t[i] == s[i];
    forall k | 0 <= k < i
      ensures t[k] == s[..i][k]
    {
    }
  }

  method PreparePolynomialCoefficients(hrp: string, values: seq<bv5>) returns (r: seq<bv5>)
    ensures r == Expand(hrp) + values
  {
    hide High, Low;
    r := [];
    for i := 0 to |hrp|
      invariant r == seq(i, k requires 0 <= k < i => High(hrp[k]))
    {
      r := r + [High(hrp[i])];
    }
    r := r + [0];
    ghost var front := r;
    for i := 0 to |hrp|
      invariant r == front + seq(i, k requires 0 <= k < i => Low(hrp[k]))
    {
      r := r + [Low(hrp[i])];
    }
    r := r + values;
  }

  method VerifyChecksum(hrp: string, values: seq<bv5>) returns (ok: bool, e: Encoding)
    ensures ok ==> Check(hrp, values) == EncodingConstant(e)
    ensures !ok ==> Check(hrp, values) != EncodingConstant(BECH32) && Check(hrp, values) != EncodingConstant(BECH32M)
  {
    hide Expand, PolyModFrom, Packed;
    var enc := PreparePolynomialCoefficients(hrp, values);
    var check := PolyMod(enc);
    if check == EncodingConstant(BECH32) {
      return true, BECH32;
    }
    if check == EncodingConstant(BECH32M) {
      return true, BECH32M;
    }
    return false, BECH32;
  }

  method CreateChecksum(e: Encoding, hrp: string, values: seq<bv5>) returns (r: seq<bv5>)
    ensures Packed(1) && r == Checksum(Expand(hrp) + values, EncodingConstant(e))
  {
    hide Expand, PolyModFrom, Packed, Groups, Xor;
    var enc := PreparePolynomialCoefficients(hrp, values);
    enc := enc + Zeros(CHECKSUM_SIZE);
    var mod := PolyMod(enc);
    r := Groups(Xor(mod, EncodingConstant(e)));
  }

  method WriteLetters(s: string, vs: seq<bv5>) returns (r: string)
    ensures r == s + Letters(vs)
  {
    hide Letter;
    r := s;
    for i := 0 to |vs|
      invariant r == s + Letters(vs[..i])
    {
      assert vs[..i + 1] == vs[..i] + [vs[i]];
      r := r + [Letter(vs[i])];
    }
    assert vs[..|vs|] == vs;
  }

  method Encode(e: Encoding, hrp: string, values: seq<bv5>) returns (r: string)
    requires NoUpper(hrp)
    ensures r == Encoded(e, hrp, values)
  {
    hide Expand, Checksum, Packed;
    r := hrp + [SEPARATOR];
    r := WriteLetters(r, values);
    var checksum := CreateChecksum(e, hrp, values);
    r := WriteLetters(r, checksum);
    LettersJoin(hrp + [SEPARATOR], values, checksum);
  }

  lemma LettersJoin(s: string, xs: seq<bv5>, ys: seq<bv5>)
    ensures s + Letters(xs) + Letters(ys) == s + Letters(xs + ys)
  {
    hide Letter;
  }

  method ReadValues(s: string) returns (ok: bool, values: seq<bv5>)
    ensures ok <==> AllValues(s)
    ensures ok ==> values == Values(s)
  {
    hide HasValue, ValueOf;
    values := [];
    for i := 0 to |s|
      invariant AllValues(s[..i]) && values == Values(s[..i])
    {
      assert s[..i + 1] == s[..i] + [s[i]];
      if !HasValue(s[i]) {
        return false, [];
      }
      values := values + [ValueOf(s[i])];
    }
    assert s[..|s|] == s;
    ok := true;
  }

  method ToLower(s: string) returns (r: string)
    ensures r == Lower(s)
  {
    hide LowerCase;
    r := "";
    for i := 0 to |s|
      invariant r == Lower(s[..i])
    {
      assert s[..i + 1] == s[..i] + [s[i]];
      r := r + [LowerCase(s[i])];
    }
    assert s[..|s|] == s;
  }

  method Decode(s: string, limit: nat) returns (r: DecodeResult)
    ensures r == Decoded(s, limit)
  {
    hide CharsOk, AllValues, Values, Lower, LastSeparator, PolyModFrom, Expand, Packed;
    var errors := CheckCharacters(s);
    if errors != [] {
      return Invalid;
    }
    var pos := LastSeparator(s);
    if |s| > limit {
      return Invalid;
    }
    if pos == -1 || pos == 0 || pos + CHECKSUM_SIZE >= |s| {
      return Invalid;
    }
    var ok, values := ReadValues(s[pos + 1..]);
    if !ok {
      return Invalid;
    }
    var hrp := ToLower(s[..pos]);
    var e;
    ok, e := VerifyChecksum(hrp, values);
    ConstantsApart();
    if !ok {
      return Invalid;
    }
    r := Valid(e, hrp, values[..|values| - CHECKSUM_SIZE]);
  }
}
