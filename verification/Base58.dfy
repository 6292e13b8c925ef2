/** Base58 and Base58Check: byte strings as text, by conversion of a big-endian number from radix 256 to 58. */
module Base58 {
  import opened Wrappers
  import opened IntMath
  import opened Radix

  type Byte = n: nat | n < 256
  type Bytes = seq<Byte>

  const INT_MAX := 0x7fff_ffff

  // ---- The alphabet ----

  /** Digits and letters in order, without 0, I, O and l. */
  function Letter(d: nat): char
    requires d < 58
  {
    if d < 9 then ('1' as int + d) as char
    else if d < 17 then ('A' as int + d - 9) as char
    else if d < 22 then ('J' as int + d - 17) as char
    else if d < 33 then ('P' as int + d - 22) as char
    else if d < 44 then ('a' as int + d - 33) as char
    else ('m' as int + d - 44) as char
  }

  /** The digit a character stands for, or -1. */
  function DigitOf(c: char): int {
    if '1' <= c <= '9' then c as int - '1' as int
    else if 'A' <= c <= 'H' then c as int - 'A' as int + 9
    else if 'J' <= c <= 'N' then c as int - 'J' as int + 17
    else if 'P' <= c <= 'Z' then c as int - 'P' as int + 22
    else if 'a' <= c <= 'k' then c as int - 'a' as int + 33
    else if 'm' <= c <= 'z' then c as int - 'm' as int + 44
    else -1
  }

  lemma LetterDigit(d: nat)
    requires d < 58
    ensures DigitOf(Letter(d)) == d && !IsSpace(Letter(d)) && Letter(d) != '\0' && (Letter(d) == '1' <==> d == 0)
  {
  }

  lemma DigitLetter(c: char)
    requires DigitOf(c) >= 0
    ensures DigitOf(c) < 58 && Letter(DigitOf(c)) == c
  {
  }

  predicate IsSpace(c: char) {
    c == ' ' || c == '\U{000C}' || c == '\n' || c == '\r' || c == '\t' || c == '\U{000B}'
  }

  function Letters(ds: seq<nat>): (s: string)
    requires AllBelow(58, ds)
    ensures |s| == |ds|
  {
    seq(|ds|, i requires 0 <= i < |ds| => Letter(ds[i]))
  }

  predicate AllLetters(s: string) {
    forall i | 0 <= i < |s| :: DigitOf(s[i]) >= 0
  }

  function DigitsOf(s: string): (ds: seq<nat>)
    requires AllLetters(s)
    ensures |ds| == |s|
  {
    seq(|s|, i requires 0 <= i < |s| => DigitOf(s[i]))
  }

  // ---- What the two conversions compute ----

  /** Leading zeros are kept as zeros; the rest is a number written in another radix. */
  function Convert(from: nat, to: nat, ds: seq<nat>): seq<nat>
    requires to > 1
  {
    var z := LeadingCount(ds);
    Zeros(z) + ToDigits(to, FromDigits(from, ds[z..]))
  }

  lemma ConvertBack(a: nat, b: nat, ds: seq<nat>)
    requires a > 1 && b > 1 && AllBelow(a, ds)
    ensures AllBelow(b, Convert(a, b, ds)) && Convert(b, a, Convert(a, b, ds)) == ds
  {
    hide FromDigits, ToDigits, LeadingCount;
    var z := LeadingCount(ds);
    var rest := ds[z..];
    var v := FromDigits(a, rest);
    var mid := ToDigits(b, v);
    ToDigitsOk(b, v);
    var ds' := Zeros(z) + mid;
    assert ds'[..z] == Zeros(z) && ds'[z..] == mid;
    LeadingIs(ds', z);
    DigitsUnique(a, rest);
    assert ds == ds[..z] + rest;
  }

  function Encode(input: Bytes): string {
    ConvertBack(256, 58, input);
    Letters(Convert(256, 58, input))
  }

  /** The first position from i on that is not a space. */
  function SkipSpaces(s: string, i: nat): (r: nat)
    requires i <= |s|
    ensures i <= r <= |s| && (r < |s| ==> !IsSpace(s[r])) && forall k | i <= k < r :: IsSpace(s[k])
    decreases |s| - i
  {
    if i < |s| && IsSpace(s[i]) then SkipSpaces(s, i + 1) else i
  }

  function SkipWord(s: string, i: nat): (r: nat)
    requires i <= |s|
    ensures i <= r <= |s| && (r < |s| ==> IsSpace(s[r])) && forall k | i <= k < r :: !IsSpace(s[k])
    decreases |s| - i
  {
    if i < |s| && !IsSpace(s[i]) then SkipWord(s, i + 1) else i
  }

  /** The one word of a text, between spaces; none if a second word follows. */
  function Word(s: string): Option<string> {
    var a := SkipSpaces(s, 0);
    var e := SkipWord(s, a);
    if SkipSpaces(s, e) == |s| then Some(s[a..e]) else None
  }

  /** A result this long is not refused. */
  predicate Fits(length: nat, maxLen: int) {
    length == 0 || length <= maxLen
  }

  function Decode(s: string, maxLen: int): (r: Option<seq<nat>>)
    ensures r.Some? ==> AllBelow(256, r.value)
  {
    if '\0' in s || Word(s).None? || !AllLetters(Word(s).value) then None
    else
      var ds := DigitsOf(Word(s).value);
      assert AllBelow(58, ds) by {
        WordDigits(Word(s).value);
      }
      ConvertBack(58, 256, ds);
      var bytes := Convert(58, 256, ds);
      if Fits(|bytes|, maxLen) then Some(bytes) else None
  }

  lemma WordDigits(w: string)
    requires AllLetters(w)
    ensures AllBelow(58, DigitsOf(w)) && Letters(DigitsOf(w)) == w
  {
    forall i | 0 <= i < |w|
      ensures DigitsOf(w)[i] < 58
    {
      DigitLetter(w[i]);
    }
    forall i | 0 <= i < |w|
      ensures Letters(DigitsOf(w))[i] == w[i]
    {
      DigitLetter(w[i]);
    }
  }

  lemma LettersDigits(ds: seq<nat>)
    requires AllBelow(58, ds)
    ensures AllLetters(Letters(ds)) && DigitsOf(Letters(ds)) == ds && '\0' !in Letters(ds)
    ensures Word(Letters(ds)) == Some(Letters(ds))
  {
    var s := Letters(ds);
    forall i | 0 <= i < |s|
      ensures DigitOf(s[i]) == ds[i] && !IsSpace(s[i]) && s[i] != '\0'
    {
      LetterDigit(ds[i]);
    }
    assert SkipSpaces(s, 0) == 0;
    assert SkipWord(s, 0) == |s|;
    assert s[0..|s|] == s;
  }

  // ---- Both directions of the bijection ----

  /** Decoding undoes encoding, for every byte string within the length limit. */
  lemma DecodeEncode(input: Bytes, maxLen: int)
    ensures Decode(Encode(input), maxLen) == if Fits(|input|, maxLen) then Some(input) else None
  {
    hide Convert, Letters, DigitsOf, Word;
    ConvertBack(256, 58, input);
    LettersDigits(Convert(256, 58, input));
  }

  /** Encoding undoes decoding: an accepted text is, but for the spaces around it, the encoding of its bytes. */
  lemma EncodeDecode(s: string, maxLen: int)
    ensures Decode(s, maxLen).Some? ==> Word(s) == Some(Encode(Decode(s, maxLen).value))
  {
    hide Convert, Letters, DigitsOf, Word;
    if Decode(s, maxLen).Some? {
      var w := Word(s).value;
      WordDigits(w);
      ConvertBack(58, 256, DigitsOf(w));
    }
  }

  // ---- The buffers are large enough ----

  lemma Powers58()
    ensures Pow(58, 1) == 58 && Pow(58, 2) == 3364 && Pow(58, 3) == 195112 && Pow(58, 4) == 11316496
    ensures Pow(58, 5) == 656356768
    ensures Pow(58, 6) == 38068692544 && Pow(58, 7) == 2207984167552 && Pow(58, 8) == 128063081718016
    ensures Pow(58, 9) == 7427658739644928 && Pow(58, 10) == 430804206899405824 && Pow(58, 11) == 24986644000165537792
    ensures Pow(58, 12) == 1449225352009601191936 && Pow(58, 13) == 84055070416556869132288
    ensures Pow(58, 14) == 4875194084160298409672704 && Pow(58, 15) == 282761256881297307761016832
  {
    assert Pow(58, 0) == 1;
  }

  lemma Powers256()
    ensures Pow(256, 1) == 256 && Pow(256, 2) == 65536 && Pow(256, 3) == 16777216 && Pow(256, 4) == 4294967296
    ensures Pow(256, 5) == 1099511627776 && Pow(256, 6) == 281474976710656 && Pow(256, 7) == 72057594037927936
    ensures Pow(256, 8) == 18446744073709551616 && Pow(256, 9) == 4722366482869645213696
    ensures Pow(256, 10) == 1208925819614629174706176 && Pow(256, 11) == 309485009821345068724781056
  {
    assert Pow(256, 0) == 1;
  }

  lemma SmallEncode(r: nat)
    requires r < 8
    ensures Pow(256, r) <= Pow(58, r * 138 / 100 + 1)
  {
    Powers58();
    Powers256();
    assert Pow(256, 0) == 1;
  }

  lemma EncodeRoom(n: nat)
    ensures Pow(256, n) <= Pow(58, n * 138 / 100 + 1)
  {
    hide Pow;
    var q, r := n / 8, n % 8;
    assert Pow(256, 8) <= Pow(58, 11) by {
      Powers58();
      Powers256();
    }
    PowScale(256, 8, 58, 11, q);
    SmallEncode(r);
    Combine(256, 8 * q, r, 58, 11 * q, r * 138 / 100 + 1, n * 138 / 100 + 1);
  }

  lemma Combine(a: nat, m: nat, r: nat, b: nat, n: nat, t: nat, size: nat)
    requires b > 0 && Pow(a, m) <= Pow(b, n) && Pow(a, r) <= Pow(b, t) && n + t <= size
    ensures Pow(a, m + r) <= Pow(b, size)
  {
    PowAdd(a, m, r);
    PowAdd(b, n, t);
    MulBoth(Pow(a, m), Pow(b, n), Pow(a, r), Pow(b, t));
    PowMono(b, n + t, size);
  }

  /** Least exponents g with 58^r <= 256^g. */
  function Bytes58(r: nat): nat
    requires r < 15
  {
    [0, 1, 2, 3, 3, 4, 5, 6, 6, 7, 8, 9, 9, 10, 11][r]
  }

  lemma SmallDecode(r: nat)
    requires r < 15
    ensures Pow(58, r) <= Pow(256, Bytes58(r))
  {
    Powers58();
    Powers256();
    assert Pow(58, 0) == 1 && Pow(256, 0) == 1;
  }

  lemma MediumDecode(r: nat)
    requires r < 71
    ensures Pow(58, r) <= Pow(256, r * 733 / 1000 + 1)
  {
    hide Pow;
    var a, b := r / 15, r % 15;
    assert Pow(58, 15) <= Pow(256, 11) by {
      Powers58();
      Powers256();
    }
    PowScale(58, 15, 256, 11, a);
    SmallDecode(b);
    Combine(58, 15 * a, b, 256, 11 * a, Bytes58(b), r * 733 / 1000 + 1);
  }

  lemma Power71()
    ensures Pow(58, 71) <= Pow(256, 52)
  {
    hide Pow;
    Powers58();
    Powers256();
    PowAdd(58, 15, 15);
    PowAdd(58, 30, 30);
    PowAdd(58, 60, 11);
    PowAdd(256, 11, 11);
    PowAdd(256, 22, 22);
    PowAdd(256, 44, 8);
  }

  /** Bytes set aside for n characters. */
  function DecodeSize(n: nat): nat {
    n * 733 / 1000 + 1
  }

  lemma DecodeRoom(n: nat)
    ensures Pow(58, n) <= Pow(256, DecodeSize(n))
  {
    hide Pow;
    var q, r := n / 71, n % 71;
    Power71();
    PowScale(58, 71, 256, 52, q);
    MediumDecode(r);
    Combine(58, 71 * q, r, 256, 52 * q, r * 733 / 1000 + 1, n * 733 / 1000 + 1);
  }

  /** The next value still fits a buffer sized for the whole input. */
  lemma NextFits(from: nat, to: nat, ds: seq<nat>, k: nat, room: nat, size: nat)
    requires from > 0 && AllBelow(from, ds) && k < |ds| <= room && Pow(from, room) <= Pow(to, size)
    ensures FromDigits(from, ds[..k + 1]) == from * FromDigits(from, ds[..k]) + ds[k] < Pow(to, size)
  {
    assert ds[..k + 1][..k] == ds[..k];
    DigitsBound(from, ds[..k + 1]);
    PowMono(from, k + 1, room);
  }

  lemma BufferBegins(base: nat, size: nat)
    requires base > 1
    ensures Buffer(base, Zeros(size), 0) && FromDigits(base, Zeros(size)) == 0
  {
    assert Zeros(size) + [] == Zeros(size);
    LeadingZeros(base, size, []);
  }

  // ---- Encoding ----

  /** The buffer's first digit in use is not zero, so there is nothing to skip. */
  lemma NothingToSkip(base: nat, s: seq<nat>, length: nat, it: nat)
    requires Buffer(base, s, length) && |s| - length <= it <= |s| && forall k | |s| - length <= k < it :: s[k] == 0
    ensures it == |s| - length || length == 0
  {
  }

  /** The number given by `rest` in radix 256, as base-58 digits. */
  method Digits58(rest: seq<nat>) returns (digits: seq<nat>)
    requires AllBelow(256, rest)
    ensures digits == ToDigits(58, FromDigits(256, rest)) && AllBelow(58, digits)
  {
    hide FromDigits, Pow, Buffer, ToDigits;
    var size := |rest| * 138 / 100 + 1;
    var b58 := new nat[size](_ => 0);
    assert b58[..] == Zeros(size);
    BufferBegins(58, size);
    EncodeRoom(|rest|);
    var length := 0;
    assert rest[..0] == [];
    NoDigits(256);
    for k := 0 to |rest|
      invariant Buffer(58, b58[..], length) && FromDigits(58, b58[..]) == FromDigits(256, rest[..k])
    {
      NextFits(256, 58, rest, k, |rest|, size);
      length := MulAdd(b58, 58, 256, rest[k], length);
    }
    assert rest[..|rest|] == rest;
    UsedLength(58, b58[..], length);
    BufferDigits(58, b58[..], length);
    var it := size - length;
    while it < size && b58[it] == 0
      invariant size - length <= it <= size && forall k | size - length <= k < it :: b58[k] == 0
    {
      it := it + 1;
    }
    NothingToSkip(58, b58[..], length, it);
    digits := b58[it..];
    assert digits == b58[..][size - length..];
  }

  method EncodeBase58(input: Bytes) returns (str: string)
    ensures str == Encode(input)
  {
    hide FromDigits, ToDigits, Convert, Letters;
    var zeroes := CountZeros(input);
    var digits := Digits58(input[zeroes..]);
    str := WriteLetters(zeroes, digits);
    EncodeIs(input, zeroes);
  }

  lemma NoDigits(base: nat)
    ensures FromDigits(base, []) == 0
  {
  }

  lemma UsedLength(base: nat, s: seq<nat>, length: nat)
    requires Buffer(base, s, length)
    ensures length <= |s| && AllBelow(base, s)
  {
  }

  lemma EncodeIs(input: Bytes, zeroes: nat)
    requires zeroes == LeadingCount(input)
    ensures AllBelow(58, Zeros(zeroes) + ToDigits(58, FromDigits(256, input[zeroes..])))
    ensures Encode(input) == Letters(Zeros(zeroes) + ToDigits(58, FromDigits(256, input[zeroes..])))
  {
    hide FromDigits;
    ConvertBack(256, 58, input);
  }

  method CountZeros(input: Bytes) returns (zeroes: nat)
    ensures zeroes == LeadingCount(input) <= |input|
  {
    zeroes := 0;
    while zeroes < |input| && input[zeroes] == 0
      invariant zeroes <= |input| && input[..zeroes] == Zeros(zeroes)
    {
      zeroes := zeroes + 1;
    }
    LeadingIs(input, zeroes);
  }

  method WriteLetters(zeroes: nat, ds: seq<nat>) returns (str: string)
    requires AllBelow(58, ds)
    ensures str == Letters(Zeros(zeroes) + ds)
  {
    str := seq(zeroes, _ => '1');
    assert Zeros(zeroes) + ds[..0] == Zeros(zeroes);
    for i := 0 to |ds|
      invariant str == Letters(Zeros(zeroes) + ds[..i])
    {
      assert Zeros(zeroes) + ds[..i + 1] == (Zeros(zeroes) + ds[..i]) + [ds[i]];
      str := str + [Letter(ds[i])];
    }
    assert ds[..|ds|] == ds;
  }

  // ---- Decoding ----

  /** The text has one word, from `a` to `e`, all letters, with z leading ones. */
  lemma DecodeIs(s: string, maxLen: int, a: nat, z: nat, e: nat)
    requires '\0' !in s && a == SkipSpaces(s, 0) && e == SkipWord(s, a) && SkipSpaces(s, e) == |s|
    requires AllLetters(s[a..e]) && a + z <= e && (forall k | a <= k < a + z :: s[k] == '1')
    requires a + z < e ==> s[a + z] != '1'
    ensures
      var bytes := Zeros(z) + ToDigits(256, FromDigits(58, DigitsOf(s[a + z..e])));
      Decode(s, maxLen) == if Fits(|bytes|, maxLen) then Some(bytes) else None
  {
    hide FromDigits, ToDigits;
    OnesLead(s[a..e], z);
    assert s[a..e][z..] == s[a + z..e];
  }

  /** Leading ones are leading zero digits. */
  lemma OnesLead(w: string, z: nat)
    requires AllLetters(w) && z <= |w| && (forall k | 0 <= k < z :: w[k] == '1') && (z < |w| ==> w[z] != '1')
    ensures LeadingCount(DigitsOf(w)) == z && DigitsOf(w)[z..] == DigitsOf(w[z..])
  {
    var ds := DigitsOf(w);
    if z < |w| {
      DigitLetter(w[z]);
      LetterDigit(ds[z]);
    }
    LeadingIs(ds, z);
  }

  /** More ones than the limit allows: whatever follows, the text is refused. */
  lemma TooManyOnes(s: string, maxLen: int, a: nat, z: nat)
    requires a == SkipSpaces(s, 0) && a + z <= |s| && (forall k | a <= k < a + z :: s[k] == '1') && z > 0 && z > maxLen
    ensures Decode(s, maxLen) == None
  {
    hide FromDigits, ToDigits;
    var e := SkipWord(s, a);
    if '\0' !in s && SkipSpaces(s, e) == |s| && AllLetters(s[a..e]) {
      var w := s[a..e];
      InWord(s, a, a + z);
      LeadingAtLeast(DigitsOf(w), z);
    }
  }

  lemma {:induction false} LeadingAtLeast(ds: seq<nat>, z: nat)
    requires z <= |ds| && forall k | 0 <= k < z :: ds[k] == 0
    ensures LeadingCount(ds) >= z
  {
    if z > 0 {
      LeadingAtLeast(ds[1..], z - 1);
    }
  }

  /** A stretch without spaces lies within the word. */
  lemma {:induction false} InWord(s: string, a: nat, i: nat)
    requires a <= i <= |s| && forall k | a <= k < i :: !IsSpace(s[k])
    ensures i <= SkipWord(s, a) && SkipWord(s, i) == SkipWord(s, a)
    decreases i
  {
    if a < i {
      InWord(s, a, i - 1);
    }
  }

  lemma Refused(s: string, maxLen: int, a: nat, e: nat)
    requires a == SkipSpaces(s, 0) && e == SkipWord(s, a)
    requires '\0' in s || SkipSpaces(s, e) != |s| || !AllLetters(s[a..e])
    ensures Decode(s, maxLen) == None
  {
  }

  /** Already the part read so far is too long. */
  lemma TooLong(s: string, maxLen: int, a: nat, z: nat, i: nat)
    requires a == SkipSpaces(s, 0) && a + z < i <= |s| && (forall k | a <= k < i :: !IsSpace(s[k]))
    requires (forall k | a <= k < a + z :: s[k] == '1') && s[a + z] != '1'
    requires AllLetters(s[a + z..i]) && z + |ToDigits(256, FromDigits(58, DigitsOf(s[a + z..i])))| > maxLen
    ensures Decode(s, maxLen) == None
  {
    hide FromDigits, ToDigits, Decode, DigitsOf;
    var e := SkipWord(s, a);
    InWord(s, a, i);
    if '\0' !in s && SkipSpaces(s, e) == |s| && AllLetters(s[a..e]) {
      DecodeIs(s, maxLen, a, z, e);
      LongerWord(s[a + z..e], i - a - z);
      assert s[a + z..e][..i - a - z] == s[a + z..i];
    } else {
      Refused(s, maxLen, a, e);
    }
  }

  /** A word that does not start with a one decodes to no fewer bytes than its prefixes. */
  lemma LongerWord(w: string, k: nat)
    requires AllLetters(w) && 0 < k <= |w| && w[0] != '1'
    ensures 0 < |ToDigits(256, FromDigits(58, DigitsOf(w[..k])))| <= |ToDigits(256, FromDigits(58, DigitsOf(w)))|
  {
    hide FromDigits, ToDigits;
    PartNotZero(w[..k]);
    assert DigitsOf(w)[..k] == DigitsOf(w[..k]);
    PrefixSmaller(58, DigitsOf(w), k);
    DigitsMono(256, FromDigits(58, DigitsOf(w[..k])), FromDigits(58, DigitsOf(w)));
  }

  lemma PartNotZero(w: string)
    requires AllLetters(w) && w != [] && w[0] != '1'
    ensures |ToDigits(256, FromDigits(58, DigitsOf(w)))| > 0
  {
    hide FromDigits, ToDigits;
    WordDigits(w);
    DigitLetter(w[0]);
    LetterDigit(DigitsOf(w)[0]);
    DigitsUnique(58, DigitsOf(w));
    ToDigitsOk(256, FromDigits(58, DigitsOf(w)));
  }

  lemma {:induction false} PrefixSmaller(base: nat, ds: seq<nat>, k: nat)
    requires base > 0 && k <= |ds|
    ensures FromDigits(base, ds[..k]) <= FromDigits(base, ds)
  {
    if k == |ds| {
      assert ds[..k] == ds;
    } else {
      var rest := ds[..|ds| - 1];
      assert rest[..k] == ds[..k];
      PrefixSmaller(base, rest, k);
      MulAtLeast(FromDigits(base, rest), base);
    }
  }

  /** Where the reading of the word stands: digits of s[a + z..i] are in the buffer. */
  ghost predicate Reading(s: string, a: nat, z: nat, i: nat, buffer: seq<nat>, length: nat) {
    && a == SkipSpaces(s, 0) && a + z <= i <= SkipWord(s, a)
    && (forall k | a <= k < a + z :: s[k] == '1') && (a + z < |s| ==> s[a + z] != '1')
    && AllLetters(s[a + z..i])
    && Buffer(256, buffer, length) && FromDigits(256, buffer) == FromDigits(58, DigitsOf(s[a + z..i]))
  }

  lemma ReadingNext(s: string, a: nat, z: nat, i: nat, buffer: seq<nat>, length: nat, size: nat)
    requires Reading(s, a, z, i, buffer, length) && i < |s| && !IsSpace(s[i]) && DigitOf(s[i]) >= 0
    requires size == |buffer| == DecodeSize(|s| - a - z)
    ensures i + 1 <= SkipWord(s, a) && AllLetters(s[a + z..i + 1])
    ensures FromDigits(58, DigitsOf(s[a + z..i + 1])) == 58 * FromDigits(256, buffer) + DigitOf(s[i]) < Pow(256, size)
  {
    hide FromDigits, Pow, Buffer, DigitsOf, DigitOf, DecodeSize;
    InWord(s, a, i + 1);
    DecodeRoom(|s| - a - z);
    ValueNext(s, a + z, i, size);
  }

  lemma ValueNext(s: string, b: nat, i: nat, size: nat)
    requires b <= i < |s| && AllLetters(s[b..i]) && DigitOf(s[i]) >= 0 && Pow(58, |s| - b) <= Pow(256, size)
    ensures AllLetters(s[b..i + 1])
    ensures FromDigits(58, DigitsOf(s[b..i + 1])) ==
      58 * FromDigits(58, DigitsOf(s[b..i])) + DigitOf(s[i]) < Pow(256, size)
  {
    hide FromDigits, Pow, DigitsOf, DigitOf;
    NextDigit(s, b, i);
    var ds := DigitsOf(s[b..i + 1]);
    WordDigits(s[b..i + 1]);
    NextFits(58, 256, ds, |ds| - 1, |s| - b, size);
    assert ds[..|ds|] == ds;
  }

  lemma NextDigit(s: string, b: nat, i: nat)
    requires b <= i < |s| && AllLetters(s[b..i]) && DigitOf(s[i]) >= 0
    ensures AllLetters(s[b..i + 1])
    ensures var ds := DigitsOf(s[b..i + 1]); ds[..|ds| - 1] == DigitsOf(s[b..i]) && ds[|ds| - 1] == DigitOf(s[i])
  {
    var w := s[b..i + 1];
    assert w[..|w| - 1] == s[b..i];
    forall k | 0 <= k < |w|
      ensures DigitOf(w[k]) >= 0
    {
      assert k < |w| - 1 ==> w[k] == s[b..i][k];
    }
  }

  /** Read one character into the buffer. */
  method ReadOne(s: string, ghost a: nat, ghost z: nat, i: nat, b256: array<nat>, length: nat) returns (length': nat)
    requires Reading(s, a, z, i, b256[..], length) && i < |s| && !IsSpace(s[i]) && DigitOf(s[i]) >= 0
    requires a + z <= |s| && b256.Length == DecodeSize(|s| - a - z)
    modifies b256
    ensures Reading(s, a, z, i + 1, b256[..], length')
  {
    hide FromDigits, Pow, Buffer, Reading, SkipWord, SkipSpaces, AllLetters, DigitsOf, DecodeSize;
    ReadingNext(s, a, z, i, b256[..], length, b256.Length);
    ReadingBuffer(s, a, z, i, b256[..], length);
    length' := MulAdd(b256, 256, 58, DigitOf(s[i]), length);
    ReadingOn(s, a, z, i + 1, b256[..], length');
  }

  /** Read the word's remaining characters into the buffer; None means the text is refused. */
  method ReadWord(s: string, maxLen: int, a: nat, z: nat) returns (ok: bool, i: nat, bytes: seq<nat>)
    requires '\0' !in s && a == SkipSpaces(s, 0) && a + z <= SkipWord(s, a)
    requires (forall k | a <= k < a + z :: s[k] == '1') && (a + z < |s| ==> s[a + z] != '1')
    ensures !ok ==> Decode(s, maxLen) == None
    ensures ok ==> i == SkipWord(s, a) && AllLetters(s[a + z..i])
    ensures ok ==> bytes == ToDigits(256, FromDigits(58, DigitsOf(s[a + z..i])))
    ensures ok && i > a + z ==> z + |bytes| <= maxLen
  {
    hide FromDigits, ToDigits, Decode, Reading, SkipWord, SkipSpaces, AllLetters, DigitsOf, DecodeSize;
    i, bytes := a + z, [];
    var size := DecodeSize(|s| - i);
    var b256 := new nat[size](_ => 0);
    assert b256[..] == Zeros(size);
    var length: nat := 0;
    ReadingBegins(s, a, z, size);
    while i < |s| && !IsSpace(s[i])
      invariant a + z <= i <= |s| && Reading(s, a, z, i, b256[..], length)
      invariant i > a + z ==> z + length <= maxLen
    {
      var digit := DigitOf(s[i]);
      if digit == -1 {
        NotALetter(s, maxLen, a, z, i, b256[..], length);
        return false, i, [];
      }
      length := ReadOne(s, a, z, i, b256, length);
      i := i + 1;
      if length + z > maxLen {
        ReadingTooLong(s, maxLen, a, z, i, b256[..], length);
        return false, i, [];
      }
    }
    ReadingEnds(s, a, z, i, b256[..], length);
    ok, bytes := true, b256[size - length..];
    assert bytes == b256[..][size - length..];
  }

  lemma ReadingBegins(s: string, a: nat, z: nat, size: nat)
    requires a == SkipSpaces(s, 0) && a + z <= SkipWord(s, a)
    requires (forall k | a <= k < a + z :: s[k] == '1') && (a + z < |s| ==> s[a + z] != '1')
    ensures Reading(s, a, z, a + z, Zeros(size), 0)
  {
    BufferBegins(256, size);
    assert s[a + z..a + z] == [];
  }

  lemma ReadingBuffer(s: string, a: nat, z: nat, i: nat, buffer: seq<nat>, length: nat)
    requires Reading(s, a, z, i, buffer, length)
    ensures Buffer(256, buffer, length) && a == SkipSpaces(s, 0) && (forall k | a <= k < a + z :: s[k] == '1')
    ensures a + z <= i <= |s|
    ensures a + z < |s| ==> s[a + z] != '1'
  {
  }

  lemma ReadingOn(s: string, a: nat, z: nat, i: nat, buffer: seq<nat>, length: nat)
    requires a == SkipSpaces(s, 0) && a + z <= i <= SkipWord(s, a)
    requires (forall k | a <= k < a + z :: s[k] == '1') && (a + z < |s| ==> s[a + z] != '1') && AllLetters(s[a + z..i])
    requires Buffer(256, buffer, length) && FromDigits(256, buffer) == FromDigits(58, DigitsOf(s[a + z..i]))
    ensures Reading(s, a, z, i, buffer, length)
  {
  }

  lemma NotALetter(s: string, maxLen: int, a: nat, z: nat, i: nat, buffer: seq<nat>, length: nat)
    requires Reading(s, a, z, i, buffer, length) && i < |s| && !IsSpace(s[i]) && DigitOf(s[i]) == -1
    ensures Decode(s, maxLen) == None
  {
    InWord(s, a, i + 1);
    var e := SkipWord(s, a);
    assert s[a..e][i - a] == s[i];
  }

  lemma ReadingTooLong(s: string, maxLen: int, a: nat, z: nat, i: nat, buffer: seq<nat>, length: nat)
    requires Reading(s, a, z, i, buffer, length) && i > a + z && z + length > maxLen
    ensures Decode(s, maxLen) == None
  {
    hide FromDigits, ToDigits, Buffer, Decode;
    BufferDigits(256, buffer, length);
    UsedLength(256, buffer, length);
    TooLong(s, maxLen, a, z, i);
  }

  lemma ReadingEnds(s: string, a: nat, z: nat, i: nat, buffer: seq<nat>, length: nat)
    requires Reading(s, a, z, i, buffer, length) && (i < |s| ==> IsSpace(s[i]))
    ensures i == SkipWord(s, a) && length <= |buffer| && AllLetters(s[a + z..i])
    ensures buffer[|buffer| - length..] == ToDigits(256, FromDigits(58, DigitsOf(s[a + z..i])))
  {
    hide FromDigits, ToDigits, Buffer;
    BufferDigits(256, buffer, length);
    UsedLength(256, buffer, length);
  }

  method SkipOnes(s: string, maxLen: int, a: nat) returns (ok: bool, zeroes: nat)
    requires a == SkipSpaces(s, 0)
    ensures !ok ==> Decode(s, maxLen) == None
    ensures ok ==> a + zeroes <= SkipWord(s, a) && forall k | a <= k < a + zeroes :: s[k] == '1'
    ensures ok ==> (a + zeroes < |s| ==> s[a + zeroes] != '1')
    ensures ok ==> Fits(zeroes, maxLen)
  {
    hide Decode;
    zeroes := 0;
    while a + zeroes < |s| && s[a + zeroes] == '1'
      invariant a + zeroes <= |s| && (forall k | a <= k < a + zeroes :: s[k] == '1') && Fits(zeroes, maxLen)
    {
      zeroes := zeroes + 1;
      if zeroes > maxLen {
        TooManyOnes(s, maxLen, a, zeroes);
        return false, zeroes;
      }
    }
    InWord(s, a, a + zeroes);
    ok := true;
  }

  method DecodeBase58(s: string, maxLen: int) returns (r: Option<seq<nat>>)
    ensures r == Decode(s, maxLen)
  {
    hide FromDigits, ToDigits, Decode;
    if '\0' in s {
      HasNul(s, maxLen);
      return None;
    }
    var i := 0;
    while i < |s| && IsSpace(s[i])
      invariant 0 <= i <= |s| && SkipSpaces(s, i) == SkipSpaces(s, 0)
    {
      i := i + 1;
    }
    var a := i;
    var ok, zeroes := SkipOnes(s, maxLen, a);
    if !ok {
      return None;
    }
    var e, bytes;
    ok, e, bytes := ReadWord(s, maxLen, a, zeroes);
    if !ok {
      return None;
    }
    i := e;
    while i < |s| && IsSpace(s[i])
      invariant e <= i <= |s| && SkipSpaces(s, i) == SkipSpaces(s, e)
    {
      i := i + 1;
    }
    if i != |s| {
      SecondWord(s, maxLen);
      return None;
    }
    WholeWord(s, a, zeroes, e);
    DecodeIs(s, maxLen, a, zeroes, e);
    NoBytes(s, a + zeroes, e, bytes);
    r := Some(Zeros(zeroes) + bytes);
  }

  lemma HasNul(s: string, maxLen: int)
    requires '\0' in s
    ensures Decode(s, maxLen) == None
  {
  }

  lemma SecondWord(s: string, maxLen: int)
    requires SkipSpaces(s, SkipWord(s, SkipSpaces(s, 0))) != |s|
    ensures Decode(s, maxLen) == None
  {
  }

  lemma WholeWord(s: string, a: nat, z: nat, e: nat)
    requires a + z <= e <= |s| && (forall k | a <= k < a + z :: s[k] == '1') && AllLetters(s[a + z..e])
    ensures AllLetters(s[a..e])
  {
    forall k | a <= k < e
      ensures DigitOf(s[k]) >= 0
    {
      assert k >= a + z ==> s[k] == s[a + z..e][k - a - z];
    }
  }

  lemma NoBytes(s: string, b: nat, e: nat, bytes: seq<nat>)
    requires b <= e <= |s| && AllLetters(s[b..e]) && bytes == ToDigits(256, FromDigits(58, DigitsOf(s[b..e])))
    ensures e == b ==> bytes == []
  {
  }

  // ---- With a checksum ----

  /** Four bytes of a hash follow the data. */
  function EncodeCheck(hash: Bytes -> Bytes, input: Bytes): string
    requires |hash(input)| == 32
  {
    Encode(input + hash(input)[..4])
  }

  /** The length limit is raised by the four bytes, within the range of an int. */
  function WithChecksum(maxLen: int): int {
    if maxLen > INT_MAX - 4 then INT_MAX else maxLen + 4
  }

  method EncodeBase58Check(hash: Bytes -> Bytes, input: Bytes) returns (str: string)
    requires |hash(input)| == 32
    ensures str == EncodeCheck(hash, input)
  {
    str := EncodeBase58(input + hash(input)[..4]);
  }

  function DecodeCheck(hash: Bytes -> Bytes, s: string, maxLen: int): Option<Bytes>
    requires forall b: Bytes :: |hash(b)| == 32
  {
    var d := Decode(s, WithChecksum(maxLen));
    if d.None? || |d.value| < 4 then None
    else
      var all: Bytes := d.value;
      var data := all[..|all| - 4];
      if hash(data)[..4] == all[|all| - 4..] then Some(data) else None
  }

  method DecodeBase58Check(hash: Bytes -> Bytes, s: string, maxLen: int) returns (r: Option<Bytes>)
    requires forall b: Bytes :: |hash(b)| == 32
    ensures r == DecodeCheck(hash, s, maxLen)
  {
    hide Decode;
    var d := DecodeBase58(s, WithChecksum(maxLen));
    if d.None? || |d.value| < 4 {
      return None;
    }
    var all: Bytes := d.value;
    var data := all[..|all| - 4];
    if hash(data)[..4] != all[|all| - 4..] {
      return None;
    }
    r := Some(data);
  }

  lemma DecodeEncodeCheck(hash: Bytes -> Bytes, data: Bytes, maxLen: int)
    requires forall b: Bytes :: |hash(b)| == 32
    ensures DecodeCheck(hash, EncodeCheck(hash, data), maxLen) ==
      if |data| + 4 <= WithChecksum(maxLen) then Some(data) else None
  {
    hide Decode, Encode;
    var all := data + hash(data)[..4];
    DecodeEncode(all, WithChecksum(maxLen));
    assert all[..|all| - 4] == data && all[|all| - 4..] == hash(data)[..4];
  }

  /** An accepted text is, but for spaces, the encoding of what it decodes to: no other checksum is accepted. */
  lemma EncodeDecodeCheck(hash: Bytes -> Bytes, s: string, maxLen: int)
    requires forall b: Bytes :: |hash(b)| == 32
    ensures var r := DecodeCheck(hash, s, maxLen); r.Some? ==> Word(s) == Some(EncodeCheck(hash, r.value))
  {
    hide Decode, Encode, Word;
    var r := DecodeCheck(hash, s, maxLen);
    if r.Some? {
      EncodeDecode(s, WithChecksum(maxLen));
      assert Decode(s, WithChecksum(maxLen)).value == r.value + hash(r.value)[..4];
    }
  }
}
