/** Scattered errors in a Bech32 string. */
module Bech32Detection {
  import opened Bech32Code
  import opened Bech32
  import opened Bech32Errors

  /** With the same human-readable part, a change in up to three values, anywhere within 1023 of them, is detected. */
  lemma ThreeErrorsDetected(hrp: string, xs: seq<bv5>, ys: seq<bv5>, i: nat, j: nat, k: nat)
    requires DifferAtMostThree(xs, ys, i, j, k)
    ensures Check(hrp, xs) != Check(hrp, ys)
  {
    hide PolyModFrom, Expand, Packed;
    ConstantsApart();
    var p := Expand(hrp);
    assert (p + xs)[|p|..] == xs && (p + ys)[|p|..] == ys;
    ThreeDetected(1, p + xs, p + ys, |p| + i, |p| + j, |p| + k);
  }

  /** An accepted string is its human-readable part, the separator and the letters of values that check. */
  lemma Accepted(s: string, limit: nat) returns (values: seq<bv5>)
    requires Decoded(s, limit).Valid?
    ensures var r := Decoded(s, limit);
      && Lower(s) == r.hrp + [SEPARATOR] + Letters(values)
      && Check(r.hrp, values) == EncodingConstant(r.encoding)
  {
    hide PolyModFrom, Letters, Values, LastSeparator, Expand, CharsOk, Lower, AllValues, Packed;
    var pos := LastSeparator(s);
    values := Values(s[pos + 1..]);
    ValuesLetters(s[pos + 1..]);
    LowerSplit(s, pos);
  }

  /** Different values have different letters. */
  lemma LettersApart(xs: seq<bv5>, ys: seq<bv5>, l: nat)
    requires l < |xs| == |ys|
    ensures Letters(xs)[l] == Letters(ys)[l] ==> xs[l] == ys[l]
  {
    hide Letter, ValueOf;
    LetterValue(xs[l]);
    LetterValue(ys[l]);
  }

  /**
    Two accepted strings with one human-readable part, length and encoding that differ, case aside, in at most three
    places within 1023 are the same: up to three mistyped characters are never taken for another string.
   */
  lemma AcceptedApart(s: string, t: string, limit: nat, i: nat, j: nat, k: nat)
    requires Decoded(s, limit).Valid? && Decoded(t, limit).Valid? && |s| == |t|
    requires Decoded(s, limit).encoding == Decoded(t, limit).encoding && Decoded(s, limit).hrp == Decoded(t, limit).hrp
    requires i <= j <= k < i + 1023
    requires forall l | 0 <= l < |s| && Lower(s)[l] != Lower(t)[l] :: l == i || l == j || l == k
    ensures Lower(s) == Lower(t)
  {
    hide Letters, Lower, Decoded, Check;
    var xs := Accepted(s, limit);
    var ys := Accepted(t, limit);
    var h := |Decoded(s, limit).hrp| + 1;
    assert |xs| == |ys| == |s| - h;
    if xs != ys {
      forall l | 0 <= l < |xs| && xs[l] != ys[l]
        ensures h + l == i || h + l == j || h + l == k
      {
        LettersApart(xs, ys, l);
        assert Lower(s)[h + l] == Letters(xs)[l] && Lower(t)[h + l] == Letters(ys)[l];
      }
      ThreeErrorsDetected(Decoded(s, limit).hrp, xs, ys, Back(i, h), Back(j, h), Back(k, h));
    }
  }

  function Back(i: nat, h: nat): nat {
    if i < h then 0 else i - h
  }
}
