/** Positional notation, and the Base58 text form of a byte string defined through it. */
module Base58Spec {
  import opened Arith
  import opened Bytes

  function Pow(b: nat, e: nat): (p: nat)
    requires b > 0
    ensures p > 0
  {
    if e == 0 then 1 else b * Pow(b, e - 1)
  }

  /** The number written by the digits s, most significant first. */
  function Value(s: seq<nat>, b: nat): nat
    requires b > 0
  {
    if s == [] then 0 else s[0] * Pow(b, |s| - 1) + Value(s[1..], b)
  }

  ghost predicate AreDigits(s: seq<nat>, b: nat) {
    forall i :: 0 <= i < |s| ==> s[i] < b
  }

  /** The digits of n without leading zeros. */
  function Digits(n: nat, b: nat): (s: seq<nat>)
    requires b > 1
    ensures forall i :: 0 <= i < |s| ==> s[i] < b
    ensures s != [] ==> s[0] != 0
  {
    if n == 0 then []
    else
      DivSmaller(n, b);
      Digits(n / b, b) + [n % b]
  }

  lemma DivSmaller(n: nat, b: nat)
    requires n > 0 && b > 1
    ensures n / b < n && n % b < b && (n / b == 0 ==> n % b == n)
    ensures n == (n / b) * b + n % b
  {
    DivMod(n, b);
    MulMono(2, b, n / b);
  }

  lemma {:induction false} ValueSnoc(s: seq<nat>, x: nat, b: nat)
    requires b > 0
    ensures Value(s + [x], b) == Value(s, b) * b + x
  {
    if s == [] {
      assert [x][1..] == [] && Pow(b, 0) == 1;
    } else {
      var t, p := s[1..], Pow(b, |s| - 1);
      ValueSnoc(t, x, b);
      assert (s + [x])[1..] == t + [x];
      assert s[0] * (b * p) == (s[0] * p) * b;
      assert (s[0] * p + Value(t, b)) * b == (s[0] * p) * b + Value(t, b) * b;
    }
  }

  lemma {:induction false} ValueBound(s: seq<nat>, b: nat)
    requires b > 0 && AreDigits(s, b)
    ensures Value(s, b) < Pow(b, |s|)
  {
    if s != [] {
      var p := Pow(b, |s| - 1);
      ValueBound(s[1..], b);
      MulMono(s[0], b - 1, p);
      assert (b - 1) * p + p == b * p;
    }
  }

  lemma {:induction false} ValueOfDigits(n: nat, b: nat)
    requires b > 1
    ensures Value(Digits(n, b), b) == n
  {
    if n > 0 {
      DivSmaller(n, b);
      ValueOfDigits(n / b, b);
      ValueSnoc(Digits(n / b, b), n % b, b);
    }
  }

  /** Digits without a leading zero are determined by their value. */
  lemma {:induction false} DigitsOfValue(s: seq<nat>, b: nat)
    requires b > 1 && AreDigits(s, b) && (s == [] || s[0] != 0)
    ensures Digits(Value(s, b), b) == s
    decreases |s|
  {
    if s != [] {
      var t, x := s[..|s| - 1], s[|s| - 1];
      assert s == t + [x];
      DigitsOfValue(t, b);
      ValueSnoc(t, x, b);
      DivModUnique(Value(s, b), b, Value(t, b), x);
      if Value(s, b) == 0 {
        NoZeroValue(s, b);
      }
    }
  }

  lemma NoZeroValue(s: seq<nat>, b: nat)
    requires b > 0 && s != [] && s[0] != 0
    ensures Value(s, b) > 0
  {
    MulPos(s[0], Pow(b, |s| - 1));
  }

  lemma {:induction false} LeadingZerosDropOut(s: seq<nat>, k: nat, b: nat)
    requires b > 0 && k <= |s| && forall i :: 0 <= i < k ==> s[i] == 0
    ensures Value(s[k..], b) == Value(s, b)
  {
    if k > 0 {
      LeadingZerosDropOut(s[1..], k - 1, b);
      assert s[1..][k - 1..] == s[k..];
    }
  }

  /** The index of the first element that is not z, or the length. */
  function CountLeading(s: seq<nat>, z: nat): (k: nat)
    ensures k <= |s| && (forall i :: 0 <= i < k ==> s[i] == z) && (k < |s| ==> s[k] != z)
  {
    if s == [] || s[0] != z then 0 else 1 + CountLeading(s[1..], z)
  }

  function Repeat<T>(z: T, k: nat): (s: seq<T>)
    ensures |s| == k && forall i :: 0 <= i < k ==> s[i] == z
  {
    seq(k, _ => z)
  }

  lemma {:induction false} CountLeadingOf(z: nat, k: nat, s: seq<nat>)
    requires s == [] || s[0] != z
    ensures CountLeading(Repeat(z, k) + s, z) == k
  {
    if k == 0 {
      assert Repeat(z, k) + s == s;
    } else {
      CountLeadingOf(z, k - 1, s);
      assert (Repeat(z, k) + s)[1..] == Repeat(z, k - 1) + s;
    }
  }

  const SEGMENT0 := "123456789"
  const SEGMENT1 := "ABCDEFGH"
  const SEGMENT2 := "JKLMN"
  const SEGMENT3 := "PQRSTUVWXYZ"
  const SEGMENT4 := "abcdefghijk"
  const SEGMENT5 := "mnopqrstuvwxyz"
  const ALPHABET := SEGMENT0 + SEGMENT1 + SEGMENT2 + SEGMENT3 + SEGMENT4 + SEGMENT5

  /** The code of the i-th Base58 character. */
  function Char(i: nat): Byte
    requires i < 58
  {
    if i < 9 then '1' as int + i
    else if i < 17 then 'A' as int + (i - 9)
    else if i < 22 then 'J' as int + (i - 17)
    else if i < 33 then 'P' as int + (i - 22)
    else if i < 44 then 'a' as int + (i - 33)
    else 'm' as int + (i - 44)
  }

  lemma CharIsAlphabet(i: nat)
    requires i < 58
    ensures |ALPHABET| == 58 && ALPHABET[i] as int == Char(i)
  {
    if i < 9 { assert ALPHABET[i] == SEGMENT0[i]; }
    else if i < 17 { assert ALPHABET[i] == SEGMENT1[i - 9]; }
    else if i < 22 { assert ALPHABET[i] == SEGMENT2[i - 17]; }
    else if i < 33 { assert ALPHABET[i] == SEGMENT3[i - 22]; }
    else if i < 44 { assert ALPHABET[i] == SEGMENT4[i - 33]; }
    else { assert ALPHABET[i] == SEGMENT5[i - 44]; }
  }

  predicate InAlphabet(c: Byte) { Find(c, 0) < 58 }

  ghost predicate IsText(s: seq<Byte>) { forall i :: 0 <= i < |s| ==> InAlphabet(s[i]) }

  /** std::string::find in the alphabet, 58 for npos. */
  function Find(c: Byte, from: nat): (i: nat)
    requires from <= 58
    ensures from <= i <= 58 && (i < 58 ==> Char(i) == c)
    ensures i == 58 ==> forall j :: from <= j < 58 ==> Char(j) != c
    decreases 58 - from
  {
    if from == 58 || Char(from) == c then from else Find(c, from + 1)
  }

  lemma FindChar(i: nat)
    requires i < 58
    ensures Find(Char(i), 0) == i
  {
    assert forall j, k :: 0 <= j < k < 58 ==> Char(j) < Char(k);
  }

  /** The text of some base-58 digits. */
  function Chars(d: seq<nat>): (s: seq<Byte>)
    requires AreDigits(d, 58)
    ensures |s| == |d|
  {
    seq<Byte>(|d|, i requires 0 <= i < |d| => Char(d[i]))
  }

  /** The digits of a text. */
  function Indexes(s: seq<Byte>): (d: seq<nat>)
    ensures |d| == |s|
  {
    seq(|s|, i requires 0 <= i < |s| => Find(s[i], 0))
  }

  lemma CharsIndexes(d: seq<nat>)
    requires AreDigits(d, 58)
    ensures IsText(Chars(d)) && Indexes(Chars(d)) == d
    ensures d != [] && d[0] != 0 ==> Chars(d)[0] != Char(0)
  {
    forall i | 0 <= i < |d| ensures Find(Char(d[i]), 0) == d[i] { FindChar(d[i]); }
  }

  lemma IndexesChars(s: seq<Byte>)
    requires IsText(s)
    ensures AreDigits(Indexes(s), 58) && Chars(Indexes(s)) == s
  {
    forall i | 0 <= i < |s| ensures Indexes(s)[i] < 58 && Char(Indexes(s)[i]) == s[i] {
      assert InAlphabet(s[i]);
    }
  }

  /** Base58: one '1' per leading zero byte, then the base-58 digits of the rest. */
  function Encode(data: seq<Byte>): seq<Byte> {
    var z := CountLeading(data, 0);
    Repeat(Char(0), z) + Chars(Digits(Value(data[z..], 256), 58))
  }

  function AsBytes(d: seq<nat>): seq<Byte>
    requires AreDigits(d, 256)
  {
    d
  }

  function Decode(text: seq<Byte>): seq<Byte> {
    var z := CountLeading(text, Char(0));
    Repeat(0, z) + AsBytes(Digits(Value(Indexes(text[z..]), 58), 256))
  }

  /** One more character. One that is not found enters as -1, or as 255 behind a zero byte. */
  function WithChar(v: nat, c: Byte): nat {
    var found := Find(c, 0);
    if found < 58 then v * 58 + found else if v % 256 == 0 then v * 58 + 255 else v * 58 - 1
  }

  /** The value of any text in a buffer of m values. */
  function TextValue(text: seq<Byte>, m: nat): nat
    requires m > 0
  {
    if text == [] then 0 else WithChar(TextValue(text[..|text| - 1], m), text[|text| - 1]) % m
  }

  /** What any text decodes to. */
  function DecodeAny(text: seq<Byte>): seq<Byte> {
    var z := CountLeading(text, Char(0));
    Repeat(0, z) + AsBytes(Digits(TextValue(text[z..], Pow(256, (|text| - z) * 733 / 1000 + 1)), 256))
  }

  lemma EncodeIsText(data: seq<Byte>)
    ensures IsText(Encode(data))
  {
    var z := CountLeading(data, 0);
    CharsIndexes(Digits(Value(data[z..], 256), 58));
    FindChar(0);
  }

  /** Decoding undoes encoding, leading zero bytes included. */
  lemma DecodeEncode(data: seq<Byte>)
    ensures Decode(Encode(data)) == data
  {
    hide Chars, Indexes, Find, Value, Digits;
    var z := CountLeading(data, 0);
    var n := Value(data[z..], 256);
    var d := Digits(n, 58);
    CharsIndexes(d);
    CountLeadingOf(Char(0), z, Chars(d));
    assert Encode(data)[z..] == Chars(d);
    ValueOfDigits(n, 58);
    DigitsOfValue(data[z..], 256);
    assert data == Repeat(0, z) + data[z..];
  }

  /** Encoding undoes decoding, on every text over the alphabet. */
  lemma EncodeDecode(text: seq<Byte>)
    requires IsText(text)
    ensures Encode(Decode(text)) == text
  {
    hide Chars, Indexes, Value, Digits;
    var z := CountLeading(text, Char(0));
    var s := Indexes(text[z..]);
    IndexesChars(text[z..]);
    var n := Value(s, 58);
    var d := AsBytes(Digits(n, 256));
    CountLeadingOf(0, z, d);
    assert Decode(text)[z..] == d;
    ValueOfDigits(n, 256);
    assert s != [] && s[0] == 0 ==> Chars(s)[0] == Char(0) by { ZeroChar(s); }
    DigitsOfValue(s, 58);
    assert text == Repeat(Char(0), z) + text[z..];
  }

  lemma ZeroChar(d: seq<nat>)
    requires AreDigits(d, 58)
    ensures d != [] ==> Chars(d)[0] == Char(d[0])
  {}

  /** No two byte strings have the same text. */
  lemma EncodeInjective(a: seq<Byte>, b: seq<Byte>)
    requires Encode(a) == Encode(b)
    ensures a == b
  {
    DecodeEncode(a);
    DecodeEncode(b);
  }
}
