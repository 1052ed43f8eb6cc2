/** The Base58 codec over fixed-size digit buffers, and why the buffers are always large enough. */
module Base58 {
  import opened Arith
  import opened Bytes
  import opened Base58Spec

  lemma {:induction false} PowAdd(b: nat, i: nat, j: nat)
    requires b > 0
    ensures Pow(b, i + j) == Pow(b, i) * Pow(b, j)
  {
    if i > 0 {
      PowAdd(b, i - 1, j);
      MulAssoc(b, Pow(b, i - 1), Pow(b, j));
    }
  }

  lemma {:induction false} PowMono(b: nat, i: nat, j: nat)
    requires b > 0 && i <= j
    ensures Pow(b, i) <= Pow(b, j)
    decreases j
  {
    if i < j {
      PowMono(b, i, j - 1);
      MulMono(1, b, Pow(b, j - 1));
    }
  }

  /** Bounds of two runs of digits multiply. */
  lemma PowStep(a: nat, b: nat, i: nat, j: nat, m: nat, n: nat)
    requires a > 0 && b > 0 && Pow(a, i) <= Pow(b, j) && Pow(a, m) <= Pow(b, n)
    ensures Pow(a, i + m) <= Pow(b, j + n)
  {
    PowAdd(a, i, m);
    PowAdd(b, j, n);
    MulMono2(Pow(a, i), Pow(b, j), Pow(a, m), Pow(b, n));
  }

  /** 58^11 > 256^8, in steps of eight bytes and then one by one. */
  lemma EncodeSteps()
    ensures Pow(256, 8) <= Pow(58, 11) && Pow(256, 3) <= Pow(58, 5) && Pow(256, 1) <= Pow(58, 2)
  {}

  /** n bytes fit into n * 138 / 100 + 1 base-58 digits. */
  lemma {:induction false} EncodeRoom(n: nat)
    ensures Pow(256, n) <= Pow(58, n * 138 / 100 + 1)
  {
    var e := EncodeLength(n);
    PowMono(58, e, n * 138 / 100 + 1);
  }

  /** A number of digits that suffices, with the slack that the buffer size leaves. */
  lemma {:induction false} EncodeLength(n: nat) returns (e: nat)
    ensures Pow(256, n) <= Pow(58, e) && 100 * e <= 138 * n + 100
  {
    EncodeSteps();
    if n >= 8 {
      e := EncodeLength(n - 8);
      PowStep(256, 58, 8, 11, n - 8, e);
      e := e + 11;
    } else {
      e := EncodeShort(n);
    }
  }

  lemma EncodeShort(n: nat) returns (e: nat)
    requires n < 8
    ensures Pow(256, n) <= Pow(58, e) && 100 * e <= 138 * n + 100
  {
    EncodeSteps();
    assert Pow(256, 2) <= Pow(58, 3);
    PowStep(256, 58, 3, 5, 3, 5);
    e := if n == 0 then 0 else if n == 1 then 2 else if n == 2 then 3 else if n == 3 then 5
         else if n == 4 then 6 else if n == 5 then 7 else if n == 6 then 9 else 10;
  }

  lemma PowSquare(b: nat, e: nat)
    requires b > 0
    ensures Pow(b, 2 * e) == Pow(b, e) * Pow(b, e)
  {
    PowAdd(b, e, e);
  }

  const P: nat := 430804206899405824

  lemma PowerValues()
    ensures Pow(58, 5) == 656356768 && Pow(58, 4) <= Pow(256, 3) && Pow(58, 1) == 58
    ensures Pow(256, 6) == 0x1_0000_0000_0000 && Pow(256, 4) == 0x1_0000_0000 && Pow(256, 1) == 256
  {}

  lemma Powers58()
    ensures Pow(58, 10) == P && Pow(58, 15) == P * 656356768 && Pow(58, 71) == P * P * P * P * P * P * P * 58
  {
    PowerValues();
    hide Pow;
    PowSquare(58, 5);
    PowAdd(58, 10, 5);
    PowSquare(58, 10);
    PowSquare(58, 20);
    PowAdd(58, 10, 1);
    PowAdd(58, 20, 11);
    PowAdd(58, 40, 31);
  }

  const Q: nat := 0x1_0000_0000_0000_0000_0000_0000

  lemma Powers256()
    ensures Pow(256, 12) == Q && 256 * Pow(256, 11) == Q && Pow(256, 52) == Q * Q * Q * Q * 0x1_0000_0000
  {
    PowerValues();
    hide Pow;
    PowSquare(256, 6);
    PowAdd(256, 1, 11);
    PowSquare(256, 12);
    PowSquare(256, 24);
    PowAdd(256, 48, 4);
  }

  /** 256^52 > 58^71, in steps of 71, 15, four and one character. */
  lemma DecodeSteps()
    ensures Pow(58, 71) <= Pow(256, 52) && Pow(58, 15) <= Pow(256, 11)
    ensures Pow(58, 4) <= Pow(256, 3) && Pow(58, 1) <= Pow(256, 1)
  {
    PowerValues();
    hide Pow;
    Powers256();
    Powers58();
  }

  /** A number of bytes that suffices for n characters, with the slack that the buffer size leaves. */
  lemma {:induction false} DecodeLength(n: nat) returns (e: nat)
    ensures Pow(58, n) <= Pow(256, e) && 1000 * e <= 733 * n + 1000
  {
    if n >= 71 {
      e := DecodeLength(n - 71);
      DecodeStep(n - 71, e, 71, 52);
      e := e + 52;
    } else {
      e := DecodeShort(n, n / 15, n % 15);
      ShortSlack(n / 15, n % 15 / 4, n % 15 % 4);
    }
  }

  lemma ShortSlack(a: nat, k: nat, r: nat)
    requires a < 5 && r < 4 && 4 * k + r < 15
    ensures 1000 * (11 * a + 3 * k + r) <= 733 * (15 * a + 4 * k + r) + 1000
  {}

  lemma DecodeStep(n: nat, e: nat, i: nat, j: nat)
    requires Pow(58, n) <= Pow(256, e)
    requires (i, j) == (71, 52) || (i, j) == (15, 11) || (i, j) == (4, 3) || (i, j) == (1, 1)
    ensures Pow(58, n + i) <= Pow(256, e + j)
  {
    hide Pow;
    DecodeSteps();
    PowStep(58, 256, n, e, i, j);
  }

  /** Fewer than 71 characters: a groups of 15, b / 4 groups of four and b % 4 single ones. */
  lemma {:induction false} DecodeShort(n: nat, a: nat, b: nat) returns (e: nat)
    requires n == 15 * a + b && a < 5 && b < 15
    ensures Pow(58, n) <= Pow(256, e) && e == 11 * a + 3 * (b / 4) + b % 4
    decreases n
  {
    assert Pow(58, 0) == Pow(256, 0) == 1;
    hide Pow;
    if a > 0 {
      e := DecodeShort(n - 15, a - 1, b);
      DecodeStep(n - 15, e, 15, 11);
      e := e + 11;
    } else if b >= 4 {
      e := DecodeShort(n - 4, 0, b - 4);
      DecodeStep(n - 4, e, 4, 3);
      e := e + 3;
    } else if b > 0 {
      e := DecodeShort(n - 1, 0, b - 1);
      DecodeStep(n - 1, e, 1, 1);
      e := e + 1;
    } else {
      e := 0;
    }
  }

  /** n characters fit into n * 733 / 1000 + 1 bytes. */
  lemma DecodeRoom(n: nat)
    ensures Pow(58, n) <= Pow(256, n * 733 / 1000 + 1)
  {
    var e := DecodeLength(n);
    PowMono(256, e, n * 733 / 1000 + 1);
  }

  /** One digit of a multiply-and-add: `sum` is what the position receives, `carry` what it passes on. */
  lemma DigitAlgebra(p: nat, base: nat, factor: nat, x: int, digit: nat, v: nat, out: nat, w: nat,
                     sum: int, carry: int)
    requires v * factor + x == (sum - digit * factor) * p + w && sum == carry * base + out
    ensures (digit * p + v) * factor + x == carry * (base * p) + (out * p + w)
  {
    var f := digit * factor;
    assert (digit * p + v) * factor == (digit * p) * factor + v * factor;
    assert (digit * p) * factor == f * p;
    assert (sum - f) * p == sum * p - f * p;
    assert (carry * base + out) * p == (carry * base) * p + out * p;
    MulAssoc(carry, base, p);
  }

  lemma ValueCons(d: nat, s: seq<nat>, b: nat)
    requires b > 0
    ensures Value([d] + s, b) == d * Pow(b, |s|) + Value(s, b)
  {
    assert ([d] + s)[1..] == s;
  }

  /** What the inner loop has done: the digits of `now` are right up to a carry into the rest. */
  ghost predicate Carried(was: seq<nat>, now: seq<nat>, base: nat, factor: nat, x: int, carry: int)
    requires base > 0
  {
    |was| == |now| && AreDigits(now, base)
    && Value(was, base) * factor + x == carry * Pow(base, |now|) + Value(now, base)
  }

  lemma CarriedStep(was: seq<nat>, now: seq<nat>, base: nat, factor: nat, x: int, carry: int, digit: nat)
    requires base > 0 && Carried(was, now, base, factor, x, carry) && carry + digit * factor >= 0
    ensures var sum := carry + digit * factor;
            Carried([digit] + was, [sum % base] + now, base, factor, x, sum / base) && sum / base >= 0
  {
    var sum: nat := carry + digit * factor;
    ValueCons(digit, was, base);
    ValueCons(sum % base, now, base);
    DivMod(sum, base);
    hide Value;
    DigitAlgebra(Pow(base, |now|), base, factor, x, digit, Value(was, base), sum % base, Value(now, base),
                 sum, sum / base);
  }

  /** What a pass adds: -1, which stands for a character that is not found, meets a last digit zero as
      the byte 255, since the carry is divided towards zero. */
  function Enters(was: seq<nat>, base: nat, x: int): int
    requires base > 0
  {
    if x == -1 && was != [] && was[|was| - 1] == 0 then base - 1 else x
  }

  /** So far: nothing yet, or all positions from j on. */
  ghost predicate Passed(was: seq<nat>, now: seq<nat>, j: nat, base: nat, factor: nat, x: int, carry: int)
    requires base > 0 && j <= |was| == |now|
  {
    if j == |was| then carry == x
    else Carried(was[j..], now[j..], base, factor, Enters(was, base, x), carry) && carry >= 0
  }

  lemma PassedStep(was: seq<nat>, now: seq<nat>, j: nat, base: nat, factor: nat, x: int, carry: int)
    requires base > 1 && j < |was| == |now| && x >= -1 && factor > 0
    requires Passed(was, now, j + 1, base, factor, x, carry)
    ensures var sum := carry + was[j] * factor;
            Passed(was, now[j := sum % base], j, base, factor, x, if sum < 0 then 0 else sum / base)
  {
    var sum := carry + was[j] * factor;
    var now' := now[j := sum % base];
    assert was[j..] == [was[j]] + was[j + 1..] && now'[j..] == [sum % base] + now[j + 1..];
    if was[j] > 0 { MulPos(was[j], factor); }
    if sum < 0 {
      assert was[j..] == [0] && now'[j..] == [base - 1];
      MinusOneEnters(base, factor);
    } else {
      hide Carried;
      CarriedStart(base, factor, x);
      CarriedStep(was[j + 1..], now[j + 1..], base, factor, Enters(was, base, x), carry, was[j]);
    }
  }

  lemma CarriedStart(base: nat, factor: nat, x: int)
    requires base > 0
    ensures Carried([], [], base, factor, x, x)
  {}

  lemma MinusOneEnters(base: nat, factor: nat)
    requires base > 1
    ensures Carried([0], [base - 1], base, factor, base - 1, 0)
  {
    ValueCons(0, [], base);
    ValueCons(base - 1, [], base);
    assert [0] == [0] + [] && [base - 1] == [base - 1] + [];
  }

  /** One position of the buffer. */
  method MulAddDigit(buf: array<Byte>, j: nat, base: nat, factor: nat, carry: int, ghost x: int, ghost was: seq<nat>)
      returns (carry': int)
    requires 2 <= base <= 256 && j < buf.Length == |was| && buf[j] == was[j] && x >= -1 && factor > 0
    requires Passed(was, buf[..], j + 1, base, factor, x, carry)
    modifies buf
    ensures buf[..j] == old(buf[..j]) && Passed(was, buf[..], j, base, factor, x, carry')
  {
    hide Passed;
    ghost var now := buf[..];
    PassedStep(was, now, j, base, factor, x, carry);
    carry' := carry + buf[j] * factor;
    buf[j] := carry' % base;
    carry' := if carry' < 0 then 0 else carry' / base;
    assert buf[..] == now[j := buf[j]];
  }

  /** The inner loop of both directions: buffer * factor + x, digit by digit from the right;
      what does not fit comes back as the carry. */
  method MulAdd(buf: array<Byte>, base: nat, factor: nat, x: int) returns (carry: int)
    requires 2 <= base <= 256 && x >= -1 && factor > 0 && (x == -1 ==> base == 256)
    modifies buf
    ensures buf.Length > 0 ==> Carried(old(buf[..]), buf[..], base, factor, Enters(old(buf[..]), base, x), carry) && carry >= 0
    ensures buf.Length == 0 ==> carry == x
  {
    carry := x;
    var j := buf.Length - 1;
    ghost var was := buf[..];
    assert Passed(was, buf[..], buf.Length, base, factor, x, carry);
    while j >= 0
      invariant -1 <= j < buf.Length && buf[..j + 1] == was[..j + 1]
      invariant Passed(was, buf[..], j + 1, base, factor, x, carry)
    {
      hide Passed;
      assert buf[j] == buf[..j + 1][j];
      carry := MulAddDigit(buf, j, base, factor, carry, x, was);
      assert was[..j] == was[..j + 1][..j];
      j := j - 1;
    }
    assert was[0..] == was && buf[0..] == buf[..];
  }

  /** While the written number stays below base^length, nothing is carried out of the buffer. */
  lemma NoCarry(was: seq<nat>, now: seq<nat>, base: nat, factor: nat, x: nat, carry: int)
    requires base > 0 && Carried(was, now, base, factor, x, carry) && carry >= 0
    requires Value(was, base) * factor + x < Pow(base, |now|)
    ensures carry == 0 && Value(now, base) == Value(was, base) * factor + x
  {
    if carry > 0 {
      MulPos(carry, Pow(base, |now|));
    }
  }

  /** The outer loop of the encoding: the number written by `digits` in base `from` goes into the
      buffer in base `base`. */
  method Transcode(digits: seq<Byte>, from: nat, buf: array<Byte>, base: nat)
    requires 2 <= base <= 256 && 2 <= from <= 256 && AreDigits(digits, from)
    requires Pow(from, |digits|) <= Pow(base, buf.Length) && buf.Length > 0
    requires forall i :: 0 <= i < buf.Length ==> buf[i] == 0
    modifies buf
    ensures AreDigits(buf[..], base) && Value(buf[..], base) == Value(digits, from)
  {
    var i := 0;
    ZeroBuffer(buf[..], base);
    assert digits[..0] == [];
    while i < |digits|
      invariant 0 <= i <= |digits| && AreDigits(buf[..], base)
      invariant Value(buf[..], base) == Value(digits[..i], from)
    {
      hide Value, Carried;
      ghost var was := buf[..];
      var carry := MulAdd(buf, base, from, digits[i]);
      PrefixFits(digits, i, from, |was|, base);
      NoCarry(was, buf[..], base, from, digits[i], carry);
      CarriedDigits(was, buf[..], base, from, digits[i], carry);
      i := i + 1;
    }
    assert digits[..i] == digits;
  }

  lemma CarriedDigits(was: seq<nat>, now: seq<nat>, base: nat, factor: nat, x: int, carry: int)
    requires base > 0 && Carried(was, now, base, factor, x, carry)
    ensures AreDigits(now, base)
  {}

  lemma {:induction false} ZeroBuffer(s: seq<nat>, b: nat)
    requires b > 0 && forall i :: 0 <= i < |s| ==> s[i] == 0
    ensures Value(s, b) == 0 && AreDigits(s, b)
  {
    LeadingZerosDropOut(s, |s|, b);
    assert s[|s|..] == [];
  }

  lemma PrefixFits(digits: seq<nat>, i: nat, from: nat, size: nat, base: nat)
    requires i < |digits| && from > 0 && base > 0 && AreDigits(digits, from)
    requires Pow(from, |digits|) <= Pow(base, size)
    ensures Value(digits[..i + 1], from) == Value(digits[..i], from) * from + digits[i] < Pow(base, size)
  {
    assert digits[..i + 1] == digits[..i] + [digits[i]];
    ValueSnoc(digits[..i], digits[i], from);
    ValueBound(digits[..i + 1], from);
    PowMono(from, i + 1, |digits|);
  }

  lemma {:induction false} LeadingIs(s: seq<nat>, z: nat, k: nat)
    requires k <= |s| && (forall i :: 0 <= i < k ==> s[i] == z) && (k < |s| ==> s[k] != z)
    ensures CountLeading(s, z) == k
  {
    if k > 0 { LeadingIs(s[1..], z, k - 1); }
  }

  /** What is left of a buffer after its leading zeros are the digits of its value. */
  lemma StripZeros(s: seq<nat>, k: nat, b: nat)
    requires b > 1 && AreDigits(s, b) && k == CountLeading(s, 0)
    ensures s[k..] == Digits(Value(s, b), b)
  {
    LeadingZerosDropOut(s, k, b);
    DigitsOfValue(s[k..], b);
  }

  /** Both directions count the leading zeros of the input first ... */
  method CountZeros(s: seq<Byte>, zero: Byte) returns (zeros: nat)
    ensures zeros == CountLeading(s, zero)
  {
    zeros := 0;
    while zeros < |s| && s[zeros] == zero
      invariant 0 <= zeros <= |s| && forall k :: 0 <= k < zeros ==> s[k] == zero
    {
      zeros := zeros + 1;
    }
    LeadingIs(s, zero, zeros);
  }

  /** ... then transcode the rest in a zeroed buffer and skip the buffer's unused front. */
  method DigitBuffer(digits: seq<Byte>, from: nat, base: nat, size: nat)
      returns (buf: array<Byte>, leadingZeros: nat)
    requires 2 <= base <= 256 && 2 <= from <= 256 && AreDigits(digits, from)
    requires Pow(from, |digits|) <= Pow(base, size) && size > 0
    ensures fresh(buf) && leadingZeros <= buf.Length
    ensures buf[leadingZeros..] == Digits(Value(digits, from), base)
  {
    buf := new Byte[size](_ => 0);
    Transcode(digits, from, buf, base);
    leadingZeros := CountZeros(buf[..], 0);
    StripZeros(buf[..], leadingZeros, base);
    assert buf[..][leadingZeros..] == buf[leadingZeros..];
  }

  /** Append the characters of the digits in the buffer. */
  method AppendChars(prefix: seq<Byte>, buf: array<Byte>, from: nat) returns (text: seq<Byte>)
    requires from <= buf.Length && AreDigits(buf[from..], 58)
    ensures text == prefix + Chars(buf[from..])
  {
    text := prefix;
    for k := from to buf.Length
      invariant text == prefix + Chars(buf[from..])[..k - from]
    {
      assert buf[k] == buf[from..][k - from];
      text := text + [Char(buf[k])];
    }
  }

  /** base58_encode */
  method Base58Encode(data: seq<Byte>) returns (encoded: seq<Byte>)
    requires |data| * 138 < 0x8000_0000
    ensures encoded == Encode(data)
  {
    hide Chars, Digits, Value, CountLeading;
    var zeros := CountZeros(data, 0);
    var encodedSize := (|data| - zeros) * 138 / 100 + 1;
    EncodeRoom(|data| - zeros);
    var encodedData, leadingZeros := DigitBuffer(data[zeros..], 256, 58, encodedSize);
    encoded := [];
    for k := 0 to zeros
      invariant encoded == Repeat(Char(0), k)
    {
      encoded := encoded + [Char(0)];
    }
    encoded := AppendChars(encoded, encodedData, leadingZeros);
  }

  /** The outer loop of the decoding, for any characters. */
  method DecodeChars(text: seq<Byte>, buf: array<Byte>)
    requires buf.Length > 0 && forall i :: 0 <= i < buf.Length ==> buf[i] == 0
    modifies buf
    ensures AreDigits(buf[..], 256) && Value(buf[..], 256) == TextValue(text, Pow(256, buf.Length))
  {
    ZeroBuffer(buf[..], 256);
    assert text[..0] == [];
    for i := 0 to |text|
      invariant AreDigits(buf[..], 256) && Value(buf[..], 256) == TextValue(text[..i], Pow(256, buf.Length))
    {
      hide Value, Carried, TextValue, Pow;
      ghost var was := buf[..];
      var found := Find(text[i], 0);
      var carry := MulAdd(buf, 256, 58, if found == 58 then -1 else found);
      CharEnters(was, buf[..], text[i], carry);
      TextValueMore(text, i, Pow(256, buf.Length));
    }
    assert text[..|text|] == text;
  }

  lemma TextValueMore(text: seq<Byte>, i: nat, m: nat)
    requires m > 0 && i < |text|
    ensures TextValue(text[..i + 1], m) == WithChar(TextValue(text[..i], m), text[i]) % m
  {
    assert text[..i + 1][..i] == text[..i];
  }

  lemma CharEnters(was: seq<nat>, now: seq<nat>, c: Byte, carry: int)
    requires was != [] && AreDigits(was, 256) && carry >= 0
    requires Carried(was, now, 256, 58, Enters(was, 256, if Find(c, 0) == 58 then -1 else Find(c, 0)), carry)
    ensures AreDigits(now, 256) && Value(now, 256) == WithChar(Value(was, 256), c) % Pow(256, |was|)
  {
    hide Find;
    var front, last := was[..|was| - 1], was[|was| - 1];
    assert was == front + [last];
    ValueSnoc(front, last, 256);
    DivModUnique(Value(was, 256), 256, Value(front, 256), last);
    ValueBound(now, 256);
    DivModUnique(WithChar(Value(was, 256), c), Pow(256, |was|), carry, Value(now, 256));
  }

  /** base58_decode, for any characters; on texts over the alphabet it undoes the encoding. */
  method Base58Decode(encoded: seq<Byte>) returns (decoded: seq<Byte>)
    requires |encoded| * 733 < 0x8000_0000
    ensures decoded == DecodeAny(encoded)
    ensures IsText(encoded) ==> decoded == Decode(encoded)
  {
    hide Indexes, Digits, Value, CountLeading, TextValue, IsText, Pow;
    var zeros := CountZeros(encoded, Char(0));
    var decodedSize := (|encoded| - zeros) * 733 / 1000 + 1;
    var decodedData := new Byte[decodedSize](_ => 0);
    DecodeChars(encoded[zeros..], decodedData);
    var leadingZeros := CountZeros(decodedData[..], 0);
    StripZeros(decodedData[..], leadingZeros, 256);
    assert decodedData[..][leadingZeros..] == decodedData[leadingZeros..];
    decoded := [];
    for k := 0 to zeros
      invariant decoded == Repeat(0, k)
    {
      decoded := decoded + [0];
    }
    for k := leadingZeros to decodedData.Length
      invariant decoded == Repeat(0, zeros) + decodedData[leadingZeros..k]
    {
      decoded := decoded + [decodedData[k]];
    }
    assert decodedData[leadingZeros..decodedData.Length] == decodedData[leadingZeros..];
    if IsText(encoded) { DecodeText(encoded); }
  }

  /** Over the alphabet the buffer is large enough, and the value is that of the digits. */
  lemma DecodeText(text: seq<Byte>)
    requires IsText(text)
    ensures DecodeAny(text) == Decode(text)
  {
    hide Indexes, Digits, CountLeading, Find, Value, Pow, TextValue;
    var z := CountLeading(text, Char(0));
    var n := |text| - z;
    DecodeRoom(n);
    IndexesChars(text[z..]);
    TextValueIs(text[z..], Pow(256, n * 733 / 1000 + 1));
  }

  lemma {:induction false} TextValueIs(text: seq<Byte>, m: nat)
    requires m >= Pow(58, |text|) && AreDigits(Indexes(text), 58)
    ensures TextValue(text, m) == Value(Indexes(text), 58)
  {
    hide Find, Indexes, Value, Pow, WithChar;
    if text == [] {
      EmptyValue(text);
    } else {
      var front, c := text[..|text| - 1], text[|text| - 1];
      PowMono(58, |front|, |text|);
      IndexesMore(text);
      TextValueIs(front, m);
      ValueSnoc(Indexes(front), Find(c, 0), 58);
      ValueBound(Indexes(text), 58);
      FoundChar(Value(Indexes(front), 58), c);
      DivModUnique(Value(Indexes(text), 58), m, 0, Value(Indexes(text), 58));
    }
  }

  lemma EmptyValue(text: seq<Byte>)
    requires text == []
    ensures Value(Indexes(text), 58) == 0
  {}

  lemma FoundChar(v: nat, c: Byte)
    requires Find(c, 0) < 58
    ensures WithChar(v, c) == v * 58 + Find(c, 0)
  {}

  lemma IndexesMore(text: seq<Byte>)
    requires text != [] && AreDigits(Indexes(text), 58)
    ensures var front, c := text[..|text| - 1], text[|text| - 1];
            Indexes(text) == Indexes(front) + [Find(c, 0)] && AreDigits(Indexes(front), 58) && Find(c, 0) < 58
  {
    hide Find;
    var front, c := text[..|text| - 1], text[|text| - 1];
    assert Indexes(text) == Indexes(front) + [Find(c, 0)];
    assert forall i :: 0 <= i < |front| ==> Indexes(front)[i] == Indexes(text)[i];
    assert Indexes(text)[|text| - 1] < 58;
  }
}
