/** Bytes, 32-bit words and the little-endian conversions of blake3_impl.h. */
module Bytes {

  type Byte = x: int | 0 <= x < 0x100
  type Word = x: int | 0 <= x < 0x1_0000_0000

  function StoreWord(w: Word): (b: seq<Byte>)
    ensures |b| == 4
  {
    [w % 256, w / 256 % 256, w / 256 / 256 % 256, w / 256 / 256 / 256]
  }

  function LoadWord(b: seq<Byte>): Word
    requires |b| == 4
  {
    (b[0] as int) + 256 * ((b[1] as int) + 256 * ((b[2] as int) + 256 * (b[3] as int)))
  }

  /** store_cv_words for any number of words. */
  function StoreWords(ws: seq<Word>): (b: seq<Byte>)
    ensures |b| == 4 * |ws|
  {
    if ws == [] then [] else StoreWord(ws[0]) + StoreWords(ws[1..])
  }

  /** load_key_words for any number of words. */
  function LoadWords(b: seq<Byte>): (ws: seq<Word>)
    requires |b| % 4 == 0
    ensures |ws| == |b| / 4
  {
    if b == [] then [] else [LoadWord(b[..4])] + LoadWords(b[4..])
  }

  lemma LoadStoreWord(w: Word)
    ensures LoadWord(StoreWord(w)) == w
  {}

  /** Writing words out and loading them back is the identity. */
  lemma {:induction false} LoadStoreWords(ws: seq<Word>)
    ensures LoadWords(StoreWords(ws)) == ws
  {
    if ws != [] {
      LoadStoreWord(ws[0]);
      LoadStoreWords(ws[1..]);
      assert StoreWords(ws)[..4] == StoreWord(ws[0]);
      assert StoreWords(ws)[4..] == StoreWords(ws[1..]);
    }
  }

  /** Little-endian: the words are sums of their bytes, the first byte counting least. */
  lemma {:induction false} StoredWord(ws: seq<Word>, i: nat)
    requires i < |ws|
    ensures var b := StoreWords(ws);
            ws[i] as int == (b[4 * i] as int) + 0x100 * (b[4 * i + 1] as int) + 0x1_0000 * (b[4 * i + 2] as int)
                          + 0x100_0000 * (b[4 * i + 3] as int)
  {
    var b := StoreWords(ws);
    if i == 0 {
      assert b[..4] == StoreWord(ws[0]);
      assert b[0] == b[..4][0] && b[1] == b[..4][1] && b[2] == b[..4][2] && b[3] == b[..4][3];
    } else {
      StoredWord(ws[1..], i - 1);
      var rest, k := StoreWords(ws[1..]), 4 * (i - 1);
      assert b[4..] == rest;
      assert b[4..][k] == b[4 * i] && b[4..][k + 1] == b[4 * i + 1];
      assert b[4..][k + 2] == b[4 * i + 2] && b[4..][k + 3] == b[4 * i + 3];
    }
  }

  /** std::string::find_last_of for one character; -1 stands for npos. */
  function FindLast(s: seq<Byte>, c: Byte): (i: int)
    ensures -1 <= i < |s| && (i >= 0 ==> s[i] == c) && forall j :: i < j < |s| ==> s[j] != c
  {
    if s == [] then -1
    else if s[|s| - 1] == c then |s| - 1
    else FindLast(s[..|s| - 1], c)
  }

  /** The last occurrence is found in front of a part that does not contain the character. */
  lemma FindLastAt(a: seq<Byte>, c: Byte, b: seq<Byte>)
    requires forall j :: 0 <= j < |b| ==> b[j] != c
    ensures FindLast(a + [c] + b, c) == |a|
  {
    var s := a + [c] + b;
    assert s[|a|] == c;
  }

  /** memcpy of a byte string into a buffer. */
  method CopyInto(dst: array<Byte>, off: nat, src: seq<Byte>)
    requires off + |src| <= dst.Length
    modifies dst
    ensures dst[..] == old(dst[..off]) + src + old(dst[off + |src|..])
  {
    forall i | 0 <= i < |src| {
      dst[off + i] := src[i];
    }
  }
}
