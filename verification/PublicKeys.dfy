/** Public keys in text form: a readable prefix ending in '_', then the key in Base58. */
module PublicKeys {
  import opened Bytes
  import opened Base58Spec

  datatype KeyType = ED25519 | ED448 | ERROR_TYPE

  const UNDERSCORE: Byte := '_' as int

  /** signatures::get_key_type; 'r_' may stand once in front of the type. */
  function GetKeyType(publicKey: seq<Byte>, restricted: bool): KeyType
    decreases !restricted
  {
    var head := if |publicKey| < 2 then publicKey else publicKey[..2];
    if head == ['A' as int, UNDERSCORE] then ED25519
    else if head == ['B' as int, UNDERSCORE] then ED448
    else if head == ['r' as int, UNDERSCORE] && !restricted then GetKeyType(publicKey[2..], true)
    else ERROR_TYPE
  }

  function GetKeySize(t: KeyType): nat {
    match t
    case ED25519 => 32
    case ED448 => 57
    case ERROR_TYPE => 0
  }

  function EncodePublicKey(publicKey: seq<Byte>): seq<Byte>
    requires GetKeySize(GetKeyType(publicKey, false)) <= |publicKey|
  {
    var prefixLength := |publicKey| - GetKeySize(GetKeyType(publicKey, false));
    publicKey[..prefixLength] + Encode(publicKey[prefixLength..])
  }

  function DecodePublicKey(text: seq<Byte>): seq<Byte> {
    var pos := FindLast(text, UNDERSCORE);
    if pos < 0 then Decode([]) else text[..pos + 1] + Decode(text[pos + 1..])
  }

  /** A Base58 text contains no character outside the alphabet. */
  lemma NotInText(text: seq<Byte>, c: Byte)
    requires IsText(text) && !InAlphabet(c)
    ensures forall j :: 0 <= j < |text| ==> text[j] != c
  {}

  lemma SeparatorsAreNoText()
    ensures !InAlphabet(UNDERSCORE) && !InAlphabet('$' as int)
  {
    assert forall i :: 0 <= i < 58 ==> Char(i) != UNDERSCORE && Char(i) != '$' as int;
  }

  /** Decoding undoes encoding for every key of a recognised type whose prefix ends in '_',
      however many other '_' the prefix or the raw key bytes contain. */
  lemma PublicKeyRoundTrip(publicKey: seq<Byte>)
    requires var size := GetKeySize(GetKeyType(publicKey, false));
             0 < size < |publicKey| && publicKey[|publicKey| - size - 1] == UNDERSCORE
    ensures DecodePublicKey(EncodePublicKey(publicKey)) == publicKey
  {
    hide Encode, Decode, GetKeyType, GetKeySize;
    var n := |publicKey| - GetKeySize(GetKeyType(publicKey, false));
    SplitRoundTrip(publicKey[..n - 1], publicKey[n..]);
    assert publicKey[..n] == publicKey[..n - 1] + [UNDERSCORE];
    assert publicKey == publicKey[..n] + publicKey[n..];
  }

  lemma SplitRoundTrip(prefix: seq<Byte>, key: seq<Byte>)
    ensures DecodePublicKey(prefix + [UNDERSCORE] + Encode(key)) == prefix + [UNDERSCORE] + key
  {
    hide Encode, Decode, FindLast;
    var text := Encode(key);
    EncodeIsText(key);
    SeparatorsAreNoText();
    NotInText(text, UNDERSCORE);
    FindLastAt(prefix, UNDERSCORE, text);
    DecodeEncode(key);
    var whole := prefix + [UNDERSCORE] + text;
    assert whole[..|prefix| + 1] == prefix + [UNDERSCORE] && whole[|prefix| + 1..] == text;
  }
}
