/** String constants of the program as byte strings. */
module Texts {
  import opened Bytes

  function AsBytes(s: string): seq<Byte> {
    seq<Byte>(|s|, i requires 0 <= i < |s| => s[i] as int % 256)
  }
}
