/** The BLAKE3 tree hash as sections 2.1 and 2.4 to 2.6 of the BLAKE3 paper define it,
    for an arbitrary compression function. */
module Blake3Spec {
  import opened Bits
  import opened Bytes

  // Blocks have 64 bytes, chunks 1024, chaining values 32 (eight words).

  type Flags = nat
  const CHUNK_START: Flags := 1
  const CHUNK_END: Flags := 2
  const PARENT: Flags := 4
  const ROOT: Flags := 8
  const KEYED_HASH: Flags := 16
  const DERIVE_KEY_CONTEXT: Flags := 32
  const DERIVE_KEY_MATERIAL: Flags := 64

  type Words8 = s: seq<Word> | |s| == 8 witness seq(8, _ => 0)
  type Block = s: seq<Byte> | |s| == 64 witness seq(64, _ => 0)
  type Cv = s: seq<Byte> | |s| == 32 witness seq(32, _ => 0)

  const IV: Words8 := [0x6A09E667, 0xBB67AE85, 0x3C6EF372, 0xA54FF53A,
                       0x510E527F, 0x9B05688C, 0x1F83D9AB, 0x5BE0CD19]

  /** The two faces of the compression rounds: the chaining value and the 64 output bytes.
      Arguments: input chaining value, block, block length, counter, flags. */
  datatype Primitive = Primitive(
    compress: (Words8, Block, nat, nat, Flags) -> Words8,
    xof: (Words8, Block, nat, nat, Flags) -> Block)

  /** Everything that is fixed for one hasher: the primitive, the key words and the mode flags. */
  datatype Mode = Mode(prim: Primitive, key: Words8, flags: Flags)

  /** A node whose last compression has not been done yet. */
  datatype Output = Output(inputCv: Words8, block: Block, blockLen: nat, counter: nat, flags: Flags)

  function Compress(p: Primitive, cv: Words8, block: Block, blockLen: nat, counter: nat, flags: Flags): Words8 {
    p.compress(cv, block, blockLen, counter, flags)
  }

  function ChainingValue(p: Primitive, o: Output): Cv {
    StoreWords(Compress(p, o.inputCv, o.block, o.blockLen, o.counter, o.flags))
  }

  /** Byte i of the extendable output of a root node. */
  function RootByte(p: Primitive, o: Output, i: nat): Byte {
    p.xof(o.inputCv, o.block, o.blockLen, i / 64, Or(o.flags, ROOT))[i % 64]
  }

  /** Bytes [seek, seek + len) of the extendable output. */
  function RootBytes(p: Primitive, o: Output, seek: nat, len: nat): (r: seq<Byte>)
    ensures |r| == len
  {
    seq<Byte>(len, i requires 0 <= i < len => RootByte(p, o, seek + i))
  }

  function Pad(b: seq<Byte>): Block
    requires |b| <= 64
  {
    b + seq(64 - |b|, _ => 0)
  }

  function StartFlag(k: nat): Flags { if k == 0 then CHUNK_START else 0 }

  /** The chaining words after the first k full blocks of chunk b. */
  function BlockFold(m: Mode, b: seq<Byte>, counter: nat, k: nat): Words8
    requires 64 * k <= |b|
    decreases k
  {
    if k == 0 then m.key
    else Compress(m.prim, BlockFold(m, b, counter, k - 1), b[64 * (k - 1)..64 * k], 64, counter,
                  Or(m.flags, StartFlag(k - 1)))
  }

  /** Full blocks in front of the last block of a chunk of n bytes. */
  function LeadingBlocks(n: nat): (k: nat)
    ensures if n == 0 then k == 0 else 64 * k < n <= 64 * k + 64
  {
    if n == 0 then 0 else (n - 1) / 64
  }

  /** Section 2.4: a chunk is the fold of its blocks, the last of them flagged and padded. */
  function ChunkOutput(m: Mode, b: seq<Byte>, counter: nat): Output {
    var k := LeadingBlocks(|b|);
    Output(BlockFold(m, b, counter, k), Pad(b[64 * k..]), |b| - 64 * k, counter,
           Or(Or(m.flags, StartFlag(k)), CHUNK_END))
  }

  /** Section 2.5: a parent compresses the chaining values of its two children. */
  function ParentOutput(m: Mode, block: Block): Output {
    Output(m.key, block, 64, 0, Or(m.flags, PARENT))
  }

  /** Chunks of an input of n > 1024 bytes that go left: the largest power of two that leaves
      at least one byte for the right. */
  function LeftChunks(n: nat): (u: nat)
    requires n > 1024
    ensures IsPow2(u) && 1024 * u < n <= 2048 * u
  {
    FloorPow2((n - 1) / 1024)
  }

  /** Section 2.1: the node over the bytes b, whose first chunk has the given number. */
  function Subtree(m: Mode, b: seq<Byte>, counter: nat): Output
    decreases |b|, 0
  {
    if |b| <= 1024 then ChunkOutput(m, b, counter)
    else
      var u := LeftChunks(|b|);
      ParentOutput(m, SubtreeCv(m, b[..1024 * u], counter) + SubtreeCv(m, b[1024 * u..], counter + u))
  }

  function SubtreeCv(m: Mode, b: seq<Byte>, counter: nat): Cv
    decreases |b|, 1
  {
    ChainingValue(m.prim, Subtree(m, b, counter))
  }

  /** The hash of a message: len bytes at position seek of the root's output. */
  function Hash(m: Mode, message: seq<Byte>, seek: nat, len: nat): (r: seq<Byte>)
    ensures |r| == len
  {
    RootBytes(m.prim, Subtree(m, message, 0), seek, len)
  }

  /** A power of two chunks followed by at most as many again split exactly there. */
  lemma LeftChunksAt(u: nat, n: nat)
    requires IsPow2(u) && 1024 * u < n <= 2048 * u
    ensures LeftChunks(n) == u
  {
    FloorPow2Unique((n - 1) / 1024, u);
  }

  /** Adjacent reads of the extendable output concatenate. */
  lemma HashReadsConcatenate(m: Mode, message: seq<Byte>, seek: nat, len: nat, more: nat)
    ensures Hash(m, message, seek, len + more)
         == Hash(m, message, seek, len) + Hash(m, message, seek + len, more)
  {}

  /** The fold over the first k blocks looks at no later byte. */
  lemma {:induction false} BlockFoldPrefix(m: Mode, a: seq<Byte>, b: seq<Byte>, counter: nat, k: nat)
    requires 64 * k <= |a| && 64 * k <= |b| && a[..64 * k] == b[..64 * k]
    ensures BlockFold(m, a, counter, k) == BlockFold(m, b, counter, k)
  {
    if k > 0 {
      var j := 64 * (k - 1);
      assert a[..j] == a[..64 * k][..j] && b[..j] == b[..64 * k][..j];
      assert a[j..64 * k] == a[..64 * k][j..] && b[j..64 * k] == b[..64 * k][j..];
      BlockFoldPrefix(m, a, b, counter, k - 1);
    }
  }
}
