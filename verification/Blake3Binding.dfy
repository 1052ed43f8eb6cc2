/** What a BLAKE3 hash binds: two messages with one hash exhibit a collision of the compression. */
module Blake3Binding {
  import opened Bits
  import opened Bytes
  import opened Blake3Spec

  /** The arguments of one compression. */
  datatype Args = Args(cv: Words8, block: Block, blockLen: nat, counter: nat, flags: Flags)

  /** Two compressions, for a chaining value or for output bytes. */
  datatype Pair = ForValue(x: Args, y: Args) | ForBytes(x: Args, y: Args)

  /** Different arguments with the same result. */
  ghost predicate Collides(p: Primitive, c: Pair) {
    && c.x != c.y
    && match c
       case ForValue(x, y) => p.compress(x.cv, x.block, x.blockLen, x.counter, x.flags) == p.compress(y.cv, y.block, y.blockLen, y.counter, y.flags)
       case ForBytes(x, y) => p.xof(x.cv, x.block, x.blockLen, x.counter, x.flags) == p.xof(y.cv, y.block, y.blockLen, y.counter, y.flags)
  }

  /** The mode leaves the four lowest flags, which mark the nodes of the tree, to the tree. */
  ghost predicate PlainMode(m: Mode) { m.flags % 16 == 0 }

  // ---- flags --------------------------------------------------------------------------------

  /** The digit at the place of the power of two `bit` is 0. */
  predicate Free(x: nat, bit: nat) {
    if bit <= 1 then x % 2 == 0 else Free(x / 2, bit / 2)
  }

  lemma {:induction false} OrAdds(x: nat, bit: nat)
    requires bit in {1, 2, 4, 8} && Free(x, bit)
    ensures Or(x, bit) == x + bit
  {
    if x > 0 {
      if bit == 1 {
        assert Or(x / 2, 0) == x / 2;
      } else {
        OrAdds(x / 2, bit / 2);
      }
    }
  }

  lemma {:induction false} FreeAbove(q: nat, low: nat, bit: nat)
    requires bit in {1, 2, 4, 8} && low < bit
    ensures Free(2 * bit * q + low, bit)
  {
    if bit == 8 {
      assert (16 * q + low) / 2 == 8 * q + low / 2;
      FreeAbove(q, low / 2, 4);
    } else if bit == 4 {
      assert (8 * q + low) / 2 == 4 * q + low / 2;
      FreeAbove(q, low / 2, 2);
    } else if bit == 2 {
      assert (4 * q + low) / 2 == 2 * q + low / 2;
      FreeAbove(q, low / 2, 1);
    }
  }

  /** A bit above those that are set adds up. */
  lemma OrAbove(f: nat, low: nat, bit: nat)
    requires f % 16 == 0 && bit in {1, 2, 4, 8} && low < bit
    ensures Or(f + low, bit) == f + low + bit
  {
    hide Free, Or;
    var q := f / 16;
    assert 2 * bit * (8 / bit * q) == f;
    FreeAbove(8 / bit * q, low, bit);
    OrAdds(f + low, bit);
  }

  /** The flags of the nodes, in numbers. */
  lemma NodeFlags(f: nat, k: nat)
    requires f % 16 == 0
    ensures Or(f, StartFlag(k)) == f + StartFlag(k) && Or(f, PARENT) == f + 4
    ensures Or(Or(f, StartFlag(k)), CHUNK_END) == f + StartFlag(k) + 2
    ensures Or(f + StartFlag(k) + 2, ROOT) == f + StartFlag(k) + 10 && Or(f + 4, ROOT) == f + 12
  {
    hide Or, Free;
    OrAbove(f, 0, 1);
    OrZero(f);
    OrAbove(f, 0, 4);
    OrAbove(f, StartFlag(k), 2);
    OrAbove(f, StartFlag(k) + 2, 8);
    OrAbove(f, 4, 8);
  }

  lemma OrZero(f: nat)
    ensures Or(f, 0) == f
  {}

  // ---- chunks -------------------------------------------------------------------------------

  function FoldArgs(m: Mode, b: seq<Byte>, counter: nat, k: nat): Args
    requires 0 < k && 64 * k <= |b|
  {
    Args(BlockFold(m, b, counter, k - 1), b[64 * (k - 1)..64 * k], 64, counter, Or(m.flags, StartFlag(k - 1)))
  }

  /** Two folds that start together: equal results come from equal blocks, or from a collision. */
  lemma {:induction false} FoldBinds(m: Mode, a: seq<Byte>, b: seq<Byte>, counter: nat, j: nat, k: nat) returns (c: Pair)
    requires PlainMode(m) && 64 * j <= |a| && 64 * k <= |b| && (j == 0 <==> k == 0)
    requires BlockFold(m, a, counter, j) == BlockFold(m, b, counter, k)
    ensures Collides(m.prim, c) || (j == k && a[..64 * j] == b[..64 * k])
  {
    var none := Args(m.key, Pad([]), 0, 0, 0);
    c := ForValue(none, none);
    if j > 0 {
      var x, y := FoldArgs(m, a, counter, j), FoldArgs(m, b, counter, k);
      c := ForValue(x, y);
      if x == y {
        hide BlockFold, Or;
        NodeFlags(m.flags, j - 1);
        NodeFlags(m.flags, k - 1);
        c := FoldBinds(m, a, b, counter, j - 1, k - 1);
        if j == k {
          OneBlockMore(a, b, j);
        }
      }
    }
  }

  lemma OneBlockMore(a: seq<Byte>, b: seq<Byte>, k: nat)
    requires 0 < k && 64 * k <= |a| && 64 * k <= |b| && a[64 * (k - 1)..64 * k] == b[64 * (k - 1)..64 * k]
    ensures a[..64 * (k - 1)] == b[..64 * (k - 1)] ==> a[..64 * k] == b[..64 * k]
  {
    assert a[..64 * k] == a[..64 * (k - 1)] + a[64 * (k - 1)..64 * k];
    assert b[..64 * k] == b[..64 * (k - 1)] + b[64 * (k - 1)..64 * k];
  }

  /** Padded blocks of one length are equal only if what was padded is. */
  lemma PadBinds(a: seq<Byte>, b: seq<Byte>)
    requires |a| == |b| <= 64 && Pad(a) == Pad(b)
    ensures a == b
  {
    assert a == Pad(a)[..|a|] && b == Pad(b)[..|b|];
  }

  lemma ChunkBinds(m: Mode, a: seq<Byte>, ca: nat, b: seq<Byte>, cb: nat) returns (c: Pair)
    requires PlainMode(m) && ChunkOutput(m, a, ca) == ChunkOutput(m, b, cb)
    ensures Collides(m.prim, c) || (a == b && ca == cb)
  {
    var j, k := LeadingBlocks(|a|), LeadingBlocks(|b|);
    NodeFlags(m.flags, j);
    NodeFlags(m.flags, k);
    PadBinds(a[64 * j..], b[64 * k..]);
    c := FoldBinds(m, a, b, ca, j, k);
    assert a == a[..64 * j] + a[64 * j..] && b == b[..64 * k] + b[64 * k..];
  }

  // ---- trees --------------------------------------------------------------------------------

  lemma FlagsOfNode(m: Mode, a: seq<Byte>, ca: nat)
    requires PlainMode(m)
    ensures Subtree(m, a, ca).flags - m.flags in (if |a| <= 1024 then {2, 3} else {4})
    ensures Or(Subtree(m, a, ca).flags, ROOT) == Subtree(m, a, ca).flags + 8
  {
    NodeFlags(m.flags, LeadingBlocks(|a|));
    hide Or;
  }

  /** Equal nodes are nodes of one message at one place, or a collision lies below them. */
  lemma {:induction false} NodeBinds(m: Mode, a: seq<Byte>, ca: nat, b: seq<Byte>, cb: nat) returns (c: Pair)
    requires PlainMode(m) && (a != b || ca != cb) && Subtree(m, a, ca) == Subtree(m, b, cb)
    ensures Collides(m.prim, c)
    decreases |a|, 0
  {
    hide Subtree, SubtreeCv, Collides, ChunkOutput, Or;
    FlagsOfNode(m, a, ca);
    FlagsOfNode(m, b, cb);
    if |a| <= 1024 {
      Leaf(m, a, ca);
      Leaf(m, b, cb);
      c := ChunkBinds(m, a, ca, b, cb);
    } else {
      ParentBlocks(m, a, ca);
      ParentBlocks(m, b, cb);
      var u, v := LeftChunks(|a|), LeftChunks(|b|);
      var al, ar, bl, br := a[..1024 * u], a[1024 * u..], b[..1024 * v], b[1024 * v..];
      SameHalves(SubtreeCv(m, al, ca), SubtreeCv(m, ar, ca + u), SubtreeCv(m, bl, cb), SubtreeCv(m, br, cb + v));
      if al != bl || ca != cb {
        c := ValueBinds(m, al, ca, bl, cb);
      } else {
        assert a == al + ar && b == bl + br;
        assert |al| == 1024 * u && |bl| == 1024 * v;
        c := ValueBinds(m, ar, ca + u, br, cb + v);
      }
    }
  }

  lemma Leaf(m: Mode, a: seq<Byte>, ca: nat)
    requires |a| <= 1024
    ensures Subtree(m, a, ca) == ChunkOutput(m, a, ca)
  {
    hide ChunkOutput;
  }

  lemma ParentBlocks(m: Mode, a: seq<Byte>, ca: nat)
    requires |a| > 1024
    ensures var u := LeftChunks(|a|);
            Subtree(m, a, ca).block == SubtreeCv(m, a[..1024 * u], ca) + SubtreeCv(m, a[1024 * u..], ca + u)
  {
    hide SubtreeCv, Or;
  }

  lemma SameHalves(al: Cv, ar: Cv, bl: Cv, br: Cv)
    requires al + ar == bl + br
    ensures al == bl && ar == br
  {
    assert (al + ar)[..32] == al && (bl + br)[..32] == bl;
    assert (al + ar)[32..] == ar && (bl + br)[32..] == br;
  }

  lemma {:induction false} ValueBinds(m: Mode, a: seq<Byte>, ca: nat, b: seq<Byte>, cb: nat) returns (c: Pair)
    requires PlainMode(m) && (a != b || ca != cb) && SubtreeCv(m, a, ca) == SubtreeCv(m, b, cb)
    ensures Collides(m.prim, c)
    decreases |a|, 1
  {
    hide Subtree;
    var s, t := Subtree(m, a, ca), Subtree(m, b, cb);
    var x := Args(s.inputCv, s.block, s.blockLen, s.counter, s.flags);
    var y := Args(t.inputCv, t.block, t.blockLen, t.counter, t.flags);
    LoadStoreWords(Compress(m.prim, x.cv, x.block, x.blockLen, x.counter, x.flags));
    LoadStoreWords(Compress(m.prim, y.cv, y.block, y.blockLen, y.counter, y.flags));
    c := ForValue(x, y);
    if x == y {
      c := NodeBinds(m, a, ca, b, cb);
    }
  }

  /** The t-th 64 bytes of the output are one compression of the root, with counter t. */
  lemma OutputBlock(m: Mode, a: seq<Byte>, t: nat)
    ensures var o := Subtree(m, a, 0);
            Hash(m, a, 64 * t, 64) == m.prim.xof(o.inputCv, o.block, o.blockLen, t, Or(o.flags, ROOT))
  {
    hide Subtree, Or;
    var o := Subtree(m, a, 0);
    forall i | 0 <= i < 64 ensures RootByte(m.prim, o, 64 * t + i) == m.prim.xof(o.inputCv, o.block, o.blockLen, t, Or(o.flags, ROOT))[i] {
      assert (64 * t + i) / 64 == t && (64 * t + i) % 64 == i;
    }
  }

  lemma RootCounter(m: Mode, a: seq<Byte>)
    ensures Subtree(m, a, 0).counter == 0
  {
    hide BlockFold, Pad, Or, ChainingValue;
  }

  /** A block of the output binds the message and the block's place: two of them that are equal
      exhibit two different arguments of the compression with the same result. */
  lemma HashBinds(m: Mode, a: seq<Byte>, i: nat, b: seq<Byte>, j: nat) returns (c: Pair)
    requires PlainMode(m) && (a != b || i != j) && Hash(m, a, 64 * i, 64) == Hash(m, b, 64 * j, 64)
    ensures Collides(m.prim, c)
  {
    hide Subtree, Or, Hash;
    var s, t := Subtree(m, a, 0), Subtree(m, b, 0);
    OutputBlock(m, a, i);
    OutputBlock(m, b, j);
    FlagsOfNode(m, a, 0);
    FlagsOfNode(m, b, 0);
    RootCounter(m, a);
    RootCounter(m, b);
    var x := Args(s.inputCv, s.block, s.blockLen, i, Or(s.flags, ROOT));
    var y := Args(t.inputCv, t.block, t.blockLen, j, Or(t.flags, ROOT));
    c := ForBytes(x, y);
    if x == y {
      c := NodeBinds(m, a, 0, b, 0);
    }
  }
}
