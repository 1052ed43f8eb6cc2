/** Lists of chaining values that stand for a tree: what one layer of parent compression keeps. */
module Blake3Tree {
  import opened Bits
  import opened Bytes
  import opened Blake3Spec

  /** The chaining values one after another, as they lie in a buffer. */
  function Flat(cvs: seq<Cv>): (b: seq<Byte>)
    ensures |b| == 32 * |cvs|
  {
    if cvs == [] then [] else cvs[0] + Flat(cvs[1..])
  }

  lemma {:induction false} FlatConcat(a: seq<Cv>, b: seq<Cv>)
    ensures Flat(a + b) == Flat(a) + Flat(b)
  {
    if a == [] {
      assert a + b == b;
    } else {
      FlatConcat(a[1..], b);
      assert (a + b)[1..] == a[1..] + b;
    }
  }

  lemma FlatSingle(cv: Cv)
    ensures Flat([cv]) == cv
  {
    assert Flat([cv]) == cv + Flat([]);
  }

  /** A run of the list is the corresponding run of bytes. */
  lemma FlatSlice(cvs: seq<Cv>, i: nat, j: nat)
    requires i <= j <= |cvs|
    ensures Flat(cvs)[32 * i..32 * j] == Flat(cvs[i..j])
  {
    hide Flat;
    assert cvs == cvs[..i] + cvs[i..j] + cvs[j..];
    FlatConcat(cvs[..i] + cvs[i..j], cvs[j..]);
    FlatConcat(cvs[..i], cvs[i..j]);
  }

  lemma FlatAt(cvs: seq<Cv>, i: nat)
    requires i < |cvs|
    ensures Flat(cvs)[32 * i..32 * (i + 1)] == cvs[i]
  {
    hide Flat;
    FlatSlice(cvs, i, i + 1);
    assert cvs[i..i + 1] == [cvs[i]];
    FlatSingle(cvs[i]);
  }

  /** A region of a buffer holds these chaining values and the rest of the buffer is as before. */
  ghost predicate Wrote(before: seq<Byte>, after: seq<Byte>, off: nat, cvs: seq<Cv>) {
    off + 32 * |cvs| <= |before| && after == before[..off] + Flat(cvs) + before[off + 32 * |cvs|..]
  }

  lemma WroteNone(b: seq<Byte>, off: nat)
    requires off <= |b|
    ensures Wrote(b, b, off, [])
  {}

  lemma WroteMore(b0: seq<Byte>, b1: seq<Byte>, b2: seq<Byte>, off: nat, a: seq<Cv>, b: seq<Cv>)
    requires Wrote(b0, b1, off, a) && Wrote(b1, b2, off + 32 * |a|, b)
    ensures Wrote(b0, b2, off, a + b)
  {
    FlatConcat(a, b);
  }

  lemma WroteOne(was: seq<Byte>, after: seq<Byte>, off: nat, cv: Cv)
    requires off + 32 <= |was| && after == was[..off] + cv + was[off + 32..]
    ensures Wrote(was, after, off, [cv])
  {
    FlatSingle(cv);
  }

  function Pair(left: Cv, right: Cv): Block { left + right }

  /** Two neighbouring values are one block. */
  lemma FlatPair(cvs: seq<Cv>, k: nat)
    requires k + 1 < |cvs|
    ensures Flat(cvs)[32 * k..32 * k + 64] == Pair(cvs[k], cvs[k + 1])
  {
    hide Flat;
    var b := Flat(cvs);
    FlatAt(cvs, k);
    FlatAt(cvs, k + 1);
    assert b[32 * k..32 * k + 64] == b[32 * k..32 * k + 32] + b[32 * k + 32..32 * k + 64];
  }

  lemma FlatEntry(b: seq<Byte>, cvs: seq<Cv>, k: nat)
    requires k < |cvs| && |b| >= 32 * |cvs| && b[..32 * |cvs|] == Flat(cvs)
    ensures b[32 * k..32 * k + 32] == cvs[k]
  {
    hide Flat;
    FlatAt(cvs, k);
    assert b[32 * k..32 * k + 32] == b[..32 * |cvs|][32 * k..32 * k + 32];
  }

  /** Overwriting the second last value with cv shortens the list by one. */
  lemma FlatMerge(before: seq<Byte>, after: seq<Byte>, cvs: seq<Cv>, k: nat, cv: Cv)
    requires |cvs| == k + 2 && |before| >= 32 * |cvs| && before[..32 * |cvs|] == Flat(cvs)
    requires after == before[..32 * k] + cv + before[32 * k + 32..]
    ensures after[..32 * (k + 1)] == Flat(cvs[..k] + [cv])
  {
    hide Flat;
    FlatSlice(cvs, 0, k);
    FlatSingle(cv);
    FlatConcat(cvs[..k], [cv]);
    assert before[..32 * k] == before[..32 * |cvs|][0..32 * k] && cvs[0..k] == cvs[..k];
    assert after[..32 * (k + 1)] == before[..32 * k] + cv;
  }

  function Join(m: Mode, left: Cv, right: Cv): Cv {
    ChainingValue(m.prim, ParentOutput(m, Pair(left, right)))
  }

  /** The chaining value of the left-full tree whose leaves are the list. */
  function TreeTop(m: Mode, cvs: seq<Cv>): Cv
    requires |cvs| > 0
    decreases |cvs|
  {
    if |cvs| == 1 then cvs[0]
    else
      var p := FloorPow2(|cvs| - 1);
      Join(m, TreeTop(m, cvs[..p]), TreeTop(m, cvs[p..]))
  }

  /** The chaining values of that tree's two children. */
  function Children(m: Mode, cvs: seq<Cv>): (Cv, Cv)
    requires |cvs| > 1
  {
    var p := FloorPow2(|cvs| - 1);
    (TreeTop(m, cvs[..p]), TreeTop(m, cvs[p..]))
  }

  /** One layer of parents; an odd value left over moves up unchanged. */
  function Condense(m: Mode, cvs: seq<Cv>): (r: seq<Cv>)
    ensures |r| == (|cvs| + 1) / 2
  {
    seq<Cv>((|cvs| + 1) / 2, i requires 0 <= i < (|cvs| + 1) / 2 =>
      if 2 * i + 1 < |cvs| then Join(m, cvs[2 * i], cvs[2 * i + 1]) else cvs[2 * i])
  }

  lemma CondenseConcat(m: Mode, a: seq<Cv>, b: seq<Cv>)
    requires |a| % 2 == 0
    ensures Condense(m, a + b) == Condense(m, a) + Condense(m, b)
  {
    hide Join;
  }

  /** A power of two values followed by at most as many again split exactly there. */
  lemma ChildrenOfConcat(m: Mode, a: seq<Cv>, b: seq<Cv>)
    requires IsPow2(|a|) && 0 < |b| <= |a|
    ensures Children(m, a + b) == (TreeTop(m, a), TreeTop(m, b))
  {
    FloorPow2Unique(|a + b| - 1, |a|);
    assert (a + b)[..|a|] == a && (a + b)[|a|..] == b;
  }

  lemma TopJoinsChildren(m: Mode, cvs: seq<Cv>)
    requires |cvs| > 1
    ensures TreeTop(m, cvs) == Join(m, Children(m, cvs).0, Children(m, cvs).1)
  {}

  /** Compressing a layer of parents leaves the tree's chaining value as it is... */
  lemma {:induction false} CondenseKeepsTop(m: Mode, cvs: seq<Cv>)
    requires |cvs| > 0
    ensures TreeTop(m, Condense(m, cvs)) == TreeTop(m, cvs)
    decreases |cvs|, 1
  {
    if |cvs| == 2 {
      assert Condense(m, cvs) == [Join(m, cvs[0], cvs[1])];
      assert FloorPow2(1) == 1;
    } else if |cvs| > 2 {
      CondenseKeepsChildren(m, cvs);
      TopJoinsChildren(m, cvs);
      TopJoinsChildren(m, Condense(m, cvs));
    }
  }

  /** ... and, as long as two values remain, those of the root's children. */
  lemma {:induction false} CondenseKeepsChildren(m: Mode, cvs: seq<Cv>)
    requires |cvs| > 2
    ensures Children(m, Condense(m, cvs)) == Children(m, cvs)
    decreases |cvs|, 0
  {
    var p := FloorPow2(|cvs| - 1);
    var a, b := cvs[..p], cvs[p..];
    assert cvs == a + b;
    ChildrenOfConcat(m, a, b);
    CondenseConcat(m, a, b);
    assert IsPow2(p / 2) && |Condense(m, a)| == p / 2;
    ChildrenOfConcat(m, Condense(m, a), Condense(m, b));
    CondenseKeepsTop(m, a);
    CondenseKeepsTop(m, b);
  }

  function NumChunks(n: nat): (k: nat)
    ensures 1024 * k < n + 1024 <= 1024 * k + 1024
  {
    (n + 1024 - 1) / 1024
  }


  /** The i-th chunk of b. */
  function Chunk(b: seq<Byte>, i: nat): seq<Byte>
    requires i < NumChunks(|b|)
  {
    b[1024 * i..if 1024 * (i + 1) <= |b| then 1024 * (i + 1) else |b|]
  }

  /** The chaining values of the chunks of b. */
  function ChunkCvs(m: Mode, b: seq<Byte>, counter: nat): (r: seq<Cv>)
    ensures |r| == NumChunks(|b|)
  {
    seq<Cv>(NumChunks(|b|), i requires 0 <= i < NumChunks(|b|) => SubtreeCv(m, Chunk(b, i), counter + i))
  }

  lemma ChunkSubtree(m: Mode, b: seq<Byte>, counter: nat)
    requires |b| <= 1024
    ensures SubtreeCv(m, b, counter) == ChainingValue(m.prim, ChunkOutput(m, b, counter))
  {}

  lemma SingleChunk(m: Mode, b: seq<Byte>, counter: nat)
    requires 0 < |b| <= 1024
    ensures ChunkCvs(m, b, counter) == [ChainingValue(m.prim, ChunkOutput(m, b, counter))]
  {
    hide SubtreeCv;
    assert Chunk(b, 0) == b;
    ChunkSubtree(m, b, counter);
  }

  lemma ChunkCvsConcat(m: Mode, a: seq<Byte>, b: seq<Byte>, counter: nat, k: nat)
    requires |a| == 1024 * k
    ensures ChunkCvs(m, a + b, counter) == ChunkCvs(m, a, counter) + ChunkCvs(m, b, counter + k)
  {
    hide SubtreeCv;
    assert NumChunks(|a|) == k && NumChunks(|a + b|) == k + NumChunks(|b|);
    forall i | 0 <= i < NumChunks(|a + b|)
      ensures Chunk(a + b, i) == if i < k then Chunk(a, i) else Chunk(b, i - k)
    {}
  }

  /** The tree over the chunk chaining values is the subtree over the bytes. */
  lemma {:induction false} ChunkCvsTop(m: Mode, b: seq<Byte>, counter: nat)
    requires |b| > 0
    ensures TreeTop(m, ChunkCvs(m, b, counter)) == SubtreeCv(m, b, counter)
    decreases |b|, 1
  {
    hide SubtreeCv;
    if |b| <= 1024 {
      assert Chunk(b, 0) == b;
    } else {
      ChunkCvsChildren(m, b, counter);
      TopJoinsChildren(m, ChunkCvs(m, b, counter));
      SubtreeJoinsChildren(m, b, counter);
    }
  }

  lemma {:induction false} ChunkCvsChildren(m: Mode, b: seq<Byte>, counter: nat)
    requires |b| > 1024
    ensures Children(m, ChunkCvs(m, b, counter)) == SubtreeChildren(m, b, counter)
    decreases |b|, 0
  {
    hide SubtreeCv, ChunkCvs, TreeTop, Children, FloorPow2;
    var u := LeftChunks(|b|);
    var left, right := b[..1024 * u], b[1024 * u..];
    assert b == left + right;
    ChunkCvsConcat(m, left, right, counter, u);
    ChildrenOfConcat(m, ChunkCvs(m, left, counter), ChunkCvs(m, right, counter + u));
    ChunkCvsTop(m, left, counter);
    ChunkCvsTop(m, right, counter + u);
  }

  lemma SubtreeJoinsChildren(m: Mode, b: seq<Byte>, counter: nat)
    requires |b| > 1024
    ensures SubtreeCv(m, b, counter)
         == Join(m, SubtreeChildren(m, b, counter).0, SubtreeChildren(m, b, counter).1)
  {}

  /** The chaining values of the two children of the node over b. */
  function SubtreeChildren(m: Mode, b: seq<Byte>, counter: nat): (Cv, Cv)
    requires |b| > 1024
  {
    var u := LeftChunks(|b|);
    (SubtreeCv(m, b[..1024 * u], counter), SubtreeCv(m, b[1024 * u..], counter + u))
  }
}
