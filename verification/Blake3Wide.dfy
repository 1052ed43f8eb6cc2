/** Hashing a whole subtree at once, several chunks or parents at a time. The number of
    inputs per hash_many call (the SIMD degree) is a parameter; the results never depend on it. */
module Blake3Wide {
  import opened Bits
  import opened Bytes
  import opened Blake3Spec
  import opened Blake3Tree
  import opened Blake3Chunk
  import opened Blake3Portable

  /** The degree detected at run time and the compile-time bound the buffers are sized by. */
  datatype Simd = Simd(degree: nat, maxDegree: nat) {
    predicate Ok() { IsPow2(degree) && degree <= maxDegree }

    function MaxDegreeOr2(): nat { if maxDegree > 2 then maxDegree else 2 }

    /** The most chaining values a wide call returns. */
    function DegreeOr2(): nat { if degree == 1 then 2 else degree }
  }

  lemma WholeChunks(m: Mode, input: seq<Byte>, counter: nat, chunks: seq<seq<Byte>>)
    requires 1024 * |chunks| <= |input|
    requires forall i :: 0 <= i < |chunks| ==> chunks[i] == input[1024 * i..1024 * (i + 1)]
    ensures HashedMany(ChunkBatch(m), chunks, counter, true) == ChunkCvs(m, input[..1024 * |chunks|], counter)
  {
    hide SubtreeCv, HashedOne;
    var part := input[..1024 * |chunks|];
    forall i | 0 <= i < |chunks|
      ensures HashedOne(ChunkBatch(m), chunks[i], counter + i) == SubtreeCv(m, Chunk(part, i), counter + i)
    {
      assert Chunk(part, i) == chunks[i];
      FullChunk(m, chunks[i], counter + i);
      ChunkSubtree(m, chunks[i], counter + i);
    }
  }

  /** The pointers to all full chunks of the input. */
  method GatherChunks(s: Simd, input: seq<Byte>) returns (chunks: array<seq<Byte>>, n: nat)
    requires |input| <= 1024 * s.maxDegree
    ensures fresh(chunks) && n <= chunks.Length && 1024 * n <= |input| < 1024 * (n + 1)
    ensures forall i :: 0 <= i < n ==> chunks[i] == input[1024 * i..1024 * (i + 1)]
  {
    chunks := new seq<Byte>[s.maxDegree](_ => []);
    var position := 0;
    n := 0;
    while |input| - position >= 1024
      invariant position == 1024 * n <= |input|
      invariant forall i :: 0 <= i < n ==> chunks[i] == input[1024 * i..1024 * (i + 1)]
    {
      chunks[n] := input[position..position + 1024];
      position := position + 1024;
      n := n + 1;
    }
  }

  /** compress_chunks_parallel */
  method CompressChunksParallel(m: Mode, s: Simd, input: seq<Byte>, counter: nat, out: array<Byte>, off: nat)
      returns (n: nat)
    requires 0 < |input| <= 1024 * s.maxDegree && off + 32 * NumChunks(|input|) <= out.Length
    modifies out
    ensures n == NumChunks(|input|) && Wrote(old(out[..]), out[..], off, ChunkCvs(m, input, counter))
  {
    hide ChunkCvs, Wrote;
    ghost var before := out[..];
    var chunks;
    chunks, n := GatherChunks(s, input);
    WholeChunks(m, input, counter, chunks[..n]);
    HashMany(ChunkBatch(m), chunks, n, counter, true, out, off);
    if |input| > 1024 * n {
      HashPartialChunk(m, input, n, counter, out, off, before);
      n := n + 1;
    } else {
      assert input[..1024 * n] == input;
    }
  }

  /** The partial last chunk goes through a chunk state of its own. */
  method HashPartialChunk(m: Mode, input: seq<Byte>, k: nat, counter: nat, out: array<Byte>, off: nat,
                          ghost before: seq<Byte>)
    requires 1024 * k < |input| < 1024 * (k + 1) && off + 32 * (k + 1) <= out.Length
    requires Wrote(before, out[..], off, ChunkCvs(m, input[..1024 * k], counter))
    modifies out
    ensures Wrote(before, out[..], off, ChunkCvs(m, input, counter))
  {
    hide Wrote, SubtreeCv;
    var rest := input[1024 * k..];
    var cv := HashChunk(m, rest, counter + k);
    SingleChunk(m, rest, counter + k);
    ghost var was := out[..];
    CopyInto(out, off + 32 * k, cv);
    WroteOne(was, out[..], off + 32 * k, cv);
    AppendPartial(m, input, k, counter, before, was, out[..], off);
  }

  lemma AppendPartial(m: Mode, input: seq<Byte>, k: nat, counter: nat,
                      before: seq<Byte>, was: seq<Byte>, after: seq<Byte>, off: nat)
    requires 1024 * k < |input|
    requires Wrote(before, was, off, ChunkCvs(m, input[..1024 * k], counter))
    requires Wrote(was, after, off + 32 * k, ChunkCvs(m, input[1024 * k..], counter + k))
    ensures Wrote(before, after, off, ChunkCvs(m, input, counter))
  {
    assert input == input[..1024 * k] + input[1024 * k..];
    ChunkCvsConcat(m, input[..1024 * k], input[1024 * k..], counter, k);
    WroteMore(before, was, after, off, ChunkCvs(m, input[..1024 * k], counter),
              ChunkCvs(m, input[1024 * k..], counter + k));
  }

  /** The pointers to all pairs of neighbouring chaining values. */
  method GatherParents(s: Simd, cvArray: array<Byte>, num: nat, ghost cvs: seq<Cv>)
      returns (parents: array<seq<Byte>>, n: nat)
    requires num == |cvs| <= 2 * s.MaxDegreeOr2() && 32 * num <= cvArray.Length
    requires cvArray[..32 * num] == Flat(cvs)
    ensures fresh(parents) && n == num / 2 <= parents.Length
    ensures forall i :: 0 <= i < n ==> parents[i] == Pair(cvs[2 * i], cvs[2 * i + 1])
  {
    parents := new seq<Byte>[s.MaxDegreeOr2()](_ => []);
    n := 0;
    while num - 2 * n >= 2
      invariant 2 * n <= num
      invariant forall i :: 0 <= i < n ==> parents[i] == Pair(cvs[2 * i], cvs[2 * i + 1])
    {
      FlatPair(cvs, 2 * n);
      parents[n] := cvArray[64 * n..64 * n + 64];
      assert parents[n] == cvArray[..32 * num][64 * n..64 * n + 64];
      n := n + 1;
    }
  }

  lemma WholeParents(m: Mode, cvs: seq<Cv>, parents: seq<seq<Byte>>)
    requires |parents| == |cvs| / 2
    requires forall i :: 0 <= i < |parents| ==> |parents[i]| == 64
    requires forall i :: 0 <= i < |parents| ==> parents[i] == Pair(cvs[2 * i], cvs[2 * i + 1])
    ensures Condense(m, cvs) == HashedMany(ParentBatch(m), parents, 0, false) + cvs[2 * |parents|..]
  {
    hide HashedOne, ChainingValue;
    forall i | 0 <= i < |parents|
      ensures HashedOne(ParentBatch(m), parents[i], 0) == Join(m, cvs[2 * i], cvs[2 * i + 1])
    {
      ParentBlock(m, parents[i]);
    }
  }

  /** compress_parents_parallel */
  method CompressParentsParallel(m: Mode, s: Simd, cvArray: array<Byte>, num: nat, ghost cvs: seq<Cv>,
                                 out: array<Byte>, off: nat) returns (n: nat)
    requires num == |cvs| <= 2 * s.MaxDegreeOr2() && 32 * num <= cvArray.Length
    requires cvArray[..32 * num] == Flat(cvs)
    requires out != cvArray && off + 32 * ((num + 1) / 2) <= out.Length
    modifies out
    ensures n == (num + 1) / 2 && Wrote(old(out[..]), out[..], off, Condense(m, cvs))
  {
    hide Wrote, HashedMany, Condense;
    ghost var before := out[..];
    var parents;
    parents, n := GatherParents(s, cvArray, num, cvs);
    WholeParents(m, cvs, parents[..n]);
    ghost var joined := HashedMany(ParentBatch(m), parents[..n], 0, false);
    HashMany(ParentBatch(m), parents, n, 0, false, out, off);
    if num > 2 * n {
      ghost var was := out[..];
      assert cvArray[64 * n..64 * n + 32] == cvs[2 * n] by {
        FlatAt(cvs, 2 * n);
        assert cvArray[64 * n..64 * n + 32] == cvArray[..32 * num][64 * n..64 * n + 32];
      }
      CopyInto(out, off + 32 * n, cvArray[64 * n..64 * n + 32]);
      WroteOne(was, out[..], off + 32 * n, cvs[2 * n]);
      WroteMore(before, was, out[..], off, joined, [cvs[2 * n]]);
      assert cvs[2 * n..] == [cvs[2 * n]];
      n := n + 1;
    } else {
      assert joined + cvs[2 * n..] == joined;
    }
  }

  /** How many chaining values a wide call may return for n bytes. */
  function MaxOut(s: Simd, n: nat): nat {
    if NumChunks(n) <= s.degree then NumChunks(n) else s.DegreeOr2()
  }

  /** The list stands for the tree over the input, and never stops at the root itself. */
  ghost predicate Stands(m: Mode, input: seq<Byte>, counter: nat, cvs: seq<Cv>)
    requires |input| > 0
  {
    && |cvs| > 0 && TreeTop(m, cvs) == SubtreeCv(m, input, counter)
    && (|input| > 1024 ==> |cvs| > 1 && Children(m, cvs) == SubtreeChildren(m, input, counter))
  }

  /** The length of the list: one per chunk, or else at most the degree, and exactly the
      degree for a perfect subtree. */
  ghost predicate WideLength(s: Simd, n: nat, k: nat) {
    && k <= MaxOut(s, n)
    && (NumChunks(n) <= s.degree ==> k == NumChunks(n))
    && (n % 1024 == 0 && IsPow2(n / 1024) && n / 1024 > s.degree ==> k == s.DegreeOr2())
  }

  lemma Pow2Gap(u: nat, v: nat)
    requires IsPow2(u) && IsPow2(v) && u < v
    ensures 2 * u <= v
  {
    if 2 * u > v {
      FloorPow2Unique(v, u);
      FloorPow2Unique(v, v);
    }
  }

  /** The left half returns as many values as its slot in the buffer holds. */
  lemma LeftFills(s: Simd, n: nat, leftN: nat)
    requires s.Ok() && n > 1024 * s.degree
    requires WideLength(s, 1024 * LeftChunks(n), leftN)
    ensures leftN == if LeftChunks(n) > 1 then s.DegreeOr2() else 1
    ensures LeftChunks(n) == 1 ==> s.degree == 1
  {
    var u := LeftChunks(n);
    if u < s.degree {
      Pow2Gap(u, s.degree);
      assert false;
    }
    assert NumChunks(1024 * u) == u;
  }

  /** What two halves, and one layer of parents over them, stand for. */
  lemma HalvesStand(m: Mode, s: Simd, input: seq<Byte>, counter: nat, left: seq<Cv>, right: seq<Cv>)
    requires s.Ok() && |input| > 1024 * s.degree && |input| > 1024
    requires var u := LeftChunks(|input|);
             && Stands(m, input[..1024 * u], counter, left)
             && Stands(m, input[1024 * u..], counter + u, right)
             && WideLength(s, 1024 * u, |left|) && WideLength(s, |input| - 1024 * u, |right|)
    ensures Stands(m, input, counter, left + right)
    ensures |left| > 1 ==> Stands(m, input, counter, Condense(m, left + right))
    ensures WideLength(s, |input|, if |left| > 1 then |Condense(m, left + right)| else 2)
    ensures |left| == 1 ==> |right| == 1
  {
    hide TreeTop, SubtreeCv, Condense, FloorPow2;
    LeftFills(s, |input|, |left|);
    RightFits(s, |input|, |right|);
    ChildrenOfConcat(m, left, right);
    TopJoinsChildren(m, left + right);
    SubtreeJoinsChildren(m, input, counter);
    if |left| > 1 {
      CondenseKeepsTop(m, left + right);
      CondenseKeepsChildren(m, left + right);
    }
  }

  lemma RightFits(s: Simd, n: nat, rightN: nat)
    requires s.Ok() && n > 1024 * s.degree && n > 1024
    requires WideLength(s, n - 1024 * LeftChunks(n), rightN)
    ensures rightN <= s.DegreeOr2()
    ensures LeftChunks(n) == 1 ==> rightN == 1
    ensures n % 1024 == 0 && IsPow2(n / 1024) && LeftChunks(n) > 1 ==> rightN == s.DegreeOr2()
  {
    var u, w := LeftChunks(n), n / 1024;
    assert NumChunks(n - 1024 * u) <= u;
    if n % 1024 == 0 && IsPow2(w) && u > 1 {
      PerfectHalves(s, n, rightN);
    }
  }

  lemma PerfectHalves(s: Simd, n: nat, rightN: nat)
    requires s.Ok() && n > 1024 * s.degree && n % 1024 == 0 && IsPow2(n / 1024)
    requires n > 1024 && LeftChunks(n) > 1
    requires WideLength(s, n - 1024 * LeftChunks(n), rightN)
    ensures rightN == s.DegreeOr2()
  {
    hide LeftChunks;
    var w := n / 1024;
    assert n == 1024 * w && w % 2 == 0 && IsPow2(w / 2);
    hide IsPow2;
    LeftChunksAt(w / 2, n);
    Pow2Gap(s.degree, w);
    assert n - 1024 * (w / 2) == 1024 * (w / 2);
  }

  /** Few enough chunks: their chaining values are the result. */
  lemma ChunksStand(m: Mode, s: Simd, input: seq<Byte>, counter: nat)
    requires s.Ok() && 0 < |input| <= 1024 * s.degree
    ensures Stands(m, input, counter, ChunkCvs(m, input, counter))
    ensures WideLength(s, |input|, |ChunkCvs(m, input, counter)|)
  {
    hide SubtreeCv, TreeTop;
    ChunkCvsTop(m, input, counter);
    if |input| > 1024 {
      ChunkCvsChildren(m, input, counter);
    }
  }

  /** The buffer's first bytes are the flattened list. */
  lemma WroteFront(before: seq<Byte>, after: seq<Byte>, cvs: seq<Cv>)
    requires Wrote(before, after, 0, cvs)
    ensures |after| >= 32 * |cvs| && after[..32 * |cvs|] == Flat(cvs)
  {}

  /** The recursive part of blake3_compress_subtree_wide: both halves into one buffer, the
      right half's values directly behind the left half's. */
  method CompressHalves(m: Mode, s: Simd, input: seq<Byte>, counter: nat)
      returns (cvArray: array<Byte>, leftN: nat, rightN: nat, ghost left: seq<Cv>, ghost right: seq<Cv>)
    requires s.Ok() && 1024 < |input| < TWO_64 && |input| > s.degree * 1024
    ensures fresh(cvArray) && cvArray.Length >= 32 * (leftN + rightN)
    ensures leftN == |left| && rightN == |right| && cvArray[..32 * (leftN + rightN)] == Flat(left + right)
    ensures var u := LeftChunks(|input|);
            && Stands(m, input[..1024 * u], counter, left)
            && Stands(m, input[1024 * u..], counter + u, right)
            && WideLength(s, 1024 * u, leftN) && WideLength(s, |input| - 1024 * u, rightN)
    decreases |input|, 0
  {
    hide Wrote, Stands, WideLength;
    var leftChunks := RoundDownToPowerOf2((|input| - 1) / 1024);
    cvArray := new Byte[2 * s.MaxDegreeOr2() * 32](_ => 0);
    ghost var empty := cvArray[..];
    var degree := if leftChunks * 1024 > 1024 && s.degree == 1 then 2 else s.degree;
    leftN, left := CompressSubtreeWide(m, s, input[..1024 * leftChunks], counter, cvArray, 0);
    LeftFills(s, |input|, leftN);
    assert leftN == degree;
    ghost var half := cvArray[..];
    rightN, right := CompressSubtreeWide(m, s, input[1024 * leftChunks..], counter + leftChunks, cvArray, 32 * degree);
    WroteMore(empty, half, cvArray[..], 0, left, right);
    WroteFront(empty, cvArray[..], left + right);
  }

  /** blake3_compress_subtree_wide */
  method CompressSubtreeWide(m: Mode, s: Simd, input: seq<Byte>, counter: nat, out: array<Byte>, off: nat)
      returns (n: nat, ghost cvs: seq<Cv>)
    requires s.Ok() && 0 < |input| < TWO_64 && off + 32 * MaxOut(s, |input|) <= out.Length
    modifies out
    ensures n == |cvs| && Wrote(old(out[..]), out[..], off, cvs)
    ensures Stands(m, input, counter, cvs) && WideLength(s, |input|, n)
    decreases |input|, 1
  {
    hide Wrote, Stands, ChunkCvs, Condense;
    if |input| <= s.degree * 1024 {
      n := CompressChunksParallel(m, s, input, counter, out, off);
      cvs := ChunkCvs(m, input, counter);
      ChunksStand(m, s, input, counter);
      return;
    }
    var cvArray, leftN, rightN, left, right := CompressHalves(m, s, input, counter);
    HalvesStand(m, s, input, counter, left, right);
    if leftN == 1 {
      ghost var was := out[..];
      CopyInto(out, off, cvArray[..64]);
      WroteTwo(was, out[..], off, left + right);
      return 2, left + right;
    }
    n := CompressParentsParallel(m, s, cvArray, leftN + rightN, left + right, out, off);
    cvs := Condense(m, left + right);
  }

  lemma WroteTwo(was: seq<Byte>, after: seq<Byte>, off: nat, cvs: seq<Cv>)
    requires |cvs| == 2 && off + 64 <= |was| && after == was[..off] + Flat(cvs) + was[off + 64..]
    ensures Wrote(was, after, off, cvs)
  {}

  /** compress_subtree_to_parent_node: the two children of the subtree's root, whatever the degree. */
  method CompressSubtreeToParentNode(m: Mode, s: Simd, input: seq<Byte>, counter: nat) returns (pair: Block)
    requires s.Ok() && 1024 < |input| < TWO_64
    ensures pair == Pair(SubtreeChildren(m, input, counter).0, SubtreeChildren(m, input, counter).1)
  {
    hide Wrote, TreeTop, Children, SubtreeChildren, SubtreeCv, Condense;
    var cvArray := new Byte[s.MaxDegreeOr2() * 32](_ => 0);
    ghost var empty := cvArray[..];
    var numCvs, cvs := CompressSubtreeWide(m, s, input, counter, cvArray, 0);
    WroteFront(empty, cvArray[..], cvs);
    var outArray := new Byte[s.MaxDegreeOr2() * 32 / 2](_ => 0);
    while numCvs > 2 && numCvs <= s.MaxDegreeOr2()
      invariant 2 <= numCvs == |cvs| <= s.MaxDegreeOr2()
      invariant cvArray[..32 * numCvs] == Flat(cvs)
      invariant Children(m, cvs) == SubtreeChildren(m, input, counter)
      decreases numCvs
    {
      ghost var was := outArray[..];
      numCvs := CompressParentsParallel(m, s, cvArray, numCvs, cvs, outArray, 0);
      CondenseKeepsChildren(m, cvs);
      cvs := Condense(m, cvs);
      WroteFront(was, outArray[..], cvs);
      CopyInto(cvArray, 0, outArray[..32 * numCvs]);
    }
    PairOf(m, cvs);
    pair := cvArray[..64];
  }

  lemma PairOf(m: Mode, cvs: seq<Cv>)
    requires |cvs| == 2
    ensures Flat(cvs) == Pair(Children(m, cvs).0, Children(m, cvs).1)
  {
    assert FloorPow2(1) == 1;
    FlatPair(cvs, 0);
    assert Flat(cvs)[0..64] == Flat(cvs);
  }
}
