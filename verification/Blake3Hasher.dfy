/** The incremental hasher: lazily flushed chunk, lazily merged stack of chaining values. */
module Blake3Hasher {
  import opened Arith
  import opened Bits
  import opened Bytes
  import opened Blake3Spec
  import opened Blake3Tree
  import opened Blake3Chunk
  import opened Blake3Wide
  import opened Blake3Frontier

  /** output_root_bytes: fill `out` with the extendable output from position `seek` on. */
  method OutputRootBytes(p: Primitive, o: Output, seek: nat, out: array<Byte>)
    modifies out
    ensures out[..] == RootBytes(p, o, seek, out.Length)
  {
    var outputBlockCounter, offsetWithinBlock, position := seek / 64, seek % 64, 0;
    while position < out.Length
      invariant position <= out.Length
      invariant 64 * outputBlockCounter + offsetWithinBlock == seek + position || position == out.Length
      invariant 0 <= offsetWithinBlock < 64
      invariant forall i :: 0 <= i < position ==> out[i] == RootByte(p, o, seek + i)
      decreases out.Length - position
    {
      var wideBuf := p.xof(o.inputCv, o.block, o.blockLen, outputBlockCounter, Or(o.flags, ROOT));
      var availableBytes := 64 - offsetWithinBlock;
      var take := if out.Length - position > availableBytes then availableBytes else out.Length - position;
      CopyInto(out, position, wideBuf[offsetWithinBlock..offsetWithinBlock + take]);
      forall i | position <= i < position + take
        ensures out[i] == RootByte(p, o, seek + i)
      {
        assert out[..][i] == wideBuf[offsetWithinBlock..][i - position];
        DivModUnique(seek + i, 64, outputBlockCounter, offsetWithinBlock + (i - position));
      }
      position := position + take;
      outputBlockCounter := outputBlockCounter + 1;
      offsetWithinBlock := 0;
    }
  }

  class Hasher {
    const simd: Simd
    const key: Words8
    const chunk: ChunkState
    var cvStackLen: nat
    const cvStack: array<Byte>

    /** All bytes absorbed so far. */
    ghost var absorbed: seq<Byte>
    /** The entries of the stack, and where it is lazy. */
    ghost var stack: seq<Cv>
    ghost var q: nat
    ghost var u: nat

    ghost function TheMode(): Mode { Mode(chunk.prim, key, chunk.flags) }

    /** The stack has room for 54 + 1 entries of 32 bytes. */
    ghost predicate Fields() {
      simd.Ok() && chunk.Fields(TheMode()) && cvStack.Length == 1760 && cvStack != chunk.buf
    }

    /** The stack stands for the first `n` chunks of `all`. */
    ghost predicate StackOk(all: seq<Byte>, n: nat)
      reads this, cvStack
    {
      && cvStackLen == |stack| <= 55 && cvStack.Length == 1760
      && cvStack[..32 * cvStackLen] == Flat(stack)
      && StackHolds(TheMode(), all, n, stack, q, u)
    }

    /** The hasher between two calls. */
    ghost predicate Valid()
      reads this, chunk, chunk.cv, chunk.buf, cvStack
    {
      var n := chunk.chunkCounter;
      && Fields() && |absorbed| < TWO_64
      && 1024 * n <= |absorbed| <= 1024 * n + 1024
      && chunk.Holds(TheMode(), absorbed[1024 * n..])
      && StackOk(absorbed, n)
      && (if |absorbed| > 1024 * n then Merged(TheMode(), absorbed, n, stack) else n == 0 || |stack| >= 2)
    }

    /** hasher_init_base */
    constructor (p: Primitive, k: Words8, flags: Flags, s: Simd)
      requires s.Ok()
      ensures Valid() && absorbed == [] && TheMode() == Mode(p, k, flags)
      ensures fresh(chunk) && fresh(chunk.cv) && fresh(chunk.buf) && fresh(cvStack)
    {
      hide BlockFold, Pad, LeadingBlocks, Frontier, PerfectCv, Merged;
      simd := s;
      key := k;
      chunk := new ChunkState(p, k, flags);
      cvStackLen := 0;
      cvStack := new Byte[1760];
      absorbed, stack, q, u := [], [], 0, 1;
    }

    /** One round of hasher_merge_cv_stack: the top two entries become their parent. */
    method MergeTop(ghost all: seq<Byte>, ghost n: nat)
      requires Fields() && StackOk(all, n) && n > 0 && q % 2 == 1
      modifies this`cvStackLen, this`stack, this`q, this`u, cvStack
      ensures StackOk(all, n) && cvStackLen == old(cvStackLen) - 1
    {
      hide Frontier, PerfectCv, ChainingValue, Flat, Pair, Lazy;
      ghost var m, k, before := TheMode(), |stack| - 2, cvStack[..];
      OddMerges(m, all, stack, q, u);
      FlatPair(stack, k);
      assert cvStack[32 * k..32 * k + 64] == cvStack[..32 * cvStackLen][32 * k..32 * k + 64];
      var parentNode := cvStack[(cvStackLen - 2) * 32..cvStackLen * 32];
      var output := ParentOutput(Mode(chunk.prim, key, chunk.flags), parentNode);
      var cv := ChainingValue(chunk.prim, output);
      CopyInto(cvStack, (cvStackLen - 2) * 32, cv);
      FlatMerge(before, cvStack[..], stack, k, cv);
      cvStackLen := cvStackLen - 1;
      stack := stack[..k] + [cv];
      q, u := q / 2, 2 * u;
    }

    /** hasher_merge_cv_stack: only joins equal neighbours, and leaves the binary expansion. */
    method MergeCvStack(ghost all: seq<Byte>, totalLen: nat)
      requires Fields() && StackOk(all, totalLen) && totalLen < TWO_64
      modifies this`cvStackLen, this`stack, this`q, this`u, cvStack
      ensures StackOk(all, totalLen) && Merged(TheMode(), all, totalLen, stack)
      ensures |stack| == PopCount(totalLen)
    {
      hide StackHolds, Merged, PopCount;
      var postMergeStackLen := PopCnt(totalLen);
      while cvStackLen > postMergeStackLen
        invariant StackOk(all, totalLen)
        decreases cvStackLen
      {
        StackState(TheMode(), all, totalLen, stack, q, u);
        MergeTop(all, totalLen);
      }
      StackState(TheMode(), all, totalLen, stack, q, u);
    }

    /** hasher_push_cv: merge what is complete, then put the new value, unmerged, on top. */
    method PushCv(ghost all: seq<Byte>, newCv: Cv, chunkCounter: nat, ghost h: nat)
      requires Fields() && StackOk(all, chunkCounter) && IsPow2(h) && chunkCounter % h == 0
      requires 1024 * (chunkCounter + h) <= |all| < TWO_64
      requires newCv == PerfectCv(TheMode(), all, chunkCounter, h)
      modifies this`cvStackLen, this`stack, this`q, this`u, cvStack
      ensures StackOk(all, chunkCounter + h) && |stack| > PopCount(chunkCounter)
    {
      hide PerfectCv, Merged, Lazy, PopCount;
      MergeCvStack(all, chunkCounter);
      PushIsLazy(TheMode(), all, stack, chunkCounter, h);
      StackBound(TheMode(), all, stack + [newCv], chunkCounter / h, h);
      FlatSingle(newCv);
      FlatConcat(stack, [newCv]);
      CopyInto(cvStack, cvStackLen * 32, newCv);
      cvStackLen := cvStackLen + 1;
      stack, q, u := stack + [newCv], chunkCounter / h, h;
    }

    /** Between two subtrees: the chunk is empty and everything absorbed is on the stack. */
    ghost predicate Boundary(all: seq<Byte>)
      reads this, chunk, chunk.cv, chunk.buf, cvStack
    {
      && Fields() && 1024 * chunk.chunkCounter <= |all| < TWO_64
      && chunk.Holds(TheMode(), []) && StackOk(all, chunk.chunkCounter)
    }

    /** The full chunk goes onto the stack, and the chunk state starts over. */
    method FlushChunk(ghost all: seq<Byte>)
      requires Fields() && StackOk(all, chunk.chunkCounter)
      requires 1024 * (chunk.chunkCounter + 1) <= |all| < TWO_64
      requires chunk.Holds(TheMode(), all[1024 * chunk.chunkCounter..1024 * (chunk.chunkCounter + 1)])
      modifies this`cvStackLen, this`stack, this`q, this`u, cvStack, chunk, chunk.cv, chunk.buf
      ensures Boundary(all) && chunk.chunkCounter == old(chunk.chunkCounter) + 1
    {
      hide PerfectCv, ChunkOutput, ChainingValue, PopCount;
      ghost var n := chunk.chunkCounter;
      var output := chunk.GetOutput(TheMode(), all[1024 * n..1024 * (n + 1)]);
      var chunkCv := ChainingValue(chunk.prim, output);
      PerfectChunk(TheMode(), all, n);
      PushCv(all, chunkCv, chunk.chunkCounter, 1);
      chunk.Reset(key, chunk.chunkCounter + 1);
    }

    /** The largest power of two number of bytes that fits the input and divides the count so far. */
    method SubtreeLen(inputLen: nat) returns (subtreeLen: nat, ghost h: nat)
      requires 1024 < inputLen < TWO_64
      ensures IsPow2(h) && subtreeLen == 1024 * h <= inputLen && chunk.chunkCounter % h == 0
      ensures IsPow2(subtreeLen) && NoneLarger(chunk.chunkCounter * 1024, inputLen, subtreeLen)
    {
      hide IsPow2, FloorPow2, NoneLarger;
      subtreeLen := RoundDownToPowerOf2(inputLen);
      var countSoFar := chunk.chunkCounter * 1024;
      h := FloorPow2(inputLen / 1024);
      Pow2Scale(h);
      FloorPow2Unique(inputLen, 1024 * h);
      AndMaskIsMod(subtreeLen, countSoFar);
      FloorIsLargest(countSoFar, inputLen);
      while And(subtreeLen - 1, countSoFar) != 0
        invariant IsPow2(h) && h > 0 && subtreeLen == 1024 * h <= inputLen
        invariant And(subtreeLen - 1, countSoFar) == countSoFar % (1024 * h)
        invariant IsPow2(subtreeLen) && NoneLarger(countSoFar, inputLen, subtreeLen)
        decreases subtreeLen
      {
        HalfIsLargest(countSoFar, inputLen, subtreeLen);
        Pow2Half(h, chunk.chunkCounter);
        subtreeLen := subtreeLen / 2;
        h := h / 2;
        Pow2Scale(h);
        AndMaskIsMod(subtreeLen, countSoFar);
      }
      ScaledDivides(chunk.chunkCounter, h);
    }

    /** A single chunk is pushed as one value, a larger subtree as a pair. */
    method PushSubtree(ghost all: seq<Byte>, subtree: seq<Byte>, ghost h: nat)
      requires Boundary(all) && IsPow2(h) && |subtree| == 1024 * h && chunk.chunkCounter % h == 0
      requires 1024 * (chunk.chunkCounter + h) <= |all|
      requires subtree == all[1024 * chunk.chunkCounter..1024 * (chunk.chunkCounter + h)]
      modifies this`cvStackLen, this`stack, this`q, this`u, cvStack
      ensures StackOk(all, chunk.chunkCounter + h) && (h == 1 || |stack| >= 2)
    {
      hide PerfectCv, ChunkOutput, ChainingValue, SubtreeChildren, StackHolds;
      var m := Mode(chunk.prim, key, chunk.flags);
      if |subtree| <= 1024 {
        var cv := HashChunk(m, subtree, chunk.chunkCounter);
        PerfectChunk(m, all, chunk.chunkCounter);
        PushCv(all, cv, chunk.chunkCounter, 1);
      } else {
        PerfectChildren(m, all, chunk.chunkCounter, h);
        var cvPair := CompressSubtreeToParentNode(m, simd, subtree, chunk.chunkCounter);
        PushPair(all, cvPair, |subtree| / 1024);
      }
    }

    /** One round of the loop of blake3_hasher_update: hash the largest subtree that fits. */
    method AbsorbSubtree(ghost all: seq<Byte>, input: seq<Byte>) returns (subtreeLen: nat)
      requires Boundary(all) && all[1024 * chunk.chunkCounter..] == input && |input| > 1024
      modifies this`cvStackLen, this`stack, this`q, this`u, cvStack, chunk`chunkCounter
      ensures Boundary(all) && 0 < subtreeLen <= |input|
      ensures all[1024 * chunk.chunkCounter..] == input[subtreeLen..]
      ensures subtreeLen < |input| || |stack| >= 2
    {
      hide StackHolds, NoneLarger;
      ghost var n, h := chunk.chunkCounter, 0;
      subtreeLen, h := SubtreeLen(|input|);
      var subtreeChunks := subtreeLen / 1024;
      CutChunks(all, input, n, h);
      PushSubtree(all, input[..subtreeLen], h);
      chunk.chunkCounter := chunk.chunkCounter + subtreeChunks;
    }

    /** Both children of a subtree of h chunks, one after the other. */
    method PushPair(ghost all: seq<Byte>, cvPair: Block, h: nat)
      requires Fields() && StackOk(all, chunk.chunkCounter) && IsPow2(h) && h > 1 && chunk.chunkCounter % h == 0
      requires 1024 * (chunk.chunkCounter + h) <= |all| < TWO_64
      requires cvPair == Pair(PerfectCv(TheMode(), all, chunk.chunkCounter, h / 2),
                              PerfectCv(TheMode(), all, chunk.chunkCounter + h / 2, h / 2))
      modifies this`cvStackLen, this`stack, this`q, this`u, cvStack
      ensures StackOk(all, chunk.chunkCounter + h) && |stack| >= 2
    {
      hide PerfectCv, StackHolds;
      ghost var n, g := chunk.chunkCounter, h / 2;
      HalfDivides(n, g);
      PushCv(all, cvPair[..32], chunk.chunkCounter, g);
      PushCv(all, cvPair[32..], chunk.chunkCounter + h / 2, g);
      PopCountPos(n + g);
    }

    /** First part of blake3_hasher_update: complete the chunk that is already begun. */
    method FinishChunk(ghost all: seq<Byte>, data: seq<Byte>) returns (input: seq<Byte>)
      requires Valid() && |data| > 0 && all == absorbed + data && |all| < TWO_64
      requires StackOk(all, chunk.chunkCounter)
      modifies this`cvStackLen, this`stack, this`q, this`u, cvStack, chunk, chunk.cv, chunk.buf
      ensures |input| > 0 ==> Boundary(all) && all[1024 * chunk.chunkCounter..] == input
      ensures |input| == 0 ==>
        && Fields() && unchanged(this) && unchanged(cvStack) && chunk.chunkCounter == old(chunk.chunkCounter)
        && 1024 * chunk.chunkCounter < |absorbed| <= |all| <= 1024 * chunk.chunkCounter + 1024
        && chunk.Holds(TheMode(), all[1024 * chunk.chunkCounter..])
    {
      hide StackHolds, Merged;
      input := data;
      ghost var n := chunk.chunkCounter;
      if chunk.Len() > 0 {
        var take := 1024 - chunk.Len();
        if take > |input| {
          take := |input|;
        }
        SplitAt(absorbed, data, all, 1024 * n, take);
        chunk.Update(TheMode(), absorbed[1024 * n..], input[..take]);
        input := input[take..];
        if |input| > 0 {
          FlushChunk(all);
        } else {
          assert all[1024 * n..] == all[1024 * n..1024 * n + chunk.Len()];
        }
      }
    }

    /** blake3_hasher_update */
    method Update(data: seq<Byte>)
      requires Valid() && |absorbed| + |data| < TWO_64
      modifies this, cvStack, chunk, chunk.cv, chunk.buf
      ensures Valid() && absorbed == old(absorbed) + data
    {
      hide StackHolds, Merged;
      ghost var all := absorbed + data;
      if |data| == 0 {
        assert all == absorbed;
        return;
      }
      StackPrefix(TheMode(), absorbed, data, chunk.chunkCounter, stack, q, u);
      var input := FinishChunk(all, data);
      if |input| == 0 {
        absorbed := all;
        return;
      }
      AbsorbRest(all, input);
      absorbed := all;
    }

    /** The loop of blake3_hasher_update and what follows it. */
    method AbsorbRest(ghost all: seq<Byte>, data: seq<Byte>)
      requires Boundary(all) && |data| > 0 && all[1024 * chunk.chunkCounter..] == data
      modifies this`cvStackLen, this`stack, this`q, this`u, cvStack, chunk, chunk.cv, chunk.buf
      ensures Fields() && StackOk(all, chunk.chunkCounter)
      ensures 1024 * chunk.chunkCounter <= |all| <= 1024 * chunk.chunkCounter + 1024
      ensures chunk.Holds(TheMode(), all[1024 * chunk.chunkCounter..])
      ensures if |all| > 1024 * chunk.chunkCounter then Merged(TheMode(), all, chunk.chunkCounter, stack)
              else |stack| >= 2
    {
      hide StackHolds, Merged;
      var input := data;
      while |input| > 1024
        invariant Boundary(all) && all[1024 * chunk.chunkCounter..] == input
        invariant |input| > 0 || |stack| >= 2
      {
        var subtreeLen := AbsorbSubtree(all, input);
        input := input[subtreeLen..];
      }
      if |input| > 0 {
        chunk.Update(TheMode(), [], input);
        assert [] + input == input;
        MergeCvStack(all, chunk.chunkCounter);
      }
    }

    /** blake3_hasher_finalize_seek: any part of the extendable output; the hasher stays as it is. */
    method FinalizeSeek(seek: nat, out: array<Byte>)
      requires Valid() && out != cvStack && out != chunk.buf
      modifies out
      ensures out[..] == Hash(TheMode(), absorbed, seek, out.Length)
    {
      if out.Length == 0 {
        return;
      }
      var output := RootOutput();
      OutputRootBytes(chunk.prim, output, seek, out);
    }

    /** Where the rolling-up starts: at the chunk that is begun, or at the top two entries. */
    method FirstTail() returns (output: Output, cvsRemaining: nat, ghost p: nat, ghost v: nat)
      requires Valid() && cvStackLen > 0
      ensures cvsRemaining <= |stack| && 1024 * (p * v) <= |absorbed|
      ensures Tail(TheMode(), absorbed, p, v, output) && Frontier(TheMode(), absorbed, p, v) == stack[..cvsRemaining]
    {
      hide Subtree, SubtreeCv, PerfectCv, Frontier, Flat;
      ghost var m, n := TheMode(), chunk.chunkCounter;
      if chunk.Len() > 0 {
        cvsRemaining := cvStackLen;
        output := chunk.GetOutput(m, absorbed[1024 * n..]);
        p, v := n, 1;
        ChunkIsTail(m, absorbed, n);
      } else {
        cvsRemaining := cvStackLen - 2;
        FlatPair(stack, cvsRemaining);
        assert cvStack[..32 * cvStackLen][32 * cvsRemaining..] == cvStack[cvsRemaining * 32..cvStackLen * 32];
        output := ParentOutput(Mode(chunk.prim, key, chunk.flags), cvStack[cvsRemaining * 32..cvsRemaining * 32 + 64]);
        p, v := TopTwo(m, absorbed, stack, q, u);
      }
    }

    /** The node finalize works on: the root of the tree over everything absorbed. */
    method RootOutput() returns (output: Output)
      requires Valid()
      ensures output == Subtree(TheMode(), absorbed, 0)
    {
      hide Subtree, SubtreeCv, PerfectCv, Frontier, Flat;
      ghost var m, n := TheMode(), chunk.chunkCounter;
      if cvStackLen == 0 {
        output := chunk.GetOutput(m, absorbed[1024 * n..]);
        EmptyStack(m, absorbed, n, stack, q, u);
        return;
      }
      var cvsRemaining;
      ghost var p, v;
      output, cvsRemaining, p, v := FirstTail();
      while cvsRemaining > 0
        invariant 0 <= cvsRemaining <= |stack|
        invariant Tail(m, absorbed, p, v, output) && Frontier(m, absorbed, p, v) == stack[..cvsRemaining]
      {
        cvsRemaining := cvsRemaining - 1;
        FlatEntry(cvStack[..], stack, cvsRemaining);
        var cv := ChainingValue(chunk.prim, output);
        TailCv(m, absorbed, p, v, output);
        p, v := RollUp(m, absorbed, p, v, cv);
        output := ParentOutput(Mode(chunk.prim, key, chunk.flags), cvStack[cvsRemaining * 32..cvsRemaining * 32 + 32] + cv);
      }
      TailIsRoot(m, absorbed, p, v, output);
    }

    /** blake3_hasher_reset */
    method Reset()
      requires Valid()
      modifies this, chunk, chunk.cv, chunk.buf
      ensures Valid() && absorbed == []
    {
      chunk.Reset(key, 0);
      cvStackLen := 0;
      absorbed, stack := [], [];
    }
  }

  /** No larger power of two fits the input and divides the count. */
  ghost predicate NoneLarger(count: nat, inputLen: nat, s: nat) {
    forall w: nat :: IsPow2(w) && s < w <= inputLen ==> count % w != 0
  }

  lemma FloorIsLargest(count: nat, inputLen: nat)
    requires inputLen > 0
    ensures NoneLarger(count, inputLen, FloorPow2(inputLen))
  {
    hide IsPow2, FloorPow2;
    forall w: nat | IsPow2(w)
      ensures !(FloorPow2(inputLen) < w <= inputLen)
    {
      if FloorPow2(inputLen) < w { Pow2Gap(FloorPow2(inputLen), w); }
    }
  }

  lemma HalfIsLargest(count: nat, inputLen: nat, s: nat)
    requires IsPow2(s) && s > 1 && NoneLarger(count, inputLen, s) && count % s != 0
    ensures NoneLarger(count, inputLen, s / 2)
  {
    hide IsPow2;
    forall w: nat | IsPow2(w)
      ensures !(s / 2 < w < s)
    {
      if w < s { Pow2Gap(w, s); }
    }
  }

  lemma CutChunks(all: seq<Byte>, input: seq<Byte>, n: nat, h: nat)
    requires 1024 * n <= |all| && all[1024 * n..] == input && 1024 * h <= |input|
    ensures all[1024 * n..1024 * (n + h)] == input[..1024 * h] && all[1024 * (n + h)..] == input[1024 * h..]
  {}

  lemma SplitAt(a: seq<Byte>, b: seq<Byte>, all: seq<Byte>, from: nat, take: nat)
    requires all == a + b && from <= |a| && take <= |b|
    ensures all[from..|a| + take] == a[from..] + b[..take]
    ensures all[|a| + take..] == b[take..]
  {}

  /** blake3_hasher_init_keyed */
  method InitKeyed(p: Primitive, key: Cv, s: Simd) returns (hasher: Hasher)
    requires s.Ok()
    ensures fresh(hasher) && hasher.Valid() && hasher.absorbed == []
    ensures hasher.TheMode() == Mode(p, LoadWords(key), KEYED_HASH)
  {
    hasher := new Hasher(p, LoadWords(key), KEYED_HASH, s);
  }

  /** blake3_hasher_init_derive_key_raw: the key is the hash of the context string. */
  method InitDeriveKey(p: Primitive, context: seq<Byte>, s: Simd) returns (hasher: Hasher)
    requires s.Ok() && |context| < TWO_64
    ensures fresh(hasher) && hasher.Valid() && hasher.absorbed == []
    ensures hasher.TheMode()
         == Mode(p, LoadWords(Hash(Mode(p, IV, DERIVE_KEY_CONTEXT), context, 0, 32)), DERIVE_KEY_MATERIAL)
  {
    var contextHasher := new Hasher(p, IV, DERIVE_KEY_CONTEXT, s);
    contextHasher.Update(context);
    assert [] + context == context;
    var contextKey := new Byte[32];
    contextHasher.FinalizeSeek(0, contextKey);
    hasher := new Hasher(p, LoadWords(contextKey[..]), DERIVE_KEY_MATERIAL, s);
  }

  function Concat(pieces: seq<seq<Byte>>): seq<Byte> {
    if pieces == [] then [] else Concat(pieces[..|pieces| - 1]) + pieces[|pieces| - 1]
  }

  lemma {:induction false} ConcatPrefix(pieces: seq<seq<Byte>>, k: nat)
    requires k <= |pieces|
    ensures |Concat(pieces[..k])| <= |Concat(pieces)|
  {
    if k < |pieces| {
      var front := pieces[..|pieces| - 1];
      ConcatPrefix(front, k);
      assert front[..k] == pieces[..k];
    } else {
      assert pieces[..k] == pieces;
    }
  }

  /** Whatever way a message is cut into update calls, reading the output gives the hash of
      the whole message, for every mode and SIMD degree, and can be repeated. */
  method HashPieces(p: Primitive, key: Words8, flags: Flags, s: Simd, pieces: seq<seq<Byte>>,
                    seek: nat, out: array<Byte>, seek2: nat, out2: array<Byte>)
    requires s.Ok() && |Concat(pieces)| < TWO_64 && out != out2
    modifies out, out2
    ensures out[..] == Hash(Mode(p, key, flags), Concat(pieces), seek, out.Length)
    ensures out2[..] == Hash(Mode(p, key, flags), Concat(pieces), seek2, out2.Length)
  {
    var hasher := new Hasher(p, key, flags, s);
    var i := 0;
    while i < |pieces|
      invariant 0 <= i <= |pieces|
      invariant fresh(hasher) && fresh(hasher.cvStack) && fresh(hasher.chunk) && fresh(hasher.chunk.cv) && fresh(hasher.chunk.buf)
      invariant hasher.Valid() && hasher.TheMode() == Mode(p, key, flags) && hasher.absorbed == Concat(pieces[..i])
    {
      ConcatPrefix(pieces, i + 1);
      assert pieces[..i + 1][..i] == pieces[..i];
      hasher.Update(pieces[i]);
      i := i + 1;
    }
    assert pieces[..i] == pieces;
    hasher.FinalizeSeek(seek, out);
    hasher.FinalizeSeek(seek2, out2);
  }

  /** What a caller may do with a hasher, in any order. */
  datatype Command = Absorb(input: seq<Byte>) | Read(seek: nat, length: nat) | Restart

  /** What has been absorbed since the last reset. */
  function SinceReset(script: seq<Command>): seq<Byte> {
    if script == [] then []
    else
      match script[|script| - 1]
      case Absorb(input) => SinceReset(script[..|script| - 1]) + input
      case Read(_, _) => SinceReset(script[..|script| - 1])
      case Restart => []
  }

  /** The outputs read are hashes of that. */
  function Readings(m: Mode, script: seq<Command>): seq<seq<Byte>> {
    if script == [] then []
    else
      Readings(m, script[..|script| - 1])
      + match script[|script| - 1]
        case Read(seek, length) => [Hash(m, SinceReset(script[..|script| - 1]), seek, length)]
        case _ => []
  }

  /** One hasher serves any sequence of updates, reads and resets. */
  method RunScript(p: Primitive, key: Words8, flags: Flags, s: Simd, script: seq<Command>) returns (readings: seq<seq<Byte>>)
    requires s.Ok() && forall k :: 0 <= k <= |script| ==> |SinceReset(script[..k])| < TWO_64
    ensures readings == Readings(Mode(p, key, flags), script)
  {
    hide Hash;
    var hasher := new Hasher(p, key, flags, s);
    readings := [];
    for i := 0 to |script|
      invariant fresh(hasher) && fresh(hasher.cvStack) && fresh(hasher.chunk) && fresh(hasher.chunk.cv) && fresh(hasher.chunk.buf)
      invariant hasher.Valid() && hasher.TheMode() == Mode(p, key, flags) && hasher.absorbed == SinceReset(script[..i])
      invariant readings == Readings(Mode(p, key, flags), script[..i])
    {
      assert script[..i + 1][..i] == script[..i];
      match script[i] {
        case Absorb(input) =>
          assert |SinceReset(script[..i + 1])| < TWO_64;
          hasher.Update(input);
        case Read(seek, length) =>
          var out := new Byte[length];
          hasher.FinalizeSeek(seek, out);
          readings := readings + [out[..]];
        case Restart =>
          hasher.Reset();
      }
    }
    assert script[..|script|] == script;
  }

  lemma Pow2Half(h: nat, c: nat)
    requires IsPow2(h) && (c * 1024) % (1024 * h) != 0
    ensures h > 1 && h % 2 == 0 && IsPow2(h / 2) && h / 2 > 0
  {
    if h == 1 {
      MulMod(c, 1024);
    }
  }

  lemma HalfDivides(n: nat, g: nat)
    requires g > 0 && n % (2 * g) == 0
    ensures n % g == 0 && (n + g) % g == 0
  {
    var k := n / (2 * g);
    DivMod(n, 2 * g);
    assert n == (2 * k) * g;
    MulMod(2 * k, g);
    assert n + g == (2 * k + 1) * g;
    MulMod(2 * k + 1, g);
  }
}
