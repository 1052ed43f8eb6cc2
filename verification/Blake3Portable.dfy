/** The portable hash_many back end: several equal-sized inputs, each folded block by block. */
module Blake3Portable {
  import opened Bits
  import opened Bytes
  import opened Blake3Spec
  import opened Blake3Tree
  import opened Blake3Chunk

  /** What a hash_many call fixes for all of its inputs. */
  datatype Batch = Batch(prim: Primitive, key: Words8, blocks: nat, flags: Flags, start: Flags, end: Flags)

  function BlockFlags(job: Batch, i: nat): Flags {
    var f := if i == 0 then Or(job.flags, job.start) else job.flags;
    if i + 1 == job.blocks then Or(f, job.end) else f
  }

  /** The chaining words after the first k blocks of one input. */
  function FoldOne(job: Batch, input: seq<Byte>, counter: nat, k: nat): Words8
    requires 64 * k <= |input|
    decreases k
  {
    if k == 0 then job.key
    else Compress(job.prim, FoldOne(job, input, counter, k - 1), input[64 * (k - 1)..64 * k], 64, counter,
                           BlockFlags(job, k - 1))
  }

  function HashedOne(job: Batch, input: seq<Byte>, counter: nat): Cv
    requires |input| == 64 * job.blocks
  {
    StoreWords(FoldOne(job, input, counter, job.blocks))
  }

  method CopyWords(words: Words8) returns (cv: array<Word>)
    ensures fresh(cv) && cv.Length == 8 && cv[..] == words
  {
    cv := new Word[8](i requires 0 <= i < 8 => words[i]);
    assert cv[..] == words;
  }

  /** The block loop of hash_one_portable. */
  method FoldBlocks(job: Batch, input: seq<Byte>, counter: nat) returns (cv: array<Word>)
    requires |input| == 64 * job.blocks
    ensures fresh(cv) && cv[..] == FoldOne(job, input, counter, job.blocks)
  {
    cv := CopyWords(job.key);
    var position, blocks := 0, job.blocks;
    ghost var done: nat := 0;
    var blockFlags := Or(job.flags, job.start);
    while blocks > 0
      invariant 0 <= blocks && done + blocks == job.blocks && position == 64 * done
      invariant blocks > 0 ==> blockFlags == if done == 0 then Or(job.flags, job.start) else job.flags
      invariant cv.Length == 8 && fresh(cv) && cv[..] == FoldOne(job, input, counter, done)
    {
      if blocks == 1 {
        blockFlags := Or(blockFlags, job.end);
      }
      CompressInPlace(job.prim, cv, input[position..position + 64], 64, counter, blockFlags);
      position := position + 64;
      blocks := blocks - 1;
      done := done + 1;
      blockFlags := job.flags;
    }
  }

  /** hash_one_portable */
  method HashOne(job: Batch, input: seq<Byte>, counter: nat, out: array<Byte>, off: nat)
    requires |input| == 64 * job.blocks && off + 32 <= out.Length
    modifies out
    ensures out[..] == old(out[..off]) + HashedOne(job, input, counter) + old(out[off + 32..])
  {
    var cv := FoldBlocks(job, input, counter);
    CopyInto(out, off, StoreWords(cv[..]));
  }

  /** The results of a batch, one chaining value per input. */
  function HashedMany(job: Batch, inputs: seq<seq<Byte>>, counter: nat, increment: bool): (r: seq<Cv>)
    requires forall i :: 0 <= i < |inputs| ==> |inputs[i]| == 64 * job.blocks
    ensures |r| == |inputs|
  {
    seq<Cv>(|inputs|, i requires 0 <= i < |inputs| =>
      HashedOne(job, inputs[i], if increment then counter + i else counter))
  }

  /** blake3_hash_many_portable: writes the results one after another from `off` on. */
  method HashMany(job: Batch, inputs: array<seq<Byte>>, num: nat, counter: nat, increment: bool,
                  out: array<Byte>, off: nat)
    requires num <= inputs.Length && off + 32 * num <= out.Length
    requires forall i :: 0 <= i < num ==> |inputs[i]| == 64 * job.blocks
    modifies out
    ensures Wrote(old(out[..]), out[..], off, old(HashedMany(job, inputs[..num], counter, increment)))
  {
    hide Wrote, HashedOne;
    var i, c, at := 0, counter, off;
    ghost var before, all := out[..], HashedMany(job, inputs[..num], counter, increment);
    WroteNone(before, off);
    assert all[..0] == [];
    while i < num
      invariant i <= num && at == off + 32 * i && c == if increment then counter + i else counter
      invariant Wrote(before, out[..], off, all[..i])
    {
      ghost var was := out[..];
      HashOne(job, inputs[i], c, out, at);
      WroteOne(was, out[..], at, all[i]);
      WroteMore(before, was, out[..], off, all[..i], [all[i]]);
      assert all[..i + 1] == all[..i] + [all[i]];
      if increment {
        c := c + 1;
      }
      i := i + 1;
      at := at + 32;
    }
    assert all[..num] == all;
  }

  function ChunkBatch(m: Mode): Batch {
    Batch(m.prim, m.key, 1024 / 64, m.flags, CHUNK_START, CHUNK_END)
  }

  function ParentBatch(m: Mode): Batch {
    Batch(m.prim, m.key, 1, Or(m.flags, PARENT), 0, 0)
  }

  lemma {:induction false} FoldOneIsBlockFold(m: Mode, input: seq<Byte>, counter: nat, k: nat)
    requires |input| == 1024 && k < 16
    ensures FoldOne(ChunkBatch(m), input, counter, k) == BlockFold(m, input, counter, k)
  {
    if k > 0 {
      FoldOneIsBlockFold(m, input, counter, k - 1);
    }
  }

  /** On a full chunk the fast path agrees with the buffered chunk state. */
  lemma FullChunk(m: Mode, input: seq<Byte>, counter: nat)
    requires |input| == 1024
    ensures HashedOne(ChunkBatch(m), input, counter) == ChainingValue(m.prim, ChunkOutput(m, input, counter))
  {
    FoldOneIsBlockFold(m, input, counter, 15);
    assert Pad(input[960..]) == input[960..1024];
  }

  lemma ParentBlock(m: Mode, block: Block)
    ensures HashedOne(ParentBatch(m), block, 0) == ChainingValue(m.prim, ParentOutput(m, block))
  {
    assert block[0..64] == block;
    assert FoldOne(ParentBatch(m), block, 0, 0) == m.key;
  }
}
