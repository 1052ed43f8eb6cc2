/** The buffered chunk state: one chunk absorbed piece by piece, its last block always held back. */
module Blake3Chunk {
  import opened Bits
  import opened Bytes
  import opened Blake3Spec

  /** blake3_compress_in_place: the chaining words are overwritten. */
  method CompressInPlace(p: Primitive, cv: array<Word>, block: Block, blockLen: nat, counter: nat, flags: Flags)
    requires cv.Length == 8
    modifies cv
    ensures cv[..] == Compress(p, old(cv[..]), block, blockLen, counter, flags)
  {
    var words := Compress(p, cv[..], block, blockLen, counter, flags);
    forall i | 0 <= i < 8 {
      cv[i] := words[i];
    }
  }

  lemma SplitSlice(all: seq<Byte>, k: nat, mid: nat, take: nat)
    requires k <= mid && mid + take <= |all|
    ensures all[k..mid + take] == all[k..mid] + all[mid..][..take]
    ensures all[mid + take..] == all[mid..][take..]
  {}

  class ChunkState {
    const prim: Primitive
    const cv: array<Word>
    var chunkCounter: nat
    const buf: array<Byte>
    var bufLen: nat
    var blocksCompressed: nat
    const flags: Flags

    /** chunk_state_init */
    constructor (p: Primitive, key: Words8, f: Flags)
      ensures Fields(Mode(p, key, f)) && Holds(Mode(p, key, f), [])
      ensures chunkCounter == 0 && fresh(cv) && fresh(buf)
    {
      prim := p;
      cv := new Word[8](i requires 0 <= i < 8 => key[i]);
      chunkCounter := 0;
      buf := new Byte[64](_ => 0);
      bufLen := 0;
      blocksCompressed := 0;
      flags := f;
      new;
      assert cv[..] == key;
      assert buf[..] == Pad([]);
    }

    ghost predicate Fields(m: Mode) {
      cv.Length == 8 && buf.Length == 64 && prim == m.prim && flags == m.flags
    }

    /** chunk_state_len */
    function Len(): nat
      reads this
    {
      64 * blocksCompressed + bufLen
    }

    /** k blocks of `all` are compressed and the following bufLen bytes are buffered. */
    ghost predicate Absorbed(m: Mode, all: seq<Byte>)
      reads this, cv, buf
      requires Fields(m)
    {
      bufLen <= 64 && Len() <= |all| &&
      cv[..] == BlockFold(m, all, chunkCounter, blocksCompressed) &&
      buf[..] == Pad(all[64 * blocksCompressed..Len()])
    }

    /** The state after absorbing exactly `content`: all but its last block are compressed. */
    ghost predicate Holds(m: Mode, content: seq<Byte>)
      reads this, cv, buf
      requires Fields(m)
    {
      Absorbed(m, content) && Len() == |content| && blocksCompressed == LeadingBlocks(|content|)
    }

    /** The compressed part and the buffered part do not depend on what follows. */
    lemma Extend(m: Mode, all: seq<Byte>, more: seq<Byte>)
      requires Fields(m) && Absorbed(m, all)
      ensures Absorbed(m, all + more)
    {
      var k := 64 * blocksCompressed;
      assert (all + more)[..k] == all[..k];
      assert (all + more)[k..Len()] == all[k..Len()];
      BlockFoldPrefix(m, all, all + more, chunkCounter, blocksCompressed);
    }

    /** chunk_state_reset */
    method Reset(key: Words8, counter: nat)
      requires Fields(Mode(prim, key, flags))
      modifies this, cv, buf
      ensures Holds(Mode(prim, key, flags), []) && chunkCounter == counter
    {
      forall i | 0 <= i < 8 {
        cv[i] := key[i];
      }
      chunkCounter := counter;
      blocksCompressed := 0;
      forall i | 0 <= i < 64 {
        buf[i] := 0;
      }
      bufLen := 0;
      assert cv[..] == key;
      assert buf[..] == Pad([]);
    }

    /** A fresh chunk state gets the number of the chunk it will hold. */
    method SetCounter(ghost m: Mode, counter: nat)
      requires Fields(m) && Holds(m, [])
      modifies this`chunkCounter
      ensures Holds(m, []) && chunkCounter == counter
    {
      chunkCounter := counter;
    }

    /** chunk_state_fill_buf: copy as much of the input as the buffer takes. */
    method FillBuf(ghost m: Mode, input: seq<Byte>, ghost all: seq<Byte>) returns (take: nat)
      requires Fields(m) && Absorbed(m, all) && all[Len()..] == input
      modifies this`bufLen, buf
      ensures take == if |input| < 64 - old(bufLen) then |input| else 64 - old(bufLen)
      ensures Absorbed(m, all) && bufLen == old(bufLen) + take && all[Len()..] == input[take..]
    {
      take := 64 - bufLen;
      if take > |input| {
        take := |input|;
      }
      SplitSlice(all, 64 * blocksCompressed, Len(), take);
      CopyInto(buf, bufLen, input[..take]);
      bufLen := bufLen + take;
    }

    /** Compress one full block that sits at the front of the unread bytes or in the buffer. */
    method CompressBlock(ghost m: Mode, block: Block, ghost all: seq<Byte>)
      requires Fields(m)
      requires 64 * (blocksCompressed + 1) <= |all|
      requires cv[..] == BlockFold(m, all, chunkCounter, blocksCompressed)
      requires block == all[64 * blocksCompressed..64 * (blocksCompressed + 1)]
      modifies this`blocksCompressed, cv
      ensures blocksCompressed == old(blocksCompressed) + 1
      ensures cv[..] == BlockFold(m, all, chunkCounter, blocksCompressed)
    {
      CompressInPlace(prim, cv, block, 64, chunkCounter, Or(flags, StartFlag(blocksCompressed)));
      blocksCompressed := blocksCompressed + 1;
    }

    /** First part of chunk_state_update: top the buffer up, and compress it when more follows. */
    method FinishBuffered(ghost m: Mode, data: seq<Byte>, ghost all: seq<Byte>) returns (input: seq<Byte>)
      requires Fields(m) && Absorbed(m, all) && all[Len()..] == data
      modifies this`bufLen, this`blocksCompressed, cv, buf
      ensures Absorbed(m, all) && all[Len()..] == input
      ensures |input| == 0 || bufLen == 0
      ensures |input| == 0 ==> bufLen == old(bufLen) + |data| && blocksCompressed == old(blocksCompressed)
    {
      input := data;
      if bufLen > 0 {
        var take := FillBuf(m, input, all);
        input := input[take..];
        if |input| > 0 {
          assert buf[..] == all[64 * blocksCompressed..Len()];
          CompressBlock(m, buf[..], all);
          bufLen := 0;
          forall i | 0 <= i < 64 {
            buf[i] := 0;
          }
          assert buf[..] == Pad(all[Len()..Len()]);
        }
      }
    }

    /** One round of the loop of chunk_state_update: a block straight from the input. */
    method AbsorbBlock(ghost m: Mode, input: seq<Byte>, ghost all: seq<Byte>)
      requires Fields(m) && Absorbed(m, all) && all[Len()..] == input && bufLen == 0 && |input| >= 64
      modifies this`blocksCompressed, cv
      ensures Absorbed(m, all) && all[Len()..] == input[64..]
      ensures blocksCompressed == old(blocksCompressed) + 1
    {
      assert all[Len()..Len() + 64] == input[..64];
      assert all[Len()..Len()] == [];
      CompressBlock(m, input[..64], all);
    }

    /** The loop of chunk_state_update: whole blocks, as long as more than one block is left. */
    method AbsorbBlocks(ghost m: Mode, data: seq<Byte>, ghost all: seq<Byte>) returns (input: seq<Byte>)
      requires Fields(m) && Absorbed(m, all) && all[Len()..] == data && (|data| > 0 ==> bufLen == 0)
      modifies this`blocksCompressed, cv
      ensures Absorbed(m, all) && all[Len()..] == input
      ensures if |data| == 0 then blocksCompressed == old(blocksCompressed) else 0 < |input| <= 64
    {
      input := data;
      while |input| > 64
        invariant Absorbed(m, all) && all[Len()..] == input
        invariant if |data| == 0 then blocksCompressed == old(blocksCompressed) else |input| > 0
      {
        AbsorbBlock(m, input, all);
        input := input[64..];
      }
    }

    /** chunk_state_update */
    method Update(ghost m: Mode, ghost content: seq<Byte>, data: seq<Byte>)
      requires Fields(m) && Holds(m, content)
      modifies this`bufLen, this`blocksCompressed, cv, buf
      ensures Holds(m, content + data)
    {
      ghost var all := content + data;
      Extend(m, content, data);
      var input := FinishBuffered(m, data, all);
      input := AbsorbBlocks(m, input, all);
      var take := FillBuf(m, input, all);
    }

    /** chunk_state_output */
    method GetOutput(ghost m: Mode, ghost content: seq<Byte>) returns (o: Output)
      requires Fields(m) && Holds(m, content)
      ensures o == ChunkOutput(m, content, chunkCounter)
    {
      var blockFlags := Or(Or(flags, StartFlag(blocksCompressed)), CHUNK_END);
      o := Output(cv[..], buf[..], bufLen, chunkCounter, blockFlags);
      assert content[64 * blocksCompressed..Len()] == content[64 * blocksCompressed..];
    }
  }

  /** A chunk hashed on its own, through a chunk state that lives only for it. */
  method HashChunk(m: Mode, b: seq<Byte>, counter: nat) returns (cv: Cv)
    ensures cv == ChainingValue(m.prim, ChunkOutput(m, b, counter))
  {
    var chunkState := new ChunkState(m.prim, m.key, m.flags);
    chunkState.SetCounter(m, counter);
    chunkState.Update(m, [], b);
    assert [] + b == b;
    var output := chunkState.GetOutput(m, b);
    cv := ChainingValue(m.prim, output);
  }
}
