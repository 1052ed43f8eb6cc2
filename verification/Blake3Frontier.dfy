/** The chaining value stack as a function of the input: one perfect subtree per 1-bit of
    the number of chunks, and the lazy state in which the last of them is not merged yet. */
module Blake3Frontier {
  import opened Arith
  import opened Bits
  import opened Bytes
  import opened Blake3Spec
  import opened Blake3Tree

  /** The chaining value of the perfect subtree of `count` chunks from chunk `first` on. */
  function PerfectCv(m: Mode, a: seq<Byte>, first: nat, count: nat): Cv
    requires 1024 * (first + count) <= |a|
  {
    SubtreeCv(m, a[1024 * first..1024 * (first + count)], first)
  }

  lemma HalfProduct(q: nat, u: nat)
    ensures q % 2 == 0 ==> (q / 2) * (2 * u) == q * u
    ensures q % 2 == 1 ==> (q / 2) * (2 * u) == (q - 1) * u == q * u - u
  {
    var h := q / 2;
    assert h * (2 * u) == (2 * h) * u;
  }

  /** The perfect subtrees of the binary expansion of q, largest first, in units of u chunks. */
  function Frontier(m: Mode, a: seq<Byte>, q: nat, u: nat): (cvs: seq<Cv>)
    requires 1024 * (q * u) <= |a|
    ensures |cvs| == PopCount(q)
    decreases q
  {
    if q == 0 then []
    else
      HalfProduct(q, u);
      if q % 2 == 1 then Frontier(m, a, q / 2, 2 * u) + [PerfectCv(m, a, (q - 1) * u, u)]
      else Frontier(m, a, q / 2, 2 * u)
  }

  /** The unit can be folded into the count. */
  lemma {:induction false} FrontierUnits(m: Mode, a: seq<Byte>, q: nat, u: nat)
    requires IsPow2(u) && 1024 * (q * u) <= |a|
    ensures Frontier(m, a, q, u) == Frontier(m, a, q * u, 1)
    decreases u
  {
    if u > 1 {
      var h := u / 2;
      assert (2 * q) * h == q * u;
      FrontierUnits(m, a, 2 * q, h);
      if q > 0 {
        HalfProduct(2 * q, h);
        assert (2 * q) / 2 == q && (2 * q) % 2 == 0;
      }
    }
  }

  lemma {:induction false} PopCountUnits(q: nat, u: nat)
    requires IsPow2(u)
    ensures PopCount(q * u) == PopCount(q)
    decreases u
  {
    if u > 1 {
      var h := u / 2;
      assert (2 * q) * h == q * u;
      PopCountUnits(2 * q, h);
      assert (2 * q) / 2 == q;
    }
  }

  lemma {:induction false} PopCountBound(x: nat, k: nat)
    requires x < Pow2(k)
    ensures PopCount(x) <= k
    decreases k
  {
    if k > 0 { PopCountBound(x / 2, k - 1); }
  }

  lemma {:induction false} PopCountSucc(q: nat)
    requires q % 2 == 1
    ensures PopCount(q + 1) <= PopCount(q)
  {
    assert (q + 1) / 2 == q / 2 + 1;
    if (q / 2) % 2 == 1 {
      PopCountSucc(q / 2);
    } else {
      assert (q / 2 + 1) / 2 == (q / 2) / 2;
    }
  }

  /** The frontier looks at no byte behind its chunks. */
  lemma {:induction false} FrontierPrefix(m: Mode, a: seq<Byte>, b: seq<Byte>, q: nat, u: nat)
    requires 1024 * (q * u) <= |a|
    ensures Frontier(m, a + b, q, u) == Frontier(m, a, q, u)
    decreases q
  {
    hide SubtreeCv;
    if q > 0 {
      HalfProduct(q, u);
      FrontierPrefix(m, a, b, q / 2, 2 * u);
      if q % 2 == 1 {
        PerfectPrefix(m, a, b, (q - 1) * u, u);
      }
    }
  }

  lemma PerfectPrefix(m: Mode, a: seq<Byte>, b: seq<Byte>, first: nat, count: nat)
    requires 1024 * (first + count) <= |a|
    ensures PerfectCv(m, a + b, first, count) == PerfectCv(m, a, first, count)
  {
    assert (a + b)[1024 * first..1024 * (first + count)] == a[1024 * first..1024 * (first + count)];
  }

  /** Two adjacent perfect subtrees of equal size join to the next larger one. */
  lemma PerfectJoin(m: Mode, a: seq<Byte>, first: nat, u: nat)
    requires IsPow2(u) && 1024 * (first + 2 * u) <= |a|
    ensures PerfectCv(m, a, first, 2 * u)
         == Join(m, PerfectCv(m, a, first, u), PerfectCv(m, a, first + u, u))
  {
    hide SubtreeCv;
    var both := a[1024 * first..1024 * (first + 2 * u)];
    LeftChunksAt(u, |both|);
    assert both[..1024 * u] == a[1024 * first..1024 * (first + u)];
    assert both[1024 * u..] == a[1024 * (first + u)..1024 * (first + 2 * u)];
    SubtreeJoinsChildren(m, both, first);
  }

  /** The lazy stack: q units are merged, the last unit lies on top as it was pushed. */
  ghost predicate Lazy(m: Mode, a: seq<Byte>, stack: seq<Cv>, q: nat, u: nat) {
    && IsPow2(u) && 1024 * (q * u + u) <= |a|
    && stack == Frontier(m, a, q, u) + [PerfectCv(m, a, q * u, u)]
  }

  /** The stack of a hasher that has `n` chunks behind it; with n > 0 it is lazy at some (q, u). */
  ghost predicate StackHolds(m: Mode, a: seq<Byte>, n: nat, stack: seq<Cv>, q: nat, u: nat) {
    if n == 0 then stack == [] else n == q * u + u && Lazy(m, a, stack, q, u)
  }

  /** Nothing is left to merge: the stack is the frontier of the n chunks. */
  ghost predicate Merged(m: Mode, a: seq<Byte>, n: nat, stack: seq<Cv>) {
    1024 * n <= |a| && stack == Frontier(m, a, n, 1)
  }

  lemma MulSucc(q: nat, u: nat)
    ensures (q + 1) * u == q * u + u
  {}

  /** With q even there is nothing to merge, and the length says so. */
  lemma EvenIsMerged(m: Mode, a: seq<Byte>, stack: seq<Cv>, q: nat, u: nat)
    requires Lazy(m, a, stack, q, u) && q % 2 == 0
    ensures Merged(m, a, q * u + u, stack) && |stack| == PopCount(q * u + u)
  {
    hide PerfectCv;
    MulSucc(q, u);
    HalfProduct(q, u);
    HalfProduct(q + 1, u);
    assert (q + 1) / 2 == q / 2;
    assert Frontier(m, a, q + 1, u) == stack;
    FrontierUnits(m, a, q + 1, u);
    PopCountUnits(q + 1, u);
  }

  /** With q odd the top two entries join, and the length says that there is something to join. */
  lemma OddMerges(m: Mode, a: seq<Byte>, stack: seq<Cv>, q: nat, u: nat)
    requires Lazy(m, a, stack, q, u) && q % 2 == 1
    ensures |stack| >= 2 && |stack| > PopCount(q * u + u)
    ensures var k := |stack| - 2;
            Lazy(m, a, stack[..k] + [Join(m, stack[k], stack[k + 1])], q / 2, 2 * u)
    ensures (q / 2) * (2 * u) + 2 * u == q * u + u
  {
    hide PerfectCv, Join, Frontier, IsPow2, PopCount;
    OddSplits(m, a, stack, q, u);
    var k := |stack| - 2;
    assert stack[..k] == Frontier(m, a, q / 2, 2 * u);
    assert (q - 1) * u + u == q * u;
    PerfectJoin(m, a, (q - 1) * u, u);
  }

  lemma OddSplits(m: Mode, a: seq<Byte>, stack: seq<Cv>, q: nat, u: nat)
    requires Lazy(m, a, stack, q, u) && q % 2 == 1
    ensures (q / 2) * (2 * u) == (q - 1) * u == q * u - u && |stack| > PopCount(q * u + u) && IsPow2(2 * u)
    ensures stack == Frontier(m, a, q / 2, 2 * u) + [PerfectCv(m, a, (q - 1) * u, u), PerfectCv(m, a, q * u, u)]
  {
    hide PerfectCv;
    MulSucc(q, u);
    PopCountUnits(q + 1, u);
    PopCountSucc(q);
    HalfProduct(q, u);
  }

  /** The stack is longer than the number of 1-bits exactly as long as something is to be merged. */
  lemma StackState(m: Mode, a: seq<Byte>, n: nat, stack: seq<Cv>, q: nat, u: nat)
    requires StackHolds(m, a, n, stack, q, u)
    ensures if n > 0 && q % 2 == 1 then |stack| > PopCount(n) else |stack| == PopCount(n) && Merged(m, a, n, stack)
  {
    if n > 0 {
      if q % 2 == 1 {
        OddSplits(m, a, stack, q, u);
      } else {
        EvenIsMerged(m, a, stack, q, u);
      }
    }
  }

  /** Pushing h chunks onto a merged stack, h a power of two that divides what is there. */
  lemma PushIsLazy(m: Mode, a: seq<Byte>, stack: seq<Cv>, n: nat, h: nat)
    requires IsPow2(h) && n % h == 0 && 1024 * (n + h) <= |a| && Merged(m, a, n, stack)
    ensures n == (n / h) * h && Lazy(m, a, stack + [PerfectCv(m, a, n, h)], n / h, h)
  {
    hide PerfectCv;
    DivMod(n, h);
    FrontierUnits(m, a, n / h, h);
  }

  /** The stack stands for the same chunks when more input follows. */
  lemma StackPrefix(m: Mode, a: seq<Byte>, b: seq<Byte>, n: nat, stack: seq<Cv>, q: nat, u: nat)
    requires StackHolds(m, a, n, stack, q, u)
    ensures StackHolds(m, a + b, n, stack, q, u)
    ensures Merged(m, a, n, stack) ==> Merged(m, a + b, n, stack)
  {
    hide Frontier, PerfectCv;
    if n > 0 {
      FrontierPrefix(m, a, b, q, u);
      PerfectPrefix(m, a, b, q * u, u);
    }
    if 1024 * n <= |a| {
      FrontierPrefix(m, a, b, n, 1);
    }
  }

  /** A lazy stack over fewer than 2^54 chunks has at most 55 entries. */
  lemma StackBound(m: Mode, a: seq<Byte>, stack: seq<Cv>, q: nat, u: nat)
    requires Lazy(m, a, stack, q, u) && |a| < TWO_64
    ensures |stack| <= 55
  {
    assert Pow2(54) * 1024 == TWO_64 by {
      SmallPowers();
      Pow2Add(54, 10);
      assert Pow2(10) == 4 * Pow2(8);
    }
    MulMono(1, u, q);
    PopCountBound(q, 54);
  }

  /** A buffered full chunk is the perfect subtree of one chunk. */
  lemma PerfectChunk(m: Mode, a: seq<Byte>, n: nat)
    requires 1024 * (n + 1) <= |a|
    ensures PerfectCv(m, a, n, 1) == ChainingValue(m.prim, ChunkOutput(m, a[1024 * n..1024 * (n + 1)], n))
  {
    ChunkSubtree(m, a[1024 * n..1024 * (n + 1)], n);
  }

  /** The two children of a perfect subtree of h > 1 chunks are its halves. */
  lemma PerfectChildren(m: Mode, a: seq<Byte>, n: nat, h: nat)
    requires IsPow2(h) && h > 1 && 1024 * (n + h) <= |a|
    ensures 1024 < |a[1024 * n..1024 * (n + h)]| && h % 2 == 0
    ensures SubtreeChildren(m, a[1024 * n..1024 * (n + h)], n)
         == (PerfectCv(m, a, n, h / 2), PerfectCv(m, a, n + h / 2, h / 2))
  {
    hide SubtreeCv, LeftChunks, IsPow2;
    var whole, g := a[1024 * n..1024 * (n + h)], h / 2;
    Pow2Halves(h);
    LeftChunksAt(g, |whole|);
    HalvesOf(a, n, g);
  }

  lemma Pow2Halves(h: nat)
    requires IsPow2(h) && h > 1
    ensures h == h / 2 + h / 2 && IsPow2(h / 2)
  {}

  lemma HalvesOf(a: seq<Byte>, n: nat, g: nat)
    requires 1024 * (n + g + g) <= |a|
    ensures var whole := a[1024 * n..1024 * (n + g + g)];
            whole[..1024 * g] == a[1024 * n..1024 * (n + g)] && whole[1024 * g..] == a[1024 * (n + g)..1024 * (n + g + g)]
  {}

  lemma Pow2Scale(h: nat)
    requires IsPow2(h)
    ensures IsPow2(1024 * h)
  {
    Pow2Times32(h);
    Pow2Times32(32 * h);
  }

  lemma Pow2Times32(h: nat)
    requires IsPow2(h)
    ensures IsPow2(32 * h)
  {
    hide IsPow2;
    Pow2Double(h);
    Pow2Double(2 * h);
    Pow2Double(4 * h);
    Pow2Double(8 * h);
    Pow2Double(16 * h);
  }

  lemma Pow2Double(h: nat)
    requires IsPow2(h)
    ensures IsPow2(2 * h)
  {
    assert (2 * h) / 2 == h;
  }

  lemma ScaledDivides(n: nat, h: nat)
    requires h > 0
    ensures (1024 * n) % (1024 * h) == 0 ==> n % h == 0
  {
    if (1024 * n) % (1024 * h) == 0 {
      var k := (1024 * n) / (1024 * h);
      DivMod(1024 * n, 1024 * h);
      assert k * (1024 * h) == 1024 * (k * h);
      MulMod(k, h);
    }
  }

  /** The rolled-up tail: a node over everything from chunk q * u on, at most u chunks of it. */
  ghost predicate Tail(m: Mode, a: seq<Byte>, q: nat, u: nat, o: Output) {
    && IsPow2(u) && 1024 * (q * u) < |a| <= 1024 * (q * u + u)
    && o == Subtree(m, a[1024 * (q * u)..], q * u)
  }

  /** Trailing zeros of the count move into the unit. */
  lemma {:induction false} SkipZeros(m: Mode, a: seq<Byte>, q: nat, u: nat) returns (q': nat, u': nat)
    requires q > 0 && IsPow2(u) && 1024 * (q * u) <= |a|
    ensures q' % 2 == 1 && IsPow2(u') && u' >= u && q' * u' == q * u
    ensures Frontier(m, a, q', u') == Frontier(m, a, q, u)
    decreases q
  {
    if q % 2 == 1 {
      q', u' := q, u;
    } else {
      HalfProduct(q, u);
      assert IsPow2(2 * u);
      q', u' := SkipZeros(m, a, q / 2, 2 * u);
    }
  }

  /** Joining the last entry of the frontier with the tail's chaining value gives the next tail. */
  lemma RollUp(m: Mode, a: seq<Byte>, q: nat, u: nat, tail: Cv) returns (q': nat, u': nat)
    requires q > 0 && IsPow2(u) && 1024 * (q * u) < |a| <= 1024 * (q * u + u)
    requires tail == SubtreeCv(m, a[1024 * (q * u)..], q * u)
    ensures 1024 * (q' * u') <= |a| && |Frontier(m, a, q, u)| > 0
    ensures var f := Frontier(m, a, q, u); Frontier(m, a, q', u') == f[..|f| - 1]
    ensures var f := Frontier(m, a, q, u); Tail(m, a, q', u', ParentOutput(m, Pair(f[|f| - 1], tail)))
  {
    hide SubtreeCv, PerfectCv, Subtree, PopCount;
    var p, v := SkipZeros(m, a, q, u);
    q', u' := LastEntry(m, a, p, v);
    TailJoin(m, a, (p - 1) * v, v);
  }

  /** The last entry of the frontier of an odd count, and the frontier before it. */
  lemma LastEntry(m: Mode, a: seq<Byte>, q: nat, u: nat) returns (q': nat, u': nat)
    requires q % 2 == 1 && IsPow2(u) && 1024 * (q * u) <= |a|
    ensures q' * u' == (q - 1) * u == q * u - u && u' == 2 * u && IsPow2(u')
    ensures Frontier(m, a, q, u) == Frontier(m, a, q', u') + [PerfectCv(m, a, (q - 1) * u, u)]
  {
    hide PerfectCv;
    HalfProduct(q, u);
    q', u' := q / 2, 2 * u;
    assert IsPow2(2 * u);
  }

  lemma TailJoin(m: Mode, a: seq<Byte>, first: nat, v: nat)
    requires IsPow2(v) && 1024 * (first + v) < |a| <= 1024 * (first + 2 * v)
    ensures Subtree(m, a[1024 * first..], first)
         == ParentOutput(m, Pair(PerfectCv(m, a, first, v), SubtreeCv(m, a[1024 * (first + v)..], first + v)))
  {
    hide SubtreeCv;
    var rest := a[1024 * first..];
    LeftChunksAt(v, |rest|);
    assert rest[..1024 * v] == a[1024 * first..1024 * (first + v)];
    assert rest[1024 * v..] == a[1024 * (first + v)..];
  }

  /** At the end the tail is the whole tree. */
  lemma TailIsRoot(m: Mode, a: seq<Byte>, q: nat, u: nat, o: Output)
    requires Tail(m, a, q, u, o) && |Frontier(m, a, q, u)| == 0
    ensures o == Subtree(m, a, 0)
  {
    if q > 0 { PopCountPos(q); }
    assert a[0..] == a;
  }

  lemma {:induction false} PopCountPos(n: nat)
    requires n > 0
    ensures PopCount(n) > 0
  {
    if n > 1 { PopCountPos(n / 2); }
  }

  /** No entry on the stack: the chunk is the whole tree. */
  lemma EmptyStack(m: Mode, a: seq<Byte>, n: nat, stack: seq<Cv>, q: nat, u: nat)
    requires StackHolds(m, a, n, stack, q, u) && stack == [] && |a| <= 1024 * n + 1024
    ensures n == 0 && ChunkOutput(m, a[0..], 0) == Subtree(m, a, 0)
  {
    assert a[0..] == a;
  }

  /** The buffered chunk is the tail behind the frontier of the full chunks. */
  lemma ChunkIsTail(m: Mode, a: seq<Byte>, n: nat)
    requires 1024 * n < |a| <= 1024 * n + 1024
    ensures Tail(m, a, n, 1, ChunkOutput(m, a[1024 * n..], n))
  {}

  lemma TailCv(m: Mode, a: seq<Byte>, q: nat, u: nat, o: Output)
    requires Tail(m, a, q, u, o)
    ensures ChainingValue(m.prim, o) == SubtreeCv(m, a[1024 * (q * u)..], q * u)
  {}

  /** With no bytes buffered, the top two entries of the lazy stack are the children of the tail. */
  lemma TopTwo(m: Mode, a: seq<Byte>, stack: seq<Cv>, q: nat, u: nat) returns (q': nat, u': nat)
    requires Lazy(m, a, stack, q, u) && |a| == 1024 * (q * u + u) && |stack| >= 2
    ensures 1024 * (q' * u') <= |a|
    ensures Frontier(m, a, q', u') == stack[..|stack| - 2]
    ensures Tail(m, a, q', u', ParentOutput(m, Pair(stack[|stack| - 2], stack[|stack| - 1])))
  {
    hide Subtree;
    var k := |stack| - 1;
    assert q > 0;
    assert a[1024 * (q * u)..] == a[1024 * (q * u)..1024 * (q * u + u)];
    q', u' := RollUp(m, a, q, u, stack[k]);
    var f := Frontier(m, a, q, u);
    assert stack[..k] == f && f[..k - 1] == stack[..k - 1];
  }
}
