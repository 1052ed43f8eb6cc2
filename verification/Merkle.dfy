/** The Merkle root of a block's transaction hashes. */
module Merkle {
  import opened Bytes
  import Arith
  import opened Bits
  import Texts

  type Digest = seq<Byte>

  /** The hash function is a parameter. */
  datatype Hasher = Hasher(sha256: seq<Byte> -> seq<Byte>)

  function Sha(h: Hasher, x: seq<Byte>): Digest { (h.sha256)(x) }

  // ---- the tree -----------------------------------------------------------------------------

  /** How many nodes a level has, the leaves being level 0. */
  function Count(n: nat, level: nat): nat {
    if level == 0 then n else (Count(n, level - 1) + 1) / 2
  }

  /** What the i-th node of a level above the leaves is the hash of: its two children, or its only
      child twice. */
  function Children(h: Hasher, leaves: seq<Digest>, level: nat, i: nat): seq<Byte>
    requires level > 0 && i < Count(|leaves|, level)
    decreases level, 0
  {
    Node(h, leaves, level - 1, 2 * i)
    + Node(h, leaves, level - 1, if 2 * i + 1 < Count(|leaves|, level - 1) then 2 * i + 1 else 2 * i)
  }

  function Node(h: Hasher, leaves: seq<Digest>, level: nat, i: nat): Digest
    requires i < Count(|leaves|, level)
    decreases level, 1
  {
    if level == 0 then leaves[i] else Sha(h, Children(h, leaves, level, i))
  }

  /** The root is the only node of the first level above the leaves that has just one. */
  ghost predicate IsTop(n: nat, level: nat) {
    level > 0 && Count(n, level) == 1 && forall k :: 0 < k < level ==> Count(n, k) > 1
  }

  // ---- the loop -----------------------------------------------------------------------------

  /** The list holds one level of the tree. */
  ghost predicate IsLevel(h: Hasher, leaves: seq<Digest>, level: nat, list: seq<seq<Byte>>) {
    |list| == Count(|leaves|, level) && forall i :: 0 <= i < |list| ==> list[i] == Node(h, leaves, level, i)
  }

  /** First inner loop: append neighbours, the last of an odd list to itself. */
  method PairUp(h: Hasher, hashList: seq<Digest>, ghost leaves: seq<Digest>, ghost level: nat) returns (pairs: seq<seq<Byte>>)
    requires IsLevel(h, leaves, level, hashList)
    ensures |pairs| == Count(|leaves|, level + 1)
    ensures forall i :: 0 <= i < |pairs| ==> pairs[i] == Children(h, leaves, level + 1, i)
  {
    hide Node;
    pairs := [];
    var i := 0;
    while i < |hashList|
      invariant i == 2 * |pairs| && |pairs| <= Count(|leaves|, level + 1)
      invariant forall k :: 0 <= k < |pairs| ==> pairs[k] == Children(h, leaves, level + 1, k)
    {
      var hash1, hash2;
      if i == |hashList| - 1 {
        hash1 := hashList[i];
        hash2 := hashList[i];
      } else {
        hash1 := hashList[i];
        hash2 := hashList[i + 1];
      }
      pairs := pairs + [hash1 + hash2];
      i := i + 2;
    }
  }

  /** Second inner loop: hash every pair. */
  method HashAll(h: Hasher, pairs: seq<seq<Byte>>, ghost leaves: seq<Digest>, ghost level: nat) returns (hashes: seq<Digest>)
    requires |pairs| == Count(|leaves|, level + 1)
    requires forall i :: 0 <= i < |pairs| ==> pairs[i] == Children(h, leaves, level + 1, i)
    ensures IsLevel(h, leaves, level + 1, hashes)
  {
    hide Count, Children;
    hashes := [];
    for i := 0 to |pairs|
      invariant |hashes| == i
      invariant forall k :: 0 <= k < i ==> hashes[k] == Node(h, leaves, level + 1, k)
    {
      hashes := hashes + [Sha(h, pairs[i])];
    }
  }

  const NO_TRANSACTIONS: Digest := Texts.AsBytes("No transactions in block")

  /** merkle_root: the root of the tree, found level by level. */
  method MerkleRoot(h: Hasher, leaves: seq<Digest>) returns (root: Digest, ghost top: nat)
    ensures leaves == [] ==> root == NO_TRANSACTIONS
    ensures leaves != [] ==> IsTop(|leaves|, top) && root == Node(h, leaves, top, 0)
  {
    hide Node, Children;
    top := 0;
    if |leaves| == 0 {
      return NO_TRANSACTIONS, top;
    }
    var hashList := leaves;
    var first := true;
    LeavesAreLevel(h, leaves);
    while |hashList| > 1 || first
      invariant first <==> top == 0
      invariant IsLevel(h, leaves, top, hashList) && 0 < |hashList|
      invariant forall k :: 0 < k < top ==> Count(|leaves|, k) > 1
      decreases first, |hashList|
    {
      first := false;
      var newHashList := PairUp(h, hashList, leaves, top);
      hashList := HashAll(h, newHashList, leaves, top);
      top := top + 1;
    }
    root := hashList[0];
  }

  lemma LeavesAreLevel(h: Hasher, leaves: seq<Digest>)
    ensures IsLevel(h, leaves, 0, leaves)
  {}

  // ---- what the root says -------------------------------------------------------------------

  ghost predicate SameLevel(h: Hasher, l1: seq<Digest>, l2: seq<Digest>, level: nat)
    requires |l1| == |l2|
  {
    forall i :: 0 <= i < Count(|l1|, level) ==> Node(h, l1, level, i) == Node(h, l2, level, i)
  }

  ghost predicate Digests(list: seq<Digest>, length: nat) { forall i :: 0 <= i < |list| ==> |list[i]| == length }

  ghost predicate FixedLength(h: Hasher, length: nat) { forall x :: |Sha(h, x)| == length }

  lemma NodeLength(h: Hasher, leaves: seq<Digest>, level: nat, i: nat, leaf: nat, digest: nat)
    requires i < Count(|leaves|, level) && Digests(leaves, leaf) && FixedLength(h, digest)
    ensures |Node(h, leaves, level, i)| == if level == 0 then leaf else digest
  {}

  lemma SameLeaves(h: Hasher, l1: seq<Digest>, l2: seq<Digest>)
    requires |l1| == |l2| && SameLevel(h, l1, l2, 0)
    ensures l1 == l2
  {
    assert forall i :: 0 <= i < |l1| ==> l1[i] == Node(h, l1, 0, i) == Node(h, l2, 0, i) == l2[i];
  }

  /** Different leaves below two equal levels come from a collision of the hash function. */
  lemma {:induction false} LevelCollision(h: Hasher, l1: seq<Digest>, l2: seq<Digest>, level: nat, leaf: nat, digest: nat)
      returns (x: seq<Byte>, y: seq<Byte>)
    requires |l1| == |l2| && Digests(l1, leaf) && Digests(l2, leaf) && FixedLength(h, digest)
    requires l1 != l2 && SameLevel(h, l1, l2, level)
    ensures x != y && Sha(h, x) == Sha(h, y)
  {
    if level == 0 {
      SameLeaves(h, l1, l2);
      assert false;
    } else if i :| 0 <= i < Count(|l1|, level) && Children(h, l1, level, i) != Children(h, l2, level, i) {
      x, y := Children(h, l1, level, i), Children(h, l2, level, i);
      assert Node(h, l1, level, i) == Node(h, l2, level, i);
    } else {
      var below: nat := level - 1;
      forall i: nat | i < Count(|l1|, below)
        ensures Node(h, l1, below, i) == Node(h, l2, below, i)
      {
        SameChild(h, l1, l2, level, i, leaf, digest);
      }
      x, y := LevelCollision(h, l1, l2, below, leaf, digest);
    }
  }

  lemma SameChild(h: Hasher, l1: seq<Digest>, l2: seq<Digest>, level: nat, i: nat, leaf: nat, digest: nat)
    requires |l1| == |l2| && Digests(l1, leaf) && Digests(l2, leaf) && FixedLength(h, digest)
    requires level > 0 && i < Count(|l1|, level - 1)
    requires Children(h, l1, level, i / 2) == Children(h, l2, level, i / 2)
    ensures Node(h, l1, level - 1, i) == Node(h, l2, level - 1, i)
  {
    hide Node;
    var left := 2 * (i / 2);
    NodeLength(h, l1, level - 1, left, leaf, digest);
    NodeLength(h, l2, level - 1, left, leaf, digest);
    var a, b := Children(h, l1, level, i / 2), Children(h, l2, level, i / 2);
    var n := |Node(h, l1, level - 1, left)|;
    assert a[..n] == Node(h, l1, level - 1, left) && b[..n] == Node(h, l2, level - 1, left);
    if i == left + 1 {
      assert a[n..] == Node(h, l1, level - 1, i) && b[n..] == Node(h, l2, level - 1, i);
    }
  }

  /** Blocks with equally many transactions and the same root list the same transactions, unless
      the two lists exhibit a collision of the hash function. */
  lemma RootBinds(h: Hasher, l1: seq<Digest>, l2: seq<Digest>, top1: nat, top2: nat, leaf: nat, digest: nat)
      returns (x: seq<Byte>, y: seq<Byte>)
    requires |l1| == |l2| > 0 && IsTop(|l1|, top1) && IsTop(|l2|, top2)
    requires Digests(l1, leaf) && Digests(l2, leaf) && FixedLength(h, digest)
    requires Node(h, l1, top1, 0) == Node(h, l2, top2, 0)
    ensures l1 != l2 ==> x != y && Sha(h, x) == Sha(h, y)
  {
    x, y := [], [];
    if l1 != l2 {
      assert top1 == top2;
      x, y := LevelCollision(h, l1, l2, top1, leaf, digest);
    }
  }

  // ---- repeated leaves ----------------------------------------------------------------------

  /** The list with the leaves below the last node of a level appended once more. */
  function Repeated(leaves: seq<Digest>, k: nat): seq<Digest>
    requires Pow2(k) <= |leaves|
  {
    leaves + leaves[|leaves| - Pow2(k)..]
  }

  lemma {:induction false} CountWhole(n: nat, m: nat, k: nat)
    requires m * Pow2(k) <= n
    ensures Count(n, k) >= m && (n == m * Pow2(k) ==> Count(n, k) == m)
    decreases k
  {
    if k > 0 {
      assert (2 * m) * Pow2(k - 1) == m * Pow2(k);
      CountWhole(n, 2 * m, k - 1);
    }
  }

  /** p leaves of two lists, from a and from b on, are the same. */
  ghost predicate SameBlock(l1: seq<Digest>, a: nat, l2: seq<Digest>, b: nat, p: nat) {
    a + p <= |l1| && b + p <= |l2| && l1[a..a + p] == l2[b..b + p]
  }

  lemma HalfBlocks(l1: seq<Digest>, a: nat, l2: seq<Digest>, b: nat, p: nat)
    requires SameBlock(l1, a, l2, b, p + p)
    ensures SameBlock(l1, a, l2, b, p) && SameBlock(l1, a + p, l2, b + p, p)
  {
    var block := l1[a..a + p + p];
    assert block[..p] == l1[a..a + p] && block[..p] == l2[b..b + p];
    assert block[p..] == l1[a + p..a + p + p] && block[p..] == l2[b + p..b + p + p];
  }

  lemma DoubleBlock(i: nat, k: nat)
    requires k > 0
    ensures i * Pow2(k) == (2 * i) * Pow2(k - 1) && Pow2(k) == Pow2(k - 1) + Pow2(k - 1)
    ensures (2 * i + 1) * Pow2(k - 1) == i * Pow2(k) + Pow2(k - 1)
  {}

  lemma BlockCount(leaves: seq<Digest>, i: nat, k: nat)
    requires i * Pow2(k) + Pow2(k) <= |leaves|
    ensures i < Count(|leaves|, k)
  {
    Arith.MulDistrib(Pow2(k), i, 1);
    CountWhole(|leaves|, i + 1, k);
  }

  /** A node above its full number of leaves is determined by them. */
  lemma {:induction false} NodeOfLeaves(h: Hasher, l1: seq<Digest>, l2: seq<Digest>, k: nat, i: nat, j: nat)
    requires SameBlock(l1, i * Pow2(k), l2, j * Pow2(k), Pow2(k))
    ensures i < Count(|l1|, k) && j < Count(|l2|, k) && Node(h, l1, k, i) == Node(h, l2, k, j)
  {
    hide Count, Pow2;
    BlockCount(l1, i, k);
    BlockCount(l2, j, k);
    if k > 0 {
      DoubleBlock(i, k);
      DoubleBlock(j, k);
      HalfBlocks(l1, i * Pow2(k), l2, j * Pow2(k), Pow2(k - 1));
      NodeOfLeaves(h, l1, l2, k - 1, 2 * i, 2 * j);
      NodeOfLeaves(h, l1, l2, k - 1, 2 * i + 1, 2 * j + 1);
      assert Children(h, l1, k, i) == Children(h, l2, k, j);
    } else {
      FirstBlock(l1, i, l2, j);
    }
  }

  lemma FirstBlock(l1: seq<Digest>, i: nat, l2: seq<Digest>, j: nat)
    requires SameBlock(l1, i * Pow2(0), l2, j * Pow2(0), Pow2(0))
    ensures i < |l1| && j < |l2| && l1[i] == l2[j]
  {
    assert i * Pow2(0) == i && j * Pow2(0) == j;
    assert l1[i..i + 1][0] == l2[j..j + 1][0];
  }

  /** Repeating the leaves of the last node repeats the node; the others stay. */
  lemma NodesRepeated(h: Hasher, leaves: seq<Digest>, k: nat, m: nat, i: nat)
    requires m > 0 && |leaves| == m * Pow2(k) && i <= m && Pow2(k) <= |leaves|
    ensures Count(|leaves|, k) == m && Count(|Repeated(leaves, k)|, k) == m + 1
    ensures Node(h, Repeated(leaves, k), k, i) == Node(h, leaves, k, if i < m then i else m - 1)
  {
    hide Node, Count;
    var p, more := Pow2(k), Repeated(leaves, k);
    var j := if i < m then i else m - 1;
    CountWhole(|leaves|, m, k);
    CountWhole(|more|, m + 1, k);
    assert (m - 1) * p + p == m * p;
    BlocksFit(i, m, p);
    BlocksFit(j, m - 1, p);
    RepeatedBlock(leaves, k, i * p, j * p, i < m);
    NodeOfLeaves(h, more, leaves, k, i, j);
  }

  lemma RepeatedBlock(leaves: seq<Digest>, k: nat, a: nat, b: nat, within: bool)
    requires Pow2(k) <= |leaves|
    requires if within then a == b && a + Pow2(k) <= |leaves| else a == |leaves| && b == |leaves| - Pow2(k)
    ensures SameBlock(Repeated(leaves, k), a, leaves, b, Pow2(k))
  {}

  lemma BlocksFit(i: nat, m: nat, p: nat)
    requires i <= m
    ensures i * p <= m * p && (i < m ==> i * p + p <= m * p)
  {
    if i < m { assert (m - (i + 1)) * p >= 0; }
  }

  lemma OddCounts(h: Hasher, leaves: seq<Digest>, k: nat, m: nat, level: nat)
    requires m % 2 == 1 && |leaves| == m * Pow2(k) && Pow2(k) <= |leaves| && level > k
    ensures Count(|Repeated(leaves, k)|, level) == Count(|leaves|, level)
  {
    hide Node, Repeated, Pow2;
    if level == k + 1 {
      NodesRepeated(h, leaves, k, m, 0);
    } else {
      OddCounts(h, leaves, k, m, level - 1);
    }
  }

  /** Above a level with an odd number of nodes, nothing changes when the last one is repeated. */
  lemma {:induction false} LastRepeated(h: Hasher, leaves: seq<Digest>, k: nat, m: nat, level: nat, i: nat)
    requires m % 2 == 1 && |leaves| == m * Pow2(k) && Pow2(k) <= |leaves| && level > k && i < Count(|leaves|, level)
    ensures Count(|Repeated(leaves, k)|, level) == Count(|leaves|, level)
    ensures Node(h, Repeated(leaves, k), level, i) == Node(h, leaves, level, i)
  {
    hide Repeated, Pow2;
    OddCounts(h, leaves, k, m, level);
    var more := Repeated(leaves, k);
    if level == k + 1 {
      ChildrenRepeated(h, leaves, k, m, i);
    } else {
      OddCounts(h, leaves, k, m, level - 1);
      LastRepeated(h, leaves, k, m, level - 1, 2 * i);
      LastRepeated(h, leaves, k, m, level - 1, if 2 * i + 1 < Count(|leaves|, level - 1) then 2 * i + 1 else 2 * i);
      assert Children(h, more, level, i) == Children(h, leaves, level, i);
    }
  }

  lemma ChildrenRepeated(h: Hasher, leaves: seq<Digest>, k: nat, m: nat, i: nat)
    requires m % 2 == 1 && |leaves| == m * Pow2(k) && Pow2(k) <= |leaves| && i < Count(|leaves|, k + 1)
    ensures i < Count(|Repeated(leaves, k)|, k + 1)
    ensures Children(h, Repeated(leaves, k), k + 1, i) == Children(h, leaves, k + 1, i)
  {
    hide Repeated, Pow2, Node;
    NodesRepeated(h, leaves, k, m, 0);
    NodesRepeated(h, leaves, k, m, 2 * i);
    NodesRepeated(h, leaves, k, m, 2 * i + 1);
  }

  /** Without the count the root does not bind: below the root, repeating the leaves of the last node
      of a level with an odd number of nodes leaves the root as it was. */
  lemma RootRepeated(h: Hasher, leaves: seq<Digest>, k: nat, m: nat, top: nat)
    requires m % 2 == 1 && |leaves| == m * Pow2(k) && Pow2(k) <= |leaves| && IsTop(|leaves|, top) && k < top
    ensures IsTop(|Repeated(leaves, k)|, top) && Node(h, Repeated(leaves, k), top, 0) == Node(h, leaves, top, 0)
  {
    hide Node, Count;
    LastRepeated(h, leaves, k, m, top, 0);
    var n := |Repeated(leaves, k)|;
    forall j: nat | 0 < j < top
      ensures Count(n, j) > 1
    {
      if j > k {
        LastRepeated(h, leaves, k, m, j, 0);
      } else {
        CountGrows(|leaves|, n, j);
      }
    }
  }

  lemma {:induction false} CountGrows(n: nat, n': nat, level: nat)
    requires n <= n'
    ensures Count(n, level) <= Count(n', level)
  {
    if level > 0 { CountGrows(n, n', level - 1); }
  }

  /** The list filled up, level by level, until the nodes of a level are all full. */
  function Padded(leaves: seq<Digest>, k: nat): (padded: seq<Digest>)
    requires leaves != []
    ensures |padded| >= |leaves| && |padded| % Pow2(k) == 0
  {
    if k == 0 then leaves
    else
      var list := Padded(leaves, k - 1);
      var p := Pow2(k - 1);
      Whole(|list|, p);
      if |list| / p % 2 == 0 then list else Repeated(list, k - 1)
  }

  lemma Whole(n: nat, p: nat)
    requires n > 0 && p > 0 && n % p == 0
    ensures n / p > 0 && n == n / p * p && p <= n
    ensures if n / p % 2 == 0 then n % (2 * p) == 0 else (n + p) % (2 * p) == 0
  {
    Arith.DivMod(n, p);
    WholeTimes(n, n / p, p);
  }

  lemma WholeTimes(n: nat, m: nat, p: nat)
    requires n > 0 && p > 0 && n == m * p
    ensures m > 0 && p <= n
    ensures if m % 2 == 0 then n % (2 * p) == 0 else (n + p) % (2 * p) == 0
  {
    if m > 0 { Arith.MulPos(m, p); }
    if m % 2 == 0 {
      TwiceWhole(n, m, p);
    } else {
      Arith.MulDistrib(p, m, 1);
      TwiceWhole(n + p, m + 1, p);
    }
  }

  lemma TwiceWhole(n: nat, m: nat, p: nat)
    requires m % 2 == 0 && p > 0 && n == m * p
    ensures n % (2 * p) == 0
  {
    Arith.MulAssoc(m / 2, 2, p);
    Arith.MulMod(m / 2, 2 * p);
  }

  /** So the root of any list is the root of the perfect tree over the filled list. */
  lemma {:induction false} RootPadded(h: Hasher, leaves: seq<Digest>, k: nat, top: nat)
    requires leaves != [] && IsTop(|leaves|, top) && k <= top
    ensures IsTop(|Padded(leaves, k)|, top) && Node(h, Padded(leaves, k), top, 0) == Node(h, leaves, top, 0)
    ensures k == top ==> |Padded(leaves, k)| == Pow2(top)
  {
    hide Node, Count, IsTop;
    if k > 0 {
      RootPadded(h, leaves, k - 1, top);
      var list := Padded(leaves, k - 1);
      Whole(|list|, Pow2(k - 1));
      if |list| / Pow2(k - 1) % 2 == 1 {
        RootRepeated(h, list, k - 1, |list| / Pow2(k - 1), top);
      }
    }
    if k == top {
      PerfectTree(|Padded(leaves, k)|, top);
    }
  }

  /** The root of a full tree is the hash of the root of its left half and the root of its right half,
      in this order. */
  lemma RootOfHalves(h: Hasher, leaves: seq<Digest>, k: nat)
    requires |leaves| == Pow2(k) + Pow2(k)
    ensures IsTop(|leaves|, k + 1)
    ensures 0 < Count(Pow2(k), k)
    ensures Node(h, leaves, k + 1, 0) == Sha(h, Node(h, leaves[..Pow2(k)], k, 0) + Node(h, leaves[Pow2(k)..], k, 0))
  {
    hide Count, Pow2;
    FullTop(k);
    CountWhole(Pow2(k), 1, k);
    var p := Pow2(k);
    assert SameBlock(leaves, 0 * p, leaves[..p], 0 * p, p);
    assert SameBlock(leaves, 1 * p, leaves[p..], 0 * p, p);
    NodeOfLeaves(h, leaves, leaves[..p], k, 0, 0);
    NodeOfLeaves(h, leaves, leaves[p..], k, 1, 0);
  }

  lemma FullTop(k: nat)
    ensures IsTop(Pow2(k) + Pow2(k), k + 1)
  {
    hide Count;
    CountWhole(Pow2(k + 1), 1, k + 1);
    var n: nat := Pow2(k + 1);
    forall j: nat | 0 < j < k + 1
      ensures Count(n, j) > 1
    {
      Pow2Add(k + 1 - j, j);
      CountWhole(Pow2(k + 1), Pow2(k + 1 - j), j);
    }
  }

  lemma {:induction false} PaddedDigests(leaves: seq<Digest>, k: nat, length: nat)
    requires leaves != [] && Digests(leaves, length)
    ensures Digests(Padded(leaves, k), length)
  {
    if k > 0 {
      PaddedDigests(leaves, k - 1, length);
      var list := Padded(leaves, k - 1);
      Whole(|list|, Pow2(k - 1));
    }
  }

  /** What the root binds, whatever the number of leaves: two lists with trees of the same height have
      the same root exactly if they fill up to the same list, or exhibit a collision. */
  lemma RootBindsPadded(h: Hasher, l1: seq<Digest>, l2: seq<Digest>, top: nat, leaf: nat, digest: nat)
      returns (x: seq<Byte>, y: seq<Byte>)
    requires l1 != [] && l2 != [] && IsTop(|l1|, top) && IsTop(|l2|, top)
    requires Digests(l1, leaf) && Digests(l2, leaf) && FixedLength(h, digest)
    ensures Padded(l1, top) == Padded(l2, top) ==> Node(h, l1, top, 0) == Node(h, l2, top, 0)
    ensures Node(h, l1, top, 0) == Node(h, l2, top, 0) ==>
      Padded(l1, top) == Padded(l2, top) || (x != y && Sha(h, x) == Sha(h, y))
  {
    hide Node, Count, Padded, Digests, FixedLength;
    x, y := [], [];
    RootPadded(h, l1, top, top);
    RootPadded(h, l2, top, top);
    PaddedDigests(l1, top, leaf);
    PaddedDigests(l2, top, leaf);
    if Node(h, l1, top, 0) == Node(h, l2, top, 0) {
      x, y := RootBinds(h, Padded(l1, top), Padded(l2, top), top, top, leaf, digest);
    }
  }

  lemma PerfectTree(n: nat, top: nat)
    requires n > 0 && n % Pow2(top) == 0 && IsTop(n, top)
    ensures n == Pow2(top)
  {
    Whole(n, Pow2(top));
    CountWhole(n, n / Pow2(top), top);
  }
}
