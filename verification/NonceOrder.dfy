/** Batches in which every wallet's nonces go on one by one: in which order the two passes can
    accept them. */
module NonceOrder {
  import opened Nonces

  /** A stored value as it parses; parsing can fail after part of the message was read. */
  datatype Value = Parsed(txn: Txn) | Garbled(partial: Txn)

  function TxnOf(v: Value): Txn { match v case Parsed(txn) => txn case Garbled(partial) => partial }

  function Txns(values: seq<Value>): seq<Txn> { seq(|values|, i requires 0 <= i < |values| => TxnOf(values[i])) }

  lemma TxnsLength(values: seq<Value>)
    ensures |Txns(values)| == |values| && forall i :: 0 <= i < |values| ==> Txns(values)[i] == TxnOf(values[i])
  {}

  /** The kinds order_nonce_txns puts into its list. */
  predicate Retried(kind: Kind) { kind != PROPOSAL_RESULT && kind != ALLOWANCE && kind != NO_TXN }

  // ---- accepted nonces ----------------------------------------------------------------------

  /** How many of the transactions a wallet signs. */
  function Signed(txns: seq<Txn>, s: Signer): nat {
    if txns == [] then 0 else Signed(txns[..|txns| - 1], s) + if Names(txns[|txns| - 1].entries, s) then 1 else 0
  }

  /** The i-th accepted transaction of a wallet has the i-th free nonce. */
  ghost predicate Consecutive(start: Tracker, now: Tracker, accepted: seq<Txn>) {
    && (forall s: Signer :: s.Key? ==> Next(now, s) == Next(start, s) + Signed(accepted, s))
    && (forall i, k :: 0 <= i < |accepted| && 0 <= k < |accepted[i].entries| ==> FollowsOn(start, accepted, i, k))
  }

  ghost predicate FollowsOn(start: Tracker, accepted: seq<Txn>, i: nat, k: nat)
    requires i < |accepted| && k < |accepted[i].entries|
  {
    var e := accepted[i].entries[k];
    e.signer.Key? ==> e.nonce == Next(start, e.signer) + Signed(accepted[..i], e.signer)
  }

  /** Accepting a transaction in turn. */
  lemma AcceptNext(start: Tracker, now: Tracker, accepted: seq<Txn>, txn: Txn)
    requires Consecutive(start, now, accepted) && InTurn(now, txn.entries)
    ensures Consecutive(start, AddNonces(now, txn.entries), accepted + [txn])
  {
    hide Next, AddNonces, Names;
    var more := accepted + [txn];
    assert more[..|accepted|] == accepted;
    forall s: Signer | s.Key?
      ensures Next(AddNonces(now, txn.entries), s) == Next(start, s) + Signed(more, s)
    {
      AddedNonces(now, txn.entries, s);
    }
    forall i, k | 0 <= i < |more| && 0 <= k < |more[i].entries|
      ensures FollowsOn(start, more, i, k)
    {
      assert more[..i] == accepted[..i];
      if i < |accepted| {
        assert FollowsOn(start, accepted, i, k);
      }
    }
  }

  // ---- complete batches ---------------------------------------------------------------------

  /** One key, of a kind that is tried again, and of which nothing but the nonce can be wrong. */
  predicate Simple(txn: Txn) {
    && txn.kind !in {PROPOSAL_RESULT, ALLOWANCE, NO_TXN, REQUIRED_VERSION} && |txn.entries| == 1 && txn.entries[0].signer.Key? && !txn.barred
    && (txn.kind == VALIDATOR_REGISTRATION ==>
          txn.base == txn.entries[0].signer && !txn.multi && (txn.known || txn.register))
  }

  /** A batch in which every wallet's nonces go on from its current one, each used once. */
  ghost predicate Complete(start: Tracker, values: seq<Value>, hashes: set<string>) {
    var txns := Txns(values);
    && (forall i :: 0 <= i < |values| ==> values[i].Parsed? && Simple(txns[i]) && txns[i].hash !in hashes)
    && (forall i, j :: 0 <= i < j < |txns| ==> txns[i].hash != txns[j].hash && txns[i].entries != txns[j].entries)
    && (forall i :: 0 <= i < |txns| ==> Grounded(start, txns, txns[i].entries[0]))
  }

  /** The nonce is the wallet's next one, or follows another of the batch. */
  ghost predicate Grounded(start: Tracker, txns: seq<Txn>, e: Entry) {
    e.nonce == Next(start, e.signer)
    || (e.nonce > Next(start, e.signer) && exists j :: 0 <= j < |txns| && txns[j].entries == [Entry(e.signer, e.nonce - 1)])
  }

  /** The entry of a transaction with one key. */
  function Head(t: Txn): Entry { if t.entries == [] then Entry(Key(""), 0) else t.entries[0] }

  predicate Precedes(a: Txn, b: Txn) { Head(a).signer == Head(b).signer && Head(a).nonce < Head(b).nonce }

  predicate NotAfter(a: Txn, b: Txn) { Head(a).signer == Head(b).signer && Head(a).nonce <= Head(b).nonce }

  /** The wallet's transactions up to the k-th nonce stand in ascending order. */
  ghost predicate InOrder(txns: seq<Txn>, k: nat)
    requires k < |txns|
  {
    forall i, j :: 0 <= i < |txns| && 0 <= j < |txns| && Precedes(txns[i], txns[j]) && NotAfter(txns[j], txns[k]) ==> i < j
  }

  /** Every mint of the wallet up to the transaction's nonce stands in order. */
  ghost predicate Acceptable(txns: seq<Txn>, t: Txn) {
    forall i :: 0 <= i < |txns| && txns[i].kind == MINT && NotAfter(txns[i], t) ==> InOrder(txns, i)
  }

  lemma InOrderBelow(txns: seq<Txn>, j: nat, k: nat)
    requires j < |txns| && k < |txns| && NotAfter(txns[j], txns[k]) && InOrder(txns, k)
    ensures InOrder(txns, j)
  {}

  lemma InOrderAcceptable(txns: seq<Txn>, k: nat)
    requires k < |txns| && InOrder(txns, k)
    ensures Acceptable(txns, txns[k])
  {
    forall i | 0 <= i < |txns| && txns[i].kind == MINT && NotAfter(txns[i], txns[k]) ensures InOrder(txns, i) {
      InOrderBelow(txns, i, k);
    }
  }

  lemma AcceptableBelow(txns: seq<Txn>, a: Txn, b: Txn)
    requires NotAfter(a, b) && Acceptable(txns, b)
    ensures Acceptable(txns, a)
  {}

  lemma IsSimple(start: Tracker, values: seq<Value>, hashes: set<string>, t: Txn) returns (i: nat)
    requires Complete(start, values, hashes) && t in Txns(values)
    ensures i < |Txns(values)| && Txns(values)[i] == t
    ensures Simple(t) && t.entries == [Head(t)] && t.hash !in hashes && Grounded(start, Txns(values), Head(t))
  {
    hide Simple, Grounded;
    i :| 0 <= i < |values| && Txns(values)[i] == t;
    assert t.entries == [Head(t)] by { OneHead(t); }
  }

  lemma OneHead(t: Txn)
    requires Simple(t)
    ensures |t.entries| == 1 && t.entries == [Head(t)] && Head(t).signer.Key? && Retried(t.kind) && t.kind != REQUIRED_VERSION
  {}

  /** Hashes and entries tell the transactions of the batch apart. */
  lemma SamePlace(start: Tracker, values: seq<Value>, hashes: set<string>, i: nat, j: nat)
    requires Complete(start, values, hashes) && i < |Txns(values)| && j < |Txns(values)|
    requires Txns(values)[i].hash == Txns(values)[j].hash || Txns(values)[i].entries == Txns(values)[j].entries
    ensures i == j
  {
    hide Simple, Grounded;
  }

  // ---- which nonces are taken ---------------------------------------------------------------

  /** The transaction before which a wallet had signed n of them. */
  lemma {:induction false} SignedAt(txns: seq<Txn>, s: Signer, n: nat) returns (a: nat)
    requires n < Signed(txns, s)
    ensures a < |txns| && Names(txns[a].entries, s) && Signed(txns[..a], s) == n
  {
    a := |txns| - 1;
    if !Names(txns[a].entries, s) || Signed(txns[..a], s) != n {
      var front := txns[..a];
      a := SignedAt(front, s, n);
      assert txns[..a] == front[..a];
    }
  }

  lemma {:induction false} SignedBefore(txns: seq<Txn>, s: Signer, a: nat)
    requires a < |txns| && Names(txns[a].entries, s)
    ensures Signed(txns[..a], s) < Signed(txns, s)
    decreases |txns|
  {
    var n := |txns| - 1;
    if a < n {
      SignedBefore(txns[..n], s, a);
      assert txns[..n][..a] == txns[..a];
    }
  }

  /** Nonces below a wallet's next one are taken by accepted transactions. */
  lemma Taken(start: Tracker, now: Tracker, values: seq<Value>, hashes: set<string>, block: seq<Txn>, t: Txn)
    requires Complete(start, values, hashes) && Consecutive(start, now, block) && t in Txns(values)
    requires (forall b :: b in block ==> b in Txns(values)) && Head(t).nonce < Next(now, Head(t).signer)
    ensures t in block
  {
    hide Next, Complete, Grounded, Retried, Txns, Simple, Signed;
    var i := IsSimple(start, values, hashes, t);
    OneHead(t);
    StartsBelow(start, values, t);
    assert Next(now, Head(t).signer) == Next(start, Head(t).signer) + Signed(block, Head(t).signer);
    var a := SignedAt(block, Head(t).signer, Head(t).nonce - Next(start, Head(t).signer));
    var b := block[a];
    var j := IsSimple(start, values, hashes, b);
    OneHead(b);
    assert FollowsOn(start, block, a, 0);
    assert Head(b) == Head(t);
    SamePlace(start, values, hashes, i, j);
  }

  lemma StartsBelow(start: Tracker, values: seq<Value>, t: Txn)
    requires Grounded(start, Txns(values), Head(t))
    ensures Next(start, Head(t).signer) <= Head(t).nonce
  {
    hide Next;
  }

  /** Accepted transactions of the batch have lower nonces than the wallet's next one. */
  lemma TakenBelow(start: Tracker, now: Tracker, values: seq<Value>, hashes: set<string>, block: seq<Txn>, b: Txn)
    requires Complete(start, values, hashes) && Consecutive(start, now, block) && b in block && b in Txns(values)
    ensures Head(b).nonce < Next(now, Head(b).signer)
  {
    hide Next, Complete, Simple;
    var _ := IsSimple(start, values, hashes, b);
    OneHead(b);
    var a :| 0 <= a < |block| && block[a] == b;
    assert FollowsOn(start, block, a, 0);
    SignedBefore(block, Head(b).signer, a);
  }

  /** Every nonce between a wallet's next one and one of the batch is in the batch. */
  lemma {:induction false} Below(start: Tracker, values: seq<Value>, hashes: set<string>, e: Entry, m: nat) returns (b: Txn)
    requires Complete(start, values, hashes) && Grounded(start, Txns(values), e)
    requires Next(start, e.signer) <= m < e.nonce
    ensures b in Txns(values) && Head(b) == Entry(e.signer, m)
    decreases e.nonce
  {
    hide Simple, Next, Complete;
    var txns := Txns(values);
    var j :| 0 <= j < |txns| && txns[j].entries == [Entry(e.signer, e.nonce - 1)];
    b := txns[j];
    if m < e.nonce - 1 {
      var _ := IsSimple(start, values, hashes, b);
      b := Below(start, values, hashes, Head(b), m);
    }
  }

  lemma NextGrows(start: Tracker, now: Tracker, block: seq<Txn>, s: Signer)
    requires Consecutive(start, now, block) && s.Key?
    ensures Next(start, s) <= Next(now, s)
  {}

  /** If a transaction is not next, the one that is next stands in the batch and is not accepted. */
  lemma WhoIsNext(start: Tracker, now: Tracker, values: seq<Value>, hashes: set<string>, block: seq<Txn>, t: Txn) returns (b: Txn)
    requires Complete(start, values, hashes) && Consecutive(start, now, block) && t in Txns(values)
    requires Head(t).nonce > Next(now, Head(t).signer)
    ensures b in Txns(values) && b !in block && Precedes(b, t)
  {
    hide Next, Complete, Simple, Consecutive;
    var _ := IsSimple(start, values, hashes, t);
    OneHead(t);
    NextGrows(start, now, block, Head(t).signer);
    b := Below(start, values, hashes, Head(t), Next(now, Head(t).signer));
    if b in block {
      TakenBelow(start, now, values, hashes, block, b);
      assert false;
    }
  }

  // ---- the first pass -----------------------------------------------------------------------

  /** After i values: accepted are those in order, and of the others all but mints wait. */
  ghost predicate FirstPlaced(txns: seq<Txn>, i: nat, block: seq<Txn>, waiting: seq<Txn>)
    requires i <= |txns|
  {
    && (forall k :: 0 <= k < i ==> (txns[k] in block <==> InOrder(txns, k)))
    && (forall t :: t in block || t in waiting ==> t in txns[..i])
    && (forall t :: t in waiting ==> t !in block && t.kind != MINT)
    && (forall i, j :: 0 <= i < j < |waiting| ==> waiting[i] != waiting[j])
    && (forall k :: 0 <= k < i ==> txns[k] in block || txns[k] in waiting || txns[k].kind == MINT)
  }

  /** In the first pass a transaction is next exactly if it stands in order. */
  lemma TurnIsOrder(start: Tracker, now: Tracker, values: seq<Value>, hashes: set<string>, block: seq<Txn>, waiting: seq<Txn>, i: nat)
    requires Complete(start, values, hashes) && Consecutive(start, now, block)
    requires i < |Txns(values)| && FirstPlaced(Txns(values), i, block, waiting)
    ensures var t := Txns(values)[i];
            Head(t).nonce >= Next(now, Head(t).signer)
            && (Head(t).nonce == Next(now, Head(t).signer) <==> InOrder(Txns(values), i))
  {
    hide Next, Complete, Simple, Consecutive, InOrder;
    var txns, t := Txns(values), Txns(values)[i];
    FirstNotTaken(start, now, values, hashes, block, waiting, i);
    if Head(t).nonce == Next(now, Head(t).signer) {
      NextIsInOrder(start, now, values, hashes, block, waiting, i);
    } else if InOrder(txns, i) {
      var b := WhoIsNext(start, now, values, hashes, block, t);
      var k := IsSimple(start, values, hashes, b);
      OrderBefore(txns, k, i);
      InOrderBelow(txns, k, i);
      assert false;
    }
  }

  lemma OrderBefore(txns: seq<Txn>, k: nat, i: nat)
    requires k < |txns| && i < |txns| && Precedes(txns[k], txns[i]) && InOrder(txns, i)
    ensures k < i
  {}

  lemma FirstNotTaken(start: Tracker, now: Tracker, values: seq<Value>, hashes: set<string>, block: seq<Txn>, waiting: seq<Txn>, i: nat)
    requires Complete(start, values, hashes) && Consecutive(start, now, block)
    requires i < |Txns(values)| && FirstPlaced(Txns(values), i, block, waiting)
    ensures Txns(values)[i] !in block && Txns(values)[i] !in waiting
    ensures Head(Txns(values)[i]).nonce >= Next(now, Head(Txns(values)[i]).signer)
  {
    hide Next, Complete, Simple, Consecutive, InOrder;
    var txns := Txns(values);
    if txns[i] in txns[..i] {
      var k :| 0 <= k < i && txns[k] == txns[i];
      SamePlace(start, values, hashes, k, i);
      assert false;
    }
    if Head(txns[i]).nonce < Next(now, Head(txns[i]).signer) {
      Taken(start, now, values, hashes, block, txns[i]);
      assert false;
    }
  }

  lemma NextIsInOrder(start: Tracker, now: Tracker, values: seq<Value>, hashes: set<string>, block: seq<Txn>, waiting: seq<Txn>, n: nat)
    requires Complete(start, values, hashes) && Consecutive(start, now, block)
    requires n < |Txns(values)| && FirstPlaced(Txns(values), n, block, waiting)
    requires Head(Txns(values)[n]).nonce == Next(now, Head(Txns(values)[n]).signer)
    ensures InOrder(Txns(values), n)
  {
    hide Next, Complete, Consecutive, FirstPlaced;
    var txns := Txns(values);
    forall i, j | 0 <= i < |txns| && 0 <= j < |txns| && Precedes(txns[i], txns[j]) && NotAfter(txns[j], txns[n])
      ensures i < j
    {
      PairInOrder(start, now, values, hashes, block, waiting, n, i, j);
    }
  }

  lemma PairInOrder(start: Tracker, now: Tracker, values: seq<Value>, hashes: set<string>, block: seq<Txn>, waiting: seq<Txn>,
                    n: nat, i: nat, j: nat)
    requires Complete(start, values, hashes) && Consecutive(start, now, block)
    requires n < |Txns(values)| && FirstPlaced(Txns(values), n, block, waiting)
    requires Head(Txns(values)[n]).nonce == Next(now, Head(Txns(values)[n]).signer)
    requires i < |Txns(values)| && j < |Txns(values)|
    requires Precedes(Txns(values)[i], Txns(values)[j]) && NotAfter(Txns(values)[j], Txns(values)[n])
    ensures i < j
  {
    hide Next, Complete, Consecutive, FirstPlaced, InOrder, Simple;
    var txns := Txns(values);
    LowerIsEarlier(start, now, values, hashes, block, waiting, n, i);
    if Head(txns[j]).nonce < Head(txns[n]).nonce {
      LowerIsEarlier(start, now, values, hashes, block, waiting, n, j);
      OrderBefore(txns, i, j);
    } else {
      var _ := IsSimple(start, values, hashes, txns[j]);
      var _ := IsSimple(start, values, hashes, txns[n]);
      SamePlace(start, values, hashes, j, n);
    }
  }

  lemma LowerIsEarlier(start: Tracker, now: Tracker, values: seq<Value>, hashes: set<string>, block: seq<Txn>, waiting: seq<Txn>,
                       n: nat, i: nat)
    requires Complete(start, values, hashes) && Consecutive(start, now, block)
    requires n < |Txns(values)| && FirstPlaced(Txns(values), n, block, waiting)
    requires i < |Txns(values)| && Precedes(Txns(values)[i], Txns(values)[n])
    requires Head(Txns(values)[n]).nonce == Next(now, Head(Txns(values)[n]).signer)
    ensures i < n && InOrder(Txns(values), i)
  {
    hide Next, Complete, Simple, Consecutive, InOrder;
    var txns := Txns(values);
    Taken(start, now, values, hashes, block, txns[i]);
    var k :| 0 <= k < n && txns[k] == txns[i];
    SamePlace(start, values, hashes, k, i);
  }

  lemma FirstPlacedNext(start: Tracker, values: seq<Value>, hashes: set<string>, i: nat, block: seq<Txn>, waiting: seq<Txn>,
                        block': seq<Txn>, waiting': seq<Txn>)
    requires Complete(start, values, hashes) && i < |Txns(values)| && FirstPlaced(Txns(values), i, block, waiting)
    requires var t := Txns(values)[i];
             && t !in block && t !in waiting
             && block' == (if InOrder(Txns(values), i) then block + [t] else block)
             && waiting' == (if !InOrder(Txns(values), i) && t.kind != MINT then waiting + [t] else waiting)
    ensures FirstPlaced(Txns(values), i + 1, block', waiting')
  {
    hide Complete, InOrder, Txns, FirstPlaced;
    var txns, t := Txns(values), Txns(values)[i];
    forall k | 0 <= k < i ensures txns[k] != t {
      if txns[k] == t { SamePlace(start, values, hashes, k, i); }
    }
    PlaceNext(txns, i, block, waiting, block', waiting');
  }

  lemma PlaceNext(txns: seq<Txn>, i: nat, block: seq<Txn>, waiting: seq<Txn>, block': seq<Txn>, waiting': seq<Txn>)
    requires i < |txns| && FirstPlaced(txns, i, block, waiting) && forall k :: 0 <= k < i ==> txns[k] != txns[i]
    requires txns[i] !in block && txns[i] !in waiting
    requires block' == if InOrder(txns, i) then block + [txns[i]] else block
    requires waiting' == if !InOrder(txns, i) && txns[i].kind != MINT then waiting + [txns[i]] else waiting
    ensures FirstPlaced(txns, i + 1, block', waiting')
  {
    hide InOrder, FirstPlaced;
    PlacedAt(txns, i, block, waiting, block', waiting');
    PlacedFrom(txns, i, block, waiting, block', waiting');
    StillDistinct(txns, i, block, waiting);
    JoinPlaced(txns, i + 1, block', waiting');
  }

  lemma JoinPlaced(txns: seq<Txn>, i: nat, block: seq<Txn>, waiting: seq<Txn>)
    requires i <= |txns|
    requires forall k :: 0 <= k < i ==> (txns[k] in block <==> InOrder(txns, k))
    requires forall k :: 0 <= k < i ==> txns[k] in block || txns[k] in waiting || txns[k].kind == MINT
    requires forall t :: t in block || t in waiting ==> t in txns[..i]
    requires forall t :: t in waiting ==> t !in block && t.kind != MINT
    requires forall i, j :: 0 <= i < j < |waiting| ==> waiting[i] != waiting[j]
    ensures FirstPlaced(txns, i, block, waiting)
  {
    hide InOrder;
  }

  lemma PlacedAt(txns: seq<Txn>, i: nat, block: seq<Txn>, waiting: seq<Txn>, block': seq<Txn>, waiting': seq<Txn>)
    requires i < |txns| && FirstPlaced(txns, i, block, waiting) && forall k :: 0 <= k < i ==> txns[k] != txns[i]
    requires txns[i] !in block
    requires block' == if InOrder(txns, i) then block + [txns[i]] else block
    requires waiting' == if !InOrder(txns, i) && txns[i].kind != MINT then waiting + [txns[i]] else waiting
    ensures forall k :: 0 <= k < i + 1 ==> (txns[k] in block' <==> InOrder(txns, k))
    ensures forall k :: 0 <= k < i + 1 ==> txns[k] in block' || txns[k] in waiting' || txns[k].kind == MINT
  {
    hide InOrder, FirstPlaced;
    forall k: nat | k < i + 1
      ensures txns[k] in block' <==> InOrder(txns, k)
      ensures txns[k] in block' || txns[k] in waiting' || txns[k].kind == MINT
    {
      if k < i {
        PlacedBefore(txns, i, block, waiting, k);
        OthersStay(block, waiting, txns[i], txns[k]);
      }
    }
  }

  lemma PlacedBefore(txns: seq<Txn>, i: nat, block: seq<Txn>, waiting: seq<Txn>, k: nat)
    requires k < i <= |txns| && FirstPlaced(txns, i, block, waiting)
    ensures txns[k] in block <==> InOrder(txns, k)
    ensures txns[k] in block || txns[k] in waiting || txns[k].kind == MINT
  {
    hide InOrder;
  }

  lemma OthersStay(block: seq<Txn>, waiting: seq<Txn>, t: Txn, u: Txn)
    requires u != t
    ensures (u in block + [t] <==> u in block) && (u in waiting + [t] <==> u in waiting)
  {}

  lemma PlacedFrom(txns: seq<Txn>, i: nat, block: seq<Txn>, waiting: seq<Txn>, block': seq<Txn>, waiting': seq<Txn>)
    requires i < |txns| && FirstPlaced(txns, i, block, waiting) && txns[i] !in block && txns[i] !in waiting
    requires block' == if InOrder(txns, i) then block + [txns[i]] else block
    requires waiting' == if !InOrder(txns, i) && txns[i].kind != MINT then waiting + [txns[i]] else waiting
    ensures forall t :: t in block' || t in waiting' ==> t in txns[..i + 1]
    ensures forall t :: t in waiting' ==> t !in block' && t.kind != MINT
  {
    hide InOrder, FirstPlaced;
    FirstPlacedParts(txns, i, block, waiting);
    assert txns[..i + 1] == txns[..i] + [txns[i]];
  }

  lemma FirstPlacedParts(txns: seq<Txn>, i: nat, block: seq<Txn>, waiting: seq<Txn>)
    requires i <= |txns| && FirstPlaced(txns, i, block, waiting)
    ensures forall t :: t in block || t in waiting ==> t in txns[..i]
    ensures forall t :: t in waiting ==> t !in block && t.kind != MINT
    ensures forall i, j :: 0 <= i < j < |waiting| ==> waiting[i] != waiting[j]
  {
    hide InOrder;
  }

  lemma StillDistinct(txns: seq<Txn>, i: nat, block: seq<Txn>, waiting: seq<Txn>)
    requires i < |txns| && FirstPlaced(txns, i, block, waiting) && txns[i] !in waiting
    ensures forall i, j :: 0 <= i < j < |waiting| ==> waiting[i] != waiting[j]
    ensures var more := waiting + [txns[i]];
            forall i, j :: 0 <= i < j < |more| ==> more[i] != more[j]
  {
    hide FirstPlaced;
    FirstPlacedParts(txns, i, block, waiting);
  }

  // ---- the second pass ----------------------------------------------------------------------

  /** Accepted are acceptable ones, and those who neither are accepted nor wait are not acceptable. */
  ghost predicate Placed(txns: seq<Txn>, block: seq<Txn>, waiting: seq<Txn>) {
    && (forall t :: t in txns ==> t in block || t in waiting || !Acceptable(txns, t))
    && (forall t :: t in block ==> t in txns && Acceptable(txns, t))
    && (forall t :: t in waiting ==> t in txns && t !in block && t.kind != MINT)
    && (forall i, j :: 0 <= i < j < |waiting| ==> waiting[i] != waiting[j])
  }

  lemma AfterFirstPass(txns: seq<Txn>, block: seq<Txn>, waiting: seq<Txn>)
    requires FirstPlaced(txns, |txns|, block, waiting)
    ensures Placed(txns, block, waiting)
  {
    hide InOrder, Acceptable;
    assert txns[..|txns|] == txns;
    forall t | t in txns ensures t in block || t in waiting || !Acceptable(txns, t) {
      var k :| 0 <= k < |txns| && txns[k] == t;
      if t !in block && t !in waiting {
        if Acceptable(txns, t) { AcceptableMint(txns, k); }
      }
    }
    forall t | t in block ensures Acceptable(txns, t) {
      var k :| 0 <= k < |txns| && txns[k] == t;
      InOrderAcceptable(txns, k);
    }
  }

  lemma AcceptableMint(txns: seq<Txn>, k: nat)
    requires k < |txns| && txns[k].kind == MINT && Acceptable(txns, txns[k])
    ensures InOrder(txns, k)
  {
    hide InOrder;
  }

  /** Of what waits, the transaction with the lowest nonce is next exactly if it is acceptable. */
  lemma LowestIsNext(start: Tracker, now: Tracker, values: seq<Value>, hashes: set<string>, block: seq<Txn>, waiting: seq<Txn>)
    requires Complete(start, values, hashes) && Consecutive(start, now, block)
    requires Placed(Txns(values), block, waiting) && |waiting| > 0 && Sorted(waiting)
    ensures var t := waiting[0];
            Head(t).nonce >= Next(now, Head(t).signer)
            && (Head(t).nonce == Next(now, Head(t).signer) <==> Acceptable(Txns(values), t))
  {
    hide Next, Consecutive, Complete, SortKey, Acceptable, Simple;
    var txns, t := Txns(values), waiting[0];
    assert t in waiting;
    if Head(t).nonce < Next(now, Head(t).signer) {
      Taken(start, now, values, hashes, block, t);
      assert false;
    }
    if Head(t).nonce == Next(now, Head(t).signer) {
      NextIsAcceptable(start, now, values, hashes, block, waiting, t);
    } else if Acceptable(txns, t) {
      var b := WhoIsNext(start, now, values, hashes, block, t);
      AcceptableBelow(txns, b, t);
      var _ := IsSimple(start, values, hashes, b);
      var _ := IsSimple(start, values, hashes, t);
      SimpleKey(b);
      SimpleKey(t);
      assert false;
    }
  }

  lemma NextIsAcceptable(start: Tracker, now: Tracker, values: seq<Value>, hashes: set<string>, block: seq<Txn>, waiting: seq<Txn>, t: Txn)
    requires Complete(start, values, hashes) && Consecutive(start, now, block)
    requires Placed(Txns(values), block, waiting) && t in waiting && Head(t).nonce == Next(now, Head(t).signer)
    ensures Acceptable(Txns(values), t)
  {
    hide Next, Consecutive, Complete, Simple, InOrder;
    var txns := Txns(values);
    forall i | 0 <= i < |txns| && txns[i].kind == MINT && NotAfter(txns[i], t) ensures InOrder(txns, i) {
      var _ := IsSimple(start, values, hashes, txns[i]);
      var j := IsSimple(start, values, hashes, t);
      if Head(txns[i]) == Head(t) {
        SamePlace(start, values, hashes, i, j);
        assert false;
      } else {
        Taken(start, now, values, hashes, block, txns[i]);
        AcceptableMint(txns, i);
      }
    }
  }

  lemma PlacedNext(txns: seq<Txn>, block: seq<Txn>, waiting: seq<Txn>, block': seq<Txn>)
    requires Placed(txns, block, waiting) && |waiting| > 0
    requires block' == if Acceptable(txns, waiting[0]) then block + [waiting[0]] else block
    ensures Placed(txns, block', waiting[1..])
  {
    hide Acceptable;
    var t, rest := waiting[0], waiting[1..];
    assert waiting == [t] + rest;
    assert t in waiting;
    assert forall b :: b in block' <==> b in block || (b == t && Acceptable(txns, t));
  }

  /** In the end exactly the acceptable transactions are accepted; that is all of them exactly if
      every mint stands in order. */
  lemma AllPlaced(start: Tracker, now: Tracker, values: seq<Value>, hashes: set<string>, block: seq<Txn>)
    requires Complete(start, values, hashes) && Consecutive(start, now, block) && Placed(Txns(values), block, [])
    requires forall i, j :: 0 <= i < j < |block| ==> block[i] != block[j]
    ensures forall t :: t in Txns(values) ==> (t in block <==> Acceptable(Txns(values), t))
    ensures multiset(block) == multiset(Txns(values)) <==> MintsInOrder(Txns(values))
  {
    hide Acceptable, Complete, Consecutive, InOrder;
    var txns := Txns(values);
    if MintsInOrder(txns) {
      forall t | t in txns ensures t in block { AllAcceptable(txns, t); }
      Distinct(start, values, hashes);
      SameMultiset(block, txns);
    }
    if multiset(block) == multiset(txns) {
      forall i | 0 <= i < |txns| && txns[i].kind == MINT ensures InOrder(txns, i) {
        assert txns[i] in multiset(txns);
        assert txns[i] in block;
        AcceptableMint(txns, i);
      }
    }
  }

  ghost predicate MintsInOrder(txns: seq<Txn>) {
    forall i :: 0 <= i < |txns| && txns[i].kind == MINT ==> InOrder(txns, i)
  }

  lemma AllAcceptable(txns: seq<Txn>, t: Txn)
    requires MintsInOrder(txns)
    ensures Acceptable(txns, t)
  {
    hide InOrder;
  }

  lemma Distinct(start: Tracker, values: seq<Value>, hashes: set<string>)
    requires Complete(start, values, hashes)
    ensures forall i, j :: 0 <= i < j < |Txns(values)| ==> Txns(values)[i] != Txns(values)[j]
  {
    hide Simple, Grounded;
  }

  lemma SameMultiset(a: seq<Txn>, b: seq<Txn>)
    requires (forall t :: t in a <==> t in b)
    requires forall i, j :: 0 <= i < j < |a| ==> a[i] != a[j]
    requires forall i, j :: 0 <= i < j < |b| ==> b[i] != b[j]
    ensures multiset(a) == multiset(b)
  {
    forall t ensures multiset(a)[t] == multiset(b)[t] {
      DistinctCount(a, t);
      DistinctCount(b, t);
      assert t in a <==> t in multiset(a);
      assert t in b <==> t in multiset(b);
    }
  }

  /** A mint whose nonce is ahead is dropped, though the batch is complete. */
  lemma MintAhead(w: string, mint: Txn, item: Txn)
    requires mint == Message(MINT, "a", [Entry(Key(w), 2)], false, false, Key(w), false, false, false)
    requires item == Message(ITEM_MINT, "b", [Entry(Key(w), 1)], false, false, Key(w), false, false, false)
    ensures Complete(Tracker(map[], map[]), [Parsed(mint), Parsed(item)], {})
    ensures Acceptable([mint, item], item) && !Acceptable([mint, item], mint)
  {
    var start, values := Tracker(map[], map[]), [Parsed(mint), Parsed(item)];
    assert Txns(values) == [mint, item];
    assert Txns(values)[1].entries == [Entry(Key(w), 1)];
    assert Grounded(start, Txns(values), Entry(Key(w), 2));
    hide Grounded, Retried, Next;
    NotInOrder(mint, item);
  }

  lemma NotInOrder(mint: Txn, item: Txn)
    requires Precedes(item, mint) && mint.kind == MINT && item.kind != MINT
    ensures Acceptable([mint, item], item) && !Acceptable([mint, item], mint)
  {
    var txns := [mint, item];
    assert Precedes(txns[1], txns[0]) && NotAfter(txns[0], txns[0]);
    assert !InOrder(txns, 0);
    assert txns[0].kind == MINT && NotAfter(txns[0], mint);
  }

  // ---- the order of the second pass ---------------------------------------------------------

  function NonceSum(entries: seq<Entry>): uint64 {
    if entries == [] then 0
    else (NonceSum(entries[..|entries| - 1]) + entries[|entries| - 1].nonce) % 0x1_0000_0000_0000_0000
  }

  /** get_coin_nonce adds up the signers' nonces; other transactions have one. */
  function SortKey(t: Txn): uint64 { if t.kind == COIN then NonceSum(t.entries) else t.entries[0].nonce }

  lemma SimpleKey(t: Txn)
    requires Simple(t)
    ensures SortKey(t) == Head(t).nonce
  {
    if t.kind == COIN {
      assert t.entries[..0] == [];
      assert NonceSum(t.entries[..0]) == 0;
    }
  }

  function Kept(wrappers: seq<Txn>): seq<Txn> {
    if wrappers == [] then []
    else Kept(wrappers[..|wrappers| - 1]) + if Retried(wrappers[|wrappers| - 1].kind) then [wrappers[|wrappers| - 1]] else []
  }

  ghost predicate Sorted(ts: seq<Txn>) { forall i, j :: 0 <= i < j < |ts| ==> SortKey(ts[i]) <= SortKey(ts[j]) }

  function Insert(ts: seq<Txn>, t: Txn): seq<Txn> {
    if ts == [] || SortKey(ts[|ts| - 1]) <= SortKey(t) then ts + [t]
    else Insert(ts[..|ts| - 1], t) + [ts[|ts| - 1]]
  }

  lemma {:induction false} InsertKeepsOrder(ts: seq<Txn>, t: Txn)
    requires Sorted(ts)
    ensures Sorted(Insert(ts, t)) && multiset(Insert(ts, t)) == multiset(ts) + multiset{t}
  {
    hide SortKey;
    if !(ts == [] || SortKey(ts[|ts| - 1]) <= SortKey(t)) {
      var front, last := ts[..|ts| - 1], ts[|ts| - 1];
      assert ts == front + [last];
      InsertKeepsOrder(front, t);
      forall u | u in Insert(front, t) ensures SortKey(u) <= SortKey(last) {
        assert u in multiset(Insert(front, t));
        assert u in front || u == t;
      }
    }
  }

  /** Any sort will do: equal nonces may come in any order. */
  method Sort(ts: seq<Txn>) returns (sorted: seq<Txn>)
    ensures multiset(sorted) == multiset(ts) && Sorted(sorted)
  {
    sorted := [];
    hide SortKey, Insert;
    for i := 0 to |ts|
      invariant multiset(sorted) == multiset(ts[..i]) && Sorted(sorted)
    {
      InsertKeepsOrder(sorted, ts[i]);
      assert ts[..i + 1] == ts[..i] + [ts[i]];
      sorted := Insert(sorted, ts[i]);
    }
    assert ts[..|ts|] == ts;
  }

  /** order_nonce_txns */
  method OrderNonceTxns(wrappers: seq<Txn>) returns (ordered: seq<Txn>)
    ensures multiset(ordered) == multiset(Kept(wrappers)) && Sorted(ordered)
    ensures forall t :: t in ordered ==> t in wrappers
  {
    hide Retried, Sorted;
    var pairs := [];
    for i := 0 to |wrappers|
      invariant pairs == Kept(wrappers[..i]) && forall t :: t in pairs ==> t in wrappers
    {
      assert wrappers[..i + 1][..i] == wrappers[..i];
      if Retried(wrappers[i].kind) {
        pairs := pairs + [wrappers[i]];
      }
    }
    assert wrappers[..|wrappers|] == wrappers;
    ordered := Sort(pairs);
    forall t | t in ordered ensures t in wrappers {
      assert t in multiset(ordered);
    }
  }

  lemma {:induction false} AllKept(wrappers: seq<Txn>)
    requires forall t :: t in wrappers ==> Retried(t.kind)
    ensures Kept(wrappers) == wrappers
  {
    if wrappers != [] { AllKept(wrappers[..|wrappers| - 1]); }
  }

  lemma {:induction false} DistinctCount(ts: seq<Txn>, t: Txn)
    requires forall i, j :: 0 <= i < j < |ts| ==> ts[i] != ts[j]
    ensures multiset(ts)[t] <= 1
  {
    if ts != [] {
      var front := ts[..|ts| - 1];
      assert ts == front + [ts[|ts| - 1]];
      DistinctCount(front, t);
      assert ts[|ts| - 1] !in front;
    }
  }

  lemma CountTwo(ts: seq<Txn>, i: nat, j: nat)
    requires i < j < |ts| && ts[i] == ts[j]
    ensures multiset(ts)[ts[i]] >= 2
  {
    assert ts == ts[..j] + ts[j..];
    assert ts[i] in ts[..j] && ts[i] in ts[j..];
  }

  lemma SameElements(ts: seq<Txn>, us: seq<Txn>)
    requires multiset(us) == multiset(ts) && forall i, j :: 0 <= i < j < |ts| ==> ts[i] != ts[j]
    ensures forall t :: t in us <==> t in ts
    ensures forall i, j :: 0 <= i < j < |us| ==> us[i] != us[j]
  {
    forall t ensures t in us <==> t in ts {
      assert t in us <==> t in multiset(us);
      assert t in ts <==> t in multiset(ts);
    }
    forall i, j | 0 <= i < j < |us| ensures us[i] != us[j] {
      DistinctCount(ts, us[i]);
      if us[i] == us[j] { CountTwo(us, i, j); }
    }
  }

  /** Sorting what waits changes nothing about who waits. */
  lemma Reordered(start: Tracker, values: seq<Value>, hashes: set<string>, block: seq<Txn>, waiting: seq<Txn>, sorted: seq<Txn>)
    requires Complete(start, values, hashes) && Placed(Txns(values), block, waiting)
    requires multiset(sorted) == multiset(Kept(waiting))
    ensures Placed(Txns(values), block, sorted)
  {
    hide Complete, Kept, Txns, Acceptable;
    AllRetried(start, values, hashes, waiting);
    SameElements(waiting, sorted);
  }

  lemma AllRetried(start: Tracker, values: seq<Value>, hashes: set<string>, waiting: seq<Txn>)
    requires Complete(start, values, hashes) && forall t :: t in waiting ==> t in Txns(values)
    ensures Kept(waiting) == waiting
  {
    hide Complete, Txns, Kept, Simple;
    forall t | t in waiting ensures Retried(t.kind) {
      var _ := IsSimple(start, values, hashes, t);
      OneHead(t);
    }
    AllKept(waiting);
  }
}
