/** What operations that go through move: into and out of every wallet, and in all. */
module TokenFlow {
  import opened Ledger
  import opened BalanceTracker
  import opened BlockRun
  import opened Sums
  import Supply

  /** The credits and the debits of an operation in one contract. */
  function CreditsOf(step: Step, c: Str): seq<Transfer> {
    if step.contract != c then []
    else
      match step.op
      case Add(w, a) => [Transfer(w, a)]
      case AddBatch(ts) => ts
      case Premint(ts) => ts
      case _ => []
  }

  function DebitsOf(step: Step, c: Str): seq<Transfer> {
    if step.contract != c then []
    else
      match step.op
      case Subtract(w, a) => [Transfer(w, a)]
      case SubtractBatch(ts) => ts
      case _ => []
  }

  function CreditsIn(steps: seq<Step>, c: Str): seq<Transfer> {
    if steps == [] then [] else CreditsIn(steps[..|steps| - 1], c) + CreditsOf(steps[|steps| - 1], c)
  }

  function DebitsIn(steps: seq<Step>, c: Str): seq<Transfer> {
    if steps == [] then [] else DebitsIn(steps[..|steps| - 1], c) + DebitsOf(steps[|steps| - 1], c)
  }

  /** Every wallet's total moved by its credits and debits, and no other way. */
  ghost predicate Flowed(b: Books, b': Books, credits: Str -> seq<Transfer>, debits: Str -> seq<Transfer>) {
    forall w, c :: IsContractId(c) ==>
      TotalFor(b', w, c) == TotalFor(b, w, c) + Sent(credits(c), w) - Sent(debits(c), w)
  }

  ghost function Credited(steps: seq<Step>): Str -> seq<Transfer> { c => CreditsIn(steps, c) }

  ghost function Debited(steps: seq<Step>): Str -> seq<Transfer> { c => DebitsIn(steps, c) }

  lemma {:induction false} SentConcat(a: seq<Transfer>, b: seq<Transfer>, w: Str)
    ensures Sent(a + b, w) == Sent(a, w) + Sent(b, w)
  {
    if b == [] {
      assert a + b == a;
    } else {
      assert (a + b)[..|a + b| - 1] == a + b[..|b| - 1];
      SentConcat(a, b[..|b| - 1], w);
    }
  }

  lemma {:induction false} TotalConcat(a: seq<Transfer>, b: seq<Transfer>)
    ensures Supply.Total(a + b) == Supply.Total(a) + Supply.Total(b)
  {
    if b == [] {
      assert a + b == a;
    } else {
      assert (a + b)[..|a + b| - 1] == a + b[..|b| - 1];
      TotalConcat(a, b[..|b| - 1]);
    }
  }

  lemma FlowInMore(steps: seq<Step>, step: Step, c: Str)
    ensures CreditsIn(steps + [step], c) == CreditsIn(steps, c) + CreditsOf(step, c)
    ensures DebitsIn(steps + [step], c) == DebitsIn(steps, c) + DebitsOf(step, c)
  {
    assert (steps + [step])[..|steps|] == steps;
  }

  lemma NothingFlowed(b: Books)
    ensures Flowed(b, b, Credited([]), Debited([]))
  {}

  /** An operation that goes through and loses nothing moves its transfers. */
  lemma StepFlows(b: Books, b': Books, h: Hash, step: Step, w: Str, c: Str)
    requires Performed(b, b', h, step) && Completes(b, step) && Lossless(b, step) && IsContractId(c)
    ensures TotalFor(b', w, c) == TotalFor(b, w, c) + Sent(CreditsOf(step, c), w) - Sent(DebitsOf(step, c), w)
  {
    hide Touched, Recorded, TotalFor, Affordable, RawKey, NothingLost;
    var ts := Carried(b, step);
    if step.op.SubtractBatch? { assert ts == step.op.transfers; }
    LastMovesAll(ts);
    if step.op.Subtract? { OneLosesNothing(ts[0]); }
  }

  lemma FlowMore(b: Books, m: Books, b': Books, h: Hash, steps: seq<Step>, step: Step)
    requires Flowed(b, m, Credited(steps), Debited(steps))
    requires Performed(m, b', h, step) && Completes(m, step) && Lossless(m, step)
    ensures Flowed(b, b', Credited(steps + [step]), Debited(steps + [step]))
  {
    hide Performed, Completes, Lossless, TotalFor, CreditsIn, DebitsIn, CreditsOf, DebitsOf;
    forall w, c | IsContractId(c)
      ensures TotalFor(b', w, c)
           == TotalFor(b, w, c) + Sent(Credited(steps + [step])(c), w) - Sent(Debited(steps + [step])(c), w)
    {
      StepFlows(m, b', h, step, w, c);
      FlowInMore(steps, step, c);
      SentConcat(CreditsIn(steps, c), CreditsOf(step, c), w);
      SentConcat(DebitsIn(steps, c), DebitsOf(step, c), w);
    }
  }

  /** What does not go through moves nothing, unless a wallet without a total cuts a batch short. */
  lemma StoppedFlows(b: Books, b': Books, h: Hash, step: Step)
    requires Performed(b, b', h, step) && !Completes(b, step)
    requires step.op.SubtractBatch? ==>
      forall i :: 0 <= i < |step.op.transfers| ==> Exists(b, RawKey(step.op.transfers[i].wallet, step.contract))
    ensures b' == b
  {
    hide RawKey, Affordable, Moved, Touched;
  }

  /** In all, the tokens of a contract move by its credits and debits. */
  lemma FlowMovesSupply(b: Books, b': Books, steps: seq<Step>, c: Str)
    requires Flowed(b, b', Credited(steps), Debited(steps)) && IsContractId(c)
    ensures Supply.InAll(b', c) == Supply.InAll(b, c) + Supply.Total(CreditsIn(steps, c)) - Supply.Total(DebitsIn(steps, c))
  {
    hide TotalFor, Supply.InAll, CreditsIn, DebitsIn;
    forall w ensures TotalFor(b', w, c) == TotalFor(b, w, c) + Sent(CreditsIn(steps, c), w) - Sent(DebitsIn(steps, c), w) {
      assert Credited(steps)(c) == CreditsIn(steps, c) && Debited(steps)(c) == DebitsIn(steps, c);
    }
    Supply.TransfersMove(b, b', c, CreditsIn(steps, c), DebitsIn(steps, c));
  }

  /** What distinct wallets can pay is no more than there is. */
  lemma AffordableWithin(b: Books, ts: seq<Transfer>, c: Str)
    requires IsContractId(c) && DistinctWallets(ts) && forall i :: 0 <= i < |ts| ==> Affordable(b, ts[i], c)
    ensures Supply.Total(ts) <= Supply.InAll(b, c)
  {
    hide RawKey, TotalFor, Supply.Holders;
    var wallets := Supply.Wallets(ts);
    var all := wallets + Supply.Holders(b, c);
    Supply.SentInAll(ts, wallets);
    forall w | w in wallets ensures Sent(ts, w) <= TotalFor(b, w, c) {
      var t :| t in ts && t.wallet == w;
      var i :| 0 <= i < |ts| && ts[i] == t;
      SentOnce(ts, i);
    }
    SumSetMono(wallets, SentTo(ts), Supply.Holdings(b, c));
    SumSetSubset(wallets, all, Supply.Holdings(b, c));
    Supply.InAllOver(b, c, all);
  }

  lemma {:induction false} SentOnce(ts: seq<Transfer>, i: nat)
    requires i < |ts| && DistinctWallets(ts)
    ensures Sent(ts, ts[i].wallet) == ts[i].amount
    decreases |ts|
  {
    var n := |ts| - 1;
    var front := ts[..n];
    if i == n {
      NothingSent(front, ts[i].wallet);
    } else {
      SentOnce(front, i);
    }
  }
}
