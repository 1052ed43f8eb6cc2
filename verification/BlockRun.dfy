/** A whole block: its transactions processed one after the other. */
module BlockRun {
  import opened Ledger
  import opened BalanceTracker
  import opened Replay

  /** What a transaction may do to balances. */
  datatype Op =
    | Add(wallet: Str, amount: nat)
    | Subtract(wallet: Str, amount: nat)
    | AddBatch(transfers: seq<Transfer>)
    | Premint(transfers: seq<Transfer>)
    | SubtractBatch(transfers: seq<Transfer>)

  datatype Step = Step(contract: Str, op: Op)

  datatype Txn = Txn(hash: Hash, steps: seq<Step>)

  // ---- one operation ------------------------------------------------------------------------

  /** How many of the transfers, from the first on, can be paid from the totals. */
  function Payable(b: Books, ts: seq<Transfer>, contract: Str): (n: nat)
    ensures n <= |ts| && (forall i :: 0 <= i < n ==> Affordable(b, ts[i], contract))
    ensures n < |ts| ==> !Affordable(b, ts[n], contract)
  {
    if ts == [] then 0
    else
      var n := Payable(b, ts[..|ts| - 1], contract);
      if n == |ts| - 1 && Affordable(b, ts[n], contract) then |ts| else n
  }

  function Credits(op: Op): bool { op.Add? || op.AddBatch? || op.Premint? }

  /** The transfers of an operation that go through: a wallet that has too little stops a batch and
      undoes it, one without a total only cuts it short. */
  function Carried(b: Books, step: Step): seq<Transfer> {
    match step.op
    case Add(w, a) => [Transfer(w, a)]
    case Subtract(w, a) => [Transfer(w, a)]
    case AddBatch(ts) => ts
    case Premint(ts) => ts
    case SubtractBatch(ts) => ts[..Payable(b, ts, step.contract)]
  }

  /** Whether it changes anything. */
  predicate Moves(b: Books, step: Step) {
    match step.op
    case Subtract(w, a) => Affordable(b, Transfer(w, a), step.contract)
    case SubtractBatch(ts) =>
      var n := Payable(b, ts, step.contract);
      n < |ts| ==> !Exists(b, RawKey(ts[n].wallet, step.contract))
    case _ => true
  }

  /** By how much the totals change: for a premint and for inputs only the last entry of a wallet counts. */
  ghost function Change(b: Books, step: Step): Str -> int {
    var ts := Carried(b, step);
    if step.op.Premint? then Last(ts) else if Credits(step.op) then SentTo(ts) else Negative(Last(ts))
  }

  ghost function Added(b: Books, step: Step): Str -> int { if Credits(step.op) then SentTo(Carried(b, step)) else Nothing() }

  ghost function Subtracted(b: Books, step: Step): Str -> int { if Credits(step.op) then Nothing() else SentTo(Carried(b, step)) }

  /** What one operation does to the books. */
  ghost predicate Performed(b: Books, b': Books, h: Hash, step: Step) {
    if Moves(b, step) then
      && Moved(b, b', h, step.contract, Added(b, step), Subtracted(b, step), Change(b, step))
      && Touched(b, b', h, step.contract, Carried(b, step), Credits(step.op))
    else b' == b
  }

  /** Nothing gets lost: no earlier entry of a wallet moves something that a later one overwrites. */
  ghost predicate Lossless(b: Books, step: Step) {
    Moves(b, step) && (step.op.Premint? || step.op.SubtractBatch?) ==> NothingLost(Carried(b, step))
  }

  /** All of it goes through. */
  predicate Completes(b: Books, step: Step) {
    match step.op
    case Subtract(w, a) => Affordable(b, Transfer(w, a), step.contract)
    case SubtractBatch(ts) => Payable(b, ts, step.contract) == |ts|
    case _ => true
  }

  method Perform(tracker: Tracker, hash: Hash, step: Step) returns (status: Status)
    requires IsContractId(step.contract)
    modifies tracker
    ensures Performed(old(tracker.State()), tracker.State(), hash, step)
    ensures status == OK <==> old(Completes(tracker.State(), step))
  {
    hide Moved, Touched, Affordable, RawKey, NothingLost;
    status := OK;
    ghost var b := tracker.State();
    var contract := step.contract;
    match step.op {
      case Add(wallet, amount) =>
        tracker.AddTxnBalance(wallet, contract, amount, hash);
        OneIsBatch(b, tracker.State(), hash, contract, Transfer(wallet, amount));
      case Subtract(wallet, amount) =>
        AffordableIff(b, Transfer(wallet, amount), contract);
        status := tracker.SubtractTxnBalance(wallet, contract, amount, hash);
        OneIsBatch(b, tracker.State(), hash, contract, Transfer(wallet, amount));
      case AddBatch(ts) =>
        tracker.AddTxnBalanceTransfer(ts, contract, hash);
      case Premint(ts) =>
        tracker.AddTxnBalancePremint(ts, contract, hash);
      case SubtractBatch(ts) =>
        ghost var done;
        status, done := tracker.SubtractTxnBalanceTransfer(ts, contract, hash);
        PayableIs(b, ts, contract, done, status);
        assert ts[..|ts|] == ts;
    }
  }

  lemma AffordableIff(b: Books, t: Transfer, contract: Str)
    ensures Affordable(b, t, contract) <==> Exists(b, RawKey(t.wallet, contract)) && t.amount <= TotalFor(b, t.wallet, contract)
  {}

  lemma PayableIs(b: Books, ts: seq<Transfer>, contract: Str, done: nat, status: Status)
    requires done <= |ts| && (status == OK <==> done == |ts|) && forall i :: 0 <= i < done ==> Affordable(b, ts[i], contract)
    requires status == INVALID_WALLET_ADDRESS ==> !Exists(b, RawKey(ts[done].wallet, contract))
    requires status == INSUFFICIENT_AMOUNT ==> !Affordable(b, ts[done], contract) && Exists(b, RawKey(ts[done].wallet, contract))
    ensures done == Payable(b, ts, contract)
    ensures status == INSUFFICIENT_AMOUNT <==> done < |ts| && Exists(b, RawKey(ts[done].wallet, contract))
  {
    hide RawKey, TotalFor;
    var n := Payable(b, ts, contract);
    if n < done {
      assert false;
    }
  }

  /** A single operation is a batch of one. */
  lemma OneIsBatch(b: Books, b': Books, h: Hash, contract: Str, t: Transfer)
    ensures Moved(b, b', h, contract, Only(t.wallet, t.amount), Nothing(), Only(t.wallet, t.amount))
        ==> Moved(b, b', h, contract, SentTo([t]), Nothing(), SentTo([t]))
    ensures Moved(b, b', h, contract, Nothing(), Only(t.wallet, t.amount), Only(t.wallet, 0 - t.amount))
        ==> Moved(b, b', h, contract, Nothing(), SentTo([t]), Negative(Last([t])))
  {
    hide Moved;
    if Moved(b, b', h, contract, Only(t.wallet, t.amount), Nothing(), Only(t.wallet, t.amount)) {
      OneTransfer(b, b', h, contract, t);
    }
    if Moved(b, b', h, contract, Nothing(), Only(t.wallet, t.amount), Only(t.wallet, 0 - t.amount)) {
      OneLastDebit(b, b', h, contract, t);
    }
  }

  lemma OneLastDebit(b: Books, b': Books, h: Hash, contract: Str, t: Transfer)
    requires Moved(b, b', h, contract, Nothing(), Only(t.wallet, t.amount), Only(t.wallet, 0 - t.amount))
    ensures Moved(b, b', h, contract, Nothing(), SentTo([t]), Negative(Last([t])))
  {
    OneDebit(b, b', h, contract, t);
    OneLosesNothing(t);
    assert forall w :: Negative(Last([t]))(w) == Negative(SentTo([t]))(w);
  }

  /** An operation keeps the ledger balanced exactly if nothing gets lost. */
  lemma PerformedBalance(b: Books, b': Books, h: Hash, step: Step)
    requires Listed(b) && Balanced(b) && IsContractId(step.contract) && Performed(b, b', h, step)
    ensures Listed(b') && (Balanced(b') <==> Lossless(b, step))
  {
    hide Moved, Touched, Balanced, NothingLost, Moves, Carried;
    if Moves(b, step) {
      ListedMoves(b, b', h, step.contract, Added(b, step), Subtracted(b, step), Change(b, step));
      MovedBalance(b, b', h, step.contract, Added(b, step), Subtracted(b, step), Change(b, step));
      ChangeIsAll(b, step);
    }
  }

  /** Of the transaction at work, an operation leaves records that can be replayed exactly if
      nothing gets lost. */
  lemma PerformedReplayable(b: Books, b': Books, h: Hash, step: Step)
    requires Replayable(b) && Current(b, h) && IsContractId(step.contract) && Performed(b, b', h, step)
    ensures Current(b', h) && (Replayable(b') <==> Lossless(b, step))
  {
    hide Moved, Touched, NeverNegative, Backed, WellKeyed, Balanced, NothingLost, Moves, Carried;
    PerformedBalance(b, b', h, step);
    if Moves(b, step) {
      MovedCurrent(b, b', h, step.contract, Added(b, step), Subtracted(b, step), Change(b, step));
      if Balanced(b') {
        StepReplayable(b, b', h, step.contract, Added(b, step), Subtracted(b, step), Change(b, step), Carried(b, step), Credits(step.op));
      }
    }
  }

  lemma MovedCurrent(b: Books, b': Books, h: Hash, contract: Str, added: Str -> int, subtracted: Str -> int, change: Str -> int)
    requires Moved(b, b', h, contract, added, subtracted, change) && Current(b, h)
    ensures Current(b', h)
  {
    hide Recorded, TotalFor;
  }

  lemma ChangeIsAll(b: Books, step: Step)
    ensures (forall w :: Change(b, step)(w) == Added(b, step)(w) - Subtracted(b, step)(w))
        <==> (step.op.Premint? || step.op.SubtractBatch? ==> NothingLost(Carried(b, step)))
  {
    hide NothingLost, Sent, LastSent;
    var ts := Carried(b, step);
    LastMovesAll(ts);
    if step.op.Subtract? { OneLosesNothing(ts[0]); }
    if step.op.Premint? || step.op.SubtractBatch? ==> NothingLost(ts) {
      forall w ensures Change(b, step)(w) == Added(b, step)(w) - Subtracted(b, step)(w) {
        assert step.op.Premint? || step.op.SubtractBatch? || step.op.Subtract? ==> Sent(ts, w) == LastSent(ts, w);
      }
    } else {
      var w :| Sent(ts, w) != LastSent(ts, w);
      assert Change(b, step)(w) != Added(b, step)(w) - Subtracted(b, step)(w);
    }
  }

  lemma OneLosesNothing(t: Transfer)
    ensures NothingLost([t]) && forall w :: Sent([t], w) == LastSent([t], w)
  {
    LastMovesAll([t]);
  }

  // ---- one transaction ----------------------------------------------------------------------

  /** The steps of a transaction took the books from b to b'. */
  ghost predicate Ran(b: Books, h: Hash, steps: seq<Step>, b': Books)
    decreases |steps|, 0
  {
    if steps == [] then b' == b else RanOn(b, h, steps[..|steps| - 1], steps[|steps| - 1], b')
  }

  ghost predicate RanOn(b: Books, h: Hash, steps: seq<Step>, step: Step, b': Books)
    decreases |steps|, 1
  {
    exists m :: Ran(b, h, steps, m) && Performed(m, b', h, step)
  }

  /** Batches lose nothing, and nobody takes from the placeholder. */
  ghost predicate Proper(step: Step) {
    && IsContractId(step.contract)
    && (step.op.Premint? || step.op.SubtractBatch? ==> NothingLost(step.op.transfers))
    && (step.op.Subtract? ==> step.op.wallet != PLACEHOLDER)
    && (step.op.SubtractBatch? ==> forall t :: t in step.op.transfers ==> t.wallet != PLACEHOLDER)
  }

  /** Since b0 only the transaction h, new then, has worked on the books. */
  ghost predicate Since(b0: Books, b: Books, h: Hash) {
    && b.stored == b0.stored && h !in b0.order && (b.order == b0.order || b.order == b0.order + [h])
    && (forall w, c, i :: IsContractId(c) && 0 <= i <= |b0.order| ==> Accounted(b, w, c, i) == Accounted(b0, w, c, i))
  }

  /** What a transaction keeps. */
  ghost predicate Keeps(b0: Books, b: Books, h: Hash) {
    Replayable(b) && Current(b, h) && Since(b0, b, h) && NoPlaceholderDebit(b)
  }

  lemma ProperKeeps(b0: Books, b: Books, b': Books, h: Hash, step: Step)
    requires Keeps(b0, b, h) && Proper(step) && Performed(b, b', h, step)
    ensures Keeps(b0, b', h)
  {
    hide Moved, Touched, NeverNegative, Backed, WellKeyed, Balanced, Moves, Carried, PLACEHOLDER, Since, NoPlaceholderDebit, NothingLost, Proper;
    ProperLossless(b, step);
    PerformedReplayable(b, b', h, step);
    if Moves(b, step) {
      SinceMore(b0, b, b', h, step.contract, Added(b, step), Subtracted(b, step), Change(b, step));
      StaysUndebited(b, b', h, step);
    }
  }

  lemma ProperLossless(b: Books, step: Step)
    requires Proper(step)
    ensures Lossless(b, step) && IsContractId(step.contract)
  {
    hide Affordable, RawKey, PLACEHOLDER;
  }

  lemma SinceMore(b0: Books, b: Books, b': Books, h: Hash, contract: Str,
                  added: Str -> int, subtracted: Str -> int, change: Str -> int)
    requires Listed(b) && Since(b0, b, h) && Moved(b, b', h, contract, added, subtracted, change)
    ensures Since(b0, b', h)
  {
    hide Recorded, TotalFor, AmountFor, Accounted;
    forall w, c, i | IsContractId(c) && 0 <= i <= |b0.order|
      ensures Accounted(b', w, c, i) == Accounted(b0, w, c, i)
    {
      AccountedBefore(b, b', h, contract, added, subtracted, change, w, c, i);
      assert b.order[..i] == b0.order[..i];
    }
  }

  lemma StaysUndebited(b: Books, b': Books, h: Hash, step: Step)
    requires Proper(step) && Moves(b, step) && Performed(b, b', h, step) && NoPlaceholderDebit(b)
    ensures NoPlaceholderDebit(b')
  {
    hide Moved, Touched, PLACEHOLDER, NothingLost, Affordable, RawKey, HasRecord;
    forall g, c | IsContractId(c)
      ensures !HasRecord(b'.subs, g, PLACEHOLDER, c)
    {
      TouchedKeys(b, b', h, step.contract, Carried(b, step), Credits(step.op), PLACEHOLDER, c);
      if !Credits(step.op) { CarriedSpare(b, step); }
    }
  }

  lemma CarriedSpare(b: Books, step: Step)
    requires Proper(step) && !Credits(step.op)
    ensures forall t :: t in Carried(b, step) ==> t.wallet != PLACEHOLDER
  {
    hide Affordable, PLACEHOLDER, NothingLost;
  }

  lemma {:induction false} TxnKeeps(b0: Books, h: Hash, steps: seq<Step>, b: Books)
    requires Ran(b0, h, steps, b) && Replayable(b0) && NoPlaceholderDebit(b0) && h !in b0.order
    requires forall k :: 0 <= k < |steps| ==> Proper(steps[k])
    ensures Keeps(b0, b, h)
    decreases |steps|
  {
    hide Replayable, NoPlaceholderDebit, Proper, Performed, Accounted;
    if steps != [] {
      var front := steps[..|steps| - 1];
      assert RanOn(b0, h, front, steps[|steps| - 1], b);
      var m :| Ran(b0, h, front, m) && Performed(m, b, h, steps[|steps| - 1]);
      TxnKeeps(b0, h, front, m);
      ProperKeeps(b0, m, b, h, steps[|steps| - 1]);
    }
  }

  // ---- all transactions ---------------------------------------------------------------------

  function Fresh(stored: map<Str, nat>): Books { Books(stored, map[], map[], map[], []) }

  /** The books before and after every transaction. */
  ghost predicate RanAll(stored: map<Str, nat>, txns: seq<Txn>, books: seq<Books>) {
    && |books| == |txns| + 1 && books[0] == Fresh(stored)
    && forall i :: 0 <= i < |txns| ==> Ran(books[i], txns[i].hash, txns[i].steps, books[i + 1])
  }

  ghost predicate ProperBlock(txns: seq<Txn>) {
    && (forall i, j :: 0 <= i < j < |txns| ==> txns[i].hash != txns[j].hash)
    && (forall i, k :: 0 <= i < |txns| && 0 <= k < |txns[i].steps| ==> Proper(txns[i].steps[k]))
  }

  function Hashes(txns: seq<Txn>): seq<Hash> { seq(|txns|, i requires 0 <= i < |txns| => txns[i].hash) }

  /** What holds before the i-th transaction. */
  ghost predicate Ready(stored: map<Str, nat>, txns: seq<Txn>, b: Books, i: nat)
    requires i <= |txns|
  {
    Replayable(b) && NoPlaceholderDebit(b) && b.stored == stored && forall h :: h in b.order ==> h in Hashes(txns)[..i]
  }

  lemma {:induction false} AllReady(stored: map<Str, nat>, txns: seq<Txn>, books: seq<Books>, i: nat)
    requires RanAll(stored, txns, books) && ProperBlock(txns) && i <= |txns|
    ensures Ready(stored, txns, books[i], i)
    ensures i < |txns| ==> Keeps(books[i], books[i + 1], txns[i].hash)
  {
    hide Replayable, NoPlaceholderDebit, Proper, Accounted, Ran;
    if i == 0 {
      FreshReady(stored);
    } else {
      AllReady(stored, txns, books, i - 1);
      assert Hashes(txns)[..i] == Hashes(txns)[..i - 1] + [txns[i - 1].hash];
    }
    if i < |txns| {
      HashIsNew(txns, i);
      TxnKeeps(books[i], txns[i].hash, txns[i].steps, books[i + 1]);
    }
  }

  lemma FreshReady(stored: map<Str, nat>)
    ensures Replayable(Fresh(stored)) && NoPlaceholderDebit(Fresh(stored))
  {
    EmptyReplayable(Fresh(stored));
  }

  lemma HashIsNew(txns: seq<Txn>, i: nat)
    requires ProperBlock(txns) && i < |txns|
    ensures txns[i].hash !in Hashes(txns)[..i]
  {
    hide Proper;
  }

  /** Once a transaction is done, later ones change nothing of what is accounted for it: that stays
      what the overlay held then. */
  lemma {:induction false} Frozen(stored: map<Str, nat>, txns: seq<Txn>, books: seq<Books>, i: nat, j: nat, w: Str, c: Str)
    requires RanAll(stored, txns, books) && ProperBlock(txns) && i <= j <= |txns| && IsContractId(c)
    ensures books[i].order <= books[j].order
    ensures Accounted(books[j], w, c, |books[i].order|) == TotalFor(books[i], w, c)
    decreases j
  {
    hide NoPlaceholderDebit, Proper, Accounted, RanAll, ProperBlock, TotalFor, NeverNegative, Backed, WellKeyed, Listed;
    AllReady(stored, txns, books, i);
    if i < j {
      Frozen(stored, txns, books, i, j - 1, w, c);
      AllReady(stored, txns, books, j - 1);
    }
  }

  /** A transaction's hash is not listed later. */
  lemma {:induction false} ListedInTime(stored: map<Str, nat>, txns: seq<Txn>, books: seq<Books>, k: nat, j: nat)
    requires RanAll(stored, txns, books) && ProperBlock(txns) && k < j <= |txns|
    ensures txns[k].hash in books[j].order ==> txns[k].hash in books[k + 1].order
    decreases j
  {
    hide Replayable, NoPlaceholderDebit, Proper, Accounted, RanAll;
    if k + 1 < j {
      AllReady(stored, txns, books, j - 1);
      ListedInTime(stored, txns, books, k, j - 1);
    }
  }

  lemma StartsFresh(stored: map<Str, nat>, txns: seq<Txn>, books: seq<Books>)
    requires RanAll(stored, txns, books)
    ensures |books| == |txns| + 1 && books[0] == Fresh(stored)
  {}

  /** Any transactions, one after the other. */
  method Process(stored: map<Str, nat>, txns: seq<Txn>) returns (tracker: Tracker, ghost books: seq<Books>)
    requires forall i, k :: 0 <= i < |txns| && 0 <= k < |txns[i].steps| ==> IsContractId(txns[i].steps[k].contract)
    ensures fresh(tracker) && tracker.wallets == stored && RanAll(stored, txns, books) && tracker.State() == books[|txns|]
  {
    tracker := new Tracker(stored);
    books := [tracker.State()];
    hide Performed;
    for i := 0 to |txns|
      invariant tracker.wallets == stored && |books| == i + 1 && tracker.State() == books[i] && books[0] == Fresh(stored)
      invariant forall j :: 0 <= j < i ==> Ran(books[j], txns[j].hash, txns[j].steps, books[j + 1])
    {
      var steps := txns[i].steps;
      for k := 0 to |steps|
        invariant tracker.wallets == stored && Ran(books[i], txns[i].hash, steps[..k], tracker.State())
      {
        ghost var m := tracker.State();
        var _ := Perform(tracker, txns[i].hash, steps[k]);
        assert steps[..k + 1][..k] == steps[..k];
      }
      assert steps[..|steps|] == steps;
      books := books + [tracker.State()];
    }
  }

  /** What a wallet has when the books b are reached by replay: its total, but what went to the
      placeholder is at the fee address. */
  function Delivered(b: Books, fee: Str, w: Str, c: Str): int {
    var kept := Lookup(b.stored, RawKey(PLACEHOLDER, c));
    if fee == PLACEHOLDER then TotalFor(b, w, c)
    else if w == PLACEHOLDER then kept
    else if w == fee then TotalFor(b, w, c) + TotalFor(b, PLACEHOLDER, c) - kept
    else TotalFor(b, w, c)
  }
}
