/** Replaying what a run recorded: any list of its transactions, in any order. */
module RunReplay {
  import opened Ledger
  import opened BalanceTracker
  import opened Replay
  import opened BlockReplay
  import opened BlockRun
  import opened Sums

  function StartOf(b: Books, fee: Str): Start { Start(b.stored, b.adds, b.subs, fee) }

  /** The net of the first i transactions in processing order: what is accounted for them, with all
      that was credited to the placeholder moved to the fee address. */
  lemma {:induction false} NetIsAccounted(b: Books, fee: Str, w: Str, c: Str, i: nat)
    requires i <= |b.order| && IsContractId(c) && NoPlaceholderDebit(b)
    ensures w != PLACEHOLDER && w != fee ==> Net(StartOf(b, fee), b.order[..i], w, c) == Accounted(b, w, c, i)
    ensures w == fee != PLACEHOLDER ==> (Net(StartOf(b, fee), b.order[..i], w, c)
         == Accounted(b, w, c, i) + Accounted(b, PLACEHOLDER, c, i) - Lookup(b.stored, RawKey(PLACEHOLDER, c)))
    ensures w == PLACEHOLDER != fee ==> Net(StartOf(b, fee), b.order[..i], w, c) == Lookup(b.stored, RawKey(w, c))
    ensures w == PLACEHOLDER == fee ==> Net(StartOf(b, fee), b.order[..i], w, c) == Accounted(b, w, c, i)
    ensures Accounted(b, PLACEHOLDER, c, i) >= Lookup(b.stored, RawKey(PLACEHOLDER, c))
  {
    hide RawKey, PLACEHOLDER, Shift, AmountFor, NoPlaceholderDebit;
    if i > 0 {
      NetIsAccounted(b, fee, w, c, i - 1);
      assert b.order[..i][..i - 1] == b.order[..i - 1];
      ShiftIsAmounts(b, fee, b.order[i - 1], w, c);
    }
  }

  lemma ShiftIsAmounts(b: Books, fee: Str, h: Hash, w: Str, c: Str)
    requires NoPlaceholderDebit(b) && IsContractId(c)
    ensures AmountFor(b.subs, h, PLACEHOLDER, c) == 0
    ensures Shift(StartOf(b, fee), h, w, c)
         == (if w != PLACEHOLDER then AmountFor(b.adds, h, w, c) else 0)
          + (if w == fee then AmountFor(b.adds, h, PLACEHOLDER, c) else 0) - AmountFor(b.subs, h, w, c)
  {
    hide LedgerKey, PLACEHOLDER;
    assert !HasRecord(b.subs, h, PLACEHOLDER, c);
  }

  lemma RunReplayed(stored: map<Str, nat>, txns: seq<Txn>, books: seq<Books>, k: nat, fee: Str, w: Str, c: Str)
    requires RanAll(stored, txns, books) && ProperBlock(txns) && k <= |txns| && IsContractId(c)
    ensures |books| == |txns| + 1
    ensures Net(StartOf(books[|txns|], fee), books[k].order, w, c) == Delivered(books[k], fee, w, c) >= 0
  {
    hide Proper, PLACEHOLDER, Replayable, RanAll, RawKey, Accounted, TotalFor, NoPlaceholderDebit, ProperBlock, Net;
    StartsFresh(stored, txns, books);
    AllReady(stored, txns, books, k);
    AllReady(stored, txns, books, |txns|);
    Frozen(stored, txns, books, k, |txns|, w, c);
    Frozen(stored, txns, books, k, |txns|, PLACEHOLDER, c);
    assert books[|txns|].order[..|books[k].order|] == books[k].order;
    NetIsAccounted(books[|txns|], fee, w, c, |books[k].order|);
  }

  // ---- replaying a list ---------------------------------------------------------------------

  ghost predicate Distinct(hashes: seq<Hash>) { forall i, j :: 0 <= i < j < |hashes| ==> hashes[i] != hashes[j] }

  /** Nothing that was processed after the first k transactions. */
  ghost predicate Among(txns: seq<Txn>, k: nat, hashes: seq<Hash>) {
    forall j :: k <= j < |txns| ==> txns[j].hash !in hashes
  }

  /** The transactions with records that the list leaves out. */
  function LeftOut(b: Books, hashes: seq<Hash>): set<Hash> { Members(b.order) - Members(hashes) }

  /** The net of a list is the overlay after the first k transactions, less what the list leaves out. */
  lemma NetOfList(stored: map<Str, nat>, txns: seq<Txn>, books: seq<Books>, k: nat, fee: Str, hashes: seq<Hash>, w: Str, c: Str)
    requires RanAll(stored, txns, books) && ProperBlock(txns) && k <= |txns| && IsContractId(c)
    requires Distinct(hashes) && Among(txns, k, hashes)
    ensures |books| == |txns| + 1
    ensures Net(StartOf(books[|txns|], fee), hashes, w, c)
         == Delivered(books[k], fee, w, c) - SumSet(LeftOut(books[k], hashes), Shifts(StartOf(books[|txns|], fee), w, c))
  {
    hide Proper, PLACEHOLDER, RanAll, RawKey, LedgerKey, TotalFor, NoPlaceholderDebit, ProperBlock, Net, Shift, Delivered,
         Balanced, NeverNegative, Backed, WellKeyed;
    RunReplayed(stored, txns, books, k, fee, w, c);
    AllReady(stored, txns, books, k);
    var b, order := books[|txns|], books[k].order;
    var s := StartOf(b, fee);
    var f := Shifts(s, w, c);
    NetIsSum(s, order, w, c);
    NetIsSum(s, hashes, w, c);
    SumSetSplit(Members(order), Members(hashes), f);
    SumSetSplit(Members(hashes), Members(order), f);
    assert Members(order) * Members(hashes) == Members(hashes) * Members(order);
    forall h | h in Members(hashes) - Members(order) ensures f(h) == 0 {
      Unrecorded(stored, txns, books, k, hashes, h);
      NoShift(s, b, h, w, c);
    }
    SumSetZero(Members(hashes) - Members(order), f);
  }

  lemma NoShift(s: Start, b: Books, h: Hash, w: Str, c: Str)
    requires h !in b.adds && h !in b.subs && s.adds == b.adds && s.subs == b.subs
    ensures Shift(s, h, w, c) == 0
  {}

  lemma Unrecorded(stored: map<Str, nat>, txns: seq<Txn>, books: seq<Books>, k: nat, hashes: seq<Hash>, h: Hash)
    requires RanAll(stored, txns, books) && ProperBlock(txns) && k <= |txns| && |books| == |txns| + 1
    requires Among(txns, k, hashes) && h in hashes && h !in books[k].order
    ensures h !in books[|txns|].adds && h !in books[|txns|].subs
  {
    hide Proper, RanAll, TotalFor, NoPlaceholderDebit, ProperBlock, Balanced, NeverNegative, Backed, WellKeyed, Accounted;
    AllReady(stored, txns, books, |txns|);
    if h in books[|txns|].order {
      var j :| 0 <= j < |txns| && txns[j].hash == h;
      if j < k {
        ListedInTime(stored, txns, books, j, |txns|);
        Frozen(stored, txns, books, j + 1, k, [], [DOLLAR]);
      }
      assert false;
    }
  }

  /** In processing order and without gaps every debit is covered. */
  lemma FirstCovered(stored: map<Str, nat>, txns: seq<Txn>, books: seq<Books>, k: nat, fee: Str, w: Str, c: Str)
    requires RanAll(stored, txns, books) && ProperBlock(txns) && k <= |txns| && IsContractId(c)
    ensures |books| == |txns| + 1
    ensures Covered(StartOf(books[|txns|], fee), Hashes(txns)[..k], w, c)
    ensures Net(StartOf(books[|txns|], fee), Hashes(txns)[..k], w, c) == Delivered(books[k], fee, w, c)
  {
    hide Proper, RanAll, RawKey, LedgerKey, NoPlaceholderDebit, ProperBlock, Net, Delivered, RecordOf, KnownTo, PLACEHOLDER;
    StartsFresh(stored, txns, books);
    var s, hashes := StartOf(books[|txns|], fee), Hashes(txns)[..k];
    NothingLeftOut(stored, txns, books, k, fee, w, c);
    forall i | 0 <= i < |hashes| && LedgerKey(w, c) in RecordOf(s.subs, hashes[i])
      ensures CoveredAt(s, hashes, w, c, i)
    {
      assert hashes[..i + 1] == Hashes(txns)[..i + 1];
      NothingLeftOut(stored, txns, books, i + 1, fee, w, c);
      KnownInTime(stored, txns, books, i, fee, w, c);
    }
  }

  lemma NothingLeftOut(stored: map<Str, nat>, txns: seq<Txn>, books: seq<Books>, k: nat, fee: Str, w: Str, c: Str)
    requires RanAll(stored, txns, books) && ProperBlock(txns) && k <= |txns| && IsContractId(c)
    ensures |books| == |txns| + 1
    ensures Net(StartOf(books[|txns|], fee), Hashes(txns)[..k], w, c) == Delivered(books[k], fee, w, c) >= 0
  {
    hide Proper, RanAll, RawKey, LedgerKey, Replayable, NoPlaceholderDebit, Net, Delivered, PLACEHOLDER;
    RunReplayed(stored, txns, books, k, fee, w, c);
    ContractsNamed(txns);
    assert Among(txns, k, Hashes(txns)[..k]);
    NetOfList(stored, txns, books, k, fee, Hashes(txns)[..k], w, c);
    AllReady(stored, txns, books, k);
    assert LeftOut(books[k], Hashes(txns)[..k]) == {};
    SumSetZero({}, Shifts(StartOf(books[|txns|], fee), w, c));
  }

  lemma {:induction false} KnownSince(b: Books, w: Str, c: Str, i: nat)
    requires i <= |b.order| && KnownBy(b, w, c, i)
    ensures RawKey(w, c) in b.stored || exists j :: 0 <= j < i && HasRecord(b.adds, b.order[j], w, c)
  {
    hide RawKey, HasRecord;
    if i > 0 && KnownBy(b, w, c, i - 1) { KnownSince(b, w, c, i - 1); }
  }

  /** A debited wallet is stored, or credited by a transaction up to the one that debits it. */
  lemma KnownInTime(stored: map<Str, nat>, txns: seq<Txn>, books: seq<Books>, i: nat, fee: Str, w: Str, c: Str)
    requires RanAll(stored, txns, books) && ProperBlock(txns) && i < |txns| && IsContractId(c) && |books| == |txns| + 1
    requires LedgerKey(w, c) in RecordOf(books[|txns|].subs, txns[i].hash)
    ensures KnownTo(StartOf(books[|txns|], fee), Hashes(txns)[..i + 1], w, c)
  {
    hide Proper, RanAll, RawKey, LedgerKey, ProperBlock, PLACEHOLDER, Replayable, NoPlaceholderDebit, Accounted, TotalFor, KnownTo;
    AllReady(stored, txns, books, |txns|);
    AllReady(stored, txns, books, i + 1);
    if txns[i].hash in books[|txns|].order {
      ListedInTime(stored, txns, books, i, |txns|);
    }
    Frozen(stored, txns, books, i + 1, |txns|, [], [DOLLAR]);
    KnownUpTo(books[|txns|], fee, books[i + 1].order, Hashes(txns)[..i + 1], txns[i].hash, w, c);
  }

  lemma KnownUpTo(b: Books, fee: Str, order: seq<Hash>, hashes: seq<Hash>, h: Hash, w: Str, c: Str)
    requires Replayable(b) && NoPlaceholderDebit(b) && order <= b.order && IsContractId(c) && (h in b.order ==> h in order)
    requires (forall g :: g in order ==> g in hashes) && LedgerKey(w, c) in RecordOf(b.subs, h)
    ensures KnownTo(StartOf(b, fee), hashes, w, c)
  {
    hide RawKey, LedgerKey, PLACEHOLDER, Balanced, NeverNegative, WellKeyed, KnownBy;
    assert HasRecord(b.subs, h, w, c) && w != PLACEHOLDER;
    var m :| 0 <= m < |order| && order[m] == h;
    assert b.order[m] == h && KnownBy(b, w, c, m + 1);
    KnownSince(b, w, c, m + 1);
    if RawKey(w, c) !in b.stored {
      var j :| 0 <= j < m + 1 && HasRecord(b.adds, b.order[j], w, c);
      assert b.order[j] == order[j] && order[j] in hashes;
      assert Credited(RecordOf(b.adds, order[j]), fee, w, c);
    }
  }

  lemma ContractsNamed(txns: seq<Txn>)
    requires ProperBlock(txns)
    ensures forall i, k :: 0 <= i < |txns| && 0 <= k < |txns[i].steps| ==> IsContractId(txns[i].steps[k].contract)
    ensures Distinct(Hashes(txns))
  {
    hide PLACEHOLDER, NothingLost;
  }

  lemma RecordsKeyed(stored: map<Str, nat>, txns: seq<Txn>, books: seq<Books>)
    requires RanAll(stored, txns, books) && ProperBlock(txns)
    ensures |books| == |txns| + 1 && books[|txns|].stored == stored
    ensures WellKeyed(books[|txns|].adds) && WellKeyed(books[|txns|].subs)
  {
    hide Proper, ProperBlock, NoPlaceholderDebit, Balanced, NeverNegative, Backed, WellKeyed;
    AllReady(stored, txns, books, |txns|);
  }

  /** Processing transactions and then replaying any list of them. A wallet ends with its total in the
      overlay, with what went to the placeholder at the fee address; less what the transactions moved
      that are left out of the list, and with what was not paid because a debit failed. */
  method ProcessAndReplay(stored: map<Str, nat>, txns: seq<Txn>, hashes: seq<Hash>, fee: Str)
      returns (tracker: Tracker, balances: BlockBalances, ghost books: seq<Books>, ghost ok: bool)
    requires ProperBlock(txns) && Distinct(hashes)
    ensures RanAll(stored, txns, books) && tracker.State() == books[|txns|]
    ensures balances.wallets == stored && balances.blockBalances == map[]
    ensures balances.adds == tracker.adds - Members(hashes) && balances.subs == tracker.subs - Members(hashes)
    ensures var s := StartOf(books[|txns|], fee);
            && (ok <==> EveryCovered(s, hashes))
            && (forall w, c :: IsContractId(c) ==> balances.Place(w, c) == Stand(s, hashes, w, c))
            && (forall w, c :: IsContractId(c) ==> Balances(balances.View(RawKey(w, c)), books[|txns|], s, hashes, w, c))
  {
    hide ProperBlock, RanAll, RawKey, EveryCovered, Stand, WellKeyed, Balances;
    ContractsNamed(txns);
    tracker, books := Process(stored, txns);
    RecordsKeyed(stored, txns, books);
    balances := new BlockBalances(tracker.wallets, tracker.adds, tracker.subs);
    ok := balances.AddTempWalletBalance(hashes, fee);
    forall w, c | IsContractId(c)
      ensures Balances(balances.View(RawKey(w, c)), books[|txns|], StartOf(books[|txns|], fee), hashes, w, c)
    {
      assert balances.Place(w, c) == Stand(StartOf(books[|txns|], fee), hashes, w, c);
      ListBalances(stored, txns, books, fee, hashes, w, c);
    }
  }

  /** What a wallet has after a list was replayed, against the overlay b. */
  ghost predicate Balances(balance: nat, b: Books, s: Start, hashes: seq<Hash>, w: Str, c: Str) {
    var leftOut := SumSet(LeftOut(b, hashes), Shifts(s, w, c));
    && balance == Delivered(b, s.fee, w, c) - leftOut + Unpaid(s, hashes, w, c)
    && (Covered(s, hashes, w, c) ==>
          balance == Net(s, hashes, w, c) && (balance == Delivered(b, s.fee, w, c) <==> leftOut == 0))
  }

  lemma ListBalances(stored: map<Str, nat>, txns: seq<Txn>, books: seq<Books>, fee: Str, hashes: seq<Hash>, w: Str, c: Str)
    requires RanAll(stored, txns, books) && ProperBlock(txns) && Distinct(hashes) && IsContractId(c)
    ensures |books| == |txns| + 1
    ensures var s := StartOf(books[|txns|], fee);
            Balances(Stand(s, hashes, w, c).balance, books[|txns|], s, hashes, w, c)
  {
    hide ProperBlock, RanAll, Net, Stand, Unpaid, Covered, Delivered, AllPaid;
    NetOfList(stored, txns, books, |txns|, fee, hashes, w, c);
    StandIsNet(StartOf(books[|txns|], fee), hashes, w, c);
    PaidIfCovered(StartOf(books[|txns|], fee), hashes, w, c);
  }

  /** Replaying the first k transactions in processing order: no status is a failure, and every wallet
      gets the total it had after them. */
  method ReplayFirst(stored: map<Str, nat>, txns: seq<Txn>, k: nat, fee: Str)
      returns (balances: BlockBalances, ghost books: seq<Books>, ghost ok: bool)
    requires ProperBlock(txns) && k <= |txns|
    ensures RanAll(stored, txns, books) && ok
    ensures forall w, c :: IsContractId(c) ==> balances.View(RawKey(w, c)) == Delivered(books[k], fee, w, c)
  {
    hide ProperBlock, RanAll, RawKey, Covered, Stand, Balances, Delivered, Net;
    ContractsNamed(txns);
    var tracker;
    tracker, balances, books, ok := ProcessAndReplay(stored, txns, Hashes(txns)[..k], fee);
    StartsFresh(stored, txns, books);
    forall w, c | IsContractId(c)
      ensures Covered(StartOf(books[|txns|], fee), Hashes(txns)[..k], w, c)
      ensures balances.View(RawKey(w, c)) == Delivered(books[k], fee, w, c)
    {
      FirstCovered(stored, txns, books, k, fee, w, c);
      PaidIfCovered(StartOf(books[|txns|], fee), Hashes(txns)[..k], w, c);
      assert balances.Place(w, c) == Stand(StartOf(books[|txns|], fee), Hashes(txns)[..k], w, c);
    }
  }

  // ---- a wrong order and a gap --------------------------------------------------------------

  function OneEntry(w: Str, c: Str, amount: nat): Record { map[LedgerKey(w, c) := amount] }

  lemma AddRecorded(b: Books, b': Books, h: Hash, w: Str, c: Str, amount: nat)
    requires IsContractId(c) && h !in b.adds && Performed(b, b', h, Step(c, Add(w, amount)))
    ensures b'.adds == b.adds[h := OneEntry(w, c, amount)] && b'.subs == b.subs && b'.stored == b.stored
    ensures Exists(b', RawKey(w, c))
    ensures forall v :: TotalFor(b', v, c) == TotalFor(b, v, c) + if v == w then amount else 0
  {
    hide LedgerKey, RawKey, TotalFor;
    OneSent(Transfer(w, amount));
    var t := Transfer(w, amount);
    assert [t][0] == t;
    assert LedgerKeys([t], c) == {LedgerKey(w, c)};
    assert RecordOf(b.adds, h) == map[];
    assert AmountFor(b'.adds, h, w, c) == AmountFor(b.adds, h, w, c) + amount;
    SingleRecord(RecordOf(b'.adds, h), w, c, amount);
  }

  lemma SubtractRecorded(b: Books, b': Books, h: Hash, w: Str, c: Str, amount: nat)
    requires IsContractId(c) && h !in b.subs && Performed(b, b', h, Step(c, Subtract(w, amount)))
    requires Affordable(b, Transfer(w, amount), c)
    ensures b'.subs == b.subs[h := OneEntry(w, c, amount)] && b'.adds == b.adds && b'.stored == b.stored
    ensures forall v :: TotalFor(b', v, c) == TotalFor(b, v, c) - if v == w then amount else 0
  {
    hide LedgerKey, RawKey, TotalFor, Affordable;
    OneSent(Transfer(w, amount));
    var t := Transfer(w, amount);
    assert [t][0] == t;
    assert LedgerKeys([t], c) == {LedgerKey(w, c)};
    assert RecordOf(b.subs, h) == map[];
    assert AmountFor(b'.subs, h, w, c) == AmountFor(b.subs, h, w, c) + amount;
    SingleRecord(RecordOf(b'.subs, h), w, c, amount);
  }

  lemma SingleRecord(r: Record, w: Str, c: Str, amount: nat)
    requires r.Keys == {LedgerKey(w, c)} && Lookup(r, LedgerKey(w, c)) == amount
    ensures r == OneEntry(w, c, amount)
  {
    hide LedgerKey;
  }

  lemma OneSent(t: Transfer)
    ensures forall w :: Sent([t], w) == LastSent([t], w) == if w == t.wallet then t.amount else 0
  {
    forall w ensures Sent([t], w) == if w == t.wallet then t.amount else 0 {
      SentMore([], t);
      assert [] + [t] == [t];
    }
    OneLosesNothing(t);
  }

  /** Two payments of one token: v pays w, who has no record, and then w pays x. */
  function TwoPayments(v: Str, w: Str, x: Str, c: Str, h1: Hash, h2: Hash, fee: Str): Start {
    Start(map[RawKey(v, c) := 1], map[h1 := OneEntry(w, c, 1), h2 := OneEntry(x, c, 1)],
          map[h1 := OneEntry(v, c, 1), h2 := OneEntry(w, c, 1)], fee)
  }

  ghost predicate Parties(v: Str, w: Str, x: Str, c: Str, h1: Hash, h2: Hash) {
    && IsContractId(c) && h1 != h2 && v != w && w != x && x != v
    && v != PLACEHOLDER && w != PLACEHOLDER && x != PLACEHOLDER
  }

  /** One token from one wallet to another. */
  method PayOne(tracker: Tracker, from: Str, to: Str, c: Str, h: Hash)
    requires IsContractId(c) && h !in tracker.adds && h !in tracker.subs
    requires Affordable(tracker.State(), Transfer(from, 1), c)
    modifies tracker
    ensures tracker.adds == old(tracker.adds)[h := OneEntry(to, c, 1)] && tracker.subs == old(tracker.subs)[h := OneEntry(from, c, 1)]
    ensures Exists(tracker.State(), RawKey(to, c))
    ensures forall v :: TotalFor(tracker.State(), v, c)
                     == old(TotalFor(tracker.State(), v, c)) - (if v == from then 1 else 0) + if v == to then 1 else 0
  {
    hide Performed, LedgerKey, RawKey, Affordable, TotalFor, OneEntry;
    ghost var b0 := tracker.State();
    var _ := Perform(tracker, h, Step(c, Subtract(from, 1)));
    ghost var b1 := tracker.State();
    SubtractRecorded(b0, b1, h, from, c, 1);
    var _ := Perform(tracker, h, Step(c, Add(to, 1)));
    AddRecorded(b1, tracker.State(), h, to, c, 1);
  }

  method MakePayments(v: Str, w: Str, x: Str, c: Str, h1: Hash, h2: Hash, ghost fee: Str) returns (tracker: Tracker)
    requires Parties(v, w, x, c, h1, h2)
    ensures fresh(tracker) && StartOf(tracker.State(), fee) == TwoPayments(v, w, x, c, h1, h2, fee)
    ensures TotalFor(tracker.State(), v, c) == 0 && TotalFor(tracker.State(), w, c) == 0 && TotalFor(tracker.State(), x, c) == 1
  {
    hide LedgerKey, RawKey, PLACEHOLDER, OneEntry;
    PartiesApart(v, w, x, c, h1, h2);
    tracker := new Tracker(map[RawKey(v, c) := 1]);
    PayOne(tracker, v, w, c, h1);
    PayOne(tracker, w, x, c, h2);
  }

  lemma PartiesApart(v: Str, w: Str, x: Str, c: Str, h1: Hash, h2: Hash)
    requires Parties(v, w, x, c, h1, h2)
    ensures RawKey(v, c) != RawKey(w, c) && RawKey(w, c) != RawKey(x, c) && RawKey(x, c) != RawKey(v, c)
    ensures LedgerKey(v, c) != LedgerKey(w, c) && LedgerKey(w, c) != LedgerKey(x, c) && LedgerKey(x, c) != LedgerKey(v, c)
    ensures LedgerKey(PLACEHOLDER, c) !in {LedgerKey(v, c), LedgerKey(w, c), LedgerKey(x, c)}
  {
    hide RawKey, LedgerKey, PLACEHOLDER;
    forall y, z | y in {v, w, x} && z in {v, w, x, PLACEHOLDER} && y != z
      ensures LedgerKey(y, c) != LedgerKey(z, c) && RawKey(y, c) != RawKey(z, c)
    {
      if LedgerKey(y, c) == LedgerKey(z, c) { LedgerKeyInjective(y, c, z, c); }
      if RawKey(y, c) == RawKey(z, c) { RawKeyInjective(y, c, z, c); }
    }
  }

  /** Replayed the other way round, w's debit fails and w is credited after it: a token appears. */
  lemma WrongOrder(v: Str, w: Str, x: Str, c: Str, h1: Hash, h2: Hash, fee: Str)
    requires Parties(v, w, x, c, h1, h2)
    ensures var s := TwoPayments(v, w, x, c, h1, h2, fee);
            && !Covered(s, [h2, h1], w, c)
            && Stand(s, [h2, h1], v, c).balance == 0 && Stand(s, [h2, h1], w, c).balance == 1
            && Stand(s, [h2, h1], x, c).balance == 1
  {
    hide RawKey, LedgerKey, PLACEHOLDER;
    var s := TwoPayments(v, w, x, c, h1, h2, fee);
    Gap(v, w, x, c, h1, h2, fee);
    PartiesApart(v, w, x, c, h1, h2);
    assert [h2, h1][..1] == [h2];
    forall y | y in {v, w, x} ensures Stand(s, [h2, h1], y, c)
      == Paid(After(Stand(s, [h2], y, c), s.adds[h1], fee, y, c), s.subs[h1], y, c)
    {}
    PaidIfCovered(s, [h2, h1], w, c);
    PaidIfCovered(s, [h2], w, c);
  }

  /** Replayed without the first payment, w's debit fails as well: x has the token, and v still has it. */
  lemma Gap(v: Str, w: Str, x: Str, c: Str, h1: Hash, h2: Hash, fee: Str)
    requires Parties(v, w, x, c, h1, h2)
    ensures var s := TwoPayments(v, w, x, c, h1, h2, fee);
            && !Covered(s, [h2], w, c)
            && Stand(s, [h2], v, c) == Standing(true, 1) && Stand(s, [h2], w, c) == Standing(false, 0)
            && Stand(s, [h2], x, c) == Standing(true, 1)
  {
    hide RawKey, LedgerKey, PLACEHOLDER;
    var s := TwoPayments(v, w, x, c, h1, h2, fee);
    PartiesApart(v, w, x, c, h1, h2);
    assert [h2][..0] == [];
    forall y ensures Stand(s, [h2], y, c) == Paid(After(Stand(s, [], y, c), s.adds[h2], fee, y, c), s.subs[h2], y, c) {}
    PaidIfCovered(s, [h2], w, c);
  }

  /** Both on the real maps: the overlay holds one token in all, and each replay ends with two. */
  method TokenAppears(v: Str, w: Str, x: Str, c: Str, h1: Hash, h2: Hash, fee: Str)
      returns (tracker: Tracker, swapped: BlockBalances, gapped: BlockBalances, ghost ok1: bool, ghost ok2: bool)
    requires Parties(v, w, x, c, h1, h2)
    ensures TotalFor(tracker.State(), v, c) == 0 && TotalFor(tracker.State(), w, c) == 0 && TotalFor(tracker.State(), x, c) == 1
    ensures swapped.Place(v, c).balance == 0 && swapped.Place(w, c).balance == 1 && swapped.Place(x, c).balance == 1
    ensures gapped.Place(v, c).balance == 1 && gapped.Place(w, c).balance == 0 && gapped.Place(x, c).balance == 1
    ensures !ok1 && !ok2
  {
    hide RawKey, LedgerKey, PLACEHOLDER, Stand, Covered, Parties, TotalFor;
    tracker := MakePayments(v, w, x, c, h1, h2, fee);
    PaymentsKeyed(v, w, x, c, h1, h2, fee);
    ContractOf(v, w, x, c, h1, h2);
    WrongOrder(v, w, x, c, h1, h2, fee);
    Gap(v, w, x, c, h1, h2, fee);
    swapped := new BlockBalances(tracker.wallets, tracker.adds, tracker.subs);
    ok1 := swapped.AddTempWalletBalance([h2, h1], fee);
    gapped := new BlockBalances(tracker.wallets, tracker.adds, tracker.subs);
    ok2 := gapped.AddTempWalletBalance([h2], fee);
  }

  lemma ContractOf(v: Str, w: Str, x: Str, c: Str, h1: Hash, h2: Hash)
    requires Parties(v, w, x, c, h1, h2)
    ensures IsContractId(c) && h1 != h2
  {}

  lemma PaymentsKeyed(v: Str, w: Str, x: Str, c: Str, h1: Hash, h2: Hash, fee: Str)
    requires Parties(v, w, x, c, h1, h2)
    ensures var s := TwoPayments(v, w, x, c, h1, h2, fee); WellKeyed(s.adds) && WellKeyed(s.subs)
  {
    hide RawKey, LedgerKey, PLACEHOLDER;
  }
}
