/** The operations on the pending-balance ledger, one at a time and in batches. */
module BalanceTracker {
  import opened Ledger

  datatype Transfer = Transfer(wallet: Str, amount: nat)

  datatype Status = OK | INSUFFICIENT_AMOUNT | INVALID_WALLET_ADDRESS

  /** All that a list of transfers moves for a wallet, and what its last entry for it moves. */
  function Sent(ts: seq<Transfer>, wallet: Str): nat {
    if ts == [] then 0
    else Sent(ts[..|ts| - 1], wallet) + if ts[|ts| - 1].wallet == wallet then ts[|ts| - 1].amount else 0
  }

  function LastSent(ts: seq<Transfer>, wallet: Str): nat {
    if ts == [] then 0
    else if ts[|ts| - 1].wallet == wallet then ts[|ts| - 1].amount
    else LastSent(ts[..|ts| - 1], wallet)
  }

  ghost function SentTo(ts: seq<Transfer>): Str -> int { w => Sent(ts, w) }
  ghost function Last(ts: seq<Transfer>): Str -> int { w => LastSent(ts, w) }
  ghost function Negative(f: Str -> int): Str -> int { w => -f(w) }
  ghost function Nothing(): Str -> int { w => 0 }
  ghost function Only(wallet: Str, amount: int): Str -> int { w => if w == wallet then amount else 0 }

  /** Find the key and add to it, or insert it. */
  function Credit(r: Record, key: Str, amount: nat): Record {
    if key in r then r[key := r[key] + amount] else r[key := amount]
  }

  /** A record has grown by the amounts f for one contract, and is otherwise the same. */
  ghost predicate Grown(r: Record, r': Record, contract: Str, f: Str -> int) {
    forall w, c :: IsContractId(c) ==>
      Lookup(r', LedgerKey(w, c)) == Lookup(r, LedgerKey(w, c)) + (if c == contract then f(w) else 0)
  }

  lemma CreditGrows(r: Record, wallet: Str, contract: Str, amount: nat)
    requires IsContractId(contract)
    ensures Grown(r, Credit(r, LedgerKey(wallet, contract), amount), contract, Only(wallet, amount))
    ensures Credit(r, LedgerKey(wallet, contract), amount).Keys == r.Keys + {LedgerKey(wallet, contract)}
  {
    hide LedgerKey;
    forall w, c | IsContractId(c) && LedgerKey(w, c) == LedgerKey(wallet, contract)
      ensures w == wallet && c == contract
    {
      LedgerKeyInjective(w, c, wallet, contract);
    }
  }

  lemma GrownMore(r: Record, r1: Record, r2: Record, contract: Str, ts: seq<Transfer>, t: Transfer)
    requires Grown(r, r1, contract, SentTo(ts)) && Grown(r1, r2, contract, Only(t.wallet, t.amount))
    ensures Grown(r, r2, contract, SentTo(ts + [t]))
  {
    hide LedgerKey;
    assert (ts + [t])[..|ts|] == ts;
  }

  /** A pending batch of totals for one contract: stored over the books, it changes them by f. */
  ghost predicate Pending(b: Books, batch: map<Str, nat>, contract: Str, f: Str -> int) {
    forall w, c :: IsContractId(c) ==>
      TotalFor(b.(processed := b.processed + batch), w, c)
      == TotalFor(b, w, c) + (if c == contract then f(w) else 0)
  }

  /** Putting one more total into the batch changes that wallet's entry only. */
  lemma PutPending(b: Books, batch: map<Str, nat>, contract: Str, f: Str -> int, wallet: Str, balance: nat, g: Str -> int)
    requires IsContractId(contract) && Pending(b, batch, contract, f)
    requires forall w :: w != wallet ==> g(w) == f(w)
    requires balance == TotalFor(b, wallet, contract) + g(wallet)
    ensures Pending(b, batch[RawKey(wallet, contract) := balance], contract, g)
  {
    hide RawKey;
    var more := batch[RawKey(wallet, contract) := balance];
    forall w, c | IsContractId(c)
      ensures TotalFor(b.(processed := b.processed + more), w, c)
           == if w == wallet && c == contract then balance
              else TotalFor(b.(processed := b.processed + batch), w, c)
    {
      if RawKey(w, c) == RawKey(wallet, contract) {
        RawKeyInjective(w, c, wallet, contract);
      }
    }
  }

  lemma EmptyPending(b: Books, contract: Str, f: Str -> int)
    requires forall w :: f(w) == 0
    ensures Pending(b, map[], contract, f)
  {
    assert b.processed + map[] == b.processed;
  }

  /** Storing a grown record and a pending batch is one move of the books. */
  lemma StoreMoves(b: Books, h: Hash, contract: Str, r: Record, batch: map<Str, nat>, adding: bool,
                   f: Str -> int, change: Str -> int)
    requires Pending(b, batch, contract, change)
    requires Grown(RecordOf(if adding then b.adds else b.subs, h), r, contract, f)
    ensures Moved(b, Stored(b, h, r, batch, adding), h, contract,
                  if adding then f else Nothing(), if adding then Nothing() else f, change)
  {
    hide Recorded, Grown, RecordOf, LedgerKey, RawKey;
    var b' := Stored(b, h, r, batch, adding);
    StoreRecords(if adding then b.adds else b.subs, h, contract, r, f);
    KeepRecords(if adding then b.subs else b.adds, h, contract);
    assert forall w, c :: TotalFor(b', w, c) == TotalFor(b.(processed := b.processed + batch), w, c);
  }

  lemma StoreRecords(ledgers: map<Hash, Record>, h: Hash, contract: Str, r: Record, f: Str -> int)
    requires Grown(RecordOf(ledgers, h), r, contract, f)
    ensures Recorded(ledgers, ledgers[h := r], h, contract, f)
  {
    hide LedgerKey;
  }

  lemma KeepRecords(ledgers: map<Hash, Record>, h: Hash, contract: Str)
    ensures Recorded(ledgers, ledgers, h, contract, Nothing())
  {
    hide LedgerKey;
  }

  function RecordOf(ledgers: map<Hash, Record>, h: Hash): Record {
    if h in ledgers then ledgers[h] else map[]
  }

  /** The books after storing a record under h together with a batch of totals. */
  function Stored(b: Books, h: Hash, r: Record, batch: map<Str, nat>, adding: bool): Books {
    Books(b.stored, b.processed + batch,
          if adding then b.adds[h := r] else b.adds,
          if adding then b.subs else b.subs[h := r],
          if h in b.order then b.order else b.order + [h])
  }

  /** The keys under which a list of transfers is recorded, and under which its totals are. */
  function LedgerKeys(ts: seq<Transfer>, contract: Str): set<Str> { set t | t in ts :: LedgerKey(t.wallet, contract) }
  function RawKeys(ts: seq<Transfer>, contract: Str): set<Str> { set t | t in ts :: RawKey(t.wallet, contract) }

  lemma KeysMore(ts: seq<Transfer>, t: Transfer, contract: Str)
    ensures LedgerKeys(ts + [t], contract) == LedgerKeys(ts, contract) + {LedgerKey(t.wallet, contract)}
    ensures RawKeys(ts + [t], contract) == RawKeys(ts, contract) + {RawKey(t.wallet, contract)}
  {
    hide LedgerKey, RawKey;
    assert forall x :: x in ts + [t] <==> x in ts || x == t;
  }

  /** Which records and totals an operation creates or touches; a debited wallet had a total before. */
  ghost predicate Touched(b: Books, b': Books, h: Hash, contract: Str, ts: seq<Transfer>, adding: bool) {
    && b'.processed.Keys == b.processed.Keys + RawKeys(ts, contract)
    && (adding ==>
        && b'.subs == b.subs && b'.adds == b.adds[h := RecordOf(b'.adds, h)]
        && RecordOf(b'.adds, h).Keys == RecordOf(b.adds, h).Keys + LedgerKeys(ts, contract))
    && (!adding ==>
        && b'.adds == b.adds && b'.subs == b.subs[h := RecordOf(b'.subs, h)]
        && RecordOf(b'.subs, h).Keys == RecordOf(b.subs, h).Keys + LedgerKeys(ts, contract)
        && forall i :: 0 <= i < |ts| ==> Exists(b, RawKey(ts[i].wallet, contract)))
  }

  lemma StoreTouches(b: Books, h: Hash, contract: Str, r: Record, batch: map<Str, nat>, adding: bool, ts: seq<Transfer>)
    requires r.Keys == RecordOf(if adding then b.adds else b.subs, h).Keys + LedgerKeys(ts, contract)
    requires batch.Keys == RawKeys(ts, contract)
    requires !adding ==> forall i :: 0 <= i < |ts| ==> Exists(b, RawKey(ts[i].wallet, contract))
    ensures Touched(b, Stored(b, h, r, batch, adding), h, contract, ts, adding)
  {
    hide LedgerKeys, RawKeys;
  }

  /** Half-way through a batch: the record and the totals after the transfers ts. */
  ghost predicate Working(b: Books, before: Record, r: Record, batch: map<Str, nat>, contract: Str, ts: seq<Transfer>,
                          change: Str -> int) {
    && Grown(before, r, contract, SentTo(ts)) && Pending(b, batch, contract, change)
    && r.Keys == before.Keys + LedgerKeys(ts, contract) && batch.Keys == RawKeys(ts, contract)
  }

  lemma WorkingStart(b: Books, r: Record, contract: Str, ts: seq<Transfer>, change: Str -> int)
    requires ts == [] && forall w :: change(w) == 0
    ensures Working(b, r, r, map[], contract, ts, change)
  {
    EmptyPending(b, contract, change);
  }

  lemma WorkingStep(b: Books, before: Record, r: Record, batch: map<Str, nat>, contract: Str, ts: seq<Transfer>,
                    change: Str -> int, t: Transfer, balance: nat, change': Str -> int)
    requires IsContractId(contract) && Working(b, before, r, batch, contract, ts, change)
    requires forall w :: w != t.wallet ==> change'(w) == change(w)
    requires balance == TotalFor(b, t.wallet, contract) + change'(t.wallet)
    ensures Working(b, before, Credit(r, LedgerKey(t.wallet, contract), t.amount),
                    batch[RawKey(t.wallet, contract) := balance], contract, ts + [t], change')
  {
    hide Grown, Pending, Credit, LedgerKey, RawKey, LedgerKeys, RawKeys;
    CreditGrows(r, t.wallet, contract, t.amount);
    GrownMore(before, r, Credit(r, LedgerKey(t.wallet, contract), t.amount), contract, ts, t);
    PutPending(b, batch, contract, change, t.wallet, balance, change');
    KeysMore(ts, t, contract);
  }

  lemma WorkingStore(b: Books, h: Hash, r: Record, batch: map<Str, nat>, contract: Str, ts: seq<Transfer>,
                     change: Str -> int, adding: bool)
    requires Working(b, RecordOf(if adding then b.adds else b.subs, h), r, batch, contract, ts, change)
    requires !adding ==> forall i :: 0 <= i < |ts| ==> Exists(b, RawKey(ts[i].wallet, contract))
    ensures Moved(b, Stored(b, h, r, batch, adding), h, contract,
                  if adding then SentTo(ts) else Nothing(), if adding then Nothing() else SentTo(ts), change)
    ensures Touched(b, Stored(b, h, r, batch, adding), h, contract, ts, adding)
  {
    hide Moved, Touched, Grown, Pending, LedgerKeys, RawKeys;
    StoreMoves(b, h, contract, r, batch, adding, SentTo(ts), change);
    StoreTouches(b, h, contract, r, batch, adding, ts);
  }

  /** The wallet has a record that covers the transfer. */
  predicate Affordable(b: Books, t: Transfer, contract: Str) {
    Exists(b, RawKey(t.wallet, contract)) && t.amount <= TotalFor(b, t.wallet, contract)
  }

  class Tracker {
    const wallets: map<Str, nat>
    var processed: map<Str, nat>
    var adds: map<Hash, Record>
    var subs: map<Hash, Record>
    ghost var order: seq<Hash>

    ghost function State(): Books
      reads this
    {
      Books(wallets, processed, adds, subs, order)
    }

    constructor (stored: map<Str, nat>)
      ensures wallets == stored && processed == map[] && adds == map[] && subs == map[] && order == []
      ensures Listed(State()) && Balanced(State())
    {
      wallets := stored;
      processed, adds, subs, order := map[], map[], map[], [];
    }

    method GetTotal(key: Str) returns (found: bool, balance: nat)
      ensures found == Exists(State(), key) && balance == Total(State(), key)
    {
      if key in processed {
        return true, processed[key];
      }
      if key in wallets {
        return true, wallets[key];
      }
      return false, 0;
    }

    /** add_txn_balance */
    method AddTxnBalance(wallet: Str, contract: Str, amount: nat, hash: Hash)
      requires IsContractId(contract)
      modifies this
      ensures Moved(old(State()), State(), hash, contract, Only(wallet, amount), Nothing(), Only(wallet, amount))
      ensures Touched(old(State()), State(), hash, contract, [Transfer(wallet, amount)], true)
    {
      hide Moved, Touched, Total, Credit, LedgerKey, RawKey;
      var walletBalances := RecordOf(adds, hash);
      walletBalances := Credit(walletBalances, LedgerKey(wallet, contract), amount);
      var _, balance := GetTotal(RawKey(wallet, contract));
      balance := balance + amount;
      SingleMove(State(), hash, wallet, contract, amount, true, amount, balance);
      adds := adds[hash := walletBalances];
      processed := processed[RawKey(wallet, contract) := balance];
      order := if hash in order then order else order + [hash];
    }

    /** subtract_txn_balance */
    method SubtractTxnBalance(wallet: Str, contract: Str, amount: nat, hash: Hash) returns (status: Status)
      requires IsContractId(contract)
      modifies this
      ensures status == (if !Exists(old(State()), RawKey(wallet, contract)) then INVALID_WALLET_ADDRESS
                         else if old(TotalFor(State(), wallet, contract)) < amount then INSUFFICIENT_AMOUNT else OK)
      ensures status == OK ==>
        Moved(old(State()), State(), hash, contract, Nothing(), Only(wallet, amount), Only(wallet, 0 - amount))
      ensures status == OK ==> Touched(old(State()), State(), hash, contract, [Transfer(wallet, amount)], false)
      ensures status != OK ==> State() == old(State())
    {
      hide Moved, Touched, Credit, LedgerKey, RawKey;
      var found, balance := GetTotal(RawKey(wallet, contract));
      if found {
        if balance < amount {
          return INSUFFICIENT_AMOUNT;
        }
        balance := balance - amount;
      } else {
        return INVALID_WALLET_ADDRESS;
      }
      var walletBalances := RecordOf(subs, hash);
      walletBalances := Credit(walletBalances, LedgerKey(wallet, contract), amount);
      SingleMove(State(), hash, wallet, contract, amount, false, 0 - amount, balance);
      processed := processed[RawKey(wallet, contract) := balance];
      subs := subs[hash := walletBalances];
      order := if hash in order then order else order + [hash];
      status := OK;
    }

    /** Read a record and a batch back into the store. */
    method StoreBatch(hash: Hash, walletBalances: Record, batch: map<Str, nat>, adding: bool)
      modifies this
      ensures State() == Stored(old(State()), hash, walletBalances, batch, adding)
    {
      if adding {
        adds := adds[hash := walletBalances];
      } else {
        subs := subs[hash := walletBalances];
      }
      processed := processed + batch;
      order := if hash in order then order else order + [hash];
    }

    /** add_txn_balance_transfer: totals already in the batch are updated there. */
    method AddTxnBalanceTransfer(transfers: seq<Transfer>, contract: Str, hash: Hash)
      requires IsContractId(contract)
      modifies this
      ensures Moved(old(State()), State(), hash, contract, SentTo(transfers), Nothing(), SentTo(transfers))
      ensures Touched(old(State()), State(), hash, contract, transfers, true)
    {
      hide Moved, Touched, Working, Credit, LedgerKey, RawKey, Total;
      ghost var b := State();
      var walletBalances := RecordOf(adds, hash);
      var batch: map<Str, nat> := map[];
      WorkingStart(b, walletBalances, contract, transfers[..0], SentTo(transfers[..0]));
      for i := 0 to |transfers|
        invariant State() == b
        invariant Working(b, RecordOf(b.adds, hash), walletBalances, batch, contract, transfers[..i], SentTo(transfers[..i]))
      {
        var transfer := transfers[i];
        var walletKey := RawKey(transfer.wallet, contract);
        var _, balance := GetTotal(walletKey);
        if walletKey in batch {
          balance := batch[walletKey];
        }
        balance := balance + transfer.amount;
        assert transfers[..i + 1] == transfers[..i] + [transfer];
        SentMore(transfers[..i], transfer);
        WorkingTotal(b, RecordOf(b.adds, hash), walletBalances, batch, contract, transfers[..i], SentTo(transfers[..i]), transfer.wallet);
        WorkingStep(b, RecordOf(b.adds, hash), walletBalances, batch, contract, transfers[..i], SentTo(transfers[..i]),
                    transfer, balance, SentTo(transfers[..i + 1]));
        walletBalances := Credit(walletBalances, LedgerKey(transfer.wallet, contract), transfer.amount);
        batch := batch[walletKey := balance];
      }
      assert transfers[..|transfers|] == transfers;
      WorkingStore(b, hash, walletBalances, batch, contract, transfers, SentTo(transfers), true);
      StoreBatch(hash, walletBalances, batch, true);
    }

    /** add_txn_balance_premint: every total is read from the store, so of several entries for one
        wallet only the last reaches the total. */
    method AddTxnBalancePremint(premints: seq<Transfer>, contract: Str, hash: Hash)
      requires IsContractId(contract)
      modifies this
      ensures Moved(old(State()), State(), hash, contract, SentTo(premints), Nothing(), Last(premints))
      ensures Touched(old(State()), State(), hash, contract, premints, true)
    {
      hide Moved, Touched, Working, Credit, LedgerKey, RawKey;
      ghost var b := State();
      var walletBalances := RecordOf(adds, hash);
      var batch: map<Str, nat> := map[];
      WorkingStart(b, walletBalances, contract, premints[..0], Last(premints[..0]));
      for i := 0 to |premints|
        invariant State() == b
        invariant Working(b, RecordOf(b.adds, hash), walletBalances, batch, contract, premints[..i], Last(premints[..i]))
      {
        var premint := premints[i];
        var walletKey := RawKey(premint.wallet, contract);
        var _, balance := GetTotal(walletKey);
        balance := balance + premint.amount;
        assert premints[..i + 1] == premints[..i] + [premint];
        SentMore(premints[..i], premint);
        WorkingStep(b, RecordOf(b.adds, hash), walletBalances, batch, contract, premints[..i], Last(premints[..i]),
                    premint, balance, Last(premints[..i + 1]));
        walletBalances := Credit(walletBalances, LedgerKey(premint.wallet, contract), premint.amount);
        batch := batch[walletKey := balance];
      }
      assert premints[..|premints|] == premints;
      WorkingStore(b, hash, walletBalances, batch, contract, premints, Last(premints), true);
      StoreBatch(hash, walletBalances, batch, true);
    }

    /** subtract_txn_balance_transfer: `done` inputs were taken before an input of a wallet without
        a record; those are stored all the same. Too small a balance stores nothing. */
    method SubtractTxnBalanceTransfer(transfers: seq<Transfer>, contract: Str, hash: Hash)
        returns (status: Status, ghost done: nat)
      requires IsContractId(contract)
      modifies this
      ensures done <= |transfers| && (status == OK <==> done == |transfers|)
      ensures status == INVALID_WALLET_ADDRESS ==> !Exists(old(State()), RawKey(transfers[done].wallet, contract))
      ensures status == INSUFFICIENT_AMOUNT ==>
        && State() == old(State()) && !Affordable(State(), transfers[done], contract)
        && Exists(State(), RawKey(transfers[done].wallet, contract))
      ensures status != INSUFFICIENT_AMOUNT ==>
        && Moved(old(State()), State(), hash, contract, Nothing(), SentTo(transfers[..done]), Negative(Last(transfers[..done])))
        && Touched(old(State()), State(), hash, contract, transfers[..done], false)
      ensures forall i :: 0 <= i < done ==> Affordable(old(State()), transfers[i], contract)
    {
      hide Moved, Touched, Working, Credit, LedgerKey, RawKey;
      ghost var b := State();
      var walletBalances := RecordOf(subs, hash);
      var batch: map<Str, nat> := map[];
      WorkingStart(b, walletBalances, contract, transfers[..0], Negative(Last(transfers[..0])));
      for i := 0 to |transfers|
        invariant State() == b && forall k :: 0 <= k < i ==> Affordable(b, transfers[k], contract)
        invariant Working(b, RecordOf(b.subs, hash), walletBalances, batch, contract, transfers[..i], Negative(Last(transfers[..i])))
      {
        var transfer := transfers[i];
        var walletKey := RawKey(transfer.wallet, contract);
        var found, balance := GetTotal(walletKey);
        if found {
          if balance < transfer.amount {
            return INSUFFICIENT_AMOUNT, i;
          }
          balance := balance - transfer.amount;
        } else {
          WorkingStore(b, hash, walletBalances, batch, contract, transfers[..i], Negative(Last(transfers[..i])), false);
          StoreBatch(hash, walletBalances, batch, false);
          return INVALID_WALLET_ADDRESS, i;
        }
        assert transfers[..i + 1] == transfers[..i] + [transfer];
        SentMore(transfers[..i], transfer);
        WorkingStep(b, RecordOf(b.subs, hash), walletBalances, batch, contract, transfers[..i],
                    Negative(Last(transfers[..i])), transfer, balance, Negative(Last(transfers[..i + 1])));
        walletBalances := Credit(walletBalances, LedgerKey(transfer.wallet, contract), transfer.amount);
        batch := batch[walletKey := balance];
      }
      assert transfers[..|transfers|] == transfers;
      WorkingStore(b, hash, walletBalances, batch, contract, transfers, Negative(Last(transfers)), false);
      StoreBatch(hash, walletBalances, batch, false);
      return OK, |transfers|;
    }
  }

  /** One credit and one new total: the move of a single operation. */
  lemma SingleMove(b: Books, h: Hash, wallet: Str, contract: Str, amount: nat, adding: bool, change: int, balance: nat)
    requires IsContractId(contract) && balance == TotalFor(b, wallet, contract) + change
    requires adding || Exists(b, RawKey(wallet, contract))
    ensures b.processed[RawKey(wallet, contract) := balance] == b.processed + map[RawKey(wallet, contract) := balance]
    ensures var r := Credit(RecordOf(if adding then b.adds else b.subs, h), LedgerKey(wallet, contract), amount);
            var b' := Stored(b, h, r, map[RawKey(wallet, contract) := balance], adding);
            && Moved(b, b', h, contract, if adding then Only(wallet, amount) else Nothing(),
                     if adding then Nothing() else Only(wallet, amount), Only(wallet, change))
            && Touched(b, b', h, contract, [Transfer(wallet, amount)], adding)
  {
    hide Moved, Touched, Grown, Pending, Credit, LedgerKey, RawKey, LedgerKeys, RawKeys;
    var before := RecordOf(if adding then b.adds else b.subs, h);
    var r, batch := Credit(before, LedgerKey(wallet, contract), amount), map[RawKey(wallet, contract) := balance];
    CreditGrows(before, wallet, contract, amount);
    EmptyPending(b, contract, Nothing());
    PutPending(b, map[], contract, Nothing(), wallet, balance, Only(wallet, change));
    StoreMoves(b, h, contract, r, batch, adding, Only(wallet, amount), Only(wallet, change));
    KeysMore([], Transfer(wallet, amount), contract);
    KeysNone(contract);
    assert [] + [Transfer(wallet, amount)] == [Transfer(wallet, amount)];
    StoreTouches(b, h, contract, r, batch, adding, [Transfer(wallet, amount)]);
  }

  lemma KeysNone(contract: Str)
    ensures LedgerKeys([], contract) == {} && RawKeys([], contract) == {}
  {}

  lemma SentMore(ts: seq<Transfer>, t: Transfer)
    ensures forall w :: Sent(ts + [t], w) == Sent(ts, w) + if w == t.wallet then t.amount else 0
    ensures forall w :: LastSent(ts + [t], w) == if w == t.wallet then t.amount else LastSent(ts, w)
  {
    assert (ts + [t])[..|ts|] == ts;
  }

  /** What is in the batch, or else in the store, is the pending total. */
  lemma WorkingTotal(b: Books, before: Record, r: Record, batch: map<Str, nat>, contract: Str, ts: seq<Transfer>,
                     f: Str -> int, wallet: Str)
    requires IsContractId(contract) && Working(b, before, r, batch, contract, ts, f)
    ensures var key := RawKey(wallet, contract);
            (if key in batch then batch[key] else Total(b, key)) == TotalFor(b, wallet, contract) + f(wallet)
  {
    assert TotalFor(b.(processed := b.processed + batch), wallet, contract) == TotalFor(b, wallet, contract) + f(wallet);
  }

  // ---- what the operations keep -------------------------------------------------------------

  /** No wallet is named by two entries of which the earlier moves something. */
  ghost predicate NothingLost(ts: seq<Transfer>) {
    forall i, j :: 0 <= i < j < |ts| && ts[i].wallet == ts[j].wallet ==> ts[i].amount == 0
  }

  lemma {:induction false} LastIsAll(ts: seq<Transfer>)
    ensures NothingLost(ts) ==> forall w :: Sent(ts, w) == LastSent(ts, w)
    ensures (forall w :: LastSent(ts, w) <= Sent(ts, w)) && forall i :: 0 <= i < |ts| ==> ts[i].amount <= Sent(ts, ts[i].wallet)
    decreases |ts|
  {
    if ts != [] {
      var n := |ts| - 1;
      var front, t := ts[..n], ts[n];
      assert ts == front + [t];
      SentMore(front, t);
      LastIsAll(front);
      if NothingLost(ts) {
        assert NothingLost(front);
        NothingSent(front, t.wallet);
      }
    }
  }

  lemma {:induction false} NothingSent(ts: seq<Transfer>, w: Str)
    requires forall i :: 0 <= i < |ts| && ts[i].wallet == w ==> ts[i].amount == 0
    ensures Sent(ts, w) == 0
  {
    if ts != [] { NothingSent(ts[..|ts| - 1], w); }
  }

  lemma {:induction false} LostSomething(ts: seq<Transfer>, i: nat, j: nat)
    requires i < j < |ts| && ts[i].wallet == ts[j].wallet && ts[i].amount > 0
    ensures LastSent(ts, ts[i].wallet) < Sent(ts, ts[i].wallet)
    decreases |ts|
  {
    var n := |ts| - 1;
    var front, t := ts[..n], ts[n];
    assert ts == front + [t];
    SentMore(front, t);
    LastIsAll(front);
    assert front[i] == ts[i];
    if t.wallet != ts[i].wallet {
      LostSomething(front, i, j);
    }
  }

  /** The last entry per wallet moves everything exactly if no earlier entry for it moves anything. */
  lemma LastMovesAll(ts: seq<Transfer>)
    ensures NothingLost(ts) <==> forall w :: Sent(ts, w) == LastSent(ts, w)
  {
    LastIsAll(ts);
    if !NothingLost(ts) {
      var i, j :| 0 <= i < j < |ts| && ts[i].wallet == ts[j].wallet && ts[i].amount != 0;
      LostSomething(ts, i, j);
    }
  }

  /** Single operations and batched outputs keep the ledger balanced. */
  lemma AddingKeepsBalance(b: Books, b': Books, h: Hash, contract: Str, f: Str -> int)
    requires Listed(b) && Balanced(b) && IsContractId(contract)
    requires Moved(b, b', h, contract, f, Nothing(), f)
    ensures Listed(b') && Balanced(b')
  {
    ListedMoves(b, b', h, contract, f, Nothing(), f);
    MovedBalance(b, b', h, contract, f, Nothing(), f);
  }

  lemma SubtractingKeepsBalance(b: Books, b': Books, h: Hash, contract: Str, wallet: Str, amount: nat)
    requires Listed(b) && Balanced(b) && IsContractId(contract)
    requires Moved(b, b', h, contract, Nothing(), Only(wallet, amount), Only(wallet, 0 - amount))
    ensures Listed(b') && Balanced(b')
  {
    ListedMoves(b, b', h, contract, Nothing(), Only(wallet, amount), Only(wallet, 0 - amount));
    MovedBalance(b, b', h, contract, Nothing(), Only(wallet, amount), Only(wallet, 0 - amount));
  }

  /** A batch of inputs, complete or cut short by a wallet without a record, keeps the ledger
      balanced exactly if no wallet was debited twice. */
  lemma InputBatchBalance(b: Books, b': Books, h: Hash, contract: Str, ts: seq<Transfer>)
    requires Listed(b) && Balanced(b) && IsContractId(contract)
    requires Moved(b, b', h, contract, Nothing(), SentTo(ts), Negative(Last(ts)))
    ensures Listed(b') && (Balanced(b') <==> NothingLost(ts))
  {
    ListedMoves(b, b', h, contract, Nothing(), SentTo(ts), Negative(Last(ts)));
    MovedBalance(b, b', h, contract, Nothing(), SentTo(ts), Negative(Last(ts)));
    LastMovesAll(ts);
    hide Moved, Balanced, NothingLost;
    if NothingLost(ts) {
      forall w ensures Negative(Last(ts))(w) == Nothing()(w) - SentTo(ts)(w) {
        assert Sent(ts, w) == LastSent(ts, w);
      }
    }
    if Balanced(b') {
      forall w ensures Sent(ts, w) == LastSent(ts, w) {
        assert Negative(Last(ts))(w) == Nothing()(w) - SentTo(ts)(w);
      }
    }
  }

  /** The same for a premint. */
  lemma PremintBalance(b: Books, b': Books, h: Hash, contract: Str, ts: seq<Transfer>)
    requires Listed(b) && Balanced(b) && IsContractId(contract)
    requires Moved(b, b', h, contract, SentTo(ts), Nothing(), Last(ts))
    ensures Listed(b') && (Balanced(b') <==> NothingLost(ts))
  {
    ListedMoves(b, b', h, contract, SentTo(ts), Nothing(), Last(ts));
    MovedBalance(b, b', h, contract, SentTo(ts), Nothing(), Last(ts));
    LastMovesAll(ts);
    hide Moved, Balanced, NothingLost;
    if NothingLost(ts) {
      forall w ensures Last(ts)(w) == SentTo(ts)(w) - Nothing()(w) {
        assert Sent(ts, w) == LastSent(ts, w);
      }
    }
    if Balanced(b') {
      forall w ensures Sent(ts, w) == LastSent(ts, w) {
        assert Last(ts)(w) == SentTo(ts)(w) - Nothing()(w);
      }
    }
  }

  /** Minting one token twice for a wallet: two are recorded, and its total is one. */
  method PremintTwice(wallet: Str, contract: Str, hash: Hash) returns (tracker: Tracker)
    requires IsContractId(contract)
    ensures fresh(tracker) && !Balanced(tracker.State())
    ensures TotalFor(tracker.State(), wallet, contract) == 1 && AmountFor(tracker.State().adds, hash, wallet, contract) == 2
  {
    hide Touched, Balanced, LedgerKey;
    tracker := new Tracker(map[]);
    ghost var b := tracker.State();
    var t := Transfer(wallet, 1);
    tracker.AddTxnBalancePremint([t, t], contract, hash);
    TwiceOne(wallet);
    assert [t, t][0].wallet == [t, t][1].wallet;
    PremintBalance(b, tracker.State(), hash, contract, [t, t]);
  }

  /** A wallet that holds one token pays two of them. */
  method PayTwice(wallet: Str, contract: Str, hash: Hash) returns (tracker: Tracker, status: Status)
    requires IsContractId(contract)
    ensures status == OK && fresh(tracker) && !Balanced(tracker.State())
    ensures TotalFor(tracker.State(), wallet, contract) == 0 && AmountFor(tracker.State().subs, hash, wallet, contract) == 2
  {
    hide Touched, Balanced, LedgerKey;
    tracker := new Tracker(map[RawKey(wallet, contract) := 1]);
    ghost var b := tracker.State();
    var t := Transfer(wallet, 1);
    ghost var done;
    status, done := tracker.SubtractTxnBalanceTransfer([t, t], contract, hash);
    TwiceOne(wallet);
    assert [t, t][0].wallet == [t, t][1].wallet;
    assert [t, t][..2] == [t, t];
    InputBatchBalance(b, tracker.State(), hash, contract, [t, t]);
  }

  lemma TwiceOne(wallet: Str)
    ensures Sent([Transfer(wallet, 1), Transfer(wallet, 1)], wallet) == 2
    ensures LastSent([Transfer(wallet, 1), Transfer(wallet, 1)], wallet) == 1
  {
    var t := Transfer(wallet, 1);
    assert [t, t] == [] + [t] + [t];
    SentMore([], t);
    SentMore([] + [t], t);
  }

  /** Two moves under the same hash are one move of the sums. */
  lemma MovesCompose(b: Books, b1: Books, b2: Books, h: Hash, contract: Str,
                     a1: Str -> int, s1: Str -> int, c1: Str -> int, a2: Str -> int, s2: Str -> int, c2: Str -> int,
                     a: Str -> int, s: Str -> int, c: Str -> int)
    requires Moved(b, b1, h, contract, a1, s1, c1) && Moved(b1, b2, h, contract, a2, s2, c2)
    requires forall w :: a(w) == a1(w) + a2(w) && s(w) == s1(w) + s2(w) && c(w) == c1(w) + c2(w)
    ensures Moved(b, b2, h, contract, a, s, c)
  {
    RecordsCompose(b.adds, b1.adds, b2.adds, h, contract, a1, a2, a);
    RecordsCompose(b.subs, b1.subs, b2.subs, h, contract, s1, s2, s);
    hide Recorded;
    forall w, d | IsContractId(d)
      ensures TotalFor(b2, w, d) == TotalFor(b, w, d) + (if d == contract then c(w) else 0)
    {
      assert TotalFor(b1, w, d) == TotalFor(b, w, d) + (if d == contract then c1(w) else 0);
    }
  }

  lemma RecordsCompose(l: map<Hash, Record>, l1: map<Hash, Record>, l2: map<Hash, Record>, h: Hash, contract: Str,
                       f1: Str -> int, f2: Str -> int, f: Str -> int)
    requires Recorded(l, l1, h, contract, f1) && Recorded(l1, l2, h, contract, f2)
    requires forall w :: f(w) == f1(w) + f2(w)
    ensures Recorded(l, l2, h, contract, f)
  {
    hide AmountFor;
    forall g, w, c | IsContractId(c)
      ensures AmountFor(l2, g, w, c) == AmountFor(l, g, w, c) + (if g == h && c == contract then f(w) else 0)
    {
      assert AmountFor(l1, g, w, c) == AmountFor(l, g, w, c) + (if g == h && c == contract then f1(w) else 0);
    }
  }

  /** Output transfers one at a time: the move is the one of the batch. */
  method AddOneByOne(tracker: Tracker, transfers: seq<Transfer>, contract: Str, hash: Hash)
    requires IsContractId(contract) && |transfers| > 0
    modifies tracker
    ensures Moved(old(tracker.State()), tracker.State(), hash, contract, SentTo(transfers), Nothing(), SentTo(transfers))
  {
    hide Moved, Touched, Sent;
    ghost var b := tracker.State();
    tracker.AddTxnBalance(transfers[0].wallet, contract, transfers[0].amount, hash);
    OneTransfer(b, tracker.State(), hash, contract, transfers[0]);
    assert transfers[..1] == [transfers[0]];
    for i := 1 to |transfers|
      invariant Moved(b, tracker.State(), hash, contract, SentTo(transfers[..i]), Nothing(), SentTo(transfers[..i]))
    {
      var t := transfers[i];
      ghost var b1 := tracker.State();
      tracker.AddTxnBalance(t.wallet, contract, t.amount, hash);
      SentMore(transfers[..i], t);
      assert transfers[..i + 1] == transfers[..i] + [t];
      MovesCompose(b, b1, tracker.State(), hash, contract,
                   SentTo(transfers[..i]), Nothing(), SentTo(transfers[..i]),
                   Only(t.wallet, t.amount), Nothing(), Only(t.wallet, t.amount),
                   SentTo(transfers[..i + 1]), Nothing(), SentTo(transfers[..i + 1]));
    }
    assert transfers[..|transfers|] == transfers;
  }

  lemma OneTransfer(b: Books, b': Books, h: Hash, contract: Str, t: Transfer)
    requires Moved(b, b', h, contract, Only(t.wallet, t.amount), Nothing(), Only(t.wallet, t.amount))
    ensures Moved(b, b', h, contract, SentTo([t]), Nothing(), SentTo([t]))
  {
    assert forall w :: SentTo([t])(w) == Only(t.wallet, t.amount)(w) by {
      SentMore([], t);
      assert [] + [t] == [t];
    }
  }

  ghost predicate DistinctWallets(ts: seq<Transfer>) {
    forall i, j :: 0 <= i < j < |ts| ==> ts[i].wallet != ts[j].wallet
  }

  /** Input transfers of distinct wallets one at a time, all of them affordable. */
  method SubtractOneByOne(tracker: Tracker, transfers: seq<Transfer>, contract: Str, hash: Hash) returns (status: Status)
    requires IsContractId(contract) && |transfers| > 0 && DistinctWallets(transfers)
    requires forall i :: 0 <= i < |transfers| ==> Affordable(tracker.State(), transfers[i], contract)
    modifies tracker
    ensures status == OK
    ensures Moved(old(tracker.State()), tracker.State(), hash, contract,
                  Nothing(), SentTo(transfers), Negative(SentTo(transfers)))
  {
    hide Moved, Touched, Sent, Affordable, DistinctWallets;
    ghost var b := tracker.State();
    AffordableParts(b, transfers[0], contract);
    status := tracker.SubtractTxnBalance(transfers[0].wallet, contract, transfers[0].amount, hash);
    assert transfers[..1] == [transfers[0]];
    OneDebit(b, tracker.State(), hash, contract, transfers[0]);
    WalletsStay(b, tracker.State(), hash, contract, transfers[0], transfers);
    for i := 1 to |transfers|
      invariant status == OK
      invariant Moved(b, tracker.State(), hash, contract, Nothing(), SentTo(transfers[..i]), Negative(SentTo(transfers[..i])))
      invariant forall k :: 0 <= k < |transfers| ==> Exists(tracker.State(), RawKey(transfers[k].wallet, contract))
    {
      var t := transfers[i];
      ghost var b1 := tracker.State();
      NotYetDebited(b, b1, hash, contract, transfers, i);
      status := tracker.SubtractTxnBalance(t.wallet, contract, t.amount, hash);
      SentMore(transfers[..i], t);
      assert transfers[..i + 1] == transfers[..i] + [t];
      MovesCompose(b, b1, tracker.State(), hash, contract,
                   Nothing(), SentTo(transfers[..i]), Negative(SentTo(transfers[..i])),
                   Nothing(), Only(t.wallet, t.amount), Only(t.wallet, 0 - t.amount),
                   Nothing(), SentTo(transfers[..i + 1]), Negative(SentTo(transfers[..i + 1])));
      WalletsStay(b1, tracker.State(), hash, contract, t, transfers);
    }
    assert transfers[..|transfers|] == transfers;
  }

  lemma AffordableParts(b: Books, t: Transfer, contract: Str)
    requires Affordable(b, t, contract)
    ensures Exists(b, RawKey(t.wallet, contract)) && t.amount <= TotalFor(b, t.wallet, contract)
  {}

  lemma OneDebit(b: Books, b': Books, h: Hash, contract: Str, t: Transfer)
    requires Moved(b, b', h, contract, Nothing(), Only(t.wallet, t.amount), Only(t.wallet, 0 - t.amount))
    ensures Moved(b, b', h, contract, Nothing(), SentTo([t]), Negative(SentTo([t])))
  {
    assert forall w :: SentTo([t])(w) == Only(t.wallet, t.amount)(w) by {
      SentMore([], t);
      assert [] + [t] == [t];
    }
  }

  /** Wallets with a total keep one. */
  lemma WalletsStay(b: Books, b': Books, h: Hash, contract: Str, t: Transfer, ts: seq<Transfer>)
    requires Touched(b, b', h, contract, [Transfer(t.wallet, t.amount)], false) && b'.stored == b.stored
    requires forall k :: 0 <= k < |ts| ==> Exists(b, RawKey(ts[k].wallet, contract)) || Affordable(b, ts[k], contract)
    ensures forall k :: 0 <= k < |ts| ==> Exists(b', RawKey(ts[k].wallet, contract))
  {
    hide RawKey, LedgerKey;
  }

  lemma NotYetDebited(b: Books, b1: Books, h: Hash, contract: Str, ts: seq<Transfer>, i: nat)
    requires IsContractId(contract) && i < |ts| && DistinctWallets(ts) && Affordable(b, ts[i], contract)
    requires Moved(b, b1, h, contract, Nothing(), SentTo(ts[..i]), Negative(SentTo(ts[..i])))
    ensures ts[i].amount <= TotalFor(b1, ts[i].wallet, contract)
  {
    hide RawKey;
    NothingSent(ts[..i], ts[i].wallet);
  }

  /** A complete batch of distinct wallets makes the same move. */
  lemma BatchIsOneByOne(b: Books, b': Books, h: Hash, contract: Str, ts: seq<Transfer>)
    requires DistinctWallets(ts) && Moved(b, b', h, contract, Nothing(), SentTo(ts), Negative(Last(ts)))
    ensures Moved(b, b', h, contract, Nothing(), SentTo(ts), Negative(SentTo(ts)))
  {
    LastIsAll(ts);
    hide Recorded, TotalFor;
    assert forall w :: Negative(Last(ts))(w) == Negative(SentTo(ts))(w);
  }
}
