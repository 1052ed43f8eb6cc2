/** Replaying the records of transactions into block balances: any transactions, in any order. */
module BlockReplay {
  import opened Bytes
  import opened Base58Spec
  import opened Ledger
  import opened Replay
  import opened BalanceTracker
  import opened Sums

  // ---- one wallet ---------------------------------------------------------------------------

  /** What a record of additions credits to a wallet when the placeholder stands for the fee address. */
  function Gain(r: Record, fee: Str, wallet: Str, contract: Str): nat {
    (if wallet != PLACEHOLDER then Ledger.Lookup(r, LedgerKey(wallet, contract)) else 0)
    + (if wallet == fee then Ledger.Lookup(r, LedgerKey(PLACEHOLDER, contract)) else 0)
  }

  /** And whether it credits anything, even nothing at all. */
  predicate Credited(r: Record, fee: Str, wallet: Str, contract: Str) {
    || (wallet != PLACEHOLDER && LedgerKey(wallet, contract) in r)
    || (wallet == fee && LedgerKey(PLACEHOLDER, contract) in r)
  }

  /** A wallet's place in the stores: whether there is a balance, and how much it is. */
  datatype Standing = Standing(known: bool, balance: nat)

  function After(now: Standing, r: Record, fee: Str, w: Str, c: Str): Standing {
    Standing(now.known || Credited(r, fee, w, c), now.balance + Gain(r, fee, w, c))
  }

  /** A debit needs a balance, and enough of it. */
  predicate CanPay(now: Standing, r: Record, w: Str, c: Str) {
    LedgerKey(w, c) in r ==> now.known && now.balance >= r[LedgerKey(w, c)]
  }

  /** A debit that fails leaves everything as it was. */
  function Paid(now: Standing, r: Record, w: Str, c: Str): Standing {
    if LedgerKey(w, c) in r && CanPay(now, r, w, c) then now.(balance := now.balance - r[LedgerKey(w, c)]) else now
  }

  // ---- lists of transactions ----------------------------------------------------------------

  /** What a replay starts from. */
  datatype Start = Start(base: map<Str, nat>, adds: map<Hash, Record>, subs: map<Hash, Record>, fee: Str)

  /** Where a wallet stands after a list of transactions, and before the debit of the next one. */
  function Stand(s: Start, hashes: seq<Hash>, w: Str, c: Str): Standing
    decreases |hashes|, 1
  {
    if hashes == [] then Standing(RawKey(w, c) in s.base, Ledger.Lookup(s.base, RawKey(w, c)))
    else Paid(BeforeDebit(s, hashes, w, c), RecordOf(s.subs, hashes[|hashes| - 1]), w, c)
  }

  function BeforeDebit(s: Start, hashes: seq<Hash>, w: Str, c: Str): Standing
    requires hashes != []
    decreases |hashes|, 0
  {
    After(Stand(s, hashes[..|hashes| - 1], w, c), RecordOf(s.adds, hashes[|hashes| - 1]), s.fee, w, c)
  }

  /** No debit of the wallet fails. */
  ghost predicate AllPaid(s: Start, hashes: seq<Hash>, w: Str, c: Str) {
    hashes == []
    || (AllPaid(s, hashes[..|hashes| - 1], w, c)
        && CanPay(BeforeDebit(s, hashes, w, c), RecordOf(s.subs, hashes[|hashes| - 1]), w, c))
  }

  /** What is stored, plus what the list adds, minus what it subtracts. */
  function Net(s: Start, hashes: seq<Hash>, w: Str, c: Str): int {
    if hashes == [] then Ledger.Lookup(s.base, RawKey(w, c))
    else Net(s, hashes[..|hashes| - 1], w, c) + Shift(s, hashes[|hashes| - 1], w, c)
  }

  function Shift(s: Start, h: Hash, w: Str, c: Str): int {
    Gain(RecordOf(s.adds, h), s.fee, w, c) - Ledger.Lookup(RecordOf(s.subs, h), LedgerKey(w, c))
  }

  ghost function Shifts(s: Start, w: Str, c: Str): Hash -> int { h => Shift(s, h, w, c) }

  /** The wallet is stored, or the list credits it. */
  ghost predicate KnownTo(s: Start, hashes: seq<Hash>, w: Str, c: Str) {
    RawKey(w, c) in s.base || exists h :: h in hashes && Credited(RecordOf(s.adds, h), s.fee, w, c)
  }

  /** Whenever the wallet is debited, it is stored or credited by then, and what is added by then
      covers what is subtracted by then. */
  ghost predicate Covered(s: Start, hashes: seq<Hash>, w: Str, c: Str) {
    forall i :: 0 <= i < |hashes| && LedgerKey(w, c) in RecordOf(s.subs, hashes[i]) ==> CoveredAt(s, hashes, w, c, i)
  }

  ghost predicate CoveredAt(s: Start, hashes: seq<Hash>, w: Str, c: Str, i: nat)
    requires i < |hashes|
  {
    KnownTo(s, hashes[..i + 1], w, c) && Net(s, hashes[..i + 1], w, c) >= 0
  }

  /** What failing debits leave behind. */
  function Unpaid(s: Start, hashes: seq<Hash>, w: Str, c: Str): nat {
    if hashes == [] then 0
    else
      var r := RecordOf(s.subs, hashes[|hashes| - 1]);
      Unpaid(s, hashes[..|hashes| - 1], w, c) + if CanPay(BeforeDebit(s, hashes, w, c), r, w, c) then 0 else r[LedgerKey(w, c)]
  }

  lemma {:induction false} StandIsKnown(s: Start, hashes: seq<Hash>, w: Str, c: Str)
    ensures Stand(s, hashes, w, c).known <==> KnownTo(s, hashes, w, c)
  {
    hide LedgerKey, RawKey, Credited, Gain;
    if hashes != [] {
      var front, h := hashes[..|hashes| - 1], hashes[|hashes| - 1];
      StandIsKnown(s, front, w, c);
      assert forall g :: g in hashes <==> g in front || g == h;
    }
  }

  /** A wallet ends with the net of the list and what its failing debits left behind. */
  lemma {:induction false} StandIsNet(s: Start, hashes: seq<Hash>, w: Str, c: Str)
    ensures Stand(s, hashes, w, c).balance == Net(s, hashes, w, c) + Unpaid(s, hashes, w, c)
    ensures AllPaid(s, hashes, w, c) ==> Unpaid(s, hashes, w, c) == 0
  {
    hide LedgerKey, RawKey, Credited, Gain;
    if hashes != [] { StandIsNet(s, hashes[..|hashes| - 1], w, c); }
  }

  lemma CoveredMore(s: Start, hashes: seq<Hash>, w: Str, c: Str)
    requires hashes != []
    ensures var front, n := hashes[..|hashes| - 1], |hashes| - 1;
            Covered(s, hashes, w, c) <==>
            Covered(s, front, w, c)
            && (LedgerKey(w, c) in RecordOf(s.subs, hashes[n]) ==> KnownTo(s, hashes, w, c) && Net(s, hashes, w, c) >= 0)
  {
    hide LedgerKey, RawKey, KnownTo, Net, RecordOf;
    var front, n := hashes[..|hashes| - 1], |hashes| - 1;
    assert hashes[..n + 1] == hashes;
    forall i | 0 <= i < n ensures CoveredAt(s, front, w, c, i) <==> CoveredAt(s, hashes, w, c, i) {
      assert front[..i + 1] == hashes[..i + 1];
    }
    if Covered(s, hashes, w, c) {
      forall i | 0 <= i < n && LedgerKey(w, c) in RecordOf(s.subs, front[i]) ensures CoveredAt(s, front, w, c, i) {
        assert CoveredAt(s, hashes, w, c, i);
      }
      if LedgerKey(w, c) in RecordOf(s.subs, hashes[n]) { assert CoveredAt(s, hashes, w, c, n); }
    }
    if Covered(s, front, w, c) && (LedgerKey(w, c) in RecordOf(s.subs, hashes[n]) ==> KnownTo(s, hashes, w, c) && Net(s, hashes, w, c) >= 0) {
      forall i | 0 <= i <= n && LedgerKey(w, c) in RecordOf(s.subs, hashes[i]) ensures CoveredAt(s, hashes, w, c, i) {
        if i < n { assert CoveredAt(s, front, w, c, i); }
      }
    }
  }

  /** No debit fails exactly if all are covered; then the wallet ends with the net of the list. */
  lemma {:induction false} PaidIfCovered(s: Start, hashes: seq<Hash>, w: Str, c: Str)
    ensures AllPaid(s, hashes, w, c) <==> Covered(s, hashes, w, c)
    ensures Covered(s, hashes, w, c) ==> Stand(s, hashes, w, c).balance == Net(s, hashes, w, c)
  {
    hide LedgerKey, RawKey, Credited, Gain, Covered;
    StandIsNet(s, hashes, w, c);
    if hashes == [] {
      NothingCovered(s, w, c);
    } else {
      var front := hashes[..|hashes| - 1];
      PaidIfCovered(s, front, w, c);
      CoveredMore(s, hashes, w, c);
      if AllPaid(s, front, w, c) { DebitIfCovered(s, hashes, w, c); }
    }
  }

  lemma NothingCovered(s: Start, w: Str, c: Str)
    ensures Covered(s, [], w, c)
  {}

  lemma DebitIfCovered(s: Start, hashes: seq<Hash>, w: Str, c: Str)
    requires hashes != [] && AllPaid(s, hashes[..|hashes| - 1], w, c)
    ensures CanPay(BeforeDebit(s, hashes, w, c), RecordOf(s.subs, hashes[|hashes| - 1]), w, c)
        <==> (LedgerKey(w, c) in RecordOf(s.subs, hashes[|hashes| - 1]) ==> KnownTo(s, hashes, w, c) && Net(s, hashes, w, c) >= 0)
  {
    hide LedgerKey, RawKey, Credited, Gain, KnownTo, AllPaid;
    StandIsNet(s, hashes[..|hashes| - 1], w, c);
    StandIsKnown(s, hashes, w, c);
  }

  function Members(hashes: seq<Hash>): set<Hash> { set h | h in hashes }

  /** The net does not depend on the order. */
  lemma {:induction false} NetIsSum(s: Start, hashes: seq<Hash>, w: Str, c: Str)
    requires forall i, j :: 0 <= i < j < |hashes| ==> hashes[i] != hashes[j]
    ensures Net(s, hashes, w, c) == Ledger.Lookup(s.base, RawKey(w, c)) + SumSet(Members(hashes), Shifts(s, w, c))
  {
    hide LedgerKey, RawKey, Shift;
    if hashes == [] {
      SumSetZero({}, Shifts(s, w, c));
    } else {
      var front, h := hashes[..|hashes| - 1], hashes[|hashes| - 1];
      NetIsSum(s, front, w, c);
      assert Members(hashes) == Members(front) + {h};
      SumSetAdd(Members(front), Shifts(s, w, c), h);
    }
  }

  // ---- the block balances -------------------------------------------------------------------

  /** The additions of a record one by one. */
  lemma AfterMore(now: Standing, part: Record, lk: Str, amount: nat, fee: Str, w: Str, c: Str)
    requires lk !in part
    ensures After(After(now, part, fee, w, c), map[lk := amount], fee, w, c) == After(now, part[lk := amount], fee, w, c)
  {
    hide LedgerKey, PLACEHOLDER;
  }

  /** A single addition reaches its wallet, or the fee address. */
  lemma AfterOne(now: Standing, wallet: Str, contract: Str, amount: nat, fee: Str, w: Str, c: Str)
    requires IsContractId(contract) && IsContractId(c)
    ensures var hit := w == (if wallet == PLACEHOLDER then fee else wallet) && c == contract;
            After(now, map[LedgerKey(wallet, contract) := amount], fee, w, c)
            == Standing(now.known || hit, now.balance + if hit then amount else 0)
  {
    hide LedgerKey, PLACEHOLDER;
    if LedgerKey(w, c) == LedgerKey(wallet, contract) { LedgerKeyInjective(w, c, wallet, contract); }
    if LedgerKey(PLACEHOLDER, c) == LedgerKey(wallet, contract) { LedgerKeyInjective(PLACEHOLDER, c, wallet, contract); }
  }

  /** A key of a record splits into the wallet and the contract it was made from. */
  lemma ParseKey(lk: Str, wallet: Str, contract: Str)
    requires IsContractId(contract) && lk == LedgerKey(wallet, contract)
    ensures FindLast(lk, DOLLAR) >= 0 && ContractPart(lk) == contract && Decode(WalletPart(lk)) == wallet
  {
    hide Encode, Decode;
    SplitKey(Encode(wallet), contract);
    DecodeEncode(wallet);
  }

  ghost predicate WellKeyedRecord(r: Record) { forall key :: key in r ==> IsLedgerKey(key) }

  class BlockBalances {
    const wallets: map<Str, nat>
    var walletsTemp: map<Str, nat>
    var blockBalances: map<Str, nat>
    var adds: map<Hash, Record>
    var subs: map<Hash, Record>

    /** All balances as they read at the moment. */
    function Base(): map<Str, nat>
      reads this`blockBalances, this`walletsTemp
    {
      wallets + walletsTemp + blockBalances
    }

    function View(key: Str): nat
      reads this`blockBalances, this`walletsTemp
    {
      Ledger.Lookup(Base(), key)
    }

    predicate Present(key: Str)
      reads this`blockBalances, this`walletsTemp
    {
      key in Base()
    }

    function Place(w: Str, c: Str): Standing
      reads this`blockBalances, this`walletsTemp
    {
      Standing(Present(RawKey(w, c)), View(RawKey(w, c)))
    }

    constructor (stored: map<Str, nat>, adds: map<Hash, Record>, subs: map<Hash, Record>)
      ensures wallets == stored && walletsTemp == map[] && blockBalances == map[] && this.adds == adds && this.subs == subs
      ensures Base() == stored
    {
      wallets := stored;
      walletsTemp, blockBalances := map[], map[];
      this.adds, this.subs := adds, subs;
    }

    /** add_balance */
    method AddBalance(wallet: Str, contract: Str, amount: nat)
      modifies this`blockBalances
      ensures Base() == old(Base())[RawKey(wallet, contract) := old(View(RawKey(wallet, contract))) + amount]
    {
      hide RawKey;
      var senderKey := RawKey(wallet, contract);
      if senderKey !in blockBalances {
        var balance := if senderKey in walletsTemp then walletsTemp[senderKey] else Ledger.Lookup(wallets, senderKey);
        blockBalances := blockBalances[senderKey := balance];
      }
      blockBalances := blockBalances[senderKey := blockBalances[senderKey] + amount];
    }

    /** remove_balance: a failing one leaves every balance as it reads. */
    method RemoveBalance(wallet: Str, contract: Str, amount: nat) returns (status: Status)
      modifies this`blockBalances
      ensures status == (if !old(Present(RawKey(wallet, contract))) then INVALID_WALLET_ADDRESS
                         else if old(View(RawKey(wallet, contract))) < amount then INSUFFICIENT_AMOUNT else OK)
      ensures Base() == if status == OK then old(Base())[RawKey(wallet, contract) := old(View(RawKey(wallet, contract))) - amount]
                        else old(Base())
    {
      hide RawKey;
      var senderKey := RawKey(wallet, contract);
      if senderKey !in blockBalances {
        if senderKey in walletsTemp {
          blockBalances := blockBalances[senderKey := walletsTemp[senderKey]];
        } else if senderKey in wallets {
          blockBalances := blockBalances[senderKey := wallets[senderKey]];
        } else {
          return INVALID_WALLET_ADDRESS;
        }
      }
      if blockBalances[senderKey] < amount {
        return INSUFFICIENT_AMOUNT;
      }
      blockBalances := blockBalances[senderKey := blockBalances[senderKey] - amount];
      return OK;
    }

    /** First loop of add_temp_wallet_balance: all additions of one transaction. */
    method ReplayAdds(r: Record, fee: Str)
      requires WellKeyedRecord(r)
      modifies this`blockBalances
      ensures forall w, c :: IsContractId(c) ==> Place(w, c) == After(old(Place(w, c)), r, fee, w, c)
    {
      hide LedgerKey, RawKey, PLACEHOLDER, After, Place, IsLedgerKey;
      var rest := r.Keys;
      ghost var part: Record := map[];
      NothingAdded(fee);
      while rest != {}
        invariant rest <= r.Keys && part == map key | key in r.Keys - rest :: r[key]
        invariant forall w, c :: IsContractId(c) ==> Place(w, c) == After(old(Place(w, c)), part, fee, w, c)
        decreases rest
      {
        var lk :| lk in rest;
        forall w, c
          ensures After(After(old(Place(w, c)), part, fee, w, c), map[lk := r[lk]], fee, w, c)
               == After(old(Place(w, c)), part[lk := r[lk]], fee, w, c)
        {
          AfterMore(old(Place(w, c)), part, lk, r[lk], fee, w, c);
        }
        ReplayAdd(lk, r[lk], fee);
        rest := rest - {lk};
        assert part[lk := r[lk]] == map key | key in r.Keys - rest :: r[key];
        part := part[lk := r[lk]];
      }
      assert part == r;
    }

    /** One addition: split the key, redirect the placeholder, credit the block balance. */
    method ReplayAdd(lk: Str, amount: nat, fee: Str)
      requires IsLedgerKey(lk)
      modifies this`blockBalances
      ensures forall w, c :: IsContractId(c) ==> Place(w, c) == After(old(Place(w, c)), map[lk := amount], fee, w, c)
    {
      hide LedgerKey, RawKey, PLACEHOLDER, FindLast, Decode, After;
      ghost var w0, c0 :| IsContractId(c0) && lk == LedgerKey(w0, c0);
      ParseKey(lk, w0, c0);
      var contractId := ContractPart(lk);
      var feeWallet := Decode(WalletPart(lk));
      if feeWallet == PLACEHOLDER {
        feeWallet := fee;
      }
      AddBalance(feeWallet, contractId, amount);
      forall w, c | IsContractId(c)
        ensures Place(w, c) == After(old(Place(w, c)), map[lk := amount], fee, w, c)
      {
        AfterOne(old(Place(w, c)), w0, c0, amount, fee, w, c);
        if RawKey(w, c) == RawKey(feeWallet, c0) { RawKeyInjective(w, c, feeWallet, c0); }
      }
    }

    /** Second loop of add_temp_wallet_balance: all subtractions of one transaction, whose statuses
        the program ignores. */
    method ReplaySubs(r: Record) returns (ghost ok: bool)
      requires WellKeyedRecord(r)
      modifies this`blockBalances
      ensures forall w, c :: IsContractId(c) ==> Place(w, c) == Paid(old(Place(w, c)), r, w, c)
      ensures ok <==> forall w, c :: IsContractId(c) ==> old(CanPay(Place(w, c), r, w, c))
    {
      hide LedgerKey, RawKey, Place, Paid, CanPay, IsLedgerKey;
      var rest := r.Keys;
      ok := true;
      NothingOwed(r);
      while rest != {}
        invariant rest <= r.Keys
        invariant forall w, c :: IsContractId(c) ==>
          Place(w, c) == if LedgerKey(w, c) in rest then old(Place(w, c)) else Paid(old(Place(w, c)), r, w, c)
        invariant ok <==> forall w, c :: IsContractId(c) && LedgerKey(w, c) !in rest ==> old(CanPay(Place(w, c), r, w, c))
        decreases rest
      {
        var lk :| lk in rest;
        var status := ReplaySub(r, lk);
        ok := ok && status == OK;
        rest := rest - {lk};
      }
    }

    method ReplaySub(r: Record, lk: Str) returns (status: Status)
      requires lk in r && IsLedgerKey(lk)
      modifies this`blockBalances
      ensures forall w, c :: IsContractId(c) ==>
        Place(w, c) == if LedgerKey(w, c) == lk then Paid(old(Place(w, c)), r, w, c) else old(Place(w, c))
      ensures forall w, c :: IsContractId(c) && LedgerKey(w, c) == lk ==> (status == OK <==> old(CanPay(Place(w, c), r, w, c)))
      ensures exists w, c :: IsContractId(c) && LedgerKey(w, c) == lk
    {
      hide LedgerKey, RawKey, FindLast, Decode;
      ghost var w0, c0 :| IsContractId(c0) && lk == LedgerKey(w0, c0);
      ParseKey(lk, w0, c0);
      var contractId := ContractPart(lk);
      var key := Decode(WalletPart(lk));
      status := RemoveBalance(key, contractId, r[lk]);
      forall w, c | IsContractId(c)
        ensures Place(w, c) == if LedgerKey(w, c) == lk then Paid(old(Place(w, c)), r, w, c) else old(Place(w, c))
        ensures LedgerKey(w, c) == lk ==> (status == OK <==> old(CanPay(Place(w, c), r, w, c)))
      {
        if RawKey(w, c) == RawKey(w0, c0) { RawKeyInjective(w, c, w0, c0); }
        if LedgerKey(w, c) == lk { LedgerKeyInjective(w, c, w0, c0); }
      }
    }

    /** get_txn_balance, the two loops, and remove_txn_balance for one transaction, which need not
        have records. */
    method ReplayTxn(hash: Hash, fee: Str) returns (ghost ok: bool)
      requires WellKeyedRecord(RecordOf(adds, hash)) && WellKeyedRecord(RecordOf(subs, hash))
      modifies this`blockBalances, this`adds, this`subs
      ensures forall w, c :: IsContractId(c) ==>
        Place(w, c) == old(Paid(After(Place(w, c), RecordOf(adds, hash), fee, w, c), RecordOf(subs, hash), w, c))
      ensures ok <==> forall w, c :: IsContractId(c) ==>
        old(CanPay(After(Place(w, c), RecordOf(adds, hash), fee, w, c), RecordOf(subs, hash), w, c))
      ensures adds == old(adds) - {hash} && subs == old(subs) - {hash}
    {
      hide LedgerKey, RawKey, After, Paid, CanPay, Place, WellKeyedRecord;
      var added := RecordOf(adds, hash);
      var subtracted := RecordOf(subs, hash);
      ReplayAdds(added, fee);
      ok := ReplaySubs(subtracted);
      adds := adds - {hash};
      subs := subs - {hash};
    }

    /** store_temp_database */
    method StoreTempDatabase()
      modifies this`walletsTemp, this`blockBalances
      ensures blockBalances == map[] && walletsTemp == old(walletsTemp + blockBalances) && Base() == old(Base())
      ensures forall w, c :: Place(w, c) == old(Place(w, c))
    {
      walletsTemp := walletsTemp + blockBalances;
      blockBalances := map[];
    }

    /** add_temp_wallet_balance, over any list of transactions: every wallet ends where the list takes
        it, and none of the ignored statuses is a failure exactly if every debit is covered. */
    method AddTempWalletBalance(txnHashVec: seq<Hash>, fee: Str) returns (ghost ok: bool)
      requires forall i, j :: 0 <= i < j < |txnHashVec| ==> txnHashVec[i] != txnHashVec[j]
      requires WellKeyed(adds) && WellKeyed(subs)
      modifies this
      ensures var s := old(Start(Base(), adds, subs, fee));
              && (forall w, c :: IsContractId(c) ==> Place(w, c) == Stand(s, txnHashVec, w, c))
              && (ok <==> EveryCovered(s, txnHashVec))
      ensures blockBalances == map[]
      ensures adds == old(adds) - Members(txnHashVec) && subs == old(subs) - Members(txnHashVec)
    {
      hide LedgerKey, RawKey, Place, Stand, Covered, Paid, After, CanPay, AllPaid, EveryPaid, EveryCovered;
      ghost var s := Start(Base(), adds, subs, fee);
      var i := 0;
      ok := true;
      assert txnHashVec[..0] == [];
      StartStands(s);
      while i < |txnHashVec|
        invariant 0 <= i <= |txnHashVec|
        invariant forall w, c :: IsContractId(c) ==> Place(w, c) == Stand(s, txnHashVec[..i], w, c)
        invariant ok <==> EveryPaid(s, txnHashVec[..i])
        invariant adds == s.adds - Members(txnHashVec[..i]) && subs == s.subs - Members(txnHashVec[..i])
      {
        StillThere(s, txnHashVec, i, adds, subs);
        StandMore(s, txnHashVec, i);
        forall w, c | IsContractId(c)
          ensures BeforeNext(s, txnHashVec, i, w, c) == After(Place(w, c), RecordOf(adds, txnHashVec[i]), fee, w, c)
        {}
        var paid := ReplayTxn(txnHashVec[i], fee);
        assert paid <==> NextPaid(s, txnHashVec, i);
        ok := ok && paid;
        i := i + 1;
      }
      assert txnHashVec[..i] == txnHashVec;
      EveryPaidIfCovered(s, txnHashVec);
      StoreTempDatabase();
    }

    lemma StartStands(s: Start)
      requires s.base == Base()
      ensures (forall w, c :: Place(w, c) == Stand(s, [], w, c)) && EveryPaid(s, [])
    {
      hide RawKey;
    }
  }

  lemma StillThere(s: Start, hashes: seq<Hash>, i: nat, adds: map<Hash, Record>, subs: map<Hash, Record>)
    requires i < |hashes| && WellKeyed(s.adds) && WellKeyed(s.subs)
    requires forall i, j :: 0 <= i < j < |hashes| ==> hashes[i] != hashes[j]
    requires adds == s.adds - Members(hashes[..i]) && subs == s.subs - Members(hashes[..i])
    ensures RecordOf(adds, hashes[i]) == RecordOf(s.adds, hashes[i]) && WellKeyedRecord(RecordOf(adds, hashes[i]))
    ensures RecordOf(subs, hashes[i]) == RecordOf(s.subs, hashes[i]) && WellKeyedRecord(RecordOf(subs, hashes[i]))
    ensures Members(hashes[..i + 1]) == Members(hashes[..i]) + {hashes[i]}
  {
    hide IsLedgerKey;
    assert hashes[..i + 1] == hashes[..i] + [hashes[i]];
    assert hashes[i] !in hashes[..i];
  }

  ghost predicate EveryCovered(s: Start, hashes: seq<Hash>) { forall w, c :: IsContractId(c) ==> Covered(s, hashes, w, c) }

  ghost predicate EveryPaid(s: Start, hashes: seq<Hash>) { forall w, c :: IsContractId(c) ==> AllPaid(s, hashes, w, c) }

  ghost predicate NextPaid(s: Start, hashes: seq<Hash>, i: nat)
    requires i < |hashes|
  {
    forall w, c :: IsContractId(c) ==> CanPay(BeforeNext(s, hashes, i, w, c), RecordOf(s.subs, hashes[i]), w, c)
  }

  function BeforeNext(s: Start, hashes: seq<Hash>, i: nat, w: Str, c: Str): Standing
    requires i < |hashes|
  {
    After(Stand(s, hashes[..i], w, c), RecordOf(s.adds, hashes[i]), s.fee, w, c)
  }

  lemma EveryPaidIfCovered(s: Start, hashes: seq<Hash>)
    ensures EveryPaid(s, hashes) <==> EveryCovered(s, hashes)
  {
    hide AllPaid, Covered;
    forall w, c ensures AllPaid(s, hashes, w, c) <==> Covered(s, hashes, w, c) {
      PaidIfCovered(s, hashes, w, c);
    }
  }

  lemma StandMore(s: Start, hashes: seq<Hash>, i: nat)
    requires i < |hashes|
    ensures forall w, c ::
      Stand(s, hashes[..i + 1], w, c) == Paid(BeforeNext(s, hashes, i, w, c), RecordOf(s.subs, hashes[i]), w, c)
    ensures EveryPaid(s, hashes[..i + 1]) <==> EveryPaid(s, hashes[..i]) && NextPaid(s, hashes, i)
  {
    hide RawKey, LedgerKey, Paid, CanPay, RecordOf, Stand, AllPaid, BeforeNext;
    forall w, c
      ensures Stand(s, hashes[..i + 1], w, c) == Paid(BeforeNext(s, hashes, i, w, c), RecordOf(s.subs, hashes[i]), w, c)
      ensures (AllPaid(s, hashes[..i + 1], w, c)
               <==> AllPaid(s, hashes[..i], w, c) && CanPay(BeforeNext(s, hashes, i, w, c), RecordOf(s.subs, hashes[i]), w, c))
    {
      StandStep(s, hashes, i, w, c);
    }
    if EveryPaid(s, hashes[..i + 1]) {
      forall w, c | IsContractId(c)
        ensures AllPaid(s, hashes[..i], w, c) && CanPay(BeforeNext(s, hashes, i, w, c), RecordOf(s.subs, hashes[i]), w, c)
      {
        assert AllPaid(s, hashes[..i + 1], w, c);
      }
    }
    var more := hashes[..i + 1];
    if EveryPaid(s, hashes[..i]) && NextPaid(s, hashes, i) {
      forall w, c | IsContractId(c) ensures AllPaid(s, more, w, c) {
        assert AllPaid(s, hashes[..i], w, c) && CanPay(BeforeNext(s, hashes, i, w, c), RecordOf(s.subs, hashes[i]), w, c);
      }
    }
  }

  lemma StandStep(s: Start, hashes: seq<Hash>, i: nat, w: Str, c: Str)
    requires i < |hashes|
    ensures Stand(s, hashes[..i + 1], w, c) == Paid(BeforeNext(s, hashes, i, w, c), RecordOf(s.subs, hashes[i]), w, c)
    ensures (AllPaid(s, hashes[..i + 1], w, c)
             <==> AllPaid(s, hashes[..i], w, c) && CanPay(BeforeNext(s, hashes, i, w, c), RecordOf(s.subs, hashes[i]), w, c))
  {
    assert hashes[..i + 1][..i] == hashes[..i];
  }

  lemma NothingAdded(fee: Str)
    ensures forall now, w, c :: After(now, map[], fee, w, c) == now
  {}

  lemma NothingOwed(r: Record)
    ensures forall now, w, c :: LedgerKey(w, c) !in r ==> Paid(now, r, w, c) == now && CanPay(now, r, w, c)
  {}
}
