/** Fee processing: debiting the payer and splitting the fee among its receivers. */
module Fees {
  import opened Arith
  import opened Ledger
  import opened BalanceTracker
  import opened Replay
  import opened TokenFees
  import Supply
  import Texts

  function Share(percent: nat, fee: nat): nat { Wrap(percent * fee) / 100 }

  /** The fee section of a contract. */
  datatype ContractFees = ContractFees(burn: nat, validator: nat, feeAddress: Str)

  datatype Split = Split(validator: nat, foundation: nat, burn: nat, contract: nat)

  function ContractPercent(contract: ContractFees): nat { Wrap(100 - contract.burn - contract.validator) }

  /** How a fee is split: a base fee by fixed percentages, a contract's fee by the contract's. */
  function SplitFee(contract: ContractFees, fee: nat, base: bool): Split {
    if base then
      var validator, foundation := Share(50, fee), Share(25, fee);
      Split(validator, foundation, Wrap(fee - validator - foundation), 0)
    else
      var validator, burn := Share(contract.validator, fee), Share(contract.burn, fee);
      Split(validator, 0, burn, if ContractPercent(contract) > 0 then Wrap(fee - validator - burn) else 0)
  }

  function SplitTotal(s: Split): nat { s.validator + s.foundation + s.burn + s.contract }

  lemma ShareBound(percent: nat, fee: nat)
    ensures 100 * Share(percent, fee) <= percent * fee && Share(percent, fee) <= TWO_256 / 100
    ensures percent * fee < TWO_256 ==> 100 * Share(percent, fee) + (percent * fee) % 100 == percent * fee
  {
    MulMono2(0, percent, 0, fee);
    WrapBelow(percent * fee);
  }

  /** A base fee is split without loss, whatever its size. */
  lemma BaseFeeIsSplit(contract: ContractFees, fee: nat)
    requires fee < TWO_256
    ensures SplitTotal(SplitFee(contract, fee, true)) == fee
    ensures 50 * fee < TWO_256 ==> (SplitFee(contract, fee, true).validator == fee / 2
                                    && SplitFee(contract, fee, true).foundation == fee / 4)
  {
    ShareBound(50, fee);
    ShareBound(25, fee);
  }

  /** A contract's fee is split without loss exactly if the burnt and the validator's share leave
      something to give and somebody to give it to, or use the fee up. */
  lemma ContractFeeIsSplit(contract: ContractFees, fee: nat)
    requires fee < TWO_256
    ensures var shares := Share(contract.validator, fee) + Share(contract.burn, fee);
            SplitTotal(SplitFee(contract, fee, false)) == fee
            <==> if ContractPercent(contract) > 0 then shares <= fee else shares == fee
  {
    ShareBound(contract.validator, fee);
    ShareBound(contract.burn, fee);
    hide Share;
    var rest := fee - Share(contract.validator, fee) - Share(contract.burn, fee);
    if rest < 0 { WrapNegative(rest); }
  }

  /** Below 100 percent nothing is lost. */
  lemma BelowHundred(contract: ContractFees, fee: nat)
    requires fee < TWO_256 && contract.burn + contract.validator < 100
    ensures SplitTotal(SplitFee(contract, fee, false)) == fee
  {
    ContractFeeIsSplit(contract, fee);
    SharesWithin(contract, fee);
  }

  lemma SharesWithin(contract: ContractFees, fee: nat)
    requires contract.burn + contract.validator <= 100
    ensures 100 * (Share(contract.validator, fee) + Share(contract.burn, fee)) <= 100 * fee
  {
    hide Share;
    ShareBound(contract.validator, fee);
    ShareBound(contract.burn, fee);
    MulDistrib(fee, contract.burn, contract.validator);
    MulMono(contract.burn + contract.validator, 100, fee);
  }

  /** At exactly 100 percent one unit is lost, unless both shares are whole. */
  lemma AtHundred(contract: ContractFees, fee: nat)
    requires contract.burn + contract.validator == 100 && 100 * fee < TWO_256
    ensures SplitTotal(SplitFee(contract, fee, false)) == fee - if (contract.validator * fee) % 100 == 0 then 0 else 1
  {
    var v, u := contract.validator, contract.burn;
    MulMono(v, 100, fee);
    MulMono(u, 100, fee);
    ShareBound(v, fee);
    ShareBound(u, fee);
    MulDistrib(fee, u, v);
    hide Share;
    assert u * fee + v * fee == 100 * fee;
    assert 100 * (fee - Share(v, fee) - Share(u, fee)) == (u * fee) % 100 + (v * fee) % 100;
  }

  /** A unit is really lost, and above 100 percent tokens appear if the fee address holds nothing:
      nothing bounds the percentages a contract may name. An address that holds one token loses it
      when it is credited, which makes up for the shares of the others. */
  lemma LossAndGain(feeAddress: Str)
    ensures SplitTotal(SplitFee(ContractFees(50, 50, feeAddress), 1, false)) == 0
    ensures var split := SplitFee(ContractFees(100, 100, feeAddress), 1, false);
            && split.validator == 1 && split.burn == 1 && split.contract == TWO_256 - 1
            && Supply.Held(0, [Transfer(feeAddress, split.contract)], feeAddress) == TWO_256 - 1
            && Supply.Held(1, [Transfer(feeAddress, split.contract)], feeAddress) == 0
  {
    hide Wrap;
    assert Share(50, 1) == 0 && Share(100, 1) == 1;
    WrapNegative(0 - 100);
    WrapNegative(0 - 1);
    var credit := Transfer(feeAddress, TWO_256 - 1);
    Supply.HeldIsWrapped(0, [credit], feeAddress);
    Supply.HeldIsWrapped(1, [credit], feeAddress);
    SentMore([], credit);
    assert [] + [credit] == [credit];
    WrapOnce(TWO_256);
  }

  // ---- processing ---------------------------------------------------------------------------

  const BURN_WALLET: Str := Texts.AsBytes(":fire:")

  datatype Option<T> = None | Some(value: T)

  datatype FeeStatus =
    | Done
    | WalletInsufficientFunds
    | Failed(reason: Status)
    | TxnFailed
    | InvalidUint256
    | DivisionByZero

  /** The fees reported with a transaction's status. */
  datatype StatusFees = StatusFees(baseContractId: Str, baseFees: Option<nat>, nativeFunctionFees: Option<nat>,
                                   interfaceFeeId: Str, interfaceFee: Option<nat>)

  /** The configured fee address, the treasury's wallet, and the current validator, if any. */
  datatype Receivers = Receivers(feeAddress: Str, foundation: Str, currentValidator: Str)

  function ValidatorWallet(r: Receivers): Str { if r.currentValidator != [] then r.currentValidator else r.feeAddress }

  /** Who receives what of a fee. */
  function Credits(contract: ContractFees, fee: nat, base: bool, r: Receivers): seq<Transfer> {
    var s := SplitFee(contract, fee, base);
    [] + [Transfer(ValidatorWallet(r), s.validator)] + [Transfer(r.foundation, s.foundation)]
    + [Transfer(BURN_WALLET, s.burn)] + [Transfer(contract.feeAddress, s.contract)]
  }

  lemma CreditsTotal(contract: ContractFees, fee: nat, base: bool, r: Receivers)
    ensures Supply.Total(Credits(contract, fee, base, r)) == SplitTotal(SplitFee(contract, fee, base))
  {
    hide SplitFee, Supply.Total;
    var s := SplitFee(contract, fee, base);
    var t1, t2, t3 := Transfer(ValidatorWallet(r), s.validator), Transfer(r.foundation, s.foundation), Transfer(BURN_WALLET, s.burn);
    Supply.NoTotal();
    Supply.TotalMore([], t1);
    Supply.TotalMore([] + [t1], t2);
    Supply.TotalMore([] + [t1] + [t2], t3);
    Supply.TotalMore([] + [t1] + [t2] + [t3], Transfer(contract.feeAddress, s.contract));
  }

  /** Between two states of the ledger and of the fee records, the totals of one contract moved by
      the credits and debits, and the credits were recorded as fees of the transaction. */
  ghost predicate Settled(b: Books, b': Books, log: map<Hash, Fees>, log': map<Hash, Fees>, h: Hash, contract: Str,
                          credits: seq<Transfer>, debits: seq<Transfer>) {
    && (forall w, c :: IsContractId(c) ==>
          TotalFor(b', w, c) == TotalFor(b, w, c) + if c == contract then Sent(credits, w) - Sent(debits, w) else 0)
    && (forall g, a, c :: Logged(log', g, a, c) == Logged(log, g, a, c) + if g == h && c == contract then Sent(credits, a) else 0)
  }

  /** The debits and credits decide how the sum over all wallets moves. */
  lemma SettledSupply(b: Books, b': Books, log: map<Hash, Fees>, log': map<Hash, Fees>, h: Hash, contract: Str,
                      credits: seq<Transfer>, debits: seq<Transfer>, c: Str)
    requires IsContractId(c) && Settled(b, b', log, log', h, contract, credits, debits)
    ensures Supply.InAll(b', c) == Supply.InAll(b, c)
                                 + if c == contract then Supply.Total(credits) - Supply.Total(debits) else 0
  {
    hide TotalFor, Logged;
    if c == contract {
      Supply.TransfersMove(b, b', c, credits, debits);
    } else {
      Supply.TransfersMove(b, b', c, [], []);
    }
  }

  /** The ledger's invariant for the transaction at work. */
  ghost predicate AtWork(b: Books, h: Hash) { Replayable(b) && Current(b, h) }

  /** Credit one receiver and record it. */
  method Pay(tracker: Tracker, book: FeeBook, to: Transfer, contract: Str, hash: Hash,
             ghost b: Books, ghost log: map<Hash, Fees>, ghost credits: seq<Transfer>, ghost debits: seq<Transfer>)
    requires IsContractId(contract) && AtWork(tracker.State(), hash)
    requires Settled(b, tracker.State(), log, book.txnTokenFees, hash, contract, credits, debits)
    modifies tracker, book
    ensures AtWork(tracker.State(), hash)
    ensures Settled(b, tracker.State(), log, book.txnTokenFees, hash, contract, credits + [to], debits)
  {
    hide Touched, Replayable, Recorded, TotalFor, Logged;
    ghost var b1, log1 := tracker.State(), book.txnTokenFees;
    tracker.AddTxnBalance(to.wallet, contract, to.amount, hash);
    Credited(b1, tracker.State(), hash, contract, to);
    book.SetTxnTokenFees(hash, contract, to.wallet, to.amount);
    SentMore(credits, to);
  }

  lemma Credited(b: Books, b': Books, h: Hash, contract: Str, t: Transfer)
    requires IsContractId(contract) && AtWork(b, h)
    requires Moved(b, b', h, contract, Only(t.wallet, t.amount), Nothing(), Only(t.wallet, t.amount))
    requires Touched(b, b', h, contract, [Transfer(t.wallet, t.amount)], true)
    ensures AtWork(b', h)
  {
    hide Moved, Touched, NeverNegative, Backed, WellKeyed, Balanced;
    AddingKeepsBalance(b, b', h, contract, Only(t.wallet, t.amount));
    StepReplayable(b, b', h, contract, Only(t.wallet, t.amount), Nothing(), Only(t.wallet, t.amount), [t], true);
  }

  lemma Debited(b: Books, b': Books, h: Hash, contract: Str, t: Transfer)
    requires IsContractId(contract) && AtWork(b, h)
    requires Moved(b, b', h, contract, Nothing(), Only(t.wallet, t.amount), Only(t.wallet, 0 - t.amount))
    requires Touched(b, b', h, contract, [Transfer(t.wallet, t.amount)], false)
    ensures AtWork(b', h)
  {
    hide Moved, Touched, NeverNegative, Backed, WellKeyed, Balanced;
    SubtractingKeepsBalance(b, b', h, contract, t.wallet, t.amount);
    StepReplayable(b, b', h, contract, Nothing(), Only(t.wallet, t.amount), Only(t.wallet, 0 - t.amount), [t], false);
  }

  /** The same wallets have a total. */
  ghost predicate SameRecords(b: Books, b': Books) { forall key :: Exists(b', key) <==> Exists(b, key) }

  lemma SameTwice(b: Books, b1: Books, b2: Books)
    ensures SameRecords(b, b)
    ensures SameRecords(b, b1) && SameRecords(b1, b2) ==> SameRecords(b, b2)
  {}

  lemma RecordsStay(b: Books, b': Books, h: Hash, contract: Str, t: Transfer)
    requires Touched(b, b', h, contract, [Transfer(t.wallet, t.amount)], false) && b'.stored == b.stored
    requires Affordable(b, t, contract)
    ensures SameRecords(b, b')
  {
    hide RawKey, LedgerKeys, RecordOf;
  }

  /** Debit one payer; a failing debit changes nothing. */
  method Charge(tracker: Tracker, from: Transfer, contract: Str, hash: Hash,
                ghost b: Books, ghost log: map<Hash, Fees>, ghost log': map<Hash, Fees>, ghost debits: seq<Transfer>)
      returns (status: Status)
    requires IsContractId(contract) && AtWork(tracker.State(), hash)
    requires Settled(b, tracker.State(), log, log', hash, contract, [], debits)
    modifies tracker
    ensures AtWork(tracker.State(), hash)
    ensures (status == OK) == old(Affordable(tracker.State(), from, contract))
    ensures status == OK ==> Settled(b, tracker.State(), log, log', hash, contract, [], debits + [from])
    ensures status != OK ==> tracker.State() == old(tracker.State())
    ensures SameRecords(old(tracker.State()), tracker.State())
  {
    hide Touched, Replayable, Recorded, TotalFor, Logged;
    ghost var b1 := tracker.State();
    status := tracker.SubtractTxnBalance(from.wallet, contract, from.amount, hash);
    if status == OK {
      Debited(b1, tracker.State(), hash, contract, from);
      SentMore(debits, from);
      RecordsStay(b1, tracker.State(), hash, contract, from);
    }
  }

  /** process_fees: a payer who cannot afford the fee stops everything; otherwise every receiver
      gets its share, and the shares are recorded. With storageFees nobody is debited here. */
  method ProcessFees(tracker: Tracker, book: FeeBook, contract: ContractFees, feeAmount: nat, walletAdr: Str,
                     feeSymbol: Str, base: bool, statusFees: StatusFees, txnHash: Hash, receivers: Receivers,
                     storageFees: bool)
      returns (status: FeeStatus, fees: StatusFees)
    requires IsContractId(feeSymbol) && feeAmount < TWO_256 && AtWork(tracker.State(), txnHash)
    modifies tracker, book
    ensures AtWork(tracker.State(), txnHash)
    ensures status.Done? <==> storageFees || old(Affordable(tracker.State(), Transfer(walletAdr, feeAmount), feeSymbol))
    ensures !status.Done? ==>
      && tracker.State() == old(tracker.State()) && book.txnTokenFees == old(book.txnTokenFees) && fees == statusFees
      && (if base then status == WalletInsufficientFunds else status.Failed?)
    ensures status.Done? ==>
      Settled(old(tracker.State()), tracker.State(), old(book.txnTokenFees), book.txnTokenFees, txnHash, feeSymbol,
              Credits(contract, feeAmount, base, receivers), if storageFees then [] else [Transfer(walletAdr, feeAmount)])
    ensures status.Done? ==> fees == Reported(statusFees, feeSymbol, feeAmount, storageFees)
  {
    hide Replayable, TotalFor, Logged, Settled, AtWork, Affordable, SplitFee, BURN_WALLET, ContractPercent;
    ghost var b, log := tracker.State(), book.txnTokenFees;
    ghost var debits: seq<Transfer> := [];
    NothingSettled(b, log, txnHash, feeSymbol);
    if !storageFees {
      var paid := Charge(tracker, Transfer(walletAdr, feeAmount), feeSymbol, txnHash, b, log, book.txnTokenFees, debits);
      if paid != OK {
        return if base then WalletInsufficientFunds else Failed(paid), statusFees;
      }
      debits := debits + [Transfer(walletAdr, feeAmount)];
      assert debits == [Transfer(walletAdr, feeAmount)];
    }
    Distribute(tracker, book, contract, feeAmount, feeSymbol, base, txnHash, receivers, b, log, debits);
    fees := Reported(statusFees, feeSymbol, feeAmount, storageFees);
    status := Done;
  }

  /** What process_fees reports: base fees add up, native function fees replace each other. */
  function Reported(s: StatusFees, symbol: Str, fee: nat, storageFees: bool): StatusFees {
    if storageFees then s.(nativeFunctionFees := Some(fee))
    else if s.baseFees.Some? then s.(baseFees := Some(Wrap(s.baseFees.value + fee)))
    else s.(baseContractId := symbol, baseFees := Some(fee))
  }

  lemma NothingSettled(b: Books, log: map<Hash, Fees>, h: Hash, contract: Str)
    ensures Settled(b, b, log, log, h, contract, [], [])
  {
    hide TotalFor, Logged;
    assert forall a :: Sent([], a) == 0;
  }

  /** Second half of process_fees: a receiver whose percentage is zero is left out. */
  method Distribute(tracker: Tracker, book: FeeBook, contract: ContractFees, feeAmount: nat, feeSymbol: Str, base: bool,
                    txnHash: Hash, receivers: Receivers, ghost b: Books, ghost log: map<Hash, Fees>, ghost debits: seq<Transfer>)
    requires IsContractId(feeSymbol) && AtWork(tracker.State(), txnHash)
    requires Settled(b, tracker.State(), log, book.txnTokenFees, txnHash, feeSymbol, [], debits)
    modifies tracker, book
    ensures AtWork(tracker.State(), txnHash)
    ensures Settled(b, tracker.State(), log, book.txnTokenFees, txnHash, feeSymbol,
                    Credits(contract, feeAmount, base, receivers), debits)
  {
    hide Replayable, TotalFor, Logged, Settled, AtWork, BURN_WALLET, Wrap;
    var burnPercent, validatorPercent, foundationPercent, contractPercent := 25, 50, 0, 0;
    var validatorFee, contractFee, foundationFee, burnFee := 0, 0, 0, 0;
    if !base {
      burnPercent := contract.burn;
      validatorPercent := contract.validator;
      contractPercent := Wrap(100 - burnPercent - validatorPercent);
    } else {
      foundationPercent := 25;
    }
    ghost var credits: seq<Transfer> := [];
    if validatorPercent > 0 {
      validatorFee := Wrap(validatorPercent * feeAmount) / 100;
    }
    credits := PayIf(validatorPercent > 0, tracker, book, Transfer(ValidatorWallet(receivers), validatorFee), feeSymbol, txnHash, b, log, credits, debits);
    if foundationPercent > 0 {
      foundationFee := Wrap(foundationPercent * feeAmount) / 100;
    }
    credits := PayIf(foundationPercent > 0, tracker, book, Transfer(receivers.foundation, foundationFee), feeSymbol, txnHash, b, log, credits, debits);
    if burnPercent > 0 {
      if base {
        burnFee := Wrap(feeAmount - validatorFee - contractFee - foundationFee);
      } else {
        burnFee := Wrap(burnPercent * feeAmount) / 100;
      }
    }
    credits := PayIf(burnPercent > 0, tracker, book, Transfer(BURN_WALLET, burnFee), feeSymbol, txnHash, b, log, credits, debits);
    if contractPercent > 0 {
      contractFee := Wrap(feeAmount - validatorFee - burnFee);
    }
    credits := PayIf(contractPercent > 0, tracker, book, Transfer(contract.feeAddress, contractFee), feeSymbol, txnHash, b, log, credits, debits);
  }

  /** Pay a receiver, unless its percentage is zero. */
  method PayIf(pays: bool, tracker: Tracker, book: FeeBook, to: Transfer, contract: Str, hash: Hash,
               ghost b: Books, ghost log: map<Hash, Fees>, ghost credits: seq<Transfer>, ghost debits: seq<Transfer>)
      returns (ghost credits': seq<Transfer>)
    requires IsContractId(contract) && AtWork(tracker.State(), hash) && (pays || to.amount == 0)
    requires Settled(b, tracker.State(), log, book.txnTokenFees, hash, contract, credits, debits)
    modifies tracker, book
    ensures AtWork(tracker.State(), hash) && credits' == credits + [to]
    ensures Settled(b, tracker.State(), log, book.txnTokenFees, hash, contract, credits', debits)
  {
    hide AtWork, TotalFor, Logged;
    credits' := credits + [to];
    if pays {
      Pay(tracker, book, to, contract, hash, b, log, credits, debits);
    } else {
      SentMore(credits, to);
    }
  }

  /** Each wallet ends with its 256-bit total after the debit and the credits one by one. */
  lemma SettledHeld(b: Books, b': Books, log: map<Hash, Fees>, log': map<Hash, Fees>, h: Hash, symbol: Str,
                    credits: seq<Transfer>, debits: seq<Transfer>, w: Str)
    requires IsContractId(symbol) && Settled(b, b', log, log', h, symbol, credits, debits)
    requires Sent(debits, w) <= TotalFor(b, w, symbol)
    ensures Wrap(TotalFor(b', w, symbol)) == Supply.Held(TotalFor(b, w, symbol) - Sent(debits, w), credits, w)
  {
    hide Wrap, Sent, TotalFor, Logged;
    Supply.HeldIsWrapped(TotalFor(b, w, symbol) - Sent(debits, w), credits, w);
  }

  /** A paid fee moves the sum over all wallets by what the split gains or loses, and by what wraps
      around. */
  lemma FeeMoves(b: Books, b': Books, log: map<Hash, Fees>, log': map<Hash, Fees>, h: Hash, symbol: Str,
                 contract: ContractFees, fee: nat, base: bool, r: Receivers, payer: Str, c: Str)
    requires IsContractId(c)
    requires Settled(b, b', log, log', h, symbol, Credits(contract, fee, base, r), [Transfer(payer, fee)])
    ensures Supply.InAll(b', c) == Supply.InAll(b, c)
                                 + if c == symbol then SplitTotal(SplitFee(contract, fee, base)) - fee else 0
    ensures Supply.InAll256(b', c) == Supply.InAll(b', c) - Supply.Overflown(b', c)
  {
    hide Settled, Credits, SplitFee;
    SettledSupply(b, b', log, log', h, symbol, Credits(contract, fee, base, r), [Transfer(payer, fee)], c);
    CreditsTotal(contract, fee, base, r);
    OneTotal(Transfer(payer, fee));
    Supply.InAllWrapped(b', c);
  }

  lemma OneTotal(t: Transfer)
    ensures Supply.Total([t]) == t.amount
  {
    Supply.TotalMore([], t);
    assert [] + [t] == [t];
  }

  /** A paid base fee leaves the tokens of every contract as many as they were. */
  lemma BaseFeeConserves(b: Books, b': Books, log: map<Hash, Fees>, log': map<Hash, Fees>, h: Hash, symbol: Str,
                         contract: ContractFees, fee: nat, r: Receivers, payer: Str, c: Str)
    requires IsContractId(c) && fee < TWO_256 && Supply.InAll(b, c) < TWO_256
    requires Settled(b, b', log, log', h, symbol, Credits(contract, fee, true, r), [Transfer(payer, fee)])
    ensures Supply.InAll256(b', c) == Supply.InAll256(b, c)
  {
    hide Settled, SplitFee;
    FeeMoves(b, b', log, log', h, symbol, contract, fee, true, r, payer, c);
    BaseFeeIsSplit(contract, fee);
    Supply.NoOverflow(b, c);
    Supply.NoOverflow(b', c);
  }

  function Shares(contract: ContractFees, fee: nat): nat { Share(contract.validator, fee) + Share(contract.burn, fee) }

  /** What the fee address holds when its turn comes: it may have paid the fee, and be the validator's
      wallet or the burn wallet. */
  function HeldBefore(b: Books, symbol: Str, contract: ContractFees, fee: nat, r: Receivers, payer: Str): int {
    TotalFor(b, contract.feeAddress, symbol) - (if payer == contract.feeAddress then fee else 0)
    + (if ValidatorWallet(r) == contract.feeAddress then Share(contract.validator, fee) else 0)
    + (if BURN_WALLET == contract.feeAddress then Share(contract.burn, fee) else 0)
  }

  /** A paid contract fee does so exactly if what the split gains wraps around; if all tokens together
      stay below 2^256, that is exactly if the shares of the others leave something for the fee address,
      or the fee address holds what they take too much. */
  lemma ContractFeeConserves(b: Books, b': Books, log: map<Hash, Fees>, log': map<Hash, Fees>, h: Hash, symbol: Str,
                             contract: ContractFees, fee: nat, r: Receivers, payer: Str)
    requires IsContractId(symbol) && fee < TWO_256
    requires Settled(b, b', log, log', h, symbol, Credits(contract, fee, false, r), [Transfer(payer, fee)])
    ensures Supply.InAll256(b', symbol) == Supply.InAll256(b, symbol)
            <==> SplitTotal(SplitFee(contract, fee, false)) - fee == Supply.Overflown(b', symbol) - Supply.Overflown(b, symbol)
    ensures Supply.InAll(b, symbol) + Shares(contract, fee) < TWO_256 ==>
              (Supply.InAll256(b', symbol) == Supply.InAll256(b, symbol)
               <==> if ContractPercent(contract) > 0 then
                      Shares(contract, fee) <= fee || HeldBefore(b, symbol, contract, fee, r, payer) >= Shares(contract, fee) - fee
                    else Shares(contract, fee) == fee)
  {
    hide Settled, SplitFee, Wrap, HeldBefore, Shares, TotalFor, Credits, ContractPercent, SplitTotal, Supply.Overflown, Supply.InAll, Supply.InAll256;
    FeeMoves(b, b', log, log', h, symbol, contract, fee, false, r, payer, symbol);
    Supply.InAllWrapped(b, symbol);
    if Supply.InAll(b, symbol) + Shares(contract, fee) < TWO_256 {
      ContractSplit(contract, fee);
      Supply.NoOverflow(b, symbol);
      if ContractPercent(contract) > 0 && Shares(contract, fee) > fee {
        OverflowOf(b, b', log, log', h, symbol, contract, fee, r, payer);
      } else {
        Supply.NoOverflow(b', symbol);
      }
    }
  }

  lemma ContractSplit(contract: ContractFees, fee: nat)
    requires fee < TWO_256
    ensures SplitTotal(SplitFee(contract, fee, false))
         == if ContractPercent(contract) == 0 then Shares(contract, fee)
            else if Shares(contract, fee) <= fee then fee else fee + TWO_256
    ensures SplitFee(contract, fee, false).contract
         == if ContractPercent(contract) == 0 then 0
            else if Shares(contract, fee) <= fee then fee - Shares(contract, fee) else fee - Shares(contract, fee) + TWO_256
  {
    ShareBound(contract.validator, fee);
    ShareBound(contract.burn, fee);
    hide Share, Wrap;
    var rest := fee - Share(contract.validator, fee) - Share(contract.burn, fee);
    if rest < 0 { WrapNegative(rest); }
  }

  /** Where the shares exceed the fee: only the fee address can reach 2^256. */
  lemma SettledTotals(b: Books, b': Books, log: map<Hash, Fees>, log': map<Hash, Fees>, h: Hash, symbol: Str,
                      contract: ContractFees, fee: nat, r: Receivers, payer: Str)
    requires IsContractId(symbol) && fee < TWO_256 && Supply.InAll(b, symbol) + Shares(contract, fee) < TWO_256
    requires ContractPercent(contract) > 0 && Shares(contract, fee) > fee
    requires Settled(b, b', log, log', h, symbol, Credits(contract, fee, false, r), [Transfer(payer, fee)])
    ensures forall w :: w != contract.feeAddress ==> TotalFor(b', w, symbol) < TWO_256
    ensures TotalFor(b', contract.feeAddress, symbol)
         == HeldBefore(b, symbol, contract, fee, r, payer) + fee - Shares(contract, fee) + TWO_256
    ensures TotalFor(b', contract.feeAddress, symbol) < TWO_256 + TWO_256
  {
    hide Wrap, TotalFor, Share, Credits, SplitFee, BURN_WALLET, ValidatorWallet;
    ContractSplit(contract, fee);
    SentMore([], Transfer(payer, fee));
    assert [] + [Transfer(payer, fee)] == [Transfer(payer, fee)];
    forall w ensures TotalFor(b, w, symbol) <= Supply.InAll(b, symbol) { Supply.WalletWithin(b, w, symbol); }
    forall w ensures Sent(Credits(contract, fee, false, r), w)
               == (if ValidatorWallet(r) == w then Share(contract.validator, fee) else 0)
                + (if BURN_WALLET == w then Share(contract.burn, fee) else 0)
                + (if contract.feeAddress == w then SplitFee(contract, fee, false).contract else 0)
    {
      CreditsOf(contract, fee, r, w);
    }
  }

  lemma OverflowOf(b: Books, b': Books, log: map<Hash, Fees>, log': map<Hash, Fees>, h: Hash, symbol: Str,
                   contract: ContractFees, fee: nat, r: Receivers, payer: Str)
    requires IsContractId(symbol) && fee < TWO_256 && Supply.InAll(b, symbol) + Shares(contract, fee) < TWO_256
    requires ContractPercent(contract) > 0 && Shares(contract, fee) > fee
    requires Settled(b, b', log, log', h, symbol, Credits(contract, fee, false, r), [Transfer(payer, fee)])
    ensures Supply.Overflown(b', symbol)
         == if HeldBefore(b, symbol, contract, fee, r, payer) >= Shares(contract, fee) - fee then TWO_256 else 0
  {
    hide Settled, Wrap, HeldBefore, Shares, TotalFor, Credits, Supply.Overflown, Supply.InAll;
    SettledTotals(b, b', log, log', h, symbol, contract, fee, r, payer);
    Supply.OneOverflow(b', contract.feeAddress, symbol);
  }

  lemma CreditsOf(contract: ContractFees, fee: nat, r: Receivers, w: Str)
    ensures Sent(Credits(contract, fee, false, r), w)
         == (if ValidatorWallet(r) == w then Share(contract.validator, fee) else 0)
          + (if BURN_WALLET == w then Share(contract.burn, fee) else 0)
          + (if contract.feeAddress == w then SplitFee(contract, fee, false).contract else 0)
  {
    hide Sent, Share, BURN_WALLET, ValidatorWallet, Wrap;
    var s := SplitFee(contract, fee, false);
    var t1, t2, t3 := Transfer(ValidatorWallet(r), s.validator), Transfer(r.foundation, s.foundation), Transfer(BURN_WALLET, s.burn);
    SentMore([], t1);
    SentMore([] + [t1], t2);
    SentMore([] + [t1] + [t2], t3);
    SentMore([] + [t1] + [t2] + [t3], Transfer(contract.feeAddress, s.contract));
    NothingSent([], w);
  }

  /** A base fee that does not wrap around: half goes to the current validator, or to the fee address if
      there is none, a quarter to the treasury's wallet, and the rest is burnt. */
  lemma BaseCreditsOf(contract: ContractFees, fee: nat, r: Receivers, w: Str)
    requires 50 * fee < TWO_256
    ensures var validator := if |r.currentValidator| > 0 then r.currentValidator else r.feeAddress;
            Sent(Credits(contract, fee, true, r), w)
            == (if w == validator then fee / 2 else 0) + (if w == r.foundation then fee / 4 else 0)
             + (if w == BURN_WALLET then fee - fee / 2 - fee / 4 else 0)
  {
    BaseFeeIsSplit(contract, fee);
    hide Sent, BURN_WALLET, Wrap, SplitFee;
    var s := SplitFee(contract, fee, true);
    var t1, t2, t3 := Transfer(ValidatorWallet(r), s.validator), Transfer(r.foundation, s.foundation), Transfer(BURN_WALLET, s.burn);
    SentMore([], t1);
    SentMore([] + [t1], t2);
    SentMore([] + [t1] + [t2], t3);
    SentMore([] + [t1] + [t2] + [t3], Transfer(contract.feeAddress, s.contract));
    NothingSent([], w);
    NoContractShare(contract, fee);
  }

  lemma NoContractShare(contract: ContractFees, fee: nat)
    ensures SplitFee(contract, fee, true).contract == 0
  {
    hide Share, Wrap;
  }

  /** Base fees charged one after the other are reported as their 256-bit sum, under the first symbol. */
  function ReportedAll(s: StatusFees, symbol: Str, fees: seq<nat>): StatusFees {
    if fees == [] then s else Reported(ReportedAll(s, symbol, fees[..|fees| - 1]), symbol, fees[|fees| - 1], false)
  }

  function PlainSum(fees: seq<nat>): nat { if fees == [] then 0 else PlainSum(fees[..|fees| - 1]) + fees[|fees| - 1] }

  lemma {:induction false} ReportedSum(s: StatusFees, symbol: Str, fees: seq<nat>)
    requires s.baseFees.None? && |fees| > 0 && forall i :: 0 <= i < |fees| ==> fees[i] < TWO_256
    ensures ReportedAll(s, symbol, fees) == s.(baseContractId := symbol, baseFees := Some(Wrap(PlainSum(fees))))
  {
    hide Wrap;
    var front, fee := fees[..|fees| - 1], fees[|fees| - 1];
    if |fees| == 1 {
      OneReported(fees);
    } else {
      ReportedSum(s, symbol, front);
      WrapTwice(PlainSum(front), fee);
    }
  }

  lemma OneReported(fees: seq<nat>)
    requires |fees| == 1 && fees[0] < TWO_256
    ensures PlainSum(fees[..0]) == 0 && Wrap(PlainSum(fees)) == fees[0]
  {}

  // ---- interface fees -----------------------------------------------------------------------

  /** A number field of a message: left empty, not a number of 256 bits, or a number. */
  datatype Field = Empty | Invalid | Number(value: nat)

  /** What the i-th of n signers pays: an equal part, the last one the remainder. */
  function Part(n: nat, fee: nat, i: nat): nat
    requires i < n
  {
    PartsFit(n, fee, i);
    if i == n - 1 then fee - fee / n * i else fee / n
  }

  lemma PartsFit(n: nat, fee: nat, i: nat)
    requires i <= n && n > 0
    ensures fee / n * i <= fee
  {
    DivMod(fee, n);
    MulMono2(fee / n, fee / n, i, n);
  }

  function Parts(signers: seq<Str>, fee: nat, i: nat): seq<Transfer>
    requires i <= |signers|
  {
    if i == 0 then [] else Parts(signers, fee, i - 1) + [Transfer(signers[i - 1], Part(|signers|, fee, i - 1))]
  }

  /** The signers pay the whole fee together. */
  lemma {:induction false} PartsTotal(signers: seq<Str>, fee: nat, i: nat)
    requires i <= |signers| && |signers| > 0
    ensures Supply.Total(Parts(signers, fee, i)) == if i == |signers| then fee else fee / |signers| * i
  {
    if i > 0 {
      PartsTotal(signers, fee, i - 1);
      MulDistrib(fee / |signers|, i - 1, 1);
      Supply.TotalMore(Parts(signers, fee, i - 1), Transfer(signers[i - 1], Part(|signers|, fee, i - 1)));
    }
  }

  /** The signer has a total, and it covers the parts up to this one that fall to its wallet. */
  ghost predicate Covered(b: Books, signers: seq<Str>, fee: nat, c: Str, i: nat)
    requires i < |signers|
  {
    Exists(b, RawKey(signers[i], c)) && Sent(Parts(signers, fee, i + 1), signers[i]) <= TotalFor(b, signers[i], c)
  }

  ghost predicate AllCovered(b: Books, signers: seq<Str>, fee: nat, c: Str, n: nat)
    requires n <= |signers|
  {
    forall i :: 0 <= i < n ==> Covered(b, signers, fee, c, i)
  }

  /** The first signer that does not cover its part, or the number of all. */
  ghost predicate StopsAt(b: Books, signers: seq<Str>, fee: nat, c: Str, n: nat) {
    n <= |signers| && AllCovered(b, signers, fee, c, n) && (n < |signers| ==> !Covered(b, signers, fee, c, n))
  }

  /** After the parts of the signers before, a signer can pay exactly if its part is covered. */
  lemma PayableIfCovered(b: Books, b': Books, log: map<Hash, Fees>, h: Hash, signers: seq<Str>, fee: nat, c: Str, i: nat)
    requires IsContractId(c) && i < |signers| && SameRecords(b, b')
    requires Settled(b, b', log, log, h, c, [], Parts(signers, fee, i))
    ensures Affordable(b', Transfer(signers[i], Part(|signers|, fee, i)), c) <==> Covered(b, signers, fee, c, i)
  {
    hide RawKey, TotalFor, Logged, Part;
    SentMore(Parts(signers, fee, i), Transfer(signers[i], Part(|signers|, fee, i)));
  }

  /** process_interface_fees with several signers: `done` of them were debited. When one cannot
      pay, the debits of those before it stand and nobody is credited. */
  method ProcessInterfaceFees(tracker: Tracker, book: FeeBook, interfaceFee: Field, interfaceFeeId: Str,
                              interfaceAddress: Str, txnHash: Hash, signers: seq<Str>, statusFees: StatusFees)
      returns (status: FeeStatus, fees: StatusFees, ghost done: nat)
    requires IsContractId(interfaceFeeId) || interfaceFeeId == []
    requires AtWork(tracker.State(), txnHash)
    modifies tracker, book
    ensures AtWork(tracker.State(), txnHash) && done <= |signers|
    ensures status == (if interfaceFee.Empty? || interfaceFeeId == [] then Done
                       else if interfaceFee.Invalid? then InvalidUint256
                       else if interfaceFee.value == 0 then Done
                       else if |signers| == 0 then DivisionByZero
                       else if done == |signers| then Done else TxnFailed)
    ensures interfaceFee.Number? && interfaceFee.value > 0 && interfaceFeeId != [] && |signers| > 0 ==>
      && Settled(old(tracker.State()), tracker.State(), old(book.txnTokenFees), book.txnTokenFees, txnHash, interfaceFeeId,
                 if done == |signers| then [Transfer(interfaceAddress, interfaceFee.value)] else [],
                 Parts(signers, interfaceFee.value, done))
      && fees == (if done == |signers| then statusFees.(interfaceFee := Some(interfaceFee.value), interfaceFeeId := interfaceFeeId)
                  else statusFees)
    ensures interfaceFee.Number? && interfaceFee.value > 0 && interfaceFeeId != [] ==>
      StopsAt(old(tracker.State()), signers, interfaceFee.value, interfaceFeeId, done)
    ensures !(interfaceFee.Number? && interfaceFee.value > 0 && interfaceFeeId != [] && |signers| > 0) ==>
      tracker.State() == old(tracker.State()) && book.txnTokenFees == old(book.txnTokenFees) && fees == statusFees
  {
    hide Replayable, TotalFor, Logged, Settled, AtWork, Affordable, Covered, SameRecords;
    ghost var b, log := tracker.State(), book.txnTokenFees;
    done := 0;
    fees := statusFees;
    if interfaceFee.Empty? || interfaceFeeId == [] {
      return Done, fees, 0;
    }
    if interfaceFee.Invalid? {
      return InvalidUint256, fees, 0;
    }
    var feeAmount := interfaceFee.value;
    if feeAmount == 0 {
      return Done, fees, 0;
    }
    if |signers| == 0 {
      return DivisionByZero, fees, 0;
    }
    NothingSettled(b, log, txnHash, interfaceFeeId);
    SameTwice(b, b, b);
    var dividedFee := feeAmount / |signers|;
    var x := 1;
    while x <= |signers|
      invariant 1 <= x <= |signers| + 1 && done == x - 1
      invariant AtWork(tracker.State(), txnHash) && book.txnTokenFees == log
      invariant Settled(b, tracker.State(), log, log, txnHash, interfaceFeeId, [], Parts(signers, feeAmount, done))
      invariant SameRecords(b, tracker.State()) && AllCovered(b, signers, feeAmount, interfaceFeeId, done)
    {
      PayableIfCovered(b, tracker.State(), log, txnHash, signers, feeAmount, interfaceFeeId, done);
      var authFee := dividedFee;
      if x == |signers| {
        PartsFit(|signers|, feeAmount, x - 1);
        authFee := feeAmount - dividedFee * (x - 1);
      }
      ghost var b1 := tracker.State();
      var paid := Charge(tracker, Transfer(signers[x - 1], authFee), interfaceFeeId, txnHash, b, log, log,
                         Parts(signers, feeAmount, done));
      if paid != OK {
        return TxnFailed, fees, done;
      }
      SameTwice(b, b1, tracker.State());
      done := done + 1;
      x := x + 1;
    }
    Pay(tracker, book, Transfer(interfaceAddress, feeAmount), interfaceFeeId, txnHash, b, log, [], Parts(signers, feeAmount, done));
    assert [] + [Transfer(interfaceAddress, feeAmount)] == [Transfer(interfaceAddress, feeAmount)];
    fees := fees.(interfaceFee := Some(feeAmount), interfaceFeeId := interfaceFeeId);
    status := Done;
  }

  /** The call leaves as many tokens as there were exactly if every signer covers its part, or the
      first one does not, or the parts are zero; otherwise the parts of those who paid are gone. */
  lemma InterfaceFeeConserves(b: Books, b': Books, log: map<Hash, Fees>, log': map<Hash, Fees>, h: Hash, symbol: Str,
                              signers: seq<Str>, fee: nat, address: Str, done: nat)
    requires IsContractId(symbol) && |signers| > 0 && StopsAt(b, signers, fee, symbol, done)
    requires Settled(b, b', log, log', h, symbol, if done == |signers| then [Transfer(address, fee)] else [],
                     Parts(signers, fee, done))
    ensures Supply.InAll(b', symbol) == Supply.InAll(b, symbol)
                                      - if done == |signers| then 0 else fee / |signers| * done
    ensures Supply.InAll(b', symbol) == Supply.InAll(b, symbol)
            <==> AllCovered(b, signers, fee, symbol, |signers|) || !Covered(b, signers, fee, symbol, 0) || fee < |signers|
    ensures Supply.InAll(b, symbol) < TWO_256 ==> Supply.InAll256(b', symbol) == Supply.InAll(b', symbol)
  {
    hide Settled, Parts, Covered;
    SettledSupply(b, b', log, log', h, symbol, if done == |signers| then [Transfer(address, fee)] else [],
                  Parts(signers, fee, done), symbol);
    PartsTotal(signers, fee, done);
    OneTotal(Transfer(address, fee));
    Supply.NoTotal();
    PartsPaid(fee, |signers|, done);
    if Supply.InAll(b, symbol) < TWO_256 { Supply.NoOverflow(b', symbol); }
  }

  lemma PartsPaid(fee: nat, n: nat, done: nat)
    requires n > 0
    ensures fee / n * done >= 0 && (fee / n * done == 0 <==> done == 0 || fee < n)
  {
    DivMod(fee, n);
    if fee / n > 0 {
      MulPos(fee / n, n);
      if done > 0 { MulPos(done, fee / n); }
    } else {
      MulMono2(0, 0, 0, n);
    }
  }

  /** One token is gone: of two signers the first holds one, the second has no total, the fee is two. */
  lemma HalfPaid(v: Str, w: Str, symbol: Str, b': Books, log: map<Hash, Fees>, log': map<Hash, Fees>, h: Hash, address: Str)
    requires IsContractId(symbol) && v != w
    requires Settled(Books(map[RawKey(v, symbol) := 1], map[], map[], map[], []), b', log, log', h, symbol, [], Parts([v, w], 2, 1))
    ensures StopsAt(Books(map[RawKey(v, symbol) := 1], map[], map[], map[], []), [v, w], 2, symbol, 1)
    ensures Supply.InAll(b', symbol) == Supply.InAll(Books(map[RawKey(v, symbol) := 1], map[], map[], map[], []), symbol) - 1
  {
    hide Settled, RawKey;
    var b := Books(map[RawKey(v, symbol) := 1], map[], map[], map[], []);
    SentMore([], Transfer(v, Part(2, 2, 0)));
    assert Parts([v, w], 2, 1) == [] + [Transfer(v, Part(2, 2, 0))];
    if RawKey(v, symbol) == RawKey(w, symbol) {
      RawKeyInjective(v, symbol, w, symbol);
    }
    InterfaceFeeConserves(b, b', log, log', h, symbol, [v, w], 2, address, 1);
  }
}
