/** How much of a contract's token all wallets hold together. */
module Supply {
  import opened Arith
  import opened Bytes
  import opened Ledger
  import opened BalanceTracker
  import opened Sums

  /** The wallets that have a total for the contract. */
  function Holders(b: Books, contract: Str): set<Str> {
    set k | k in b.stored.Keys + b.processed.Keys && FindLast(k, DOLLAR) >= 0 && ContractPart(k) == contract :: WalletPart(k)
  }

  ghost function Holdings(b: Books, contract: Str): Str -> int { w => TotalFor(b, w, contract) }

  ghost function InAll(b: Books, contract: Str): int { SumSet(Holders(b, contract), Holdings(b, contract)) }

  lemma HolderOf(b: Books, wallet: Str, contract: Str)
    requires IsContractId(contract) && Exists(b, RawKey(wallet, contract))
    ensures wallet in Holders(b, contract)
  {
    SplitKey(wallet, contract);
    assert ContractPart(RawKey(wallet, contract)) == contract;
  }

  /** Wallets without a total hold nothing. */
  lemma InAllOver(b: Books, contract: Str, wallets: set<Str>)
    requires IsContractId(contract) && Holders(b, contract) <= wallets
    ensures SumSet(wallets, Holdings(b, contract)) == InAll(b, contract)
  {
    forall w | w in wallets - Holders(b, contract)
      ensures Holdings(b, contract)(w) == 0
    {
      if Exists(b, RawKey(w, contract)) {
        HolderOf(b, w, contract);
        assert false;
      }
    }
    SumSetExtend(Holders(b, contract), wallets, Holdings(b, contract));
  }

  /** The sum moves by what the wallets' totals move. */
  lemma InAllMoves(b: Books, b': Books, contract: Str, change: Str -> int, touched: set<Str>)
    requires IsContractId(contract)
    requires forall w :: TotalFor(b', w, contract) == TotalFor(b, w, contract) + change(w)
    requires forall w :: w !in touched ==> change(w) == 0
    ensures InAll(b', contract) == InAll(b, contract) + SumSet(touched, change)
  {
    hide Holders;
    var all := Holders(b, contract) + Holders(b', contract) + touched;
    InAllOver(b, contract, all);
    InAllOver(b', contract, all);
    SumSetExtend(touched, all, change);
    SumSetPlus(all, Holdings(b, contract), change, Holdings(b', contract));
  }

  /** All that a list of transfers moves. */
  function Total(ts: seq<Transfer>): nat {
    if ts == [] then 0 else Total(ts[..|ts| - 1]) + ts[|ts| - 1].amount
  }

  lemma NoTotal()
    ensures Total([]) == 0
  {}

  lemma TotalMore(ts: seq<Transfer>, t: Transfer)
    ensures Total(ts + [t]) == Total(ts) + t.amount
  {
    assert (ts + [t])[..|ts|] == ts;
  }

  function Wallets(ts: seq<Transfer>): set<Str> { set t | t in ts :: t.wallet }

  lemma {:induction false} SentInAll(ts: seq<Transfer>, wallets: set<Str>)
    requires Wallets(ts) <= wallets
    ensures SumSet(wallets, SentTo(ts)) == Total(ts)
    ensures forall w :: w !in wallets ==> Sent(ts, w) == 0
  {
    if ts == [] {
      SumSetZero(wallets, SentTo(ts));
    } else {
      var front, t := ts[..|ts| - 1], ts[|ts| - 1];
      assert t.wallet in Wallets(ts);
      SentInAll(front, wallets);
      SumSetUpdate(wallets, SentTo(front), SentTo(ts), t.wallet);
    }
  }

  /** Transfers in and out of the wallets move the sum by their difference. */
  lemma TransfersMove(b: Books, b': Books, contract: Str, credits: seq<Transfer>, debits: seq<Transfer>)
    requires IsContractId(contract)
    requires forall w :: TotalFor(b', w, contract) == TotalFor(b, w, contract) + Sent(credits, w) - Sent(debits, w)
    ensures InAll(b', contract) == InAll(b, contract) + Total(credits) - Total(debits)
  {
    hide Holdings;
    var touched := Wallets(credits) + Wallets(debits);
    SentInAll(credits, touched);
    SentInAll(debits, touched);
    var change := Difference(credits, debits);
    SumSetPlus(touched, change, SentTo(debits), SentTo(credits));
    InAllMoves(b, b', contract, change, touched);
  }

  ghost function Difference(credits: seq<Transfer>, debits: seq<Transfer>): Str -> int {
    w => Sent(credits, w) - Sent(debits, w)
  }

  // ---- in 256 bits --------------------------------------------------------------------------

  /** Totals have 256 bits: what a total that takes in credits one after the other comes to. */
  function Held(total: nat, credits: seq<Transfer>, wallet: Str): nat {
    if credits == [] then Wrap(total)
    else
      var before := Held(total, credits[..|credits| - 1], wallet);
      var t := credits[|credits| - 1];
      if t.wallet == wallet then Wrap(before + t.amount) else before
  }

  /** It is the plain total, wrapped around once at the end. */
  lemma {:induction false} HeldIsWrapped(total: nat, credits: seq<Transfer>, wallet: Str)
    ensures Held(total, credits, wallet) == Wrap(total + Sent(credits, wallet))
  {
    hide Wrap;
    if credits != [] {
      var front, t := credits[..|credits| - 1], credits[|credits| - 1];
      HeldIsWrapped(total, front, wallet);
      WrapTwice(total + Sent(front, wallet), t.amount);
    }
  }

  ghost function WrappedHoldings(b: Books, contract: Str): Str -> int { w => Wrap(TotalFor(b, w, contract)) }

  ghost function Overflow(b: Books, contract: Str): Str -> int { w => TotalFor(b, w, contract) / TWO_256 * TWO_256 }

  /** The sum over all wallets of their 256-bit totals, and what they have lost by wrapping around. */
  ghost function InAll256(b: Books, contract: Str): int { SumSet(Holders(b, contract), WrappedHoldings(b, contract)) }

  ghost function Overflown(b: Books, contract: Str): int { SumSet(Holders(b, contract), Overflow(b, contract)) }

  lemma InAllWrapped(b: Books, contract: Str)
    ensures InAll256(b, contract) == InAll(b, contract) - Overflown(b, contract)
  {
    hide Holders;
    forall w ensures Holdings(b, contract)(w) == WrappedHoldings(b, contract)(w) + Overflow(b, contract)(w) {
      DivMod(TotalFor(b, w, contract), TWO_256);
    }
    SumSetPlus(Holders(b, contract), WrappedHoldings(b, contract), Overflow(b, contract), Holdings(b, contract));
  }

  lemma WalletWithin(b: Books, wallet: Str, contract: Str)
    requires IsContractId(contract)
    ensures TotalFor(b, wallet, contract) <= InAll(b, contract)
  {
    hide Holders, TotalFor;
    var all := Holders(b, contract) + {wallet};
    InAllOver(b, contract, all);
    SumSetSubset({wallet}, all, Holdings(b, contract));
    SumSetRemove({wallet}, Holdings(b, contract), wallet);
    assert {wallet} - {wallet} == {};
  }

  /** If only one wallet's total can have wrapped around, that is all that can be lost. */
  lemma OneOverflow(b: Books, wallet: Str, contract: Str)
    requires IsContractId(contract) && forall w :: w != wallet ==> TotalFor(b, w, contract) < TWO_256
    requires TotalFor(b, wallet, contract) < TWO_256 + TWO_256
    ensures Overflown(b, contract) == if TotalFor(b, wallet, contract) < TWO_256 then 0 else TWO_256
  {
    hide Holders;
    var all := Holders(b, contract) + {wallet};
    forall w | w != wallet ensures Overflow(b, contract)(w) == 0 {}
    forall w | w in all - Holders(b, contract) ensures Overflow(b, contract)(w) == 0 {
      if Exists(b, RawKey(w, contract)) {
        HolderOf(b, w, contract);
        assert false;
      }
    }
    SumSetExtend(Holders(b, contract), all, Overflow(b, contract));
    SumSetExtend({wallet}, all, Overflow(b, contract));
    SumSetRemove({wallet}, Overflow(b, contract), wallet);
    assert {wallet} - {wallet} == {};
  }

  /** While the sum stays below 2^256, no total wraps around. */
  lemma NoOverflow(b: Books, contract: Str)
    requires IsContractId(contract) && InAll(b, contract) < TWO_256
    ensures InAll256(b, contract) == InAll(b, contract)
    ensures forall w :: TotalFor(b, w, contract) < TWO_256
  {
    hide TotalFor;
    forall w ensures TotalFor(b, w, contract) < TWO_256 { WalletWithin(b, w, contract); }
    OneOverflow(b, [], contract);
    InAllWrapped(b, contract);
  }
}
