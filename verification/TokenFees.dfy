/** Fee records: who is paid which fees by a transaction, and how a block lists them. */
module TokenFees {
  import opened Ledger
  import opened Replay
  import opened Sums

  /** Address, then contract, then amount. */
  type Fees = map<Str, map<Str, nat>>

  datatype Token = Token(contractId: Str, amount: nat)
  datatype TokenFee = TokenFee(address: Str, tokens: seq<Token>)

  function FeeAt(fees: Fees, address: Str, contract: Str): nat {
    if address in fees && contract in fees[address] then fees[address][contract] else 0
  }

  function Logged(log: map<Hash, Fees>, h: Hash, address: Str, contract: Str): nat {
    if h in log then FeeAt(log[h], address, contract) else 0
  }

  ghost function LoggedTo(log: map<Hash, Fees>, address: Str, contract: Str): Hash -> int {
    h => Logged(log, h, address, contract)
  }

  /** What a transaction pays to an address when the placeholder stands for the fee address. */
  function Payable(log: map<Hash, Fees>, fee: Str, h: Hash, address: Str, contract: Str): nat {
    (if address != PLACEHOLDER then Logged(log, h, address, contract) else 0)
    + (if address == fee then Logged(log, h, PLACEHOLDER, contract) else 0)
  }

  ghost function Paid(log: map<Hash, Fees>, fee: Str, address: Str, contract: Str): Hash -> int {
    h => Payable(log, fee, h, address, contract)
  }

  /** The same per transaction, over the addresses. */
  ghost function Payments(log: map<Hash, Fees>, fee: Str, h: Hash, contract: Str): Str -> int {
    a => Payable(log, fee, h, a, contract)
  }

  ghost function Records(log: map<Hash, Fees>, h: Hash, contract: Str): Str -> int {
    a => Logged(log, h, a, contract)
  }

  /** What a block's records list for an address and a contract. */
  function TokensOf(tokens: seq<Token>, contract: Str): nat {
    if tokens == [] then 0
    else
      TokensOf(tokens[..|tokens| - 1], contract)
      + if tokens[|tokens| - 1].contractId == contract then tokens[|tokens| - 1].amount else 0
  }

  function ListedFee(fees: seq<TokenFee>, address: Str, contract: Str): nat {
    if fees == [] then 0
    else
      ListedFee(fees[..|fees| - 1], address, contract)
      + if fees[|fees| - 1].address == address then TokensOf(fees[|fees| - 1].tokens, contract) else 0
  }

  lemma TokensMore(tokens: seq<Token>, token: Token, contract: Str)
    ensures TokensOf(tokens + [token], contract)
         == TokensOf(tokens, contract) + if token.contractId == contract then token.amount else 0
  {
    assert (tokens + [token])[..|tokens|] == tokens;
  }

  lemma ListedMore(fees: seq<TokenFee>, fee: TokenFee, address: Str, contract: Str)
    ensures ListedFee(fees + [fee], address, contract)
         == ListedFee(fees, address, contract) + if fee.address == address then TokensOf(fee.tokens, contract) else 0
  {
    assert (fees + [fee])[..|fees|] == fees;
  }

  /** set_token_fees: find the entry and add to it, or make one. */
  method SetTokenFees(contractId: Str, address: Str, amount: nat, tokenFees: Fees) returns (fees: Fees)
    ensures forall a, c :: FeeAt(fees, a, c) == FeeAt(tokenFees, a, c) + (if a == address && c == contractId then amount else 0)
  {
    var tokens: map<Str, nat> := map[];
    if address in tokenFees {
      tokens := tokenFees[address];
      if contractId in tokens {
        tokens := tokens[contractId := tokens[contractId] + amount];
      } else {
        tokens := tokens[contractId := amount];
      }
    } else {
      tokens := map[contractId := amount];
    }
    fees := tokenFees[address := tokens];
  }

  /** Inner loop of the collecting and of the accumulating pass: add each of the tokens. */
  method AddTokens(address: Str, tokens: map<Str, nat>, tokenFees: Fees) returns (fees: Fees)
    ensures forall a, c :: (FeeAt(fees, a, c)
         == FeeAt(tokenFees, a, c) + if a == address && c in tokens then tokens[c] else 0)
  {
    fees := tokenFees;
    var rest := tokens.Keys;
    while rest != {}
      invariant rest <= tokens.Keys
      invariant forall a, c :: (FeeAt(fees, a, c)
         == FeeAt(tokenFees, a, c) + if a == address && c in tokens.Keys - rest then tokens[c] else 0)
      decreases rest
    {
      var contract :| contract in rest;
      fees := SetTokenFees(contract, address, tokens[contract], fees);
      rest := rest - {contract};
    }
  }

  /** Collecting pass: all entries of one transaction. */
  method AddTxn(txnFees: Fees, tokenFees: Fees) returns (fees: Fees)
    ensures forall a, c :: FeeAt(fees, a, c) == FeeAt(tokenFees, a, c) + FeeAt(txnFees, a, c)
  {
    fees := tokenFees;
    var rest := txnFees.Keys;
    while rest != {}
      invariant rest <= txnFees.Keys
      invariant forall a, c :: FeeAt(fees, a, c) == FeeAt(tokenFees, a, c) + if a in rest then 0 else FeeAt(txnFees, a, c)
      decreases rest
    {
      var address :| address in rest;
      fees := AddTokens(address, txnFees[address], fees);
      rest := rest - {address};
    }
  }

  /** Accumulating pass: the placeholder's entries go to the fee address. */
  method Redirect(tokenFees: Fees, fee: Str) returns (accumulated: Fees)
    ensures forall a, c :: (FeeAt(accumulated, a, c)
         == (if a != PLACEHOLDER then FeeAt(tokenFees, a, c) else 0) + (if a == fee then FeeAt(tokenFees, PLACEHOLDER, c) else 0))
  {
    hide PLACEHOLDER;
    accumulated := map[];
    var rest := tokenFees.Keys;
    while rest != {}
      invariant rest <= tokenFees.Keys
      invariant forall a, c :: (FeeAt(accumulated, a, c)
         == (if a != PLACEHOLDER && a !in rest then FeeAt(tokenFees, a, c) else 0)
          + (if a == fee && PLACEHOLDER !in rest then FeeAt(tokenFees, PLACEHOLDER, c) else 0))
      decreases rest
    {
      var address :| address in rest;
      var to := if address == PLACEHOLDER then fee else address;
      accumulated := AddTokens(to, tokenFees[address], accumulated);
      rest := rest - {address};
    }
  }

  /** Listing pass, one address: every token once. */
  method ListTokens(tokens: map<Str, nat>) returns (list: seq<Token>)
    ensures forall c :: TokensOf(list, c) == if c in tokens then tokens[c] else 0
    ensures forall i, j :: 0 <= i < j < |list| ==> list[i].contractId != list[j].contractId
  {
    list := [];
    var rest := tokens.Keys;
    while rest != {}
      invariant rest <= tokens.Keys
      invariant forall c :: TokensOf(list, c) == if c in tokens.Keys - rest then tokens[c] else 0
      invariant forall i :: 0 <= i < |list| ==> list[i].contractId !in rest
      invariant forall i, j :: 0 <= i < j < |list| ==> list[i].contractId != list[j].contractId
      decreases rest
    {
      var contract :| contract in rest;
      forall c { TokensMore(list, Token(contract, tokens[contract]), c); }
      list := list + [Token(contract, tokens[contract])];
      rest := rest - {contract};
    }
  }

  /** Listing pass: every address once. */
  method ListFees(accumulated: Fees) returns (list: seq<TokenFee>)
    ensures forall a, c :: ListedFee(list, a, c) == FeeAt(accumulated, a, c)
    ensures OncePerAddress(list)
  {
    hide TokensOf;
    list := [];
    var rest := accumulated.Keys;
    while rest != {}
      invariant rest <= accumulated.Keys
      invariant forall a, c :: ListedFee(list, a, c) == if a in rest then 0 else FeeAt(accumulated, a, c)
      invariant forall i :: 0 <= i < |list| ==> list[i].address !in rest
      invariant OncePerAddress(list)
      decreases rest
    {
      var address :| address in rest;
      var tokens := ListTokens(accumulated[address]);
      forall a, c { ListedMore(list, TokenFee(address, tokens), a, c); }
      list := list + [TokenFee(address, tokens)];
      rest := rest - {address};
    }
  }

  ghost predicate OncePerAddress(list: seq<TokenFee>) {
    && (forall i, j :: 0 <= i < j < |list| ==> list[i].address != list[j].address)
    && forall k, i, j :: 0 <= k < |list| && 0 <= i < j < |list[k].tokens| ==>
        list[k].tokens[i].contractId != list[k].tokens[j].contractId
  }

  class FeeBook {
    var txnTokenFees: map<Hash, Fees>

    constructor ()
      ensures txnTokenFees == map[]
    {
      txnTokenFees := map[];
    }

    /** set_txn_token_fees */
    method SetTxnTokenFees(txnHash: Hash, contractId: Str, address: Str, amount: nat)
      modifies this
      ensures forall h, a, c :: (Logged(txnTokenFees, h, a, c) == Logged(old(txnTokenFees), h, a, c)
           + if h == txnHash && a == address && c == contractId then amount else 0)
    {
      var fees: Fees := map[];
      if txnHash in txnTokenFees {
        fees := txnTokenFees[txnHash];
      }
      fees := SetTokenFees(contractId, address, amount, fees);
      txnTokenFees := txnTokenFees[txnHash := fees];
    }

    /** set_all_token_fees: the block lists, per address and contract, the sum over the given
        transactions, each counted once; their records are gone, all others are kept. */
    method SetAllTokenFees(txnHashVec: seq<Hash>, fee: Str) returns (block: seq<TokenFee>)
      modifies this
      ensures forall a, c :: (ListedFee(block, a, c)
           == SumSet((set h | h in txnHashVec), Paid(old(txnTokenFees), fee, a, c)))
      ensures OncePerAddress(block)
      ensures txnTokenFees == old(txnTokenFees) - (set h | h in txnHashVec)
    {
      hide PLACEHOLDER, ListedFee, OncePerAddress;
      var tokenFees := Collect(txnHashVec);
      var accumulated := Redirect(tokenFees, fee);
      block := ListFees(accumulated);
      ghost var all := set h | h in txnHashVec;
      forall a, c
        ensures ListedFee(block, a, c) == SumSet(all, Paid(old(txnTokenFees), fee, a, c))
      {
        PaidIsLogged(all, old(txnTokenFees), fee, a, c);
      }
    }

    /** First loop of set_all_token_fees: take each listed transaction's records out. */
    method Collect(txnHashVec: seq<Hash>) returns (tokenFees: Fees)
      modifies this
      ensures forall a, c :: (FeeAt(tokenFees, a, c)
           == SumSet((set h | h in txnHashVec), LoggedTo(old(txnTokenFees), a, c)))
      ensures txnTokenFees == old(txnTokenFees) - (set h | h in txnHashVec)
    {
      hide FeeAt, Logged, LoggedTo;
      tokenFees := map[];
      ghost var log := txnTokenFees;
      ghost var seen: set<Hash> := {};
      assert forall a, c :: FeeAt(tokenFees, a, c) == SumSet(seen, LoggedTo(log, a, c)) by { NoFees(log); }
      for i := 0 to |txnHashVec|
        invariant seen == set h | h in txnHashVec[..i]
        invariant forall a, c :: FeeAt(tokenFees, a, c) == SumSet(seen, LoggedTo(log, a, c))
        invariant txnTokenFees == log - seen
      {
        var hash := txnHashVec[i];
        var txnFees := if hash in txnTokenFees then txnTokenFees[hash] else map[];
        var more := AddTxn(txnFees, tokenFees);
        forall a, c ensures FeeAt(more, a, c) == SumSet(seen + {hash}, LoggedTo(log, a, c)) {
          LoggedOnce(log, seen, hash, txnFees, a, c);
        }
        tokenFees := more;
        txnTokenFees := txnTokenFees - {hash};
        seen := seen + {hash};
        assert txnHashVec[..i + 1] == txnHashVec[..i] + [hash];
      }
      assert txnHashVec[..|txnHashVec|] == txnHashVec;
    }
  }

  lemma NoFees(log: map<Hash, Fees>)
    ensures forall a, c :: FeeAt(map[], a, c) == 0 && SumSet({}, LoggedTo(log, a, c)) == 0
  {}

  /** A repeated hash has no records left and adds nothing. */
  lemma LoggedOnce(log: map<Hash, Fees>, seen: set<Hash>, hash: Hash, txnFees: Fees, a: Str, c: Str)
    requires txnFees == if hash in log - seen then log[hash] else map[]
    ensures SumSet(seen + {hash}, LoggedTo(log, a, c)) == SumSet(seen, LoggedTo(log, a, c)) + FeeAt(txnFees, a, c)
  {
    if hash in seen {
      assert seen + {hash} == seen;
    } else {
      SumSetAdd(seen, LoggedTo(log, a, c), hash);
    }
  }

  /** Redirecting sums is summing what is redirected. */
  lemma PaidIsLogged(s: set<Hash>, log: map<Hash, Fees>, fee: Str, a: Str, c: Str)
    ensures SumSet(s, Paid(log, fee, a, c))
         == (if a != PLACEHOLDER then SumSet(s, LoggedTo(log, a, c)) else 0)
          + (if a == fee then SumSet(s, LoggedTo(log, PLACEHOLDER, c)) else 0)
  {
    hide PLACEHOLDER;
    var none := (h: Hash) => 0;
    SumSetZero(s, none);
    SumSetPlus(s, if a != PLACEHOLDER then LoggedTo(log, a, c) else none,
               if a == fee then LoggedTo(log, PLACEHOLDER, c) else none, Paid(log, fee, a, c));
  }

  /** Moving the placeholder's fees to the fee address loses nothing: over any addresses that
      include both, a transaction pays what was recorded. */
  lemma RedirectLosesNothing(log: map<Hash, Fees>, h: Hash, fee: Str, c: Str, addresses: set<Str>)
    requires PLACEHOLDER in addresses && fee in addresses
    ensures SumSet(addresses, Payments(log, fee, h, c)) == SumSet(addresses, Records(log, h, c))
  {
    hide PLACEHOLDER;
    var paid, logged := Payments(log, fee, h, c), Records(log, h, c);
    if fee == PLACEHOLDER {
      SumSetSame(addresses, paid, logged);
    } else {
      var rest := addresses - {PLACEHOLDER};
      SumSetRemove(addresses, paid, PLACEHOLDER);
      SumSetRemove(addresses, logged, PLACEHOLDER);
      SumSetUpdate(rest, logged, paid, fee);
    }
  }
}
