/** The pending-balance ledger: an overlay of wallet totals and, per transaction, what was
    added to and subtracted from each wallet. */
module Ledger {
  import opened Bytes
  import opened Base58Spec

  type Str = seq<Byte>
  type Hash = seq<Byte>
  type Record = map<Str, nat>

  const DOLLAR: Byte := '$' as int

  /** A contract id starts with its only '$'. */
  predicate IsContractId(c: Str) {
    |c| > 0 && c[0] == DOLLAR && forall i :: 0 < i < |c| ==> c[i] != DOLLAR
  }

  /** Totals are stored under the raw address ... */
  function RawKey(wallet: Str, contract: Str): Str { wallet + contract }

  /** ... and the records of a transaction under the Base58 address. */
  function LedgerKey(wallet: Str, contract: Str): Str { Encode(wallet) + contract }

  function WalletPart(key: Str): Str
    requires FindLast(key, DOLLAR) >= 0
  {
    key[..FindLast(key, DOLLAR)]
  }

  function ContractPart(key: Str): Str
    requires FindLast(key, DOLLAR) >= 0
  {
    key[FindLast(key, DOLLAR)..]
  }

  /** The last '$' splits a raw key again, whatever bytes the address has. */
  lemma SplitKey(wallet: Str, contract: Str)
    requires IsContractId(contract)
    ensures FindLast(wallet + contract, DOLLAR) == |wallet|
    ensures WalletPart(wallet + contract) == wallet && ContractPart(wallet + contract) == contract
  {
    var rest := contract[1..];
    assert wallet + contract == wallet + [DOLLAR] + rest;
    hide FindLast;
    FindLastAt(wallet, DOLLAR, rest);
  }

  lemma RawKeyInjective(w1: Str, c1: Str, w2: Str, c2: Str)
    requires IsContractId(c1) && IsContractId(c2) && RawKey(w1, c1) == RawKey(w2, c2)
    ensures w1 == w2 && c1 == c2
  {
    SplitKey(w1, c1);
    SplitKey(w2, c2);
  }

  lemma LedgerKeyInjective(w1: Str, c1: Str, w2: Str, c2: Str)
    requires IsContractId(c1) && IsContractId(c2) && LedgerKey(w1, c1) == LedgerKey(w2, c2)
    ensures w1 == w2 && c1 == c2
  {
    hide Encode;
    SplitKey(Encode(w1), c1);
    SplitKey(Encode(w2), c2);
    EncodeInjective(w1, w2);
  }

  /** Everything that is stored while transactions are processed. `order` lists the hashes with
      records in the order of their first record. */
  datatype Books = Books(stored: map<Str, nat>, processed: map<Str, nat>,
                         adds: map<Hash, Record>, subs: map<Hash, Record>, order: seq<Hash>)

  function Amount(ledgers: map<Hash, Record>, h: Hash, key: Str): nat {
    if h in ledgers && key in ledgers[h] then ledgers[h][key] else 0
  }

  function Lookup(m: map<Str, nat>, k: Str): nat { if k in m then m[k] else 0 }

  /** The pending total of a raw key: the overlay, else what is stored. */
  function Total(b: Books, key: Str): nat {
    if key in b.processed then b.processed[key] else Lookup(b.stored, key)
  }

  predicate Exists(b: Books, key: Str) { key in b.processed || key in b.stored }

  /** The recorded amount, and the pending total, of a wallet's holding of a contract. */
  function AmountFor(ledgers: map<Hash, Record>, h: Hash, wallet: Str, contract: Str): nat {
    Amount(ledgers, h, LedgerKey(wallet, contract))
  }

  function TotalFor(b: Books, wallet: Str, contract: Str): nat { Total(b, RawKey(wallet, contract)) }

  /** What is stored, plus what the first i transactions added, minus what they subtracted. */
  function Accounted(b: Books, wallet: Str, contract: Str, i: nat): int
    requires i <= |b.order|
  {
    if i == 0 then Lookup(b.stored, RawKey(wallet, contract))
    else
      Accounted(b, wallet, contract, i - 1)
      + AmountFor(b.adds, b.order[i - 1], wallet, contract) - AmountFor(b.subs, b.order[i - 1], wallet, contract)
  }

  ghost predicate Listed(b: Books) {
    && (forall i, j :: 0 <= i < j < |b.order| ==> b.order[i] != b.order[j])
    && b.adds.Keys + b.subs.Keys <= set h | h in b.order
  }

  /** The law of the ledger: every pending total is the stored one plus all additions minus all
      subtractions. */
  ghost predicate Balanced(b: Books) {
    forall w, c :: IsContractId(c) ==> TotalFor(b, w, c) == Accounted(b, w, c, |b.order|)
  }

  /** An operation under h recorded the amounts f in one of the two records. */
  ghost predicate Recorded(ledgers: map<Hash, Record>, ledgers': map<Hash, Record>, h: Hash, contract: Str, f: Str -> int) {
    && ledgers'.Keys <= ledgers.Keys + {h}
    && forall g, w, c :: IsContractId(c) ==>
        AmountFor(ledgers', g, w, c) == AmountFor(ledgers, g, w, c) + (if g == h && c == contract then f(w) else 0)
  }

  /** How one operation changes the books: what it records per wallet as added and subtracted
      under h, and by how much it changes the wallet's total. */
  ghost predicate Moved(b: Books, b': Books, h: Hash, contract: Str,
                        added: Str -> int, subtracted: Str -> int, change: Str -> int) {
    && b'.stored == b.stored
    && b'.order == (if h in b.order then b.order else b.order + [h])
    && Recorded(b.adds, b'.adds, h, contract, added)
    && Recorded(b.subs, b'.subs, h, contract, subtracted)
    && forall w, c :: IsContractId(c) ==>
        TotalFor(b', w, c) == TotalFor(b, w, c) + (if c == contract then change(w) else 0)
  }

  lemma ListedMoves(b: Books, b': Books, h: Hash, contract: Str,
                    added: Str -> int, subtracted: Str -> int, change: Str -> int)
    requires Listed(b) && Moved(b, b', h, contract, added, subtracted, change)
    ensures Listed(b')
  {}

  /** Transactions before h are accounted for as before; from h on the difference shows. */
  lemma {:induction false} AccountedBefore(b: Books, b': Books, h: Hash, contract: Str,
                                           added: Str -> int, subtracted: Str -> int, change: Str -> int,
                                           w: Str, c: Str, i: nat)
    requires Listed(b) && Moved(b, b', h, contract, added, subtracted, change) && IsContractId(c) && i <= |b.order|
    ensures i <= |b'.order| && b'.order[..i] == b.order[..i]
    ensures Accounted(b', w, c, i)
         == Accounted(b, w, c, i) + if c == contract && h in b.order[..i] then added(w) - subtracted(w) else 0
  {
    hide AmountFor, Recorded, TotalFor, Listed;
    if i > 0 {
      var g := b.order[i - 1];
      AccountedBefore(b, b', h, contract, added, subtracted, change, w, c, i - 1);
      MovedAt(b, b', h, contract, added, subtracted, change, g, w, c);
      OrderStep(b, h, i);
    }
  }

  lemma AccountedMoves(b: Books, b': Books, h: Hash, contract: Str,
                       added: Str -> int, subtracted: Str -> int, change: Str -> int, w: Str, c: Str, i: nat)
    requires Listed(b) && Moved(b, b', h, contract, added, subtracted, change) && IsContractId(c) && i <= |b'.order|
    ensures Accounted(b', w, c, i)
         == Accounted(b, w, c, if i <= |b.order| then i else |b.order|)
          + if c == contract && h in b'.order[..i] then added(w) - subtracted(w) else 0
  {
    hide AmountFor, Recorded, TotalFor, Listed;
    if i <= |b.order| {
      AccountedBefore(b, b', h, contract, added, subtracted, change, w, c, i);
    } else {
      AccountedBefore(b, b', h, contract, added, subtracted, change, w, c, i - 1);
      MovedAt(b, b', h, contract, added, subtracted, change, h, w, c);
      NothingRecorded(b, h, w, c);
      assert b'.order[i - 1] == h && b.order[..i - 1] == b.order;
    }
  }

  lemma MovedAt(b: Books, b': Books, h: Hash, contract: Str, added: Str -> int, subtracted: Str -> int, change: Str -> int,
                g: Hash, w: Str, c: Str)
    requires Moved(b, b', h, contract, added, subtracted, change) && IsContractId(c)
    ensures AmountFor(b'.adds, g, w, c) == AmountFor(b.adds, g, w, c) + if g == h && c == contract then added(w) else 0
    ensures AmountFor(b'.subs, g, w, c) == AmountFor(b.subs, g, w, c) + if g == h && c == contract then subtracted(w) else 0
  {
    hide AmountFor, TotalFor;
  }

  /** A hash comes up once in the order. */
  lemma OrderStep(b: Books, h: Hash, i: nat)
    requires Listed(b) && 0 < i <= |b.order|
    ensures h in b.order[..i] <==> h in b.order[..i - 1] || b.order[i - 1] == h
    ensures b.order[i - 1] == h ==> h !in b.order[..i - 1]
  {
    assert b.order[..i] == b.order[..i - 1] + [b.order[i - 1]];
  }

  lemma NothingRecorded(b: Books, h: Hash, w: Str, c: Str)
    requires Listed(b) && h !in b.order
    ensures AmountFor(b.adds, h, w, c) == 0 && AmountFor(b.subs, h, w, c) == 0
  {}

  /** An operation keeps the books balanced exactly if it changes every total by what it records. */
  lemma MovedBalance(b: Books, b': Books, h: Hash, contract: Str,
                     added: Str -> int, subtracted: Str -> int, change: Str -> int)
    requires Listed(b) && Balanced(b) && IsContractId(contract)
    requires Moved(b, b', h, contract, added, subtracted, change)
    ensures Balanced(b') <==> forall w :: change(w) == added(w) - subtracted(w)
  {
    hide TotalFor, Accounted;
    forall w, c | IsContractId(c)
      ensures TotalFor(b', w, c) - Accounted(b', w, c, |b'.order|)
           == if c == contract then change(w) - (added(w) - subtracted(w)) else 0
    {
      AccountedMoves(b, b', h, contract, added, subtracted, change, w, c, |b'.order|);
      assert b'.order[..|b'.order|] == b'.order;
    }
    if Balanced(b') {
      forall w ensures change(w) == added(w) - subtracted(w) {
        assert TotalFor(b', w, contract) == Accounted(b', w, contract, |b'.order|);
      }
    }
  }
}
