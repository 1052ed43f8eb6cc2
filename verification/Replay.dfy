/** What processing transactions keeps so that their records can be replayed in processing order. */
module Replay {
  import opened Ledger
  import opened BalanceTracker
  import Texts

  // ---- what processing one transaction after the other keeps -------------------------------

  ghost predicate HasRecord(ledgers: map<Hash, Record>, h: Hash, wallet: Str, contract: Str) {
    h in ledgers && LedgerKey(wallet, contract) in ledgers[h]
  }

  /** The wallet is stored, or one of the first i transactions added to it. */
  ghost predicate KnownBy(b: Books, wallet: Str, contract: Str, i: nat)
    requires i <= |b.order|
  {
    if i == 0 then RawKey(wallet, contract) in b.stored
    else KnownBy(b, wallet, contract, i - 1) || HasRecord(b.adds, b.order[i - 1], wallet, contract)
  }

  /** No total was negative after any transaction. */
  ghost predicate NeverNegative(b: Books) {
    forall i, w, c :: 0 <= i <= |b.order| && IsContractId(c) ==> Accounted(b, w, c, i) >= 0
  }

  /** Wallets with a total, and wallets that were debited, were known by then. */
  ghost predicate Backed(b: Books) {
    && (forall w, c :: IsContractId(c) && RawKey(w, c) in b.processed ==> KnownBy(b, w, c, |b.order|))
    && (forall i, w, c :: 0 <= i < |b.order| && IsContractId(c) && HasRecord(b.subs, b.order[i], w, c)
          ==> KnownBy(b, w, c, i + 1))
  }

  ghost predicate IsLedgerKey(key: Str) {
    exists w, c :: IsContractId(c) && key == LedgerKey(w, c)
  }

  ghost predicate WellKeyed(ledgers: map<Hash, Record>) {
    forall h, key :: h in ledgers && key in ledgers[h] ==> IsLedgerKey(key)
  }

  /** The invariant of a run: the records can be replayed in order. */
  ghost predicate Replayable(b: Books) {
    && Listed(b) && Balanced(b) && NeverNegative(b) && Backed(b) && WellKeyed(b.adds) && WellKeyed(b.subs)
  }

  /** h is the transaction at work: new, or the last one with records. */
  predicate Current(b: Books, h: Hash) {
    h in b.order ==> h == b.order[|b.order| - 1]
  }

  lemma {:induction false} KnownMore(b: Books, w: Str, c: Str, i: nat, j: nat)
    requires i <= j <= |b.order| && KnownBy(b, w, c, i)
    ensures KnownBy(b, w, c, j)
    decreases j
  {
    if i < j { KnownMore(b, w, c, i, j - 1); }
  }

  /** A move under the current transaction leaves everything accounted before it as it was. */
  lemma MoveNeverNegative(b: Books, b': Books, h: Hash, contract: Str,
                          added: Str -> int, subtracted: Str -> int, change: Str -> int)
    requires Listed(b) && NeverNegative(b) && Current(b, h) && IsContractId(contract)
    requires Moved(b, b', h, contract, added, subtracted, change) && Balanced(b')
    ensures NeverNegative(b')
  {
    hide TotalFor, Accounted, Recorded;
    forall i, w, c | 0 <= i <= |b'.order| && IsContractId(c)
      ensures Accounted(b', w, c, i) >= 0
    {
      if i == |b'.order| {
        assert TotalFor(b', w, c) == Accounted(b', w, c, i);
      } else {
        AccountedMoves(b, b', h, contract, added, subtracted, change, w, c, i);
        assert h !in b'.order[..i];
      }
    }
  }

  lemma {:induction false} KnownTouched(b: Books, b': Books, h: Hash, contract: Str, ts: seq<Transfer>, adding: bool,
                                        w: Str, c: Str, i: nat)
    requires Touched(b, b', h, contract, ts, adding) && b'.stored == b.stored && i <= |b.order|
    requires |b'.order| >= |b.order| && b'.order[..|b.order|] == b.order
    requires KnownBy(b, w, c, i)
    ensures KnownBy(b', w, c, i)
  {
    hide LedgerKey, RawKey;
    if i > 0 {
      assert b'.order[i - 1] == b'.order[..|b.order|][i - 1];
      if KnownBy(b, w, c, i - 1) {
        KnownTouched(b, b', h, contract, ts, adding, w, c, i - 1);
      } else {
        assert HasRecord(b.adds, b.order[i - 1], w, c);
        assert HasRecord(b'.adds, b.order[i - 1], w, c);
      }
    }
  }

  /** Keys of the records and totals of one operation: old ones, or one of its wallets'. */
  lemma TouchedKeys(b: Books, b': Books, h: Hash, contract: Str, ts: seq<Transfer>, adding: bool, w: Str, c: Str)
    requires Touched(b, b', h, contract, ts, adding) && IsContractId(contract) && IsContractId(c)
    ensures RawKey(w, c) in b'.processed
        ==> RawKey(w, c) in b.processed || (c == contract && exists t :: t in ts && t.wallet == w)
    ensures forall g :: HasRecord(b'.subs, g, w, c) && !HasRecord(b.subs, g, w, c) ==>
        !adding && g == h && c == contract && exists t :: t in ts && t.wallet == w
    ensures adding && c == contract && (exists t :: t in ts && t.wallet == w) ==> HasRecord(b'.adds, h, w, c)
  {
    hide LedgerKey, RawKey;
    if RawKey(w, c) in RawKeys(ts, contract) {
      var t :| t in ts && RawKey(t.wallet, contract) == RawKey(w, c);
      RawKeyInjective(t.wallet, contract, w, c);
    }
    if LedgerKey(w, c) in LedgerKeys(ts, contract) {
      var t :| t in ts && LedgerKey(t.wallet, contract) == LedgerKey(w, c);
      LedgerKeyInjective(t.wallet, contract, w, c);
    }
  }

  /** A wallet named by an operation is known when the operation is done. */
  lemma NamedIsKnown(b: Books, b': Books, h: Hash, contract: Str, ts: seq<Transfer>, adding: bool, t: Transfer)
    requires Touched(b, b', h, contract, ts, adding) && b'.stored == b.stored && IsContractId(contract) && t in ts
    requires |b'.order| > 0 && b'.order[|b'.order| - 1] == h
    requires |b'.order| >= |b.order| && b'.order[..|b.order|] == b.order && Backed(b)
    ensures KnownBy(b', t.wallet, contract, |b'.order|)
  {
    hide LedgerKey, RawKey;
    TouchedKeys(b, b', h, contract, ts, adding, t.wallet, contract);
    if !adding {
      var i :| 0 <= i < |ts| && ts[i] == t;
      assert Exists(b, RawKey(ts[i].wallet, contract));
      if RawKey(t.wallet, contract) in b.processed {
        OldIsKnown(b, b', h, contract, ts, adding, t.wallet, contract, |b.order|);
      } else {
        KnownMore(b', t.wallet, contract, 0, |b'.order|);
      }
    }
  }

  lemma OldIsKnown(b: Books, b': Books, h: Hash, contract: Str, ts: seq<Transfer>, adding: bool, w: Str, c: Str, i: nat)
    requires Touched(b, b', h, contract, ts, adding) && b'.stored == b.stored && i <= |b.order|
    requires |b'.order| >= |b.order| && b'.order[..|b.order|] == b.order && KnownBy(b, w, c, i)
    ensures KnownBy(b', w, c, i) && KnownBy(b', w, c, |b'.order|)
  {
    KnownTouched(b, b', h, contract, ts, adding, w, c, i);
    KnownMore(b', w, c, i, |b'.order|);
  }

  lemma MoveBacked(b: Books, b': Books, h: Hash, contract: Str, ts: seq<Transfer>, adding: bool)
    requires Listed(b) && Listed(b') && Backed(b) && Current(b, h) && IsContractId(contract)
    requires Touched(b, b', h, contract, ts, adding) && b'.stored == b.stored
    requires b'.order == (if h in b.order then b.order else b.order + [h])
    ensures Backed(b')
  {
    hide LedgerKey, RawKey, Touched, KnownBy, HasRecord;
    var n := |b'.order|;
    assert b'.order[n - 1] == h && b'.order[..|b.order|] == b.order;
    forall w, c | IsContractId(c) && RawKey(w, c) in b'.processed
      ensures KnownBy(b', w, c, n)
    {
      TouchedKeys(b, b', h, contract, ts, adding, w, c);
      if RawKey(w, c) in b.processed {
        OldIsKnown(b, b', h, contract, ts, adding, w, c, |b.order|);
      } else {
        var t :| t in ts && t.wallet == w;
        NamedIsKnown(b, b', h, contract, ts, adding, t);
      }
    }
    forall i, w, c | 0 <= i < n && IsContractId(c) && HasRecord(b'.subs, b'.order[i], w, c)
      ensures KnownBy(b', w, c, i + 1)
    {
      TouchedKeys(b, b', h, contract, ts, adding, w, c);
      if HasRecord(b.subs, b'.order[i], w, c) {
        RecordListed(b, b'.order[i], w, c);
        assert i < |b.order| by { OnlyOnce(b, b', h, i); }
        OldIsKnown(b, b', h, contract, ts, adding, w, c, i + 1);
      } else {
        assert i == n - 1;
        var t :| t in ts && t.wallet == w;
        NamedIsKnown(b, b', h, contract, ts, adding, t);
      }
    }
  }

  lemma RecordListed(b: Books, h: Hash, w: Str, c: Str)
    requires Listed(b) && HasRecord(b.subs, h, w, c)
    ensures h in b.order
  {}

  lemma OnlyOnce(b: Books, b': Books, h: Hash, i: nat)
    requires Listed(b') && b'.order == (if h in b.order then b.order else b.order + [h])
    requires i < |b'.order| && b'.order[i] in b.order
    ensures i < |b.order|
  {}

  lemma MoveWellKeyed(b: Books, b': Books, h: Hash, contract: Str, ts: seq<Transfer>, adding: bool)
    requires Touched(b, b', h, contract, ts, adding) && IsContractId(contract)
    requires WellKeyed(b.adds) && WellKeyed(b.subs)
    ensures WellKeyed(b'.adds) && WellKeyed(b'.subs)
  {
    hide LedgerKey, RawKey;
    assert forall key :: key in LedgerKeys(ts, contract) ==> IsLedgerKey(key);
  }

  /** Every operation of the transaction at work keeps the records replayable. */
  lemma StepReplayable(b: Books, b': Books, h: Hash, contract: Str, added: Str -> int, subtracted: Str -> int,
                       change: Str -> int, ts: seq<Transfer>, adding: bool)
    requires Replayable(b) && Current(b, h) && IsContractId(contract)
    requires Moved(b, b', h, contract, added, subtracted, change) && Balanced(b')
    requires Touched(b, b', h, contract, ts, adding)
    ensures Replayable(b') && Current(b', h)
  {
    hide Balanced, NeverNegative, Backed, WellKeyed, Touched, Recorded;
    ListedMoves(b, b', h, contract, added, subtracted, change);
    MoveNeverNegative(b, b', h, contract, added, subtracted, change);
    MoveBacked(b, b', h, contract, ts, adding);
    MoveWellKeyed(b, b', h, contract, ts, adding);
  }

  lemma EmptyReplayable(b: Books)
    requires b.processed == map[] && b.adds == map[] && b.subs == map[] && b.order == []
    requires Listed(b) && Balanced(b)
    ensures Replayable(b)
  {}

  // ---- the placeholder ----------------------------------------------------------------------

  /** Stands for the fee address while transactions are processed. */
  const PLACEHOLDER: Str := Texts.AsBytes("ThiSiSaPrePrOcesSPlaCeHolDer")

  /** The placeholder is only ever credited. */
  ghost predicate NoPlaceholderDebit(b: Books) {
    forall h, c :: IsContractId(c) ==> !HasRecord(b.subs, h, PLACEHOLDER, c)
  }
}
