/** The nonces of wallets: what a transaction does to them, and what that means for a whole run. */
module Nonces {

  type uint64 = x: int | 0 <= x < 0x1_0000_0000_0000_0000

  /** The message a wrapper holds; NO_TXN stands for none of them. */
  datatype Kind =
    | COIN | CONTRACT | PROPOSAL | VOTE | MINT | ITEM_MINT | NFT | CONTRACT_UPDATE | SMART_CONTRACT
    | SMART_CONTRACT_EXECUTE | AUTH_CUR_EQUIV | SELF_CUR_EQUIV | EXPENSE_RATIO | FOUNDATION | DELEGATED_VOTING | QUASH
    | FAST_QUORUM | REVOKE | COMPLIANCE | PROPOSAL_RESULT | BURN_SBT | VALIDATOR_HEARTBEAT | VALIDATOR_REGISTRATION
    | SMART_CONTRACT_INSTANTIATE | REQUIRED_VERSION | ALLOWANCE | NO_TXN

  datatype Signer = Key(address: string) | GovernanceAuth(address: string)

  datatype Entry = Entry(signer: Signer, nonce: uint64)

  /** A transaction. `entries` are the keys whose nonces are checked: the signers of a coin
      transaction, the registered validator's key for a heartbeat, the validator's key for a
      registration, and the base key for all others. `govKnown`: the hash is a pending governance
      transaction's. `barred`: refused before its nonce is looked at, because a heartbeat's validator
      is not registered, or the key is not one that registrations or required versions accept. The last four are what a
      registration needs: its base key, whether a key is of a kind refused after the fees, whether it
      registers or unbonds, and whether the validator is known. */
  datatype Message = Message(kind: Kind, hash: string, entries: seq<Entry>, govKnown: bool, barred: bool,
                             base: Signer, multi: bool, register: bool, known: bool)

  /** Only coin transactions have other than one key to check. */
  type Txn = t: Message | t.kind == COIN || |t.entries| == 1
    witness Message(COIN, "", [], false, false, Key(""), false, false, false)

  datatype Status = OK | NONCE_ERROR | BLOCK_FAULTY_TXN | DUPLICATE_TXN_ERROR | TXN_FAILED

  /** What the rest of the program decides about one attempt: whether everything before the nonce is
      used up succeeds, whether the interface fee is paid, and whether the last checks pass. */
  datatype Outcome = Outcome(paid: bool, interfacePaid: bool, passed: bool)

  // ---- the nonce of a wallet ----------------------------------------------------------------

  /** The stored nonces of the wallets and those used since. */
  datatype Tracker = Tracker(walletNonce: map<Signer, uint64>, preprocessed: map<Signer, uint64>)

  /** The nonce a wallet has to use next. */
  function Next(t: Tracker, s: Signer): nat {
    if s in t.preprocessed then t.preprocessed[s] as int + 1
    else if s in t.walletNonce then t.walletNonce[s] as int + 1
    else 1
  }

  /** check_nonce: the status for one key. */
  function NonceStatus(t: Tracker, e: Entry, govKnown: bool): Status {
    if e.signer.GovernanceAuth? then (if govKnown then OK else BLOCK_FAULTY_TXN)
    else if e.nonce == Next(t, e.signer) then OK
    else if e.nonce > Next(t, e.signer) || (e.signer !in t.preprocessed && e.signer !in t.walletNonce) then NONCE_ERROR
    else BLOCK_FAULTY_TXN
  }

  /** The status for several keys is that of the first that fails. */
  function SignersStatus(t: Tracker, entries: seq<Entry>, govKnown: bool): Status {
    if entries == [] then OK
    else
      var before := SignersStatus(t, entries[..|entries| - 1], govKnown);
      if before != OK then before else NonceStatus(t, entries[|entries| - 1], govKnown)
  }

  function AddNonces(t: Tracker, entries: seq<Entry>): Tracker {
    if entries == [] then t
    else
      var before := AddNonces(t, entries[..|entries| - 1]);
      var e := entries[|entries| - 1];
      before.(preprocessed := before.preprocessed[e.signer := e.nonce])
  }

  /** All keys use the nonce that is their wallet's next. */
  ghost predicate InTurn(t: Tracker, entries: seq<Entry>) {
    forall k :: 0 <= k < |entries| && entries[k].signer.Key? ==> entries[k].nonce == Next(t, entries[k].signer)
  }

  lemma {:induction false} OkInTurn(t: Tracker, entries: seq<Entry>, govKnown: bool)
    requires SignersStatus(t, entries, govKnown) == OK
    ensures InTurn(t, entries)
  {
    hide Next;
    if entries != [] {
      var front := entries[..|entries| - 1];
      OkInTurn(t, front, govKnown);
      assert forall k :: 0 <= k < |front| ==> entries[k] == front[k];
    }
  }

  /** A transaction authorised by governance is a pending one. */
  ghost predicate GovernancePending(txn: Txn) {
    forall k :: 0 <= k < |txn.entries| && txn.entries[k].signer.GovernanceAuth? ==> txn.govKnown
  }

  lemma {:induction false} OkIsPending(t: Tracker, entries: seq<Entry>, govKnown: bool)
    requires SignersStatus(t, entries, govKnown) == OK
    ensures forall k :: 0 <= k < |entries| && entries[k].signer.GovernanceAuth? ==> govKnown
  {
    if entries != [] {
      var front := entries[..|entries| - 1];
      OkIsPending(t, front, govKnown);
      assert forall k :: 0 <= k < |front| ==> entries[k] == front[k];
    }
  }

  predicate Names(entries: seq<Entry>, s: Signer) { exists k :: 0 <= k < |entries| && entries[k].signer == s }

  /** Using the next nonce makes the one after it the next, and does not touch other wallets. */
  lemma {:induction false} AddedNonces(t: Tracker, entries: seq<Entry>, s: Signer)
    requires forall k :: 0 <= k < |entries| && entries[k].signer == s ==> entries[k].nonce == Next(t, s)
    ensures Next(AddNonces(t, entries), s) == Next(t, s) + if Names(entries, s) then 1 else 0
  {
    if entries != [] {
      var front := entries[..|entries| - 1];
      assert forall k :: 0 <= k < |front| ==> entries[k] == front[k];
      AddedNonces(t, front, s);
      assert entries[|entries| - 1].signer == s ==> Names(entries, s);
      assert Names(entries, s) <==> Names(front, s) || entries[|entries| - 1].signer == s;
    }
  }

  // ---- what a transaction does --------------------------------------------------------------

  /** A transaction that used up nonces: accepted; a registration that was charged and then refused;
      or one that was refused with the nonce filed under its base key's wallet. */
  datatype Event = Accepted(txn: Txn) | Refused(txn: Txn) | Misfiled(base: Signer, nonce: uint64)

  datatype Effect = Nothing | Happened(event: Event)

  /** The nonces an event uses up. */
  function Uses(e: Event): seq<Entry> {
    match e
    case Accepted(txn) => if txn.kind == REQUIRED_VERSION then [] else txn.entries
    case Refused(txn) => txn.entries
    case Misfiled(base, nonce) => [Entry(base, nonce)]
  }

  /** The kinds whose nonces are checked also when the transaction was timed. */
  predicate AlwaysChecked(kind: Kind) {
    kind in {EXPENSE_RATIO, VALIDATOR_HEARTBEAT, VALIDATOR_REGISTRATION, REQUIRED_VERSION}
  }

  /** A registration that only the interface fee or the last checks can refuse once it is charged. */
  predicate Sound(txn: Txn) {
    |txn.entries| == 1 && txn.base == txn.entries[0].signer && !txn.multi && (txn.known || txn.register)
  }

  /** Once a registration is charged, its nonce is used up, whatever follows. */
  function RegistrationVerdict(txn: Txn, o: Outcome): (Status, Effect)
    requires txn.kind == VALIDATOR_REGISTRATION
  {
    if !o.interfacePaid || txn.multi then (TXN_FAILED, Happened(Refused(txn)))
    else if txn.base != txn.entries[0].signer then (TXN_FAILED, Happened(Misfiled(txn.base, txn.entries[0].nonce)))
    else if (!txn.known && !txn.register) || (txn.register && !o.passed) then (TXN_FAILED, Happened(Refused(txn)))
    else (OK, Happened(Accepted(txn)))
  }

  /** process_txn of each kind: the status returned and the nonces used up. */
  function Verdict(t: Tracker, txn: Txn, timed: bool, o: Outcome): (Status, Effect) {
    var nonces := if timed && !AlwaysChecked(txn.kind) then OK else SignersStatus(t, txn.entries, txn.govKnown);
    if txn.barred && txn.kind == VALIDATOR_HEARTBEAT then (TXN_FAILED, Nothing)
    else if txn.barred && txn.kind in {VALIDATOR_REGISTRATION, REQUIRED_VERSION} then (BLOCK_FAULTY_TXN, Nothing)
    else if txn.kind == COIN && timed && |txn.entries| > 1 then (BLOCK_FAULTY_TXN, Nothing)
    else if txn.kind == REQUIRED_VERSION && txn.entries[0].signer.Key? then (BLOCK_FAULTY_TXN, Nothing)
    else if nonces != OK then (if txn.kind in {MINT, REQUIRED_VERSION} then BLOCK_FAULTY_TXN else nonces, Nothing)
    else if !o.paid then (TXN_FAILED, Nothing)
    else if txn.kind == VALIDATOR_REGISTRATION then RegistrationVerdict(txn, o)
    else (OK, Happened(Accepted(txn)))
  }

  /** Whoever used up a nonce used the next one, except for what was filed under another wallet. */
  lemma VerdictInTurn(t: Tracker, txn: Txn, timed: bool, o: Outcome)
    ensures var (status, effect) := Verdict(t, txn, timed, o);
            && (status == OK <==> effect == Happened(Accepted(txn)))
            && (effect.Happened? && (!timed || AlwaysChecked(txn.kind)) ==> InTurn(t, txn.entries))
            && (effect.Happened? && (!timed || AlwaysChecked(txn.kind)) ==> GovernancePending(txn))
            && (effect.Happened? && effect.event != Accepted(txn) ==>
                  txn.kind == VALIDATOR_REGISTRATION && !(o.interfacePaid && o.passed && Sound(txn))
                  && effect.event == if txn.base == txn.entries[0].signer || !o.interfacePaid || txn.multi then Refused(txn)
                                     else Misfiled(txn.base, txn.entries[0].nonce))
  {
    if SignersStatus(t, txn.entries, txn.govKnown) == OK {
      OkInTurn(t, txn.entries, txn.govKnown);
      OkIsPending(t, txn.entries, txn.govKnown);
    }
    hide GovernancePending;
    hide Next, SignersStatus, AlwaysChecked, InTurn;
  }

  // ---- runs ---------------------------------------------------------------------------------

  function After(t: Tracker, log: seq<Event>): Tracker {
    if log == [] then t else AddNonces(After(t, log[..|log| - 1]), Uses(log[|log| - 1]))
  }

  /** Everything but what was misfiled used nonces in turn. */
  ghost predicate Honest(start: Tracker, log: seq<Event>) {
    forall i :: 0 <= i < |log| ==> log[i].Misfiled? || InTurn(After(start, log[..i]), Uses(log[i]))
  }

  /** How many events use up a nonce of the wallet, and how many of them are acceptances. */
  function Used(log: seq<Event>, s: Signer): nat {
    if log == [] then 0 else Used(log[..|log| - 1], s) + if Names(Uses(log[|log| - 1]), s) then 1 else 0
  }

  function UsedWell(log: seq<Event>, s: Signer): nat {
    if log == [] then 0
    else
      UsedWell(log[..|log| - 1], s)
      + if log[|log| - 1].Accepted? && Names(Uses(log[|log| - 1]), s) then 1 else 0
  }

  /** The nonces used up go on one by one from the wallet's next one. */
  ghost predicate UsesFollow(start: Tracker, log: seq<Event>, s: Signer) {
    forall i, k :: 0 <= i < |log| && 0 <= k < |Uses(log[i])| && Uses(log[i])[k].signer == s ==>
      Uses(log[i])[k].nonce == Next(start, s) + Used(log[..i], s)
  }

  /** What is misfiled under the wallet happens to be its next nonce. */
  ghost predicate StraysInTurn(start: Tracker, log: seq<Event>, s: Signer) {
    forall i :: 0 <= i < |log| && log[i].Misfiled? && log[i].base == s ==> log[i].nonce == Next(After(start, log[..i]), s)
  }

  /** The accepted nonces go on one by one. */
  ghost predicate AcceptedFollow(start: Tracker, log: seq<Event>, s: Signer) {
    forall i, k :: 0 <= i < |log| && log[i].Accepted? && 0 <= k < |Uses(log[i])| && Uses(log[i])[k].signer == s ==>
      Uses(log[i])[k].nonce == Next(start, s) + UsedWell(log[..i], s)
  }

  /** No acceptance of the wallet comes after a nonce of it was used up otherwise. */
  ghost predicate NothingWasted(log: seq<Event>, s: Signer) {
    forall i, j :: 0 <= i < j < |log| && log[j].Accepted? && Names(Uses(log[j]), s) && Names(Uses(log[i]), s) ==> log[i].Accepted?
  }

  lemma AfterMore(t: Tracker, log: seq<Event>, e: Event)
    ensures After(t, log + [e]) == AddNonces(After(t, log), Uses(e))
  {
    assert (log + [e])[..|log|] == log;
  }

  lemma HonestMore(start: Tracker, log: seq<Event>, e: Event)
    requires Honest(start, log) && (e.Misfiled? || InTurn(After(start, log), Uses(e)))
    ensures Honest(start, log + [e])
  {
    hide After, InTurn;
    var more := log + [e];
    forall i | 0 <= i < |more| ensures more[i].Misfiled? || InTurn(After(start, more[..i]), Uses(more[i])) {
      assert more[..i] == log[..i];
      assert log[..|log|] == log;
    }
  }

  /** As long as the nonces used up follow, their number gives the wallet's next one. */
  lemma {:induction false} CountGivesNext(start: Tracker, log: seq<Event>, s: Signer)
    requires UsesFollow(start, log, s)
    ensures Next(After(start, log), s) == Next(start, s) + Used(log, s)
  {
    hide Next, Uses;
    if log != [] {
      var front, e := log[..|log| - 1], log[|log| - 1];
      assert forall i :: 0 <= i < |front| ==> front[..i] == log[..i];
      CountGivesNext(start, front, s);
      AddedNonces(After(start, front), Uses(e), s);
    }
  }

  /** And they follow as long as the strays are in turn. */
  lemma {:induction false} InTurnFollows(start: Tracker, log: seq<Event>, s: Signer)
    requires Honest(start, log) && s.Key? && StraysInTurn(start, log, s)
    ensures UsesFollow(start, log, s)
  {
    hide Next, After;
    if log != [] {
      var n := |log| - 1;
      var front, e := log[..n], log[n];
      assert forall i :: 0 <= i < n ==> front[..i] == log[..i] && front[i] == log[i];
      InTurnFollows(start, front, s);
      CountGivesNext(start, front, s);
      forall k | 0 <= k < |Uses(e)| && Uses(e)[k].signer == s
        ensures Uses(e)[k].nonce == Next(start, s) + Used(log[..n], s)
      {
        assert e.Misfiled? || InTurn(After(start, log[..n]), Uses(e));
      }
    }
  }

  /** All nonces used up for a wallet are consecutive exactly if nothing was misfiled under it
      out of turn. */
  lemma UsedNoncesFollow(start: Tracker, log: seq<Event>, s: Signer)
    requires Honest(start, log) && s.Key?
    ensures UsesFollow(start, log, s) <==> StraysInTurn(start, log, s)
    ensures UsesFollow(start, log, s) ==> Next(After(start, log), s) == Next(start, s) + Used(log, s)
  {
    hide Next, After, Honest;
    if StraysInTurn(start, log, s) {
      InTurnFollows(start, log, s);
    }
    if UsesFollow(start, log, s) {
      CountGivesNext(start, log, s);
      forall i | 0 <= i < |log| && log[i].Misfiled? && log[i].base == s
        ensures log[i].nonce == Next(After(start, log[..i]), s)
      {
        assert forall j :: 0 <= j < i ==> log[..i][..j] == log[..j];
        CountGivesNext(start, log[..i], s);
        assert Uses(log[i])[0].signer == s;
      }
    }
  }

  /** The acceptances among the uses: all of them as long as nothing was wasted. */
  lemma {:induction false} WasteCount(log: seq<Event>, s: Signer)
    ensures UsedWell(log, s) <= Used(log, s)
    ensures UsedWell(log, s) == Used(log, s) <==> forall i :: 0 <= i < |log| && Names(Uses(log[i]), s) ==> log[i].Accepted?
  {
    hide Names, Uses;
    if log != [] {
      var front := log[..|log| - 1];
      WasteCount(front, s);
      assert log == front + [log[|log| - 1]];
    }
  }

  /** A wallet's accepted nonces are consecutive exactly if none was accepted after another one had
      been used up by a refused registration. */
  lemma AcceptedNoncesFollow(start: Tracker, log: seq<Event>, s: Signer)
    requires UsesFollow(start, log, s)
    ensures AcceptedFollow(start, log, s) <==> NothingWasted(log, s)
  {
    hide Next, Uses;
    if AcceptedFollow(start, log, s) {
      forall i, j | 0 <= i < j < |log| && log[j].Accepted? && Names(Uses(log[j]), s) && Names(Uses(log[i]), s)
        ensures log[i].Accepted?
      {
        var k :| 0 <= k < |Uses(log[j])| && Uses(log[j])[k].signer == s;
        WasteCount(log[..j], s);
        assert log[..j][i] == log[i];
      }
    }
    if NothingWasted(log, s) {
      forall j, k | 0 <= j < |log| && log[j].Accepted? && 0 <= k < |Uses(log[j])| && Uses(log[j])[k].signer == s
        ensures Uses(log[j])[k].nonce == Next(start, s) + UsedWell(log[..j], s)
      {
        assert Names(Uses(log[j]), s);
        WasteCount(log[..j], s);
      }
    }
  }

  /** A registration that is charged and refused leaves a gap: nonce 1 of the wallet is used up but
      not accepted, and nonce 2 is accepted. */
  lemma RegistrationLeavesGap(w: string)
    ensures var start := Tracker(map[], map[]);
            var registration := Message(VALIDATOR_REGISTRATION, "a", [Entry(Key(w), 1)], false, false, Key(w), false, false, false);
            var coin := Message(COIN, "b", [Entry(Key(w), 2)], false, false, Key(w), false, false, false);
            var o := Outcome(true, true, true);
            && Verdict(start, registration, false, o) == (TXN_FAILED, Happened(Refused(registration)))
            && Verdict(After(start, [Refused(registration)]), coin, false, o) == (OK, Happened(Accepted(coin)))
            && !AcceptedFollow(start, [Refused(registration), Accepted(coin)], Key(w))
  {
    var start := Tracker(map[], map[]);
    var registration := Message(VALIDATOR_REGISTRATION, "a", [Entry(Key(w), 1)], false, false, Key(w), false, false, false);
    var coin := Message(COIN, "b", [Entry(Key(w), 2)], false, false, Key(w), false, false, false);
    OneEntry(start, Entry(Key(w), 1), false);
    var log := [Refused(registration), Accepted(coin)];
    AfterMore(start, [], Refused(registration));
    assert [] + [Refused(registration)] == [Refused(registration)];
    var now := After(start, [Refused(registration)]);
    assert now == AddNonces(start, [Entry(Key(w), 1)]);
    OneEntry(now, Entry(Key(w), 2), false);
    assert log[..1] == [Refused(registration)] && log[..1][..0] == [];
    assert UsedWell(log[..1], Key(w)) == 0;
    assert Uses(log[1])[0].nonce != Next(start, Key(w)) + UsedWell(log[..1], Key(w));
  }

  lemma OneEntry(t: Tracker, e: Entry, govKnown: bool)
    ensures SignersStatus(t, [e], govKnown) == NonceStatus(t, e, govKnown)
    ensures AddNonces(t, [e]) == t.(preprocessed := t.preprocessed[e.signer := e.nonce])
  {
    assert [e][..0] == [];
  }

  /** A registration whose two keys differ sets the base key's wallet back: a nonce that was used
      before is next again. */
  lemma MisfiledSetsBack(v: string, w: string, hash: string)
    requires v != w
    ensures var start := Tracker(map[Key(w) := 5], map[]);
            var registration := Message(VALIDATOR_REGISTRATION, hash, [Entry(Key(v), 1)], false, false, Key(w), false, true, false);
            && Verdict(start, registration, false, Outcome(true, true, true)) == (TXN_FAILED, Happened(Misfiled(Key(w), 1)))
            && Next(start, Key(w)) == 6 && Next(After(start, [Misfiled(Key(w), 1)]), Key(w)) == 2
  {
    var start := Tracker(map[Key(w) := 5], map[]);
    OneEntry(start, Entry(Key(v), 1), false);
    OneEntry(start, Entry(Key(w), 1), false);
    assert [Misfiled(Key(w), 1)][..0] == [];
  }
}
