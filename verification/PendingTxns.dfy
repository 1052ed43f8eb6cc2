/** Two-pass processing of pending transactions. */
module PendingTxns {
  import opened Nonces
  import opened NonceOrder

  function Applied(t: Tracker, effect: Effect): Tracker {
    match effect
    case Nothing => t
    case Happened(e) => AddNonces(t, Uses(e))
  }

  /** processTransaction: duplicates are refused before anything else. A proposal result carries no
      nonce; it succeeds or not. */
  function Processed(t: Tracker, blockTxns: set<string>, txn: Txn, timed: bool, o: Outcome): (Status, Effect) {
    if txn.kind == NO_TXN then (TXN_FAILED, Nothing)
    else if txn.kind == PROPOSAL_RESULT then (if o.paid then OK else TXN_FAILED, Nothing)
    else if txn.hash in blockTxns && (!timed || txn.kind == EXPENSE_RATIO) then (DUPLICATE_TXN_ERROR, Nothing)
    else Verdict(t, txn, timed, o)
  }

  predicate IsAccepted(effect: Effect) { effect.Happened? && effect.event.Accepted? }

  // ---- what a run keeps ---------------------------------------------------------------------

  /** The transactions accepted in a run. */
  function Block(log: seq<Event>): seq<Txn> {
    if log == [] then []
    else Block(log[..|log| - 1]) + match log[|log| - 1] case Accepted(txn) => [txn] case _ => []
  }

  function Logged(log: seq<Event>, effect: Effect): seq<Event> {
    match effect
    case Nothing => log
    case Happened(e) => log + [e]
  }

  ghost predicate OnlyAccepted(log: seq<Event>) { forall i :: 0 <= i < |log| ==> log[i].Accepted? }

  /** The accepted transactions are new, each once, and all recorded. */
  ghost predicate Once(hashes: set<string>, blockTxns: set<string>, block: seq<Txn>) {
    && blockTxns == hashes + (set t | t in block :: t.hash)
    && (forall i :: 0 <= i < |block| ==> block[i].hash !in hashes)
    && (forall i, j :: 0 <= i < j < |block| ==> block[i].hash != block[j].hash)
  }

  /** What holds after any part of a run whose nonces are checked. */
  ghost predicate Told(start: Tracker, hashes: set<string>, now: Tracker, blockTxns: set<string>, log: seq<Event>) {
    && now == After(start, log) && Honest(start, log) && Once(hashes, blockTxns, Block(log))
    && (OnlyAccepted(log) ==> Consecutive(start, now, Block(log)))
  }

  lemma NothingTold(start: Tracker, hashes: set<string>)
    ensures Told(start, hashes, start, hashes, [])
  {}

  lemma OnceMore(hashes: set<string>, blockTxns: set<string>, block: seq<Txn>, txn: Txn)
    requires Once(hashes, blockTxns, block) && txn.hash !in blockTxns
    ensures Once(hashes, blockTxns + {txn.hash}, block + [txn])
  {
    assert forall t :: t in block + [txn] <==> t in block || t == txn;
    forall i | 0 <= i < |block| ensures block[i].hash != txn.hash {
      assert block[i] in block;
    }
  }

  lemma BlockMore(log: seq<Event>, e: Event)
    ensures Block(log + [e]) == Block(log) + match e case Accepted(txn) => [txn] case _ => []
    ensures OnlyAccepted(log + [e]) <==> OnlyAccepted(log) && e.Accepted?
  {
    assert (log + [e])[..|log|] == log;
    assert (log + [e])[|log|] == e;
    assert OnlyAccepted(log + [e]) ==> forall i :: 0 <= i < |log| ==> (log + [e])[i] == log[i];
  }

  /** A required version is accepted without using a nonce. */
  lemma AcceptVersion(start: Tracker, now: Tracker, accepted: seq<Txn>, txn: Txn)
    requires Consecutive(start, now, accepted) && forall k :: 0 <= k < |txn.entries| ==> !txn.entries[k].signer.Key?
    ensures Consecutive(start, now, accepted + [txn])
  {
    hide Next;
    var more := accepted + [txn];
    assert more[..|accepted|] == accepted;
    forall i, k | 0 <= i < |more| && 0 <= k < |more[i].entries|
      ensures FollowsOn(start, more, i, k)
    {
      assert more[..i] == accepted[..i];
      if i < |accepted| {
        assert FollowsOn(start, accepted, i, k);
      }
    }
  }

  lemma VersionKey(t: Tracker, txn: Txn, timed: bool, o: Outcome)
    requires txn.kind == REQUIRED_VERSION && Verdict(t, txn, timed, o).1.Happened?
    ensures forall k :: 0 <= k < |txn.entries| ==> !txn.entries[k].signer.Key?
  {
    hide SignersStatus, Next;
  }

  /** Every transaction keeps it. */
  lemma ToldMore(start: Tracker, hashes: set<string>, now: Tracker, blockTxns: set<string>, log: seq<Event>, txn: Txn, o: Outcome)
    requires Told(start, hashes, now, blockTxns, log)
    ensures var effect := Processed(now, blockTxns, txn, false, o).1;
            Told(start, hashes, Applied(now, effect), if IsAccepted(effect) then blockTxns + {txn.hash} else blockTxns,
                 Logged(log, effect))
  {
    hide Told, Verdict, InTurn, AddNonces, Uses;
    var effect := Processed(now, blockTxns, txn, false, o).1;
    if effect.Happened? {
      assert effect == Verdict(now, txn, false, o).1 && txn.hash !in blockTxns;
      VerdictInTurn(now, txn, false, o);
      UsesInTurn(now, txn, effect.event);
      if effect.event == Accepted(txn) {
        ToldAccepted(start, hashes, now, blockTxns, log, txn, o);
      } else {
        ToldOther(start, hashes, now, blockTxns, log, effect.event);
      }
    }
  }

  lemma ToldAccepted(start: Tracker, hashes: set<string>, now: Tracker, blockTxns: set<string>, log: seq<Event>, txn: Txn, o: Outcome)
    requires Told(start, hashes, now, blockTxns, log) && txn.hash !in blockTxns && InTurn(now, txn.entries)
    requires Verdict(now, txn, false, o).1 == Happened(Accepted(txn)) && InTurn(now, Uses(Accepted(txn)))
    ensures Told(start, hashes, AddNonces(now, Uses(Accepted(txn))), blockTxns + {txn.hash}, log + [Accepted(txn)])
  {
    hide Honest, Once, Consecutive, AddNonces, After, Verdict, InTurn, OnlyAccepted, Uses, Block;
    AfterMore(start, log, Accepted(txn));
    BlockMore(log, Accepted(txn));
    HonestMore(start, log, Accepted(txn));
    OnceMore(hashes, blockTxns, Block(log), txn);
    if OnlyAccepted(log) {
      ConsecutiveMore(start, now, Block(log), txn, o);
    }
  }

  lemma ToldOther(start: Tracker, hashes: set<string>, now: Tracker, blockTxns: set<string>, log: seq<Event>, e: Event)
    requires Told(start, hashes, now, blockTxns, log) && !e.Accepted? && (e.Misfiled? || InTurn(now, Uses(e)))
    ensures Told(start, hashes, AddNonces(now, Uses(e)), blockTxns, log + [e])
  {
    hide Honest, Once, Consecutive, AddNonces, After, InTurn, OnlyAccepted, Uses, Block;
    AfterMore(start, log, e);
    BlockMore(log, e);
    HonestMore(start, log, e);
    assert Block(log + [e]) == Block(log);
  }

  lemma ConsecutiveMore(start: Tracker, now: Tracker, accepted: seq<Txn>, txn: Txn, o: Outcome)
    requires Consecutive(start, now, accepted) && InTurn(now, txn.entries)
    requires Verdict(now, txn, false, o).1 == Happened(Accepted(txn))
    ensures Consecutive(start, AddNonces(now, Uses(Accepted(txn))), accepted + [txn])
  {
    hide Consecutive, InTurn, Verdict;
    if txn.kind == REQUIRED_VERSION {
      VersionKey(now, txn, false, o);
      AcceptVersion(start, now, accepted, txn);
    } else {
      AcceptNext(start, now, accepted, txn);
    }
  }

  lemma UsesInTurn(t: Tracker, txn: Txn, e: Event)
    requires InTurn(t, txn.entries) && (e == Accepted(txn) || e == Refused(txn) || e.Misfiled?)
    ensures e.Misfiled? || InTurn(t, Uses(e))
  {
    hide Next;
  }

  /** What holds after any part of a run. */
  ghost predicate Runs(start: Tracker, hashes: set<string>, txns: seq<Txn>, timed: bool, passing: bool, now: Tracker, blockTxns: set<string>,
                       block: seq<Txn>, log: seq<Event>)
  {
    && now == After(start, log) && block == Block(log)
    && (forall e :: e in log ==> FromRegistration(txns, passing, e))
    && (forall t :: t in block ==> t in txns)
    && (!timed ==> Told(start, hashes, now, blockTxns, log) && forall t :: t in block ==> GovernancePending(t))
  }

  lemma NothingRun(start: Tracker, hashes: set<string>, txns: seq<Txn>, timed: bool, passing: bool)
    ensures Runs(start, hashes, txns, timed, passing, start, hashes, [], [])
  {
    NothingTold(start, hashes);
  }

  lemma RunMore(start: Tracker, hashes: set<string>, txns: seq<Txn>, timed: bool, passing: bool, now: Tracker, blockTxns: set<string>,
                block: seq<Txn>, log: seq<Event>, txn: Txn, o: Outcome)
    requires Runs(start, hashes, txns, timed, passing, now, blockTxns, block, log) && txn in txns
    requires passing ==> o.interfacePaid && o.passed
    ensures var effect := Processed(now, blockTxns, txn, timed, o).1;
            Runs(start, hashes, txns, timed, passing, Applied(now, effect),
                 if IsAccepted(effect) then blockTxns + {txn.hash} else blockTxns,
                 if IsAccepted(effect) then block + [txn] else block, Logged(log, effect))
  {
    hide Told, Verdict, AddNonces, After, Uses, Block, InTurn;
    var effect := Processed(now, blockTxns, txn, timed, o).1;
    if !timed {
      ToldMore(start, hashes, now, blockTxns, log, txn, o);
    }
    if effect.Happened? {
      assert effect == Verdict(now, txn, timed, o).1;
      VerdictInTurn(now, txn, timed, o);
      AfterMore(start, log, effect.event);
      BlockMore(log, effect.event);
      assert FromRegistration(txns, passing, effect.event);
    }
  }

  /** What a transaction that can only fail for its nonce comes to. */
  lemma SimpleVerdict(t: Tracker, blockTxns: set<string>, txn: Txn, o: Outcome)
    requires Simple(txn) && o == Outcome(true, true, true) && txn.hash !in blockTxns
    ensures Head(txn).nonce == Next(t, Head(txn).signer) ==>
      Processed(t, blockTxns, txn, false, o) == (OK, Happened(Accepted(txn)))
    ensures Head(txn).nonce > Next(t, Head(txn).signer) ==>
      Processed(t, blockTxns, txn, false, o) == (if txn.kind == MINT then BLOCK_FAULTY_TXN else NONCE_ERROR, Nothing)
  {
    OneEntry(t, Head(txn), txn.govKnown);
    OneHead(txn);
    hide Next, SignersStatus;
  }

  // ---- registrations ------------------------------------------------------------------------

  /** What did not end in an acceptance was a registration of the batch: an unsound one, or one that
      the interface fee or the last checks refused. */
  ghost predicate FromRegistration(txns: seq<Txn>, passing: bool, e: Event) {
    e.Accepted? || exists t :: t in txns && t.kind == VALIDATOR_REGISTRATION && !(passing && Sound(t))
                               && (e == Refused(t) || e == Misfiled(t.base, t.entries[0].nonce))
  }

  /** The registrations of the batch that are by the wallet or have it as base key, if there are any,
      are sound, and the interface fee and the last checks do not refuse them. */
  ghost predicate RegistrationsPass(txns: seq<Txn>, passing: bool, s: Signer) {
    forall t :: t in txns && t.kind == VALIDATOR_REGISTRATION && (t.base == s || t.entries[0].signer == s) ==> passing && Sound(t)
  }

  /** Then its accepted nonces are consecutive, whatever else is in the batch. */
  lemma PassingRegistrations(start: Tracker, log: seq<Event>, txns: seq<Txn>, passing: bool, s: Signer)
    requires Honest(start, log) && s.Key? && RegistrationsPass(txns, passing, s)
    requires forall e :: e in log ==> FromRegistration(txns, passing, e)
    ensures UsesFollow(start, log, s) && AcceptedFollow(start, log, s)
  {
    hide Honest, UsesFollow, AcceptedFollow, After, Next;
    forall i | 0 <= i < |log| ensures log[i].Accepted? || !Names(Uses(log[i]), s) {
      assert FromRegistration(txns, passing, log[i]);
    }
    assert forall i :: 0 <= i < |log| && log[i].Misfiled? ==> Uses(log[i])[0].signer == log[i].base;
    assert StraysInTurn(start, log, s);
    UsedNoncesFollow(start, log, s);
    AcceptedNoncesFollow(start, log, s);
  }

  /** A run succeeds if something was accepted, and only then or for a proposal result. */
  ghost predicate Succeeds(hasTxns: bool, txns: seq<Txn>, block: seq<Txn>) {
    (block != [] ==> hasTxns) && (hasTxns ==> block != [] || exists t :: t in txns && t.kind == PROPOSAL_RESULT)
  }

  // ---- complete batches ---------------------------------------------------------------------

  lemma Unseen(hashes: set<string>, blockTxns: set<string>, start: Tracker, values: seq<Value>, block: seq<Txn>, t: Txn)
    requires Complete(start, values, hashes) && Once(hashes, blockTxns, block)
    requires t in Txns(values) && t !in block && forall b :: b in block ==> b in Txns(values)
    ensures t.hash !in blockTxns
  {
    hide Complete, Simple, Grounded;
    var i := IsSimple(start, values, hashes, t);
    forall b | b in block ensures b.hash != t.hash {
      if b.hash == t.hash {
        var j := IsSimple(start, values, hashes, b);
        SamePlace(start, values, hashes, i, j);
        assert false;
      }
    }
  }

  /** In the first pass of a complete batch a transaction is accepted exactly if it stands in order. */
  lemma FirstStep(start: Tracker, values: seq<Value>, hashes: set<string>, now: Tracker, blockTxns: set<string>,
                  log: seq<Event>, waiting: seq<Txn>, i: nat, o: Outcome)
    requires Complete(start, values, hashes) && Told(start, hashes, now, blockTxns, log) && OnlyAccepted(log)
    requires i < |Txns(values)| && FirstPlaced(Txns(values), i, Block(log), waiting) && o == Outcome(true, true, true)
    ensures var t := Txns(values)[i];
            var (status, effect) := Processed(now, blockTxns, t, false, o);
            && (if InOrder(Txns(values), i) then status == OK && effect == Happened(Accepted(t))
                else status == (if t.kind == MINT then BLOCK_FAULTY_TXN else NONCE_ERROR) && effect == Nothing)
            && FirstPlaced(Txns(values), i + 1, if IsAccepted(effect) then Block(log) + [t] else Block(log),
                           if status == NONCE_ERROR then waiting + [t] else waiting)
            && OnlyAccepted(Logged(log, effect))
  {
    hide Complete, Once, Consecutive, FirstPlaced, InOrder, Processed, Simple, Next, Honest, Block, Txns;
    var t := Txns(values)[i];
    TurnIsOrder(start, now, values, hashes, Block(log), waiting, i);
    FirstNotTaken(start, now, values, hashes, Block(log), waiting, i);
    FirstAreTxns(Txns(values), i, Block(log), waiting);
    Unseen(hashes, blockTxns, start, values, Block(log), t);
    var _ := IsSimple(start, values, hashes, t);
    SimpleVerdict(now, blockTxns, t, o);
    FirstPlacedNext(start, values, hashes, i, Block(log), waiting,
                    if InOrder(Txns(values), i) then Block(log) + [t] else Block(log),
                    if !InOrder(Txns(values), i) && t.kind != MINT then waiting + [t] else waiting);
  }

  lemma FirstAreTxns(txns: seq<Txn>, i: nat, block: seq<Txn>, waiting: seq<Txn>)
    requires i <= |txns| && FirstPlaced(txns, i, block, waiting)
    ensures forall t :: t in block || t in waiting ==> t in txns
  {
    hide InOrder;
  }

  /** In the second pass a transaction is accepted exactly if it is acceptable. */
  lemma SecondStep(start: Tracker, values: seq<Value>, hashes: set<string>, now: Tracker, blockTxns: set<string>,
                   log: seq<Event>, waiting: seq<Txn>, o: Outcome)
    requires Complete(start, values, hashes) && Told(start, hashes, now, blockTxns, log) && OnlyAccepted(log)
    requires Placed(Txns(values), Block(log), waiting) && |waiting| > 0 && Sorted(waiting) && o == Outcome(true, true, true)
    ensures var t := waiting[0];
            var effect := Processed(now, blockTxns, t, false, o).1;
            && Placed(Txns(values), if IsAccepted(effect) then Block(log) + [t] else Block(log), waiting[1..])
            && OnlyAccepted(Logged(log, effect))
  {
    hide Complete, Once, Consecutive, Acceptable, Processed, Simple, Next, Honest, Block, Txns, Sorted;
    var t := waiting[0];
    assert t in waiting;
    LowestIsNext(start, now, values, hashes, Block(log), waiting);
    Unseen(hashes, blockTxns, start, values, Block(log), t);
    var _ := IsSimple(start, values, hashes, t);
    SimpleVerdict(now, blockTxns, t, o);
    PlacedNext(Txns(values), Block(log), waiting, if Acceptable(Txns(values), t) then Block(log) + [t] else Block(log));
  }

  /** What a complete batch comes to. */
  lemma LastStep(start: Tracker, values: seq<Value>, hashes: set<string>, now: Tracker, blockTxns: set<string>, log: seq<Event>)
    requires Complete(start, values, hashes) && Told(start, hashes, now, blockTxns, log) && OnlyAccepted(log)
    requires Placed(Txns(values), Block(log), [])
    ensures Fulfilled(start, values, now, Block(log))
  {
    hide Complete, Acceptable, MintsInOrder, Honest, Txns, Next, Placed, FollowsOn;
    AllPlaced(start, now, values, hashes, Block(log));
  }

  /** Accepted are the acceptable transactions, which is all of them exactly if every mint stands in
      order, and each wallet goes on after those it signed. */
  ghost predicate Fulfilled(start: Tracker, values: seq<Value>, now: Tracker, block: seq<Txn>) {
    && (forall t :: t in Txns(values) ==> (t in block <==> Acceptable(Txns(values), t)))
    && (multiset(block) == multiset(Txns(values)) <==> MintsInOrder(Txns(values)))
    && (forall s: Signer :: s.Key? ==> Next(now, s) == Next(start, s) + Signed(block, s))
  }

  /** Without mints a complete batch is accepted as a whole, in whatever order it comes. */
  lemma WithoutMints(start: Tracker, values: seq<Value>, now: Tracker, block: seq<Txn>)
    requires Fulfilled(start, values, now, block) && forall t :: t in Txns(values) ==> t.kind != MINT
    ensures multiset(block) == multiset(Txns(values))
  {
    hide InOrder, Acceptable, Next, Txns, Signed;
  }

  /** A mint whose nonce is ahead is dropped in the first pass, though the batch is complete. */
  lemma MintIsDropped(w: string, mint: Txn, item: Txn, now: Tracker, block: seq<Txn>)
    requires mint == Message(MINT, "a", [Entry(Key(w), 2)], false, false, Key(w), false, false, false)
    requires item == Message(ITEM_MINT, "b", [Entry(Key(w), 1)], false, false, Key(w), false, false, false)
    requires Fulfilled(Tracker(map[], map[]), [Parsed(mint), Parsed(item)], now, block)
    ensures Complete(Tracker(map[], map[]), [Parsed(mint), Parsed(item)], {})
    ensures item in block && mint !in block
  {
    hide Acceptable, MintsInOrder, Complete;
    MintAhead(w, mint, item);
    var values := [Parsed(mint), Parsed(item)];
    assert Txns(values) == [mint, item];
    assert item in Txns(values) && mint in Txns(values);
  }

  /** What any batch comes to whose nonces are checked: each transaction at most once; the nonces used
      up go on one by one unless a registration was misfiled; and the accepted ones do, exactly if no
      refused registration came before an acceptance. */
  ghost predicate Orderly(start: Tracker, hashes: set<string>, txns: seq<Txn>, passing: bool, now: Tracker, blockTxns: set<string>,
                          block: seq<Txn>, log: seq<Event>)
  {
    && now == After(start, log) && block == Block(log) && Once(hashes, blockTxns, block)
    && (forall t, k :: t in block && 0 <= k < |t.entries| && t.entries[k].signer.GovernanceAuth? ==> t.govKnown)
    && (forall s: Signer :: s.Key? ==>
          && (UsesFollow(start, log, s) <==> StraysInTurn(start, log, s))
          && (UsesFollow(start, log, s) ==> (AcceptedFollow(start, log, s) <==> NothingWasted(log, s)))
          && (RegistrationsPass(txns, passing, s) ==> AcceptedFollow(start, log, s)))
  }

  lemma RunIsOrderly(start: Tracker, hashes: set<string>, txns: seq<Txn>, passing: bool, now: Tracker, blockTxns: set<string>, block: seq<Txn>,
                     log: seq<Event>)
    requires Runs(start, hashes, txns, false, passing, now, blockTxns, block, log)
    ensures Orderly(start, hashes, txns, passing, now, blockTxns, block, log)
  {
    hide After, Once, Honest, UsesFollow, AcceptedFollow, StraysInTurn, NothingWasted, Block, Consecutive, FromRegistration,
         RegistrationsPass;
    forall s: Signer | s.Key?
      ensures UsesFollow(start, log, s) <==> StraysInTurn(start, log, s)
      ensures UsesFollow(start, log, s) ==> (AcceptedFollow(start, log, s) <==> NothingWasted(log, s))
      ensures RegistrationsPass(txns, passing, s) ==> AcceptedFollow(start, log, s)
    {
      UsedNoncesFollow(start, log, s);
      if UsesFollow(start, log, s) { AcceptedNoncesFollow(start, log, s); }
      if RegistrationsPass(txns, passing, s) { PassingRegistrations(start, log, txns, passing, s); }
    }
  }

  class Processor {
    const walletNonce: map<Signer, uint64>
    const outcomes: nat -> Outcome
    var preprocessed: map<Signer, uint64>
    var blockTxns: set<string>
    const resultsOf: nat -> nat
    var proposalResults: nat
    var attempts: nat

    ghost function State(): Tracker
      reads this`preprocessed
    {
      Tracker(walletNonce, preprocessed)
    }

    /** What the rest of the program decides about the n-th attempt. */
    function OutcomeOf(n: nat): Outcome { outcomes(n) }

    /** How many proposal results it adds to the block, if it processes proposals. */
    function ResultsOf(n: nat): nat { resultsOf(n) }

    /** No attempt fails for another reason than its nonce. */
    ghost predicate NothingElseFails() { forall n :: OutcomeOf(n) == Outcome(true, true, true) }

    /** No attempt at a registration fails for its interface fee or its last checks; other kinds do
        not ask for them. */
    ghost predicate ChecksPass() { forall n :: OutcomeOf(n).interfacePaid && OutcomeOf(n).passed }

    lemma ChecksPassNow(n: nat)
      ensures ChecksPass() ==> OutcomeOf(n).interfacePaid && OutcomeOf(n).passed
    {}

    constructor (walletNonce: map<Signer, uint64>, preprocessed: map<Signer, uint64>, blockTxns: set<string>,
                 proposalResults: nat, outcomes: nat -> Outcome, resultsOf: nat -> nat)
      ensures this.walletNonce == walletNonce && this.preprocessed == preprocessed && this.blockTxns == blockTxns
      ensures this.outcomes == outcomes && attempts == 0
      ensures this.proposalResults == proposalResults && this.resultsOf == resultsOf
    {
      this.walletNonce, this.preprocessed, this.blockTxns := walletNonce, preprocessed, blockTxns;
      this.proposalResults, this.resultsOf := proposalResults, resultsOf;
      this.outcomes, attempts := outcomes, 0;
    }

    /** check_nonce */
    method CheckNonce(entry: Entry, govKnown: bool) returns (status: Status)
      ensures status == NonceStatus(State(), entry, govKnown)
      ensures entry.signer.GovernanceAuth? ==> (status == OK <==> govKnown) && (status != OK ==> status == BLOCK_FAULTY_TXN)
      ensures entry.signer.Key? ==>
        && (status == OK <==> entry.nonce == Next(State(), entry.signer))
        && (entry.nonce > Next(State(), entry.signer) ==> status == NONCE_ERROR)
        && (1 <= entry.nonce < Next(State(), entry.signer) ==> status == BLOCK_FAULTY_TXN)
    {
      if entry.signer.GovernanceAuth? {
        if govKnown {
          return OK;
        } else {
          return BLOCK_FAULTY_TXN;
        }
      }
      var nonce: uint64 := 0;
      if entry.signer in preprocessed {
        nonce := preprocessed[entry.signer];
      } else {
        if entry.signer !in walletNonce {
          if entry.nonce == 1 {
            return OK;
          }
          return NONCE_ERROR;
        }
        nonce := walletNonce[entry.signer];
      }
      var nonceDiff := (entry.nonce - nonce) % 0x1_0000_0000_0000_0000;
      if entry.nonce <= nonce {
        return BLOCK_FAULTY_TXN;
      }
      if nonceDiff != 1 {
        return NONCE_ERROR;
      }
      return OK;
    }

    /** The checks of all keys, stopping at the first that fails. */
    method CheckSigners(entries: seq<Entry>, govKnown: bool) returns (status: Status)
      ensures status == SignersStatus(State(), entries, govKnown)
    {
      hide NonceStatus;
      for k := 0 to |entries|
        invariant SignersStatus(State(), entries[..k], govKnown) == OK
      {
        status := CheckNonce(entries[k], govKnown);
        assert entries[..k + 1][..k] == entries[..k];
        if status != OK {
          FirstFailure(State(), entries, govKnown, k + 1);
          return;
        }
      }
      assert entries[..|entries|] == entries;
      status := OK;
    }

    /** add_nonce for each key. */
    method UseNonces(entries: seq<Entry>)
      modifies this`preprocessed
      ensures State() == AddNonces(old(State()), entries)
    {
      for k := 0 to |entries|
        invariant State() == AddNonces(old(State()), entries[..k])
      {
        assert entries[..k + 1] == entries[..k] + [entries[k]];
        preprocessed := preprocessed[entries[k].signer := entries[k].nonce];
      }
      assert entries[..|entries|] == entries;
    }

    /** The template of process_txn, and the specialisations that treat the nonce in the same way. */
    method ProcessGeneric(txn: Txn, timed: bool, o: Outcome) returns (status: Status, ghost effect: Effect)
      requires !AlwaysChecked(txn.kind) && txn.kind != COIN && txn.kind != MINT
      modifies this`preprocessed
      ensures (status, effect) == Verdict(old(State()), txn, timed, o) && State() == Applied(old(State()), effect)
    {
      hide SignersStatus, AddNonces;
      effect := Nothing;
      if !timed {
        status := CheckSigners(txn.entries, txn.govKnown);
        if status != OK {
          return;
        }
      }
      if !o.paid {
        return TXN_FAILED, effect;
      }
      UseNonces(txn.entries);
      return OK, Happened(Accepted(txn));
    }

    /** process_txn of coin transactions: every signer's nonce is checked, then all are used up. */
    method ProcessCoin(txn: Txn, timed: bool, o: Outcome) returns (status: Status, ghost effect: Effect)
      requires txn.kind == COIN
      modifies this`preprocessed
      ensures (status, effect) == Verdict(old(State()), txn, timed, o) && State() == Applied(old(State()), effect)
    {
      hide SignersStatus, AddNonces;
      effect := Nothing;
      if timed && |txn.entries| > 1 {
        return BLOCK_FAULTY_TXN, effect;
      }
      if !timed {
        status := CheckSigners(txn.entries, txn.govKnown);
        if status != OK {
          return;
        }
      }
      if !o.paid {
        return TXN_FAILED, effect;
      }
      UseNonces(txn.entries);
      return OK, Happened(Accepted(txn));
    }

    /** process_txn of mints: every failing nonce check is a faulty transaction. */
    method ProcessMint(txn: Txn, timed: bool, o: Outcome) returns (status: Status, ghost effect: Effect)
      requires txn.kind == MINT
      modifies this`preprocessed
      ensures (status, effect) == Verdict(old(State()), txn, timed, o) && State() == Applied(old(State()), effect)
    {
      hide SignersStatus, AddNonces;
      effect := Nothing;
      if !timed {
        status := CheckSigners(txn.entries, txn.govKnown);
        if status != OK {
          return BLOCK_FAULTY_TXN, effect;
        }
      }
      if !o.paid {
        return TXN_FAILED, effect;
      }
      UseNonces(txn.entries);
      return OK, Happened(Accepted(txn));
    }

    /** process_txn of heartbeats and expense ratios: timed transactions are checked as well. */
    method ProcessChecked(txn: Txn, timed: bool, o: Outcome) returns (status: Status, ghost effect: Effect)
      requires txn.kind == VALIDATOR_HEARTBEAT || txn.kind == EXPENSE_RATIO
      modifies this`preprocessed
      ensures (status, effect) == Verdict(old(State()), txn, timed, o) && State() == Applied(old(State()), effect)
    {
      hide SignersStatus, AddNonces;
      effect := Nothing;
      if txn.kind == VALIDATOR_HEARTBEAT && txn.barred {
        return TXN_FAILED, effect;
      }
      status := CheckSigners(txn.entries, txn.govKnown);
      if status != OK {
        return;
      }
      if !o.paid {
        return TXN_FAILED, effect;
      }
      UseNonces(txn.entries);
      return OK, Happened(Accepted(txn));
    }

    /** process_txn of required versions: governance only, and no nonce is used. */
    method ProcessRequiredVersion(txn: Txn, timed: bool, o: Outcome) returns (status: Status, ghost effect: Effect)
      requires txn.kind == REQUIRED_VERSION
      modifies this`preprocessed
      ensures (status, effect) == Verdict(old(State()), txn, timed, o) && State() == Applied(old(State()), effect)
    {
      hide SignersStatus;
      effect := Nothing;
      if txn.barred || txn.entries[0].signer.Key? {
        return BLOCK_FAULTY_TXN, effect;
      }
      status := CheckSigners(txn.entries, txn.govKnown);
      if status != OK {
        return BLOCK_FAULTY_TXN, effect;
      }
      if !o.paid {
        return TXN_FAILED, effect;
      }
      return OK, Happened(Accepted(txn));
    }

    /** process_txn of registrations: once charged, the nonce is used up even when it is refused, in
        one case under the wallet of the base key. */
    method ProcessRegistration(txn: Txn, timed: bool, o: Outcome) returns (status: Status, ghost effect: Effect)
      requires txn.kind == VALIDATOR_REGISTRATION
      modifies this`preprocessed
      ensures (status, effect) == Verdict(old(State()), txn, timed, o) && State() == Applied(old(State()), effect)
    {
      hide SignersStatus, AddNonces;
      effect := Nothing;
      if txn.barred {
        return BLOCK_FAULTY_TXN, effect;
      }
      status := CheckSigners(txn.entries, txn.govKnown);
      if status != OK {
        return;
      }
      if !o.paid {
        return TXN_FAILED, effect;
      }
      if !o.interfacePaid {
        UseNonces(txn.entries);
        return TXN_FAILED, Happened(Refused(txn));
      }
      if txn.multi {
        UseNonces(txn.entries);
        return TXN_FAILED, Happened(Refused(txn));
      }
      if txn.base != txn.entries[0].signer {
        UseNonces([Entry(txn.base, txn.entries[0].nonce)]);
        return TXN_FAILED, Happened(Misfiled(txn.base, txn.entries[0].nonce));
      }
      if !txn.known {
        if !txn.register {
          UseNonces(txn.entries);
          return TXN_FAILED, Happened(Refused(txn));
        }
      }
      status := OK;
      if txn.register {
        status := if o.passed then OK else TXN_FAILED;
      }
      UseNonces(txn.entries);
      effect := Happened(if status == OK then Accepted(txn) else Refused(txn));
    }

    /** processTransaction with unpack_process_wrapper: an accepted transaction joins the block. */
    method ProcessTransaction(txn: Txn, block: seq<Txn>, timed: bool)
        returns (status: Status, block': seq<Txn>, ghost effect: Effect)
      modifies this`preprocessed, this`blockTxns, this`attempts, this`proposalResults
      ensures (status, effect) == Processed(old(State()), old(blockTxns), txn, timed, OutcomeOf(old(attempts)))
      ensures State() == Applied(old(State()), effect) && attempts == old(attempts) + 1
      ensures proposalResults == old(proposalResults) + if txn.kind == PROPOSAL_RESULT then ResultsOf(old(attempts)) else 0
      ensures block' == if IsAccepted(effect) then block + [txn] else block
      ensures status == OK <==> IsAccepted(effect) || (txn.kind == PROPOSAL_RESULT && OutcomeOf(old(attempts)).paid)
      ensures blockTxns == if IsAccepted(effect) then old(blockTxns) + {txn.hash} else old(blockTxns)
    {
      hide Verdict, AddNonces;
      effect := Nothing;
      block' := block;
      var o := OutcomeOf(attempts);
      attempts := attempts + 1;
      if txn.kind == NO_TXN {
        return TXN_FAILED, block, effect;
      }
      if txn.kind == PROPOSAL_RESULT {
        proposalResults := proposalResults + ResultsOf(attempts - 1);
        return if o.paid then OK else TXN_FAILED, block, effect;
      }
      if txn.hash in blockTxns && (!timed || txn.kind == EXPENSE_RATIO) {
        return DUPLICATE_TXN_ERROR, block, effect;
      }
      VerdictInTurn(State(), txn, timed, o);
      if txn.kind == COIN {
        status, effect := ProcessCoin(txn, timed, o);
      } else if txn.kind == MINT {
        status, effect := ProcessMint(txn, timed, o);
      } else if txn.kind == VALIDATOR_HEARTBEAT || txn.kind == EXPENSE_RATIO {
        status, effect := ProcessChecked(txn, timed, o);
      } else if txn.kind == REQUIRED_VERSION {
        status, effect := ProcessRequiredVersion(txn, timed, o);
      } else if txn.kind == VALIDATOR_REGISTRATION {
        status, effect := ProcessRegistration(txn, timed, o);
      } else {
        status, effect := ProcessGeneric(txn, timed, o);
      }
      if status == OK {
        blockTxns := blockTxns + {txn.hash};
        block' := block + [txn];
      }
    }

    lemma NothingFails(n: nat)
      requires NothingElseFails()
      ensures OutcomeOf(n) == Outcome(true, true, true)
    {}

    /** First pass of process_txns, in the order of the input. A value that does not parse keeps the
        status of the one before. */
    method FirstPass(values: seq<Value>, keys: seq<string>, timed: bool)
        returns (hasTxns: bool, block: seq<Txn>, removeKeys: seq<string>, nonceWrappers: seq<Txn>, ghost log: seq<Event>)
      requires |keys| == |values|
      modifies this`preprocessed, this`blockTxns, this`attempts, this`proposalResults
      ensures removeKeys == keys && Succeeds(hasTxns, Txns(values), block) && proposalResults >= old(proposalResults)
      ensures Runs(old(State()), old(blockTxns), Txns(values), timed, ChecksPass(), State(), blockTxns, block, log)
      ensures forall t :: t in nonceWrappers ==> t in Txns(values)
      ensures !timed && Complete(old(State()), values, old(blockTxns)) && NothingElseFails() ==>
        OnlyAccepted(log) && Placed(Txns(values), block, nonceWrappers)
    {
      hide Complete, NothingElseFails, ChecksPass, Runs, Processed, FirstPlaced, Placed, InOrder, OnlyAccepted, Applied, Logged, Txns;
      hasTxns, block, removeKeys, nonceWrappers, log := false, [], [], [], [];
      ghost var start, hashes, txns, passing := State(), blockTxns, Txns(values), ChecksPass();
      ghost var complete := !timed && Complete(start, values, hashes) && NothingElseFails();
      var status := OK;
      TxnsLength(values);
      NothingRun(start, hashes, txns, timed, passing);
      NothingPlaced(txns);
      for i := 0 to |values|
        invariant removeKeys == keys[..i] && Succeeds(hasTxns, txns, block) && proposalResults >= old(proposalResults)
        invariant Runs(start, hashes, txns, timed, passing, State(), blockTxns, block, log)
        invariant forall t :: t in nonceWrappers ==> t in txns
        invariant complete ==> OnlyAccepted(log) && FirstPlaced(txns, i, block, nonceWrappers)
      {
        var wrapper := TxnOf(values[i]);
        assert txns[i] == wrapper;
        ChecksPassNow(attempts);
        RunMore(start, hashes, txns, timed, passing, State(), blockTxns, block, log, wrapper, OutcomeOf(attempts));
        if complete {
          NothingFails(attempts);
          FirstRunStep(start, hashes, values, passing, State(), blockTxns, block, log, nonceWrappers, i, OutcomeOf(attempts));
        }
        if values[i].Parsed? {
          ghost var effect;
          status, block, effect := ProcessTransaction(wrapper, block, timed);
          log := Logged(log, effect);
          if status == OK {
            hasTxns := true;
          }
        }
        if status != NONCE_ERROR {
          removeKeys := removeKeys + [keys[i]];
        } else {
          nonceWrappers := nonceWrappers + [wrapper];
          removeKeys := removeKeys + [keys[i]];
        }
        assert keys[..i + 1] == keys[..i] + [keys[i]];
      }
      assert keys[..|values|] == keys;
      if complete {
        AfterFirstPass(txns, block, nonceWrappers);
      }
    }

    /** process_txns: what cannot be accepted because of its nonce is tried again, in the order of
        the nonces. */
    method ProcessTxns(values: seq<Value>, keys: seq<string>, timed: bool)
        returns (status: Status, block: seq<Txn>, removeKeys: seq<string>, ghost log: seq<Event>)
      requires |keys| == |values|
      modifies this`preprocessed, this`blockTxns, this`attempts, this`proposalResults
      ensures removeKeys == keys && forall t :: t in block ==> t in Txns(values)
      ensures proposalResults >= old(proposalResults)
      ensures if proposalResults > 0 then status == OK else Succeeds(status == OK, Txns(values), block)
      ensures !timed ==> Orderly(old(State()), old(blockTxns), Txns(values), ChecksPass(), State(), blockTxns, block, log)
      ensures !timed && Complete(old(State()), values, old(blockTxns)) && NothingElseFails() ==>
        Fulfilled(old(State()), values, State(), block)
    {
      hide Complete, NothingElseFails, ChecksPass, Runs, Processed, Placed, OnlyAccepted, Applied, Logged, Txns, Orderly, Fulfilled, Sorted;
      ghost var start, hashes, txns, passing := State(), blockTxns, Txns(values), ChecksPass();
      ghost var complete := !timed && Complete(start, values, hashes) && NothingElseFails();
      var hasTxns, nonceWrappers;
      hasTxns, block, removeKeys, nonceWrappers, log := FirstPass(values, keys, timed);
      var orderedWrappers := OrderNonceTxns(nonceWrappers);
      if complete {
        Reordered(start, values, hashes, block, nonceWrappers, orderedWrappers);
      }
      assert orderedWrappers[0..] == orderedWrappers;
      for j := 0 to |orderedWrappers|
        invariant Runs(start, hashes, txns, timed, passing, State(), blockTxns, block, log) && Succeeds(hasTxns, txns, block)
        invariant proposalResults >= old(proposalResults)
        invariant complete ==> OnlyAccepted(log) && Placed(txns, block, orderedWrappers[j..])
      {
        var wrapper := orderedWrappers[j];
        ChecksPassNow(attempts);
        RunMore(start, hashes, txns, timed, passing, State(), blockTxns, block, log, wrapper, OutcomeOf(attempts));
        if complete {
          NothingFails(attempts);
          SortedRest(orderedWrappers, j);
          SecondRunStep(start, hashes, values, passing, State(), blockTxns, block, log, orderedWrappers[j..], OutcomeOf(attempts));
        }
        ghost var effect;
        status, block, effect := ProcessTransaction(wrapper, block, timed);
        log := Logged(log, effect);
        if status == OK {
          hasTxns := true;
        }
      }
      RunEnds(start, hashes, txns, timed, passing, State(), blockTxns, block, log);
      if complete {
        LastRunStep(start, hashes, values, passing, State(), blockTxns, block, log, orderedWrappers[|orderedWrappers|..]);
      }
      if proposalResults > 0 {
        hasTxns := true;
      }
      status := if hasTxns then OK else BLOCK_FAULTY_TXN;
    }
  }

  lemma NothingPlaced(txns: seq<Txn>)
    ensures FirstPlaced(txns, 0, [], []) && OnlyAccepted([])
  {}

  lemma SortedRest(ts: seq<Txn>, j: nat)
    requires Sorted(ts) && j < |ts|
    ensures Sorted(ts[j..]) && ts[j..][0] == ts[j] && ts[j..][1..] == ts[j + 1..]
  {
    hide SortKey;
  }

  lemma FirstRunStep(start: Tracker, hashes: set<string>, values: seq<Value>, passing: bool, now: Tracker, blockTxns: set<string>,
                     block: seq<Txn>, log: seq<Event>, waiting: seq<Txn>, i: nat, o: Outcome)
    requires Complete(start, values, hashes) && Runs(start, hashes, Txns(values), false, passing, now, blockTxns, block, log)
    requires OnlyAccepted(log) && i < |Txns(values)| && FirstPlaced(Txns(values), i, block, waiting)
    requires o == Outcome(true, true, true)
    ensures var t := Txns(values)[i];
            var (status, effect) := Processed(now, blockTxns, t, false, o);
            && values[i].Parsed?
            && FirstPlaced(Txns(values), i + 1, if IsAccepted(effect) then block + [t] else block,
                           if status == NONCE_ERROR then waiting + [t] else waiting)
            && OnlyAccepted(Logged(log, effect))
  {
    hide Told, FirstPlaced, OnlyAccepted, Processed, Simple, Grounded, Logged, After, Block, InOrder, FromRegistration;
    TxnsLength(values);
    FirstStep(start, values, hashes, now, blockTxns, log, waiting, i, o);
  }

  lemma SecondRunStep(start: Tracker, hashes: set<string>, values: seq<Value>, passing: bool, now: Tracker, blockTxns: set<string>,
                      block: seq<Txn>, log: seq<Event>, waiting: seq<Txn>, o: Outcome)
    requires Complete(start, values, hashes) && Runs(start, hashes, Txns(values), false, passing, now, blockTxns, block, log)
    requires OnlyAccepted(log) && Placed(Txns(values), block, waiting) && |waiting| > 0 && Sorted(waiting)
    requires o == Outcome(true, true, true)
    ensures var effect := Processed(now, blockTxns, waiting[0], false, o).1;
            && Placed(Txns(values), if IsAccepted(effect) then block + [waiting[0]] else block, waiting[1..])
            && OnlyAccepted(Logged(log, effect))
  {
    hide Told, Complete, Placed, OnlyAccepted, Processed, Logged, After, Block, FromRegistration, Sorted;
    SecondStep(start, values, hashes, now, blockTxns, log, waiting, o);
  }

  lemma LastRunStep(start: Tracker, hashes: set<string>, values: seq<Value>, passing: bool, now: Tracker, blockTxns: set<string>,
                    block: seq<Txn>, log: seq<Event>, waiting: seq<Txn>)
    requires Complete(start, values, hashes) && Runs(start, hashes, Txns(values), false, passing, now, blockTxns, block, log)
    requires OnlyAccepted(log) && Placed(Txns(values), block, waiting) && waiting == []
    ensures Fulfilled(start, values, now, block)
  {
    hide Told, Complete, Placed, OnlyAccepted, After, Block, FromRegistration, Fulfilled;
    LastStep(start, values, hashes, now, blockTxns, log);
  }

  lemma RunEnds(start: Tracker, hashes: set<string>, txns: seq<Txn>, timed: bool, passing: bool, now: Tracker, blockTxns: set<string>,
                block: seq<Txn>, log: seq<Event>)
    requires Runs(start, hashes, txns, timed, passing, now, blockTxns, block, log)
    ensures forall t :: t in block ==> t in txns
    ensures !timed ==> Orderly(start, hashes, txns, passing, now, blockTxns, block, log)
  {
    hide Orderly, Told, After, Block, FromRegistration;
    if !timed { RunIsOrderly(start, hashes, txns, passing, now, blockTxns, block, log); }
  }

  lemma {:induction false} FirstFailure(t: Tracker, entries: seq<Entry>, govKnown: bool, k: nat)
    requires k <= |entries| && SignersStatus(t, entries[..k], govKnown) != OK
    ensures SignersStatus(t, entries, govKnown) == SignersStatus(t, entries[..k], govKnown)
  {
    hide NonceStatus;
    if k < |entries| {
      var front := entries[..|entries| - 1];
      assert front[..k] == entries[..k];
      FirstFailure(t, front, govKnown, k);
    } else {
      assert entries[..k] == entries;
    }
  }
}
