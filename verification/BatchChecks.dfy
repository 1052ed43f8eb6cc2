/** The checks that stand before the batches of the ledger: check_premints for the wallets a contract
    is created with, and validate_wallets for the inputs and outputs of a coin transaction. */
module BatchChecks {
  import opened Arith
  import opened Ledger
  import opened BalanceTracker
  import opened Replay
  import opened BlockRun
  import opened TokenFlow
  import Supply

  type Uint256 = x: int | 0 <= x < TWO_256

  /** An amount comes as text, which may not be a number of 256 bits. */
  datatype Amount = Invalid | Number(value: Uint256)

  /** A wallet of a batch; what compliance and the safe-send flag say about it is decided elsewhere. */
  datatype Party = Party(wallet: Str, amount: Amount, compliant: bool, safe: bool)

  function TransferOf(p: Party): Transfer { Transfer(p.wallet, if p.amount.Number? then p.amount.value else 0) }

  function Transfers(ps: seq<Party>): seq<Transfer> { seq(|ps|, i requires 0 <= i < |ps| => TransferOf(ps[i])) }

  /** The running sum has 256 bits. */
  function Sum256(ps: seq<Party>): Uint256 {
    if ps == [] then 0 else Wrap(Sum256(ps[..|ps| - 1]) + TransferOf(ps[|ps| - 1]).amount)
  }

  ghost predicate Valid(ps: seq<Party>) { forall i :: 0 <= i < |ps| ==> ps[i].amount.Number? }

  ghost predicate NamedOnce(ps: seq<Party>) { forall i, j :: 0 <= i < j < |ps| ==> ps[i].wallet != ps[j].wallet }

  function Named(ps: seq<Party>): set<Str> { set p | p in ps :: p.wallet }

  /** The ledger's law and the replay's, for the transaction at work. */
  ghost predicate Lawful(b: Books) { Listed(b) && Balanced(b) }

  ghost predicate AtWork(b: Books, h: Hash) { Replayable(b) && Current(b, h) }

  /** What an operation does that loses nothing, whatever came before. */
  ghost predicate Keeps(b: Books, b': Books, h: Hash) {
    (Lawful(b) ==> Lawful(b')) && (AtWork(b, h) ==> AtWork(b', h))
  }

  lemma LosslessKeeps(b: Books, b': Books, h: Hash, step: Step)
    requires IsContractId(step.contract) && Performed(b, b', h, step) && Lossless(b, step)
    ensures Keeps(b, b', h)
  {
    hide Performed, Lossless, Balanced, Listed, Replayable;
    if Lawful(b) { PerformedBalance(b, b', h, step); }
    if AtWork(b, h) { PerformedReplayable(b, b', h, step); }
  }

  lemma KeepsTwice(b: Books, b1: Books, b2: Books, h: Hash)
    ensures Keeps(b, b, h)
    ensures Keeps(b, b1, h) && Keeps(b1, b2, h) ==> Keeps(b, b2, h)
  {
    hide Lawful, AtWork;
  }

  /** A batch that names nobody twice loses nothing. */
  lemma NamedOnceLossless(b: Books, ps: seq<Party>, contract: Str)
    requires NamedOnce(ps)
    ensures DistinctWallets(Transfers(ps))
    ensures Lossless(b, Step(contract, Premint(Transfers(ps)))) && Lossless(b, Step(contract, SubtractBatch(Transfers(ps))))
  {
    hide Affordable, RawKey;
  }

  // ---- premints -----------------------------------------------------------------------------

  /** The loop of check_premints: every address once, every amount a number. */
  method SumPremints(premints: seq<Party>) returns (accepted: bool, totalAmount: Uint256)
    ensures accepted <==> NamedOnce(premints) && Valid(premints)
    ensures accepted ==> totalAmount == Sum256(premints)
  {
    hide Wrap;
    totalAmount := 0;
    var uniqueAddresses: set<Str> := {};
    for i := 0 to |premints|
      invariant uniqueAddresses == Named(premints[..i]) && totalAmount == Sum256(premints[..i])
      invariant NamedOnce(premints[..i]) && Valid(premints[..i])
    {
      var premint := premints[i];
      assert premints[..i + 1] == premints[..i] + [premint];
      if premint.wallet in uniqueAddresses {
        NamedAgain(premints, i);
        return false, 0;
      }
      uniqueAddresses := uniqueAddresses + {premint.wallet};
      if premint.amount.Invalid? {
        return false, 0;
      }
      totalAmount := Wrap(totalAmount + premint.amount.value);
      NamedMore(premints[..i], premint);
      assert premints[..i + 1][..i] == premints[..i];
    }
    assert premints[..|premints|] == premints;
    accepted := true;
  }

  /** check_premints: what passes is stored, and always keeps the ledger balanced. */
  method CheckPremints(tracker: Tracker, premints: seq<Party>, maxSupply: Uint256, released: bool, contract: Str, hash: Hash)
      returns (accepted: bool)
    requires IsContractId(contract)
    modifies tracker
    ensures accepted <==> NamedOnce(premints) && Valid(premints) && Sum256(premints) <= maxSupply && released
    ensures if accepted then Performed(old(tracker.State()), tracker.State(), hash, Step(contract, Premint(Transfers(premints))))
            else tracker.State() == old(tracker.State())
    ensures Keeps(old(tracker.State()), tracker.State(), hash)
    ensures accepted ==>
      Supply.InAll(tracker.State(), contract) == old(Supply.InAll(tracker.State(), contract)) + Supply.Total(Transfers(premints))
    ensures accepted ==> Supply.Total(Transfers(premints)) <= maxSupply || Supply.Total(Transfers(premints)) >= TWO_256
  {
    hide Performed, Keeps, Lossless, NamedOnce, Valid, Sum256, Supply.InAll, Completes;
    ghost var b := tracker.State();
    KeepsTwice(b, b, b, hash);
    var totalAmount;
    accepted, totalAmount := SumPremints(premints);
    if !accepted {
      return;
    }
    if totalAmount > maxSupply {
      return false;
    }
    if !released {
      return false;
    }
    var step := Step(contract, Premint(Transfers(premints)));
    var _ := Perform(tracker, hash, step);
    NamedOnceLossless(b, premints, contract);
    LosslessKeeps(b, tracker.State(), hash, step);
    MintedInAll(b, tracker.State(), hash, step, contract);
    SumWraps(premints);
  }

  /** A premint that loses nothing adds all of it. */
  lemma MintedInAll(b: Books, b': Books, h: Hash, step: Step, contract: Str)
    requires step.op.Premint? && step.contract == contract && IsContractId(contract)
    requires Performed(b, b', h, step) && Lossless(b, step)
    ensures Supply.InAll(b', contract) == Supply.InAll(b, contract) + Supply.Total(step.op.transfers)
  {
    hide Performed, Lossless, Flowed, Supply.InAll;
    NothingFlowed(b);
    assert [] + [step] == [step];
    MintCompletes(b, step);
    FlowMore(b, b, b', h, [], step);
    FlowMovesSupply(b, b', [step], contract);
    FlowInMore([], step, contract);
    assert [] + step.op.transfers == step.op.transfers;
  }

  lemma MintCompletes(b: Books, step: Step)
    requires step.op.Premint?
    ensures Completes(b, step)
  {}

  lemma NamedAgain(ps: seq<Party>, i: nat)
    requires i < |ps| && ps[i].wallet in Named(ps[..i])
    ensures !NamedOnce(ps)
  {
    var p :| p in ps[..i] && p.wallet == ps[i].wallet;
    var j :| 0 <= j < i && ps[j] == p;
  }

  lemma NamedMore(ps: seq<Party>, p: Party)
    ensures Named(ps + [p]) == Named(ps) + {p.wallet}
    ensures NamedOnce(ps + [p]) <==> NamedOnce(ps) && p.wallet !in Named(ps)
  {
    var more := ps + [p];
    assert forall q :: q in more <==> q in ps || q == p;
    if NamedOnce(more) {
      assert forall i, j :: 0 <= i < j < |ps| ==> more[i] == ps[i] && more[j] == ps[j];
      forall q | q in ps ensures q.wallet != p.wallet {
        var j :| 0 <= j < |ps| && ps[j] == q;
        assert more[j] == q && more[|ps|] == p;
      }
    }
    if NamedOnce(ps) && p.wallet !in Named(ps) {
      forall i, j | 0 <= i < j < |more| ensures more[i].wallet != more[j].wallet {
        if j == |ps| { assert ps[i] in ps; }
      }
    }
  }

  // ---- coin transactions --------------------------------------------------------------------

  ghost predicate InputAccepted(b: Books, p: Party, contract: Str) {
    p.amount.Number? && p.compliant && Affordable(b, TransferOf(p), contract)
  }

  predicate OutputAccepted(p: Party) { p.safe && p.amount.Number? && p.wallet != [] && p.compliant }

  ghost predicate Accepted(b: Books, inputs: seq<Party>, outputs: seq<Party>, contract: Str) {
    && NamedOnce(inputs) && (forall i :: 0 <= i < |inputs| ==> InputAccepted(b, inputs[i], contract))
    && (forall i :: 0 <= i < |outputs| ==> OutputAccepted(outputs[i]))
    && Sum256(inputs) == Sum256(outputs)
  }

  /** First loop of validate_wallets, where each input pays from its own wallet. */
  method CheckInputs(tracker: Tracker, inputs: seq<Party>, contract: Str) returns (accepted: bool, inputAmount: Uint256)
    ensures accepted <==> NamedOnce(inputs) && forall i :: 0 <= i < |inputs| ==> InputAccepted(tracker.State(), inputs[i], contract)
    ensures accepted ==> inputAmount == Sum256(inputs)
  {
    hide RawKey, Wrap, InputAccepted, NamedOnce;
    inputAmount := 0;
    var walletAdrs: set<Str> := {};
    assert NamedOnce([]) by { NobodyNamed(); }
    for i := 0 to |inputs|
      invariant walletAdrs == Named(inputs[..i]) && inputAmount == Sum256(inputs[..i]) && NamedOnce(inputs[..i])
      invariant forall k :: 0 <= k < i ==> InputAccepted(tracker.State(), inputs[k], contract)
    {
      var input := inputs[i];
      assert inputs[..i + 1] == inputs[..i] + [input];
      assert inputs[..i + 1][..i] == inputs[..i];
      InputIf(tracker.State(), input, contract);
      if input.amount.Invalid? {
        return false, 0;
      }
      inputAmount := Wrap(inputAmount + input.amount.value);
      if input.wallet in walletAdrs {
        NamedAgain(inputs, i);
        return false, 0;
      }
      if !input.compliant {
        return false, 0;
      }
      var found, senderBalance := tracker.GetTotal(RawKey(input.wallet, contract));
      if !found {
        return false, 0;
      }
      if senderBalance < input.amount.value {
        return false, 0;
      }
      NamedMore(inputs[..i], input);
      walletAdrs := walletAdrs + {input.wallet};
    }
    assert inputs[..|inputs|] == inputs;
    accepted := true;
  }

  lemma NobodyNamed()
    ensures NamedOnce([])
  {}

  lemma InputIf(b: Books, p: Party, contract: Str)
    ensures InputAccepted(b, p, contract)
        <==> p.amount.Number? && p.compliant && Exists(b, RawKey(p.wallet, contract)) && p.amount.value <= Total(b, RawKey(p.wallet, contract))
  {}

  /** Second loop: the outputs. */
  method CheckOutputs(outputs: seq<Party>) returns (accepted: bool, outputAmount: Uint256)
    ensures accepted <==> forall i :: 0 <= i < |outputs| ==> OutputAccepted(outputs[i])
    ensures accepted ==> outputAmount == Sum256(outputs)
  {
    hide Wrap;
    outputAmount := 0;
    for i := 0 to |outputs|
      invariant outputAmount == Sum256(outputs[..i]) && forall k :: 0 <= k < i ==> OutputAccepted(outputs[k])
    {
      var output := outputs[i];
      assert outputs[..i + 1][..i] == outputs[..i];
      if !output.safe {
        return false, 0;
      }
      if output.amount.Invalid? {
        return false, 0;
      }
      if output.wallet == [] {
        return false, 0;
      }
      if !output.compliant {
        return false, 0;
      }
      outputAmount := Wrap(outputAmount + output.amount.value);
    }
    assert outputs[..|outputs|] == outputs;
    accepted := true;
  }

  /** validate_wallets */
  method ValidateWallets(tracker: Tracker, contractFound: bool, inputs: seq<Party>, outputs: seq<Party>, contract: Str)
      returns (accepted: bool)
    ensures accepted <==> contractFound && Accepted(tracker.State(), inputs, outputs, contract)
  {
    hide InputAccepted, OutputAccepted, NamedOnce, Sum256;
    if !contractFound {
      return false;
    }
    var inputAmount, outputAmount;
    accepted, inputAmount := CheckInputs(tracker, inputs, contract);
    if !accepted {
      return;
    }
    accepted, outputAmount := CheckOutputs(outputs);
    if !accepted {
      return;
    }
    accepted := inputAmount == outputAmount;
  }

  /** Fees are charged by single debits and credits. */
  predicate IsCharge(step: Step) { IsContractId(step.contract) && (step.op.Add? || step.op.Subtract?) }

  /** The two batches of process_transfers. */
  function TransferSteps(inputs: seq<Party>, outputs: seq<Party>, contract: Str): seq<Step> {
    [Step(contract, SubtractBatch(Transfers(inputs))), Step(contract, AddBatch(Transfers(outputs)))]
  }

  /** What a coin transaction does to balances: the checks, the contract's fees, and the transfers.
      It may stop at any point; what was done by then, the ledger stays balanced, and every wallet's
      total moves by exactly that. Tokens of its contract are conserved, but for the fees, exactly if
      the outputs add up to less than 2^256. */
  method TransferCoins(tracker: Tracker, contractFound: bool, inputs: seq<Party>, outputs: seq<Party>, charges: seq<Step>,
                       contract: Str, hash: Hash)
      returns (passed: bool, ghost steps: seq<Step>, ghost done: seq<Step>)
    requires IsContractId(contract) && forall i :: 0 <= i < |charges| ==> IsCharge(charges[i])
    modifies tracker
    ensures Keeps(old(tracker.State()), tracker.State(), hash)
    ensures Ran(old(tracker.State()), hash, steps, tracker.State()) && steps <= charges + TransferSteps(inputs, outputs, contract)
    ensures !(contractFound && Accepted(old(tracker.State()), inputs, outputs, contract)) ==> !passed && steps == []
    ensures passed ==> steps == charges + TransferSteps(inputs, outputs, contract)
    ensures if passed then done == charges + TransferSteps(inputs, outputs, contract) else done <= charges
    ensures Flowed(old(tracker.State()), tracker.State(), Credited(done), Debited(done))
    ensures forall c :: IsContractId(c) ==>
      Supply.InAll(tracker.State(), c)
      == old(Supply.InAll(tracker.State(), c)) + Supply.Total(CreditsIn(done, c)) - Supply.Total(DebitsIn(done, c))
    ensures passed && old(Supply.InAll(tracker.State(), contract)) < TWO_256 ==>
      (Supply.InAll(tracker.State(), contract)
       == old(Supply.InAll(tracker.State(), contract))
          + Supply.Total(CreditsIn(charges, contract)) - Supply.Total(DebitsIn(charges, contract))
       <==> Supply.Total(Transfers(outputs)) < TWO_256)
  {
    hide Performed, Keeps, Lossless, Accepted, Completes, TransferSteps, Flowed, Supply.InAll, CreditsIn, DebitsIn, Affordable;
    ghost var b := tracker.State();
    KeepsTwice(b, b, b, hash);
    steps, done := [], [];
    NothingFlowed(b);
    passed := ValidateWallets(tracker, contractFound, inputs, outputs, contract);
    if passed {
      InputsNamedOnce(b, inputs, outputs, contract);
      InputsExist(b, inputs, outputs, contract);
      passed, steps, done := ChargeAndTransfer(tracker, inputs, outputs, charges, contract, hash);
    }
    forall c | IsContractId(c)
      ensures Supply.InAll(tracker.State(), c)
           == Supply.InAll(b, c) + Supply.Total(CreditsIn(done, c)) - Supply.Total(DebitsIn(done, c))
    {
      FlowMovesSupply(b, tracker.State(), done, c);
    }
    if passed && Supply.InAll(b, contract) < TWO_256 {
      TransfersConserve(b, inputs, outputs, charges, contract);
    }
  }

  /** The contract's fees and the transfers, once the wallets are validated. */
  method ChargeAndTransfer(tracker: Tracker, inputs: seq<Party>, outputs: seq<Party>, charges: seq<Step>, contract: Str, hash: Hash)
      returns (passed: bool, ghost steps: seq<Step>, ghost done: seq<Step>)
    requires IsContractId(contract) && (forall i :: 0 <= i < |charges| ==> IsCharge(charges[i]))
    requires NamedOnce(inputs) && AllExist(tracker.State(), inputs, contract)
    modifies tracker
    ensures Keeps(old(tracker.State()), tracker.State(), hash)
    ensures Ran(old(tracker.State()), hash, steps, tracker.State()) && steps <= charges + TransferSteps(inputs, outputs, contract)
    ensures passed ==> steps == charges + TransferSteps(inputs, outputs, contract)
    ensures if passed then done == charges + TransferSteps(inputs, outputs, contract) else done <= charges
    ensures Flowed(old(tracker.State()), tracker.State(), Credited(done), Debited(done))
  {
    hide Performed, Keeps, Lossless, Completes, TransferSteps, Flowed, AllExist;
    ghost var b := tracker.State();
    KeepsTwice(b, b, b, hash);
    steps, done := [], [];
    NothingFlowed(b);
    assert forall i :: 0 <= i <= |charges| ==> charges[..i] <= charges + TransferSteps(inputs, outputs, contract);
    for i := 0 to |charges|
      invariant Keeps(b, tracker.State(), hash) && Ran(b, hash, steps, tracker.State()) && steps == charges[..i] == done
      invariant Flowed(b, tracker.State(), Credited(done), Debited(done)) && AllExist(tracker.State(), inputs, contract)
    {
      ghost var b1 := tracker.State();
      var status := Perform(tracker, hash, charges[i]);
      ChargeKeeps(b1, tracker.State(), hash, charges[i]);
      KeepsTwice(b, b1, tracker.State(), hash);
      RanMore(b, hash, steps, b1, charges[i], tracker.State());
      steps := steps + [charges[i]];
      assert steps == charges[..i + 1];
      if status != OK {
        ChargeStops(b1, tracker.State(), hash, charges[i]);
        return false, steps, done;
      }
      StillExist(b1, tracker.State(), hash, charges[i], inputs, contract);
      FlowMore(b, b1, tracker.State(), hash, done, charges[i]);
      done := done + [charges[i]];
    }
    assert charges[..|charges|] == charges;
    TwoSteps(inputs, outputs, contract);
    passed, steps, done := ProcessTransfers(tracker, inputs, outputs, contract, hash, b, charges);
  }

  ghost predicate AllExist(b: Books, ps: seq<Party>, contract: Str) {
    forall i :: 0 <= i < |ps| ==> Exists(b, RawKey(ps[i].wallet, contract))
  }

  lemma InputsExist(b: Books, inputs: seq<Party>, outputs: seq<Party>, contract: Str)
    requires Accepted(b, inputs, outputs, contract)
    ensures AllExist(b, inputs, contract)
  {
    hide RawKey;
    forall i | 0 <= i < |inputs| ensures Exists(b, RawKey(inputs[i].wallet, contract)) {
      assert InputAccepted(b, inputs[i], contract);
    }
  }

  /** Wallets with a total keep one. */
  lemma StillExist(b: Books, b': Books, h: Hash, step: Step, ps: seq<Party>, contract: Str)
    requires Performed(b, b', h, step) && AllExist(b, ps, contract)
    ensures AllExist(b', ps, contract)
  {
    hide RawKey, Recorded, Affordable;
  }

  lemma ChargeStops(b: Books, b': Books, h: Hash, step: Step)
    requires IsCharge(step) && Performed(b, b', h, step) && !Completes(b, step)
    ensures b' == b
  {
    StoppedFlows(b, b', h, step);
  }

  /** The running sum is the plain sum, wrapped around. */
  lemma {:induction false} SumWraps(ps: seq<Party>)
    ensures Sum256(ps) == Wrap(Supply.Total(Transfers(ps)))
  {
    hide Wrap;
    if ps != [] {
      var front, p := ps[..|ps| - 1], ps[|ps| - 1];
      SumWraps(front);
      assert Transfers(ps)[..|ps| - 1] == Transfers(front) && Transfers(ps)[|ps| - 1] == TransferOf(p);
      WrapTwice(Supply.Total(Transfers(front)), TransferOf(p).amount);
    } else {
      NothingWraps(ps);
    }
  }

  lemma NothingWraps(ps: seq<Party>)
    requires ps == []
    ensures Wrap(Supply.Total(Transfers(ps))) == 0
  {}

  /** What the two batches move in all: nothing, exactly if the outputs' sum does not wrap around. */
  lemma TransfersConserve(b: Books, inputs: seq<Party>, outputs: seq<Party>, charges: seq<Step>, contract: Str)
    requires IsContractId(contract) && Accepted(b, inputs, outputs, contract) && Supply.InAll(b, contract) < TWO_256
    ensures var all := charges + TransferSteps(inputs, outputs, contract);
            Supply.Total(CreditsIn(all, contract)) - Supply.Total(DebitsIn(all, contract))
            == Supply.Total(CreditsIn(charges, contract)) - Supply.Total(DebitsIn(charges, contract))
            <==> Supply.Total(Transfers(outputs)) < TWO_256
  {
    hide Wrap, Affordable, Supply.InAll, CreditsIn, DebitsIn, Supply.Total;
    var debit, credit := TransferSteps(inputs, outputs, contract)[0], TransferSteps(inputs, outputs, contract)[1];
    assert charges + TransferSteps(inputs, outputs, contract) == charges + [debit] + [credit];
    FlowInMore(charges, debit, contract);
    FlowInMore(charges + [debit], credit, contract);
    TotalConcat(DebitsIn(charges, contract), Transfers(inputs));
    TotalConcat(CreditsIn(charges, contract), Transfers(outputs));
    assert CreditsIn(charges, contract) + [] == CreditsIn(charges, contract);
    assert DebitsIn(charges, contract) + Transfers(inputs) + [] == DebitsIn(charges, contract) + Transfers(inputs);
    InputsWithin(b, inputs, outputs, contract);
    SumWraps(inputs);
    SumWraps(outputs);
  }

  lemma InputsWithin(b: Books, inputs: seq<Party>, outputs: seq<Party>, contract: Str)
    requires IsContractId(contract) && Accepted(b, inputs, outputs, contract)
    ensures Supply.Total(Transfers(inputs)) <= Supply.InAll(b, contract)
  {
    hide Affordable, Supply.InAll;
    forall i | 0 <= i < |inputs| ensures Affordable(b, Transfers(inputs)[i], contract) {
      assert InputAccepted(b, inputs[i], contract);
    }
    AffordableWithin(b, Transfers(inputs), contract);
  }

  /** The program compares the sums in 256 bits, so outputs of 2^256 + 1 in all pass for an input of 1. */
  lemma SumsCompareWrapped(b: Books, v: Str, x: Str, y: Str, contract: Str)
    requires Affordable(b, Transfer(v, 1), contract) && x != [] && y != []
    ensures var half: Uint256 := 0x8000000000000000_0000000000000000_0000000000000000_0000000000000000;
            var inputs := [Party(v, Number(1), true, true)];
            var outputs := [Party(x, Number(half), true, true), Party(y, Number(half + 1), true, true)];
            Accepted(b, inputs, outputs, contract) && Supply.Total(Transfers(outputs)) == TWO_256 + 1
  {
    hide Affordable;
    var half: Uint256 := 0x8000000000000000_0000000000000000_0000000000000000_0000000000000000;
    var p, q, r := Party(v, Number(1), true, true), Party(x, Number(half), true, true), Party(y, Number(half + 1), true, true);
    SumWraps([p]);
    SumWraps([q, r]);
    assert Transfers([p]) == [] + [Transfer(v, 1)];
    assert Transfers([q, r]) == [] + [Transfer(x, half)] + [Transfer(y, half + 1)];
    Supply.NoTotal();
    Supply.TotalMore([], Transfer(v, 1));
    Supply.TotalMore([], Transfer(x, half));
    Supply.TotalMore([] + [Transfer(x, half)], Transfer(y, half + 1));
    WrapOnce(TWO_256 + 1);
  }

  lemma TwoSteps(inputs: seq<Party>, outputs: seq<Party>, contract: Str)
    ensures var ts := TransferSteps(inputs, outputs, contract); |ts| == 2 && [ts[0]] <= ts
  {}

  lemma InputsNamedOnce(b: Books, inputs: seq<Party>, outputs: seq<Party>, contract: Str)
    requires Accepted(b, inputs, outputs, contract)
    ensures NamedOnce(inputs)
  {}

  lemma RanMore(b: Books, h: Hash, steps: seq<Step>, m: Books, step: Step, b': Books)
    requires Ran(b, h, steps, m) && Performed(m, b', h, step)
    ensures Ran(b, h, steps + [step], b')
  {
    hide Performed;
    assert (steps + [step])[..|steps|] == steps;
    assert RanOn(b, h, steps, step, b');
  }

  /** process_transfers, after the steps done before it. */
  method ProcessTransfers(tracker: Tracker, inputs: seq<Party>, outputs: seq<Party>, contract: Str, hash: Hash,
                          ghost b: Books, ghost before: seq<Step>)
      returns (passed: bool, ghost steps: seq<Step>, ghost done: seq<Step>)
    requires IsContractId(contract) && NamedOnce(inputs) && AllExist(tracker.State(), inputs, contract)
    requires Keeps(b, tracker.State(), hash) && Ran(b, hash, before, tracker.State())
    requires Flowed(b, tracker.State(), Credited(before), Debited(before))
    modifies tracker
    ensures Keeps(b, tracker.State(), hash) && Ran(b, hash, steps, tracker.State())
    ensures passed <==> old(Completes(tracker.State(), TransferSteps(inputs, outputs, contract)[0]))
    ensures steps == before + if passed then TransferSteps(inputs, outputs, contract) else [TransferSteps(inputs, outputs, contract)[0]]
    ensures done == before + if passed then TransferSteps(inputs, outputs, contract) else []
    ensures Flowed(b, tracker.State(), Credited(done), Debited(done))
  {
    hide Performed, Keeps, Lossless, Completes, Flowed;
    ghost var b1 := tracker.State();
    var debit := Step(contract, SubtractBatch(Transfers(inputs)));
    var status := Perform(tracker, hash, debit);
    ghost var b2 := tracker.State();
    NamedOnceLossless(b1, inputs, contract);
    LosslessKeeps(b1, b2, hash, debit);
    KeepsTwice(b, b1, b2, hash);
    RanMore(b, hash, before, b1, debit, b2);
    steps, done := before + [debit], before;
    if status != OK {
      StoppedFlows(b1, b2, hash, debit);
      return false, steps, done;
    }
    FlowMore(b, b1, b2, hash, before, debit);
    var credit := Step(contract, AddBatch(Transfers(outputs)));
    CreditCompletes(b2, credit);
    var _ := Perform(tracker, hash, credit);
    LosslessKeeps(b2, tracker.State(), hash, credit);
    KeepsTwice(b, b2, tracker.State(), hash);
    RanMore(b, hash, steps, b2, credit, tracker.State());
    FlowMore(b, b2, tracker.State(), hash, steps, credit);
    steps := steps + [credit];
    done := steps;
    passed := true;
  }

  lemma CreditCompletes(b: Books, step: Step)
    requires step.op.AddBatch?
    ensures Lossless(b, step) && Completes(b, step)
  {}

  lemma ChargeKeeps(b: Books, b': Books, h: Hash, step: Step)
    requires IsCharge(step) && Performed(b, b', h, step)
    ensures Keeps(b, b', h) && Lossless(b, step)
  {
    hide Performed, Keeps;
    LosslessKeeps(b, b', h, step);
  }
}
