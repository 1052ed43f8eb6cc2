/** The stake archive: every online validator's weight, with the stakes of other contracts
    capped and scaled against the ZERA stake. */
module Stake {
  import opened Arith
  import opened Sums

  type Contract = string
  type Wallet = string
  type Key = string

  const ZERA: Contract := "$ZRA+0000"
  const QUINTILLION: nat := 1_000_000_000_000_000_000

  datatype Validator = Validator(wallet: Wallet, online: bool, lastHeartbeat: nat, version: nat,
                                 staked: seq<Contract>)

  /** What the archive reads: a missing record reads as 0, or as not qualified. */
  datatype World = World(
    requiredVersions: seq<nat>,
    balances: map<(Wallet, Contract), nat>,
    qualified: set<Contract>,
    rate: map<Contract, nat>,
    maxStake: map<Contract, nat>,
    denomination: map<Contract, nat>)

  predicate CheckOnlineVersion(w: World, v: Validator, blockHeight: nat) {
    && v.online
    && (blockHeight >= 500 ==> v.lastHeartbeat >= blockHeight - 500)
    && v.version in w.requiredVersions
  }

  /** A validator counts if it is online, had a heartbeat within the last 500 blocks, and runs a
      required version. */
  lemma OnlineWithin(w: World, v: Validator, blockHeight: nat)
    ensures CheckOnlineVersion(w, v, blockHeight)
        <==> v.online && blockHeight - v.lastHeartbeat <= 500 && exists i :: 0 <= i < |w.requiredVersions| && w.requiredVersions[i] == v.version
  {}

  function Lookup<K(==)>(m: map<K, nat>, k: K): nat { if k in m then m[k] else 0 }

  function CurEquiv(w: World, c: Contract): nat {
    if Lookup(w.rate, c) == 0 then 1 else w.rate[c]
  }

  /** Every qualified contract has a denomination to divide by. */
  ghost predicate Denominated(w: World) {
    forall c :: c in w.qualified ==> c in w.denomination && w.denomination[c] > 0
  }

  /** get_wallet_balance: the wallet's holding of a qualified contract, in currency units. */
  function Balance(w: World, wallet: Wallet, c: Contract): nat
    requires Denominated(w)
  {
    if c !in w.qualified || (wallet, c) !in w.balances then 0
    else w.balances[(wallet, c)] * CurEquiv(w, c) / QUINTILLION / w.denomination[c]
  }

  /** The two divisions round once: the balance is the whole number of units that the holding, at its
      rate, pays for. */
  lemma BalanceRounds(w: World, wallet: Wallet, c: Contract)
    requires Denominated(w) && c in w.qualified && (wallet, c) in w.balances
    ensures var unit := QUINTILLION * w.denomination[c];
            var worth := w.balances[(wallet, c)] * CurEquiv(w, c);
            Balance(w, wallet, c) * unit <= worth < (Balance(w, wallet, c) + 1) * unit
  {
    DivTwice(w.balances[(wallet, c)] * CurEquiv(w, c), QUINTILLION, w.denomination[c]);
  }

  lemma DivTwice(x: nat, p: nat, q: nat)
    requires p > 0 && q > 0
    ensures x / p / q * (p * q) <= x < (x / p / q + 1) * (p * q)
  {
    var y := x / p;
    var z := y / q;
    DivMod(x, p);
    DivMod(y, q);
    MulMono(z * q, y, p);
    MulMono(y + 1, (z + 1) * q, p);
    MulAssoc(z, q, p);
    MulAssoc(z + 1, q, p);
  }

  /** One stake: a wallet that counts with its holding of a contract. */
  datatype Entry = Entry(wallet: Wallet, contract: Contract)

  function EntriesOf(v: Validator): seq<Entry> {
    if v.staked == [] then [Entry(v.wallet, ZERA)]
    else seq(|v.staked|, i requires 0 <= i < |v.staked| => Entry(v.wallet, v.staked[i]))
  }

  /** All stakes that count, validator by validator. */
  function Entries(w: World, vs: seq<Validator>, blockHeight: nat): seq<Entry> {
    if vs == [] then []
    else
      var v := vs[|vs| - 1];
      Entries(w, vs[..|vs| - 1], blockHeight) + if CheckOnlineVersion(w, v, blockHeight) then EntriesOf(v) else []
  }

  function EntryBalance(w: World, e: Entry): nat
    requires Denominated(w)
  {
    Balance(w, e.wallet, e.contract)
  }

  /** The unscaled stake in contract c. */
  function StakeIn(w: World, es: seq<Entry>, c: Contract): nat
    requires Denominated(w)
  {
    if es == [] then 0
    else
      var e := es[|es| - 1];
      StakeIn(w, es[..|es| - 1], c) + if e.contract == c then EntryBalance(w, e) else 0
  }

  /** A multiplier as the archive stores it: never set, "N/A", or a number of 100000ths. */
  datatype Multiplier = Unset | NotApplicable | Scaled(n: nat)

  datatype StakeMultipliers = StakeMultipliers(contracts: map<Contract, Multiplier>, default_: Multiplier)

  /** Scaling by a stored multiplier; one that was never set reads as 0. */
  function Scale(m: Multiplier, x: nat): nat {
    match m
    case Unset => x * 0 / 100000
    case NotApplicable => x
    case Scaled(n) => x * n / 100000
  }

  function Capped(w: World, es: seq<Entry>, c: Contract): nat
    requires Denominated(w)
  {
    var s, m := StakeIn(w, es, c), Lookup(w.maxStake, c);
    if c != ZERA && s > m then m else s
  }

  function ContractMultiplier(w: World, es: seq<Entry>, c: Contract): Multiplier
    requires Denominated(w)
  {
    var s, m := StakeIn(w, es, c), Lookup(w.maxStake, c);
    if s > m then Scaled(m * 100000 / s) else NotApplicable
  }

  function Contracts(es: seq<Entry>): set<Contract> {
    set i | 0 <= i < |es| :: es[i].contract
  }

  /** The capped stake of all contracts, ZERA included. */
  ghost function TotalStake(w: World, es: seq<Entry>): int
    requires Denominated(w)
  {
    SumSet(Contracts(es), c => Capped(w, es, c))
  }

  function DefaultMultiplier(zera: nat, total: nat): Multiplier {
    if total == 0 then Unset
    else
      var p := zera * 1000 / total;
      if p < 500 then Scaled(p * 100000 / (1000 - p)) else NotApplicable
  }

  /** The multipliers are what the stakes determine. */
  ghost predicate Determined(w: World, es: seq<Entry>, ms: StakeMultipliers)
    requires Denominated(w)
  {
    && ms.contracts.Keys == Contracts(es) - {ZERA}
    && (forall c :: c in ms.contracts ==> ms.contracts[c] == ContractMultiplier(w, es, c))
    && TotalStake(w, es) >= 0
    && ms.default_ == DefaultMultiplier(StakeIn(w, es, ZERA), TotalStake(w, es))
  }

  /** A stake's weight after its contract's multiplier. */
  function CappedWeight(w: World, ms: StakeMultipliers, e: Entry): nat
    requires Denominated(w) && (e.contract == ZERA || e.contract in ms.contracts)
  {
    if e.contract == ZERA then EntryBalance(w, e) else Scale(ms.contracts[e.contract], EntryBalance(w, e))
  }

  /** A stake's final weight. */
  function Weight(w: World, ms: StakeMultipliers, e: Entry): nat
    requires Denominated(w) && (e.contract == ZERA || e.contract in ms.contracts)
  {
    if e.contract == ZERA then EntryBalance(w, e) else Scale(ms.default_, CappedWeight(w, ms, e))
  }

  ghost predicate Covers(ms: StakeMultipliers, es: seq<Entry>) {
    forall i :: 0 <= i < |es| && es[i].contract != ZERA ==> es[i].contract in ms.contracts
  }

  /** Weight after the contract multipliers, of the stakes in c only. */
  function CappedWeightIn(w: World, ms: StakeMultipliers, es: seq<Entry>, c: Contract): nat
    requires Denominated(w) && Covers(ms, es)
  {
    if es == [] then 0
    else
      var e := es[|es| - 1];
      CappedWeightIn(w, ms, es[..|es| - 1], c) + if e.contract == c then CappedWeight(w, ms, e) else 0
  }

  /** Total final weight of the stakes in ZERA, or of those in anything else. */
  function WeightOf(w: World, ms: StakeMultipliers, es: seq<Entry>, zera: bool): nat
    requires Denominated(w) && Covers(ms, es)
  {
    if es == [] then 0
    else
      var e := es[|es| - 1];
      WeightOf(w, ms, es[..|es| - 1], zera) + if (e.contract == ZERA) == zera then Weight(w, ms, e) else 0
  }

  // ---- the two guarantees -----------------------------------------------------------------

  /** Sum of floors is at most the floor of the scaled sum. */
  lemma {:induction false} ScaledSum(w: World, ms: StakeMultipliers, es: seq<Entry>, c: Contract, n: nat)
    requires Denominated(w) && Covers(ms, es) && c != ZERA && c in ms.contracts && ms.contracts[c] == Scaled(n)
    ensures 100000 * CappedWeightIn(w, ms, es, c) <= n * StakeIn(w, es, c)
  {
    if es != [] {
      var e := es[|es| - 1];
      ScaledSum(w, ms, es[..|es| - 1], c, n);
      if e.contract == c {
        var b := EntryBalance(w, e);
        DivMod(b * n, 100000);
        MulDistrib(n, StakeIn(w, es[..|es| - 1], c), b);
      }
    }
  }

  lemma {:induction false} PlainSum(w: World, ms: StakeMultipliers, es: seq<Entry>, c: Contract)
    requires Denominated(w) && Covers(ms, es)
    requires c == ZERA || (c in ms.contracts && ms.contracts[c] == NotApplicable)
    ensures CappedWeightIn(w, ms, es, c) == StakeIn(w, es, c)
  {
    if es != [] { PlainSum(w, ms, es[..|es| - 1], c); }
  }

  /** First guarantee: no contract other than ZERA archives more than its max_stake,
      nor more than what is staked in it. */
  lemma ContractIsCapped(w: World, ms: StakeMultipliers, es: seq<Entry>, c: Contract)
    requires Denominated(w) && Determined(w, es, ms) && Covers(ms, es) && c in Contracts(es)
    ensures CappedWeightIn(w, ms, es, c) <= Capped(w, es, c)
    ensures c != ZERA ==> CappedWeightIn(w, ms, es, c) <= Lookup(w.maxStake, c)
  {
    var s, m := StakeIn(w, es, c), Lookup(w.maxStake, c);
    if c != ZERA && s > m {
      var n := m * 100000 / s;
      ScaledSum(w, ms, es, c, n);
      DivMod(m * 100000, s);
    } else {
      PlainSum(w, ms, es, c);
    }
  }

  // ---- and no less ------------------------------------------------------------------------

  /** How many stakes are in c. */
  function CountIn(es: seq<Entry>, c: Contract): nat {
    if es == [] then 0 else CountIn(es[..|es| - 1], c) + if es[|es| - 1].contract == c then 1 else 0
  }

  /** Each floor loses less than one unit. */
  lemma {:induction false} ScaledSumLoss(w: World, ms: StakeMultipliers, es: seq<Entry>, c: Contract, n: nat)
    requires Denominated(w) && Covers(ms, es) && c != ZERA && c in ms.contracts && ms.contracts[c] == Scaled(n)
    ensures 100000 * CappedWeightIn(w, ms, es, c) + 99999 * CountIn(es, c) >= n * StakeIn(w, es, c)
  {
    if es != [] {
      var e := es[|es| - 1];
      ScaledSumLoss(w, ms, es[..|es| - 1], c, n);
      if e.contract == c {
        var b := EntryBalance(w, e);
        DivMod(b * n, 100000);
        MulDistrib(n, StakeIn(w, es[..|es| - 1], c), b);
      }
    }
  }

  lemma {:induction false} CountStaked(w: World, es: seq<Entry>, c: Contract)
    requires Denominated(w) && StakeIn(w, es, c) > 0
    ensures CountIn(es, c) > 0
  {
    if StakeIn(w, es[..|es| - 1], c) > 0 { CountStaked(w, es[..|es| - 1], c); }
  }

  /** What a contract keeps of its cap: all but one unit per stake and the rounding of its multiplier;
      below the cap it keeps everything. */
  ghost predicate KeepsCap(w: World, ms: StakeMultipliers, es: seq<Entry>, c: Contract)
    requires Denominated(w) && Covers(ms, es)
  {
    var s, m, weight := StakeIn(w, es, c), Lookup(w.maxStake, c), CappedWeightIn(w, ms, es, c);
    if s > m then 100000 * (weight + CountIn(es, c)) + s > 100000 * m else weight == s
  }

  lemma ContractKeepsCap(w: World, ms: StakeMultipliers, es: seq<Entry>, c: Contract)
    requires Denominated(w) && Determined(w, es, ms) && Covers(ms, es) && c in Contracts(es) && c != ZERA
    ensures KeepsCap(w, ms, es, c)
  {
    var s, m := StakeIn(w, es, c), Lookup(w.maxStake, c);
    if s > m {
      var n := m * 100000 / s;
      ScaledSumLoss(w, ms, es, c, n);
      DivMod(m * 100000, s);
      CountStaked(w, es, c);
    } else {
      PlainSum(w, ms, es, c);
    }
  }

  /** A single stake above the cap: its weight is its part of the cap, up to one unit and the rounding
      of the multiplier. */
  lemma StakeKeepsPart(w: World, ms: StakeMultipliers, es: seq<Entry>, e: Entry)
    requires Denominated(w) && Determined(w, es, ms) && e in es && e.contract != ZERA
    requires StakeIn(w, es, e.contract) > Lookup(w.maxStake, e.contract)
    ensures e.contract in ms.contracts
    ensures var s, m := StakeIn(w, es, e.contract), Lookup(w.maxStake, e.contract);
            var b, x := EntryBalance(w, e), CappedWeight(w, ms, e);
            x * s <= b * m && 100000 * ((x + 1) * s) + b * s > 100000 * (b * m)
  {
    var s, m := StakeIn(w, es, e.contract), Lookup(w.maxStake, e.contract);
    assert e.contract in Contracts(es);
    var n := m * 100000 / s;
    PartBounds(EntryBalance(w, e), n, s, m);
  }

  lemma PartBounds(b: nat, n: nat, s: nat, m: nat)
    requires s > 0 && n == m * 100000 / s
    ensures var x := b * n / 100000; x * s <= b * m && 100000 * ((x + 1) * s) + b * s > 100000 * (b * m)
  {
    var x, y := b * n / 100000, b * n;
    DivMod(m * 100000, s);
    DivMod(y, 100000);
    PartAbove(b, n, s, m, x);
    PartBelow(b, n, s, m, x);
  }

  lemma PartAbove(b: nat, n: nat, s: nat, m: nat, x: nat)
    requires n * s <= 100000 * m && 100000 * x <= b * n
    ensures x * s <= b * m
  {
    MulMono(100000 * x, b * n, s);
    MulMono(n * s, 100000 * m, b);
    MulAssoc(b, n, s);
    MulAssoc(100000, x, s);
    MulAssoc(100000, m, b);
  }

  lemma PartBelow(b: nat, n: nat, s: nat, m: nat, x: nat)
    requires s > 0 && 100000 * m < n * s + s && b * n < 100000 * x + 100000
    ensures 100000 * ((x + 1) * s) + b * s > 100000 * (b * m)
  {
    MulMono(b * n + 1, 100000 * (x + 1), s);
    MulMono(100000 * m, n * s + s, b);
    MulAssoc(b, n, s);
    MulAssoc(100000, x + 1, s);
    MulAssoc(100000, m, b);
    MulDistrib(b, n * s, s);
    MulDistrib(s, b * n, 1);
  }

  /** Weight after the contract multipliers, of all stakes not in ZERA. */
  function CappedTotal(w: World, ms: StakeMultipliers, es: seq<Entry>): nat
    requires Denominated(w) && Covers(ms, es)
  {
    if es == [] then 0
    else
      var e := es[|es| - 1];
      CappedTotal(w, ms, es[..|es| - 1]) + if e.contract == ZERA then 0 else CappedWeight(w, ms, e)
  }

  ghost function InEach(w: World, ms: StakeMultipliers, es: seq<Entry>): Contract -> int
    requires Denominated(w) && Covers(ms, es)
  {
    c => CappedWeightIn(w, ms, es, c)
  }

  /** Summing stake by stake or contract by contract is the same. */
  lemma {:induction false} TotalByContract(w: World, ms: StakeMultipliers, es: seq<Entry>, k: set<Contract>)
    requires Denominated(w) && Covers(ms, es) && ZERA !in k && Contracts(es) <= k + {ZERA}
    ensures CappedTotal(w, ms, es) == SumSet(k, InEach(w, ms, es))
  {
    if es == [] {
      SumSetZero(k, InEach(w, ms, es));
    } else {
      var n := |es| - 1;
      var front, e := es[..n], es[n];
      assert forall i :: 0 <= i < n ==> front[i] == es[i] && front[i].contract in Contracts(es);
      TotalByContract(w, ms, front, k);
      assert e.contract in Contracts(es);
      if e.contract == ZERA {
        SumSetSame(k, InEach(w, ms, front), InEach(w, ms, es));
      } else {
        SumSetUpdate(k, InEach(w, ms, front), InEach(w, ms, es), e.contract);
      }
    }
  }

  ghost function CappedIn(w: World, es: seq<Entry>): Contract -> int
    requires Denominated(w)
  {
    c => Capped(w, es, c)
  }

  /** The capped weights of all other contracts stay below the capped stake that is not ZERA. */
  lemma OthersAreCapped(w: World, ms: StakeMultipliers, es: seq<Entry>)
    requires Denominated(w) && Determined(w, es, ms) && Covers(ms, es)
    ensures CappedTotal(w, ms, es) + StakeIn(w, es, ZERA) <= TotalStake(w, es)
  {
    var k := Contracts(es) - {ZERA};
    TotalByContract(w, ms, es, k);
    forall c | c in k ensures InEach(w, ms, es)(c) <= CappedIn(w, es)(c) { ContractIsCapped(w, ms, es, c); }
    SumSetMono(k, InEach(w, ms, es), CappedIn(w, es));
    if ZERA in Contracts(es) {
      SumSetRemove(Contracts(es), CappedIn(w, es), ZERA);
    } else {
      NoStake(w, es, ZERA);
      assert k == Contracts(es);
    }
    SumSetSame(Contracts(es), c => Capped(w, es, c), CappedIn(w, es));
  }

  lemma {:induction false} NoStake(w: World, es: seq<Entry>, c: Contract)
    requires Denominated(w) && c !in Contracts(es)
    ensures StakeIn(w, es, c) == 0
  {
    if es != [] {
      var n := |es| - 1;
      assert es[n].contract in Contracts(es);
      assert forall i :: 0 <= i < n ==> es[..n][i] == es[i] && es[i].contract in Contracts(es);
      NoStake(w, es[..n], c);
    }
  }

  lemma {:induction false} DefaultScalesSum(w: World, ms: StakeMultipliers, es: seq<Entry>, n: nat)
    requires Denominated(w) && Covers(ms, es) && ms.default_ == Scaled(n)
    ensures 100000 * WeightOf(w, ms, es, false) <= n * CappedTotal(w, ms, es)
  {
    if es != [] {
      var front, e := es[..|es| - 1], es[|es| - 1];
      DefaultScalesSum(w, ms, front, n);
      if e.contract != ZERA {
        var x := CappedWeight(w, ms, e);
        DivMod(x * n, 100000);
        MulDistrib(n, CappedTotal(w, ms, front), x);
      }
    }
  }

  lemma {:induction false} DefaultKeepsOrDrops(w: World, ms: StakeMultipliers, es: seq<Entry>)
    requires Denominated(w) && Covers(ms, es)
    ensures ms.default_ == NotApplicable ==> WeightOf(w, ms, es, false) == CappedTotal(w, ms, es)
    ensures ms.default_ == Unset ==> WeightOf(w, ms, es, false) == 0
  {
    if es != [] { DefaultKeepsOrDrops(w, ms, es[..|es| - 1]); }
  }

  /** The multiplier's arithmetic: others scaled by floor(p * 100000 / (1000 - p)), with
      p = floor(1000 z / t), do not exceed z. */
  lemma HalfBound(z: nat, others: nat, t: nat, weight: nat)
    requires t > 0 && others + z <= t && z * 1000 / t < 500
    requires 100000 * weight <= (z * 1000 / t * 100000 / (1000 - z * 1000 / t)) * others
    ensures weight <= z
  {
    var p := z * 1000 / t;
    var d := p * 100000 / (1000 - p);
    DivMod(z * 1000, t);
    DivMod(p * 100000, 1000 - p);
    MulMono(others + z, t, p);
    MulDistrib(p, others, z);
    assert (1000 - p) * z == 1000 * z - p * z;
    assert p * others <= (1000 - p) * z;
    ScaleDown(d, p, others, z);
  }

  lemma ScaleDown(d: nat, p: nat, others: nat, z: nat)
    requires p < 500 && d * (1000 - p) <= 100000 * p && p * others <= (1000 - p) * z
    ensures d * others <= 100000 * z
  {
    var g := 1000 - p;
    MulMono(d * g, 100000 * p, others);
    assert (d * g) * others == (d * others) * g;
    assert (100000 * p) * others == 100000 * (p * others);
    assert 100000 * (g * z) == (100000 * z) * g;
    CancelFactor(d * others, 100000 * z, g);
  }

  lemma HalfOrMore(z: nat, others: nat, t: nat)
    requires t > 0 && others + z <= t && z * 1000 / t >= 500
    ensures others <= z
  {
    DivMod(z * 1000, t);
    MulMono(500, z * 1000 / t, t);
  }

  /** Second guarantee: after all multipliers, and despite every floor division, the stakes in
      other contracts weigh at most as much as the stakes in ZERA. */
  lemma OthersNeverOutweighZera(w: World, ms: StakeMultipliers, es: seq<Entry>)
    requires Denominated(w) && Determined(w, es, ms) && Covers(ms, es)
    ensures WeightOf(w, ms, es, false) <= StakeIn(w, es, ZERA)
    ensures WeightOf(w, ms, es, true) == StakeIn(w, es, ZERA)
  {
    var z, t, others := StakeIn(w, es, ZERA), TotalStake(w, es), CappedTotal(w, ms, es);
    ZeraKeepsWeight(w, ms, es);
    OthersAreCapped(w, ms, es);
    DefaultKeepsOrDrops(w, ms, es);
    if t > 0 {
      if z * 1000 / t < 500 {
        DefaultScalesSum(w, ms, es, ms.default_.n);
        HalfBound(z, others, t, WeightOf(w, ms, es, false));
      } else {
        HalfOrMore(z, others, t);
      }
    }
  }

  lemma {:induction false} ZeraKeepsWeight(w: World, ms: StakeMultipliers, es: seq<Entry>)
    requires Denominated(w) && Covers(ms, es)
    ensures WeightOf(w, ms, es, true) == StakeIn(w, es, ZERA)
  {
    if es != [] { ZeraKeepsWeight(w, ms, es[..|es| - 1]); }
  }

  /** How many stakes are not in ZERA. */
  function CountOthers(es: seq<Entry>): nat {
    if es == [] then 0 else CountOthers(es[..|es| - 1]) + if es[|es| - 1].contract == ZERA then 0 else 1
  }

  lemma {:induction false} DefaultLoss(w: World, ms: StakeMultipliers, es: seq<Entry>, n: nat)
    requires Denominated(w) && Covers(ms, es) && ms.default_ == Scaled(n)
    ensures 100000 * WeightOf(w, ms, es, false) + 99999 * CountOthers(es) >= n * CappedTotal(w, ms, es)
  {
    if es != [] {
      var front, e := es[..|es| - 1], es[|es| - 1];
      DefaultLoss(w, ms, front, n);
      if e.contract != ZERA {
        var x := CappedWeight(w, ms, e);
        DivMod(x * n, 100000);
        MulDistrib(n, CappedTotal(w, ms, front), x);
      }
    }
  }

  /** What the other contracts keep after the default multiplier: everything if ZERA has at least half
      of the capped stakes; else ZERA's share p in 1000 - p of it, less one unit per stake and the
      rounding of the multiplier. */
  ghost predicate KeepsShare(w: World, ms: StakeMultipliers, es: seq<Entry>)
    requires Denominated(w) && Covers(ms, es)
  {
    var z, t := StakeIn(w, es, ZERA), TotalStake(w, es);
    var capped, weight := CappedTotal(w, ms, es), WeightOf(w, ms, es, false);
    t > 0 ==>
      var p := z * 1000 / t;
      if p >= 500 then weight == capped
      else (1000 - p) * (100000 * (weight + CountOthers(es)) + capped) >= 100000 * (p * capped)
  }

  lemma OthersKeepShare(w: World, ms: StakeMultipliers, es: seq<Entry>)
    requires Denominated(w) && Determined(w, es, ms) && Covers(ms, es)
    ensures KeepsShare(w, ms, es) && (TotalStake(w, es) == 0 ==> CappedTotal(w, ms, es) == 0)
  {
    var z, t := StakeIn(w, es, ZERA), TotalStake(w, es);
    OthersAreCapped(w, ms, es);
    DefaultKeepsOrDrops(w, ms, es);
    if t > 0 && z * 1000 / t < 500 {
      DefaultLoss(w, ms, es, ms.default_.n);
      ShareBound(z * 1000 / t, ms.default_.n, CappedTotal(w, ms, es), WeightOf(w, ms, es, false), CountOthers(es));
    }
  }

  lemma ShareBound(p: nat, n: nat, capped: nat, weight: nat, count: nat)
    requires p < 500 && n == p * 100000 / (1000 - p) && 100000 * weight + 99999 * count >= n * capped
    ensures (1000 - p) * (100000 * (weight + count) + capped) >= 100000 * (p * capped)
  {
    var g: nat := 1000 - p;
    DivMod(p * 100000, g);
    var all: nat := 100000 * (weight + count) + capped;
    MulDistrib(capped, n, 1);
    assert all >= (n + 1) * capped;
    MulMono((n + 1) * capped, all, g);
    MulMono(100000 * p, (n + 1) * g, capped);
    MulAssoc(100000, p, capped);
    ThreeFactors(n + 1, capped, g);
  }

  lemma ThreeFactors(a: nat, b: nat, c: nat)
    ensures (a * b) * c == (a * c) * b
  {}

  // ---- the range of the 256-bit arithmetic ------------------------------------------------

  /** An arithmetic result that does not wrap around. */
  function U256(x: nat): nat
    requires x < TWO_256
  {
    x
  }

  /** The sum of all stakes. */
  function StakeSum(w: World, es: seq<Entry>): nat
    requires Denominated(w)
  {
    if es == [] then 0 else StakeSum(w, es[..|es| - 1]) + EntryBalance(w, es[|es| - 1])
  }

  /** The inputs are small enough for 256 bits: one stake, cap or sum times 100000 still fits. */
  ghost predicate InRange(w: World, es: seq<Entry>)
    requires Denominated(w)
  {
    && StakeSum(w, es) * 100000 < TWO_256
    && forall c :: c in w.maxStake ==> w.maxStake[c] * 100000 < TWO_256
  }

  ghost predicate BalancesInRange(w: World) {
    forall k :: k in w.balances ==> w.balances[k] * CurEquiv(w, k.1) < TWO_256
  }

  lemma {:induction false} PartOfSum(w: World, es: seq<Entry>, k: nat, c: Contract)
    requires Denominated(w) && k <= |es|
    ensures StakeIn(w, es[..k], c) <= StakeSum(w, es[..k]) <= StakeSum(w, es)
    ensures k < |es| ==> EntryBalance(w, es[k]) <= StakeSum(w, es)
    decreases |es|
  {
    if k < |es| {
      var front := es[..|es| - 1];
      if k < |front| {
        PartOfSum(w, front, k, c);
        assert front[..k] == es[..k];
      } else {
        PartOfSum(w, front, |front|, c);
        assert front[..|front|] == es[..k];
      }
    } else {
      assert es[..k] == es;
      if k > 0 {
        PartOfSum(w, es[..k - 1], k - 1, c);
        assert es[..k - 1][..k - 1] == es[..k - 1];
      }
    }
  }

  ghost function StakeEach(w: World, es: seq<Entry>): Contract -> int
    requires Denominated(w)
  {
    c => StakeIn(w, es, c)
  }

  lemma {:induction false} SumByContract(w: World, es: seq<Entry>, k: set<Contract>)
    requires Denominated(w) && Contracts(es) <= k
    ensures StakeSum(w, es) == SumSet(k, StakeEach(w, es))
  {
    if es == [] {
      SumSetZero(k, StakeEach(w, es));
    } else {
      var n := |es| - 1;
      var front := es[..n];
      assert forall i :: 0 <= i < n ==> front[i] == es[i] && front[i].contract in Contracts(es);
      SumByContract(w, front, k);
      assert es[n].contract in Contracts(es);
      SumSetUpdate(k, StakeEach(w, front), StakeEach(w, es), es[n].contract);
    }
  }

  /** The capped stake of some of the contracts is at most the sum of all stakes. */
  lemma SomeCapped(w: World, es: seq<Entry>, k: set<Contract>)
    requires Denominated(w) && k <= Contracts(es)
    ensures 0 <= SumSet(k, CappedIn(w, es)) <= StakeSum(w, es)
  {
    var all := Contracts(es);
    SumByContract(w, es, all);
    SumSetMono(all, CappedIn(w, es), StakeEach(w, es));
    SumSetSubset(k, all, CappedIn(w, es));
  }

  lemma MultipliersAreSmall(w: World, es: seq<Entry>, c: Contract, z: nat, t: nat)
    requires Denominated(w)
    ensures ContractMultiplier(w, es, c).Scaled? ==> ContractMultiplier(w, es, c).n <= 100000
    ensures DefaultMultiplier(z, t).Scaled? ==> DefaultMultiplier(z, t).n <= 100000
  {
    var s, m := StakeIn(w, es, c), Lookup(w.maxStake, c);
    if s > m {
      DivBelow(m * 100000, s, 100001);
    }
    if t > 0 && z * 1000 / t < 500 {
      var p := z * 1000 / t;
      DivBelow(p * 100000, 1000 - p, 100001);
    }
  }

  // ---- the archive ------------------------------------------------------------------------

  /** The accumulated stakes per contract. */
  ghost predicate Accumulated(w: World, es: seq<Entry>, stake: map<Contract, nat>)
    requires Denominated(w)
  {
    stake.Keys == Contracts(es) && forall c :: c in stake ==> stake[c] == StakeIn(w, es, c)
  }

  /** get_wallet_balance */
  method GetWalletBalance(w: World, wallet: Wallet, c: Contract) returns (balance: nat)
    requires Denominated(w) && BalancesInRange(w)
    ensures balance == Balance(w, wallet, c)
  {
    if c !in w.qualified {
      return 0;
    }
    if (wallet, c) !in w.balances {
      return 0;
    }
    var amount := w.balances[(wallet, c)];
    balance := U256(amount * CurEquiv(w, c)) / QUINTILLION / w.denomination[c];
  }

  /** update_balance_map */
  method UpdateBalanceMap(w: World, symbol: Contract, wallet: Wallet, stake: map<Contract, nat>, ghost es: seq<Entry>)
      returns (scaledStake: map<Contract, nat>)
    requires Denominated(w) && BalancesInRange(w) && Accumulated(w, es, stake)
    requires StakeSum(w, es + [Entry(wallet, symbol)]) < TWO_256
    ensures Accumulated(w, es + [Entry(wallet, symbol)], scaledStake)
  {
    var balance := GetWalletBalance(w, wallet, symbol);
    ghost var more := es + [Entry(wallet, symbol)];
    Contracts1(es, Entry(wallet, symbol));
    PartOfSum(w, more, |more|, symbol);
    assert more[..|more|] == more && more[..|es|] == es;
    if symbol in stake {
      scaledStake := stake[symbol := U256(stake[symbol] + balance)];
    } else {
      NoStake(w, es, symbol);
      scaledStake := stake[symbol := balance];
    }
  }

  lemma Contracts1(es: seq<Entry>, e: Entry)
    ensures Contracts(es + [e]) == Contracts(es) + {e.contract}
  {
    var more := es + [e];
    assert more[|es|] == e;
    assert forall i :: 0 <= i < |es| ==> more[i] == es[i];
  }

  lemma {:induction false} EntriesPrefix(w: World, vs: seq<Validator>, h: nat, i: nat)
    requires i <= |vs|
    ensures Entries(w, vs[..i], h) <= Entries(w, vs, h)
    decreases |vs|
  {
    if i < |vs| {
      EntriesPrefix(w, vs[..|vs| - 1], h, i);
      assert vs[..|vs| - 1][..i] == vs[..i];
    } else {
      assert vs[..i] == vs;
    }
  }

  /** Any part of what has been visited sums up to at most the whole. */
  lemma VisitedInRange(w: World, vs: seq<Validator>, h: nat, i: nat, part: seq<Entry>)
    requires Denominated(w) && i < |vs| && CheckOnlineVersion(w, vs[i], h) && part <= EntriesOf(vs[i])
    ensures StakeSum(w, Entries(w, vs[..i], h) + part) <= StakeSum(w, Entries(w, vs, h))
    ensures Entries(w, vs[..i], h) + part <= Entries(w, vs, h)
  {
    var es, all := Entries(w, vs[..i], h) + part, Entries(w, vs, h);
    assert vs[..i + 1][..i] == vs[..i];
    EntriesPrefix(w, vs, h, i + 1);
    assert es <= Entries(w, vs[..i + 1], h) <= all;
    assert all[..|es|] == es;
    PartOfSum(w, all, |es|, ZERA);
  }

  /** First pass of calculate_scaled_stake: one validator's stakes. */
  method AccumulateValidator(w: World, vs: seq<Validator>, h: nat, i: nat, stake: map<Contract, nat>)
      returns (scaledStake: map<Contract, nat>)
    requires Denominated(w) && BalancesInRange(w) && StakeSum(w, Entries(w, vs, h)) < TWO_256
    requires i < |vs| && CheckOnlineVersion(w, vs[i], h)
    requires Accumulated(w, Entries(w, vs[..i], h), stake)
    ensures Accumulated(w, Entries(w, vs[..i], h) + EntriesOf(vs[i]), scaledStake)
  {
    hide StakeSum, Entries, Accumulated;
    scaledStake := stake;
    var validator := vs[i];
    ghost var es := Entries(w, vs[..i], h);
    if |validator.staked| == 0 {
      VisitedInRange(w, vs, h, i, EntriesOf(validator));
      scaledStake := UpdateBalanceMap(w, ZERA, validator.wallet, scaledStake, es);
    } else {
      assert es + EntriesOf(validator)[..0] == es;
    }
    for j := 0 to |validator.staked|
      invariant Accumulated(w, es + (if validator.staked == [] then EntriesOf(validator) else EntriesOf(validator)[..j]), scaledStake)
    {
      VisitedInRange(w, vs, h, i, EntriesOf(validator)[..j + 1]);
      assert es + EntriesOf(validator)[..j + 1]
          == es + EntriesOf(validator)[..j] + [Entry(validator.wallet, validator.staked[j])];
      scaledStake := UpdateBalanceMap(w, validator.staked[j], validator.wallet, scaledStake, es + EntriesOf(validator)[..j]);
    }
    assert EntriesOf(validator)[..|EntriesOf(validator)|] == EntriesOf(validator);
  }

  method AccumulateStakes(w: World, vs: seq<Validator>, h: nat) returns (stake: map<Contract, nat>)
    requires Denominated(w) && BalancesInRange(w) && StakeSum(w, Entries(w, vs, h)) < TWO_256
    ensures Accumulated(w, Entries(w, vs, h), stake)
  {
    stake := map[];
    assert vs[..0] == [];
    for i := 0 to |vs|
      invariant Accumulated(w, Entries(w, vs[..i], h), stake)
    {
      assert vs[..i + 1][..i] == vs[..i];
      if CheckOnlineVersion(w, vs[i], h) {
        stake := AccumulateValidator(w, vs, h, i, stake);
      } else {
        assert Entries(w, vs[..i + 1], h) == Entries(w, vs[..i], h);
      }
    }
    assert vs[..|vs|] == vs;
  }

  /** One contract: its multiplier, and the stake that counts. */
  method CapStake(w: World, c: Contract, stake: nat, ghost es: seq<Entry>) returns (m: Multiplier, capped: nat)
    requires Denominated(w) && InRange(w, es) && stake == StakeIn(w, es, c)
    ensures c != ZERA ==> m == ContractMultiplier(w, es, c)
    ensures capped == Capped(w, es, c)
  {
    m, capped := NotApplicable, stake;
    if c != ZERA {
      var maxStake := Lookup(w.maxStake, c);
      if stake > maxStake {
        m := Scaled(U256(maxStake * 100000) / stake);
        capped := maxStake;
      }
    }
  }

  /** Second pass of calculate_scaled_stake: cap every contract and sum the capped stakes up. */
  method CapStakes(w: World, stake: map<Contract, nat>, ghost es: seq<Entry>)
      returns (contracts: map<Contract, Multiplier>, total: nat)
    requires Denominated(w) && InRange(w, es) && Accumulated(w, es, stake)
    ensures contracts.Keys == Contracts(es) - {ZERA}
    ensures forall c :: c in contracts ==> contracts[c] == ContractMultiplier(w, es, c)
    ensures total == SumSet(Contracts(es), CappedIn(w, es)) <= StakeSum(w, es)
  {
    hide StakeIn, StakeSum, SumSet, Contracts, Capped, ContractMultiplier;
    contracts, total := map[], 0;
    var rest := stake.Keys;
    ghost var done: set<Contract> := {};
    SumSetZero({}, CappedIn(w, es));
    while rest != {}
      invariant done + rest == stake.Keys && done !! rest
      invariant contracts.Keys == done - {ZERA}
      invariant forall c :: c in contracts ==> contracts[c] == ContractMultiplier(w, es, c)
      invariant total == SumSet(done, CappedIn(w, es))
      decreases rest
    {
      var c :| c in rest;
      SumSetAdd(done, CappedIn(w, es), c);
      SomeCapped(w, es, done + {c});
      var m, capped := CapStake(w, c, stake[c], es);
      if c != ZERA {
        contracts := contracts[c := m];
      }
      total := U256(total + capped);
      rest := rest - {c};
      done := done + {c};
    }
    assert done == stake.Keys;
    SomeCapped(w, es, done);
  }

  /** The default multiplier: ZERA's share in 1000ths decides. */
  method DefaultFor(zeraStake: nat, total: nat) returns (m: Multiplier)
    requires zeraStake * 1000 < TWO_256
    ensures m == DefaultMultiplier(zeraStake, total)
  {
    if total == 0 {
      return Unset;
    }
    var zeraStakePercent := U256(zeraStake * 1000) / total;
    if zeraStakePercent < 500 {
      var miscStakePercent := 1000 - zeraStakePercent;
      m := Scaled(U256(zeraStakePercent * 100000) / miscStakePercent);
    } else {
      m := NotApplicable;
    }
  }

  /** calculate_scaled_stake */
  method CalculateScaledStake(w: World, vs: seq<Validator>, h: nat) returns (ms: StakeMultipliers)
    requires Denominated(w) && BalancesInRange(w) && InRange(w, Entries(w, vs, h))
    ensures Determined(w, Entries(w, vs, h), ms)
  {
    hide StakeIn, StakeSum, SumSet, Contracts, Capped, Entries, ContractMultiplier, DefaultMultiplier;
    ghost var es := Entries(w, vs, h);
    var stake := AccumulateStakes(w, vs, h);
    var contracts, total := CapStakes(w, stake, es);
    SumSetSame(Contracts(es), c => Capped(w, es, c), CappedIn(w, es));
    PartOfSum(w, es, |es|, ZERA);
    assert es[..|es|] == es;
    if ZERA !in stake {
      NoStake(w, es, ZERA);
    }
    var m := DefaultFor(Lookup(stake, ZERA), total);
    ms := StakeMultipliers(contracts, m);
  }

  // ---- archive_balances -------------------------------------------------------------------

  function EntriesWeight(w: World, ms: StakeMultipliers, es: seq<Entry>): nat
    requires Denominated(w) && Covers(ms, es)
  {
    if es == [] then 0 else EntriesWeight(w, ms, es[..|es| - 1]) + Weight(w, ms, es[|es| - 1])
  }

  lemma {:induction false} WeightSplits(w: World, ms: StakeMultipliers, es: seq<Entry>)
    requires Denominated(w) && Covers(ms, es)
    ensures EntriesWeight(w, ms, es) == WeightOf(w, ms, es, true) + WeightOf(w, ms, es, false)
  {
    if es != [] { WeightSplits(w, ms, es[..|es| - 1]); }
  }

  lemma {:induction false} WeightConcat(w: World, ms: StakeMultipliers, a: seq<Entry>, b: seq<Entry>)
    requires Denominated(w) && Covers(ms, a + b)
    ensures Covers(ms, a) && Covers(ms, b)
    ensures EntriesWeight(w, ms, a + b) == EntriesWeight(w, ms, a) + EntriesWeight(w, ms, b)
    decreases |b|
  {
    assert forall i :: 0 <= i < |a| ==> (a + b)[i] == a[i];
    assert forall i :: 0 <= i < |b| ==> (a + b)[|a| + i] == b[i];
    if b == [] {
      assert a + b == a;
    } else {
      var front := b[..|b| - 1];
      assert (a + b)[..|a + b| - 1] == a + front;
      WeightConcat(w, ms, a, front);
    }
  }

  lemma CoversAll(w: World, es: seq<Entry>, ms: StakeMultipliers)
    requires Denominated(w) && Determined(w, es, ms)
    ensures Covers(ms, es)
  {
    forall i | 0 <= i < |es| && es[i].contract != ZERA ensures es[i].contract in ms.contracts {
      assert es[i].contract in Contracts(es);
    }
  }

  /** The weight of one stake; the lookup of the contract's multiplier always succeeds. */
  method StakeWeight(w: World, ms: StakeMultipliers, e: Entry, ghost es: seq<Entry>) returns (weight: nat)
    requires Denominated(w) && BalancesInRange(w) && InRange(w, es) && Determined(w, es, ms) && e in es
    ensures e.contract == ZERA || e.contract in ms.contracts
    ensures weight == Weight(w, ms, e) <= EntryBalance(w, e) <= StakeSum(w, es)
  {
    ghost var k :| 0 <= k < |es| && es[k] == e;
    PartOfSum(w, es, k, e.contract);
    CoversAll(w, es, ms);
    weight := GetWalletBalance(w, e.wallet, e.contract);
    if e.contract != ZERA {
      MultipliersAreSmall(w, es, e.contract, StakeIn(w, es, ZERA), TotalStake(w, es));
      weight := ScaleIn(ms.contracts[e.contract], weight);
      weight := ScaleIn(ms.default_, weight);
    }
  }

  /** Scaling within 256 bits. */
  method ScaleIn(m: Multiplier, x: nat) returns (y: nat)
    requires x * 100000 < TWO_256 && (m.Scaled? ==> m.n <= 100000)
    ensures y == Scale(m, x) <= x
  {
    match m
    case NotApplicable => y := x;
    case Unset => y := x * 0 / 100000;
    case Scaled(n) =>
      MulMono(n, 100000, x);
      y := U256(x * n) / 100000;
      DivBelow(x * n, 100000, x + 1);
  }

  /** One validator's total, contract by contract. */
  method ValidatorWeight(w: World, ms: StakeMultipliers, v: Validator, ghost es: seq<Entry>)
      returns (totalWalletBalance: nat)
    requires Denominated(w) && BalancesInRange(w) && InRange(w, es) && Determined(w, es, ms)
    requires forall e :: e in EntriesOf(v) ==> e in es
    requires StakeSum(w, EntriesOf(v)) < TWO_256
    ensures Covers(ms, EntriesOf(v)) && totalWalletBalance == EntriesWeight(w, ms, EntriesOf(v))
    ensures totalWalletBalance <= StakeSum(w, EntriesOf(v))
  {
    hide StakeIn, StakeSum, InRange, Determined, Contracts, EntriesWeight, Weight;
    ghost var mine := EntriesOf(v);
    totalWalletBalance := 0;
    EntriesWeightStep(w, ms, mine, 0);
    if |v.staked| == 0 {
      totalWalletBalance := StakeWeight(w, ms, Entry(v.wallet, ZERA), es);
      EntriesWeightStep(w, ms, mine, 1);
      assert mine[..1] == mine;
      return;
    }
    for j := 0 to |v.staked|
      invariant Covers(ms, mine[..j]) && totalWalletBalance == EntriesWeight(w, ms, mine[..j])
      invariant totalWalletBalance <= StakeSum(w, mine[..j])
    {
      assert mine[j] == Entry(v.wallet, v.staked[j]) && mine[j] in es;
      var walletBalance := StakeWeight(w, ms, Entry(v.wallet, v.staked[j]), es);
      EntriesWeightStep(w, ms, mine, j + 1);
      PartOfSum(w, mine, j + 1, ZERA);
      totalWalletBalance := U256(totalWalletBalance + walletBalance);
    }
    assert mine[..|v.staked|] == mine;
  }

  lemma EntriesWeightStep(w: World, ms: StakeMultipliers, es: seq<Entry>, k: nat)
    requires Denominated(w) && k <= |es|
    requires k > 0 ==> Covers(ms, es[..k - 1]) && (es[k - 1].contract == ZERA || es[k - 1].contract in ms.contracts)
    ensures Covers(ms, es[..k])
    ensures EntriesWeight(w, ms, es[..k]) == if k == 0 then 0 else EntriesWeight(w, ms, es[..k - 1]) + Weight(w, ms, es[k - 1])
    ensures StakeSum(w, es[..k]) == if k == 0 then 0 else StakeSum(w, es[..k - 1]) + EntryBalance(w, es[k - 1])
  {
    if k > 0 {
      assert es[..k][..k - 1] == es[..k - 1];
      assert forall i :: 0 <= i < k - 1 ==> es[..k][i] == es[..k - 1][i];
    }
  }

  function At(archive: map<Key, nat>): Key -> int {
    k => if k in archive then archive[k] else 0
  }

  /** archive_balances: the multipliers, every online validator's weight, and their sum. The
      stakes in other contracts are capped one by one and together never outweigh ZERA. */
  method ArchiveBalances(w: World, keys: seq<Key>, vs: seq<Validator>, h: nat)
      returns (ms: StakeMultipliers, archive: map<Key, nat>, total: nat)
    requires |keys| == |vs| && forall i, j :: 0 <= i < j < |keys| ==> keys[i] != keys[j]
    requires Denominated(w) && BalancesInRange(w) && InRange(w, Entries(w, vs, h))
    ensures Determined(w, Entries(w, vs, h), ms) && Covers(ms, Entries(w, vs, h))
    ensures forall c :: c in ms.contracts ==>
      CappedWeightIn(w, ms, Entries(w, vs, h), c) <= Lookup(w.maxStake, c) && KeepsCap(w, ms, Entries(w, vs, h), c)
    ensures KeepsShare(w, ms, Entries(w, vs, h))
    ensures WeightOf(w, ms, Entries(w, vs, h), false) <= WeightOf(w, ms, Entries(w, vs, h), true)
         == StakeIn(w, Entries(w, vs, h), ZERA)
    ensures total == WeightOf(w, ms, Entries(w, vs, h), true) + WeightOf(w, ms, Entries(w, vs, h), false)
    ensures total == SumSet(archive.Keys, At(archive))
    ensures Archived(w, ms, keys, vs, h, archive, |vs|)
  {
    hide StakeIn, StakeSum, Contracts, WeightOf, CappedWeightIn, KeepsCap, KeepsShare;
    ghost var es := Entries(w, vs, h);
    ms := CalculateScaledStake(w, vs, h);
    CoversAll(w, es, ms);
    forall c | c in ms.contracts
      ensures CappedWeightIn(w, ms, es, c) <= Lookup(w.maxStake, c) && KeepsCap(w, ms, es, c)
    {
      ContractIsCapped(w, ms, es, c);
      ContractKeepsCap(w, ms, es, c);
    }
    OthersKeepShare(w, ms, es);
    OthersNeverOutweighZera(w, ms, es);
    WeightSplits(w, ms, es);
    archive, total := SumValidators(w, ms, keys, vs, h);
  }

  /** The records of the first i validators that are online. */
  function OnlineKeys(w: World, keys: seq<Key>, vs: seq<Validator>, h: nat, i: nat): set<Key>
    requires i <= |keys| == |vs|
  {
    set k | 0 <= k < i && CheckOnlineVersion(w, vs[k], h) :: keys[k]
  }

  /** The archive holds exactly the first i validators that are online, with their weights. */
  ghost predicate Archived(w: World, ms: StakeMultipliers, keys: seq<Key>, vs: seq<Validator>, h: nat,
                           archive: map<Key, nat>, i: nat)
    requires Denominated(w) && i <= |keys| == |vs|
  {
    && archive.Keys == OnlineKeys(w, keys, vs, h, i)
    && forall k :: 0 <= k < i && CheckOnlineVersion(w, vs[k], h) ==>
      && Covers(ms, EntriesOf(vs[k])) && keys[k] in archive
      && archive[keys[k]] == EntriesWeight(w, ms, EntriesOf(vs[k]))
  }

  lemma OnlineKeysStep(w: World, keys: seq<Key>, vs: seq<Validator>, h: nat, i: nat)
    requires i < |keys| == |vs| && forall i, j :: 0 <= i < j < |keys| ==> keys[i] != keys[j]
    ensures OnlineKeys(w, keys, vs, h, i + 1)
         == OnlineKeys(w, keys, vs, h, i) + if CheckOnlineVersion(w, vs[i], h) then {keys[i]} else {}
    ensures keys[i] !in OnlineKeys(w, keys, vs, h, i)
  {}

  lemma ArchiveAdd(archive: map<Key, nat>, k: Key, x: nat)
    requires k !in archive
    ensures SumSet(archive[k := x].Keys, At(archive[k := x])) == SumSet(archive.Keys, At(archive)) + x
  {
    var more := archive[k := x];
    SumSetSame(archive.Keys, At(archive), At(more));
    SumSetAdd(archive.Keys, At(more), k);
    assert more.Keys == archive.Keys + {k};
  }

  lemma {:induction false} StakeSumConcat(w: World, a: seq<Entry>, b: seq<Entry>)
    requires Denominated(w)
    ensures StakeSum(w, a + b) == StakeSum(w, a) + StakeSum(w, b)
    decreases |b|
  {
    if b == [] {
      assert a + b == a;
    } else {
      assert (a + b)[..|a + b| - 1] == a + b[..|b| - 1];
      StakeSumConcat(w, a, b[..|b| - 1]);
    }
  }

  /** What one online validator adds to the entries, their weight and their stake. */
  lemma VisitValidator(w: World, ms: StakeMultipliers, vs: seq<Validator>, h: nat, i: nat)
    requires Denominated(w) && i < |vs| && CheckOnlineVersion(w, vs[i], h) && Covers(ms, Entries(w, vs, h))
    ensures var es, mine, more := Entries(w, vs[..i], h), EntriesOf(vs[i]), Entries(w, vs[..i + 1], h);
            && Covers(ms, es) && Covers(ms, mine) && Covers(ms, more)
            && EntriesWeight(w, ms, more) == EntriesWeight(w, ms, es) + EntriesWeight(w, ms, mine)
            && StakeSum(w, more) == StakeSum(w, es) + StakeSum(w, mine) <= StakeSum(w, Entries(w, vs, h))
            && forall e :: e in mine ==> e in Entries(w, vs, h)
  {
    var es, mine, all := Entries(w, vs[..i], h), EntriesOf(vs[i]), Entries(w, vs, h);
    assert vs[..i + 1][..i] == vs[..i];
    var more := Entries(w, vs[..i + 1], h);
    assert more == es + mine;
    VisitedInRange(w, vs, h, i, mine);
    assert forall k :: 0 <= k < |more| ==> more[k] == all[k];
    assert Covers(ms, more);
    hide Entries, EntriesOf;
    WeightConcat(w, ms, es, mine);
    StakeSumConcat(w, es, mine);
    forall e | e in mine ensures e in all {
      assert e in more;
    }
  }

  /** The loop of archive_balances. */
  method SumValidators(w: World, ms: StakeMultipliers, keys: seq<Key>, vs: seq<Validator>, h: nat)
      returns (archive: map<Key, nat>, total: nat)
    requires |keys| == |vs| && forall i, j :: 0 <= i < j < |keys| ==> keys[i] != keys[j]
    requires Denominated(w) && BalancesInRange(w) && InRange(w, Entries(w, vs, h))
    requires Determined(w, Entries(w, vs, h), ms) && Covers(ms, Entries(w, vs, h))
    ensures total == EntriesWeight(w, ms, Entries(w, vs, h)) == SumSet(archive.Keys, At(archive))
    ensures Archived(w, ms, keys, vs, h, archive, |vs|)
  {
    hide StakeSum, Contracts, Determined, SumSet, CheckOnlineVersion, Entries, OnlineKeys, EntriesWeight, EntriesOf;
    archive, total := map[], 0;
    StartOfArchive(w, ms, keys, vs, h, archive);
    for i := 0 to |vs|
      invariant Covers(ms, Entries(w, vs[..i], h)) && total == EntriesWeight(w, ms, Entries(w, vs[..i], h))
      invariant total <= StakeSum(w, Entries(w, vs[..i], h)) && total == SumSet(archive.Keys, At(archive))
      invariant Archived(w, ms, keys, vs, h, archive, i)
    {
      OnlineKeysStep(w, keys, vs, h, i);
      if CheckOnlineVersion(w, vs[i], h) {
        VisitValidator(w, ms, vs, h, i);
        var weight := ValidatorWeight(w, ms, vs[i], Entries(w, vs, h));
        ArchiveAdd(archive, keys[i], weight);
        archive := archive[keys[i] := weight];
        total := U256(total + weight);
      } else {
        SkipValidator(w, vs, h, i);
      }
    }
    assert vs[..|vs|] == vs;
  }

  lemma SkipValidator(w: World, vs: seq<Validator>, h: nat, i: nat)
    requires i < |vs| && !CheckOnlineVersion(w, vs[i], h)
    ensures Entries(w, vs[..i + 1], h) == Entries(w, vs[..i], h)
  {
    assert vs[..i + 1][..i] == vs[..i];
  }

  lemma StartOfArchive(w: World, ms: StakeMultipliers, keys: seq<Key>, vs: seq<Validator>, h: nat,
                       archive: map<Key, nat>)
    requires Denominated(w) && |keys| == |vs| && archive == map[]
    ensures Entries(w, vs[..0], h) == [] && Covers(ms, []) && EntriesWeight(w, ms, []) == 0 && StakeSum(w, []) == 0
    ensures OnlineKeys(w, keys, vs, h, 0) == {} && SumSet(archive.Keys, At(archive)) == 0
  {}
}
