/** Weighted proposer selection: the draw loop over an arbitrary sequence of draws. */
module Selection {

  datatype WeightedValidator = WeightedValidator(address: string, coinAmount: nat)

  const TWO_64: nat := 0x1_0000_0000_0000_0000

  /** The running sum up to and including the i-th candidate, in 64 bits. */
  function RunningSum(vs: seq<WeightedValidator>, i: nat): nat
    requires i <= |vs|
  {
    if i == 0 then 0 else (RunningSum(vs, i - 1) + vs[i - 1].coinAmount) % TWO_64
  }

  /** The draw reaches the i-th candidate, and it was not selected before. */
  predicate Eligible(vs: seq<WeightedValidator>, selected: set<string>, target: nat, i: nat)
    requires i < |vs|
  {
    RunningSum(vs, i + 1) >= target && vs[i].address !in selected
  }

  /** The candidate a draw selects: the first eligible one. */
  ghost predicate Hits(vs: seq<WeightedValidator>, selected: set<string>, target: nat, k: nat) {
    k < |vs| && Eligible(vs, selected, target, k) && forall i :: 0 <= i < k ==> !Eligible(vs, selected, target, i)
  }

  /** What the first n draws select, in order; a draw that hits nobody is spent. */
  ghost function Run(vs: seq<WeightedValidator>, draws: seq<nat>, n: nat): seq<string>
    requires n <= |draws|
  {
    if n == 0 then []
    else
      var s := Run(vs, draws, n - 1);
      var selected, target := (set a | a in s), draws[n - 1];
      if exists k: nat :: Hits(vs, selected, target, k)
      then
        var k: nat :| Hits(vs, selected, target, k);
        s + [vs[k].address]
      else s
  }

  lemma RunStep(vs: seq<WeightedValidator>, draws: seq<nat>, n: nat, s: seq<string>, selected: set<string>, found: bool, k: nat)
    requires n < |draws| && s == Run(vs, draws, n) && selected == set a | a in s
    requires if found then Hits(vs, selected, draws[n], k) else forall i :: 0 <= i < |vs| ==> !Eligible(vs, selected, draws[n], i)
    ensures Run(vs, draws, n + 1) == if found then s + [vs[k].address] else s
  {
    hide Eligible;
    assert found ==> forall j: nat :: Hits(vs, selected, draws[n], j) ==> j == k;
  }

  ghost predicate DistinctAddresses(vs: seq<WeightedValidator>) {
    forall i, j :: 0 <= i < j < |vs| ==> vs[i].address != vs[j].address
  }

  function Addresses(vs: seq<WeightedValidator>): set<string> { set v | v in vs :: v.address }

  ghost predicate Distinct(s: seq<string>) {
    forall i, j :: 0 <= i < j < |s| ==> s[i] != s[j]
  }

  /** The inner loop: the first eligible candidate, if there is one. */
  method Draw(vs: seq<WeightedValidator>, selected: set<string>, target: nat) returns (found: bool, k: nat)
    ensures found ==> Hits(vs, selected, target, k)
    ensures !found ==> forall i :: 0 <= i < |vs| ==> !Eligible(vs, selected, target, i)
    ensures NoWrap(vs) && target >= 1 ==> if found then Picks(vs, selected, target, k) else PicksNobody(vs, selected, target)
  {
    if NoWrap(vs) && target >= 1 { HitsArePicks(vs, selected, target); }
    hide NoWrap, Picks, PicksNobody;
    var runningSum := 0;
    k := 0;
    while k < |vs|
      invariant k <= |vs| && runningSum == RunningSum(vs, k)
      invariant forall i :: 0 <= i < k ==> !Eligible(vs, selected, target, i)
    {
      runningSum := (runningSum + vs[k].coinAmount) % TWO_64;
      if runningSum >= target {
        if vs[k].address !in selected {
          return true, k;
        }
      }
      k := k + 1;
    }
    found := false;
  }

  /** The draw falls into the interval of the j-th candidate, whose length is its weight. */
  predicate Inside(vs: seq<WeightedValidator>, target: nat, j: nat)
    requires j < |vs|
  {
    WeightSum(vs, j) < target <= WeightSum(vs, j + 1)
  }

  /** The k-th candidate is the first that is not selected, from the one on whose interval holds the draw. */
  ghost predicate Picks(vs: seq<WeightedValidator>, selected: set<string>, target: nat, k: nat) {
    k < |vs| && vs[k].address !in selected
    && exists j :: 0 <= j <= k && Inside(vs, target, j) && forall i :: j <= i < k ==> vs[i].address in selected
  }

  predicate Reaches(vs: seq<WeightedValidator>, selected: set<string>, target: nat, i: nat)
    requires i < |vs|
  {
    WeightSum(vs, i + 1) >= target && vs[i].address !in selected
  }

  ghost predicate PicksNobody(vs: seq<WeightedValidator>, selected: set<string>, target: nat) {
    forall k: nat :: !Picks(vs, selected, target, k)
  }

  /** One draw: the selection grows by whom it picks. */
  ghost predicate Grows(vs: seq<WeightedValidator>, before: seq<string>, target: nat, after: seq<string>) {
    var selected := set a | a in before;
    && (forall k: nat :: Picks(vs, selected, target, k) ==> after == before + [vs[k].address])
    && (PicksNobody(vs, selected, target) ==> after == before)
  }

  lemma {:induction false} SumsGrow(vs: seq<WeightedValidator>, i: nat, n: nat)
    requires i <= n <= |vs|
    ensures WeightSum(vs, i) <= WeightSum(vs, n)
    decreases n
  {
    if i < n { SumsGrow(vs, i, n - 1); }
  }

  /** Every draw up to the sum of the weights falls into one interval. */
  lemma {:induction false} IntervalOf(vs: seq<WeightedValidator>, target: nat, n: nat) returns (j: nat)
    requires n <= |vs| && 1 <= target <= WeightSum(vs, n)
    ensures j < n && Inside(vs, target, j)
    ensures forall i :: 0 <= i < |vs| && Inside(vs, target, i) ==> i == j
  {
    if WeightSum(vs, n - 1) < target {
      j := n - 1;
      forall i | 0 <= i < |vs| && Inside(vs, target, i) ensures i == j {
        if i < j { SumsGrow(vs, i + 1, j); } else if j < i { SumsGrow(vs, j + 1, i); }
      }
    } else {
      j := IntervalOf(vs, target, n - 1);
    }
  }

  /** The loop's first eligible candidate is the one that the draw picks by its interval. */
  lemma HitsArePicks(vs: seq<WeightedValidator>, selected: set<string>, target: nat)
    requires NoWrap(vs) && target >= 1
    ensures forall k: nat :: Hits(vs, selected, target, k) ==> Picks(vs, selected, target, k)
    ensures (forall i :: 0 <= i < |vs| ==> !Eligible(vs, selected, target, i)) ==> PicksNobody(vs, selected, target)
  {
    hide WeightSum, RunningSum;
    forall i | 0 <= i < |vs| ensures Eligible(vs, selected, target, i) <==> Reaches(vs, selected, target, i) {
      SumsAgree(vs, i + 1, |vs|);
    }
    forall k: nat | Hits(vs, selected, target, k) ensures Picks(vs, selected, target, k) {
      var j := IntervalOf(vs, target, k + 1);
      forall i | j <= i < k ensures vs[i].address in selected {
        SumsGrow(vs, j + 1, i + 1);
        assert !Eligible(vs, selected, target, i);
      }
    }
    forall k: nat | Picks(vs, selected, target, k) ensures Eligible(vs, selected, target, k) {
      var j :| 0 <= j <= k && Inside(vs, target, j);
      SumsGrow(vs, j + 1, k + 1);
    }
  }

  /** The numbers above a up to b. */
  function Numbers(a: nat, b: nat): (s: set<nat>)
    ensures forall x :: x in s <==> a < x <= b
    decreases b
  {
    if b <= a then {} else Numbers(a, b - 1) + {b}
  }

  lemma {:induction false} HowMany(a: nat, b: nat)
    requires a <= b
    ensures |Numbers(a, b)| == b - a
    decreases b
  {
    if a < b { HowMany(a, b - 1); }
  }

  /** Of the draws from 1 to the sum of the weights, as many fall into a candidate's interval as it
      has weight. */
  lemma WeightDraws(vs: seq<WeightedValidator>, k: nat)
    requires k < |vs|
    ensures |set target | target in Numbers(0, WeightSum(vs, |vs|)) && Inside(vs, target, k)| == vs[k].coinAmount
  {
    SumsGrow(vs, k + 1, |vs|);
    HowMany(WeightSum(vs, k), WeightSum(vs, k + 1));
    assert (set target | target in Numbers(0, WeightSum(vs, |vs|)) && Inside(vs, target, k))
        == Numbers(WeightSum(vs, k), WeightSum(vs, k + 1));
  }

  lemma DrawGrows(vs: seq<WeightedValidator>, selection: seq<string>, selected: set<string>, target: nat, found: bool, k: nat)
    requires NoWrap(vs) && target >= 1 && selected == set a | a in selection
    requires if found then Picks(vs, selected, target, k) else PicksNobody(vs, selected, target)
    ensures Grows(vs, selection, target, if found then selection + [vs[k].address] else selection)
  {
    if found {
      forall i: nat | Picks(vs, selected, target, i) ensures i == k { PicksOne(vs, selected, target, i, k); }
    }
  }

  lemma PicksOne(vs: seq<WeightedValidator>, selected: set<string>, target: nat, i: nat, k: nat)
    requires Picks(vs, selected, target, i) && Picks(vs, selected, target, k) && target >= 1
    ensures i == k
  {
    hide WeightSum;
    var a :| 0 <= a <= i && Inside(vs, target, a) && forall l :: a <= l < i ==> vs[l].address in selected;
    var b :| 0 <= b <= k && Inside(vs, target, b) && forall l :: b <= l < k ==> vs[l].address in selected;
    SumsGrow(vs, a + 1, |vs|);
    var j := IntervalOf(vs, target, |vs|);
  }

  /** The first draw: its interval decides who comes first. */
  lemma FirstPick(vs: seq<WeightedValidator>, target: nat, before: seq<string>, after: seq<string>, selection: seq<string>)
    requires DistinctAddresses(vs) && before == [] && Grows(vs, before, target, after) && after <= selection
    requires 1 <= target <= WeightSum(vs, |vs|)
    ensures |selection| > 0
    ensures forall k :: 0 <= k < |vs| ==> (selection[0] == vs[k].address <==> Inside(vs, target, k))
  {
    hide WeightSum, Inside;
    var j := IntervalOf(vs, target, |vs|);
    var nobody := set a | a in before;
    FirstInside(vs, nobody, target, j);
    assert after == before + [vs[j].address];
    assert selection[0] == vs[j].address;
  }

  lemma FirstInside(vs: seq<WeightedValidator>, selected: set<string>, target: nat, j: nat)
    requires j < |vs| && Inside(vs, target, j) && selected == {}
    ensures Picks(vs, selected, target, j)
  {
    hide Inside;
  }

  /** What a run has selected so far. */
  ghost predicate Selected(vs: seq<WeightedValidator>, selection: seq<string>, addresses: set<string>) {
    && addresses == (set a | a in selection) && |addresses| == |selection| && Distinct(selection)
    && addresses <= Addresses(vs)
  }

  /** How many of the first n draws are between 1 and the bound. */
  function LowDraws(draws: seq<nat>, bound: nat, n: nat): nat
    requires n <= |draws|
  {
    if n == 0 then 0 else LowDraws(draws, bound, n - 1) + if draws[n - 1] <= bound then 1 else 0
  }

  /** Every draw so far did what its interval says. */
  ghost predicate Traced(vs: seq<WeightedValidator>, draws: seq<nat>, used: nat, selection: seq<string>, trace: seq<seq<string>>) {
    && used <= |draws| && |trace| == used + 1 && trace[0] == [] && trace[used] == selection
    && (used > 0 ==> trace[1] <= selection)
    && (NoWrap(vs) ==> forall n :: 0 <= n < used ==> Grows(vs, trace[n], draws[n], trace[n + 1]))
  }

  /** And what follows from the first candidate's weight. */
  ghost predicate Advances(vs: seq<WeightedValidator>, draws: seq<nat>, used: nat, selection: seq<string>)
    requires used <= |draws|
  {
    DistinctAddresses(vs) && |vs| > 0 ==>
      && (NoWrap(vs) ==> |selection| >= LowDraws(draws, vs[0].coinAmount, used))
      && (vs[0].coinAmount == 0 ==> vs[0].address !in selection)
  }

  lemma NothingDrawn(vs: seq<WeightedValidator>, draws: seq<nat>)
    ensures Run(vs, draws, 0) == [] && Traced(vs, draws, 0, [], [[]]) && Advances(vs, draws, 0, []) && Selected(vs, [], {})
  {}

  lemma TraceMore(vs: seq<WeightedValidator>, draws: seq<nat>, used: nat, selection: seq<string>, selected: set<string>,
                  trace: seq<seq<string>>, found: bool, k: nat)
    requires Traced(vs, draws, used, selection, trace) && used < |draws| && draws[used] >= 1 && selected == set a | a in selection
    requires NoWrap(vs) ==> if found then Picks(vs, selected, draws[used], k) else PicksNobody(vs, selected, draws[used])
    requires found ==> k < |vs|
    ensures var more := if found then selection + [vs[k].address] else selection;
            Traced(vs, draws, used + 1, more, trace + [more])
  {
    hide Grows, Picks, PicksNobody, NoWrap;
    if NoWrap(vs) { DrawGrows(vs, selection, selected, draws[used], found, k); }
  }

  lemma AdvanceMore(vs: seq<WeightedValidator>, draws: seq<nat>, used: nat, selection: seq<string>, selected: set<string>,
                    found: bool, k: nat)
    requires used < |draws| && draws[used] >= 1 && Advances(vs, draws, used, selection) && Selected(vs, selection, selected)
    requires |selection| < |vs|
    requires if found then Hits(vs, selected, draws[used], k) else forall i :: 0 <= i < |vs| ==> !Eligible(vs, selected, draws[used], i)
    ensures Advances(vs, draws, used + 1, if found then selection + [vs[k].address] else selection)
  {
    hide RunningSum, Addresses, DistinctAddresses, NoWrap, Eligible;
    if DistinctAddresses(vs) {
      if found {
        FirstNeedsWeight(vs, selected, draws[used], k);
      } else if NoWrap(vs) && draws[used] <= vs[0].coinAmount {
        LowDrawSelects(vs, selected, draws[used]);
        assert false;
      }
    }
  }

  lemma SelectedMore(vs: seq<WeightedValidator>, selection: seq<string>, selected: set<string>, target: nat, k: nat)
    requires Selected(vs, selection, selected) && Hits(vs, selected, target, k)
    ensures Selected(vs, selection + [vs[k].address], selected + {vs[k].address})
  {
    hide Addresses;
    Listed(vs, k);
  }

  /** The outer loop of SelectValidatorsByWeight, until all are selected or the draws run out: each
      draw picks by its interval, so the first one gives every candidate as many chances as it has
      weight. Every draw up to the first candidate's weight selects a new candidate. */
  method SelectValidators(vs: seq<WeightedValidator>, draws: seq<nat>)
      returns (selection: seq<string>, used: nat, ghost trace: seq<seq<string>>)
    requires forall i :: 0 <= i < |draws| ==> draws[i] >= 1
    ensures used <= |draws| && (|selection| < |vs| ==> used == |draws|) && |selection| <= |vs|
    ensures |trace| == used + 1 && trace[0] == [] && trace[used] == selection
    ensures NoWrap(vs) ==> forall n :: 0 <= n < used ==> Grows(vs, trace[n], draws[n], trace[n + 1])
    ensures NoWrap(vs) && DistinctAddresses(vs) && |draws| > 0 && draws[0] <= WeightSum(vs, |vs|) ==>
      |selection| > 0 && forall k :: 0 <= k < |vs| ==> (selection[0] == vs[k].address <==> Inside(vs, draws[0], k))
    ensures selection == Run(vs, draws, used)
    ensures Distinct(selection) && forall a :: a in selection ==> a in Addresses(vs)
    ensures |selection| == |vs| ==> DistinctAddresses(vs) && forall a :: a in Addresses(vs) ==> a in selection
    ensures DistinctAddresses(vs) && NoWrap(vs) && |vs| > 0 ==>
      && |selection| >= LowDraws(draws, vs[0].coinAmount, used)
      && (vs[0].coinAmount == 0 ==> |selection| < |vs|)
      && (LowDraws(draws, vs[0].coinAmount, |draws|) >= |vs| ==> |selection| == |vs|)
  {
    hide Run, Grows, Picks, PicksNobody, Inside, WeightSum, Hits, Eligible, DistinctAddresses, NoWrap, Selected, Advances, Traced;
    NothingDrawn(vs, draws);
    selection, used, trace := [], 0, [[]];
    var selectedAddresses: set<string> := {};
    while |selection| < |vs| && used < |draws|
      invariant used <= |draws| && |selection| <= |vs| && selection == Run(vs, draws, used)
      invariant Selected(vs, selection, selectedAddresses) && Traced(vs, draws, used, selection, trace)
      invariant Advances(vs, draws, used, selection)
      decreases |draws| - used
    {
      var targetWeight := draws[used];
      var found, k := Draw(vs, selectedAddresses, targetWeight);
      assert selectedAddresses == set a | a in selection by { AddressesOf(vs, selection, selectedAddresses); }
      if found { HitsWithin(vs, selectedAddresses, targetWeight, k); }
      RunStep(vs, draws, used, selection, selectedAddresses, found, k);
      TraceMore(vs, draws, used, selection, selectedAddresses, trace, found, k);
      AdvanceMore(vs, draws, used, selection, selectedAddresses, found, k);
      if found {
        SelectedMore(vs, selection, selectedAddresses, targetWeight, k);
        selection := selection + [vs[k].address];
        selectedAddresses := selectedAddresses + {vs[k].address};
      }
      trace := trace + [selection];
      used := used + 1;
    }
    Finish(vs, draws, used, selection, selectedAddresses, trace);
  }

  lemma AddressesOf(vs: seq<WeightedValidator>, selection: seq<string>, addresses: set<string>)
    requires Selected(vs, selection, addresses)
    ensures addresses == set a | a in selection
  {}

  lemma HitsWithin(vs: seq<WeightedValidator>, selected: set<string>, target: nat, k: nat)
    requires Hits(vs, selected, target, k)
    ensures k < |vs|
  {}

  lemma Finish(vs: seq<WeightedValidator>, draws: seq<nat>, used: nat, selection: seq<string>, addresses: set<string>,
               trace: seq<seq<string>>)
    requires forall i :: 0 <= i < |draws| ==> draws[i] >= 1
    requires Selected(vs, selection, addresses) && Traced(vs, draws, used, selection, trace) && Advances(vs, draws, used, selection)
    requires |selection| <= |vs| && (|selection| < |vs| ==> used == |draws|)
    ensures |trace| == used + 1 && trace[0] == [] && trace[used] == selection
    ensures NoWrap(vs) ==> forall n :: 0 <= n < used ==> Grows(vs, trace[n], draws[n], trace[n + 1])
    ensures NoWrap(vs) && DistinctAddresses(vs) && |draws| > 0 && draws[0] <= WeightSum(vs, |vs|) ==>
      |selection| > 0 && forall k :: 0 <= k < |vs| ==> (selection[0] == vs[k].address <==> Inside(vs, draws[0], k))
    ensures Distinct(selection) && forall a :: a in selection ==> a in Addresses(vs)
    ensures |selection| == |vs| ==> DistinctAddresses(vs) && forall a :: a in Addresses(vs) ==> a in selection
    ensures DistinctAddresses(vs) && NoWrap(vs) && |vs| > 0 ==>
      && |selection| >= LowDraws(draws, vs[0].coinAmount, used)
      && (vs[0].coinAmount == 0 ==> |selection| < |vs|)
      && (LowDraws(draws, vs[0].coinAmount, |draws|) >= |vs| ==> |selection| == |vs|)
  {
    hide Grows, Inside, WeightSum, DistinctAddresses, NoWrap, Addresses, LowDraws;
    if |selection| == |vs| {
      AllSelected(vs, selection, addresses);
      if |vs| > 0 { Listed(vs, 0); }
    }
    if NoWrap(vs) && DistinctAddresses(vs) && |draws| > 0 && draws[0] <= WeightSum(vs, |vs|) {
      SomeWeight(vs);
      FirstPick(vs, draws[0], trace[0], trace[1], selection);
    }
  }

  lemma SomeWeight(vs: seq<WeightedValidator>)
    ensures vs == [] ==> WeightSum(vs, |vs|) == 0
  {}

  lemma Listed(vs: seq<WeightedValidator>, k: nat)
    requires k < |vs|
    ensures vs[k].address in Addresses(vs)
  {
    assert vs[k] in vs;
  }

  /** A candidate that comes first without weight is never eligible. */
  lemma FirstNeedsWeight(vs: seq<WeightedValidator>, selected: set<string>, target: nat, k: nat)
    requires k < |vs| && Eligible(vs, selected, target, k) && target >= 1
    ensures vs[0].coinAmount == 0 && DistinctAddresses(vs) ==> vs[k].address != vs[0].address
  {
    assert RunningSum(vs, 0 + 1) == vs[0].coinAmount % TWO_64;
  }

  /** All weights together fit into 64 bits. */
  ghost predicate NoWrap(vs: seq<WeightedValidator>) { WeightSum(vs, |vs|) < TWO_64 }

  function WeightSum(vs: seq<WeightedValidator>, n: nat): nat
    requires n <= |vs|
  {
    if n == 0 then 0 else WeightSum(vs, n - 1) + vs[n - 1].coinAmount
  }

  lemma {:induction false} SumsAgree(vs: seq<WeightedValidator>, i: nat, n: nat)
    requires i <= n <= |vs| && WeightSum(vs, n) < TWO_64
    ensures RunningSum(vs, i) == WeightSum(vs, i) <= WeightSum(vs, n)
    decreases n
  {
    if i < n {
      SumsAgree(vs, i, n - 1);
    } else if i > 0 {
      SumsAgree(vs, i - 1, n - 1);
    }
  }

  /** A draw up to the first weight reaches every candidate, so an unselected one is eligible. */
  lemma LowDrawSelects(vs: seq<WeightedValidator>, selected: set<string>, target: nat)
    requires DistinctAddresses(vs) && NoWrap(vs) && |selected| < |vs| && target <= vs[0].coinAmount
    ensures exists i :: 0 <= i < |vs| && Eligible(vs, selected, target, i)
  {
    var i := Unselected(vs, selected, |vs|);
    SumsAgree(vs, i + 1, |vs|);
    SumsAgree(vs, 1, i + 1);
    assert WeightSum(vs, 1) == vs[0].coinAmount;
    assert Eligible(vs, selected, target, i);
  }

  lemma {:induction false} Unselected(vs: seq<WeightedValidator>, selected: set<string>, n: nat) returns (i: nat)
    requires DistinctAddresses(vs) && n <= |vs| && |selected| < n
    ensures i < n && vs[i].address !in selected
  {
    if vs[n - 1].address !in selected {
      i := n - 1;
    } else {
      i := Unselected(vs, selected - {vs[n - 1].address}, n - 1);
    }
  }

  lemma AllSelected(vs: seq<WeightedValidator>, selection: seq<string>, addresses: set<string>)
    requires Selected(vs, selection, addresses) && |selection| == |vs|
    ensures DistinctAddresses(vs) && addresses == Addresses(vs)
  {
    AddressCount(vs);
    SubsetFull(addresses, Addresses(vs));
  }

  /** There are as many addresses as candidates exactly if no two candidates share one. */
  lemma {:induction false} AddressCount(vs: seq<WeightedValidator>)
    ensures |Addresses(vs)| <= |vs| && (|Addresses(vs)| == |vs| <==> DistinctAddresses(vs))
  {
    if vs != [] {
      var front, v := vs[..|vs| - 1], vs[|vs| - 1];
      AddressCount(front);
      assert Addresses(vs) == Addresses(front) + {v.address} by {
        assert forall x :: x in vs <==> x in front || x == v;
      }
      AddressAgain(front, v.address);
      assert DistinctAddresses(vs) <==> DistinctAddresses(front) && v.address !in Addresses(front);
    }
  }

  lemma AddressAgain(vs: seq<WeightedValidator>, a: string)
    ensures a in Addresses(vs) <==> exists i :: 0 <= i < |vs| && vs[i].address == a
  {
    if a in Addresses(vs) {
      var v :| v in vs && v.address == a;
    }
    if i :| 0 <= i < |vs| && vs[i].address == a {
      assert vs[i] in vs;
    }
  }

  lemma {:induction false} SubsetFull(s: set<string>, t: set<string>)
    requires s <= t && |s| >= |t|
    ensures s == t
  {
    if s != {} {
      var x :| x in s;
      SubsetFull(s - {x}, t - {x});
    }
  }
}
