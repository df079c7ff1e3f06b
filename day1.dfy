/**
 * Fuel for the spacecraft's modules: a module of mass m needs m div 3 - 2
 * units, and in the second reading that fuel needs fuel of its own, and so
 * on until the extra amount is small. All quantities are unsigned 32-bit
 * integers whose underflow and overflow are failures.
 */
module Day1 {
  import opened Wrappers

  newtype u32 = x: int | 0 <= x < 0x1_0000_0000

  predicate InU32Range(x: int) { 0 <= x < 0x1_0000_0000 }

  datatype FuelError =
    | Underflow(mass: u32)    // mass div 3 - 2 below zero
    | SumOverflow             // a running total beyond 32 bits

  /** The fuel for one module: the largest f with 3 * (f + 2) <= mass; a mass under 6 underflows. */
  function ModuleFuel(mass: u32): (r: Result<u32, FuelError>)
    ensures r.Ok? <==> mass >= 6
    ensures r.Ok? ==> 3 * (r.value as int + 2) <= mass as int < 3 * (r.value as int + 3)
    ensures r.Err? ==> r.error == Underflow(mass)
  {
    if mass / 3 < 2 then Err(Underflow(mass)) else Ok(mass / 3 - 2)
  }

  /**
   * The fuel amounts a module needs in turn: the first is given, and while
   * the last is above 6 the next is the fuel for it.
   */
  function FuelChain(first: u32): (chain: seq<u32>)
    ensures |chain| >= 1 && chain[0] == first && chain[|chain| - 1] <= 6
    decreases first
  {
    if first <= 6 then [first]
    else [first] + FuelChain(first / 3 - 2)
  }

  function Sum(s: seq<u32>): nat
  {
    if s == [] then 0 else s[0] as nat + Sum(s[1..])
  }

  /** Above 6 the chain is its head followed by the chain of the head's fuel. */
  lemma ChainUnfold(first: u32)
    requires first > 6
    ensures FuelChain(first) == [first] + FuelChain(first / 3 - 2)
    ensures Sum(FuelChain(first)) == first as int + Sum(FuelChain(first / 3 - 2))
  {
    assert FuelChain(first)[1..] == FuelChain(first / 3 - 2);
  }

  /** Each term of the chain after the first is the fuel for the one before, and every term but the last is above 6. */
  lemma {:induction false} FuelChainSteps(first: u32)
    ensures var chain := FuelChain(first);
      forall i :: 0 <= i < |chain| - 1 ==> chain[i] > 6 && ModuleFuel(chain[i]) == Ok(chain[i + 1])
    decreases first
  {
    if first > 6 {
      var next := first / 3 - 2;
      FuelChainSteps(next);
      ChainUnfold(first);
      var chain, rest := FuelChain(first), FuelChain(next);
      forall i | 0 <= i < |chain| - 1
        ensures chain[i] > 6 && ModuleFuel(chain[i]) == Ok(chain[i + 1])
      {
        if i > 0 {
          assert chain[i] == rest[i - 1] && chain[i + 1] == rest[i];
        }
      }
    }
  }

  /** Every term after the first is under a third of the one before, so the chain sums to at most one and a half times its head. */
  lemma {:induction false} FuelChainBound(first: u32)
    ensures 2 * Sum(FuelChain(first)) <= 3 * first as int
    decreases first
  {
    if first > 6 {
      var next := first / 3 - 2;
      FuelChainBound(next);
      assert FuelChain(first)[1..] == FuelChain(next);
      assert 3 * next as int + 6 <= first as int;
    }
  }

  /** The fuel for one module together with the fuel for its fuel. */
  function ModuleTotalFuel(mass: u32): (r: Result<u32, FuelError>)
    ensures r.Ok? <==> mass >= 6
    ensures r.Ok? ==> r.value as int == Sum(FuelChain(ModuleFuel(mass).value))
    ensures r.Err? ==> r.error == Underflow(mass)
  {
    var fuel :- ModuleFuel(mass);
    FuelChainBound(fuel);
    Ok(Sum(FuelChain(fuel)) as u32)
  }

  /** A module's total fuel stays below half its mass and never below its own fuel. */
  lemma {:induction false} ModuleTotalFuelBounds(mass: u32)
    requires mass >= 6
    ensures ModuleFuel(mass).value <= ModuleTotalFuel(mass).value
    ensures 2 * ModuleTotalFuel(mass).value as int < mass as int
  {
    var fuel := ModuleFuel(mass).value;
    FuelChainBound(fuel);
    assert Sum(FuelChain(fuel)) >= fuel as int by {
      assert FuelChain(fuel)[0] == fuel;
    }
  }

  // ---------------------------------------------------------------------------
  // Sums over all modules
  // ---------------------------------------------------------------------------

  /** The sum of module fuel over the masses above 6, as a mathematical integer. */
  function RequiredSum(masses: seq<u32>): nat
  {
    if masses == [] then 0
    else (if masses[0] > 6 then ModuleFuel(masses[0]).value as nat else 0) + RequiredSum(masses[1..])
  }

  /** The running total over the masses above 6, from `acc`, failing once it leaves 32 bits. */
  function RequiredFrom(masses: seq<u32>, acc: u32): Result<u32, FuelError>
  {
    if masses == [] then Ok(acc)
    else if masses[0] <= 6 then RequiredFrom(masses[1..], acc)
    else
      var total := acc as int + ModuleFuel(masses[0]).value as int;
      if !InU32Range(total) then Err(SumOverflow)
      else RequiredFrom(masses[1..], total as u32)
  }

  /** Part one: the fuel for all modules; masses of 6 and below are skipped. */
  function RequiredFuel(masses: seq<u32>): Result<u32, FuelError>
  {
    RequiredFrom(masses, 0)
  }

  /** With non-negative terms the running total overflows exactly when the full sum does. */
  lemma {:induction false} RequiredFromSum(masses: seq<u32>, acc: u32)
    ensures var total := acc as int + RequiredSum(masses);
      RequiredFrom(masses, acc) == if InU32Range(total) then Ok(total as u32) else Err(SumOverflow)
    decreases |masses|
  {
    if masses != [] {
      RequiredFromSum(masses[1..], acc);
      if masses[0] > 6 {
        var total := acc as int + ModuleFuel(masses[0]).value as int;
        if InU32Range(total) {
          RequiredFromSum(masses[1..], total as u32);
        }
      }
    }
  }

  /** Part one is the sum of the module fuel over the masses above 6, when it fits in 32 bits. */
  lemma RequiredFuelMeaning(masses: seq<u32>)
    ensures RequiredFuel(masses) ==
      if InU32Range(RequiredSum(masses)) then Ok(RequiredSum(masses) as u32) else Err(SumOverflow)
  {
    RequiredFromSum(masses, 0);
  }

  /** A mass of 6 or below adds nothing to part one. */
  lemma {:induction false} SmallMassIgnored(masses: seq<u32>, mass: u32)
    requires mass <= 6
    ensures RequiredFuel([mass] + masses) == RequiredFuel(masses)
  {
    assert ([mass] + masses)[1..] == masses;
  }

  /** The sum of module totals, as a mathematical integer; every mass must be at least 6. */
  function TotalSum(masses: seq<u32>): nat
    requires forall i :: 0 <= i < |masses| ==> masses[i] >= 6
  {
    if masses == [] then 0 else ModuleTotalFuel(masses[0]).value as nat + TotalSum(masses[1..])
  }

  /** The running total of module totals from `acc`: a mass under 6 or a total beyond 32 bits fails. */
  function TotalFrom(masses: seq<u32>, acc: u32): Result<u32, FuelError>
  {
    if masses == [] then Ok(acc)
    else
      var fuel :- ModuleTotalFuel(masses[0]);
      var total := acc as int + fuel as int;
      if !InU32Range(total) then Err(SumOverflow)
      else TotalFrom(masses[1..], total as u32)
  }

  /** Part two: the total fuel for all modules, each counted with the fuel for its fuel. */
  function TotalFuel(masses: seq<u32>): Result<u32, FuelError>
  {
    TotalFrom(masses, 0)
  }

  /** When every mass is at least 6, part two is the sum of the module totals, when it fits in 32 bits. */
  lemma {:induction false} TotalFromSum(masses: seq<u32>, acc: u32)
    requires forall i :: 0 <= i < |masses| ==> masses[i] >= 6
    ensures var total := acc as int + TotalSum(masses);
      TotalFrom(masses, acc) == if InU32Range(total) then Ok(total as u32) else Err(SumOverflow)
    decreases |masses|
  {
    if masses != [] {
      var fuel := ModuleTotalFuel(masses[0]).value;
      TotalFromSum(masses[1..], acc);
      var total := acc as int + fuel as int;
      if InU32Range(total) {
        TotalFromSum(masses[1..], total as u32);
      }
    }
  }

  /** A mass under 6 makes part two fail, by underflow or by an overflow before it. */
  lemma {:induction false} SmallMassFails(masses: seq<u32>, acc: u32, k: nat)
    requires k < |masses| && masses[k] < 6
    ensures TotalFrom(masses, acc).Err?
    decreases k
  {
    if k > 0 {
      var fuel := ModuleTotalFuel(masses[0]);
      if fuel.Ok? && InU32Range(acc as int + fuel.value as int) {
        SmallMassFails(masses[1..], (acc as int + fuel.value as int) as u32, k - 1);
      }
    }
  }

  /** For a single module part two is that module's total. */
  lemma TotalFuelSingle(mass: u32)
    ensures TotalFuel([mass]) == ModuleTotalFuel(mass)
  {
    var masses := [mass];
    assert masses[1..] == [];
    if ModuleTotalFuel(mass).Ok? {
      var fuel := ModuleTotalFuel(mass).value;
      assert TotalFrom(masses, 0) == TotalFrom([], fuel);
    }
  }

  // ---------------------------------------------------------------------------
  // Examples
  // ---------------------------------------------------------------------------

  lemma RequiredFuelExamples()
    ensures RequiredFuel([14]) == Ok(2)
    ensures RequiredFuel([12]) == Ok(2)
    ensures RequiredFuel([1969]) == Ok(654)
    ensures RequiredFuel([100756]) == Ok(33583)
  {
  }

  lemma TotalFuelSmallExamples()
    ensures TotalFuel([14]) == Ok(2)
    ensures TotalFuel([12]) == Ok(2)
  {
  }

  /** The sum of a fuel chain, computed on the numbers alone. */
  function ChainTotal(first: u32): nat
    decreases first
  {
    if first <= 6 then first as nat else first as nat + ChainTotal(first / 3 - 2)
  }

  lemma {:induction false} ChainTotalSum(first: u32)
    ensures Sum(FuelChain(first)) == ChainTotal(first)
    decreases first
  {
    if first > 6 {
      var n := first / 3 - 2;
      ChainTotalSum(n);
      assert ChainTotal(first) == first as nat + ChainTotal(n);
      ChainUnfold(first);
    }
  }

  lemma ChainTotalValues()
    ensures ChainTotal(654) == 966
    ensures ChainTotal(33583) == 50346
  {
    assert ChainTotal(5) == 5;
    assert ChainTotal(21) == 26;
    assert ChainTotal(70) == 96;
    assert ChainTotal(216) == 312;
    assert ChainTotal(2) == 2;
    assert ChainTotal(12) == 14;
    assert ChainTotal(43) == 57;
    assert ChainTotal(135) == 192;
    assert ChainTotal(411) == 603;
    assert ChainTotal(1240) == 1843;
    assert ChainTotal(3728) == 5571;
    assert ChainTotal(11192) == 16763;
  }

  /** 654, 216, 70, 21 and 5 add up to 966. */
  lemma TotalFuelExample1969()
    ensures TotalFuel([1969]) == Ok(966)
  {
    ChainTotalValues();
    ChainTotalSum(654);
    TotalFuelSingle(1969);
  }

  /** 33583, 11192, 3728, 1240, 411, 135, 43, 12 and 2 add up to 50346. */
  lemma TotalFuelExample100756()
    ensures TotalFuel([100756]) == Ok(50346)
  {
    ChainTotalValues();
    ChainTotalSum(33583);
    TotalFuelSingle(100756);
  }
}
