/** Rocket fuel: a module's fuel is `mass / 3 - 2`, and fuel itself needs fuel,
    by the same rule, until the extra amount is no longer positive. */
module Fuel {
  import RustInt

  /** The fuel a load needs, counting the load: the recurrence the loop of
      `calculate_final_fuel` unrolls. */
  function FinalFuel(fuel: int): (total: int)
    ensures total >= 0
    ensures fuel <= 0 ==> total == 0
    ensures fuel > 0 ==> total >= fuel
    decreases if fuel > 0 then fuel else 0
  {
    if fuel <= 0 then 0 else fuel + FinalFuel(RustInt.Div(fuel, 3) - 2)
  }

  /** `calculate_final_fuel`: add the fuel, then the fuel for it, while positive. */
  method CalculateFinalFuel(fuel: int) returns (extra: int)
    ensures extra == FinalFuel(fuel)
  {
    var f := fuel;
    extra := 0;
    while f > 0
      invariant extra + FinalFuel(f) == FinalFuel(fuel)
      decreases if f > 0 then f else 0
    {
      extra := extra + f;
      f := RustInt.Div(f, 3) - 2;
    }
  }

  /** The fuel one module of the given mass needs. */
  function ModuleFuel(mass: int): int
  {
    FinalFuel(RustInt.Div(mass, 3) - 2)
  }

  /** `get_modules_fuel` over masses already read: the sum of each module's fuel. */
  function ModulesFuel(masses: seq<int>): (total: int)
    ensures total >= 0
    ensures |masses| == 0 ==> total == 0
  {
    if |masses| == 0 then 0 else ModulesFuel(masses[..|masses| - 1]) + ModuleFuel(masses[|masses| - 1])
  }

  /** The total over two lists of modules is the sum of their totals. */
  lemma {:induction false} ModulesFuelAppend(a: seq<int>, b: seq<int>)
    ensures ModulesFuel(a + b) == ModulesFuel(a) + ModulesFuel(b)
    decreases |b|
  {
    if |b| > 0 {
      var b' := b[..|b| - 1];
      assert (a + b)[..|a + b| - 1] == a + b';
      ModulesFuelAppend(a, b');
    } else {
      assert a + b == a;
    }
  }

  /** More fuel never needs less fuel for itself. */
  lemma {:induction false} FinalFuelMonotone(a: int, b: int)
    requires a <= b
    ensures FinalFuel(a) <= FinalFuel(b)
    decreases if b > 0 then b else 0
  {
    if a > 0 {
      FinalFuelMonotone(RustInt.Div(a, 3) - 2, RustInt.Div(b, 3) - 2);
    }
  }

  /** Modules too light to need fuel (mass below 9) add nothing. */
  lemma LightModule(mass: int)
    requires mass < 9
    ensures ModuleFuel(mass) == 0
  {
  }

  /** A module of mass 1969 needs 654 units of fuel, and 966 with the fuel's own fuel. */
  lemma HeavyModule()
    ensures RustInt.Div(1969, 3) - 2 == 654 && ModuleFuel(1969) == 966
  {
    assert FinalFuel(654) == 654 + FinalFuel(216);
    assert FinalFuel(216) == 216 + FinalFuel(70);
    assert FinalFuel(70) == 70 + FinalFuel(21);
    assert FinalFuel(21) == 21 + FinalFuel(5);
    assert FinalFuel(5) == 5 + FinalFuel(-1);
  }
}
