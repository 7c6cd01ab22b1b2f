/**
 * Fuel needed to launch a module (fuel_requirement/src/main.rs): the fuel for a
 * mass is `mass / 3 - 2`, and that fuel needs fuel of its own, until the extra
 * amount would be below zero.
 */
module Fuel {

  /** Reference definition, without an accumulator: the fuel needed by the fuel
      that a mass needs, and so on, stopping when `mass / 3 - 2` would be negative. */
  function ExtraFuel(mass: nat): nat
    decreases mass
  {
    if mass / 3 < 2 then 0 else (mass / 3 - 2) + ExtraFuel(mass / 3 - 2)
  }

  /** `meta_fuel`: tail recursion that adds each further amount to `total`.
      The recursive mass `mass / 3 - 2` is strictly below `mass`, which is why it stops. */
  function MetaFuel(mass: nat, total: nat): (r: nat)
    ensures mass < 6 ==> r == total
    ensures r >= total
    decreases mass
  {
    var fraction := mass / 3;
    if fraction < 2 then total else MetaFuel(fraction - 2, total + fraction - 2)
  }

  /** `fuel_requirement`: the u64 subtraction `mod_size / 3 - 2` underflows (and
      panics) unless `mod_size / 3 >= 2`, so callers must supply such a mass. */
  function FuelRequirement(modSize: nat): (r: nat)
    requires modSize / 3 >= 2
    ensures r >= modSize / 3 - 2
    ensures r <= modSize / 2
  {
    var base := modSize / 3 - 2;
    MetaFuelAccumulates(base, base);
    ExtraFuelBound(base);
    MetaFuel(base, base)
  }

  /** The accumulator only adds: `meta_fuel` is `total` plus the reference amount. */
  lemma {:induction false} MetaFuelAccumulates(mass: nat, total: nat)
    ensures MetaFuel(mass, total) == total + ExtraFuel(mass)
    decreases mass
  {
    if mass / 3 >= 2 {
      MetaFuelAccumulates(mass / 3 - 2, total + mass / 3 - 2);
    }
  }

  /** The starting total threads through unchanged. */
  lemma MetaFuelShift(mass: nat, total: nat)
    ensures MetaFuel(mass, total) == total + MetaFuel(mass, 0)
  {
    MetaFuelAccumulates(mass, total);
    MetaFuelAccumulates(mass, 0);
  }

  /** The further amounts form a decreasing series below half the mass, so the
      u64 total cannot overflow unless `total + mass / 2` does. */
  lemma {:induction false} ExtraFuelBound(mass: nat)
    ensures ExtraFuel(mass) <= mass / 2
    decreases mass
  {
    if mass / 3 >= 2 {
      ExtraFuelBound(mass / 3 - 2);
    }
  }

  /** `fuel_requirement` is the first amount plus the reference series after it. */
  lemma FuelRequirementIsSeries(modSize: nat)
    requires modSize / 3 >= 2
    ensures FuelRequirement(modSize) == (modSize / 3 - 2) + ExtraFuel(modSize / 3 - 2)
  {
    MetaFuelAccumulates(modSize / 3 - 2, modSize / 3 - 2);
  }
}
