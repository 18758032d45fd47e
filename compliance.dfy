/**
  The two-tier, GFI-linked compliance-cost calculation of the IMO MEPC 83
  calculator: for each year of a fixed regulatory schedule (2028-2035) a fuel's
  attained CO2-equivalent emissions are compared with a "direct compliance"
  target and a looser "base" target, and the gap is priced as a surplus
  revenue or as a Tier-1 and a Tier-2 deficit cost.

  All quantities are exact decimals, so they are modelled as `real`.
  Units: LHV in MJ per tonne, GFI in gCO2eq per MJ, emissions in tonnes CO2eq,
  prices in $ per tonne CO2eq.
 */
module Compliance {

  /** The source's single error: tonnes consumed or LHV is not positive. */
  datatype CalcError = InvalidInput

  datatype Result<+T, +E> = Success(value: T) | Failure(error: E)

  /** A fuel's energy content (LHV, MJ/t) and carbon intensity (GFI, gCO2eq/MJ). */
  datatype Fuel = Fuel(lhv: real, gfi: real)

  /** The three price inputs of the form; the tier prices apply from 2031 on. */
  datatype Pricing = Pricing(surplusPrice: real, t1UserPrice: real, t2UserPrice: real)

  /** Base and direct-compliance reduction percentages relative to the reference GFI. */
  datatype Reduction = Reduction(basePct: real, directPct: real)

  /**
    The outcome of comparing a year's attained emissions with its two targets:
    the deficits or the surplus (t CO2eq), what each is worth ($), the net
    outcome and the status line.
   */
  datatype Assessment = Assessment(
    deficitT1: real,
    deficitT2: real,
    surplus: real,
    costT1: real,
    costT2: real,
    revenueSurplus: real,
    netOutcome: real,
    status: string)

  /** One record of the results list; the priced outcome is grouped in `outcome`. */
  datatype YearResult = YearResult(
    year: int,
    targetGfiBase: real,
    targetGfiDirect: real,
    attainedGfi: real,
    targetCo2Base: real,
    targetCo2Direct: real,
    attainedCo2: real,
    outcome: Assessment,
    t1Price: real,
    t2Price: real,
    surplusPrice: real)

  /** The predefined fuel catalog offered by the form. */
  const PredefinedFuels: map<string, Fuel> := map[
    "HFO" := Fuel(41000.0, 91.00),
    "LNG" := Fuel(49000.0, 68.00),
    "B24" := Fuel(41500.0, 75.00),
    "e-Ammonia" := Fuel(18600.0, 3.00),
    "bio-Methanol" := Fuel(19900.0, 5.00)
  ]

  /** Reference GFI in gCO2eq/MJ against which every reduction is taken. */
  const ReferenceGfi: real := 93.3

  /** Reduction targets per year: (base %, direct compliance %). */
  const TargetReductions: map<int, Reduction> := map[
    2028 := Reduction(4.0, 17.0),
    2029 := Reduction(6.0, 19.0),
    2030 := Reduction(8.0, 21.0),
    2031 := Reduction(12.4, 25.4),
    2032 := Reduction(16.8, 29.8),
    2033 := Reduction(21.2, 34.2),
    2034 := Reduction(25.6, 38.6),
    2035 := Reduction(30.0, 43.0)
  ]

  /** The keys of the reduction table, in the table's insertion order. */
  const Years: seq<int> := [2028, 2029, 2030, 2031, 2032, 2033, 2034, 2035]

  /** Last year of the fixed-price period, and the fixed tier prices. */
  const LastFixedPriceYear: int := 2030
  const T1FixedPrice: real := 100.0
  const T2FixedPrice: real := 380.0

  /** Grams per tonne: the g-to-t conversion of every emissions figure. */
  const GramsPerTonne: real := 1000000.0

  const StatusDeficitBoth: string := "Deficit vs Direct Target & Base Target"
  const StatusDeficitDirectOnly: string := "Deficit vs Direct Target (Compliant vs Base)"
  const StatusSurplus: string := "Surplus vs Direct Target"
  const StatusSurplusWarning: string := "Surplus vs Direct Target (Warning: Exceeds Base Target)"

  /** The input check done before any arithmetic. */
  predicate ValidInput(tonnes: real, fuel: Fuel) {
    tonnes > 0.0 && fuel.lhv > 0.0
  }

  /** Annual energy in MJ: positive for every input that passes validation. */
  function TotalEnergy(tonnes: real, lhv: real): (e: real)
    ensures tonnes > 0.0 && lhv > 0.0 ==> e > 0.0
  {
    tonnes * lhv
  }

  /** Tonnes of CO2eq emitted by `energy` MJ at intensity `gfi`. */
  function Emissions(energy: real, gfi: real): (t: real)
    ensures energy >= 0.0 && gfi >= 0.0 ==> t >= 0.0
    ensures energy > 0.0 ==> (t > 0.0 <==> gfi > 0.0)
  {
    energy * gfi / GramsPerTonne
  }

  /** Absolute GFI target for a reduction of `pct` percent from the reference. */
  function TargetGfi(pct: real): (g: real)
    ensures 0.0 <= pct <= 100.0 ==> 0.0 <= g <= ReferenceGfi
    ensures pct == 0.0 ==> g == ReferenceGfi
  {
    ReferenceGfi * (1.0 - pct / 100.0)
  }

  /** Tier-1 price of a year: fixed through 2030, the user's input afterwards. */
  function Tier1Price(year: int, pricing: Pricing): (p: real)
    ensures year <= LastFixedPriceYear ==> p == T1FixedPrice
    ensures year > LastFixedPriceYear ==> p == pricing.t1UserPrice
  {
    if year <= LastFixedPriceYear then T1FixedPrice else pricing.t1UserPrice
  }

  /** Tier-2 price of a year: fixed through 2030, the user's input afterwards. */
  function Tier2Price(year: int, pricing: Pricing): (p: real)
    ensures year <= LastFixedPriceYear ==> p == T2FixedPrice
    ensures year > LastFixedPriceYear ==> p == pricing.t2UserPrice
  {
    if year <= LastFixedPriceYear then T2FixedPrice else pricing.t2UserPrice
  }

  /** `x` if it is positive, otherwise zero. */
  function PositivePart(x: real): (p: real)
    ensures p >= 0.0 && p >= x
    ensures p == 0.0 || p == x
  {
    if x > 0.0 then x else 0.0
  }

  /**
    The two-tier decision. Emissions above the direct target are a Tier-1
    deficit, charged at the Tier-1 price; when they are above the base target
    too, the excess over the base target is a Tier-2 deficit, charged again at
    the Tier-2 price. Emissions at or below the direct target leave a surplus,
    sold at the surplus price. The net outcome is revenue minus both costs.
   */
  function Assess(attained: real, targetDirect: real, targetBase: real,
                  t1Price: real, t2Price: real, surplusPrice: real): (a: Assessment)
    // deficit and surplus are the two signs of one gap against the direct target
    ensures a.deficitT1 == PositivePart(attained - targetDirect)
    ensures a.surplus == PositivePart(targetDirect - attained)
    ensures a.surplus - a.deficitT1 == targetDirect - attained
    // and they exclude each other
    ensures attained > targetDirect ==> a.surplus == 0.0 && a.revenueSurplus == 0.0
    ensures attained <= targetDirect ==>
              a.deficitT1 == 0.0 && a.deficitT2 == 0.0 && a.costT1 == 0.0 && a.costT2 == 0.0
    // Tier 2 is charged only on top of Tier 1, and, when the direct target is
    // the stricter one, on the excess over the base target and never on more tonnes
    ensures a.deficitT2 >= 0.0
    ensures a.deficitT2 > 0.0 ==> a.deficitT1 > 0.0
    ensures targetDirect <= targetBase ==>
              a.deficitT2 == PositivePart(attained - targetBase) && a.deficitT2 <= a.deficitT1
    // what the amounts are worth
    ensures a.costT1 == a.deficitT1 * t1Price && a.costT2 == a.deficitT2 * t2Price
    ensures a.revenueSurplus == a.surplus * surplusPrice
    ensures a.netOutcome == a.revenueSurplus - a.costT1 - a.costT2
    ensures t1Price >= 0.0 && t2Price >= 0.0 && surplusPrice >= 0.0 ==>
              a.costT1 >= 0.0 && a.costT2 >= 0.0 && a.revenueSurplus >= 0.0
    // the status names the branch taken
    ensures a.status == StatusDeficitBoth <==> a.deficitT2 > 0.0
    ensures a.status == StatusDeficitDirectOnly <==> a.deficitT1 > 0.0 && a.deficitT2 == 0.0
    ensures a.status == StatusSurplusWarning <==> attained <= targetDirect && attained > targetBase
    ensures a.status == StatusSurplus <==> attained <= targetDirect && attained <= targetBase
  {
    var (deficitT1, deficitT2, surplus, costT1, costT2, revenueSurplus, status) :=
      if attained > targetDirect then
        var deficitT1 := attained - targetDirect;
        if attained > targetBase then
          var deficitT2 := attained - targetBase;
          (deficitT1, deficitT2, 0.0, deficitT1 * t1Price, deficitT2 * t2Price, 0.0, StatusDeficitBoth)
        else
          (deficitT1, 0.0, 0.0, deficitT1 * t1Price, 0.0, 0.0, StatusDeficitDirectOnly)
      else
        var surplus := targetDirect - attained;
        var status := if attained > targetBase then StatusSurplusWarning else StatusSurplus;
        (0.0, 0.0, surplus, 0.0, 0.0, surplus * surplusPrice, status);
    Assessment(deficitT1, deficitT2, surplus, costT1, costT2, revenueSurplus,
               revenueSurplus - costT1 - costT2, status)
  }

  /**
    The calculation of one scheduled year, for a fuel of intensity `gfi` whose
    annual energy is `energy` MJ and whose annual emissions are `attained` t:
    the year's two targets from the reduction table, its tier prices, and the
    two-tier decision against those targets at those prices.
   */
  function ComputeYear(year: int, energy: real, attained: real, gfi: real, pricing: Pricing): (r: YearResult)
    requires year in TargetReductions
    ensures r.year == year && r.attainedGfi == gfi && r.attainedCo2 == attained
    ensures r.targetGfiBase == TargetGfi(TargetReductions[year].basePct)
    ensures r.targetGfiDirect == TargetGfi(TargetReductions[year].directPct)
    ensures r.targetCo2Base == Emissions(energy, r.targetGfiBase)
    ensures r.targetCo2Direct == Emissions(energy, r.targetGfiDirect)
    // the direct target is the stricter one in every scheduled year
    ensures 0.0 < r.targetGfiDirect < r.targetGfiBase <= ReferenceGfi
    ensures energy > 0.0 ==> r.targetCo2Direct < r.targetCo2Base
    ensures energy == 0.0 ==> r.targetCo2Direct == r.targetCo2Base == 0.0
    ensures r.t1Price == Tier1Price(year, pricing) && r.t2Price == Tier2Price(year, pricing)
    ensures r.surplusPrice == pricing.surplusPrice
    ensures r.outcome == Assess(attained, r.targetCo2Direct, r.targetCo2Base, r.t1Price, r.t2Price, r.surplusPrice)
  {
    var reduction := TargetReductions[year];
    var targetGfiBase := TargetGfi(reduction.basePct);
    var targetGfiDirect := TargetGfi(reduction.directPct);
    var targetCo2Base := Emissions(energy, targetGfiBase);
    var targetCo2Direct := Emissions(energy, targetGfiDirect);
    var t1Price := Tier1Price(year, pricing);
    var t2Price := Tier2Price(year, pricing);
    assert 0.0 < targetGfiDirect < targetGfiBase <= ReferenceGfi;
    assert energy > 0.0 ==> targetCo2Direct < targetCo2Base by {
      if energy > 0.0 {
        ScaleStrictlyMonotone(energy / GramsPerTonne, targetGfiDirect, targetGfiBase);
      }
    }
    YearResult(
      year, targetGfiBase, targetGfiDirect, gfi,
      targetCo2Base, targetCo2Direct, attained,
      Assess(attained, targetCo2Direct, targetCo2Base, t1Price, t2Price, pricing.surplusPrice),
      t1Price, t2Price, pricing.surplusPrice)
  }

  /** Multiplying by a positive factor keeps strict order. */
  lemma ScaleStrictlyMonotone(k: real, x: real, y: real)
    requires k > 0.0 && x < y
    ensures x * k < y * k
  {
    assert y * k - x * k == (y - x) * k;
  }

  /** Multiplying by a non-negative factor keeps order. */
  lemma ScaleMonotone(k: real, x: real, y: real)
    requires k >= 0.0 && x <= y
    ensures x * k <= y * k
  {
    assert y * k - x * k == (y - x) * k;
  }

  /**
    The results list the calculation produces for valid inputs: the energy
    and attained emissions computed once, then one record per scheduled year,
    in schedule order.
   */
  function AnnualResults(tonnes: real, fuel: Fuel, pricing: Pricing): (rs: seq<YearResult>)
    ensures |rs| == |Years|
    ensures forall k :: 0 <= k < |rs| ==> rs[k].year == Years[k]
  {
    var energy := TotalEnergy(tonnes, fuel.lhv);
    var attained := Emissions(energy, fuel.gfi);
    seq(|Years|, k requires 0 <= k < |Years| =>
      assert Years[k] in TargetReductions;
      ComputeYear(Years[k], energy, attained, fuel.gfi, pricing))
  }

  /**
    The calculation as the form runs it: refused outright when tonnes consumed
    or LHV is not positive, otherwise the results list built year by year.
   */
  method Calculate(tonnes: real, fuel: Fuel, pricing: Pricing) returns (r: Result<seq<YearResult>, CalcError>)
    ensures r.Failure? <==> !ValidInput(tonnes, fuel)
    ensures r.Success? ==> r.value == AnnualResults(tonnes, fuel, pricing)
  {
    if tonnes <= 0.0 || fuel.lhv <= 0.0 {
      return Failure(InvalidInput);
    }
    var energy := TotalEnergy(tonnes, fuel.lhv);
    var attained := Emissions(energy, fuel.gfi);
    var results: seq<YearResult> := [];
    for i := 0 to |Years|
      invariant |results| == i
      invariant forall k :: 0 <= k < i ==>
                  Years[k] in TargetReductions &&
                  results[k] == ComputeYear(Years[k], energy, attained, fuel.gfi, pricing)
    {
      var year := Years[i];
      assert year in TargetReductions;
      results := results + [ComputeYear(year, energy, attained, fuel.gfi, pricing)];
    }
    return Success(results);
  }
}
