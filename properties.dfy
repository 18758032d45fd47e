/**
  Properties of the compliance-cost calculation: the shape of the reduction
  schedule, the ordering of the two targets that follows from it, how the
  results move with the fuel's carbon intensity, and the form's default case.
 */
module ComplianceProperties {
  import opened Compliance

  /** The year list is exactly the key set of the reduction table, strictly ascending. */
  lemma YearsAreScheduleKeys()
    ensures forall y :: y in Years <==> y in TargetReductions
    ensures forall i, j :: 0 <= i < j < |Years| ==> Years[i] < Years[j]
    ensures Years[0] == 2028 && Years[|Years| - 1] == 2035
  {
    forall i, j | 0 <= i < j < |Years| ensures Years[i] < Years[j] {
      assert Years[i] == 2028 + i && Years[j] == 2028 + j;
    }
  }

  /**
    In every scheduled year the direct-compliance reduction is larger than the
    base reduction, and both reductions grow from one year to the next.
   */
  lemma ScheduleOrdering()
    ensures forall y :: y in TargetReductions ==>
              0.0 <= TargetReductions[y].basePct < TargetReductions[y].directPct <= 100.0
    ensures forall i :: 0 < i < |Years| ==>
              TargetReductions[Years[i - 1]].basePct < TargetReductions[Years[i]].basePct &&
              TargetReductions[Years[i - 1]].directPct < TargetReductions[Years[i]].directPct
  {
    forall y | y in TargetReductions
      ensures 0.0 <= TargetReductions[y].basePct < TargetReductions[y].directPct <= 100.0
    {
      assert y in TargetReductions.Keys;
      assert 2028 <= y <= 2035;
    }
    forall i | 0 < i < |Years|
      ensures TargetReductions[Years[i - 1]].basePct < TargetReductions[Years[i]].basePct &&
              TargetReductions[Years[i - 1]].directPct < TargetReductions[Years[i]].directPct
    {
      assert Years[i - 1] == 2027 + i && Years[i] == 2028 + i;
    }
  }

  /** Every catalog fuel has a positive LHV and a non-negative GFI. */
  lemma CatalogFuelsValid()
    ensures forall name :: name in PredefinedFuels ==>
              PredefinedFuels[name].lhv > 0.0 && PredefinedFuels[name].gfi >= 0.0
  {
    forall name | name in PredefinedFuels
      ensures PredefinedFuels[name].lhv > 0.0 && PredefinedFuels[name].gfi >= 0.0
    {
      assert name in PredefinedFuels.Keys;
    }
  }

  /**
    The warning status of the surplus branch ("exceeds base target") is never
    produced for a scheduled year and a non-negative energy: the direct target
    is never above the base target.
   */
  lemma SurplusWarningUnreachable(year: int, energy: real, attained: real, gfi: real, pricing: Pricing)
    requires year in TargetReductions && energy >= 0.0
    ensures ComputeYear(year, energy, attained, gfi, pricing).outcome.status != StatusSurplusWarning
  {
  }

  /**
    For every valid input, the results list has one record per scheduled year,
    in ascending year order; in every record the Tier-2 deficit never exceeds
    the Tier-1 deficit and the surplus-branch warning is absent; and each
    record's tier prices follow the date rule: fixed at 100/380 up to 2030,
    the user's prices from 2031.
   */
  lemma AnnualResultsWellFormed(tonnes: real, fuel: Fuel, pricing: Pricing)
    requires ValidInput(tonnes, fuel)
    ensures var rs := AnnualResults(tonnes, fuel, pricing);
            |rs| == |Years| &&
            (forall i, j :: 0 <= i < j < |rs| ==> rs[i].year < rs[j].year) &&
            forall k :: 0 <= k < |rs| ==>
              rs[k].year in TargetReductions &&
              rs[k].outcome.deficitT2 <= rs[k].outcome.deficitT1 &&
              rs[k].outcome.status != StatusSurplusWarning &&
              (rs[k].year <= 2030 ==> rs[k].t1Price == 100.0 && rs[k].t2Price == 380.0) &&
              (rs[k].year >= 2031 ==> rs[k].t1Price == pricing.t1UserPrice && rs[k].t2Price == pricing.t2UserPrice)
  {
    var rs := AnnualResults(tonnes, fuel, pricing);
    var energy := TotalEnergy(tonnes, fuel.lhv);
    var attained := Emissions(energy, fuel.gfi);
    YearsAreScheduleKeys();
    forall k | 0 <= k < |rs|
      ensures rs[k].year in TargetReductions &&
              rs[k].outcome.deficitT2 <= rs[k].outcome.deficitT1 &&
              rs[k].outcome.status != StatusSurplusWarning
    {
      assert rs[k] == ComputeYear(Years[k], energy, attained, fuel.gfi, pricing);
      SurplusWarningUnreachable(Years[k], energy, attained, fuel.gfi, pricing);
    }
  }

  /**
    Against the same targets (the direct one the stricter) and prices, more
    emissions never lower either deficit nor raise the surplus; with
    non-negative prices the net outcome cannot rise.
   */
  lemma AssessMonotone(a1: real, a2: real, targetDirect: real, targetBase: real,
                       t1Price: real, t2Price: real, surplusPrice: real)
    requires a1 <= a2 && targetDirect <= targetBase
    ensures var r1 := Assess(a1, targetDirect, targetBase, t1Price, t2Price, surplusPrice);
            var r2 := Assess(a2, targetDirect, targetBase, t1Price, t2Price, surplusPrice);
            r1.deficitT1 <= r2.deficitT1 && r1.deficitT2 <= r2.deficitT2 && r1.surplus >= r2.surplus &&
            (t1Price >= 0.0 && t2Price >= 0.0 && surplusPrice >= 0.0 ==> r1.netOutcome >= r2.netOutcome)
  {
    var r1 := Assess(a1, targetDirect, targetBase, t1Price, t2Price, surplusPrice);
    var r2 := Assess(a2, targetDirect, targetBase, t1Price, t2Price, surplusPrice);
    if t1Price >= 0.0 && t2Price >= 0.0 && surplusPrice >= 0.0 {
      ValuationAntitone(surplusPrice, t1Price, t2Price,
        r1.surplus, r2.surplus, r1.deficitT1, r2.deficitT1, r1.deficitT2, r2.deficitT2);
    }
  }

  /**
    With non-negative prices, no less surplus and no more of either deficit
    give no smaller net outcome.
   */
  lemma ValuationAntitone(sp: real, p1: real, p2: real, s1: real, s2: real, d1: real, d2: real, e1: real, e2: real)
    requires sp >= 0.0 && p1 >= 0.0 && p2 >= 0.0
    requires s2 <= s1 && d1 <= d2 && e1 <= e2
    ensures s1 * sp - d1 * p1 - e1 * p2 >= s2 * sp - d2 * p1 - e2 * p2
  {
    ScaleMonotone(sp, s2, s1);
    ScaleMonotone(p1, d1, d2);
    ScaleMonotone(p2, e1, e2);
  }

  /** At a fixed non-negative energy, emissions grow with the intensity. */
  lemma EmissionsMonotone(energy: real, gfi1: real, gfi2: real)
    requires energy >= 0.0 && gfi1 <= gfi2
    ensures Emissions(energy, gfi1) <= Emissions(energy, gfi2)
  {
    ScaleMonotone(energy, gfi1, gfi2);
    assert energy * gfi1 <= energy * gfi2 by {
      assert energy * gfi1 == gfi1 * energy && energy * gfi2 == gfi2 * energy;
    }
  }

  /**
    Holding the fuel's LHV and the tonnage fixed, a higher GFI never lowers a
    year's Tier-1 or Tier-2 deficit, never raises its surplus, and with
    non-negative prices never raises its net outcome.
   */
  lemma MonotoneInGfi(tonnes: real, lhv: real, gfi1: real, gfi2: real, pricing: Pricing)
    requires ValidInput(tonnes, Fuel(lhv, gfi1)) && gfi1 <= gfi2
    ensures var rs1 := AnnualResults(tonnes, Fuel(lhv, gfi1), pricing);
            var rs2 := AnnualResults(tonnes, Fuel(lhv, gfi2), pricing);
            forall k :: 0 <= k < |Years| ==>
              rs1[k].outcome.deficitT1 <= rs2[k].outcome.deficitT1 &&
              rs1[k].outcome.deficitT2 <= rs2[k].outcome.deficitT2 &&
              rs1[k].outcome.surplus >= rs2[k].outcome.surplus &&
              (pricing.surplusPrice >= 0.0 && pricing.t1UserPrice >= 0.0 && pricing.t2UserPrice >= 0.0 ==>
                rs1[k].outcome.netOutcome >= rs2[k].outcome.netOutcome)
  {
    var energy := TotalEnergy(tonnes, lhv);
    var a1 := Emissions(energy, gfi1);
    var a2 := Emissions(energy, gfi2);
    EmissionsMonotone(energy, gfi1, gfi2);
    var rs1 := AnnualResults(tonnes, Fuel(lhv, gfi1), pricing);
    var rs2 := AnnualResults(tonnes, Fuel(lhv, gfi2), pricing);
    forall k | 0 <= k < |Years|
      ensures rs1[k].outcome.deficitT1 <= rs2[k].outcome.deficitT1 &&
              rs1[k].outcome.deficitT2 <= rs2[k].outcome.deficitT2 &&
              rs1[k].outcome.surplus >= rs2[k].outcome.surplus &&
              (pricing.surplusPrice >= 0.0 && pricing.t1UserPrice >= 0.0 && pricing.t2UserPrice >= 0.0 ==>
                rs1[k].outcome.netOutcome >= rs2[k].outcome.netOutcome)
    {
      var r1 := ComputeYear(Years[k], energy, a1, gfi1, pricing);
      var r2 := ComputeYear(Years[k], energy, a2, gfi2, pricing);
      assert rs1[k] == r1 && rs2[k] == r2;
      assert r1.targetCo2Direct == r2.targetCo2Direct && r1.targetCo2Base == r2.targetCo2Base;
      assert r1.t1Price == r2.t1Price && r1.t2Price == r2.t2Price && r1.surplusPrice == r2.surplusPrice;
      AssessMonotone(a1, a2, r1.targetCo2Direct, r1.targetCo2Base, r1.t1Price, r1.t2Price, r1.surplusPrice);
    }
  }

  /**
    The form's defaults: bio-Methanol (LHV 19900, GFI 5.00), 5000 t a year,
    surplus price 380. In 2028 the fuel is 7207.6805 t below the direct
    target, which sells for 2,738,918.59 and is the year's whole net outcome.
   */
  lemma DefaultScenario2028(t1UserPrice: real, t2UserPrice: real)
    ensures var rs := AnnualResults(5000.0, PredefinedFuels["bio-Methanol"], Pricing(380.0, t1UserPrice, t2UserPrice));
            var r := rs[0];
            r.year == 2028 &&
            r.attainedCo2 == 497.5 &&
            r.targetGfiDirect == 77.439 &&
            r.targetCo2Direct == 7705.1805 &&
            r.outcome.deficitT1 == 0.0 && r.outcome.deficitT2 == 0.0 &&
            r.outcome.surplus == 7207.6805 &&
            r.outcome.revenueSurplus == 2738918.59 &&
            r.outcome.netOutcome == 2738918.59 &&
            r.outcome.status == StatusSurplus
  {
    var fuel := PredefinedFuels["bio-Methanol"];
    assert fuel == Fuel(19900.0, 5.00);
    var energy := TotalEnergy(5000.0, fuel.lhv);
    assert energy == 99500000.0;
    assert Emissions(energy, fuel.gfi) == 497.5;
    assert TargetGfi(17.0) == 77.439;
    assert TargetGfi(4.0) == 89.568;
    assert Emissions(energy, 77.439) == 7705.1805;
    assert Emissions(energy, 89.568) == 8912.016;
  }
}
