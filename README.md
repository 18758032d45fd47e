# IMO MEPC 83 two-tier GFI-linked compliance cost, in Dafny

This project models the calculation core of the IMO MEPC 83 "two-tier GFI-linked
pricing" calculator. A fuel has a lower heating value (LHV, MJ per tonne) and a
greenhouse-gas fuel intensity (GFI, gCO2eq per MJ), and a ship burns a given
number of tonnes a year. For each year of the fixed 2028-2035 schedule the
calculator does three things:

- It derives a base target and a stricter direct-compliance target from a
  reference intensity of 93.3 gCO2eq/MJ.
- It compares the fuel's attained emissions with both targets.
- It prices the gap. A deficit against the direct target is a Tier-1 deficit.
  A further excess over the base target is a Tier-2 deficit. A margin below
  the direct target is a surplus, sold as surplus units.

Tier prices are fixed at 100 and 380 $/t through 2030 and come from the user
from 2031.

Every quantity in the source is an exact decimal, so the model uses `real`.
There is no floating-point rounding.

- `compliance.dfy`, module `Compliance`: the constants (fuel catalog,
  reference GFI, reduction table, year list, fixed prices), the records, and the
  operations:
  - `Assess`: the two-tier decision for one year.
  - `ComputeYear`: one scheduled year.
  - `AnnualResults`: the specification of the whole results list.
  - `Calculate`: the validated calculation, a method that builds the list year
    by year in a loop.
- `properties.dfy`, module `ComplianceProperties`: lemmas about the schedule,
  the ordering of the two targets, the results list, monotonicity in the GFI,
  and the form's default case.

A results record (`YearResult`) keeps the source's fields. The deficit,
surplus, cost, revenue, net-outcome and status fields are grouped in a nested
`Assessment`. The status strings are the source's own.

The default case is bio-Methanol, 5000 t, surplus price 380, year 2028. The
code's exact arithmetic gives these values:

- surplus: 7,207.6805 t;
- revenue and net outcome: $2,738,918.59.

Some descriptions of this calculator quote $2,738,919.70 for the same case.
That figure does not follow from the code, and the model follows the code.

## Model

| member | source | states |
|---|---|---|
| Compliance.TotalEnergy | IMOMEPC83.py:122 | the annual energy is positive for every input that passes validation |
| Compliance.Emissions | IMOMEPC83.py:123 | emissions in tonnes are non-negative for non-negative energy and intensity; with positive energy they are positive exactly when the intensity is |
| Compliance.TargetGfi | IMOMEPC83.py:146-147 | a reduction between 0 and 100 % gives a target between 0 and the reference GFI; no reduction gives the reference GFI itself |
| Compliance.Tier1Price | IMOMEPC83.py:154 | the Tier-1 price is the fixed 100 for every year up to 2030 and the user's price for every later year |
| Compliance.Tier2Price | IMOMEPC83.py:155 | the Tier-2 price is the fixed 380 for every year up to 2030 and the user's price for every later year |
| Compliance.Assess | IMOMEPC83.py:158-185 | Tier-1 deficit and surplus are the positive and negative parts of one gap; deficit and surplus exclude each other; the Tier-2 deficit is never negative, arises only with a Tier-1 deficit, and is the excess over the base target, never above the Tier-1 deficit, whenever the direct target is stricter; costs and revenue are amount times price and non-negative at non-negative prices; net outcome is revenue minus both costs; each status string holds exactly in its branch |
| Compliance.ComputeYear | IMOMEPC83.py:143-229 | the record echoes the year and inputs; its targets come from the reduction table; the direct GFI target lies strictly between 0 and the base target; with positive energy the direct CO2 target is strictly below the base one; prices follow the date rule; the outcome is the two-tier decision against those targets at those prices |
| Compliance.AnnualResults | IMOMEPC83.py:140-229 | the results list has exactly one record per scheduled year, and record k is for the k-th year of the list |
| Compliance.Calculate | IMOMEPC83.py:114-140 | the calculation fails exactly when tonnes consumed or LHV is not positive, with no results; otherwise it returns the full results list, built by a loop whose prefix always matches the specification |
| ComplianceProperties.YearsAreScheduleKeys | IMOMEPC83.py:22-33 | the year list holds exactly the keys of the reduction table, strictly ascending from 2028 to 2035 |
| ComplianceProperties.ScheduleOrdering | IMOMEPC83.py:22-32 | in every scheduled year the direct reduction exceeds the base reduction, both within 0-100 %, and both reductions grow strictly from year to year |
| ComplianceProperties.CatalogFuelsValid | IMOMEPC83.py:10-16 | every catalog fuel has a positive LHV and a non-negative GFI |
| ComplianceProperties.SurplusWarningUnreachable | IMOMEPC83.py:181-183 | for any scheduled year and non-negative energy, the "exceeds base target" warning of the surplus branch is never produced |
| ComplianceProperties.AnnualResultsWellFormed | IMOMEPC83.py:140-155 | for valid input the records come in strictly ascending year order, each year scheduled, with Tier-2 deficit at most Tier-1 deficit, no surplus warning, fixed 100/380 prices up to 2030 and exactly the user's prices from 2031 |
| ComplianceProperties.AssessMonotone | IMOMEPC83.py:167-185 | against fixed targets and prices, higher emissions never lower either deficit, never raise the surplus, and at non-negative prices never raise the net outcome |
| ComplianceProperties.EmissionsMonotone | IMOMEPC83.py:123 | at fixed non-negative energy, a higher GFI gives no fewer tonnes of emissions |
| ComplianceProperties.MonotoneInGfi | IMOMEPC83.py:122-185 | for valid input, raising the fuel's GFI never lowers any year's Tier-1 or Tier-2 deficit, never raises its surplus, and at non-negative prices never raises its net outcome |
| ComplianceProperties.DefaultScenario2028 | IMOMEPC83.py:146-179 | with the form's defaults, 2028 has attained emissions of 497.5 t, a direct GFI target of 77.439 and a direct CO2 target of 7705.1805 t; no deficit; a surplus of 7207.6805 t; revenue and net outcome of 2,738,918.59; status "Surplus vs Direct Target" |

## Left out

- The Streamlit page is not modelled: layout, columns, widgets, placeholders and the Calculate button (IMOMEPC83.py:41-111, 310-313). `Calculate` is the body run when the button is pressed. Its error message and the clearing of the placeholders become the `Failure(InvalidInput)` result.
- The hard-coded `input_method` switch and its custom-fuel branch are not modelled. The fuel is a parameter of `Calculate`, and `PredefinedFuels` is the catalog.
- The Markdown summary text and its number formatting (IMOMEPC83.py:127-138, 188-208) are not modelled. They are presentation only.
- The pandas table, the conversion to millions, the long-format reshaping, the 1e-9 filter and the Plotly chart (IMOMEPC83.py:231-308) are not modelled. They are library calls and plotting.
- IEEE floating-point rounding is not modelled. All arithmetic is exact `real` arithmetic.
- The widgets' `min_value=0.0` is not a precondition. Prices and tonnes are unconstrained inputs. Properties that need non-negative prices say so as a hypothesis.
- `ComputeYear` takes the attained emissions as a parameter. The source computes that value once, before the year loop, and `Calculate` and `AnnualResults` do the same.
- The multi-fuel comparison variant of the calculator is not part of this model.
