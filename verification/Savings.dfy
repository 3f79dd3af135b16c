/**
 Generator cost avoided (inverters-metrics.service.ts): energy per bucket, fuel and cost, each rounded
 for display, and the totals of a period, of a custom range and of the inverter's lifetime. All times
 are local to one zone, numbers are exact reals, and the fuel consumption rate is given.
 */
module Savings {
  import opened Calendar
  import opened EnergyBuckets
  import opened PeriodRanges
  import opened Rounding
  import opened Wrappers
  import Poller

  // ---- Energy per reading -----------------------------------------------------------------------

  const BASE_POINTS: int := 600

  function PollingInterval(brand: Poller.Brand): int {
    if brand == Poller.VICTRON then 20 else if brand == Poller.SANDBOX then 5 else 50
  }

  /** The hours that one reading stands for, by a decimal division in SQL. */
  function HoursPerReading(brand: Poller.Brand): real { PollingInterval(brand) as real / BASE_POINTS as real }

  /** A reading stands for exactly the time between two polls of its brand. */
  lemma ReadingSpansPollInterval(brand: Poller.Brand)
    requires Poller.Pollable(brand)
    ensures HoursPerReading(brand) * 3_600_000.0 == Poller.PollMs(brand) as real
    ensures forall kw :: Kwh(kw, HoursPerReading(brand)) * 3_600_000.0 == kw * Poller.PollMs(brand) as real
  {
  }

  // ---- Tariff -----------------------------------------------------------------------------------

  datatype Settings = Settings(generatorRatedPowerKw: Option<real>, customFuelPriceNaira: Option<real>)

  datatype Tariff = Tariff(ratedPowerKw: real, litresPerHour: real, pricePerLitre: real, co2Factor: real)

  function RatedPower(settings: Option<Settings>): real {
    if settings.Some? && settings.value.generatorRatedPowerKw.Some? then settings.value.generatorRatedPowerKw.value else 2.5
  }

  /** The user's own price where the settings row holds one, else the latest; None is NaN. */
  function FuelPrice(settings: Option<Settings>, latest: real): Option<real> {
    if settings.None? then None // a missing row is not an absent price
    else if settings.value.customFuelPriceNaira.Some? then settings.value.customFuelPriceNaira
    else Some(latest)
  }

  /** The figures that a calculation uses; None when one of them is not a number. */
  function TariffOf(settings: Option<Settings>, litresPerHour: real, latest: real, co2Factor: real): Option<Tariff> {
    var price := FuelPrice(settings, latest);
    if price.None? then None else Some(Tariff(RatedPower(settings), litresPerHour, price.value, co2Factor))
  }

  /**
   The user's own figures are used where the settings row holds them. The price falls back to the latest
   one only when a settings row exists: without it, it is not a number.
   */
  lemma PriceIsNumberIff(settings: Option<Settings>, litresPerHour: real, latest: real, co2Factor: real)
    ensures var t := TariffOf(settings, litresPerHour, latest, co2Factor);
            && (t.Some? <==> settings.Some?)
            && (t.Some? ==>
                  && var (power, price) := (settings.value.generatorRatedPowerKw, settings.value.customFuelPriceNaira);
                  && (if power.Some? then t.value.ratedPowerKw == power.value else t.value.ratedPowerKw == 2.5)
                  && (if price.Some? then t.value.pricePerLitre == price.value else t.value.pricePerLitre == latest)
                  && t.value.litresPerHour == litresPerHour && t.value.co2Factor == co2Factor)
  {
  }

  function FuelSaved(energyKwh: real, tariff: Tariff): real {
    if tariff.ratedPowerKw > 0.0 then energyKwh / tariff.ratedPowerKw * tariff.litresPerHour else 0.0
  }

  function Cost(energyKwh: real, tariff: Tariff): real { FuelSaved(energyKwh, tariff) * tariff.pricePerLitre }

  function Co2(litres: real, tariff: Tariff): real { litres * tariff.co2Factor }

  function Kwh(kw: real, rate: real): real { kw * rate }

  /** The generator would have run `hours` at its rated power to supply the energy; without a rating it does not run. */
  ghost predicate RunsFor(tariff: Tariff, energyKwh: real, hours: real) {
    if tariff.ratedPowerKw > 0.0 then energyKwh == tariff.ratedPowerKw * hours else hours == 0.0
  }

  lemma SomeHours(tariff: Tariff, energyKwh: real) returns (hours: real)
    ensures RunsFor(tariff, energyKwh, hours)
    ensures forall other :: RunsFor(tariff, energyKwh, other) ==> other == hours
  {
    hours := 0.0;
    if tariff.ratedPowerKw > 0.0 {
      hours := energyKwh / tariff.ratedPowerKw;
      DivMul(energyKwh, tariff.ratedPowerKw);
      assert energyKwh == tariff.ratedPowerKw * hours;
      forall other | RunsFor(tariff, energyKwh, other) ensures other == hours { OneQuotient(other, hours, tariff.ratedPowerKw); }
    }
  }

  lemma OneQuotient(a: real, b: real, p: real)
    requires p > 0.0 && p * a == p * b
    ensures a == b
  {
    if a < b { MulPositive(b - a, p); } else if b < a { MulPositive(a - b, p); }
  }

  /** What a generator run of some hours burns, costs and emits. */
  function Burnt(tariff: Tariff, hours: real): real { hours * tariff.litresPerHour }

  function Spent(tariff: Tariff, hours: real): real { hours * tariff.litresPerHour * tariff.pricePerLitre }

  function Emitted(tariff: Tariff, hours: real): real { hours * tariff.litresPerHour * tariff.co2Factor }

  /** What is saved is what running the generator for those hours would burn, cost and emit. */
  lemma GeneratorRun(tariff: Tariff, energyKwh: real, hours: real)
    requires RunsFor(tariff, energyKwh, hours)
    ensures FuelSaved(energyKwh, tariff) == Burnt(tariff, hours) == hours * tariff.litresPerHour
    ensures Cost(energyKwh, tariff) == Spent(tariff, hours) == hours * tariff.litresPerHour * tariff.pricePerLitre
    ensures Co2(FuelSaved(energyKwh, tariff), tariff) == Emitted(tariff, hours)
            == hours * tariff.litresPerHour * tariff.co2Factor
  {
    if tariff.ratedPowerKw > 0.0 {
      DivMul(energyKwh, tariff.ratedPowerKw);
      OneQuotient(energyKwh / tariff.ratedPowerKw, hours, tariff.ratedPowerKw);
    }
  }

  /** 10 kWh on a 2.5 kW generator: 4 hours, 6 litres at 1.5 litres an hour, 6000 naira at 1000 a litre. */
  lemma TenKilowattHours()
    ensures FuelSaved(10.0, Tariff(2.5, 1.5, 1000.0, 2.3)) == 6.0
    ensures Cost(10.0, Tariff(2.5, 1.5, 1000.0, 2.3)) == 6000.0
  {
    GeneratorRun(Tariff(2.5, 1.5, 1000.0, 2.3), 10.0, 4.0);
  }

  // ---- Totals of a period or a custom range -------------------------------------------------------

  datatype Entry = Entry(
    bucket: int, activeHours: nat, energyKwh: real, solarKwh: real, generatorCostSavedNgn: real, fuelSavedLitres: real)

  datatype Totals = Totals(
    totalCostSavedNgn: real, fuelSavedLitres: real, co2AvoidedKg: real, totalEnergyConsumedKwh: real,
    totalEnergyGeneratedKwh: real, solarCoveragePercent: Option<real>, totalActiveHours: nat)

  datatype Report = Report(breakdown: seq<Entry>, totals: Totals, averageCostSavedNgn: real)

  function Breakdown(rows: seq<Row>, rate: real, tariff: Tariff): (entries: seq<Entry>)
    ensures |entries| == |rows|
  {
    if rows == [] then [] else
    var (energy, solar) := (Kwh(rows[0].loadKw, rate), Kwh(rows[0].solarGenKw, rate));
    [Entry(rows[0].bucket, |rows[0].hours|, Fixed(energy, 3), Fixed(solar, 3), Fixed(Cost(energy, tariff), 2),
           Fixed(FuelSaved(energy, tariff), 3))]
    + Breakdown(rows[1..], rate, tariff)
  }

  function SumEnergy(rows: seq<Row>, rate: real): real {
    if rows == [] then 0.0 else Kwh(rows[0].loadKw, rate) + SumEnergy(rows[1..], rate)
  }

  function SumSolarEnergy(rows: seq<Row>, rate: real): real {
    if rows == [] then 0.0 else Kwh(rows[0].solarGenKw, rate) + SumSolarEnergy(rows[1..], rate)
  }

  function WithData(rows: seq<Row>, rate: real): nat {
    if rows == [] then 0 else (if Kwh(rows[0].loadKw, rate) > 0.0 then 1 else 0) + WithData(rows[1..], rate)
  }

  function Min(a: real, b: real): real { if a < b then a else b }

  /** The mean over `count`, or over one when there are none. */
  function Mean(total: real, count: nat): real { total / (if count == 0 then 1 else count) as real }

  /** Solar as a percentage of consumption, capped. */
  function Coverage(solar: real, energy: real): real
    requires energy > 0.0
  {
    Min(solar / energy * 100.0, 100.0)
  }

  function TotalsOf(energy: real, solar: real, hours: nat, tariff: Tariff): Totals {
    var fuel := FuelSaved(energy, tariff);
    Totals(Fixed(Cost(energy, tariff), 2), Fixed(fuel, 3), Fixed(Co2(fuel, tariff), 3), Fixed(energy, 3), Fixed(solar, 3),
           if energy > 0.0 then Some(Fixed(Coverage(solar, energy), 1)) else None, hours)
  }

  function ReportOver(readings: seq<Reading>, g: Granularity, rate: real, tariff: Tariff): Report {
    var rows := GroupBy(readings, g);
    var energy := SumEnergy(rows, rate);
    Report(Breakdown(rows, rate, tariff),
           TotalsOf(energy, SumSolarEnergy(rows, rate), TotalHours(rows), tariff),
           Fixed(Mean(Cost(energy, tariff), WithData(rows, rate)), 2))
  }

  function Within(readings: seq<Reading>, window: Interval): seq<Reading> {
    if readings == [] then [] else
    var r := readings[|readings| - 1];
    Within(readings[..|readings| - 1], window) + if In(r.at, window) then [r] else []
  }

  function PeriodSavings(readings: seq<Reading>, period: Period, date: int, rate: real, tariff: Tariff): Report
    requires period != Custom
  {
    ReportOver(Within(readings, Range(period, date, 0)),
               if period == Weekly || period == Monthly then DayBucket else HourBucket, rate, tariff)
  }

  /** The span in days, rounded up. */
  function SpanDays(start: int, end: int): int { (end - start + MS_PER_DAY - 1) / MS_PER_DAY }

  function GranularityFor(spanDays: int): Granularity {
    if spanDays <= 2 then HourBucket
    else if spanDays < 21 then DayBucket
    else if spanDays <= 90 then WeekBucket
    else MonthBucket
  }

  function CustomRangeSavings(readings: seq<Reading>, start: int, end: int, rate: real, tariff: Tariff)
    : Result<Report, string>
  {
    if start >= end then Failure("startDate must be before endDate")
    else Success(ReportOver(Within(readings, Interval(start, end)), GranularityFor(SpanDays(start, end)), rate, tariff))
  }

  /** The bucket size by the exact length of the range: up to 2, 20 and 90 days. */
  lemma GranularityByLength(start: int, end: int)
    ensures GranularityFor(SpanDays(start, end))
            == if end - start <= 2 * 86_400_000 then HourBucket
               else if end - start <= 20 * 86_400_000 then DayBucket
               else if end - start <= 90 * 86_400_000 then WeekBucket
               else MonthBucket
  {
  }

  // ---- Lifetime totals ------------------------------------------------------------------------------

  function SumOf(entries: seq<Entry>, field: Entry -> real): real {
    if entries == [] then 0.0 else field(entries[0]) + SumOf(entries[1..], field)
  }

  const ENERGY: Entry -> real := (e: Entry) => e.energyKwh
  const SOLAR: Entry -> real := (e: Entry) => e.solarKwh
  const COST: Entry -> real := (e: Entry) => e.generatorCostSavedNgn
  const FUEL: Entry -> real := (e: Entry) => e.fuelSavedLitres

  datatype Lifetime = Lifetime(
    months: seq<Entry>, savingsNgn: real, energyConsumedKwh: real, energyGeneratedKwh: real, fuelSavedLitres: real,
    co2AvoidedKg: real, averageMonthlySavingsNgn: real)

  function CumulativeSavings(readings: seq<Reading>, rate: real, tariff: Tariff): Lifetime {
    var months := Breakdown(GroupBy(readings, MonthBucket), rate, tariff);
    var (energy, fuel, cost) := (SumOf(months, ENERGY), SumOf(months, FUEL), SumOf(months, COST));
    Lifetime(months, Fixed(cost, 2), Fixed(energy, 3), Fixed(SumOf(months, SOLAR), 3), Fixed(fuel, 3),
             Fixed(Co2(fuel, tariff), 3),
             Fixed(Mean(cost, |months|), 2))
  }

  // ---- Exact totals -----------------------------------------------------------------------------------

  lemma {:induction false} EnergyIsLoadTimesRate(rows: seq<Row>, rate: real)
    ensures SumEnergy(rows, rate) == Kwh(TotalLoad(rows), rate)
    ensures SumSolarEnergy(rows, rate) == Kwh(TotalSolar(rows), rate)
  {
    if rows != [] { EnergyIsLoadTimesRate(rows[1..], rate); }
  }

  lemma EnergyExact(readings: seq<Reading>, g: Granularity, rate: real)
    ensures SumEnergy(GroupBy(readings, g), rate) == Kwh(SumLoad(readings), rate)
    ensures SumSolarEnergy(GroupBy(readings, g), rate) == Kwh(SumSolar(readings), rate)
  {
    hide Kwh, GroupBy, SumEnergy, SumSolarEnergy, TotalLoad, TotalSolar, SumLoad, SumSolar;
    EnergyIsLoadTimesRate(GroupBy(readings, g), rate);
    TotalsAreOfReadings(readings, g);
  }

  lemma TotalsExact(readings: seq<Reading>, g: Granularity, rate: real, tariff: Tariff)
    ensures ReportOver(readings, g, rate, tariff).totals
            == TotalsOf(Kwh(SumLoad(readings), rate), Kwh(SumSolar(readings), rate), |HoursOf(readings)|, tariff)
  {
    hide TotalsOf, GroupBy, Breakdown, SumEnergy, SumSolarEnergy, TotalHours, Cost, Fixed, SumLoad, SumSolar, HoursOf, Kwh;
    EnergyExact(readings, g, rate);
    ActiveHoursConserved(readings, g);
    var rows := GroupBy(readings, g);
    assert ReportOver(readings, g, rate, tariff).totals
        == TotalsOf(SumEnergy(rows, rate), SumSolarEnergy(rows, rate), TotalHours(rows), tariff);
  }

  /** The figures shown for an energy, given the hours that the generator would have run. */
  ghost predicate ShownTotals(t: Totals, energyKwh: real, solarKwh: real, activeHours: nat, tariff: Tariff, hours: real) {
    && t.totalCostSavedNgn == Fixed(Spent(tariff, hours), 2) && t.fuelSavedLitres == Fixed(Burnt(tariff, hours), 3)
    && t.co2AvoidedKg == Fixed(Emitted(tariff, hours), 3)
    && t.totalEnergyConsumedKwh == Fixed(energyKwh, 3) && t.totalEnergyGeneratedKwh == Fixed(solarKwh, 3)
    && t.totalActiveHours == activeHours
  }

  lemma TotalsShown(energyKwh: real, solarKwh: real, activeHours: nat, tariff: Tariff, hours: real)
    requires RunsFor(tariff, energyKwh, hours)
    ensures ShownTotals(TotalsOf(energyKwh, solarKwh, activeHours, tariff), energyKwh, solarKwh, activeHours, tariff, hours)
  {
    GeneratorRun(tariff, energyKwh, hours);
    hide Fixed, FuelSaved, Cost, Co2, Coverage, Burnt, Spent, Emitted, RunsFor;
  }

  /**
   The totals depend on the readings alone: hours, days, weeks or months make no difference. They are the
   summed readings times the hours each stands for, and the run of the generator for that energy.
   */
  lemma TotalsIgnoreGranularity(readings: seq<Reading>, g: Granularity, rate: real, tariff: Tariff, hours: real)
    requires RunsFor(tariff, Kwh(SumLoad(readings), rate), hours)
    ensures ShownTotals(ReportOver(readings, g, rate, tariff).totals, Kwh(SumLoad(readings), rate),
                        Kwh(SumSolar(readings), rate), |HoursOf(readings)|, tariff, hours)
  {
    hide Kwh, ReportOver, TotalsOf, SumLoad, SumSolar, HoursOf, RunsFor, ShownTotals;
    TotalsExact(readings, g, rate, tariff);
    TotalsShown(Kwh(SumLoad(readings), rate), Kwh(SumSolar(readings), rate), |HoursOf(readings)|, tariff, hours);
  }

  /** The buckets in which some energy was used. */
  function UsedBuckets(rows: seq<Row>, rate: real): set<int> {
    set row | row in rows && Kwh(row.loadKw, rate) > 0.0 :: row.bucket
  }

  lemma {:induction false} WithDataCounts(rows: seq<Row>, rate: real)
    requires Ascending(rows)
    ensures WithData(rows, rate) == |UsedBuckets(rows, rate)|
  {
    hide Kwh;
    if rows != [] {
      WithDataCounts(rows[1..], rate);
      var first := if Kwh(rows[0].loadKw, rate) > 0.0 then {rows[0].bucket} else {};
      assert UsedBuckets(rows, rate) == first + UsedBuckets(rows[1..], rate) by { UsedGrows(rows, rate); }
      forall b | b in UsedBuckets(rows[1..], rate) ensures b != rows[0].bucket {
        var row :| row in rows[1..] && row.bucket == b;
        AfterFirst(rows, row);
      }
    }
  }

  lemma UsedGrows(rows: seq<Row>, rate: real)
    requires rows != []
    ensures UsedBuckets(rows, rate)
            == (if Kwh(rows[0].loadKw, rate) > 0.0 then {rows[0].bucket} else {}) + UsedBuckets(rows[1..], rate)
  {
    hide Kwh;
    assert forall row :: row in rows <==> row == rows[0] || row in rows[1..];
  }

  lemma FuelAdds(a: real, b: real, tariff: Tariff)
    ensures FuelSaved(a + b, tariff) == FuelSaved(a, tariff) + FuelSaved(b, tariff)
    ensures Cost(a + b, tariff) == Cost(a, tariff) + Cost(b, tariff)
  {
    if tariff.ratedPowerKw > 0.0 {
      var (x, y) := (a / tariff.ratedPowerKw, b / tariff.ratedPowerKw);
      assert (a + b) / tariff.ratedPowerKw == x + y;
      AddTimes(x, y, tariff.litresPerHour);
    }
    AddTimes(FuelSaved(a, tariff), FuelSaved(b, tariff), tariff.pricePerLitre);
  }

  lemma KwhAdds(a: real, b: real, rate: real)
    ensures Kwh(a + b, rate) == Kwh(a, rate) + Kwh(b, rate)
  {
  }

  lemma AddTimes(x: real, y: real, c: real)
    ensures (x + y) * c == x * c + y * c
  {
  }

  lemma NothingSaved(tariff: Tariff)
    ensures FuelSaved(0.0, tariff) == 0.0 && Cost(0.0, tariff) == 0.0
  {
    if tariff.ratedPowerKw > 0.0 { assert 0.0 / tariff.ratedPowerKw == 0.0; }
  }

  // ---- Accumulated rounding ---------------------------------------------------------------------------

  predicate Near(x: real, exact: real, n: nat, unit: real) { Abs(x - exact) <= n as real * unit }

  lemma NearAdds(x: real, a: real, y: real, b: real, n: nat, unit: real)
    requires Abs(x - a) <= unit && Near(y, b, n, unit)
    ensures Near(x + y, a + b, n + 1, unit)
  {
    OneMore(n as real, unit);
    assert (n + 1) as real == n as real + 1.0;
    ErrorsAdd(x, a, y, b, unit, n as real * unit);
  }

  lemma OneMore(n: real, unit: real)
    ensures (n + 1.0) * unit == n * unit + unit
  {
  }

  lemma ErrorsAdd(x: real, a: real, y: real, b: real, e: real, f: real)
    requires Abs(x - a) <= e && Abs(y - b) <= f
    ensures Abs((x + y) - (a + b)) <= f + e
  {
  }

  lemma Fixed2Error(x: real)
    ensures Abs(Fixed(x, 2) - x) <= 0.005
  {
    FixedError(x, 2);
    assert Pow10(2) == 10 * Pow10(1) && Pow10(1) == 10 * Pow10(0);
  }

  lemma Fixed3Error(x: real)
    ensures Abs(Fixed(x, 3) - x) <= 0.0005
  {
    FixedError(x, 3);
    assert Pow10(3) == 10 * Pow10(2) && Pow10(2) == 10 * Pow10(1) && Pow10(1) == 10 * Pow10(0);
  }

  lemma {:induction false} BreakdownNear(rows: seq<Row>, rate: real, tariff: Tariff)
    ensures var (entries, energy) := (Breakdown(rows, rate, tariff), SumEnergy(rows, rate));
            && Near(SumOf(entries, ENERGY), energy, |rows|, 0.0005)
            && Near(SumOf(entries, SOLAR), SumSolarEnergy(rows, rate), |rows|, 0.0005)
            && Near(SumOf(entries, COST), Cost(energy, tariff), |rows|, 0.005)
            && Near(SumOf(entries, FUEL), FuelSaved(energy, tariff), |rows|, 0.0005)
  {
    hide Kwh, Fixed, FuelSaved, Cost, Near;
    if rows == [] {
      NothingSaved(tariff);
      NearZero(0.0005);
      NearZero(0.005);
    } else {
      var (rest, n) := (rows[1..], |rows| - 1);
      BreakdownNear(rest, rate, tariff);
      var entries := Breakdown(rows, rate, tariff);
      assert entries[1..] == Breakdown(rest, rate, tariff);
      var (energy, solar) := (Kwh(rows[0].loadKw, rate), Kwh(rows[0].solarGenKw, rate));
      FuelAdds(energy, SumEnergy(rest, rate), tariff);
      Fixed3Error(energy);
      Fixed3Error(solar);
      Fixed3Error(FuelSaved(energy, tariff));
      Fixed2Error(Cost(energy, tariff));
      var tail := entries[1..];
      NearAdds(Fixed(energy, 3), energy, SumOf(tail, ENERGY), SumEnergy(rest, rate), n, 0.0005);
      NearAdds(Fixed(solar, 3), solar, SumOf(tail, SOLAR), SumSolarEnergy(rest, rate), n, 0.0005);
      NearAdds(Fixed(Cost(energy, tariff), 2), Cost(energy, tariff),
               SumOf(tail, COST), Cost(SumEnergy(rest, rate), tariff), n, 0.005);
      NearAdds(Fixed(FuelSaved(energy, tariff), 3), FuelSaved(energy, tariff),
               SumOf(tail, FUEL), FuelSaved(SumEnergy(rest, rate), tariff), n, 0.0005);
    }
  }

  /** The sums of the rounded entries stay within half a unit per row of the exact totals. */
  lemma BreakdownSums(rows: seq<Row>, rate: real, tariff: Tariff, hours: real)
    requires RunsFor(tariff, Kwh(TotalLoad(rows), rate), hours)
    ensures var entries := Breakdown(rows, rate, tariff);
            && Near(SumOf(entries, ENERGY), Kwh(TotalLoad(rows), rate), |rows|, 0.0005)
            && Near(SumOf(entries, SOLAR), Kwh(TotalSolar(rows), rate), |rows|, 0.0005)
            && Near(SumOf(entries, COST), Spent(tariff, hours), |rows|, 0.005)
            && Near(SumOf(entries, FUEL), Burnt(tariff, hours), |rows|, 0.0005)
  {
    BreakdownNear(rows, rate, tariff);
    EnergyIsLoadTimesRate(rows, rate);
    GeneratorRun(tariff, Kwh(TotalLoad(rows), rate), hours);
    hide Kwh, Fixed, FuelSaved, Cost, Near, SumOf, Breakdown, TotalLoad, TotalSolar, SumEnergy, SumSolarEnergy, RunsFor,
      Burnt, Spent;
  }

  lemma NearZero(unit: real)
    ensures Near(0.0, 0.0, 0, unit)
  {
  }

  /** `x` has at most `decimals` decimals. */
  ghost predicate OnGrid(x: real, decimals: nat) { exists n: int :: x == Ratio(n, decimals) }

  lemma FixedOnGrid(x: real, decimals: nat)
    ensures OnGrid(Fixed(x, decimals), decimals)
  {
    var n: int := Scaled(x, decimals);
    assert Fixed(x, decimals) == Ratio(if x < 0.0 then -1 * n else n, decimals) by { Negated(n, decimals); }
  }

  lemma Negated(n: int, decimals: nat)
    ensures Ratio(-n, decimals) == -Ratio(n, decimals)
  {
    NegativeDiv(n as real, Pow10(decimals) as real);
  }

  lemma NegativeDiv(a: real, p: real)
    requires p > 0.0
    ensures (-a) / p == -(a / p)
  {
  }

  lemma AddOnGrid(x: real, y: real, decimals: nat)
    requires OnGrid(x, decimals) && OnGrid(y, decimals)
    ensures OnGrid(x + y, decimals)
  {
    var m: int :| x == Ratio(m, decimals);
    var n: int :| y == Ratio(n, decimals);
    AddDiv(m as real, n as real, Pow10(decimals) as real);
    assert x + y == Ratio(m + n, decimals);
  }

  lemma AddDiv(a: real, b: real, p: real)
    requires p > 0.0
    ensures a / p + b / p == (a + b) / p
  {
  }

  lemma GridIsFixed(x: real, decimals: nat)
    requires OnGrid(x, decimals)
    ensures Fixed(x, decimals) == x
  {
    hide Fixed, Ratio;
    var n: int :| x == Ratio(n, decimals);
    FixedExact(n, decimals);
  }

  lemma ZeroOnGrid(decimals: nat)
    ensures OnGrid(0.0, decimals)
  {
    assert Ratio(0, decimals) == 0.0;
  }

  /** Adding up rounded entries needs no further rounding. */
  lemma {:induction false} SumsOnGrid(rows: seq<Row>, rate: real, tariff: Tariff)
    ensures var entries := Breakdown(rows, rate, tariff);
            && OnGrid(SumOf(entries, ENERGY), 3) && OnGrid(SumOf(entries, SOLAR), 3)
            && OnGrid(SumOf(entries, COST), 2) && OnGrid(SumOf(entries, FUEL), 3)
  {
    hide Kwh, Fixed, FuelSaved, Cost, OnGrid;
    if rows == [] {
      ZeroOnGrid(2);
      ZeroOnGrid(3);
    } else {
      SumsOnGrid(rows[1..], rate, tariff);
      var entries := Breakdown(rows, rate, tariff);
      var tail := entries[1..];
      assert tail == Breakdown(rows[1..], rate, tariff);
      FixedOnGrid(Kwh(rows[0].loadKw, rate), 3);
      FixedOnGrid(Kwh(rows[0].solarGenKw, rate), 3);
      FixedOnGrid(Cost(Kwh(rows[0].loadKw, rate), tariff), 2);
      FixedOnGrid(FuelSaved(Kwh(rows[0].loadKw, rate), tariff), 3);
      AddOnGrid(entries[0].energyKwh, SumOf(tail, ENERGY), 3);
      AddOnGrid(entries[0].solarKwh, SumOf(tail, SOLAR), 3);
      AddOnGrid(entries[0].generatorCostSavedNgn, SumOf(tail, COST), 2);
      AddOnGrid(entries[0].fuelSavedLitres, SumOf(tail, FUEL), 3);
    }
  }

  /**
   The entries of a report add up to its totals, to within half a unit for each entry and one for the
   total itself: 0.005 naira, 0.0005 kWh and 0.0005 litre.
   */
  lemma EntriesMatchTotals(readings: seq<Reading>, g: Granularity, rate: real, tariff: Tariff)
    ensures var r := ReportOver(readings, g, rate, tariff);
            var n := |r.breakdown| + 1;
            && Near(SumOf(r.breakdown, COST), r.totals.totalCostSavedNgn, n, 0.005)
            && Near(SumOf(r.breakdown, FUEL), r.totals.fuelSavedLitres, n, 0.0005)
            && Near(SumOf(r.breakdown, ENERGY), r.totals.totalEnergyConsumedKwh, n, 0.0005)
            && Near(SumOf(r.breakdown, SOLAR), r.totals.totalEnergyGeneratedKwh, n, 0.0005)
  {
    hide Kwh, GroupBy, Breakdown, Fixed, Cost, FuelSaved, SumEnergy, SumSolarEnergy, SumOf, TotalHours, WithData, Near;
    var rows := GroupBy(readings, g);
    var (energy, solar) := (SumEnergy(rows, rate), SumSolarEnergy(rows, rate));
    BreakdownNear(rows, rate, tariff);
    var entries := Breakdown(rows, rate, tariff);
    NearFixed2(SumOf(entries, COST), Cost(energy, tariff), |rows|);
    NearFixed3(SumOf(entries, FUEL), FuelSaved(energy, tariff), |rows|);
    NearFixed3(SumOf(entries, ENERGY), energy, |rows|);
    NearFixed3(SumOf(entries, SOLAR), solar, |rows|);
  }

  lemma ScaledError(x: real, exact: real, e: real, n: real)
    requires Abs(x - exact) <= e && n > 0.0
    ensures Abs(x * n - exact * n) <= e * n
  {
    BoundTimes(x - exact, e, n);
    Distribute(x, exact, n);
  }

  predicate PercentOf(percent: real, part: real, whole: real) { percent * whole == part * 100.0 }

  /** The solar share of the energy used, at most all of it. */
  lemma CoverageLaw(solar: real, energy: real)
    requires energy > 0.0
    ensures if solar >= energy then Coverage(solar, energy) == 100.0 else PercentOf(Coverage(solar, energy), solar, energy)
  {
    var share := solar / energy;
    DivMul(solar, energy);
    assert share * energy == solar;
    if solar >= energy {
      if share < 1.0 { MulPositive(1.0 - share, energy); Distribute(1.0, share, energy); }
    } else {
      if share >= 1.0 { CancelOrder(1.0, share, energy); }
      assert share * 100.0 * energy == share * energy * 100.0;
    }
  }

  /** The percentage shown: 100 when the sun covered it all, and else its share to a twentieth of a percent. */
  ghost predicate CoverageShown(shown: real, solar: real, energy: real) {
    if solar >= energy then shown == 100.0 else Abs(shown * energy - solar * 100.0) <= 0.05 * energy
  }

  lemma CoverageError(solar: real, energy: real)
    requires energy > 0.0
    ensures CoverageShown(Fixed(Coverage(solar, energy), 1), solar, energy)
  {
    CoverageLaw(solar, energy);
    FixedHundred();
    if solar >= energy {
      assert CoverageShown(100.0, solar, energy);
    } else {
      hide Coverage, Fixed, CoverageShown, PercentOf;
      ShareShown(Coverage(solar, energy), solar, energy);
    }
  }

  lemma FixedHundred()
    ensures Fixed(100.0, 1) == 100.0
  {
    assert Ratio(1000, 1) == 100.0 by { assert Pow10(1) == 10 * Pow10(0); }
    FixedExact(1000, 1);
  }

  lemma ShareShown(percent: real, solar: real, energy: real)
    requires 0.0 < energy && solar < energy && PercentOf(percent, solar, energy)
    ensures CoverageShown(Fixed(percent, 1), solar, energy)
  {
    Fixed1Error(percent);
    hide Fixed, PercentOf, CoverageShown;
    CloseShare(Fixed(percent, 1), percent, solar, energy);
  }

  lemma CloseShare(shown: real, percent: real, solar: real, energy: real)
    requires 0.0 < energy && solar < energy && PercentOf(percent, solar, energy) && Abs(shown - percent) <= 0.05
    ensures CoverageShown(shown, solar, energy)
  {
    CloseTimes(shown, percent, 0.05, energy, solar * 100.0);
  }

  lemma Replace(a: real, b: real, c: real, e: real)
    requires Abs(a - b) <= e && b == c
    ensures Abs(a - c) <= e
  {
  }

  /**
   The other totals of a report: emissions to half a gram, solar coverage to a twentieth of a percent of
   the energy used and capped at 100, and active hours.
   */
  lemma SummaryError(readings: seq<Reading>, g: Granularity, rate: real, tariff: Tariff, hours: real)
    requires RunsFor(tariff, Kwh(SumLoad(readings), rate), hours)
    ensures var totals := ReportOver(readings, g, rate, tariff).totals;
            var (energy, solar) := (Kwh(SumLoad(readings), rate), Kwh(SumSolar(readings), rate));
            && Abs(totals.co2AvoidedKg - Emitted(tariff, hours)) <= 0.0005
            && (totals.solarCoveragePercent.Some? <==> energy > 0.0)
            && (energy > 0.0 ==>
                  CoverageShown(totals.solarCoveragePercent.value, solar, energy))
            && totals.totalActiveHours == |HoursOf(readings)|
  {
    var (energy, solar) := (Kwh(SumLoad(readings), rate), Kwh(SumSolar(readings), rate));
    hide Kwh, Co2, Cost, FuelSaved, Fixed, ReportOver, SumLoad, SumSolar, HoursOf, Coverage, Burnt, Spent, Emitted, CoverageShown;
    TotalsExact(readings, g, rate, tariff);
    GeneratorRun(tariff, energy, hours);
    Fixed3Error(Emitted(tariff, hours));
    if energy > 0.0 { CoverageError(solar, energy); }
  }

  lemma MeanTimes(total: real, count: nat)
    ensures Mean(total, count) * (if count == 0 then 1.0 else count as real) == total
  {
    DivMul(total, if count == 0 then 1.0 else count as real);
  }

  /** A bucket counts as used when its readings come to more than no energy. */
  lemma UsedMeaning(readings: seq<Reading>, g: Granularity, rate: real, b: int)
    ensures b in UsedBuckets(GroupBy(readings, g), rate) <==> Kwh(SumLoad(InBucket(readings, g, b)), rate) > 0.0
  {
    var rows := GroupBy(readings, g);
    GroupByMeaning(readings, g);
    GroupByAt(readings, g, b);
    if Kwh(SumLoad(InBucket(readings, g, b)), rate) > 0.0 {
      NoEnergy(rate);
      assert InBucket(readings, g, b) != [];
      RowAtIsRow(rows, b);
    }
    hide GroupBy, InBucket, SumLoad, Kwh, RowAt, Ascending;
  }

  lemma NoEnergy(rate: real)
    ensures SumLoad([]) == 0.0 && Kwh(0.0, rate) == 0.0
  {
  }

  /** A mean over `count`, or over one when there are none: `count` times what is shown is the total, to a half kobo each. */
  ghost predicate MeanShown(shown: real, total: real, count: nat) {
    var n := if count == 0 then 1.0 else count as real;
    Abs(shown * n - total) <= 0.005 * n
  }

  /** The mean saving, times the number of buckets in which energy was used or one, is the cost to half a kobo each. */
  lemma AverageError(readings: seq<Reading>, g: Granularity, rate: real, tariff: Tariff, hours: real)
    requires RunsFor(tariff, Kwh(SumLoad(readings), rate), hours)
    ensures MeanShown(ReportOver(readings, g, rate, tariff).averageCostSavedNgn, Spent(tariff, hours),
                      |UsedBuckets(GroupBy(readings, g), rate)|)
  {
    var rows := GroupBy(readings, g);
    GroupByAt(readings, g, 0);
    WithDataCounts(rows, rate);
    EnergyExact(readings, g, rate);
    GeneratorRun(tariff, Kwh(SumLoad(readings), rate), hours);
    hide Kwh, Cost, Fixed, GroupBy, SumLoad, Ascending, WithData, UsedBuckets, Breakdown, SumEnergy, SumSolarEnergy,
      TotalHours, RowAt, Summary, TotalsOf, Mean, Spent, RunsFor, FuelSaved, Burnt, Emitted, MeanShown;
    MeanError(Spent(tariff, hours), |UsedBuckets(rows, rate)|);
  }

  lemma MeanError(total: real, count: nat)
    ensures MeanShown(Fixed(Mean(total, count), 2), total, count)
  {
    Fixed2Error(Mean(total, count));
    MeanTimes(total, count);
    hide Fixed, Mean, MeanShown;
    CloseMean(Fixed(Mean(total, count), 2), Mean(total, count), total, count);
  }

  lemma CloseMean(shown: real, mean: real, total: real, count: nat)
    requires Abs(shown - mean) <= 0.005 && mean * (if count == 0 then 1.0 else count as real) == total
    ensures MeanShown(shown, total, count)
  {
    var n: real := if count == 0 then 1.0 else count as real;
    CloseTimes(shown, mean, 0.005, n, total);
  }

  lemma CloseTimes(shown: real, exact: real, e: real, n: real, total: real)
    requires Abs(shown - exact) <= e && n > 0.0 && exact * n == total
    ensures Abs(shown * n - total) <= e * n
  {
    ScaledError(shown, exact, e, n);
    var (p, q, r) := (shown * n, exact * n, e * n);
    Replace(p, q, total, r);
  }

  lemma Fixed1Error(x: real)
    ensures Abs(Fixed(x, 1) - x) <= 0.05
  {
    FixedError(x, 1);
    assert Pow10(1) == 10 * Pow10(0);
  }

  lemma NearFixed2(x: real, exact: real, n: nat)
    requires Near(x, exact, n, 0.005)
    ensures Near(x, Fixed(exact, 2), n + 1, 0.005)
  {
    Fixed2Error(exact);
  }

  lemma NearFixed3(x: real, exact: real, n: nat)
    requires Near(x, exact, n, 0.0005)
    ensures Near(x, Fixed(exact, 3), n + 1, 0.0005)
  {
    Fixed3Error(exact);
  }

  /** Over n months, the lifetime totals built from rounded months stay within n half units of the exact ones. */
  lemma LifetimeError(readings: seq<Reading>, rate: real, tariff: Tariff, hours: real)
    requires RunsFor(tariff, Kwh(SumLoad(readings), rate), hours)
    ensures var l := CumulativeSavings(readings, rate, tariff);
            && Near(l.savingsNgn, Spent(tariff, hours), |l.months|, 0.005)
            && Near(l.energyConsumedKwh, Kwh(SumLoad(readings), rate), |l.months|, 0.0005)
            && Near(l.energyGeneratedKwh, Kwh(SumSolar(readings), rate), |l.months|, 0.0005)
            && Near(l.fuelSavedLitres, Burnt(tariff, hours), |l.months|, 0.0005)
  {
    hide Kwh, GroupBy, Breakdown, Fixed, Cost, FuelSaved, SumEnergy, SumSolarEnergy, SumOf, Near, SumLoad, SumSolar, OnGrid,
      Burnt, Spent;
    var rows := GroupBy(readings, MonthBucket);
    var months := Breakdown(rows, rate, tariff);
    EnergyExact(readings, MonthBucket, rate);
    GeneratorRun(tariff, Kwh(SumLoad(readings), rate), hours);
    BreakdownNear(rows, rate, tariff);
    SumsOnGrid(rows, rate, tariff);
    GridIsFixed(SumOf(months, COST), 2);
    GridIsFixed(SumOf(months, ENERGY), 3);
    GridIsFixed(SumOf(months, SOLAR), 3);
    GridIsFixed(SumOf(months, FUEL), 3);
  }

  lemma Co2Near(x: real, exact: real, n: nat, tariff: Tariff)
    requires Near(x, exact, n, 0.0005)
    ensures Abs(Co2(x, tariff) - Co2(exact, tariff)) <= n as real * 0.0005 * Abs(tariff.co2Factor)
  {
    Distribute(x, exact, tariff.co2Factor);
    BoundTimes(x - exact, n as real * 0.0005, tariff.co2Factor);
  }

  lemma BoundTimes(d: real, e: real, factor: real)
    requires Abs(d) <= e
    ensures Abs(d * factor) <= e * Abs(factor)
  {
    var f := Abs(factor);
    CancelOrder(d, e, f);
    CancelOrder(-d, e, f);
    Distribute(d, 0.0, f);
    Distribute(d, 0.0, factor);
  }

  lemma CancelOrder(a: real, b: real, p: real)
    requires a <= b && p >= 0.0
    ensures a * p <= b * p
  {
    if a < b && p > 0.0 { MulPositive(b - a, p); Distribute(b, a, p); }
  }

  /** The emissions avoided over the lifetime, computed from rounded litres and rounded once more. */
  lemma LifetimeCo2Error(readings: seq<Reading>, rate: real, tariff: Tariff, hours: real)
    requires RunsFor(tariff, Kwh(SumLoad(readings), rate), hours)
    ensures var l := CumulativeSavings(readings, rate, tariff);
            Abs(l.co2AvoidedKg - Emitted(tariff, hours)) <= |l.months| as real * 0.0005 * Abs(tariff.co2Factor) + 0.0005
  {
    hide Kwh, GroupBy, Breakdown, Fixed, Cost, FuelSaved, SumOf, SumLoad, Near, Co2, Burnt, Spent, Emitted;
    var months := Breakdown(GroupBy(readings, MonthBucket), rate, tariff);
    EnergyExact(readings, MonthBucket, rate);
    GeneratorRun(tariff, Kwh(SumLoad(readings), rate), hours);
    BreakdownNear(GroupBy(readings, MonthBucket), rate, tariff);
    var (fuel, exact) := (SumOf(months, FUEL), FuelSaved(Kwh(SumLoad(readings), rate), tariff));
    Co2Near(fuel, exact, |months|, tariff);
    Fixed3Error(Co2(fuel, tariff));
    Triangle(Fixed(Co2(fuel, tariff), 3), Co2(fuel, tariff), Co2(exact, tariff));
  }

  lemma Triangle(a: real, b: real, c: real)
    ensures Abs(a - c) <= Abs(a - b) + Abs(b - c)
  {
  }

  /** The monthly average, taken of rounded months and rounded once more, is within a kobo of the exact one. */
  lemma LifetimeAverageError(readings: seq<Reading>, rate: real, tariff: Tariff, hours: real)
    requires RunsFor(tariff, Kwh(SumLoad(readings), rate), hours)
    ensures var l := CumulativeSavings(readings, rate, tariff);
            var n := |l.months| as real;
            Abs(l.averageMonthlySavingsNgn * n - Spent(tariff, hours)) <= 0.01 * n
  {
    hide Kwh, GroupBy, Breakdown, Fixed, Cost, FuelSaved, SumOf, SumLoad, Near, Burnt, Spent, Emitted;
    var months := Breakdown(GroupBy(readings, MonthBucket), rate, tariff);
    EnergyExact(readings, MonthBucket, rate);
    GeneratorRun(tariff, Kwh(SumLoad(readings), rate), hours);
    BreakdownNear(GroupBy(readings, MonthBucket), rate, tariff);
    var (n, cost, exact) := (|months|, SumOf(months, COST), Spent(tariff, hours));
    if n > 0 { MeanOfMonths(cost, exact, n); } else { NothingOver(cost, exact); }
  }

  lemma MeanOfMonths(cost: real, exact: real, n: nat)
    requires Near(cost, exact, n, 0.005) && n > 0
    ensures Abs(Fixed(Mean(cost, n), 2) * n as real - exact) <= 0.01 * n as real
  {
    MeanError(cost, n);
    hide Fixed, Mean, Abs;
    Triangle(Fixed(Mean(cost, n), 2) * n as real, cost, exact);
  }

  lemma NothingOver(cost: real, exact: real)
    requires Near(cost, exact, 0, 0.005)
    ensures cost == exact
  {
  }

  // ---- Periods and lifetime ---------------------------------------------------------------------------

  /** The first of the month is in the month. */
  lemma MonthOfBucket(t: int)
    ensures var d := Day(Bucket(MonthBucket, t)); YearOf(d) == YearOf(Day(t)) && MonthOf(d) == MonthOf(Day(t))
  {
    hide YearOf, MonthOf, MakeDay, DayFromYear, DaysBefore, DaysInMonth;
    var (y, m) := (YearOf(Day(t)), MonthOf(Day(t)));
    FirstOfMonth(y, m);
    DaysOfMonth(y, m, MakeDay(y, m, 1));
  }

  lemma SameMonthSameBucket(t: int, u: int)
    ensures Bucket(MonthBucket, u) == Bucket(MonthBucket, t) <==> SameUnit(Monthly, Day(t), Day(u))
  {
    MonthOfBucket(t);
    MonthOfBucket(u);
    hide YearOf, MonthOf, MakeDay, Day;
  }

  lemma BucketOfBucket(t: int)
    ensures Bucket(MonthBucket, Bucket(MonthBucket, t)) == Bucket(MonthBucket, t)
  {
    MonthOfBucket(t);
    hide Day, YearOf, MonthOf, MakeDay;
    SameMonthSameBucket(t, Bucket(MonthBucket, t));
  }

  /** The monthly range of a bucket holds exactly the bucket's instants. */
  lemma MonthWindow(t: int, u: int)
    requires Supported(Monthly, Day(t))
    ensures var b := Bucket(MonthBucket, t);
            In(u, Range(Monthly, b, 0)) <==> Bucket(MonthBucket, u) == b
  {
    var b := Bucket(MonthBucket, t);
    MonthOfBucket(t);
    hide Bucket, Day, YearOf, MonthOf, MakeDay, Range, In, SameUnit;
    assert b + 0 == b && u + 0 == u;
    RangeIsUnit(Monthly, b, 0);
    SameMonthSameBucket(b, u);
    BucketOfBucket(t);
    assert In(u, Range(Monthly, b, 0)) <==> SameUnit(Monthly, Day(b + 0), Day(u + 0));
  }

  lemma {:induction false} WithinMonth(readings: seq<Reading>, t: int)
    requires Supported(Monthly, Day(t))
    ensures Within(readings, Range(Monthly, Bucket(MonthBucket, t), 0))
            == InBucket(readings, MonthBucket, Bucket(MonthBucket, t))
  {
    hide Bucket, Range, In;
    if readings != [] {
      WithinMonth(readings[..|readings| - 1], t);
      MonthWindow(t, readings[|readings| - 1].at);
    }
  }

  ghost predicate AllSupported(readings: seq<Reading>) { forall r :: r in readings ==> Supported(Monthly, Day(r.at)) }

  lemma {:induction false} InBucketMember(readings: seq<Reading>, g: Granularity, bucket: int)
    ensures InBucket(readings, g, bucket) != [] ==> exists r :: r in readings && Bucket(g, r.at) == bucket
  {
    if readings != [] {
      var (rest, r) := (readings[..|readings| - 1], readings[|readings| - 1]);
      InBucketMember(rest, g, bucket);
      assert r in readings && forall q :: q in rest ==> q in readings;
    }
  }

  lemma MonthTotalsExact(readings: seq<Reading>, row: Row, rate: real, tariff: Tariff)
    requires AllSupported(readings)
    ensures row in GroupBy(readings, MonthBucket) ==>
              PeriodSavings(readings, Monthly, row.bucket, rate, tariff).totals
              == TotalsOf(Kwh(row.loadKw, rate), Kwh(row.solarGenKw, rate), |row.hours|, tariff)
  {
    hide Bucket, Range, GroupBy, TotalsOf, SumLoad, SumSolar, HoursOf, Kwh, Within, InBucket, ReportOver, Supported, Day;
    if row in GroupBy(readings, MonthBucket) {
      GroupByMeaning(readings, MonthBucket);
      InBucketMember(readings, MonthBucket, row.bucket);
      var r :| r in readings && Bucket(MonthBucket, r.at) == row.bucket;
      WithinMonth(readings, r.at);
      TotalsExact(Within(readings, Range(Monthly, row.bucket, 0)), DayBucket, rate, tariff);
    }
  }

  /** The totals of getPeriodSavings for a month, against that month's row of the lifetime query. */
  lemma MonthTotals(readings: seq<Reading>, row: Row, rate: real, tariff: Tariff, hours: real)
    requires AllSupported(readings) && RunsFor(tariff, Kwh(row.loadKw, rate), hours)
    ensures row in GroupBy(readings, MonthBucket) ==>
              ShownTotals(PeriodSavings(readings, Monthly, row.bucket, rate, tariff).totals,
                          Kwh(row.loadKw, rate), Kwh(row.solarGenKw, rate), |row.hours|, tariff, hours)
  {
    hide PeriodSavings, GroupBy, TotalsOf, ShownTotals, RunsFor, Kwh, AllSupported;
    MonthTotalsExact(readings, row, rate, tariff);
    TotalsShown(Kwh(row.loadKw, rate), Kwh(row.solarGenKw, rate), |row.hours|, tariff, hours);
  }

  /** Asking for each month in turn, and adding up. */
  function SumOfMonths(readings: seq<Reading>, rows: seq<Row>, rate: real, tariff: Tariff): real {
    if rows == [] then 0.0
    else PeriodSavings(readings, Monthly, rows[0].bucket, rate, tariff).totals.totalCostSavedNgn
         + SumOfMonths(readings, rows[1..], rate, tariff)
  }

  lemma {:induction false} MonthsAddUp(readings: seq<Reading>, rows: seq<Row>, rate: real, tariff: Tariff)
    requires AllSupported(readings) && forall row :: row in rows ==> row in GroupBy(readings, MonthBucket)
    ensures SumOfMonths(readings, rows, rate, tariff) == SumOf(Breakdown(rows, rate, tariff), COST)
  {
    hide Kwh, Cost, GroupBy, Fixed, FuelSaved, PeriodSavings, AllSupported;
    if rows != [] {
      MonthsAddUp(readings, rows[1..], rate, tariff);
      MonthTotalsExact(readings, rows[0], rate, tariff);
      assert Breakdown(rows, rate, tariff)[1..] == Breakdown(rows[1..], rate, tariff);
    }
  }

  /** The lifetime savings are, to the kobo, the sum of the monthly savings that getPeriodSavings reports. */
  lemma LifetimeIsSumOfMonths(readings: seq<Reading>, rate: real, tariff: Tariff)
    requires AllSupported(readings)
    ensures CumulativeSavings(readings, rate, tariff).savingsNgn
            == SumOfMonths(readings, GroupBy(readings, MonthBucket), rate, tariff)
  {
    var rows := GroupBy(readings, MonthBucket);
    hide Kwh, Cost, GroupBy, Fixed, FuelSaved, AllSupported, Breakdown, SumOf, OnGrid;
    MonthsAddUp(readings, rows, rate, tariff);
    SumsOnGrid(rows, rate, tariff);
    GridIsFixed(SumOf(Breakdown(rows, rate, tariff), COST), 2);
  }

  // ---- What an entry stands for -------------------------------------------------------------------------

  /** The stretch of time that a bucket covers. */
  function Span(g: Granularity, bucket: int): Interval {
    match g
    case HourBucket => Interval(bucket, bucket + 60 * 60 * 1000)
    case DayBucket => Interval(bucket, bucket + 24 * 60 * 60 * 1000)
    case WeekBucket => Interval(bucket, bucket + 7 * 24 * 60 * 60 * 1000)
    case MonthBucket => Range(Monthly, bucket, 0)
  }

  lemma HourSpan(t: int, u: int)
    ensures In(u, Span(HourBucket, Bucket(HourBucket, t))) <==> Bucket(HourBucket, u) == Bucket(HourBucket, t)
  {
  }

  lemma DaySpan(t: int, u: int)
    ensures In(u, Span(DayBucket, Bucket(DayBucket, t))) <==> Bucket(DayBucket, u) == Bucket(DayBucket, t)
    ensures Bucket(DayBucket, t) % (24 * 60 * 60 * 1000) == 0
  {
  }

  lemma WeekSpan(t: int, u: int)
    ensures In(u, Span(WeekBucket, Bucket(WeekBucket, t))) <==> Bucket(WeekBucket, u) == Bucket(WeekBucket, t)
    ensures Bucket(WeekBucket, t) % (24 * 60 * 60 * 1000) == 0 && (Day(Bucket(WeekBucket, t)) - 4) % 7 == 0
  {
    WeekOfDays(Day(t), Day(u));
    hide MondayOnOrBefore;
    assert Day(Bucket(WeekBucket, t)) == MondayOnOrBefore(Day(t));
    WithinDays(MondayOnOrBefore(Day(t)), 7, u);
  }

  lemma WeekOfDays(d: int, e: int)
    ensures MondayOnOrBefore(d) <= e < MondayOnOrBefore(d) + 7 <==> MondayOnOrBefore(e) == MondayOnOrBefore(d)
    ensures (MondayOnOrBefore(d) - 4) % 7 == 0
  {
  }

  lemma WithinDays(first: int, days: int, u: int)
    ensures first * MS_PER_DAY <= u < (first + days) * MS_PER_DAY <==> first <= Day(u) < first + days
  {
  }

  /**
   Two instants share a bucket when one lies in the span that begins with the other's bucket. Days begin at
   midnight and weeks on Mondays, of which the fifth day of 1970 was one.
   */
  lemma BucketIsSpan(g: Granularity, t: int, u: int)
    requires g == MonthBucket ==> Supported(Monthly, Day(t))
    ensures In(u, Span(g, Bucket(g, t))) <==> Bucket(g, u) == Bucket(g, t)
    ensures Span(g, Bucket(g, t)).start == Bucket(g, t)
    ensures g == WeekBucket ==> (Day(Bucket(g, t)) - 4) % 7 == 0
    ensures g == WeekBucket || g == DayBucket ==> Bucket(g, t) % (24 * 60 * 60 * 1000) == 0
  {
    hide Bucket, Day, In, Supported;
    match g
    case HourBucket => HourSpan(t, u);
    case DayBucket => DaySpan(t, u);
    case WeekBucket => WeekSpan(t, u);
    case MonthBucket =>
      MonthWindow(t, u);
      MonthStart(t);
      hide Range;
  }

  lemma MonthStart(t: int)
    requires Supported(Monthly, Day(t))
    ensures Range(Monthly, Bucket(MonthBucket, t), 0).start == Bucket(MonthBucket, t)
  {
    MonthOfBucket(t);
    hide YearOf, MonthOf, MakeDay;
    var b := Bucket(MonthBucket, t);
    assert Day(b + 0) == Day(b);
  }

  lemma {:induction false} SpanReadings(readings: seq<Reading>, g: Granularity, t: int)
    requires g == MonthBucket ==> Supported(Monthly, Day(t))
    ensures Within(readings, Span(g, Bucket(g, t))) == InBucket(readings, g, Bucket(g, t))
  {
    hide Bucket, Span, In, Supported, Day;
    if readings != [] {
      SpanReadings(readings[..|readings| - 1], g, t);
      BucketIsSpan(g, t, readings[|readings| - 1].at);
    }
  }

  /** An entry shows its own readings, and a run of the generator for their energy. */
  ghost predicate ShownEntry(e: Entry, own: seq<Reading>, rate: real, tariff: Tariff, hours: real) {
    && e.activeHours == |HoursOf(own)|
    && e.energyKwh == Fixed(Kwh(SumLoad(own), rate), 3) && e.solarKwh == Fixed(Kwh(SumSolar(own), rate), 3)
    && e.generatorCostSavedNgn == Fixed(Spent(tariff, hours), 2) && e.fuelSavedLitres == Fixed(Burnt(tariff, hours), 3)
  }

  lemma {:induction false} EntryOfRow(rows: seq<Row>, rate: real, tariff: Tariff, e: Entry) returns (row: Row)
    requires e in Breakdown(rows, rate, tariff)
    ensures row in rows && e.bucket == row.bucket && e.activeHours == |row.hours|
    ensures e.energyKwh == Fixed(Kwh(row.loadKw, rate), 3) && e.solarKwh == Fixed(Kwh(row.solarGenKw, rate), 3)
    ensures e.generatorCostSavedNgn == Fixed(Cost(Kwh(row.loadKw, rate), tariff), 2)
    ensures e.fuelSavedLitres == Fixed(FuelSaved(Kwh(row.loadKw, rate), tariff), 3)
  {
    hide Kwh, Fixed, Cost, FuelSaved;
    row := rows[0];
    if e != Breakdown(rows, rate, tariff)[0] {
      assert e in Breakdown(rows[1..], rate, tariff);
      row := EntryOfRow(rows[1..], rate, tariff, e);
    }
  }

  /**
   An entry of a report covers the hour, day, week or month that begins with its bucket: it has readings
   there, and it shows exactly theirs.
   */
  lemma EntryIsItsBucket(readings: seq<Reading>, g: Granularity, rate: real, tariff: Tariff, e: Entry, hours: real)
    requires g == MonthBucket ==> AllSupported(readings)
    requires RunsFor(tariff, Kwh(SumLoad(Within(readings, Span(g, e.bucket))), rate), hours)
    ensures e in ReportOver(readings, g, rate, tariff).breakdown ==>
              && Within(readings, Span(g, e.bucket)) != [] && Span(g, e.bucket).start == e.bucket
              && ShownEntry(e, Within(readings, Span(g, e.bucket)), rate, tariff, hours)
  {
    hide Kwh, Fixed, Cost, FuelSaved, GroupBy, SumLoad, SumSolar, HoursOf, Breakdown, Burnt, Spent, Emitted, RunsFor,
      Bucket, Span, Within, InBucket, Day, Supported;
    var rows := GroupBy(readings, g);
    if e in ReportOver(readings, g, rate, tariff).breakdown {
      assert e in Breakdown(rows, rate, tariff) by { OwnBreakdown(readings, g, rate, tariff); }
      var row := EntryOfRow(rows, rate, tariff, e);
      GroupByMeaning(readings, g);
      InBucketMember(readings, g, row.bucket);
      var r :| r in readings && Bucket(g, r.at) == row.bucket;
      SpanReadings(readings, g, r.at);
      BucketIsSpan(g, r.at, r.at);
      GeneratorRun(tariff, Kwh(row.loadKw, rate), hours);
    }
  }

  lemma OwnBreakdown(readings: seq<Reading>, g: Granularity, rate: real, tariff: Tariff)
    ensures ReportOver(readings, g, rate, tariff).breakdown == Breakdown(GroupBy(readings, g), rate, tariff)
  {
    hide GroupBy, Breakdown, SumEnergy, SumSolarEnergy, TotalsOf, Mean, WithData, Fixed, Cost;
  }

  /** The period reports: of a day by the hour, and of a week or a month by the day. */
  lemma PeriodEntries(readings: seq<Reading>, period: Period, date: int, rate: real, tariff: Tariff, e: Entry, hours: real)
    requires period != Custom
    requires var size := if period == Weekly || period == Monthly then 24 * 60 * 60 * 1000 else 60 * 60 * 1000;
             RunsFor(tariff, Kwh(SumLoad(Within(Within(readings, Range(period, date, 0)),
                                                Interval(e.bucket, e.bucket + size))), rate), hours)
    ensures e in PeriodSavings(readings, period, date, rate, tariff).breakdown ==>
              var size := if period == Weekly || period == Monthly then 24 * 60 * 60 * 1000 else 60 * 60 * 1000;
              ShownEntry(e, Within(Within(readings, Range(period, date, 0)), Interval(e.bucket, e.bucket + size)),
                         rate, tariff, hours)
  {
    hide Kwh, ReportOver, Range, RunsFor, SumLoad, ShownEntry, Within;
    EntryIsItsBucket(Within(readings, Range(period, date, 0)),
                     if period == Weekly || period == Monthly then DayBucket else HourBucket, rate, tariff, e, hours);
  }

  /** A custom range must not be empty, and its bucket size follows from its exact length: up to 2, 20 and 90 days. */
  lemma CustomEntries(readings: seq<Reading>, start: int, end: int, rate: real, tariff: Tariff, g: Granularity, e: Entry,
                      hours: real)
    requires g == if end - start <= 2 * 86_400_000 then HourBucket else if end - start <= 20 * 86_400_000 then DayBucket
                  else if end - start <= 90 * 86_400_000 then WeekBucket else MonthBucket
    requires g == MonthBucket ==> AllSupported(readings)
    requires RunsFor(tariff, Kwh(SumLoad(Within(Within(readings, Interval(start, end)), Span(g, e.bucket))), rate), hours)
    ensures var r := CustomRangeSavings(readings, start, end, rate, tariff);
            && (r.Success? <==> start < end)
            && (r.Success? && e in r.value.breakdown ==>
                  ShownEntry(e, Within(Within(readings, Interval(start, end)), Span(g, e.bucket)), rate, tariff, hours))
  {
    GranularityByLength(start, end);
    WithinAreReadings(readings, Interval(start, end));
    hide Kwh, ReportOver, RunsFor, SumLoad, ShownEntry, Within, Span, SpanDays, GranularityFor, Supported, Day;
    EntryIsItsBucket(Within(readings, Interval(start, end)), g, rate, tariff, e, hours);
  }

  lemma {:induction false} WithinAreReadings(readings: seq<Reading>, window: Interval)
    ensures forall r :: r in Within(readings, window) <==> r in readings && window.start <= r.at < window.end
  {
    if readings != [] {
      var (rest, last) := (readings[..|readings| - 1], readings[|readings| - 1]);
      WithinAreReadings(rest, window);
      assert forall r :: r in readings <==> r in rest || r == last;
    }
  }

  // ---- Splitting a range --------------------------------------------------------------------------------

  lemma {:induction false} WithinSplits(readings: seq<Reading>, a: int, b: int, c: int)
    requires a <= b <= c
    ensures SumLoad(Within(readings, Interval(a, c)))
            == SumLoad(Within(readings, Interval(a, b))) + SumLoad(Within(readings, Interval(b, c)))
  {
    if readings != [] {
      var (rest, r) := (readings[..|readings| - 1], readings[|readings| - 1]);
      WithinSplits(rest, a, b, c);
      WithinAdds(readings, Interval(a, c));
      WithinAdds(readings, Interval(a, b));
      WithinAdds(readings, Interval(b, c));
    }
  }

  lemma WithinAdds(readings: seq<Reading>, window: Interval)
    requires readings != []
    ensures var (rest, r) := (readings[..|readings| - 1], readings[|readings| - 1]);
            SumLoad(Within(readings, window)) == SumLoad(Within(rest, window)) + if In(r.at, window) then r.loadKw else 0.0
  {
    var (rest, r) := (readings[..|readings| - 1], readings[|readings| - 1]);
    SumsGrow(Within(rest, window), r);
    assert Within(rest, window) + [] == Within(rest, window);
  }

  /**
   Cutting a custom range in two loses nothing but rounding, though the three reports may use three
   different bucket sizes.
   */
  lemma CustomRangesAdd(readings: seq<Reading>, a: int, b: int, c: int, rate: real, tariff: Tariff)
    requires a < b < c
    ensures var (whole, first, second) := (CustomRangeSavings(readings, a, c, rate, tariff),
                                           CustomRangeSavings(readings, a, b, rate, tariff),
                                           CustomRangeSavings(readings, b, c, rate, tariff));
            && whole.Success? && first.Success? && second.Success?
            && Abs(whole.value.totals.totalCostSavedNgn
                   - (first.value.totals.totalCostSavedNgn + second.value.totals.totalCostSavedNgn)) <= 0.015
  {
    hide Kwh, Cost, GroupBy, Fixed, FuelSaved, ReportOver, SumLoad, Within, SpanDays, GranularityFor;
    WithinSplits(readings, a, b, c);
    var (ab, bc, ac) :=
      (Within(readings, Interval(a, b)), Within(readings, Interval(b, c)), Within(readings, Interval(a, c)));
    TotalsExact(ac, GranularityFor(SpanDays(a, c)), rate, tariff);
    TotalsExact(ab, GranularityFor(SpanDays(a, b)), rate, tariff);
    TotalsExact(bc, GranularityFor(SpanDays(b, c)), rate, tariff);
    KwhAdds(SumLoad(ab), SumLoad(bc), rate);
    FuelAdds(Kwh(SumLoad(ab), rate), Kwh(SumLoad(bc), rate), tariff);
    Fixed2Error(Cost(Kwh(SumLoad(ac), rate), tariff));
    Fixed2Error(Cost(Kwh(SumLoad(ab), rate), tariff));
    Fixed2Error(Cost(Kwh(SumLoad(bc), rate), tariff));
  }

  // ---- The dashboard ------------------------------------------------------------------------------------

  /** The overview divides two integers in SQL, so the quotient is an integer too. */
  function DashboardSavings(readings: seq<Reading>, brand: Poller.Brand, tariff: Tariff): real {
    Fixed(Cost(Kwh(SumLoad(readings), (PollingInterval(brand) / BASE_POINTS) as real), tariff), 2)
  }

  lemma FixedZeroIff(x: real)
    ensures Fixed(x, 2) == 0.0 <==> Abs(x) < 0.005
  {
    assert Pow10(2) == 10 * Pow10(1) && Pow10(1) == 10 * Pow10(0);
    FixedTimes(x, 2);
    ScaledBounds(x, 2);
  }

  lemma IntegerQuotient(brand: Poller.Brand, load: real, tariff: Tariff)
    ensures Cost(Kwh(load, (PollingInterval(brand) / BASE_POINTS) as real), tariff) == 0.0
  {
    assert PollingInterval(brand) / BASE_POINTS == 0;
    NothingSaved(tariff);
    assert Kwh(load, 0.0) == 0.0;
  }

  /**
   The integer quotient is 0 for every brand, so the savings of today and of this month on the overview
   are always 0; they agree with the period report over the same readings exactly when its exact cost
   is below half a kobo.
   */
  lemma DashboardIsZero(readings: seq<Reading>, brand: Poller.Brand, g: Granularity, tariff: Tariff, hours: real)
    requires RunsFor(tariff, Kwh(SumLoad(readings), HoursPerReading(brand)), hours)
    ensures DashboardSavings(readings, brand, tariff) == 0.0
    ensures DashboardSavings(readings, brand, tariff)
            == ReportOver(readings, g, HoursPerReading(brand), tariff).totals.totalCostSavedNgn
            <==> Abs(Spent(tariff, hours)) < 0.005
  {
    hide Cost, GroupBy, Fixed, FuelSaved, SumLoad, ReportOver, Spent, Burnt, Emitted, RunsFor, Kwh, HoursPerReading,
      PollingInterval, ShownTotals;
    IntegerQuotient(brand, SumLoad(readings), tariff);
    FixedZeroIff(0.0);
    TotalsIgnoreGranularity(readings, g, HoursPerReading(brand), tariff, hours);
    CostShown(ReportOver(readings, g, HoursPerReading(brand), tariff).totals, Kwh(SumLoad(readings), HoursPerReading(brand)),
              Kwh(SumSolar(readings), HoursPerReading(brand)), |HoursOf(readings)|, tariff, hours);
    FixedZeroIff(Spent(tariff, hours));
  }

  lemma CostShown(t: Totals, energyKwh: real, solarKwh: real, activeHours: nat, tariff: Tariff, hours: real)
    requires ShownTotals(t, energyKwh, solarKwh, activeHours, tariff, hours)
    ensures t.totalCostSavedNgn == Fixed(Spent(tariff, hours), 2)
  {
    hide Fixed, Spent, Burnt, Emitted;
  }
}
