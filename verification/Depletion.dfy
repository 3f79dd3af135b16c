/**
 The linear battery-depletion estimate (depletion-engine.ts), the severity it fires
 (alert-thresholds.ts), and how the two behave together through the rounding to a hundredth of a
 minute. Measurements are exact reals.
 */
module Depletion {
  import opened Wrappers
  import opened Rounding

  datatype Input = Input(batterySocPercent: real, loadKw: real, batteryCapacityKwh: real, solarGenKw: real)

  datatype Outcome = Outcome(minutesUntilDepletion: Option<real>, isCharging: bool, netDischargeKw: real)

  const MIN_MEANINGFUL_CAPACITY_KWH: real := 0.02

  function Max(a: real, b: real): real { if a < b then b else a }

  function Min(a: real, b: real): real { if a < b then a else b }

  /** Rounded to the nearest hundredth, a half going up. */
  function Hundredths(x: real): real { MathRound(x * 100.0) as real / 100.0 }

  function SafeSoc(i: Input): real { Max(0.0, Min(100.0, i.batterySocPercent)) }

  function SafeCapacity(i: Input): real { Max(0.0, i.batteryCapacityKwh) }

  function NetLoad(i: Input): real { Max(0.0, Max(0.0, i.loadKw) - Max(0.0, i.solarGenKw)) }

  function UsableKwh(i: Input, threshold: real): real { ((SafeSoc(i) - threshold) / 100.0) * SafeCapacity(i) }

  const CHARGING: Outcome := Outcome(None, true, 0.0)

  function CalculateDepletion(i: Input, threshold: real): Outcome {
    var (capacity, net) := (SafeCapacity(i), NetLoad(i));
    if capacity == 0.0 then
      if net <= 0.0 then CHARGING else Outcome(Some(0.0), false, Hundredths(net))
    else if capacity < MIN_MEANINGFUL_CAPACITY_KWH then CHARGING
    else if net <= 0.0 then CHARGING
    else if SafeSoc(i) - threshold <= 0.0 then Outcome(Some(0.0), false, Hundredths(net))
    else
      var hours := UsableKwh(i, threshold) / net;
      Outcome(Some(Hundredths(hours * 60.0)), false, Hundredths(net))
  }

  datatype Severity = WARNING | CRITICAL

  function ShouldFireAlert(minutes: Option<real>, isCharging: bool): Option<Severity> {
    if isCharging || minutes.None? then None
    else if minutes.value <= 0.0 then Some(CRITICAL)
    else if minutes.value < 30.0 then Some(CRITICAL)
    else if minutes.value <= 60.0 then Some(WARNING)
    else None
  }

  function Fired(i: Input, threshold: real): Option<Severity> {
    var r := CalculateDepletion(i, threshold);
    ShouldFireAlert(r.minutesUntilDepletion, r.isCharging)
  }

  function Rank(s: Option<Severity>): nat {
    match s case None => 0 case Some(WARNING) => 1 case Some(CRITICAL) => 2
  }

  // ---- Arithmetic -------------------------------------------------------------------------

  lemma DivideOrder(a: real, b: real, p: real, q: real)
    requires 0.0 <= a <= b && 0.0 < q <= p
    ensures a / p <= b / q
  {
    DivMul(a, p);
    DivMul(b, q);
    var (x, y) := (a / p, b / q);
    if x > y {
      Distribute(x, y, q);
      MulPositive(x - y, q);
      Distribute(p, q, x);
      NonNegative(p - q, x, a, p);
    }
  }

  lemma NonNegative(d: real, x: real, a: real, p: real)
    requires d >= 0.0 && a >= 0.0 && p > 0.0 && x * p == a
    ensures d * x >= 0.0
  {
    if x < 0.0 { MulPositive(-x, p); Distribute(x, 0.0, p); }
    if d > 0.0 && x > 0.0 { MulPositive(d, x); }
  }

  lemma ScaleOrder(a: real, b: real, c: real)
    requires a <= b && c >= 0.0
    ensures a * c <= b * c
  {
    if a < b && c > 0.0 { MulPositive(b - a, c); Distribute(b, a, c); }
  }

  lemma HundredthsOrder(x: real, y: real)
    requires x <= y
    ensures Hundredths(x) <= Hundredths(y)
  {
    FloorOrder(x * 100.0 + 0.5, y * 100.0 + 0.5);
  }

  lemma FloorOrder(a: real, b: real)
    requires a <= b
    ensures a.Floor <= b.Floor
  {
  }

  lemma HundredthsError(x: real)
    ensures -0.005 <= Hundredths(x) - x <= 0.005
  {
  }

  // ---- The estimate, as the battery would discharge -------------------------------------------

  /** Minutes until the threshold at the present net load, before rounding. */
  function ExactMinutes(i: Input, threshold: real): real
    requires NetLoad(i) > 0.0
  {
    UsableKwh(i, threshold) / NetLoad(i) * 60.0
  }

  /** An estimate is made at all: the battery is discharging and its capacity is believable. */
  predicate Discharging(i: Input) {
    NetLoad(i) > 0.0 && (SafeCapacity(i) == 0.0 || SafeCapacity(i) >= MIN_MEANINGFUL_CAPACITY_KWH)
  }

  lemma UsableSign(i: Input, threshold: real)
    ensures SafeCapacity(i) > 0.0 ==> (UsableKwh(i, threshold) > 0.0 <==> SafeSoc(i) > threshold)
    ensures SafeCapacity(i) == 0.0 ==> UsableKwh(i, threshold) == 0.0
  {
    var (u, c) := ((SafeSoc(i) - threshold) / 100.0, SafeCapacity(i));
    if c > 0.0 {
      if u > 0.0 { MulPositive(u, c); } else if u < 0.0 { MulPositive(-u, c); Distribute(u, 0.0, c); }
    }
  }

  lemma ExactSign(usable: real, net: real)
    requires net > 0.0
    ensures usable / net * 60.0 > 0.0 <==> usable > 0.0
  {
    DivMul(usable, net);
    var x := usable / net;
    if x > 0.0 { MulPositive(x, net); } else if x < 0.0 { MulPositive(-x, net); Distribute(x, 0.0, net); }
  }

  /** The reported minutes are the exact ones, never below zero, rounded. */
  lemma ReportedMinutes(i: Input, threshold: real)
    ensures var r := CalculateDepletion(i, threshold);
            if Discharging(i)
            then && !r.isCharging && r.minutesUntilDepletion == Some(Hundredths(Max(0.0, ExactMinutes(i, threshold))))
                 && Abs(r.netDischargeKw - NetLoad(i)) <= 0.005
            else r == CHARGING
  {
    HundredthsError(NetLoad(i));
    hide UsableKwh, SafeSoc, SafeCapacity, NetLoad;
    if Discharging(i) {
      UsableSign(i, threshold);
      ExactSign(UsableKwh(i, threshold), NetLoad(i));
      assert Hundredths(0.0) == 0.0;
    }
  }

  /**
   The severity as a condition on the battery: an alert fires exactly when the battery is discharging
   and reaches the threshold within 60.005 minutes, and it is critical under 29.995.
   */
  lemma FiredWithin(i: Input, threshold: real)
    ensures Fired(i, threshold)
            == if !Discharging(i) || ExactMinutes(i, threshold) >= 60.005 then None
               else if ExactMinutes(i, threshold) < 29.995 then Some(CRITICAL) else Some(WARNING)
  {
    ReportedMinutes(i, threshold);
    hide CalculateDepletion, ExactMinutes, NetLoad, SafeCapacity;
  }

  predicate InRange(i: Input) {
    0.0 <= i.batterySocPercent <= 100.0 && 0.0 <= i.loadKw && 0.0 <= i.batteryCapacityKwh && 0.0 <= i.solarGenKw
  }

  function Nearest(x: real, low: real, high: Option<real>): real {
    if x < low then low else if high.Some? && x > high.value then high.value else x
  }

  /** Readings out of range count as the nearest reading in range. */
  lemma OutOfRangeIsClamped(i: Input, threshold: real)
    ensures var near := Input(Nearest(i.batterySocPercent, 0.0, Some(100.0)), Nearest(i.loadKw, 0.0, None),
                              Nearest(i.batteryCapacityKwh, 0.0, None), Nearest(i.solarGenKw, 0.0, None));
            InRange(near) && CalculateDepletion(i, threshold) == CalculateDepletion(near, threshold)
  {
    var near := Input(Nearest(i.batterySocPercent, 0.0, Some(100.0)), Nearest(i.loadKw, 0.0, None),
                      Nearest(i.batteryCapacityKwh, 0.0, None), Nearest(i.solarGenKw, 0.0, None));
    assert SafeSoc(near) == SafeSoc(i) && SafeCapacity(near) == SafeCapacity(i) && NetLoad(near) == NetLoad(i);
    hide SafeSoc, SafeCapacity, NetLoad, Hundredths;
    assert UsableKwh(near, threshold) == UsableKwh(i, threshold);
  }

  /** The energy above the threshold, in kilowatt-minutes, and the load that the sun does not carry. */
  lemma InRangeMeans(i: Input, threshold: real)
    requires InRange(i)
    ensures NetLoad(i) == if i.loadKw <= i.solarGenKw then 0.0 else i.loadKw - i.solarGenKw
    ensures UsableKwh(i, threshold) * 60.0 == (i.batterySocPercent - threshold) * i.batteryCapacityKwh * 0.6
    ensures SafeCapacity(i) == i.batteryCapacityKwh
  {
    var (u, c) := (i.batterySocPercent - threshold, i.batteryCapacityKwh);
    assert u / 100.0 * c * 60.0 == u * c * 0.6;
  }

  lemma MinutesCompare(usable: real, net: real, bound: real)
    requires net > 0.0
    ensures usable / net * 60.0 >= bound <==> usable * 60.0 >= bound * net
  {
    DivMul(usable, net);
    var minutes := usable / net * 60.0;
    assert minutes * net == usable * 60.0;
    if minutes >= bound { ScaleOrder(bound, minutes, net); } else { MulPositive(bound - minutes, net); Distribute(bound, minutes, net); }
  }

  /**
   When an alert fires, from the readings themselves: the load exceeds the sun, the capacity is believable,
   and the energy above the threshold lasts less than 60.005 minutes; CRITICAL under 29.995.
   */
  lemma FiresIff(i: Input, threshold: real)
    requires InRange(i)
    ensures var (net, energy) := (i.loadKw - i.solarGenKw, (i.batterySocPercent - threshold) * i.batteryCapacityKwh * 0.6);
            Fired(i, threshold)
            == if net <= 0.0 || 0.0 < i.batteryCapacityKwh < 0.02 || energy >= 60.005 * net then None
               else if energy < 29.995 * net then Some(CRITICAL) else Some(WARNING)
  {
    FiredWithin(i, threshold);
    InRangeMeans(i, threshold);
    if NetLoad(i) > 0.0 {
      MinutesCompare(UsableKwh(i, threshold), NetLoad(i), 60.005);
      MinutesCompare(UsableKwh(i, threshold), NetLoad(i), 29.995);
    }
    hide Fired, UsableKwh, NetLoad, SafeCapacity;
  }

  // ---- Monotonicity -----------------------------------------------------------------------------

  /** `b` is no better than `a`: no more charge or sun, no less load. Capacity is compared apart. */
  predicate NoBetter(a: Input, b: Input) {
    && b.batterySocPercent <= a.batterySocPercent
    && b.solarGenKw <= a.solarGenKw
    && b.loadKw >= a.loadKw
  }

  lemma UsableOrder(a: Input, b: Input, ta: real, tb: real)
    requires NoBetter(a, b) && ta <= tb && SafeCapacity(b) <= SafeCapacity(a)
    ensures Max(0.0, UsableKwh(b, tb)) <= Max(0.0, UsableKwh(a, ta))
  {
    var (ua, ub) := ((SafeSoc(a) - ta) / 100.0, (SafeSoc(b) - tb) / 100.0);
    var (ca, cb) := (SafeCapacity(a), SafeCapacity(b));
    assert ub <= ua && 0.0 <= cb;
    hide SafeSoc, SafeCapacity;
    if ub > 0.0 { ProductOrder(ub, ua, cb, ca); } else { ScaleOrder(ub, 0.0, cb); }
  }

  lemma ProductOrder(u: real, v: real, c: real, d: real)
    requires 0.0 <= u <= v && 0.0 <= c <= d
    ensures u * c <= v * d
  {
    ScaleOrder(u, v, c);
    ScaleOrder(c, d, v);
    assert v * c == c * v && v * d == d * v;
  }

  lemma MaxOfExact(usable: real, net: real)
    requires net > 0.0
    ensures Max(0.0, usable / net * 60.0) == Max(0.0, usable) / net * 60.0
  {
    ExactSign(usable, net);
    assert 0.0 / net == 0.0;
  }

  lemma MinutesOrder(a: Input, b: Input, ta: real, tb: real)
    requires NoBetter(a, b) && ta <= tb && SafeCapacity(b) <= SafeCapacity(a) && NetLoad(a) > 0.0
    ensures NetLoad(b) > 0.0 && Max(0.0, ExactMinutes(b, tb)) <= Max(0.0, ExactMinutes(a, ta))
  {
    assert NetLoad(a) <= NetLoad(b);
    UsableOrder(a, b, ta, tb);
    hide UsableKwh, NetLoad;
    MaxOfExact(UsableKwh(a, ta), NetLoad(a));
    MaxOfExact(UsableKwh(b, tb), NetLoad(b));
    DivideOrder(Max(0.0, UsableKwh(b, tb)), Max(0.0, UsableKwh(a, ta)), NetLoad(b), NetLoad(a));
  }

  lemma RankOrder(a: Input, b: Input, ta: real, tb: real)
    requires NoBetter(a, b) && ta <= tb && SafeCapacity(b) <= SafeCapacity(a)
    requires Discharging(a) ==> Discharging(b)
    ensures Rank(Fired(a, ta)) <= Rank(Fired(b, tb))
  {
    FiredWithin(a, ta);
    FiredWithin(b, tb);
    if Discharging(a) { MinutesOrder(a, b, ta, tb); }
    hide Fired, ExactMinutes, Discharging;
  }

  /** At a fixed capacity, less charge or sun, or more load or threshold, never lowers the severity. */
  lemma WorseNeverLowersSeverity(a: Input, b: Input, ta: real, tb: real)
    requires NoBetter(a, b) && ta <= tb && b.batteryCapacityKwh == a.batteryCapacityKwh
    ensures Rank(Fired(a, ta)) <= Rank(Fired(b, tb))
  {
    RankOrder(a, b, ta, tb);
  }

  /** Lowering the capacity alone from `c` to `d` keeps or raises every severity. */
  ghost predicate SafeToLower(c: real, d: real) {
    forall i: Input, threshold: real ::
      Rank(Fired(i.(batteryCapacityKwh := c), threshold)) <= Rank(Fired(i.(batteryCapacityKwh := d), threshold))
  }

  /**
   Lowering capacity is monotone too, except into the range that the code takes for a misconfigured
   record: there an alert that was firing goes silent.
   */
  lemma CapacityMonotoneIff(c: real, d: real)
    requires d <= c
    ensures SafeToLower(c, d) <==> !(c >= 0.02 && 0.0 < d < 0.02)
  {
    if c >= MIN_MEANINGFUL_CAPACITY_KWH && 0.0 < d < MIN_MEANINGFUL_CAPACITY_KWH {
      var i := Input(0.0, 1.0, c, 0.0);
      assert Fired(i.(batteryCapacityKwh := c), 10.0) == Some(CRITICAL);
      assert Fired(i.(batteryCapacityKwh := d), 10.0) == None;
      assert !SafeToLower(c, d);
    } else {
      forall i: Input, threshold: real
        ensures Rank(Fired(i.(batteryCapacityKwh := c), threshold)) <= Rank(Fired(i.(batteryCapacityKwh := d), threshold))
      {
        RankOrder(i.(batteryCapacityKwh := c), i.(batteryCapacityKwh := d), threshold, threshold);
      }
    }
  }

  /** The time to empty shown beside an alert is never shorter than the time to the threshold. */
  lemma EmptyIsNoSooner(i: Input, threshold: real)
    requires threshold >= 0.0
    ensures var (r, empty) := (CalculateDepletion(i, threshold), CalculateDepletion(i, 0.0));
            && r.minutesUntilDepletion.Some? == empty.minutesUntilDepletion.Some?
            && (r.minutesUntilDepletion.Some? ==> r.minutesUntilDepletion.value <= empty.minutesUntilDepletion.value)
  {
    ReportedMinutes(i, threshold);
    ReportedMinutes(i, 0.0);
    if Discharging(i) {
      MinutesOrder(i, i, 0.0, threshold);
      hide ExactMinutes, CalculateDepletion, NetLoad, Discharging;
      HundredthsOrder(Max(0.0, ExactMinutes(i, threshold)), Max(0.0, ExactMinutes(i, 0.0)));
    }
  }

  /** Discharging at the net load for the reported minutes draws the usable energy, give or take 0.005 minute. */
  lemma MinutesMatchEnergy(i: Input, threshold: real)
    requires CalculateDepletion(i, threshold).minutesUntilDepletion.Some?
    ensures var drawn := CalculateDepletion(i, threshold).minutesUntilDepletion.value * NetLoad(i);
            var usable := 60.0 * Max(0.0, UsableKwh(i, threshold));
            usable - 0.005 * NetLoad(i) <= drawn <= usable + 0.005 * NetLoad(i)
  {
    ReportedMinutes(i, threshold);
    var (net, usable) := (NetLoad(i), UsableKwh(i, threshold));
    MaxOfExact(usable, net);
    var exact := Max(0.0, ExactMinutes(i, threshold));
    HundredthsError(exact);
    hide CalculateDepletion, UsableKwh, NetLoad, Hundredths;
    EnergyWithin(Max(0.0, usable), net, Max(0.0, usable) / net, Hundredths(exact));
  }

  lemma EnergyWithin(usable: real, net: real, hours: real, reported: real)
    requires net > 0.0 && hours * net == usable && -0.005 <= reported - hours * 60.0 <= 0.005
    ensures 60.0 * usable - 0.005 * net <= reported * net <= 60.0 * usable + 0.005 * net
  {
    ScaleOrder(reported, hours * 60.0 + 0.005, net);
    ScaleOrder(hours * 60.0 - 0.005, reported, net);
    assert (hours * 60.0) * net == 60.0 * (hours * net);
  }

  /** The same from the readings themselves: the load that the sun does not carry, and kilowatt-minutes above the threshold. */
  lemma MinutesDraw(i: Input, threshold: real)
    requires InRange(i) && CalculateDepletion(i, threshold).minutesUntilDepletion.Some?
    ensures var (net, energy) := (i.loadKw - i.solarGenKw, (i.batterySocPercent - threshold) * i.batteryCapacityKwh * 0.6);
            var drawn := CalculateDepletion(i, threshold).minutesUntilDepletion.value * net;
            net > 0.0 && Max(0.0, energy) - 0.005 * net <= drawn <= Max(0.0, energy) + 0.005 * net
  {
    ReportedMinutes(i, threshold);
    MinutesMatchEnergy(i, threshold);
    InRangeMeans(i, threshold);
    hide CalculateDepletion, UsableKwh, NetLoad, SafeCapacity;
    assert 60.0 * Max(0.0, UsableKwh(i, threshold)) == Max(0.0, UsableKwh(i, threshold) * 60.0);
  }
}
