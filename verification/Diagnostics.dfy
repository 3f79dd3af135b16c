/**
 The diagnostics text that the mock inverter server prints (routes/victron.ts) and the adapters read
 back (victron.adapters.ts, sandbox.adapter.ts): fixed-point decimals followed by a unit.
 Number-to-text is section 15.7.4.5 of ECMA-262, edition 5.1, and text-to-number section 15.1.2.3,
 on exact reals.
 */
module Diagnostics {
  import opened Wrappers
  import opened Rounding
  import opened Digits

  // ---- Printing -------------------------------------------------------------------------

  /** Below this magnitude toFixed prints a plain decimal; device readings are far below it. */
  const LIMIT: real := 1_000_000_000_000_000_000_000.0

  type Reading = x: real | -LIMIT < x < LIMIT

  /** Digits with a point `decimals` from the right. */
  function Pointed(m: string, decimals: nat): string
    requires |m| > decimals
  {
    var whole := |m| - decimals;
    m[..whole] + if decimals == 0 then "" else "." + m[whole..]
  }

  /** The text of |x| to that many decimals. */
  function Unsigned(x: Reading, decimals: nat): string {
    Pointed(Padded(Decimal(Scaled(x, decimals)), decimals + 1), decimals)
  }

  function ToFixed(x: Reading, decimals: nat): string {
    if x < 0.0 then "-" + Unsigned(x, decimals) else Unsigned(x, decimals)
  }

  datatype Record = Record(code: string, formattedValue: string)

  datatype Device = Device(
    batterySoc: Reading, batteryVoltageV: Reading, batteryCurrentA: Reading, batteryTemperatureC: Reading,
    batteryTimeToGoMin: Reading, solarPowerKw: Reading, acOutputPowerKw: Reading, gridVoltageV: Reading,
    gridFrequencyHz: Reading, inverterTemperatureC: Reading, inverterStatus: string)

  function Records(d: Device): seq<Record> {
    [ Record("bs", ToFixed(d.batterySoc, 1) + "%"),
      Record("bv", ToFixed(d.batteryVoltageV, 2) + "V"),
      Record("Bc", ToFixed(d.batteryCurrentA, 1) + "A"),
      Record("Tb", ToFixed(d.batteryTemperatureC, 1) + "\U{00B0}C"),
      Record("Ttg", ToFixed(d.batteryTimeToGoMin, 0) + "min"),
      Record("Pdc", ToFixed(d.solarPowerKw, 2) + "kW"),
      Record("Pac", ToFixed(d.acOutputPowerKw, 2) + "kW"),
      Record("Gv", ToFixed(d.gridVoltageV, 1) + "V"),
      Record("Gf", ToFixed(d.gridFrequencyHz, 2) + "Hz"),
      Record("Ti", ToFixed(d.inverterTemperatureC, 1) + "\U{00B0}C"),
      Record("S", d.inverterStatus) ]
  }

  // ---- Reading --------------------------------------------------------------------------

  predicate Numeric(c: char) { IsDigit(c) || c == '.' || c == '-' }

  predicate AllNumeric(s: string) { forall i :: 0 <= i < |s| ==> Numeric(s[i]) }

  predicate NoNumeric(s: string) { forall i :: 0 <= i < |s| ==> !Numeric(s[i]) }

  /** The digits, points and hyphens of a text, and nothing else of it. */
  function Strip(s: string): string {
    if s == "" then "" else (if Numeric(s[0]) then [s[0]] else "") + Strip(s[1..])
  }

  /** The length of the run of digits that `s` begins with. */
  function DigitRun(s: string): (k: nat)
    ensures k <= |s| && AllDigits(s[..k]) && (k < |s| ==> !IsDigit(s[k]))
  {
    if s == "" || !IsDigit(s[0]) then 0 else
    var k := DigitRun(s[1..]);
    assert s[..k + 1] == [s[0]] + s[1..][..k];
    k + 1
  }

  function Magnitude(whole: string, fraction: string): real
    requires AllDigits(whole) && AllDigits(fraction)
  {
    Ratio(ValueOf(whole + fraction), |fraction|)
  }

  /** The longest unsigned decimal that `s` begins with; None when there is none. */
  function ParseUnsigned(s: string): Option<real> {
    var k := DigitRun(s);
    var rest := s[k..];
    if rest != "" && rest[0] == '.' then
      var j := DigitRun(rest[1..]);
      if k + j == 0 then None else Some(Magnitude(s[..k], rest[1..][..j]))
    else if k == 0 then None else Some(Magnitude(s[..k], ""))
  }

  /** parseFloat on text of digits, points and hyphens; None is NaN. */
  function ParseFloat(s: string): Option<real> {
    if s != "" && s[0] == '-' then
      var m := ParseUnsigned(s[1..]);
      if m.None? then None else Some(-m.value)
    else ParseUnsigned(s)
  }

  function Find(records: seq<Record>, code: string): Option<Record> {
    if records == [] then None else if records[0].code == code then Some(records[0]) else Find(records[1..], code)
  }

  function GetFloat(records: seq<Record>, code: string): Option<real> {
    var attr := Find(records, code);
    if attr.None? || attr.value.formattedValue == "" then None else ParseFloat(Strip(attr.value.formattedValue))
  }

  function GetString(records: seq<Record>, code: string): Option<string> {
    var attr := Find(records, code);
    if attr.None? then None else Some(attr.value.formattedValue)
  }

  datatype Brand = VICTRON | SANDBOX

  datatype Metric = Metric(
    brand: Brand, inverterStatus: string,
    solarPowerKw: Option<real>, acOutputPowerKw: Option<real>, gridVoltageV: Option<real>, gridFrequencyHz: Option<real>,
    batterySoc: Option<real>, batteryVoltageV: Option<real>, batteryCurrentA: Option<real>,
    batteryTemperatureC: Option<real>, batteryTimeToGoMin: Option<real>, inverterTemperatureC: Option<real>)

  /** The body of both adapters' fetchMetrics once the response has arrived. */
  function FetchMetrics(brand: Brand, records: seq<Record>): Metric {
    var status := GetString(records, "S");
    Metric(brand, if status.Some? then status.value else "unknown",
           GetFloat(records, "Pdc"), GetFloat(records, "Pac"), GetFloat(records, "Gv"), GetFloat(records, "Gf"),
           GetFloat(records, "bs"), GetFloat(records, "bv"), GetFloat(records, "Bc"),
           GetFloat(records, "Tb"), GetFloat(records, "Ttg"), GetFloat(records, "Ti"))
  }

  // ---- Round trip of one value ------------------------------------------------------------

  lemma StripFirst(c: char, s: string)
    ensures Strip([c] + s) == (if Numeric(c) then [c] else "") + Strip(s)
  {
    hide Numeric;
    assert ([c] + s)[1..] == s;
  }

  lemma {:induction false} StripAppend(a: string, b: string)
    ensures Strip(a + b) == Strip(a) + Strip(b)
  {
    if a == "" {
      assert a + b == b;
      assert Strip(a) == "";
    } else {
      StripAppend(a[1..], b);
      StripFirst(a[0], a[1..] + b);
      StripFirst(a[0], a[1..]);
      hide Strip, Numeric;
      assert [a[0]] + (a[1..] + b) == a + b;
      assert [a[0]] + a[1..] == a;
    }
  }

  lemma {:induction false} StripNumeric(s: string)
    requires AllNumeric(s)
    ensures Strip(s) == s
  {
    if s != "" { StripNumeric(s[1..]); }
  }

  lemma {:induction false} StripUnit(s: string)
    requires NoNumeric(s)
    ensures Strip(s) == ""
  {
    if s != "" { StripUnit(s[1..]); }
  }

  lemma {:induction false} RunOfDigits(a: string, b: string)
    requires AllDigits(a) && (b == "" || !IsDigit(b[0]))
    ensures DigitRun(a + b) == |a|
  {
    if a == "" {
      assert a + b == b;
    } else {
      assert (a + b)[1..] == a[1..] + b;
      RunOfDigits(a[1..], b);
    }
  }

  lemma WholeReadsBack(m: string)
    requires AllDigits(m) && |m| > 0
    ensures ParseUnsigned(m) == Some(Ratio(ValueOf(m), 0))
  {
    hide ValueOf, Ratio;
    RunOfDigits(m, "");
    assert m + "" == m && m[..|m|] == m && m[|m|..] == "";
  }

  lemma FractionReadsBack(a: string, b: string)
    requires AllDigits(a) && AllDigits(b) && |a| > 0
    ensures ParseUnsigned(a + "." + b) == Some(Ratio(ValueOf(a + b), |b|))
  {
    hide ValueOf, Ratio, DigitRun;
    var s := a + "." + b;
    RunOfDigits(a, "." + b);
    assert a + ("." + b) == s;
    assert s[..|a|] == a && s[|a|..] == "." + b && ("." + b)[1..] == b;
    RunOfDigits(b, "");
    assert b + "" == b && b[..|b|] == b;
  }

  /** Reading back digits with the point placed `decimals` from the right. */
  lemma PointPlaced(m: string, decimals: nat)
    requires AllDigits(m) && |m| > decimals
    ensures ParseUnsigned(Pointed(m, decimals)) == Some(Ratio(ValueOf(m), decimals))
  {
    hide ValueOf, Ratio, ParseUnsigned;
    if decimals == 0 {
      assert m[..|m|] + "" == m;
      WholeReadsBack(m);
    } else {
      PointBetween(m, |m| - decimals);
    }
  }

  lemma PointBetween(m: string, whole: nat)
    requires AllDigits(m) && 0 < whole < |m|
    ensures ParseUnsigned(m[..whole] + ("." + m[whole..])) == Some(Ratio(ValueOf(m), |m| - whole))
  {
    hide ValueOf, Ratio, ParseUnsigned;
    var (a, b) := (m[..whole], m[whole..]);
    FractionReadsBack(a, b);
    assert a + ("." + b) == a + "." + b;
    assert a + b == m;
  }

  lemma PointedShape(m: string, decimals: nat)
    requires AllDigits(m) && |m| > decimals
    ensures var text := Pointed(m, decimals); text != "" && IsDigit(text[0]) && AllNumeric(text)
  {
  }

  lemma StripUnitted(text: string, unit: string)
    requires AllNumeric(text)
    requires NoNumeric(unit)
    ensures Strip(text + unit) == text
  {
    StripAppend(text, unit);
    StripNumeric(text);
    StripUnit(unit);
  }

  lemma UnsignedReadsBack(x: Reading, decimals: nat)
    ensures var text := Unsigned(x, decimals);
            && text != "" && IsDigit(text[0]) && AllNumeric(text)
            && ParseUnsigned(text) == Some(Ratio(Scaled(x, decimals), decimals))
  {
    hide Scaled, Decimal, Ratio, ParseUnsigned, Pointed, ValueOf, Padded, AllNumeric;
    var m := Padded(Decimal(Scaled(x, decimals)), decimals + 1);
    PointedShape(m, decimals);
    PointPlaced(m, decimals);
    PaddedValue(Scaled(x, decimals), decimals + 1);
  }

  lemma MinusReadsBack(text: string, v: real)
    requires ParseUnsigned(text) == Some(v) && AllNumeric(text)
    ensures ParseFloat("-" + text) == Some(-v) && AllNumeric("-" + text)
  {
    hide ParseUnsigned;
    assert ("-" + text)[1..] == text;
  }

  lemma PlainReadsBack(text: string, v: real)
    requires ParseUnsigned(text) == Some(v) && text != "" && IsDigit(text[0])
    ensures ParseFloat(text) == Some(v)
  {
  }

  lemma ParseFixed(x: Reading, decimals: nat)
    ensures ParseFloat(ToFixed(x, decimals)) == Some(Fixed(x, decimals)) && AllNumeric(ToFixed(x, decimals))
  {
    hide Scaled, Ratio, ParseUnsigned, ParseFloat, Unsigned, AllNumeric;
    UnsignedReadsBack(x, decimals);
    if x < 0.0 {
      MinusReadsBack(Unsigned(x, decimals), Ratio(Scaled(x, decimals), decimals));
    } else {
      PlainReadsBack(Unsigned(x, decimals), Ratio(Scaled(x, decimals), decimals));
    }
  }

  /** One printed value, with its unit, reads back as the value rounded to the printed decimals. */
  lemma ToFixedReadsBack(x: Reading, decimals: nat, unit: string)
    requires NoNumeric(unit)
    ensures ToFixed(x, decimals) + unit != ""
    ensures ParseFloat(Strip(ToFixed(x, decimals) + unit)) == Some(Fixed(x, decimals))
  {
    ParseFixed(x, decimals);
    StripUnitted(ToFixed(x, decimals), unit);
    hide ToFixed, Fixed, Strip, AllNumeric, NoNumeric;
    assert ParseFloat("") == None;
  }

  // ---- Round trip of the array ------------------------------------------------------------

  lemma {:induction false} FindAt(records: seq<Record>, k: nat)
    requires k < |records| && forall i :: 0 <= i < k ==> records[i].code != records[k].code
    ensures Find(records, records[k].code) == Some(records[k])
  {
    if k > 0 { FindAt(records[1..], k - 1); }
  }

  const CODES: seq<string> := ["bs", "bv", "Bc", "Tb", "Ttg", "Pdc", "Pac", "Gv", "Gf", "Ti", "S"]

  lemma CodesDistinct(i: nat, j: nat)
    requires i < j < |CODES|
    ensures CODES[i] != CODES[j]
  {
  }

  lemma FindCode(d: Device, k: nat)
    requires k < |CODES|
    ensures Find(Records(d), CODES[k]) == Some(Records(d)[k])
  {
    hide ToFixed;
    var records := Records(d);
    assert forall i :: 0 <= i < |CODES| ==> records[i].code == CODES[i];
    forall i | 0 <= i < k ensures records[i].code != records[k].code { CodesDistinct(i, k); }
    FindAt(records, k);
  }

  lemma ReadField(d: Device, k: nat, x: Reading, decimals: nat, unit: string)
    requires k < |CODES| && NoNumeric(unit)
    ensures Records(d)[k].formattedValue == ToFixed(x, decimals) + unit ==>
              GetFloat(Records(d), CODES[k]) == Some(Fixed(x, decimals))
  {
    hide ToFixed, ParseFloat, Fixed;
    FindCode(d, k);
    ToFixedReadsBack(x, decimals, unit);
  }

  /** Either adapter recovers every field, rounded to its printed decimals, and the status unchanged. */
  lemma AdapterReadsBack(brand: Brand, d: Device)
    ensures FetchMetrics(brand, Records(d))
            == Metric(brand, d.inverterStatus,
                      Some(Fixed(d.solarPowerKw, 2)), Some(Fixed(d.acOutputPowerKw, 2)),
                      Some(Fixed(d.gridVoltageV, 1)), Some(Fixed(d.gridFrequencyHz, 2)),
                      Some(Fixed(d.batterySoc, 1)), Some(Fixed(d.batteryVoltageV, 2)), Some(Fixed(d.batteryCurrentA, 1)),
                      Some(Fixed(d.batteryTemperatureC, 1)), Some(Fixed(d.batteryTimeToGoMin, 0)),
                      Some(Fixed(d.inverterTemperatureC, 1)))
  {
    hide ToFixed, Fixed, GetFloat;
    ReadField(d, 0, d.batterySoc, 1, "%");
    ReadField(d, 1, d.batteryVoltageV, 2, "V");
    ReadField(d, 2, d.batteryCurrentA, 1, "A");
    ReadField(d, 3, d.batteryTemperatureC, 1, "\U{00B0}C");
    ReadField(d, 4, d.batteryTimeToGoMin, 0, "min");
    ReadField(d, 5, d.solarPowerKw, 2, "kW");
    ReadField(d, 6, d.acOutputPowerKw, 2, "kW");
    ReadField(d, 7, d.gridVoltageV, 1, "V");
    ReadField(d, 8, d.gridFrequencyHz, 2, "Hz");
    ReadField(d, 9, d.inverterTemperatureC, 1, "\U{00B0}C");
    FindCode(d, 10);
  }
}
