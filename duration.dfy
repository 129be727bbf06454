/** Travel-time estimate and its display: the table of average speeds per
    transport mode, the estimate in minutes, the simulation's timer period,
    and the "hours and minutes" label. */
module Duration {
  import opened Wrappers
  import opened Text

  /** Average speed in km/h per transport mode (`VELOCIDADES`). */
  const Speeds: map<string, real> :=
    map["driving" := 50.0, "walking" := 5.0, "cycling" := 15.0, "motorcycle" := 60.0]

  /** Speed used for a mode missing from the table. */
  const DefaultSpeed: real := 30.0

  /** `VELOCIDADES[mode] || 30` */
  function Speed(mode: string): (kmh: real)
    ensures kmh > 0.0
    ensures mode in Speeds ==> kmh == Speeds[mode]
    ensures mode !in Speeds ==> kmh == DefaultSpeed
  {
    if mode in Speeds then Speeds[mode] else DefaultSpeed
  }

  /** `calcularTiempoEstimado`: minutes needed to cover `meters` at the
      mode's speed. */
  function EstimateMinutes(meters: real, mode: string): (minutes: real)
    ensures minutes * Speed(mode) == meters * 60.0 / 1000.0
    ensures (minutes >= 0.0) == (meters >= 0.0)
  {
    var kmh := Speed(mode);
    var m := (meters / 1000.0) / kmh * 60.0;
    assert m * kmh == meters * 60.0 / 1000.0;
    m
  }

  /** Reading the estimate back at the mode's speed gives the distance:
      kilometres covered in `EstimateMinutes(meters, mode)` minutes. */
  lemma EstimateRoundTrip(meters: real, mode: string)
    ensures Speed(mode) * EstimateMinutes(meters, mode) / 60.0 * 1000.0 == meters
  {
  }

  /** An unknown mode travels at 30 km/h: 10 km take 20 minutes. */
  lemma EstimateUnknownMode(mode: string)
    requires mode !in Speeds
    ensures EstimateMinutes(10000.0, mode) == 20.0
  {
  }

  /** Timer period of the simulation in milliseconds,
      `100 * (50 / speed)`: 100 ms when driving, inversely proportional to the
      speed otherwise. */
  function TickPeriod(mode: string): (ms: real)
    ensures ms > 0.0
    ensures ms * Speed(mode) == 5000.0
  {
    var kmh := Speed(mode);
    var ms := 100.0 * (50.0 / kmh);
    assert ms * kmh == 5000.0;
    ms
  }

  /** JavaScript `Math.floor`. */
  function Floor(x: real): int {
    x.Floor
  }

  /** JavaScript `Math.round`: halves round up. */
  function Round(x: real): (n: int)
    ensures x - 0.5 < n as real <= x + 0.5
  {
    (x + 0.5).Floor
  }

  /** The quotient truncated toward zero: the fraction dropped has the
      sign of `q` and is less than 1 in size. */
  function Truncate(q: real): (t: int)
    ensures q >= 0.0 ==> 0.0 <= q - t as real < 1.0
    ensures q <= 0.0 ==> -1.0 < q - t as real <= 0.0
  {
    if q >= 0.0 then q.Floor else -((-q).Floor)
  }

  /** JavaScript `a % b` on numbers: the remainder takes the sign of `a`
      (the quotient is truncated toward zero). */
  function Remainder(a: real, b: real): (r: real)
    requires b != 0.0
    ensures b > 0.0 && a >= 0.0 ==> 0.0 <= r < b
    ensures b > 0.0 && a <= 0.0 ==> -b < r <= 0.0
    ensures (a - r) / b == ((a - r) / b).Floor as real
  {
    var t := Truncate(a / b);
    RemainderRange(a, b, t);
    WholeQuotient(b, t, a - (a - b * (t as real)));
    a - b * (t as real)
  }

  /** `b` times a whole number, divided by `b`, is that whole number. */
  lemma WholeQuotient(b: real, t: int, x: real)
    requires b != 0.0 && x == b * (t as real)
    ensures x / b == (x / b).Floor as real
  {
    assert x / b == t as real;
  }

  /** Taking `t` whole quotients off `a`, where `t` is `a / b` truncated,
      leaves less than one `b`, with the sign of `a`. */
  lemma RemainderRange(a: real, b: real, t: int)
    requires b != 0.0
    requires a / b >= 0.0 ==> 0.0 <= a / b - t as real < 1.0
    requires a / b <= 0.0 ==> -1.0 < a / b - t as real <= 0.0
    ensures b > 0.0 && a >= 0.0 ==> 0.0 <= a - b * (t as real) < b
    ensures b > 0.0 && a <= 0.0 ==> -b < a - b * (t as real) <= 0.0
  {
    var f := a / b - t as real;
    assert b * (a / b) == a;
    if b > 0.0 {
      SignOfQuotient(a, b);
      ScaledFraction(b, f, a - b * (t as real));
    }
  }

  /** Dividing by a positive number keeps the sign. */
  lemma SignOfQuotient(a: real, b: real)
    requires b > 0.0
    ensures a >= 0.0 ==> a / b >= 0.0
    ensures a <= 0.0 ==> a / b <= 0.0
  {
    assert a / b * b == a;
  }

  /** A fraction `f` of a unit, scaled by a positive `b`, is that fraction
      of `b`. */
  lemma ScaledFraction(b: real, f: real, r: real)
    requires b > 0.0 && r == b * f
    ensures 0.0 <= f < 1.0 ==> 0.0 <= r < b
    ensures -1.0 < f <= 0.0 ==> -b < r <= 0.0
  {
    if 0.0 <= f < 1.0 {
      ProductBelow(b, f, r);
    }
    if -1.0 < f <= 0.0 {
      ProductBelow(b, -f, -r);
    }
  }

  /** `b * f` for `f` in [0, 1) lies in [0, b). */
  lemma ProductBelow(b: real, f: real, r: real)
    requires b > 0.0 && r == b * f && 0.0 <= f < 1.0
    ensures 0.0 <= r < b
  {
    assert b * (1.0 - f) > 0.0;
  }

  /** Whole hours of `formatearTiempo`: `Math.floor(minutes / 60)`. */
  function Hours(minutes: real): int {
    Floor(minutes / 60.0)
  }

  /** Minute part of `formatearTiempo`: `Math.round(minutes % 60)`. */
  function Minutes(minutes: real): int {
    Round(Remainder(minutes, 60.0))
  }

  /** `formatearTiempo`: "Hh Mmin" when there is at least one whole hour,
      "M minutos" otherwise. */
  function FormatDuration(minutes: real): string {
    var h := Hours(minutes);
    var m := Minutes(minutes);
    if h > 0 then IntToString(h) + "h " + IntToString(m) + "min"
    else IntToString(m) + " minutos"
  }

  /** For a non-negative duration the two parts approximate it: whole hours,
      and a minute part in [0, 60] that is within half a minute of the rest.
      The minute part can reach 60 because it is rounded after the hours are
      taken off. */
  lemma HoursAndMinutes(minutes: real)
    requires minutes >= 0.0
    ensures 0 <= Hours(minutes)
    ensures Hours(minutes) as real * 60.0 <= minutes < Hours(minutes) as real * 60.0 + 60.0
    ensures 0 <= Minutes(minutes) <= 60
    ensures -0.5 <= minutes - (Hours(minutes) * 60 + Minutes(minutes)) as real < 0.5
    ensures Hours(minutes) > 0 <==> minutes >= 60.0
  {
    var q := minutes / 60.0;
    var h := q.Floor;
    assert h as real <= q < h as real + 1.0;
    assert Remainder(minutes, 60.0) == minutes - 60.0 * h as real;
  }

  /** The inverse of `FormatDuration` on its two shapes: the hour and minute
      numbers read back from the label, or `None` for text of another shape. */
  function ReadDuration(shown: string): Option<(nat, nat)> {
    if |shown| >= 3 && shown[|shown| - 3..] == "min" then
      var k := IndexOf(shown, 'h');
      if k + 5 <= |shown| && shown[k..k + 2] == "h " && AllDigits(shown[..k])
         && AllDigits(shown[k + 2..|shown| - 3]) then
        Some((DigitsValue(shown[..k]), DigitsValue(shown[k + 2..|shown| - 3])))
      else None
    else if |shown| > 8 && shown[|shown| - 8..] == " minutos" && AllDigits(shown[..|shown| - 8]) then
      Some((0, DigitsValue(shown[..|shown| - 8])))
    else None
  }

  /** The label of a non-negative duration reads back as its hour and minute
      parts: the displayed text determines both numbers. */
  lemma FormatDurationReadsBack(minutes: real)
    requires minutes >= 0.0
    ensures HoursAndMinutesOf(minutes).Some?
    ensures ReadDuration(FormatDuration(minutes)) == HoursAndMinutesOf(minutes)
  {
    HoursAndMinutes(minutes);
    var h, m := Hours(minutes), Minutes(minutes);
    if h > 0 {
      assert FormatDuration(minutes) == NatToString(h) + "h " + NatToString(m) + "min";
      ReadHoursLabel(h, m);
    } else {
      assert FormatDuration(minutes) == NatToString(m) + " minutos";
      ReadMinutesLabel(m);
    }
  }

  /** An "Hh Mmin" label reads back as (H, M). */
  lemma ReadHoursLabel(h: nat, m: nat)
    ensures ReadDuration(NatToString(h) + "h " + NatToString(m) + "min") == Some((h, m))
  {
    NatToStringRoundTrip(h);
    NatToStringRoundTrip(m);
    ReadHoursDigits(NatToString(h), NatToString(m));
  }

  /** Digits, "h ", digits, "min" read back as the two digit values. */
  lemma ReadHoursDigits(hs: string, ms: string)
    requires AllDigits(hs) && AllDigits(ms)
    ensures ReadDuration(hs + "h " + ms + "min") == Some((DigitsValue(hs), DigitsValue(ms)))
  {
    var shown := hs + "h " + ms + "min";
    assert shown[|shown| - 3..] == "min";
    assert 'h' !in hs by {
      forall i | 0 <= i < |hs| ensures hs[i] != 'h' { assert IsDigit(hs[i]); }
    }
    assert shown == hs + ['h'] + (" " + ms + "min");
    IndexOfAfter(hs, 'h', " " + ms + "min");
    assert shown[..|hs|] == hs;
    assert shown[|hs|..|hs| + 2] == "h ";
    assert shown[|hs| + 2..|shown| - 3] == ms;
  }

  /** An "M minutos" label reads back as (0, M). */
  lemma ReadMinutesLabel(m: nat)
    ensures ReadDuration(NatToString(m) + " minutos") == Some((0, m))
  {
    NatToStringRoundTrip(m);
    ReadMinutesDigits(NatToString(m));
  }

  /** Non-empty digits followed by " minutos" read back as (0, value). */
  lemma ReadMinutesDigits(ms: string)
    requires ms != [] && AllDigits(ms)
    ensures ReadDuration(ms + " minutos") == Some((0, DigitsValue(ms)))
  {
    var shown := ms + " minutos";
    assert shown[|shown| - 1] == 's';
    assert shown[..|shown| - 8] == ms;
    assert shown[|shown| - 8..] == " minutos";
  }

  /** The hour and minute parts of a non-negative duration. */
  function HoursAndMinutesOf(minutes: real): Option<(nat, nat)> {
    var h, m := Hours(minutes), Minutes(minutes);
    if h >= 0 && m >= 0 then Some((h, m)) else None
  }

  /** A label shows hours exactly when the duration is at least an hour. */
  lemma FormatDurationShowsHoursIff(minutes: real)
    requires minutes >= 0.0
    ensures 'h' in FormatDuration(minutes) <==> minutes >= 60.0
  {
    HoursAndMinutes(minutes);
    var shown := FormatDuration(minutes);
    var ms := NatToString(Minutes(minutes));
    if Hours(minutes) > 0 {
      assert shown[|NatToString(Hours(minutes))|] == 'h';
    } else {
      assert shown == ms + " minutos";
      forall i | 0 <= i < |shown| ensures shown[i] != 'h' {
        if i < |ms| { assert IsDigit(ms[i]); }
      }
    }
  }

  /** Worked values: 125 min, 45 min and 0 min, and a rounding case where the
      minute part shows 60. */
  lemma FormatDurationExamples()
    ensures FormatDuration(125.0) == "2h 5min"
    ensures FormatDuration(45.0) == "45 minutos"
    ensures FormatDuration(0.0) == "0 minutos"
    ensures FormatDuration(119.7) == "1h 60min"
  {
    assert Hours(125.0) == 2 && Minutes(125.0) == 5;
    assert Hours(45.0) == 0 && Minutes(45.0) == 45;
    assert NatToString(45) == "45";
    assert Hours(119.7) == 1 && Minutes(119.7) == 60;
    assert NatToString(60) == "60";
  }
}
