/** What every front end paints in the same way: the three-state score dot
    (its `data-state` attribute) and the days/hours/minutes/seconds countdown. */
module Widgets {
  import opened Strs

  datatype Dot = Red | Yellow | Green

  datatype Clock = Clock(days: nat, hours: nat, minutes: nat, seconds: nat)

  function TotalSeconds(c: Clock): nat {
    c.days * 86400 + c.hours * 3600 + c.minutes * 60 + c.seconds
  }

  predicate InRange(c: Clock) {
    c.hours < 24 && c.minutes < 60 && c.seconds < 60
  }

  /** The clock for a number of whole seconds: days, then the hours, minutes
      and seconds of what remains. */
  function ClockOf(secs: nat): (c: Clock)
    ensures TotalSeconds(c) == secs && InRange(c)
  {
    Clock(secs / 86400, secs % 86400 / 3600, secs % 3600 / 60, secs % 60)
  }

  /** Euclidean division is determined by any quotient and remainder in range. */
  lemma DivUnique(x: int, k: int, q: int, r: int)
    requires 0 < k && 0 <= r < k && x == k * q + r
    ensures x / k == q && x % k == r
  {
    var q' := x / k;
    var r' := x % k;
    assert x == k * q' + r';
    MulDistributes(k, q, q');
    if q > q' {
      MulAtLeast(k, q - q');
    } else if q < q' {
      MulAtLeast(k, q' - q);
      MulDistributes(k, q', q);
    }
  }

  lemma MulDistributes(k: int, a: int, b: int)
    ensures k * a - k * b == k * (a - b)
  {
  }

  lemma MulAtLeast(k: int, a: int)
    requires 0 < k && 1 <= a
    ensures k * a >= k
  {
    assert k * a == k * (a - 1) + k;
    assert k * (a - 1) >= 0;
  }

  /** An in-range clock is the only clock for its number of seconds. */
  lemma ClockUnique(c: Clock)
    requires InRange(c)
    ensures ClockOf(TotalSeconds(c)) == c
  {
    var t := TotalSeconds(c);
    DivUnique(t, 86400, c.days, c.hours * 3600 + c.minutes * 60 + c.seconds);
    DivUnique(t % 86400, 3600, c.hours, c.minutes * 60 + c.seconds);
    DivUnique(t, 3600, c.days * 24 + c.hours, c.minutes * 60 + c.seconds);
    DivUnique(t % 3600, 60, c.minutes, c.seconds);
    DivUnique(t, 60, c.days * 1440 + c.hours * 60 + c.minutes, c.seconds);
  }

  /** The four fields as `String(n).padStart(2, "0")` writes them. */
  function Fields(c: Clock): (r: seq<string>)
    ensures |r| == 4
    ensures FieldShaped(r[0]) && DigitsValue(r[0]) == c.days
    ensures FieldShaped(r[1]) && DigitsValue(r[1]) == c.hours
    ensures FieldShaped(r[2]) && DigitsValue(r[2]) == c.minutes
    ensures FieldShaped(r[3]) && DigitsValue(r[3]) == c.seconds
  {
    [Field(c.days), Field(c.hours), Field(c.minutes), Field(c.seconds)]
  }

  /** At least two decimal digits. */
  predicate FieldShaped(x: string) {
    |x| >= 2 && AllDigits(x)
  }

  /** One field: `String(n).padStart(2, "0")`. */
  function Field(n: nat): (r: string)
    ensures FieldShaped(r) && DigitsValue(r) == n
  {
    PadStart2OfNat(n);
    PadStart2(NatToStr(n))
  }

  /** The whole seconds left, as the schedule page computes it, `Math.max(0, Math.floor((t0 - now) / 1000))`. */
  function SecondsLeft(t0: int, now: int): nat {
    var q := (t0 - now) / 1000;   // Euclidean division by a positive divisor is the floor
    if q < 0 then 0 else q
  }
}
