/** The temperature shown on a choice button (formatTemperature, app.js:228-234). */
module Display {
  import opened JsMath

  datatype Unit = Celsius | Fahrenheit

  /** A displayed temperature: the number and the unit sign printed after it. */
  datatype Reading = Reading(value: int, unit: Unit)

  /** The Fahrenheit reading of an integer Celsius temperature, computed without
      floating point: 9 * c / 5 + 32 == (9 * c + 160) / 5 is never a tie, so the
      nearest integer is (9 * c + 162) / 5 rounded down. */
  function ToFahrenheit(c: int): (f: int)
    ensures -2 <= 9 * c + 160 - 5 * f <= 2
  {
    (9 * c + 162) / 5
  }

  /** ToFahrenheit is what Math.round(temp * 9/5 + 32) yields for an integer temp. */
  lemma {:induction false} FahrenheitIsJsRound(c: int)
    ensures ToFahrenheit(c) == JsRound(9 * c + 160, 5)
  {
    // The bounds of ToFahrenheit put it within one half of (9 * c + 160) / 5.
    JsRoundUnique(9 * c + 160, 5, ToFahrenheit(c));
  }

  /** Distinct Celsius values are shown as distinct Fahrenheit values, in order:
      the unit switch never makes two different choices look alike. */
  lemma FahrenheitStrictlyIncreasing(c1: int, c2: int)
    requires c1 < c2
    ensures ToFahrenheit(c1) < ToFahrenheit(c2)
  {
  }

  /** Four integer conversions, worked out: freezing, a mild day, the point where
      the scales meet, and body temperature. */
  lemma FahrenheitExamples()
    ensures ToFahrenheit(20) == 68 && ToFahrenheit(0) == 32
    ensures ToFahrenheit(-40) == -40 && ToFahrenheit(37) == 99
  {
  }
}
