/**
 Celsius/Fahrenheit conversion of the headline temperature. The component
 uses binary floating point; the model uses exact reals, so the two
 conversions are exact inverses.
 */
module Units {

  /** Celsius to Fahrenheit; its inverse is `ToCelsius`. */
  function ToFahrenheit(celsius: real): (fahrenheit: real)
    ensures ToCelsius(fahrenheit) == celsius
  {
    celsius * 9.0 / 5.0 + 32.0
  }

  /** Fahrenheit to Celsius; converting its result back gives the given Fahrenheit value. */
  function ToCelsius(fahrenheit: real): (celsius: real)
    ensures celsius * 9.0 / 5.0 + 32.0 == fahrenheit
  {
    (fahrenheit - 32.0) * 5.0 / 9.0
  }

  /** Converting to Fahrenheit and back gives the original Celsius value. */
  lemma CelsiusRoundTrip(celsius: real)
    ensures ToCelsius(ToFahrenheit(celsius)) == celsius
  {
  }

  /** Converting to Celsius and back gives the original Fahrenheit value. */
  lemma FahrenheitRoundTrip(fahrenheit: real)
    ensures ToFahrenheit(ToCelsius(fahrenheit)) == fahrenheit
  {
  }

  /** Both conversions preserve the order of temperatures, in both directions. */
  lemma ConversionsPreserveOrder(a: real, b: real)
    ensures a < b <==> ToFahrenheit(a) < ToFahrenheit(b)
    ensures a < b <==> ToCelsius(a) < ToCelsius(b)
  {
  }

  /** Water freezes at 0 C = 32 F and boils at 100 C = 212 F; -40 is the only common value. */
  lemma ConversionReferencePoints(t: real)
    ensures ToFahrenheit(0.0) == 32.0 && ToFahrenheit(100.0) == 212.0
    ensures ToFahrenheit(t) == t <==> t == -40.0
    ensures ToCelsius(t) == t <==> t == -40.0
  {
  }
}
