/**
 * What the two Celsius holders share: the absolute-zero bound, the error the
 * setter raises, and the inverse of the Fahrenheit conversion, against which
 * both `ToFahrenheit` functions are specified.
 *
 * Temperatures are exact reals: the float rounding of `* 1.8 + 32` and of the
 * literal -273.15 is not modelled.
 */
module Temperature {

  /** The lower bound the setter enforces, in degrees Celsius. */
  const AbsoluteZero: real := -273.15

  /** Absolute zero in degrees Fahrenheit. */
  const AbsoluteZeroFahrenheit: real := -459.67

  /** The message of the `ValueError` that the setter raises. */
  const BelowAbsoluteZeroMessage: string := "Temperature below -273 is not possible"

  /** Python's `ValueError`, the only error a Celsius holder raises. */
  datatype TemperatureError = ValueError(message: string)

  /** The setter's guard: a value is accepted unless it lies strictly below absolute zero. */
  predicate Admissible(celsius: real)
  {
    !(celsius < AbsoluteZero)
  }

  /** Fahrenheit back to Celsius: the inverse of `celsius * 1.8 + 32`. */
  function CelsiusOf(fahrenheit: real): (celsius: real)
    ensures celsius * 1.8 + 32.0 == fahrenheit
    ensures fahrenheit < AbsoluteZeroFahrenheit <==> !Admissible(celsius)
  {
    (fahrenheit - 32.0) / 1.8
  }
}
