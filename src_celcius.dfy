/**
 * The Celsius holder of src/example/celcius.py. Its setter rejects values
 * strictly below absolute zero, but its constructor stores the initial value
 * directly, so the absolute-zero bound is NOT an invariant of this class.
 * Logging in the getter and setter is a diagnostic side channel and is omitted.
 */
module UncheckedCelsius {
  import opened Results
  import opened Temperature

  class Celsius {
    /** The stored temperature in degrees Celsius (`_temperature`). */
    var temperature: real

    /** Stores the initial value as given, without the setter's check. */
    constructor (temperature: real := 0.0)
      ensures this.temperature == temperature
    {
      this.temperature := temperature;
    }

    /** Degrees Fahrenheit of the stored temperature; reads the state only. */
    function ToFahrenheit(): (fahrenheit: real)
      reads this
      ensures CelsiusOf(fahrenheit) == temperature
      ensures fahrenheit < AbsoluteZeroFahrenheit <==> !Admissible(temperature)
    {
      (temperature * 1.8) + 32.0
    }

    /** The `temperature` property getter: returns the stored value and changes nothing. */
    method GetTemperature() returns (value: real)
      ensures value == temperature
    {
      value := temperature;
    }

    /**
     * The `temperature` property setter. A value strictly below absolute zero
     * is rejected with `ValueError` before anything is assigned; any other
     * value, -273.15 included, replaces the stored one.
     */
    method SetTemperature(value: real) returns (outcome: Outcome<TemperatureError>)
      modifies this
      ensures outcome.Fail? <==> value < AbsoluteZero
      ensures outcome.Fail? ==> outcome.error == ValueError(BelowAbsoluteZeroMessage)
      ensures outcome.Fail? ==> temperature == old(temperature)
      ensures outcome.Pass? ==> temperature == value
    {
      if value < AbsoluteZero {
        return Fail(ValueError(BelowAbsoluteZeroMessage));
      }
      temperature := value;
      return Pass;
    }
  }

  /** Fahrenheit is strictly increasing in the stored temperature. */
  lemma ToFahrenheitStrictlyIncreasing(a: Celsius, b: Celsius)
    ensures a.temperature < b.temperature <==> a.ToFahrenheit() < b.ToFahrenheit()
  {
  }

  /** A default holder stores 0 degrees Celsius, which reads as 32 degrees Fahrenheit. */
  method DefaultReading() returns (celsius: real, fahrenheit: real)
    ensures celsius == 0.0 && fahrenheit == 32.0
  {
    var c := new Celsius();
    celsius := c.GetTemperature();
    fahrenheit := c.ToFahrenheit();
  }

  /**
   * The constructor's loophole: `Celsius(-300)` is accepted and yields a
   * holder whose temperature lies below absolute zero, a value the setter
   * would have refused.
   */
  method ConstructBelowAbsoluteZero() returns (celsius: real, rejectedBySetter: bool)
    ensures celsius == -300.0 && !Admissible(celsius)
    ensures rejectedBySetter
  {
    var c := new Celsius(-300.0);
    celsius := c.GetTemperature();
    var probe := new Celsius();
    var outcome := probe.SetTemperature(-300.0);
    rejectedBySetter := outcome.Fail?;
  }

  /**
   * The module's demonstration: `Celsius(37)`, then set to -30 (accepted),
   * then `to_fahrenheit()` gives -22. A rejected set of -300 afterwards
   * leaves the reading unchanged.
   */
  method Demo() returns (fahrenheit: real, afterRejected: real)
    ensures fahrenheit == -22.0
    ensures afterRejected == -22.0
  {
    var temp := new Celsius(37.0);
    var outcome := temp.SetTemperature(-30.0);
    fahrenheit := temp.ToFahrenheit();
    outcome := temp.SetTemperature(-300.0);
    afterRejected := temp.ToFahrenheit();
  }
}
