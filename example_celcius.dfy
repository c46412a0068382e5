/**
 * The Celsius holder of example/celcius.py. Here construction goes through
 * the validating setter, so every holder handed out satisfies the
 * absolute-zero bound and every operation keeps it. Logging is omitted.
 */
module CheckedCelsius {
  import opened Results
  import opened Temperature

  class Celsius {
    /** The stored temperature in degrees Celsius (`_temperature`). */
    var temperature: real

    /** The class invariant: the stored temperature is not below absolute zero. */
    ghost predicate Valid()
      reads this
    {
      Admissible(temperature)
    }

    /**
     * Allocation only. In the source the attribute does not exist until the
     * setter first succeeds; the placeholder 0 is never observed, because
     * `New` hands the object out only after that.
     */
    constructor Allocate()
      ensures Valid()
    {
      temperature := 0.0;
    }

    /**
     * `Celsius(temperature)`: allocates and runs the setter. An initial value
     * strictly below absolute zero raises `ValueError` and no holder results.
     */
    static method New(temperature: real := 0.0) returns (r: Result<Celsius, TemperatureError>)
      ensures r.Failure? <==> temperature < AbsoluteZero
      ensures r.Failure? ==> r.error == ValueError(BelowAbsoluteZeroMessage)
      ensures r.Success? ==> fresh(r.value) && r.value.Valid() && r.value.temperature == temperature
    {
      var c := new Celsius.Allocate();
      var outcome := c.SetTemperature(temperature);
      if outcome.Fail? {
        return Failure(outcome.error);
      }
      return Success(c);
    }

    /** Degrees Fahrenheit of the stored temperature; never below absolute zero Fahrenheit. */
    function ToFahrenheit(): (fahrenheit: real)
      reads this
      ensures CelsiusOf(fahrenheit) == temperature
      ensures Valid() ==> fahrenheit >= AbsoluteZeroFahrenheit
    {
      (temperature * 1.8) + 32.0
    }

    /** The `temperature` property getter: returns the stored value and changes nothing. */
    method GetTemperature() returns (value: real)
      requires Valid()
      ensures value == temperature && Admissible(value)
    {
      value := temperature;
    }

    /**
     * The `temperature` property setter: rejects a value strictly below
     * absolute zero before assigning, otherwise replaces the stored value.
     * Either way the invariant holds afterwards.
     */
    method SetTemperature(value: real) returns (outcome: Outcome<TemperatureError>)
      requires Valid()
      modifies this
      ensures Valid()
      ensures outcome.Fail? <==> value < AbsoluteZero
      ensures outcome.Fail? ==> outcome.error == ValueError(BelowAbsoluteZeroMessage)
      ensures outcome.Fail? ==> temperature == old(temperature)
      ensures outcome.Pass? ==> temperature == value
    {
      if value < AbsoluteZero {
        return Fail(ValueError(BelowAbsoluteZeroMessage));
      }
      temperature := value;
      return Pass;
    }
  }

  /** Fahrenheit is strictly increasing in the stored temperature. */
  lemma ToFahrenheitStrictlyIncreasing(a: Celsius, b: Celsius)
    ensures a.temperature < b.temperature <==> a.ToFahrenheit() < b.ToFahrenheit()
  {
  }

  /** `Celsius()` succeeds with 0 degrees Celsius, which reads as 32 degrees Fahrenheit. */
  method DefaultReading() returns (celsius: real, fahrenheit: real)
    ensures celsius == 0.0 && fahrenheit == 32.0
  {
    var r := Celsius.New();
    var c := r.value;
    celsius := c.GetTemperature();
    fahrenheit := c.ToFahrenheit();
  }

  /** Exactly absolute zero is accepted at construction: the guard is strict. */
  method ConstructAtAbsoluteZero() returns (celsius: real)
    ensures celsius == -273.15
  {
    var r := Celsius.New(-273.15);
    celsius := r.value.GetTemperature();
  }

  /**
   * The entry point's demonstration: `Celsius(37)`, then set to -30
   * (accepted), then `to_fahrenheit()` gives -22. A later set of -300 is
   * rejected and the value -30 stays observable through the getter.
   */
  method Demo() returns (fahrenheit: real, afterRejected: real)
    ensures fahrenheit == -22.0
    ensures afterRejected == -30.0
  {
    var r := Celsius.New(37.0);
    var temp := r.value;
    var outcome := temp.SetTemperature(-30.0);
    fahrenheit := temp.ToFahrenheit();
    outcome := temp.SetTemperature(-300.0);
    afterRejected := temp.GetTemperature();
  }
}
