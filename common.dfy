/** Shared result types for the well-data extraction core. */
module Common {

  /** A value that may be absent: a dictionary key that is not set, a regex group that did not take part. */
  datatype Option<T> = None | Some(value: T)

  /** The exceptions the core raises, named after what went wrong. */
  datatype Error =
    | MalformedNumber      // Python ValueError from int() or float()
    | MissingDenominator   // Python IndexError: a fraction token without a second '/' part
    | ZeroDivision         // Python ZeroDivisionError: a fraction with denominator 0
    | UnknownPressureUnit  // ValueError raised by UnitConverter.normalize_pressure
    | UnknownTemperatureUnit // ValueError raised by UnitConverter.normalize_temperature

  /** The outcome of an operation that may raise one of the errors above. */
  datatype Result<T> = Ok(value: T) | Err(error: Error)

  /** Python abs() on a real. */
  function Abs(x: real): (r: real)
    ensures r >= 0.0 && (r == x || r == -x)
  {
    if x < 0.0 then -x else x
  }

  /** Python's true division n / d of two integers (the caller has excluded d == 0). */
  function Ratio(n: int, d: int): real
    requires d != 0
  {
    n as real / d as real
  }

  /** The value of an optional entry, or the default when it is absent: Python dict.get(key, default). */
  function Get(o: Option<real>, default: real): real { if o.Some? then o.value else default }
}
