/** JVM value types and the exception classes the core throws. */
module Jvm {
  import opened Wrappers

  /** `Int.MIN_VALUE`. */
  const Int32Min: int := -0x8000_0000

  /** Kotlin `Int`. */
  type Int32 = x: int | Int32Min <= x < 0x8000_0000

  /** Kotlin `Long`. */
  type Int64 = x: int | -0x8000_0000_0000_0000 <= x < 0x8000_0000_0000_0000

  /** A Kotlin `Double`, carried as its IEEE 754 bit pattern: the core copies such values
      from one record to another and never computes with them. */
  datatype Double = Double(bits: bv64)

  /** `0.0`. */
  const PositiveZero: Double := Double(0)

  /** `Ordered.HIGHEST_PRECEDENCE`, which Spring defines as `Integer.MIN_VALUE`. */
  const HighestPrecedence: Int32 := -0x8000_0000

  /** The exceptions of the core, each with its message. */
  datatype Exception =
    | IllegalArgument(message: string)
      /** `InvalidAirportCodeException`, a subclass of `IllegalArgumentException`. */
    | InvalidAirportCode(message: string)
      /** `WeatherDataNotFoundException`, a `RuntimeException`. */
    | WeatherDataNotFound(message: string)
      /** Any other exception a callee may throw (a failed brochure read, a failure further
          down the advisor chain), by class name, with its message, which may be `null`. */
    | Other(className: string, detail: Option<string>)
  {
    /** Whether a `catch (e: IllegalArgumentException)` would catch it. */
    predicate IsIllegalArgument() {
      IllegalArgument? || InvalidAirportCode?
    }

    /** `"${e.message}"`: the message, with a `null` one rendered as `"null"`. */
    function MessageText(): (s: string)
      ensures !Other? ==> s == message
      ensures Other? && detail.Some? ==> s == detail.value
      ensures Other? && detail.None? ==> s == "null"
    {
      if Other? then detail.GetOr("null") else message
    }
  }
}
