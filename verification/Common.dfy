/** Shared vocabulary: optional values, coded errors (errors.go), set sizes and Go's fixed-width time arithmetic. */
module Common {

  datatype Option<+T> = None | Some(value: T)

  /** The stable error categories of errors.go. */
  datatype Code =
    | InvalidConfiguration
    | InvalidMessage
    | InvalidURL
    | UnsafeDestination
    | BodyTooLarge
    | InvalidSignature
    | ExpiredSignature
    | ReplayCode
    | UnknownEvent
    | DecodeFailed
    | HandlerFailed
    | TransportFailed
    | ResponseRead
    | Persistence
    | Conflict
    | Internal
    | CustomCode(text: string)

  datatype Result<+T> = Ok(value: T) | Err(code: Code)
}

module Sets {

  lemma {:induction false} SubsetIsSmaller<K>(a: set<K>, b: set<K>)
    requires a <= b
    ensures |a| <= |b|
  {
    if a != {} {
      var x :| x in a;
      SubsetIsSmaller(a - {x}, b - {x});
    }
  }
}

module GoTime {

  /** Go's int64, which is also time.Duration in nanoseconds. */
  type int64 = x: int | MIN_INT64 <= x <= MAX_INT64

  type Duration = int64

  /** An instant: nanoseconds since Go's zero time, so `0` is the instant for which IsZero holds. */
  type Time = int

  const MIN_INT64: int := -0x8000_0000_0000_0000
  const MAX_INT64: int := 0x7fff_ffff_ffff_ffff

  const MILLISECOND: Duration := 1_000_000
  const SECOND: Duration := 1_000_000_000
  const MINUTE: Duration := 60_000_000_000
  const HOUR: Duration := 3_600_000_000_000

  /** Two's complement wrap-around of the sum or difference of two 64-bit integers. */
  function Wrap64(x: int): int64
    requires 2 * MIN_INT64 <= x <= 2 * MAX_INT64 + 1
  {
    if x > MAX_INT64 then x - 0x1_0000_0000_0000_0000
    else if x < MIN_INT64 then x + 0x1_0000_0000_0000_0000
    else x
  }

  /** Time.Sub: the exact difference, clamped to the range of a Duration. */
  function Sub(t: Time, u: Time): Duration {
    if t - u > MAX_INT64 then MAX_INT64 else if t - u < MIN_INT64 then MIN_INT64 else t - u
  }

  /** Go's `/` on integers truncates toward zero; Dafny's does not for negative dividends. */
  function TruncDiv(a: int, b: int): int
    requires b > 0
  {
    if a >= 0 then a / b else -((-a) / b)
  }

  /** Go's `%` on integers: the sign follows the dividend. */
  function TruncMod(a: int, b: int): int
    requires b > 0
  {
    a - b * TruncDiv(a, b)
  }
}
