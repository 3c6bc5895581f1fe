/** Values shared by every part of the model: optional values, Go errors,
    the dynamically typed values (`any`) that end up in filter documents,
    instants, and the 64-bit integer range. */
module Values {

  datatype Option<+T> = None | Some(value: T)

  datatype Result<+T, +E> = Ok(value: T) | Err(error: E)

  /** A Go `error`: all the model needs of it is its text. */
  datatype GoError = GoError(text: string)

  /** An instant, in nanoseconds since the Unix epoch (Go's `time.Time`
      without its location). */
  type Instant = int

  const NanosPerMilli: int := 1_000_000

  /** `time.Time.UnixMilli`: whole milliseconds, rounded towards the past
      (Go keeps the nanosecond part in [0, 1e9), so this is a floor). */
  function UnixMilli(t: Instant): int
  {
    t / NanosPerMilli
  }

  /** `time.UnixMilli`: the instant at the start of that millisecond. */
  function FromUnixMilli(ms: int): Instant
  {
    ms * NanosPerMilli
  }

  lemma UnixMilliOfFromUnixMilli(ms: int)
    ensures UnixMilli(FromUnixMilli(ms)) == ms
  {
    assert FromUnixMilli(ms) == ms * NanosPerMilli;
  }

  const Int64Min: int := -0x8000_0000_0000_0000
  const Int64Max: int := 0x7FFF_FFFF_FFFF_FFFF

  predicate IsInt64(x: int)
  {
    Int64Min <= x <= Int64Max
  }

  /** Two's-complement wrap-around of an exact result into int64, as Go's
      int64 arithmetic does on overflow. */
  function WrapInt64(x: int): (r: int)
    ensures IsInt64(r)
    ensures IsInt64(x) ==> r == x
  {
    (x - Int64Min) % 0x1_0000_0000_0000_0000 + Int64Min
  }

  /** What a Go `any` can hold once it is placed in a filter document or
      read from a record. `Null` is the untyped `nil`. */
  datatype Value =
    | Null
    | Bool(b: bool)
    | Int(i: int)
    | Str(s: string)
    | Time(t: Instant)
    | Id(text: string)               // hin.HID, by its canonical text
    | Arr(items: seq<Value>)
    | Doc(fields: map<string, Value>)  // bson.M

  /** A filter document (`bson.M`). */
  type Filter = map<string, Value>
}
