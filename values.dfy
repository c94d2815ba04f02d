/**
 * Instants and durations (`time.Time`, `time.Duration`) as integers of
 * nanoseconds. The clock itself is never read by the model: every handler
 * takes the current instant as a parameter.
 */
module Times {
  /** A `time.Time`, as nanoseconds since the Unix epoch. */
  type Instant = int

  /** A `time.Duration`, in nanoseconds. */
  type Duration = int

  const Second: Duration := 1_000_000_000
  const Hour: Duration := 3600 * Second

  const Millisecond: Duration := 1_000_000

  /**
   * What a BSON UTC datetime keeps of an instant: whole milliseconds since
   * the epoch, rounded toward minus infinity, which is how the driver
   * encodes a `time.Time` it stores.
   */
  function BsonTime(t: Instant): (d: Instant)
    ensures d <= t < d + Millisecond
    ensures d % Millisecond == 0
  {
    t / Millisecond * Millisecond
  }

  /** Two instants are stored as the same datetime exactly when they fall in the same millisecond. */
  lemma BsonTimeSameMillisecond(t: Instant, u: Instant)
    ensures BsonTime(t) == BsonTime(u) <==> t / Millisecond == u / Millisecond
  {
  }

  /** A stored datetime is stored again unchanged. */
  lemma BsonTimeIdempotent(t: Instant)
    ensures BsonTime(BsonTime(t)) == BsonTime(t)
  {
  }

  /** `Time.Unix()`: whole seconds since the epoch, rounded toward minus infinity. */
  function UnixSeconds(t: Instant): (s: int)
    ensures s * Second <= t < (s + 1) * Second
  {
    t / Second
  }
}

/**
 * A `float64` carried as its IEEE 754 bit pattern. Prices are only stored and
 * copied; the one thing asked of them is the validator's `required` and
 * `gt=0` tests, interpreted here on the bits.
 */
module Floats {
  datatype Float64 = Float64(bits: bv64)

  const SignMask: bv64 := 0x8000_0000_0000_0000
  const ExponentMask: bv64 := 0x7FF0_0000_0000_0000
  const MantissaMask: bv64 := 0x000F_FFFF_FFFF_FFFF

  predicate IsNaN(f: Float64) {
    f.bits & ExponentMask == ExponentMask && f.bits & MantissaMask != 0
  }

  /** Positive or negative zero (what `reflect.Value.IsZero` reports since Go 1.22). */
  predicate IsZero(f: Float64) {
    f.bits & !SignMask == 0
  }

  /** `f > 0`: sign bit clear, not a zero, not a NaN (positive infinity counts). */
  predicate GreaterThanZero(f: Float64) {
    f.bits & SignMask == 0 && !IsZero(f) && !IsNaN(f)
  }
}

/**
 * BSON values and documents as the handlers build them with `bson.M`: query
 * filters and the body of a `$set` update.
 */
module Bson {
  import opened Times
  import opened Floats
  import opened ObjectIds

  datatype Value =
    | Str(s: string)
    | Bool(b: bool)
    | Int(i: int)
    | Double(f: Float64)
    | Date(t: Instant)
    | Oid(id: ObjectId)

  /** A `bson.M`: field names to values. */
  type Document = map<string, Value>
}
