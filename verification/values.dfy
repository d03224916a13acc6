/**
 * Java values as the persistence layer sees them: the value a record field holds, the value
 * an Android ContentValues map stores for a column, and the exceptions the layer throws.
 */
module Values {
  import opened JavaText

  /**
   * The value held by a record field. Java's own text for values whose toString is not
   * reproduced here (doubles, arrays, dates) is carried alongside as `shown`.
   */
  datatype FieldValue =
    | Null
    | Bool(b: bool)                               // boolean / Boolean
    | Integral(n: int)                            // byte, short, int, long and their boxes
    | Floating(x: real, shown: string)            // float / double: value and Double.toString
    | OtherNumber(x: real, shown: string)         // BigDecimal, BigInteger, Atomic*: value and toString
    | Text(s: string)                             // String
    | Bytes(data: seq<bv8>, shown: string)        // byte[]: contents and its identity text
    | EnumConst(enumType: string, name: string)   // an enum constant: its class and name()
    | LocalDate(iso: string)                      // java.time.LocalDate: ISO_DATE == toString
    | LocalDateTime(iso: string, shown: string)   // java.time.LocalDateTime: ISO_DATE_TIME, toString
    | UtilDate(millis: int, shown: string)        // java.util.Date: getTime() and toString
    | Other(shown: string)                        // any other object, by its toString

  /** `instanceof Number`: the primitive boxes and every other Number class. */
  predicate IsNumber(v: FieldValue) { v.Integral? || v.Floating? || v.OtherNumber? }

  /** A value ContentValues holds for a column: putNull, an integer, a double, text or bytes. */
  datatype StoredValue =
    | SNull
    | SInteger(n: int)
    | SReal(x: real)
    | SText(s: string)
    | SBlob(data: seq<bv8>)

  /** android.content.ContentValues: column name to stored value. */
  type ContentValues = map<string, StoredValue>

  /** The exceptions the modelled code throws. */
  datatype Error =
    | IllegalArgument(reason: string)
    | IllegalState(reason: string)
    | NullPointer
    | NumberFormat(input: string)
    | ClassCast(reason: string)
    | Wrapped(cause: Error)                         // new RuntimeException(cause)
    | MissingMigrationStep(from: int, to: int)      // IllegalStateException naming from -> to
    | MigrationFailed(from: int, to: int, reason: string)  // IllegalStateException wrapping a step's failure

  /** `String.valueOf(Object)`: "null" for null, otherwise toString(). */
  function JavaString(v: FieldValue): string
  {
    match v
    case Null => "null"
    case Bool(b) => if b then "true" else "false"
    case Integral(n) => IntToString(n)
    case Floating(_, shown) => shown
    case OtherNumber(_, shown) => shown
    case Text(s) => s
    case Bytes(_, shown) => shown
    case EnumConst(_, name) => name
    case LocalDate(iso) => iso
    case LocalDateTime(_, shown) => shown
    case UtilDate(_, shown) => shown
    case Other(shown) => shown
  }

  /** The integer part of `x`: rounding toward zero, as Java's narrowing conversions do. */
  function TowardZero(x: real): (t: int)
    ensures -1.0 < x - t as real < 1.0
    ensures x >= 0.0 ==> 0 <= t && t as real <= x
    ensures x < 0.0 ==> t <= 0 && x <= t as real
  {
    if x >= 0.0 then x.Floor else -((-x).Floor)
  }

  /** `Number.longValue()` of a double: truncation toward zero, saturating at the long range. */
  function TruncateToLong(x: real): (r: int)
    ensures MinLong <= r <= MaxLong
    ensures MinLong as real <= x <= MaxLong as real ==> -1.0 < x - r as real < 1.0
    ensures x < MinLong as real ==> r == MinLong
    ensures x > MaxLong as real ==> r == MaxLong
  {
    var t := TowardZero(x);
    if t < MinLong then MinLong else if t > MaxLong then MaxLong else t
  }

  const LongModulus: int := 0x1_0000_0000_0000_0000

  /**
   * `longValue()` of a BigDecimal or BigInteger (an atomic counter is always in range): truncation
   * toward zero, then only the low 64 bits are kept, so a value past the long range wraps around.
   */
  function WrapToLong(x: real): (r: int)
    ensures MinLong <= r <= MaxLong
    ensures (r - TowardZero(x)) % LongModulus == 0
    ensures MinLong as real <= x <= MaxLong as real ==> r == TowardZero(x)
  {
    (TowardZero(x) - MinLong) % LongModulus + MinLong
  }
}
