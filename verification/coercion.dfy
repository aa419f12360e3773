/**
 * The generic value coercion `ReturnConvertedValue<T>` of BaseConnection.cs,
 * instantiated at the integral value types: a database NULL becomes `default(T)`,
 * an integer is converted when `T` can represent it, anything else is refused.
 */
module Coercion {
  import opened Wrappers

  /** A column value as the driver hands it over (the `object` read from a row). */
  datatype RawValue =
    | DBNull            // System.DBNull.Value: the column holds SQL NULL
    | Integer(n: int)   // any integral value the driver returns
    | Other             // strings, dates, floating point: values this model does not convert

  /** The integral value types the coercion can be asked for. */
  datatype IntegralType = SByte | Byte | Int16 | UInt16 | Int32 | UInt32 | Int64 | UInt64
  {
    function Min(): int
    {
      match this
      case SByte => -0x80
      case Int16 => -0x8000
      case Int32 => -0x8000_0000
      case Int64 => -0x8000_0000_0000_0000
      case _ => 0
    }

    function Max(): int
    {
      match this
      case SByte => 0x7F
      case Byte => 0xFF
      case Int16 => 0x7FFF
      case UInt16 => 0xFFFF
      case Int32 => 0x7FFF_FFFF
      case UInt32 => 0xFFFF_FFFF
      case Int64 => 0x7FFF_FFFF_FFFF_FFFF
      case UInt64 => 0xFFFF_FFFF_FFFF_FFFF
    }

    predicate Represents(n: int)
    {
      Min() <= n <= Max()
    }
  }

  /** Why `Convert.ChangeType` refused a value. */
  datatype ConversionError =
    | InvalidCast   // the value is not convertible to an integral type at all
    | Overflow      // an integer outside the range of the target type

  /**
   * ReturnConvertedValue<T>(value) for an integral T: NULL gives default(T), which is 0;
   * otherwise the value is converted by Convert.ChangeType.
   */
  function ReturnConvertedValue(value: RawValue, t: IntegralType): (r: Result<int, ConversionError>)
    ensures r.Success? ==> t.Represents(r.value)
    ensures value.DBNull? ==> r == Success(0)
    ensures value.Other? ==> r == Failure(InvalidCast)
  {
    match value
    case DBNull => Success(0)
    case Integer(n) => if t.Represents(n) then Success(n) else Failure(Overflow)
    case Other => Failure(InvalidCast)
  }

  /** Exactly the representable integers convert, and they convert to themselves. */
  lemma IntegerConversion(n: int, t: IntegralType)
    ensures ReturnConvertedValue(Integer(n), t).Success? <==> t.Represents(n)
    ensures ReturnConvertedValue(Integer(n), t).Success? ==> ReturnConvertedValue(Integer(n), t).value == n
    ensures !t.Represents(n) ==> ReturnConvertedValue(Integer(n), t) == Failure(Overflow)
  {
  }

  /** Converting a converted value again gives the same value back. */
  lemma ConversionIdempotent(value: RawValue, t: IntegralType)
    requires ReturnConvertedValue(value, t).Success?
    ensures ReturnConvertedValue(Integer(ReturnConvertedValue(value, t).value), t) == ReturnConvertedValue(value, t)
  {
  }

  /** A value converted to a narrower type converts unchanged to every wider one. */
  lemma WideningKeepsValue(value: RawValue, narrow: IntegralType, wide: IntegralType)
    requires wide.Min() <= narrow.Min() && narrow.Max() <= wide.Max()
    requires ReturnConvertedValue(value, narrow).Success?
    ensures ReturnConvertedValue(value, wide) == ReturnConvertedValue(value, narrow)
  {
  }
}
