/** The boxed `object` values a WPF value converter receives, restricted to
    the kinds the converters distinguish. */
module Values {
  import opened Decimal

  datatype Value =
    | NullValue
    | BoolValue(b: bool)
    | StringValue(s: string)
    | IntListValue(xs: seq<Int32>)
    | OtherValue
}
