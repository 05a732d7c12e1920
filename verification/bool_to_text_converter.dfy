/** `BoolToTextConverter`: a flag shown as one of two labels. The converter
    parameter "off|on" chooses the labels; without a usable parameter they
    are "Disable" and "Enable". */
module BoolToTextConverter {
  import opened Text
  import opened Values

  const LabelSeparator: set<char> := {'|'}

  /** `Convert`: for a flag and a string parameter that splits on '|' into
      exactly two fields, the second field for true and the first for false;
      for a flag otherwise, "Enable" or "Disable"; for anything that is not a
      flag, "Disable". */
  function Convert(value: Value, parameter: Value): (caption: string)
    ensures !value.BoolValue? ==> caption == "Disable"
    ensures value.BoolValue? && !(parameter.StringValue? && CountOf(parameter.s, LabelSeparator) == 1) ==>
              caption == (if value.b then "Enable" else "Disable")
    ensures value.BoolValue? && parameter.StringValue? && CountOf(parameter.s, LabelSeparator) == 1 ==>
              '|' !in caption
  {
    match value
    case BoolValue(b) =>
      var fallback := if b then "Enable" else "Disable";
      if parameter.StringValue? then
        var parts := SplitFields(parameter.s, LabelSeparator);
        SplitFieldsCount(parameter.s, LabelSeparator);
        if |parts| == 2 then (if b then parts[1] else parts[0]) else fallback
      else fallback
    case _ => "Disable"
  }

  /** A parameter "off|on" whose halves hold no '|' yields "on" for true and
      "off" for false. */
  lemma ConvertPicksLabel(off: string, on: string, b: bool)
    requires '|' !in off && '|' !in on
    ensures Convert(BoolValue(b), StringValue(off + "|" + on)) == if b then on else off
  {
    assert off + "|" + on == off + ['|'] + on;
    SplitFieldsAtSeparator(off, '|', on, LabelSeparator);
    SplitFieldsNoSeparator(off, LabelSeparator);
    SplitFieldsNoSeparator(on, LabelSeparator);
  }

  /** A parameter with no '|' or with more than one is ignored. */
  lemma ConvertIgnoresMalformedParameter(parameter: string, b: bool)
    requires CountOf(parameter, LabelSeparator) != 1
    ensures Convert(BoolValue(b), StringValue(parameter)) == Convert(BoolValue(b), NullValue)
  {
  }
}
