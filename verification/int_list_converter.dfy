/** `IntListConverter`: the binding between the port list and its text box.
    A list is shown as its numbers joined by ", "; text is read back by
    splitting on ',', ';' and ' ', dropping empty pieces and keeping every
    piece that parses as a 32-bit integer. */
module IntListConverter {
  import opened Wrappers
  import opened Decimal
  import opened Text
  import opened Values

  /** The characters `ConvertBack` splits on. */
  const ListSeparators: set<char> := {',', ';', ' '}

  /** Each number's decimal rendering, in order. */
  function Render(xs: seq<Int32>): (parts: seq<string>)
    ensures |parts| == |xs|
    ensures forall k :: 0 <= k < |xs| ==> parts[k] == IntToString(xs[k])
  {
    if |xs| == 0 then [] else [IntToString(xs[0])] + Render(xs[1..])
  }

  /** `Convert`: a list of integers becomes its numbers joined by ", ";
      anything else becomes the empty string. */
  function Convert(value: Value): (s: string)
    ensures !value.IntListValue? ==> s == ""
    ensures value.IntListValue? ==> (s == "" <==> |value.xs| == 0)
  {
    match value
    case IntListValue(xs) => Join(Render(xs), ", ")
    case _ => ""
  }

  /** The non-empty pieces of the text between separator characters. */
  function Tokens(s: string): (tokens: seq<string>)
    ensures forall k :: 0 <= k < |tokens| ==> tokens[k] != []
    ensures forall k :: 0 <= k < |tokens| ==> forall c :: c in tokens[k] ==> c !in ListSeparators
  {
    RemoveEmpty(SplitFields(s, ListSeparators))
  }

  /** The values of the tokens that parse once trimmed, in order; the others
      are skipped. */
  function ParseTokens(tokens: seq<string>): (xs: seq<Int32>)
    ensures |xs| <= |tokens|
    ensures (forall k :: 0 <= k < |tokens| ==> TryParseInt32(Trim(tokens[k])).Some?) ==> |xs| == |tokens|
  {
    if |tokens| == 0 then []
    else
      var rest := ParseTokens(tokens[1..]);
      match TryParseInt32(Trim(tokens[0]))
      case Some(v) => [v] + rest
      case None => rest
  }

  /** Parsing distributes over concatenation of the token lists, so each
      token contributes its own value or nothing. */
  lemma {:induction false} ParseTokensAppend(a: seq<string>, b: seq<string>)
    ensures ParseTokens(a + b) == ParseTokens(a) + ParseTokens(b)
  {
    if |a| == 0 {
      assert a + b == b;
    } else {
      assert (a + b)[0] == a[0];
      assert (a + b)[1..] == a[1..] + b;
      ParseTokensAppend(a[1..], b);
    }
  }

  /** A single token gives its value when it parses and nothing otherwise. */
  lemma ParseSingleToken(token: string)
    ensures ParseTokens([token]) == match TryParseInt32(Trim(token)) case Some(v) => [v] case None => []
  {
    assert [token][1..] == [];
  }

  /** `ConvertBack`: text that is not blank gives the values of its tokens
      that parse; anything else gives the empty list. */
  function ConvertBack(value: Value): (xs: seq<Int32>)
    ensures !(value.StringValue? && !IsBlank(value.s)) ==> xs == []
    ensures value.StringValue? ==> |xs| <= |Tokens(value.s)|
  {
    match value
    case StringValue(s) => if IsBlank(s) then [] else ParseTokens(Tokens(s))
    case _ => []
  }

  /** The rendering of a number is not empty and contains no separator. */
  lemma RenderingHasNoSeparator(x: Int32)
    ensures IntToString(x) != []
    ensures forall c :: c in IntToString(x) ==> c !in ListSeparators
  {
  }

  /** Parsing the renderings gives the numbers back. */
  lemma {:induction false} ParseRenderings(xs: seq<Int32>)
    ensures ParseTokens(Render(xs)) == xs
  {
    if |xs| > 0 {
      var s := IntToString(xs[0]);
      TrimUntrimmed(s);
      ParseRendering(xs[0]);
      assert Render(xs)[1..] == Render(xs[1..]);
      ParseRenderings(xs[1..]);
    }
  }

  /** Showing a list and reading the text back gives the same list. */
  lemma ConvertRoundTrip(xs: seq<Int32>)
    ensures ConvertBack(StringValue(Convert(IntListValue(xs)))) == xs
  {
    var parts := Render(xs);
    var s := Convert(IntListValue(xs));
    if |xs| > 0 {
      assert s[0] == parts[0][0];
      assert !IsWhiteSpace(s[0]);
      forall k | 0 <= k < |parts|
        ensures parts[k] != [] && forall c :: c in parts[k] ==> c !in ListSeparators
      {
        RenderingHasNoSeparator(xs[k]);
      }
      SplitJoinRoundTrip(parts, ListSeparators);
      ParseRenderings(xs);
    }
  }
}
