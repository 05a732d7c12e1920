/** The .NET string primitives the scanner relies on: `Char.IsWhiteSpace`,
    `string.IsNullOrWhiteSpace`, `Trim`, `Split` and `string.Join`.
    A null string is modelled as the empty string: every use in the scanner
    treats the two alike. */
module Text {

  /** `Char.IsWhiteSpace`: the Unicode space separators, the line and
      paragraph separators, and the control characters U+0009..U+000D,
      U+0085 and U+00A0. */
  predicate IsWhiteSpace(c: char) {
    || c == ' '
    || ('\t' <= c <= '\r')
    || c == '\U{0085}' || c == '\U{00A0}' || c == '\U{1680}'
    || ('\U{2000}' <= c <= '\U{200A}')
    || c == '\U{2028}' || c == '\U{2029}' || c == '\U{202F}' || c == '\U{205F}' || c == '\U{3000}'
  }

  /** `string.IsNullOrWhiteSpace`. */
  predicate IsBlank(s: string) {
    forall i :: 0 <= i < |s| ==> IsWhiteSpace(s[i])
  }

  /** The number of leading white-space characters. */
  function LeadingWhiteSpace(s: string): (n: nat)
    ensures n <= |s|
    ensures forall k :: 0 <= k < n ==> IsWhiteSpace(s[k])
    ensures n == |s| || !IsWhiteSpace(s[n])
  {
    if |s| == 0 || !IsWhiteSpace(s[0]) then 0 else 1 + LeadingWhiteSpace(s[1..])
  }

  /** Drops the trailing white space (`TrimEnd()`). */
  function TrimEnd(s: string): (r: string)
    ensures |r| <= |s| && r == s[..|r|]
    ensures forall k :: |r| <= k < |s| ==> IsWhiteSpace(s[k])
    ensures r == [] || !IsWhiteSpace(r[|r| - 1])
  {
    if |s| == 0 || !IsWhiteSpace(s[|s| - 1]) then s else TrimEnd(s[..|s| - 1])
  }

  /** `Trim()`: the longest infix that neither starts nor ends with white space,
      everything cut off on either side being white space. */
  function Trim(s: string): (r: string)
    ensures LeadingWhiteSpace(s) + |r| <= |s|
    ensures r == s[LeadingWhiteSpace(s)..LeadingWhiteSpace(s) + |r|]
    ensures forall k :: 0 <= k < LeadingWhiteSpace(s) ==> IsWhiteSpace(s[k])
    ensures forall k :: LeadingWhiteSpace(s) + |r| <= k < |s| ==> IsWhiteSpace(s[k])
    ensures r == [] || (!IsWhiteSpace(r[0]) && !IsWhiteSpace(r[|r| - 1]))
  {
    var i := LeadingWhiteSpace(s);
    var r := TrimEnd(s[i..]);
    assert r == s[i..i + |r|];
    r
  }

  /** A string that neither starts nor ends with white space is its own trim. */
  lemma TrimUntrimmed(s: string)
    requires s == [] || (!IsWhiteSpace(s[0]) && !IsWhiteSpace(s[|s| - 1]))
    ensures Trim(s) == s
  {
    if s != [] {
      assert LeadingWhiteSpace(s) == 0;
    }
  }

  /** Trimming twice is trimming once. */
  lemma TrimIdempotent(s: string)
    ensures Trim(Trim(s)) == Trim(s)
  {
    TrimUntrimmed(Trim(s));
  }

  /** A character that is not white space survives trimming. */
  lemma TrimKeepsNonWhiteSpace(s: string, c: char)
    requires !IsWhiteSpace(c)
    ensures c in Trim(s) <==> c in s
  {
    var r := Trim(s);
    var i := LeadingWhiteSpace(s);
    if c in s {
      var k :| 0 <= k < |s| && s[k] == c;
      assert r[k - i] == c;
    }
  }

  /** Trimming leaves nothing exactly when the string is blank. */
  lemma TrimEmptyIffBlank(s: string)
    ensures Trim(s) == [] <==> IsBlank(s)
  {
  }

  /** `String.Split(separators)` without options: the fields between
      separator characters, empty ones included, so there is always one
      field more than there are separators. */
  function SplitFields(s: string, separators: set<char>): (fields: seq<string>)
    ensures |fields| >= 1
    ensures forall k :: 0 <= k < |fields| ==> forall c :: c in fields[k] ==> c !in separators
  {
    if |s| == 0 then [""]
    else
      var rest := SplitFields(s[1..], separators);
      if s[0] in separators then [""] + rest
      else [[s[0]] + rest[0]] + rest[1..]
  }

  /** The number of characters of `s` drawn from `chars`. */
  function CountOf(s: string, chars: set<char>): nat {
    if |s| == 0 then 0 else (if s[0] in chars then 1 else 0) + CountOf(s[1..], chars)
  }

  lemma {:induction false} SplitFieldsCount(s: string, separators: set<char>)
    ensures |SplitFields(s, separators)| == CountOf(s, separators) + 1
  {
    if |s| > 0 {
      SplitFieldsCount(s[1..], separators);
    }
  }

  /** A string free of separators is a single field. */
  lemma {:induction false} SplitFieldsNoSeparator(s: string, separators: set<char>)
    requires forall c :: c in s ==> c !in separators
    ensures SplitFields(s, separators) == [s]
  {
    if |s| > 0 {
      SplitFieldsNoSeparator(s[1..], separators);
      assert [s[0]] + s[1..] == s;
    }
  }

  /** Splitting at a separator character splits the fields list there. */
  lemma {:induction false} SplitFieldsAtSeparator(a: string, c: char, b: string, separators: set<char>)
    requires c in separators
    ensures SplitFields(a + [c] + b, separators) == SplitFields(a, separators) + SplitFields(b, separators)
  {
    var s := a + [c] + b;
    if |a| == 0 {
      assert s[1..] == b;
    } else {
      assert s[1..] == a[1..] + [c] + b;
      SplitFieldsAtSeparator(a[1..], c, b, separators);
    }
  }

  /** `StringSplitOptions.RemoveEmptyEntries`. */
  function RemoveEmpty(fields: seq<string>): (r: seq<string>)
    ensures |r| <= |fields|
    ensures forall k :: 0 <= k < |r| ==> r[k] != [] && r[k] in fields
  {
    if |fields| == 0 then []
    else if fields[0] == [] then RemoveEmpty(fields[1..])
    else [fields[0]] + RemoveEmpty(fields[1..])
  }

  lemma {:induction false} RemoveEmptyAppend(a: seq<string>, b: seq<string>)
    ensures RemoveEmpty(a + b) == RemoveEmpty(a) + RemoveEmpty(b)
  {
    if |a| > 0 {
      assert (a + b)[0] == a[0];
      assert (a + b)[1..] == a[1..] + b;
      RemoveEmptyAppend(a[1..], b);
      if a[0] != [] {
        calc {
          RemoveEmpty(a + b);
          [a[0]] + RemoveEmpty(a[1..] + b);
          [a[0]] + (RemoveEmpty(a[1..]) + RemoveEmpty(b));
          ([a[0]] + RemoveEmpty(a[1..])) + RemoveEmpty(b);
        }
      }
    } else {
      assert a + b == b;
    }
  }

  /** `string.Join(separator, parts)`: the parts in order, the separator
      between each two. */
  function Join(parts: seq<string>, separator: string): (r: string)
    ensures |parts| == 0 ==> r == ""
    ensures |parts| > 0 ==> |r| >= |parts[0]| && r[..|parts[0]|] == parts[0]
  {
    if |parts| == 0 then ""
    else if |parts| == 1 then parts[0]
    else parts[0] + separator + Join(parts[1..], separator)
  }

  /** One step of the round trip: a leading part, free of separators and
      non-empty, followed by ", " comes back as its own field. */
  lemma SplitJoinStep(head: string, tail: string, separators: set<char>)
    requires ',' in separators && ' ' in separators
    requires head != [] && forall c :: c in head ==> c !in separators
    ensures RemoveEmpty(SplitFields(head + ", " + tail, separators))
            == [head] + RemoveEmpty(SplitFields(tail, separators))
  {
    assert head + ", " + tail == head + [','] + ([] + [' '] + tail);
    SplitFieldsAtSeparator(head, ',', [] + [' '] + tail, separators);
    SplitFieldsAtSeparator([], ' ', tail, separators);
    SplitFieldsNoSeparator(head, separators);
    var fs := SplitFields(tail, separators);
    assert SplitFields(head + ", " + tail, separators) == [head] + ([""] + fs);
    RemoveEmptyAppend([head], [""] + fs);
    RemoveEmptyAppend([""], fs);
  }

  /** Joining with ", " and splitting again on ',' and ' ' (dropping the empty
      fields) gives back the parts, as long as each part is non-empty and
      free of the separator characters. */
  lemma {:induction false} SplitJoinRoundTrip(parts: seq<string>, separators: set<char>)
    requires ',' in separators && ' ' in separators
    requires forall k :: 0 <= k < |parts| ==> parts[k] != []
    requires forall k :: 0 <= k < |parts| ==> forall c :: c in parts[k] ==> c !in separators
    ensures RemoveEmpty(SplitFields(Join(parts, ", "), separators)) == parts
  {
    if |parts| == 1 {
      SplitFieldsNoSeparator(parts[0], separators);
    } else if |parts| > 1 {
      SplitJoinStep(parts[0], Join(parts[1..], ", "), separators);
      SplitJoinRoundTrip(parts[1..], separators);
      assert parts == [parts[0]] + parts[1..];
    }
  }

  /** The index of the last occurrence of `c`, if any. */
  function LastIndexOf(s: string, c: char): (r: int)
    ensures -1 <= r < |s|
    ensures r >= 0 ==> s[r] == c && forall k :: r < k < |s| ==> s[k] != c
    ensures r == -1 ==> c !in s
  {
    if |s| == 0 then -1
    else if s[|s| - 1] == c then |s| - 1
    else LastIndexOf(s[..|s| - 1], c)
  }

  /** A `c` followed by text free of `c` is the last one. */
  lemma {:induction false} LastIndexOfBefore(a: string, c: char, b: string)
    requires c !in b
    ensures LastIndexOf(a + [c] + b, c) == |a|
    decreases |b|
  {
    var s := a + [c] + b;
    if |b| > 0 {
      var front := b[..|b| - 1];
      assert s[..|s| - 1] == a + [c] + front;
      assert s[|s| - 1] == b[|b| - 1];
      LastIndexOfBefore(a, c, front);
    }
  }
}
