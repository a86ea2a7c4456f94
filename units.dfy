/** `ra_decimal` and `dec_decimal`: sexagesimal `h:m:s` and `d:m:s` texts as decimal degrees.
    Each field goes through Python's `int()`, in order, before the three values are unpacked. */
module Units {
  import opened Wrappers
  import opened Text
  import opened Decimal

  /** The two ways the conversions raise `ValueError`: a field `int()` rejects (the first one, since
      the list comprehension runs left to right), or a field count other than three. */
  datatype UnitsError = NotAnInteger(field: string) | FieldCount(count: nat)

  /** The ASCII characters `int()` skips at both ends of its text: the space and `\t` to `\r`.
      The separators `\x1c` to `\x1f`, which `str.isspace()` counts, are not among them. */
  predicate IsSpace(c: char) {
    c == ' ' || '\t' <= c <= '\r'
  }

  function LeadingSpaces(s: string): (k: nat)
    ensures k <= |s|
    ensures forall i :: 0 <= i < k ==> IsSpace(s[i])
    ensures k < |s| ==> !IsSpace(s[k])
    decreases |s|
  {
    if s != [] && IsSpace(s[0]) then 1 + LeadingSpaces(s[1..]) else 0
  }

  function TrailingSpaces(s: string): (k: nat)
    ensures k <= |s|
    ensures forall i :: |s| - k <= i < |s| ==> IsSpace(s[i])
    ensures k < |s| ==> !IsSpace(s[|s| - k - 1])
    decreases |s|
  {
    if s != [] && IsSpace(s[|s| - 1]) then 1 + TrailingSpaces(s[..|s| - 1]) else 0
  }

  /** Where the text `int()` reads starts and ends once the whitespace it skips is dropped: the
      first character that is not a space and the position after the last one (both `|s|` when
      every character is a space). */
  function StripBounds(s: string): (b: (nat, nat))
    ensures b.0 <= b.1 <= |s|
    ensures forall k :: 0 <= k < |s| && !IsSpace(s[k]) ==> b.0 <= k < b.1
    ensures b.0 < b.1 ==> !IsSpace(s[b.0]) && !IsSpace(s[b.1 - 1])
  {
    var a := LeadingSpaces(s);
    if a == |s| then (a, a) else (a, |s| - TrailingSpaces(s))
  }

  /** `s` without the whitespace `int()` skips at either end. */
  function Strip(s: string): string {
    s[StripBounds(s).0..StripBounds(s).1]
  }

  /** Decimal digits, with single underscores allowed between two digits. */
  predicate DigitGroups(s: string) {
    && |s| > 0
    && (forall i :: 0 <= i < |s| ==> IsDigit(s[i]) || s[i] == '_')
    && IsDigit(s[0]) && IsDigit(s[|s| - 1])
    && (forall i :: 0 < i < |s| && s[i] == '_' ==> s[i - 1] != '_')
  }

  /** The digits of `s` with the underscores left out. */
  function DropUnderscores(s: string): (r: string)
    requires forall i :: 0 <= i < |s| ==> IsDigit(s[i]) || s[i] == '_'
    ensures AllDigits(r)
    ensures (forall i :: 0 <= i < |s| ==> IsDigit(s[i])) ==> r == s
  {
    if s == [] then [] else (if s[0] == '_' then [] else [s[0]]) + DropUnderscores(s[1..])
  }

  function GroupsValue(s: string): nat
    requires DigitGroups(s)
  {
    DigitsValue(DropUnderscores(s))
  }

  /** An optional sign followed by digit groups, as `int()` reads a text already stripped. */
  function ParseSigned(t: string): Option<int> {
    if t == [] then None
    else if t[0] == '-' || t[0] == '+' then
      var body := t[1..];
      if !DigitGroups(body) then None
      else if t[0] == '-' then Some(-(GroupsValue(body) as int))
      else Some(GroupsValue(body))
    else if DigitGroups(t) then Some(GroupsValue(t))
    else None
  }

  /** `int(s)` for a base-10 text: surrounding spaces, an optional sign, then digit groups. */
  function ParseInt(s: string): Option<int> {
    ParseSigned(Strip(s))
  }

  /** The index of the first field `parse` rejects, or `|fields|` when it accepts them all. */
  function FirstRejected(parse: string -> Option<int>, fields: seq<string>): (k: nat)
    ensures k <= |fields|
  {
    if fields == [] || parse(fields[0]).None? then 0 else 1 + FirstRejected(parse, fields[1..])
  }

  /** `[parse(i) for i in fields]`, with `int` as `parse`: the values in order, or the first
      field that is not accepted. The parser is a parameter so that what is proved here holds
      whatever `int()` accepts. */
  function ParseEach(parse: string -> Option<int>, fields: seq<string>): Result<seq<int>, UnitsError> {
    if fields == [] then Ok([])
    else match parse(fields[0])
      case None => Err(NotAnInteger(fields[0]))
      case Some(v) =>
        match ParseEach(parse, fields[1..])
        case Err(e) => Err(e)
        case Ok(vs) => Ok([v] + vs)
  }

  /** The comprehension succeeds exactly when every field is accepted, with one value per field;
      otherwise it fails on the first field refused, every field before which was accepted. */
  lemma {:induction false} ParseEachMeaning(parse: string -> Option<int>, fields: seq<string>)
    ensures var r, k := ParseEach(parse, fields), FirstRejected(parse, fields);
            && (r.Ok? <==> k == |fields|)
            && (r.Ok? ==> |r.value| == |fields| && forall i :: 0 <= i < |fields| ==> parse(fields[i]) == Some(r.value[i]))
            && (r.Err? ==> r.error == NotAnInteger(fields[k]) && parse(fields[k]).None?)
            && (forall i :: 0 <= i < k ==> parse(fields[i]).Some?)
  {
    if fields != [] && parse(fields[0]).Some? {
      var rest := fields[1..];
      ParseEachMeaning(parse, rest);
      forall i | 0 < i < |fields| ensures fields[i] == rest[i - 1] { }
    }
  }

  /** Three fields are read left to right. */
  lemma ParseEachOfThree(parse: string -> Option<int>, a: string, b: string, c: string)
    ensures ParseEach(parse, [a, b, c]) ==
              if parse(a).None? then Err(NotAnInteger(a))
              else if parse(b).None? then Err(NotAnInteger(b))
              else if parse(c).None? then Err(NotAnInteger(c))
              else Ok([parse(a).value, parse(b).value, parse(c).value])
  {
    assert [c] == [c] + [] && [b, c] == [b] + [c] && [a, b, c] == [a] + [b, c];
    if parse(a).Some? && parse(b).Some? && parse(c).Some? {
      var x, y, z := parse(a).value, parse(b).value, parse(c).value;
      assert [z] + [] == [z] && [y] + [z] == [y, z] && [x] + [y, z] == [x, y, z];
    }
    assert ParseEach(parse, []) == Ok([]);
    ParseEachCons(parse, c, []);
    ParseEachCons(parse, b, [c]);
    ParseEachCons(parse, a, [b, c]);
  }

  lemma ParseEachCons(parse: string -> Option<int>, f: string, rest: seq<string>)
    ensures ParseEach(parse, [f] + rest) ==
              if parse(f).None? then Err(NotAnInteger(f))
              else if ParseEach(parse, rest).Err? then ParseEach(parse, rest)
              else Ok([parse(f).value] + ParseEach(parse, rest).value)
  {
    assert ([f] + rest)[1..] == rest;
  }

  /** `h, m, s = [int(i) for i in text.split(":")]`. */
  function ParseFields(text: string): Result<(int, int, int), UnitsError> {
    match ParseEach(ParseInt, Split(text, ':'))
    case Err(e) => Err(e)
    case Ok(vs) => if |vs| != 3 then Err(FieldCount(|vs|)) else Ok((vs[0], vs[1], vs[2]))
  }

  /** `d + m / 60 + s / 3600` in exact arithmetic: minutes and seconds are added whatever the
      sign of the leading field. */
  function Degrees(d: int, m: int, s: int): real {
    d as real + m as real / 60.0 + s as real / 3600.0
  }

  /** `dec_decimal(dec)`. */
  function DecDecimal(dec: string): Result<real, UnitsError> {
    match ParseFields(dec)
    case Err(e) => Err(e)
    case Ok((d, m, s)) => Ok(Degrees(d, m, s))
  }

  /** `ra_decimal(ra)`: hours at fifteen degrees each. */
  function RaDecimal(ra: string): Result<real, UnitsError> {
    match ParseFields(ra)
    case Err(e) => Err(e)
    case Ok((h, m, s)) => Ok(15.0 * Degrees(h, m, s))
  }

  /** A text with no space at either end is read by `int()` as it is. */
  lemma StripTrimmed(s: string)
    requires s != [] && !IsSpace(s[0]) && !IsSpace(s[|s| - 1])
    ensures Strip(s) == s
  {
    assert LeadingSpaces(s) == 0;
    assert TrailingSpaces(s) == 0;
  }

  /** `int(str(i)) == i` for every integer. */
  lemma ParseIntRoundTrip(i: int)
    ensures ParseInt(IntToString(i)) == Some(i)
  {
    var s := IntToString(i);
    StripTrimmed(s);
    SignedRoundTrip(i);
  }

  lemma SignedRoundTrip(i: int)
    ensures ParseSigned(IntToString(i)) == Some(i)
  {
    if i < 0 {
      NegativeRoundTrip(-i);
    } else {
      NonNegativeRoundTrip(i);
    }
  }

  lemma NegativeRoundTrip(n: nat)
    ensures ParseSigned("-" + NatToString(n)) == Some(-(n as int))
  {
    var digits := NatToString(n);
    var t := "-" + digits;
    RenderedGroups(n);
    assert t[0] == '-';
    assert t[1..] == digits;
  }

  lemma NonNegativeRoundTrip(n: nat)
    ensures ParseSigned(NatToString(n)) == Some(n as int)
  {
    var digits := NatToString(n);
    RenderedGroups(n);
    assert IsDigit(digits[0]);
  }

  /** The rendering of a natural number is one group of digits whose value is the number. */
  lemma RenderedGroups(n: nat)
    ensures DigitGroups(NatToString(n)) && GroupsValue(NatToString(n)) == n
  {
    var digits := NatToString(n);
    NatToStringValue(n);
    assert DropUnderscores(digits) == digits;
  }

  /** A character of `s` that is not a space is still there once the skipped whitespace is dropped. */
  lemma StripKeeps(s: string, k: nat)
    requires k < |s| && !IsSpace(s[k])
    ensures var b := StripBounds(s); b.0 <= k < b.1 && Strip(s)[k - b.0] == s[k]
  {
  }

  /** `int()` rejects any text with a decimal point, such as fractional seconds. */
  lemma FractionRejected(s: string)
    requires '.' in s
    ensures ParseInt(s) == None
  {
    var k :| 0 <= k < |s| && s[k] == '.';
    StripKeeps(s, k);
    SignedRejectsPoint(Strip(s), k - StripBounds(s).0);
  }

  lemma SignedRejectsPoint(t: string, j: nat)
    requires j < |t| && t[j] == '.'
    ensures ParseSigned(t) == None
  {
    if t[0] == '-' || t[0] == '+' {
      var body := t[1..];
      assert body[j - 1] == '.';
      NotGroups(body, j - 1);
    } else {
      NotGroups(t, j);
    }
  }

  lemma NotGroups(s: string, i: nat)
    requires i < |s| && !IsDigit(s[i]) && s[i] != '_'
    ensures !DigitGroups(s)
  {
  }

  lemma IntToStringNoColon(i: int)
    ensures ':' !in IntToString(i)
  {
    var s := IntToString(i);
    assert forall k :: 0 < k < |s| ==> s[k] != ':';
  }

  lemma SplitThree(a: string, b: string, c: string)
    requires ':' !in a && ':' !in b && ':' !in c
    ensures Split(a + ":" + b + ":" + c, ':') == [a, b, c]
  {
    assert a + ":" + b + ":" + c == a + [':'] + (b + [':'] + c);
    SplitCons(a, ':', b + [':'] + c);
    SplitCons(b, ':', c);
    SplitSingle(c, ':');
  }

  /** Three colon-separated fields are read left to right: the first one `int()` refuses is
      reported, and when all three are integers they are the result. */
  lemma ParseFieldsOfThree(a: string, b: string, c: string)
    requires ':' !in a && ':' !in b && ':' !in c
    ensures ParseFields(a + ":" + b + ":" + c) ==
              if ParseInt(a).None? then Err(NotAnInteger(a))
              else if ParseInt(b).None? then Err(NotAnInteger(b))
              else if ParseInt(c).None? then Err(NotAnInteger(c))
              else Ok((ParseInt(a).value, ParseInt(b).value, ParseInt(c).value))
  {
    SplitThree(a, b, c);
    ParseEachOfThree(ParseInt, a, b, c);
  }

  /** `h:m:s` written with `str()` of each field reads back as those three integers. */
  lemma FieldsRoundTrip(d: int, m: int, s: int)
    ensures ParseFields(IntToString(d) + ":" + IntToString(m) + ":" + IntToString(s)) == Ok((d, m, s))
  {
    IntToStringNoColon(d);
    IntToStringNoColon(m);
    IntToStringNoColon(s);
    ParseIntRoundTrip(d);
    ParseIntRoundTrip(m);
    ParseIntRoundTrip(s);
    ParseFieldsOfThree(IntToString(d), IntToString(m), IntToString(s));
  }

  /** `dec_decimal` of `str(d):str(m):str(s)` is `d + m/60 + s/3600`, and `ra_decimal` of
      `str(h):str(m):str(s)` is fifteen times `h + m/60 + s/3600`. */
  lemma ConversionsOfFields(d: int, m: int, s: int)
    ensures DecDecimal(IntToString(d) + ":" + IntToString(m) + ":" + IntToString(s)) == Ok(Degrees(d, m, s))
    ensures var r := RaDecimal(IntToString(d) + ":" + IntToString(m) + ":" + IntToString(s));
            r.Ok? && r.value == 15.0 * Degrees(d, m, s)
  {
    var text := IntToString(d) + ":" + IntToString(m) + ":" + IntToString(s);
    FieldsRoundTrip(d, m, s);
  }


  /** For the same text, `ra_decimal` fails exactly when `dec_decimal` does, with the same
      error, and otherwise gives fifteen times its value. */
  lemma RaIsFifteenTimesDec(text: string)
    ensures RaDecimal(text).Err? <==> DecDecimal(text).Err?
    ensures RaDecimal(text).Err? ==> RaDecimal(text).error == DecDecimal(text).error
    ensures RaDecimal(text).Ok? ==> RaDecimal(text).value == 15.0 * DecDecimal(text).value
  {
  }

  /** A text that does not split into three fields on `:` is rejected: with the first field
      `int()` refuses if there is one (the comprehension runs before the unpacking), and
      otherwise with the number of fields. */
  lemma WrongFieldCount(text: string)
    requires |Split(text, ':')| != 3
    ensures var fields := Split(text, ':');
            var k := FirstRejected(ParseInt, fields);
            ParseFields(text) == if k < |fields| then Err(NotAnInteger(fields[k])) else Err(FieldCount(|fields|))
  {
    ParseEachMeaning(ParseInt, Split(text, ':'));
  }

  /** Non-negative fields give a non-negative angle, and minutes and seconds below sixty keep it
      below the next whole unit. */
  lemma DegreesBounds(d: int, m: int, s: int)
    requires d >= 0 && m >= 0 && s >= 0
    ensures 0.0 <= d as real <= Degrees(d, m, s)
    ensures m < 60 && s < 60 ==> Degrees(d, m, s) < d as real + 1.0
  {
  }

  lemma RenderedInteger(i: int, s: string)
    requires IntToString(i) == s
    ensures ParseInt(s) == Some(i)
  {
    ParseIntRoundTrip(i);
  }

  lemma FractionalField()
    ensures ParseInt("15.5") == None
  {
    assert "15.5"[2] == '.';
    FractionRejected("15.5");
  }

  lemma LeadingZeros()
    ensures ParseInt("00") == Some(0)
  {
    StripTrimmed("00");
    assert DropUnderscores("00") == "00";
  }

  /** `int()` skips a space and a line break around the digits, but not the file separator
      `\x1c`, so `int("\x1c5")` fails. */
  lemma SkippedWhitespace()
    ensures ParseInt(" 5\n") == Some(5)
    ensures ParseInt("\U{1c}5") == None
  {
    assert LeadingSpaces(" 5\n") == 1;
    assert TrailingSpaces(" 5\n") == 1;
    assert Strip(" 5\n") == "5";
    assert DropUnderscores("5") == "5";
    assert LeadingSpaces("\U{1c}5") == 0;
    assert !DigitGroups(Strip("\U{1c}5")) by {
      assert Strip("\U{1c}5")[0] == '\U{1c}';
    }
  }

  lemma ExampleTexts()
    ensures "-5" + ":" + "30" + ":" + "00" == "-5:30:00"
    ensures "12" + ":" + "30" + ":" + "15.5" == "12:30:15.5"
    ensures ':' !in "-5" && ':' !in "12" && ':' !in "30" && ':' !in "00" && ':' !in "15.5"
  {
  }

  /** Minutes and seconds are added even to a negative leading field: `-5:30:00` is -4.5. */
  lemma NegativeDegreesExample()
    ensures DecDecimal("-5:30:00").Ok? && DecDecimal("-5:30:00").value == -4.5
  {
    ExampleTexts();
    MinusFiveParses();
    ThirtyParses();
    LeadingZeros();
    FieldsOfThree("-5", "30", "00", -5, 30, 0);
    assert Degrees(-5, 30, 0) == -4.5;
  }

  /** Three colon-separated integers are read as those three values. */
  lemma FieldsOfThree(a: string, b: string, c: string, d: int, m: int, s: int)
    requires ':' !in a && ':' !in b && ':' !in c
    requires ParseInt(a) == Some(d) && ParseInt(b) == Some(m) && ParseInt(c) == Some(s)
    ensures ParseFields(a + ":" + b + ":" + c) == Ok((d, m, s))
  {
    ParseFieldsOfThree(a, b, c);
  }

  lemma MinusFiveParses()
    ensures ParseInt("-5") == Some(-5)
  {
    assert IntToString(-5) == "-5" by {
      assert NatToString(5) == "5";
    }
    RenderedInteger(-5, "-5");
  }

  lemma ThirtyParses()
    ensures ParseInt("30") == Some(30)
  {
    assert IntToString(30) == "30" by {
      assert NatToString(3) == "3";
    }
    RenderedInteger(30, "30");
  }

  /** Fractional seconds are refused: `12:30:15.5` fails on its third field. */
  lemma FractionalSecondsExample()
    ensures DecDecimal("12:30:15.5") == Err(NotAnInteger("15.5"))
    ensures RaDecimal("12:30:15.5") == Err(NotAnInteger("15.5"))
  {
    RenderedInteger(12, "12");
    RenderedInteger(30, "30");
    ExampleTexts();
    FractionalField();
    ParseFieldsOfThree("12", "30", "15.5");
  }

  /** `0:0:0` is zero degrees, and `ra_decimal("24:0:0")` is a full turn of 360 degrees. */
  lemma ZeroAndFullTurnExamples()
    ensures DecDecimal("0:0:0").Ok? && DecDecimal("0:0:0").value == 0.0
    ensures RaDecimal("24:0:0").Ok? && RaDecimal("24:0:0").value == 360.0
  {
    ZeroAndFullTurnTexts();
    ConversionsOfFields(0, 0, 0);
    ConversionsOfFields(24, 0, 0);
  }

  lemma ZeroAndFullTurnTexts()
    ensures IntToString(0) + ":" + IntToString(0) + ":" + IntToString(0) == "0:0:0"
    ensures IntToString(24) + ":" + IntToString(0) + ":" + IntToString(0) == "24:0:0"
  {
    assert IntToString(0) == "0";
    assert IntToString(24) == "24";
  }
}
