/** Patch identifiers: the key under which a patch is recorded in the progress file. A grid
    coordinate is an integer number of 1e-4 degree units, so Python's `f"{x:.4f}"` of the
    coordinate in degrees is an exact fixed-point rendering of that integer. */
module PatchIds {
  import opened Wrappers
  import opened Text
  import opened Decimal

  /** Characters a patch identifier is made of. */
  predicate IdChar(c: char) {
    IsDigit(c) || c == '-' || c == '.' || c == '_'
  }

  /** The four fractional digits of `f / 10000`, zero-padded. */
  function Frac4(f: nat): (s: string)
    requires f < 10000
    ensures |s| == 4 && AllDigits(s)
  {
    LastDigits(f, 4)
  }

  /** The fractional digits denote the remainder they were made from. */
  lemma Frac4Value(f: nat)
    requires f < 10000
    ensures DigitsValue(Frac4(f)) == f
  {
    LastDigitsValue(f, 4);
    assert Pow10(4) == 10000;
  }

  /** `f"{x:.4f}"` for `x == v / 10000`: a minus sign for negative values, the integer part
      without leading zeros, a point and exactly four fractional digits. */
  function Fixed4(v: int): string {
    var a := if v < 0 then -v else v;
    (if v < 0 then "-" else "") + NatToString(a / 10000) + "." + Frac4(a % 10000)
  }

  /** A rendering is made of identifier characters other than the separator. */
  lemma Fixed4Chars(v: int)
    ensures forall i :: 0 <= i < |Fixed4(v)| ==> IdChar(Fixed4(v)[i]) && Fixed4(v)[i] != '_'
  {
    var a := if v < 0 then -v else v;
    var sign, whole, frac := if v < 0 then "-" else "", NatToString(a / 10000), Frac4(a % 10000);
    assert Fixed4(v) == sign + whole + "." + frac;
    forall i | 0 <= i < |Fixed4(v)| ensures IdChar(Fixed4(v)[i]) && Fixed4(v)[i] != '_' {
      if i >= |sign| + |whole| + 1 {
        assert Fixed4(v)[i] == frac[i - |sign| - |whole| - 1];
      } else if i >= |sign| && i < |sign| + |whole| {
        assert Fixed4(v)[i] == whole[i - |sign|];
      }
    }
  }

  /** The patch identifier `f"{ra:.4f}_{dec:.4f}"`. */
  function PatchId(ra: int, dec: int): string {
    Fixed4(ra) + "_" + Fixed4(dec)
  }

  /** An identifier is made of identifier characters only. */
  lemma PatchIdChars(ra: int, dec: int)
    ensures forall i :: 0 <= i < |PatchId(ra, dec)| ==> IdChar(PatchId(ra, dec)[i])
  {
    var x, y := Fixed4(ra), Fixed4(dec);
    Fixed4Chars(ra);
    Fixed4Chars(dec);
    forall i | 0 <= i < |PatchId(ra, dec)| ensures IdChar(PatchId(ra, dec)[i]) {
      if i > |x| {
        assert PatchId(ra, dec)[i] == y[i - |x| - 1];
      } else if i < |x| {
        assert PatchId(ra, dec)[i] == x[i];
      }
    }
  }

  /** Reads `digits.dddd` back as a number of 1e-4 units. */
  function ParseUnsignedFixed4(s: string): Option<nat> {
    var k := Find(s, '.');
    if 0 < k < |s| && AllDigits(s[..k]) && AllDigits(s[k + 1..]) && |s| - k - 1 == 4 then
      Some(DigitsValue(s[..k]) * 10000 + DigitsValue(s[k + 1..]))
    else
      None
  }

  /** Reads an optionally signed fixed-point rendering back as a number of 1e-4 units. */
  function ParseFixed4(s: string): Option<int> {
    if |s| > 0 && s[0] == '-' then
      match ParseUnsignedFixed4(s[1..])
      case Some(a) => Some(-(a as int))
      case None => None
    else
      match ParseUnsignedFixed4(s)
      case Some(a) => Some(a)
      case None => None
  }

  /** Reads a patch identifier back as its grid coordinates. */
  function ParsePatchId(id: string): Option<(int, int)> {
    var k := Find(id, '_');
    if k == |id| then None
    else
      match (ParseFixed4(id[..k]), ParseFixed4(id[k + 1..]))
      case (Some(ra), Some(dec)) => Some((ra, dec))
      case _ => None
  }

  lemma UnsignedFixed4RoundTrip(a: nat)
    ensures ParseUnsignedFixed4(NatToString(a / 10000) + "." + Frac4(a % 10000)) == Some(a)
  {
    ParseRendered(a / 10000, a % 10000);
  }

  lemma ParseRendered(q: nat, r: nat)
    requires r < 10000
    ensures ParseUnsignedFixed4(NatToString(q) + "." + Frac4(r)) == Some(q * 10000 + r)
  {
    ParseParts(NatToString(q), Frac4(r));
    NatToStringValue(q);
    Frac4Value(r);
  }

  /** Digits, a point and four digits are read as the two numbers they denote. */
  lemma ParseParts(whole: string, frac: string)
    requires |whole| > 0 && AllDigits(whole) && AllDigits(frac) && |frac| == 4
    ensures ParseUnsignedFixed4(whole + "." + frac) == Some(DigitsValue(whole) * 10000 + DigitsValue(frac))
  {
    var s := whole + "." + frac;
    OnlyDigits(whole, '.');
    FindAfter(whole, '.', frac);
    Around(whole, '.', frac);
    ParsePoint(s, |whole|);
  }

  /** A text whose first point is at `k`, with digits before it and four digits after it. */
  lemma ParsePoint(s: string, k: nat)
    requires Find(s, '.') == k && 0 < k < |s| && |s| - k - 1 == 4
    requires AllDigits(s[..k]) && AllDigits(s[k + 1..])
    ensures ParseUnsignedFixed4(s) == Some(DigitsValue(s[..k]) * 10000 + DigitsValue(s[k + 1..]))
  {
  }

  /** Reading a rendering back yields the coordinate it was made from. */
  lemma Fixed4RoundTrip(v: int)
    ensures ParseFixed4(Fixed4(v)) == Some(v)
  {
    var a := if v < 0 then -v else v;
    UnsignedFixed4RoundTrip(a);
    if v < 0 {
      ParseNegated(NatToString(a / 10000), Frac4(a % 10000), a);
    } else {
      ParseNonNegated(NatToString(a / 10000), Frac4(a % 10000), a);
    }
  }

  lemma ParseNegated(whole: string, frac: string, a: nat)
    requires ParseUnsignedFixed4(whole + "." + frac) == Some(a)
    ensures ParseFixed4("-" + whole + "." + frac) == Some(-(a as int))
  {
    var u := whole + "." + frac;
    Prefixed("-", whole, ".", frac);
    assert ("-" + u)[1..] == u;
  }

  lemma ParseNonNegated(whole: string, frac: string, a: nat)
    requires ParseUnsignedFixed4(whole + "." + frac) == Some(a) && |whole| > 0 && IsDigit(whole[0])
    ensures ParseFixed4("" + whole + "." + frac) == Some(a as int)
  {
    assert "" + whole == whole;
  }

  /** Reading a patch identifier back yields the patch centre: the identifier loses nothing. */
  lemma {:induction false} PatchIdRoundTrip(ra: int, dec: int)
    ensures ParsePatchId(PatchId(ra, dec)) == Some((ra, dec))
  {
    var x, y := Fixed4(ra), Fixed4(dec);
    var id := x + "_" + y;
    assert '_' !in x by {
      Fixed4Chars(ra);
      forall i | 0 <= i < |x| ensures x[i] != '_' { }
    }
    FindAfter(x, '_', y);
    Around(x, '_', y);
    Fixed4RoundTrip(ra);
    Fixed4RoundTrip(dec);
  }

  /** Distinct patch centres get distinct identifiers, so membership in the progress file
      identifies one patch. */
  lemma PatchIdInjective(ra1: int, dec1: int, ra2: int, dec2: int)
    requires PatchId(ra1, dec1) == PatchId(ra2, dec2)
    ensures ra1 == ra2 && dec1 == dec2
  {
    PatchIdRoundTrip(ra1, dec1);
    PatchIdRoundTrip(ra2, dec2);
  }

  /** A patch identifier holds no line break, so it occupies exactly one line of the progress file. */
  lemma PatchIdIsOneLine(ra: int, dec: int)
    ensures '\n' !in PatchId(ra, dec)
  {
    var id := PatchId(ra, dec);
    PatchIdChars(ra, dec);
    forall i | 0 <= i < |id| ensures id[i] != '\n' {
      assert IdChar(id[i]);
    }
  }

  /** The identifier of the patch at right ascension 12.34 and declination -5 degrees. */
  lemma PatchIdExample()
    ensures PatchId(123400, -50000) == "12.3400_-5.0000"
  {
    RightAscensionExample();
    DeclinationExample();
  }

  lemma RightAscensionExample()
    ensures Fixed4(123400) == "12.3400"
  {
    assert NatToString(12) == "12" by {
      assert NatToString(1) == "1";
    }
    assert Frac4(3400) == "3400";
  }

  lemma DeclinationExample()
    ensures Fixed4(-50000) == "-5.0000"
  {
    assert NatToString(5) == "5";
    assert Frac4(0) == "0000";
  }
}
