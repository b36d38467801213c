/**
 * The range parser on entries of the source's own test table for `parse_range`.
 */
module RangeExamples {
  import opened Results
  import opened Text
  import opened Ranges

  lemma SmallDigitValues()
    ensures DigitsValue("241") == 241 && DigitsValue("249") == 249
    ensures DigitsValue("2") == 2 && DigitsValue("52") == 52
  {
    assert "241"[..2] == "24";
    assert "249"[..2] == "24";
    assert "24"[..1] == "2";
    assert "52"[..1] == "5";
    assert "2"[..0] == "";
    assert "5"[..0] == "";
  }

  /** "241-2" is the range 241 to 242: the abbreviated end borrows the hundreds. */
  lemma ParseAbbreviatedEnd()
    ensures ParseRangeSpec("241-2") == Some(Range(241, 242))
  {
    assert Mask(2) == 10;
    assert Repair(241, 2) == 242;
    SmallDigitValues();
    ParseTwoDecimals("241", "-", "2");
    assert "241-2" == "241" + "-" + "2";
  }

  /** "241/52" is the range 241 to 252. */
  lemma ParseAbbreviatedTens()
    ensures ParseRangeSpec("241/52") == Some(Range(241, 252))
  {
    assert Mask(52) == 100;
    assert Repair(241, 52) == 252;
    SmallDigitValues();
    ParseTwoDecimals("241", "/", "52");
    assert "241/52" == "241" + "/" + "52";
  }

  /** An abbreviation below the start's trailing digits gives a range whose end lies before its start. */
  lemma ParseReversedRange()
    ensures ParseRangeSpec("249-2") == Some(Range(249, 242))
  {
    assert Mask(2) == 10;
    assert Repair(249, 2) == 242;
    SmallDigitValues();
    ParseTwoDecimals("249", "-", "2");
    assert "249-2" == "249" + "-" + "2";
  }

  /** Prepending a letter: it adds its value unless a larger letter follows. */
  lemma RomanCons(c: char, rest: string)
    requires IsRomanLetter(c) && AllRoman(rest)
    ensures RomanTotal([c] + rest) ==
      RomanTotal(rest) + (if LetterValue(c) >= MaxValue(rest) then LetterValue(c) as int else -(LetterValue(c) as int))
    ensures MaxValue([c] + rest) == if LetterValue(c) >= MaxValue(rest) then LetterValue(c) else MaxValue(rest)
  {
    assert ([c] + rest)[1..] == rest;
  }

  lemma RomanEleventhToThirteenth()
    ensures RomanTotal("XI") == 11 && RomanTotal("XII") == 12 && RomanTotal("XIII") == 13
  {
    RomanCons('I', []);
    assert [] == "" && ['I'] + [] == "I";
    RomanCons('I', "I");
    assert ['I'] + "I" == "II";
    RomanCons('I', "II");
    assert ['I'] + "II" == "III";
    RomanCons('X', "I");
    assert ['X'] + "I" == "XI";
    RomanCons('X', "II");
    assert ['X'] + "II" == "XII";
    RomanCons('X', "III");
    assert ['X'] + "III" == "XIII";
  }

  lemma RomanZeroTotal()
    ensures RomanTotal("VVX") == 0
  {
    RomanCons('X', []);
    assert ['X'] + [] == "X";
    RomanCons('V', "X");
    assert ['V'] + "X" == "VX";
    RomanCons('V', "VX");
    assert ['V'] + "VX" == "VVX";
  }

  /** A Roman numeral followed by punctuation is one token, and the punctuation none. */
  lemma TokensOfRomanThen(x: string, sep: string, rest: string)
    requires x != [] && AllRoman(x)
    requires sep != [] && NoTokenChar(sep)
    ensures Tokens(x + sep + rest) == [x] + Tokens(rest)
  {
    RomanNotDigit(x[0]);
    TokensRun(x, sep + rest, true);
    TokensSkipAll(sep, rest);
    assert x + sep + rest == x + (sep + rest);
  }

  /** Three Roman numerals separated by punctuation are three tokens. */
  lemma TokensOfRomanTriple(x: string, y: string, z: string, sep: string)
    requires x != [] && AllRoman(x) && y != [] && AllRoman(y) && z != [] && AllRoman(z)
    requires sep != [] && NoTokenChar(sep)
    ensures Tokens(x + sep + y + sep + z) == [x, y, z]
  {
    RomanNotDigit(z[0]);
    TokensRun(z, [], true);
    assert z + [] == z;
    TokensOfRomanThen(y, sep, z);
    TokensOfRomanThen(x, sep, y + sep + z);
    assert x + sep + y + sep + z == x + sep + (y + sep + z);
  }

  lemma RomanNotDigit(c: char)
    requires IsRomanLetter(c)
    ensures !IsDigit(c)
  {
  }

  lemma TokenValuesOfThree(x: Token, y: Token, z: Token, vx: nat, vy: nat, vz: nat)
    requires TokenValue(x) == Some(vx) && TokenValue(y) == Some(vy) && TokenValue(z) == Some(vz)
    ensures TokenValues([x, y, z]) == Some([vx, vy, vz])
  {
    var ts := [x, y, z];
    assert ts[..0] == [] && ts[..3] == ts;
    TokenValuesStep(ts, 0);
    assert [] + [vx] == [vx];
    TokenValuesStep(ts, 1);
    assert [vx] + [vy] == [vx, vy];
    TokenValuesStep(ts, 2);
    assert [vx, vy] + [vz] == [vx, vy, vz];
  }

  lemma ValuesOfRomanExample()
    ensures TokenValues(["XI", "XII", "XIII"]) == Some([11, 12, 13])
  {
    RomanEleventhToThirteenth();
    assert !AllDigits("XI") && !AllDigits("XII") && !AllDigits("XIII");
    TokenValuesOfThree("XI", "XII", "XIII", 11, 12, 13);
  }

  /** "XI-XII-XIII" is the range 11 to 13: Roman numerals, with more than two of them. */
  lemma ParseRomanRange()
    ensures ParseRangeSpec("XI-XII-XIII") == Some(Range(11, 13))
  {
    TokensOfRomanTriple("XI", "XII", "XIII", "-");
    assert "XI-XII-XIII" == "XI" + "-" + "XII" + "-" + "XIII";
    ValuesOfRomanExample();
    RunningMaxSnoc([11], 12);
    RunningMaxSnoc([11, 12], 13);
    assert [11] + [12] == [11, 12];
    assert [11, 12] + [13] == [11, 12, 13];
  }

  /** "VVX" sums to zero, which `parse_roman` refuses, so the whole range is an error. */
  lemma ParseRomanZero()
    ensures ParseRangeSpec("VVX") == None
  {
    TokensRun("VVX", [], true);
    assert "VVX" + [] == "VVX";
    RomanZeroTotal();
    assert !AllDigits("VVX");
    assert TokenValue("VVX") == None;
    assert ["VVX"][..0] == [];
  }

  /** Text with no number in it is an error. */
  lemma ParseNoNumber()
    ensures ParseRangeSpec(" - ") == None
  {
    TokensSkip(' ', []);
    TokensSkip('-', " ");
    TokensSkip(' ', "- ");
    assert " - " == [' '] + "- ";
    assert "- " == ['-'] + " ";
    assert " " == [' '] + [];
  }

  /** Punctuation on both sides of one decimal number: the range of that number alone. */
  lemma ParsePaddedDecimal(prefix: string, a: string, suffix: string)
    requires NoTokenChar(prefix) && NoTokenChar(suffix) && a != [] && AllDigits(a)
    ensures ParseRangeSpec(prefix + a + suffix) == Some(Range(DigitsValue(a), DigitsValue(a)))
  {
    TokensSkipAll(suffix, []);
    assert suffix + [] == suffix;
    TokensRun(a, suffix, false);
    TokensSkipAll(prefix, a + suffix);
    assert prefix + a + suffix == prefix + (a + suffix);
    TokenValuesOfDecimals(a, a);
  }

  /** " 1234 -" is the single number 1234: a dangling separator adds nothing. */
  lemma ParseDanglingSeparator(s: string)
    requires s == " 1234 -"
    ensures ParseRangeSpec(s) == Some(Range(1234, 1234))
  {
    var a := s[1..5];
    assert a == "1234";
    assert "1234"[..3] == "123" && "123"[..2] == "12" && "12"[..1] == "1" && "1"[..0] == "";
    ParsePaddedDecimal(s[..1], a, s[5..]);
    assert s == s[..1] + a + s[5..];
  }
}
