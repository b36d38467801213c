/**
 * The number/volume parser on entries of the source's own test table, and on a
 * volume whose Roman numeral has no value.
 */
module NumberVolumeExamples {
  import opened Results
  import opened Text
  import opened Ranges
  import opened NumberVolumes
  import opened RangeExamples

  /** Positions holding some other letter than the marker's are passed over. */
  lemma {:induction false} CaptureSkipsOtherLetters(s: string, p: nat, q: nat, m: Marker)
    requires p <= q <= |s|
    requires forall i :: p <= i < q ==> s[i] != m.Letter()
    ensures CaptureFrom(s, p, m) == CaptureFrom(s, q, m)
    decreases q - p
  {
    if p < q {
      CaptureSkipsOtherLetters(s, p + 1, q, m);
    }
  }

  /** The marker's letter at `p`, followed by a group that matches: the capture starts there. */
  lemma CaptureAt(s: string, p: nat, m: Marker)
    requires p < |s| && s[p] == m.Letter()
    requires GroupStep(s, PrefixEnd(s, p, m), m).Some?
    ensures CaptureFrom(s, p, m) == Some(s[PrefixEnd(s, p, m)..GroupEnd(s, PrefixEnd(s, p, m), m)])
  {
  }

  /** Two decimal numbers around punctuation, then more punctuation: the trailing text adds nothing. */
  lemma ParseTwoDecimalsThen(a: string, sep: string, b: string, suffix: string)
    requires a != [] && AllDigits(a) && b != [] && AllDigits(b)
    requires sep != [] && NoTokenChar(sep) && NoTokenChar(suffix)
    ensures ParseRangeSpec(a + sep + b + suffix) == ParseRangeSpec(a + sep + b)
  {
    TokensSkipAll(suffix, []);
    assert suffix + [] == suffix;
    TokensRun(b, suffix, false);
    TokensRun(b, [], false);
    assert b + [] == b;
    TokensSkipAll(sep, b + suffix);
    TokensSkipAll(sep, b);
    TokensRun(a, sep + b + suffix, false);
    TokensRun(a, sep + b, false);
    assert a + sep + b + suffix == a + (sep + b + suffix);
    assert sep + b + suffix == sep + (b + suffix);
    assert a + sep + b == a + (sep + b);
  }

  lemma SmallValues()
    ensures DigitsValue("1") == 1 && DigitsValue("2") == 2
    ensures DigitsValue("18") == 18 && DigitsValue("19") == 19
  {
    assert "1"[..0] == [] && "2"[..0] == [];
    assert "18"[..1] == "1" && "19"[..1] == "1";
  }

  lemma ParseOneToTwoPadded()
    ensures ParseRangeSpec("1-2 ") == Some(Range(1, 2))
  {
    SmallValues();
    ParseTwoDecimalsThen("1", "-", "2", " ");
    ParseTwoDecimals("1", "-", "2");
    assert "1-2 " == "1" + "-" + "2" + " ";
  }

  lemma ParseEighteenToNineteen()
    ensures ParseRangeSpec("18-19") == Some(Range(18, 19))
  {
    SmallValues();
    ParseTwoDecimals("18", "-", "19");
    assert "18-19" == "18" + "-" + "19";
  }

  lemma ParseOneAndTwo()
    ensures ParseRangeSpec("1 e 2") == Some(Range(1, 2))
  {
    SmallValues();
    ParseTwoDecimals("1", " e ", "2");
    assert "1 e 2" == "1" + " e " + "2";
  }

  // ---------------------------------------------------------------------------
  // "N.1-2 V.18-19": number 1 to 2, volume 18 to 19
  // ---------------------------------------------------------------------------

  lemma NumberCaptureNV(s: string)
    requires s == "N.1-2 V.18-19"
    ensures Capture(s, NumberMarker) == Some("1-2 ")
  {
    assert s[1..][..5][0] == '.' && "úmero"[0] == 'ú';
    assert !StartsWith(s[1..], "úmero");
    assert PrefixEnd(s, 0, NumberMarker) == 2;
    assert SkipClass(s, 2, 0) == 2; assert SkipClass(s, 3, 0) == 3; assert SkipClass(s, 2, 1) == 3;
    assert GroupStep(s, 2, NumberMarker) == Some(3);
    assert SkipClass(s, 4, 0) == 4; assert SkipClass(s, 5, 1) == 5; assert SkipClass(s, 4, 1) == 5;
    assert SkipClass(s, 6, 0) == 6; assert SkipClass(s, 5, 0) == 6;
    assert GroupStep(s, 3, NumberMarker) == Some(6);
    assert SkipClass(s, 6, 1) == 6;
    assert GroupStep(s, 6, NumberMarker) == None;
    assert GroupEnd(s, 6, NumberMarker) == 6; assert GroupEnd(s, 3, NumberMarker) == 6; assert GroupEnd(s, 2, NumberMarker) == 6;
    assert s[2..6] == "1-2 ";
  }

  lemma VolumeCaptureNV(s: string)
    requires s == "N.1-2 V.18-19"
    ensures Capture(s, VolumeMarker) == Some("18-19")
  {
    CaptureSkipsOtherLetters(s, 0, 6, VolumeMarker);
    assert s[7..][..5][0] == '.' && "olume"[0] == 'o';
    assert !StartsWith(s[7..], "olume");
    assert PrefixEnd(s, 6, VolumeMarker) == 8;
    assert SkipClass(s, 8, 0) == 8; assert SkipClass(s, 10, 1) == 10; assert SkipClass(s, 9, 1) == 10; assert SkipClass(s, 8, 1) == 10;
    assert GroupStep(s, 8, VolumeMarker) == Some(10);
    assert SkipClass(s, 11, 0) == 11; assert SkipClass(s, 12, 1) == 13; assert SkipClass(s, 11, 1) == 13;
    assert GroupStep(s, 10, VolumeMarker) == Some(13);
    assert SkipClass(s, 13, 0) == 13; assert SkipClass(s, 13, 1) == 13; assert SkipClass(s, 13, 2) == 13;
    assert GroupStep(s, 13, VolumeMarker) == None;
    assert GroupEnd(s, 13, VolumeMarker) == 13; assert GroupEnd(s, 10, VolumeMarker) == 13; assert GroupEnd(s, 8, VolumeMarker) == 13;
    assert s[8..13] == "18-19";
  }

  /** "N.1-2 V.18-19" is number 1 to 2 of volume 18 to 19. */
  lemma ParseNumberAndVolume(s: string)
    requires s == "N.1-2 V.18-19"
    ensures ParseNumberVolumeAsWritten(s) == Ok(NumberVolume(Some(Range(1, 2)), Some(Range(18, 19))))
    ensures ParseNumberVolume(s) == Some(NumberVolume(Some(Range(1, 2)), Some(Range(18, 19))))
  {
    NumberCaptureNV(s);
    VolumeCaptureNV(s);
    ParseOneToTwoPadded();
    ParseEighteenToNineteen();
  }

  // ---------------------------------------------------------------------------
  // "Volumes XI-XII-XIII": no number, volume 11 to 13
  // ---------------------------------------------------------------------------

  lemma VolumeCaptureRoman(s: string)
    requires s == "Volumes XI-XII-XIII"
    ensures Capture(s, VolumeMarker) == Some("XI-XII-XIII")
  {
    assert s[1..][..5] == "olume";
    assert PrefixEnd(s, 0, VolumeMarker) == 8;
    assert SkipClass(s, 8, 0) == 8; assert SkipClass(s, 8, 1) == 8;
    assert SkipClass(s, 10, 2) == 10; assert SkipClass(s, 9, 2) == 10; assert SkipClass(s, 8, 2) == 10;
    assert GroupStep(s, 8, VolumeMarker) == Some(10);
    assert SkipClass(s, 11, 0) == 11; assert SkipClass(s, 11, 1) == 11;
    assert SkipClass(s, 14, 2) == 14; assert SkipClass(s, 13, 2) == 14; assert SkipClass(s, 12, 2) == 14; assert SkipClass(s, 11, 2) == 14;
    assert GroupStep(s, 10, VolumeMarker) == Some(14);
    assert SkipClass(s, 15, 0) == 15; assert SkipClass(s, 15, 1) == 15;
    assert SkipClass(s, 18, 2) == 19; assert SkipClass(s, 17, 2) == 19; assert SkipClass(s, 16, 2) == 19; assert SkipClass(s, 15, 2) == 19;
    assert GroupStep(s, 14, VolumeMarker) == Some(19);
    assert GroupStep(s, 19, VolumeMarker) == None;
    assert GroupEnd(s, 19, VolumeMarker) == 19; assert GroupEnd(s, 14, VolumeMarker) == 19;
    assert GroupEnd(s, 10, VolumeMarker) == 19; assert GroupEnd(s, 8, VolumeMarker) == 19;
    assert s[8..19] == "XI-XII-XIII";
  }

  /** "Volumes XI-XII-XIII" is volumes 11 to 13, with no number. */
  lemma ParseRomanVolumes(s: string)
    requires s == "Volumes XI-XII-XIII"
    ensures ParseNumberVolumeAsWritten(s) == Ok(NumberVolume(None, Some(Range(11, 13))))
    ensures ParseNumberVolume(s) == Some(NumberVolume(None, Some(Range(11, 13))))
  {
    CaptureSkipsOtherLetters(s, 0, |s|, NumberMarker);
    VolumeCaptureRoman(s);
    ParseRomanRange();
  }

  // ---------------------------------------------------------------------------
  // "Volume IX - Número 1 e 2": number 1 to 2, volume 9
  // ---------------------------------------------------------------------------

  /** After "Número" come the groups "1 " and "e 2", up to the end of the text. */
  lemma NumberGroupsWord(s: string)
    requires s == "Volume IX - Número 1 e 2"
    ensures s[12] == NumberMarker.Letter() && PrefixEnd(s, 12, NumberMarker) == 19
    ensures GroupStep(s, 19, NumberMarker).Some? && GroupEnd(s, 19, NumberMarker) == 24
    ensures s[19..24] == "1 e 2"
  {
    assert s[13..][..5] == "úmero";
    assert SkipClass(s, 19, 0) == 19; assert SkipClass(s, 20, 1) == 20; assert SkipClass(s, 19, 1) == 20;
    assert SkipClass(s, 21, 0) == 21; assert SkipClass(s, 20, 0) == 21;
    assert GroupStep(s, 19, NumberMarker) == Some(21);
    assert SkipClass(s, 23, 0) == 23; assert SkipClass(s, 22, 0) == 23;
    assert SkipClass(s, 24, 1) == 24; assert SkipClass(s, 23, 1) == 24; assert SkipClass(s, 24, 0) == 24;
    assert GroupStep(s, 21, NumberMarker) == Some(24);
    assert GroupStep(s, 24, NumberMarker) == None;
    assert GroupEnd(s, 24, NumberMarker) == 24; assert GroupEnd(s, 21, NumberMarker) == 24;
  }

  /** No `N` before position 12. */
  lemma NumberWordSkip(s: string)
    requires s == "Volume IX - Número 1 e 2"
    ensures CaptureFrom(s, 0, NumberMarker) == CaptureFrom(s, 12, NumberMarker)
  {
    CaptureSkipsOtherLetters(s, 0, 12, NumberMarker);
  }

  lemma NumberCaptureWord(s: string)
    requires s == "Volume IX - Número 1 e 2"
    ensures Capture(s, NumberMarker) == Some("1 e 2")
  {
    NumberWordSkip(s);
    NumberGroupsWord(s);
    CaptureAt(s, 12, NumberMarker);
  }

  lemma VolumeCaptureWord(s: string)
    requires s == "Volume IX - Número 1 e 2"
    ensures Capture(s, VolumeMarker) == Some("IX")
  {
    assert s[1..][..5] == "olume";
    assert PrefixEnd(s, 0, VolumeMarker) == 7;
    assert SkipClass(s, 7, 0) == 7; assert SkipClass(s, 7, 1) == 7;
    assert SkipClass(s, 9, 2) == 9; assert SkipClass(s, 8, 2) == 9; assert SkipClass(s, 7, 2) == 9;
    assert GroupStep(s, 7, VolumeMarker) == Some(9);
    assert SkipClass(s, 10, 0) == 10; assert SkipClass(s, 9, 0) == 10;
    assert SkipClass(s, 10, 1) == 10; assert SkipClass(s, 10, 2) == 10;
    assert GroupStep(s, 9, VolumeMarker) == None;
    assert GroupEnd(s, 9, VolumeMarker) == 9; assert GroupEnd(s, 7, VolumeMarker) == 9;
    assert s[7..9] == "IX";
  }

  /** "IX" is the single volume 9: a subtractive pair. */
  lemma ParseNine()
    ensures ParseRangeSpec("IX") == Some(Range(9, 9))
  {
    RomanSubtractivePair('I', 'X');
    assert ['I', 'X'] == "IX";
    TokensRun("IX", [], true);
    assert "IX" + [] == "IX";
    assert !AllDigits("IX");
    assert ["IX"][..0] == [];
  }

  /** "Volume IX - Número 1 e 2" is number 1 to 2 of volume 9. */
  lemma ParseSpelledOut(s: string)
    requires s == "Volume IX - Número 1 e 2"
    ensures ParseNumberVolumeAsWritten(s) == Ok(NumberVolume(Some(Range(1, 2)), Some(Range(9, 9))))
    ensures ParseNumberVolume(s) == Some(NumberVolume(Some(Range(1, 2)), Some(Range(9, 9))))
  {
    NumberCaptureWord(s);
    VolumeCaptureWord(s);
    ParseOneAndTwo();
    ParseNine();
  }

  // ---------------------------------------------------------------------------
  // "Volume VVX": the marker matches, its numeral has no value
  // ---------------------------------------------------------------------------

  lemma VolumeCaptureZero(s: string)
    requires s == "Volume VVX"
    ensures Capture(s, VolumeMarker) == Some("VVX")
  {
    assert s[1..][..5] == "olume";
    assert PrefixEnd(s, 0, VolumeMarker) == 7;
    assert SkipClass(s, 7, 0) == 7; assert SkipClass(s, 7, 1) == 7;
    assert SkipClass(s, 10, 2) == 10; assert SkipClass(s, 9, 2) == 10; assert SkipClass(s, 8, 2) == 10; assert SkipClass(s, 7, 2) == 10;
    assert GroupStep(s, 7, VolumeMarker) == Some(10);
    assert GroupStep(s, 10, VolumeMarker) == None;
    assert GroupEnd(s, 10, VolumeMarker) == 10; assert GroupEnd(s, 7, VolumeMarker) == 10;
    assert s[7..10] == "VVX";
  }

  /**
   * "Volume VVX": the source builds a record with neither side, which its display
   * cannot print; the corrected parser refuses the text.
   */
  lemma ParseValuelessVolume(s: string)
    requires s == "Volume VVX"
    ensures ParseNumberVolumeAsWritten(s) == Ok(NumberVolume(None, None))
    ensures ParseNumberVolume(s) == None
  {
    CaptureSkipsOtherLetters(s, 0, |s|, NumberMarker);
    VolumeCaptureZero(s);
    ParseRomanZero();
  }
}
