/**
 * Page references ("p.152", "274/275", "p.167-8"): a range of page numbers.
 * Models `src/data/page.rs`.
 */
module Pages {
  import opened Results
  import opened Text
  import opened Ranges

  /** `Page(Range)`. */
  datatype Page = Page(range: Range)

  /** `Page::from_str`: the text read as a range. */
  function ParsePage(s: string): (r: Option<Page>)
    ensures r.Some? <==> ParseRangeSpec(s).Some?
    ensures r.Some? ==> r.value.range == ParseRangeSpec(s).value
  {
    match ParseRangeSpec(s)
    case None => None
    case Some(range) => Some(Page(range))
  }

  /** `Display`: "p.~" and then the range. */
  function DisplayPage(p: Page): string {
    "p.~" + FormatRange(p.range)
  }

  /** The derived order: the order of the ranges. */
  function ComparePages(a: Page, b: Page): Ordering {
    CompareRanges(a.range, b.range)
  }

  /** A displayed page reference whose range is in order is read back unchanged. */
  lemma DisplayPageRoundTrip(p: Page)
    requires p.range.start <= p.range.end
    ensures ParsePage(DisplayPage(p)) == Some(p)
  {
    TokensSkipAll("p.~", FormatRange(p.range));
    FormatRangeRoundTrip(p.range);
  }

  /** Page order is total and antisymmetric, as the range order is. */
  lemma ComparePagesMeaning(a: Page, b: Page)
    ensures ComparePages(a, b) == Equal <==> a == b
    ensures ComparePages(b, a) == ComparePages(a, b).Flip()
  {
    CompareRangesMeaning(a.range, b.range);
  }
}

/** The page parser on entries of the source's own test table. */
module PageExamples {
  import opened Results
  import opened Text
  import opened Ranges
  import opened Pages

  /** Punctuation, then one decimal number. */
  lemma ParseOneDecimal(prefix: string, a: string)
    requires NoTokenChar(prefix) && a != [] && AllDigits(a)
    ensures ParseRangeSpec(prefix + a) == Some(Range(DigitsValue(a), DigitsValue(a)))
  {
    TokensSkipAll(prefix, a);
    TokensRun(a, [], false);
    assert a + [] == a;
    TokenValuesOfDecimals(a, a);
  }

  /** Punctuation, then two decimal numbers around more punctuation. */
  lemma ParsePrefixedTwoDecimals(prefix: string, a: string, sep: string, b: string)
    requires NoTokenChar(prefix)
    requires a != [] && AllDigits(a) && b != [] && AllDigits(b)
    requires sep != [] && NoTokenChar(sep)
    ensures ParseRangeSpec(prefix + a + sep + b) == ParseRangeSpec(a + sep + b)
  {
    TokensSkipAll(prefix, a + sep + b);
    assert prefix + a + sep + b == prefix + (a + sep + b);
  }

  lemma ThreeDigitValues()
    ensures DigitsValue("152") == 152 && DigitsValue("445") == 445
    ensures DigitsValue("274") == 274 && DigitsValue("275") == 275
    ensures DigitsValue("191") == 191 && DigitsValue("192") == 192
    ensures DigitsValue("167") == 167 && DigitsValue("8") == 8
  {
    assert "152"[..2] == "15" && "15"[..1] == "1";
    assert "445"[..2] == "44" && "44"[..1] == "4";
    assert "274"[..2] == "27" && "27"[..1] == "2";
    assert "275"[..2] == "27";
    assert "191"[..2] == "19" && "19"[..1] == "1";
    assert "192"[..2] == "19";
    assert "167"[..2] == "16" && "16"[..1] == "1";
    assert "1"[..0] == "" && "2"[..0] == "" && "4"[..0] == "" && "8"[..0] == "";
  }

  /** "p.152" is page 152. */
  lemma ParsePageSingle()
    ensures ParsePage("p.152") == Some(Page(Range(152, 152)))
  {
    ThreeDigitValues();
    ParseOneDecimal("p.", "152");
    assert "p.152" == "p." + "152";
  }

  /** "p.445" is page 445 (the source's table expects 455 for it, which the code does not produce). */
  lemma ParsePage445()
    ensures ParsePage("p.445") == Some(Page(Range(445, 445)))
  {
    ThreeDigitValues();
    ParseOneDecimal("p.", "445");
    assert "p.445" == "p." + "445";
  }

  /** "274/275" is pages 274 to 275. */
  lemma ParsePageSlash()
    ensures ParsePage("274/275") == Some(Page(Range(274, 275)))
  {
    ThreeDigitValues();
    ParseTwoDecimals("274", "/", "275");
    assert "274/275" == "274" + "/" + "275";
  }

  /** "191 e 192" is pages 191 to 192: a lower-case "e" is not a Roman numeral. */
  lemma ParsePageConjunction()
    ensures ParsePage("191 e 192") == Some(Page(Range(191, 192)))
  {
    ThreeDigitValues();
    ParseTwoDecimals("191", " e ", "192");
    assert "191 e 192" == "191" + " e " + "192";
  }

  /** "p.167-8" is pages 167 to 168: the abbreviated end borrows the tens. */
  lemma ParsePageAbbreviated()
    ensures ParsePage("p.167-8") == Some(Page(Range(167, 168)))
  {
    ThreeDigitValues();
    assert Mask(8) == 10;
    assert Repair(167, 8) == 168;
    ParseTwoDecimals("167", "-", "8");
    ParsePrefixedTwoDecimals("p.", "167", "-", "8");
    assert "p.167-8" == "p." + "167" + "-" + "8";
  }
}
