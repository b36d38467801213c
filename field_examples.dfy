/** The field parser on a cell of the catalogue. */
module FieldExamples {
  import opened Results
  import opened Text
  import opened Ranges
  import opened RangeExamples
  import opened Fields

  lemma TokensOfFiveVVX(s: string)
    requires s == "5 VVX"
    ensures Tokens(s) == ["5", "VVX"]
  {
    TokensRun("VVX", [], true);
    assert "VVX" + [] == "VVX";
    TokensSkip(' ', "VVX");
    TokensRun("5", " VVX", false);
    assert s == "5" + " VVX";
    assert " VVX" == [' '] + "VVX";
  }

  lemma RangeOfFiveVVX(s: string)
    requires s == "5 VVX"
    ensures ParseRangeSpec(s) == None
  {
    TokensOfFiveVVX(s);
    RomanZeroTotal();
    assert !AllDigits("VVX");
    assert TokenValue("VVX") == None;
    var ts: seq<Token> := ["5", "VVX"];
    assert ts[..1] == ["5"];
  }

  /**
   * "5 VVX" names no range ("VVX" sums to zero), so the cell is kept as
   * non-standard text: the third cell of `RangeFieldOrderCycle` occurs.
   */
  lemma NonStandardRangeCell(s: string)
    requires s == "5 VVX"
    ensures ParseField(s, ParseRangeSpec) == NotStandard(s)
  {
    RangeOfFiveVVX(s);
    assert Trimmed(s);
    TrimOfTrimmed(s);
  }
}
