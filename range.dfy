/**
 * Inclusive numeric ranges as the catalogue writes them: "18", "1234 - 3333",
 * "241-2" (an abbreviated end), "XI-XII-XIII" (Roman numerals).
 * Models `src/data/range.rs`.
 */
module Ranges {
  import opened Results
  import opened Text

  /** `Range(start..=end)`. Nothing forces `start <= end`: the parser can produce either order. */
  datatype Range = Range(start: nat, end: nat)

  /** `From<Idx>`: the range holding one value. */
  function FromValue(n: nat): Range {
    Range(n, n)
  }

  /** `Ord`: by start, then by end. */
  function CompareRanges(a: Range, b: Range): Ordering {
    Then(CompareInt(a.start, b.start), CompareInt(a.end, b.end))
  }

  /** The range order is the lexicographic order on (start, end). */
  lemma CompareRangesMeaning(a: Range, b: Range)
    ensures CompareRanges(a, b) == Less <==> a.start < b.start || (a.start == b.start && a.end < b.end)
    ensures CompareRanges(a, b) == Equal <==> a == b
    ensures CompareRanges(b, a) == CompareRanges(a, b).Flip()
  {
  }

  /** `format_range`: one number when both ends agree, otherwise `start--end` (a LaTeX en dash). */
  function FormatRange(r: Range): string {
    if r.start == r.end then NatToString(r.start)
    else NatToString(r.start) + "--" + NatToString(r.end)
  }

  /** A one-value range displays as that value alone. */
  lemma FormatFromValue(n: nat)
    ensures FormatRange(FromValue(n)) == NatToString(n)
  {
  }

  // ---------------------------------------------------------------------------
  // Tokens: the matches of `(?:\d+|[MDCLXVI]+)`
  // ---------------------------------------------------------------------------

  predicate IsRomanLetter(c: char) {
    c == 'M' || c == 'D' || c == 'C' || c == 'L' || c == 'X' || c == 'V' || c == 'I'
  }

  predicate AllRoman(s: string) {
    forall i :: 0 <= i < |s| ==> IsRomanLetter(s[i])
  }

  /** Which of the two alternatives a character belongs to. */
  predicate InClass(c: char, roman: bool) {
    if roman then IsRomanLetter(c) else IsDigit(c)
  }

  /** The length of the longest prefix of `s` inside one class. */
  function Span(s: string, roman: bool): (n: nat)
    ensures n <= |s|
    ensures forall i :: 0 <= i < n ==> InClass(s[i], roman)
    ensures n == |s| || !InClass(s[n], roman)
  {
    if s != [] && InClass(s[0], roman) then 1 + Span(s[1..], roman) else 0
  }

  /** A matched token: a non-empty run of ASCII digits or of Roman letters. */
  predicate IsToken(t: string) {
    t != [] && (AllDigits(t) || AllRoman(t))
  }

  type Token = t: string | IsToken(t) witness "0"

  /**
   * The successive leftmost-first matches of the number pattern: each is a
   * maximal run of digits or of Roman letters; every other character is skipped.
   */
  function Tokens(s: string): seq<Token>
    decreases |s|
  {
    if s == [] then []
    else if InClass(s[0], false) || InClass(s[0], true) then
      var roman := !IsDigit(s[0]);
      var n := Span(s, roman);
      var t: Token := s[..n];
      [t] + Tokens(s[n..])
    else Tokens(s[1..])
  }

  /** A whole run of one class, followed by something outside it, becomes one token. */
  lemma TokensRun(run: string, rest: string, roman: bool)
    requires run != [] && forall i :: 0 <= i < |run| ==> InClass(run[i], roman)
    requires rest == [] || !InClass(rest[0], roman)
    requires !roman || !IsDigit(run[0])
    ensures Tokens(run + rest) == [run] + Tokens(rest)
  {
    var s := run + rest;
    SpanOfRun(run, rest, roman);
    assert s[..|run|] == run && s[|run|..] == rest;
  }

  lemma {:induction false} SpanOfRun(run: string, rest: string, roman: bool)
    requires forall i :: 0 <= i < |run| ==> InClass(run[i], roman)
    requires rest == [] || !InClass(rest[0], roman)
    ensures Span(run + rest, roman) == |run|
  {
    if run != [] {
      assert (run + rest)[1..] == run[1..] + rest;
      SpanOfRun(run[1..], rest, roman);
    } else {
      assert run + rest == rest;
    }
  }

  /** A character outside both classes produces nothing. */
  lemma TokensSkip(c: char, rest: string)
    requires !IsDigit(c) && !IsRomanLetter(c)
    ensures Tokens([c] + rest) == Tokens(rest)
  {
    assert ([c] + rest)[1..] == rest;
  }

  // ---------------------------------------------------------------------------
  // Roman numerals: `parse_roman`
  // ---------------------------------------------------------------------------

  function LetterValue(c: char): (v: nat)
    requires IsRomanLetter(c)
    ensures v >= 1
  {
    match c
    case 'I' => 1
    case 'V' => 5
    case 'X' => 10
    case 'L' => 50
    case 'C' => 100
    case 'D' => 500
    case 'M' => 1000
  }

  /** The largest letter value in `s` (0 for the empty string). */
  function MaxValue(s: string): (m: nat)
    requires AllRoman(s)
    ensures forall i :: 0 <= i < |s| ==> LetterValue(s[i]) <= m
  {
    if s == [] then 0
    else
      var rest := MaxValue(s[1..]);
      assert forall i :: 1 <= i < |s| ==> s[i] == s[1..][i - 1];
      if LetterValue(s[0]) >= rest then LetterValue(s[0]) else rest
  }

  /** `MaxValue` is the least upper bound of the letter values. */
  lemma {:induction false} MaxValueLeast(s: string, bound: nat)
    requires AllRoman(s)
    requires forall i :: 0 <= i < |s| ==> LetterValue(s[i]) <= bound
    ensures MaxValue(s) <= bound
  {
    if s != [] {
      MaxValueLeast(s[1..], bound);
    }
  }

  /**
   * The signed sum `parse_roman` computes: a letter counts negatively exactly
   * when some letter to its right has a larger value.
   */
  function RomanTotal(s: string): int
    requires AllRoman(s)
  {
    if s == [] then 0
    else
      var d: int := LetterValue(s[0]);
      RomanTotal(s[1..]) + (if d >= MaxValue(s[1..]) then d else -d)
  }

  /** `parse_roman`: the signed sum, when it is positive. */
  function RomanValue(s: string): (r: Option<nat>)
    requires AllRoman(s)
    ensures r.Some? ==> r.value > 0
  {
    var t := RomanTotal(s);
    if t > 0 then Some(t as nat) else None
  }

  /** `parse_roman`: reads the letters from the right, keeping the largest value seen so far. */
  method ParseRoman(s: string) returns (r: Option<nat>)
    requires AllRoman(s)
    ensures r == RomanValue(s)
  {
    var total: int := 0;
    var max: nat := 0;
    var i := |s|;
    while i > 0
      invariant 0 <= i <= |s|
      invariant total == RomanTotal(s[i..]) && max == MaxValue(s[i..])
    {
      i := i - 1;
      assert s[i..][1..] == s[i + 1..];
      var d: int := LetterValue(s[i]);
      total := total + (if d >= max then d else -d);
      if max < d {
        max := LetterValue(s[i]);
      }
    }
    assert s[0..] == s;
    if total > 0 {
      r := Some(total as nat);
    } else {
      r := None;
    }
  }

  /** The sum of the letter values, with no subtraction. */
  function LetterSum(s: string): nat
    requires AllRoman(s)
  {
    if s == [] then 0 else LetterValue(s[0]) + LetterSum(s[1..])
  }

  /** A numeral whose letters never increase left to right is purely additive. */
  lemma {:induction false} RomanAdditive(s: string)
    requires AllRoman(s)
    requires forall i, j :: 0 <= i < j < |s| ==> LetterValue(s[i]) >= LetterValue(s[j])
    ensures RomanTotal(s) == LetterSum(s)
  {
    if s != [] {
      var t := s[1..];
      assert forall i, j :: 0 <= i < j < |t| ==> t[i] == s[i + 1] && t[j] == s[j + 1];
      RomanAdditive(t);
      MaxValueLeast(t, LetterValue(s[0]));
    }
  }

  /** A letter placed before a larger one is subtracted: "IX" is 9, "XC" is 90. */
  lemma RomanSubtractivePair(a: char, b: char)
    requires IsRomanLetter(a) && IsRomanLetter(b) && LetterValue(a) < LetterValue(b)
    ensures RomanTotal([a, b]) == LetterValue(b) - LetterValue(a)
  {
    assert [a, b][1..] == [b];
    assert [b][1..] == [];
    assert MaxValue([b]) == LetterValue(b);
    assert RomanTotal([b]) == LetterValue(b);
  }

  // ---------------------------------------------------------------------------
  // Abbreviated ends: `mask_digits` and the repair step of `parse_range`
  // ---------------------------------------------------------------------------

  /** The smallest power of ten above `n` (1 for 0). */
  function Mask(n: nat): (m: nat)
    ensures m >= 1
  {
    if n == 0 then 1 else 10 * Mask(n / 10)
  }

  predicate IsPowerOfTen(m: nat) {
    m == 1 || (m >= 10 && m % 10 == 0 && IsPowerOfTen(m / 10))
  }

  /** `Mask(n)` is a power of ten, above `n`, and the least such one. */
  lemma {:induction false} MaskIsLeastPowerAbove(n: nat)
    ensures IsPowerOfTen(Mask(n))
    ensures n < Mask(n)
    ensures n == 0 || Mask(n) <= 10 * n
  {
    if n > 0 {
      MaskIsLeastPowerAbove(n / 10);
      assert Mask(n) / 10 == Mask(n / 10);
    }
  }

  lemma MaskAbove(n: nat)
    ensures n < Mask(n)
  {
    MaskIsLeastPowerAbove(n);
  }

  /** `mask_digits`: divides by ten until nothing is left, multiplying the mask by ten each time. */
  method MaskDigits(n: nat) returns (mask: nat)
    ensures mask == Mask(n)
  {
    mask := 1;
    var m := n;
    while m != 0
      invariant mask * Mask(m) == Mask(n)
      decreases m
    {
      MaskStep(mask, m);
      m := m / 10;
      mask := mask * 10;
    }
  }

  /** Moving one digit from `m` into the mask keeps the product. */
  lemma MaskStep(mask: nat, m: nat)
    requires m != 0
    ensures (mask * 10) * Mask(m / 10) == mask * Mask(m)
  {
    TimesTen(mask, Mask(m / 10));
  }

  lemma TimesTen(a: nat, k: nat)
    ensures (a * 10) * k == a * (10 * k)
  {
  }

  /** `max / mask * mask`: the digits of `max` above the mask, with the ones below cleared. */
  function Leading(max: nat, mask: nat): nat
    requires mask >= 1
  {
    max / mask * mask
  }

  /**
   * One step of the running maximum: a number at least as large replaces it;
   * a smaller one is read as an abbreviation and overwrites the last digits.
   */
  function Repair(max: nat, num: nat): nat {
    if num >= max then num
    else
      var mask := Mask(num);
      Leading(max, mask) + num
  }

  lemma {:induction false} MulStep(a: nat, b: nat, k: nat)
    requires a < b
    ensures a * k + k <= b * k
    decreases b - a
  {
    assert (b - 1) * k + k == b * k;
    if b - 1 > a {
      MulStep(a, b - 1, k);
    }
  }

  /** Euclidean division undoes `q * k + x` when `x < k`. */
  lemma DivModOf(q: nat, k: nat, x: nat)
    requires 0 <= x < k
    ensures (q * k + x) / k == q && (q * k + x) % k == x
  {
    var a := q * k + x;
    var q' := a / k;
    var x' := a % k;
    assert q' * k + x' == q * k + x;
    if q' < q {
      MulStep(q', q, k);
    } else if q' > q {
      MulStep(q, q', k);
    }
  }

  /**
   * An abbreviated end keeps the leading digits of the previous value and takes
   * its trailing digits from the abbreviation; it extends the range exactly when
   * the abbreviation is at least the previous value's trailing digits.
   */
  lemma RepairAbbreviation(max: nat, num: nat)
    requires num < max
    ensures Repair(max, num) % Mask(num) == num
    ensures Repair(max, num) / Mask(num) == max / Mask(num)
    ensures Repair(max, num) >= max <==> num >= max % Mask(num)
  {
    MaskAbove(num);
    ReplaceLowDigits(max, Mask(num), num);
  }

  /** Replacing the remainder of `max` modulo `k` by `x`. */
  lemma ReplaceLowDigits(max: nat, k: nat, x: nat)
    requires x < k
    ensures (max / k * k + x) % k == x
    ensures (max / k * k + x) / k == max / k
    ensures max / k * k + x >= max <==> x >= max % k
  {
    var high := max / k;
    DivModOf(high, k, x);
    Euclid(max, k);
  }

  lemma Euclid(a: nat, k: nat)
    requires k >= 1
    ensures a == (a / k) * k + a % k
  {
  }

  /** The repaired value always ends with the digits of the number just read. */
  lemma RepairEndsWithNumber(max: nat, num: nat)
    ensures Repair(max, num) % Mask(num) == num
  {
    MaskIsLeastPowerAbove(num);
    if num < max {
      RepairAbbreviation(max, num);
    } else {
      DivModOf(0, Mask(num), num);
    }
  }

  // ---------------------------------------------------------------------------
  // `parse_range`
  // ---------------------------------------------------------------------------

  /** `u32::from_str` on a token: succeeds exactly on runs of digits. */
  function ParseDecimal(t: string): (r: Option<nat>)
    ensures r.Some? <==> t != [] && AllDigits(t)
  {
    if t != [] && AllDigits(t) then Some(DigitsValue(t)) else None
  }

  /** The value of one token: decimal if it parses as such, else Roman. */
  function TokenValue(t: Token): Option<nat> {
    match ParseDecimal(t)
    case Some(n) => Some(n)
    case None => RomanValue(t)
  }

  /** The values of all tokens, or `None` as soon as one of them has none. */
  function TokenValues(ts: seq<Token>): (r: Option<seq<nat>>)
    ensures r.Some? ==> |r.value| == |ts|
  {
    if ts == [] then Some([])
    else
      match TokenValues(ts[..|ts| - 1])
      case None => None
      case Some(vs) =>
        match TokenValue(ts[|ts| - 1])
        case None => None
        case Some(v) => Some(vs + [v])
  }

  /** The running maximum after all the values, repairing abbreviations as it goes. */
  function RunningMax(vs: seq<nat>): nat
    requires vs != []
  {
    if |vs| == 1 then vs[0] else Repair(RunningMax(vs[..|vs| - 1]), vs[|vs| - 1])
  }

  /** `parse_range`: the first value is the start, the running maximum the end; no value is an error. */
  function ParseRangeSpec(s: string): Option<Range> {
    match TokenValues(Tokens(s))
    case None => None
    case Some(vs) => if vs == [] then None else Some(Range(vs[0], RunningMax(vs)))
  }

  /** The maximum after `num`: the first number, or the repair of the maximum so far. */
  method NextMax(max: Option<nat>, num: nat) returns (next: nat)
    ensures next == if max.None? then num else Repair(max.value, num)
  {
    match max {
      case None =>
        next := num;
      case Some(m) =>
        if num >= m {
          next := num;
        } else {
          var mask := MaskDigits(num);
          next := Leading(m, mask) + num;
        }
    }
  }

  /** `parse_range`, token by token, as the source loops over the matches. */
  method ParseRange(s: string) returns (r: Option<Range>)
    ensures r == ParseRangeSpec(s)
  {
    var tokens := Tokens(s);
    var min: Option<nat> := None;
    var max: Option<nat> := None;
    ghost var values: seq<nat> := [];
    var i := 0;
    assert tokens[..0] == [];
    while i < |tokens|
      invariant 0 <= i <= |tokens|
      invariant TokenValues(tokens[..i]) == Some(values)
      invariant i == 0 ==> min.None? && max.None?
      invariant i > 0 ==> min == Some(values[0]) && max == Some(RunningMax(values))
    {
      TokenValuesStep(tokens, i);
      var t := tokens[i];
      var parsed := ParseDecimal(t);
      if parsed.None? {
        parsed := ParseRoman(t);
      }
      if parsed.None? {
        TokenValuesFailure(tokens, i + 1);
        return None;
      }
      var num := parsed.value;
      if min.None? {
        min := Some(num);
      }
      RunningMaxSnoc(values, num);
      var next := NextMax(max, num);
      max := Some(next);
      values := values + [num];
      i := i + 1;
    }
    assert tokens[..i] == tokens;
    if min.Some? && max.Some? {
      r := Some(Range(min.value, max.value));
    } else {
      r := None;
    }
  }

  lemma TokenValuesStep(ts: seq<Token>, i: nat)
    requires i < |ts|
    ensures TokenValues(ts[..i + 1]) ==
      match TokenValues(ts[..i])
      case None => None
      case Some(vs) => match TokenValue(ts[i]) case None => None case Some(v) => Some(vs + [v])
  {
    assert ts[..i + 1][..i] == ts[..i];
  }

  /** Appending a value applies one repair step to the running maximum. */
  lemma RunningMaxSnoc(vs: seq<nat>, v: nat)
    ensures vs == [] ==> RunningMax(vs + [v]) == v
    ensures vs != [] ==> RunningMax(vs + [v]) == Repair(RunningMax(vs), v)
  {
    assert (vs + [v])[..|vs|] == vs;
  }

  /** Once a prefix of the tokens has no values, neither has the whole sequence. */
  lemma {:induction false} TokenValuesFailure(ts: seq<Token>, n: nat)
    requires n <= |ts| && TokenValues(ts[..n]).None?
    ensures TokenValues(ts).None?
    decreases |ts| - n
  {
    if n < |ts| {
      assert ts[..n + 1][..n] == ts[..n];
      TokenValuesFailure(ts, n + 1);
    } else {
      assert ts[..n] == ts;
    }
  }

  /** The end of a parsed range always ends with the digits of the last number written. */
  lemma ParsedEndEndsWithLastNumber(s: string)
    requires ParseRangeSpec(s).Some?
    ensures var vs := TokenValues(Tokens(s)).value;
      ParseRangeSpec(s).value.end % Mask(vs[|vs| - 1]) == vs[|vs| - 1]
  {
    var vs := TokenValues(Tokens(s)).value;
    if |vs| == 1 {
      MaskIsLeastPowerAbove(vs[0]);
      DivModOf(0, Mask(vs[0]), vs[0]);
    } else {
      RepairEndsWithNumber(RunningMax(vs[..|vs| - 1]), vs[|vs| - 1]);
    }
  }

  /** Values written in non-decreasing order give the range from the first to the last. */
  lemma {:induction false} RunningMaxNonDecreasing(vs: seq<nat>)
    requires vs != []
    requires forall i, j :: 0 <= i < j < |vs| ==> vs[i] <= vs[j]
    ensures RunningMax(vs) == vs[|vs| - 1]
  {
    if |vs| > 1 {
      RunningMaxNonDecreasing(vs[..|vs| - 1]);
    }
  }

  lemma TokensOfNumber(n: nat, rest: string)
    requires rest == [] || !IsDigit(rest[0])
    ensures Tokens(NatToString(n) + rest) == [NatToString(n)] + Tokens(rest)
  {
    TokensRun(NatToString(n), rest, false);
  }

  /** The tokens of a displayed range are the displayed numbers. */
  lemma TokensOfFormat(r: Range)
    ensures r.start == r.end ==> Tokens(FormatRange(r)) == [NatToString(r.start)]
    ensures r.start != r.end ==> Tokens(FormatRange(r)) == [NatToString(r.start), NatToString(r.end)]
  {
    var a := NatToString(r.start);
    var b := NatToString(r.end);
    if r.start == r.end {
      TokensOfNumber(r.start, []);
      assert a + [] == a;
    } else {
      TokensOfTwoNumbers(a, b);
    }
  }

  lemma TokensOfTwoNumbers(a: string, b: string)
    requires a != [] && AllDigits(a) && b != [] && AllDigits(b)
    ensures Tokens(a + "--" + b) == [a, b]
  {
    TokensRun(b, [], false);
    assert b + [] == b;
    TokensSkipAll("--", b);
    TokensRun(a, "--" + b, false);
    assert a + "--" + b == a + ("--" + b);
  }

  /** Values of one or two decimal tokens. */
  lemma TokenValuesOfDecimals(a: Token, b: Token)
    requires AllDigits(a) && AllDigits(b)
    ensures TokenValues([a]) == Some([DigitsValue(a)])
    ensures TokenValues([a, b]) == Some([DigitsValue(a), DigitsValue(b)])
  {
    assert TokenValue(a) == Some(DigitsValue(a));
    assert TokenValue(b) == Some(DigitsValue(b));
    assert [a][..0] == [];
    assert TokenValues([a][..0]) == Some([]);
    assert [] + [DigitsValue(a)] == [DigitsValue(a)];
    assert [a, b][..1] == [a];
    assert [DigitsValue(a)] + [DigitsValue(b)] == [DigitsValue(a), DigitsValue(b)];
  }

  /** A range displayed with its ends in order is read back unchanged. */
  lemma FormatRangeRoundTrip(r: Range)
    requires r.start <= r.end
    ensures ParseRangeSpec(FormatRange(r)) == Some(r)
  {
    var a := NatToString(r.start);
    var b := NatToString(r.end);
    NatToStringRoundTrip(r.start);
    NatToStringRoundTrip(r.end);
    TokensOfFormat(r);
    TokenValuesOfDecimals(a, b);
    if r.start != r.end {
      RunningMaxSnoc([r.start], r.end);
      assert [r.start] + [r.end] == [r.start, r.end];
    }
  }

  /** No digit and no Roman letter: text the number pattern skips over. */
  predicate NoTokenChar(s: string) {
    forall i :: 0 <= i < |s| ==> !IsDigit(s[i]) && !IsRomanLetter(s[i])
  }

  lemma {:induction false} TokensSkipAll(junk: string, rest: string)
    requires NoTokenChar(junk)
    ensures Tokens(junk + rest) == Tokens(rest)
  {
    if junk != [] {
      assert junk + rest == [junk[0]] + (junk[1..] + rest);
      TokensSkip(junk[0], junk[1..] + rest);
      TokensSkipAll(junk[1..], rest);
    } else {
      assert junk + rest == rest;
    }
  }

  /** Two decimal numbers around punctuation: the first is the start, the repaired second the end. */
  lemma ParseTwoDecimals(a: string, sep: string, b: string)
    requires a != [] && AllDigits(a) && b != [] && AllDigits(b)
    requires sep != [] && NoTokenChar(sep)
    ensures ParseRangeSpec(a + sep + b) == Some(Range(DigitsValue(a), Repair(DigitsValue(a), DigitsValue(b))))
  {
    TokensRun(b, [], false);
    assert b + [] == b;
    TokensSkipAll(sep, b);
    TokensRun(a, sep + b, false);
    assert a + sep + b == a + (sep + b);
    TokenValuesOfDecimals(a, b);
    RunningMaxSnoc([DigitsValue(a)], DigitsValue(b));
    assert [DigitsValue(a)] + [DigitsValue(b)] == [DigitsValue(a), DigitsValue(b)];
  }
}
