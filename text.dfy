/**
 * The parts of Rust's `str`, `char` and `Ord` machinery that the catalogue
 * code relies on, stated over `string` (a sequence of Unicode scalar values).
 */
module Text {

  // ---------------------------------------------------------------------------
  // Orderings
  // ---------------------------------------------------------------------------

  /** `std::cmp::Ordering`. */
  datatype Ordering = Less | Equal | Greater {
    /** The ordering seen from the other operand. */
    function Flip(): Ordering {
      match this
      case Less => Greater
      case Equal => Equal
      case Greater => Less
    }
  }

  /** Lexicographic combination: the second comparison decides only a tie. */
  function Then(first: Ordering, second: Ordering): Ordering {
    if first == Equal then second else first
  }

  /** `Ord::cmp` on integers. */
  function CompareInt(a: int, b: int): (r: Ordering)
    ensures r == Less <==> a < b
    ensures r == Equal <==> a == b
  {
    if a < b then Less else if a == b then Equal else Greater
  }

  /**
   * `Ord::cmp` on `str`: byte-wise comparison of the UTF-8 encodings, which
   * orders strings exactly as comparing their code points lexicographically.
   */
  function CompareStrings(a: string, b: string): Ordering {
    if a == [] then (if b == [] then Equal else Less)
    else if b == [] then Greater
    else if a[0] < b[0] then Less
    else if a[0] > b[0] then Greater
    else CompareStrings(a[1..], b[1..])
  }

  lemma {:induction false} CompareStringsEqual(a: string, b: string)
    ensures CompareStrings(a, b) == Equal <==> a == b
  {
    if a != [] && b != [] && a[0] == b[0] {
      CompareStringsEqual(a[1..], b[1..]);
      assert a == [a[0]] + a[1..] && b == [b[0]] + b[1..];
    }
  }

  lemma {:induction false} CompareStringsFlip(a: string, b: string)
    ensures CompareStrings(b, a) == CompareStrings(a, b).Flip()
  {
    if a != [] && b != [] && a[0] == b[0] {
      CompareStringsFlip(a[1..], b[1..]);
    }
  }

  lemma {:induction false} CompareStringsTransitive(a: string, b: string, c: string)
    requires CompareStrings(a, b) == Less && CompareStrings(b, c) == Less
    ensures CompareStrings(a, c) == Less
  {
    if a != [] && b != [] && c != [] && a[0] == b[0] && b[0] == c[0] {
      CompareStringsTransitive(a[1..], b[1..], c[1..]);
    }
  }

  // ---------------------------------------------------------------------------
  // Characters
  // ---------------------------------------------------------------------------

  /** ASCII decimal digit. */
  predicate IsDigit(c: char) {
    '0' <= c <= '9'
  }

  predicate AllDigits(s: string) {
    forall i :: 0 <= i < |s| ==> IsDigit(s[i])
  }

  /** `char::is_whitespace`: the Unicode White_Space property (also the `\s` class of the regex crate). */
  predicate IsWhitespace(c: char) {
    || '\t' <= c <= '\r'
    || c == ' '
    || c == '\U{0085}'
    || c == '\U{00A0}'
    || c == '\U{1680}'
    || '\U{2000}' <= c <= '\U{200A}'
    || c == '\U{2028}'
    || c == '\U{2029}'
    || c == '\U{202F}'
    || c == '\U{205F}'
    || c == '\U{3000}'
  }

  predicate AllWhitespace(s: string) {
    forall i :: 0 <= i < |s| ==> IsWhitespace(s[i])
  }

  /** Upper-case letters of ASCII and Latin-1 (the multiplication sign excepted). */
  predicate IsUpper(c: char) {
    'A' <= c <= 'Z' || ('\U{00C0}' <= c <= '\U{00DE}' && c != '\U{00D7}')
  }

  /** Lower-case letters of ASCII and Latin-1 that have a one-letter upper case. */
  predicate IsLower(c: char) {
    'a' <= c <= 'z' || ('\U{00E0}' <= c <= '\U{00FE}' && c != '\U{00F7}')
  }

  /** `char::to_lowercase` on ASCII and Latin-1; other characters are left as they are. */
  function LowerChar(c: char): (r: char)
    ensures IsUpper(c) ==> IsLower(r) && r as int == c as int + 32
    ensures !IsUpper(c) ==> r == c
  {
    if IsUpper(c) then (c as int + 32) as char else c
  }

  /** `char::to_uppercase` on ASCII and Latin-1; other characters are left as they are. */
  function UpperChar(c: char): (r: char)
    ensures IsLower(c) ==> IsUpper(r) && r as int == c as int - 32
    ensures !IsLower(c) ==> r == c
  {
    if IsLower(c) then (c as int - 32) as char else c
  }

  /** `str::to_lowercase`, character by character. */
  function Lower(s: string): (r: string)
    ensures |r| == |s|
    ensures forall i :: 0 <= i < |s| ==> r[i] == LowerChar(s[i])
  {
    seq(|s|, i requires 0 <= i < |s| => LowerChar(s[i]))
  }

  /** Lower-casing twice changes nothing more. */
  lemma LowerIdempotent(s: string)
    ensures Lower(Lower(s)) == Lower(s)
  {
    forall i | 0 <= i < |s| ensures Lower(Lower(s))[i] == Lower(s)[i] {
      assert !IsUpper(LowerChar(s[i]));
    }
  }

  /** Case mapping neither creates nor removes whitespace. */
  lemma CaseKeepsWhitespace(c: char)
    ensures IsWhitespace(LowerChar(c)) == IsWhitespace(c)
    ensures IsWhitespace(UpperChar(c)) == IsWhitespace(c)
  {
  }

  // ---------------------------------------------------------------------------
  // Trimming
  // ---------------------------------------------------------------------------

  /** `str::trim_start`: drops the longest all-whitespace prefix. */
  function TrimStart(s: string): (r: string)
    ensures |r| <= |s| && r == s[|s| - |r|..]
    ensures AllWhitespace(s[..|s| - |r|])
    ensures r == [] || !IsWhitespace(r[0])
  {
    if s != [] && IsWhitespace(s[0]) then
      var r := TrimStart(s[1..]);
      TrimStartStep(s, r);
      r
    else s
  }

  /** A whitespace character in front keeps the suffix left by trimming the rest. */
  lemma TrimStartStep(s: string, r: string)
    requires s != [] && IsWhitespace(s[0])
    requires |r| <= |s| - 1 && r == s[1..][|s| - 1 - |r|..]
    requires AllWhitespace(s[1..][..|s| - 1 - |r|])
    ensures r == s[|s| - |r|..] && AllWhitespace(s[..|s| - |r|])
  {
    var k := |s| - |r|;
    forall i | 0 <= i < k
      ensures IsWhitespace(s[..k][i])
    {
      if i > 0 {
        assert s[..k][i] == s[1..][..k - 1][i - 1];
      }
    }
  }

  /** `str::trim_end`: drops the longest all-whitespace suffix. */
  function TrimEnd(s: string): (r: string)
    ensures |r| <= |s| && r == s[..|r|]
    ensures AllWhitespace(s[|r|..])
    ensures r == [] || !IsWhitespace(r[|r| - 1])
  {
    if s != [] && IsWhitespace(s[|s| - 1]) then
      var r := TrimEnd(s[..|s| - 1]);
      TrimEndStep(s, r);
      r
    else s
  }

  /** A whitespace character at the end keeps the prefix left by trimming the rest. */
  lemma TrimEndStep(s: string, r: string)
    requires s != [] && IsWhitespace(s[|s| - 1])
    requires |r| <= |s| - 1 && r == s[..|s| - 1][..|r|]
    requires AllWhitespace(s[..|s| - 1][|r|..])
    ensures r == s[..|r|] && AllWhitespace(s[|r|..])
  {
    forall i | 0 <= i < |s| - |r|
      ensures IsWhitespace(s[|r|..][i])
    {
      if i < |s| - 1 - |r| {
        assert s[|r|..][i] == s[..|s| - 1][|r|..][i];
      }
    }
  }

  /** `str::trim`. */
  function Trim(s: string): string {
    TrimEnd(TrimStart(s))
  }

  /** Neither end of `s` is whitespace. */
  predicate Trimmed(s: string) {
    s == [] || (!IsWhitespace(s[0]) && !IsWhitespace(s[|s| - 1]))
  }

  lemma TrimIsTrimmed(s: string)
    ensures Trimmed(Trim(s))
  {
    var t := TrimStart(s);
    var r := TrimEnd(t);
    if r != [] {
      assert r[0] == t[0];
    }
  }

  /** Trimming a string whose ends are not whitespace gives it back. */
  lemma TrimOfTrimmed(s: string)
    requires Trimmed(s)
    ensures Trim(s) == s
  {
  }

  lemma TrimIdempotent(s: string)
    ensures Trim(Trim(s)) == Trim(s)
  {
    TrimIsTrimmed(s);
    TrimOfTrimmed(Trim(s));
  }

  lemma {:induction false} TrimStartPadded(w: string, t: string)
    requires AllWhitespace(w)
    requires t == [] || !IsWhitespace(t[0])
    ensures TrimStart(w + t) == t
  {
    if w != [] {
      assert (w + t)[1..] == w[1..] + t;
      TrimStartPadded(w[1..], t);
    }
  }

  lemma {:induction false} TrimEndPadded(t: string, w: string)
    requires AllWhitespace(w)
    requires t == [] || !IsWhitespace(t[|t| - 1])
    ensures TrimEnd(t + w) == t
  {
    if w != [] {
      assert (t + w)[..|t + w| - 1] == t + w[..|w| - 1];
      TrimEndPadded(t, w[..|w| - 1]);
    }
  }

  /** Whitespace around a trimmed text is exactly what `trim` removes. */
  lemma TrimPadded(w1: string, t: string, w2: string)
    requires AllWhitespace(w1) && AllWhitespace(w2) && Trimmed(t)
    ensures Trim(w1 + t + w2) == t
  {
    if t == [] {
      assert w1 + t + w2 == w1 + w2;
      assert AllWhitespace(w1 + w2);
      TrimStartPadded(w1 + w2, []);
      assert w1 + w2 + [] == w1 + w2;
    } else {
      assert w1 + t + w2 == w1 + (t + w2);
      TrimStartPadded(w1, t + w2);
      TrimEndPadded(t, w2);
    }
  }

  /** Trimming removes only whitespace: every other character survives it. */
  lemma TrimKeeps(s: string, i: nat)
    requires i < |s| && !IsWhitespace(s[i])
    ensures s[i] in Trim(s)
  {
    var t := TrimStart(s);
    var k := |s| - |t|;
    assert t[i - k] == s[i];
    var r := TrimEnd(t);
    assert r[i - k] == s[i];
  }

  /** Trimming and lower-casing commute. */
  lemma {:induction false} TrimStartLowerCommute(s: string)
    ensures TrimStart(Lower(s)) == Lower(TrimStart(s))
  {
    if s != [] {
      CaseKeepsWhitespace(s[0]);
      assert Lower(s)[1..] == Lower(s[1..]);
      TrimStartLowerCommute(s[1..]);
    }
  }

  lemma {:induction false} TrimEndLowerCommute(s: string)
    ensures TrimEnd(Lower(s)) == Lower(TrimEnd(s))
  {
    if s != [] {
      CaseKeepsWhitespace(s[|s| - 1]);
      assert Lower(s)[..|s| - 1] == Lower(s[..|s| - 1]);
      TrimEndLowerCommute(s[..|s| - 1]);
    }
  }

  /** Trimming and lower-casing commute. */
  lemma TrimLowerCommute(s: string)
    ensures Trim(Lower(s)) == Lower(Trim(s))
  {
    TrimStartLowerCommute(s);
    TrimEndLowerCommute(TrimStart(s));
  }

  // ---------------------------------------------------------------------------
  // Searching and rewriting
  // ---------------------------------------------------------------------------

  /** `str::starts_with`. */
  predicate StartsWith(s: string, prefix: string) {
    |prefix| <= |s| && s[..|prefix|] == prefix
  }

  /** `str::contains`: `sub` occurs at some position of `s`. */
  predicate Contains(s: string, sub: string)
    decreases |s|
  {
    StartsWith(s, sub) || (s != [] && Contains(s[1..], sub))
  }

  lemma {:induction false} ContainsAt(s: string, sub: string, i: nat)
    requires i + |sub| <= |s| && s[i..i + |sub|] == sub
    ensures Contains(s, sub)
  {
    if i > 0 {
      assert s[1..][i - 1..i - 1 + |sub|] == s[i..i + |sub|];
      ContainsAt(s[1..], sub, i - 1);
    }
  }

  /** `str::replace("$", "\\$")`: escapes every dollar sign for LaTeX. */
  function EscapeDollar(s: string): string {
    if s == [] then []
    else (if s[0] == '$' then "\\$" else [s[0]]) + EscapeDollar(s[1..])
  }

  /** The inverse rewriting: every `\$` becomes `$`, scanning left to right. */
  function UnescapeDollar(s: string): string {
    if s == [] then []
    else if StartsWith(s, "\\$") then "$" + UnescapeDollar(s[2..])
    else [s[0]] + UnescapeDollar(s[1..])
  }

  lemma {:induction false} EscapeNeverStartsWithDollar(s: string)
    ensures EscapeDollar(s) == [] || EscapeDollar(s)[0] != '$'
  {
  }

  /** Escaping never shortens a text, and lengthens (and keeps a dollar in) one that has a dollar. */
  lemma {:induction false} EscapeDollarGrows(s: string)
    ensures |EscapeDollar(s)| >= |s|
    ensures '$' in s ==> |EscapeDollar(s)| > |s| && '$' in EscapeDollar(s)
  {
    if s != [] {
      EscapeDollarGrows(s[1..]);
      var e := EscapeDollar(s[1..]);
      if s[0] == '$' {
        assert EscapeDollar(s) == "\\$" + e;
        assert EscapeDollar(s)[1] == '$';
      } else {
        assert EscapeDollar(s) == [s[0]] + e;
        if '$' in s {
          assert '$' in s[1..];
          var j :| 0 <= j < |e| && e[j] == '$';
          assert EscapeDollar(s)[j + 1] == '$';
        }
      }
    }
  }

  /** Escaping keeps the last character and starts with the first one or a backslash. */
  lemma {:induction false} EscapeDollarEnds(s: string)
    requires s != []
    ensures var e := EscapeDollar(s);
      e != [] && (e[0] == s[0] || e[0] == '\\') && e[|e| - 1] == s[|s| - 1]
  {
    var head := if s[0] == '$' then "\\$" else [s[0]];
    assert EscapeDollar(s) == head + EscapeDollar(s[1..]);
    if |s| > 1 {
      EscapeDollarEnds(s[1..]);
    }
  }

  /** Escaping a trimmed text gives a trimmed text. */
  lemma EscapeDollarTrimmed(s: string)
    requires Trimmed(s)
    ensures Trimmed(EscapeDollar(s))
  {
    if s != [] {
      EscapeDollarEnds(s);
    }
  }

  /** Escaping loses nothing: unescaping gives the original text back. */
  lemma {:induction false} EscapeDollarRoundTrip(s: string)
    ensures UnescapeDollar(EscapeDollar(s)) == s
  {
    if s != [] {
      var e := EscapeDollar(s[1..]);
      EscapeDollarRoundTrip(s[1..]);
      EscapeNeverStartsWithDollar(s[1..]);
      if s[0] == '$' {
        assert EscapeDollar(s) == "\\$" + e;
        assert ("\\$" + e)[2..] == e;
      } else {
        assert EscapeDollar(s) == [s[0]] + e;
        assert ([s[0]] + e)[1..] == e;
      }
    }
  }

  /** `str::split(sep)`: the pieces between separators, always at least one. */
  function Split(s: string, sep: char): (r: seq<string>)
    ensures |r| >= 1
  {
    if s == [] then [[]]
    else
      var rest := Split(s[1..], sep);
      if s[0] == sep then [[]] + rest else [[s[0]] + rest[0]] + rest[1..]
  }

  /** The pieces put back together with the separator. */
  function Join(pieces: seq<string>, sep: char): string {
    if pieces == [] then []
    else if |pieces| == 1 then pieces[0]
    else pieces[0] + [sep] + Join(pieces[1..], sep)
  }

  /** Joining one more piece appends the separator and the piece. */
  lemma {:induction false} JoinAppend(pieces: seq<string>, p: string, sep: char)
    requires pieces != []
    ensures Join(pieces + [p], sep) == Join(pieces, sep) + [sep] + p
  {
    if |pieces| > 1 {
      assert (pieces + [p])[1..] == pieces[1..] + [p];
      JoinAppend(pieces[1..], p, sep);
    }
  }

  /** Splitting loses nothing, and no piece holds the separator. */
  lemma {:induction false} SplitJoin(s: string, sep: char)
    ensures Join(Split(s, sep), sep) == s
    ensures forall p :: p in Split(s, sep) ==> sep !in p
  {
    if s != [] {
      var rest := Split(s[1..], sep);
      SplitJoin(s[1..], sep);
      if s[0] == sep {
        assert Split(s, sep) == [[]] + rest;
        assert Join([[]] + rest, sep) == [] + [sep] + Join(rest, sep);
      } else {
        var r := Split(s, sep);
        assert r == [[s[0]] + rest[0]] + rest[1..];
        if |rest| == 1 {
          assert Join(r, sep) == [s[0]] + rest[0];
        } else {
          assert Join(rest, sep) == rest[0] + [sep] + Join(rest[1..], sep);
          assert Join(r, sep) == [s[0]] + rest[0] + [sep] + Join(rest[1..], sep);
        }
        assert s == [s[0]] + s[1..];
      }
    }
  }

  /** A text without the separator is a single piece. */
  lemma {:induction false} SplitNoSeparator(s: string, sep: char)
    requires sep !in s
    ensures Split(s, sep) == [s]
  {
    if s != [] {
      SplitNoSeparator(s[1..], sep);
      assert [s[0]] + s[1..] == s;
    }
  }

  /** Everything before the first separator is the first piece. */
  lemma {:induction false} SplitAtSeparator(a: string, b: string, sep: char)
    requires sep !in a
    ensures Split(a + [sep] + b, sep) == [a] + Split(b, sep)
  {
    var s := a + [sep] + b;
    if a == [] {
      assert s[1..] == b;
    } else {
      assert s[1..] == a[1..] + [sep] + b;
      SplitAtSeparator(a[1..], b, sep);
      assert [a[0]] + a[1..] == a;
    }
  }

  /** Pieces without the separator are recovered from their join. */
  lemma {:induction false} JoinSplit(pieces: seq<string>, sep: char)
    requires pieces != []
    requires forall p :: p in pieces ==> sep !in p
    ensures Split(Join(pieces, sep), sep) == pieces
  {
    if |pieces| == 1 {
      SplitNoSeparator(pieces[0], sep);
    } else {
      assert pieces[0] in pieces;
      forall p | p in pieces[1..] ensures sep !in p {
        assert p in pieces;
      }
      JoinSplit(pieces[1..], sep);
      SplitAtSeparator(pieces[0], Join(pieces[1..], sep), sep);
      assert [pieces[0]] + pieces[1..] == pieces;
    }
  }

  // ---------------------------------------------------------------------------
  // Decimal numerals
  // ---------------------------------------------------------------------------

  function DigitChar(d: nat): (c: char)
    requires d < 10
    ensures IsDigit(c) && c as int - '0' as int == d
  {
    ('0' as int + d) as char
  }

  /** The value of a run of decimal digits (most significant first). */
  function DigitsValue(s: string): nat
    requires AllDigits(s)
  {
    if s == [] then 0 else DigitsValue(s[..|s| - 1]) * 10 + (s[|s| - 1] as int - '0' as int)
  }

  /** `Display` of an unsigned integer: its decimal digits, without leading zeros. */
  function NatToString(n: nat): (r: string)
    ensures r != [] && AllDigits(r)
  {
    if n < 10 then [DigitChar(n)] else NatToString(n / 10) + [DigitChar(n % 10)]
  }

  /** Reading the decimal rendering gives the number back. */
  lemma {:induction false} NatToStringRoundTrip(n: nat)
    ensures DigitsValue(NatToString(n)) == n
  {
    if n >= 10 {
      var s := NatToString(n);
      assert s[..|s| - 1] == NatToString(n / 10);
      NatToStringRoundTrip(n / 10);
    }
  }

  /** `Display` of a signed integer. */
  function IntToString(i: int): string {
    if i < 0 then "-" + NatToString(-i) else NatToString(i)
  }
}
