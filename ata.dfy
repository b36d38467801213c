/**
 * References to the minutes of a session ("190ª de 05 de Maio de 1912",
 * "6º sessão extraordinária de 26  de junho de 1904").
 * Models `src/data/ata.rs`.
 */
module Atas {
  import opened Results
  import opened Text

  // ---------------------------------------------------------------------------
  // Session kind
  // ---------------------------------------------------------------------------

  /** `Session`: ordinary, extraordinary or a free description. */
  datatype Session = Ordinary | Extraordinary | Other(text: string)

  /** `Session::from_str`, which never fails. */
  function ParseSession(s: string): (r: Session)
    ensures r == Extraordinary <==> s == "extraordinária"
    ensures r == Ordinary <==> s == "ordinária"
    ensures r.Other? ==> r.text == s
  {
    if s == "extraordinária" then Extraordinary
    else if s == "ordinária" then Ordinary
    else Other(s)
  }

  /** `Session::as_ref`, also its `Display`. */
  function SessionText(s: Session): string {
    match s
    case Ordinary => "ord."
    case Extraordinary => "ext."
    case Other(t) => t
  }

  /** The parser never produces a free description spelling one of the two kinds. */
  lemma ParseSessionCanonical(s: string)
    ensures ParseSession(s) != Other("ordinária") && ParseSession(s) != Other("extraordinária")
  {
  }

  function SessionRank(s: Session): nat {
    match s
    case Ordinary => 0
    case Extraordinary => 1
    case Other(_) => 2
  }

  /** The derived order: by variant, then free descriptions by their text. */
  function CompareSessions(a: Session, b: Session): Ordering {
    if a.Other? && b.Other? then CompareStrings(a.text, b.text)
    else CompareInt(SessionRank(a), SessionRank(b))
  }

  lemma CompareSessionsMeaning(a: Session, b: Session)
    ensures CompareSessions(a, b) == Equal <==> a == b
    ensures CompareSessions(b, a) == CompareSessions(a, b).Flip()
    ensures a == Ordinary && b != Ordinary ==> CompareSessions(a, b) == Less
    ensures a == Extraordinary && b.Other? ==> CompareSessions(a, b) == Less
  {
    if a.Other? && b.Other? {
      CompareStringsEqual(a.text, b.text);
      CompareStringsFlip(a.text, b.text);
    }
  }

  lemma CompareSessionsTransitive(a: Session, b: Session, c: Session)
    requires CompareSessions(a, b) == Less && CompareSessions(b, c) == Less
    ensures CompareSessions(a, c) == Less
  {
    if a.Other? && b.Other? && c.Other? {
      CompareStringsTransitive(a.text, b.text, c.text);
    }
  }

  // ---------------------------------------------------------------------------
  // Months
  // ---------------------------------------------------------------------------

  type Month = m: int | 1 <= m <= 12 witness 1

  /** The Portuguese month names, in lower case. */
  function MonthName(m: Month): string {
    match m
    case 1 => "janeiro"
    case 2 => "fevereiro"
    case 3 => "março"
    case 4 => "abril"
    case 5 => "maio"
    case 6 => "junho"
    case 7 => "julho"
    case 8 => "agosto"
    case 9 => "setembro"
    case 10 => "outubro"
    case 11 => "novembro"
    case 12 => "dezembro"
  }

  /**
   * The month dispatch of `Ata::parse_captures`: the first letter in either
   * case, then exactly the rest of a month name in lower case.
   */
  function MonthFromName(name: string): Option<Month>
    requires name != []
  {
    var rest := name[1..];
    match name[0]
    case 'j' | 'J' =>
      if rest == "aneiro" then Some(1)
      else if rest == "unho" then Some(6)
      else if rest == "ulho" then Some(7)
      else None
    case 'f' | 'F' => if rest == "evereiro" then Some(2) else None
    case 'm' | 'M' =>
      if rest == "arço" then Some(3)
      else if rest == "aio" then Some(5)
      else None
    case 'a' | 'A' =>
      if rest == "bril" then Some(4)
      else if rest == "gosto" then Some(8)
      else None
    case 's' | 'S' => if rest == "etembro" then Some(9) else None
    case 'o' | 'O' => if rest == "utubro" then Some(10) else None
    case 'n' | 'N' => if rest == "ovembro" then Some(11) else None
    case 'd' | 'D' => if rest == "ezembro" then Some(12) else None
    case _ => None
  }

  /** A name is accepted exactly when it is a month name, its first letter possibly capitalised. */
  lemma MonthFromNameMeaning(name: string, m: Month)
    requires name != []
    ensures MonthFromName(name) == Some(m) <==>
      name[1..] == MonthName(m)[1..] && (name[0] == MonthName(m)[0] || name[0] == UpperChar(MonthName(m)[0]))
  {
    if m <= 6 {
      FirstHalfFromName(name, m);
    } else {
      SecondHalfFromName(name, m);
    }
  }

  lemma FirstHalfFromName(name: string, m: Month)
    requires name != [] && m <= 6
    ensures MonthFromName(name) == Some(m) <==>
      name[1..] == MonthName(m)[1..] && (name[0] == MonthName(m)[0] || name[0] == UpperChar(MonthName(m)[0]))
  {
  }

  lemma SecondHalfFromName(name: string, m: Month)
    requires name != [] && m > 6
    ensures MonthFromName(name) == Some(m) <==>
      name[1..] == MonthName(m)[1..] && (name[0] == MonthName(m)[0] || name[0] == UpperChar(MonthName(m)[0]))
  {
  }

  /** The lower-case and the capitalised month names are read back as their month. */
  lemma MonthNameRoundTrip(m: Month)
    ensures MonthFromName(MonthName(m)) == Some(m)
    ensures MonthFromName([UpperChar(MonthName(m)[0])] + MonthName(m)[1..]) == Some(m)
  {
    MonthFromNameMeaning(MonthName(m), m);
    MonthFromNameMeaning([UpperChar(MonthName(m)[0])] + MonthName(m)[1..], m);
  }

  /** `month`: the three-letter abbreviation, defined for 1 to 12 only. */
  function MonthAbbrev(m: Month): (r: string)
    ensures |r| == 3 && r == MonthName(m)[..3]
  {
    match m
    case 1 => "jan"
    case 2 => "fev"
    case 3 => "mar"
    case 4 => "abr"
    case 5 => "mai"
    case 6 => "jun"
    case 7 => "jul"
    case 8 => "ago"
    case 9 => "set"
    case 10 => "out"
    case 11 => "nov"
    case 12 => "dez"
  }

  /** Different months have different abbreviations. */
  lemma MonthAbbrevInjective(m1: Month, m2: Month)
    requires m1 != m2
    ensures MonthAbbrev(m1) != MonthAbbrev(m2)
  {
    if MonthAbbrev(m1) == MonthAbbrev(m2) {
      AbbrevDetermines(m1, MonthAbbrev(m1));
      AbbrevDetermines(m2, MonthAbbrev(m2));
    }
  }

  /** The month is recovered from the letters of its abbreviation. */
  lemma AbbrevDetermines(m: Month, a: string)
    requires a == MonthAbbrev(m)
    ensures m == (if a[0] == 'j' then (if a[1] == 'a' then 1 else if a[2] == 'n' then 6 else 7)
                  else if a[0] == 'f' then 2
                  else if a[0] == 'm' then (if a[2] == 'r' then 3 else 5)
                  else if a[0] == 'a' then (if a[1] == 'b' then 4 else 8)
                  else if a[0] == 's' then 9
                  else if a[0] == 'o' then 10
                  else if a[0] == 'n' then 11
                  else 12)
  {
  }

  // ---------------------------------------------------------------------------
  // Dates of the proleptic Gregorian calendar, within chrono's year range
  // ---------------------------------------------------------------------------

  const MinYear: int := -262144
  const MaxYear: int := 262143

  predicate IsLeapYear(y: int) {
    y % 4 == 0 && (y % 100 != 0 || y % 400 == 0)
  }

  function DaysInMonth(y: int, m: Month): (n: nat)
    ensures 28 <= n <= 31
  {
    if m == 2 then (if IsLeapYear(y) then 29 else 28)
    else if m == 4 || m == 6 || m == 9 || m == 11 then 30
    else 31
  }

  /** `NaiveDate::from_ymd_opt(y, m, d).is_some()`. */
  predicate ValidDate(y: int, m: int, d: int) {
    MinYear <= y <= MaxYear && 1 <= m <= 12 && 1 <= d <= DaysInMonth(y, m)
  }

  lemma LeapDay(y: int)
    ensures ValidDate(y, 2, 29) <==> MinYear <= y <= MaxYear && IsLeapYear(y)
  {
  }

  lemma ThirtyFirst(y: int, m: Month)
    requires MinYear <= y <= MaxYear
    ensures ValidDate(y, m, 31) <==> m in {1, 3, 5, 7, 8, 10, 12}
  {
  }

  /** `HistoricalData`: a month (kept as its first day) or a precise day. */
  datatype HistoricalDate =
    | PreciseMonth(year: int, month: Month)
    | PreciseDay(year: int, month: Month, day: nat)

  predicate ValidHistoricalDate(d: HistoricalDate) {
    match d
    case PreciseMonth(y, m) => ValidDate(y, m, 1)
    case PreciseDay(y, m, day) => ValidDate(y, m, day)
  }

  /** `HistoricalData::from_ymd_opt`: a precise day when a day is given, else the month. */
  function FromYmd(y: int, m: Month, day: Option<nat>): (r: Option<HistoricalDate>)
    ensures r.Some? ==> ValidHistoricalDate(r.value) && r.value.year == y && r.value.month == m
    ensures r.Some? ==> (r.value.PreciseDay? <==> day.Some?)
    ensures r.Some? && day.Some? ==> r.value.day == day.value
    ensures r.None? <==> !ValidDate(y, m, day.GetOr(1))
  {
    match day
    case Some(d) => if ValidDate(y, m, d) then Some(PreciseDay(y, m, d)) else None
    case None => if ValidDate(y, m, 1) then Some(PreciseMonth(y, m)) else None
  }

  /**
   * The derived order of `HistoricalData`: every month before every day (the
   * variant order), months by (year, month), days chronologically.
   */
  function CompareDates(a: HistoricalDate, b: HistoricalDate): Ordering {
    match (a, b)
    case (PreciseMonth(_, _), PreciseDay(_, _, _)) => Less
    case (PreciseDay(_, _, _), PreciseMonth(_, _)) => Greater
    case (PreciseMonth(y1, m1), PreciseMonth(y2, m2)) => Then(CompareInt(y1, y2), CompareInt(m1, m2))
    case (PreciseDay(y1, m1, d1), PreciseDay(y2, m2, d2)) =>
      Then(CompareInt(y1, y2), Then(CompareInt(m1, m2), CompareInt(d1, d2)))
  }

  lemma CompareDatesMeaning(a: HistoricalDate, b: HistoricalDate)
    ensures CompareDates(a, b) == Equal <==> a == b
    ensures CompareDates(b, a) == CompareDates(a, b).Flip()
  {
  }

  lemma CompareDatesTransitive(a: HistoricalDate, b: HistoricalDate, c: HistoricalDate)
    requires CompareDates(a, b) == Less && CompareDates(b, c) == Less
    ensures CompareDates(a, c) == Less
  {
  }

  /** A month is before every precise day, even the first day of that same month. */
  lemma MonthBeforeDay(a: HistoricalDate, b: HistoricalDate)
    requires a.PreciseMonth? && b.PreciseDay?
    ensures CompareDates(a, b) == Less
    ensures CompareDates(PreciseMonth(1970, 1), PreciseDay(1970, 1, 1)) == Less
  {
  }

  /** `Display`: "5 mai. 1912" for a day, "nov. 1909" for a month. */
  function DisplayDate(d: HistoricalDate): string {
    match d
    case PreciseMonth(y, m) => MonthAbbrev(m) + ". " + IntToString(y)
    case PreciseDay(y, m, day) => NatToString(day) + " " + MonthAbbrev(m) + ". " + IntToString(y)
  }

  /**
   * The display ends with the month's abbreviation, ". " and the year, and a
   * precise day opens with the day's digits and a space.
   */
  lemma DisplayDateParts(d: HistoricalDate)
    ensures var tail := MonthAbbrev(d.month) + ". " + IntToString(d.year);
      |tail| <= |DisplayDate(d)| && DisplayDate(d)[|DisplayDate(d)| - |tail|..] == tail
    ensures d.PreciseMonth? ==> DisplayDate(d) == MonthAbbrev(d.month) + ". " + IntToString(d.year)
    ensures d.PreciseDay? ==> var n := NatToString(d.day);
      StartsWith(DisplayDate(d), n + " ") && AllDigits(n) && DigitsValue(n) == d.day
  {
    var tail := MonthAbbrev(d.month) + ". " + IntToString(d.year);
    var pre := if d.PreciseDay? then NatToString(d.day) + " " else "";
    assert DisplayDate(d) == pre + tail;
    assert (pre + tail)[|pre|..] == tail;
    if d.PreciseDay? {
      NatToStringRoundTrip(d.day);
      assert (pre + tail)[..|pre|] == pre;
    }
  }

  // ---------------------------------------------------------------------------
  // The record
  // ---------------------------------------------------------------------------

  type U16 = n: int | 0 <= n < 0x1_0000

  const U32Max: nat := 0xFFFF_FFFF
  const I32Max: nat := 0x7FFF_FFFF

  /** `Ata { date, number, session }`. */
  datatype Ata = Ata(date: HistoricalDate, number: U16, session: Session)

  /** `Ata::year`. */
  function AtaYear(a: Ata): int {
    a.date.year
  }

  /** The derived order: date, then number, then session kind. */
  function CompareAtas(a: Ata, b: Ata): Ordering {
    Then(CompareDates(a.date, b.date), Then(CompareInt(a.number, b.number), CompareSessions(a.session, b.session)))
  }

  lemma CompareAtasMeaning(a: Ata, b: Ata)
    ensures CompareAtas(a, b) == Equal <==> a == b
    ensures CompareAtas(b, a) == CompareAtas(a, b).Flip()
  {
    CompareDatesMeaning(a.date, b.date);
    CompareSessionsMeaning(a.session, b.session);
  }

  lemma CompareAtasTransitive(a: Ata, b: Ata, c: Ata)
    requires CompareAtas(a, b) == Less && CompareAtas(b, c) == Less
    ensures CompareAtas(a, c) == Less
  {
    CompareDatesMeaning(a.date, b.date);
    CompareDatesMeaning(b.date, c.date);
    CompareSessionsMeaning(a.session, b.session);
    CompareSessionsMeaning(b.session, c.session);
    if CompareDates(a.date, b.date) == Less && CompareDates(b.date, c.date) == Less {
      CompareDatesTransitive(a.date, b.date, c.date);
    }
    if CompareSessions(a.session, b.session) == Less && CompareSessions(b.session, c.session) == Less {
      CompareSessionsTransitive(a.session, b.session, c.session);
    }
  }

  /** `Display`: "190ª sess. ord. de 5 mai. 1912". */
  function DisplayAta(a: Ata): string {
    NatToString(a.number) + "ª sess. " + SessionText(a.session) + " de " + DisplayDate(a.date)
  }

  /** The rendering opens with the number, which reads back from its digits. */
  lemma DisplayAtaNumber(a: Ata)
    ensures var n := NatToString(a.number);
      StartsWith(DisplayAta(a), n + "ª sess. ") && AllDigits(n) && DigitsValue(n) == a.number
  {
    NatToStringRoundTrip(a.number);
    var n := NatToString(a.number);
    assert DisplayAta(a)[..|n + "ª sess. "|] == n + "ª sess. ";
  }

  // ---------------------------------------------------------------------------
  // The pattern
  //   (\d+)[ºª°]?\s+(?:sessão\s+)?(?:([\pL\s]+)\s+)?de\s+(?:(\d+)\s+)?(?:de\s+)?(\w+)\s+de\s+(\d+)
  // read leftmost-first. A `\d+`, `\w+` or `\s+` is always followed by something
  // its own class cannot supply, so it takes its longest run; the only real
  // choices are the optional parts, tried present before absent, and the end
  // of the session description, tried from the longest down.
  // ---------------------------------------------------------------------------

  /** `\pL`: letters (ASCII and Latin-1; the regex crate uses all of Unicode). */
  predicate IsLetter(c: char) {
    || 'a' <= c <= 'z'
    || 'A' <= c <= 'Z'
    || c == '\U{AA}' || c == '\U{B5}' || c == '\U{BA}'
    || ('\U{C0}' <= c <= '\U{FF}' && c != '\U{D7}' && c != '\U{F7}')
  }

  /** `\w`: letters, digits and the underscore. */
  predicate IsWordChar(c: char) {
    IsLetter(c) || IsDigit(c) || c == '_'
  }

  /** `[ºª°]`. */
  predicate IsOrdinalMark(c: char) {
    c == '\U{BA}' || c == '\U{AA}' || c == '\U{B0}'
  }

  /** The character classes that the pattern repeats. */
  datatype CharClass = Space | Digit | LetterOrSpace | Word {
    predicate Has(c: char) {
      match this
      case Space => IsWhitespace(c)
      case Digit => IsDigit(c)
      case LetterOrSpace => IsLetter(c) || IsWhitespace(c)
      case Word => IsWordChar(c)
    }
  }

  /** The end of the longest run of `k` starting at `i`. */
  function RunEnd(s: string, i: nat, k: CharClass): (j: nat)
    requires i <= |s|
    ensures i <= j <= |s|
    ensures forall n :: i <= n < j ==> k.Has(s[n])
    ensures j < |s| ==> !k.Has(s[j])
    decreases |s| - i
  {
    if i < |s| && k.Has(s[i]) then RunEnd(s, i + 1, k) else i
  }

  /** A run is determined by its class: any maximal run of `k` from `i` is the one `RunEnd` finds. */
  lemma {:induction false} RunEndAt(s: string, i: nat, j: nat, k: CharClass)
    requires i <= j <= |s|
    requires forall n :: i <= n < j ==> k.Has(s[n])
    requires j < |s| ==> !k.Has(s[j])
    ensures RunEnd(s, i, k) == j
    decreases j - i
  {
    if i < j {
      RunEndAt(s, i + 1, j, k);
    }
  }

  /** `\s+` at `i`: where the whitespace ends, if there is any. */
  function Spaces(s: string, i: nat): (r: Option<nat>)
    requires i <= |s|
    ensures r.Some? ==> i < r.value <= |s|
  {
    var j := RunEnd(s, i, Space);
    if j > i then Some(j) else None
  }

  /** A literal word and then `\s+`. */
  function WordThenSpaces(s: string, i: nat, w: string): (r: Option<nat>)
    requires i <= |s|
    ensures r.Some? ==> i + |w| < r.value <= |s|
  {
    if StartsWith(s[i..], w) then Spaces(s, i + |w|) else None
  }

  /** The date groups: day (3), month name (4) and year (5). */
  datatype DateCaptures = DateCaptures(day: Option<string>, month: string, year: string)

  /** What the groups of the date part always hold: digits for day and year, a word for the month. */
  predicate WellFormedDate(dc: DateCaptures) {
    && (dc.day.Some? ==> dc.day.value != [] && AllDigits(dc.day.value))
    && WellFormedMonthYear(dc.month, dc.year)
  }

  /** A word for the month and digits for the year. */
  predicate WellFormedMonthYear(month: string, year: string) {
    && month != [] && (forall i :: 0 <= i < |month| ==> IsWordChar(month[i]))
    && year != [] && AllDigits(year)
  }

  predicate AllLettersOrSpaces(t: string) {
    forall i :: 0 <= i < |t| ==> LetterOrSpace.Has(t[i])
  }

  /** `(\w+)\s+de\s+(\d+)` at `v`. */
  function MonthYear(s: string, v: nat, day: Option<string>): (r: Option<DateCaptures>)
    requires v <= |s|
    ensures r.Some? ==> r.value.day == day && WellFormedMonthYear(r.value.month, r.value.year)
  {
    var w := RunEnd(s, v, Word);
    if w == v then None
    else match Spaces(s, w)
      case None => None
      case Some(x) =>
        match WordThenSpaces(s, x, "de")
        case None => None
        case Some(y) =>
          var d := RunEnd(s, y, Digit);
          if d == y then None else Some(DateCaptures(day, s[v..w], s[y..d]))
  }

  /** `(?:de\s+)?` and then the month and year, at `x`. */
  function AfterDay(s: string, x: nat, day: Option<string>): (r: Option<DateCaptures>)
    requires x <= |s|
    ensures r.Some? ==> r.value.day == day && WellFormedMonthYear(r.value.month, r.value.year)
  {
    match WordThenSpaces(s, x, "de")
    case Some(y) => if MonthYear(s, y, day).Some? then MonthYear(s, y, day) else MonthYear(s, x, day)
    case None => MonthYear(s, x, day)
  }

  /** `\s+(?:(\d+)\s+)?` and the rest, right after the "de" that closes the session part. */
  function DateTail(s: string, t: nat): (r: Option<DateCaptures>)
    requires t <= |s|
    ensures r.Some? ==> WellFormedDate(r.value)
  {
    match Spaces(s, t)
    case None => None
    case Some(u) =>
      var withDay := DayThenMonth(s, u);
      if withDay.Some? then withDay else AfterDay(s, u, None)
  }

  /** `(\d+)\s+` at `u`, then the month and the year. */
  function DayThenMonth(s: string, u: nat): (r: Option<DateCaptures>)
    requires u <= |s|
    ensures r.Some? ==> WellFormedDate(r.value)
  {
    var d := RunEnd(s, u, Digit);
    if d == u then None
    else match Spaces(s, d)
      case None => None
      case Some(x) =>
        DigitRun(s, u);
        AfterDay(s, x, Some(s[u..d]))
  }

  /** A run of digits, cut out, is all digits. */
  lemma DigitRun(s: string, u: nat)
    requires u <= |s|
    ensures AllDigits(s[u..RunEnd(s, u, Digit)])
  {
    var d := RunEnd(s, u, Digit);
    forall i | 0 <= i < d - u
      ensures IsDigit(s[u..d][i])
    {
      assert s[u..d][i] == s[u + i] && Digit.Has(s[u + i]);
    }
  }

  /** `\s+de` and then the date, after a session description ending at `b`. */
  function AfterDescription(s: string, b: nat): (r: Option<DateCaptures>)
    requires b <= |s|
    ensures r.Some? ==> WellFormedDate(r.value)
  {
    match Spaces(s, b)
    case None => None
    case Some(x) => if StartsWith(s[x..], "de") then DateTail(s, x + 2) else None
  }

  /** The longest description `s[q..b]` (with `b` at most `hi`) after which the match succeeds. */
  function Description(s: string, q: nat, hi: nat): (r: Option<(nat, DateCaptures)>)
    requires q < hi <= |s|
    ensures r.Some? ==> q < r.value.0 <= hi && WellFormedDate(r.value.1)
    decreases hi
  {
    if AfterDescription(s, hi).Some? then Some((hi, AfterDescription(s, hi).value))
    else if hi == q + 1 then None
    else Description(s, q, hi - 1)
  }

  /** The session part, starting at `q`: `(?:([\pL\s]+)\s+)?de` and the date. */
  function SessionPart(s: string, q: nat): (r: Option<(Option<string>, DateCaptures)>)
    requires q <= |s|
    ensures r.Some? ==> WellFormedDate(r.value.1)
    ensures r.Some? && r.value.0.Some? ==> r.value.0.value != [] && AllLettersOrSpaces(r.value.0.value)
  {
    var hi := RunEnd(s, q, LetterOrSpace);
    var described := if hi > q then Description(s, q, hi) else None;
    match described
    case Some((b, dc)) => Some((Some(s[q..b]), dc))
    case None =>
      if StartsWith(s[q..], "de") then
        match DateTail(s, q + 2)
        case Some(dc) => Some((None, dc))
        case None => None
      else None
  }

  /** All five groups of one match. */
  datatype Captures = Captures(number: string, session: Option<string>, day: Option<string>, month: string, year: string)

  /** What a match guarantees to `parse_captures`: every group it unwraps is there and well formed. */
  predicate WellFormed(c: Captures) {
    && c.number != [] && AllDigits(c.number)
    && (c.session.Some? ==> c.session.value != [] && AllLettersOrSpaces(c.session.value))
    && WellFormedDate(DateCaptures(c.day, c.month, c.year))
  }

  /** A match of the whole pattern starting at `p`. */
  function MatchAt(s: string, p: nat): (r: Option<Captures>)
    requires p <= |s|
    ensures r.Some? ==> WellFormed(r.value)
  {
    var e := RunEnd(s, p, Digit);
    var m := if e < |s| && IsOrdinalMark(s[e]) then e + 1 else e;
    if e == p then None
    else match Spaces(s, m)
      case None => None
      case Some(w) =>
        var part := match WordThenSpaces(s, w, "sessão")
          case Some(y) => if SessionPart(s, y).Some? then SessionPart(s, y) else SessionPart(s, w)
          case None => SessionPart(s, w);
        match part
        case None => None
        case Some((session, dc)) => Some(Captures(s[p..e], session, dc.day, dc.month, dc.year))
  }

  /** `Regex::captures`: the match that starts leftmost, from `p` on. */
  function FindMatch(s: string, p: nat): (r: Option<Captures>)
    requires p <= |s|
    ensures r.Some? ==> WellFormed(r.value)
    decreases |s| - p
  {
    if MatchAt(s, p).Some? then MatchAt(s, p)
    else if p == |s| then None
    else FindMatch(s, p + 1)
  }

  // ---------------------------------------------------------------------------
  // `from_str` and `parse_captures`
  // ---------------------------------------------------------------------------

  /** The day group's value, dropped when it does not fit a `u32`. */
  function CapturedDay(c: Captures): (d: Option<nat>)
    requires WellFormed(c)
    ensures d.Some? <==> c.day.Some? && DigitsValue(c.day.value) <= U32Max
    ensures d.Some? ==> d.value == DigitsValue(c.day.value)
  {
    match c.day
    case None => None
    case Some(t) => if DigitsValue(t) <= U32Max then Some(DigitsValue(t)) else None
  }

  /**
   * `Ata::parse_captures`: the number must fit a `u16` and the year an `i32`;
   * a day that does not fit a `u32` is dropped (leaving a month); the month
   * name must be recognised and the date must exist.
   */
  function ParseCaptures(c: Captures): (r: Option<Ata>)
    requires WellFormed(c)
    ensures r.Some? ==> ValidHistoricalDate(r.value.date) && r.value.number == DigitsValue(c.number)
    ensures r.Some? ==> r.value.session == (if c.session.None? then Ordinary else ParseSession(c.session.value))
    ensures r.Some? ==> MonthFromName(c.month) == Some(r.value.date.month) && r.value.date.year == DigitsValue(c.year)
    ensures MonthFromName(c.month).None? || DigitsValue(c.number) > 0xFFFF || DigitsValue(c.year) > I32Max ==> r.None?
    ensures (MonthFromName(c.month).Some? && DigitsValue(c.number) <= 0xFFFF && DigitsValue(c.year) <= I32Max
             && ValidDate(DigitsValue(c.year), MonthFromName(c.month).value, CapturedDay(c).GetOr(1))) ==> r.Some?
    ensures r.Some? ==> ValidDate(r.value.date.year, r.value.date.month, CapturedDay(c).GetOr(1))
    ensures r.Some? ==> (r.value.date.PreciseDay? <==> CapturedDay(c).Some?)
  {
    var number := DigitsValue(c.number);
    var session := match c.session
      case None => Ordinary
      case Some(t) => ParseSession(t);
    var day := CapturedDay(c);
    var year := DigitsValue(c.year);
    if number > 0xFFFF || year > I32Max then None
    else match MonthFromName(c.month)
      case None => None
      case Some(month) =>
        match FromYmd(year, month, day)
        case None => None
        case Some(date) => Some(Ata(date, number, session))
  }

  /** `Ata::from_str`: the record, or the input itself as the error. */
  function ParseAta(s: string): (r: Result<Ata, string>)
    ensures r.Err? ==> r.error == s
    ensures r.Ok? <==> FindMatch(s, 0).Some? && ParseCaptures(FindMatch(s, 0).value).Some?
    ensures r.Ok? ==> ValidHistoricalDate(r.value.date)
  {
    match FindMatch(s, 0)
    case None => Err(s)
    case Some(c) =>
      match ParseCaptures(c)
      case None => Err(s)
      case Some(a) => Ok(a)
  }

  /** A day too large for a `u32` is not an error: the date falls back to its month. */
  lemma DayOverflowKeepsMonth(c: Captures)
    requires WellFormed(c) && c.day.Some? && DigitsValue(c.day.value) > U32Max
    ensures ParseCaptures(c).Some? ==> ParseCaptures(c).value.date.PreciseMonth?
    ensures ParseCaptures(c) == ParseCaptures(c.(day := None))
  {
  }

  /** A day is kept exactly when it was matched and fits. */
  lemma DayKept(c: Captures)
    requires WellFormed(c) && ParseCaptures(c).Some?
    ensures ParseCaptures(c).value.date.PreciseDay? <==> c.day.Some? && DigitsValue(c.day.value) <= U32Max
    ensures ParseCaptures(c).value.date.PreciseDay? ==> ParseCaptures(c).value.date.day == DigitsValue(c.day.value)
  {
  }

  /** Text without a single digit never holds a reference to the minutes. */
  lemma {:induction false} NoDigitNoMatch(s: string, p: nat)
    requires p <= |s|
    requires forall i :: p <= i < |s| ==> !IsDigit(s[i])
    ensures FindMatch(s, p).None?
    decreases |s| - p
  {
    if p < |s| {
      NoDigitNoMatch(s, p + 1);
    }
  }

  lemma ParseAtaNeedsDigit(s: string)
    requires forall i :: 0 <= i < |s| ==> !IsDigit(s[i])
    ensures ParseAta(s) == Err(s)
  {
    NoDigitNoMatch(s, 0);
  }
}
