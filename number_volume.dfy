/**
 * Issue numbers and volumes ("N.1-2 V.18-19", "Volume IX - Número 1 e 2").
 * Models `src/data/number_volume.rs`.
 */
module NumberVolumes {
  import opened Results
  import opened Text
  import opened Ranges

  /** `NumberVolume { number, volume }`. */
  datatype NumberVolume = NumberVolume(number: Option<Range>, volume: Option<Range>)

  /** The record the rest of the catalogue relies on: at least one side is known. */
  predicate HasSide(nv: NumberVolume) {
    nv.number.Some? || nv.volume.Some?
  }

  /** The records the corrected parser produces and the display can print. */
  type KnownNumberVolume = nv: NumberVolume | HasSide(nv) witness NumberVolume(Some(Range(0, 0)), None)

  // ---------------------------------------------------------------------------
  // The two marker patterns
  //   number: N(?:úmeros?)?[.:]? ?((?:[\-e]? *\d+ *)+)
  //   volume: V(?:olumes?)?[.:]? ?((?:[\-e]? *(?:\d+|[XIV]+))+)
  // Every optional part of the prefix is greedy and can only be skipped when the
  // next character could not continue the match anyway, so the prefix is read
  // deterministically; each repetition of the group takes as much as it can.
  // ---------------------------------------------------------------------------

  /** Which of the two markers: `N` for the issue number, `V` for the volume. */
  datatype Marker = NumberMarker | VolumeMarker {
    function Letter(): char {
      if this == NumberMarker then 'N' else 'V'
    }

    function Word(): string {
      if this == NumberMarker then "úmero" else "olume"
    }
  }

  predicate IsSpace(c: char) {
    c == ' '
  }

  predicate IsVolumeLetter(c: char) {
    c == 'X' || c == 'I' || c == 'V'
  }

  /** The end of the longest run from `i` of characters satisfying the class `k` (0 space, 1 digit, 2 X/I/V). */
  function SkipClass(s: string, i: nat, k: nat): (j: nat)
    requires i <= |s|
    ensures i <= j <= |s|
    decreases |s| - i
  {
    if i < |s| && (if k == 0 then IsSpace(s[i]) else if k == 1 then IsDigit(s[i]) else IsVolumeLetter(s[i]))
    then SkipClass(s, i + 1, k)
    else i
  }

  /** Where the marker's prefix ends when its letter is at `p`: the word, an `s`, a `.` or `:`, a space. */
  function PrefixEnd(s: string, p: nat, m: Marker): (q: nat)
    requires p < |s|
    ensures p < q <= |s|
  {
    var a := p + 1;
    var b := if StartsWith(s[a..], m.Word()) then
               (var w := a + |m.Word()|; if w < |s| && s[w] == 's' then w + 1 else w)
             else a;
    var c := if b < |s| && (s[b] == '.' || s[b] == ':') then b + 1 else b;
    if c < |s| && s[c] == ' ' then c + 1 else c
  }

  /** One repetition of the group starting at `j`, or `None` when it cannot match there. */
  function GroupStep(s: string, j: nat, m: Marker): (r: Option<nat>)
    requires j <= |s|
    ensures r.Some? ==> j < r.value <= |s|
  {
    var a := if j < |s| && (s[j] == '-' || s[j] == 'e') then j + 1 else j;
    var b := SkipClass(s, a, 0);
    var d := SkipClass(s, b, 1);
    if d > b then
      (if m == NumberMarker then Some(SkipClass(s, d, 0)) else Some(d))
    else if m == VolumeMarker && SkipClass(s, b, 2) > b then Some(SkipClass(s, b, 2))
    else None
  }

  /** The end of the greedy repetition of the group from `j`. */
  function GroupEnd(s: string, j: nat, m: Marker): (e: nat)
    requires j <= |s|
    ensures j <= e <= |s|
    decreases |s| - j
  {
    match GroupStep(s, j, m)
    case None => j
    case Some(k) => GroupEnd(s, k, m)
  }

  /** The first capture of the marker's pattern at or after position `p`. */
  function CaptureFrom(s: string, p: nat, m: Marker): Option<string>
    requires p <= |s|
    decreases |s| - p
  {
    if p == |s| then None
    else if s[p] == m.Letter() && GroupStep(s, PrefixEnd(s, p, m), m).Some? then
      var q := PrefixEnd(s, p, m);
      Some(s[q..GroupEnd(s, q, m)])
    else CaptureFrom(s, p + 1, m)
  }

  /** `captures(value)` and then group 1. */
  function Capture(s: string, m: Marker): Option<string> {
    CaptureFrom(s, 0, m)
  }

  /** `.map(|cap| cap[1].parse().ok()).flatten()`: the side's range, if the marker matched and its text parses. */
  function Side(s: string, m: Marker): Option<Range> {
    match Capture(s, m)
    case None => None
    case Some(c) => ParseRangeSpec(c)
  }

  // ---------------------------------------------------------------------------
  // `from_str`
  // ---------------------------------------------------------------------------

  /**
   * `NumberVolume::from_str` as written: an error only when neither marker
   * matches; a side whose text does not parse is simply `None`.
   */
  function ParseNumberVolumeAsWritten(s: string): (r: Result<NumberVolume, Unit>)
    ensures r.Err? <==> Capture(s, NumberMarker).None? && Capture(s, VolumeMarker).None?
  {
    if Capture(s, NumberMarker).None? && Capture(s, VolumeMarker).None? then Err(Unit)
    else Ok(NumberVolume(Side(s, NumberMarker), Side(s, VolumeMarker)))
  }

  /**
   * `NumberVolume::from_str` keeping the invariant its `Display` relies on:
   * the text is refused when neither side yields a range.
   */
  function ParseNumberVolume(s: string): (r: Option<KnownNumberVolume>)
    ensures r.Some? <==> Side(s, NumberMarker).Some? || Side(s, VolumeMarker).Some?
    ensures r.Some? ==> ParseNumberVolumeAsWritten(s) == Ok(r.value)
  {
    var nv := NumberVolume(Side(s, NumberMarker), Side(s, VolumeMarker));
    if HasSide(nv) then Some(nv) else None
  }

  /** The two parsers differ only where the source builds a record with no side. */
  lemma ParseAgreesWithAsWritten(s: string)
    ensures ParseNumberVolume(s).None? <==>
      (ParseNumberVolumeAsWritten(s).Err? || ParseNumberVolumeAsWritten(s) == Ok(NumberVolume(None, None)))
  {
  }

  // ---------------------------------------------------------------------------
  // What the captures contain
  // ---------------------------------------------------------------------------

  /** Characters a group of the marker's pattern can hold. */
  predicate GroupChar(c: char, m: Marker) {
    c == '-' || c == 'e' || c == ' ' || IsDigit(c) || (m == VolumeMarker && IsVolumeLetter(c))
  }

  lemma {:induction false} SkipClassChars(s: string, i: nat, k: nat, m: Marker)
    requires i <= |s| && (k == 0 || k == 1 || (k == 2 && m == VolumeMarker))
    ensures forall t :: i <= t < SkipClass(s, i, k) ==> GroupChar(s[t], m)
    decreases |s| - i
  {
    if i < |s| && (if k == 0 then IsSpace(s[i]) else if k == 1 then IsDigit(s[i]) else IsVolumeLetter(s[i])) {
      SkipClassChars(s, i + 1, k, m);
    }
  }

  lemma GroupStepChars(s: string, j: nat, m: Marker)
    requires j <= |s| && GroupStep(s, j, m).Some?
    ensures forall t :: j <= t < GroupStep(s, j, m).value ==> GroupChar(s[t], m)
  {
    var a := if j < |s| && (s[j] == '-' || s[j] == 'e') then j + 1 else j;
    var b := SkipClass(s, a, 0);
    var d := SkipClass(s, b, 1);
    SkipClassChars(s, a, 0, m);
    SkipClassChars(s, b, 1, m);
    SkipClassChars(s, d, 0, m);
    if m == VolumeMarker {
      SkipClassChars(s, b, 2, m);
    }
  }

  lemma {:induction false} GroupEndChars(s: string, j: nat, m: Marker)
    requires j <= |s|
    ensures forall t :: j <= t < GroupEnd(s, j, m) ==> GroupChar(s[t], m)
    decreases |s| - j
  {
    match GroupStep(s, j, m)
    case None =>
    case Some(k) =>
      GroupStepChars(s, j, m);
      GroupEndChars(s, k, m);
  }

  /** A number group holds a digit: its first repetition ends in one. */
  lemma GroupStepHasDigit(s: string, j: nat)
    requires j <= |s| && GroupStep(s, j, NumberMarker).Some?
    ensures exists t :: j <= t < GroupStep(s, j, NumberMarker).value && IsDigit(s[t])
  {
    var a := if j < |s| && (s[j] == '-' || s[j] == 'e') then j + 1 else j;
    var b := SkipClass(s, a, 0);
    assert b < |s| && IsDigit(s[b]);
  }

  lemma {:induction false} GroupEndAfterStep(s: string, j: nat, m: Marker)
    requires j <= |s| && GroupStep(s, j, m).Some?
    ensures GroupStep(s, j, m).value <= GroupEnd(s, j, m)
  {
    var k := GroupStep(s, j, m).value;
    GroupEndMonotone(s, k, m);
  }

  lemma {:induction false} GroupEndMonotone(s: string, j: nat, m: Marker)
    requires j <= |s|
    ensures j <= GroupEnd(s, j, m)
  {
  }

  /** A capture of the group starting at `q` holds only group characters, and a digit for the number marker. */
  lemma GroupCaptureChars(s: string, q: nat, m: Marker)
    requires q <= |s| && GroupStep(s, q, m).Some?
    ensures var c := s[q..GroupEnd(s, q, m)];
      c != [] && (forall t :: 0 <= t < |c| ==> GroupChar(c[t], m)) &&
      (m == NumberMarker ==> exists t :: 0 <= t < |c| && IsDigit(c[t]))
  {
    var e := GroupEnd(s, q, m);
    GroupEndChars(s, q, m);
    GroupEndAfterStep(s, q, m);
    var c := s[q..e];
    assert forall t :: 0 <= t < |c| ==> c[t] == s[q + t];
    if m == NumberMarker {
      GroupStepHasDigit(s, q);
      var t :| q <= t < GroupStep(s, q, m).value && IsDigit(s[t]);
      assert c[t - q] == s[t];
    }
  }

  /** What `CaptureFrom` finds is a group of the pattern, holding only group characters. */
  lemma {:induction false} CaptureFromChars(s: string, p: nat, m: Marker)
    requires p <= |s| && CaptureFrom(s, p, m).Some?
    ensures var c := CaptureFrom(s, p, m).value;
      c != [] && (forall t :: 0 <= t < |c| ==> GroupChar(c[t], m)) &&
      (m == NumberMarker ==> exists t :: 0 <= t < |c| && IsDigit(c[t]))
    decreases |s| - p
  {
    if s[p] == m.Letter() && GroupStep(s, PrefixEnd(s, p, m), m).Some? {
      GroupCaptureChars(s, PrefixEnd(s, p, m), m);
    } else {
      CaptureFromChars(s, p + 1, m);
    }
  }

  // ---------------------------------------------------------------------------
  // The number side never fails once its marker matched
  // ---------------------------------------------------------------------------

  /** Text without Roman letters tokenises into runs of digits only. */
  lemma {:induction false} TokensWithoutRoman(s: string)
    requires forall t :: 0 <= t < |s| ==> !IsRomanLetter(s[t])
    ensures forall i :: 0 <= i < |Tokens(s)| ==> AllDigits(Tokens(s)[i])
    decreases |s|
  {
    if s != [] {
      if IsDigit(s[0]) {
        var n := Span(s, false);
        TokensWithoutRoman(s[n..]);
      } else {
        TokensWithoutRoman(s[1..]);
      }
    }
  }

  /** Text holding a digit has at least one token. */
  lemma {:induction false} TokensOfDigit(s: string, t: nat)
    requires t < |s| && IsDigit(s[t])
    ensures Tokens(s) != []
    decreases |s|
  {
    if !IsDigit(s[0]) && !IsRomanLetter(s[0]) {
      TokensOfDigit(s[1..], t - 1);
    }
  }

  /** Digit tokens always have values. */
  lemma {:induction false} TokenValuesOfDigits(ts: seq<Token>)
    requires forall i :: 0 <= i < |ts| ==> AllDigits(ts[i])
    ensures TokenValues(ts).Some?
  {
    if ts != [] {
      TokenValuesOfDigits(ts[..|ts| - 1]);
    }
  }

  /** When the number marker matches, the number side always has a range. */
  lemma NumberSideNeverFails(s: string)
    requires Capture(s, NumberMarker).Some?
    ensures Side(s, NumberMarker).Some?
  {
    var c := Capture(s, NumberMarker).value;
    CaptureFromChars(s, 0, NumberMarker);
    TokensWithoutRoman(c);
    var t :| 0 <= t < |c| && IsDigit(c[t]);
    TokensOfDigit(c, t);
    TokenValuesOfDigits(Tokens(c));
  }

  /** Hence the record the source builds lacks both sides only when the volume text fails to parse. */
  lemma NoSideMeansBadVolume(s: string)
    requires ParseNumberVolumeAsWritten(s) == Ok(NumberVolume(None, None))
    ensures Capture(s, NumberMarker).None?
    ensures Capture(s, VolumeMarker).Some? && ParseRangeSpec(Capture(s, VolumeMarker).value).None?
  {
    if Capture(s, NumberMarker).Some? {
      NumberSideNeverFails(s);
    }
  }

  // ---------------------------------------------------------------------------
  // Display and order
  // ---------------------------------------------------------------------------

  /**
   * `Display` as written: it matches on `(volume, number)` but names the first
   * binding `n`, so the volume is printed after "n.~" and the number after "v.~".
   */
  function DisplayAsWritten(nv: NumberVolume): string
    requires HasSide(nv)
  {
    match (nv.volume, nv.number)
    case (Some(n), Some(v)) => "n.~" + FormatRange(n) + ", v.~" + FormatRange(v)
    case (None, Some(v)) => "v.~" + FormatRange(v)
    case (Some(n), None) => "n.~" + FormatRange(n)
  }

  /** `Display` with each side under its own label: "n.~" for the number, "v.~" for the volume. */
  function DisplayNumberVolume(nv: NumberVolume): string
    requires HasSide(nv)
  {
    match (nv.number, nv.volume)
    case (Some(n), Some(v)) => "n.~" + FormatRange(n) + ", v.~" + FormatRange(v)
    case (Some(n), None) => "n.~" + FormatRange(n)
    case (None, Some(v)) => "v.~" + FormatRange(v)
  }

  /** The record with its two sides exchanged. */
  function Swap(nv: NumberVolume): (r: NumberVolume)
    ensures HasSide(r) == HasSide(nv)
  {
    NumberVolume(nv.volume, nv.number)
  }

  /** The source prints every record as the intended display of the record with its sides exchanged. */
  lemma DisplayAsWrittenSwapsSides(nv: NumberVolume)
    requires HasSide(nv)
    ensures DisplayAsWritten(nv) == DisplayNumberVolume(Swap(nv))
  {
  }

  /** Number 1, volume 18 is printed as if it were number 18, volume 1. */
  lemma DisplayAsWrittenExample()
    ensures DisplayAsWritten(NumberVolume(Some(Range(1, 1)), Some(Range(18, 18)))) == "n.~18, v.~1"
    ensures DisplayNumberVolume(NumberVolume(Some(Range(1, 1)), Some(Range(18, 18)))) == "n.~1, v.~18"
  {
    assert NatToString(18) == "18";
  }

  /** The intended display labels each side: the number's range follows "n.~", the volume's "v.~". */
  lemma DisplayLabelsSides(nv: NumberVolume)
    requires HasSide(nv)
    ensures nv.number.Some? ==> StartsWith(DisplayNumberVolume(nv), "n.~" + FormatRange(nv.number.value))
    ensures nv.number.None? ==> DisplayNumberVolume(nv) == "v.~" + FormatRange(nv.volume.value)
    ensures nv.volume.Some? ==>
      exists k :: 0 <= k <= |DisplayNumberVolume(nv)| && DisplayNumberVolume(nv)[k..] == FormatRange(nv.volume.value)
        && DisplayNumberVolume(nv)[..k] == (if nv.number.Some? then "n.~" + FormatRange(nv.number.value) + ", " else "") + "v.~"
  {
    var d := DisplayNumberVolume(nv);
    if nv.volume.Some? {
      var v := FormatRange(nv.volume.value);
      var k := |d| - |v|;
      assert d[k..] == v;
    }
  }

  /** `Option<Range>` order: `None` first, then by range. */
  function CompareOptionalRanges(a: Option<Range>, b: Option<Range>): Ordering {
    match (a, b)
    case (None, None) => Equal
    case (None, Some(_)) => Less
    case (Some(_), None) => Greater
    case (Some(x), Some(y)) => CompareRanges(x, y)
  }

  /** The derived order: number first, then volume. */
  function CompareNumberVolumes(a: NumberVolume, b: NumberVolume): Ordering {
    Then(CompareOptionalRanges(a.number, b.number), CompareOptionalRanges(a.volume, b.volume))
  }

  /** The order decides by the number unless the numbers are equal, and is antisymmetric. */
  lemma CompareNumberVolumesMeaning(a: NumberVolume, b: NumberVolume)
    ensures a.number != b.number ==> CompareNumberVolumes(a, b) == CompareOptionalRanges(a.number, b.number)
    ensures CompareNumberVolumes(a, b) == Equal <==> a == b
    ensures CompareNumberVolumes(b, a) == CompareNumberVolumes(a, b).Flip()
    ensures a.number.None? && b.number.Some? ==> CompareNumberVolumes(a, b) == Less
  {
    if a.number.Some? && b.number.Some? {
      CompareRangesMeaning(a.number.value, b.number.value);
    }
    if a.volume.Some? && b.volume.Some? {
      CompareRangesMeaning(a.volume.value, b.volume.value);
    }
  }
}
