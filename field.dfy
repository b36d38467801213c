/**
 * A catalogue cell: absent (one of the placeholders the cataloguers used),
 * present (it parsed) or non-standard (kept as written).
 * Models `src/data/field.rs`.
 */
module Fields {
  import opened Results
  import opened Text
  import opened Ranges
  import opened Pages
  import opened NumberVolumes
  import opened Atas
  import opened Indexes

  /** `Field<T>`. */
  datatype Field<T> = Absent | Present(value: T) | NotStandard(text: string)

  /** The texts that mean "no information", once surrounding whitespace is trimmed. */
  predicate IsPlaceholder(s: string) {
    match s
    case "-" | "(?)" | "?" | "não mencionado" | "Não mencionado" | "Não mencionada" | ""
       | "a conferir" | "A conferir" | "x" | "X" | "- -" => true
    case _ => false
  }

  // ---------------------------------------------------------------------------
  // `from_str`
  // ---------------------------------------------------------------------------

  /**
   * `Field::from_str` over the parser of `T`: a placeholder is absent,
   * otherwise the untrimmed text either parses or is kept as it is.
   */
  function ParseField<T>(s: string, parse: string -> Option<T>): (r: Field<T>)
    ensures r.Absent? <==> IsPlaceholder(Trim(s))
    ensures r.Present? <==> !IsPlaceholder(Trim(s)) && parse(s).Some?
    ensures r.Present? ==> r.value == parse(s).value
    ensures r.NotStandard? ==> r.text == s
  {
    if IsPlaceholder(Trim(s)) then Absent
    else match parse(s)
      case Some(t) => Present(t)
      case None => NotStandard(s)
  }

  lemma PlaceholdersTrimmed(p: string)
    requires IsPlaceholder(p)
    ensures Trimmed(p)
  {
  }

  /** A placeholder surrounded by any whitespace is still absent, whatever `T` is. */
  lemma PaddedPlaceholderAbsent<T>(w1: string, p: string, w2: string, parse: string -> Option<T>)
    requires AllWhitespace(w1) && AllWhitespace(w2) && IsPlaceholder(p)
    ensures ParseField(w1 + p + w2, parse) == Absent
  {
    PlaceholdersTrimmed(p);
    TrimPadded(w1, p, w2);
  }

  /** Free text never fails to parse: a text field is absent or present, never non-standard. */
  lemma TextFieldIsStandard(s: string)
    ensures !ParseField(s, (t: string) => Some(t)).NotStandard?
    ensures ParseField(s, (t: string) => Some(t)).Present? ==> ParseField(s, (t: string) => Some(t)).value == s
  {
  }

  // ---------------------------------------------------------------------------
  // `as_ref`, `index`, `present`, Display
  // ---------------------------------------------------------------------------

  /** `as_ref`: empty when absent, the value's text when present, the raw text otherwise. */
  function FieldText<T>(f: Field<T>, asRef: T -> string): (r: string)
    ensures f.Absent? ==> r == []
    ensures f.NotStandard? ==> r == f.text
  {
    match f
    case Absent => ""
    case Present(p) => asRef(p)
    case NotStandard(s) => s
  }

  /** `Field::index`: the index entry of the field's text. */
  function FieldIndex<T>(f: Field<T>, asRef: T -> string): (r: string)
    ensures f.Absent? ==> r == []
    ensures r == [] <==> FieldText(f, asRef) == []
    ensures FieldText(f, asRef) != [] ==> r == "\\index{" + IndexKey(Remap(FieldText(f, asRef))) + "}"
  {
    RenderIndex(FieldText(f, asRef))
  }

  /** `present`: the parsed value, exactly when there is one. */
  function PresentValue<T>(f: Field<T>): (r: Option<T>)
    ensures r.Some? <==> f.Present?
    ensures r.Some? ==> Present(r.value) == f
  {
    match f
    case Present(t) => Some(t)
    case _ => None
  }

  /** `Display`: "---" when absent. */
  function DisplayField<T>(f: Field<T>, display: T -> string): string {
    match f
    case Absent => "---"
    case Present(t) => display(t)
    case NotStandard(s) => s
  }

  /**
   * A present cell is shown through its value's display, a non-standard one as
   * it was written, and an absent one as "---" while its text is empty.
   */
  lemma DisplayFieldMeaning<T>(f: Field<T>, display: T -> string)
    ensures f.Present? ==> DisplayField(f, display) == display(f.value)
    ensures f.NotStandard? ==> DisplayField(f, display) == f.text
    ensures f.Absent? ==> DisplayField(f, display) == "---" && FieldText(f, display) == []
  {
  }

  // ---------------------------------------------------------------------------
  // `take`: the one operation that changes a field in place
  // ---------------------------------------------------------------------------

  /** A mutable slot holding a field. */
  class FieldCell<T> {
    var field: Field<T>

    constructor (f: Field<T>)
      ensures field == f
    {
      field := f;
    }

    /** `take`: hands back the old content and leaves `Absent` behind. */
    method Take() returns (r: Field<T>)
      modifies this
      ensures r == old(field)
      ensures field == Absent
    {
      r := field;
      field := Absent;
    }
  }

  // ---------------------------------------------------------------------------
  // Orders
  // ---------------------------------------------------------------------------

  /** The generic `Ord`: absent first, then by `as_ref` text. */
  function CompareByText<T>(a: Field<T>, b: Field<T>, asRef: T -> string): Ordering {
    match (a, b)
    case (Absent, Absent) => Equal
    case (Absent, _) => Less
    case (_, Absent) => Greater
    case (_, _) => CompareStrings(FieldText(a, asRef), FieldText(b, asRef))
  }

  /**
   * Absent is the least element; two other fields tie exactly when their texts
   * agree (so a value and a raw text with the same spelling tie); the order is
   * antisymmetric.
   */
  lemma CompareByTextMeaning<T>(a: Field<T>, b: Field<T>, asRef: T -> string)
    ensures a.Absent? ==> CompareByText(a, b, asRef) == (if b.Absent? then Equal else Less)
    ensures !a.Absent? && !b.Absent? ==>
      (CompareByText(a, b, asRef) == Equal <==> FieldText(a, asRef) == FieldText(b, asRef))
    ensures CompareByText(b, a, asRef) == CompareByText(a, b, asRef).Flip()
  {
    CompareStringsEqual(FieldText(a, asRef), FieldText(b, asRef));
    CompareStringsFlip(FieldText(a, asRef), FieldText(b, asRef));
  }

  lemma CompareByTextTransitive<T>(a: Field<T>, b: Field<T>, c: Field<T>, asRef: T -> string)
    requires CompareByText(a, b, asRef) == Less && CompareByText(b, c, asRef) == Less
    ensures CompareByText(a, c, asRef) == Less
  {
    if !a.Absent? {
      CompareStringsTransitive(FieldText(a, asRef), FieldText(b, asRef), FieldText(c, asRef));
    }
  }

  /**
   * The `Ord` written out for ranges, pages, issue numbers and minutes:
   * absent first; two values by their own order; a value against a raw text
   * by the value's display against the text; two raw texts as strings.
   */
  function CompareTyped<T>(a: Field<T>, b: Field<T>, cmp: (T, T) -> Ordering, display: T -> string): Ordering {
    match (a, b)
    case (Absent, Absent) => Equal
    case (Absent, _) => Less
    case (_, Absent) => Greater
    case (Present(x), Present(y)) => cmp(x, y)
    case (Present(x), NotStandard(t)) => CompareStrings(display(x), t)
    case (NotStandard(t), Present(y)) => CompareStrings(t, display(y))
    case (NotStandard(t), NotStandard(u)) => CompareStrings(t, u)
  }

  /** Absent is the least element, and the order is antisymmetric when the values' order is. */
  lemma CompareTypedMeaning<T>(a: Field<T>, b: Field<T>, cmp: (T, T) -> Ordering, display: T -> string)
    requires forall x, y :: cmp(y, x) == cmp(x, y).Flip()
    ensures a.Absent? ==> CompareTyped(a, b, cmp, display) == (if b.Absent? then Equal else Less)
    ensures CompareTyped(b, a, cmp, display) == CompareTyped(a, b, cmp, display).Flip()
    ensures a.Present? && b.Present? ==> CompareTyped(a, b, cmp, display) == cmp(a.value, b.value)
  {
    match (a, b)
    case (Present(x), NotStandard(t)) => CompareStringsFlip(display(x), t);
    case (NotStandard(t), Present(y)) => CompareStringsFlip(t, display(y));
    case (NotStandard(t), NotStandard(u)) => CompareStringsFlip(t, u);
    case (_, _) =>
  }

  /** `Ord for Field<Range>`. */
  function CompareRangeFields(a: Field<Range>, b: Field<Range>): Ordering {
    CompareTyped(a, b, CompareRanges, FormatRange)
  }

  /** `Ord for Field<Page>`. */
  function ComparePageFields(a: Field<Page>, b: Field<Page>): Ordering {
    CompareTyped(a, b, ComparePages, DisplayPage)
  }

  /** `Ord for Field<NumberVolume>`, over the records that have a side (the only ones the display accepts). */
  function CompareNumberVolumeFields(a: Field<KnownNumberVolume>, b: Field<KnownNumberVolume>): Ordering {
    CompareTyped(a, b, (x: KnownNumberVolume, y: KnownNumberVolume) => CompareNumberVolumes(x, y),
      (x: KnownNumberVolume) => DisplayNumberVolume(x))
  }

  /** `Ord for Field<Ata>`. */
  function CompareAtaFields(a: Field<Ata>, b: Field<Ata>): Ordering {
    CompareTyped(a, b, CompareAtas, DisplayAta)
  }

  /** Each of the four orders puts absent cells first and is antisymmetric. */
  lemma TypedFieldOrdersAntisymmetric(r1: Field<Range>, r2: Field<Range>, p1: Field<Page>, p2: Field<Page>,
                                      n1: Field<KnownNumberVolume>, n2: Field<KnownNumberVolume>,
                                      a1: Field<Ata>, a2: Field<Ata>)
    ensures CompareRangeFields(r2, r1) == CompareRangeFields(r1, r2).Flip()
    ensures ComparePageFields(p2, p1) == ComparePageFields(p1, p2).Flip()
    ensures CompareNumberVolumeFields(n2, n1) == CompareNumberVolumeFields(n1, n2).Flip()
    ensures CompareAtaFields(a2, a1) == CompareAtaFields(a1, a2).Flip()
    ensures r1.Absent? && !r2.Absent? ==> CompareRangeFields(r1, r2) == Less
    ensures p1.Absent? && !p2.Absent? ==> ComparePageFields(p1, p2) == Less
    ensures n1.Absent? && !n2.Absent? ==> CompareNumberVolumeFields(n1, n2) == Less
    ensures a1.Absent? && !a2.Absent? ==> CompareAtaFields(a1, a2) == Less
  {
    forall x: Range, y: Range ensures CompareRanges(y, x) == CompareRanges(x, y).Flip() {
      CompareRangesMeaning(x, y);
    }
    CompareTypedMeaning(r1, r2, CompareRanges, FormatRange);
    forall x: Page, y: Page ensures ComparePages(y, x) == ComparePages(x, y).Flip() {
      ComparePagesMeaning(x, y);
    }
    CompareTypedMeaning(p1, p2, ComparePages, DisplayPage);
    var cmpNv := (x: KnownNumberVolume, y: KnownNumberVolume) => CompareNumberVolumes(x, y);
    forall x: KnownNumberVolume, y: KnownNumberVolume ensures cmpNv(y, x) == cmpNv(x, y).Flip() {
      CompareNumberVolumesMeaning(x, y);
    }
    CompareTypedMeaning(n1, n2, cmpNv, (x: KnownNumberVolume) => DisplayNumberVolume(x));
    forall x: Ata, y: Ata ensures CompareAtas(y, x) == CompareAtas(x, y).Flip() {
      CompareAtasMeaning(x, y);
    }
    CompareTypedMeaning(a1, a2, CompareAtas, DisplayAta);
  }

  /**
   * The typed order is not transitive: 9 before 10 as numbers, "10" before
   * "5 VVX" and "5 VVX" before "9" as text, so the three cells form a cycle.
   */
  lemma RangeFieldOrderCycle()
    ensures CompareRangeFields(Present(Range(9, 9)), Present(Range(10, 10))) == Less
    ensures CompareRangeFields(Present(Range(10, 10)), NotStandard("5 VVX")) == Less
    ensures CompareRangeFields(NotStandard("5 VVX"), Present(Range(9, 9))) == Less
  {
    assert FormatRange(Range(10, 10)) == "10";
    assert FormatRange(Range(9, 9)) == "9";
  }
}
