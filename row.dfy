/**
 * A catalogue record: eight slots, each filled at most once from a
 * (key, value) pair of the table. Models `src/data/mod.rs`.
 */
module Data {
  import opened Results
  import opened Text
  import opened Ranges
  import opened Pages
  import opened NumberVolumes
  import opened Atas
  import opened Fields
  import opened DocumentTypes

  // ---------------------------------------------------------------------------
  // The slots, as a value
  // ---------------------------------------------------------------------------

  /** The eight slots of a `Row`, in declaration order. */
  datatype Slots = Slots(
    year: Option<Field<Range>>,
    numberVolume: Option<Field<KnownNumberVolume>>,
    ata: Option<Field<Ata>>,
    page: Option<Field<Page>>,
    kind: Option<DocumentTypes>,
    title: Option<Field<string>>,
    doner: Option<Field<string>>,
    time: Option<Field<string>>)

  /** What `Row::new` holds. */
  const EmptySlots := Slots(None, None, None, None, None, None, None, None)

  /** Names for the slots. */
  datatype Slot = Year | NumberVolumeSlot | AtaSlot | PageSlot | Kind | Title | Doner | Time

  /** Whether a slot already holds a value. */
  predicate Filled(s: Slots, slot: Slot) {
    match slot
    case Year => s.year.Some?
    case NumberVolumeSlot => s.numberVolume.Some?
    case AtaSlot => s.ata.Some?
    case PageSlot => s.page.Some?
    case Kind => s.kind.Some?
    case Title => s.title.Some?
    case Doner => s.doner.Some?
    case Time => s.time.Some?
  }

  /** Two rows hold the same thing in `slot`. */
  predicate SameSlot(a: Slots, b: Slots, slot: Slot) {
    match slot
    case Year => a.year == b.year
    case NumberVolumeSlot => a.numberVolume == b.numberVolume
    case AtaSlot => a.ata == b.ata
    case PageSlot => a.page == b.page
    case Kind => a.kind == b.kind
    case Title => a.title == b.title
    case Doner => a.doner == b.doner
    case Time => a.time == b.time
  }

  /** Free text parses always. */
  function AnyText(t: string): Option<string> {
    Some(t)
  }

  /** `Ata::from_str` as a parser that may fail. */
  function AtaParser(t: string): Option<Ata> {
    ParseAta(t).ToOption()
  }

  /** A parsed value, tagged with the slot it goes into. */
  datatype Entry =
    | YearEntry(year: Field<Range>)
    | NumberVolumeEntry(numberVolume: Field<KnownNumberVolume>)
    | AtaEntry(ata: Field<Ata>)
    | PageEntry(page: Field<Page>)
    | KindEntry(kind: DocumentTypes)
    | TitleEntry(title: Field<string>)
    | DonerEntry(doner: Field<string>)
    | TimeEntry(time: Field<string>)

  /** The slot an entry goes into. */
  function SlotOf(e: Entry): Slot {
    match e
    case YearEntry(_) => Year
    case NumberVolumeEntry(_) => NumberVolumeSlot
    case AtaEntry(_) => AtaSlot
    case PageEntry(_) => PageSlot
    case KindEntry(_) => Kind
    case TitleEntry(_) => Title
    case DonerEntry(_) => Doner
    case TimeEntry(_) => Time
  }

  /**
   * The (already transformed) value parsed by the slot's own `from_str`.
   * Every one of them succeeds, so the error branch of `set_field_internal`
   * for a failed parse is never taken.
   */
  function ParseEntry(slot: Slot, w: string): Entry {
    match slot
    case Year => YearEntry(ParseField(w, ParseRangeSpec))
    case NumberVolumeSlot => NumberVolumeEntry(ParseField(w, ParseNumberVolume))
    case AtaSlot => AtaEntry(ParseField(w, AtaParser))
    case PageSlot => PageEntry(ParseField(w, ParsePage))
    case Kind => KindEntry(DocumentTypesOf(w))
    case Title => TitleEntry(ParseField(w, AnyText))
    case Doner => DonerEntry(ParseField(w, AnyText))
    case Time => TimeEntry(ParseField(w, AnyText))
  }

  /** The entry stored in its slot; the other seven slots are kept. */
  function Put(s: Slots, e: Entry): (r: Slots)
    ensures Filled(r, SlotOf(e))
    ensures forall o :: o != SlotOf(e) ==> SameSlot(s, r, o)
  {
    match e
    case YearEntry(f) => s.(year := Some(f))
    case NumberVolumeEntry(f) => s.(numberVolume := Some(f))
    case AtaEntry(f) => s.(ata := Some(f))
    case PageEntry(f) => s.(page := Some(f))
    case KindEntry(d) => s.(kind := Some(d))
    case TitleEntry(f) => s.(title := Some(f))
    case DonerEntry(f) => s.(doner := Some(f))
    case TimeEntry(f) => s.(time := Some(f))
  }

  // ---------------------------------------------------------------------------
  // `set_field`
  // ---------------------------------------------------------------------------

  /** The key as routed: trimmed, then lower-cased. */
  function NormalizeKey(key: string): string {
    Lower(Trim(key))
  }

  /** A normalised key has nothing left to trim and nothing left to lower-case. */
  lemma NormalizeKeyNormal(key: string)
    ensures Trim(NormalizeKey(key)) == NormalizeKey(key)
    ensures Lower(NormalizeKey(key)) == NormalizeKey(key)
  {
    TrimLowerCommute(Trim(key));
    TrimIdempotent(key);
    LowerIdempotent(Trim(key));
  }

  /** Normalising a normalised key changes nothing. */
  lemma NormalizeKeyIdempotent(key: string)
    ensures NormalizeKey(NormalizeKey(key)) == NormalizeKey(key)
  {
    NormalizeKeyNormal(key);
  }

  /** The routing of a normalised key: the first test that holds picks the slot. */
  function Route(k: string): Option<Slot> {
    if StartsWith(k, "ano") then Some(Year)
    else if Contains(k, "ata") then Some(AtaSlot)
    else if StartsWith(k, "numero") || StartsWith(k, "número") then Some(NumberVolumeSlot)
    else if StartsWith(k, "página") || StartsWith(k, "pagina") then Some(PageSlot)
    else if StartsWith(k, "tipo") then Some(Kind)
    else if StartsWith(k, "título") || StartsWith(k, "titulo") then Some(Title)
    else if StartsWith(k, "quem") then Some(Doner)
    else if StartsWith(k, "qual") then Some(Time)
    else None
  }

  /**
   * The value a slot parses: kinds lower-cased, titles with `$` escaped for
   * LaTeX (which loses nothing), every other slot's value as it is.
   */
  function Transform(slot: Slot, v: string): string {
    match slot
    case Kind => Lower(v)
    case Title => EscapeDollar(v)
    case _ => v
  }

  /**
   * A kind is lower-cased for good, a title's escaping loses nothing, and
   * every other slot takes the value unchanged.
   */
  lemma TransformMeaning(slot: Slot, v: string)
    ensures slot == Kind ==> |Transform(slot, v)| == |v| && Lower(Transform(slot, v)) == Transform(slot, v)
    ensures slot == Title ==> UnescapeDollar(Transform(slot, v)) == v && |Transform(slot, v)| >= |v|
    ensures slot != Kind && slot != Title ==> Transform(slot, v) == v
  {
    LowerIdempotent(v);
    EscapeDollarRoundTrip(v);
    EscapeDollarGrows(v);
  }

  /**
   * `Row::set_field` as written: on a conflict the error carries the
   * transformed value, so a title comes back already escaped.
   */
  function SetFieldAsWritten(s: Slots, key: string, value: string): (r: (Slots, Result<Unit, (string, string)>))
    ensures Route(NormalizeKey(key)).None? ==> r == (s, Ok(Unit))
    ensures r.1.Err? <==> Route(NormalizeKey(key)).Some? && Filled(s, Route(NormalizeKey(key)).value)
    ensures r.1.Err? ==> r.0 == s && r.1.error == (NormalizeKey(key), Transform(Route(NormalizeKey(key)).value, Trim(value)))
    ensures r.1.Ok? ==> r.0 == SetFieldSpec(s, key, value).0
  {
    var k := NormalizeKey(key);
    var v := Trim(value);
    match Route(k)
    case None => (s, Ok(Unit))
    case Some(slot) =>
      if Filled(s, slot) then (s, Err((k, Transform(slot, v)))) else (Put(s, ParseEntry(slot, Transform(slot, v))), Ok(Unit))
  }

  /**
   * `Row::set_field` with the conflict reporting the normalised key and the
   * trimmed value as given, so the pair can be set again into another row.
   * An unknown key is accepted and changes nothing.
   */
  function SetFieldSpec(s: Slots, key: string, value: string): (r: (Slots, Result<Unit, (string, string)>))
    ensures Route(NormalizeKey(key)).None? ==> r == (s, Ok(Unit))
    ensures r.1.Err? <==> Route(NormalizeKey(key)).Some? && Filled(s, Route(NormalizeKey(key)).value)
    ensures r.1.Err? ==> r.0 == s && r.1.error == (NormalizeKey(key), Trim(value))
    ensures r.1.Ok? && Route(NormalizeKey(key)).Some? ==>
      r.0 == Put(s, ParseEntry(Route(NormalizeKey(key)).value, Transform(Route(NormalizeKey(key)).value, Trim(value))))
  {
    var k := NormalizeKey(key);
    var v := Trim(value);
    match Route(k)
    case None => (s, Ok(Unit))
    case Some(slot) =>
      if Filled(s, slot) then (s, Err((k, v))) else (Put(s, ParseEntry(slot, Transform(slot, v))), Ok(Unit))
  }

  // ---------------------------------------------------------------------------
  // `Row`, the object
  // ---------------------------------------------------------------------------

  /** `Row`: eight set-once slots, filled in place. */
  class Row {
    var year: Option<Field<Range>>
    var numberVolume: Option<Field<KnownNumberVolume>>
    var ata: Option<Field<Ata>>
    var page: Option<Field<Page>>
    var kind: Option<DocumentTypes>
    var title: Option<Field<string>>
    var doner: Option<Field<string>>
    var time: Option<Field<string>>

    /** The slots as a value. */
    function Value(): Slots
      reads this
    {
      Slots(year, numberVolume, ata, page, kind, title, doner, time)
    }

    /** `Row::new`: every slot empty. */
    constructor ()
      ensures Value() == EmptySlots
    {
      year, numberVolume, ata, page := None, None, None, None;
      kind, title, doner, time := None, None, None, None;
    }

    /** Store a parsed entry in its slot, which the caller found empty. */
    method Store(e: Entry)
      modifies this
      ensures Value() == Put(old(Value()), e)
    {
      match e {
        case YearEntry(f) => year := Some(f);
        case NumberVolumeEntry(f) => numberVolume := Some(f);
        case AtaEntry(f) => ata := Some(f);
        case PageEntry(f) => page := Some(f);
        case KindEntry(d) => kind := Some(d);
        case TitleEntry(f) => title := Some(f);
        case DonerEntry(f) => doner := Some(f);
        case TimeEntry(f) => time := Some(f);
      }
    }

    /**
     * `Row::set_field`: normalise the pair and route it by its key; an
     * empty slot is parsed into (`set_field_internal`), a taken one reports
     * the pair back.
     */
    method SetField(key: string, value: string) returns (r: Result<Unit, (string, string)>)
      modifies this
      ensures (Value(), r) == SetFieldSpec(old(Value()), key, value)
    {
      var k := NormalizeKey(key);
      var v := Trim(value);
      var route := Route(k);
      if route.None? {
        r := Ok(Unit);
      } else if Filled(Value(), route.value) {
        r := Err((k, v));
      } else {
        var slot := route.value;
        Store(ParseEntry(slot, Transform(slot, v)));
        r := Ok(Unit);
      }
    }
  }

  // ---------------------------------------------------------------------------
  // What `set_field` promises
  // ---------------------------------------------------------------------------

  /** A value parsed for a slot goes into that slot. */
  lemma EntrySlot(slot: Slot, w: string)
    ensures SlotOf(ParseEntry(slot, w)) == slot
  {
    match slot {
      case Year => assert ParseEntry(slot, w).YearEntry?;
      case NumberVolumeSlot => assert ParseEntry(slot, w).NumberVolumeEntry?;
      case AtaSlot => assert ParseEntry(slot, w).AtaEntry?;
      case PageSlot => assert ParseEntry(slot, w).PageEntry?;
      case Kind => assert ParseEntry(slot, w).KindEntry?;
      case Title => assert ParseEntry(slot, w).TitleEntry?;
      case Doner => assert ParseEntry(slot, w).DonerEntry?;
      case Time => assert ParseEntry(slot, w).TimeEntry?;
    }
  }

  /** A slot is filled once: a second pair for it is refused and changes nothing. */
  lemma SetOnce(s: Slots, key: string, value: string, key2: string, value2: string)
    requires Route(NormalizeKey(key)).Some?
    requires Route(NormalizeKey(key2)) == Route(NormalizeKey(key))
    ensures var s1 := SetFieldSpec(s, key, value).0;
      SetFieldSpec(s1, key2, value2) == (s1, Err((NormalizeKey(key2), Trim(value2))))
  {
    var slot := Route(NormalizeKey(key)).value;
    var s1 := SetFieldSpec(s, key, value).0;
    assert Filled(s1, slot) by {
      if !Filled(s, slot) {
        EntrySlot(slot, Transform(slot, Trim(value)));
      }
    }
  }

  /** Setting a pair touches its own slot and no other. */
  lemma SetFieldFrame(s: Slots, key: string, value: string, other: Slot)
    requires Route(NormalizeKey(key)) != Some(other)
    ensures SameSlot(s, SetFieldSpec(s, key, value).0, other)
  {
    match Route(NormalizeKey(key))
    case None =>
    case Some(slot) => EntrySlot(slot, Transform(slot, Trim(value)));
  }

  /**
   * A refused pair, set into a new row, fills that row exactly as the
   * original pair would have: nothing is lost or changed on the way.
   */
  lemma ReseedRejected(s: Slots, key: string, value: string)
    requires SetFieldSpec(s, key, value).1.Err?
    ensures var e := SetFieldSpec(s, key, value).1.error;
      SetFieldSpec(EmptySlots, e.0, e.1) == SetFieldSpec(EmptySlots, key, value)
  {
    NormalizeKeyIdempotent(key);
    TrimIdempotent(value);
  }

  /** No placeholder holds a dollar sign. */
  lemma PlaceholderHasNoDollar(p: string)
    requires IsPlaceholder(p)
    ensures '$' !in p
  {
  }

  /** A text with a dollar sign in it is never an absent field. */
  lemma DollarTextPresent(t: string)
    requires '$' in t
    ensures ParseField(t, AnyText) == Present(t)
  {
    var i :| 0 <= i < |t| && t[i] == '$';
    TrimKeeps(t, i);
    if IsPlaceholder(Trim(t)) {
      PlaceholderHasNoDollar(Trim(t));
    }
  }

  /**
   * As written, a refused title with a dollar sign comes back escaped, and
   * setting it into the new row escapes it again: the new row's title differs
   * from the one a fresh row gets from the same pair.
   */
  lemma ReseedTitleEscapesTwice(s: Slots, key: string, value: string)
    requires Route(NormalizeKey(key)) == Some(Title) && s.title.Some?
    requires '$' in Trim(value)
    ensures SetFieldAsWritten(s, key, value).1.Err?
    ensures var e := SetFieldAsWritten(s, key, value).1.error;
      SetFieldAsWritten(EmptySlots, e.0, e.1).0.title != SetFieldAsWritten(EmptySlots, key, value).0.title
  {
    var v := Trim(value);
    var w := EscapeDollar(v);
    RefusedAsWritten(s, key, value, Title);
    NormalizeKeyIdempotent(key);
    FreshTitle(key, value);
    FreshTitle(NormalizeKey(key), w);
    TrimIsTrimmed(value);
    EscapeDollarTrimmed(v);
    TrimOfTrimmed(w);
    EscapeDollarGrows(v);
    EscapeDollarGrows(w);
    DollarTextPresent(w);
    DollarTextPresent(EscapeDollar(w));
  }

  /** As written, a refused pair comes back with its value transformed for the slot. */
  lemma RefusedAsWritten(s: Slots, key: string, value: string, slot: Slot)
    requires Route(NormalizeKey(key)) == Some(slot) && Filled(s, slot)
    ensures SetFieldAsWritten(s, key, value) == (s, Err((NormalizeKey(key), Transform(slot, Trim(value)))))
  {
  }

  /** The title a fresh row takes from a pair routed to it. */
  lemma FreshTitle(key: string, value: string)
    requires Route(NormalizeKey(key)) == Some(Title)
    ensures SetFieldAsWritten(EmptySlots, key, value).0.title == Some(ParseField(EscapeDollar(Trim(value)), AnyText))
  {
    FreshTitleEntry(key, value);
    PutTitle(ParseField(EscapeDollar(Trim(value)), AnyText));
  }

  lemma FreshTitleEntry(key: string, value: string)
    requires Route(NormalizeKey(key)) == Some(Title)
    ensures SetFieldAsWritten(EmptySlots, key, value).0 == Put(EmptySlots, TitleEntry(ParseField(EscapeDollar(Trim(value)), AnyText)))
  {
    FreshAsWritten(key, value, Title);
    TitleEntryOf(Trim(value));
  }

  lemma PutTitle(f: Field<string>)
    ensures Put(EmptySlots, TitleEntry(f)).title == Some(f)
  {
  }

  /** A fresh row takes a routed pair into the routed slot. */
  lemma FreshAsWritten(key: string, value: string, slot: Slot)
    requires Route(NormalizeKey(key)) == Some(slot)
    ensures SetFieldAsWritten(EmptySlots, key, value).0 == Put(EmptySlots, ParseEntry(slot, Transform(slot, Trim(value))))
  {
  }

  lemma TitleEntryOf(v: string)
    ensures ParseEntry(Title, Transform(Title, v)) == TitleEntry(ParseField(EscapeDollar(v), AnyText))
  {
    assert Transform(Title, v) == EscapeDollar(v);
    ParseTitle(EscapeDollar(v));
  }

  /** The title slot keeps its text as it is. */
  lemma ParseTitle(w: string)
    ensures ParseEntry(Title, w) == TitleEntry(ParseField(w, AnyText))
  {
  }

  // ---------------------------------------------------------------------------
  // The derived order on rows
  // ---------------------------------------------------------------------------

  /** `Ord` on `Option`: `None` first, then the values' own order. */
  function CompareOptions<T>(a: Option<T>, b: Option<T>, cmp: (T, T) -> Ordering): Ordering {
    match (a, b)
    case (None, None) => Equal
    case (None, _) => Less
    case (_, None) => Greater
    case (Some(x), Some(y)) => cmp(x, y)
  }

  /** `DocumentTypes` ordered by its list of entries. */
  function CompareKinds(a: DocumentTypes, b: DocumentTypes): Ordering {
    CompareTypeLists(a.types, b.types)
  }

  /** Free-text fields ordered by their text, absent first. */
  function CompareTextFields(a: Field<string>, b: Field<string>): Ordering {
    CompareByText(a, b, (t: string) => t)
  }

  /** The derived `Ord` of `Row`: slot by slot in declaration order, the first difference decides. */
  function CompareRows(a: Slots, b: Slots): Ordering {
    Then(CompareOptions(a.year, b.year, CompareRangeFields),
    Then(CompareOptions(a.numberVolume, b.numberVolume, CompareNumberVolumeFields),
    Then(CompareOptions(a.ata, b.ata, CompareAtaFields),
    Then(CompareOptions(a.page, b.page, ComparePageFields),
    Then(CompareOptions(a.kind, b.kind, CompareKinds),
    Then(CompareOptions(a.title, b.title, CompareTextFields),
    Then(CompareOptions(a.doner, b.doner, CompareTextFields),
         CompareOptions(a.time, b.time, CompareTextFields))))))))
  }

  lemma CompareOptionsFlip<T>(a: Option<T>, b: Option<T>, cmp: (T, T) -> Ordering)
    requires forall x, y :: cmp(y, x) == cmp(x, y).Flip()
    ensures CompareOptions(b, a, cmp) == CompareOptions(a, b, cmp).Flip()
  {
  }

  /** Comparing two rows the other way round gives the opposite answer. */
  lemma RowOrderAntisymmetric(a: Slots, b: Slots)
    ensures CompareRows(b, a) == CompareRows(a, b).Flip()
  {
    forall x: Field<Range>, y: Field<Range> ensures CompareRangeFields(y, x) == CompareRangeFields(x, y).Flip() {
      TypedFieldOrdersAntisymmetric(x, y, Absent, Absent, Absent, Absent, Absent, Absent);
    }
    forall x: Field<KnownNumberVolume>, y: Field<KnownNumberVolume>
      ensures CompareNumberVolumeFields(y, x) == CompareNumberVolumeFields(x, y).Flip()
    {
      TypedFieldOrdersAntisymmetric(Absent, Absent, Absent, Absent, x, y, Absent, Absent);
    }
    forall x: Field<Ata>, y: Field<Ata> ensures CompareAtaFields(y, x) == CompareAtaFields(x, y).Flip() {
      TypedFieldOrdersAntisymmetric(Absent, Absent, Absent, Absent, Absent, Absent, x, y);
    }
    forall x: Field<Page>, y: Field<Page> ensures ComparePageFields(y, x) == ComparePageFields(x, y).Flip() {
      TypedFieldOrdersAntisymmetric(Absent, Absent, x, y, Absent, Absent, Absent, Absent);
    }
    forall x: DocumentTypes, y: DocumentTypes ensures CompareKinds(y, x) == CompareKinds(x, y).Flip() {
      CompareTypeListsMeaning(x.types, y.types);
    }
    forall x: Field<string>, y: Field<string> ensures CompareTextFields(y, x) == CompareTextFields(x, y).Flip() {
      CompareByTextMeaning(x, y, (t: string) => t);
    }
    CompareOptionsFlip(a.year, b.year, CompareRangeFields);
    CompareOptionsFlip(a.numberVolume, b.numberVolume, CompareNumberVolumeFields);
    CompareOptionsFlip(a.ata, b.ata, CompareAtaFields);
    CompareOptionsFlip(a.page, b.page, ComparePageFields);
    CompareOptionsFlip(a.kind, b.kind, CompareKinds);
    CompareOptionsFlip(a.title, b.title, CompareTextFields);
    CompareOptionsFlip(a.doner, b.doner, CompareTextFields);
    CompareOptionsFlip(a.time, b.time, CompareTextFields);
  }

  /** A new row sorts before every row that has a slot filled, and ties only with another new row. */
  lemma EmptyRowFirst(b: Slots)
    ensures CompareRows(EmptySlots, b) == if b == EmptySlots then Equal else Less
  {
  }
}
