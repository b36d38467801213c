/**
 * The taxonomy of document kinds ("periódico  (drama)", "boletim / documentos
 * oficiais"). Models `src/data/document_type.rs`.
 */
module DocumentTypes {
  import opened Results
  import opened Text
  import opened Indexes
  import opened Fields

  /** `DocumentType`: the known categories and any other text. */
  datatype DocumentType =
    | Almanaque | Anais | Anuario | Artigo | Ata | Atlas | Biografia | Boletim
    | Carta | CartaTopografica | Catalogo | Conferencia | Dicionario | Discurso
    | DocumentoJuridico | DocumentoOficial | Estatuto | Folheto | Jornal
    | Literatura | Livro | Manifesto | Manuscristo | Mapa | Medalha | Memorias
    | Moeda | Obra | Periodico | Poesia | Relatorio | Revista | Tese
    | Other(text: string)

  /** `as_ref`: the category's name, or the text itself. */
  function DocumentTypeName(k: DocumentType): string {
    match k
    case Almanaque => "Almanaque"
    case Anais => "Anais"
    case Anuario => "Anuário"
    case Artigo => "Artigo"
    case Ata => "Ata"
    case Atlas => "Atlas"
    case Biografia => "Biografia"
    case Boletim => "Boletim"
    case Carta => "Carta"
    case CartaTopografica => "Carta Topográfica"
    case Catalogo => "Catalogo"
    case Conferencia => "Conferência"
    case Dicionario => "Dicionário"
    case Discurso => "Discurso"
    case DocumentoJuridico => "Documento Juridico"
    case DocumentoOficial => "Documento Oficial"
    case Estatuto => "Estatuto"
    case Folheto => "Folheto"
    case Jornal => "Jornal"
    case Literatura => "Literatura"
    case Livro => "Livro"
    case Manifesto => "Manifesto"
    case Manuscristo => "Manuscristo"
    case Mapa => "Mapa"
    case Medalha => "Medalha"
    case Memorias => "Memórias"
    case Moeda => "Moeda"
    case Obra => "Obra"
    case Periodico => "Periódico"
    case Poesia => "Poesia"
    case Relatorio => "Relatório"
    case Revista => "Revista"
    case Tese => "Tese"
    case Other(s) => s
  }

  /** The categories of the spellings `from_str` recognises. */
  function Spelling(s: string): (r: Option<DocumentType>)
    ensures r.Some? ==> !r.value.Other?
  {
    match s
    case "periódico" | "jornais e revistas" | "jornal e revistas" => Some(Periodico)
    case "jornal" | "jornais" => Some(Jornal)
    case "revista" | "revivsta" | "revistas" => Some(Revista)
    case "livro" | "livros" => Some(Livro)
    case "documento oficial" | "documentos oficiais" | "documento official" | "documento  oficial" =>
      Some(DocumentoOficial)
    case "relatório" | "relatorio" => Some(Relatorio)
    case "boletim" => Some(Boletim)
    case "medalha comemorativa" | "medalha" => Some(Medalha)
    case "catálogo" | "catalogo" => Some(Catalogo)
    case "anuário" | "anuario" => Some(Anuario)
    case "manuscrito" | "manuscritos" | "manuscristo" => Some(Manuscristo)
    case "anais" => Some(Anais)
    case "discurso" | "discuro" | "discurso oficial" => Some(Discurso)
    case "dicionário" | "dicionario" => Some(Dicionario)
    case "moeda" => Some(Moeda)
    case "ata" | "acta" => Some(Ata)
    case "mapa" | "mapas" => Some(Mapa)
    case "carta" | "cartas" => Some(Carta)
    case "obra" => Some(Obra)
    case "biografia" => Some(Biografia)
    case "almanaque" => Some(Almanaque)
    case "estatuto" | "estatutos" => Some(Estatuto)
    case "conferência" => Some(Conferencia)
    case "folheto" => Some(Folheto)
    case "manifesto" | "folhetos" => Some(Manifesto)
    case "tese" => Some(Tese)
    case "atlas" => Some(Atlas)
    case "documento jurídico" => Some(DocumentoJuridico)
    case "folha topographica" | "planta topográfica" | "carta topográfica" => Some(CartaTopografica)
    case "artigos" | "artigo" | "artigos de jornal" => Some(Artigo)
    case "memórias" | "memória" => Some(Memorias)
    case "textos literários" | "literatura" => Some(Literatura)
    case "poesias" | "poema" => Some(Poesia)
    case _ => None
  }

  /** `DocumentType::from_str`, which never fails: a known spelling, else the text verbatim. */
  function ParseDocumentType(s: string): (r: DocumentType)
    ensures r.Other? <==> Spelling(s).None?
    ensures r.Other? ==> r.text == s
  {
    match Spelling(s)
    case Some(k) => k
    case None => Other(s)
  }

  /** `Display`: free text with its first character in upper case (nothing when empty), else the name. */
  function DisplayDocumentType(k: DocumentType): (r: string)
    ensures k.Other? ==> |r| == |k.text|
    ensures k.Other? && k.text != [] ==> r[0] == UpperChar(k.text[0]) && r[1..] == k.text[1..]
    ensures !k.Other? ==> r == DocumentTypeName(k)
  {
    match k
    case Other(s) => Capitalize(s)
    case _ => DocumentTypeName(k)
  }

  /** `Ord`: by `as_ref` text, so free text sorts among the category names. */
  function CompareDocumentTypes(a: DocumentType, b: DocumentType): Ordering {
    CompareStrings(DocumentTypeName(a), DocumentTypeName(b))
  }

  /** Two kinds tie exactly when their names agree; the order is antisymmetric and transitive. */
  lemma CompareDocumentTypesMeaning(a: DocumentType, b: DocumentType, c: DocumentType)
    ensures CompareDocumentTypes(a, b) == Equal <==> DocumentTypeName(a) == DocumentTypeName(b)
    ensures CompareDocumentTypes(b, a) == CompareDocumentTypes(a, b).Flip()
    ensures CompareDocumentTypes(a, b) == Less && CompareDocumentTypes(b, c) == Less ==> CompareDocumentTypes(a, c) == Less
  {
    var na, nb, nc := DocumentTypeName(a), DocumentTypeName(b), DocumentTypeName(c);
    CompareStringsEqual(na, nb);
    CompareStringsFlip(na, nb);
    if CompareStrings(na, nb) == Less && CompareStrings(nb, nc) == Less {
      CompareStringsTransitive(na, nb, nc);
    }
  }

  /** Hence free text spelling a category's name ties with that category. */
  lemma OtherTiesWithCategory()
    ensures CompareDocumentTypes(Other("Boletim"), Boletim) == Equal
  {
    CompareStringsEqual("Boletim", "Boletim");
  }

  // ---------------------------------------------------------------------------
  // `DocumentTypes`: a list of kinds separated by "/", each with optional
  // qualifiers in parentheses and an optional "?"
  // ---------------------------------------------------------------------------

  /** `DocumentTypes`. */
  datatype DocumentTypes = DocumentTypes(types: seq<Field<DocumentType>>)

  /** The end of the longest run, starting at `i`, of characters outside `excluded`. */
  function RunEnd(s: string, i: nat, excluded: set<char>): (j: nat)
    requires i <= |s|
    ensures i <= j <= |s|
    ensures forall k :: i <= k < j ==> s[k] !in excluded
    ensures j < |s| ==> s[j] in excluded
    decreases |s| - i
  {
    if i == |s| || s[i] in excluded then i else RunEnd(s, i + 1, excluded)
  }

  /** A run that is followed by an excluded character, or by the end, ends there. */
  lemma {:induction false} RunEndAt(s: string, i: nat, excluded: set<char>, e: nat)
    requires i <= e <= |s|
    requires forall k :: i <= k < e ==> s[k] !in excluded
    requires e < |s| ==> s[e] in excluded
    ensures RunEnd(s, i, excluded) == e
    decreases e - i
  {
    if i < e {
      RunEndAt(s, i + 1, excluded, e);
    }
  }

  /** The texts of the groups that took part in one match, and where the match ends. */
  datatype Captures = Captures(groups: seq<string>, end: nat)

  /**
   * One match of `([^(?]+)?(?:\(([^)]+)\))?(\?)?` at `i`: the longest run of
   * characters other than "(" and "?"; then, if a "(" follows and a non-empty
   * run without ")" is closed by ")", the text inside; then an optional "?".
   * The pattern always matches, possibly with nothing.
   */
  function MatchAt(s: string, i: nat): (r: Captures)
    requires i <= |s|
    ensures i <= r.end <= |s|
    ensures r.groups == [] <==> r.end == i
    ensures |r.groups| <= 3
  {
    var j := RunEnd(s, i, {'(', '?'});
    var g1 := if i < j then [s[i..j]] else [];
    var c := if j < |s| && s[j] == '(' then RunEnd(s, j + 1, {')'}) else j;
    var paren := j < |s| && s[j] == '(' && j + 1 < c < |s|;
    var g2 := if paren then [s[j + 1..c]] else [];
    var k := if paren then c + 1 else j;
    var question := k < |s| && s[k] == '?';
    var g3 := if question then [s[k..k + 1]] else [];
    Captures(g1 + g2 + g3, if question then k + 1 else k)
  }

  /** `f` applied to each element, in order. */
  function MapSeq<A, B>(xs: seq<A>, f: A -> B): (r: seq<B>)
    ensures |r| == |xs|
    ensures forall k :: 0 <= k < |xs| ==> r[k] == f(xs[k])
  {
    if xs == [] then [] else MapSeq(xs[..|xs| - 1], f) + [f(xs[|xs| - 1])]
  }

  /**
   * What every match in `s` from `i` on contributes. After an empty match
   * the search moves one character on; after a non-empty one it resumes at
   * its end.
   */
  function PartEntries<T>(s: string, i: nat, read: string -> T): seq<T>
    requires i <= |s|
    decreases |s| - i
  {
    if i == |s| then []
    else
      var m := MatchAt(s, i);
      if m.end == i then PartEntries(s, i + 1, read) else MapSeq(m.groups, read) + PartEntries(s, m.end, read)
  }

  /** What every "/"-separated part contributes, in order. */
  function EntriesOf<T>(parts: seq<string>, read: string -> T): seq<T> {
    if parts == [] then [] else EntriesOf(parts[..|parts| - 1], read) + PartEntries(parts[|parts| - 1], 0, read)
  }

  /**
   * The loops of `DocumentTypes::from_str`: for each "/"-separated part, for
   * each match, for each group that took part, push what `read` makes of it.
   */
  method ScanTypes<T>(s: string, read: string -> T) returns (types: seq<T>)
    ensures types == EntriesOf(Split(s, '/'), read)
  {
    var parts := Split(s, '/');
    types := [];
    var n := 0;
    while n < |parts|
      invariant 0 <= n <= |parts|
      invariant types == EntriesOf(parts[..n], read)
    {
      types := ScanPart(parts[n], read, types);
      assert parts[..n + 1][..n] == parts[..n];
      n := n + 1;
    }
    assert parts[..n] == parts;
  }

  /** The middle loop, over the matches of one part. */
  method ScanPart<T>(part: string, read: string -> T, before: seq<T>) returns (types: seq<T>)
    ensures types == before + PartEntries(part, 0, read)
  {
    types := before;
    var i := 0;
    while i < |part|
      invariant 0 <= i <= |part|
      invariant before + PartEntries(part, 0, read) == types + PartEntries(part, i, read)
    {
      types, i := ScanMatch(part, i, read, types);
    }
  }

  /** One turn of the middle loop: the match at `i`, its groups pushed, and where the search resumes. */
  method ScanMatch<T>(part: string, i: nat, read: string -> T, before: seq<T>) returns (types: seq<T>, next: nat)
    requires i < |part|
    ensures i < next <= |part|
    ensures types + PartEntries(part, next, read) == before + PartEntries(part, i, read)
  {
    var m := MatchAt(part, i);
    PartEntriesStep(part, i, read);
    if m.end == i {
      types, next := before, i + 1;
    } else {
      types := PushGroups(m.groups, read, before);
      AppendAssoc(before, MapSeq(m.groups, read), PartEntries(part, m.end, read));
      next := m.end;
    }
  }

  /** One step of `PartEntries`, with the match named. */
  lemma PartEntriesStep<T>(s: string, i: nat, read: string -> T)
    requires i < |s|
    ensures MatchAt(s, i).end == i ==> PartEntries(s, i, read) == PartEntries(s, i + 1, read)
    ensures MatchAt(s, i).end != i ==>
      PartEntries(s, i, read) == MapSeq(MatchAt(s, i).groups, read) + PartEntries(s, MatchAt(s, i).end, read)
  {
  }

  lemma AppendAssoc<T>(a: seq<T>, b: seq<T>, c: seq<T>)
    ensures (a + b) + c == a + (b + c)
  {
  }

  /** The inner loop, over the groups of one match. */
  method PushGroups<T>(groups: seq<string>, read: string -> T, before: seq<T>) returns (types: seq<T>)
    ensures types == before + MapSeq(groups, read)
  {
    types := before;
    var k := 0;
    while k < |groups|
      invariant 0 <= k <= |groups|
      invariant types == before + MapSeq(groups[..k], read)
    {
      types := types + [read(groups[k])];
      k := k + 1;
      assert groups[..k][..k - 1] == groups[..k - 1];
    }
    assert groups[..k] == groups;
  }

  /** Whatever `read` always satisfies, every entry satisfies. */
  lemma {:induction false} EntriesKeep<T>(parts: seq<string>, read: string -> T, p: T -> bool)
    requires forall g :: p(read(g))
    ensures forall x :: x in EntriesOf(parts, read) ==> p(x)
  {
    if parts != [] {
      EntriesKeep(parts[..|parts| - 1], read, p);
      PartEntriesKeep(parts[|parts| - 1], 0, read, p);
    }
  }

  lemma {:induction false} PartEntriesKeep<T>(s: string, i: nat, read: string -> T, p: T -> bool)
    requires i <= |s|
    requires forall g :: p(read(g))
    ensures forall x :: x in PartEntries(s, i, read) ==> p(x)
    decreases |s| - i
  {
    if i < |s| {
      var m := MatchAt(s, i);
      if m.end == i {
        PartEntriesKeep(s, i + 1, read, p);
      } else {
        PartEntriesKeep(s, m.end, read, p);
      }
    }
  }

  /** One captured group, trimmed and read as a field of a kind. */
  function KindField(g: string): (r: Field<DocumentType>)
    ensures !r.NotStandard?
    ensures r.Absent? <==> IsPlaceholder(Trim(g))
    ensures r.Present? ==> r.value == ParseDocumentType(Trim(g))
  {
    TrimIdempotent(g);
    ParseField(Trim(g), (t: string) => Some(ParseDocumentType(t)))
  }

  /** What `DocumentTypes::from_str` builds from `s`. */
  function DocumentTypesOf(s: string): DocumentTypes {
    DocumentTypes(EntriesOf(Split(s, '/'), KindField))
  }

  /** `DocumentTypes::from_str`: it never fails, and no entry is ever non-standard. */
  method ParseDocumentTypes(s: string) returns (r: DocumentTypes)
    ensures r == DocumentTypesOf(s)
    ensures forall f :: f in r.types ==> !f.NotStandard?
  {
    var types := ScanTypes(s, KindField);
    EntriesKeep(Split(s, '/'), KindField, (f: Field<DocumentType>) => !f.NotStandard?);
    r := DocumentTypes(types);
  }

  // ---------------------------------------------------------------------------
  // The shapes of a part
  // ---------------------------------------------------------------------------

  /** A part with no "(" and no "?" is one entry. */
  lemma PlainPart<T>(t: string, read: string -> T)
    requires t != [] && '(' !in t && '?' !in t
    ensures PartEntries(t, 0, read) == [read(t)]
  {
    forall k | 0 <= k < |t| ensures t[k] !in {'(', '?'} {
      assert t[k] in t;
    }
    RunEndAt(t, 0, {'(', '?'}, |t|);
    assert t[0..|t|] == t;
    assert MatchAt(t, 0).groups == [t];
  }

  /** A kind followed by one qualifier in parentheses is two entries, the kind first. */
  lemma QualifiedPart<T>(a: string, q: string, read: string -> T)
    requires a != [] && '(' !in a && '?' !in a
    requires q != [] && ')' !in q
    ensures PartEntries(a + "(" + q + ")", 0, read) == [read(a), read(q)]
  {
    QualifiedMatch(a, q);
  }

  /** The single match of such a part takes both groups and the whole text. */
  lemma QualifiedMatch(a: string, q: string)
    requires a != [] && '(' !in a && '?' !in a
    requires q != [] && ')' !in q
    ensures MatchAt(a + "(" + q + ")", 0) == Captures([a, q], |a| + |q| + 2)
  {
    var t := a + "(" + q + ")";
    forall k | 0 <= k < |a| ensures t[k] !in {'(', '?'} {
      assert t[k] == a[k] && a[k] in a;
    }
    RunEndAt(t, 0, {'(', '?'}, |a|);
    var j := |a|;
    forall k | j + 1 <= k < j + 1 + |q| ensures t[k] !in {')'} {
      assert t[k] == q[k - j - 1] && q[k - j - 1] in q;
    }
    RunEndAt(t, j + 1, {')'}, j + 1 + |q|);
    var c := j + 1 + |q|;
    assert t[0..j] == a && t[j + 1..c] == q;
  }

  /** A "/" between two kinds separates two parts. */
  lemma TwoParts<T>(a: string, b: string, read: string -> T)
    requires '/' !in a && '/' !in b
    ensures EntriesOf(Split(a + "/" + b, '/'), read) == PartEntries(a, 0, read) + PartEntries(b, 0, read)
  {
    SplitAtSeparator(a, b, '/');
    SplitNoSeparator(b, '/');
    assert a + "/" + b == a + ['/'] + b;
    assert [a, b][..1] == [a] && [a][..0] == [];
    assert EntriesOf([a], read) == PartEntries(a, 0, read);
  }

  /** One part with no "/" is read alone. */
  lemma OnePart<T>(t: string, read: string -> T)
    requires '/' !in t
    ensures EntriesOf(Split(t, '/'), read) == PartEntries(t, 0, read)
  {
    SplitNoSeparator(t, '/');
    assert [t][..0] == [];
  }

  // ---------------------------------------------------------------------------
  // The cases of the `parse_string` test
  // ---------------------------------------------------------------------------

  /** A kind with whitespace around it reads as that kind. */
  lemma PaddedKind(w1: string, t: string, w2: string)
    requires AllWhitespace(w1) && AllWhitespace(w2) && Trimmed(t) && !IsPlaceholder(t)
    ensures KindField(w1 + t + w2) == Present(ParseDocumentType(t))
  {
    TrimPadded(w1, t, w2);
  }

  /** A placeholder with whitespace around it is an absent entry. */
  lemma PaddedPlaceholderKind(w1: string, p: string, w2: string)
    requires AllWhitespace(w1) && AllWhitespace(w2) && IsPlaceholder(p)
    ensures KindField(w1 + p + w2) == Absent
  {
    PlaceholdersTrimmed(p);
    TrimPadded(w1, p, w2);
  }

  /** Text that is no placeholder and no known spelling is kept as free text. */
  lemma FreeTextKind(t: string)
    requires Trimmed(t) && !IsPlaceholder(t) && Spelling(t) == None
    ensures KindField(t) == Present(Other(t))
  {
    TrimOfTrimmed(t);
  }

  /** A kind, then a qualifier in parentheses, with no "/": two entries. */
  lemma QualifiedShape(a: string, q: string)
    requires a != [] && '/' !in a && '(' !in a && '?' !in a
    requires q != [] && '/' !in q && ')' !in q
    ensures DocumentTypesOf(a + "(" + q + ")").types == [KindField(a), KindField(q)]
  {
    OnePart(a + "(" + q + ")", KindField);
    QualifiedPart(a, q, KindField);
  }

  lemma PeriodicoPadded(a: string)
    requires a == "periódico  "
    ensures KindField(a) == Present(Periodico)
  {
    assert a == [] + "periódico" + "  ";
    PaddedKind([], "periódico", "  ");
  }

  lemma DramaNotSpelling()
    ensures Spelling("drama") == None
  {
  }

  lemma DramaIsFreeText(q: string)
    requires q == "drama"
    ensures KindField(q) == Present(Other("drama"))
  {
    DramaNotSpelling();
    assert !IsPlaceholder(q) && Trimmed(q);
    FreeTextKind(q);
  }

  /** "periódico  (drama)" is the kind, then its qualifier as free text. */
  lemma QualifiedExample(a: string, q: string)
    requires a == "periódico  " && q == "drama"
    ensures DocumentTypesOf(a + "(" + q + ")").types == [Present(Periodico), Present(Other("drama"))]
  {
    assert '/' !in a && '(' !in a && '?' !in a;
    assert '/' !in q && ')' !in q;
    QualifiedShape(a, q);
    PeriodicoPadded(a);
    DramaIsFreeText(q);
  }

  /** Two kinds separated by "/", with no parentheses: two entries. */
  lemma TwoPlainShape<T>(a: string, b: string, read: string -> T)
    requires a != [] && '/' !in a && '(' !in a && '?' !in a
    requires b != [] && '/' !in b && '(' !in b && '?' !in b
    ensures EntriesOf(Split(a + "/" + b, '/'), read) == [read(a), read(b)]
  {
    TwoParts(a, b, read);
    PlainPart(a, read);
    PlainPart(b, read);
  }

  lemma BoletimSpelling(t: string)
    requires t == "boletim"
    ensures Spelling(t) == Some(Boletim) && !IsPlaceholder(t) && Trimmed(t)
  {
  }

  lemma BoletimPadded(a: string)
    requires a == "boletim "
    ensures KindField(a) == Present(Boletim)
  {
    var t := "boletim";
    BoletimSpelling(t);
    assert a == [] + t + " ";
    PaddedKind([], t, " ");
  }

  lemma OficiaisSpelling(t: string)
    requires t == "documentos oficiais"
    ensures Spelling(t) == Some(DocumentoOficial) && !IsPlaceholder(t) && Trimmed(t)
  {
  }

  lemma OficiaisPadded(b: string)
    requires b == " documentos oficiais"
    ensures KindField(b) == Present(DocumentoOficial)
  {
    var t := "documentos oficiais";
    OficiaisSpelling(t);
    assert b == " " + t + [];
    PaddedKind(" ", t, []);
  }

  /** "boletim / documentos oficiais" is two kinds, the spaces around "/" trimmed. */
  lemma TwoKindsExample(a: string, b: string)
    requires a == "boletim " && b == " documentos oficiais"
    ensures DocumentTypesOf(a + "/" + b).types == [Present(Boletim), Present(DocumentoOficial)]
  {
    assert '/' !in a && '(' !in a && '?' !in a;
    assert '/' !in b && '(' !in b && '?' !in b;
    TwoPlainShape(a, b, KindField);
    BoletimPadded(a);
    OficiaisPadded(b);
  }

  lemma ConferirAbsent(q: string)
    requires q == " a conferir "
    ensures KindField(q) == Absent
  {
    assert q == " " + "a conferir" + " ";
    PaddedPlaceholderKind(" ", "a conferir", " ");
  }

  /** "boletim ( a conferir )": the qualifier is the placeholder "a conferir", an absent entry. */
  lemma PlaceholderQualifierExample(a: string, q: string)
    requires a == "boletim " && q == " a conferir "
    ensures DocumentTypesOf(a + "(" + q + ")").types == [Present(Boletim), Absent]
  {
    assert '/' !in a && '(' !in a && '?' !in a;
    assert '/' !in q && ')' !in q;
    QualifiedShape(a, q);
    BoletimPadded(a);
    ConferirAbsent(q);
  }

  // ---------------------------------------------------------------------------
  // `Display` and `Ord` for `DocumentTypes`
  // ---------------------------------------------------------------------------

  /**
   * One entry as `Display` writes it: the field, then the kind's index entry
   * when present. A non-standard entry would be written as its text, but
   * `Display` refuses those (see `DisplayDocumentTypes`).
   */
  function DisplayEntry(t: Field<DocumentType>): string {
    match t
    case Present(k) => DisplayField(t, DisplayDocumentType) + RenderIndex(DocumentTypeName(k))
    case _ => DisplayField(t, DisplayDocumentType)
  }

  /**
   * `Display for DocumentTypes`: the first entry, then "/" and each further
   * entry. Non-standard entries, which `from_str` never makes, are
   * unreachable there.
   */
  method DisplayDocumentTypes(d: DocumentTypes) returns (out: string)
    requires forall t :: t in d.types ==> !t.NotStandard?
    ensures out == Join(MapSeq(d.types, DisplayEntry), '/')
  {
    out := WriteSeparated(d.types, DisplayEntry);
  }

  /** The loops of `Display`: each element's text, with "/" between consecutive ones. */
  method WriteSeparated<T>(ts: seq<T>, show: T -> string) returns (out: string)
    ensures out == Join(MapSeq(ts, show), '/')
  {
    ghost var texts := MapSeq(ts, show);
    out := "";
    if |ts| > 0 {
      out := show(ts[0]);
      var i := 1;
      while i < |ts|
        invariant 1 <= i <= |ts|
        invariant out == Join(texts[..i], '/')
      {
        JoinAppend(texts[..i], texts[i], '/');
        assert texts[..i + 1] == texts[..i] + [texts[i]];
        out := out + "/" + show(ts[i]);
        i := i + 1;
      }
      assert texts[..i] == texts;
    }
  }

  /**
   * The display is read back by splitting at "/": each piece is one entry's
   * text, as long as no entry's text holds a "/".
   */
  lemma DisplaySplitsBack(ts: seq<Field<DocumentType>>)
    requires ts != []
    requires forall i :: 0 <= i < |ts| ==> '/' !in DisplayEntry(ts[i])
    ensures Split(Join(MapSeq(ts, DisplayEntry), '/'), '/') == MapSeq(ts, DisplayEntry)
  {
    var texts := MapSeq(ts, DisplayEntry);
    forall p | p in texts ensures '/' !in p {
      var i :| 0 <= i < |texts| && texts[i] == p;
    }
    JoinSplit(texts, '/');
  }

  /** The derived `Ord`: entry by entry, each by the field order on names; a proper prefix first. */
  function CompareTypeLists(a: seq<Field<DocumentType>>, b: seq<Field<DocumentType>>): Ordering {
    if a == [] then (if b == [] then Equal else Less)
    else if b == [] then Greater
    else Then(CompareByText(a[0], b[0], DocumentTypeName), CompareTypeLists(a[1..], b[1..]))
  }

  /**
   * The order on lists is antisymmetric, and two lists tie exactly when they
   * have the same length and tie entry by entry.
   */
  lemma {:induction false} CompareTypeListsMeaning(a: seq<Field<DocumentType>>, b: seq<Field<DocumentType>>)
    ensures CompareTypeLists(b, a) == CompareTypeLists(a, b).Flip()
    ensures CompareTypeLists(a, b) == Equal <==>
      |a| == |b| && forall i :: 0 <= i < |a| ==> CompareByText(a[i], b[i], DocumentTypeName) == Equal
  {
    if a != [] && b != [] {
      CompareTypeListsMeaning(a[1..], b[1..]);
      CompareByTextMeaning(a[0], b[0], DocumentTypeName);
      if CompareTypeLists(a, b) == Equal {
        forall i | 0 <= i < |a| ensures CompareByText(a[i], b[i], DocumentTypeName) == Equal {
          if i > 0 { assert a[1..][i - 1] == a[i] && b[1..][i - 1] == b[i]; }
        }
      }
      if |a| == |b| && forall i :: 0 <= i < |a| ==> CompareByText(a[i], b[i], DocumentTypeName) == Equal {
        forall i | 0 <= i < |a| - 1 ensures CompareByText(a[1..][i], b[1..][i], DocumentTypeName) == Equal {
          assert CompareByText(a[i + 1], b[i + 1], DocumentTypeName) == Equal;
        }
      }
    }
  }

  /** A list sorts before every longer list that extends it. */
  lemma {:induction false} ProperPrefixFirst(a: seq<Field<DocumentType>>, b: seq<Field<DocumentType>>)
    requires |a| < |b| && b[..|a|] == a
    ensures CompareTypeLists(a, b) == Less
  {
    if a != [] {
      CompareByTextMeaning(a[0], a[0], DocumentTypeName);
      assert b[0] == a[0];
      assert b[1..][..|a| - 1] == a[1..];
      ProperPrefixFirst(a[1..], b[1..]);
    }
  }
}
