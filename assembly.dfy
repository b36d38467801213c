/**
 * Reading the catalogue document: XML events drive the table state machine,
 * each closed row's pair is set into the record being built, and records
 * and stray paragraphs come out one at a time. Models `ParseXml` and `Rows`
 * of `src/main.rs`; the XML reader itself is replaced by a sequence of
 * events.
 */
module Assembly {
  import opened Results
  import opened Parsing
  import opened Data

  // ---------------------------------------------------------------------------
  // Events and errors
  // ---------------------------------------------------------------------------

  /** An attribute, by its local name. */
  datatype Attribute = Attribute(name: string, value: string)

  /**
   * What the XML reader hands out. `Ignored` stands for the events `next`
   * has no arm for (document start, whitespace, comments and the like).
   */
  datatype Event =
    | StartElement(name: string, attributes: seq<Attribute>)
    | EndElement(name: string)
    | Characters(text: string)
    | EndDocument
    | ReadFailure(message: string)
    | Ignored

  /** `CallError`, without the arguments, file and archive failures of `main`. */
  datatype CallError =
    | Xml(message: string)
    | Parse(error: ParseError)
    | AlreadyFinished
    | Paragraph(text: string)

  /** The position of the first attribute with the given name, or the length when there is none. */
  function FirstNamed(attributes: seq<Attribute>, name: string): (k: nat)
    ensures k <= |attributes|
    ensures forall j :: 0 <= j < k ==> attributes[j].name != name
    ensures k < |attributes| ==> attributes[k].name == name
    decreases |attributes|
  {
    if attributes == [] || attributes[0].name == name then 0
    else 1 + FirstNamed(attributes[1..], name)
  }

  /** `iter().find`: the first attribute with the given name. */
  function FindAttribute(attributes: seq<Attribute>, name: string): Option<Attribute> {
    var k := FirstNamed(attributes, name);
    if k < |attributes| then Some(attributes[k]) else None
  }

  /** A text run whose first `space` attribute says `preserve`. */
  predicate PreservesSpace(attributes: seq<Attribute>) {
    var a := FindAttribute(attributes, "space");
    a.Some? && a.value.value == "preserve"
  }

  // ---------------------------------------------------------------------------
  // One event
  // ---------------------------------------------------------------------------

  /** What one event does to the call in progress: go on, or end the call. */
  datatype Step =
    | Continue(status: Status, row: Slots)
    | Stop(status: Status, pending: Option<Slots>, result: Result<Slots, CallError>)

  /** A transition that may be refused; a refusal ends the call and drops the row. */
  function Checked(r: (Status, Result<Unit, ParseError>), row: Slots): (step: Step)
    ensures r.1.Ok? ==> step == Continue(r.0, row)
    ensures r.1.Err? ==> step == Stop(r.0, None, Err(Parse(r.1.error)))
  {
    if r.1.Ok? then Continue(r.0, row) else Stop(r.0, None, Err(Parse(r.1.error)))
  }

  /** The row a refused pair starts: a new row with that pair set. */
  function Seed(pair: Pair): Slots {
    SetFieldSpec(EmptySlots, pair.0, pair.1).0
  }

  /** A seeded row holds the pair in its own slot and nothing anywhere else. */
  lemma SeedOnlyItsSlot(pair: Pair)
    ensures Route(NormalizeKey(pair.0)).None? ==> Seed(pair) == EmptySlots
    ensures Route(NormalizeKey(pair.0)).Some? ==> Filled(Seed(pair), Route(NormalizeKey(pair.0)).value)
    ensures forall o :: Route(NormalizeKey(pair.0)) != Some(o) ==> SameSlot(EmptySlots, Seed(pair), o)
  {
    match Route(NormalizeKey(pair.0))
    case None =>
    case Some(slot) =>
      EntrySlot(slot, Transform(slot, Text.Trim(pair.1)));
  }

  /**
   * The end of the document: the machine finishes; a pair still in
   * progress is set into the row, or seeds the next row when its slot is
   * taken, and the row is returned; with no pair the row is dropped.
   */
  function Finishing(status: Status, row: Slots): (step: Step)
    ensures step.Stop? && step.status == Finished
  {
    var (s, r) := FinishStep(status);
    if r.Ok? then Stop(s, None, Err(AlreadyFinished))
    else
      var (row2, placed) := SetFieldSpec(row, r.error.0, r.error.1);
      Stop(s, if placed.Ok? then None else Some(Seed(placed.error)), Ok(row2))
  }

  /** The body of the loop in `ParseXml::next`, for one event. */
  function Handle(status: Status, row: Slots, e: Event): Step {
    match e
    case StartElement(name, attributes) => StartOf(status, row, name, attributes)
    case EndElement(name) => EndOf(status, row, name)
    case Characters(text) => TextOf(status, row, text)
    case EndDocument => Finishing(status, row)
    case ReadFailure(message) => Stop(FinishStep(status).0, None, Err(Xml(message)))
    case Ignored => Continue(status, row)
  }

  /** An element starts. */
  function StartOf(status: Status, row: Slots, name: string, attributes: seq<Attribute>): Step {
    if name == "tbl" then Checked(StartTableStep(status), row)
    else if name == "tr" then Checked(StartFieldStep(status), row)
    else if name == "tc" then Checked(StartColStep(status), row)
    else if name == "p" then Continue(AppendNewLineStep(status).0, row)
    else if name == "t" && PreservesSpace(attributes) then TextOf(status, row, " ")
    else Continue(status, row)
  }

  /** Text, or the space a `t` element preserves: inside a cell it is added, outside it is a paragraph. */
  function TextOf(status: Status, row: Slots, text: string): Step {
    var (s, r) := AppendTextStep(status, text);
    if r.Ok? then Continue(s, row) else Stop(s, None, Err(Paragraph(text)))
  }

  /** An element ends. */
  function EndOf(status: Status, row: Slots, name: string): Step {
    if name == "tc" then Checked(EndColStep(status), row)
    else if name == "tr" then RowEnd(status, row)
    else if name == "tbl" then TableEnd(status, row)
    else Continue(status, row)
  }

  /** A table row ends: its pair is set into the row, or seeds the next row and the row is returned. */
  function RowEnd(status: Status, row: Slots): Step {
    var (s, r) := EndFieldStep(status);
    if r.Err? then Stop(s, None, Err(Parse(r.error)))
    else
      var (row2, placed) := SetFieldSpec(row, r.value.0, r.value.1);
      if placed.Ok? then Continue(s, row2) else Stop(s, Some(Seed(placed.error)), Ok(row2))
  }

  /** A table ends: the row is returned. */
  function TableEnd(status: Status, row: Slots): Step {
    var (s, r) := EndTableStep(status);
    if r.Err? then Stop(s, None, Err(Parse(r.error))) else Stop(s, None, Ok(row))
  }

  // ---------------------------------------------------------------------------
  // One call of `ParseXml::next`
  // ---------------------------------------------------------------------------

  /** Where a call leaves the reader, and what it returns. */
  datatype Outcome = Outcome(pos: nat, status: Status, pending: Option<Slots>, result: Result<Slots, CallError>)

  /**
   * The loop of `next` from event `pos` on, building `row`. Past the last
   * event the reader reports the end of the document.
   */
  function Run(events: seq<Event>, pos: nat, status: Status, row: Slots): (o: Outcome)
    requires pos <= |events|
    ensures pos <= o.pos <= |events|
    decreases |events| - pos
  {
    if pos == |events| then
      var step := Finishing(status, row);
      Outcome(pos, step.status, step.pending, step.result)
    else
      match Handle(status, row, events[pos])
      case Stop(s, pending, result) => Outcome(pos + 1, s, pending, result)
      case Continue(s, row2) => Run(events, pos + 1, s, row2)
  }

  /**
   * `ParseXml::next`: a finished reader reads nothing and hands out the
   * pending row, if any; otherwise the loop resumes the pending row or
   * starts a new one. The pending row is taken either way.
   */
  function NextOutcome(events: seq<Event>, pos: nat, status: Status, pending: Option<Slots>): (o: Outcome)
    requires pos <= |events|
    ensures pos <= o.pos <= |events|
  {
    if IsFinished(status) then
      Outcome(pos, status, None, if pending.Some? then Ok(pending.value) else Err(AlreadyFinished))
    else Run(events, pos, status, pending.GetOr(EmptySlots))
  }

  // ---------------------------------------------------------------------------
  // `ParseXml`, the object
  // ---------------------------------------------------------------------------

  /** `ParseXml`: the event source, the machine and the row held over for the next call. */
  class ParseXml {
    const events: seq<Event>
    var pos: nat
    const status: ParseStatus
    var row: Option<Row>

    /** The pending row object, if there is one. */
    function Pending(): set<object>
      reads this
    {
      if row.Some? then {row.value} else {}
    }

    /** The pending row's slots. */
    function PendingValue(): Option<Slots>
      reads this, Pending()
    {
      if row.Some? then Some(row.value.Value()) else None
    }

    predicate Valid()
      reads this
    {
      pos <= |events|
    }

    /** `ParseXml::new`: at the first event, looking for a table, nothing pending. */
    constructor (events: seq<Event>)
      ensures this.events == events && pos == 0 && row.None?
      ensures status.state == SearchingTable && fresh(status)
      ensures Valid()
    {
      this.events := events;
      pos := 0;
      status := new ParseStatus();
      row := None;
    }

    /** A new row with the refused pair set in it, held over for the next call. */
    method SeedPending(pair: Pair)
      modifies this`row
      ensures PendingValue() == Some(Seed(pair)) && row.Some? && fresh(row.value)
    {
      var newRow := new Row();
      var _ := newRow.SetField(pair.0, pair.1);
      row := Some(newRow);
    }

    /** The end of the document, with the row `cur` in progress. */
    method FinishDocument(cur: Row) returns (r: Result<Row, CallError>)
      requires row.None?
      modifies this`row, status, cur
      ensures var step := Finishing(old(status.state), old(cur.Value()));
        status.state == step.status && PendingValue() == step.pending
        && Returns(r, step.result) && (r.Ok? ==> r.value == cur)
      ensures row.Some? ==> fresh(row.value)
    {
      var f := status.Finish();
      if f.Ok? {
        r := Err(AlreadyFinished);
      } else {
        var placed := cur.SetField(f.error.0, f.error.1);
        if placed.Err? {
          SeedPending(placed.error);
        }
        r := Ok(cur);
      }
    }

    /** One event of the loop, with the row `cur` in progress. */
    method HandleEvent(cur: Row, e: Event) returns (stop: bool, r: Result<Row, CallError>)
      requires row.None?
      modifies this`row, status, cur
      ensures var step := Handle(old(status.state), old(cur.Value()), e);
        stop == step.Stop? && status.state == step.status
        && (!stop ==> cur.Value() == step.row && row.None?)
        && (stop ==> PendingValue() == step.pending && Returns(r, step.result) && (r.Ok? ==> r.value == cur))
      ensures row.Some? ==> fresh(row.value)
    {
      stop, r := false, Err(AlreadyFinished);
      match e {
        case StartElement(name, attributes) =>
          if name == "tbl" {
            var x := status.StartTable();
            if x.Err? { stop, r := true, Err(Parse(x.error)); }
          } else if name == "tr" {
            var x := status.StartField();
            if x.Err? { stop, r := true, Err(Parse(x.error)); }
          } else if name == "tc" {
            var x := status.StartCol();
            if x.Err? { stop, r := true, Err(Parse(x.error)); }
          } else if name == "p" {
            var _ := status.AppendNewLine();
          } else if name == "t" && PreservesSpace(attributes) {
            var x := status.AppendText(" ");
            if x.Err? { stop, r := true, Err(Paragraph(" ")); }
          }
        case EndElement(name) =>
          if name == "tc" {
            var x := status.EndCol();
            if x.Err? { stop, r := true, Err(Parse(x.error)); }
          } else if name == "tr" {
            var x := status.EndField();
            if x.Err? {
              stop, r := true, Err(Parse(x.error));
            } else {
              var placed := cur.SetField(x.value.0, x.value.1);
              if placed.Err? {
                SeedPending(placed.error);
                stop, r := true, Ok(cur);
              }
            }
          } else if name == "tbl" {
            var x := status.EndTable();
            stop := true;
            r := if x.Err? then Err(Parse(x.error)) else Ok(cur);
          }
        case Characters(text) =>
          var x := status.AppendText(text);
          if x.Err? { stop, r := true, Err(Paragraph(text)); }
        case EndDocument =>
          stop := true;
          r := FinishDocument(cur);
        case ReadFailure(message) =>
          var _ := status.Finish();
          stop, r := true, Err(Xml(message));
        case Ignored =>
      }
    }

    /**
     * `ParseXml::next`: the reader state, the pending row and the result
     * are those of `Next`.
     */
    method Next() returns (r: Result<Row, CallError>)
      requires Valid()
      modifies this, status, Pending()
      ensures Valid()
      ensures var o := NextOutcome(events, old(pos), old(status.state), old(PendingValue()));
        pos == o.pos && status.state == o.status && PendingValue() == o.pending
        && Returns(r, o.result)
      ensures row.Some? ==> fresh(row.value)
    {
      if status.state.Finished? {
        if row.Some? {
          r := Ok(row.value);
          row := None;
        } else {
          r := Err(AlreadyFinished);
        }
        return;
      }
      var cur: Row;
      if row.Some? {
        cur := row.value;
        row := None;
      } else {
        cur := new Row();
      }
      ghost var goal := Run(events, pos, status.state, cur.Value());
      while pos < |events|
        invariant pos <= |events| && row.None?
        invariant Run(events, pos, status.state, cur.Value()) == goal
        invariant old(allocated(cur)) ==> cur in old(Pending())
        decreases |events| - pos
      {
        var stop;
        stop, r := HandleEvent(cur, events[pos]);
        pos := pos + 1;
        if stop {
          return;
        }
      }
      r := FinishDocument(cur);
    }
  }

  /** The object result `r` matches the value result `o`. */
  predicate Returns(r: Result<Row, CallError>, o: Result<Slots, CallError>)
    reads if r.Ok? then {r.value} else {}
  {
    (r.Ok? <==> o.Ok?) && (r.Ok? ==> r.value.Value() == o.value) && (r.Err? ==> r.error == o.error)
  }

  // ---------------------------------------------------------------------------
  // `Rows`, the iterator
  // ---------------------------------------------------------------------------

  /** `RowOrParagraph`, with the row as its slots. */
  datatype Item = RowItem(row: Slots) | ParagraphItem(text: string)

  /**
   * What is left to do: a finished reader has at most its pending row to
   * hand out; any other reader has the remaining events and then the end
   * of the document.
   */
  function Measure(events: seq<Event>, pos: nat, status: Status, pending: Option<Slots>): nat
    requires pos <= |events|
  {
    if IsFinished(status) then (if pending.Some? then 1 else 0) else |events| - pos + 2
  }

  /**
   * What one step promises about progress: going on never finishes the
   * machine; a refused transition stops it where it was; a read failure
   * finishes it with nothing pending.
   */
  predicate Progresses(status: Status, step: Step) {
    (step.Continue? ==> !IsFinished(step.status))
    && (step.Stop? && step.result.Err? && step.result.error.Parse? ==> step.status == status)
    && (step.Stop? && step.result.Err? && step.result.error.Xml? ==> IsFinished(step.status) && step.pending.None?)
  }

  /** Every event, handled short of the end, makes progress. */
  lemma HandleProgress(status: Status, row: Slots, e: Event)
    requires !IsFinished(status)
    ensures Progresses(status, Handle(status, row, e))
  {
    match e
    case StartElement(name, attributes) =>
      HandleStart(status, row, name, attributes);
      StartProgress(status, row, name, attributes);
    case EndElement(name) =>
      HandleEnd(status, row, name);
      EndProgress(status, row, name);
    case Characters(text) =>
    case EndDocument =>
    case ReadFailure(message) =>
    case Ignored =>
  }

  lemma HandleStart(status: Status, row: Slots, name: string, attributes: seq<Attribute>)
    ensures Handle(status, row, StartElement(name, attributes)) == StartOf(status, row, name, attributes)
  {
  }

  lemma HandleEnd(status: Status, row: Slots, name: string)
    ensures Handle(status, row, EndElement(name)) == EndOf(status, row, name)
  {
  }

  lemma StartProgress(status: Status, row: Slots, name: string, attributes: seq<Attribute>)
    requires !IsFinished(status)
    ensures Progresses(status, StartOf(status, row, name, attributes))
  {
  }

  lemma EndProgress(status: Status, row: Slots, name: string)
    requires !IsFinished(status)
    ensures Progresses(status, EndOf(status, row, name))
  {
    if name == "tr" {
      assert EndOf(status, row, name) == RowEnd(status, row);
      var (s, r) := EndFieldStep(status);
      assert r.Ok? ==> s == SearchingField;
    }
  }

  /** A refused transition leaves the machine where it was, a read failure finishes it; either way the reader moved on. */
  lemma {:induction false} RunProgress(events: seq<Event>, pos: nat, status: Status, row: Slots)
    requires pos <= |events| && !IsFinished(status)
    ensures var o := Run(events, pos, status, row);
      o.result.Err? && o.result.error.Parse? ==> !IsFinished(o.status) && pos < o.pos
    ensures var o := Run(events, pos, status, row);
      o.result.Err? && o.result.error.Xml? ==> IsFinished(o.status) && o.pending.None?
    decreases |events| - pos
  {
    if pos < |events| {
      var step := Handle(status, row, events[pos]);
      HandleProgress(status, row, events[pos]);
      if step.Continue? {
        RunProgress(events, pos + 1, step.status, step.row);
      }
    }
  }

  /** A call that ends in an error `Rows::next` skips leaves less to do. */
  lemma NextProgress(events: seq<Event>, pos: nat, status: Status, pending: Option<Slots>)
    requires pos <= |events|
    ensures var o := NextOutcome(events, pos, status, pending);
      o.result.Err? && (o.result.error.Parse? || o.result.error.Xml?) ==>
        Measure(events, o.pos, o.status, o.pending) < Measure(events, pos, status, pending)
  {
    if !IsFinished(status) {
      RunProgress(events, pos, status, pending.GetOr(EmptySlots));
    }
  }

  /**
   * `Rows::next`: calls `next` until it returns a row or a paragraph, which
   * is yielded, or `AlreadyFinished`, which ends the iteration; parse and
   * read errors are skipped.
   */
  function RowsNext(events: seq<Event>, pos: nat, status: Status, pending: Option<Slots>): (r: (Outcome, Option<Item>))
    requires pos <= |events|
    ensures r.0.pos <= |events|
    ensures r.1.None? <==> r.0.result == Err(AlreadyFinished)
    ensures r.1.Some? && r.1.value.RowItem? <==> r.0.result.Ok?
    ensures r.1.Some? && r.1.value.RowItem? ==> r.0.result.value == r.1.value.row
    ensures r.1.Some? && r.1.value.ParagraphItem? <==> r.0.result.Err? && r.0.result.error.Paragraph?
    ensures r.1.Some? && r.1.value.ParagraphItem? ==> r.0.result.error.text == r.1.value.text
    decreases Measure(events, pos, status, pending)
  {
    var o := NextOutcome(events, pos, status, pending);
    match o.result
    case Ok(row) => (o, Some(RowItem(row)))
    case Err(Paragraph(p)) => (o, Some(ParagraphItem(p)))
    case Err(AlreadyFinished) => (o, None)
    case Err(_) =>
      NextProgress(events, pos, status, pending);
      RowsNext(events, o.pos, o.status, o.pending)
  }

  /** `RowOrParagraph`. */
  datatype RowOrParagraph = RowEntry(row: Row) | ParagraphEntry(text: string)

  /** The object item matches the value item. */
  predicate Yields(item: Option<RowOrParagraph>, i: Option<Item>)
    reads if item.Some? && item.value.RowEntry? then {item.value.row} else {}
  {
    match item
    case None => i.None?
    case Some(RowEntry(row)) => i == Some(RowItem(row.Value()))
    case Some(ParagraphEntry(p)) => i == Some(ParagraphItem(p))
  }

  /** `Rows`: the reader, consumed one item at a time. */
  class Rows {
    const parser: ParseXml

    /** `ParseXml::into_iter`. */
    constructor (parser: ParseXml)
      ensures this.parser == parser
    {
      this.parser := parser;
    }

    /** `Rows::next`: the reader advances as `RowsNext` says and the item is the one it yields. */
    method Next() returns (item: Option<RowOrParagraph>)
      requires parser.Valid()
      modifies parser, parser.status, parser.Pending()
      ensures parser.Valid()
      ensures var r := RowsNext(parser.events, old(parser.pos), old(parser.status.state), old(parser.PendingValue()));
        parser.pos == r.0.pos && parser.status.state == r.0.status && parser.PendingValue() == r.0.pending
        && Yields(item, r.1)
    {
      ghost var goal := RowsNext(parser.events, parser.pos, parser.status.state, parser.PendingValue());
      item := None;
      var done := false;
      while !done
        invariant parser.Valid()
        invariant parser.row.Some? ==> parser.row.value in old(parser.Pending()) || fresh(parser.row.value)
        invariant !done ==> RowsNext(parser.events, parser.pos, parser.status.state, parser.PendingValue()) == goal
        invariant done ==> (parser.pos == goal.0.pos && parser.status.state == goal.0.status
          && parser.PendingValue() == goal.0.pending && Yields(item, goal.1))
        decreases !done, if done then 0 else Measure(parser.events, parser.pos, parser.status.state, parser.PendingValue())
      {
        ghost var o := NextOutcome(parser.events, parser.pos, parser.status.state, parser.PendingValue());
        ghost var step := RowsNext(parser.events, parser.pos, parser.status.state, parser.PendingValue());
        NextProgress(parser.events, parser.pos, parser.status.state, parser.PendingValue());
        var r := parser.Next();
        match r {
          case Ok(row) =>
            assert step == (o, Some(RowItem(row.Value())));
            item, done := Some(RowEntry(row)), true;
          case Err(Paragraph(p)) =>
            assert step == (o, Some(ParagraphItem(p)));
            item, done := Some(ParagraphEntry(p)), true;
          case Err(AlreadyFinished) =>
            item, done := None, true;
          case Err(_) =>
        }
      }
    }
  }

  // ---------------------------------------------------------------------------
  // What a call of `next` does
  // ---------------------------------------------------------------------------

  /**
   * A finished reader reads no event: it hands out its pending row once,
   * and from then on every call says it is finished.
   */
  lemma FinishedReadsNothing(events: seq<Event>, pos: nat, pending: Option<Slots>)
    requires pos <= |events|
    ensures var o := NextOutcome(events, pos, Finished, pending);
      o.pos == pos && o.status == Finished && o.pending.None?
      && o.result == (if pending.Some? then Ok(pending.value) else Err(AlreadyFinished))
      && NextOutcome(events, o.pos, o.status, o.pending).result == Err(AlreadyFinished)
  {
  }

  /**
   * A pair refused when its row closes ends the call: the row built so far
   * is returned, and the next row starts holding exactly what a new row
   * would take from that pair.
   */
  lemma RefusedPairStartsNextRow(row: Slots, key: string, value: string)
    requires SetFieldSpec(row, key, value).1.Err?
    ensures Handle(Field(key, value), row, EndElement("tr"))
      == Stop(SearchingField, Some(SetFieldSpec(EmptySlots, key, value).0), Ok(row))
  {
    HandleRowEnd(Field(key, value), row);
    RowEndRefused(row, key, value);
  }

  lemma HandleRowEnd(status: Status, row: Slots)
    ensures Handle(status, row, EndElement("tr")) == RowEnd(status, row)
  {
  }

  lemma RowEndRefused(row: Slots, key: string, value: string)
    requires SetFieldSpec(row, key, value).1.Err?
    ensures RowEnd(Field(key, value), row)
      == Stop(SearchingField, Some(SetFieldSpec(EmptySlots, key, value).0), Ok(row))
  {
    var placed := SetFieldSpec(row, key, value);
    assert RowEnd(Field(key, value), row) == Stop(SearchingField, Some(Seed(placed.1.error)), Ok(placed.0)) by {
      assert EndFieldStep(Field(key, value)) == (SearchingField, Ok((key, value)));
    }
    ReseedRejected(row, key, value);
  }

  /** Closing a table between rows returns the row; anywhere else it is a parse error and the row is dropped. */
  lemma TableCloseReturnsRow(status: Status, row: Slots)
    ensures Handle(status, row, EndElement("tbl")) ==
      if status == SearchingField then Stop(SearchingTable, None, Ok(row))
      else Stop(status, None, Err(Parse(ParseError(EndTableRefused, status))))
  {
  }

  /** Text outside a cell comes out as a paragraph and changes nothing. */
  lemma TextOutsideCell(status: Status, row: Slots, text: string)
    requires !status.Col1? && !status.Col2?
    ensures Handle(status, row, Characters(text)) == Stop(status, None, Err(Paragraph(text)))
  {
  }

  /**
   * A paragraph start never ends the call; a space-preserving text run adds
   * one space inside a cell and is a one-space paragraph outside.
   */
  lemma LineAndSpaceEvents(status: Status, row: Slots, attributes: seq<Attribute>, others: seq<Attribute>)
    ensures Handle(status, row, StartElement("p", attributes)) == Continue(AppendNewLineStep(status).0, row)
    ensures var e := StartElement("t", [Attribute("space", "preserve")] + others);
      Handle(status, row, e) ==
        if status.Col1? || status.Col2? then Continue(AppendTextStep(status, " ").0, row)
        else Stop(status, None, Err(Paragraph(" ")))
  {
    assert PreservesSpace([Attribute("space", "preserve")] + others);
  }

  /**
   * The end of the document finishes the machine. Outside a cell pair the
   * row is dropped; a complete pair still open is set into the row, or,
   * when its slot is taken, starts the row held for the next call.
   */
  lemma EndOfDocument(status: Status, row: Slots)
    ensures Handle(status, row, EndDocument).status == Finished
    ensures !(status.Col1? || status.SearchingCol2? || status.Col2? || status.Field?) ==>
      Handle(status, row, EndDocument) == Stop(Finished, None, Err(AlreadyFinished))
    ensures (status.Col2? || status.Field?) && SetFieldSpec(row, status.key, status.value).1.Ok? ==>
      Handle(status, row, EndDocument) == Stop(Finished, None, Ok(SetFieldSpec(row, status.key, status.value).0))
    ensures (status.Col2? || status.Field?) && SetFieldSpec(row, status.key, status.value).1.Err? ==>
      Handle(status, row, EndDocument) == Stop(Finished, Some(SetFieldSpec(EmptySlots, status.key, status.value).0), Ok(row))
  {
    HandleEndDocument(status, row, EndDocument);
    if status.Col2? || status.Field? {
      if SetFieldSpec(row, status.key, status.value).1.Ok? {
        FinishingPlaced(status, row);
      } else {
        FinishingRefused(status, row);
      }
    } else if !(status.Col1? || status.SearchingCol2?) {
      FinishingOutsidePair(status, row);
    }
  }

  lemma HandleEndDocument(status: Status, row: Slots, e: Event)
    requires e.EndDocument?
    ensures Handle(status, row, e) == Finishing(status, row)
  {
  }

  lemma FinishingOutsidePair(status: Status, row: Slots)
    requires !(status.Col1? || status.SearchingCol2? || status.Col2? || status.Field?)
    ensures Finishing(status, row) == Stop(Finished, None, Err(AlreadyFinished))
  {
  }

  lemma FinishingPlaced(status: Status, row: Slots)
    requires (status.Col2? || status.Field?) && SetFieldSpec(row, status.key, status.value).1.Ok?
    ensures Finishing(status, row) == Stop(Finished, None, Ok(SetFieldSpec(row, status.key, status.value).0))
  {
  }

  lemma FinishingRefused(status: Status, row: Slots)
    requires (status.Col2? || status.Field?) && SetFieldSpec(row, status.key, status.value).1.Err?
    ensures Finishing(status, row) == Stop(Finished, Some(SetFieldSpec(EmptySlots, status.key, status.value).0), Ok(row))
  {
    var placed := SetFieldSpec(row, status.key, status.value);
    assert Finishing(status, row) == Stop(Finished, Some(Seed(placed.1.error)), Ok(placed.0));
    ReseedRejected(row, status.key, status.value);
  }

  /** A read failure finishes the machine, drops the row and the pair in progress, and is reported. */
  lemma ReadFailureFinishes(status: Status, row: Slots, message: string)
    ensures Handle(status, row, ReadFailure(message)) == Stop(Finished, None, Err(Xml(message)))
  {
  }

  // ---------------------------------------------------------------------------
  // A whole table
  // ---------------------------------------------------------------------------

  /** From `pos` on, `events` hold a two-cell table row whose cells hold `key` and `value`. */
  predicate RowAt(events: seq<Event>, pos: nat, key: string, value: string) {
    pos + 8 <= |events|
    && events[pos] == StartElement("tr", [])
    && events[pos + 1] == StartElement("tc", []) && events[pos + 2] == Characters(key) && events[pos + 3] == EndElement("tc")
    && events[pos + 4] == StartElement("tc", []) && events[pos + 5] == Characters(value) && events[pos + 6] == EndElement("tc")
    && events[pos + 7] == EndElement("tr")
  }

  /** The table closes at `pos`. */
  predicate TableEndAt(events: seq<Event>, pos: nat) {
    pos < |events| && events[pos] == EndElement("tbl")
  }

  /** From `pos` on, `events` hold table rows, one per pair, in order. */
  predicate TableAt(events: seq<Event>, pos: nat, pairs: seq<Pair>)
    decreases |pairs|
  {
    pairs == [] || (RowAt(events, pos, pairs[0].0, pairs[0].1) && TableAt(events, pos + 8, pairs[1..]))
  }

  /** The pairs set into a row one after another, or `None` when one of them finds its slot taken. */
  function Fill(row: Slots, pairs: seq<Pair>): Option<Slots>
    decreases |pairs|
  {
    if pairs == [] then Some(row)
    else
      var (row2, placed) := SetFieldSpec(row, pairs[0].0, pairs[0].1);
      if placed.Err? then None else Fill(row2, pairs[1..])
  }

  /** An event that does not stop the call hands its state and row to the rest of the loop. */
  lemma RunContinues(events: seq<Event>, pos: nat, status: Status, row: Slots)
    requires pos < |events| && Handle(status, row, events[pos]).Continue?
    ensures var step := Handle(status, row, events[pos]);
      Run(events, pos, status, row) == Run(events, pos + 1, step.status, step.row)
  {
  }

  lemma HandleRowStart(row: Slots)
    ensures Handle(SearchingField, row, StartElement("tr", [])) == Continue(SearchingCol1, row)
  {
    assert Handle(SearchingField, row, StartElement("tr", [])) == StartOf(SearchingField, row, "tr", []);
  }

  lemma HandleCellStart(status: Status, row: Slots)
    requires status.SearchingCol1? || status.SearchingCol2?
    ensures Handle(status, row, StartElement("tc", [])) == Continue(StartColStep(status).0, row)
  {
    assert Handle(status, row, StartElement("tc", [])) == StartOf(status, row, "tc", []);
  }

  lemma HandleCellText(status: Status, row: Slots, text: string)
    requires status.Col1? || status.Col2?
    ensures Handle(status, row, Characters(text)) == Continue(AppendTextStep(status, text).0, row)
  {
  }

  lemma HandleCellEnd(status: Status, row: Slots)
    requires status.Col1? || status.Col2?
    ensures Handle(status, row, EndElement("tc")) == Continue(EndColStep(status).0, row)
  {
    assert Handle(status, row, EndElement("tc")) == EndOf(status, row, "tc");
  }

  lemma RowEndAccepted(row: Slots, key: string, value: string)
    requires SetFieldSpec(row, key, value).1.Ok?
    ensures Handle(Field(key, value), row, EndElement("tr")) == Continue(SearchingField, SetFieldSpec(row, key, value).0)
  {
    HandleRowEnd(Field(key, value), row);
    assert EndFieldStep(Field(key, value)) == (SearchingField, Ok((key, value)));
  }

  /** A cell goes by without stopping the call, and leaves its text in the pair. */
  lemma RunCell(events: seq<Event>, pos: nat, status: Status, row: Slots, text: string)
    requires status.SearchingCol1? || status.SearchingCol2?
    requires pos + 3 <= |events| && events[pos] == StartElement("tc", [])
    requires events[pos + 1] == Characters(text) && events[pos + 2] == EndElement("tc")
    ensures Run(events, pos, status, row)
      == Run(events, pos + 3, EndColStep(AppendTextStep(StartColStep(status).0, text).0).0, row)
  {
    var open := StartColStep(status).0;
    var filled := AppendTextStep(open, text).0;
    assert Run(events, pos, status, row) == Run(events, pos + 1, open, row) by {
      HandleCellStart(status, row);
      RunContinues(events, pos, status, row);
    }
    assert Run(events, pos + 1, open, row) == Run(events, pos + 2, filled, row) by {
      HandleCellText(open, row, text);
      RunContinues(events, pos + 1, open, row);
    }
    assert Run(events, pos + 2, filled, row) == Run(events, pos + 3, EndColStep(filled).0, row) by {
      HandleCellEnd(filled, row);
      RunContinues(events, pos + 2, filled, row);
    }
  }

  /** The first row goes by: its opening, its two cells, and its closing, which sets the pair. */
  lemma RunRowStart(events: seq<Event>, pos: nat, row: Slots)
    requires pos < |events| && events[pos] == StartElement("tr", [])
    ensures Run(events, pos, SearchingField, row) == Run(events, pos + 1, SearchingCol1, row)
  {
    HandleRowStart(row);
    RunContinues(events, pos, SearchingField, row);
  }

  lemma RunRowCells(events: seq<Event>, pos: nat, row: Slots, key: string, value: string)
    requires RowAt(events, pos, key, value)
    ensures Run(events, pos + 1, SearchingCol1, row) == Run(events, pos + 7, Field(key, value), row)
  {
    assert "" + key == key && "" + value == value;
    RunCell(events, pos + 1, SearchingCol1, row, key);
    RunCell(events, pos + 4, SearchingCol2(key), row, value);
  }

  lemma RunRowEnd(events: seq<Event>, pos: nat, row: Slots, key: string, value: string)
    requires pos < |events| && events[pos] == EndElement("tr")
    requires SetFieldSpec(row, key, value).1.Ok?
    ensures Run(events, pos, Field(key, value), row) == Run(events, pos + 1, SearchingField, SetFieldSpec(row, key, value).0)
  {
    RowEndAccepted(row, key, value);
    RunContinues(events, pos, Field(key, value), row);
  }

  /** A row whose pair fits goes by without stopping the call, and leaves its pair set. */
  lemma RunRow(events: seq<Event>, pos: nat, row: Slots, key: string, value: string)
    requires RowAt(events, pos, key, value)
    requires SetFieldSpec(row, key, value).1.Ok?
    ensures Run(events, pos, SearchingField, row) == Run(events, pos + 8, SearchingField, SetFieldSpec(row, key, value).0)
  {
    RunRowStart(events, pos, row);
    RunRowCells(events, pos, row, key, value);
    RunRowEnd(events, pos + 7, row, key, value);
  }

  /** When all pairs fit, the first one does, and the rest fit in the row it leaves. */
  lemma FillFirst(row: Slots, pairs: seq<Pair>)
    requires pairs != [] && Fill(row, pairs).Some?
    ensures SetFieldSpec(row, pairs[0].0, pairs[0].1).1.Ok?
    ensures Fill(row, pairs) == Fill(SetFieldSpec(row, pairs[0].0, pairs[0].1).0, pairs[1..])
  {
  }

  /**
   * Rows whose pairs all fit go by without stopping the call, and the
   * table's end, at `end` just past them, returns the row they filled.
   */
  lemma {:induction false} RunTable(events: seq<Event>, pos: nat, row: Slots, pairs: seq<Pair>, filled: Slots, end: nat)
    requires pos <= |events| && TableAt(events, pos, pairs)
    requires Fill(row, pairs) == Some(filled)
    requires end == pos + 8 * |pairs| && TableEndAt(events, end)
    ensures Run(events, pos, SearchingField, row) == Outcome(end + 1, SearchingTable, None, Ok(filled))
    decreases |pairs|
  {
    if pairs == [] {
      RunTableEnd(events, pos, row);
    } else {
      var next := SetFieldSpec(row, pairs[0].0, pairs[0].1).0;
      FillFirst(row, pairs);
      RunRow(events, pos, row, pairs[0].0, pairs[0].1);
      RunTable(events, pos + 8, next, pairs[1..], filled, end);
    }
  }

  lemma RunTableStart(events: seq<Event>)
    requires |events| > 0 && events[0] == StartElement("tbl", [])
    ensures Run(events, 0, SearchingTable, EmptySlots) == Run(events, 1, SearchingField, EmptySlots)
  {
    assert Handle(SearchingTable, EmptySlots, StartElement("tbl", [])) == Continue(SearchingField, EmptySlots) by {
      assert Handle(SearchingTable, EmptySlots, StartElement("tbl", [])) == StartOf(SearchingTable, EmptySlots, "tbl", []);
    }
    RunContinues(events, 0, SearchingTable, EmptySlots);
  }

  lemma RunTableEnd(events: seq<Event>, pos: nat, row: Slots)
    requires TableEndAt(events, pos)
    ensures Run(events, pos, SearchingField, row) == Outcome(pos + 1, SearchingTable, None, Ok(row))
  {
    TableCloseReturnsRow(SearchingField, row);
  }

  /**
   * A table of two-cell rows, one per pair, that closes at `end`, read from
   * the start: when every pair fits, one call of `next` reads the whole
   * table, returns the row holding every pair, and leaves the machine
   * outside a table, just past the table's end.
   */
  lemma TableYieldsRow(events: seq<Event>, pairs: seq<Pair>, filled: Slots, end: nat)
    requires |events| > 0 && events[0] == StartElement("tbl", []) && TableAt(events, 1, pairs)
    requires end == 1 + 8 * |pairs| && TableEndAt(events, end)
    requires Fill(EmptySlots, pairs) == Some(filled)
    ensures NextOutcome(events, 0, SearchingTable, None) == Outcome(end + 1, SearchingTable, None, Ok(filled))
  {
    RunWholeTable(events, pairs, filled, end);
  }

  /** The loop of `next` over the same table, from its opening element on. */
  lemma RunWholeTable(events: seq<Event>, pairs: seq<Pair>, filled: Slots, end: nat)
    requires |events| > 0 && events[0] == StartElement("tbl", []) && TableAt(events, 1, pairs)
    requires end == 1 + 8 * |pairs| && TableEndAt(events, end)
    requires Fill(EmptySlots, pairs) == Some(filled)
    ensures Run(events, 0, SearchingTable, EmptySlots) == Outcome(end + 1, SearchingTable, None, Ok(filled))
  {
    RunTable(events, 1, EmptySlots, pairs, filled, end);
    RunTableStart(events);
  }
}
