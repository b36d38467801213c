/**
 * The table-reading state machine: it follows table, row and cell
 * open/close events and the text in between, and builds one
 * (key, value) pair per two-cell row. Models `src/parse.rs`.
 */
module Parsing {
  import opened Results

  /** The states of `ParseStatus`. */
  datatype Status =
    | SearchingTable
    | SearchingField
    | SearchingCol1
    | Col1(key: string)
    | SearchingCol2(key: string)
    | Col2(key: string, value: string)
    | Field(key: string, value: string)
    | Finished

  /**
   * `ParseError`: the opening words of its message, which name the refused
   * transition, and the state that was found (the message then prints that
   * state's `Debug` form, which is not modelled).
   */
  datatype ParseError = ParseError(context: string, found: Status)

  const StartTableRefused := "invalid state"
  const StartFieldRefused := "search field on state"
  /** `append_text` and `append_new_line` refuse with the same words. */
  const AppendRefused := "append text on state"
  const StartColRefused := "start col on status"
  const EndColRefused := "end col on status"
  const EndFieldRefused := "end field on status"
  const EndTableRefused := "finish table on status"

  /** A pair handed out by `end_field` or `finish`. */
  type Pair = (string, string)

  // ---------------------------------------------------------------------------
  // The transitions as functions of the state
  // ---------------------------------------------------------------------------

  /** `start_table`: only a state looking for a table opens one. */
  function StartTableStep(s: Status): (r: (Status, Result<Unit, ParseError>))
    ensures r.1.Ok? <==> s == SearchingTable
    ensures r.1.Ok? ==> r.0 == SearchingField
    ensures r.1.Err? ==> r == (s, Err(ParseError(StartTableRefused, s)))
  {
    if s.SearchingTable? then (SearchingField, Ok(Unit)) else (s, Err(ParseError(StartTableRefused, s)))
  }

  /** `end_table`: only a state between rows closes the table. */
  function EndTableStep(s: Status): (r: (Status, Result<Unit, ParseError>))
    ensures r.1.Ok? <==> s == SearchingField
    ensures r.1.Ok? ==> r.0 == SearchingTable
    ensures r.1.Err? ==> r == (s, Err(ParseError(EndTableRefused, s)))
  {
    if s.SearchingField? then (SearchingTable, Ok(Unit)) else (s, Err(ParseError(EndTableRefused, s)))
  }

  /** `start_field`: a row opens only between rows, and then waits for its first cell. */
  function StartFieldStep(s: Status): (r: (Status, Result<Unit, ParseError>))
    ensures r.1.Ok? <==> s == SearchingField
    ensures r.1.Ok? ==> r.0 == SearchingCol1
    ensures r.1.Err? ==> r == (s, Err(ParseError(StartFieldRefused, s)))
  {
    if s.SearchingField? then (SearchingCol1, Ok(Unit)) else (s, Err(ParseError(StartFieldRefused, s)))
  }

  /** `append_text`: text goes onto the key in the first cell or the value in the second. */
  function AppendTextStep(s: Status, text: string): (r: (Status, Result<Unit, ParseError>))
    ensures r.1.Ok? <==> s.Col1? || s.Col2?
    ensures s.Col1? ==> r.0 == Col1(s.key + text)
    ensures s.Col2? ==> r.0 == Col2(s.key, s.value + text)
    ensures r.1.Err? ==> r == (s, Err(ParseError(AppendRefused, s)))
  {
    match s
    case Col1(key) => (Col1(key + text), Ok(Unit))
    case Col2(key, value) => (Col2(key, value + text), Ok(Unit))
    case _ => (s, Err(ParseError(AppendRefused, s)))
  }

  /** One space after a text that has something in it; an empty text stays empty. */
  function PushSpace(t: string): (r: string)
    ensures t == [] ==> r == []
    ensures t != [] ==> r == t + " "
  {
    if t == [] then t else t + " "
  }

  /**
   * `append_new_line`: a paragraph break inside a cell becomes one space,
   * and only after some text.
   */
  function AppendNewLineStep(s: Status): (r: (Status, Result<Unit, ParseError>))
    ensures r.1.Ok? <==> s.Col1? || s.Col2?
    ensures s.Col1? ==> r.0 == Col1(PushSpace(s.key))
    ensures s.Col2? ==> r.0 == Col2(s.key, PushSpace(s.value))
    ensures r.1.Err? ==> r == (s, Err(ParseError(AppendRefused, s)))
  {
    match s
    case Col1(key) => (Col1(PushSpace(key)), Ok(Unit))
    case Col2(key, value) => (Col2(key, PushSpace(value)), Ok(Unit))
    case _ => (s, Err(ParseError(AppendRefused, s)))
  }

  /** `start_col`: the first cell starts an empty key, the second an empty value beside the key. */
  function StartColStep(s: Status): (r: (Status, Result<Unit, ParseError>))
    ensures r.1.Ok? <==> s.SearchingCol1? || s.SearchingCol2?
    ensures s.SearchingCol1? ==> r.0 == Col1("")
    ensures s.SearchingCol2? ==> r.0 == Col2(s.key, "")
    ensures r.1.Err? ==> r == (s, Err(ParseError(StartColRefused, s)))
  {
    match s
    case SearchingCol1 => (Col1(""), Ok(Unit))
    case SearchingCol2(key) => (Col2(key, ""), Ok(Unit))
    case _ => (s, Err(ParseError(StartColRefused, s)))
  }

  /** `end_col`: closing the first cell keeps the key, closing the second completes the pair. */
  function EndColStep(s: Status): (r: (Status, Result<Unit, ParseError>))
    ensures r.1.Ok? <==> s.Col1? || s.Col2?
    ensures s.Col1? ==> r.0 == SearchingCol2(s.key)
    ensures s.Col2? ==> r.0 == Field(s.key, s.value)
    ensures r.1.Err? ==> r == (s, Err(ParseError(EndColRefused, s)))
  {
    match s
    case Col1(key) => (SearchingCol2(key), Ok(Unit))
    case Col2(key, value) => (Field(key, value), Ok(Unit))
    case _ => (s, Err(ParseError(EndColRefused, s)))
  }

  /**
   * `end_field`: a completed pair, or a key whose row had one cell (with an
   * empty value), is handed out and the machine waits for the next row;
   * any other state is kept and refused.
   */
  function EndFieldStep(s: Status): (r: (Status, Result<Pair, ParseError>))
    ensures r.1.Ok? <==> s.Field? || s.SearchingCol2?
    ensures s.Field? ==> r == (SearchingField, Ok((s.key, s.value)))
    ensures s.SearchingCol2? ==> r == (SearchingField, Ok((s.key, "")))
    ensures r.1.Err? ==> r == (s, Err(ParseError(EndFieldRefused, s)))
  {
    match s
    case SearchingCol2(key) => (SearchingField, Ok((key, "")))
    case Field(key, value) => (SearchingField, Ok((key, value)))
    case _ => (s, Err(ParseError(EndFieldRefused, s)))
  }

  /**
   * `finish`: the machine stops in every state; a pair in progress is handed
   * back as the error, with an empty value when it has none yet.
   */
  function FinishStep(s: Status): (r: (Status, Result<Unit, Pair>))
    ensures r.0 == Finished
    ensures r.1.Err? <==> s.Col1? || s.SearchingCol2? || s.Col2? || s.Field?
    ensures (s.Col1? || s.SearchingCol2?) ==> r.1 == Err((s.key, ""))
    ensures (s.Col2? || s.Field?) ==> r.1 == Err((s.key, s.value))
  {
    match s
    case Col1(k) => (Finished, Err((k, "")))
    case SearchingCol2(k) => (Finished, Err((k, "")))
    case Col2(k, v) => (Finished, Err((k, v)))
    case Field(k, v) => (Finished, Err((k, v)))
    case _ => (Finished, Ok(Unit))
  }

  /** `is_finished`. */
  predicate IsFinished(s: Status) {
    s.Finished?
  }

  // ---------------------------------------------------------------------------
  // The machine, updated in place
  // ---------------------------------------------------------------------------

  /** `ParseStatus` as a mutable cell: every transition replaces the state. */
  class ParseStatus {
    var state: Status

    /** A machine looking for its first table. */
    constructor ()
      ensures state == SearchingTable
    {
      state := SearchingTable;
    }

    method StartTable() returns (r: Result<Unit, ParseError>)
      modifies this
      ensures (state, r) == StartTableStep(old(state))
    {
      if state.SearchingTable? {
        state := SearchingField;
        r := Ok(Unit);
      } else {
        r := Err(ParseError(StartTableRefused, state));
      }
    }

    method StartField() returns (r: Result<Unit, ParseError>)
      modifies this
      ensures (state, r) == StartFieldStep(old(state))
    {
      if state.SearchingField? {
        state := SearchingCol1;
        r := Ok(Unit);
      } else {
        r := Err(ParseError(StartFieldRefused, state));
      }
    }

    method AppendText(text: string) returns (r: Result<Unit, ParseError>)
      modifies this
      ensures (state, r) == AppendTextStep(old(state), text)
    {
      match state {
        case Col1(key) =>
          state := Col1(key + text);
          r := Ok(Unit);
        case Col2(key, value) =>
          state := Col2(key, value + text);
          r := Ok(Unit);
        case _ =>
          r := Err(ParseError(AppendRefused, state));
      }
    }

    method AppendNewLine() returns (r: Result<Unit, ParseError>)
      modifies this
      ensures (state, r) == AppendNewLineStep(old(state))
    {
      match state {
        case Col1(key) =>
          if key != [] {
            state := Col1(key + " ");
          }
          r := Ok(Unit);
        case Col2(key, value) =>
          if value != [] {
            state := Col2(key, value + " ");
          }
          r := Ok(Unit);
        case _ =>
          r := Err(ParseError(AppendRefused, state));
      }
    }

    method StartCol() returns (r: Result<Unit, ParseError>)
      modifies this
      ensures (state, r) == StartColStep(old(state))
    {
      match state {
        case SearchingCol1 =>
          state := Col1("");
          r := Ok(Unit);
        case SearchingCol2(key) =>
          state := Col2(key, "");
          r := Ok(Unit);
        case _ =>
          r := Err(ParseError(StartColRefused, state));
      }
    }

    method EndCol() returns (r: Result<Unit, ParseError>)
      modifies this
      ensures (state, r) == EndColStep(old(state))
    {
      match state {
        case Col1(key) =>
          state := SearchingCol2(key);
          r := Ok(Unit);
        case Col2(key, value) =>
          state := Field(key, value);
          r := Ok(Unit);
        case _ =>
          r := Err(ParseError(EndColRefused, state));
      }
    }

    /** Swaps `SearchingField` in and puts the old state back when it cannot be ended. */
    method EndField() returns (r: Result<Pair, ParseError>)
      modifies this
      ensures (state, r) == EndFieldStep(old(state))
    {
      var found := state;
      state := SearchingField;
      match found {
        case SearchingCol2(key) =>
          r := Ok((key, ""));
        case Field(key, value) =>
          r := Ok((key, value));
        case _ =>
          state := found;
          r := Err(ParseError(EndFieldRefused, state));
      }
    }

    method EndTable() returns (r: Result<Unit, ParseError>)
      modifies this
      ensures (state, r) == EndTableStep(old(state))
    {
      if state.SearchingField? {
        state := SearchingTable;
        r := Ok(Unit);
      } else {
        r := Err(ParseError(EndTableRefused, state));
      }
    }

    /** Swaps `Finished` in and hands back a pair that was in progress. */
    method Finish() returns (r: Result<Unit, Pair>)
      modifies this
      ensures (state, r) == FinishStep(old(state))
    {
      var found := state;
      state := Finished;
      match found {
        case Col1(k) => r := Err((k, ""));
        case SearchingCol2(k) => r := Err((k, ""));
        case Col2(k, v) => r := Err((k, v));
        case Field(k, v) => r := Err((k, v));
        case _ => r := Ok(Unit);
      }
    }

    method IsFinished() returns (b: bool)
      ensures b <==> state == Finished
    {
      b := state.Finished?;
    }
  }

  // ---------------------------------------------------------------------------
  // Runs of transitions
  // ---------------------------------------------------------------------------

  /** The events the reader turns into transitions. */
  datatype Input =
    | OpenTable | CloseTable | OpenRow | CloseRow | OpenCell | CloseCell
    | Text(text: string) | NewLine

  /**
   * One input applied to the state; a refused transition keeps the state.
   * A closed row's pair is not kept here.
   */
  function Apply(s: Status, i: Input): Status {
    match i
    case OpenTable => StartTableStep(s).0
    case CloseTable => EndTableStep(s).0
    case OpenRow => StartFieldStep(s).0
    case CloseRow => EndFieldStep(s).0
    case OpenCell => StartColStep(s).0
    case CloseCell => EndColStep(s).0
    case Text(t) => AppendTextStep(s, t).0
    case NewLine => AppendNewLineStep(s).0
  }

  /** The state after a run of inputs. */
  function ApplyAll(s: Status, inputs: seq<Input>): Status
    decreases |inputs|
  {
    if inputs == [] then s else ApplyAll(Apply(s, inputs[0]), inputs[1..])
  }

  /** The inputs of a two-cell row whose cells hold `key` and `value`. */
  function RowInputs(key: string, value: string): seq<Input> {
    [OpenRow] + CellInputs(key) + CellInputs(value)
  }

  /** The inputs of a cell holding `text`. */
  function CellInputs(text: string): seq<Input> {
    [OpenCell, Text(text), CloseCell]
  }

  /** Running inputs one after another is running their concatenation. */
  lemma {:induction false} ApplyAllAppend(s: Status, a: seq<Input>, b: seq<Input>)
    ensures ApplyAll(s, a + b) == ApplyAll(ApplyAll(s, a), b)
    decreases |a|
  {
    if a == [] {
      assert a + b == b;
    } else {
      assert (a + b)[0] == a[0] && (a + b)[1..] == a[1..] + b;
      ApplyAllAppend(Apply(s, a[0]), a[1..], b);
    }
  }

  /** A two-cell row read between rows leaves the completed pair, ready for `end_field`. */
  lemma RowBuildsPair(key: string, value: string)
    ensures ApplyAll(SearchingField, RowInputs(key, value)) == Field(key, value)
    ensures EndFieldStep(Field(key, value)) == (SearchingField, Ok((key, value)))
  {
    ApplyAllAppend(SearchingField, [OpenRow] + CellInputs(key), CellInputs(value));
    ApplyAllAppend(SearchingField, [OpenRow], CellInputs(key));
    assert ApplyAll(SearchingField, [OpenRow]) == SearchingCol1 by {
      assert [OpenRow][1..] == [];
    }
    CellCollects(SearchingCol1, key);
    CellCollects(SearchingCol2(key), value);
    assert "" + key == key && "" + value == value;
  }

  /** A cell opened where one may open collects its text and closes. */
  lemma CellCollects(s: Status, text: string)
    requires s.SearchingCol1? || s.SearchingCol2?
    ensures ApplyAll(s, CellInputs(text)) == EndColStep(AppendTextStep(StartColStep(s).0, text).0).0
  {
    var inputs := CellInputs(text);
    var started := StartColStep(s).0;
    var filled := AppendTextStep(started, text).0;
    assert inputs[1..] == [Text(text), CloseCell] && inputs[1..][1..] == [CloseCell] && inputs[1..][1..][1..] == [];
    assert ApplyAll(s, inputs) == ApplyAll(started, inputs[1..]);
    assert ApplyAll(started, inputs[1..]) == ApplyAll(filled, [CloseCell]);
    assert ApplyAll(filled, [CloseCell]) == ApplyAll(EndColStep(filled).0, []);
  }

  /** Once finished, the machine refuses every transition and stays finished. */
  lemma {:induction false} FinishedIsFinal(inputs: seq<Input>)
    ensures ApplyAll(Finished, inputs) == Finished
    decreases |inputs|
  {
    if inputs != [] {
      FinishedIsFinal(inputs[1..]);
    }
  }

  /** A refused transition, of any kind, changes nothing. */
  lemma RefusalKeepsState(s: Status, i: Input)
    requires match i
      case OpenTable => StartTableStep(s).1.Err?
      case CloseTable => EndTableStep(s).1.Err?
      case OpenRow => StartFieldStep(s).1.Err?
      case CloseRow => EndFieldStep(s).1.Err?
      case OpenCell => StartColStep(s).1.Err?
      case CloseCell => EndColStep(s).1.Err?
      case Text(t) => AppendTextStep(s, t).1.Err?
      case NewLine => AppendNewLineStep(s).1.Err?
    ensures Apply(s, i) == s
  {
  }

  /** Opening and closing a table from outside one comes back to where it started. */
  lemma TableToggles()
    ensures EndTableStep(StartTableStep(SearchingTable).0) == (SearchingTable, Ok(Unit))
    ensures StartTableStep(EndTableStep(SearchingField).0) == (SearchingField, Ok(Unit))
  {
  }
}
