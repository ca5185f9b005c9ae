/**
 * The reconstruction loop: every data line of the MBO file is split at
 * commas, guarded, decoded into an event, applied to the book, and answered
 * with one snapshot row, except for short lines and a leading reset.
 */
module Reconstruction {
  import opened Text
  import opened Numerals
  import opened PriceLevels
  import opened Engine
  import opened Snapshot

  /**
   * An input field: its text, and the number the program reads from it
   * when it is read as one (`stoll`/`stoi`, or for a price column the
   * price in ticks). The number is only consulted when the text is not
   * empty.
   */
  datatype Field = Field(text: string, value: int)

  type Row = seq<Field>

  /** Rows with fewer fields are skipped. */
  const MinFields := 11

  const TsColumn := 1
  const ActionColumn := 5
  const SideColumn := 6
  const PriceColumn := 7
  const SizeColumn := 8
  const IdColumn := 10

  /** A numeric field, with an empty field read as 0. */
  function Numeric(f: Field): int {
    if f.text == "" then 0 else f.value
  }

  /** The side character: the field's first character, or 'N' when empty. */
  function SideCode(f: Field): char {
    if f.text == "" then 'N' else f.text[0]
  }

  /** The event a long-enough row stands for, by its action text. */
  function Decode(row: Row): (e: Event)
    requires |row| >= MinFields
    ensures e.Reset? <==> row[ActionColumn].text == "R"
    ensures e.Add? <==> row[ActionColumn].text == "A"
    ensures e.Cancel? <==> row[ActionColumn].text == "C"
    ensures e.Fill? <==> row[ActionColumn].text == "F"
    ensures e.Add? || e.Cancel? || e.Fill? ==> e.id == Numeric(row[IdColumn])
    ensures e.Add? || e.Fill? ==> e.size == Numeric(row[SizeColumn])
    ensures e.Add? ==> e.price == Numeric(row[PriceColumn]) && e.side == SideOf(SideCode(row[SideColumn]))
  {
    var action := row[ActionColumn].text;
    var id := Numeric(row[IdColumn]);
    if action == "R" then Reset
    else if action == "A" then
      Add(id, Numeric(row[PriceColumn]), Numeric(row[SizeColumn]), SideOf(SideCode(row[SideColumn])))
    else if action == "C" then Cancel(id)
    else if action == "F" then Fill(id, Numeric(row[SizeColumn]))
    else Other
  }

  /** The book, and whether no long-enough row has been seen yet. */
  datatype Session = Session(book: Book, awaitingFirst: bool)

  const Start := Session(EmptyBook, true)

  datatype Option<T> = None | Some(value: T)

  /** A row is answered unless it is short or is a reset seen first. */
  predicate Emits(s: Session, row: Row) {
    |row| >= MinFields && !(s.awaitingFirst && row[ActionColumn].text == "R")
  }

  /**
   * One pass of the loop body. A short row changes nothing and writes
   * nothing; a leading reset only clears the first-event flag; any other
   * row, including a later reset or an unknown action, is applied and then
   * answered with the snapshot of the resulting book.
   */
  function ProcessRow(s: Session, row: Row): (out: (Session, Option<string>))
    ensures out.1.Some? <==> Emits(s, row)
    ensures |row| < MinFields ==> out.0 == s
    ensures out.0.awaitingFirst <==> s.awaitingFirst && |row| < MinFields
    ensures !Emits(s, row) ==> out.0.book == s.book
    ensures Emits(s, row) ==>
      && out.0.book == Apply(s.book, Decode(row))
      && out.1.value == WriteSnapshot(row[TsColumn].text, out.0.book)
  {
    if |row| < MinFields then (s, None)
    else if s.awaitingFirst && row[ActionColumn].text == "R" then (Session(s.book, false), None)
    else
      var book := Apply(s.book, Decode(row));
      (Session(book, false), Some(WriteSnapshot(row[TsColumn].text, book)))
  }

  /** Rows in order: the final session and the snapshot rows written. */
  function Process(s: Session, rows: seq<Row>): (out: (Session, seq<string>))
    ensures |out.1| <= |rows|
    decreases |rows|
  {
    if rows == [] then (s, [])
    else
      var (s1, written) := ProcessRow(s, rows[0]);
      var (s2, lines) := Process(s1, rows[1..]);
      (s2, (if written.Some? then [written.value] else []) + lines)
  }

  /** The rows that pass the length guard, in order. */
  function Longs(rows: seq<Row>): (longs: seq<Row>)
    ensures |longs| <= |rows|
    ensures forall k :: 0 <= k < |longs| ==> |longs[k]| >= MinFields
    decreases |rows|
  {
    if rows == [] then []
    else (if |rows[0]| >= MinFields then [rows[0]] else []) + Longs(rows[1..])
  }

  /** Rows that all pass the guard are kept as they are. */
  lemma {:induction false} LongsKeepsLong(rows: seq<Row>)
    requires forall k :: 0 <= k < |rows| ==> |rows[k]| >= MinFields
    ensures Longs(rows) == rows
    decreases |rows|
  {
    if rows != [] {
      LongsKeepsLong(rows[1..]);
      assert [rows[0]] + rows[1..] == rows;
    }
  }

  /**
   * Short rows leave no trace: not in the book, not in the output, and not
   * in the first-event flag, so the loop behaves as if they were absent.
   */
  lemma {:induction false} ShortRowsIgnored(s: Session, rows: seq<Row>)
    ensures Process(s, rows) == Process(s, Longs(rows))
    decreases |rows|
  {
    if rows != [] {
      if |rows[0]| >= MinFields {
        ShortRowsIgnored(ProcessRow(s, rows[0]).0, rows[1..]);
        LongRowKept(s, rows);
      } else {
        ShortRowsIgnored(s, rows[1..]);
        ShortRowDropped(s, rows);
      }
    }
  }

  lemma {:induction false} LongRowKept(s: Session, rows: seq<Row>)
    requires rows != [] && |rows[0]| >= MinFields
    requires Process(ProcessRow(s, rows[0]).0, rows[1..])
      == Process(ProcessRow(s, rows[0]).0, Longs(rows[1..]))
    ensures Process(s, rows) == Process(s, Longs(rows))
  {
    var longs := Longs(rows);
    assert longs == [rows[0]] + Longs(rows[1..]);
    assert longs[0] == rows[0] && longs[1..] == Longs(rows[1..]);
  }

  lemma {:induction false} ShortRowDropped(s: Session, rows: seq<Row>)
    requires rows != [] && |rows[0]| < MinFields
    requires Process(s, rows[1..]) == Process(s, Longs(rows[1..]))
    ensures Process(s, rows) == Process(s, Longs(rows))
  {
    assert ProcessRow(s, rows[0]) == (s, None);
    assert Longs(rows) == [] + Longs(rows[1..]) == Longs(rows[1..]);
    assert [] + Process(s, rows[1..]).1 == Process(s, rows[1..]).1;
  }

  /** The first row to pass the guard is a reset. */
  predicate OpensWithReset(rows: seq<Row>) {
    Longs(rows) != [] && Longs(rows)[0][ActionColumn].text == "R"
  }

  /**
   * Unless a reset is still waiting to be skipped, every row that passes the
   * length guard writes exactly one row and every other row writes none.
   */
  lemma ProcessWritesPerRow(s: Session, rows: seq<Row>)
    requires s.awaitingFirst ==> !OpensWithReset(rows)
    ensures |Process(s, rows).1| == |Longs(rows)|
  {
    ShortRowsIgnored(s, rows);
    LongRowsWrite(s, Longs(rows));
  }

  lemma {:induction false} LongRowsWrite(s: Session, rows: seq<Row>)
    requires forall k :: 0 <= k < |rows| ==> |rows[k]| >= MinFields
    requires s.awaitingFirst ==> rows == [] || rows[0][ActionColumn].text != "R"
    ensures |Process(s, rows).1| == |rows|
    decreases |rows|
  {
    if rows != [] {
      var s1 := ProcessRow(s, rows[0]).0;
      assert !s1.awaitingFirst;
      LongRowsWrite(s1, rows[1..]);
    }
  }

  /**
   * A stream whose first long-enough row is a reset writes nothing for it,
   * short rows before it included; every later long-enough row, later
   * resets included, writes exactly one row.
   */
  lemma LeadingResetSkipped(rows: seq<Row>)
    requires OpensWithReset(rows)
    ensures Process(Start, rows).1 == Process(Session(EmptyBook, false), Longs(rows)[1..]).1
    ensures |Process(Start, rows).1| == |Longs(rows)| - 1
  {
    var longs := Longs(rows);
    ShortRowsIgnored(Start, rows);
    assert ProcessRow(Start, longs[0]) == (Session(EmptyBook, false), None);
    LongsKeepsLong(longs[1..]);
    ProcessWritesPerRow(Session(EmptyBook, false), longs[1..]);
  }

  /** From the start: one row per long-enough row, less a leading reset. */
  lemma ProcessCount(rows: seq<Row>)
    ensures |Process(Start, rows).1| == |Longs(rows)| - (if OpensWithReset(rows) then 1 else 0)
  {
    if OpensWithReset(rows) {
      LeadingResetSkipped(rows);
    } else {
      ProcessWritesPerRow(Start, rows);
    }
  }

  /** A reset after the first event empties the book and is answered. */
  lemma LaterResetWritesEmptyRow(s: Session, row: Row)
    requires |row| >= MinFields && row[ActionColumn].text == "R" && !s.awaitingFirst
    ensures ProcessRow(s, row).0.book == EmptyBook
    ensures ProcessRow(s, row).1 == Some(row[TsColumn].text + Commas(RowFields - 1) + "\n")
  {
    EmptyBooksSnapshot(row[TsColumn].text, EmptyBook);
  }

  /** The loop keeps the book well formed whatever the input. */
  lemma {:induction false} ProcessKeepsWellFormed(s: Session, rows: seq<Row>)
    requires WellFormed(s.book)
    ensures WellFormed(Process(s, rows).0.book)
    decreases |rows|
  {
    if rows != [] {
      ProcessKeepsWellFormed(ProcessRow(s, rows[0]).0, rows[1..]);
    }
  }

  /** Every applied event respects the stream assumptions where it is met. */
  ghost predicate AdmissibleRun(s: Session, rows: seq<Row>)
    decreases |rows|
  {
    rows != [] ==>
      && (Emits(s, rows[0]) ==> Admissible(s.book, Decode(rows[0])))
      && AdmissibleRun(ProcessRow(s, rows[0]).0, rows[1..])
  }

  /**
   * Along a run whose events respect the stream assumptions, every level
   * stays the total of the orders resting at it.
   */
  lemma {:induction false} ProcessKeepsConsistent(s: Session, rows: seq<Row>)
    requires WellFormed(s.book) && Consistent(s.book) && AdmissibleRun(s, rows)
    ensures Consistent(Process(s, rows).0.book)
    decreases |rows|
  {
    if rows != [] {
      var s1 := ProcessRow(s, rows[0]).0;
      if Emits(s, rows[0]) {
        ApplyKeepsConsistent(s.book, Decode(rows[0]));
      }
      ProcessKeepsConsistent(s1, rows[1..]);
    }
  }

  // ---------------------------------------------------------------------
  // From text lines to rows, and the output file's contents.
  // ---------------------------------------------------------------------

  /**
   * A line's fields: its comma-separated tokens, each with the number
   * `read` gives for it in its column.
   */
  function ToRow(line: string, read: (nat, string) -> int): (row: Row)
    ensures |row| == |Split(line, ',')|
    ensures forall k :: 0 <= k < |row| ==> row[k].text == Split(line, ',')[k]
  {
    var tokens := Split(line, ',');
    seq(|tokens|, k requires 0 <= k < |tokens| => Field(tokens[k], read(k, tokens[k])))
  }

  /** A line yields one field more than it has commas, none holding a comma. */
  lemma ToRowFields(line: string, read: (nat, string) -> int)
    ensures |ToRow(line, read)| == Occurrences(line, ',') + 1
    ensures forall k :: 0 <= k < |ToRow(line, read)| ==> ',' !in ToRow(line, read)[k].text
  {
    SplitFields(line, ',');
  }

  function ToRows(lines: seq<string>, read: (nat, string) -> int): (rows: seq<Row>)
    ensures |rows| == |lines|
    ensures forall k :: 0 <= k < |rows| ==> rows[k] == ToRow(lines[k], read)
  {
    seq(|lines|, k requires 0 <= k < |lines| => ToRow(lines[k], read))
  }

  /** A written row: text ending in a newline, 41 comma-separated fields before it. */
  predicate FullRow(line: string) {
    |line| > 0 && line[|line| - 1] == '\n' && |Split(line[..|line| - 1], ',')| == RowFields
  }

  predicate CommaFree(row: Row) {
    forall k :: 0 <= k < |row| ==> ',' !in row[k].text
  }

  lemma ProcessRowWritesFullRow(s: Session, row: Row)
    requires CommaFree(row)
    ensures ProcessRow(s, row).1.Some? ==> FullRow(ProcessRow(s, row).1.value)
  {
    if Emits(s, row) {
      SnapshotSplits(row[TsColumn].text, ProcessRow(s, row).0.book);
    }
  }

  lemma {:induction false} ProcessWritesFullRows(s: Session, rows: seq<Row>)
    requires forall k :: 0 <= k < |rows| ==> CommaFree(rows[k])
    ensures forall k :: 0 <= k < |Process(s, rows).1| ==> FullRow(Process(s, rows).1[k])
    decreases |rows|
  {
    if rows != [] {
      var (s1, written) := ProcessRow(s, rows[0]);
      ProcessRowWritesFullRow(s, rows[0]);
      ProcessWritesFullRows(s1, rows[1..]);
    }
  }

  /**
   * Rows drawn from comma-split lines have comma-free timestamps, so every
   * row written for them splits back into exactly 41 fields.
   */
  lemma LinesWriteFullRows(s: Session, lines: seq<string>, read: (nat, string) -> int)
    ensures forall k :: 0 <= k < |Process(s, ToRows(lines, read)).1| ==>
      FullRow(Process(s, ToRows(lines, read)).1[k])
  {
    var rows := ToRows(lines, read);
    forall k | 0 <= k < |rows|
      ensures CommaFree(rows[k])
    {
      ToRowFields(lines[k], read);
    }
    ProcessWritesFullRows(s, rows);
  }

  /** Header names of one side: `<name>_price_<i>`, `<name>_size_<i>`. */
  function SideHeader(name: string): (fields: seq<string>)
    ensures |fields| == 2 * Depth
  {
    seq(2 * Depth, k requires 0 <= k < 2 * Depth =>
      name + (if k % 2 == 0 then "_price_" else "_size_") + NatText(k / 2))
  }

  function HeaderFields(): (fields: seq<string>)
    ensures |fields| == RowFields
    ensures fields[0] == "ts_event"
  {
    ["ts_event"] + SideHeader("bid") + SideHeader("ask")
  }

  /** The header row as written: its names joined by commas, then a newline. */
  function HeaderLine(): string {
    Join(HeaderFields(), ',') + "\n"
  }

  /** No header name holds a comma: each is a name, a suffix and digits. */
  lemma HeaderNamesCommaFree()
    ensures forall k :: 0 <= k < RowFields ==> ',' !in HeaderFields()[k]
  {
    forall k | 0 <= k < RowFields
      ensures ',' !in HeaderFields()[k]
    {
      if k > 0 {
        var j := if k <= 2 * Depth then k - 1 else k - 1 - 2 * Depth;
        DigitsCommaFree(NatText(j / 2));
      }
    }
  }

  lemma DigitsCommaFree(s: string)
    requires AllDigits(s)
    ensures ',' !in s
  {
  }

  /** The header row splits back into its 41 names. */
  lemma HeaderLineFull()
    ensures FullRow(HeaderLine())
    ensures Split(HeaderLine()[..|HeaderLine()| - 1], ',') == HeaderFields()
  {
    var line := HeaderLine();
    HeaderNamesCommaFree();
    assert line[..|line| - 1] == Join(HeaderFields(), ',');
    SplitJoin(HeaderFields(), ',');
  }

  /**
   * The output file: the header row, then the snapshot rows of the input's
   * data lines (its first line is the input header and is not processed).
   */
  function Reconstruct(input: seq<string>, read: (nat, string) -> int): (out: string)
    ensures |out| >= |HeaderLine()| && out[..|HeaderLine()|] == HeaderLine()
    ensures |input| <= 1 ==> out == HeaderLine()
  {
    if input == [] then HeaderLine()
    else HeaderLine() + Flatten(Process(Start, ToRows(input[1..], read)).1)
  }

  /**
   * After the header, the output holds one full 41-field row per data line
   * that passes the length guard, less a leading reset, in input order.
   */
  lemma ReconstructOutput(input: seq<string>, read: (nat, string) -> int)
    requires |input| >= 1
    ensures var rows := ToRows(input[1..], read);
      var written := Process(Start, rows).1;
      && Reconstruct(input, read) == HeaderLine() + Flatten(written)
      && FullRow(HeaderLine())
      && (forall k :: 0 <= k < |written| ==> FullRow(written[k]))
      && |written| == |Longs(rows)| - (if OpensWithReset(rows) then 1 else 0)
  {
    var rows := ToRows(input[1..], read);
    HeaderLineFull();
    LinesWriteFullRows(Start, input[1..], read);
    ProcessCount(rows);
  }
}
