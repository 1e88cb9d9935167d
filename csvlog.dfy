/**
 * The two CSV logs (`events.csv` and `credentials.csv`) at the level of cells:
 * `append_dict_row` writes one row, preceded by the header line when the file
 * is absent or empty, and `read_csv_records` reads the rows back as dicts keyed
 * by the header. An absent file and an empty file are both the empty sequence
 * of lines; quoting and character encoding are below this level.
 */
module CsvLog {

  /** One line of a file, the header or a row: one cell per field. */
  type Line = seq<string>

  function FieldSet(fieldnames: seq<string>): set<string> {
    set f | f in fieldnames
  }

  /** The cells `csv.DictWriter.writerow` writes for `row`, in field order;
      a field the row lacks gets the writer's default value "". */
  function RowCells(fieldnames: seq<string>, row: map<string, string>): (cells: Line)
    ensures |cells| == |fieldnames|
  {
    seq(|fieldnames|, i requires 0 <= i < |fieldnames| =>
      if fieldnames[i] in row then row[fieldnames[i]] else "")
  }

  /** The dict `csv.DictReader` builds from a line under `header`
      (a repeated column name takes the later cell). */
  function RowDict(header: seq<string>, cells: Line): map<string, string>
    requires |cells| == |header|
  {
    if header == [] then map[]
    else
      var n := |header| - 1;
      RowDict(header[..n], cells[..n])[header[n] := cells[n]]
  }

  /** `row` as it comes back from the file: every field present, "" where the row had none. */
  function Completed(fieldnames: seq<string>, row: map<string, string>): map<string, string> {
    map f | f in fieldnames :: if f in row then row[f] else ""
  }

  /** Writing a row and reading its line back under the same header gives the completed row. */
  lemma {:induction false} ReadBackRow(fieldnames: seq<string>, row: map<string, string>)
    ensures RowDict(fieldnames, RowCells(fieldnames, row)) == Completed(fieldnames, row)
  {
    if fieldnames != [] {
      var n := |fieldnames| - 1;
      var init := fieldnames[..n];
      assert RowCells(fieldnames, row)[..n] == RowCells(init, row);
      ReadBackRow(init, row);
      assert Completed(fieldnames, row) == Completed(init, row)[fieldnames[n] := RowCells(fieldnames, row)[n]];
    }
  }

  /** A row that has exactly the file's fields comes back unchanged. */
  lemma CompletedFullRow(fieldnames: seq<string>, row: map<string, string>)
    requires row.Keys == FieldSet(fieldnames)
    ensures Completed(fieldnames, row) == row
  {
  }

  /** The file is empty, or its first line is the header and every line has one cell per field. */
  ghost predicate WellFormed(fieldnames: seq<string>, lines: seq<Line>) {
    lines == [] || (lines[0] == fieldnames && forall k :: 0 <= k < |lines| ==> |lines[k]| == |fieldnames|)
  }

  /** `read_csv_records`: no records for an empty file, else one dict per line after the header. */
  function Records(lines: seq<Line>): (records: seq<map<string, string>>)
    requires forall k :: 0 <= k < |lines| ==> |lines[k]| == |lines[0]|
    ensures |records| == if lines == [] then 0 else |lines| - 1
  {
    if |lines| <= 1 then []
    else
      var n := |lines| - 1;
      Records(lines[..n]) + [RowDict(lines[0], lines[n])]
  }

  /** Record k is line k + 1 read against the header line. */
  lemma {:induction false} RecordsFromLines(lines: seq<Line>)
    requires forall k :: 0 <= k < |lines| ==> |lines[k]| == |lines[0]|
    ensures forall k :: 0 <= k < |Records(lines)| ==> Records(lines)[k] == RowDict(lines[0], lines[k + 1])
  {
    if |lines| > 1 {
      var n := |lines| - 1;
      RecordsFromLines(lines[..n]);
    }
  }

  /** A CSV file that the application only ever appends to. */
  class CsvFile {
    const fieldnames: seq<string>
    var lines: seq<Line>

    ghost predicate Valid()
      reads this
    {
      WellFormed(fieldnames, lines)
    }

    /** A file that does not exist yet. */
    constructor (fieldnames: seq<string>)
      ensures Valid() && this.fieldnames == fieldnames && lines == []
    {
      this.fieldnames := fieldnames;
      lines := [];
    }

    /** `read_csv_records` on this file. */
    function ReadRecords(): seq<map<string, string>>
      requires Valid()
      reads this
    {
      Records(lines)
    }

    /**
     * `append_dict_row`: the header goes first exactly when the file was absent or
     * empty, then the row; the lines already there stay as they were. Read back,
     * the file has one more record at the end: the row, with "" for missing fields.
     * `csv.DictWriter` raises an error for a key that is not a field, hence the
     * requirement.
     */
    method AppendDictRow(row: map<string, string>)
      requires Valid() && row.Keys <= FieldSet(fieldnames)
      modifies this
      ensures Valid()
      ensures lines == old(lines) + (if old(lines) == [] then [fieldnames] else []) + [RowCells(fieldnames, row)]
      ensures ReadRecords() == old(ReadRecords()) + [Completed(fieldnames, row)]
    {
      var cells := RowCells(fieldnames, row);
      ReadBackRow(fieldnames, row);
      if lines == [] {
        lines := [fieldnames];
      }
      ghost var before := lines;
      lines := lines + [cells];
      assert lines[..|lines| - 1] == before;
    }
  }
}
