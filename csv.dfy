/**
 * The CSV writer as the exporters see it: `writeNext(row)` appends one row.
 * Quoting, separators and line endings belong to the CSV library and are
 * not modelled; an I/O failure is an input to the export.
 */
module Csv {

  /** Where an I/O failure strikes: the file cannot be opened, or closing it fails. */
  datatype IoFault = NoFault | OpenFails | CloseFails

  /** `GateException` wrapping the `IOException` the export caught. */
  datatype GateException = GateException(cause: IoFault)

  class CsvWriter {
    var rows: seq<seq<string>>

    constructor ()
      ensures rows == []
    {
      rows := [];
    }

    method WriteNext(row: seq<string>)
      modifies this
      ensures rows == old(rows) + [row]
    {
      rows := rows + [row];
    }
  }
}
