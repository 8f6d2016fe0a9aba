/** Failure values of the replenishment pipeline. Every failure aborts the
    whole run; no partial report is ever produced. */
module Outcomes {

  /** The ways a run can stop before producing a report. */
  datatype Error =
    | EmptyInput                                         // pasted text is blank (line 39)
    | MalformedRow(row: nat, expected: nat, found: nat)  // data row `row` has `found` fields, header has `expected`
    | MissingColumn(name: string)                        // "suc*" for the branch column, else the column name
    | InvalidNumericCell(column: string, row: nat)       // a cleaned cell that is not an integer

  datatype Option<+T> = None | Some(value: T)

  datatype Result<+T> = Ok(value: T) | Err(error: Error)
}
