/** The outcomes of the reshaping script's steps. */
module Errors {

  datatype Option<+T> = None | Some(value: T)

  datatype Result<+T, +E> = Success(value: T) | Failure(error: E)

  /** The Python exceptions the reshaping steps can raise, with the place
      where each one is raised. */
  datatype ScriptError =
      /** `lines[a]` with the cursor past the last line. */
    | LineIndexError(band: nat, point: nat, line: nat)
      /** `fields[0]` or `fields[1]` on a line with too few fields. */
    | FieldIndexError(band: nat, point: nat, line: nat, field: nat)
      /** `stringline + arr[row][col]` where the cell still holds the integer 0. */
    | CellTypeError(row: nat, col: nat)
      /** `arr[row][col]` past the end of a row (only column 1 with no bands). */
    | CellIndexError(row: nat, col: nat)
}
