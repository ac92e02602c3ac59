/** Writing the scratch table out one row per k-point: the k-field of band 0,
    then the value field of every band in increasing band order, each token
    followed by one space. And the whole reshaping step, band file to
    columned file, with its transposition and round-trip properties. */
module BandColumns {
  import opened Text
  import opened Errors
  import opened BandBlocks
  import opened BandParse

  /** The column the writer reads for the `m`-th token of a row: column 0
      (the k-field of band 0) and then the odd columns 1, 3, 5, ... (the value
      fields). The k-fields of the other bands, in the even columns, are never
      read. */
  function Column(m: nat): nat {
    if m == 0 then 0 else 2 * m - 1
  }

  /** How many cells the writer reads per row: `1 + B`, but two when there
      are no bands, because `arr[i][1]` is evaluated regardless. */
  function ReadsPerRow(B: nat): nat {
    if B == 0 then 2 else B + 1
  }

  /** Whether `col` is one of the columns the writer reads. */
  predicate IsReadColumn(col: nat, B: nat) {
    (col + 1) / 2 < ReadsPerRow(B) && col == Column((col + 1) / 2)
  }

  /** The `m`-th cell of row `r` exists and holds a string. */
  predicate CellReadable(arr: array2<Cell>, r: nat, m: nat)
    reads arr
    requires r < arr.Length0
  {
    Column(m) < arr.Length1 && arr[r, Column(m)].Tok?
  }

  predicate RowWritable(arr: array2<Cell>, r: nat, B: nat)
    reads arr
    requires r < arr.Length0
  {
    forall m :: 0 <= m < ReadsPerRow(B) ==> CellReadable(arr, r, m)
  }

  /** Every row can be written: no cell the writer reads is missing or still 0. */
  predicate Writable(arr: array2<Cell>, K: nat, B: nat)
    reads arr
    requires K < arr.Length0
  {
    forall r :: 0 <= r < K ==> RowWritable(arr, r, B)
  }

  /** Every cell read before cell `(row, col)` exists and holds a string. */
  predicate WritableBefore(arr: array2<Cell>, K: nat, B: nat, row: nat, col: nat)
    reads arr
    requires K < arr.Length0 && row <= K
  {
    (forall r :: 0 <= r < row ==> RowWritable(arr, r, B)) &&
    (row < K ==> forall m :: 0 <= m < ReadsPerRow(B) && Column(m) < col ==> CellReadable(arr, row, m))
  }

  /** `e` is the exception the writer raises: at the first cell, in reading
      order, that is missing (`IndexError`) or still holds 0 (`TypeError`). */
  predicate WriteRaisedBy(arr: array2<Cell>, K: nat, B: nat, e: ScriptError)
    reads arr
    requires K < arr.Length0
  {
    match e
    case CellTypeError(row, col) =>
      row < K && IsReadColumn(col, B) && col < arr.Length1 && arr[row, col].Zero? &&
      WritableBefore(arr, K, B, row, col)
    case CellIndexError(row, col) =>
      row < K && IsReadColumn(col, B) && arr.Length1 <= col &&
      WritableBefore(arr, K, B, row, col)
    case _ => false
  }

  /** The first `n` tokens of row `r`. */
  function RowPrefix(arr: array2<Cell>, r: nat, n: nat): seq<string>
    reads arr
    requires r < arr.Length0
    requires forall m :: 0 <= m < n ==> CellReadable(arr, r, m)
  {
    if n == 0 then []
    else
      assert CellReadable(arr, r, n - 1);
      RowPrefix(arr, r, n - 1) + [arr[r, Column(n - 1)].text]
  }

  /** Reading one more cell extends the row text by that token and a space. */
  lemma RowPrefixStep(arr: array2<Cell>, r: nat, n: nat)
    requires r < arr.Length0
    requires forall m :: 0 <= m < n ==> CellReadable(arr, r, m)
    requires CellReadable(arr, r, n)
    ensures Spaced(RowPrefix(arr, r, n + 1)) == Spaced(RowPrefix(arr, r, n)) + arr[r, Column(n)].text + " "
  {
    SpacedSnoc(RowPrefix(arr, r, n), arr[r, Column(n)].text);
  }

  /** The tokens the writer puts on row `r`. */
  function RowTokens(arr: array2<Cell>, r: nat, B: nat): seq<string>
    reads arr
    requires r < arr.Length0 && RowWritable(arr, r, B)
  {
    RowPrefix(arr, r, ReadsPerRow(B))
  }

  /** An exception raised by the writer means the table was not writable. */
  lemma WriteRaisedNotWritable(arr: array2<Cell>, K: nat, B: nat, e: ScriptError)
    requires K < arr.Length0
    requires WriteRaisedBy(arr, K, B, e)
    ensures !Writable(arr, K, B)
  {
    var m := (e.col + 1) / 2;
    assert !CellReadable(arr, e.row, m);
    assert !RowWritable(arr, e.row, B);
  }

  /** `e` is the exception raised while writing row `i`: at the first cell of
      the row, in reading order, that is missing or still holds 0. */
  predicate RowRaisedBy(arr: array2<Cell>, B: nat, i: nat, e: ScriptError)
    reads arr
    requires i < arr.Length0
  {
    match e
    case CellTypeError(row, col) =>
      row == i && IsReadColumn(col, B) && col < arr.Length1 && arr[row, col].Zero? &&
      forall m :: 0 <= m < ReadsPerRow(B) && Column(m) < col ==> CellReadable(arr, i, m)
    case CellIndexError(row, col) =>
      row == i && IsReadColumn(col, B) && arr.Length1 <= col &&
      forall m :: 0 <= m < ReadsPerRow(B) && Column(m) < col ==> CellReadable(arr, i, m)
    case _ => false
  }

  /** The exception of row `i` when the `m`-th cell read is the first one that
      is missing or still 0. */
  lemma RowFailure(arr: array2<Cell>, B: nat, i: nat, m: nat)
    requires i < arr.Length0 && m < ReadsPerRow(B)
    requires forall m' :: 0 <= m' < m ==> CellReadable(arr, i, m')
    requires !CellReadable(arr, i, m)
    ensures !RowWritable(arr, i, B)
    ensures Column(m) < arr.Length1 ==> RowRaisedBy(arr, B, i, CellTypeError(i, Column(m)))
    ensures arr.Length1 <= Column(m) ==> RowRaisedBy(arr, B, i, CellIndexError(i, Column(m)))
  {
    assert (Column(m) + 1) / 2 == m;
    forall m' | 0 <= m' < ReadsPerRow(B) && Column(m') < Column(m) ensures CellReadable(arr, i, m') {
      assert m' < m;
    }
  }

  /** A row's exception, raised after every earlier row was written, is the
      exception of the whole writer. */
  lemma RowRaisedWriteRaised(arr: array2<Cell>, K: nat, B: nat, i: nat, e: ScriptError)
    requires K < arr.Length0 && i < K
    requires forall r :: 0 <= r < i ==> RowWritable(arr, r, B)
    requires RowRaisedBy(arr, B, i, e)
    ensures WriteRaisedBy(arr, K, B, e)
  {
  }

  /** Row `i` of the columned writer: `stringline` starts empty (it is reset
      after every row) and gets one token and one space per cell read. */
  method WriteRow(arr: array2<Cell>, K: nat, B: nat, i: nat) returns (r: Result<string, ScriptError>)
    requires arr.Length0 == K + 1 && arr.Length1 == 2 * B + 1 && i < K
    ensures r.Success? <==> RowWritable(arr, i, B)
    ensures r.Failure? ==> RowRaisedBy(arr, B, i, r.error)
    ensures r.Success? ==> r.value == Spaced(RowTokens(arr, i, B))
  {
    var stringline := "";
    // `stringline + arr[i][0] + " " + arr[i][1] + " "`, left to right
    if arr[i, 0].Zero? {
      RowFailure(arr, B, i, 0);
      r := Failure(CellTypeError(i, 0));
      return;
    }
    if arr.Length1 <= 1 {
      assert CellReadable(arr, i, 0);
      RowFailure(arr, B, i, 1);
      r := Failure(CellIndexError(i, 1));
      return;
    }
    if arr[i, 1].Zero? {
      assert CellReadable(arr, i, 0);
      RowFailure(arr, B, i, 1);
      r := Failure(CellTypeError(i, 1));
      return;
    }
    assert CellReadable(arr, i, 0) && CellReadable(arr, i, 1);
    RowPrefixStep(arr, i, 0);
    RowPrefixStep(arr, i, 1);
    stringline := stringline + arr[i, 0].text + " " + arr[i, 1].text + " ";
    r := AppendValues(arr, K, B, i, stringline);
  }

  /** The loop `for j in range(1, B)` of the columned writer: the value fields
      of bands `1 .. B-1`, read from the odd columns `3, 5, ...`, each
      appended with one space to the line holding the first two tokens. */
  method AppendValues(arr: array2<Cell>, K: nat, B: nat, i: nat, line: string) returns (r: Result<string, ScriptError>)
    requires arr.Length0 == K + 1 && arr.Length1 == 2 * B + 1 && i < K && B > 0
    requires CellReadable(arr, i, 0) && CellReadable(arr, i, 1)
    requires line == Spaced(RowPrefix(arr, i, 2))
    ensures r.Success? <==> RowWritable(arr, i, B)
    ensures r.Failure? ==> RowRaisedBy(arr, B, i, r.error)
    ensures r.Success? ==> r.value == Spaced(RowTokens(arr, i, B))
  {
    var stringline := line;
    var j := 1;
    while j < B
      invariant 1 <= j <= B
      invariant forall m :: 0 <= m <= j ==> CellReadable(arr, i, m)
      invariant stringline == Spaced(RowPrefix(arr, i, j + 1))
    {
      assert Column(j + 1) == 2 * j + 1;
      if arr[i, 2 * j + 1].Zero? {
        RowFailure(arr, B, i, j + 1);
        r := Failure(CellTypeError(i, 2 * j + 1));
        return;
      }
      assert CellReadable(arr, i, j + 1);
      RowPrefixStep(arr, i, j + 1);
      stringline := stringline + arr[i, 2 * j + 1].text + " ";
      j := j + 1;
    }
    r := Success(stringline);
  }

  /** The row loop of the columned writer: each row, then a newline. */
  method WriteColumns(arr: array2<Cell>, K: nat, B: nat) returns (r: Result<seq<string>, ScriptError>)
    requires arr.Length0 == K + 1 && arr.Length1 == 2 * B + 1
    ensures r.Success? <==> Writable(arr, K, B)
    ensures r.Failure? ==> WriteRaisedBy(arr, K, B, r.error)
    ensures r.Success? ==> |r.value| == K
    ensures r.Success? ==> forall k :: 0 <= k < K ==>
              r.value[k] == Spaced(RowTokens(arr, k, B)) + "\n"
  {
    var out: seq<string> := [];
    var i := 0;
    while i < K
      invariant 0 <= i <= K
      invariant |out| == i
      invariant forall k :: 0 <= k < i ==> RowWritable(arr, k, B)
      invariant forall k :: 0 <= k < i ==> out[k] == Spaced(RowTokens(arr, k, B)) + "\n"
    {
      var row := WriteRow(arr, K, B, i);
      if row.Failure? {
        r := Failure(row.error);
        RowRaisedWriteRaised(arr, K, B, i, r.error);
        WriteRaisedNotWritable(arr, K, B, r.error);
        return;
      }
      out := out + [row.value + "\n"];
      i := i + 1;
    }
    r := Success(out);
  }

  /** The columned file for eigenvalues `eps`: row `k` is the k-index and
      then the value of every band, each followed by one space. */
  function ColumnFile(eps: seq<seq<string>>, K: nat, B: nat): seq<string>
    requires IsMatrix(eps, K, B)
  {
    seq(K, k requires 0 <= k < K => Spaced([NatToString(k)] + eps[k]) + "\n")
  }

  /** The whole reshaping step: write the band file, read it back into the
      scratch table, write the table out in columns. With no bands and at
      least one k-point the writer hits the 0 left in `arr[0][0]`. */
  method Reshape(eps: seq<seq<string>>, K: nat, B: nat)
    returns (blockLines: seq<string>, columns: Result<seq<string>, ScriptError>)
    requires IsMatrix(eps, K, B)
    ensures blockLines == BlockFile(eps, K, B)
    ensures columns.Success? <==> (K == 0 || B > 0)
    ensures columns.Success? ==> columns.value == ColumnFile(eps, K, B)
    ensures K > 0 && B == 0 ==> columns == Failure(CellTypeError(0, 0))
  {
    blockLines := WriteBlocks(eps, K, B);
    BlockFileFields(eps, K, B);
    var arr, err, cursor := ParseBlocks(blockLines, K, B);
    assert err.None?;
    columns := WriteColumns(arr, K, B);
    if B > 0 {
      ParsedRows(arr, eps, K, B);
    } else if K > 0 {
      assert arr[0, 0] == Zero;
      assert !CellReadable(arr, 0, 0);
      assert !RowWritable(arr, 0, B);
      assert columns.error.row == 0;
    }
  }

  /** Every line the parser reads in a band file holds the k-index and the
      value, so the file is parsable. */
  lemma BlockFileFields(eps: seq<seq<string>>, K: nat, B: nat)
    requires IsMatrix(eps, K, B)
    ensures Parsable(BlockFile(eps, K, B), K, B)
    ensures forall i, k :: 0 <= i < B && 0 <= k < K ==>
              Split(BlockFile(eps, K, B)[Pos(i, k, K)]) == [NatToString(k), eps[k][i]]
  {
    BlocksAt(eps, K, B, B);
    forall i, k | 0 <= i < B && 0 <= k < K
      ensures Readable(BlockFile(eps, K, B), Pos(i, k, K))
      ensures Split(BlockFile(eps, K, B)[Pos(i, k, K)]) == [NatToString(k), eps[k][i]]
    {
      DataLineFields(k, eps[k][i]);
    }
  }

  /** A table filled from the band file of `eps` is writable, and row `k`
      gets the k-index of band 0 followed by the values of all bands. */
  lemma ParsedRows(arr: array2<Cell>, eps: seq<seq<string>>, K: nat, B: nat)
    requires IsMatrix(eps, K, B) && B > 0
    requires arr.Length0 == K + 1 && arr.Length1 == 2 * B + 1
    requires forall i, k :: 0 <= i < B && 0 <= k < K ==>
               arr[k, 2 * i] == Tok(NatToString(k)) && arr[k, 2 * i + 1] == Tok(eps[k][i])
    ensures Writable(arr, K, B)
    ensures forall k :: 0 <= k < K ==> RowTokens(arr, k, B) == [NatToString(k)] + eps[k]
  {
    forall k | 0 <= k < K
      ensures RowWritable(arr, k, B) && RowTokens(arr, k, B) == [NatToString(k)] + eps[k]
    {
      var row := [NatToString(k)] + eps[k];
      forall m | 0 <= m < B + 1
        ensures CellReadable(arr, k, m) && arr[k, Column(m)].text == row[m]
      {
        if m > 0 {
          assert Column(m) == 2 * (m - 1) + 1 && row[m] == eps[k][m - 1];
        } else {
          // names `eps[k][0]`, which instantiates the requires at band 0
          assert |eps[k]| == B && IsToken(eps[k][0]);
          assert arr[k, 0] == Tok(NatToString(k));
        }
      }
      RowPrefixIs(arr, k, B + 1, row);
    }
  }

  lemma {:induction false} RowPrefixIs(arr: array2<Cell>, r: nat, n: nat, row: seq<string>)
    requires r < arr.Length0 && n <= |row|
    requires forall m :: 0 <= m < n ==> CellReadable(arr, r, m) && arr[r, Column(m)].text == row[m]
    ensures RowPrefix(arr, r, n) == row[..n]
  {
    if n > 0 {
      RowPrefixIs(arr, r, n - 1, row);
      assert row[..n] == row[..n - 1] + [row[n - 1]];
    }
  }

  /** Row `k` of the columned file has `1 + B` fields: the k-index, which
      denotes `k`, and the value of each band in increasing band order. */
  lemma ColumnRowFields(eps: seq<seq<string>>, K: nat, B: nat, k: nat)
    requires IsMatrix(eps, K, B) && k < K
    ensures Split(ColumnFile(eps, K, B)[k]) == [NatToString(k)] + eps[k]
    ensures |Split(ColumnFile(eps, K, B)[k])| == 1 + B
    ensures DecimalValue(Split(ColumnFile(eps, K, B)[k])[0]) == k
  {
    SplitSpacedLine([NatToString(k)] + eps[k]);
    DecimalRoundTrip(k);
  }

  /** Transposition: field `1 + b` of row `k` of the columned file is the
      value on line `k` of block `b` of the band file. */
  lemma Transposition(eps: seq<seq<string>>, K: nat, B: nat, k: nat, b: nat)
    requires IsMatrix(eps, K, B) && k < K && b < B
    ensures Pos(b, k, K) < |BlockFile(eps, K, B)|
    ensures |Split(ColumnFile(eps, K, B)[k])| == 1 + B
    ensures |Split(BlockFile(eps, K, B)[Pos(b, k, K)])| == 2
    ensures Split(ColumnFile(eps, K, B)[k])[1 + b] == Split(BlockFile(eps, K, B)[Pos(b, k, K)])[1]
  {
    BlocksAt(eps, K, B, B);
    DataLineFields(k, eps[k][b]);
    ColumnRowFields(eps, K, B, k);
  }

  /** Reading a columned file back: the fields of each row after the k-index. */
  function ColumnsToMatrix(rows: seq<string>): seq<seq<string>> {
    seq(|rows|, k requires 0 <= k < |rows| =>
      var fields := Split(rows[k]); if fields == [] then [] else fields[1..])
  }

  /** Round trip: splitting the columned rows back into per-band values gives
      the eigenvalue matrix exactly, and so the same band file. */
  lemma ColumnsRoundTrip(eps: seq<seq<string>>, K: nat, B: nat)
    requires IsMatrix(eps, K, B)
    ensures ColumnsToMatrix(ColumnFile(eps, K, B)) == eps
    ensures BlockFile(ColumnsToMatrix(ColumnFile(eps, K, B)), K, B) == BlockFile(eps, K, B)
  {
    var rows := ColumnFile(eps, K, B);
    forall k | 0 <= k < K ensures ColumnsToMatrix(rows)[k] == eps[k] {
      ColumnRowFields(eps, K, B, k);
      assert ([NatToString(k)] + eps[k])[1..] == eps[k];
    }
  }
}
