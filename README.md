# Band-structure reshaping of `PW-Electronic-changename.py`

After its band-structure calculation, the gpaw-tools script writes the
eigenvalues as a block file, `<name>-3-Result-Band.dat`. Each band is one
block: `K` lines `k value`, one per k-point, then a blank line. The script
then reads that file back into a scratch table `arr`. The table has `K + 1`
rows and `2B + 1` columns and starts filled with the integer 0. Parsing
uses a running line cursor `a`. Finally the script writes the table out
transposed, one row per k-point, as
`<name>-3-Result-Band-withColumns.dat`. The same script also writes the
density of states as `energy, weight` lines, in `<name>-2-Result-DOS.txt`.

This project models those four steps. Here `K` is `band_npoints` and `B` is
`num_of_bands`.

- `Text`:
  - Python's `str.split()` with no argument (`Split`);
  - `str(k)` for a k-index (`NatToString`);
  - the layout "every token followed by one space" (`Spaced`).
- `DosOutput`:
  - the line `print(*x, sep=", ")` writes (`DosLine`);
  - the `zip` writer of the DOS table (`WriteDos`);
  - its specification, `DosFile`;
  - a reader for its lines, `ParseDosLine`.
- `BandBlocks`:
  - the line `print(k, value)` writes (`DataLine`);
  - the block writer (`WriteBlocks`);
  - the block-file layout (`BlockFile`, `Pos`);
  - the sequence of lines the parser's cursor visits (`ReadPositions`).
- `BandParse`:
  - the parser (`ParseBlocks` → `ReadBand` → `ReadPoint`). It fills an
    `array2<Cell>` in place: a `Cell` is the initial `Zero` or a copied
    field `Tok(text)`;
  - the `IndexError`s the parser raises, each recorded at the first read
    that fails.
- `BandColumns`:
  - the columned writer (`WriteColumns` → `WriteRow` → `AppendValues`);
  - the `TypeError`s (a cell still holding 0) and `IndexError`s it raises;
  - the whole pipeline (`Reshape`), with its transposition and round-trip
    lemmas.
- `Errors`: `Option`, `Result`, and the script's exceptions as values.

A file is a sequence of lines, each one ending in its `"\n"`. That is what
`print` and `write` emit and what `readlines` returns, so reading a file
back is the identity. Eigenvalues, energies and weights are opaque tokens:
non-empty strings with no whitespace.

Details of the code that the model keeps:

- The columned writer puts a space after every token, the last one
  included. A row for `K = 3`, `B = 2` is `"0 1.0 4.0 \n"`. `ColumnFile`
  states that layout, and `ColumnRowFields` shows that it splits into
  exactly the k-index and the `B` values.
- The parser's inner `for a in range(a, a + K)` leaves `a` on the last line
  of the block, and `a = a + 2` then steps over the blank line.
  `ReadBand` and `PosNextBand` prove this.
- When `K = 0` the range is empty and does not rebind `a`, so the cursor
  is `2i` before band `i`. Nothing is read in that case.
- When `B = 0` and `K >= 1`, the writer evaluates `"" + arr[0][0]` on the
  integer 0 and raises `TypeError`. `Reshape` states this outcome.

## Model

| member | source | states |
|---|---|---|
| `Text.TokenLength` | PW-Electronic-changename.py:151 | the length of the longest whitespace-free prefix: every character before it is not a space, and the next one, if any, is |
| `Text.Split` | PW-Electronic-changename.py:151 | `str.split()`: every field it returns is a non-empty, whitespace-free token |
| `Text.SplitLeadingToken` | PW-Electronic-changename.py:151 | a token followed by whitespace or by nothing is split off as the first field, and the rest is split on its own |
| `Text.SplitPairLine` | PW-Electronic-changename.py:151 | the line `print(a, b)` writes for two tokens splits into exactly `[a, b]` |
| `Text.SpacedSnoc` | PW-Electronic-changename.py:162-164 | appending a token and one space to a line is the layout of the token list extended by that token |
| `Text.SplitSpacedLine` | PW-Electronic-changename.py:162-165 | a line of tokens, each followed by one space, then `"\n"`, splits back into exactly those tokens |
| `Text.NatToString` | PW-Electronic-changename.py:135 | `str(k)` is a non-empty token made of decimal digits only |
| `Text.DecimalRoundTrip` | PW-Electronic-changename.py:135 | the digits written for `k` denote `k` |
| `DosOutput.DosFileAt` | PW-Electronic-changename.py:87-88 | the DOS file has `min(#energies, #weights)` lines, and line `j` is `energies[j] + ", " + weights[j] + "\n"` |
| `DosOutput.WriteDos` | PW-Electronic-changename.py:86-89 | the `zip` loop writes `min` lines, line `j` pairing the `j`-th energy with the `j`-th weight, and its output is `DosFile` |
| `DosOutput.ParseDosLine` | PW-Electronic-changename.py:88 | a DOS line reads back, when well formed, as a pair whose weight is a token |
| `DosOutput.DosLineRoundTrip` | PW-Electronic-changename.py:88 | one written DOS line reads back as exactly the pair it was written from |
| `DosOutput.DosRoundTrip` | PW-Electronic-changename.py:86-89 | reading every line of the DOS file back recovers the pairs `zip` produced, truncated to the shorter list |
| `BandBlocks.OffsetIsProduct` | PW-Electronic-changename.py:133-136 | the line number `Pos(n, k, K)` is `n * (K + 1) + k` |
| `BandBlocks.OffsetBelow` | PW-Electronic-changename.py:133-136 | every line of block `i` comes before the first line of any later block |
| `BandBlocks.PosNextBand` | PW-Electronic-changename.py:150-155 | two lines after the last data line of band `n` is the first data line of band `n + 1`: `a = a + 2` steps over the blank line |
| `BandBlocks.PosInjective` | PW-Electronic-changename.py:133-136 | distinct (band, point) pairs, the blank line included, are on distinct lines |
| `BandBlocks.BlocksLength` | PW-Electronic-changename.py:133-136 | the first `n` blocks have `K + 1` lines each |
| `BandBlocks.BlocksLine` | PW-Electronic-changename.py:134-136 | line `Pos(i, k, K)` of the file is `k eps[k][i]` for `k < K`, and the blank line for `k = K` |
| `BandBlocks.BlocksAt` | PW-Electronic-changename.py:133-136 | the layout of the first `n` blocks: their length, every data line and every blank separator |
| `BandBlocks.WriteBlocks` | PW-Electronic-changename.py:132-137 | the writer outputs `BlockFile`: `B * (K + 1)` lines, line `n*(K+1)+k` is `k eps[k][n]`, and line `n*(K+1)+K` is blank |
| `BandBlocks.ReadPositionsAt` | PW-Electronic-changename.py:148-155 | the parser makes `K` reads per band, and read number `i*K + k` is from line `Pos(i, k, K)` |
| `BandBlocks.ReadCount` | PW-Electronic-changename.py:148-150 | the parser makes `B * K` reads in all |
| `BandBlocks.CursorSkipsSeparators` | PW-Electronic-changename.py:148-155 | in a band file, every line the cursor visits exists, is not a blank separator, and has fields |
| `BandBlocks.DataLineFields` | PW-Electronic-changename.py:135 | a data line splits into exactly the k-index and the value |
| `BandParse.FilledCells` | PW-Electronic-changename.py:142-153 | once every band has been read, `arr[k][2i]` and `arr[k][2i+1]` hold the two fields of line `Pos(i, k, K)`, and row `K` and column `2B` are still 0 |
| `BandParse.RaisedNotParsable` | PW-Electronic-changename.py:151-153 | if the parser raised, some line it had to read was missing or had too few fields |
| `BandParse.ReadPoint` | PW-Electronic-changename.py:151-153 | one step of the point loop: `IndexError` for a missing line or a line with no field, with the table unchanged; `IndexError` for a line with one field, after `fields[0]` is stored in `arr[b][2i]` and with every other cell unchanged; otherwise both fields go into their cells and no other cell changes |
| `BandParse.ReadBand` | PW-Electronic-changename.py:149-154 | the point loop of band `i`: reads lines `Pos(i, 0, K) .. Pos(i, K-1, K)`, leaves `a` on the last one read (unchanged when `K = 0`) and fills columns `2i` and `2i+1`; otherwise it raises at the first bad read, having visited the lines of band `i` up to and including the failing one; then the points before the failing one hold both fields, the failing point holds `fields[0]` in column `2i` only when its line had exactly one field, and every other cell (the other bands' columns, the last column, and the later rows of band `i`) keeps its value |
| `BandParse.ParseBlocks` | PW-Electronic-changename.py:142-155 | returns a `(K+1) x (2B+1)` table that started as all 0s; it succeeds exactly when every line it must read exists and has two fields, and otherwise raises at the first failing read; on success the cursor has visited `ReadPositions(K, B)` in order, and on an exception at point `p` of band `n` it has visited `ReadPositions(K, n)` and then band `n`'s lines up to point `p`; on success, columns `2i` and `2i+1` hold the fields of band `i`, and row `K` and column `2B` stay 0 |
| `BandColumns.WriteRaisedNotWritable` | PW-Electronic-changename.py:162-164 | if the columned writer raised, some cell it reads was missing or still 0 |
| `BandColumns.RowFailure` | PW-Electronic-changename.py:162-164 | the first bad cell of a row gives `TypeError` when it exists and holds 0, and `IndexError` when it is past the end of the row |
| `BandColumns.RowRaisedWriteRaised` | PW-Electronic-changename.py:161-164 | an exception in row `i`, after all earlier rows were written, is the writer's first exception |
| `BandColumns.WriteRow` | PW-Electronic-changename.py:162 | row `i` starts from an empty line; cells are checked in Python's evaluation order, `arr[i][0]` then `arr[i][1]`; the row succeeds exactly when every cell it reads holds a string, and its text is those tokens, each followed by one space |
| `BandColumns.AppendValues` | PW-Electronic-changename.py:163-164 | the `j` loop appends the value fields of bands `1 .. B-1`, from the odd columns, each followed by one space, or raises at the first cell still holding 0 |
| `BandColumns.WriteColumns` | PW-Electronic-changename.py:158-168 | succeeds exactly when every row is writable, and otherwise raises at the first bad cell; on success there are `K` lines, and line `k` is row `k`'s tokens, each followed by one space, then `"\n"` (no tokens carry over from the previous row) |
| `BandColumns.BlockFileFields` | PW-Electronic-changename.py:133-153 | a block file is parsable, and each line the parser reads splits into `[str(k), eps[k][i]]` |
| `BandColumns.ParsedRows` | PW-Electronic-changename.py:152-164 | a table filled from the block file of `eps` is writable, and row `k` holds the k-index of band 0 followed by `eps[k][0 .. B-1]`; the k-fields in the even columns of bands 1 and up are never written |
| `BandColumns.Reshape` | PW-Electronic-changename.py:132-168 | the whole pipeline: the block file is `BlockFile`; the columned output is `ColumnFile` (row `k` = `k`, then the values of every band in band order) whenever `K = 0` or `B > 0`; with `B = 0` and `K > 0` it is `TypeError` at `arr[0][0]` |
| `BandColumns.ColumnRowFields` | PW-Electronic-changename.py:161-165 | row `k` of the columned file has `1 + B` fields: the k-index, which denotes `k`, then `eps[k]` in band order |
| `BandColumns.Transposition` | PW-Electronic-changename.py:133-164 | field `1 + b` of row `k` of the columned file is the value field of line `k` of block `b` of the block file |
| `BandColumns.ColumnsRoundTrip` | PW-Electronic-changename.py:132-168 | splitting the columned rows back into values gives the eigenvalue matrix exactly, so the block file it yields is the original one |

## Left out

- The GPAW/ASE calculations are not modelled: the ground state, the relaxation, `DOS`, `band_structure`, `get_fermi_level` and `get_eigenvalues`. They are calls into an external DFT engine. The eigenvalue matrix and the DOS vectors are inputs.
- Floating-point arithmetic (`- ef`) and the rendering of numpy floats by `print` are not modelled. Values are opaque whitespace-free tokens.
- `WriteBlocks`: takes exactly `num_of_bands` eigenvalues per k-point. Any further bands the calculator returns are not represented, because the writer never reads them.
- File I/O (`open`, `readlines`, `write`, `close`) is not modelled. Files are sequences of lines, and the block file reads back exactly as written. That holds for a single process only. Lines 126-168 have no `world.rank` guard, so under `gpaw -P8` (the launch the usage comment at line 18 gives) every rank truncates and rewrites `-3-Result-Band.dat`, and one rank may read it while another is rewriting it.
- Plotting, MPI rank guards, CIF export and file-name construction are not modelled. They are user interface, concurrency, library output or plain string concatenation around I/O.
- The other scripts of the repository are not modelled. The cut-off, lattice and k-point optimisation sweeps wrap external energy calculations, and the example input files only assign parameters.
- `BandParse.ParseBlocks`: after an exception it states which exception was raised and where, but not the partly filled table. The script stops at that point, so no later step reads it.
- `BandColumns.WriteColumns`: after an exception it states the exception but not the partial output file, which the script never closes.
