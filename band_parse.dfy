/** Reading the band file back into a scratch table: a `(K + 1) x (2B + 1)`
    table of zeros in which column `2i` receives the k-field and column
    `2i + 1` the value field of band `i`, read with a running line cursor. */
module BandParse {
  import opened Text
  import opened Errors
  import opened BandBlocks

  /** A cell of the scratch table: the integer 0 it starts with, or a field
      copied from a line. */
  datatype Cell = Zero | Tok(text: string)

  /** The line at `p` exists and has at least the two fields the parser takes. */
  predicate Readable(lines: seq<string>, p: nat) {
    p < |lines| && |Split(lines[p])| >= 2
  }

  /** Every line the parser reads exists and has two fields. */
  predicate Parsable(lines: seq<string>, K: nat, B: nat) {
    forall i, k :: 0 <= i < B && 0 <= k < K ==> Readable(lines, Pos(i, k, K))
  }

  /** Every read that comes before point `point` of band `band` succeeds. */
  predicate ReadableBefore(lines: seq<string>, K: nat, B: nat, band: nat, point: nat) {
    forall i, k :: 0 <= i < B && 0 <= k < K && (i < band || (i == band && k < point)) ==>
      Readable(lines, Pos(i, k, K))
  }

  /** `e` is the exception the parser raises on `lines`: at the first read, in
      reading order, that finds no line or too few fields. */
  predicate RaisedBy(lines: seq<string>, K: nat, B: nat, e: ScriptError) {
    match e
    case LineIndexError(band, point, line) =>
      band < B && point < K && line == Pos(band, point, K) && |lines| <= line &&
      ReadableBefore(lines, K, B, band, point)
    case FieldIndexError(band, point, line, field) =>
      band < B && point < K && line == Pos(band, point, K) && line < |lines| &&
      field == |Split(lines[line])| && field < 2 &&
      ReadableBefore(lines, K, B, band, point)
    case _ => false
  }

  /** Field `f` (0 or 1) of the line of point `r` of band `n`. */
  function Field(lines: seq<string>, K: nat, n: nat, r: nat, f: nat): Cell
    requires Readable(lines, Pos(n, r, K)) && f < 2
  {
    Tok(Split(lines[Pos(n, r, K)])[f])
  }

  /** Whether point `r` of band `n` has been read, once every band before
      `band` and the first `point` points of band `band` have been. */
  predicate Done(K: nat, band: nat, point: nat, n: nat, r: nat) {
    r < K && (n < band || (n == band && r < point))
  }

  /** The table once every band before `band`, and the first `point` points of
      band `band`, have been read: columns `2n` and `2n + 1` hold the two
      fields of each line read for band `n`, and every other cell, the last
      column included, still holds 0. */
  ghost predicate FilledUpTo(arr: array2<Cell>, lines: seq<string>, K: nat, B: nat, band: nat, point: nat)
    reads arr
    requires arr.Length0 == K + 1 && arr.Length1 == 2 * B + 1
    requires band <= B && point <= K && (band < B || point == 0)
    requires ReadableBefore(lines, K, B, band, point)
  {
    (forall r, n :: 0 <= r <= K && 0 <= n < B ==>
       arr[r, 2 * n] == (if Done(K, band, point, n, r) then Field(lines, K, n, r, 0) else Zero) &&
       arr[r, 2 * n + 1] == (if Done(K, band, point, n, r) then Field(lines, K, n, r, 1) else Zero)) &&
    (forall r :: 0 <= r <= K ==> arr[r, 2 * B] == Zero)
  }

  /** Since the start of the call, only the cells of band `i` (columns `2i`
      and `2i + 1`) in rows before `from` can have changed. */
  twostate predicate KeptOutside(arr: array2<Cell>, i: nat, from: nat)
    reads arr
  {
    forall r, c | 0 <= r < arr.Length0 && 0 <= c < arr.Length1 ::
      (c != 2 * i && c != 2 * i + 1) || from <= r ==> arr[r, c] == old(arr[r, c])
  }

  lemma ReadableBeforeNext(lines: seq<string>, K: nat, B: nat, band: nat, point: nat)
    requires band < B && point < K
    requires ReadableBefore(lines, K, B, band, point)
    requires Readable(lines, Pos(band, point, K))
    ensures ReadableBefore(lines, K, B, band, point + 1)
  {
  }

  lemma ReadableBeforeNextBand(lines: seq<string>, K: nat, B: nat, band: nat)
    requires band < B
    requires ReadableBefore(lines, K, B, band, K)
    ensures ReadableBefore(lines, K, B, band + 1, 0)
  {
  }

  /** After the last band, the table holds every field in its column and 0 in
      the last row and the last column. */
  lemma FilledCells(arr: array2<Cell>, lines: seq<string>, K: nat, B: nat)
    requires arr.Length0 == K + 1 && arr.Length1 == 2 * B + 1
    requires ReadableBefore(lines, K, B, B, 0)
    requires FilledUpTo(arr, lines, K, B, B, 0)
    ensures Parsable(lines, K, B)
    ensures forall i, k :: 0 <= i < B && 0 <= k < K ==>
              arr[k, 2 * i] == Tok(Split(lines[Pos(i, k, K)])[0]) &&
              arr[k, 2 * i + 1] == Tok(Split(lines[Pos(i, k, K)])[1])
    ensures forall c :: 0 <= c <= 2 * B ==> arr[K, c] == Zero
    ensures forall r :: 0 <= r <= K ==> arr[r, 2 * B] == Zero
  {
    forall i, k | 0 <= i < B && 0 <= k < K
      ensures arr[k, 2 * i] == Tok(Split(lines[Pos(i, k, K)])[0]) &&
              arr[k, 2 * i + 1] == Tok(Split(lines[Pos(i, k, K)])[1])
    {
      assert Done(K, B, 0, i, k);
    }
    forall i | 0 <= i < B ensures arr[K, 2 * i] == Zero && arr[K, 2 * i + 1] == Zero {
      assert !Done(K, B, 0, i, K);
    }
    forall c | 0 <= c <= 2 * B ensures arr[K, c] == Zero {
      if c < 2 * B {
        var i := c / 2;
        assert c == 2 * i || c == 2 * i + 1;
      }
    }
  }

  /** An exception raised by the parser means the lines were not parsable. */
  lemma RaisedNotParsable(lines: seq<string>, K: nat, B: nat, e: ScriptError)
    requires RaisedBy(lines, K, B, e)
    ensures !Parsable(lines, K, B)
  {
    assert !Readable(lines, Pos(e.band, e.point, K));
  }

  /** The parsing loops. `cursor` records the line number `a` at each read,
      the failing read included. */
  method ParseBlocks(lines: seq<string>, K: nat, B: nat)
    returns (arr: array2<Cell>, err: Option<ScriptError>, ghost cursor: seq<nat>)
    ensures arr.Length0 == K + 1 && arr.Length1 == 2 * B + 1
    ensures err.None? <==> Parsable(lines, K, B)
    ensures err.Some? ==> RaisedBy(lines, K, B, err.value)
    ensures err.None? ==> cursor == ReadPositions(K, B)
    ensures err.Some? ==>
              err.value.band < B && err.value.point < K &&
              cursor == ReadPositions(K, err.value.band) + BandReads(err.value.band, K)[..err.value.point + 1]
    ensures err.None? ==> forall i, k :: 0 <= i < B && 0 <= k < K ==>
              arr[k, 2 * i] == Tok(Split(lines[Pos(i, k, K)])[0]) &&
              arr[k, 2 * i + 1] == Tok(Split(lines[Pos(i, k, K)])[1])
    ensures err.None? ==> forall c :: 0 <= c <= 2 * B ==> arr[K, c] == Zero
    ensures err.None? ==> forall r :: 0 <= r <= K ==> arr[r, 2 * B] == Zero
  {
    arr := new Cell[K + 1, 2 * B + 1]((_, _) => Zero);
    cursor := [];
    var a := 0;
    var i := 0;
    while i < B
      invariant 0 <= i <= B
      invariant a == if K == 0 then 2 * i else Pos(i, 0, K)
      invariant ReadableBefore(lines, K, B, i, 0)
      invariant FilledUpTo(arr, lines, K, B, i, 0)
      invariant cursor == ReadPositions(K, i)
    {
      ghost var visited;
      a, err, visited := ReadBand(arr, lines, K, B, i, a);
      cursor := cursor + visited;
      if err.Some? {
        RaisedNotParsable(lines, K, B, err.value);
        return;
      }
      if K > 0 {
        PosNextBand(i, K);
      }
      a := a + 2;
      i := i + 1;
    }
    FilledCells(arr, lines, K, B);
    err := None;
  }

  /** One pass of the band loop: `for a in range(a, a + K)` reads the `K`
      lines of band `i`. The range is fixed on entry and `a` is rebound at
      each step, so the cursor is left on the last line read (or where it
      was, when `K == 0`). */
  method ReadBand(arr: array2<Cell>, lines: seq<string>, K: nat, B: nat, i: nat, a0: nat)
    returns (a: nat, err: Option<ScriptError>, ghost visited: seq<nat>)
    requires arr.Length0 == K + 1 && arr.Length1 == 2 * B + 1
    requires i < B && a0 == if K == 0 then 2 * i else Pos(i, 0, K)
    requires ReadableBefore(lines, K, B, i, 0)
    requires FilledUpTo(arr, lines, K, B, i, 0)
    modifies arr
    ensures err.Some? ==> RaisedBy(lines, K, B, err.value)
    ensures err.Some? ==>
              err.value.band == i && err.value.point < K &&
              visited == BandReads(i, K)[..err.value.point + 1]
    ensures err.Some? ==> KeptOutside(arr, i, err.value.point + 1)
    ensures err.Some? ==> forall r :: 0 <= r < err.value.point ==>
              Readable(lines, Pos(i, r, K)) &&
              arr[r, 2 * i] == Field(lines, K, i, r, 0) && arr[r, 2 * i + 1] == Field(lines, K, i, r, 1)
    ensures err.Some? ==>
              arr[err.value.point, 2 * i + 1] == old(arr[err.value.point, 2 * i + 1]) &&
              arr[err.value.point, 2 * i] ==
                if err.value.FieldIndexError? && err.value.field == 1
                then Tok(Split(lines[err.value.line])[0]) else old(arr[err.value.point, 2 * i])
    ensures err.None? ==> a == (if K == 0 then a0 else a0 + K - 1)
    ensures err.None? ==> ReadableBefore(lines, K, B, i + 1, 0)
    ensures err.None? ==> FilledUpTo(arr, lines, K, B, i + 1, 0)
    ensures err.None? ==> visited == BandReads(i, K)
  {
    a := a0;
    visited := [];
    var b := 0;
    var t := a0;
    while t < a0 + K
      invariant a0 <= t <= a0 + K
      invariant b == t - a0
      invariant a == if t == a0 then a0 else t - 1
      invariant ReadableBefore(lines, K, B, i, b)
      invariant FilledUpTo(arr, lines, K, B, i, b)
      invariant visited == seq(b, k requires 0 <= k < b => Pos(i, k, K))
      invariant KeptOutside(arr, i, b)
    {
      a := t;
      OffsetShift(i, b, K + 1);
      OffsetShift(i, 0, K + 1);
      assert a == Pos(i, b, K);
      visited := visited + [a];
      err := ReadPoint(arr, lines, K, B, i, b, a);
      if err.Some? {
        assert visited == BandReads(i, K)[..b + 1];
        return;
      }
      b := b + 1;
      t := t + 1;
    }
    ReadableBeforeNextBand(lines, K, B, i);
    assert visited == BandReads(i, K);
    err := None;
  }

  /** The body of the point loop: `fields = lines[a].split()`, then
      `arr[b][2*i] = fields[0]` and `arr[b][2*i+1] = fields[1]`, each step
      raising `IndexError` when its index is out of range. */
  method ReadPoint(arr: array2<Cell>, lines: seq<string>, K: nat, B: nat, i: nat, b: nat, a: nat)
    returns (err: Option<ScriptError>)
    requires arr.Length0 == K + 1 && arr.Length1 == 2 * B + 1
    requires i < B && b < K && a == Pos(i, b, K)
    requires ReadableBefore(lines, K, B, i, b)
    requires FilledUpTo(arr, lines, K, B, i, b)
    modifies arr
    ensures KeptOutside(arr, i, b + 1)
    ensures err.Some? ==> RaisedBy(lines, K, B, err.value)
    ensures err.Some? ==> err.value.band == i && err.value.point == b
    ensures err.Some? && (err.value.LineIndexError? || err.value.field == 0) ==> unchanged(arr)
    ensures err.Some? && err.value.FieldIndexError? && err.value.field == 1 ==>
              a < |lines| && |Split(lines[a])| == 1 && arr[b, 2 * i] == Tok(Split(lines[a])[0]) &&
              forall r, c :: 0 <= r <= K && 0 <= c <= 2 * B && (r != b || c != 2 * i) ==>
                arr[r, c] == old(arr[r, c])
    ensures err.None? ==> ReadableBefore(lines, K, B, i, b + 1)
    ensures err.None? ==> FilledUpTo(arr, lines, K, B, i, b + 1)
  {
    if a >= |lines| {
      return Some(LineIndexError(i, b, a));
    }
    var fields := Split(lines[a]);
    if |fields| == 0 {
      return Some(FieldIndexError(i, b, a, 0));
    }
    arr[b, 2 * i] := Tok(fields[0]);
    if |fields| == 1 {
      return Some(FieldIndexError(i, b, a, 1));
    }
    arr[b, 2 * i + 1] := Tok(fields[1]);
    ReadableBeforeNext(lines, K, B, i, b);
    err := None;
  }
}
