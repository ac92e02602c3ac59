/** The band-structure file written band by band: for each band, one line
    `k value` per k-point and then one blank line. A file is its sequence of
    lines, each with its terminating newline, which is also what `readlines`
    gives back. Eigenvalues are the rendered numbers, kept as opaque tokens. */
module BandBlocks {
  import opened Text

  /** `eps[k][n]` is the eigenvalue token of band `n` at k-point `k`, for
      `K` k-points and `B` bands. */
  predicate IsMatrix(eps: seq<seq<string>>, K: nat, B: nat) {
    |eps| == K &&
    forall k :: 0 <= k < K ==> |eps[k]| == B && forall n :: 0 <= n < B ==> IsToken(eps[k][n])
  }

  /** `n * stride + k`, built by adding `stride` once per block so that the
      proofs about positions stay in linear arithmetic. */
  function Offset(n: nat, k: nat, stride: nat): nat {
    if n == 0 then k else Offset(n - 1, k, stride) + stride
  }

  /** The line number, from 0, of the line for point `k` of band `n` (the
      blank separator of band `n` when `k == K`): each block is `K + 1` lines. */
  function Pos(n: nat, k: nat, K: nat): nat {
    Offset(n, k, K + 1)
  }

  /** What `print(k, value)` writes. */
  function DataLine(k: nat, v: string): string {
    NatToString(k) + " " + v + "\n"
  }

  /** The first `k` data lines of band `n`. */
  function DataLines(eps: seq<seq<string>>, K: nat, B: nat, n: nat, k: nat): seq<string>
    requires IsMatrix(eps, K, B) && n < B && k <= K
  {
    seq(k, j requires 0 <= j < k => DataLine(j, eps[j][n]))
  }

  /** The block of band `n`: its `K` data lines, then the blank line. */
  function Block(eps: seq<seq<string>>, K: nat, B: nat, n: nat): seq<string>
    requires IsMatrix(eps, K, B) && n < B
  {
    DataLines(eps, K, B, n, K) + ["\n"]
  }

  /** The blocks of bands `0 .. n-1`, in band order. */
  function Blocks(eps: seq<seq<string>>, K: nat, B: nat, n: nat): seq<string>
    requires IsMatrix(eps, K, B) && n <= B
  {
    if n == 0 then [] else Blocks(eps, K, B, n - 1) + Block(eps, K, B, n - 1)
  }

  /** The whole band file. */
  function BlockFile(eps: seq<seq<string>>, K: nat, B: nat): seq<string>
    requires IsMatrix(eps, K, B)
  {
    Blocks(eps, K, B, B)
  }

  lemma {:induction false} OffsetIsProduct(n: nat, k: nat, stride: nat)
    ensures Offset(n, k, stride) == n * stride + k
  {
    if n > 0 {
      OffsetIsProduct(n - 1, k, stride);
      assert n * stride == (n - 1) * stride + stride;
    }
  }

  lemma {:induction false} OffsetShift(n: nat, k: nat, stride: nat)
    ensures Offset(n, k, stride) == Offset(n, 0, stride) + k
  {
    if n > 0 {
      OffsetShift(n - 1, k, stride);
    }
  }

  /** Every position inside block `i` lies before the start of any later block. */
  lemma {:induction false} OffsetBelow(i: nat, k: nat, n: nat, stride: nat)
    requires i < n && k < stride
    ensures Offset(i, k, stride) < Offset(n, 0, stride)
  {
    OffsetShift(i, k, stride);
    if n > i + 1 {
      OffsetBelow(i, k, n - 1, stride);
    }
  }

  /** From the last data line of band `n`, two lines further on is the first
      data line of band `n + 1`: the step over the blank separator. */
  lemma PosNextBand(n: nat, K: nat)
    requires K > 0
    ensures Pos(n, K - 1, K) + 2 == Pos(n + 1, 0, K)
  {
    OffsetShift(n, K - 1, K + 1);
  }

  /** Distinct (band, point) pairs sit on distinct lines. */
  lemma PosInjective(n: nat, k: nat, n': nat, k': nat, K: nat)
    requires k <= K && k' <= K
    requires Pos(n, k, K) == Pos(n', k', K)
    ensures n == n' && k == k'
  {
    OffsetShift(n, k, K + 1);
    OffsetShift(n', k', K + 1);
    if n < n' {
      OffsetBelow(n, k, n', K + 1);
    } else if n' < n {
      OffsetBelow(n', k', n, K + 1);
    }
  }

  /** The first `n` blocks take `K + 1` lines each. */
  lemma {:induction false} BlocksLength(eps: seq<seq<string>>, K: nat, B: nat, n: nat)
    requires IsMatrix(eps, K, B) && n <= B
    ensures |Blocks(eps, K, B, n)| == Pos(n, 0, K)
  {
    if n > 0 {
      BlocksLength(eps, K, B, n - 1);
    }
  }

  /** What line `k` of block `n` holds: its `k`-th data line, or the blank
      line when `k == K`. */
  function BlockLineAt(eps: seq<seq<string>>, K: nat, B: nat, n: nat, k: nat): string
    requires IsMatrix(eps, K, B) && n < B && k <= K
  {
    if k < K then DataLine(k, eps[k][n]) else "\n"
  }

  lemma BlockLine(eps: seq<seq<string>>, K: nat, B: nat, n: nat, k: nat)
    requires IsMatrix(eps, K, B) && n < B && k <= K
    ensures |Block(eps, K, B, n)| == K + 1
    ensures Block(eps, K, B, n)[k] == BlockLineAt(eps, K, B, n, k)
  {
  }

  /** The line at position `Pos(i, k, K)` of the first `n` blocks. */
  lemma {:induction false} BlocksLine(eps: seq<seq<string>>, K: nat, B: nat, n: nat, i: nat, k: nat)
    requires IsMatrix(eps, K, B) && n <= B && i < n && k <= K
    ensures Pos(i, k, K) < |Blocks(eps, K, B, n)|
    ensures Blocks(eps, K, B, n)[Pos(i, k, K)] == BlockLineAt(eps, K, B, i, k)
  {
    var prev, last := Blocks(eps, K, B, n - 1), Block(eps, K, B, n - 1);
    assert Blocks(eps, K, B, n) == prev + last;
    var p := Pos(i, k, K);
    if i < n - 1 {
      BlocksLine(eps, K, B, n - 1, i, k);
      assert (prev + last)[p] == prev[p];
    } else {
      BlocksLength(eps, K, B, n - 1);
      BlockLine(eps, K, B, n - 1, k);
      OffsetShift(i, k, K + 1);
      assert (prev + last)[p] == last[k];
    }
  }

  /** Layout of the first `n` blocks: `K + 1` lines per block; line
      `Pos(i, k, K)` is `k eps[k][i]` and line `Pos(i, K, K)` is blank. */
  lemma BlocksAt(eps: seq<seq<string>>, K: nat, B: nat, n: nat)
    requires IsMatrix(eps, K, B) && n <= B
    ensures |Blocks(eps, K, B, n)| == Pos(n, 0, K)
    ensures forall i, k :: 0 <= i < n && 0 <= k < K ==>
              Pos(i, k, K) < |Blocks(eps, K, B, n)| &&
              Blocks(eps, K, B, n)[Pos(i, k, K)] == DataLine(k, eps[k][i])
    ensures forall i :: 0 <= i < n ==>
              Pos(i, K, K) < |Blocks(eps, K, B, n)| && Blocks(eps, K, B, n)[Pos(i, K, K)] == "\n"
  {
    BlocksLength(eps, K, B, n);
    forall i, k | 0 <= i < n && 0 <= k <= K
      ensures Pos(i, k, K) < |Blocks(eps, K, B, n)| &&
              Blocks(eps, K, B, n)[Pos(i, k, K)] == BlockLineAt(eps, K, B, i, k)
    {
      BlocksLine(eps, K, B, n, i, k);
    }
  }

  /** The band loop of the writer: band by band, `K` data lines and a blank
      line each. */
  method WriteBlocks(eps: seq<seq<string>>, K: nat, B: nat) returns (lines: seq<string>)
    requires IsMatrix(eps, K, B)
    ensures lines == BlockFile(eps, K, B)
    ensures |lines| == B * (K + 1)
    ensures forall n, k :: 0 <= n < B && 0 <= k < K ==>
              Pos(n, k, K) < |lines| && lines[Pos(n, k, K)] == DataLine(k, eps[k][n])
    ensures forall n :: 0 <= n < B ==> Pos(n, K, K) < |lines| && lines[Pos(n, K, K)] == "\n"
  {
    lines := [];
    var n := 0;
    while n < B
      invariant 0 <= n <= B
      invariant lines == Blocks(eps, K, B, n)
    {
      var k := 0;
      while k < K
        invariant 0 <= k <= K
        invariant lines == Blocks(eps, K, B, n) + DataLines(eps, K, B, n, k)
      {
        assert DataLines(eps, K, B, n, k + 1) ==
               DataLines(eps, K, B, n, k) + [DataLine(k, eps[k][n])];
        lines := lines + [DataLine(k, eps[k][n])];
        k := k + 1;
      }
      lines := lines + ["\n"];
      n := n + 1;
    }
    BlocksAt(eps, K, B, B);
    OffsetIsProduct(B, 0, K + 1);
  }

  /** The lines of band `n` the parser reads, in order. */
  function BandReads(n: nat, K: nat): seq<nat> {
    seq(K, k requires 0 <= k < K => Pos(n, k, K))
  }

  /** The cursor positions at which the parser reads, in order: band `i` is
      read from line `Pos(i, 0, K)` through line `Pos(i, K - 1, K)`. */
  function ReadPositions(K: nat, n: nat): seq<nat> {
    if n == 0 then [] else ReadPositions(K, n - 1) + BandReads(n - 1, K)
  }

  /** The index, among all reads, of the read of point `k` of band `i`:
      `i * K + k`. */
  function ReadIndex(i: nat, k: nat, K: nat): nat {
    Offset(i, k, K)
  }

  /** The parser reads `K` lines per band, point `k` of band `i` as its
      `i * K + k`-th read, from line `Pos(i, k, K)`. */
  lemma {:induction false} ReadPositionsAt(K: nat, n: nat)
    ensures |ReadPositions(K, n)| == ReadIndex(n, 0, K)
    ensures forall i, k :: 0 <= i < n && 0 <= k < K ==>
              ReadIndex(i, k, K) < |ReadPositions(K, n)| &&
              ReadPositions(K, n)[ReadIndex(i, k, K)] == Pos(i, k, K)
  {
    if n > 0 {
      ReadPositionsAt(K, n - 1);
      var prev := ReadPositions(K, n - 1);
      forall i, k | 0 <= i < n && 0 <= k < K
        ensures ReadIndex(i, k, K) < |ReadPositions(K, n)| &&
                ReadPositions(K, n)[ReadIndex(i, k, K)] == Pos(i, k, K)
      {
        if i < n - 1 {
          OffsetBelow(i, k, n - 1, K);
        } else {
          OffsetShift(i, k, K);
          assert ReadIndex(i, k, K) == |prev| + k;
        }
      }
    }
  }

  /** The parser makes `B * K` reads in all. */
  lemma ReadCount(K: nat, B: nat)
    ensures |ReadPositions(K, B)| == B * K
  {
    ReadPositionsAt(K, B);
    OffsetIsProduct(B, 0, K);
  }

  /** In a band file, no line the cursor visits is a blank separator: every
      one is the data line of some band and point. */
  lemma {:induction false} CursorSkipsSeparators(eps: seq<seq<string>>, K: nat, B: nat, n: nat)
    requires IsMatrix(eps, K, B) && n <= B
    ensures forall j :: 0 <= j < |ReadPositions(K, n)| ==>
              ReadPositions(K, n)[j] < |Blocks(eps, K, B, n)| &&
              Blocks(eps, K, B, n)[ReadPositions(K, n)[j]] != "\n"
              && Split(Blocks(eps, K, B, n)[ReadPositions(K, n)[j]]) != []
  {
    if n > 0 {
      CursorSkipsSeparators(eps, K, B, n - 1);
      BlocksAt(eps, K, B, n);
      var prev, all := ReadPositions(K, n - 1), ReadPositions(K, n);
      var lines := Blocks(eps, K, B, n);
      assert |Blocks(eps, K, B, n - 1)| <= |lines|;
      forall j | 0 <= j < |all|
        ensures all[j] < |lines| && lines[all[j]] != "\n" && Split(lines[all[j]]) != []
      {
        if j < |prev| {
          assert all[j] == prev[j];
          assert lines[prev[j]] == Blocks(eps, K, B, n - 1)[prev[j]];
        } else {
          var k := j - |prev|;
          assert all[j] == Pos(n - 1, k, K);
          DataLineFields(k, eps[k][n - 1]);
        }
      }
    }
  }

  /** A data line has exactly two fields: the k-index and the value. */
  lemma DataLineFields(k: nat, v: string)
    requires IsToken(v)
    ensures Split(DataLine(k, v)) == [NatToString(k), v]
  {
    SplitPairLine(NatToString(k), v);
  }
}
