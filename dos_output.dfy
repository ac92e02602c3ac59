/** The density-of-states table: one `energy, weight` line per pair that
    `zip(energies, weights)` yields. Energies and weights are the rendered
    numbers, kept as opaque strings. A file is its sequence of lines, each
    with its terminating newline. */
module DosOutput {
  import opened Text
  import opened Errors

  function Min(a: nat, b: nat): nat { if a < b then a else b }

  /** What `print(e, w, sep=", ")` writes. */
  function DosLine(e: string, w: string): string {
    e + ", " + w + "\n"
  }

  /** The DOS file as `zip` builds it: pairs are taken from the front of both
      lists until either runs out. */
  function DosFile(energies: seq<string>, weights: seq<string>): seq<string>
    decreases |energies|
  {
    if energies == [] || weights == [] then []
    else [DosLine(energies[0], weights[0])] + DosFile(energies[1..], weights[1..])
  }

  /** `zip` truncates to the shorter list, and line `j` pairs the `j`-th
      energy with the `j`-th weight. */
  lemma {:induction false} DosFileAt(energies: seq<string>, weights: seq<string>)
    ensures |DosFile(energies, weights)| == Min(|energies|, |weights|)
    ensures forall j :: 0 <= j < |DosFile(energies, weights)| ==>
              DosFile(energies, weights)[j] == DosLine(energies[j], weights[j])
    decreases |energies|
  {
    if energies != [] && weights != [] {
      DosFileAt(energies[1..], weights[1..]);
    }
  }

  /** The loop over `zip(energies, weights)` that writes the DOS file. */
  method WriteDos(energies: seq<string>, weights: seq<string>) returns (lines: seq<string>)
    ensures |lines| == Min(|energies|, |weights|)
    ensures forall j :: 0 <= j < |lines| ==> lines[j] == DosLine(energies[j], weights[j])
    ensures lines == DosFile(energies, weights)
  {
    var n := Min(|energies|, |weights|);
    lines := [];
    var j := 0;
    while j < n
      invariant 0 <= j <= n
      invariant |lines| == j
      invariant forall m :: 0 <= m < j ==> lines[m] == DosLine(energies[m], weights[m])
    {
      lines := lines + [DosLine(energies[j], weights[j])];
      j := j + 1;
    }
    DosFileAt(energies, weights);
  }

  /** Reads a DOS line back: the first field without its trailing comma, and
      the second field. */
  function ParseDosLine(line: string): (r: Option<(string, string)>)
    ensures r.Some? ==> IsToken(r.value.1)
  {
    var fields := Split(line);
    if |fields| == 2 && fields[0][|fields[0]| - 1] == ',' then
      Some((fields[0][..|fields[0]| - 1], fields[1]))
    else None
  }

  /** One DOS line reads back as the pair it was written from. */
  lemma DosLineRoundTrip(e: string, w: string)
    requires IsToken(e) && IsToken(w)
    ensures ParseDosLine(DosLine(e, w)) == Some((e, w))
  {
    var c := e + ",";
    forall i | 0 <= i < |c| ensures !IsSpace(c[i]) {
      if i < |e| { assert c[i] == e[i]; } else { assert c[i] == ','; }
    }
    assert DosLine(e, w) == c + " " + w + "\n";
    SplitPairLine(c, w);
    assert c[..|c| - 1] == e;
  }

  /** Reading the DOS file back recovers exactly the pairs `zip` produced,
      provided every energy and weight is a token. */
  lemma DosRoundTrip(energies: seq<string>, weights: seq<string>)
    requires forall i :: 0 <= i < |energies| ==> IsToken(energies[i])
    requires forall i :: 0 <= i < |weights| ==> IsToken(weights[i])
    ensures |DosFile(energies, weights)| == Min(|energies|, |weights|)
    ensures forall j :: 0 <= j < |DosFile(energies, weights)| ==>
              ParseDosLine(DosFile(energies, weights)[j]) == Some((energies[j], weights[j]))
  {
    DosFileAt(energies, weights);
    forall j | 0 <= j < |DosFile(energies, weights)|
      ensures ParseDosLine(DosFile(energies, weights)[j]) == Some((energies[j], weights[j]))
    {
      DosLineRoundTrip(energies[j], weights[j]);
    }
  }
}
