/** The small part of Python's string handling that the band-structure
    reshaping relies on: `str.split()` with no argument, `str(k)` for a
    non-negative integer, and the "every token followed by one space" layout
    that the columned writer builds. Strings are sequences of characters. */
module Text {

  /** Python's `str.isspace` on one character: the characters `str.split()`
      with no argument splits on. */
  predicate IsSpace(c: char) {
    c == ' ' || ('\t' <= c <= '\r') || ('\U{1C}' <= c <= '\U{1F}') ||
    c == '\U{85}' || c == '\U{A0}' || c == '\U{1680}' ||
    ('\U{2000}' <= c <= '\U{200A}') || c == '\U{2028}' || c == '\U{2029}' ||
    c == '\U{202F}' || c == '\U{205F}' || c == '\U{3000}'
  }

  /** A field of a line: non-empty and free of whitespace. Eigenvalues, DOS
      values and k-indices are all tokens. */
  predicate IsToken(t: string) {
    |t| > 0 && forall i :: 0 <= i < |t| ==> !IsSpace(t[i])
  }

  /** Length of the longest whitespace-free prefix of `s`. */
  function TokenLength(s: string): (n: nat)
    ensures n <= |s|
    ensures forall i :: 0 <= i < n ==> !IsSpace(s[i])
    ensures n < |s| ==> IsSpace(s[n])
    decreases |s|
  {
    if s == [] || IsSpace(s[0]) then 0 else 1 + TokenLength(s[1..])
  }

  /** Python's `s.split()`: the maximal whitespace-free runs of `s`, in order;
      leading, trailing and repeated whitespace produce no empty fields. */
  function Split(s: string): (fields: seq<string>)
    ensures forall j :: 0 <= j < |fields| ==> IsToken(fields[j])
    decreases |s|
  {
    if s == [] then []
    else if IsSpace(s[0]) then Split(s[1..])
    else
      var n := TokenLength(s);
      [s[..n]] + Split(s[n..])
  }

  lemma SplitLeadingSpace(c: char, s: string)
    requires IsSpace(c)
    ensures Split([c] + s) == Split(s)
  {
    assert ([c] + s)[1..] == s;
  }

  lemma {:induction false} TokenLengthAppend(t: string, rest: string)
    requires forall i :: 0 <= i < |t| ==> !IsSpace(t[i])
    requires rest == [] || IsSpace(rest[0])
    ensures TokenLength(t + rest) == |t|
  {
    if t == [] {
      assert t + rest == rest;
    } else {
      assert (t + rest)[1..] == t[1..] + rest;
      TokenLengthAppend(t[1..], rest);
    }
  }

  /** A token followed by whitespace (or by nothing) is the first field. */
  lemma SplitLeadingToken(t: string, rest: string)
    requires IsToken(t)
    requires rest == [] || IsSpace(rest[0])
    ensures Split(t + rest) == [t] + Split(rest)
  {
    var s := t + rest;
    TokenLengthAppend(t, rest);
    assert s[..|t|] == t && s[|t|..] == rest;
  }

  /** `a + " " + b + "\n"`, the line `print(a, b)` writes, splits into `[a, b]`. */
  lemma SplitPairLine(a: string, b: string)
    requires IsToken(a) && IsToken(b)
    ensures Split(a + " " + b + "\n") == [a, b]
  {
    assert a + " " + b + "\n" == a + ([' '] + (b + "\n"));
    SplitLeadingToken(a, [' '] + (b + "\n"));
    SplitLeadingSpace(' ', b + "\n");
    SplitLeadingToken(b, "\n");
    SplitLeadingSpace('\n', "");
  }

  /** The tokens of `ts`, each followed by exactly one space. */
  function Spaced(ts: seq<string>): string {
    if ts == [] then "" else ts[0] + " " + Spaced(ts[1..])
  }

  /** Appending one token and its space extends the layout, which is how the
      columned writer grows its line. */
  lemma {:induction false} SpacedSnoc(ts: seq<string>, t: string)
    ensures Spaced(ts + [t]) == Spaced(ts) + t + " "
  {
    if ts == [] {
      assert ts + [t] == [t];
      assert Spaced([t]) == t + " " + Spaced([]);
    } else {
      assert (ts + [t])[0] == ts[0];
      assert (ts + [t])[1..] == ts[1..] + [t];
      SpacedSnoc(ts[1..], t);
    }
  }

  /** Splitting a space-separated layout, followed by a newline, gives back
      exactly its tokens: no field is lost, merged or invented. */
  lemma {:induction false} SplitSpacedLine(ts: seq<string>)
    requires forall j :: 0 <= j < |ts| ==> IsToken(ts[j])
    ensures Split(Spaced(ts) + "\n") == ts
  {
    if ts == [] {
      SplitLeadingSpace('\n', "");
    } else {
      var tail := Spaced(ts[1..]) + "\n";
      assert Spaced(ts) + "\n" == ts[0] + ([' '] + tail);
      SplitLeadingToken(ts[0], [' '] + tail);
      SplitLeadingSpace(' ', tail);
      SplitSpacedLine(ts[1..]);
    }
  }

  /** The decimal digit character for `d`. */
  function Digit(d: nat): (c: char)
    requires d < 10
    ensures '0' <= c <= '9'
  {
    (48 + d) as char
  }

  /** Python's `str(n)` for a non-negative integer: decimal, no sign, no
      leading zeros. */
  function NatToString(n: nat): (s: string)
    ensures IsToken(s)
    ensures forall i :: 0 <= i < |s| ==> '0' <= s[i] <= '9'
    decreases n
  {
    if n < 10 then [Digit(n)] else NatToString(n / 10) + [Digit(n % 10)]
  }

  /** The number a string of decimal digits denotes. */
  function DecimalValue(s: string): nat
    requires forall i :: 0 <= i < |s| ==> '0' <= s[i] <= '9'
  {
    if s == [] then 0
    else DecimalValue(s[..|s| - 1]) * 10 + (s[|s| - 1] as int - 48)
  }

  /** The k-index token written for point `k` denotes `k`. */
  lemma {:induction false} DecimalRoundTrip(n: nat)
    ensures DecimalValue(NatToString(n)) == n
  {
    var s := NatToString(n);
    if n < 10 {
      assert s[..|s| - 1] == [];
    } else {
      assert s[..|s| - 1] == NatToString(n / 10);
      DecimalRoundTrip(n / 10);
    }
  }
}
