/** The normalizer, `normalize_config` (main.py:13-26): every raw line is
    stripped and the lines left empty are dropped, in file order. */
module Normalizer {
  import opened Strings

  /** A normalised configuration line: non-empty, no surrounding whitespace. */
  predicate IsConfigLine(line: string) {
    line != [] && Trimmed(line)
  }

  /** What `normalize_config` returns for `raw`, defined line by line from
      the end so that it follows the loop's accumulator. */
  function Normalized(raw: seq<string>): seq<string>
    decreases |raw|
  {
    if raw == [] then []
    else
      var line := Strip(raw[|raw| - 1]);
      Normalized(raw[..|raw| - 1]) + (if line != [] then [line] else [])
  }

  /** main.py:13-26, the loop that appends each non-empty stripped line. */
  method NormalizeConfig(configLines: seq<string>) returns (normalizedLines: seq<string>)
    ensures normalizedLines == Normalized(configLines)
  {
    normalizedLines := [];
    for i := 0 to |configLines|
      invariant normalizedLines == Normalized(configLines[..i])
    {
      assert configLines[..i + 1][..i] == configLines[..i];
      var line := Strip(configLines[i]);
      if line != [] {
        normalizedLines := normalizedLines + [line];
      }
    }
    assert configLines[..|configLines|] == configLines;
  }

  /** Every output line is non-empty and is its own strip. */
  lemma {:induction false} NormalizedLinesAreClean(raw: seq<string>)
    ensures forall i :: 0 <= i < |Normalized(raw)| ==>
              IsConfigLine(Normalized(raw)[i]) && Strip(Normalized(raw)[i]) == Normalized(raw)[i]
    decreases |raw|
  {
    if raw != [] {
      NormalizedLinesAreClean(raw[..|raw| - 1]);
      forall i | 0 <= i < |Normalized(raw)|
        ensures IsConfigLine(Normalized(raw)[i]) && Strip(Normalized(raw)[i]) == Normalized(raw)[i]
      {
        StripOfTrimmed(Normalized(raw)[i]);
      }
    }
  }

  /** Normalising a concatenation normalises each part: lines keep their
      relative order and one line's fate never depends on another. */
  lemma {:induction false} NormalizedAppend(a: seq<string>, b: seq<string>)
    ensures Normalized(a + b) == Normalized(a) + Normalized(b)
    decreases |b|
  {
    if b == [] {
      assert a + b == a;
    } else {
      var b' := b[..|b| - 1];
      assert (a + b)[..|a + b| - 1] == a + b';
      assert (a + b)[|a + b| - 1] == b[|b| - 1];
      NormalizedAppend(a, b');
    }
  }

  /** Every raw line that is not blank survives, stripped. */
  lemma {:induction false} NormalizedKeeps(raw: seq<string>, i: nat)
    requires i < |raw| && Strip(raw[i]) != []
    ensures Strip(raw[i]) in Normalized(raw)
    decreases |raw|
  {
    var n := |raw| - 1;
    if i < n {
      NormalizedKeeps(raw[..n], i);
    }
  }

  /** Every output line is the strip of some raw line. */
  lemma {:induction false} NormalizedOrigin(raw: seq<string>, line: string) returns (i: nat)
    requires line in Normalized(raw)
    ensures i < |raw| && Strip(raw[i]) == line
    decreases |raw|
  {
    var n := |raw| - 1;
    if line in Normalized(raw[..n]) {
      i := NormalizedOrigin(raw[..n], line);
    } else {
      i := n;
    }
  }

  /** A line is in the output exactly when it is the non-empty strip of
      some raw line. */
  lemma NormalizedMembership(raw: seq<string>, line: string)
    ensures line in Normalized(raw) <==>
            line != [] && exists i :: 0 <= i < |raw| && Strip(raw[i]) == line
  {
    if line in Normalized(raw) {
      NormalizedLinesAreClean(raw);
      var i := NormalizedOrigin(raw, line);
    }
    if line != [] && exists i :: 0 <= i < |raw| && Strip(raw[i]) == line {
      var i :| 0 <= i < |raw| && Strip(raw[i]) == line;
      NormalizedKeeps(raw, i);
    }
  }

  /** Lines that are already normalised pass through unchanged. */
  lemma {:induction false} NormalizedOfConfigLines(lines: seq<string>)
    requires forall i :: 0 <= i < |lines| ==> IsConfigLine(lines[i])
    ensures Normalized(lines) == lines
    decreases |lines|
  {
    if lines != [] {
      NormalizedOfConfigLines(lines[..|lines| - 1]);
      StripOfTrimmed(lines[|lines| - 1]);
    }
  }

  /** Normalising twice is normalising once. */
  lemma NormalizedIdempotent(raw: seq<string>)
    ensures Normalized(Normalized(raw)) == Normalized(raw)
  {
    NormalizedLinesAreClean(raw);
    NormalizedOfConfigLines(Normalized(raw));
  }

  /** Normalisation never adds lines. */
  lemma {:induction false} NormalizedShorter(raw: seq<string>)
    ensures |Normalized(raw)| <= |raw|
    decreases |raw|
  {
    if raw != [] {
      NormalizedShorter(raw[..|raw| - 1]);
    }
  }
}
