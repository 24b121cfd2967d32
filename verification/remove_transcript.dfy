/**
  The transcript-stripping script: the slide file without its speaker notes
  (lines beginning with `^`) and without `autoscale:` directives.
*/
module RemoveTranscript {
  import opened Lines

  /** A line matched by `^(\^|^autoscale:)`: a speaker note or an `autoscale:` directive. */
  predicate IsTranscript(line: string)
    ensures IsTranscript(line) <==> (line != [] && line[0] == '^') || (10 <= |line| && line[..10] == "autoscale:")
  {
    StartsWith(line, "^") || StartsWith(line, "autoscale:")
  }

  /** The lambda given to `filter`: keep the lines the pattern does not match. */
  predicate Keep(line: string)
    ensures Keep(line) <==> (line == [] || line[0] != '^') && !StartsWith(line, "autoscale:")
  {
    !IsTranscript(line)
  }

  /** The lines the script writes: Python's `filter` with `Keep` as its predicate. */
  function Strip(lines: seq<string>): (r: seq<string>)
    ensures |r| <= |lines|
    ensures forall k :: 0 <= k < |r| ==> !StartsWith(r[k], "^") && !StartsWith(r[k], "autoscale:")
  {
    Filter(Keep, lines)
  }

  /**
    The output is exactly the input with the transcript lines taken out: the
    lines kept appear in their original order, and an input line is kept if
    and only if it begins with neither `^` nor `autoscale:`.
  */
  lemma StripSelects(lines: seq<string>)
    ensures EmbedsAt(Strip(lines), lines, KeptIndices(Keep, lines))
    ensures forall j :: 0 <= j < |lines| ==>
      (j in KeptIndices(Keep, lines) <==> !StartsWith(lines[j], "^") && !StartsWith(lines[j], "autoscale:"))
  {
    FilterSelects(Keep, lines);
  }

  /** Every line that is not transcript survives, as often as it occurs. */
  lemma StripKeepsProse(lines: seq<string>, line: string)
    requires line in lines && !IsTranscript(line)
    ensures line in Strip(lines)
    ensures multiset(Strip(lines))[line] == multiset(lines)[line]
  {
    StripCounts(lines, line);
  }

  /** The number of times a line occurs in the output: as in the input for prose, zero for transcript. */
  lemma {:induction false} StripCounts(lines: seq<string>, line: string)
    ensures multiset(Strip(lines))[line] == if IsTranscript(line) then 0 else multiset(lines)[line]
  {
    if lines != [] {
      var init, last := lines[..|lines| - 1], lines[|lines| - 1];
      assert lines == init + [last];
      StripCounts(init, line);
    }
  }

  /** Stripping a stripped file changes nothing. */
  lemma StripIdempotent(lines: seq<string>)
    ensures Strip(Strip(lines)) == Strip(lines)
  {
    FilterIdempotent(Keep, lines);
  }
}
