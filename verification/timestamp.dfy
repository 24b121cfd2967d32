/**
  The speaker-note timestamp of a slide line, `^ (M:SS, M:SS)`: a start time
  followed by a duration. Models `foo` in update_time.py and the two anchored
  regular expressions it and its caller use, as hand-written matchers.
*/
module Timestamp {
  import opened Lines
  import opened Digits

  datatype Option<T> = None | Some(value: T)

  /** The four numeric groups of a matched timestamp and the text after the closing parenthesis. */
  datatype Stamp = Stamp(startMinutes: string, startSeconds: string,
                         minutes: string, seconds: string, tail: string)

  /** The line a stamp is read from. */
  function Render(st: Stamp): string {
    "^ (" + (st.startMinutes + ":" + (st.startSeconds + ", " + (st.minutes + ":" + (st.seconds + ")" + st.tail))))
  }

  /** The start pair and the rest of a rendered line, as the substitution of the start pair sees them. */
  lemma RenderSplit(st: Stamp)
    ensures Render(st)
         == "^ (" + st.startMinutes + ":" + st.startSeconds + (", " + (st.minutes + ":" + (st.seconds + ")" + st.tail)))
  {
  }

  /** Every group is what `[0-9]+` matches. */
  predicate WellFormed(st: Stamp) {
    && st.startMinutes != [] && AllDigits(st.startMinutes)
    && st.startSeconds != [] && AllDigits(st.startSeconds)
    && st.minutes != [] && AllDigits(st.minutes)
    && st.seconds != [] && AllDigits(st.seconds)
  }

  /** The language of `^\^ \(([0-9]+):([0-9]+), ([0-9]+):([0-9]+)\)` (followed by anything). */
  ghost predicate IsStamped(line: string) {
    exists st :: WellFormed(st) && Render(st) == line
  }

  /**
    One `([0-9]+)` group followed by the literal `sep`: the group and the text
    after `sep`. The group is the longest digit run; as `sep` starts with a
    non-digit, backtracking could not find any other split.
  */
  function Field(s: string, sep: string): (r: Option<(string, string)>)
    ensures r.Some? ==> r.value.0 != [] && AllDigits(r.value.0) && s == r.value.0 + sep + r.value.1
  {
    var (d, rest) := Span(s);
    if d == [] || !StartsWith(rest, sep) then None
    else
      assert rest == sep + rest[|sep|..];
      Some((d, rest[|sep|..]))
  }

  /** A group followed by `sep` is found with exactly its digits. */
  lemma FieldOf(d: string, sep: string, rest: string)
    requires d != [] && AllDigits(d)
    requires sep != [] && !IsDigit(sep[0])
    ensures Field(d + sep + rest, sep) == Some((d, rest))
  {
    assert d + sep + rest == d + (sep + rest);
    SpanOf(d, sep + rest);
    assert (sep + rest)[..|sep|] == sep;
    assert (sep + rest)[|sep|..] == rest;
  }

  /**
    The search for the full timestamp pattern at the start of a line: the
    four groups and the rest of the line, or `None` when the line does not match.
  */
  function Match(line: string): (r: Option<Stamp>)
    ensures r.Some? ==> WellFormed(r.value) && Render(r.value) == line
  {
    if !StartsWith(line, "^ (") then None
    else
      assert line == "^ (" + line[3..];
      match Field(line[3..], ":")
      case None => None
      case Some((a, r1)) =>
        match Field(r1, ", ")
        case None => None
        case Some((b, r2)) =>
          match Field(r2, ":")
          case None => None
          case Some((c, r3)) =>
            match Field(r3, ")")
            case None => None
            case Some((d, tail)) => Some(Stamp(a, b, c, d, tail))
  }

  /** The matcher finds every well-formed stamp, with exactly its groups. */
  lemma MatchRender(st: Stamp)
    requires WellFormed(st)
    ensures Match(Render(st)) == Some(st)
  {
    var r3 := st.seconds + ")" + st.tail;
    var r2 := st.minutes + ":" + r3;
    var r1 := st.startSeconds + ", " + r2;
    var line := Render(st);
    assert line[..3] == "^ (" && line[3..] == st.startMinutes + ":" + r1;
    FieldOf(st.startMinutes, ":", r1);
    FieldOf(st.startSeconds, ", ", r2);
    FieldOf(st.minutes, ":", r3);
    FieldOf(st.seconds, ")", st.tail);
  }

  /** The matcher decides the language of the pattern. */
  lemma MatchDecides(line: string)
    ensures Match(line).Some? <==> IsStamped(line)
  {
    if IsStamped(line) {
      var st :| WellFormed(st) && Render(st) == line;
      MatchRender(st);
    }
  }

  /** What `foo` reads from a line: Python's `time` is the duration, or `None` in the other two cases. */
  datatype Time = Duration(seconds: nat) | NoTime | Malformed

  /**
    `foo(line)`: the duration `M*60 + SS` of a timestamped line; `NoTime` for
    a line that does not begin with `^ (`; `Malformed` (the case `foo` reports
    with an ERROR line) for one that begins with `^ (` but does not match.
    The line itself is returned unchanged.
  */
  function ParseLine(line: string): (r: (Time, string))
    ensures r.1 == line
  {
    match Match(line)
    case Some(st) => (Duration(Value(st.minutes) * 60 + Value(st.seconds)), line)
    case None => (if StartsWith(line, "^ (") then Malformed else NoTime, line)
  }

  /** The three outcomes of `foo`, stated against the pattern's language. */
  lemma ParseLineCases(line: string)
    ensures ParseLine(line).0.Duration? <==> IsStamped(line)
    ensures ParseLine(line).0.Malformed? <==> StartsWith(line, "^ (") && !IsStamped(line)
    ensures ParseLine(line).0.NoTime? <==> !StartsWith(line, "^ (")
  {
    MatchDecides(line);
  }

  /** A timestamped line yields the duration its second pair spells. */
  lemma ParseRendered(st: Stamp)
    requires WellFormed(st)
    ensures ParseLine(Render(st)).0 == Duration(Value(st.minutes) * 60 + Value(st.seconds))
  {
    MatchRender(st);
  }

  /**
    The substitution of the start pattern `^\^ \(([0-9]+):([0-9]+)` by a
    replacement free of backslashes: the matched prefix is replaced by `repl`;
    a line that does not match is returned unchanged. The anchor allows at
    most one match.
  */
  function SubStart(line: string, repl: string): (r: string)
    ensures !StartsWith(line, "^ (") ==> r == line
  {
    if !StartsWith(line, "^ (") then line
    else
      match Field(line[3..], ":")
      case None => line
      case Some((a, r1)) =>
        var (b, rest) := Span(r1);
        if b == [] then line else repl + rest
  }

  /** On a timestamped line the substitution replaces the start pair and keeps the duration and the rest. */
  lemma SubStartRendered(st: Stamp, repl: string)
    requires WellFormed(st)
    ensures SubStart(Render(st), repl) == repl + (", " + (st.minutes + ":" + (st.seconds + ")" + st.tail)))
  {
    var rest := ", " + (st.minutes + ":" + (st.seconds + ")" + st.tail));
    var line := Render(st);
    assert line[..3] == "^ (" && line[3..] == st.startMinutes + ":" + (st.startSeconds + rest);
    FieldOf(st.startMinutes, ":", st.startSeconds + rest);
    SpanOf(st.startSeconds, rest);
  }

  /** The start time a timestamped line states, in seconds. */
  function StartOf(line: string): (r: Option<nat>)
    ensures r.Some? <==> IsStamped(line)
  {
    MatchDecides(line);
    match Match(line)
    case Some(st) => Some(Value(st.startMinutes) * 60 + Value(st.startSeconds))
    case None => None
  }

  /** A timestamped line states the start time its first pair spells. */
  lemma StartOfRendered(st: Stamp)
    requires WellFormed(st)
    ensures StartOf(Render(st)) == Some(Value(st.startMinutes) * 60 + Value(st.startSeconds))
  {
    MatchRender(st);
  }
}
