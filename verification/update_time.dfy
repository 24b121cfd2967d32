/**
  The timestamp re-numbering script: every timed speaker note gets, as its
  start time, the sum of the durations of the timed notes before it; every
  other line is written back as it was.
*/
module UpdateTime {
  import opened Lines
  import opened Digits
  import opened Timestamp

  /**
    The seconds a parsed line adds to the running clock: its duration when
    `if time:` holds, that is when there is a duration and it is not zero.
  */
  function Gain(time: Time): (g: nat)
    ensures g != 0 <==> time.Duration? && time.seconds != 0
    ensures g != 0 ==> g == time.seconds
  {
    if time.Duration? then time.seconds else 0
  }

  /** The seconds a line adds to the running clock. */
  function Advance(line: string): nat {
    Gain(ParseLine(line).0)
  }

  /** `map(foo, lines)`: every line paired with what `foo` reads from it. */
  function Parsed(lines: seq<string>): (timed: seq<(Time, string)>)
    ensures |timed| == |lines|
  {
    seq(|lines|, k requires 0 <= k < |lines| => ParseLine(lines[k]))
  }

  /** What each parsed line adds to the clock, line by line. */
  function Gains(timed: seq<(Time, string)>): (ds: seq<nat>)
    ensures |ds| == |timed|
  {
    seq(|timed|, k requires 0 <= k < |timed| => Gain(timed[k].0))
  }

  /** A running total: the clock after lines that add `ds`. */
  function Sum(ds: seq<nat>): nat {
    if ds == [] then 0 else Sum(ds[..|ds| - 1]) + ds[|ds| - 1]
  }

  /** The replacement start pair: `^ (`, the minutes as `%d`, `:`, the seconds as `%02d`. */
  function StartPrefix(total: nat): (r: string)
    ensures 7 <= |r| && StartsWith(r, "^ (") && r[|r| - 3] == ':'
    ensures AllDigits(r[3..|r| - 3]) && Value(r[3..|r| - 3]) == total / 60
    ensures AllDigits(r[|r| - 2..]) && Value(r[|r| - 2..]) == total % 60
    ensures r[3..|r| - 3] == Decimal(total / 60) && r[|r| - 2..] == Pad2(total % 60)
    ensures r[3] == '0' <==> total / 60 == 0
  {
    var minutes, seconds := Decimal(total / 60), Pad2(total % 60);
    ClockFields(minutes, seconds);
    "^ (" + minutes + ":" + seconds
  }

  /** Where the fields of a start pair `^ (M:SS` sit when the seconds take two characters. */
  lemma ClockFields(minutes: string, seconds: string)
    requires |seconds| == 2
    ensures var r := "^ (" + minutes + ":" + seconds;
      && |r| == |minutes| + 6 && r[..3] == "^ (" && r[|r| - 3] == ':'
      && r[3..|r| - 3] == minutes && r[|r| - 2..] == seconds
      && (minutes != [] ==> r[3] == minutes[0])
  {
  }

  /** The line written for a parsed line when the clock reads `clock` before it. */
  function Written(time: Time, line: string, clock: nat): (r: string)
    ensures Gain(time) == 0 || !StartsWith(line, "^ (") ==> r == line
    ensures Gain(time) != 0 && Match(line).Some? ==> r == Render(Restart(Match(line).value, clock))
  {
    if Gain(time) != 0 then
      if Match(line).Some? then
        var st := Match(line).value;
        SubStartRendered(st, StartPrefix(clock));
        RenderSplit(Restart(st, clock));
        SubStart(line, StartPrefix(clock))
      else SubStart(line, StartPrefix(clock))
    else line
  }

  /** The loop over the parsed lines: each written with the clock as it stands before it. */
  function Rewritten(timed: seq<(Time, string)>): (r: seq<string>)
    ensures |r| == |timed|
  {
    seq(|timed|, i requires 0 <= i < |timed| => Written(timed[i].0, timed[i].1, Sum(Gains(timed)[..i])))
  }

  /** The file the script writes. */
  function Retimed(lines: seq<string>): (r: seq<string>)
    ensures |r| == |lines|
  {
    Rewritten(Parsed(lines))
  }

  /** The clock before line `i`: what the lines above it add together. */
  function Elapsed(lines: seq<string>, i: nat): nat
    requires i <= |lines|
  {
    Sum(Gains(Parsed(lines))[..i])
  }

  /** A line `foo` reports with an ERROR message. */
  predicate IsMalformed(line: string)
    ensures IsMalformed(line) <==> StartsWith(line, "^ (") && !IsStamped(line)
  {
    ParseLineCases(line);
    ParseLine(line).0.Malformed?
  }

  /**
    `map(foo, lines)` as it runs: Python 2's `map` is eager, so every ERROR
    message is printed here, before any line is rewritten. Returns the parsed
    lines and the lines reported, in order.
  */
  method ParseAll(lines: seq<string>) returns (timed: seq<(Time, string)>, errors: seq<string>)
    ensures timed == Parsed(lines)
    ensures errors == Filter(IsMalformed, lines)
  {
    timed, errors := [], [];
    var i := 0;
    while i < |lines|
      invariant 0 <= i <= |lines|
      invariant timed == Parsed(lines[..i])
      invariant errors == Filter(IsMalformed, lines[..i])
    {
      ParsedStep(lines, i);
      var (time, line) := ParseLine(lines[i]);
      if time.Malformed? {
        errors := errors + [line];
      }
      timed := timed + [(time, line)];
      i := i + 1;
    }
    assert lines[..|lines|] == lines;
  }

  /** One step of `map(foo, lines)`: the parsed prefix and the reported prefix grow by line `i`. */
  lemma ParsedStep(lines: seq<string>, i: nat)
    requires i < |lines|
    ensures Parsed(lines[..i + 1]) == Parsed(lines[..i]) + [ParseLine(lines[i])]
    ensures Filter(IsMalformed, lines[..i + 1])
         == Filter(IsMalformed, lines[..i]) + if IsMalformed(lines[i]) then [lines[i]] else []
  {
    assert lines[..i + 1] == lines[..i] + [lines[i]];
    FilterSnoc(IsMalformed, lines[..i], lines[i]);
  }

  /**
    The `for time, line in timed_lines` loop: keeps the running total
    `current_time`, rewrites the start of each line whose time is set and not
    zero, and copies every other line.
  */
  method Rewrite(timed: seq<(Time, string)>) returns (newLines: seq<string>)
    ensures newLines == Rewritten(timed)
  {
    newLines := [];
    var currentTime: nat := 0;
    var i := 0;
    while i < |timed|
      invariant 0 <= i <= |timed|
      invariant currentTime == Sum(Gains(timed)[..i])
      invariant newLines == Rewritten(timed)[..i]
    {
      var (time, line) := timed[i];
      RewrittenStep(timed, i);
      if time.Duration? && time.seconds != 0 {
        var minutes := currentTime / 60;
        var seconds := currentTime % 60;
        newLines := newLines + [SubStart(line, "^ (" + Decimal(minutes) + ":" + Pad2(seconds))];
        currentTime := currentTime + time.seconds;
      } else {
        newLines := newLines + [line];
      }
      i := i + 1;
    }
  }

  /** One step of the loop: the output so far grows by line `i` as written, and the clock by its gain. */
  lemma RewrittenStep(timed: seq<(Time, string)>, i: nat)
    requires i < |timed|
    ensures Rewritten(timed)[..i + 1]
         == Rewritten(timed)[..i] + [Written(timed[i].0, timed[i].1, Sum(Gains(timed)[..i]))]
    ensures Sum(Gains(timed)[..i + 1]) == Sum(Gains(timed)[..i]) + Gain(timed[i].0)
  {
    assert Gains(timed)[..i + 1][..i] == Gains(timed)[..i];
    assert Rewritten(timed)[..i + 1] == Rewritten(timed)[..i] + [Rewritten(timed)[i]];
  }

  /** The script over the lines of the slide file: the new lines and the lines reported as errors. */
  method UpdateTimes(lines: seq<string>) returns (newLines: seq<string>, errors: seq<string>)
    ensures newLines == Retimed(lines)
    ensures errors == Filter(IsMalformed, lines)
  {
    var timed;
    timed, errors := ParseAll(lines);
    newLines := Rewrite(timed);
  }

  /** A stamp with its start pair set to the clock reading `start`, as `%d:%02d` prints it. */
  function Restart(st: Stamp, start: nat): (st': Stamp)
    ensures st'.minutes == st.minutes && st'.seconds == st.seconds && st'.tail == st.tail
    ensures WellFormed(st) ==> WellFormed(st')
    ensures AllDigits(st'.startMinutes) && AllDigits(st'.startSeconds)
    ensures Value(st'.startMinutes) == start / 60 && Value(st'.startSeconds) == start % 60
    ensures |st'.startSeconds| == 2
    ensures st'.startMinutes == Decimal(start / 60) && st'.startSeconds == Pad2(start % 60)
    ensures st'.startMinutes[0] == '0' <==> start / 60 == 0
    ensures Value(st'.startMinutes) * 60 + Value(st'.startSeconds) == start
  {
    st.(startMinutes := Decimal(start / 60), startSeconds := Pad2(start % 60))
  }

  /**
    Retiming a timestamped line with a non-zero duration replaces its start
    pair by the clock reading and keeps the duration and the rest of the line.
  */
  lemma RetimeStamp(st: Stamp, start: nat)
    requires WellFormed(st) && Value(st.minutes) * 60 + Value(st.seconds) != 0
    ensures Written(ParseLine(Render(st)).0, Render(st), start) == Render(Restart(st, start))
  {
    ParseRendered(st);
    SubStartRendered(st, StartPrefix(start));
    RenderSplit(Restart(st, start));
  }

  /** The retimed line states `start` as its start time and still parses to the same duration. */
  lemma RestartParses(st: Stamp, start: nat)
    requires WellFormed(st)
    ensures StartOf(Render(Restart(st, start))) == Some(start)
    ensures ParseLine(Render(Restart(st, start))).0 == Duration(Value(st.minutes) * 60 + Value(st.seconds))
  {
    ReadsBack(st, Restart(st, start), start);
  }

  /** A well-formed stamp whose start pair spells `start` and whose duration is that of `st`. */
  lemma ReadsBack(st: Stamp, st': Stamp, start: nat)
    requires WellFormed(st') && st'.minutes == st.minutes && st'.seconds == st.seconds
    requires Value(st'.startMinutes) * 60 + Value(st'.startSeconds) == start
    ensures StartOf(Render(st')) == Some(start)
    ensures ParseLine(Render(st')).0 == Duration(Value(st.minutes) * 60 + Value(st.seconds))
  {
    StartReadsBack(st', start);
    ParseRendered(st');
  }

  /** The start time read from a well-formed stamp is the one its start pair spells. */
  lemma StartReadsBack(st: Stamp, start: nat)
    requires WellFormed(st) && Value(st.startMinutes) * 60 + Value(st.startSeconds) == start
    ensures StartOf(Render(st)) == Some(start)
  {
    StartOfRendered(st);
  }

  /**
    Line `i` of the output: a line that does not advance the clock (no
    timestamp, a malformed one, or a zero duration) is copied verbatim; a timed
    line states the sum of the durations before it as its start and keeps its
    own duration.
  */
  lemma RetimedAt(lines: seq<string>, i: nat)
    requires i < |lines|
    ensures Advance(lines[i]) == 0 ==> Retimed(lines)[i] == lines[i]
    ensures Advance(lines[i]) != 0 ==>
      && Match(lines[i]).Some?
      && Retimed(lines)[i] == Render(Restart(Match(lines[i]).value, Elapsed(lines, i)))
      && StartOf(Retimed(lines)[i]) == Some(Elapsed(lines, i))
      && ParseLine(Retimed(lines)[i]).0 == ParseLine(lines[i]).0
    ensures Advance(Retimed(lines)[i]) == Advance(lines[i])
    ensures Elapsed(lines, i + 1) == Elapsed(lines, i) + Advance(lines[i])
  {
    var ds := Gains(Parsed(lines));
    assert ds[..i + 1] == ds[..i] + [ds[i]];
    assert Retimed(lines)[i] == Written(ParseLine(lines[i]).0, lines[i], Elapsed(lines, i));
    if Advance(lines[i]) != 0 {
      var st := Match(lines[i]).value;
      RetimeStamp(st, Elapsed(lines, i));
      RestartParses(st, Elapsed(lines, i));
      ParseRendered(st);
    }
  }

  /** A running total is additive over consecutive stretches. */
  lemma {:induction false} SumAppend(a: seq<nat>, b: seq<nat>)
    ensures Sum(a + b) == Sum(a) + Sum(b)
  {
    if b != [] {
      var b' := b[..|b| - 1];
      assert (a + b)[..|a + b| - 1] == a + b';
      SumAppend(a, b');
    } else {
      assert a + b == a;
    }
  }

  /** Adding only zeros leaves a running total where it was. */
  lemma {:induction false} SumZeros(ds: seq<nat>)
    requires forall k :: 0 <= k < |ds| ==> ds[k] == 0
    ensures Sum(ds) == 0
  {
    if ds != [] {
      SumZeros(ds[..|ds| - 1]);
    }
  }

  /**
    The total before position `j` is at least the total before `i` plus `ds[i]`,
    and exactly that when only zeros lie between.
  */
  lemma SumAfter(ds: seq<nat>, i: nat, j: nat)
    requires i < j <= |ds|
    ensures Sum(ds[..i]) + ds[i] <= Sum(ds[..j])
    ensures (forall k :: i < k < j ==> ds[k] == 0) ==> Sum(ds[..j]) == Sum(ds[..i]) + ds[i]
  {
    var before, between := ds[..i + 1], ds[i + 1..j];
    assert before[..i] == ds[..i];
    assert ds[..j] == before + between;
    SumAppend(before, between);
    if forall k :: i < k < j ==> ds[k] == 0 {
      assert forall k :: 0 <= k < |between| ==> between[k] == ds[i + 1 + k];
      SumZeros(between);
    }
  }

  /**
    Start times in the output never go backwards: a later timed line starts no
    earlier than an earlier one ends, and exactly when it ends if no timed line
    lies between them.
  */
  lemma StartTimesOrdered(lines: seq<string>, i: nat, j: nat)
    requires i < j < |lines|
    requires Advance(lines[i]) != 0 && Advance(lines[j]) != 0
    ensures StartOf(Retimed(lines)[i]).Some? && StartOf(Retimed(lines)[j]).Some?
    ensures StartOf(Retimed(lines)[i]).value + Advance(lines[i]) <= StartOf(Retimed(lines)[j]).value
    ensures (forall k :: i < k < j ==> Advance(lines[k]) == 0) ==>
      StartOf(Retimed(lines)[j]).value == StartOf(Retimed(lines)[i]).value + Advance(lines[i])
  {
    var ds := Gains(Parsed(lines));
    SumAfter(ds, i, j);
    RetimedAt(lines, i);
    RetimedAt(lines, j);
  }

  /**
    Running the script on its own output changes nothing: the same file is
    written and the same lines are reported.
  */
  lemma RetimedIdempotent(lines: seq<string>)
    ensures Retimed(Retimed(lines)) == Retimed(lines)
    ensures Filter(IsMalformed, Retimed(lines)) == Filter(IsMalformed, lines)
  {
    var out := Retimed(lines);
    forall k | 0 <= k < |lines|
      ensures Advance(out[k]) == Advance(lines[k])
      ensures IsMalformed(out[k]) == IsMalformed(lines[k])
      ensures IsMalformed(out[k]) ==> out[k] == lines[k]
    {
      RetimedAt(lines, k);
    }
    assert Gains(Parsed(out)) == Gains(Parsed(lines));
    forall i | 0 <= i < |lines|
      ensures Retimed(out)[i] == out[i]
    {
      var t := Elapsed(lines, i);
      assert Retimed(out)[i] == Written(ParseLine(out[i]).0, out[i], t);
      if Advance(lines[i]) != 0 {
        var st := Match(lines[i]).value;
        RetimeStamp(st, t);
        RestartParses(st, t);
        RetimeStamp(Restart(st, t), t);
        assert Restart(Restart(st, t), t) == Restart(st, t);
      }
    }
    FilterCongruent(IsMalformed, out, lines);
  }

  /**
    The reported lines are exactly, in order, the lines that begin like a
    timestamp `^ (` but do not match the full pattern.
  */
  lemma ErrorsReported(lines: seq<string>)
    ensures EmbedsAt(Filter(IsMalformed, lines), lines, KeptIndices(IsMalformed, lines))
    ensures forall j :: 0 <= j < |lines| ==>
      (j in KeptIndices(IsMalformed, lines) <==> StartsWith(lines[j], "^ (") && !IsStamped(lines[j]))
  {
    FilterSelects(IsMalformed, lines);
    forall j | 0 <= j < |lines|
      ensures IsMalformed(lines[j]) <==> StartsWith(lines[j], "^ (") && !IsStamped(lines[j])
    {
      ParseLineCases(lines[j]);
    }
  }
}
