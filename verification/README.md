# Slide-deck timing scripts, modelled in Dafny

The repository holds the slides and spoken transcript of a conference talk in
one markdown file. Speaker notes are lines that begin with `^`. A note may
begin with a timestamp `^ (M:SS, M:SS)`: a start time, then a duration. Two
small Python 2 scripts work on the file's lines:

- `update_time.py` re-numbers the timestamps. `foo` reads each line's
  duration, or reports a line that begins like a timestamp but is malformed.
  Then one pass keeps a running total of the durations, and every timed note
  gets that total as its new start time, printed as `%d:%02d`.
- `remove_transcript.py` writes the slides without the transcript: it drops
  every line that begins with `^` or with `autoscale:`.

The model works on a file as a `seq<string>` of lines:

- `lines.dfy` (`Lines`): a prefix test and Python's `filter`, with its
  subsequence, completeness and idempotence lemmas.
- `digits.dfy` (`Digits`): numerals. `Value` is `int()` on `[0-9]+`,
  `Decimal` is `%d`, `Pad2` is `%02d`, and `Span` is the digit run a greedy
  `[0-9]+` consumes.
- `timestamp.dfy` (`Timestamp`): the two anchored regular expressions of
  `update_time.py`, written as matchers, and `foo` (`ParseLine`). `Render`
  and `WellFormed` describe the pattern's language directly. `MatchRender`
  and `MatchDecides` prove that the matcher accepts exactly that language and
  finds the groups.
- `update_time.dfy` (`UpdateTime`): the script itself. `ParseAll` is the
  eager `map(foo, ...)`. `Rewrite` is the `for` loop. Both are methods with
  loop invariants, proved against the functions `Parsed` and `Rewritten`.
  `Retimed` is the file the script writes: line `i` is rewritten with
  `Elapsed(lines, i)`, the sum of what the lines above it add to the clock.
  The lemmas prove what that file looks like.
- `remove_transcript.dfy` (`RemoveTranscript`): the filter and its properties.

Modelled as the code does it:

- `if time:` is false for a duration of `0:00`. Such a line is copied
  verbatim, its start time is not rewritten, and it does not advance the
  clock (`Gain`, `RetimedAt`).
- The scripts are Python 2, so `current_time / 60` is floor division on a
  non-negative integer (Dafny's `/` on `nat`).
- Every group of the timestamp pattern is followed by a non-digit. So the
  greedy match is the only split of a line into groups, and backtracking
  never changes the outcome (`FieldOf`, `MatchRender`).

## Model

| member | source | states |
|---|---|---|
| `Lines.Filter` | remove_transcript.py:5 | Python's `filter`: the result is no longer than the input, and every element of it passes the predicate |
| `Lines.FilterSelects` | remove_transcript.py:5 | the filtered list is the subsequence of the input at strictly increasing positions, and a position is among them exactly when its element passes |
| `Lines.FilterIdempotent` | remove_transcript.py:5 | filtering twice with the same predicate equals filtering once |
| `Digits.Decimal` | update_time.py:20 | `%d` gives a non-empty digit string whose value is `n`, with a leading `0` only for zero; one digit exactly below 10, at most two below 100 |
| `Digits.Value` | update_time.py:7 | the number `int()` reads from a numeral; it is zero exactly when every digit is `0` |
| `Digits.Pad2` | update_time.py:19-20 | `%02d` gives digits whose value is `n`, at least two of them, exactly two for the seconds field (`n < 100`) |
| `Digits.LeadingZero` | update_time.py:20 | a zero prepended by `%02d` does not change the value `int()` reads back |
| `Digits.Span` | update_time.py:5 | a greedy `[0-9]+` splits the text into a digit run and a rest that does not start with a digit; the two concatenate back to the text |
| `Digits.SpanOf` | update_time.py:5 | that split is unique: any digit run followed by a non-digit is exactly what `Span` returns |
| `Timestamp.Field` | update_time.py:5 | one `([0-9]+)` group plus separator: on success the text is a non-empty digit group, the separator, then the rest |
| `Timestamp.FieldOf` | update_time.py:5 | a non-empty digit group followed by a separator that starts with a non-digit is always found, with exactly that group |
| `Timestamp.Match` | update_time.py:5 | a match yields four non-empty digit groups that, with `^ (`, `:`, `, `, `:`, `)` and the rest, rebuild the line |
| `Timestamp.MatchRender` | update_time.py:5 | every line of the pattern's form is matched, with exactly its groups and rest |
| `Timestamp.MatchDecides` | update_time.py:5 | the matcher succeeds if and only if the line is in the pattern's language (`IsStamped`) |
| `Timestamp.ParseLine` | update_time.py:3-10 | `foo` returns its input line unchanged as the second component |
| `Timestamp.ParseLineCases` | update_time.py:4-9 | `foo` gives a duration iff the line matches; the error case iff it starts with `^ (` but does not match; no time iff it does not start with `^ (` |
| `Timestamp.ParseRendered` | update_time.py:5-7 | a matching line's duration is `int(group 3) * 60 + int(group 4)` |
| `Timestamp.SubStart` | update_time.py:20 | `re.sub` of the anchored start pattern leaves a line that does not start with `^ (` unchanged |
| `Timestamp.SubStartRendered` | update_time.py:20 | on a timestamped line the substitution replaces only `^ (M:SS` and keeps `, M:SS)` and the rest of the line |
| `Timestamp.StartOfRendered` | update_time.py:5 | the start time read from a timestamped line is `int(group 1) * 60 + int(group 2)` |
| `Timestamp.StartOf` | update_time.py:5 | groups 1 and 2 read as a start time in seconds: there is one exactly when the line is in the pattern's language |
| `UpdateTime.Parsed` | update_time.py:14 | `map(foo, ...)` yields one parsed pair per line |
| `UpdateTime.IsMalformed` | update_time.py:8-9 | the `elif` case of `foo`: true exactly when the line starts with `^ (` and is not in the pattern's language |
| `UpdateTime.Gain` | update_time.py:17 | the test `if time:`: non-zero exactly when the parse is a duration that is not zero, and then equal to that duration |
| `UpdateTime.ParseAll` | update_time.py:14 | the eager `map` yields `foo` of every line in order, and reports exactly the malformed lines, in order |
| `UpdateTime.Rewritten` | update_time.py:16-23 | the loop writes one line per parsed line |
| `UpdateTime.Rewrite` | update_time.py:15-23 | the loop with its accumulator `current_time` writes exactly `Rewritten(timed)`: line `i` is written with the total of the gains before it |
| `UpdateTime.UpdateTimes` | update_time.py:14-23 | the whole script writes `Retimed(lines)` and reports the malformed lines |
| `UpdateTime.Retimed` | update_time.py:15-23 | the written file has as many lines as the input |
| `UpdateTime.Restart` | update_time.py:18-20 | the new start pair is `%d` of `start / 60` (no leading `0` unless it is zero) and `%02d` of `start % 60` (exactly two digits), so `minutes * 60 + seconds` gives back the clock; the duration and the rest of the stamp are unchanged |
| `UpdateTime.StartPrefix` | update_time.py:18-20 | the replacement text: `^ (`, then `%d` of `total / 60` (digits whose value is `total / 60`, starting with `0` only when it is zero), `:`, then `%02d` of `total % 60` (exactly two digits with that value) |
| `UpdateTime.Written` | update_time.py:17-23 | the line written for one parsed pair: a line with zero gain or not starting with `^ (` is copied; a matched line with a gain becomes its stamp with the start pair set to the clock |
| `UpdateTime.RetimeStamp` | update_time.py:17-20 | a timed line with a non-zero duration is written as the same stamp with its start pair replaced by `%d:%02d` of the clock |
| `UpdateTime.RestartParses` | update_time.py:18-20 | the rewritten line states the clock reading as its start time and parses to the original duration |
| `UpdateTime.ReadsBack` | update_time.py:5-7 | any well-formed stamp whose start pair spells `start` reads back `start` as its start time and parses to the duration of the stamp it was made from |
| `UpdateTime.StartReadsBack` | update_time.py:5 | the start time read from a well-formed stamp is `int(group 1) * 60 + int(group 2)` |
| `UpdateTime.RetimedAt` | update_time.py:15-23 | a line with no time, a malformed one or a zero duration is copied verbatim; a timed line is rewritten with start equal to the sum of earlier durations and keeps its duration; the clock after line `i` is the clock before plus its gain |
| `UpdateTime.SumAfter` | update_time.py:21 | the running total before a later line is at least the total before an earlier one plus its gain, and equal when only zero gains lie between |
| `UpdateTime.StartTimesOrdered` | update_time.py:15-21 | rewritten start times are non-decreasing: a later timed line starts no earlier than an earlier one ends, and exactly then when no timed line lies between |
| `UpdateTime.RetimedIdempotent` | update_time.py:3-23 | running the script on its own output writes the same file and reports the same lines |
| `UpdateTime.ErrorsReported` | update_time.py:8-9 | the reported lines are, in order, exactly the lines starting with `^ (` that are not in the pattern's language |
| `RemoveTranscript.Strip` | remove_transcript.py:5 | the output is no longer than the input, and no output line starts with `^` or with `autoscale:` |
| `RemoveTranscript.IsTranscript` | remove_transcript.py:5 | the definition of the language of `^(\^|^autoscale:)`: a line starting with `^` or with `autoscale:` (its ensures spells the two prefix tests out) |
| `RemoveTranscript.Keep` | remove_transcript.py:5 | the definition of the filter's predicate, the negated search: a line starting with neither `^` nor `autoscale:` (its ensures spells the two prefix tests out) |
| `RemoveTranscript.StripSelects` | remove_transcript.py:5 | the output is the subsequence of the input in its original order, made of exactly the lines starting with neither `^` nor `autoscale:` |
| `RemoveTranscript.StripCounts` | remove_transcript.py:5 | a prose line occurs in the output as often as in the input; a transcript line never does |
| `RemoveTranscript.StripKeepsProse` | remove_transcript.py:5 | every input line starting with neither `^` nor `autoscale:` appears in the output |
| `RemoveTranscript.StripIdempotent` | remove_transcript.py:5 | stripping a stripped file changes nothing |

## Left out

- Reading and writing `slides.md` and `codes.md` (update_time.py:13-14,25-26; remove_transcript.py:3-4,7-8) is file I/O. Both scripts are modelled as functions and methods from a sequence of lines to a sequence of lines.
- The `ERROR: ` message printed by `foo` is console output. The model returns the reported lines, in the order they are printed, instead.
- Python's general regular-expression engine is not modelled. Only the two anchored patterns the scripts use are written out as matchers.
- Python 2 strings are byte strings. The model uses Dafny strings, one character per byte, and the digit class `[0-9]` is the ASCII range `'0'..'9'`.
- Line terminators are part of each line's text, as `readlines` keeps them. The model attaches no meaning to them.
- The replacement text given to `re.sub` is taken literally. Python would expand backslash escapes in it, but the text the script builds has none.
