# Rain-event ("bui") file reader, modelled in Dafny

The batch calculator drives flood simulations on a remote 3Di service. Its one
piece of self-contained logic is `BuiReader`. This class reads a rain-event
file and produces four things:

- the event's start date and time, taken from the file's name;
- the rain payload sent to the service: offset `0`, no interpolation, a list
  of `[offset, intensity]` pairs, and units `"m/s"`;
- the last time step;
- the event's duration in seconds.

This project models that reader as pure functions and proves what it does.

- `text.dfy` (module `Text`) holds Python's `str.split()` (fields between runs
  of whitespace) and `str.split("\n")` (newline-separated pieces, empty pieces
  kept). `str.split()` is paired with its layouts (`Interleave`): every string
  is a layout, and `split()` gives back the fields of any layout.
  `split("\n")` is paired with joining, with round trips both ways.
- `timestamp.dfy` (module `Timestamp`) holds date-times and the
  fourteen-character `YYYYMMDDhhmmss` token. It reads the token the way
  `strptime("%Y%m%d%H%M%S")` does: month 1–12, a real day of the month with
  Gregorian leap years, hour below 24, minute and second below 60, year 1 or
  later. It writes `%Y-%m-%d` and `%H:%M:%S` the way `strftime` does.
- `rain_timeseries.dfy` (module `RainTimeseries`) holds
  `parse_rain_timeseries`. It skips empty lines and decodes every other line
  into one pair. It divides each intensity by 15·60·1000 to turn millimetres
  per fifteen minutes into metres per second. It refuses a series whose last
  intensity is not zero.
- `bui_reader.dfy` (module `BuiReader`) holds the constructor. The start date
  and time come from the second whitespace-separated field of the path, or
  default to `2020-01-01` and `00:00:00`. It also computes the last time step
  and the duration.
- `results.dfy` (module `Results`) holds the `Option` and `Result` types.

Inputs and error paths:

- The file's text is an input string, so reading the file is not modelled.
- Reading one line is an input record, `LineReader`, with two parts.
  `literal` says whether `list(ast.literal_eval(line))` succeeds. `pair`
  gives that list's first two elements as offset and intensity, when both
  exist and are numbers.
- The source reads lines in two passes. The first comprehension evaluates
  every non-empty line. Only then does the second one index and divide. The
  model keeps that order.
- Each exception the source raises is a `Failure` value:
  - a non-empty line that is not a literal gives `MalformedLine`, naming the
    first such line.
  - when every line is a literal, a line without a numeric pair gives
    `MalformedPair`, naming the first such line. So a badly shaped early
    line loses to a later line that is not a literal at all.
  - a file with no non-empty line gives `NoEntries` (`timeseries[-1]` raises
    `IndexError`). This happens exactly when the text is nothing but
    newlines.
  - a non-zero last intensity gives `NonZeroLastIntensity` (the
    `ValueError`). The message says "larger than 0", but the code checks for
    "not zero", so a negative last intensity is refused too. The model follows
    the code.
  - a payload with a single entry gives `TooFewEntries` (`values[-2]` raises
    `IndexError` in the constructor).
- The field is read from the whole path, not from the base name. If a
  directory name contains a space, the second field comes from that
  directory, and the defaults are used unless that field is itself a valid
  fourteen-digit token. If the timestamp is followed by an extension, the
  field is not a bare fourteen-digit token, and the defaults are used. The
  model keeps this behaviour.

## Model

| member | source | states |
|---|---|---|
| Text.Fields | batch_calculator/read_rainfall_events.py:13 | every field of `filepath.split()` is non-empty and free of whitespace |
| Text.FieldsOfInterleave | batch_calculator/read_rainfall_events.py:13 | for any layout of whitespace-free fields between whitespace runs (non-empty between fields, possibly empty at either end), `split()` gives back exactly those fields, in order |
| Text.LayoutOf | batch_calculator/read_rainfall_events.py:13 | every string, the file path included, splits into whitespace runs and whitespace-free fields that meet the conditions of `Text.FieldsOfInterleave`, so that lemma covers every input of `split()` |
| Text.SplitOfLayout | batch_calculator/read_rainfall_events.py:13 | the fields `split()` returns for any string are the fields of some layout of that string: whitespace runs (non-empty between fields) alternating with non-empty whitespace-free fields that concatenate back to the string |
| Text.FieldsSkipSpace | batch_calculator/read_rainfall_events.py:13 | leading whitespace contributes no field |
| Text.FieldsTakeWord | batch_calculator/read_rainfall_events.py:13 | a whitespace-free run followed by whitespace or the end of the text is one whole field |
| Text.Word | batch_calculator/read_rainfall_events.py:13 | a field is the longest whitespace-free prefix of what remains: it is followed by whitespace or by the end of the text |
| Text.SplitLines | batch_calculator/read_rainfall_events.py:51 | `split("\n")` yields at least one piece and no piece contains a newline |
| Text.JoinSplitLines | batch_calculator/read_rainfall_events.py:51 | joining the pieces with newlines restores the file's text, so no character is lost or moved |
| Text.SplitLinesOfJoin | batch_calculator/read_rainfall_events.py:51 | splitting newline-free lines joined by newlines gives back exactly those lines |
| Text.AllPiecesEmpty | batch_calculator/read_rainfall_events.py:49-53 | every piece is empty exactly when the text consists only of newlines |
| Timestamp.DaysInMonth | batch_calculator/read_rainfall_events.py:13 | February has 29 days exactly in Gregorian leap years; every month has 28 to 31 days |
| Timestamp.ParseCompact | batch_calculator/read_rainfall_events.py:13 | a fourteen-character token of ASCII digits that `strptime` accepts yields a valid calendar date-time whose fourteen-digit rendering is the token itself |
| Timestamp.ParseOfFormat | batch_calculator/read_rainfall_events.py:13 | every valid date-time's fourteen-digit rendering is accepted and read back as that same date-time |
| Timestamp.ParseAcceptsRenderings | batch_calculator/read_rainfall_events.py:13 | a token that is the rendering of a valid date-time is read as that date-time |
| Timestamp.ParseRefusesOnlyNonStamps | batch_calculator/read_rainfall_events.py:11-17 | a token is refused, so the fallback is taken, exactly when no valid date-time renders to it |
| Timestamp.NumberOfPad | batch_calculator/read_rainfall_events.py:12-14 | writing a number zero-padded to a width and reading the digits back gives the number |
| Timestamp.PadNumberOf | batch_calculator/read_rainfall_events.py:12-14 | reading a digit string and writing it back at the same width gives the same digits, leading zeros included |
| Timestamp.FormatDate | batch_calculator/read_rainfall_events.py:12-14 | `%Y-%m-%d` is ten characters: the first eight digits of the compact form, with hyphens at positions 4 and 7 |
| Timestamp.FormatTime | batch_calculator/read_rainfall_events.py:22-24 | `%H:%M:%S` is eight characters: the last six digits of the compact form, with colons at positions 2 and 5 |
| Timestamp.FormatsOfToken | batch_calculator/read_rainfall_events.py:12-24 | the date and time of a parsed token are that token's own digits, regrouped as `YYYY-MM-DD` and `hh:mm:ss` |
| BuiReader.SecondField | batch_calculator/read_rainfall_events.py:13 | the second field exists exactly when `split()` yields at least two fields; it is then `split()[1]`, non-empty and free of whitespace |
| BuiReader.SecondFieldOfLayout | batch_calculator/read_rainfall_events.py:13 | for a path laid out as fields between whitespace runs, the token read is the second of those fields, and there is none when there are fewer than two |
| BuiReader.FilenameStamp | batch_calculator/read_rainfall_events.py:11-17 | a date-time exists only when the path has a second field, and it renders back to that field; conversely, a second field that renders a valid date-time is read as that date-time |
| BuiReader.StartDate | batch_calculator/read_rainfall_events.py:11-18 | `start_date` is `YYYY-MM-DD` built from the second field's digits when that field parses, and `2020-01-01` otherwise |
| BuiReader.StartTime | batch_calculator/read_rainfall_events.py:21-28 | `start_time` is `hh:mm:ss` built from the second field's digits when that field parses, and `00:00:00` otherwise |
| BuiReader.DefaultsRenderDefaultStamp | batch_calculator/read_rainfall_events.py:16-28 | the two default strings are the date and time of the single date-time 2020-01-01 00:00:00 |
| BuiReader.StartDateAndTimeAgree | batch_calculator/read_rainfall_events.py:11-28 | date and time render one and the same date-time, so both come from the filename or both are defaults, never a mix |
| BuiReader.StartDatetime | batch_calculator/read_rainfall_events.py:31 | `start_datetime` has the 19-character `YYYY-MM-DDThh:mm:ss` shape, with the start date before the `T` and the start time after it |
| BuiReader.StartDatetimeJoinsParts | batch_calculator/read_rainfall_events.py:31 | `start_datetime` is exactly `start_date + "T" + start_time` |
| BuiReader.Open | batch_calculator/read_rainfall_events.py:7-45 | a parse error passes through unchanged; a payload with fewer than two entries fails; otherwise the reader holds the path, the text, the payload, the start date and time, and `start_datetime` as date + `T` + time, with the step and duration below |
| BuiReader.LastTimestep | batch_calculator/read_rainfall_events.py:40-42 | the last offset is the one before it plus `last_timestep` |
| BuiReader.Duration | batch_calculator/read_rainfall_events.py:44-45 | the duration is `(2·last − previous)·60` seconds, one last time step past the last offset |
| BuiReader.DurationCoversSeries | batch_calculator/read_rainfall_events.py:40-45 | when the last step does not go backwards, the duration is at least the last offset in seconds |
| RainTimeseries.NonEmptyLines | batch_calculator/read_rainfall_events.py:49-53 | the kept lines are exactly the non-empty lines, with multiplicity, so there are as many as the file has non-empty lines |
| RainTimeseries.NonEmptyLinesAppend | batch_calculator/read_rainfall_events.py:49-53 | filtering commutes with concatenation, so kept lines stay in file order |
| RainTimeseries.FirstFailing | batch_calculator/read_rainfall_events.py:49-58 | reports no position exactly when every line passes; otherwise it reports the first line that fails, with every earlier line passing, which is where a comprehension raises |
| RainTimeseries.ReadLines | batch_calculator/read_rainfall_events.py:49-58 | succeeds exactly when every line is a literal and every literal is a numeric pair, with one entry per line in order; any failure is a malformed line or a malformed pair |
| RainTimeseries.MalformedLineIsFirstNonLiteral | batch_calculator/read_rainfall_events.py:49-53 | a `MalformedLine` error names the first non-empty line that is not a literal |
| RainTimeseries.LiteralErrorsComeFirst | batch_calculator/read_rainfall_events.py:49-58 | on the text `[5]` then `x`, where the first line is a literal with too few elements and the second is no literal, the error names `x`: the first pass finishes before the second starts |
| RainTimeseries.MalformedPairIsFirstWithoutPair | batch_calculator/read_rainfall_events.py:49-58 | a `MalformedPair` error arises only when every non-empty line is a literal, and it names the first line without a numeric pair |
| RainTimeseries.Convert | batch_calculator/read_rainfall_events.py:55-58 | length and offsets are kept, and each converted intensity times 900000 is the raw intensity |
| RainTimeseries.ConvertedZero | batch_calculator/read_rainfall_events.py:57-61 | dividing an intensity by the conversion divisor gives zero exactly when the intensity is zero, so the last-value check can be made on either side of the conversion |
| RainTimeseries.UnconvertConvert | batch_calculator/read_rainfall_events.py:55-58 | multiplying back by 900000 recovers the raw series, so the conversion loses nothing |
| RainTimeseries.ConvertAppend | batch_calculator/read_rainfall_events.py:55-58 | conversion is element-wise: converting a concatenation is converting each part |
| RainTimeseries.Payload | batch_calculator/read_rainfall_events.py:48-65 | success exactly when the series ends with a zero intensity; `NonZeroLastIntensity` exactly when its last intensity is not zero; `NoEntries` exactly when it is empty; a success has offset 0, no interpolation, units `m/s`, the converted series as values, and a zero last intensity |
| RainTimeseries.ParseLines | batch_calculator/read_rainfall_events.py:49-65 | over the kept lines: success exactly when all are readable, there is at least one, and the last pair's intensity is zero; `NonZeroLastIntensity` exactly when the last intensity is not zero; `NoEntries` exactly when no line is kept; a success has the fixed payload fields and one converted entry per line; each line error names the first failing line of its pass |
| RainTimeseries.ParseRainTimeseries | batch_calculator/read_rainfall_events.py:47-65 | over the file's text: success exactly when every non-empty line is a literal and a numeric pair, there is at least one, and the last intensity is zero; `NonZeroLastIntensity` exactly when the last intensity is not zero; `NoEntries` exactly when no line is non-empty; a success has offset 0, no interpolation, units `m/s`, and per non-empty line, in order, its offset and its intensity divided by 900000 |
| RainTimeseries.ParsedLength | batch_calculator/read_rainfall_events.py:49-53 | the payload holds one pair per non-empty line of the file |
| RainTimeseries.NoEntriesExactlyForBlankText | batch_calculator/read_rainfall_events.py:49-61 | the empty-series error is raised exactly when the file holds nothing but newlines |

## Left out

- Opening and reading the file, and the `print` calls. The file's text is a parameter.
- `ast.literal_eval` in general. The two line readers are parameters, so the model says nothing about which texts are literals or pairs.
- Offsets that are not integers. The source copies `element[0]` unchanged, whatever its type; the model treats a line whose offset is not an integer as having no pair.
- Offsets are integers and intensities are exact reals. IEEE rounding of the division and `int(...)` truncation of fractional offsets are not modelled. The conversion is exact, so a zero test on converted intensities matches the raw ones.
- Timestamp.ParseCompact: reads only fourteen-character tokens of ASCII digits. `strptime` backtracks over variable-width fields and also accepts tokens of nine to thirteen characters, for example `202011112`, which it reads as 2020-01-01 01:01:02. `strptime` also accepts tokens with non-ASCII decimal digits, such as a full-width year in `２０２０0101000000`, which it reads as 2020-01-01 00:00:00. `ParseCompact` refuses both kinds.
- BuiReader.FilenameStamp: only fourteen-character tokens of ASCII digits are accepted. `strptime` also accepts shorter, variable-width tokens such as `202011112` (nine characters, one digit each for month, day, hour, minute and second) and non-ASCII decimal digits. The model sends those to the defaults.
- Timestamp.FormatDate: years 1 to 999 are always padded to four digits. The platform's `strftime` may print such years with fewer digits.
- The message text of the raised exceptions.
- batch_calculator/StartSimulation.py: remote API calls, uploads and polling loops with fixed sleeps, all handled by an external service.
- batch_calculator/scripts.py: command-line parsing, the password prompt, and CSV export.
- setup.py: packaging metadata.
- The dry-weather-flow builder, batch driver, downloader and statistics modules are not part of this model.
