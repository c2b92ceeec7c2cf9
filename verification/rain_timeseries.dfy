/** `BuiReader.parse_rain_timeseries`: the text of a rain-event file becomes the
    rain payload the simulation service expects: one `[offset, intensity]` pair
    per non-empty line, intensities converted from millimetres per fifteen
    minutes to metres per second, and a series whose last intensity is not zero
    refused. */
module RainTimeseries {

  import opened Results
  import opened Text

  /** One `[offset, intensity]` pair: minutes since the start of the event and
      a rain intensity. */
  datatype Entry = Entry(offset: int, intensity: real)

  /** The payload dictionary `{"offset", "interpolate", "values", "units"}`. */
  datatype RainData = RainData(offset: int, interpolate: bool, values: seq<Entry>, units: string)

  /** How one line is read, in the two passes of `parse_rain_timeseries`.
      `literal(line)` holds when `list(ast.literal_eval(line))` succeeds (the
      first comprehension); `pair(line)` is `[element[0], element[1]]` of that
      list when both elements exist and are numbers (the second
      comprehension, which indexes and divides). */
  datatype LineReader = LineReader(literal: string -> bool, pair: string -> Option<Entry>)

  /** Why parsing stops: a line that is not a literal (the `ValueError` or
      `SyntaxError` of `ast.literal_eval`), a literal that is not a numeric
      pair (the `IndexError` or `TypeError` of the second pass), a file
      without any entry (`timeseries[-1]` raises `IndexError`), or a last
      intensity other than zero (the `ValueError` the reader raises). */
  datatype ParseError = MalformedLine(line: string) | MalformedPair(line: string) | NoEntries | NonZeroLastIntensity

  /** Millimetres per fifteen minutes to metres per second: 15 * 60 seconds
      and 1000 millimetres to the metre. */
  const ConversionDivisor: int := 15 * 60 * 1000

  /** The non-empty lines, in file order (the comprehension's `if item`). */
  function NonEmptyLines(lines: seq<string>): (r: seq<string>)
    ensures forall i :: 0 <= i < |r| ==> r[i] != []
    ensures multiset(r) == multiset(lines)[[] := 0]
    ensures |r| == |lines| - multiset(lines)[[]]
  {
    if lines == [] then []
    else
      assert lines == [lines[0]] + lines[1..];
      if lines[0] == [] then NonEmptyLines(lines[1..])
      else [lines[0]] + NonEmptyLines(lines[1..])
  }

  /** Dropping empty lines commutes with concatenation, so the kept lines stay
      in file order. */
  lemma {:induction false} NonEmptyLinesAppend(a: seq<string>, b: seq<string>)
    ensures NonEmptyLines(a + b) == NonEmptyLines(a) + NonEmptyLines(b)
  {
    if a == [] {
      assert a + b == b;
    } else {
      assert (a + b)[0] == a[0];
      assert (a + b)[1..] == a[1..] + b;
      NonEmptyLinesAppend(a[1..], b);
    }
  }

  /** The position of the first line that `ok` refuses, if any: the line a
      comprehension over `lines` raises on. */
  function FirstFailing(lines: seq<string>, ok: string -> bool): (r: Option<nat>)
    ensures r.None? <==> forall i :: 0 <= i < |lines| ==> ok(lines[i])
    ensures r.Some? ==> r.value < |lines| && !ok(lines[r.value])
    ensures r.Some? ==> forall j :: 0 <= j < r.value ==> ok(lines[j])
  {
    if lines == [] then None
    else if !ok(lines[0]) then Some(0)
    else
      match FirstFailing(lines[1..], ok)
      case None =>
        assert forall i :: 1 <= i < |lines| ==> lines[i] == lines[1..][i - 1];
        None
      case Some(k) =>
        assert lines[k + 1] == lines[1..][k];
        assert forall j :: 1 <= j < k + 1 ==> lines[j] == lines[1..][j - 1];
        Some(k + 1)
  }

  /** Every line is a literal and every literal is a numeric pair. */
  predicate Readable(lines: seq<string>, reader: LineReader) {
    && (forall i :: 0 <= i < |lines| ==> reader.literal(lines[i]))
    && (forall i :: 0 <= i < |lines| ==> reader.pair(lines[i]).Some?)
  }

  /** `values` holds one entry per line, in order: the line's offset, and its
      intensity divided by 900000. */
  predicate ConvertedPairs(values: seq<Entry>, lines: seq<string>, reader: LineReader)
    requires Readable(lines, reader)
  {
    && |values| == |lines|
    && forall i :: 0 <= i < |lines| ==>
      && values[i].offset == reader.pair(lines[i]).value.offset
      && values[i].intensity * (ConversionDivisor as real) == reader.pair(lines[i]).value.intensity
  }

  /** The two comprehensions of `parse_rain_timeseries` over the kept lines:
      first every line is evaluated, then every evaluated line is indexed, so
      a line that is not a literal is reported before any badly shaped one. */
  function ReadLines(lines: seq<string>, reader: LineReader): (r: Result<seq<Entry>, ParseError>)
    ensures r.Success? <==> Readable(lines, reader)
    ensures r.Success? ==> |r.value| == |lines|
    ensures r.Success? ==> forall i :: 0 <= i < |lines| ==> r.value[i] == reader.pair(lines[i]).value
    ensures r.Failure? ==> r.error.MalformedLine? || r.error.MalformedPair?
  {
    match FirstFailing(lines, reader.literal)
    case Some(i) => Failure(MalformedLine(lines[i]))
    case None =>
      match FirstFailing(lines, l => reader.pair(l).Some?)
      case Some(i) => Failure(MalformedPair(lines[i]))
      case None => Success(seq(|lines|, i requires 0 <= i < |lines| => reader.pair(lines[i]).value))
  }

  function ConvertEntry(e: Entry): Entry {
    Entry(e.offset, e.intensity / (ConversionDivisor as real))
  }

  /** The series with intensities in metres per second: offsets unchanged,
      every intensity divided by 900000, order and length kept. */
  function Convert(raw: seq<Entry>): (r: seq<Entry>)
    ensures |r| == |raw|
    ensures forall i :: 0 <= i < |r| ==>
      (r[i].offset == raw[i].offset && r[i].intensity * (ConversionDivisor as real) == raw[i].intensity)
  {
    seq(|raw|, i requires 0 <= i < |raw| => ConvertEntry(raw[i]))
  }

  /** A converted intensity is zero exactly when the raw one is. */
  lemma ConvertedZero(x: real)
    ensures x / (ConversionDivisor as real) == 0.0 <==> x == 0.0
  {
    assert ConversionDivisor as real == 900000.0;
  }

  /** The inverse conversion, metres per second back to millimetres per
      fifteen minutes. */
  function Unconvert(series: seq<Entry>): (r: seq<Entry>)
  {
    seq(|series|, i requires 0 <= i < |series| =>
      Entry(series[i].offset, series[i].intensity * (ConversionDivisor as real)))
  }

  /** The conversion loses nothing. */
  lemma UnconvertConvert(raw: seq<Entry>)
    ensures Unconvert(Convert(raw)) == raw
  {
  }

  /** Converting piecewise and concatenating equals converting the whole. */
  lemma ConvertAppend(a: seq<Entry>, b: seq<Entry>)
    ensures Convert(a + b) == Convert(a) + Convert(b)
  {
  }

  /** The series has a last entry and its intensity is zero. */
  predicate EndsDry(series: seq<Entry>) {
    |series| > 0 && series[|series| - 1].intensity == 0.0
  }

  /** The series has a last entry and its intensity is not zero. */
  predicate EndsWet(series: seq<Entry>) {
    |series| > 0 && series[|series| - 1].intensity != 0.0
  }

  /** The checks and the payload of `parse_rain_timeseries` once the pairs
      are read: convert, refuse a series without entries or with a non-zero
      last intensity, and fill in the payload's fixed fields. */
  function Payload(raw: seq<Entry>): (r: Result<RainData, ParseError>)
    ensures r.Success? <==> EndsDry(raw)
    ensures r == Failure(NonZeroLastIntensity) <==> EndsWet(raw)
    ensures r == Failure(NoEntries) <==> raw == []
    ensures r.Success? ==>
      && r.value.offset == 0
      && !r.value.interpolate
      && r.value.units == "m/s"
      && r.value.values == Convert(raw)
      && EndsDry(r.value.values)
  {
    var series := Convert(raw);
    if |series| == 0 then Failure(NoEntries)
    else
      ConvertedZero(raw[|series| - 1].intensity);
      if series[|series| - 1].intensity != 0.0 then Failure(NonZeroLastIntensity)
      else Success(RainData(0, false, series, "m/s"))
  }

  /** `parse_rain_timeseries` once the text is cut into its non-empty
      lines. */
  function ParseLines(kept: seq<string>, reader: LineReader): (r: Result<RainData, ParseError>)
    ensures r.Success? <==>
      Readable(kept, reader) && |kept| > 0 && reader.pair(kept[|kept| - 1]).value.intensity == 0.0
    ensures r == Failure(NonZeroLastIntensity) <==>
      Readable(kept, reader) && |kept| > 0 && reader.pair(kept[|kept| - 1]).value.intensity != 0.0
    ensures r == Failure(NoEntries) <==> kept == []
    ensures r.Success? ==> r.value.offset == 0 && !r.value.interpolate && r.value.units == "m/s"
    ensures r.Success? ==> Readable(kept, reader) && ConvertedPairs(r.value.values, kept, reader)
    ensures r.Failure? && r.error.MalformedLine? ==>
      FirstFailing(kept, reader.literal).Some? && r.error.line == kept[FirstFailing(kept, reader.literal).value]
    ensures r.Failure? && r.error.MalformedPair? ==>
      && FirstFailing(kept, reader.literal).None?
      && FirstFailing(kept, l => reader.pair(l).Some?).Some?
      && r.error.line == kept[FirstFailing(kept, l => reader.pair(l).Some?).value]
  {
    match ReadLines(kept, reader)
    case Failure(err) => Failure(err)
    case Success(raw) => Payload(raw)
  }

  /** The file's non-empty lines, in order: `split("\n")` then `if item`. */
  function KeptLines(contents: string): seq<string> {
    NonEmptyLines(SplitLines(contents))
  }

  /** `parse_rain_timeseries`. The `[[0]]` placeholder of the payload's
      initial `values` never reaches a result: success carries the converted
      series, failure carries no payload. */
  function ParseRainTimeseries(contents: string, reader: LineReader): (r: Result<RainData, ParseError>)
    ensures var kept := KeptLines(contents);
      r.Success? <==>
        && Readable(kept, reader)
        && |kept| > 0
        && reader.pair(kept[|kept| - 1]).value.intensity == 0.0
    ensures var kept := KeptLines(contents);
      r == Failure(NonZeroLastIntensity) <==>
        && Readable(kept, reader)
        && |kept| > 0
        && reader.pair(kept[|kept| - 1]).value.intensity != 0.0
    ensures r == Failure(NoEntries) <==> KeptLines(contents) == []
    ensures r.Success? ==>
      && r.value.offset == 0
      && !r.value.interpolate
      && r.value.units == "m/s"
    ensures r.Success? ==>
      Readable(KeptLines(contents), reader) && ConvertedPairs(r.value.values, KeptLines(contents), reader)
  {
    ParseLines(KeptLines(contents), reader)
  }

  /** A line that is not a literal is reported only when it is the first such
      non-empty line. */
  lemma MalformedLineIsFirstNonLiteral(contents: string, reader: LineReader) returns (i: nat)
    requires ParseRainTimeseries(contents, reader).Failure?
    requires ParseRainTimeseries(contents, reader).error.MalformedLine?
    ensures var kept := KeptLines(contents);
      && i < |kept|
      && ParseRainTimeseries(contents, reader).error.line == kept[i]
      && !reader.literal(kept[i])
      && forall j :: 0 <= j < i ==> reader.literal(kept[j])
  {
    var kept := KeptLines(contents);
    i := FirstFailing(kept, reader.literal).value;
  }

  /** A badly shaped line is reported only when every non-empty line is a
      literal, and it is the first line without a numeric pair. */
  lemma MalformedPairIsFirstWithoutPair(contents: string, reader: LineReader) returns (i: nat)
    requires ParseRainTimeseries(contents, reader).Failure?
    requires ParseRainTimeseries(contents, reader).error.MalformedPair?
    ensures var kept := KeptLines(contents);
      && (forall j :: 0 <= j < |kept| ==> reader.literal(kept[j]))
      && i < |kept|
      && ParseRainTimeseries(contents, reader).error.line == kept[i]
      && reader.pair(kept[i]).None?
      && forall j :: 0 <= j < i ==> reader.pair(kept[j]).Some?
  {
    var kept := KeptLines(contents);
    i := FirstFailing(kept, l => reader.pair(l).Some?).value;
  }

  /** The passes run in order: in `[5]` followed by `x`, the first line is a
      literal without a pair and the second is no literal at all, and the
      second line is the one reported. */
  lemma LiteralErrorsComeFirst()
    ensures var reader := LineReader(l => l != "x", l => None);
      ParseRainTimeseries("[5]\nx", reader) == Failure(MalformedLine("x"))
  {
    var reader := LineReader(l => l != "x", l => None);
    var lines := ["[5]", "x"];
    KeptLinesOfExample();
    assert FirstFailing(lines, reader.literal) == Some(1) by {
      assert lines[1..] == ["x"];
      assert FirstFailing(["x"], reader.literal) == Some(0);
    }
    assert ReadLines(lines, reader) == Failure(MalformedLine("x"));
  }

  lemma KeptLinesOfExample()
    ensures KeptLines("[5]\nx") == ["[5]", "x"]
  {
    SplitLinesOfExample();
    var lines := ["[5]", "x"];
    assert lines[1..] == ["x"];
    assert ["x"][1..] == [];
  }

  lemma SplitLinesOfExample()
    ensures SplitLines("[5]\nx") == ["[5]", "x"]
  {
    var lines := ["[5]", "x"];
    assert Join(lines, "\n") == "[5]\nx" by {
      assert lines[1..] == ["x"];
    }
    assert '\n' !in lines[0] && '\n' !in lines[1];
    SplitLinesOfJoin(lines);
  }

  /** The payload holds one pair per non-empty line of the file. */
  lemma ParsedLength(contents: string, reader: LineReader)
    ensures ParseRainTimeseries(contents, reader).Success? ==>
      |ParseRainTimeseries(contents, reader).value.values|
        == |SplitLines(contents)| - multiset(SplitLines(contents))[[]]
  {
  }

  /** The reader finds no entry exactly when the file is blank: nothing but
      newlines, including the empty file. */
  lemma NoEntriesExactlyForBlankText(contents: string, reader: LineReader)
    ensures ParseRainTimeseries(contents, reader) == Failure(NoEntries)
        <==> AllNewlines(contents)
  {
    NoEntriesOnlyForBlankText(contents);
  }

  /** No line survives the filter exactly when the text is nothing but
      newlines. */
  lemma NoEntriesOnlyForBlankText(contents: string)
    ensures NonEmptyLines(SplitLines(contents)) == []
        <==> AllNewlines(contents)
  {
    var lines := SplitLines(contents);
    AllPiecesEmpty(contents);
    if !AllEmpty(lines) {
      var i :| 0 <= i < |lines| && lines[i] != [];
      assert lines[i] in multiset(lines);
      assert lines[i] in multiset(NonEmptyLines(lines));
    }
  }
}
