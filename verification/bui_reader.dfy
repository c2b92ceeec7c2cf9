/** `BuiReader.__init__`: a rain-event ("bui") file read into its start date and
    time, its rain payload, its last time step and its duration. The path and
    the file's text are inputs; opening the file is not modelled. */
module BuiReader {

  import opened Results
  import opened Text
  import opened Timestamp
  import opened RainTimeseries

  const DefaultStartDate: string := "2020-01-01"
  const DefaultStartTime: string := "00:00:00"

  /** The date-time the defaults spell out. */
  const DefaultStamp: DateTime := Stamp(2020, 1, 1, 0, 0, 0)

  /** `filepath.split()[1]`, when the path has a second field. */
  function SecondField(filepath: string): (r: Option<string>)
    ensures r.Some? <==> |Fields(filepath)| >= 2
    ensures r.Some? ==> r.value != [] && NoSpace(r.value)
    ensures r.Some? ==> r.value == Fields(filepath)[1]
  {
    var fields := Fields(filepath);
    if |fields| < 2 then None else Some(fields[1])
  }

  /** Whatever whitespace surrounds the fields of the path, the token read is
      its second field, and there is none when it has fewer than two. */
  lemma SecondFieldOfLayout(ws: seq<string>, xs: seq<string>)
    requires |ws| == |xs| + 1
    requires forall i :: 0 <= i < |ws| ==> AllSpace(ws[i])
    requires forall i :: 0 < i < |xs| ==> ws[i] != []
    requires forall i :: 0 <= i < |xs| ==> xs[i] != [] && NoSpace(xs[i])
    ensures SecondField(Interleave(ws, xs)) == if |xs| >= 2 then Some(xs[1]) else None
  {
    FieldsOfInterleave(ws, xs);
  }

  /** The date-time in the path's second whitespace-separated field, when there
      is such a field and it reads as `YYYYMMDDhhmmss`; nothing otherwise (the
      `IndexError` or `ValueError` the bare `except` swallows). */
  function FilenameStamp(filepath: string): (r: Option<DateTime>)
    ensures r.Some? ==> SecondField(filepath).Some? && FormatCompact(r.value) == SecondField(filepath).value
    ensures SecondField(filepath).None? ==> r.None?
    ensures SecondField(filepath).Some? ==>
      forall st: DateTime :: FormatCompact(st) == SecondField(filepath).value ==> r == Some(st)
  {
    match SecondField(filepath)
    case None => None
    case Some(tok) =>
      ParseAcceptsRenderings(tok);
      ParseCompact(tok)
  }

  /** `start_date`: the token's date digits as `YYYY-MM-DD`, or the default. */
  function StartDate(filepath: string): (r: string)
    ensures |r| == 10
    ensures FilenameStamp(filepath).Some? ==>
      var tok := SecondField(filepath).value;
      r == tok[0..4] + "-" + tok[4..6] + "-" + tok[6..8]
    ensures FilenameStamp(filepath).None? ==> r == DefaultStartDate
  {
    match FilenameStamp(filepath)
    case Some(st) =>
      FormatsOfToken(SecondField(filepath).value, st);
      FormatDate(st)
    case None => DefaultStartDate
  }

  /** `start_time`: the token's time digits as `hh:mm:ss`, or the default. */
  function StartTime(filepath: string): (r: string)
    ensures |r| == 8
    ensures FilenameStamp(filepath).Some? ==>
      var tok := SecondField(filepath).value;
      r == tok[8..10] + ":" + tok[10..12] + ":" + tok[12..14]
    ensures FilenameStamp(filepath).None? ==> r == DefaultStartTime
  {
    match FilenameStamp(filepath)
    case Some(st) =>
      FormatsOfToken(SecondField(filepath).value, st);
      FormatTime(st)
    case None => DefaultStartTime
  }

  /** The shape `YYYY-MM-DDThh:mm:ss`. */
  predicate IsIsoDatetime(s: string) {
    && |s| == 19
    && s[4] == '-' && s[7] == '-' && s[10] == 'T' && s[13] == ':' && s[16] == ':'
    && IsDigits(s[0..4]) && IsDigits(s[5..7]) && IsDigits(s[8..10])
    && IsDigits(s[11..13]) && IsDigits(s[14..16]) && IsDigits(s[17..19])
  }

  /** `start_datetime`: date and time joined by `T`. */
  function StartDatetime(filepath: string): (r: string)
    ensures IsIsoDatetime(r)
    ensures r[..10] == StartDate(filepath) && r[11..] == StartTime(filepath)
  {
    StartDateAndTimeAgree(filepath);
    var st := FilenameStamp(filepath).GetOr(DefaultStamp);
    JoinedIsIso(FormatDate(st), FormatTime(st));
    StartDate(filepath) + "T" + StartTime(filepath)
  }

  lemma JoinedIsIso(date: string, time: string)
    requires |date| == 10 && date[4] == '-' && date[7] == '-'
    requires IsDigits(date[0..4]) && IsDigits(date[5..7]) && IsDigits(date[8..10])
    requires |time| == 8 && time[2] == ':' && time[5] == ':'
    requires IsDigits(time[0..2]) && IsDigits(time[3..5]) && IsDigits(time[6..8])
    ensures IsIsoDatetime(date + "T" + time)
  {
    var s := date + "T" + time;
    assert s[0..4] == date[0..4] && s[5..7] == date[5..7] && s[8..10] == date[8..10];
    assert s[11..13] == time[0..2] && s[14..16] == time[3..5] && s[17..19] == time[6..8];
  }

  /** `start_datetime` is exactly `start_date + "T" + start_time`. */
  lemma StartDatetimeJoinsParts(filepath: string)
    ensures StartDatetime(filepath) == StartDate(filepath) + "T" + StartTime(filepath)
  {
    var r, d, t := StartDatetime(filepath), StartDate(filepath), StartTime(filepath);
    assert r == r[..10] + [r[10]] + r[11..];
  }

  lemma DefaultsRenderDefaultStamp()
    ensures FormatDate(DefaultStamp) == DefaultStartDate
    ensures FormatTime(DefaultStamp) == DefaultStartTime
  {
    PadDefaults();
  }

  lemma PadDefaults()
    ensures Pad(2020, 4) == "2020" && Pad(1, 2) == "01" && Pad(0, 2) == "00"
  {
    assert DigitChar(0) == '0' && DigitChar(1) == '1' && DigitChar(2) == '2';
    assert Pad(0, 1) == Pad(0, 0) + [DigitChar(0)] == "0";
    assert Pad(2, 1) == Pad(0, 0) + [DigitChar(2)] == "2";
    assert Pad(1, 2) == Pad(0, 1) + [DigitChar(1)] == "01";
    assert Pad(0, 2) == Pad(0, 1) + [DigitChar(0)] == "00";
    assert Pad(20, 2) == Pad(2, 1) + [DigitChar(0)] == "20";
    assert Pad(202, 3) == Pad(20, 2) + [DigitChar(2)] == "202";
    assert Pad(2020, 4) == Pad(202, 3) + [DigitChar(0)] == "2020";
  }

  /** Date and time come from one date-time: both from the filename or both
      from the defaults, never one of each. */
  lemma StartDateAndTimeAgree(filepath: string)
    ensures var st := FilenameStamp(filepath).GetOr(DefaultStamp);
      StartDate(filepath) == FormatDate(st) && StartTime(filepath) == FormatTime(st)
  {
    DefaultsRenderDefaultStamp();
  }

  /** A constructed reader. */
  datatype Reader = Reader(
    filepath: string,
    startDate: string,
    startTime: string,
    startDatetime: string,
    rainTimeseries: string,
    rainData: RainData,
    lastTimestep: int,
    duration: int)

  /** Why construction fails: the payload could not be built, or it holds a
      single entry so `values[-2]` raises `IndexError`. */
  datatype ReadError = BadSeries(cause: ParseError) | TooFewEntries

  /** `BuiReader(filepath)` on a file whose text is `contents`; `reader`
      reads one line. The last time step is the difference of
      the last two offsets, and the duration runs one last time step past the
      last offset, in seconds. */
  function Open(filepath: string, contents: string, reader: LineReader): (r: Result<Reader, ReadError>)
    ensures var p := ParseRainTimeseries(contents, reader);
      && (p.Failure? ==> r == Failure(BadSeries(p.error)))
      && (p.Success? && |p.value.values| < 2 ==> r == Failure(TooFewEntries))
      && (r.Success? <==> p.Success? && |p.value.values| >= 2)
    ensures r.Success? ==>
      && r.value.rainData == ParseRainTimeseries(contents, reader).value
      && r.value.filepath == filepath
      && r.value.rainTimeseries == contents
      && r.value.startDate == StartDate(filepath)
      && r.value.startTime == StartTime(filepath)
      && r.value.startDatetime == r.value.startDate + "T" + r.value.startTime
    ensures r.Success? ==>
      var v := r.value.rainData.values;
      && r.value.lastTimestep + v[|v| - 2].offset == v[|v| - 1].offset
      && r.value.duration == (2 * v[|v| - 1].offset - v[|v| - 2].offset) * 60
  {
    match ParseRainTimeseries(contents, reader)
    case Failure(err) => Failure(BadSeries(err))
    case Success(rainData) =>
      var v := rainData.values;
      if |v| < 2 then Failure(TooFewEntries)
      else
        StartDatetimeJoinsParts(filepath);
        Success(Reader(filepath, StartDate(filepath), StartTime(filepath), StartDatetime(filepath),
                       contents, rainData, LastTimestep(v), Duration(v)))
  }

  /** `last_timestep`: the spacing of the last two offsets, in minutes. */
  function LastTimestep(v: seq<Entry>): (step: int)
    requires |v| >= 2
    ensures v[|v| - 2].offset + step == v[|v| - 1].offset
  {
    v[|v| - 1].offset - v[|v| - 2].offset
  }

  /** `duration`: one last time step past the last offset, converted from
      minutes to seconds. */
  function Duration(v: seq<Entry>): (seconds: int)
    requires |v| >= 2
    ensures seconds == (2 * v[|v| - 1].offset - v[|v| - 2].offset) * 60
  {
    (v[|v| - 1].offset + LastTimestep(v)) * 60
  }

  /** When the last two offsets do not go backwards, the duration covers the
      whole series: it is at least the last offset, in seconds. */
  lemma DurationCoversSeries(v: seq<Entry>)
    requires |v| >= 2 && LastTimestep(v) >= 0
    ensures Duration(v) >= v[|v| - 1].offset * 60
  {
  }
}
