/** The stateless helpers of the recorder window (inaudiorecorder.cpp):
    `time_from_seconds`, `file_name_by_time`, `get_suffix_by_mime`, the text
    `set_record_time` writes, the slider/position mapping of the playback
    slots and the redraw rule of `recorder_process_buffer`. */
module RecorderHelpers {
  import opened Format

  // ---------------------------------------------------------------------
  // time_from_seconds: "mm:ss"

  /** `time_from_seconds`: minutes and seconds, each written with width 2
      and fill '0', using C++ truncating `/` and `%`. */
  function TimeFromSeconds(seconds: int32): string {
    Width2(TDiv(seconds as int, 60)) + ":" + Width2(TMod(seconds as int, 60))
  }

  /** Reads "m...m:ss" back into a number of seconds. */
  function ParseClock(r: string): Option<int> {
    if |r| >= 4 && r[|r| - 3] == ':' && AllDigits(r[..|r| - 3]) && AllDigits(r[|r| - 2..])
    then Some(60 * DigitsValue(r[..|r| - 3]) + TwoDigitValue(r[|r| - 2..]))
    else None
  }

  /** Where the fields of "m:ss" sit, for any minutes text. */
  lemma ClockSlices(m: string, sec: string)
    requires |sec| == 2
    ensures var r := m + ":" + sec; |r| == |m| + 3 && r[|r| - 3] == ':' && r[..|r| - 3] == m && r[|r| - 2..] == sec
  {
  }

  /** For a non-negative count, `/` and `%` are the ordinary ones. */
  lemma TimeFromSecondsFields(seconds: int32)
    requires seconds >= 0
    ensures var s := seconds as int;
      TimeFromSeconds(seconds) == Width2(s / 60) + ":" + Width2(s % 60)
  {
    var s := seconds as int;
    assert TDiv(s, 60) == s / 60 && TMod(s, 60) == s % 60;
  }

  /** So the seconds field is always exactly two digits, 00 to 59. */
  lemma TimeFromSecondsShape(seconds: int32)
    requires seconds >= 0
    ensures var r := TimeFromSeconds(seconds);
      |r| >= 5 && r[|r| - 3] == ':' && AllDigits(r[|r| - 2..]) && 0 <= TwoDigitValue(r[|r| - 2..]) < 60
  {
    TimeFromSecondsFields(seconds);
    var s := seconds as int;
    Width2Digits(s % 60);
    ClockSlices(Width2(s / 60), Width2(s % 60));
  }

  /** `time_from_seconds` loses nothing for non-negative input. */
  lemma {:induction false} ClockRoundTrip(seconds: int32)
    requires seconds >= 0
    ensures ParseClock(TimeFromSeconds(seconds)) == Some(seconds as int)
  {
    TimeFromSecondsFields(seconds);
    var s := seconds as int;
    Width2Digits(s % 60);
    ClockSlices(Width2(s / 60), Width2(s % 60));
    Width2Value(s / 60);
  }

  /** Negative input follows C++ truncation: -5 s is "00:-5". */
  lemma NegativeSecondsRendering()
    ensures TimeFromSeconds(-5) == "00:-5"
    ensures TimeFromSeconds(-65) == "-1:-5"
  {
    assert NatDigits(5) == "5" && NatDigits(1) == "1" && NatDigits(0) == "0";
  }

  // ---------------------------------------------------------------------
  // set_record_time: "Record: mm:ss  "

  const MicrosPerSecond: int := 1_000_000

  /** The text `set_record_time(microseconds)` puts in the progress label. */
  function RecordLabel(microseconds: int): string {
    "Record: " + TimeFromSeconds(ToInt32(TDiv(microseconds, MicrosPerSecond))) + "  "
  }

  /** The label the stop handler writes: `-1 / 1000000` truncates to 0. */
  lemma StoppedRecordLabel()
    ensures RecordLabel(-1) == "Record: 00:00  "
  {
    assert TDiv(-1, MicrosPerSecond) == 0;
    assert NatDigits(0) == "0";
  }

  /** The label shows the whole seconds elapsed, and they read back. */
  lemma {:induction false} RecordLabelSeconds(microseconds: int)
    requires 0 <= microseconds < 0x8000_0000 * MicrosPerSecond
    ensures var text := RecordLabel(microseconds);
      |text| >= 15 && text[..8] == "Record: " && text[|text| - 2..] == "  " &&
      ParseClock(text[8..|text| - 2]) == Some(microseconds / MicrosPerSecond)
  {
    var secs := (microseconds / MicrosPerSecond) as int32;
    assert ToInt32(TDiv(microseconds, MicrosPerSecond)) == secs;
    ClockRoundTrip(secs);
    TimeFromSecondsShape(secs);
    var text := RecordLabel(microseconds);
    assert text[8..|text| - 2] == TimeFromSeconds(secs);
  }

  // ---------------------------------------------------------------------
  // recorder_process_buffer: redraw only on a new whole second

  /** Whether adding a buffer takes the accumulator from `oldTime` to
      `newTime` with a redraw: the whole second changed, or this is the
      first buffer since the accumulator was reset. */
  predicate RefreshesLabel(oldTime: int, newTime: int) {
    TDiv(newTime, MicrosPerSecond) != TDiv(oldTime, MicrosPerSecond) || oldTime == 0
  }

  function Sum(ds: seq<int>): int {
    if ds == [] then 0 else ds[0] + Sum(ds[1..])
  }

  /** Number of label redraws when buffers of durations `ds` arrive, one
      after the other, starting from accumulator `t0`. */
  function RefreshCount(t0: int, ds: seq<int>): nat
    decreases |ds|
  {
    if ds == [] then 0
    else (if RefreshesLabel(t0, t0 + ds[0]) then 1 else 0) + RefreshCount(t0 + ds[0], ds[1..])
  }

  predicate NonNegative(ds: seq<int>) {
    forall i :: 0 <= i < |ds| ==> ds[i] >= 0
  }

  lemma {:induction false} SumAppend(ds: seq<int>, d: int)
    ensures Sum(ds + [d]) == Sum(ds) + d
    decreases |ds|
  {
    if ds != [] {
      assert (ds + [d])[1..] == ds[1..] + [d];
      SumAppend(ds[1..], d);
    }
  }

  /** From a non-zero start, every redraw crosses at least one second
      boundary: there are no more redraws than seconds gained. */
  lemma {:induction false} RefreshCountAtMostSeconds(t0: int, ds: seq<int>)
    requires t0 > 0 && NonNegative(ds)
    ensures RefreshCount(t0, ds) <= (t0 + Sum(ds)) / MicrosPerSecond - t0 / MicrosPerSecond
    decreases |ds|
  {
    if ds != [] {
      RefreshCountAtMostSeconds(t0 + ds[0], ds[1..]);
      assert (t0 + ds[0]) / MicrosPerSecond >= t0 / MicrosPerSecond;
    }
  }

  /** From a non-zero start, a gained second is always redrawn. */
  lemma {:induction false} RefreshCountAtLeastOne(t0: int, ds: seq<int>)
    requires t0 > 0 && NonNegative(ds)
    requires (t0 + Sum(ds)) / MicrosPerSecond != t0 / MicrosPerSecond
    ensures RefreshCount(t0, ds) >= 1
    decreases |ds|
  {
    if ds != [] && (t0 + ds[0]) / MicrosPerSecond == t0 / MicrosPerSecond {
      RefreshCountAtLeastOne(t0 + ds[0], ds[1..]);
    }
  }

  /** Buffers summing to 999,999 microseconds from a whole, non-zero
      second redraw nothing; one more microsecond redraws exactly once. */
  lemma OneRedrawAtSecondCrossing(k: int, ds: seq<int>)
    requires k >= 1 && NonNegative(ds) && Sum(ds) == MicrosPerSecond - 1
    ensures RefreshCount(k * MicrosPerSecond, ds) == 0
    ensures RefreshCount(k * MicrosPerSecond, ds + [1]) == 1
  {
    var t0 := k * MicrosPerSecond;
    assert (t0 + Sum(ds)) / MicrosPerSecond == k;
    RefreshCountAtMostSeconds(t0, ds);
    SumAppend(ds, 1);
    assert NonNegative(ds + [1]);
    assert (t0 + Sum(ds + [1])) / MicrosPerSecond == k + 1;
    RefreshCountAtMostSeconds(t0, ds + [1]);
    RefreshCountAtLeastOne(t0, ds + [1]);
  }

  // ---------------------------------------------------------------------
  // file_name_by_time: "record (Date Y.MM.DD, Time HH-MM-SS)"

  /** The fields of `std::tm` that the name uses; `year` counts from 1900
      and `mon` from 0, as in `std::tm`. */
  datatype Tm = Tm(year: int, mon: int, mday: int, hour: int, min: int, sec: int)

  /** `file_name_by_time` for the broken-down local time `t`. The year is
      written unpadded as `tm_year + 1900`; the month is `tm_mon` itself. */
  function FileNameByTime(t: Tm): string {
    "record (Date " + IntToString(t.year + 1900) + "." + Width2(t.mon) + "." + Width2(t.mday)
    + ", Time " + Width2(t.hour) + "-" + Width2(t.min) + "-" + Width2(t.sec) + ")"
  }

  /** A four-digit year and two-digit fields: the range in which the
      name has the shape "record (Date dddd.dd.dd, Time dd-dd-dd)". */
  predicate FieldsInRange(t: Tm) {
    1000 <= t.year + 1900 < 10000 &&
    0 <= t.mon < 100 && 0 <= t.mday < 100 && 0 <= t.hour < 100 && 0 <= t.min < 100 && 0 <= t.sec < 100
  }

  predicate HasNameShape(s: string) {
    |s| == 39 && s[..13] == "record (Date " && s[17] == '.' && s[20] == '.' && s[23..30] == ", Time "
    && s[32] == '-' && s[35] == '-' && s[38] == ')'
    && AllDigits(s[13..17]) && AllDigits(s[18..20]) && AllDigits(s[21..23])
    && AllDigits(s[30..32]) && AllDigits(s[33..35]) && AllDigits(s[36..38])
  }

  /** Reads a name of that shape back into the time it was made from. */
  function ParseFileName(s: string): Option<Tm> {
    if HasNameShape(s) then
      Some(Tm(FourDigitValue(s[13..17]) - 1900, TwoDigitValue(s[18..20]), TwoDigitValue(s[21..23]),
              TwoDigitValue(s[30..32]), TwoDigitValue(s[33..35]), TwoDigitValue(s[36..38])))
    else None
  }

  /** Where the fields sit in a name built from texts of the right widths. */
  lemma NameSlices(y: string, mo: string, d: string, h: string, mi: string, sec: string)
    requires |y| == 4 && |mo| == 2 && |d| == 2 && |h| == 2 && |mi| == 2 && |sec| == 2
    ensures var s := "record (Date " + y + "." + mo + "." + d + ", Time " + h + "-" + mi + "-" + sec + ")";
      |s| == 39 && s[..13] == "record (Date " && s[17] == '.' && s[20] == '.' && s[23..30] == ", Time "
      && s[32] == '-' && s[35] == '-' && s[38] == ')'
      && s[13..17] == y && s[18..20] == mo && s[21..23] == d && s[30..32] == h && s[33..35] == mi && s[36..38] == sec
  {
    var date := "record (Date " + y + "." + mo + "." + d;
    var time := ", Time " + h + "-" + mi + "-" + sec + ")";
    var s := "record (Date " + y + "." + mo + "." + d + ", Time " + h + "-" + mi + "-" + sec + ")";
    assert s == date + time;
    assert s[..23] == date && s[23..] == time;
    assert date[13..17] == y && date[18..20] == mo && date[21..23] == d;
    assert time[7..9] == h && time[10..12] == mi && time[13..15] == sec;
  }

  /** The parser reads each field of such a name back. */
  lemma ParseNameSlices(y: string, mo: string, d: string, h: string, mi: string, sec: string)
    requires |y| == 4 && |mo| == 2 && |d| == 2 && |h| == 2 && |mi| == 2 && |sec| == 2
    requires AllDigits(y) && AllDigits(mo) && AllDigits(d) && AllDigits(h) && AllDigits(mi) && AllDigits(sec)
    ensures var s := "record (Date " + y + "." + mo + "." + d + ", Time " + h + "-" + mi + "-" + sec + ")";
      HasNameShape(s) &&
      ParseFileName(s) == Some(Tm(FourDigitValue(y) - 1900, TwoDigitValue(mo), TwoDigitValue(d),
                                  TwoDigitValue(h), TwoDigitValue(mi), TwoDigitValue(sec)))
  {
    NameSlices(y, mo, d, h, mi, sec);
  }

  /** Every in-range time gives a name of the fixed shape, and the name
      determines the time. */
  lemma FileNameRoundTrip(t: Tm)
    requires FieldsInRange(t)
    ensures HasNameShape(FileNameByTime(t))
    ensures ParseFileName(FileNameByTime(t)) == Some(t)
  {
    var y := t.year + 1900;
    FourDigitsValue(y);
    Width2Digits(t.mon); Width2Digits(t.mday); Width2Digits(t.hour); Width2Digits(t.min); Width2Digits(t.sec);
    ParseNameSlices(IntToString(y), Width2(t.mon), Width2(t.mday), Width2(t.hour), Width2(t.min), Width2(t.sec));
  }

  /** In range, the year takes four characters and every other field two. */
  lemma FieldWidths(t: Tm)
    requires FieldsInRange(t)
    ensures |IntToString(t.year + 1900)| == 4
    ensures |Width2(t.mon)| == 2 && |Width2(t.mday)| == 2
    ensures |Width2(t.hour)| == 2 && |Width2(t.min)| == 2 && |Width2(t.sec)| == 2
  {
    FourDigitsValue(t.year + 1900);
    Width2Digits(t.mon); Width2Digits(t.mday); Width2Digits(t.hour); Width2Digits(t.min); Width2Digits(t.sec);
  }

  /** The month field is `tm_mon` unchanged, so January prints as "00". */
  lemma MonthFieldIsTmMon(t: Tm)
    requires FieldsInRange(t)
    ensures FileNameByTime(t)[18..20] == Width2(t.mon)
    ensures t.mon == 0 ==> FileNameByTime(t)[18..20] == "00"
  {
    FieldWidths(t);
    NameSlices(IntToString(t.year + 1900), Width2(t.mon), Width2(t.mday), Width2(t.hour), Width2(t.min), Width2(t.sec));
    if t.mon == 0 {
      assert Width2(0) == "00" by { assert NatDigits(0) == "0"; }
    }
  }

  // ---------------------------------------------------------------------
  // get_suffix_by_mime

  /** One entry of the system's media-type registry. */
  datatype MimeType = MimeType(name: string, suffixes: seq<string>)

  predicate IsFirstMatch(db: seq<MimeType>, mimeType: string, i: int) {
    0 <= i < |db| && db[i].name == mimeType && forall j :: 0 <= j < i ==> db[j].name != mimeType
  }

  /** `std::find_if` over the registry by name. */
  function FirstMatch(db: seq<MimeType>, mimeType: string): (r: Option<nat>)
    ensures r.Some? ==> IsFirstMatch(db, mimeType, r.value)
    ensures r.None? <==> forall i :: 0 <= i < |db| ==> db[i].name != mimeType
  {
    if db == [] then None
    else if db[0].name == mimeType then Some(0)
    else match FirstMatch(db[1..], mimeType)
      case None => None
      case Some(i) => Some(i + 1)
  }

  /** What `suffixes().first()` needs: the entry found lists a suffix. */
  predicate SuffixListed(db: seq<MimeType>, mimeType: string) {
    FirstMatch(db, mimeType).Some? ==> db[FirstMatch(db, mimeType).value].suffixes != []
  }

  /** `get_suffix_by_mime`: the first suffix of the first entry of that
      name, or "raw" when the registry has no such entry. */
  function GetSuffixByMime(db: seq<MimeType>, mimeType: string): (r: string)
    requires SuffixListed(db, mimeType)
    ensures forall i :: IsFirstMatch(db, mimeType, i) ==> db[i].suffixes != [] && r == db[i].suffixes[0]
    ensures (forall i :: 0 <= i < |db| ==> db[i].name != mimeType) ==> r == "raw"
  {
    match FirstMatch(db, mimeType)
    case Some(i) => db[i].suffixes[0]
    case None => "raw"
  }

  // ---------------------------------------------------------------------
  // Playback slots: slider units and the time label

  /** `player_position_changed` and `player_duration_changed` put
      `position / 10` (hundredths of a second) on the slider. */
  function PositionToSlider(position: int): int32 {
    ToInt32(TDiv(position, 10))
  }

  /** `player_progress_changed` as written: `setPosition(100ll * value)`. */
  function SliderToPositionAsWritten(value: int32): int {
    100 * value as int
  }

  /** The position a slider value stands for, in the slider's own unit. */
  function SliderToPosition(value: int32): int {
    10 * value as int
  }

  /** As written, moving the slider seeks ten times too far: every position
      of 10 ms or more that is put on the slider seeks well past itself. */
  lemma SliderOvershootsAsWritten(position: int)
    requires 10 <= position < 0x8000_0000 * 10
    ensures SliderToPositionAsWritten(PositionToSlider(position)) >= 10 * position - 900
    ensures SliderToPositionAsWritten(PositionToSlider(position)) > position
    ensures PositionToSlider(5000) == 500 && SliderToPositionAsWritten(500) == 50000
  {
    assert PositionToSlider(position) as int == position / 10;
  }

  /** With the slider's unit, a slider value maps back to itself, and a
      position comes back rounded down to the slider's 10 ms step. */
  lemma SliderRoundTrip(value: int32, position: int)
    requires value >= 0
    requires 0 <= position < 0x8000_0000 * 10
    ensures PositionToSlider(SliderToPosition(value)) == value
    ensures position - 10 < SliderToPosition(PositionToSlider(position)) <= position
  {
    assert PositionToSlider(position) as int == position / 10;
  }

  /** The "elapsed/total" text of the playback slots. */
  function TimeLabel(position: int, duration: int): string {
    TimeFromSeconds(ToInt32(TDiv(position, 1000))) + "/" + TimeFromSeconds(ToInt32(TDiv(duration, 1000)))
  }

  /** A clock of non-negative seconds is digits and one ':', so no '/'. */
  lemma ClockHasNoSlash(seconds: int32)
    requires seconds >= 0
    ensures '/' !in TimeFromSeconds(seconds)
  {
    TimeFromSecondsFields(seconds);
    var s := seconds as int;
    Width2Value(s / 60);
    Width2Value(s % 60);
    var m, sec := Width2(s / 60), Width2(s % 60);
    assert TimeFromSeconds(seconds) == m + ":" + sec;
    forall i | 0 <= i < |m + ":" + sec| ensures (m + ":" + sec)[i] != '/' {
      if i < |m| {
        assert (m + ":" + sec)[i] == m[i];
      } else if i > |m| {
        assert (m + ":" + sec)[i] == sec[i - |m| - 1];
      }
    }
  }

  /** For positions and durations whose whole seconds fit in an `int`, the
      label is two clocks split by the one '/', and they read back as the
      elapsed and the total whole seconds. */
  lemma TimeLabelReadsBack(position: int, duration: int)
    requires 0 <= position < 0x8000_0000 * 1000 && 0 <= duration < 0x8000_0000 * 1000
    ensures var elapsed, total := TimeFromSeconds((position / 1000) as int32), TimeFromSeconds((duration / 1000) as int32);
      && TimeLabel(position, duration) == elapsed + "/" + total
      && '/' !in elapsed && '/' !in total
      && ParseClock(elapsed) == Some(position / 1000) && ParseClock(total) == Some(duration / 1000)
  {
    var e, d := (position / 1000) as int32, (duration / 1000) as int32;
    assert ToInt32(TDiv(position, 1000)) == e;
    assert ToInt32(TDiv(duration, 1000)) == d;
    ClockHasNoSlash(e);
    ClockHasNoSlash(d);
    ClockRoundTrip(e);
    ClockRoundTrip(d);
  }

  // ---------------------------------------------------------------------
  // QUrl::fileName, for the "File: " label

  /** `QUrl::fileName`: the last path segment, everything after the final '/'. */
  function FileName(path: string): string
    decreases |path|
  {
    if path == [] || path[|path| - 1] == '/' then []
    else FileName(path[..|path| - 1]) + [path[|path| - 1]]
  }

  /** The name is a '/'-free suffix of the path, preceded by '/' unless it
      is the whole path. */
  lemma {:induction false} FileNameIsLastSegment(path: string)
    ensures var r := FileName(path);
      && '/' !in r
      && |r| <= |path| && path[|path| - |r|..] == r
      && (|r| < |path| ==> path[|path| - |r| - 1] == '/')
    decreases |path|
  {
    if path != [] && path[|path| - 1] != '/' {
      var init, c := path[..|path| - 1], path[|path| - 1];
      FileNameIsLastSegment(init);
      var r := FileName(init);
      var k := |init| - |r|;
      assert path == init + [c];
      assert path[k..] == init[k..] + [c];
      if k > 0 {
        assert path[k - 1] == init[k - 1];
      }
    }
  }
}
