# InAudioRecorder in Dafny

InAudioRecorder is a small Qt desktop program. It records audio into a
`records` directory, plays the last recording back, saves a copy under a name
the user picks and can purge the directory. This project models the logic
inside its main window and its options dialog, and proves properties of that
model.

The model has four modules:

- `Format` holds the C++ primitives the text helpers are built from.
  - `TDiv` and `TMod` are truncating `/` and `%`.
  - `ToInt32` is `static_cast<int>`, which wraps modulo 2^32.
  - `NatDigits` and `IntToString` are `operator<<` on integers.
  - `PadLeft` and `Width2` are `width(2)` with fill character `'0'`.
- `RecorderHelpers` holds the window's pure helpers.
  - `time_from_seconds` produces `mm:ss`; `set_record_time` produces the progress label.
  - `file_name_by_time` works on a `std::tm`-like record.
  - `get_suffix_by_mime` works on a registry modelled as a sequence.
  - It also holds the slider/position mapping, the redraw rule of `recorder_process_buffer` and `QUrl::fileName`.
- `Options` holds the options dialog (`set_current`, `clear_directory` and the record count) and `Disk`. `Disk` is the records directory, with each entry keyed by absolute path.
- `Recorder` holds `Controller`, a class with one method per slot of the main window.
  - Its fields are the `moveFileData` record, the button and label state, the six playback controls, the recorder's state, a log of requests made of the recorder, and what the window can see of the player: playing flag, position, duration and media.
  - Each backend notification is a method, and these methods may be called in any order.
  - After the class come methods for sequences of events: the save/swap round trip, the two orders of the recording notifications, the two orders of a failed stop, and buffer streams.

Modelling decisions:

- The recorder's output location is a constant. The code sets it once, in `set_temporary_location`.
- The current local time is a parameter of `RecorderStatusChanged`.
- Three outcomes are booleans supplied by the caller: whether the save dialog was accepted, whether `QFile::copy` worked, and whether `recorder->error()` reports an error.
- A failed `QFile::remove` is a path in `Disk.locked`.
- `player->setMedia` is modelled as Qt 5 does it: the player stops, its position becomes 0, and it holds the new media.
- `player->setPosition` never goes below 0.
- `QDir(path).count()` counts the entries that are not hidden, plus `.` and `..`. It is 0 when the directory does not exist. It returns Qt 5's unsigned 32-bit `uint`, so `count() - 2` wraps around.
- `entryInfoList(Files | Hidden | NoDotAndDotDot)` lists every regular file.

## Model

| member | source | states |
|---|---|---|
| Format.ToInt32 | InAudioRecorder/inaudiorecorder.cpp:399-405 | the result agrees with the argument modulo 2^32 and equals it whenever the argument fits in 32 bits |
| Format.TDiv | InAudioRecorder/inaudiorecorder.cpp:132-137 | C++ `/` on integers: the quotient truncated toward zero; its relation to the remainder is stated on `TMod` |
| Format.TMod | InAudioRecorder/inaudiorecorder.cpp:269-278 | C++ `%`: dividend = divisor * `TDiv` + remainder, the remainder is smaller than the divisor and has the dividend's sign |
| Format.NatDigits | InAudioRecorder/inaudiorecorder.cpp:269-278 | decimal text of a natural number: non-empty, digits only, no leading zero unless the number is 0 |
| Format.IntToString | InAudioRecorder/inaudiorecorder.cpp:269-278 | `operator<<` on an integer: a minus sign before the digits of the magnitude when negative; its digits are described by `NatDigits` |
| Format.NatDigitsValue | InAudioRecorder/inaudiorecorder.cpp:269-278 | the decimal text reads back as the number it was written from |
| Format.PadLeft | InAudioRecorder/inaudiorecorder.cpp:269-278 | `width(w)` padding: the text is at least `w` long and no longer than needed |
| Format.PadLeftContents | InAudioRecorder/inaudiorecorder.cpp:269-278 | the padded text ends with the original text, and everything before it is the fill character |
| Format.Width2 | InAudioRecorder/inaudiorecorder.cpp:273-276 | one integer written after `width(2)` with fill `'0'`; its contents and value are stated by `Width2Value` and `Width2Digits` |
| Format.Width2Value | InAudioRecorder/inaudiorecorder.cpp:269-278 | a zero-padded non-negative field is all digits and reads back as its value, even above 99 |
| Format.Width2Digits | InAudioRecorder/inaudiorecorder.cpp:288-298 | for 0..99 the padded field is exactly two digits holding the value |
| Format.FourDigitsValue | InAudioRecorder/inaudiorecorder.cpp:288 | a year 1000..9999 is written as four digits holding the value |
| RecorderHelpers.TimeFromSeconds | InAudioRecorder/inaudiorecorder.cpp:269-278 | `time_from_seconds`: padded `seconds / 60`, a colon, padded `seconds % 60`, with C++ truncation; its properties are the next four rows |
| RecorderHelpers.TimeFromSecondsFields | InAudioRecorder/inaudiorecorder.cpp:269-278 | for s >= 0, `time_from_seconds(s)` is pad2(s/60) + ":" + pad2(s%60) |
| RecorderHelpers.TimeFromSecondsShape | InAudioRecorder/inaudiorecorder.cpp:269-278 | for s >= 0, the text ends in ":ss" with two digits in 00..59 |
| RecorderHelpers.ClockRoundTrip | InAudioRecorder/inaudiorecorder.cpp:269-278 | for s >= 0, the text reads back as exactly s seconds, minutes of any width included |
| RecorderHelpers.NegativeSecondsRendering | InAudioRecorder/inaudiorecorder.cpp:269-278 | negative input truncates toward zero: -5 gives "00:-5" and -65 gives "-1:-5" |
| RecorderHelpers.RecordLabel | InAudioRecorder/inaudiorecorder.cpp:399-405 | the text `set_record_time` shows: "Record: ", the clock of the truncated 32-bit whole seconds, two spaces; stated by the next two rows |
| RecorderHelpers.StoppedRecordLabel | InAudioRecorder/inaudiorecorder.cpp:399-405 | `set_record_time(-1)` shows "Record: 00:00  ", because -1/1000000 truncates to 0 |
| RecorderHelpers.RecordLabelSeconds | InAudioRecorder/inaudiorecorder.cpp:399-405 | the label is "Record: " + clock + "  ", and the clock reads back as the whole seconds elapsed |
| RecorderHelpers.RefreshesLabel | InAudioRecorder/inaudiorecorder.cpp:135 | the redraw test: the truncated whole second changed, or the old time was 0 |
| RecorderHelpers.RefreshCount | InAudioRecorder/inaudiorecorder.cpp:132-137 | how many redraws a stream of buffers causes under `RefreshesLabel`; bounded by the next three rows |
| RecorderHelpers.RefreshCountAtMostSeconds | InAudioRecorder/inaudiorecorder.cpp:132-137 | from a non-zero accumulator and non-negative buffers, the label is redrawn no more often than whole seconds are gained |
| RecorderHelpers.RefreshCountAtLeastOne | InAudioRecorder/inaudiorecorder.cpp:132-137 | from a non-zero accumulator, gaining a whole second always causes a redraw |
| RecorderHelpers.OneRedrawAtSecondCrossing | InAudioRecorder/inaudiorecorder.cpp:132-137 | from k seconds (k >= 1), buffers summing to 999,999 µs cause no redraw, and one more µs causes exactly one |
| RecorderHelpers.FileNameByTime | InAudioRecorder/inaudiorecorder.cpp:280-301 | the save name built from a `std::tm`: the year plus 1900, then five fields padded to width 2; stated by the next two rows |
| RecorderHelpers.FileNameRoundTrip | InAudioRecorder/inaudiorecorder.cpp:280-301 | with in-range fields, the name has the fixed "record (Date dddd.dd.dd, Time dd-dd-dd)" shape and reads back as the time it came from |
| RecorderHelpers.MonthFieldIsTmMon | InAudioRecorder/inaudiorecorder.cpp:289-290 | the month field is `tm_mon` padded, with no +1, so January shows as "00" |
| RecorderHelpers.FirstMatch | InAudioRecorder/inaudiorecorder.cpp:261-263 | `find_if` by name: the index of the first entry with that name, or nothing exactly when no entry has it |
| RecorderHelpers.GetSuffixByMime | InAudioRecorder/inaudiorecorder.cpp:258-267 | the first suffix of the first entry with that name, or "raw" when there is none |
| RecorderHelpers.PositionToSlider | InAudioRecorder/inaudiorecorder.cpp:165-182 | the slider value for a position: the 32-bit cast of `position / 10` |
| RecorderHelpers.SliderToPositionAsWritten | InAudioRecorder/inaudiorecorder.cpp:211 | the seek target as written: `100 * value` ms |
| RecorderHelpers.SliderToPosition | InAudioRecorder/inaudiorecorder.cpp:166-176 | the seek target in the slider's own unit: `10 * value` ms |
| RecorderHelpers.SliderOvershootsAsWritten | InAudioRecorder/inaudiorecorder.cpp:210-212 | as written, moving the slider to where a position put it seeks well past that position: 5000 ms shows as 500, and 500 seeks to 50000 ms |
| RecorderHelpers.SliderRoundTrip | InAudioRecorder/inaudiorecorder.cpp:174-177 | with the slider's own unit (10 ms), a slider value maps back to itself and a position comes back rounded down to the 10 ms step |
| RecorderHelpers.TimeLabel | InAudioRecorder/inaudiorecorder.cpp:178-181 | the "elapsed/total" text: both clocks from the 32-bit cast of milliseconds / 1000; stated by the next row |
| RecorderHelpers.TimeLabelReadsBack | InAudioRecorder/inaudiorecorder.cpp:168-181 | for times whose whole seconds fit in an `int`, the label is two clocks split by its only '/', reading back as the elapsed and the total whole seconds |
| RecorderHelpers.FileName | InAudioRecorder/inaudiorecorder.cpp:407-415 | `QUrl::fileName`, the text after the last '/'; stated by the next row |
| RecorderHelpers.FileNameIsLastSegment | InAudioRecorder/inaudiorecorder.cpp:407-411 | the shown file name is a '/'-free suffix of the path, preceded by '/' unless it is the whole path |
| Options.Disk.Remove | InAudioRecorder/optionsdialog.cpp:38 | removal succeeds exactly when a regular file is there and the system does not refuse; only then does the entry go |
| Options.FileList | InAudioRecorder/optionsdialog.cpp:35 | `entryInfoList` with `Files`, `Hidden` and `NoDotAndDotDot`: every regular file, hidden or not, and nothing else |
| Options.VisibleCount | InAudioRecorder/optionsdialog.cpp:13 | the entries `count()` lists with its default filter: those that are not hidden |
| Options.DirCount | InAudioRecorder/optionsdialog.cpp:13 | `QDir(path).count()`: the visible entries plus "." and "..", or 0 for a missing directory |
| Options.RecordCount | InAudioRecorder/optionsdialog.cpp:13 | `count() - 2` in unsigned 32-bit arithmetic: always in 0..2^32-1, exactly the visible entries for an existing directory, and 4294967294 for a missing one |
| Options.RecordsText | InAudioRecorder/optionsdialog.cpp:39 | the "%1 records" label text of `RecordCount` |
| Options.MissingDirectoryText | InAudioRecorder/optionsdialog.cpp:13 | a missing records directory shows "4294967294 records" |
| Options.Purged | InAudioRecorder/optionsdialog.cpp:35-38 | the directory after the purge loop: the entries less every listed file that is not `current` and whose removal is not refused; stated by the `Purge*` rows |
| Options.OptionsDialog.constructor | InAudioRecorder/optionsdialog.cpp:6-25 | keeps the protected path and shows "N records" for the directory as it is |
| Options.OptionsDialog.SetCurrent | InAudioRecorder/optionsdialog.cpp:29-31 | replaces the protected path and nothing else |
| Options.OptionsDialog.ClearDirectory | InAudioRecorder/optionsdialog.cpp:33-40 | the directory becomes `Purged` of its old contents, and the count is recomputed the same way as at construction |
| Options.PurgeKeepsCurrent | InAudioRecorder/optionsdialog.cpp:36-38 | the protected path survives a purge unchanged |
| Options.PurgeRemovesOthers | InAudioRecorder/optionsdialog.cpp:35-38 | an entry goes if and only if it is a file, is not the protected path and is not refused; entries that stay are unchanged |
| Options.PurgeLeavesAtMostCurrent | InAudioRecorder/optionsdialog.cpp:35-38 | with no refusals, the files left are exactly {current} if it was listed, otherwise none; at most one either way |
| Options.PurgeWithoutProtectedFile | InAudioRecorder/optionsdialog.cpp:29-38 | once `set_current("")` leaves nothing protected and no removal is refused, a purge removes every file |
| Options.PurgeIdempotent | InAudioRecorder/optionsdialog.cpp:33-40 | purging twice removes nothing more than purging once |
| Options.PurgeCountNotGreater | InAudioRecorder/optionsdialog.cpp:39 | a purge never raises the displayed count, for any count `count()` can return |
| Recorder.ProgressText | InAudioRecorder/inaudiorecorder.cpp:399-405 | the progress label: "Record: none  " before the first time is set (lines 10 and 119), else `RecordLabel` of the elapsed microseconds; used by `FinishedRecordingTexts` |
| Recorder.NoticeMessage | InAudioRecorder/inaudiorecorder.cpp:395-397 | the message and colour passed to `set_status` for each notice, as at lines 73, 95, 98, 102, 111, 156, 231 and 234; used by `FinishedRecordingTexts` |
| Recorder.CaptionText | InAudioRecorder/inaudiorecorder.cpp:87-122 | the captions the record and pause buttons are given at lines 91-92, 101 and 113-114; used by `FinishedRecordingTexts` |
| Recorder.SeekTarget | InAudioRecorder/inaudiorecorder.cpp:210-212 | a seek from a non-negative slider value lands where the slider shows that same value; a negative value seeks to 0 |
| Recorder.Controller.constructor | InAudioRecorder/inaudiorecorder.cpp:4-37 | `moveFileData` starts as {false, "", "", 0, -1}, the label reads "Record: none  ", pause and save are disabled and no swap is pending |
| Recorder.Controller.RecorderRecord | InAudioRecorder/inaudiorecorder.cpp:70-78 | when stopped: settings, then record, with the record button disabled; otherwise only stop is requested |
| Recorder.Controller.RecorderPause | InAudioRecorder/inaudiorecorder.cpp:80-85 | requests record when paused, and pause otherwise |
| Recorder.Controller.SetRecordTime | InAudioRecorder/inaudiorecorder.cpp:399-405 | redraws the label with the given elapsed time, one redraw per call |
| Recorder.Controller.RecorderStateChanged | InAudioRecorder/inaudiorecorder.cpp:87-104 | on stop: time 0, label at -1 µs, "Record"/"Pause" captions, pause disabled, save disabled only on error; on pause: "Unpause"; on recording: no change |
| Recorder.Controller.RecorderStatusChanged | InAudioRecorder/inaudiorecorder.cpp:106-122 | Recording: the dialog protects the output, the name is taken from the time, record "Stop" and pause "Pause" are enabled, save is disabled; Unloaded: save enabled, "Record: none  ", output loaded; other statuses change nothing |
| Recorder.Controller.RecorderProcessBuffer | InAudioRecorder/inaudiorecorder.cpp:132-137 | time grows by the buffer's duration, and the label is redrawn if and only if `RefreshesLabel` holds |
| Recorder.Controller.SetToPlay | InAudioRecorder/inaudiorecorder.cpp:407-411 | shows the file name and loads the path, and `moveFileData` is outside its frame, so no swap is armed |
| Recorder.Controller.UpdateToPlay | InAudioRecorder/inaudiorecorder.cpp:413-423 | pauses if playing and records that, arms the swap with the current position, and loads the path |
| Recorder.Controller.SaveFile | InAudioRecorder/inaudiorecorder.cpp:214-239 | after a successful copy the output becomes the file to delete and the copy is swapped in; a cancel or a failed copy leaves the swap state alone |
| Recorder.Controller.PlayerMediaStatusChanged | InAudioRecorder/inaudiorecorder.cpp:139-163 | every LoadedMedia enables the six controls; a pending swap seeks, resumes if it was playing, deletes the old file, clears the dialog's protected path and disarms; other statuses change nothing |
| Recorder.Controller.PlayerDurationChanged | InAudioRecorder/inaudiorecorder.cpp:165-172 | slider range = duration/10 with value 0, time label "00:00/total", and a seek to 0 when the slider was elsewhere |
| Recorder.Controller.PlayerPositionChanged | InAudioRecorder/inaudiorecorder.cpp:174-182 | the slider shows position/10 without seeking, and the time label shows elapsed/total |
| Recorder.Controller.PlayerProgressChanged | InAudioRecorder/inaudiorecorder.cpp:210-212 | the player seeks to `SeekTarget` of the slider value, with the corrected unit, the slider holds the value it was moved to, and the slider and player are the only fields that change |
| Recorder.Controller.Options | InAudioRecorder/inaudiorecorder.cpp:241-248 | opens one dialog on the records directory, protecting the current media, or keeps the open one |
| Recorder.Controller.DialogDestroyed | InAudioRecorder/inaudiorecorder.cpp:245 | the window forgets the dialog when it is destroyed |
| Recorder.SaveWhilePlaying | InAudioRecorder/inaudiorecorder.cpp:139-163 | save while playing at P, then LoadedMedia: playing again at P on the new file, old recording deleted, swap disarmed |
| Recorder.SwapConsumedOnce | InAudioRecorder/inaudiorecorder.cpp:148-161 | a save swap followed by two LoadedMedia: the second leaves player, swap record, status, controls and directory as the first left them; the old file is deleted at most once and playback resumes at the old position |
| Recorder.FinishedRecordingDeletesNothing | InAudioRecorder/inaudiorecorder.cpp:117-121 | loading a finished recording arms no swap, so the following LoadedMedia deletes nothing |
| Recorder.RecordingStateThenStatus | InAudioRecorder/inaudiorecorder.cpp:87-116 | RecordingState then RecordingStatus: the state `RecordingNotificationsCommute` states |
| Recorder.RecordingStatusThenState | InAudioRecorder/inaudiorecorder.cpp:87-116 | RecordingStatus then RecordingState: the same final state |
| Recorder.RecordingNotificationsCommute | InAudioRecorder/inaudiorecorder.cpp:107 | RecordingState and RecordingStatus in either order leave the window in the same state: every field in the frame has the same value, the dialog protects the output, and the fields outside the frame stay as they were |
| Recorder.FailedStopOrderMatters | InAudioRecorder/inaudiorecorder.cpp:94-120 | after a failed recording, StoppedState before UnloadedStatus leaves save enabled and the reverse order leaves it disabled |
| Recorder.SeekThenNewDurationRewinds | InAudioRecorder/inaudiorecorder.cpp:165-167 | after a seek to a non-zero slider value, a new duration resets the slider to 0, and that change rewinds the player to 0 |
| Recorder.FinishedRecordingTexts | InAudioRecorder/inaudiorecorder.cpp:88-99 | after a clean stop the window reads "Record: 00:00  ", "Record", "Pause" and "Recording finished" in blue |
| Recorder.DeliverBuffers | InAudioRecorder/inaudiorecorder.cpp:132-137 | a stream of buffers adds its total to the time and redraws the label exactly `RefreshCount` times |
| Recorder.OneRedrawPerSecond | InAudioRecorder/inaudiorecorder.cpp:132-137 | from 3 s, buffers totalling 999,999 µs and then 1 µs redraw the label once, showing 4 s |
| Recorder.StartFailsBeforeRecording | InAudioRecorder/inaudiorecorder.cpp:70-122 | a start that stops before RecordingStatus leaves record and pause disabled, because only RecordingStatus re-enables record |

## Left out

- Constructor widget setup is left out: the form file (`setupUi`), icons, sizing, the availability check and the audio probe. The form file is not part of this model. The window is assumed to start with the record button enabled and reading "Record", the pause button disabled and reading "Pause", the six playback controls disabled, and the file and time labels empty.
- `fill_labels`, `codec_index_changed`, `encoding_option` and `apply_settings` are left out. They enumerate backend capabilities or copy widget values into backend settings. `apply_settings` appears only as an entry in the request log.
- `set_temporary_location` and `connect_signals` are left out. They are directory creation and signal wiring, which the model replaces with a constant output location and direct method calls.
- `recorder_error` and `player_error` are left out. They only show a message box, and they reset no state.
- `player_play`, `player_pause`, `player_stop`, `player_mute` and `player_sound_changed` are left out. They are passthroughs to the player, so `player.playing` is backend state that callers set.
- The message boxes and the HTML colouring of `set_status` are left out. The status label is modelled only as which message was last shown (`Notice`, with the message texts in `NoticeMessage`).
- Qt's clamping of a slider value into its range is not modelled.
- `main.cpp` and `inaudiorecorderapplication.cpp` are not part of this model. They hold single-instance guarding and the working directory.
- The copy that `save_file` makes is not added to `Disk`. The target may lie outside the records directory.
- Which file the recording backend writes to is not modelled.
- Recorder.Controller.SaveFile: whether the copy works is a parameter, not derived from the file system.
- Recorder.Controller.PlayerProgressChanged: seeks to 10 × the slider value, the corrected unit of the finding below, and not to the 100 × value the code has at line 211. The as-written seek is `SliderToPositionAsWritten`.
- Recorder.SeekTarget: uses the corrected 10 ms unit, for the same reason.
- RecorderHelpers.GetSuffixByMime: requires that a matching entry lists a suffix. `suffixes().first()` on an empty list is undefined behaviour in the source.

Behaviour one might expect, and what the code does instead; the model follows the code, except for the slider seek, which follows the corrected version of the finding below:

- There is no sequence numbering of output files. The backend names them.
- Backend errors show a message and reset nothing.
- A stop does not re-enable the record button.
- The month in the save name is zero-based.
- An unknown container type shows as "raw".

## Findings

| source | as written | input that shows it | evidently intended | confidence | as-written member | corrected member |
|---|---|---|---|---|---|---|
| InAudioRecorder/inaudiorecorder.cpp:210-212 | `player_progress_changed` seeks to `100 * value` ms, but the slider's unit is 10 ms (`position / 10`, lines 166 and 176) | position 5000 ms puts the slider at 500; moving it to 500 seeks to 50000 ms | seek to `10 * value` ms, so a slider value maps back to the position it shows | high, not executed | RecorderHelpers.SliderOvershootsAsWritten | RecorderHelpers.SliderRoundTrip |
