/** The recorder window's controller (inaudiorecorder.cpp): its slots as
    methods over plain fields. The Qt recorder and player are replaced by
    what the window can observe of them (the recorder's state, the player's
    playing flag, position, duration and media) and by the calls it makes
    on them; every backend notification is a method callable in any order. */
module Recorder {
  import opened Format
  import opened RecorderHelpers
  import opened Options

  datatype RecorderState = StoppedState | RecordingState | PausedState

  datatype RecorderStatus =
    | UnavailableStatus | UnloadedStatus | LoadingStatus | LoadedStatus
    | StartingStatus | RecordingStatus | PausedStatus | FinalizingStatus

  datatype MediaStatus =
    | UnknownMediaStatus | NoMedia | LoadingMedia | LoadedMedia | StalledMedia
    | BufferingMedia | BufferedMedia | EndOfMedia | InvalidMedia

  /** A request the window makes of the recorder; the recorder answers later
      with state and status notifications. `ApplySettings` stands for
      `apply_settings`, which hands the chosen options to the recorder. */
  datatype RecorderCall = ApplySettings | Record | Pause | Stop

  /** What the record progress label shows: no recording yet, or the
      elapsed time of one, in microseconds. */
  datatype Progress = NoRecord | Elapsed(microseconds: int)

  /** The label's text. */
  function ProgressText(p: Progress): string {
    match p
    case NoRecord => "Record: none  "
    case Elapsed(t) => RecordLabel(t)
  }

  /** What the status label says: "Status: OK" at first, then the last
      message passed to `set_status`. */
  datatype Notice =
    | NoticeOk | NoticeStarting | NoticeRecording | NoticeFinished | NoticeFailed
    | NoticePaused | NoticeDeleteError | NoticeSaveError | NoticeSaved

  /** The message and colour each notice passes to `set_status`. */
  function NoticeMessage(n: Notice): (string, string)
    requires n != NoticeOk
  {
    match n
    case NoticeStarting => ("Starting record", "red")
    case NoticeRecording => ("Recording", "green")
    case NoticeFinished => ("Recording finished", "blue")
    case NoticeFailed => ("Recording failed", "red")
    case NoticePaused => ("Paused", "blue")
    case NoticeDeleteError => ("Deleting eror", "red")
    case NoticeSaveError => ("Save error", "red")
    case NoticeSaved => ("File saved", "blue")
  }

  /** The captions the record and pause buttons switch between. */
  datatype Caption = RecordCaption | StopCaption | PauseCaption | UnpauseCaption

  function CaptionText(c: Caption): string {
    match c
    case RecordCaption => "Record"
    case StopCaption => "Stop"
    case PauseCaption => "Pause"
    case UnpauseCaption => "Unpause"
  }

  datatype Button = Button(enabled: bool, caption: Caption)

  /** The six playback controls: play, pause, stop and mute buttons, the
      progress slider and the volume slider. */
  datatype Transport = Transport(play: bool, pause: bool, stop: bool, mute: bool, progress: bool, sound: bool)

  const TransportDisabled := Transport(false, false, false, false, false, false)
  const TransportEnabled := Transport(true, true, true, true, true, true)

  /** The window's `moveFileData` record. `fixedPosition` is -1 when no
      media swap is pending and the position to restore otherwise. */
  datatype MoveFileData = MoveFileData(
    wasPlaying: bool, oldFilePath: string, fileNameTime: string, time: int, fixedPosition: int)

  /** What the window can observe of the media player. */
  datatype Player = Player(playing: bool, position: nat, duration: int, media: string)

  /** The progress slider's value and maximum. */
  datatype Slider = Slider(value: int32, maximum: int32)

  /** `player->setMedia`: the player stops, rewinds and holds the new media. */
  function WithMedia(p: Player, media: string): (q: Player)
    ensures !q.playing && q.position == 0 && q.media == media && q.duration == p.duration
  {
    Player(false, 0, p.duration, media)
  }

  /** The position a seek to slider value `value` asks for, in the
      slider's unit of 10 ms; the player never goes below 0. A slider
      value that is not negative is where the slider shows the new
      position, so the seek lands on the slider value moved to. */
  function SeekTarget(value: int32): (position: nat)
    ensures value >= 0 ==> PositionToSlider(position) == value
    ensures value < 0 ==> position == 0
  {
    if value < 0 then 0 else SliderToPosition(value)
  }

  class Controller {
    var moveFileData: MoveFileData
    /** The status label. */
    var notice: Notice
    var recordButton: Button
    var pauseButton: Button
    var saveEnabled: bool
    var transport: Transport
    var recordProgress: Progress
    /** How many times `set_record_time` has redrawn the progress label. */
    ghost var recordLabelWrites: nat
    var fileLabel: string
    var timeLabel: string
    var slider: Slider
    /** What `recorder->state()` reports. */
    var recorderState: RecorderState
    /** Every request made of the recorder, oldest first. */
    var recorderCalls: seq<RecorderCall>
    /** `recorder->outputLocation()`, as a local path. */
    const outputLocation: string
    var player: Player
    /** The records directory, shared with the options dialog. */
    const disk: Disk
    /** `QDir("records").absolutePath()`. */
    const recordsPath: string
    var dialog: OptionsDialog?

    ghost predicate Valid()
      reads this, disk
    {
      && moveFileData.fixedPosition >= -1
      && (moveFileData.wasPlaying ==> moveFileData.fixedPosition >= 0)
      && (dialog != null ==> dialog.disk == disk)
      && disk.Valid()
    }

    /** A save has armed the swap that the next loaded media completes. */
    predicate SwapPending()
      reads this
    {
      moveFileData.fixedPosition >= 0
    }

    /** The window as the constructor leaves it. The form file is not part
        of this model: the record button is taken to start enabled with
        "Record", the playback controls disabled and the labels empty. */
    constructor (disk: Disk, recordsPath: string, outputLocation: string)
      requires disk.Valid()
      ensures Valid() && !SwapPending()
      ensures this.disk == disk && this.recordsPath == recordsPath && this.outputLocation == outputLocation
      ensures moveFileData == MoveFileData(false, "", "", 0, -1) && notice == NoticeOk
      ensures recordButton == Button(true, RecordCaption) && pauseButton == Button(false, PauseCaption) && !saveEnabled
      ensures transport == TransportDisabled && recordProgress == NoRecord
      ensures recorderState == StoppedState && recorderCalls == []
      ensures player == Player(false, 0, 0, "") && dialog == null
      ensures recordLabelWrites == 0
    {
      this.disk := disk;
      this.recordsPath := recordsPath;
      this.outputLocation := outputLocation;
      moveFileData := MoveFileData(false, "", "", 0, -1);
      notice := NoticeOk;
      recordButton := Button(true, RecordCaption);
      pauseButton := Button(false, PauseCaption);
      saveEnabled := false;
      transport := TransportDisabled;
      recordProgress := NoRecord;
      recordLabelWrites := 0;
      fileLabel := "";
      timeLabel := "";
      slider := Slider(0, 0);
      recorderState := StoppedState;
      recorderCalls := [];
      player := Player(false, 0, 0, "");
      dialog := null;
    }

    /** `recorder_record`: starts a recording when the recorder is stopped
        (settings first, record button disabled until recording begins),
        otherwise asks it to stop. */
    method RecorderRecord()
      requires Valid()
      modifies this`recorderCalls, this`recordButton, this`notice
      ensures Valid()
      ensures old(recorderState) == StoppedState ==>
        && recorderCalls == old(recorderCalls) + [ApplySettings, Record]
        && recordButton == old(recordButton).(enabled := false)
        && notice == NoticeStarting
      ensures old(recorderState) != StoppedState ==>
        && recorderCalls == old(recorderCalls) + [Stop]
        && recordButton == old(recordButton) && notice == old(notice)
    {
      if recorderState == StoppedState {
        recorderCalls := recorderCalls + [ApplySettings];
        notice := NoticeStarting;
        recordButton := recordButton.(enabled := false);
        recorderCalls := recorderCalls + [Record];
      } else {
        recorderCalls := recorderCalls + [Stop];
      }
    }

    /** `recorder_pause`: resumes when paused, pauses otherwise. */
    method RecorderPause()
      requires Valid()
      modifies this`recorderCalls
      ensures Valid()
      ensures recorderCalls == old(recorderCalls) + [if recorderState == PausedState then Record else Pause]
    {
      if recorderState == PausedState {
        recorderCalls := recorderCalls + [Record];
      } else {
        recorderCalls := recorderCalls + [Pause];
      }
    }

    /** `set_record_time`: redraws the progress label. */
    method SetRecordTime(microseconds: int)
      requires Valid()
      modifies this`recordProgress, this`recordLabelWrites
      ensures Valid()
      ensures recordProgress == Elapsed(microseconds)
      ensures recordLabelWrites == old(recordLabelWrites) + 1
    {
      recordProgress := Elapsed(microseconds);
      recordLabelWrites := recordLabelWrites + 1;
    }

    /** `recorder_state_changed`. On stop: the time resets, the label shows
        `RecordLabel(-1)` (which reads "Record: 00:00  "), the buttons are
        relabelled, pause is disabled, and save is disabled only if the
        recorder reports an error (`failed` is what `recorder->error()`
        says). On pause: the pause button reads "Unpause". A recording
        state changes nothing here. */
    method RecorderStateChanged(state: RecorderState, failed: bool)
      requires Valid()
      modifies this`recorderState, this`moveFileData, this`recordProgress, this`recordLabelWrites
      modifies this`recordButton, this`pauseButton, this`saveEnabled, this`notice
      ensures Valid()
      ensures recorderState == state
      ensures state == StoppedState ==>
        && moveFileData == old(moveFileData).(time := 0)
        && recordProgress == Elapsed(-1) && recordLabelWrites == old(recordLabelWrites) + 1
        && recordButton == old(recordButton).(caption := RecordCaption)
        && pauseButton == Button(false, PauseCaption)
        && saveEnabled == (old(saveEnabled) && !failed)
        && notice == (if failed then NoticeFailed else NoticeFinished)
      ensures state != StoppedState ==>
        && moveFileData == old(moveFileData) && recordProgress == old(recordProgress)
        && recordLabelWrites == old(recordLabelWrites)
        && recordButton == old(recordButton) && saveEnabled == old(saveEnabled)
      ensures state == PausedState ==>
        pauseButton == old(pauseButton).(caption := UnpauseCaption) && notice == NoticePaused
      ensures state == RecordingState ==>
        pauseButton == old(pauseButton) && notice == old(notice)
    {
      recorderState := state;
      if state == StoppedState {
        moveFileData := moveFileData.(time := 0);
        SetRecordTime(-1);
        recordButton := recordButton.(caption := RecordCaption);
        pauseButton := pauseButton.(caption := PauseCaption);
        pauseButton := pauseButton.(enabled := false);
        if failed {
          notice := NoticeFailed;
          saveEnabled := false;
        } else {
          notice := NoticeFinished;
        }
      } else if state == PausedState {
        pauseButton := pauseButton.(caption := UnpauseCaption);
        notice := NoticePaused;
      }
    }

    /** `recorder_status_changed`. Recording: the dialog (if open) protects
        the output file, the save name is taken from the local time `now`,
        record ("Stop") and pause ("Pause") are enabled and save is
        disabled. Unloaded: save is enabled, the label reads
        "Record: none  " and the output is loaded for playback. Every other
        status changes nothing. */
    method RecorderStatusChanged(status: RecorderStatus, now: Tm)
      requires Valid()
      modifies this`moveFileData, this`notice, this`recordButton, this`pauseButton, this`saveEnabled
      modifies this`recordProgress, this`fileLabel, this`player, dialog
      ensures Valid()
      ensures status == RecordingStatus ==>
        && moveFileData == old(moveFileData).(fileNameTime := FileNameByTime(now))
        && notice == NoticeRecording
        && recordButton == Button(true, StopCaption) && pauseButton == Button(true, PauseCaption)
        && !saveEnabled
        && recordProgress == old(recordProgress) && fileLabel == old(fileLabel) && player == old(player)
      ensures status == UnloadedStatus ==>
        && saveEnabled
        && recordProgress == NoRecord
        && fileLabel == "File: " + FileName(outputLocation)
        && player == WithMedia(old(player), outputLocation)
        && moveFileData == old(moveFileData) && notice == old(notice)
        && recordButton == old(recordButton) && pauseButton == old(pauseButton)
      ensures status != RecordingStatus && status != UnloadedStatus ==>
        && moveFileData == old(moveFileData) && notice == old(notice)
        && recordButton == old(recordButton) && pauseButton == old(pauseButton)
        && saveEnabled == old(saveEnabled) && recordProgress == old(recordProgress)
        && fileLabel == old(fileLabel) && player == old(player)
      ensures dialog != null ==>
        && dialog.current == (if status == RecordingStatus then outputLocation else old(dialog.current))
        && dialog.directoryContains == old(dialog.directoryContains)
    {
      if status == RecordingStatus {
        if dialog != null {
          dialog.SetCurrent(outputLocation);
        }
        moveFileData := moveFileData.(fileNameTime := FileNameByTime(now));
        notice := NoticeRecording;
        recordButton := Button(true, StopCaption);
        pauseButton := Button(true, PauseCaption);
        saveEnabled := false;
      } else if status == UnloadedStatus {
        saveEnabled := true;
        recordProgress := NoRecord;
        SetToPlay(outputLocation);
      }
    }

    /** `recorder_process_buffer`: adds the buffer's duration (in
        microseconds) to the elapsed time and redraws the label only when
        the whole second changed or the time was 0 before. */
    method RecorderProcessBuffer(duration: int)
      requires Valid()
      modifies this`moveFileData, this`recordProgress, this`recordLabelWrites
      ensures Valid()
      ensures moveFileData == old(moveFileData).(time := old(moveFileData.time) + duration)
      ensures RefreshesLabel(old(moveFileData.time), moveFileData.time) ==>
        recordProgress == Elapsed(moveFileData.time) && recordLabelWrites == old(recordLabelWrites) + 1
      ensures !RefreshesLabel(old(moveFileData.time), moveFileData.time) ==>
        recordProgress == old(recordProgress) && recordLabelWrites == old(recordLabelWrites)
    {
      var oldTime := moveFileData.time;
      moveFileData := moveFileData.(time := moveFileData.time + duration);
      if TDiv(moveFileData.time, 1000000) != TDiv(oldTime, 1000000) || oldTime == 0 {
        SetRecordTime(moveFileData.time);
      }
    }

    /** `set_to_play`: shows the file name and loads `path`; it does not
        touch `moveFileData`, so it never arms a swap. */
    method SetToPlay(path: string)
      requires Valid()
      modifies this`fileLabel, this`player
      ensures Valid()
      ensures fileLabel == "File: " + FileName(path)
      ensures player == WithMedia(old(player), path)
    {
      fileLabel := "File: " + FileName(path);
      player := WithMedia(player, path);
    }

    /** `update_to_play`: loads `path` in place of the current media,
        pausing first if playing and remembering that, and arms the swap
        with the current position. */
    method UpdateToPlay(path: string)
      requires Valid()
      modifies this`fileLabel, this`player, this`moveFileData
      ensures Valid()
      ensures SwapPending()
      ensures fileLabel == "File: " + FileName(path)
      ensures moveFileData == old(moveFileData).(
        wasPlaying := old(moveFileData.wasPlaying) || old(player.playing),
        fixedPosition := old(player.position))
      ensures player == WithMedia(old(player), path)
    {
      fileLabel := "File: " + FileName(path);
      if player.playing {
        player := player.(playing := false);
        moveFileData := moveFileData.(wasPlaying := true);
      }
      moveFileData := moveFileData.(fixedPosition := player.position);
      player := WithMedia(player, path);
    }

    /** `save_file` after the file dialog: `accepted` is whether the user
        chose `newPath`, `copied` whether copying the output there worked.
        On success the output becomes the file to delete and the copy is
        swapped in. */
    method SaveFile(accepted: bool, newPath: string, copied: bool)
      requires Valid()
      modifies this`fileLabel, this`player, this`moveFileData, this`notice
      ensures Valid()
      ensures notice == if !accepted then old(notice) else if copied then NoticeSaved else NoticeSaveError
      ensures accepted && copied ==>
        && SwapPending()
        && moveFileData == old(moveFileData).(
             oldFilePath := outputLocation,
             wasPlaying := old(moveFileData.wasPlaying) || old(player.playing),
             fixedPosition := old(player.position))
        && player == WithMedia(old(player), newPath)
        && fileLabel == "File: " + FileName(newPath)
      ensures !(accepted && copied) ==>
        moveFileData == old(moveFileData) && player == old(player) && fileLabel == old(fileLabel)
    {
      if !accepted {
        return;
      }
      if !copied {
        notice := NoticeSaveError;
      } else {
        notice := NoticeSaved;
        moveFileData := moveFileData.(oldFilePath := outputLocation);
        UpdateToPlay(newPath);
      }
    }

    /** `player_media_status_changed`. Every LoadedMedia enables the six
        playback controls. If a swap is pending it is completed once: seek
        to the saved position, resume if the player was playing, delete the
        old file (a failure shows on the status label), tell the dialog
        there is nothing to protect, and disarm. */
    method PlayerMediaStatusChanged(status: MediaStatus)
      requires Valid()
      modifies this`transport, this`player, this`moveFileData, this`notice, dialog, disk`entries
      ensures Valid()
      ensures status != LoadedMedia ==>
        && transport == old(transport) && player == old(player) && moveFileData == old(moveFileData)
        && notice == old(notice) && disk.entries == old(disk.entries)
        && (dialog != null ==> dialog.current == old(dialog.current))
      ensures status == LoadedMedia ==> transport == TransportEnabled && !SwapPending() && !moveFileData.wasPlaying
      ensures status == LoadedMedia && !old(SwapPending()) ==>
        && player == old(player) && moveFileData == old(moveFileData)
        && notice == old(notice) && disk.entries == old(disk.entries)
        && (dialog != null ==> dialog.current == old(dialog.current))
      ensures status == LoadedMedia && old(SwapPending()) ==>
        var gone := old(moveFileData.oldFilePath);
        var removed := Removable(old(disk.entries), disk.locked, gone);
        && player == old(player).(position := old(moveFileData.fixedPosition) as nat,
                                  playing := old(player.playing) || old(moveFileData.wasPlaying))
        && moveFileData == old(moveFileData).(fixedPosition := -1, wasPlaying := false)
        && notice == (if removed then old(notice) else NoticeDeleteError)
        && disk.entries == (if removed then old(disk.entries) - {gone} else old(disk.entries))
        && (dialog != null ==> dialog.current == "")
      ensures dialog != null ==> dialog.directoryContains == old(dialog.directoryContains)
    {
      if status == LoadedMedia {
        transport := TransportEnabled;
        if moveFileData.fixedPosition >= 0 {
          player := player.(position := moveFileData.fixedPosition);
          moveFileData := moveFileData.(fixedPosition := -1);
          if moveFileData.wasPlaying {
            player := player.(playing := true);
            moveFileData := moveFileData.(wasPlaying := false);
          }
          var removed := disk.Remove(moveFileData.oldFilePath);
          if !removed {
            notice := NoticeDeleteError;
          }
          if dialog != null {
            dialog.SetCurrent("");
          }
        }
      }
    }

    /** `player_duration_changed`: the slider's range becomes the duration
        in hundredths of a second and its value 0. That `setValue(0)` is not
        shielded, so a slider that was elsewhere also seeks to 0. */
    method PlayerDurationChanged(duration: int)
      requires Valid()
      modifies this`player, this`slider, this`timeLabel
      ensures Valid()
      ensures slider == Slider(0, PositionToSlider(duration))
      ensures timeLabel == TimeLabel(0, duration)
      ensures player == (if old(slider.value) != 0 then old(player).(position := 0) else old(player)).(duration := duration)
    {
      player := player.(duration := duration);
      var before := slider.value;
      slider := slider.(maximum := PositionToSlider(duration));
      slider := slider.(value := 0);
      if before != 0 {
        PlayerProgressChanged(0);
      }
      timeLabel := TimeFromSeconds(0) + "/" + TimeFromSeconds(ToInt32(TDiv(duration, 1000)));
    }

    /** `player_position_changed`: the slider follows the position with its
        signals blocked (so no seek results) and the time label shows
        elapsed and total time. */
    method PlayerPositionChanged(position: nat)
      requires Valid()
      modifies this`player, this`slider, this`timeLabel
      ensures Valid()
      ensures player == old(player).(position := position)
      ensures slider == old(slider).(value := PositionToSlider(position))
      ensures timeLabel == TimeLabel(position, player.duration)
    {
      player := player.(position := position);
      slider := slider.(value := PositionToSlider(position));
      timeLabel := TimeFromSeconds(ToInt32(TDiv(position, 1000))) + "/"
                   + TimeFromSeconds(ToInt32(TDiv(player.duration, 1000)));
    }

    /** `player_progress_changed`: the slider's value became `value` (the
        slot is its `valueChanged` signal); the player seeks to the position
        that value stands for. */
    method PlayerProgressChanged(value: int32)
      requires Valid()
      modifies this`player, this`slider
      ensures Valid()
      ensures slider == old(slider).(value := value)
      ensures player == old(player).(position := SeekTarget(value))
      ensures value >= 0 ==> PositionToSlider(player.position) == value
    {
      slider := slider.(value := value);
      player := player.(position := SeekTarget(value));
    }

    /** `options`: opens the dialog on the records directory, protecting the
        player's current media, unless it is already open. */
    method Options()
      requires Valid()
      modifies this`dialog
      ensures Valid()
      ensures old(dialog) == null ==>
        && dialog != null && fresh(dialog) && dialog.recordsPath == recordsPath
        && dialog.current == player.media
        && dialog.directoryContains == RecordsText(disk.present, disk.entries)
      ensures old(dialog) != null ==> dialog == old(dialog)
    {
      if dialog == null {
        dialog := new OptionsDialog(disk, recordsPath, player.media);
      }
    }

    /** The dialog closed and deleted itself. */
    method DialogDestroyed()
      requires Valid()
      modifies this`dialog
      ensures Valid() && dialog == null
    {
      dialog := null;
    }
  }

  // -----------------------------------------------------------------------
  // Consequences for sequences of events

  /** Saving while playing at position P and then receiving LoadedMedia:
      playback resumes at P on the new file, the old recording is deleted,
      the dialog protects nothing and the swap is disarmed. */
  method SaveWhilePlaying(c: Controller, newPath: string)
    requires c.Valid() && c.player.playing
    requires Removable(c.disk.entries, c.disk.locked, c.outputLocation)
    modifies c, c.dialog, c.disk
    ensures c.Valid() && !c.SwapPending() && !c.moveFileData.wasPlaying
    ensures c.player.playing && c.player.position == old(c.player.position) && c.player.media == newPath
    ensures c.disk.entries == old(c.disk.entries) - {c.outputLocation}
    ensures c.dialog != null ==> c.dialog.current == ""
    ensures c.transport == TransportEnabled && c.notice == NoticeSaved
  {
    c.SaveFile(true, newPath, true);
    assert !c.player.playing && c.moveFileData.wasPlaying;
    c.PlayerMediaStatusChanged(LoadedMedia);
  }

  /** A second LoadedMedia after a completed swap changes nothing: nothing
      is sought, resumed or deleted again. `first` is what the window and
      the directory hold after the first LoadedMedia. */
  method SwapConsumedOnce(c: Controller, newPath: string)
    returns (first: (Player, MoveFileData, Notice, Transport, map<string, EntryInfo>))
    requires c.Valid()
    modifies c, c.dialog, c.disk
    ensures c.Valid() && !c.SwapPending()
    ensures first == (c.player, c.moveFileData, c.notice, c.transport, c.disk.entries)
    ensures c.player == old(c.player).(media := newPath,
      playing := old(c.player.playing) || old(c.moveFileData.wasPlaying))
    ensures var gone := old(c.moveFileData.oldFilePath);
      c.disk.entries == if Removable(old(c.disk.entries), c.disk.locked, gone)
                        then old(c.disk.entries) - {gone} else old(c.disk.entries)
  {
    c.UpdateToPlay(newPath);
    c.PlayerMediaStatusChanged(LoadedMedia);
    first := (c.player, c.moveFileData, c.notice, c.transport, c.disk.entries);
    c.PlayerMediaStatusChanged(LoadedMedia);
  }

  /** A seek by the slider, then a new duration: because the slider no
      longer sits at 0, resetting it emits a change to 0 and the player
      rewinds to the start. */
  method SeekThenNewDurationRewinds(c: Controller, value: int32, duration: int)
    requires c.Valid() && value > 0
    modifies c`player, c`slider, c`timeLabel
    ensures c.Valid()
    ensures c.player.position == 0 && c.player.duration == duration
    ensures c.slider == Slider(0, PositionToSlider(duration))
  {
    c.PlayerProgressChanged(value);
    assert c.slider.value != 0;
    c.PlayerDurationChanged(duration);
  }

  /** Loading a finished recording (`set_to_play`) never arms a swap, so
      the LoadedMedia that follows deletes nothing. */
  method FinishedRecordingDeletesNothing(c: Controller, now: Tm)
    requires c.Valid() && !c.SwapPending()
    modifies c, c.dialog, c.disk
    ensures c.Valid() && !c.SwapPending()
    ensures c.disk.entries == old(c.disk.entries)
    ensures c.player.media == c.outputLocation && c.transport == TransportEnabled && c.saveEnabled
  {
    c.RecorderStatusChanged(UnloadedStatus, now);
    c.PlayerMediaStatusChanged(LoadedMedia);
  }

  /** RecordingState, then RecordingStatus. */
  method RecordingStateThenStatus(c: Controller, now: Tm)
    requires c.Valid()
    modifies c`recorderState, c`moveFileData, c`notice, c`recordButton, c`pauseButton, c`saveEnabled
    modifies c`recordProgress, c`recordLabelWrites, c`fileLabel, c`player, c.dialog
    ensures c.Valid()
    ensures c.recorderState == RecordingState
    ensures c.moveFileData == old(c.moveFileData).(fileNameTime := FileNameByTime(now))
    ensures c.recordButton == Button(true, StopCaption) && c.pauseButton == Button(true, PauseCaption)
    ensures !c.saveEnabled && c.notice == NoticeRecording
    ensures c.recordProgress == old(c.recordProgress) && c.recordLabelWrites == old(c.recordLabelWrites)
    ensures c.player == old(c.player) && c.fileLabel == old(c.fileLabel)
    ensures c.dialog != null ==>
      c.dialog.current == c.outputLocation && c.dialog.directoryContains == old(c.dialog.directoryContains)
  {
    c.RecorderStateChanged(RecordingState, false);
    c.RecorderStatusChanged(RecordingStatus, now);
  }

  /** RecordingStatus, then RecordingState. */
  method RecordingStatusThenState(c: Controller, now: Tm)
    requires c.Valid()
    modifies c`recorderState, c`moveFileData, c`notice, c`recordButton, c`pauseButton, c`saveEnabled
    modifies c`recordProgress, c`recordLabelWrites, c`fileLabel, c`player, c.dialog
    ensures c.Valid()
    ensures c.recorderState == RecordingState
    ensures c.moveFileData == old(c.moveFileData).(fileNameTime := FileNameByTime(now))
    ensures c.recordButton == Button(true, StopCaption) && c.pauseButton == Button(true, PauseCaption)
    ensures !c.saveEnabled && c.notice == NoticeRecording
    ensures c.recordProgress == old(c.recordProgress) && c.recordLabelWrites == old(c.recordLabelWrites)
    ensures c.player == old(c.player) && c.fileLabel == old(c.fileLabel)
    ensures c.dialog != null ==>
      c.dialog.current == c.outputLocation && c.dialog.directoryContains == old(c.dialog.directoryContains)
  {
    c.RecorderStatusChanged(RecordingStatus, now);
    c.RecorderStateChanged(RecordingState, false);
  }

  /** The backend's RecordingState and RecordingStatus notifications may
      come in either order; the window ends in the same state. The frame
      leaves out the playback controls, the slider, the time label, the
      recorder requests and the dialog pointer, so those stay as they were. */
  method RecordingNotificationsCommute(c: Controller, now: Tm, stateFirst: bool)
    requires c.Valid()
    modifies c`recorderState, c`moveFileData, c`notice, c`recordButton, c`pauseButton, c`saveEnabled
    modifies c`recordProgress, c`recordLabelWrites, c`fileLabel, c`player, c.dialog
    ensures c.Valid()
    ensures c.recorderState == RecordingState
    ensures c.moveFileData == old(c.moveFileData).(fileNameTime := FileNameByTime(now))
    ensures c.recordButton == Button(true, StopCaption) && c.pauseButton == Button(true, PauseCaption)
    ensures !c.saveEnabled && c.notice == NoticeRecording
    ensures c.recordProgress == old(c.recordProgress) && c.recordLabelWrites == old(c.recordLabelWrites)
    ensures c.player == old(c.player) && c.fileLabel == old(c.fileLabel)
    ensures c.dialog != null ==>
      c.dialog.current == c.outputLocation && c.dialog.directoryContains == old(c.dialog.directoryContains)
  {
    if stateFirst {
      RecordingStateThenStatus(c, now);
    } else {
      RecordingStatusThenState(c, now);
    }
  }

  /** The stop-side pair does not commute: after a failed recording, a
      StoppedState that arrives before UnloadedStatus leaves save enabled,
      and one that arrives after it leaves save disabled. */
  method FailedStopOrderMatters(c: Controller, now: Tm, stateFirst: bool)
    requires c.Valid()
    modifies c, c.dialog
    ensures c.Valid()
    ensures c.saveEnabled == stateFirst
    ensures c.recorderState == StoppedState && c.notice == NoticeFailed
    ensures c.recordProgress == NoRecord <==> stateFirst
    ensures c.player == WithMedia(old(c.player), c.outputLocation)
  {
    if stateFirst {
      c.RecorderStateChanged(StoppedState, true);
      c.RecorderStatusChanged(UnloadedStatus, now);
    } else {
      c.RecorderStatusChanged(UnloadedStatus, now);
      c.RecorderStateChanged(StoppedState, true);
    }
  }

  /** After a recording finishes without error, the window reads
      "Record: 00:00  ", the record button "Record" and the status label
      "Recording finished" in blue. */
  method FinishedRecordingTexts(c: Controller)
    requires c.Valid()
    modifies c
    ensures c.Valid()
    ensures ProgressText(c.recordProgress) == "Record: 00:00  "
    ensures CaptionText(c.recordButton.caption) == "Record" && CaptionText(c.pauseButton.caption) == "Pause"
    ensures !c.pauseButton.enabled && c.notice == NoticeFinished
    ensures NoticeMessage(c.notice) == ("Recording finished", "blue")
  {
    c.RecorderStateChanged(StoppedState, false);
    StoppedRecordLabel();
  }

  /** Buffers delivered one after another redraw the label exactly
      `RefreshCount` times and add up in the elapsed time. */
  method DeliverBuffers(c: Controller, durations: seq<int>)
    requires c.Valid()
    modifies c
    ensures c.Valid()
    ensures c.moveFileData == old(c.moveFileData).(time := old(c.moveFileData.time) + Sum(durations))
    ensures c.recordLabelWrites == old(c.recordLabelWrites) + RefreshCount(old(c.moveFileData.time), durations)
  {
    var i := 0;
    while i < |durations|
      invariant 0 <= i <= |durations|
      invariant c.Valid()
      invariant c.moveFileData == old(c.moveFileData).(time := c.moveFileData.time)
      invariant c.moveFileData.time + Sum(durations[i..]) == old(c.moveFileData.time) + Sum(durations)
      invariant c.recordLabelWrites + RefreshCount(c.moveFileData.time, durations[i..])
                == old(c.recordLabelWrites) + RefreshCount(old(c.moveFileData.time), durations)
    {
      assert durations[i..][1..] == durations[i + 1..];
      c.RecorderProcessBuffer(durations[i]);
      i := i + 1;
    }
  }

  /** From a whole, non-zero second, buffers of 999,999 microseconds in all
      do not redraw; one more microsecond redraws exactly once. */
  method OneRedrawPerSecond(c: Controller, durations: seq<int>)
    requires c.Valid() && c.moveFileData.time == 3 * MicrosPerSecond
    requires NonNegative(durations) && Sum(durations) == MicrosPerSecond - 1
    modifies c
    ensures c.moveFileData.time == 4 * MicrosPerSecond
    ensures c.recordLabelWrites == old(c.recordLabelWrites) + 1
    ensures c.recordProgress == Elapsed(4 * MicrosPerSecond)
  {
    OneRedrawAtSecondCrossing(3, durations);
    DeliverBuffers(c, durations);
    c.RecorderProcessBuffer(1);
  }

  /** A recording the backend abandons before it reports RecordingStatus
      leaves the record button disabled: only RecordingStatus enables it. */
  method StartFailsBeforeRecording(c: Controller)
    requires c.Valid() && c.recorderState == StoppedState
    modifies c
    ensures !c.recordButton.enabled && !c.pauseButton.enabled && c.notice == NoticeFailed
    ensures c.recorderCalls == old(c.recorderCalls) + [ApplySettings, Record]
  {
    c.RecorderRecord();
    c.RecorderStateChanged(StoppedState, true);
  }
}
