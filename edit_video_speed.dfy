/** The speed-edit page: a clip handed over from the clip page, or a local upload within the size
    limit, is sent off for a speed change; the job is polled at a rate that depends on the
    file's size, and can be cancelled. The request id and status are mirrored into session
    storage. */
module EditVideoSpeed {
  import opened JsText
  import ClipEditorV2
  import RollingTimePicker

  const MaxVideoSizeMB := 50
  const MaxVideoSizeBytes := MaxVideoSizeMB * 1024 * 1024

  // ---------------------------------------------------------------------------------------
  // Restored status

  /** The initial status: the saved `speedEditStatus`, except that a saved `'cancelled'` is
      dropped. */
  function RestoredStatus(saved: Option<string>): (r: Option<string>)
    ensures r != Some("cancelled")
    ensures saved != Some("cancelled") ==> r == saved
    ensures saved == Some("cancelled") ==> r == None
  {
    if saved == Some("cancelled") then None else saved
  }

  /** Restoring twice is restoring once. */
  lemma RestoredStatusIdempotent(saved: Option<string>)
    ensures RestoredStatus(RestoredStatus(saved)) == RestoredStatus(saved)
  {
  }

  // ---------------------------------------------------------------------------------------
  // Polling interval

  /** `initialTask.original_size || 0`: a missing size (or 0) counts as 0 MB. */
  function OriginalSize(size: Option<real>): (mb: real)
    ensures mb == 0.0 <==> size.None? || size.value == 0.0
    ensures mb != 0.0 ==> size == Some(mb)
  {
    if size.Some? then size.value else 0.0
  }

  /** `getPollingInterval(sizeMB)` in milliseconds. */
  function GetPollingInterval(sizeMB: real): (ms: nat)
    ensures ms == 1500 || ms == 2500 || ms == 4000 || ms == 7000
    ensures sizeMB < 1.0 ==> ms == 1500
  {
    if sizeMB == 0.0 || sizeMB < 1.0 then 1500
    else if sizeMB < 5.0 then 2500
    else if sizeMB < 15.0 then 4000
    else 7000
  }

  /** Below 1 MB (or no size) every 1.5 s, below 5 MB every 2.5 s, below 15 MB every 4 s and
      otherwise every 7 s; a bigger file is never polled more often than a smaller one. */
  lemma PollingIntervalIsPiecewiseAndMonotone(a: real, b: real)
    requires a <= b
    ensures GetPollingInterval(OriginalSize(None)) == 1500
    ensures GetPollingInterval(a) ==
      (if a < 1.0 then 1500 else if a < 5.0 then 2500 else if a < 15.0 then 4000 else 7000)
    ensures GetPollingInterval(a) <= GetPollingInterval(b)
  {
  }

  // ---------------------------------------------------------------------------------------
  // formatTime

  /** `formatTime(seconds)` for a whole number of seconds: `h:mm:ss` from one hour on,
      `m:ss` below. */
  function FormatTime(seconds: nat): (r: string)
    ensures |r| >= 4 && r[|r| - 3] == ':'
    ensures var ss := r[|r| - 2..]; AllDigits(ss) && DecimalValue(ss) == seconds % 60
  {
    var h, m, s := seconds / 3600, (seconds % 3600) / 60, seconds % 60;
    ClockDecomposition(seconds);
    ClockLayoutLastField(h, m, s);
    ClockLayout(h, m, s)
  }

  /** The template literal of `formatTime`, given its three numbers. */
  function ClockLayout(h: nat, m: nat, s: nat): string {
    if h > 0 then IntToString(h) + ":" + Pad2(m) + ":" + Pad2(s)
    else IntToString(m) + ":" + Pad2(s)
  }

  /** The layout always ends in a colon and the two-digit seconds. */
  lemma ClockLayoutLastField(h: nat, m: nat, s: nat)
    requires s < 60
    ensures var r := ClockLayout(h, m, s);
      |r| >= 4 && r[|r| - 3] == ':' && AllDigits(r[|r| - 2..]) && DecimalValue(r[|r| - 2..]) == s
  {
    var ss := Pad2(s);
    Pad2TwoDigits(s);
    var front := if h > 0 then IntToString(h) + ":" + Pad2(m) else IntToString(m);
    assert ClockLayout(h, m, s) == front + ":" + ss;
    EndsWithField(front, ss);
  }

  /** A string `front:field` ends in a colon and `field`. */
  lemma EndsWithField(front: string, field: string)
    requires |field| == 2
    ensures var r := front + ":" + field; r[|r| - 3] == ':' && r[|r| - 2..] == field
  {
  }

  /** A number's decimal text has no colon. */
  lemma NoColonInNatToString(n: nat)
    ensures ':' !in NatToString(n)
  {
    var t := NatToString(n);
    assert forall i :: 0 <= i < |t| ==> IsDigit(t[i]);
  }

  /** Hours, minutes and seconds put back together give the duration. */
  lemma ClockDecomposition(seconds: nat)
    ensures (seconds / 3600) * 3600 + ((seconds % 3600) / 60) * 60 + seconds % 60 == seconds
    ensures (seconds % 3600) / 60 < 60 && seconds % 60 < 60
    ensures seconds / 3600 > 0 <==> seconds >= 3600
  {
    var r := seconds % 3600;
    assert seconds == (seconds / 3600) * 3600 + r;
    assert r == (r / 60) * 60 + r % 60;
    assert r % 60 == seconds % 60 by {
      assert seconds == ((seconds / 3600) * 60 + r / 60) * 60 + r % 60;
    }
  }

  /** `time_to_seconds` of a string that splits into three parts whose numbers are `h`, `m`
      and `s`. */
  lemma TimeToSecondsOfFields(t: string, a: string, b: string, c: string, h: nat, m: nat, s: nat, total: nat)
    requires Split(t, ':') == [a, b, c]
    requires NumberOf(a) == Some(h) && NumberOf(b) == Some(m) && NumberOf(c) == Some(s)
    requires total == h * 3600 + m * 60 + s
    ensures ClipEditorV2.TimeToSeconds(t) == Some(total)
  {
    var p := [a, b, c];
    assert p[0] == a && p[1] == b && p[2] == c;
  }

  /** With hours, the layout splits into the three fields, read back as `h·3600 + m·60 + s`. */
  lemma ClockLayoutRoundTrip(h: nat, m: nat, s: nat, total: nat)
    requires h > 0 && m < 60 && s < 60 && total == h * 3600 + m * 60 + s
    ensures ClipEditorV2.TimeToSeconds(ClockLayout(h, m, s)) == Some(total)
  {
    ClockLayoutFields(h, m, s);
    NumberOfPad2(m);
    NumberOfPad2(s);
    TimeToSecondsOfFields(ClockLayout(h, m, s), NatToString(h), Pad2(m), Pad2(s), h, m, s, total);
  }

  /** With hours, the layout's fields are the unpadded hours and the two-digit minutes and
      seconds. */
  lemma ClockLayoutFields(h: nat, m: nat, s: nat)
    requires h > 0 && m < 60 && s < 60
    ensures var p := Split(ClockLayout(h, m, s), ':');
      p == [NatToString(h), Pad2(m), Pad2(s)] && |p[1]| == 2 && |p[2]| == 2 &&
      AllDigits(p[1]) && AllDigits(p[2]) && DecimalValue(p[1]) == m && DecimalValue(p[2]) == s
  {
    var hh, mm, ss := NatToString(h), Pad2(m), Pad2(s);
    assert ClockLayout(h, m, s) == hh + ":" + mm + ":" + ss;
    Pad2TwoDigits(m);
    Pad2TwoDigits(s);
    NoColonInNatToString(h);
    RollingTimePicker.NoColonInPad2(m);
    RollingTimePicker.NoColonInPad2(s);
    RollingTimePicker.SplitThree(hh, mm, ss);
  }

  /** Without hours, the layout splits into minutes and two-digit seconds. */
  lemma ClockLayoutMinutes(m: nat, s: nat)
    requires s < 60
    ensures var p := Split(ClockLayout(0, m, s), ':');
      p == [NatToString(m), Pad2(s)] &&
      |p| == 2 && AllDigits(p[0]) && AllDigits(p[1]) && |p[1]| == 2 &&
      DecimalValue(p[0]) == m && DecimalValue(p[1]) == s
  {
    Pad2TwoDigits(s);
    NoColonInNatToString(m);
    RollingTimePicker.NoColonInPad2(s);
    SplitTwo(NatToString(m), Pad2(s));
  }

  /** From one hour on, `time_to_seconds` reads the formatted duration back exactly. */
  lemma FormatTimeRoundTripHours(seconds: nat)
    requires seconds >= 3600
    ensures ClipEditorV2.TimeToSeconds(FormatTime(seconds)) == Some(seconds)
  {
    var h, m, s := seconds / 3600, (seconds % 3600) / 60, seconds % 60;
    ClockDecomposition(seconds);
    assert FormatTime(seconds) == ClockLayout(h, m, s);
    ClockLayoutRoundTrip(h, m, s, seconds);
  }

  /** Below one hour the hours are left out, and the two fields read back as minutes and
      seconds give the duration exactly. */
  lemma FormatTimeRoundTripMinutes(seconds: nat)
    requires seconds < 3600
    ensures var p := Split(FormatTime(seconds), ':');
      |p| == 2 && AllDigits(p[0]) && AllDigits(p[1]) && |p[1]| == 2 &&
      DecimalValue(p[0]) * 60 + DecimalValue(p[1]) == seconds
  {
    var m, s := (seconds % 3600) / 60, seconds % 60;
    ClockDecomposition(seconds);
    assert seconds / 3600 == 0;
    assert m * 60 + s == seconds;
    assert FormatTime(seconds) == ClockLayout(0, m, s);
    ClockLayoutMinutes(m, s);
  }

  /** From one hour on the text is `h:mm:ss`: the hours as written by `toString`, then the
      minutes within the hour and the seconds, each zero-padded to two digits. */
  lemma FormatTimeFieldsWithHours(seconds: nat)
    requires seconds >= 3600
    ensures var p := Split(FormatTime(seconds), ':');
      p == [NatToString(seconds / 3600), Pad2((seconds % 3600) / 60), Pad2(seconds % 60)] &&
      |p[1]| == 2 && |p[2]| == 2
  {
    var h, m, s := seconds / 3600, (seconds % 3600) / 60, seconds % 60;
    ClockDecomposition(seconds);
    assert FormatTime(seconds) == ClockLayout(h, m, s);
    ClockLayoutFields(h, m, s);
  }

  /** Below one hour the text is `m:ss`: the whole minutes unpadded, then the seconds padded to
      two digits. */
  lemma FormatTimeFieldsBelowHour(seconds: nat)
    requires seconds < 3600
    ensures var p := Split(FormatTime(seconds), ':');
      p == [NatToString(seconds / 60), Pad2(seconds % 60)] && |p[1]| == 2
  {
    var m, s := (seconds % 3600) / 60, seconds % 60;
    ClockDecomposition(seconds);
    assert seconds / 3600 == 0;
    assert seconds % 3600 == seconds;
    assert m == seconds / 60;
    assert FormatTime(seconds) == ClockLayout(0, m, s);
    ClockLayoutMinutes(m, s);
  }

  /** The hours field is shown exactly when the duration reaches an hour. */
  lemma FormatTimeShowsHoursFromOneHour(seconds: nat)
    ensures seconds >= 3600 <==> |Split(FormatTime(seconds), ':')| == 3
    ensures seconds < 3600 ==> |Split(FormatTime(seconds), ':')| == 2
  {
    if seconds >= 3600 {
      FormatTimeFieldsWithHours(seconds);
    } else {
      FormatTimeFieldsBelowHour(seconds);
    }
  }

  lemma SplitTwo(a: string, b: string)
    requires ':' !in a && ':' !in b
    ensures Split(a + ":" + b, ':') == [a, b]
  {
    var parts := [a, b];
    assert parts[1..] == [b];
    assert Join(parts, ':') == a + ":" + b;
    SplitJoin(parts, ':');
  }

  // ---------------------------------------------------------------------------------------
  // The page

  /** The session-storage keys the page uses: `speedEditRequestId` and `speedEditStatus`. */
  datatype Key = RequestIdKey | StatusKey

  /** A file chosen in the upload input; only its size in bytes matters here. */
  datatype VideoFile = VideoFile(size: nat)

  /** What `initiateSpeedEdit` is sent. */
  datatype SpeedEditRequest = SpeedEditRequest(speed: real, sourceClip: Option<string>, uploadedVideo: Option<VideoFile>)

  /** One interval set by the apply handler: the request id and the status its `pollStatus`
      closure captured, its period, and whether it is still running. */
  datatype Poller = Poller(requestId: string, capturedStatus: Option<string>, intervalMs: nat, running: bool)

  /** What a status request comes back with: a task status, or an exception. */
  datatype TaskReply = TaskStatus(status: string) | TaskException

  /** `clearInterval(pollingRef.current)`: stop the interval the ref names, if any; the ref
      keeps its value. */
  function Stop(pollers: seq<Poller>, ref: Option<nat>): (r: seq<Poller>)
    ensures |r| == |pollers|
    ensures forall j :: 0 <= j < |r| ==>
      r[j] == if ref == Some(j) then pollers[j].(running := false) else pollers[j]
  {
    if ref.Some? && ref.value < |pollers| then pollers[ref.value := pollers[ref.value].(running := false)]
    else pollers
  }

  /** The page's state. `pollers` are all intervals ever set, `pollingRef` the index of the one
      `pollingRef.current` names; `inFlight` holds the pollers whose status requests are awaiting
      a reply; `downloads` holds the pollers whose `completed` reply is still awaiting its
      download; `applyCapture` is the status the latest apply's closure saw; `pendingResets`
      counts the scheduled cancel resets. */
  class Page {
    const sourceClipId: Option<string>
    var remoteVideoUrl: Option<string>
    var localFile: Option<VideoFile>
    var fileInput: Option<VideoFile>
    var speed: real
    var isProcessing: bool
    var processStatus: Option<string>
    var isCancelling: bool
    var currentRequestId: Option<string>
    var pollers: seq<Poller>
    var pollingRef: Option<nat>
    var inFlight: multiset<nat>
    var downloads: multiset<nat>
    var applyCapture: Option<string>
    var storage: map<Key, string>
    var pendingResets: nat

    /** The initial render: the clip handed over by navigation, and the status and request id
        read back from session storage. */
    constructor (storage: map<Key, string>, videoUrl: Option<string>, clipId: Option<string>)
      ensures this.storage == storage
      ensures remoteVideoUrl == (if Truthy(videoUrl) then videoUrl else None)
      ensures sourceClipId == (if Truthy(clipId) then clipId else None)
      ensures processStatus == RestoredStatus(if StatusKey in storage then Some(storage[StatusKey]) else None)
      ensures currentRequestId == (if RequestIdKey in storage then Some(storage[RequestIdKey]) else None)
      ensures localFile == None && fileInput == None && speed == 1.0 && !isProcessing && !isCancelling
      ensures pollers == [] && pollingRef == None && inFlight == multiset{} && downloads == multiset{}
      ensures pendingResets == 0
    {
      this.storage := storage;
      remoteVideoUrl := if Truthy(videoUrl) then videoUrl else None;
      sourceClipId := if Truthy(clipId) then clipId else None;
      processStatus := RestoredStatus(if StatusKey in storage then Some(storage[StatusKey]) else None);
      currentRequestId := if RequestIdKey in storage then Some(storage[RequestIdKey]) else None;
      localFile := None;
      fileInput := None;
      speed := 1.0;
      isProcessing := false;
      isCancelling := false;
      pollers := [];
      pollingRef := None;
      inFlight := multiset{};
      downloads := multiset{};
      applyCapture := None;
      pendingResets := 0;
    }

    /** `handleFileChange` for the file now in the input. A file over 50 MiB is rejected and
        the input cleared; an accepted one replaces the handed-over clip and resets the speed
        and the status. */
    method HandleFileChange(file: Option<VideoFile>)
      modifies this`fileInput, this`localFile, this`remoteVideoUrl, this`speed, this`processStatus
      ensures file.None? ==>
        fileInput == None && localFile == old(localFile) && remoteVideoUrl == old(remoteVideoUrl) &&
        speed == old(speed) && processStatus == old(processStatus)
      ensures file.Some? && file.value.size > MaxVideoSizeBytes ==>
        fileInput == None && localFile == old(localFile) && remoteVideoUrl == old(remoteVideoUrl) &&
        speed == old(speed) && processStatus == old(processStatus)
      ensures file.Some? && file.value.size <= MaxVideoSizeBytes ==>
        fileInput == file && localFile == file && remoteVideoUrl == None && speed == 1.0 &&
        processStatus == None
    {
      fileInput := file;
      if file.Some? {
        if file.value.size > MaxVideoSizeBytes {
          fileInput := None;
          return;
        }
        localFile := file;
        remoteVideoUrl := None;
        speed := 1.0;
        processStatus := None;
      }
    }

    /** `handleSpeedChange`. */
    method HandleSpeedChange(newSpeed: real)
      modifies this`speed
      ensures speed == newSpeed
    {
      speed := newSpeed;
    }

    /** The apply button is enabled: not processing, not cancelling, not just cancelled. */
    predicate ApplyEnabled()
      reads this
    {
      !isProcessing && !isCancelling && processStatus != Some("cancelled")
    }

    /** `handleApplyAndDownload` up to the awaited create call. Without a source nothing
        happens; otherwise the job starts as `pending`, its polling closure captures the status
        of this render, and the request to send is returned. */
    method HandleApply() returns (request: Option<SpeedEditRequest>)
      modifies this`isProcessing, this`processStatus, this`applyCapture
      ensures !Truthy(remoteVideoUrl) && localFile.None? ==>
        request == None && isProcessing == old(isProcessing) && processStatus == old(processStatus) &&
        applyCapture == old(applyCapture)
      ensures Truthy(remoteVideoUrl) || localFile.Some? ==>
        request == Some(SpeedEditRequest(speed, sourceClipId, localFile)) &&
        isProcessing && processStatus == Some("pending") && applyCapture == old(processStatus)
      ensures old(ApplyEnabled()) && request.Some? ==> applyCapture != Some("cancelled")
    {
      if !Truthy(remoteVideoUrl) && localFile.None? {
        return None;
      }
      applyCapture := processStatus;
      isProcessing := true;
      processStatus := Some("pending");
      request := Some(SpeedEditRequest(speed, sourceClipId, localFile));
    }

    /** The create call returns the task: its id goes into the ref and into session storage
        with status `pending`, and a new interval starts, paced by the original size. */
    method ApplySucceeded(id: string, originalSize: Option<real>)
      modifies this`currentRequestId, this`storage, this`pollers, this`pollingRef
      ensures currentRequestId == Some(id)
      ensures storage == old(storage)[RequestIdKey := id][StatusKey := "pending"]
      ensures pollers == old(pollers) +
        [Poller(id, applyCapture, GetPollingInterval(OriginalSize(originalSize)), true)]
      ensures pollingRef == Some(|old(pollers)|)
    {
      currentRequestId := Some(id);
      storage := storage[RequestIdKey := id];
      storage := storage[StatusKey := "pending"];
      var interval := GetPollingInterval(OriginalSize(originalSize));
      pollingRef := Some(|pollers|);
      pollers := pollers + [Poller(id, applyCapture, interval, true)];
    }

    /** The create call throws: processing stops, the status is cleared and both keys leave
        session storage. */
    method ApplyFailed()
      modifies this`isProcessing, this`processStatus, this`storage
      ensures !isProcessing && processStatus == None
      ensures storage == old(storage) - {StatusKey} - {RequestIdKey}
    {
      isProcessing := false;
      processStatus := None;
      storage := storage - {StatusKey};
      storage := storage - {RequestIdKey};
    }

    /** A running interval fires: its `pollStatus` sends a status request. */
    method PollTick(k: nat)
      requires k < |pollers| && pollers[k].running
      modifies this`inFlight
      ensures inFlight == old(inFlight) + multiset{k}
    {
      inFlight := inFlight + multiset{k};
    }

    /** A status request of poller `k` is answered, as the code is written: the `'cancelled'`
        guard reads the status captured when the job started, and then clears the interval the
        ref names. `completed` stops processing, sets the status and starts the download; the
        interval is cleared only once that download settles (`DownloadSettled`), so it keeps
        firing meanwhile. `failed` stops processing, sets the status and clears the interval the
        ref names. Anything else, and an exception, changes nothing. */
    method PollReply(k: nat, reply: TaskReply)
      requires k in inFlight && k < |pollers|
      modifies this`inFlight, this`downloads, this`isProcessing, this`processStatus, this`pollers
      ensures inFlight == old(inFlight) - multiset{k}
      ensures old(pollers)[k].capturedStatus == Some("cancelled") && reply.TaskStatus? ==>
        pollers == Stop(old(pollers), pollingRef) && downloads == old(downloads) &&
        isProcessing == old(isProcessing) && processStatus == old(processStatus)
      ensures old(pollers)[k].capturedStatus != Some("cancelled") && reply == TaskStatus("completed") ==>
        pollers == old(pollers) && downloads == old(downloads) + multiset{k} &&
        !isProcessing && processStatus == Some("completed")
      ensures old(pollers)[k].capturedStatus != Some("cancelled") && reply == TaskStatus("failed") ==>
        pollers == Stop(old(pollers), pollingRef) && downloads == old(downloads) &&
        !isProcessing && processStatus == Some("failed")
      ensures (reply.TaskException? ||
               (old(pollers)[k].capturedStatus != Some("cancelled") &&
                reply.status != "completed" && reply.status != "failed")) ==>
        pollers == old(pollers) && downloads == old(downloads) &&
        isProcessing == old(isProcessing) && processStatus == old(processStatus)
    {
      inFlight := inFlight - multiset{k};
      if reply.TaskException? {
        return;
      }
      if pollers[k].capturedStatus == Some("cancelled") {
        pollers := Stop(pollers, pollingRef);
        return;
      }
      if reply.status == "completed" {
        isProcessing := false;
        processStatus := Some("completed");
        downloads := downloads + multiset{k};
      } else if reply.status == "failed" {
        isProcessing := false;
        processStatus := Some("failed");
        pollers := Stop(pollers, pollingRef);
      }
    }

    /** The same reply with the guard reading the live status, as the guard evidently means:
        once the job is cancelled, a late reply only clears the interval. The other branches
        are those of `PollReply`. */
    method PollReplyLiveGuard(k: nat, reply: TaskReply)
      requires k in inFlight && k < |pollers|
      modifies this`inFlight, this`downloads, this`isProcessing, this`processStatus, this`pollers
      ensures inFlight == old(inFlight) - multiset{k}
      ensures old(processStatus) == Some("cancelled") && reply.TaskStatus? ==>
        pollers == Stop(old(pollers), pollingRef) && downloads == old(downloads) &&
        isProcessing == old(isProcessing) && processStatus == Some("cancelled")
      ensures old(processStatus) != Some("cancelled") && reply == TaskStatus("completed") ==>
        pollers == old(pollers) && downloads == old(downloads) + multiset{k} &&
        !isProcessing && processStatus == Some("completed")
      ensures old(processStatus) != Some("cancelled") && reply == TaskStatus("failed") ==>
        pollers == Stop(old(pollers), pollingRef) && downloads == old(downloads) &&
        !isProcessing && processStatus == Some("failed")
      ensures (reply.TaskException? ||
               (old(processStatus) != Some("cancelled") &&
                reply.status != "completed" && reply.status != "failed")) ==>
        pollers == old(pollers) && downloads == old(downloads) &&
        isProcessing == old(isProcessing) && processStatus == old(processStatus)
    {
      inFlight := inFlight - multiset{k};
      if reply.TaskException? {
        return;
      }
      if processStatus == Some("cancelled") {
        pollers := Stop(pollers, pollingRef);
        return;
      }
      if reply.status == "completed" {
        isProcessing := false;
        processStatus := Some("completed");
        downloads := downloads + multiset{k};
      } else if reply.status == "failed" {
        isProcessing := false;
        processStatus := Some("failed");
        pollers := Stop(pollers, pollingRef);
      }
    }

    /** The download started by poller `k`'s `completed` reply settles (the blob, or the
        fallback link): only then is the interval cleared, and it is the one the ref names at
        this moment, which a later apply may have pointed at another job. */
    method DownloadSettled(k: nat)
      requires k in downloads
      modifies this`downloads, this`pollers
      ensures downloads == old(downloads) - multiset{k}
      ensures pollers == Stop(old(pollers), pollingRef)
    {
      downloads := downloads - multiset{k};
      pollers := Stop(pollers, pollingRef);
    }

    /** `handleCancelRequest` up to the awaited call: without a request id nothing happens;
        otherwise cancelling starts and the id to cancel is returned. */
    method HandleCancel() returns (request: Option<string>)
      modifies this`isCancelling
      ensures !Truthy(currentRequestId) ==> request == None && isCancelling == old(isCancelling)
      ensures Truthy(currentRequestId) ==> request == currentRequestId && isCancelling
    {
      if !Truthy(currentRequestId) {
        return None;
      }
      isCancelling := true;
      request := currentRequestId;
    }

    /** The cancel call succeeds: the interval is cleared, the status becomes `'cancelled'` in
        the page and in session storage, and the reset is scheduled. */
    method CancelSucceeded()
      modifies this`pollers, this`processStatus, this`storage, this`pendingResets
      ensures pollers == Stop(old(pollers), pollingRef)
      ensures processStatus == Some("cancelled") && storage == old(storage)[StatusKey := "cancelled"]
      ensures pendingResets == old(pendingResets) + 1
    {
      if pollingRef.Some? {
        pollers := Stop(pollers, pollingRef);
      }
      processStatus := Some("cancelled");
      storage := storage[StatusKey := "cancelled"];
      pendingResets := pendingResets + 1;
    }

    /** The cancel call throws: only the cancelling flag goes down; the interval keeps running
        because clearing it comes after the awaited call. */
    method CancelFailed()
      modifies this`isCancelling
      ensures !isCancelling
    {
      isCancelling := false;
    }

    /** The one-second reset after a successful cancel fires: the page returns to idle and both
        keys leave session storage. */
    method ResetFires()
      requires pendingResets > 0
      modifies this`processStatus, this`isProcessing, this`isCancelling, this`currentRequestId,
               this`storage, this`pendingResets
      ensures processStatus == None && !isProcessing && !isCancelling && currentRequestId == None
      ensures storage == old(storage) - {StatusKey} - {RequestIdKey}
      ensures pendingResets == old(pendingResets) - 1
    {
      processStatus := None;
      isProcessing := false;
      isCancelling := false;
      currentRequestId := None;
      storage := storage - {StatusKey};
      storage := storage - {RequestIdKey};
      pendingResets := pendingResets - 1;
    }
  }

  // ---------------------------------------------------------------------------------------
  // A reply that arrives after a cancel

  /** A job on a handed-over clip is started and polled once; it is cancelled while the
      request is in flight, and the reply then says `completed`. As written, the page leaves
      `'cancelled'` for `'completed'` (and would start the download). */
  method LateReplyOverridesCancel() returns (statusAfterCancel: Option<string>, statusAfterReply: Option<string>)
    ensures statusAfterCancel == Some("cancelled") && statusAfterReply == Some("completed")
  {
    var page := new Page(map[], Some("clip.mp4"), Some("7"));
    var request := page.HandleApply();
    page.ApplySucceeded("42", None);
    page.PollTick(0);
    var cancel := page.HandleCancel();
    page.CancelSucceeded();
    statusAfterCancel := page.processStatus;
    page.PollReply(0, TaskStatus("completed"));
    statusAfterReply := page.processStatus;
  }

  /** The same sequence with the guard reading the live status keeps `'cancelled'`. */
  method LateReplyIgnoredAfterCancel() returns (statusAfterReply: Option<string>)
    ensures statusAfterReply == Some("cancelled")
  {
    var page := new Page(map[], Some("clip.mp4"), Some("7"));
    var request := page.HandleApply();
    page.ApplySucceeded("42", None);
    page.PollTick(0);
    var cancel := page.HandleCancel();
    page.CancelSucceeded();
    page.PollReplyLiveGuard(0, TaskStatus("completed"));
    statusAfterReply := page.processStatus;
  }

  // ---------------------------------------------------------------------------------------
  // A slow download

  /** A job on a handed-over clip is started, polled once, and its status comes back
      `completed`: the download is pending, the interval still runs, and the apply button is
      enabled again. */
  method JobDownloading() returns (page: Page)
    ensures fresh(page)
    ensures |page.pollers| == 1 && page.pollers[0].running && page.pollingRef == Some(0)
    ensures page.pollers[0].capturedStatus == None && page.inFlight == multiset{}
    ensures page.downloads == multiset{0} && page.processStatus == Some("completed")
    ensures page.ApplyEnabled()
  {
    page := new Page(map[], Some("clip.mp4"), Some("7"));
    var request := page.HandleApply();
    page.ApplySucceeded("A", None);
    page.PollTick(0);
    page.PollReply(0, TaskStatus("completed"));
  }

  /** While the download is pending the interval fires again and sends another status
      request, whose `completed` reply starts a second download. */
  method DownloadKeepsPolling() returns (requestsInFlight: nat, downloadsPending: nat)
    ensures requestsInFlight == 1 && downloadsPending == 2
  {
    var page := JobDownloading();
    page.PollTick(0);
    requestsInFlight := |page.inFlight|;
    page.PollReply(0, TaskStatus("completed"));
    downloadsPending := |page.downloads|;
  }

  /** A second job started while the first one's download is pending re-points the ref. When
      the download settles it clears the second job's interval, and the first one runs on. */
  method DownloadClearsTheNewerJob() returns (firstRunning: bool, secondRunning: bool)
    ensures firstRunning && !secondRunning
  {
    var page := JobDownloading();
    var request := page.HandleApply();
    page.ApplySucceeded("B", None);
    page.DownloadSettled(0);
    firstRunning := page.pollers[0].running;
    secondRunning := page.pollers[1].running;
  }
}
