/** The clip-generation page: two picker times and a URL are checked, a clip job is created,
    its status is polled at a rate that depends on the clip's length, the results are rebuilt
    from the completed job, and the page mirrors its state into session storage. */
module GetClips {
  import opened JsText
  import ClipEditorV2
  import RollingTimePicker

  const RequiredMessage := "Required"
  const EndAfterStartMessage := "End time must be > Start time"
  const MaxDurationMessage := "Max duration is 10 mins"
  const ProcessingFailedMessage := "Processing failed"
  const DefaultTime := "00:00:00"
  const MaxClipSeconds := 600

  // ---------------------------------------------------------------------------------------
  // validate_logic

  /** `validate_logic`: the end must come after the start, by at most ten minutes. A time that
      `Number` cannot read makes both comparisons false, so nothing is reported. */
  function ValidateLogic(start: string, end: string): (r: string)
    ensures r == "" || r == EndAfterStartMessage || r == MaxDurationMessage
    ensures ClipEditorV2.TimeToSeconds(start).None? || ClipEditorV2.TimeToSeconds(end).None? ==> r == ""
    ensures ClipEditorV2.MatchesTimePattern(start) && ClipEditorV2.MatchesTimePattern(end) ==>
      ClipEditorV2.IsClockShape(start) && ClipEditorV2.IsClockShape(end) &&
      var s := ClipEditorV2.ClockSeconds(start);
      var e := ClipEditorV2.ClockSeconds(end);
      (r == EndAfterStartMessage <==> e <= s) &&
      (r == MaxDurationMessage <==> e - s > MaxClipSeconds) &&
      (r == "" <==> 0 < e - s <= MaxClipSeconds)
  {
    ValidTimesRead(start, end);
    match (ClipEditorV2.TimeToSeconds(start), ClipEditorV2.TimeToSeconds(end))
    case (Some(s), Some(e)) =>
      if e <= s then EndAfterStartMessage
      else if e - s > MaxClipSeconds then MaxDurationMessage
      else ""
    case _ => ""
  }

  lemma ValidTimesRead(start: string, end: string)
    ensures ClipEditorV2.MatchesTimePattern(start) && ClipEditorV2.MatchesTimePattern(end) ==>
      ClipEditorV2.IsClockShape(start) && ClipEditorV2.IsClockShape(end) &&
      ClipEditorV2.TimeToSeconds(start) == Some(ClipEditorV2.ClockSeconds(start)) &&
      ClipEditorV2.TimeToSeconds(end) == Some(ClipEditorV2.ClockSeconds(end))
  {
    if ClipEditorV2.MatchesTimePattern(start) && ClipEditorV2.MatchesTimePattern(end) {
      ClipEditorV2.TimeToSecondsOfValidTime(start);
      ClipEditorV2.TimeToSecondsOfValidTime(end);
    }
  }

  /** On two well-formed times this page and the clip editor accept the same ranges, and reject
      the same ones for the same reason (in their own words). */
  lemma ValidateLogicAgreesWithEditor(start: string, end: string)
    requires ClipEditorV2.MatchesTimePattern(start) && ClipEditorV2.MatchesTimePattern(end)
    ensures ValidateLogic(start, end) == "" <==> ClipEditorV2.ValidateLogic(start, end) == ""
    ensures ValidateLogic(start, end) == EndAfterStartMessage <==>
      ClipEditorV2.ValidateLogic(start, end) == ClipEditorV2.AfterStartMessage
  {
  }

  /** What the picker writes (`updateTime` serialises the clock it has updated) is, for in-range
      numbers, a well-formed time: the time format never needs checking on this page. */
  lemma PickerTimeIsValid(c: RollingTimePicker.Clock)
    requires RollingTimePicker.InRange(c)
    ensures ClipEditorV2.MatchesTimePattern(RollingTimePicker.Serialise(c))
  {
    var hh, mm, ss := Pad2(c.h), Pad2(c.m), Pad2(c.s);
    Pad2TwoDigits(c.h);
    Pad2TwoDigits(c.m);
    Pad2TwoDigits(c.s);
    var t := RollingTimePicker.Serialise(c);
    assert t == hh + ":" + mm + ":" + ss;
    RollingTimePicker.PairsJoined(hh, mm, ss);
    assert ClipEditorV2.IsClockShape(t);
    ClipEditorV2.PatternMeansClockRanges(t);
  }

  /** ... and `time_to_seconds` reads back the numbers the picker was given. */
  lemma PickerTimeSeconds(c: RollingTimePicker.Clock)
    requires RollingTimePicker.InRange(c)
    ensures ClipEditorV2.TimeToSeconds(RollingTimePicker.Serialise(c)) == Some(c.h * 3600 + c.m * 60 + c.s)
  {
    RollingTimePicker.SplitSerialise(c);
    NumberOfPad2(c.h);
    NumberOfPad2(c.m);
    NumberOfPad2(c.s);
    SecondsOfNumberedParts(RollingTimePicker.Serialise(c), Pad2(c.h), Pad2(c.m), Pad2(c.s), c);
  }

  /** `time_to_seconds` of a string that splits into three parts whose numbers are a clock's. */
  lemma SecondsOfNumberedParts(t: string, a: string, b: string, d: string, c: RollingTimePicker.Clock)
    requires Split(t, ':') == [a, b, d]
    requires NumberOf(a) == Some(c.h) && NumberOf(b) == Some(c.m) && NumberOf(d) == Some(c.s)
    ensures ClipEditorV2.TimeToSeconds(t) == Some(c.h * 3600 + c.m * 60 + c.s)
  {
    var p := [a, b, d];
    assert p[0] == a && p[1] == b && p[2] == d;
  }

  // ---------------------------------------------------------------------------------------
  // Polling interval

  /** `time_to_seconds(endTime) - time_to_seconds(startTime)`, `NaN` written `None`. */
  function Duration(start: string, end: string): Option<int> {
    match (ClipEditorV2.TimeToSeconds(start), ClipEditorV2.TimeToSeconds(end))
    case (Some(s), Some(e)) => Some(e - s)
    case _ => None
  }

  /** The polling interval in milliseconds for a clip of the given duration. Every comparison
      with `NaN` is false, so an unreadable duration keeps the default. */
  function IntervalForDuration(d: Option<int>): (ms: nat)
    ensures ms == 2000 || ms == 5000 || ms == 7000
    ensures d.None? ==> ms == 2000
  {
    if d.None? then 2000
    else if 60 <= d.value < 180 then 5000
    else if d.value >= 180 then 7000
    else 2000
  }

  /** Under a minute the page polls every 2 s, up to three minutes every 5 s, beyond every 7 s;
      and a longer clip is never polled more often than a shorter one. */
  lemma IntervalIsPiecewiseAndMonotone(d1: int, d2: int)
    requires d1 <= d2
    ensures IntervalForDuration(Some(d1)) == (if d1 < 60 then 2000 else if d1 < 180 then 5000 else 7000)
    ensures IntervalForDuration(Some(d1)) <= IntervalForDuration(Some(d2))
  {
  }

  // ---------------------------------------------------------------------------------------
  // Results

  /** One result slot: `{ url, size, id }`, each possibly `null`. */
  datatype Slot = Slot(url: Option<string>, size: Option<string>, id: Option<string>)

  /** The two slots the page shows. */
  datatype Results = Results(p720: Slot, p480: Slot)

  const EmptySlot := Slot(None, None, None)
  const EmptyResults := Results(EmptySlot, EmptySlot)

  /** A clip's `size` in megabytes as the reply carries it: the number, and the text a
      template literal writes for it (`12`, `12.5`). How JavaScript turns a number into text
      is taken as given. */
  datatype Size = Size(amount: real, text: string)

  /** One entry of the job's `clips` array. */
  datatype Clip = Clip(resolution: string, clip: Option<string>, size: Option<Size>, id: Option<string>)

  /** `clip.size ? `${clip.size}MB` : null`: a missing or zero size gives no label. */
  function SizeLabel(size: Option<Size>): (r: Option<string>)
    ensures r.None? <==> size.None? || size.value.amount == 0.0
    ensures r.Some? ==>
      var t := size.value.text;
      |r.value| == |t| + 2 && r.value[..|t|] == t && r.value[|t|..] == "MB"
  {
    if size.None? || size.value.amount == 0.0 then None
    else
      var text := size.value.text + "MB";
      assert text[..|size.value.text|] == size.value.text;
      Some(text)
  }

  /** For a whole number of megabytes, the label is its decimal digits followed by `MB`. */
  lemma SizeLabelOfWholeNumber(n: nat)
    requires n > 0
    ensures var r := SizeLabel(Some(Size(n as real, NatToString(n))));
      r.Some? && |r.value| >= 3 && r.value[|r.value| - 2..] == "MB" &&
      AllDigits(r.value[..|r.value| - 2]) && DecimalValue(r.value[..|r.value| - 2]) == n
  {
    var t := NatToString(n);
    var r := SizeLabel(Some(Size(n as real, t)));
    assert r.value[..|r.value| - 2] == t;
  }

  function SlotOf(c: Clip): Slot {
    Slot(c.clip, SizeLabel(c.size), c.id)
  }

  /** The slot a resolution ends up with: filled from the last clip of that resolution, or
      empty when there is none. */
  function LastSlot(clips: seq<Clip>, resolution: string): Slot
    decreases |clips|
  {
    if clips == [] then EmptySlot
    else if clips[|clips| - 1].resolution == resolution then SlotOf(clips[|clips| - 1])
    else LastSlot(clips[..|clips| - 1], resolution)
  }

  /** The results a list of clips describes. */
  function ResultsOf(clips: seq<Clip>): Results {
    Results(LastSlot(clips, "720p"), LastSlot(clips, "480p"))
  }

  /** The slot is empty when no clip has the resolution, and otherwise comes from the last clip
      that has it: later clips overwrite earlier ones, and other resolutions are ignored. */
  lemma {:induction false} LastSlotIsLastMatch(clips: seq<Clip>, resolution: string)
    ensures (forall i :: 0 <= i < |clips| ==> clips[i].resolution != resolution) ==>
      LastSlot(clips, resolution) == EmptySlot
    ensures forall i ::
      (0 <= i < |clips| && clips[i].resolution == resolution &&
       (forall j :: i < j < |clips| ==> clips[j].resolution != resolution)) ==>
      LastSlot(clips, resolution) == SlotOf(clips[i])
    decreases |clips|
  {
    if clips != [] {
      var init := clips[..|clips| - 1];
      LastSlotIsLastMatch(init, resolution);
      assert forall i :: 0 <= i < |init| ==> init[i] == clips[i];
    }
  }

  /** A clip of any other resolution leaves both slots as they were. */
  lemma OtherResolutionIsIgnored(clips: seq<Clip>, c: Clip)
    requires c.resolution != "720p" && c.resolution != "480p"
    ensures ResultsOf(clips + [c]) == ResultsOf(clips)
  {
    assert (clips + [c])[..|clips|] == clips;
  }

  /** The body of `checkStatus` on `completed`: fresh empty slots, then one assignment per clip
      of a known resolution, in order. */
  method BuildResults(clips: Option<seq<Clip>>) returns (r: Results)
    ensures clips.None? ==> r == EmptyResults
    ensures clips.Some? ==> r == ResultsOf(clips.value)
  {
    r := EmptyResults;
    if clips.Some? {
      var cs := clips.value;
      var i := 0;
      while i < |cs|
        invariant 0 <= i <= |cs|
        invariant r == ResultsOf(cs[..i])
      {
        var c := cs[i];
        assert cs[..i + 1][..i] == cs[..i];
        if c.resolution == "720p" {
          r := r.(p720 := SlotOf(c));
        } else if c.resolution == "480p" {
          r := r.(p480 := SlotOf(c));
        }
        i := i + 1;
      }
      assert cs[..|cs|] == cs;
    }
  }

  // ---------------------------------------------------------------------------------------
  // Session storage

  /** The session-storage keys the page uses: `youtubeUrl`, `startTime`, `endTime`,
      `videoTitle`, `clipRequestId`, `clipStatus` and `results`. */
  datatype Key = UrlKey | StartTimeKey | EndTimeKey | TitleKey | RequestIdKey | StatusKey | ResultsKey

  /** A session-storage entry: a string, or the JSON text of a results object. */
  datatype Stored = Text(text: string) | ResultsJson(results: Results)

  /** `sessionStorage.getItem(key)` for a key holding a string. */
  function TextAt(storage: map<Key, Stored>, key: Key): (r: Option<string>)
    ensures r.Some? <==> key in storage && storage[key].Text?
  {
    if key in storage && storage[key].Text? then Some(storage[key].text) else None
  }

  /** A `null` state value reads as the empty string: falsy in both cases. */
  function TextOf(o: Option<string>): string {
    if o.Some? then o.value else ""
  }

  /** `if (value) sessionStorage.setItem(key, value)`, as a relation between the storage before
      and after. */
  ghost predicate WritesIfTruthy(before: map<Key, Stored>, after: map<Key, Stored>,
                                 key: Key, value: string)
  {
    && (|value| > 0 ==> key in after && after[key] == Text(value))
    && (|value| == 0 ==> (key in after <==> key in before) && (key in before ==> after[key] == before[key]))
  }

  /** What the persistence effect promises: each string key is written when its value is not
      empty and kept otherwise, `results` is always written, and no key is ever removed. */
  ghost predicate Persisted(before: map<Key, Stored>, after: map<Key, Stored>,
                            youtubeUrl: string, startTime: string, endTime: string, videoTitle: string,
                            clipRequestId: Option<string>, clipStatus: Option<string>, results: Results)
  {
    && (forall k :: k in before ==> k in after)
    && WritesIfTruthy(before, after, UrlKey, youtubeUrl)
    && WritesIfTruthy(before, after, StartTimeKey, startTime)
    && WritesIfTruthy(before, after, EndTimeKey, endTime)
    && WritesIfTruthy(before, after, TitleKey, videoTitle)
    && WritesIfTruthy(before, after, RequestIdKey, TextOf(clipRequestId))
    && WritesIfTruthy(before, after, StatusKey, TextOf(clipStatus))
    && ResultsKey in after && after[ResultsKey] == ResultsJson(results)
  }

  /** The persistence effect's body: one conditional `setItem` per key, in order. */
  method PersistedStorage(storage: map<Key, Stored>,
                          youtubeUrl: string, startTime: string, endTime: string, videoTitle: string,
                          clipRequestId: Option<string>, clipStatus: Option<string>, results: Results)
    returns (s: map<Key, Stored>)
    ensures forall k :: k in storage ==> k in s
    ensures WritesIfTruthy(storage, s, UrlKey, youtubeUrl)
    ensures WritesIfTruthy(storage, s, StartTimeKey, startTime)
    ensures WritesIfTruthy(storage, s, EndTimeKey, endTime)
    ensures WritesIfTruthy(storage, s, TitleKey, videoTitle)
    ensures WritesIfTruthy(storage, s, RequestIdKey, TextOf(clipRequestId))
    ensures WritesIfTruthy(storage, s, StatusKey, TextOf(clipStatus))
    ensures ResultsKey in s && s[ResultsKey] == ResultsJson(results)
  {
    s := storage;
    if |youtubeUrl| > 0 { s := s[UrlKey := Text(youtubeUrl)]; }
    if |startTime| > 0 { s := s[StartTimeKey := Text(startTime)]; }
    if |endTime| > 0 { s := s[EndTimeKey := Text(endTime)]; }
    if |videoTitle| > 0 { s := s[TitleKey := Text(videoTitle)]; }
    if |TextOf(clipRequestId)| > 0 { s := s[RequestIdKey := Text(TextOf(clipRequestId))]; }
    if |TextOf(clipStatus)| > 0 { s := s[StatusKey := Text(TextOf(clipStatus))]; }
    s := s[ResultsKey := ResultsJson(results)];
  }

  // ---------------------------------------------------------------------------------------
  // Events from outside

  /** What a status request can come back with: the job's status, its clips (`null` or not an
      array written `None`) and its error message; or an exception. */
  datatype PollReply =
    | PollOk(status: string, clips: Option<seq<Clip>>, errorMessage: Option<string>)
    | PollException

  /** The payload of `createClipRequest`. */
  datatype CreateRequest = CreateRequest(youtubeUrl: string, startTime: string, endTime: string)

  /** The state handed to the speed-edit page on navigation. */
  datatype EditSpeedState = EditSpeedState(videoUrl: string, resolution: string, clipId: string)

  /** `handleEditSpeed`'s guard: navigate only with both a URL and a clip id, carrying them and
      the resolution unchanged. */
  function EditSpeedNavigation(url: Option<string>, resolution: string, clipId: Option<string>)
    : (r: Option<EditSpeedState>)
    ensures r.Some? <==> Truthy(url) && Truthy(clipId)
    ensures r.Some? ==> r.value == EditSpeedState(url.value, resolution, clipId.value)
  {
    if !Truthy(url) || !Truthy(clipId) then None
    else Some(EditSpeedState(url.value, resolution, clipId.value))
  }

  // ---------------------------------------------------------------------------------------
  // The page

  /** The page's state. `polling` is the running interval's period, `None` when it is cleared;
      `storage` is the session storage the page reads and writes. */
  class Page {
    const navigatedUrl: string
    var youtubeUrl: string
    var startTime: string
    var endTime: string
    var videoTitle: string
    var errors: map<string, string>
    var isProcessing: bool
    var clipRequestId: Option<string>
    var clipStatus: Option<string>
    var results: Results
    var email: string
    var isEmailSending: bool
    var emailStatus: Option<string>
    var polling: Option<nat>
    var storage: map<Key, Stored>
    var navigation: Option<EditSpeedState>

    /** The initial render: the URL from navigation, default times, and the request id, status
        and results read back from session storage. */
    constructor (storage: map<Key, Stored>, navigatedUrl: string)
      ensures this.navigatedUrl == navigatedUrl && this.storage == storage
      ensures youtubeUrl == navigatedUrl && startTime == DefaultTime && endTime == DefaultTime
      ensures videoTitle == "" && errors == map[] && !isProcessing
      ensures clipRequestId == TextAt(storage, RequestIdKey) && clipStatus == TextAt(storage, StatusKey)
      ensures results == if ResultsKey in storage && storage[ResultsKey].ResultsJson?
                         then storage[ResultsKey].results else EmptyResults
      ensures email == "" && !isEmailSending && emailStatus == None && polling == None && navigation == None
    {
      this.navigatedUrl := navigatedUrl;
      this.storage := storage;
      youtubeUrl := navigatedUrl;
      startTime := DefaultTime;
      endTime := DefaultTime;
      videoTitle := "";
      errors := map[];
      isProcessing := false;
      clipRequestId := TextAt(storage, RequestIdKey);
      clipStatus := TextAt(storage, StatusKey);
      results := if ResultsKey in storage && storage[ResultsKey].ResultsJson?
                 then storage[ResultsKey].results else EmptyResults;
      email := "";
      isEmailSending := false;
      emailStatus := None;
      polling := None;
      navigation := None;
    }

    /** The persistence effect. */
    method Persist()
      modifies this`storage
      ensures Persisted(old(storage), storage, youtubeUrl, startTime, endTime, videoTitle,
                        clipRequestId, clipStatus, results)
    {
      storage := PersistedStorage(storage, youtubeUrl, startTime, endTime, videoTitle,
                                  clipRequestId, clipStatus, results);
    }

    /** The mount-only effect that restores the URL (unless navigation brought one), the two
        times and the title from session storage. */
    method LoadStaticInfo()
      modifies this`youtubeUrl, this`startTime, this`endTime, this`videoTitle
      ensures youtubeUrl == if Truthy(TextAt(storage, UrlKey)) && navigatedUrl == ""
                            then TextAt(storage, UrlKey).value else old(youtubeUrl)
      ensures startTime == if Truthy(TextAt(storage, StartTimeKey))
                           then TextAt(storage, StartTimeKey).value else old(startTime)
      ensures endTime == if Truthy(TextAt(storage, EndTimeKey))
                         then TextAt(storage, EndTimeKey).value else old(endTime)
      ensures videoTitle == if Truthy(TextAt(storage, TitleKey))
                            then TextAt(storage, TitleKey).value else old(videoTitle)
    {
      var savedUrl := TextAt(storage, UrlKey);
      var savedStart := TextAt(storage, StartTimeKey);
      var savedEnd := TextAt(storage, EndTimeKey);
      var savedTitle := TextAt(storage, TitleKey);
      if Truthy(savedUrl) && navigatedUrl == "" { youtubeUrl := savedUrl.value; }
      if Truthy(savedStart) { startTime := savedStart.value; }
      if Truthy(savedEnd) { endTime := savedEnd.value; }
      if Truthy(savedTitle) { videoTitle := savedTitle.value; }
    }

    /** The mount as the effects are declared: persistence first, then the restore. The first
        persistence writes the default times over the saved ones before they are read. */
    method MountAsWritten()
      modifies this`storage, this`youtubeUrl, this`startTime, this`endTime, this`videoTitle
      ensures Persisted(old(storage), storage, old(youtubeUrl), old(startTime), old(endTime), old(videoTitle),
                        clipRequestId, clipStatus, results)
      ensures old(startTime) != "" ==> startTime == old(startTime)
      ensures old(endTime) != "" ==> endTime == old(endTime)
      ensures youtubeUrl == if Truthy(TextAt(storage, UrlKey)) && navigatedUrl == ""
                            then TextAt(storage, UrlKey).value else old(youtubeUrl)
      ensures videoTitle == if Truthy(TextAt(storage, TitleKey))
                            then TextAt(storage, TitleKey).value else old(videoTitle)
    {
      Persist();
      LoadStaticInfo();
    }

    /** The mount with the restore run first, so that the saved times survive. */
    method Mount()
      modifies this`storage, this`youtubeUrl, this`startTime, this`endTime, this`videoTitle
      ensures Truthy(TextAt(old(storage), StartTimeKey)) ==> startTime == TextAt(old(storage), StartTimeKey).value
      ensures Truthy(TextAt(old(storage), EndTimeKey)) ==> endTime == TextAt(old(storage), EndTimeKey).value
      ensures youtubeUrl == if Truthy(TextAt(old(storage), UrlKey)) && navigatedUrl == ""
                            then TextAt(old(storage), UrlKey).value else old(youtubeUrl)
      ensures videoTitle == if Truthy(TextAt(old(storage), TitleKey))
                            then TextAt(old(storage), TitleKey).value else old(videoTitle)
      ensures Persisted(old(storage), storage, youtubeUrl, startTime, endTime, videoTitle,
                        clipRequestId, clipStatus, results)
    {
      LoadStaticInfo();
      Persist();
    }

    /** The URL input's `onChange`. */
    method SetYoutubeUrl(value: string)
      modifies this`youtubeUrl
      ensures youtubeUrl == value
    {
      youtubeUrl := value;
    }

    /** A picker column reports a number: the time becomes `updateTime`'s output. */
    method PickTime(isStart: bool, u: RollingTimePicker.Unit, v: int)
      modifies this`startTime, this`endTime
      ensures isStart ==> startTime == RollingTimePicker.UpdateTime(old(startTime), u, v) && endTime == old(endTime)
      ensures !isStart ==> endTime == RollingTimePicker.UpdateTime(old(endTime), u, v) && startTime == old(startTime)
    {
      if isStart {
        startTime := RollingTimePicker.UpdateTime(startTime, u, v);
      } else {
        endTime := RollingTimePicker.UpdateTime(endTime, u, v);
      }
    }

    /** `handleGenerateClip` up to the awaited create call. A missing URL or a bad range is
        reported alone and nothing else changes; otherwise the job starts as `pending` with empty
        slots, and the request to send is returned. */
    method HandleGenerateClip() returns (request: Option<CreateRequest>)
      modifies this`errors, this`isProcessing, this`clipStatus, this`results
      ensures youtubeUrl == "" ==>
        request == None && errors == map["youtubeUrl" := RequiredMessage] &&
        isProcessing == old(isProcessing) && clipStatus == old(clipStatus) && results == old(results)
      ensures youtubeUrl != "" && ValidateLogic(startTime, endTime) != "" ==>
        request == None && errors == map["logic" := ValidateLogic(startTime, endTime)] &&
        isProcessing == old(isProcessing) && clipStatus == old(clipStatus) && results == old(results)
      ensures youtubeUrl != "" && ValidateLogic(startTime, endTime) == "" ==>
        request == Some(CreateRequest(youtubeUrl, startTime, endTime)) && errors == map[] &&
        isProcessing && clipStatus == Some("pending") && results == EmptyResults
    {
      errors := map[];
      if youtubeUrl == "" {
        errors := map["youtubeUrl" := RequiredMessage];
        return None;
      }
      var logicErr := ValidateLogic(startTime, endTime);
      if logicErr != "" {
        errors := map["logic" := logicErr];
        return None;
      }
      isProcessing := true;
      clipStatus := Some("pending");
      results := EmptyResults;
      request := Some(CreateRequest(youtubeUrl, startTime, endTime));
    }

    /** The create call returns the job's id and status. */
    method CreateSucceeded(id: string, status: string)
      modifies this`clipRequestId, this`clipStatus
      ensures clipRequestId == Some(id) && clipStatus == Some(status)
    {
      clipRequestId := Some(id);
      clipStatus := Some(status);
    }

    /** The create call throws: processing stops and the message replaces the errors; the
        status stays as the submit set it. */
    method CreateFailed(message: string)
      modifies this`isProcessing, this`errors
      ensures !isProcessing && errors == map["api" := message]
    {
      isProcessing := false;
      errors := map["api" := message];
    }

    /** The polling effect, run whenever the id, the status or a time changes: the previous
        interval is cleared, and a new one is started (with the state marked as processing) only
        for a job that has an id and is neither completed nor failed. */
    method RunPollingEffect()
      modifies this`polling, this`isProcessing
      ensures var active := Truthy(clipRequestId) && clipStatus != Some("completed") && clipStatus != Some("failed");
        (active ==> isProcessing && polling == Some(IntervalForDuration(Duration(startTime, endTime)))) &&
        (!active ==> isProcessing == old(isProcessing) && polling == None)
    {
      polling := None;
      if Truthy(clipRequestId) && clipStatus != Some("completed") && clipStatus != Some("failed") {
        isProcessing := true;
        polling := Some(IntervalForDuration(Duration(startTime, endTime)));
      }
    }

    /** `checkStatus` receives a reply. The status is taken over; `completed` rebuilds the
        results, `failed` adds the API error to the others; both stop processing and polling.
        An exception changes nothing. */
    method CheckStatusReply(reply: PollReply)
      modifies this`clipStatus, this`results, this`isProcessing, this`polling, this`errors
      ensures reply.PollException? ==>
        clipStatus == old(clipStatus) && results == old(results) && isProcessing == old(isProcessing) &&
        polling == old(polling) && errors == old(errors)
      ensures reply.PollOk? ==> clipStatus == Some(reply.status)
      ensures reply.PollOk? && reply.status == "completed" ==>
        results == (if reply.clips.Some? then ResultsOf(reply.clips.value) else EmptyResults) &&
        !isProcessing && polling == None && errors == old(errors)
      ensures reply.PollOk? && reply.status == "failed" ==>
        results == old(results) && !isProcessing && polling == None &&
        errors == old(errors)["api" := if Truthy(reply.errorMessage) then reply.errorMessage.value
                                       else ProcessingFailedMessage]
      ensures reply.PollOk? && reply.status != "completed" && reply.status != "failed" ==>
        results == old(results) && isProcessing == old(isProcessing) && polling == old(polling) &&
        errors == old(errors)
    {
      match reply
      case PollException =>
      case PollOk(status, clips, errorMessage) =>
        clipStatus := Some(status);
        if status == "completed" {
          results := BuildResults(clips);
          isProcessing := false;
          polling := None;
        } else if status == "failed" {
          isProcessing := false;
          polling := None;
          errors := errors["api" := if Truthy(errorMessage) then errorMessage.value else ProcessingFailedMessage];
        }
    }

    /** The e-mail input's `onChange`. */
    method SetEmail(value: string)
      modifies this`email
      ensures email == value
    {
      email := value;
    }

    /** `handleSendEmail` up to the awaited call: without an address and a request id nothing
        happens; otherwise sending starts and the id and address to send are returned. */
    method HandleSendEmail() returns (request: Option<(string, string)>)
      modifies this`isEmailSending, this`emailStatus
      ensures email == "" || !Truthy(clipRequestId) ==>
        request == None && isEmailSending == old(isEmailSending) && emailStatus == old(emailStatus)
      ensures email != "" && Truthy(clipRequestId) ==>
        request == Some((clipRequestId.value, email)) && isEmailSending && emailStatus == None
    {
      if email == "" || !Truthy(clipRequestId) {
        return None;
      }
      isEmailSending := true;
      emailStatus := None;
      request := Some((clipRequestId.value, email));
    }

    /** The e-mail call settles: success clears the address, either way sending ends. */
    method SendEmailResolved(ok: bool)
      modifies this`emailStatus, this`email, this`isEmailSending
      ensures ok ==> emailStatus == Some("success") && email == ""
      ensures !ok ==> emailStatus == Some("error") && email == old(email)
      ensures !isEmailSending
    {
      if ok {
        emailStatus := Some("success");
        email := "";
      } else {
        emailStatus := Some("error");
      }
      isEmailSending := false;
    }

    /** `handleEditSpeed`: navigate to the speed editor with the slot's URL and id, or do
        nothing when either is missing. */
    method HandleEditSpeed(url: Option<string>, resolution: string, clipId: Option<string>)
      modifies this`navigation
      ensures navigation == if EditSpeedNavigation(url, resolution, clipId).Some?
                            then EditSpeedNavigation(url, resolution, clipId) else old(navigation)
    {
      var target := EditSpeedNavigation(url, resolution, clipId);
      if target.Some? {
        navigation := target;
      }
    }
  }

  // ---------------------------------------------------------------------------------------
  // The mount order

  /** A page opened with a saved start time, mounted as written: the start time it shows is
      the default, not the saved one. */
  method SavedStartTimeIsLost(saved: string) returns (start: string)
    requires saved != "" && saved != DefaultTime
    ensures start == DefaultTime && start != saved
  {
    var page := new Page(map[StartTimeKey := Text(saved)], "");
    page.MountAsWritten();
    start := page.startTime;
  }

  /** The same page mounted with the restore first shows the saved start time. */
  method SavedStartTimeIsKept(saved: string) returns (start: string)
    requires saved != ""
    ensures start == saved
  {
    var page := new Page(map[StartTimeKey := Text(saved)], "");
    page.Mount();
    start := page.startTime;
  }
}
