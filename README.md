# YouTube clip front end — a verified model of its logic

The application is a React front end for a YouTube clipping service. A landing page takes a
YouTube link. The clip pages let the user pick a start and an end time, create a clip job and
poll it until the 720p and 480p files are ready. A speed-edit page takes such a clip, or a
local upload, sends it off for a speed change, polls that job and can cancel it. Underneath
the markup sit small pieces of sequential logic. This project models them in Dafny and proves
what they promise:

- the strict `HH:MM:SS` validator and the conversion of a time string to seconds;
- the range check (end after start, at most ten minutes) on both clip pages;
- the keystroke auto-formatter, the errors-map update of the clip editor, and the `v=`
  video-id reader;
- the rolling time picker: parsing, replacing one column, the zero-padded serialiser, and the
  scroll-offset arithmetic with its "scrolling" flag;
- both landing pages' URL matchers and their submit rules;
- the two job-tracking state machines (clip generation, speed edit), with their
  polling-interval rules, result mapping, session-storage mirror, upload size gate and
  `formatTime`.

Modules follow the source files: `ClipEditorV2`, `GetClips`, `EditVideoSpeed`,
`RollingTimePicker`, `LandingPage` and `LandingPageV2`. `JsText` holds the JavaScript
primitives they share: `trim`, `split`/`join`, `Number`, `parseInt`, `toString` and
`padStart(2, '0')`, and the white-space and line-terminator classes of regular expressions.

Pure helpers are functions with contracts. Each page is a `class` whose fields are its React
state, refs and session-storage mirror. Each handler is a method that changes those fields.
Asynchronous steps become separate event methods:

- a create call that succeeds or fails;
- a poll tick and its reply;
- a cancel that succeeds or fails;
- the delayed reset firing;
- the scrolling flag's timer firing.

A test of what happens when those events interleave is a method that drives the page through
them (`EditVideoSpeed.LateReplyOverridesCancel`, `GetClips.SavedStartTimeIsLost`).

Session storage is a `map` from a datatype of the page's keys. So is the clip editor's errors object (`ErrorKey`: `startTime`, `endTime`, `logic`). The clip page stores its results
as a value (`ResultsJson`) rather than as JSON text. `Number` is modelled on strings of decimal digits, the
only form the pages give it. `parseInt` skips leading white space, reads an optional sign, and
then reads decimal digits or `0x` hexadecimal. `NaN` is `None`.

The code, not a description of intended behaviour, decides the model:

- no client-side timeout is applied to either job;
- a poll reply is not checked against the current request id;
- clip results are rebuilt from scratch on `completed` and never merged;
- after a speed edit completes, session storage still holds `'pending'` and the request id,
  because nothing updates or removes them on that path;
- a restored request id does not restart polling on the speed page;
- on the speed page the interval is cleared only after the download a `completed` reply starts, and it is whichever interval the ref names then. During the download the interval goes on polling, and each further `completed` reply starts another download. A job started meanwhile has its own interval cleared instead, and the old one never stops.

`GetClips.jsx` repeats `get_video_id` and `time_to_seconds` character for character from
`ClipEditorV2.jsx` (lines 39-49). The clip page's `time_to_seconds` is the editor's, modelled by
`ClipEditorV2.TimeToSeconds`. Its `get_video_id` is the editor's too, modelled by
`ClipEditorV2.GetVideoId`; the clip-page model has no use for it, because on that page the id
feeds only the title fetch and the embedded player.

## Model

| member | source | states |
|---|---|---|
| JsText.BlankIffAllSpace | src/pages/ClipEditorV2.jsx:14 | `!s.trim()` holds exactly when every character is white space |
| JsText.Split | src/pages/ClipEditorV2.jsx:21 | `split(':')` gives parts without separators that join back into the input |
| JsText.NumberOf | src/pages/ClipEditorV2.jsx:21 | `Number` of a part is a non-negative value exactly when the part is all digits (the empty part included), `NaN` otherwise |
| JsText.ParseInt | src/components/RollingTimePicker.jsx:131 | `parseInt` of text without any digit is `NaN` |
| JsText.ParseIntOfDigits | src/components/RollingTimePicker.jsx:131 | `parseInt` of a non-empty digit string is the number it denotes |
| JsText.ParseIntPad2 | src/components/RollingTimePicker.jsx:131-146 | `parseInt` reads back every integer `toString().padStart(2, '0')` writes |
| JsText.OrZero | src/components/RollingTimePicker.jsx:131 | the fallback to 0 after `parseInt` turns `NaN` into 0 and keeps any number |
| ClipEditorV2.MatchesTimePattern | src/pages/ClipEditorV2.jsx:15 | the time regex, one character class per position; `PatternMeansClockRanges` proves it means `dd:dd:dd` with hours 0-23 and minutes and seconds 0-59 |
| ClipEditorV2.ValidateTimeFormat | src/pages/ClipEditorV2.jsx:13-18 | `''` exactly when the pattern matches; a blank time gets the empty-time message before the format check; otherwise `'Format: HH:MM:SS'` |
| ClipEditorV2.PatternMeansClockRanges | src/pages/ClipEditorV2.jsx:15 | the pattern matches exactly the 8-character `dd:dd:dd` strings with hours 0-23, minutes and seconds 0-59 |
| ClipEditorV2.TimeToSeconds | src/pages/ClipEditorV2.jsx:20-23 | split on `:`, `Number` on the first three parts, `h*3600 + m*60 + s`; a missing or non-numeric part gives `NaN`; a result is never negative, and its value on well-formed times is stated by the two lemmas below |
| ClipEditorV2.TimeToSecondsOfClockShape | src/pages/ClipEditorV2.jsx:20-23 | on a `dd:dd:dd` string, `time_to_seconds` is `h*3600 + m*60 + s` |
| ClipEditorV2.TimeToSecondsOfValidTime | src/pages/ClipEditorV2.jsx:20-23 | on a valid time the result is `h*3600 + m*60 + s`, within 0..86399 |
| ClipEditorV2.ValidateLogic | src/pages/ClipEditorV2.jsx:25-36 | empty or malformed times give `''`; for valid times, the after-start message exactly when end ≤ start, the duration message exactly when end − start > 600, `''` exactly when the difference is 1..600 |
| ClipEditorV2.Digits | src/pages/ClipEditorV2.jsx:39 | `replace(/\D/g, '')` keeps only digits and never lengthens |
| ClipEditorV2.DigitsAppend | src/pages/ClipEditorV2.jsx:39 | removing non-digits distributes over concatenation |
| ClipEditorV2.FormatTimeInput | src/pages/ClipEditorV2.jsx:38-43 | output of at most 8 digits and colons, its digits are the input's first six, colons exactly at positions 2 and 5 and each followed by a digit |
| ClipEditorV2.ThreeGroups | src/pages/ClipEditorV2.jsx:40 | five or six digits become `dd:dd:d[d]`, colons at 2 and 5 only, with the same digits |
| ClipEditorV2.TwoGroups | src/pages/ClipEditorV2.jsx:41 | three or four digits become `dd:d[d]`, the colon at 2 only, with the same digits |
| ClipEditorV2.FormatTimeInputIdempotent | src/pages/ClipEditorV2.jsx:38-43 | formatting a formatted value returns it unchanged |
| ClipEditorV2.FormatTimeInputKeepsValidTime | src/pages/ClipEditorV2.jsx:38-43 | a valid `HH:MM:SS` time is left as it is |
| ClipEditorV2.UpdatedErrors | src/pages/ClipEditorV2.jsx:49-64 | the map is unchanged unless the value has length 8; then only the field's key and, when the other time also has length 8, `logic` are set or deleted; every other key is kept |
| ClipEditorV2.FirstVMarker | src/pages/ClipEditorV2.jsx:68-69 | the first position of `?v=` or `&v=` at or after a start, or none |
| ClipEditorV2.ValueText | src/pages/ClipEditorV2.jsx:68 | `[^&#]*`: the longest prefix without `&` or `#` |
| ClipEditorV2.GetVideoId | src/pages/ClipEditorV2.jsx:67-71 | null exactly when no `?v=`/`&v=` occurs; otherwise the text after the first one up to the next `&`, `#` or the end |
| ClipEditorV2.Form.constructor | src/pages/ClipEditorV2.jsx:7-11 | the URL comes from navigation, both times are empty, no errors |
| ClipEditorV2.Form.SetYoutubeUrl | src/pages/ClipEditorV2.jsx:103 | the input's text becomes the URL |
| ClipEditorV2.Form.HandleTimeChange | src/pages/ClipEditorV2.jsx:45-65 | the edited time becomes the formatted value, the other time is kept, and the errors map changes as `UpdatedErrors` states |
| ClipEditorV2.Form.VideoId | src/pages/ClipEditorV2.jsx:73 | the page's video id is null exactly when its URL has no `v=` marker |
| RollingTimePicker.TimeParts | src/components/RollingTimePicker.jsx:130 | the list of parts is never empty, so the hour part always exists |
| RollingTimePicker.Parse | src/components/RollingTimePicker.jsx:130-133 | the parts `value ? split(':') : ['00','00','00']`; hours are `parseInt` of the first part, minutes and seconds `parseInt` of their part or `'0'`, each falling back to 0 on `NaN`; stated by `ParseMissingParts`, `PartWithoutDigitsIsZero` and `ParseSerialise` |
| RollingTimePicker.ParseMissingParts | src/components/RollingTimePicker.jsx:130-133 | an empty value parses to (0,0,0); a missing minute or second part parses to 0 |
| RollingTimePicker.PartWithoutDigitsIsZero | src/components/RollingTimePicker.jsx:131-133 | a part without digits reads as 0 |
| RollingTimePicker.Range | src/components/RollingTimePicker.jsx:136-138 | `Array.from({length: n}, (_, i) => i)` is 0..n−1 in order |
| RollingTimePicker.RangesAreAscending | src/components/RollingTimePicker.jsx:136-138 | hours are 0..23 and minutes and seconds 0..59, strictly ascending |
| RollingTimePicker.Replace | src/components/RollingTimePicker.jsx:141-144 | only the selected column changes |
| RollingTimePicker.Serialise | src/components/RollingTimePicker.jsx:146 | the three numbers each through `toString().padStart(2, '0')`, joined by colons; `SplitSerialise`, `ParseSerialise` and `SerialiseInRange` state what it gives |
| RollingTimePicker.UpdateTime | src/components/RollingTimePicker.jsx:140-146 | the parsed clock with the selected column replaced, serialised; `UpdateTimeRoundTrip` states that reading it back gives exactly that clock |
| RollingTimePicker.NoColonInPad2 | src/components/RollingTimePicker.jsx:146 | a zero-padded number has at least two characters and no colon |
| RollingTimePicker.SplitSerialise | src/components/RollingTimePicker.jsx:146 | the serialised value splits back into its three padded parts |
| RollingTimePicker.ParseSerialise | src/components/RollingTimePicker.jsx:130-146 | parsing a serialised clock gives the same clock |
| RollingTimePicker.UpdateTimeRoundTrip | src/components/RollingTimePicker.jsx:140-146 | parsing the output of `updateTime` gives the old parsed clock with only the selected column replaced |
| RollingTimePicker.SerialiseInRange | src/components/RollingTimePicker.jsx:146 | for in-range numbers the output has length 8, colons at 2 and 5, and the three padded parts |
| RollingTimePicker.IndexOf | src/components/RollingTimePicker.jsx:22 | `indexOf`: −1 exactly when absent, otherwise the first position holding the value |
| RollingTimePicker.ScrollIndex | src/components/RollingTimePicker.jsx:12 | `Math.round(scrollTop / itemHeight)`: the index lies within half an item of the offset, a half rounding up |
| RollingTimePicker.ScrollIndexIsNearest | src/components/RollingTimePicker.jsx:12 | `Math.round(scrollTop / 36)` is the index whose item centre is within half an item |
| RollingTimePicker.ScrollIndexOfItemOffset | src/components/RollingTimePicker.jsx:12-43 | the offset `index * 36` a click or the initial effect sets maps back to the same index |
| RollingTimePicker.ParseIntOfIntToString | src/components/RollingTimePicker.jsx:41 | `parseInt(value)` of a number's text gives the number |
| RollingTimePicker.Column.constructor | src/components/RollingTimePicker.jsx:3-6 | a column starts at offset 0 with the flag clear |
| RollingTimePicker.Column.HandleScroll | src/components/RollingTimePicker.jsx:9-17 | nothing while the flag is set; otherwise `onChange` exactly when the rounded index is in range and its item differs from the value, with that item |
| RollingTimePicker.Column.HandleItemClick | src/components/RollingTimePicker.jsx:20-36 | a number outside the range changes nothing; otherwise the flag is set, the offset becomes index·36, `onChange(num)` is called and a flag reset is pending |
| RollingTimePicker.Column.FlagResetFires | src/components/RollingTimePicker.jsx:31-33 | the timer clears the flag |
| RollingTimePicker.Column.SetValue | src/components/RollingTimePicker.jsx:3 | the parent's new value reaches the column |
| RollingTimePicker.Column.InitialScroll | src/components/RollingTimePicker.jsx:39-46 | the offset becomes index·36 when the value is in range, and is left alone otherwise |
| RollingTimePicker.ClickSettles | src/components/RollingTimePicker.jsx:20-36 | a click reports its number once, and the scroll event at the new offset reports nothing |
| GetClips.ValidateLogic | src/pages/GetClips.jsx:51-58 | one of three messages; a time `Number` cannot read gives `''`; for valid times the end-after-start message exactly when end ≤ start, the duration message exactly when end − start > 600, `''` otherwise |
| GetClips.ValidateLogicAgreesWithEditor | src/pages/GetClips.jsx:51-58 | on valid times both pages' range checks accept the same pairs and reject the same reversed ones |
| GetClips.PickerTimeIsValid | src/pages/GetClips.jsx:88 | what the picker writes for in-range numbers is a valid `HH:MM:SS` time, so the format check never fires on this page |
| GetClips.PickerTimeSeconds | src/pages/GetClips.jsx:88 | `time_to_seconds` of what the picker writes for in-range numbers is `h*3600 + m*60 + s` of those numbers |
| GetClips.Duration | src/pages/GetClips.jsx:151 | `time_to_seconds(endTime) - time_to_seconds(startTime)`, `NaN` when either side is; `IntervalForDuration` gives the interval for it |
| GetClips.IntervalForDuration | src/pages/GetClips.jsx:150-157 | one of 2000, 5000, 7000 ms; a `NaN` duration gets the 2000 ms default |
| GetClips.IntervalIsPiecewiseAndMonotone | src/pages/GetClips.jsx:150-157 | 2000 below 60 s, 5000 for 60-179 s, 7000 from 180 s, and non-decreasing in the duration |
| GetClips.SizeLabel | src/pages/GetClips.jsx:125 | null exactly for a missing or zero size, otherwise the size's own text followed by `MB`, so `12.5` gives `12.5MB` |
| GetClips.SizeLabelOfWholeNumber | src/pages/GetClips.jsx:125 | for a whole number of megabytes the label is its decimal digits, worth the size, followed by `MB` |
| GetClips.ResultsOf | src/pages/GetClips.jsx:118-132 | the two slots the clips describe, each the last clip of its resolution; `LastSlotIsLastMatch` and `OtherResolutionIsIgnored` state this, and `BuildResults` computes it |
| GetClips.LastSlotIsLastMatch | src/pages/GetClips.jsx:123-131 | a slot holds the last clip of its resolution, or stays all-null when there is none |
| GetClips.OtherResolutionIsIgnored | src/pages/GetClips.jsx:126-130 | a clip of any other resolution changes neither slot |
| GetClips.BuildResults | src/pages/GetClips.jsx:118-132 | the `forEach` loop builds the results from scratch: all-null without clips, otherwise each slot from the last clip of its resolution |
| GetClips.TextAt | src/pages/GetClips.jsx:20-21 | `getItem` gives text exactly when a text value is stored under the key |
| GetClips.PersistedStorage | src/pages/GetClips.jsx:61-69 | each text key is written exactly when its value is non-empty, `results` is always written, no key is removed |
| GetClips.EditSpeedNavigation | src/pages/GetClips.jsx:201-210 | navigation happens exactly when both a URL and a clip id are present, and carries them with the resolution |
| GetClips.Page.constructor | src/pages/GetClips.jsx:11-34 | the restored id, status and results come from storage; both times start at `00:00:00` |
| GetClips.Page.Persist | src/pages/GetClips.jsx:61-69 | the storage mirror afterwards is what `PersistedStorage` states |
| GetClips.Page.LoadStaticInfo | src/pages/GetClips.jsx:72-82 | each saved non-empty value is restored, the URL only when none came from navigation |
| GetClips.Page.MountAsWritten | src/pages/GetClips.jsx:61-82 | the effects in the order written: storage first receives the page's values with their `00:00:00` defaults, overwriting the saved times; the times on the page are then kept, and the URL (unless navigation brought one) and the title come back from that storage |
| GetClips.Page.Mount | src/pages/GetClips.jsx:61-82 | restoring before persisting: the saved times and title come back, the saved URL unless navigation brought one, and storage then mirrors the page |
| GetClips.Page.SetYoutubeUrl | src/pages/GetClips.jsx:246 | the input's text becomes the URL |
| GetClips.Page.PickTime | src/pages/GetClips.jsx:13-14 | a picker change replaces the edited time with `updateTime`'s output, the other time is kept |
| GetClips.Page.HandleGenerateClip | src/pages/GetClips.jsx:85-96 | an empty URL sets errors to exactly `{youtubeUrl:'Required'}`, a range problem to exactly `{logic: msg}`, with nothing else changed and no request; otherwise processing, status `'pending'`, empty results and the create request |
| GetClips.Page.CreateSucceeded | src/pages/GetClips.jsx:103-104 | the reply's id and status are taken |
| GetClips.Page.CreateFailed | src/pages/GetClips.jsx:105-108 | processing stops and errors become `{api: message}`; the status stays `'pending'` |
| GetClips.Page.RunPollingEffect | src/pages/GetClips.jsx:144-161 | polling runs, at the duration's interval, exactly when an id exists and the status is neither `completed` nor `failed` |
| GetClips.Page.CheckStatusReply | src/pages/GetClips.jsx:113-142 | an exception changes nothing; `completed` rebuilds the results, stops processing and polling; `failed` stops both and sets `errors.api` to the message or `'Processing failed'`, keeping other keys; any other status only sets the status |
| GetClips.Page.SetEmail | src/pages/GetClips.jsx:405 | the input's text becomes the email |
| GetClips.Page.HandleSendEmail | src/pages/GetClips.jsx:185-188 | nothing without an email and an id; otherwise the send request, sending set, status cleared |
| GetClips.Page.SendEmailResolved | src/pages/GetClips.jsx:189-198 | success sets `'success'` and clears the email, failure sets `'error'` and keeps it; sending ends either way |
| GetClips.Page.HandleEditSpeed | src/pages/GetClips.jsx:201-210 | navigates as `EditSpeedNavigation` says, and otherwise does nothing |
| GetClips.SavedStartTimeIsLost | src/pages/GetClips.jsx:61-82 | a saved start time other than the default comes back as `00:00:00` when the effects run as written |
| GetClips.SavedStartTimeIsKept | src/pages/GetClips.jsx:72-82 | with the restore first, the saved start time comes back |
| EditVideoSpeed.RestoredStatus | src/pages/EditVideoSpeed.jsx:28-31 | null when the saved status is `'cancelled'`, the saved value otherwise, never `'cancelled'` |
| EditVideoSpeed.RestoredStatusIdempotent | src/pages/EditVideoSpeed.jsx:28-31 | restoring twice is restoring once |
| EditVideoSpeed.GetPollingInterval | src/pages/EditVideoSpeed.jsx:66-71 | one of 1500, 2500, 4000, 7000; 1500 below 1 MB |
| EditVideoSpeed.OriginalSize | src/pages/EditVideoSpeed.jsx:92 | the size falling back to 0: zero exactly when the size is missing or 0, and otherwise the size itself |
| EditVideoSpeed.PollingIntervalIsPiecewiseAndMonotone | src/pages/EditVideoSpeed.jsx:66-71 | 1500 for a missing size or one below 1, 2500 below 5, 4000 below 15, 7000 otherwise, non-decreasing in the size |
| EditVideoSpeed.FormatTime | src/pages/EditVideoSpeed.jsx:207-213 | the text ends in `:ss`, two digits worth the seconds modulo 60 |
| EditVideoSpeed.ClockLayoutLastField | src/pages/EditVideoSpeed.jsx:211-212 | either template ends in a colon and the two-digit seconds, worth the seconds |
| EditVideoSpeed.ClockLayoutRoundTrip | src/pages/EditVideoSpeed.jsx:211 | with hours, `time_to_seconds` reads `h:mm:ss` back as h·3600 + m·60 + s |
| EditVideoSpeed.ClockLayoutFields | src/pages/EditVideoSpeed.jsx:211 | with hours, the fields are the unpadded hours and the minutes and seconds padded to two digits, worth `m` and `s` |
| EditVideoSpeed.TimeToSecondsOfFields | src/pages/ClipEditorV2.jsx:20-23 | a string that splits into three parts whose numbers are `h`, `m` and `s` converts to `h*3600 + m*60 + s` |
| EditVideoSpeed.ClockLayoutMinutes | src/pages/EditVideoSpeed.jsx:212 | `m:ss` splits into the minutes' digits and two digits worth the seconds |
| EditVideoSpeed.ClockDecomposition | src/pages/EditVideoSpeed.jsx:208-210 | hours, minutes and seconds recompose the input, with minutes below 60 |
| EditVideoSpeed.FormatTimeRoundTripHours | src/pages/EditVideoSpeed.jsx:207-213 | from one hour on, `time_to_seconds` reads the text back as the same number of seconds |
| EditVideoSpeed.FormatTimeRoundTripMinutes | src/pages/EditVideoSpeed.jsx:207-213 | below one hour the text is two digit fields, the second of two digits, worth minutes·60 + seconds = the input |
| EditVideoSpeed.FormatTimeFieldsWithHours | src/pages/EditVideoSpeed.jsx:207-213 | from one hour on the fields are exactly `toString` of the hours, the minutes within the hour padded to two digits and the seconds padded to two digits |
| EditVideoSpeed.FormatTimeFieldsBelowHour | src/pages/EditVideoSpeed.jsx:207-213 | below one hour the fields are exactly the whole minutes, unpadded, and the seconds padded to two digits |
| EditVideoSpeed.FormatTimeShowsHoursFromOneHour | src/pages/EditVideoSpeed.jsx:211-212 | three fields exactly from one hour on, two below it |
| EditVideoSpeed.Stop | src/pages/EditVideoSpeed.jsx:100 | `clearInterval(pollingRef.current)` stops exactly the interval the ref names |
| EditVideoSpeed.Page.constructor | src/pages/EditVideoSpeed.jsx:13-33 | the status is the restored one, the id the saved one; no file, speed 1.0, nothing running |
| EditVideoSpeed.Page.HandleFileChange | src/pages/EditVideoSpeed.jsx:39-55 | no file or one over 50·1024·1024 bytes clears the input and changes nothing else; a file up to that size becomes the source, the remote URL null, speed 1.0, status null |
| EditVideoSpeed.Page.HandleSpeedChange | src/pages/EditVideoSpeed.jsx:58-59 | the new speed is taken |
| EditVideoSpeed.Page.ApplyEnabled | src/pages/EditVideoSpeed.jsx:337 | the Apply button is enabled exactly when the page is neither processing nor cancelling and the status is not `'cancelled'`; `HandleApply` uses it to show that the captured status is never `'cancelled'` |
| EditVideoSpeed.Page.HandleApply | src/pages/EditVideoSpeed.jsx:74-86 | nothing without a source; otherwise processing, status `'pending'` and the request; with the button enabled the captured status is never `'cancelled'` |
| EditVideoSpeed.Page.ApplySucceeded | src/pages/EditVideoSpeed.jsx:88-149 | the id goes into the ref and storage, storage status becomes `'pending'`, and a new interval at the size's rate is started and named by the ref |
| EditVideoSpeed.Page.ApplyFailed | src/pages/EditVideoSpeed.jsx:151-157 | processing stops, status null, both storage keys removed |
| EditVideoSpeed.Page.PollTick | src/pages/EditVideoSpeed.jsx:95-97 | a tick of a running interval puts one status request in flight |
| EditVideoSpeed.Page.PollReply | src/pages/EditVideoSpeed.jsx:96-144 | as written: with the captured status `'cancelled'` the ref's interval stops and nothing else changes; otherwise `completed` stops processing, sets the status and starts a download while every interval keeps running, and `failed` stops processing, sets the status and stops the ref's interval; anything else changes nothing |
| EditVideoSpeed.Page.PollReplyLiveGuard | src/pages/EditVideoSpeed.jsx:96-144 | the same reply with the guard on the live status: after a cancel, a reply stops the interval and the status stays `'cancelled'`; the other branches are those of `PollReply` |
| EditVideoSpeed.Page.DownloadSettled | src/pages/EditVideoSpeed.jsx:108-135 | when a download settles, the interval the ref names at that moment is cleared, and nothing else changes |
| EditVideoSpeed.Page.HandleCancel | src/pages/EditVideoSpeed.jsx:161-165 | nothing without an id; otherwise cancelling is set and the cancel request carries the id |
| EditVideoSpeed.Page.CancelSucceeded | src/pages/EditVideoSpeed.jsx:167-172 | the interval stops, status `'cancelled'` is set and stored, and a reset is pending |
| EditVideoSpeed.Page.CancelFailed | src/pages/EditVideoSpeed.jsx:180-184 | only the cancelling flag is reset; status, id and interval are unchanged |
| EditVideoSpeed.Page.ResetFires | src/pages/EditVideoSpeed.jsx:172-179 | status null, processing and cancelling false, id null, both storage keys removed |
| EditVideoSpeed.LateReplyOverridesCancel | src/pages/EditVideoSpeed.jsx:99 | a reply already in flight when a cancel succeeds turns the status from `'cancelled'` to `'completed'` |
| EditVideoSpeed.LateReplyIgnoredAfterCancel | src/pages/EditVideoSpeed.jsx:99 | with the live guard the same run keeps status `'cancelled'` |
| EditVideoSpeed.JobDownloading | src/pages/EditVideoSpeed.jsx:95-135 | after a `completed` reply the download is pending, the interval still runs, and the apply button is enabled again |
| EditVideoSpeed.DownloadKeepsPolling | src/pages/EditVideoSpeed.jsx:95-135 | during the download the interval sends another status request, and its `completed` reply starts a second download |
| EditVideoSpeed.DownloadClearsTheNewerJob | src/pages/EditVideoSpeed.jsx:88-135 | a job started during the download re-points the ref, so the settling download stops the new job's interval and the old one runs on |
| LandingPage.ValidateYoutubeUrl | src/pages/LandingPage.jsx:9-12 | the match the regex engine finds from the start, taking each optional group when it is present; the next three rows prove it equal to the pattern's meaning |
| LandingPage.ValidateImpliesPattern | src/pages/LandingPage.jsx:9-12 | every URL the matcher accepts starts with a scheme choice, a `www.` choice, a host and a `[\w-]` character |
| LandingPage.PatternImpliesValidate | src/pages/LandingPage.jsx:9-12 | every such start is accepted |
| LandingPage.ValidateMeansPatternMatches | src/pages/LandingPage.jsx:10 | the matcher accepts exactly the strings the start-anchored pattern describes |
| LandingPage.TrailingTextIsAccepted | src/pages/LandingPage.jsx:10 | anything may follow an accepted URL |
| LandingPage.EveryListedFormIsAccepted | src/pages/LandingPage.jsx:10 | every scheme, `www.` and host combination followed by a `[\w-]` character is accepted |
| LandingPage.SubmitOutcome | src/pages/LandingPage.jsx:14-30 | a blank URL gets the empty message, a non-matching one the invalid message (blankness first), any other navigates to `/clip-editor` with the URL exactly as typed |
| LandingPage.Form.constructor | src/pages/LandingPage.jsx:5-6 | an empty input and no error |
| LandingPage.Form.OnInput | src/pages/LandingPage.jsx:131-134 | the text is taken and the error cleared |
| LandingPage.Form.HandleSubmit | src/pages/LandingPage.jsx:14-30 | the error is set to the outcome's message, or cleared and the page navigates |
| LandingPageV2.FoldAll | src/pages/LandingPageV2.jsx:13 | the `i` flag's folding, character by character |
| LandingPageV2.ValidateYoutubeUrl | src/pages/LandingPageV2.jsx:13 | a match of the unanchored, case-insensitive pattern at some position; the rows below state which inputs match |
| LandingPageV2.ShortLinkAnywhere | src/pages/LandingPageV2.jsx:13 | `youtu.be/` and an 11-character id are accepted anywhere in the input |
| LandingPageV2.WordPathAnywhere | src/pages/LandingPageV2.jsx:13 | `youtube.com/` then `v/`, `e/`, `embed/`, `live/` or `shorts/` and an id are accepted anywhere |
| LandingPageV2.SegmentPathAnywhere | src/pages/LandingPageV2.jsx:13 | `youtube.com/`, a segment, `/`, anything on one line, `/` and an id are accepted anywhere |
| LandingPageV2.QueryAnywhere | src/pages/LandingPageV2.jsx:13 | `youtube.com/`, anything on one line ending in `?v=` or `&v=`, then an id, are accepted anywhere |
| LandingPageV2.AcceptedHasHostAndId | src/pages/LandingPageV2.jsx:13 | every accepted input holds one of the two hosts and, after it, 11 id characters |
| LandingPageV2.CaseInsensitive | src/pages/LandingPageV2.jsx:13 | inputs that differ only in ASCII letter case are accepted alike |
| LandingPageV2.LowerCaseFormIsAcceptedAlike | src/pages/LandingPageV2.jsx:13 | an input is accepted exactly when its lower-case form is |
| LandingPageV2.BlankIsRejected | src/pages/LandingPageV2.jsx:21-27 | a blank input would fail the pattern too, so the blank check only chooses the message |
| LandingPageV2.SubmitOutcome | src/pages/LandingPageV2.jsx:17-32 | a blank URL gets the empty message, a non-matching one the invalid message (blankness first), any other navigates to `/get-clips` with the URL as typed |
| LandingPageV2.Form.constructor | src/pages/LandingPageV2.jsx:8-9 | an empty input and no error |
| LandingPageV2.Form.OnInput | src/pages/LandingPageV2.jsx:59-62 | the text is taken and the error cleared |
| LandingPageV2.Form.HandleSubmit | src/pages/LandingPageV2.jsx:17-32 | the error is set to the outcome's message, or cleared and the page navigates |

## Left out

- Rendering: all JSX, Tailwind classes, alerts and `console` output.
- Downloads: the blob downloads and DOM anchors on both clip pages, which are browser I/O.
- The oEmbed title fetch on the clip page. It is network I/O, so `videoTitle` changes only through storage.
- `scrollIntoView` and the smooth-scroll helpers, which are DOM work.
- Scroll geometry: smooth scrolling's intermediate scroll events and fractional offsets. A scroll position is an integer number of pixels.
- Floating point: the speed slider, `playbackRate`, `duration / speed`, the `toFixed` file names and the alert that gives an oversized upload's size with one decimal. Speeds and the speed page's original size are `real` and are only compared or stored.
- How a JavaScript number becomes text: a clip's size carries the text `${clip.size}` writes for it beside its value, and `NaN` sizes are not modelled.
- The service calls (create, status, cancel, send email), which are not part of this model. Each call is a request value returned by a handler plus a success or failure event.
- Malformed JSON in storage and a `clips` field that is not an array. Stored results are values, so both are impossible here.
- The unmount clean-up and any interval left running after navigation.
- `Number` on forms the pages never produce: surrounding white space, a sign, exponents, hexadecimal, a decimal point, `Infinity`.
- Length in UTF-16 code units. A string is a sequence of characters.
- `EditVideoSpeed.FormatTime`: defined on natural-number seconds only, because the page passes durations from the video element, which are floating point.
- `EditVideoSpeed.FormatTimeRoundTripMinutes`: states the round trip through `split` and digit values, because `time_to_seconds` expects three fields and reads `m:ss` as `NaN`.
- `EditVideoSpeed.Page.PollReply`: a reply may arrive for any interval with a request in flight, including one already stopped. The code does not order requests and replies.
- `ClipEditorV2.TimeToSeconds`: its own contract says only that a result is non-negative. The value on well-formed times is stated by `TimeToSecondsOfClockShape` and `TimeToSecondsOfValidTime`.
- `RollingTimePicker.Parse`: has no contract of its own. What it promises is stated by `ParseMissingParts`, `PartWithoutDigitsIsZero` and `ParseSerialise`.
- `JsText.NumberOf`: a JavaScript number is a double, but the model's value is an exact integer. Digit strings beyond 2^53 round in the page.
- `JsText.ParseInt`: a JavaScript number is a double, but the model's magnitude is exact. Digit strings beyond 2^53 round in the page.
- `JsText.ParseIntPad2`: proved for every model integer. JavaScript numbers are doubles, so in the page the round trip holds only for magnitudes below 2^53. From 10^21 `toString` writes exponent notation, and `parseInt` reads back its leading digits.
- `RollingTimePicker.ParseSerialise`: proved for every model integer. JavaScript numbers are doubles, so in the page it holds only for magnitudes below 2^53. Such values reach the picker only from storage the pages did not write.
- `RollingTimePicker.ParseIntOfIntToString`: proved for every model integer. JavaScript numbers are doubles, so in the page it holds only for magnitudes below 2^53, because of rounding beyond 2^53 and exponent notation from 10^21.
- `LandingPageV2.Fold`: folds ASCII letters only. The pattern's literals are ASCII and its excluded classes hold no letters, so folding other letters could not change a match.

## Findings

| source | as written | input that shows it | evidently intended | confidence | as-written member | corrected member |
|---|---|---|---|---|---|---|
| src/pages/GetClips.jsx:61-82 | the persistence effect is declared before the load effect, so on mount it writes the default `00:00:00` times over the saved ones before they are read | storage holding `startTime = '00:01:30'`, then the page mounts | the saved start and end times are restored | high, not executed | GetClips.SavedStartTimeIsLost | GetClips.SavedStartTimeIsKept |
| src/pages/EditVideoSpeed.jsx:99 | the `'cancelled'` guard reads the status captured when Apply was pressed, which is never `'cancelled'` because the button is disabled in that status (line 337) | start a job, a status request goes out, cancel succeeds, then the reply `completed` arrives | a reply after a cancel is ignored and the status stays `'cancelled'` | high, not executed | EditVideoSpeed.LateReplyOverridesCancel | EditVideoSpeed.LateReplyIgnoredAfterCancel |
