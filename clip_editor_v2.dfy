/** The clip editor page: its `HH:MM:SS` validator, the conversion to seconds, the range check,
    the keystroke auto-formatter, the errors-map update and the `v=` video-id reader. */
module ClipEditorV2 {
  import opened JsText

  const EmptyTimeMessage := "Please enter a time"
  const FormatMessage := "Format: HH:MM:SS"
  const AfterStartMessage := "End time must be after start"
  const MaxDurationMessage := "Clip max duration is 10 mins"
  /** The longest clip, in seconds (ten minutes). */
  const MaxClipSeconds := 600

  // ---------------------------------------------------------------------------------------
  // validate_time_format

  /** `/^([0-1][0-9]|2[0-3]):[0-5][0-9]:[0-5][0-9]$/`, character class by character class. */
  predicate MatchesTimePattern(t: string) {
    && |t| == 8
    && (('0' <= t[0] <= '1' && IsDigit(t[1])) || (t[0] == '2' && '0' <= t[1] <= '3'))
    && t[2] == ':'
    && '0' <= t[3] <= '5' && IsDigit(t[4])
    && t[5] == ':'
    && '0' <= t[6] <= '5' && IsDigit(t[7])
  }

  /** Two digit pairs and a third, separated by colons. */
  predicate IsClockShape(t: string) {
    |t| == 8 && t[2] == ':' && t[5] == ':' && AllDigits(t[0..2]) && AllDigits(t[3..5]) && AllDigits(t[6..8])
  }

  function ClockHours(t: string): nat requires IsClockShape(t) { DecimalValue(t[0..2]) }
  function ClockMinutes(t: string): nat requires IsClockShape(t) { DecimalValue(t[3..5]) }
  function ClockSecondsPart(t: string): nat requires IsClockShape(t) { DecimalValue(t[6..8]) }

  /** The number of seconds a clock string stands for, read from its digit pairs. */
  function ClockSeconds(t: string): nat
    requires IsClockShape(t)
  {
    ClockHours(t) * 3600 + ClockMinutes(t) * 60 + ClockSecondsPart(t)
  }

  lemma DecimalValueOfPair(a: string)
    requires |a| == 2 && AllDigits(a)
    ensures DecimalValue(a) == 10 * DigitValue(a[0]) + DigitValue(a[1])
  {
    var first := a[..1];
    assert first[..0] == [] && first[0] == a[0];
    assert DecimalValue(first) == DigitValue(a[0]);
    assert a[..|a| - 1] == first;
  }

  /** The character classes of the pattern say the same as numeric ranges on the digit pairs:
      hours 00 to 23, minutes and seconds 00 to 59. */
  lemma PatternMeansClockRanges(t: string)
    ensures MatchesTimePattern(t) <==>
      IsClockShape(t) && ClockHours(t) <= 23 && ClockMinutes(t) <= 59 && ClockSecondsPart(t) <= 59
  {
    if IsClockShape(t) {
      DecimalValueOfPair(t[0..2]);
      DecimalValueOfPair(t[3..5]);
      DecimalValueOfPair(t[6..8]);
      assert t[0..2][0] == t[0] && t[0..2][1] == t[1];
      assert t[3..5][0] == t[3] && t[3..5][1] == t[4];
      assert t[6..8][0] == t[6] && t[6..8][1] == t[7];
    }
    if MatchesTimePattern(t) {
      assert AllDigits(t[0..2]) && AllDigits(t[3..5]) && AllDigits(t[6..8]);
    }
  }

  /** `validate_time_format`: blank input first, then the pattern. */
  function ValidateTimeFormat(time: string): (r: string)
    ensures r == "" <==> MatchesTimePattern(time)
    ensures IsBlank(time) ==> r == EmptyTimeMessage
    ensures !IsBlank(time) && !MatchesTimePattern(time) ==> r == FormatMessage
  {
    BlankIffAllSpace(time);
    assert MatchesTimePattern(time) ==> !IsSpace(time[0]);
    if IsBlank(time) then EmptyTimeMessage
    else if !MatchesTimePattern(time) then FormatMessage
    else ""
  }

  // ---------------------------------------------------------------------------------------
  // time_to_seconds

  /** `time_to_seconds`: split on `:`, `Number` each of the first three parts, and combine.
      A missing part is `undefined` and a non-numeric one `NaN`; either makes the result `NaN`. */
  function TimeToSeconds(time: string): (r: Option<int>)
    ensures r.Some? ==> r.value >= 0
  {
    SecondsOfParts(Split(time, ':'))
  }

  /** `.map(Number)` and the sum, on the parts `split` gave. */
  function SecondsOfParts(parts: seq<string>): (r: Option<int>)
    ensures r.Some? ==> r.value >= 0
  {
    if |parts| < 3 then None
    else
      match (NumberOf(parts[0]), NumberOf(parts[1]), NumberOf(parts[2]))
      case (Some(h), Some(m), Some(s)) => Some(h * 3600 + m * 60 + s)
      case _ => None
  }

  /** Three digit strings combine as hours, minutes and seconds. */
  lemma SecondsOfDigitParts(a: string, b: string, c: string)
    requires AllDigits(a) && AllDigits(b) && AllDigits(c)
    ensures SecondsOfParts([a, b, c]) == Some(DecimalValue(a) * 3600 + DecimalValue(b) * 60 + DecimalValue(c))
  {
    var p := [a, b, c];
    assert p[0] == a && p[1] == b && p[2] == c;
  }

  /** On a clock string, `time_to_seconds` is `h*3600 + m*60 + s` of its digit pairs. */
  lemma TimeToSecondsOfClockShape(t: string)
    requires IsClockShape(t)
    ensures TimeToSeconds(t) == Some(ClockSeconds(t))
  {
    var parts := [t[0..2], t[3..5], t[6..8]];
    assert parts[1..] == [t[3..5], t[6..8]] && parts[1..][1..] == [t[6..8]];
    assert t == t[0..2] + [':'] + t[3..5] + [':'] + t[6..8];
    assert Join(parts[1..][1..], ':') == t[6..8];
    assert Join(parts[1..], ':') == t[3..5] + [':'] + t[6..8];
    assert Join(parts, ':') == t;
    assert forall i :: 0 <= i < 3 ==> AllDigits(parts[i]);
    assert forall i :: 0 <= i < 3 ==> ':' !in parts[i] by {
      forall i | 0 <= i < 3 ensures ':' !in parts[i] {
        assert forall k :: 0 <= k < |parts[i]| ==> IsDigit(parts[i][k]);
      }
    }
    SplitJoin(parts, ':');
  }

  /** For a valid time, `time_to_seconds` lies within one day: 0 to 86399. */
  lemma TimeToSecondsOfValidTime(t: string)
    requires MatchesTimePattern(t)
    ensures IsClockShape(t) && TimeToSeconds(t) == Some(ClockSeconds(t))
    ensures 0 <= ClockSeconds(t) <= 86399
  {
    PatternMeansClockRanges(t);
    TimeToSecondsOfClockShape(t);
  }

  // ---------------------------------------------------------------------------------------
  // validate_logic

  /** `validate_logic`: silent while either time is empty or malformed; otherwise the end must
      come after the start, by at most ten minutes. */
  function ValidateLogic(start: string, end: string): (r: string)
    ensures r == "" || r == AfterStartMessage || r == MaxDurationMessage
    ensures !(MatchesTimePattern(start) && MatchesTimePattern(end)) ==> r == ""
    ensures MatchesTimePattern(start) && MatchesTimePattern(end) ==>
      IsClockShape(start) && IsClockShape(end) &&
      (r == AfterStartMessage <==> ClockSeconds(end) <= ClockSeconds(start)) &&
      (r == MaxDurationMessage <==> ClockSeconds(end) - ClockSeconds(start) > MaxClipSeconds) &&
      (r == "" <==> 0 < ClockSeconds(end) - ClockSeconds(start) <= MaxClipSeconds)
  {
    if start == "" || end == "" then ""
    else if ValidateTimeFormat(start) != "" || ValidateTimeFormat(end) != "" then ""
    else
      TimeToSecondsOfValidTime(start);
      TimeToSecondsOfValidTime(end);
      var s := TimeToSeconds(start).value;
      var e := TimeToSeconds(end).value;
      if e <= s then AfterStartMessage
      else if e - s > MaxClipSeconds then MaxDurationMessage
      else ""
  }

  // ---------------------------------------------------------------------------------------
  // format_time_input

  /** `s.replace(/\D/g, '')`: the digits of `s`, in order. */
  function Digits(s: string): (d: string)
    ensures AllDigits(d) && |d| <= |s|
  {
    if s == [] then [] else (if IsDigit(s[0]) then [s[0]] else []) + Digits(s[1..])
  }

  lemma {:induction false} DigitsAppend(a: string, b: string)
    ensures Digits(a + b) == Digits(a) + Digits(b)
  {
    if a != [] {
      var head := if IsDigit(a[0]) then [a[0]] else [];
      assert (a + b)[0] == a[0] && (a + b)[1..] == a[1..] + b;
      assert Digits(a + b) == head + Digits(a[1..] + b);
      DigitsAppend(a[1..], b);
      assert Digits(a) == head + Digits(a[1..]);
    } else {
      assert a + b == b;
    }
  }

  lemma {:induction false} DigitsOfDigits(a: string)
    requires AllDigits(a)
    ensures Digits(a) == a
  {
    if a != [] {
      DigitsOfDigits(a[1..]);
      assert a == [a[0]] + a[1..];
    }
  }

  lemma DigitsOfColon()
    ensures Digits(":") == []
  {
    assert ":"[1..] == [];
  }

  /** `.slice(0, 6)`. */
  function FirstSix(d: string): string {
    if |d| > 6 then d[..6] else d
  }

  /** `format_time_input`: keep the first six digits and put a colon after the second and the
      fourth when more digits follow. */
  function FormatTimeInput(value: string): (r: string)
    ensures |r| <= 8
    ensures forall i :: 0 <= i < |r| ==> IsDigit(r[i]) || r[i] == ':'
    ensures Digits(r) == FirstSix(Digits(value))
    ensures forall i :: 0 <= i < |r| ==> (r[i] == ':' <==> i == 2 || i == 5)
    ensures forall i :: 0 <= i < |r| && r[i] == ':' ==> i + 1 < |r| && IsDigit(r[i + 1])
  {
    var numbers := FirstSix(Digits(value));
    if |numbers| > 4 then
      ThreeGroups(numbers);
      numbers[0..2] + ":" + numbers[2..4] + ":" + numbers[4..]
    else if |numbers| > 2 then
      TwoGroups(numbers);
      numbers[0..2] + ":" + numbers[2..]
    else
      DigitsOfDigits(numbers);
      numbers
  }

  /** Five or six digits grouped as `hh:mm:s[s]`. */
  lemma ThreeGroups(n: string)
    requires AllDigits(n) && 4 < |n| <= 6
    ensures var r := n[0..2] + ":" + n[2..4] + ":" + n[4..];
      && |r| <= 8
      && (forall i :: 0 <= i < |r| ==> IsDigit(r[i]) || r[i] == ':')
      && Digits(r) == n
      && (forall i :: 0 <= i < |r| ==> (r[i] == ':' <==> i == 2 || i == 5))
      && (forall i :: 0 <= i < |r| && r[i] == ':' ==> i + 1 < |r| && IsDigit(r[i + 1]))
  {
    var a, b, c := n[0..2], n[2..4], n[4..];
    DigitsOfGroups(a, b, c);
    assert n == a + b + c;
  }

  /** Three or four digits grouped as `hh:m[m]`. */
  lemma TwoGroups(n: string)
    requires AllDigits(n) && 2 < |n| <= 4
    ensures var r := n[0..2] + ":" + n[2..];
      && |r| <= 8
      && (forall i :: 0 <= i < |r| ==> IsDigit(r[i]) || r[i] == ':')
      && Digits(r) == n
      && (forall i :: 0 <= i < |r| ==> (r[i] == ':' <==> i == 2 || i == 5))
      && (forall i :: 0 <= i < |r| && r[i] == ':' ==> i + 1 < |r| && IsDigit(r[i + 1]))
  {
    var a, b := n[0..2], n[2..];
    DigitsOfColon();
    DigitsOfDigits(a);
    DigitsOfDigits(b);
    DigitsAppend(a + ":", b);
    DigitsAppend(a, ":");
    assert n == a + b;
  }

  /** Formatting an already formatted value leaves it unchanged. */
  lemma FormatTimeInputIdempotent(value: string)
    ensures FormatTimeInput(FormatTimeInput(value)) == FormatTimeInput(value)
  {
    var r := FormatTimeInput(value);
    var numbers := FirstSix(Digits(value));
    assert FirstSix(Digits(r)) == numbers;
  }

  /** A complete, valid `HH:MM:SS` time passes through the formatter unchanged. */
  lemma FormatTimeInputKeepsValidTime(t: string)
    requires MatchesTimePattern(t)
    ensures FormatTimeInput(t) == t
  {
    var a, b, c := t[0..2], t[3..5], t[6..8];
    assert t == a + ":" + b + ":" + c;
    DigitsOfGroups(a, b, c);
    var d := a + b + c;
    assert d[0..2] == a && d[2..4] == b && d[4..] == c;
  }

  /** Removing the colons of `a:b:c` leaves the three digit groups. */
  lemma DigitsOfGroups(a: string, b: string, c: string)
    requires AllDigits(a) && AllDigits(b) && AllDigits(c)
    ensures Digits(a + ":" + b + ":" + c) == a + b + c
  {
    var ac := a + ":";
    var acb := ac + b;
    var acbc := acb + ":";
    DigitsOfColon();
    DigitsOfDigits(a);
    DigitsOfDigits(b);
    DigitsOfDigits(c);
    DigitsAppend(a, ":");
    assert Digits(ac) == a;
    DigitsAppend(ac, b);
    assert Digits(acb) == a + b;
    DigitsAppend(acb, ":");
    assert Digits(acbc) == a + b;
    DigitsAppend(acbc, c);
  }

  // ---------------------------------------------------------------------------------------
  // handle_time_change

  /** The keys the editor's `errors` object ever holds: the two time fields and `logic`. */
  datatype ErrorKey = StartTimeField | EndTimeField | LogicField

  /** What `handle_time_change` promises about the errors map it stores, as a relation between
      the map before and after. `field` is the edited time's key, `otherTime` the other time. */
  ghost predicate EditedErrors(before: map<ErrorKey, string>, after: map<ErrorKey, string>,
                               formatted: string, field: ErrorKey, otherTime: string, isStart: bool)
  {
    // nothing changes until the formatted value is complete
    && (|formatted| != 8 ==> after == before)
    // every key other than the edited field and `logic` is kept as it was
    && (forall k :: k != field && k != LogicField ==>
          (k in after <==> k in before) && (k in before ==> after[k] == before[k]))
    // a complete value sets the field's message exactly when it is malformed
    && (|formatted| == 8 ==>
          (field in after <==> !MatchesTimePattern(formatted)) &&
          (field in after ==> after[field] == ValidateTimeFormat(formatted)))
    // `logic` is left alone unless the value is complete and valid and the other time complete
    && (!(|formatted| == 8 && MatchesTimePattern(formatted) && |otherTime| == 8) ==>
          (LogicField in after <==> LogicField in before) &&
          (LogicField in before ==> after[LogicField] == before[LogicField]))
    // otherwise `logic` holds the range message, start before end, or is removed
    && (|formatted| == 8 && MatchesTimePattern(formatted) && |otherTime| == 8 ==>
          var message := if isStart then ValidateLogic(formatted, otherTime)
                         else ValidateLogic(otherTime, formatted);
          (LogicField in after <==> message != "") &&
          (LogicField in after ==> after[LogicField] == message))
  }

  /** The body of `handle_time_change` that builds the new errors map: copy the map, then set
      or delete keys one by one. */
  method UpdatedErrors(errors: map<ErrorKey, string>, formatted: string, field: ErrorKey,
                       otherTime: string, isStart: bool) returns (newErrors: map<ErrorKey, string>)
    requires field != LogicField
    ensures EditedErrors(errors, newErrors, formatted, field, otherTime, isStart)
  {
    newErrors := errors;
    if |formatted| == 8 {
      var formatErr := ValidateTimeFormat(formatted);
      if |formatErr| > 0 {
        newErrors := newErrors[field := formatErr];
      } else {
        newErrors := newErrors - {field};
        if otherTime != "" && |otherTime| == 8 {
          var logicErr := if isStart then ValidateLogic(formatted, otherTime)
                          else ValidateLogic(otherTime, formatted);
          if |logicErr| > 0 {
            newErrors := newErrors[LogicField := logicErr];
          } else {
            newErrors := newErrors - {LogicField};
          }
        }
      }
    }
  }

  // ---------------------------------------------------------------------------------------
  // get_video_id

  /** `[?&]v=` at position `i`. */
  predicate IsVMarker(url: string, i: int) {
    0 <= i && i + 3 <= |url| && (url[i] == '?' || url[i] == '&') && url[i + 1] == 'v' && url[i + 2] == '='
  }

  /** The leftmost `[?&]v=` at or after `from`. */
  function FirstVMarker(url: string, from: nat): (r: Option<nat>)
    ensures r.Some? ==> from <= r.value && IsVMarker(url, r.value)
    ensures forall j :: from <= j && (r.None? || j < r.value) ==> !IsVMarker(url, j)
    decreases |url| - from
  {
    if from + 3 > |url| then None
    else if IsVMarker(url, from) then Some(from)
    else FirstVMarker(url, from + 1)
  }

  /** `([^&#]*)`: the longest prefix without `&` or `#`. */
  function ValueText(s: string): (r: string)
    ensures r <= s
    ensures forall i :: 0 <= i < |r| ==> r[i] != '&' && r[i] != '#'
    ensures |r| < |s| ==> s[|r|] == '&' || s[|r|] == '#'
  {
    if s == [] || s[0] == '&' || s[0] == '#' then [] else [s[0]] + ValueText(s[1..])
  }

  /** `get_video_id`: the text after the first `?v=` or `&v=`, up to the next `&` or `#` or the
      end; `null` when there is no such marker. */
  function GetVideoId(url: string): (r: Option<string>)
    ensures r.None? <==> forall i :: 0 <= i < |url| ==> !IsVMarker(url, i)
    ensures forall i :: IsVMarker(url, i) && (forall j :: 0 <= j < i ==> !IsVMarker(url, j)) ==>
      r == Some(ValueText(url[i + 3..]))
  {
    match FirstVMarker(url, 0)
    case None => None
    case Some(i) => Some(ValueText(url[i + 3..]))
  }

  // ---------------------------------------------------------------------------------------
  // The page state

  /** The editor's state: the URL field, the two time fields and the errors map. */
  class Form {
    var youtubeUrl: string
    var startTime: string
    var endTime: string
    var errors: map<ErrorKey, string>

    /** The URL handed over by navigation (or empty), blank times and no errors. */
    constructor (navigatedUrl: string)
      ensures youtubeUrl == navigatedUrl && startTime == "" && endTime == "" && errors == map[]
    {
      youtubeUrl := navigatedUrl;
      startTime := "";
      endTime := "";
      errors := map[];
    }

    /** The URL input's `onChange`. */
    method SetYoutubeUrl(value: string)
      modifies this`youtubeUrl
      ensures youtubeUrl == value
    {
      youtubeUrl := value;
    }

    /** The two time inputs' `onChange`: `handle_time_change(value, setter, 'startTime',
        endTime, true)` for the start and the mirror image for the end. */
    method HandleTimeChange(value: string, isStart: bool)
      modifies this`startTime, this`endTime, this`errors
      ensures isStart ==> startTime == FormatTimeInput(value) && endTime == old(endTime)
      ensures !isStart ==> endTime == FormatTimeInput(value) && startTime == old(startTime)
      ensures EditedErrors(old(errors), errors, FormatTimeInput(value),
                           if isStart then StartTimeField else EndTimeField,
                           if isStart then old(endTime) else old(startTime), isStart)
    {
      var formatted := FormatTimeInput(value);
      var otherTime := if isStart then endTime else startTime;
      if isStart {
        startTime := formatted;
      } else {
        endTime := formatted;
      }
      errors := UpdatedErrors(errors, formatted, if isStart then StartTimeField else EndTimeField,
                              otherTime, isStart);
    }

    /** The video id the preview uses. */
    function VideoId(): (r: Option<string>)
      reads this
      ensures r.None? <==> forall i :: 0 <= i < |youtubeUrl| ==> !IsVMarker(youtubeUrl, i)
    {
      GetVideoId(youtubeUrl)
    }
  }
}
