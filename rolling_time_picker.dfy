/** The rolling time picker: it parses its `HH:MM:SS` value, offers three scrolling columns of
    numbers, and serialises a change of one column back into a zero-padded `HH:MM:SS`. */
module RollingTimePicker {
  import opened JsText

  /** Height of one item of a column, in pixels. */
  const ItemHeight := 36

  /** The column a change comes from: the `type` argument `'h'`, `'m'` or `'s'` of `updateTime`. */
  datatype Unit = Hour | Minute | Second

  /** The three numbers the picker shows. */
  datatype Clock = Clock(h: int, m: int, s: int)

  // ---------------------------------------------------------------------------------------
  // Parsing the value

  /** `value ? value.split(':') : ['00', '00', '00']`. */
  function TimeParts(value: string): (parts: seq<string>)
    ensures |parts| >= 1
  {
    if value != "" then Split(value, ':') else ["00", "00", "00"]
  }

  /** `parseInt(part || '0') || 0` for a part that may be missing. */
  function PartValue(parts: seq<string>, i: nat): int {
    OrZero(ParseInt(if i < |parts| && parts[i] != "" then parts[i] else "0"))
  }

  /** The picker's reading of its value: hours, minutes and seconds. */
  function Parse(value: string): Clock {
    var parts := TimeParts(value);
    Clock(OrZero(ParseInt(parts[0])), PartValue(parts, 1), PartValue(parts, 2))
  }

  /** An empty value reads as midnight, and missing columns read as 0. */
  lemma ParseMissingParts(value: string)
    ensures value == "" ==> Parse(value) == Clock(0, 0, 0)
    ensures |TimeParts(value)| < 2 ==> Parse(value).m == 0
    ensures |TimeParts(value)| < 3 ==> Parse(value).s == 0
  {
    var parts := TimeParts(value);
    if value == "" {
      assert parts == ["00", "00", "00"];
      ZeroPartIsZero(parts, 0);
      ZeroPartIsZero(parts, 1);
      ZeroPartIsZero(parts, 2);
    }
    MissingPartIsZero(parts, 1);
    MissingPartIsZero(parts, 2);
  }

  /** A missing part reads as `'0'`. */
  lemma MissingPartIsZero(parts: seq<string>, i: nat)
    ensures i >= |parts| ==> PartValue(parts, i) == 0
  {
    var z: string := ['0'];
    assert DecimalValue(z) == 0 by { assert z[..0] == []; }
    ParseIntOfDigits(z);
  }

  /** A part `'00'` reads as 0. */
  lemma ZeroPartIsZero(parts: seq<string>, i: nat)
    requires i < |parts| && parts[i] == "00"
    ensures PartValue(parts, i) == 0 && OrZero(ParseInt(parts[i])) == 0
  {
    var z: string := ['0'];
    assert DecimalValue(z) == 0 by { assert z[..0] == []; }
    DecimalValueLeadingZero(z);
    assert "0" + z == parts[i];
    ParseIntOfDigits(parts[i]);
  }

  /** A part with no digit in it reads as 0. */
  lemma PartWithoutDigitsIsZero(parts: seq<string>, i: nat)
    requires i < |parts| && forall k :: 0 <= k < |parts[i]| ==> !IsDigit(parts[i][k])
    ensures PartValue(parts, i) == 0
  {
    var part := parts[i];
    if part == "" {
      assert ParseInt("0") == Some(0) by { ParseIntOfDigits("0"); }
    } else {
      assert ParseInt(part) == None;
    }
  }

  // ---------------------------------------------------------------------------------------
  // Ranges

  /** `Array.from({ length: n }, (_, i) => i)`. */
  function Range(n: nat): (r: seq<int>)
    ensures |r| == n
    ensures forall i :: 0 <= i < n ==> r[i] == i
  {
    seq(n, i => i)
  }

  function RangeOf(u: Unit): seq<int> {
    match u
    case Hour => Range(24)
    case Minute => Range(60)
    case Second => Range(60)
  }

  /** The hours run 0..23 and the minutes and seconds 0..59, strictly ascending. */
  lemma RangesAreAscending(u: Unit)
    ensures forall i, j :: 0 <= i < j < |RangeOf(u)| ==> RangeOf(u)[i] < RangeOf(u)[j]
    ensures forall x :: x in RangeOf(u) <==> 0 <= x < (if u == Hour then 24 else 60)
  {
    var r := RangeOf(u);
    forall x | 0 <= x < |r| ensures x in r { assert r[x] == x; }
  }

  /** A clock whose three numbers lie within their columns' ranges. */
  predicate InRange(c: Clock) {
    0 <= c.h < 24 && 0 <= c.m < 60 && 0 <= c.s < 60
  }

  // ---------------------------------------------------------------------------------------
  // updateTime

  /** `newH`, `newM`, `newS`: the parsed clock with the selected column replaced. */
  function Replace(c: Clock, u: Unit, v: int): (r: Clock)
    ensures u == Hour ==> r == Clock(v, c.m, c.s)
    ensures u == Minute ==> r == Clock(c.h, v, c.s)
    ensures u == Second ==> r == Clock(c.h, c.m, v)
  {
    match u
    case Hour => c.(h := v)
    case Minute => c.(m := v)
    case Second => c.(s := v)
  }

  /** The template string `${pad(h)}:${pad(m)}:${pad(s)}`. */
  function Serialise(c: Clock): string {
    Pad2(c.h) + ":" + Pad2(c.m) + ":" + Pad2(c.s)
  }

  /** `updateTime(type, val)`: the string handed to `onChange`. */
  function UpdateTime(value: string, u: Unit, v: int): string {
    Serialise(Replace(Parse(value), u, v))
  }

  lemma NoColonInPad2(n: int)
    ensures ':' !in Pad2(n) && |Pad2(n)| >= 2
  {
    var t := IntToString(n);
    var a := NatToString(if n < 0 then -n else n);
    assert forall i :: 0 <= i < |a| ==> a[i] != ':';
    assert forall i :: 0 <= i < |t| ==> t[i] != ':' by {
      if n < 0 {
        assert t == "-" + a;
        forall i | 0 <= i < |t| ensures t[i] != ':' {
          if i > 0 { assert t[i] == a[i - 1]; }
        }
      }
    }
    var p := Pad2(n);
    forall i | 0 <= i < |p| ensures p[i] != ':' {
      if i >= |p| - |t| {
        assert p[i] == p[|p| - |t|..][i - (|p| - |t|)];
      }
    }
  }

  /** Splitting three colon-free strings joined by colons gives them back. */
  lemma SplitThree(a: string, b: string, d: string)
    requires ':' !in a && ':' !in b && ':' !in d
    ensures Split(a + ":" + b + ":" + d, ':') == [a, b, d]
  {
    var parts := [a, b, d];
    assert parts[1..] == [b, d] && parts[1..][1..] == [d];
    assert Join(parts[1..], ':') == b + ":" + d;
    assert Join(parts, ':') == a + ":" + b + ":" + d;
    SplitJoin(parts, ':');
  }

  /** The three parts of a serialised clock are the three padded numbers. */
  lemma SplitSerialise(c: Clock)
    ensures Split(Serialise(c), ':') == [Pad2(c.h), Pad2(c.m), Pad2(c.s)]
  {
    NoColonInPad2(c.h);
    NoColonInPad2(c.m);
    NoColonInPad2(c.s);
    SplitThree(Pad2(c.h), Pad2(c.m), Pad2(c.s));
  }

  /** Parsing what the picker writes gives back the numbers it wrote, for every integer of
      the model. In the page this holds for magnitudes below 2^53. */
  lemma {:induction false} ParseSerialise(c: Clock)
    ensures Parse(Serialise(c)) == c
  {
    SplitSerialise(c);
    NoColonInPad2(c.m);
    NoColonInPad2(c.s);
    ParseIntPad2(c.h);
    ParseIntPad2(c.m);
    ParseIntPad2(c.s);
  }

  /** Round trip: reading back `updateTime`'s output gives the parsed value with exactly the
      selected column replaced, and the other two columns as they were. */
  lemma UpdateTimeRoundTrip(value: string, u: Unit, v: int)
    ensures Parse(UpdateTime(value, u, v)) == Replace(Parse(value), u, v)
  {
    ParseSerialise(Replace(Parse(value), u, v));
  }

  /** For numbers within the ranges, the output is `HH:MM:SS`: eight characters, two digits per
      column, each pair denoting its number. */
  lemma SerialiseInRange(c: Clock)
    requires InRange(c)
    ensures var t := Serialise(c);
      |t| == 8 && t[2] == ':' && t[5] == ':' &&
      t[0..2] == Pad2(c.h) && t[3..5] == Pad2(c.m) && t[6..8] == Pad2(c.s)
  {
    Pad2TwoDigits(c.h);
    Pad2TwoDigits(c.m);
    Pad2TwoDigits(c.s);
    PairsJoined(Pad2(c.h), Pad2(c.m), Pad2(c.s));
  }

  /** Three two-character strings joined by colons, and where each one lies. */
  lemma PairsJoined(a: string, b: string, d: string)
    requires |a| == 2 && |b| == 2 && |d| == 2
    ensures var t := a + ":" + b + ":" + d;
      |t| == 8 && t[2] == ':' && t[5] == ':' && t[0..2] == a && t[3..5] == b && t[6..8] == d
  {
    var t := a + ":" + b + ":" + d;
    assert t == a + (":" + (b + (":" + d)));
    assert t[0..2] == a;
    assert t[3..5] == b;
    assert t[6..8] == d;
  }

  // ---------------------------------------------------------------------------------------
  // RollingColumn

  /** `range.indexOf(x)`. */
  function IndexOf(range: seq<int>, x: int): (i: int)
    ensures -1 <= i < |range|
    ensures i == -1 <==> x !in range
    ensures i >= 0 ==> range[i] == x && forall j :: 0 <= j < i ==> range[j] != x
  {
    if range == [] then -1
    else if range[0] == x then 0
    else
      var k := IndexOf(range[1..], x);
      assert x in range[1..] ==> x in range;
      if k == -1 then -1 else k + 1
  }

  /** `Math.round(scrollTop / itemHeight)`: rounding to the nearest item, a half rounding up. */
  function ScrollIndex(scrollTop: int): (i: int)
    ensures i * ItemHeight - ItemHeight / 2 <= scrollTop < i * ItemHeight + ItemHeight / 2
  {
    (scrollTop + ItemHeight / 2) / ItemHeight
  }

  /** The index is the item whose centre band holds the offset. */
  lemma ScrollIndexIsNearest(scrollTop: int, i: int)
    ensures ScrollIndex(scrollTop) == i <==>
      i * ItemHeight - ItemHeight / 2 <= scrollTop < i * ItemHeight + ItemHeight / 2
  {
  }

  /** Scrolling to an item's offset reads back that item's index. */
  lemma ScrollIndexOfItemOffset(i: int)
    ensures ScrollIndex(i * ItemHeight) == i
  {
    ScrollIndexIsNearest(i * ItemHeight, i);
  }

  /** One scrolling column (`RollingColumn`): its fixed range, the value it is given, the scroll
      offset of its container, the `isScrollingRef` flag and the flag resets still scheduled. */
  class Column {
    const range: seq<int>
    var value: int
    var scrollTop: int
    var isScrolling: bool
    var pendingFlagResets: nat

    constructor (range: seq<int>, value: int)
      ensures this.range == range && this.value == value
      ensures scrollTop == 0 && !isScrolling && pendingFlagResets == 0
    {
      this.range := range;
      this.value := value;
      scrollTop := 0;
      isScrolling := false;
      pendingFlagResets := 0;
    }

    /** `handleScroll`: while the flag is down, report the item nearest the offset when it exists
        and differs from the value. Returns the number passed to `onChange`, if any. */
    method HandleScroll() returns (emitted: Option<int>)
      ensures isScrolling ==> emitted == None
      ensures emitted.Some? <==>
        !isScrolling && 0 <= ScrollIndex(scrollTop) < |range| && range[ScrollIndex(scrollTop)] != value
      ensures emitted.Some? ==> emitted.value == range[ScrollIndex(scrollTop)]
    {
      emitted := None;
      if !isScrolling {
        var index := ScrollIndex(scrollTop);
        if 0 <= index < |range| && range[index] != value {
          emitted := Some(range[index]);
        }
      }
    }

    /** `handleItemClick(num)`: for a number of the range, raise the flag, scroll to its item,
        report it through `onChange` and schedule the flag's reset. */
    method HandleItemClick(num: int) returns (emitted: Option<int>)
      modifies this`scrollTop, this`isScrolling, this`pendingFlagResets
      ensures num !in range ==>
        emitted == None && scrollTop == old(scrollTop) && isScrolling == old(isScrolling) &&
        pendingFlagResets == old(pendingFlagResets)
      ensures num in range ==>
        emitted == Some(num) && isScrolling && scrollTop == IndexOf(range, num) * ItemHeight &&
        pendingFlagResets == old(pendingFlagResets) + 1
    {
      emitted := None;
      var index := IndexOf(range, num);
      if index != -1 {
        isScrolling := true;
        scrollTop := index * ItemHeight;
        emitted := Some(num);
        pendingFlagResets := pendingFlagResets + 1;
      }
    }

    /** The 300 ms timer that `handleItemClick` sets fires: the flag goes down. */
    method FlagResetFires()
      requires pendingFlagResets > 0
      modifies this`isScrolling, this`pendingFlagResets
      ensures !isScrolling && pendingFlagResets == old(pendingFlagResets) - 1
    {
      isScrolling := false;
      pendingFlagResets := pendingFlagResets - 1;
    }

    /** The parent re-renders the column with a new value. */
    method SetValue(v: int)
      modifies this`value
      ensures value == v
    {
      value := v;
    }

    /** The effect that runs on a new value: scroll to `range.indexOf(parseInt(value))` when the
        value is in the range. */
    method InitialScroll()
      modifies this`scrollTop
      ensures value in range ==> scrollTop == IndexOf(range, value) * ItemHeight
      ensures value !in range ==> scrollTop == old(scrollTop)
    {
      ParseIntOfIntToString(value);
      var parsed := ParseInt(IntToString(value));
      var index := IndexOf(range, OrZero(parsed));
      if parsed.Some? && index != -1 {
        scrollTop := index * ItemHeight;
      }
    }
  }

  /** `parseInt(String(n))` is `n` for every integer of the model. In the page this holds
      for magnitudes below 2^53. */
  lemma ParseIntOfIntToString(n: int)
    ensures ParseInt(IntToString(n)) == Some(n)
  {
    if n < 0 {
      ParseIntOfNegativeDigits(NatToString(-n));
    } else {
      ParseIntOfDigits(NatToString(n));
    }
  }

  /** A click settles: once the parent has taken the clicked number as its value and the flag
      has come down, the scroll position the click set makes `handleScroll` report nothing. */
  method ClickSettles(u: Unit, value: int, num: int) returns (first: Option<int>, later: Option<int>)
    requires num in RangeOf(u)
    ensures first == Some(num) && later == None
  {
    var column := new Column(RangeOf(u), value);
    first := column.HandleItemClick(num);
    column.SetValue(num);
    column.FlagResetFires();
    ScrollIndexOfItemOffset(IndexOf(column.range, num));
    later := column.HandleScroll();
  }
}
