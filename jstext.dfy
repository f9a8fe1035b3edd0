/** The JavaScript string primitives the pages rely on: `trim`, `\s`, `Number`, `parseInt`,
    `split`, `toString` and `padStart`, stated over Dafny strings (sequences of code points). */
module JsText {

  /** A value that JavaScript code may leave `null` or `undefined`. */
  datatype Option<T> = None | Some(value: T)

  /** JavaScript truthiness of an optional string: present and not empty. */
  predicate Truthy(s: Option<string>) {
    s.Some? && s.value != ""
  }

  /** The code points ECMAScript counts as WhiteSpace or LineTerminator: what `trim` strips and
      what the regular-expression class `\s` matches. */
  predicate IsSpace(c: char) {
    || c == '\t' || c == '\n' || c == '\U{000B}' || c == '\U{000C}' || c == '\r' || c == ' '
    || c == '\U{00A0}' || c == '\U{1680}' || ('\U{2000}' <= c <= '\U{200A}')
    || c == '\U{2028}' || c == '\U{2029}' || c == '\U{202F}' || c == '\U{205F}'
    || c == '\U{3000}' || c == '\U{FEFF}'
  }

  /** The line terminators, the only characters the regular-expression `.` does not match. */
  predicate IsLineTerminator(c: char) {
    c == '\n' || c == '\r' || c == '\U{2028}' || c == '\U{2029}'
  }

  /** `String.prototype.trimStart`. */
  function TrimStart(s: string): (r: string)
    ensures |r| <= |s| && r == s[|s| - |r|..]
    ensures r == [] || !IsSpace(r[0])
    ensures forall i :: 0 <= i < |s| - |r| ==> IsSpace(s[i])
  {
    if s != [] && IsSpace(s[0]) then TrimStart(s[1..]) else s
  }

  /** `String.prototype.trimEnd`. */
  function TrimEnd(s: string): (r: string)
    ensures |r| <= |s| && r == s[..|r|]
    ensures r == [] || !IsSpace(r[|r| - 1])
    ensures forall i :: |r| <= i < |s| ==> IsSpace(s[i])
  {
    if s != [] && IsSpace(s[|s| - 1]) then TrimEnd(s[..|s| - 1]) else s
  }

  /** `String.prototype.trim`. */
  function Trim(s: string): string {
    TrimEnd(TrimStart(s))
  }

  /** `!s.trim()`: nothing is left once the white space is trimmed. */
  predicate IsBlank(s: string) {
    Trim(s) == ""
  }

  /** A string is blank exactly when every one of its characters is white space. */
  lemma BlankIffAllSpace(s: string)
    ensures IsBlank(s) <==> forall i :: 0 <= i < |s| ==> IsSpace(s[i])
  {
    var t := TrimStart(s);
    assert t != [] ==> t[0] == s[|s| - |t|];
    if !forall i :: 0 <= i < |s| ==> IsSpace(s[i]) {
      var i :| 0 <= i < |s| && !IsSpace(s[i]);
      assert |s| - |t| <= i;
      assert t != [] && !IsSpace(t[0]);
      assert TrimEnd(t) != [];
    }
  }

  // ---------------------------------------------------------------------------------------
  // Decimal digits

  /** `[0-9]`, the class `\d`. */
  predicate IsDigit(c: char) {
    '0' <= c <= '9'
  }

  predicate AllDigits(s: string) {
    forall i :: 0 <= i < |s| ==> IsDigit(s[i])
  }

  function DigitValue(c: char): (d: nat)
    requires IsDigit(c)
    ensures d < 10
  {
    (c as int) - ('0' as int)
  }

  function DigitChar(d: nat): (c: char)
    requires d < 10
    ensures IsDigit(c) && DigitValue(c) == d
  {
    (('0' as int) + d) as char
  }

  /** The number a string of decimal digits denotes; leading zeros are allowed. */
  function DecimalValue(s: string): nat
    requires AllDigits(s)
  {
    if s == [] then 0 else 10 * DecimalValue(s[..|s| - 1]) + DigitValue(s[|s| - 1])
  }

  lemma DecimalValueAppend(s: string, c: char)
    requires AllDigits(s) && IsDigit(c)
    ensures AllDigits(s + [c]) && DecimalValue(s + [c]) == 10 * DecimalValue(s) + DigitValue(c)
  {
    assert (s + [c])[..|s|] == s;
  }

  /** Leading zeros do not change the value. */
  lemma DecimalValueLeadingZero(s: string)
    requires AllDigits(s)
    ensures AllDigits("0" + s) && DecimalValue("0" + s) == DecimalValue(s)
  {
    if s != [] {
      assert ("0" + s)[..|s|] == "0" + s[..|s| - 1];
      DecimalValueLeadingZero(s[..|s| - 1]);
    }
  }

  /** `Number.prototype.toString()` for a non-negative integer: its decimal digits,
      without leading zeros. */
  function NatToString(n: nat): (r: string)
    ensures |r| >= 1 && AllDigits(r)
    ensures DecimalValue(r) == n
    ensures r[0] == '0' ==> n == 0
    ensures n < 10 <==> |r| == 1
    ensures 10 <= n < 100 <==> |r| == 2
  {
    if n < 10 then
      [DigitChar(n)]
    else
      var t := NatToString(n / 10);
      DecimalValueAppend(t, DigitChar(n % 10));
      t + [DigitChar(n % 10)]
  }

  /** `Number.prototype.toString()` for an integer. */
  function IntToString(i: int): (r: string)
    ensures |r| >= 1
    ensures i >= 0 ==> r == NatToString(i)
    ensures i < 0 ==> r == "-" + NatToString(-i)
  {
    if i < 0 then "-" + NatToString(-i) else NatToString(i)
  }

  /** `s.padStart(2, '0')`. */
  function PadStart2(s: string): (r: string)
    ensures |r| == if |s| >= 2 then |s| else 2
    ensures r[|r| - |s|..] == s
    ensures forall i :: 0 <= i < |r| - |s| ==> r[i] == '0'
  {
    if |s| >= 2 then s else seq(2 - |s|, _ => '0') + s
  }

  /** `n.toString().padStart(2, '0')`. */
  function Pad2(n: int): string {
    PadStart2(IntToString(n))
  }

  /** For 0..99 the padded form is exactly two digits denoting the number. */
  lemma Pad2TwoDigits(n: int)
    requires 0 <= n < 100
    ensures |Pad2(n)| == 2 && AllDigits(Pad2(n)) && DecimalValue(Pad2(n)) == n
  {
    var t := NatToString(n);
    if n < 10 {
      DecimalValueLeadingZero(t);
      assert Pad2(n) == "0" + t;
    }
  }

  /** `Number` reads a padded 0..99 back as the number. */
  lemma NumberOfPad2(n: int)
    requires 0 <= n < 100
    ensures NumberOf(Pad2(n)) == Some(n)
  {
    Pad2TwoDigits(n);
  }

  /** `Number(s)` on the strings the pages hand it: a string of decimal digits (the empty string
      gives 0). Anything else is `NaN`, written `None`. The value is exact, where a JavaScript
      number rounds beyond 2^53. */
  function NumberOf(s: string): (r: Option<int>)
    ensures r.Some? <==> AllDigits(s)
    ensures r.Some? ==> r.value >= 0
  {
    if AllDigits(s) then Some(DecimalValue(s)) else None
  }

  // ---------------------------------------------------------------------------------------
  // split(':')

  /** The inverse of `split`: the parts with the separator between them. */
  function Join(parts: seq<string>, sep: char): string
    requires |parts| >= 1
  {
    if |parts| == 1 then parts[0] else parts[0] + [sep] + Join(parts[1..], sep)
  }

  /** `s.split(sep)` for a one-character separator. */
  function Split(s: string, sep: char): (parts: seq<string>)
    ensures |parts| >= 1
    ensures forall i :: 0 <= i < |parts| ==> sep !in parts[i]
    ensures Join(parts, sep) == s
  {
    if s == [] then
      [""]
    else if s[0] == sep then
      var rest := Split(s[1..], sep);
      assert s == [sep] + s[1..];
      [""] + rest
    else
      var rest := Split(s[1..], sep);
      var parts := [[s[0]] + rest[0]] + rest[1..];
      assert parts[1..] == rest[1..];
      assert s == [s[0]] + s[1..];
      parts
  }

  lemma {:induction false} SplitNoSeparator(a: string, sep: char)
    requires sep !in a
    ensures Split(a, sep) == [a]
  {
    if a != [] {
      assert a[1..] == a[1..];
      assert sep !in a[1..];
      SplitNoSeparator(a[1..], sep);
      assert [a[0]] + a[1..] == a;
    }
  }

  lemma {:induction false} SplitAtFirstSeparator(a: string, sep: char, b: string)
    requires sep !in a
    ensures Split(a + [sep] + b, sep) == [a] + Split(b, sep)
  {
    var s := a + [sep] + b;
    if a == [] {
      assert s[0] == sep && s[1..] == b;
    } else {
      assert s[0] == a[0] && s[1..] == a[1..] + [sep] + b;
      assert sep !in a[1..];
      SplitAtFirstSeparator(a[1..], sep, b);
      assert [a[0]] + a[1..] == a;
    }
  }

  /** Splitting the joined parts gives the parts back, when no part holds the separator. */
  lemma {:induction false} SplitJoin(parts: seq<string>, sep: char)
    requires |parts| >= 1
    requires forall i :: 0 <= i < |parts| ==> sep !in parts[i]
    ensures Split(Join(parts, sep), sep) == parts
  {
    if |parts| == 1 {
      SplitNoSeparator(parts[0], sep);
    } else {
      assert sep !in parts[0];
      SplitJoin(parts[1..], sep);
      SplitAtFirstSeparator(parts[0], sep, Join(parts[1..], sep));
      assert parts == [parts[0]] + parts[1..];
    }
  }

  // ---------------------------------------------------------------------------------------
  // parseInt(s) (no radix argument)

  predicate IsHexDigit(c: char) {
    IsDigit(c) || 'a' <= c <= 'f' || 'A' <= c <= 'F'
  }

  function HexDigitValue(c: char): (d: nat)
    requires IsHexDigit(c)
    ensures d < 16
  {
    if IsDigit(c) then DigitValue(c)
    else if 'a' <= c <= 'f' then (c as int) - ('a' as int) + 10
    else (c as int) - ('A' as int) + 10
  }

  function HexValue(s: string): nat
    requires forall i :: 0 <= i < |s| ==> IsHexDigit(s[i])
  {
    if s == [] then 0 else 16 * HexValue(s[..|s| - 1]) + HexDigitValue(s[|s| - 1])
  }

  /** The longest prefix of decimal digits. */
  function DigitPrefix(s: string): (d: string)
    ensures AllDigits(d) && d <= s
    ensures |d| < |s| ==> !IsDigit(s[|d|])
  {
    if s != [] && IsDigit(s[0]) then [s[0]] + DigitPrefix(s[1..]) else []
  }

  /** The longest prefix of hexadecimal digits. */
  function HexPrefix(s: string): (d: string)
    ensures forall i :: 0 <= i < |d| ==> IsHexDigit(d[i])
    ensures d <= s
    ensures |d| < |s| ==> !IsHexDigit(s[|d|])
  {
    if s != [] && IsHexDigit(s[0]) then [s[0]] + HexPrefix(s[1..]) else []
  }

  lemma {:induction false} DigitPrefixOfDigits(s: string)
    requires AllDigits(s)
    ensures DigitPrefix(s) == s
  {
    if s != [] {
      DigitPrefixOfDigits(s[1..]);
    }
  }

  /** The magnitude `parseInt` reads after the sign: `0x`/`0X` and hexadecimal digits, or
      decimal digits; as many as there are, and `None` when there is none. */
  function Magnitude(u: string): Option<nat> {
    if |u| >= 2 && u[0] == '0' && (u[1] == 'x' || u[1] == 'X') then
      var h := HexPrefix(u[2..]);
      if h == [] then None else Some(HexValue(h))
    else
      var d := DigitPrefix(u);
      if d == [] then None else Some(DecimalValue(d))
  }

  lemma MagnitudeOfDigits(a: string)
    requires a != [] && AllDigits(a)
    ensures Magnitude(a) == Some(DecimalValue(a))
  {
    DigitPrefixOfDigits(a);
    assert |a| >= 2 ==> a[1] != 'x' && a[1] != 'X';
  }

  lemma MagnitudeWithoutDigits(u: string)
    requires forall i :: 0 <= i < |u| ==> !IsDigit(u[i])
    ensures Magnitude(u) == None
  {
    if u != [] {
      assert !IsDigit(u[0]);
    }
  }

  /** `parseInt(s)`: leading white space is skipped, then an optional sign, then the
      magnitude. No digit at all gives `NaN`, written `None`. The value is exact, where a
      JavaScript number rounds beyond 2^53. */
  function ParseInt(s: string): (r: Option<int>)
    ensures (forall i :: 0 <= i < |s| ==> !IsDigit(s[i])) ==> r == None
  {
    var t := TrimStart(s);
    var negative := t != [] && t[0] == '-';
    var u := if t != [] && (t[0] == '-' || t[0] == '+') then t[1..] else t;
    assert (forall i :: 0 <= i < |s| ==> !IsDigit(s[i])) ==> Magnitude(u) == None by {
      if forall i :: 0 <= i < |s| ==> !IsDigit(s[i]) {
        assert forall i :: 0 <= i < |u| ==> u[i] in s;
        MagnitudeWithoutDigits(u);
      }
    }
    match Magnitude(u)
    case None => None
    case Some(v) => Some(if negative then -(v as int) else v as int)
  }

  /** `parseInt` of a non-empty string of decimal digits is the number they denote. */
  lemma ParseIntOfDigits(a: string)
    requires a != [] && AllDigits(a)
    ensures ParseInt(a) == Some(DecimalValue(a) as int)
  {
    assert IsDigit(a[0]);
    assert !IsSpace(a[0]);
    assert TrimStart(a) == a;
    assert a[0] != '-' && a[0] != '+';
    MagnitudeOfDigits(a);
  }

  /** `parseInt` of a minus sign and decimal digits is the negated number. */
  lemma ParseIntOfNegativeDigits(a: string)
    requires a != [] && AllDigits(a)
    ensures ParseInt("-" + a) == Some(-(DecimalValue(a) as int))
  {
    var t := ['-'] + a;
    assert t[1..] == a;
    ParseIntOfMinus(t);
  }

  /** `parseInt` of a string that starts with `-` followed by decimal digits. */
  lemma ParseIntOfMinus(t: string)
    requires |t| >= 2 && t[0] == '-' && AllDigits(t[1..])
    ensures ParseInt(t) == Some(-(DecimalValue(t[1..]) as int))
  {
    assert !IsSpace(t[0]);
    assert TrimStart(t) == t;
    MagnitudeOfDigits(t[1..]);
  }

  /** `parseInt` reads back every integer `toString` writes, padded or not. In the page this
      holds for magnitudes below 2^53, where a JavaScript number is an exact integer and its
      text has no exponent. */
  lemma ParseIntPad2(n: int)
    ensures ParseInt(Pad2(n)) == Some(n)
  {
    if n < 0 {
      var a := NatToString(-n);
      assert Pad2(n) == "-" + a;
      ParseIntOfNegativeDigits(a);
    } else if n < 10 {
      var a := NatToString(n);
      assert Pad2(n) == "0" + a;
      DecimalValueLeadingZero(a);
      ParseIntOfDigits("0" + a);
    } else {
      var a := NatToString(n);
      assert Pad2(n) == a;
      ParseIntOfDigits(a);
    }
  }

  /** `parseInt(x) || 0`: `NaN` (and 0) become 0. */
  function OrZero(r: Option<int>): (n: int)
    ensures r.Some? ==> n == r.value
    ensures r.None? ==> n == 0
  {
    if r.Some? then r.value else 0
  }
}
