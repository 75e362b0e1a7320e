/** The ASCII tokens of src/Input.cpp as functions of the characters left to
    read: what each reader consumes and what it leaves. */
module Tokens {
  import opened Wrappers

  const LF: char := '\n'
  const CR: char := '\r'
  const NUL: char := '\0'
  const DXF_MAXLINELEN: nat := 4096

  /** isspace() in the C locale: space, and tab to carriage return. */
  predicate IsSpace(c: char) {
    c == ' ' || 9 <= c as int <= 13
  }

  predicate IsBlank(c: char) {
    IsSpace(c) && c != LF && c != CR
  }

  predicate IsDigit(c: char) {
    '0' <= c <= '9'
  }

  predicate IsHexDigit(c: char) {
    IsDigit(c) || 'a' <= c <= 'f' || 'A' <= c <= 'F'
  }

  function Head(s: string, c: char): bool {
    s != [] && s[0] == c
  }

  function SkipBlanks(s: string): (r: string)
    ensures |r| <= |s| && (r != [] ==> !IsBlank(r[0]))
  {
    if s != [] && IsBlank(s[0]) then SkipBlanks(s[1..]) else s
  }

  /** What follows a carriage return: more of them, then at most one line feed. */
  function AfterCR(s: string): (r: (bool, string))
    ensures |r.1| <= |s|
  {
    if s == [] then (false, [])
    else if s[0] == CR then AfterCR(s[1..])
    else (true, if s[0] == LF then s[1..] else s)
  }

  /** False when the characters end before the line does. */
  function NextLine(s: string): (r: (bool, string))
    ensures |r.1| <= |s| && (r.0 ==> |r.1| < |s|)
  {
    if s == [] then (false, [])
    else if s[0] == LF then (true, s[1..])
    else if s[0] == CR then AfterCR(s[1..])
    else NextLine(s[1..])
  }

  function TakeDigits(s: string, hex: bool): (r: (string, string))
    ensures s == r.0 + r.1
    ensures forall i :: 0 <= i < |r.0| ==> (if hex then IsHexDigit(r.0[i]) else IsDigit(r.0[i]))
  {
    if s != [] && (if hex then IsHexDigit(s[0]) else IsDigit(s[0])) then
      var (d, rest) := TakeDigits(s[1..], hex);
      ([s[0]] + d, rest)
    else ([], s)
  }

  /** The characters of an unsigned integer, or None: hexadecimal after 0x,
      else decimal digits. */
  function TakeUnsigned(s: string): (r: (Option<string>, string))
    ensures |r.1| <= |s| && (r.0.Some? ==> |r.1| < |s|)
  {
    if Head(s, '0') && Head(s[1..], 'x') then
      var (d, rest) := TakeDigits(s[2..], true);
      (if d == [] then None else Some("0x" + d), rest)
    else
      var (d, rest) := TakeDigits(s, false);
      (if d == [] then None else Some(d), rest)
  }

  function TakeInteger(s: string): (r: (Option<string>, string))
    ensures |r.1| <= |s| && (r.0.Some? ==> |r.1| < |s|)
  {
    if Head(s, '-') || Head(s, '+') then
      var (d, rest) := TakeUnsigned(s[1..]);
      (if d.None? then None else Some([s[0]] + d.value), rest)
    else TakeUnsigned(s)
  }

  // ----- strtol(str, NULL, 0) -----

  function DigitValue(c: char): int {
    if IsDigit(c) then c as int - '0' as int
    else if 'a' <= c <= 'f' then c as int - 'a' as int + 10
    else if 'A' <= c <= 'F' then c as int - 'A' as int + 10
    else 16
  }

  /** The value of the longest prefix made of digits of the base. */
  function BaseValue(s: string, base: int, acc: int): int {
    if s != [] && DigitValue(s[0]) < base then BaseValue(s[1..], base, acc * base + DigitValue(s[0])) else acc
  }

  function UnsignedValue(s: string): int {
    if Head(s, '0') && |s| > 1 && s[1] == 'x' then BaseValue(s[2..], 16, 0)
    else if Head(s, '0') then BaseValue(s, 8, 0)
    else BaseValue(s, 10, 0)
  }

  /** A 64-bit long, saturated. */
  function StrToL(s: string): int {
    var v := if Head(s, '-') then -UnsignedValue(s[1..])
             else if Head(s, '+') then UnsignedValue(s[1..])
             else UnsignedValue(s);
    if v > 0x7fff_ffff_ffff_ffff then 0x7fff_ffff_ffff_ffff
    else if v < -0x8000_0000_0000_0000 then -0x8000_0000_0000_0000
    else v
  }

  /** sscanf(str, "%x") into an int, by the C standard: the value of the
      hexadecimal digits, as far as they go, or None when there are none. */
  function ScanHex(s: string): Option<int> {
    var (sign, s1) := SplitSign(s);
    var s2 := if |s1| > 1 && s1[0] == '0' && (s1[1] == 'x' || s1[1] == 'X') then s1[2..] else s1;
    var d := TakeDigits(s2, true).0;
    var v := BaseValue(d, 16, 0);
    if d == [] then None
    else Some(ToInt32(if v > 0xffff_ffff_ffff_ffff then 0xffff_ffff_ffff_ffff else if sign == "-" then -v else v))
  }

  /** Assigning a long to an int32. */
  function ToInt32(v: int): (r: int)
    ensures -0x8000_0000 <= r < 0x8000_0000 && (r == v <==> -0x8000_0000 <= v < 0x8000_0000)
  {
    (v + 0x8000_0000) % 0x1_0000_0000 - 0x8000_0000
  }

  /** Assigning an int to an int16. */
  function ToInt16(v: int): (r: int)
    ensures -0x8000 <= r < 0x8000 && (r == v <==> -0x8000 <= v < 0x8000)
  {
    (v + 0x8000) % 0x1_0000 - 0x8000
  }

  // ----- the readers -----

  datatype Width = W8 | W16 | W32

  function Lowest(w: Width): int {
    match w case W8 => -128 case W16 => -32768 case W32 => -0x8000_0000
  }

  predicate Fits(w: Width, v: int) {
    Lowest(w) <= v < -Lowest(w)
  }

  /** The answer, the value if one was stored, and the characters left. A value
      can be stored and the answer still be false: when the line has no end. */
  datatype IntRead = IntRead(ok: bool, val: Option<int>, rest: string)

  function ReadInt(s: string, w: Width): (r: IntRead)
    ensures r.ok ==> r.val.Some? && |r.rest| < |s|
    ensures |r.rest| <= |s|
  {
    var s1 := SkipBlanks(s);
    var (t, s2) := TakeInteger(s1);
    if t.None? then IntRead(false, None, s2)
    else
      var v := StrToL(t.value);
      if !w.W32? && !Fits(w, v) then IntRead(false, None, s2)
      else
        var (ok, s3) := NextLine(s2);
        IntRead(ok, Some(if w.W32? then ToInt32(v) else v), s3)
  }

  /** The characters of a line, at most room of them; a NUL ends the string and
      is consumed, and so is the first character beyond the room. */
  function TakeLine(s: string, room: nat): (r: (string, string))
    ensures |r.1| <= |s| && |r.0| <= room
    ensures LF !in r.0 && CR !in r.0 && NUL !in r.0
    ensures r.0 != [] ==> s != [] && r.0[0] == s[0]
  {
    if s == [] then ([], [])
    else if s[0] == LF || s[0] == CR then ([], s)
    else if s[0] == NUL || room == 0 then ([], s[1..])
    else
      var (l, rest) := TakeLine(s[1..], room - 1);
      ([s[0]] + l, rest)
  }

  function ReadString(s: string): (r: (Option<string>, string))
    ensures |r.1| <= |s|
  {
    var s1 := SkipBlanks(s);
    if s1 == [] then (None, [])
    else
      var (l, s2) := TakeLine(s1, DXF_MAXLINELEN);
      (Some(l), NextLine(s2).1)
  }

  function SplitSign(s: string): (string, string) {
    if Head(s, '-') || Head(s, '+') then (s[..1], s[1..]) else ([], s)
  }

  function TakeMantissa(s: string): (r: (Option<string>, string))
    ensures |r.1| <= |s|
  {
    var (sign, s1) := SplitSign(s);
    var (d1, s2) := TakeDigits(s1, false);
    var (dot, s3) := if Head(s2, '.') then (s2[..1], s2[1..]) else ([], s2);
    var (d2, s4) := if dot == [] then ([], s3) else TakeDigits(s3, false);
    (if d1 == [] && d2 == [] then None else Some(sign + d1 + dot + d2), s4)
  }

  function TakeExponent(s: string): (r: (Option<string>, string))
    ensures |r.1| <= |s|
  {
    var (sign, s1) := SplitSign(s);
    var (d, s2) := TakeDigits(s1, false);
    (if d == [] then None else Some(sign + d), s2)
  }

  /** The spelling of a number: what readReal collects and hands to atof. */
  function TakeReal(s: string): (r: (Option<string>, string))
    ensures |r.1| <= |s|
  {
    var (m, s1) := TakeMantissa(s);
    if m.None? || !(Head(s1, 'e') || Head(s1, 'E')) then (m, s1)
    else
      var (t, s2) := TakeExponent(s1[1..]);
      (if t.None? then None else Some(m.value + s1[..1] + t.value), s2)
  }

  datatype RealRead = RealRead(ok: bool, text: Option<string>, rest: string)

  function ReadReal(s: string): (r: RealRead)
    ensures |r.rest| <= |s|
  {
    var s1 := SkipBlanks(s);
    var (t, s2) := TakeReal(s1);
    if s1 == [] || t.None? then RealRead(false, None, s2)
    else
      var (ok, s3) := NextLine(s2);
      RealRead(ok, t, s3)
  }

  // ----- group codes -----

  const COMMENT: int := 999

  /** A group code, skipping comments (group code 999 and its string). */
  function CodeAfterComments(s: string): (r: (bool, Option<int>, string))
    ensures |r.2| <= |s| && (r.0 ==> |r.2| < |s| && r.1.Some? && r.1 != Some(COMMENT))
    decreases |s|
  {
    var r := ReadInt(s, W32);
    if r.ok && r.val == Some(COMMENT) then CodeAfterComments(ReadString(r.rest).1)
    else (r.ok, r.val, r.rest)
  }
}
