/** The numerals fprintf writes, and what the tokens of the reader make of them. */
module Numbers {
  import opened Wrappers
  import opened Tokens

  function DigitChar(d: nat): (c: char)
    requires d < 16
    ensures DigitValue(c) == d && (d < 10 <==> IsDigit(c)) && IsHexDigit(c) && !IsSpace(c) && c != NUL
  {
    if d < 10 then '0' + d as char else 'a' + (d - 10) as char
  }

  /** Without leading zeros. */
  function Numeral(n: nat, base: nat): (s: string)
    requires base == 10 || base == 16
    ensures s != []
  {
    if n < base then [DigitChar(n)] else Numeral(n / base, base) + [DigitChar(n % base)]
  }

  /** %d */
  function Decimal(v: int): string {
    if v < 0 then ['-'] + Numeral(-v, 10) else Numeral(v, 10)
  }

  function Spaces(n: nat): (s: string)
    ensures |s| == n && forall i :: 0 <= i < n ==> s[i] == ' '
  {
    if n == 0 then [] else [' '] + Spaces(n - 1)
  }

  /** %3d and %6d: right-justified, and longer when need be. */
  function Padded(v: int, width: nat): string {
    var d := Decimal(v);
    Spaces(if |d| < width then width - |d| else 0) + d
  }

  predicate AllDigits(s: string, base: nat) {
    forall i :: 0 <= i < |s| ==>
      DigitValue(s[i]) < base && (if base == 10 then IsDigit(s[i]) else IsHexDigit(s[i])) && s[i] != NUL
  }

  lemma Divide(n: nat, base: nat) returns (front: nat, last: nat)
    requires base == 10 || base == 16
    ensures front == n / base && last == n % base && last < base && front * base + last == n
    ensures n < base ==> front == 0 && last == n
    ensures n >= base ==> 0 < front < n
  {
    if base == 10 {
      front, last := n / 10, n % 10;
    } else {
      front, last := n / 16, n % 16;
    }
  }

  lemma NumeralStep(n: nat, base: nat) returns (front: nat, last: nat)
    requires base == 10 || base == 16
    ensures last < base && front * base + last == n
    ensures n < base ==> front == 0 && last == n && Numeral(n, base) == [DigitChar(n)]
    ensures n >= base ==> 0 < front < n && Numeral(n, base) == Numeral(front, base) + [DigitChar(last)]
  {
    hide DigitChar;
    front, last := Divide(n, base);
  }

  lemma {:induction false} NumeralDigits(n: nat, base: nat)
    requires base == 10 || base == 16
    ensures AllDigits(Numeral(n, base), base)
    ensures n == 0 <==> Numeral(n, base)[0] == '0'
    ensures n == 0 ==> Numeral(n, base) == "0"
  {
    hide Numeral;
    var q, d := NumeralStep(n, base);
    if n >= base {
      NumeralDigits(q, base);
    } else {
      assert DigitChar(n) == '0' <==> n == 0;
    }
  }

  lemma {:induction false} BaseValueAppend(s: string, c: char, base: nat, acc: int)
    requires forall i :: 0 <= i < |s| ==> DigitValue(s[i]) < base
    requires DigitValue(c) < base
    ensures BaseValue(s + [c], base, acc) == BaseValue(s, base, acc) * base + DigitValue(c)
  {
    if s == [] {
      assert BaseValue([c], base, acc) == BaseValue([c][1..], base, acc * base + DigitValue(c));
    } else {
      assert (s + [c])[1..] == s[1..] + [c];
      BaseValueAppend(s[1..], c, base, acc * base + DigitValue(s[0]));
    }
  }

  /** Reading the digits in their own base gives back the number. */
  lemma {:induction false} NumeralValue(n: nat, base: nat)
    requires base == 10 || base == 16
    ensures BaseValue(Numeral(n, base), base, 0) == n
  {
    hide Numeral, DigitChar;
    var q, d := NumeralStep(n, base);
    if n >= base {
      NumeralValue(q, base);
      NumeralDigits(q, base);
      BaseValueAppend(Numeral(q, base), DigitChar(d), base, 0);
    } else {
      BaseValueAppend([], DigitChar(d), base, 0);
      assert [] + [DigitChar(d)] == [DigitChar(d)];
    }
  }

  /** strtol with base detection: no numeral of fprintf looks octal or
      hexadecimal, so it is read as the decimal it is, or the nearest long. */
  lemma DecimalValue(v: int)
    ensures StrToL(Decimal(v)) == Nearest(v)
  {
    var n := if v < 0 then -v else v;
    var s := Numeral(n, 10);
    NumeralDigits(n, 10);
    NumeralValue(n, 10);
    assert v < 0 ==> Decimal(v)[1..] == s;
    assert UnsignedValue(s) == n by {
      if n == 0 {
        assert BaseValue("0", 8, 0) == BaseValue("0"[1..], 8, 0);
      }
    }
  }

  function Nearest(v: int): int {
    if v < -9223372036854775808 then -9223372036854775808
    else if v > 9223372036854775807 then 9223372036854775807 else v
  }

  lemma {:induction false} TakeDigitsLocal(d: string, t: string)
    requires forall i :: 0 <= i < |d| ==> IsDigit(d[i])
    requires t == [] || !IsDigit(t[0])
    ensures TakeDigits(d + t, false) == (d, t)
  {
    if d == [] {
      assert d + t == t;
    } else {
      assert (d + t)[1..] == d[1..] + t;
      TakeDigitsLocal(d[1..], t);
      assert [d[0]] + d[1..] == d;
    }
  }

  lemma TakeUnsignedNumeral(n: nat, t: string)
    requires t != [] && t[0] == LF
    ensures TakeUnsigned(Numeral(n, 10) + t) == (Some(Numeral(n, 10)), t)
  {
    var d := Numeral(n, 10);
    NumeralDigits(n, 10);
    TakeDigitsLocal(d, t);
    assert n == 0 ==> (d + t)[1..] == t;
  }

  lemma TakeIntegerDecimal(v: int, t: string)
    requires t != [] && t[0] == LF
    ensures TakeInteger(Decimal(v) + t) == (Some(Decimal(v)), t)
  {
    hide TakeUnsigned;
    if v < 0 {
      assert (Decimal(v) + t)[1..] == Numeral(-v, 10) + t;
      TakeUnsignedNumeral(-v, t);
    } else {
      NumeralDigits(v, 10);
      TakeUnsignedNumeral(v, t);
    }
  }

  lemma {:induction false} SkipSpaces(n: nat, s: string)
    requires s != [] && !IsBlank(s[0])
    ensures SkipBlanks(Spaces(n) + s) == s
  {
    if n == 0 {
      assert Spaces(0) + s == s;
    } else {
      assert (Spaces(n) + s)[1..] == Spaces(n - 1) + s;
      SkipSpaces(n - 1, s);
    }
  }

  lemma DecimalStart(v: int)
    ensures Decimal(v) != [] && !IsBlank(Decimal(v)[0])
  {
    NumeralDigits(if v < 0 then -v else v, 10);
  }

  lemma SkipPadding(v: int, width: nat, t: string)
    ensures SkipBlanks(Padded(v, width) + t) == Decimal(v) + t
  {
    hide Decimal;
    var d := Decimal(v);
    DecimalStart(v);
    var n: nat := if |d| < width then width - |d| else 0;
    assert Padded(v, width) + t == Spaces(n) + (d + t);
    SkipSpaces(n, d + t);
  }

  /** A right-justified number on a line of its own is read back. */
  lemma ReadPadded(v: int, width: nat, w: Width, t: string)
    requires Fits(w, v)
    ensures ReadInt(Padded(v, width) + [LF] + t, w) == IntRead(true, Some(v), t)
  {
    hide Decimal, Padded, StrToL, TakeInteger, SkipBlanks;
    var line := [LF] + t;
    assert Padded(v, width) + [LF] + t == Padded(v, width) + line;
    SkipPadding(v, width, line);
    TakeIntegerDecimal(v, line);
    DecimalValue(v);
    assert line[1..] == t;
  }

  // ----- strings -----

  /** The strings that survive a line of the file. */
  predicate Readable(s: string) {
    && LF !in s && CR !in s && NUL !in s
    && |s| <= DXF_MAXLINELEN
    && (s != [] ==> !IsBlank(s[0]))
  }

  lemma {:induction false} TakeLineWhole(s: string, t: string, room: nat)
    requires LF !in s && CR !in s && NUL !in s && |s| <= room
    ensures TakeLine(s + [LF] + t, room) == (s, [LF] + t)
  {
    if s == [] {
      assert s + [LF] + t == [LF] + t;
    } else {
      assert (s + [LF] + t)[1..] == s[1..] + [LF] + t;
      TakeLineWhole(s[1..], t, room - 1);
      assert [s[0]] + s[1..] == s;
    }
  }

  /** The next line of s fits the line buffer, with the NUL that is put behind it. */
  predicate FitsLineBuffer(s: string) {
    |TakeLine(SkipBlanks(s), DXF_MAXLINELEN).0| + 1 <= DXF_MAXLINELEN
  }

  /** Exactly the readable strings come back from a line of their own, and
      exactly the longest of them, of 4096 characters, have no room for their
      NUL. */
  lemma StringSurvives(s: string, t: string)
    ensures ReadString(s + [LF] + t) == (Some(s), t) <==> Readable(s)
    ensures Readable(s) ==> (FitsLineBuffer(s + [LF] + t) <==> |s| < DXF_MAXLINELEN)
  {
    var line := s + [LF] + t;
    if Readable(s) {
      TakeLineWhole(s, t, DXF_MAXLINELEN);
      assert ([LF] + t)[1..] == t;
      assert SkipBlanks(line) == line;
    }
  }

  /** A string that starts with a blank loses it. */
  lemma LeadingBlankIsLost()
    ensures ReadString(" a" + [LF]) != (Some(" a"), [])
  {
    hide ReadString;
    assert !Readable(" a") by {
      assert IsBlank(" a"[0]);
    }
    StringSurvives(" a", []);
    assert " a" + [LF] + [] == " a" + [LF];
  }

  /** A string of 4096 characters comes back without room for its NUL. */
  lemma LongestLineOverruns()
    ensures var s := seq(DXF_MAXLINELEN, _ => 'a');
      ReadString(s + [LF]) == (Some(s), []) && !FitsLineBuffer(s + [LF])
  {
    hide ReadString, FitsLineBuffer;
    var s := seq(DXF_MAXLINELEN, _ => 'a');
    StringSurvives(s, []);
    assert s + [LF] + [] == s + [LF];
  }
}
