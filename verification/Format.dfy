/** The text of a DXF file in its own characters and codes: what lines are read
    as and printed as, without the functions that the reader and the writer
    share. */
module Format {
  import opened Wrappers
  import opened Tokens
  import opened Numbers
  import opened Reals
  import opened Records
  import opened Document

  // ----- group codes -----

  predicate IsRealCode(code: int) {
    10 <= code <= 59 || 140 <= code <= 147 || code == 210 || code == 220 || code == 230
  }

  predicate IsInt8Code(code: int) {
    270 <= code <= 275 || 280 <= code <= 289
  }

  predicate IsInt16Code(code: int) {
    60 <= code <= 79 || 170 <= code <= 178 || 1060 <= code <= 1070
  }

  predicate IsInt32Code(code: int) {
    90 <= code <= 99 || code == 1071
  }

  /** The numbers of a group code that holds integers. */
  predicate IsWithin(code: int, v: int) {
    if IsInt8Code(code) then -128 <= v <= 127
    else if IsInt16Code(code) then -32768 <= v <= 32767
    else -2147483648 <= v <= 2147483647
  }

  /** What the reader makes of the line behind a group code: a real number. */
  lemma RealCodes(code: int, d: string, t: string)
    requires IsRealCode(code) && IsReal(d)
    ensures ReadValue(code, d + [LF] + t) == ValueRead(true, Some(Spelling(d)), t)
  {
    hide ReadReal, IsReal;
    ReadRealLine(d, t);
  }

  /** An integer of one of three widths; one that is too wide for 8 or 16 bits is
      not stored, and its line is left unfinished; one that is too wide for 32 bits
      is cut off, or if it is too wide for 64, -1 or 0. */
  lemma IntegerCodes(code: int, v: int, width: nat, t: string)
    requires IsInt8Code(code) || IsInt16Code(code) || IsInt32Code(code)
    ensures var r := ReadValue(code, Padded(v, width) + [LF] + t);
      if IsWithin(code, v) then r == ValueRead(true, Some(Number(v)), t)
      else if IsInt32Code(code) then r.ok && r.rest == t && IsCut(r.value, v)
      else r == ValueRead(false, Some(Number(0)), [LF] + t)
  {
    IntegerTypes(code);
    LongIsCut(v);
    hide Padded, ReadInt, TypeOf, ToInt32;
    IntegerLine(v, width, WidthOf(TypeOf(code)), t);
  }

  /** What is left of a number in 32 bits. */
  predicate IsCut(x: Option<Value>, v: int) {
    && x.Some? && x.value.Number?
    && if v > 9223372036854775807 then x.value.number == -1
       else if v < -9223372036854775808 then x.value.number == 0
       else (x.value.number - v) % 0x1_0000_0000 == 0
  }

  lemma LongIsCut(v: int)
    ensures IsCut(Some(Number(ToInt32(Nearest(v)))), v)
  {
    IntsAreCut(v);
  }

  lemma IntegerTypes(code: int)
    requires IsInt8Code(code) || IsInt16Code(code) || IsInt32Code(code)
    ensures TypeOf(code) == if IsInt8Code(code) then Int8Type else if IsInt16Code(code) then Int16Type else Int32Type
  {
  }

  lemma IntegerLine(v: int, width: nat, w: Width, t: string)
    ensures ReadInt(Padded(v, width) + [LF] + t, w)
         == if w.W32? then IntRead(true, Some(ToInt32(Nearest(v))), t)
            else if Fits(w, v) then IntRead(true, Some(v), t)
            else IntRead(false, None, [LF] + t)
  {
    hide Decimal, Padded, StrToL, TakeInteger, SkipBlanks;
    var line := [LF] + t;
    assert Padded(v, width) + [LF] + t == Padded(v, width) + line;
    SkipPadding(v, width, line);
    TakeIntegerDecimal(v, line);
    DecimalValue(v);
    NearestFits(v, w);
    hide Nearest;
    assert line[1..] == t;
  }

  lemma NearestFits(v: int, w: Width)
    ensures Fits(w, Nearest(v)) <==> Fits(w, v)
    ensures Fits(w, v) ==> Nearest(v) == v
  {
  }

  /** All other group codes hold strings; only those from 310 to 369 are in
      hexadecimal. */
  lemma TextCodes(code: int, s: string, t: string)
    requires !IsRealCode(code) && !IsInt8Code(code) && !IsInt16Code(code) && !IsInt32Code(code) && Readable(s)
    ensures ReadValue(code, s + [LF] + t) == ValueRead(true, Some(Text(s)), t)
    ensures TypeOf(code) == if 310 <= code <= 369 then HexType else StringType
  {
    hide ReadString, Readable;
    StringSurvives(s, t);
  }

  // ----- strings -----

  /** Exactly these strings come back from their lines. */
  lemma StringLines(s: string, t: string)
    ensures ReadString(s + ['\n'] + t) == (Some(s), t)
       <==> '\n' !in s && '\r' !in s && '\0' !in s && |s| <= 4096
            && (s != [] ==> s[0] != ' ' && s[0] != '\t' && s[0] as int != 11 && s[0] as int != 12)
  {
    hide ReadString;
    StringSurvives(s, t);
  }

  // ----- integers -----

  /** A digit, in one of its two spellings. */
  predicate IsDigitOf(c: char, d: int) {
    0 <= d < 16 && (c == "0123456789abcdef"[d] || c == "0123456789ABCDEF"[d])
  }

  lemma DigitIs(c: char, d: int)
    requires IsDigitOf(c, d)
    ensures DigitValue(c) == d && IsHexDigit(c) && (d < 10 <==> IsDigit(c))
  {
    assert "0123456789abcdef"[d] == if d < 10 then '0' + d as char else 'a' + (d - 10) as char;
    assert "0123456789ABCDEF"[d] == if d < 10 then '0' + d as char else 'A' + (d - 10) as char;
  }

  /** There are no other digits. */
  lemma DigitChars(c: char)
    ensures IsHexDigit(c) <==> c in "0123456789abcdefABCDEF"
    ensures IsDigit(c) <==> c in "0123456789"
  {
    DecimalChars(c);
    LetterChars(c);
    assert "0123456789" + "abcdefABCDEF" == "0123456789abcdefABCDEF";
    assert c in "0123456789" + "abcdefABCDEF" <==> c in "0123456789" || c in "abcdefABCDEF";
  }

  lemma DecimalChars(c: char)
    ensures IsDigit(c) <==> c in "0123456789"
  {
    if IsDigit(c) {
      assert "0123456789"[c as int - '0' as int] == c;
    }
  }

  lemma LetterChars(c: char)
    ensures 'a' <= c <= 'f' || 'A' <= c <= 'F' <==> c in "abcdefABCDEF"
  {
    if 'a' <= c <= 'f' {
      assert "abcdefABCDEF"[c as int - 'a' as int] == c;
    } else if 'A' <= c <= 'F' {
      assert "abcdefABCDEF"[6 + (c as int - 'A' as int)] == c;
    }
  }

  /** The digits ds in a base, the first one weighing most. */
  function Weighted(ds: seq<int>, base: nat): int {
    if ds == [] then 0 else Weighted(ds[..|ds| - 1], base) * base + ds[|ds| - 1]
  }

  predicate Spells(s: string, ds: seq<int>, base: nat) {
    |s| == |ds| && forall i :: 0 <= i < |s| ==> IsDigitOf(s[i], ds[i]) && ds[i] < base
  }

  lemma SpelledDigits(s: string, ds: seq<int>, base: nat)
    requires Spells(s, ds, base) && base <= 16
    ensures forall i :: 0 <= i < |s| ==> DigitValue(s[i]) == ds[i] < base && ds[i] >= 0 && IsHexDigit(s[i])
    ensures base <= 10 ==> forall i :: 0 <= i < |s| ==> IsDigit(s[i])
  {
    forall i | 0 <= i < |s|
      ensures DigitValue(s[i]) == ds[i] && ds[i] >= 0 && IsHexDigit(s[i]) && (ds[i] < 10 <==> IsDigit(s[i]))
    {
      DigitIs(s[i], ds[i]);
    }
  }

  lemma {:induction false} SpelledValue(s: string, ds: seq<int>, base: nat)
    requires Spells(s, ds, base) && base <= 16
    ensures BaseValue(s, base, 0) == Weighted(ds, base) && Weighted(ds, base) >= 0
  {
    SpelledDigits(s, ds, base);
    if s != [] {
      var n := |s| - 1;
      SpelledValue(s[..n], ds[..n], base);
      NotNegative(Weighted(ds[..n], base), base);
      assert Weighted(ds, base) == Weighted(ds[..n], base) * base + ds[n];
      hide DigitValue, IsDigitOf, Weighted, Spells;
      BaseValueAppend(s[..n], s[n], base, 0);
      hide BaseValue;
      assert s == s[..n] + [s[n]];
    }
  }

  lemma NotNegative(x: int, base: nat)
    requires x >= 0
    ensures x * base >= 0
  {
  }

  lemma {:induction false} TakesAllDigits(s: string, hex: bool, t: string)
    requires forall i :: 0 <= i < |s| ==> if hex then IsHexDigit(s[i]) else IsDigit(s[i])
    requires t == [] || !if hex then IsHexDigit(t[0]) else IsDigit(t[0])
    ensures TakeDigits(s + t, hex) == (s, t)
  {
    if s == [] {
      assert s + t == t;
    } else {
      assert (s + t)[1..] == s[1..] + t;
      TakesAllDigits(s[1..], hex, t);
      assert [s[0]] + s[1..] == s;
    }
  }

  /** A line of digits behind 0x is read in base 16, and one of octal digits
      behind 0 in base 8. */
  lemma OtherBases(s: string, ds: seq<int>, t: string)
    ensures Spells(s, ds, 16) && s != [] && Weighted(ds, 16) < 0x8000_0000 ==>
      ReadInt("0x" + s + [LF] + t, W32) == IntRead(true, Some(Weighted(ds, 16)), t)
    ensures Spells(s, ds, 8) && Weighted(ds, 8) < 0x8000_0000 ==>
      ReadInt("0" + s + [LF] + t, W32) == IntRead(true, Some(Weighted(ds, 8)), t)
  {
    if Spells(s, ds, 16) && s != [] && Weighted(ds, 16) < 0x8000_0000 {
      HexLine(s, ds, t);
    }
    if Spells(s, ds, 8) && Weighted(ds, 8) < 0x8000_0000 {
      OctalLine(s, ds, t);
    }
  }

  /** An 8 or a 9 ends a number that starts with 0. */
  lemma OctalStops(s: string, ds: seq<int>, c: char, u: string)
    requires Spells(s, ds, 8) && (c == '8' || c == '9')
    ensures StrToL("0" + s + [c] + u) == Nearest(Weighted(ds, 8))
    ensures StrToL("-0" + s + [c] + u) == Nearest(-Weighted(ds, 8))
  {
    var all := "0" + s + [c] + u;
    OctalValue(s, ds, c, u);
    assert ("-0" + s + [c] + u)[1..] == all;
    hide Weighted, Spells, BaseValue, UnsignedValue;
  }

  lemma OctalValue(s: string, ds: seq<int>, c: char, u: string)
    requires Spells(s, ds, 8) && (c == '8' || c == '9')
    ensures UnsignedValue("0" + s + [c] + u) == Weighted(ds, 8)
  {
    var all := "0" + s + [c] + u;
    NoX(s, ds);
    SpelledStops(s, ds, 8, [c] + u, 0);
    SpelledValue(s, ds, 8);
    assert all[1..] == s + ([c] + u);
    hide Weighted, Spells, BaseValue;
    FirstZero(all);
  }

  lemma FirstZero(all: string)
    requires all != [] && all[0] == '0'
    ensures BaseValue(all, 8, 0) == BaseValue(all[1..], 8, 0)
  {
  }

  lemma {:induction false} SpelledStops(s: string, ds: seq<int>, base: nat, u: string, acc: int)
    requires Spells(s, ds, base) && base <= 16 && (u == [] || DigitValue(u[0]) >= base)
    ensures BaseValue(s + u, base, acc) == BaseValue(s, base, acc)
  {
    SpelledDigits(s, ds, base);
    if s == [] {
      assert s + u == u;
    } else {
      assert (s + u)[1..] == s[1..] + u;
      SpelledStops(s[1..], ds[1..], base, u, acc * base + DigitValue(s[0]));
    }
  }

  /** A line of digits that are taken as a whole. */
  lemma NumberLine(u: string, n: int, t: string)
    requires u != [] && IsDigit(u[0]) && TakeUnsigned(u + ([LF] + t)) == (Some(u), [LF] + t)
    requires UnsignedValue(u) == n && 0 <= n < 0x8000_0000
    ensures ReadInt(u + [LF] + t, W32) == IntRead(true, Some(n), t)
  {
    hide TakeUnsigned, UnsignedValue;
    var line := [LF] + t;
    assert u + [LF] + t == u + line;
    assert SkipBlanks(u + line) == u + line;
    assert line[1..] == t;
  }

  lemma HexLine(s: string, ds: seq<int>, t: string)
    requires Spells(s, ds, 16) && s != [] && Weighted(ds, 16) < 0x8000_0000
    ensures ReadInt("0x" + s + [LF] + t, W32) == IntRead(true, Some(Weighted(ds, 16)), t)
  {
    var line := [LF] + t;
    SpelledDigits(s, ds, 16);
    TakesAllDigits(s, true, line);
    SpelledValue(s, ds, 16);
    hide *;
    HexToken(s, line);
    HexNumber(s);
    NumberLine("0x" + s, Weighted(ds, 16), t);
  }

  lemma HexToken(s: string, line: string)
    requires s != [] && TakeDigits(s + line, true) == (s, line)
    ensures TakeUnsigned("0x" + s + line) == (Some("0x" + s), line)
  {
    hide TakeDigits;
    var all := "0x" + s + line;
    assert all == "0x" + (s + line);
    assert all[2..] == s + line && all[1..] == "x" + (s + line);
  }

  lemma HexNumber(s: string)
    ensures UnsignedValue("0x" + s) == BaseValue(s, 16, 0)
    ensures ("0x" + s) != [] && IsDigit(("0x" + s)[0])
  {
    hide BaseValue;
    assert ("0x" + s)[2..] == s;
  }

  lemma OctalLine(s: string, ds: seq<int>, t: string)
    requires Spells(s, ds, 8) && Weighted(ds, 8) < 0x8000_0000
    ensures ReadInt("0" + s + [LF] + t, W32) == IntRead(true, Some(Weighted(ds, 8)), t)
  {
    var line, u := [LF] + t, "0" + s;
    SpelledDigits(s, ds, 8);
    SpelledValue(s, ds, 8);
    NoX(s, ds);
    OctalDigits(u, s);
    hide DigitValue, Spells, Weighted;
    TakesAllDigits(u, false, line);
    hide TakeDigits, BaseValue;
    var all := u + line;
    assert all[0] == '0' && all[1..] == s + line;
    assert TakeUnsigned(all) == (Some(u), line);
    assert UnsignedValue(u) == BaseValue(u, 8, 0);
    hide TakeUnsigned, UnsignedValue;
    NumberLine(u, Weighted(ds, 8), t);
  }

  lemma OctalDigits(u: string, s: string)
    requires u == "0" + s && forall i :: 0 <= i < |s| ==> IsDigit(s[i])
    ensures BaseValue(u, 8, 0) == BaseValue(s, 8, 0) && forall i :: 0 <= i < |u| ==> IsDigit(u[i])
  {
    assert u[1..] == s;
    assert DigitValue(u[0]) == 0;
  }

  lemma NoX(s: string, ds: seq<int>)
    requires Spells(s, ds, 8)
    ensures s != [] ==> s[0] != 'x'
  {
    SpelledDigits(s, ds, 8);
  }

  /** Assigning an int to a narrower one cuts off its upper bits. */
  lemma IntsAreCut(v: int)
    ensures (ToInt16(v) - v) % 0x1_0000 == 0 && -0x8000 <= ToInt16(v) <= 0x7fff
    ensures (ToInt32(v) - v) % 0x1_0000_0000 == 0 && -0x8000_0000 <= ToInt32(v) <= 0x7fff_ffff
  {
  }

  // ----- what is printed -----

  lemma {:induction false} OneDigit(d: nat, base: nat)
    requires base == 10 || base == 16
    requires d < base
    ensures Numeral(d, base) == ["0123456789abcdef"[d]]
  {
  }

  lemma DigitMore(n: nat, d: nat, base: nat)
    requires (base == 10 || base == 16) && n > 0 && d < base
    ensures Numeral(n * base + d, base) == Numeral(n, base) + ["0123456789abcdef"[d]]
  {
    var m := n * base + d;
    assert m / base == n && m % base == d;
  }

  /** Group codes take three columns and integers six, right-justified, and
      longer ones what they need. */
  lemma PrintedWidths(v: int, t: string)
    ensures PrintCode(v)[|PrintCode(v)| - 1] == '\n' && |PrintCode(v)| >= 4
    ensures |Decimal(v)| <= 3 ==> |PrintCode(v)| == 4
    ensures |Decimal(v)| <= 6 ==> |PrintValue(Number(v))| == 7
    ensures |Decimal(v)| > 3 ==> PrintCode(v) == Decimal(v) + ['\n']
    ensures |Decimal(v)| > 6 ==> PrintValue(Number(v)) == Decimal(v) + ['\n']
  {
    assert Spaces(0) == [];
  }

  lemma SomeCodes()
    ensures PrintCode(0) == "  0\n" && PrintCode(2) == "  2\n" && PrintCode(9) == "  9\n" && PrintCode(1) == "  1\n"
    ensures PrintCode(62) == " 62\n" && PrintCode(70) == " 70\n" && PrintCode(999) == "999\n"
    ensures PrintValue(Number(7)) == "     7\n" && PrintValue(Number(1)) == "     1\n"
  {
    SomeNumerals();
    SomeSpaces();
    hide Numeral, Spaces;
  }

  lemma SomeNumerals()
    ensures Numeral(0, 10) == "0" && Numeral(1, 10) == "1" && Numeral(2, 10) == "2" && Numeral(9, 10) == "9"
    ensures Numeral(7, 10) == "7" && Numeral(62, 10) == "62" && Numeral(70, 10) == "70" && Numeral(999, 10) == "999"
    ensures Numeral(0xa0f, 16) == "a0f"
  {
    hide Numeral;
    OneDigit(0, 10);
    OneDigit(1, 10);
    OneDigit(2, 10);
    OneDigit(6, 10);
    OneDigit(7, 10);
    OneDigit(9, 10);
    DigitMore(6, 2, 10);
    DigitMore(7, 0, 10);
    DigitMore(9, 9, 10);
    DigitMore(99, 9, 10);
    OneDigit(10, 16);
    DigitMore(10, 0, 16);
    DigitMore(0xa0, 15, 16);
  }

  lemma SomeSpaces()
    ensures Spaces(0) == "" && Spaces(1) == " " && Spaces(2) == "  " && Spaces(5) == "     "
  {
    assert Spaces(3) == "   " && Spaces(4) == "    ";
  }

  /** A line with the group code 999 and the one behind it are no records. */
  lemma CommentLines(comment: string, t: string)
    requires Readable(comment)
    ensures CodeAfterComments("999\n" + comment + "\n" + t) == CodeAfterComments(t)
  {
    SomeCodes();
    hide CodeAfterComments, Readable, PrintCode;
    assert "999\n" + comment + "\n" + t == PrintCode(999) + Line(comment) + t;
    CommentIsSkipped(comment, t);
  }

  // ----- a whole file -----

  const SAMPLE: seq<Section> := [
    Header([Record(9, Text("$ACADVER")), Record(1, Text("AC1009"))]),
    Tables([Table(None, [], [Layer(Some("W"), 7, [])])])]

  /** A file of these lines. */
  function Lines(ls: seq<string>): string {
    if ls == [] then [] else Line(ls[0]) + Lines(ls[1..])
  }

  lemma {:induction false} LinesAppend(a: seq<string>, b: seq<string>)
    ensures Lines(a + b) == Lines(a) + Lines(b)
  {
    hide Line;
    if a == [] {
      assert a + b == b;
    } else {
      assert (a + b)[1..] == a[1..] + b;
      LinesAppend(a[1..], b);
      Regroup(Line(a[0]), Lines(a[1..]), Lines(b));
    }
  }

  lemma TwoLines(a: string, b: string)
    ensures Lines([a, b]) == Line(a) + Line(b)
  {
    hide Line;
    var one := [a, b][1..];
    assert one == [b] && one[1..] == [] && Lines(one) == Line(b) + [];
    assert Line(b) + [] == Line(b);
  }

  lemma PrintsText(code: int, start: string, s: string)
    requires PrintCode(code) == Line(start)
    ensures PrintRecord(Record(code, Text(s))) == Lines([start, s])
  {
    hide PrintCode, Line;
    TwoLines(start, s);
  }

  lemma PrintsNumber(code: int, start: string, n: int, s: string)
    requires PrintCode(code) == Line(start) && PrintValue(Number(n)) == Line(s)
    ensures PrintRecord(Record(code, Number(n))) == Lines([start, s])
  {
    hide PrintCode, Line, PrintValue;
    TwoLines(start, s);
  }

  lemma SampleRecords()
    ensures forall s :: PrintRecord(Record(0, Text(s))) == Lines(["  0", s])
    ensures forall s :: PrintRecord(Record(1, Text(s))) == Lines(["  1", s])
    ensures forall s :: PrintRecord(Record(2, Text(s))) == Lines(["  2", s])
    ensures forall s :: PrintRecord(Record(9, Text(s))) == Lines(["  9", s])
    ensures PrintRecord(Record(62, Number(7))) == Lines([" 62", "     7"])
    ensures PrintRecord(Record(70, Number(1))) == Lines([" 70", "     1"])
  {
    SomeCodes();
    hide PrintRecord, Lines, PrintCode, PrintValue;
    forall s
      ensures PrintRecord(Record(0, Text(s))) == Lines(["  0", s])
      ensures PrintRecord(Record(1, Text(s))) == Lines(["  1", s])
      ensures PrintRecord(Record(2, Text(s))) == Lines(["  2", s])
      ensures PrintRecord(Record(9, Text(s))) == Lines(["  9", s])
    {
      PrintsText(0, "  0", s);
      PrintsText(1, "  1", s);
      PrintsText(2, "  2", s);
      PrintsText(9, "  9", s);
    }
    PrintsNumber(62, " 62", 7, "     7");
    PrintsNumber(70, " 70", 1, "     1");
  }

  lemma TwoRecords(a: Record, b: Record)
    ensures PrintRecords([a, b]) == PrintRecord(a) + PrintRecord(b)
  {
    hide PrintRecord;
    var one := [a, b][1..];
    assert one == [b] && one[1..] == [] && PrintRecords(one) == PrintRecord(b) + [];
    assert PrintRecord(b) + [] == PrintRecord(b);
  }

  lemma SampleHeader()
    ensures PrintSection(SAMPLE[0])
         == Lines(["  2", "HEADER"] + ["  9", "$ACADVER"] + ["  1", "AC1009"] + ["  0", "ENDSEC"])
  {
    SampleRecords();
    TwoRecords(Record(9, Text("$ACADVER")), Record(1, Text("AC1009")));
    hide PrintRecord, PrintRecords, Lines;
    var a, b, c, d := ["  2", "HEADER"], ["  9", "$ACADVER"], ["  1", "AC1009"], ["  0", "ENDSEC"];
    LinesAppend(a, b);
    LinesAppend(a + b, c);
    LinesAppend(a + b + c, d);
    Regroup(Lines(a), Lines(b), Lines(c));
    Regroup(Lines(a), Lines(b) + Lines(c), Lines(d));
  }

  lemma SampleLayer()
    ensures PrintEntry(Layer(Some("W"), 7, [])) == Lines(["  0", "LAYER"] + ["  2", "W"] + [" 62", "     7"])
  {
    SampleRecords();
    TwoRecords(Record(2, Text("W")), Record(62, Number(7)));
    hide PrintRecord, PrintRecords, Lines;
    var a, b, c := ["  0", "LAYER"], ["  2", "W"], [" 62", "     7"];
    assert Layer(Some("W"), 7, []).Written() == [Record(2, Text("W")), Record(62, Number(7))];
    LinesAppend(a, b);
    LinesAppend(a + b, c);
    Regroup(Lines(a), Lines(b), Lines(c));
  }

  lemma SampleTable()
    ensures PrintTableBody(Table(None, [], [Layer(Some("W"), 7, [])]))
         == Lines(["  2", "LAYER"] + [" 70", "     1"] + (["  0", "LAYER"] + ["  2", "W"] + [" 62", "     7"])
                  + ["  0", "ENDTAB"])
  {
    SampleRecords();
    SampleLayer();
    hide PrintRecord, PrintEntry, Lines;
    var e := Layer(Some("W"), 7, []);
    var es := [e];
    var t := Table(None, [], es);
    assert es[1..] == [] && PrintEntries(es) == PrintEntry(e) + [] && PrintEntry(e) + [] == PrintEntry(e);
    assert t.Title() == "LAYER" && ToInt16(1) == 1 && PrintRecords([]) == [];
    hide PrintEntries, PrintRecords, Table.Title, ToInt16;
    var a, b, d := ["  2", "LAYER"], [" 70", "     1"], ["  0", "ENDTAB"];
    var c := ["  0", "LAYER"] + ["  2", "W"] + [" 62", "     7"];
    LinesAppend(a, b);
    LinesAppend(a + b, c);
    LinesAppend(a + b + c, d);
    assert Lines(a) + [] == Lines(a);
  }

  lemma SampleTables()
    ensures PrintSection(SAMPLE[1])
         == Lines(["  2", "TABLES"] + (["  0", "TABLE"]
                  + (["  2", "LAYER"] + [" 70", "     1"] + (["  0", "LAYER"] + ["  2", "W"] + [" 62", "     7"])
                     + ["  0", "ENDTAB"])) + ["  0", "ENDSEC"])
  {
    SampleRecords();
    SampleTable();
    hide PrintRecord, PrintTableBody, Lines;
    var t := Table(None, [], [Layer(Some("W"), 7, [])]);
    var ts := [t];
    assert SAMPLE[1] == Tables(ts) && ts[1..] == [];
    assert PrintTables(ts) == PrintRecord(TABLE) + PrintTableBody(t) + [];
    assert PrintTables(ts) == PrintRecord(TABLE) + PrintTableBody(t);
    hide PrintTables;
    var a, b, d := ["  2", "TABLES"], ["  0", "TABLE"], ["  0", "ENDSEC"];
    var c := ["  2", "LAYER"] + [" 70", "     1"] + (["  0", "LAYER"] + ["  2", "W"] + [" 62", "     7"])
             + ["  0", "ENDTAB"];
    LinesAppend(b, c);
    LinesAppend(a, b + c);
    LinesAppend(a + (b + c), d);
    Regroup(Lines(a), Lines(b + c), Lines(d));
  }

  /** What a small model is written as. The title of a table without a name is the
      kind of its first entry. */
  lemma SampleFile()
    ensures PrintModel([], SAMPLE)
         == Lines(["  0", "SECTION"] + (["  2", "HEADER"] + ["  9", "$ACADVER"] + ["  1", "AC1009"] + ["  0", "ENDSEC"])
                  + (["  0", "SECTION"]
                     + (["  2", "TABLES"] + (["  0", "TABLE"]
                        + (["  2", "LAYER"] + [" 70", "     1"] + (["  0", "LAYER"] + ["  2", "W"] + [" 62", "     7"])
                           + ["  0", "ENDTAB"])) + ["  0", "ENDSEC"]))
                  + ["  0", "EOF"])
  {
    SampleRecords();
    SampleHeader();
    SampleTables();
    SampleSections();
    hide PrintRecord, PrintSection, PrintSections, Lines;
    var a, e := ["  0", "SECTION"], ["  0", "EOF"];
    var b := ["  2", "HEADER"] + ["  9", "$ACADVER"] + ["  1", "AC1009"] + ["  0", "ENDSEC"];
    var d := ["  2", "TABLES"] + (["  0", "TABLE"]
             + (["  2", "LAYER"] + [" 70", "     1"] + (["  0", "LAYER"] + ["  2", "W"] + [" 62", "     7"])
                + ["  0", "ENDTAB"])) + ["  0", "ENDSEC"];
    LinesAppend(a, b);
    LinesAppend(a, d);
    LinesAppend(a + b, a + d);
    LinesAppend(a + b + (a + d), e);
    assert PrintComments([]) == [];
    assert [] + PrintSections(SAMPLE) == PrintSections(SAMPLE);
  }

  lemma SampleSections()
    ensures PrintSections(SAMPLE)
         == PrintRecord(SECTION) + PrintSection(SAMPLE[0]) + (PrintRecord(SECTION) + PrintSection(SAMPLE[1]))
  {
    hide PrintRecord, PrintSection;
    var ss := SAMPLE[1..];
    assert ss == [SAMPLE[1]] && ss[1..] == [];
    assert PrintSections(ss) == PrintRecord(SECTION) + PrintSection(SAMPLE[1]) + [];
    assert PrintSections(ss) == PrintRecord(SECTION) + PrintSection(SAMPLE[1]);
  }
}
