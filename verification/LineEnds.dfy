/** Files whose lines end with CR LF load like those whose lines end with LF. */
module LineEnds {
  import opened Wrappers
  import opened Tokens
  import opened Records
  import opened Document

  /** The same file with CR LF for each LF. */
  function WithCR(s: string): string {
    if s == [] then [] else (if s[0] == '\n' then ['\r', '\n'] else [s[0]]) + WithCR(s[1..])
  }

  lemma First(s: string)
    requires s != [] && CR !in s
    ensures CR !in s[1..]
    ensures if s[0] == LF then WithCR(s) == [CR] + ([LF] + WithCR(s[1..])) else WithCR(s) == [s[0]] + WithCR(s[1..])
    ensures WithCR(s) != [] && (s[0] != LF ==> WithCR(s)[0] == s[0] && WithCR(s)[1..] == WithCR(s[1..]))
  {
  }

  lemma {:induction false} Blanks(s: string)
    requires CR !in s
    ensures SkipBlanks(WithCR(s)) == WithCR(SkipBlanks(s)) && CR !in SkipBlanks(s)
  {
    if s != [] {
      First(s);
      if IsBlank(s[0]) {
        Blanks(s[1..]);
      }
    }
  }

  lemma {:induction false} Ends(s: string)
    requires CR !in s
    ensures var r := NextLine(s); NextLine(WithCR(s)) == (r.0, WithCR(r.1)) && CR !in r.1
  {
    if s != [] {
      First(s);
      if s[0] == LF {
        var rest := [LF] + WithCR(s[1..]);
        assert WithCR(s)[1..] == rest && rest[1..] == WithCR(s[1..]);
      } else {
        Ends(s[1..]);
      }
    }
  }

  lemma {:induction false} Digits(s: string, hex: bool)
    requires CR !in s
    ensures var r := TakeDigits(s, hex); TakeDigits(WithCR(s), hex) == (r.0, WithCR(r.1)) && CR !in r.1
  {
    if s != [] {
      First(s);
      if if hex then IsHexDigit(s[0]) else IsDigit(s[0]) {
        Digits(s[1..], hex);
      }
    }
  }

  lemma Heads(s: string, c: char)
    requires CR !in s && c != CR && c != LF
    ensures Head(WithCR(s), c) == Head(s, c)
    ensures Head(s, c) ==> WithCR(s)[..1] == s[..1] && WithCR(s)[1..] == WithCR(s[1..]) && CR !in s[1..]
  {
    if s != [] {
      First(s);
    }
  }

  lemma Unsigned(s: string)
    requires CR !in s
    ensures var r := TakeUnsigned(s); TakeUnsigned(WithCR(s)) == (r.0, WithCR(r.1)) && CR !in r.1
  {
    Heads(s, '0');
    if Head(s, '0') {
      Heads(s[1..], 'x');
      if Head(s[1..], 'x') {
        assert s[2..] == s[1..][1..] && WithCR(s)[2..] == WithCR(s)[1..][1..];
        Digits(s[2..], true);
      }
    }
    Digits(s, false);
  }

  lemma Integer(s: string)
    requires CR !in s
    ensures var r := TakeInteger(s); TakeInteger(WithCR(s)) == (r.0, WithCR(r.1)) && CR !in r.1
  {
    hide TakeUnsigned;
    Heads(s, '-');
    Heads(s, '+');
    if Head(s, '-') || Head(s, '+') {
      assert WithCR(s)[0] == WithCR(s)[..1][0] == s[..1][0] == s[0];
      Unsigned(s[1..]);
    } else {
      Unsigned(s);
    }
  }

  lemma Sign(s: string)
    requires CR !in s
    ensures var r := SplitSign(s); SplitSign(WithCR(s)) == (r.0, WithCR(r.1)) && CR !in r.1
  {
    Heads(s, '-');
    Heads(s, '+');
  }

  lemma Mantissa(s: string)
    requires CR !in s
    ensures var r := TakeMantissa(s); TakeMantissa(WithCR(s)) == (r.0, WithCR(r.1)) && CR !in r.1
  {
    hide SplitSign, TakeDigits;
    Sign(s);
    var s1 := SplitSign(s).1;
    Digits(s1, false);
    var s2 := TakeDigits(s1, false).1;
    Heads(s2, '.');
    if Head(s2, '.') {
      Digits(s2[1..], false);
    }
  }

  lemma Exponent(s: string)
    requires CR !in s
    ensures var r := TakeExponent(s); TakeExponent(WithCR(s)) == (r.0, WithCR(r.1)) && CR !in r.1
  {
    hide SplitSign, TakeDigits;
    Sign(s);
    Digits(SplitSign(s).1, false);
  }

  lemma Real(s: string)
    requires CR !in s
    ensures var r := TakeReal(s); TakeReal(WithCR(s)) == (r.0, WithCR(r.1)) && CR !in r.1
  {
    hide TakeMantissa, TakeExponent;
    Mantissa(s);
    var s1 := TakeMantissa(s).1;
    Heads(s1, 'e');
    Heads(s1, 'E');
    if Head(s1, 'e') || Head(s1, 'E') {
      Exponent(s1[1..]);
    }
  }

  lemma {:induction false} LineOf(s: string, room: nat)
    requires CR !in s
    ensures var r := TakeLine(s, room); TakeLine(WithCR(s), room) == (r.0, WithCR(r.1)) && CR !in r.1
  {
    if s != [] {
      First(s);
      if s[0] != LF && s[0] != NUL && room > 0 {
        LineOf(s[1..], room - 1);
      }
    }
  }

  lemma NothingLeft(s: string)
    ensures WithCR(s) == [] <==> s == []
  {
  }

  lemma Strings(s: string)
    requires CR !in s
    ensures var r := ReadString(s); ReadString(WithCR(s)) == (r.0, WithCR(r.1)) && CR !in r.1
  {
    hide SkipBlanks, TakeLine, NextLine;
    Blanks(s);
    var s1 := SkipBlanks(s);
    NothingLeft(s1);
    LineOf(s1, DXF_MAXLINELEN);
    Ends(TakeLine(s1, DXF_MAXLINELEN).1);
    hide WithCR;
  }

  lemma Ints(s: string, w: Width)
    requires CR !in s
    ensures var r := ReadInt(s, w); ReadInt(WithCR(s), w) == r.(rest := WithCR(r.rest)) && CR !in r.rest
  {
    hide SkipBlanks, TakeInteger, NextLine, StrToL, WithCR;
    Blanks(s);
    Integer(SkipBlanks(s));
    Ends(TakeInteger(SkipBlanks(s)).1);
  }

  lemma Reals(s: string)
    requires CR !in s
    ensures var r := ReadReal(s); ReadReal(WithCR(s)) == r.(rest := WithCR(r.rest)) && CR !in r.rest
  {
    hide SkipBlanks, TakeReal, NextLine;
    Blanks(s);
    var s1 := SkipBlanks(s);
    NothingLeft(s1);
    Real(s1);
    Ends(TakeReal(s1).1);
    hide WithCR;
  }

  lemma {:induction false} Codes(s: string)
    requires CR !in s
    ensures var r := CodeAfterComments(s); CodeAfterComments(WithCR(s)) == (r.0, r.1, WithCR(r.2)) && CR !in r.2
    decreases |s|
  {
    hide ReadInt, ReadString, WithCR;
    Ints(s, W32);
    var r := ReadInt(s, W32);
    if r.ok && r.val == Some(COMMENT) {
      Strings(r.rest);
      Codes(ReadString(r.rest).1);
    }
  }

  lemma Values(code: int, s: string)
    requires CR !in s
    ensures var r := ReadValue(code, s); ReadValue(code, WithCR(s)) == r.(rest := WithCR(r.rest)) && CR !in r.rest
  {
    hide ReadInt, ReadString, ReadReal, WithCR, TypeOf;
    Strings(s);
    Ints(s, WidthOf(TypeOf(code)));
    Reals(s);
  }

  /** The same result, with the rest of the file changed in the same way. */
  ghost predicate Alike<T>(a: Option<(T, string)>, b: Option<(T, string)>) {
    b == (if a.Some? then Some((a.value.0, WithCR(a.value.1))) else None) && (a.Some? ==> CR !in a.value.1)
  }

  lemma RecordsAlike(s: string)
    requires CR !in s
    ensures Alike(TakeRecord(s), TakeRecord(WithCR(s)))
  {
    hide CodeAfterComments, ReadValue, WithCR;
    Codes(s);
    var (ok, code, s1) := CodeAfterComments(s);
    if ok {
      Values(code.value, s1);
    }
  }

  lemma BeforeAlike<T>(front: seq<T>, a: Option<(seq<T>, string)>, b: Option<(seq<T>, string)>)
    requires Alike(a, b)
    ensures Alike(Before(front, a), Before(front, b))
  {
  }

  lemma {:induction false} UntilEndSecAlike(s: string)
    requires CR !in s
    ensures Alike(UntilEndSec(s), UntilEndSec(WithCR(s)))
    decreases |s|
  {
    hide TakeRecord, WithCR;
    RecordsAlike(s);
    var t := TakeRecord(s);
    if t.Some? && t.value.0 != ENDSEC {
      UntilEndSecAlike(t.value.1);
      BeforeAlike([t.value.0], UntilEndSec(t.value.1), UntilEndSec(WithCR(t.value.1)));
    }
  }

  lemma {:induction false} UntilZeroAlike(s: string)
    requires CR !in s
    ensures Alike(UntilZero(s), UntilZero(WithCR(s)))
    decreases |s|
  {
    hide CodeAfterComments, ReadValue, WithCR;
    Codes(s);
    var (ok, code, s1) := CodeAfterComments(s);
    if ok && code != Some(0) {
      Values(code.value, s1);
      var v := ReadValue(code.value, s1);
      if v.ok {
        UntilZeroAlike(v.rest);
        BeforeAlike([Record(code.value, v.value.value)], UntilZero(v.rest), UntilZero(WithCR(v.rest)));
      }
    }
  }

  lemma {:induction false} HeadsAlike(s: string, t: Table)
    requires CR !in s
    ensures Alike(TakeHead(s, t), TakeHead(WithCR(s), t))
    decreases |s|
  {
    hide CodeAfterComments, ReadInt, ReadString, ReadValue, WithCR;
    Codes(s);
    var (ok, code, s1) := CodeAfterComments(s);
    if ok {
      if code == Some(70) {
        Ints(s1, W16);
        if ReadInt(s1, W16).ok {
          HeadsAlike(ReadInt(s1, W16).rest, t);
        }
      } else if code == Some(2) {
        Strings(s1);
        var (name, s2) := ReadString(s1);
        if name.Some? {
          HeadsAlike(s2, t.(name := name));
        }
      } else if code != Some(0) {
        Values(code.value, s1);
        var v := ReadValue(code.value, s1);
        if v.ok {
          HeadsAlike(v.rest, t.(records := t.records + [Record(code.value, v.value.value)]));
        }
      }
    }
  }

  lemma {:induction false} EntriesAlike(s: string)
    requires CR !in s
    ensures Alike(TakeEntries(s), TakeEntries(WithCR(s)))
    decreases |s|
  {
    hide ReadString, UntilZero, AddAll, EmptyEntry, WithCR;
    Strings(s);
    var (kind, s1) := ReadString(s);
    if kind.Some? && kind.value != "ENDTAB" {
      UntilZeroAlike(s1);
      var rs := UntilZero(s1);
      if rs.Some? {
        EntriesAlike(rs.value.1);
        BeforeAlike([AddAll(EmptyEntry(kind.value), rs.value.0)], TakeEntries(rs.value.1),
                    TakeEntries(WithCR(rs.value.1)));
      }
    }
  }

  lemma TableAlike(s: string)
    requires CR !in s
    ensures Alike(TakeTable(s), TakeTable(WithCR(s)))
  {
    hide TakeHead, TakeEntries, WithCR;
    var empty := Table(None, [], []);
    HeadsAlike(s, empty);
    if TakeHead(s, empty).Some? {
      EntriesAlike(TakeHead(s, empty).value.1);
    }
  }

  lemma {:induction false} TablesAlike(s: string)
    requires CR !in s
    ensures Alike(TakeTables(s), TakeTables(WithCR(s)))
    decreases |s|
  {
    hide CodeAfterComments, ReadString, TakeTable, WithCR;
    Codes(s);
    var (ok, code, s1) := CodeAfterComments(s);
    if ok && code == Some(0) {
      Strings(s1);
      var (line, s2) := ReadString(s1);
      if line == Some("TABLE") {
        TableAlike(s2);
        var t := TakeTable(s2);
        if t.Some? {
          TablesAlike(t.value.1);
          BeforeAlike([t.value.0], TakeTables(t.value.1), TakeTables(WithCR(t.value.1)));
        }
      }
    }
  }

  lemma SectionAlike(name: string, s: string)
    requires CR !in s
    ensures Alike(TakeSection(name, s), TakeSection(name, WithCR(s)))
  {
    hide TakeTables, UntilEndSec, WithCR;
    TablesAlike(s);
    UntilEndSecAlike(s);
  }

  /** The sections and the answer are the same, for every file. */
  lemma {:induction false} SameModel(s: string)
    requires CR !in s
    ensures TakeModel(WithCR(s)) == TakeModel(s)
    decreases |s|
  {
    hide CodeAfterComments, ReadString, TakeSection, IsElsewhere, WithCR;
    Codes(s);
    var (ok, code, s1) := CodeAfterComments(s);
    if ok && code == Some(0) {
      Strings(s1);
      var (line, s2) := ReadString(s1);
      if line == Some("SECTION") {
        Codes(s2);
        var (ok2, code2, s3) := CodeAfterComments(s2);
        Strings(s3);
        var (name, s4) := ReadString(s3);
        if ok2 && name.Some? && code2 == Some(2) && !IsElsewhere(name.value) {
          SectionAlike(name.value, s4);
          if TakeSection(name.value, s4).Some? {
            SameModel(TakeSection(name.value, s4).value.1);
          }
        }
      }
    }
  }

  /** A CR ends a line by itself as well, but not at the end of the file. */
  lemma {:induction false} LoneCR(line: string, c: char, t: string)
    requires LF !in line && CR !in line && c != LF && c != CR
    ensures NextLine(line + ([CR] + [c] + t)) == (true, [c] + t)
    ensures NextLine(line + [CR]) == (false, [])
  {
    var rest := [CR] + [c] + t;
    if line == [] {
      assert rest[1..] == [c] + t && line + rest == rest && line + [CR] == [CR];
    } else {
      assert (line + rest)[1..] == line[1..] + rest && (line + [CR])[1..] == line[1..] + [CR];
      LoneCR(line[1..], c, t);
    }
  }
}
