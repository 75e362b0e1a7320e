/** src/records: the type of a record follows from its group code, and a record
    that is written on two lines is read back as itself. */
module Records {
  import opened Wrappers
  import opened Tokens
  import opened Numbers
  import opened Reals

  datatype RecordType = StringType | DoubleType | Int8Type | Int16Type | Int32Type | HexType

  /** get_record_type */
  function TypeOf(code: int): RecordType {
    if code < 0 then StringType
    else if code <= 9 then StringType
    else if code <= 59 then DoubleType
    else if code <= 79 then Int16Type
    else if code <= 89 then StringType
    else if code <= 99 then Int32Type
    else if code < 140 then StringType
    else if code <= 147 then DoubleType
    else if code < 170 then StringType
    else if code <= 178 then Int16Type
    else if code == 210 || code == 220 || code == 230 then DoubleType
    else if code < 270 then StringType
    else if code <= 275 then Int8Type
    else if code < 280 then StringType
    else if code <= 289 then Int8Type
    else if code < 300 then StringType
    else if code <= 309 then StringType
    else if code <= 369 then HexType
    else if code <= 1059 then StringType
    else if code <= 1070 then Int16Type
    else if code == 1071 then Int32Type
    else StringType
  }

  /** The look-up table of getRecordType, filled the first time it is used. */
  class TypeTable {
    var first: bool
    const translation: array<RecordType>

    ghost predicate Valid()
      reads this, translation
    {
      && translation.Length == 1072
      && (!first ==> forall i :: 0 <= i < 1072 ==> translation[i] == TypeOf(i))
    }

    constructor ()
      ensures Valid() && fresh(translation)
    {
      first := true;
      translation := new RecordType[1072];
    }

    /** The table does not bound what it answers: codes it does not hold are
        those for which the cascade says string. */
    method GetRecordType(code: int) returns (t: RecordType)
      requires Valid()
      modifies this, translation
      ensures Valid() && t == TypeOf(code)
    {
      if first {
        first := false;
        for i := 0 to 1072
          invariant !first && forall k :: 0 <= k < i ==> translation[k] == TypeOf(k)
        {
          translation[i] := TypeOf(i);
        }
      }
      return if code < 0 || code >= 1072 then StringType else translation[code];
    }
  }

  /** A floating point value is kept as its spelling. */
  datatype Value = Text(text: string) | Number(number: int) | Spelling(digits: string)

  datatype Record = Record(code: int, value: Value)

  function WidthOf(t: RecordType): Width {
    match t case Int8Type => W8 case Int16Type => W16 case _ => W32
  }

  /** The values a record of this group code can be read back with. */
  predicate Fitting(code: int, v: Value) {
    match TypeOf(code)
    case StringType => v.Text? && Readable(v.text)
    case HexType => v.Text? && Readable(v.text)
    case DoubleType => v.Spelling? && IsReal(v.digits)
    case t => v.Number? && Fits(WidthOf(t), v.number)
  }

  predicate IsCode(code: int) {
    Fits(W32, code) && code != COMMENT
  }

  predicate Sound(r: Record) {
    IsCode(r.code) && Fitting(r.code, r.value)
  }

  predicate AllSound(rs: seq<Record>) {
    forall i :: 0 <= i < |rs| ==> Sound(rs[i])
  }

  const ENDSEC: Record := Record(0, Text("ENDSEC"))

  // ----- what printing does to numbers -----

  /** The spelling that a number gets when it is printed, from the spelling that
      was read: "%g" of what atof made of it. */
  type Format = string -> string

  ghost predicate IsFormat(f: Format) {
    forall s :: IsReal(s) ==> IsReal(f(s))
  }

  function Rounded(f: Format, r: Record): Record {
    if r.value.Spelling? then Record(r.code, Spelling(f(r.value.digits))) else r
  }

  function RoundedRecords(f: Format, rs: seq<Record>): (q: seq<Record>)
    ensures |q| == |rs| && forall i :: 0 <= i < |rs| ==> q[i] == Rounded(f, rs[i])
  {
    seq(|rs|, i requires 0 <= i < |rs| => Rounded(f, rs[i]))
  }

  lemma RoundedAppend(f: Format, rs: seq<Record>, r: Record)
    ensures RoundedRecords(f, rs + [r]) == RoundedRecords(f, rs) + [Rounded(f, r)]
  {
  }

  lemma RoundedIsSound(f: Format, rs: seq<Record>)
    requires IsFormat(f) && AllSound(rs)
    ensures AllSound(RoundedRecords(f, rs))
  {
    hide IsReal, Readable, IsCode, TypeOf;
    forall i | 0 <= i < |rs|
      ensures Sound(RoundedRecords(f, rs)[i])
    {
      assert Sound(rs[i]);
    }
  }

  // ----- printing -----

  function Line(s: string): string {
    s + [LF]
  }

  function PrintCode(code: int): string {
    Line(Padded(code, 3))
  }

  function PrintValue(v: Value): string {
    match v
    case Text(s) => Line(s)
    case Number(n) => Line(Padded(n, 6))
    case Spelling(d) => Line(d)
  }

  function PrintRecord(r: Record): string {
    PrintCode(r.code) + PrintValue(r.value)
  }

  function PrintRecords(rs: seq<Record>): string {
    if rs == [] then [] else PrintRecord(rs[0]) + PrintRecords(rs[1..])
  }

  lemma {:induction false} PrintAppend(rs: seq<Record>, r: Record)
    ensures PrintRecords(rs + [r]) == PrintRecords(rs) + PrintRecord(r)
  {
    hide PrintRecord;
    if rs == [] {
      assert [r][1..] == [];
      assert PrintRecords([r]) == PrintRecord(r) + PrintRecords([]);
    } else {
      PrintAppend(rs[1..], r);
      assert (rs + [r])[1..] == rs[1..] + [r];
      Regroup(PrintRecord(rs[0]), PrintRecords(rs[1..]), PrintRecord(r));
    }
  }

  // ----- reading -----

  /** What a record's read() stores and answers. Numbers that cannot be read
      leave the constructor's zero; a string is missing only at the end. */
  datatype ValueRead = ValueRead(ok: bool, value: Option<Value>, rest: string)

  function ReadValue(code: int, s: string): (r: ValueRead)
    ensures |r.rest| <= |s| && (r.ok ==> r.value.Some?)
  {
    match TypeOf(code)
    case StringType => ReadText(s)
    case HexType => ReadText(s)
    case DoubleType =>
      var x := ReadReal(s);
      ValueRead(x.ok, Some(Spelling(if x.text.Some? then x.text.value else "0")), x.rest)
    case t =>
      var x := ReadInt(s, WidthOf(t));
      ValueRead(x.ok, Some(Number(if x.val.Some? then x.val.value else 0)), x.rest)
  }

  function ReadText(s: string): (r: ValueRead)
    ensures |r.rest| <= |s| && (r.ok ==> r.value.Some?)
  {
    var (line, rest) := ReadString(s);
    ValueRead(line.Some?, if line.Some? then Some(Text(line.value)) else None, rest)
  }

  /** readRecord: the answer of the record's own read() is not looked at. */
  function TakeRecord(s: string): (r: Option<(Record, string)>)
    ensures r.Some? ==> |r.value.1| < |s|
  {
    var (ok, code, s1) := CodeAfterComments(s);
    if !ok then None
    else
      var v := ReadValue(code.value, s1);
      if v.value.None? then None else Some((Record(code.value, v.value.value), v.rest))
  }

  /** The records up to and including the end of the section. */
  function UntilEndSec(s: string): (r: Option<(seq<Record>, string)>)
    ensures r.Some? ==> |r.value.1| < |s|
    decreases |s|
  {
    var t := TakeRecord(s);
    if t.None? then None
    else if t.value.0 == ENDSEC then Some(([ENDSEC], t.value.1))
    else Before([t.value.0], UntilEndSec(t.value.1))
  }

  /** The records up to a group code 0, which is taken too; here a value that
      cannot be read is a failure. */
  function UntilZero(s: string): (r: Option<(seq<Record>, string)>)
    ensures r.Some? ==> |r.value.1| < |s|
    decreases |s|
  {
    var (ok, code, s1) := CodeAfterComments(s);
    if !ok then None
    else if code == Some(0) then Some(([], s1))
    else
      var v := ReadValue(code.value, s1);
      if !v.ok then None else Before([Record(code.value, v.value.value)], UntilZero(v.rest))
  }

  function Before<T>(front: seq<T>, r: Option<(seq<T>, string)>): Option<(seq<T>, string)> {
    if r.None? then None else Some((front + r.value.0, r.value.1))
  }

  lemma BeforeNothing<T>(r: Option<(seq<T>, string)>)
    ensures Before([], r) == r
  {
    if r.Some? {
      assert [] + r.value.0 == r.value.0;
    }
  }

  lemma BeforeTwice<T>(front: seq<T>, next: seq<T>, r: Option<(seq<T>, string)>)
    ensures Before(front, Before(next, r)) == Before(front + next, r)
  {
    if r.Some? {
      assert front + (next + r.value.0) == front + next + r.value.0;
    }
  }

  // ----- what is printed is read back -----

  lemma ReadPrintedCode(code: int, t: string)
    requires IsCode(code)
    ensures CodeAfterComments(PrintCode(code) + t) == (true, Some(code), t)
  {
    hide Padded, ReadInt, ReadString;
    ReadPadded(code, 3, W32, t);
  }

  /** A comment and its group code are skipped. */
  lemma CommentIsSkipped(comment: string, t: string)
    requires Readable(comment)
    ensures CodeAfterComments(PrintCode(COMMENT) + Line(comment) + t) == CodeAfterComments(t)
  {
    hide Padded, ReadInt, ReadString;
    var rest := comment + [LF] + t;
    assert PrintCode(COMMENT) + Line(comment) + t == Padded(COMMENT, 3) + [LF] + rest;
    ReadPadded(COMMENT, 3, W32, rest);
    StringSurvives(comment, t);
  }

  lemma ReadPrintedValue(code: int, v: Value, t: string)
    requires Fitting(code, v)
    ensures ReadValue(code, PrintValue(v) + t) == ValueRead(true, Some(v), t)
  {
    hide Padded, ReadInt, ReadString, ReadReal, Readable, IsReal, TypeOf;
    match v
    case Text(s) => StringSurvives(s, t);
    case Number(n) => ReadPadded(n, 6, WidthOf(TypeOf(code)), t);
    case Spelling(d) => ReadRealLine(d, t);
  }

  lemma TakePrintedRecord(r: Record, t: string)
    requires Sound(r)
    ensures TakeRecord(PrintRecord(r) + t) == Some((r, t))
  {
    hide PrintCode, PrintValue, CodeAfterComments, ReadValue, Fitting, IsCode;
    var rest := PrintValue(r.value) + t;
    assert PrintRecord(r) + t == PrintCode(r.code) + rest;
    ReadPrintedCode(r.code, rest);
    ReadPrintedValue(r.code, r.value, t);
  }

  /** What follows the first record, when a list of them and more is printed. */
  lemma PrintFirst(rs: seq<Record>, t: string)
    requires rs != []
    ensures PrintRecords(rs) + t == PrintRecord(rs[0]) + (PrintRecords(rs[1..]) + t)
  {
  }

  lemma {:induction false} SectionReadsBack(rs: seq<Record>, t: string)
    requires AllSound(rs) && ENDSEC !in rs
    ensures UntilEndSec(PrintRecords(rs) + (PrintRecord(ENDSEC) + t)) == Some((rs + [ENDSEC], t))
  {
    hide PrintRecord, TakeRecord, Sound;
    if rs == [] {
      EndSecIsSound();
      TakePrintedRecord(ENDSEC, t);
      assert PrintRecords(rs) + (PrintRecord(ENDSEC) + t) == PrintRecord(ENDSEC) + t;
      assert rs + [ENDSEC] == [ENDSEC];
    } else {
      var rest := PrintRecord(ENDSEC) + t;
      PrintFirst(rs, rest);
      TakePrintedRecord(rs[0], PrintRecords(rs[1..]) + rest);
      SectionReadsBack(rs[1..], t);
      assert [rs[0]] + (rs[1..] + [ENDSEC]) == rs + [ENDSEC];
    }
  }

  lemma EndSecIsSound()
    ensures Sound(ENDSEC)
  {
    assert Readable("ENDSEC");
  }

  lemma {:induction false} HolderReadsBack(rs: seq<Record>, t: string)
    requires AllSound(rs) && forall i :: 0 <= i < |rs| ==> rs[i].code != 0
    ensures UntilZero(PrintRecords(rs) + (PrintCode(0) + t)) == Some((rs, t))
  {
    hide PrintCode, PrintValue, CodeAfterComments, ReadValue, Fitting;
    if rs == [] {
      assert PrintRecords(rs) + (PrintCode(0) + t) == PrintCode(0) + t;
      ReadPrintedCode(0, t);
    } else {
      var r, rest := rs[0], PrintRecords(rs[1..]) + (PrintCode(0) + t);
      PrintFirst(rs, PrintCode(0) + t);
      assert PrintRecord(r) + rest == PrintCode(r.code) + (PrintValue(r.value) + rest);
      assert Sound(r);
      ReadPrintedCode(r.code, PrintValue(r.value) + rest);
      ReadPrintedValue(r.code, r.value, rest);
      HolderReadsBack(rs[1..], t);
      assert [r] + rs[1..] == rs;
    }
  }

  // ----- what is read can be printed -----

  lemma {:induction false} ReadCodeIsSound(s: string)
    requires CodeAfterComments(s).0
    ensures IsCode(CodeAfterComments(s).1.value)
    decreases |s|
  {
    hide ReadString, TakeInteger, StrToL;
    var r := ReadInt(s, W32);
    if r.val == Some(COMMENT) {
      ReadCodeIsSound(ReadString(r.rest).1);
    }
  }

  lemma ReadValueFits(code: int, s: string)
    requires ReadValue(code, s).value.Some?
    ensures Fitting(code, ReadValue(code, s).value.value)
  {
    hide TypeOf, TakeReal, TakeInteger, StrToL, TakeLine, IsReal;
    if TypeOf(code).DoubleType? {
      if ReadReal(s).text.Some? {
        TakenIsReal(SkipBlanks(s));
      } else {
        ZeroIsReal();
      }
    }
  }

  lemma ZeroIsReal()
    ensures IsReal("0")
  {
    var p := Parts([], "0", [], [], []);
    TakeRealWhole(p, []);
    assert p.Text() == "0";
  }

  lemma TakenIsSound(s: string)
    requires TakeRecord(s).Some?
    ensures Sound(TakeRecord(s).value.0)
  {
    hide CodeAfterComments, ReadValue, Fitting;
    ReadCodeIsSound(s);
    ReadValueFits(CodeAfterComments(s).1.value, CodeAfterComments(s).2);
  }

  lemma {:induction false} SectionIsSound(s: string)
    requires UntilEndSec(s).Some?
    ensures var rs := UntilEndSec(s).value.0;
      && AllSound(rs) && rs != [] && rs[|rs| - 1] == ENDSEC && ENDSEC !in rs[..|rs| - 1]
    decreases |s|
  {
    hide TakeRecord, Sound;
    TakenIsSound(s);
    var t := TakeRecord(s).value;
    if t.0 != ENDSEC {
      SectionIsSound(t.1);
      var rs, later := UntilEndSec(s).value.0, UntilEndSec(t.1).value.0;
      assert rs[..|rs| - 1] == [t.0] + later[..|later| - 1];
    }
  }

  lemma {:induction false} HolderIsSound(s: string)
    requires UntilZero(s).Some?
    ensures AllSound(UntilZero(s).value.0)
    ensures forall i :: 0 <= i < |UntilZero(s).value.0| ==> UntilZero(s).value.0[i].code != 0
    decreases |s|
  {
    hide CodeAfterComments, ReadValue, Fitting;
    var (ok, code, s1) := CodeAfterComments(s);
    if code != Some(0) {
      ReadCodeIsSound(s);
      ReadValueFits(code.value, s1);
      HolderIsSound(ReadValue(code.value, s1).rest);
    }
  }
}
