/** What the loaders make of the records of a file, in whatever order these come:
    where a load goes on, where it ends, and what is kept. */
module Grammar {
  import opened Wrappers
  import opened Tokens
  import opened Numbers
  import opened Records
  import opened Document
  import opened RoundTrip
  import opened Format

  // ----- the frame of a file -----

  /** An empty file, and one that starts with something else than a section. */
  lemma FileStarts(r: Record, t: string)
    requires Sound(r)
    ensures TakeModel([]) == Outcome([], Bad)
    ensures r.code != 0 ==> TakeModel(PrintRecord(r) + t) == Outcome([], Bad)
    ensures r == Record(0, Text("EOF")) ==> TakeModel(PrintRecord(r) + t) == Outcome([], Done)
    ensures r.code == 0 && r.value != Text("EOF") && r.value != Text("SECTION") ==>
      TakeModel(PrintRecord(r) + t) == Outcome([], Bad)
  {
    hide Sound, CodeAfterComments, ReadString, TakeSection, PrintRecord;
    NoCode();
    RecordStarts(r, t);
  }

  lemma NoCode()
    ensures !CodeAfterComments([]).0
  {
  }

  /** A printed record is its group code, and if that is 0, its string. */
  lemma RecordStarts(r: Record, t: string)
    requires Sound(r)
    ensures CodeAfterComments(PrintRecord(r) + t) == (true, Some(r.code), PrintValue(r.value) + t)
    ensures r.code == 0 ==> r.value.Text? && ReadString(PrintValue(r.value) + t) == (Some(r.value.text), t)
  {
    assert TypeOf(0) == StringType;
    hide CodeAfterComments, ReadString, PrintCode, Readable, TypeOf, IsCode;
    assert PrintRecord(r) + t == PrintCode(r.code) + (PrintValue(r.value) + t);
    ReadPrintedCode(r.code, PrintValue(r.value) + t);
    if r.code == 0 {
      StringSurvives(r.value.text, t);
    }
  }

  /** The second record of a section has to be its name, with group code 2. */
  lemma SectionStarts(r: Record, t: string)
    requires Sound(r)
    ensures var s := PrintRecord(Record(0, Text("SECTION"))) + (PrintRecord(r) + t);
      && (r.code != 2 ==> TakeModel(s) == Outcome([], Bad))
      && (r == Record(2, Text("BLOCKS")) || r == Record(2, Text("ENTITIES")) ==> TakeModel(s) == Outcome([], Elsewhere))
  {
    var section := Record(0, Text("SECTION"));
    MarkersAreReadable();
    assert Sound(section);
    RecordStarts(section, PrintRecord(r) + t);
    RecordStarts(r, t);
    NameStarts(r, t);
    hide Sound, CodeAfterComments, ReadString, TakeSection, PrintRecord, PrintValue;
  }

  lemma NameStarts(r: Record, t: string)
    requires Sound(r)
    ensures r.code == 2 ==> r.value.Text? && ReadString(PrintValue(r.value) + t) == (Some(r.value.text), t)
  {
    assert TypeOf(2) == StringType;
    hide ReadString, Readable, TypeOf, IsCode;
    if r.code == 2 {
      StringSurvives(r.value.text, t);
    }
  }

  /** A section of any other name but TABLES holds its records up to the first
      ENDSEC; the file goes on behind that, and without one, the load fails. */
  lemma SectionHolds(name: string, rs: seq<Record>, t: string)
    requires Readable(name) && name !in {"TABLES", "BLOCKS", "ENTITIES"}
    requires AllSound(rs) && Record(0, Text("ENDSEC")) !in rs
    ensures var start :=
        PrintRecord(Record(0, Text("SECTION"))) + (PrintRecord(Record(2, Text(name))) + PrintRecords(rs));
      && TakeModel(start) == Outcome([], Bad)
      && TakeModel(start + (PrintRecord(Record(0, Text("ENDSEC"))) + t))
         == After([if name == "HEADER" then Header(rs) else Unknown(name, rs + [Record(0, Text("ENDSEC"))])],
                  TakeModel(t))
  {
    hide Sound, CodeAfterComments, ReadString, TakeSection, PrintRecord, PrintRecords, PrintValue, Readable, AllSound;
    var end := PrintRecord(Record(0, Text("ENDSEC"))) + t;
    var (a, b) := (PrintRecord(Record(0, Text("SECTION"))), PrintRecord(Record(2, Text(name))));
    assert a + (b + PrintRecords(rs)) + end == a + (b + (PrintRecords(rs) + end));
    SectionNamed(name, PrintRecords(rs));
    SectionNamed(name, PrintRecords(rs) + end);
    RecordsEnd(name, rs, t);
  }

  /** The two records in front of a section. */
  lemma SectionNamed(name: string, s: string)
    requires Readable(name) && name !in {"BLOCKS", "ENTITIES"}
    ensures TakeModel(PrintRecord(Record(0, Text("SECTION"))) + (PrintRecord(Record(2, Text(name))) + s))
         == match TakeSection(name, s)
            case None => Outcome([], Bad)
            case Some(sec) => After([sec.0], TakeModel(sec.1))
  {
    hide CodeAfterComments, ReadString, TakeSection, PrintRecord, Line, PrintCode, Readable, IsCode;
    MarkersAreReadable();
    ReadMarker(0, "SECTION", PrintRecord(Record(2, Text(name))) + s);
    ReadMarker(2, name, s);
  }

  lemma RecordsEnd(name: string, rs: seq<Record>, t: string)
    requires AllSound(rs) && Record(0, Text("ENDSEC")) !in rs && name != "TABLES"
    ensures TakeSection(name, PrintRecords(rs)).None?
    ensures TakeSection(name, PrintRecords(rs) + (PrintRecord(Record(0, Text("ENDSEC"))) + t))
         == Some((if name == "HEADER" then Header(rs) else Unknown(name, rs + [Record(0, Text("ENDSEC"))]), t))
  {
    hide PrintRecord, PrintRecords, UntilEndSec, TakeTables, AllSound;
    SectionReadsBack(rs, t);
    NoEndSec(rs);
    assert (rs + [ENDSEC])[..|rs|] == rs;
  }

  lemma {:induction false} NoEndSec(rs: seq<Record>)
    requires AllSound(rs) && ENDSEC !in rs
    ensures UntilEndSec(PrintRecords(rs)).None?
  {
    if rs == [] {
      NoCode();
      hide CodeAfterComments;
    } else {
      hide PrintRecord, TakeRecord, Sound;
      assert Sound(rs[0]);
      TakePrintedRecord(rs[0], PrintRecords(rs[1..]));
      NoEndSec(rs[1..]);
    }
  }

  // ----- tables -----

  /** Between tables there is TABLE or ENDSEC. */
  lemma TablesStart(r: Record, t: string)
    requires Sound(r)
    ensures TakeTables([]).None?
    ensures r.code != 0 || (r.value != Text("TABLE") && r.value != Text("ENDSEC")) ==>
      TakeTables(PrintRecord(r) + t).None?
  {
    hide Sound, CodeAfterComments, ReadString, TakeTable, PrintRecord;
    NoCode();
    RecordStarts(r, t);
  }

  /** The records that have none of some group codes, in order. */
  function Others(rs: seq<Record>, codes: set<int>): seq<Record> {
    if rs == [] then []
    else Others(rs[..|rs| - 1], codes) + if rs[|rs| - 1].code in codes then [] else [rs[|rs| - 1]]
  }

  /** The value of the last record that has a group code. */
  function LastOf(rs: seq<Record>, code: int): Option<Value> {
    if rs == [] then None
    else if rs[|rs| - 1].code == code then Some(rs[|rs| - 1].value)
    else LastOf(rs[..|rs| - 1], code)
  }

  predicate IsText(v: Option<Value>, s: Option<string>) {
    match (v, s)
    case (None, None) => true
    case (Some(Text(a)), Some(b)) => a == b
    case _ => false
  }

  predicate IsNumber(v: Option<Value>, n: int) {
    match v
    case None => n == 0
    case Some(Number(m)) => m == n
    case _ => false
  }

  /** The last name, the last colour, and the other records. */
  predicate IsLayer(e: Entry, rs: seq<Record>) {
    && e.Layer? && IsText(LastOf(rs, 2), e.name) && IsNumber(LastOf(rs, 62), e.colour)
    && e.records == Others(rs, {2, 62})
  }

  predicate NoZero(rs: seq<Record>) {
    forall i :: 0 <= i < |rs| ==> rs[i].code != 0
  }

  /** A LAYER takes its last name and its last colour, and keeps all other
      records; any other entry keeps all. */
  lemma EntryHolds(kind: string, rs: seq<Record>, t: string)
    requires Readable(kind) && kind != "ENDTAB" && AllSound(rs) && NoZero(rs)
    ensures var e := AddAll(EmptyEntry(kind), rs);
      && TakeEntries(Line(kind) + (PrintRecords(rs) + (PrintCode(0) + t))) == Before([e], TakeEntries(t))
      && if kind == "LAYER" then IsLayer(e, rs) else e == Other(kind, rs)
  {
    hide PrintCode, PrintRecords, ReadString, UntilZero, Readable, AllSound, AddAll;
    StringSurvives(kind, PrintRecords(rs) + (PrintCode(0) + t));
    HolderReadsBack(rs, t);
    if kind == "LAYER" {
      LayerTakes(rs);
    } else {
      AddAllKeeps(EmptyEntry(kind), rs);
      assert [] + rs == rs;
    }
  }

  lemma {:induction false} LayerTakes(rs: seq<Record>)
    requires AllSound(rs)
    ensures IsLayer(AddAll(Layer(None, 0, []), rs), rs)
  {
    hide Sound;
    if rs != [] {
      var n := |rs| - 1;
      LayerTakes(rs[..n]);
      assert Sound(rs[n]);
      KindsOfValue(rs[n]);
    }
  }

  lemma KindsOfValue(r: Record)
    requires Sound(r)
    ensures r.code == 2 ==> r.value.Text?
    ensures r.code == 62 || r.code == 70 ==> r.value.Number?
  {
    assert TypeOf(2) == StringType && TypeOf(62) == Int16Type && TypeOf(70) == Int16Type;
    hide TypeOf, Readable, IsCode;
  }

  /** The head of a table: its last name, and all records but names and sizes. */
  lemma HeadHolds(rs: seq<Record>, t: string) returns (table: Table)
    requires AllSound(rs) && NoZero(rs)
    ensures TakeHead(PrintRecords(rs) + (PrintCode(0) + t), Table(None, [], [])) == Some((table, t))
    ensures IsText(LastOf(rs, 2), table.name) && table.records == Others(rs, {2, 70}) && table.entries == []
  {
    table := HeadTakes(rs, PrintCode(0) + t);
    hide TakeHead, PrintCode, PrintRecords;
    HeadStops(t, table);
  }

  lemma HeadStops(t: string, table: Table)
    ensures TakeHead(PrintCode(0) + t, table) == Some((table, t))
  {
    hide CodeAfterComments, PrintCode, ReadValue, ReadInt, ReadString;
    ReadPrintedCode(0, t);
  }

  lemma {:induction false} HeadTakes(rs: seq<Record>, y: string) returns (table: Table)
    requires AllSound(rs) && NoZero(rs)
    ensures TakeHead(PrintRecords(rs) + y, Table(None, [], [])) == TakeHead(y, table)
    ensures IsText(LastOf(rs, 2), table.name) && table.records == Others(rs, {2, 70}) && table.entries == []
    decreases |rs|
  {
    hide Sound, TakeHead, PrintRecord;
    if rs == [] {
      table := Table(None, [], []);
      assert PrintRecords(rs) + y == y;
    } else {
      var n := |rs| - 1;
      var front, r := rs[..n], rs[n];
      assert front + [r] == rs;
      var before := HeadTakes(front, PrintRecord(r) + y);
      table := HeadTakesOne(r, y, before);
      PrintAppend(front, r);
      hide PrintRecords;
      assert PrintRecords(front) + PrintRecord(r) + y == PrintRecords(front) + (PrintRecord(r) + y);
    }
  }

  lemma HeadTakesOne(r: Record, y: string, before: Table) returns (table: Table)
    requires Sound(r) && r.code != 0
    ensures TakeHead(PrintRecord(r) + y, before) == TakeHead(y, table)
    ensures r.code == 2 ==> r.value.Text? && table == before.(name := Some(r.value.text))
    ensures r.code == 70 ==> table == before
    ensures r.code != 2 && r.code != 70 ==> table == before.(records := before.records + [r])
  {
    KindsOfValue(r);
    if r.code == 2 {
      NameStarts(r, y);
      RecordStarts(r, y);
      table := before.(name := Some(r.value.text));
      hide ReadString, CodeAfterComments, PrintRecord, PrintValue;
    } else if r.code == 70 {
      table := before;
      RecordStarts(r, y);
      ReadPadded(r.value.number, 6, W16, y);
      hide Padded, CodeAfterComments, PrintRecord, ReadInt;
    } else {
      HeadRecordReadBack(r, y, before);
      table := before.(records := before.records + [r]);
      hide TakeHead, PrintRecord;
    }
  }

  /** A table without a name is written under the kind of its first entry. */
  lemma UnnamedTable(rs: seq<Record>, e: Entry, more: seq<Entry>, u: string)
    requires Table(None, rs, [e] + more).Legible()
    ensures TakeTable(PrintTableBody(Table(None, rs, [e] + more)) + u)
         == Some((Table(Some(if e.Layer? then "LAYER" else e.kind), rs, [e] + more), u))
  {
    hide TakeTable, PrintTableBody, Table.Legible;
    TableReadsBack(Table(None, rs, [e] + more), u);
  }

  // ----- numbers that are too wide -----

  /** A number that does not fit its 8 or 16 bits: a section has zero instead, and
      finds no group code behind it; an entry and the head of a table fail. */
  lemma TooWide(code: int, v: int, t: string, table: Table)
    requires (IsInt8Code(code) || IsInt16Code(code)) && !IsWithin(code, v)
    ensures var s := PrintCode(code) + (Padded(v, 6) + [LF] + t);
      && TakeRecord(s) == Some((Record(code, Number(0)), [LF] + t))
      && UntilEndSec(s).None? && UntilZero(s).None? && TakeHead(s, table).None?
  {
    ReadsWide(code, v, t);
    NoCodeThere(t);
    CodeIsCode(code);
    hide CodeAfterComments, PrintCode, Padded, ReadInt, ReadValue, ReadString;
    hide IsInt8Code, IsInt16Code, IsWithin, IsCode;
    NothingBehind(t);
  }

  lemma ReadsWide(code: int, v: int, t: string)
    requires (IsInt8Code(code) || IsInt16Code(code)) && !IsWithin(code, v)
    ensures var line := Padded(v, 6) + [LF] + t;
      && CodeAfterComments(PrintCode(code) + line) == (true, Some(code), line)
      && ReadValue(code, line) == ValueRead(false, Some(Number(0)), [LF] + t)
      && (code == 70 ==> !ReadInt(line, W16).ok)
  {
    CodeIsCode(code);
    ReadPrintedCode(code, Padded(v, 6) + [LF] + t);
    IntegerCodes(code, v, 6, t);
    IntegerLine(v, 6, W16, t);
    hide CodeAfterComments, PrintCode, Padded, ReadInt, ReadValue;
  }

  lemma CodeIsCode(code: int)
    requires IsInt8Code(code) || IsInt16Code(code)
    ensures IsCode(code) && code != 0 && code != 2
  {
  }

  lemma NoCodeThere(t: string)
    ensures !CodeAfterComments([LF] + t).0
  {
  }

  lemma NothingBehind(t: string)
    requires !CodeAfterComments([LF] + t).0
    ensures UntilEndSec([LF] + t).None?
  {
    hide CodeAfterComments;
  }

  // ----- handles -----

  /** A handle is what a string with group code 5 has in hexadecimal. */
  lemma HandleIs(n: nat, r: Record)
    requires n < 0x8000_0000
    ensures HandleOf(Record(5, Text(Numeral(n, 16)))) == Some(n)
    ensures r.code != 5 ==> HandleOf(r).None?
  {
    hide ScanHex;
    HandleScans(n);
  }

  /** The number n in 32 bits. */
  predicate IsInt(h: Option<int>, n: int) {
    h.Some? && -0x8000_0000 <= h.value < 0x8000_0000 && (h.value - n) % 0x1_0000_0000 == 0
  }

  /** A handle can start with 0x or a minus sign, and ends with its last
      hexadecimal digit. */
  lemma HandleForms(s: string, ds: seq<int>, u: string)
    requires Spells(s, ds, 16) && s != [] && Weighted(ds, 16) < 0x1_0000_0000_0000_0000
    requires u == [] || (!IsHexDigit(u[0]) && u[0] != 'x' && u[0] != 'X')
    ensures IsInt(HandleOf(Record(5, Text(s + u))), Weighted(ds, 16))
    ensures IsInt(HandleOf(Record(5, Text("0x" + (s + u)))), Weighted(ds, 16))
    ensures IsInt(HandleOf(Record(5, Text("0X" + (s + u)))), Weighted(ds, 16))
    ensures IsInt(HandleOf(Record(5, Text("-" + (s + u)))), -Weighted(ds, 16))
  {
    hide *;
    var n := Weighted(ds, 16);
    SpelledScan(s, ds, u);
    HandleText(s + u);
    HandleText("0x" + (s + u));
    HandleText("0X" + (s + u));
    HandleText("-" + (s + u));
    ScansPlain(s + u, s, n);
    ScansMinus(s + u, s, n);
    ScansPrefix("0x", s + u, s, n);
    ScansPrefix("0X", s + u, s, n);
    CutIsInt(n);
    CutIsInt(-n);
  }

  lemma SpelledScan(s: string, ds: seq<int>, u: string)
    requires Spells(s, ds, 16) && s != []
    requires u == [] || (!IsHexDigit(u[0]) && u[0] != 'x' && u[0] != 'X')
    ensures StartsPlain(s + u) && TakeDigits(s + u, true).0 == s && BaseValue(s, 16, 0) == Weighted(ds, 16) >= 0
  {
    SpelledDigits(s, ds, 16);
    hide Spells, DigitValue, StartsPlain;
    TakesAllDigits(s, true, u);
    DigitsStart(s, u);
    SpelledValue(s, ds, 16);
  }

  lemma HandleText(t: string)
    ensures HandleOf(Record(5, Text(t))) == ScanHex(t)
  {
    hide ScanHex;
  }

  lemma CutIsInt(n: int)
    ensures IsInt(Some(ToInt32(n)), n)
  {
  }

  predicate StartsPlain(t: string) {
    SplitSign(t) == ([], t) && !(|t| > 1 && t[0] == '0' && (t[1] == 'x' || t[1] == 'X'))
  }

  lemma ScansPlain(t: string, d: string, n: int)
    requires StartsPlain(t) && TakeDigits(t, true).0 == d != [] && BaseValue(d, 16, 0) == n
    requires 0 <= n < 0x1_0000_0000_0000_0000
    ensures ScanHex(t) == Some(ToInt32(n))
  {
    hide SplitSign, TakeDigits, BaseValue, ToInt32;
  }

  lemma ScansMinus(t: string, d: string, n: int)
    requires StartsPlain(t) && TakeDigits(t, true).0 == d != [] && BaseValue(d, 16, 0) == n
    requires 0 <= n < 0x1_0000_0000_0000_0000
    ensures ScanHex("-" + t) == Some(ToInt32(-n))
  {
    hide TakeDigits, BaseValue, ToInt32;
    assert ("-" + t)[1..] == t && ("-" + t)[..1] == "-";
  }

  lemma ScansPrefix(p: string, t: string, d: string, n: int)
    requires (p == "0x" || p == "0X") && TakeDigits(t, true).0 == d != [] && BaseValue(d, 16, 0) == n
    requires 0 <= n < 0x1_0000_0000_0000_0000
    ensures ScanHex(p + t) == Some(ToInt32(n))
  {
    hide TakeDigits, BaseValue, ToInt32;
    assert (p + t)[2..] == t;
  }

  lemma DigitsStart(s: string, u: string)
    requires s != [] && forall i :: 0 <= i < |s| ==> IsHexDigit(s[i])
    requires u == [] || (!IsHexDigit(u[0]) && u[0] != 'x' && u[0] != 'X')
    ensures StartsPlain(s + u)
  {
    var t := s + u;
    assert t[0] == s[0];
    if |t| > 1 {
      assert t[1] == if |s| > 1 then s[1] else u[0];
    }
  }
}
