/** What is printed is read back, and whatever is read can be printed: a model
    comes back unchanged from its own file exactly when it is well formed. */
module RoundTrip {
  import opened Wrappers
  import opened Tokens
  import opened Numbers
  import opened Reals
  import opened Records
  import opened Document
  import opened Input

  /** A marker record: a group code and a readable string. */
  lemma ReadMarker(code: int, text: string, t: string)
    requires IsCode(code) && Readable(text)
    ensures PrintRecord(Record(code, Text(text))) + t == PrintCode(code) + (Line(text) + t)
    ensures CodeAfterComments(PrintRecord(Record(code, Text(text))) + t) == (true, Some(code), Line(text) + t)
    ensures ReadString(Line(text) + t) == (Some(text), t)
  {
    hide CodeAfterComments, ReadString, PrintCode, Readable;
    assert PrintRecord(Record(code, Text(text))) + t == PrintCode(code) + (Line(text) + t);
    ReadPrintedCode(code, Line(text) + t);
    StringSurvives(text, t);
  }

  // ----- entries -----

  lemma {:induction false} AddAllKeeps(e: Entry, rs: seq<Record>)
    requires e.Layer? ==> forall i :: 0 <= i < |rs| ==> rs[i].code != 2 && rs[i].code != 62
    ensures AddAll(e, rs) == e.(records := e.records + rs)
  {
    if rs == [] {
      assert e.records + rs == e.records;
    } else {
      AddAllKeeps(e, rs[..|rs| - 1]);
      assert e.records + rs[..|rs| - 1] + [rs[|rs| - 1]] == e.records + rs;
    }
  }

  /** Handling the records an entry writes gives the entry. */
  lemma EntryRebuilt(e: Entry)
    requires e.WellFormed()
    ensures AddAll(EmptyEntry(e.Kind()), e.Written()) == e
  {
    var empty := EmptyEntry(e.Kind());
    AddAllKeeps(empty, e.records);
    assert empty.records + e.records == e.records;
    match e
    case Layer(name, colour, records) =>
      if name.Some? {
        AddOneMore(empty, records, Record(2, Text(name.value)));
        AddOneMore(empty, records + [Record(2, Text(name.value))], Record(62, Number(colour)));
      } else {
        assert records + [] == records;
        AddOneMore(empty, records, Record(62, Number(colour)));
      }
    case Other(_, _) =>
  }

  lemma WrittenIsSound(e: Entry)
    requires e.WellFormed()
    ensures AllSound(e.Written()) && forall i :: 0 <= i < |e.Written()| ==> e.Written()[i].code != 0
    ensures Readable(e.Kind()) && e.Kind() != "ENDTAB"
  {
    assert Readable("LAYER") && IsCode(62) && IsCode(2);
    hide Readable, IsCode;
    if e.Layer? {
      assert TypeOf(62) == Int16Type && TypeOf(2) == StringType;
      assert Sound(Record(62, Number(e.colour)));
      assert e.name.Some? ==> Sound(Record(2, Text(e.name.value)));
    }
  }

  /** The entries and the end of the table, from behind the first group code. */
  function EntriesTail(es: seq<Entry>, t: string): string {
    if es == [] then Line("ENDTAB") + t
    else Line(es[0].Kind()) + (PrintRecords(es[0].Written()) + (PrintCode(0) + EntriesTail(es[1..], t)))
  }

  lemma {:induction false} EntriesByTail(es: seq<Entry>, t: string)
    ensures PrintEntries(es) + (PrintRecord(ENDTAB) + t) == PrintCode(0) + EntriesTail(es, t)
  {
    hide PrintCode, PrintRecords;
    if es == [] {
      assert PrintEntries(es) + (PrintRecord(ENDTAB) + t) == PrintCode(0) + (Line("ENDTAB") + t);
    } else {
      EntriesByTail(es[1..], t);
      var rest := PrintEntries(es[1..]) + (PrintRecord(ENDTAB) + t);
      assert PrintEntries(es) + (PrintRecord(ENDTAB) + t)
          == PrintCode(0) + (Line(es[0].Kind()) + (PrintRecords(es[0].Written()) + rest));
    }
  }

  lemma {:induction false} EntriesReadBack(es: seq<Entry>, t: string)
    requires forall i :: 0 <= i < |es| ==> es[i].WellFormed()
    ensures TakeEntries(EntriesTail(es, t)) == Some((es, t))
  {
    hide PrintCode, PrintRecords, ReadString, UntilZero, Entry.WellFormed, Entry.Written, Entry.Kind, Readable,
      AllSound, AddAll;
    if es == [] {
      MarkersAreReadable();
      StringSurvives("ENDTAB", t);
    } else {
      var e, rest := es[0], EntriesTail(es[1..], t);
      WrittenIsSound(e);
      StringSurvives(e.Kind(), PrintRecords(e.Written()) + (PrintCode(0) + rest));
      HolderReadsBack(e.Written(), rest);
      EntryRebuilt(e);
      EntriesReadBack(es[1..], t);
      assert [e] + es[1..] == es;
    }
  }

  // ----- tables -----

  lemma {:induction false} HeadRecordsReadBack(rs: seq<Record>, t: string, table: Table)
    requires AllSound(rs) && forall i :: 0 <= i < |rs| ==> rs[i].code !in {0, 2, 70}
    ensures TakeHead(PrintRecords(rs) + t, table) == TakeHead(t, table.(records := table.records + rs))
  {
    hide TakeHead, PrintRecord, Sound;
    if rs == [] {
      assert PrintRecords(rs) + t == t && table.records + rs == table.records;
    } else {
      var r, rest := rs[0], PrintRecords(rs[1..]) + t;
      PrintFirst(rs, t);
      assert Sound(r);
      HeadRecordReadBack(r, rest, table);
      HeadRecordsReadBack(rs[1..], t, table.(records := table.records + [r]));
      assert table.records + [r] + rs[1..] == table.records + rs;
    }
  }

  lemma HeadRecordReadBack(r: Record, t: string, table: Table)
    requires Sound(r) && r.code !in {0, 2, 70}
    ensures TakeHead(PrintRecord(r) + t, table) == TakeHead(t, table.(records := table.records + [r]))
  {
    hide PrintCode, PrintValue, CodeAfterComments, ReadValue, Fitting, IsCode, ReadInt, ReadString;
    assert PrintRecord(r) + t == PrintCode(r.code) + (PrintValue(r.value) + t);
    ReadPrintedCode(r.code, PrintValue(r.value) + t);
    ReadPrintedValue(r.code, r.value, t);
  }

  /** The end of the head: the number of entries and a group code 0. */
  lemma HeadEnds(count: int, t: string, table: Table)
    ensures TakeHead(PrintRecord(Record(70, Number(ToInt16(count)))) + (PrintCode(0) + t), table) == Some((table, t))
  {
    hide CodeAfterComments, PrintCode, ReadInt, ReadString, ReadValue, Padded;
    var n, rest := ToInt16(count), PrintCode(0) + t;
    assert PrintRecord(Record(70, Number(n))) + rest == PrintCode(70) + (Line(Padded(n, 6)) + rest);
    ReadPrintedCode(70, Line(Padded(n, 6)) + rest);
    ReadPadded(n, 6, W16, rest);
    ReadPrintedCode(0, t);
  }

  lemma HeadNames(name: string, t: string, table: Table)
    requires Readable(name)
    ensures TakeHead(PrintRecord(Record(2, Text(name))) + t, table) == TakeHead(t, table.(name := Some(name)))
  {
    hide CodeAfterComments, PrintCode, ReadInt, ReadString, ReadValue, Readable, PrintRecord;
    ReadMarker(2, name, t);
  }

  lemma TablePrinted(t: Table, u: string)
    ensures PrintTableBody(t) + u
         == PrintRecord(Record(2, Text(t.Title())))
            + (PrintRecords(t.records)
            + (PrintRecord(Record(70, Number(ToInt16(|t.entries|))))
            + (PrintEntries(t.entries) + (PrintRecord(ENDTAB) + u))))
  {
    hide PrintRecord, PrintRecords, PrintEntries, Table.Title, ToInt16;
    var a, b := PrintRecord(Record(2, Text(t.Title()))), PrintRecords(t.records);
    var c := PrintRecord(Record(70, Number(ToInt16(|t.entries|))));
    var d, e := PrintEntries(t.entries), PrintRecord(ENDTAB);
    Regroup(a + b + c + d, e, u);
    Regroup(a + b + c, d, e + u);
    Regroup(a + b, c, d + (e + u));
    Regroup(a, b, c + (d + (e + u)));
  }

  lemma TableIsLegible(t: Table)
    requires t.Legible() && t.Titled()
    ensures Readable(t.Title()) && AllSound(t.records)
    ensures forall i :: 0 <= i < |t.records| ==> t.records[i].code !in {0, 2, 70}
    ensures forall i :: 0 <= i < |t.entries| ==> t.entries[i].WellFormed()
  {
    if t.name.None? {
      WrittenIsSound(t.entries[0]);
    }
  }

  lemma TableReadsBack(t: Table, u: string)
    requires t.Legible() && t.Titled()
    ensures TakeTable(PrintTableBody(t) + u) == Some((t.Named(), u))
  {
    hide TakeHead, TakeEntries, PrintRecord, PrintRecords, PrintEntries, PrintTableBody, PrintCode, Readable, AllSound,
      Entry.WellFormed, EntriesTail, Table.Title, Table.Legible, Table.Titled, ToInt16;
    var title := t.Title();
    var es := PrintEntries(t.entries) + (PrintRecord(ENDTAB) + u);
    var head := PrintRecord(Record(70, Number(ToInt16(|t.entries|)))) + es;
    var empty := Table(None, [], []);
    var named := empty.(name := Some(title));
    TableIsLegible(t);
    TablePrinted(t, u);
    HeadNames(title, PrintRecords(t.records) + head, empty);
    HeadRecordsReadBack(t.records, head, named);
    assert named.records + t.records == t.records;
    EntriesByTail(t.entries, u);
    HeadEnds(|t.entries|, EntriesTail(t.entries, u), named.(records := t.records));
    EntriesReadBack(t.entries, u);
  }

  lemma MarkersAreReadable()
    ensures Readable("ENDSEC") && Readable("TABLE") && Readable("ENDTAB") && Readable("EOF") && Readable("SECTION")
    ensures Readable("TABLES")
    ensures IsCode(0) && IsCode(2)
  {
  }

  /** One table and whatever follows it. */
  lemma FirstTableReadsBack(t: Table, rest: string)
    requires t.Legible() && t.Titled()
    ensures TakeTables(PrintRecord(TABLE) + PrintTableBody(t) + rest) == Before([t.Named()], TakeTables(rest))
  {
    hide TakeTable, PrintRecord, PrintTableBody, PrintCode, Line, IsCode, CodeAfterComments, ReadString, Readable,
      Table.Named, Table.Legible, Table.Titled;
    MarkersAreReadable();
    Regroup(PrintRecord(TABLE), PrintTableBody(t), rest);
    ReadMarker(0, "TABLE", PrintTableBody(t) + rest);
    TableReadsBack(t, rest);
  }

  lemma NoMoreTables(u: string)
    ensures TakeTables(PrintRecord(ENDSEC) + u) == Some(([], u))
  {
    hide TakeTable, PrintRecord, PrintCode, Line, IsCode, CodeAfterComments, ReadString, Readable;
    MarkersAreReadable();
    ReadMarker(0, "ENDSEC", u);
  }

  lemma {:induction false} TablesReadBack(ts: seq<Table>, u: string)
    requires forall i :: 0 <= i < |ts| ==> ts[i].Legible() && ts[i].Titled()
    ensures TakeTables(PrintTables(ts) + (PrintRecord(ENDSEC) + u)) == Some((NamedTables(ts), u))
  {
    hide TakeTables, PrintRecord, PrintTableBody, Table.Named, Table.Legible, Table.Titled;
    var end := PrintRecord(ENDSEC) + u;
    if ts == [] {
      assert PrintTables(ts) + end == end;
      NoMoreTables(u);
    } else {
      var rest := PrintTables(ts[1..]) + end;
      assert PrintTables(ts) + end == PrintRecord(TABLE) + PrintTableBody(ts[0]) + rest;
      FirstTableReadsBack(ts[0], rest);
      TablesReadBack(ts[1..], u);
    }
  }

  // ----- sections and the model -----

  /** What follows the name of a section. */
  function SectionBody(sec: Section): string {
    match sec
    case Header(rs) => PrintRecords(rs) + PrintRecord(ENDSEC)
    case Tables(ts) => PrintTables(ts) + PrintRecord(ENDSEC)
    case Unknown(_, rs) => PrintRecords(rs)
  }

  lemma FrontIsSound(rs: seq<Record>)
    requires rs != [] && AllSound(rs)
    ensures AllSound(rs[..|rs| - 1])
  {
  }

  lemma NoneIsSound()
    ensures AllSound([])
  {
  }

  lemma SectionReturns(sec: Section, u: string)
    requires sec.Legible() && sec.Titled()
    ensures TakeSection(sec.Name(), SectionBody(sec) + u) == Some((sec.Named(), u))
  {
    hide PrintRecord, PrintRecords, PrintTables, UntilEndSec, TakeTables, Table.Legible, Table.Titled, AllSound,
      Readable;
    var end := PrintRecord(ENDSEC) + u;
    match sec
    case Header(rs) =>
      assert SectionBody(sec) + u == PrintRecords(rs) + end;
      SectionReadsBack(rs, u);
      assert (rs + [ENDSEC])[..|rs|] == rs;
    case Tables(ts) =>
      assert SectionBody(sec) + u == PrintTables(ts) + end;
      TablesReadBack(ts, u);
    case Unknown(_, rs) =>
      var front := rs[..|rs| - 1];
      assert rs == front + [ENDSEC];
      PrintAppend(front, ENDSEC);
      assert SectionBody(sec) + u == PrintRecords(front) + end;
      FrontIsSound(rs);
      SectionReadsBack(front, u);
  }

  /** One section and whatever follows it. */
  lemma FirstSectionReadsBack(sec: Section, rest: string)
    requires sec.Legible() && sec.Titled()
    ensures TakeModel(PrintRecord(SECTION) + PrintSection(sec) + rest) == After([sec.Named()], TakeModel(rest))
  {
    assert SECTION == Record(0, Text("SECTION"));
    hide CodeAfterComments, ReadString, TakeSection, PrintRecord, PrintSection, SectionBody, Line, PrintCode, Readable,
      IsCode, Section.Named, Section.Legible, Section.Titled, Section.Name, IsElsewhere;
    var body := SectionBody(sec) + rest;
    var named := PrintRecord(Record(2, Text(sec.Name()))) + body;
    SectionPrinted(sec);
    NameIsReadable(sec);
    Regroup(PrintRecord(SECTION), PrintSection(sec), rest);
    Regroup(PrintRecord(Record(2, Text(sec.Name()))), SectionBody(sec), rest);
    ReadMarker(0, "SECTION", named);
    ReadMarker(2, sec.Name(), body);
    SectionReturns(sec, rest);
  }

  lemma {:induction false} SectionsReadBack(ss: seq<Section>)
    requires AllLegible(ss) && AllTitled(ss)
    ensures TakeModel(PrintSections(ss) + PrintRecord(EOF)) == Outcome(AllNamed(ss), Done)
  {
    hide TakeModel, PrintRecord, PrintSection, Section.Named, Section.Legible, Section.Titled;
    var end := PrintRecord(EOF);
    if ss == [] {
      assert PrintSections(ss) + end == end;
      EofReadsBack();
    } else {
      FirstSectionReadsBack(ss[0], PrintSections(ss[1..]) + end);
      SectionsReadBack(ss[1..]);
      assert PrintSections(ss) + end == PrintRecord(SECTION) + PrintSection(ss[0]) + (PrintSections(ss[1..]) + end);
    }
  }

  lemma EofReadsBack()
    ensures TakeModel(PrintRecord(EOF)) == Outcome([], Done)
  {
    hide CodeAfterComments, ReadString, TakeSection, PrintRecord, PrintSection, SectionBody, Line, PrintCode, Readable,
      IsCode, Section.Named, Section.Legible, Section.Titled, Section.Name, IsElsewhere;
    MarkersAreReadable();
    ReadMarker(0, "EOF", []);
    assert PrintRecord(EOF) + [] == PrintRecord(EOF);
  }

  lemma SectionPrinted(sec: Section)
    ensures PrintSection(sec) == PrintRecord(Record(2, Text(sec.Name()))) + SectionBody(sec)
  {
  }

  lemma NameIsReadable(sec: Section)
    requires sec.Legible()
    ensures Readable(sec.Name()) && !IsElsewhere(sec.Name()) && Readable("SECTION") && IsCode(0) && IsCode(2)
  {
    assert Readable("HEADER") && Readable("TABLES");
  }

  /** Comments are not read back. */
  lemma {:induction false} CommentsAreSkipped(comments: seq<string>, t: string)
    requires AllReadable(comments)
    ensures TakeModel(PrintComments(comments) + t) == TakeModel(t)
  {
    if comments == [] {
      assert PrintComments(comments) + t == t;
    } else {
      var rest := PrintComments(comments[1..]) + t;
      assert PrintComments(comments) + t == PrintCode(COMMENT) + Line(comments[0]) + rest;
      CommentIsSkipped(comments[0], rest);
      CommentsAreSkipped(comments[1..], t);
      SameFirstCode(PrintCode(COMMENT) + Line(comments[0]) + rest, rest);
    }
  }

  lemma SameFirstCode(s: string, t: string)
    requires CodeAfterComments(s) == CodeAfterComments(t)
    ensures TakeModel(s) == TakeModel(t)
  {
    hide CodeAfterComments, ReadString, TakeSection;
  }

  /** Every model the reader can make, written and read again. */
  lemma WrittenModelReadsBack(comments: seq<string>, ss: seq<Section>)
    requires AllReadable(comments) && AllLegible(ss) && AllTitled(ss)
    ensures TakeModel(PrintModel(comments, ss)) == Outcome(AllNamed(ss), Done)
  {
    hide TakeModel, PrintSections, PrintComments, PrintRecord, AllLegible, AllTitled, AllReadable, AllNamed;
    var rest := PrintSections(ss) + PrintRecord(EOF);
    assert PrintModel(comments, ss) == PrintComments(comments) + rest;
    CommentsAreSkipped(comments, rest);
    SectionsReadBack(ss);
  }

  // ----- what has been read is legible -----

  lemma AddKeeps(e: Entry, r: Record)
    requires e.WellFormed() && Sound(r) && r.code != 0
    ensures e.Add(r).WellFormed()
  {
    hide Readable, IsReal, IsCode;
    if e.Layer? {
      assert TypeOf(62) == Int16Type && TypeOf(2) == StringType;
    }
  }

  lemma {:induction false} AddAllIsWellFormed(e: Entry, rs: seq<Record>)
    requires e.WellFormed() && AllSound(rs) && forall i :: 0 <= i < |rs| ==> rs[i].code != 0
    ensures AddAll(e, rs).WellFormed()
  {
    hide Sound, Entry.WellFormed;
    if rs != [] {
      var n := |rs| - 1;
      AddAllIsWellFormed(e, rs[..n]);
      assert Sound(rs[n]);
      AddKeeps(AddAll(e, rs[..n]), rs[n]);
    }
  }

  lemma StringIsReadable(s: string)
    requires ReadString(s).0.Some?
    ensures Readable(ReadString(s).0.value)
  {
  }

  lemma {:induction false} EntriesAreWellFormed(s: string)
    requires TakeEntries(s).Some?
    ensures forall i :: 0 <= i < |TakeEntries(s).value.0| ==> TakeEntries(s).value.0[i].WellFormed()
    decreases |s|
  {
    hide ReadString, UntilZero, Readable, AddAll, AllSound;
    var (kind, s1) := ReadString(s);
    StringIsReadable(s);
    if kind.value != "ENDTAB" {
      var (rs, s2) := UntilZero(s1).value;
      HolderIsSound(s1);
      NoneIsSound();
      AddAllIsWellFormed(EmptyEntry(kind.value), rs);
      EntriesAreWellFormed(s2);
    }
  }

  lemma {:induction false} HeadIsLegible(s: string, t: Table)
    requires TakeHead(s, t).Some? && t.Legible() && t.entries == []
    ensures TakeHead(s, t).value.0.Legible() && TakeHead(s, t).value.0.entries == []
    decreases |s|
  {
    hide CodeAfterComments, ReadInt, ReadString, ReadValue, Fitting, Readable, IsCode;
    var (ok, code, s1) := CodeAfterComments(s);
    ReadCodeIsSound(s);
    if code == Some(70) {
      HeadIsLegible(ReadInt(s1, W16).rest, t);
    } else if code == Some(2) {
      StringIsReadable(s1);
      HeadIsLegible(ReadString(s1).1, t.(name := ReadString(s1).0));
    } else if code != Some(0) {
      var v := ReadValue(code.value, s1);
      ReadValueFits(code.value, s1);
      var r := Record(code.value, v.value.value);
      assert Sound(r);
      HeadIsLegible(v.rest, t.(records := t.records + [r]));
    }
  }

  lemma {:induction false} TablesAreLegible(s: string)
    requires TakeTables(s).Some?
    ensures forall i :: 0 <= i < |TakeTables(s).value.0| ==> TakeTables(s).value.0[i].Legible()
    decreases |s|
  {
    hide CodeAfterComments, ReadString, TakeHead, TakeEntries, Entry.WellFormed, AllSound;
    var s1 := CodeAfterComments(s).2;
    var (line, s2) := ReadString(s1);
    if line != Some("ENDSEC") {
      var empty := Table(None, [], []);
      NoneIsSound();
      HeadIsLegible(s2, empty);
      EntriesAreWellFormed(TakeHead(s2, empty).value.1);
      TablesAreLegible(TakeTable(s2).value.1);
    }
  }

  lemma {:induction false} LoadedIsLegible(s: string)
    ensures AllLegible(TakeModel(s).sections)
    decreases |s|
  {
    hide CodeAfterComments, ReadString, TakeTables, UntilEndSec, AllSound, Table.Legible, Readable;
    var (ok, code, s1) := CodeAfterComments(s);
    if ok && code == Some(0) {
      var (line, s2) := ReadString(s1);
      var (ok2, code2, s3) := CodeAfterComments(s2);
      var (name, s4) := ReadString(s3);
      if line == Some("SECTION") && ok2 && name.Some? && code2 == Some(2) && !IsElsewhere(name.value) {
        if TakeSection(name.value, s4).Some? {
          StringIsReadable(s3);
          SectionIsLegible(name.value, s4);
          LoadedIsLegible(TakeSection(name.value, s4).value.1);
        }
      }
    }
  }

  lemma SectionIsLegible(name: string, s: string)
    requires TakeSection(name, s).Some? && Readable(name) && !IsElsewhere(name)
    ensures TakeSection(name, s).value.0.Legible()
  {
    hide TakeTables, UntilEndSec, Table.Legible, Readable;
    if name == "TABLES" {
      TablesAreLegible(s);
    } else {
      SectionIsSound(s);
    }
  }

  // ----- the law -----

  predicate AllTablesNamed(ss: seq<Section>) {
    forall i, k :: 0 <= i < |ss| && ss[i].Tables? && 0 <= k < |ss[i].tables| ==> ss[i].tables[k].name.Some?
  }

  lemma {:induction false} NamedTablesUnchanged(ts: seq<Table>)
    ensures NamedTables(ts) == ts <==> forall k :: 0 <= k < |ts| ==> ts[k].name.Some?
    ensures |NamedTables(ts)| == |ts|
  {
    if ts != [] {
      NamedTablesUnchanged(ts[1..]);
      assert ts == [ts[0]] + ts[1..];
      assert NamedTables(ts)[1..] == NamedTables(ts[1..]);
    }
  }

  lemma {:induction false} AllNamedUnchanged(ss: seq<Section>)
    ensures AllNamed(ss) == ss <==> AllTablesNamed(ss)
    ensures |AllNamed(ss)| == |ss|
  {
    if ss != [] {
      AllNamedUnchanged(ss[1..]);
      assert AllNamed(ss)[1..] == AllNamed(ss[1..]);
      assert ss == [ss[0]] + ss[1..];
      if ss[0].Tables? {
        NamedTablesUnchanged(ss[0].tables);
      }
    }
  }

  // ----- numbers are formatted -----

  lemma RoundedEntryIsWellFormed(f: Format, e: Entry)
    requires IsFormat(f) && e.WellFormed()
    ensures RoundedEntry(f, e).WellFormed()
  {
    hide AllSound, Readable, Rounded;
    RoundedIsSound(f, e.records);
    RoundedCodes(f, e.records);
  }

  lemma RoundedCodes(f: Format, rs: seq<Record>)
    ensures forall i :: 0 <= i < |rs| ==> RoundedRecords(f, rs)[i].code == rs[i].code
    ensures forall i :: 0 <= i < |rs| ==> (RoundedRecords(f, rs)[i] == ENDSEC <==> rs[i] == ENDSEC)
  {
  }

  lemma RoundedTableIsLegible(f: Format, t: Table)
    requires IsFormat(f) && t.Legible()
    ensures RoundedTable(f, t).Legible()
  {
    hide AllSound, Readable, Rounded, RoundedEntry, Entry.WellFormed;
    RoundedIsSound(f, t.records);
    RoundedCodes(f, t.records);
    forall i | 0 <= i < |t.entries|
      ensures RoundedEntry(f, t.entries[i]).WellFormed()
    {
      RoundedEntryIsWellFormed(f, t.entries[i]);
    }
  }

  lemma RoundedSectionIsLegible(f: Format, sec: Section)
    requires IsFormat(f) && sec.Legible()
    ensures RoundedSection(f, sec).Legible()
  {
    hide AllSound, Readable, Rounded, RoundedTable, Table.Legible;
    match sec
    case Header(rs) =>
      RoundedIsSound(f, rs);
      RoundedCodes(f, rs);
    case Tables(ts) =>
      forall i | 0 <= i < |ts|
        ensures RoundedTable(f, ts[i]).Legible()
      {
        RoundedTableIsLegible(f, ts[i]);
      }
    case Unknown(_, rs) =>
      RoundedIsSound(f, rs);
      RoundedCodes(f, rs);
  }

  lemma RoundedTitles(f: Format, sec: Section)
    ensures RoundedSection(f, sec).Titled() <==> sec.Titled()
  {
    hide RoundedRecords, RoundedEntry;
  }

  /** Formatting keeps what makes a model legible. */
  lemma RoundedIsLegible(f: Format, ss: seq<Section>)
    requires IsFormat(f) && AllLegible(ss)
    ensures AllLegible(RoundedSections(f, ss)) && (AllTitled(ss) ==> AllTitled(RoundedSections(f, ss)))
    ensures AllTablesNamed(ss) <==> AllTablesNamed(RoundedSections(f, ss))
  {
    hide Section.Legible, Section.Titled, RoundedRecords, RoundedEntry;
    var q := RoundedSections(f, ss);
    forall i | 0 <= i < |ss|
      ensures q[i].Legible() && (ss[i].Titled() ==> q[i].Titled())
    {
      RoundedSectionIsLegible(f, ss[i]);
      RoundedTitles(f, ss[i]);
    }
    RoundedKeepsNames(f, ss);
  }

  lemma RoundedKeepsNames(f: Format, ss: seq<Section>)
    ensures AllTablesNamed(ss) <==> AllTablesNamed(RoundedSections(f, ss))
  {
    hide RoundedRecords, RoundedEntry;
    var q := RoundedSections(f, ss);
    assert forall i, k :: 0 <= i < |ss| && ss[i].Tables? && 0 <= k < |ss[i].tables| ==>
      q[i].tables[k].name == ss[i].tables[k].name;
    assert forall i :: 0 <= i < |ss| ==> (q[i].Tables? <==> ss[i].Tables?);
    assert forall i :: 0 <= i < |ss| && ss[i].Tables? ==> |q[i].tables| == |ss[i].tables|;
  }

  /** What is written, numbers formatted, is read back. */
  lemma FormattedModelReadsBack(f: Format, comments: seq<string>, ss: seq<Section>)
    requires IsFormat(f) && AllReadable(comments) && AllLegible(ss) && AllTitled(ss)
    ensures TakeModel(PrintModel(comments, RoundedSections(f, ss))) == Outcome(AllNamed(RoundedSections(f, ss)), Done)
  {
    hide *;
    RoundedIsLegible(f, ss);
    WrittenModelReadsBack(comments, RoundedSections(f, ss));
  }

  /** A model that can be written comes back unchanged exactly when it is legible,
      each of its tables has a name of its own, and formatting does not change
      its numbers. */
  lemma ModelSurvives(f: Format, comments: seq<string>, ss: seq<Section>)
    requires IsFormat(f) && AllReadable(comments) && AllTitled(ss)
    ensures TakeModel(PrintModel(comments, RoundedSections(f, ss))) == Outcome(ss, Done)
       <==> AllLegible(ss) && AllTablesNamed(ss) && RoundedSections(f, ss) == ss
  {
    hide *;
    var q := RoundedSections(f, ss);
    LoadedIsLegible(PrintModel(comments, q));
    if AllLegible(ss) {
      RoundedIsLegible(f, ss);
      WrittenModelReadsBack(comments, q);
      AllNamedUnchanged(q);
      NamedAreNamed(q);
    }
  }

  lemma {:induction false} NamedTablesAreNamed(ts: seq<Table>)
    ensures |NamedTables(ts)| == |ts| && forall k :: 0 <= k < |ts| ==> NamedTables(ts)[k].name.Some?
  {
    if ts != [] {
      NamedTablesAreNamed(ts[1..]);
    }
  }

  lemma {:induction false} NamedAreNamed(ss: seq<Section>)
    ensures |AllNamed(ss)| == |ss| && AllTablesNamed(AllNamed(ss))
  {
    if ss != [] {
      NamedAreNamed(ss[1..]);
      var all, later := AllNamed(ss), AllNamed(ss[1..]);
      if ss[0].Tables? {
        NamedTablesAreNamed(ss[0].tables);
      }
      hide AllNamed, Table.Named;
      forall i, k | 0 <= i < |all| && all[i].Tables? && 0 <= k < |all[i].tables|
        ensures all[i].tables[k].name.Some?
      {
        assert i > 0 ==> all[i] == later[i - 1];
      }
    }
  }

  /** Loading, saving and loading again: for every file that loads to a model
      whose tables have titles. The sections are the same exactly when each table
      has a name of its own and formatting does not change the numbers. */
  lemma LoadSaveLoad(f: Format, s: string, comments: seq<string>)
    requires IsFormat(f) && AllReadable(comments)
    requires TakeModel(s).status.Done? && AllTitled(TakeModel(s).sections)
    ensures var ss := TakeModel(s).sections;
      var again := TakeModel(PrintModel(comments, RoundedSections(f, ss)));
      && again == Outcome(AllNamed(RoundedSections(f, ss)), Done)
      && (again.sections == ss <==> AllTablesNamed(ss) && RoundedSections(f, ss) == ss)
  {
    hide *;
    var ss := TakeModel(s).sections;
    LoadedIsLegible(s);
    FormattedModelReadsBack(f, comments, ss);
    ModelSurvives(f, comments, ss);
  }

  // ----- saving twice -----

  /** A number that has been formatted stays as it is. */
  ghost predicate IsStable(f: Format) {
    forall s :: IsReal(s) ==> f(f(s)) == f(s)
  }

  lemma RecordsSettle(f: Format, rs: seq<Record>)
    requires IsStable(f) && AllSound(rs)
    ensures RoundedRecords(f, RoundedRecords(f, rs)) == RoundedRecords(f, rs)
  {
    hide IsReal, Readable, IsCode;
    forall i | 0 <= i < |rs|
      ensures Rounded(f, Rounded(f, rs[i])) == Rounded(f, rs[i])
    {
      assert Sound(rs[i]);
    }
  }

  lemma TableSettles(f: Format, t: Table)
    requires IsStable(f) && t.Legible()
    ensures RoundedTable(f, RoundedTable(f, t)) == RoundedTable(f, t)
  {
    hide RoundedRecords, AllSound, Readable;
    RecordsSettle(f, t.records);
    forall i | 0 <= i < |t.entries|
      ensures RoundedEntry(f, RoundedEntry(f, t.entries[i])) == RoundedEntry(f, t.entries[i])
    {
      assert t.entries[i].WellFormed();
      RecordsSettle(f, t.entries[i].records);
    }
    hide RoundedEntry;
    assert RoundedEntries(f, RoundedEntries(f, t.entries)) == RoundedEntries(f, t.entries);
  }

  lemma SectionSettles(f: Format, sec: Section)
    requires IsStable(f) && sec.Legible()
    ensures RoundedSection(f, RoundedSection(f, sec)) == RoundedSection(f, sec)
  {
    hide RoundedRecords, RoundedTable, AllSound, Table.Legible;
    match sec
    case Header(rs) => RecordsSettle(f, rs);
    case Unknown(_, rs) => RecordsSettle(f, rs);
    case Tables(ts) =>
      forall i | 0 <= i < |ts|
        ensures RoundedTable(f, RoundedTable(f, ts[i])) == RoundedTable(f, ts[i])
      {
        TableSettles(f, ts[i]);
      }
      assert RoundedTables(f, RoundedTables(f, ts)) == RoundedTables(f, ts);
  }

  lemma NamedTableRounds(f: Format, t: Table)
    ensures RoundedTable(f, t.Named()) == RoundedTable(f, t).Named()
  {
    hide RoundedRecords;
  }

  lemma {:induction false} NamedTablesRound(f: Format, ts: seq<Table>)
    ensures RoundedTables(f, NamedTables(ts)) == NamedTables(RoundedTables(f, ts))
  {
    hide RoundedTable, Table.Named;
    if ts != [] {
      NamedTablesRound(f, ts[1..]);
      NamedTableRounds(f, ts[0]);
      assert RoundedTables(f, ts)[1..] == RoundedTables(f, ts[1..]);
      assert RoundedTables(f, NamedTables(ts))
          == [RoundedTable(f, ts[0].Named())] + RoundedTables(f, NamedTables(ts[1..]));
    }
  }

  lemma NamedSectionRounds(f: Format, sec: Section)
    ensures RoundedSection(f, sec.Named()) == RoundedSection(f, sec).Named()
  {
    if sec.Tables? {
      NamedTablesRound(f, sec.tables);
    }
    hide RoundedTables, NamedTables, RoundedRecords;
  }

  lemma {:induction false} NamedRound(f: Format, ss: seq<Section>)
    ensures RoundedSections(f, AllNamed(ss)) == AllNamed(RoundedSections(f, ss))
  {
    if ss != [] {
      NamedRound(f, ss[1..]);
      NamedSectionRounds(f, ss[0]);
      hide RoundedSection, Section.Named;
      assert RoundedSections(f, ss)[1..] == RoundedSections(f, ss[1..]);
      assert RoundedSections(f, AllNamed(ss))
          == [RoundedSection(f, ss[0].Named())] + RoundedSections(f, AllNamed(ss[1..]));
    }
  }

  lemma NamedAreTitled(ss: seq<Section>)
    requires AllTablesNamed(ss)
    ensures AllTitled(ss)
  {
  }

  /** From the second save on nothing changes any more, whatever the first did. */
  lemma SavesSettle(f: Format, comments: seq<string>, ss: seq<Section>)
    requires IsFormat(f) && IsStable(f) && AllReadable(comments) && AllLegible(ss) && AllTitled(ss)
    ensures var again := TakeModel(PrintModel(comments, RoundedSections(f, ss))).sections;
      TakeModel(PrintModel(comments, RoundedSections(f, again))) == Outcome(again, Done)
  {
    hide *;
    var q := RoundedSections(f, ss);
    FormattedModelReadsBack(f, comments, ss);
    LoadedIsLegible(PrintModel(comments, q));
    NamedAreNamed(q);
    NamedAreTitled(AllNamed(q));
    NamedRound(f, q);
    SectionsSettle(f, ss);
    ModelSurvives(f, comments, AllNamed(q));
  }

  lemma SectionsSettle(f: Format, ss: seq<Section>)
    requires IsStable(f) && AllLegible(ss)
    ensures RoundedSections(f, RoundedSections(f, ss)) == RoundedSections(f, ss)
  {
    hide RoundedSection, Section.Legible;
    forall i | 0 <= i < |ss|
      ensures RoundedSection(f, RoundedSection(f, ss[i])) == RoundedSection(f, ss[i])
    {
      SectionSettles(f, ss[i]);
    }
  }

  /** A file with a table that has neither a name nor entries. */
  function NamelessFile(): string {
    PrintRecord(SECTION) + (PrintRecord(Record(2, Text("TABLES"))) + (PrintRecord(TABLE) + NamelessTable()))
  }

  function NamelessTable(): string {
    PrintRecord(Record(70, Number(ToInt16(0)))) + (PrintRecord(ENDTAB) + (PrintRecord(ENDSEC) + PrintRecord(EOF)))
  }

  lemma NamelessTableReads()
    ensures TakeTable(NamelessTable()) == Some((Table(None, [], []), PrintRecord(ENDSEC) + PrintRecord(EOF)))
  {
    hide TakeHead, TakeEntries, PrintRecord, PrintCode, EntriesTail, ToInt16;
    var empty, u := Table(None, [], []), PrintRecord(ENDSEC) + PrintRecord(EOF);
    EntriesByTail([], u);
    assert [] + (PrintRecord(ENDTAB) + u) == PrintRecord(ENDTAB) + u;
    HeadEnds(0, EntriesTail([], u), empty);
    EntriesReadBack([], u);
  }

  lemma NamelessTablesRead()
    ensures TakeTables(PrintRecord(TABLE) + NamelessTable()) == Some(([Table(None, [], [])], PrintRecord(EOF)))
  {
    hide TakeTable, PrintRecord, PrintCode, Line, IsCode, CodeAfterComments, ReadString, Readable, NamelessTable;
    MarkersAreReadable();
    ReadMarker(0, "TABLE", NamelessTable());
    NamelessTableReads();
    NoMoreTables(PrintRecord(EOF));
    var front := [Table(None, [], [])];
    assert front + [] == front;
  }

  /** Such a file loads, and what it loads to has no title that could be written. */
  lemma NamelessTableLoads()
    ensures TakeModel(NamelessFile()) == Outcome([Tables([Table(None, [], [])])], Done)
    ensures !AllTitled(TakeModel(NamelessFile()).sections)
  {
    NamelessTablesRead();
    EofReadsBack();
    hide CodeAfterComments, ReadString, TakeTables, PrintRecord, Line, PrintCode, Readable, IsCode, NamelessTable,
      AllTitled;
    MarkersAreReadable();
    var tables := PrintRecord(TABLE) + NamelessTable();
    ReadMarker(0, "SECTION", PrintRecord(Record(2, Text("TABLES"))) + tables);
    ReadMarker(2, "TABLES", tables);
    NamelessIsUntitled();
    var front := [Tables([Table(None, [], [])])];
    assert front + [] == front;
  }

  lemma NamelessIsUntitled()
    ensures !AllTitled([Tables([Table(None, [], [])])])
  {
    var ss := [Tables([Table(None, [], [])])];
    assert !ss[0].tables[0].Titled();
  }

  // ----- $HANDSEED -----

  function Power16(k: nat): nat {
    if k == 0 then 1 else 16 * Power16(k - 1)
  }

  lemma {:induction false} NumeralLength(n: nat, k: nat)
    requires 0 < k && n < Power16(k)
    ensures |Numeral(n, 16)| <= k
  {
    hide DigitChar;
    var q, d := NumeralStep(n, 16);
    if n >= 16 {
      assert k != 1 by {
        assert Power16(1) == 16 * Power16(0);
      }
      NumeralLength(q, k - 1);
    }
  }

  /** The seed that is written is a string that can be read, with its value. */
  lemma HandleIsReadable(n: nat)
    requires n < 0x1_0000_0000
    ensures Readable(Numeral(n, 16)) && Numeral(n, 16) != "ENDSEC"
    ensures BaseValue(Numeral(n, 16), 16, 0) == n
  {
    NumeralValue(n, 16);
    NumeralDigits(n, 16);
    assert Power16(8) == 0x1_0000_0000;
    NumeralLength(n, 8);
    var s := Numeral(n, 16);
    forall i | 0 <= i < |s|
      ensures s[i] != LF && s[i] != CR && s[i] != NUL && !IsBlank(s[i])
    {
      assert IsHexDigit(s[i]);
    }
  }

  lemma {:induction false} TakesAllHex(s: string)
    requires forall i :: 0 <= i < |s| ==> IsHexDigit(s[i])
    ensures TakeDigits(s, true) == (s, [])
  {
    if s != [] {
      TakesAllHex(s[1..]);
      assert [s[0]] + s[1..] == s;
    }
  }

  /** Read as handles are, the seed has its value, if that fits an int. */
  lemma HandleScans(n: nat)
    requires n < 0x8000_0000
    ensures ScanHex(Numeral(n, 16)) == Some(n)
  {
    HandleIsReadable(n);
    NumeralDigits(n, 16);
    var s := Numeral(n, 16);
    hide Numeral, Readable, BaseValue, TakeDigits;
    forall i | 0 <= i < |s|
      ensures IsHexDigit(s[i])
    {
    }
    TakesAllHex(s);
  }

  /** The $HANDSEED of a model is text. */
  predicate SeedIsText(ss: seq<Section>) {
    var i := FindHeader(ss);
    i < |ss| && var k := ValueIndex(ss[i].records, HANDSEED);
      k < |ss[i].records| && HoldsText(ss[i].records[k].code)
  }

  /** Writing changes the record behind the first name $HANDSEED of the first
      HEADER section, unless that is a name again, and nothing else. */
  lemma SeedPlace(ss: seq<Section>, handle: int, seed: Value, h: nat, i: nat)
    requires h < |ss| && ss[h].Header? && forall k :: 0 <= k < h ==> !ss[k].Header?
    requires var rs := ss[h].records;
      && i < |rs| && rs[i] == Record(9, Text("$HANDSEED"))
      && forall k :: 0 <= k < i ==> rs[k] != Record(9, Text("$HANDSEED"))
    ensures var rs := ss[h].records;
      Seeded(ss, handle, seed)
      == if handle > 0 && i + 1 < |rs| && rs[i + 1].code != 9
         then ss[h := Header(rs[i + 1 := Record(rs[i + 1].code, seed)])]
         else ss
  {
    assert FindHeader(ss) == h && FindVariable(ss[h].records, "$HANDSEED") == i;
    assert ss[h := Header(ss[h].records)] == ss;
  }

  /** The new $HANDSEED is a handle above every handle of the model. */
  lemma SeedIsAbove(ss: seq<Section>, handle: int, seed: Value)
    requires AllCovered(ss, handle) && 0 < handle < 0x7fff_ffff && IsSeed(ss, handle, seed) && SeedIsText(ss)
    ensures seed.Text? && ScanHex(seed.text) == Some(handle + 1) && AllCovered(ss, ScanHex(seed.text).value - 1)
  {
    HandleScans(handle + 1);
    hide ScanHex, Numeral, AllCovered, ValueIndex, FindHeader;
  }

  lemma ParamFits(code: int, n: nat, v: Value)
    requires n < 0x1_0000_0000 && IsParam(code, Numeral(n, 16), v)
    ensures Fitting(code, v) && v != Text("ENDSEC")
  {
    HandleIsReadable(n);
    hide Readable, Numeral, IsReal, TypeOf;
  }

  lemma SeededRecordsAreLegible(rs: seq<Record>, n: nat, seed: Value)
    requires AllSound(rs) && ENDSEC !in rs && n < 0x1_0000_0000
    requires var k := ValueIndex(rs, HANDSEED); k < |rs| ==> IsParam(rs[k].code, Numeral(n, 16), seed)
    ensures AllSound(SeededRecords(rs, seed)) && ENDSEC !in SeededRecords(rs, seed)
  {
    hide Fitting, Numeral, ValueIndex, IsParam;
    var k := ValueIndex(rs, HANDSEED);
    if k < |rs| {
      ParamFits(rs[k].code, n, seed);
      assert Sound(rs[k]);
      assert Sound(Record(rs[k].code, seed));
    }
  }

  /** Writing changes no more than the value of $HANDSEED, and keeps the model
      legible, whatever kind of record that value is. */
  lemma SeededIsLegible(ss: seq<Section>, handle: int, seed: Value)
    requires AllLegible(ss) && handle < 0x7fff_ffff && IsSeed(ss, handle, seed)
    ensures AllLegible(Seeded(ss, handle, seed)) && |Seeded(ss, handle, seed)| == |ss|
    ensures forall i :: 0 <= i < |ss| && i != FindHeader(ss) ==> Seeded(ss, handle, seed)[i] == ss[i]
    ensures AllTitled(ss) ==> AllTitled(Seeded(ss, handle, seed))
  {
    hide IsParam, ValueIndex, Numeral, AllSound;
    var i := FindHeader(ss);
    if handle > 0 && i < |ss| {
      assert ss[i].Legible();
      SeededRecordsAreLegible(ss[i].records, handle + 1, seed);
    }
  }

  /** What dimeModel::write writes is read back, apart from comments, with its
      numbers formatted and the titles of tables as names. */
  lemma SavedModelLoads(f: Format, comments: seq<string>, ss: seq<Section>, handle: int, seed: Value)
    requires IsFormat(f) && AllReadable(comments) && AllLegible(ss) && AllTitled(ss)
    requires handle < 0x7fff_ffff && IsSeed(ss, handle, seed)
    ensures var q := RoundedSections(f, Seeded(ss, handle, seed));
      TakeModel(PrintModel(comments, q)) == Outcome(AllNamed(q), Done)
  {
    hide *;
    SeededIsLegible(ss, handle, seed);
    FormattedModelReadsBack(f, comments, Seeded(ss, handle, seed));
  }

  /** A $HANDSEED that is a 16-bit number: a legible model, in which writing
      leaves some number. */
  lemma NumericSeed(seed: Value)
    requires IsSeed([Header([Record(9, Text(HANDSEED)), Record(70, Number(5))])], 1, seed)
    ensures var ss := [Header([Record(9, Text(HANDSEED)), Record(70, Number(5))])];
      Seeded(ss, 1, seed) == [Header([Record(9, Text(HANDSEED)), Record(70, seed)])] && seed.Number?
  {
    var rs := [Record(9, Text(HANDSEED)), Record(70, Number(5))];
    assert FindVariable(rs, HANDSEED) == 0 && ValueIndex(rs, HANDSEED) == 1;
    var ss := [Header(rs)];
    assert FindHeader(ss) == 0 && ss[0].records == rs;
    assert rs[1 := Record(70, seed)] == [Record(9, Text(HANDSEED)), Record(70, seed)];
  }

  /** A printed model does not pass for a binary file, nor for the beginning of one. */
  lemma PrintedIsAscii(comments: seq<string>, ss: seq<Section>)
    ensures !(BINARY_ID <= PrintModel(comments, ss)) && !(PrintModel(comments, ss) <= BINARY_ID)
    ensures PrintModel(comments, ss) != [] && Agreeing(PrintModel(comments, ss)) == 0
  {
    hide PrintSection, Line, PrintValue;
    var text := PrintModel(comments, ss);
    CodeStart(0);
    CodeStart(COMMENT);
    assert text != [] && text[0] != 'A';
  }

  lemma CodeStart(code: int)
    ensures PrintCode(code) != [] && PrintCode(code)[0] != 'A'
  {
    DecimalStart(code);
    NumeralDigits(if code < 0 then -code else code, 10);
  }
}
