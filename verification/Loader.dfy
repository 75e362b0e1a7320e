/** The loaders and writers of src/RecordHolder.cpp, src/sections, src/tables
    and src/Model.cpp, proved to read and print what Document says. */
module Loader {
  import opened Wrappers
  import opened Tokens
  import opened Numbers
  import opened Records
  import opened Document
  import opened Input
  import opened Output

  /** Nothing is put back. */
  ghost predicate Ready(file: FileInput)
    reads file`readbufIndex, file`readbufLen, file`backBuf, file`backBufIndex, file`hasPutBack
  {
    file.Ascii() && !file.hasPutBack
  }

  /** What a loader answers, and what it leaves of the file if all went well. */
  ghost predicate Follows<T>(file: FileInput, spec: Option<(T, string)>, ok: bool, value: T)
    requires file.Valid()
    reads file`readbufIndex, file`readbufLen, file`backBuf, file`backBufIndex, file`file, file.readbuf
  {
    (ok <==> spec.Some?) && (ok ==> spec.value == (value, file.Rest()))
  }

  /** The read() of a record, and readRecordData. */
  method ReadRecordData(file: FileInput, code: int) returns (ok: bool, value: Option<Value>)
    requires Ready(file) && (code == 5 ==> file.prevwashandle)
    modifies file, file.readbuf
    ensures Ready(file) && ValueRead(ok, value, file.Rest()) == ReadValue(code, old(file.Rest()))
    ensures file.largestHandle >= old(file.largestHandle)
    ensures value.Some? ==> IsCovered(Record(code, value.value), file.largestHandle)
  {
    hide ScanHex, FileInput.Rest, Tokens.ReadInt, Tokens.ReadString, Tokens.ReadReal;
    match TypeOf(code) {
      case StringType | HexType =>
        ScanNothing();
        var line := file.ReadString();
        ok, value := line.Some?, if line.Some? then Some(Text(line.value)) else None;
      case DoubleType =>
        var text;
        ok, text := file.ReadDouble();
        value := Some(Spelling(if text.Some? then text.value else "0"));
      case t =>
        var n;
        ok, n := file.ReadInt(WidthOf(t));
        value := Some(Number(if n.Some? then n.value else 0));
    }
  }

  lemma ScanNothing()
    ensures ScanHex([]) == None
  {
  }

  method ReadRecord(file: FileInput) returns (r: Option<Record>)
    requires Ready(file)
    modifies file, file.readbuf
    ensures Ready(file) && var t := TakeRecord(old(file.Rest()));
      (r.Some? <==> t.Some?) && (r.Some? ==> t.value == (r.value, file.Rest()))
    ensures file.largestHandle >= old(file.largestHandle) && (r.Some? ==> IsCovered(r.value, file.largestHandle))
  {
    hide FileInput.Rest, CodeAfterComments, ReadValue, IsCovered;
    var ok, code := file.ReadGroupCode();
    if !ok {
      return None;
    }
    var read, value := ReadRecordData(file, code.value);
    r := if value.Some? then Some(Record(code.value, value.value)) else None;
  }

  class HeaderSection {
    var records: seq<Record>

    constructor (records: seq<Record>)
      ensures this.records == records
    {
      this.records := records;
    }

    method Read(file: FileInput) returns (ok: bool)
      requires Ready(file)
      modifies this, file, file.readbuf
      ensures Ready(file) && Follows(file, UntilEndSec(old(file.Rest())), ok, records + [ENDSEC])
      ensures file.largestHandle >= old(file.largestHandle) && Covered(records, file.largestHandle)
    {
      hide FileInput.Rest, TakeRecord, Covered, IsCovered;
      records := [];
      BeforeNothing(UntilEndSec(file.Rest()));
      CoveredNone(file.largestHandle);
      while true
        invariant Ready(file)
        invariant file.largestHandle >= old(file.largestHandle) && Covered(records, file.largestHandle)
        invariant UntilEndSec(old(file.Rest())) == Before(records, UntilEndSec(file.Rest()))
        decreases |file.Rest()|
      {
        ghost var s, h := file.Rest(), file.largestHandle;
        var r := ReadRecord(file);
        CoveredMore(records, h, file.largestHandle);
        if r.None? {
          return false;
        }
        if r.value == ENDSEC {
          return true;
        }
        BeforeTwice(records, [r.value], UntilEndSec(file.Rest()));
        CoveredAppend(records, h, r.value, file.largestHandle);
        records := records + [r.value];
      }
    }

    method Write(out: FileOutput)
      modifies out
      ensures out.text == old(out.text) + PrintSection(RoundedSection(out.format, Header(records)))
    {
      hide PrintRecord, PrintRecords, RoundedRecords;
      out.WriteMarker(2, "HEADER");
      out.WriteRecords(records);
      out.WriteMarker(0, "ENDSEC");
    }

    /** The index of the record that names the variable, or -1. */
    method FindVariable(name: string) returns (i: int)
      ensures i == if Document.FindVariable(records, name) < |records| then Document.FindVariable(records, name) else -1
    {
      var n := |records|;
      i := 0;
      while i < n
        invariant 0 <= i <= n
        invariant Document.FindVariable(records, name) == i + Document.FindVariable(records[i..], name)
      {
        if records[i] == Record(9, Text(name)) {
          break;
        }
        i := i + 1;
      }
      if i >= n {
        i := -1;
      }
    }

    /** The records of the variable up to the next one, at most maxparams of
        them, or -1. */
    method GetVariable(name: string, maxparams: nat) returns (cnt: int, params: seq<Record>)
      ensures var i := Document.FindVariable(records, name);
        if i == |records| then cnt == -1 && params == []
        else
          && cnt == |params| <= maxparams && i + 1 + cnt <= |records| && params == records[i + 1..i + 1 + cnt]
          && (forall p :: p in params ==> p.code != 9)
          && (cnt < maxparams ==> i + 1 + cnt == |records| || records[i + 1 + cnt].code == 9)
    {
      var i := FindVariable(name);
      params := [];
      if i < 0 {
        return -1, params;
      }
      ghost var first := i + 1;
      i, cnt := i + 1, 0;
      var n := |records|;
      while i < n && cnt < maxparams && records[i].code != 9
        invariant i == first + cnt <= n && cnt <= maxparams && params == records[first..i]
        invariant forall p :: p in params ==> p.code != 9
      {
        params := params + [records[i]];
        cnt := cnt + 1;
        i := i + 1;
      }
    }

    /** The variable is appended if it is not there; its records get the values
        whose group codes they have. */
    method SetVariable(name: string, params: seq<Record>) returns (cnt: int)
      modifies this
      ensures (records, cnt) == WithVariable(old(records), name, params)
    {
      hide SetValues, Unsets;
      var i := FindVariable(name);
      if i < 0 {
        i := |records|;
        AppendVariable(name, params);
      }
      cnt := SetFrom(i + 1, params);
    }

    method SetFrom(i: nat, params: seq<Record>) returns (cnt: int)
      requires i <= |records|
      modifies this
      ensures (records, cnt) == SetValues(old(records), i, params)
    {
      cnt := 0;
      for j := 0 to |params|
        invariant i <= |records| && (records, cnt) == SetValues(old(records), i, params[..j])
      {
        assert params[..j + 1][..j] == params[..j];
        var found := SetValue(i, params[j]);
        if found {
          cnt := cnt + 1;
        }
      }
      assert params[..|params|] == params;
    }

    method AppendVariable(name: string, params: seq<Record>)
      modifies this
      ensures records == old(records) + [Record(9, Text(name))] + Unsets(params)
    {
      records := records + [Record(9, Text(name))];
      for j := 0 to |params|
        invariant records == old(records) + [Record(9, Text(name))] + Unsets(params[..j])
      {
        records := records + [Unset(params[j].code)];
        assert params[..j + 1][..j] == params[..j];
      }
      assert params[..|params|] == params;
    }

    /** The search for a record with the group code of the value. */
    method SetValue(i: nat, p: Record) returns (found: bool)
      requires i <= |records|
      modifies this
      ensures var k := NextOfCode(old(records), i, p.code);
        && (found <==> k < |old(records)| && old(records)[k].code == p.code)
        && records == if found then old(records)[k := p] else old(records)
    {
      var k, n := i, |records|;
      while k < n && records[k].code != p.code && records[k].code != 9
        invariant i <= k <= n && NextOfCode(records, i, p.code) == NextOfCode(records, k, p.code)
      {
        k := k + 1;
      }
      found := k < n && records[k].code == p.code;
      if found {
        records := records[k := p];
      }
    }
  }

  class UnknownSection {
    const sectionName: string
    var records: seq<Record>

    constructor (name: string, records: seq<Record>)
      ensures sectionName == name && this.records == records
    {
      sectionName := name;
      this.records := records;
    }

    /** The end of the section is one of its records. */
    method Read(file: FileInput) returns (ok: bool)
      requires Ready(file)
      modifies this, file, file.readbuf
      ensures Ready(file) && Follows(file, UntilEndSec(old(file.Rest())), ok, records)
      ensures file.largestHandle >= old(file.largestHandle) && (ok ==> Covered(records, file.largestHandle))
    {
      hide FileInput.Rest, TakeRecord, Covered, IsCovered;
      var list: seq<Record> := [];
      BeforeNothing(UntilEndSec(file.Rest()));
      CoveredNone(file.largestHandle);
      ok := true;
      var done := false;
      while ok && !done
        invariant Ready(file)
        invariant file.largestHandle >= old(file.largestHandle) && (ok ==> Covered(list, file.largestHandle))
        invariant if !ok then UntilEndSec(old(file.Rest())).None?
                  else if done then UntilEndSec(old(file.Rest())) == Some((list, file.Rest()))
                  else UntilEndSec(old(file.Rest())) == Before(list, UntilEndSec(file.Rest()))
        decreases ok, |file.Rest()|
      {
        ghost var h := file.largestHandle;
        var r := ReadRecord(file);
        if r.None? {
          ok := false;
        } else {
          BeforeTwice(list, [r.value], UntilEndSec(file.Rest()));
          CoveredAppend(list, h, r.value, file.largestHandle);
          list := list + [r.value];
          done := r.value == ENDSEC;
        }
      }
      if ok {
        records := list;
      }
    }

    method Write(out: FileOutput)
      modifies out
      ensures out.text == old(out.text) + PrintSection(RoundedSection(out.format, Unknown(sectionName, records)))
    {
      hide PrintRecord, PrintRecords, RoundedRecords;
      out.WriteMarker(2, sectionName);
      out.WriteRecords(records);
    }
  }

  /** dimeLayerTable and dimeUnknownTable, which differ in what they do with two
      group codes. */
  class TableEntry {
    const isLayer: bool  // the class of the object
    const kind: string
    var layerName: Option<string>
    var colorNumber: int
    var records: seq<Record>

    function View(): Entry
      reads this
    {
      if isLayer then Layer(layerName, colorNumber, records) else Other(kind, records)
    }

    /** createTableEntry */
    constructor (kind: string)
      ensures View() == EmptyEntry(kind) && records == []
    {
      isLayer := kind == "LAYER";
      this.kind := kind;
      layerName, colorNumber, records := None, 0, [];
    }

    constructor From(e: Entry)
      ensures View() == e
    {
      isLayer := e.Layer?;
      kind := e.Kind();
      layerName := if e.Layer? then e.name else None;
      colorNumber := if e.Layer? then e.colour else 0;
      records := e.records;
    }

    lemma SameRecords()
      ensures View().records == records
    {
    }

    /** True when the entry has taken the record for itself. */
    method HandleRecord(r: Record) returns (handled: bool)
      modifies this
      ensures records == old(records) && (!handled ==> View() == old(View()))
      ensures old(View()).Add(r) == if handled then View() else old(View()).(records := old(records) + [r])
    {
      if isLayer && r.code == 2 && r.value.Text? {
        layerName := Some(r.value.text);
        return true;
      }
      if isLayer && r.code == 62 && r.value.Number? {
        colorNumber := r.value.number;
        return true;
      }
      return false;
    }

    method AddRecord(r: Record)
      modifies this
      ensures View() == old(View()).Add(r) && (records == old(records) || records == old(records) + [r])
    {
      var handled := HandleRecord(r);
      if !handled {
        records := records + [r];
      }
    }

    /** dimeRecordHolder::read, which stops at a group code 0 and puts it back. */
    method Read(file: FileInput) returns (ok: bool)
      requires Ready(file)
      modifies this, file, file.readbuf
      ensures file.Ascii() && (!ok ==> !file.hasPutBack) && file.largestHandle >= old(file.largestHandle)
      ensures old(Covered(records, file.largestHandle)) ==> Covered(records, file.largestHandle)
      ensures var rs := UntilZero(old(file.Rest()));
        (ok <==> rs.Some?) && (ok ==> View() == AddAll(old(View()), rs.value.0) && file.Rest() == rs.value.1
                                      && file.hasPutBack && file.putBackCode == 0)
    {
      hide FileInput.Rest, CodeAfterComments, ReadValue, View, Entry.Add, Covered, IsCovered;
      ghost var rs: seq<Record> := [];
      BeforeNothing(UntilZero(file.Rest()));
      while true
        invariant Ready(file) && View() == AddAll(old(View()), rs) && file.largestHandle >= old(file.largestHandle)
        invariant old(Covered(records, file.largestHandle)) ==> Covered(records, file.largestHandle)
        invariant UntilZero(old(file.Rest())) == Before(rs, UntilZero(file.Rest()))
        decreases |file.Rest()|
      {
        ghost var h := file.largestHandle;
        var groupcode;
        ok, groupcode := file.ReadGroupCode();
        CoverMore(h, file.largestHandle);
        if !ok {
          return;
        }
        if groupcode.value == 0 {
          file.PutBackGroupCode(0);
          assert rs + [] == rs;
          return true;
        }
        var value;
        ok, value := ReadRecordData(file, groupcode.value);
        CoverMore(h, file.largestHandle);
        if !ok {
          return;
        }
        var r := Record(groupcode.value, value.value);
        CoverOne(h, file.largestHandle, r);
        AddRecord(r);
        AddOneMore(old(View()), rs, r);
        BeforeTwice(rs, [r], UntilZero(file.Rest()));
        rs := rs + [r];
      }
    }

    lemma CoverMore(h: int, more: int)
      requires h <= more
      ensures Covered(records, h) ==> Covered(records, more)
    {
      if Covered(records, h) {
        CoveredMore(records, h, more);
      }
    }

    lemma CoverOne(h: int, more: int, r: Record)
      requires h <= more && IsCovered(r, more)
      ensures Covered(records, h) ==> Covered(records + [r], more)
    {
      if Covered(records, h) {
        CoveredAppend(records, h, r, more);
      }
    }

    method Write(out: FileOutput)
      modifies out
      ensures out.text == old(out.text) + PrintEntry(RoundedEntry(out.format, View()))
    {
      hide PrintRecord, PrintRecords, RoundedRecords;
      out.WriteMarker(0, View().Kind());
      out.WriteRecords(records);
      assert records == View().records;
      if isLayer {
        WriteLayer(out, old(out.text) + PrintRecord(Record(0, Text("LAYER"))));
      }
    }

    method WriteLayer(out: FileOutput, ghost before: string)
      requires isLayer && out.text == before + PrintRecords(RoundedRecords(out.format, records))
      modifies out
      ensures out.text == before + PrintRecords(RoundedEntry(out.format, View()).Written())
    {
      hide PrintRecord, PrintRecords, RoundedRecords;
      ghost var rounded := RoundedRecords(out.format, records);
      ghost var named := rounded;
      if layerName.Some? {
        out.WriteMarker(2, layerName.value);
        PrintAppend(rounded, Record(2, Text(layerName.value)));
        named := rounded + [Record(2, Text(layerName.value))];
      }
      out.WriteRecord(Record(62, Number(colorNumber)));
      PrintAppend(named, Record(62, Number(colorNumber)));
      assert rounded + [] == rounded;
    }
  }

  class DxfTable {
    var maxEntries: int
    var tablename: Option<string>
    var records: seq<Record>
    var tableEntries: seq<Entry>

    function View(): Table
      reads this
    {
      Table(tablename, records, tableEntries)
    }

    constructor ()
      ensures View() == Table(None, [], [])
    {
      maxEntries, tablename, records, tableEntries := 0, None, [], [];
    }

    constructor From(t: Table)
      ensures View() == t
    {
      maxEntries, tablename, records, tableEntries := 0, t.name, t.records, t.entries;
    }

    lemma SameParts()
      ensures View().records == records && View().entries == tableEntries
    {
    }

    /** The first loop of read(), up to and including a group code 0. */
    method ReadHead(file: FileInput) returns (ok: bool)
      requires Ready(file)
      modifies this, file, file.readbuf
      ensures Ready(file) && Follows(file, TakeHead(old(file.Rest()), old(View())), ok, View())
      ensures tableEntries == old(tableEntries) && file.largestHandle >= old(file.largestHandle)
      ensures old(records) == [] ==> Covered(records, file.largestHandle)
    {
      hide FileInput.Rest, CodeAfterComments, ReadValue, Tokens.ReadInt, Tokens.ReadString, Covered, IsCovered;
      CoveredNone(file.largestHandle);
      while true
        invariant Ready(file) && tableEntries == old(tableEntries) && file.largestHandle >= old(file.largestHandle)
        invariant old(records) == [] ==> Covered(records, file.largestHandle)
        invariant TakeHead(old(file.Rest()), old(View())) == TakeHead(file.Rest(), View())
        decreases |file.Rest()|
      {
        ghost var s, t, h := file.Rest(), View(), file.largestHandle;
        var groupcode;
        ok, groupcode := file.ReadGroupCode();
        CoverMore(h, file.largestHandle);
        if !ok {
          return;
        }
        if groupcode == Some(70) {
          var n;
          ok, n := file.ReadInt(W16);
          if !ok {
            return;
          }
          maxEntries := n.value;
        } else if groupcode == Some(2) {
          var name := file.ReadString();
          CoverMore(h, file.largestHandle);
          if name.None? {
            return false;
          }
          tablename := name;
        } else if groupcode == Some(0) {
          return true;
        } else {
          var value;
          ok, value := ReadRecordData(file, groupcode.value);
          CoverMore(h, file.largestHandle);
          if !ok {
            return;
          }
          CoverOne(h, file.largestHandle, Record(groupcode.value, value.value));
          records := records + [Record(groupcode.value, value.value)];
        }
      }
    }

    lemma CoverMore(h: int, more: int)
      requires h <= more
      ensures Covered(records, h) ==> Covered(records, more)
    {
      if Covered(records, h) {
        CoveredMore(records, h, more);
      }
    }

    lemma CoverOne(h: int, more: int, r: Record)
      requires h <= more && IsCovered(r, more)
      ensures Covered(records, h) ==> Covered(records + [r], more)
    {
      if Covered(records, h) {
        CoveredAppend(records, h, r, more);
      }
    }

    /** The second loop, from behind a group code 0. */
    method ReadEntries(file: FileInput) returns (ok: bool)
      requires Ready(file)
      modifies this, file, file.readbuf
      ensures Ready(file) && tablename == old(tablename) && records == old(records)
      ensures Follows(file, TakeEntries(old(file.Rest())), ok, tableEntries)
      ensures file.largestHandle >= old(file.largestHandle)
      ensures ok ==> CoveredEntries(tableEntries, file.largestHandle)
    {
      hide FileInput.Rest, UntilZero, Tokens.ReadString, AddAll, TableEntry.View, EmptyEntry, Covered, CoveredEntries;
      tableEntries := [];
      BeforeNothing(TakeEntries(file.Rest()));
      CoveredNone(file.largestHandle);
      while true
        invariant Ready(file) && tablename == old(tablename) && records == old(records)
        invariant file.largestHandle >= old(file.largestHandle) && CoveredEntries(tableEntries, file.largestHandle)
        invariant TakeEntries(old(file.Rest())) == Before(tableEntries, TakeEntries(file.Rest()))
        decreases |file.Rest()|
      {
        ghost var s, h := file.Rest(), file.largestHandle;
        var kind := file.ReadString();
        CoveredEntriesMore(tableEntries, h, file.largestHandle);
        if kind.None? {
          return false;
        }
        if kind.value == "ENDTAB" {
          assert tableEntries + [] == tableEntries;
          return true;
        }
        var e;
        ok, e := ReadEntry(file, kind.value);
        if !ok {
          return;
        }
        BeforeTwice(tableEntries, [e], TakeEntries(file.Rest()));
        CoveredEntriesAppend(tableEntries, h, e, file.largestHandle);
        tableEntries := tableEntries + [e];
      }
    }

    method Read(file: FileInput) returns (ok: bool)
      requires Ready(file) && View() == Table(None, [], [])
      modifies this, file, file.readbuf
      ensures Ready(file) && Follows(file, TakeTable(old(file.Rest())), ok, View())
      ensures file.largestHandle >= old(file.largestHandle)
      ensures ok ==> Covered(records, file.largestHandle) && CoveredEntries(tableEntries, file.largestHandle)
    {
      hide FileInput.Rest, TakeHead, TakeEntries, Covered, CoveredEntries;
      ok := ReadHead(file);
      if !ok {
        return;
      }
      ghost var h := file.largestHandle;
      ok := ReadEntries(file);
      CoverMore(h, file.largestHandle);
    }

    method Write(out: FileOutput)
      requires View().Titled()
      modifies out
      ensures out.text == old(out.text) + (PrintRecord(TABLE) + PrintTableBody(RoundedTable(out.format, View())))
    {
      ghost var t := RoundedTable(out.format, View());
      var title := if tablename.Some? then tablename.value else tableEntries[0].Kind();
      assert title == t.Title();
      hide PrintRecord, PrintRecords, PrintEntry, PrintEntries, Table.Title, RoundedRecords, RoundedEntries;
      out.WriteMarker(0, "TABLE");
      ghost var start := out.text;
      out.WriteMarker(2, title);
      out.WriteRecords(records);
      out.WriteRecord(Record(70, Number(ToInt16(|tableEntries|))));
      ghost var before := out.text;
      WriteEntries(out);
      out.WriteMarker(0, "ENDTAB");
      TableIsPrinted(t, start, before);
      Regroup(old(out.text), PrintRecord(TABLE), PrintTableBody(t));
    }

    method WriteEntries(out: FileOutput)
      modifies out
      ensures out.text == old(out.text) + PrintEntries(RoundedEntries(out.format, tableEntries))
    {
      hide PrintEntry, RoundedEntry;
      assert PrintEntries(RoundedEntries(out.format, tableEntries[..0])) == [];
      for i := 0 to |tableEntries|
        invariant out.text == old(out.text) + PrintEntries(RoundedEntries(out.format, tableEntries[..i]))
      {
        WriteEntry(out, tableEntries[i]);
        ghost var done := RoundedEntries(out.format, tableEntries[..i]);
        PrintEntriesAppend(done, RoundedEntry(out.format, tableEntries[i]));
        assert RoundedEntries(out.format, tableEntries[..i + 1]) == done + [RoundedEntry(out.format, tableEntries[i])];
      }
      assert tableEntries[..|tableEntries|] == tableEntries;
    }
  }

  /** An entry, and the group code 0 that it leaves put back. */
  method ReadEntry(file: FileInput, kind: string) returns (ok: bool, e: Entry)
    requires Ready(file)
    modifies file, file.readbuf
    ensures Ready(file) && file.largestHandle >= old(file.largestHandle)
    ensures ok ==> Covered(e.records, file.largestHandle)
    ensures var rs := UntilZero(old(file.Rest()));
      (ok <==> rs.Some?) && (ok ==> e == AddAll(EmptyEntry(kind), rs.value.0) && file.Rest() == rs.value.1)
  {
    hide FileInput.Rest, UntilZero, AddAll, TableEntry.View, EmptyEntry, Covered;
    var entry := new TableEntry(kind);
    CoveredNone(file.largestHandle);
    ok := entry.Read(file);
    e := entry.View();
    entry.SameRecords();
    if !ok {
      return;
    }
    ghost var h := file.largestHandle;
    var code;
    ok, code := file.ReadGroupCode();
    entry.CoverMore(h, file.largestHandle);
  }

  method WriteEntry(out: FileOutput, e: Entry)
    modifies out
    ensures out.text == old(out.text) + PrintEntry(RoundedEntry(out.format, e))
  {
    var entry := new TableEntry.From(e);
    entry.Write(out);
  }

  lemma {:induction false} PrintEntriesAppend(es: seq<Entry>, e: Entry)
    ensures PrintEntries(es + [e]) == PrintEntries(es) + PrintEntry(e)
  {
    hide PrintEntry;
    if es == [] {
      assert [e][1..] == [];
    } else {
      PrintEntriesAppend(es[1..], e);
      assert (es + [e])[1..] == es[1..] + [e];
      Regroup(PrintEntry(es[0]), PrintEntries(es[1..]), PrintEntry(e));
    }
  }

  lemma TableIsPrinted(t: Table, start: string, before: string)
    requires before == start + PrintRecord(Record(2, Text(t.Title()))) + PrintRecords(t.records)
                       + PrintRecord(Record(70, Number(ToInt16(|t.entries|))))
    ensures before + PrintEntries(t.entries) + PrintRecord(ENDTAB) == start + PrintTableBody(t)
  {
    hide PrintRecord, PrintRecords, PrintEntries, Table.Title, ToInt16;
    var a, b := PrintRecord(Record(2, Text(t.Title()))), PrintRecords(t.records);
    var c := PrintRecord(Record(70, Number(ToInt16(|t.entries|))));
    var d, e := PrintEntries(t.entries), PrintRecord(ENDTAB);
    Regroup(start, a, b);
    Regroup(start, a + b, c);
    Regroup(start, a + b + c, d);
    Regroup(start, a + b + c + d, e);
  }

  class TablesSection {
    var tables: seq<Table>

    constructor (tables: seq<Table>)
      ensures this.tables == tables
    {
      this.tables := tables;
    }

    method Read(file: FileInput) returns (ok: bool)
      requires Ready(file)
      modifies this, file, file.readbuf
      ensures Ready(file) && Follows(file, TakeTables(old(file.Rest())), ok, tables)
      ensures file.largestHandle >= old(file.largestHandle) && (ok ==> CoveredTables(tables, file.largestHandle))
    {
      hide FileInput.Rest, CodeAfterComments, Tokens.ReadString, TakeTable, DxfTable.View, CoveredTables;
      tables := [];
      BeforeNothing(TakeTables(file.Rest()));
      CoveredNone(file.largestHandle);
      while true
        invariant Ready(file)
        invariant file.largestHandle >= old(file.largestHandle) && CoveredTables(tables, file.largestHandle)
        invariant TakeTables(old(file.Rest())) == Before(tables, TakeTables(file.Rest()))
        decreases |file.Rest()|
      {
        ghost var s, h := file.Rest(), file.largestHandle;
        var groupcode;
        ok, groupcode := file.ReadGroupCode();
        if !ok || groupcode != Some(0) {
          return false;
        }
        var line := file.ReadString();
        CoveredTablesMore(tables, h, file.largestHandle);
        if line == Some("ENDSEC") {
          assert tables + [] == tables;
          return true;
        }
        if line != Some("TABLE") {
          return false;
        }
        var table := new DxfTable();
        ok := table.Read(file);
        if !ok {
          return;
        }
        table.SameParts();
        BeforeTwice(tables, [table.View()], TakeTables(file.Rest()));
        CoveredTablesAppend(tables, h, table.View(), file.largestHandle);
        tables := tables + [table.View()];
      }
    }

    method Write(out: FileOutput)
      requires Tables(tables).Titled()
      modifies out
      ensures out.text == old(out.text) + PrintSection(RoundedSection(out.format, Tables(tables)))
    {
      hide PrintRecord, PrintTableBody, DxfTable.View, Table.Titled, RoundedTable, RoundedTables;
      NothingRounded(out.format);
      out.WriteMarker(2, "TABLES");
      ghost var start := out.text;
      assert tables[..0] == [];
      for i := 0 to |tables|
        invariant out.text == start + PrintTables(RoundedTables(out.format, tables[..i]))
      {
        var table := new DxfTable.From(tables[i]);
        table.Write(out);
        ghost var done := RoundedTables(out.format, tables[..i]);
        PrintTablesAppend(done, RoundedTable(out.format, tables[i]));
        assert tables[..i + 1] == tables[..i] + [tables[i]];
        RoundedTablesAppend(out.format, tables[..i], tables[i]);
      }
      assert tables[..|tables|] == tables;
      out.WriteMarker(0, "ENDSEC");
    }
  }

  lemma RoundedTablesAppend(f: Format, ts: seq<Table>, t: Table)
    ensures RoundedTables(f, ts + [t]) == RoundedTables(f, ts) + [RoundedTable(f, t)]
  {
    hide RoundedTable;
  }

  lemma NothingRounded(f: Format)
    ensures RoundedTables(f, []) == []
  {
  }

  lemma {:induction false} PrintTablesAppend(ts: seq<Table>, t: Table)
    ensures PrintTables(ts + [t]) == PrintTables(ts) + (PrintRecord(TABLE) + PrintTableBody(t))
  {
    hide PrintRecord, PrintTableBody;
    if ts == [] {
      assert [t][1..] == [];
    } else {
      PrintTablesAppend(ts[1..], t);
      assert (ts + [t])[1..] == ts[1..] + [t];
      Regroup(PrintRecord(TABLE) + PrintTableBody(ts[0]), PrintTables(ts[1..]), PrintRecord(TABLE) + PrintTableBody(t));
    }
  }

  class DxfModel {
    var sections: seq<Section>
    var headerComments: seq<string>
    var largestHandle: int

    constructor ()
      ensures sections == [] && headerComments == [] && largestHandle == 0
    {
      sections, headerComments, largestHandle := [], [], 0;
    }

    /** createSection and the section's own read(). */
    method ReadSection(file: FileInput, name: string) returns (sec: Option<Section>)
      requires Ready(file) && !IsElsewhere(name)
      modifies file, file.readbuf
      ensures Ready(file) && file.largestHandle >= old(file.largestHandle)
      ensures sec.Some? ==> CoveredSection(sec.value, file.largestHandle)
      ensures var t := TakeSection(name, old(file.Rest()));
        (sec.Some? <==> t.Some?) && (sec.Some? ==> t.value == (sec.value, file.Rest()))
    {
      hide FileInput.Rest, TakeTables, UntilEndSec, Covered, CoveredTables;
      var ok;
      if name == "HEADER" {
        var section := new HeaderSection([]);
        ok := section.Read(file);
        sec := if ok then Some(Header(section.records)) else None;
        assert (section.records + [ENDSEC])[..|section.records|] == section.records;
      } else if name == "TABLES" {
        var section := new TablesSection([]);
        ok := section.Read(file);
        sec := if ok then Some(Tables(section.tables)) else None;
      } else {
        var section := new UnknownSection(name, []);
        ok := section.Read(file);
        sec := if ok then Some(Unknown(section.sectionName, section.records)) else None;
      }
    }

    /** The sections of the file take the place of the model's own; a failure
        leaves those that came before it. No handle in them is larger than the
        largest handle, which never shrinks. */
    method Read(file: FileInput) returns (status: Status)
      requires Ready(file)
      modifies this, file, file.readbuf
      ensures Ready(file) && Outcome(sections, status) == TakeModel(old(file.Rest()))
      ensures headerComments == old(headerComments)
      ensures largestHandle >= old(largestHandle) && AllCovered(sections, largestHandle)
    {
      hide FileInput.Rest, TakeModel, AllCovered;
      file.largestHandle := largestHandle;
      ghost var cover;
      status, cover := ReadSections(file);
      AllCoveredMore(sections, cover, file.largestHandle);
      largestHandle := file.largestHandle;
    }

    method ReadSections(file: FileInput) returns (status: Status, ghost cover: int)
      requires Ready(file)
      modifies this`sections, file, file.readbuf
      ensures Ready(file) && Outcome(sections, status) == TakeModel(old(file.Rest()))
      ensures file.largestHandle >= old(file.largestHandle)
      ensures cover <= file.largestHandle && AllCovered(sections, cover)
    {
      hide FileInput.Rest, CodeAfterComments, Tokens.ReadString, TakeSection, IsElsewhere, AllCovered, CoveredSection;
      sections := [];
      cover := file.largestHandle;
      CoveredNone(cover);
      ghost var s := file.Rest();
      assert TakeModel(s) == After([], TakeModel(s)) by {
        assert [] + TakeModel(s).sections == TakeModel(s).sections;
      }
      while true
        invariant Ready(file)
        invariant TakeModel(old(file.Rest())) == After(sections, TakeModel(file.Rest()))
        invariant file.largestHandle >= old(file.largestHandle)
        invariant cover <= file.largestHandle && AllCovered(sections, cover)
        decreases |file.Rest()|
      {
        s := file.Rest();
        assert sections + [] == sections;
        var ok, groupcode := file.ReadGroupCode();
        if !ok || groupcode != Some(0) {
          return Bad, cover;
        }
        var line := file.ReadString();
        if line == Some("EOF") {
          return Done, cover;
        }
        if line != Some("SECTION") {
          return Bad, cover;
        }
        ok, groupcode := file.ReadGroupCode();
        var name := file.ReadString();
        if !ok || name.None? || groupcode != Some(2) {
          return Bad, cover;
        }
        if IsElsewhere(name.value) {
          return Elsewhere, cover;
        }
        var sec := ReadSection(file, name.value);
        if sec.None? {
          return Bad, cover;
        }
        AfterTwice(sections, sec.value, TakeModel(file.Rest()));
        AllCoveredAppend(sections, cover, sec.value, file.largestHandle);
        sections, cover := sections + [sec.value], file.largestHandle;
      }
    }

    /** findSection for the HEADER, or the number of sections. */
    method FindHeaderSection() returns (i: nat)
      ensures i == FindHeader(sections)
    {
      i := 0;
      while i < |sections| && !sections[i].Header?
        invariant 0 <= i <= |sections| && FindHeader(sections) == i + FindHeader(sections[i..])
      {
        i := i + 1;
      }
    }

    /** As text, in hexadecimal. */
    method GetUniqueHandle() returns (buf: string)
      requires largestHandle >= 0
      modifies this`largestHandle
      ensures largestHandle == old(largestHandle) + 1 && buf == Numeral(largestHandle, 16)
    {
      largestHandle := largestHandle + 1;
      buf := Numeral(largestHandle, 16);
    }

    /** What a record of this group code takes out of the parameter. */
    method ParamFor(code: int, text: string) returns (v: Value)
      ensures IsParam(code, text, v)
    {
      if HoldsText(code) {
        return Text(text);
      }
      v := *;
      if !Fitting(code, v) {
        v := Unset(code).value;
        UnsetFits(code);
      }
    }

    /** The first value of $HANDSEED, if there is one, becomes a new handle, which
        is given back. */
    method SeedHeader(i: nat) returns (ghost seed: Value)
      requires i < |sections| && sections[i].Header? && i == FindHeader(sections)
      requires 0 < largestHandle
      modifies this`sections, this`largestHandle
      ensures IsSeed(old(sections), largestHandle, seed)
      ensures sections == Seeded(old(sections), largestHandle, seed) && largestHandle == old(largestHandle)
    {
      hide IsParam;
      var header := new HeaderSection(sections[i].records);
      var cnt, params := header.GetVariable(HANDSEED, 1);
      seed := Text("");
      if cnt == 1 {
        var buf := GetUniqueHandle();
        largestHandle := largestHandle - 1;
        var value := ParamFor(params[0].code, buf);
        FirstValueIsSet(header.records, HANDSEED, value);
        cnt := header.SetVariable(HANDSEED, [Record(params[0].code, value)]);
        seed := value;
      }
      sections := sections[i := Header(header.records)];
    }

    method WriteSection(out: FileOutput, sec: Section)
      requires sec.Titled()
      modifies out
      ensures out.text == old(out.text) + (PrintRecord(SECTION) + PrintSection(RoundedSection(out.format, sec)))
    {
      hide PrintRecord, PrintSection, RoundedSection;
      out.WriteMarker(0, "SECTION");
      match sec {
        case Header(records) =>
          var section := new HeaderSection(records);
          section.Write(out);
        case Tables(tables) =>
          var section := new TablesSection(tables);
          section.Write(out);
        case Unknown(name, records) =>
          var section := new UnknownSection(name, records);
          section.Write(out);
      }
      Regroup(old(out.text), PrintRecord(SECTION), PrintSection(RoundedSection(out.format, sec)));
    }

    method WriteComments(out: FileOutput)
      modifies out
      ensures out.text == old(out.text) + PrintComments(headerComments)
    {
      hide PrintCode, Line;
      assert PrintComments(headerComments[..0]) == [];
      for i := 0 to |headerComments|
        invariant out.text == old(out.text) + PrintComments(headerComments[..i])
      {
        out.WriteRecord(Record(COMMENT, Text(headerComments[i])));
        PrintCommentsAppend(headerComments[..i], headerComments[i]);
        assert headerComments[..i + 1] == headerComments[..i] + [headerComments[i]];
      }
      assert headerComments[..|headerComments|] == headerComments;
    }

    /** The new $HANDSEED, if a handle has been registered. */
    method Seed() returns (ghost seed: Value)
      modifies this`sections, this`largestHandle
      ensures IsSeed(old(sections), largestHandle, seed)
      ensures sections == Seeded(old(sections), largestHandle, seed) && largestHandle == old(largestHandle)
    {
      hide ValueIndex, IsParam;
      seed := Text("");
      if largestHandle > 0 {
        var i := FindHeaderSection();
        if i < |sections| {
          seed := SeedHeader(i);
        }
      }
    }

    method WriteSections(out: FileOutput)
      requires AllTitled(sections)
      modifies out
      ensures out.text == old(out.text) + PrintSections(RoundedSections(out.format, sections))
    {
      hide PrintRecord, PrintSection, Section.Titled, RoundedSection;
      assert PrintSections(RoundedSections(out.format, sections[..0])) == [];
      for i := 0 to |sections|
        invariant out.text == old(out.text) + PrintSections(RoundedSections(out.format, sections[..i]))
      {
        WriteSection(out, sections[i]);
        ghost var done, next := RoundedSections(out.format, sections[..i]), RoundedSection(out.format, sections[i]);
        PrintSectionsAppend(done, next);
        assert RoundedSections(out.format, sections[..i + 1]) == done + [next];
        Regroup(old(out.text), PrintSections(done), PrintRecord(SECTION) + PrintSection(next));
      }
      assert sections[..|sections|] == sections;
    }

    /** dimeModel::write; numbers come out as they are formatted. */
    method Write(out: FileOutput) returns (ghost seed: Value)
      requires AllTitled(sections)
      modifies this`sections, this`largestHandle, out
      ensures IsSeed(old(sections), largestHandle, seed)
      ensures sections == Seeded(old(sections), largestHandle, seed) && largestHandle == old(largestHandle)
      ensures out.text == old(out.text) + PrintModel(headerComments, RoundedSections(out.format, sections))
    {
      hide PrintRecord, PrintSections, PrintComments, AllTitled, Seeded, IsSeed, RoundedSections;
      seed := Seed();
      StillTitled(old(sections), largestHandle, seed);
      WriteComments(out);
      WriteSections(out);
      out.WriteMarker(0, "EOF");
      ghost var rounded := RoundedSections(out.format, sections);
      Regroup(old(out.text), PrintComments(headerComments), PrintSections(rounded));
      Regroup(old(out.text), PrintComments(headerComments) + PrintSections(rounded), PrintRecord(EOF));
    }
  }

  lemma UnsetFits(code: int)
    requires !HoldsText(code)
    ensures Fitting(code, Unset(code).value)
  {
    ZeroIsReal();
  }

  /** Setting the first value of a variable finds its own record. */
  lemma FirstValueIsSet(rs: seq<Record>, name: string, value: Value)
    requires ValueIndex(rs, name) < |rs|
    ensures var k := ValueIndex(rs, name);
      WithVariable(rs, name, [Record(rs[k].code, value)]) == (rs[k := Record(rs[k].code, value)], 1)
  {
    var k := ValueIndex(rs, name);
    var p := Record(rs[k].code, value);
    assert [p][..0] == [] && SetValues(rs, k, []) == (rs, 0);
    assert NextOfCode(rs, k, p.code) == k;
  }

  lemma AfterTwice(front: seq<Section>, sec: Section, o: Outcome)
    ensures After(front, After([sec], o)) == After(front + [sec], o)
  {
    assert front + ([sec] + o.sections) == front + [sec] + o.sections;
  }

  lemma StillTitled(ss: seq<Section>, handle: int, seed: Value)
    requires AllTitled(ss)
    ensures AllTitled(Seeded(ss, handle, seed))
  {
  }

  lemma {:induction false} PrintCommentsAppend(cs: seq<string>, c: string)
    ensures PrintComments(cs + [c]) == PrintComments(cs) + PrintRecord(Record(COMMENT, Text(c)))
  {
    hide PrintCode, Line;
    if cs == [] {
      assert [c][1..] == [];
    } else {
      PrintCommentsAppend(cs[1..], c);
      assert (cs + [c])[1..] == cs[1..] + [c];
      Regroup(PrintCode(COMMENT) + Line(cs[0]), PrintComments(cs[1..]), PrintRecord(Record(COMMENT, Text(c))));
    }
  }

  lemma {:induction false} PrintSectionsAppend(ss: seq<Section>, sec: Section)
    ensures PrintSections(ss + [sec]) == PrintSections(ss) + (PrintRecord(SECTION) + PrintSection(sec))
  {
    hide PrintRecord, PrintSection;
    if ss == [] {
      assert [sec][1..] == [];
    } else {
      PrintSectionsAppend(ss[1..], sec);
      assert (ss + [sec])[1..] == ss[1..] + [sec];
      Regroup(PrintRecord(SECTION) + PrintSection(ss[0]), PrintSections(ss[1..]),
        PrintRecord(SECTION) + PrintSection(sec));
    }
  }
}
