/** A DXF file of HEADER, TABLES and unknown sections: what the loaders of
    src/sections, src/tables and src/Model.cpp make of its characters, and the
    characters their writers print. */
module Document {
  import opened Wrappers
  import opened Tokens
  import opened Numbers
  import opened Records

  // ----- table entries -----

  /** LAYER entries keep their name and colour apart from their other records. */
  datatype Entry =
    | Layer(name: Option<string>, colour: int, records: seq<Record>)
    | Other(kind: string, records: seq<Record>)
  {
    function Kind(): string {
      match this case Layer(_, _, _) => "LAYER" case Other(kind, _) => kind
    }

    /** One record that has been read: handleRecord, or else it is kept. */
    function Add(r: Record): Entry {
      match this
      case Layer(name, colour, records) =>
        if r.code == 2 && r.value.Text? then Layer(Some(r.value.text), colour, records)
        else if r.code == 62 && r.value.Number? then Layer(name, r.value.number, records)
        else Layer(name, colour, records + [r])
      case Other(kind, records) => Other(kind, records + [r])
    }

    /** The records that are written. */
    function Written(): seq<Record> {
      match this
      case Layer(name, colour, records) =>
        records + (if name.Some? then [Record(2, Text(name.value))] else []) + [Record(62, Number(colour))]
      case Other(_, records) => records
    }

    predicate WellFormed() {
      && AllSound(records) && (forall i :: 0 <= i < |records| ==> records[i].code != 0)
      && match this
         case Layer(name, colour, _) =>
           && (forall i :: 0 <= i < |records| ==> records[i].code != 2 && records[i].code != 62)
           && (name.Some? ==> Readable(name.value)) && Fits(W16, colour)
         case Other(kind, _) => Readable(kind) && kind != "ENDTAB" && kind != "LAYER"
    }
  }

  function EmptyEntry(kind: string): Entry {
    if kind == "LAYER" then Layer(None, 0, []) else Other(kind, [])
  }

  function AddAll(e: Entry, rs: seq<Record>): Entry {
    if rs == [] then e else AddAll(e, rs[..|rs| - 1]).Add(rs[|rs| - 1])
  }

  lemma AddOneMore(e: Entry, rs: seq<Record>, r: Record)
    ensures AddAll(e, rs + [r]) == AddAll(e, rs).Add(r)
  {
    assert (rs + [r])[..|rs|] == rs;
  }

  function PrintEntry(e: Entry): string {
    PrintRecord(Record(0, Text(e.Kind()))) + PrintRecords(e.Written())
  }

  function PrintEntries(es: seq<Entry>): string {
    if es == [] then [] else PrintEntry(es[0]) + PrintEntries(es[1..])
  }

  /** The entries, from the string that follows a group code 0. */
  function TakeEntries(s: string): (r: Option<(seq<Entry>, string)>)
    ensures r.Some? ==> |r.value.1| <= |s|
    decreases |s|
  {
    var (kind, s1) := ReadString(s);
    if kind.None? then None
    else if kind.value == "ENDTAB" then Some(([], s1))
    else
      var rs := UntilZero(s1);
      if rs.None? then None
      else Before([AddAll(EmptyEntry(kind.value), rs.value.0)], TakeEntries(rs.value.1))
  }

  // ----- tables -----

  datatype Table = Table(name: Option<string>, records: seq<Record>, entries: seq<Entry>) {
    /** tableName(); a table that has none cannot be written. */
    function Title(): string {
      if name.Some? then name.value else if entries != [] then entries[0].Kind() else []
    }

    predicate Titled() {
      name.Some? || entries != []
    }

    function Named(): Table {
      this.(name := Some(Title()))
    }

    /** All that the reader ever makes. */
    predicate Legible() {
      && (name.Some? ==> Readable(name.value))
      && AllSound(records) && (forall i :: 0 <= i < |records| ==> records[i].code !in {0, 2, 70})
      && forall i :: 0 <= i < |entries| ==> entries[i].WellFormed()
    }
  }

  /** What follows the TABLE record. */
  function PrintTableBody(t: Table): string {
    PrintRecord(Record(2, Text(t.Title()))) + PrintRecords(t.records)
    + PrintRecord(Record(70, Number(ToInt16(|t.entries|))))
    + PrintEntries(t.entries) + PrintRecord(ENDTAB)
  }

  const TABLE: Record := Record(0, Text("TABLE"))

  const ENDTAB: Record := Record(0, Text("ENDTAB"))

  function PrintTables(ts: seq<Table>): string {
    if ts == [] then [] else PrintRecord(TABLE) + PrintTableBody(ts[0]) + PrintTables(ts[1..])
  }

  /** The first loop of dimeTable::read, from what it has already stored. */
  function TakeHead(s: string, t: Table): (r: Option<(Table, string)>)
    ensures r.Some? ==> |r.value.1| < |s|
    decreases |s|
  {
    var (ok, code, s1) := CodeAfterComments(s);
    if !ok then None
    else if code == Some(70) then
      var x := ReadInt(s1, W16);
      if !x.ok then None else TakeHead(x.rest, t)
    else if code == Some(2) then
      var (name, s2) := ReadString(s1);
      if name.None? then None else TakeHead(s2, t.(name := name))
    else if code == Some(0) then Some((t, s1))
    else
      var v := ReadValue(code.value, s1);
      if !v.ok then None
      else TakeHead(v.rest, t.(records := t.records + [Record(code.value, v.value.value)]))
  }

  function TakeTable(s: string): (r: Option<(Table, string)>)
    ensures r.Some? ==> |r.value.1| < |s|
  {
    var head := TakeHead(s, Table(None, [], []));
    if head.None? then None
    else
      var es := TakeEntries(head.value.1);
      if es.None? then None else Some((head.value.0.(entries := es.value.0), es.value.1))
  }

  function TakeTables(s: string): (r: Option<(seq<Table>, string)>)
    ensures r.Some? ==> |r.value.1| < |s|
    decreases |s|
  {
    var (ok, code, s1) := CodeAfterComments(s);
    if !ok || code != Some(0) then None
    else
      var (line, s2) := ReadString(s1);
      if line == Some("ENDSEC") then Some(([], s2))
      else if line != Some("TABLE") then None
      else
        var t := TakeTable(s2);
        if t.None? then None else Before([t.value.0], TakeTables(t.value.1))
  }

  // ----- sections -----

  /** The records of an unknown section include its own ENDSEC. */
  datatype Section =
    | Header(records: seq<Record>)
    | Tables(tables: seq<Table>)
    | Unknown(name: string, records: seq<Record>)
  {
    function Name(): string {
      match this case Header(_) => "HEADER" case Tables(_) => "TABLES" case Unknown(name, _) => name
    }

    function Named(): Section {
      match this
      case Tables(ts) => Tables(NamedTables(ts))
      case _ => this
    }

    predicate Titled() {
      Tables? ==> forall i :: 0 <= i < |tables| ==> tables[i].Titled()
    }

    /** All that the reader ever makes. */
    predicate Legible() {
      match this
      case Header(rs) => AllSound(rs) && ENDSEC !in rs
      case Tables(ts) => forall i :: 0 <= i < |ts| ==> ts[i].Legible()
      case Unknown(name, rs) =>
        && Readable(name) && !IsKnown(name)
        && AllSound(rs) && rs != [] && rs[|rs| - 1] == ENDSEC && ENDSEC !in rs[..|rs| - 1]
    }
  }

  predicate IsKnown(name: string) {
    name == "HEADER" || name == "TABLES" || IsElsewhere(name)
  }

  /** Sections whose loaders are not part of this module. */
  predicate IsElsewhere(name: string) {
    name == "BLOCKS" || name == "ENTITIES"
  }

  function NamedTables(ts: seq<Table>): seq<Table> {
    if ts == [] then [] else [ts[0].Named()] + NamedTables(ts[1..])
  }

  function PrintSection(sec: Section): string {
    PrintRecord(Record(2, Text(sec.Name()))) +
    match sec
    case Header(rs) => PrintRecords(rs) + PrintRecord(ENDSEC)
    case Tables(ts) => PrintTables(ts) + PrintRecord(ENDSEC)
    case Unknown(_, rs) => PrintRecords(rs)
  }

  function TakeSection(name: string, s: string): (r: Option<(Section, string)>)
    ensures r.Some? ==> |r.value.1| < |s|
  {
    if name == "TABLES" then
      var ts := TakeTables(s);
      if ts.None? then None else Some((Tables(ts.value.0), ts.value.1))
    else
      var rs := UntilEndSec(s);
      if rs.None? then None
      else if name == "HEADER" then Some((Header(AllButLast(rs.value.0)), rs.value.1))
      else Some((Unknown(name, rs.value.0), rs.value.1))
  }

  function AllButLast<T>(s: seq<T>): seq<T> {
    if s == [] then [] else s[..|s| - 1]
  }

  // ----- the model -----

  const SECTION: Record := Record(0, Text("SECTION"))

  const EOF: Record := Record(0, Text("EOF"))

  function PrintSections(ss: seq<Section>): string {
    if ss == [] then [] else PrintRecord(SECTION) + PrintSection(ss[0]) + PrintSections(ss[1..])
  }

  function PrintComments(cs: seq<string>): string {
    if cs == [] then [] else PrintCode(COMMENT) + Line(cs[0]) + PrintComments(cs[1..])
  }

  function PrintModel(comments: seq<string>, ss: seq<Section>): string {
    PrintComments(comments) + PrintSections(ss) + PrintRecord(EOF)
  }

  datatype Status = Done | Bad | Elsewhere

  /** The sections loaded before the end of the file, the first thing that is
      wrong, or the first section that is loaded elsewhere. */
  datatype Outcome = Outcome(sections: seq<Section>, status: Status)

  function TakeModel(s: string): Outcome
    decreases |s|
  {
    var (ok, code, s1) := CodeAfterComments(s);
    if !ok || code != Some(0) then Outcome([], Bad)
    else
      var (line, s2) := ReadString(s1);
      if line == Some("SECTION") then
        var (ok2, code2, s3) := CodeAfterComments(s2);
        var (name, s4) := ReadString(s3);
        if !ok2 || name.None? || code2 != Some(2) then Outcome([], Bad)
        else if IsElsewhere(name.value) then Outcome([], Elsewhere)
        else
          var sec := TakeSection(name.value, s4);
          if sec.None? then Outcome([], Bad)
          else After([sec.value.0], TakeModel(sec.value.1))
      else Outcome([], if line == Some("EOF") then Done else Bad)
  }

  function After(front: seq<Section>, o: Outcome): Outcome {
    o.(sections := front + o.sections)
  }

  predicate AllLegible(ss: seq<Section>) {
    forall i :: 0 <= i < |ss| ==> ss[i].Legible()
  }

  predicate AllTitled(ss: seq<Section>) {
    forall i :: 0 <= i < |ss| ==> ss[i].Titled()
  }

  function AllNamed(ss: seq<Section>): seq<Section> {
    if ss == [] then [] else [ss[0].Named()] + AllNamed(ss[1..])
  }

  predicate AllReadable(cs: seq<string>) {
    forall i :: 0 <= i < |cs| ==> Readable(cs[i])
  }

  // ----- what printing does to numbers -----

  function RoundedEntry(f: Format, e: Entry): Entry {
    match e
    case Layer(name, colour, records) => Layer(name, colour, RoundedRecords(f, records))
    case Other(kind, records) => Other(kind, RoundedRecords(f, records))
  }

  function RoundedEntries(f: Format, es: seq<Entry>): (q: seq<Entry>)
    ensures |q| == |es| && forall i :: 0 <= i < |es| ==> q[i] == RoundedEntry(f, es[i])
  {
    seq(|es|, i requires 0 <= i < |es| => RoundedEntry(f, es[i]))
  }

  function RoundedTable(f: Format, t: Table): Table {
    Table(t.name, RoundedRecords(f, t.records), RoundedEntries(f, t.entries))
  }

  function RoundedTables(f: Format, ts: seq<Table>): (q: seq<Table>)
    ensures |q| == |ts| && forall i :: 0 <= i < |ts| ==> q[i] == RoundedTable(f, ts[i])
  {
    seq(|ts|, i requires 0 <= i < |ts| => RoundedTable(f, ts[i]))
  }

  function RoundedSection(f: Format, sec: Section): Section {
    match sec
    case Header(rs) => Header(RoundedRecords(f, rs))
    case Tables(ts) => Tables(RoundedTables(f, ts))
    case Unknown(name, rs) => Unknown(name, RoundedRecords(f, rs))
  }

  function RoundedSections(f: Format, ss: seq<Section>): (q: seq<Section>)
    ensures |q| == |ss| && forall i :: 0 <= i < |ss| ==> q[i] == RoundedSection(f, ss[i])
  {
    seq(|ss|, i requires 0 <= i < |ss| => RoundedSection(f, ss[i]))
  }

  // ----- handles -----

  /** The handle that a record is, if it is one: those have group code 5. */
  function HandleOf(r: Record): Option<int> {
    if r.code == 5 && r.value.Text? then ScanHex(r.value.text) else None
  }

  predicate IsCovered(r: Record, h: int) {
    HandleOf(r).Some? ==> HandleOf(r).value <= h
  }

  /** No handle is larger than this one. */
  predicate Covered(rs: seq<Record>, h: int) {
    forall i :: 0 <= i < |rs| ==> IsCovered(rs[i], h)
  }

  predicate CoveredEntries(es: seq<Entry>, h: int) {
    forall i :: 0 <= i < |es| ==> Covered(es[i].records, h)
  }

  predicate CoveredTables(ts: seq<Table>, h: int) {
    forall i :: 0 <= i < |ts| ==> Covered(ts[i].records, h) && CoveredEntries(ts[i].entries, h)
  }

  predicate CoveredSection(sec: Section, h: int) {
    match sec
    case Header(rs) => Covered(rs, h)
    case Tables(ts) => CoveredTables(ts, h)
    case Unknown(_, rs) => Covered(rs, h)
  }

  predicate AllCovered(ss: seq<Section>, h: int) {
    forall i :: 0 <= i < |ss| ==> CoveredSection(ss[i], h)
  }

  lemma CoveredMore(rs: seq<Record>, h: int, more: int)
    requires Covered(rs, h) && h <= more
    ensures Covered(rs, more)
  {
    hide HandleOf;
    forall i | 0 <= i < |rs|
      ensures IsCovered(rs[i], more)
    {
      assert IsCovered(rs[i], h);
    }
  }

  lemma CoveredAppend(rs: seq<Record>, h: int, r: Record, more: int)
    requires Covered(rs, h) && h <= more && IsCovered(r, more)
    ensures Covered(rs + [r], more)
  {
    CoveredMore(rs, h, more);
    hide IsCovered;
  }

  lemma CoveredNone(h: int)
    ensures Covered([], h) && CoveredEntries([], h) && CoveredTables([], h) && AllCovered([], h)
  {
  }

  lemma CoveredEntriesMore(es: seq<Entry>, h: int, more: int)
    requires CoveredEntries(es, h) && h <= more
    ensures CoveredEntries(es, more)
  {
    hide Covered;
    forall i | 0 <= i < |es|
      ensures Covered(es[i].records, more)
    {
      CoveredMore(es[i].records, h, more);
    }
  }

  lemma CoveredEntriesAppend(es: seq<Entry>, h: int, e: Entry, more: int)
    requires CoveredEntries(es, h) && h <= more && Covered(e.records, more)
    ensures CoveredEntries(es + [e], more)
  {
    CoveredEntriesMore(es, h, more);
    hide Covered;
  }

  lemma CoveredTablesAppend(ts: seq<Table>, h: int, t: Table, more: int)
    requires CoveredTables(ts, h) && h <= more && Covered(t.records, more) && CoveredEntries(t.entries, more)
    ensures CoveredTables(ts + [t], more)
  {
    hide Covered, CoveredEntries;
    forall i | 0 <= i < |ts|
      ensures Covered(ts[i].records, more) && CoveredEntries(ts[i].entries, more)
    {
      CoveredMore(ts[i].records, h, more);
      CoveredEntriesMore(ts[i].entries, h, more);
    }
  }

  lemma CoveredTablesMore(ts: seq<Table>, h: int, more: int)
    requires CoveredTables(ts, h) && h <= more
    ensures CoveredTables(ts, more)
  {
    hide Covered, CoveredEntries;
    forall i | 0 <= i < |ts|
      ensures Covered(ts[i].records, more) && CoveredEntries(ts[i].entries, more)
    {
      CoveredMore(ts[i].records, h, more);
      CoveredEntriesMore(ts[i].entries, h, more);
    }
  }

  lemma AllCoveredMore(ss: seq<Section>, h: int, more: int)
    requires AllCovered(ss, h) && h <= more
    ensures AllCovered(ss, more)
  {
    hide Covered, CoveredTables;
    forall i | 0 <= i < |ss|
      ensures CoveredSection(ss[i], more)
    {
      match ss[i]
      case Header(rs) => CoveredMore(rs, h, more);
      case Tables(ts) => CoveredTablesMore(ts, h, more);
      case Unknown(_, rs) => CoveredMore(rs, h, more);
    }
  }

  lemma AllCoveredAppend(ss: seq<Section>, h: int, sec: Section, more: int)
    requires AllCovered(ss, h) && h <= more && CoveredSection(sec, more)
    ensures AllCovered(ss + [sec], more)
  {
    AllCoveredMore(ss, h, more);
    hide CoveredSection;
  }

  // ----- $HANDSEED -----

  const HANDSEED: string := "$HANDSEED"

  /** findVariable */
  function FindVariable(rs: seq<Record>, name: string): (i: nat)
    ensures i <= |rs|
    ensures i < |rs| ==> rs[i] == Record(9, Text(name))
    ensures forall k :: 0 <= k < i ==> rs[k] != Record(9, Text(name))
  {
    if rs == [] then 0
    else if rs[0] == Record(9, Text(name)) then 0
    else 1 + FindVariable(rs[1..], name)
  }

  /** The next record with this group code, or the end of the variable. */
  function NextOfCode(rs: seq<Record>, i: nat, code: int): (k: nat)
    requires i <= |rs|
    ensures i <= k <= |rs| && (k < |rs| ==> rs[k].code == code || rs[k].code == 9)
    ensures forall j :: i <= j < k ==> rs[j].code != code && rs[j].code != 9
    decreases |rs| - i
  {
    if i == |rs| || rs[i].code == code || rs[i].code == 9 then i else NextOfCode(rs, i + 1, code)
  }

  /** The values go to records that have their group codes, from record i on;
      with the number of those that found one. */
  function SetValues(rs: seq<Record>, i: nat, params: seq<Record>): (r: (seq<Record>, nat))
    requires i <= |rs|
    ensures |r.0| == |rs| && r.1 <= |params|
  {
    if params == [] then (rs, 0)
    else
      var (before, cnt) := SetValues(rs, i, params[..|params| - 1]);
      var p := params[|params| - 1];
      var k := NextOfCode(before, i, p.code);
      if k < |before| && before[k].code == p.code then (before[k := p], cnt + 1) else (before, cnt)
  }

  /** createRecord: what a record holds before it is read or set. A string that
      has not been set is shown as an empty one. */
  function Unset(code: int): (r: Record)
    ensures r.code == code
  {
    Record(code, match TypeOf(code)
      case StringType => Text("")
      case HexType => Text("")
      case DoubleType => Spelling("0")
      case _ => Number(0))
  }

  function Unsets(params: seq<Record>): (rs: seq<Record>)
    ensures |rs| == |params| && forall i :: 0 <= i < |rs| ==> rs[i] == Unset(params[i].code)
  {
    if params == [] then []
    else Unsets(params[..|params| - 1]) + [Unset(params[|params| - 1].code)]
  }

  /** setVariable */
  function WithVariable(rs: seq<Record>, name: string, params: seq<Record>): (seq<Record>, nat) {
    var i := FindVariable(rs, name);
    if i < |rs| then SetValues(rs, i + 1, params)
    else SetValues(rs + [Record(9, Text(name))] + Unsets(params), |rs| + 1, params)
  }

  /** No two values have the same group code, and none has that of a name. */
  predicate Separate(params: seq<Record>) {
    && (forall i, j :: 0 <= i < j < |params| ==> params[i].code != params[j].code)
    && forall i :: 0 <= i < |params| ==> params[i].code != 9
  }

  /** A variable that is new gets exactly its values, if these are separate. */
  lemma NewVariableIsSet(rs: seq<Record>, name: string, params: seq<Record>)
    requires FindVariable(rs, name) == |rs|
    requires Separate(params)
    ensures WithVariable(rs, name, params) == (rs + [Record(9, Text(name))] + params, |params|)
  {
    hide SetValues, Unsets, Separate, FindVariable;
    var base := rs + [Record(9, Text(name))];
    ValuesFill(base, params, |params|);
    assert params[..|params|] == params && Unsets(params)[|params|..] == [] && base + params + [] == base + params;
  }

  /** A new variable with two values of one group code: the first record gets
      both, one after the other, and the second one nothing. */
  lemma TwoValuesOfOneCode(rs: seq<Record>, name: string, a: Record, b: Record)
    requires FindVariable(rs, name) == |rs| && a.code == b.code && a.code in {1, 40, 70, 310}
    ensures var empty := if a.code == 40 then Spelling("0") else if a.code == 70 then Number(0) else Text("");
      WithVariable(rs, name, [a, b]) == (rs + [Record(9, Text(name))] + [b] + [Record(a.code, empty)], 2)
  {
    var base, u := rs + [Record(9, Text(name))], Unset(a.code);
    var all := base + [u] + [u];
    assert [a, b][..1] == [a] && [a][..0] == [];
    assert Unsets([a]) == [u] && Unsets([a, b]) == [u] + [u];
    assert base + ([u] + [u]) == all;
    FindsOwnCode(all, |base|, |base|, a.code);
    var once := all[|base| := a];
    FindsOwnCode(once, |base|, |base|, a.code);
    assert SetValues(all, |base|, []) == (all, 0);
    assert SetValues(all, |base|, [a]) == (once, 1);
    assert once[|base| := b] == base + [b] + [u];
    hide FindVariable, NextOfCode;
  }

  /** The first n values have been set. */
  lemma {:induction false} ValuesFill(base: seq<Record>, params: seq<Record>, n: nat)
    requires n <= |params|
    requires Separate(params)
    ensures SetValues(base + Unsets(params), |base|, params[..n]) == (base + params[..n] + Unsets(params)[n..], n)
  {
    hide Unset;
    var all := base + Unsets(params);
    if n == 0 {
      assert base + params[..0] + Unsets(params)[0..] == all;
    } else {
      ValuesFill(base, params, n - 1);
      assert params[..n][..n - 1] == params[..n - 1];
      var before := base + params[..n - 1] + Unsets(params)[n - 1..];
      var p, k := params[n - 1], |base| + (n - 1);
      assert before[k] == Unset(p.code);
      FindsOwnCode(before, |base|, k, p.code);
      assert before[k := p] == base + params[..n] + Unsets(params)[n..];
    }
  }

  lemma {:induction false} FindsOwnCode(rs: seq<Record>, i: nat, k: nat, code: int)
    requires i <= k < |rs| && rs[k].code == code && forall j :: i <= j < k ==> rs[j].code != code && rs[j].code != 9
    ensures NextOfCode(rs, i, code) == k
    decreases k - i
  {
    if i < k {
      FindsOwnCode(rs, i + 1, k, code);
    }
  }

  /** Record k is the first of its group code from a position on, with no name
      before it. */
  predicate IsFirst(rs: seq<Record>, start: nat, k: nat, code: int) {
    && start <= k < |rs| && rs[k].code == code
    && forall j :: start <= j < k ==> rs[j].code != code && rs[j].code != 9
  }

  /** The values whose group codes occur before the next name. */
  ghost function Hits(rs: seq<Record>, start: nat, params: seq<Record>): set<int> {
    set j | 0 <= j < |params| && exists k :: IsFirst(rs, start, k, params[j].code)
  }

  /** Each of these values is at the first record of its group code, and every
      other record is as it was. */
  predicate Holds(rs: seq<Record>, start: nat, params: seq<Record>, q: seq<Record>) {
    && |q| == |rs|
    && forall k :: 0 <= k < |rs| ==> HoldsAt(rs, start, params, q, k)
  }

  predicate HoldsAt(rs: seq<Record>, start: nat, params: seq<Record>, q: seq<Record>, k: nat)
    requires k < |rs| == |q|
  {
    && (forall j :: 0 <= j < |params| && IsFirst(rs, start, k, params[j].code) ==> q[k] == params[j])
    && ((forall j :: 0 <= j < |params| ==> !IsFirst(rs, start, k, params[j].code)) ==> q[k] == rs[k])
  }

  lemma HoldsCodes(rs: seq<Record>, start: nat, params: seq<Record>, q: seq<Record>)
    requires Holds(rs, start, params, q)
    ensures forall k :: 0 <= k < |rs| ==> q[k].code == rs[k].code
  {
    forall k | 0 <= k < |rs|
      ensures q[k].code == rs[k].code
    {
      assert HoldsAt(rs, start, params, q, k);
    }
  }

  lemma NextIsFirst(rs: seq<Record>, q: seq<Record>, start: nat, code: int)
    requires start <= |rs| == |q| && (forall k :: 0 <= k < |rs| ==> q[k].code == rs[k].code)
    ensures var k := NextOfCode(q, start, code);
      forall h: nat :: IsFirst(rs, start, h, code) <==> h == k < |q| && q[k].code == code
  {
  }

  lemma FirstExists(rs: seq<Record>, q: seq<Record>, start: nat, code: int)
    requires start <= |rs| == |q| && (forall k :: 0 <= k < |rs| ==> q[k].code == rs[k].code)
    ensures var k := NextOfCode(q, start, code);
      (exists h :: IsFirst(rs, start, h, code)) <==> k < |q| && q[k].code == code
  {
    NextIsFirst(rs, q, start, code);
    var k := NextOfCode(q, start, code);
    if k < |q| && q[k].code == code {
      assert IsFirst(rs, start, k, code);
    }
  }

  lemma {:induction false} HitsMore(rs: seq<Record>, start: nat, params: seq<Record>, n: nat)
    requires n < |params|
    ensures Hits(rs, start, params[..n + 1])
         == Hits(rs, start, params[..n]) + if exists k :: IsFirst(rs, start, k, params[n].code) then {n} else {}
    ensures n !in Hits(rs, start, params[..n])
  {
    hide IsFirst;
  }

  lemma SetOneMore(rs: seq<Record>, start: nat, params: seq<Record>, n: nat)
    requires start <= |rs| && n < |params|
    ensures var (before, cnt) := SetValues(rs, start, params[..n]);
      var k := NextOfCode(before, start, params[n].code);
      SetValues(rs, start, params[..n + 1])
      == if k < |before| && before[k].code == params[n].code then (before[k := params[n]], cnt + 1) else (before, cnt)
  {
    assert params[..n + 1][..n] == params[..n];
  }

  lemma {:induction false} SetValuesHolds(rs: seq<Record>, start: nat, params: seq<Record>, n: nat)
    requires start <= |rs| && n <= |params| && Separate(params)
    ensures var (q, cnt) := SetValues(rs, start, params[..n]);
      Holds(rs, start, params[..n], q) && cnt == |Hits(rs, start, params[..n])|
  {
    if n == 0 {
      assert Hits(rs, start, params[..0]) == {};
    } else {
      var front, all, p := params[..n - 1], params[..n], params[n - 1];
      SetOneMore(rs, start, params, n - 1);
      SetValuesHolds(rs, start, params, n - 1);
      var (before, cnt) := SetValues(rs, start, front);
      hide Holds, Hits, IsFirst, Separate, NextOfCode, SetValues;
      HoldsCodes(rs, start, front, before);
      FirstExists(rs, before, start, p.code);
      HitsMore(rs, start, params, n - 1);
      OneMoreHolds(rs, start, params, n - 1, before);
    }
  }

  /** Setting one more value. */
  lemma OneMoreHolds(rs: seq<Record>, start: nat, params: seq<Record>, n: nat, before: seq<Record>)
    requires start <= |rs| && n < |params| && Separate(params) && Holds(rs, start, params[..n], before)
    ensures var k := NextOfCode(before, start, params[n].code);
      Holds(rs, start, params[..n + 1],
            if k < |before| && before[k].code == params[n].code then before[k := params[n]] else before)
  {
    var p, k := params[n], NextOfCode(before, start, params[n].code);
    var q := if k < |before| && before[k].code == p.code then before[k := p] else before;
    HoldsCodes(rs, start, params[..n], before);
    NextIsFirst(rs, before, start, p.code);
    var all := params[..n + 1];
    forall h | 0 <= h < |rs|
      ensures HoldsAt(rs, start, all, q, h)
    {
      assert HoldsAt(rs, start, params[..n], before, h);
      OneMoreHoldsAt(rs, start, params, n, before, q, h);
    }
  }

  lemma OneMoreHoldsAt(rs: seq<Record>, start: nat, params: seq<Record>, n: nat, before: seq<Record>, q: seq<Record>,
                       h: nat)
    requires n < |params| && Separate(params) && h < |rs| == |before| == |q|
    requires HoldsAt(rs, start, params[..n], before, h)
    requires q[h] == if IsFirst(rs, start, h, params[n].code) then params[n] else before[h]
    ensures HoldsAt(rs, start, params[..n + 1], q, h)
  {
    var all, front := params[..n + 1], params[..n];
    assert forall j :: 0 <= j < n ==> all[j] == front[j];
    if IsFirst(rs, start, h, params[n].code) {
      assert forall j :: 0 <= j < n ==> params[j].code != params[n].code;
    }
  }

  /** Setting a variable that is there, its name in record i: each value whose
      group code occurs before the next name goes to the first such record, every
      other record stays, and the answer is the number of these values. */
  lemma ExistingVariableIsSet(rs: seq<Record>, name: string, params: seq<Record>, i: nat)
    requires i < |rs| && rs[i] == Record(9, Text(name)) && forall k :: 0 <= k < i ==> rs[k] != Record(9, Text(name))
    requires Separate(params)
    ensures var (q, cnt) := WithVariable(rs, name, params);
      Holds(rs, i + 1, params, q) && cnt == |Hits(rs, i + 1, params)|
  {
    assert FindVariable(rs, name) == i;
    hide SetValues, Holds, Hits, FindVariable;
    SetValuesHolds(rs, i + 1, params, |params|);
    assert params[..|params|] == params;
  }

  /** Where the value of the variable is, or the number of records. */
  function ValueIndex(rs: seq<Record>, name: string): (k: nat)
    ensures k <= |rs|
  {
    var i := FindVariable(rs, name);
    if i + 1 < |rs| && rs[i + 1].code != 9 then i + 1 else |rs|
  }

  function SeededRecords(rs: seq<Record>, seed: Value): seq<Record> {
    var k := ValueIndex(rs, HANDSEED);
    if k < |rs| then rs[k := Record(rs[k].code, seed)] else rs
  }

  predicate HoldsText(code: int) {
    TypeOf(code).StringType? || TypeOf(code).HexType?
  }

  /** What a record of this group code takes out of a parameter in which the
      caller has put a string: the string, or whatever number the bits of its
      address are. */
  predicate IsParam(code: int, text: string, v: Value) {
    if HoldsText(code) then v == Text(text) else Fitting(code, v)
  }

  /** The first HEADER section, or the number of sections. */
  function FindHeader(ss: seq<Section>): (i: nat)
    ensures i <= |ss| && (i < |ss| ==> ss[i].Header?)
    ensures forall k :: 0 <= k < i ==> !ss[k].Header?
  {
    if ss == [] then 0 else if ss[0].Header? then 0 else 1 + FindHeader(ss[1..])
  }

  /** What dimeModel::write does to the model first. */
  function Seeded(ss: seq<Section>, handle: int, seed: Value): seq<Section> {
    var i := FindHeader(ss);
    if handle > 0 && i < |ss| then ss[i := Header(SeededRecords(ss[i].records, seed))] else ss
  }

  /** What the record behind $HANDSEED, if there is one, makes of the next handle
      in hexadecimal. */
  predicate IsSeed(ss: seq<Section>, handle: int, seed: Value) {
    var i := FindHeader(ss);
    handle > 0 && i < |ss| ==>
      var rs := ss[i].records;
      var k := ValueIndex(rs, HANDSEED);
      k < |rs| ==> IsParam(rs[k].code, Numeral(handle + 1, 16), seed)
  }
}
