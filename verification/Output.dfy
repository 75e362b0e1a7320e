/** src/Output.cpp, with the file as the string of what has been printed. */
module Output {
  import opened Wrappers
  import opened Tokens
  import opened Numbers
  import opened Records

  class FileOutput {
    const format: Format
    var text: string

    constructor (format: Format)
      ensures this.format == format && text == []
    {
      this.format := format;
      text := [];
    }

    method WriteGroupCode(code: int)
      modifies this
      ensures text == old(text) + PrintCode(code)
    {
      Print(Padded(code, 3));
    }

    /** writeInt8, writeInt16 and writeInt32. */
    method WriteInt(v: int)
      modifies this
      ensures text == old(text) + Line(Padded(v, 6))
    {
      Print(Padded(v, 6));
    }

    method WriteString(s: string)
      modifies this
      ensures text == old(text) + Line(s)
    {
      Print(s);
    }

    /** fprintf of a line. */
    method Print(s: string)
      modifies this
      ensures text == old(text) + Line(s)
    {
      text := text + s + [LF];
      assert text == old(text) + Line(s);
    }

    /** writeFloat and writeDouble. */
    method WriteDouble(digits: string)
      modifies this
      ensures text == old(text) + Line(format(digits))
    {
      Print(format(digits));
    }

    method WriteRecord(r: Record)
      modifies this
      ensures text == old(text) + PrintRecord(Rounded(format, r))
    {
      hide PrintCode, Line, Padded;
      WriteGroupCode(r.code);
      match r.value {
        case Text(s) => WriteString(s);
        case Number(n) => WriteInt(n);
        case Spelling(d) => WriteDouble(d);
      }
      Regroup(old(text), PrintCode(r.code), PrintValue(Rounded(format, r).value));
    }

    /** A group code and a string. */
    method WriteMarker(code: int, s: string)
      modifies this
      ensures text == old(text) + PrintRecord(Record(code, Text(s)))
    {
      WriteRecord(Record(code, Text(s)));
    }

    method WriteRecords(rs: seq<Record>)
      modifies this
      ensures text == old(text) + PrintRecords(RoundedRecords(format, rs))
    {
      hide PrintRecord, Rounded;
      assert PrintRecords(RoundedRecords(format, rs[..0])) == [];
      for i := 0 to |rs|
        invariant text == old(text) + PrintRecords(RoundedRecords(format, rs[..i]))
      {
        WriteRecord(rs[i]);
        RoundedAppend(format, rs[..i], rs[i]);
        PrintAppend(RoundedRecords(format, rs[..i]), Rounded(format, rs[i]));
        assert rs[..i + 1] == rs[..i] + [rs[i]];
      }
      assert rs[..|rs|] == rs;
    }
  }
}
