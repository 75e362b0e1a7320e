/** The buffered reader of src/Input.cpp, in ASCII mode. Refills may bring any
    number of characters; what the token readers return and leave depends only
    on the characters of the file. */
module Input {
  import opened Wrappers
  import opened Tokens

  const READBUFSIZE: nat := 65536

  function Reversed(s: string): (r: string)
    ensures |r| == |s|
  {
    if s == [] then [] else [s[|s| - 1]] + Reversed(s[..|s| - 1])
  }

  class FileInput {
    const readbuf: array<char>
    var readbufIndex: int
    var readbufLen: int
    var backBuf: seq<char>
    var backBufIndex: int
    var filePosition: int
    var hasPutBack: bool
    var putBackCode: int
    var prevwashandle: bool
    var largestHandle: int  // that of the model which is being read
    var file: string  // what fread has not delivered yet

    ghost predicate Valid()
      reads this`readbufIndex, this`readbufLen, this`backBuf, this`backBufIndex
    {
      && readbuf.Length == READBUFSIZE && 0 <= readbufIndex <= readbufLen <= READBUFSIZE
      && -1 <= backBufIndex < |backBuf|
    }

    /** The characters still to come. */
    ghost function Rest(): string
      requires Valid()
      reads this`readbufIndex, this`readbufLen, this`backBuf, this`backBufIndex, this`file, readbuf
    {
      Reversed(backBuf[..backBufIndex + 1]) + readbuf[readbufIndex..readbufLen] + file
    }

    /** Nothing waits in the put-back buffer: in ASCII mode, always. */
    ghost predicate Ascii()
      reads this`readbufIndex, this`readbufLen, this`backBuf, this`backBufIndex
    {
      Valid() && backBufIndex == -1
    }

    /** c is the character that get() has just taken out of the read buffer. */
    ghost predicate Taken(c: char)
      requires Valid()
      reads this`readbufIndex, this`readbufLen, this`backBuf, this`backBufIndex, readbuf
    {
      readbufIndex > 0 && readbuf[readbufIndex - 1] == c
    }

    constructor (content: string)
      ensures Ascii() && fresh(readbuf) && Rest() == content && !hasPutBack && filePosition == 0
      ensures !prevwashandle && largestHandle == 0
      ensures readbufIndex == 0 == readbufLen && file == content
    {
      readbuf := new char[READBUFSIZE];
      readbufIndex, readbufLen := 0, 0;
      backBuf, backBufIndex := [], -1;
      filePosition, hasPutBack, putBackCode := 0, false, 0;
      prevwashandle, largestHandle := false, 0;
      file := content;
    }

    /** One fread: any positive number of characters, none only at the end. */
    method DoBufferRead() returns (ok: bool)
      requires Valid() && readbufIndex >= readbufLen
      modifies this`readbufIndex, this`readbufLen, this`file, readbuf
      ensures Valid() && readbufIndex == 0 && Rest() == old(Rest())
      ensures readbuf[..readbufLen] + file == old(file)
      ensures ok <==> old(file) != []
      ensures ok <==> readbufLen > 0
    {
      hide Reversed;
      var len: int :| 0 <= len <= READBUFSIZE && len <= |file| && (len == 0 <==> file == []);
      Deliver(len);
      file := file[len..];
      readbufIndex, readbufLen := 0, len;
      ok := len > 0;
    }

    /** What fread does with the buffer. */
    method Deliver(len: nat)
      requires len <= |file| && len <= readbuf.Length
      modifies readbuf
      ensures readbuf[..len] == file[..len]
    {
      for i := 0 to len
        invariant readbuf[..i] == file[..i]
      {
        readbuf[i] := file[i];
        assert readbuf[..i + 1] == readbuf[..i] + [readbuf[i]];
      }
    }

    method Get() returns (ok: bool, c: char)
      requires Valid()
      modifies this`readbufIndex, this`readbufLen, this`file, this`backBufIndex, readbuf
      ensures Valid() && (old(Ascii()) ==> Ascii())
      ensures ok <==> old(Rest()) != []
      ensures ok ==> old(Rest()) == [c] + Rest()
      ensures ok && old(Ascii()) ==> Taken(c)
      ensures !ok ==> Rest() == [] == file && readbufIndex == 0 == readbufLen
      // a character of the current buffer, or the first of a new one
      ensures ok && old(Ascii() && readbufIndex < readbufLen) ==>
        readbufIndex == old(readbufIndex) + 1 && readbufLen == old(readbufLen)
        && file == old(file) && readbuf[..] == old(readbuf[..])
      ensures ok && old(Ascii() && readbufIndex >= readbufLen) ==>
        readbufIndex == 1 <= readbufLen && readbuf[..readbufLen] + file == old(file)
    {
      if backBufIndex >= 0 {
        c := PopBack();
        return true, c;
      }
      if readbufIndex >= readbufLen {
        ok := DoBufferRead();
        if !ok {
          assert backBuf[..0] == [];
          return false, NUL;
        }
      }
      c := NextBuffered();
      ok := true;
    }

    method PopBack() returns (c: char)
      requires Valid() && backBufIndex >= 0
      modifies this`backBufIndex
      ensures Valid() && old(Rest()) == [c] + Rest()
    {
      c := backBuf[backBufIndex];
      assert backBuf[..backBufIndex + 1][..backBufIndex] == backBuf[..backBufIndex];
      backBufIndex := backBufIndex - 1;
    }

    method NextBuffered() returns (c: char)
      requires Ascii() && readbufIndex < readbufLen
      modifies this`readbufIndex
      ensures Ascii() && old(Rest()) == [c] + Rest() && Taken(c)
    {
      c := readbuf[readbufIndex];
      assert backBuf[..0] == [];
      assert readbuf[readbufIndex..readbufLen] == [c] + readbuf[readbufIndex + 1..readbufLen];
      readbufIndex := readbufIndex + 1;
    }

    /** Puts c back. When the read buffer can simply be stepped back, what comes
        back is what it holds, whatever c is. */
    method PutBack(c: char)
      requires Valid()
      modifies this`readbufIndex, this`backBuf, this`backBufIndex
      ensures Valid()
      ensures old(Ascii() && readbufIndex > 0) ==> Ascii()
      ensures var back := old(readbufIndex > 0 && backBufIndex < 0);
        Rest() == [if back then old(readbuf[readbufIndex - 1]) else c] + old(Rest())
    {
      if readbufIndex > 0 && backBufIndex < 0 {
        readbufIndex := readbufIndex - 1;
      } else {
        Push(c);
      }
    }

    /** backBuf[++backBufIndex] = c */
    method Push(c: char)
      requires Valid()
      modifies this`backBuf, this`backBufIndex
      ensures Valid() && backBufIndex == old(backBufIndex) + 1 && Rest() == [c] + old(Rest())
    {
      ghost var was, before := backBuf[..backBufIndex + 1], Rest();
      backBufIndex := backBufIndex + 1;
      var after := if backBufIndex < |backBuf| then backBufIndex + 1 else |backBuf|;
      backBuf := backBuf[..backBufIndex] + [c] + backBuf[after..];
      assert backBuf[..backBufIndex + 1][..backBufIndex] == was;
      assert Reversed(backBuf[..backBufIndex + 1]) == [c] + Reversed(was);
      assert Rest() == [c] + before;
    }

    /** The putBack for strings, last character first. */
    method PutBackString(s: string)
      requires Valid()
      modifies this`readbufIndex, this`backBuf, this`backBufIndex
      ensures Valid()
      ensures var back := old(|s| <= readbufIndex && backBufIndex < 0);
        Rest() == (if back then old(readbuf[readbufIndex - |s|..readbufIndex]) else s) + old(Rest())
    {
      if |s| <= readbufIndex && backBufIndex < 0 {
        readbufIndex := readbufIndex - |s|;
      } else {
        PushAll(s);
      }
    }

    method PushAll(s: string)
      requires Valid()
      modifies this`backBuf, this`backBufIndex
      ensures Valid() && Rest() == s + old(Rest())
    {
      hide *;
      var i := |s|;
      assert s[i..] + Rest() == Rest();
      while i > 0
        invariant 0 <= i <= |s| && Valid() && Rest() == s[i..] + old(Rest())
      {
        i := i - 1;
        Push(s[i]);
        assert s[i..] + old(Rest()) == [s[i]] + (s[i + 1..] + old(Rest()));
      }
      assert s[0..] == s;
    }

    /** The format test. For an ASCII file it steps back to the start of the
        buffer, which is the start of the file unless the end of the file or
        another refill came between. `first` is how much the first refill
        brought. */
    method CheckBinary() returns (binary: bool, ghost first: nat)
      requires Ascii() && readbufIndex == 0 == readbufLen
      modifies this`readbufIndex, this`readbufLen, this`file, this`backBufIndex, this`filePosition, readbuf
      ensures Ascii() && (binary <==> BINARY_ID <= old(file)) && first <= |old(file)| && (old(file) != [] ==> first > 0)
      // an ASCII file is read from its start exactly when it has a character
      // that is not the identifier's, and the first refill has brought that
      ensures !binary ==>
        (Rest() == old(file)
         <==> old(file) == [] || (Agreeing(old(file)) < |old(file)| && Agreeing(old(file)) < first))
    {
      ghost var content := file;
      var i;
      i, first := MatchIdentifier();
      AgreeingIs(content, i);
      hide Agreeing;
      if i < |BINARY_ID| {
        StepBack();
        filePosition := 0;
        return false, first;
      }
      hide Rest;
      filePosition := 22;
      assert content[..i] == BINARY_ID;
      return true, first;
    }

    /** The reset of the buffer for an ASCII file. */
    method StepBack()
      requires Ascii()
      modifies this`readbufIndex
      ensures Ascii() && Rest() == readbuf[..readbufLen] + file
    {
      readbufIndex := 0;
      assert backBuf[..0] == [];
    }

    /** How many characters of the identifier the file starts with. */
    method MatchIdentifier() returns (i: nat, ghost first: nat)
      requires Ascii() && readbufIndex == 0 == readbufLen
      modifies this`readbufIndex, this`readbufLen, this`file, this`backBufIndex, readbuf
      ensures Ascii() && i <= |BINARY_ID| && i <= |old(file)| && old(file)[..i] == BINARY_ID[..i]
      ensures first <= |old(file)| && (old(file) != [] ==> first > 0)
      ensures i < |BINARY_ID| ==> Stopped(old(file), i, first)
    {
      first := 0;
      i := 0;
      assert Matching(file, 0, 0) by { assert backBuf[..0] == []; }
      hide Rest, Stopped;
      while i < |BINARY_ID|
        invariant 0 <= i <= |BINARY_ID| && Matching(old(file), i, first)
      {
        var matched;
        matched, first := MatchNext(old(file), i, first);
        if !matched {
          return;
        }
        i := i + 1;
      }
    }

    /** The first i characters of the file are the identifier's, and have been
        read: out of the first refill, or else the start of the file is gone. */
    ghost predicate Matching(content: string, i: nat, first: nat)
      reads this`readbufIndex, this`readbufLen, this`backBuf, this`backBufIndex, this`file, readbuf
    {
      && Ascii() && i <= |BINARY_ID| && i <= |content| && content[..i] == BINARY_ID[..i] && first <= |content|
      && Rest() == content[i..] && (i > 0 ==> first > 0)
      && (i == 0 ==> readbufIndex == 0 == readbufLen && file == content)
      && (0 < i <= first ==> readbufIndex == i && readbufLen == first && readbuf[..readbufLen] + file == content)
      && (i > first ==> readbufLen + |file| < |content|)
    }

    method MatchNext(ghost content: string, i: nat, ghost was: nat) returns (matched: bool, ghost first: nat)
      requires i < |BINARY_ID| && Matching(content, i, was)
      modifies this`readbufIndex, this`readbufLen, this`file, this`backBufIndex, readbuf
      ensures first <= |content| && (content != [] ==> first > 0)
      ensures if matched then Matching(content, i + 1, first)
              else Ascii() && i <= |content| && content[..i] == BINARY_ID[..i] && Stopped(content, i, first)
    {
      hide Rest;
      var ok, c := Get();
      first := if i == 0 then readbufLen else was;
      matched := ok && c == BINARY_ID[i];
      if matched {
        assert content[..i + 1] == content[..i] + [c];
        assert content[i..][1..] == content[i + 1..];
      }
    }

    /** The loop of CheckBinary has met the end of the file or a character that
        is not the identifier's. */
    ghost predicate Stopped(content: string, i: nat, first: nat)
      requires Valid() && i < |BINARY_ID|
      reads this`readbufIndex, this`readbufLen, this`backBuf, this`backBufIndex, this`file, readbuf
    {
      || (i == |content| && file == [] && readbufLen == 0)
      || (i < |content| && content[i] != BINARY_ID[i]
          && (if i < first then readbuf[..readbufLen] + file == content else readbufLen + |file| < |content|))
    }

    // ----- ASCII token readers -----

    method SkipWhiteSpace() returns (ok: bool)
      requires Ascii()
      modifies this`readbufIndex, this`readbufLen, this`file, this`backBuf, this`backBufIndex, readbuf
      ensures Ascii() && Rest() == SkipBlanks(old(Rest())) && (ok <==> Rest() != [])
    {
      hide Rest;
      var c;
      ok, c := Get();
      while ok && IsBlank(c)
        invariant Ascii() && (ok ==> Taken(c)) && (!ok ==> Rest() == [])
        invariant SkipBlanks(old(Rest())) == SkipBlanks(if ok then [c] + Rest() else [])
        decreases |Rest()|, ok
      {
        ok, c := Get();
      }
      if ok {
        PutBack(c);
      }
    }

    method NextLine() returns (ok: bool)
      requires Ascii()
      modifies this`readbufIndex, this`readbufLen, this`file, this`backBuf, this`backBufIndex, this`filePosition,
               readbuf
      ensures Ascii() && (ok, Rest()) == Tokens.NextLine(old(Rest()))
      ensures filePosition == old(filePosition) + if ok then 1 else 0
    {
      hide Rest;
      var c;
      ok, c := Get();
      while ok && c != LF && c != CR
        invariant Ascii() && filePosition == old(filePosition) && (!ok ==> Rest() == [])
        invariant Tokens.NextLine(old(Rest())) == Tokens.NextLine(if ok then [c] + Rest() else [])
        invariant ok ==> Taken(c)
        decreases |Rest()|, ok
      {
        ok, c := Get();
      }
      if !ok {
        return false;
      }
      while c == CR
        invariant Ascii() && filePosition == old(filePosition) && Taken(c)
        invariant c == CR ==> Tokens.NextLine(old(Rest())) == AfterCR(Rest())
        invariant c != CR ==> Tokens.NextLine(old(Rest())) == (true, if c == LF then Rest() else [c] + Rest())
        decreases |Rest()|, c == CR
      {
        ok, c := Get();
        if !ok {
          return false;
        }
      }
      if c != LF && c != CR {
        PutBack(c);
      }
      filePosition := filePosition + 1;
      return true;
    }

    method ReadChar(want: char) returns (n: int)
      requires Ascii()
      modifies this`readbufIndex, this`readbufLen, this`file, this`backBuf, this`backBufIndex, readbuf
      ensures Ascii() && n == (if Head(old(Rest()), want) then 1 else 0)
      ensures Rest() == old(Rest())[n..]
    {
      hide Rest;
      var ok, c := Get();
      if !ok {
        n := 0;
      } else if c == want {
        n := 1;
      } else {
        PutBack(c);
        n := 0;
      }
    }

    method ReadDigits(hex: bool) returns (d: string)
      requires Ascii()
      modifies this`readbufIndex, this`readbufLen, this`file, this`backBuf, this`backBufIndex, readbuf
      ensures Ascii() && (d, Rest()) == TakeDigits(old(Rest()), hex)
    {
      hide Rest;
      d := [];
      var ok, c := Get();
      DigitsStart(old(Rest()), hex);
      while ok
        invariant Ascii() && (ok ==> Taken(c)) && (!ok ==> Rest() == [])
        invariant TakeDigits(old(Rest()), hex) == Prepend(d, TakeDigits(Stream(ok, c, Rest()), hex))
        decreases |Rest()|, ok
      {
        DigitsStep(d, c, Rest(), hex);
        if if hex then IsHexDigit(c) else IsDigit(c) {
          d := d + [c];
        } else {
          PutBack(c);
          return;
        }
        ok, c := Get();
      }
      DigitsEnd(d, hex);
    }

    method ReadUnsignedIntegerString() returns (t: Option<string>)
      requires Ascii()
      modifies this`readbufIndex, this`readbufLen, this`file, this`backBuf, this`backBufIndex, readbuf
      ensures Ascii() && (t, Rest()) == TakeUnsigned(old(Rest()))
    {
      hide Rest;
      ghost var s := Rest();
      var zero := ReadChar('0');
      if zero == 1 {
        var x := ReadChar('x');
        if x == 1 {
          assert Rest() == s[2..];
          var d := ReadDigits(true);
          t := if d == [] then None else Some("0x" + d);
        } else {
          var d := ReadDigits(false);
          t := Some("0" + d);
          assert s == ['0'] + s[1..];
        }
      } else {
        var d := ReadDigits(false);
        t := if d == [] then None else Some(d);
      }
    }

    method ReadInteger() returns (l: Option<int>)
      requires Ascii()
      modifies this`readbufIndex, this`readbufLen, this`file, this`backBuf, this`backBufIndex, readbuf
      ensures Ascii()
      ensures var (t, rest) := TakeInteger(old(Rest()));
        Rest() == rest && l == if t.Some? then Some(StrToL(t.value)) else None
    {
      hide Rest;
      ghost var s := Rest();
      var sign := [];
      var n := ReadChar('-');
      if n == 1 {
        sign := ['-'];
      } else {
        n := ReadChar('+');
        if n == 1 {
          sign := ['+'];
        }
      }
      assert Rest() == s[n..] && sign == s[..n];
      var t := ReadUnsignedIntegerString();
      if t.None? {
        return None;
      }
      assert n == 0 ==> sign + t.value == t.value;
      return Some(StrToL(sign + t.value));
    }

    /** readInt8, readInt16 and readInt32. */
    method ReadInt(w: Width) returns (ok: bool, val: Option<int>)
      requires Ascii()
      modifies this`readbufIndex, this`readbufLen, this`file, this`backBuf, this`backBufIndex, this`filePosition,
               readbuf
      ensures Ascii() && IntRead(ok, val, Rest()) == Tokens.ReadInt(old(Rest()), w)
    {
      hide Rest;
      hide StrToL, TakeUnsigned, Tokens.NextLine;
      ghost var s := Rest();
      ok := SkipWhiteSpace();
      if !ok {
        return false, None;
      }
      var l := ReadInteger();
      if l.None? || (!w.W32? && !Fits(w, l.value)) {
        return false, None;
      }
      val := Some(if w.W32? then ToInt32(l.value) else l.value);
      ok := NextLine();
    }

    method ReadString() returns (line: Option<string>)
      requires Ascii()
      modifies this`readbufIndex, this`readbufLen, this`file, this`backBuf, this`backBufIndex, this`filePosition,
               readbuf, this`prevwashandle, this`largestHandle
      ensures Ascii() && (line, Rest()) == Tokens.ReadString(old(Rest()))
      ensures if old(prevwashandle) && line.Some?
              then !prevwashandle && Registers(line.value, old(largestHandle), largestHandle)
              else prevwashandle == old(prevwashandle) && largestHandle == old(largestHandle)
    {
      hide Rest, Registers;
      var ok := SkipWhiteSpace();
      if !ok {
        return None;
      }
      var l := ReadLine();
      ok := NextLine();
      if prevwashandle {
        prevwashandle := false;
        RegisterHandle(l);
      }
      return Some(l);
    }

    /** dimeModel::registerHandle. For an empty string sscanf answers that the input
        has ended, which is not zero, and the number is whatever it was. */
    method RegisterHandle(handle: string)
      modifies this`largestHandle
      ensures Registers(handle, old(largestHandle), largestHandle)
    {
      var num: int := *;
      var scanned := ScanHex(handle);
      if scanned.Some? {
        num := scanned.value;
      }
      if (scanned.Some? || handle == []) && num >= largestHandle {
        largestHandle := num;
      }
    }

    /** The loop of readString that fills the line buffer, with the put-back
        that follows it. */
    method ReadLine() returns (l: string)
      requires Ascii()
      modifies this`readbufIndex, this`readbufLen, this`file, this`backBuf, this`backBufIndex, readbuf
      ensures Ascii() && (l, Rest()) == TakeLine(old(Rest()), DXF_MAXLINELEN)
    {
      hide Rest, TakeLine;
      l := [];
      var c := NUL;
      var ok, next := Get();
      LineStart(old(Rest()));
      while ok && next != LF && next != CR && next != NUL && |l| < DXF_MAXLINELEN
        invariant Ascii() && |l| <= DXF_MAXLINELEN && (ok ==> Taken(next)) && (!ok ==> Rest() == [])
        invariant c != LF && c != CR
        invariant TakeLine(old(Rest()), DXF_MAXLINELEN)
               == Prepend(l, TakeLine(Stream(ok, next, Rest()), DXF_MAXLINELEN - |l|))
        decreases |Rest()|, ok
      {
        LineStep(l, next, Rest());
        c := next;
        l := l + [c];
        ok, next := Get();
      }
      LineEnd(l, Stream(ok, next, Rest()));
      if ok {
        c := next;
      }
      if c == LF || c == CR {
        PutBack(c);
      }
    }

    method ReadExponent() returns (t: Option<string>)
      requires Ascii()
      modifies this`readbufIndex, this`readbufLen, this`file, this`backBuf, this`backBufIndex, readbuf
      ensures Ascii() && (t, Rest()) == TakeExponent(old(Rest()))
    {
      hide Rest;
      ghost var s := Rest();
      var sign := ReadSign();
      var d := ReadDigits(false);
      t := if d == [] then None else Some(sign + d);
    }

    method ReadSign() returns (sign: string)
      requires Ascii()
      modifies this`readbufIndex, this`readbufLen, this`file, this`backBuf, this`backBufIndex, readbuf
      ensures Ascii() && (sign, Rest()) == SplitSign(old(Rest()))
    {
      hide Rest;
      ghost var s := Rest();
      assert Head(s, '-') ==> s[..1] == ['-'];
      assert Head(s, '+') ==> s[..1] == ['+'];
      sign := [];
      var n := ReadChar('-');
      if n == 1 {
        sign := ['-'];
      } else {
        n := ReadChar('+');
        if n == 1 {
          sign := ['+'];
        }
      }
    }

    /** readReal up to the exponent. */
    method ReadMantissa() returns (t: Option<string>)
      requires Ascii()
      modifies this`readbufIndex, this`readbufLen, this`file, this`backBuf, this`backBufIndex, readbuf
      ensures Ascii() && (t, Rest()) == TakeMantissa(old(Rest()))
    {
      hide Rest;
      hide TakeDigits;
      var sign := ReadSign();
      var d1 := ReadDigits(false);
      ghost var s2 := Rest();
      assert Head(s2, '.') ==> s2[..1] == ['.'];
      var n := ReadChar('.');
      var dot, d2 := [], [];
      if n == 1 {
        dot := ['.'];
        d2 := ReadDigits(false);
      }
      t := if d1 == [] && d2 == [] then None else Some(sign + d1 + dot + d2);
    }

    /** readReal, up to the call of atof. */
    method CollectReal() returns (t: Option<string>)
      requires Ascii()
      modifies this`readbufIndex, this`readbufLen, this`file, this`backBuf, this`backBufIndex, readbuf
      ensures Ascii() && (t, Rest()) == TakeReal(old(Rest()))
    {
      hide Rest;
      hide TakeMantissa, TakeExponent;
      t := ReadMantissa();
      if t.None? {
        return None;
      }
      ghost var s1 := Rest();
      assert Head(s1, 'e') ==> s1[..1] == ['e'];
      assert Head(s1, 'E') ==> s1[..1] == ['E'];
      var n := ReadChar('e');
      var e := ['e'];
      if n == 0 {
        n := ReadChar('E');
        e := ['E'];
      }
      if n == 1 {
        var x := ReadExponent();
        t := if x.None? then None else Some(t.value + e + x.value);
      }
    }

    method ReadDouble() returns (ok: bool, text: Option<string>)
      requires Ascii()
      modifies this`readbufIndex, this`readbufLen, this`file, this`backBuf, this`backBufIndex, this`filePosition,
               readbuf
      ensures Ascii() && RealRead(ok, text, Rest()) == ReadReal(old(Rest()))
    {
      hide Rest;
      hide TakeReal, Tokens.NextLine;
      ok := SkipWhiteSpace();
      if !ok {
        NoReal();
        return false, None;
      }
      text := CollectReal();
      if text.None? {
        return false, None;
      }
      ok := NextLine();
    }

    // ----- group codes -----

    ghost function Pending(): Source
      requires Valid()
      reads this`readbufIndex, this`readbufLen, this`backBuf, this`backBufIndex, this`file, readbuf,
            this`hasPutBack, this`putBackCode
    {
      Source(Rest(), if hasPutBack then Some(putBackCode) else None)
    }

    method ReadGroupCode() returns (ok: bool, code: Option<int>)
      requires Ascii()
      modifies this`readbufIndex, this`readbufLen, this`file, this`backBuf, this`backBufIndex, this`filePosition,
               readbuf, this`hasPutBack, this`prevwashandle, this`largestHandle
      ensures Ascii() && (ok, code, Pending()) == TakeGroupCode(old(Pending())) && !hasPutBack
      ensures old(!hasPutBack) ==> (ok, code, Rest()) == CodeAfterComments(old(Rest()))
      ensures old(hasPutBack) ==> ok && code == Some(old(putBackCode)) && Rest() == old(Rest())
      ensures (prevwashandle <==> code == Some(5)) && largestHandle >= old(largestHandle)
    {
      hide Rest, Tokens.ReadInt, Tokens.ReadString;
      if hasPutBack {
        hasPutBack := false;
        prevwashandle := putBackCode == 5;
        return true, Some(putBackCode);
      }
      ok, code := ReadInt(W32);
      while ok && code == Some(COMMENT)
        invariant Ascii() && !hasPutBack && (ok ==> code.Some?) && largestHandle >= old(largestHandle)
        invariant CodeAfterComments(old(Rest())) == (if ok && code == Some(COMMENT)
          then CodeAfterComments(Tokens.ReadString(Rest()).1) else (ok, code, Rest()))
        decreases |Rest()|, ok && code == Some(COMMENT)
      {
        var comment := ReadString();
        ok, code := ReadInt(W32);
      }
      prevwashandle := code == Some(5);
    }

    method PutBackGroupCode(code: int)
      requires Valid()
      modifies this`putBackCode, this`hasPutBack
      ensures Pending() == old(Pending()).(back := Some(code)) && hasPutBack && putBackCode == code
    {
      putBackCode := code;
      hasPutBack := true;
    }
  }

  /** The largest handle after this one has been registered. */
  predicate Registers(handle: string, before: int, after: int) {
    && before <= after
    && (handle != [] ==>
          var scanned := ScanHex(handle);
          after == if scanned.Some? && scanned.value >= before then scanned.value else before)
  }

  const BINARY_ID: string := "AutoCAD Binary DXF"

  /** Opening a file and testing it, by the identifier itself. */
  method Open(content: string) returns (file: FileInput, binary: bool)
    ensures fresh(file) && file.Ascii() && (binary <==> "AutoCAD Binary DXF" <= content)
  {
    file := new FileInput(content);
    ghost var first;
    binary, first := file.CheckBinary();
  }

  /** A file that is the first character of the identifier: nothing is left of it. */
  method OpenBeginning() returns (file: FileInput)
    ensures fresh(file) && file.Ascii() && file.Rest() != "A"
  {
    file := new FileInput("A");
    var binary, first := file.CheckBinary();
    assert "A"[..1] == BINARY_ID[..1];
    AgreeingIs("A", 1);
    assert !binary by {
      assert |BINARY_ID| > 1;
    }
  }

  /** How many characters of the identifier a file starts with. */
  function Agreeing(content: string): (n: nat)
    ensures n <= |content| && n <= |BINARY_ID|
  {
    AgreeingFrom(content, 0)
  }

  function AgreeingFrom(content: string, i: nat): (n: nat)
    requires i <= |content| && i <= |BINARY_ID|
    ensures i <= n <= |content| && n <= |BINARY_ID|
    decreases |BINARY_ID| - i
  {
    if i < |content| && i < |BINARY_ID| && content[i] == BINARY_ID[i] then AgreeingFrom(content, i + 1) else i
  }

  lemma AgreeingIs(content: string, i: nat)
    requires i <= |content| && i <= |BINARY_ID| && content[..i] == BINARY_ID[..i]
    requires i < |content| && i < |BINARY_ID| ==> content[i] != BINARY_ID[i]
    ensures Agreeing(content) == i
  {
    AgreeingSteps(content, 0, i);
  }

  lemma {:induction false} AgreeingSteps(content: string, k: nat, i: nat)
    requires k <= i <= |content| && i <= |BINARY_ID| && content[..i] == BINARY_ID[..i]
    ensures AgreeingFrom(content, k) == AgreeingFrom(content, i)
    decreases i - k
  {
    if k < i {
      assert content[..i][k] == BINARY_ID[..i][k];
      AgreeingSteps(content, k + 1, i);
    }
  }

  /** What a loader still has to read: characters, and perhaps a group code that
      was put back. */
  datatype Source = Source(rest: string, back: Option<int>) {
    /** Shrinks with every group code that is read. */
    function Size(): nat {
      2 * |rest| + if back.Some? then 1 else 0
    }
  }

  function TakeGroupCode(src: Source): (r: (bool, Option<int>, Source))
    ensures r.0 ==> r.2.Size() < src.Size() && r.1.Some?
    ensures r.2.back.None? && |r.2.rest| <= |src.rest|
  {
    if src.back.Some? then (true, src.back, Source(src.rest, None))
    else
      var (ok, code, rest) := CodeAfterComments(src.rest);
      (ok, code, Source(rest, None))
  }

  /** The characters to come, with the one already in hand. */
  function Stream(ok: bool, c: char, rest: string): string {
    if ok then [c] + rest else []
  }

  function Prepend(d: string, t: (string, string)): (string, string) {
    (d + t.0, t.1)
  }

  lemma DigitsStart(s: string, hex: bool)
    ensures TakeDigits(s, hex) == Prepend([], TakeDigits(s, hex))
  {
    assert [] + TakeDigits(s, hex).0 == TakeDigits(s, hex).0;
  }

  lemma DigitsStep(d: string, c: char, rest: string, hex: bool)
    ensures Prepend(d, TakeDigits([c] + rest, hex))
         == if if hex then IsHexDigit(c) else IsDigit(c) then Prepend(d + [c], TakeDigits(rest, hex))
            else (d, [c] + rest)
  {
    assert ([c] + rest)[1..] == rest;
    assert d + ([c] + TakeDigits(rest, hex).0) == d + [c] + TakeDigits(rest, hex).0;
    assert d + [] == d;
  }

  lemma DigitsEnd(d: string, hex: bool)
    ensures Prepend(d, TakeDigits([], hex)) == (d, [])
  {
    assert d + [] == d;
  }

  lemma LineStart(s: string)
    ensures TakeLine(s, DXF_MAXLINELEN) == Prepend([], TakeLine(s, DXF_MAXLINELEN))
  {
    assert [] + TakeLine(s, DXF_MAXLINELEN).0 == TakeLine(s, DXF_MAXLINELEN).0;
  }

  lemma LineStep(l: string, c: char, rest: string)
    requires |l| < DXF_MAXLINELEN && c != LF && c != CR && c != NUL
    ensures Prepend(l, TakeLine([c] + rest, DXF_MAXLINELEN - |l|))
         == Prepend(l + [c], TakeLine(rest, DXF_MAXLINELEN - |l + [c]|))
  {
    hide TakeLine;
    var t := TakeLine(rest, DXF_MAXLINELEN - |l| - 1);
    TakeLineStep(c, rest, DXF_MAXLINELEN - |l|);
    assert l + ([c] + t.0) == l + [c] + t.0;
  }

  lemma TakeLineStep(c: char, rest: string, room: nat)
    requires room > 0 && c != LF && c != CR && c != NUL
    ensures TakeLine([c] + rest, room) == ([c] + TakeLine(rest, room - 1).0, TakeLine(rest, room - 1).1)
  {
    assert ([c] + rest)[1..] == rest;
  }

  lemma LineEnd(l: string, s: string)
    requires |l| <= DXF_MAXLINELEN
    requires s == [] || s[0] == LF || s[0] == CR || s[0] == NUL || |l| == DXF_MAXLINELEN
    ensures Prepend(l, TakeLine(s, DXF_MAXLINELEN - |l|))
         == (l, if s == [] || s[0] == LF || s[0] == CR then s else s[1..])
  {
    assert l + [] == l;
  }

  lemma NoReal()
    ensures TakeReal([]) == (None, [])
  {
  }
}
