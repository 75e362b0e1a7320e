/** The escape() of src/convert/convertosm.cpp, which edits a string in place so
    that it can stand in an attribute value of XML 1.0 (sections 2.4, 4.1, 4.6). */
module Escape {
  import opened Wrappers

  predicate IsDelimiter(c: char) {
    c == '<' || c == '>' || c == '\'' || c == '&' || c == '"'
  }

  /** What a delimiter is replaced with; anything else stands for itself. */
  function Reference(c: char): (r: string)
    ensures r != []
  {
    if c == '&' then "&amp;"
    else if c == '<' then "&lt;"
    else if c == '>' then "&gt;"
    else if c == '"' then "&quot;"
    else if c == '\'' then "&#39;"
    else [c]
  }

  /** Character by character. */
  function Escaped(s: string): string {
    if s == [] then [] else Escaped(s[..|s| - 1]) + Reference(s[|s| - 1])
  }

  predicate NoneIn(s: string, lo: nat, hi: nat) {
    forall i :: lo <= i < hi && i < |s| ==> !IsDelimiter(s[i])
  }

  /** find_first_of from an index on; the length of the string for npos. */
  method FindFirstOf(s: string, from: nat) returns (i: nat)
    requires from <= |s|
    ensures from <= i <= |s| && NoneIn(s, from, i) && (i < |s| ==> IsDelimiter(s[i]))
  {
    i := from;
    while i < |s| && !IsDelimiter(s[i])
      invariant from <= i <= |s| && NoneIn(s, from, i)
    {
      i := i + 1;
    }
  }

  lemma EscapedNext(s: string, d: nat)
    requires d < |s|
    ensures Escaped(s[..d + 1]) == Escaped(s[..d]) + Reference(s[d])
  {
    hide Reference;
    assert s[..d + 1][..d] == s[..d];
  }

  /** A stretch without delimiters stays as it is. */
  lemma {:induction false} EscapedPlain(s: string, k: nat, d: nat)
    requires k <= d <= |s| && NoneIn(s, k, d)
    ensures Escaped(s[..d]) == Escaped(s[..k]) + s[k..d]
  {
    hide Escaped;
    if k < d {
      EscapedPlain(s, k, d - 1);
      EscapedNext(s, d - 1);
      assert !IsDelimiter(s[d - 1]);
      assert s[k..d] == s[k..d - 1] + [s[d - 1]];
    }
  }

  /** The string while it is edited: k characters of the text have been dealt
      with, and the search goes on behind them, or at the end of the last
      reference. */
  predicate Edited(text: string, s: string, k: nat, from: nat) {
    && k <= |text| && s == Escaped(text[..k]) + text[k..]
    && from <= |Escaped(text[..k])| && NoneIn(s, from, |Escaped(text[..k])|)
  }

  /** What the search finds is the next delimiter of the text. */
  lemma Found(text: string, s: string, k: nat, from: nat, i: nat) returns (d: nat)
    requires Edited(text, s, k, from) && from <= i <= |s| && NoneIn(s, from, i) && (i < |s| ==> IsDelimiter(s[i]))
    ensures k <= d <= |text| && i == |Escaped(text[..d])| && s == Escaped(text[..d]) + text[d..]
    ensures i < |s| ==> d < |text| && text[d] == s[i]
    ensures i == |s| ==> d == |text|
  {
    hide Escaped, IsDelimiter;
    var e := Escaped(text[..k]);
    assert i >= |e|;
    d := k + (i - |e|);
    forall j | k <= j < d
      ensures !IsDelimiter(text[j])
    {
      assert s[|e| + (j - k)] == text[j];
    }
    EscapedPlain(text, k, d);
    assert text[k..] == text[k..d] + text[d..];
  }

  /** The delimiter is replaced, and skip characters of its reference passed. */
  lemma Replaced(text: string, s: string, d: nat, i: nat, skip: nat)
    requires d < |text| && IsDelimiter(text[d]) && i == |Escaped(text[..d])| && s == Escaped(text[..d]) + text[d..]
    requires skip == if text[d] == '"' then 5 else 4
    ensures Edited(text, s[..i] + Reference(text[d]) + s[i + 1..], d + 1, i + skip)
    ensures i + skip <= |s[..i] + Reference(text[d]) + s[i + 1..]| && d + 1 <= |text|
  {
    var e, r := Escaped(text[..d]), Reference(text[d]);
    EscapedNext(text, d);
    assert skip <= |r| && forall j :: skip <= j < |r| ==> !IsDelimiter(r[j]);
    hide Escaped, Reference, IsDelimiter;
    assert s[..i] == e && s[i + 1..] == text[d + 1..];
    var t := e + r + text[d + 1..];
    forall j | i + skip <= j < |e + r|
      ensures !IsDelimiter(t[j])
    {
      assert t[j] == r[j - i];
    }
  }

  method Replace(s: string, i: nat, r: string) returns (t: string)
    requires i < |s|
    ensures t == s[..i] + r + s[i + 1..]
  {
    t := s[..i] + r + s[i + 1..];
  }

  lemma NothingEdited(text: string)
    ensures Edited(text, text, 0, 0)
  {
    assert text[..0] == [] && text[0..] == text;
  }

  method EscapeString(text: string) returns (s: string)
    ensures s == Escaped(text)
  {
    s := text;
    ghost var k, from := 0, 0;
    NothingEdited(text);
    hide *;
    var begIndex := FindFirstOf(s, 0);
    while begIndex < |s|
      invariant Edited(text, s, k, from) && from <= begIndex <= |s| && NoneIn(s, from, begIndex)
      invariant k <= |text| && (begIndex < |s| ==> IsDelimiter(s[begIndex]))
      decreases |text| - k
    {
      ghost var d := Found(text, s, k, from, begIndex);
      var skip;
      ghost var before := s;
      s, skip := ReplaceDelimiter(s, begIndex);
      Replaced(text, before, d, begIndex, skip);
      begIndex := begIndex + skip;
      k, from := d + 1, begIndex;
      begIndex := FindFirstOf(s, begIndex);
    }
    ghost var d := Found(text, s, k, from, begIndex);
    assert text[..d] == text && text[d..] == [];
  }

  /** The five branches of the loop. */
  method ReplaceDelimiter(s: string, i: nat) returns (t: string, skip: nat)
    requires i < |s| && IsDelimiter(s[i])
    ensures t == s[..i] + Reference(s[i]) + s[i + 1..] && skip == if s[i] == '"' then 5 else 4
  {
    if s[i] == '&' {
      t := Replace(s, i, "&amp;");
      skip := 4;
    } else if s[i] == '<' {
      t := Replace(s, i, "&lt;");
      skip := 4;
    } else if s[i] == '>' {
      t := Replace(s, i, "&gt;");
      skip := 4;
    } else if s[i] == '"' {
      t := Replace(s, i, "&quot;");
      skip := 5;
    } else {
      t := Replace(s, i, "&#39;");
      skip := 4;
    }
  }

  // ----- what the result is worth -----

  /** Character data without markup, where every ampersand starts one of the
      references that every XML reader knows. */
  function Unescaped(s: string): (r: Option<string>)
    decreases |s|
  {
    if s == [] then Some([])
    else if s[0] != '&' then (if IsDelimiter(s[0]) then None else Consed(s[0], Unescaped(s[1..])))
    else if "&amp;" <= s then Consed('&', Unescaped(s[5..]))
    else if "&lt;" <= s then Consed('<', Unescaped(s[4..]))
    else if "&gt;" <= s then Consed('>', Unescaped(s[4..]))
    else if "&quot;" <= s then Consed('"', Unescaped(s[6..]))
    else if "&#39;" <= s then Consed('\'', Unescaped(s[5..]))
    else None
  }

  function Consed(c: char, r: Option<string>): Option<string> {
    if r.None? then None else Some([c] + r.value)
  }

  lemma UnescapeReference(c: char, t: string)
    ensures Unescaped(Reference(c) + t) == Consed(c, Unescaped(t))
  {
    var s := Reference(c) + t;
    assert s[|Reference(c)|..] == t;
    assert s[0] == Reference(c)[0];
    if IsDelimiter(c) {
      assert Reference(c) <= s;
      assert s[1] == Reference(c)[1] && s[2] == Reference(c)[2];
    }
  }

  lemma {:induction false} EscapedFirst(s: string)
    requires s != []
    ensures Escaped(s) == Reference(s[0]) + Escaped(s[1..])
  {
    hide Reference;
    if |s| == 1 {
      assert s[..0] == [] && s[1..] == [];
    } else {
      var n := |s| - 1;
      EscapedFirst(s[..n]);
      assert s[..n][1..] == s[1..][..n - 1];
    }
  }

  /** The result is well-formed character data, and stands for the text. */
  lemma {:induction false} UnescapesToText(s: string)
    ensures Unescaped(Escaped(s)) == Some(s)
  {
    if s != [] {
      hide Escaped, Reference;
      EscapedFirst(s);
      UnescapeReference(s[0], Escaped(s[1..]));
      UnescapesToText(s[1..]);
      assert [s[0]] + s[1..] == s;
    }
  }

  /** No markup is left in it. */
  lemma {:induction false} NoMarkup(s: string)
    ensures forall i :: 0 <= i < |Escaped(s)| ==> Escaped(s)[i] == '&' || !IsDelimiter(Escaped(s)[i])
  {
    if s != [] {
      NoMarkup(s[..|s| - 1]);
      var r := Reference(s[|s| - 1]);
      assert forall i :: 0 <= i < |r| ==> r[i] == '&' || !IsDelimiter(r[i]);
    }
  }
}
