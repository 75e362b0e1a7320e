/** The spellings of floating point numbers. Their values (atof, %g) are not
    modelled: a number is carried as the characters that spell it. */
module Reals {
  import opened Wrappers
  import opened Tokens
  import opened Numbers

  predicate IsReal(t: string) {
    TakeReal(t) == (Some(t), [])
  }

  /** What stands after a number: nothing, or the end of its line. */
  predicate Ends(t: string) {
    t == [] || t[0] == LF
  }

  datatype Parts = Parts(sign: string, whole: string, dot: string, fraction: string, exponent: string) {
    function Mantissa(): string { sign + whole + dot + fraction }

    function Text(): string { Mantissa() + exponent }

    predicate Valid() {
      && IsSign(sign) && Decimals(whole) && (dot == [] || dot == ".") && Decimals(fraction)
      && (dot == [] ==> fraction == []) && whole + fraction != [] && (exponent == [] || IsExponent(exponent))
    }
  }

  predicate IsSign(s: string) {
    s == [] || s == "-" || s == "+"
  }

  predicate Decimals(s: string) {
    forall i :: 0 <= i < |s| ==> IsDigit(s[i])
  }

  predicate IsExponent(s: string) {
    && (Head(s, 'e') || Head(s, 'E'))
    && exists n :: 1 <= n <= 2 && n < |s| && IsSign(s[1..n]) && Decimals(s[n..])
  }

  lemma SplitSignLocal(sign: string, t: string)
    requires IsSign(sign) && !Head(t, '-') && !Head(t, '+')
    ensures SplitSign(sign + t) == (sign, t)
  {
    if sign == [] {
      assert sign + t == t;
    } else {
      assert (sign + t)[..1] == sign && (sign + t)[1..] == t;
    }
  }

  /** The parts of the number at the start of s. */
  lemma Split(s: string) returns (p: Parts)
    requires TakeReal(s).0.Some?
    ensures p.Valid() && p.Text() == TakeReal(s).0.value
  {
    hide TakeExponent;
    var s1 := TakeMantissa(s).1;
    p := SplitMantissa(s);
    if Head(s1, 'e') || Head(s1, 'E') {
      var t := TakeExponent(s1[1..]).0.value;
      p := p.(exponent := s1[..1] + t);
      assert p.Mantissa() + (s1[..1] + t) == p.Mantissa() + s1[..1] + t;
      SplitExponent(s1);
    } else {
      assert p.Mantissa() + [] == p.Mantissa();
    }
  }

  lemma SplitMantissa(s: string) returns (p: Parts)
    requires TakeMantissa(s).0.Some?
    ensures p.Valid() && p.exponent == [] && p.Mantissa() == TakeMantissa(s).0.value
  {
    hide TakeDigits;
    var (sign, s1) := SplitSign(s);
    var (d1, s2) := TakeDigits(s1, false);
    var (dot, s3) := if Head(s2, '.') then (s2[..1], s2[1..]) else ([], s2);
    var (d2, s4) := if dot == [] then ([], s3) else TakeDigits(s3, false);
    p := Parts(sign, d1, dot, d2, []);
  }

  lemma SplitExponent(s: string)
    requires s != [] && (s[0] == 'e' || s[0] == 'E') && TakeExponent(s[1..]).0.Some?
    ensures IsExponent(s[..1] + TakeExponent(s[1..]).0.value)
  {
    hide TakeDigits;
    var (sign, s1) := SplitSign(s[1..]);
    var d := TakeDigits(s1, false).0;
    var e := s[..1] + (sign + d);
    var n := 1 + |sign|;
    assert e[1..n] == sign && e[n..] == d;
  }

  lemma TakeExponentWhole(e: string, t: string)
    requires IsExponent(e) && Ends(t)
    ensures TakeExponent((e + t)[1..]) == (Some(e[1..]), t)
  {
    hide TakeDigits;
    var n :| 1 <= n <= 2 && n < |e| && IsSign(e[1..n]) && Decimals(e[n..]);
    var sign, d := e[1..n], e[n..];
    assert (e + t)[1..] == sign + (d + t) && e[1..] == sign + d;
    assert IsDigit(d[0]);
    SplitSignLocal(sign, d + t);
    TakeDigitsLocal(d, t);
  }

  /** What stops the digits before the dot, and how the dot is cut off. */
  lemma DotIsLocal(p: Parts, t: string)
    requires p.Valid() && (Ends(t) || t[0] == 'e' || t[0] == 'E')
    ensures var s := p.dot + (p.fraction + t);
      (s != [] ==> !IsDigit(s[0])) && (if p.dot == "." then Head(s, '.') && s[..1] == p.dot && s[1..] == p.fraction + t
                                       else !Head(s, '.') && p.dot == [] && s == t && p.fraction == [])
  {
    if p.dot != "." {
      assert p.fraction + t == t;
    }
  }

  lemma TakeMantissaWhole(p: Parts, t: string)
    requires p.Valid() && (Ends(t) || t[0] == 'e' || t[0] == 'E')
    ensures TakeMantissa(p.Mantissa() + t) == (Some(p.Mantissa()), t)
  {
    hide TakeDigits, IsExponent, SplitSign;
    var s2 := p.dot + (p.fraction + t);
    assert p.Mantissa() + t == p.sign + (p.whole + s2);
    DotIsLocal(p, t);
    assert p.whole != [] ==> (p.whole + s2)[0] == p.whole[0];
    assert p.whole == [] ==> p.whole + s2 == s2 && p.dot == ".";
    SplitSignLocal(p.sign, p.whole + s2);
    TakeDigitsLocal(p.whole, s2);
    TakeDigitsLocal(p.fraction, t);
  }

  /** Every text made of such parts is read as a whole. */
  lemma TakeRealWhole(p: Parts, t: string)
    requires p.Valid() && Ends(t)
    ensures TakeReal(p.Text() + t) == (Some(p.Text()), t)
  {
    hide TakeMantissa, TakeExponent, Parts.Mantissa;
    var m, s1 := p.Mantissa(), p.exponent + t;
    assert p.Text() + t == m + s1;
    TakeMantissaWhole(p, s1);
    if p.exponent != [] {
      TakeExponentWhole(p.exponent, t);
      assert m + s1[..1] + p.exponent[1..] == m + p.exponent;
    } else {
      assert s1 == t && p.Text() == m;
    }
  }

  /** A number that was read is one that will be read again. */
  lemma TakenIsReal(s: string)
    requires TakeReal(s).0.Some?
    ensures IsReal(TakeReal(s).0.value)
  {
    hide TakeReal, Parts.Text, Parts.Valid;
    var p := Split(s);
    TakeRealWhole(p, []);
    assert p.Text() + [] == p.Text();
  }

  lemma TakeRealLine(t: string, u: string)
    requires IsReal(t) && Ends(u)
    ensures TakeReal(t + u) == (Some(t), u)
  {
    hide TakeReal, Parts.Text, Parts.Valid;
    var p := Split(t);
    TakeRealWhole(p, u);
  }

  lemma RealStart(t: string)
    requires IsReal(t)
    ensures t != [] && !IsBlank(t[0])
  {
    hide TakeReal;
    var p := Split(t);
    if p.sign == [] && p.whole == [] {
      assert t[0] == '.';
    } else if p.sign == [] {
      assert t[0] == p.whole[0];
    }
  }

  /** A spelling on a line of its own is read back. */
  lemma ReadRealLine(t: string, u: string)
    requires IsReal(t)
    ensures ReadReal(t + [LF] + u) == RealRead(true, Some(t), u)
  {
    hide TakeReal;
    RealStart(t);
    assert t + [LF] + u == t + ([LF] + u);
    TakeRealLine(t, [LF] + u);
    assert ([LF] + u)[1..] == u;
  }
}
