/** What the entities are handed: a group code and its value. Which member of
    the union a reader looks at follows from the code. */
module Params {
  datatype Rec = Rec(code: int, double: real, whole: int)

  datatype Vector = Vector(x: real, y: real, z: real)

  function Double(code: int, v: real): Rec {
    Rec(code, v, 0)
  }

  function Whole(code: int, n: int): Rec {
    Rec(code, 0.0, n)
  }

  predicate Lacks(rs: seq<Rec>, code: int) {
    forall i :: 0 <= i < |rs| ==> rs[i].code != code
  }

  /** How many records have this group code. */
  function Count(rs: seq<Rec>, code: int): nat {
    if rs == [] then 0 else (if rs[0].code == code then 1 else 0) + Count(rs[1..], code)
  }

  lemma {:induction false} CountAppend(a: seq<Rec>, b: seq<Rec>, code: int)
    ensures Count(a + b, code) == Count(a, code) + Count(b, code)
  {
    if a == [] {
      assert a + b == b;
    } else {
      assert (a + b)[1..] == a[1..] + b;
      CountAppend(a[1..], b, code);
    }
  }

  lemma {:induction false} CountForeign(rs: seq<Rec>, code: int)
    requires forall i :: 0 <= i < |rs| ==> rs[i].code != code
    ensures Count(rs, code) == 0
  {
    if rs != [] {
      CountForeign(rs[1..], code);
    }
  }

  lemma CountOne(r: Rec, code: int)
    ensures Count([r], code) == if r.code == code then 1 else 0
  {
    assert [r][1..] == [] && Count([], code) == 0;
  }
}
