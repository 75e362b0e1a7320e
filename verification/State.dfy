/** The traversal state of src/State.cpp: a matrix with a lazily computed
    inverse, whose validity is one private bit of the flag word. */
module State {
  import opened LinearAlgebra
  import Linear
  import opened Wrappers

  const TRAVERSE_POLYLINE_VERTICES: bv32 := 0x1
  const EXPLODE_INSERTS: bv32 := 0x2
  const PUBLIC_MASK: bv32 := 0x7fff
  const PRIVATE_MASK: bv32 := 0x8000
  const INVMATRIX_DIRTY: bv32 := 0x8000

  lemma DirtyBit(f: bv32, g: bv32)
    ensures (f | INVMATRIX_DIRTY) & PUBLIC_MASK == f & PUBLIC_MASK
    ensures (f | INVMATRIX_DIRTY) & INVMATRIX_DIRTY != 0
    ensures f & INVMATRIX_DIRTY != 0 ==> (f ^ INVMATRIX_DIRTY) & INVMATRIX_DIRTY == 0
    ensures (f ^ INVMATRIX_DIRTY) & PUBLIC_MASK == f & PUBLIC_MASK
    ensures ((f & PRIVATE_MASK) | g) & PUBLIC_MASK == g & PUBLIC_MASK
    ensures ((f & PRIVATE_MASK) | g) & INVMATRIX_DIRTY == 0 <==> f & INVMATRIX_DIRTY == 0 && g & INVMATRIX_DIRTY == 0
  {
  }

  class TraversalState {
    var matrix: Mat
    var invmatrix: Mat
    var flags: bv32
    var currentInsert: Option<nat>

    predicate Dirty()
      reads this
    {
      flags & INVMATRIX_DIRTY != 0
    }

    /** A clear dirty bit means the cached inverse matches the matrix. */
    ghost predicate Valid()
      reads this
    {
      && Square(matrix, 4) && Square(invmatrix, 4)
      && (!Dirty() ==> forall c: Mat :: IsInverse(c, matrix, 4) ==> invmatrix == c)
    }

    constructor (traversePolylineVertices: bool, explodeInserts: bool)
      ensures Valid() && matrix == Identity(4) && currentInsert == None && !Dirty()
      ensures GetFlags() == (if traversePolylineVertices then 0x1 else 0) | (if explodeInserts then 0x2 else 0)
    {
      matrix, invmatrix := Identity(4), Identity(4);
      currentInsert := None;
      var f: bv32 := 0;
      if traversePolylineVertices {
        f := f | TRAVERSE_POLYLINE_VERTICES;
      }
      if explodeInserts {
        f := f | EXPLODE_INSERTS;
      }
      flags := f;
      new;
      IdentityInverse();
    }

    constructor Copy(st: TraversalState)
      requires st.Valid()
      ensures Valid() && matrix == st.matrix && invmatrix == st.invmatrix
      ensures flags == st.flags && currentInsert == st.currentInsert
    {
      matrix, invmatrix := st.matrix, st.invmatrix;
      flags, currentInsert := st.flags, st.currentInsert;
    }

    method SetMatrix(m: Mat)
      requires Valid() && Square(m, 4)
      modifies this`matrix, this`flags
      ensures Valid() && matrix == m && GetFlags() == old(GetFlags())
      ensures Dirty()
    {
      DirtyBit(flags, 0);
      matrix := m;
      flags := flags | INVMATRIX_DIRTY;
    }

    method SetFlags(f: bv32)
      requires Valid()
      modifies this`flags
      ensures Valid() && GetFlags() == f & 0x7fff
      ensures Dirty() <==> old(Dirty()) || f & INVMATRIX_DIRTY != 0
    {
      DirtyBit(flags, f);
      flags := (flags & PRIVATE_MASK) | f;
    }

    function GetFlags(): bv32
      reads this
    {
      flags & PUBLIC_MASK
    }

    /** The inverse of the matrix, whenever it has one. The answer of the
        inversion is ignored, as in the source: for a singular matrix the
        cache holds a half-eliminated matrix. */
    method GetInvMatrix() returns (inv: Mat)
      requires Valid()
      modifies this`invmatrix, this`flags
      ensures Valid() && !Dirty() && inv == invmatrix
      ensures GetFlags() == old(GetFlags())
      ensures !old(Dirty()) ==> inv == old(invmatrix)
      ensures (exists c :: IsInverse(c, matrix, 4)) ==> IsInverse(inv, matrix, 4)
    {
      if Dirty() {
        DirtyBit(flags, 0);
        var t := new Linear.Matrix.FromRows(matrix, 4);
        var ok := t.Inverse();
        invmatrix := t.Copy();
        CacheMatches(ok, invmatrix, matrix);
        flags := flags ^ INVMATRIX_DIRTY;
      }
      inv := invmatrix;
    }
  }

  lemma IdentityInverse()
    ensures forall c: Mat :: IsInverse(c, Identity(4), 4) ==> c == Identity(4)
  {
    MulIdentity(Identity(4), 4);
    forall c: Mat | IsInverse(c, Identity(4), 4) ensures c == Identity(4) {
      InverseIsUnique(c, Identity(4), Identity(4), 4);
    }
  }

  lemma CacheMatches(ok: bool, b: Mat, a: Mat)
    requires ok ==> IsInverse(b, a, 4)
    requires ok <==> exists c :: IsInverse(c, a, 4)
    ensures forall c: Mat :: IsInverse(c, a, 4) ==> c == b
  {
    forall c: Mat | IsInverse(c, a, 4) ensures c == b {
      InverseIsUnique(c, b, a, 4);
    }
  }
}
