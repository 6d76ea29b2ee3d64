/** The six faces of a sub-cube and of the whole puzzle, the 6-bit mask of
    visible faces, and what a rotation matrix does to face normals. */
module Faces {
  import opened Geometry
  import opened Options

  /** Faces in the bit order of `colorMask`: bit 0 Back (z-), 1 Front (z+),
      2 Left (x-), 3 Right (x+), 4 Bottom (y-), 5 Top (y+). */
  datatype Face = Back | Front | Left | Right | Bottom | Top

  function Bit(f: Face): (i: nat)
    ensures i < 6
  {
    match f
    case Back => 0
    case Front => 1
    case Left => 2
    case Right => 3
    case Bottom => 4
    case Top => 5
  }

  /** The face with bit `i`; the inverse of `Bit`. */
  function FaceAt(i: nat): (f: Face)
    requires i < 6
    ensures Bit(f) == i
  {
    [Back, Front, Left, Right, Bottom, Top][i]
  }

  function FaceAxis(f: Face): Axis
  {
    match f
    case Back => Z
    case Front => Z
    case Left => X
    case Right => X
    case Bottom => Y
    case Top => Y
  }

  function FaceSign(f: Face): Sign
  {
    match f
    case Back => -1
    case Front => 1
    case Left => -1
    case Right => 1
    case Bottom => -1
    case Top => 1
  }

  /** The outward unit normal of a face (the `localNormals` table). */
  function Normal(f: Face): (n: Vec)
    ensures Coord(n, FaceAxis(f)) == FaceSign(f)
  {
    match f
    case Back => Vec(0, 0, -1)
    case Front => Vec(0, 0, 1)
    case Left => Vec(-1, 0, 0)
    case Right => Vec(1, 0, 0)
    case Bottom => Vec(0, -1, 0)
    case Top => Vec(0, 1, 0)
  }

  function Opposite(f: Face): (g: Face)
    ensures FaceAxis(g) == FaceAxis(f) && FaceSign(g) == Neg(FaceSign(f))
  {
    match f
    case Back => Front
    case Front => Back
    case Left => Right
    case Right => Left
    case Bottom => Top
    case Top => Bottom
  }

  /** The face whose outward normal is `v`, if `v` is a unit basis vector. */
  function DirOf(v: Vec): (r: Option<Face>)
    ensures r.Some? ==> Normal(r.value) == v
  {
    if v == Vec(0, 0, -1) then Some(Back)
    else if v == Vec(0, 0, 1) then Some(Front)
    else if v == Vec(-1, 0, 0) then Some(Left)
    else if v == Vec(1, 0, 0) then Some(Right)
    else if v == Vec(0, -1, 0) then Some(Bottom)
    else if v == Vec(0, 1, 0) then Some(Top)
    else None
  }

  /** A face is determined by its axis and its sign. */
  lemma FaceByAxisSign(f: Face, g: Face)
    requires FaceAxis(f) == FaceAxis(g) && FaceSign(f) == FaceSign(g)
    ensures f == g
  {
  }

  /** The visible-face mask of a sub-cube (`colorMask`, six bits). */
  type FaceMask = bv6

  predicate HasFace(m: FaceMask, f: Face)
  {
    m & (1 << Bit(f)) != 0
  }

  /** The number of visible faces. */
  function FaceCount(m: FaceMask): nat
  {
    (if HasFace(m, Back) then 1 else 0) + (if HasFace(m, Front) then 1 else 0)
    + (if HasFace(m, Left) then 1 else 0) + (if HasFace(m, Right) then 1 else 0)
    + (if HasFace(m, Bottom) then 1 else 0) + (if HasFace(m, Top) then 1 else 0)
  }

  /** `m` is a signed permutation matrix: every column is the normal of a face,
      and the three columns lie on three different axes. Every product of
      quarter turns has this shape. */
  predicate SignedPerm(m: Mat)
  {
    DirOf(Col(m, X)).Some? && DirOf(Col(m, Y)).Some? && DirOf(Col(m, Z)).Some? &&
    FaceAxis(DirOf(Col(m, X)).value) != FaceAxis(DirOf(Col(m, Y)).value) &&
    FaceAxis(DirOf(Col(m, X)).value) != FaceAxis(DirOf(Col(m, Z)).value) &&
    FaceAxis(DirOf(Col(m, Y)).value) != FaceAxis(DirOf(Col(m, Z)).value)
  }

  /** The world face that local axis `b` points to under `m`. */
  function ColumnFace(m: Mat, b: Axis): (f: Face)
    requires SignedPerm(m)
    ensures Normal(f) == Col(m, b)
  {
    DirOf(Col(m, b)).value
  }

  lemma ColumnAxesDistinct(m: Mat, b: Axis, c: Axis)
    requires SignedPerm(m)
    ensures FaceAxis(ColumnFace(m, b)) == FaceAxis(ColumnFace(m, c)) ==> b == c
  {
  }

  /** The world face that local face `f` turns to under `m`. */
  function ImageFace(m: Mat, f: Face): Face
    requires SignedPerm(m)
  {
    var c := ColumnFace(m, FaceAxis(f));
    if FaceSign(f) == 1 then c else Opposite(c)
  }

  /** Rotating a local outward normal gives the normal of its image face. */
  lemma ApplyNormal(m: Mat, f: Face)
    requires SignedPerm(m)
    ensures Apply(m, Normal(f)) == Normal(ImageFace(m, f))
  {
    var c := ColumnFace(m, FaceAxis(f));
    ApplyToNormal(m, f);
    NormalOpposite(c);
  }

  lemma ApplyToNormal(m: Mat, f: Face)
    ensures Apply(m, Normal(f)) == Signed(FaceSign(f), Col(m, FaceAxis(f)))
  {
    match f
    case Back =>
    case Front =>
    case Left =>
    case Right =>
    case Bottom =>
    case Top =>
  }

  lemma NormalOpposite(f: Face)
    ensures Normal(Opposite(f)) == Minus(Normal(f))
  {
    match f
    case Back =>
    case Front =>
    case Left =>
    case Right =>
    case Bottom =>
    case Top =>
  }

  /** Two different local faces never turn to the same world face. */
  lemma ImageFaceInjective(m: Mat, f: Face, g: Face)
    requires SignedPerm(m)
    requires ImageFace(m, f) == ImageFace(m, g)
    ensures f == g
  {
    ColumnAxesDistinct(m, FaceAxis(f), FaceAxis(g));
    FaceByAxisSign(f, g);
  }

  /** The local face that `m` turns onto world face `w`. */
  function PreImage(m: Mat, w: Face): (f: Face)
    requires SignedPerm(m)
    ensures ImageFace(m, f) == w
  {
    var b :=
      if FaceAxis(ColumnFace(m, X)) == FaceAxis(w) then X
      else if FaceAxis(ColumnFace(m, Y)) == FaceAxis(w) then Y
      else Z;
    var c := ColumnFace(m, b);
    var f := FaceWith(b, if c == w then 1 else -1);
    assert FaceAxis(c) == FaceAxis(w);
    f
  }

  /** The face on axis `b` with sign `s`. */
  function FaceWith(b: Axis, s: Sign): (f: Face)
    ensures FaceAxis(f) == b && FaceSign(f) == s
  {
    match b
    case X => if s == 1 then Right else Left
    case Y => if s == 1 then Top else Bottom
    case Z => if s == 1 then Front else Back
  }

  lemma IdentitySignedPerm()
    ensures SignedPerm(Identity())
    ensures forall f :: ImageFace(Identity(), f) == f
  {
  }

  /** A quarter turn sends a face normal to a face normal and moves axes as
      `AxisImage` says. */
  lemma SpinNormal(a: Axis, t: Sign, f: Face)
    ensures DirOf(Spin(a, t, Normal(f))).Some?
    ensures FaceAxis(DirOf(Spin(a, t, Normal(f))).value) == AxisImage(a, FaceAxis(f))
  {
  }

  /** The face a quarter turn about `a` by `t` carries face `f` to. */
  function SpunFace(a: Axis, t: Sign, f: Face): (g: Face)
    ensures Normal(g) == Spin(a, t, Normal(f))
  {
    SpinNormal(a, t, f);
    DirOf(Spin(a, t, Normal(f))).value
  }

  /** Left-multiplying by a quarter turn keeps a signed permutation one. */
  lemma TurnKeepsSignedPerm(a: Axis, t: Sign, m: Mat)
    requires SignedPerm(m)
    ensures SignedPerm(Mul(QuarterTurn(a, t), m))
  {
    var q := QuarterTurn(a, t);
    forall b: Axis
      ensures Col(Mul(q, m), b) == Spin(a, t, Normal(ColumnFace(m, b)))
      ensures DirOf(Col(Mul(q, m), b)).Some?
      ensures FaceAxis(DirOf(Col(Mul(q, m), b)).value) == AxisImage(a, FaceAxis(ColumnFace(m, b)))
    {
      ColMul(q, m, b);
      ApplyTurn(a, t, Col(m, b));
      SpinNormal(a, t, ColumnFace(m, b));
    }
    forall b: Axis, c: Axis | b != c
      ensures AxisImage(a, FaceAxis(ColumnFace(m, b))) != AxisImage(a, FaceAxis(ColumnFace(m, c)))
    {
      ColumnAxesDistinct(m, b, c);
      AxisImageInjective(a, FaceAxis(ColumnFace(m, b)), FaceAxis(ColumnFace(m, c)));
    }
  }

  /** `m` moves `h` so that its height above world face `ImageFace(m, f)`
      equals its height above local face `f`: rotations keep the distance of a
      point from each face plane. */
  lemma HeightPreserved(m: Mat, h: Vec, f: Face)
    requires SignedPerm(m)
    ensures Dot(Apply(m, h), Normal(ImageFace(m, f))) == Dot(h, Normal(f))
  {
    var n := Normal(ImageFace(m, f));
    var dx, dy, dz := Dot(Col(m, X), n), Dot(Col(m, Y), n), Dot(Col(m, Z), n);
    DotApplyByColumns(m, h, ImageFace(m, f));
    ColumnHeight(m, X, f);
    ColumnHeight(m, Y, f);
    ColumnHeight(m, Z, f);
    SumOfHeights(h, f, dx, dy, dz);
  }

  /** Column `b` of `m` has height 0 above the image of a face on another axis,
      and height +/-1 above the image of a face on axis `b`. */
  lemma ColumnHeight(m: Mat, b: Axis, f: Face)
    requires SignedPerm(m)
    ensures Dot(Col(m, b), Normal(ImageFace(m, f))) == if b == FaceAxis(f) then FaceSign(f) else 0
  {
    var c := ColumnFace(m, FaceAxis(f));
    ColumnAxesDistinct(m, b, FaceAxis(f));
    NormalDot(ColumnFace(m, b), ImageFace(m, f));
    if b == FaceAxis(f) {
      NormalDot(c, c);
      NormalDot(c, Opposite(c));
    }
  }

  lemma DotApplyByColumns(m: Mat, h: Vec, w: Face)
    ensures Dot(Apply(m, h), Normal(w))
         == Dot(h, Vec(Dot(Col(m, X), Normal(w)), Dot(Col(m, Y), Normal(w)), Dot(Col(m, Z), Normal(w))))
  {
    match w
    case Back =>
    case Front =>
    case Left =>
    case Right =>
    case Bottom =>
    case Top =>
  }

  lemma SumOfHeights(h: Vec, f: Face, dx: int, dy: int, dz: int)
    requires dx == if FaceAxis(f) == X then FaceSign(f) else 0
    requires dy == if FaceAxis(f) == Y then FaceSign(f) else 0
    requires dz == if FaceAxis(f) == Z then FaceSign(f) else 0
    ensures Dot(h, Vec(dx, dy, dz)) == Dot(h, Normal(f))
  {
    match f
    case Back =>
    case Front =>
    case Left =>
    case Right =>
    case Bottom =>
    case Top =>
  }

  /** Dot products of face normals: 0 across axes, +1 for the same face, -1
      for opposite faces. */
  lemma NormalDot(f: Face, g: Face)
    ensures Dot(Normal(f), Normal(g)) ==
      if FaceAxis(f) != FaceAxis(g) then 0
      else if f == g then 1
      else -1
  {
  }

  /** A quarter turn about `a` moves every face normal off axis `a`. */
  lemma SpinMoves(a: Axis, t: Sign, f: Face)
    requires FaceAxis(f) != a
    ensures Spin(a, t, Normal(f)) != Normal(f)
  {
  }

  /** A quarter turn changes every signed permutation it is applied to: a
      turned cube is never left with its old orientation. */
  lemma TurnMovesOrientation(a: Axis, t: Sign, m: Mat)
    requires SignedPerm(m)
    ensures Mul(QuarterTurn(a, t), m) != m
  {
    var b := if FaceAxis(ColumnFace(m, X)) != a then X else Y;
    ColumnAxesDistinct(m, X, Y);
    var c := ColumnFace(m, b);
    ColMul(QuarterTurn(a, t), m, b);
    ApplyTurn(a, t, Col(m, b));
    SpinMoves(a, t, c);
    assert Col(Mul(QuarterTurn(a, t), m), b) != Col(m, b);
  }
}
