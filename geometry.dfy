/** Exact integer geometry of the cube lattice.

    Every committed turn of the puzzle is a quarter turn about a basis axis, so
    the rotation block of every sub-cube's model matrix only ever holds -1, 0
    and 1, and every translation is a whole number of spacings. This module
    gives the 3x3 integer matrices and lattice vectors that stand for the
    floating-point `glm` matrices and vectors of the source. */
module Geometry {

  datatype Vec = Vec(x: int, y: int, z: int)

  /** The three basis axes a rotation command may name. */
  datatype Axis = X | Y | Z

  /** A layer selector (`side`) or a turn sense (`direction`): the source keeps
      both as `int` and only ever uses +1 and -1. */
  type Sign = s: int | s == 1 || s == -1 witness 1

  function Neg(t: Sign): Sign
  {
    if t == 1 then -1 else 1
  }

  function Unit(a: Axis): Vec
  {
    match a
    case X => Vec(1, 0, 0)
    case Y => Vec(0, 1, 0)
    case Z => Vec(0, 0, 1)
  }

  function Dot(u: Vec, v: Vec): int
  {
    u.x * v.x + u.y * v.y + u.z * v.z
  }

  /** The component of `v` along axis `a`. */
  function Coord(v: Vec, a: Axis): int
  {
    match a
    case X => v.x
    case Y => v.y
    case Z => v.z
  }

  function Minus(v: Vec): Vec
  {
    Vec(-v.x, -v.y, -v.z)
  }

  function Signed(t: Sign, v: Vec): Vec
  {
    if t == 1 then v else Minus(v)
  }

  /** The 27 grid points {-1,0,1}^3, in units of the cube spacing. */
  predicate InLattice(v: Vec)
  {
    -1 <= v.x <= 1 && -1 <= v.y <= 1 && -1 <= v.z <= 1
  }

  /** A 3x3 matrix, by rows. */
  datatype Mat = Mat(r0: Vec, r1: Vec, r2: Vec)

  function Identity(): Mat
  {
    Mat(Vec(1, 0, 0), Vec(0, 1, 0), Vec(0, 0, 1))
  }

  /** Matrix times column vector. */
  function Apply(m: Mat, v: Vec): Vec
  {
    Vec(Dot(m.r0, v), Dot(m.r1, v), Dot(m.r2, v))
  }

  lemma IdentityApply(v: Vec)
    ensures Apply(Identity(), v) == v
  {
  }

  /** Column `a` of `m`: the image of the basis vector `Unit(a)`. */
  function Col(m: Mat, a: Axis): Vec
  {
    Vec(Coord(m.r0, a), Coord(m.r1, a), Coord(m.r2, a))
  }

  function RowTimes(r: Vec, b: Mat): Vec
  {
    Vec(Dot(r, Col(b, X)), Dot(r, Col(b, Y)), Dot(r, Col(b, Z)))
  }

  /** Matrix product `a * b`. */
  function Mul(a: Mat, b: Mat): Mat
  {
    Mat(RowTimes(a.r0, b), RowTimes(a.r1, b), RowTimes(a.r2, b))
  }

  /** The rotation by `t` * 90 degrees about `Unit(a)`, right-hand rule, as
      `glm::rotate` builds it once sine and cosine are exact (cos 90 = 0). */
  function QuarterTurn(a: Axis, t: Sign): Mat
  {
    var s: int := t;
    match a
    case X => Mat(Vec(1, 0, 0), Vec(0, 0, -s), Vec(0, s, 0))
    case Y => Mat(Vec(0, 0, s), Vec(0, 1, 0), Vec(-s, 0, 0))
    case Z => Mat(Vec(0, -s, 0), Vec(s, 0, 0), Vec(0, 0, 1))
  }

  /** The axis a quarter turn about `a` sends axis `b` to. */
  function AxisImage(a: Axis, b: Axis): Axis
  {
    if a == b then b
    else match a
      case X => (if b == Y then Z else Y)
      case Y => (if b == X then Z else X)
      case Z => (if b == X then Y else X)
  }

  lemma DotUnit(v: Vec, a: Axis)
    ensures Dot(v, Unit(a)) == Coord(v, a)
  {
  }

  /** A quarter turn about `a` leaves the component along `a` alone, so a turned
      cube stays in its layer. */
  lemma TurnKeepsLayer(a: Axis, t: Sign, v: Vec)
    ensures Coord(Apply(QuarterTurn(a, t), v), a) == Coord(v, a)
  {
  }

  /** A quarter turn maps each component of `v` to +/- a component along the
      image axis, so it keeps the lattice. */
  lemma TurnKeepsLattice(a: Axis, t: Sign, v: Vec)
    requires InLattice(v)
    ensures InLattice(Apply(QuarterTurn(a, t), v))
  {
  }

  lemma AxisImageInjective(a: Axis, b: Axis, c: Axis)
    ensures AxisImage(a, b) == AxisImage(a, c) ==> b == c
  {
  }

  /** The turn of a point about `a`, component by component: the two
      components across the axis swap places, one of them changing sign. */
  function Spin(a: Axis, t: Sign, v: Vec): Vec
  {
    match a
    case X => Vec(v.x, if t == 1 then -v.z else v.z, if t == 1 then v.y else -v.y)
    case Y => Vec(if t == 1 then v.z else -v.z, v.y, if t == 1 then -v.x else v.x)
    case Z => Vec(if t == 1 then -v.y else v.y, if t == 1 then v.x else -v.x, v.z)
  }

  /** A quarter turn keeps dot products. */
  lemma SpinKeepsDot(a: Axis, t: Sign, u: Vec, v: Vec)
    ensures Dot(Spin(a, t, u), Spin(a, t, v)) == Dot(u, v)
  {
  }

  /** The turn of a matrix about `a`, row by row. */
  function SpinRows(a: Axis, t: Sign, m: Mat): Mat
  {
    match a
    case X => Mat(m.r0, Signed(Neg(t), m.r2), Signed(t, m.r1))
    case Y => Mat(Signed(t, m.r2), m.r1, Signed(Neg(t), m.r0))
    case Z => Mat(Signed(Neg(t), m.r1), Signed(t, m.r0), m.r2)
  }

  lemma ApplyTurn(a: Axis, t: Sign, v: Vec)
    ensures Apply(QuarterTurn(a, t), v) == Spin(a, t, v)
  {
  }

  lemma MulTurn(a: Axis, t: Sign, m: Mat)
    ensures Mul(QuarterTurn(a, t), m) == SpinRows(a, t, m)
  {
    match a
    case X => MulTurnX(t, m);
    case Y => MulTurnY(t, m);
    case Z => MulTurnZ(t, m);
  }

  lemma MulTurnX(t: Sign, m: Mat)
    ensures Mul(QuarterTurn(X, t), m) == SpinRows(X, t, m)
  {
    if t == 1 {
    } else {
    }
  }

  lemma MulTurnY(t: Sign, m: Mat)
    ensures Mul(QuarterTurn(Y, t), m) == SpinRows(Y, t, m)
  {
    if t == 1 {
    } else {
    }
  }

  lemma MulTurnZ(t: Sign, m: Mat)
    ensures Mul(QuarterTurn(Z, t), m) == SpinRows(Z, t, m)
  {
    if t == 1 {
    } else {
    }
  }

  /** Four quarter turns in the same sense are the identity. */
  lemma TurnFour(a: Axis, t: Sign, v: Vec, m: Mat)
    ensures var q := QuarterTurn(a, t);
      Apply(q, Apply(q, Apply(q, Apply(q, v)))) == v
    ensures var q := QuarterTurn(a, t);
      Mul(q, Mul(q, Mul(q, Mul(q, m)))) == m
  {
    var q := QuarterTurn(a, t);
    ApplyTurn(a, t, v);
    ApplyTurn(a, t, Spin(a, t, v));
    ApplyTurn(a, t, Spin(a, t, Spin(a, t, v)));
    ApplyTurn(a, t, Spin(a, t, Spin(a, t, Spin(a, t, v))));
    MulTurn(a, t, m);
    MulTurn(a, t, SpinRows(a, t, m));
    MulTurn(a, t, SpinRows(a, t, SpinRows(a, t, m)));
    MulTurn(a, t, SpinRows(a, t, SpinRows(a, t, SpinRows(a, t, m))));
  }

  lemma DotSigned(t: Sign, r: Vec, v: Vec)
    ensures Dot(Signed(t, r), v) == if t == 1 then Dot(r, v) else -Dot(r, v)
  {
  }

  lemma SpinRowsApply(a: Axis, t: Sign, m: Mat, v: Vec)
    ensures Apply(SpinRows(a, t, m), v) == Spin(a, t, Apply(m, v))
  {
    DotSigned(t, m.r0, v);
    DotSigned(t, m.r1, v);
    DotSigned(t, m.r2, v);
    DotSigned(Neg(t), m.r0, v);
    DotSigned(Neg(t), m.r1, v);
    DotSigned(Neg(t), m.r2, v);
  }

  /** Turning a transformed point is transforming it by the turned matrix. */
  lemma TurnApplyMul(a: Axis, t: Sign, m: Mat, v: Vec)
    ensures Apply(Mul(QuarterTurn(a, t), m), v) == Apply(QuarterTurn(a, t), Apply(m, v))
  {
    MulTurn(a, t, m);
    ApplyTurn(a, t, Apply(m, v));
    SpinRowsApply(a, t, m, v);
  }

  lemma SpinUndo(a: Axis, t: Sign, v: Vec, m: Mat)
    ensures Spin(a, Neg(t), Spin(a, t, v)) == v
    ensures SpinRows(a, Neg(t), SpinRows(a, t, m)) == m
  {
  }

  /** Turning back the other way undoes a quarter turn, on points and on matrices. */
  lemma TurnUndo(a: Axis, t: Sign, v: Vec, m: Mat)
    ensures Apply(QuarterTurn(a, Neg(t)), Apply(QuarterTurn(a, t), v)) == v
    ensures Mul(QuarterTurn(a, Neg(t)), Mul(QuarterTurn(a, t), m)) == m
  {
    ApplyTurn(a, t, v);
    ApplyTurn(a, Neg(t), Spin(a, t, v));
    MulTurn(a, t, m);
    MulTurn(a, Neg(t), SpinRows(a, t, m));
    SpinUndo(a, t, v, m);
  }

  lemma ColMul(p: Mat, m: Mat, b: Axis)
    ensures Col(Mul(p, m), b) == Apply(p, Col(m, b))
  {
  }
}
