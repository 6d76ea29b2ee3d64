/** The 27 sub-cubes, the rotation commands, and what committing a quarter
    turn does to them. Positions are in units of the cube spacing, so the
    float layer test `|dot(pos, axis) - side * spacing| < 0.1` becomes the
    exact test `Dot(pos, Unit(axis)) == side`. */
module Cubes {
  import opened Geometry
  import opened Faces

  /** A sub-cube's model matrix: its rotation block and its translation column. */
  datatype Transform = Transform(rot: Mat, pos: Vec)

  /** A sub-cube: model matrix and the six-bit mask of its coloured faces. */
  datatype Cube = Cube(model: Transform, colorMask: FaceMask)

  /** A rotation command: the axis, the layer along it (`side`) and the turn
      sense (`direction`). The 3 x 2 x 2 values of this type are exactly the
      twelve legal commands. */
  datatype RotationConfig = RotationConfig(axis: Axis, side: Sign, direction: Sign)

  /** The colour mask `init` gives the cube at lattice point `p`: one bit per
      side of the puzzle the point lies on. */
  function MaskAt(p: Vec): (m: FaceMask)
    ensures forall f :: HasFace(m, f) <==> Coord(p, FaceAxis(f)) == FaceSign(f)
  {
    (if p.z == -1 then 1 << 0 else 0) |
    (if p.z == 1 then 1 << 1 else 0) |
    (if p.x == -1 then 1 << 2 else 0) |
    (if p.x == 1 then 1 << 3 else 0) |
    (if p.y == -1 then 1 << 4 else 0) |
    (if p.y == 1 then 1 << 5 else 0)
  }

  /** The position of the `i`-th cube `init` pushes: x outermost, z innermost. */
  function Home(i: nat): (p: Vec)
    requires i < 27
    ensures InLattice(p)
  {
    Vec(i / 9 - 1, (i / 3) % 3 - 1, i % 3 - 1)
  }

  /** The place of lattice point `p` in `init`'s push order. */
  function Index(p: Vec): (i: nat)
    requires InLattice(p)
    ensures i < 27 && Home(i) == p
  {
    9 * (p.x + 1) + 3 * (p.y + 1) + (p.z + 1)
  }

  lemma IndexOfHome(i: nat)
    requires i < 27
    ensures Index(Home(i)) == i
  {
    assert i == 3 * (i / 3) + i % 3;
    assert i / 3 == 3 * (i / 9) + (i / 3) % 3;
  }

  /** The cube `init` pushes at loop point (x, y, z) is the
      (9(x+1) + 3(y+1) + (z+1))-th. */
  lemma HomeAt(x: int, y: int, z: int)
    requires -1 <= x <= 1 && -1 <= y <= 1 && -1 <= z <= 1
    ensures 9 * (x + 1) + 3 * (y + 1) + (z + 1) < 27
    ensures Home(9 * (x + 1) + 3 * (y + 1) + (z + 1)) == Vec(x, y, z)
  {
    var n := 9 * (x + 1) + 3 * (y + 1) + (z + 1);
    assert n / 3 == 3 * (x + 1) + (y + 1) && n % 3 == z + 1;
    assert n / 9 == x + 1;
  }

  /** The cube `init` creates at `p`: identity rotation, translation `p`. */
  function HomeCube(p: Vec): Cube
  {
    Cube(Transform(Identity(), p), MaskAt(p))
  }

  /** The cubes `init` appends, in its push order. */
  function Solved(): (cs: seq<Cube>)
    ensures |cs| == 27
    ensures forall i :: 0 <= i < 27 ==> cs[i] == HomeCube(Home(i))
  {
    seq(27, i requires 0 <= i < 27 => HomeCube(Home(i)))
  }

  /** The number of cubes in `cs` with exactly `k` coloured faces. */
  function CountWithFaces(cs: seq<Cube>, k: nat): (n: nat)
    ensures n <= |cs|
  {
    if cs == [] then 0
    else CountWithFaces(cs[..|cs| - 1], k) + (if FaceCount(cs[|cs| - 1].colorMask) == k then 1 else 0)
  }

  /** Does `c` lie in the layer `side` along `axis`? */
  predicate InLayer(c: Cube, axis: Axis, side: Sign)
  {
    Dot(c.model.pos, Unit(axis)) == side
  }

  /** The quarter turn's sense about the basis axis: turning by `direction`
      about `axis * side` is turning by `side * direction` about `axis`. */
  function Twist(cfg: RotationConfig): Sign
  {
    if cfg.side == cfg.direction then 1 else -1
  }

  lemma TwistIsProduct(cfg: RotationConfig)
    ensures Twist(cfg) == cfg.side * cfg.direction
  {
  }

  /** The full 90-degree rotation matrix of a command. */
  function TurnOf(cfg: RotationConfig): Mat
  {
    QuarterTurn(cfg.axis, Twist(cfg))
  }

  /** `rotation * cube.model`: rotates the cube and moves its translation. */
  function Turned(c: Cube, cfg: RotationConfig): Cube
  {
    var q := TurnOf(cfg);
    Cube(Transform(Mul(q, c.model.rot), Apply(q, c.model.pos)), c.colorMask)
  }

  /** The cubes after a committed turn: the cubes of the layer are turned, the
      others are left as they are. */
  function Commit(cs: seq<Cube>, cfg: RotationConfig): (r: seq<Cube>)
    ensures |r| == |cs|
  {
    seq(|cs|, i requires 0 <= i < |cs| =>
      if InLayer(cs[i], cfg.axis, cfg.side) then Turned(cs[i], cfg) else cs[i])
  }

  /** The cubes after committing `moves` in order. */
  function Turns(cs: seq<Cube>, moves: seq<RotationConfig>): (r: seq<Cube>)
    ensures |r| == |cs|
    decreases |moves|
  {
    if moves == [] then cs else Turns(Commit(cs, moves[0]), moves[1..])
  }

  /** The same layer turned the other way. */
  function Inverse(cfg: RotationConfig): RotationConfig
  {
    cfg.(direction := Neg(cfg.direction))
  }

  /** The moves that undo `moves`: reversed, each one inverted. */
  function Undo(moves: seq<RotationConfig>): (r: seq<RotationConfig>)
    ensures |r| == |moves|
  {
    if moves == [] then [] else Undo(moves[1..]) + [Inverse(moves[0])]
  }

  /** Cube `c` is the cube that started at `h`, carried by its rotation:
      its rotation is a signed permutation, its position is that rotation
      applied to `h`, and its mask is the one `init` gave it. */
  ghost predicate Placed(c: Cube, h: Vec)
  {
    SignedPerm(c.model.rot) && InLattice(c.model.pos) &&
    c.model.pos == Apply(c.model.rot, h) && c.colorMask == MaskAt(h)
  }

  /** Some cube of `cs` sits at `p`. */
  ghost predicate Covered(cs: seq<Cube>, p: Vec)
  {
    exists i :: 0 <= i < |cs| && cs[i].model.pos == p
  }

  /** What every reachable configuration satisfies: the i-th cube is the one
      `init` put at `Home(i)`, and the 27 positions are the 27 lattice points,
      each held by one cube. */
  ghost predicate Coherent(cs: seq<Cube>)
  {
    |cs| == 27 &&
    (forall i :: 0 <= i < 27 ==> Placed(cs[i], Home(i))) &&
    (forall i, j :: 0 <= i < j < 27 ==> cs[i].model.pos != cs[j].model.pos) &&
    (forall p {:trigger Covered(cs, p)} :: InLattice(p) ==> Covered(cs, p))
  }

  /** `init` puts one cube on every lattice point, each unrotated, with mask
      bit f set exactly when the point lies on side f. */
  lemma SolvedIsCoherent()
    ensures Coherent(Solved())
    ensures forall i :: 0 <= i < 27 ==> Solved()[i].model.rot == Identity()
  {
    var cs := Solved();
    IdentitySignedPerm();
    forall i | 0 <= i < 27
      ensures Placed(cs[i], Home(i))
    {
    }
    forall i, j | 0 <= i < j < 27
      ensures cs[i].model.pos != cs[j].model.pos
    {
      IndexOfHome(i);
      IndexOfHome(j);
    }
    forall p | InLattice(p)
      ensures Covered(cs, p)
    {
      assert cs[Index(p)].model.pos == p;
    }
  }

  /** Of the 27 cubes `init` creates, one (the centre) shows no face, six show
      one, twelve show two and eight show three. */
  lemma MaskCensus()
    ensures CountWithFaces(Solved(), 0) == 1
    ensures CountWithFaces(Solved(), 1) == 6
    ensures CountWithFaces(Solved(), 2) == 12
    ensures CountWithFaces(Solved(), 3) == 8
  {
    var cs := Solved();
    assert InitMasks(cs);
    CensusByLoops(cs, 0);
    CensusByLoops(cs, 1);
    CensusByLoops(cs, 2);
    CensusByLoops(cs, 3);
    LatticeCensusValue(0);
    LatticeCensusValue(1);
    LatticeCensusValue(2);
    LatticeCensusValue(3);
  }

  lemma LatticeCensusValue(k: nat)
    requires k <= 3
    ensures LatticeCensus(k) == [1, 6, 12, 8][k]
  {
  }

  /** The masks `init` gives, in its push order. */
  ghost predicate InitMasks(cs: seq<Cube>)
  {
    |cs| == 27 && forall i :: 0 <= i < 27 ==> cs[i].colorMask == MaskAt(Home(i))
  }

  /** Counting over `init`'s push order is counting over its three loops. */
  lemma CensusByLoops(cs: seq<Cube>, k: nat)
    requires InitMasks(cs)
    ensures CountWithFaces(cs, k) == LatticeCensus(k)
  {
    SlabSteps(cs, k);
    assert cs[..0] == [];
    assert cs[..27] == cs;
  }

  lemma SlabSteps(cs: seq<Cube>, k: nat)
    requires InitMasks(cs)
    ensures CountWithFaces(cs[..27], k)
      == CountWithFaces(cs[..0], k) + SlabCensus(-1, k) + SlabCensus(0, k) + SlabCensus(1, k)
  {
    SlabStep(cs, -1, k, 0, 9);
    SlabStep(cs, 0, k, 9, 18);
    SlabStep(cs, 1, k, 18, 27);
  }

  /** How many points of the row (x, y, -1..1), the slab (x, -1..1, -1..1)
      and the whole lattice have `k` nonzero coordinates; the three loops of
      `init`, summed. */
  function RowCensus(x: int, y: int, k: nat): nat
  {
    (if Nonzeros(Vec(x, y, -1)) == k then 1 else 0)
    + (if Nonzeros(Vec(x, y, 0)) == k then 1 else 0)
    + (if Nonzeros(Vec(x, y, 1)) == k then 1 else 0)
  }

  function SlabCensus(x: int, k: nat): nat
  {
    RowCensus(x, -1, k) + RowCensus(x, 0, k) + RowCensus(x, 1, k)
  }

  function LatticeCensus(k: nat): nat
  {
    SlabCensus(-1, k) + SlabCensus(0, k) + SlabCensus(1, k)
  }

  /** The cubes `init` pushes for row (x, y) are those at indices lo..hi-1. */
  lemma RowStep(cs: seq<Cube>, x: int, y: int, k: nat, lo: nat, hi: nat)
    requires InitMasks(cs)
    requires -1 <= x <= 1 && -1 <= y <= 1
    requires lo == 9 * (x + 1) + 3 * (y + 1) && hi == lo + 3
    ensures CountWithFaces(cs[..hi], k) == CountWithFaces(cs[..lo], k) + RowCensus(x, y, k)
  {
    assert Index(Vec(x, y, -1)) == lo && Index(Vec(x, y, 0)) == lo + 1 && Index(Vec(x, y, 1)) == lo + 2;
    FaceCountAt(Vec(x, y, -1));
    FaceCountAt(Vec(x, y, 0));
    FaceCountAt(Vec(x, y, 1));
    CountStep(cs, lo, k);
    CountStep(cs, lo + 1, k);
    CountStep(cs, lo + 2, k);
  }

  lemma SlabStep(cs: seq<Cube>, x: int, k: nat, lo: nat, hi: nat)
    requires InitMasks(cs)
    requires -1 <= x <= 1
    requires lo == 9 * (x + 1) && hi == lo + 9
    ensures CountWithFaces(cs[..hi], k) == CountWithFaces(cs[..lo], k) + SlabCensus(x, k)
  {
    RowStep(cs, x, -1, k, lo, lo + 3);
    RowStep(cs, x, 0, k, lo + 3, lo + 6);
    RowStep(cs, x, 1, k, lo + 6, hi);
  }

  /** The number of nonzero coordinates of `p`. */
  function Nonzeros(p: Vec): nat
  {
    (if p.x != 0 then 1 else 0) + (if p.y != 0 then 1 else 0) + (if p.z != 0 then 1 else 0)
  }

  /** A lattice point shows one face per nonzero coordinate. */
  lemma FaceCountAt(p: Vec)
    requires InLattice(p)
    ensures FaceCount(MaskAt(p)) == Nonzeros(p)
  {
    var m := MaskAt(p);
    assert HasFace(m, Back) == (p.z == -1) && HasFace(m, Front) == (p.z == 1);
    assert HasFace(m, Left) == (p.x == -1) && HasFace(m, Right) == (p.x == 1);
    assert HasFace(m, Bottom) == (p.y == -1) && HasFace(m, Top) == (p.y == 1);
  }

  lemma CountStep(cs: seq<Cube>, n: nat, k: nat)
    requires n < |cs|
    ensures CountWithFaces(cs[..n + 1], k)
      == CountWithFaces(cs[..n], k) + (if FaceCount(cs[n].colorMask) == k then 1 else 0)
  {
    assert cs[..n + 1][..n] == cs[..n];
  }

  /** A turn keeps every cube's coordinate along its axis: the cubes of the
      turned layer stay in it and the others stay out of it. */
  lemma TurnedKeepsLayer(c: Cube, cfg: RotationConfig)
    ensures Coord(Turned(c, cfg).model.pos, cfg.axis) == Coord(c.model.pos, cfg.axis)
    ensures forall s: Sign :: InLayer(Turned(c, cfg), cfg.axis, s) <==> InLayer(c, cfg.axis, s)
  {
    TurnKeepsLayer(cfg.axis, Twist(cfg), c.model.pos);
    DotUnit(c.model.pos, cfg.axis);
    DotUnit(Turned(c, cfg).model.pos, cfg.axis);
  }

  /** Committing a command and then its inverse restores every cube's
      position and orientation. */
  lemma CommitUndo(cs: seq<Cube>, cfg: RotationConfig)
    ensures Commit(Commit(cs, cfg), Inverse(cfg)) == cs
  {
    var once := Commit(cs, cfg);
    var back := Commit(once, Inverse(cfg));
    assert Twist(Inverse(cfg)) == Neg(Twist(cfg));
    forall i | 0 <= i < |cs|
      ensures back[i] == cs[i]
    {
      TurnedKeepsLayer(cs[i], cfg);
      TurnUndo(cfg.axis, Twist(cfg), cs[i].model.pos, cs[i].model.rot);
    }
  }

  /** Committing the same command four times restores every cube. */
  lemma CommitFour(cs: seq<Cube>, cfg: RotationConfig)
    ensures Commit(Commit(Commit(Commit(cs, cfg), cfg), cfg), cfg) == cs
  {
    var c1 := Commit(cs, cfg);
    var c2 := Commit(c1, cfg);
    var c3 := Commit(c2, cfg);
    var c4 := Commit(c3, cfg);
    forall i | 0 <= i < |cs|
      ensures c4[i] == cs[i]
    {
      TurnedKeepsLayer(cs[i], cfg);
      TurnedKeepsLayer(c1[i], cfg);
      TurnedKeepsLayer(c2[i], cfg);
      TurnFour(cfg.axis, Twist(cfg), cs[i].model.pos, cs[i].model.rot);
    }
  }

  lemma {:induction false} TurnsAppend(cs: seq<Cube>, a: seq<RotationConfig>, b: seq<RotationConfig>)
    ensures Turns(cs, a + b) == Turns(Turns(cs, a), b)
    decreases |a|
  {
    if a == [] {
      assert a + b == b;
    } else {
      assert (a + b)[0] == a[0];
      assert (a + b)[1..] == a[1..] + b;
      TurnsAppend(Commit(cs, a[0]), a[1..], b);
    }
  }

  /** Replaying the inverse sequence (reversed, each move inverted) after a
      sequence of turns, a shuffle say, restores every cube. */
  lemma {:induction false} UndoRestores(cs: seq<Cube>, moves: seq<RotationConfig>)
    ensures Turns(Turns(cs, moves), Undo(moves)) == cs
    decreases |moves|
  {
    if moves != [] {
      var first := Commit(cs, moves[0]);
      TurnsAppend(Turns(first, moves[1..]), Undo(moves[1..]), [Inverse(moves[0])]);
      UndoRestores(first, moves[1..]);
      assert Turns(first, [Inverse(moves[0])]) == Commit(first, Inverse(moves[0]));
      CommitUndo(cs, moves[0]);
    }
  }

  /** Committing a turn keeps a reachable configuration reachable: each cube
      is still its home cube carried by a signed permutation, and the 27
      positions are still the 27 lattice points. */
  lemma CommitKeepsCoherent(cs: seq<Cube>, cfg: RotationConfig)
    requires Coherent(cs)
    ensures Coherent(Commit(cs, cfg))
  {
    CommitKeepsPlaced(cs, cfg);
    CommitKeepsDistinct(cs, cfg);
    CommitKeepsOccupied(cs, cfg);
  }

  lemma CommitKeepsPlaced(cs: seq<Cube>, cfg: RotationConfig)
    requires |cs| == 27
    requires forall i :: 0 <= i < 27 ==> Placed(cs[i], Home(i))
    ensures forall i :: 0 <= i < 27 ==> Placed(Commit(cs, cfg)[i], Home(i))
  {
    var r := Commit(cs, cfg);
    forall i | 0 <= i < 27
      ensures Placed(r[i], Home(i))
    {
      if InLayer(cs[i], cfg.axis, cfg.side) {
        TurnedPlaced(cs[i], cfg, Home(i));
      }
    }
  }

  lemma TurnedPlaced(c: Cube, cfg: RotationConfig, h: Vec)
    requires Placed(c, h)
    ensures Placed(Turned(c, cfg), h)
  {
    var a, t := cfg.axis, Twist(cfg);
    TurnKeepsSignedPerm(a, t, c.model.rot);
    TurnKeepsLattice(a, t, c.model.pos);
    TurnApplyMul(a, t, c.model.rot, h);
  }

  /** A committed turn keeps every cube on the lattice, whatever the cubes. */
  lemma CommitKeepsLattice(cs: seq<Cube>, cfg: RotationConfig)
    requires forall i :: 0 <= i < |cs| ==> InLattice(cs[i].model.pos)
    ensures forall i :: 0 <= i < |cs| ==> InLattice(Commit(cs, cfg)[i].model.pos)
  {
    forall i | 0 <= i < |cs|
      ensures InLattice(Commit(cs, cfg)[i].model.pos)
    {
      if InLayer(cs[i], cfg.axis, cfg.side) {
        TurnKeepsLattice(cfg.axis, Twist(cfg), cs[i].model.pos);
      }
    }
  }

  lemma CommitKeepsDistinct(cs: seq<Cube>, cfg: RotationConfig)
    requires |cs| == 27
    requires forall i, j :: 0 <= i < j < 27 ==> cs[i].model.pos != cs[j].model.pos
    ensures forall i, j :: 0 <= i < j < 27 ==> Commit(cs, cfg)[i].model.pos != Commit(cs, cfg)[j].model.pos
  {
    var r := Commit(cs, cfg);
    var a, t := cfg.axis, Twist(cfg);
    forall i, j | 0 <= i < j < 27
      ensures r[i].model.pos != r[j].model.pos
    {
      TurnedKeepsLayer(cs[i], cfg);
      TurnedKeepsLayer(cs[j], cfg);
      DotUnit(cs[i].model.pos, a);
      DotUnit(cs[j].model.pos, a);
      TurnUndo(a, t, cs[i].model.pos, Identity());
      TurnUndo(a, t, cs[j].model.pos, Identity());
    }
  }

  lemma CommitKeepsOccupied(cs: seq<Cube>, cfg: RotationConfig)
    requires |cs| == 27
    requires forall p {:trigger Covered(cs, p)} :: InLattice(p) ==> Covered(cs, p)
    ensures forall p {:trigger Covered(Commit(cs, cfg), p)} :: InLattice(p) ==> Covered(Commit(cs, cfg), p)
  {
    var r := Commit(cs, cfg);
    var a, t := cfg.axis, Twist(cfg);
    forall p | InLattice(p)
      ensures Covered(r, p)
    {
      DotUnit(p, a);
      if Coord(p, a) == cfg.side {
        var from := Apply(QuarterTurn(a, Neg(t)), p);
        TurnKeepsLattice(a, Neg(t), p);
        TurnKeepsLayer(a, Neg(t), p);
        assert Covered(cs, from);
        var i :| 0 <= i < 27 && cs[i].model.pos == from;
        DotUnit(from, a);
        TurnUndo(a, Neg(t), p, Identity());
        assert Neg(Neg(t)) == t;
        assert r[i].model.pos == p;
      } else {
        assert Covered(cs, p);
        var i :| 0 <= i < 27 && cs[i].model.pos == p;
        assert r[i].model.pos == p;
      }
    }
  }

  /** A committed turn changes exactly the cubes of the selected layer. */
  lemma CommitMovesExactlyLayer(cs: seq<Cube>, cfg: RotationConfig, i: int)
    requires Coherent(cs) && 0 <= i < 27
    ensures Commit(cs, cfg)[i] != cs[i] <==> InLayer(cs[i], cfg.axis, cfg.side)
  {
    if InLayer(cs[i], cfg.axis, cfg.side) {
      TurnMovesOrientation(cfg.axis, Twist(cfg), cs[i].model.rot);
    }
  }

  /** The cubes after committing `moves` from the solved start are coherent. */
  lemma {:induction false} TurnsKeepCoherent(cs: seq<Cube>, moves: seq<RotationConfig>)
    requires Coherent(cs)
    ensures Coherent(Turns(cs, moves))
    decreases |moves|
  {
    if moves != [] {
      CommitKeepsCoherent(cs, moves[0]);
      TurnsKeepCoherent(Commit(cs, moves[0]), moves[1..]);
    }
  }

  /** The indices of the cubes in layer `side` along `a`. */
  function LayerOf(cs: seq<Cube>, a: Axis, side: Sign): set<int>
  {
    set i | 0 <= i < |cs| && InLayer(cs[i], a, side)
  }

  /** The place of a point within its layer along `a`: the two other
      coordinates, read as a number 0..8. */
  function LayerSlot(a: Axis, p: Vec): int
  {
    match a
    case X => 3 * (p.y + 1) + (p.z + 1)
    case Y => 3 * (p.x + 1) + (p.z + 1)
    case Z => 3 * (p.x + 1) + (p.y + 1)
  }

  /** The point of layer `s` along `a` with layer slot `k`. */
  function Place(a: Axis, s: Sign, k: int): (p: Vec)
    requires 0 <= k < 9
    ensures InLattice(p) && Coord(p, a) == s && LayerSlot(a, p) == k
  {
    match a
    case X => Vec(s, k / 3 - 1, k % 3 - 1)
    case Y => Vec(k / 3 - 1, s, k % 3 - 1)
    case Z => Vec(k / 3 - 1, k % 3 - 1, s)
  }

  lemma LayerSlotInjective(a: Axis, p: Vec, q: Vec)
    requires InLattice(p) && InLattice(q) && Coord(p, a) == Coord(q, a)
    requires LayerSlot(a, p) == LayerSlot(a, q)
    ensures p == q
  {
  }

  /** The set {0, ..., n-1}. */
  function Range(n: nat): (r: set<int>)
    ensures forall k :: k in r <==> 0 <= k < n
  {
    if n == 0 then {} else Range(n - 1) + {n - 1}
  }

  lemma {:induction false} RangeCount(n: nat)
    ensures |Range(n)| == n
  {
    if n > 0 {
      RangeCount(n - 1);
    }
  }

  /** The layer slots of the cubes with indices in `ix`. */
  function SlotsOf(cs: seq<Cube>, a: Axis, ix: set<int>): set<int>
    requires forall i :: i in ix ==> 0 <= i < |cs|
  {
    set i | i in ix :: LayerSlot(a, cs[i].model.pos)
  }

  /** Cubes in different slots of one layer: as many slots as cubes. */
  lemma {:induction false} DistinctSlotsCount(cs: seq<Cube>, a: Axis, ix: set<int>)
    requires forall i :: i in ix ==> 0 <= i < |cs|
    requires forall i, j :: i in ix && j in ix && i != j ==>
      LayerSlot(a, cs[i].model.pos) != LayerSlot(a, cs[j].model.pos)
    ensures |SlotsOf(cs, a, ix)| == |ix|
    decreases ix
  {
    if ix != {} {
      assert exists y :: y in ix by {
        if forall y :: y !in ix {
          assert false;
        }
      }
      var x :| x in ix;
      DistinctSlotsCount(cs, a, ix - {x});
      SlotsOfSplit(cs, a, ix, x);
    }
  }

  lemma SlotsOfSplit(cs: seq<Cube>, a: Axis, ix: set<int>, x: int)
    requires forall i :: i in ix ==> 0 <= i < |cs|
    requires forall i, j :: i in ix && j in ix && i != j ==>
      LayerSlot(a, cs[i].model.pos) != LayerSlot(a, cs[j].model.pos)
    requires x in ix
    ensures SlotsOf(cs, a, ix) == SlotsOf(cs, a, ix - {x}) + {LayerSlot(a, cs[x].model.pos)}
    ensures LayerSlot(a, cs[x].model.pos) !in SlotsOf(cs, a, ix - {x})
  {
    var k := LayerSlot(a, cs[x].model.pos);
    forall i | i in ix - {x}
      ensures LayerSlot(a, cs[i].model.pos) != k
    {
    }
  }

  /** Two distinct lattice points of one layer sit in distinct slots. */
  lemma LayerSlotsDistinct(a: Axis, side: Sign, p: Vec, q: Vec)
    requires InLattice(p) && InLattice(q) && p != q
    requires Dot(p, Unit(a)) == side && Dot(q, Unit(a)) == side
    ensures LayerSlot(a, p) != LayerSlot(a, q)
  {
    DotUnit(p, a);
    DotUnit(q, a);
    if LayerSlot(a, p) == LayerSlot(a, q) {
      LayerSlotInjective(a, p, q);
    }
  }

  /** The facts about positions the layer count needs. */
  ghost predicate OnePerPoint(cs: seq<Cube>)
  {
    |cs| == 27 &&
    (forall i :: 0 <= i < 27 ==> InLattice(cs[i].model.pos)) &&
    (forall i, j :: 0 <= i < j < 27 ==> cs[i].model.pos != cs[j].model.pos) &&
    (forall p {:trigger Covered(cs, p)} :: InLattice(p) ==> Covered(cs, p))
  }

  lemma CoherentOnePerPoint(cs: seq<Cube>)
    requires Coherent(cs)
    ensures OnePerPoint(cs)
  {
    forall i | 0 <= i < 27
      ensures InLattice(cs[i].model.pos)
    {
      assert Placed(cs[i], Home(i));
    }
  }

  lemma SlotsWithinRange(cs: seq<Cube>, a: Axis, ix: set<int>)
    requires forall i :: i in ix ==> 0 <= i < |cs| && InLattice(cs[i].model.pos)
    ensures SlotsOf(cs, a, ix) <= Range(9)
  {
  }

  lemma SlotsCoverRange(cs: seq<Cube>, a: Axis, side: Sign)
    requires OnePerPoint(cs)
    ensures Range(9) <= SlotsOf(cs, a, LayerOf(cs, a, side))
  {
    forall k | 0 <= k < 9
      ensures k in SlotsOf(cs, a, LayerOf(cs, a, side))
    {
      var p := Place(a, side, k);
      assert Covered(cs, p);
      var i :| 0 <= i < 27 && cs[i].model.pos == p;
      DotUnit(p, a);
      assert i in LayerOf(cs, a, side);
    }
  }

  lemma LayerSlotsInjective(cs: seq<Cube>, a: Axis, side: Sign)
    requires OnePerPoint(cs)
    ensures forall i, j :: i in LayerOf(cs, a, side) && j in LayerOf(cs, a, side) && i != j ==>
      LayerSlot(a, cs[i].model.pos) != LayerSlot(a, cs[j].model.pos)
  {
    forall i, j | i in LayerOf(cs, a, side) && j in LayerOf(cs, a, side) && i != j
      ensures LayerSlot(a, cs[i].model.pos) != LayerSlot(a, cs[j].model.pos)
    {
      assert cs[i].model.pos != cs[j].model.pos by {
        if i < j {
          assert cs[i].model.pos != cs[j].model.pos;
        } else {
          assert cs[j].model.pos != cs[i].model.pos;
        }
      }
      LayerSlotsDistinct(a, side, cs[i].model.pos, cs[j].model.pos);
    }
  }

  /** Indices whose cubes fill the nine slots, one each, are nine. */
  lemma NineSlots(cs: seq<Cube>, a: Axis, ix: set<int>)
    requires forall i :: i in ix ==> 0 <= i < |cs| && InLattice(cs[i].model.pos)
    requires forall i, j :: i in ix && j in ix && i != j ==>
      LayerSlot(a, cs[i].model.pos) != LayerSlot(a, cs[j].model.pos)
    requires Range(9) <= SlotsOf(cs, a, ix)
    ensures |ix| == 9
  {
    DistinctSlotsCount(cs, a, ix);
    SlotsWithinRange(cs, a, ix);
    assert SlotsOf(cs, a, ix) == Range(9);
    RangeCount(9);
  }

  lemma NinePerLayer(cs: seq<Cube>, a: Axis, side: Sign)
    requires OnePerPoint(cs)
    ensures |LayerOf(cs, a, side)| == 9
  {
    var ix := LayerOf(cs, a, side);
    LayerSlotsInjective(cs, a, side);
    SlotsCoverRange(cs, a, side);
    NineSlots(cs, a, ix);
  }

  /** In a reachable configuration every layer holds exactly nine cubes, one
      per slot, so a committed turn moves exactly nine. */
  lemma LayerHasNine(cs: seq<Cube>, a: Axis, side: Sign)
    requires Coherent(cs)
    ensures |LayerOf(cs, a, side)| == 9
  {
    CoherentOnePerPoint(cs);
    NinePerLayer(cs, a, side);
  }
}
