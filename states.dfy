/** The colour state `getCubeState` reads off the cubes: every visible local
    face is turned by its cube's rotation, matched against the six world
    directions, and its colour is written into the grid of the world face it
    now points to. */
module CubeStates {
  import opened Options
  import opened Geometry
  import opened Faces
  import opened Cubes

  datatype Color = Blue | Green | Orange | Red | Yellow | White | Black

  /** The one-letter name `printCubeState` prints for a colour. */
  function ColorToString(c: Color): (s: string)
    ensures |s| == 1
    ensures s == "X" <==> c == Black
  {
    match c
    case Blue => "B"
    case Green => "G"
    case Orange => "O"
    case Red => "R"
    case Yellow => "Y"
    case White => "W"
    case Black => "X"
  }

  /** Different colours print as different letters. */
  lemma ColorToStringInjective(c: Color, d: Color)
    requires ColorToString(c) == ColorToString(d)
    ensures c == d
  {
    assert ColorToString(c)[0] == ColorToString(d)[0];
  }

  /** The colour painted on local face `f` (the `localColors` table, indexed
      by mask bit). */
  function LocalColor(f: Face): (c: Color)
    ensures c != Black
  {
    match f
    case Back => Blue
    case Front => Green
    case Left => Orange
    case Right => Red
    case Bottom => Yellow
    case Top => White
  }

  lemma LocalColorInjective(f: Face, g: Face)
    requires LocalColor(f) == LocalColor(g)
    ensures f == g
  {
  }

  /** A `CubeState` is six 3 x 3 grids, declared in the order front, back,
      left, right, top, bottom. `Grid(w)` is the place of world face `w` in
      that order. */
  function Grid(w: Face): (g: nat)
    ensures g < 6
  {
    match w
    case Front => 0
    case Back => 1
    case Left => 2
    case Right => 3
    case Top => 4
    case Bottom => 5
  }

  /** The face whose grid comes `g`-th; the inverse of `Grid`. */
  function GridFace(g: nat): (w: Face)
    requires g < 6
    ensures Grid(w) == g
  {
    [Front, Back, Left, Right, Top, Bottom][g]
  }

  /** A cell of the state: world face, row and column. */
  datatype Target = Target(face: Face, row: int, col: int)

  predicate InGrid(t: Target)
  {
    0 <= t.row < 3 && 0 <= t.col < 3
  }

  /** The place of `state.<face>[row][col]` when the 54 cells are laid out
      as one sequence: position by position (row-major), and at each position
      the six grids in declaration order. */
  function Slot(t: Target): (k: nat)
    requires InGrid(t)
    ensures k < 54
  {
    (t.row * 3 + t.col) * 6 + Grid(t.face)
  }

  /** The cell in the `k`-th place; the inverse of `Slot`. */
  function CellAt(k: nat): (t: Target)
    requires k < 54
    ensures InGrid(t) && Slot(t) == k
  {
    Target(GridFace(k % 6), (k / 6) / 3, (k / 6) % 3)
  }

  lemma SlotInjective(t: Target, u: Target)
    requires InGrid(t) && InGrid(u) && Slot(t) == Slot(u)
    ensures t == u
  {
    assert Grid(t.face) == Grid(u.face);
    assert t.face == GridFace(Grid(t.face));
  }

  /** Where a sticker with world normal `n` on the cube at lattice point `p`
      is written: the first of the six world directions it points along, in
      the order front, back, right, left, top, bottom, and the row and column
      that direction's grid uses. The source's test `dot(n, d) > 0.9` against
      a signed basis vector `d` is a test on one signed component of `n`,
      which on whole numbers reads `>= 1`. */
  function Sticker(n: Vec, p: Vec): (t: Option<Target>)
    ensures t.Some? && InLattice(p) ==> InGrid(t.value)
  {
    if n.z >= 1 then Some(Target(Front, 1 - p.y, p.x + 1))
    else if -n.z >= 1 then Some(Target(Back, 1 - p.y, 1 - p.x))
    else if n.x >= 1 then Some(Target(Right, 1 - p.y, 1 - p.z))
    else if -n.x >= 1 then Some(Target(Left, 1 - p.y, p.z + 1))
    else if n.y >= 1 then Some(Target(Top, p.z + 1, p.x + 1))
    else if -n.y >= 1 then Some(Target(Bottom, 1 - p.z, p.x + 1))
    else None
  }

  /** A sticker pointing straight along world face `w` is written to `w`'s grid. */
  lemma StickerOfNormal(w: Face, p: Vec)
    ensures Sticker(Normal(w), p).Some? && Sticker(Normal(w), p).value.face == w
  {
    match w
    case Front =>
    case Back =>
    case Right =>
    case Left =>
    case Top =>
    case Bottom =>
  }

  /** The lattice point on world face `w` whose sticker goes to row `row`,
      column `col` of `w`'s grid. */
  function CellPoint(w: Face, row: int, col: int): (p: Vec)
    requires 0 <= row < 3 && 0 <= col < 3
    ensures InLattice(p) && Coord(p, FaceAxis(w)) == FaceSign(w)
    ensures Sticker(Normal(w), p) == Some(Target(w, row, col))
  {
    match w
    case Front => Vec(col - 1, 1 - row, 1)
    case Back => Vec(1 - col, 1 - row, -1)
    case Right => Vec(1, 1 - row, 1 - col)
    case Left => Vec(-1, 1 - row, col - 1)
    case Top => Vec(col - 1, 1, row - 1)
    case Bottom => Vec(col - 1, -1, 1 - row)
  }

  /** On one world face, different lattice points go to different cells. */
  lemma StickerCellInjective(w: Face, p: Vec, q: Vec)
    requires InLattice(p) && Coord(p, FaceAxis(w)) == FaceSign(w)
    requires InLattice(q) && Coord(q, FaceAxis(w)) == FaceSign(w)
    requires Sticker(Normal(w), p) == Sticker(Normal(w), q)
    ensures p == q
  {
    match w
    case Front =>
    case Back =>
    case Right =>
    case Left =>
    case Top =>
    case Bottom =>
  }

  /** Does local face `f` of cube `c` write the `k`-th cell? */
  predicate Writes(c: Cube, f: Face, k: int)
  {
    HasFace(c.colorMask, f) && InLattice(c.model.pos) &&
    var t := Sticker(Apply(c.model.rot, Normal(f)), c.model.pos);
    t.Some? && Slot(t.value) == k
  }

  /** The state before any sticker is written: every cell BLACK. */
  function Blank(): (s: seq<Color>)
    ensures |s| == 54 && forall k :: 0 <= k < 54 ==> s[k] == Black
  {
    seq(54, _ => Black)
  }

  /** One pass of the inner loop: a visible local face `f` of `c` paints its
      colour into the cell its turned normal selects. */
  function Paint(s: seq<Color>, c: Cube, f: Face): (r: seq<Color>)
    requires |s| == 54 && InLattice(c.model.pos)
    ensures |r| == 54
    ensures forall k :: 0 <= k < 54 ==> r[k] == if Writes(c, f, k) then LocalColor(f) else s[k]
  {
    if !HasFace(c.colorMask, f) then s
    else
      match Sticker(Apply(c.model.rot, Normal(f)), c.model.pos)
      case None => s
      case Some(t) => s[Slot(t) := LocalColor(f)]
  }

  /** The local faces with bits 0 .. n-1 of `c`, painted in bit order. */
  function PaintFaces(s: seq<Color>, c: Cube, n: nat): (r: seq<Color>)
    requires |s| == 54 && InLattice(c.model.pos) && n <= 6
    ensures |r| == 54
  {
    if n == 0 then s else Paint(PaintFaces(s, c, n - 1), c, FaceAt(n - 1))
  }

  /** The cubes of `cs`, painted in order. */
  function PaintAll(s: seq<Color>, cs: seq<Cube>): (r: seq<Color>)
    requires |s| == 54 && forall i :: 0 <= i < |cs| ==> InLattice(cs[i].model.pos)
    ensures |r| == 54
  {
    if cs == [] then s
    else PaintFaces(PaintAll(s, cs[..|cs| - 1]), cs[|cs| - 1], 6)
  }

  /** What `getCubeState` returns for the cubes `cs`. */
  function CubeStateOf(cs: seq<Cube>): (r: seq<Color>)
    requires forall i :: 0 <= i < |cs| ==> InLattice(cs[i].model.pos)
    ensures |r| == 54
  {
    PaintAll(Blank(), cs)
  }

  /** A cell no face among the first `n` of `c` writes keeps its colour. */
  lemma {:induction false} PaintFacesKeeps(s: seq<Color>, c: Cube, n: nat, k: int)
    requires |s| == 54 && InLattice(c.model.pos) && n <= 6 && 0 <= k < 54
    requires forall g :: Bit(g) < n ==> !Writes(c, g, k)
    ensures PaintFaces(s, c, n)[k] == s[k]
  {
    if n > 0 {
      PaintFacesKeeps(s, c, n - 1, k);
    }
  }

  /** A cell exactly one face among the first `n` of `c` writes ends with
      that face's colour. */
  lemma {:induction false} PaintFacesOnly(s: seq<Color>, c: Cube, n: nat, f: Face, k: int)
    requires |s| == 54 && InLattice(c.model.pos) && n <= 6 && 0 <= k < 54
    requires Bit(f) < n && Writes(c, f, k)
    requires forall g :: Bit(g) < n && Writes(c, g, k) ==> g == f
    ensures PaintFaces(s, c, n)[k] == LocalColor(f)
  {
    var last := FaceAt(n - 1);
    if last == f {
      PaintFacesKeeps(s, c, n - 1, k);
    } else {
      PaintFacesOnly(s, c, n - 1, f, k);
    }
  }

  /** A cell no cube writes keeps its colour. */
  lemma {:induction false} PaintAllKeeps(s: seq<Color>, cs: seq<Cube>, k: int)
    requires |s| == 54 && forall i :: 0 <= i < |cs| ==> InLattice(cs[i].model.pos)
    requires 0 <= k < 54
    requires forall i, g :: 0 <= i < |cs| ==> !Writes(cs[i], g, k)
    ensures PaintAll(s, cs)[k] == s[k]
  {
    if cs != [] {
      var init := cs[..|cs| - 1];
      PaintAllKeeps(s, init, k);
      PaintFacesKeeps(PaintAll(s, init), cs[|cs| - 1], 6, k);
    }
  }

  /** A cell written by exactly one face of one cube ends with its colour. */
  lemma {:induction false} PaintAllOnly(s: seq<Color>, cs: seq<Cube>, i: int, f: Face, k: int)
    requires |s| == 54 && forall j :: 0 <= j < |cs| ==> InLattice(cs[j].model.pos)
    requires 0 <= k < 54 && 0 <= i < |cs| && Writes(cs[i], f, k)
    requires forall j, g :: 0 <= j < |cs| && Writes(cs[j], g, k) ==> j == i && g == f
    ensures PaintAll(s, cs)[k] == LocalColor(f)
  {
    var n := |cs| - 1;
    var init := cs[..n];
    if i == n {
      PaintAllKeeps(s, init, k);
      PaintFacesOnly(PaintAll(s, init), cs[n], 6, f, k);
    } else {
      PaintAllOnly(s, init, i, f, k);
      PaintFacesKeeps(PaintAll(s, init), cs[n], 6, k);
    }
  }

  /** On a lattice point, `Dot(v, Normal(f)) == 1` says `v` lies on side `f`. */
  lemma OnSide(v: Vec, f: Face)
    requires InLattice(v)
    ensures Dot(v, Normal(f)) == 1 <==> Coord(v, FaceAxis(f)) == FaceSign(f)
  {
    match f
    case Back =>
    case Front =>
    case Left =>
    case Right =>
    case Bottom =>
    case Top =>
  }

  /** A visible local face `f` of a placed cube points along the world face
      its rotation carries `f` to, and the cube lies on that world face. */
  lemma StickerLands(c: Cube, h: Vec, f: Face)
    requires Placed(c, h) && InLattice(h) && HasFace(c.colorMask, f)
    ensures var w := ImageFace(c.model.rot, f);
      Apply(c.model.rot, Normal(f)) == Normal(w) && Coord(c.model.pos, FaceAxis(w)) == FaceSign(w)
  {
    var m := c.model.rot;
    var w := ImageFace(m, f);
    ApplyNormal(m, f);
    HeightPreserved(m, h, f);
    OnSide(h, f);
    OnSide(c.model.pos, w);
  }

  /** The cell a visible face of a placed cube writes: the cell of its
      position on the world face it points to. */
  lemma WriterCell(c: Cube, h: Vec, f: Face, k: int)
    requires Placed(c, h) && InLattice(h) && Writes(c, f, k)
    ensures var w := ImageFace(c.model.rot, f);
      Coord(c.model.pos, FaceAxis(w)) == FaceSign(w) &&
      Sticker(Normal(w), c.model.pos).Some? && Slot(Sticker(Normal(w), c.model.pos).value) == k &&
      Sticker(Normal(w), c.model.pos).value.face == w
  {
    StickerLands(c, h, f);
    StickerOfNormal(ImageFace(c.model.rot, f), c.model.pos);
  }

  /** In a reachable configuration no cell is written twice. */
  lemma CellWrittenOnce(cs: seq<Cube>, i: int, f: Face, j: int, g: Face, k: int)
    requires Coherent(cs) && 0 <= i < 27 && 0 <= j < 27
    requires Writes(cs[i], f, k) && Writes(cs[j], g, k)
    ensures i == j && f == g
  {
    assert Placed(cs[i], Home(i)) && Placed(cs[j], Home(j));
    var wi := ImageFace(cs[i].model.rot, f);
    var wj := ImageFace(cs[j].model.rot, g);
    WriterCell(cs[i], Home(i), f, k);
    WriterCell(cs[j], Home(j), g, k);
    var ti := Sticker(Normal(wi), cs[i].model.pos).value;
    var tj := Sticker(Normal(wj), cs[j].model.pos).value;
    SlotInjective(ti, tj);
    StickerCellInjective(wi, cs[i].model.pos, cs[j].model.pos);
    ImageFaceInjective(cs[i].model.rot, f, g);
  }

  /** In a reachable configuration every cell is written: the cube at the
      cell's lattice point shows, on that world face, the local face its
      rotation carries there. */
  lemma EveryCellWritten(cs: seq<Cube>, k: int) returns (i: int, f: Face)
    requires Coherent(cs) && 0 <= k < 54
    ensures 0 <= i < 27 && Writes(cs[i], f, k)
  {
    var t := CellAt(k);
    var w := t.face;
    var p := CellPoint(w, t.row, t.col);
    assert Covered(cs, p);
    i :| 0 <= i < 27 && cs[i].model.pos == p;
    var c := cs[i];
    assert Placed(c, Home(i));
    f := PreImage(c.model.rot, w);
    HeightPreserved(c.model.rot, Home(i), f);
    OnSide(p, w);
    OnSide(Home(i), f);
    ApplyNormal(c.model.rot, f);
  }

  /** In a reachable configuration each of the 54 cells holds the colour of
      the one local face that is written to it, so no cell is BLACK. */
  lemma CellColor(cs: seq<Cube>, k: int) returns (i: int, f: Face)
    requires Coherent(cs) && 0 <= k < 54
    ensures 0 <= i < 27 && Writes(cs[i], f, k)
    ensures forall j, g :: 0 <= j < 27 && Writes(cs[j], g, k) ==> j == i && g == f
    ensures CubeStateOf(cs)[k] == LocalColor(f) != Black
  {
    i, f := EveryCellWritten(cs, k);
    OnlyWriter(cs, i, f, k);
    CoherentInLattice(cs);
    PaintAllOnly(Blank(), cs, i, f, k);
  }

  lemma OnlyWriter(cs: seq<Cube>, i: int, f: Face, k: int)
    requires Coherent(cs) && 0 <= i < 27 && Writes(cs[i], f, k)
    ensures forall j, g :: 0 <= j < 27 && Writes(cs[j], g, k) ==> j == i && g == f
  {
    forall j, g | 0 <= j < 27 && Writes(cs[j], g, k)
      ensures j == i && g == f
    {
      CellWrittenOnce(cs, i, f, j, g, k);
    }
  }

  lemma CoherentInLattice(cs: seq<Cube>)
    requires Coherent(cs)
    ensures forall i :: 0 <= i < |cs| ==> InLattice(cs[i].model.pos)
  {
    forall i | 0 <= i < |cs|
      ensures InLattice(cs[i].model.pos)
    {
      assert Placed(cs[i], Home(i));
    }
  }

  /** After any sequence of completed turns from the solved start, no cell of
      the state is BLACK. */
  lemma NoBlackAfterTurns(moves: seq<RotationConfig>)
    ensures var cs := Turns(Solved(), moves);
      Coherent(cs) && forall k :: 0 <= k < 54 ==> CubeStateOf(cs)[k] != Black
  {
    var cs := Turns(Solved(), moves);
    SolvedIsCoherent();
    TurnsKeepCoherent(Solved(), moves);
    forall k | 0 <= k < 54
      ensures CubeStateOf(cs)[k] != Black
    {
      var i, f := CellColor(cs, k);
    }
  }

  /** In a reachable configuration a cell shows the colour of any face that
      writes it. */
  lemma ShowsWriter(cs: seq<Cube>, i: int, f: Face, k: int)
    requires Coherent(cs) && 0 <= i < 27 && 0 <= k < 54 && Writes(cs[i], f, k)
    ensures forall j :: 0 <= j < |cs| ==> InLattice(cs[j].model.pos)
    ensures CubeStateOf(cs)[k] == LocalColor(f)
  {
    CoherentInLattice(cs);
    var j, g := CellColor(cs, k);
  }

  /** The cube a turn from the solved start brings to a cell of the turned
      layer writes it with the face that turning back carries onto it. */
  lemma TurnedWriter(cfg: RotationConfig, w: Face, row: int, col: int) returns (i: int)
    requires 0 <= row < 3 && 0 <= col < 3
    requires Coord(CellPoint(w, row, col), cfg.axis) == cfg.side
    ensures 0 <= i < 27
    ensures Writes(Commit(Solved(), cfg)[i], SpunFace(cfg.axis, Neg(Twist(cfg)), w), Slot(Target(w, row, col)))
  {
    var a := cfg.axis;
    var t := Twist(cfg);
    var p := CellPoint(w, row, col);
    var q := Spin(a, Neg(t), p);
    var g := SpunFace(a, Neg(t), w);
    ApplyTurn(a, Neg(t), p);
    TurnKeepsLattice(a, Neg(t), p);
    TurnKeepsLayer(a, Neg(t), p);
    DotUnit(q, a);
    i := Index(q);
    assert Solved()[i] == HomeCube(q);
    assert InLayer(Solved()[i], a, cfg.side);
    var c := Commit(Solved(), cfg)[i];
    assert c == Turned(HomeCube(q), cfg);
    assert Neg(Neg(t)) == t;
    SpinUndo(a, Neg(t), p, Identity());
    SpinUndo(a, Neg(t), Normal(w), Identity());
    ApplyTurn(a, t, q);
    assert c.model.pos == p;
    TurnApplyMul(a, t, Identity(), Normal(g));
    IdentityApply(Normal(g));
    ApplyTurn(a, t, Normal(g));
    assert Apply(c.model.rot, Normal(g)) == Normal(w);
    OnSide(p, w);
    SpinKeepsDot(a, Neg(t), p, Normal(w));
    OnSide(q, g);
    assert HasFace(c.colorMask, g);
    assert Sticker(Apply(c.model.rot, Normal(g)), c.model.pos) == Some(Target(w, row, col));
  }

  /** A cell outside the turned layer is still written by the unturned cube
      under it, with the cell's own face. */
  lemma KeptWriter(cfg: RotationConfig, w: Face, row: int, col: int) returns (i: int)
    requires 0 <= row < 3 && 0 <= col < 3
    requires Coord(CellPoint(w, row, col), cfg.axis) != cfg.side
    ensures 0 <= i < 27
    ensures Writes(Commit(Solved(), cfg)[i], w, Slot(Target(w, row, col)))
  {
    var p := CellPoint(w, row, col);
    i := Index(p);
    DotUnit(p, cfg.axis);
    var c := Commit(Solved(), cfg)[i];
    assert Solved()[i] == HomeCube(p);
    assert !InLayer(Solved()[i], cfg.axis, cfg.side);
    assert c == HomeCube(p);
    assert HasFace(c.colorMask, w);
    IdentityApply(Normal(w));
    assert Apply(c.model.rot, Normal(w)) == Normal(w);
    assert Sticker(Apply(c.model.rot, Normal(w)), c.model.pos) == Some(Target(w, row, col));
  }

  /** One committed turn from the solved start: a cell outside the turned
      layer keeps its face's colour, and a cell inside it shows the colour of
      the face the turn brought there, the face that turning back carries
      onto it. */
  lemma OneTurnColor(cfg: RotationConfig, w: Face, row: int, col: int)
    requires 0 <= row < 3 && 0 <= col < 3
    ensures var cs := Commit(Solved(), cfg);
      forall j :: 0 <= j < |cs| ==> InLattice(cs[j].model.pos)
    ensures CubeStateOf(Commit(Solved(), cfg))[Slot(Target(w, row, col))] ==
      if Coord(CellPoint(w, row, col), cfg.axis) == cfg.side
      then LocalColor(SpunFace(cfg.axis, Neg(Twist(cfg)), w))
      else LocalColor(w)
  {
    var cs := Commit(Solved(), cfg);
    var k := Slot(Target(w, row, col));
    SolvedIsCoherent();
    CommitKeepsCoherent(Solved(), cfg);
    if Coord(CellPoint(w, row, col), cfg.axis) == cfg.side {
      var i := TurnedWriter(cfg, w, row, col);
      ShowsWriter(cs, i, SpunFace(cfg.axis, Neg(Twist(cfg)), w), k);
    } else {
      var i := KeptWriter(cfg, w, row, col);
      ShowsWriter(cs, i, w, k);
    }
  }

  /** The example turn of the front layer (axis z, side 1, direction -1,
      key 1) on a solved cube, cell (row, col) of every face: front and back
      stay uniform, the bottom row of the top face turns Orange, the left
      column of the right face White, the top row of the bottom face Red and
      the right column of the left face Yellow; every other cell keeps its
      face's colour. */
  lemma FrontTurnState(cfg: RotationConfig, row: int, col: int)
    requires cfg == RotationConfig(Z, 1, -1)
    requires 0 <= row < 3 && 0 <= col < 3
    ensures var cs := Commit(Solved(), cfg);
      forall j :: 0 <= j < |cs| ==> InLattice(cs[j].model.pos)
    ensures var s := CubeStateOf(Commit(Solved(), cfg));
      s[Slot(Target(Front, row, col))] == Green &&
      s[Slot(Target(Back, row, col))] == Blue &&
      s[Slot(Target(Top, row, col))] == (if row == 2 then Orange else White) &&
      s[Slot(Target(Right, row, col))] == (if col == 0 then White else Red) &&
      s[Slot(Target(Bottom, row, col))] == (if row == 0 then Red else Yellow) &&
      s[Slot(Target(Left, row, col))] == (if col == 2 then Yellow else Orange)
  {
    assert SpunFace(Z, 1, Front) == Front && SpunFace(Z, 1, Top) == Left;
    assert SpunFace(Z, 1, Right) == Top && SpunFace(Z, 1, Bottom) == Right;
    assert SpunFace(Z, 1, Left) == Bottom;
    OneTurnColor(cfg, Front, row, col);
    OneTurnColor(cfg, Back, row, col);
    OneTurnColor(cfg, Top, row, col);
    OneTurnColor(cfg, Right, row, col);
    OneTurnColor(cfg, Bottom, row, col);
    OneTurnColor(cfg, Left, row, col);
  }

  /** On the freshly initialised cube every face is one colour: the cell
      (w, row, col) shows the colour of local face w. */
  lemma SolvedFacesUniform(w: Face, row: int, col: int)
    requires 0 <= row < 3 && 0 <= col < 3
    ensures forall i :: 0 <= i < |Solved()| ==> InLattice(Solved()[i].model.pos)
    ensures CubeStateOf(Solved())[Slot(Target(w, row, col))] == LocalColor(w)
  {
    SolvedIsCoherent();
    UnturnedUniform(Solved(), w, row, col);
  }

  /** Cubes that all keep their initial orientation show local face w on
      world face w. */
  lemma UnturnedUniform(cs: seq<Cube>, w: Face, row: int, col: int)
    requires Coherent(cs) && forall i :: 0 <= i < 27 ==> cs[i].model.rot == Identity()
    requires 0 <= row < 3 && 0 <= col < 3
    ensures forall i :: 0 <= i < |cs| ==> InLattice(cs[i].model.pos)
    ensures CubeStateOf(cs)[Slot(Target(w, row, col))] == LocalColor(w)
  {
    CoherentInLattice(cs);
    var k := Slot(Target(w, row, col));
    var i, f := CellColor(cs, k);
    assert Placed(cs[i], Home(i));
    WriterCell(cs[i], Home(i), f, k);
    IdentitySignedPerm();
    var t := Sticker(Normal(f), cs[i].model.pos).value;
    SlotInjective(t, Target(w, row, col));
  }
}
