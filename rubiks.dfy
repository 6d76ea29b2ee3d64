/** The `RubiksCube` class: its fields and the methods that change them. Each
    method is proved to change the fields exactly as the value model of
    modules `Cubes`, `Machine` and `CubeStates` says, so everything proved
    there holds of the object. */
module Rubiks {
  import opened Geometry
  import opened Faces
  import opened Cubes
  import opened Machine
  import opened CubeStates

  class RubiksCube {
    /** Degrees per second of the turn being animated. */
    var rotationSpeed: real
    /** The number of moves `Shuffle` queues. */
    const shuffleSteps: int
    var cubes: seq<Cube>
    /** Moves waiting to be animated, oldest first. */
    var moveQueue: seq<RotationConfig>
    var animating: bool
    var currentAngle: real
    /** The command being animated (or last animated). */
    var rotationAxis: Axis
    var rotationSide: Sign
    var rotationDirection: Sign

    /** The fields as a value of the machine model. */
    function Snapshot(): Engine
      reads this
    {
      Engine(cubes, moveQueue, animating, currentAngle, rotationSpeed,
             RotationConfig(rotationAxis, rotationSide, rotationDirection))
    }

    /** Every cube sits on a lattice point, so its stickers land in the grid. */
    predicate Valid()
      reads this
    {
      forall i :: 0 <= i < |cubes| ==> InLattice(cubes[i].model.pos)
    }

    /** No cubes and no moves yet; idle at angle 0. The command fields hold
        a placeholder until the first turn starts (see README). */
    constructor(rotationSpeed: real, shuffleSteps: int)
      ensures this.rotationSpeed == rotationSpeed && this.shuffleSteps == shuffleSteps
      ensures cubes == [] && moveQueue == [] && !animating && currentAngle == 0.0
      ensures Valid()
    {
      this.rotationSpeed := rotationSpeed;
      this.shuffleSteps := shuffleSteps;
      cubes := [];
      moveQueue := [];
      animating := false;
      currentAngle := 0.0;
      rotationAxis := X;
      rotationSide := 1;
      rotationDirection := 1;
    }

    /** `init`: append the 27 cubes, x outermost and z innermost, each
        unrotated at its lattice point with one mask bit per side it lies on.
        On a fresh object the result is the solved, coherent configuration. */
    method Init()
      modifies this
      ensures Snapshot() == old(Snapshot()).(cubes := old(cubes) + Solved())
      ensures old(cubes) == [] ==> Coherent(cubes)
      ensures old(Valid()) ==> Valid()
    {
      var added := InitialCubes();
      cubes := cubes + added;
      if old(cubes) == [] {
        assert cubes == Solved();
        SolvedIsCoherent();
      }
    }

    /** `initRotation`: start animating `cfg` at once, leaving the queue and
        the speed alone. */
    method InitRotation(cfg: RotationConfig)
      modifies this
      ensures Snapshot() == Start(old(Snapshot()), cfg)
    {
      animating := true;
      rotationAxis := cfg.axis;
      rotationSide := cfg.side;
      rotationDirection := cfg.direction;
      currentAngle := 0.0;
    }

    /** `addMove(axis, side, direction)`: queue a command. */
    method AddMove(axis: Axis, side: Sign, direction: Sign)
      modifies this
      ensures moveQueue == old(moveQueue) + [RotationConfig(axis, side, direction)]
      ensures Snapshot() == Enqueue(old(Snapshot()), RotationConfig(axis, side, direction))
    {
      AddMoveConfig(RotationConfig(axis, side, direction));
    }

    /** `addMove(cfg)`: queue a command (see `EnqueueOutcome`). */
    method AddMoveConfig(cfg: RotationConfig)
      modifies this
      ensures moveQueue == old(moveQueue) + [cfg]
      ensures Snapshot() == Enqueue(old(Snapshot()), cfg)
    {
      moveQueue := moveQueue + [cfg];
    }

    /** `shuffle`: queue `shuffleSteps` random commands. `rand(k)` stands for
        the value of the `k`-th call of `rand()` made by this call; each
        iteration makes three calls, for the axis, the direction and the
        side. */
    method Shuffle(rand: nat -> nat)
      modifies this
      ensures Snapshot() == old(Snapshot()).(queue := Shuffled(old(moveQueue), rand, if shuffleSteps < 0 then 0 else shuffleSteps))
    {
      ghost var snap := Snapshot();
      var n := if shuffleSteps < 0 then 0 else shuffleSteps;
      for i := 0 to n
        invariant moveQueue == Shuffled(snap.queue, rand, i)
        invariant Snapshot() == snap.(queue := moveQueue)
      {
        var cfg := DrawMove(rand, i);
        ShuffleStep(snap.queue, rand, i, cfg);
        AddMoveConfig(cfg);
      }
    }

    /** `update(deltaTime)`: start the next queued move when idle, advance
        the angle, and commit the turn to the cubes of its layer once the
        angle reaches 90 degrees. */
    method Update(dt: real)
      modifies this
      ensures Snapshot() == Step(old(Snapshot()), dt)
      ensures old(Valid()) ==> Valid()
    {
      if !animating && moveQueue != [] {
        var queued := moveQueue[0];
        moveQueue := moveQueue[1..];
        rotationAxis := queued.axis;
        rotationDirection := queued.direction;
        rotationSide := queued.side;
        animating := true;
        currentAngle := 0.0;
        rotationSpeed := QueuedSpeed;
      } else if !animating && moveQueue == [] {
        rotationSpeed := IdleSpeed;
      }
      ghost var d := Snapshot();
      assert d == Dequeue(old(Snapshot()));
      if animating {
        currentAngle := currentAngle + rotationSpeed * dt;
        if currentAngle >= TargetAngle {
          currentAngle := TargetAngle;
          var cfg := RotationConfig(rotationAxis, rotationSide, rotationDirection);
          ghost var before := cubes;
          cubes := CommitLayer(cubes, cfg);
          if forall k :: 0 <= k < |before| ==> InLattice(before[k].model.pos) {
            CommitKeepsLattice(before, cfg);
          }
          animating := false;
          currentAngle := 0.0;
        }
      }
      assert Snapshot() == Advance(d, dt);
    }

    /** `isAnimating`: a turn is in flight exactly when the object owes one
        more turn than it has queued. */
    function IsAnimating(): (b: bool)
      reads this
      ensures b <==> |Pending(Snapshot())| == |moveQueue| + 1
    {
      animating
    }

    /** `getCubeState`: paint all 54 cells BLACK, then let every visible face
        of every cube, in order, write its colour into the cell its turned
        normal selects. The 54 cells are the six grids laid end to end (see
        `Slot`). */
    method GetCubeState() returns (s: seq<Color>)
      requires Valid()
      ensures s == CubeStateOf(cubes)
    {
      var state := BlackState();
      for n := 0 to |cubes|
        invariant state[..] == PaintAll(Blank(), cubes[..n])
      {
        PaintCube(state, cubes[n]);
        assert cubes[..n + 1][..n] == cubes[..n];
      }
      assert cubes[..|cubes|] == cubes;
      s := state[..];
    }
  }

  /** One iteration of `shuffle` before its `addMove`: three calls of
      `rand()` pick the axis, the direction and the side. */
  method DrawMove(rand: nat -> nat, i: nat) returns (cfg: RotationConfig)
    ensures cfg == Draw(rand(3 * i), rand(3 * i + 1), rand(3 * i + 2))
  {
    var randAxis := rand(3 * i) % 3;
    var axis := if randAxis == 0 then X else if randAxis == 1 then Y else Z;
    var direction: Sign := if rand(3 * i + 1) % 2 == 0 then 1 else -1;
    var side: Sign := if rand(3 * i + 2) % 2 == 0 then 1 else -1;
    cfg := RotationConfig(axis, side, direction);
  }

  /** The commit loop of `update`: every cube whose position lies in the
      layer (`dot(pos, axis) == side`) is multiplied by the rotation. */
  method CommitLayer(cs: seq<Cube>, cfg: RotationConfig) returns (r: seq<Cube>)
    ensures r == Commit(cs, cfg)
  {
    var rotation := TurnOf(cfg);
    r := cs;
    var i := 0;
    while i < |r|
      invariant 0 <= i <= |r| == |cs|
      invariant forall j :: 0 <= j < i ==> r[j] == Commit(cs, cfg)[j]
      invariant forall j :: i <= j < |r| ==> r[j] == cs[j]
    {
      var pos := r[i].model.pos;
      var dot := Dot(pos, Unit(cfg.axis));
      if dot == cfg.side {
        r := r[i := Cube(Transform(Mul(rotation, r[i].model.rot), Apply(rotation, pos)), r[i].colorMask)];
      }
      i := i + 1;
    }
  }

  /** The three nested loops of `init`, x outermost and z innermost: each
      step pushes the unrotated cube at (x, y, z), its mask built one side
      at a time. */
  method InitialCubes() returns (cs: seq<Cube>)
    ensures cs == Solved()
  {
    cs := [];
    for x := -1 to 2
      invariant |cs| == 9 * (x + 1)
      invariant cs == Solved()[..|cs|]
    {
      for y := -1 to 2
        invariant |cs| == 9 * (x + 1) + 3 * (y + 1)
        invariant cs == Solved()[..|cs|]
      {
        for z := -1 to 2
          invariant |cs| == 9 * (x + 1) + 3 * (y + 1) + (z + 1)
          invariant cs == Solved()[..|cs|]
        {
          var pos := Vec(x, y, z);
          var mask: FaceMask := 0;
          if z == -1 { mask := mask | (1 << 0); }
          if z == 1 { mask := mask | (1 << 1); }
          if x == -1 { mask := mask | (1 << 2); }
          if x == 1 { mask := mask | (1 << 3); }
          if y == -1 { mask := mask | (1 << 4); }
          if y == 1 { mask := mask | (1 << 5); }
          assert mask == MaskAt(pos);
          HomeAt(x, y, z);
          assert Solved()[..|cs| + 1] == cs + [HomeCube(pos)];
          cs := cs + [Cube(Transform(Identity(), pos), mask)];
        }
      }
    }
    assert Solved()[..27] == Solved();
  }

  /** The first loops of `getCubeState`: every cell of the six grids BLACK.
      `cell` is the first place of position (i, j), so `cell + Grid(w)` is
      `Slot(Target(w, i, j))`, the cell `state.<w>[i][j]`. */
  method BlackState() returns (state: array<Color>)
    ensures fresh(state) && state[..] == Blank()
  {
    state := new Color[54];
    var cell := 0;
    for i := 0 to 3
      invariant cell == 18 * i
      invariant forall k :: 0 <= k < cell ==> state[k] == Black
    {
      for j := 0 to 3
        invariant cell == 18 * i + 6 * j
        invariant forall k :: 0 <= k < cell ==> state[k] == Black
      {
        state[cell + Grid(Front)] := Black;
        state[cell + Grid(Back)] := Black;
        state[cell + Grid(Left)] := Black;
        state[cell + Grid(Right)] := Black;
        state[cell + Grid(Top)] := Black;
        state[cell + Grid(Bottom)] := Black;
        cell := cell + 6;
      }
    }
  }

  /** The inner loop of `getCubeState` for one cube: each local face whose
      mask bit is set writes its colour into the cell its turned normal
      selects. */
  method PaintCube(state: array<Color>, cube: Cube)
    requires state.Length == 54 && InLattice(cube.model.pos)
    modifies state
    ensures state[..] == PaintFaces(old(state[..]), cube, 6)
  {
    var pos := cube.model.pos;
    var rotation := cube.model.rot;
    for i := 0 to 6
      invariant state[..] == PaintFaces(old(state[..]), cube, i)
    {
      if cube.colorMask & (1 << i) == 0 {
        continue;
      }
      var currentNormal := Apply(rotation, Normal(FaceAt(i)));
      match Sticker(currentNormal, pos)
      case None =>
      case Some(t) =>
        state[Slot(t)] := LocalColor(FaceAt(i));
    }
  }
}
