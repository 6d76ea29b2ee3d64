/** The rotation machine of `RubiksCube` as a value: the cubes, the move
    queue, and the idle / animating state with its angle and speed. `Step`
    is one call of `update`; the class in module `Rubiks` is proved to change
    its fields exactly as `Step` says. */
module Machine {
  import opened Geometry
  import opened Cubes

  /** The angle at which a turn is committed, in degrees. */
  const TargetAngle: real := 90.0
  /** The speed `update` sets when it starts a queued move, degrees per second. */
  const QueuedSpeed: real := 400.0
  /** The speed `update` sets while idle with an empty queue. */
  const IdleSpeed: real := 200.0

  /** The fields `update` reads and writes. `current` is the command being
      animated (`m_rotationAxis`, `m_rotationSide`, `m_rotationDirection`). */
  datatype Engine = Engine(
    cubes: seq<Cube>,
    queue: seq<RotationConfig>,
    animating: bool,
    angle: real,
    speed: real,
    current: RotationConfig)

  /** `initRotation`: start animating `cfg` at once, bypassing the queue. */
  function Start(e: Engine, cfg: RotationConfig): (r: Engine)
    ensures r.animating && r.angle == 0.0 && r.current == cfg
    ensures r.cubes == e.cubes && r.queue == e.queue && r.speed == e.speed
  {
    e.(animating := true, current := cfg, angle := 0.0)
  }

  /** The first half of `update`: when idle, take the head of the queue (at
      the queued speed) or, with an empty queue, fall back to the idle speed. */
  function Dequeue(e: Engine): (r: Engine)
    ensures Pending(r) == Pending(e) && r.cubes == e.cubes
    ensures r.animating <==> e.animating || e.queue != []
  {
    if !e.animating && e.queue != [] then
      assert e.queue == [e.queue[0]] + e.queue[1..];
      e.(queue := e.queue[1..], current := e.queue[0], animating := true, angle := 0.0, speed := QueuedSpeed)
    else if !e.animating then
      e.(speed := IdleSpeed)
    else
      e
  }

  /** The second half of `update`: advance the angle by `speed * dt` and,
      once it reaches the target, commit the turn and go idle. */
  function Advance(e: Engine, dt: real): (r: Engine)
    ensures r.queue == e.queue && r.current == e.current && r.speed == e.speed
    ensures r.cubes == e.cubes || r.cubes == Commit(e.cubes, e.current)
  {
    if !e.animating then e
    else
      var angle := e.angle + e.speed * dt;
      if angle >= TargetAngle then
        e.(cubes := Commit(e.cubes, e.current), animating := false, angle := 0.0)
      else
        e.(angle := angle)
  }

  /** One call of `update(dt)`. */
  function Step(e: Engine, dt: real): Engine
  {
    Advance(Dequeue(e), dt)
  }

  /** The turns still owed: the one being animated, then the queue in order. */
  function Pending(e: Engine): (p: seq<RotationConfig>)
    ensures |p| == |e.queue| + (if e.animating then 1 else 0)
  {
    (if e.animating then [e.current] else []) + e.queue
  }

  /** The cubes once every owed turn is committed. */
  function Outcome(e: Engine): seq<Cube>
  {
    Turns(e.cubes, Pending(e))
  }

  /** `addMove`: append a command to the queue. */
  function Enqueue(e: Engine, cfg: RotationConfig): (r: Engine)
    ensures Pending(r) == Pending(e) + [cfg]
  {
    e.(queue := e.queue + [cfg])
  }

  /** A queued command is committed after every turn already owed, and
      nothing else changes in the eventual cubes. */
  lemma EnqueueOutcome(e: Engine, cfg: RotationConfig)
    ensures Outcome(Enqueue(e, cfg)) == Commit(Outcome(e), cfg)
  {
    assert Pending(Enqueue(e, cfg)) == Pending(e) + [cfg];
    TurnsAppend(e.cubes, Pending(e), [cfg]);
    assert Turns(Outcome(e), [cfg]) == Commit(Outcome(e), cfg);
  }

  /** `update` never loses, reorders or invents a turn: whatever it does, the
      cubes it leaves plus the turns it still owes come to the same result. */
  lemma StepKeepsOutcome(e: Engine, dt: real)
    ensures Outcome(Step(e, dt)) == Outcome(e)
  {
    var d := Dequeue(e);
    var r := Step(e, dt);
    assert Pending(d) == Pending(e);
    if d.animating && d.angle + d.speed * dt >= TargetAngle {
      assert r.cubes == Commit(d.cubes, d.current) && Pending(r) == d.queue;
      assert Pending(d) == [d.current] + d.queue;
      assert Pending(d)[0] == d.current && Pending(d)[1..] == d.queue;
    } else {
      assert r.cubes == d.cubes && Pending(r) == Pending(d);
    }
  }

  /** Started from idle with a non-empty queue, `update` removes exactly the
      head command and animates it at the queued speed. */
  lemma StepTakesHead(e: Engine, dt: real)
    requires !e.animating && e.queue != []
    ensures var r := Step(e, dt);
      r.queue == e.queue[1..] && r.current == e.queue[0] && r.speed == QueuedSpeed
    ensures var r := Step(e, dt);
      (r.animating <==> QueuedSpeed * dt < TargetAngle) &&
      (r.animating ==> r.angle == QueuedSpeed * dt && r.cubes == e.cubes) &&
      (!r.animating ==> r.angle == 0.0 && r.cubes == Commit(e.cubes, e.queue[0]))
  {
  }

  /** Idle with nothing queued, `update` only sets the idle speed. */
  lemma StepIdle(e: Engine, dt: real)
    requires !e.animating && e.queue == []
    ensures Step(e, dt) == e.(speed := IdleSpeed)
  {
  }

  /** While the angle stays below the target, `update` only advances it. */
  lemma StepAdvances(e: Engine, dt: real)
    requires e.animating && e.angle + e.speed * dt < TargetAngle
    ensures Step(e, dt) == e.(angle := e.angle + e.speed * dt)
  {
  }

  /** When the angle reaches the target, `update` commits the current turn,
      which changes exactly the cubes of its layer, and goes idle at angle 0. */
  lemma StepCommits(e: Engine, dt: real)
    requires e.animating && e.angle + e.speed * dt >= TargetAngle
    ensures var r := Step(e, dt);
      r.cubes == Commit(e.cubes, e.current) && !r.animating && r.angle == 0.0
      && r.queue == e.queue && r.speed == e.speed
  {
  }

  /** `update` either leaves the cubes alone or commits one turn. */
  lemma StepCubes(e: Engine, dt: real)
    ensures Step(e, dt).cubes == e.cubes || Step(e, dt).cubes == Commit(e.cubes, Dequeue(e).current)
  {
  }

  /** `update` keeps the cubes a reachable configuration. */
  lemma StepKeepsCoherent(e: Engine, dt: real)
    requires Coherent(e.cubes)
    ensures Coherent(Step(e, dt).cubes)
  {
    StepCubes(e, dt);
    CommitKeepsCoherent(e.cubes, Dequeue(e).current);
  }

  /** Calls of `update` with the time steps `dts`, in order. */
  function Run(e: Engine, dts: seq<real>): Engine
    decreases |dts|
  {
    if dts == [] then e else Run(Step(e, dts[0]), dts[1..])
  }

  lemma {:induction false} RunKeepsOutcome(e: Engine, dts: seq<real>)
    ensures Outcome(Run(e, dts)) == Outcome(e)
    decreases |dts|
  {
    if dts != [] {
      StepKeepsOutcome(e, dts[0]);
      RunKeepsOutcome(Step(e, dts[0]), dts[1..]);
    }
  }

  /** Started idle, one `update` per queued move, each long enough for a
      queued move to reach 90 degrees at once, commits the queue in FIFO
      order and leaves the machine idle with an empty queue. */
  lemma {:induction false} DrainsInOrder(e: Engine, dts: seq<real>)
    requires !e.animating && |dts| == |e.queue|
    requires forall k :: 0 <= k < |dts| ==> QueuedSpeed * dts[k] >= TargetAngle
    ensures var r := Run(e, dts);
      r.cubes == Turns(e.cubes, e.queue) && r.queue == [] && !r.animating
    decreases |dts|
  {
    if dts != [] {
      var r := Step(e, dts[0]);
      assert r.cubes == Commit(e.cubes, e.queue[0]) && r.queue == e.queue[1..] && !r.animating;
      DrainsInOrder(r, dts[1..]);
    }
  }

  /** The command the three `rand()` draws of one `shuffle` iteration pick:
      the first chooses the axis (mod 3), the second the direction and the
      third the side (even: 1, odd: -1). */
  function Draw(ra: nat, rd: nat, rs: nat): RotationConfig
  {
    var axis := if ra % 3 == 0 then X else if ra % 3 == 1 then Y else Z;
    var direction: Sign := if rd % 2 == 0 then 1 else -1;
    var side: Sign := if rs % 2 == 0 then 1 else -1;
    RotationConfig(axis, side, direction)
  }

  /** Every one of the twelve commands can come out of a shuffle draw. */
  lemma DrawReachesAll(cfg: RotationConfig)
    ensures Draw(AxisCode(cfg.axis), if cfg.direction == 1 then 0 else 1, if cfg.side == 1 then 0 else 1) == cfg
  {
  }

  function AxisCode(a: Axis): nat
  {
    match a
    case X => 0
    case Y => 1
    case Z => 2
  }

  /** The queue after `shuffle` has run `n` iterations on `queue`, when
      `rand` yields `rand(0), rand(1), ...`: the `i`-th iteration appends
      the command built from draws 3i, 3i+1 and 3i+2. */
  function Shuffled(queue: seq<RotationConfig>, rand: nat -> nat, n: nat): (r: seq<RotationConfig>)
    ensures |r| == |queue| + n
  {
    if n == 0 then queue
    else Shuffled(queue, rand, n - 1) + [Draw(rand(3 * (n - 1)), rand(3 * (n - 1) + 1), rand(3 * (n - 1) + 2))]
  }

  /** One more iteration appends the next draw. */
  lemma ShuffleStep(queue: seq<RotationConfig>, rand: nat -> nat, i: nat, cfg: RotationConfig)
    requires cfg == Draw(rand(3 * i), rand(3 * i + 1), rand(3 * i + 2))
    ensures Shuffled(queue, rand, i + 1) == Shuffled(queue, rand, i) + [cfg]
  {
  }

  /** Shuffling only appends: the commands queued before stay, in order. */
  lemma {:induction false} ShuffleKeepsQueue(queue: seq<RotationConfig>, rand: nat -> nat, n: nat)
    ensures Shuffled(queue, rand, n)[..|queue|] == queue
  {
    if n > 0 {
      ShuffleKeepsQueue(queue, rand, n - 1);
      assert Shuffled(queue, rand, n)[..|queue|] == Shuffled(queue, rand, n - 1)[..|queue|];
    }
  }

  /** The `i`-th shuffled command comes from draws 3i, 3i+1 and 3i+2 alone,
      however many commands are drawn after it. */
  lemma {:induction false} ShuffleDraws(queue: seq<RotationConfig>, rand: nat -> nat, n: nat, i: nat)
    requires i < n
    ensures Shuffled(queue, rand, n)[|queue| + i] == Draw(rand(3 * i), rand(3 * i + 1), rand(3 * i + 2))
  {
    if i < n - 1 {
      ShuffleDraws(queue, rand, n - 1, i);
    }
  }

  /** The twelve key bindings of the program's front end (keys 1-6 and
      F1-F6): front, back, left, right, up and down, each both ways. */
  function KeyCommands(): (cmds: seq<RotationConfig>)
    ensures |cmds| == 12
  {
    [RotationConfig(Z, 1, -1), RotationConfig(Z, 1, 1),
     RotationConfig(Z, -1, -1), RotationConfig(Z, -1, 1),
     RotationConfig(X, -1, -1), RotationConfig(X, -1, 1),
     RotationConfig(X, 1, -1), RotationConfig(X, 1, 1),
     RotationConfig(Y, 1, -1), RotationConfig(Y, 1, 1),
     RotationConfig(Y, -1, -1), RotationConfig(Y, -1, 1)]
  }

  /** The key bindings are twelve different commands and every command is
      bound to a key, so the commands `shuffle` draws are exactly those a
      player can enter. */
  lemma KeyCommandsAreAll(cfg: RotationConfig)
    ensures cfg in KeyCommands()
    ensures forall i, j :: 0 <= i < j < 12 ==> KeyCommands()[i] != KeyCommands()[j]
  {
    var cmds := KeyCommands();
    match cfg.axis
    case X =>
      assert cfg == cmds[if cfg.side == -1 then (if cfg.direction == -1 then 4 else 5) else (if cfg.direction == -1 then 6 else 7)];
    case Y =>
      assert cfg == cmds[if cfg.side == 1 then (if cfg.direction == -1 then 8 else 9) else (if cfg.direction == -1 then 10 else 11)];
    case Z =>
      assert cfg == cmds[if cfg.side == 1 then (if cfg.direction == -1 then 0 else 1) else (if cfg.direction == -1 then 2 else 3)];
  }

  /** Key 1 ("rotate front") turns the front layer clockwise as seen from the
      front: it is the quarter turn by -90 degrees about z, which (see
      `ApplyTurn`) moves the top edge of the front face to the right and the
      right edge to the bottom. */
  lemma FrontKeyIsClockwise()
    ensures TurnOf(KeyCommands()[0]) == QuarterTurn(Z, -1)
    ensures Spin(Z, -1, Vec(0, 1, 1)) == Vec(1, 0, 1)
    ensures Spin(Z, -1, Vec(1, 0, 1)) == Vec(0, -1, 1)
  {
    assert KeyCommands()[0] == RotationConfig(Z, 1, -1);
  }
}
