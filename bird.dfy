/**
 * The bird of flappy_bird_AI.py: its kinematics (`jump`, `move`) and the
 * frame-selection half of `draw`. Pixel positions are `real` (every constant
 * is a multiple of 0.5, so nothing is rounded); the sprite itself is the
 * index of one of the three wing frames.
 */
module BirdKinematics {

  const MAX_ROTATION: int := 25
  const ROTATION_VEL: int := 20
  const ANIMATION_TIME: int := 5
  /** Velocity set by a jump; negative is upwards. */
  const JUMP_VELOCITY: real := -10.5
  /** Largest downward displacement in one tick. */
  const MAX_DROP: real := 16.0
  /** Extra upward pixels added to any upward displacement. */
  const LIFT_BIAS: real := 2.0
  /** Tilt at or below which the bird stops flapping. */
  const DIVE_TILT: int := -80
  /** The wing frame shown in each ANIMATION_TIME band of one flap. */
  const FLAP_CYCLE: seq<nat> := [0, 1, 2, 1]
  /** Length of one flap: after this many draws the counter starts over. */
  const FLAP_LENGTH: int := 4 * ANIMATION_TIME

  datatype BirdState = BirdState(
    x: int,
    y: real,
    tilt: int,
    tickCount: int,
    velocity: real,
    height: real,   // y at the last jump
    imageCount: int,
    image: nat)     // 0, 1 or 2: which of the three wing frames

  /** What every bird keeps true from its creation on. */
  predicate Sane(b: BirdState)
  {
    && -110 < b.tilt <= MAX_ROTATION
    && b.tickCount >= 0
    && 0 <= b.imageCount < FLAP_LENGTH
    && b.image < 3
  }

  /** A new bird, as `Bird(x, y)` builds it. */
  function Hatched(x: int, y: real): (b: BirdState)
    ensures Sane(b) && b.x == x && b.y == y && b.velocity == 0.0
  {
    BirdState(x, y, 0, 0, 0.0, y, 0, 0)
  }

  /**
   * `jump`: fresh upward velocity, the tick counter restarts, and y is
   * remembered; the bird itself does not move until its next `move`.
   */
  function Jumped(b: BirdState): (j: BirdState)
    ensures j.velocity == JUMP_VELOCITY && j.tickCount == 0 && j.height == b.y
    ensures j == b.(velocity := j.velocity, tickCount := j.tickCount, height := j.height)
  {
    b.(velocity := JUMP_VELOCITY, tickCount := 0, height := b.y)
  }

  /** The kinematic formula v*t + 1.5*t^2, before the clamp and the lift bias. */
  function Formula(velocity: real, t: int): real
  {
    velocity * t as real + 1.5 * (t * t) as real
  }

  /** The displacement `move` applies after `t` ticks since the last jump. */
  function Displacement(velocity: real, t: int): (d: real)
    ensures d <= MAX_DROP
    ensures d < 0.0 <==> Formula(velocity, t) < 0.0
    ensures d < 0.0 ==> d < -LIFT_BIAS
    ensures d < 0.0 ==> d == Formula(velocity, t) - LIFT_BIAS
    ensures d >= 0.0 ==> d == Min(Formula(velocity, t), MAX_DROP)
  {
    var f := Formula(velocity, t);
    var clamped := if f >= MAX_DROP then MAX_DROP else f;
    if clamped < 0.0 then clamped - LIFT_BIAS else clamped
  }

  function Min(a: real, b: real): real
  {
    if a <= b then a else b
  }

  function MaxInt(a: int, b: int): int
  {
    if a >= b then a else b
  }

  /** The tilt after a move that displaced the bird by `d` to `y`. */
  function NextTilt(tilt: int, d: real, y: real, height: real): int
  {
    if d < 0.0 || y < height + 50.0 then
      if tilt < MAX_ROTATION then MAX_ROTATION else tilt
    else
      if tilt > -90 then tilt - ROTATION_VEL else tilt
  }

  /** `move`: one tick of gravity and the tilt that goes with it. */
  function Moved(b: BirdState): (m: BirdState)
    ensures m.tickCount == b.tickCount + 1
    ensures m.y <= b.y + MAX_DROP
    ensures Formula(b.velocity, m.tickCount) < 0.0 ==> m.y < b.y - LIFT_BIAS
    ensures Formula(b.velocity, m.tickCount) >= 0.0 ==> m.y >= b.y
    ensures m.tilt <= MaxInt(b.tilt, MAX_ROTATION)
    ensures m.tilt < b.tilt ==> b.tilt > -90 && m.tilt == b.tilt - ROTATION_VEL
    ensures m == b.(y := m.y, tilt := m.tilt, tickCount := m.tickCount)
  {
    var t := b.tickCount + 1;
    var d := Displacement(b.velocity, t);
    var y := b.y + d;
    b.(tickCount := t, y := y, tilt := NextTilt(b.tilt, d, y, b.height))
  }

  /** The frame of one flap for a counter value 0 <= n < FLAP_LENGTH. */
  function FlapFrame(n: int): nat
    requires 0 <= n < FLAP_LENGTH
  {
    FLAP_CYCLE[n / ANIMATION_TIME]
  }

  /**
   * The frame-selection half of `draw`: only the flap counter and the frame
   * change, and a counter inside one flap stays inside it and picks one of
   * the three frames.
   */
  function Drawn(b: BirdState): (d: BirdState)
    ensures d == b.(imageCount := d.imageCount, image := d.image)
    ensures 0 <= b.imageCount < FLAP_LENGTH ==> 0 <= d.imageCount < FLAP_LENGTH && d.image < 3
  {
    var c := b.imageCount + 1;
    var flapped :=
      if c < ANIMATION_TIME then b.(imageCount := c, image := 0)
      else if c < 2 * ANIMATION_TIME then b.(imageCount := c, image := 1)
      else if c < 3 * ANIMATION_TIME then b.(imageCount := c, image := 2)
      else if c < 4 * ANIMATION_TIME then b.(imageCount := c, image := 1)
      else if c < 4 * ANIMATION_TIME + 1 then b.(imageCount := 0, image := 0)
      else b.(imageCount := c);
    if b.tilt <= DIVE_TILT then flapped.(image := 1, imageCount := ANIMATION_TIME * 2)
    else flapped
  }

  /** A jump followed by the next move lifts the bird by exactly 11 pixels and points it up. */
  lemma JumpThenMoveRises(b: BirdState)
    ensures Moved(Jumped(b)).y == b.y - 11.0
    ensures Moved(Jumped(b)).tilt == MaxInt(b.tilt, MAX_ROTATION)
    ensures Moved(Jumped(b)).tickCount == 1 && Moved(Jumped(b)).velocity == JUMP_VELOCITY
  {
    assert Formula(JUMP_VELOCITY, 1) == -9.0;
  }

  /** Starting inside (-110, 25], the tilt never leaves it. */
  lemma MoveKeepsSane(b: BirdState)
    requires Sane(b)
    ensures Sane(Moved(b)) && Sane(Jumped(b)) && Sane(Drawn(b))
  {
  }

  /**
   * Nine or more ticks after a jump (or ever since a bird was created with
   * velocity 0) the fall runs at the full MAX_DROP per tick.
   */
  lemma {:induction false} FallSaturates(b: BirdState)
    requires JUMP_VELOCITY <= b.velocity && b.tickCount >= 8
    ensures Moved(b).y == b.y + MAX_DROP
  {
    var t := b.tickCount + 1;
    var tr := t as real;
    var v := b.velocity;
    CastSquare(t);
    NonNegProduct(v - JUMP_VELOCITY, tr);
    NonNegProduct(tr - 9.0, tr);
    assert v * tr >= JUMP_VELOCITY * tr;
    assert tr * tr >= 9.0 * tr;
    assert Formula(v, t) >= 3.0 * tr;
  }

  lemma CastSquare(t: int)
    ensures (t * t) as real == (t as real) * (t as real)
  {
  }

  lemma NonNegProduct(a: real, b: real)
    requires a >= 0.0 && b >= 0.0
    ensures a * b >= 0.0
  {
  }

  /**
   * While the bird is not diving, one draw advances the counter by one modulo
   * FLAP_LENGTH and shows the frame of the band the new count falls in.
   */
  lemma DrawFollowsFlapCycle(b: BirdState)
    requires b.tilt > DIVE_TILT && 0 <= b.imageCount < FLAP_LENGTH
    ensures Drawn(b).imageCount == (b.imageCount + 1) % FLAP_LENGTH
    ensures Drawn(b).image == FlapFrame((b.imageCount + 1) % FLAP_LENGTH)
    ensures Drawn(b) == b.(imageCount := Drawn(b).imageCount, image := Drawn(b).image)
  {
  }

  /** A diving bird shows the middle frame and its counter is parked at 10. */
  lemma DrawWhileDiving(b: BirdState)
    requires b.tilt <= DIVE_TILT
    ensures Drawn(b).image == 1 && Drawn(b).imageCount == 2 * ANIMATION_TIME
  {
  }

  /** `n` successive draws. */
  function DrawnTimes(b: BirdState, n: nat): BirdState
  {
    if n == 0 then b else Drawn(DrawnTimes(b, n - 1))
  }

  /** Over many draws of a bird that is not diving, the counter runs round the flap. */
  lemma {:induction false} FlapCounterCycles(b: BirdState, n: nat)
    requires b.tilt > DIVE_TILT && 0 <= b.imageCount < FLAP_LENGTH
    ensures DrawnTimes(b, n).imageCount == (b.imageCount + n) % FLAP_LENGTH
    ensures DrawnTimes(b, n).tilt == b.tilt
  {
    if n > 0 {
      FlapCounterCycles(b, n - 1);
      var p := DrawnTimes(b, n - 1);
      DrawFollowsFlapCycle(p);
      var k := b.imageCount + n - 1;
      assert (k % FLAP_LENGTH + 1) % FLAP_LENGTH == (k + 1) % FLAP_LENGTH;
    }
  }

  /** `n` successive moves with no jump in between. */
  function MovedTimes(b: BirdState, n: nat): BirdState
  {
    if n == 0 then b else Moved(MovedTimes(b, n - 1))
  }

  /** A new bird that never jumps keeps velocity 0 and counts its moves. */
  lemma {:induction false} FreeFallClock(x: int, y: real, n: nat)
    ensures MovedTimes(Hatched(x, y), n).tickCount == n
    ensures MovedTimes(Hatched(x, y), n).velocity == 0.0
  {
    if n > 0 {
      FreeFallClock(x, y, n - 1);
    }
  }

  /**
   * A new bird that never jumps falls 1.5, 6 and 13.5 pixels in its first
   * three moves and MAX_DROP in every move after them.
   */
  lemma {:induction false} FreeFall(x: int, y: real, n: nat)
    requires n >= 3
    ensures MovedTimes(Hatched(x, y), n).y == y + 21.0 + MAX_DROP * (n - 3) as real
  {
    if n == 3 {
      assert MovedTimes(Hatched(x, y), 1).y == y + 1.5;
      assert MovedTimes(Hatched(x, y), 2).y == y + 7.5;
    } else {
      FreeFall(x, y, n - 1);
      FreeFallClock(x, y, n - 1);
      StillFallSaturates(MovedTimes(Hatched(x, y), n - 1));
    }
  }

  /** With no upward velocity, every move from the fourth tick on drops the bird by MAX_DROP. */
  lemma StillFallSaturates(b: BirdState)
    requires b.velocity == 0.0 && b.tickCount >= 3
    ensures Moved(b).y == b.y + MAX_DROP
  {
    var t := b.tickCount + 1;
    assert t * t >= 16 by {
      assert t * t >= 4 * t;
    }
    assert Formula(b.velocity, t) >= MAX_DROP;
  }

  /**
   * A bird created at y = 350 that never jumps is still above the ground line
   * at y = 730 after 25 moves and has reached it after 26.
   */
  lemma NeverJumpingBirdLands(x: int)
    ensures MovedTimes(Hatched(x, 350.0), 25).y < 730.0 <= MovedTimes(Hatched(x, 350.0), 26).y
  {
    FreeFall(x, 350.0, 25);
    FreeFall(x, 350.0, 26);
  }

  /** The bird object, with the attributes `Bird.__init__` gives it. */
  class Bird {
    var x: int
    var y: real
    var tilt: int
    var tickCount: int
    var velocity: real
    var height: real
    var imageCount: int
    var image: nat

    function State(): BirdState
      reads this
    {
      BirdState(x, y, tilt, tickCount, velocity, height, imageCount, image)
    }

    constructor (x0: int, y0: real)
      ensures State() == Hatched(x0, y0)
    {
      x := x0;
      y := y0;
      tilt := 0;
      tickCount := 0;
      velocity := 0.0;
      height := y0;
      imageCount := 0;
      image := 0;
    }

    method Jump()
      modifies this
      ensures velocity == JUMP_VELOCITY && tickCount == 0 && height == old(y)
      ensures State() == Jumped(old(State()))
    {
      velocity := JUMP_VELOCITY;
      tickCount := 0;
      height := y;
    }

    method Move()
      modifies this
      ensures tickCount == old(tickCount) + 1
      ensures y <= old(y) + MAX_DROP
      ensures old(Sane(State())) ==> Sane(State())
      ensures State() == Moved(old(State()))
    {
      ghost var before := State();
      tickCount := tickCount + 1;
      var displacement := velocity * tickCount as real + 1.5 * (tickCount * tickCount) as real;
      assert displacement == Formula(velocity, tickCount);
      if displacement >= MAX_DROP {
        displacement := MAX_DROP;
      }
      if displacement < 0.0 {
        displacement := displacement - LIFT_BIAS;
      }
      assert displacement == Displacement(velocity, tickCount);
      y := y + displacement;
      if displacement < 0.0 || y < height + 50.0 {
        if tilt < MAX_ROTATION {
          tilt := MAX_ROTATION;
        }
      } else if tilt > -90 {
        tilt := tilt - ROTATION_VEL;
      }
      assert State() == Moved(before);
      if Sane(before) {
        MoveKeepsSane(before);
      }
    }

    /** The frame selection `draw` does before it rotates and blits the sprite. */
    method SelectFrame()
      modifies this
      ensures old(0 <= imageCount < FLAP_LENGTH) ==> 0 <= imageCount < FLAP_LENGTH
      ensures State() == Drawn(old(State()))
    {
      imageCount := imageCount + 1;
      if imageCount < ANIMATION_TIME {
        image := 0;
      } else if imageCount < 2 * ANIMATION_TIME {
        image := 1;
      } else if imageCount < 3 * ANIMATION_TIME {
        image := 2;
      } else if imageCount < 4 * ANIMATION_TIME {
        image := 1;
      } else if imageCount < 4 * ANIMATION_TIME + 1 {
        image := 0;
        imageCount := 0;
      }
      if tilt <= DIVE_TILT {
        image := 1;
        imageCount := ANIMATION_TIME * 2;
      }
    }
  }
}
