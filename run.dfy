/**
 * A whole generation of `main` in flappy_bird_AI.py: the `while runGame` loop
 * as a function of the state it starts from and of the random draws its ticks
 * would use (`Played`), the loop itself (`RunGeneration`), and how a
 * population whose networks never answer "jump" dies out.
 */
module GenerationRun {
  import opened Lists
  import opened BirdKinematics
  import P = PipeGeometry
  import opened GenerationLoop
  import opened GameTick

  /** What `Played` asks of a generation and its draws. */
  ghost predicate Playable(g: Generation, env: Environment, draws: seq<int>)
  {
    SpritesOk(env.sprites) && Inv(g, env.sprites) && (forall d :: d in draws ==> P.Drawable(d))
  }

  /**
   * The generation from `g` on: one tick per draw of `draws`, until no bird
   * is left or the draws run out. It keeps the state of the generation, never
   * adds a bird or a genome, and scores at most once per tick.
   */
  ghost function Played(g: Generation, env: Environment, draws: seq<int>): (r: Generation)
    requires Playable(g, env, draws)
    ensures Inv(r, env.sprites)
    ensures |r.birds| <= |g.birds| && (forall id :: id in r.ge ==> id in g.ge)
    ensures g.score <= r.score <= g.score + |draws|
    decreases |draws|
  {
    if |draws| == 0 || |g.birds| == 0 then g
    else
      assert draws[0] in draws;
      TickedBounds(g, env, draws[0]);
      Played(Ticked(g, env, draws[0]), env, draws[1..])
  }

  /** A generation with a bird left plays its first tick and goes on from there. */
  lemma PlayedStep(g: Generation, env: Environment, draws: seq<int>)
    requires Playable(g, env, draws)
    requires |draws| > 0 && |g.birds| > 0
    ensures P.Drawable(draws[0]) && Inv(Ticked(g, env, draws[0]), env.sprites)
    ensures Played(g, env, draws) == Played(Ticked(g, env, draws[0]), env, draws[1..])
  {
    assert draws[0] in draws;
    TickKeepsInv(g, env, draws[0]);
  }

  /**
   * The `while runGame` loop: ticks until no bird is left, at most one per
   * draw in `draws` (the random draw each tick would use for a new pipe).
   * Running out of draws is the only other way out.
   */
  method RunGeneration(g0: Generation, env: Environment, draws: seq<int>) returns (g: Generation, ticks: nat)
    requires SpritesOk(env.sprites) && Inv(g0, env.sprites)
    requires forall d :: d in draws ==> P.Drawable(d)
    ensures g == Played(g0, env, draws)
    ensures ticks <= |draws| && (ticks < |draws| ==> |g.birds| == 0)
    ensures g0.score <= g.score <= g0.score + ticks
  {
    g, ticks := g0, 0;
    while ticks < |draws|
      invariant Inv(g, env.sprites) && ticks <= |draws|
      invariant Played(g, env, draws[ticks..]) == Played(g0, env, draws)
      invariant g0.score <= g.score <= g0.score + ticks
      decreases |draws| - ticks
    {
      assert draws[ticks] in draws;
      var g', running := Tick(g, env, draws[ticks]);
      if !running {
        return;
      }
      assert draws[ticks..][1..] == draws[ticks + 1..];
      g, ticks := g', ticks + 1;
    }
  }

  /** Networks that never answer "jump". */
  ghost predicate NeverFlaps(env: Environment)
  {
    forall net, y, dy, db :: !env.decide(net, y, dy, db)
  }

  /** No wing frame has a negative height. */
  predicate FramesHaveHeight(sp: Sprites)
  {
    forall i :: 0 <= i < |sp.birdHeights| ==> sp.birdHeights[i] >= 0
  }

  /** A bird of `main` after `k` ticks without a jump: moved and drawn `k` times. */
  function Flown(k: nat): BirdState
  {
    if k == 0 then Hatched(START_X, START_Y) else Drawn(Moved(Flown(k - 1)))
  }

  /** Every bird of the flock is that bird. */
  ghost predicate AllFlown(birds: seq<BirdState>, k: nat)
  {
    forall b :: b in birds ==> b == Flown(k)
  }

  /** Drawing changes only the frame, so such a bird flies as if only moved `k` times. */
  lemma {:induction false} FlownFalls(k: nat)
    ensures Flown(k) == MovedTimes(Hatched(START_X, START_Y), k).(imageCount := Flown(k).imageCount, image := Flown(k).image)
  {
    if k > 0 {
      FlownFalls(k - 1);
    }
  }

  /** From its 26th move on, the y of such a bird is at or below the ground line. */
  lemma FlownLands(k: nat)
    requires k >= 25
    ensures Moved(Flown(k)).y >= GROUND_Y as real
  {
    var h := MovedTimes(Hatched(START_X, START_Y), k);
    FlownFalls(k);
    assert Flown(k).y == h.y && Flown(k).velocity == h.velocity && Flown(k).tickCount == h.tickCount;
    assert Moved(Flown(k)).y == Moved(h).y;
    FreeFall(START_X, START_Y, k + 1);
  }

  /** Powers of two. */
  function Pow2(m: nat): (p: nat)
    ensures p >= 1
  {
    if m == 0 then 1 else 2 * Pow2(m - 1)
  }

  /**
   * With networks that never jump, every bird of the flock is the same bird
   * after each tick, and from the 26th tick on each tick leaves at most half
   * of the flock.
   */
  lemma NeverFlappingTick(g: Generation, env: Environment, drawn: int, k: nat)
    requires Live(g, env) && P.Drawable(drawn) && NeverFlaps(env)
    requires forall b :: b in g.birds ==> b == Flown(k)
    ensures var t := Ticked(g, env, drawn);
      && (forall b :: b in t.birds ==> b == Flown(k + 1))
      && |t.birds| <= |g.birds|
      && (k >= 25 && FramesHaveHeight(env.sprites) ==> |t.birds| <= |g.birds| / 2)
  {
    var f := Grounded(g, env);
    NeverFlappingGrounded(g, env, k);
    TickedParts(g, env, drawn);
    FlownDrawn(f.birds, k);
  }

  /** Drawing a flock of identical birds `k` ticks old, once moved, gives birds `k + 1` ticks old. */
  lemma FlownDrawn(birds: seq<BirdState>, k: nat)
    requires forall b :: b in birds ==> b == Moved(Flown(k))
    ensures forall b :: b in DrawnAll(birds) ==> b == Flown(k + 1)
  {
    forall b | b in DrawnAll(birds)
      ensures b == Flown(k + 1)
    {
      var i :| 0 <= i < |birds| && DrawnAll(birds)[i] == b;
      assert birds[i] in birds;
    }
  }

  /**
   * With networks that never jump, the birds left after the floor check are
   * the same moved bird; from the 26th tick on at most half the flock is left.
   */
  lemma NeverFlappingGrounded(g: Generation, env: Environment, k: nat)
    requires Live(g, env) && NeverFlaps(env)
    requires forall b :: b in g.birds ==> b == Flown(k)
    ensures var f := Grounded(g, env);
      && (forall b :: b in f.birds ==> b == Moved(Flown(k)))
      && |f.birds| <= |g.birds|
      && (k >= 25 && FramesHaveHeight(env.sprites) ==> |f.birds| <= |g.birds| / 2)
  {
    var c := Cleared(g, env);
    NeverFlappingCleared(g, env, k);
    GroundedPairs(g, env);
    KeepMembers(c.birds, Retirement(OutOfBoundsFlags(c.birds, env.sprites.birdHeights)));
    if k >= 25 && FramesHaveHeight(env.sprites) {
      LandedHalves(g, env, k);
    }
  }

  /** From the 26th tick on, those birds are all out of bounds, so the floor check halves them. */
  lemma LandedHalves(g: Generation, env: Environment, k: nat)
    requires Live(g, env) && k >= 25 && FramesHaveHeight(env.sprites)
    requires forall b :: b in Cleared(g, env).birds ==> b == Moved(Flown(k))
    requires forall b :: b in Cleared(g, env).birds ==> b.image < |env.sprites.birdHeights|
    ensures |Grounded(g, env).birds| <= |g.birds| / 2
  {
    FlownLands(k);
    GroundedHalves(g, env);
    SurvivorsShrink(g.pipes, Steered3(g, env), env.collide);
  }

  /** With networks that never jump, every bird that meets the floor check is the same moved bird. */
  lemma NeverFlappingCleared(g: Generation, env: Environment, k: nat)
    requires Live(g, env) && NeverFlaps(env)
    requires forall b :: b in g.birds ==> b == Flown(k)
    ensures forall b :: b in Cleared(g, env).birds ==> b == Moved(Flown(k))
    ensures forall b :: b in Cleared(g, env).birds ==> b.image < |env.sprites.birdHeights|
  {
    var s := Steering(g, env);
    forall b | b in s
      ensures b == Moved(Flown(k))
    {
      var i :| 0 <= i < |s| && s[i] == b;
      assert g.birds[i] in g.birds;
    }
    SurvivorsKeepPairs(g.pipes, Steered3(g, env), env.collide);
    ClearedAligned(g, env);
  }

  /**
   * What the induction behind NeverFlappingGenerationEnds carries from tick to
   * tick: a flock of identical birds `k` ticks old, fewer than 2^m of them,
   * with draws enough for the ticks up to the 25th and m more.
   */
  ghost predicate Dwindling(g: Generation, env: Environment, draws: seq<int>, k: nat, m: nat)
  {
    Playable(g, env, draws) && Doomed(g.birds, env, |draws|, k, m)
  }

  /**
   * The part of Dwindling about the birds: networks that never jump, frames
   * with a height, a flock of identical birds `k` ticks old, fewer than 2^m of
   * them, and `ticks` enough for the ticks up to the 25th and m more.
   */
  ghost predicate Doomed(birds: seq<BirdState>, env: Environment, ticks: nat, k: nat, m: nat)
  {
    && NeverFlaps(env) && FramesHaveHeight(env.sprites)
    && AllFlown(birds, k)
    && |birds| < Pow2(m)
    && ticks >= (if k >= 25 then 0 else 25 - k) + m
  }

  /** Such a flock is gone by the end of the draws. */
  lemma {:induction false} FlockDwindles(g: Generation, env: Environment, draws: seq<int>, k: nat, m: nat)
    ensures Dwindling(g, env, draws, k, m) ==> Played(g, env, draws).birds == []
    decreases |draws|
  {
    var t, m' := NeverFlappingStep(g, env, draws, k, m);
    if Dwindling(g, env, draws, k, m) && |g.birds| > 0 {
      FlockDwindles(t, env, draws[1..], k + 1, m');
    }
  }

  /**
   * The count behind FlockDwindles: after a tick that kept at most the flock,
   * and at most half of it from the 26th tick on, the smaller flock is within
   * the budget of the remaining draws.
   */
  lemma NextBudget(after: nat, before: nat, k: nat, m: nat, draws: seq<int>) returns (m': nat)
    requires 0 < before < Pow2(m) && after <= before && (k >= 25 ==> after <= before / 2)
    requires |draws| >= (if k >= 25 then 0 else 25 - k) + m
    ensures after < Pow2(m') && |draws| > 0
    ensures |draws[1..]| >= (if k + 1 >= 25 then 0 else 25 - (k + 1)) + m'
  {
    if k >= 25 {
      HalfBelowPow2(before, m);
      m' := m - 1;
    } else {
      m' := m;
    }
  }

  /** The tick FlockDwindles steps over: the flock after it is still dwindling. */
  lemma NeverFlappingStep(g: Generation, env: Environment, draws: seq<int>, k: nat, m: nat) returns (t: Generation, m': nat)
    ensures Dwindling(g, env, draws, k, m) && |g.birds| > 0 ==>
      && |draws| > 0 && Dwindling(t, env, draws[1..], k + 1, m')
      && Played(t, env, draws[1..]) == Played(g, env, draws)
  {
    t, m' := g, m;
    if Dwindling(g, env, draws, k, m) && |g.birds| > 0 {
      PlayedStep(g, env, draws);
      t := Ticked(g, env, draws[0]);
      NeverFlappingTick(g, env, draws[0], k);
      m' := NextBudget(|t.birds|, |g.birds|, k, m, draws);
      assert forall d :: d in draws[1..] ==> d in draws;
    }
  }

  lemma HalfBelowPow2(n: nat, m: nat)
    requires n < Pow2(m) && n > 0
    ensures m > 0 && n / 2 < Pow2(m - 1)
  {
  }

  /**
   * A population of fewer than 2^m birds, as `main` sets it up, whose networks
   * never answer "jump", is gone after at most 25 + m ticks. The y of every
   * bird reaches the ground line on its 26th move (NeverJumpingBirdLands), but from
   * then on each floor check removes only every other bird (GroundedHalves),
   * so the last ones leave about log2 of the population's size ticks later.
   */
  lemma NeverFlappingGenerationEnds(g0: Generation, env: Environment, draws: seq<int>, m: nat)
    requires SpritesOk(env.sprites) && Inv(g0, env.sprites) && (forall d :: d in draws ==> P.Drawable(d))
    requires NeverFlaps(env) && FramesHaveHeight(env.sprites)
    requires forall b :: b in g0.birds ==> b == Hatched(START_X, START_Y)
    requires |g0.birds| < Pow2(m) && |draws| >= 25 + m
    ensures Played(g0, env, draws).birds == []
  {
    assert AllFlown(g0.birds, 0);
    FlockDwindles(g0, env, draws, 0, m);
  }
}
