/**
 * One pass of the body of `while runGame` in `main` of flappy_bird_AI.py,
 * first as a function of the state before it (`Ticked`, built from the
 * pieces below, one per phase of the body), then as the method that runs
 * the phases of GenerationLoop one after the other (`Tick`), and the
 * generation as the loop of ticks (`RunGeneration`).
 */
module GameTick {
  import opened Lists
  import opened BirdKinematics
  import P = PipeGeometry
  import BaseScroller
  import opened GenerationLoop

  /** A tick that does not stop at once: the state holds and a bird is left. */
  predicate Live(g: Generation, env: Environment)
  {
    SpritesOk(env.sprites) && Inv(g, env.sprites) && |g.birds| > 0
  }

  /** Every bird after its `move` and, if its network says so, `jump`. */
  function Steering(g: Generation, env: Environment): (s: seq<BirdState>)
    requires Live(g, env)
    ensures |s| == |g.birds|
  {
    var pipe := g.pipes[SensedPipe(g.birds, g.pipes, env.sprites.pipeWidth)];
    seq(|g.birds|, i requires 0 <= i < |g.birds| => Steered(g.birds[i], g.nets[i], pipe, env.decide))
  }

  /** The flock that meets the pipes. */
  function Steered3(g: Generation, env: Environment): (f: Flock)
    requires Live(g, env)
    ensures InLine(f)
  {
    Flock(Steering(g, env), g.nets, g.ge)
  }

  /** The flock left after the loop over the pipes. */
  ghost function Cleared(g: Generation, env: Environment): (f: Flock)
    requires Live(g, env)
    ensures InLine(f)
  {
    Survivors(g.pipes, Steered3(g, env), env.collide)
  }

  /** The pipes after the loop over the pipes: moved, and marked passed where a bird got past them. */
  ghost function MovedPipes(pipes: seq<P.PipeState>, f: Flock, collide: (int, int, int, BirdState) -> bool): (m: seq<P.PipeState>)
    requires InLine(f)
    ensures |m| == |pipes|
  {
    seq(|pipes|, k requires 0 <= k < |pipes| =>
      P.Scrolled(pipes[k]).(passed := pipes[k].passed || PassedBy(pipes[k], Survivors(pipes[..k], f, collide).birds, collide)))
  }

  function OffscreenFlags(pipes: seq<P.PipeState>, pipeWidth: int): (c: seq<bool>)
    ensures |c| == |pipes|
  {
    seq(|pipes|, k requires 0 <= k < |pipes| => P.Offscreen(pipes[k], pipeWidth))
  }

  /** `addPipe`: some pipe became passed during this tick. */
  ghost predicate Scored(g: Generation, env: Environment): (s: bool)
    requires Live(g, env)
    ensures s <==> Last(g.pipes).x < START_X
                   && |Survivors(g.pipes[..|g.pipes| - 1], Steered3(g, env), env.collide).birds| > 0
  {
    var moved := MovedPipes(g.pipes, Steered3(g, env), env.collide);
    OnlyNewestFlips(g.pipes, moved);
    NewestPassed(g, env);
    exists k :: 0 <= k < |g.pipes| && !g.pipes[k].passed && moved[k].passed
  }

  /** The fitness of every genome after the tick. */
  ghost function TickFitness(g: Generation, env: Environment): (f: seq<real>)
    requires Live(g, env)
    ensures |f| == |g.fitness|
  {
    var cleared := Cleared(g, env);
    var charged := Charged(Raised(g.fitness, g.ge, SURVIVAL_BONUS), g.ge, cleared.ge, COLLISION_PENALTY);
    if Scored(g, env) then Raised(charged, cleared.ge, PASS_BONUS) else charged
  }

  /** The pipes after the tick: moved, a new one appended when scored, the offscreen ones removed. */
  ghost function TickPipes(g: Generation, env: Environment, drawn: int): (p: seq<P.PipeState>)
    requires Live(g, env) && P.Drawable(drawn)
    ensures |p| <= |g.pipes| + (if Scored(g, env) then 1 else 0)
  {
    var moved := MovedPipes(g.pipes, Steered3(g, env), env.collide);
    var offscreen := OffscreenFlags(g.pipes, env.sprites.pipeWidth);
    if Scored(g, env) then
      Keep(moved + [P.Placed(P.SPAWN_X, drawn, env.sprites.pipeTopHeight)], offscreen + [false])
    else
      Keep(moved, offscreen)
  }

  /** Every bird of `birds` has the source's x and sane kinematics. */
  predicate Aligned(birds: seq<BirdState>)
  {
    forall b :: b in birds ==> b.x == START_X && Sane(b)
  }

  lemma SteeringAligned(g: Generation, env: Environment)
    requires Live(g, env)
    ensures Aligned(Steering(g, env))
  {
    var s := Steering(g, env);
    forall b | b in s
      ensures b.x == START_X && Sane(b)
    {
      var i :| 0 <= i < |s| && s[i] == b;
      assert g.birds[i] in g.birds;
      MoveKeepsSane(g.birds[i]);
      MoveKeepsSane(Moved(g.birds[i]));
    }
  }

  lemma {:induction false} ClearedAligned(g: Generation, env: Environment)
    requires Live(g, env)
    ensures Aligned(Cleared(g, env).birds)
    ensures Distinct(Cleared(g, env).ge) && (forall id :: id in Cleared(g, env).ge ==> id in g.ge)
    ensures Cleared(g, env).nets == Cleared(g, env).ge
    ensures InStep(Cleared(g, env).birds, Cleared(g, env).ge, Steering(g, env), g.ge)
  {
    SteeringAligned(g, env);
    SurvivorsKeepPairs(g.pipes, Steered3(g, env), env.collide);
  }

  /** The flock after the floor check, before `draw`. */
  ghost function Grounded(g: Generation, env: Environment): (f: Flock)
    requires Live(g, env)
    ensures InLine(f)
  {
    var cleared := Cleared(g, env);
    ClearedAligned(g, env);
    var r := Retirement(OutOfBoundsFlags(cleared.birds, env.sprites.birdHeights));
    KeepSameLength(cleared.birds, cleared.ge, r);
    KeepSameLength(cleared.nets, cleared.ge, r);
    Flock(Keep(cleared.birds, r), Keep(cleared.nets, r), Keep(cleared.ge, r))
  }

  function DrawnAll(birds: seq<BirdState>): (d: seq<BirdState>)
    ensures |d| == |birds|
  {
    seq(|birds|, i requires 0 <= i < |birds| => Drawn(birds[i]))
  }

  /** The state after one tick that does not stop at once. */
  ghost function Ticked(g: Generation, env: Environment, drawn: int): (t: Generation)
    requires Live(g, env) && P.Drawable(drawn)
    ensures |t.birds| == |t.nets| == |t.ge| && |t.fitness| == |g.fitness|
    ensures t.score == g.score || t.score == g.score + 1
  {
    var f := Grounded(g, env);
    Generation(DrawnAll(f.birds), f.nets, f.ge, TickFitness(g, env), TickPipes(g, env, drawn),
               BaseScroller.Scrolled(g.base, env.sprites.baseWidth),
               if Scored(g, env) then g.score + 1 else g.score)
  }

  lemma SteeringIs(g: Generation, env: Environment, birds: seq<BirdState>)
    requires Live(g, env) && |birds| == |g.birds|
    requires forall i :: 0 <= i < |g.birds| ==>
      birds[i] == Steered(g.birds[i], g.nets[i], g.pipes[SensedPipe(g.birds, g.pipes, env.sprites.pipeWidth)], env.decide)
    ensures birds == Steering(g, env)
  {
  }

  lemma MovedPipesIs(pipes: seq<P.PipeState>, f: Flock, pipeWidth: int, collide: (int, int, int, BirdState) -> bool,
                     pipes': seq<P.PipeState>, offscreen: seq<bool>)
    requires InLine(f) && |pipes'| == |offscreen| == |pipes|
    requires forall k :: 0 <= k < |pipes| ==>
      Tracked(pipes[k], pipes'[k], offscreen[k], Survivors(pipes[..k], f, collide).birds, pipeWidth, collide)
    ensures pipes' == MovedPipes(pipes, f, collide)
    ensures offscreen == OffscreenFlags(pipes, pipeWidth)
  {
  }

  lemma TickedParts(g: Generation, env: Environment, drawn: int)
    requires Live(g, env) && P.Drawable(drawn)
    ensures var f := Grounded(g, env); var t := Ticked(g, env, drawn);
      && t.birds == DrawnAll(f.birds) && t.nets == f.nets && t.ge == f.ge
      && t.fitness == TickFitness(g, env) && t.pipes == TickPipes(g, env, drawn)
      && t.base == BaseScroller.Scrolled(g.base, env.sprites.baseWidth)
      && t.score == if Scored(g, env) then g.score + 1 else g.score
  {
  }

  /**
   * The part of a tick that deals with the pipes: pick the sensed pipe, move
   * and steer every bird, run the loop over the pipes, score and spawn a
   * pipe if one was passed, and drop the offscreen pipes.
   */
  method PlayPipes(g: Generation, env: Environment, drawn: int)
    returns (f: Flock, fitness: seq<real>, pipes: seq<P.PipeState>, addPipe: bool)
    requires Live(g, env) && P.Drawable(drawn)
    ensures f == Cleared(g, env)
    ensures fitness == TickFitness(g, env)
    ensures pipes == TickPipes(g, env, drawn)
    ensures addPipe == Scored(g, env)
  {
    var sp := env.sprites;
    var pipeInd := SensedPipe(g.birds, g.pipes, sp.pipeWidth);
    var birds1, fitness1 := MoveAndSteer(g.birds, g.nets, g.ge, g.fitness, g.pipes[pipeInd], env.decide);
    SteeringIs(g, env, birds1);
    var pipes2, birds2, nets2, ge2, fitness2, offscreen;
    pipes2, birds2, nets2, ge2, fitness2, addPipe, offscreen :=
      CheckPipes(g.pipes, birds1, g.nets, g.ge, fitness1, sp.pipeWidth, env.collide);
    MovedPipesIs(g.pipes, Steered3(g, env), sp.pipeWidth, env.collide, pipes2, offscreen);
    f := Flock(birds2, nets2, ge2);
    ClearedAligned(g, env);
    fitness := fitness2;
    var removed := offscreen;
    if addPipe {
      fitness := Reward(fitness2, ge2);
      pipes2 := pipes2 + [P.Placed(P.SPAWN_X, drawn, sp.pipeTopHeight)];
      removed := removed + [false];
    }
    pipes := DropPipes(pipes2, removed);
  }

  /**
   * One pass of `while runGame`: stop when no bird is left; otherwise play
   * the tick. `drawn` is the random draw of the pipe spawned
   * if a pipe is passed.
   */
  method Tick(g: Generation, env: Environment, drawn: int) returns (g': Generation, running: bool)
    requires SpritesOk(env.sprites) && Inv(g, env.sprites) && P.Drawable(drawn)
    ensures running <==> |g.birds| > 0
    ensures !running ==> g' == g
    ensures running ==> g' == Ticked(g, env, drawn)
    ensures Inv(g', env.sprites)
    ensures |g'.birds| <= |g.birds| && (forall id :: id in g'.ge ==> id in g.ge)
    ensures g.score <= g'.score <= g.score + 1
  {
    if |g.birds| == 0 {
      return g, false;
    }
    g' := Play(g, env, drawn);
    TickedBounds(g, env, drawn);
    running := true;
  }

  /** A tick that goes on: the pipe part, the floor check, the ground, the drawing. */
  method Play(g: Generation, env: Environment, drawn: int) returns (g': Generation)
    requires Live(g, env) && P.Drawable(drawn)
    ensures g' == Ticked(g, env, drawn)
  {
    var f, fitness, pipes, addPipe := PlayPipes(g, env, drawn);
    ClearedAligned(g, env);
    var birds, nets, ge := RetireOutOfBounds(f.birds, f.nets, f.ge, env.sprites.birdHeights);
    var base := BaseScroller.Scrolled(g.base, env.sprites.baseWidth);
    birds := SelectFrames(birds);
    g' := Generation(birds, nets, ge, fitness, pipes, base, if addPipe then g.score + 1 else g.score);
    TickedParts(g, env, drawn);
  }

  lemma {:induction false} SurvivorsAligned(pipes: seq<P.PipeState>, f: Flock, collide: (int, int, int, BirdState) -> bool)
    requires InLine(f) && Distinct(f.ge) && Aligned(f.birds)
    ensures Aligned(Survivors(pipes, f, collide).birds)
  {
    SurvivorsKeepPairs(pipes, f, collide);
  }

  /**
   * the birds and some bird survives the earlier pipes for its inner loop to look at.
   * the birds and some bird is still in the game when its inner loop runs.
   */
  lemma NewestPassed(g: Generation, env: Environment)
    requires Live(g, env)
    ensures var n := |g.pipes| - 1;
      MovedPipes(g.pipes, Steered3(g, env), env.collide)[n].passed
      <==> Last(g.pipes).x < START_X && |Survivors(g.pipes[..n], Steered3(g, env), env.collide).birds| > 0
  {
    var n := |g.pipes| - 1;
    var f := Steered3(g, env);
    var before := Survivors(g.pipes[..n], f, env.collide).birds;
    SteeringAligned(g, env);
    SurvivorsAligned(g.pipes[..n], f, env.collide);
    PassedByAligned(g.pipes[n], before, env.collide);
    assert MovedPipes(g.pipes, f, env.collide)[n].passed == (g.pipes[n].passed || PassedBy(g.pipes[n], before, env.collide));
  }

  /** When every pipe but the newest is passed, only the newest can become passed. */
  lemma OnlyNewestFlips(pipes: seq<P.PipeState>, moved: seq<P.PipeState>)
    requires NewestPipeAhead(pipes) && |moved| == |pipes|
    ensures (exists k :: 0 <= k < |pipes| && !pipes[k].passed && moved[k].passed) <==> Last(moved).passed
  {
    var n := |pipes| - 1;
    if exists k :: 0 <= k < |pipes| && !pipes[k].passed && moved[k].passed {
      var k :| 0 <= k < |pipes| && !pipes[k].passed && moved[k].passed;
      assert k == n;
    }
    if Last(moved).passed {
      assert !pipes[n].passed && moved[n].passed;
    }
  }

  /** Only the newest pipe can become passed, so a tick scores exactly when it does. */
  lemma ScoredIsNewest(g: Generation, env: Environment)
    requires Live(g, env)
    ensures Scored(g, env) <==> MovedPipes(g.pipes, Steered3(g, env), env.collide)[|g.pipes| - 1].passed
  {
    OnlyNewestFlips(g.pipes, MovedPipes(g.pipes, Steered3(g, env), env.collide));
  }

  /**
   * The score goes up by one exactly when the newest pipe is left of the
   * birds at x = START_X and some bird is left to pass it; birds that survive
   * the whole loop over the pipes are enough.
   */
  lemma ScoreCountsNewestPipe(g: Generation, env: Environment, drawn: int)
    requires Live(g, env) && P.Drawable(drawn)
    ensures var n := |g.pipes| - 1;
      Ticked(g, env, drawn).score == g.score + 1
      <==> Last(g.pipes).x < START_X && |Survivors(g.pipes[..n], Steered3(g, env), env.collide).birds| > 0
    ensures Ticked(g, env, drawn).score != g.score ==> Ticked(g, env, drawn).score == g.score + 1
    ensures Last(g.pipes).x < START_X && |Cleared(g, env).birds| > 0 ==> Ticked(g, env, drawn).score == g.score + 1
  {
    TickedParts(g, env, drawn);
    NewestPassed(g, env);
    ScoredIsNewest(g, env);
    var n := |g.pipes| - 1;
    assert g.pipes[..n] == g.pipes[..|g.pipes| - 1];
  }

  /** Dropping pipes other than the newest keeps the pipes in order behind it. */
  lemma AheadAfterDrop(pipes: seq<P.PipeState>, dropped: seq<bool>)
    requires |dropped| == |pipes| && NewestPipeAhead(pipes) && !Last(dropped)
    ensures NewestPipeAhead(Keep(pipes, dropped))
  {
    var n := |pipes| - 1;
    var kept := Keep(pipes, dropped);
    assert kept == Keep(pipes[..n], dropped[..n]) + [pipes[n]];
    KeepMembers(pipes[..n], dropped[..n]);
    forall k | 0 <= k < |kept| - 1
      ensures kept[k].passed
    {
      assert kept[k] in Keep(pipes[..n], dropped[..n]);
    }
  }

  /** The flock left after the pipes is no larger than the one that met the newest pipe. */
  lemma ClearedWithinNewest(g: Generation, env: Environment)
    requires Live(g, env)
    ensures |Cleared(g, env).birds| <= |Survivors(g.pipes[..|g.pipes| - 1], Steered3(g, env), env.collide).birds|
  {
  }

  /** The loop over the pipes moves every pipe and never clears a passed mark. */
  lemma MovedPipesShape(pipes: seq<P.PipeState>, f: Flock, collide: (int, int, int, BirdState) -> bool)
    requires InLine(f)
    ensures var moved := MovedPipes(pipes, f, collide);
      forall k :: 0 <= k < |pipes| ==>
        moved[k] == P.Scrolled(pipes[k]).(passed := moved[k].passed) && (pipes[k].passed ==> moved[k].passed)
  {
  }

  /**
   * The pipe list at the end of a tick ends in an unpassed pipe ahead of the
   * birds, given how the pipes were moved, whether the newest one was passed
   * and, if it was not, that it was still ahead of the birds.
   */
  lemma AheadAfterTick(pipes: seq<P.PipeState>, moved: seq<P.PipeState>, offscreen: seq<bool>, pipeWidth: int,
                       spawned: P.PipeState, scored: bool)
    requires NewestPipeAhead(pipes) && |moved| == |pipes| && pipeWidth > 0
    requires forall k :: 0 <= k < |pipes| ==>
      moved[k] == P.Scrolled(pipes[k]).(passed := moved[k].passed) && (pipes[k].passed ==> moved[k].passed)
    requires offscreen == OffscreenFlags(pipes, pipeWidth)
    requires scored == Last(moved).passed
    requires !scored ==> Last(pipes).x >= START_X
    requires spawned.x == P.SPAWN_X && !spawned.passed
    ensures NewestPipeAhead(if scored then Keep(moved + [spawned], offscreen + [false]) else Keep(moved, offscreen))
  {
    var n := |pipes| - 1;
    if scored {
      var grown := moved + [spawned];
      forall k | 0 <= k < |grown| - 1
        ensures grown[k].passed
      {
        assert grown[k] == moved[k];
        if k < n {
          assert pipes[k].passed;
        }
      }
      AheadAfterDrop(grown, offscreen + [false]);
    } else {
      forall k | 0 <= k < n
        ensures moved[k].passed
      {
        assert pipes[k].passed;
      }
      AheadAfterDrop(moved, offscreen);
    }
  }

  /** While a bird is left, the pipes after a tick again end in an unpassed pipe ahead of the birds. */
  lemma TickKeepsPipesAhead(g: Generation, env: Environment, drawn: int)
    requires Live(g, env) && P.Drawable(drawn)
    requires |Cleared(g, env).birds| > 0
    ensures NewestPipeAhead(TickPipes(g, env, drawn))
  {
    var moved := MovedPipes(g.pipes, Steered3(g, env), env.collide);
    NewestPassed(g, env);
    ScoredIsNewest(g, env);
    ClearedWithinNewest(g, env);
    MovedPipesShape(g.pipes, Steered3(g, env), env.collide);
    AheadAfterTick(g.pipes, moved, OffscreenFlags(g.pipes, env.sprites.pipeWidth), env.sprites.pipeWidth,
                   P.Placed(P.SPAWN_X, drawn, env.sprites.pipeTopHeight), Scored(g, env));
  }

  /**
   * After the floor check the genomes left are distinct genomes of the tick's
   * start, each still paired with its own network and with the bird it
   * steered, and no bird was added.
   */
  lemma GroundedPairs(g: Generation, env: Environment)
    requires Live(g, env)
    ensures var f := Grounded(g, env);
      && |f.birds| <= |g.birds|
      && Distinct(f.ge) && (forall id :: id in f.ge ==> id in g.ge)
      && f.nets == f.ge
      && Aligned(f.birds)
      && |f.birds| <= |Cleared(g, env).birds|
      && InStep(f.birds, f.ge, Steering(g, env), g.ge)
  {
    var c := Cleared(g, env);
    ClearedAligned(g, env);
    var r := Retirement(OutOfBoundsFlags(c.birds, env.sprites.birdHeights));
    KeepDistinct(c.ge, r);
    KeepMembers(c.ge, r);
    KeepMembers(c.birds, r);
    KeepInStep(c.birds, c.ge, r);
    InStepTrans(Keep(c.birds, r), Keep(c.ge, r), c.birds, c.ge, Steering(g, env), g.ge);
    SurvivorsShrink(g.pipes, Steered3(g, env), env.collide);
  }

  lemma DrawnAligned(birds: seq<BirdState>)
    requires Aligned(birds)
    ensures Aligned(DrawnAll(birds))
  {
    forall b | b in DrawnAll(birds)
      ensures b.x == START_X && Sane(b)
    {
      var i :| 0 <= i < |birds| && DrawnAll(birds)[i] == b;
      assert birds[i] in birds;
      MoveKeepsSane(birds[i]);
    }
  }

  /** A tick keeps the state of the generation: the loop can go on from where it ends. */
  lemma TickKeepsInv(g: Generation, env: Environment, drawn: int)
    requires Live(g, env) && P.Drawable(drawn)
    ensures Inv(Ticked(g, env, drawn), env.sprites)
  {
    var t := Ticked(g, env, drawn);
    TickedParts(g, env, drawn);
    GroundedPairs(g, env);
    DrawnAligned(Grounded(g, env).birds);
    if |t.birds| > 0 {
      TickKeepsPipesAhead(g, env, drawn);
    }
  }

  /** The pipe checks never add a bird. */
  lemma {:induction false} SurvivorsShrink(pipes: seq<P.PipeState>, f: Flock, collide: (int, int, int, BirdState) -> bool)
    requires InLine(f)
    ensures |Survivors(pipes, f, collide).birds| <= |f.birds|
    decreases |pipes|
  {
    if pipes != [] {
      SurvivorsShrink(pipes[..|pipes| - 1], f, collide);
    }
  }

  /** A tick keeps the state, adds no bird and no genome, and scores at most once. */
  lemma TickedBounds(g: Generation, env: Environment, drawn: int)
    requires Live(g, env) && P.Drawable(drawn)
    ensures var t := Ticked(g, env, drawn);
      && Inv(t, env.sprites)
      && |t.birds| <= |g.birds| && (forall id :: id in t.ge ==> id in g.ge)
      && g.score <= t.score <= g.score + 1
  {
    TickKeepsInv(g, env, drawn);
    TickedParts(g, env, drawn);
    GroundedPairs(g, env);
    ScoreCountsNewestPipe(g, env, drawn);
  }

  /**
   * What a tick does to the fitness of each genome: nothing to genomes no
   * longer in the game; SURVIVAL_BONUS to the others, less COLLISION_PENALTY
   * for those a pipe check removed, and PASS_BONUS on top for those left
   * after the pipe checks when a pipe was passed.
   */
  lemma TickFitnessAccounts(g: Generation, env: Environment, drawn: int)
    requires Live(g, env) && P.Drawable(drawn)
    ensures var t := Ticked(g, env, drawn); var cleared := Cleared(g, env).ge;
      && |t.fitness| == |g.fitness|
      && forall id :: 0 <= id < |g.fitness| ==>
        t.fitness[id] ==
          if id !in g.ge then g.fitness[id]
          else if id !in cleared then g.fitness[id] + SURVIVAL_BONUS - COLLISION_PENALTY
          else if Scored(g, env) then g.fitness[id] + SURVIVAL_BONUS + PASS_BONUS
          else g.fitness[id] + SURVIVAL_BONUS
  {
    TickedParts(g, env, drawn);
    ClearedAligned(g, env);
  }

  /**
   * Every bird left after a tick is the bird its genome had at the start of
   * the tick, moved, steered by its own network and drawn; every genome left
   * keeps its own network.
   */
  lemma TickBirdsFollowGenomes(g: Generation, env: Environment, drawn: int)
    requires Live(g, env) && P.Drawable(drawn)
    ensures var t := Ticked(g, env, drawn);
      && |t.birds| == |t.ge| <= |g.birds|
      && t.nets == t.ge
      && (forall id :: id in t.ge ==> id in g.ge)
      && forall i, j :: 0 <= i < |t.ge| && 0 <= j < |g.ge| && t.ge[i] == g.ge[j] ==>
           t.birds[i] == Drawn(Steering(g, env)[j])
    ensures forall j :: 0 <= j < |g.birds| ==>
      Steering(g, env)[j] ==
        Steered(g.birds[j], g.nets[j], g.pipes[SensedPipe(g.birds, g.pipes, env.sprites.pipeWidth)], env.decide)
  {
    var f := Grounded(g, env);
    TickedParts(g, env, drawn);
    GroundedPairs(g, env);
    DrawnInStep(f.birds, f.ge, Steering(g, env), g.ge);
  }

  lemma DrawnInStep(birds: seq<BirdState>, ids: seq<nat>, steered: seq<BirdState>, ge: seq<nat>)
    requires |birds| == |ids| && |steered| == |ge| && InStep(birds, ids, steered, ge)
    ensures forall i, j :: 0 <= i < |ids| && 0 <= j < |ge| && ids[i] == ge[j] ==> DrawnAll(birds)[i] == Drawn(steered[j])
  {
  }

  /**
   * The pipes after a tick are the moved pipes that were not offscreen and,
   * when the tick scored, the new pipe at SPAWN_X, which comes last.
   */
  lemma TickPipesAccount(g: Generation, env: Environment, drawn: int)
    requires Live(g, env) && P.Drawable(drawn)
    ensures var t := Ticked(g, env, drawn);
      var moved := MovedPipes(g.pipes, Steered3(g, env), env.collide);
      var spawned := P.Placed(P.SPAWN_X, drawn, env.sprites.pipeTopHeight);
      && (forall p :: p in t.pipes ==>
            (Scored(g, env) && p == spawned) ||
            exists k :: 0 <= k < |g.pipes| && !P.Offscreen(g.pipes[k], env.sprites.pipeWidth) && p == moved[k])
      && (forall k :: 0 <= k < |g.pipes| && !P.Offscreen(g.pipes[k], env.sprites.pipeWidth) ==> moved[k] in t.pipes)
      && (Scored(g, env) ==> |t.pipes| > 0 && Last(t.pipes) == spawned)
  {
    var moved := MovedPipes(g.pipes, Steered3(g, env), env.collide);
    var spawned := P.Placed(P.SPAWN_X, drawn, env.sprites.pipeTopHeight);
    TickedParts(g, env, drawn);
    KeepSpawned(moved, OffscreenFlags(g.pipes, env.sprites.pipeWidth), spawned, Scored(g, env));
  }

  /**
   * The pipe list kept by the pass over `moved` with flags `off`, with
   * `spawned` appended first when `sc` holds.
   */
  lemma KeepSpawned<T>(moved: seq<T>, off: seq<bool>, spawned: T, sc: bool)
    requires |off| == |moved|
    ensures var kept := if sc then Keep(moved + [spawned], off + [false]) else Keep(moved, off);
      && (forall p :: p in kept ==> (sc && p == spawned) || exists k :: 0 <= k < |moved| && !off[k] && p == moved[k])
      && (forall k :: 0 <= k < |moved| && !off[k] ==> moved[k] in kept)
      && (sc ==> |kept| > 0 && Last(kept) == spawned)
  {
    var xs := if sc then moved + [spawned] else moved;
    var d := if sc then off + [false] else off;
    var kept := Keep(xs, d);
    forall p | p in kept
      ensures (sc && p == spawned) || exists k :: 0 <= k < |moved| && !off[k] && p == moved[k]
    {
      KeepFrom(xs, d, p);
      var j :| 0 <= j < |xs| && !d[j] && xs[j] == p;
      if j < |moved| {
        assert d[j] == off[j] && xs[j] == moved[j];
      }
    }
    forall k | 0 <= k < |moved| && !off[k]
      ensures moved[k] in kept
    {
      assert xs[k] == moved[k] && d[k] == off[k];
      KeepRetains(xs, d, k);
    }
    if sc {
      KeepLast(xs, d);
    }
  }

  /**
   * When every bird left after the pipe checks is out of bounds, the floor
   * check still removes only every other one of them, since the bird that
   * slides into a popped slot is skipped: half of them, rounded down, are left.
   */
  lemma GroundedHalves(g: Generation, env: Environment)
    requires Live(g, env)
    requires forall b :: b in Cleared(g, env).birds ==>
      b.image < |env.sprites.birdHeights| && OutOfBounds(b, env.sprites.birdHeights)
    ensures |Grounded(g, env).birds| == |Cleared(g, env).birds| / 2
  {
    var c := Cleared(g, env);
    ClearedAligned(g, env);
    var cond := OutOfBoundsFlags(c.birds, env.sprites.birdHeights);
    forall j | 0 <= j < |cond|
      ensures cond[j]
    {
      assert c.birds[j] in c.birds;
    }
    RetirementHalves(c.birds, cond);
  }
}
