/**
 * One generation of `main` in flappy_bird_AI.py: the set-up of the birds,
 * networks and genomes, and the body of the `while runGame` loop, one tick at
 * a time.
 *
 * The lists `birds`, `neural_nets` and `ge` are sequences; a genome is known
 * by its position in the population handed to `main`, its network by the same
 * number, and `fitness[id]` is the fitness field of genome `id` (it outlives
 * the genome's removal from `ge`). Every Bird and Pipe object sits in exactly
 * one list and nothing else refers to it, so the tick holds each of them by
 * value (the BirdState and PipeState the classes of the other modules expose).
 *
 * The pixel-mask test `Pipe.collide` and the network's answer are parameters
 * of the tick: `collide(pipe.x, pipe.top, pipe.bottom, bird)` and
 * `decide(net, y, |y - height|, |y - bottom|)`, the latter standing for
 * `activate(...)[0] > 0.5`.
 */
module GenerationLoop {
  import opened Lists
  import opened BirdKinematics
  import P = PipeGeometry
  import BaseScroller

  const START_X: int := 230
  const START_Y: real := 350.0
  const GROUND_Y: int := 730
  /** Fitness every surviving bird earns per tick. */
  const SURVIVAL_BONUS: real := 0.1
  /** Fitness a bird loses when it hits a pipe. */
  const COLLISION_PENALTY: real := 1.0
  /** Fitness every remaining bird earns when a pipe is passed. */
  const PASS_BONUS: real := 5.0

  /** Sizes of the sprites, which the source reads off its images. */
  datatype Sprites = Sprites(
    birdHeights: seq<int>,   // height of each of the three wing frames
    pipeWidth: int,
    pipeTopHeight: int,
    baseWidth: int)

  predicate SpritesOk(sp: Sprites)
  {
    |sp.birdHeights| == 3 && sp.pipeWidth > 0 && sp.baseWidth > BaseScroller.VEL
  }

  datatype Environment = Environment(
    sprites: Sprites,
    collide: (int, int, int, BirdState) -> bool,
    decide: (nat, real, real, real) -> bool)

  /** The local state of `main` that survives from one tick to the next. */
  datatype Generation = Generation(
    birds: seq<BirdState>,
    nets: seq<nat>,
    ge: seq<nat>,
    fitness: seq<real>,
    pipes: seq<P.PipeState>,
    base: BaseScroller.BaseState,
    score: int)

  /**
   * Every pipe but the newest has been passed; the newest has not, and it is
   * not yet behind the birds by more than one step, so it can still be
   * passed and cannot be offscreen.
   */
  predicate NewestPipeAhead(pipes: seq<P.PipeState>)
  {
    && |pipes| > 0 && !Last(pipes).passed && Last(pipes).x >= START_X - P.VEL
    && forall k :: 0 <= k < |pipes| - 1 ==> pipes[k].passed
  }

  /** What holds between two ticks of a generation. */
  predicate Inv(g: Generation, sp: Sprites)
  {
    && |g.birds| == |g.nets| == |g.ge|
    && g.nets == g.ge
    && Distinct(g.ge)
    && (forall id :: id in g.ge ==> id < |g.fitness|)
    && (forall b :: b in g.birds ==> b.x == START_X && Sane(b))
    && BaseScroller.Tiled(g.base, sp.baseWidth)
    && (|g.birds| > 0 ==> NewestPipeAhead(g.pipes))
  }

  /**
   * The set-up of `main`: one bird, network and zeroed fitness per genome, the
   * ground, and one pipe at x = 600 whose opening comes from `drawn`.
   */
  method Start(population: nat, sp: Sprites, drawn: int) returns (g: Generation)
    requires SpritesOk(sp) && P.Drawable(drawn)
    ensures Inv(g, sp)
    ensures |g.birds| == population && g.ge == Ids(population)
    ensures forall b :: b in g.birds ==> b == Hatched(START_X, START_Y)
    ensures |g.fitness| == population && forall id :: 0 <= id < population ==> g.fitness[id] == 0.0
    ensures g.pipes == [P.Placed(P.SPAWN_X, drawn, sp.pipeTopHeight)] && g.score == 0
    ensures g.base == BaseScroller.Laid(GROUND_Y, sp.baseWidth)
  {
    var birds, nets, ge, fitness := [], [], [], [];
    for id := 0 to population
      invariant |birds| == |nets| == |ge| == |fitness| == id
      invariant ge == nets == Ids(id)
      invariant forall b :: b in birds ==> b == Hatched(START_X, START_Y)
      invariant forall i :: 0 <= i < id ==> fitness[i] == 0.0
    {
      nets := nets + [id];
      birds := birds + [Hatched(START_X, START_Y)];
      fitness := fitness + [0.0];
      ge := ge + [id];
    }
    g := Generation(birds, nets, ge, fitness, [P.Placed(P.SPAWN_X, drawn, sp.pipeTopHeight)],
                    BaseScroller.Laid(GROUND_Y, sp.baseWidth), 0);
  }

  /** The genome numbers 0 .. n-1 in order. */
  function Ids(n: nat): (s: seq<nat>)
    ensures |s| == n && Distinct(s)
    ensures forall i :: 0 <= i < n ==> s[i] == i
  {
    seq(n, i requires 0 <= i => i)
  }

  /**
   * Which pipe the networks sense: the second one when there is one and the
   * first bird is already past the right edge of the first; otherwise the first.
   */
  function SensedPipe(birds: seq<BirdState>, pipes: seq<P.PipeState>, pipeWidth: int): (i: nat)
    requires |birds| > 0 && |pipes| > 0
    ensures i < |pipes|
    ensures i == 1 <==> |pipes| > 1 && birds[0].x > pipes[0].x + pipeWidth
    ensures i != 1 ==> i == 0
  {
    if |pipes| > 1 && birds[0].x > pipes[0].x + pipeWidth then 1 else 0
  }

  function Abs(r: real): real
  {
    if r < 0.0 then -r else r
  }

  /**
   * A bird after `move` and, if its network says so, `jump`. The network sees
   * the moved bird; the bird stays where the move put it, and a jump only
   * sets up the next move.
   */
  function Steered(b: BirdState, net: nat, pipe: P.PipeState, decide: (nat, real, real, real) -> bool): (s: BirdState)
    ensures var m := Moved(b);
      var jump := decide(net, m.y, Abs(m.y - pipe.height as real), Abs(m.y - pipe.bottom as real));
      && s.x == b.x && s.y == m.y && s.tilt == m.tilt
      && (jump ==> s == Jumped(m))
      && (!jump ==> s == m)
  {
    var m := Moved(b);
    if decide(net, m.y, Abs(m.y - pipe.height as real), Abs(m.y - pipe.bottom as real)) then Jumped(m) else m
  }

  /** `Pipe.collide` for every bird of the list. */
  function Collisions(pipe: P.PipeState, birds: seq<BirdState>, collide: (int, int, int, BirdState) -> bool): (c: seq<bool>)
    ensures |c| == |birds|
  {
    seq(|birds|, j requires 0 <= j < |birds| => collide(pipe.x, pipe.top, pipe.bottom, birds[j]))
  }

  /** The bird touches the ground line or has flown above the screen. */
  predicate OutOfBounds(b: BirdState, birdHeights: seq<int>)
    requires b.image < |birdHeights|
  {
    b.y + birdHeights[b.image] as real >= GROUND_Y as real || b.y < 0.0
  }

  function OutOfBoundsFlags(birds: seq<BirdState>, birdHeights: seq<int>): (c: seq<bool>)
    requires forall b :: b in birds ==> b.image < |birdHeights|
    ensures |c| == |birds|
  {
    seq(|birds|, j requires 0 <= j < |birds| => OutOfBounds(birds[j], birdHeights))
  }

  /** Some bird the pass looked at, among the first `o`, is to the right of `x`. */
  ghost predicate SeenPast(x: int, birds: seq<BirdState>, r: seq<bool>, o: nat)
    requires |r| == |birds| && o <= |birds|
  {
    exists j :: 0 <= j < o && Visited(r, j) && x < birds[j].x
  }

  lemma SeenPastStep(x: int, birds: seq<BirdState>, r: seq<bool>, o: nat)
    requires |r| == |birds| && o < |birds|
    ensures SeenPast(x, birds, r, o + 1) <==> SeenPast(x, birds, r, o) || (Visited(r, o) && x < birds[o].x)
  {
    if SeenPast(x, birds, r, o + 1) && !SeenPast(x, birds, r, o) {
      var j :| 0 <= j < o + 1 && Visited(r, j) && x < birds[j].x;
      assert j == o;
    }
  }

  /** Moving on to the next visited entry adds entry `o` to the ones seen. */
  lemma SeenPastNext(x: int, birds: seq<BirdState>, r: seq<bool>, o: nat)
    requires |r| == |birds| && o < |birds| && Visited(r, o)
    ensures SeenPast(x, birds, r, NextVisit(r, o)) <==> SeenPast(x, birds, r, o) || x < birds[o].x
  {
    SeenPastStep(x, birds, r, o);
    if NextVisit(r, o) == o + 2 {
      SeenPastStep(x, birds, r, o + 1);
    }
  }

  /** Some bird the inner loop for `pipe` looks at is to the right of the pipe. */
  ghost predicate PassedBy(pipe: P.PipeState, birds: seq<BirdState>, collide: (int, int, int, BirdState) -> bool)
  {
    SeenPast(pipe.x, birds, Retirement(Collisions(pipe, birds, collide)), |birds|)
  }

  /**
   * With every bird at x = START_X the skipped birds do not matter: a pipe is
   * passed exactly when there is a bird and the pipe is left of START_X.
   */
  lemma PassedByAligned(pipe: P.PipeState, birds: seq<BirdState>, collide: (int, int, int, BirdState) -> bool)
    requires forall b :: b in birds ==> b.x == START_X
    ensures PassedBy(pipe, birds, collide) <==> |birds| > 0 && pipe.x < START_X
  {
    var r := Retirement(Collisions(pipe, birds, collide));
    if |birds| > 0 && pipe.x < START_X {
      assert Visited(r, 0) && pipe.x < birds[0].x;
    }
    if PassedBy(pipe, birds, collide) {
      var j :| 0 <= j < |birds| && Visited(r, j) && pipe.x < birds[j].x;
      assert birds[j] in birds;
    }
  }

  /** The fitness of every genome, raised by `amount` for exactly the genomes of `ids`. */
  function Raised(fitness: seq<real>, ids: seq<nat>, amount: real): (f: seq<real>)
    ensures |f| == |fitness|
  {
    seq(|fitness|, id requires 0 <= id < |fitness| => if id in ids then fitness[id] + amount else fitness[id])
  }

  /** Crediting the genomes of `ge` one at a time, in order, raises each of them once. */
  lemma CreditStep(fitness: seq<real>, ge: seq<nat>, x: nat, amount: real)
    requires x < |ge| && Distinct(ge) && ge[x] < |fitness|
    ensures var f := Raised(fitness, ge[..x], amount);
      f[ge[x] := f[ge[x]] + amount] == Raised(fitness, ge[..x + 1], amount)
  {
    assert ge[..x + 1] == ge[..x] + [ge[x]];
    assert ge[x] !in ge[..x];
  }

  /**
   * The fitness of every genome, lowered by `amount` for exactly the genomes
   * of `ge` that are not in `ge'`.
   */
  function Charged(fitness: seq<real>, ge: seq<nat>, ge': seq<nat>, amount: real): (f: seq<real>)
    ensures |f| == |fitness|
  {
    seq(|fitness|, id requires 0 <= id < |fitness| =>
      if id in ge && id !in ge' then fitness[id] - amount else fitness[id])
  }

  /**
   * The first loop of the tick: every bird moves, earns the survival bonus,
   * and jumps when its network says so, sensing the pipe `pipe`.
   */
  method MoveAndSteer(birds: seq<BirdState>, nets: seq<nat>, ge: seq<nat>, fitness: seq<real>,
                      pipe: P.PipeState, decide: (nat, real, real, real) -> bool)
    returns (birds': seq<BirdState>, fitness': seq<real>)
    requires |birds| == |nets| == |ge| && Distinct(ge) && (forall id :: id in ge ==> id < |fitness|)
    ensures |birds'| == |birds|
    ensures forall i :: 0 <= i < |birds| ==> birds'[i] == Steered(birds[i], nets[i], pipe, decide)
    ensures fitness' == Raised(fitness, ge, SURVIVAL_BONUS)
  {
    birds', fitness' := birds, fitness;
    assert fitness == Raised(fitness, ge[..0], SURVIVAL_BONUS);
    for x := 0 to |birds|
      invariant |birds'| == |birds|
      invariant forall i :: 0 <= i < x ==> birds'[i] == Steered(birds[i], nets[i], pipe, decide)
      invariant forall i :: x <= i < |birds| ==> birds'[i] == birds[i]
      invariant fitness' == Raised(fitness, ge[..x], SURVIVAL_BONUS)
    {
      var bird := Moved(birds'[x]);
      assert ge[x] in ge;
      CreditStep(fitness, ge, x, SURVIVAL_BONUS);
      fitness' := fitness'[ge[x] := fitness'[ge[x]] + SURVIVAL_BONUS];
      if decide(nets[x], bird.y, Abs(bird.y - pipe.height as real), Abs(bird.y - pipe.bottom as real)) {
        bird := Jumped(bird);
      }
      birds' := birds'[x := bird];
    }
    assert ge[..|birds|] == ge;
  }

  /**
   * The inner loop over the birds for one pipe: a bird that hits the pipe loses
   * COLLISION_PENALTY and is popped from all three lists (so the next bird is
   * not looked at for this pipe), and the pipe is marked passed when a bird
   * the loop looks at, popped or not, is to its right.
   */
  method CollideAndPass(pipe: P.PipeState, birds: seq<BirdState>, nets: seq<nat>, ge: seq<nat>, fitness: seq<real>,
                        collide: (int, int, int, BirdState) -> bool)
    returns (pipe': P.PipeState, birds': seq<BirdState>, nets': seq<nat>, ge': seq<nat>, fitness': seq<real>, flagged: bool)
    requires |birds| == |nets| == |ge| && Distinct(ge) && (forall id :: id in ge ==> id < |fitness|)
    ensures var r := Retirement(Collisions(pipe, birds, collide));
      birds' == Keep(birds, r) && nets' == Keep(nets, r) && ge' == Keep(ge, r)
    ensures fitness' == Charged(fitness, ge, ge', COLLISION_PENALTY)
    ensures pipe' == pipe.(passed := pipe'.passed)
    ensures pipe'.passed == (pipe.passed || PassedBy(pipe, birds, collide))
    ensures flagged == (pipe'.passed && !pipe.passed)
  {
    ghost var r := Retirement(Collisions(pipe, birds, collide));
    pipe', birds', nets', ge', fitness', flagged := pipe, birds, nets, ge, fitness, false;
    var x := 0;
    ghost var o: nat := 0;
    while x < |birds'|
      invariant Swept(pipe, birds, nets, ge, fitness, collide, pipe', birds', nets', ge', fitness', flagged, o, x)
      decreases |birds'| - x
    {
      pipe', birds', nets', ge', fitness', flagged := SweepOne(pipe, birds, nets, ge, fitness, collide, pipe', birds', nets', ge', fitness', flagged, o, x);
      o := NextVisit(r, o);
      x := x + 1;
    }
    SweepEnd(pipe, birds, nets, ge, fitness, collide, pipe', birds', nets', ge', fitness', flagged, o, x);
  }

  /**
   * One round of the inner loop, for the bird in slot `x`: the collision
   * check with its penalty and pop, then the pass check.
   */
  method SweepOne(pipe: P.PipeState, birds: seq<BirdState>, nets: seq<nat>, ge: seq<nat>, fitness: seq<real>,
                  collide: (int, int, int, BirdState) -> bool,
                  pipe': P.PipeState, birds': seq<BirdState>, nets': seq<nat>, ge': seq<nat>, fitness': seq<real>,
                  flagged: bool, ghost o: nat, x: nat)
    returns (pipe'': P.PipeState, birds'': seq<BirdState>, nets'': seq<nat>, ge'': seq<nat>, fitness'': seq<real>, flagged': bool)
    requires |birds| == |nets| == |ge| && Distinct(ge) && (forall id :: id in ge ==> id < |fitness|)
    requires Swept(pipe, birds, nets, ge, fitness, collide, pipe', birds', nets', ge', fitness', flagged, o, x)
    requires x < |birds'|
    ensures o < |birds| && |birds''| <= |birds'|
    ensures Swept(pipe, birds, nets, ge, fitness, collide, pipe'', birds'', nets'', ge'', fitness'', flagged',
                  NextVisit(Retirement(Collisions(pipe, birds, collide)), o), x + 1)
  {
    pipe'', birds'', nets'', ge'', fitness'', flagged' := pipe', birds', nets', ge', fitness', flagged;
    var bird := birds'[x];
    var hit := collide(pipe'.x, pipe'.top, pipe'.bottom, bird);
    SweepStep(pipe, birds, nets, ge, fitness, collide, pipe', birds', nets', ge', fitness', flagged, o, x);
    if hit {
      fitness'' := fitness'[ge'[x] := fitness'[ge'[x]] - COLLISION_PENALTY];
      birds'', nets'', ge'' := PopIf(birds', x, true), PopIf(nets', x, true), PopIf(ge', x, true);
    }
    if !pipe'.passed && pipe'.x < bird.x {
      pipe'' := pipe'.(passed := true);
      flagged' := true;
    }
  }

  /** Where the inner loop stands after looking at the entries before `o`. */
  ghost predicate Swept(pipe: P.PipeState, birds: seq<BirdState>, nets: seq<nat>, ge: seq<nat>, fitness: seq<real>,
                        collide: (int, int, int, BirdState) -> bool,
                        pipe': P.PipeState, birds': seq<BirdState>, nets': seq<nat>, ge': seq<nat>, fitness': seq<real>,
                        flagged: bool, o: nat, x: nat)
    requires |birds| == |nets| == |ge|
  {
    var r := Retirement(Collisions(pipe, birds, collide));
    && PassAt3(birds', nets', ge', birds, nets, ge, r, o, x)
    && Distinct(ge') && (forall id :: id in ge' ==> id in ge)
    && fitness' == Charged(fitness, ge, ge', COLLISION_PENALTY)
    && pipe' == pipe.(passed := pipe'.passed)
    && pipe'.passed == (pipe.passed || SeenPast(pipe.x, birds, r, o))
    && flagged == (pipe'.passed && !pipe.passed)
  }

  /** Once the slot counter has run off the list, every entry has been decided. */
  lemma SweepEnd(pipe: P.PipeState, birds: seq<BirdState>, nets: seq<nat>, ge: seq<nat>, fitness: seq<real>,
                 collide: (int, int, int, BirdState) -> bool,
                 pipe': P.PipeState, birds': seq<BirdState>, nets': seq<nat>, ge': seq<nat>, fitness': seq<real>,
                 flagged: bool, o: nat, x: nat)
    requires |birds| == |nets| == |ge|
    requires Swept(pipe, birds, nets, ge, fitness, collide, pipe', birds', nets', ge', fitness', flagged, o, x)
    requires x >= |birds'|
    ensures var r := Retirement(Collisions(pipe, birds, collide));
      && o == |birds|
      && birds' == Keep(birds, r) && nets' == Keep(nets, r) && ge' == Keep(ge, r)
      && pipe'.passed == (pipe.passed || SeenPast(pipe.x, birds, r, |birds|))
  {
    var r := Retirement(Collisions(pipe, birds, collide));
    PassEnd3(birds', nets', ge', birds, nets, ge, r, o, x);
    PassAtInside(birds', birds, r, o, x);
  }

  /** One round of the inner loop keeps `Swept`. */
  lemma SweepStep(pipe: P.PipeState, birds: seq<BirdState>, nets: seq<nat>, ge: seq<nat>, fitness: seq<real>,
                  collide: (int, int, int, BirdState) -> bool,
                  pipe': P.PipeState, birds': seq<BirdState>, nets': seq<nat>, ge': seq<nat>, fitness': seq<real>,
                  flagged: bool, o: nat, x: nat)
    requires |birds| == |nets| == |ge| && Distinct(ge) && (forall id :: id in ge ==> id < |fitness|)
    requires Swept(pipe, birds, nets, ge, fitness, collide, pipe', birds', nets', ge', fitness', flagged, o, x)
    requires x < |birds'|
    ensures x < |nets'| && x < |ge'| && ge'[x] < |fitness'|
    ensures var r := Retirement(Collisions(pipe, birds, collide));
      var bird := birds'[x];
      var hit := collide(pipe'.x, pipe'.top, pipe'.bottom, bird);
      var mark := !pipe'.passed && pipe'.x < bird.x;
      o < |birds| &&
      Swept(pipe, birds, nets, ge, fitness, collide,
            if mark then pipe'.(passed := true) else pipe',
            PopIf(birds', x, hit), PopIf(nets', x, hit), PopIf(ge', x, hit),
            if hit then fitness'[ge'[x] := fitness'[ge'[x]] - COLLISION_PENALTY] else fitness',
            flagged || mark, NextVisit(r, o), x + 1)
  {
    var cond := Collisions(pipe, birds, collide);
    var r := Retirement(cond);
    PassStep3(birds', nets', ge', birds, nets, ge, cond, o, x);
    SeenPastNext(pipe.x, birds, r, o);
    var hit := collide(pipe'.x, pipe'.top, pipe'.bottom, birds'[x]);
    assert hit == cond[o];
    PenaliseStep(fitness', fitness, ge', ge, x, hit);
  }

  /** Popping slot `x` charges exactly that genome the collision penalty. */
  lemma PenaliseStep(fitness': seq<real>, fitness: seq<real>, ge': seq<nat>, ge: seq<nat>, x: nat, hit: bool)
    requires x < |ge'| && Distinct(ge') && (forall id :: id in ge' ==> id in ge)
    requires (forall id :: id in ge ==> id < |fitness|)
    requires fitness' == Charged(fitness, ge, ge', COLLISION_PENALTY)
    ensures ge'[x] < |fitness'|
    ensures var ge'' := PopIf(ge', x, hit);
      && Distinct(ge'') && (forall id :: id in ge'' ==> id in ge)
      && (if hit then fitness'[ge'[x] := fitness'[ge'[x]] - COLLISION_PENALTY] else fitness')
         == Charged(fitness, ge, ge'', COLLISION_PENALTY)
  {
    assert ge'[x] in ge';
    if hit {
      PopMembers(ge', x);
    }
  }

  /** The three parallel lists of the population still in the game. */
  datatype Flock = Flock(birds: seq<BirdState>, nets: seq<nat>, ge: seq<nat>)

  predicate InLine(f: Flock)
  {
    |f.birds| == |f.nets| == |f.ge|
  }

  /** The flock after the inner loops for `pipes`, one pipe after the other. */
  ghost function Survivors(pipes: seq<P.PipeState>, f: Flock, collide: (int, int, int, BirdState) -> bool): (s: Flock)
    requires InLine(f)
    ensures InLine(s)
    decreases |pipes|
  {
    if pipes == [] then f
    else
      var before := Survivors(pipes[..|pipes| - 1], f, collide);
      var r := Retirement(Collisions(Last(pipes), before.birds, collide));
      KeepSameLength(before.birds, before.ge, r);
      KeepSameLength(before.nets, before.ge, r);
      Flock(Keep(before.birds, r), Keep(before.nets, r), Keep(before.ge, r))
  }

  /**
   * The pipe checks only ever remove whole entries: the genomes left are
   * distinct genomes of the flock, each bird left is the bird its genome had,
   * and networks and genomes still match.
   */
  lemma {:induction false} SurvivorsKeepPairs(pipes: seq<P.PipeState>, f: Flock, collide: (int, int, int, BirdState) -> bool)
    requires InLine(f) && Distinct(f.ge)
    ensures var s := Survivors(pipes, f, collide);
      && Distinct(s.ge) && (forall id :: id in s.ge ==> id in f.ge)
      && (forall b :: b in s.birds ==> b in f.birds)
      && InStep(s.birds, s.ge, f.birds, f.ge)
      && (f.nets == f.ge ==> s.nets == s.ge)
    decreases |pipes|
  {
    if pipes != [] {
      var before := Survivors(pipes[..|pipes| - 1], f, collide);
      SurvivorsKeepPairs(pipes[..|pipes| - 1], f, collide);
      var r := Retirement(Collisions(Last(pipes), before.birds, collide));
      KeepDistinct(before.ge, r);
      KeepMembers(before.ge, r);
      KeepMembers(before.birds, r);
      KeepInStep(before.birds, before.ge, r);
      InStepTrans(Keep(before.birds, r), Keep(before.ge, r), before.birds, before.ge, f.birds, f.ge);
    }
  }

  /** Two rounds of penalties compose into one. */
  lemma ChargedTrans(f0: seq<real>, g0: seq<nat>, g1: seq<nat>, g2: seq<nat>, amount: real)
    requires (forall id :: id in g2 ==> id in g1) && (forall id :: id in g1 ==> id in g0)
    ensures Charged(Charged(f0, g0, g1, amount), g1, g2, amount) == Charged(f0, g0, g2, amount)
  {
  }

  /**
   * What the loop over the pipes did to `pipe`, met by the flock `before`:
   * `moved` is the pipe moved, marked passed if a bird got past it, and `off`
   * is the offscreen check on its x before the move.
   */
  ghost predicate Tracked(pipe: P.PipeState, moved: P.PipeState, off: bool, before: seq<BirdState>, pipeWidth: int,
                          collide: (int, int, int, BirdState) -> bool)
  {
    && moved == P.Scrolled(pipe).(passed := moved.passed)
    && moved.passed == (pipe.passed || PassedBy(pipe, before, collide))
    && off == P.Offscreen(pipe, pipeWidth)
  }

  /** Where the loop over the pipes stands after the first `k` pipes. */
  ghost predicate Checked(pipes: seq<P.PipeState>, f: Flock, fitness: seq<real>, pipeWidth: int,
                          collide: (int, int, int, BirdState) -> bool, k: nat,
                          pipes': seq<P.PipeState>, f': Flock, fitness': seq<real>, addPipe: bool, offscreen: seq<bool>)
    requires InLine(f) && k <= |pipes|
  {
    && f' == Survivors(pipes[..k], f, collide)
    && Distinct(f'.ge) && (forall id :: id in f'.ge ==> id in f.ge)
    && fitness' == Charged(fitness, f.ge, f'.ge, COLLISION_PENALTY)
    && |pipes'| == |offscreen| == k
    && (forall j {:trigger pipes'[j]} :: 0 <= j < k ==>
         Tracked(pipes[j], pipes'[j], offscreen[j], Survivors(pipes[..j], f, collide).birds, pipeWidth, collide))
    && (addPipe <==> exists j :: 0 <= j < k && !pipes[j].passed && pipes'[j].passed)
  }

  /** One round of the loop over the pipes, for pipe `k`. */
  method CheckOne(pipes: seq<P.PipeState>, ghost f: Flock, fitness: seq<real>, pipeWidth: int,
                  collide: (int, int, int, BirdState) -> bool, k: nat,
                  pipes': seq<P.PipeState>, f': Flock, fitness': seq<real>, addPipe: bool, offscreen: seq<bool>)
    returns (pipes'': seq<P.PipeState>, f'': Flock, fitness'': seq<real>, addPipe': bool, offscreen': seq<bool>)
    requires InLine(f) && Distinct(f.ge) && (forall id :: id in f.ge ==> id < |fitness|)
    requires k < |pipes| && Checked(pipes, f, fitness, pipeWidth, collide, k, pipes', f', fitness', addPipe, offscreen)
    ensures Checked(pipes, f, fitness, pipeWidth, collide, k + 1, pipes'', f'', fitness'', addPipe', offscreen')
  {
    var pipe, birds1, nets1, ge1, fitness1, flagged := CollideAndPass(pipes[k], f'.birds, f'.nets, f'.ge, fitness', collide);
    ghost var r := Retirement(Collisions(pipes[k], f'.birds, collide));
    KeepDistinct(f'.ge, r);
    KeepMembers(f'.ge, r);
    ChargedTrans(fitness, f.ge, f'.ge, ge1, COLLISION_PENALTY);
    assert pipes[..k + 1][..k] == pipes[..k];
    assert Last(pipes[..k + 1]) == pipes[k];
    offscreen' := offscreen + [pipe.x + pipeWidth < 0];
    pipes'' := pipes' + [P.Scrolled(pipe)];
    f'', fitness'' := Flock(birds1, nets1, ge1), fitness1;
    addPipe' := addPipe || flagged;
    TrackedExtend(pipes, f, pipeWidth, collide, k, pipes', offscreen, pipe);
    FlipsExtend(pipes, k, pipes', addPipe, pipe, flagged);
  }

  /** The pipe the inner loop handed back, moved, is tracked. */
  lemma TrackedExtend(pipes: seq<P.PipeState>, f: Flock, pipeWidth: int, collide: (int, int, int, BirdState) -> bool,
                      k: nat, pipes': seq<P.PipeState>, offscreen: seq<bool>, pipe: P.PipeState)
    requires InLine(f) && k < |pipes| && |pipes'| == |offscreen| == k
    requires forall j {:trigger pipes'[j]} :: 0 <= j < k ==>
      Tracked(pipes[j], pipes'[j], offscreen[j], Survivors(pipes[..j], f, collide).birds, pipeWidth, collide)
    requires pipe == pipes[k].(passed := pipe.passed)
    requires pipe.passed == (pipes[k].passed || PassedBy(pipes[k], Survivors(pipes[..k], f, collide).birds, collide))
    ensures var pipes'', offscreen' := pipes' + [P.Scrolled(pipe)], offscreen + [pipe.x + pipeWidth < 0];
      forall j {:trigger pipes''[j]} :: 0 <= j < k + 1 ==>
        Tracked(pipes[j], pipes''[j], offscreen'[j], Survivors(pipes[..j], f, collide).birds, pipeWidth, collide)
  {
    var pipes'', offscreen' := pipes' + [P.Scrolled(pipe)], offscreen + [pipe.x + pipeWidth < 0];
    forall j | 0 <= j < k + 1
      ensures Tracked(pipes[j], pipes''[j], offscreen'[j], Survivors(pipes[..j], f, collide).birds, pipeWidth, collide)
    {
      if j < k {
        assert pipes''[j] == pipes'[j] && offscreen'[j] == offscreen[j];
      }
    }
  }

  /** `addPipe` after pipe `k` tells whether one of the first k + 1 pipes became passed. */
  lemma FlipsExtend(pipes: seq<P.PipeState>, k: nat, pipes': seq<P.PipeState>, addPipe: bool, pipe: P.PipeState, flagged: bool)
    requires k < |pipes| && |pipes'| == k
    requires addPipe <==> exists j :: 0 <= j < k && !pipes[j].passed && pipes'[j].passed
    requires flagged == (pipe.passed && !pipes[k].passed)
    ensures var pipes'' := pipes' + [P.Scrolled(pipe)];
      addPipe || flagged <==> exists j :: 0 <= j < k + 1 && !pipes[j].passed && pipes''[j].passed
  {
    var pipes'' := pipes' + [P.Scrolled(pipe)];
    if addPipe {
      var j :| 0 <= j < k && !pipes[j].passed && pipes'[j].passed;
      assert pipes''[j] == pipes'[j];
    }
    if flagged {
      assert pipes''[k].passed;
    }
    if exists j :: 0 <= j < k + 1 && !pipes[j].passed && pipes''[j].passed {
      var j :| 0 <= j < k + 1 && !pipes[j].passed && pipes''[j].passed;
      if j < k {
        assert pipes''[j] == pipes'[j];
      }
    }
  }

  /**
   * The loop over the pipes: for each pipe in turn its inner loop, then the
   * offscreen check on its x before the move, then the move. `addPipe` tells
   * whether some pipe became passed.
   */
  method CheckPipes(pipes: seq<P.PipeState>, birds: seq<BirdState>, nets: seq<nat>, ge: seq<nat>, fitness: seq<real>,
                    pipeWidth: int, collide: (int, int, int, BirdState) -> bool)
    returns (pipes': seq<P.PipeState>, birds': seq<BirdState>, nets': seq<nat>, ge': seq<nat>, fitness': seq<real>,
             addPipe: bool, offscreen: seq<bool>)
    requires |birds| == |nets| == |ge| && Distinct(ge) && (forall id :: id in ge ==> id < |fitness|)
    ensures Flock(birds', nets', ge') == Survivors(pipes, Flock(birds, nets, ge), collide)
    ensures fitness' == Charged(fitness, ge, ge', COLLISION_PENALTY)
    ensures |pipes'| == |offscreen| == |pipes|
    ensures forall k :: 0 <= k < |pipes| ==>
      Tracked(pipes[k], pipes'[k], offscreen[k], Survivors(pipes[..k], Flock(birds, nets, ge), collide).birds, pipeWidth, collide)
    ensures addPipe <==> exists k :: 0 <= k < |pipes| && !pipes[k].passed && pipes'[k].passed
  {
    var f := Flock(birds, nets, ge);
    var f' := f;
    pipes', fitness', addPipe, offscreen := [], fitness, false, [];
    assert pipes[..0] == [];
    for k := 0 to |pipes|
      invariant Checked(pipes, f, fitness, pipeWidth, collide, k, pipes', f', fitness', addPipe, offscreen)
    {
      pipes', f', fitness', addPipe, offscreen := CheckOne(pipes, f, fitness, pipeWidth, collide, k, pipes', f', fitness', addPipe, offscreen);
    }
    assert pipes[..|pipes|] == pipes;
    birds', nets', ge' := f'.birds, f'.nets, f'.ge;
  }

  /** `addPipe`: every genome still in `ge` earns PASS_BONUS. */
  method Reward(fitness: seq<real>, ge: seq<nat>) returns (fitness': seq<real>)
    requires Distinct(ge) && (forall id :: id in ge ==> id < |fitness|)
    ensures fitness' == Raised(fitness, ge, PASS_BONUS)
  {
    fitness' := fitness;
    assert fitness == Raised(fitness, ge[..0], PASS_BONUS);
    for x := 0 to |ge|
      invariant fitness' == Raised(fitness, ge[..x], PASS_BONUS)
    {
      assert ge[x] in ge;
      CreditStep(fitness, ge, x, PASS_BONUS);
      fitness' := fitness'[ge[x] := fitness'[ge[x]] + PASS_BONUS];
    }
    assert ge[..|ge|] == ge;
  }

  /** The removal of the pipes marked offscreen: the others stay, in order. */
  method DropPipes(pipes: seq<P.PipeState>, removed: seq<bool>) returns (pipes': seq<P.PipeState>)
    requires |removed| == |pipes|
    ensures pipes' == Keep(pipes, removed)
  {
    pipes' := [];
    for k := 0 to |pipes|
      invariant pipes' == Keep(pipes[..k], removed[..k])
    {
      KeepSnoc(pipes, removed, k);
      if !removed[k] {
        pipes' := pipes' + [pipes[k]];
      }
    }
    assert pipes[..|pipes|] == pipes && removed[..|pipes|] == removed;
  }

  /**
   * The floor check: a bird whose sprite reaches the ground line or that has
   * flown above the screen is popped from all three lists; as in the pipe
   * checks, the bird that slides into its slot is not looked at.
   */
  method RetireOutOfBounds(birds: seq<BirdState>, nets: seq<nat>, ge: seq<nat>, birdHeights: seq<int>)
    returns (birds': seq<BirdState>, nets': seq<nat>, ge': seq<nat>)
    requires |birds| == |nets| == |ge|
    requires forall b :: b in birds ==> b.image < |birdHeights|
    ensures var r := Retirement(OutOfBoundsFlags(birds, birdHeights));
      birds' == Keep(birds, r) && nets' == Keep(nets, r) && ge' == Keep(ge, r)
  {
    ghost var cond := OutOfBoundsFlags(birds, birdHeights);
    ghost var r := Retirement(cond);
    birds', nets', ge' := birds, nets, ge;
    var x := 0;
    ghost var o: nat := 0;
    while x < |birds'|
      invariant PassAt3(birds', nets', ge', birds, nets, ge, r, o, x)
      decreases |birds'| - x
    {
      PassStep3(birds', nets', ge', birds, nets, ge, cond, o, x);
      var bird := birds'[x];
      assert bird in birds;
      if bird.y + birdHeights[bird.image] as real >= GROUND_Y as real || bird.y < 0.0 {
        birds', nets', ge' := PopIf(birds', x, true), PopIf(nets', x, true), PopIf(ge', x, true);
      }
      o := NextVisit(r, o);
      x := x + 1;
    }
    PassEnd3(birds', nets', ge', birds, nets, ge, r, o, x);
  }

  /** `draw_window` draws every bird, which advances its wing animation. */
  method SelectFrames(birds: seq<BirdState>) returns (birds': seq<BirdState>)
    ensures |birds'| == |birds|
    ensures forall i :: 0 <= i < |birds| ==> birds'[i] == Drawn(birds[i])
  {
    birds' := birds;
    for x := 0 to |birds|
      invariant |birds'| == |birds|
      invariant forall i :: 0 <= i < x ==> birds'[i] == Drawn(birds[i])
      invariant forall i :: x <= i < |birds| ==> birds'[i] == birds[i]
    {
      birds' := birds'[x := Drawn(birds'[x])];
    }
  }
}
