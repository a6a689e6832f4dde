/**
 * The pipe pair of flappy_bird_AI.py: where `set_height` puts the opening
 * and how `move` scrolls it. The random draw of `set_height` is a parameter
 * that satisfies the range `random.randrange(50, 450)` guarantees; the height
 * of the top pipe's sprite is a parameter too.
 */
module PipeGeometry {

  /** Vertical size of the opening between the two pipes. */
  const GAP: int := 200
  const VEL: int := 5
  /** `random.randrange(MIN_DRAW, MAX_DRAW)`: MAX_DRAW is excluded. */
  const MIN_DRAW: int := 50
  const MAX_DRAW: int := 450
  /** Where a pipe is spawned. */
  const SPAWN_X: int := 600

  datatype PipeState = PipeState(
    x: int,
    height: int,   // lower edge of the top pipe, upper edge of the opening
    top: int,      // where the top pipe's sprite starts
    bottom: int,   // upper edge of the bottom pipe
    passed: bool)

  /** A draw `random.randrange` can return. */
  predicate Drawable(drawn: int)
  {
    MIN_DRAW <= drawn < MAX_DRAW
  }

  /**
   * `set_height` with `drawn` as the random draw: the opening starts at
   * `drawn` and is GAP high, the top sprite ends where the opening starts, and
   * x and the passed mark stay.
   */
  function Heighted(p: PipeState, drawn: int, topImageHeight: int): (q: PipeState)
    ensures q.height == drawn && q.bottom - q.height == GAP && q.top + topImageHeight == q.height
    ensures q == p.(height := q.height, top := q.top, bottom := q.bottom)
  {
    p.(height := drawn, top := drawn - topImageHeight, bottom := drawn + GAP)
  }

  /** `Pipe(x)`: zeroed geometry, not passed, then `set_height`. */
  function Placed(x: int, drawn: int, topImageHeight: int): (p: PipeState)
    requires Drawable(drawn)
    ensures p.x == x && !p.passed
    ensures p.top + topImageHeight == p.height
    ensures p.bottom - p.height == GAP
    ensures MIN_DRAW <= p.height && p.bottom < MAX_DRAW + GAP
  {
    Heighted(PipeState(x, 0, 0, 0, false), drawn, topImageHeight)
  }

  /** `move` changes x by VEL and nothing else. */
  function Scrolled(p: PipeState): (q: PipeState)
    ensures q.x == p.x - VEL
    ensures q == p.(x := q.x)
  {
    p.(x := p.x - VEL)
  }

  /** The right edge of the pipe has left the screen. */
  predicate Offscreen(p: PipeState, width: int)
  {
    p.x + width < 0
  }

  /**
   * The top pipe ends above the bottom pipe, and the whole opening lies
   * between y = 50 and y = 650, above the ground line at 730.
   */
  lemma OpeningBetweenPipes(x: int, drawn: int, topImageHeight: int)
    requires Drawable(drawn) && topImageHeight >= 0
    ensures var p := Placed(x, drawn, topImageHeight);
      p.top <= p.height < p.bottom && 50 <= p.height && p.bottom < 650
  {
  }

  /** `n` successive moves. */
  function ScrolledTimes(p: PipeState, n: nat): PipeState
  {
    if n == 0 then p else Scrolled(ScrolledTimes(p, n - 1))
  }

  lemma {:induction false} ScrolledTimesShift(p: PipeState, n: nat)
    ensures ScrolledTimes(p, n) == p.(x := p.x - n * VEL)
  {
    if n > 0 {
      ScrolledTimesShift(p, n - 1);
    }
  }

  /**
   * A freshly spawned pipe is behind a bird at x = 230 after exactly 75 moves
   * and not before.
   */
  lemma SpawnedPipeReachesBird(p: PipeState)
    requires p.x == SPAWN_X
    ensures ScrolledTimes(p, 75).x < 230 <= ScrolledTimes(p, 74).x
  {
    ScrolledTimesShift(p, 75);
    ScrolledTimesShift(p, 74);
  }

  /** The pipe object; `topImageHeight` and `width` are the sizes of its sprite. */
  class Pipe {
    var x: int
    var height: int
    var top: int
    var bottom: int
    var passed: bool
    const topImageHeight: int
    const width: int

    function State(): PipeState
      reads this
    {
      PipeState(x, height, top, bottom, passed)
    }

    constructor (x0: int, drawn: int, topImageHeight0: int, width0: int)
      requires Drawable(drawn)
      ensures topImageHeight == topImageHeight0 && width == width0
      ensures State() == Placed(x0, drawn, topImageHeight0)
    {
      x := x0;
      height := 0;
      top := 0;
      bottom := 0;
      topImageHeight := topImageHeight0;
      width := width0;
      passed := false;
      new;
      SetHeight(drawn);
    }

    method SetHeight(drawn: int)
      requires Drawable(drawn)
      modifies this
      ensures MIN_DRAW <= height < MAX_DRAW && bottom == height + GAP
      ensures State() == Heighted(old(State()), drawn, topImageHeight)
    {
      height := drawn;
      top := height - topImageHeight;
      bottom := height + GAP;
    }

    method Move()
      modifies this
      ensures x == old(x) - VEL
      ensures State() == Scrolled(old(State()))
    {
      x := x - VEL;
    }
  }
}
