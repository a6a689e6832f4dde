/**
 * The scrolling ground of flappy_bird_AI.py: two copies of the ground sprite
 * side by side, moved left together; a copy that has left the screen is put
 * back to the right of the other one. `width` is the sprite's width.
 */
module BaseScroller {

  const VEL: int := 5

  datatype BaseState = BaseState(y: int, x1: int, x2: int)

  /** `Base(y)`: one copy at x = 0, the other right after it, so the two are tiled. */
  function Laid(y: int, width: int): (s: BaseState)
    ensures s.y == y && s.x1 == 0 && s.x2 == s.x1 + width
    ensures width >= 0 ==> Tiled(s, width)
  {
    BaseState(y, 0, width)
  }

  /**
   * `move`: the ground line stays, and given a sprite wider than one step,
   * tiled copies stay tiled.
   */
  function Scrolled(s: BaseState, width: int): (t: BaseState)
    ensures t.y == s.y
    ensures width > VEL && Tiled(s, width) ==> Tiled(t, width)
  {
    var x1 := s.x1 - VEL;
    var x2 := s.x2 - VEL;
    var x1' := if x1 + width < 0 then x2 + width else x1;
    var x2' := if x2 + width < 0 then x1' + width else x2;
    s.(x1 := x1', x2 := x2')
  }

  /**
   * The two copies sit exactly `width` apart, and the left one starts at or
   * before the left edge of the screen without having left it completely.
   */
  predicate Tiled(s: BaseState, width: int)
  {
    if s.x1 <= s.x2 then s.x2 == s.x1 + width && -width <= s.x1 <= 0
    else s.x1 == s.x2 + width && -width <= s.x2 <= 0
  }

  /**
   * A copy is moved other than by VEL only when it has fully left the screen,
   * and then it lands right after the other copy.
   */
  lemma ScrollRepositionsOnlyOffscreen(s: BaseState, width: int)
    requires width > VEL && Tiled(s, width)
    ensures var t := Scrolled(s, width);
      && (t.x1 != s.x1 - VEL ==> s.x1 - VEL + width < 0 && t.x1 == t.x2 + width)
      && (t.x2 != s.x2 - VEL ==> s.x2 - VEL + width < 0 && t.x2 == t.x1 + width)
  {
  }

  /** Tiled copies cover every column from the left edge up to `width`. */
  lemma TiledCoversScreen(s: BaseState, width: int, column: int)
    requires Tiled(s, width) && 0 <= column < width
    ensures (s.x1 <= column < s.x1 + width) || (s.x2 <= column < s.x2 + width)
  {
  }

  /** The ground object; `width` is `BASE_IMAGE.get_width()`. */
  class Base {
    var y: int
    var x1: int
    var x2: int
    const width: int

    function State(): BaseState
      reads this
    {
      BaseState(y, x1, x2)
    }

    constructor (y0: int, width0: int)
      ensures width == width0
      ensures State() == Laid(y0, width0)
    {
      y := y0;
      width := width0;
      x1 := 0;
      x2 := width0;
    }

    method Move()
      modifies this
      ensures width > VEL && old(Tiled(State(), width)) ==> Tiled(State(), width)
      ensures State() == Scrolled(old(State()), width)
    {
      x1 := x1 - VEL;
      x2 := x2 - VEL;
      if x1 + width < 0 {
        x1 := x2 + width;
      }
      if x2 + width < 0 {
        x2 := x1 + width;
      }
    }
  }
}
