/**
 * Heroes: a vertically patrolling circle that reverses at the walls or on
 * touching the cursor, and fires on a cooldown (src/lib/board.ts, lines 62-141).
 */
module Heroes {
  import opened Constants
  import opened Collision
  import opened Projectiles
  import opened Wrappers

  /** A hero's state as a value. */
  datatype HeroView = HeroView(
    x: int, y: int, radius: int,
    direction: bool,  // facing right
    up: bool,         // moving upwards
    lastShot: int,
    hits: nat)

  /** True iff a hero at `h` must reverse this tick: the next position meets the near wall, or it touches the cursor. */
  predicate MustTurn(h: HeroView, velocity: int, mouseX: int, mouseY: int, height: int)
  {
    (if h.up then h.y - velocity - h.radius <= 0 else h.y + velocity + h.radius >= height) ||
    DetectCollision(h.x, h.y, mouseX, mouseY, h.radius, MouseRadius)
  }

  /** The vertical position and phase after one unpaused tick. */
  datatype Motion = Motion(y: int, up: bool)

  function Move(h: HeroView, velocity: int, mouseX: int, mouseY: int, height: int): (m: Motion)
    // the phase flips exactly when the hero must turn
    ensures m.up == (h.up != MustTurn(h, velocity, mouseX, mouseY, height))
    // the move is exactly `velocity`, in the direction of the phase after the tick
    ensures m.y == if m.up then h.y - velocity else h.y + velocity
    ensures velocity > 0 ==> (m.y < h.y <==> m.up)
    // a step that does not turn stays clear of the wall it is heading to
    ensures !MustTurn(h, velocity, mouseX, mouseY, height) && m.up ==> m.y - h.radius > 0
    ensures !MustTurn(h, velocity, mouseX, mouseY, height) && !m.up ==> m.y + h.radius < height
  {
    if h.up then
      if h.y - velocity - h.radius <= 0 || DetectCollision(h.x, h.y, mouseX, mouseY, h.radius, MouseRadius)
      then Motion(h.y + velocity, false)
      else Motion(h.y - velocity, true)
    else
      if h.y + velocity + h.radius >= height || DetectCollision(h.x, h.y, mouseX, mouseY, h.radius, MouseRadius)
      then Motion(h.y - velocity, true)
      else Motion(h.y + velocity, false)
  }

  /** The projectile a hero at `(x, y)` fires: from its centre, towards the side it faces. */
  function Shoot(x: int, y: int, direction: bool): (p: Projectile)
    ensures p.x == x && p.y == y && p.radius == ProjectileRadius
    ensures p.velocity > 0 <==> direction
    ensures p.velocity == ProjectileVelocity || p.velocity == -ProjectileVelocity
  {
    Projectile(x, y, if direction then ProjectileVelocity else -ProjectileVelocity, ProjectileRadius)
  }

  /** The hero after one tick, and the projectile it fired, if any. */
  datatype HeroStep = HeroStep(hero: HeroView, shot: Option<Projectile>)

  /** Hero.tick as a function of the hero's state. */
  function HeroTick(h: HeroView, time: int, firerate: int, velocity: int,
                    mouseX: int, mouseY: int, height: int, paused: bool): (r: HeroStep)
    // a paused hero neither moves nor fires
    ensures paused ==> r.hero == h && r.shot == Option.None
    // the fixed attributes and the score never change
    ensures r.hero.x == h.x && r.hero.radius == h.radius && r.hero.direction == h.direction && r.hero.hits == h.hits
    // movement
    ensures !paused ==> Motion(r.hero.y, r.hero.up) == Move(h, velocity, mouseX, mouseY, height)
    // firing: exactly when the cooldown has elapsed, from the position after the move
    ensures !paused ==> (r.shot.Some? <==> time - h.lastShot >= firerate)
    ensures r.shot.Some? ==> r.hero.lastShot == time && r.shot.value == Shoot(r.hero.x, r.hero.y, h.direction)
    ensures r.shot == Option.None ==> r.hero.lastShot == h.lastShot
  {
    if paused then HeroStep(h, Option.None)
    else
      var m := Move(h, velocity, mouseX, mouseY, height);
      var moved := h.(y := m.y, up := m.up);
      if time - h.lastShot >= firerate then
        HeroStep(moved.(lastShot := time), Some(Shoot(moved.x, moved.y, h.direction)))
      else
        HeroStep(moved, Option.None)
  }

  /**
   * Away from the cursor, with a height of more than twice `radius + velocity`,
   * one tick keeps a hero strictly inside the arena.
   */
  lemma StaysInsideAwayFromCursor(h: HeroView, time: int, firerate: int, velocity: int,
                                  mouseX: int, mouseY: int, height: int)
    requires 0 <= velocity && 0 <= h.radius
    requires height > 2 * (h.radius + velocity)
    requires 0 < h.y - h.radius && h.y + h.radius < height
    requires !DetectCollision(h.x, h.y, mouseX, mouseY, h.radius, MouseRadius)
    ensures var r := HeroTick(h, time, firerate, velocity, mouseX, mouseY, height, false).hero;
      0 < r.y - r.radius && r.y + r.radius < height
  {
  }

  /**
   * A turn caused by the cursor moves the hero without checking the wall: a hero
   * whose centre is 16 pixels from the top, moving down onto the cursor, turns
   * upwards and ends partly above the arena.
   */
  lemma CursorTurnCanLeaveArena()
    ensures var h := HeroView(50, 16, HeroRadius, true, false, 0, 0);
      var r := HeroTick(h, 0, 1000, 5, 50, 16, 300, false).hero;
      r.up && r.y - r.radius < 0
  {
  }

  class Hero {
    var x: int
    var y: int
    const radius: int
    const direction: bool
    var up: bool
    var lastShot: int
    var hits: nat

    function View(): (v: HeroView)
      reads this
    {
      HeroView(x, y, radius, direction, up, lastShot, hits)
    }

    constructor (x: int, y: int, radius: int, direction: bool)
      ensures View() == HeroView(x, y, radius, direction, false, 0, 0)
    {
      this.x := x;
      this.y := y;
      this.radius := radius;
      this.direction := direction;
      up := false;
      lastShot := 0;
      hits := 0;
    }

    /** Returns the projectile the hero fires this tick, if any. */
    method Tick(time: int, firerate: int, velocity: int, mouseX: int, mouseY: int,
                height: int, paused: bool) returns (shot: Option<Projectile>)
      modifies this
      ensures View() == HeroTick(old(View()), time, firerate, velocity, mouseX, mouseY, height, paused).hero
      ensures shot == HeroTick(old(View()), time, firerate, velocity, mouseX, mouseY, height, paused).shot
    {
      if paused {
        return Option.None;
      }

      if up {
        if y - velocity - radius <= 0 || DetectCollision(x, y, mouseX, mouseY, radius, MouseRadius) {
          up := false;
          y := y + velocity;
        } else {
          y := y - velocity;
        }
      } else {
        if y + velocity + radius >= height || DetectCollision(x, y, mouseX, mouseY, radius, MouseRadius) {
          up := true;
          y := y - velocity;
        } else {
          y := y + velocity;
        }
      }

      if time - lastShot >= firerate {
        var projVelocity := if direction then ProjectileVelocity else -ProjectileVelocity;
        lastShot := time;
        return Some(Projectile(x, y, projVelocity, ProjectileRadius));
      }

      return Option.None;
    }
  }
}
