/**
 * The duel manager: two heroes, one bounded queue of projectiles per hero,
 * and the per-frame step (src/lib/board.ts, lines 160-287).
 */
module Board {
  import opened Constants
  import opened Collision
  import opened Projectiles
  import opened Heroes
  import opened Wrappers

  /** Which hero, if any, is paused. */
  datatype Paused = None | Hero1 | Hero2

  /**
   * The shift before the push: when the queue already holds `max` or more
   * projectiles its oldest one is dropped, whether or not the hero fired.
   */
  function Evict(q: seq<Projectile>, max: nat): (e: seq<Projectile>)
    // only the oldest entry can go, and it goes exactly when the queue is full
    ensures |e| == if |q| >= max && q != [] then |q| - 1 else |q|
    ensures e == q[|q| - |e|..]
  {
    if |q| >= max && q != [] then q[1..] else q
  }

  /** Adding a hero's shot, if any, to its queue, after the eviction. */
  function Enqueue(q: seq<Projectile>, shot: Option<Projectile>, max: nat): (r: seq<Projectile>)
    // the queue stays bounded
    ensures 0 < max && |q| <= max ==> |r| <= max
    // a new shot is the newest entry, behind what was kept
    ensures shot.Some? ==> |r| > 0 && r[|r| - 1] == shot.value && r[..|r| - 1] == Evict(q, max)
    ensures shot.None? ==> r == Evict(q, max)
  {
    match shot
    case Some(p) => Evict(q, max) + [p]
    case None => Evict(q, max)
  }

  /** A hero firing every one of `shots` in turn, with nothing resolved in between. */
  function FireAll(q: seq<Projectile>, shots: seq<Projectile>, max: nat): (r: seq<Projectile>)
    decreases |shots|
  {
    if shots == [] then q else FireAll(Enqueue(q, Some(shots[0]), max), shots[1..], max)
  }

  function Min(a: int, b: int): (m: int) { if a <= b then a else b }

  /** The last `n` entries of a suffix `s` of `a` are the last `n` entries of `a`. */
  lemma SuffixOfSuffix<T>(a: seq<T>, s: seq<T>, n: nat)
    requires |s| <= |a| && s == a[|a| - |s|..]
    requires n <= |s|
    ensures s[|s| - n..] == a[|a| - n..]
  {
  }

  /** Dropping a prefix commutes with appending. */
  lemma SuffixAppend<T>(a: seq<T>, b: seq<T>, k: nat)
    requires k <= |a|
    ensures a[k..] + b == (a + b)[k..]
  {
  }

  /** One shot into a bounded queue leaves the newest `max` entries of the queue and the shot. */
  lemma EnqueueShotKeepsNewest(q: seq<Projectile>, x: Projectile, max: nat)
    requires 0 < max && |q| <= max
    ensures |Enqueue(q, Some(x), max)| == Min(|q| + 1, max)
    ensures Enqueue(q, Some(x), max) == (q + [x])[|q| + 1 - Min(|q| + 1, max)..]
  {
    var e := Evict(q, max);
    assert Enqueue(q, Some(x), max) == e + [x];
    SuffixAppend(q, [x], |q| - |e|);
  }

  /** After one shot, the queue followed by the shots still to come is a long enough suffix of all shots. */
  lemma EnqueueThenRest(q: seq<Projectile>, shots: seq<Projectile>, max: nat)
    requires 0 < max && |q| <= max && shots != []
    ensures var all' := Enqueue(q, Some(shots[0]), max) + shots[1..];
      |all'| <= |q + shots| && all' == (q + shots)[|q + shots| - |all'|..] &&
      Min(|all'|, max) == Min(|q + shots|, max)
  {
    var x, rest := shots[0], shots[1..];
    var q' := Enqueue(q, Some(x), max);
    EnqueueShotKeepsNewest(q, x, max);
    assert q + shots == (q + [x]) + rest;
    SuffixAppend(q + [x], rest, |q| + 1 - |q'|);
  }

  /** Firing repeatedly into a bounded queue leaves exactly the newest `max` projectiles, oldest first. */
  lemma {:induction false} FireAllKeepsNewest(q: seq<Projectile>, shots: seq<Projectile>, max: nat)
    requires 0 < max && |q| <= max
    ensures FireAll(q, shots, max) == (q + shots)[|q + shots| - Min(|q + shots|, max)..]
    decreases |shots|
  {
    if shots == [] {
      assert q + shots == q;
    } else {
      var q' := Enqueue(q, Some(shots[0]), max);
      var all, all' := q + shots, q' + shots[1..];
      FireAllKeepsNewest(q', shots[1..], max);
      EnqueueThenRest(q, shots, max);
      SuffixOfSuffix(all, all', Min(|all|, max));
    }
  }

  /** Three slots, five shots: the queue holds the last three, oldest first. */
  lemma EvictionScenario(a: Projectile, b: Projectile, c: Projectile, d: Projectile, e: Projectile)
    ensures FireAll([], [a, b, c, d, e], 3) == [c, d, e]
  {
    FireAllKeepsNewest([], [a, b, c, d, e], 3);
  }

  /** The whole duel as a value. */
  datatype BoardView = BoardView(hero1: HeroView, projectiles1: seq<Projectile>,
                                 hero2: HeroView, projectiles2: seq<Projectile>)

  /** The circle a hero offers to the opposing queue. */
  function TargetOf(h: HeroView): (t: Target)
  {
    Target(h.x, h.y, h.radius)
  }

  /** The state right after construction, for an arena `width` wide. */
  function InitialBoard(width: int): (b: BoardView)
    // the manager's invariant holds from the start
    ensures WellFormed(b)
    // nothing has been fired or scored yet, and both heroes start at the same height
    ensures b.projectiles1 == [] && b.projectiles2 == [] && b.hero1.hits == 0 && b.hero2.hits == 0
    ensures b.hero1.y == b.hero2.y && !b.hero1.up && !b.hero2.up
    // the heroes stand symmetrically, each `HeroInset` from its own edge
    ensures b.hero1.x == HeroInset && b.hero2.x == width - HeroInset
  {
    BoardView(HeroView(HeroInset, HeroStartY, HeroRadius, true, false, 0, 0), [],
              HeroView(width - HeroInset, HeroStartY, HeroRadius, false, false, 0, 0), [])
  }

  /**
   * What the manager keeps true: hero1 faces right and hero2 left, both queues
   * are bounded, and every projectile in a queue was fired by that queue's hero
   * (its velocity has the shooter's sign).
   */
  predicate WellFormed(b: BoardView)
  {
    b.hero1.direction && !b.hero2.direction &&
    b.hero1.radius == HeroRadius && b.hero2.radius == HeroRadius &&
    |b.projectiles1| <= MaxProjectiles && |b.projectiles2| <= MaxProjectiles &&
    AllFiredWith(b.projectiles1, ProjectileVelocity, ProjectileRadius) &&
    AllFiredWith(b.projectiles2, -ProjectileVelocity, ProjectileRadius)
  }

  /** What the caller passes to one tick: the clock, the arena, the cursor and each hero's settings. */
  datatype Inputs = Inputs(time: int, width: int, height: int, mouseX: int, mouseY: int,
                           hero1Firerate: int, hero1Velocity: int,
                           hero2Firerate: int, hero2Velocity: int,
                           paused: Paused)

  /** Hero1's own tick. */
  function Step1(b: BoardView, i: Inputs): (r: HeroStep)
    // hero1 keeps its column; paused, it neither moves nor fires
    ensures r.hero.x == b.hero1.x
    ensures i.paused == Paused.Hero1 ==> r.hero == b.hero1 && r.shot.None?
  {
    HeroTick(b.hero1, i.time, i.hero1Firerate, i.hero1Velocity, i.mouseX, i.mouseY, i.height, i.paused == Paused.Hero1)
  }

  /** Hero2's own tick, after it has been re-pinned to the right edge. */
  function Step2(b: BoardView, i: Inputs): (r: HeroStep)
    // hero2 stands at the right edge, paused or not; paused, it neither moves nor fires
    ensures r.hero.x == i.width - HeroInset
    ensures i.paused == Paused.Hero2 ==> r.hero == b.hero2.(x := i.width - HeroInset) && r.shot.None?
    // a shot from hero2 starts from its re-pinned column
    ensures r.shot.Some? ==> r.shot.value.x == i.width - HeroInset
  {
    HeroTick(b.hero2.(x := i.width - HeroInset), i.time, i.hero2Firerate, i.hero2Velocity,
             i.mouseX, i.mouseY, i.height, i.paused == Paused.Hero2)
  }

  /** Queue1 after hero1's shot is added, before it is resolved. */
  function Queued1(b: BoardView, i: Inputs): (q: seq<Projectile>)
    ensures |b.projectiles1| <= MaxProjectiles ==> |q| <= MaxProjectiles
    // hero1's shot, if it fired, is the newest entry of queue1
    ensures Step1(b, i).shot.Some? ==> |q| > 0 && q[|q| - 1] == Step1(b, i).shot.value
  {
    Enqueue(b.projectiles1, Step1(b, i).shot, MaxProjectiles)
  }

  /** Queue2 after hero2's shot is added, before it is resolved. */
  function Queued2(b: BoardView, i: Inputs): (q: seq<Projectile>)
    ensures |b.projectiles2| <= MaxProjectiles ==> |q| <= MaxProjectiles
    // hero2's shot, if it fired, is the newest entry of queue2
    ensures Step2(b, i).shot.Some? ==> |q| > 0 && q[|q| - 1] == Step2(b, i).shot.value
  {
    Enqueue(b.projectiles2, Step2(b, i).shot, MaxProjectiles)
  }

  /**
   * The second half of a tick, after both heroes have moved and fired: each
   * queue is resolved against the opposing hero, and its Hits are credited to
   * its own hero.
   */
  function Resolved(hero1: HeroView, queue1: seq<Projectile>, hero2: HeroView, queue2: seq<Projectile>,
                    width: int): (r: BoardView)
    // each queue can only shrink, and each shooter gains at most one hit per projectile
    ensures |r.projectiles1| <= |queue1| && hero1.hits <= r.hero1.hits <= hero1.hits + |queue1|
    ensures |r.projectiles2| <= |queue2| && hero2.hits <= r.hero2.hits <= hero2.hits + |queue2|
    // the filters change nothing about a hero but its score
    ensures r.hero1 == hero1.(hits := r.hero1.hits) && r.hero2 == hero2.(hits := r.hero2.hits)
  {
    var r1 := Resolve(queue1, TargetOf(hero2), width);
    var r2 := Resolve(queue2, TargetOf(hero1), width);
    BoardView(hero1.(hits := hero1.hits + r1.hits), r1.survivors, hero2.(hits := hero2.hits + r2.hits), r2.survivors)
  }

  /** BoardManager.tick as a function of the whole state. */
  function BoardStep(b: BoardView, i: Inputs): (r: BoardView)
    // hero2 is re-pinned to the right edge; hero1 keeps its column
    ensures r.hero2.x == i.width - HeroInset && r.hero1.x == b.hero1.x
    // the queues stay bounded
    ensures |b.projectiles1| <= MaxProjectiles ==> |r.projectiles1| <= MaxProjectiles
    ensures |b.projectiles2| <= MaxProjectiles ==> |r.projectiles2| <= MaxProjectiles
    // scores never fall
    ensures r.hero1.hits >= b.hero1.hits && r.hero2.hits >= b.hero2.hits
    // a paused hero keeps its position, phase and cooldown; only its score may change
    ensures i.paused == Paused.Hero1 ==> r.hero1 == b.hero1.(hits := r.hero1.hits)
    ensures i.paused == Paused.Hero2 ==> r.hero2 == b.hero2.(x := i.width - HeroInset, hits := r.hero2.hits)
  {
    Resolved(Step1(b, i).hero, Queued1(b, i), Step2(b, i).hero, Queued2(b, i), i.width)
  }

  /** Every tick keeps the manager's invariant. */
  lemma BoardStepKeepsWellFormed(b: BoardView, i: Inputs)
    requires WellFormed(b)
    ensures WellFormed(BoardStep(b, i))
  {
    var s1, s2 := Step1(b, i), Step2(b, i);
    EnqueueKeepsFired(b.projectiles1, s1.shot, ProjectileVelocity);
    EnqueueKeepsFired(b.projectiles2, s2.shot, -ProjectileVelocity);
    ResolveKeepsFired(Queued1(b, i), TargetOf(s2.hero), i.width, ProjectileVelocity, ProjectileRadius);
    ResolveKeepsFired(Queued2(b, i), TargetOf(s1.hero), i.width, -ProjectileVelocity, ProjectileRadius);
  }

  /** A queue keeps its shooter's velocity when that shooter's shot is added. */
  lemma EnqueueKeepsFired(q: seq<Projectile>, shot: Option<Projectile>, velocity: int)
    requires AllFiredWith(q, velocity, ProjectileRadius)
    requires shot.Some? ==> shot.value.velocity == velocity && shot.value.radius == ProjectileRadius
    ensures AllFiredWith(Enqueue(q, shot, MaxProjectiles), velocity, ProjectileRadius)
  {
    var e := Evict(q, MaxProjectiles);
    forall p <- e ensures p.velocity == velocity && p.radius == ProjectileRadius {
      assert p in q;
    }
  }

  /**
   * No self-damage: queue1 is resolved against hero2 as it stands after the
   * tick, and its Hits are credited to hero1, the shooter; queue2 likewise
   * against hero1, credited to hero2. Neither hero's own circle is tested
   * against its own queue.
   */
  lemma OpponentIsTheTarget(b: BoardView, i: Inputs)
    ensures BoardStep(b, i).projectiles1 == Resolve(Queued1(b, i), TargetOf(BoardStep(b, i).hero2), i.width).survivors
    ensures BoardStep(b, i).hero1.hits == b.hero1.hits + Resolve(Queued1(b, i), TargetOf(BoardStep(b, i).hero2), i.width).hits
    ensures BoardStep(b, i).projectiles2 == Resolve(Queued2(b, i), TargetOf(BoardStep(b, i).hero1), i.width).survivors
    ensures BoardStep(b, i).hero2.hits == b.hero2.hits + Resolve(Queued2(b, i), TargetOf(BoardStep(b, i).hero1), i.width).hits
  {
    assert TargetOf(BoardStep(b, i).hero2) == TargetOf(Step2(b, i).hero);
    assert TargetOf(BoardStep(b, i).hero1) == TargetOf(Step1(b, i).hero);
  }

  /** A projectile fired from the centre of the opposing hero hits it at once. */
  lemma PointBlankHit(p: Projectile, h: HeroView, width: int)
    requires p.x == h.x && p.y == h.y && p.radius == ProjectileRadius && h.radius == HeroRadius
    ensures Resolve([p], TargetOf(h), width) == Resolution([], 1)
  {
    assert SquaredDistance(p.x, p.y, h.x, h.y) == 0;
    assert Advance(p, TargetOf(h), width).outcome == Hit;
    assert [p][1..] == [];
  }

  /** On the scenario's first tick both heroes hold still and fire. */
  lemma FirstTickFires(b: BoardView, i: Inputs)
    requires b == InitialBoard(100) && i == Inputs(1000, 100, 300, 0, 1000, 1, 0, 1, 0, Paused.None)
    ensures Step1(b, i) == HeroStep(HeroView(50, 20, HeroRadius, true, false, 1000, 0),
                                    Some(Projectile(50, 20, ProjectileVelocity, ProjectileRadius)))
    ensures Step2(b, i) == HeroStep(HeroView(50, 20, HeroRadius, false, false, 1000, 0),
                                    Some(Projectile(50, 20, -ProjectileVelocity, ProjectileRadius)))
  {
    assert !DetectCollision(50, 20, 0, 1000, HeroRadius, MouseRadius);
  }

  /**
   * With a 100-pixel arena both heroes stand in the same column, so on the
   * first tick in which both fire, each shot hits the other hero at once.
   */
  lemma ImmediateHitScenario()
    ensures var r := BoardStep(InitialBoard(100), Inputs(1000, 100, 300, 0, 1000, 1, 0, 1, 0, Paused.None));
      r.hero1.hits == 1 && r.hero2.hits == 1 && r.projectiles1 == [] && r.projectiles2 == []
  {
    var b := InitialBoard(100);
    var i := Inputs(1000, 100, 300, 0, 1000, 1, 0, 1, 0, Paused.None);
    FirstTickFires(b, i);
    var s1, s2 := Step1(b, i), Step2(b, i);
    assert Queued1(b, i) == [s1.shot.value];
    assert Queued2(b, i) == [s2.shot.value];
    PointBlankHit(s1.shot.value, s2.hero, 100);
    PointBlankHit(s2.shot.value, s1.hero, 100);
  }

  class BoardManager {
    const hero1: Hero
    var projectiles1: seq<Projectile>
    const hero2: Hero
    var projectiles2: seq<Projectile>

    function View(): (v: BoardView)
      reads this, hero1, hero2
    {
      BoardView(hero1.View(), projectiles1, hero2.View(), projectiles2)
    }

    ghost predicate Valid()
      reads this, hero1, hero2
    {
      hero1 != hero2 && WellFormed(View())
    }

    /** The drawing surface is not part of the model; only the arena width is. */
    constructor (width: int)
      ensures Valid() && fresh(hero1) && fresh(hero2)
      ensures View() == InitialBoard(width)
    {
      projectiles1 := [];
      projectiles2 := [];
      hero1 := new Hero(HeroInset, HeroStartY, HeroRadius, true);
      hero2 := new Hero(width - HeroInset, HeroStartY, HeroRadius, false);
    }

    method Tick(time: int, width: int, height: int, mouseX: int, mouseY: int,
                hero1Firerate: int, hero1Velocity: int, hero2Firerate: int, hero2Velocity: int,
                paused: Paused)
      requires Valid()
      modifies this, hero1, hero2
      ensures Valid()
      ensures View() == BoardStep(old(View()), Inputs(time, width, height, mouseX, mouseY,
                                                       hero1Firerate, hero1Velocity, hero2Firerate, hero2Velocity,
                                                       paused))
    {
      ghost var b := View();
      var i := Inputs(time, width, height, mouseX, mouseY,
                      hero1Firerate, hero1Velocity, hero2Firerate, hero2Velocity, paused);
      MoveAndFire(i);
      ResolveQueues(width);
      BoardStepKeepsWellFormed(b, i);
    }

    /** The first half of a tick: re-pin hero2, then let each hero move and fire into its own queue. */
    method MoveAndFire(i: Inputs)
      requires Valid()
      modifies this, hero1, hero2
      ensures hero1 != hero2
      ensures hero1.View() == Step1(old(View()), i).hero && projectiles1 == Queued1(old(View()), i)
      ensures hero2.View() == Step2(old(View()), i).hero && projectiles2 == Queued2(old(View()), i)
    {
      ghost var b := View();
      hero2.x := i.width - HeroInset;
      assert hero2.View() == b.hero2.(x := i.width - HeroInset);
      FireHero1(i);
      FireHero2(i);
    }

    /** Hero1 moves and fires; its shot, if any, joins queue1 after the oldest entry is evicted when full. */
    method FireHero1(i: Inputs)
      requires hero1 != hero2
      modifies this, hero1
      ensures hero1.View() == Step1(old(View()), i).hero && projectiles1 == Queued1(old(View()), i)
      ensures projectiles2 == old(projectiles2)
    {
      ghost var b := View();
      var proj1 := hero1.Tick(i.time, i.hero1Firerate, i.hero1Velocity, i.mouseX, i.mouseY, i.height,
                              i.paused == Paused.Hero1);
      if |projectiles1| >= MaxProjectiles {
        projectiles1 := projectiles1[1..];
      }
      assert projectiles1 == Evict(b.projectiles1, MaxProjectiles);
      if proj1.Some? {
        projectiles1 := projectiles1 + [proj1.value];
      }
    }

    /** Hero2 moves and fires; its shot, if any, joins queue2 after the oldest entry is evicted when full. */
    method FireHero2(i: Inputs)
      requires hero1 != hero2 && hero2.x == i.width - HeroInset
      modifies this, hero2
      ensures hero2.View() == Step2(old(View()), i).hero && projectiles2 == Queued2(old(View()), i)
      ensures projectiles1 == old(projectiles1)
    {
      ghost var b := View();
      assert b.hero2.(x := i.width - HeroInset) == b.hero2;
      var proj2 := hero2.Tick(i.time, i.hero2Firerate, i.hero2Velocity, i.mouseX, i.mouseY, i.height,
                              i.paused == Paused.Hero2);
      if |projectiles2| >= MaxProjectiles {
        projectiles2 := projectiles2[1..];
      }
      assert projectiles2 == Evict(b.projectiles2, MaxProjectiles);
      if proj2.Some? {
        projectiles2 := projectiles2 + [proj2.value];
      }
    }

    /**
     * The second half of a tick, the source's two filters: queue1 against hero2,
     * credited to hero1, then queue2 against hero1, credited to hero2.
     */
    method ResolveQueues(width: int)
      requires hero1 != hero2
      modifies this, hero1, hero2
      ensures hero1 != hero2
      ensures View() == Resolved(old(hero1.View()), old(projectiles1), old(hero2.View()), old(projectiles2), width)
    {
      var r1 := Resolve(projectiles1, Target(hero2.x, hero2.y, hero2.radius), width);
      projectiles1 := r1.survivors;
      hero1.hits := hero1.hits + r1.hits;

      var r2 := Resolve(projectiles2, Target(hero1.x, hero1.y, hero1.radius), width);
      projectiles2 := r2.survivors;
      hero2.hits := hero2.hits + r2.hits;
    }

    /** Which hero, if any, the cursor point is over; hero1 is tested first. */
    function PauseHero(mouseX: int, mouseY: int): (p: Paused)
      reads this, hero1, hero2
      ensures p == Paused.Hero1 <==> DetectCollision(hero1.x, hero1.y, mouseX, mouseY, hero1.radius, 0)
      ensures p == Paused.Hero2 <==>
        !DetectCollision(hero1.x, hero1.y, mouseX, mouseY, hero1.radius, 0) &&
        DetectCollision(hero2.x, hero2.y, mouseX, mouseY, hero2.radius, 0)
      ensures p == Paused.None <==>
        !DetectCollision(hero1.x, hero1.y, mouseX, mouseY, hero1.radius, 0) &&
        !DetectCollision(hero2.x, hero2.y, mouseX, mouseY, hero2.radius, 0)
    {
      if DetectCollision(hero1.x, hero1.y, mouseX, mouseY, hero1.radius, 0) then Paused.Hero1
      else if DetectCollision(hero2.x, hero2.y, mouseX, mouseY, hero2.radius, 0) then Paused.Hero2
      else Paused.None
    }
  }
}
